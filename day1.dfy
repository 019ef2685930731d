/** Fuel requirements of src/bin/day1.rs: a module of mass `m` needs
    `max(m / 3 - 2, 0)` fuel (Rust's truncating `/`), and that fuel in turn
    needs fuel of its own until the requirement reaches zero. The masses are
    far inside i64, so the arithmetic is on unbounded integers. */
module Day1 {
  import opened RustInt

  /** `fuel_for_mass`. */
  function FuelForMass(mass: int): (fuel: nat)
    ensures fuel == 0 <==> mass < 9
    ensures mass >= 9 ==> 3 * (fuel + 2) <= mass < 3 * (fuel + 3)
  {
    var f := Quot(mass, 3) - 2;
    if f > 0 then f else 0
  }

  lemma FuelForMassExamples()
    ensures FuelForMass(12) == 2
    ensures FuelForMass(1969) == 654
    ensures FuelForMass(14) == 2
  {
  }

  /** A positive requirement is always smaller than the mass it is for, so
      the recursion of `fuel_for_fuel` terminates. */
  lemma FuelShrinks(mass: int)
    requires FuelForMass(mass) > 0
    ensures FuelForMass(mass) < mass
  {
  }

  /** `fuel_for_fuel`: the fuel for `mass`, plus the fuel for that fuel, and
      so on; about half of the mass at most, since each round takes a third. */
  function FuelForFuel(mass: int): (total: nat)
    ensures FuelForMass(mass) == 0 ==> total == 0
    ensures FuelForMass(mass) <= total
    ensures mass >= 0 ==> 2 * total <= mass
    decreases if mass < 0 then 0 else mass
  {
    var fuel := FuelForMass(mass);
    if fuel == 0 then 0
    else
      FuelShrinks(mass);
      FuelForFuel(fuel) + fuel
  }

  lemma FuelForFuelExamples()
    ensures FuelForFuel(2) == 0
    ensures FuelForFuel(654) == 966 - 654
  {
    assert FuelForMass(2) == 0;
    assert FuelForMass(5) == 0 && FuelForFuel(5) == 0;
    assert FuelForMass(21) == 5 && FuelForFuel(21) == 5;
    assert FuelForMass(70) == 21 && FuelForFuel(70) == 26;
    assert FuelForMass(216) == 70 && FuelForFuel(216) == 96;
    assert FuelForMass(654) == 216;
  }
}
