/** Asteroid sight lines of src/bin/day10.rs. The direction from one
    asteroid to another is their offset divided by the offsets' gcd, so two
    asteroids on one ray from the station get the same direction; the number
    of asteroids a station sees is the number of distinct directions, less
    the station's own; the best station sees the most. Coordinates are `i32`:
    a subtraction outside `i32`, a count of zero less one, and an empty map
    panic in the source and are errors here. */
module Day10 {
  import opened Wrappers
  import opened RustInt
  import opened Text
  import Lib

  type Coord = (i32, i32)

  datatype Panic = Overflow | Underflow | NoAsteroids

  // ---------------------------------------------------------- arithmetic

  /** `v as i32`: the low 32 bits of `v` read in two's complement. */
  function AsI32(v: int): (r: i32)
    ensures InI32(v) ==> r == v
    ensures (v - r) % 0x1_0000_0000 == 0
  {
    var m := v % 0x1_0000_0000;
    assert v - m == 0x1_0000_0000 * (v / 0x1_0000_0000);
    if m > I32_MAX then
      assert v - (m - 0x1_0000_0000) == 0x1_0000_0000 * (v / 0x1_0000_0000 + 1);
      m - 0x1_0000_0000
    else m
  }

  /** `dst - src` on each axis; an `i32` subtraction that overflows panics. */
  function Offset(dst: Coord, src: Coord): (r: Result<Coord, Panic>)
    ensures r.Ok? <==> InI32(dst.0 - src.0) && InI32(dst.1 - src.1)
    ensures r.Ok? ==> r.value == (dst.0 - src.0, dst.1 - src.1)
  {
    if InI32(dst.0 - src.0) && InI32(dst.1 - src.1) then Ok((dst.0 - src.0, dst.1 - src.1))
    else Err(Overflow)
  }

  /** A divisor of a non-zero number is no larger than its magnitude. */
  lemma DivisorBound(d: nat, n: int)
    requires Lib.Divides(d, n) && n != 0
    ensures 0 < d <= Abs(n)
  {
    var k := Lib.WitnessOfDivides(d, n);
    assert Abs(n) == d * Abs(k);
    Lib.MulAtLeast(d, Abs(k));
  }

  /** `gcd(x.into(), y.into())` of two `i32` values: it never panics, it is 0
      only for two zeros, and it fits in 32 bits unsigned. */
  function Gcd32(x: i32, y: i32): (g: nat)
    ensures Lib.GcdSpec(x, y) == Ok(g)
    ensures Lib.Divides(g, x) && Lib.Divides(g, y)
    ensures g == 0 <==> x == 0 && y == 0
    ensures g <= 0x8000_0000
    ensures x != I32_MIN && y != I32_MIN ==> g <= I32_MAX
  {
    Gcd32Facts(x, y);
    Lib.GcdSpec(x, y).value
  }

  lemma Gcd32Facts(x: i32, y: i32)
    ensures Lib.GcdSpec(x, y).Ok?
    ensures var g := Lib.GcdSpec(x, y).value;
      && g >= 0 && Lib.Divides(g, x) && Lib.Divides(g, y)
      && (g == 0 <==> x == 0 && y == 0)
      && g <= 0x8000_0000
      && (x != I32_MIN && y != I32_MIN ==> g <= I32_MAX)
  {
    Lib.GcdDefined(x, y);
    Lib.GcdIsGreatestCommonDivisor(x, y);
    var g := Lib.GcdSpec(x, y).value;
    if x != 0 {
      DivisorBound(g, x);
    }
    if y != 0 {
      DivisorBound(g, y);
    }
  }

  /** Dividing a multiple of `g > 0` by it is exact and keeps the sign. */
  lemma ExactQuot(x: int, g: int)
    requires g > 0 && Lib.Divides(g, x)
    ensures x == g * Quot(x, g)
    ensures x >= 0 ==> 0 <= Quot(x, g) <= x
    ensures x < 0 ==> x <= Quot(x, g) < 0
  {
    var k := Lib.WitnessOfDivides(g, x);
    if x >= 0 {
      Lib.DivideMultiple(g, k);
      if k < 0 {
        Lib.MulAtLeast(g, -k);
      }
      Lib.MulAtLeast(k, g);
    } else {
      assert Abs(x) == g * (-k);
      Lib.DivideMultiple(g, -k);
      if k >= 0 {
        Lib.MulAtLeast(g, k + 1);
      }
      Lib.MulAtLeast(k, g);
    }
  }

  // ----------------------------------------------------------- directions

  /** `get_direction` as intended: the offset divided by its gcd, and (0, 0)
      from an asteroid to itself. */
  function GetDirection(dst: Coord, src: Coord): (r: Result<Coord, Panic>)
    ensures r.Ok? <==> Offset(dst, src).Ok?
    ensures r.Ok? ==> (r.value == (0, 0) <==> dst == src)
  {
    var d :- Offset(dst, src);
    var g := Gcd32(d.0, d.1);
    if g == 0 then Ok((0, 0))
    else
      ExactQuot(d.0, g);
      ExactQuot(d.1, g);
      Ok((Quot(d.0, g), Quot(d.1, g)))
  }

  /** `get_direction` as written: the gcd is cast to `i32` before dividing.
      The `i32` divisions cannot overflow (`AsWrittenQuotients`). */
  function GetDirectionAsWritten(dst: Coord, src: Coord): (r: Result<Coord, Panic>)
    ensures r.Ok? <==> Offset(dst, src).Ok?
    ensures r.Ok? ==> (r.value == (0, 0) <==> dst == src)
  {
    var d :- Offset(dst, src);
    var g := AsI32(Gcd32(d.0, d.1));
    AsWrittenQuotients(d.0, d.1);
    if g == 0 then Ok((0, 0))
    else Ok((Quot(d.0, g), Quot(d.1, g)))
  }

  /** The `i32` divisions by the cast gcd never overflow, and give (0, 0)
      only for a zero offset: a gcd of 2^31 leaves only the offsets 0 and
      `i32::MIN`, whose quotients by `i32::MIN` are 0 and 1. */
  lemma AsWrittenQuotients(x: i32, y: i32)
    ensures var g := AsI32(Gcd32(x, y));
      && (g == 0 <==> x == 0 && y == 0)
      && (g != 0 ==> InI32(Quot(x, g)) && InI32(Quot(y, g)))
      && (g != 0 ==> (Quot(x, g) == 0 && Quot(y, g) == 0 <==> x == 0 && y == 0))
  {
    var G := Gcd32(x, y);
    if 0 < G <= I32_MAX {
      ExactQuot(x, G);
      ExactQuot(y, G);
    } else if G == 0x8000_0000 {
      assert AsI32(G) == I32_MIN;
      if x != 0 {
        DivisorBound(G, x);
      }
      if y != 0 {
        DivisorBound(G, y);
      }
      assert x == 0 || x == I32_MIN;
      assert y == 0 || y == I32_MIN;
    }
  }

  /** The cast changes nothing while no offset is `i32::MIN`, which holds
      for every pair of non-negative coordinates. */
  lemma AsWrittenAgrees(dst: Coord, src: Coord)
    requires dst.0 - src.0 != I32_MIN && dst.1 - src.1 != I32_MIN
    ensures GetDirectionAsWritten(dst, src) == GetDirection(dst, src)
  {
    if Offset(dst, src).Ok? {
      var d := Offset(dst, src).value;
      var g := Gcd32(d.0, d.1);
      if g != 0 {
        ExactQuot(d.0, g);
        ExactQuot(d.1, g);
      }
    }
  }

  /** From the origin to (i32::MIN, 0) the gcd is 2^31, which the cast turns
      into i32::MIN, so the direction comes out reversed. */
  lemma AsWrittenReverses()
    ensures GetDirectionAsWritten((I32_MIN, 0), (0, 0)) == Ok((1, 0))
    ensures GetDirection((I32_MIN, 0), (0, 0)) == Ok((-1, 0))
  {
    assert Gcd32(I32_MIN, 0) == 0x8000_0000;
  }

  /** A direction is the offset reduced to lowest terms: the offset is a
      positive multiple of it, it has the offset's signs, and its
      components are coprime. */
  lemma DirectionIsReduced(dst: Coord, src: Coord) returns (g: nat)
    requires GetDirection(dst, src).Ok? && dst != src
    ensures var d := Offset(dst, src).value;
      var r := GetDirection(dst, src).value;
      && g > 0 && g == Gcd32(d.0, d.1)
      && d.0 == g * r.0 && d.1 == g * r.1
      && (r.0 > 0 <==> d.0 > 0) && (r.0 < 0 <==> d.0 < 0)
      && (r.1 > 0 <==> d.1 > 0) && (r.1 < 0 <==> d.1 < 0)
      && Lib.GcdSpec(r.0, r.1) == Ok(1)
  {
    var d := Offset(dst, src).value;
    var r := GetDirection(dst, src).value;
    g := Gcd32(d.0, d.1);
    ExactQuot(d.0, g);
    ExactQuot(d.1, g);
    var s, t := Lib.GcdBezout(d.0, d.1);
    Coprime(g, r.0, r.1, s, t);
  }

  /** If `g = s*(g*a) + t*(g*b)` with `g > 0`, then `a` and `b` are coprime. */
  lemma Coprime(g: int, a: i32, b: i32, s: int, t: int)
    requires g > 0 && g == s * (g * a) + t * (g * b)
    ensures Lib.GcdSpec(a, b) == Ok(1)
  {
    assert g * 1 == g * (s * a + t * b) by {
      Lib.MulSwap(s, g, a);
      Lib.MulSwap(t, g, b);
    }
    Lib.CancelFactor(g, 1, s * a + t * b);
    var h := Gcd32(a, b);
    var ka := Lib.WitnessOfDivides(h, a);
    var kb := Lib.WitnessOfDivides(h, b);
    assert 1 == h * (s * ka + t * kb) by {
      Lib.MulSwap(s, h, ka);
      Lib.MulSwap(t, h, kb);
    }
    Lib.DividesByWitness(h, 1, s * ka + t * kb);
    DivisorBound(h, 1);
  }

  /** The test on the full 5x5 grid seen from its centre. */
  lemma DirectionExamples()
    ensures GetDirection((0, 0), (2, 2)) == Ok((-1, -1))
    ensures GetDirection((4, 0), (2, 2)) == Ok((1, -1))
    ensures GetDirection((0, 4), (2, 2)) == Ok((-1, 1))
    ensures GetDirection((4, 4), (2, 2)) == Ok((1, 1))
    ensures GetDirection((0, 1), (2, 2)) == Ok((-2, -1))
    ensures GetDirection((1, 1), (2, 2)) == Ok((-1, -1))
  {
    assert Gcd32(-2, -2) == 2;
    assert Gcd32(2, -2) == 2;
    assert Gcd32(-2, 2) == 2;
    assert Gcd32(2, 2) == 2;
    assert Gcd32(-2, -1) == 1;
    assert Gcd32(-1, -1) == 1;
  }

  /** `iter().map(f).collect()` where `f` may panic: the first panic ends
      it, and otherwise the results are those of `f`, in order. */
  function MapOk<T>(xs: seq<Coord>, f: Coord -> Result<T, Panic>): (r: Result<seq<T>, Panic>)
    ensures r.Ok? <==> forall k | 0 <= k < |xs| :: f(xs[k]).Ok?
    ensures r.Ok? ==> |r.value| == |xs|
    ensures r.Ok? ==> forall k | 0 <= k < |xs| :: r.value[k] == f(xs[k]).value
    ensures r.Err? ==> exists k | 0 <= k < |xs| :: f(xs[k]) == Err(r.error)
  {
    if xs == [] then Ok([])
    else
      var first :- f(xs[0]);
      var rest :- MapOk(xs[1..], f);
      assert forall k | 0 < k < |xs| :: xs[k] == xs[1..][k - 1];
      Ok([first] + rest)
  }

  /** `get_directions`: the direction to every asteroid, in order. */
  function GetDirections(coords: seq<Coord>, src: Coord): (r: Result<seq<Coord>, Panic>)
    ensures r.Ok? <==> forall k | 0 <= k < |coords| :: GetDirection(coords[k], src).Ok?
    ensures r.Ok? ==> |r.value| == |coords|
    ensures r.Ok? ==> forall k | 0 <= k < |coords| :: r.value[k] == GetDirection(coords[k], src).value
  {
    MapOk(coords, c => GetDirection(c, src))
  }

  function Distinct<T>(s: seq<T>): set<T> {
    set x | x in s
  }

  /** `visible_asteroids`: the distinct directions, less one for the
      station itself; with no directions at all the `usize` subtraction
      underflows. */
  function VisibleAsteroids(coords: seq<Coord>, src: Coord): (r: Result<nat, Panic>)
    ensures r.Ok? <==> GetDirections(coords, src).Ok? && coords != []
    ensures r.Ok? ==> r.value + 1 == |Distinct(GetDirections(coords, src).value)|
    ensures GetDirections(coords, src).Ok? && coords == [] ==> r == Err(Underflow)
  {
    var dirs :- GetDirections(coords, src);
    var n := |Distinct(dirs)|;
    assert dirs != [] ==> dirs[0] in Distinct(dirs);
    if n == 0 then Err(Underflow) else Ok(n - 1)
  }

  /** For a station on the map, the count is that of the distinct
      directions towards the other asteroids: the station's own (0, 0) is
      the one taken off. */
  lemma VisibleCountsOthers(coords: seq<Coord>, src: Coord)
    requires src in coords && GetDirections(coords, src).Ok?
    ensures VisibleAsteroids(coords, src) ==
      Ok(|set c | c in coords && c != src && GetDirection(c, src).Ok? :: GetDirection(c, src).value|)
  {
    var dirs := GetDirections(coords, src).value;
    var f := c => if GetDirection(c, src).Ok? then GetDirection(c, src).value else (0, 0);
    forall c | c in coords ensures f(c) == (0, 0) <==> c == src {
      var k :| 0 <= k < |coords| && coords[k] == c;
      assert GetDirection(coords[k], src).Ok?;
    }
    DistinctLessOrigin(coords, src, dirs, f);
    var others := set c | c in coords && c != src :: f(c);
    assert others == set c | c in coords && c != src && GetDirection(c, src).Ok? :: GetDirection(c, src).value;
  }

  /** The distinct values of `f` over a list holding `src`, when `f` sends
      exactly `src` to (0, 0), are (0, 0) and those over the others. */
  lemma DistinctLessOrigin(coords: seq<Coord>, src: Coord, dirs: seq<Coord>, f: Coord -> Coord)
    requires src in coords && |dirs| == |coords|
    requires forall k | 0 <= k < |coords| :: dirs[k] == f(coords[k])
    requires forall c | c in coords :: f(c) == (0, 0) <==> c == src
    ensures |Distinct(dirs)| == |set c | c in coords && c != src :: f(c)| + 1
  {
    var others := set c | c in coords && c != src :: f(c);
    var all := Distinct(dirs);
    forall d | d in all ensures d in others + {(0, 0)} {
      var k :| 0 <= k < |dirs| && dirs[k] == d;
      if coords[k] != src {
        assert f(coords[k]) in others;
      }
    }
    forall d | d in others + {(0, 0)} ensures d in all {
      if d in others {
        var c :| c in coords && c != src && f(c) == d;
        var k :| 0 <= k < |coords| && coords[k] == c;
        assert dirs[k] == d;
      } else {
        var k :| 0 <= k < |coords| && coords[k] == src;
        assert dirs[k] == (0, 0);
      }
    }
    assert all == others + {(0, 0)};
    assert (0, 0) !in others;
  }

  // ------------------------------------------------------------- the best

  /** `max_by_key`: the position of the last largest value. */
  function LastMaxIndex(vs: seq<nat>): (b: nat)
    requires |vs| > 0
    ensures b < |vs|
    ensures forall i | 0 <= i < |vs| :: vs[i] <= vs[b]
    ensures forall i | b < i < |vs| :: vs[i] < vs[b]
  {
    if |vs| == 1 then 0
    else
      var b := LastMaxIndex(vs[..|vs| - 1]);
      if vs[|vs| - 1] >= vs[b] then |vs| - 1 else b
  }

  /** `find_best_asteroid`: the asteroid that sees the most, the last one
      on a tie; `unwrap` on an empty map panics. */
  function FindBestAsteroid(coords: seq<Coord>): (r: Result<Coord, Panic>)
    ensures coords == [] ==> r == Err(NoAsteroids)
    ensures r.Ok? <==> coords != [] && forall k | 0 <= k < |coords| :: GetDirections(coords, coords[k]).Ok?
    ensures r.Ok? ==> r.value in coords
  {
    var see := src => VisibleAsteroids(coords, src);
    AllSeeOk(coords, see);
    var vs :- MapOk(coords, see);
    if vs == [] then Err(NoAsteroids) else Ok(coords[LastMaxIndex(vs)])
  }

  /** Over a non-empty list, every station's count exists exactly when every
      station's directions do. */
  lemma AllSeeOk(coords: seq<Coord>, see: Coord -> Result<nat, Panic>)
    requires forall c :: see(c) == VisibleAsteroids(coords, c)
    ensures coords != [] ==> (MapOk(coords, see).Ok? <==> forall k | 0 <= k < |coords| :: GetDirections(coords, coords[k]).Ok?)
  {
    if coords != [] {
      forall k | 0 <= k < |coords| ensures see(coords[k]).Ok? <==> GetDirections(coords, coords[k]).Ok? {
        assert see(coords[k]) == VisibleAsteroids(coords, coords[k]);
      }
    }
  }

  /** The chosen station sees at least as many asteroids as any other and
      more than every one after it in the list. */
  lemma BestSeesMost(coords: seq<Coord>) returns (b: nat)
    requires FindBestAsteroid(coords).Ok?
    ensures b < |coords| && coords[b] == FindBestAsteroid(coords).value
    ensures forall k | 0 <= k < |coords| ::
      VisibleAsteroids(coords, coords[k]).Ok? &&
      VisibleAsteroids(coords, coords[k]).value <= VisibleAsteroids(coords, coords[b]).value
    ensures forall k | b < k < |coords| ::
      VisibleAsteroids(coords, coords[k]).value < VisibleAsteroids(coords, coords[b]).value
  {
    var see := src => VisibleAsteroids(coords, src);
    var vs := MapOk(coords, see).value;
    b := LastMaxIndex(vs);
    forall k | 0 <= k < |coords| ensures VisibleAsteroids(coords, coords[k]).Ok? && VisibleAsteroids(coords, coords[k]).value == vs[k] {
      assert see(coords[k]).Ok? && see(coords[k]).value == vs[k];
    }
  }

  /** Asteroids at non-negative coordinates (all that the parser produces)
      never make a direction overflow. */
  lemma NonNegativeDirections(coords: seq<Coord>, src: Coord)
    requires src.0 >= 0 && src.1 >= 0
    requires forall k | 0 <= k < |coords| :: coords[k].0 >= 0 && coords[k].1 >= 0
    ensures GetDirections(coords, src).Ok?
  {
  }

  /** `get_directions` over `get_direction` as written. */
  function GetDirectionsAsWritten(coords: seq<Coord>, src: Coord): (r: Result<seq<Coord>, Panic>)
    ensures r.Ok? <==> forall k | 0 <= k < |coords| :: Offset(coords[k], src).Ok?
    ensures r.Ok? ==> |r.value| == |coords|
    ensures r.Ok? ==> forall k | 0 <= k < |coords| :: r.value[k] == GetDirectionAsWritten(coords[k], src).value
  {
    MapOk(coords, c => GetDirectionAsWritten(c, src))
  }

  /** Mapping two functions that agree on a list gives the same result. */
  lemma {:induction false} MapOkAgree<T>(xs: seq<Coord>, f: Coord -> Result<T, Panic>, g: Coord -> Result<T, Panic>)
    requires forall k | 0 <= k < |xs| :: f(xs[k]) == g(xs[k])
    ensures MapOk(xs, f) == MapOk(xs, g)
  {
    if xs != [] {
      assert f(xs[0]) == g(xs[0]);
      assert forall k | 0 <= k < |xs[1..]| :: xs[1..][k] == xs[k + 1];
      MapOkAgree(xs[1..], f, g);
    }
  }

  /** While no offset to the station is `i32::MIN`, the source's directions
      are the model's, so `VisibleAsteroids` and `FindBestAsteroid`, which
      depend on the directions alone, are the source's too. */
  lemma DirectionsAgree(coords: seq<Coord>, src: Coord)
    requires forall k | 0 <= k < |coords| :: coords[k].0 - src.0 != I32_MIN && coords[k].1 - src.1 != I32_MIN
    ensures GetDirectionsAsWritten(coords, src) == GetDirections(coords, src)
  {
    forall k | 0 <= k < |coords|
      ensures GetDirectionAsWritten(coords[k], src) == GetDirection(coords[k], src)
    {
      AsWrittenAgrees(coords[k], src);
    }
    MapOkAgree(coords, c => GetDirectionAsWritten(c, src), c => GetDirection(c, src));
  }

  /** For every map of non-negative coordinates, which is what `parse_map`
      produces, the source and the model agree from every station. */
  lemma ParsedDirectionsAgree(coords: seq<Coord>)
    requires forall k | 0 <= k < |coords| :: coords[k].0 >= 0 && coords[k].1 >= 0
    ensures forall j | 0 <= j < |coords| :: GetDirectionsAsWritten(coords, coords[j]) == GetDirections(coords, coords[j])
  {
    forall j | 0 <= j < |coords|
      ensures GetDirectionsAsWritten(coords, coords[j]) == GetDirections(coords, coords[j])
    {
      DirectionsAgree(coords, coords[j]);
    }
  }

  /** Seen from (0, 0), the asteroids (1, 0) and (`i32::MIN`, 0) lie in
      opposite directions, but as written both get (1, 0): the source counts
      one visible asteroid where the model counts two. */
  lemma VisibleAsWrittenDiffers(coords: seq<Coord>)
    requires coords == [(0, 0), (1, 0), (I32_MIN, 0)]
    ensures GetDirectionsAsWritten(coords, (0, 0)).Ok?
    ensures |Distinct(GetDirectionsAsWritten(coords, (0, 0)).value)| - 1 == 1
    ensures VisibleAsteroids(coords, (0, 0)) == Ok(2)
  {
    var w: seq<Coord> := [(0, 0), (1, 0), (1, 0)];
    var d: seq<Coord> := [(0, 0), (1, 0), (-1, 0)];
    AsWrittenList(coords, w);
    TwoDistinct(w);
    CorrectedList(coords, d);
    ThreeDistinct(d);
  }

  lemma AsWrittenList(coords: seq<Coord>, w: seq<Coord>)
    requires |coords| == 3 && coords[0] == (0, 0) && coords[1] == (1, 0) && coords[2] == (I32_MIN, 0)
    requires |w| == 3 && w[0] == (0, 0) && w[1] == (1, 0) && w[2] == (1, 0)
    ensures GetDirectionsAsWritten(coords, (0, 0)) == Ok(w)
  {
    DirectionsFromOrigin();
    SameThree(GetDirectionsAsWritten(coords, (0, 0)).value, w);
  }

  lemma CorrectedList(coords: seq<Coord>, d: seq<Coord>)
    requires |coords| == 3 && coords[0] == (0, 0) && coords[1] == (1, 0) && coords[2] == (I32_MIN, 0)
    requires |d| == 3 && d[0] == (0, 0) && d[1] == (1, 0) && d[2] == (-1, 0)
    ensures GetDirections(coords, (0, 0)) == Ok(d)
  {
    DirectionsFromOrigin();
    SameThree(GetDirections(coords, (0, 0)).value, d);
  }

  lemma TwoDistinct(w: seq<Coord>)
    requires |w| == 3 && w[0] == (0, 0) && w[1] == (1, 0) && w[2] == (1, 0)
    ensures |Distinct(w)| == 2
  {
    assert Distinct(w) == {(0, 0), (1, 0)};
  }

  lemma ThreeDistinct(d: seq<Coord>)
    requires |d| == 3 && d[0] == (0, 0) && d[1] == (1, 0) && d[2] == (-1, 0)
    ensures |Distinct(d)| == 3
  {
    assert Distinct(d) == {(0, 0), (1, 0), (-1, 0)};
  }

  /** The directions of the three example asteroids seen from (0, 0). */
  lemma DirectionsFromOrigin()
    ensures GetDirectionAsWritten((0, 0), (0, 0)) == Ok((0, 0)) && GetDirection((0, 0), (0, 0)) == Ok((0, 0))
    ensures GetDirectionAsWritten((1, 0), (0, 0)) == Ok((1, 0)) && GetDirection((1, 0), (0, 0)) == Ok((1, 0))
    ensures GetDirectionAsWritten((I32_MIN, 0), (0, 0)) == Ok((1, 0)) && GetDirection((I32_MIN, 0), (0, 0)) == Ok((-1, 0))
  {
    AsWrittenReverses();
    assert Gcd32(1, 0) == 1;
  }

  lemma SameThree(a: seq<Coord>, b: seq<Coord>)
    requires |a| == |b| == 3 && a[0] == b[0] && a[1] == b[1] && a[2] == b[2]
    ensures a == b
  {
  }

  // -------------------------------------------------------------- parsing

  /** The first `n` rows fit the `i32` counters, and so does `n`. */
  predicate RowsFit(lines: seq<string>, n: nat) {
    n <= |lines| && n <= I32_MAX && forall y | 0 <= y < n :: |lines[y]| <= I32_MAX
  }

  predicate FitsI32(lines: seq<string>) {
    RowsFit(lines, |lines|)
  }

  /** The asteroids among the first `n` characters of a row, left to right. */
  function RowAsteroids(line: string, n: nat, y: i32): (r: seq<Coord>)
    requires n <= |line| && n <= I32_MAX
  {
    if n == 0 then []
    else RowAsteroids(line, n - 1, y) + if line[n - 1] == '#' then [(n - 1, y)] else []
  }

  /** The asteroids of the first `n` rows, row after row. */
  function AsteroidsUpTo(lines: seq<string>, n: nat): (r: seq<Coord>)
    requires RowsFit(lines, n)
  {
    if n == 0 then []
    else AsteroidsUpTo(lines, n - 1) + RowAsteroids(lines[n - 1], |lines[n - 1]|, n - 1)
  }

  function Asteroids(lines: seq<string>): (r: seq<Coord>)
    requires FitsI32(lines)
  {
    AsteroidsUpTo(lines, |lines|)
  }

  lemma {:induction false} RowAsteroidsMembers(line: string, n: nat, y: i32, p: Coord)
    requires n <= |line| && n <= I32_MAX
    ensures p in RowAsteroids(line, n, y) <==> p.1 == y && 0 <= p.0 < n && line[p.0] == '#'
  {
    if n > 0 {
      RowAsteroidsMembers(line, n - 1, y, p);
    }
  }

  lemma {:induction false} AsteroidsUpToMembers(lines: seq<string>, n: nat, p: Coord)
    requires RowsFit(lines, n)
    ensures p in AsteroidsUpTo(lines, n) <==> 0 <= p.1 < n && 0 <= p.0 < |lines[p.1]| && lines[p.1][p.0] == '#'
  {
    if n > 0 {
      AsteroidsUpToMembers(lines, n - 1, p);
      RowAsteroidsMembers(lines[n - 1], |lines[n - 1]|, n - 1, p);
    }
  }

  /** The parsed map holds exactly the '#' cells, as (column, row). */
  lemma AsteroidsMembers(lines: seq<string>, p: Coord)
    requires FitsI32(lines)
    ensures p in Asteroids(lines) <==> 0 <= p.1 < |lines| && 0 <= p.0 < |lines[p.1]| && lines[p.1][p.0] == '#'
  {
    AsteroidsUpToMembers(lines, |lines|, p);
  }

  /** `p` comes before `q` in reading order: by row, then by column. */
  predicate ReadingOrder(p: Coord, q: Coord) {
    p.1 < q.1 || (p.1 == q.1 && p.0 < q.0)
  }

  predicate InReadingOrder(r: seq<Coord>) {
    forall i, j | 0 <= i < j < |r| :: ReadingOrder(r[i], r[j])
  }

  /** Two lists in reading order stay in order one after the other when every
      entry of the first comes before every entry of the second. */
  lemma ConcatInOrder(a: seq<Coord>, b: seq<Coord>)
    requires InReadingOrder(a) && InReadingOrder(b)
    requires forall p, q | p in a && q in b :: ReadingOrder(p, q)
    ensures InReadingOrder(a + b)
  {
    var r := a + b;
    forall i, j | 0 <= i < j < |r| ensures ReadingOrder(r[i], r[j]) {
      if j < |a| {
        assert r[i] == a[i] && r[j] == a[j];
      } else if i >= |a| {
        assert r[i] == b[i - |a|] && r[j] == b[j - |a|];
      } else {
        assert r[i] == a[i] && r[j] == b[j - |a|];
      }
    }
  }

  lemma {:induction false} RowAsteroidsOrdered(line: string, n: nat, y: i32)
    requires n <= |line| && n <= I32_MAX
    ensures InReadingOrder(RowAsteroids(line, n, y))
  {
    if n > 0 {
      RowAsteroidsOrdered(line, n - 1, y);
      forall p | p in RowAsteroids(line, n - 1, y) ensures p.1 == y && p.0 < n - 1 {
        RowAsteroidsMembers(line, n - 1, y, p);
      }
      ConcatInOrder(RowAsteroids(line, n - 1, y), if line[n - 1] == '#' then [(n - 1, y)] else []);
    }
  }

  lemma {:induction false} AsteroidsUpToOrdered(lines: seq<string>, n: nat)
    requires RowsFit(lines, n)
    ensures InReadingOrder(AsteroidsUpTo(lines, n))
  {
    if n > 0 {
      var a, b := AsteroidsUpTo(lines, n - 1), RowAsteroids(lines[n - 1], |lines[n - 1]|, n - 1);
      AsteroidsUpToOrdered(lines, n - 1);
      RowAsteroidsOrdered(lines[n - 1], |lines[n - 1]|, n - 1);
      forall p | p in a ensures p.1 < n - 1 {
        AsteroidsUpToMembers(lines, n - 1, p);
      }
      forall q | q in b ensures q.1 == n - 1 {
        RowAsteroidsMembers(lines[n - 1], |lines[n - 1]|, n - 1, q);
      }
      ConcatInOrder(a, b);
    }
  }

  /** The parsed map lists its asteroids in reading order. */
  lemma AsteroidsOrdered(lines: seq<string>)
    requires FitsI32(lines)
    ensures InReadingOrder(Asteroids(lines))
  {
    AsteroidsUpToOrdered(lines, |lines|);
  }

  /** `map.trim().lines()`: the rows of the map. */
  function MapRows(text: string): seq<string> {
    Lines(Trim(text))
  }

  /** `parse_map`: walks the trimmed text line by line and character by
      character, pushing (column, row) for every '#'; the `i32` counters
      panic once a count passes `i32::MAX`. */
  method ParseMap(text: string) returns (r: Result<seq<Coord>, Panic>)
    ensures r.Ok? <==> FitsI32(MapRows(text))
    ensures r.Ok? ==> r.value == Asteroids(MapRows(text))
  {
    var lines := MapRows(text);
    var result: seq<Coord> := [];
    var lineCounter: i32 := 0;
    for y := 0 to |lines|
      invariant lineCounter == y && RowsFit(lines, y)
      invariant result == AsteroidsUpTo(lines, y)
    {
      var line := lines[y];
      ghost var before := result;
      var charCounter: i32 := 0;
      for x := 0 to |line|
        invariant charCounter == x
        invariant result == before + RowAsteroids(line, x, lineCounter)
      {
        if line[x] == '#' {
          result := result + [(charCounter, lineCounter)];
        }
        if charCounter == I32_MAX {
          return Err(Overflow);
        }
        charCounter := charCounter + 1;
      }
      if lineCounter == I32_MAX {
        return Err(Overflow);
      }
      lineCounter := lineCounter + 1;
    }
    r := Ok(result);
  }
}
