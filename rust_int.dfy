/** Rust's fixed-width integers and its truncating division, written out over
    Dafny's unbounded `int` (whose `/` and `%` are Euclidean). */
module RustInt {

  const I64_MIN: int := -0x8000_0000_0000_0000
  const I64_MAX: int := 0x7FFF_FFFF_FFFF_FFFF
  const I32_MIN: int := -0x8000_0000
  const I32_MAX: int := 0x7FFF_FFFF
  const U32_MAX: int := 0xFFFF_FFFF
  const U64_MAX: int := 0xFFFF_FFFF_FFFF_FFFF
  /** `usize` is 64 bits wide on the targets the program is built for. */
  const USIZE_MODULUS: int := 0x1_0000_0000_0000_0000

  type i64 = x: int | I64_MIN <= x <= I64_MAX
  type i32 = x: int | I32_MIN <= x <= I32_MAX
  type u32 = x: int | 0 <= x <= U32_MAX

  predicate InI64(x: int) { I64_MIN <= x <= I64_MAX }
  predicate InI32(x: int) { I32_MIN <= x <= I32_MAX }

  function Abs(x: int): (r: nat)
    ensures r == x || r == -x
    ensures x >= 0 ==> r == x
  {
    if x < 0 then -x else x
  }

  /** Rust's `a / b` on signed integers: the quotient rounded toward zero. */
  function Quot(a: int, b: int): (q: int)
    requires b != 0
    ensures (a >= 0) == (b > 0) ==> q == Abs(a) / Abs(b)
    ensures (a >= 0) != (b > 0) ==> q == -(Abs(a) / Abs(b))
  {
    var n := Abs(a) / Abs(b);
    if (a >= 0) == (b > 0) then n else -n
  }

  /** Rust's `a % b` on signed integers: the remainder takes the sign of `a`. */
  function Rem(a: int, b: int): (r: int)
    requires b != 0
    ensures a == b * Quot(a, b) + r
    ensures Abs(r) < Abs(b)
    ensures a >= 0 ==> r >= 0
    ensures a <= 0 ==> r <= 0
  {
    var q := Abs(a) / Abs(b);
    var m := Abs(a) % Abs(b);
    RemParts(a, b, q, m);
    if a >= 0 then m else -m
  }

  /** Signs put back on Euclidean quotient and remainder of the magnitudes. */
  lemma RemParts(a: int, b: int, q: int, m: int)
    requires b != 0 && q == Abs(a) / Abs(b) && Abs(a) == Abs(b) * q + m
    ensures a == b * Quot(a, b) + (if a >= 0 then m else -m)
  {
    var t := Quot(a, b);
    if a >= 0 && b > 0 {
      assert t == q;
    } else if a >= 0 {
      assert t == -q;
      assert b * t == (-b) * q;
    } else if b > 0 {
      assert t == -q;
      assert b * t == -(b * q);
    } else {
      assert t == q;
      assert b * t == -((-b) * q);
    }
  }

  /** On non-negative operands Rust's and Dafny's division agree. */
  lemma QuotRemNonNegative(a: nat, b: nat)
    requires b > 0
    ensures Quot(a, b) == a / b && Rem(a, b) == a % b
  {
  }

  /** Euclidean division is unique: `x == d * m + r` with `0 <= r < m`
      fixes both the quotient and the remainder. */
  lemma DivModUnique(x: int, m: int, d: int, r: int)
    requires m > 0 && 0 <= r < m && x == d * m + r
    ensures x / m == d && x % m == r
  {
    var d', r' := x / m, x % m;
    assert (d - d') * m == r' - r;
    if d - d' >= 1 {
      MulGrows(d - d', m);
    } else if d' - d >= 1 {
      MulGrows(d' - d, m);
    }
  }

  lemma MulGrows(k: int, m: int)
    requires k >= 1 && m > 0
    ensures k * m >= m
  {
  }

  /** Rust's `x as usize` for an `i64` (a 64-bit target): negative values wrap. */
  function AsUsize(x: i64): (r: nat)
    ensures x >= 0 ==> r == x
    ensures x < 0 ==> r >= USIZE_MODULUS / 2
  {
    if x >= 0 then x else x + USIZE_MODULUS
  }
}
