/** `gcd` and `lcm` of src/lib.rs over i64. Rust's `abs` of i64::MIN, the
    remainder i64::MIN % -1, a product outside i64 and a division by zero all
    panic; here they are `Err` results. */
module Lib {
  import opened Wrappers
  import opened RustInt

  datatype Panic = Overflow | DivideByZero

  /** `d` divides `n`: `n` is `d` times some integer. */
  predicate Divides(d: int, n: int) {
    if d == 0 then n == 0 else n % d == 0
  }

  lemma DividesByWitness(d: int, n: int, k: int)
    requires n == d * k
    ensures Divides(d, n)
  {
    if d != 0 {
      var q, r := n / d, n % d;
      assert d * (k - q) == r by {
        assert n == d * q + r;
      }
      if k - q >= 1 {
        MulAtLeast(d, k - q);
      } else if k - q <= -1 {
        MulAtLeast(d, q - k);
      }
    }
  }

  /** A non-zero multiple of `d` is at least |d| in absolute value. */
  lemma MulAtLeast(d: int, x: int)
    requires x >= 1
    ensures d >= 0 ==> d * x >= d
    ensures d < 0 ==> d * x <= d
  {
  }

  lemma WitnessOfDivides(d: int, n: int) returns (k: int)
    requires Divides(d, n)
    ensures n == d * k
  {
    if d == 0 {
      k := 0;
    } else {
      k := n / d;
    }
  }

  /** i64's `abs`, which overflows on i64::MIN. */
  function AbsChecked(x: i64): (r: Result<i64, Panic>)
    ensures r.Ok? <==> x != I64_MIN
    ensures r.Ok? ==> r.value == Abs(x)
  {
    if x == I64_MIN then Err(Overflow) else Ok(Abs(x))
  }

  /** The body of `gcd`'s loop, from a state with `b != 0`: `h = a % b`,
      `a = b`, `b = h`, until `b` is 0; the answer is then `a.abs()`. */
  function EuclidLoop(a: i64, b: i64): (r: Result<i64, Panic>)
    requires b != 0
    ensures r.Ok? ==> r.value >= 0
    decreases Abs(b)
  {
    if a == I64_MIN && b == -1 then Err(Overflow)
    else
      var h: i64 := Rem(a, b);
      if h == 0 then AbsChecked(b) else EuclidLoop(b, h)
  }

  /** `gcd(a, b)`, with the two early returns for a zero argument. */
  function GcdSpec(a: i64, b: i64): (r: Result<i64, Panic>)
    ensures a == 0 ==> r == AbsChecked(b)
    ensures b == 0 ==> r == AbsChecked(a)
  {
    if a == 0 then AbsChecked(b)
    else if b == 0 then AbsChecked(a)
    else EuclidLoop(a, b)
  }

  /** `gcd`: the loop of the source, proved to compute `GcdSpec`. */
  method Gcd(a0: i64, b0: i64) returns (r: Result<i64, Panic>)
    ensures r == GcdSpec(a0, b0)
  {
    if a0 == 0 {
      return AbsChecked(b0);
    }
    if b0 == 0 {
      return AbsChecked(a0);
    }
    var a, b := a0, b0;
    while true
      invariant b != 0
      invariant EuclidLoop(a, b) == EuclidLoop(a0, b0)
      decreases Abs(b)
    {
      if a == I64_MIN && b == -1 {
        return Err(Overflow);
      }
      var h: i64 := Rem(a, b);
      a := b;
      b := h;
      if b == 0 {
        break;
      }
    }
    r := AbsChecked(a);
  }

  /** One Euclidean step keeps the common divisors: with `a = b*q + h`,
      `d` divides `a` and `b` exactly when it divides `b` and `h`. */
  lemma CommonDivisorsStep(d: int, a: int, b: int, q: int, h: int)
    requires a == b * q + h
    ensures Divides(d, a) && Divides(d, b) <==> Divides(d, b) && Divides(d, h)
  {
    if Divides(d, b) {
      var kb := WitnessOfDivides(d, b);
      if Divides(d, a) {
        var ka := WitnessOfDivides(d, a);
        assert h == d * (ka - kb * q) by {
          assert b * q == d * (kb * q);
        }
        DividesByWitness(d, h, ka - kb * q);
      }
      if Divides(d, h) {
        var kh := WitnessOfDivides(d, h);
        assert a == d * (kb * q + kh) by {
          assert b * q == d * (kb * q);
        }
        DividesByWitness(d, a, kb * q + kh);
      }
    }
  }

  lemma DividesAbs(d: int, n: int)
    ensures Divides(d, n) <==> Divides(d, Abs(n))
  {
    if Divides(d, n) {
      var k := WitnessOfDivides(d, n);
      DividesByWitness(d, Abs(n), if n >= 0 then k else -k);
    }
    if Divides(d, Abs(n)) {
      var k := WitnessOfDivides(d, Abs(n));
      DividesByWitness(d, n, if n >= 0 then k else -k);
    }
  }

  lemma DividesSelf(d: int)
    ensures Divides(d, d) && Divides(d, 0)
  {
    DividesByWitness(d, d, 1);
    DividesByWitness(d, 0, 0);
  }

  /** The common divisors of the loop's `a` and `b` are those of its answer. */
  lemma {:induction false} EuclidLoopDivisors(a: i64, b: i64, d: int)
    requires b != 0 && EuclidLoop(a, b).Ok?
    ensures Divides(d, a) && Divides(d, b) <==> Divides(d, EuclidLoop(a, b).value)
    decreases Abs(b)
  {
    var h: i64 := Rem(a, b);
    CommonDivisorsStep(d, a, b, Quot(a, b), h);
    if h == 0 {
      DividesSelf(d);
      DividesAbs(d, b);
    } else {
      EuclidLoopDivisors(b, h, d);
    }
  }

  /** `gcd` is the greatest common divisor: it is non-negative, divides both
      arguments, and every common divisor divides it. */
  lemma GcdIsGreatestCommonDivisor(a: i64, b: i64)
    requires GcdSpec(a, b).Ok?
    ensures var g := GcdSpec(a, b).value;
      && g >= 0
      && Divides(g, a) && Divides(g, b)
      && forall d :: Divides(d, a) && Divides(d, b) ==> Divides(d, g)
  {
    var g := GcdSpec(a, b).value;
    forall d
      ensures Divides(d, a) && Divides(d, b) <==> Divides(d, g)
    {
      if a == 0 {
        DividesSelf(d);
        DividesAbs(d, b);
      } else if b == 0 {
        DividesSelf(d);
        DividesAbs(d, a);
      } else {
        EuclidLoopDivisors(a, b, d);
      }
    }
    DividesSelf(g);
  }

  /** `gcd` is an integer combination of its arguments (Bézout). */
  lemma {:induction false} EuclidLoopBezout(a: i64, b: i64) returns (s: int, t: int)
    requires b != 0 && EuclidLoop(a, b).Ok?
    ensures EuclidLoop(a, b).value == s * a + t * b
    decreases Abs(b)
  {
    var h: i64 := Rem(a, b);
    var q := Quot(a, b);
    if h == 0 {
      s, t := 0, if b >= 0 then 1 else -1;
    } else {
      var s1, t1 := EuclidLoopBezout(b, h);
      s, t := t1, s1 - t1 * q;
      BezoutStep(EuclidLoop(a, b).value, a, b, q, h, s1, t1);
    }
  }

  /** Rewrites `g = s1*b + t1*h` with `h = a - b*q` as a combination of `a` and `b`. */
  lemma BezoutStep(g: int, a: int, b: int, q: int, h: int, s1: int, t1: int)
    requires h == a - b * q && g == s1 * b + t1 * h
    ensures g == t1 * a + (s1 - t1 * q) * b
  {
    calc {
      t1 * h;
      t1 * (a - b * q);
      t1 * a - t1 * (b * q);
      { assert t1 * (b * q) == (t1 * q) * b; }
      t1 * a - (t1 * q) * b;
    }
    assert (s1 - t1 * q) * b == s1 * b - (t1 * q) * b;
  }

  lemma GcdBezout(a: i64, b: i64) returns (s: int, t: int)
    requires GcdSpec(a, b).Ok?
    ensures GcdSpec(a, b).value == s * a + t * b
  {
    if a == 0 {
      s, t := 0, if b >= 0 then 1 else -1;
    } else if b == 0 {
      s, t := if a >= 0 then 1 else -1, 0;
    } else {
      s, t := EuclidLoopBezout(a, b);
    }
  }

  /** `gcd` fails only on i64::MIN: for other arguments it always answers. */
  lemma {:induction false} EuclidLoopDefined(a: i64, b: i64)
    requires b != 0 && a != I64_MIN && b != I64_MIN
    ensures EuclidLoop(a, b).Ok?
    decreases Abs(b)
  {
    var h: i64 := Rem(a, b);
    if h != 0 {
      EuclidLoopDefined(b, h);
    }
  }

  lemma GcdDefined(a: i64, b: i64)
    requires a != I64_MIN && b != I64_MIN
    ensures GcdSpec(a, b).Ok?
  {
    if a != 0 && b != 0 {
      EuclidLoopDefined(a, b);
    }
  }

  lemma GcdExamples()
    ensures GcdSpec(6, 4) == Ok(2)
    ensures GcdSpec(-10, -5) == Ok(5)
  {
  }

  /** `lcm(a, b) = (a * b).abs() / gcd(a, b)`, evaluated in that order. */
  function Lcm(a: i64, b: i64): (r: Result<i64, Panic>)
    ensures a == 0 && b == 0 ==> r == Err(DivideByZero)
  {
    var p := a * b;
    if !InI64(p) then Err(Overflow)
    else
      var m :- AbsChecked(p);
      var g :- GcdSpec(a, b);
      if g == 0 then Err(DivideByZero)
      else
        assert m / g <= m by {
          DivisionShrinks(m, g);
        }
        Ok(m / g)
  }

  lemma DivisionShrinks(m: nat, g: int)
    requires g > 0
    ensures m / g <= m
  {
    if m / g > m {
      MulAtLeast(m / g, g);
    }
  }

  /** `(g * k) / g == k` for positive `g`. */
  lemma DivideMultiple(g: int, k: int)
    requires g > 0
    ensures (g * k) / g == k
  {
    DividesByWitness(g, g * k, k);
    var q := (g * k) / g;
    assert g * q == g * k;
    if q > k {
      MulAtLeast(g, q - k);
    } else if q < k {
      MulAtLeast(g, k - q);
    }
  }

  /** `lcm` is the least common multiple: it is non-negative, both arguments
      divide it, and it divides every common multiple. */
  lemma LcmIsLeastCommonMultiple(a: i64, b: i64)
    requires Lcm(a, b).Ok?
    ensures var l := Lcm(a, b).value;
      && l >= 0
      && Divides(a, l) && Divides(b, l)
      && forall m :: Divides(a, m) && Divides(b, m) ==> Divides(l, m)
  {
    var g := GcdSpec(a, b).value;
    var l := Lcm(a, b).value;
    assert g > 0 && l == Abs(a * b) / g;
    GcdIsGreatestCommonDivisor(a, b);
    var ka := WitnessOfDivides(g, a);
    var kb := WitnessOfDivides(g, b);
    LcmQuotient(a, b, g, ka, kb, l);
    var s, t := GcdBezout(a, b);
    forall m | Divides(a, m) && Divides(b, m)
      ensures Divides(l, m)
    {
      LcmDividesCommonMultiple(a, b, g, s, t, ka, l, m);
    }
  }

  /** With `a = g*ka` and `b = g*kb`, `|a*b| / g` is `|ka*b|`, a multiple of
      both `a` and `b`. */
  lemma LcmQuotient(a: int, b: int, g: int, ka: int, kb: int, l: int)
    requires g > 0 && a == g * ka && b == g * kb && l == Abs(a * b) / g
    ensures l == Abs(ka * b) && Divides(a, l) && Divides(b, l)
  {
    MulAssoc(g, ka, b);
    assert Abs(a * b) == g * Abs(ka * b);
    DivideMultiple(g, Abs(ka * b));
    assert ka * b == a * kb by {
      MulAssoc(ka, g, kb);
      MulAssoc(g, ka, kb);
    }
    DividesByWitness(a, a * kb, kb);
    DividesAbs(a, a * kb);
    DividesByWitness(b, ka * b, ka);
    DividesAbs(b, ka * b);
  }

  /** With `g = s*a + t*b` and `l = |ka * b|`, `a = g*ka`: every common
      multiple `m` of `a` and `b` is a multiple of `l`. */
  lemma LcmDividesCommonMultiple(a: int, b: int, g: int, s: int, t: int, ka: int, l: int, m: int)
    requires g > 0 && g == s * a + t * b && a == g * ka && l == Abs(ka * b)
    requires Divides(a, m) && Divides(b, m)
    ensures Divides(l, m)
  {
    var x := WitnessOfDivides(a, m);
    var y := WitnessOfDivides(b, m);
    var q, c := ka * b, s * y + t * x;
    assert m == q * c by {
      CommonMultipleScaled(a, b, g, s, t, ka, m, x, y);
      CancelFactor(g, m, q * c);
    }
    MultipleOfAbs(q, m, c, l);
  }

  lemma MultipleOfAbs(q: int, m: int, c: int, l: int)
    requires m == q * c && l == Abs(q)
    ensures Divides(l, m)
  {
    if q >= 0 {
      DividesByWitness(l, m, c);
    } else {
      DividesByWitness(l, m, -c);
    }
  }

  /** `g*m = g*(ka*b)*(s*y + t*x)` when `m = a*x = b*y`, `g = s*a + t*b`, `a = g*ka`. */
  lemma CommonMultipleScaled(a: int, b: int, g: int, s: int, t: int, ka: int, m: int, x: int, y: int)
    requires g == s * a + t * b && a == g * ka && m == a * x && m == b * y
    ensures g * m == g * ((ka * b) * (s * y + t * x))
  {
    var p := a * b;
    var c := s * y + t * x;
    MulAssoc(a, b, y);
    MulAssoc(b, a, x);
    assert a * m == p * y && b * m == p * x;
    MulAddRight(s * a, t * b, m);
    MulAssoc(s, a, m);
    MulAssoc(t, b, m);
    assert g * m == s * (p * y) + t * (p * x);
    MulSwap(s, p, y);
    MulSwap(t, p, x);
    assert g * m == p * c;
    MulAssoc(g, ka, b);
    MulAssoc(g, ka * b, c);
  }

  lemma MulAssoc(x: int, y: int, z: int)
    ensures (x * y) * z == x * (y * z)
  {
  }

  lemma MulAddRight(x: int, y: int, z: int)
    ensures (x + y) * z == x * z + y * z
  {
  }

  lemma MulSwap(s: int, p: int, y: int)
    ensures s * (p * y) == p * (s * y)
  {
  }

  lemma CancelFactor(g: int, x: int, y: int)
    requires g > 0 && g * x == g * y
    ensures x == y
  {
    if x > y {
      MulAtLeast(g, x - y);
    } else if x < y {
      MulAtLeast(g, y - x);
    }
  }

  lemma LcmExamples()
    ensures Lcm(3, 2) == Ok(6)
    ensures Lcm(3528, 3780) == Ok(52920)
  {
    assert GcdSpec(3, 2) == Ok(1) by {
      assert Rem(3, 2) == 1 && Rem(2, 1) == 0;
    }
    LcmExample(3, 2, 6, 1, 6);
    assert GcdSpec(3528, 3780) == Ok(252) by {
      assert Rem(3528, 3780) == 3528;
      assert Rem(3780, 3528) == 252;
      assert Rem(3528, 252) == 0;
    }
    LcmExample(3528, 3780, 13335840, 252, 52920);
  }

  lemma LcmExample(a: i64, b: i64, p: nat, g: nat, l: nat)
    requires a * b == p && p <= I64_MAX && GcdSpec(a, b) == Ok(g) && g > 0 && p / g == l
    ensures Lcm(a, b) == Ok(l)
  {
  }
}
