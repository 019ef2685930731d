/** The flawed frequency transmission of src/bin/day16.rs. A phase replaces
    digit `i` by the last digit of the absolute value of the sum of all
    digits weighted by the pattern 0, 1, 0, -1 with each entry repeated
    `i + 1` times and the very first entry skipped. */
module Day16 {
  import opened Wrappers
  import opened RustInt
  import Text

  /** The base pattern. */
  const Base: seq<int> := [0, 1, 0, -1]

  /** Entry `k` (0-based) of the pattern for output position `digit - 1`. */
  function PatternAt(digit: nat, k: nat): (v: int)
    requires digit >= 1
    ensures v == 0 || v == 1 || v == -1
  {
    Base[(k + 1) / digit % 4]
  }

  datatype Panic = Overflow | DivideByZero | OutOfBounds

  /** What `FftParams::next` yields from `state`: `state + 1` must fit in an
      i32, `digit` must not be zero and the index into the base pattern must
      not be negative. */
  function NextValue(digit: int, state: int): (r: Result<int, Panic>)
    requires 0 <= state
    ensures r.Err? <==> !InI32(state + 1) || digit == 0 || Rem(Quot(state + 1, digit), 4) < 0
    ensures r == Err(Overflow) <==> !InI32(state + 1)
    ensures InI32(state + 1) && digit > 0 ==> r.Ok?
    ensures r.Ok? ==> r.value in Base
  {
    if !InI32(state + 1) then Err(Overflow)
    else if digit == 0 then Err(DivideByZero)
    else
      var index := Rem(Quot(state + 1, digit), 4);
      if index < 0 then Err(OutOfBounds) else Ok(Base[index])
  }

  /** The iterator `fft_params(digit)`. */
  class FftParams {
    var digit: i32
    var state: i32

    ghost predicate Valid()
      reads this
    {
      0 <= state
    }

    constructor(digit: i32)
      ensures Valid() && this.digit == digit && state == 0
    {
      this.digit := digit;
      state := 0;
    }

    /** `next`: advance `state`, then look up the pattern entry. */
    method Next() returns (r: Result<int, Panic>)
      requires Valid()
      modifies this
      ensures Valid() && digit == old(digit)
      ensures r == NextValue(old(digit), old(state))
      ensures r.Ok? ==> state == old(state) + 1
    {
      if state + 1 > I32_MAX {
        return Err(Overflow);
      }
      state := state + 1;
      if digit == 0 {
        return Err(DivideByZero);
      }
      var index := Rem(Quot(state, digit), 4);
      if index < 0 {
        return Err(OutOfBounds);
      }
      r := Ok(Base[index]);
    }
  }

  /** For a positive digit the `k`-th value of the iterator is `PatternAt`. */
  lemma NextValueIsPattern(digit: int, k: nat)
    requires 1 <= digit && k < I32_MAX
    ensures NextValue(digit, k) == Ok(PatternAt(digit, k))
  {
    QuotRemNonNegative(k + 1, digit);
    QuotRemNonNegative((k + 1) / digit, 4);
  }

  /** `fft_params(digit).take(n).collect_vec()`. */
  method Take(digit: i32, n: nat) returns (r: Result<seq<int>, Panic>)
    requires 1 <= digit
    ensures n <= I32_MAX <==> r.Ok?
    ensures r.Ok? ==> r.value == seq(n, k requires 0 <= k => PatternAt(digit, k))
  {
    var params := new FftParams(digit);
    var values: seq<int> := [];
    while |values| < n
      invariant params.Valid() && params.digit == digit
      invariant params.state == |values| <= n
      invariant values == seq(|values|, k requires 0 <= k => PatternAt(digit, k))
      decreases n - |values|
    {
      if |values| == I32_MAX {
        var failed := params.Next();
        assert failed == Err(Overflow);
        return Err(Overflow);
      }
      NextValueIsPattern(digit, |values|);
      var v := params.Next();
      values := values + [v.value];
    }
    r := Ok(values);
  }

  lemma TakeExamples()
    ensures seq(7, k requires 0 <= k => PatternAt(1, k)) == [1, 0, -1, 0, 1, 0, -1]
    ensures seq(15, k requires 0 <= k => PatternAt(2, k)) == [0, 1, 1, 0, 0, -1, -1, 0, 0, 1, 1, 0, 0, -1, -1]
  {
  }

  // ----------------------------------------------------------------- phase

  /** `digits[..n]` weighted by the pattern for position `digit - 1`. */
  function Weighted(digits: seq<int>, digit: nat, n: nat): int
    requires digit >= 1 && n <= |digits|
  {
    if n == 0 then 0 else Weighted(digits, digit, n - 1) + digits[n - 1] * PatternAt(digit, n - 1)
  }

  /** `phase`: each output is the last digit of the absolute weighted sum. */
  function Phase(digits: seq<int>): (out: seq<int>)
    ensures |out| == |digits|
    ensures forall i | 0 <= i < |out| :: 0 <= out[i] < 10
  {
    seq(|digits|, i requires 0 <= i < |digits| => Abs(Weighted(digits, i + 1, |digits|)) % 10)
  }

  /** Beyond the middle the pattern is 0 before position `i` and 1 from it
      on, so output `i` is the last digit of the sum of `digits[i..]`. */
  lemma {:induction false} WeightedInSecondHalf(digits: seq<int>, i: nat, n: nat)
    requires n <= |digits| && n <= 2 * i + 1
    ensures Weighted(digits, i + 1, n) == if n <= i then 0 else Sum(digits[i..n])
  {
    if n > 0 {
      WeightedInSecondHalf(digits, i, n - 1);
      var j := n - 1;
      PatternInSecondHalf(i, j);
      if j >= i {
        assert digits[i..n] == digits[i..j] + [digits[j]];
        SumAppend(digits[i..j], digits[j]);
        if j == i {
          assert digits[i..j] == [];
        }
      }
    }
  }

  /** Before position `2 * i + 1` the pattern for position `i` is 0 up to
      `i` and 1 from it on. */
  lemma PatternInSecondHalf(i: nat, j: nat)
    requires j < 2 * i + 1
    ensures PatternAt(i + 1, j) == if j < i then 0 else 1
  {
    if j < i {
      DivModUnique(j + 1, i + 1, 0, j + 1);
    } else {
      DivModUnique(j + 1, i + 1, 1, j - i);
    }
  }

  function Sum(s: seq<int>): int {
    if s == [] then 0 else s[0] + Sum(s[1..])
  }

  lemma {:induction false} SumAppend(s: seq<int>, x: int)
    ensures Sum(s + [x]) == Sum(s) + x
  {
    if s == [] {
      assert [] + [x] == [x];
    } else {
      assert (s + [x])[1..] == s[1..] + [x];
      SumAppend(s[1..], x);
    }
  }

  /** Part 2's update: output `i` is the last digit of the absolute sum of
      `data[i..]`. */
  function SuffixPhase(data: seq<int>): (out: seq<int>)
    ensures |out| == |data|
    ensures forall i | 0 <= i < |out| :: 0 <= out[i] < 10
  {
    seq(|data|, i requires 0 <= i < |data| => Abs(Sum(data[i..])) % 10)
  }

  /** Part 2 only looks at the second half, where the suffix sums are exactly
      what a full phase computes. */
  lemma SuffixPhaseIsPhase(data: seq<int>, i: nat)
    requires i < |data| <= 2 * i + 1
    ensures SuffixPhase(data)[i] == Phase(data)[i]
  {
    WeightedInSecondHalf(data, i, |data|);
    assert data[i..|data|] == data[i..];
  }

  /** `rounds` applications of `step`. */
  function Repeat(step: seq<int> -> seq<int>, data: seq<int>, rounds: nat): seq<int> {
    if rounds == 0 then data else step(Repeat(step, data, rounds - 1))
  }

  /** The loops of `part1` and `part2`: `data = phase(&data)` (or the suffix
      update) `rounds` times. */
  method RunPhases(data: seq<int>, rounds: nat, suffix: bool) returns (out: seq<int>)
    ensures out == Repeat(if suffix then SuffixPhase else Phase, data, rounds)
    ensures |out| == |data|
    ensures rounds > 0 ==> forall i | 0 <= i < |out| :: 0 <= out[i] < 10
  {
    out := data;
    for r := 0 to rounds
      invariant out == Repeat(if suffix then SuffixPhase else Phase, data, r)
      invariant |out| == |data|
      invariant r > 0 ==> forall i | 0 <= i < |out| :: 0 <= out[i] < 10
    {
      out := if suffix then SuffixPhase(out) else Phase(out);
    }
  }

  lemma PhaseEntry(d: seq<int>, i: nat, w: int)
    requires i < |d| && Weighted(d, i + 1, |d|) == w
    ensures Phase(d)[i] == Abs(w) % 10
  {
  }

  lemma PhaseExample1()
    ensures Phase([1, 2, 3, 4, 5, 6, 7, 8])[0] == 4
  {
    assert Weighted([1, 2, 3, 4, 5, 6, 7, 8], 1, 8) == -4;
    PhaseEntry([1, 2, 3, 4, 5, 6, 7, 8], 0, -4);
  }

  lemma PhaseExample2()
    ensures Phase([1, 2, 3, 4, 5, 6, 7, 8])[1] == 8
  {
    assert Weighted([1, 2, 3, 4, 5, 6, 7, 8], 2, 8) == -8;
    PhaseEntry([1, 2, 3, 4, 5, 6, 7, 8], 1, -8);
  }

  lemma PhaseExample3()
    ensures Phase([1, 2, 3, 4, 5, 6, 7, 8])[2] == 2
  {
    assert Weighted([1, 2, 3, 4, 5, 6, 7, 8], 3, 8) == 12;
    PhaseEntry([1, 2, 3, 4, 5, 6, 7, 8], 2, 12);
  }

  lemma PhaseExample4()
    ensures Phase([1, 2, 3, 4, 5, 6, 7, 8])[3] == 2
  {
    assert Weighted([1, 2, 3, 4, 5, 6, 7, 8], 4, 8) == 22;
    PhaseEntry([1, 2, 3, 4, 5, 6, 7, 8], 3, 22);
  }

  lemma PhaseExample5()
    ensures Phase([1, 2, 3, 4, 5, 6, 7, 8])[4] == 6
  {
    assert Weighted([1, 2, 3, 4, 5, 6, 7, 8], 5, 8) == 26;
    PhaseEntry([1, 2, 3, 4, 5, 6, 7, 8], 4, 26);
  }

  lemma PhaseExample6()
    ensures Phase([1, 2, 3, 4, 5, 6, 7, 8])[5] == 1
  {
    assert Weighted([1, 2, 3, 4, 5, 6, 7, 8], 6, 8) == 21;
    PhaseEntry([1, 2, 3, 4, 5, 6, 7, 8], 5, 21);
  }

  lemma PhaseExample7()
    ensures Phase([1, 2, 3, 4, 5, 6, 7, 8])[6] == 5
  {
    assert Weighted([1, 2, 3, 4, 5, 6, 7, 8], 7, 8) == 15;
    PhaseEntry([1, 2, 3, 4, 5, 6, 7, 8], 6, 15);
  }

  lemma PhaseExample8()
    ensures Phase([1, 2, 3, 4, 5, 6, 7, 8])[7] == 8
  {
    assert Weighted([1, 2, 3, 4, 5, 6, 7, 8], 8, 8) == 8;
    PhaseEntry([1, 2, 3, 4, 5, 6, 7, 8], 7, 8);
  }

  /** The phase example: 12345678 becomes 48226158. */
  lemma PhaseExample()
    ensures Phase([1, 2, 3, 4, 5, 6, 7, 8]) == [4, 8, 2, 2, 6, 1, 5, 8]
  {
    PhaseExample1();
    PhaseExample2();
    PhaseExample3();
    PhaseExample4();
    PhaseExample5();
    PhaseExample6();
    PhaseExample7();
    PhaseExample8();
    ExampleOutput(Phase([1, 2, 3, 4, 5, 6, 7, 8]));
  }

  lemma ExampleOutput(p: seq<int>)
    requires |p| == 8 && p[0] == 4 && p[1] == 8 && p[2] == 2 && p[3] == 2
    requires p[4] == 6 && p[5] == 1 && p[6] == 5 && p[7] == 8
    ensures p == [4, 8, 2, 2, 6, 1, 5, 8]
  {
  }

  // ---------------------------------------------------- digits and strings

  /** `parse_digits`: the value of each decimal character; the first
      character that is not a decimal digit makes `to_digit(10).unwrap()`
      panic. */
  function ParseDigits(s: string): (r: Result<seq<int>, char>)
    ensures r.Ok? <==> Text.AllDigits(s)
    ensures r.Ok? ==> |r.value| == |s| && forall i | 0 <= i < |s| :: r.value[i] == Text.DigitValue(s[i])
    ensures r.Err? ==> exists i | 0 <= i < |s| :: s[i] == r.error && !Text.IsDigit(s[i])
  {
    if s == [] then Ok([])
    else if !Text.IsDigit(s[0]) then Err(s[0])
    else
      var rest :- ParseDigits(s[1..]);
      Ok([Text.DigitValue(s[0]) as int] + rest)
  }

  /** `digits_to_str`: every value's decimal form, concatenated. */
  function DigitsToStr(digits: seq<int>): (s: string)
    ensures (forall i | 0 <= i < |digits| :: 0 <= digits[i] < 10) ==> |s| == |digits|
  {
    if digits == [] then "" else Text.IntToString(digits[0]) + DigitsToStr(digits[1..])
  }

  /** Printing parsed digits gives back the string. */
  lemma {:induction false} DigitsRoundTrip(s: string)
    requires Text.AllDigits(s)
    ensures ParseDigits(s).Ok? && DigitsToStr(ParseDigits(s).value) == s
  {
    if s != [] {
      DigitsRoundTrip(s[1..]);
      var d := ParseDigits(s).value;
      assert d[1..] == ParseDigits(s[1..]).value;
      assert Text.IntToString(d[0]) == [s[0]];
    }
  }

  /** Parsing printed digits gives back the digits. */
  lemma {:induction false} DigitsToStrRoundTrip(digits: seq<int>)
    requires forall i | 0 <= i < |digits| :: 0 <= digits[i] < 10
    ensures ParseDigits(DigitsToStr(digits)) == Ok(digits)
  {
    if digits != [] {
      DigitsToStrRoundTrip(digits[1..]);
      var s := DigitsToStr(digits);
      assert Text.IntToString(digits[0]) == [Text.DigitChar(digits[0])];
      assert s == [Text.DigitChar(digits[0])] + DigitsToStr(digits[1..]);
      assert s[1..] == DigitsToStr(digits[1..]);
      assert Text.IsDigit(s[0]) && Text.DigitValue(s[0]) == digits[0];
      assert ParseDigits(s) == Ok([digits[0]] + digits[1..]);
      assert [digits[0]] + digits[1..] == digits;
    }
  }

  lemma ParseDigitsExample()
    ensures ParseDigits("01234") == Ok([0, 1, 2, 3, 4])
    ensures DigitsToStr([0, 1, 2, 3, 4]) == "01234"
  {
    var d := [0, 1, 2, 3, 4];
    assert DigitsToStr(d) == "01234" by {
      assert DigitsToStr(d[4..]) == "4";
      assert DigitsToStr(d[3..]) == "3" + "4";
      assert DigitsToStr(d[2..]) == "2" + "34";
      assert DigitsToStr(d[1..]) == "1" + "234";
    }
    DigitsToStrRoundTrip(d);
  }

  /** `part1` without the file: trim, parse, then 100 phases. */
  method Part1(input: string) returns (r: Result<seq<int>, char>)
    ensures ParseDigits(Text.Trim(input)).Err? ==> r == ParseDigits(Text.Trim(input))
    ensures ParseDigits(Text.Trim(input)).Ok? ==> r == Ok(Repeat(Phase, ParseDigits(Text.Trim(input)).value, 100))
  {
    var data :- ParseDigits(Text.Trim(input));
    var out := RunPhases(data, 100, false);
    r := Ok(out);
  }
}
