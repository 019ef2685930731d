/** The six-digit password rules of src/bin/day4.rs. A password is split
    into its decimal digits (the first "digit" is `password / 100_000`, so it
    exceeds 9 beyond six digits); part 1 wants the digits never to decrease
    and some two neighbours to be equal, part 2 wants the digits never to
    decrease and some maximal run of equal digits to have length exactly 2. */
module Day4 {
  import opened RustInt

  /** `pass_to_digits`, most significant first. */
  function PassToDigits(password: u32): (digits: seq<nat>)
    ensures |digits| == 6
    ensures forall i | 1 <= i < 6 :: digits[i] < 10
    ensures password < 1_000_000 ==> digits[0] < 10
    ensures password == ((((digits[0] * 10 + digits[1]) * 10 + digits[2]) * 10 + digits[3]) * 10 + digits[4]) * 10 + digits[5]
  {
    var p: nat := password;
    assert p / 100_000 == p / 10_000 / 10;
    assert p / 10_000 == p / 1_000 / 10;
    assert p / 1_000 == p / 100 / 10;
    assert p / 100 == p / 10 / 10;
    [password / 100_000,
     password / 10_000 % 10,
     password / 1_000 % 10,
     password / 100 % 10,
     password / 10 % 10,
     password % 10]
  }

  predicate NonDecreasing(d: seq<nat>) {
    forall i | 0 <= i < |d| - 1 :: d[i] <= d[i + 1]
  }

  predicate HasDouble(d: seq<nat>) {
    exists i | 0 <= i < |d| - 1 :: d[i] == d[i + 1]
  }

  /** `d[i]` and `d[i + 1]` form a maximal run of two equal digits. */
  predicate IsExactPair(d: seq<nat>, i: int) {
    && 0 <= i && i + 1 < |d| && d[i] == d[i + 1]
    && (i == 0 || d[i - 1] != d[i])
    && (i + 2 == |d| || d[i + 2] != d[i])
  }

  predicate HasExactDouble(d: seq<nat>) {
    exists i | 0 <= i < |d| :: IsExactPair(d, i)
  }

  /** The rule of part 1. */
  predicate ValidPart1(password: u32) {
    var d := PassToDigits(password);
    NonDecreasing(d) && HasDouble(d)
  }

  /** The rule of part 2. */
  predicate ValidPart2(password: u32) {
    var d := PassToDigits(password);
    NonDecreasing(d) && HasExactDouble(d)
  }

  /** `is_valid_password_part1`: one pass over neighbouring digits with a
      `found_duplicate` flag. */
  method IsValidPasswordPart1(password: u32) returns (valid: bool)
    ensures valid <==> ValidPart1(password)
  {
    var digits := PassToDigits(password);
    var foundDuplicate := false;
    for i := 0 to 5
      invariant forall j | 0 <= j < i :: digits[j] <= digits[j + 1]
      invariant foundDuplicate <==> exists j | 0 <= j < i :: digits[j] == digits[j + 1]
    {
      if digits[i + 1] < digits[i] {
        return false;
      }
      if digits[i] == digits[i + 1] {
        foundDuplicate := true;
      }
    }
    valid := foundDuplicate;
  }

  /** The length of the run of digits equal to `d[j]` that ends at `j`. */
  function RunEndingAt(d: seq<nat>, j: nat): (n: nat)
    requires j < |d|
    ensures 1 <= n <= j + 1
  {
    if j > 0 && d[j - 1] == d[j] then RunEndingAt(d, j - 1) + 1 else 1
  }

  /** A run that ends at `j` (its successor differs or is missing) has
      length 2 exactly when it is a maximal pair starting at `j - 1`. */
  lemma RunOfTwo(d: seq<nat>, j: nat)
    requires j < |d| && (j + 1 == |d| || d[j + 1] != d[j])
    ensures RunEndingAt(d, j) == 2 <==> j >= 1 && IsExactPair(d, j - 1)
  {
    if j >= 2 && d[j - 1] == d[j] && d[j - 2] == d[j - 1] {
      assert RunEndingAt(d, j) == RunEndingAt(d, j - 2) + 2;
    }
  }

  /** `is_valid_password_part2`: a pass that rejects a decreasing pair, then
      a pass that tracks the current run and its length. */
  method IsValidPasswordPart2(password: u32) returns (valid: bool)
    ensures valid <==> ValidPart2(password)
  {
    var digits := PassToDigits(password);
    for i := 0 to 5
      invariant forall j | 0 <= j < i :: digits[j] <= digits[j + 1]
    {
      if digits[i + 1] < digits[i] {
        return false;
      }
    }
    var currentRun: int := -1;
    var currentRunCount: nat := 1;
    for k := 0 to 6
      invariant k == 0 ==> currentRun == -1 && currentRunCount == 1
      invariant k > 0 ==> currentRun == digits[k - 1] && currentRunCount == RunEndingAt(digits, k - 1)
      invariant forall i | 0 <= i && i + 2 < k :: !IsExactPair(digits, i)
    {
      var digit := digits[k];
      if digit == currentRun {
        currentRunCount := currentRunCount + 1;
      } else {
        currentRun := digit;
        if k > 0 {
          RunOfTwo(digits, k - 1);
        }
        if currentRunCount == 2 {
          return true;
        }
        currentRunCount := 1;
      }
    }
    RunOfTwo(digits, 5);
    valid := currentRunCount == 2;
  }

  /** Every part-2 password is a part-1 password. */
  lemma Part2ImpliesPart1(password: u32)
    requires ValidPart2(password)
    ensures ValidPart1(password)
  {
    var d := PassToDigits(password);
    var i :| 0 <= i < |d| && IsExactPair(d, i);
    assert d[i] == d[i + 1];
  }

  lemma DigitsExamples()
    ensures PassToDigits(111111) == [1, 1, 1, 1, 1, 1]
    ensures PassToDigits(123444) == [1, 2, 3, 4, 4, 4]
    ensures PassToDigits(112222) == [1, 1, 2, 2, 2, 2]
    ensures PassToDigits(123456) == [1, 2, 3, 4, 5, 6]
    ensures PassToDigits(123789) == [1, 2, 3, 7, 8, 9]
    ensures PassToDigits(223450) == [2, 2, 3, 4, 5, 0]
  {
    DigitsOf(111111, [1, 1, 1, 1, 1, 1]);
    DigitsOf(123444, [1, 2, 3, 4, 4, 4]);
    DigitsOf(112222, [1, 1, 2, 2, 2, 2]);
    DigitsOf(123456, [1, 2, 3, 4, 5, 6]);
    DigitsOf(123789, [1, 2, 3, 7, 8, 9]);
    DigitsOf(223450, [2, 2, 3, 4, 5, 0]);
  }

  lemma DigitsOf(p: u32, d: seq<nat>)
    requires |d| == 6 && d[0] == p / 100_000 && d[1] == p / 10_000 % 10 && d[2] == p / 1_000 % 10
    requires d[3] == p / 100 % 10 && d[4] == p / 10 % 10 && d[5] == p % 10
    ensures PassToDigits(p) == d
  {
  }

  /** 111111 passes part 1 only; 223450 decreases; 123456 and 123789 have no pair. */
  lemma Part1Examples()
    ensures ValidPart1(111111)
    ensures !ValidPart1(123456) && !ValidPart1(223450) && !ValidPart1(123789)
  {
    DigitsExamples();
    var d := [1, 1, 1, 1, 1, 1];
    assert d[0] == d[1];
    var e := [2, 2, 3, 4, 5, 0];
    assert e[4] > e[5];
  }

  /** 112222 passes part 2; 111111 and 123444 have runs longer than two. */
  lemma Part2Examples()
    ensures ValidPart2(112222)
    ensures !ValidPart2(111111) && !ValidPart2(123444)
    ensures !ValidPart2(123456) && !ValidPart2(223450) && !ValidPart2(123789)
  {
    DigitsExamples();
    Part1Examples();
    forall pw: u32 | ValidPart2(pw) ensures ValidPart1(pw) {
      Part2ImpliesPart1(pw);
    }
    assert IsExactPair([1, 1, 2, 2, 2, 2], 0);
    var d := [1, 1, 1, 1, 1, 1];
    assert forall i | 0 <= i < 6 :: !IsExactPair(d, i) by {
      assert d[2] == d[0] && d[3] == d[1];
    }
    var e := [1, 2, 3, 4, 4, 4];
    assert forall i | 0 <= i < 6 :: !IsExactPair(e, i);
  }

  /** `count_valid_passwords`: how many passwords in `start..=end` pass. */
  function CountValidPasswords(start: u32, end: u32, validator: u32 -> bool): (count: nat)
    ensures count <= if start > end then 0 else end as int - start as int + 1
    decreases end as int - start as int
  {
    if start > end then 0
    else (if validator(start) then 1 else 0) + (if start == end then 0 else CountValidPasswords(start + 1, end, validator))
  }

  /** The passwords in `start..=end` that pass. */
  function Passing(start: u32, end: u32, validator: u32 -> bool): set<u32> {
    set p: u32 | start <= p <= end && validator(p)
  }

  /** The count is the number of passing passwords in the range. */
  lemma {:induction false} CountIsPassing(start: u32, end: u32, validator: u32 -> bool)
    ensures CountValidPasswords(start, end, validator) == |Passing(start, end, validator)|
    decreases end as int - start as int
  {
    if start > end {
      assert Passing(start, end, validator) == {};
    } else {
      var here: set<u32> := if validator(start) then {start} else {};
      if start == end {
        assert Passing(start, end, validator) == here;
      } else {
        CountIsPassing(start + 1, end, validator);
        var rest := Passing(start + 1, end, validator);
        forall p: u32 ensures p in Passing(start, end, validator) <==> p in here + rest {
        }
        assert Passing(start, end, validator) == here + rest;
        assert here !! rest;
      }
    }
  }
}
