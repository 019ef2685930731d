/** The card-shuffling techniques of src/bin/day22.rs: dealing into a new
    stack (reversal), cutting `n` cards (rotation) and dealing with an
    increment (card `i` goes to position `i * n mod len`), applied in place
    to a deck; the position a card came from for the first two; and the
    parser for technique lines. */
module Day22 {
  import opened Wrappers
  import opened RustInt
  import Text

  datatype ShuffleTechnique = NewStack | Cut(n: i32) | DealIncrement(n: i32)

  /** The ways the Rust code panics. */
  datatype Panic =
    | RotateTooFar    // `rotate_left`/`rotate_right` by more than the length
    | Overflow        // `-n` of i32::MIN, or `i * n` beyond usize
    | BadTechnique    // an unrecognised line, or a last word that is not an i32

  function Reversed(deck: seq<i32>): (r: seq<i32>)
    ensures |r| == |deck|
    ensures forall i | 0 <= i < |deck| :: r[i] == deck[|deck| - 1 - i]
  {
    seq(|deck|, i requires 0 <= i < |deck| => deck[|deck| - 1 - i])
  }

  /** `rotate_left(k)`: the first `k` cards move to the bottom. */
  function RotateLeft(deck: seq<i32>, k: nat): seq<i32>
    requires k <= |deck|
  {
    deck[k..] + deck[..k]
  }

  /** The table of `new_array` after the first `k` cards have been dealt:
      card `i` was stored at `(i * step) % len`, later cards overwriting
      earlier ones, and untouched positions hold 0. */
  function DealPrefix(deck: seq<i32>, step: nat, k: nat): (table: seq<i32>)
    requires 0 < |deck| && k <= |deck|
    ensures |table| == |deck|
  {
    if k == 0 then seq(|deck|, _ => 0)
    else DealPrefix(deck, step, k - 1)[((k - 1) * step) % |deck| := deck[k - 1]]
  }

  /** `apply`: the new deck, or the panic. */
  function ApplySpec(t: ShuffleTechnique, deck: seq<i32>): (r: Result<seq<i32>, Panic>)
    ensures r.Ok? ==> |r.value| == |deck|
  {
    match t
    case NewStack => Ok(Reversed(deck))
    case Cut(n) =>
      if n >= 0 then
        if n as int > |deck| then Err(RotateTooFar) else Ok(RotateLeft(deck, n as int))
      else if n == I32_MIN then Err(Overflow)
      else if -n as int > |deck| then Err(RotateTooFar)
      else Ok(RotateLeft(deck, |deck| + n as int))
    case DealIncrement(n) =>
      var step := AsUsize(n);
      if |deck| == 0 then Ok(deck)
      else if (|deck| - 1) * step >= USIZE_MODULUS then Err(Overflow)
      else Ok(DealPrefix(deck, step, |deck|))
  }

  /** `come_from` for NewStack and Cut: the position before the technique of
      the card that is at `pos` after it (i128 arithmetic, truncating `%`). */
  function ComeFrom(t: ShuffleTechnique, pos: int, numCards: int): (r: int)
    requires !t.DealIncrement? && numCards > 0
    ensures t.NewStack? && 0 <= pos < numCards ==> 0 <= r < numCards && r + pos == numCards - 1
    ensures t.Cut? && 0 <= t.n as int + pos + numCards ==>
      0 <= r < numCards && r == (t.n as int + pos) % numCards
  {
    match t
    case NewStack => numCards - pos - 1
    case Cut(n) =>
      CutWraps(n as int + pos, numCards);
      Rem(n as int + pos + numCards, numCards)
  }

  /** Truncating `(x + m) % m` of a non-negative sum is the Euclidean `x % m`. */
  lemma CutWraps(x: int, m: int)
    requires m > 0
    ensures x + m >= 0 ==> 0 <= Rem(x + m, m) < m && Rem(x + m, m) == x % m
  {
    if x + m >= 0 {
      var q, r := Quot(x + m, m), Rem(x + m, m);
      assert x == (q - 1) * m + r;
      DivModUnique(x, m, q - 1, r);
    }
  }

  /** Position inverse: after NewStack or an in-range Cut, the card at `p`
      is the card that was at `ComeFrom(t, p, len)`. */
  lemma ApplyComeFrom(t: ShuffleTechnique, deck: seq<i32>, p: nat)
    requires !t.DealIncrement? && ApplySpec(t, deck).Ok? && p < |deck|
    ensures 0 <= ComeFrom(t, p, |deck|) < |deck|
    ensures ApplySpec(t, deck).value[p] == deck[ComeFrom(t, p, |deck|)]
  {
    match t
    case NewStack =>
    case Cut(n) =>
      var len := |deck|;
      var k := if n >= 0 then n as int else len + n as int;
      assert ApplySpec(t, deck).value == RotateLeft(deck, k);
      QuotRemNonNegative(n as int + p + len, len);
      RotateLeftAt(deck, k, p);
      CutSourceIndex(n as int, len, p, k);
  }

  lemma RotateLeftAt(deck: seq<i32>, k: nat, p: nat)
    requires k <= |deck| && p < |deck|
    ensures RotateLeft(deck, k)[p] == if p < |deck| - k then deck[k + p] else deck[p - (|deck| - k)]
  {
  }

  /** `(n + p + len) % len` is the index rotation by `k` reads position `p` from. */
  lemma CutSourceIndex(n: int, len: int, p: nat, k: nat)
    requires p < len && -len <= n <= len && k == (if n >= 0 then n else len + n) && k <= len
    ensures (n + p + len) % len == if p < len - k then k + p else p - (len - k)
  {
    var x := n + p + len;
    if p < len - k {
      if n >= 0 {
        DivModUnique(x, len, 1, k + p);
      } else {
        DivModUnique(x, len, 0, k + p);
      }
    } else {
      if n >= 0 {
        DivModUnique(x, len, 2, p - (len - k));
      } else {
        DivModUnique(x, len, 1, p - (len - k));
      }
    }
  }

  /** NewStack and Cut only move cards: the multiset of the deck is kept. */
  lemma ApplyPermutes(t: ShuffleTechnique, deck: seq<i32>)
    requires !t.DealIncrement? && ApplySpec(t, deck).Ok?
    ensures multiset(ApplySpec(t, deck).value) == multiset(deck)
  {
    match t
    case NewStack => ReversedPermutes(deck);
    case Cut(n) =>
      var k := if n >= 0 then n as int else |deck| + n as int;
      assert deck == deck[..k] + deck[k..];
  }

  lemma {:induction false} ReversedPermutes(deck: seq<i32>)
    ensures multiset(Reversed(deck)) == multiset(deck)
    decreases |deck|
  {
    if |deck| > 0 {
      var rest := deck[1..];
      ReversedPermutes(rest);
      assert Reversed(deck) == Reversed(rest) + [deck[0]];
      assert deck == [deck[0]] + rest;
    }
  }

  /** Dealing into a new stack twice gives back the deck. */
  lemma NewStackTwice(deck: seq<i32>)
    ensures Reversed(Reversed(deck)) == deck
  {
  }

  /** Card `i` ends at `(i * step) % len` unless a later card is dealt onto
      the same position; a position no card is dealt onto holds 0. */
  lemma {:induction false} DealPlacement(deck: seq<i32>, step: nat, k: nat)
    requires 0 < |deck| && k <= |deck|
    ensures forall i | 0 <= i < k && (forall j | i < j < k :: (j * step) % |deck| != (i * step) % |deck|) ::
      DealPrefix(deck, step, k)[(i * step) % |deck|] == deck[i]
    ensures forall p | 0 <= p < |deck| && (forall j | 0 <= j < k :: (j * step) % |deck| != p) ::
      DealPrefix(deck, step, k)[p] == 0
  {
    if k > 0 {
      DealPlacement(deck, step, k - 1);
    }
  }

  // ---------------------------------------------------------------- in place

  /** `apply`, changing the deck in place; a panic leaves it as it was. */
  method Apply(t: ShuffleTechnique, cards: array<i32>) returns (r: Result<(), Panic>)
    modifies cards
    ensures r.Ok? <==> ApplySpec(t, old(cards[..])).Ok?
    ensures r.Ok? ==> cards[..] == ApplySpec(t, old(cards[..])).value
    ensures r.Err? ==> r.error == ApplySpec(t, old(cards[..])).error && cards[..] == old(cards[..])
  {
    match t
    case NewStack =>
      Reverse(cards);
      r := Ok(());
    case Cut(n) =>
      if n >= 0 {
        if n as int > cards.Length {
          return Err(RotateTooFar);
        }
        RotateLeftInPlace(cards, n as int);
      } else {
        if n == I32_MIN {
          return Err(Overflow);
        }
        if -n as int > cards.Length {
          return Err(RotateTooFar);
        }
        RotateLeftInPlace(cards, cards.Length + n as int);
      }
      r := Ok(());
    case DealIncrement(n) =>
      r := Deal(cards, AsUsize(n));
  }

  /** `reverse`: swaps cards from both ends towards the middle. */
  method Reverse(cards: array<i32>)
    modifies cards
    ensures cards[..] == Reversed(old(cards[..]))
  {
    var len := cards.Length;
    for i := 0 to len / 2
      invariant forall k | 0 <= k < i :: cards[k] == old(cards[len - 1 - k]) && cards[len - 1 - k] == old(cards[k])
      invariant forall k | i <= k < len - i :: cards[k] == old(cards[k])
    {
      cards[i], cards[len - 1 - i] := cards[len - 1 - i], cards[i];
    }
  }

  /** `rotate_left(k)`, through a copy of the deck. */
  method RotateLeftInPlace(cards: array<i32>, k: nat)
    requires k <= cards.Length
    modifies cards
    ensures cards[..] == RotateLeft(old(cards[..]), k)
  {
    var copy := cards[..];
    var len := cards.Length;
    for i := 0 to len
      invariant forall j | 0 <= j < i :: cards[j] == RotateLeft(copy, k)[j]
    {
      cards[i] := if i < len - k then copy[i + k] else copy[i - (len - k)];
    }
  }

  /** The DealIncrement arm: fills a zeroed table card by card, then copies
      it over the deck. */
  method Deal(cards: array<i32>, step: nat) returns (r: Result<(), Panic>)
    modifies cards
    ensures var deck := old(cards[..]);
      && (r.Ok? <==> |deck| == 0 || (|deck| - 1) * step < USIZE_MODULUS)
      && (r.Ok? && |deck| > 0 ==> cards[..] == DealPrefix(deck, step, |deck|))
      && (!(r.Ok? && |deck| > 0) ==> cards[..] == deck)
      && (r.Err? ==> r.error == Overflow)
  {
    if cards.Length == 0 {
      return Ok(());
    }
    var table :- DealTable(cards, step);
    CopyFrom(cards, table);
    r := Ok(());
  }

  /** The loop that fills `new_array`; `i * n` beyond usize panics. */
  method DealTable(cards: array<i32>, step: nat) returns (r: Result<array<i32>, Panic>)
    requires cards.Length > 0
    ensures r.Ok? <==> (cards.Length - 1) * step < USIZE_MODULUS
    ensures r.Ok? ==> fresh(r.value) && r.value[..] == DealPrefix(cards[..], step, cards.Length)
    ensures r.Err? ==> r.error == Overflow
  {
    var len := cards.Length;
    var table := new i32[len](_ => 0);
    assert table[..] == DealPrefix(cards[..], step, 0);
    for i := 0 to len
      invariant table[..] == DealPrefix(cards[..], step, i)
      invariant forall j | 0 <= j < i :: j * step < USIZE_MODULUS
    {
      var target := i * step;
      if target >= USIZE_MODULUS {
        MulMonotone(i, len - 1, step);
        return Err(Overflow);
      }
      table[target % len] := cards[i];
    }
    assert (len - 1) * step < USIZE_MODULUS;
    r := Ok(table);
  }

  /** `copy_from_slice`. */
  method CopyFrom(cards: array<i32>, source: array<i32>)
    requires cards.Length == source.Length && cards != source
    modifies cards
    ensures cards[..] == source[..]
  {
    for i := 0 to cards.Length
      invariant forall j | 0 <= j < i :: cards[j] == source[j]
    {
      cards[i] := source[i];
    }
  }

  lemma MulMonotone(a: nat, b: nat, c: nat)
    requires a <= b
    ensures a * c <= b * c
  {
  }

  // ------------------------------------------------------------- parsing

  /** `From<&str>`: the exact NewStack line, or a line starting with "cut" or
      "deal with increment" whose last word is an i32. */
  function ParseTechnique(line: string): (r: Result<ShuffleTechnique, Panic>)
    ensures r.Ok? && r.value.NewStack? ==> line == "deal into new stack"
    ensures r.Ok? && r.value.Cut? ==> Text.StartsWith(line, "cut")
    ensures r.Ok? && r.value.DealIncrement? ==> Text.StartsWith(line, "deal with increment")
    ensures (!(line == "deal into new stack" || Text.StartsWith(line, "cut") ||
               Text.StartsWith(line, "deal with increment"))) ==> r == Err(BadTechnique)
  {
    if line == "deal into new stack" then Ok(NewStack)
    else if Text.StartsWith(line, "cut") then
      var n :- LastWordAsI32(line);
      Ok(Cut(n))
    else if Text.StartsWith(line, "deal with increment") then
      var n :- LastWordAsI32(line);
      Ok(DealIncrement(n))
    else Err(BadTechnique)
  }

  /** `split_whitespace().last().unwrap().parse::<i32>().unwrap()`. */
  function LastWordAsI32(line: string): Result<i32, Panic> {
    var words := Text.Words(line);
    if words == [] then Err(BadTechnique)
    else match Text.ParseI32(words[|words| - 1])
      case None => Err(BadTechnique)
      case Some(n) => Ok(n)
  }

  /** The line for a technique, as the puzzle input writes it. */
  function TechniqueLine(t: ShuffleTechnique): string {
    match t
    case NewStack => "deal into new stack"
    case Cut(n) => "cut " + Text.IntToString(n)
    case DealIncrement(n) => "deal with increment " + Text.IntToString(n)
  }

  /** Parsing inverts writing a technique line. */
  lemma ParseTechniqueLine(t: ShuffleTechnique)
    ensures ParseTechnique(TechniqueLine(t)) == Ok(t)
  {
    match t
    case NewStack =>
    case Cut(n) => ParseCutLine(n);
    case DealIncrement(n) => ParseDealLine(n);
  }

  lemma ParseCutLine(n: i32)
    ensures ParseTechnique("cut " + Text.IntToString(n)) == Ok(Cut(n))
  {
    var num := Text.IntToString(n);
    var line := "cut " + num;
    Text.IntToStringHasNoWhitespace(n);
    assert line == "cut" + " " + num;
    LastWordOf("cut", num);
    assert LastWordAsI32(line) == Ok(n) by {
      Text.ParseIntToString(n);
    }
    assert Text.StartsWith(line, "cut") by {
      assert line[..3] == "cut";
    }
    assert line != "deal into new stack" by {
      assert line[0] == 'c';
    }
  }

  lemma ParseDealLine(n: i32)
    ensures ParseTechnique("deal with increment " + Text.IntToString(n)) == Ok(DealIncrement(n))
  {
    var num := Text.IntToString(n);
    var line := "deal with increment " + num;
    DealLastWord(n);
    assert Text.StartsWith(line, "deal with increment") by {
      assert line[..19] == "deal with increment";
    }
    assert !Text.StartsWith(line, "cut") by {
      assert line[0] == 'd';
    }
    assert line != "deal into new stack" by {
      assert line[5] == 'w';
    }
  }

  lemma DealLastWord(n: i32)
    ensures LastWordAsI32("deal with increment " + Text.IntToString(n)) == Ok(n)
  {
    var num := Text.IntToString(n);
    Text.IntToStringHasNoWhitespace(n);
    assert "deal with increment " + num == "deal with increment" + " " + num;
    LastWordOf("deal with increment", num);
    Text.ParseIntToString(n);
  }

  /** The last word of `prefix + " " + num` is `num`, for a word `num`. */
  lemma LastWordOf(prefix: string, num: string)
    requires |num| > 0 && forall i | 0 <= i < |num| :: !Text.IsWhitespace(num[i])
    ensures var words := Text.Words(prefix + " " + num);
      |words| > 0 && words[|words| - 1] == num
  {
    Text.WordsSpaceConcat(prefix, num);
    Text.WordsOfWord(num);
  }

  // ---------------------------------------------------------- test vectors

  lemma ShuffleExamples()
    ensures ApplySpec(NewStack, [0, 1, 2, 3, 4, 5, 6, 7, 8, 9]) == Ok([9, 8, 7, 6, 5, 4, 3, 2, 1, 0])
    ensures ApplySpec(Cut(3), [0, 1, 2, 3, 4, 5, 6, 7, 8, 9]) == Ok([3, 4, 5, 6, 7, 8, 9, 0, 1, 2])
    ensures ApplySpec(Cut(-4), [0, 1, 2, 3, 4, 5, 6, 7, 8, 9]) == Ok([6, 7, 8, 9, 0, 1, 2, 3, 4, 5])
  {
    var deck: seq<i32> := [0, 1, 2, 3, 4, 5, 6, 7, 8, 9];
    assert Reversed(deck) == [9, 8, 7, 6, 5, 4, 3, 2, 1, 0];
    assert RotateLeft(deck, 3) == [3, 4, 5, 6, 7, 8, 9, 0, 1, 2];
    assert RotateLeft(deck, 6) == [6, 7, 8, 9, 0, 1, 2, 3, 4, 5];
  }

  /** One card of the deal, on given tables. */
  lemma DealStep(deck: seq<i32>, step: nat, k: nat, at: nat, before: seq<i32>, after: seq<i32>)
    requires 0 < k <= |deck| && at == ((k - 1) * step) % |deck|
    requires DealPrefix(deck, step, k - 1) == before && at < |before|
    requires after == before[at := deck[k - 1]]
    ensures DealPrefix(deck, step, k) == after
  {
  }

  lemma DealExample()
    ensures ApplySpec(DealIncrement(3), [0, 1, 2, 3, 4, 5, 6, 7, 8, 9]) == Ok([0, 7, 4, 1, 8, 5, 2, 9, 6, 3])
  {
    var deck: seq<i32> := [0, 1, 2, 3, 4, 5, 6, 7, 8, 9];
    assert DealPrefix(deck, 3, 0) == [0, 0, 0, 0, 0, 0, 0, 0, 0, 0];
    DealStep(deck, 3, 1, 0, [0, 0, 0, 0, 0, 0, 0, 0, 0, 0], [0, 0, 0, 0, 0, 0, 0, 0, 0, 0]);
    DealStep(deck, 3, 2, 3, [0, 0, 0, 0, 0, 0, 0, 0, 0, 0], [0, 0, 0, 1, 0, 0, 0, 0, 0, 0]);
    DealStep(deck, 3, 3, 6, [0, 0, 0, 1, 0, 0, 0, 0, 0, 0], [0, 0, 0, 1, 0, 0, 2, 0, 0, 0]);
    DealStep(deck, 3, 4, 9, [0, 0, 0, 1, 0, 0, 2, 0, 0, 0], [0, 0, 0, 1, 0, 0, 2, 0, 0, 3]);
    DealExampleRest(deck);
  }

  lemma DealExampleRest(deck: seq<i32>)
    requires deck == [0, 1, 2, 3, 4, 5, 6, 7, 8, 9]
    requires DealPrefix(deck, 3, 4) == [0, 0, 0, 1, 0, 0, 2, 0, 0, 3]
    ensures DealPrefix(deck, 3, 10) == [0, 7, 4, 1, 8, 5, 2, 9, 6, 3]
  {
    DealStep(deck, 3, 5, 2, [0, 0, 0, 1, 0, 0, 2, 0, 0, 3], [0, 0, 4, 1, 0, 0, 2, 0, 0, 3]);
    DealStep(deck, 3, 6, 5, [0, 0, 4, 1, 0, 0, 2, 0, 0, 3], [0, 0, 4, 1, 0, 5, 2, 0, 0, 3]);
    DealStep(deck, 3, 7, 8, [0, 0, 4, 1, 0, 5, 2, 0, 0, 3], [0, 0, 4, 1, 0, 5, 2, 0, 6, 3]);
    DealStep(deck, 3, 8, 1, [0, 0, 4, 1, 0, 5, 2, 0, 6, 3], [0, 7, 4, 1, 0, 5, 2, 0, 6, 3]);
    DealStep(deck, 3, 9, 4, [0, 7, 4, 1, 0, 5, 2, 0, 6, 3], [0, 7, 4, 1, 8, 5, 2, 0, 6, 3]);
    DealStep(deck, 3, 10, 7, [0, 7, 4, 1, 8, 5, 2, 0, 6, 3], [0, 7, 4, 1, 8, 5, 2, 9, 6, 3]);
  }
}
