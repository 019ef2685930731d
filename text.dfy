/** The parts of Rust's `str` API the program relies on: `trim`, `split`,
    `split_whitespace`, `lines`, `starts_with`, integer `parse` and
    `to_string`. Whitespace here is ASCII whitespace. */
module Text {
  import opened Wrappers

  predicate IsWhitespace(c: char) {
    c == ' ' || c == '\t' || c == '\n' || c == '\r' || c == '\U{B}' || c == '\U{C}'
  }

  predicate IsDigit(c: char) {
    '0' <= c <= '9'
  }

  predicate AllDigits(s: string) {
    forall i | 0 <= i < |s| :: IsDigit(s[i])
  }

  function DigitValue(c: char): (d: nat)
    requires IsDigit(c)
    ensures d < 10
  {
    (c as int) - ('0' as int)
  }

  function DigitChar(d: nat): (c: char)
    requires d < 10
    ensures IsDigit(c) && DigitValue(c) == d
  {
    (('0' as int) + d) as char
  }

  predicate StartsWith(s: string, prefix: string) {
    |prefix| <= |s| && s[..|prefix|] == prefix
  }

  // ---------------------------------------------------------------- trim

  function TrimStart(s: string): (r: string)
    ensures |r| <= |s| && r == s[|s| - |r|..]
    ensures forall i | 0 <= i < |s| - |r| :: IsWhitespace(s[i])
    ensures r == [] || !IsWhitespace(r[0])
  {
    if |s| > 0 && IsWhitespace(s[0]) then TrimStart(s[1..]) else s
  }

  function TrimEnd(s: string): (r: string)
    ensures |r| <= |s| && r == s[..|r|]
    ensures forall i | |r| <= i < |s| :: IsWhitespace(s[i])
    ensures r == [] || !IsWhitespace(r[|r| - 1])
  {
    if |s| > 0 && IsWhitespace(s[|s| - 1]) then TrimEnd(s[..|s| - 1]) else s
  }

  /** `str::trim`: `TrimStart`, then `TrimEnd`. */
  function Trim(s: string): string {
    TrimEnd(TrimStart(s))
  }

  // ---------------------------------------------------------------- split

  /** The inverse of `Split`: the pieces with `sep` between each two. */
  function Join(pieces: seq<string>, sep: string): string
    requires |pieces| >= 1
  {
    if |pieces| == 1 then pieces[0] else pieces[0] + sep + Join(pieces[1..], sep)
  }

  /** `str::split` with a string pattern: cuts at every occurrence of `sep`,
      scanning left to right, so there is always at least one piece. */
  function Split(s: string, sep: string): (r: seq<string>)
    requires |sep| > 0
    ensures |r| >= 1
    decreases |s|
  {
    if |s| < |sep| then [s]
    else if s[..|sep|] == sep then [""] + Split(s[|sep|..], sep)
    else
      var rest := Split(s[1..], sep);
      [[s[0]] + rest[0]] + rest[1..]
  }

  /** Joining the pieces with the separator gives the text back. */
  lemma {:induction false} JoinSplit(s: string, sep: string)
    requires |sep| > 0
    ensures Join(Split(s, sep), sep) == s
    decreases |s|
  {
    if |s| < |sep| {
    } else if s[..|sep|] == sep {
      JoinSplit(s[|sep|..], sep);
      JoinCons("", Split(s[|sep|..], sep), sep);
      assert s == sep + s[|sep|..];
    } else {
      JoinSplit(s[1..], sep);
      JoinGrowHead(s[0], Split(s[1..], sep), sep);
      assert [s[0]] + s[1..] == s;
    }
  }

  lemma JoinCons(head: string, rest: seq<string>, sep: string)
    requires |rest| >= 1
    ensures Join([head] + rest, sep) == head + sep + Join(rest, sep)
  {
    assert ([head] + rest)[1..] == rest;
  }

  lemma JoinGrowHead(c: char, rest: seq<string>, sep: string)
    requires |rest| >= 1
    ensures Join([[c] + rest[0]] + rest[1..], sep) == [c] + Join(rest, sep)
  {
    if |rest| > 1 {
      JoinCons([c] + rest[0], rest[1..], sep);
      JoinCons(rest[0], rest[1..], sep);
      assert [rest[0]] + rest[1..] == rest;
    }
  }

  /** A piece cut by a one-character separator never contains it. */
  lemma {:induction false} SplitPiecesAvoidSeparator(s: string, sep: char)
    ensures forall k | 0 <= k < |Split(s, [sep])| :: sep !in Split(s, [sep])[k]
    decreases |s|
  {
    if |s| < 1 {
    } else if s[..1] == [sep] {
      SplitPiecesAvoidSeparator(s[1..], sep);
      assert Split(s, [sep]) == [""] + Split(s[1..], [sep]);
    } else {
      SplitPiecesAvoidSeparator(s[1..], sep);
      var rest := Split(s[1..], [sep]);
      assert s[0] != sep;
      assert Split(s, [sep]) == [[s[0]] + rest[0]] + rest[1..];
    }
  }

  /** Splitting undoes joining when no piece holds the separator. */
  lemma {:induction false} SplitJoin(pieces: seq<string>, sep: char)
    requires |pieces| >= 1
    requires forall k | 0 <= k < |pieces| :: sep !in pieces[k]
    ensures Split(Join(pieces, [sep]), [sep]) == pieces
  {
    var p := pieces[0];
    if |pieces| == 1 {
      SplitAfterPrefix(p, "", [sep]);
      assert p + "" == p;
    } else {
      var rest := Join(pieces[1..], [sep]);
      SplitJoin(pieces[1..], sep);
      var t := [sep] + rest;
      assert Join(pieces, [sep]) == p + t;
      SplitAfterPrefix(p, t, [sep]);
      assert t[..1] == [sep] && t[1..] == rest;
      assert Split(t, [sep]) == [""] + pieces[1..];
      assert p + "" == p;
    }
  }

  /** A string that does not start with the separator keeps its first
      character at the head of the first piece. */
  lemma SplitStep(s: string, sep: string)
    requires |sep| > 0 && |s| > 0
    requires |s| < |sep| || s[..|sep|] != sep
    ensures Split(s, sep) == [[s[0]] + Split(s[1..], sep)[0]] + Split(s[1..], sep)[1..]
  {
    if |s| < |sep| {
      assert Split(s[1..], sep) == [s[1..]];
      assert [s[0]] + s[1..] == s;
    }
  }

  /** A prefix holding no first character of the separator stays at the head
      of the first piece. */
  lemma {:induction false} SplitAfterPrefix(p: string, t: string, sep: string)
    requires |sep| > 0 && sep[0] !in p
    ensures Split(p + t, sep) == [p + Split(t, sep)[0]] + Split(t, sep)[1..]
    decreases |p|
  {
    var r := Split(t, sep);
    if |p| > 0 {
      SplitAfterPrefix(p[1..], t, sep);
      var s := p + t;
      assert s[0] == p[0] && s[1..] == p[1..] + t;
      assert |s| >= |sep| ==> s[..|sep|][0] == p[0];
      SplitStep(s, sep);
      var rest := Split(s[1..], sep);
      assert rest[0] == p[1..] + r[0] && rest[1..] == r[1..];
      ConsTail(p, r[0]);
    } else {
      assert p + t == t && p + r[0] == r[0];
      assert [r[0]] + r[1..] == r;
    }
  }

  lemma ConsTail(p: string, u: string)
    requires |p| > 0
    ensures [p[0]] + (p[1..] + u) == p + u
  {
    assert [p[0]] + p[1..] == p;
  }

  /** A string that starts with the separator splits off an empty piece. */
  lemma SplitAtSeparator(t: string, sep: string)
    requires |sep| > 0
    ensures Split(sep + t, sep) == [""] + Split(t, sep)
  {
    var s := sep + t;
    assert s[..|sep|] == sep && s[|sep|..] == t;
  }

  /** Cutting at the first separator, when the text before it holds no first
      character of the separator. */
  lemma SplitFirstAt(p: string, x: string, sep: string)
    requires |sep| > 0 && sep[0] !in p
    ensures Split(p + sep + x, sep) == [p] + Split(x, sep)
  {
    SplitAfterPrefix(p, sep + x, sep);
    SplitAtSeparator(x, sep);
    assert p + sep + x == p + (sep + x);
    assert p + "" == p;
  }

  /** A string without the separator's first character is one piece. */
  lemma SplitWithoutSeparator(s: string, sep: string)
    requires |sep| > 0 && sep[0] !in s
    ensures Split(s, sep) == [s]
  {
    SplitAfterPrefix(s, "", sep);
    assert s + "" == s;
  }

  /** Leading whitespace does not change the words. */
  lemma {:induction false} WordsAfterWhitespace(ws: string, s: string)
    requires forall i | 0 <= i < |ws| :: IsWhitespace(ws[i])
    ensures Words(ws + s) == Words(s)
    decreases |ws|
  {
    if |ws| > 0 {
      WordsAfterWhitespace(ws[1..], s);
      assert (ws + s)[1..] == ws[1..] + s;
      assert (ws + s)[0] == ws[0];
      WordsSkip(ws + s);
      assert Words(ws + s) == Words(ws[1..] + s);
    } else {
      assert ws + s == s;
    }
  }

  /** Nor does one trailing space. */
  lemma WordsBeforeSpace(s: string)
    ensures Words(s + " ") == Words(s)
  {
    WordsSpaceConcat(s, "");
    assert s + " " + "" == s + " ";
  }

  /** `Trim` keeps a string without whitespace at either end. */
  lemma TrimUntrimmed(s: string)
    requires |s| > 0 && !IsWhitespace(s[0]) && !IsWhitespace(s[|s| - 1])
    ensures Trim(s) == s
  {
  }

  // ---------------------------------------------------------------- words

  function IndexOfWhitespace(s: string): (i: nat)
    ensures i <= |s|
    ensures forall k | 0 <= k < i :: !IsWhitespace(s[k])
    ensures i < |s| ==> IsWhitespace(s[i])
  {
    if |s| == 0 || IsWhitespace(s[0]) then 0 else 1 + IndexOfWhitespace(s[1..])
  }

  /** `str::split_whitespace`: the maximal runs of non-whitespace, in order. */
  function Words(s: string): (r: seq<string>)
    ensures forall k | 0 <= k < |r| :: |r[k]| > 0
    ensures forall k, j | 0 <= k < |r| && 0 <= j < |r[k]| :: !IsWhitespace(r[k][j])
    ensures (forall i | 0 <= i < |s| :: IsWhitespace(s[i])) <==> r == []
    decreases |s|
  {
    if |s| == 0 then []
    else if IsWhitespace(s[0]) then Words(s[1..])
    else
      var n := IndexOfWhitespace(s);
      [s[..n]] + Words(s[n..])
  }

  /** A non-empty string without whitespace is one word. */
  lemma WordsOfWord(s: string)
    requires |s| > 0 && forall i | 0 <= i < |s| :: !IsWhitespace(s[i])
    ensures Words(s) == [s]
  {
    assert IndexOfWhitespace(s) == |s|;
    assert s[..|s|] == s;
  }

  /** Joining two strings with a space joins their word lists. */
  lemma {:induction false} WordsSpaceConcat(a: string, b: string)
    ensures Words(a + " " + b) == Words(a) + Words(b)
    decreases |a|
  {
    var s := a + " " + b;
    if |a| == 0 {
      assert s[1..] == b;
      WordsSkip(s);
    } else if IsWhitespace(a[0]) {
      WordsSpaceConcat(a[1..], b);
      assert s[1..] == a[1..] + " " + b;
      WordsSkip(s);
      WordsSkip(a);
    } else {
      var m := IndexOfWhitespace(a);
      PrefixWord(a, b, m);
      WordsSpaceConcat(a[m..], b);
      WordsTake(s);
      WordsTake(a);
    }
  }

  lemma WordsSkip(s: string)
    requires |s| > 0 && IsWhitespace(s[0])
    ensures Words(s) == Words(s[1..])
  {
  }

  lemma WordsTake(s: string)
    requires |s| > 0 && !IsWhitespace(s[0])
    ensures Words(s) == [s[..IndexOfWhitespace(s)]] + Words(s[IndexOfWhitespace(s)..])
  {
  }

  /** The first word of `a + " " + b` is the first word of `a`. */
  lemma PrefixWord(a: string, b: string, m: nat)
    requires |a| > 0 && m == IndexOfWhitespace(a)
    ensures IndexOfWhitespace(a + " " + b) == m
    ensures (a + " " + b)[..m] == a[..m]
    ensures (a + " " + b)[m..] == a[m..] + " " + b
  {
    var s := a + " " + b;
    assert forall k | 0 <= k < m :: s[k] == a[k];
    assert m < |s| && IsWhitespace(s[m]);
    IndexOfWhitespaceIsFirst(s, m);
  }

  lemma IndexOfWhitespaceIsFirst(s: string, m: nat)
    requires m < |s| && IsWhitespace(s[m]) && forall k | 0 <= k < m :: !IsWhitespace(s[k])
    ensures IndexOfWhitespace(s) == m
  {
  }

  /** The decimal form of an integer has no whitespace. */
  lemma IntToStringHasNoWhitespace(n: int)
    ensures forall i | 0 <= i < |IntToString(n)| :: !IsWhitespace(IntToString(n)[i])
  {
    var s := NatToString(if n < 0 then -n else n);
    assert forall i | 0 <= i < |s| :: IsDigit(s[i]);
  }

  /** The decimal form of an integer is digits after an optional `-`. */
  lemma IntToStringChars(n: int)
    ensures forall i | 0 <= i < |IntToString(n)| :: IsDigit(IntToString(n)[i]) || IntToString(n)[i] == '-'
    ensures IsDigit(IntToString(n)[|IntToString(n)| - 1])
  {
    var s := NatToString(if n < 0 then -n else n);
    assert forall i | 0 <= i < |s| :: IsDigit(s[i]);
  }

  // ---------------------------------------------------------------- lines

  function StripCarriageReturn(line: string): string {
    if |line| > 0 && line[|line| - 1] == '\r' then line[..|line| - 1] else line
  }

  /** `str::lines`: the pieces between newlines, each without a trailing
      carriage return; a final empty piece (after the last newline) is dropped. */
  function Lines(s: string): (r: seq<string>)
    ensures s == [] ==> r == []
    ensures forall k | 0 <= k < |r| :: '\n' !in r[k]
  {
    var pieces := Split(s, "\n");
    SplitPiecesAvoidSeparator(s, '\n');
    var kept := if pieces[|pieces| - 1] == "" then pieces[..|pieces| - 1] else pieces;
    seq(|kept|, k requires 0 <= k < |kept| => StripCarriageReturn(kept[k]))
  }

  /** `lines` undoes joining with newlines when no line holds a newline or
      ends in a carriage return and the last line is not empty. */
  lemma LinesOfJoin(ls: seq<string>)
    requires |ls| >= 1 && |ls[|ls| - 1]| > 0
    requires forall k | 0 <= k < |ls| :: '\n' !in ls[k]
    requires forall k | 0 <= k < |ls| :: |ls[k]| == 0 || ls[k][|ls[k]| - 1] != '\r'
    ensures Lines(Join(ls, "\n")) == ls
  {
    assert "\n" == ['\n'];
    SplitJoin(ls, '\n');
    assert Split(Join(ls, "\n"), "\n") == ls;
    var r := Lines(Join(ls, "\n"));
    assert r == seq(|ls|, k requires 0 <= k < |ls| => StripCarriageReturn(ls[k]));
    forall k | 0 <= k < |ls|
      ensures r[k] == ls[k]
    {
      StripNoCarriageReturn(ls[k]);
    }
  }

  lemma StripNoCarriageReturn(line: string)
    requires |line| == 0 || line[|line| - 1] != '\r'
    ensures StripCarriageReturn(line) == line
  {
  }

  /** A join starts with the first piece's first character. */
  lemma JoinFirst(pieces: seq<string>, sep: string)
    requires |pieces| >= 1 && |pieces[0]| > 0
    ensures |Join(pieces, sep)| > 0 && Join(pieces, sep)[0] == pieces[0][0]
  {
    if |pieces| > 1 {
      assert Join(pieces, sep) == pieces[0] + (sep + Join(pieces[1..], sep));
    }
  }

  /** A join ends with the last piece's last character. */
  lemma {:induction false} JoinLast(pieces: seq<string>, sep: string)
    requires |pieces| >= 1 && |pieces[|pieces| - 1]| > 0
    ensures var s := Join(pieces, sep);
      |s| > 0 && s[|s| - 1] == pieces[|pieces| - 1][|pieces[|pieces| - 1]| - 1]
  {
    if |pieces| > 1 {
      var rest := pieces[1..];
      JoinLast(rest, sep);
      assert rest[|rest| - 1] == pieces[|pieces| - 1];
      assert Join(pieces, sep) == (pieces[0] + sep) + Join(rest, sep);
    }
  }

  // ---------------------------------------------------------------- integers

  /** The value of a string of decimal digits, most significant first. */
  function DigitsValue(s: string): (n: nat)
    requires AllDigits(s)
  {
    if |s| == 0 then 0 else DigitsValue(s[..|s| - 1]) * 10 + DigitValue(s[|s| - 1])
  }

  /** Rust's `str::parse` for a signed integer type, before the range check:
      an optional `+` or `-` followed by one or more decimal digits. */
  function ParseInt(s: string): (r: Option<int>)
    ensures r.Some? ==> |s| > 0
    ensures r.Some? && AllDigits(s) ==> r.value >= 0
  {
    if |s| > 0 && (s[0] == '-' || s[0] == '+') then
      var body := s[1..];
      if |body| > 0 && AllDigits(body) then
        var d: int := DigitsValue(body);
        Some(if s[0] == '-' then -d else d)
      else None
    else if |s| > 0 && AllDigits(s) then Some(DigitsValue(s))
    else None
  }

  /** `str::parse::<i64>()`. */
  function ParseI64(s: string): (r: Option<int>)
    ensures r.Some? ==> -0x8000_0000_0000_0000 <= r.value <= 0x7FFF_FFFF_FFFF_FFFF
  {
    match ParseInt(s)
    case Some(v) => if -0x8000_0000_0000_0000 <= v <= 0x7FFF_FFFF_FFFF_FFFF then Some(v) else None
    case None => None
  }

  /** `str::parse::<i32>()`. */
  function ParseI32(s: string): (r: Option<int>)
    ensures r.Some? ==> -0x8000_0000 <= r.value <= 0x7FFF_FFFF
  {
    match ParseInt(s)
    case Some(v) => if -0x8000_0000 <= v <= 0x7FFF_FFFF then Some(v) else None
    case None => None
  }

  /** `to_string` of a non-negative integer: decimal, no leading zeros. */
  function NatToString(n: nat): (s: string)
    ensures |s| > 0 && AllDigits(s)
    ensures |s| > 1 ==> s[0] != '0'
  {
    if n < 10 then [DigitChar(n)] else NatToString(n / 10) + [DigitChar(n % 10)]
  }

  /** `to_string` of an integer. */
  function IntToString(n: int): (s: string)
    ensures |s| > 0
  {
    if n < 0 then "-" + NatToString(-n) else NatToString(n)
  }

  lemma {:induction false} DigitsValueOfNatToString(n: nat)
    ensures DigitsValue(NatToString(n)) == n
  {
    if n >= 10 {
      DigitsValueOfNatToString(n / 10);
      var s := NatToString(n);
      assert s[..|s| - 1] == NatToString(n / 10);
    }
  }

  /** Printing and parsing are inverse: `n.to_string().parse() == Ok(n)`. */
  lemma ParseIntToString(n: int)
    ensures ParseInt(IntToString(n)) == Some(n)
  {
    if n < 0 {
      ParseMinus(NatToString(-n));
      DigitsValueOfNatToString(-n);
    } else {
      ParseDigits(NatToString(n));
      DigitsValueOfNatToString(n);
    }
  }

  lemma ParseMinus(t: string)
    requires |t| > 0 && AllDigits(t)
    ensures ParseInt("-" + t) == Some(-(DigitsValue(t) as int))
  {
    var u := "-" + t;
    assert u[0] == '-' && u[1..] == t;
  }

  lemma ParseDigits(t: string)
    requires |t| > 0 && AllDigits(t)
    ensures ParseInt(t) == Some(DigitsValue(t))
  {
    assert IsDigit(t[0]);
  }
}
