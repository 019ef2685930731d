/** The bug-life grids of src/bin/day24.rs. A 5×5 grid is the low 25 bits of
    an i32 (here its bit pattern, a `Bits`), cell `i` at row `i / 5`, column
    `i % 5`. A bug survives with exactly one neighbouring bug, and an empty
    cell becomes infested with one or two. Part 2 stacks grids into layers:
    the centre of each grid holds the next layer down. */
module Day24 {
  import opened Wrappers
  import opened RustInt
  import Text

  // ------------------------------------------------------------------ bits

  /** The 32 bits of an i32, least significant first. */
  type Bits = s: seq<bool> | |s| == 32 witness seq(32, _ => false)

  /** The empty grid, `0`. */
  function NoBugs(): (s: Bits)
    ensures forall i: nat | i < 32 :: !Bit(s, i)
  {
    seq(32, _ => false)
  }

  /** `state & (1 << i) != 0`. */
  predicate Bit(s: Bits, i: nat)
    requires i < 32
  {
    s[i]
  }

  /** `(state & (1 << i) != 0) as i32`. */
  function Field(s: Bits, i: nat): nat
    requires i < 32
  {
    if Bit(s, i) then 1 else 0
  }

  /** `state | (1 << i)`. */
  function SetBit(s: Bits, i: nat): (r: Bits)
    requires i < 32
    ensures forall j: nat | j < 32 :: Bit(r, j) <==> Bit(s, j) || j == i
  {
    s[i := true]
  }

  /** The unsigned value of the bits `s[..k]`. */
  function Unsigned(s: seq<bool>): nat {
    if s == [] then 0 else (if s[0] then 1 else 0) + 2 * Unsigned(s[1..])
  }

  /** The i32 whose two's-complement bits are `s`. */
  function Value(s: Bits): (v: int)
    ensures 0 <= v + Pow2(31) && v < Pow2(31)
  {
    UnsignedBound(s[..31]);
    if s[31] then Unsigned(s[..31]) - Pow2(31) else Unsigned(s[..31])
  }

  lemma {:induction false} UnsignedBound(s: seq<bool>)
    ensures Unsigned(s) < Pow2(|s|)
  {
    if s != [] {
      UnsignedBound(s[1..]);
    }
  }

  function Pow2(n: nat): nat {
    if n == 0 then 1 else 2 * Pow2(n - 1)
  }

  // ----------------------------------------------------------------- parse

  /** The characters of `input` that are not whitespace, in order. */
  function Cells(input: string): (cells: string)
    ensures forall k | 0 <= k < |cells| :: !Text.IsWhitespace(cells[k])
  {
    if input == [] then []
    else if Text.IsWhitespace(input[0]) then Cells(input[1..])
    else [input[0]] + Cells(input[1..])
  }

  datatype ParseError = ShiftOverflow

  /** The grid whose bit `i` is set when `cells[i]` is `#`. */
  function Parsed(cells: string): (s: Bits)
    ensures forall i: nat | i < 32 :: Bit(s, i) <==> i < |cells| && cells[i] == '#'
  {
    seq(32, i requires 0 <= i < 32 => i < |cells| && cells[i] == '#')
  }

  /** `parse`: bit `i` is set for each `#` that is the `i`-th non-whitespace
      character; a `#` at index 32 or later shifts past the i32 and panics. */
  method Parse(input: string) returns (r: Result<Bits, ParseError>)
    ensures var cells := Cells(input);
      r.Ok? <==> forall k | 32 <= k < |cells| :: cells[k] != '#'
    ensures var cells := Cells(input);
      r.Ok? ==> r.value == Parsed(cells)
  {
    ghost var cells := Cells(input);
    var result := NoBugs();
    var i: nat := 0;
    var rest := input;
    while rest != []
      invariant i <= |cells| && cells[i..] == Cells(rest)
      invariant NoOverflowBefore(cells, i)
      invariant ParsedUpTo(result, cells, i)
      decreases |rest|
    {
      var c := rest[0];
      if !Text.IsWhitespace(c) {
        CellsStep(cells, i, rest);
        if c == '#' {
          if i >= 32 {
            return Err(ShiftOverflow);
          }
          ghost var before := result;
          result := SetBit(result, i);
          ParsedSet(before, result, cells, i);
        } else {
          ParsedSkip(result, cells, i);
        }
        i := i + 1;
      } else {
        assert Cells(rest) == Cells(rest[1..]);
      }
      rest := rest[1..];
    }
    SameBits(result, Parsed(cells));
    r := Ok(result);
  }

  ghost predicate NoOverflowBefore(cells: string, i: nat)
    requires i <= |cells|
  {
    forall k | 32 <= k < i :: cells[k] != '#'
  }

  ghost predicate ParsedUpTo(result: Bits, cells: string, i: nat)
    requires i <= |cells|
  {
    forall j: nat | j < 32 :: Bit(result, j) <==> j < i && cells[j] == '#'
  }

  lemma CellsStep(cells: string, i: nat, rest: string)
    requires i <= |cells| && cells[i..] == Cells(rest)
    requires rest != [] && !Text.IsWhitespace(rest[0])
    ensures i < |cells| && cells[i] == rest[0] && cells[i + 1..] == Cells(rest[1..])
  {
    assert Cells(rest) == [rest[0]] + Cells(rest[1..]);
  }

  lemma ParsedSet(before: Bits, after: Bits, cells: string, i: nat)
    requires i < |cells| && i < 32 && cells[i] == '#'
    requires ParsedUpTo(before, cells, i) && after == SetBit(before, i)
    ensures ParsedUpTo(after, cells, i + 1)
  {
  }

  lemma ParsedSkip(result: Bits, cells: string, i: nat)
    requires i < |cells| && cells[i] != '#'
    requires ParsedUpTo(result, cells, i)
    ensures ParsedUpTo(result, cells, i + 1)
  {
  }

  // ------------------------------------------------------------------ step

  /** The neighbour count of `step`: left and right within the row, up and
      down within the grid. */
  function Count(s: Bits, i: nat): nat
    requires i < 25
  {
    (if i % 5 != 0 && Bit(s, i - 1) then 1 else 0)
    + (if i % 5 != 4 && Bit(s, i + 1) then 1 else 0)
    + (if i >= 5 && Bit(s, i - 5) then 1 else 0)
    + (if i < 20 && Bit(s, i + 5) then 1 else 0)
  }

  /** The life rule: one neighbour keeps or creates a bug, two create one. */
  predicate Rule(occupied: bool, count: nat) {
    (!occupied && count == 2) || count == 1
  }

  predicate AliveNext(s: Bits, i: nat) {
    i < 25 && Rule(Bit(s, i), Count(s, i))
  }

  /** The grid after one minute, the value `step` builds. */
  function StepSpec(s: Bits): (next: Bits)
    ensures forall i: nat | i < 32 :: Bit(next, i) <==> AliveNext(s, i)
  {
    seq(32, i requires 0 <= i < 32 => AliveNext(s, i))
  }

  /** `step`: OR-s in one bit per cell that is alive next. */
  method Step(state: Bits) returns (result: Bits)
    ensures result == StepSpec(state)
    ensures forall i: nat | i < 32 :: Bit(result, i) <==> i < 25 && Rule(Bit(state, i), Count(state, i))
  {
    result := NoBugs();
    for i := 0 to 25
      invariant forall j: nat | j < 32 :: Bit(result, j) <==> j < i && AliveNext(state, j)
    {
      var cnt := Count(state, i);
      if (!Bit(state, i) && cnt == 2) || cnt == 1 {
        result := SetBit(result, i);
      }
    }
    assert forall j | 0 <= j < 32 :: result[j] == StepSpec(state)[j];
  }

  /** Cells `i` and `j` share an edge of the 5×5 grid. */
  predicate Adjacent(i: nat, j: nat) {
    var di := i / 5 - j / 5;
    var dj := i % 5 - j % 5;
    (di == 0 && (dj == 1 || dj == -1)) || (dj == 0 && (di == 1 || di == -1))
  }

  /** The neighbours of `i` that `Count` inspects. */
  function CountedNeighbours(i: nat): set<nat>
    requires i < 25
  {
    (if i % 5 != 0 then {i - 1} else {})
    + (if i % 5 != 4 then {i + 1} else {})
    + (if i >= 5 then {i - 5} else {})
    + (if i < 20 then {i + 5} else {})
  }

  /** The cells `Count` inspects are exactly those that share an edge
      with `i`. */
  lemma CountedNeighboursAreAdjacent(i: nat)
    requires i < 25
    ensures CountedNeighbours(i) == set j: nat | j < 25 && Adjacent(i, j)
  {
    forall j: nat | j < 25
      ensures j in CountedNeighbours(i) <==> Adjacent(i, j)
    {
      DivModFive(i);
      DivModFive(j);
    }
  }

  lemma DivModFive(i: nat)
    requires i < 25
    ensures i == 5 * (i / 5) + i % 5 && 0 <= i % 5 < 5 && 0 <= i / 5 < 5
  {
  }

  /** `Count` is the number of bugs among the cells it inspects. */
  lemma CountIsBugsAmongNeighbours(s: Bits, i: nat)
    requires i < 25
    ensures Count(s, i) == |BugsAmong(s, CountedNeighbours(i))|
  {
    var l, r, u, d := if i == 0 then 0 else i - 1, i + 1, if i < 5 then 0 else i - 5, i + 5;
    assert CountedNeighbours(i) == Opt(i % 5 != 0, l) + Opt(i % 5 != 4, r) + Opt(i >= 5, u) + Opt(i < 20, d);
    BugsAmongFour(s, i % 5 != 0, l, i % 5 != 4, r, i >= 5, u, i < 20, d);
  }

  /** `{j}` when `present`, otherwise no cell. */
  function Opt(present: bool, j: nat): set<nat> {
    if present then {j} else {}
  }

  /** The bugs among up to four distinct cells, one at a time. */
  lemma BugsAmongFour(s: Bits, pa: bool, a: nat, pb: bool, b: nat, pc: bool, c: nat, pd: bool, d: nat)
    requires a < 32 && b < 32 && c < 32 && d < 32
    requires (pa && pb ==> a != b) && (pa && pc ==> a != c) && (pa && pd ==> a != d)
    requires (pb && pc ==> b != c) && (pb && pd ==> b != d) && (pc && pd ==> c != d)
    ensures |BugsAmong(s, Opt(pa, a) + Opt(pb, b) + Opt(pc, c) + Opt(pd, d))|
      == Field01(pa && Bit(s, a)) + Field01(pb && Bit(s, b)) + Field01(pc && Bit(s, c)) + Field01(pd && Bit(s, d))
  {
    BugsAmongOptional(s, pa, a);
    BugsAmongOptional(s, pb, b);
    BugsAmongOptional(s, pc, c);
    BugsAmongOptional(s, pd, d);
    BugsAmongUnion(s, Opt(pa, a), Opt(pb, b));
    BugsAmongUnion(s, Opt(pa, a) + Opt(pb, b), Opt(pc, c));
    BugsAmongUnion(s, Opt(pa, a) + Opt(pb, b) + Opt(pc, c), Opt(pd, d));
    CardFour(pa && Bit(s, a), a, pb && Bit(s, b), b, pc && Bit(s, c), c, pd && Bit(s, d), d);
  }

  /** Up to four distinct cells. */
  lemma CardFour(qa: bool, a: nat, qb: bool, b: nat, qc: bool, c: nat, qd: bool, d: nat)
    requires (qa && qb ==> a != b) && (qa && qc ==> a != c) && (qa && qd ==> a != d)
    requires (qb && qc ==> b != c) && (qb && qd ==> b != d) && (qc && qd ==> c != d)
    ensures |Opt(qa, a) + Opt(qb, b) + Opt(qc, c) + Opt(qd, d)| == Field01(qa) + Field01(qb) + Field01(qc) + Field01(qd)
  {
    var x1 := Opt(qa, a);
    var x2 := x1 + Opt(qb, b);
    var x3 := x2 + Opt(qc, c);
    assert x1 <= {a};
    assert x2 <= {a, b};
    assert x3 <= {a, b, c};
    assert |x1| == Field01(qa);
    AddOpt(x1, qb, b);
    AddOpt(x2, qc, c);
    AddOpt(x3, qd, d);
  }

  function Field01(b: bool): nat {
    if b then 1 else 0
  }

  lemma AddOpt(x: set<nat>, q: bool, j: nat)
    requires q ==> j !in x
    ensures |x + Opt(q, j)| == |x| + Field01(q)
  {
    if !q {
      assert x + Opt(q, j) == x;
    }
  }

  lemma BugsAmongOptional(s: Bits, present: bool, j: nat)
    requires j < 32
    ensures BugsAmong(s, Opt(present, j)) == Opt(present && Bit(s, j), j)
  {
  }

  lemma BugsAmongUnion(s: Bits, a: set<nat>, b: set<nat>)
    ensures BugsAmong(s, a + b) == BugsAmong(s, a) + BugsAmong(s, b)
  {
  }

  /** The cells of `cells` that hold a bug. */
  function BugsAmong(s: Bits, cells: set<nat>): set<nat> {
    set j | j in cells && j < 32 && Bit(s, j)
  }

  // ------------------------------------------------------------ find_cycle

  /** The grid after `k` minutes. */
  function Iterate(s: Bits, k: nat): Bits {
    if k == 0 then s else StepSpec(Iterate(s, k - 1))
  }

  /** Minute `k` is the first at which a grid seen before appears again. */
  predicate IsFirstRepeat(s: Bits, k: nat) {
    && (exists j | 0 <= j < k :: Iterate(s, j) == Iterate(s, k))
    && forall j, j' | 0 <= j < j' < k :: Iterate(s, j) != Iterate(s, j')
  }

  /** `find_cycle`, with at most `fuel` steps: the first grid that appears a
      second time, or `None` when `fuel` runs out first. */
  method FindCycle(start: Bits, fuel: nat) returns (r: Option<Bits>)
    ensures r.Some? ==> exists k | 0 <= k <= fuel :: IsFirstRepeat(start, k) && r.value == Iterate(start, k)
    ensures r.None? ==> forall j, j' | 0 <= j < j' <= fuel :: Iterate(start, j) != Iterate(start, j')
  {
    var seen: set<Bits> := {};
    var state := start;
    var n: nat := 0;
    while n <= fuel
      invariant n <= fuel + 1
      invariant state == Iterate(start, n)
      invariant seen == Seen(start, n)
      invariant Distinct(start, n)
      decreases fuel + 1 - n
    {
      if state in seen {
        RepeatFound(start, n);
        return Some(state);
      }
      DistinctStep(start, n);
      SeenStep(start, n);
      seen := seen + {state};
      state := Step(state);
      n := n + 1;
    }
    r := None;
  }

  /** The grids of the first `n` minutes. */
  ghost function Seen(start: Bits, n: nat): set<Bits> {
    set j | 0 <= j < n :: Iterate(start, j)
  }

  /** No grid repeats among the first `n` minutes. */
  ghost predicate Distinct(start: Bits, n: nat) {
    forall j, j' | 0 <= j < j' < n :: Iterate(start, j) != Iterate(start, j')
  }

  lemma SeenStep(start: Bits, n: nat)
    ensures Seen(start, n) + {Iterate(start, n)} == Seen(start, n + 1)
  {
  }

  lemma DistinctStep(start: Bits, n: nat)
    requires Distinct(start, n) && Iterate(start, n) !in Seen(start, n)
    ensures Distinct(start, n + 1)
  {
    forall j, j' | 0 <= j < j' < n + 1 ensures Iterate(start, j) != Iterate(start, j') {
      if j' == n {
        assert Iterate(start, j) in Seen(start, n);
      }
    }
  }

  lemma RepeatFound(start: Bits, n: nat)
    requires Distinct(start, n) && Iterate(start, n) in Seen(start, n)
    ensures IsFirstRepeat(start, n)
  {
  }

  // ------------------------------------------------------------ step_part2

  /** The sum of the bits `cells` of `s`. */
  function FieldSum(s: Bits, cells: seq<nat>): nat
    requires forall k | 0 <= k < |cells| :: cells[k] < 32
  {
    if cells == [] then 0 else Field(s, cells[0]) + FieldSum(s, cells[1..])
  }

  /** The neighbour count of `step_part2` for cell `i` of a layer whose
      enclosing layer is `upper` and whose enclosed layer is `lower`;
      0 for the centre cell, which stands for the enclosed layer. */
  function TableCount(upper: Bits, state: Bits, lower: Bits, i: nat): nat
    requires i < 25
  {
    var top := Field(upper, 7);
    var left := Field(upper, 11);
    var right := Field(upper, 13);
    var bottom := Field(upper, 17);
    var innerTop := FieldSum(lower, [0, 1, 2, 3, 4]);
    var innerLeft := FieldSum(lower, [0, 5, 10, 15, 20]);
    var innerRight := FieldSum(lower, [4, 9, 14, 19, 24]);
    var innerBottom := FieldSum(lower, [20, 21, 22, 23, 24]);
    match i
    case 0 => left + top + Field(state, 1) + Field(state, 5)
    case 1 => top + Field(state, 0) + Field(state, 2) + Field(state, 6)
    case 2 => top + Field(state, 1) + Field(state, 3) + Field(state, 7)
    case 3 => top + Field(state, 2) + Field(state, 4) + Field(state, 8)
    case 4 => top + right + Field(state, 3) + Field(state, 9)
    case 5 => left + Field(state, 0) + Field(state, 6) + Field(state, 10)
    case 6 => Field(state, 5) + Field(state, 1) + Field(state, 7) + Field(state, 11)
    case 7 => Field(state, 2) + Field(state, 6) + Field(state, 8) + innerTop
    case 8 => Field(state, 7) + Field(state, 3) + Field(state, 9) + Field(state, 13)
    case 9 => right + Field(state, 4) + Field(state, 8) + Field(state, 14)
    case 10 => left + Field(state, 5) + Field(state, 11) + Field(state, 15)
    case 11 => Field(state, 6) + Field(state, 10) + Field(state, 16) + innerLeft
    case 13 => Field(state, 8) + Field(state, 14) + Field(state, 18) + innerRight
    case 14 => right + Field(state, 9) + Field(state, 13) + Field(state, 19)
    case 15 => left + Field(state, 10) + Field(state, 16) + Field(state, 20)
    case 16 => Field(state, 15) + Field(state, 11) + Field(state, 17) + Field(state, 21)
    case 17 => Field(state, 22) + Field(state, 16) + Field(state, 18) + innerBottom
    case 18 => Field(state, 17) + Field(state, 13) + Field(state, 19) + Field(state, 23)
    case 19 => right + Field(state, 14) + Field(state, 18) + Field(state, 24)
    case 20 => left + bottom + Field(state, 21) + Field(state, 15)
    case 21 => bottom + Field(state, 20) + Field(state, 22) + Field(state, 16)
    case 22 => bottom + Field(state, 21) + Field(state, 23) + Field(state, 17)
    case 23 => bottom + Field(state, 22) + Field(state, 24) + Field(state, 18)
    case 24 => bottom + right + Field(state, 23) + Field(state, 19)
    case _ => 0
  }

  /** A cell of the recursive grid relative to a layer: `depth` -1 is the
      enclosing layer, 0 the layer itself, 1 the enclosed layer. */
  datatype Neighbour = Neighbour(depth: int, cell: nat)

  /** The cells met by leaving cell `i` in direction `(dr, dc)`: the
      enclosing layer's cell beside the centre when leaving the grid, the
      facing edge of the enclosed layer when entering the centre, otherwise
      the adjacent cell. */
  function Toward(i: nat, dr: int, dc: int): (ns: seq<Neighbour>)
    requires i < 25
    ensures forall k | 0 <= k < |ns| :: ns[k].cell < 25
  {
    var r := i / 5 + dr;
    var c := i % 5 + dc;
    if r < 0 then [Neighbour(-1, 7)]
    else if r > 4 then [Neighbour(-1, 17)]
    else if c < 0 then [Neighbour(-1, 11)]
    else if c > 4 then [Neighbour(-1, 13)]
    else if r == 2 && c == 2 then
      if dr == 1 then seq(5, k requires 0 <= k < 5 => Neighbour(1, k))
      else if dr == -1 then seq(5, k requires 0 <= k < 5 => Neighbour(1, 20 + k))
      else if dc == 1 then seq(5, k requires 0 <= k < 5 => Neighbour(1, 5 * k))
      else seq(5, k requires 0 <= k < 5 => Neighbour(1, 5 * k + 4))
    else [Neighbour(0, 5 * r + c)]
  }

  /** The neighbours of cell `i` in the recursive grid, up, down, left and
      right. */
  function RecursiveNeighbours(i: nat): (ns: seq<Neighbour>)
    requires i < 25
    ensures forall k | 0 <= k < |ns| :: ns[k].cell < 25
  {
    Toward(i, -1, 0) + Toward(i, 1, 0) + Toward(i, 0, -1) + Toward(i, 0, 1)
  }

  /** How many of `ns` hold a bug. */
  function BugsIn(upper: Bits, state: Bits, lower: Bits, ns: seq<Neighbour>): nat
    requires forall k | 0 <= k < |ns| :: ns[k].cell < 32
  {
    if ns == [] then 0
    else
      var n := ns[0];
      var layer := if n.depth < 0 then upper else if n.depth == 0 then state else lower;
      Field(layer, n.cell) + BugsIn(upper, state, lower, ns[1..])
  }

  lemma {:induction false} BugsInConcat(upper: Bits, state: Bits, lower: Bits, a: seq<Neighbour>, b: seq<Neighbour>)
    requires forall k | 0 <= k < |a| :: a[k].cell < 32
    requires forall k | 0 <= k < |b| :: b[k].cell < 32
    ensures BugsIn(upper, state, lower, a + b) == BugsIn(upper, state, lower, a) + BugsIn(upper, state, lower, b)
  {
    if a == [] {
      assert a + b == b;
    } else {
      assert (a + b)[1..] == a[1..] + b;
      BugsInConcat(upper, state, lower, a[1..], b);
    }
  }

  /** The bugs on one edge of the enclosed layer. */
  lemma {:induction false} BugsInEdge(upper: Bits, state: Bits, lower: Bits, ns: seq<Neighbour>, cells: seq<nat>)
    requires |ns| == |cells|
    requires forall k | 0 <= k < |ns| :: ns[k] == Neighbour(1, cells[k]) && cells[k] < 32
    ensures BugsIn(upper, state, lower, ns) == FieldSum(lower, cells)
  {
    if ns != [] {
      BugsInEdge(upper, state, lower, ns[1..], cells[1..]);
    }
  }

  lemma BugsInOne(upper: Bits, state: Bits, lower: Bits, n: Neighbour)
    requires n.cell < 32
    ensures BugsIn(upper, state, lower, [n]) == Field(if n.depth < 0 then upper else if n.depth == 0 then state else lower, n.cell)
  {
    assert [n][1..] == [];
  }

  function UpTerm(upper: Bits, state: Bits, lower: Bits, i: nat): nat
    requires i < 25 && i != 12
  {
    if i < 5 then Field(upper, 7)
    else if i == 17 then FieldSum(lower, [20, 21, 22, 23, 24])
    else Field(state, i - 5)
  }

  /** The bugs met going up from cell `i`. */
  lemma UpBugs(upper: Bits, state: Bits, lower: Bits, i: nat)
    requires i < 25 && i != 12
    ensures BugsIn(upper, state, lower, Toward(i, -1, 0)) == UpTerm(upper, state, lower, i)
  {
    var ns := Toward(i, -1, 0);
    if i == 17 {
      BugsInEdge(upper, state, lower, ns, [20, 21, 22, 23, 24]);
    } else {
      BugsInOne(upper, state, lower, ns[0]);
      assert ns == [ns[0]];
    }
  }

  function DownTerm(upper: Bits, state: Bits, lower: Bits, i: nat): nat
    requires i < 25 && i != 12
  {
    if i >= 20 then Field(upper, 17)
    else if i == 7 then FieldSum(lower, [0, 1, 2, 3, 4])
    else Field(state, i + 5)
  }

  /** The bugs met going down from cell `i`. */
  lemma DownBugs(upper: Bits, state: Bits, lower: Bits, i: nat)
    requires i < 25 && i != 12
    ensures BugsIn(upper, state, lower, Toward(i, 1, 0)) == DownTerm(upper, state, lower, i)
  {
    var ns := Toward(i, 1, 0);
    if i == 7 {
      BugsInEdge(upper, state, lower, ns, [0, 1, 2, 3, 4]);
    } else {
      BugsInOne(upper, state, lower, ns[0]);
      assert ns == [ns[0]];
    }
  }

  function LeftTerm(upper: Bits, state: Bits, lower: Bits, i: nat): nat
    requires i < 25 && i != 12
  {
    if i % 5 == 0 then Field(upper, 11)
    else if i == 13 then FieldSum(lower, [4, 9, 14, 19, 24])
    else Field(state, i - 1)
  }

  /** The bugs met going left from cell `i`. */
  lemma LeftBugs(upper: Bits, state: Bits, lower: Bits, i: nat)
    requires i < 25 && i != 12
    ensures BugsIn(upper, state, lower, Toward(i, 0, -1)) == LeftTerm(upper, state, lower, i)
  {
    var ns := Toward(i, 0, -1);
    if i == 13 {
      BugsInEdge(upper, state, lower, ns, [4, 9, 14, 19, 24]);
    } else {
      BugsInOne(upper, state, lower, ns[0]);
      assert ns == [ns[0]];
    }
  }

  function RightTerm(upper: Bits, state: Bits, lower: Bits, i: nat): nat
    requires i < 25 && i != 12
  {
    if i % 5 == 4 then Field(upper, 13)
    else if i == 11 then FieldSum(lower, [0, 5, 10, 15, 20])
    else Field(state, i + 1)
  }

  /** The bugs met going right from cell `i`. */
  lemma RightBugs(upper: Bits, state: Bits, lower: Bits, i: nat)
    requires i < 25 && i != 12
    ensures BugsIn(upper, state, lower, Toward(i, 0, 1)) == RightTerm(upper, state, lower, i)
  {
    var ns := Toward(i, 0, 1);
    if i == 11 {
      BugsInEdge(upper, state, lower, ns, [0, 5, 10, 15, 20]);
    } else {
      BugsInOne(upper, state, lower, ns[0]);
      assert ns == [ns[0]];
    }
  }

  lemma TableRow0(upper: Bits, state: Bits, lower: Bits, i: nat)
    requires 0 <= i < 5 && i != 12
    ensures TableCount(upper, state, lower, i) ==
      UpTerm(upper, state, lower, i) + DownTerm(upper, state, lower, i)
      + LeftTerm(upper, state, lower, i) + RightTerm(upper, state, lower, i)
  {
  }

  lemma TableRow1(upper: Bits, state: Bits, lower: Bits, i: nat)
    requires 5 <= i < 10 && i != 12
    ensures TableCount(upper, state, lower, i) ==
      UpTerm(upper, state, lower, i) + DownTerm(upper, state, lower, i)
      + LeftTerm(upper, state, lower, i) + RightTerm(upper, state, lower, i)
  {
  }

  lemma TableRow2(upper: Bits, state: Bits, lower: Bits, i: nat)
    requires 10 <= i < 15 && i != 12
    ensures TableCount(upper, state, lower, i) ==
      UpTerm(upper, state, lower, i) + DownTerm(upper, state, lower, i)
      + LeftTerm(upper, state, lower, i) + RightTerm(upper, state, lower, i)
  {
  }

  lemma TableRow3(upper: Bits, state: Bits, lower: Bits, i: nat)
    requires 15 <= i < 20 && i != 12
    ensures TableCount(upper, state, lower, i) ==
      UpTerm(upper, state, lower, i) + DownTerm(upper, state, lower, i)
      + LeftTerm(upper, state, lower, i) + RightTerm(upper, state, lower, i)
  {
  }

  lemma TableRow4(upper: Bits, state: Bits, lower: Bits, i: nat)
    requires 20 <= i < 25 && i != 12
    ensures TableCount(upper, state, lower, i) ==
      UpTerm(upper, state, lower, i) + DownTerm(upper, state, lower, i)
      + LeftTerm(upper, state, lower, i) + RightTerm(upper, state, lower, i)
  {
  }

  /** The table of `step_part2` counts the bugs among the recursive
      neighbours of each cell except the centre. */
  lemma TableIsRecursiveNeighbours(upper: Bits, state: Bits, lower: Bits, i: nat)
    requires i < 25 && i != 12
    ensures TableCount(upper, state, lower, i) == BugsIn(upper, state, lower, RecursiveNeighbours(i))
  {
    var up, down, left, right := Toward(i, -1, 0), Toward(i, 1, 0), Toward(i, 0, -1), Toward(i, 0, 1);
    BugsInConcat(upper, state, lower, up, down);
    BugsInConcat(upper, state, lower, up + down, left);
    BugsInConcat(upper, state, lower, up + down + left, right);
    UpBugs(upper, state, lower, i);
    DownBugs(upper, state, lower, i);
    LeftBugs(upper, state, lower, i);
    RightBugs(upper, state, lower, i);
    if i < 5 { TableRow0(upper, state, lower, i); }
    else if i < 10 { TableRow1(upper, state, lower, i); }
    else if i < 15 { TableRow2(upper, state, lower, i); }
    else if i < 20 { TableRow3(upper, state, lower, i); }
    else { TableRow4(upper, state, lower, i); }
  }

  /** A layer after one minute: the life rule on the table's counts, the
      centre left empty. */
  predicate AliveNextInLayer(upper: Bits, state: Bits, lower: Bits, i: nat) {
    i < 25 && i != 12 && Rule(Bit(state, i), TableCount(upper, state, lower, i))
  }

  function LayerSpec(upper: Bits, state: Bits, lower: Bits): (next: Bits)
    ensures forall i: nat | i < 32 :: Bit(next, i) <==> AliveNextInLayer(upper, state, lower, i)
  {
    seq(32, i requires 0 <= i < 32 => AliveNextInLayer(upper, state, lower, i))
  }

  /** The loop body of `step_part2` for one layer: the `fields` vector, then
      one bit per cell. */
  method NextLayer(upper: Bits, state: Bits, lower: Bits) returns (newLayer: Bits)
    ensures newLayer == LayerSpec(upper, state, lower)
  {
    var fields: seq<nat> := [];
    for i := 0 to 25
      invariant |fields| == i
      invariant forall j | 0 <= j < i :: fields[j] == Field(state, j)
    {
      fields := fields + [Field(state, i)];
    }
    newLayer := NoBugs();
    for i := 0 to 25
      invariant forall j: nat | j < 32 :: Bit(newLayer, j) <==> j < i && AliveNextInLayer(upper, state, lower, j)
    {
      var cnt := TableCount(upper, state, lower, i);
      if i != 12 && ((fields[i] == 0 && cnt == 2) || cnt == 1) {
        newLayer := SetBit(newLayer, i);
      }
    }
    assert forall j | 0 <= j < 32 :: newLayer[j] == LayerSpec(upper, state, lower)[j];
  }

  /** `states.get(&layer).unwrap_or(&0)`. */
  function LayerOr0(states: map<i32, Bits>, layer: i32): Bits {
    if layer in states then states[layer] else NoBugs()
  }

  /** The least layer number of `s`. */
  ghost function MinOf(s: set<i32>): (m: i32)
    requires s != {}
    ensures m in s && forall x | x in s :: m <= x
  {
    var x :| x in s;
    if s == {x} then
      assert forall y | y in s :: y == x;
      x
    else
      var r := MinOf(s - {x});
      assert forall y | y in s :: y == x || y in s - {x};
      if x < r then x else r
  }

  /** The greatest layer number of `s`. */
  ghost function MaxOf(s: set<i32>): (m: i32)
    requires s != {}
    ensures m in s && forall x | x in s :: x <= m
  {
    var x :| x in s;
    if s == {x} then
      assert forall y | y in s :: y == x;
      x
    else
      var r := MaxOf(s - {x});
      assert forall y | y in s :: y == x || y in s - {x};
      if x > r then x else r
  }

  /** `states.keys().minmax()`: `None` for no keys, otherwise the least and
      the greatest (equal for a single key). */
  method MinMax(keys: set<i32>) returns (r: Option<(i32, i32)>)
    ensures keys == {} <==> r.None?
    ensures r.Some? ==> r.value == (MinOf(keys), MaxOf(keys))
  {
    if keys == {} {
      return None;
    }
    var first :| first in keys;
    var lo, hi := first, first;
    var todo := keys - {first};
    while todo != {}
      invariant todo <= keys
      invariant lo in keys && hi in keys
      invariant forall x | x in keys - todo :: lo <= x <= hi
      decreases |todo|
    {
      var x :| x in todo;
      if x < lo { lo := x; }
      if x > hi { hi := x; }
      assert keys - (todo - {x}) == (keys - todo) + {x};
      todo := todo - {x};
    }
    assert keys - todo == keys;
    assert lo <= MinOf(keys) <= lo && hi <= MaxOf(keys) <= hi;
    r := Some((lo, hi));
  }

  datatype Part2Error = EmptyState | Overflow

  /** Whether the i32 arithmetic of `step_part2` stays in range: `min - 1`
      and `max + 1`, then `layer - 1` and `layer + 1` for those new layers. */
  predicate LayersFit(lo: int, hi: int) {
    I32_MIN <= lo - 2 && hi + 2 <= I32_MAX
  }

  /** The layers of `states` with an empty one added below the least and
      above the greatest. */
  function Extended(states: map<i32, Bits>, lo: i32, hi: i32): (extended: map<i32, Bits>)
    requires LayersFit(lo, hi)
    ensures extended.Keys == states.Keys + {(lo - 1) as i32, (hi + 1) as i32}
  {
    states[lo - 1 := NoBugs()][hi + 1 := NoBugs()]
  }

  /** The new state of `layer`. */
  function NewLayer(states: map<i32, Bits>, extended: map<i32, Bits>, layer: i32): Bits
    requires layer in extended && InI32(layer - 1) && InI32(layer + 1)
  {
    LayerSpec(LayerOr0(states, layer - 1), extended[layer], LayerOr0(states, layer + 1))
  }

  /** The layers `step_part2` computes: every layer of `states` plus an empty
      one beyond each end, each from its own state and the old states of its
      neighbours. */
  ghost function StepPart2Spec(states: map<i32, Bits>): (r: Result<map<i32, Bits>, Part2Error>)
    ensures states == map[] <==> r == Err(EmptyState)
    ensures r == Err(Overflow) <==> states != map[] && !LayersFit(MinOf(states.Keys), MaxOf(states.Keys))
    ensures r.Ok? ==> var lo, hi := MinOf(states.Keys), MaxOf(states.Keys);
      r.value.Keys == states.Keys + {(lo - 1) as i32, (hi + 1) as i32}
    ensures r.Ok? ==> forall layer | layer in r.value :: !Bit(r.value[layer], 12)
  {
    if states.Keys == {} then
      assert states == map[];
      Err(EmptyState)
    else
      var lo, hi := MinOf(states.Keys), MaxOf(states.Keys);
      if !LayersFit(lo, hi) then Err(Overflow)
      else
        var extended := Extended(states, lo, hi);
        Ok(map layer | layer in extended :: NewLayer(states, extended, layer))
  }

  /** The loop of `step_part2` over the extended layers, in any order. */
  method NewLayers(states: map<i32, Bits>, extended: map<i32, Bits>) returns (result: map<i32, Bits>)
    requires forall layer | layer in extended :: InI32(layer - 1) && InI32(layer + 1)
    ensures result == map layer | layer in extended :: NewLayer(states, extended, layer)
  {
    result := map[];
    var todo := extended.Keys;
    while todo != {}
      invariant todo <= extended.Keys
      invariant result.Keys == extended.Keys - todo
      invariant forall layer | layer in result :: result[layer] == NewLayer(states, extended, layer)
      decreases |todo|
    {
      var layer :| layer in todo;
      var upper := LayerOr0(states, layer - 1);
      var lower := LayerOr0(states, layer + 1);
      var next := NextLayer(upper, extended[layer], lower);
      result := result[layer := next];
      todo := todo - {layer};
    }
  }

  /** `step_part2`: adds the two empty layers, then computes each layer from
      its own state and the old states of its neighbours. */
  method StepPart2(states: map<i32, Bits>) returns (r: Result<map<i32, Bits>, Part2Error>)
    ensures r == StepPart2Spec(states)
  {
    var bounds := MinMax(states.Keys);
    if bounds.None? {
      assert states == map[];
      return Err(EmptyState);
    }
    var (lo, hi) := bounds.value;
    if !LayersFit(lo, hi) {
      return Err(Overflow);
    }
    var extended := Extended(states, lo, hi);
    assert forall layer | layer in extended :: lo - 1 <= layer <= hi + 1;
    var result := NewLayers(states, extended);
    r := Ok(result);
    StepPart2SpecOk(states, lo, hi);
  }

  lemma StepPart2SpecOk(states: map<i32, Bits>, lo: i32, hi: i32)
    requires states != map[] && lo == MinOf(states.Keys) && hi == MaxOf(states.Keys) && LayersFit(lo, hi)
    ensures forall layer | layer in Extended(states, lo, hi) :: InI32(layer - 1) && InI32(layer + 1)
    ensures var extended := Extended(states, lo, hi);
      StepPart2Spec(states) == Ok(map layer | layer in extended :: NewLayer(states, extended, layer))
  {
    assert states.Keys != {};
  }

  // ------------------------------------------------------------- examples

  lemma {:induction false} UnsignedOfNoBugs(s: seq<bool>)
    requires forall i | 0 <= i < |s| :: !s[i]
    ensures Unsigned(s) == 0
  {
    if s != [] {
      UnsignedOfNoBugs(s[1..]);
    }
  }

  lemma SameBits(a: Bits, b: Bits)
    requires forall i: nat | i < 32 :: Bit(a, i) == Bit(b, i)
    ensures a == b
  {
    forall i | 0 <= i < 32 ensures a[i] == b[i] {
      assert Bit(a, i) == Bit(b, i);
    }
  }

  /** Setting a clear bit `i` adds `2^i`. */
  lemma {:induction false} UnsignedOfSetBit(s: seq<bool>, i: nat)
    requires i < |s| && !s[i]
    ensures Unsigned(s[i := true]) == Unsigned(s) + Pow2(i)
  {
    if i > 0 {
      assert s[i := true][1..] == s[1..][i - 1 := true];
      UnsignedOfSetBit(s[1..], i - 1);
    }
  }

  /** The grid of the parsing test: bugs at cells 15 and 21. */
  lemma ParseExample()
    ensures Parsed("...............#.....#...") == SetBit(SetBit(NoBugs(), 15), 21)
  {
    var g := SetBit(SetBit(NoBugs(), 15), 21);
    forall j | 0 <= j < 32 ensures Parsed("...............#.....#...")[j] == g[j] {
      assert Bit(g, j) <==> j == 15 || j == 21;
    }
  }

  /** The grid with bugs at cells 15 and 21 is the i32 2,129,920. */
  lemma ParseExampleValue()
    ensures Value(SetBit(SetBit(NoBugs(), 15), 21)) == 2_129_920
  {
    var g := SetBit(SetBit(NoBugs(), 15), 21);
    var low := NoBugs()[..31];
    var with15 := low[15 := true];
    var with21 := with15[21 := true];
    assert with21 == g[..31];
    assert !g[31];
    UnsignedOfNoBugs(low);
    UnsignedOfSetBit(low, 15);
    UnsignedOfSetBit(with15, 21);
    Pow2Values();
  }

  lemma Pow2Values()
    ensures Pow2(15) == 32768 && Pow2(21) == 2097152
  {
    assert Pow2(3) == 8 by {
      assert Pow2(1) == 2;
      assert Pow2(2) == 4;
    }
    Pow2Add(3, 3);
    Pow2Add(6, 3);
    Pow2Add(9, 3);
    Pow2Add(12, 3);
    Pow2Add(15, 3);
    Pow2Add(18, 3);
  }

  lemma {:induction false} Pow2Add(a: nat, b: nat)
    ensures Pow2(a + b) == Pow2(a) * Pow2(b)
  {
    if a > 0 {
      Pow2Add(a - 1, b);
    }
  }

  /** The grid with bugs at the cells of `g`. */
  function GridOf(g: set<nat>): (s: Bits)
    ensures forall j: nat | j < 32 :: Bit(s, j) <==> j in g
  {
    seq(32, j requires 0 <= j < 32 => j in g)
  }

  /** A 25-character grid picture is the grid of its `#` cells. */
  lemma ParsedPicture(picture: string, g: set<nat>)
    requires |picture| == 25
    requires forall j | 0 <= j < 25 :: picture[j] == '#' <==> j in g
    requires forall j | j in g :: j < 25
    ensures Parsed(picture) == GridOf(g)
  {
    SameBits(Parsed(picture), GridOf(g));
  }

  lemma Picture1()
    ensures Parsed("....##..#.#..##..#..#....") == GridOf(Bugs1())
  {
    ParsedPicture("....##..#.#..##..#..#....", Bugs1());
  }

  lemma Picture2()
    ensures Parsed("#..#.####.###.###.##.##..") == GridOf(Bugs2())
  {
    ParsedPicture("#..#.####.###.###.##.##..", Bugs2());
  }

  function Bugs1(): set<nat> {
    {4, 5, 8, 10, 13, 14, 17, 20}
  }

  function Bugs2(): set<nat> {
    {0, 3, 5, 6, 7, 8, 10, 11, 12, 14, 15, 16, 18, 19, 21, 22}
  }

  lemma StepExampleRow0(before: Bits, after: Bits)
    requires before == GridOf(Bugs1()) && after == GridOf(Bugs2())
    ensures forall i: nat | 0 <= i < 5 :: AliveNext(before, i) == Bit(after, i)
  {
    forall i: nat | 0 <= i < 5 ensures AliveNext(before, i) == Bit(after, i) {
      if i == 0 { assert AliveNext(before, 0) == Bit(after, 0); }
      else if i == 1 { assert AliveNext(before, 1) == Bit(after, 1); }
      else if i == 2 { assert AliveNext(before, 2) == Bit(after, 2); }
      else if i == 3 { assert AliveNext(before, 3) == Bit(after, 3); }
      else { assert AliveNext(before, 4) == Bit(after, 4); }
    }
  }

  lemma StepExampleRow1(before: Bits, after: Bits)
    requires before == GridOf(Bugs1()) && after == GridOf(Bugs2())
    ensures forall i: nat | 5 <= i < 10 :: AliveNext(before, i) == Bit(after, i)
  {
    forall i: nat | 5 <= i < 10 ensures AliveNext(before, i) == Bit(after, i) {
      if i == 5 { assert AliveNext(before, 5) == Bit(after, 5); }
      else if i == 6 { assert AliveNext(before, 6) == Bit(after, 6); }
      else if i == 7 { assert AliveNext(before, 7) == Bit(after, 7); }
      else if i == 8 { assert AliveNext(before, 8) == Bit(after, 8); }
      else { assert AliveNext(before, 9) == Bit(after, 9); }
    }
  }

  lemma StepExampleRow2(before: Bits, after: Bits)
    requires before == GridOf(Bugs1()) && after == GridOf(Bugs2())
    ensures forall i: nat | 10 <= i < 15 :: AliveNext(before, i) == Bit(after, i)
  {
    forall i: nat | 10 <= i < 15 ensures AliveNext(before, i) == Bit(after, i) {
      if i == 10 { assert AliveNext(before, 10) == Bit(after, 10); }
      else if i == 11 { assert AliveNext(before, 11) == Bit(after, 11); }
      else if i == 12 { assert AliveNext(before, 12) == Bit(after, 12); }
      else if i == 13 { assert AliveNext(before, 13) == Bit(after, 13); }
      else { assert AliveNext(before, 14) == Bit(after, 14); }
    }
  }

  lemma StepExampleRow3(before: Bits, after: Bits)
    requires before == GridOf(Bugs1()) && after == GridOf(Bugs2())
    ensures forall i: nat | 15 <= i < 20 :: AliveNext(before, i) == Bit(after, i)
  {
    forall i: nat | 15 <= i < 20 ensures AliveNext(before, i) == Bit(after, i) {
      if i == 15 { assert AliveNext(before, 15) == Bit(after, 15); }
      else if i == 16 { assert AliveNext(before, 16) == Bit(after, 16); }
      else if i == 17 { assert AliveNext(before, 17) == Bit(after, 17); }
      else if i == 18 { assert AliveNext(before, 18) == Bit(after, 18); }
      else { assert AliveNext(before, 19) == Bit(after, 19); }
    }
  }

  lemma StepExampleRow4(before: Bits, after: Bits)
    requires before == GridOf(Bugs1()) && after == GridOf(Bugs2())
    ensures forall i: nat | 20 <= i < 25 :: AliveNext(before, i) == Bit(after, i)
  {
    forall i: nat | 20 <= i < 25 ensures AliveNext(before, i) == Bit(after, i) {
      if i == 20 { assert AliveNext(before, 20) == Bit(after, 20); }
      else if i == 21 { assert AliveNext(before, 21) == Bit(after, 21); }
      else if i == 22 { assert AliveNext(before, 22) == Bit(after, 22); }
      else if i == 23 { assert AliveNext(before, 23) == Bit(after, 23); }
      else { assert AliveNext(before, 24) == Bit(after, 24); }
    }
  }

  /** The one-minute example: the first grid becomes the second. */
  lemma StepExample()
    ensures StepSpec(Parsed("....##..#.#..##..#..#....")) == Parsed("#..#.####.###.###.##.##..")
  {
    var before, after := GridOf(Bugs1()), GridOf(Bugs2());
    Picture1();
    Picture2();
    StepExampleRow0(before, after);
    StepExampleRow1(before, after);
    StepExampleRow2(before, after);
    StepExampleRow3(before, after);
    StepExampleRow4(before, after);
    SameBits(StepSpec(before), after);
  }
}
