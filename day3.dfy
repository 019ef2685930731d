/** The crossed wires of src/bin/day3.rs: each wire is a list of moves such
    as `U7` (up 7), drawn as axis-parallel segments from the origin; a
    crossing of a horizontal segment of one wire with a vertical segment of
    the other is reported with its distance from the origin and the steps
    both wires take to reach it. */
module Day3 {
  import opened Wrappers
  import opened RustInt
  import opened Text

  // ----------------------------------------------------------- decoding

  /** A move: its direction letter and its length. */
  datatype Instruction = Instruction(dir: char, length: i64)

  datatype DecodeError = NoDirection(piece: string) | BadLength(piece: string)

  /** One comma-separated move. `get(0..1)` fails on an empty piece or on a
      first character longer than one byte (not ASCII); the rest must parse
      as an `i64`. */
  function DecodeInstruction(piece: string): (r: Result<Instruction, DecodeError>)
    ensures r.Ok? <==> |piece| > 0 && piece[0] as int < 128 && ParseI64(piece[1..]).Some?
    ensures r.Ok? ==> r.value.dir == piece[0] && Some(r.value.length as int) == ParseI64(piece[1..])
  {
    if |piece| == 0 || piece[0] as int >= 128 then Err(NoDirection(piece))
    else match ParseI64(piece[1..])
      case None => Err(BadLength(piece))
      case Some(n) => Ok(Instruction(piece[0], n))
  }

  /** Each piece decoded in order; the first piece that fails is the error
      (the source's `unwrap` panics there). */
  function DecodeAll(pieces: seq<string>): (r: Result<seq<Instruction>, DecodeError>)
    ensures r.Ok? <==> forall k | 0 <= k < |pieces| :: DecodeInstruction(pieces[k]).Ok?
    ensures r.Ok? ==> |r.value| == |pieces| && forall k | 0 <= k < |pieces| :: DecodeInstruction(pieces[k]) == Ok(r.value[k])
    ensures r.Err? ==> exists k | 0 <= k < |pieces| ::
      (DecodeInstruction(pieces[k]) == Err(r.error) && forall j | 0 <= j < k :: DecodeInstruction(pieces[j]).Ok?)
  {
    if pieces == [] then Ok([])
    else
      var head :- DecodeInstruction(pieces[0]);
      var tail :- DecodeAll(pieces[1..]);
      assert forall k | 1 <= k < |pieces| :: pieces[k] == pieces[1..][k - 1];
      Ok([head] + tail)
  }

  /** `decode_input_string`: trim, cut at every comma, decode each move. A
      decoded wire has at least one move, and no move's direction is a comma
      or a character beyond ASCII. */
  function DecodeInputString(input: string): (r: Result<seq<Instruction>, DecodeError>)
    ensures r.Ok? ==> |r.value| >= 1
    ensures r.Ok? ==> forall k | 0 <= k < |r.value| :: r.value[k].dir != ',' && r.value[k].dir as int < 128
  {
    var pieces := Split(Trim(input), ",");
    SplitPiecesAvoidSeparator(Trim(input), ',');
    assert forall k | 0 <= k < |pieces| :: |pieces[k]| > 0 ==> pieces[k][0] in pieces[k];
    DecodeAll(pieces)
  }

  /** The text of one move. */
  function EncodeInstruction(i: Instruction): string {
    [i.dir] + IntToString(i.length)
  }

  /** The text of a wire: its moves joined with commas. */
  function Encode(wire: seq<Instruction>): string
    requires |wire| >= 1
  {
    Join(seq(|wire|, k requires 0 <= k < |wire| => EncodeInstruction(wire[k])), ",")
  }

  predicate PrintableDirection(d: char) {
    d as int < 128 && d != ',' && !IsWhitespace(d)
  }

  /** One move reads back from its text, which has no comma. */
  lemma DecodeEncodeInstruction(i: Instruction)
    requires PrintableDirection(i.dir)
    ensures ',' !in EncodeInstruction(i)
    ensures DecodeInstruction(EncodeInstruction(i)) == Ok(i)
  {
    var piece := EncodeInstruction(i);
    var n := i.length;
    IntToStringChars(n);
    ParseIntToString(n);
    assert piece[1..] == IntToString(n);
    forall k | 0 <= k < |piece| ensures piece[k] != ',' {
      if k > 0 {
        assert piece[k] == IntToString(n)[k - 1];
      }
    }
  }

  /** Decoding reads back every wire written with one-byte direction letters. */
  lemma DecodeEncode(wire: seq<Instruction>)
    requires |wire| >= 1
    requires forall k | 0 <= k < |wire| :: PrintableDirection(wire[k].dir)
    ensures DecodeInputString(Encode(wire)) == Ok(wire)
  {
    var pieces := seq(|wire|, k requires 0 <= k < |wire| => EncodeInstruction(wire[k]));
    PiecesDecode(wire, pieces);
    assert Join(pieces, ",") == Encode(wire);
    EncodedTrimmed(wire, pieces);
    SplitJoin(pieces, ',');
    DecodeAllOk(pieces, wire);
  }

  /** Every piece of an encoded wire is free of commas and decodes. */
  lemma PiecesDecode(wire: seq<Instruction>, pieces: seq<string>)
    requires |pieces| == |wire|
    requires forall k | 0 <= k < |wire| :: PrintableDirection(wire[k].dir)
    requires forall k | 0 <= k < |wire| :: pieces[k] == EncodeInstruction(wire[k])
    ensures forall k | 0 <= k < |wire| :: ',' !in pieces[k] && DecodeInstruction(pieces[k]) == Ok(wire[k])
  {
    forall k | 0 <= k < |wire|
      ensures ',' !in pieces[k] && DecodeInstruction(pieces[k]) == Ok(wire[k])
    {
      DecodeEncodeInstruction(wire[k]);
    }
  }

  /** An encoded wire is left alone by `trim`. */
  lemma EncodedTrimmed(wire: seq<Instruction>, pieces: seq<string>)
    requires |wire| >= 1 && |pieces| == |wire|
    requires PrintableDirection(wire[0].dir) && PrintableDirection(wire[|wire| - 1].dir)
    requires pieces[0] == EncodeInstruction(wire[0]) && pieces[|wire| - 1] == EncodeInstruction(wire[|wire| - 1])
    ensures Trim(Join(pieces, ",")) == Join(pieces, ",")
  {
    InstructionEnds(wire[0], pieces[0]);
    InstructionEnds(wire[|wire| - 1], pieces[|pieces| - 1]);
    EncodedEnds(pieces);
    TrimUntrimmed(Join(pieces, ","));
  }

  lemma DecodeAllOk(pieces: seq<string>, wire: seq<Instruction>)
    requires |pieces| == |wire|
    requires forall k | 0 <= k < |wire| :: DecodeInstruction(pieces[k]) == Ok(wire[k])
    ensures DecodeAll(pieces) == Ok(wire)
  {
    var r := DecodeAll(pieces);
    assert r.Ok?;
    forall k | 0 <= k < |wire| ensures r.value[k] == wire[k] {
      assert DecodeInstruction(pieces[k]) == Ok(r.value[k]);
    }
    assert r.value == wire;
  }

  /** Pieces joined with commas: the text starts as the first piece does
      and ends as the last one does. */
  lemma EncodedEnds(pieces: seq<string>)
    requires |pieces| >= 1 && |pieces[0]| > 0 && !IsWhitespace(pieces[0][0])
    requires var last := pieces[|pieces| - 1]; |last| > 0 && !IsWhitespace(last[|last| - 1])
    ensures var text := Join(pieces, ",");
      |text| > 0 && !IsWhitespace(text[0]) && !IsWhitespace(text[|text| - 1])
  {
    JoinFirst(pieces, ",");
    JoinLast(pieces, ",");
  }

  /** A move's text starts with its direction and ends with a digit. */
  lemma InstructionEnds(i: Instruction, e: string)
    requires PrintableDirection(i.dir) && e == EncodeInstruction(i)
    ensures |e| > 0 && !IsWhitespace(e[0]) && !IsWhitespace(e[|e| - 1])
  {
    IntToStringChars(i.length);
    var n := IntToString(i.length);
    assert e[|e| - 1] == n[|n| - 1];
  }

  // ------------------------------------------------------------ drawing

  datatype SegmentDirection = Horizontal | Vertical

  /** A segment at `pos` (x of a vertical, y of a horizontal one) spanning
      `start ..= end`, walked from `end` to `start` when `inverted`; `steps`
      is the wire's length up to the end of the walk. */
  datatype LineSegment = LineSegment(direction: SegmentDirection, inverted: bool, pos: int, start: int, end: int, steps: int)

  type Point = (int, int)

  predicate KnownDirection(d: char) {
    d == 'U' || d == 'D' || d == 'L' || d == 'R'
  }

  /** Where a move of `length` in direction `d` from `p` ends. */
  function Move(p: Point, d: char, length: int): Point {
    if d == 'U' then (p.0, p.1 + length)
    else if d == 'D' then (p.0, p.1 - length)
    else if d == 'L' then (p.0 - length, p.1)
    else if d == 'R' then (p.0 + length, p.1)
    else p
  }

  /** The point a segment is walked from, and the point it is walked to. */
  function Origin(seg: LineSegment): Point {
    var from := if seg.inverted then seg.end else seg.start;
    if seg.direction == Vertical then (seg.pos, from) else (from, seg.pos)
  }

  function Finish(seg: LineSegment): Point {
    var to := if seg.inverted then seg.start else seg.end;
    if seg.direction == Vertical then (seg.pos, to) else (to, seg.pos)
  }

  /** The segment the source draws for one move from `at`, the wire having
      `steps` steps once it is done. */
  function SegmentFor(d: char, length: int, at: Point, steps: int): (seg: LineSegment)
    requires KnownDirection(d)
    ensures seg.direction == Vertical <==> d == 'U' || d == 'D'
    ensures seg.inverted <==> d == 'D' || d == 'L'
    ensures seg.end - seg.start == length && seg.steps == steps
    ensures Origin(seg) == at && Finish(seg) == Move(at, d, length)
  {
    if d == 'U' then LineSegment(Vertical, false, at.0, at.1, at.1 + length, steps)
    else if d == 'D' then LineSegment(Vertical, true, at.0, at.1 - length, at.1, steps)
    else if d == 'L' then LineSegment(Horizontal, true, at.1, at.0 - length, at.0, steps)
    else LineSegment(Horizontal, false, at.1, at.0, at.0 + length, steps)
  }

  /** Where the wire is after its first `k` moves. */
  function Endpoint(wire: seq<Instruction>, k: nat): Point
    requires k <= |wire|
  {
    if k == 0 then (0, 0) else Move(Endpoint(wire, k - 1), wire[k - 1].dir, wire[k - 1].length)
  }

  /** The length of the first `k` moves. */
  function StepsUpTo(wire: seq<Instruction>, k: nat): int
    requires k <= |wire|
  {
    if k == 0 then 0 else StepsUpTo(wire, k - 1) + wire[k - 1].length
  }

  predicate AllKnown(wire: seq<Instruction>) {
    forall k | 0 <= k < |wire| :: KnownDirection(wire[k].dir)
  }

  /** The segments of a wire: move `k` runs from `Endpoint(wire, k)`. */
  function DrawSpec(wire: seq<Instruction>): (segs: seq<LineSegment>)
    requires AllKnown(wire)
    ensures |segs| == |wire|
  {
    seq(|wire|, k requires 0 <= k < |wire| => SegmentAt(wire, k))
  }

  /** Move `k` of the wire as a segment. */
  function SegmentAt(wire: seq<Instruction>, k: nat): LineSegment
    requires AllKnown(wire) && k < |wire|
  {
    SegmentFor(wire[k].dir, wire[k].length, Endpoint(wire, k), StepsUpTo(wire, k + 1))
  }

  datatype DrawError = UnknownDirection(dir: char)

  /** `draw_segments`: one pass with the current position and step count.
      An unknown direction panics. */
  method DrawSegments(wire: seq<Instruction>) returns (r: Result<seq<LineSegment>, DrawError>)
    ensures r.Ok? <==> AllKnown(wire)
    ensures r.Ok? ==> AllKnown(wire) && r.value == DrawSpec(wire)
    ensures r.Err? ==> exists k | 0 <= k < |wire| :: wire[k].dir == r.error.dir && !KnownDirection(wire[k].dir)
  {
    var result: seq<LineSegment> := [];
    var posX: int, posY: int, steps: int := 0, 0, 0;
    for i := 0 to |wire|
      invariant (posX, posY) == Endpoint(wire, i) && steps == StepsUpTo(wire, i)
      invariant Drawn(wire, i, result)
    {
      var dir, length := wire[i].dir, wire[i].length;
      ghost var at := (posX, posY);
      steps := steps + length;
      var seg;
      if dir == 'U' {
        posY := posY + length;
        seg := LineSegment(Vertical, false, posX, posY - length, posY, steps);
        assert seg == SegmentFor(dir, length, at, steps) && (posX, posY) == Move(at, dir, length);
      } else if dir == 'D' {
        posY := posY - length;
        seg := LineSegment(Vertical, true, posX, posY, posY + length, steps);
        assert seg == SegmentFor(dir, length, at, steps) && (posX, posY) == Move(at, dir, length);
      } else if dir == 'L' {
        posX := posX - length;
        seg := LineSegment(Horizontal, true, posY, posX, posX + length, steps);
        assert seg == SegmentFor(dir, length, at, steps) && (posX, posY) == Move(at, dir, length);
      } else if dir == 'R' {
        posX := posX + length;
        seg := LineSegment(Horizontal, false, posY, posX - length, posX, steps);
        assert seg == SegmentFor(dir, length, at, steps) && (posX, posY) == Move(at, dir, length);
      } else {
        assert wire[i].dir == dir && !KnownDirection(dir);
        return Err(UnknownDirection(dir));
      }
      assert Endpoint(wire, i + 1) == Move(at, dir, length);
      AppendSegment(wire, i, result, seg);
      result := result + [seg];
    }
    DrawnAll(wire, result);
    r := Ok(result);
  }

  /** `result` holds the segments of the first `i` moves, all known. */
  ghost predicate Drawn(wire: seq<Instruction>, i: nat, result: seq<LineSegment>) {
    i <= |wire| && |result| == i &&
    forall k | 0 <= k < i ::
      KnownDirection(wire[k].dir) &&
      result[k] == SegmentFor(wire[k].dir, wire[k].length, Endpoint(wire, k), StepsUpTo(wire, k + 1))
  }

  lemma AppendSegment(wire: seq<Instruction>, i: nat, result: seq<LineSegment>, seg: LineSegment)
    requires i < |wire| && Drawn(wire, i, result) && KnownDirection(wire[i].dir)
    requires seg == SegmentFor(wire[i].dir, wire[i].length, Endpoint(wire, i), StepsUpTo(wire, i + 1))
    ensures Drawn(wire, i + 1, result + [seg])
  {
  }

  lemma DrawnAll(wire: seq<Instruction>, result: seq<LineSegment>)
    requires Drawn(wire, |wire|, result)
    ensures AllKnown(wire) && result == DrawSpec(wire)
  {
  }

  /** Consecutive segments meet: each is walked from where the one before
      it ends, and its step count grows by its length. */
  lemma SegmentsConnect(wire: seq<Instruction>, k: nat)
    requires AllKnown(wire) && 0 < k < |wire|
    ensures Origin(DrawSpec(wire)[k]) == Finish(DrawSpec(wire)[k - 1])
    ensures DrawSpec(wire)[k].steps - DrawSpec(wire)[k - 1].steps == wire[k].length
    ensures Origin(DrawSpec(wire)[0]) == (0, 0)
  {
  }

  // --------------------------------------------------------- collisions

  /** The point where a horizontal and a vertical segment would cross. */
  function Cross(s1: LineSegment, s2: LineSegment): Point {
    if s1.direction == Horizontal then (s2.pos, s1.pos) else (s1.pos, s2.pos)
  }

  predicate OnSegment(seg: LineSegment, p: Point) {
    if seg.direction == Horizontal then p.1 == seg.pos && seg.start <= p.0 <= seg.end
    else p.0 == seg.pos && seg.start <= p.1 <= seg.end
  }

  function Distance(p: Point, q: Point): nat {
    Abs(p.0 - q.0) + Abs(p.1 - q.1)
  }

  /** A horizontal segment `h` and a vertical segment `v` that share a
      point give its distance from the origin and the steps of both wires up
      to it (each segment's count less what lies past the crossing). */
  function CrossingOf(h: LineSegment, v: LineSegment): (r: Option<(int, int)>)
    requires h.direction == Horizontal && v.direction == Vertical
    ensures r.Some? <==> OnSegment(h, (v.pos, h.pos)) && OnSegment(v, (v.pos, h.pos))
    ensures r.Some? ==> r.value.0 == Distance((v.pos, h.pos), (0, 0))
    ensures r.Some? ==> r.value.1 == h.steps - Distance((v.pos, h.pos), Finish(h)) + v.steps - Distance((v.pos, h.pos), Finish(v))
  {
    var colY, colX := h.pos, v.pos;
    if colX >= h.start && colX <= h.end && colY >= v.start && colY <= v.end then
      PastCross(h, (colX, colY));
      PastCross(v, (colX, colY));
      Some((Abs(colX) + Abs(colY),
            h.steps + v.steps
              - (if h.inverted then colX - h.start else h.end - colX)
              - (if v.inverted then colY - v.start else v.end - colY)))
    else None
  }

  /** One pair of segments. The source writes out the vertical-horizontal
      case again with the roles swapped; distance and step sum do not
      depend on the order, so it is `CrossingOf` with the two swapped. */
  function Collision(s1: LineSegment, s2: LineSegment): (r: Option<(int, int)>)
    ensures r.Some? <==> s1.direction != s2.direction && OnSegment(s1, Cross(s1, s2)) && OnSegment(s2, Cross(s1, s2))
    ensures r.Some? ==> r.value.0 == Distance(Cross(s1, s2), (0, 0))
    ensures r.Some? ==> r.value.1 == s1.steps - Distance(Cross(s1, s2), Finish(s1)) + s2.steps - Distance(Cross(s1, s2), Finish(s2))
  {
    if s1.direction == Horizontal && s2.direction == Vertical then CrossingOf(s1, s2)
    else if s1.direction == Vertical && s2.direction == Horizontal then CrossingOf(s2, s1)
    else None
  }

  /** How far a segment goes on past one of its points. */
  lemma PastCross(seg: LineSegment, p: Point)
    requires OnSegment(seg, p)
    ensures var along := if seg.direction == Horizontal then p.0 else p.1;
      Distance(p, Finish(seg)) == if seg.inverted then along - seg.start else seg.end - along
  {
  }

  function OptionToSeq<T>(o: Option<T>): seq<T> {
    if o.Some? then [o.value] else []
  }

  /** The collisions of `s1` with the segments of `line2`, in order. */
  function RowCollisions(s1: LineSegment, line2: seq<LineSegment>): seq<(int, int)> {
    if line2 == [] then []
    else RowCollisions(s1, line2[..|line2| - 1]) + OptionToSeq(Collision(s1, line2[|line2| - 1]))
  }

  /** Every collision, the segments of `line1` in the outer loop. */
  function AllCollisions(line1: seq<LineSegment>, line2: seq<LineSegment>): seq<(int, int)> {
    if line1 == [] then []
    else AllCollisions(line1[..|line1| - 1], line2) + RowCollisions(line1[|line1| - 1], line2)
  }

  lemma {:induction false} RowCollisionsSound(s1: LineSegment, line2: seq<LineSegment>, c: (int, int)) returns (j: nat)
    requires c in RowCollisions(s1, line2)
    ensures j < |line2| && Collision(s1, line2[j]) == Some(c)
  {
    var init := line2[..|line2| - 1];
    if c in RowCollisions(s1, init) {
      j := RowCollisionsSound(s1, init, c);
      assert init[j] == line2[j];
    } else {
      j := |line2| - 1;
    }
  }

  lemma {:induction false} RowCollisionsComplete(s1: LineSegment, line2: seq<LineSegment>, j: nat)
    requires j < |line2| && Collision(s1, line2[j]).Some?
    ensures Collision(s1, line2[j]).value in RowCollisions(s1, line2)
  {
    var init := line2[..|line2| - 1];
    if j < |init| {
      assert init[j] == line2[j];
      RowCollisionsComplete(s1, init, j);
    }
  }

  /** Every collision comes from a horizontal and a vertical segment that
      cross ... */
  lemma {:induction false} AllCollisionsSound(line1: seq<LineSegment>, line2: seq<LineSegment>, c: (int, int))
    returns (i: nat, j: nat)
    requires c in AllCollisions(line1, line2)
    ensures i < |line1| && j < |line2| && Collision(line1[i], line2[j]) == Some(c)
  {
    var n := |line1| - 1;
    var init := line1[..n];
    if c in AllCollisions(init, line2) {
      i, j := AllCollisionsSound(init, line2, c);
      assert init[i] == line1[i];
    } else {
      i := n;
      j := RowCollisionsSound(line1[n], line2, c);
    }
  }

  /** ... and every crossing is a collision. */
  lemma {:induction false} AllCollisionsComplete(line1: seq<LineSegment>, line2: seq<LineSegment>, i: nat, j: nat)
    requires i < |line1| && j < |line2| && Collision(line1[i], line2[j]).Some?
    ensures Collision(line1[i], line2[j]).value in AllCollisions(line1, line2)
  {
    var n := |line1| - 1;
    var init := line1[..n];
    if i < n {
      assert init[i] == line1[i];
      AllCollisionsComplete(init, line2, i, j);
    } else {
      RowCollisionsComplete(line1[n], line2, j);
    }
  }

  datatype CollisionError = NoCollision

  /** What `find_collisions` returns for the list of all collisions: the
      first is dropped when it is at the origin (both wires start there);
      indexing an empty list panics. */
  function DropOrigin(collisions: seq<(int, int)>): Result<seq<(int, int)>, CollisionError> {
    if collisions == [] then Err(NoCollision)
    else if collisions[0].0 == 0 then Ok(collisions[1..])
    else Ok(collisions)
  }

  /** `find_collisions`: every pair of segments, `line1` outermost. */
  method FindCollisions(line1: seq<LineSegment>, line2: seq<LineSegment>) returns (r: Result<seq<(int, int)>, CollisionError>)
    ensures r == DropOrigin(AllCollisions(line1, line2))
  {
    var collisions: seq<(int, int)> := [];
    for i := 0 to |line1|
      invariant collisions == AllCollisions(line1[..i], line2)
    {
      var row: seq<(int, int)> := [];
      for j := 0 to |line2|
        invariant row == RowCollisions(line1[i], line2[..j])
      {
        var c := Collision(line1[i], line2[j]);
        if c.Some? {
          row := row + [c.value];
        }
        assert line2[..j + 1][..j] == line2[..j];
      }
      assert line2[..|line2|] == line2;
      assert line1[..i + 1][..i] == line1[..i];
      collisions := collisions + row;
    }
    assert line1[..|line1|] == line1;
    if collisions == [] {
      return Err(NoCollision);
    }
    if collisions[0].0 == 0 {
      collisions := collisions[1..];
    }
    r := Ok(collisions);
  }

  // ----------------------------------------------------------- examples

  function Wire1(): seq<Instruction> {
    [Instruction('U', 7), Instruction('R', 6), Instruction('D', 4), Instruction('L', 4)]
  }

  function Wire2(): seq<Instruction> {
    [Instruction('R', 8), Instruction('U', 5), Instruction('L', 5), Instruction('D', 3)]
  }

  lemma JoinFour(a: string, b: string, c: string, d: string, sep: string)
    ensures Join([a, b, c, d], sep) == a + sep + (b + sep + (c + sep + d))
  {
    assert [c, d][1..] == [d];
    assert Join([c, d], sep) == c + sep + d;
    assert [b, c, d][1..] == [c, d];
    assert Join([b, c, d], sep) == b + sep + (c + sep + d);
    assert [a, b, c, d][1..] == [b, c, d];
  }

  lemma EncodeExamples()
    ensures Encode(Wire1()) == "U7,R6,D4,L4"
    ensures Encode(Wire2()) == "R8,U5,L5,D3"
  {
    EncodeWire(Wire1(), "U7", "R6", "D4", "L4");
    EncodeWire(Wire2(), "R8", "U5", "L5", "D3");
  }

  /** A wire of four one-digit moves, encoded. */
  lemma EncodeWire(w: seq<Instruction>, a: string, b: string, c: string, d: string)
    requires |w| == 4
    requires forall k | 0 <= k < 4 :: 0 <= w[k].length < 10
    requires a == [w[0].dir, DigitChar(w[0].length as nat)] && b == [w[1].dir, DigitChar(w[1].length as nat)]
    requires c == [w[2].dir, DigitChar(w[2].length as nat)] && d == [w[3].dir, DigitChar(w[3].length as nat)]
    ensures Encode(w) == a + "," + b + "," + c + "," + d
  {
    var p := seq(4, k requires 0 <= k < 4 => EncodeInstruction(w[k]));
    forall k | 0 <= k < 4 ensures p[k] == [w[k].dir, DigitChar(w[k].length as nat)] {
      assert IntToString(w[k].length) == [DigitChar(w[k].length as nat)];
    }
    SameFour(p, [a, b, c, d]);
    JoinFour(a, b, c, d, ",");
  }

  /** The two wires of the first collision test decode to their moves. */
  lemma DecodeExamples()
    ensures DecodeInputString("U7,R6,D4,L4") == Ok(Wire1())
    ensures DecodeInputString("R8,U5,L5,D3") == Ok(Wire2())
  {
    EncodeExamples();
    DecodeEncode(Wire1());
    DecodeEncode(Wire2());
  }

  function Segments1(): seq<LineSegment> {
    [LineSegment(Vertical, false, 0, 0, 7, 7), LineSegment(Horizontal, false, 7, 0, 6, 13),
     LineSegment(Vertical, true, 6, 3, 7, 17), LineSegment(Horizontal, true, 3, 2, 6, 21)]
  }

  function Segments2(): seq<LineSegment> {
    [LineSegment(Horizontal, false, 0, 0, 8, 8), LineSegment(Vertical, false, 8, 0, 5, 13),
     LineSegment(Horizontal, true, 5, 3, 8, 18), LineSegment(Vertical, true, 3, 2, 5, 21)]
  }

  /** The drawing test (the second wire) and the first wire. */
  lemma DrawExamples()
    ensures AllKnown(Wire1()) && DrawSpec(Wire1()) == Segments1()
    ensures AllKnown(Wire2()) && DrawSpec(Wire2()) == Segments2()
  {
    DrawWire1(Wire1(), Segments1());
    DrawWire2(Wire2(), Segments2());
  }

  lemma DrawWire1(w: seq<Instruction>, e: seq<LineSegment>)
    requires w == Wire1() && e == Segments1()
    ensures AllKnown(w) && DrawSpec(w) == e
  {
    assert AllKnown(w);
    DrawStep(w, 0, 'U', 7, (0, 0), 0);
    DrawStep(w, 1, 'R', 6, (0, 7), 7);
    DrawStep(w, 2, 'D', 4, (6, 7), 13);
    DrawStep(w, 3, 'L', 4, (6, 3), 17);
    SameFour(DrawSpec(w), e);
  }

  lemma DrawWire2(w: seq<Instruction>, e: seq<LineSegment>)
    requires w == Wire2() && e == Segments2()
    ensures AllKnown(w) && DrawSpec(w) == e
  {
    assert AllKnown(w);
    DrawStep(w, 0, 'R', 8, (0, 0), 0);
    DrawStep(w, 1, 'U', 5, (8, 0), 8);
    DrawStep(w, 2, 'L', 5, (8, 5), 13);
    DrawStep(w, 3, 'D', 3, (3, 5), 18);
    SameFour(DrawSpec(w), e);
  }

  lemma SameFour<T>(a: seq<T>, b: seq<T>)
    requires |a| == |b| == 4 && a[0] == b[0] && a[1] == b[1] && a[2] == b[2] && a[3] == b[3]
    ensures a == b
  {
  }

  /** Move `k` drawn from where the wire is after `steps` steps. */
  lemma DrawStep(w: seq<Instruction>, k: nat, d: char, length: i64, at: Point, steps: int)
    requires AllKnown(w) && k < |w| && w[k] == Instruction(d, length)
    requires Endpoint(w, k) == at && StepsUpTo(w, k) == steps
    ensures DrawSpec(w)[k] == SegmentFor(d, length, at, steps + length as int)
    ensures Endpoint(w, k + 1) == Move(at, d, length as int) && StepsUpTo(w, k + 1) == steps + length as int
  {
  }

  /** The first collision test: the crossings at distance 11 after 30 steps
      and at distance 6 after 40; the one at the origin is dropped. */
  lemma CollisionExample()
    ensures DropOrigin(AllCollisions(Segments1(), Segments2())) == Ok([(11, 30), (6, 40)])
  {
    RowExamples(Segments1(), Segments2());
    CollisionsFromRows(Segments1(), Segments2());
  }

  lemma RowExamples(l1: seq<LineSegment>, l2: seq<LineSegment>)
    requires l1 == Segments1() && l2 == Segments2()
    ensures RowCollisions(l1[0], l2) == [(0, 0)] && RowCollisions(l1[1], l2) == []
    ensures RowCollisions(l1[2], l2) == [(11, 30)] && RowCollisions(l1[3], l2) == [(6, 40)]
  {
    RowExample(0, [(0, 0)]);
    RowExample(1, []);
    RowExample(2, [(11, 30)]);
    RowExample(3, [(6, 40)]);
  }

  /** Four rows of crossings, the first at the origin. */
  lemma CollisionsFromRows(l1: seq<LineSegment>, l2: seq<LineSegment>)
    requires |l1| == 4
    requires RowCollisions(l1[0], l2) == [(0, 0)] && RowCollisions(l1[1], l2) == []
    requires RowCollisions(l1[2], l2) == [(11, 30)] && RowCollisions(l1[3], l2) == [(6, 40)]
    ensures DropOrigin(AllCollisions(l1, l2)) == Ok([(11, 30), (6, 40)])
  {
    CollisionsOfRows(l1, l2, [(0, 0)], [], [(11, 30)], [(6, 40)]);
    var all: seq<(int, int)> := [(0, 0)] + [] + [(11, 30)] + [(6, 40)];
    assert all == [(0, 0), (11, 30), (6, 40)];
    assert all[1..] == [(11, 30), (6, 40)];
  }

  lemma CollisionsOfRows(l1: seq<LineSegment>, l2: seq<LineSegment>, a: seq<(int, int)>, b: seq<(int, int)>,
                         c: seq<(int, int)>, d: seq<(int, int)>)
    requires |l1| == 4
    requires RowCollisions(l1[0], l2) == a && RowCollisions(l1[1], l2) == b
    requires RowCollisions(l1[2], l2) == c && RowCollisions(l1[3], l2) == d
    ensures AllCollisions(l1, l2) == a + b + c + d
  {
    AllOfFour(l1, l2);
  }

  /** The crossings of one segment of the first wire with the second wire. */
  lemma RowExample(k: nat, expected: seq<(int, int)>)
    requires k < 4
    requires expected == [[(0, 0)], [], [(11, 30)], [(6, 40)]][k]
    ensures RowCollisions(Segments1()[k], Segments2()) == expected
  {
    RowOfFour(Segments1()[k], Segments2());
  }

  lemma RowOfFour(s1: LineSegment, line2: seq<LineSegment>)
    requires |line2| == 4
    ensures RowCollisions(s1, line2) == OptionToSeq(Collision(s1, line2[0])) + OptionToSeq(Collision(s1, line2[1]))
      + OptionToSeq(Collision(s1, line2[2])) + OptionToSeq(Collision(s1, line2[3]))
  {
    var o := k requires 0 <= k < 4 => OptionToSeq(Collision(s1, line2[k]));
    assert line2[..1][..0] == [] && line2[..2][..1] == line2[..1] && line2[..3][..2] == line2[..2] && line2[..4][..3] == line2[..3];
    assert line2[..4] == line2;
    assert RowCollisions(s1, line2[..1]) == o(0);
    assert RowCollisions(s1, line2[..2]) == o(0) + o(1);
    assert RowCollisions(s1, line2[..3]) == o(0) + o(1) + o(2);
  }

  lemma AllOfFour(line1: seq<LineSegment>, line2: seq<LineSegment>)
    requires |line1| == 4
    ensures AllCollisions(line1, line2) == RowCollisions(line1[0], line2) + RowCollisions(line1[1], line2)
      + RowCollisions(line1[2], line2) + RowCollisions(line1[3], line2)
  {
    var o := k requires 0 <= k < 4 => RowCollisions(line1[k], line2);
    assert line1[..1][..0] == [] && line1[..2][..1] == line1[..1] && line1[..3][..2] == line1[..2] && line1[..4][..3] == line1[..3];
    assert line1[..4] == line1;
    assert AllCollisions(line1[..1], line2) == o(0);
    assert AllCollisions(line1[..2], line2) == o(0) + o(1);
    assert AllCollisions(line1[..3], line2) == o(0) + o(1) + o(2);
  }
}
