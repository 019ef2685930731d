/** The layer checksum of src/bin/day8.rs: the image data is cut into frames
    of `frame_size` pixels, the pixels '0', '1' and '2' of each frame are
    counted, and the frame with the fewest '0's gives the product of its '1'
    and '2' counts. A pixel other than those three, empty data, a frame size
    of zero (the chunking adapter asserts a non-zero size) and a product
    beyond `u64` all panic in the source and are errors here. */
module Day8 {
  import opened Wrappers
  import opened RustInt

  predicate IsPixel(c: char) {
    c == '0' || c == '1' || c == '2'
  }

  predicate AllPixels(s: string) {
    forall i | 0 <= i < |s| :: IsPixel(s[i])
  }

  /** How often `c` occurs in `s`. */
  function Count(s: string, c: char): nat {
    if s == [] then 0 else Count(s[..|s| - 1], c) + if s[|s| - 1] == c then 1 else 0
  }

  function Concat(frames: seq<string>): string {
    if frames == [] then [] else frames[0] + Concat(frames[1..])
  }

  /** `chars().chunks(size)`: consecutive frames of `size` characters, the
      last one possibly shorter, and none at all for empty data. */
  function Frames(data: string, size: nat): (frames: seq<string>)
    requires size > 0
    ensures frames == [] <==> data == []
    ensures forall i | 0 <= i < |frames| :: 0 < |frames[i]| <= size
    ensures forall i | 0 <= i < |frames| - 1 :: |frames[i]| == size
    decreases |data|
  {
    if data == [] then []
    else if |data| <= size then [data]
    else [data[..size]] + Frames(data[size..], size)
  }

  /** The frames put back together are the data. */
  lemma {:induction false} FramesConcat(data: string, size: nat)
    requires size > 0
    ensures Concat(Frames(data, size)) == data
    decreases |data|
  {
    var frames := Frames(data, size);
    if data == [] {
    } else if |data| <= size {
      assert frames[1..] == [];
    } else {
      FramesConcat(data[size..], size);
      assert frames[1..] == Frames(data[size..], size);
      assert data[..size] + data[size..] == data;
    }
  }

  /** Frame `i` is the slice of the data that starts at `i * size`. */
  lemma FrameAt(data: string, size: nat, i: nat)
    requires size > 0 && i < |Frames(data, size)|
    ensures i * size < |data|
    ensures Frames(data, size)[i] == data[i * size..if (i + 1) * size <= |data| then (i + 1) * size else |data|]
  {
    FrameAtStart(data, size, i);
    StartIsProduct(i, size);
    assert (i + 1) * size == i * size + size;
  }

  /** Where frame `i` starts, counted by repeated addition. */
  function Start(i: nat, size: nat): nat {
    if i == 0 then 0 else Start(i - 1, size) + size
  }

  lemma {:induction false} StartIsProduct(i: nat, size: nat)
    ensures Start(i, size) == i * size
  {
    if i > 0 {
      StartIsProduct(i - 1, size);
    }
  }

  /** The at most `size` characters from `lo` on. */
  function Slice(data: string, lo: nat, size: nat): string
    requires lo < |data|
  {
    data[lo..if lo + size <= |data| then lo + size else |data|]
  }

  lemma {:induction false} FrameAtStart(data: string, size: nat, i: nat)
    requires size > 0 && i < |Frames(data, size)|
    ensures Start(i, size) < |data| && Frames(data, size)[i] == Slice(data, Start(i, size), size)
    decreases |data|
  {
    if i > 0 {
      var rest := data[size..];
      FramesUnfold(data, size);
      assert Frames(data, size)[i] == Frames(rest, size)[i - 1];
      FrameAtStart(rest, size, i - 1);
      SliceShift(data, size, Start(i - 1, size));
    }
  }

  lemma SliceShift(data: string, size: nat, lo: nat)
    requires size <= |data| && lo < |data| - size
    ensures Slice(data[size..], lo, size) == Slice(data, lo + size, size)
  {
  }

  lemma FramesUnfold(data: string, size: nat)
    requires size > 0 && |Frames(data, size)| > 1
    ensures |data| > size && Frames(data, size) == [data[..size]] + Frames(data[size..], size)
  {
  }

  /** Every frame consists of pixels exactly when the whole data does. */
  lemma {:induction false} ConcatAllPixels(frames: seq<string>)
    ensures AllPixels(Concat(frames)) <==> forall k | 0 <= k < |frames| :: AllPixels(frames[k])
  {
    if frames != [] {
      ConcatAllPixels(frames[1..]);
      var c, head, tail := Concat(frames), frames[0], Concat(frames[1..]);
      assert c == head + tail;
      if AllPixels(c) {
        assert forall i | 0 <= i < |head| :: c[i] == head[i];
        assert forall i | 0 <= i < |tail| :: c[|head| + i] == tail[i];
        forall k | 0 <= k < |frames| ensures AllPixels(frames[k]) {
          if k > 0 {
            assert frames[k] == frames[1..][k - 1];
          }
        }
      }
      if forall k | 0 <= k < |frames| :: AllPixels(frames[k]) {
        assert AllPixels(head);
        forall k | 0 <= k < |frames[1..]| ensures AllPixels(frames[1..][k]) {
          assert frames[1..][k] == frames[k + 1];
        }
        forall i | 0 <= i < |c| ensures IsPixel(c[i]) {
          if i >= |head| {
            assert c[i] == tail[i - |head|];
          }
        }
      }
    }
  }

  /** The three counters of a frame. */
  datatype Counts = Counts(zeros: nat, ones: nat, twos: nat)

  function CountsOf(frame: string): Counts {
    Counts(Count(frame, '0'), Count(frame, '1'), Count(frame, '2'))
  }

  /** The counting loop applied to one frame: the first character that is
      not a pixel panics. */
  method CountPixels(frame: string) returns (r: Result<Counts, char>)
    ensures r.Ok? <==> AllPixels(frame)
    ensures r.Ok? ==> r.value == CountsOf(frame)
    ensures r.Err? ==> exists i | 0 <= i < |frame| :: frame[i] == r.error && !IsPixel(frame[i]) && AllPixels(frame[..i])
  {
    var count0, count1, count2 := 0, 0, 0;
    for i := 0 to |frame|
      invariant AllPixels(frame[..i])
      invariant count0 == Count(frame[..i], '0') && count1 == Count(frame[..i], '1') && count2 == Count(frame[..i], '2')
    {
      var c := frame[i];
      assert frame[..i + 1][..i] == frame[..i];
      if c == '0' {
        count0 := count0 + 1;
      } else if c == '1' {
        count1 := count1 + 1;
      } else if c == '2' {
        count2 := count2 + 1;
      } else {
        return Err(c);
      }
    }
    assert frame[..|frame|] == frame;
    r := Ok(Counts(count0, count1, count2));
  }

  /** In a frame of pixels the three counts add up to its length. */
  lemma {:induction false} PixelCountsSum(s: string)
    requires AllPixels(s)
    ensures Count(s, '0') + Count(s, '1') + Count(s, '2') == |s|
  {
    if s != [] {
      var init := s[..|s| - 1];
      assert AllPixels(init) by {
        assert forall i | 0 <= i < |init| :: init[i] == s[i];
      }
      PixelCountsSum(init);
    }
  }

  /** `min_by_key`: the position of the first smallest value. */
  function FirstMinIndex(zs: seq<nat>): (b: nat)
    requires |zs| > 0
    ensures b < |zs|
    ensures forall i | 0 <= i < |zs| :: zs[b] <= zs[i]
    ensures forall i | 0 <= i < b :: zs[b] < zs[i]
  {
    if |zs| == 1 then 0
    else
      var b := FirstMinIndex(zs[..|zs| - 1]);
      if zs[|zs| - 1] < zs[b] then |zs| - 1 else b
  }

  function ZeroCounts(frames: seq<string>): (zs: seq<nat>)
    ensures |zs| == |frames|
  {
    seq(|frames|, k requires 0 <= k < |frames| => Count(frames[k], '0'))
  }

  datatype Part1Error = ZeroFrameSize | BadPixel | NoFrames | ProductOverflow

  /** What `part1` computes: the product of the '1' and '2' counts of the
      first frame with the fewest '0's. */
  function Part1Spec(data: string, size: nat): (r: Result<nat, Part1Error>)
    ensures r == Err(ZeroFrameSize) <==> size == 0
    ensures r == Err(BadPixel) <==> size > 0 && !AllPixels(data)
    ensures r == Err(NoFrames) <==> size > 0 && data == []
    ensures r.Ok? ==> r.value <= U64_MAX
  {
    if size == 0 then Err(ZeroFrameSize)
    else if !AllPixels(data) then Err(BadPixel)
    else
      var frames := Frames(data, size);
      if frames == [] then Err(NoFrames)
      else
        var best := CountsOf(frames[FirstMinIndex(ZeroCounts(frames))]);
        var product := best.ones * best.twos;
        if product > U64_MAX then Err(ProductOverflow) else Ok(product)
  }

  /** A checksum comes from a frame with no more '0's than any other and
      strictly fewer than every frame before it. */
  lemma Part1Chooses(data: string, size: nat) returns (b: nat)
    requires Part1Spec(data, size).Ok?
    ensures size > 0 && b < |Frames(data, size)|
    ensures forall i | 0 <= i < |Frames(data, size)| :: Count(Frames(data, size)[b], '0') <= Count(Frames(data, size)[i], '0')
    ensures forall i | 0 <= i < b :: Count(Frames(data, size)[b], '0') < Count(Frames(data, size)[i], '0')
    ensures Part1Spec(data, size).value == Count(Frames(data, size)[b], '1') * Count(Frames(data, size)[b], '2')
  {
    var frames := Frames(data, size);
    var zs := ZeroCounts(frames);
    b := FirstMinIndex(zs);
    assert forall i | 0 <= i < |frames| :: zs[i] == Count(frames[i], '0');
  }

  /** The first smallest value is the only position with no smaller value
      anywhere and only larger values before it. */
  lemma FirstMinUnique(zs: seq<nat>, b: nat)
    requires b < |zs|
    requires forall i | 0 <= i < |zs| :: zs[b] <= zs[i]
    requires forall i | 0 <= i < b :: zs[b] < zs[i]
    ensures b == FirstMinIndex(zs)
  {
    var m := FirstMinIndex(zs);
    assert !(m < b) && !(b < m);
  }

  /** After `i` frames: all were pixels, and `best` holds the counts of the
      first of them with the fewest '0's. */
  ghost predicate Scanned(frames: seq<string>, i: nat, best: Option<Counts>, bestIndex: nat) {
    i <= |frames| &&
    (forall k | 0 <= k < i :: AllPixels(frames[k])) &&
    (best.None? <==> i == 0) &&
    (best.Some? ==>
      bestIndex < i && best.value == CountsOf(frames[bestIndex]) &&
      (forall k | 0 <= k < i :: best.value.zeros <= Count(frames[k], '0')) &&
      (forall k | 0 <= k < bestIndex :: best.value.zeros < Count(frames[k], '0')))
  }

  lemma ScanStep(frames: seq<string>, i: nat, best: Option<Counts>, bestIndex: nat, counts: Counts)
    requires Scanned(frames, i, best, bestIndex) && i < |frames|
    requires AllPixels(frames[i]) && counts == CountsOf(frames[i])
    ensures var take := best.None? || counts.zeros < best.value.zeros;
      Scanned(frames, i + 1, if take then Some(counts) else best, if take then i else bestIndex)
  {
  }

  lemma ScanFails(data: string, size: nat, frames: seq<string>, i: nat)
    requires size > 0 && frames == Frames(data, size) && i < |frames| && !AllPixels(frames[i])
    ensures Part1Spec(data, size) == Err(BadPixel)
  {
    FramesConcat(data, size);
    ConcatAllPixels(frames);
  }

  lemma ScanDone(data: string, size: nat, frames: seq<string>, best: Counts, bestIndex: nat)
    requires size > 0 && frames == Frames(data, size) && Scanned(frames, |frames|, Some(best), bestIndex)
    ensures var product := best.ones * best.twos;
      Part1Spec(data, size) == if product > U64_MAX then Err(ProductOverflow) else Ok(product)
  {
    FramesConcat(data, size);
    ConcatAllPixels(frames);
    FirstMinUnique(ZeroCounts(frames), bestIndex);
  }

  /** `part1`: counts every frame in turn, keeping the first one with the
      fewest '0's. */
  method Part1(data: string, frameSize: nat) returns (r: Result<nat, Part1Error>)
    ensures r == Part1Spec(data, frameSize)
  {
    if frameSize == 0 {
      return Err(ZeroFrameSize);
    }
    var frames := Frames(data, frameSize);
    var best: Option<Counts> := None;
    ghost var bestIndex: nat := 0;
    for i := 0 to |frames|
      invariant Scanned(frames, i, best, bestIndex)
    {
      var counts := CountPixels(frames[i]);
      if counts.Err? {
        ScanFails(data, frameSize, frames, i);
        return Err(BadPixel);
      }
      ScanStep(frames, i, best, bestIndex, counts.value);
      if best.None? || counts.value.zeros < best.value.zeros {
        best := Some(counts.value);
        bestIndex := i;
      }
    }
    if best.None? {
      assert data == [];
      return Err(NoFrames);
    }
    ScanDone(data, frameSize, frames, best.value, bestIndex);
    var product := best.value.ones * best.value.twos;
    if product > U64_MAX {
      return Err(ProductOverflow);
    }
    r := Ok(product);
  }

  lemma CountFour(a: char, b: char, c: char, d: char, x: char)
    ensures Count([a, b, c, d], x) == (if a == x then 1 else 0) + (if b == x then 1 else 0) + (if c == x then 1 else 0) + (if d == x then 1 else 0)
  {
    assert [a][..0] == [];
    assert Count([a], x) == if a == x then 1 else 0;
    assert [a, b][..1] == [a];
    assert Count([a, b], x) == Count([a], x) + if b == x then 1 else 0;
    assert [a, b, c][..2] == [a, b];
    assert Count([a, b, c], x) == Count([a, b], x) + if c == x then 1 else 0;
    assert [a, b, c, d][..3] == [a, b, c];
  }

  /** The test: of the frames "0120" and "1122" the second has no '0', and
      its two '1's and two '2's give 4. */
  lemma Part1Example()
    ensures Part1Spec("01201122", 4) == Ok(4)
  {
    var data := "01201122";
    assert AllPixels(data);
    assert data[..4] == "0120" && data[4..] == "1122";
    assert Frames("1122", 4) == ["1122"];
    var frames := Frames(data, 4);
    assert frames == ["0120", "1122"];
    CountFour('0', '1', '2', '0', '0');
    CountFour('1', '1', '2', '2', '0');
    CountFour('1', '1', '2', '2', '1');
    CountFour('1', '1', '2', '2', '2');
    assert CountsOf(frames[1]) == Counts(0, 2, 2);
    var zs := ZeroCounts(frames);
    assert zs == [2, 0];
    assert FirstMinIndex(zs) == 1 by {
      assert zs[..1] == [2];
    }
    var best := CountsOf(frames[FirstMinIndex(ZeroCounts(frames))]);
    assert best == Counts(0, 2, 2);
    assert Part1Spec(data, 4) == Ok(best.ones * best.twos);
  }
}
