/** The vault of src/bin/day18.rs: map tiles, the bitmap of held keys and
    the breadth-first search for the keys reachable from one position. */
module Day18 {
  import opened Wrappers

  // ------------------------------------------------------------------ tiles

  datatype MapTile = Empty | Wall | Door(door: char) | Key(key: char)

  predicate IsLower(c: char) { 'a' <= c <= 'z' }
  predicate IsUpper(c: char) { 'A' <= c <= 'Z' }

  /** `MapTile::from`; any other character panics ("bad map tile"). */
  function TileFrom(c: char): (r: Result<MapTile, char>)
    ensures r == Ok(Empty) <==> c == '.' || c == '@'
    ensures r == Ok(Wall) <==> c == '#'
    ensures r.Ok? && r.value.Door? <==> IsUpper(c)
    ensures r.Ok? && r.value.Key? <==> IsLower(c)
    ensures r.Ok? && (r.value.Door? || r.value.Key?) ==> r.value == if IsUpper(c) then Door(c) else Key(c)
    ensures r.Err? ==> r.error == c
  {
    if c == '.' || c == '@' then Ok(Empty)
    else if c == '#' then Ok(Wall)
    else if IsUpper(c) then Ok(Door(c))
    else if IsLower(c) then Ok(Key(c))
    else Err(c)
  }

  /** A tile `TileFrom` can produce. */
  predicate WellFormedTile(t: MapTile) {
    match t
    case Door(c) => IsUpper(c)
    case Key(c) => IsLower(c)
    case _ => true
  }

  lemma TileFromWellFormed(c: char)
    requires TileFrom(c).Ok?
    ensures WellFormedTile(TileFrom(c).value)
  {
  }

  /** `char::to_ascii_lowercase`. */
  function ToAsciiLowercase(c: char): (l: char)
    ensures IsUpper(c) ==> IsLower(l) && l as int == c as int + 32
    ensures !IsUpper(c) ==> l == c
  {
    if IsUpper(c) then (c as int + 32) as char else c
  }

  // ------------------------------------------------------------ BitmapKey

  const U64_BITS := 64

  datatype KeyPanic = CharBelowA | ShiftOverflow

  /** `bitmap_index_for`, as the number of the bit it sets:
      `key as u32 - b'a' as u32` underflows below `a`, and the shift
      overflows from bit 64 on. */
  function BitmapIndexFor(key: char): (r: Result<nat, KeyPanic>)
    ensures IsLower(key) ==> r.Ok? && r.value < 26
    ensures r.Ok? ==> r.value < U64_BITS && r.value == key as int - 'a' as int
    ensures r.Err? <==> key < 'a' || key as int - 'a' as int >= U64_BITS
  {
    if key < 'a' then Err(CharBelowA)
    else if key as int - 'a' as int >= U64_BITS then Err(ShiftOverflow)
    else Ok(key as int - 'a' as int)
  }

  /** Distinct keys have distinct bits. */
  lemma BitmapIndexInjective(a: char, b: char)
    requires BitmapIndexFor(a).Ok? && BitmapIndexFor(b).Ok?
    ensures BitmapIndexFor(a) == BitmapIndexFor(b) <==> a == b
  {
  }

  /** The bits of the u64 `key` that are set. */
  type Bitmap = s: set<nat> | forall i | i in s :: i < U64_BITS

  /** `contains`. */
  function ContainsSpec(bits: Bitmap, key: char): (r: Result<bool, KeyPanic>)
    ensures r.Ok? <==> BitmapIndexFor(key).Ok?
    ensures r.Ok? ==> (r.value <==> BitmapIndexFor(key).value in bits)
  {
    var index :- BitmapIndexFor(key);
    Ok(index in bits)
  }

  /** `insert`: whether the key was new, and the bits afterwards. */
  function InsertSpec(bits: Bitmap, key: char): (r: Result<(bool, Bitmap), KeyPanic>)
    ensures r.Ok? <==> BitmapIndexFor(key).Ok?
    ensures r.Ok? ==> r.value.0 == (BitmapIndexFor(key).value !in bits)
    ensures r.Ok? ==> r.value.1 == bits + {BitmapIndexFor(key).value}
  {
    var index :- BitmapIndexFor(key);
    var inserted: Bitmap := bits + {index};
    Ok((index !in bits, inserted))
  }

  /** After `insert(k)` the bitmap holds `k`, every key it held before, and
      no other key. */
  lemma InsertKeepsOthers(bits: Bitmap, key: char, other: char)
    requires IsLower(key) && IsLower(other)
    ensures InsertSpec(bits, key).Ok?
    ensures ContainsSpec(InsertSpec(bits, key).value.1, key) == Ok(true)
    ensures ContainsSpec(InsertSpec(bits, key).value.1, other) ==
      Ok(other == key || ContainsSpec(bits, other) == Ok(true))
  {
    BitmapIndexInjective(key, other);
  }

  /** The held keys. */
  class BitmapKey {
    var key: Bitmap

    /** `BitmapKey::new`: no key held. */
    constructor New()
      ensures key == {}
      ensures forall c | IsLower(c) :: ContainsSpec(key, c) == Ok(false)
    {
      key := {};
    }

    function Contains(k: char): (r: Result<bool, KeyPanic>)
      reads this
      ensures r == ContainsSpec(key, k)
    {
      ContainsSpec(key, k)
    }

    method Insert(k: char) returns (r: Result<bool, KeyPanic>)
      modifies this
      ensures InsertSpec(old(key), k).Ok? ==>
        r == Ok(InsertSpec(old(key), k).value.0) && key == InsertSpec(old(key), k).value.1
      ensures InsertSpec(old(key), k).Err? ==> r.Err? && key == old(key)
    {
      var didHaveEntry :- Contains(k);
      var index := BitmapIndexFor(k).value;
      key := key + {index};
      r := Ok(!didHaveEntry);
    }
  }

  /** The key test: nothing is held at first; inserting `a` twice reports a
      new key once; `a` and `z` are both held at the end. */
  lemma BitmapKeyExample()
    ensures ContainsSpec({}, 'a') == Ok(false) && ContainsSpec({}, 'z') == Ok(false)
    ensures InsertSpec({}, 'a').Ok? && InsertSpec({}, 'a').value.0 && InsertSpec({}, 'a').value.1 == {0}
    ensures InsertSpec({0}, 'a').Ok? && !InsertSpec({0}, 'a').value.0 && InsertSpec({0}, 'a').value.1 == {0}
    ensures InsertSpec({0}, 'z').Ok? && InsertSpec({0}, 'z').value.0 && InsertSpec({0}, 'z').value.1 == {0, 25}
    ensures ContainsSpec({0, 25}, 'a') == Ok(true) && ContainsSpec({0, 25}, 'z') == Ok(true)
  {
    assert {0} + {0} == {0};
    assert {0} + {25} == {0, 25};
  }

  // ------------------------------------------------- find_possible_moves

  /** An `(x, y)` position; `map[y][x]` is its tile. */
  type Pos = (int, int)

  predicate InBounds(grid: seq<seq<MapTile>>, p: Pos) {
    0 <= p.1 < |grid| && 0 <= p.0 < |grid[p.1]|
  }

  function TileAt(grid: seq<seq<MapTile>>, p: Pos): MapTile
    requires InBounds(grid, p)
  {
    grid[p.1][p.0]
  }

  predicate WellFormedMap(grid: seq<seq<MapTile>>) {
    forall y, x | 0 <= y < |grid| && 0 <= x < |grid[y]| :: WellFormedTile(grid[y][x])
  }

  /** Whether `keys` holds the key `c`. */
  predicate Holds(keys: Bitmap, c: char) {
    ContainsSpec(keys, c) == Ok(true)
  }

  /** The search walks on past an empty tile, a door whose key is held and
      a key that is held already; never past a wall. */
  predicate Passable(t: MapTile, keys: Bitmap) {
    match t
    case Empty => true
    case Wall => false
    case Door(c) => Holds(keys, ToAsciiLowercase(c))
    case Key(c) => Holds(keys, ToAsciiLowercase(c))
  }

  predicate Adjacent(p: Pos, q: Pos) {
    (p.0 == q.0 && (p.1 - q.1 == 1 || q.1 - p.1 == 1))
    || (p.1 == q.1 && (p.0 - q.0 == 1 || q.0 - p.0 == 1))
  }

  /** `w` is a walk of neighbouring positions whose every position but the
      first and the last is a passable tile. */
  predicate IsWalk(grid: seq<seq<MapTile>>, keys: Bitmap, w: seq<Pos>) {
    && |w| >= 1
    && (forall k | 0 < k < |w| :: Adjacent(w[k - 1], w[k]))
    && (forall k | 0 < k < |w| - 1 :: InBounds(grid, w[k]) && Passable(TileAt(grid, w[k]), keys))
  }

  /** The walks the search has found: from `from`, of `steps` steps. */
  predicate WalkTo(grid: seq<seq<MapTile>>, keys: Bitmap, from: Pos, w: seq<Pos>, to: Pos, steps: nat) {
    IsWalk(grid, keys, w) && w[0] == from && w[|w| - 1] == to && |w| == steps + 1
  }

  /** A queue entry of the search. */
  datatype Entry = Entry(pos: Pos, from: Pos, steps: nat)

  /** Every position of the map. */
  function Cells(grid: seq<seq<MapTile>>): set<Pos> {
    set y, x | 0 <= y < |grid| && 0 <= x < |grid[y]| :: (x, y)
  }

  lemma CellsInBounds(grid: seq<seq<MapTile>>, p: Pos)
    ensures p in Cells(grid) <==> InBounds(grid, p)
  {
    if InBounds(grid, p) {
      var (x, y) := p;
      assert (x, y) in Cells(grid);
    }
  }

  /** What the search returns: a key not held, found on its own tile, at the
      end of a walk of that many steps. */
  predicate ValidMoves(grid: seq<seq<MapTile>>, keys: Bitmap, from: Pos,
                       moves: map<char, (Pos, nat)>, walks: map<char, seq<Pos>>) {
    forall c | c in moves ::
      && InBounds(grid, moves[c].0) && TileAt(grid, moves[c].0) == Key(c)
      && !Holds(keys, c) && moves[c].1 >= 1
      && c in walks && WalkTo(grid, keys, from, walks[c], moves[c].0, moves[c].1)
  }

  /** The queue holds the start or passable tiles, each with its walk. */
  predicate ValidQueue(grid: seq<seq<MapTile>>, keys: Bitmap, from: Pos,
                       todo: seq<Entry>, walks: seq<seq<Pos>>) {
    && |walks| == |todo|
    && forall k | 0 <= k < |todo| ::
         && WalkTo(grid, keys, from, walks[k], todo[k].pos, todo[k].steps)
         && (todo[k].steps == 0 || (InBounds(grid, todo[k].pos) && Passable(TileAt(grid, todo[k].pos), keys)))
  }

  datatype MovePanic = OutOfMap

  /** The four neighbours in the order the source visits them. */
  function Targets(p: Pos): seq<Pos> {
    [(p.0, p.1 + 1), (p.0, p.1 - 1), (p.0 + 1, p.1), (p.0 - 1, p.1)]
  }

  lemma TargetsAdjacent(p: Pos)
    ensures forall k | 0 <= k < 4 :: Adjacent(p, Targets(p)[k])
  {
  }

  /** One neighbour `target` of the dequeued entry `cur`: read its tile
      (leaving the map panics, as the unchecked index or the `usize`
      subtraction would), then, if it is new and not where `cur` came from,
      queue it or record it as a move. */
  method Explore(grid: seq<seq<MapTile>>, keys: Bitmap, from: Pos, cur: Entry, ghost curWalk: seq<Pos>, target: Pos,
                 todo: seq<Entry>, ghost walks: seq<seq<Pos>>, visited: set<Pos>,
                 moves: map<char, (Pos, nat)>, ghost moveWalks: map<char, seq<Pos>>)
    returns (r: Result<(), MovePanic>, todo': seq<Entry>, ghost walks': seq<seq<Pos>>, visited': set<Pos>,
             moves': map<char, (Pos, nat)>, ghost moveWalks': map<char, seq<Pos>>)
    requires WalkTo(grid, keys, from, curWalk, cur.pos, cur.steps)
    requires cur.steps == 0 || (InBounds(grid, cur.pos) && Passable(TileAt(grid, cur.pos), keys))
    requires Adjacent(cur.pos, target)
    requires ValidQueue(grid, keys, from, todo, walks)
    requires ValidMoves(grid, keys, from, moves, moveWalks)
    requires visited <= Cells(grid)
    requires forall c | c in moves :: moves[c].1 <= cur.steps + 1
    ensures r.Ok? ==> ValidQueue(grid, keys, from, todo', walks')
    ensures r.Ok? ==> ValidMoves(grid, keys, from, moves', moveWalks')
    ensures r.Ok? ==> visited <= visited' <= Cells(grid)
    ensures r.Ok? ==> |Cells(grid) - visited'| + |todo'| <= |Cells(grid) - visited| + |todo|
    ensures r.Ok? ==> todo' == todo || todo' == todo + [Entry(target, cur.pos, cur.steps + 1)]
    ensures r.Ok? ==> forall c | c in moves' :: moves'[c].1 <= cur.steps + 1
    ensures r.Err? <==> !InBounds(grid, target)
    ensures r.Ok? ==> visited' == if target == cur.from || target in visited then visited else visited + {target}
    ensures r.Ok? ==> (todo' != todo <==>
      target != cur.from && target !in visited && Passable(TileAt(grid, target), keys))
    ensures r.Ok? && moves' != moves ==>
      && target != cur.from && target !in visited && TileAt(grid, target).Key?
      && moves' == moves[TileAt(grid, target).key := (target, cur.steps + 1)]
    ensures (r.Ok? && target != cur.from && target !in visited && TileAt(grid, target).Key? &&
             !Holds(keys, ToAsciiLowercase(TileAt(grid, target).key))) ==> TileAt(grid, target).key in moves'
  {
    todo', walks', visited', moves', moveWalks' := todo, walks, visited, moves, moveWalks;
    if !InBounds(grid, target) {
      return Err(OutOfMap), todo', walks', visited', moves', moveWalks';
    }
    r := Ok(());
    var tile := TileAt(grid, target);
    if target == cur.from || target in visited {
      return;
    }
    CellsInBounds(grid, target);
    visited' := visited + {target};
    CountAfterVisit(Cells(grid), visited, target);
    ghost var w := curWalk + [target];
    ExtendWalk(grid, keys, from, curWalk, cur, target);
    var next := Entry(target, cur.pos, cur.steps + 1);
    if tile.Key? && !Holds(keys, ToAsciiLowercase(tile.key)) {
      var c := tile.key;
      if c !in moves {
        MovesAdd(grid, keys, from, moves, moveWalks, c, target, cur.steps + 1, w);
        moves', moveWalks' := moves[c := (target, cur.steps + 1)], moveWalks[c := w];
      } else if moves[c].1 > cur.steps + 1 {
        // The source lowers the recorded count here; entries leave the
        // queue in order of their step counts, so no later entry is
        // nearer.
        assert false;
      }
    } else if Passable(tile, keys) {
      QueuePush(grid, keys, from, todo, walks, next, w);
      todo', walks' := todo + [next], walks + [w];
    }
  }

  lemma ExtendWalk(grid: seq<seq<MapTile>>, keys: Bitmap, from: Pos, w: seq<Pos>, cur: Entry, target: Pos)
    requires WalkTo(grid, keys, from, w, cur.pos, cur.steps)
    requires cur.steps == 0 || (InBounds(grid, cur.pos) && Passable(TileAt(grid, cur.pos), keys))
    requires Adjacent(cur.pos, target)
    ensures WalkTo(grid, keys, from, w + [target], target, cur.steps + 1)
  {
    var w' := w + [target];
    forall k | 0 < k < |w'| ensures Adjacent(w'[k - 1], w'[k]) {
      if k < |w| {
        assert w'[k - 1] == w[k - 1] && w'[k] == w[k];
      }
    }
    forall k | 0 < k < |w'| - 1 ensures InBounds(grid, w'[k]) && Passable(TileAt(grid, w'[k]), keys) {
      assert w'[k] == w[k];
    }
  }

  lemma QueuePush(grid: seq<seq<MapTile>>, keys: Bitmap, from: Pos, todo: seq<Entry>, walks: seq<seq<Pos>>,
                  next: Entry, w: seq<Pos>)
    requires ValidQueue(grid, keys, from, todo, walks)
    requires WalkTo(grid, keys, from, w, next.pos, next.steps)
    requires InBounds(grid, next.pos) && Passable(TileAt(grid, next.pos), keys)
    ensures ValidQueue(grid, keys, from, todo + [next], walks + [w])
  {
    var todo', walks' := todo + [next], walks + [w];
    forall k | 0 <= k < |todo'|
      ensures WalkTo(grid, keys, from, walks'[k], todo'[k].pos, todo'[k].steps)
      ensures todo'[k].steps == 0 || (InBounds(grid, todo'[k].pos) && Passable(TileAt(grid, todo'[k].pos), keys))
    {
      if k < |todo| {
        assert todo'[k] == todo[k] && walks'[k] == walks[k];
      }
    }
  }

  lemma MovesAdd(grid: seq<seq<MapTile>>, keys: Bitmap, from: Pos, moves: map<char, (Pos, nat)>,
                 walks: map<char, seq<Pos>>, c: char, p: Pos, steps: nat, w: seq<Pos>)
    requires ValidMoves(grid, keys, from, moves, walks)
    requires InBounds(grid, p) && TileAt(grid, p) == Key(c) && !Holds(keys, c) && steps >= 1
    requires WalkTo(grid, keys, from, w, p, steps)
    ensures ValidMoves(grid, keys, from, moves[c := (p, steps)], walks[c := w])
  {
  }

  lemma CountAfterVisit(cells: set<Pos>, visited: set<Pos>, target: Pos)
    requires target in cells && target !in visited
    ensures |cells - (visited + {target})| == |cells - visited| - 1
  {
    assert cells - visited == (cells - (visited + {target})) + {target};
  }

  /** The queue's step counts never decrease and span at most the two
      levels `level` and `level + 1`. */
  ghost predicate Levelled(todo: seq<Entry>, level: nat) {
    && (forall k | 0 <= k < |todo| :: level <= todo[k].steps <= level + 1)
    && (forall k, j | 0 <= k < j < |todo| :: todo[k].steps <= todo[j].steps)
  }

  lemma LevelledPop(todo: seq<Entry>, level: nat)
    requires Levelled(todo, level) && todo != []
    ensures Levelled(todo[1..], todo[0].steps)
    ensures level <= todo[0].steps <= level + 1
  {
  }

  lemma LevelledPush(todo: seq<Entry>, e: Entry, level: nat)
    requires Levelled(todo, level) && e.steps == level + 1
    ensures Levelled(todo + [e], level)
  {
  }

  /** `find_possible_moves`: the keys not held that a breadth-first walk from
      `from` reaches, with the position and step count at which it met each
      first (the shortest count when a key appears on several tiles). */
  method FindPossibleMoves(grid: seq<seq<MapTile>>, from: Pos, keys: Bitmap)
    returns (r: Result<map<char, (Pos, nat)>, MovePanic>, ghost walks: map<char, seq<Pos>>)
    requires WellFormedMap(grid)
    ensures r.Ok? ==> ValidMoves(grid, keys, from, r.value, walks)
  {
    var todo := [Entry(from, from, 0)];
    ghost var todoWalks := [[from]];
    var visited: set<Pos> := {};
    var moves: map<char, (Pos, nat)> := map[];
    walks := map[];
    ghost var level := 0;
    while todo != []
      invariant ValidQueue(grid, keys, from, todo, todoWalks)
      invariant ValidMoves(grid, keys, from, moves, walks)
      invariant visited <= Cells(grid)
      invariant Levelled(todo, level)
      invariant forall c | c in moves :: moves[c].1 <= level + 1
      decreases |Cells(grid) - visited| + |todo|
    {
      var cur := todo[0];
      ghost var curWalk := todoWalks[0];
      LevelledPop(todo, level);
      todo, todoWalks := todo[1..], todoWalks[1..];
      level := cur.steps;
      var targets := Targets(cur.pos);
      TargetsAdjacent(cur.pos);
      ghost var measure := |Cells(grid) - visited| + |todo|;
      for t := 0 to 4
        invariant ValidQueue(grid, keys, from, todo, todoWalks)
        invariant ValidMoves(grid, keys, from, moves, walks)
        invariant visited <= Cells(grid)
        invariant |Cells(grid) - visited| + |todo| <= measure
        invariant Levelled(todo, level)
        invariant forall c | c in moves :: moves[c].1 <= level + 1
      {
        var res;
        ghost var old_todo := todo;
        res, todo, todoWalks, visited, moves, walks :=
          Explore(grid, keys, from, cur, curWalk, targets[t], todo, todoWalks, visited, moves, walks);
        if res.Err? {
          return Err(res.error), walks;
        }
        if todo != old_todo {
          LevelledPush(old_todo, Entry(targets[t], cur.pos, cur.steps + 1), level);
        }
      }
    }
    r := Ok(moves);
  }
}
