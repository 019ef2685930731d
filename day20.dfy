/** The portal maze of src/bin/day20.rs: grid tiles, the portal twin
    lookup, and the breadth-first searches of both parts, the second over
    recursive levels of the maze. */
module Day20 {
  import opened Wrappers
  import Text

  // ------------------------------------------------------------------ tiles

  datatype MapTile = Empty | Wall | Target | Portal(kind: char)

  predicate IsPortalChar(c: char) {
    ('a' <= c <= 'z') || ('0' <= c <= '9')
  }

  /** The characters `MapTile::from` accepts. */
  predicate IsMapChar(c: char) {
    c == '.' || c == '@' || c == '#' || c == ' ' || c == '-' || IsPortalChar(c)
  }

  /** `MapTile::from`; any other character panics ("bad map tile"). */
  function TileFrom(c: char): (r: Result<MapTile, char>)
    ensures r == Ok(Empty) <==> c == '.' || c == '@'
    ensures r == Ok(Wall) <==> c == '#' || c == ' '
    ensures r == Ok(Target) <==> c == '-'
    ensures r.Ok? && r.value.Portal? <==> IsPortalChar(c)
    ensures r.Ok? && r.value.Portal? ==> r.value.kind == c
    ensures r.Err? <==> !IsMapChar(c)
    ensures r.Err? ==> r.error == c
  {
    match c
    case '.' => Ok(Empty)
    case '@' => Ok(Empty)
    case '#' => Ok(Wall)
    case ' ' => Ok(Wall)
    case '-' => Ok(Target)
    case _ => if IsPortalChar(c) then Ok(Portal(c)) else Err(c)
  }

  /** A tile `MapTile::from` can produce. */
  predicate WellFormedTile(t: MapTile) {
    t.Portal? ==> IsPortalChar(t.kind)
  }

  /** The map character of a tile: the first of its spellings. */
  function TileChar(t: MapTile): char {
    match t
    case Empty => '.'
    case Wall => '#'
    case Target => '-'
    case Portal(c) => c
  }

  lemma TileCharRoundTrip(t: MapTile)
    requires WellFormedTile(t)
    ensures TileFrom(TileChar(t)) == Ok(t)
  {
  }

  /** Every accepted character spells its tile, up to the two aliases. */
  lemma TileFromRoundTrip(c: char)
    requires TileFrom(c).Ok?
    ensures WellFormedTile(TileFrom(c).value)
    ensures TileChar(TileFrom(c).value) == c || (c == '@' && TileChar(TileFrom(c).value) == '.')
      || (c == ' ' && TileChar(TileFrom(c).value) == '#')
  {
  }

  // --------------------------------------------------------------- the grid

  /** `grid[y][x]`, one `Vec` of tiles per line. */
  type Grid = seq<seq<MapTile>>

  /** One line's tiles; the first bad character panics. */
  function ParseRow(line: string): (r: Result<seq<MapTile>, char>)
    decreases |line|
  {
    if |line| == 0 then Ok([])
    else
      var t :- TileFrom(line[0]);
      var rest :- ParseRow(line[1..]);
      Ok([t] + rest)
  }

  lemma {:induction false} ParseRowOk(line: string)
    ensures ParseRow(line).Ok? <==> forall i | 0 <= i < |line| :: IsMapChar(line[i])
    ensures ParseRow(line).Ok? ==>
      && |ParseRow(line).value| == |line|
      && forall i | 0 <= i < |line| :: Ok(ParseRow(line).value[i]) == TileFrom(line[i])
    decreases |line|
  {
    if |line| > 0 {
      ParseRowOk(line[1..]);
      assert forall i | 1 <= i < |line| :: line[1..][i - 1] == line[i];
    }
  }

  /** `parse_map`: the rows of tiles, one per line. */
  function ParseRows(lines: seq<string>): (r: Result<Grid, char>)
    ensures r.Ok? ==> |r.value| == |lines|
    decreases |lines|
  {
    if |lines| == 0 then Ok([])
    else
      var row :- ParseRow(lines[0]);
      var rest :- ParseRows(lines[1..]);
      Ok([row] + rest)
  }

  /** `parse_map`: the grid has one row per line, each as long as its line. */
  function ParseMap(input: string): (r: Result<Grid, char>)
    ensures r.Ok? ==> |r.value| == |Text.Lines(input)|
    ensures r.Ok? ==> forall y | 0 <= y < |r.value| :: |r.value[y]| == |Text.Lines(input)[y]|
  {
    ParseRowsShape(Text.Lines(input));
    ParseRows(Text.Lines(input))
  }

  lemma ParseRowsShape(lines: seq<string>)
    ensures ParseRows(lines).Ok? ==> forall y | 0 <= y < |lines| :: |ParseRows(lines).value[y]| == |lines[y]|
  {
    if ParseRows(lines).Ok? {
      ParseRowsOk(lines);
      forall y | 0 <= y < |lines| ensures |ParseRows(lines).value[y]| == |lines[y]| {
        ParseRowOk(lines[y]);
      }
    }
  }

  lemma {:induction false} ParseRowsOk(lines: seq<string>)
    requires ParseRows(lines).Ok?
    ensures forall y | 0 <= y < |lines| :: Ok(ParseRows(lines).value[y]) == ParseRow(lines[y])
    decreases |lines|
  {
    if |lines| > 0 {
      ParseRowsOk(lines[1..]);
      assert forall y | 1 <= y < |lines| :: lines[1..][y - 1] == lines[y];
    }
  }

  /** The tile at `(x, y)`, when the grid has one there. */
  function TileAt(grid: Grid, x: nat, y: nat): Option<MapTile> {
    if y < |grid| && x < |grid[y]| then Some(grid[y][x]) else None
  }

  /** The parsed grid has the tile of every character where the text has it. */
  lemma ParseMapTiles(input: string, x: nat, y: nat)
    requires ParseMap(input).Ok?
    requires y < |Text.Lines(input)| && x < |Text.Lines(input)[y]|
    ensures var grid := ParseMap(input).value;
      && y < |grid| && x < |grid[y]|
      && Ok(grid[y][x]) == TileFrom(Text.Lines(input)[y][x])
  {
    var lines := Text.Lines(input);
    ParseRowsOk(lines);
    ParseRowOk(lines[y]);
  }

  // ----------------------------------------------------------- start position

  /** The first index from `from` on where `line` holds `c`, or `|line|`. */
  function IndexOf(line: string, c: char, from: nat): (i: nat)
    requires from <= |line|
    ensures from <= i <= |line|
    decreases |line| - from
  {
    if from == |line| || line[from] == c then from else IndexOf(line, c, from + 1)
  }

  lemma {:induction false} IndexOfFirst(line: string, c: char, from: nat)
    requires from <= |line|
    ensures var i := IndexOf(line, c, from);
      && (forall k | from <= k < i :: line[k] != c)
      && (i < |line| ==> line[i] == c)
    decreases |line| - from
  {
    if from < |line| && line[from] != c {
      IndexOfFirst(line, c, from + 1);
    }
  }

  /** The first line from `from` on that contains `c`, or `|lines|`. */
  function LineWith(lines: seq<string>, c: char, from: nat): (y: nat)
    requires from <= |lines|
    ensures from <= y <= |lines|
    decreases |lines| - from
  {
    if from == |lines| || c in lines[from] then from else LineWith(lines, c, from + 1)
  }

  lemma {:induction false} LineWithFirst(lines: seq<string>, c: char, from: nat)
    requires from <= |lines|
    ensures var y := LineWith(lines, c, from);
      && (forall k | from <= k < y :: c !in lines[k])
      && (y < |lines| ==> c in lines[y])
    decreases |lines| - from
  {
    if from < |lines| && c !in lines[from] {
      LineWithFirst(lines, c, from + 1);
    }
  }

  /** `find_start_pos`: `(x, y)` of the first `@`, line by line; without one
      the `unwrap` panics. */
  function FindStartPos(input: string): (r: Option<(nat, nat)>)
    ensures r.None? <==> forall k | 0 <= k < |Text.Lines(input)| :: '@' !in Text.Lines(input)[k]
    ensures r.Some? ==>
      && r.value.1 < |Text.Lines(input)| && r.value.0 < |Text.Lines(input)[r.value.1]|
      && Text.Lines(input)[r.value.1][r.value.0] == '@'
  {
    var lines := Text.Lines(input);
    LineWithFirst(lines, '@', 0);
    var y := LineWith(lines, '@', 0);
    if y == |lines| then None
    else
      IndexOfFirst(lines[y], '@', 0);
      Some((IndexOf(lines[y], '@', 0), y))
  }

  /** The start is the first `@` in reading order, and there is one exactly
      when some line has an `@`. */
  lemma FindStartPosFirst(input: string)
    ensures var lines := Text.Lines(input);
      FindStartPos(input).None? <==> forall k | 0 <= k < |lines| :: '@' !in lines[k]
    ensures var lines := Text.Lines(input);
      FindStartPos(input).Some? ==>
        var (x, y) := FindStartPos(input).value;
        && y < |lines| && x < |lines[y]| && lines[y][x] == '@'
        && (forall k | 0 <= k < y :: '@' !in lines[k])
        && (forall k | 0 <= k < x :: lines[y][k] != '@')
  {
    var lines := Text.Lines(input);
    LineWithFirst(lines, '@', 0);
    var y := LineWith(lines, '@', 0);
    if y < |lines| {
      IndexOfFirst(lines[y], '@', 0);
    }
  }

  // ------------------------------------------------------ find_other_portal

  type Point = (nat, nat)

  /** The one panic message: `pos` is not a portal, or has no twin. The
      indexing `grid[pos.1][pos.0]` panics first when `pos` is off the grid. */
  datatype PortalError = PortalOffMap | NoOtherPortal

  /** Another tile of portal `kind` than `pos`. */
  predicate IsTwin(grid: Grid, pos: Point, kind: char, x: nat, y: nat) {
    y < |grid| && x < |grid[y]| && grid[y][x] == Portal(kind) && (x, y) != pos
  }

  /** `(x', y')` comes before `(x, y)` in the scan: row by row, then left to right. */
  predicate Before(x': nat, y': nat, x: nat, y: nat) {
    y' < y || (y' == y && x' < x)
  }

  /** The scan of row `y` from column `x` on. */
  function ScanRow(grid: Grid, pos: Point, kind: char, y: nat, x: nat): (r: Option<nat>)
    requires y < |grid| && x <= |grid[y]|
    ensures r.Some? ==> x <= r.value < |grid[y]|
    decreases |grid[y]| - x
  {
    if x == |grid[y]| then None
    else if grid[y][x] == Portal(kind) && (x, y) != pos then Some(x)
    else ScanRow(grid, pos, kind, y, x + 1)
  }

  /** The scan of the rows from `y` on. */
  function ScanRows(grid: Grid, pos: Point, kind: char, y: nat): (r: Option<Point>)
    requires y <= |grid|
    decreases |grid| - y
  {
    if y == |grid| then None
    else match ScanRow(grid, pos, kind, y, 0)
      case Some(x) => Some((x, y))
      case None => ScanRows(grid, pos, kind, y + 1)
  }

  /** `find_other_portal`, as a function: the tile found is another tile of
      the same portal. */
  function OtherPortal(grid: Grid, pos: Point): (r: Result<Point, PortalError>)
    ensures r == Err(PortalOffMap) <==> TileAt(grid, pos.0, pos.1).None?
    ensures r.Ok? ==>
      && r.value != pos && TileAt(grid, pos.0, pos.1).Some? && grid[pos.1][pos.0].Portal?
      && TileAt(grid, r.value.0, r.value.1) == TileAt(grid, pos.0, pos.1)
  {
    if TileAt(grid, pos.0, pos.1).None? then Err(PortalOffMap)
    else match grid[pos.1][pos.0]
      case Portal(kind) =>
        ScanRowsFirst(grid, pos, kind, 0);
        (match ScanRows(grid, pos, kind, 0)
         case Some(p) => Ok(p)
         case None => Err(NoOtherPortal))
      case _ => Err(NoOtherPortal)
  }

  lemma {:induction false} ScanRowFirst(grid: Grid, pos: Point, kind: char, y: nat, x: nat)
    requires y < |grid| && x <= |grid[y]|
    ensures var r := ScanRow(grid, pos, kind, y, x);
      && (r.Some? ==> IsTwin(grid, pos, kind, r.value, y))
      && forall k | x <= k < (if r.Some? then r.value else |grid[y]|) :: !IsTwin(grid, pos, kind, k, y)
    decreases |grid[y]| - x
  {
    if x < |grid[y]| && !(grid[y][x] == Portal(kind) && (x, y) != pos) {
      ScanRowFirst(grid, pos, kind, y, x + 1);
    }
  }

  lemma {:induction false} ScanRowsFirst(grid: Grid, pos: Point, kind: char, y: nat)
    requires y <= |grid|
    ensures var r := ScanRows(grid, pos, kind, y);
      && (r.Some? ==> r.value.1 >= y && IsTwin(grid, pos, kind, r.value.0, r.value.1))
      && (r.Some? ==> forall x', y' | y <= y' && Before(x', y', r.value.0, r.value.1)
            :: !IsTwin(grid, pos, kind, x', y'))
      && (r.None? ==> forall x', y' | y <= y' :: !IsTwin(grid, pos, kind, x', y'))
    decreases |grid| - y
  {
    if y < |grid| {
      ScanRowFirst(grid, pos, kind, y, 0);
      if ScanRow(grid, pos, kind, y, 0).None? {
        ScanRowsFirst(grid, pos, kind, y + 1);
      }
    }
  }

  /** `find_other_portal` finds the first other tile of the same portal,
      scanning row by row, and fails only when there is none, when `pos` is
      no portal, or when `pos` is off the grid. */
  lemma OtherPortalFirst(grid: Grid, pos: Point)
    ensures OtherPortal(grid, pos) == Err(PortalOffMap) <==> TileAt(grid, pos.0, pos.1).None?
    ensures OtherPortal(grid, pos).Ok? ==>
      var (x, y) := OtherPortal(grid, pos).value;
      && grid[pos.1][pos.0].Portal?
      && IsTwin(grid, pos, grid[pos.1][pos.0].kind, x, y)
      && forall x', y' | Before(x', y', x, y) :: !IsTwin(grid, pos, grid[pos.1][pos.0].kind, x', y')
    ensures OtherPortal(grid, pos) == Err(NoOtherPortal) ==>
      && TileAt(grid, pos.0, pos.1).Some?
      && (grid[pos.1][pos.0].Portal? ==>
            forall x', y' :: !IsTwin(grid, pos, grid[pos.1][pos.0].kind, x', y'))
  {
    if TileAt(grid, pos.0, pos.1).Some? && grid[pos.1][pos.0].Portal? {
      ScanRowsFirst(grid, pos, grid[pos.1][pos.0].kind, 0);
    }
  }

  /** A portal pair: two tiles of one kind and no third. Each finds the other. */
  lemma TwinsFindEachOther(grid: Grid, a: Point, b: Point, kind: char)
    requires a != b
    requires TileAt(grid, a.0, a.1) == Some(Portal(kind)) && TileAt(grid, b.0, b.1) == Some(Portal(kind))
    requires forall x: nat, y: nat | TileAt(grid, x, y) == Some(Portal(kind)) :: (x, y) == a || (x, y) == b
    ensures OtherPortal(grid, a) == Ok(b) && OtherPortal(grid, b) == Ok(a)
  {
    TwinFound(grid, a, b, kind);
    TwinFound(grid, b, a, kind);
  }

  lemma TwinFound(grid: Grid, a: Point, b: Point, kind: char)
    requires a != b
    requires TileAt(grid, a.0, a.1) == Some(Portal(kind)) && TileAt(grid, b.0, b.1) == Some(Portal(kind))
    requires forall x: nat, y: nat | TileAt(grid, x, y) == Some(Portal(kind)) :: (x, y) == a || (x, y) == b
    ensures OtherPortal(grid, a) == Ok(b)
  {
    OtherPortalFirst(grid, a);
    assert IsTwin(grid, a, kind, b.0, b.1);
    if OtherPortal(grid, a).Ok? {
      var (x, y) := OtherPortal(grid, a).value;
      assert TileAt(grid, x, y) == Some(Portal(kind));
    }
  }

  /** The source's nested `for` loops with their early return. */
  method FindOtherPortal(grid: Grid, pos: Point) returns (r: Result<Point, PortalError>)
    ensures r == OtherPortal(grid, pos)
  {
    if !(pos.1 < |grid| && pos.0 < |grid[pos.1]|) {
      return Err(PortalOffMap);
    }
    if !grid[pos.1][pos.0].Portal? {
      return Err(NoOtherPortal);
    }
    var kind := grid[pos.1][pos.0].kind;
    var y := 0;
    while y < |grid|
      invariant y <= |grid|
      invariant ScanRows(grid, pos, kind, y) == ScanRows(grid, pos, kind, 0)
      decreases |grid| - y
    {
      var x := 0;
      while x < |grid[y]|
        invariant x <= |grid[y]|
        invariant ScanRow(grid, pos, kind, y, x) == ScanRow(grid, pos, kind, y, 0)
        decreases |grid[y]| - x
      {
        if grid[y][x] == Portal(kind) && (x, y) != pos {
          return Ok((x, y));
        }
        x := x + 1;
      }
      y := y + 1;
    }
    return Err(NoOtherPortal);
  }

  // ------------------------------------------------------------- the search

  /** A position of the search with its level of the recursive maze; the
      flat maze of part 1 stays on level 0. */
  datatype Cell = Cell(x: nat, y: nat, level: nat)

  /** The rows and columns of the outer portals. */
  datatype Border = Border(top: nat, bottom: nat, left: nat, right: nat)

  /** The border the source hard-codes for its own input. */
  const SourceBorder: Border := Border(1, 121, 1, 127)

  predicate IsOuter(b: Border, x: nat, y: nat) {
    y == b.top || y == b.bottom || x == b.left || x == b.right
  }

  /** With the source's border, a portal is outer exactly on rows 1 and 121
      and on columns 1 and 127, the test `part2` writes out. */
  lemma SourceBorderOuter(x: nat, y: nat)
    ensures IsOuter(SourceBorder, x, y) <==> y == 1 || y == 121 || x == 1 || x == 127
  {
  }

  /** Part 1's flat maze, or part 2's maze of recursive levels. */
  datatype Rules = Flat | Recursive(border: Border)

  /** A queue entry `(pos, come_from, steps)`. */
  datatype Item = Item(pos: Cell, from: Cell, steps: nat)

  /** The ways a search panics: a coordinate below zero, an index off the
      map, a portal without a twin, a queue run dry ("target not found"),
      and, in the model only, the iteration bound running out. */
  datatype SearchError = Underflow | OffMap | PortalPanic | TargetNotFound | OutOfFuel

  /** What handling the neighbours of one entry leads to: the next queue
      and visited set, or a returned value or panic. */
  datatype Outcome = Continue(todo: seq<Item>, visited: set<Cell>) | Stop(result: Result<nat, SearchError>)

  /** The four targets, in the source's order: down, up, right, left. */
  function Neighbours(c: Cell): (ts: seq<Cell>)
    requires c.x > 0 && c.y > 0
    ensures |ts| == 4
  {
    [Cell(c.x, c.y + 1, c.level), Cell(c.x, c.y - 1, c.level),
     Cell(c.x + 1, c.y, c.level), Cell(c.x - 1, c.y, c.level)]
  }

  /** Part 2 closes the outer portals on level 0. */
  predicate PortalOpen(rules: Rules, t: Cell) {
    rules.Flat? || !IsOuter(rules.border, t.x, t.y) || t.level != 0
  }

  /** The level a portal leads to: inner portals go one level deeper and
      outer ones one level up. */
  function Teleported(rules: Rules, t: Cell): nat
    requires PortalOpen(rules, t)
  {
    if rules.Flat? then t.level
    else if IsOuter(rules.border, t.x, t.y) then t.level - 1
    else t.level + 1
  }

  /** Part 2 counts the target only on level 0. */
  predicate GoalLevel(rules: Rules, t: Cell) {
    rules.Flat? || t.level == 0
  }

  /** Appending to the queue entries at most one step further than `item`. */
  predicate Extends(item: Item, todo: seq<Item>, todo': seq<Item>) {
    && |todo| <= |todo'| && todo'[..|todo|] == todo
    && forall k | |todo| <= k < |todo'| :: todo'[k].steps <= item.steps + 1
  }

  /** What handling targets of `item` may do: append entries at most one
      step further, or return `item`'s own step count. */
  predicate Follows(item: Item, todo: seq<Item>, o: Outcome) {
    && (o.Continue? ==> Extends(item, todo, o.todo))
    && (o.Stop? && o.result.Ok? ==> o.result.value == item.steps)
  }

  /** One iteration of the inner `for` loop, for target `t`: `t` is marked
      unless it was seen or is where `item` came from, and at most one entry
      is queued. */
  function Visit(rules: Rules, grid: Grid, item: Item, t: Cell, todo: seq<Item>, visited: set<Cell>): (o: Outcome)
    ensures o.Continue? ==> |todo| <= |o.todo| <= |todo| + 1 && o.todo[..|todo|] == todo
    ensures o.Continue? ==> o.visited == if t == item.from || t in visited then visited else visited + {t}
  {
    if t == item.from || t in visited then Continue(todo, visited)
    else
      var visited' := visited + {t};
      match TileAt(grid, t.x, t.y)
      case None => Stop(Err(OffMap))
      case Some(Empty) => Continue(todo + [Item(t, item.pos, item.steps + 1)], visited')
      case Some(Wall) => Continue(todo, visited')
      case Some(Target) => if GoalLevel(rules, t) then Stop(Ok(item.steps)) else Continue(todo, visited')
      case Some(Portal(_)) =>
        if !PortalOpen(rules, t) then Continue(todo, visited')
        else match OtherPortal(grid, (t.x, t.y))
          case Err(_) => Stop(Err(PortalPanic))
          case Ok(d) =>
            var dst := Cell(d.0, d.1, Teleported(rules, t));
            Continue(todo + [Item(dst, dst, item.steps)], visited')
  }

  /** The inner loop over the targets from index `i` on. */
  function VisitAll(rules: Rules, grid: Grid, item: Item, ts: seq<Cell>, i: nat,
                    todo: seq<Item>, visited: set<Cell>): (o: Outcome)
    requires i <= |ts|
    ensures o.Continue? ==> |todo| <= |o.todo| <= |todo| + (|ts| - i)
    decreases |ts| - i
  {
    if i == |ts| then Continue(todo, visited)
    else match Visit(rules, grid, item, ts[i], todo, visited)
      case Stop(r) => Stop(r)
      case Continue(todo', visited') => VisitAll(rules, grid, item, ts, i + 1, todo', visited')
  }

  /** Handling one target queues entries at most one step further than
      `item`, and returns `item`'s own step count. */
  lemma VisitFollows(rules: Rules, grid: Grid, item: Item, t: Cell, todo: seq<Item>, visited: set<Cell>)
    ensures Follows(item, todo, Visit(rules, grid, item, t, todo, visited))
  {
  }

  lemma {:induction false} VisitAllFollows(rules: Rules, grid: Grid, item: Item, ts: seq<Cell>, i: nat,
                                           todo: seq<Item>, visited: set<Cell>)
    requires i <= |ts|
    ensures Follows(item, todo, VisitAll(rules, grid, item, ts, i, todo, visited))
    decreases |ts| - i
  {
    if i < |ts| {
      VisitFollows(rules, grid, item, ts[i], todo, visited);
      match Visit(rules, grid, item, ts[i], todo, visited)
      case Stop(r) =>
      case Continue(todo', visited') =>
        VisitAllFollows(rules, grid, item, ts, i + 1, todo', visited');
        ExtendsTrans(item, todo, todo', VisitAll(rules, grid, item, ts, i + 1, todo', visited'));
    }
  }

  lemma ExtendsTrans(item: Item, todo: seq<Item>, todo': seq<Item>, o: Outcome)
    requires Extends(item, todo, todo') && Follows(item, todo', o)
    ensures Follows(item, todo, o)
  {
    if o.Continue? {
      assert o.todo[..|todo'|][..|todo|] == o.todo[..|todo|];
      forall k | |todo| <= k < |o.todo| ensures o.todo[k].steps <= item.steps + 1 {
        if k < |todo'| {
          assert o.todo[k] == o.todo[..|todo'|][k];
        }
      }
    }
  }

  /** The body of the `while` loop for the popped entry `item`. */
  function Expand(rules: Rules, grid: Grid, item: Item, todo: seq<Item>, visited: set<Cell>): (o: Outcome)
    ensures o.Continue? ==> |todo| <= |o.todo| <= |todo| + 4
  {
    if item.pos.x == 0 || item.pos.y == 0 then Stop(Err(Underflow))
    else VisitAll(rules, grid, item, Neighbours(item.pos), 0, todo, visited)
  }

  /** The `while let Some(..) = todo.pop_front()` loop, for at most `fuel`
      iterations. */
  function Bfs(rules: Rules, grid: Grid, todo: seq<Item>, visited: set<Cell>, fuel: nat): Result<nat, SearchError>
    decreases fuel
  {
    if |todo| == 0 then Err(TargetNotFound)
    else if fuel == 0 then Err(OutOfFuel)
    else match Expand(rules, grid, todo[0], todo[1..], visited)
      case Stop(r) => r
      case Continue(todo', visited') => Bfs(rules, grid, todo', visited', fuel - 1)
  }

  /** Each iteration adds at most one step, so an answer lies below the
      largest queued step count plus the iterations allowed. */
  lemma {:induction false} BfsBound(rules: Rules, grid: Grid, todo: seq<Item>, visited: set<Cell>, fuel: nat)
    ensures var r := Bfs(rules, grid, todo, visited, fuel); r.Ok? ==> r.value < MaxSteps(todo) + fuel
    decreases fuel
  {
    if |todo| > 0 && fuel > 0 {
      ExpandFollows(rules, grid, todo[0], todo[1..], visited);
      match Expand(rules, grid, todo[0], todo[1..], visited)
      case Stop(r) =>
        MaxStepsBounds(todo);
      case Continue(todo', visited') =>
        MaxStepsOfNext(todo, todo');
        BfsBound(rules, grid, todo', visited', fuel - 1);
    }
  }

  lemma ExpandFollows(rules: Rules, grid: Grid, item: Item, todo: seq<Item>, visited: set<Cell>)
    ensures Follows(item, todo, Expand(rules, grid, item, todo, visited))
  {
    if item.pos.x > 0 && item.pos.y > 0 {
      VisitAllFollows(rules, grid, item, Neighbours(item.pos), 0, todo, visited);
    }
  }

  /** The largest step count in the queue. */
  function MaxSteps(todo: seq<Item>): nat {
    if todo == [] then 0
    else if todo[0].steps > MaxSteps(todo[1..]) then todo[0].steps
    else MaxSteps(todo[1..])
  }

  lemma {:induction false} MaxStepsBounds(todo: seq<Item>)
    ensures forall k | 0 <= k < |todo| :: todo[k].steps <= MaxSteps(todo)
  {
    if todo != [] {
      MaxStepsBounds(todo[1..]);
      assert forall k | 1 <= k < |todo| :: todo[k] == todo[1..][k - 1];
    }
  }

  lemma {:induction false} MaxStepsAtMost(todo: seq<Item>, b: nat)
    requires forall k | 0 <= k < |todo| :: todo[k].steps <= b
    ensures MaxSteps(todo) <= b
  {
    if todo != [] {
      assert forall k | 0 <= k < |todo[1..]| :: todo[1..][k] == todo[k + 1];
      MaxStepsAtMost(todo[1..], b);
    }
  }

  /** One iteration raises the largest queued step count by at most one. */
  lemma MaxStepsOfNext(todo: seq<Item>, todo': seq<Item>)
    requires |todo| > 0 && Extends(todo[0], todo[1..], todo')
    ensures MaxSteps(todo') <= MaxSteps(todo) + 1
  {
    MaxStepsBounds(todo);
    forall k | 0 <= k < |todo'| ensures todo'[k].steps <= MaxSteps(todo) + 1 {
      if k < |todo| - 1 {
        assert todo'[k] == todo'[..|todo| - 1][k] == todo[k + 1];
      }
    }
    MaxStepsAtMost(todo', MaxSteps(todo) + 1);
  }

  /** `part1(map, start)`: an answer is below the number of iterations the
      search was allowed, since each one adds at most one step. */
  function Part1Spec(grid: Grid, start: Point, fuel: nat): (r: Result<nat, SearchError>)
    ensures r.Ok? ==> r.value < fuel
  {
    var c := Cell(start.0, start.1, 0);
    BfsBound(Flat, grid, [Item(c, c, 0)], {}, fuel);
    assert MaxSteps([Item(c, c, 0)]) == 0;
    Bfs(Flat, grid, [Item(c, c, 0)], {}, fuel)
  }

  /** `part2(map, start)`, with the outer portals on `border`. */
  function Part2Spec(grid: Grid, border: Border, start: Cell, fuel: nat): (r: Result<nat, SearchError>)
    ensures r.Ok? ==> r.value < fuel
  {
    BfsBound(Recursive(border), grid, [Item(start, start, 0)], {}, fuel);
    assert MaxSteps([Item(start, start, 0)]) == 0;
    Bfs(Recursive(border), grid, [Item(start, start, 0)], {}, fuel)
  }

  // --------------------------------------------------------- the loops

  /** The inner `for` loop, with its early returns. */
  method ExpandItem(rules: Rules, grid: Grid, item: Item, todo0: seq<Item>, visited0: set<Cell>)
    returns (o: Outcome)
    ensures o == Expand(rules, grid, item, todo0, visited0)
  {
    if item.pos.x == 0 || item.pos.y == 0 {
      return Stop(Err(Underflow));
    }
    var targets := Neighbours(item.pos);
    var todo, visited := todo0, visited0;
    var i := 0;
    while i < |targets|
      invariant i <= |targets|
      invariant VisitAll(rules, grid, item, targets, i, todo, visited) == Expand(rules, grid, item, todo0, visited0)
    {
      var t := targets[i];
      if t != item.from && t !in visited {
        visited := visited + {t};
        if !(t.y < |grid| && t.x < |grid[t.y]|) {
          return Stop(Err(OffMap));
        }
        match grid[t.y][t.x]
        case Empty =>
          todo := todo + [Item(t, item.pos, item.steps + 1)];
        case Wall =>
        case Target =>
          if rules.Flat? || t.level == 0 {
            return Stop(Ok(item.steps));
          }
        case Portal(_) =>
          if PortalOpen(rules, t) {
            var d := FindOtherPortal(grid, (t.x, t.y));
            if d.Err? {
              return Stop(Err(PortalPanic));
            }
            var dst := Cell(d.value.0, d.value.1, Teleported(rules, t));
            todo := todo + [Item(dst, dst, item.steps)];
          }
      }
      i := i + 1;
    }
    return Continue(todo, visited);
  }

  /** The `while` loop over the queue, shared by both parts. */
  method Search(rules: Rules, grid: Grid, start: Cell, fuel: nat) returns (r: Result<nat, SearchError>)
    ensures r == Bfs(rules, grid, [Item(start, start, 0)], {}, fuel)
  {
    var todo := [Item(start, start, 0)];
    var visited: set<Cell> := {};
    var left := fuel;
    while |todo| > 0
      invariant Bfs(rules, grid, todo, visited, left) == Bfs(rules, grid, [Item(start, start, 0)], {}, fuel)
      decreases left
    {
      if left == 0 {
        return Err(OutOfFuel);
      }
      var item := todo[0];
      todo := todo[1..];
      var o := ExpandItem(rules, grid, item, todo, visited);
      if o.Stop? {
        return o.result;
      }
      todo, visited := o.todo, o.visited;
      left := left - 1;
    }
    return Err(TargetNotFound);
  }

  method Part1(grid: Grid, start: Point, fuel: nat) returns (r: Result<nat, SearchError>)
    ensures r == Part1Spec(grid, start, fuel)
  {
    r := Search(Flat, grid, Cell(start.0, start.1, 0), fuel);
  }

  method Part2(grid: Grid, border: Border, start: Cell, fuel: nat) returns (r: Result<nat, SearchError>)
    ensures r == Part2Spec(grid, border, start, fuel)
  {
    r := Search(Recursive(border), grid, start, fuel);
  }

  // -------------------------------------------------- what a result means

  /** A move of the search: a step onto an empty tile, or a step onto an
      open portal that lands on its twin. */
  datatype Hop = Stride(to: Cell) | Jump(via: Cell, to: Cell)

  predicate Adjacent(a: Cell, b: Cell) {
    && a.level == b.level
    && ((a.x == b.x && (b.y == a.y + 1 || a.y == b.y + 1))
        || (a.y == b.y && (b.x == a.x + 1 || a.x == b.x + 1)))
  }

  /** The step rules: an empty neighbour costs one step; an open portal next
      to `from` leads to its twin, on the level the rules give, for free. */
  predicate HopOk(rules: Rules, grid: Grid, from: Cell, h: Hop) {
    match h
    case Stride(to) => Adjacent(from, to) && TileAt(grid, to.x, to.y) == Some(Empty)
    case Jump(via, to) =>
      && Adjacent(from, via)
      && TileAt(grid, via.x, via.y).Some? && grid[via.y][via.x].Portal?
      && PortalOpen(rules, via)
      && OtherPortal(grid, (via.x, via.y)) == Ok((to.x, to.y))
      && to.level == Teleported(rules, via)
  }

  function HopCost(h: Hop): nat {
    if h.Stride? then 1 else 0
  }

  /** Where a path from `start` ends. */
  function Reached(start: Cell, path: seq<Hop>): Cell {
    if |path| == 0 then start else path[|path| - 1].to
  }

  ghost predicate IsPath(rules: Rules, grid: Grid, start: Cell, path: seq<Hop>) {
    forall i | 0 <= i < |path| :: HopOk(rules, grid, Reached(start, path[..i]), path[i])
  }

  function PathCost(path: seq<Hop>): nat
    decreases |path|
  {
    if |path| == 0 then 0 else PathCost(path[..|path| - 1]) + HopCost(path[|path| - 1])
  }

  /** Every queued entry is the end of a path from `start` costing its steps. */
  ghost predicate Witnessed(rules: Rules, grid: Grid, start: Cell, todo: seq<Item>, paths: seq<seq<Hop>>) {
    && |paths| == |todo|
    && forall k | 0 <= k < |todo| ::
         && IsPath(rules, grid, start, paths[k])
         && Reached(start, paths[k]) == todo[k].pos
         && PathCost(paths[k]) == todo[k].steps
  }

  /** A search result `n`: a path of cost `n` to a cell next to a target
      that counts. */
  ghost predicate Solves(rules: Rules, grid: Grid, start: Cell, path: seq<Hop>, goal: Cell, n: nat) {
    && IsPath(rules, grid, start, path)
    && PathCost(path) == n
    && Adjacent(Reached(start, path), goal)
    && TileAt(grid, goal.x, goal.y) == Some(Target)
    && GoalLevel(rules, goal)
  }

  lemma ExtendPath(rules: Rules, grid: Grid, start: Cell, path: seq<Hop>, h: Hop)
    requires IsPath(rules, grid, start, path)
    requires HopOk(rules, grid, Reached(start, path), h)
    ensures IsPath(rules, grid, start, path + [h])
    ensures Reached(start, path + [h]) == h.to
    ensures PathCost(path + [h]) == PathCost(path) + HopCost(h)
  {
    var p := path + [h];
    assert p[..|path|] == path;
    forall i | 0 <= i < |p|
      ensures HopOk(rules, grid, Reached(start, p[..i]), p[i])
    {
      if i < |path| {
        assert p[..i] == path[..i];
      }
    }
  }

  lemma WitnessedPush(rules: Rules, grid: Grid, start: Cell, todo: seq<Item>, paths: seq<seq<Hop>>,
                      path: seq<Hop>, item: Item)
    requires Witnessed(rules, grid, start, todo, paths)
    requires IsPath(rules, grid, start, path)
    requires Reached(start, path) == item.pos && PathCost(path) == item.steps
    ensures Witnessed(rules, grid, start, todo + [item], paths + [path])
  {
  }

  /** One target: an entry it queues has a path one hop longer than the
      popped entry's; a value it returns is the popped entry's steps, next
      to a target. */
  lemma VisitSound(rules: Rules, grid: Grid, start: Cell, item: Item, p: seq<Hop>, t: Cell,
                   todo: seq<Item>, visited: set<Cell>, paths: seq<seq<Hop>>)
    returns (paths': seq<seq<Hop>>)
    requires Witnessed(rules, grid, start, todo, paths)
    requires IsPath(rules, grid, start, p) && Reached(start, p) == item.pos && PathCost(p) == item.steps
    requires Adjacent(item.pos, t)
    ensures var o := Visit(rules, grid, item, t, todo, visited);
      && (o.Continue? ==> Witnessed(rules, grid, start, o.todo, paths'))
      && (o.Stop? && o.result.Ok? ==> Solves(rules, grid, start, p, t, o.result.value))
  {
    paths' := paths;
    if t == item.from || t in visited || TileAt(grid, t.x, t.y).None? {
      return;
    }
    match grid[t.y][t.x]
    case Empty =>
      var h := Stride(t);
      ExtendPath(rules, grid, start, p, h);
      WitnessedPush(rules, grid, start, todo, paths, p + [h], Item(t, item.pos, item.steps + 1));
      paths' := paths + [p + [h]];
    case Wall =>
    case Target =>
    case Portal(_) =>
      if PortalOpen(rules, t) && OtherPortal(grid, (t.x, t.y)).Ok? {
        var d := OtherPortal(grid, (t.x, t.y)).value;
        var dst := Cell(d.0, d.1, Teleported(rules, t));
        var h := Jump(t, dst);
        ExtendPath(rules, grid, start, p, h);
        WitnessedPush(rules, grid, start, todo, paths, p + [h], Item(dst, dst, item.steps));
        paths' := paths + [p + [h]];
      }
  }

  lemma {:induction false} VisitAllSound(rules: Rules, grid: Grid, start: Cell, item: Item, p: seq<Hop>,
                                         ts: seq<Cell>, i: nat, todo: seq<Item>, visited: set<Cell>,
                                         paths: seq<seq<Hop>>)
    returns (paths': seq<seq<Hop>>, goal: Cell)
    requires i <= |ts|
    requires Witnessed(rules, grid, start, todo, paths)
    requires IsPath(rules, grid, start, p) && Reached(start, p) == item.pos && PathCost(p) == item.steps
    requires forall k | i <= k < |ts| :: Adjacent(item.pos, ts[k])
    ensures var o := VisitAll(rules, grid, item, ts, i, todo, visited);
      && (o.Continue? ==> Witnessed(rules, grid, start, o.todo, paths'))
      && (o.Stop? && o.result.Ok? ==> Solves(rules, grid, start, p, goal, o.result.value))
    decreases |ts| - i
  {
    paths', goal := paths, item.pos;
    if i < |ts| {
      var mid := VisitSound(rules, grid, start, item, p, ts[i], todo, visited, paths);
      match Visit(rules, grid, item, ts[i], todo, visited)
      case Stop(r) =>
        goal := ts[i];
      case Continue(todo', visited') =>
        paths', goal := VisitAllSound(rules, grid, start, item, p, ts, i + 1, todo', visited', mid);
    }
  }

  lemma NeighboursAdjacent(c: Cell)
    requires c.x > 0 && c.y > 0
    ensures forall k | 0 <= k < 4 :: Adjacent(c, Neighbours(c)[k])
  {
  }

  lemma {:induction false} BfsSound(rules: Rules, grid: Grid, start: Cell, todo: seq<Item>, visited: set<Cell>,
                                    fuel: nat, paths: seq<seq<Hop>>)
    returns (path: seq<Hop>, goal: Cell)
    requires Witnessed(rules, grid, start, todo, paths)
    requires Bfs(rules, grid, todo, visited, fuel).Ok?
    ensures Solves(rules, grid, start, path, goal, Bfs(rules, grid, todo, visited, fuel).value)
    decreases fuel
  {
    var item := todo[0];
    var rest := todo[1..];
    assert Witnessed(rules, grid, start, rest, paths[1..]);
    NeighboursAdjacent(item.pos);
    var paths', g := VisitAllSound(rules, grid, start, item, paths[0], Neighbours(item.pos), 0, rest, visited, paths[1..]);
    match Expand(rules, grid, item, rest, visited)
    case Stop(r) =>
      path, goal := paths[0], g;
    case Continue(todo', visited') =>
      path, goal := BfsSound(rules, grid, start, todo', visited', fuel - 1, paths');
  }

  /** Part 1's answer is the cost of a walk from the start to a cell next to
      the target: every empty tile entered costs one step, and a portal
      next to the walk moves it to the twin tile for free. */
  lemma Part1Sound(grid: Grid, start: Point, fuel: nat) returns (path: seq<Hop>, goal: Cell)
    requires Part1Spec(grid, start, fuel).Ok?
    ensures Solves(Flat, grid, Cell(start.0, start.1, 0), path, goal, Part1Spec(grid, start, fuel).value)
  {
    var c := Cell(start.0, start.1, 0);
    path, goal := BfsSound(Flat, grid, c, [Item(c, c, 0)], {}, fuel, [[]]);
  }

  /** Part 2's answer is the cost of such a walk through the levels, where
      inner portals lead one level down, outer ones one level up and are
      closed on level 0, and the target counts on level 0 only. */
  lemma Part2Sound(grid: Grid, border: Border, start: Cell, fuel: nat) returns (path: seq<Hop>, goal: Cell)
    requires Part2Spec(grid, border, start, fuel).Ok?
    ensures Solves(Recursive(border), grid, start, path, goal, Part2Spec(grid, border, start, fuel).value)
    ensures goal.level == 0
  {
    path, goal := BfsSound(Recursive(border), grid, start, [Item(start, start, 0)], {}, fuel, [[]]);
  }

  // ----------------------------------------------------- no cell twice

  /** An entry that walked onto its cell, rather than arriving by portal. */
  predicate Walked(item: Item) {
    item.pos != item.from
  }

  /** Every walked-onto cell in the queue is marked visited, and no two
      queued entries walked onto the same cell. */
  ghost predicate QueueOk(todo: seq<Item>, visited: set<Cell>) {
    && (forall k | 0 <= k < |todo| && Walked(todo[k]) :: todo[k].pos in visited)
    && (forall i, j | 0 <= i < j < |todo| && Walked(todo[i]) && Walked(todo[j]) :: todo[i].pos != todo[j].pos)
  }

  /** One target: a visited or come-from cell changes nothing; otherwise the
      cell is marked, and an entry is queued only at the back. */
  lemma VisitKeepsQueue(rules: Rules, grid: Grid, item: Item, t: Cell, todo: seq<Item>, visited: set<Cell>)
    requires QueueOk(todo, visited) && Adjacent(item.pos, t)
    ensures t == item.from || t in visited ==> Visit(rules, grid, item, t, todo, visited) == Continue(todo, visited)
    ensures var o := Visit(rules, grid, item, t, todo, visited);
      o.Continue? ==>
        && QueueOk(o.todo, o.visited)
        && visited <= o.visited && (t != item.from ==> t in o.visited)
        && |todo| <= |o.todo| && o.todo[..|todo|] == todo
  {
    var o := Visit(rules, grid, item, t, todo, visited);
    if o.Continue? && |o.todo| > |todo| {
      assert o.todo[..|todo|] == todo;
      var n := o.todo[|todo|];
      assert Walked(n) ==> n.pos == t && t !in visited;
    }
  }

  lemma {:induction false} VisitAllKeepsQueue(rules: Rules, grid: Grid, item: Item, ts: seq<Cell>, i: nat,
                                              todo: seq<Item>, visited: set<Cell>)
    requires i <= |ts| && QueueOk(todo, visited)
    requires forall k | i <= k < |ts| :: Adjacent(item.pos, ts[k])
    ensures var o := VisitAll(rules, grid, item, ts, i, todo, visited);
      o.Continue? ==>
        && QueueOk(o.todo, o.visited)
        && visited <= o.visited
        && (forall k | i <= k < |ts| && ts[k] != item.from :: ts[k] in o.visited)
        && |todo| <= |o.todo| && o.todo[..|todo|] == todo
    decreases |ts| - i
  {
    if i < |ts| {
      VisitKeepsQueue(rules, grid, item, ts[i], todo, visited);
      match Visit(rules, grid, item, ts[i], todo, visited)
      case Stop(_) =>
      case Continue(todo', visited') =>
        VisitAllKeepsQueue(rules, grid, item, ts, i + 1, todo', visited');
        var o := VisitAll(rules, grid, item, ts, i + 1, todo', visited');
        if o.Continue? {
          assert o.todo[..|todo'|][..|todo|] == o.todo[..|todo|];
        }
    }
  }

  /** Dropping the head keeps the invariant. */
  lemma QueueOkTail(todo: seq<Item>, visited: set<Cell>)
    requires |todo| > 0 && QueueOk(todo, visited)
    ensures QueueOk(todo[1..], visited)
  {
    forall i, j | 0 <= i < j < |todo| - 1 && Walked(todo[1..][i]) && Walked(todo[1..][j])
      ensures todo[1..][i].pos != todo[1..][j].pos
    {
      assert todo[1..][i] == todo[i + 1] && todo[1..][j] == todo[j + 1];
    }
  }

  /** One iteration of the `while` loop keeps the invariant, never unmarks a
      cell, marks every neighbour but the one the entry came from, and only
      appends to the queue: no cell is walked onto twice. */
  lemma ExpandKeepsQueue(rules: Rules, grid: Grid, todo: seq<Item>, visited: set<Cell>)
    requires |todo| > 0 && QueueOk(todo, visited)
    ensures var item := todo[0];
      var o := Expand(rules, grid, item, todo[1..], visited);
      o.Continue? ==>
        && QueueOk(o.todo, o.visited)
        && visited <= o.visited
        && (forall k | 0 <= k < 4 && Neighbours(item.pos)[k] != item.from :: Neighbours(item.pos)[k] in o.visited)
        && |todo| - 1 <= |o.todo| && o.todo[..|todo| - 1] == todo[1..]
  {
    var item := todo[0];
    QueueOkTail(todo, visited);
    if item.pos.x > 0 && item.pos.y > 0 {
      NeighboursAdjacent(item.pos);
      VisitAllKeepsQueue(rules, grid, item, Neighbours(item.pos), 0, todo[1..], visited);
    }
  }

  // ------------------------------------------------------------- examples

  /** A corridor from `@` at (1, 1) past the portal `a` at (3, 1), whose
      twin at (5, 1) stands next to the target at (6, 1):
      `########` / `#@.a#a-#` / `########`. */
  function ExampleGrid(): Grid {
    var walls := [Wall, Wall, Wall, Wall, Wall, Wall, Wall, Wall];
    [walls, [Wall, Empty, Empty, Portal('a'), Wall, Portal('a'), Target, Wall], walls]
  }

  /** The tiles the example searches look at: around the start, around the
      first portal, and around its twin. */
  ghost predicate StartArea(g: Grid) {
    TileAt(g, 0, 1) == Some(Wall) && TileAt(g, 1, 0) == Some(Wall) && TileAt(g, 1, 2) == Some(Wall)
    && TileAt(g, 2, 1) == Some(Empty)
  }

  ghost predicate PortalArea(g: Grid) {
    TileAt(g, 2, 0) == Some(Wall) && TileAt(g, 2, 2) == Some(Wall) && TileAt(g, 3, 1) == Some(Portal('a'))
    && OtherPortal(g, (3, 1)) == Ok((5, 1))
  }

  ghost predicate TwinArea(g: Grid) {
    TileAt(g, 4, 1) == Some(Wall) && TileAt(g, 5, 0) == Some(Wall) && TileAt(g, 5, 2) == Some(Wall)
    && TileAt(g, 6, 1) == Some(Target)
  }

  ghost predicate ExampleShape(g: Grid) {
    StartArea(g) && PortalArea(g) && TwinArea(g)
  }

  lemma ExampleGridShape()
    ensures ExampleShape(ExampleGrid())
  {
    var g := ExampleGrid();
    TwinsFindEachOther(g, (3, 1), (5, 1), 'a');
  }

  /** A queue of one entry whose expansion continues, or stops. */
  lemma BfsOne(rules: Rules, grid: Grid, item: Item, visited: set<Cell>, fuel: nat, todo': seq<Item>, visited': set<Cell>)
    requires fuel > 0 && Expand(rules, grid, item, [], visited) == Continue(todo', visited')
    ensures Bfs(rules, grid, [item], visited, fuel) == Bfs(rules, grid, todo', visited', fuel - 1)
  {
    assert [item][1..] == [];
  }

  lemma BfsLast(rules: Rules, grid: Grid, item: Item, visited: set<Cell>, fuel: nat, r: Result<nat, SearchError>)
    requires fuel > 0 && Expand(rules, grid, item, [], visited) == Stop(r)
    ensures Bfs(rules, grid, [item], visited, fuel) == r
  {
    assert [item][1..] == [];
  }

  /** The cells marked after the first and second expansion, on `level`. */
  function MarkedFirst(level: nat): set<Cell> {
    {Cell(1, 2, level), Cell(1, 0, level), Cell(2, 1, level), Cell(0, 1, level)}
  }

  function MarkedSecond(level: nat): set<Cell> {
    MarkedFirst(level) + {Cell(2, 2, level), Cell(2, 0, level), Cell(3, 1, level)}
  }

  function MarkedThird(): set<Cell> {
    MarkedSecond(0) + {Cell(5, 2, 1), Cell(5, 0, 1), Cell(6, 1, 1), Cell(4, 1, 1)}
  }

  /** From the start only the empty tile to the right is queued, one step on. */
  lemma ExampleFirstExpand(rules: Rules, g: Grid)
    requires StartArea(g)
    ensures Expand(rules, g, Item(Cell(1, 1, 0), Cell(1, 1, 0), 0), [], {})
         == Continue([Item(Cell(2, 1, 0), Cell(1, 1, 0), 1)], MarkedFirst(0))
  {
  }

  /** Next to the portal, its twin is queued with no extra step; in the
      recursive maze an inner portal leads to level 1. */
  lemma ExampleSecondExpand(rules: Rules, g: Grid)
    requires PortalArea(g)
    requires rules.Recursive? ==> !IsOuter(rules.border, 3, 1)
    ensures var level := if rules.Flat? then 0 else 1;
      Expand(rules, g, Item(Cell(2, 1, 0), Cell(1, 1, 0), 1), [], MarkedFirst(0))
      == Continue([Item(Cell(5, 1, level), Cell(5, 1, level), 1)], MarkedSecond(0))
  {
  }

  /** Part 1 then finds the target next to the twin: one step in all. */
  lemma ExampleThirdExpandFlat(g: Grid)
    requires TwinArea(g)
    ensures Expand(Flat, g, Item(Cell(5, 1, 0), Cell(5, 1, 0), 1), [], MarkedSecond(0)) == Stop(Ok(1))
  {
  }

  /** Part 2 reaches the target on level 1, where it does not count, and the
      queue runs dry. */
  lemma ExampleThirdExpandRecursive(border: Border, g: Grid)
    requires TwinArea(g)
    ensures Expand(Recursive(border), g, Item(Cell(5, 1, 1), Cell(5, 1, 1), 1), [], MarkedSecond(0))
         == Continue([], MarkedThird())
  {
  }

  lemma ExamplePart1Run(g: Grid, fuel: nat)
    requires ExampleShape(g) && fuel >= 3
    ensures Part1Spec(g, (1, 1), fuel) == Ok(1)
  {
    ExampleFirstExpand(Flat, g);
    ExampleSecondExpand(Flat, g);
    ExampleThirdExpandFlat(g);
    BfsOne(Flat, g, Item(Cell(1, 1, 0), Cell(1, 1, 0), 0), {}, fuel, [Item(Cell(2, 1, 0), Cell(1, 1, 0), 1)], MarkedFirst(0));
    BfsOne(Flat, g, Item(Cell(2, 1, 0), Cell(1, 1, 0), 1), MarkedFirst(0), fuel - 1,
           [Item(Cell(5, 1, 0), Cell(5, 1, 0), 1)], MarkedSecond(0));
    BfsLast(Flat, g, Item(Cell(5, 1, 0), Cell(5, 1, 0), 1), MarkedSecond(0), fuel - 2, Ok(1));
  }

  lemma ExamplePart2Run(g: Grid, border: Border, fuel: nat)
    requires ExampleShape(g) && !IsOuter(border, 3, 1) && fuel >= 3
    ensures Part2Spec(g, border, Cell(1, 1, 0), fuel) == Err(TargetNotFound)
  {
    var rules := Recursive(border);
    ExampleFirstExpand(rules, g);
    BfsOne(rules, g, Item(Cell(1, 1, 0), Cell(1, 1, 0), 0), {}, fuel, [Item(Cell(2, 1, 0), Cell(1, 1, 0), 1)], MarkedFirst(0));
    ExamplePart2Rest(g, border, fuel - 1);
  }

  lemma ExamplePart2Rest(g: Grid, border: Border, fuel: nat)
    requires PortalArea(g) && TwinArea(g) && !IsOuter(border, 3, 1) && fuel >= 2
    ensures Bfs(Recursive(border), g, [Item(Cell(2, 1, 0), Cell(1, 1, 0), 1)], MarkedFirst(0), fuel) == Err(TargetNotFound)
  {
    var rules := Recursive(border);
    var third := Item(Cell(5, 1, 1), Cell(5, 1, 1), 1);
    ExampleSecondExpand(rules, g);
    ExampleThirdExpandRecursive(border, g);
    BfsOne(rules, g, Item(Cell(2, 1, 0), Cell(1, 1, 0), 1), MarkedFirst(0), fuel, [third], MarkedSecond(0));
    BfsOne(rules, g, third, MarkedSecond(0), fuel - 1, [], MarkedThird());
  }

  /** Part 1 crosses the example corridor in one step; part 2, with the
      portal inner (the border on the map's edge), never reaches level 0's
      target. */
  lemma ExampleSearches(fuel: nat)
    requires fuel >= 3
    ensures Part1Spec(ExampleGrid(), (1, 1), fuel) == Ok(1)
    ensures Part2Spec(ExampleGrid(), Border(0, 2, 0, 7), Cell(1, 1, 0), fuel) == Err(TargetNotFound)
  {
    ExampleGridShape();
    ExamplePart1Run(ExampleGrid(), fuel);
    ExamplePart2Run(ExampleGrid(), Border(0, 2, 0, 7), fuel);
  }
}
