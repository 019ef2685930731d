/** The painting robot's helpers in src/bin/day11.rs: the two colours and
    their encodings, the robot's heading and how a turn changes it, and the
    hull map of painted panels, whose cells are read with a default of
    Black and written with the previous colour handed back. */
module Day11 {
  import opened Wrappers
  import opened RustInt

  datatype Color = Black | White

  /** `Color::get_value`: the colour as the program's input word. */
  function GetValue(c: Color): (v: i64)
    ensures v == 0 || v == 1
    ensures v == 0 <==> c == Black
  {
    match c
    case Black => 0
    case White => 1
  }

  /** `Color::get_grayscale`: the pixel brightness, full for White. */
  function GetGrayscale(c: Color): (g: nat)
    ensures g < 256
    ensures g == 255 * GetValue(c)
  {
    match c
    case Black => 0
    case White => 255
  }

  /** `Color::from`: only 0 and 1 are colours; anything else panics. */
  function ColorFrom(val: i64): (r: Result<Color, i64>)
    ensures r.Ok? <==> val == 0 || val == 1
    ensures r.Ok? ==> GetValue(r.value) == val
    ensures r.Err? ==> r.error == val
  {
    match val
    case 0 => Ok(Black)
    case 1 => Ok(White)
    case _ => Err(val)
  }

  /** Decoding a colour's value gives the colour back. */
  lemma ColorRoundTrip(c: Color)
    ensures ColorFrom(GetValue(c)) == Ok(c)
  {
  }

  datatype Turn = Left | Right

  /** `Turn::from`: 0 turns left, 1 turns right, anything else panics. */
  function TurnFrom(val: i64): (r: Result<Turn, i64>)
    ensures r.Ok? <==> val == 0 || val == 1
    ensures r == Ok(Left) <==> val == 0
    ensures r.Err? ==> r.error == val
  {
    match val
    case 0 => Ok(Left)
    case 1 => Ok(Right)
    case _ => Err(val)
  }

  datatype Direction = Up | RightDir | Down | LeftDir

  /** The heading's place clockwise from Up. */
  function Clockwise(d: Direction): (n: nat)
    ensures n < 4
  {
    match d
    case Up => 0
    case RightDir => 1
    case Down => 2
    case LeftDir => 3
  }

  lemma ClockwiseInjective(d: Direction, e: Direction)
    ensures Clockwise(d) == Clockwise(e) <==> d == e
  {
  }

  /** `Direction::turn`: a quarter turn, clockwise for Right and
      anticlockwise for Left. */
  function TurnTo(d: Direction, t: Turn): (r: Direction)
    ensures Clockwise(r) == (Clockwise(d) + if t == Right then 1 else 3) % 4
  {
    match d
    case Up => (match t case Left => LeftDir case Right => RightDir)
    case RightDir => (match t case Left => Up case Right => Down)
    case Down => (match t case Left => RightDir case Right => LeftDir)
    case LeftDir => (match t case Left => Down case Right => Up)
  }

  function Opposite(t: Turn): Turn {
    match t
    case Left => Right
    case Right => Left
  }

  /** A turn undone by the opposite turn leaves the heading as it was. */
  lemma TurnBack(d: Direction, t: Turn)
    ensures TurnTo(TurnTo(d, t), Opposite(t)) == d
  {
    ClockwiseInjective(TurnTo(TurnTo(d, t), Opposite(t)), d);
  }

  /** Four turns the same way come full circle, and every single turn
      changes the heading. */
  lemma FourTurns(d: Direction, t: Turn)
    ensures TurnTo(TurnTo(TurnTo(TurnTo(d, t), t), t), t) == d
    ensures TurnTo(d, t) != d
  {
    ClockwiseInjective(TurnTo(TurnTo(TurnTo(TurnTo(d, t), t), t), t), d);
  }

  /** Two turns either way face backwards. */
  lemma TwoTurns(d: Direction)
    ensures TurnTo(TurnTo(d, Left), Left) == TurnTo(TurnTo(d, Right), Right)
  {
    ClockwiseInjective(TurnTo(TurnTo(d, Left), Left), TurnTo(TurnTo(d, Right), Right));
  }

  /** The hull's panels after painting `(x, y)` with `color`. */
  function Painting(panels: map<i32, map<i32, Color>>, x: i32, y: i32, color: Color): map<i32, map<i32, Color>> {
    var column: map<i32, Color> := if x in panels then panels[x] else map[];
    panels[x := column[y := color]]
  }

  function PaintedOf(panels: map<i32, map<i32, Color>>): (cells: set<(i32, i32)>)
    ensures forall x: i32, y: i32 :: (x, y) in cells <==> x in panels && y in panels[x]
  {
    set x, y | x in panels && y in panels[x] :: (x, y)
  }

  function ColorOf(panels: map<i32, map<i32, Color>>, x: i32, y: i32): Color {
    if x in panels && y in panels[x] then panels[x][y] else Black
  }

  /** Painting one panel adds it to the painted ones, gives it the new colour
      and leaves every other panel as it was. */
  lemma PaintingEffects(panels: map<i32, map<i32, Color>>, x: i32, y: i32, color: Color)
    ensures var after := Painting(panels, x, y, color);
      && ColorOf(after, x, y) == color
      && (forall a: i32, b: i32 | (a, b) != (x, y) :: ColorOf(after, a, b) == ColorOf(panels, a, b))
      && PaintedOf(after) == PaintedOf(panels) + {(x, y)}
  {
    var after := Painting(panels, x, y, color);
    forall a: i32, b: i32 ensures (a, b) in PaintedOf(after) <==> (a, b) in PaintedOf(panels) + {(x, y)} {
    }
  }

  class Hull {
    /** The panels painted so far, by column and then by row. */
    var panels: map<i32, map<i32, Color>>

    constructor ()
      ensures panels == map[]
    {
      panels := map[];
    }

    /** The panels that have been painted, whatever their colour. */
    function Painted(): (cells: set<(i32, i32)>)
      reads this
      ensures forall x: i32, y: i32 :: (x, y) in cells <==> x in panels && y in panels[x]
    {
      PaintedOf(panels)
    }

    /** `get_color`: a panel never painted is Black. */
    function GetColor(x: i32, y: i32): (c: Color)
      reads this
      ensures (x, y) !in Painted() ==> c == Black
      ensures (x, y) in Painted() ==> c == panels[x][y]
    {
      ColorOf(panels, x, y)
    }

    /** `set_color`: paints one panel (making its column first when it is
        new) and returns the colour it had, or None if it was unpainted. */
    method SetColor(x: i32, y: i32, color: Color) returns (previous: Option<Color>)
      modifies this
      ensures panels == Painting(old(panels), x, y, color)
      ensures previous.None? <==> (x, y) !in old(Painted())
      ensures previous.Some? ==> previous.value == old(GetColor(x, y))
      ensures GetColor(x, y) == color
      ensures forall a: i32, b: i32 | (a, b) != (x, y) :: GetColor(a, b) == old(GetColor(a, b))
      ensures Painted() == old(Painted()) + {(x, y)}
    {
      PaintingEffects(panels, x, y, color);
      var column: map<i32, Color> := if x in panels then panels[x] else map[];
      previous := if y in column then Some(column[y]) else None;
      panels := panels[x := column[y := color]];
    }
  }
}
