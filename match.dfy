/** One "match": a rectangle on a 1000x500 canvas that can be rotated,
    selected and dragged. Coordinates are integers; the model only adds,
    subtracts and compares them. */
module MatchModel {

  const CanvasWidth := 1000
  const CanvasHeight := 500
  const CenterX := CanvasWidth / 2
  const CenterY := CanvasHeight / 2
  const DefaultWidth := 10
  const DefaultHeight := 150

  datatype Point = Point(x: int, y: int)

  /** JavaScript's `v || fallback` on a number: 0 (like `undefined`) is falsy. */
  function OrDefault(v: int, fallback: int): int {
    if v == 0 then fallback else v
  }

  /** The observable state of one match at one moment. */
  datatype MatchState = MatchState(
    x: int, y: int,
    width: int, height: int,
    rotated: bool,
    selected: bool,
    dragged: bool,
    dragOffset: Point)
  {
    /** Inclusive point-in-rectangle test: every edge and corner is inside. */
    predicate Contains(p: Point) {
      x <= p.x <= x + width && y <= p.y <= y + height
    }

    /** Rotation swaps the two dimensions and toggles the flag; nothing turns. */
    function Rotate(): (m: MatchState)
      ensures m.rotated == !rotated
      ensures m.width == height && m.height == width
      ensures m.(rotated := rotated, width := width, height := height) == this
    {
      this.(rotated := !rotated, width := height, height := width)
    }
  }

  /** The state a newly constructed match starts in. */
  function Placed(x: int, y: int): (m: MatchState)
    ensures m.x != 0 && m.y != 0
    ensures x != 0 ==> m.x == x
    ensures y != 0 ==> m.y == y
    ensures x == 0 ==> m.x == CenterX
    ensures y == 0 ==> m.y == CenterY
    ensures m.width == DefaultWidth && m.height == DefaultHeight
    ensures !m.rotated && !m.selected && !m.dragged && m.dragOffset == Point(0, 0)
  {
    MatchState(OrDefault(x, CenterX), OrDefault(y, CenterY),
               DefaultWidth, DefaultHeight, false, false, false, Point(0, 0))
  }

  lemma RotateTwice(m: MatchState)
    ensures m.Rotate().Rotate() == m
    ensures m.Rotate().x == m.x && m.Rotate().y == m.y
  {
  }

  /** All four corners count as inside; one unit beyond any edge does not. */
  lemma ContainsEdges(m: MatchState, p: Point)
    requires m.width >= 0 && m.height >= 0
    ensures m.Contains(Point(m.x, m.y)) && m.Contains(Point(m.x + m.width, m.y))
    ensures m.Contains(Point(m.x, m.y + m.height))
    ensures m.Contains(Point(m.x + m.width, m.y + m.height))
    ensures p.x < m.x || p.x > m.x + m.width || p.y < m.y || p.y > m.y + m.height
            ==> !m.Contains(p)
  {
  }

  /** Rotation does not move the rectangle's anchor, but it changes which
      points it contains: a match rotated about its corner, not its centre. */
  lemma RotateKeepsAnchor(m: MatchState)
    requires m.width >= 0 && m.height >= 0
    ensures m.Contains(Point(m.x, m.y)) && m.Rotate().Contains(Point(m.x, m.y))
    ensures m.Rotate().Contains(Point(m.x + m.height, m.y + m.width))
  {
  }

  class Match {
    var x: int
    var y: int
    var width: int
    var height: int
    var dragged: bool
    var selected: bool
    var dragOffset: Point
    var rotated: bool

    function State(): MatchState
      reads this
    {
      MatchState(x, y, width, height, rotated, selected, dragged, dragOffset)
    }

    /** `new Match()` with no arguments is `new Match(0, 0)`: both fall back
        to the canvas centre. */
    constructor (x: int, y: int)
      ensures State() == Placed(x, y)
    {
      this.x := OrDefault(x, CenterX);
      this.y := OrDefault(y, CenterY);
      this.width := DefaultWidth;
      this.height := DefaultHeight;
      this.dragged := false;
      this.selected := false;
      this.dragOffset := Point(0, 0);
      this.rotated := false;
    }

    method Rotate()
      modifies this
      ensures State() == old(State()).Rotate()
    {
      rotated := !rotated;
      var w := width;
      var h := height;
      width := h;
      height := w;
    }

    function Contains(p: Point): bool
      reads this
    {
      State().Contains(p)
    }
  }
}
