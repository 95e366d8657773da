/** The interactive elements: buttons, polygon vertices and polygons, their
    bounds tests, and the fixed two-column layout of the button overlay. */
module Elements {
  import opened Wrappers
  import opened Geometry

  /** Which polygon: the solution, or the annotation at an index. */
  datatype PolygonRef = SolutionRef | AnnotationRef(index: nat)

  /** What the viewer reads of a polygon through `getVertices` and
      `isClosed`; the linked-ring representation behind them is not modelled. */
  datatype Polygon = Polygon(vertices: seq<Point>, closed: bool)

  datatype Annotation = Annotation(polygon: Polygon, color: string)

  /** The click handler a button carries: the two zoom buttons get theirs at
      initialisation, every other button keeps the alerting default. */
  datatype ButtonAction = ZoomOutAction | ZoomInAction | DefaultAction

  /** A round button; `drawPosition` and `drawRadius` are what its last draw recorded. */
  datatype Button = Button(tooltip: Option<string>, action: ButtonAction,
                           drawPosition: Option<Point>, drawRadius: real)

  /** A newly constructed button: not yet drawn, default action, and an empty
      tooltip turned into none (`tooltip || null`). */
  function NewButton(tooltip: Option<string>): (b: Button)
    ensures b.drawPosition.None? && b.action == DefaultAction
    ensures b.tooltip.Some? <==> tooltip.Some? && tooltip.value != ""
    ensures b.tooltip.Some? ==> b.tooltip == tooltip
  {
    Button(if tooltip == Some("") then None else tooltip, DefaultAction, None, 0.0)
  }

  /** An element taking part in hit testing, by identity. */
  datatype ElementRef =
    | ButtonEl(index: nat)
    | ColorButtonEl(index: nat)
    | VertexEl(polygon: PolygonRef, index: nat)
    | PolygonEl(polygon: PolygonRef)

  function Abs(r: real): real
  {
    if r < 0.0 then -r else r
  }

  /** `Button.isWithinBounds`: never before the first draw, afterwards the
      closed disk of the recorded radius around the recorded position
      (taking absolute values before squaring changes nothing). */
  predicate ButtonWithinBounds(b: Button, x: real, y: real)
    ensures ButtonWithinBounds(b, x, y) <==>
      b.drawPosition.Some? &&
      (b.drawPosition.value.x - x) * (b.drawPosition.value.x - x)
      + (b.drawPosition.value.y - y) * (b.drawPosition.value.y - y) <= b.drawRadius * b.drawRadius
  {
    match b.drawPosition
    case None => false
    case Some(p) =>
      assert Abs(p.x - x) * Abs(p.x - x) == (p.x - x) * (p.x - x);
      assert Abs(p.y - y) * Abs(p.y - y) == (p.y - y) * (p.y - y);
      var dx := Abs(p.x - x);
      var dy := Abs(p.y - y);
      dx * dx + dy * dy <= b.drawRadius * b.drawRadius
  }

  /** Side of the square hit box of a vertex handle, in canvas pixels (`handleWidth`). */
  const HandleWidth: real := 12.0

  /** `Vertex.isWithinBounds`: the closed square of side `HandleWidth`
      around the vertex's canvas position. */
  predicate VertexWithinBounds(v: View, position: Point, x: real, y: real)
    requires v.scale > 0.0
    ensures ToCanvas(v, position) == Point(x, y) ==> VertexWithinBounds(v, position, x, y)
  {
    var c := ToCanvas(v, position);
    x >= c.x - HandleWidth / 2.0 && x <= c.x + HandleWidth / 2.0 &&
    y >= c.y - HandleWidth / 2.0 && y <= c.y + HandleWidth / 2.0
  }

  /** Seen from image space, the handle is the square of side
      `HandleWidth / scale` around the vertex: its canvas size does not depend
      on zoom, so its image-space size shrinks as the scale grows. */
  lemma VertexHandleInImageSpace(v: View, position: Point, q: Point)
    requires v.scale > 0.0
    ensures var p := ToImage(v, q);
            VertexWithinBounds(v, position, q.x, q.y) <==>
              Abs(position.x - p.x) * v.scale <= HandleWidth / 2.0 &&
              Abs(position.y - p.y) * v.scale <= HandleWidth / 2.0
  {
    var p := ToImage(v, q);
    CanvasImageCanvas(v, q);
    HandleBox(v, position, p, q);
  }

  /** The handle test at canvas point `q`, read at any image point `p` drawn at `q`. */
  lemma HandleBox(v: View, position: Point, p: Point, q: Point)
    requires v.scale > 0.0 && ToCanvas(v, p) == q
    ensures VertexWithinBounds(v, position, q.x, q.y) <==>
              Abs(position.x - p.x) * v.scale <= HandleWidth / 2.0 &&
              Abs(position.y - p.y) * v.scale <= HandleWidth / 2.0
  {
    var c := ToCanvas(v, position);
    assert c.x == CanvasAxis(position.x, v.width, v.scale, v.centre.x);
    assert c.y == CanvasAxis(position.y, v.height, v.scale, v.centre.y);
    assert q.x == CanvasAxis(p.x, v.width, v.scale, v.centre.x);
    assert q.y == CanvasAxis(p.y, v.height, v.scale, v.centre.y);
    HandleAxis(position.x, p.x, v.width, v.scale, v.centre.x);
    HandleAxis(position.y, p.y, v.height, v.scale, v.centre.y);
    HandleSide(c.x, q.x, Abs(position.x - p.x) * v.scale);
    HandleSide(c.y, q.y, Abs(position.y - p.y) * v.scale);
  }

  /** One side of the handle square: within half a handle of the centre
      exactly when the distance is at most half a handle. */
  lemma HandleSide(c: real, x: real, d: real)
    requires Abs(c - x) == d
    ensures (x >= c - HandleWidth / 2.0 && x <= c + HandleWidth / 2.0) <==> d <= HandleWidth / 2.0
  {
  }

  /** Along one axis, canvas distance is image distance times the scale. */
  lemma HandleAxis(a: real, b: real, size: real, scale: real, centre: real)
    requires scale > 0.0
    ensures Abs(CanvasAxis(a, size, scale, centre) - CanvasAxis(b, size, scale, centre)) == Abs(a - b) * scale
  {
    CanvasAxisClosedForm(a, size, scale, centre);
    CanvasAxisClosedForm(b, size, scale, centre);
    assert CanvasAxis(a, size, scale, centre) - CanvasAxis(b, size, scale, centre) == (a - b) * scale;
  }

  /** `Vertex.equals`: exact equality of both image-space coordinates, which
      for a vertex position is equality of the points themselves. */
  predicate VertexEquals(a: Point, b: Point): (r: bool)
    ensures r <==> a == b
  {
    a.x == b.x && a.y == b.y
  }

  // The overlay layout of `createZoomButtons`.
  const ButtonPadding: real := 10.0
  const ButtonRadius: real := 20.0
  /** Vertical distance between neighbouring buttons of a column. */
  const ButtonGap: real := 2.0 * ButtonRadius + ButtonPadding

  /** Where button `i` of the right-hand (default) column is drawn. */
  function ButtonSlot(cw: real, ch: real, i: nat): Point
  {
    Point(cw - ButtonRadius - ButtonPadding, ch - ButtonRadius - ButtonPadding - ButtonGap * (i as real))
  }

  /** Where button `i` of the left-hand (colour) column is drawn. */
  function ColorButtonSlot(ch: real, i: nat): Point
  {
    Point(ButtonRadius + ButtonPadding, ch - ButtonRadius - ButtonPadding - ButtonGap * (i as real))
  }

  /** Beyond the radius, the square exceeds the squared radius. */
  lemma SquareGrows(d: real)
    ensures Abs(d) > ButtonRadius ==> d * d > ButtonRadius * ButtonRadius
  {
    if Abs(d) > ButtonRadius {
      assert d * d == Abs(d) * Abs(d);
      assert Abs(d) * Abs(d) > ButtonRadius * Abs(d);
    }
  }

  /** Two disks of the button radius whose centres are one above the other and
      further apart than a diameter share no point. */
  lemma StackedDisksDisjoint(a: Point, b: Point, x: real, y: real)
    requires a.x == b.x
    requires Abs(a.y - b.y) > 2.0 * ButtonRadius
    ensures !((a.x - x) * (a.x - x) + (a.y - y) * (a.y - y) <= ButtonRadius * ButtonRadius
              && (b.x - x) * (b.x - x) + (b.y - y) * (b.y - y) <= ButtonRadius * ButtonRadius)
  {
    SquareGrows(a.y - y);
    SquareGrows(b.y - y);
    assert (a.x - x) * (a.x - x) >= 0.0;
    if (a.x - x) * (a.x - x) + (a.y - y) * (a.y - y) <= ButtonRadius * ButtonRadius
       && (b.x - x) * (b.x - x) + (b.y - y) * (b.y - y) <= ButtonRadius * ButtonRadius {
      assert false;
    }
  }

  /** The gap exceeds the diameter, so no point lies on two buttons of the
      same column, in either column. */
  lemma ColumnSlotsDisjoint(cw: real, ch: real, i: nat, j: nat, x: real, y: real)
    requires i != j
    ensures var a := ButtonSlot(cw, ch, i); var b := ButtonSlot(cw, ch, j);
            !((a.x - x) * (a.x - x) + (a.y - y) * (a.y - y) <= ButtonRadius * ButtonRadius
              && (b.x - x) * (b.x - x) + (b.y - y) * (b.y - y) <= ButtonRadius * ButtonRadius)
    ensures var a := ColorButtonSlot(ch, i); var b := ColorButtonSlot(ch, j);
            !((a.x - x) * (a.x - x) + (a.y - y) * (a.y - y) <= ButtonRadius * ButtonRadius
              && (b.x - x) * (b.x - x) + (b.y - y) * (b.y - y) <= ButtonRadius * ButtonRadius)
  {
    var di := i as real;
    var dj := j as real;
    assert Abs(di - dj) >= 1.0;
    assert Abs(ButtonGap * di - ButtonGap * dj) == ButtonGap * Abs(di - dj);
    StackedDisksDisjoint(ButtonSlot(cw, ch, i), ButtonSlot(cw, ch, j), x, y);
    StackedDisksDisjoint(ColorButtonSlot(ch, i), ColorButtonSlot(ch, j), x, y);
  }
}
