/** The state one viewer instance keeps in its constructor closure, the
    listener registry, and the priority-ordered hit test over the
    interactive elements. */
module Viewer {
  import opened Wrappers
  import opened Geometry
  import opened Modes
  import opened Elements
  import opened Scan

  /** Which copy of the engine: the full `ImageViewer.js` or the cut-down `ImageViewer.ts`. */
  datatype Variant = FullViewer | CutViewer

  /** What absorbs the delta of the next drag: the centre (a pan) or a vertex. */
  datatype MoveTarget = Centre | VertexTarget(polygon: PolygonRef, index: nat)

  datatype EventType = MouseDownType | MouseUpType | DOMMouseScrollType | MouseWheelType | MouseMoveType | ClickType
  datatype EventTarget = DocumentTarget | CanvasTarget
  datatype Handler = OnMouseDown | OnMouseUp | OnMouseWheel | OnMouseDrag | OnMouseClick

  /** One entry of the `events` registry. */
  datatype Listener = Listener(target: EventTarget, eventType: EventType, handler: Handler)

  /** Oracle for the polygon bounds test, which is not part of this model:
      whether polygon `r` covers the canvas position `p`. */
  type PolygonOracle = (PolygonRef, Point) -> bool

  datatype ViewerState = ViewerState(
    variant: Variant,
    canvasWidth: PosReal,
    canvasHeight: PosReal,
    flags: Flags,
    /** An opaque token for `options.answer` when it was a non-null object. */
    answer: Option<nat>,
    solution: Option<Polygon>,
    annotations: seq<Annotation>,
    dirty: bool,
    stopRendering: bool,
    scale: real,
    centre: Point,
    listeners: seq<Listener>,
    buttons: seq<Button>,
    colorButtons: seq<Button>,
    tooltip: Option<string>,
    moveTarget: MoveTarget,
    leftButtonDown: bool,
    mouseLastPos: Option<Point>,
    focus: Option<ElementRef>,
    activePolygon: Option<PolygonRef>,
    /** The `dirty` property `refresh` sets on the instance; nothing reads it. */
    instanceDirty: bool)

  /** One observable effect of a step, in the order the source performs them:
      the draw calls of a frame, frame scheduling, host notifications and
      the browser-facing calls. */
  datatype Effect =
    | ClearCanvas
    | DrawImage(translate: Point, scale: real)
    | DrawSolution
    | DrawAnnotation(index: nat, color: string)
    | DrawEditLine(from: Point, to: Point)
    | DrawAnswer
    | DrawButton(element: ElementRef, at: Point, radius: real)
    | DrawTooltip(text: string)
    /** The frame callback threw (a `TypeError`), abandoning the rest of the frame. */
    | RenderFault
    | RequestFrame
    | NotifySolutionChange
    | CleanupAnnotations
    | NotifyAnnotationChange
    | PreventDefault
    | Alert(message: string)
    | RemoveListener(listener: Listener)

  /** The state after a step and what the step did, in order. */
  datatype Step = Step(state: ViewerState, trace: seq<Effect>)

  function ViewOf(s: ViewerState): View
  {
    View(s.canvasWidth, s.canvasHeight, s.scale, s.centre)
  }

  function PolygonAt(s: ViewerState, r: PolygonRef): Option<Polygon>
  {
    match r
    case SolutionRef => s.solution
    case AnnotationRef(i) => if i < |s.annotations| then Some(s.annotations[i].polygon) else None
  }

  /** The active polygon, when there is one and it exists. */
  function ActivePolygon(s: ViewerState): Option<Polygon>
  {
    match s.activePolygon
    case None => None
    case Some(r) => PolygonAt(s, r)
  }

  /** `activePolygon === self.solution`, identity of two nullable references:
      true when both are null, or when the active polygon is the existing solution. */
  predicate ActiveIsSolution(s: ViewerState)
  {
    match s.activePolygon
    case None => s.solution.None?
    case Some(r) => r == SolutionRef && s.solution.Some?
  }

  /** What every reachable state satisfies (see `Lifecycle.ReachableInvariant`). */
  predicate Inv(s: ViewerState)
  {
    && s.scale > 0.0
    && s.moveTarget == Centre
    && (s.activePolygon.Some? ==> PolygonAt(s, s.activePolygon.value).Some?)
  }

  /** `zoomIn`: one step larger, and redraw. */
  function ZoomIn(s: ViewerState): (r: ViewerState)
    ensures r == s.(scale := r.scale, dirty := true)
    ensures s.scale > 0.0 ==> r.scale > s.scale
  {
    s.(scale := ZoomedIn(s.scale), dirty := true)
  }

  /** `zoomOut`: one step smaller, never down to zero, and redraw. */
  function ZoomOut(s: ViewerState): (r: ViewerState)
    ensures r == s.(scale := r.scale, dirty := true)
    ensures s.scale > 0.0 ==> 0.0 < r.scale < s.scale
  {
    s.(scale := ZoomedOut(s.scale), dirty := true)
  }

  // ---- listener registry ------------------------------------------------

  /** `addEventListener`: register and remember. */
  function AddListener(ls: seq<Listener>, target: EventTarget, t: EventType, h: Handler): (r: seq<Listener>)
    ensures |r| == |ls| + 1 && r[..|ls|] == ls
    ensures r[|ls|] == Listener(target, t, h)
  {
    ls + [Listener(target, t, h)]
  }

  /** The six listeners `addEventListeners` installs, in order. */
  function AddEventListeners(ls: seq<Listener>): seq<Listener>
  {
    var r1 := AddListener(ls, DocumentTarget, MouseDownType, OnMouseDown);
    var r2 := AddListener(r1, DocumentTarget, MouseUpType, OnMouseUp);
    var r3 := AddListener(r2, CanvasTarget, DOMMouseScrollType, OnMouseWheel);
    var r4 := AddListener(r3, CanvasTarget, MouseWheelType, OnMouseWheel);
    var r5 := AddListener(r4, CanvasTarget, MouseMoveType, OnMouseDrag);
    AddListener(r5, CanvasTarget, ClickType, OnMouseClick)
  }

  /** The handler the registry delivers an event of type `t` to: that of the
      first listener registered for the type. */
  function HandlerFor(ls: seq<Listener>, t: EventType): (r: Option<Handler>)
    ensures r.None? <==> forall i :: 0 <= i < |ls| ==> ls[i].eventType != t
  {
    if |ls| == 0 then None
    else if ls[0].eventType == t then Some(ls[0].handler)
    else HandlerFor(ls[1..], t)
  }

  /** The listener at `k` receives events of its type when no earlier one is of that type. */
  lemma {:induction false} HandlerIsFirst(ls: seq<Listener>, k: nat)
    requires k < |ls|
    requires forall i :: 0 <= i < k ==> ls[i].eventType != ls[k].eventType
    ensures HandlerFor(ls, ls[k].eventType) == Some(ls[k].handler)
  {
    if k > 0 {
      HandlerIsFirst(ls[1..], k - 1);
    }
  }

  /** Installing the listeners into an empty registry records exactly these six, in order. */
  lemma InstalledListeners()
    ensures AddEventListeners([]) == [
      Listener(DocumentTarget, MouseDownType, OnMouseDown),
      Listener(DocumentTarget, MouseUpType, OnMouseUp),
      Listener(CanvasTarget, DOMMouseScrollType, OnMouseWheel),
      Listener(CanvasTarget, MouseWheelType, OnMouseWheel),
      Listener(CanvasTarget, MouseMoveType, OnMouseDrag),
      Listener(CanvasTarget, ClickType, OnMouseClick)]
  {
  }

  /** The installed registry routes presses and releases anywhere in the
      document to their handlers, wheel motion of both browser kinds to the
      wheel handler, and canvas moves and clicks to theirs. */
  lemma InstalledRouting()
    ensures HandlerFor(AddEventListeners([]), MouseDownType) == Some(OnMouseDown)
    ensures HandlerFor(AddEventListeners([]), MouseUpType) == Some(OnMouseUp)
    ensures HandlerFor(AddEventListeners([]), DOMMouseScrollType) == Some(OnMouseWheel)
    ensures HandlerFor(AddEventListeners([]), MouseWheelType) == Some(OnMouseWheel)
    ensures HandlerFor(AddEventListeners([]), MouseMoveType) == Some(OnMouseDrag)
    ensures HandlerFor(AddEventListeners([]), ClickType) == Some(OnMouseClick)
  {
    InstalledListeners();
    var ls := AddEventListeners([]);
    HandlerIsFirst(ls, 0);
    HandlerIsFirst(ls, 1);
    HandlerIsFirst(ls, 2);
    HandlerIsFirst(ls, 3);
    HandlerIsFirst(ls, 4);
    HandlerIsFirst(ls, 5);
  }

  /** Six listeners, no event type registered twice. */
  lemma SixDistinctListeners()
    ensures |AddEventListeners([])| == 6
    ensures forall i, j :: 0 <= i < j < |AddEventListeners([])| ==>
      AddEventListeners([])[i].eventType != AddEventListeners([])[j].eventType
  {
    InstalledListeners();
  }

  // ---- hit testing -------------------------------------------------------

  /** `getUIElements`: buttons, colour buttons, the active polygon's vertices
      (only while editing, and before every polygon), annotation polygons in
      index order, then the solution. */
  function UIElements(s: ViewerState): (r: seq<ElementRef>)
    ensures |r| == |s.buttons| + |s.colorButtons| + |EditableVertices(s)| + |s.annotations|
                   + (if s.solution.Some? then 1 else 0)
    ensures forall i :: 0 <= i < |s.buttons| ==> r[i] == ButtonEl(i)
    ensures forall i :: 0 <= i < |s.colorButtons| ==> r[|s.buttons| + i] == ColorButtonEl(i)
    ensures forall i :: 0 <= i < |EditableVertices(s)| ==>
      r[|s.buttons| + |s.colorButtons| + i] == EditableVertices(s)[i]
    ensures forall i :: 0 <= i < |s.annotations| ==>
      r[|s.buttons| + |s.colorButtons| + |EditableVertices(s)| + i] == PolygonEl(AnnotationRef(i))
    ensures PolygonEl(SolutionRef) in r <==> s.solution.Some?
    ensures s.solution.Some? ==> r[|r| - 1] == PolygonEl(SolutionRef)
  {
    Candidates(|s.buttons|, |s.colorButtons|, EditableVertices(s), |s.annotations|, s.solution.Some?)
  }

  /** The active polygon's vertex handles, in vertex order, present only while editing. */
  function EditableVertices(s: ViewerState): (r: seq<ElementRef>)
    ensures forall i :: 0 <= i < |r| ==>
      EditMode(s.flags) && s.activePolygon.Some? && r[i] == VertexEl(s.activePolygon.value, i)
    ensures EditMode(s.flags) && ActivePolygon(s).Some? ==> |r| == |ActivePolygon(s).value.vertices|
  {
    if EditMode(s.flags) && s.activePolygon.Some? && ActivePolygon(s).Some?
    then seq(|ActivePolygon(s).value.vertices|, i requires 0 <= i => VertexEl(s.activePolygon.value, i))
    else []
  }

  /** The hit-test list for `nb` buttons, `nc` colour buttons, the given
      vertex handles, `na` annotations and possibly the solution, as the
      concatenation of those groups in that order. */
  function Candidates(nb: nat, nc: nat, vertices: seq<ElementRef>, na: nat, hasSolution: bool): (r: seq<ElementRef>)
    requires forall i :: 0 <= i < |vertices| ==> vertices[i].VertexEl?
    ensures |r| == nb + nc + |vertices| + na + (if hasSolution then 1 else 0)
    ensures forall i :: 0 <= i < nb ==> r[i] == ButtonEl(i)
    ensures forall i :: 0 <= i < nc ==> r[nb + i] == ColorButtonEl(i)
    ensures forall i :: 0 <= i < |vertices| ==> r[nb + nc + i] == vertices[i]
    ensures forall i :: 0 <= i < na ==> r[nb + nc + |vertices| + i] == PolygonEl(AnnotationRef(i))
    ensures PolygonEl(SolutionRef) in r <==> hasSolution
    ensures hasSolution ==> r[|r| - 1] == PolygonEl(SolutionRef)
  {
    var n := nb + nc + |vertices| + na + (if hasSolution then 1 else 0);
    var r := seq(n, i requires 0 <= i < n => CandidateAt(nb, nc, vertices, na, i));
    assert forall i :: 0 <= i < nb ==> r[i] == ButtonEl(i);
    assert forall i :: 0 <= i < nc ==> r[nb + i] == ColorButtonEl(i);
    assert forall i :: 0 <= i < |vertices| ==> r[nb + nc + i] == vertices[i];
    forall i | 0 <= i < nb + nc + |vertices| + na ensures r[i] != PolygonEl(SolutionRef) {
      assert r[i] == CandidateAt(nb, nc, vertices, na, i);
      if nb + nc <= i < nb + nc + |vertices| {
        assert vertices[i - nb - nc].VertexEl?;
      }
    }
    assert hasSolution ==> r[n - 1] == PolygonEl(SolutionRef);
    r
  }

  /** The element at position `i` of that list. */
  function CandidateAt(nb: nat, nc: nat, vertices: seq<ElementRef>, na: nat, i: nat): ElementRef
  {
    if i < nb then ButtonEl(i)
    else if i < nb + nc then ColorButtonEl(i - nb)
    else if i < nb + nc + |vertices| then vertices[i - nb - nc]
    else if i < nb + nc + |vertices| + na then PolygonEl(AnnotationRef(i - nb - nc - |vertices|))
    else PolygonEl(SolutionRef)
  }

  /** What sits at position `k` of the hit-test list: no polygon before the
      annotations, annotation `j` at its offset, and the solution after them. */
  lemma ElementAt(s: ViewerState, k: nat)
    requires k < |UIElements(s)|
    ensures var nf := |s.buttons| + |s.colorButtons| + |EditableVertices(s)|;
      && (k < nf ==> !UIElements(s)[k].PolygonEl?)
      && (nf <= k < nf + |s.annotations| ==> UIElements(s)[k] == PolygonEl(AnnotationRef(k - nf)))
      && (nf + |s.annotations| <= k ==> s.solution.Some? && UIElements(s)[k] == PolygonEl(SolutionRef))
  {
    CandidateKind(|s.buttons|, |s.colorButtons|, EditableVertices(s), |s.annotations|, s.solution.Some?, k);
  }

  /** The same classification for any hit-test list built by `Candidates`. */
  lemma CandidateKind(nb: nat, nc: nat, vertices: seq<ElementRef>, na: nat, hasSolution: bool, k: nat)
    requires forall i :: 0 <= i < |vertices| ==> vertices[i].VertexEl?
    requires k < |Candidates(nb, nc, vertices, na, hasSolution)|
    ensures var r := Candidates(nb, nc, vertices, na, hasSolution); var nf := nb + nc + |vertices|;
      && (k < nf ==> !r[k].PolygonEl?)
      && (nf <= k < nf + na ==> r[k] == PolygonEl(AnnotationRef(k - nf)))
      && (nf + na <= k ==> hasSolution && r[k] == PolygonEl(SolutionRef))
  {
    var r := Candidates(nb, nc, vertices, na, hasSolution);
    assert r[k] == CandidateAt(nb, nc, vertices, na, k);
    if nb + nc <= k < nb + nc + |vertices| {
      assert vertices[k - nb - nc].VertexEl?;
    }
  }

  /** `isWithinBounds` of the referenced element at canvas position `pos`. */
  predicate Hits(s: ViewerState, oracle: PolygonOracle, e: ElementRef, pos: Point)
    requires s.scale > 0.0
  {
    match e
    case ButtonEl(i) => i < |s.buttons| && ButtonWithinBounds(s.buttons[i], pos.x, pos.y)
    case ColorButtonEl(i) => i < |s.colorButtons| && ButtonWithinBounds(s.colorButtons[i], pos.x, pos.y)
    case VertexEl(r, i) =>
      PolygonAt(s, r).Some? && i < |PolygonAt(s, r).value.vertices|
      && VertexWithinBounds(ViewOf(s), PolygonAt(s, r).value.vertices[i], pos.x, pos.y)
    case PolygonEl(r) => oracle(r, pos)
  }

  /** `getUIElement`: the highest-priority element under the pointer, or none. */
  function HitAt(s: ViewerState, oracle: PolygonOracle, pos: Point): (r: Option<ElementRef>)
    requires s.scale > 0.0
    ensures r.Some? ==> r.value in UIElements(s) && Hits(s, oracle, r.value, pos)
    ensures r.None? <==> forall e :: e in UIElements(s) ==> !Hits(s, oracle, e, pos)
    ensures r.Some? ==> exists k :: (0 <= k < |UIElements(s)| && UIElements(s)[k] == r.value
      && forall j :: 0 <= j < k ==> !Hits(s, oracle, UIElements(s)[j], pos))
  {
    var es := UIElements(s);
    var found := FirstMatch(es, (e: ElementRef) requires s.scale > 0.0 => Hits(s, oracle, e, pos));
    match found
    case None => None
    case Some(k) => Some(es[k])
  }

  /** A vertex handle beats the polygon under it: when a handle of the
      active polygon is under the pointer, the element found is not a polygon. */
  lemma VertexBeatsPolygon(s: ViewerState, oracle: PolygonOracle, pos: Point, i: nat)
    requires s.scale > 0.0
    requires i < |EditableVertices(s)| && Hits(s, oracle, EditableVertices(s)[i], pos)
    ensures HitAt(s, oracle, pos).Some? && !HitAt(s, oracle, pos).value.PolygonEl?
  {
    var es := UIElements(s);
    var p := (e: ElementRef) requires s.scale > 0.0 => Hits(s, oracle, e, pos);
    var at := |s.buttons| + |s.colorButtons| + i;
    assert es[at] == EditableVertices(s)[i];
    assert p(es[at]);
    var k := FirstMatch(es, p).value;
    assert k <= at;
    ElementAt(s, k);
  }

  /** A drawn button under the pointer always wins: the element found is a
      button no later in the list, so never a vertex or polygon; with the
      column layout, where buttons do not overlap, it is that very button. */
  lemma ButtonBeatsEverything(s: ViewerState, oracle: PolygonOracle, pos: Point, i: nat)
    requires s.scale > 0.0
    requires i < |s.buttons| && ButtonWithinBounds(s.buttons[i], pos.x, pos.y)
    ensures HitAt(s, oracle, pos).Some?
    ensures HitAt(s, oracle, pos).value.ButtonEl? && HitAt(s, oracle, pos).value.index <= i
  {
    var es := UIElements(s);
    var p := (e: ElementRef) requires s.scale > 0.0 => Hits(s, oracle, e, pos);
    assert es[i] == ButtonEl(i);
    assert p(es[i]);
    var k := FirstMatch(es, p).value;
    assert k <= i;
    assert es[k] == ButtonEl(k);
  }

  /** The source's filter-then-take-the-first agrees with the first-match scan. */
  lemma HitAtIsHeadOfFilter(s: ViewerState, oracle: PolygonOracle, pos: Point)
    requires s.scale > 0.0
    ensures HitAt(s, oracle, pos)
            == HeadOfFilter(UIElements(s), (e: ElementRef) requires s.scale > 0.0 => Hits(s, oracle, e, pos))
  {
    HeadOfFilterIsFirstMatch(UIElements(s), (e: ElementRef) requires s.scale > 0.0 => Hits(s, oracle, e, pos));
  }

  /** Vertices are candidates only while editing with an active polygon. */
  lemma VerticesOnlyWhileEditing(s: ViewerState, e: ElementRef)
    requires e in UIElements(s) && e.VertexEl?
    ensures EditMode(s.flags) && s.activePolygon == Some(e.polygon)
    ensures ActivePolygon(s).Some? && e.index < |ActivePolygon(s).value.vertices|
  {
  }
}
