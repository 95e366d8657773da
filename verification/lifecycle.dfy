/** Construction, image load, the public `zoomIn`/`zoomOut`/`refresh`/`dispose`
    calls, and whole runs of inputs from a freshly constructed viewer. */
module Lifecycle {
  import opened Wrappers
  import opened Geometry
  import opened Modes
  import opened Elements
  import opened Viewer
  import opened Input
  import opened Rendering

  /** The raw `options.answer`. */
  datatype AnswerArg = AnswerObject(token: nat) | AnswerNull | AnswerOther

  /** The raw `options` argument: `null`, another non-object, or an object. */
  datatype OptionsArg = OptionsNull | OptionsOther | OptionsObject(mode: ModeArg, answer: AnswerArg)

  const ZoomOutTooltip: string := "Zoom out"
  const ZoomInTooltip: string := "Zoom in"

  /** The constructor. `solution` and `annotations` stand for what the import
      routines (not part of this model) produced from the options object. A
      non-object options argument is replaced by an empty object, so nothing
      is imported. `typeof null` is "object", so a `null` options argument
      survives sanitising and reading its mode throws: construction fails. */
  function Create(variant: Variant, width: PosReal, height: PosReal, options: OptionsArg,
                  solution: Option<Polygon>, annotations: seq<Annotation>): (r: Option<ViewerState>)
    ensures r.None? <==> options.OptionsNull?
    ensures r.Some? ==>
      && Inv(r.value) && r.value.dirty && !r.value.stopRendering && r.value.scale == 1.0
      && r.value.listeners == AddEventListeners([])
      && |r.value.buttons| == 2 && r.value.colorButtons == []
      && r.value.buttons[0].action == ZoomOutAction && r.value.buttons[1].action == ZoomInAction
      && r.value.buttons[0].tooltip == Some(ZoomOutTooltip) && r.value.buttons[1].tooltip == Some(ZoomInTooltip)
      && r.value.centre == Point(0.0, 0.0)
      && r.value.buttons[0].drawPosition.None? && r.value.buttons[1].drawPosition.None?
      && r.value.tooltip.None? && r.value.focus.None? && r.value.activePolygon.None?
      && !r.value.leftButtonDown && r.value.mouseLastPos.None? && r.value.moveTarget == Centre
    ensures options.OptionsOther? ==>
      r.Some? && r.value.flags == Flags(false, false, false, false, false, false) && r.value.answer.None?
      && r.value.solution.None? && r.value.annotations == []
    ensures options.OptionsObject? ==>
      r.Some? && r.value.flags == FlagsFor(SanitizeMode(options.mode))
      && (r.value.answer.Some? <==> options.answer.AnswerObject?)
      && r.value.solution == solution && r.value.annotations == annotations
  {
    match options
    case OptionsNull => None
    case OptionsOther => Some(Fresh(variant, width, height, "", None, None, []))
    case OptionsObject(mode, answer) =>
      var token := match answer
        case AnswerObject(t) => Some(t)
        case _ => None;
      Some(Fresh(variant, width, height, SanitizeMode(mode), token, solution, annotations))
  }

  /** The state the constructor sets up, before any image has loaded. */
  function Fresh(variant: Variant, width: PosReal, height: PosReal, mode: string, answer: Option<nat>,
                 solution: Option<Polygon>, annotations: seq<Annotation>): ViewerState
  {
    var zoomOut := NewButton(Some(ZoomOutTooltip)).(action := ZoomOutAction);
    var zoomIn := NewButton(Some(ZoomInTooltip)).(action := ZoomInAction);
    ViewerState(
      variant, width, height, FlagsFor(mode), answer, solution, annotations,
      /* dirty */ true, /* stopRendering */ false, /* scale */ 1.0, Point(0.0, 0.0),
      AddEventListeners([]), [zoomOut, zoomIn], [],
      /* tooltip */ None, Centre, /* leftButtonDown */ false, /* mouseLastPos */ None,
      /* focus */ None, /* activePolygon */ None, /* instanceDirty */ false)
  }

  /** `onImageLoad`: fit the image, centre it, and run a frame (which paints,
      the state being dirty). Apart from the scale, the centre, the cleared
      dirty flag and the overlay's recorded button positions, nothing
      changes; the frame schedules the next one unless rendering was stopped
      or the frame faults. */
  function ImageLoad(s: ViewerState, width: PosReal, height: PosReal): (r: Step)
    ensures r.state.scale == FitScale(s.canvasWidth, s.canvasHeight, width, height)
    ensures r.state.centre == Point(width / 2.0, height / 2.0)
    ensures |r.trace| >= 2 && r.trace[0] == ClearCanvas && !r.state.dirty
    ensures r.state == s.(scale := r.state.scale, centre := r.state.centre, dirty := false,
                          buttons := r.state.buttons, colorButtons := r.state.colorButtons)
    ensures RequestFrame in r.trace <==> !s.stopRendering && !Faults(s.(dirty := true))
  {
    var s1 := s.(scale := FitScale(s.canvasWidth, s.canvasHeight, width, height),
                 centre := Point(width / 2.0, height / 2.0), dirty := true);
    Render(s1)
  }

  /** After loading, the middle of the image is shown at the middle of the canvas. */
  lemma LoadedImageIsCentred(s: ViewerState, width: PosReal, height: PosReal)
    ensures var v := ViewOf(ImageLoad(s, width, height).state);
            ToCanvas(v, Point(width / 2.0, height / 2.0)) == Point(s.canvasWidth / 2.0, s.canvasHeight / 2.0)
  {
    CentreAtCanvasMiddle(ViewOf(ImageLoad(s, width, height).state));
  }

  /** `dispose`: remove every registered listener, in registration order,
      empty the registry and stop the render loop. */
  function Dispose(s: ViewerState): (r: Step)
    ensures r.state == s.(listeners := [], stopRendering := true)
    ensures |r.trace| == |s.listeners|
    ensures forall i :: 0 <= i < |s.listeners| ==> r.trace[i] == RemoveListener(s.listeners[i])
  {
    Step(s.(listeners := [], stopRendering := true),
         seq(|s.listeners|, i requires 0 <= i < |s.listeners| => RemoveListener(s.listeners[i])))
  }

  /** A second `dispose` removes nothing and changes nothing. */
  lemma DisposeIdempotent(s: ViewerState)
    ensures Dispose(Dispose(s).state) == Step(Dispose(s).state, [])
  {
  }

  /** Once disposed, no browser event reaches a handler and no frame schedules another. */
  lemma DisposedViewerIsInert(s: ViewerState, oracle: PolygonOracle, ev: DomEvent)
    requires s.scale > 0.0
    ensures Deliver(Dispose(s).state, oracle, ev) == Step(Dispose(s).state, [])
    ensures RequestFrame !in Render(Dispose(s).state).trace
  {
  }

  /** `refresh` sets a property of the instance, not the flag the frame
      callback tests: it never makes a frame paint. */
  function Refresh(s: ViewerState): (r: ViewerState)
    ensures r.dirty == s.dirty && r.instanceDirty
    ensures r.(instanceDirty := s.instanceDirty) == s
  {
    s.(instanceDirty := true)
  }

  /** Any number of refreshes on a clean viewer: the next frame paints nothing. */
  lemma RefreshDoesNotArmRender(s: ViewerState)
    requires s.scale > 0.0 && !s.dirty
    ensures Render(Refresh(s)).trace == Reschedule(s)
    ensures Render(Refresh(Refresh(s))).trace == Reschedule(s)
  {
  }

  /** Zooming in and straight back out leaves 99/100 of the scale, and redraws. */
  lemma ZoomInThenOut(s: ViewerState)
    ensures ZoomOut(ZoomIn(s)) == s.(scale := s.scale * 99.0 / 100.0, dirty := true)
  {
    ZoomStepsDoNotCancel(s.scale);
  }

  // ---- runs ----------------------------------------------------------------

  /** Everything that can happen to a viewer: a browser event (with the
      verdicts of the polygon bounds test at hand), an animation frame, the
      image finishing loading, or a call of the public API. */
  datatype Stimulus =
    | Browser(event: DomEvent, oracle: PolygonOracle)
    | AnimationFrame
    | ImageLoaded(width: PosReal, height: PosReal)
    | CallZoomIn
    | CallZoomOut
    | CallRefresh
    | CallDispose

  function Apply(s: ViewerState, x: Stimulus): Step
    requires s.scale > 0.0
  {
    match x
    case Browser(ev, oracle) => Deliver(s, oracle, ev)
    case AnimationFrame => Render(s)
    case ImageLoaded(w, h) => ImageLoad(s, w, h)
    case CallZoomIn => Step(ZoomIn(s), [])
    case CallZoomOut => Step(ZoomOut(s), [])
    case CallRefresh => Step(Refresh(s), [])
    case CallDispose => Dispose(s)
  }

  /** A polygon offered to hit testing exists. */
  lemma HitPolygonsExist(s: ViewerState, p: PolygonRef)
    requires PolygonEl(p) in UIElements(s)
    ensures PolygonAt(s, p).Some?
  {
    var es := UIElements(s);
    var k :| 0 <= k < |es| && es[k] == PolygonEl(p);
    ElementAt(s, k);
  }

  lemma ClickKeepsInv(s: ViewerState, oracle: PolygonOracle, button: int, pos: Point)
    requires Inv(s)
    ensures Inv(Click(s, oracle, button, pos).state)
  {
    var r := Click(s, oracle, button, pos).state;
    if r.activePolygon != s.activePolygon {
      HitPolygonsExist(s, r.activePolygon.value);
    }
  }

  lemma DeliverKeepsInv(s: ViewerState, oracle: PolygonOracle, ev: DomEvent)
    requires Inv(s)
    ensures Inv(Deliver(s, oracle, ev).state)
    ensures Quiet(Deliver(s, oracle, ev).trace)
  {
    match HandlerFor(s.listeners, ev.eventType)
    case None =>
    case Some(h) => HandleKeepsInv(s, oracle, h, ev);
  }

  lemma HandleKeepsInv(s: ViewerState, oracle: PolygonOracle, h: Handler, ev: DomEvent)
    requires Inv(s)
    ensures Inv(Handle(s, oracle, h, ev).state)
    ensures Quiet(Handle(s, oracle, h, ev).trace)
  {
    match h
    case OnMouseDown =>
    case OnMouseUp =>
    case OnMouseWheel =>
    case OnMouseDrag => MoveKeepsInv(s, oracle, ev.pos);
    case OnMouseClick => ClickKeepsInv(s, oracle, ev.button, ev.pos);
  }

  lemma MoveKeepsInv(s: ViewerState, oracle: PolygonOracle, pos: Point)
    requires Inv(s)
    ensures Inv(MouseMove(s, oracle, pos).state)
    ensures MouseMove(s, oracle, pos).trace == []
  {
    var r := MouseMove(s, oracle, pos).state;
    assert PolygonAt(r, SolutionRef) == PolygonAt(s, SolutionRef);
  }

  /** No host notification among the effects. */
  predicate Quiet(t: seq<Effect>)
  {
    forall i :: 0 <= i < |t| ==> !t[i].NotifySolutionChange? && !t[i].NotifyAnnotationChange?
  }

  lemma {:induction false} QuietCountsZero(t: seq<Effect>)
    requires Quiet(t)
    ensures CountNotifications(t) == 0
  {
    if |t| > 0 {
      assert Quiet(t[1..]);
      QuietCountsZero(t[1..]);
    }
  }

  /** Frames neither break the invariant nor notify: they only paint and schedule. */
  lemma FrameKeepsInv(s: ViewerState)
    requires Inv(s)
    ensures Inv(Render(s).state) && Quiet(Render(s).trace)
  {
    var r := Render(s);
    assert r.state == s.(dirty := false, buttons := r.state.buttons, colorButtons := r.state.colorButtons);
    assert PolygonAt(r.state, SolutionRef) == PolygonAt(s, SolutionRef);
    RenderIsLayered(s);
    PaintIsQuiet(r.trace);
  }

  lemma PaintIsQuiet(t: seq<Effect>)
    requires AtMost(t, 9)
    ensures Quiet(t)
  {
    forall i | 0 <= i < |t| ensures !t[i].NotifySolutionChange? && !t[i].NotifyAnnotationChange? {
      assert Layer(t[i]) <= 9;
    }
  }

  lemma LoadKeepsInv(s: ViewerState, w: PosReal, h: PosReal)
    requires Inv(s)
    ensures Inv(ImageLoad(s, w, h).state) && Quiet(ImageLoad(s, w, h).trace)
  {
    FrameKeepsInv(s.(scale := FitScale(s.canvasWidth, s.canvasHeight, w, h),
                     centre := Point(w / 2.0, h / 2.0), dirty := true));
  }

  /** Every stimulus keeps the invariant, and none notifies the host. */
  lemma ApplyKeepsInv(s: ViewerState, x: Stimulus)
    requires Inv(s)
    ensures Inv(Apply(s, x).state)
    ensures CountNotifications(Apply(s, x).trace) == 0
  {
    match x {
      case Browser(ev, oracle) => DeliverKeepsInv(s, oracle, ev);
      case AnimationFrame => FrameKeepsInv(s);
      case ImageLoaded(w, h) => LoadKeepsInv(s, w, h);
      case CallZoomIn =>
      case CallZoomOut =>
      case CallRefresh =>
      case CallDispose =>
    }
    QuietCountsZero(Apply(s, x).trace);
  }

  lemma {:induction false} CountAppend(a: seq<Effect>, b: seq<Effect>)
    ensures CountNotifications(a + b) == CountNotifications(a) + CountNotifications(b)
  {
    if |a| > 0 {
      assert (a + b)[1..] == a[1..] + b;
      CountAppend(a[1..], b);
    } else {
      assert a + b == b;
    }
  }

  /** A run of stimuli; the state stays in the invariant throughout and the
      host is never told about a geometry change. */
  function Run(s: ViewerState, xs: seq<Stimulus>): (r: Step)
    requires Inv(s)
    ensures Inv(r.state)
    ensures CountNotifications(r.trace) == 0
    decreases |xs|
  {
    if |xs| == 0 then Step(s, [])
    else
      ApplyKeepsInv(s, xs[0]);
      var first := Apply(s, xs[0]);
      var rest := Run(first.state, xs[1..]);
      CountAppend(first.trace, rest.trace);
      Step(rest.state, first.trace + rest.trace)
  }

  /** From construction on, whatever happens, the drag target is the centre:
      the vertex-drag branch of the move handler is unreachable, so no edit
      ever notifies the host, and the scale stays positive. */
  lemma ReachableInvariant(variant: Variant, width: PosReal, height: PosReal, options: OptionsArg,
                           solution: Option<Polygon>, annotations: seq<Annotation>, xs: seq<Stimulus>)
    requires !options.OptionsNull?
    ensures var s := Create(variant, width, height, options, solution, annotations).value;
            var r := Run(s, xs);
            r.state.moveTarget == Centre && r.state.scale > 0.0
            && NotifySolutionChange !in r.trace && NotifyAnnotationChange !in r.trace
  {
    var s := Create(variant, width, height, options, solution, annotations).value;
    var r := Run(s, xs);
    NotificationsCounted(r.trace);
  }

  lemma {:induction false} NotificationsCounted(t: seq<Effect>)
    requires CountNotifications(t) == 0
    ensures NotifySolutionChange !in t && NotifyAnnotationChange !in t
  {
    if |t| > 0 {
      NotificationsCounted(t[1..]);
      assert t == [t[0]] + t[1..];
    }
  }

  /** A click on an open solution polygon in solution-edit mode before the
      pointer ever moved over the canvas: the next frame throws while drawing
      the edit line, and the render loop is not rescheduled. */
  lemma ClickBeforeFirstMoveKillsRenderLoop()
    ensures
      var poly := Polygon([Point(10.0, 10.0)], false);
      var s0 := Create(FullViewer, 100.0, 100.0, OptionsObject(ModeString("editSolution"), AnswerNull),
                       Some(poly), []).value;
      var s1 := ImageLoad(s0, 100.0, 100.0).state;
      var s2 := Click(s1, (p: PolygonRef, q: Point) => true, PrimaryButton, Point(0.0, 0.0)).state;
      s2.activePolygon == Some(SolutionRef) && s2.dirty
      && RenderFault in Render(s2).trace && RequestFrame !in Render(s2).trace
  {
    var poly := Polygon([Point(10.0, 10.0)], false);
    var s0 := Create(FullViewer, 100.0, 100.0, OptionsObject(ModeString("editSolution"), AnswerNull),
                     Some(poly), []).value;
    assert s0 == Fresh(FullViewer, 100.0, 100.0, "editSolution", None, Some(poly), []);
    assert EditMode(s0.flags) && s0.mouseLastPos.None?;
    var s1 := ImageLoad(s0, 100.0, 100.0).state;
    LoadedExampleButtons(s0);
    ClickExample(s1, (p: PolygonRef, q: Point) => true, Point(0.0, 0.0));
  }

  /** The example's click, once the image is loaded: it selects the solution
      without moving the pointer, so the next frame faults. */
  lemma ClickExample(s1: ViewerState, oracle: PolygonOracle, pos: Point)
    requires s1.scale > 0.0 && pos == Point(0.0, 0.0) && oracle(SolutionRef, pos)
    requires |s1.buttons| == 2 && s1.colorButtons == [] && s1.annotations == []
    requires s1.solution == Some(Polygon([Point(10.0, 10.0)], false))
    requires s1.activePolygon.None? && s1.mouseLastPos.None? && s1.variant == FullViewer
    requires EditMode(s1.flags) && s1.flags.solutionEditable
    requires s1.buttons[0].drawPosition == Some(Point(70.0, 70.0)) && s1.buttons[0].drawRadius == 20.0
    requires s1.buttons[1].drawPosition == Some(Point(70.0, 20.0)) && s1.buttons[1].drawRadius == 20.0
    ensures var s2 := Click(s1, oracle, PrimaryButton, pos).state;
      s2.activePolygon == Some(SolutionRef) && s2.dirty
      && RenderFault in Render(s2).trace && RequestFrame !in Render(s2).trace
  {
    HitExample(s1, oracle, pos);
    var s2 := Click(s1, oracle, PrimaryButton, pos).state;
    assert s2.activePolygon == Some(SolutionRef) && s2.dirty;
    assert Faults(s2);
  }

  /** Loading a 100 x 100 image into a fresh 100 x 100 viewer places the two zoom buttons. */
  lemma LoadedExampleButtons(s0: ViewerState)
    requires s0.canvasWidth == 100.0 && s0.canvasHeight == 100.0 && |s0.buttons| == 2 && s0.colorButtons == []
    requires s0.activePolygon.None?
    ensures var s1 := ImageLoad(s0, 100.0, 100.0).state;
            s1.buttons[0].drawPosition == Some(Point(70.0, 70.0)) && s1.buttons[0].drawRadius == 20.0
            && s1.buttons[1].drawPosition == Some(Point(70.0, 20.0)) && s1.buttons[1].drawRadius == 20.0
  {
    var s := s0.(scale := FitScale(100.0, 100.0, 100.0, 100.0), centre := Point(50.0, 50.0), dirty := true);
    assert !Faults(s);
    RenderPlacesButtons(s);
  }

  /** With the zoom buttons away from the pointer and no other candidate, the solution is hit. */
  lemma HitExample(s: ViewerState, oracle: PolygonOracle, pos: Point)
    requires s.scale > 0.0 && pos == Point(0.0, 0.0) && oracle(SolutionRef, pos)
    requires |s.buttons| == 2 && s.colorButtons == [] && s.annotations == [] && s.solution.Some?
    requires s.activePolygon.None?
    requires s.buttons[0].drawPosition == Some(Point(70.0, 70.0)) && s.buttons[0].drawRadius == 20.0
    requires s.buttons[1].drawPosition == Some(Point(70.0, 20.0)) && s.buttons[1].drawRadius == 20.0
    ensures HitAt(s, oracle, pos) == Some(PolygonEl(SolutionRef))
  {
    assert UIElements(s) == [ButtonEl(0), ButtonEl(1), PolygonEl(SolutionRef)];
    assert !Hits(s, oracle, ButtonEl(0), pos) && !Hits(s, oracle, ButtonEl(1), pos);
    assert Hits(s, oracle, PolygonEl(SolutionRef), pos);
  }
}
