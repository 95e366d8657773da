/** The pointer and wheel handlers: press, release, click, wheel and move,
    and the registry-driven delivery of a browser event to them. */
module Input {
  import opened Wrappers
  import opened Geometry
  import opened Modes
  import opened Elements
  import opened Viewer

  /** The fields of a browser event the handlers read. `pos` is the pointer
      position relative to the canvas' top-left corner; a wheel field the
      browser leaves undefined is 0, which compares the same way. */
  datatype DomEvent = DomEvent(eventType: EventType, button: int, pos: Point, detail: real, wheelDelta: real)

  /** The primary (left) mouse button. */
  const PrimaryButton: int := 0

  /** `onMouseDown` of an element: buttons and polygons return `false`,
      vertices `undefined`; none ever reports the press as handled. */
  function MouseDownHook(e: ElementRef): bool
  {
    match e
    case ButtonEl(_) => false
    case ColorButtonEl(_) => false
    case VertexEl(_, _) => false
    case PolygonEl(_) => false
  }

  /** `onMouseDown`: a primary press not handled by the element under the
      pointer starts a drag. As no hook handles it, every primary press does. */
  function MouseDown(s: ViewerState, oracle: PolygonOracle, button: int, pos: Point): (r: ViewerState)
    requires s.scale > 0.0
    ensures button == PrimaryButton ==> r == s.(leftButtonDown := true)
    ensures button != PrimaryButton ==> r == s
  {
    if button == PrimaryButton then
      var hit := HitAt(s, oracle, pos);
      if hit.None? || !MouseDownHook(hit.value) then s.(leftButtonDown := true) else s
    else s
  }

  /** `onMouseUp`: a primary release ends the drag and points the next one back at the centre. */
  function MouseUp(s: ViewerState, button: int): (r: ViewerState)
    ensures button == PrimaryButton ==> !r.leftButtonDown && r.moveTarget == Centre
    ensures r.(leftButtonDown := s.leftButtonDown, moveTarget := s.moveTarget) == s
    ensures button != PrimaryButton ==> r == s
  {
    if button == PrimaryButton then s.(moveTarget := Centre, leftButtonDown := false) else s
  }

  /** What an element's `onClick` did, and whether it let the click bubble. */
  datatype ClickOutcome = ClickOutcome(step: Step, bubble: bool)

  const NoActionMessage: string := "no click action set!"

  /** The button an element reference names, if it names one that exists. */
  function ButtonOf(s: ViewerState, e: ElementRef): Option<Button>
  {
    match e
    case ButtonEl(i) => if i < |s.buttons| then Some(s.buttons[i]) else None
    case ColorButtonEl(i) => if i < |s.colorButtons| then Some(s.colorButtons[i]) else None
    case _ => None
  }

  /** A button's `onClick`: the zoom buttons zoom and consume the click, any
      other button alerts and lets it bubble. Only the scale and the dirty
      flag can change, and a positive scale stays positive. */
  function ButtonClick(s: ViewerState, b: Button): (r: ClickOutcome)
    ensures r.step.trace == [] || r.step.trace == [Alert(NoActionMessage)]
    ensures s.scale > 0.0 ==> r.step.state.scale > 0.0
    ensures r.step.state == s.(scale := r.step.state.scale, dirty := r.step.state.dirty)
    ensures r.bubble <==> b.action == DefaultAction
  {
    match b.action
    case ZoomOutAction => ClickOutcome(Step(ZoomOut(s), []), false)
    case ZoomInAction => ClickOutcome(Step(ZoomIn(s), []), false)
    case DefaultAction => ClickOutcome(Step(s, [Alert(NoActionMessage)]), true)
  }

  /** `onClick` of the element `e`. Zoom buttons zoom and consume the click,
      other buttons alert and bubble, vertices bubble, and a polygon becomes
      the active one (consuming the click) only while editing. */
  function ClickHook(s: ViewerState, e: ElementRef): (r: ClickOutcome)
    ensures r.step.trace == [] || r.step.trace == [Alert(NoActionMessage)]
    ensures s.scale > 0.0 ==> r.step.state.scale > 0.0
    ensures r.step.state == s.(scale := r.step.state.scale, dirty := r.step.state.dirty,
                               activePolygon := r.step.state.activePolygon)
    ensures r.step.state.scale != s.scale ==> e.ButtonEl? || e.ColorButtonEl?
    ensures r.step.state.activePolygon != s.activePolygon ==>
      e.PolygonEl? && EditMode(s.flags) && r.step.state.activePolygon == Some(e.polygon)
    ensures ButtonOf(s, e).Some? && ButtonOf(s, e).value.action == ZoomInAction ==>
      r == ClickOutcome(Step(ZoomIn(s), []), false)
    ensures ButtonOf(s, e).Some? && ButtonOf(s, e).value.action == ZoomOutAction ==>
      r == ClickOutcome(Step(ZoomOut(s), []), false)
    ensures ButtonOf(s, e).Some? && ButtonOf(s, e).value.action == DefaultAction ==>
      r == ClickOutcome(Step(s, [Alert(NoActionMessage)]), true)
    ensures e.VertexEl? ==> r == ClickOutcome(Step(s, []), true)
    ensures e.PolygonEl? && EditMode(s.flags) ==>
      r == ClickOutcome(Step(s.(activePolygon := Some(e.polygon), dirty := true), []), false)
    ensures e.PolygonEl? && !EditMode(s.flags) ==> r == ClickOutcome(Step(s, []), true)
  {
    match e
    case ButtonEl(i) =>
      if i < |s.buttons| then ButtonClick(s, s.buttons[i]) else ClickOutcome(Step(s, []), true)
    case ColorButtonEl(i) =>
      if i < |s.colorButtons| then ButtonClick(s, s.colorButtons[i]) else ClickOutcome(Step(s, []), true)
    case VertexEl(_, _) => ClickOutcome(Step(s, []), true)
    case PolygonEl(p) =>
      if EditMode(s.flags) then ClickOutcome(Step(s.(activePolygon := Some(p), dirty := true), []), false)
      else ClickOutcome(Step(s, []), true)
  }

  /** `onMouseClick`: a primary click is passed to the element under the
      pointer; whether it bubbles has no further effect. */
  function Click(s: ViewerState, oracle: PolygonOracle, button: int, pos: Point): (r: Step)
    requires s.scale > 0.0
    ensures button != PrimaryButton || HitAt(s, oracle, pos).None? ==> r == Step(s, [])
    ensures r.state.activePolygon != s.activePolygon ==>
      button == PrimaryButton && EditMode(s.flags) && r.state.activePolygon.Some?
      && HitAt(s, oracle, pos) == Some(PolygonEl(r.state.activePolygon.value))
    ensures button == PrimaryButton && EditMode(s.flags) && HitAt(s, oracle, pos).Some?
            && HitAt(s, oracle, pos).value.PolygonEl? ==>
      r.state.activePolygon == Some(HitAt(s, oracle, pos).value.polygon) && r.state.dirty
    ensures r.state == s.(scale := r.state.scale, dirty := r.state.dirty, activePolygon := r.state.activePolygon)
    ensures r.state.scale > 0.0
    ensures r.trace == [] || r.trace == [Alert(NoActionMessage)]
    ensures r.state.scale != s.scale ==>
      button == PrimaryButton && HitAt(s, oracle, pos).Some? && (HitAt(s, oracle, pos).value.ButtonEl? || HitAt(s, oracle, pos).value.ColorButtonEl?)
    ensures var h := HitAt(s, oracle, pos);
      button == PrimaryButton && h.Some? && ButtonOf(s, h.value).Some? ==>
        (ButtonOf(s, h.value).value.action == ZoomInAction ==> r == Step(ZoomIn(s), []))
        && (ButtonOf(s, h.value).value.action == ZoomOutAction ==> r == Step(ZoomOut(s), []))
        && (ButtonOf(s, h.value).value.action == DefaultAction ==> r == Step(s, [Alert(NoActionMessage)]))
  {
    if button != PrimaryButton then Step(s, [])
    else
      match HitAt(s, oracle, pos)
      case None => Step(s, [])
      case Some(e) => ClickHook(s, e).step
  }

  /** `onMouseWheel`: suppress scrolling; wheel up zooms out, anything else zooms in. */
  function Wheel(s: ViewerState, detail: real, wheelDelta: real): (r: Step)
    ensures r.trace == [PreventDefault]
    ensures r.state == s.(scale := r.state.scale, dirty := true)
    ensures s.scale > 0.0 ==> r.state.scale > 0.0
    ensures s.scale > 0.0 ==> (r.state.scale < s.scale <==> detail < 0.0 || wheelDelta > 0.0)
    ensures detail < 0.0 || wheelDelta > 0.0 ==> r.state.scale == s.scale * (9.0 / 10.0)
    ensures !(detail < 0.0 || wheelDelta > 0.0) ==> r.state.scale == s.scale * (11.0 / 10.0)
  {
    if detail < 0.0 || wheelDelta > 0.0 then Step(ZoomOut(s), [PreventDefault])
    else Step(ZoomIn(s), [PreventDefault])
  }

  /** A wheel step up followed by one down (or the reverse) does not restore
      the scale: it leaves 99/100 of it, as the public zoom calls do. */
  lemma WheelUpThenDown(s: ViewerState, upDetail: real, upDelta: real, downDetail: real, downDelta: real)
    requires upDetail < 0.0 || upDelta > 0.0
    requires !(downDetail < 0.0 || downDelta > 0.0)
    ensures Wheel(Wheel(s, upDetail, upDelta).state, downDetail, downDelta).state
            == s.(scale := s.scale * 99.0 / 100.0, dirty := true)
    ensures Wheel(Wheel(s, downDetail, downDelta).state, upDetail, upDelta).state
            == s.(scale := s.scale * 99.0 / 100.0, dirty := true)
  {
    ZoomStepsDoNotCancel(s.scale);
  }

  /** The tooltip an element offers: every button has the field (possibly
      null); vertices and polygons have none. */
  function TooltipField(s: ViewerState, e: ElementRef): Option<Option<string>>
  {
    match e
    case ButtonEl(i) => if i < |s.buttons| then Some(s.buttons[i].tooltip) else None
    case ColorButtonEl(i) => if i < |s.colorButtons| then Some(s.colorButtons[i].tooltip) else None
    case VertexEl(_, _) => None
    case PolygonEl(_) => None
  }

  /** The host notification after a vertex drag: the solution's when the
      active polygon is the solution, the annotations' otherwise (the full
      viewer first cleans the annotations up). */
  function ChangeNotification(s: ViewerState): (r: seq<Effect>)
    ensures CountNotifications(r) == 1
    ensures NotifySolutionChange in r <==> ActiveIsSolution(s)
    ensures CleanupAnnotations in r <==> s.variant == FullViewer && !ActiveIsSolution(s)
  {
    assert CountNotifications([NotifySolutionChange]) == 1;
    assert CountNotifications([NotifyAnnotationChange]) == 1;
    assert [CleanupAnnotations, NotifyAnnotationChange][1..] == [NotifyAnnotationChange];
    assert CountNotifications([CleanupAnnotations, NotifyAnnotationChange]) == 1;
    if ActiveIsSolution(s) then [NotifySolutionChange]
    else if s.variant == FullViewer then [CleanupAnnotations, NotifyAnnotationChange]
    else [NotifyAnnotationChange]
  }

  function CountNotifications(t: seq<Effect>): nat
  {
    if |t| == 0 then 0
    else (if t[0].NotifySolutionChange? || t[0].NotifyAnnotationChange? then 1 else 0)
         + CountNotifications(t[1..])
  }

  /** Hovering without a drag: adopt the hovered element's tooltip if it has
      the field, focus it; over nothing, drop both. Redraw when the tooltip changed. */
  function Hover(s: ViewerState, hit: Option<ElementRef>): (r: ViewerState)
    ensures r == s.(tooltip := r.tooltip, focus := r.focus, dirty := r.dirty)
    ensures hit.None? ==> r.tooltip.None? && r.focus.None?
    ensures hit.Some? ==> r.focus == hit && r.tooltip == TooltipField(s, hit.value).GetOr(s.tooltip)
    ensures r.dirty <==> s.dirty || r.tooltip != s.tooltip
  {
    match hit
    case Some(e) =>
      var tip := if TooltipField(s, e).Some? then TooltipField(s, e).value else s.tooltip;
      s.(tooltip := tip, focus := Some(e), dirty := s.dirty || tip != s.tooltip)
    case None =>
      s.(tooltip := None, focus := None, dirty := s.dirty || s.tooltip.Some?)
  }

  /** The position the next move measures its delta from: the last one seen, or the origin. */
  function LastPos(s: ViewerState): Point
  {
    s.mouseLastPos.GetOr(Point(0.0, 0.0))
  }

  /** `mouseDrag`. With the button down it pans (or, were a vertex the move
      target, notifies the host); otherwise it updates tooltip and focus.
      It always records the position, and in an edit mode always asks for a redraw. */
  function MouseMove(s: ViewerState, oracle: PolygonOracle, pos: Point): (r: Step)
    requires s.scale > 0.0
    ensures r.state == s.(centre := r.state.centre, dirty := r.state.dirty, tooltip := r.state.tooltip,
                          focus := r.state.focus, mouseLastPos := Some(pos))
    // dragging the centre: the image point under the previous pointer
    // position is under the new one, and the pan needs a redraw
    ensures s.leftButtonDown && s.moveTarget == Centre ==>
      ToImage(ViewOf(r.state), pos) == ToImage(ViewOf(s), LastPos(s)) && r.state.dirty && r.trace == []
    // dragging a vertex: exactly one host notification, geometry untouched
    ensures s.leftButtonDown && s.moveTarget.VertexTarget? ==>
      CountNotifications(r.trace) == 1 && r.state.centre == s.centre && r.state.dirty
      && (NotifySolutionChange in r.trace <==> ActiveIsSolution(s))
    ensures r.trace != [] ==> s.leftButtonDown && s.moveTarget.VertexTarget?
    ensures s.leftButtonDown ==> r.state.tooltip == s.tooltip && r.state.focus == s.focus
    // hovering
    ensures !s.leftButtonDown ==> r.state.centre == s.centre
    ensures !s.leftButtonDown && HitAt(s, oracle, pos).None? ==> r.state.tooltip.None? && r.state.focus.None?
    ensures !s.leftButtonDown && HitAt(s, oracle, pos).Some? ==>
      r.state.focus == HitAt(s, oracle, pos)
      && r.state.tooltip == TooltipField(s, HitAt(s, oracle, pos).value).GetOr(s.tooltip)
    ensures !s.leftButtonDown ==>
      (r.state.dirty <==> s.dirty || r.state.tooltip != s.tooltip || EditMode(s.flags))
  {
    var moved :=
      if s.leftButtonDown then Drag(s, LastPos(s), pos)
      else Step(Hover(s, HitAt(s, oracle, pos)), []);
    var s2 := moved.state.(mouseLastPos := Some(pos));
    Step(if EditMode(s.flags) then s2.(dirty := true) else s2, moved.trace)
  }

  /** A move with the button down, from `last` to `pos`: the centre moves
      against the de-scaled delta, or, were a vertex the move target, the
      host is notified. */
  function Drag(s: ViewerState, last: Point, pos: Point): (r: Step)
    requires s.scale > 0.0
    ensures r.state == s.(centre := r.state.centre, dirty := true)
    ensures s.moveTarget == Centre ==>
      ToImage(ViewOf(r.state), pos) == ToImage(ViewOf(s), last) && r.trace == []
    ensures s.moveTarget.VertexTarget? ==>
      CountNotifications(r.trace) == 1 && r.state.centre == s.centre
      && (NotifySolutionChange in r.trace <==> ActiveIsSolution(s))
  {
    match s.moveTarget
    case Centre =>
      var c := Point(s.centre.x - (pos.x - last.x) / s.scale, s.centre.y - (pos.y - last.y) / s.scale);
      PanKeepsPointedPoint(ViewOf(s), last, pos);
      Step(s.(centre := c, dirty := true), [])
    case VertexTarget(_, _) =>
      // the source writes `x`/`y` of the element itself, not of its
      // `position`, so the vertex does not move
      Step(s.(dirty := true), ChangeNotification(s))
  }

  /** Moving the centre against the pointer delta, de-scaled, keeps the image
      point under the old pointer position under the new one. */
  lemma PanKeepsPointedPoint(v: View, last: Point, pos: Point)
    requires v.scale > 0.0
    ensures var c := Point(v.centre.x - (pos.x - last.x) / v.scale, v.centre.y - (pos.y - last.y) / v.scale);
            ToImage(v.(centre := c), pos) == ToImage(v, last)
  {
    PanAxis(pos.x, last.x, v.width, v.scale, v.centre.x);
    PanAxis(pos.y, last.y, v.height, v.scale, v.centre.y);
  }

  /** One axis of the pan. */
  lemma PanAxis(q: real, last: real, size: real, scale: real, centre: real)
    requires scale > 0.0
    ensures ImageAxis(q, size, scale, centre - (q - last) / scale) == ImageAxis(last, size, scale, centre)
  {
    ImageAxisClosedForm(q, size, scale, centre - (q - last) / scale);
    ImageAxisClosedForm(last, size, scale, centre);
    assert (q - size / 2.0) / scale - (q - last) / scale == (last - size / 2.0) / scale;
  }

  /** The handler registered for `h`, applied to the event. */
  function Handle(s: ViewerState, oracle: PolygonOracle, h: Handler, ev: DomEvent): (r: Step)
    requires s.scale > 0.0
    ensures r.state.listeners == s.listeners && r.state.stopRendering == s.stopRendering
  {
    match h
    case OnMouseDown => Step(MouseDown(s, oracle, ev.button, ev.pos), [])
    case OnMouseUp => Step(MouseUp(s, ev.button), [])
    case OnMouseWheel => Wheel(s, ev.detail, ev.wheelDelta)
    case OnMouseDrag => MouseMove(s, oracle, ev.pos)
    case OnMouseClick => Click(s, oracle, ev.button, ev.pos)
  }

  /** The browser delivering an event: only to a registered listener. */
  function Deliver(s: ViewerState, oracle: PolygonOracle, ev: DomEvent): (r: Step)
    requires s.scale > 0.0
    ensures HandlerFor(s.listeners, ev.eventType).None? ==> r == Step(s, [])
    ensures HandlerFor(s.listeners, ev.eventType).Some? ==>
      r == Handle(s, oracle, HandlerFor(s.listeners, ev.eventType).value, ev)
    ensures r.state.listeners == s.listeners && r.state.stopRendering == s.stopRendering
  {
    match HandlerFor(s.listeners, ev.eventType)
    case None => Step(s, [])
    case Some(h) => Handle(s, oracle, h, ev)
  }

  /** With the registry `addEventListeners` installs, each browser event runs
      the step of the handler registered for it: presses and releases their
      button handlers, both wheel kinds the wheel zoom, moves the drag and
      hover step, clicks the click step. */
  lemma InstalledDelivery(s: ViewerState, oracle: PolygonOracle, ev: DomEvent)
    requires s.scale > 0.0 && s.listeners == AddEventListeners([])
    ensures ev.eventType == MouseDownType ==>
      Deliver(s, oracle, ev) == Step(MouseDown(s, oracle, ev.button, ev.pos), [])
    ensures ev.eventType == MouseUpType ==> Deliver(s, oracle, ev) == Step(MouseUp(s, ev.button), [])
    ensures ev.eventType == DOMMouseScrollType || ev.eventType == MouseWheelType ==>
      Deliver(s, oracle, ev) == Wheel(s, ev.detail, ev.wheelDelta)
      && Deliver(s, oracle, ev).state.scale
         == (if ev.detail < 0.0 || ev.wheelDelta > 0.0 then s.scale * (9.0 / 10.0) else s.scale * (11.0 / 10.0))
    ensures ev.eventType == MouseMoveType ==> Deliver(s, oracle, ev) == MouseMove(s, oracle, ev.pos)
    ensures ev.eventType == ClickType ==> Deliver(s, oracle, ev) == Click(s, oracle, ev.button, ev.pos)
  {
    InstalledRouting();
    match ev.eventType
    case MouseDownType => DeliverPress(s, oracle, ev);
    case MouseUpType => DeliverRelease(s, oracle, ev);
    case DOMMouseScrollType => DeliverWheel(s, oracle, ev);
    case MouseWheelType => DeliverWheel(s, oracle, ev);
    case MouseMoveType => DeliverMove(s, oracle, ev);
    case ClickType => DeliverClick(s, oracle, ev);
  }

  /** Delivery runs the registered handler's step, one handler at a time. */
  lemma DeliverPress(s: ViewerState, oracle: PolygonOracle, ev: DomEvent)
    requires s.scale > 0.0 && HandlerFor(s.listeners, ev.eventType) == Some(OnMouseDown)
    ensures Deliver(s, oracle, ev) == Step(MouseDown(s, oracle, ev.button, ev.pos), [])
  {
  }

  lemma DeliverRelease(s: ViewerState, oracle: PolygonOracle, ev: DomEvent)
    requires s.scale > 0.0 && HandlerFor(s.listeners, ev.eventType) == Some(OnMouseUp)
    ensures Deliver(s, oracle, ev) == Step(MouseUp(s, ev.button), [])
  {
  }

  lemma DeliverWheel(s: ViewerState, oracle: PolygonOracle, ev: DomEvent)
    requires s.scale > 0.0 && HandlerFor(s.listeners, ev.eventType) == Some(OnMouseWheel)
    ensures Deliver(s, oracle, ev) == Wheel(s, ev.detail, ev.wheelDelta)
  {
  }

  lemma DeliverMove(s: ViewerState, oracle: PolygonOracle, ev: DomEvent)
    requires s.scale > 0.0 && HandlerFor(s.listeners, ev.eventType) == Some(OnMouseDrag)
    ensures Deliver(s, oracle, ev) == MouseMove(s, oracle, ev.pos)
  {
  }

  lemma DeliverClick(s: ViewerState, oracle: PolygonOracle, ev: DomEvent)
    requires s.scale > 0.0 && HandlerFor(s.listeners, ev.eventType) == Some(OnMouseClick)
    ensures Deliver(s, oracle, ev) == Click(s, oracle, ev.button, ev.pos)
  {
  }
}
