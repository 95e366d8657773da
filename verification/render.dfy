/** The frame callback: the dirty-flag gate, the painter's order of a frame
    and the placement of the button overlay. */
module Rendering {
  import opened Wrappers
  import opened Geometry
  import opened Modes
  import opened Elements
  import opened Viewer

  /** The image draw: translated so that the centre lands on the canvas middle, then scaled. */
  function ImageStep(s: ViewerState): Effect
  {
    DrawImage(Point(s.canvasWidth / 2.0 - s.centre.x * s.scale, s.canvasHeight / 2.0 - s.centre.y * s.scale), s.scale)
  }

  /** The image is painted where hit testing expects it: its origin goes to
      the canvas position the forward transform gives the origin. */
  lemma ImageStepAgreesWithTransform(s: ViewerState)
    requires s.scale > 0.0
    ensures ImageStep(s).translate == ToCanvas(ViewOf(s), Point(0.0, 0.0))
    ensures ImageStep(s).scale == s.scale
  {
    CanvasAxisClosedForm(0.0, s.canvasWidth, s.scale, s.centre.x);
    CanvasAxisClosedForm(0.0, s.canvasHeight, s.scale, s.centre.y);
  }

  function SolutionSteps(s: ViewerState): seq<Effect>
  {
    if s.flags.solutionVisible && s.solution.Some? then [DrawSolution] else []
  }

  function AnnotationSteps(s: ViewerState): (r: seq<Effect>)
    ensures forall e :: e in r ==> e.DrawAnnotation?
  {
    if s.flags.annotationsVisible
    then seq(|s.annotations|, i requires 0 <= i < |s.annotations| => DrawAnnotation(i, s.annotations[i].color))
    else []
  }

  /** The frame wants the line from the active polygon's last vertex to the pointer. */
  predicate EditLineWanted(s: ViewerState)
  {
    EditMode(s.flags) && ActivePolygon(s).Some?
    && |ActivePolygon(s).value.vertices| > 0 && !ActivePolygon(s).value.closed
  }

  /** The full viewer's frame converts `mouseLastPos` for the edit line; while
      it is still null that conversion throws and the frame is abandoned. */
  predicate Faults(s: ViewerState)
  {
    s.dirty && s.variant == FullViewer && EditLineWanted(s) && s.mouseLastPos.None?
  }

  function EditLineSteps(s: ViewerState): seq<Effect>
    requires s.scale > 0.0
  {
    if EditLineWanted(s) && s.mouseLastPos.Some? then
      var vs := ActivePolygon(s).value.vertices;
      [DrawEditLine(vs[|vs| - 1], ToImage(ViewOf(s), s.mouseLastPos.value))]
    else []
  }

  function AnswerSteps(s: ViewerState): seq<Effect>
  {
    if s.flags.answerVisible && s.answer.Some? then [DrawAnswer] else []
  }

  /** `createZoomButtons`: draw both columns, recording where each button
      went, then the tooltip if there is one. */
  function Overlay(s: ViewerState): (r: Step)
    ensures forall e :: e in r.trace ==> e.DrawButton? || e.DrawTooltip?
    ensures r.state == s.(buttons := r.state.buttons, colorButtons := r.state.colorButtons)
    ensures |r.state.buttons| == |s.buttons| && |r.state.colorButtons| == |s.colorButtons|
    ensures forall i :: 0 <= i < |s.buttons| ==>
      r.state.buttons[i] == s.buttons[i].(drawPosition := Some(ButtonSlot(s.canvasWidth, s.canvasHeight, i)),
                                          drawRadius := ButtonRadius)
    ensures forall i :: 0 <= i < |s.colorButtons| ==>
      r.state.colorButtons[i] == s.colorButtons[i].(drawPosition := Some(ColorButtonSlot(s.canvasHeight, i)),
                                                    drawRadius := ButtonRadius)
  {
    var bs := seq(|s.buttons|, i requires 0 <= i < |s.buttons| =>
                  s.buttons[i].(drawPosition := Some(ButtonSlot(s.canvasWidth, s.canvasHeight, i)),
                                drawRadius := ButtonRadius));
    var cs := seq(|s.colorButtons|, i requires 0 <= i < |s.colorButtons| =>
                  s.colorButtons[i].(drawPosition := Some(ColorButtonSlot(s.canvasHeight, i)),
                                     drawRadius := ButtonRadius));
    var draws :=
      seq(|bs|, i requires 0 <= i < |bs| => DrawButton(ButtonEl(i), ButtonSlot(s.canvasWidth, s.canvasHeight, i), ButtonRadius))
      + seq(|cs|, i requires 0 <= i < |cs| => DrawButton(ColorButtonEl(i), ColorButtonSlot(s.canvasHeight, i), ButtonRadius))
      + (if s.tooltip.Some? then [DrawTooltip(s.tooltip.value)] else []);
    Step(s.(buttons := bs, colorButtons := cs), draws)
  }

  /** The overlay draws one button per button, column by column and in
      index order, each exactly where its hit test will later look for it,
      and the tooltip last. */
  lemma OverlayDrawsWhereRecorded(s: ViewerState)
    ensures var r := Overlay(s);
      |r.trace| == |s.buttons| + |s.colorButtons| + (if s.tooltip.Some? then 1 else 0)
      && (forall i :: 0 <= i < |s.buttons| ==>
            r.state.buttons[i].drawPosition.Some?
            && r.trace[i] == DrawButton(ButtonEl(i), r.state.buttons[i].drawPosition.value, r.state.buttons[i].drawRadius))
      && (forall i :: 0 <= i < |s.colorButtons| ==>
            r.state.colorButtons[i].drawPosition.Some?
            && r.trace[|s.buttons| + i]
               == DrawButton(ColorButtonEl(i), r.state.colorButtons[i].drawPosition.value, r.state.colorButtons[i].drawRadius))
      && (s.tooltip.Some? ==> r.trace[|r.trace| - 1] == DrawTooltip(s.tooltip.value))
  {
  }

  /** What follows a frame: the next one, unless rendering was stopped. */
  function Reschedule(s: ViewerState): seq<Effect>
  {
    if s.stopRendering then [] else [RequestFrame]
  }

  /** `render`, one frame. */
  function Render(s: ViewerState): (r: Step)
    requires s.scale > 0.0
    ensures !s.dirty ==> r.state == s && r.trace == Reschedule(s)
    ensures !r.state.dirty
    ensures r.state == s.(dirty := false, buttons := r.state.buttons, colorButtons := r.state.colorButtons)
    ensures s.dirty ==> |r.trace| >= 2 && r.trace[0] == ClearCanvas && r.trace[1] == ImageStep(s)
    ensures RequestFrame in r.trace <==> !s.stopRendering && !Faults(s)
    ensures RenderFault in r.trace <==> Faults(s)
  {
    if !s.dirty then Step(s, Reschedule(s))
    else
      var s1 := s.(dirty := false);
      match s.variant
      case CutViewer =>
        var ov := Overlay(s1);
        Step(ov.state, [ClearCanvas, ImageStep(s)] + ov.trace + Reschedule(s))
      case FullViewer =>
        var scene := [ClearCanvas, ImageStep(s)] + SolutionSteps(s) + AnnotationSteps(s);
        if EditLineWanted(s) && s.mouseLastPos.None? then Step(s1, scene + [RenderFault])
        else
          var ov := Overlay(s1);
          Step(ov.state, scene + EditLineSteps(s) + AnswerSteps(s) + ov.trace + Reschedule(s))
  }

  // ---- the painter's order ------------------------------------------------

  /** Paint layer of an effect: a frame paints in non-decreasing layer order. */
  function Layer(e: Effect): nat
  {
    match e
    case ClearCanvas => 0
    case DrawImage(_, _) => 1
    case DrawSolution => 2
    case DrawAnnotation(_, _) => 3
    case DrawEditLine(_, _) => 4
    case DrawAnswer => 5
    case DrawButton(_, _, _) => 6
    case DrawTooltip(_) => 7
    case RenderFault => 8
    case RequestFrame => 9
    case _ => 10
  }

  predicate Layered(t: seq<Effect>)
  {
    forall i, j :: 0 <= i < j < |t| ==> Layer(t[i]) <= Layer(t[j])
  }

  predicate AtMost(t: seq<Effect>, k: nat)
  {
    forall i :: 0 <= i < |t| ==> Layer(t[i]) <= k
  }

  predicate AtLeast(t: seq<Effect>, k: nat)
  {
    forall i :: 0 <= i < |t| ==> k <= Layer(t[i])
  }

  /** A layered block whose layers lie between `lo` and `hi`. */
  predicate Block(t: seq<Effect>, lo: nat, hi: nat)
  {
    Layered(t) && AtLeast(t, lo) && AtMost(t, hi)
  }

  /** Blocks in increasing layer ranges concatenate to a block. */
  lemma AppendBlock(a: seq<Effect>, b: seq<Effect>, lo: nat, mid: nat, hi: nat)
    requires lo <= mid <= hi
    requires Block(a, lo, mid) && Block(b, mid, hi)
    ensures Block(a + b, lo, hi)
  {
    var t := a + b;
    forall i, j | 0 <= i < j < |t| ensures Layer(t[i]) <= Layer(t[j]) {
      if j < |a| {
        assert t[i] == a[i] && t[j] == a[j];
      } else if i < |a| {
        assert t[i] == a[i] && t[j] == b[j - |a|];
      } else {
        assert t[i] == b[i - |a|] && t[j] == b[j - |a|];
      }
    }
    forall i | 0 <= i < |t| ensures lo <= Layer(t[i]) <= hi {
      if i < |a| { assert t[i] == a[i]; } else { assert t[i] == b[i - |a|]; }
    }
  }

  lemma OverlayBlock(s: ViewerState)
    ensures Block(Overlay(s).trace, 6, 7)
  {
    var t := Overlay(s).trace;
    var n := |s.buttons| + |s.colorButtons|;
    assert forall i :: 0 <= i < n ==> Layer(t[i]) == 6;
    assert forall i :: n <= i < |t| ==> Layer(t[i]) == 7;
  }

  lemma SceneBlocks(s: ViewerState)
    requires s.scale > 0.0
    ensures Block([ClearCanvas, ImageStep(s)], 0, 1)
    ensures Block(SolutionSteps(s), 2, 2)
    ensures Block(AnnotationSteps(s), 3, 3)
    ensures Block(EditLineSteps(s), 4, 4)
    ensures Block(AnswerSteps(s), 5, 5)
    ensures Block(Reschedule(s), 9, 9)
    ensures Block([RenderFault], 8, 8)
  {
    HeadBlock(s);
    AnnotationBlock(s);
    EditLineBlock(s);
    SingleBlock(SolutionSteps(s), 2);
    SingleBlock(AnswerSteps(s), 5);
    SingleBlock(Reschedule(s), 9);
    SingleBlock([RenderFault], 8);
  }

  lemma HeadBlock(s: ViewerState)
    ensures Block([ClearCanvas, ImageStep(s)], 0, 1)
  {
  }

  /** At most one effect, of layer `k`. */
  lemma SingleBlock(t: seq<Effect>, k: nat)
    requires |t| <= 1 && (|t| == 1 ==> Layer(t[0]) == k)
    ensures Block(t, k, k)
  {
  }

  lemma AnnotationBlock(s: ViewerState)
    ensures Block(AnnotationSteps(s), 3, 3)
  {
    var t := AnnotationSteps(s);
    assert forall i :: 0 <= i < |t| ==> t[i] in t && Layer(t[i]) == 3;
  }

  lemma EditLineBlock(s: ViewerState)
    requires s.scale > 0.0
    ensures Block(EditLineSteps(s), 4, 4)
  {
  }

  /** Every frame paints in the painter's order: clear, image, solution,
      annotations, edit line, answer, buttons, tooltip, then the fault or
      the reschedule. So the overlay is always topmost and the edit line is
      always under the answer. */
  lemma RenderIsLayered(s: ViewerState)
    requires s.scale > 0.0
    ensures Block(Render(s).trace, 0, 9)
  {
    SceneBlocks(s);
    if s.dirty {
      var s1 := s.(dirty := false);
      OverlayBlock(s1);
      var ov := Overlay(s1).trace;
      var head := [ClearCanvas, ImageStep(s)];
      if s.variant == CutViewer {
        AppendBlock(head, ov, 0, 1, 7);
        AppendBlock(head + ov, Reschedule(s), 0, 7, 9);
      } else {
        AppendBlock(head, SolutionSteps(s), 0, 1, 2);
        var t := head + SolutionSteps(s);
        AppendBlock(t, AnnotationSteps(s), 0, 2, 3);
        t := t + AnnotationSteps(s);
        if EditLineWanted(s) && s.mouseLastPos.None? {
          AppendBlock(t, [RenderFault], 0, 3, 8);
        } else {
          AppendBlock(t, EditLineSteps(s), 0, 3, 4);
          t := t + EditLineSteps(s);
          AppendBlock(t, AnswerSteps(s), 0, 4, 5);
          t := t + AnswerSteps(s);
          AppendBlock(t, ov, 0, 5, 7);
          t := t + ov;
          AppendBlock(t, Reschedule(s), 0, 7, 9);
        }
      }
    }
  }

  // ---- what a frame shows -----------------------------------------------

  /** The full viewer's frame draws the solution and the answer exactly when
      they are visible and present (the answer only if the frame did not fault). */
  lemma FullFrameSolutionAndAnswer(s: ViewerState)
    requires s.scale > 0.0 && s.variant == FullViewer
    ensures DrawSolution in Render(s).trace <==> s.dirty && s.flags.solutionVisible && s.solution.Some?
    ensures DrawAnswer in Render(s).trace <==> s.dirty && s.flags.answerVisible && s.answer.Some? && !Faults(s)
  {
    if s.dirty {
      var ov := Overlay(s.(dirty := false)).trace;
      assert DrawSolution !in AnnotationSteps(s) && DrawSolution !in ov && DrawSolution !in EditLineSteps(s);
      assert DrawAnswer !in AnnotationSteps(s) && DrawAnswer !in ov && DrawAnswer !in EditLineSteps(s);
    }
  }

  /** The full viewer's frame draws every annotation, with its colour, exactly
      when annotations are visible, and draws them in index order: annotation
      `i` is the `i`-th draw after the clear, the image and the solution. */
  lemma FullFrameAnnotations(s: ViewerState, i: nat)
    requires s.scale > 0.0 && s.variant == FullViewer && i < |s.annotations|
    ensures DrawAnnotation(i, s.annotations[i].color) in Render(s).trace <==> s.dirty && s.flags.annotationsVisible
    ensures s.dirty && s.flags.annotationsVisible ==>
      2 + |SolutionSteps(s)| + i < |Render(s).trace|
      && Render(s).trace[2 + |SolutionSteps(s)| + i] == DrawAnnotation(i, s.annotations[i].color)
  {
    AnnotationDrawn(s, i);
    if s.dirty && s.flags.annotationsVisible {
      AnnotationPosition(s, i);
    }
  }

  lemma AnnotationDrawn(s: ViewerState, i: nat)
    requires s.scale > 0.0 && s.variant == FullViewer && i < |s.annotations|
    ensures DrawAnnotation(i, s.annotations[i].color) in Render(s).trace <==> s.dirty && s.flags.annotationsVisible
  {
    if s.dirty {
      var ov := Overlay(s.(dirty := false)).trace;
      if s.flags.annotationsVisible {
        assert AnnotationSteps(s)[i] == DrawAnnotation(i, s.annotations[i].color);
      }
      assert DrawAnnotation(i, s.annotations[i].color) !in ov;
    }
  }

  lemma AnnotationPosition(s: ViewerState, i: nat)
    requires s.scale > 0.0 && s.variant == FullViewer && i < |s.annotations|
    requires s.dirty && s.flags.annotationsVisible
    ensures 2 + |SolutionSteps(s)| + i < |Render(s).trace|
      && Render(s).trace[2 + |SolutionSteps(s)| + i] == DrawAnnotation(i, s.annotations[i].color)
  {
    var scene := [ClearCanvas, ImageStep(s)] + SolutionSteps(s) + AnnotationSteps(s);
    FullFrameStartsWithScene(s);
    assert scene[2 + |SolutionSteps(s)| + i] == AnnotationSteps(s)[i];
  }

  /** A painting full-viewer frame, faulting or not, starts with its scene. */
  lemma FullFrameStartsWithScene(s: ViewerState)
    requires s.scale > 0.0 && s.dirty && s.variant == FullViewer
    ensures var scene := [ClearCanvas, ImageStep(s)] + SolutionSteps(s) + AnnotationSteps(s);
      |scene| <= |Render(s).trace| && forall k :: 0 <= k < |scene| ==> Render(s).trace[k] == scene[k]
  {
    var scene := [ClearCanvas, ImageStep(s)] + SolutionSteps(s) + AnnotationSteps(s);
    if Faults(s) {
      assert Render(s).trace == scene + [RenderFault];
    } else {
      PaintingFrameShape(s);
    }
  }

  /** A frame that paints and does not fault shows the current tooltip, and only it. */
  lemma FrameTooltip(s: ViewerState, text: string)
    requires s.scale > 0.0
    ensures DrawTooltip(text) in Render(s).trace <==> s.dirty && s.tooltip == Some(text) && !Faults(s)
  {
    TooltipsComeFromOverlay(s);
    OverlayTooltip(s.(dirty := false));
  }

  /** A frame's tooltip draws are exactly the overlay's, when it paints and does not fault. */
  lemma TooltipsComeFromOverlay(s: ViewerState)
    requires s.scale > 0.0
    ensures forall t :: DrawTooltip(t) in Render(s).trace <==>
      s.dirty && !Faults(s) && DrawTooltip(t) in Overlay(s.(dirty := false)).trace
  {
    var ov := Overlay(s.(dirty := false)).trace;
    LayerAbsent(Reschedule(s), 7);
    if s.dirty && s.variant == CutViewer {
      LayerAbsent([ClearCanvas, ImageStep(s)], 7);
      OnlyInMiddle([ClearCanvas, ImageStep(s)], ov, Reschedule(s), 7);
    } else if s.dirty {
      var scene := [ClearCanvas, ImageStep(s)] + SolutionSteps(s) + AnnotationSteps(s);
      SceneLayers(s);
      if Faults(s) {
        LayerAbsent([RenderFault], 7);
        OnlyInMiddle(scene, [], [RenderFault], 7);
        assert Render(s).trace == scene + [] + [RenderFault];
      } else {
        LayerAbsent(EditLineSteps(s), 7);
        LayerAbsent(AnswerSteps(s), 7);
        AppendAbsent(scene, EditLineSteps(s), 7);
        AppendAbsent(scene + EditLineSteps(s), AnswerSteps(s), 7);
        OnlyInMiddle(scene + EditLineSteps(s) + AnswerSteps(s), ov, Reschedule(s), 7);
      }
    }
  }

  /** Before the edit line, a full-viewer frame draws only layers 0 to 3. */
  lemma SceneLayers(s: ViewerState)
    requires s.scale > 0.0
    ensures forall k :: k > 3 ==> Absent([ClearCanvas, ImageStep(s)] + SolutionSteps(s) + AnnotationSteps(s), k)
  {
    var t := [ClearCanvas, ImageStep(s)] + SolutionSteps(s) + AnnotationSteps(s);
    assert forall e :: e in AnnotationSteps(s) ==> e.DrawAnnotation?;
    assert forall i :: 0 <= i < |t| ==> t[i] in t && Layer(t[i]) <= 3;
  }

  /** No effect of layer `k` in `t`. */
  predicate Absent(t: seq<Effect>, k: nat)
  {
    forall i :: 0 <= i < |t| ==> Layer(t[i]) != k
  }

  lemma LayerAbsent(t: seq<Effect>, k: nat)
    requires forall e :: e in t ==> Layer(e) != k
    ensures Absent(t, k)
  {
    assert forall i :: 0 <= i < |t| ==> t[i] in t;
  }

  lemma AppendAbsent(a: seq<Effect>, b: seq<Effect>, k: nat)
    requires Absent(a, k) && Absent(b, k)
    ensures Absent(a + b, k)
  {
    forall i | 0 <= i < |a + b| ensures Layer((a + b)[i]) != k {
      if i < |a| { assert (a + b)[i] == a[i]; } else { assert (a + b)[i] == b[i - |a|]; }
    }
  }

  /** Around a middle part, parts without layer `k` add no effect of that layer. */
  lemma OnlyInMiddle(a: seq<Effect>, m: seq<Effect>, b: seq<Effect>, k: nat)
    requires Absent(a, k) && Absent(b, k)
    ensures forall e :: Layer(e) == k ==> (e in a + m + b <==> e in m)
  {
    forall e | Layer(e) == k && e in a + m + b ensures e in m {
      var j :| 0 <= j < |a + m + b| && (a + m + b)[j] == e;
      if j < |a| || j >= |a| + |m| {
        assert false;
      }
      assert m[j - |a|] == e;
    }
  }

  lemma OverlayTooltip(s: ViewerState)
    ensures forall t :: DrawTooltip(t) in Overlay(s).trace <==> s.tooltip == Some(t)
  {
    var ov := Overlay(s).trace;
    var n := |s.buttons| + |s.colorButtons|;
    assert forall i :: 0 <= i < n ==> ov[i].DrawButton?;
    if s.tooltip.Some? {
      assert ov[n] == DrawTooltip(s.tooltip.value);
    }
  }

  /** The cut-down viewer's frame paints nothing but the clear, the image and the overlay. */
  lemma CutFrameContents(s: ViewerState)
    requires s.scale > 0.0 && s.variant == CutViewer
    ensures forall e :: e in Render(s).trace ==>
      e.ClearCanvas? || e.DrawImage? || e.DrawButton? || e.DrawTooltip? || e.RequestFrame?
    ensures !Faults(s)
  {
    var ov := Overlay(s.(dirty := false)).trace;
    assert forall e :: e in ov ==> e.DrawButton? || e.DrawTooltip?;
  }

  /** A painting frame of the cut-down viewer is the clear, the image, the
      overlay and the reschedule, in that order, and leaves the overlay's
      recorded positions behind. */
  lemma CutFrameShape(s: ViewerState)
    requires s.scale > 0.0 && s.variant == CutViewer && s.dirty
    ensures Render(s).trace == [ClearCanvas, ImageStep(s)] + Overlay(s.(dirty := false)).trace + Reschedule(s)
    ensures Render(s).state == Overlay(s.(dirty := false)).state
  {
  }

  /** In the cut-down viewer's painting frame, the buttons follow the image
      directly: zoom button `i` is step `2 + i` and colour button `i` comes
      after all zoom buttons, each in its column slot with the fixed radius. */
  lemma CutFrameButtons(s: ViewerState)
    requires s.scale > 0.0 && s.variant == CutViewer && s.dirty
    ensures forall i :: 0 <= i < |s.buttons| ==>
      Render(s).trace[2 + i] == DrawButton(ButtonEl(i), ButtonSlot(s.canvasWidth, s.canvasHeight, i), ButtonRadius)
    ensures forall i :: 0 <= i < |s.colorButtons| ==>
      Render(s).trace[2 + |s.buttons| + i]
      == DrawButton(ColorButtonEl(i), ColorButtonSlot(s.canvasHeight, i), ButtonRadius)
  {
    CutFrameShape(s);
    OverlayDrawsWhereRecorded(s.(dirty := false));
  }

  /** Every frame that paints, in either viewer, draws every zoom and colour
      button in its column slot with the fixed radius. */
  lemma FrameDrawsEveryButton(s: ViewerState)
    requires s.scale > 0.0 && s.dirty && !Faults(s)
    ensures forall i :: 0 <= i < |s.buttons| ==>
      DrawButton(ButtonEl(i), ButtonSlot(s.canvasWidth, s.canvasHeight, i), ButtonRadius) in Render(s).trace
    ensures forall i :: 0 <= i < |s.colorButtons| ==>
      DrawButton(ColorButtonEl(i), ColorButtonSlot(s.canvasHeight, i), ButtonRadius) in Render(s).trace
  {
    if s.variant == CutViewer {
      CutFrameShape(s);
      OverlayInside(s.(dirty := false), [ClearCanvas, ImageStep(s)], Reschedule(s));
    } else {
      PaintingFrameShape(s);
      var pre := [ClearCanvas, ImageStep(s)] + SolutionSteps(s) + AnnotationSteps(s) + EditLineSteps(s) + AnswerSteps(s);
      OverlayInside(s.(dirty := false), pre, Reschedule(s));
    }
  }

  /** Whatever surrounds the overlay, the buttons it draws are in the whole. */
  lemma OverlayInside(s: ViewerState, pre: seq<Effect>, post: seq<Effect>)
    ensures var t := pre + Overlay(s).trace + post;
      (forall i :: 0 <= i < |s.buttons| ==>
        DrawButton(ButtonEl(i), ButtonSlot(s.canvasWidth, s.canvasHeight, i), ButtonRadius) in t)
      && (forall i :: 0 <= i < |s.colorButtons| ==>
        DrawButton(ColorButtonEl(i), ColorButtonSlot(s.canvasHeight, i), ButtonRadius) in t)
  {
    var ov := Overlay(s).trace;
    var t := pre + ov + post;
    OverlayDrawsWhereRecorded(s);
    forall i | 0 <= i < |s.buttons|
      ensures DrawButton(ButtonEl(i), ButtonSlot(s.canvasWidth, s.canvasHeight, i), ButtonRadius) in t
    {
      assert t[|pre| + i] == ov[i];
    }
    forall i | 0 <= i < |s.colorButtons|
      ensures DrawButton(ColorButtonEl(i), ColorButtonSlot(s.canvasHeight, i), ButtonRadius) in t
    {
      assert t[|pre| + |s.buttons| + i] == ov[|s.buttons| + i];
    }
  }

  /** A frame that paints puts every button in its column slot with the fixed radius. */
  lemma RenderPlacesButtons(s: ViewerState)
    requires s.scale > 0.0 && s.dirty && !Faults(s)
    ensures forall i :: 0 <= i < |s.buttons| ==>
      Render(s).state.buttons[i].drawPosition == Some(ButtonSlot(s.canvasWidth, s.canvasHeight, i))
      && Render(s).state.buttons[i].drawRadius == ButtonRadius
    ensures forall i :: 0 <= i < |s.colorButtons| ==>
      Render(s).state.colorButtons[i].drawPosition == Some(ColorButtonSlot(s.canvasHeight, i))
      && Render(s).state.colorButtons[i].drawRadius == ButtonRadius
  {
  }

  /** An edit line is drawn only when the full viewer paints a frame in edit
      mode with an open, non-empty active polygon and a known pointer; it
      runs from that polygon's last vertex to the image point under the last
      pointer position. */
  lemma EditLineFollowsPointer(s: ViewerState)
    requires s.scale > 0.0
    ensures forall e :: e in Render(s).trace && e.DrawEditLine? ==>
      s.dirty && s.variant == FullViewer && EditLineWanted(s) && s.mouseLastPos.Some?
      && e.from == ActivePolygon(s).value.vertices[|ActivePolygon(s).value.vertices| - 1]
      && e.to == ToImage(ViewOf(s), s.mouseLastPos.value)
      && ToCanvas(ViewOf(s), e.to) == s.mouseLastPos.value
  {
    EditLinesComeFromSteps(s);
    if EditLineWanted(s) && s.mouseLastPos.Some? {
      CanvasImageCanvas(ViewOf(s), s.mouseLastPos.value);
    }
  }

  /** The only edit lines in a frame are those of `EditLineSteps`, and only
      the full viewer paints them. */
  lemma EditLinesComeFromSteps(s: ViewerState)
    requires s.scale > 0.0
    ensures forall e :: e in Render(s).trace && e.DrawEditLine? ==>
      s.dirty && s.variant == FullViewer && e in EditLineSteps(s)
  {
    if s.dirty && s.variant == FullViewer && !Faults(s) {
      PaintingFrameEditLines(s);
    } else {
      EditLinelessFrame(s);
    }
  }

  lemma PaintingFrameEditLines(s: ViewerState)
    requires s.scale > 0.0 && s.dirty && s.variant == FullViewer && !Faults(s)
    ensures forall e :: e in Render(s).trace && e.DrawEditLine? ==> e in EditLineSteps(s)
  {
    PaintingFrameSplits(s);
    var scene := [ClearCanvas, ImageStep(s)] + SolutionSteps(s) + AnnotationSteps(s);
    var rest := AnswerSteps(s) + Overlay(s.(dirty := false)).trace + Reschedule(s);
    OnlyInMiddle(scene, EditLineSteps(s), rest, 4);
    forall e | e in Render(s).trace && e.DrawEditLine? ensures e in EditLineSteps(s) {
      assert Layer(e) == 4;
    }
  }

  /** A painting full-viewer frame is the scene, the edit-line step, and a
      rest in which no edit line occurs. */
  lemma PaintingFrameSplits(s: ViewerState)
    requires s.scale > 0.0 && s.dirty && s.variant == FullViewer && !Faults(s)
    ensures var scene := [ClearCanvas, ImageStep(s)] + SolutionSteps(s) + AnnotationSteps(s);
      var rest := AnswerSteps(s) + Overlay(s.(dirty := false)).trace + Reschedule(s);
      Render(s).trace == scene + EditLineSteps(s) + rest && Absent(scene, 4) && Absent(rest, 4)
  {
    PaintingFrameShape(s);
    SceneLayers(s);
    RestLayers(s);
  }

  lemma PaintingFrameShape(s: ViewerState)
    requires s.scale > 0.0 && s.dirty && s.variant == FullViewer && !Faults(s)
    ensures var scene := [ClearCanvas, ImageStep(s)] + SolutionSteps(s) + AnnotationSteps(s);
      var rest := AnswerSteps(s) + Overlay(s.(dirty := false)).trace + Reschedule(s);
      Render(s).trace == scene + EditLineSteps(s) + rest
  {
  }

  /** After the edit line, a frame draws only layers 5 and up. */
  lemma RestLayers(s: ViewerState)
    ensures Absent(AnswerSteps(s) + Overlay(s.(dirty := false)).trace + Reschedule(s), 4)
  {
    var ov := Overlay(s.(dirty := false)).trace;
    OverlayLayers(s.(dirty := false));
    LayerAbsent(AnswerSteps(s), 4);
    LayerAbsent(Reschedule(s), 4);
    AppendAbsent(AnswerSteps(s), ov, 4);
    AppendAbsent(AnswerSteps(s) + ov, Reschedule(s), 4);
  }

  lemma OverlayLayers(s: ViewerState)
    ensures Absent(Overlay(s).trace, 4)
  {
    var ov := Overlay(s).trace;
    assert forall e :: e in ov ==> e.DrawButton? || e.DrawTooltip?;
    LayerAbsent(ov, 4);
  }

  /** A frame that does not reach the edit-line step draws no edit line. */
  lemma EditLinelessFrame(s: ViewerState)
    requires s.scale > 0.0 && !(s.dirty && s.variant == FullViewer && !Faults(s))
    ensures forall e :: e in Render(s).trace ==> !e.DrawEditLine?
  {
    if s.dirty {
      var ov := Overlay(s.(dirty := false)).trace;
      assert forall e :: e in ov ==> e.DrawButton? || e.DrawTooltip?;
      if s.variant == FullViewer {
        assert forall e :: e in AnnotationSteps(s) ==> e.DrawAnnotation?;
      }
    }
  }

  /** Conversely, such a frame does draw that edit line. */
  lemma EditLineDrawnWhenWanted(s: ViewerState)
    requires s.scale > 0.0
    requires s.dirty && s.variant == FullViewer && EditLineWanted(s) && s.mouseLastPos.Some?
    ensures var vs := ActivePolygon(s).value.vertices;
      DrawEditLine(vs[|vs| - 1], ToImage(ViewOf(s), s.mouseLastPos.value)) in Render(s).trace
  {
    var vs := ActivePolygon(s).value.vertices;
    var scene := [ClearCanvas, ImageStep(s)] + SolutionSteps(s) + AnnotationSteps(s);
    assert Render(s).trace[|scene|] == EditLineSteps(s)[0];
  }

  /** Two frames with nothing in between: the second paints nothing. */
  lemma SecondFrameIsIdle(s: ViewerState)
    requires s.scale > 0.0
    ensures Render(Render(s).state) == Step(Render(s).state, Reschedule(s))
  {
  }
}
