# image-zoom-vue: the canvas image viewer and the counter store

This project models the logic of the `ImageViewer` canvas engine of
image-zoom-vue and of its Pinia `counter` store as pure state machines.

The engine exists twice. `src/utils/ImageViewer.js` is the full viewer.
`src/utils/ImageViewer.ts` is a cut-down copy whose frame paints only the
image and the buttons, and whose vertex-drag branch does not clean up the
annotations. Both are the same `ViewerState` here. A `Variant` field
(`FullViewer` or `CutViewer`) selects the two differences.

A viewer is an immutable record of what the constructor closure keeps:
- the canvas size, the mode flags, the scale and the centre;
- the listener registry, the buttons and the tooltip;
- the pointer state: button down, move target and last position;
- the focus and the active polygon.

Every event is a pure function from a state to a `Step`: the new state plus
a trace of `Effect`s, in the order the source performs them. The events are:
- mouse down, up and move, click and wheel (`Input`);
- an animation frame (`Rendering.Render`);
- the image finishing loading, and the public `zoomIn`, `zoomOut`,
  `refresh` and `dispose` calls (`Lifecycle`).

The effects are the draw calls of a frame, frame scheduling, host
notifications, `preventDefault`, alerts and listener removal.
`Lifecycle.Run` folds any sequence of such stimuli from a constructed
viewer.

Modules, in dependency order:
- `Wrappers`: the option type standing for JavaScript's `null`.
- `Scan`: the first-match scan and the `filter(...)[0]` idiom.
- `Geometry`: image/canvas transforms, the fit-to-canvas scale and the zoom steps.
- `Modes`: the `mode` option and its six flags.
- `Elements`: buttons, vertices, polygons, their bounds tests and the overlay layout.
- `Viewer`: the state, the listener registry and hit testing.
- `Input`: the pointer and wheel handlers.
- `Rendering`: the frame callback.
- `Lifecycle`: construction, image load, the public calls and whole runs.
- `CounterStore`: the counter store.

Two behaviours of the code that a reader might not expect, both kept:
- For an 800 x 600 canvas and a 400 x 300 image, the ratios are equal. The
  fit test compares with `<=`, so the height arm is taken and the scale is 2
  (`Geometry.FitBoundaryTakesHeightArm`).
- Dragging a vertex adds the delta to `x`/`y` of the element itself, not to
  its `position`, so the vertex stays put and only the host notification
  happens. In any case the drag target is only ever the centre
  (`Lifecycle.ReachableInvariant`).

Other behaviour of the code that the model keeps:
- `refresh` sets `dirty` on the instance, not the flag the frame tests, so it
  never makes a frame paint (`Lifecycle.RefreshDoesNotArmRender`).
- No element's `onMouseDown` reports a press as handled, so every primary
  press starts a drag (`Input.MouseDown`).
- `typeof null` is `"object"`, so a `null` options argument passes the guard,
  and reading its `mode` throws: `Lifecycle.Create` returns `None`.
- Suppose an open polygon is active in an edit mode while the pointer has
  never moved over the canvas. The full viewer's frame then converts a
  `null` position for the edit line and throws. The frame is abandoned and
  the render loop is not rescheduled (`Rendering.Faults`,
  `Lifecycle.ClickBeforeFirstMoveKillsRenderLoop`).

## Model

Rows cite the full viewer. The same members model the cut-down copy's
counterparts in `src/utils/ImageViewer.ts`:
- the transforms, at lines 97-130 and 284-298;
- the fit on image load, at 252-272;
- zoom, at 274-282, and the wheel, at 375-385;
- hit testing, at 300-340 and 434-439, and the layout, at 159-179;
- press, release and click, at 342-373;
- move, at 387-432;
- the frame, at 209-234;
- the registry and dispose, at 491-533.

| member | source | states |
|---|---|---|
| Geometry.ImageAxisClosedForm | src/utils/ImageViewer.js:254-287 | both arms of the visible-part split give the centre plus the pixel's offset from the canvas middle divided by the scale |
| Geometry.CanvasAxisClosedForm | src/utils/ImageViewer.js:289-303 | the forward transform scales the offset from the centre and moves it to the canvas middle |
| Geometry.ToCanvas | src/utils/ImageViewer.js:289-303 | a point's offset from the middle of the canvas is its offset from the centre, multiplied by the scale |
| Geometry.ToImage | src/utils/ImageViewer.js:254-287 | the image point found for a pixel is one that the forward transform draws at that pixel |
| Geometry.CanvasImageCanvas | src/utils/ImageViewer.js:254-303 | for a positive scale, canvas to image to canvas is the identity |
| Geometry.ImageCanvasImage | src/utils/ImageViewer.js:254-303 | for a positive scale, image to canvas to image is the identity |
| Geometry.AxisRoundTrip | src/utils/ImageViewer.js:254-303 | per axis, canvas to image to canvas is the identity |
| Geometry.AxisRoundTrip' | src/utils/ImageViewer.js:254-303 | per axis, image to canvas to image is the identity |
| Geometry.CentreAtCanvasMiddle | src/utils/ImageViewer.js:289-303 | the centre is shown at the middle of the canvas |
| Geometry.FitScale | src/utils/ImageViewer.js:84-91 | the fitted scale is positive for every canvas and image |
| Geometry.FitFillsCanvas | src/utils/ImageViewer.js:84-91 | either the image exactly fills the height and fits the width, or the width binds and the image overshoots it by 0.3 of its width; the fitted image fits the width exactly when the height ratio does |
| Geometry.FitBoundaryTakesHeightArm | src/utils/ImageViewer.js:84-91 | an 800 x 600 canvas with a 400 x 300 image gets scale 2: equality takes the height arm |
| Geometry.ZoomDirections | src/utils/ImageViewer.js:104-112 | zooming in grows a positive scale, zooming out shrinks it and keeps it positive |
| Geometry.ZoomStepsDoNotCancel | src/utils/ImageViewer.js:104-112 | in-then-out and out-then-in both leave 99/100 of the scale, never the scale itself |
| Modes.SanitizeMode | src/utils/ImageViewer.js:7 | a non-string mode becomes the empty mode; a string is kept |
| Modes.FlagsFor | src/utils/ImageViewer.js:48-56 | each editable flag implies its visible flag; showSolution shows solution and answer and edits nothing; showAnnotations shows only annotations |
| Modes.ParseModeName | src/utils/ImageViewer.js:48-56 | the five recognised mode names are distinct and name their modes |
| Modes.FlagsFollowMatrix | src/utils/ImageViewer.js:48-56 | for every string the flags are the row of the visibility matrix, so an unknown or empty mode switches all six flags off |
| Modes.AtMostOneEditable | src/utils/ImageViewer.js:48-56 | no mode makes two features editable |
| Elements.NewButton | src/utils/ImageViewer.js:499-535 | a new button is undrawn with the alerting default action, and an empty tooltip becomes none |
| Elements.ButtonWithinBounds | src/utils/ImageViewer.js:537-542 | an undrawn button is never hit; a drawn one is hit exactly on the closed disk of its recorded radius |
| Elements.VertexHandleInImageSpace | src/utils/ImageViewer.js:332-341 | a vertex is hit exactly when the pointer's image point is within half the 12-pixel handle, divided by the scale, on both axes |
| Elements.VertexWithinBounds | src/utils/ImageViewer.js:332-341 | the pointer exactly on the vertex's drawn position is within its handle |
| Elements.VertexEquals | src/utils/ImageViewer.js:326-331 | two vertices are equal exactly when their positions agree in both coordinates, that is, when they are the same point |
| Elements.StackedDisksDisjoint | src/utils/ImageViewer.js:176-196 | two button disks stacked more than a diameter apart share no point |
| Elements.ColumnSlotsDisjoint | src/utils/ImageViewer.js:176-196 | no point is on two buttons of the same column, in either column, because the 50-pixel gap exceeds the 40-pixel diameter |
| Scan.FirstMatch | src/utils/ImageViewer.js:394-404 | the index found is of a matching element with no match before it; none is found exactly when nothing matches |
| Scan.HeadOfFilterIsFirstMatch | src/utils/ImageViewer.js:400-403 | taking the head of the filtered list finds the same element as the first-match scan |
| Viewer.ZoomIn | src/utils/ImageViewer.js:104-107 | only the scale and the dirty flag change; the dirty flag is set and a positive scale grows |
| Viewer.ZoomOut | src/utils/ImageViewer.js:109-112 | only the scale and the dirty flag change; the dirty flag is set and a positive scale shrinks but stays positive |
| Viewer.AddListener | src/utils/ImageViewer.js:595-602 | the registry keeps its entries and gains the new listener at its end |
| Viewer.HandlerFor | src/utils/ImageViewer.js:618-632 | an event type reaches no handler exactly when no listener is registered for it |
| Viewer.HandlerIsFirst | src/utils/ImageViewer.js:618-632 | a listener receives its event type when no earlier listener has that type |
| Viewer.InstalledListeners | src/utils/ImageViewer.js:618-632 | installation records exactly the six listeners, with their targets, types and handlers, in order |
| Viewer.InstalledRouting | src/utils/ImageViewer.js:618-632 | presses and releases go to their handlers, both wheel event kinds to the wheel handler, moves to the drag handler and clicks to the click handler |
| Viewer.SixDistinctListeners | src/utils/ImageViewer.js:618-632 | six listeners are registered and no event type is registered twice |
| Viewer.UIElements | src/utils/ImageViewer.js:364-392 | the candidates are, in this order and each group in index order: the buttons, the colour buttons, the active polygon's vertices (only in an edit mode, all of them), the annotation polygons, and last the solution exactly when it exists |
| Viewer.ElementAt | src/utils/ImageViewer.js:364-392 | every candidate before the annotation polygons is a button, colour button or vertex; the ones after them are annotation i in order, then the solution |
| Viewer.HitAt | src/utils/ImageViewer.js:364-404 | the element found is a candidate under the pointer and no earlier candidate is under the pointer; nothing is found exactly when no candidate is under the pointer |
| Viewer.VertexBeatsPolygon | src/utils/ImageViewer.js:371-404 | when a vertex handle is under the pointer, hit testing finds something that is not a polygon: vertex handles are tested before every polygon |
| Viewer.ButtonBeatsEverything | src/utils/ImageViewer.js:364-404 | when a drawn button is under the pointer, a button (that one or an earlier one) is found, never a vertex or polygon |
| Viewer.HitAtIsHeadOfFilter | src/utils/ImageViewer.js:394-404 | hit testing by first match agrees with filtering all candidates and taking the first |
| Viewer.VerticesOnlyWhileEditing | src/utils/ImageViewer.js:371-379 | vertex candidates exist only in an edit mode, and belong to the active polygon |
| Input.MouseDown | src/utils/ImageViewer.js:406-415 | every primary press starts a drag and changes nothing else; other buttons change nothing |
| Input.MouseUp | src/utils/ImageViewer.js:417-423 | a primary release ends the drag and resets the move target to the centre; nothing else changes; other buttons change nothing |
| Input.ButtonClick | src/utils/ImageViewer.js:658-667 | a zoom button's click consumes the event, the default action alerts and bubbles; only the scale and the dirty flag change and a positive scale stays positive |
| Input.ClickHook | src/utils/ImageViewer.js:353-667 | the zoom-in button zooms in and the zoom-out button zooms out, both without effects and consuming the click; a button with the default action alerts and bubbles, changing nothing; zoom buttons change only the scale; in an edit mode a polygon becomes the active one, marks the view dirty and consumes the click, otherwise it bubbles; vertices bubble; the only effect is the default button's alert |
| Input.Click | src/utils/ImageViewer.js:425-437 | a primary click on a zoom button zooms in or out accordingly, on a default-action button it alerts and changes nothing; non-primary clicks and clicks on nothing change nothing; the active polygon changes only to the polygon clicked in an edit mode; the scale changes only by clicking a button |
| Input.Wheel | src/utils/ImageViewer.js:439-449 | scrolling is prevented; when detail is negative or wheelDelta is positive the scale becomes 9/10 of itself (the zoom-out step), otherwise 11/10 (the zoom-in step); only the scale and the dirty flag change |
| Input.WheelUpThenDown | src/utils/ImageViewer.js:439-449 | a wheel step up and one down, in either order, leave 99/100 of the scale, not the scale itself |
| Input.ChangeNotification | src/utils/ImageViewer.js:467-472 | a vertex drag notifies the host exactly once, about the solution exactly when the active polygon is the solution; the annotations are cleaned up first exactly in the full viewer when the active polygon is not the solution (the cut-down copy, at src/utils/ImageViewer.ts:403-408, skips the clean-up) |
| Input.MouseMove | src/utils/ImageViewer.js:451-497 | a drag keeps the image point under the pointer; a vertex drag notifies exactly once; hovering adopts the tooltip and focus of the element under the pointer, or clears both over nothing; the view is dirty exactly when the tooltip changed or an edit mode is on; the position is always recorded |
| Input.Drag | src/utils/ImageViewer.js:460-474 | with the button down, only the centre changes and the view is marked dirty; a pan keeps the image point under the pointer; a vertex target notifies the host exactly once, about the solution exactly when it is active |
| Input.Hover | src/utils/ImageViewer.js:475-494 | without the button down, the element under the pointer gives its tooltip (if it has the field) and the focus; over nothing both are cleared; the view is dirty exactly when it was or the tooltip changed |
| Input.PanKeepsPointedPoint | src/utils/ImageViewer.js:457-463 | moving the centre against the de-scaled pointer delta keeps the image point under the old pointer position under the new one |
| Input.Handle | src/utils/ImageViewer.js:406-449 | no handler touches the listener registry or the render-stop flag (which step each handler runs is stated by `Input.InstalledDelivery`) |
| Input.Deliver | src/utils/ImageViewer.js:618-632 | an event type without a listener does nothing; one with a listener runs the handler of the first listener registered for its type; delivery never touches the registry or the render-stop flag |
| Input.InstalledDelivery | src/utils/ImageViewer.js:618-632 | with the installed registry, a press runs the press step, a release the release step, both wheel kinds the wheel step (9/10 or 11/10 of the scale), a move the drag-and-hover step and a click the click step |
| Rendering.ImageStepAgreesWithTransform | src/utils/ImageViewer.js:124-133 | the image is drawn with its origin where the forward transform puts it, at the current scale |
| Rendering.Overlay | src/utils/ImageViewer.js:176-196 | each button is recorded at its column slot with radius 20; nothing else changes |
| Rendering.Render | src/utils/ImageViewer.js:114-174 | a clean frame paints nothing; a dirty one clears the flag and starts with the clear and the image draw; the next frame is requested exactly when rendering is not stopped and the frame did not throw |
| Rendering.RenderIsLayered | src/utils/ImageViewer.js:114-174 | every frame paints in order: clear, image, solution, annotations, edit line, answer, buttons, tooltip, then the fault or the reschedule |
| Rendering.FullFrameSolutionAndAnswer | src/utils/ImageViewer.js:135-168 | the solution is drawn exactly when visible and present, the answer exactly when visible and present and the frame did not throw |
| Rendering.FullFrameAnnotations | src/utils/ImageViewer.js:140-145 | every annotation is drawn with its colour exactly when annotations are visible, and annotation i is the i-th draw after the clear, the image and the solution, so annotations are drawn in index order |
| Rendering.FrameTooltip | src/utils/ImageViewer.js:198-224 | a painting frame draws the current tooltip and no other |
| Rendering.OverlayTooltip | src/utils/ImageViewer.js:198-199 | the overlay draws a tooltip exactly when there is one |
| Rendering.CutFrameContents | src/utils/ImageViewer.ts:209-234 | the cut-down frame draws only the clear, the image, the buttons and the tooltip, and never throws |
| Rendering.CutFrameShape | src/utils/ImageViewer.ts:209-234 | a painting cut-down frame is exactly the clear, the image draw, the overlay's steps and the reschedule, and keeps the overlay's recorded positions |
| Rendering.CutFrameButtons | src/utils/ImageViewer.ts:209-234 | in a painting cut-down frame, zoom button i is draw step 2 + i and the colour buttons follow, each in its column slot with radius 20 |
| Rendering.FrameDrawsEveryButton | src/utils/ImageViewer.js:169-196 | every painting frame of either viewer draws every zoom and colour button in its column slot with radius 20 |
| Rendering.RenderPlacesButtons | src/utils/ImageViewer.js:544-546 | a painting frame records every button at its column slot with radius 20 |
| Rendering.EditLineFollowsPointer | src/utils/ImageViewer.js:147-163 | an edit line is drawn only by a painting full-viewer frame in an edit mode with an open, non-empty active polygon and a known pointer; it starts at that polygon's last vertex and ends at the image point the pointer is over |
| Rendering.EditLinesComeFromSteps | src/utils/ImageViewer.js:147-163 | only the full viewer's painting frames draw an edit line, and only the one the edit-line step computes |
| Rendering.EditLineDrawnWhenWanted | src/utils/ImageViewer.js:147-163 | a painting full-viewer frame in an edit mode, with an open non-empty active polygon and a known pointer, draws the line from its last vertex to the image point under the pointer |
| Rendering.OverlayDrawsWhereRecorded | src/utils/ImageViewer.js:176-199 | the overlay draws one button per button, column by column in index order, each at the position and radius recorded for its hit test, and the tooltip last |
| Rendering.SecondFrameIsIdle | src/utils/ImageViewer.js:114-117 | a second frame with nothing in between paints nothing |
| Lifecycle.Create | src/utils/ImageViewer.js:1-671 | construction fails exactly for null options; otherwise the viewer starts dirty at scale 1 centred on the origin, with the six listeners, the two undrawn zoom buttons "Zoom out" and "Zoom in", no pointer state and the flags of the sanitised mode, and keeps an object answer only; a non-object options argument imports no solution and no annotations |
| Lifecycle.ImageLoad | src/utils/ImageViewer.js:82-102 | loading sets the fitted scale, centres the image and paints a frame that leaves the view clean; nothing else changes but the recorded button positions; the next frame is requested exactly when rendering is not stopped and the frame did not throw |
| Lifecycle.LoadedImageIsCentred | src/utils/ImageViewer.js:93-95 | after loading, the middle of the image is at the middle of the canvas |
| Lifecycle.Dispose | src/utils/ImageViewer.js:604-637 | every registered listener is removed in order, the registry empties and rendering stops; nothing else changes |
| Lifecycle.DisposeIdempotent | src/utils/ImageViewer.js:604-637 | a second dispose removes nothing and changes nothing |
| Lifecycle.DisposedViewerIsInert | src/utils/ImageViewer.js:604-637 | after dispose no event reaches a handler and no frame requests another |
| Lifecycle.Refresh | src/utils/ImageViewer.js:639-641 | refresh sets only the instance's own dirty property, not the frame's flag |
| Lifecycle.RefreshDoesNotArmRender | src/utils/ImageViewer.js:639-641 | after refreshing a clean viewer, once or twice, the next frame paints nothing |
| Lifecycle.ZoomInThenOut | src/utils/ImageViewer.js:104-112 | zooming in then out leaves 99/100 of the scale and a dirty view, nothing else changed |
| Lifecycle.ClickKeepsInv | src/utils/ImageViewer.js:353-361 | a click keeps the scale positive, the move target at the centre and the active polygon existing |
| Lifecycle.DeliverKeepsInv | src/utils/ImageViewer.js:406-497 | every delivered event keeps the invariant and never notifies the host |
| Lifecycle.FrameKeepsInv | src/utils/ImageViewer.js:114-174 | a frame keeps the invariant and never notifies the host |
| Lifecycle.LoadKeepsInv | src/utils/ImageViewer.js:82-102 | loading keeps the invariant and never notifies the host |
| Lifecycle.ApplyKeepsInv | src/utils/ImageViewer.js:82-641 | every stimulus, including the public zoom, refresh and dispose calls, keeps the invariant and never notifies the host |
| Lifecycle.Run | src/utils/ImageViewer.js:82-641 | any run from a state satisfying the invariant keeps it, and no step notifies the host |
| Lifecycle.ReachableInvariant | src/utils/ImageViewer.js:38 | from construction on, whatever happens, the drag target is the centre and the scale is positive, so the host is never notified of a change |
| Lifecycle.ClickBeforeFirstMoveKillsRenderLoop | src/utils/ImageViewer.js:147-173 | clicking an open solution in solution-edit mode before any pointer move makes the next frame throw and stop rescheduling |
| CounterStore.Initial | src/stores/counter.ts:5-7 | the counter starts at 0 |
| CounterStore.DecreaseCounter | src/stores/counter.ts:21-27 | a positive counter goes down without an alert; at 0 or below it is unchanged and the user is alerted with the refusal message |
| CounterStore.OddOrEven | src/stores/counter.ts:9-15 | the getter says "even" exactly for even counters and "odd" exactly for odd ones, negative ones included |
| CounterStore.DecreaseUndoesIncrease | src/stores/counter.ts:18-27 | decreasing after increasing restores the store without an alert exactly when the counter was not negative |
| CounterStore.IncreaseUndoesDecrease | src/stores/counter.ts:18-27 | increasing after a successful decrease restores the store |
| CounterStore.ActionsKeepNonNegative | src/stores/counter.ts:18-27 | neither action makes a non-negative counter negative |
| CounterStore.IncreaseFlipsParity | src/stores/counter.ts:9-20 | increasing adds exactly one and always flips the getter's answer |
| CounterStore.RunActions | src/stores/counter.ts:18-27 | any sequence of actions keeps a non-negative counter non-negative and raises it by at most one per action |

## Left out

- Painting itself is not modelled: `Button.draw`'s canvas calls, the icon font, the rounded tooltip rectangle and its text metrics. A frame is the ordered list of its draw steps; a button keeps only the position and radius its draw records.
- The DOM and the browser are parameters: the canvas element, `requestAnimationFrame`, image loading and `alert`. Pointer positions are given relative to the canvas, so `getBoundingClientRect` is not modelled. A wheel field the browser leaves undefined is taken as 0, which compares the same way.
- Delivery through the listener registry hands an event to the first listener of its type; registering the same type twice, which the viewer never does, is not modelled further.
- The polygon and import/export routines are not part of this model: `importSolution`, `exportSolution`, `importAnnotations`, `exportAnnotations`, `getVertices`, `getLength`, `isClosed`, `getLastVertex`, `drawPolygon`, `drawLine`, `drawAnswer` and `cleanupAnnotations`. A polygon is its vertex list and a closed flag. `Polygon.isWithinBounds` is an oracle argument. The constructor takes the imported solution and annotations as inputs.
- The cut-down copy defines neither `Vertex` nor `Polygon`. The model gives its vertices and polygons the full viewer's behaviour.
- `onSolutionChange` and `onAnnotationChange` are host callbacks. They appear only as notification effects.
- Arithmetic is exact `real`, not IEEE doubles. No rounding result is claimed.
- Canvas and image sizes are strictly positive (`PosReal`). A zero-size image or canvas divides by zero in the source and is not modelled.
- `src/main.ts` is Vue, Pinia and viewer bootstrap and is not part of this model. Neither is Pinia's reactivity.
- CounterStore.RunActions: counts are unbounded integers, so the loss of precision of a JavaScript number beyond 2^53 is not modelled.
- Rendering.Render: its own contract fixes only the first two draw steps, the scheduling and the fault. The layer order is stated by `Rendering.RenderIsLayered`. What is drawn is stated by the frame-content lemmas: `FullFrameSolutionAndAnswer`, `FullFrameAnnotations`, `EditLineFollowsPointer`, `EditLineDrawnWhenWanted`, `FrameTooltip`, `OverlayDrawsWhereRecorded` and `FrameDrawsEveryButton`. For the cut-down copy, `CutFrameShape` gives the whole frame, `CutFrameButtons` the position of each button draw, and `CutFrameContents` bounds the kinds of draw step.
- Input.ChangeNotification: the vertex-drag branch is unreachable (`Lifecycle.ReachableInvariant`). Its notification is modelled, but the unseen export routines and callbacks are not.
