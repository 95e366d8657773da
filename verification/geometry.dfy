/** Image space <-> canvas space, the fit-to-canvas rule applied when the
    image has loaded, and the zoom steps. The source computes in IEEE
    doubles; here every quantity is an exact `real`. */
module Geometry {

  /** A strictly positive length: canvas and image dimensions. */
  type PosReal = r: real | r > 0.0 witness 1.0

  datatype Point = Point(x: real, y: real)

  /** What the transforms read: the canvas size, the zoom factor and the
      image-space point shown at the middle of the canvas (`centre`). */
  datatype View = View(width: real, height: real, scale: real, centre: Point)

  /** Forward transform along one axis: image coordinate `p` to canvas pixel. */
  function CanvasAxis(p: real, size: real, scale: real, centre: real): real
    requires scale > 0.0
  {
    (p + size / scale / 2.0 - centre) * scale
  }

  /** Inverse transform along one axis, with the source's two-armed
      "visible part" / "canvas offset" case split on `centre >= size/scale/2`. */
  function ImageAxis(q: real, size: real, scale: real, centre: real): real
    requires scale > 0.0
  {
    var half := size / scale / 2.0;
    var visiblePart := if centre >= half then centre - half else 0.0;
    var canvasImage := if centre >= half then 0.0 else size / 2.0 - centre * scale;
    visiblePart + q / scale - canvasImage / scale
  }

  /** `convertToCanvasTranslation`: a point's offset from the middle of the
      canvas is its offset from the centre, scaled. */
  function ToCanvas(v: View, p: Point): (r: Point)
    requires v.scale > 0.0
    ensures r.x - v.width / 2.0 == (p.x - v.centre.x) * v.scale
    ensures r.y - v.height / 2.0 == (p.y - v.centre.y) * v.scale
  {
    CanvasAxisClosedForm(p.x, v.width, v.scale, v.centre.x);
    CanvasAxisClosedForm(p.y, v.height, v.scale, v.centre.y);
    Point(CanvasAxis(p.x, v.width, v.scale, v.centre.x),
          CanvasAxis(p.y, v.height, v.scale, v.centre.y))
  }

  /** `convertToImagePosition`: whichever arm of the split applies, the
      result is the image point that `ToCanvas` draws at the given pixel. */
  function ToImage(v: View, q: Point): (r: Point)
    requires v.scale > 0.0
    ensures ToCanvas(v, r) == q
  {
    AxisRoundTrip(q.x, v.width, v.scale, v.centre.x);
    AxisRoundTrip(q.y, v.height, v.scale, v.centre.y);
    Point(ImageAxis(q.x, v.width, v.scale, v.centre.x),
          ImageAxis(q.y, v.height, v.scale, v.centre.y))
  }

  /** Both arms of the case split compute the same thing: the pixel's
      offset from the canvas middle, de-scaled, added to the centre. */
  lemma ImageAxisClosedForm(q: real, size: real, scale: real, centre: real)
    requires scale > 0.0
    ensures ImageAxis(q, size, scale, centre) == centre + (q - size / 2.0) / scale
  {
    var half := size / scale / 2.0;
    assert half == (size / 2.0) / scale;
    assert q / scale - half == (q - size / 2.0) / scale;
    if centre < half {
      assert (size / 2.0 - centre * scale) / scale == half - centre;
    }
  }

  /** The forward transform is affine: scale the offset from the centre and
      shift it to the canvas middle. */
  lemma CanvasAxisClosedForm(p: real, size: real, scale: real, centre: real)
    requires scale > 0.0
    ensures CanvasAxis(p, size, scale, centre) == (p - centre) * scale + size / 2.0
  {
    assert size / scale / 2.0 * scale == size / 2.0;
  }

  /** Canvas -> image -> canvas is the identity, in both arms of the split. */
  lemma CanvasImageCanvas(v: View, q: Point)
    requires v.scale > 0.0
    ensures ToCanvas(v, ToImage(v, q)) == q
  {
    AxisRoundTrip(q.x, v.width, v.scale, v.centre.x);
    AxisRoundTrip(q.y, v.height, v.scale, v.centre.y);
  }

  /** Image -> canvas -> image is the identity, in both arms of the split. */
  lemma ImageCanvasImage(v: View, p: Point)
    requires v.scale > 0.0
    ensures ToImage(v, ToCanvas(v, p)) == p
  {
    AxisRoundTrip'(p.x, v.width, v.scale, v.centre.x);
    AxisRoundTrip'(p.y, v.height, v.scale, v.centre.y);
  }

  lemma AxisRoundTrip(q: real, size: real, scale: real, centre: real)
    requires scale > 0.0
    ensures CanvasAxis(ImageAxis(q, size, scale, centre), size, scale, centre) == q
  {
    var p := ImageAxis(q, size, scale, centre);
    ImageAxisClosedForm(q, size, scale, centre);
    CanvasAxisClosedForm(p, size, scale, centre);
    assert (p - centre) * scale == q - size / 2.0;
  }

  lemma AxisRoundTrip'(p: real, size: real, scale: real, centre: real)
    requires scale > 0.0
    ensures ImageAxis(CanvasAxis(p, size, scale, centre), size, scale, centre) == p
  {
    var q := CanvasAxis(p, size, scale, centre);
    CanvasAxisClosedForm(p, size, scale, centre);
    ImageAxisClosedForm(q, size, scale, centre);
    assert (q - size / 2.0) / scale == p - centre;
  }

  /** The centre is drawn at the middle of the canvas. */
  lemma CentreAtCanvasMiddle(v: View)
    requires v.scale > 0.0
    ensures ToCanvas(v, v.centre) == Point(v.width / 2.0, v.height / 2.0)
  {
    CanvasAxisClosedForm(v.centre.x, v.width, v.scale, v.centre.x);
    CanvasAxisClosedForm(v.centre.y, v.height, v.scale, v.centre.y);
  }

  /** Extra scale given on top of the width ratio when the width binds. */
  const WidthOverscan: real := 0.3

  /** The scale `onImageLoad` picks for a canvas of `cw` x `ch` and an image of `iw` x `ih`. */
  function FitScale(cw: PosReal, ch: PosReal, iw: PosReal, ih: PosReal): (r: real)
    ensures r > 0.0
  {
    if ch / ih * iw <= cw then ch / ih else cw / iw + WidthOverscan
  }

  /** When the image scaled to the canvas height also fits the width, the
      image fills the height exactly; otherwise the width binds and the
      scaled image is wider than the canvas by the overscan times its width. */
  lemma FitFillsCanvas(cw: PosReal, ch: PosReal, iw: PosReal, ih: PosReal)
    ensures var r := FitScale(cw, ch, iw, ih);
            (r * ih == ch && r * iw <= cw) || (r * iw == cw + WidthOverscan * iw && r * iw > cw)
    ensures FitScale(cw, ch, iw, ih) * iw <= cw <==> ch / ih * iw <= cw
  {
    assert ch / ih * ih == ch;
    assert cw / iw * iw == cw;
  }

  /** An 800 x 600 canvas and a 400 x 300 image sit exactly on the boundary
      of the test, which compares with `<=`: the height arm is taken and the
      scale is 2. */
  lemma FitBoundaryTakesHeightArm()
    ensures FitScale(800.0, 600.0, 400.0, 300.0) == 2.0
  {
    assert 600.0 / 300.0 == 2.0;
  }

  /** Relative change of the scale per zoom step (`scaleStep`). */
  const ScaleStep: real := 0.1

  function ZoomedIn(scale: real): real
  {
    scale * (1.0 + ScaleStep)
  }

  function ZoomedOut(scale: real): real
  {
    scale * (1.0 - ScaleStep)
  }

  /** Zooming keeps the scale positive, in grows it and out shrinks it. */
  lemma ZoomDirections(scale: real)
    requires scale > 0.0
    ensures ZoomedIn(scale) > scale
    ensures 0.0 < ZoomedOut(scale) < scale
  {
  }

  /** In-then-out and out-then-in both leave 99/100 of the scale: zoom steps
      do not cancel. */
  lemma ZoomStepsDoNotCancel(scale: real)
    ensures ZoomedOut(ZoomedIn(scale)) == scale * 99.0 / 100.0
    ensures ZoomedIn(ZoomedOut(scale)) == scale * 99.0 / 100.0
    ensures scale != 0.0 ==> ZoomedOut(ZoomedIn(scale)) != scale
  {
  }
}
