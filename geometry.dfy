/**
 * The numbers the editors feed to the canvas: the image transform and the
 * gestures that change it, the fit-to-canvas size, and the corner radii of the
 * rounded clip. JavaScript doubles are modelled as `real`.
 */
module Geometry {
  import opened Wrappers

  function Min(a: real, b: real): real {
    if a <= b then a else b
  }

  function Max(a: real, b: real): real {
    if a >= b then a else b
  }

  /** A point in canvas or client coordinates. */
  datatype Point = Point(x: real, y: real)

  /** Pan offset (pixels), uniform scale and rotation (degrees) of an image. */
  datatype Transform = Transform(x: real, y: real, scale: real, rotation: real)

  /** `{ x: 0, y: 0, scale: 1, rotation: 0 }`: the transform on import and after a double tap. */
  const Identity: Transform := Transform(0.0, 0.0, 1.0, 0.0)

  /** Bounds of the pinch-zoom scale. */
  const MinScale: real := 0.1
  const MaxScale: real := 5.0

  predicate ScaleInRange(s: real) {
    MinScale <= s <= MaxScale
  }

  /** `Math.max(0.1, Math.min(5, s))`: the nearest scale in [0.1, 5]. */
  function ClampScale(s: real): (r: real)
    ensures ScaleInRange(r)
    ensures ScaleInRange(s) ==> r == s
    ensures s < MinScale ==> r == MinScale
    ensures s > MaxScale ==> r == MaxScale
  {
    Max(MinScale, Min(MaxScale, s))
  }

  /** The double value of `Math.PI`. */
  const Pi: real := 3.141592653589793

  /**
   * Pinch rotation: the start rotation plus the change of the two-finger angle,
   * that change converted from radians to degrees.
   */
  function PinchRotation(startRotation: real, startAngle: real, angle: real): (r: real)
    ensures (r - startRotation) * Pi == (angle - startAngle) * 180.0
    ensures angle == startAngle ==> r == startRotation
  {
    startRotation + (angle - startAngle) * 180.0 / Pi
  }

  /**
   * Pinch scale: the start scale times the ratio of the finger distance to the
   * start distance, clamped to [0.1, 5]. A zero start distance makes the ratio
   * infinite, which the clamp turns into 5 or 0.1 as in the source; only where
   * the source's product is NaN (0 / 0, or an infinite ratio times a zero start
   * scale) is the start scale (clamped) kept instead. `PinchScaleAgrees`
   * relates it to `PinchScaleAsWritten`.
   */
  function PinchScale(startScale: real, startDistance: real, distance: real): (r: real)
    ensures ScaleInRange(r)
    ensures startDistance != 0.0 ==> r == ClampScale(distance / startDistance * startScale)
    ensures startDistance == 0.0 && (distance == 0.0 || startScale == 0.0) ==> r == ClampScale(startScale)
  {
    if startDistance != 0.0 then ClampScale(distance / startDistance * startScale)
    else if distance * startScale > 0.0 then MaxScale
    else if distance * startScale < 0.0 then MinScale
    else ClampScale(startScale)
  }

  /** A ratio to a positive start distance, times a non-negative scale, grows with the distance. */
  lemma RatioMonotone(startScale: real, startDistance: real, d1: real, d2: real)
    requires startDistance > 0.0 && startScale >= 0.0 && d1 <= d2
    ensures d1 / startDistance * startScale <= d2 / startDistance * startScale
  {
    var q1, q2 := d1 / startDistance, d2 / startDistance;
    assert q1 <= q2 by {
      assert q1 * startDistance == d1 && q2 * startDistance == d2;
    }
    assert q1 * startScale <= q2 * startScale by {
      assert (q2 - q1) * startScale >= 0.0;
    }
  }

  /** Spreading the fingers further never zooms out. */
  lemma PinchScaleMonotone(startScale: real, startDistance: real, d1: real, d2: real)
    requires startDistance > 0.0 && startScale >= 0.0 && d1 <= d2
    ensures PinchScale(startScale, startDistance, d1) <= PinchScale(startScale, startDistance, d2)
  {
    var a, b := d1 / startDistance * startScale, d2 / startDistance * startScale;
    RatioMonotone(startScale, startDistance, d1, d2);
    assert PinchScale(startScale, startDistance, d1) == ClampScale(a);
    assert PinchScale(startScale, startDistance, d2) == ClampScale(b);
    assert ClampScale(a) <= ClampScale(b);
  }

  /**
   * Numbers as JavaScript computes them where the pinch handler can leave the
   * reals: a division by a zero start distance.
   */
  datatype JsNumber = Finite(v: real) | PosInf | NegInf | NaN

  /** `a / b`: a number for a non-zero divisor, a signed infinity for x / 0, and NaN for 0 / 0. */
  function JsDivide(a: real, b: real): (r: JsNumber)
    ensures r.Finite? <==> b != 0.0
    ensures r.Finite? ==> r.v * b == a
    ensures r == NaN <==> a == 0.0 && b == 0.0
  {
    if b != 0.0 then Finite(a / b)
    else if a > 0.0 then PosInf
    else if a < 0.0 then NegInf
    else NaN
  }

  /** `n * k`: NaN when n is NaN or an infinity meets 0; an infinity keeps or flips its sign with k. */
  function JsTimes(n: JsNumber, k: real): (r: JsNumber)
    ensures n.Finite? ==> r == Finite(n.v * k)
    ensures r == NaN <==> n == NaN || (!n.Finite? && k == 0.0)
  {
    match n
    case Finite(_) => Finite(n.v * k)
    case PosInf => if k > 0.0 then PosInf else if k < 0.0 then NegInf else NaN
    case NegInf => if k > 0.0 then NegInf else if k < 0.0 then PosInf else NaN
    case NaN => NaN
  }

  /** `Math.min(a, n)`: NaN if either is NaN. */
  function JsMin(a: real, n: JsNumber): (r: JsNumber)
    ensures r == NaN <==> n == NaN
    ensures r.Finite? ==> r.v <= a
  {
    match n
    case Finite(v) => Finite(Min(a, v))
    case PosInf => Finite(a)
    case NegInf => NegInf
    case NaN => NaN
  }

  /** `Math.max(a, n)`: NaN if either is NaN. */
  function JsMax(a: real, n: JsNumber): (r: JsNumber)
    ensures r == NaN <==> n == NaN
    ensures r.Finite? ==> r.v >= a
  {
    match n
    case Finite(v) => Finite(Max(a, v))
    case PosInf => PosInf
    case NegInf => Finite(a)
    case NaN => NaN
  }

  /** The pinch scale exactly as src/App.jsx:352-362 computes it. */
  function PinchScaleAsWritten(startScale: real, startDistance: real, distance: real): (r: JsNumber)
    ensures r != NaN ==> r.Finite? && ScaleInRange(r.v)
  {
    JsMax(MinScale, JsMin(MaxScale, JsTimes(JsDivide(distance, startDistance), startScale)))
  }

  /**
   * The source's pinch scale is NaN exactly when the start distance is zero and
   * so is the distance or the start scale; in every other case it is the number
   * `PinchScale` gives.
   */
  lemma PinchScaleAgrees(startScale: real, startDistance: real, distance: real)
    ensures PinchScaleAsWritten(startScale, startDistance, distance) == NaN
            <==> startDistance == 0.0 && (distance == 0.0 || startScale == 0.0)
    ensures PinchScaleAsWritten(startScale, startDistance, distance) != NaN ==>
            PinchScaleAsWritten(startScale, startDistance, distance)
            == Finite(PinchScale(startScale, startDistance, distance))
  {
    if startDistance == 0.0 && distance != 0.0 && startScale != 0.0 {
      if distance > 0.0 && startScale > 0.0 {
        assert distance * startScale > 0.0;
      } else if distance > 0.0 {
        assert distance * startScale < 0.0;
      } else if startScale > 0.0 {
        assert distance * startScale < 0.0;
      } else {
        assert distance * startScale > 0.0;
      }
    }
  }

  /** Two fingers that start and stay on the same spot give a NaN scale, outside [0.1, 5]. */
  lemma PinchScaleAsWrittenNaN()
    ensures PinchScaleAsWritten(1.0, 0.0, 0.0) == NaN
  {
  }

  /**
   * Following the pointer: each move adds the delta from the previous pointer
   * position to the position (`handlePointerMove`, and text-layer drags).
   */
  function FollowPath(pos: Point, last: Point, path: seq<Point>): (r: Point)
    ensures path == [] ==> r == pos
    decreases |path|
  {
    if path == [] then pos
    else FollowPath(Point(pos.x + (path[0].x - last.x), pos.y + (path[0].y - last.y)), path[0], path[1..])
  }

  /** The per-move deltas telescope: after any run of moves the position has moved by the total displacement. */
  lemma {:induction false} FollowPathTotal(pos: Point, last: Point, path: seq<Point>)
    requires path != []
    ensures FollowPath(pos, last, path)
            == Point(pos.x + (path[|path| - 1].x - last.x), pos.y + (path[|path| - 1].y - last.y))
    decreases |path|
  {
    if |path| > 1 {
      var next := Point(pos.x + (path[0].x - last.x), pos.y + (path[0].y - last.y));
      FollowPathTotal(next, path[0], path[1..]);
    }
  }

  /** The image's drawn size: its natural size times `min(w / imgW, h / imgH) * margin`. */
  function DrawSize(canvasW: real, canvasH: real, imgW: real, imgH: real, margin: real): (r: (real, real))
    requires imgW > 0.0 && imgH > 0.0 && margin >= 0.0
    ensures r.0 * imgH == r.1 * imgW
    ensures r.0 <= margin * canvasW && r.1 <= margin * canvasH
    ensures r.0 == margin * canvasW || r.1 == margin * canvasH
  {
    var scaleFactor := Min(canvasW / imgW, canvasH / imgH) * margin;
    FitBounds(canvasW, canvasH, imgW, imgH, margin);
    (imgW * scaleFactor, imgH * scaleFactor)
  }

  lemma FitBounds(canvasW: real, canvasH: real, imgW: real, imgH: real, margin: real)
    requires imgW > 0.0 && imgH > 0.0 && margin >= 0.0
    ensures var s := Min(canvasW / imgW, canvasH / imgH) * margin;
      && (imgW * s) * imgH == (imgH * s) * imgW
      && imgW * s <= margin * canvasW && imgH * s <= margin * canvasH
      && (imgW * s == margin * canvasW || imgH * s == margin * canvasH)
  {
    var a, b := canvasW / imgW, canvasH / imgH;
    assert imgW * a == canvasW && imgH * b == canvasH;
    if a <= b {
      assert imgH * a <= imgH * b by { assert imgH * (b - a) >= 0.0; }
      assert imgH * (a * margin) <= imgH * (b * margin) by { assert imgH * a * margin <= imgH * b * margin; }
    } else {
      assert imgW * b <= imgW * a by { assert imgW * (a - b) >= 0.0; }
      assert imgW * (b * margin) <= imgW * (a * margin) by { assert imgW * b * margin <= imgW * a * margin; }
    }
  }

  /** `maxRadiusPercent`: the pixel length of one percent of radius; 100% is half the shorter drawn side. */
  function RadiusPerPercent(drawW: real, drawH: real): real {
    Min(drawW, drawH) / 200.0
  }

  /** A percentage radius in pixels: `percent / 100 * min(drawW, drawH) / 2`. */
  function PercentToPixels(percent: real, drawW: real, drawH: real): (r: real)
    ensures r == percent / 100.0 * (Min(drawW, drawH) / 2.0)
  {
    percent * RadiusPerPercent(drawW, drawH)
  }

  /** Slider percentages in [0, 100] give radii in [0, min/2]: the roundRect clamp never has to act on them. */
  lemma PercentRadiusFits(percent: real, drawW: real, drawH: real)
    requires 0.0 <= percent <= 100.0 && drawW >= 0.0 && drawH >= 0.0
    ensures 0.0 <= PercentToPixels(percent, drawW, drawH) <= Min(drawW, drawH) / 2.0
  {
    var half := Min(drawW, drawH) / 2.0;
    assert percent / 100.0 * half <= 1.0 * half by {
      assert (1.0 - percent / 100.0) * half >= 0.0;
    }
  }

  /** Radii of the four corners (pixels or percent, by context). */
  datatype Corners = Corners(tl: real, tr: real, bl: real, br: real)

  function Uniform(r: real): Corners {
    Corners(r, r, r, r)
  }

  datatype Corner = TL | TR | BL | BR

  function Get(c: Corners, which: Corner): real {
    match which
    case TL => c.tl
    case TR => c.tr
    case BL => c.bl
    case BR => c.br
  }

  predicate CornerBelow(c: Corners, bound: real) {
    c.tl <= bound && c.tr <= bound && c.bl <= bound && c.br <= bound
  }

  /**
   * The clamp at the top of `roundRect`: each corner becomes the smaller of its
   * radius and half the shorter side, so the rounded path cannot overlap itself.
   */
  function ClampCorners(w: real, h: real, radii: Corners): (r: Corners)
    ensures CornerBelow(r, Min(w, h) / 2.0)
    ensures forall c :: Get(r, c) <= Get(radii, c)
    ensures forall c :: Get(r, c) == Get(radii, c) || Get(r, c) == Min(w, h) / 2.0
  {
    var maxRadius := Min(w, h) / 2.0;
    Corners(Min(radii.tl, maxRadius), Min(radii.tr, maxRadius), Min(radii.bl, maxRadius), Min(radii.br, maxRadius))
  }

  /** Clamping leaves radii that already fit untouched, so clamping twice is clamping once. */
  lemma ClampCornersIdempotent(w: real, h: real, radii: Corners)
    ensures CornerBelow(radii, Min(w, h) / 2.0) ==> ClampCorners(w, h, radii) == radii
    ensures ClampCorners(w, h, ClampCorners(w, h, radii)) == ClampCorners(w, h, radii)
  {
  }

  /**
   * The pixel radii that clip the base image (App.jsx drawCanvas): the four
   * corner percentages in advanced mode, the single percentage on every corner
   * otherwise, each converted to pixels and passed through the roundRect clamp.
   */
  function ResolvedRadii(advancedMode: bool, borderRadius: real, cornerRadii: Corners,
                         drawW: real, drawH: real): (r: Corners)
    ensures CornerBelow(r, Min(drawW, drawH) / 2.0)
    ensures !advancedMode ==> r.tl == r.tr == r.bl == r.br
    ensures !advancedMode ==> r == ClampCorners(drawW, drawH, Uniform(PercentToPixels(borderRadius, drawW, drawH)))
    ensures advancedMode ==> forall c :: Get(r, c) == Min(PercentToPixels(Get(cornerRadii, c), drawW, drawH), Min(drawW, drawH) / 2.0)
  {
    if advancedMode then
      ClampCorners(drawW, drawH, Corners(PercentToPixels(cornerRadii.tl, drawW, drawH),
                                         PercentToPixels(cornerRadii.tr, drawW, drawH),
                                         PercentToPixels(cornerRadii.bl, drawW, drawH),
                                         PercentToPixels(cornerRadii.br, drawW, drawH)))
    else
      ClampCorners(drawW, drawH, Uniform(PercentToPixels(borderRadius, drawW, drawH)))
  }

  /** 50% on a 400 x 300 drawing is a 75-pixel radius at every corner, below the 150-pixel clamp. */
  lemma HalfRadiusScenario()
    ensures ResolvedRadii(false, 50.0, Uniform(50.0), 400.0, 300.0) == Uniform(75.0)
  {
  }

  /**
   * The clip of an image layer in the multi-layer editor (not.jsx drawImageLayer):
   * none unless the layer's pixel radius is positive, and then that radius
   * clamped to half the shorter drawn side.
   */
  function LayerClipRadius(borderRadius: real, drawW: real, drawH: real): (r: Option<real>)
    ensures r.Some? <==> borderRadius > 0.0
    ensures r.Some? ==> r.value <= Min(drawW, drawH) / 2.0 && r.value <= borderRadius
    ensures r.Some? ==> r.value == borderRadius || r.value == Min(drawW, drawH) / 2.0
  {
    if borderRadius > 0.0 then Some(Min(borderRadius, Min(drawW, drawH) / 2.0)) else None
  }

  /** Fit margins: the base image fills 80% of the canvas, an extra image layer 70%. */
  const BaseImageMargin: real := 0.8
  const LayerImageMargin: real := 0.7
}
