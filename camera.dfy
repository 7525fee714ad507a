/** The camera interpolator and the "cover" fit of the Ken-Burns effect:
    zoom and pan move linearly with the in-scene progress, and the image is
    scaled to cover the canvas at the current zoom, keeping its aspect
    ratio, with its centre displaced by at most 15% of each canvas axis. */
module Camera {
  import opened Basics
  import opened Catalog

  /** Pan damping: a pan of 1 moves the centre by 15% of the axis. */
  const PanDamping: real := 0.15

  /** Linear interpolation from `a` (at p = 0) to `b` (at p = 1). */
  function Lerp(a: real, b: real, p: real): (r: real)
    ensures p == 0.0 ==> r == a
    ensures p == 1.0 ==> r == b
    ensures 0.0 <= p <= 1.0 ==> Min(a, b) <= r <= Max(a, b)
  {
    if 0.0 <= p <= 1.0 then LerpBetween(a, b, p); a + (b - a) * p
    else a + (b - a) * p
  }

  lemma LerpBetween(a: real, b: real, p: real)
    requires 0.0 <= p <= 1.0
    ensures Min(a, b) <= a + (b - a) * p <= Max(a, b)
  {
    var d := b - a;
    MulBounds(if d >= 0.0 then d else -d, p);
    if d < 0.0 {
      assert d * p == -((-d) * p);
    }
  }

  lemma MulBounds(x: real, p: real)
    requires x >= 0.0 && 0.0 <= p <= 1.0
    ensures 0.0 <= x * p <= x
  {
    assert x * p <= x * 1.0 by { assert x * (1.0 - p) >= 0.0; }
  }

  /** Interpolation is monotonic in the progress when the endpoints are
      ordered. */
  lemma LerpMonotonic(a: real, b: real, p: real, q: real)
    requires a <= b && p <= q
    ensures Lerp(a, b, p) <= Lerp(a, b, q)
  {
    assert (b - a) * (q - p) >= 0.0;
    assert (b - a) * q - (b - a) * p == (b - a) * (q - p);
  }

  /** The camera at a moment of a scene: zoom factor and normalised pan. */
  datatype Camera = Camera(scale: real, panX: real, panY: real)

  /** The camera of `scene` at in-scene progress `p`. */
  function CameraAt(scene: Scene, p: real): (c: Camera)
    ensures p == 0.0 ==> c == Camera(scene.zoomStart, scene.panXStart, scene.panYStart)
    ensures p == 1.0 ==> c == Camera(scene.zoomEnd, scene.panXEnd, scene.panYEnd)
    ensures 0.0 <= p <= 1.0 ==>
              && Min(scene.zoomStart, scene.zoomEnd) <= c.scale <= Max(scene.zoomStart, scene.zoomEnd)
              && Min(scene.panXStart, scene.panXEnd) <= c.panX <= Max(scene.panXStart, scene.panXEnd)
              && Min(scene.panYStart, scene.panYEnd) <= c.panY <= Max(scene.panYStart, scene.panYEnd)
  {
    Camera(Lerp(scene.zoomStart, scene.zoomEnd, p),
           Lerp(scene.panXStart, scene.panXEnd, p),
           Lerp(scene.panYStart, scene.panYEnd, p))
  }

  /** A scene's camera stays within [-1, 1] pan and positive zoom over its
      whole run when its endpoints do. */
  lemma CameraOfWellFormedScene(scene: Scene, p: real)
    requires WellFormed(scene) && 0.0 <= p <= 1.0
    ensures CameraAt(scene, p).scale > 0.0
    ensures Abs(CameraAt(scene, p).panX) <= 1.0 && Abs(CameraAt(scene, p).panY) <= 1.0
  {
  }

  /** The zoom example: from 1.0 to 1.2, halfway is 1.1. */
  lemma ZoomHalfway()
    ensures Lerp(1.0, 1.2, 0.5) == 1.1
  {
  }

  /** A draw rectangle in canvas coordinates: top-left corner and size. */
  datatype Rect = Rect(x: real, y: real, w: real, h: real)

  /** The cover fit: the image at its drawn size, centred on the canvas
      centre displaced by the damped pan. */
  function CoverRect(canvasW: real, canvasH: real, iw: real, ih: real, cam: Camera): (r: Rect)
    requires canvasW > 0.0 && canvasH > 0.0 && iw > 0.0 && ih > 0.0
    ensures r.w * ih == r.h * iw
    ensures cam.scale >= 0.0 ==> r.w >= canvasW * cam.scale && r.h >= canvasH * cam.scale
    ensures iw / ih > canvasW / canvasH ==> r.h == canvasH * cam.scale
    ensures iw / ih <= canvasW / canvasH ==> r.w == canvasW * cam.scale
    ensures r.x + r.w / 2.0 == canvasW / 2.0 + cam.panX * (canvasW * PanDamping)
    ensures r.y + r.h / 2.0 == canvasH / 2.0 + cam.panY * (canvasH * PanDamping)
  {
    var (drawW, drawH) := CoverSize(canvasW, canvasH, iw, ih, cam.scale);
    var centerX := canvasW / 2.0 + cam.panX * (canvasW * PanDamping);
    var centerY := canvasH / 2.0 + cam.panY * (canvasH * PanDamping);
    Rect(centerX - drawW / 2.0, centerY - drawH / 2.0, drawW, drawH)
  }

  /** The drawn size: an image wider than the canvas (by aspect) is sized by
      the canvas height, otherwise by the canvas width, both times the zoom. */
  function CoverSize(canvasW: real, canvasH: real, iw: real, ih: real, scale: real): (size: (real, real))
    requires canvasW > 0.0 && canvasH > 0.0 && iw > 0.0 && ih > 0.0
    ensures size.0 * ih == size.1 * iw
    ensures scale >= 0.0 ==> size.0 >= canvasW * scale && size.1 >= canvasH * scale
    // the side the image is narrower on is the canvas side times the zoom, exactly
    ensures iw / ih > canvasW / canvasH ==> size.1 == canvasH * scale
    ensures iw / ih <= canvasW / canvasH ==> size.0 == canvasW * scale
  {
    var aspectImg := iw / ih;
    if aspectImg > canvasW / canvasH then
      var drawH := canvasH * scale;
      var drawW := drawH * aspectImg;
      WideFit(canvasW, canvasH, iw, ih, scale, drawW, drawH);
      (drawW, drawH)
    else
      var drawW := canvasW * scale;
      var drawH := drawW / aspectImg;
      TallFit(canvasW, canvasH, iw, ih, scale, drawW, drawH);
      (drawW, drawH)
  }

  /** The cover fit of an image wider than the canvas keeps its aspect ratio
      and covers the canvas at the zoom. */
  lemma WideFit(canvasW: real, canvasH: real, iw: real, ih: real, scale: real, drawW: real, drawH: real)
    requires canvasW > 0.0 && canvasH > 0.0 && iw > 0.0 && ih > 0.0 && iw / ih > canvasW / canvasH
    requires drawH == canvasH * scale && drawW == drawH * (iw / ih)
    ensures drawW * ih == drawH * iw
    ensures scale >= 0.0 ==> drawW >= canvasW * scale && drawH >= canvasH * scale
  {
    var a := iw / ih;
    assert a * ih == iw;
    assert drawW * ih == drawH * (a * ih);
    assert a * canvasH > canvasW;
    if scale >= 0.0 {
      assert drawW == scale * (a * canvasH);
      assert scale * (a * canvasH) >= scale * canvasW;
    }
  }

  /** The cover fit of an image no wider than the canvas keeps its aspect
      ratio and covers the canvas at the zoom. */
  lemma TallFit(canvasW: real, canvasH: real, iw: real, ih: real, scale: real, drawW: real, drawH: real)
    requires canvasW > 0.0 && canvasH > 0.0 && iw > 0.0 && ih > 0.0 && iw / ih <= canvasW / canvasH
    requires drawW == canvasW * scale && drawH == drawW / (iw / ih)
    ensures drawW * ih == drawH * iw
    ensures scale >= 0.0 ==> drawW >= canvasW * scale && drawH >= canvasH * scale
  {
    var a := iw / ih;
    assert a * ih == iw;
    assert drawH * a == drawW;
    assert drawH * iw == drawH * a * ih;
    assert a * canvasH <= canvasW;
    if scale >= 0.0 {
      assert drawH == scale * (canvasW / a);
      assert canvasW / a >= canvasH by {
        assert canvasH * a <= canvasW;
      }
    }
  }

  /** With pans in [-1, 1] the rectangle's centre stays within 15% of each
      canvas axis of the canvas centre. */
  lemma CoverCentreDamped(canvasW: real, canvasH: real, iw: real, ih: real, cam: Camera)
    requires canvasW > 0.0 && canvasH > 0.0 && iw > 0.0 && ih > 0.0
    requires Abs(cam.panX) <= 1.0 && Abs(cam.panY) <= 1.0
    ensures var r := CoverRect(canvasW, canvasH, iw, ih, cam);
            Abs(r.x + r.w / 2.0 - canvasW / 2.0) <= PanDamping * canvasW
            && Abs(r.y + r.h / 2.0 - canvasH / 2.0) <= PanDamping * canvasH
  {
    var r := CoverRect(canvasW, canvasH, iw, ih, cam);
    AxisDamped(canvasW, cam.panX, r.x + r.w / 2.0);
    AxisDamped(canvasH, cam.panY, r.y + r.h / 2.0);
  }

  /** On one axis, a centre displaced by the damped pan is within 15% of the
      axis from the middle. */
  lemma AxisDamped(size: real, pan: real, centre: real)
    requires Abs(pan) <= 1.0 && size > 0.0
    requires centre == size / 2.0 + pan * (size * PanDamping)
    ensures Abs(centre - size / 2.0) <= PanDamping * size
  {
    var k := size * PanDamping;
    assert k > 0.0 && centre - size / 2.0 == pan * k;
    if pan >= 0.0 {
      assert pan * k <= 1.0 * k;
    } else {
      assert (-pan) * k <= 1.0 * k;
    }
  }
}
