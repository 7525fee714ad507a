/** The frame renderer's computed numbers: for one elapsed time, the active
    scene, the image's draw rectangle when the image is ready, the caption
    lines and their baselines, and the progress bar's filled width. Pixels
    themselves are not modelled. */
module Render {
  import opened Basics
  import opened Catalog
  import Resolver
  import opened Camera
  import opened Captions
  import opened Timeline

  /** The canvas's fixed internal resolution. */
  const Width: int := 1280
  const Height: int := 720

  /** Horizontal margin of the caption block and of the progress track. */
  const Margin: int := 24

  /** The content width, the canvas width less both margins: the bound on a
      caption line and the length of the progress track. */
  const ContentWidth: real := (Width - 2 * Margin) as real

  /** An image as the browser reports it: loaded or not, and its natural
      size (0 while unknown). */
  datatype Image = Image(complete: bool, naturalWidth: nat, naturalHeight: nat)

  predicate Ready(img: Image) {
    img.complete && img.naturalWidth > 0
  }

  datatype Frame = Frame(
    sceneIndex: nat,
    sceneProgress: real,
    image: Option<Rect>,
    lines: seq<string>,
    captions: seq<Caption>,
    progress: real,
    fillWidth: real)

  /** The filled width of the progress track. */
  function FillWidth(prog: real): (w: real)
    ensures 0.0 <= prog <= 1.0 ==> 0.0 <= w <= ContentWidth
    ensures prog == 0.0 ==> w == 0.0
    ensures prog == 1.0 ==> w == ContentWidth
  {
    assert 0.0 <= prog <= 1.0 ==> ContentWidth * prog <= ContentWidth by {
      if 0.0 <= prog <= 1.0 { assert ContentWidth * (1.0 - prog) >= 0.0; }
    }
    ContentWidth * prog
  }

  /** More progress fills strictly more of the track, so the fill grows
      with the progress and is never the same for two progress values. */
  lemma FillWidthIncreasing(a: real, b: real)
    requires a < b
    ensures FillWidth(a) < FillWidth(b)
  {
    assert FillWidth(b) - FillWidth(a) == ContentWidth * (b - a);
  }

  /** The draw rectangle of a ready image, or none: an image not yet
      loaded leaves only the background. */
  function ImageRect(scene: Scene, p: real, img: Image): (r: Option<Rect>)
    requires WellFormed(scene) && 0.0 <= p <= 1.0
    requires img.naturalWidth > 0 ==> img.naturalHeight > 0
    ensures r.Some? <==> Ready(img)
    ensures r.Some? ==> CoversAt(r.value, img, CameraAt(scene, p))
  {
    if Ready(img) then
      var cam := CameraAt(scene, p);
      CameraOfWellFormedScene(scene, p);
      CoverRectCovers(img, cam);
      Some(CoverRect(Width as real, Height as real, img.naturalWidth as real, img.naturalHeight as real, cam))
    else None
  }

  /** The cover fit on this canvas meets `CoversAt` for pans in [-1, 1]. */
  lemma CoverRectCovers(img: Image, cam: Camera)
    requires img.naturalWidth > 0 && img.naturalHeight > 0
    requires Abs(cam.panX) <= 1.0 && Abs(cam.panY) <= 1.0
    ensures CoversAt(CoverRect(Width as real, Height as real, img.naturalWidth as real, img.naturalHeight as real, cam), img, cam)
  {
    var iw, ih := img.naturalWidth as real, img.naturalHeight as real;
    var r := CoverRect(Width as real, Height as real, iw, ih, cam);
    CoverCentreDamped(Width as real, Height as real, iw, ih, cam);
    assert r.w * ih == r.h * iw;
  }

  /** The rectangle keeps the image's aspect ratio, covers the canvas at the
      camera's zoom, exactly on the side the image is narrower on, and is
      centred on the canvas centre moved by the damped pan, so within 15% of
      each axis of the canvas centre. */
  ghost predicate CoversAt(r: Rect, img: Image, cam: Camera) {
    var iw, ih := img.naturalWidth as real, img.naturalHeight as real;
    && r.w * ih == r.h * iw
    && (cam.scale >= 0.0 ==> r.w >= Width as real * cam.scale && r.h >= Height as real * cam.scale)
    && (ih > 0.0 && iw / ih > Width as real / Height as real ==> r.h == Height as real * cam.scale)
    && (ih > 0.0 && iw / ih <= Width as real / Height as real ==> r.w == Width as real * cam.scale)
    && r.x + r.w / 2.0 == Width as real / 2.0 + cam.panX * (Width as real * PanDamping)
    && r.y + r.h / 2.0 == Height as real / 2.0 + cam.panY * (Height as real * PanDamping)
    && Abs(r.x + r.w / 2.0 - Width as real / 2.0) <= PanDamping * Width as real
    && Abs(r.y + r.h / 2.0 - Height as real / 2.0) <= PanDamping * Height as real
  }

  /** One frame of `scenes` at elapsed time `t`. A scene whose image is not
      ready is drawn without it, never failing. The page draws its catalog,
      `Scenes`, which meets the requirements by `CatalogFacts`. */
  method DrawFrame(scenes: seq<Scene>, t: real, images: seq<Image>, measure: string -> real) returns (f: Frame)
    requires |scenes| > 0 && forall i :: 0 <= i < |scenes| ==> WellFormed(scenes[i])
    requires TotalDuration(scenes) > 0
    requires |images| == |scenes|
    requires forall i :: 0 <= i < |images| && images[i].naturalWidth > 0 ==> images[i].naturalHeight > 0
    ensures f.sceneIndex < |scenes|
    ensures 0.0 <= t < TotalDuration(scenes) as real ==>
              PrefixSum(scenes, f.sceneIndex) as real <= t < PrefixSum(scenes, f.sceneIndex + 1) as real
    ensures t >= TotalDuration(scenes) as real ==> f.sceneIndex == 0
    ensures t == TotalDuration(scenes) as real ==> f.sceneProgress == 0.0
    ensures 0.0 <= f.sceneProgress <= 1.0
    // the in-scene progress is the time into the scene over its duration
    ensures 0.0 <= t < TotalDuration(scenes) as real ==>
              f.sceneProgress == Resolver.Fraction(t - PrefixSum(scenes, f.sceneIndex) as real, scenes[f.sceneIndex].durationMs)
    ensures t >= TotalDuration(scenes) as real ==>
              f.sceneProgress == Resolver.Fraction(Min(t - TotalDuration(scenes) as real, scenes[0].durationMs as real), scenes[0].durationMs)
    ensures t < 0.0 ==> f.sceneIndex == 0 && f.sceneProgress == 0.0
    // the image is drawn exactly when ready, covering the canvas at the camera's zoom
    ensures f.image.Some? <==> Ready(images[f.sceneIndex])
    ensures f.image.Some? ==>
              CoversAt(f.image.value, images[f.sceneIndex], CameraAt(scenes[f.sceneIndex], f.sceneProgress))
    // the caption is the scene's subtitle, wrapped and placed bottom-up
    ensures NoEmptyWords(Split(scenes[f.sceneIndex].subtitle)) ==>
              Join(f.lines) == scenes[f.sceneIndex].subtitle && WordsOf(f.lines) == Split(scenes[f.sceneIndex].subtitle)
    ensures forall k :: 0 <= k < |f.lines| ==> f.lines[k] != ""
    ensures |f.lines| <= |Split(scenes[f.sceneIndex].subtitle)|
    ensures NoEmptyWords(Split(scenes[f.sceneIndex].subtitle)) ==>
              forall k :: 0 <= k < |f.lines| - 1 ==> measure(f.lines[k] + " " + Split(f.lines[k + 1])[0]) > ContentWidth
    ensures forall k :: 0 <= k < |f.lines| ==> measure(f.lines[k]) <= ContentWidth || ' ' !in f.lines[k]
    ensures |f.captions| == |f.lines|
    ensures forall k :: 0 <= k < |f.captions| ==>
              f.captions[k] == Caption(f.lines[|f.lines| - 1 - k], LeftMargin, Height - BottomMargin - LinePitch * k)
    // the progress bar
    ensures f.progress == Progress(t, TotalDuration(scenes) as real) && f.progress <= 1.0
    ensures f.fillWidth == FillWidth(f.progress)
    ensures t >= 0.0 ==> 0.0 <= f.fillWidth <= ContentWidth
    ensures t >= TotalDuration(scenes) as real ==> f.fillWidth == ContentWidth
  {
    var total := TotalDuration(scenes) as real;
    var index, acc, local, p := Resolver.ResolveScene(scenes, t);
    var scene := scenes[index];
    var rect := ImageRect(scene, p, images[index]);
    var lines := WrapText(scene.subtitle, ContentWidth, measure);
    var captions := PlaceCaptions(lines, Height);
    var prog := Progress(t, total);
    f := Frame(index, p, rect, lines, captions, prog, FillWidth(prog));
  }
}
