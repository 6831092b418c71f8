/**
 * The editor's scene: a fixed 1280x720 canvas with one background slot, an
 * ordered list of placed objects (later objects paint on top), an optional
 * active object, and the corner-radius setting of the side panel.
 */
module ImageEditor {
  import opened Base
  import opened Scaling
  import BackgroundCatalogue

  const CanvasWidth: real := 1280.0
  const CanvasHeight: real := 720.0

  /** The radius slider runs over the integers 0..50. */
  const MaxBorderRadius: nat := 50

  const DefaultBackgroundId: string := "mountain-hiker"

  /** Export parameters of the download button. */
  const ExportFormat: string := "png"
  const ExportQuality: real := 1.0
  const ExportMultiplier: nat := 2
  const ExportFileName: string := "edited-image.png"

  /** The canvas object's `type`: every object this editor creates is an image. */
  datatype ObjectKind = ImageKind | OtherKind(typeName: string)

  /** A rounded rectangle with corner radii rx, ry, centred on the clipped object's origin. */
  datatype ClipRect = ClipRect(rx: real, ry: real, width: real, height: real)

  /**
   * A canvas object. `width`/`height` are the decoded (natural) size, the scale
   * factors give the rendered size, and (`left`, `top`) is the centre.
   */
  datatype SceneObject = SceneObject(
    kind: ObjectKind,
    source: string,
    width: real,
    height: real,
    left: real,
    top: real,
    scaleX: real,
    scaleY: real,
    selectable: bool,
    evented: bool,
    clip: Option<ClipRect>)

  datatype ExportRequest = ExportRequest(
    format: string,
    quality: real,
    multiplier: nat,
    fileName: string,
    pixelWidth: real,
    pixelHeight: real)

  /** A decoded background image as the editor places it: cover-scaled, centred and inert. */
  function CoverPlaced(source: string, w: real, h: real): (o: SceneObject)
    requires w > 0.0 && h > 0.0
    ensures o.kind == ImageKind && o.source == source && o.width == w && o.height == h
    ensures o.scaleX == o.scaleY
    ensures o.scaleX * w >= CanvasWidth && o.scaleY * h >= CanvasHeight
    ensures o.scaleX * w == CanvasWidth || o.scaleY * h == CanvasHeight
    ensures o.left == CanvasWidth / 2.0 && o.top == CanvasHeight / 2.0
    ensures !o.selectable && !o.evented && o.clip == None
  {
    var s := CoverScale(CanvasWidth, CanvasHeight, w, h);
    SceneObject(ImageKind, source, w, h, CanvasWidth / 2.0, CanvasHeight / 2.0, s, s, false, false, None)
  }

  /** A decoded upload as the editor places it: scaled to fit 70% of the canvas, centred, interactive. */
  function FitPlaced(source: string, w: real, h: real): (o: SceneObject)
    requires w > 0.0 && h > 0.0
    ensures o.kind == ImageKind && o.source == source && o.width == w && o.height == h
    ensures o.scaleX == o.scaleY
    ensures o.scaleX * w <= FitShrink * CanvasWidth && o.scaleY * h <= FitShrink * CanvasHeight
    ensures o.scaleX * w == FitShrink * CanvasWidth || o.scaleY * h == FitShrink * CanvasHeight
    ensures o.left == CanvasWidth / 2.0 && o.top == CanvasHeight / 2.0
    ensures o.selectable && o.evented && o.clip == None
  {
    var s := FitScale(CanvasWidth, CanvasHeight, w, h);
    SceneObject(ImageKind, source, w, h, CanvasWidth / 2.0, CanvasHeight / 2.0, s, s, true, true, None)
  }

  /**
   * The corner-rounding rule for the active object: an image gets a centred
   * rounded-rectangle clip of its own natural size with rx = ry = radius, or no
   * clip when the radius is 0; any other object is left as it is.
   */
  function WithCornerClip(o: SceneObject, radius: nat): (r: SceneObject)
    ensures r == o.(clip := r.clip)
    ensures o.kind != ImageKind ==> r == o
    ensures o.kind == ImageKind && radius == 0 ==> r.clip == None
    ensures o.kind == ImageKind && radius > 0 ==>
      r.clip == Some(ClipRect(radius as real, radius as real, o.width, o.height))
  {
    if o.kind != ImageKind then o
    else if radius > 0 then o.(clip := Some(ClipRect(radius as real, radius as real, o.width, o.height)))
    else o.(clip := None)
  }

  /** Re-running the rule is harmless, and only the latest radius matters. */
  lemma CornerClipLastWins(o: SceneObject, r1: nat, r2: nat)
    ensures WithCornerClip(WithCornerClip(o, r1), r2) == WithCornerClip(o, r2)
  {
  }

  /** The clip of an image never depends on how it is scaled or where it is. */
  lemma CornerClipIgnoresPlacement(o: SceneObject, radius: nat, sx: real, sy: real, x: real, y: real)
    ensures WithCornerClip(o.(scaleX := sx, scaleY := sy, left := x, top := y), radius).clip
         == WithCornerClip(o, radius).clip
  {
  }

  /** The sequence with its element at index i removed. */
  function RemoveAt<T>(s: seq<T>, i: nat): (r: seq<T>)
    requires i < |s|
    ensures |r| == |s| - 1
    ensures forall k :: 0 <= k < i ==> r[k] == s[k]
    ensures forall k :: i <= k < |r| ==> r[k] == s[k + 1]
  {
    s[..i] + s[i + 1..]
  }

  class Editor {
    /** Whether the canvas exists (the component has mounted). */
    var mounted: bool
    var objects: seq<SceneObject>
    /** Index into `objects` of the active object, if any. */
    var active: Option<nat>
    var background: Option<SceneObject>
    var selectedBackgroundId: string
    var borderRadius: nat

    ghost predicate Valid()
      reads this
    {
      && (active.Some? ==> active.value < |objects|)
      && borderRadius <= MaxBorderRadius
      && (!mounted ==> objects == [] && active == None && background == None)
      // the active object always carries the clip for the current radius
      && (active.Some? ==> objects[active.value] == WithCornerClip(objects[active.value], borderRadius))
    }

    /** Before the canvas exists: nothing placed, radius 0, the default background id selected. */
    constructor ()
      ensures Valid() && !mounted
      ensures objects == [] && active == None && background == None
      ensures selectedBackgroundId == DefaultBackgroundId && borderRadius == 0
    {
      mounted := false;
      objects := [];
      active := None;
      background := None;
      selectedBackgroundId := DefaultBackgroundId;
      borderRadius := 0;
    }

    /** Mount: a fresh, empty 1280x720 canvas is created; its background loads later. */
    method Mount()
      requires Valid()
      modifies this
      ensures Valid() && mounted
      ensures objects == [] && active == None && background == None
      ensures selectedBackgroundId == old(selectedBackgroundId) && borderRadius == old(borderRadius)
    {
      mounted := true;
      objects := [];
      active := None;
      background := None;
    }

    /** The default background decoded at mount (natural size w x h) becomes the background. */
    method ApplyDefaultBackground(w: real, h: real)
      requires Valid() && mounted
      requires w > 0.0 && h > 0.0
      modifies this
      ensures Valid() && mounted
      ensures background == Some(CoverPlaced(BackgroundCatalogue.DefaultBackgroundImage, w, h))
      ensures selectedBackgroundId == DefaultBackgroundId
      ensures objects == old(objects) && active == old(active) && borderRadius == old(borderRadius)
    {
      background := Some(CoverPlaced(BackgroundCatalogue.DefaultBackgroundImage, w, h));
      selectedBackgroundId := DefaultBackgroundId;
    }

    /** A gallery pick whose image decoded to w x h replaces the background and records its id. */
    method SelectBackground(option: BackgroundCatalogue.BackgroundOption, w: real, h: real)
      requires Valid()
      requires w > 0.0 && h > 0.0
      modifies this
      ensures Valid() && mounted == old(mounted)
      ensures old(mounted) ==> background == Some(CoverPlaced(option.image, w, h)) && selectedBackgroundId == option.id
      ensures !old(mounted) ==> background == old(background) && selectedBackgroundId == old(selectedBackgroundId)
      ensures objects == old(objects) && active == old(active) && borderRadius == old(borderRadius)
    {
      if !mounted { return; }
      background := Some(CoverPlaced(option.image, w, h));
      selectedBackgroundId := option.id;
    }

    /** The effect that re-derives the active image's clip from the current radius. */
    method ApplyCornerRadius()
      requires active.Some? ==> active.value < |objects|
      modifies this`objects
      ensures active.Some? ==> objects == old(objects)[active.value := WithCornerClip(old(objects)[active.value], borderRadius)]
      ensures active.None? ==> objects == old(objects)
    {
      if active.Some? {
        var i := active.value;
        objects := objects[i := WithCornerClip(objects[i], borderRadius)];
      }
    }

    /**
     * Upload of an image file whose data URL decoded to w x h. A missing file, a
     * missing canvas or a non-image file is refused and nothing changes; otherwise
     * the image is appended on top, becomes active and receives the current corner clip.
     */
    method UploadImage(file: Option<FileInfo>, dataUrl: string, w: real, h: real) returns (added: bool)
      requires Valid()
      requires w > 0.0 && h > 0.0
      modifies this
      ensures Valid() && mounted == old(mounted)
      ensures added <==> old(mounted) && file.Some? && IsImageFile(file.value)
      ensures added ==> objects == old(objects) + [WithCornerClip(FitPlaced(dataUrl, w, h), borderRadius)]
      ensures added ==> active == Some(|old(objects)|)
      ensures !added ==> objects == old(objects) && active == old(active)
      ensures background == old(background) && borderRadius == old(borderRadius)
      ensures selectedBackgroundId == old(selectedBackgroundId)
    {
      if file.None? || !mounted { return false; }
      if !IsImageFile(file.value) { return false; }
      var img := FitPlaced(dataUrl, w, h);
      objects := objects + [img];
      active := Some(|objects| - 1);
      ApplyCornerRadius();
      return true;
    }

    /** A pointer selection of the object at index i (selection created or updated). */
    method Select(i: nat)
      requires Valid()
      requires i < |objects|
      modifies this
      ensures Valid() && mounted == old(mounted)
      ensures active == Some(i)
      ensures objects == old(objects)[i := WithCornerClip(old(objects)[i], borderRadius)]
      ensures background == old(background) && borderRadius == old(borderRadius)
      ensures selectedBackgroundId == old(selectedBackgroundId)
    {
      active := Some(i);
      ApplyCornerRadius();
    }

    /** The selection is cleared; objects keep their clips. */
    method ClearSelection()
      requires Valid()
      modifies this
      ensures Valid() && mounted == old(mounted)
      ensures active == None
      ensures objects == old(objects) && background == old(background) && borderRadius == old(borderRadius)
      ensures selectedBackgroundId == old(selectedBackgroundId)
    {
      active := None;
    }

    /** The radius slider moved to r; the active image is re-clipped. */
    method SetBorderRadius(r: nat)
      requires Valid()
      requires r <= MaxBorderRadius
      modifies this
      ensures Valid() && mounted == old(mounted)
      ensures borderRadius == r && active == old(active)
      ensures active.Some? ==> objects == old(objects)[active.value := WithCornerClip(old(objects)[active.value], r)]
      ensures active.None? ==> objects == old(objects)
      ensures background == old(background) && selectedBackgroundId == old(selectedBackgroundId)
    {
      borderRadius := r;
      ApplyCornerRadius();
    }

    /** Removes the active object, keeping the others in order; a no-op when nothing is active. */
    method DeleteActive() returns (deleted: bool)
      requires Valid()
      modifies this
      ensures Valid() && mounted == old(mounted)
      ensures deleted <==> old(active).Some?
      ensures deleted ==> objects == RemoveAt(old(objects), old(active).value)
      ensures active == None
      ensures !deleted ==> objects == old(objects)
      ensures background == old(background) && borderRadius == old(borderRadius)
      ensures selectedBackgroundId == old(selectedBackgroundId)
    {
      if !mounted || active.None? { return false; }
      objects := RemoveAt(objects, active.value);
      active := None;
      return true;
    }

    /**
     * Reset: all objects go (and with them the selection); the default background,
     * decoded to w x h, is cover-placed again. The selected background id is kept.
     */
    method Reset(w: real, h: real)
      requires Valid()
      requires w > 0.0 && h > 0.0
      modifies this
      ensures Valid() && mounted == old(mounted)
      ensures old(mounted) ==> objects == [] && active == None
      ensures old(mounted) ==> background == Some(CoverPlaced(BackgroundCatalogue.DefaultBackgroundImage, w, h))
      ensures !old(mounted) ==> objects == old(objects) && active == old(active) && background == old(background)
      ensures selectedBackgroundId == old(selectedBackgroundId) && borderRadius == old(borderRadius)
    {
      if !mounted { return; }
      objects := [];
      active := None;
      background := Some(CoverPlaced(BackgroundCatalogue.DefaultBackgroundImage, w, h));
    }

    /** The download request: a PNG at full quality and twice the canvas size. */
    method Download() returns (r: Option<ExportRequest>)
      ensures r.Some? <==> mounted
      ensures r.Some? ==> r.value.format == ExportFormat && r.value.quality == ExportQuality
      ensures r.Some? ==> r.value.fileName == ExportFileName && r.value.multiplier == ExportMultiplier
      ensures r.Some? ==> r.value.pixelWidth == 2560.0 && r.value.pixelHeight == 1440.0
    {
      if !mounted { return None; }
      r := Some(ExportRequest(ExportFormat, ExportQuality, ExportMultiplier, ExportFileName,
                              ExportMultiplier as real * CanvasWidth, ExportMultiplier as real * CanvasHeight));
    }
  }
}
