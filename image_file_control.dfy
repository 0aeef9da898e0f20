/** `ImageFileControl`: the decisions the viewer takes around WPF's imaging
    calls. Pixels are not modelled; a decoded image is described by the
    choices made for it (decode limit, resize box, orientation transforms),
    and every WPF / file-system call is an oracle argument. */
module ImageFileControl {
  import opened Wrappers
  import opened Machine
  import opened Text
  import opened MediaContentChecker

  // --------------------------------------------------------- fit in a box

  /** `CheckPictureSize`: the source fits the box on both axes. */
  function CheckPictureSize(sourceWidth: int, sourceHeight: int, maxWidth: int, maxHeight: int): (fits: bool)
    ensures fits <==> sourceWidth <= maxWidth && sourceHeight <= maxHeight
    ensures !fits <==> sourceWidth > maxWidth || sourceHeight > maxHeight
  {
    !(sourceWidth > maxWidth || sourceHeight > maxHeight)
  }

  // ------------------------------------------------ the Exif orientation

  /** The transforms `RotateBitmapSource` hands to `TransformedBitmap`:
      `RotateTransform(90 | 180 | 270)` (clockwise on screen) and
      `ScaleTransform(-1, 1)` / `ScaleTransform(1, -1)`. */
  datatype Primitive = Rotate90 | Rotate180 | Rotate270 | MirrorX | MirrorY

  /** A pixel position (x, y) inside an image of the given size; y grows
      downwards as on screen. */
  datatype Placement = Placement(width: int, height: int, x: int, y: int)

  predicate Inside(p: Placement) { 0 <= p.x < p.width && 0 <= p.y < p.height }

  /** Where one transform sends a pixel, and the size of the image it
      produces (`TransformedBitmap` moves the result back to the origin). */
  function Step(t: Primitive, p: Placement): (q: Placement)
    ensures Inside(p) ==> Inside(q)
  {
    match t
    case Rotate90 => Placement(p.height, p.width, p.height - 1 - p.y, p.x)
    case Rotate180 => Placement(p.width, p.height, p.width - 1 - p.x, p.height - 1 - p.y)
    case Rotate270 => Placement(p.height, p.width, p.y, p.width - 1 - p.x)
    case MirrorX => Placement(p.width, p.height, p.width - 1 - p.x, p.y)
    case MirrorY => Placement(p.width, p.height, p.x, p.height - 1 - p.y)
  }

  /** A chain of transforms, applied first to last. */
  function Run(ts: seq<Primitive>, p: Placement): (q: Placement)
    ensures Inside(p) ==> Inside(q)
  {
    if ts == [] then p else Run(ts[1..], Step(ts[0], p))
  }

  /** `GetRotation`: the value of tag 274 (0x0112, Orientation, section 4.6.4
      of Exif 2.3, JEITA CP-3451) when the query finds it and 0 when it does
      not. `None` stands for a frame without `BitmapMetadata`, which the
      query dereferences. */
  datatype Metadata = Metadata(orientation: Option<UInt32>)

  function GetRotation(metadata: Option<Metadata>): (r: Result<UInt32>)
    ensures metadata.None? <==> r == Failure(NullReference)
    ensures metadata.Some? && metadata.value.orientation.None? ==> r == Success(0)
    ensures metadata.Some? && metadata.value.orientation.Some? ==> r == Success(metadata.value.orientation.value)
  {
    match metadata
    case None => Failure(NullReference)
    case Some(Metadata(None)) => Success(0)
    case Some(Metadata(Some(v))) => Success(v)
  }

  /** The switch of `RotateBitmapSource`: the transforms applied for each
      orientation value; 1, 0 and every other value leave the image alone. */
  function RotationSteps(orientation: int): (steps: seq<Primitive>)
    ensures |steps| <= 2
    ensures steps == [] <==> !(2 <= orientation <= 8)
  {
    if orientation == 3 then [Rotate180]
    else if orientation == 6 then [Rotate90]
    else if orientation == 8 then [Rotate270]
    else if orientation == 2 then [MirrorX]
    else if orientation == 4 then [MirrorY]
    else if orientation == 5 then [Rotate90, MirrorX]
    else if orientation == 7 then [Rotate270, MirrorX]
    else []
  }

  /** An element of the symmetry group of a rectangle under quarter turns and
      mirrors (the dihedral group of order 8): `turns` clockwise quarter
      turns, then a mirror in x when `mirrored`. */
  datatype Turn = Turn0 | Turn90 | Turn180 | Turn270
  datatype Symmetry = Symmetry(turns: Turn, mirrored: bool)

  function Act(g: Symmetry, p: Placement): (q: Placement)
    ensures Inside(p) ==> Inside(q)
  {
    var r := match g.turns
      case Turn0 => p
      case Turn90 => Step(Rotate90, p)
      case Turn180 => Step(Rotate180, p)
      case Turn270 => Step(Rotate270, p);
    if g.mirrored then Step(MirrorX, r) else r
  }

  /** The group element each orientation value stands for. */
  function OrientationSymmetry(orientation: int): (g: Symmetry)
  {
    if orientation == 2 then Symmetry(Turn0, true)
    else if orientation == 3 then Symmetry(Turn180, false)
    else if orientation == 4 then Symmetry(Turn180, true)
    else if orientation == 5 then Symmetry(Turn90, true)
    else if orientation == 6 then Symmetry(Turn90, false)
    else if orientation == 7 then Symmetry(Turn270, true)
    else if orientation == 8 then Symmetry(Turn270, false)
    else Symmetry(Turn0, false)
  }

  function Inverse(g: Symmetry): Symmetry
  {
    if g.mirrored then g
    else match g.turns
      case Turn0 => g
      case Turn90 => Symmetry(Turn270, false)
      case Turn180 => g
      case Turn270 => Symmetry(Turn90, false)
  }

  lemma RunPair(a: Primitive, b: Primitive, p: Placement)
    ensures Run([a, b], p) == Step(b, Step(a, p))
  {
    var ab, q := [a, b], Step(a, p);
    assert ab[0] == a && ab[1..] == [b];
    assert Run(ab, p) == Run([b], q);
    var bs := [b];
    assert bs[0] == b && bs[1..] == [];
    assert Run(bs, q) == Run([], Step(b, q));
  }

  /** The chain of transforms `RotateBitmapSource` applies for each
      orientation moves every pixel exactly as the orientation's group
      element does. */
  lemma RotationStepsRealiseSymmetry(orientation: int, p: Placement)
    ensures Run(RotationSteps(orientation), p) == Act(OrientationSymmetry(orientation), p)
  {
    if orientation == 5 {
      RunPair(Rotate90, MirrorX, p);
    } else if orientation == 7 {
      RunPair(Rotate270, MirrorX, p);
    } else if orientation == 4 {
      assert Run([MirrorY], p) == Step(MirrorY, p);
    }
  }

  /** Every transform can be undone, so no orientation loses a pixel. */
  lemma ActInverse(g: Symmetry, p: Placement)
    ensures Act(Inverse(g), Act(g, p)) == p
  {
  }

  /** The pixel that reveals a transform: the top-left corner of a 3x2 image. */
  const Probe: Placement := Placement(3, 2, 0, 0)

  /** Reads the transform back from where it sent the probe. */
  function Recover(q: Placement): Symmetry
  {
    if q.width == 3 then
      if q.y == 0 then Symmetry(Turn0, q.x != 0)
      else Symmetry(Turn180, q.x != 2)
    else
      if q.y == 0 then Symmetry(Turn90, q.x != 1)
      else Symmetry(Turn270, q.x != 0)
  }

  lemma RecoverAct(g: Symmetry)
    ensures Recover(Act(g, Probe)) == g
  {
  }

  /** Reads the orientation value back from its group element. */
  function OrientationOf(g: Symmetry): int
  {
    match g
    case Symmetry(Turn0, m) => if m then 2 else 1
    case Symmetry(Turn180, m) => if m then 4 else 3
    case Symmetry(Turn90, m) => if m then 5 else 6
    case Symmetry(Turn270, m) => if m then 7 else 8
  }

  lemma OrientationOfSymmetry(o: int)
    requires 1 <= o <= 8
    ensures OrientationOf(OrientationSymmetry(o)) == o
  {
  }

  /** The eight orientations give eight different transforms: where they send
      one probe pixel already tells any two apart. */
  lemma OrientationsDistinct(a: int, b: int)
    requires 1 <= a <= 8 && 1 <= b <= 8 && a != b
    ensures Run(RotationSteps(a), Probe) != Run(RotationSteps(b), Probe)
  {
    var ga, gb := OrientationSymmetry(a), OrientationSymmetry(b);
    RotationStepsRealiseSymmetry(a, Probe);
    RotationStepsRealiseSymmetry(b, Probe);
    RecoverAct(ga);
    RecoverAct(gb);
    OrientationOfSymmetry(a);
    OrientationOfSymmetry(b);
    assert ga != gb;
  }

  /** The transform exchanges width and height exactly for orientations 5-8. */
  predicate SwapsAxes(g: Symmetry) { g.turns == Turn90 || g.turns == Turn270 }

  lemma OrientationSwapsAxes(orientation: int, p: Placement)
    ensures SwapsAxes(OrientationSymmetry(orientation)) <==> 5 <= orientation <= 8
    ensures var q := Run(RotationSteps(orientation), p);
            if 5 <= orientation <= 8 then q.width == p.height && q.height == p.width
            else q.width == p.width && q.height == p.height
  {
    RotationStepsRealiseSymmetry(orientation, p);
  }

  // ------------------------------------------------------ the display image

  /** What `CreateViewImageFromStream` sets before decoding. */
  datatype DecodeLimit = NoLimit | PixelWidth(width: int) | PixelHeight(height: int)

  /** A limit only for a source larger than the view: the view width for a
      landscape picture, the view height for a portrait or square one, none
      for `Unknown`. */
  function DecodeLimitFor(pictureType: PictureType, sourceWidth: int, sourceHeight: int, viewWidth: int, viewHeight: int): (r: DecodeLimit)
    ensures r == PixelWidth(viewWidth) <==> !CheckPictureSize(sourceWidth, sourceHeight, viewWidth, viewHeight) && pictureType == Horizontal
    ensures r == PixelHeight(viewHeight) <==> !CheckPictureSize(sourceWidth, sourceHeight, viewWidth, viewHeight) && (pictureType == Vertical || pictureType == Square)
    ensures r == NoLimit <==> CheckPictureSize(sourceWidth, sourceHeight, viewWidth, viewHeight) || pictureType == Unknown
  {
    if CheckPictureSize(sourceWidth, sourceHeight, viewWidth, viewHeight) then NoLimit
    else match pictureType
      case Horizontal => PixelWidth(viewWidth)
      case Vertical => PixelHeight(viewHeight)
      case Square => PixelHeight(viewHeight)
      case Unknown => NoLimit
  }

  /** With the classification of `CheckPictureType`, the limited side is never
      the shorter one. */
  lemma DecodeLimitOnLongerSide(w: int, h: int, viewWidth: int, viewHeight: int)
    ensures DecodeLimitFor(PictureTypeOf(w, h), w, h, viewWidth, viewHeight).PixelWidth? ==> w > h
    ensures DecodeLimitFor(PictureTypeOf(w, h), w, h, viewWidth, viewHeight).PixelHeight? ==> h >= w
    ensures DecodeLimitFor(PictureTypeOf(w, h), w, h, viewWidth, viewHeight).NoLimit? ==> w <= viewWidth && h <= viewHeight
  {
  }

  /** Where an image came from, before any resizing. */
  datatype Origin = DecodedFile | EmbeddedThumbnail | FullFrame | ShellThumbnail

  /** The choices made for one produced image: the decode limit, the box it
      is shrunk into (when it had to be), and the orientation transforms
      applied last. */
  datatype Rendition = Rendition(origin: Origin, decode: DecodeLimit, resize: Option<(int, int)>, transforms: seq<Primitive>)

  /** The view box the source must fit: the 880x660 view area, turned on its
      side when the orientation turns the picture. */
  function ViewBox(orientation: int, viewWidth: int, viewHeight: int): (box: (int, int))
    ensures box == (if 5 <= orientation <= 8 then (viewHeight, viewWidth) else (viewWidth, viewHeight))
  {
    OrientationSwapsAxes(orientation, Placement(0, 0, 0, 0));
    if SwapsAxes(OrientationSymmetry(orientation)) then (viewHeight, viewWidth) else (viewWidth, viewHeight)
  }

  /** The rendition `ReadNotRawImage` produces for a source of the given size
      and orientation. */
  function NotRawRendition(pictureType: PictureType, sourceWidth: int, sourceHeight: int, viewWidth: int, viewHeight: int, orientation: int): Rendition
  {
    var box := ViewBox(orientation, viewWidth, viewHeight);
    Rendition(DecodedFile,
              DecodeLimitFor(pictureType, sourceWidth, sourceHeight, viewWidth, viewHeight),
              if CheckPictureSize(sourceWidth, sourceHeight, box.0, box.1) then None else Some(box),
              RotationSteps(orientation))
  }

  /** `ReadNotRawImage`: decode with a limit chosen against the unturned view,
      read the orientation, swap the view-box locals for orientations 5-8,
      shrink into that box when needed, then turn the picture upright. */
  method ReadNotRawImage(pictureType: PictureType, sourceWidth: int, sourceHeight: int, viewWidth: int, viewHeight: int, metadata: Option<Metadata>)
    returns (r: Result<Rendition>)
    ensures metadata.None? ==> r == Failure(NullReference)
    ensures metadata.Some? ==> r == Success(NotRawRendition(pictureType, sourceWidth, sourceHeight, viewWidth, viewHeight, GetRotation(metadata).value))
  {
    var decode := DecodeLimitFor(pictureType, sourceWidth, sourceHeight, viewWidth, viewHeight);
    var rotation := GetRotation(metadata);
    if rotation.Failure? {
      return Failure(rotation.error);
    }
    var orientation := rotation.value;
    var boxWidth, boxHeight := viewWidth, viewHeight;
    if orientation == 5 || orientation == 6 || orientation == 7 || orientation == 8 {
      var tmp := boxWidth;
      boxWidth := boxHeight;
      boxHeight := tmp;
    }
    var resize := None;
    if !CheckPictureSize(sourceWidth, sourceHeight, boxWidth, boxHeight) {
      resize := Some((boxWidth, boxHeight));
    }
    r := Success(Rendition(DecodedFile, decode, resize, RotationSteps(orientation)));
  }

  /** `ReadRawImage`: the first frame, shrunk into the view when needed, and
      never turned. */
  function ReadRawImage(sourceWidth: int, sourceHeight: int, viewWidth: int, viewHeight: int): (r: Rendition)
    ensures r.transforms == [] && r.decode == NoLimit
    ensures r.resize.Some? <==> sourceWidth > viewWidth || sourceHeight > viewHeight
    ensures r.resize.Some? ==> r.resize.value == (viewWidth, viewHeight)
  {
    Rendition(DecodedFile, NoLimit,
              if CheckPictureSize(sourceWidth, sourceHeight, viewWidth, viewHeight) then None else Some((viewWidth, viewHeight)),
              [])
  }

  /** What the imaging layer reports for a file: the pixel size of its first
      frame, its embedded thumbnail's size if any, and its metadata. */
  datatype Frame = Frame(width: int, height: int, thumbnail: Option<(int, int)>, metadata: Option<Metadata>)

  const ViewWidth: int := 880
  const ViewHeight: int := 660

  /** `CreateViewImage`. The size query and the file read happen outside the
      `try`, so their failures escape; a failure while decoding (`decodes`
      false, or missing metadata on the non-raw path) is caught and gives
      `null`, here `Success(None)`. */
  method CreateViewImage(filePath: string, horizontalSize: Option<UInt32>, verticalSize: Option<UInt32>, file: Result<Frame>, decodes: bool)
    returns (r: Result<Option<Rendition>>)
    ensures horizontalSize.None? || verticalSize.None? ==> r == Failure(FileNotFound)
    ensures horizontalSize.Some? && verticalSize.Some? && file.Failure? ==> r == Failure(file.error)
    ensures r.Success? && r.value.Some? ==> decodes
    ensures r.Success? && r.value.Some? && ToLower(GetExtension(filePath)) in SupportRawPictureExtensions ==>
              var info := CheckPictureType(horizontalSize, verticalSize).value;
              r.value.value == ReadRawImage(info.1, info.2, ViewWidth, ViewHeight)
    ensures r.Success? && r.value.Some? && ToLower(GetExtension(filePath)) !in SupportRawPictureExtensions ==>
              file.Success? && file.value.metadata.Some? &&
              var info := CheckPictureType(horizontalSize, verticalSize).value;
              r.value.value == NotRawRendition(info.0, info.1, info.2, ViewWidth, ViewHeight, GetRotation(file.value.metadata).value)
    ensures horizontalSize.Some? && verticalSize.Some? && file.Success? && decodes ==>
              (r == Success(None) <==> ToLower(GetExtension(filePath)) !in SupportRawPictureExtensions && file.value.metadata.None?)
  {
    var info := CheckPictureType(horizontalSize, verticalSize);
    if info.Failure? {
      return Failure(info.error);
    }
    if file.Failure? {
      return Failure(file.error);
    }
    var extension := ToLower(GetExtension(filePath));
    if !decodes {
      return Success(None);
    }
    var (pictureType, sourceWidth, sourceHeight) := info.value;
    var isRaw := CheckRawImageExtensions(extension);
    if !isRaw {
      var image := ReadNotRawImage(pictureType, sourceWidth, sourceHeight, ViewWidth, ViewHeight, file.value.metadata);
      if image.Failure? {
        return Success(None);
      }
      r := Success(Some(image.value));
    } else {
      r := Success(Some(ReadRawImage(sourceWidth, sourceHeight, ViewWidth, ViewHeight)));
    }
  }

  /** The display image of a non-raw picture is shrunk only when it exceeds
      880x660, or 660x880 when its orientation turns it on its side. */
  lemma DisplayResizeThreshold(pictureType: PictureType, w: int, h: int, orientation: int)
    ensures var r := NotRawRendition(pictureType, w, h, ViewWidth, ViewHeight, orientation);
            if 5 <= orientation <= 8 then (r.resize.Some? <==> w > 660 || h > 880) && (r.resize.Some? ==> r.resize.value == (660, 880))
            else (r.resize.Some? <==> w > 880 || h > 660) && (r.resize.Some? ==> r.resize.value == (880, 660))
  {
  }

  // --------------------------------------------------------------- thumbnails

  const ThumbnailWidth: int := 100
  const ThumbnailHeight: int := 75

  /** `CreatePictureThumnailImage`: the embedded thumbnail (or the whole frame
      when there is none), shrunk into 100x75 when larger, then turned upright
      unless the file is raw. No failure is caught. */
  method CreatePictureThumbnailImage(filePath: string, file: Result<Frame>) returns (r: Result<Rendition>)
    ensures file.Failure? ==> r == Failure(file.error)
    ensures file.Success? && r.Success? ==>
              var source := if file.value.thumbnail.Some? then file.value.thumbnail.value else (file.value.width, file.value.height);
              && r.value.origin == (if file.value.thumbnail.Some? then EmbeddedThumbnail else FullFrame)
              && r.value.decode == NoLimit
              && (r.value.resize.Some? <==> source.0 > ThumbnailWidth || source.1 > ThumbnailHeight)
              && (r.value.resize.Some? ==> r.value.resize.value == (ThumbnailWidth, ThumbnailHeight))
    ensures file.Success? && ToLower(GetExtension(filePath)) in SupportRawPictureExtensions ==> r.Success? && r.value.transforms == []
    ensures file.Success? && ToLower(GetExtension(filePath)) !in SupportRawPictureExtensions ==>
              (file.value.metadata.None? ==> r == Failure(NullReference))
              && (file.value.metadata.Some? ==> r.Success? && r.value.transforms == RotationSteps(GetRotation(file.value.metadata).value))
  {
    if file.Failure? {
      return Failure(file.error);
    }
    var frame := file.value;
    var origin, source := FullFrame, (frame.width, frame.height);
    if frame.thumbnail.Some? {
      origin, source := EmbeddedThumbnail, frame.thumbnail.value;
    }
    var resize := None;
    if !CheckPictureSize(source.0, source.1, ThumbnailWidth, ThumbnailHeight) {
      resize := Some((ThumbnailWidth, ThumbnailHeight));
    }
    var transforms := [];
    var extension := ToLower(GetExtension(filePath));
    var isRaw := CheckRawImageExtensions(extension);
    if !isRaw {
      var rotation := GetRotation(frame.metadata);
      if rotation.Failure? {
        return Failure(rotation.error);
      }
      transforms := RotationSteps(rotation.value);
    }
    r := Success(Rendition(origin, NoLimit, resize, transforms));
  }

  /** `CreateMovieThumbnailImage`: the shell's thumbnail, shrunk into 100x75
      when larger and never turned. */
  function CreateMovieThumbnailImage(shellThumbnail: Result<(int, int)>): (r: Result<Rendition>)
    ensures shellThumbnail.Failure? ==> r == Failure(shellThumbnail.error)
    ensures shellThumbnail.Success? ==> r.Success? && r.value.transforms == [] && r.value.origin == ShellThumbnail
    ensures shellThumbnail.Success? ==>
              (r.value.resize.Some? <==> shellThumbnail.value.0 > ThumbnailWidth || shellThumbnail.value.1 > ThumbnailHeight)
  {
    match shellThumbnail
    case Failure(e) => Failure(e)
    case Success((w, h)) =>
      Success(Rendition(ShellThumbnail, NoLimit,
                        if CheckPictureSize(w, h, ThumbnailWidth, ThumbnailHeight) then None else Some((ThumbnailWidth, ThumbnailHeight)),
                        []))
  }

  // ------------------------------------------------------------------ saving

  datatype Encoder = Jpeg(quality: int) | Png | Bmp | Gif | Tiff

  /** The extension dispatch of `SaveBitmapImage`: an exact match on the five
      extensions the save dialog offers. */
  function EncoderFor(extension: string, quality: int): (e: Option<Encoder>)
    ensures e.Some? <==> extension in {".jpg", ".png", ".bmp", ".gif", ".tif"}
    ensures e == Some(Jpeg(quality)) <==> extension == ".jpg"
  {
    if extension == ".jpg" then Some(Jpeg(quality))
    else if extension == ".png" then Some(Png)
    else if extension == ".bmp" then Some(Bmp)
    else if extension == ".gif" then Some(Gif)
    else if extension == ".tif" then Some(Tiff)
    else None
  }

  /** How writing the output file goes: the stream opens and the encoder
      saves; the stream cannot be opened; or it is opened (creating or
      truncating the file) and the encoder then fails. */
  datatype WriteOutcome = Written | OpenFails(openError: Error) | EncodeFails(encodeError: Error)

  /** The files that exist, by path. */
  type Files = set<string>

  /** `SaveBitmapImage`: `false` without touching any file for an extension
      it has no encoder for; otherwise the file is created and `true`
      returned, unless the write throws. */
  function SaveBitmapImage(extension: string, filePath: string, quality: int, files: Files, write: WriteOutcome): (r: (Result<bool>, Files))
    ensures EncoderFor(extension, quality).None? ==> r == (Success(false), files)
    ensures EncoderFor(extension, quality).Some? && write == Written ==> r == (Success(true), files + {filePath})
    ensures r.0.Success? ==> r.1 == files || r.1 == files + {filePath}
    ensures r.1 - {filePath} == files - {filePath}
    ensures EncoderFor(extension, quality).Some? && write.OpenFails? ==> r == (Failure(write.openError), files)
    ensures EncoderFor(extension, quality).Some? && write.EncodeFails? ==> r == (Failure(write.encodeError), files + {filePath})
  {
    if EncoderFor(extension, quality).None? then (Success(false), files)
    else match write
      case Written => (Success(true), files + {filePath})
      case OpenFails(e) => (Failure(e), files)
      case EncodeFails(e) => (Failure(e), files + {filePath})
  }

  const SaveQuality: int := 80

  /** `DeleteExifInfoAndSaveFile`: re-encode the picture without its metadata
      into the file the save dialog names (`None` when cancelled). `source`
      is what `CreateBitmapSourceFromFile` yields: that loader throws rather
      than returning `null`, so the `null` check in `DeleteExifInfoAndSaveFile`
      is never taken.
      Any failure removes the output path if it exists (a failure of that
      removal is swallowed, `deletable` false) and becomes
      `FileLoadException`. */
  function DeleteExifInfoAndSaveFile(dialog: Option<string>, source: Result<Frame>, write: WriteOutcome, deletable: bool, files: Files): (r: (Result<bool>, Files))
    ensures dialog.None? ==> r == (Success(false), files)
    ensures dialog.Some? ==> r.1 - {dialog.value} == files - {dialog.value}
    ensures r.0.Failure? ==> dialog.Some? && r.0.error == FileLoad && (deletable ==> dialog.value !in r.1)
    ensures r.0.Failure? <==> dialog.Some? && (source.Failure? || (EncoderFor(ToLower(GetExtension(dialog.value)), SaveQuality).Some? && !write.Written?))
  {
    match dialog
    case None => (Success(false), files)
    case Some(outPath) =>
      var saved := if source.Failure? then (Failure(source.error), files)
                   else SaveBitmapImage(ToLower(GetExtension(outPath)), outPath, SaveQuality, files, write);
      if saved.0.Success? then saved
      else (Failure(FileLoad), if outPath in saved.1 && deletable then saved.1 - {outPath} else saved.1)
  }

  lemma SaveCancelledChangesNothing(source: Result<Frame>, write: WriteOutcome, deletable: bool, files: Files)
    ensures DeleteExifInfoAndSaveFile(None, source, write, deletable, files) == (Success(false), files)
  {
  }

  /** With a readable source and a working file system the result is `true`
      exactly for the five savable extensions, in any letter case, and only
      then does the output file appear. */
  lemma SaveSucceedsForSavableExtensions(outPath: string, source: Result<Frame>, deletable: bool, files: Files)
    requires source.Success?
    ensures var ext := ToLower(GetExtension(outPath));
            var r := DeleteExifInfoAndSaveFile(Some(outPath), source, Written, deletable, files);
            && r.0 == Success(ext in {".jpg", ".png", ".bmp", ".gif", ".tif"})
            && r.1 == (if ext in {".jpg", ".png", ".bmp", ".gif", ".tif"} then files + {outPath} else files)
  {
  }

  /** Every failure surfaces as `FileLoadException`, leaves no output file when
      it can be removed, and touches no other file. */
  lemma SaveFailureRemovesOutput(outPath: string, source: Result<Frame>, write: WriteOutcome, deletable: bool, files: Files)
    ensures var r := DeleteExifInfoAndSaveFile(Some(outPath), source, write, deletable, files);
            r.0.Failure? ==> r.0.error == FileLoad && (deletable ==> outPath !in r.1) && r.1 - {outPath} == files - {outPath}
  {
  }

  /** A `.tiff` file is shown by the viewer but cannot be saved under that
      extension; neither can the raw formats. */
  lemma SavableIsNotShowable()
    ensures ".tiff" in SupportPictureExtensions && EncoderFor(".tiff", SaveQuality).None?
    ensures ".nef" in SupportPictureExtensions && EncoderFor(".nef", SaveQuality).None?
  {
  }
}
