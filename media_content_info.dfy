/** `MediaContentInfo` and its two kinds of content. The C# classes
    `PictureMediaContent` and `MovieMediaContent` derive from
    `MediaContentInfo`; here each holds its `MediaContentInfo` part as `Info`.
    A `null` string is `None`. */
module MediaContentInfo {
  import opened Wrappers
  import opened Text
  import opened MediaContentChecker
  import opened ImageFileControl

  datatype MediaType = Picture | Movie

  /** `CheckMediaType`: the lower-cased extension of the path decides; picture
      extensions are tried first. A `null` path fails in `ToLower`. */
  function CheckMediaType(filePath: Option<string>): (r: Result<MediaType>)
    ensures r.Failure? <==> filePath.None? || r == Failure(FileFormat)
    ensures filePath.None? ==> r == Failure(NullReference)
  {
    match filePath
    case None => Failure(NullReference)
    case Some(p) =>
      var e := ToLower(GetExtension(p));
      if e in SupportPictureExtensions then Success(Picture)
      else if e in SupportMovieExtensions then Success(Movie)
      else Failure(FileFormat)
  }

  /** A string without upper-case ASCII letters is its own lower case. */
  lemma {:induction false} ToLowerOfLower(s: string)
    requires forall i :: 0 <= i < |s| ==> !('A' <= s[i] <= 'Z')
    ensures ToLower(s) == s
  {
    if s != [] {
      ToLowerOfLower(s[1..]);
    }
  }

  /** The folder listing matches `"*" + ext` for every `ext` of
      `GetSupportExtensions`, ignoring letter case, so it offers a file
      exactly when the lower-cased extension is in that table. Those are
      exactly the files with a media type, and the type is the table the
      extension came from, also for "DSC_0001.JPG". */
  lemma ListedExtensionHasMediaType(p: string)
    ensures CheckMediaType(Some(p)).Success? <==> ToLower(GetExtension(p)) in SupportPictureExtensions + SupportMovieExtensions
    ensures ToLower(GetExtension(p)) in SupportPictureExtensions ==> CheckMediaType(Some(p)) == Success(Picture)
    ensures ToLower(GetExtension(p)) in SupportMovieExtensions ==> CheckMediaType(Some(p)) == Success(Movie)
  {
    ExtensionTablesAgree(ToLower(GetExtension(p)));
  }

  /** The table's own entries are lower case, so an extension written
      exactly as listed is its own lower case. */
  lemma TableExtensionIsLower(e: string)
    requires e in SupportPictureExtensions + SupportMovieExtensions
    ensures ToLower(e) == e
  {
    forall i | 0 <= i < |e|
      ensures !('A' <= e[i] <= 'Z')
    {
    }
    ToLowerOfLower(e);
  }

  /** An upper-case extension, as a camera writes it, is a picture. */
  lemma UpperCaseExtensionIsPicture(p: string)
    requires p == "DSC_0001.JPG"
    ensures CheckMediaType(Some(p)) == Success(Picture)
  {
    assert p[8..] == ".JPG";
    assert ExtensionScan(p, 11) == ExtensionScan(p, 10) == ExtensionScan(p, 9) == ExtensionScan(p, 8) == ".JPG";
    var upper := ".JPG";
    assert ToLower(upper) == [LowerChar('.')] + ToLower("JPG");
    assert ToLower("JPG") == [LowerChar('J')] + ToLower("PG");
    assert ToLower("PG") == [LowerChar('P')] + ToLower("G");
    assert ToLower("G") == [LowerChar('G')] + ToLower("");
    assert ToLower(upper) == ".jpg";
  }

  /** When `CreateThumbnailImage` succeeds: a path to an existing file whose
      media type is known, and whose thumbnail the imaging layer (for a
      picture) or the shell (for a movie) can produce. */
  predicate ThumbnailSucceeds(filePath: Option<string>, fileExists: bool, file: Result<Frame>, shellThumbnail: Result<(int, int)>)
  {
    && filePath.Some? && fileExists
    && match CheckMediaType(filePath)
       case Success(Picture) =>
         file.Success? && (ToLower(GetExtension(filePath.value)) in SupportRawPictureExtensions || file.value.metadata.Some?)
       case Success(Movie) => shellThumbnail.Success?
       case Failure(_) => false
  }

  class MediaContentInfo {
    var FilePath: Option<string>
    /** `DateTime`, as ticks. */
    var CreateTime: int
    var MediaDate: Option<string>
    var ThumbnailImage: Option<Rendition>

    /** The parameterless constructor leaves every field at its default. */
    constructor ()
      ensures FilePath == None && CreateTime == 0 && MediaDate == None && ThumbnailImage == None
    {
      FilePath := None;
      CreateTime := 0;
      MediaDate := None;
      ThumbnailImage := None;
    }

    /** The copy constructor, for a source that is not `null`. */
    constructor Copy(source: MediaContentInfo)
      ensures FilePath == source.FilePath && CreateTime == source.CreateTime
      ensures MediaDate == source.MediaDate && ThumbnailImage == source.ThumbnailImage
    {
      FilePath := source.FilePath;
      CreateTime := source.CreateTime;
      MediaDate := source.MediaDate;
      ThumbnailImage := source.ThumbnailImage;
    }

    function ContentMediaType(): (r: Result<MediaType>)
      reads this
      ensures r == CheckMediaType(FilePath)
    {
      CheckMediaType(FilePath)
    }

    /** `FileName`: the last component of `FilePath`. */
    function FileName(): (r: Option<string>)
      reads this
      ensures r.None? <==> FilePath.None?
      ensures r.Some? ==>
                var p := FilePath.value;
                && |r.value| <= |p|
                && (forall i :: 0 <= i < |r.value| ==> r.value[i] == p[|p| - |r.value| + i])
                && (forall i :: 0 <= i < |r.value| ==> !IsSeparator(r.value[i]))
                && (|r.value| < |p| ==> IsSeparator(p[|p| - |r.value| - 1]))
    {
      match FilePath
      case None => None
      case Some(p) => GetFileNameSuffix(p); Some(GetFileName(p))
    }

    /** `CreateThumbnailImage`: `FileNotFoundException` for a missing path or
        file; otherwise the thumbnail builder for the media type. Failures of
        the media type or of the builder escape and leave the thumbnail as it
        was. `fileExists` is `File.Exists(FilePath)`; `file` and `shellThumbnail`
        are what the imaging layer and the shell report for the file. */
    method CreateThumbnailImage(fileExists: bool, file: Result<Frame>, shellThumbnail: Result<(int, int)>) returns (r: Result<bool>)
      modifies this`ThumbnailImage
      ensures FilePath.None? || !fileExists ==> r == Failure(FileNotFound)
      ensures r.Success? <==> ThumbnailSucceeds(FilePath, fileExists, file, shellThumbnail)
      ensures r.Failure? ==> ThumbnailImage == old(ThumbnailImage)
      ensures r.Success? ==> r.value && ThumbnailImage.Some? && FilePath.Some? && fileExists
      ensures r.Success? && ContentMediaType() == Success(Picture) ==> ThumbnailImage.value.origin in {EmbeddedThumbnail, FullFrame}
      ensures r.Success? && ContentMediaType() == Success(Movie) ==>
                shellThumbnail.Success? && ThumbnailImage == Some(CreateMovieThumbnailImage(shellThumbnail).value)
      ensures FilePath.Some? && fileExists && ContentMediaType().Failure? ==> r == Failure(ContentMediaType().error)
    {
      if FilePath.None? || !fileExists {
        return Failure(FileNotFound);
      }
      var mediaType := ContentMediaType();
      if mediaType.Failure? {
        return Failure(mediaType.error);
      }
      var thumbnail: Result<Rendition>;
      match mediaType.value {
        case Picture =>
          thumbnail := CreatePictureThumbnailImage(FilePath.value, file);
          if thumbnail.Success? {
            assert thumbnail.value.origin in {EmbeddedThumbnail, FullFrame} by {
              assert file.Success?;
            }
          }
        case Movie =>
          thumbnail := CreateMovieThumbnailImage(shellThumbnail);
      }
      if thumbnail.Failure? {
        return Failure(thumbnail.error);
      }
      ThumbnailImage := Some(thumbnail.value);
      r := Success(true);
    }
  }

  /** `new MediaContentInfo(source)`: the copy constructor dereferences its
      argument, so `null` fails. */
  method CopyMediaContentInfo(source: MediaContentInfo?) returns (r: Result<MediaContentInfo>)
    ensures source == null ==> r == Failure(NullReference)
    ensures source != null ==>
              && r.Success? && fresh(r.value)
              && r.value.FilePath == source.FilePath && r.value.CreateTime == source.CreateTime
              && r.value.MediaDate == source.MediaDate && r.value.ThumbnailImage == source.ThumbnailImage
  {
    if source == null {
      return Failure(NullReference);
    }
    var info := new MediaContentInfo.Copy(source);
    r := Success(info);
  }

  /** A picture: the copied `MediaContentInfo` part and the Exif texts, all
      `null` until `ExifParser` fills them. */
  class PictureMediaContent {
    const Info: MediaContentInfo
    var PictureWidth: Option<string>
    var PictureHeight: Option<string>
    var BitDepth: Option<string>
    var VerticalResolution: Option<string>
    var HorizenResolution: Option<string>
    var Aperture: Option<string>
    var ShutterSpeedText: Option<string>
    var Iso: Option<string>
    var MeteringModeText: Option<string>
    var FocalLength: Option<string>
    var CameraModel: Option<string>
    var CameraManufacturer: Option<string>
    var WhiteBlanceText: Option<string>
    var ExposeProgramText: Option<string>

    constructor (source: MediaContentInfo)
      ensures fresh(Info)
      ensures Info.FilePath == source.FilePath && Info.CreateTime == source.CreateTime
      ensures Info.MediaDate == source.MediaDate && Info.ThumbnailImage == source.ThumbnailImage
      ensures PictureWidth == None && PictureHeight == None && BitDepth == None
      ensures VerticalResolution == None && HorizenResolution == None && Aperture == None
      ensures ShutterSpeedText == None && Iso == None && MeteringModeText == None
      ensures FocalLength == None && CameraModel == None && CameraManufacturer == None
      ensures WhiteBlanceText == None && ExposeProgramText == None
    {
      Info := new MediaContentInfo.Copy(source);
      PictureWidth, PictureHeight, BitDepth := None, None, None;
      VerticalResolution, HorizenResolution, Aperture := None, None, None;
      ShutterSpeedText, Iso, MeteringModeText := None, None, None;
      FocalLength, CameraModel, CameraManufacturer := None, None, None;
      WhiteBlanceText, ExposeProgramText := None, None;
    }
  }

  /** A movie: only the copied `MediaContentInfo` part. */
  class MovieMediaContent {
    const Info: MediaContentInfo

    constructor (source: MediaContentInfo)
      ensures fresh(Info)
      ensures Info.FilePath == source.FilePath && Info.CreateTime == source.CreateTime
      ensures Info.MediaDate == source.MediaDate && Info.ThumbnailImage == source.ThumbnailImage
    {
      Info := new MediaContentInfo.Copy(source);
    }
  }

  /** `new PictureMediaContent(source)`; the parameterless constructor is the
      case `source == null`, since it passes `null` to the copy constructor. */
  method NewPictureMediaContent(source: MediaContentInfo?) returns (r: Result<PictureMediaContent>)
    ensures source == null <==> r == Failure(NullReference)
    ensures source != null ==>
              && r.Success? && fresh(r.value) && fresh(r.value.Info)
              && r.value.Info.FilePath == source.FilePath && r.value.Info.CreateTime == source.CreateTime
              && r.value.Info.MediaDate == source.MediaDate && r.value.Info.ThumbnailImage == source.ThumbnailImage
  {
    if source == null {
      return Failure(NullReference);
    }
    var content := new PictureMediaContent(source);
    r := Success(content);
  }

  /** `new MovieMediaContent(source)`, with the same `null` case. */
  method NewMovieMediaContent(source: MediaContentInfo?) returns (r: Result<MovieMediaContent>)
    ensures source == null <==> r == Failure(NullReference)
    ensures source != null ==>
              && r.Success? && fresh(r.value) && fresh(r.value.Info)
              && r.value.Info.FilePath == source.FilePath && r.value.Info.CreateTime == source.CreateTime
              && r.value.Info.MediaDate == source.MediaDate && r.value.Info.ThumbnailImage == source.ThumbnailImage
  {
    if source == null {
      return Failure(NullReference);
    }
    var content := new MovieMediaContent(source);
    r := Success(content);
  }
}
