/** `MediaContentChecker`: the tables of supported file extensions and the
    landscape / portrait / square classification of a picture. */
module MediaContentChecker {
  import opened Wrappers
  import opened Machine

  const SupportPictureExtensions: seq<string> := [".jpg", ".bmp", ".png", ".tiff", ".tif", ".gif", ".nef", ".dng"]
  const SupportRawPictureExtensions: seq<string> := [".nef", ".dng"]
  const SupportMovieExtensions: seq<string> := [".avi", ".mov", ".mp4"]

  datatype PictureType = Unknown | Square | Horizontal | Vertical

  /** The extensions the viewer lists in a folder: pictures, then movies. */
  method GetSupportExtensions() returns (r: array<string>)
    ensures fresh(r)
    ensures r[..] == SupportPictureExtensions + SupportMovieExtensions
  {
    var np := |SupportPictureExtensions|;
    var nm := |SupportMovieExtensions|;
    r := new string[np + nm](_ => "");
    for i := 0 to np
      invariant forall k :: 0 <= k < i ==> r[k] == SupportPictureExtensions[k]
    {
      r[i] := SupportPictureExtensions[i];
    }
    for i := 0 to nm
      invariant forall k :: 0 <= k < np ==> r[k] == SupportPictureExtensions[k]
      invariant forall k :: 0 <= k < i ==> r[np + k] == SupportMovieExtensions[k]
    {
      r[np + i] := SupportMovieExtensions[i];
    }
  }

  /** The scan every `Check*Extensions` performs: walk the whole table and
      raise the flag on an exact (case-sensitive) match. */
  method Listed(table: seq<string>, extension: string) returns (found: bool)
    ensures found <==> extension in table
  {
    found := false;
    for i := 0 to |table|
      invariant found <==> extension in table[..i]
    {
      assert table[..i + 1] == table[..i] + [table[i]];
      if table[i] == extension {
        found := true;
      }
    }
    assert table[..|table|] == table;
  }

  method CheckPictureExtensions(extension: string) returns (r: bool)
    ensures r <==> extension in {".jpg", ".bmp", ".png", ".tiff", ".tif", ".gif", ".nef", ".dng"}
  {
    r := Listed(SupportPictureExtensions, extension);
  }

  method CheckRawImageExtensions(extension: string) returns (r: bool)
    ensures r <==> extension == ".nef" || extension == ".dng"
  {
    r := Listed(SupportRawPictureExtensions, extension);
  }

  method CheckMovieExtensions(extension: string) returns (r: bool)
    ensures r <==> extension == ".avi" || extension == ".mov" || extension == ".mp4"
  {
    r := Listed(SupportMovieExtensions, extension);
  }

  /** Every raw extension is also a picture extension, and no extension is
      both a picture and a movie. */
  lemma ExtensionTablesAgree(e: string)
    ensures e in SupportRawPictureExtensions ==> e in SupportPictureExtensions
    ensures !(e in SupportPictureExtensions && e in SupportMovieExtensions)
    ensures e in SupportPictureExtensions + SupportMovieExtensions <==> e in SupportPictureExtensions || e in SupportMovieExtensions
  {
  }

  /** The folder listing's extension table has eleven distinct entries. */
  lemma SupportExtensionsDistinct()
    ensures |SupportPictureExtensions + SupportMovieExtensions| == 11
    ensures forall i, j :: 0 <= i < j < 11 ==> (SupportPictureExtensions + SupportMovieExtensions)[i] != (SupportPictureExtensions + SupportMovieExtensions)[j]
  {
  }

  /** The if-chain of `CheckPictureType` on the two (already cast) sizes; its
      closing `Unknown` return cannot be reached, since one of the three tests
      always holds. */
  function PictureTypeOf(width: int, height: int): (t: PictureType)
    ensures t == Horizontal <==> width > height
    ensures t == Vertical <==> height > width
    ensures t == Square <==> width == height
    ensures t != Unknown
  {
    if width > height then Horizontal
    else if height > width then Vertical
    else Square
  }

  /** `CheckPictureType`: the shell's `HorizontalSize` and `VerticalSize`
      (`None` when the file or the property cannot be read) are cast to
      `int`, classified, and handed back with the classification. Any
      failure becomes `FileNotFoundException`. */
  function CheckPictureType(horizontalSize: Option<UInt32>, verticalSize: Option<UInt32>): (r: Result<(PictureType, int, int)>)
    ensures r.Failure? <==> horizontalSize.None? || verticalSize.None?
    ensures r.Failure? ==> r.error == FileNotFound
    ensures r.Success? ==>
              && r.value.1 == UncheckedInt32(horizontalSize.value)
              && r.value.2 == UncheckedInt32(verticalSize.value)
              && r.value.0 == PictureTypeOf(r.value.1, r.value.2)
  {
    match (horizontalSize, verticalSize)
    case (Some(w), Some(h)) =>
      var width := UncheckedInt32(w);
      var height := UncheckedInt32(h);
      Success((PictureTypeOf(width, height), width, height))
    case _ => Failure(FileNotFound)
  }

  /** For every size an `int` can hold, the classification is that of the
      true sizes. */
  lemma CheckPictureTypeOfInt32Sizes(w: UInt32, h: UInt32)
    requires w < TwoTo31 && h < TwoTo31
    ensures CheckPictureType(Some(w), Some(h)) == Success((PictureTypeOf(w, h), w, h))
    ensures CheckPictureType(Some(w), Some(h)).value.0 == Horizontal <==> w > h
  {
  }
}
