# PhotoViewer core, modelled in Dafny

PhotoViewer is a WPF photo viewer. The user picks a folder in an explorer
tree. A background worker then lists the pictures and movies in it and
builds a thumbnail for each one. The viewer shows the selected picture at
display size, turned by its Exif orientation, with its Exif data beside it.
Up to three external programs can be linked. They are kept in a small XML
file and offered in the context menu as "<name>で開く".

This project models that core as Dafny modules, one per source component:

- `Text`, `Machine`, `Xml`: the .NET library behaviour the core relies on.
  This covers `Split`, `Trim`, `ulong.TryParse`, `Convert.ToInt32`,
  `Path.GetFileName`, `Path.GetExtension`, `ToLower`, `string.Replace` and
  unchecked 32-bit casts. It also covers an XML element tree with a file
  store.
- `NaturalSortHelper`: the natural-order string comparer and the sort
  wrappers built on it.
- `MediaContentChecker`, `MediaContentInfo`, `ImageFileControl`,
  `ExifParser`: the extension tables, the media type of a file, thumbnail
  and display-image construction, and the Exif texts.
- `WrappingStream`: the disposable stream wrapper.
- `ExtraAppSetting`, `LinkageProgramViewModel`: the linked-program file and
  its dialog.
- `MainWindowViewModel`: the folder-loading worker as a state machine, the
  linked-program table and the context menu.
- `ExplorerTreeSourceViewModel`: the lazily expanded directory tree.
- `MediaTypeToVisibilityConverter`: the XAML converter.

Anything the program asks of the outside world is a parameter. That covers
whether a directory or file exists, what `Directory.GetFiles` and
`GetDirectories` list, what the imaging layer and the shell report, and when
a cancellation is first seen. Classes whose fields the source updates in
place are Dafny classes with `modifies` frames. Pure logic is functions and
lemmas.

## Model

| member | source | states |
|---|---|---|
| Text.NatToStringValue | PhotoViewer/Model/ExtraAppSetting.cs:103 | The decimal text of a natural number reads back as that number. |
| Text.IntToStringParses | PhotoViewer/Model/ExtraAppSetting.cs:103-137 | `Convert.ToInt32` of `Id.ToString()` gives the Id back, for every 32-bit Id. |
| Text.ParseInt32 | PhotoViewer/Model/ExtraAppSetting.cs:137 | A successful parse lies in the 32-bit range. Every failure is a format error or an overflow error. |
| Text.TryParseULong | PhotoViewer/Model/NaturalSortHelper.cs:39 | A successful parse is below 2^64. |
| Text.TryParseULongOfDigits | PhotoViewer/Model/NaturalSortHelper.cs:39 | A digit run parses exactly when its value is below 2^64, and then to that value. |
| Text.TryParseULongOfNonDigits | PhotoViewer/Model/NaturalSortHelper.cs:39 | Text without digits never parses as a `ulong`. |
| Text.SplitJoin | PhotoViewer/Converters/MediaTypeToVisibilityConverter.cs:23 | Joining the pieces of `Split(sep)` with `sep` gives the input back. |
| Text.SplitPiecesFree | PhotoViewer/Converters/MediaTypeToVisibilityConverter.cs:23 | No piece of `Split(sep)` contains `sep`. |
| Text.SplitWithoutSeparator | PhotoViewer/Converters/MediaTypeToVisibilityConverter.cs:23 | Text without the separator splits into itself alone. |
| Text.TrimStartSuffix | PhotoViewer/Converters/MediaTypeToVisibilityConverter.cs:25 | `TrimStart` returns a suffix of its input that does not start with white space, and drops only white space. |
| Text.TrimEndPrefix | PhotoViewer/Converters/MediaTypeToVisibilityConverter.cs:25 | `TrimEnd` returns a prefix of its input that does not end with white space, and drops only white space. |
| Text.RemoveAllSuffix | PhotoViewer/ViewModel/MainWindowViewModel.cs:210 | Removing every "で開く" from "<name>で開く" gives the name back when the name does not create a new match. |
| Text.GetFileNameSuffix | PhotoViewer/Model/MediaContentInfo.cs:40-43 | `Path.GetFileName` is the longest suffix free of path separators. |
| Text.GetExtension | PhotoViewer/Model/MediaContentInfo.cs:96 | The result is "" or a suffix of the path that starts at its last dot, with no dot or separator after it. |
| Text.GetFileNameWithoutExtension | PhotoViewer/ViewModel/LinkageProgramViewModel.cs:212 | The file name cut at its last dot: a prefix of the file name, the whole name when it has no dot, and otherwise ending just before a dot with no dot after it. With a non-empty extension, the result followed by that extension is the file name. |
| Text.GetFileNameWithoutExtensionExamples | PhotoViewer/ViewModel/LinkageProgramViewModel.cs:212 | "foo." has no extension but loses its trailing dot, and "a.tar.gz" loses only ".gz". |
| Text.ToLowerChars | PhotoViewer/Model/MediaContentInfo.cs:96 | `ToLower` maps each character to its ASCII lower case and keeps the length. Letters outside A-Z are kept, as the Left out section states. |
| Machine.UncheckedInt32 | PhotoViewer/Model/ExifParser.cs:184-185 | An unchecked `(int)` cast of a `uint` keeps values below 2^31 and wraps larger ones to negative values. |
| Machine.TruncDivision | PhotoViewer/Model/ExifParser.cs:188-195 | C#'s `/` and `%` truncate toward zero: `a == b*q + r`, with `|r| < |b|` and `r` taking the sign of `a`. |
| Xml.Element | PhotoViewer/Model/ExtraAppSetting.cs:132-134 | `Element(name)` is `null` exactly when no child element has that name. Otherwise it is the first child element with that name: no child before it is an element with that name. |
| Xml.Elements | PhotoViewer/Model/ExtraAppSetting.cs:128 | `Elements()` yields only elements, every element child occurs in it, a text node yields nothing, and all children are yielded when every child is an element. |
| Xml.ElementsOfAppend | PhotoViewer/Model/ExtraAppSetting.cs:128 | Document order: the elements of two runs of children are those of the first run followed by those of the second. |
| Xml.FileSystem.Load | PhotoViewer/Model/ExtraAppSetting.cs:127 | Loading succeeds exactly for a stored path and returns the stored document. A missing file fails with `FileNotFound`. |
| Xml.FileSystem.Save | PhotoViewer/Model/ExtraAppSetting.cs:148-151 | Without a fault, saving overwrites the document at the path and leaves every other path alone. With a fault (`IOException`, `UnauthorizedAccessException`) the documents are unchanged and the exception is returned. |
| Xml.FileSystem.CreateDirectory | PhotoViewer/Model/ExtraAppSetting.cs:64-67 | Without a fault, the directory set gains exactly the path. With a fault the set is unchanged and the exception is returned. |
| NaturalSortHelper.SplitBy | PhotoViewer/Model/NaturalSortHelper.cs:9-21 | The loop yields exactly `Chunks(source)`, splitting wherever `NumberCharBorder` holds between two neighbours. |
| NaturalSortHelper.ChunksConcat | PhotoViewer/Model/NaturalSortHelper.cs:9-21 | The chunks concatenate back to the source string. |
| NaturalSortHelper.ChunksAreRuns | PhotoViewer/Model/NaturalSortHelper.cs:9-25 | Every chunk is all digits or has no digit, and no chunk of a non-empty string is empty. |
| NaturalSortHelper.ChunksAlternate | PhotoViewer/Model/NaturalSortHelper.cs:9-25 | Neighbouring chunks alternate between digit runs and non-digit runs. |
| NaturalSortHelper.ChunksOfRun | PhotoViewer/Model/NaturalSortHelper.cs:9-21 | A single run is one chunk. |
| NaturalSortHelper.ChunksAppendRun | PhotoViewer/Model/NaturalSortHelper.cs:9-21 | Appending a run across a border appends exactly that run as a new chunk. |
| NaturalSortHelper.Compare | PhotoViewer/Model/NaturalSortHelper.cs:27-49 | The enumerator loop returns `NaturalCompare(x, y, cmp)`. |
| NaturalSortHelper.CompareChunksFirstDifference | PhotoViewer/Model/NaturalSortHelper.cs:32-43 | The result is decided by the first chunk pair that does not compare equal. |
| NaturalSortHelper.CompareChunksAllTie | PhotoViewer/Model/NaturalSortHelper.cs:45-46 | When every common chunk pair ties, the string with more chunks is larger. |
| NaturalSortHelper.ChunkCompareFallsBack | PhotoViewer/Model/NaturalSortHelper.cs:39-41 | A chunk that is not a `ulong` (text, or a number of 2^64 or more) is compared with the string comparer. |
| NaturalSortHelper.NaturalCompareReflexive | PhotoViewer/Model/NaturalSortHelper.cs:27-49 | Given a string comparer that is reflexive, every string compares equal to itself. |
| NaturalSortHelper.NaturalCompareAntisymmetric | PhotoViewer/Model/NaturalSortHelper.cs:27-49 | Given an antisymmetric string comparer, swapping the arguments flips the sign of the result. |
| NaturalSortHelper.NumberedNamesCompareByValue | PhotoViewer/Model/NaturalSortHelper.cs:39-40 | Names that differ only in a numeric suffix below 2^64 compare by its value ("img9" before "img10"), not by its text. |
| NaturalSortHelper.OrdinalAntisymmetric | PhotoViewer/Model/NaturalSortHelper.cs:41 | The ordinal string comparison is antisymmetric. |
| NaturalSortHelper.OrdinalZero | PhotoViewer/Model/NaturalSortHelper.cs:41 | The ordinal string comparison returns 0 exactly for equal strings. |
| NaturalSortHelper.OrdinalTransitive | PhotoViewer/Model/NaturalSortHelper.cs:41 | The ordinal string comparison is transitive. |
| NaturalSortHelper.NaturalComparerIntransitive | PhotoViewer/Model/NaturalSortHelper.cs:39-41 | As written, "3" < "20" and "20" < "20000000000000000000", yet "3" > "20000000000000000000". |
| NaturalSortHelper.IntransitiveShape | PhotoViewer/Model/NaturalSortHelper.cs:39-41 | Any three numerals with two below 2^64 and one above, placed so, break transitivity. |
| NaturalSortHelper.NaturalOrderAgreesWithinULong | PhotoViewer/Model/NaturalSortHelper.cs:27-49 | When every digit run fits a `ulong`, the corrected order equals the written comparer under ordinal comparison. |
| NaturalSortHelper.NaturalOrderIsPreorder | PhotoViewer/Model/NaturalSortHelper.cs:27-49 | The corrected order is reflexive, antisymmetric and transitive on all strings. |
| NaturalSortHelper.NaturalOrderOnFindingInput | PhotoViewer/Model/NaturalSortHelper.cs:39-41 | The corrected order puts "3" < "20" < "20000000000000000000" consistently. |
| NaturalSortHelper.NumeralsInOrder | PhotoViewer/Model/NaturalSortHelper.cs:39-40 | Numerals of any length are ordered by value. |
| NaturalSortHelper.OrderBy | PhotoViewer/Model/NaturalSortHelper.cs:76-94 | The result is a permutation of the source, sorted by the key in the chosen direction, and stable: the elements whose keys tie keep their order. |
| NaturalSortHelper.InsertTies | PhotoViewer/Model/NaturalSortHelper.cs:76-94 | Insertion into a sorted run puts the new element after every element whose key ties with its own. |
| NaturalSortHelper.NaturallyOrderBy | PhotoViewer/Model/NaturalSortHelper.cs:76-84 | The result is a permutation of the source whose keys are ascending in natural order, with tied keys in source order. |
| NaturalSortHelper.NaturallyOrderByDescending | PhotoViewer/Model/NaturalSortHelper.cs:86-94 | The result is a permutation of the source whose keys are descending in natural order, with tied keys in source order. |
| MediaContentChecker.GetSupportExtensions | PhotoViewer/Model/MediaContentChecker.cs:29-40 | Returns a fresh array: the picture extensions followed by the movie extensions. |
| MediaContentChecker.Listed | PhotoViewer/Model/MediaContentChecker.cs:47-60 | The flag loop is true exactly when the extension is in the table, with case-sensitive matching. |
| MediaContentChecker.CheckPictureExtensions | PhotoViewer/Model/MediaContentChecker.cs:47-60 | True exactly for the eight picture extensions. |
| MediaContentChecker.CheckRawImageExtensions | PhotoViewer/Model/MediaContentChecker.cs:67-80 | True exactly for ".nef" and ".dng". |
| MediaContentChecker.CheckMovieExtensions | PhotoViewer/Model/MediaContentChecker.cs:87-100 | True exactly for ".avi", ".mov" and ".mp4". |
| MediaContentChecker.ExtensionTablesAgree | PhotoViewer/Model/MediaContentChecker.cs:10-12 | Raw extensions are picture extensions, and no extension is both a picture and a movie. |
| MediaContentChecker.SupportExtensionsDistinct | PhotoViewer/Model/MediaContentChecker.cs:29-40 | The combined table has eleven distinct entries. |
| MediaContentChecker.PictureTypeOf | PhotoViewer/Model/MediaContentChecker.cs:120-135 | Horizontal iff width > height, Vertical iff height > width, Square iff they are equal. The final `Unknown` is unreachable. |
| MediaContentChecker.CheckPictureType | PhotoViewer/Model/MediaContentChecker.cs:109-141 | A missing size property fails with `FileNotFound`. Otherwise the sizes are returned after the `(int)` cast, with their classification. |
| MediaContentChecker.CheckPictureTypeOfInt32Sizes | PhotoViewer/Model/MediaContentChecker.cs:117-122 | For sizes below 2^31 the cast changes nothing and the classification is that of the true sizes. |
| MediaContentInfo.CheckMediaType | PhotoViewer/Model/MediaContentInfo.cs:94-107 | The lower-cased extension decides: picture first, then movie. Otherwise it fails with `FileFormatException`; a `null` path fails with a null reference. |
| MediaContentInfo.ListedExtensionHasMediaType | PhotoViewer/Model/MediaContentInfo.cs:94-107 | A file has a media type exactly when its lower-cased extension is in the listing's table, the one the case-insensitive folder listing matches. The type is the table the lowered extension is in. An extension written exactly as in the table is its own lower case. |
| MediaContentInfo.UpperCaseExtensionIsPicture | PhotoViewer/Model/MediaContentInfo.cs:96 | "DSC_0001.JPG" is a picture, because the extension is lower-cased before the lookup. |
| MediaContentInfo.MediaContentInfo.constructor | PhotoViewer/Model/MediaContentInfo.cs:73-75 | Every field starts at its default. |
| MediaContentInfo.MediaContentInfo.Copy | PhotoViewer/Model/MediaContentInfo.cs:81-87 | Copies path, creation time, media date and thumbnail. |
| MediaContentInfo.MediaContentInfo.ContentMediaType | PhotoViewer/Model/MediaContentInfo.cs:22-25 | The media type of the current `FilePath`. |
| MediaContentInfo.MediaContentInfo.FileName | PhotoViewer/Model/MediaContentInfo.cs:40-43 | `null` iff the path is `null`. Otherwise it is the separator-free last component of the path. |
| MediaContentInfo.MediaContentInfo.CreateThumbnailImage | PhotoViewer/Model/MediaContentInfo.cs:115-137 | A missing path or file fails with `FileNotFound`. Success (`true`) happens exactly when the builder for the media type can produce a thumbnail, and only then is `ThumbnailImage` set. On failure the thumbnail is unchanged. |
| MediaContentInfo.CopyMediaContentInfo | PhotoViewer/Model/MediaContentInfo.cs:81-87 | A `null` source fails with a null reference. Otherwise the result is a fresh copy. |
| MediaContentInfo.PictureMediaContent.constructor | PhotoViewer/Model/MediaContentInfo.cs:298-300 | A fresh copy of the base part, with every Exif text `null`. |
| MediaContentInfo.MovieMediaContent.constructor | PhotoViewer/Model/MediaContentInfo.cs:317-319 | A fresh copy of the base part. |
| MediaContentInfo.NewPictureMediaContent | PhotoViewer/Model/MediaContentInfo.cs:291-300 | The parameterless form passes `null` to the copy constructor and fails. Otherwise it copies. |
| MediaContentInfo.NewMovieMediaContent | PhotoViewer/Model/MediaContentInfo.cs:310-319 | Same as for a picture. |
| ImageFileControl.CheckPictureSize | PhotoViewer/Model/ImageFileControl.cs:507-517 | True exactly when neither side exceeds its maximum. |
| ImageFileControl.GetRotation | PhotoViewer/Model/ImageFileControl.cs:435-444 | The Exif orientation tag, or 0 when it is absent. A `null` metadata object fails. |
| ImageFileControl.RotationStepsRealiseSymmetry | PhotoViewer/Model/ImageFileControl.cs:454-481 | For every orientation, the transforms of the switch act on a pixel as the corresponding rotation/mirror symmetry does. |
| ImageFileControl.ActInverse | PhotoViewer/Model/ImageFileControl.cs:454-481 | Each of those symmetries is undone by its inverse, so no orientation loses a pixel. |
| ImageFileControl.OrientationOfSymmetry | PhotoViewer/Model/ImageFileControl.cs:454-481 | Orientations 1 to 8 map to eight different symmetries, and each is recovered from its symmetry. |
| ImageFileControl.OrientationsDistinct | PhotoViewer/Model/ImageFileControl.cs:454-481 | Two different orientations place a probe pixel differently. |
| ImageFileControl.OrientationSwapsAxes | PhotoViewer/Model/ImageFileControl.cs:189-195 | Orientations 5 to 8 are exactly those that swap width and height, which is why the view box is swapped for them. |
| ImageFileControl.ViewBox | PhotoViewer/Model/ImageFileControl.cs:189-195 | The view box is swapped exactly for orientations 5 to 8. |
| ImageFileControl.DecodeLimitFor | PhotoViewer/Model/ImageFileControl.cs:374-391 | A picture that fits is decoded unlimited. A larger horizontal picture is limited in width, and a larger vertical or square one in height. |
| ImageFileControl.DecodeLimitOnLongerSide | PhotoViewer/Model/ImageFileControl.cs:374-391 | The decode limit is always put on the longer side, and no limit means the picture fits. |
| ImageFileControl.ReadNotRawImage | PhotoViewer/Model/ImageFileControl.cs:173-206 | Decode with the limit, resize into the orientation's view box when too large, then apply the orientation's transforms. `null` metadata fails. |
| ImageFileControl.ReadRawImage | PhotoViewer/Model/ImageFileControl.cs:217-230 | A raw image is not turned. It is resized into the view box exactly when a side exceeds it. |
| ImageFileControl.CreateViewImage | PhotoViewer/Model/ImageFileControl.cs:103-161 | Missing sizes fail with `FileNotFound`. A failed decode, or a non-raw file without metadata, gives `null`. Otherwise a raw file takes the raw path and any other file the non-raw path, into 880x660. |
| ImageFileControl.DisplayResizeThreshold | PhotoViewer/Model/ImageFileControl.cs:197-200 | The display image is resized exactly when a side exceeds the orientation's 880x660 box. |
| ImageFileControl.CreatePictureThumbnailImage | PhotoViewer/Model/ImageFileControl.cs:237-280 | Uses the embedded thumbnail, else the full frame. It is resized into 100x75 when larger, and turned unless the file is raw. |
| ImageFileControl.CreateMovieThumbnailImage | PhotoViewer/Model/ImageFileControl.cs:287-304 | The shell thumbnail, resized into 100x75 when larger, never turned. |
| ImageFileControl.EncoderFor | PhotoViewer/Model/ImageFileControl.cs:526-603 | An encoder exists exactly for ".jpg", ".png", ".bmp", ".gif" and ".tif". Only JPEG carries the quality. |
| ImageFileControl.SaveBitmapImage | PhotoViewer/Model/ImageFileControl.cs:526-603 | Without an encoder it returns `false` and touches no file. With one, a successful write creates the output and returns `true`. A failed open throws before the file exists. A failed encode throws after `FileMode.Create` has made the file. No file other than the output ever changes. |
| ImageFileControl.RotationSteps | PhotoViewer/Model/ImageFileControl.cs:454-481 | The switch applies at most two transforms, and none exactly for orientations outside 2..8. |
| ImageFileControl.DeleteExifInfoAndSaveFile | PhotoViewer/Model/ImageFileControl.cs:43-96 | A cancelled dialog returns `false` and changes nothing. Only the chosen output can change. Every failure becomes a `FileLoadException`, and the half-written output is deleted when it can be. It fails exactly when the picture cannot be read or an encoder exists and the write fails. |
| ImageFileControl.SaveCancelledChangesNothing | PhotoViewer/Model/ImageFileControl.cs:43-46 | A cancelled save dialog returns `false` and changes no file. |
| ImageFileControl.SaveSucceedsForSavableExtensions | PhotoViewer/Model/ImageFileControl.cs:43-67 | With a readable picture and a write that succeeds, saving succeeds exactly for the five savable extensions, in any letter case. Only then does the output appear. |
| ImageFileControl.SaveFailureRemovesOutput | PhotoViewer/Model/ImageFileControl.cs:69-84 | Every failure becomes `FileLoadException`. The output path is removed when it can be, and no other file changes. |
| ImageFileControl.SavableIsNotShowable | PhotoViewer/Model/MediaContentChecker.cs:10 | ".tiff" and ".nef" are shown but cannot be saved under their own extension. |
| ExifParser.PropertyText | PhotoViewer/Model/ExifParser.cs:43-60 | A missing string property becomes "". |
| ExifParser.NumberText | PhotoViewer/Model/ExifParser.cs:96-118 | A missing number becomes "". A present one becomes its decimal digits, which read back as the value. |
| ExifParser.ShutterSpeedFraction | PhotoViewer/Model/ExifParser.cs:176-196 | A missing term gives "". A zero numerator throws `DivideByZeroException`. |
| ExifParser.ShutterSpeedWhenNumeratorDivides | PhotoViewer/Model/ExifParser.cs:187-195 | When the numerator divides the denominator, the text is "1/<den/num>". |
| ExifParser.ShutterSpeedNotReduced | PhotoViewer/Model/ExifParser.cs:187-195 | As written, 6/10 s is shown as "1/2", a different exposure time. |
| ExifParser.GcdDivides | PhotoViewer/Model/ExifParser.cs:187 | The greatest common divisor divides both terms. |
| ExifParser.GcdGreatest | PhotoViewer/Model/ExifParser.cs:187 | Every common divisor divides the greatest one. |
| ExifParser.ReducedShutterSpeedFraction | PhotoViewer/Model/ExifParser.cs:176-196 | The corrected text has the same missing and zero cases as the written one. |
| ExifParser.ReducedFractionIsLowestTerms | PhotoViewer/Model/ExifParser.cs:187-195 | Dividing by the GCD keeps the value of the fraction and leaves terms whose only common divisor is 1. |
| ExifParser.ReducedAgreesWhenNumeratorDivides | PhotoViewer/Model/ExifParser.cs:187-195 | The corrected and written texts agree whenever the numerator divides the denominator. |
| ExifParser.ReducedShutterSpeedOnFindingInput | PhotoViewer/Model/ExifParser.cs:187-195 | The corrected text of 6/10 is "3/5". |
| ExifParser.SetMediaDate | PhotoViewer/Model/ExifParser.cs:43-60 | Sets `MediaDate` to the creation date text, or "". |
| ExifParser.SetCameraData | PhotoViewer/Model/ExifParser.cs:67-89 | Sets camera model and maker texts, or "". |
| ExifParser.SetImageWidthAndHeight | PhotoViewer/Model/ExifParser.cs:96-118 | Sets width and height texts from the pixel sizes, or "". |
| ExifParser.SetImageResolutionWidthAndHeight | PhotoViewer/Model/ExifParser.cs:125-147 | Sets both resolution texts, or "". |
| ExifParser.SetBitDepth | PhotoViewer/Model/ExifParser.cs:154-166 | Sets the bit-depth text, or "". |
| ExifParser.SetFnumberAndShutterSpeed | PhotoViewer/Model/ExifParser.cs:173-207 | Sets the shutter-speed text to the fraction and the aperture text. When the fraction's arithmetic throws, that exception is returned and neither text changes. |
| ExifParser.SetISO | PhotoViewer/Model/ExifParser.cs:214-226 | Sets the ISO text, or "". |
| ExifParser.SetFocusLength | PhotoViewer/Model/ExifParser.cs:233-245 | Sets the focal-length text, or "". |
| ExifParser.SetExposeModeAndWhiteBlance | PhotoViewer/Model/ExifParser.cs:252-274 | Sets the exposure-program and white-balance texts, or "". |
| ExifParser.SetMeteringMode | PhotoViewer/Model/ExifParser.cs:281-293 | Sets the metering-mode text, or "". |
| ExifParser.SetFileProperty | PhotoViewer/Model/ExifParser.cs:10-36 | If the property store cannot be opened, nothing changes. The first five setters always run. The last four run exactly when the shutter-speed arithmetic does not throw. |
| ExifParser.SetExifDataToMediaInfo | PhotoViewer/Model/ExifParser.cs:298-305 | A `null` path fails with an argument-null error and changes nothing. Otherwise the result is that of `SetFileProperty` on the file's property store: nothing changes if the store cannot be opened; the first five setters run; the last four and the aperture run exactly when the shutter-speed arithmetic does not throw, and the error is that exception otherwise. |
| ExtraAppSetting.ExtraAppXml | PhotoViewer/Model/ExtraAppSetting.cs:93-119 | Builds a version-1.0 utf-8 document with root "datas" and one "data" element per setting, in order, holding id, name and path. |
| ExtraAppSetting.CreateExtraAppXml | PhotoViewer/Model/ExtraAppSetting.cs:93-119 | The loop builds exactly `ExtraAppXml(settings)`. |
| ExtraAppSetting.ParseSetting | PhotoViewer/Model/ExtraAppSetting.cs:132-139 | Every failure is a null reference (a missing element), a format error or an overflow (a bad id). |
| ExtraAppSetting.LeadingSettings | PhotoViewer/Model/ExtraAppSetting.cs:130-142 | The settings parsed before the first failure, in order, and that failure. |
| ExtraAppSetting.ParseExtraAppXml | PhotoViewer/Model/ExtraAppSetting.cs:124-143 | Appends the leading parsed settings to the list and reports the failure that stopped it. |
| ExtraAppSetting.Import | PhotoViewer/Model/ExtraAppSetting.cs:74-88 | Keeps the list as a prefix. A missing file or a parse failure becomes `IOException`, and the settings read before the failure stay appended. |
| ExtraAppSetting.ImportIfPresent | PhotoViewer/Model/ExtraAppSetting.cs:74-88 | The corrected import: a missing file leaves the list as it is without an error; an existing file is read as `Import` reads it. |
| ExtraAppSetting.Export | PhotoViewer/Model/ExtraAppSetting.cs:51-69 | Succeeds exactly when the missing folder can be made and the file saved; then the folder exists and exactly the conf file holds the list's document. A failed folder creation changes nothing; a failed save leaves the new folder and the old file. The exception is returned in both cases. |
| ExtraAppSetting.ParseDataElement | PhotoViewer/Model/ExtraAppSetting.cs:132-139 | Parsing the "data" element of a setting gives the setting back. |
| ExtraAppSetting.ParseOfExtraAppXml | PhotoViewer/Model/ExtraAppSetting.cs:93-143 | Parsing the document built from a list gives the whole list back with no failure. |
| ExtraAppSetting.ImportAfterExport | PhotoViewer/Model/ExtraAppSetting.cs:57-79 | `Export` writes the path `Import` reads, so importing after exporting appends exactly the exported settings. |
| ExtraAppSetting.ConfPathsAgree | PhotoViewer/Model/ExtraAppSetting.cs:57-77 | The folder plus file name that `Export` writes equals the path that `Import` reads. |
| ExtraAppSetting.LeadingSettingsOfSuccesses | PhotoViewer/Model/ExtraAppSetting.cs:130-142 | When every element parses, the loop keeps all of them and reports no failure. |
| LinkageProgramViewModel.SlotPathIsLastWithId | PhotoViewer/ViewModel/LinkageProgramViewModel.cs:137-153 | Each slot shows the path of the last setting with its Id, or "" when there is none. |
| LinkageProgramViewModel.LinkageProgramViewModel.constructor | PhotoViewer/ViewModel/LinkageProgramViewModel.cs:125-153 | The dialog holds the imported table and an empty queue. Each slot shows `SlotPath` of the table. |
| LinkageProgramViewModel.NewLinkageProgramViewModel | PhotoViewer/ViewModel/LinkageProgramViewModel.cs:125-134 | An import failure becomes `IOException`. Otherwise the dialog is built on the imported settings. |
| LinkageProgramViewModel.LinkageProgramViewModel.LinkAppReferenceButtonClicked | PhotoViewer/ViewModel/LinkageProgramViewModel.cs:160-260 | Cancelling changes nothing. Choosing a program sets that slot only, and queues one setting with the slot's Id, the file name without extension, and the path. |
| LinkageProgramViewModel.LinkageProgramViewModel.LinkAppDeleteButtonClicked | PhotoViewer/ViewModel/LinkageProgramViewModel.cs:265-307 | Raises the delete event for the slot. When the handler returns normally, that slot only is emptied. An exception from the handler propagates and leaves every slot as it was. |
| LinkageProgramViewModel.LinkageProgramViewModel.AllLinkAppDeleteButtonClicked | PhotoViewer/ViewModel/LinkageProgramViewModel.cs:312-319 | Raises the all-delete event and empties the three slots. |
| LinkageProgramViewModel.LinkageProgramViewModel.RegisterLinkAppButtonClicked | PhotoViewer/ViewModel/LinkageProgramViewModel.cs:324-335 | Raises the linkage event with the queued settings. The queue is emptied when the handler returns normally; an exception from the handler propagates and leaves the queue as it was. |
| LinkageProgramViewModel.SlotsAfterExport | PhotoViewer/ViewModel/LinkageProgramViewModel.cs:125-153 | After a list is exported, a dialog opened on it shows in each slot the last path with that Id. |
| LinkageProgramViewModel.SlotPathOfAppended | PhotoViewer/ViewModel/LinkageProgramViewModel.cs:137-153 | A setting appended for a slot becomes that slot's path, and other slots keep theirs. |
| MainWindowViewModel.MainWindowViewModel.constructor | PhotoViewer/ViewModel/MainWindowViewModel.cs:150-166 | The field initialisation: empty paths, no worker, no owed reload, empty media list, empty table, empty menu and empty dictionary. |
| MainWindowViewModel.NewMainWindowViewModel | PhotoViewer/ViewModel/MainWindowViewModel.cs:150-187 | A missing conf file makes the constructor throw `IOException`. On success the table is the parsed file, every icon loaded and every Name is distinct, and the first load of the common pictures folder has been requested. A failure is the import's `IOException` or the menu's exception. |
| MainWindowViewModel.StartWithTable | PhotoViewer/ViewModel/MainWindowViewModel.cs:172-186 | After the import, the constructor succeeds exactly when the menu builds. Then the menu and the dictionary hold the whole table, and a load of the common pictures folder runs when that folder exists. |
| MainWindowViewModel.MainWindowViewModel.LoadPictureContentsList | PhotoViewer/ViewModel/MainWindowViewModel.cs:458-482 | A missing folder restores the previous path and clears it. Otherwise the list is emptied and exactly one worker starts on the selected folder. |
| MainWindowViewModel.MainWindowViewModel.UpdatePictureContentsList | PhotoViewer/ViewModel/MainWindowViewModel.cs:436-453 | A busy worker is asked to cancel and a reload is owed. An idle worker with a reload owed does nothing. Otherwise a load starts. |
| MainWindowViewModel.MainWindowViewModel.ChangePictureContentsList | PhotoViewer/ViewModel/MainWindowViewModel.cs:415-431 | The current folder changes nothing. Another folder becomes the selection, the old one becomes the previous path, and the list is updated. |
| MainWindowViewModel.ListCandidates | PhotoViewer/ViewModel/MainWindowViewModel.cs:507-522 | The first loop completes exactly when every listing succeeds and no cancellation is seen, and then yields the files of every extension in table order. A stop on cancellation comes at a checkpoint before an extension. |
| MainWindowViewModel.ProcessFiles | PhotoViewer/ViewModel/MainWindowViewModel.cs:525-557 | The number of files added and whether it stopped on cancellation. A shortfall is a cancellation or a failed thumbnail. |
| MainWindowViewModel.ProcessFilesStops | PhotoViewer/ViewModel/MainWindowViewModel.cs:525-557 | Every added file had its thumbnail. The loop stops at the first failed thumbnail unless a cancellation comes first. |
| MainWindowViewModel.ThumbnailOutcomeAt | PhotoViewer/ViewModel/MainWindowViewModel.cs:530-545 | The outcome recorded for the i-th file is whether its own thumbnail can be built. |
| MainWindowViewModel.ProcessFilesAt | PhotoViewer/ViewModel/MainWindowViewModel.cs:525-557 | One iteration of the second loop: a cancellation stops it, a failed thumbnail stops it without cancelling, and otherwise the file counts and the loop goes on. |
| MainWindowViewModel.ListCandidatesAt | PhotoViewer/ViewModel/MainWindowViewModel.cs:507-522 | One iteration of the first loop: a checkpoint that sees the cancellation stops it, a failed listing stops it without cancelling, and otherwise the extension's files come before those of the rest. |
| MainWindowViewModel.MainWindowViewModel.ListFiles | PhotoViewer/ViewModel/MainWindowViewModel.cs:507-522 | The first loop yields exactly `ListCandidates`. |
| MainWindowViewModel.MainWindowViewModel.AddMediaContents | PhotoViewer/ViewModel/MainWindowViewModel.cs:525-557 | Appends one fresh content with a thumbnail per processed candidate, in order, keeping the old entries. |
| MainWindowViewModel.MainWindowViewModel.NewMediaContent | PhotoViewer/ViewModel/MainWindowViewModel.cs:530-545 | A fresh content for the candidate. Its thumbnail is set when the thumbnail succeeds. |
| MainWindowViewModel.MainWindowViewModel.LoadPictureContentsWorker | PhotoViewer/ViewModel/MainWindowViewModel.cs:502-558 | Combines the two loops. The list grows by exactly the processed candidates, and `Cancel` is set as the loops decide. |
| MainWindowViewModel.MainWindowViewModel.LoadContentsWorker_DoWork | PhotoViewer/ViewModel/MainWindowViewModel.cs:487-497 | Every exception is caught, so the worker ends cancelled or completed, never errored. |
| MainWindowViewModel.MainWindowViewModel.LoadPictureContentsWorker_Completed | PhotoViewer/ViewModel/MainWindowViewModel.cs:563-587 | The worker becomes idle. An error, or no owed reload, changes nothing else. An owed reload is paid by exactly one new load. |
| MainWindowViewModel.MainWindowViewModel.StopThreadAndTask | PhotoViewer/ViewModel/MainWindowViewModel.cs:872-882 | True iff no worker is busy. A busy one is asked to cancel. |
| MainWindowViewModel.MenuOf | PhotoViewer/ViewModel/MainWindowViewModel.cs:231-278 | The default "メディア削除" entry, then "<Name>で開く" per setting, in order. |
| MainWindowViewModel.PathDictionaryKeys | PhotoViewer/ViewModel/MainWindowViewModel.cs:231-278 | The dictionary's keys are exactly the Names. |
| MainWindowViewModel.MenuFailureNone | PhotoViewer/ViewModel/MainWindowViewModel.cs:231-278 | The menu is built to the end exactly when every icon loads and every Name is distinct. |
| MainWindowViewModel.MainWindowViewModel.UpdateContextMenuFromExtraAppSetting | PhotoViewer/ViewModel/MainWindowViewModel.cs:231-278 | Menu and dictionary hold the settings before the first failing one, and the error is that failure. |
| MainWindowViewModel.PathDictionaryLookup | PhotoViewer/ViewModel/MainWindowViewModel.cs:231-278 | With distinct Names, each setting's Name maps to its Path. |
| MainWindowViewModel.MenuActionAt | PhotoViewer/ViewModel/MainWindowViewModel.cs:196-216 | The first menu entry equal to the header launches the path stored under the header with the suffix removed, on the selected file. |
| MainWindowViewModel.MenuActionFor | PhotoViewer/ViewModel/MainWindowViewModel.cs:193-224 | The default entry deletes. Another entry launches a dictionary path on the selected file, and an empty menu does nothing. |
| MainWindowViewModel.MainWindowViewModel.ExecuteContextMenu | PhotoViewer/ViewModel/MainWindowViewModel.cs:193-224 | The loop's action is `MenuActionFor` of the current menu. |
| MainWindowViewModel.LaunchFromMenu | PhotoViewer/ViewModel/MainWindowViewModel.cs:193-278 | Clicking the entry built for a setting launches that setting's program on the selected file. |
| MainWindowViewModel.NamesDistinct | PhotoViewer/ViewModel/MainWindowViewModel.cs:231-278 | A fully built menu has pairwise distinct Names. |
| MainWindowViewModel.SortById | PhotoViewer/ViewModel/MainWindowViewModel.cs:329 | `OrderBy(Id)` is a sorted permutation. |
| MainWindowViewModel.InsertByIdWithId | PhotoViewer/ViewModel/MainWindowViewModel.cs:329 | An inserted setting goes after every setting that has its Id. |
| MainWindowViewModel.SortByIdStable | PhotoViewer/ViewModel/MainWindowViewModel.cs:329 | `OrderBy(Id)` is stable: for every Id, the settings with it keep their relative order. |
| MainWindowViewModel.MergeSetting | PhotoViewer/ViewModel/MainWindowViewModel.cs:312-332 | Two entries with the Id throw. A new Id is appended and sorted. A known Id with the same path leaves the table as it is. A known Id with a new path writes the setting at index `Id - 1`, as written, and throws `ArgumentOutOfRangeException` when that index is outside the table. |
| MainWindowViewModel.MergeSettingReplacesWrongEntry | PhotoViewer/ViewModel/MainWindowViewModel.cs:322 | As written, with Ids 2 and 3, a new path for 2 overwrites the entry of 3 and leaves two entries with Id 2. |
| MainWindowViewModel.MergeSettingCorrectedKeepsTable | PhotoViewer/ViewModel/MainWindowViewModel.cs:312-332 | The corrected pass keeps Ids unique, keeps every other entry, and holds the new path for the Id. |
| MainWindowViewModel.MergeAgreesOnDenseTable | PhotoViewer/ViewModel/MainWindowViewModel.cs:312-332 | When the table holds Ids 1..n in order, the written and corrected passes agree. |
| MainWindowViewModel.SortKeepsUnique | PhotoViewer/ViewModel/MainWindowViewModel.cs:329 | Sorting by Id keeps the Ids unique. |
| MainWindowViewModel.UniqueIdCount | PhotoViewer/ViewModel/MainWindowViewModel.cs:315-317 | With unique Ids, an Id present in the table is present once, at the index the lookup finds. |
| MainWindowViewModel.MergeNewId | PhotoViewer/ViewModel/MainWindowViewModel.cs:328-330 | Adding a new Id and sorting keeps the Ids unique and holds exactly the old entries and the new one. |
| MainWindowViewModel.MergeKnownId | PhotoViewer/ViewModel/MainWindowViewModel.cs:315-323 | Replacing the entry that has the Id keeps the Ids unique and every other entry, and holds the new path. |
| MainWindowViewModel.InsertKeepsUnique | PhotoViewer/ViewModel/MainWindowViewModel.cs:328-329 | Inserting an entry of a new Id into a sorted table keeps the Ids unique. |
| MainWindowViewModel.MainWindowViewModel.MergeLinkageContents | PhotoViewer/ViewModel/MainWindowViewModel.cs:312-332 | The loop gives exactly `MergeAll`, stopping at the first exception. |
| MainWindowViewModel.MainWindowViewModel.UpdateLinkageContents | PhotoViewer/ViewModel/MainWindowViewModel.cs:284-340 | An empty table takes the queue sorted by Id; otherwise the queue is merged. A merge exception is returned and leaves menu, dictionary and files as they were. Otherwise the menu is rebuilt and the table exported as `RebuildAndExport` states. On success the file holds the table and its folder exists. |
| MainWindowViewModel.MainWindowViewModel.RebuildAndExport | PhotoViewer/ViewModel/MainWindowViewModel.cs:334-339 | Rebuilds the menu up to the first failing setting. Such a failure is returned and no document or folder changes. Otherwise the table is exported with `Export`'s outcome, its write exception included. |
| MainWindowViewModel.RemoveSkippingKeepsDuplicate | PhotoViewer/ViewModel/MainWindowViewModel.cs:352-366 | As written, deleting Id 1 from two adjacent entries with Id 1 keeps the second. |
| MainWindowViewModel.RemoveId | PhotoViewer/ViewModel/MainWindowViewModel.cs:352-366 | The intended removal keeps exactly the entries of other Ids. |
| MainWindowViewModel.RemoveSkippingAgrees | PhotoViewer/ViewModel/MainWindowViewModel.cs:352-366 | With at most one entry of the Id, the written loop removes what the intended one does. |
| MainWindowViewModel.MainWindowViewModel.RemoveLinkage | PhotoViewer/ViewModel/MainWindowViewModel.cs:352-366 | The loop gives exactly `RemoveSkipping`. |
| MainWindowViewModel.MainWindowViewModel.DeleteLinkageContents | PhotoViewer/ViewModel/MainWindowViewModel.cs:346-373 | Removes as written, then rebuilds the menu up to the first failing setting and returns that failure with the disk untouched. Otherwise it exports the table with `Export`'s outcome, its write exception included. |
| MainWindowViewModel.MainWindowViewModel.AllDeleteLinkageContents | PhotoViewer/ViewModel/MainWindowViewModel.cs:378-387 | Empties the table, the dictionary and the whole menu, including the default entry, then exports the empty table with `Export`'s outcome. On success the conf file holds the empty document and the folder exists; a write exception is returned and leaves the conf file as it was. |
| MainWindowViewModel.DeleteMediaGoneAfterAllDelete | PhotoViewer/ViewModel/MainWindowViewModel.cs:378-387 | After all-delete, even the delete entry does nothing until the menu is rebuilt. |
| ExplorerTreeSourceViewModel.PlaceholderFor | PhotoViewer/ViewModel/ExplorerTreeSourceViewModel.cs:82-94 | One placeholder child exactly when the directory has subdirectories. |
| ExplorerTreeSourceViewModel.ExplorerTreeSourceViewModel.constructor | PhotoViewer/ViewModel/ExplorerTreeSourceViewModel.cs:52-94 | Path and drive flag are set, the node is not expanded or selected, and its children are the placeholder. |
| ExplorerTreeSourceViewModel.KeptDirectoriesMembers | PhotoViewer/ViewModel/ExplorerTreeSourceViewModel.cs:115-131 | The loop throws exactly when a listable subdirectory has an empty name. Otherwise it keeps exactly the listable subdirectories whose name does not start with "$". |
| ExplorerTreeSourceViewModel.KeptDirectoriesAppend | PhotoViewer/ViewModel/ExplorerTreeSourceViewModel.cs:115-131 | The loop over a concatenation is the loop over each part in turn. |
| ExplorerTreeSourceViewModel.KeptDirectoriesAt | PhotoViewer/ViewModel/ExplorerTreeSourceViewModel.cs:115-131 | One iteration: a locked directory is skipped, an empty name throws, a name starting with "$" is skipped, and any other directory is added. |
| ExplorerTreeSourceViewModel.ExplorerTreeSourceViewModel.BuildChildren | PhotoViewer/ViewModel/ExplorerTreeSourceViewModel.cs:115-131 | One fresh, unexpanded child node per kept subdirectory, in order, up to the exception that stops the loop. |
| ExplorerTreeSourceViewModel.ExplorerTreeSourceViewModel.UpdateDirectoryNode | PhotoViewer/ViewModel/ExplorerTreeSourceViewModel.cs:99-132 | A directory that cannot be listed throws before the children change. Otherwise the children are the nodes of the kept subdirectories in name order. |
| ExplorerTreeSourceViewModel.ExplorerTreeSourceViewModel.ExplorerTreeSource_Expanded | PhotoViewer/ViewModel/ExplorerTreeSourceViewModel.cs:139-146 | Only the first expansion rebuilds the children. An expanded node is left alone. |
| ExplorerTreeSourceViewModel.ExplorerTreeSourceViewModel.FileWatcher_Changed | PhotoViewer/ViewModel/ExplorerTreeSourceViewModel.cs:151-158 | Any change rebuilds the children whether or not the node was expanded. |
| ExplorerTreeSourceViewModel.ExplorerTreeSourceViewModel.ExplorerTreeSource_Selected | PhotoViewer/ViewModel/ExplorerTreeSourceViewModel.cs:210-216 | The selection is this node or the event's source, and the event carries that node's path. |
| ExplorerTreeSourceViewModel.RebuiltChildrenAreShownSubdirectories | PhotoViewer/ViewModel/ExplorerTreeSourceViewModel.cs:103-131 | Whatever the name order, the children are exactly the listable, non-"$" subdirectories. |
| MediaTypeToVisibilityConverter.Convert | PhotoViewer/Converters/MediaTypeToVisibilityConverter.cs:10-32 | A `null` value, a value that is not an enum, or a `null` parameter gives Collapsed. Otherwise the result is Visible iff the name is one of the trimmed comma-separated tokens, and Hidden if not. |
| MediaTypeToVisibilityConverter.FindToken | PhotoViewer/Converters/MediaTypeToVisibilityConverter.cs:23-29 | The loop with its `break` finds a match exactly when some token matches. |
| MediaTypeToVisibilityConverter.AnyTokenMatchesIff | PhotoViewer/Converters/MediaTypeToVisibilityConverter.cs:23-29 | A match exists exactly when some trimmed token equals the name. |
| MediaTypeToVisibilityConverter.TokenOrderIrrelevant | PhotoViewer/Converters/MediaTypeToVisibilityConverter.cs:23-29 | Reordering the tokens does not change the result. |
| MediaTypeToVisibilityConverter.SingleTokenParameter | PhotoViewer/Converters/MediaTypeToVisibilityConverter.cs:23-31 | A parameter without commas is one token. The match is exact and case-sensitive. |
| MediaTypeToVisibilityConverter.ConvertBack | PhotoViewer/Converters/MediaTypeToVisibilityConverter.cs:34-37 | Always throws `NotImplementedException`. |
| WrappingStream.WrappingStream.constructor | PhotoViewer/Model/WrappingStream.cs:20-27 | Wraps the given stream. |
| WrappingStream.NewWrappingStream | PhotoViewer/Model/WrappingStream.cs:20-27 | A `null` stream throws `ArgumentNullException`. Otherwise it wraps exactly that stream. |
| WrappingStream.WrappingStream.ThrowIfDisposed | PhotoViewer/Model/WrappingStream.cs:138-143 | Throws `ObjectDisposedException` exactly after disposal. |
| WrappingStream.WrappingStream.CanRead | PhotoViewer/Model/WrappingStream.cs:29-32 | False once disposed. Otherwise the wrapped stream's answer. |
| WrappingStream.WrappingStream.CanSeek | PhotoViewer/Model/WrappingStream.cs:34-37 | False once disposed. Otherwise the wrapped stream's answer. |
| WrappingStream.WrappingStream.CanWrite | PhotoViewer/Model/WrappingStream.cs:40-43 | False once disposed. Otherwise the wrapped stream's answer. |
| WrappingStream.WrappingStream.Length | PhotoViewer/Model/WrappingStream.cs:45-48 | Throws once disposed. Otherwise the wrapped length. |
| WrappingStream.WrappingStream.GetPosition | PhotoViewer/Model/WrappingStream.cs:50-52 | Throws once disposed. Otherwise the wrapped position. |
| WrappingStream.WrappingStream.SetPosition | PhotoViewer/Model/WrappingStream.cs:50-54 | Throws once disposed. Otherwise it forwards to the wrapped stream. |
| WrappingStream.WrappingStream.Read | PhotoViewer/Model/WrappingStream.cs:86-90 | Throws once disposed. Otherwise it reads from the wrapped stream. |
| WrappingStream.WrappingStream.ReadByte | PhotoViewer/Model/WrappingStream.cs:92-96 | Throws once disposed. Otherwise it reads one byte, or -1 at the end. |
| WrappingStream.WrappingStream.Write | PhotoViewer/Model/WrappingStream.cs:112-116 | Throws once disposed. Otherwise it writes to the wrapped stream. |
| WrappingStream.WrappingStream.WriteByte | PhotoViewer/Model/WrappingStream.cs:118-122 | Throws once disposed. Otherwise it writes one byte. |
| WrappingStream.WrappingStream.Seek | PhotoViewer/Model/WrappingStream.cs:99-103 | Throws once disposed. Otherwise it seeks the wrapped stream. |
| WrappingStream.WrappingStream.SetLength | PhotoViewer/Model/WrappingStream.cs:106-110 | Throws once disposed. Otherwise it sets the wrapped length. |
| WrappingStream.WrappingStream.Flush | PhotoViewer/Model/WrappingStream.cs:80-84 | Throws once disposed. Otherwise it does nothing observable. |
| WrappingStream.WrappingStream.BeginRead | PhotoViewer/Model/WrappingStream.cs:56-60 | Throws once disposed. Otherwise it starts a read on the wrapped stream. |
| WrappingStream.WrappingStream.BeginWrite | PhotoViewer/Model/WrappingStream.cs:62-66 | Throws once disposed. Otherwise it starts a write on the wrapped stream. |
| WrappingStream.WrappingStream.EndRead | PhotoViewer/Model/WrappingStream.cs:68-72 | Throws once disposed. Otherwise it returns the read's count. |
| WrappingStream.WrappingStream.EndWrite | PhotoViewer/Model/WrappingStream.cs:74-78 | Throws once disposed. Otherwise it completes the write. |
| WrappingStream.WrappingStream.Dispose | PhotoViewer/Model/WrappingStream.cs:129-135 | Disposing drops the wrapped stream, so every later call throws. Without `disposing` nothing changes. |

## Left out

- Threads: the `BackgroundWorker` is the explicit state `Idle`/`Busy`/`CancelRequested`, and its body runs as one step. The `Dispatcher` marshalling, `Thread.Sleep`, and the timing of `CancellationPending` are represented by the parameter `cancelAt`.
- MainWindowViewModel.MainWindowViewModel.LoadPictureContentsList: requires that no worker is busy. The source calls it only from the idle branch of `UpdatePictureContentsList` and after completion.
- Forced garbage collection (`GC.Collect`) has no observable effect on the model and is left out.
- Pixel work is modelled as a description of the operations applied: `Rendition` records the origin, the decode limit, the resize box and the transforms. This covers WIC decoding, `TransformedBitmap`, `WriteableBitmap` and `Freeze`. The floating-point scale of `CreateResizeImage` is represented by the box it fits into.
- ImageFileControl.CreateViewImage: the error message box and the log are not modelled. A decode failure returns `null`, as in the source.
- Dialogs are inputs: the folder dialog (`GetFolderInDirectory`), the save dialog (`ShowSaveDialog`) and the program chooser. `Process.Start`, icon extraction (`Icon.ExtractAssociatedIcon`) and the shell property store are also inputs: `iconExists`, `ShellProperties`, `shellThumbnail`.
- The XML text form (declaration serialisation, escaping, whitespace) is not modelled, only the element tree. `Environment.GetFolderPath` is the parameter `appData`.
- The culture-sensitive `Comparer<string>.Default` is the parameter `cmp`. The finding and the corrected order use ordinal comparison.
- `NaturalDirectoryInfoNameComparer` (the explorer's sort order) is the parameter `sortByName`.
- NaturalSortHelper.NaturallyOrderBy: specified with the corrected natural order, because the comparer as written is not transitive and so sorts by no order at all.
- NaturalSortHelper.NaturallyOrderByDescending: specified with the corrected natural order, for the same reason.
- The `NaturallyThenBy` and `NaturallyThenByDescending` wrappers (NaturalSortHelper.cs:96-114) are not modelled, since secondary orderings need the LINQ sort machinery. The same holds for the non-generic `IComparer` overload (51-61), which only casts.
- The explorer's drive list (`UpdateExplorerTreeSource`), the `FileSystemWatcher` setup and the tree headers (`CreateHeader`, icons) are UI wiring and are left out.
- ExplorerTreeSourceViewModel.ExplorerTreeSourceViewModel.constructor: requires a directory that can be listed. The source throws from its constructor otherwise, and the model has no failing constructor.
- ExplorerTreeSourceViewModel.ExplorerTreeSourceViewModel.UpdateDirectoryNode: builds the children in a local sequence and assigns them at the end. Without concurrency this is the same as the source's `Clear` followed by `Add`.
- `IsDirectoryLocked` is modelled as "the directory cannot be listed", through `listDirs`.
- `WrappingStream`'s inner stream is a simplified `MemoryStream`: bytes, position and capability flags. Asynchronous reads and writes complete at once.
- `Directory.GetFiles` with a pattern such as "*.tif" also matches ".tiff" on Windows. That matching belongs to `getFiles`, which is an input.
- Files without logic are not modelled: `MediaInfo.cs`, `ContextMenuControl.cs`, `App.xaml.cs`, `MainWindow.xaml.cs` and `PhotoAppInfoView.xaml.cs`.
- The `DateTime` and `double` Exif values are given already rendered, because their `ToString` depends on the culture.
- Text.ToLowerChars: `ToLower` lowers only the ASCII letters A-Z, as the invariant culture does for them. `string.ToLower` follows the current culture, which can lower other letters differently (the Turkish dotted I, for one). The extensions and names it is applied to are compared with ASCII tables, so only ASCII letters matter to the model.
- Xml.FileSystem.Save: a fault is taken to happen when the file is opened, before anything is written. A disk that fills up halfway through the write, leaving a truncated file, is not modelled.
- The exceptions the disk raises are the inputs `fault` and `WriteFaults`; which of them occurs depends on the machine.
- The constructor of `MainWindowViewModel` also subscribes `UpdateLinkageContents`, `DeleteLinkageContents` and `AllDeleteLinkageContents` to the dialog's static events (MainWindowViewModel.cs:177-179). The model has no event objects: each event becomes a call of its handler.

## Findings

| source | as written | input that shows it | evidently intended | confidence | as-written member | corrected member |
|---|---|---|---|---|---|---|
| PhotoViewer/Model/ExifParser.cs:187-195 | The "greatest common divisor" is `den % num`, or `num` when that is 0. | exposure 6/10 s is shown as "1/2" | Reduce by the GCD, giving "3/5" | high, not executed | ExifParser.ShutterSpeedNotReduced | ExifParser.ReducedFractionIsLowestTerms |
| PhotoViewer/Model/NaturalSortHelper.cs:39-41 | A digit run of 2^64 or more falls back to string comparison. | "3" < "20", "20" < "20000000000000000000", but "3" > "20000000000000000000" | Compare every digit run by value, which is a total preorder | high, not executed | NaturalSortHelper.NaturalComparerIntransitive | NaturalSortHelper.NaturalOrderIsPreorder |
| PhotoViewer/ViewModel/MainWindowViewModel.cs:322 | An entry with a new path replaces index `Id - 1`. | table [(2,a,p),(3,b,q)] merged with (2,c,r) | Replace the entry that has the Id | high, not executed | MainWindowViewModel.MergeSettingReplacesWrongEntry | MainWindowViewModel.MergeSettingCorrectedKeepsTable |
| PhotoViewer/ViewModel/MainWindowViewModel.cs:170 | `Import` turns a missing conf file into `IOException`, and the constructor does not catch it. | first launch, before the conf file has ever been written | Pass over a missing file with an empty table, as the comment at that line says | medium, not executed | MainWindowViewModel.NewMainWindowViewModel | ExtraAppSetting.ImportIfPresent |
| PhotoViewer/ViewModel/MainWindowViewModel.cs:352-366 | After `RemoveAt(i)` the index still advances. | table [(1,a,p),(1,b,q)] with Id 1 deleted keeps (1,b,q) | Remove every entry with the Id | medium, not executed | MainWindowViewModel.RemoveSkippingKeepsDuplicate | MainWindowViewModel.RemoveId |

The class methods keep the code as written (`MergeSetting`, `RemoveSkipping`,
and `ShutterSpeedFraction` in `SetFnumberAndShutterSpeed`). Lemmas beside
them prove where the written and corrected definitions agree:

- `MergeAgreesOnDenseTable`;
- `RemoveSkippingAgrees`;
- `ReducedAgreesWhenNumeratorDivides`;
- `NaturalOrderAgreesWithinULong`.

Those are the inputs the program normally meets. The sort wrappers use the
corrected order.
