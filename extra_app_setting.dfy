/** `ExtraAppSetting`: the applications linked to the viewer's context menu,
    and the `Photo Exif Viewer.conf` XML file they are kept in under the
    user's application-data folder. */
module ExtraAppSetting {
  import opened Wrappers
  import opened Machine
  import opened Text
  import opened Xml

  /** One linked application: its slot `Id`, the `Name` shown in the context
      menu and the `Path` of its executable. A setting is never changed once
      built, so it is a value here. */
  datatype ExtraAppSetting = ExtraAppSetting(Id: Int32, Name: string, Path: string)

  /** The folder and the file `Export` writes, and the path `Import` reads,
      each relative to the application-data folder. */
  const AppPath: string := "\\Photo Exif Viewer"
  const AppConfPath: string := "\\Photo Exif Viewer.conf"
  const ImportAppPath: string := "\\Photo Exif Viewer\\Photo Exif Viewer.conf"

  /** The `data` element of one setting: `id`, `name` and `path`, each holding
      one text node. */
  function DataElement(s: ExtraAppSetting): XNode
  {
    XElement("data", [
      XElement("id", [XText(IntToString(s.Id))]),
      XElement("name", [XText(s.Name)]),
      XElement("path", [XText(s.Path)])])
  }

  /** The document `CreateExtraAppXml` builds. */
  function ExtraAppXml(settings: seq<ExtraAppSetting>): (doc: XDocument)
    ensures doc.declaration == XDeclaration("1.0", "utf-8")
    ensures doc.root.XElement? && doc.root.name == "datas"
    ensures |doc.root.children| == |settings|
    ensures forall i :: 0 <= i < |settings| ==>
              var data := doc.root.children[i];
              && data.XElement? && data.name == "data"
              && data.children == [XElement("id", [XText(IntToString(settings[i].Id))]),
                                    XElement("name", [XText(settings[i].Name)]),
                                    XElement("path", [XText(settings[i].Path)])]
  {
    XDocument(XDeclaration("1.0", "utf-8"), XElement("datas", seq(|settings|, i requires 0 <= i < |settings| => DataElement(settings[i]))))
  }

  /** `CreateExtraAppXml`: one `data` element per setting, added in list
      order under the `datas` root. */
  method CreateExtraAppXml(settings: seq<ExtraAppSetting>) returns (doc: XDocument)
    ensures doc == ExtraAppXml(settings)
  {
    var datas: seq<XNode> := [];
    for i := 0 to |settings|
      invariant datas == seq(i, k requires 0 <= k < i => DataElement(settings[k]))
    {
      var data := DataElement(settings[i]);
      datas := datas + [data];
    }
    doc := XDocument(XDeclaration("1.0", "utf-8"), XElement("datas", datas));
  }

  /** One pass of the loop in `ParseExtraAppXml`: `id`, `name` and `path` are
      looked up (a missing one is dereferenced, so `null`), and the id text is
      converted as `Convert.ToInt32` does. */
  function ParseSetting(data: XNode): (r: Result<ExtraAppSetting>)
    ensures r.Failure? ==> r.error in {NullReference, Format, Overflow}
  {
    match Element(data, "id")
    case None => Failure(NullReference)
    case Some(idElement) =>
      match ParseInt32(Value(idElement))
      case Failure(e) => Failure(e)
      case Success(id) =>
        match (Element(data, "name"), Element(data, "path"))
        case (Some(nameElement), Some(pathElement)) =>
          Success(ExtraAppSetting(id, Value(nameElement), Value(pathElement)))
        case _ => Failure(NullReference)
  }

  /** The outcome of `ParseSetting` for each element, in order. */
  function ParsedElements(elements: seq<XNode>): (rs: seq<Result<ExtraAppSetting>>)
    ensures |rs| == |elements|
  {
    seq(|elements|, i requires 0 <= i < |elements| => ParseSetting(elements[i]))
  }

  /** What a loop that appends each success and stops at the first failure
      leaves: the settings before the first failure, and that failure. */
  function LeadingSettings(results: seq<Result<ExtraAppSetting>>): (r: (seq<ExtraAppSetting>, Option<Error>))
    ensures |r.0| <= |results|
    ensures forall i :: 0 <= i < |r.0| ==> results[i] == Success(r.0[i])
    ensures r.1.None? <==> |r.0| == |results|
    ensures r.1.Some? ==> results[|r.0|] == Failure(r.1.value)
  {
    if results == [] then ([], None)
    else
      match results[0]
      case Failure(e) => ([], Some(e))
      case Success(s) =>
        var rest := LeadingSettings(results[1..]);
        ([s] + rest.0, rest.1)
  }

  /** `ParseExtraAppXml`: every child element of the root, in document order,
      appended to the caller's list as it is read; an exception leaves what
      was appended before it. */
  method ParseExtraAppXml(doc: XDocument, list: seq<ExtraAppSetting>) returns (settings: seq<ExtraAppSetting>, error: Option<Error>)
    ensures settings == list + LeadingSettings(ParsedElements(Elements(doc.root))).0
    ensures error == LeadingSettings(ParsedElements(Elements(doc.root))).1
  {
    var elements := Elements(doc.root);
    ghost var results := ParsedElements(elements);
    settings := list;
    var i := 0;
    while i < |elements|
      invariant 0 <= i <= |elements|
      invariant settings + LeadingSettings(results[i..]).0 == list + LeadingSettings(results).0
      invariant LeadingSettings(results[i..]).1 == LeadingSettings(results).1
    {
      var setting := ParseSetting(elements[i]);
      assert results[i..][0] == setting;
      assert results[i..][1..] == results[i + 1..];
      if setting.Failure? {
        return settings, Some(setting.error);
      }
      settings := settings + [setting.value];
      i := i + 1;
    }
    error := None;
  }

  /** `Import`: reads the conf file under `appData` into the caller's list.
      A missing file or any parse failure becomes `IOException`; settings
      read before the failure stay appended. */
  method Import(appData: string, fs: FileSystem, list: seq<ExtraAppSetting>) returns (settings: seq<ExtraAppSetting>, error: Option<Error>)
    ensures |list| <= |settings| && settings[..|list|] == list
    ensures error.Some? ==> error == Some(IOError)
    ensures appData + ImportAppPath !in fs.Documents ==> settings == list && error == Some(IOError)
    ensures appData + ImportAppPath in fs.Documents ==>
              var parsed := LeadingSettings(ParsedElements(Elements(fs.Documents[appData + ImportAppPath].root)));
              && settings == list + parsed.0
              && (error.None? <==> parsed.1.None?)
  {
    var path := appData + ImportAppPath;
    var doc := fs.Load(path);
    if doc.Failure? {
      return list, Some(IOError);
    }
    var parseError;
    settings, parseError := ParseExtraAppXml(doc.value, list);
    error := if parseError.Some? then Some(IOError) else None;
  }

  /** The exceptions the disk raises when `Export` writes: from
      `Directory.CreateDirectory` and from `XDocument.Save`, `None` where the
      call succeeds. */
  datatype WriteFaults = WriteFaults(createDirectory: Option<Error>, save: Option<Error>)

  /** What `Export` of `list` leaves on a disk that held `directories` and
      `documents` before: when the missing folder cannot be made, nothing
      changes and that exception escapes; otherwise the folder exists and
      either the conf file holds the document of `list`, or saving threw,
      the file is as it was and that exception escapes. */
  ghost predicate ExportedAs(appData: string, list: seq<ExtraAppSetting>, faults: WriteFaults,
                             directories: set<string>, documents: map<string, XDocument>,
                             directories': set<string>, documents': map<string, XDocument>, error: Option<Error>)
  {
    var directoryPath := appData + AppPath;
    if directoryPath !in directories && faults.createDirectory.Some? then
      && error == faults.createDirectory
      && directories' == directories && documents' == documents
    else
      && error == faults.save
      && directories' == directories + {directoryPath}
      && documents' == (if faults.save.Some? then documents else documents[directoryPath + AppConfPath := ExtraAppXml(list)])
  }

  /** `Export`: creates the `Photo Exif Viewer` folder when it is missing and
      overwrites the conf file with the document of the list. Neither call is
      guarded, so an exception from either escapes, and one from `Save`
      leaves the new folder behind. */
  method Export(appData: string, fs: FileSystem, list: seq<ExtraAppSetting>, faults: WriteFaults) returns (error: Option<Error>)
    modifies fs
    ensures ExportedAs(appData, list, faults, old(fs.Directories), old(fs.Documents), fs.Directories, fs.Documents, error)
    ensures error.None? <==> (appData + AppPath in old(fs.Directories) || faults.createDirectory.None?) && faults.save.None?
    ensures error.None? ==>
              && fs.Directories == old(fs.Directories) + {appData + AppPath}
              && fs.Documents == old(fs.Documents)[appData + AppPath + AppConfPath := ExtraAppXml(list)]
    ensures error.Some? ==> fs.Documents == old(fs.Documents)
  {
    var doc := CreateExtraAppXml(list);
    var directoryPath := appData + AppPath;
    var appFilePath := directoryPath + AppConfPath;
    if directoryPath !in fs.Directories {
      error := fs.CreateDirectory(directoryPath, faults.createDirectory);
      if error.Some? {
        return;
      }
    }
    error := fs.Save(doc, appFilePath, faults.save);
  }

  /** Parsing the document built from a list gives the list back, with no
      exception. */
  lemma ParseOfExtraAppXml(settings: seq<ExtraAppSetting>)
    ensures LeadingSettings(ParsedElements(Elements(ExtraAppXml(settings).root))) == (settings, None)
  {
    var children := ExtraAppXml(settings).root.children;
    assert Elements(ExtraAppXml(settings).root) == children;
    var results := ParsedElements(children);
    forall i | 0 <= i < |settings|
      ensures results[i] == Success(settings[i])
    {
      assert children[i] == DataElement(settings[i]);
      ParseDataElement(settings[i]);
    }
    LeadingSettingsOfSuccesses(results, settings);
  }

  /** A run of successes is read to the end. */
  lemma {:induction false} LeadingSettingsOfSuccesses(results: seq<Result<ExtraAppSetting>>, settings: seq<ExtraAppSetting>)
    requires |results| == |settings|
    requires forall i :: 0 <= i < |settings| ==> results[i] == Success(settings[i])
    ensures LeadingSettings(results) == (settings, None)
    decreases |settings|
  {
    if settings != [] {
      LeadingSettingsOfSuccesses(results[1..], settings[1..]);
      assert settings == [settings[0]] + settings[1..];
    }
  }

  /** The `data` element of a setting reads back as that setting. */
  lemma ParseDataElement(s: ExtraAppSetting)
    ensures ParseSetting(DataElement(s)) == Success(s)
  {
    var data := DataElement(s);
    assert Element(data, "id") == Some(data.children[0]);
    assert Element(data, "name") == Some(data.children[1]);
    assert Element(data, "path") == Some(data.children[2]);
    assert Value(data.children[0]) == IntToString(s.Id) by {
      assert Values([XText(IntToString(s.Id))]) == IntToString(s.Id) + Values([]);
    }
    assert Value(data.children[1]) == s.Name by {
      assert Values([XText(s.Name)]) == s.Name + Values([]);
    }
    assert Value(data.children[2]) == s.Path by {
      assert Values([XText(s.Path)]) == s.Path + Values([]);
    }
    IntToStringParses(s.Id);
  }

  /** The import the constructor of `MainWindowViewModel` means to do: a
      missing file is passed over and leaves the list as it is. A file that
      exists is read as `Import` reads it. */
  method ImportIfPresent(appData: string, fs: FileSystem, list: seq<ExtraAppSetting>) returns (settings: seq<ExtraAppSetting>, error: Option<Error>)
    ensures appData + ImportAppPath !in fs.Documents ==> settings == list && error == None
    ensures appData + ImportAppPath in fs.Documents ==>
              var parsed := LeadingSettings(ParsedElements(Elements(fs.Documents[appData + ImportAppPath].root)));
              && settings == list + parsed.0
              && (error.None? <==> parsed.1.None?)
              && (error.Some? ==> error == Some(IOError))
  {
    if appData + ImportAppPath !in fs.Documents {
      return list, None;
    }
    settings, error := Import(appData, fs, list);
  }

  /** `Export` writes the file `Import` reads, so importing after exporting
      appends exactly the exported settings, in order, without an exception. */
  lemma ImportAfterExport(appData: string, documents: map<string, XDocument>, settings: seq<ExtraAppSetting>)
    ensures appData + AppPath + AppConfPath == appData + ImportAppPath
    ensures var written := documents[appData + AppPath + AppConfPath := ExtraAppXml(settings)];
            && appData + ImportAppPath in written
            && LeadingSettings(ParsedElements(Elements(written[appData + ImportAppPath].root))) == (settings, None)
  {
    ConfPathsAgree();
    assert appData + AppPath + AppConfPath == appData + (AppPath + AppConfPath);
    var written := documents[appData + AppPath + AppConfPath := ExtraAppXml(settings)];
    assert written[appData + ImportAppPath] == ExtraAppXml(settings);
    ParseOfExtraAppXml(settings);
  }

  /** `Export` joins the folder and the file name that `Import` reads as one
      path. */
  lemma ConfPathsAgree()
    ensures AppPath + AppConfPath == ImportAppPath
  {
    assert |AppPath + AppConfPath| == |ImportAppPath|;
    forall i | 0 <= i < |ImportAppPath| ensures (AppPath + AppConfPath)[i] == ImportAppPath[i] {
    }
  }
}
