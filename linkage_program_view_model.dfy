/** `LinkageProgramViewModel`: the dialog in which up to three applications
    are linked. Each slot shows an executable path; choosing one queues a new
    setting, and the buttons raise the static events `MainWindowViewModel`
    handles. A raised event is the value a button method returns. */
module LinkageProgramViewModel {
  import opened Wrappers
  import opened Text
  import opened Xml
  import opened ExtraAppSetting

  /** The slot numbers `1`, `2` and `3`, which are also the settings' Ids. */
  type Slot = id: int | 1 <= id <= 3 witness 1

  /** `LinkageEvent` with its `LinkageEventArgs`, `DeleteAppEvent` with its
      `DeleteEventArgs`, and `AllDeleteEvent`. */
  datatype LinkageEvent = Linkage(addExtraAppSettingCollection: seq<ExtraAppSetting>) | DeleteApp(DeleteId: int) | AllDelete

  /** The path the constructor leaves in a slot: that of the last imported
      setting with the slot's Id, or `""` when there is none. */
  function SlotPath(settings: seq<ExtraAppSetting>, id: Slot): string
  {
    if settings == [] then ""
    else if settings[|settings| - 1].Id == id then settings[|settings| - 1].Path
    else SlotPath(settings[..|settings| - 1], id)
  }

  /** A slot shows `""` when no setting has its Id, and otherwise the path
      of the last setting with its Id. */
  lemma {:induction false} SlotPathIsLastWithId(settings: seq<ExtraAppSetting>, id: Slot)
    ensures (forall k :: 0 <= k < |settings| ==> settings[k].Id != id) ==> SlotPath(settings, id) == ""
    ensures (exists k :: 0 <= k < |settings| && settings[k].Id == id) ==>
              exists k :: 0 <= k < |settings| && settings[k].Id == id && SlotPath(settings, id) == settings[k].Path &&
                forall j :: k < j < |settings| ==> settings[j].Id != id
  {
    if settings != [] {
      var init, n := settings[..|settings| - 1], |settings| - 1;
      var p := SlotPath(settings, id);
      if settings[n].Id == id {
        assert p == settings[n].Path;
      } else {
        assert p == SlotPath(init, id);
        SlotPathIsLastWithId(init, id);
        assert forall k :: 0 <= k < n ==> init[k] == settings[k];
        if exists k :: 0 <= k < |settings| && settings[k].Id == id {
          var k0 :| 0 <= k0 < |settings| && settings[k0].Id == id;
          assert init[k0].Id == id;
          var k :| 0 <= k < n && init[k].Id == id && p == init[k].Path && forall j :: k < j < n ==> init[j].Id != id;
          assert settings[k].Id == id && p == settings[k].Path && forall j :: k < j < |settings| ==> settings[j].Id != id;
        }
      }
    }
  }

  class LinkageProgramViewModel {
    var LinkAppPath1: string
    var LinkAppPath2: string
    var LinkAppPath3: string
    /** The settings read from the conf file when the dialog opened. */
    var ExtraAppSettingCollection: seq<ExtraAppSetting>
    /** The settings chosen since the dialog opened or was last registered. */
    var AddAppSettingCollection: seq<ExtraAppSetting>

    /** The path shown in a slot. */
    function LinkAppPath(id: Slot): string
      reads this`LinkAppPath1, this`LinkAppPath2, this`LinkAppPath3
    {
      if id == 1 then LinkAppPath1 else if id == 2 then LinkAppPath2 else LinkAppPath3
    }

    /** The constructor, once `Import` has read `imported`: every slot shows
      the path of the imported setting with its Id; other Ids are passed
      over. */
    constructor (imported: seq<ExtraAppSetting>)
      ensures ExtraAppSettingCollection == imported && AddAppSettingCollection == []
      ensures LinkAppPath1 == SlotPath(imported, 1)
      ensures LinkAppPath2 == SlotPath(imported, 2)
      ensures LinkAppPath3 == SlotPath(imported, 3)
    {
      LinkAppPath1, LinkAppPath2, LinkAppPath3 := "", "", "";
      ExtraAppSettingCollection := imported;
      AddAppSettingCollection := [];
      new;
      for i := 0 to |imported|
        invariant ExtraAppSettingCollection == imported && AddAppSettingCollection == []
        invariant LinkAppPath1 == SlotPath(imported[..i], 1)
        invariant LinkAppPath2 == SlotPath(imported[..i], 2)
        invariant LinkAppPath3 == SlotPath(imported[..i], 3)
      {
        assert imported[..i + 1][..i] == imported[..i];
        var setting := imported[i];
        if setting.Id == 1 {
          LinkAppPath1 := setting.Path;
        } else if setting.Id == 2 {
          LinkAppPath2 := setting.Path;
        } else if setting.Id == 3 {
          LinkAppPath3 := setting.Path;
        }
      }
      assert imported[..|imported|] == imported;
    }

    /** `LinkApp1ReferenceButtonClicked`, `LinkApp2ReferenceButtonClicked` and
        `LinkApp3ReferenceButtonClicked`. `dialog` is what the executable
        chooser returns: the chosen path, or `None` when it is cancelled. */
    method LinkAppReferenceButtonClicked(id: Slot, dialog: Option<string>)
      modifies this`LinkAppPath1, this`LinkAppPath2, this`LinkAppPath3, this`AddAppSettingCollection
      ensures dialog.None? ==> unchanged(this)
      ensures dialog.Some? ==>
                && LinkAppPath(id) == dialog.value
                && (id != 1 ==> LinkAppPath1 == old(LinkAppPath1))
                && (id != 2 ==> LinkAppPath2 == old(LinkAppPath2))
                && (id != 3 ==> LinkAppPath3 == old(LinkAppPath3))
                && AddAppSettingCollection == old(AddAppSettingCollection) + [ExtraAppSetting(id, GetFileNameWithoutExtension(dialog.value), dialog.value)]
    {
      if dialog.None? {
        return;
      }
      var path := dialog.value;
      if id == 1 {
        LinkAppPath1 := path;
      } else if id == 2 {
        LinkAppPath2 := path;
      } else {
        LinkAppPath3 := path;
      }
      var name := GetFileNameWithoutExtension(path);
      var setting := ExtraAppSetting(id, name, path);
      AddAppSettingCollection := AddAppSettingCollection + [setting];
    }

    /** `LinkApp1DeleteButtonClicked` and its two siblings: `DeleteAppEvent`
        with the slot's Id, then the slot is emptied. Queued settings stay.
        `handlerError` is what the subscribed handler threw, if anything; the
        exception propagates out of the click before the slot is emptied. */
    method LinkAppDeleteButtonClicked(id: Slot, handlerError: Option<Error>) returns (raised: LinkageEvent, error: Option<Error>)
      modifies this`LinkAppPath1, this`LinkAppPath2, this`LinkAppPath3
      ensures raised == DeleteApp(id)
      ensures error == handlerError
      ensures handlerError.None? ==> LinkAppPath(id) == ""
      ensures handlerError.Some? ==> LinkAppPath(id) == old(LinkAppPath(id))
      ensures id != 1 ==> LinkAppPath1 == old(LinkAppPath1)
      ensures id != 2 ==> LinkAppPath2 == old(LinkAppPath2)
      ensures id != 3 ==> LinkAppPath3 == old(LinkAppPath3)
    {
      raised := DeleteApp(id);
      error := handlerError;
      if error.Some? {
        return;
      }
      if id == 1 {
        LinkAppPath1 := "";
      } else if id == 2 {
        LinkAppPath2 := "";
      } else {
        LinkAppPath3 := "";
      }
    }

    /** `AllLinkAppDeleteButtonClicked`: every slot emptied, then one
        `AllDeleteEvent`. */
    method AllLinkAppDeleteButtonClicked() returns (raised: LinkageEvent)
      modifies this`LinkAppPath1, this`LinkAppPath2, this`LinkAppPath3
      ensures raised == AllDelete
      ensures LinkAppPath1 == "" && LinkAppPath2 == "" && LinkAppPath3 == ""
    {
      LinkAppPath1, LinkAppPath2, LinkAppPath3 := "", "", "";
      raised := AllDelete;
    }

    /** `RegisterLinkAppButtonClicked`: the queued settings travel with
        `LinkageEvent`, whose handler runs before the queue is emptied.
        `handlerError` is what the subscribed handler threw, if anything; the
        exception propagates out of the click, past `Clear`. */
    method RegisterLinkAppButtonClicked(handlerError: Option<Error>) returns (raised: LinkageEvent, error: Option<Error>)
      modifies this`AddAppSettingCollection
      ensures raised == Linkage(old(AddAppSettingCollection))
      ensures error == handlerError
      ensures handlerError.None? ==> AddAppSettingCollection == []
      ensures handlerError.Some? ==> AddAppSettingCollection == old(AddAppSettingCollection)
    {
      raised := Linkage(AddAppSettingCollection);
      error := handlerError;
      if error.Some? {
        return;
      }
      AddAppSettingCollection := [];
    }
  }

  /** `new LinkageProgramViewModel()`: `Import` fills an empty list, and an
      `IOException` from it escapes the constructor. */
  method NewLinkageProgramViewModel(appData: string, fs: FileSystem) returns (r: Result<LinkageProgramViewModel>)
    ensures appData + ImportAppPath !in fs.Documents ==> r == Failure(IOError)
    ensures r.Failure? ==> r.error == IOError
    ensures r.Success? ==>
              && fresh(r.value)
              && appData + ImportAppPath in fs.Documents
              && var parsed := LeadingSettings(ParsedElements(Elements(fs.Documents[appData + ImportAppPath].root)));
              && parsed.1.None?
              && r.value.ExtraAppSettingCollection == parsed.0
              && r.value.LinkAppPath1 == SlotPath(parsed.0, 1)
              && r.value.LinkAppPath2 == SlotPath(parsed.0, 2)
              && r.value.LinkAppPath3 == SlotPath(parsed.0, 3)
  {
    var imported, error := Import(appData, fs, []);
    if error.Some? {
      return Failure(IOError);
    }
    var viewModel := new LinkageProgramViewModel(imported);
    r := Success(viewModel);
  }

  /** After the settings of a list are exported, the dialog opened on them
      shows, in each slot, the path of the last setting with its Id. */
  lemma SlotsAfterExport(appData: string, documents: map<string, XDocument>, settings: seq<ExtraAppSetting>, id: Slot)
    ensures var written := documents[appData + AppPath + AppConfPath := ExtraAppXml(settings)];
            && appData + ImportAppPath in written
            && SlotPath(LeadingSettings(ParsedElements(Elements(written[appData + ImportAppPath].root))).0, id) == SlotPath(settings, id)
  {
    ImportAfterExport(appData, documents, settings);
  }

  /** A setting appended after the others decides its slot. */
  lemma SlotPathOfAppended(settings: seq<ExtraAppSetting>, s: ExtraAppSetting, id: Slot)
    ensures SlotPath(settings + [s], id) == if s.Id == id then s.Path else SlotPath(settings, id)
  {
    assert (settings + [s])[..|settings|] == settings;
  }
}
