/** `MainWindowViewModel`: the folder-loading state machine around its
    `BackgroundWorker`, and the table of linked applications with the context
    menu built from it.

    The worker is explicit state: `Idle` (no worker, or one that has
    finished), `Busy`, or `CancelRequested` (busy, with `CancelAsync`
    called). Its body runs as one step between user events, and its
    completion is the event `LoadPictureContentsWorker_Completed(outcome)`.
    Whether a directory exists, what `Directory.GetFiles` lists, what each
    file holds and when a cancellation is first seen are inputs. */
module MainWindowViewModel {
  import opened Wrappers
  import opened Text
  import opened Xml
  import opened MediaContentChecker
  import opened ImageFileControl
  import opened MediaContentInfo
  import opened ExtraAppSetting
  import opened LinkageProgramViewModel

  datatype WorkerState = Idle | Busy | CancelRequested

  /** What `RunWorkerCompletedEventArgs` reports: an exception (`Error`), a
      cancellation (`Cancelled`), or neither. */
  datatype Outcome = Errored | Cancelled | Completed

  /** What the file system, the imaging layer and the shell report for one
      file of the folder. */
  datatype FileFacts = FileFacts(fileExists: bool, frame: Result<Frame>, shellThumbnail: Result<(int, int)>)

  /** What a context-menu click leads to. */
  datatype MenuAction = DeleteMedia | Launch(appPath: string, filePath: string) | NoAction

  const DeleteMediaName: string := "メディア削除"
  const OpenWithSuffix: string := "で開く"

  // ---------------------------------------------------------------------
  // The worker's two phases

  /** Every extension's listing succeeds. */
  predicate ListsAll(folder: string, extensions: seq<string>, getFiles: (string, string) -> Result<seq<string>>)
  {
    forall k :: 0 <= k < |extensions| ==> getFiles(folder, "*" + extensions[k]).Success?
  }

  /** The files of every extension, extension by extension. */
  function Candidates(folder: string, extensions: seq<string>, getFiles: (string, string) -> Result<seq<string>>): seq<string>
    requires ListsAll(folder, extensions, getFiles)
    decreases |extensions|
  {
    if extensions == [] then []
    else getFiles(folder, "*" + extensions[0]).value + Candidates(folder, extensions[1..], getFiles)
  }

  /** The first phase of the worker: the candidate paths, or how it stopped. */
  datatype Listing = Listed(paths: seq<string>) | ListingStopped(cancel: bool)

  /** The first phase: before each extension a cancellation checkpoint
      (`cancelAt` counts the checkpoints still to pass before a cancellation
      is seen), then the extension's files are appended. A listing that
      throws ends the worker without a cancellation. */
  function ListCandidates(folder: string, extensions: seq<string>, getFiles: (string, string) -> Result<seq<string>>, cancelAt: int): (l: Listing)
    ensures l.ListingStopped? && l.cancel ==> cancelAt < |extensions|
    ensures l.Listed? <==> (extensions == [] || cancelAt >= |extensions|) && ListsAll(folder, extensions, getFiles)
    ensures l.Listed? ==> l.paths == Candidates(folder, extensions, getFiles)
    decreases |extensions|
  {
    if extensions == [] then Listed([])
    else if cancelAt <= 0 then ListingStopped(true)
    else
      match getFiles(folder, "*" + extensions[0])
      case Failure(_) => ListingStopped(false)
      case Success(paths) =>
        match ListCandidates(folder, extensions[1..], getFiles, cancelAt - 1)
        case Listed(rest) => Listed(paths + rest)
        case stopped => stopped
  }

  /** The invariant of the first loop: what the whole listing yields is the
      paths gathered so far followed by what the listing of the remaining
      extensions yields, or the stop that listing meets. */
  predicate ListedFrom(folder: string, extensions: seq<string>, getFiles: (string, string) -> Result<seq<string>>, cancelAt: int, k: nat, candidates: seq<string>)
    requires k <= |extensions|
  {
    ListCandidates(folder, extensions, getFiles, cancelAt) ==
      match ListCandidates(folder, extensions[k..], getFiles, cancelAt - k)
      case Listed(rest) => Listed(candidates + rest)
      case stop => stop
  }

  /** One iteration of the first loop: a checkpoint that sees the
      cancellation stops it, a failed listing stops it without cancelling,
      and otherwise the extension's files come first. */
  lemma ListCandidatesAt(folder: string, extensions: seq<string>, getFiles: (string, string) -> Result<seq<string>>, cancelAt: int, k: nat)
    requires k < |extensions|
    ensures cancelAt - k <= 0 ==> ListCandidates(folder, extensions[k..], getFiles, cancelAt - k) == ListingStopped(true)
    ensures cancelAt - k > 0 && getFiles(folder, "*" + extensions[k]).Failure? ==>
              ListCandidates(folder, extensions[k..], getFiles, cancelAt - k) == ListingStopped(false)
    ensures cancelAt - k > 0 && getFiles(folder, "*" + extensions[k]).Success? ==>
              ListCandidates(folder, extensions[k..], getFiles, cancelAt - k) ==
                match ListCandidates(folder, extensions[k + 1..], getFiles, cancelAt - (k + 1))
                case Listed(rest) => Listed(getFiles(folder, "*" + extensions[k]).value + rest)
                case stop => stop
  {
    assert extensions[k..][0] == extensions[k];
    assert extensions[k..][1..] == extensions[k + 1..];
  }

  lemma ListedFromStep(folder: string, extensions: seq<string>, getFiles: (string, string) -> Result<seq<string>>, cancelAt: int, k: nat, before: seq<string>, paths: seq<string>)
    requires k < |extensions| && cancelAt - k > 0 && getFiles(folder, "*" + extensions[k]) == Success(paths)
    requires ListedFrom(folder, extensions, getFiles, cancelAt, k, before)
    requires ListCandidates(folder, extensions[k..], getFiles, cancelAt - k) ==
               match ListCandidates(folder, extensions[k + 1..], getFiles, cancelAt - (k + 1))
               case Listed(rest) => Listed(paths + rest)
               case stop => stop
    ensures ListedFrom(folder, extensions, getFiles, cancelAt, k + 1, before + paths)
  {
    match ListCandidates(folder, extensions[k + 1..], getFiles, cancelAt - (k + 1))
    case Listed(rest) =>
      assert before + (paths + rest) == (before + paths) + rest;
    case ListingStopped(_) =>
  }

  /** Whether `CreateThumbnailImage` succeeds for each file, in order. */
  function ThumbnailOutcomes(paths: seq<string>, facts: string -> FileFacts): (oks: seq<bool>)
    ensures |oks| == |paths|
  {
    if paths == [] then []
    else
      var f := facts(paths[0]);
      [ThumbnailSucceeds(Some(paths[0]), f.fileExists, f.frame, f.shellThumbnail)] + ThumbnailOutcomes(paths[1..], facts)
  }

  lemma {:induction false} ThumbnailOutcomeAt(paths: seq<string>, facts: string -> FileFacts, i: int)
    requires 0 <= i < |paths|
    ensures var f := facts(paths[i]);
            ThumbnailOutcomes(paths, facts)[i] == ThumbnailSucceeds(Some(paths[i]), f.fileExists, f.frame, f.shellThumbnail)
  {
    if i > 0 {
      ThumbnailOutcomeAt(paths[1..], facts, i - 1);
    }
  }

  /** The second phase, given each file's thumbnail outcome: before each
      file a cancellation checkpoint, then its `MediaContentInfo` is built;
      a thumbnail that fails throws, and the exception ends the worker
      without a cancellation. The result is how many files were added (the
      first ones, in order) and whether the worker was cancelled. */
  function ProcessFiles(oks: seq<bool>, cancelAt: int): (r: (nat, bool))
    ensures r.0 <= |oks|
    ensures r.0 == |oks| ==> !r.1
    ensures r.0 < |oks| ==> (r.1 <==> r.0 >= cancelAt)
    ensures r.0 > 0 ==> r.0 <= cancelAt
    decreases |oks|
  {
    if oks == [] then (0, false)
    else if cancelAt <= 0 then (0, true)
    else if !oks[0] then (0, false)
    else
      var rest := ProcessFiles(oks[1..], cancelAt - 1);
      (rest.0 + 1, rest.1)
  }

  /** One step of `ProcessFiles` at position `i`. */
  lemma ProcessFilesAt(oks: seq<bool>, cancelAt: int, i: int)
    requires 0 <= i < |oks|
    ensures var next := ProcessFiles(oks[i + 1..], cancelAt - i - 1);
            ProcessFiles(oks[i..], cancelAt - i) ==
              if cancelAt - i <= 0 then (0, true)
              else if !oks[i] then (0, false)
              else (next.0 + 1, next.1)
  {
    assert oks[i..][0] == oks[i] && oks[i..][1..] == oks[i + 1..];
  }

  /** Loop state of the second worker loop after `i` files: the files it
      adds in all are `i` plus those the rest adds. */
  predicate ProcessedFrom(oks: seq<bool>, cancelAt: int, i: int, processed: (nat, bool))
    requires 0 <= i <= |oks|
  {
    var rest := ProcessFiles(oks[i..], cancelAt - i);
    processed == (i + rest.0, rest.1)
  }

  /** The pass at position `i`: the loop stops there on a cancellation or a
      failed thumbnail, and goes on otherwise. */
  lemma ProcessedStep(oks: seq<bool>, cancelAt: int, i: int, processed: (nat, bool))
    requires 0 <= i < |oks| && ProcessedFrom(oks, cancelAt, i, processed)
    ensures cancelAt - i <= 0 ==> processed == (i, true)
    ensures cancelAt - i > 0 && !oks[i] ==> processed == (i, false)
    ensures cancelAt - i > 0 && oks[i] ==> ProcessedFrom(oks, cancelAt, i + 1, processed)
  {
    ProcessFilesAt(oks, cancelAt, i);
  }

  lemma ProcessedEnd(oks: seq<bool>, cancelAt: int, processed: (nat, bool))
    requires ProcessedFrom(oks, cancelAt, |oks|, processed)
    ensures processed == (|oks|, false)
  {
    assert oks[|oks|..] == [];
  }

  /** Every file added had its thumbnail created, and a worker that stops
      short without a cancellation stops at a file whose thumbnail fails. */
  lemma {:induction false} ProcessFilesStops(oks: seq<bool>, cancelAt: int)
    ensures var r := ProcessFiles(oks, cancelAt);
            && (forall k :: 0 <= k < r.0 ==> oks[k])
            && (r.0 < |oks| && !r.1 ==> !oks[r.0])
    decreases |oks|
  {
    if oks != [] && cancelAt > 0 && oks[0] {
      ProcessFilesStops(oks[1..], cancelAt - 1);
      var r := ProcessFiles(oks, cancelAt);
      forall k | 1 <= k < r.0 ensures oks[k] {
        assert oks[k] == oks[1..][k - 1];
      }
      if r.0 < |oks| {
        assert oks[r.0] == oks[1..][r.0 - 1];
      }
    }
  }

  // ---------------------------------------------------------------------
  // The context menu

  /** The display names `UpdateContextMenuFromExtraAppSetting` builds: the
      default entry, then one per setting. */
  function MenuOf(settings: seq<ExtraAppSetting>): (menu: seq<string>)
    ensures |menu| == |settings| + 1 && menu[0] == DeleteMediaName
    ensures forall i :: 0 <= i < |settings| ==> menu[i + 1] == settings[i].Name + OpenWithSuffix
  {
    [DeleteMediaName] + seq(|settings|, i requires 0 <= i < |settings| => settings[i].Name + OpenWithSuffix)
  }

  /** The Name-to-Path dictionary of the settings, added in order. */
  function PathDictionary(settings: seq<ExtraAppSetting>): (d: map<string, string>)
    ensures forall i :: 0 <= i < |settings| ==> settings[i].Name in d
  {
    if settings == [] then map[]
    else PathDictionary(settings[..|settings| - 1])[settings[|settings| - 1].Name := settings[|settings| - 1].Path]
  }

  /** The dictionary's keys are exactly the Names. */
  lemma {:induction false} PathDictionaryKeys(settings: seq<ExtraAppSetting>)
    ensures PathDictionary(settings).Keys == set i | 0 <= i < |settings| :: settings[i].Name
  {
    if settings != [] {
      var init := settings[..|settings| - 1];
      PathDictionaryKeys(init);
      assert forall i :: 0 <= i < |init| ==> init[i] == settings[i];
    }
  }

  /** How far the menu loop gets: the number of settings added before an
      icon fails to load or a Name is added twice, and the exception. */
  function MenuFailure(settings: seq<ExtraAppSetting>, iconExists: string -> bool, seen: set<string>): (r: (nat, Option<Error>))
    ensures r.0 <= |settings|
    ensures r.1.None? <==> r.0 == |settings|
    decreases |settings|
  {
    if settings == [] then (0, None)
    else if !iconExists(settings[0].Path) then (0, Some(FileNotFound))
    else if settings[0].Name in seen then (0, Some(DuplicateKey))
    else
      var rest := MenuFailure(settings[1..], iconExists, seen + {settings[0].Name});
      (rest.0 + 1, rest.1)
  }

  /** The menu is built to the end exactly when every icon loads and the
      Names are pairwise distinct. */
  lemma {:induction false} MenuFailureNone(settings: seq<ExtraAppSetting>, iconExists: string -> bool, seen: set<string>)
    ensures MenuFailure(settings, iconExists, seen).1.None? <==>
              && (forall i :: 0 <= i < |settings| ==> iconExists(settings[i].Path) && settings[i].Name !in seen)
              && (forall i, j :: 0 <= i < j < |settings| ==> settings[i].Name != settings[j].Name)
    decreases |settings|
  {
    if settings != [] {
      MenuFailureNone(settings[1..], iconExists, seen + {settings[0].Name});
      MenuConditionsSplit(settings, iconExists, seen);
    }
  }

  /** Every icon loads and every Name is new and distinct exactly when the
      first one is, and so are the rest given the first Name. */
  lemma MenuConditionsSplit(settings: seq<ExtraAppSetting>, iconExists: string -> bool, seen: set<string>)
    requires settings != []
    ensures var s, rest, seen' := settings[0], settings[1..], seen + {settings[0].Name};
            (&& (forall i :: 0 <= i < |settings| ==> iconExists(settings[i].Path) && settings[i].Name !in seen)
             && (forall i, j :: 0 <= i < j < |settings| ==> settings[i].Name != settings[j].Name))
            <==>
            (&& iconExists(s.Path) && s.Name !in seen
             && (forall i :: 0 <= i < |rest| ==> iconExists(rest[i].Path) && rest[i].Name !in seen')
             && (forall i, j :: 0 <= i < j < |rest| ==> rest[i].Name != rest[j].Name))
  {
    var s, rest := settings[0], settings[1..];
    assert forall i :: 0 <= i < |rest| ==> rest[i] == settings[i + 1];
    if && iconExists(s.Path) && s.Name !in seen
       && (forall i :: 0 <= i < |rest| ==> iconExists(rest[i].Path) && rest[i].Name !in seen + {s.Name})
       && (forall i, j :: 0 <= i < j < |rest| ==> rest[i].Name != rest[j].Name) {
      forall i, j | 0 <= i < j < |settings| ensures settings[i].Name != settings[j].Name {
        if i > 0 {
          assert settings[i] == rest[i - 1] && settings[j] == rest[j - 1];
        } else {
          assert settings[j] == rest[j - 1];
        }
      }
      forall i | 0 <= i < |settings| ensures iconExists(settings[i].Path) && settings[i].Name !in seen {
        if i > 0 {
          assert settings[i] == rest[i - 1];
        }
      }
    }
  }

  /** One pass of the menu loop at position `i`. */
  lemma MenuStep(settings: seq<ExtraAppSetting>, iconExists: string -> bool, seen: set<string>, i: int)
    requires 0 <= i < |settings|
    ensures MenuOf(settings[..i + 1]) == MenuOf(settings[..i]) + [settings[i].Name + OpenWithSuffix]
    ensures PathDictionary(settings[..i + 1]) == PathDictionary(settings[..i])[settings[i].Name := settings[i].Path]
    ensures var s := settings[i];
            var next := MenuFailure(settings[i + 1..], iconExists, seen + {s.Name});
            MenuFailure(settings[i..], iconExists, seen) ==
              if !iconExists(s.Path) then (0, Some(FileNotFound))
              else if s.Name in seen then (0, Some(DuplicateKey))
              else (next.0 + 1, next.1)
  {
    assert settings[i..][0] == settings[i] && settings[i..][1..] == settings[i + 1..];
    assert settings[..i + 1][..i] == settings[..i];
    assert settings[..i + 1][i] == settings[i];
  }

  /** The menu loop has passed the first `i` settings, having seen the
      Names in `seen`, and what remains of it decides the outcome. */
  predicate MenuFailureFrom(settings: seq<ExtraAppSetting>, iconExists: string -> bool, seen: set<string>, i: int)
    requires 0 <= i <= |settings|
  {
    var rest := MenuFailure(settings[i..], iconExists, seen);
    MenuFailure(settings, iconExists, {}) == (i + rest.0, rest.1)
  }

  /** The menu loop stops at setting `i` when its icon fails or its Name was
      seen. */
  lemma MenuFailureAt(settings: seq<ExtraAppSetting>, iconExists: string -> bool, seen: set<string>, i: int)
    requires 0 <= i < |settings| && MenuFailureFrom(settings, iconExists, seen, i)
    requires !iconExists(settings[i].Path) || settings[i].Name in seen
    ensures MenuFailure(settings, iconExists, {}) ==
              (i, if !iconExists(settings[i].Path) then Some(FileNotFound) else Some(DuplicateKey))
  {
    assert settings[i..][0] == settings[i];
  }

  /** The menu loop passes setting `i` when its icon loads and its Name is
      new. */
  lemma MenuFailureNext(settings: seq<ExtraAppSetting>, iconExists: string -> bool, seen: set<string>, i: int)
    requires 0 <= i < |settings| && MenuFailureFrom(settings, iconExists, seen, i)
    requires iconExists(settings[i].Path) && settings[i].Name !in seen
    ensures MenuFailureFrom(settings, iconExists, seen + {settings[i].Name}, i + 1)
  {
    assert settings[i..][0] == settings[i] && settings[i..][1..] == settings[i + 1..];
  }

  /** With distinct Names, the dictionary maps each setting's Name to its
      Path. */
  lemma {:induction false} PathDictionaryLookup(settings: seq<ExtraAppSetting>, i: int)
    requires 0 <= i < |settings|
    requires forall j, k :: 0 <= j < k < |settings| ==> settings[j].Name != settings[k].Name
    ensures PathDictionary(settings)[settings[i].Name] == settings[i].Path
    decreases |settings|
  {
    var last := |settings| - 1;
    if i < last {
      PathDictionaryLookup(settings[..last], i);
    }
  }

  /** The loop of `ExecuteContextMenu`: the default entry deletes the media
      as soon as the menu has any entry; otherwise the first entry with the
      clicked name launches the application its Name (the display name less
      every `で開く`) maps to, with the selected file. A missing key or a
      missing selection throws, is logged, and the loop goes on. */
  function MenuActionFor(header: string, menu: seq<string>, dictionary: map<string, string>, selected: Option<string>): (a: MenuAction)
    ensures a == DeleteMedia <==> menu != [] && header == DeleteMediaName
    ensures a.Launch? ==> header in menu && selected == Some(a.filePath) && a.appPath in dictionary.Values
    ensures menu == [] ==> a == NoAction
  {
    if menu == [] then NoAction
    else if header == DeleteMediaName then DeleteMedia
    else if header == menu[0] && RemoveAll(header, OpenWithSuffix) in dictionary && selected.Some? then
      Launch(dictionary[RemoveAll(header, OpenWithSuffix)], selected.value)
    else MenuActionFor(header, menu[1..], dictionary, selected)
  }

  /** Entries before the first one with the clicked name are passed over. */
  lemma {:induction false} MenuActionForSkips(header: string, menu: seq<string>, dictionary: map<string, string>, selected: Option<string>, m: int)
    requires 0 <= m < |menu| && header != DeleteMediaName
    requires forall j :: 0 <= j < m ==> menu[j] != header
    ensures MenuActionFor(header, menu, dictionary, selected) == MenuActionFor(header, menu[m..], dictionary, selected)
    decreases m
  {
    if m > 0 {
      MenuActionForSkips(header, menu[1..], dictionary, selected, m - 1);
      assert menu[1..][m - 1..] == menu[m..];
    }
  }

  /** The menu round trip: once the menu is built from the settings, clicking
      the entry of setting `i` launches that setting's application, provided
      its Name does not itself hold `で開く`. */
  lemma LaunchFromMenu(settings: seq<ExtraAppSetting>, iconExists: string -> bool, i: int, filePath: string)
    requires MenuFailure(settings, iconExists, {}).1.None?
    requires 0 <= i < |settings|
    requires forall j: nat :: j < |settings[i].Name| ==> !MatchAt(settings[i].Name + OpenWithSuffix, OpenWithSuffix, j)
    ensures MenuActionFor(settings[i].Name + OpenWithSuffix, MenuOf(settings), PathDictionary(settings), Some(filePath))
            == Launch(settings[i].Path, filePath)
  {
    var header := settings[i].Name + OpenWithSuffix;
    var menu := MenuOf(settings);
    var dictionary := PathDictionary(settings);
    NamesDistinct(settings, iconExists);
    assert header != DeleteMediaName by {
      assert header[|header| - 1] == 'く';
      assert DeleteMediaName[|DeleteMediaName| - 1] == '除';
    }
    assert forall j :: 0 <= j < i + 1 ==> menu[j] != header by {
      MenuEntriesBefore(settings, i);
    }
    assert RemoveAll(header, OpenWithSuffix) == settings[i].Name by {
      RemoveAllSuffix(settings[i].Name, OpenWithSuffix);
    }
    assert settings[i].Name in dictionary && dictionary[settings[i].Name] == settings[i].Path by {
      PathDictionaryLookup(settings, i);
    }
    MenuActionAt(header, menu, dictionary, Some(filePath), i + 1);
  }

  /** The first entry with the clicked name, when its key is in the
      dictionary and a file is selected, launches. */
  lemma MenuActionAt(header: string, menu: seq<string>, dictionary: map<string, string>, selected: Option<string>, m: int)
    requires 0 <= m < |menu| && menu[m] == header && header != DeleteMediaName
    requires forall j :: 0 <= j < m ==> menu[j] != header
    requires RemoveAll(header, OpenWithSuffix) in dictionary && selected.Some?
    ensures MenuActionFor(header, menu, dictionary, selected) == Launch(dictionary[RemoveAll(header, OpenWithSuffix)], selected.value)
  {
    MenuActionForSkips(header, menu, dictionary, selected, m);
    assert menu[m..][0] == header;
  }

  /** A menu that was built to the end has pairwise distinct Names. */
  lemma NamesDistinct(settings: seq<ExtraAppSetting>, iconExists: string -> bool)
    requires MenuFailure(settings, iconExists, {}).1.None?
    ensures forall j, k :: 0 <= j < k < |settings| ==> settings[j].Name != settings[k].Name
  {
    MenuFailureNone(settings, iconExists, {});
  }

  /** With distinct Names, no entry before that of setting `i` shows its
      display name. */
  lemma MenuEntriesBefore(settings: seq<ExtraAppSetting>, i: int)
    requires 0 <= i < |settings|
    requires forall j, k :: 0 <= j < k < |settings| ==> settings[j].Name != settings[k].Name
    ensures forall j :: 1 <= j < i + 1 ==> MenuOf(settings)[j] != settings[i].Name + OpenWithSuffix
  {
    forall j | 1 <= j < i + 1
      ensures MenuOf(settings)[j] != settings[i].Name + OpenWithSuffix
    {
      AppendDistinct(settings[j - 1].Name, settings[i].Name, OpenWithSuffix);
    }
  }

  lemma AppendDistinct(a: string, b: string, t: string)
    requires a != b
    ensures a + t != b + t
  {
    if |a| == |b| {
      var k :| 0 <= k < |a| && a[k] != b[k];
      assert (a + t)[k] != (b + t)[k];
    }
  }

  // ---------------------------------------------------------------------
  // The table of linked applications

  predicate SortedById(s: seq<ExtraAppSetting>)
  {
    forall i, j :: 0 <= i < j < |s| ==> s[i].Id <= s[j].Id
  }

  predicate UniqueIds(s: seq<ExtraAppSetting>)
  {
    forall i, j :: 0 <= i < j < |s| ==> s[i].Id != s[j].Id
  }

  lemma SortedSnoc(s: seq<ExtraAppSetting>, x: ExtraAppSetting)
    requires SortedById(s) && (s == [] || s[|s| - 1].Id <= x.Id)
    ensures SortedById(s + [x])
  {
    forall i, j | 0 <= i < j < |s| + 1
      ensures (s + [x])[i].Id <= (s + [x])[j].Id
    {
      if j == |s| {
        assert s[i].Id <= s[|s| - 1].Id;
      }
    }
  }

  /** `x` inserted after every entry whose Id is not larger. */
  function InsertById(s: seq<ExtraAppSetting>, x: ExtraAppSetting): (r: seq<ExtraAppSetting>)
    requires SortedById(s)
    ensures SortedById(r) && multiset(r) == multiset(s) + multiset{x}
    ensures |r| == |s| + 1 && (r[|r| - 1] == x || (s != [] && r[|r| - 1] == s[|s| - 1]))
    decreases |s|
  {
    if s == [] then [x]
    else if x.Id < s[|s| - 1].Id then
      var init, last := s[..|s| - 1], s[|s| - 1];
      var r0 := InsertById(init, x);
      assert s == init + [last];
      assert r0[|r0| - 1].Id <= last.Id;
      SortedSnoc(r0, last);
      r0 + [last]
    else
      SortedSnoc(s, x);
      s + [x]
  }

  /** `OrderBy(n => n.Id)`: the same settings, ordered by Id. */
  function SortById(s: seq<ExtraAppSetting>): (r: seq<ExtraAppSetting>)
    ensures SortedById(r) && multiset(r) == multiset(s)
    decreases |s|
  {
    if s == [] then []
    else
      assert s == s[..|s| - 1] + [s[|s| - 1]];
      InsertById(SortById(s[..|s| - 1]), s[|s| - 1])
  }

  /** The settings with the Id, in the order they come in `s`. */
  function WithId(s: seq<ExtraAppSetting>, id: int): (r: seq<ExtraAppSetting>)
    ensures |r| <= |s|
  {
    if s == [] then []
    else WithId(s[..|s| - 1], id) + (if s[|s| - 1].Id == id then [s[|s| - 1]] else [])
  }

  /** `InsertById` puts the new setting after every setting with its Id. */
  lemma {:induction false} InsertByIdWithId(s: seq<ExtraAppSetting>, x: ExtraAppSetting, id: int)
    requires SortedById(s)
    ensures WithId(InsertById(s, x), id) == WithId(s, id) + (if x.Id == id then [x] else [])
    decreases |s|
  {
    if s == [] || x.Id >= s[|s| - 1].Id {
      InsertByIdAtEnd(s, x);
      WithIdSnoc(s, x, id);
    } else {
      var init, last := s[..|s| - 1], s[|s| - 1];
      InsertByIdBeforeLast(s, x);
      InsertByIdWithId(init, x, id);
      InsertBeforeLastStep(InsertById(init, x), init, last, x, id);
      assert s == init + [last];
    }
  }

  /** Appending a setting with a larger Id than `x` on both sides keeps `x`
      last among its Id. */
  lemma InsertBeforeLastStep(r0: seq<ExtraAppSetting>, init: seq<ExtraAppSetting>, last: ExtraAppSetting, x: ExtraAppSetting, id: int)
    requires x.Id < last.Id
    requires WithId(r0, id) == WithId(init, id) + (if x.Id == id then [x] else [])
    ensures WithId(r0 + [last], id) == WithId(init + [last], id) + (if x.Id == id then [x] else [])
  {
    WithIdSnoc(r0, last, id);
    WithIdSnoc(init, last, id);
  }

  /** A setting with no smaller Id than the last goes at the end. */
  lemma InsertByIdAtEnd(s: seq<ExtraAppSetting>, x: ExtraAppSetting)
    requires SortedById(s) && (s == [] || x.Id >= s[|s| - 1].Id)
    ensures InsertById(s, x) == s + [x]
  {
  }

  lemma WithIdSnoc(s: seq<ExtraAppSetting>, x: ExtraAppSetting, id: int)
    ensures WithId(s + [x], id) == WithId(s, id) + (if x.Id == id then [x] else [])
  {
    assert (s + [x])[..|s|] == s;
  }

  /** A setting with a smaller Id than the last goes before the last. */
  lemma InsertByIdBeforeLast(s: seq<ExtraAppSetting>, x: ExtraAppSetting)
    requires SortedById(s) && s != [] && x.Id < s[|s| - 1].Id
    ensures SortedById(s[..|s| - 1])
    ensures InsertById(s, x) == InsertById(s[..|s| - 1], x) + [s[|s| - 1]]
  {
  }

  /** `OrderBy` is stable: the settings sharing an Id keep their order. */
  lemma {:induction false} SortByIdStable(s: seq<ExtraAppSetting>, id: int)
    ensures WithId(SortById(s), id) == WithId(s, id)
    decreases |s|
  {
    if s != [] {
      var init, last := s[..|s| - 1], s[|s| - 1];
      SortByIdStable(init, id);
      InsertByIdWithId(SortById(init), last, id);
    }
  }

  function CountId(s: seq<ExtraAppSetting>, id: int): (n: nat)
    ensures n <= |s|
    ensures n == 0 <==> forall i :: 0 <= i < |s| ==> s[i].Id != id
  {
    if s == [] then 0 else (if s[0].Id == id then 1 else 0) + CountId(s[1..], id)
  }

  /** The first entry with the Id. */
  function IndexOfId(s: seq<ExtraAppSetting>, id: int): (k: nat)
    requires CountId(s, id) > 0
    ensures k < |s| && s[k].Id == id
    ensures forall j :: 0 <= j < k ==> s[j].Id != id
  {
    if s[0].Id == id then 0 else 1 + IndexOfId(s[1..], id)
  }

  /** When exactly one entry has the Id, it sits at `IndexOfId`. */
  lemma {:induction false} SingleIdIndex(s: seq<ExtraAppSetting>, id: int)
    requires CountId(s, id) == 1
    ensures forall j :: 0 <= j < |s| && s[j].Id == id ==> j == IndexOfId(s, id)
  {
    if s[0].Id == id {
      forall j | 1 <= j < |s| ensures s[j].Id != id {
        assert s[1..][j - 1] == s[j];
      }
    } else {
      SingleIdIndex(s[1..], id);
      forall j | 0 <= j < |s| && s[j].Id == id ensures j == IndexOfId(s, id) {
        assert j > 0 && s[1..][j - 1] == s[j];
      }
    }
  }

  /** With unique Ids, an entry with the Id is the only one. */
  lemma UniqueIdCount(s: seq<ExtraAppSetting>, id: int)
    requires UniqueIds(s) && CountId(s, id) > 0
    ensures CountId(s, id) == 1
    ensures forall j :: 0 <= j < |s| && s[j].Id == id ==> j == IndexOfId(s, id)
  {
    if s[0].Id == id {
      assert forall j :: 0 <= j < |s[1..]| ==> s[1..][j].Id != id by {
        forall j | 0 <= j < |s[1..]| ensures s[1..][j].Id != id {
          assert s[1..][j] == s[j + 1];
        }
      }
    } else {
      UniqueIdCount(s[1..], id);
      forall j | 0 <= j < |s| && s[j].Id == id
        ensures j == IndexOfId(s, id)
      {
        assert j > 0 && s[1..][j - 1] == s[j];
      }
    }
  }

  /** One pass of the merge loop in `UpdateLinkageContents`, as written:
      `SingleOrDefault` throws on two entries with the Id; an entry with the
      Id and another Path is replaced at index `Id - 1`; a new Id is appended
      and the list re-sorted. */
  function MergeSetting(collection: seq<ExtraAppSetting>, e: ExtraAppSetting): (r: Result<seq<ExtraAppSetting>>)
    ensures CountId(collection, e.Id) > 1 <==> r == Failure(InvalidOperation)
    ensures CountId(collection, e.Id) == 0 ==> r == Success(SortById(collection + [e]))
    ensures CountId(collection, e.Id) == 1 ==> forall i :: 0 <= i < |collection| && collection[i].Id == e.Id ==>
              && (collection[i].Path == e.Path ==> r == Success(collection))
              && (collection[i].Path != e.Path && 0 <= e.Id - 1 < |collection| ==> r == Success(collection[e.Id - 1 := e]))
              && (collection[i].Path != e.Path && !(0 <= e.Id - 1 < |collection|) ==> r == Failure(ArgumentOutOfRange))
  {
    var n := CountId(collection, e.Id);
    if n > 1 then Failure(InvalidOperation)
    else if n == 1 then
      SingleIdIndex(collection, e.Id);
      var contained := collection[IndexOfId(collection, e.Id)];
      if contained.Path != e.Path then
        var index := contained.Id - 1;
        if 0 <= index < |collection| then Success(collection[index := e]) else Failure(ArgumentOutOfRange)
      else Success(collection)
    else Success(SortById(collection + [e]))
  }

  /** The merge loop: each queued setting in turn, until one throws. */
  function MergeAll(collection: seq<ExtraAppSetting>, add: seq<ExtraAppSetting>): (r: (seq<ExtraAppSetting>, Option<Error>))
    ensures add == [] ==> r == (collection, None)
    decreases |add|
  {
    if add == [] then (collection, None)
    else
      match MergeSetting(collection, add[0])
      case Failure(e) => (collection, Some(e))
      case Success(next) => MergeAll(next, add[1..])
  }

  /** Replacing at index `Id - 1` loses a setting: with slots 2 and 3
      registered, a new path for slot 2 overwrites slot 3's entry and leaves
      two entries with Id 2. */
  lemma MergeSettingReplacesWrongEntry()
    ensures var collection := [ExtraAppSetting(2, "a", "p"), ExtraAppSetting(3, "b", "q")];
            var e := ExtraAppSetting(2, "c", "r");
            && UniqueIds(collection)
            && MergeSetting(collection, e) == Success([ExtraAppSetting(2, "a", "p"), ExtraAppSetting(2, "c", "r")])
            && !UniqueIds(MergeSetting(collection, e).value)
            && ExtraAppSetting(3, "b", "q") !in MergeSetting(collection, e).value
  {
    var collection := [ExtraAppSetting(2, "a", "p"), ExtraAppSetting(3, "b", "q")];
    var e := ExtraAppSetting(2, "c", "r");
    assert collection[1..] == [collection[1]] && collection[1..][1..] == [];
    assert CountId(collection[1..], 2) == 0;
    assert CountId(collection, 2) == 1;
    assert IndexOfId(collection, 2) == 0;
    var r := collection[1 := e];
    assert MergeSetting(collection, e) == Success(r);
    assert r[0].Id == r[1].Id;
    assert r == [ExtraAppSetting(2, "a", "p"), ExtraAppSetting(2, "c", "r")];
  }

  /** The evidently intended pass: the entry with the Id is replaced where it
      stands. */
  function MergeSettingCorrected(collection: seq<ExtraAppSetting>, e: ExtraAppSetting): (r: seq<ExtraAppSetting>)
    requires UniqueIds(collection)
  {
    if CountId(collection, e.Id) == 0 then SortById(collection + [e])
    else
      var k := IndexOfId(collection, e.Id);
      if collection[k].Path != e.Path then collection[k := e] else collection
  }

  /** The corrected pass keeps the Ids unique, and holds exactly the new
      setting (or the one already there with its path) and every setting of
      another Id. */
  lemma MergeSettingCorrectedKeepsTable(collection: seq<ExtraAppSetting>, e: ExtraAppSetting)
    requires UniqueIds(collection)
    ensures var r := MergeSettingCorrected(collection, e);
            && UniqueIds(r)
            && (forall x :: x in collection && x.Id != e.Id ==> x in r)
            && (forall x :: x in r && x.Id != e.Id ==> x in collection)
            && (exists x :: x in r && x.Id == e.Id && x.Path == e.Path)
  {
    if CountId(collection, e.Id) == 0 {
      MergeNewId(collection, e);
    } else {
      MergeKnownId(collection, e);
    }
  }

  lemma MergeNewId(collection: seq<ExtraAppSetting>, e: ExtraAppSetting)
    requires UniqueIds(collection) && CountId(collection, e.Id) == 0
    ensures var r := SortById(collection + [e]);
            && UniqueIds(r)
            && (forall x :: x in r <==> x in collection || x == e)
  {
    var all := collection + [e];
    var r := SortById(all);
    assert UniqueIds(all) by {
      forall a, b | 0 <= a < b < |all| ensures all[a].Id != all[b].Id {
        if b == |collection| {
          assert all[a] == collection[a];
        }
      }
    }
    SortKeepsUnique(all);
    forall x | x in all ensures x in r {
      assert x in multiset(all);
    }
    forall x | x in r ensures x in all {
      assert x in multiset(r);
    }
  }

  lemma MergeKnownId(collection: seq<ExtraAppSetting>, e: ExtraAppSetting)
    requires UniqueIds(collection) && CountId(collection, e.Id) > 0
    ensures var k := IndexOfId(collection, e.Id);
            var r := if collection[k].Path != e.Path then collection[k := e] else collection;
            && UniqueIds(r)
            && (forall x :: x in collection && x.Id != e.Id ==> x in r)
            && (forall x :: x in r && x.Id != e.Id ==> x in collection)
            && (exists x :: x in r && x.Id == e.Id && x.Path == e.Path)
  {
    var k := IndexOfId(collection, e.Id);
    UniqueIdCount(collection, e.Id);
    if collection[k].Path != e.Path {
      var r := collection[k := e];
      forall x | x in collection && x.Id != e.Id ensures x in r {
        var j :| 0 <= j < |collection| && collection[j] == x;
        assert r[j] == x;
      }
      forall x | x in r && x.Id != e.Id ensures x in collection {
        var j :| 0 <= j < |r| && r[j] == x;
        assert collection[j] == x;
      }
      assert r[k] == e;
    } else {
      assert collection[k] in collection;
    }
  }

  /** Inserting a setting of a new Id keeps the Ids unique. */
  lemma {:induction false} InsertKeepsUnique(s: seq<ExtraAppSetting>, x: ExtraAppSetting)
    requires SortedById(s) && UniqueIds(s)
    requires forall k :: 0 <= k < |s| ==> s[k].Id != x.Id
    ensures UniqueIds(InsertById(s, x))
    decreases |s|
  {
    if s != [] && x.Id < s[|s| - 1].Id {
      var init, last := s[..|s| - 1], s[|s| - 1];
      assert forall k :: 0 <= k < |init| ==> init[k] == s[k];
      InsertKeepsUnique(init, x);
      var r0 := InsertById(init, x);
      forall k | 0 <= k < |r0| ensures r0[k].Id != last.Id {
        var y := r0[k];
        assert y in multiset(r0);
        if y != x {
          assert y in multiset(init);
          var m :| 0 <= m < |init| && init[m] == y;
          assert s[m] == y;
        }
      }
      UniqueSnoc(r0, last);
    } else {
      UniqueSnoc(s, x);
    }
  }

  /** An entry whose Id is new keeps the Ids unique when appended. */
  lemma UniqueSnoc(s: seq<ExtraAppSetting>, x: ExtraAppSetting)
    requires UniqueIds(s)
    requires forall k :: 0 <= k < |s| ==> s[k].Id != x.Id
    ensures UniqueIds(s + [x])
  {
    var r := s + [x];
    forall a, b | 0 <= a < b < |r| ensures r[a].Id != r[b].Id {
      if b == |s| {
        assert r[a] == s[a];
      }
    }
  }

  /** Sorting keeps the Ids unique. */
  lemma {:induction false} SortKeepsUnique(s: seq<ExtraAppSetting>)
    requires UniqueIds(s)
    ensures UniqueIds(SortById(s))
    decreases |s|
  {
    if s != [] {
      var init, last := s[..|s| - 1], s[|s| - 1];
      SortKeepsUnique(init);
      var r0 := SortById(init);
      forall k | 0 <= k < |r0| ensures r0[k].Id != last.Id {
        assert r0[k] in multiset(init);
        var m :| 0 <= m < |init| && init[m] == r0[k];
        assert s[m] == r0[k];
      }
      InsertKeepsUnique(r0, last);
    }
  }

  /** When the table holds Ids `1, 2, ..., n` in order, the written pass and
      the intended one agree: the bug shows only when a slot below is
      empty. */
  lemma MergeAgreesOnDenseTable(collection: seq<ExtraAppSetting>, e: ExtraAppSetting)
    requires forall k :: 0 <= k < |collection| ==> collection[k].Id == k + 1
    ensures UniqueIds(collection)
    ensures MergeSetting(collection, e) == Success(MergeSettingCorrected(collection, e))
  {
    if CountId(collection, e.Id) > 0 {
      UniqueIdCount(collection, e.Id);
      assert IndexOfId(collection, e.Id) == e.Id - 1;
    }
  }

  /** The removal loop of `DeleteLinkageContents`, as written: after
      `RemoveAt(i)` the index still advances, so the entry that moved into
      place `i` is never looked at. */
  function RemoveSkipping(s: seq<ExtraAppSetting>, id: int): (r: seq<ExtraAppSetting>)
    ensures |r| <= |s|
    decreases |s|
  {
    if s == [] then []
    else if s[0].Id != id then [s[0]] + RemoveSkipping(s[1..], id)
    else if |s| == 1 then []
    else [s[1]] + RemoveSkipping(s[2..], id)
  }

  /** The removal loop at index `i` of the current list `s`: the part before
      `i` stays, and what `RemoveSkipping` makes of the rest completes the
      final list; an index one past the end means the last entry was just
      removed. */
  predicate RemovalState(s: seq<ExtraAppSetting>, i: int, id: int, removed: seq<ExtraAppSetting>)
  {
    && (0 <= i <= |s| ==> s[..i] + RemoveSkipping(s[i..], id) == removed)
    && (i == |s| + 1 ==> s == removed)
  }

  lemma RemovalStepRemove(s: seq<ExtraAppSetting>, i: int, id: int, removed: seq<ExtraAppSetting>)
    requires 0 <= i < |s| && s[i].Id == id && RemovalState(s, i, id, removed)
    ensures RemovalState(s[..i] + s[i + 1..], i + 1, id, removed)
  {
    var t := s[..i] + s[i + 1..];
    if i + 1 < |s| {
      assert s[i..][1..][1..] == s[i + 2..];
      assert t[..i + 1] == s[..i] + [s[i + 1]];
      assert t[i + 1..] == s[i + 2..];
    } else {
      assert t == s[..i];
    }
  }

  lemma RemovalStepKeep(s: seq<ExtraAppSetting>, i: int, id: int, removed: seq<ExtraAppSetting>)
    requires 0 <= i < |s| && s[i].Id != id && RemovalState(s, i, id, removed)
    ensures RemovalState(s, i + 1, id, removed)
  {
    assert s[i..][1..] == s[i + 1..];
    assert s[..i + 1] == s[..i] + [s[i]];
  }

  /** The evidently intended removal: every entry with the Id. */
  function RemoveId(s: seq<ExtraAppSetting>, id: int): (r: seq<ExtraAppSetting>)
    ensures forall x :: x in r <==> x in s && x.Id != id
    ensures CountId(r, id) == 0
    decreases |s|
  {
    if s == [] then []
    else if s[0].Id != id then [s[0]] + RemoveId(s[1..], id)
    else RemoveId(s[1..], id)
  }

  /** Two entries with the deleted Id next to each other: the second
      survives. */
  lemma RemoveSkippingKeepsDuplicate()
    ensures var s := [ExtraAppSetting(1, "a", "p"), ExtraAppSetting(1, "b", "q")];
            && RemoveSkipping(s, 1) == [ExtraAppSetting(1, "b", "q")]
            && RemoveId(s, 1) == []
  {
    var s := [ExtraAppSetting(1, "a", "p"), ExtraAppSetting(1, "b", "q")];
    assert s[2..] == [];
  }

  /** With at most one entry of the Id, the written loop removes what the
      intended one does. */
  lemma {:induction false} RemoveSkippingAgrees(s: seq<ExtraAppSetting>, id: int)
    requires CountId(s, id) <= 1
    ensures RemoveSkipping(s, id) == RemoveId(s, id)
    decreases |s|
  {
    if s != [] {
      if s[0].Id != id {
        RemoveSkippingAgrees(s[1..], id);
      } else if |s| > 1 {
        assert CountId(s[1..], id) == 0;
        assert s[1..][0] == s[1] && s[1..][1..] == s[2..];
        assert s[1].Id != id;
        RemoveSkippingAgrees(s[2..], id);
      }
    }
  }

  // ---------------------------------------------------------------------
  // The view model

  /** The entries from `start` on are one per candidate path, in order,
      each with its thumbnail. */
  predicate AddedFor(list: seq<MediaContentInfo>, start: nat, paths: seq<string>)
    reads set j | start <= j < |list| :: list[j]
  {
    forall j :: start <= j < |list| ==>
      && j - start < |paths|
      && list[j].FilePath == Some(paths[j - start])
      && list[j].ThumbnailImage.Some?
  }

  lemma AddedForAppend(list: seq<MediaContentInfo>, start: nat, paths: seq<string>, info: MediaContentInfo)
    requires start <= |list| < start + |paths| && AddedFor(list, start, paths)
    requires info.FilePath == Some(paths[|list| - start]) && info.ThumbnailImage.Some?
    ensures AddedFor(list + [info], start, paths)
  {
    var longer := list + [info];
    forall j | start <= j < |longer|
      ensures longer[j].FilePath == Some(paths[j - start]) && longer[j].ThumbnailImage.Some?
    {
      if j < |list| {
        assert longer[j] == list[j];
      }
    }
  }

  class MainWindowViewModel {
    var SelectedPicturePath: string
    var PreviousFilePath: string
    /** `LoadPictureContentsBackgroundWorker`, as its `IsBusy` and
        `CancellationPending`. */
    var Worker: WorkerState
    var LoadPictureContentsBackgroundWorker_Reload: bool
    var MediaInfoList: seq<MediaContentInfo>
    var ExtraAppSettingCollection: seq<ExtraAppSetting>
    /** The display name of each `ContextMenuControl`. */
    var ContextMenuCollection: seq<string>
    var ExtraAppPathDictionary: map<string, string>
    /** The folders a worker was started on, oldest first. */
    ghost var Loads: seq<string>

    /** The field values the constructor sets before it imports the settings
        and selects the first folder. */
    constructor ()
      ensures SelectedPicturePath == "" && PreviousFilePath == ""
      ensures Worker == Idle && !LoadPictureContentsBackgroundWorker_Reload
      ensures MediaInfoList == [] && ExtraAppSettingCollection == []
      ensures ContextMenuCollection == [] && ExtraAppPathDictionary == map[] && Loads == []
    {
      SelectedPicturePath, PreviousFilePath := "", "";
      Worker, LoadPictureContentsBackgroundWorker_Reload := Idle, false;
      MediaInfoList, ExtraAppSettingCollection := [], [];
      ContextMenuCollection, ExtraAppPathDictionary := [], map[];
      Loads := [];
    }

    /** `LoadPictureContentsList`: a missing folder puts the previous one
        back and starts nothing; otherwise the list is emptied and one worker
        starts. Only called with no worker busy, so there is never more than
        one. */
    method LoadPictureContentsList(dirExists: string -> bool)
      requires Worker == Idle
      modifies this`SelectedPicturePath, this`PreviousFilePath, this`MediaInfoList, this`Worker, this`Loads
      ensures !dirExists(old(SelectedPicturePath)) ==>
                && SelectedPicturePath == old(PreviousFilePath) && PreviousFilePath == ""
                && MediaInfoList == old(MediaInfoList) && Worker == Idle && Loads == old(Loads)
      ensures dirExists(old(SelectedPicturePath)) ==>
                && SelectedPicturePath == old(SelectedPicturePath) && PreviousFilePath == old(PreviousFilePath)
                && MediaInfoList == [] && Worker == Busy && Loads == old(Loads) + [SelectedPicturePath]
    {
      if !dirExists(SelectedPicturePath) {
        SelectedPicturePath := PreviousFilePath;
        PreviousFilePath := "";
        return;
      }
      MediaInfoList := [];
      Worker := Busy;
      Loads := Loads + [SelectedPicturePath];
    }

    /** `UpdatePictureContentsList`: a busy worker is asked to cancel and a
        reload is owed; with no worker busy, a load starts unless a reload is
        already owed. */
    method UpdatePictureContentsList(dirExists: string -> bool)
      modifies this`SelectedPicturePath, this`PreviousFilePath, this`MediaInfoList, this`Worker, this`Loads, this`LoadPictureContentsBackgroundWorker_Reload
      ensures old(Worker) != Idle ==>
                && Worker == CancelRequested && LoadPictureContentsBackgroundWorker_Reload
                && SelectedPicturePath == old(SelectedPicturePath) && PreviousFilePath == old(PreviousFilePath)
                && MediaInfoList == old(MediaInfoList) && Loads == old(Loads)
      ensures old(Worker) == Idle && old(LoadPictureContentsBackgroundWorker_Reload) ==> unchanged(this)
      ensures old(Worker) == Idle && !old(LoadPictureContentsBackgroundWorker_Reload) ==>
                && !LoadPictureContentsBackgroundWorker_Reload
                && (!dirExists(old(SelectedPicturePath)) ==>
                      && SelectedPicturePath == old(PreviousFilePath) && PreviousFilePath == ""
                      && MediaInfoList == old(MediaInfoList) && Worker == Idle && Loads == old(Loads))
                && (dirExists(old(SelectedPicturePath)) ==>
                      && SelectedPicturePath == old(SelectedPicturePath) && PreviousFilePath == old(PreviousFilePath)
                      && MediaInfoList == [] && Worker == Busy && Loads == old(Loads) + [SelectedPicturePath])
    {
      if Worker != Idle {
        LoadPictureContentsBackgroundWorker_Reload := true;
        Worker := CancelRequested;
      } else {
        if LoadPictureContentsBackgroundWorker_Reload {
          return;
        }
        LoadPictureContentsList(dirExists);
      }
    }

    /** `ChangePictureContentsList`: the folder already shown changes
        nothing; any other folder becomes the selection, the old one is kept
        as the previous path, and the list is updated. */
    method ChangePictureContentsList(folder: string, dirExists: string -> bool)
      modifies this`SelectedPicturePath, this`PreviousFilePath, this`MediaInfoList, this`Worker, this`Loads, this`LoadPictureContentsBackgroundWorker_Reload
      ensures folder == old(SelectedPicturePath) ==> unchanged(this)
      ensures folder != old(SelectedPicturePath) && old(Worker) != Idle ==>
                && SelectedPicturePath == folder && PreviousFilePath == old(SelectedPicturePath)
                && Worker == CancelRequested && LoadPictureContentsBackgroundWorker_Reload
                && MediaInfoList == old(MediaInfoList) && Loads == old(Loads)
      ensures folder != old(SelectedPicturePath) && old(Worker) == Idle && old(LoadPictureContentsBackgroundWorker_Reload) ==>
                && SelectedPicturePath == folder && PreviousFilePath == old(SelectedPicturePath)
                && Worker == Idle && LoadPictureContentsBackgroundWorker_Reload
                && MediaInfoList == old(MediaInfoList) && Loads == old(Loads)
      ensures folder != old(SelectedPicturePath) && old(Worker) == Idle && !old(LoadPictureContentsBackgroundWorker_Reload) && !dirExists(folder) ==>
                && SelectedPicturePath == old(SelectedPicturePath) && PreviousFilePath == ""
                && Worker == Idle && !LoadPictureContentsBackgroundWorker_Reload
                && MediaInfoList == old(MediaInfoList) && Loads == old(Loads)
      ensures folder != old(SelectedPicturePath) && old(Worker) == Idle && !old(LoadPictureContentsBackgroundWorker_Reload) && dirExists(folder) ==>
                && SelectedPicturePath == folder && PreviousFilePath == old(SelectedPicturePath)
                && Worker == Busy && !LoadPictureContentsBackgroundWorker_Reload
                && MediaInfoList == [] && Loads == old(Loads) + [folder]
    {
      if folder == SelectedPicturePath {
        return;
      }
      PreviousFilePath := SelectedPicturePath;
      SelectedPicturePath := folder;
      UpdatePictureContentsList(dirExists);
    }

    /** `LoadPictureContentsWorker` with the exception handler of
        `LoadContentsWorker_DoWork`: the candidates of every supported
        extension, then one `MediaContentInfo` with its thumbnail per
        candidate, appended in candidate order. `getFiles` is
        `Directory.GetFiles`; `cancelAt` is the number of checkpoints passed
        before `CancellationPending` is seen. The result is `Cancel`. */
    method LoadPictureContentsWorker(getFiles: (string, string) -> Result<seq<string>>, facts: string -> FileFacts, cancelAt: nat)
      returns (cancel: bool)
      requires Worker != Idle
      modifies this`MediaInfoList
      ensures var listing := ListCandidates(SelectedPicturePath, SupportPictureExtensions + SupportMovieExtensions, getFiles, cancelAt);
              && (listing.ListingStopped? ==> cancel == listing.cancel && MediaInfoList == old(MediaInfoList))
              && (listing.Listed? ==>
                    var processed := ProcessFiles(ThumbnailOutcomes(listing.paths, facts), cancelAt - |SupportPictureExtensions + SupportMovieExtensions|);
                    && cancel == processed.1
                    && |MediaInfoList| == |old(MediaInfoList)| + processed.0
                    && MediaInfoList[..|old(MediaInfoList)|] == old(MediaInfoList)
                    && AddedFor(MediaInfoList, |old(MediaInfoList)|, listing.paths)
                    && forall j :: |old(MediaInfoList)| <= j < |MediaInfoList| ==> fresh(MediaInfoList[j]))
    {
      var extensions := GetSupportExtensions();
      var candidates, stopped := ListFiles(extensions[..], getFiles, cancelAt);
      if stopped.Some? {
        return stopped.value;
      }
      assert candidates == ListCandidates(SelectedPicturePath, SupportPictureExtensions + SupportMovieExtensions, getFiles, cancelAt).paths;
      cancel := AddMediaContents(candidates, facts, cancelAt - extensions.Length);
    }

    /** The first loop of `LoadPictureContentsWorker`. */
    method ListFiles(extensions: seq<string>, getFiles: (string, string) -> Result<seq<string>>, cancelAt: nat)
      returns (candidates: seq<string>, stopped: Option<bool>)
      ensures var listing := ListCandidates(SelectedPicturePath, extensions, getFiles, cancelAt);
              && (listing.ListingStopped? <==> stopped.Some?)
              && (listing.ListingStopped? ==> stopped.value == listing.cancel)
              && (listing.Listed? ==> candidates == listing.paths)
    {
      var folder := SelectedPicturePath;
      candidates := [];
      var k := 0;
      while k < |extensions|
        invariant 0 <= k <= |extensions|
        invariant ListedFrom(folder, extensions, getFiles, cancelAt, k, candidates)
      {
        ListCandidatesAt(folder, extensions, getFiles, cancelAt, k);
        if cancelAt - k <= 0 {
          return candidates, Some(true);
        }
        var filePaths := getFiles(folder, "*" + extensions[k]);
        if filePaths.Failure? {
          return candidates, Some(false);
        }
        var paths := filePaths.value;
        ghost var before := candidates;
        for j := 0 to |paths|
          invariant candidates == before + paths[..j]
        {
          assert paths[..j + 1] == paths[..j] + [paths[j]];
          candidates := candidates + [paths[j]];
        }
        assert paths[..|paths|] == paths;
        ListedFromStep(folder, extensions, getFiles, cancelAt, k, before, paths);
        k := k + 1;
      }
      assert extensions[k..] == [];
      stopped := None;
    }

    /** The second loop of `LoadPictureContentsWorker`. */
    method AddMediaContents(paths: seq<string>, facts: string -> FileFacts, cancelAt: int) returns (cancel: bool)
      modifies this`MediaInfoList
      ensures var processed := ProcessFiles(ThumbnailOutcomes(paths, facts), cancelAt);
              && cancel == processed.1
              && |MediaInfoList| == |old(MediaInfoList)| + processed.0
              && MediaInfoList[..|old(MediaInfoList)|] == old(MediaInfoList)
              && AddedFor(MediaInfoList, |old(MediaInfoList)|, paths)
              && forall j :: |old(MediaInfoList)| <= j < |MediaInfoList| ==> fresh(MediaInfoList[j])
    {
      var start := |MediaInfoList|;
      ghost var oks := ThumbnailOutcomes(paths, facts);
      ghost var processed := ProcessFiles(oks, cancelAt);
      var i := 0;
      assert oks[i..] == oks;
      while i < |paths|
        invariant 0 <= i <= |paths|
        invariant |MediaInfoList| == start + i && MediaInfoList[..start] == old(MediaInfoList)
        invariant ProcessedFrom(oks, cancelAt, i, processed)
        invariant forall j :: start <= j < |MediaInfoList| ==> fresh(MediaInfoList[j])
        invariant AddedFor(MediaInfoList, start, paths)
      {
        ProcessedStep(oks, cancelAt, i, processed);
        if cancelAt - i <= 0 {
          cancel := true;
          break;
        }
        var info, ok := NewMediaContent(paths, facts, i);
        if !ok {
          cancel := false;
          break;
        }
        assert AddedFor(MediaInfoList, start, paths);
        AddedForAppend(MediaInfoList, start, paths, info);
        assert (MediaInfoList + [info])[..start] == MediaInfoList[..start];
        MediaInfoList := MediaInfoList + [info];
        i := i + 1;
      }
      if i == |paths| {
        ProcessedEnd(oks, cancelAt, processed);
        cancel := false;
      }
    }

    /** One pass of the second loop, for the candidate at position `i`: its
        `MediaContentInfo`, and whether its thumbnail was created. */
    static method NewMediaContent(paths: seq<string>, facts: string -> FileFacts, i: int) returns (info: MediaContentInfo, ok: bool)
      requires 0 <= i < |paths|
      ensures fresh(info) && info.FilePath == Some(paths[i])
      ensures ok == ThumbnailOutcomes(paths, facts)[i]
      ensures ok ==> info.ThumbnailImage.Some?
    {
      var f := facts(paths[i]);
      info := new MediaContentInfo();
      info.FilePath := Some(paths[i]);
      var thumbnail := info.CreateThumbnailImage(f.fileExists, f.frame, f.shellThumbnail);
      ok := thumbnail.Success?;
      ThumbnailOutcomeAt(paths, facts, i);
    }

    /** `LoadContentsWorker_DoWork`: every exception of the worker is caught
        and logged, so the worker ends either cancelled or completed. */
    method LoadContentsWorker_DoWork(getFiles: (string, string) -> Result<seq<string>>, facts: string -> FileFacts, cancelAt: nat)
      returns (outcome: Outcome)
      requires Worker != Idle
      modifies this`MediaInfoList
      ensures outcome != Errored
      ensures outcome == Cancelled <==>
                var listing := ListCandidates(SelectedPicturePath, SupportPictureExtensions + SupportMovieExtensions, getFiles, cancelAt);
                if listing.ListingStopped? then listing.cancel
                else ProcessFiles(ThumbnailOutcomes(listing.paths, facts), cancelAt - |SupportPictureExtensions + SupportMovieExtensions|).1
    {
      var cancel := LoadPictureContentsWorker(getFiles, facts, cancelAt);
      outcome := if cancel then Cancelled else Completed;
    }

    /** `LoadPictureContentsWorker_Completed`, called once the worker is no
        longer busy: an error returns at once; otherwise an owed reload is
        paid by exactly one new load of the selected folder. */
    method LoadPictureContentsWorker_Completed(outcome: Outcome, dirExists: string -> bool)
      requires Worker != Idle
      modifies this`SelectedPicturePath, this`PreviousFilePath, this`MediaInfoList, this`Worker, this`Loads, this`LoadPictureContentsBackgroundWorker_Reload
      ensures outcome == Errored || !old(LoadPictureContentsBackgroundWorker_Reload) ==>
                && Worker == Idle && LoadPictureContentsBackgroundWorker_Reload == old(LoadPictureContentsBackgroundWorker_Reload)
                && SelectedPicturePath == old(SelectedPicturePath) && PreviousFilePath == old(PreviousFilePath)
                && MediaInfoList == old(MediaInfoList) && Loads == old(Loads)
      ensures outcome != Errored && old(LoadPictureContentsBackgroundWorker_Reload) ==>
                && !LoadPictureContentsBackgroundWorker_Reload
                && (dirExists(old(SelectedPicturePath)) ==>
                      && Worker == Busy && Loads == old(Loads) + [old(SelectedPicturePath)] && MediaInfoList == []
                      && SelectedPicturePath == old(SelectedPicturePath) && PreviousFilePath == old(PreviousFilePath))
                && (!dirExists(old(SelectedPicturePath)) ==>
                      && Worker == Idle && Loads == old(Loads) && MediaInfoList == old(MediaInfoList)
                      && SelectedPicturePath == old(PreviousFilePath) && PreviousFilePath == "")
    {
      Worker := Idle;
      if outcome == Errored {
        return;
      }
      if LoadPictureContentsBackgroundWorker_Reload {
        LoadPictureContentsBackgroundWorker_Reload := false;
        LoadPictureContentsList(dirExists);
      }
    }

    /** `StopThreadAndTask`: true when no worker is busy; a busy one is asked
        to cancel. */
    method StopThreadAndTask() returns (isStop: bool)
      modifies this`Worker
      ensures isStop <==> old(Worker) == Idle
      ensures Worker == (if old(Worker) == Idle then Idle else CancelRequested)
    {
      isStop := true;
      if Worker != Idle {
        isStop := false;
        Worker := CancelRequested;
      }
    }

    /** `UpdateContextMenuFromExtraAppSetting`: the default entry, then one
        entry and one dictionary pair per setting, in order. An icon that
        cannot be extracted (`iconExists` is false for its path) or a Name
        added twice throws, leaving what was built before it. */
    method UpdateContextMenuFromExtraAppSetting(settings: seq<ExtraAppSetting>, iconExists: string -> bool) returns (error: Option<Error>)
      modifies this`ContextMenuCollection, this`ExtraAppPathDictionary
      ensures var failure := MenuFailure(settings, iconExists, {});
              && error == failure.1
              && ContextMenuCollection == MenuOf(settings[..failure.0])
              && ExtraAppPathDictionary == PathDictionary(settings[..failure.0])
    {
      ExtraAppPathDictionary := map[];
      ContextMenuCollection := [DeleteMediaName];
      var i := 0;
      assert settings[0..] == settings && settings[..0] == [];
      assert ExtraAppPathDictionary.Keys == {};
      while i < |settings|
        invariant 0 <= i <= |settings|
        invariant ContextMenuCollection == MenuOf(settings[..i])
        invariant ExtraAppPathDictionary == PathDictionary(settings[..i])
        invariant MenuFailureFrom(settings, iconExists, ExtraAppPathDictionary.Keys, i)
      {
        var setting := settings[i];
        ghost var seen := ExtraAppPathDictionary.Keys;
        MenuStep(settings, iconExists, seen, i);
        if !iconExists(setting.Path) || setting.Name in ExtraAppPathDictionary {
          MenuFailureAt(settings, iconExists, seen, i);
          return if !iconExists(setting.Path) then Some(FileNotFound) else Some(DuplicateKey);
        }
        MenuFailureNext(settings, iconExists, seen, i);
        ExtraAppPathDictionary := ExtraAppPathDictionary[setting.Name := setting.Path];
        assert ExtraAppPathDictionary.Keys == seen + {setting.Name};
        ContextMenuCollection := ContextMenuCollection + [setting.Name + OpenWithSuffix];
        i := i + 1;
      }
      assert settings[..|settings|] == settings;
      assert settings[|settings|..] == [];
      error := None;
    }

    /** `ExecuteContextMenu` for the clicked entry's header; `selected` is the
        selected media's path, `None` when nothing is selected. */
    method ExecuteContextMenu(header: string, selected: Option<string>) returns (action: MenuAction)
      ensures action == MenuActionFor(header, ContextMenuCollection, ExtraAppPathDictionary, selected)
    {
      var i := 0;
      while i < |ContextMenuCollection|
        invariant 0 <= i <= |ContextMenuCollection|
        invariant i > 0 ==> header != DeleteMediaName
        invariant MenuActionFor(header, ContextMenuCollection, ExtraAppPathDictionary, selected)
                  == MenuActionFor(header, ContextMenuCollection[i..], ExtraAppPathDictionary, selected)
      {
        assert ContextMenuCollection[i..][1..] == ContextMenuCollection[i + 1..];
        if header == DeleteMediaName {
          return DeleteMedia;
        }
        if header == ContextMenuCollection[i] {
          var appName := RemoveAll(header, OpenWithSuffix);
          if appName in ExtraAppPathDictionary && selected.Some? {
            return Launch(ExtraAppPathDictionary[appName], selected.value);
          }
        }
        i := i + 1;
      }
      action := NoAction;
    }

    /** The merge loop of `UpdateLinkageContents`. */
    method MergeLinkageContents(add: seq<ExtraAppSetting>) returns (error: Option<Error>)
      modifies this`ExtraAppSettingCollection
      ensures (ExtraAppSettingCollection, error) == MergeAll(old(ExtraAppSettingCollection), add)
    {
      var i := 0;
      while i < |add|
        invariant 0 <= i <= |add|
        invariant MergeAll(old(ExtraAppSettingCollection), add) == MergeAll(ExtraAppSettingCollection, add[i..])
      {
        assert add[i..][1..] == add[i + 1..];
        var merged := MergeSetting(ExtraAppSettingCollection, add[i]);
        if merged.Failure? {
          return Some(merged.error);
        }
        ExtraAppSettingCollection := merged.value;
        i := i + 1;
      }
      error := None;
    }

    /** `UpdateLinkageContents`, the `LinkageEvent` handler: into an empty
        table the queued settings go sorted by Id; otherwise they are merged
        one by one. The menu is then rebuilt and the table exported; an
        exception skips what follows it. */
    method UpdateLinkageContents(add: seq<ExtraAppSetting>, appData: string, fs: FileSystem, iconExists: string -> bool, faults: WriteFaults)
      returns (error: Option<Error>)
      modifies this`ExtraAppSettingCollection, this`ContextMenuCollection, this`ExtraAppPathDictionary, fs
      ensures old(ExtraAppSettingCollection) == [] ==> ExtraAppSettingCollection == SortById(add)
      ensures old(ExtraAppSettingCollection) != [] ==> ExtraAppSettingCollection == MergeAll(old(ExtraAppSettingCollection), add).0
      ensures old(ExtraAppSettingCollection) != [] && MergeAll(old(ExtraAppSettingCollection), add).1.Some? ==>
                && error == MergeAll(old(ExtraAppSettingCollection), add).1
                && ContextMenuCollection == old(ContextMenuCollection) && ExtraAppPathDictionary == old(ExtraAppPathDictionary)
                && fs.Documents == old(fs.Documents) && fs.Directories == old(fs.Directories)
      ensures old(ExtraAppSettingCollection) == [] || MergeAll(old(ExtraAppSettingCollection), add).1.None? ==>
                RebuiltAndExported(this, appData, iconExists, faults, old(fs.Directories), old(fs.Documents), fs, error)
      ensures error.None? ==>
                && ContextMenuCollection == MenuOf(ExtraAppSettingCollection)
                && ExtraAppPathDictionary == PathDictionary(ExtraAppSettingCollection)
                && fs.Documents == old(fs.Documents)[appData + AppPath + AppConfPath := ExtraAppXml(ExtraAppSettingCollection)]
                && fs.Directories == old(fs.Directories) + {appData + AppPath}
      ensures error.Some? ==> fs.Documents == old(fs.Documents)
    {
      if |ExtraAppSettingCollection| == 0 {
        var ordered: seq<ExtraAppSetting> := [];
        for i := 0 to |add|
          invariant ordered == add[..i]
        {
          ordered := ordered + [add[i]];
        }
        assert ordered == add;
        ExtraAppSettingCollection := SortById(ordered);
      } else {
        error := MergeLinkageContents(add);
        if error.Some? {
          return;
        }
      }
      error := RebuildAndExport(appData, fs, iconExists, faults);
    }

    /** The tail the three linkage handlers share: rebuild the menu, then
        export the table unless that threw. */
    method RebuildAndExport(appData: string, fs: FileSystem, iconExists: string -> bool, faults: WriteFaults) returns (error: Option<Error>)
      modifies this`ContextMenuCollection, this`ExtraAppPathDictionary, fs
      ensures RebuiltAndExported(this, appData, iconExists, faults, old(fs.Directories), old(fs.Documents), fs, error)
      ensures error.None? ==>
                && ContextMenuCollection == MenuOf(ExtraAppSettingCollection)
                && ExtraAppPathDictionary == PathDictionary(ExtraAppSettingCollection)
                && fs.Documents == old(fs.Documents)[appData + AppPath + AppConfPath := ExtraAppXml(ExtraAppSettingCollection)]
                && fs.Directories == old(fs.Directories) + {appData + AppPath}
      ensures error.Some? ==> fs.Documents == old(fs.Documents)
    {
      error := UpdateContextMenuFromExtraAppSetting(ExtraAppSettingCollection, iconExists);
      if error.Some? {
        return;
      }
      assert ExtraAppSettingCollection[..|ExtraAppSettingCollection|] == ExtraAppSettingCollection;
      error := Export(appData, fs, ExtraAppSettingCollection, faults);
    }

    /** `DeleteLinkageContents`, the `DeleteAppEvent` handler: the removal
        loop as written, then the menu and the file. */
    method DeleteLinkageContents(deleteId: int, appData: string, fs: FileSystem, iconExists: string -> bool, faults: WriteFaults)
      returns (error: Option<Error>)
      modifies this`ExtraAppSettingCollection, this`ContextMenuCollection, this`ExtraAppPathDictionary, fs
      ensures ExtraAppSettingCollection == RemoveSkipping(old(ExtraAppSettingCollection), deleteId)
      ensures RebuiltAndExported(this, appData, iconExists, faults, old(fs.Directories), old(fs.Documents), fs, error)
      ensures error.None? ==>
                && ContextMenuCollection == MenuOf(ExtraAppSettingCollection)
                && ExtraAppPathDictionary == PathDictionary(ExtraAppSettingCollection)
                && fs.Documents == old(fs.Documents)[appData + AppPath + AppConfPath := ExtraAppXml(ExtraAppSettingCollection)]
                && fs.Directories == old(fs.Directories) + {appData + AppPath}
      ensures error.Some? ==> fs.Documents == old(fs.Documents)
    {
      RemoveLinkage(deleteId);
      error := RebuildAndExport(appData, fs, iconExists, faults);
    }

    /** The removal loop of `DeleteLinkageContents`: `RemoveAt(i)` on a match,
        and the index advances either way. */
    method RemoveLinkage(deleteId: int)
      modifies this`ExtraAppSettingCollection
      ensures ExtraAppSettingCollection == RemoveSkipping(old(ExtraAppSettingCollection), deleteId)
    {
      ghost var removed := RemoveSkipping(ExtraAppSettingCollection, deleteId);
      var i := 0;
      while i < |ExtraAppSettingCollection|
        invariant 0 <= i <= |ExtraAppSettingCollection| + 1
        invariant RemovalState(ExtraAppSettingCollection, i, deleteId, removed)
        decreases |ExtraAppSettingCollection| - i + 1
      {
        var s := ExtraAppSettingCollection;
        if s[i].Id == deleteId {
          RemovalStepRemove(s, i, deleteId, removed);
          ExtraAppSettingCollection := s[..i] + s[i + 1..];
        } else {
          RemovalStepKeep(s, i, deleteId, removed);
        }
        i := i + 1;
      }
      if i == |ExtraAppSettingCollection| {
        assert ExtraAppSettingCollection[i..] == [];
        assert ExtraAppSettingCollection[..i] == ExtraAppSettingCollection;
      }
    }

    /** `AllDeleteLinkageContents`, the `AllDeleteEvent` handler: the table,
        the dictionary and the whole menu, the default entry included, are
        emptied, and the empty table is exported. */
    method AllDeleteLinkageContents(appData: string, fs: FileSystem, faults: WriteFaults) returns (error: Option<Error>)
      modifies this`ExtraAppSettingCollection, this`ContextMenuCollection, this`ExtraAppPathDictionary, fs
      ensures ExtraAppSettingCollection == [] && ExtraAppPathDictionary == map[] && ContextMenuCollection == []
      ensures ExportedAs(appData, [], faults, old(fs.Directories), old(fs.Documents), fs.Directories, fs.Documents, error)
      ensures error.None? ==>
                && fs.Documents == old(fs.Documents)[appData + AppPath + AppConfPath := ExtraAppXml([])]
                && fs.Directories == old(fs.Directories) + {appData + AppPath}
      ensures error.Some? ==> fs.Documents == old(fs.Documents)
    {
      ExtraAppSettingCollection := [];
      ExtraAppPathDictionary := map[];
      ContextMenuCollection := [];
      error := Export(appData, fs, ExtraAppSettingCollection, faults);
    }
  }

  /** What rebuilding the menu and then exporting leaves behind, given the
      folders and documents before: the menu and the dictionary hold the
      settings before the first one that fails to load; such a failure is
      the error and leaves the disk alone; otherwise the table is exported
      as `ExportedAs` says. */
  ghost predicate RebuiltAndExported(viewModel: MainWindowViewModel, appData: string, iconExists: string -> bool, faults: WriteFaults,
                                     directories: set<string>, documents: map<string, XDocument>, fs: FileSystem, error: Option<Error>)
    reads viewModel, fs
  {
    var table := viewModel.ExtraAppSettingCollection;
    var failure := MenuFailure(table, iconExists, {});
    && viewModel.ContextMenuCollection == MenuOf(table[..failure.0])
    && viewModel.ExtraAppPathDictionary == PathDictionary(table[..failure.0])
    && (failure.1.Some? ==> error == failure.1 && fs.Directories == directories && fs.Documents == documents)
    && (failure.1.None? ==> ExportedAs(appData, table, faults, directories, documents, fs.Directories, fs.Documents, error))
  }

  /** `new MainWindowViewModel()`: the empty fields, then `Import` into the
      empty table (its `IOException` escapes the constructor, also when the
      file does not exist), then `StartWithTable`. The event wiring and the
      explorer tree are not part of this model. */
  method NewMainWindowViewModel(appData: string, fs: FileSystem, iconExists: string -> bool, commonPictures: string, dirExists: string -> bool)
    returns (r: Result<MainWindowViewModel>)
    ensures appData + ImportAppPath !in fs.Documents ==> r == Failure(IOError)
    ensures r.Success? ==>
              && fresh(r.value)
              && appData + ImportAppPath in fs.Documents
              && var parsed := LeadingSettings(ParsedElements(Elements(fs.Documents[appData + ImportAppPath].root)));
              && parsed.1.None? && MenuFailure(parsed.0, iconExists, {}).1.None?
              && r.value.ExtraAppSettingCollection == parsed.0
    ensures r.Success? ==> StartedWith(r.value, r.value.ExtraAppSettingCollection, commonPictures, dirExists)
    ensures r.Failure? && appData + ImportAppPath in fs.Documents ==>
              var parsed := LeadingSettings(ParsedElements(Elements(fs.Documents[appData + ImportAppPath].root)));
              || (parsed.1.Some? && r.error == IOError)
              || (parsed.1.None? && MenuFailure(parsed.0, iconExists, {}).1 == Some(r.error))
  {
    var imported, importError := Import(appData, fs, []);
    if importError.Some? {
      return Failure(IOError);
    }
    ghost var parsed := LeadingSettings(ParsedElements(Elements(fs.Documents[appData + ImportAppPath].root)));
    assert [] + parsed.0 == parsed.0;
    r := StartWithTable(imported, iconExists, commonPictures, dirExists);
  }

  /** The state the constructor leaves behind when it returns: the menu and
      the dictionary built from the whole table, and the first load of
      `commonPictures` started when that folder exists. */
  ghost predicate StartedWith(viewModel: MainWindowViewModel, table: seq<ExtraAppSetting>, commonPictures: string, dirExists: string -> bool)
    reads viewModel
  {
    && viewModel.ExtraAppSettingCollection == table
    && viewModel.ContextMenuCollection == MenuOf(table)
    && viewModel.ExtraAppPathDictionary == PathDictionary(table)
    && !viewModel.LoadPictureContentsBackgroundWorker_Reload && viewModel.PreviousFilePath == ""
    && viewModel.MediaInfoList == []
    && (if commonPictures != "" && dirExists(commonPictures)
        then viewModel.SelectedPicturePath == commonPictures && viewModel.Worker == Busy && viewModel.Loads == [commonPictures]
        else viewModel.SelectedPicturePath == "" && viewModel.Worker == Idle && viewModel.Loads == [])
  }

  /** The constructor after `Import`: the menu built from the table (an
      exception from it escapes the constructor), then
      `ChangePictureContentsList(commonPictures)`. */
  method StartWithTable(table: seq<ExtraAppSetting>, iconExists: string -> bool, commonPictures: string, dirExists: string -> bool)
    returns (r: Result<MainWindowViewModel>)
    ensures r.Success? <==> MenuFailure(table, iconExists, {}).1.None?
    ensures r.Failure? ==> MenuFailure(table, iconExists, {}).1 == Some(r.error)
    ensures r.Success? ==> fresh(r.value) && StartedWith(r.value, table, commonPictures, dirExists)
  {
    var viewModel := new MainWindowViewModel();
    viewModel.ExtraAppSettingCollection := table;
    var menuError := viewModel.UpdateContextMenuFromExtraAppSetting(table, iconExists);
    if menuError.Some? {
      return Failure(menuError.value);
    }
    assert table[..|table|] == table;
    viewModel.ChangePictureContentsList(commonPictures, dirExists);
    r := Success(viewModel);
  }

  /** After all-delete the menu is empty, so not even the default entry
      does anything until the menu is rebuilt. */
  lemma DeleteMediaGoneAfterAllDelete(dictionary: map<string, string>, selected: Option<string>)
    ensures MenuActionFor(DeleteMediaName, [], dictionary, selected) == NoAction
    ensures MenuActionFor(DeleteMediaName, MenuOf([]), dictionary, selected) == DeleteMedia
  {
  }
}
