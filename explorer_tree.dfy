/** `ExplorerTreeSourceViewModel`: one folder node of the explorer tree.
    A node shows a single placeholder child until it is first expanded; the
    first expansion replaces it by one node per subdirectory, in name order,
    leaving out the ones that cannot be listed and those whose name starts
    with `$`. What `DirectoryInfo.GetDirectories` reports for a path (the
    full names of its subdirectories, or the exception it throws) is the
    input `listDirs`; the name order of `NaturalDirectoryInfoNameComparer`
    is the input `sortByName`. */
module ExplorerTreeSourceViewModel {
  import opened Wrappers
  import opened Text

  /** A child of a node: the empty `TreeViewItem` that only makes the node
      expandable, or a folder node. */
  datatype TreeItem = Placeholder | Node(node: ExplorerTreeSourceViewModel)

  const RecycleIndicator: char := '$'

  /** `IsDirectoryLocked`: a directory is locked when listing its
      subdirectories throws. */
  predicate IsDirectoryLocked(path: string, listDirs: string -> Result<seq<string>>)
  {
    listDirs(path).Failure?
  }

  /** The children `GetTreeViewItem` gives a node for a directory that can be
      listed: one placeholder when it has subdirectories, none otherwise. */
  function PlaceholderFor(path: string, listDirs: string -> Result<seq<string>>): (items: seq<TreeItem>)
    requires listDirs(path).Success?
    ensures |items| <= 1 && forall i :: 0 <= i < |items| ==> items[i] == Placeholder
    ensures |items| == 1 <==> listDirs(path).value != []
  {
    if |listDirs(path).value| > 0 then [Placeholder] else []
  }

  /** A subdirectory that `UpdateDirectoryNode` turns into a node: it can be
      listed and its name does not start with `$`. */
  predicate Shown(path: string, listDirs: string -> Result<seq<string>>)
  {
    !IsDirectoryLocked(path, listDirs) && GetFileName(path) != [] && GetFileName(path)[0] != RecycleIndicator
  }

  /** The loop of `UpdateDirectoryNode` over the sorted subdirectories: the
      full names of the nodes it adds, in order, and the exception that
      stops it (`Substring(0, 1)` of an empty name), after which the nodes
      added before it stay. */
  function KeptDirectories(sorted: seq<string>, listDirs: string -> Result<seq<string>>): (r: (seq<string>, Option<Error>))
    ensures r.1.Some? ==> r.1.value == ArgumentOutOfRange
    ensures |r.0| <= |sorted|
    decreases |sorted|
  {
    if sorted == [] then ([], None)
    else if IsDirectoryLocked(sorted[0], listDirs) then KeptDirectories(sorted[1..], listDirs)
    else
      var name := GetFileName(sorted[0]);
      if name == [] then ([], Some(ArgumentOutOfRange))
      else if name[0] == RecycleIndicator then KeptDirectories(sorted[1..], listDirs)
      else
        var rest := KeptDirectories(sorted[1..], listDirs);
        ([sorted[0]] + rest.0, rest.1)
  }

  /** The loop fails exactly when a directory that can be listed has an
      empty name; otherwise it keeps exactly the shown directories. */
  lemma {:induction false} KeptDirectoriesMembers(sorted: seq<string>, listDirs: string -> Result<seq<string>>)
    ensures KeptDirectories(sorted, listDirs).1.None? <==>
              forall i :: 0 <= i < |sorted| && !IsDirectoryLocked(sorted[i], listDirs) ==> GetFileName(sorted[i]) != []
    ensures KeptDirectories(sorted, listDirs).1.None? ==>
              forall d :: d in KeptDirectories(sorted, listDirs).0 <==> d in sorted && Shown(d, listDirs)
    decreases |sorted|
  {
    if sorted != [] {
      var rest := sorted[1..];
      KeptDirectoriesMembers(rest, listDirs);
      assert forall i :: 0 <= i < |rest| ==> rest[i] == sorted[i + 1];
      assert sorted == [sorted[0]] + rest;
      if !IsDirectoryLocked(sorted[0], listDirs) && GetFileName(sorted[0]) == [] {
        assert !(forall i :: 0 <= i < |sorted| && !IsDirectoryLocked(sorted[i], listDirs) ==> GetFileName(sorted[i]) != []);
      } else if KeptDirectories(sorted, listDirs).1.Some? {
        var i :| 0 <= i < |rest| && !IsDirectoryLocked(rest[i], listDirs) && GetFileName(rest[i]) == [];
        assert sorted[i + 1] == rest[i];
      }
    }
  }

  /** The kept directories keep the sorted order: the loop over two runs of
      directories keeps, from each, what it keeps of that run alone. */
  lemma {:induction false} KeptDirectoriesAppend(a: seq<string>, b: seq<string>, listDirs: string -> Result<seq<string>>)
    requires KeptDirectories(a, listDirs).1.None?
    ensures KeptDirectories(a + b, listDirs) ==
              (KeptDirectories(a, listDirs).0 + KeptDirectories(b, listDirs).0, KeptDirectories(b, listDirs).1)
    decreases |a|
  {
    if a == [] {
      assert a + b == b;
      assert KeptDirectories(a, listDirs).0 + KeptDirectories(b, listDirs).0 == KeptDirectories(b, listDirs).0;
    } else {
      var ab, d := a + b, a[0];
      assert ab[0] == d && ab[1..] == a[1..] + b;
      var restAB, restA := KeptDirectories(ab[1..], listDirs), KeptDirectories(a[1..], listDirs);
      if IsDirectoryLocked(d, listDirs) {
        KeptDirectoriesAppend(a[1..], b, listDirs);
      } else {
        var name := GetFileName(d);
        if name != [] {
          KeptDirectoriesAppend(a[1..], b, listDirs);
          if name[0] != RecycleIndicator {
            assert KeptDirectories(ab, listDirs) == ([d] + restAB.0, restAB.1);
            assert KeptDirectories(a, listDirs).0 == [d] + restA.0;
            assert [d] + (restA.0 + KeptDirectories(b, listDirs).0) == ([d] + restA.0) + KeptDirectories(b, listDirs).0;
          }
        }
      }
    }
  }

  /** One pass of the loop, for the directory at position `k`. */
  lemma KeptDirectoriesAt(sorted: seq<string>, listDirs: string -> Result<seq<string>>, k: int)
    requires 0 <= k < |sorted|
    ensures var d := sorted[k];
            var next := KeptDirectories(sorted[k + 1..], listDirs);
            KeptDirectories(sorted[k..], listDirs) ==
              if IsDirectoryLocked(d, listDirs) then next
              else if GetFileName(d) == [] then ([], Some(ArgumentOutOfRange))
              else if GetFileName(d)[0] == RecycleIndicator then next
              else ([d] + next.0, next.1)
  {
    assert sorted[k..][0] == sorted[k] && sorted[k..][1..] == sorted[k + 1..];
  }

  /** Loop state of `UpdateDirectoryNode` after the first `k` directories:
      what the whole loop keeps is what was added so far followed by what
      the rest of the run keeps. */
  predicate KeptFrom(sorted: seq<string>, k: int, listDirs: string -> Result<seq<string>>, added: seq<string>, kept: (seq<string>, Option<Error>))
    requires 0 <= k <= |sorted|
  {
    var rest := KeptDirectories(sorted[k..], listDirs);
    kept == (added + rest.0, rest.1)
  }

  /** A directory that is skipped leaves the nodes as they are. */
  lemma KeptStepSkip(sorted: seq<string>, k: int, listDirs: string -> Result<seq<string>>, added: seq<string>, kept: (seq<string>, Option<Error>))
    requires 0 <= k < |sorted| && KeptFrom(sorted, k, listDirs, added, kept)
    requires IsDirectoryLocked(sorted[k], listDirs) ||
             (GetFileName(sorted[k]) != [] && GetFileName(sorted[k])[0] == RecycleIndicator)
    ensures KeptFrom(sorted, k + 1, listDirs, added, kept)
  {
    KeptDirectoriesAt(sorted, listDirs, k);
  }

  /** A shown directory becomes the next node. */
  lemma KeptStepAdd(sorted: seq<string>, k: int, listDirs: string -> Result<seq<string>>, added: seq<string>, kept: (seq<string>, Option<Error>))
    requires 0 <= k < |sorted| && KeptFrom(sorted, k, listDirs, added, kept)
    requires Shown(sorted[k], listDirs)
    ensures KeptFrom(sorted, k + 1, listDirs, added + [sorted[k]], kept)
  {
    KeptDirectoriesAt(sorted, listDirs, k);
    var next := KeptDirectories(sorted[k + 1..], listDirs).0;
    assert added + ([sorted[k]] + next) == (added + [sorted[k]]) + next;
  }

  /** A directory with an empty name ends the loop with what was added. */
  lemma KeptStepFail(sorted: seq<string>, k: int, listDirs: string -> Result<seq<string>>, added: seq<string>, kept: (seq<string>, Option<Error>))
    requires 0 <= k < |sorted| && KeptFrom(sorted, k, listDirs, added, kept)
    requires !IsDirectoryLocked(sorted[k], listDirs) && GetFileName(sorted[k]) == []
    ensures kept == (added, Some(ArgumentOutOfRange))
  {
    KeptDirectoriesAt(sorted, listDirs, k);
    assert added + [] == added;
  }

  /** At the end of the run, the nodes added are all that is kept. */
  lemma KeptEnd(sorted: seq<string>, listDirs: string -> Result<seq<string>>, added: seq<string>, kept: (seq<string>, Option<Error>))
    requires KeptFrom(sorted, |sorted|, listDirs, added, kept)
    ensures kept == (added, None)
  {
    assert sorted[|sorted|..] == [];
    assert added + [] == added;
  }

  /** The folder nodes among `items`. */
  function NodesOf(items: seq<TreeItem>): set<ExplorerTreeSourceViewModel>
  {
    set i | 0 <= i < |items| && items[i].Node? :: items[i].node
  }

  /** `items` are new, unexpanded, unselected nodes for the directories
      `dirs`, in order, each with the placeholder its own listing calls for. */
  predicate BuiltNodes(items: seq<TreeItem>, dirs: seq<string>, listDirs: string -> Result<seq<string>>)
    reads NodesOf(items)
  {
    && |items| == |dirs|
    && forall i :: 0 <= i < |items| ==>
         && items[i].Node?
         && items[i].node.DirectoryPath == dirs[i] && !items[i].node.IsDrive
         && !items[i].node.Expanded && items[i].node.SelectionItem == null
         && !IsDirectoryLocked(dirs[i], listDirs)
         && items[i].node.Items == PlaceholderFor(dirs[i], listDirs)
  }

  lemma BuiltNodesAppend(items: seq<TreeItem>, dirs: seq<string>, listDirs: string -> Result<seq<string>>,
                         node: ExplorerTreeSourceViewModel, directory: string)
    requires BuiltNodes(items, dirs, listDirs)
    requires node.DirectoryPath == directory && !node.IsDrive && !node.Expanded && node.SelectionItem == null
    requires !IsDirectoryLocked(directory, listDirs) && node.Items == PlaceholderFor(directory, listDirs)
    ensures BuiltNodes(items + [Node(node)], dirs + [directory], listDirs)
  {
    var longer, more := items + [Node(node)], dirs + [directory];
    forall i | 0 <= i < |longer|
      ensures longer[i].Node? && longer[i].node.DirectoryPath == more[i]
    {
      if i < |items| {
        assert longer[i] == items[i] && more[i] == dirs[i];
      }
    }
  }

  class ExplorerTreeSourceViewModel {
    /** `_Directory.FullName`. */
    const DirectoryPath: string
    const IsDrive: bool
    /** `_Expanded`: set by the first expansion. */
    var Expanded: bool
    var Items: seq<TreeItem>
    var SelectionItem: ExplorerTreeSourceViewModel?

    /** The constructor with `GetTreeViewItem`, for a directory that can be
        listed: a placeholder child when it has subdirectories. */
    constructor (path: string, isDrive: bool, listDirs: string -> Result<seq<string>>)
      requires listDirs(path).Success?
      ensures DirectoryPath == path && IsDrive == isDrive
      ensures !Expanded && SelectionItem == null
      ensures Items == PlaceholderFor(path, listDirs)
    {
      DirectoryPath := path;
      IsDrive := isDrive;
      Expanded := false;
      SelectionItem := null;
      var subdirectories := listDirs(path).value;
      Items := if |subdirectories| > 0 then [Placeholder] else [];
    }

    /** `UpdateDirectoryNode`: the children are rebuilt from scratch, one new
        node per subdirectory the loop keeps, in sorted order. A directory
        that can no longer be listed throws before anything changes. */
    method UpdateDirectoryNode(listDirs: string -> Result<seq<string>>, sortByName: seq<string> -> seq<string>)
      returns (error: Option<Error>)
      modifies this`Items
      ensures listDirs(DirectoryPath).Failure? ==> error == Some(listDirs(DirectoryPath).error) && Items == old(Items)
      ensures listDirs(DirectoryPath).Success? ==>
                var kept := KeptDirectories(sortByName(listDirs(DirectoryPath).value), listDirs);
                && error == kept.1
                && BuiltNodes(Items, kept.0, listDirs)
                && forall i :: 0 <= i < |Items| && Items[i].Node? ==> fresh(Items[i].node)
    {
      var listing := listDirs(DirectoryPath);
      if listing.Failure? {
        return Some(listing.error);
      }
      var sorted := sortByName(listing.value);
      var items;
      items, error := BuildChildren(sorted, listDirs);
      assert this !in NodesOf(items);
      Items := items;
    }

    /** The loop of `UpdateDirectoryNode` over the sorted subdirectories: a
        new node for each one kept, up to the exception that ends it. */
    static method BuildChildren(sorted: seq<string>, listDirs: string -> Result<seq<string>>)
      returns (items: seq<TreeItem>, error: Option<Error>)
      ensures var kept := KeptDirectories(sorted, listDirs);
              && error == kept.1
              && BuiltNodes(items, kept.0, listDirs)
              && forall i :: 0 <= i < |items| && items[i].Node? ==> fresh(items[i].node)
    {
      ghost var kept := KeptDirectories(sorted, listDirs);
      ghost var added: seq<string> := [];
      items := [];
      error := None;
      var k := 0;
      assert sorted[k..] == sorted;
      assert added + KeptDirectories(sorted[k..], listDirs).0 == kept.0;
      while k < |sorted|
        invariant 0 <= k <= |sorted|
        invariant KeptFrom(sorted, k, listDirs, added, kept)
        invariant BuiltNodes(items, added, listDirs)
        invariant forall i :: 0 <= i < |items| && items[i].Node? ==> fresh(items[i].node)
      {
        var directory := sorted[k];
        if !IsDirectoryLocked(directory, listDirs) {
          var fileName := GetFileName(directory);
          if |fileName| == 0 {
            KeptStepFail(sorted, k, listDirs, added, kept);
            error := Some(ArgumentOutOfRange);
            break;
          }
          if fileName[0] != RecycleIndicator {
            var node := new ExplorerTreeSourceViewModel(directory, false, listDirs);
            KeptStepAdd(sorted, k, listDirs, added, kept);
            BuiltNodesAppend(items, added, listDirs, node, directory);
            items := items + [Node(node)];
            added := added + [directory];
          } else {
            KeptStepSkip(sorted, k, listDirs, added, kept);
          }
        } else {
          KeptStepSkip(sorted, k, listDirs, added, kept);
        }
        k := k + 1;
      }
      if error.None? {
        KeptEnd(sorted, listDirs, added, kept);
      }
    }

    /** `ExplorerTreeSource_Expanded`: only the first expansion rebuilds the
        children; later ones leave them as they are. An expansion that
        throws leaves the latch open. */
    method ExplorerTreeSource_Expanded(listDirs: string -> Result<seq<string>>, sortByName: seq<string> -> seq<string>)
      returns (error: Option<Error>)
      modifies this`Items, this`Expanded
      ensures old(Expanded) ==> Expanded && Items == old(Items) && error.None?
      ensures !old(Expanded) ==> (Expanded <==> error.None?)
      ensures !old(Expanded) && listDirs(DirectoryPath).Failure? ==> Items == old(Items)
      ensures !old(Expanded) && listDirs(DirectoryPath).Success? ==>
                var kept := KeptDirectories(sortByName(listDirs(DirectoryPath).value), listDirs);
                && error == kept.1
                && |Items| == |kept.0|
                && forall i :: 0 <= i < |Items| ==>
                     && Items[i].Node? && fresh(Items[i].node)
                     && Items[i].node.DirectoryPath == kept.0[i]
                     && !IsDirectoryLocked(kept.0[i], listDirs)
                     && Items[i].node.Items == PlaceholderFor(kept.0[i], listDirs)
    {
      if !Expanded {
        error := UpdateDirectoryNode(listDirs, sortByName);
        if error.Some? {
          return;
        }
      }
      Expanded := true;
      error := None;
    }

    /** `FileWatcher_Changed`: any change in the folder rebuilds the
        children, whether or not the node was expanded. */
    method FileWatcher_Changed(listDirs: string -> Result<seq<string>>, sortByName: seq<string> -> seq<string>)
      returns (error: Option<Error>)
      modifies this`Items
      ensures listDirs(DirectoryPath).Failure? ==> error.Some? && Items == old(Items)
      ensures listDirs(DirectoryPath).Success? ==>
                var kept := KeptDirectories(sortByName(listDirs(DirectoryPath).value), listDirs);
                && error == kept.1
                && |Items| == |kept.0|
                && forall i :: 0 <= i < |Items| ==> Items[i].Node? && Items[i].node.DirectoryPath == kept.0[i]
    {
      error := UpdateDirectoryNode(listDirs, sortByName);
    }

    /** `ExplorerTreeSource_Selected`: the selection is this node when it is
        selected itself, otherwise the node the event came from; the
        `ExplorerEvent` carries the selected node's full path, returned
        here. */
    method ExplorerTreeSource_Selected(isSelected: bool, source: ExplorerTreeSourceViewModel) returns (directoryPath: string)
      modifies this`SelectionItem
      ensures SelectionItem == if isSelected then this else source
      ensures directoryPath == if isSelected then DirectoryPath else source.DirectoryPath
    {
      SelectionItem := if isSelected then this else source;
      directoryPath := SelectionItem.DirectoryPath;
    }
  }

  /** When the name order is a reordering of the listing, the nodes built
      are exactly the subdirectories that can be listed and whose name does
      not start with `$`. */
  lemma RebuiltChildrenAreShownSubdirectories(listing: seq<string>, sorted: seq<string>, listDirs: string -> Result<seq<string>>)
    requires multiset(sorted) == multiset(listing)
    requires KeptDirectories(sorted, listDirs).1.None?
    ensures forall d :: d in KeptDirectories(sorted, listDirs).0 <==> d in listing && Shown(d, listDirs)
  {
    KeptDirectoriesMembers(sorted, listDirs);
    forall d ensures d in sorted <==> d in listing {
      assert d in sorted <==> d in multiset(sorted);
      assert d in listing <==> d in multiset(listing);
    }
  }
}
