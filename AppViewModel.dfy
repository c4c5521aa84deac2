/**
 * The workflow controller (`AppCleanerViewModel`): the scan, review, delete
 * and outcome states, the list of discovered entries with their selection
 * flags, and the aggregates shown to the user before deletion.
 */
module AppViewModel {
  import opened Wrappers
  import opened FileSystem
  import opened Permission
  import opened AppModels

  datatype AppState = Idle | Scanning | Ready | Deleting | Completed | Error(message: string)

  /** The message shown when the dropped item is not an application. */
  const InvalidApplicationMessage: string := "Invalid application file"

  /* ---------------------------------------------------------------------
   * Aggregates (`totalSize`, `selectedCount`, `groupedFiles`)
   * --------------------------------------------------------------------- */

  /** The bytes of every entry, selected or not. */
  function SizeOfAll(files: seq<RelatedFile>): nat
  {
    if files == [] then 0 else files[0].size + SizeOfAll(files[1..])
  }

  /** `totalSize`: the bytes of the selected entries; never more than all entries hold. */
  function TotalSize(files: seq<RelatedFile>): (total: nat)
    ensures total <= SizeOfAll(files)
  {
    if files == [] then 0
    else (if files[0].isSelected then files[0].size else 0) + TotalSize(files[1..])
  }

  /** `selectedCount`: how many entries are selected; never more than there are. */
  function SelectedCount(files: seq<RelatedFile>): (count: nat)
    ensures count <= |files|
    ensures count == 0 ==> TotalSize(files) == 0
  {
    if files == [] then 0
    else (if files[0].isSelected then 1 else 0) + SelectedCount(files[1..])
  }

  /**
   * What is shown before confirming is what is deleted: the batch handed to
   * the trash has one path per selected entry.
   */
  lemma {:induction false} BatchMatchesSelection(files: seq<RelatedFile>)
    ensures |SelectedPaths(files)| == SelectedCount(files)
  {
    if files != [] {
      BatchMatchesSelection(files[1..]);
    }
  }

  /** The list with every selection flag set to `selected`, nothing else changed. */
  function WithSelection(files: seq<RelatedFile>, selected: bool): seq<RelatedFile>
  {
    seq(|files|, i requires 0 <= i < |files| => files[i].(isSelected := selected))
  }

  /** With everything selected, the count is the list's length and the total is every entry's size. */
  lemma {:induction false} AllSelectedTotals(files: seq<RelatedFile>)
    ensures SelectedCount(WithSelection(files, true)) == |files|
    ensures TotalSize(WithSelection(files, true)) == SizeOfAll(files)
  {
    if files != [] {
      assert WithSelection(files, true)[1..] == WithSelection(files[1..], true);
      AllSelectedTotals(files[1..]);
    }
  }

  /** With nothing selected, count and total are both zero. */
  lemma {:induction false} NoneSelectedTotals(files: seq<RelatedFile>)
    ensures SelectedCount(WithSelection(files, false)) == 0
    ensures TotalSize(WithSelection(files, false)) == 0
  {
    if files != [] {
      assert WithSelection(files, false)[1..] == WithSelection(files[1..], false);
      NoneSelectedTotals(files[1..]);
    }
  }

  /** The first position holding the given identity (`firstIndex(where:)`). */
  function FirstIndexOf(files: seq<RelatedFile>, id: nat): (r: Option<nat>)
    ensures r.Some? ==> r.value < |files| && files[r.value].id == id
    ensures r.Some? ==> forall j :: 0 <= j < r.value ==> files[j].id != id
    ensures r.None? ==> forall j :: 0 <= j < |files| ==> files[j].id != id
  {
    if files == [] then None
    else if files[0].id == id then Some(0)
    else match FirstIndexOf(files[1..], id)
      case None => None
      case Some(i) => Some(i + 1)
  }

  /** The list after toggling the first entry with the given identity, if any. */
  function Toggled(files: seq<RelatedFile>, id: nat): (toggled: seq<RelatedFile>)
    ensures |toggled| == |files|
    ensures forall j :: 0 <= j < |files| ==> toggled[j] == files[j].(isSelected := toggled[j].isSelected)
    ensures forall j :: 0 <= j < |files| && toggled[j] != files[j] ==> FirstIndexOf(files, id) == Some(j)
  {
    match FirstIndexOf(files, id)
    case None => files
    case Some(i) => files[i := files[i].(isSelected := !files[i].isSelected)]
  }

  /**
   * With distinct identities, toggling by the identity of the entry at `k`
   * flips exactly that entry, the one the user clicked, and no other.
   */
  lemma ToggleFlipsClickedEntry(files: seq<RelatedFile>, k: nat)
    requires k < |files| && DistinctIds(files)
    ensures Toggled(files, files[k].id)[k] == files[k].(isSelected := !files[k].isSelected)
    ensures forall j :: 0 <= j < |files| && j != k ==> Toggled(files, files[k].id)[j] == files[j]
  {
    assert FirstIndexOf(files, files[k].id) == Some(k);
  }

  /** Toggling the same entry twice gives the list back. */
  lemma ToggleTwice(files: seq<RelatedFile>, id: nat)
    ensures Toggled(Toggled(files, id), id) == files
  {
    match FirstIndexOf(files, id)
    case None =>
    case Some(i) =>
      var once := Toggled(files, id);
      assert forall j :: 0 <= j < |files| ==> once[j].id == files[j].id;
      assert FirstIndexOf(once, id) == Some(i) by {
        FirstIndexOfSameIds(files, once, id);
      }
  }

  /** Where only selection flags differ, the same identity is found at the same place. */
  lemma {:induction false} FirstIndexOfSameIds(a: seq<RelatedFile>, b: seq<RelatedFile>, id: nat)
    requires |a| == |b| && forall j :: 0 <= j < |a| ==> a[j].id == b[j].id
    ensures FirstIndexOf(a, id) == FirstIndexOf(b, id)
  {
    if a != [] {
      FirstIndexOfSameIds(a[1..], b[1..], id);
    }
  }

  /** Setting one entry's flag moves count and total by exactly that entry. */
  lemma {:induction false} FlagChangeTotals(files: seq<RelatedFile>, i: nat, selected: bool)
    requires i < |files|
    ensures var after := files[i := files[i].(isSelected := selected)];
      && TotalSize(after) + (if files[i].isSelected then files[i].size else 0)
         == TotalSize(files) + (if selected then files[i].size else 0)
      && SelectedCount(after) + (if files[i].isSelected then 1 else 0)
         == SelectedCount(files) + (if selected then 1 else 0)
  {
    var after := files[i := files[i].(isSelected := selected)];
    if i > 0 {
      assert after[1..] == files[1..][i - 1 := files[i].(isSelected := selected)];
      FlagChangeTotals(files[1..], i - 1, selected);
    } else {
      assert after[1..] == files[1..];
    }
  }

  /**
   * A toggle moves the count by one and the total by the toggled entry's
   * size, in the direction of its new flag; a toggle that finds nothing
   * changes nothing.
   */
  lemma ToggleTotals(files: seq<RelatedFile>, id: nat)
    ensures FirstIndexOf(files, id).None? ==> Toggled(files, id) == files
    ensures FirstIndexOf(files, id).Some? ==>
      var f := files[FirstIndexOf(files, id).value];
      if f.isSelected then
        TotalSize(Toggled(files, id)) + f.size == TotalSize(files)
        && SelectedCount(Toggled(files, id)) + 1 == SelectedCount(files)
      else
        TotalSize(Toggled(files, id)) == TotalSize(files) + f.size
        && SelectedCount(Toggled(files, id)) == SelectedCount(files) + 1
  {
    match FirstIndexOf(files, id)
    case None =>
    case Some(i) =>
      FlagChangeTotals(files, i, !files[i].isSelected);
  }

  /** The entries of one category, in list order. */
  function OfCategory(files: seq<RelatedFile>, category: FileCategory): (group: seq<RelatedFile>)
    ensures forall f :: f in group ==> f in files && f.category == category
    ensures group == [] <==> forall f :: f in files ==> f.category != category
  {
    if files == [] then []
    else (if files[0].category == category then [files[0]] else []) + OfCategory(files[1..], category)
  }

  /** Grouping keeps list order: the group of two lists is the two groups in turn. */
  lemma {:induction false} OfCategoryAppend(a: seq<RelatedFile>, b: seq<RelatedFile>, category: FileCategory)
    ensures OfCategory(a + b, category) == OfCategory(a, category) + OfCategory(b, category)
  {
    if a == [] {
      assert a + b == b;
    } else {
      assert (a + b)[1..] == a[1..] + b;
      OfCategoryAppend(a[1..], b, category);
      ConcatAssoc(if a[0].category == category then [a[0]] else [], OfCategory(a[1..], category), OfCategory(b, category));
    }
  }

  /** The categories present in a list. */
  function Categories(files: seq<RelatedFile>): set<FileCategory>
  {
    set f | f in files :: f.category
  }

  /**
   * `groupedFiles` (`Dictionary(grouping:by:)`): one key per category present,
   * each holding that category's entries, never an empty group.
   */
  function GroupedFiles(files: seq<RelatedFile>): (groups: map<FileCategory, seq<RelatedFile>>)
    ensures groups.Keys == Categories(files)
    ensures forall c :: c in groups ==> groups[c] != []
    ensures forall c, f :: c in groups && f in groups[c] ==> f in files && f.category == c
  {
    map c | c in Categories(files) :: OfCategory(files, c)
  }

  /** Every category, once. */
  const AllCategories: seq<FileCategory> :=
    [App, Preferences, ApplicationSupport, Caches, Logs, Containers, SavedState, CrashReports, Other]

  lemma EveryCategoryListed(c: FileCategory)
    ensures c in AllCategories
  {
    match c
    case App => assert AllCategories[0] == c;
    case Preferences => assert AllCategories[1] == c;
    case ApplicationSupport => assert AllCategories[2] == c;
    case Caches => assert AllCategories[3] == c;
    case Logs => assert AllCategories[4] == c;
    case Containers => assert AllCategories[5] == c;
    case SavedState => assert AllCategories[6] == c;
    case CrashReports => assert AllCategories[7] == c;
    case Other => assert AllCategories[8] == c;
  }

  /** The groups of the listed categories, put together. */
  function Union(groups: map<FileCategory, seq<RelatedFile>>, categories: seq<FileCategory>): multiset<RelatedFile>
  {
    if categories == [] then multiset{}
    else
      (if categories[0] in groups then multiset(groups[categories[0]]) else multiset{})
      + Union(groups, categories[1..])
  }

  /** The category groups of a list, put together over the listed categories. */
  function Spread(files: seq<RelatedFile>, categories: seq<FileCategory>): multiset<RelatedFile>
  {
    if categories == [] then multiset{}
    else multiset(OfCategory(files, categories[0])) + Spread(files, categories[1..])
  }

  lemma {:induction false} UnionIsSpread(files: seq<RelatedFile>, categories: seq<FileCategory>)
    ensures Union(GroupedFiles(files), categories) == Spread(files, categories)
  {
    if categories != [] {
      UnionIsSpread(files, categories[1..]);
      var c := categories[0];
      if c !in GroupedFiles(files) {
        assert OfCategory(files, c) == [];
      }
    }
  }

  /** An entry whose category is not listed adds nothing to the spread. */
  lemma {:induction false} SpreadSkips(f: RelatedFile, rest: seq<RelatedFile>, categories: seq<FileCategory>)
    requires f.category !in categories
    ensures Spread([f] + rest, categories) == Spread(rest, categories)
  {
    if categories != [] {
      assert ([f] + rest)[1..] == rest;
      SpreadSkips(f, rest, categories[1..]);
    }
  }

  /** An entry whose category is listed exactly once lands in the spread exactly once. */
  lemma {:induction false} SpreadAdds(f: RelatedFile, rest: seq<RelatedFile>, categories: seq<FileCategory>)
    requires f.category in categories
    requires forall i, j :: 0 <= i < j < |categories| ==> categories[i] != categories[j]
    ensures Spread([f] + rest, categories) == Spread(rest, categories) + multiset{f}
  {
    assert ([f] + rest)[1..] == rest;
    if categories[0] == f.category {
      assert f.category !in categories[1..];
      SpreadSkips(f, rest, categories[1..]);
    } else {
      SpreadAdds(f, rest, categories[1..]);
    }
  }

  /**
   * The groups partition the list: put together, they hold every entry
   * exactly as often as the list does.
   */
  lemma {:induction false} GroupsPartition(files: seq<RelatedFile>)
    ensures Union(GroupedFiles(files), AllCategories) == multiset(files)
  {
    UnionIsSpread(files, AllCategories);
    SpreadIsAll(files);
  }

  lemma {:induction false} SpreadIsAll(files: seq<RelatedFile>)
    ensures Spread(files, AllCategories) == multiset(files)
  {
    if files == [] {
      EmptySpread(AllCategories);
    } else {
      var f := files[0];
      assert [f] + files[1..] == files;
      EveryCategoryListed(f.category);
      SpreadAdds(f, files[1..], AllCategories);
      SpreadIsAll(files[1..]);
    }
  }

  lemma {:induction false} EmptySpread(categories: seq<FileCategory>)
    ensures Spread([], categories) == multiset{}
  {
    if categories != [] {
      EmptySpread(categories[1..]);
    }
  }

  /** No two entries share an identity. */
  ghost predicate DistinctIds(files: seq<RelatedFile>)
  {
    forall i, j :: 0 <= i < j < |files| ==> files[i].id != files[j].id
  }

  /**
   * What the controller keeps true of what it shows: identities are
   * distinct; an application is loaded exactly when there are entries; its
   * bundle is the first entry, and no later entry is in the application
   * category.
   */
  ghost predicate Consistent(appInfo: Option<AppInfo>, files: seq<RelatedFile>)
  {
    && DistinctIds(files)
    && (appInfo.None? <==> files == [])
    && (appInfo.Some? ==>
          && files[0].path == appInfo.value.path
          && files[0].size == appInfo.value.size
          && files[0].category == App)
    && (forall i :: 0 < i < |files| ==> files[i].category != App)
  }

  /** A finished scan is always consistent with the application it scanned. */
  lemma ScanIsConsistent(info: AppInfo, disk: Node, home: Path, idBase: nat)
    ensures Consistent(Some(info), RelatedFiles(info, disk, home, idBase))
  {
    RelatedFilesShape(info, disk, home, idBase);
  }

  class AppCleanerViewModel {
    var appInfo: Option<AppInfo>
    var relatedFiles: seq<RelatedFile>
    var state: AppState
    var showConfirmation: bool

    /** The controller's invariant: see `Consistent`. */
    ghost predicate Valid()
      reads this
    {
      Consistent(appInfo, relatedFiles)
    }

    constructor ()
      ensures Valid()
      ensures appInfo == None && relatedFiles == [] && state == Idle && !showConfirmation
    {
      appInfo := None;
      relatedFiles := [];
      state := Idle;
      showConfirmation := false;
    }

    /**
     * `processApp(at:)`, with its task run to completion: enter `Scanning`,
     * then either fail with the invalid-file message (keeping whatever was
     * loaded before) or load the application and its related files and
     * become `Ready`. `visited` lists the states taken, in order.
     */
    method ProcessApp(url: Path, bundle: Option<BundleInfo>, disk: Node, home: Path,
                      pm: PermissionManager, os: Os, idBase: nat)
      returns (ghost visited: seq<AppState>)
      requires Valid()
      requires pm.libraryPath == home + ["Library"]
      modifies this`appInfo, this`relatedFiles, this`state, pm`defaults, pm`scopes
      ensures Valid()
      ensures visited == [Scanning, state] && state != Scanning
      ensures GetAppInfo(url, bundle, disk).None? ==>
                && state == Error(InvalidApplicationMessage)
                && appInfo == old(appInfo) && relatedFiles == old(relatedFiles)
                && pm.State() == old(pm.State())
      ensures GetAppInfo(url, bundle, disk).Some? ==>
                && state == Ready
                && appInfo == GetAppInfo(url, bundle, disk)
                && relatedFiles == RelatedFiles(appInfo.value, disk, home, idBase)
                && pm.State() == ScopedAccess(old(pm.State()), os)
    {
      state := Scanning;
      visited := [state];

      var info := GetAppInfo(url, bundle, disk);
      if info.None? {
        state := Error(InvalidApplicationMessage);
        visited := visited + [state];
        return;
      }

      appInfo := info;
      relatedFiles := FindRelatedFiles(info.value, disk, home, pm, os, idBase);
      ScanIsConsistent(info.value, disk, home, idBase);
      state := Ready;
      visited := visited + [state];
    }

    /**
     * `toggleFile(_:)`: flip the flag of the first entry with the given
     * entry's identity; nothing changes when none has it.
     */
    method ToggleFile(file: RelatedFile)
      requires Valid()
      modifies this`relatedFiles
      ensures Valid()
      ensures relatedFiles == Toggled(old(relatedFiles), file.id)
    {
      var index := FirstIndexOf(relatedFiles, file.id);
      if index.Some? {
        var i := index.value;
        relatedFiles := relatedFiles[i := relatedFiles[i].(isSelected := !relatedFiles[i].isSelected)];
      }
    }

    /** `selectAll()`: set every entry's flag, one index at a time. */
    method SelectAll()
      requires Valid()
      modifies this`relatedFiles
      ensures Valid()
      ensures relatedFiles == WithSelection(old(relatedFiles), true)
    {
      ghost var files := relatedFiles;
      var index := 0;
      while index < |relatedFiles|
        invariant |relatedFiles| == |files| && 0 <= index <= |files|
        invariant forall k :: 0 <= k < index ==> relatedFiles[k] == files[k].(isSelected := true)
        invariant forall k :: index <= k < |files| ==> relatedFiles[k] == files[k]
      {
        relatedFiles := relatedFiles[index := relatedFiles[index].(isSelected := true)];
        index := index + 1;
      }
    }

    /** `deselectAll()`: clear every entry's flag, one index at a time. */
    method DeselectAll()
      requires Valid()
      modifies this`relatedFiles
      ensures Valid()
      ensures relatedFiles == WithSelection(old(relatedFiles), false)
    {
      ghost var files := relatedFiles;
      var index := 0;
      while index < |relatedFiles|
        invariant |relatedFiles| == |files| && 0 <= index <= |files|
        invariant forall k :: 0 <= k < index ==> relatedFiles[k] == files[k].(isSelected := false)
        invariant forall k :: index <= k < |files| ==> relatedFiles[k] == files[k]
      {
        relatedFiles := relatedFiles[index := relatedFiles[index].(isSelected := false)];
        index := index + 1;
      }
    }

    /** `deleteSelected()`: only asks for confirmation. */
    method DeleteSelected()
      requires Valid()
      modifies this`showConfirmation
      ensures Valid()
      ensures showConfirmation
    {
      showConfirmation := true;
    }

    /**
     * `confirmDelete()`, with the trash's answer delivered: enter `Deleting`,
     * hand the selected entries to the removal engine, and end `Completed`
     * on success or `Error` with the trash's message. `visited` lists the
     * states taken, in order.
     */
    method ConfirmDelete(pm: PermissionManager, os: Os, recycle: seq<Path> -> Option<string>)
      returns (ghost visited: seq<AppState>)
      requires Valid()
      modifies this`state, pm`defaults, pm`scopes
      ensures Valid()
      ensures visited == [Deleting, state] && state != Deleting
      ensures var batch := SelectedPaths(relatedFiles);
        && (batch == [] || recycle(batch).None? ==> state == Completed)
        && (batch != [] && recycle(batch).Some? ==> state == Error(recycle(batch).value))
      ensures pm.State() == if SelectedPaths(relatedFiles) == [] then old(pm.State())
                            else ScopedAccess(old(pm.State()), os)
    {
      state := Deleting;
      visited := [state];
      var result, urls := DeleteFiles(relatedFiles, pm, os, recycle);
      match result {
        case Deleted =>
          state := Completed;
        case DeleteFailed(reason) =>
          state := Error(reason);
      }
      visited := visited + [state];
    }

    /** `reset()`: back to `Idle` with nothing loaded, from any state. */
    method Reset()
      modifies this
      ensures Valid()
      ensures appInfo == None && relatedFiles == [] && state == Idle && !showConfirmation
    {
      appInfo := None;
      relatedFiles := [];
      state := Idle;
      showConfirmation := false;
    }
  }
}
