/**
 * The scanner (`AppScanner`) and its records: resolving a dropped bundle into
 * an application identity, sizing a directory tree, finding the files an
 * application left in the user's Library, and sending the selected ones to
 * the trash in one batch.
 */
module AppModels {
  import opened Wrappers
  import opened Text
  import opened FileSystem
  import opened Permission

  datatype FileCategory =
    | App | Preferences | ApplicationSupport | Caches
    | Logs | Containers | SavedState | CrashReports | Other

  /** Where the application's icon comes from: a resource in its bundle, or the system's icon for the path. */
  datatype Icon = BundleIcon(resource: string) | WorkspaceIcon(path: Path)

  /** The identity of a dropped application (`AppInfo`). */
  datatype AppInfo = AppInfo(
    name: string,
    bundleIdentifier: string,
    path: Path,
    icon: Icon,
    size: nat)

  /** One discovered entry (`RelatedFile`); `id` stands for its UUID. */
  datatype RelatedFile = RelatedFile(
    id: nat,
    path: Path,
    size: nat,
    category: FileCategory,
    isSelected: bool)

  /** `RelatedFile.fileName`. */
  function FileName(f: RelatedFile): string
  {
    LastPathComponent(f.path)
  }

  /** `RelatedFile.relativePath`: every occurrence of the home folder's path spelled as `~`. */
  function RelativePath(f: RelatedFile, home: Path): string
  {
    ReplaceAll(PathString(f.path), PathString(home), "~")
  }

  /**
   * An entry below the home folder is shown as `~` followed by the rest of
   * its path, provided that rest does not spell the home path again.
   */
  lemma RelativePathBelowHome(f: RelatedFile, home: Path, rest: Path)
    requires home != [] && f.path == home + rest
    requires !Contains(Slashed(rest), PathString(home))
    ensures RelativePath(f, home) == "~" + Slashed(rest)
  {
    SlashedAppend(home, rest);
    assert PathString(f.path) == PathString(home) + Slashed(rest);
    assert PathString(home) != [] by {
      assert Slashed(home) == "/" + home[0] + Slashed(home[1..]);
    }
    ReplaceAllLeading(PathString(home), Slashed(rest), "~");
    ReplaceAllWithoutOccurrence(Slashed(rest), PathString(home), "~");
  }

  /**
   * What `Bundle(url:)` offers, when the folder is a readable bundle: the
   * identifier, `CFBundleName` and `CFBundleIconFile` when present (and
   * strings), and the icon resources that exist and load as images.
   */
  datatype BundleInfo = BundleInfo(
    bundleIdentifier: Option<string>,
    bundleName: Option<string>,
    iconFile: Option<string>,
    loadableIcons: set<string>)

  /** The resource name looked up for a `CFBundleIconFile` value. */
  function IconResourceName(iconFile: string): string
  {
    var iconPath := if HasSuffix(iconFile, ".icns") then iconFile else iconFile + ".icns";
    ReplaceAll(iconPath, ".icns", "")
  }

  /** `CFBundleIconFile` may be written with or without `.icns`; both name the same resource. */
  lemma IconFileSpellings(base: string)
    requires !HasSuffix(base, ".icns")
    ensures IconResourceName(base + ".icns") == IconResourceName(base)
  {
    assert HasSuffix(base + ".icns", ".icns") by {
      assert (base + ".icns")[|base|..] == ".icns";
    }
  }

  /**
   * For a name without dots (the usual `AppIcon`), the resource looked up is
   * the name itself, whether or not the extension was written.
   */
  lemma IconResourceNameOfPlainName(base: string)
    requires forall j :: 0 <= j < |base| ==> base[j] != '.'
    ensures IconResourceName(base) == base
    ensures IconResourceName(base + ".icns") == base
  {
    assert !HasSuffix(base, ".icns") by {
      if |base| >= 5 {
        assert base[|base| - 5..][0] == base[|base| - 5];
      }
    }
    IconFileSpellings(base);
    StripTrailingExtension(base);
    assert base + "" == base;
  }

  lemma {:induction false} StripTrailingExtension(base: string)
    requires forall j :: 0 <= j < |base| ==> base[j] != '.'
    ensures ReplaceAll(base + ".icns", ".icns", "") == base
  {
    if base == [] {
      assert base + ".icns" == ".icns";
      ReplaceAllLeading(".icns", "", "");
    } else {
      var s := base + ".icns";
      assert s[..5] != ".icns" by {
        assert s[..5][0] == base[0];
      }
      assert s[1..] == base[1..] + ".icns";
      StripTrailingExtension(base[1..]);
      assert [base[0]] + base[1..] == base;
    }
  }

  /** The bundle's own icon when it names one that loads, otherwise the system's icon for the path. */
  function AppIcon(url: Path, bundle: Option<BundleInfo>): (icon: Icon)
    ensures icon.BundleIcon? ==> bundle.Some? && bundle.value.iconFile.Some?
                                  && icon.resource in bundle.value.loadableIcons
    ensures icon.WorkspaceIcon? ==> icon.path == url
    ensures bundle.Some? && bundle.value.iconFile.Some?
            && IconResourceName(bundle.value.iconFile.value) in bundle.value.loadableIcons
            ==> icon == BundleIcon(IconResourceName(bundle.value.iconFile.value))
  {
    if bundle.Some? && bundle.value.iconFile.Some?
       && IconResourceName(bundle.value.iconFile.value) in bundle.value.loadableIcons
    then BundleIcon(IconResourceName(bundle.value.iconFile.value))
    else WorkspaceIcon(url)
  }

  /* ---------------------------------------------------------------------
   * Size accounting (`calculateDirectorySize`)
   * --------------------------------------------------------------------- */

  /** What one enumerated entry adds: its size when it is a readable non-directory, else nothing. */
  function Contribution(e: Node): nat
  {
    if e.readable && !e.isDir then e.size else 0
  }

  /** The bytes below `n`, defined on the tree rather than on the enumeration. */
  function TreeBytes(n: Node): nat
    decreases n, 1
  {
    if n.isDir && n.readable then ForestBytes(n.children) else 0
  }

  function ForestBytes(entries: seq<Node>): nat
    decreases entries, 0
  {
    if entries == [] then 0
    else
      (if entries[0].hidden then 0 else Contribution(entries[0]) + TreeBytes(entries[0]))
      + ForestBytes(entries[1..])
  }

  /**
   * The size `calculateDirectorySize` reports for the entry at a URL: 0 when
   * nothing is there; otherwise the bytes of the visible descendants, the
   * entry itself never counted (so a plain file reports 0).
   */
  function DirectorySize(entry: Option<Node>): (size: nat)
    ensures entry.None? ==> size == 0
    ensures entry.Some? && !entry.value.isDir ==> size == 0
  {
    match entry
    case None => 0
    case Some(n) => TreeBytes(n)
  }

  /** The running total over a prefix of the enumeration. */
  function SumOf(entries: seq<Node>): nat
  {
    if entries == [] then 0
    else SumOf(entries[..|entries| - 1]) + Contribution(entries[|entries| - 1])
  }

  lemma {:induction false} SumOfAppend(a: seq<Node>, b: seq<Node>)
    ensures SumOf(a + b) == SumOf(a) + SumOf(b)
    decreases |b|
  {
    if b == [] {
      assert a + b == a;
    } else {
      assert (a + b)[..|a + b| - 1] == a + b[..|b| - 1];
      SumOfAppend(a, b[..|b| - 1]);
    }
  }

  /** Summing what the enumerator yields gives the tree's bytes. */
  lemma {:induction false} EnumerationAddsUp(n: Node)
    ensures SumOf(Enumerate(n)) == TreeBytes(n)
    decreases n, 1
  {
    if n.isDir && n.readable {
      EnumerationAllAddsUp(n.children);
    }
  }

  lemma {:induction false} EnumerationAllAddsUp(entries: seq<Node>)
    ensures SumOf(EnumerateAll(entries)) == ForestBytes(entries)
    decreases entries, 0
  {
    if entries != [] {
      var e := entries[0];
      EnumerationAllAddsUp(entries[1..]);
      if !e.hidden {
        EnumerationAddsUp(e);
        SumOfAppend([e], Enumerate(e));
        assert SumOf([e]) == Contribution(e) by {
          assert [e][..0] == [];
        }
        SumOfAppend([e] + Enumerate(e), EnumerateAll(entries[1..]));
      } else {
        assert EnumerateAll(entries) == EnumerateAll(entries[1..]);
      }
    }
  }

  /** A hidden entry added to a directory changes nothing in its size. */
  lemma {:induction false} HiddenEntryIgnored(entries: seq<Node>, h: Node)
    requires h.hidden
    ensures ForestBytes(entries + [h]) == ForestBytes(entries)
  {
    if entries == [] {
      assert [] + [h] == [h];
      assert [h][1..] == [];
    } else {
      assert (entries + [h])[1..] == entries[1..] + [h];
      HiddenEntryIgnored(entries[1..], h);
    }
  }

  /**
   * `calculateDirectorySize`: walk the enumerator, adding the size of every
   * readable non-directory and skipping entries whose values cannot be read.
   */
  method CalculateDirectorySize(entry: Option<Node>) returns (totalSize: nat)
    ensures totalSize == DirectorySize(entry)
  {
    if entry.None? {
      return 0;
    }
    var enumerator := Enumerate(entry.value);
    totalSize := 0;
    for i := 0 to |enumerator|
      invariant totalSize == SumOf(enumerator[..i])
    {
      assert enumerator[..i + 1][..i] == enumerator[..i];
      var fileURL := enumerator[i];
      if fileURL.readable && !fileURL.isDir {
        totalSize := totalSize + fileURL.size;
      }
    }
    assert enumerator[..|enumerator|] == enumerator;
    EnumerationAddsUp(entry.value);
  }

  /* ---------------------------------------------------------------------
   * Target resolution (`getAppInfo`)
   * --------------------------------------------------------------------- */

  /**
   * `getAppInfo(from:)`: nothing unless the URL's extension is `app`;
   * otherwise the identity read from the bundle, each field falling back to
   * the file name without its extension, the icon, and the bundle's size.
   */
  function GetAppInfo(url: Path, bundle: Option<BundleInfo>, disk: Node): (info: Option<AppInfo>)
    ensures info.None? <==> PathExtension(LastPathComponent(url)) != "app"
    ensures info.Some? ==> info.value.path == url
    ensures info.Some? ==> info.value.size == DirectorySize(Lookup(disk, url))
    ensures info.Some? ==>
              info.value.bundleIdentifier
              == if bundle.Some? && bundle.value.bundleIdentifier.Some? then bundle.value.bundleIdentifier.value
                 else DeletingPathExtension(LastPathComponent(url))
    ensures info.Some? ==>
              info.value.name
              == if bundle.Some? && bundle.value.bundleName.Some? then bundle.value.bundleName.value
                 else DeletingPathExtension(LastPathComponent(url))
    ensures info.Some? ==> info.value.icon == AppIcon(url, bundle)
  {
    var name := LastPathComponent(url);
    if PathExtension(name) != "app" then None
    else
      var stem := DeletingPathExtension(name);
      var bundleIdentifier :=
        if bundle.Some? && bundle.value.bundleIdentifier.Some? then bundle.value.bundleIdentifier.value else stem;
      var appName :=
        if bundle.Some? && bundle.value.bundleName.Some? then bundle.value.bundleName.value else stem;
      Some(AppInfo(appName, bundleIdentifier, url, AppIcon(url, bundle), DirectorySize(Lookup(disk, url))))
  }

  /**
   * Without an identifier and a name in the bundle's metadata (no bundle at
   * all, or an Info.plist lacking both keys), identifier and name are both
   * the file name minus `.app`: never empty, and with `.app` appended it is
   * the file name.
   */
  lemma MetadataFallback(url: Path, bundle: Option<BundleInfo>, disk: Node)
    requires GetAppInfo(url, bundle, disk).Some?
    requires bundle.None? || (bundle.value.bundleIdentifier.None? && bundle.value.bundleName.None?)
    ensures var info := GetAppInfo(url, bundle, disk).value;
      && info.bundleIdentifier == info.name
      && info.name != ""
      && info.name + ".app" == LastPathComponent(url)
  {
    var name := LastPathComponent(url);
    assert ExtensionDot(name).Some?;
    StemAndExtension(name);
  }

  /* ---------------------------------------------------------------------
   * Related-file matching (`findRelatedFiles`)
   * --------------------------------------------------------------------- */

  /** The roots searched, below the home folder, each with the category its matches get. */
  function SearchPaths(home: Path): (table: seq<(Path, FileCategory)>)
    ensures |table| == 11
    ensures forall k :: 0 <= k < |table| ==> table[k].1 != App
    ensures forall k :: 0 <= k < |table| ==>
              |table[k].0| > |home| + 1 && table[k].0[..|home| + 1] == home + ["Library"]
  {
    var library := home + ["Library"];
    [ (library + ["Preferences"], Preferences),
      (library + ["Application Support"], ApplicationSupport),
      (library + ["Caches"], Caches),
      (library + ["Logs"], Logs),
      (library + ["Containers"], Containers),
      (library + ["Group Containers"], Containers),
      (library + ["Saved Application State"], SavedState),
      (library + ["Logs", "DiagnosticReports"], CrashReports),
      (library + ["LaunchAgents"], Other),
      (library + ["HTTPStorages"], Caches),
      (library + ["WebKit"], Caches) ]
  }

  /** The relatedness test applied to one directory entry's name. */
  predicate ItemMatches(item: string, bundleId: string, appName: string)
  {
    var itemLower := Lower(item);
    || StringContains(itemLower, Lower(bundleId))
    || StringContains(itemLower, Lower(appName))
    || StringContains(item, bundleId)
    || StringContains(item, appName)
  }

  /**
   * The test is exactly case-insensitive containment of the identifier or
   * the name: its two case-sensitive alternatives never add a match.
   */
  lemma MatchIsCaseInsensitive(item: string, bundleId: string, appName: string)
    ensures ItemMatches(item, bundleId, appName) <==>
            StringContains(Lower(item), Lower(bundleId)) || StringContains(Lower(item), Lower(appName))
  {
    if StringContains(item, bundleId) {
      LowerPreservesStringContains(item, bundleId);
    }
    if StringContains(item, appName) {
      LowerPreservesStringContains(item, appName);
    }
  }

  /** Containment is loose on purpose: a longer helper's identifier matches too. */
  lemma HelperIdentifierMatches()
    ensures ItemMatches("com.example.AppHelper", "com.example.App", "Foo")
  {
    assert IsPrefix(Lower("com.example.App"), Lower("com.example.AppHelper"));
  }

  /**
   * An empty key is found in no name, so a bundle with an empty identifier
   * is matched by its name alone.
   */
  lemma EmptyIdentifierIgnored(item: string, appName: string)
    ensures ItemMatches(item, "", appName) <==> StringContains(Lower(item), Lower(appName))
  {
    MatchIsCaseInsensitive(item, "", appName);
  }

  /** One match: the child's path, its size, and the root's category. */
  datatype Hit = Hit(path: Path, size: nat, category: FileCategory)

  /** The matches among a root's listed names, in listing order. */
  function ChildHits(disk: Node, root: Path, category: FileCategory, items: seq<string>, app: AppInfo)
    : (hits: seq<Hit>)
    ensures forall h :: h in hits ==>
              && h.category == category
              && |h.path| == |root| + 1 && h.path[..|root|] == root
              && h.path[|root|] in items
              && ItemMatches(h.path[|root|], app.bundleIdentifier, app.name)
              && h.size == DirectorySize(Lookup(disk, h.path))
  {
    if items == [] then []
    else
      var item := items[|items| - 1];
      var fullPath := root + [item];
      ChildHits(disk, root, category, items[..|items| - 1], app)
      + (if ItemMatches(item, app.bundleIdentifier, app.name)
         then [Hit(fullPath, DirectorySize(Lookup(disk, fullPath)), category)]
         else [])
  }

  /** Every matching name is found. */
  lemma {:induction false} ChildHitsComplete(disk: Node, root: Path, category: FileCategory,
                                             items: seq<string>, app: AppInfo, item: string)
    requires item in items && ItemMatches(item, app.bundleIdentifier, app.name)
    ensures Hit(root + [item], DirectorySize(Lookup(disk, root + [item])), category)
            in ChildHits(disk, root, category, items, app)
  {
    if item != items[|items| - 1] {
      assert item in items[..|items| - 1] by {
        var i :| 0 <= i < |items| && items[i] == item;
        assert items[..|items| - 1][i] == item;
      }
      ChildHitsComplete(disk, root, category, items[..|items| - 1], app, item);
    }
  }

  /**
   * The matches under one root: none when the root does not exist, is not
   * readable, or cannot be listed.
   */
  function RootHits(disk: Node, root: Path, category: FileCategory, app: AppInfo): (hits: seq<Hit>)
    ensures ContentsOfDirectory(disk, root).None? ==> hits == []
    ensures ContentsOfDirectory(disk, root).Some? ==>
              hits == ChildHits(disk, root, category, ContentsOfDirectory(disk, root).value, app)
  {
    if !FileExists(disk, root) || !IsReadableFile(disk, root) then []
    else match ContentsOfDirectory(disk, root)
      case None => []
      case Some(items) => ChildHits(disk, root, category, items, app)
  }

  /** The matches under every root of a table, root by root in table order. */
  function TableHits(disk: Node, table: seq<(Path, FileCategory)>, app: AppInfo): seq<Hit>
  {
    if table == [] then []
    else
      var (root, category) := table[|table| - 1];
      TableHits(disk, table[..|table| - 1], app) + RootHits(disk, root, category, app)
  }

  /** Output order is table order: the matches of a longer table extend those of its prefix. */
  lemma {:induction false} TableHitsAppend(disk: Node, t1: seq<(Path, FileCategory)>,
                                           t2: seq<(Path, FileCategory)>, app: AppInfo)
    ensures TableHits(disk, t1 + t2, app) == TableHits(disk, t1, app) + TableHits(disk, t2, app)
    decreases |t2|
  {
    if t2 == [] {
      assert t1 + t2 == t1;
    } else {
      var last := t2[|t2| - 1];
      assert (t1 + t2)[..|t1 + t2| - 1] == t1 + t2[..|t2| - 1];
      TableHitsAppend(disk, t1, t2[..|t2| - 1], app);
      ConcatAssoc(TableHits(disk, t1, app), TableHits(disk, t2[..|t2| - 1], app), RootHits(disk, last.0, last.1, app));
    }
  }

  /** Every match comes from a listable root of the table, carries that root's category and matches. */
  lemma {:induction false} TableHitsSound(disk: Node, table: seq<(Path, FileCategory)>, app: AppInfo, h: Hit)
    requires h in TableHits(disk, table, app)
    ensures exists k :: 0 <= k < |table| && FoundUnder(disk, table[k], app, h)
  {
    var root := table[|table| - 1].0;
    var category := table[|table| - 1].1;
    if h in RootHits(disk, root, category, app) {
      assert FoundUnder(disk, table[|table| - 1], app, h);
    } else {
      TableHitsSound(disk, table[..|table| - 1], app, h);
      var k :| 0 <= k < |table| - 1 && FoundUnder(disk, table[..|table| - 1][k], app, h);
      assert FoundUnder(disk, table[k], app, h);
    }
  }

  /** `h` is a match found by listing `entry`'s root. */
  predicate FoundUnder(disk: Node, entry: (Path, FileCategory), app: AppInfo, h: Hit)
  {
    var (root, category) := entry;
    && ContentsOfDirectory(disk, root).Some?
    && h.category == category
    && |h.path| == |root| + 1 && h.path[..|root|] == root
    && h.path[|root|] in ContentsOfDirectory(disk, root).value
    && ItemMatches(h.path[|root|], app.bundleIdentifier, app.name)
    && h.size == DirectorySize(Lookup(disk, h.path))
  }

  /** Every matching child of every listable root of the table is found. */
  lemma {:induction false} TableHitsComplete(disk: Node, table: seq<(Path, FileCategory)>, app: AppInfo,
                                             k: nat, item: string)
    requires k < |table|
    requires ContentsOfDirectory(disk, table[k].0).Some?
    requires item in ContentsOfDirectory(disk, table[k].0).value
    requires ItemMatches(item, app.bundleIdentifier, app.name)
    ensures Hit(table[k].0 + [item], DirectorySize(Lookup(disk, table[k].0 + [item])), table[k].1)
            in TableHits(disk, table, app)
  {
    var (root, category) := table[k];
    if k == |table| - 1 {
      ChildHitsComplete(disk, root, category, ContentsOfDirectory(disk, root).value, app, item);
    } else {
      assert table[..|table| - 1][k] == table[k];
      TableHitsComplete(disk, table[..|table| - 1], app, k, item);
    }
  }

  /** The application bundle's own entry. */
  function AppHit(app: AppInfo): Hit
  {
    Hit(app.path, app.size, App)
  }

  /** The matches `findRelatedFiles` reports: the bundle first, then every root's matches. */
  function RelatedHits(app: AppInfo, disk: Node, home: Path): seq<Hit>
  {
    [AppHit(app)] + TableHits(disk, SearchPaths(home), app)
  }

  /** Fresh entries for a list of matches, selected, with consecutive identities from `idBase`. */
  function Stamp(hits: seq<Hit>, idBase: nat): (files: seq<RelatedFile>)
    ensures |files| == |hits|
  {
    seq(|hits|, i requires 0 <= i < |hits| =>
      RelatedFile(idBase + i, hits[i].path, hits[i].size, hits[i].category, true))
  }

  /** The result of `findRelatedFiles` for identities starting at `idBase`. */
  function RelatedFiles(app: AppInfo, disk: Node, home: Path, idBase: nat): seq<RelatedFile>
  {
    Stamp(RelatedHits(app, disk, home), idBase)
  }

  /**
   * The bundle is always the first entry, and the only one in the
   * application category; every entry is selected and has its own identity.
   */
  lemma RelatedFilesShape(app: AppInfo, disk: Node, home: Path, idBase: nat)
    ensures var files := RelatedFiles(app, disk, home, idBase);
      && |files| >= 1
      && files[0] == RelatedFile(idBase, app.path, app.size, App, true)
      && (forall i :: 0 < i < |files| ==> files[i].category != App)
      && (forall i :: 0 <= i < |files| ==> files[i].isSelected && files[i].id == idBase + i)
  {
    var files := RelatedFiles(app, disk, home, idBase);
    var table := SearchPaths(home);
    forall i | 0 < i < |files|
      ensures files[i].category != App
    {
      var h := RelatedHits(app, disk, home)[i];
      assert h in TableHits(disk, table, app);
      TableHitsSound(disk, table, app, h);
    }
  }

  /**
   * Every entry after the bundle was listed directly under one of the
   * searched roots, has that root's category, and its name matches.
   */
  lemma RelatedFileOrigin(app: AppInfo, disk: Node, home: Path, idBase: nat, i: nat)
    requires 0 < i < |RelatedFiles(app, disk, home, idBase)|
    ensures var f := RelatedFiles(app, disk, home, idBase)[i];
      && (exists k :: 0 <= k < 11 && FoundUnder(disk, SearchPaths(home)[k], app, Hit(f.path, f.size, f.category)))
      && ItemMatches(FileName(f), app.bundleIdentifier, app.name)
  {
    StampedEntryOrigin(disk, SearchPaths(home), app, idBase, i);
  }

  lemma StampedEntryOrigin(disk: Node, table: seq<(Path, FileCategory)>, app: AppInfo, idBase: nat, i: nat)
    requires 0 < i < 1 + |TableHits(disk, table, app)|
    ensures var f := Stamp([AppHit(app)] + TableHits(disk, table, app), idBase)[i];
      && (exists k :: 0 <= k < |table| && FoundUnder(disk, table[k], app, Hit(f.path, f.size, f.category)))
      && ItemMatches(LastPathComponent(f.path), app.bundleIdentifier, app.name)
  {
    var hits := [AppHit(app)] + TableHits(disk, table, app);
    var h := hits[i];
    assert h in TableHits(disk, table, app) by {
      assert h == TableHits(disk, table, app)[i - 1];
    }
    TableHitsSound(disk, table, app, h);
    var k :| 0 <= k < |table| && FoundUnder(disk, table[k], app, h);
    FoundUnderMatches(disk, table[k], app, h);
    StampAt(hits, idBase, i);
  }

  /** A match's own name passes the test. */
  lemma FoundUnderMatches(disk: Node, entry: (Path, FileCategory), app: AppInfo, h: Hit)
    requires FoundUnder(disk, entry, app, h)
    ensures ItemMatches(LastPathComponent(h.path), app.bundleIdentifier, app.name)
  {
  }

  lemma StampAt(hits: seq<Hit>, idBase: nat, i: nat)
    requires i < |hits|
    ensures Stamp(hits, idBase)[i] == RelatedFile(idBase + i, hits[i].path, hits[i].size, hits[i].category, true)
  {
  }

  /**
   * Every matching child of a listable root appears, with that root's
   * category and its own recursive size.
   */
  lemma RelatedFileFound(app: AppInfo, disk: Node, home: Path, idBase: nat, k: nat, item: string)
    requires k < 11
    requires ContentsOfDirectory(disk, SearchPaths(home)[k].0).Some?
    requires item in ContentsOfDirectory(disk, SearchPaths(home)[k].0).value
    requires ItemMatches(item, app.bundleIdentifier, app.name)
    ensures exists i ::
              && 0 < i < |RelatedFiles(app, disk, home, idBase)|
              && RelatedFiles(app, disk, home, idBase)[i]
                 == RelatedFile(idBase + i, SearchPaths(home)[k].0 + [item],
                                DirectorySize(Lookup(disk, SearchPaths(home)[k].0 + [item])), SearchPaths(home)[k].1, true)
  {
    var table := SearchPaths(home);
    var h := Hit(table[k].0 + [item], DirectorySize(Lookup(disk, table[k].0 + [item])), table[k].1);
    TableHitsComplete(disk, table, app, k, item);
    var files := Stamp([AppHit(app)] + TableHits(disk, table, app), idBase);
    StampedMember(TableHits(disk, table, app), AppHit(app), h, idBase);
    var i :| 0 < i < |files| && files[i] == RelatedFile(idBase + i, h.path, h.size, h.category, true);
    assert RelatedFiles(app, disk, home, idBase) == files;
  }

  /** A hit among the found ones is stamped at some position after the leading entry. */
  lemma StampedMember(found: seq<Hit>, lead: Hit, h: Hit, idBase: nat)
    requires h in found
    ensures exists i ::
              && 0 < i < |Stamp([lead] + found, idBase)|
              && Stamp([lead] + found, idBase)[i] == RelatedFile(idBase + i, h.path, h.size, h.category, true)
  {
    var j :| 0 <= j < |found| && found[j] == h;
    var hits := [lead] + found;
    assert hits[j + 1] == h;
    StampAt(hits, idBase, j + 1);
  }

  /**
   * `findRelatedFiles(for:)`: under one access scope, the bundle's own entry
   * followed by the matching children of each searched root, each sized
   * recursively.
   */
  method FindRelatedFiles(app: AppInfo, disk: Node, home: Path, pm: PermissionManager, os: Os, idBase: nat)
    returns (files: seq<RelatedFile>)
    requires pm.libraryPath == home + ["Library"]
    modifies pm`defaults, pm`scopes
    ensures files == RelatedFiles(app, disk, home, idBase)
    ensures pm.State() == ScopedAccess(old(pm.State()), os)
  {
    var hasAccess := pm.StartAccessingSecurityScopedResource(os);
    ghost var started := pm.State();
    assert (hasAccess, started) == StartAccess(old(pm.State()), os);

    files := [RelatedFile(idBase, app.path, app.size, App, true)];
    assert files == Stamp([AppHit(app)], idBase);

    var searchPaths := SearchPaths(home);
    for k := 0 to |searchPaths|
      invariant files == Stamp([AppHit(app)] + TableHits(disk, searchPaths[..k], app), idBase)
      invariant pm.State() == started
    {
      var (path, category) := searchPaths[k];
      ghost var done := [AppHit(app)] + TableHits(disk, searchPaths[..k], app);
      files := AppendRootMatches(disk, path, category, app, idBase, files, done);
      TableHitsSnoc(disk, searchPaths, k, app);
      ConcatAssoc([AppHit(app)], TableHits(disk, searchPaths[..k], app), RootHits(disk, path, category, app));
    }
    assert searchPaths[..|searchPaths|] == searchPaths;

    if hasAccess {
      pm.StopAccessingSecurityScopedResource(os);
    }
  }

  /**
   * The body of the scan for one root: skip it when it does not exist, is
   * not readable or cannot be listed; otherwise append an entry for every
   * listed name that matches, sized recursively.
   */
  method AppendRootMatches(disk: Node, path: Path, category: FileCategory, app: AppInfo, idBase: nat,
                           files: seq<RelatedFile>, ghost done: seq<Hit>)
    returns (files': seq<RelatedFile>)
    requires files == Stamp(done, idBase)
    ensures files' == Stamp(done + RootHits(disk, path, category, app), idBase)
  {
    files' := files;
    if !FileExists(disk, path) || !IsReadableFile(disk, path) {
      assert done + [] == done;
      return;
    }
    match ContentsOfDirectory(disk, path)
    case None =>
      assert done + [] == done;
    case Some(contents) =>
      files' := AppendChildMatches(disk, path, category, app, idBase, contents, files, done);
  }

  /** The loop over one root's listing: append an entry for every name that matches. */
  method AppendChildMatches(disk: Node, path: Path, category: FileCategory, app: AppInfo, idBase: nat,
                            contents: seq<string>, files: seq<RelatedFile>, ghost done: seq<Hit>)
    returns (files': seq<RelatedFile>)
    requires files == Stamp(done, idBase)
    ensures files' == Stamp(done + ChildHits(disk, path, category, contents, app), idBase)
  {
    files' := files;
    for j := 0 to |contents|
      invariant files' == Stamp(done + ChildHits(disk, path, category, contents[..j], app), idBase)
    {
      var item := contents[j];
      var itemLower := Lower(item);
      var fullPath := path + [item];
      AppendChildStep(disk, path, category, app, idBase, contents, j, done, files');
      if || StringContains(itemLower, Lower(app.bundleIdentifier))
         || StringContains(itemLower, Lower(app.name))
         || StringContains(item, app.bundleIdentifier)
         || StringContains(item, app.name)
      {
        var size := CalculateDirectorySize(Lookup(disk, fullPath));
        files' := files' + [RelatedFile(idBase + |files'|, fullPath, size, category, true)];
      }
    }
    assert contents[..|contents|] == contents;
  }

  /** One step of the loop over a listing: a matching name adds its entry, any other adds nothing. */
  lemma AppendChildStep(disk: Node, path: Path, category: FileCategory, app: AppInfo, idBase: nat,
                        contents: seq<string>, j: nat, done: seq<Hit>, files: seq<RelatedFile>)
    requires j < |contents|
    requires files == Stamp(done + ChildHits(disk, path, category, contents[..j], app), idBase)
    ensures ItemMatches(contents[j], app.bundleIdentifier, app.name) ==>
              files + [RelatedFile(idBase + |files|, path + [contents[j]],
                                   DirectorySize(Lookup(disk, path + [contents[j]])), category, true)]
              == Stamp(done + ChildHits(disk, path, category, contents[..j + 1], app), idBase)
    ensures !ItemMatches(contents[j], app.bundleIdentifier, app.name) ==>
              files == Stamp(done + ChildHits(disk, path, category, contents[..j + 1], app), idBase)
  {
    var before := ChildHits(disk, path, category, contents[..j], app);
    ChildHitsSnoc(disk, path, category, contents, j, app);
    if ItemMatches(contents[j], app.bundleIdentifier, app.name) {
      StampStep(done, before, Hit(path + [contents[j]], DirectorySize(Lookup(disk, path + [contents[j]])), category), idBase);
    } else {
      assert before + [] == before;
    }
  }

  /** Appending one match to the found ones appends one entry, numbered next. */
  lemma StampStep(done: seq<Hit>, before: seq<Hit>, h: Hit, idBase: nat)
    ensures Stamp(done + (before + [h]), idBase)
         == Stamp(done + before, idBase) + [RelatedFile(idBase + |done + before|, h.path, h.size, h.category, true)]
  {
    ConcatAssoc(done, before, [h]);
    StampSnoc(done + before, h, idBase);
  }

  lemma ChildHitsSnoc(disk: Node, root: Path, category: FileCategory, items: seq<string>, j: nat, app: AppInfo)
    requires j < |items|
    ensures ChildHits(disk, root, category, items[..j + 1], app)
         == ChildHits(disk, root, category, items[..j], app)
            + (if ItemMatches(items[j], app.bundleIdentifier, app.name)
               then [Hit(root + [items[j]], DirectorySize(Lookup(disk, root + [items[j]])), category)]
               else [])
  {
    assert items[..j + 1][..j] == items[..j];
  }

  lemma TableHitsSnoc(disk: Node, table: seq<(Path, FileCategory)>, k: nat, app: AppInfo)
    requires k < |table|
    ensures TableHits(disk, table[..k + 1], app)
         == TableHits(disk, table[..k], app) + RootHits(disk, table[k].0, table[k].1, app)
  {
    assert table[..k + 1][..k] == table[..k];
  }

  lemma ConcatAssoc<T>(a: seq<T>, b: seq<T>, c: seq<T>)
    ensures (a + b) + c == a + (b + c)
  {
  }

  lemma StampSnoc(hits: seq<Hit>, h: Hit, idBase: nat)
    ensures Stamp(hits + [h], idBase)
         == Stamp(hits, idBase) + [RelatedFile(idBase + |hits|, h.path, h.size, h.category, true)]
  {
  }

  /* ---------------------------------------------------------------------
   * Removal (`deleteFiles`)
   * --------------------------------------------------------------------- */

  /** How a deletion ends: success, or one failure for the whole batch. */
  datatype DeleteResult = Deleted | DeleteFailed(reason: string)

  /** The paths of the selected entries, in their order. */
  function SelectedPaths(files: seq<RelatedFile>): (paths: seq<Path>)
    ensures |paths| <= |files|
  {
    if files == [] then []
    else (if files[0].isSelected then [files[0].path] else []) + SelectedPaths(files[1..])
  }

  /** Selection keeps the order: the batch of two lists is the two batches in turn. */
  lemma {:induction false} SelectedPathsAppend(a: seq<RelatedFile>, b: seq<RelatedFile>)
    ensures SelectedPaths(a + b) == SelectedPaths(a) + SelectedPaths(b)
  {
    if a == [] {
      assert a + b == b;
    } else {
      assert (a + b)[1..] == a[1..] + b;
      SelectedPathsAppend(a[1..], b);
      ConcatAssoc(if a[0].isSelected then [a[0].path] else [], SelectedPaths(a[1..]), SelectedPaths(b));
    }
  }

  /** A path is submitted exactly when some selected entry has it. */
  lemma {:induction false} SelectedPathsMembers(files: seq<RelatedFile>, p: Path)
    ensures p in SelectedPaths(files) <==> exists i :: 0 <= i < |files| && files[i].isSelected && files[i].path == p
  {
    if files != [] {
      SelectedPathsMembers(files[1..], p);
      if exists i :: 0 <= i < |files[1..]| && files[1..][i].isSelected && files[1..][i].path == p {
        var i :| 0 <= i < |files[1..]| && files[1..][i].isSelected && files[1..][i].path == p;
        assert files[i + 1] == files[1..][i];
      }
      if exists i :: 0 <= i < |files| && files[i].isSelected && files[i].path == p {
        var i :| 0 <= i < |files| && files[i].isSelected && files[i].path == p;
        if i > 0 {
          assert files[1..][i - 1] == files[i];
        }
      }
    }
  }

  /**
   * `deleteFiles(_:completion:)`: nothing selected succeeds at once, with no
   * scope and no trash call; otherwise all selected paths go to the trash as
   * one batch, inside one access scope, and the batch's error (if any) is the
   * outcome. `recycle` is the trash's answer for a batch.
   */
  method DeleteFiles(files: seq<RelatedFile>, pm: PermissionManager, os: Os, recycle: seq<Path> -> Option<string>)
    returns (result: DeleteResult, urls: seq<Path>)
    modifies pm`defaults, pm`scopes
    ensures urls == SelectedPaths(files)
    ensures urls == [] ==> result == Deleted && pm.State() == old(pm.State())
    ensures urls != [] ==> pm.State() == ScopedAccess(old(pm.State()), os)
    ensures urls != [] ==> result == match recycle(urls) case None => Deleted case Some(e) => DeleteFailed(e)
  {
    urls := SelectedPaths(files);
    if urls == [] {
      return Deleted, urls;
    }
    var hasAccess := pm.StartAccessingSecurityScopedResource(os);
    var error := recycle(urls);
    if hasAccess {
      pm.StopAccessingSecurityScopedResource(os);
    }
    match error
    case Some(e) =>
      result := DeleteFailed(e);
    case None =>
      result := Deleted;
  }
}
