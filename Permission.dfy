/**
 * The permission gate (`PermissionManager`): a readability probe over the
 * user's Library folder, the outcome of the folder-chooser request, a
 * security-scoped bookmark persisted under one fixed key, and the start and
 * stop of the access scope that bookmark grants.
 */
module Permission {
  import opened Wrappers
  import opened FileSystem

  datatype PermissionStatus = NotDetermined | Granted | Denied

  /** Opaque security-scoped bookmark data. */
  datatype BookmarkData = BookmarkData(bytes: seq<bv8>)

  /** What resolving bookmark data gives: nothing, or a URL and whether the data is stale. */
  datatype Resolution = Unresolvable | Resolved(url: Path, isStale: bool)

  /** The folder chooser's response. */
  datatype PanelResponse = OK | Cancel

  /**
   * The system services the gate calls: creating bookmark data for a URL
   * (which can fail), resolving bookmark data, and starting a URL's access
   * scope (which reports success or failure).
   */
  datatype Os = Os(
    bookmarkData: Path -> Option<BookmarkData>,
    resolve: BookmarkData -> Resolution,
    startScope: Path -> bool)

  /** The user-defaults store, restricted to data values. */
  type Defaults = map<string, BookmarkData>

  /** The one key the bookmark is persisted under. */
  const BookmarkKey: string := "LibraryAccessBookmark"

  /**
   * The persisted store and the set of access scopes the system currently
   * holds open (a scope started twice must be stopped twice, hence a
   * multiset).
   */
  datatype Gate = Gate(defaults: Defaults, scopes: multiset<Path>)

  /** The three folders whose readability stands for access to the Library. */
  function TestPaths(library: Path): (paths: seq<Path>)
    ensures |paths| == 3
    ensures forall i :: 0 <= i < 3 ==> |paths[i]| == |library| + 1 && paths[i][..|library|] == library
  {
    [library + ["Preferences"], library + ["Application Support"], library + ["Caches"]]
  }

  /**
   * The store after saving a bookmark for `url`: the fixed key now holds the
   * new data, or, when no bookmark data could be created, nothing changes.
   */
  function SavedDefaults(defaults: Defaults, url: Path, os: Os): (d: Defaults)
    ensures os.bookmarkData(url).None? ==> d == defaults
    ensures os.bookmarkData(url).Some? ==> BookmarkKey in d && d[BookmarkKey] == os.bookmarkData(url).value
    ensures d.Keys <= defaults.Keys + {BookmarkKey}
    ensures forall k :: k in defaults && k != BookmarkKey ==> k in d && d[k] == defaults[k]
  {
    match os.bookmarkData(url)
    case None => defaults
    case Some(data) => defaults[BookmarkKey := data]
  }

  /** The URL a restore yields, and the store after it. */
  datatype Restore = Restore(url: Option<Path>, defaults: Defaults)

  /**
   * `restoreBookmark`: no URL when nothing is stored or the data does not
   * resolve; otherwise the resolved URL, and a stale bookmark is saved anew
   * for it under the same key.
   */
  function Restored(defaults: Defaults, os: Os): (r: Restore)
    ensures BookmarkKey !in defaults ==> r == Restore(None, defaults)
    ensures r.url.Some? <==> BookmarkKey in defaults && os.resolve(defaults[BookmarkKey]).Resolved?
    ensures r.url.Some? ==> r.url.value == os.resolve(defaults[BookmarkKey]).url
    ensures r.url.None? || !os.resolve(defaults[BookmarkKey]).isStale ==> r.defaults == defaults
    ensures r.url.Some? && os.resolve(defaults[BookmarkKey]).isStale ==>
              r.defaults == SavedDefaults(defaults, r.url.value, os)
  {
    if BookmarkKey !in defaults then Restore(None, defaults)
    else match os.resolve(defaults[BookmarkKey])
      case Unresolvable => Restore(None, defaults)
      case Resolved(url, stale) =>
        Restore(Some(url), if stale then SavedDefaults(defaults, url, os) else defaults)
  }

  /**
   * `startAccessingSecurityScopedResource`: false when no bookmark can be
   * restored; otherwise whatever starting the URL's scope reports, with the
   * scope recorded as open when it started.
   */
  function StartAccess(g: Gate, os: Os): (r: (bool, Gate))
    ensures Restored(g.defaults, os).url.None? ==> !r.0 && r.1.scopes == g.scopes
    ensures Restored(g.defaults, os).url.Some? ==>
              r.0 == os.startScope(Restored(g.defaults, os).url.value)
    ensures r.0 ==> r.1.scopes == g.scopes + multiset{Restored(g.defaults, os).url.value}
    ensures !r.0 ==> r.1.scopes == g.scopes
    ensures r.1.defaults == Restored(g.defaults, os).defaults
  {
    var restore := Restored(g.defaults, os);
    match restore.url
    case None => (false, Gate(restore.defaults, g.scopes))
    case Some(url) =>
      if os.startScope(url) then (true, Gate(restore.defaults, g.scopes + multiset{url}))
      else (false, Gate(restore.defaults, g.scopes))
  }

  /**
   * `stopAccessingSecurityScopedResource`: the bookmark is restored again and
   * the scope of the URL it now resolves to is closed; nothing happens to the
   * scopes when no bookmark can be restored.
   */
  function StopAccess(g: Gate, os: Os): (r: Gate)
    ensures Restored(g.defaults, os).url.None? ==> r.scopes == g.scopes
    ensures Restored(g.defaults, os).url.Some? ==>
              r.scopes == g.scopes - multiset{Restored(g.defaults, os).url.value}
    ensures r.defaults == Restored(g.defaults, os).defaults
  {
    var restore := Restored(g.defaults, os);
    match restore.url
    case None => Gate(restore.defaults, g.scopes)
    case Some(url) => Gate(restore.defaults, g.scopes - multiset{url})
  }

  /**
   * The bracket every scan and deletion puts around its work: start the
   * scope, and stop it afterwards only if starting it succeeded.
   */
  function ScopedAccess(g: Gate, os: Os): Gate
  {
    var (acquired, g') := StartAccess(g, os);
    if acquired then StopAccess(g', os) else g'
  }

  /** Without a stored bookmark the bracket changes nothing at all. */
  lemma ScopedAccessWithoutBookmark(g: Gate, os: Os)
    requires BookmarkKey !in g.defaults
    ensures ScopedAccess(g, os) == g
  {
  }

  /**
   * With a bookmark that resolves fresh, the bracket closes exactly the
   * scope it opened and leaves the store as it was.
   */
  lemma ScopedAccessBalanced(g: Gate, os: Os)
    requires BookmarkKey in g.defaults
    requires os.resolve(g.defaults[BookmarkKey]).Resolved?
    requires !os.resolve(g.defaults[BookmarkKey]).isStale
    ensures ScopedAccess(g, os) == g
  {
    var url := os.resolve(g.defaults[BookmarkKey]).url;
    if os.startScope(url) {
      assert (g.scopes + multiset{url}) - multiset{url} == g.scopes;
    }
  }

  /**
   * With a stale bookmark the store is rewritten, and the stop restores the
   * new data: when that data resolves to a different URL, the scope that
   * was opened stays open.
   */
  lemma ScopedAccessStaleLeak(g: Gate, os: Os, url: Path, other: Path, renewed: BookmarkData)
    requires url != other
    requires BookmarkKey in g.defaults
    requires os.resolve(g.defaults[BookmarkKey]) == Resolved(url, true)
    requires os.bookmarkData(url) == Some(renewed)
    requires os.resolve(renewed) == Resolved(other, false)
    requires os.startScope(url)
    ensures url in ScopedAccess(g, os).scopes
    ensures ScopedAccess(g, os).scopes[url] == g.scopes[url] + 1
  {
    var g1 := StartAccess(g, os).1;
    assert g1.defaults == g.defaults[BookmarkKey := renewed];
    assert Restored(g1.defaults, os).url == Some(other);
  }

  class PermissionManager {
    var libraryAccessStatus: PermissionStatus
    var defaults: Defaults
    var scopes: multiset<Path>
    const libraryPath: Path

    /** The store and the open scopes, as one value. */
    function State(): Gate
      reads this
    {
      Gate(defaults, scopes)
    }

    /**
     * A manager for the user whose home folder is `home`; the store is what
     * earlier runs persisted, and no scope is open.
     */
    constructor (home: Path, persisted: Defaults)
      ensures libraryAccessStatus == NotDetermined
      ensures libraryPath == home + ["Library"]
      ensures defaults == persisted && scopes == multiset{}
    {
      libraryAccessStatus := NotDetermined;
      libraryPath := home + ["Library"];
      defaults := persisted;
      scopes := multiset{};
    }

    /**
     * `checkLibraryAccess`: granted exactly when all three probe folders are
     * readable, denied at the first that is not; never undetermined, and the
     * published status is the returned one.
     */
    method CheckLibraryAccess(disk: Node) returns (status: PermissionStatus)
      modifies this`libraryAccessStatus
      ensures status == libraryAccessStatus
      ensures status == Granted <==> forall p :: p in TestPaths(libraryPath) ==> IsReadableFile(disk, p)
      ensures status != NotDetermined
    {
      var testPaths := TestPaths(libraryPath);
      for i := 0 to |testPaths|
        invariant forall j :: 0 <= j < i ==> IsReadableFile(disk, testPaths[j])
      {
        if !IsReadableFile(disk, testPaths[i]) {
          libraryAccessStatus := Denied;
          return Denied;
        }
      }
      libraryAccessStatus := Granted;
      return Granted;
    }

    /**
     * The completion of `requestLibraryAccess`: an approved panel with a
     * chosen folder saves a bookmark for it and grants; any other response
     * denies and leaves the store alone.
     */
    method CompleteAccessRequest(response: PanelResponse, chosen: Option<Path>, os: Os)
      returns (granted: bool)
      modifies this`libraryAccessStatus, this`defaults
      ensures granted <==> response == OK && chosen.Some?
      ensures libraryAccessStatus == if granted then Granted else Denied
      ensures defaults == if granted then SavedDefaults(old(defaults), chosen.value, os) else old(defaults)
    {
      if response == OK && chosen.Some? {
        SaveBookmark(chosen.value, os);
        libraryAccessStatus := Granted;
        granted := true;
      } else {
        libraryAccessStatus := Denied;
        granted := false;
      }
    }

    /** `saveBookmark(for:)`. */
    method SaveBookmark(url: Path, os: Os)
      modifies this`defaults
      ensures defaults == SavedDefaults(old(defaults), url, os)
    {
      match os.bookmarkData(url)
      case None =>
      case Some(data) =>
        defaults := defaults[BookmarkKey := data];
    }

    /** `restoreBookmark()`. */
    method RestoreBookmark(os: Os) returns (url: Option<Path>)
      modifies this`defaults
      ensures Restore(url, defaults) == Restored(old(defaults), os)
    {
      if BookmarkKey !in defaults {
        return None;
      }
      match os.resolve(defaults[BookmarkKey])
      case Unresolvable =>
        url := None;
      case Resolved(resolved, isStale) =>
        if isStale {
          SaveBookmark(resolved, os);
        }
        url := Some(resolved);
    }

    /** `startAccessingSecurityScopedResource()`. */
    method StartAccessingSecurityScopedResource(os: Os) returns (started: bool)
      modifies this`defaults, this`scopes
      ensures (started, State()) == StartAccess(old(State()), os)
    {
      var url := RestoreBookmark(os);
      match url
      case None =>
        started := false;
      case Some(u) =>
        started := os.startScope(u);
        if started {
          scopes := scopes + multiset{u};
        }
    }

    /** `stopAccessingSecurityScopedResource()`. */
    method StopAccessingSecurityScopedResource(os: Os)
      modifies this`defaults, this`scopes
      ensures State() == StopAccess(old(State()), os)
    {
      var url := RestoreBookmark(os);
      match url
      case None =>
      case Some(u) =>
        scopes := scopes - multiset{u};
    }
  }
}
