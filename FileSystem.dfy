/**
 * The part of the host file system the engine reads, as a value: one tree of
 * entries rooted at "/". `FileManager`'s existence and readability tests,
 * its shallow directory listing and its recursive enumerator (with hidden
 * entries skipped) are functions of that tree.
 */
module FileSystem {
  import opened Wrappers

  /** A location, as its components below "/" (`["Users", "ann", "Library"]`). */
  type Path = seq<string>

  /**
   * One directory entry. `readable` says whether its resource values (and,
   * for a directory, its contents) can be read; `size` is its file size in
   * bytes (0 where the system reports none).
   */
  datatype Node = Node(
    name: string,
    hidden: bool,
    isDir: bool,
    size: nat,
    readable: bool,
    children: seq<Node>)

  /** The first child with the given name. */
  function FindChild(entries: seq<Node>, name: string): (r: Option<Node>)
    ensures r.Some? ==> r.value in entries && r.value.name == name
    ensures r.None? ==> forall e :: e in entries ==> e.name != name
  {
    if entries == [] then None
    else if entries[0].name == name then Some(entries[0])
    else FindChild(entries[1..], name)
  }

  /** The entry at `path` below `root`, if there is one. */
  function Lookup(root: Node, path: Path): Option<Node>
    decreases |path|
  {
    if path == [] then Some(root)
    else if !root.isDir then None
    else match FindChild(root.children, path[0])
      case None => None
      case Some(child) => Lookup(child, path[1..])
  }

  /** `fileExists(atPath:)`. */
  predicate FileExists(disk: Node, path: Path)
  {
    Lookup(disk, path).Some?
  }

  /** `isReadableFile(atPath:)`. */
  predicate IsReadableFile(disk: Node, path: Path)
  {
    Lookup(disk, path).Some? && Lookup(disk, path).value.readable
  }

  /** The names of a list of entries, in order. */
  function Names(entries: seq<Node>): (names: seq<string>)
    ensures |names| == |entries|
  {
    seq(|entries|, i requires 0 <= i < |entries| => entries[i].name)
  }

  /**
   * `contentsOfDirectory(atPath:)`: the names of the immediate children,
   * hidden ones included, in listing order; `None` where the call throws (no
   * such entry, not a directory, or unreadable).
   */
  function ContentsOfDirectory(disk: Node, path: Path): (r: Option<seq<string>>)
    ensures r.Some? <==> IsReadableFile(disk, path) && Lookup(disk, path).value.isDir
  {
    match Lookup(disk, path)
    case None => None
    case Some(n) => if n.isDir && n.readable then Some(Names(n.children)) else None
  }

  /**
   * What `enumerator(at:options: [.skipsHiddenFiles])` yields for `n`: its
   * descendants in pre-order, never `n` itself. A hidden entry is neither
   * yielded nor entered; an unreadable or non-directory entry is yielded but
   * not entered.
   */
  function Enumerate(n: Node): seq<Node>
    decreases n, 1
  {
    if n.isDir && n.readable then EnumerateAll(n.children) else []
  }

  /** The enumerator's output for a list of sibling entries, in order. */
  function EnumerateAll(entries: seq<Node>): seq<Node>
    decreases entries, 0
  {
    if entries == [] then []
    else
      (if entries[0].hidden then [] else [entries[0]] + Enumerate(entries[0]))
      + EnumerateAll(entries[1..])
  }

  /** Every entry the enumerator yields is visible. */
  lemma {:induction false} EnumerateYieldsVisible(n: Node)
    ensures forall e :: e in Enumerate(n) ==> !e.hidden
    decreases n, 1
  {
    if n.isDir && n.readable {
      EnumerateAllYieldsVisible(n.children);
    }
  }

  lemma {:induction false} EnumerateAllYieldsVisible(entries: seq<Node>)
    ensures forall e :: e in EnumerateAll(entries) ==> !e.hidden
    decreases entries, 0
  {
    if entries != [] {
      EnumerateYieldsVisible(entries[0]);
      EnumerateAllYieldsVisible(entries[1..]);
    }
  }

  /** `lastPathComponent`. */
  function LastPathComponent(path: Path): string
  {
    if path == [] then "/" else path[|path| - 1]
  }

  /** The components of a path, each preceded by a slash. */
  function Slashed(path: Path): string
  {
    if path == [] then "" else "/" + path[0] + Slashed(path[1..])
  }

  lemma {:induction false} SlashedAppend(a: Path, b: Path)
    ensures Slashed(a + b) == Slashed(a) + Slashed(b)
  {
    if a == [] {
      assert a + b == b;
    } else {
      assert (a + b)[1..] == a[1..] + b;
      SlashedAppend(a[1..], b);
    }
  }

  /** The path as a string, the way `URL.path` spells it. */
  function PathString(path: Path): string
  {
    if path == [] then "/" else Slashed(path)
  }
}
