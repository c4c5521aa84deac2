/**
 * The string operations the scanner relies on: case folding, substring
 * containment (`String.contains`), `replacingOccurrences(of:with:)`, and the
 * split of a file name into stem and path extension.
 */
module Text {
  import opened Wrappers

  /** Case folding of one character; only ASCII letters change. */
  function LowerChar(c: char): char
  {
    if 'A' <= c <= 'Z' then (c as int + 32) as char else c
  }

  /** `lowercased()`, restricted to ASCII case folding. */
  function Lower(s: string): (r: string)
    ensures |r| == |s|
  {
    seq(|s|, i requires 0 <= i < |s| => LowerChar(s[i]))
  }

  predicate IsPrefix(t: string, s: string)
  {
    |t| <= |s| && s[..|t|] == t
  }

  /** `s.hasSuffix(t)`. */
  predicate HasSuffix(s: string, t: string)
  {
    |t| <= |s| && s[|s| - |t|..] == t
  }

  /** `s.contains(t)`: does `t` occur in `s` as a contiguous substring? */
  predicate Contains(s: string, t: string)
    decreases |s|
  {
    IsPrefix(t, s) || (s != [] && Contains(s[1..], t))
  }

  /** `t` occurs in `s` starting at offset `i`. */
  predicate OccursAt(s: string, t: string, i: int)
  {
    0 <= i <= |s| - |t| && s[i..i + |t|] == t
  }

  /** Containment is exactly "occurs at some offset". */
  lemma {:induction false} ContainsIffOccursAt(s: string, t: string)
    ensures Contains(s, t) <==> exists i :: OccursAt(s, t, i)
    decreases |s|
  {
    if IsPrefix(t, s) {
      assert OccursAt(s, t, 0);
    } else if s == [] {
      assert forall i :: !OccursAt(s, t, i);
    } else {
      ContainsIffOccursAt(s[1..], t);
      if Contains(s[1..], t) {
        var i :| OccursAt(s[1..], t, i);
        assert s[1..][i..i + |t|] == s[i + 1..i + 1 + |t|];
        assert OccursAt(s, t, i + 1);
      }
      if exists i :: OccursAt(s, t, i) {
        var i :| OccursAt(s, t, i);
        assert i != 0;
        assert s[1..][i - 1..i - 1 + |t|] == s[i..i + |t|];
        assert OccursAt(s[1..], t, i - 1);
      }
    }
  }

  /**
   * Case folding preserves containment: a case-sensitive match is always a
   * case-insensitive one, so a test of the folded strings subsumes it.
   */
  lemma {:induction false} LowerPreservesContains(s: string, t: string)
    requires Contains(s, t)
    ensures Contains(Lower(s), Lower(t))
    decreases |s|
  {
    if IsPrefix(t, s) {
      assert Lower(s)[..|t|] == Lower(t);
    } else {
      LowerPreservesContains(s[1..], t);
      assert Lower(s)[1..] == Lower(s[1..]);
    }
  }

  /**
   * `s.contains(t)` as Foundation answers it for strings (`range(of:)` finds
   * something): an occurrence of a non-empty `t`. The empty string is found
   * nowhere.
   */
  predicate StringContains(s: string, t: string)
  {
    t != [] && Contains(s, t)
  }

  /** Folding both sides keeps a Foundation match a match. */
  lemma LowerPreservesStringContains(s: string, t: string)
    requires StringContains(s, t)
    ensures StringContains(Lower(s), Lower(t))
  {
    LowerPreservesContains(s, t);
  }

  /**
   * `s.replacingOccurrences(of: pattern, with: replacement)`: every
   * non-overlapping occurrence, scanning left to right; an empty pattern
   * leaves the string as it is.
   */
  function ReplaceAll(s: string, pattern: string, replacement: string): string
    decreases |s|
  {
    if pattern == [] || |s| < |pattern| then s
    else if s[..|pattern|] == pattern then
      replacement + ReplaceAll(s[|pattern|..], pattern, replacement)
    else [s[0]] + ReplaceAll(s[1..], pattern, replacement)
  }

  /** A string in which the pattern does not occur is returned unchanged. */
  lemma {:induction false} ReplaceAllWithoutOccurrence(s: string, pattern: string, replacement: string)
    requires !Contains(s, pattern)
    ensures ReplaceAll(s, pattern, replacement) == s
    decreases |s|
  {
    if pattern == [] || |s| < |pattern| {
    } else {
      assert !IsPrefix(pattern, s);
      ReplaceAllWithoutOccurrence(s[1..], pattern, replacement);
      assert [s[0]] + s[1..] == s;
    }
  }

  /** A leading occurrence of a non-empty pattern becomes the replacement. */
  lemma ReplaceAllLeading(pattern: string, rest: string, replacement: string)
    requires pattern != []
    ensures ReplaceAll(pattern + rest, pattern, replacement)
         == replacement + ReplaceAll(rest, pattern, replacement)
  {
    var s := pattern + rest;
    assert s[..|pattern|] == pattern;
    assert s[|pattern|..] == rest;
  }

  /** The position of the last `.` in a name, if there is one. */
  function LastDot(name: string): (r: Option<nat>)
    ensures r.Some? ==> r.value < |name| && name[r.value] == '.'
    ensures r.Some? ==> forall j :: r.value < j < |name| ==> name[j] != '.'
    ensures r.None? ==> forall j :: 0 <= j < |name| ==> name[j] != '.'
  {
    if name == [] then None
    else if name[|name| - 1] == '.' then Some(|name| - 1)
    else LastDot(name[..|name| - 1])
  }

  /**
   * Where the extension of a file name starts: after the last dot, provided
   * that dot is not the first character (a leading dot marks a hidden file,
   * it does not start an extension).
   */
  function ExtensionDot(name: string): Option<nat>
  {
    match LastDot(name)
    case Some(i) => if i > 0 then Some(i) else None
    case None => None
  }

  /** `pathExtension` of a single file name. */
  function PathExtension(name: string): string
  {
    match ExtensionDot(name)
    case Some(i) => name[i + 1..]
    case None => ""
  }

  /** `deletingPathExtension().lastPathComponent` of a single file name. */
  function DeletingPathExtension(name: string): string
  {
    match ExtensionDot(name)
    case Some(i) => name[..i]
    case None => name
  }

  /**
   * A name with an extension splits into a non-empty stem, a dot and an
   * extension without dots; re-joining them gives the name back.
   */
  lemma StemAndExtension(name: string)
    requires ExtensionDot(name).Some?
    ensures DeletingPathExtension(name) + "." + PathExtension(name) == name
    ensures |DeletingPathExtension(name)| > 0
    ensures forall j :: 0 <= j < |PathExtension(name)| ==> PathExtension(name)[j] != '.'
  {
    var i := ExtensionDot(name).value;
    assert name[..i] + "." + name[i + 1..] == name[..i] + [name[i]] + name[i + 1..];
    assert name[..i] + [name[i]] + name[i + 1..] == name;
    forall j | 0 <= j < |PathExtension(name)|
      ensures PathExtension(name)[j] != '.'
    {
      assert PathExtension(name)[j] == name[i + 1 + j];
    }
  }
}
