/** src/index.c:307-342: building path strings, and what the pieces of a path determine. */
module Paths {
  import opened Common

  /** `vd_join_path` as a value. */
  function JoinPath(root: Path, relative: Path): Path {
    if |root| > 0 && root[|root| - 1] != SLASH then root + [SLASH] + relative else root + relative
  }

  /** `vd_normalize_joined_relative` as a value. */
  function JoinRelative(parent: Path, name: Path): Path {
    if parent == [] then name else parent + [SLASH] + name
  }

  /** The root comes first in a joined path, whatever it ends in, and the relative path last; a slash
      stands between them exactly if there is a root that does not end in one. */
  lemma JoinPathParts(root: Path, relative: Path)
    ensures var joined := JoinPath(root, relative);
            && root <= joined
            && joined[|root|..] == if root == [] || root[|root| - 1] == 47 then relative else [47] + relative
  {
    assert (root + relative)[|root|..] == relative;
    assert root + [SLASH] + relative == root + ([SLASH] + relative);
  }

  /** The parent comes first, then one slash, then the name; there is nothing before it at the root. */
  lemma JoinRelativeParts(parent: Path, name: Path)
    ensures var joined := JoinRelative(parent, name);
            && parent <= joined
            && joined[|parent|..] == if parent == [] then name else [47] + name
  {
    assert parent + [SLASH] + name == parent + ([SLASH] + name);
  }

  /** A directory entry's name: not empty, without a slash, a C string. */
  predicate IsName(s: Path) {
    s != [] && IsCString(s) && SLASH !in s
  }

  /** `memcpy` into a buffer. */
  method CopyBytes(buffer: array<byte>, offset: nat, bytes: Bytes)
    requires offset + |bytes| <= buffer.Length
    modifies buffer
    ensures buffer[..offset] == old(buffer[..offset])
    ensures buffer[offset..offset + |bytes|] == bytes
    ensures buffer[offset + |bytes|..] == old(buffer[offset + |bytes|..])
  {
    forall k | 0 <= k < |bytes| {
      buffer[offset + k] := bytes[k];
    }
  }

  /** `vd_join_path`: the joined string and its terminator fill the buffer exactly. */
  method BuildJoinPath(root: Path, relative: Path, allocOk: bool) returns (joined: array?<byte>)
    ensures joined == null <==> !allocOk
    ensures joined != null ==> fresh(joined) && joined[..] == JoinPath(root, relative) + [0]
  {
    var needSep := |root| > 0 && root[|root| - 1] != SLASH;
    var total := |root| + (if needSep then 1 else 0) + |relative| + 1;
    if !allocOk {
      return null;
    }
    joined := new byte[total];
    CopyBytes(joined, 0, root);
    var offset := |root|;
    if needSep {
      joined[offset] := SLASH;
      offset := offset + 1;
    }
    ghost var front := if needSep then root + [SLASH] else root;
    assert joined[..offset] == front;
    CopyBytes(joined, offset, relative + [0]);
    assert joined[offset..] == relative + [0];
    assert joined[..] == front + (relative + [0]) == JoinPath(root, relative) + [0];
  }

  /** `vd_normalize_joined_relative`. */
  method BuildJoinRelative(parent: Path, name: Path, allocOk: bool) returns (path: array?<byte>)
    ensures path == null <==> !allocOk
    ensures path != null ==> fresh(path) && path[..] == JoinRelative(parent, name) + [0]
  {
    var total := |parent| + (if |parent| > 0 then 1 else 0) + |name| + 1;
    if !allocOk {
      return null;
    }
    path := new byte[total];
    var offset := 0;
    if |parent| > 0 {
      CopyBytes(path, 0, parent);
      offset := |parent|;
      path[offset] := SLASH;
      offset := offset + 1;
    }
    ghost var front := if parent == [] then [] else parent + [SLASH];
    assert path[..offset] == front;
    CopyBytes(path, offset, name + [0]);
    assert path[offset..] == name + [0];
    assert path[..] == front + (name + [0]) == JoinRelative(parent, name) + [0];
  }

  /** A path the scanner can have built: components joined by single slashes. */
  predicate EndsInName(relative: Path) {
    relative != [] && relative[|relative| - 1] != SLASH
  }

  /** The scanner appends a name to the absolute path of the directory it is in; the comparer
      joins the whole relative path to the root. Both name the same file, whether or not the
      root ends in a slash. */
  lemma ScannerAndComparerAgree(root: Path, relative: Path, name: Path)
    requires EndsInName(relative)
    ensures JoinPath(JoinPath(root, relative), name) == JoinPath(root, JoinRelative(relative, name))
  {
    var dir := JoinPath(root, relative);
    assert dir[|dir| - 1] == relative[|relative| - 1];
    if |root| > 0 && root[|root| - 1] != SLASH {
      assert (root + [SLASH] + relative) + [SLASH] + name == root + [SLASH] + (relative + [SLASH] + name);
    } else {
      assert (root + relative) + [SLASH] + name == root + (relative + [SLASH] + name);
    }
  }

  lemma JoinRelativeEndsInName(parent: Path, name: Path)
    requires IsName(name)
    ensures EndsInName(JoinRelative(parent, name))
  {
    var p := JoinRelative(parent, name);
    assert p[|p| - 1] == name[|name| - 1];
    assert name[|name| - 1] in name;
  }

  /** `path` is `dir` itself or lies somewhere below it. */
  predicate Under(dir: Path, path: Path) {
    dir == [] || path == dir || (dir + [SLASH] <= path)
  }

  lemma UnderParent(parent: Path, name: Path, path: Path)
    requires Under(JoinRelative(parent, name), path) && name != []
    ensures Under(parent, path)
  {
    if parent != [] {
      assert parent + [SLASH] <= JoinRelative(parent, name);
    }
  }

  /** Entries of one directory lead to disjoint sets of paths: the path below tells the name. */
  lemma PathTellsName(parent: Path, m: Path, n: Path, path: Path)
    requires IsName(m) && IsName(n)
    requires Under(JoinRelative(parent, m), path) && Under(JoinRelative(parent, n), path)
    ensures m == n
  {
    var skip := if parent == [] then 0 else |parent| + 1;
    var tail := path[skip..];
    assert HeadIs(m, tail) by { AssertHead(parent, m, path); }
    assert HeadIs(n, tail) by { AssertHead(parent, n, path); }
    SameHead(m, n, tail);
  }

  /** The first component of `tail` is `name`. */
  predicate HeadIs(name: Path, tail: Path) {
    tail == name || name + [SLASH] <= tail
  }

  lemma AssertHead(parent: Path, name: Path, path: Path)
    requires IsName(name) && Under(JoinRelative(parent, name), path)
    ensures var skip := if parent == [] then 0 else |parent| + 1;
            skip <= |path| && HeadIs(name, path[skip..])
  {
    var skip := if parent == [] then 0 else |parent| + 1;
    var full := JoinRelative(parent, name);
    assert full[skip..] == name;
    if path != full {
      assert path[..|full| + 1] == full + [SLASH];
      assert path[skip..][..|name| + 1] == name + [SLASH];
    }
  }

  /** The first component ends at the first slash, or at the end. */
  lemma HeadShape(name: Path, tail: Path)
    requires SLASH !in name && HeadIs(name, tail)
    ensures |name| <= |tail| && tail[..|name|] == name
    ensures forall k :: 0 <= k < |name| ==> tail[k] != SLASH
    ensures |name| == |tail| || tail[|name|] == SLASH
  {
    assert tail[..|name|] == name;
    forall k | 0 <= k < |name| ensures tail[k] != SLASH {
      assert tail[k] == name[k] && name[k] in name;
    }
  }

  lemma SameHead(m: Path, n: Path, tail: Path)
    requires SLASH !in m && SLASH !in n && HeadIs(m, tail) && HeadIs(n, tail)
    ensures m == n
  {
    HeadShape(m, tail);
    HeadShape(n, tail);
  }
}
