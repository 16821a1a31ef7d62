/** The directory tree a scan walks over, taken as an immutable value, and the files in it. */
module Tree {
  import opened Common
  import opened Paths

  /** What `lstat`, `opendir` and `readdir` report. The error fields are the errno values those
      calls would give; 0 means that they succeed. */
  datatype Node =
    | File(content: Bytes)
    | Directory(openError: Errno, entries: seq<Entry>, readError: Errno)
    | Special

  datatype Entry = Entry(name: Path, statError: Errno, node: Node)

  const DOT: byte := 46

  /** The entries "." and "..", which the scan steps over. */
  predicate IsDots(name: Path) {
    name == [DOT] || name == [DOT, DOT]
  }

  /** Names are proper and differ within one directory. */
  ghost predicate WellNamed(node: Node) {
    node.Directory? ==> EntriesWellNamed(node.entries)
  }

  ghost predicate EntriesWellNamed(entries: seq<Entry>) {
    entries != [] ==>
      && (!IsDots(entries[0].name) ==>
            && IsName(entries[0].name) && WellNamed(entries[0].node)
            && (forall j :: 0 < j < |entries| ==> entries[j].name != entries[0].name))
      && EntriesWellNamed(entries[1..])
  }

  /** The regular files below `node`, whose path relative to the root is `rel`. */
  ghost function FilesOf(rel: Path, node: Node): set<(Path, Bytes)>
    decreases node
  {
    match node
    case File(content) => {(rel, content)}
    case Directory(_, entries, _) => FilesIn(rel, entries)
    case Special => {}
  }

  ghost function FilesIn(rel: Path, entries: seq<Entry>): set<(Path, Bytes)>
    decreases entries
  {
    if entries == [] then {}
    else FilesOfEntry(rel, entries[0]) + FilesIn(rel, entries[1..])
  }

  ghost function FilesOfEntry(rel: Path, e: Entry): set<(Path, Bytes)>
    decreases e
  {
    if IsDots(e.name) then {} else FilesOf(JoinRelative(rel, e.name), e.node)
  }

  /** The number of regular files below a node. */
  function CountFiles(node: Node): nat {
    match node
    case File(_) => 1
    case Directory(_, entries, _) => CountFilesIn(entries)
    case Special => 0
  }

  function CountFilesIn(entries: seq<Entry>): nat {
    if entries == [] then 0
    else (if IsDots(entries[0].name) then 0 else CountFiles(entries[0].node)) + CountFilesIn(entries[1..])
  }

  /** No call on any visited node fails. */
  predicate Readable(node: Node) {
    node.Directory? ==> node.openError == OK && node.readError == OK && EntriesReadable(node.entries)
  }

  predicate EntriesReadable(entries: seq<Entry>) {
    entries != [] ==>
      && (IsDots(entries[0].name) || (entries[0].statError == OK && Readable(entries[0].node)))
      && EntriesReadable(entries[1..])
  }

  // ---------------------------------------------------------------- which files a tree holds

  /** The files found in a list of entries: its regular files under their names, and what lies in its
      directories; only the names "." and ".." are passed over. */
  lemma {:induction false} FilesInIff(rel: Path, entries: seq<Entry>, x: (Path, Bytes))
    ensures x in FilesIn(rel, entries) <==>
              exists i :: 0 <= i < |entries| && entries[i].name != [46] && entries[i].name != [46, 46] &&
                var e, below := entries[i], JoinRelative(rel, entries[i].name);
                (e.node.File? && x == (below, e.node.content)) || (e.node.Directory? && x in FilesOf(below, e.node))
  {
    if entries != [] {
      FilesInIff(rel, entries[1..], x);
      assert x in FilesOfEntry(rel, entries[0]) || x in FilesIn(rel, entries[1..]) <==> x in FilesIn(rel, entries);
      forall i | 0 <= i < |entries| - 1 ensures entries[1..][i] == entries[i + 1] {}
    }
  }

  /** Entry by entry the names lead from one node down to another; "." and ".." lead nowhere. */
  ghost predicate Leads(node: Node, names: seq<Path>, target: Node)
    decreases |names|
  {
    if names == [] then node == target
    else
      && node.Directory? && names[0] != [46] && names[0] != [46, 46]
      && exists i :: 0 <= i < |node.entries| && node.entries[i].name == names[0] &&
                     Leads(node.entries[i].node, names[1..], target)
  }

  /** The names one after the other below `rel`, with slashes between them. */
  function Slashed(rel: Path, names: seq<Path>): Path
    decreases |names|
  {
    if names == [] then rel else Slashed(if rel == [] then names[0] else rel + [47] + names[0], names[1..])
  }

  /** There is a regular file with this content at this path below the node. */
  ghost predicate FileAt(node: Node, rel: Path, x: (Path, Bytes)) {
    exists names :: Leads(node, names, File(x.1)) && x.0 == Slashed(rel, names)
  }

  lemma LeadsOn(node: Node, i: nat, names: seq<Path>, target: Node)
    requires node.Directory? && i < |node.entries| && Leads(node.entries[i].node, names, target)
    requires node.entries[i].name != [46] && node.entries[i].name != [46, 46]
    ensures Leads(node, [node.entries[i].name] + names, target)
  {
    assert ([node.entries[i].name] + names)[1..] == names;
  }

  /** Names lead from the node to this one. */
  ghost predicate Below(node: Node, d: Node) {
    exists names :: Leads(node, names, d)
  }

  lemma {:induction false} LeadsFurther(node: Node, names: seq<Path>, d: Node, i: nat)
    requires Leads(node, names, d) && d.Directory? && i < |d.entries|
    requires d.entries[i].name != [46] && d.entries[i].name != [46, 46]
    ensures Leads(node, names + [d.entries[i].name], d.entries[i].node)
    decreases |names|
  {
    var longer := names + [d.entries[i].name];
    if names != [] {
      var j :| 0 <= j < |node.entries| && node.entries[j].name == names[0] &&
               Leads(node.entries[j].node, names[1..], d);
      LeadsFurther(node.entries[j].node, names[1..], d, i);
      assert longer[1..] == names[1..] + [d.entries[i].name];
    } else {
      assert longer[1..] == [] && Leads(d.entries[i].node, [], d.entries[i].node);
    }
  }

  lemma BelowEntry(node: Node, d: Node, i: nat)
    requires Below(node, d) && d.Directory? && i < |d.entries|
    requires d.entries[i].name != [46] && d.entries[i].name != [46, 46]
    ensures Below(node, d.entries[i].node)
  {
    var names :| Leads(node, names, d);
    LeadsFurther(node, names, d, i);
  }

  /** The error of looking at some entry but "." and "..". */
  ghost predicate EntryError(entries: seq<Entry>, rc: Errno) {
    exists i :: 0 <= i < |entries| && entries[i].name != [46] && entries[i].name != [46, 46] &&
                rc == entries[i].statError
  }

  /** The error of some call on the tree. */
  ghost predicate TreeError(node: Node, rc: Errno) {
    exists d :: Below(node, d) && d.Directory? &&
                (rc == d.openError || rc == d.readError || EntryError(d.entries, rc))
  }

  /** The files of a tree are the regular files that names lead to, each under the names that lead to it. */
  lemma {:induction false} FilesOfIff(rel: Path, node: Node, x: (Path, Bytes))
    ensures x in FilesOf(rel, node) <==> FileAt(node, rel, x)
    decreases node
  {
    if node.Directory? {
      FilesInIff(rel, node.entries, x);
      if x in FilesOf(rel, node) {
        var i :| 0 <= i < |node.entries| && node.entries[i].name != [46] && node.entries[i].name != [46, 46] &&
                 x in FilesOf(JoinRelative(rel, node.entries[i].name), node.entries[i].node);
        var below := JoinRelative(rel, node.entries[i].name);
        FilesOfIff(below, node.entries[i].node, x);
        var names :| Leads(node.entries[i].node, names, File(x.1)) && x.0 == Slashed(below, names);
        LeadsOn(node, i, names, File(x.1));
        assert ([node.entries[i].name] + names)[1..] == names;
      }
      if FileAt(node, rel, x) {
        var names :| Leads(node, names, File(x.1)) && x.0 == Slashed(rel, names);
        var i :| 0 <= i < |node.entries| && node.entries[i].name == names[0] &&
                 Leads(node.entries[i].node, names[1..], File(x.1));
        FilesOfIff(JoinRelative(rel, names[0]), node.entries[i].node, x);
      }
    } else {
      assert Slashed(rel, []) == rel;
      assert node.File? ==> Leads(node, [], File(node.content));
    }
  }

  /** Every call on a directory itself succeeds: it opens, it is read to its end, and every entry but "."
      and ".." can be looked at. */
  ghost predicate ReadsWell(d: Node)
    requires d.Directory?
  {
    && d.openError == 0 && d.readError == 0
    && forall i :: 0 <= i < |d.entries| && d.entries[i].name != [46] && d.entries[i].name != [46, 46] ==>
         d.entries[i].statError == 0
  }

  lemma {:induction false} EntriesReadableIff(entries: seq<Entry>)
    ensures EntriesReadable(entries) <==>
              forall i :: 0 <= i < |entries| && entries[i].name != [46] && entries[i].name != [46, 46] ==>
                entries[i].statError == 0 && Readable(entries[i].node)
  {
    if entries != [] {
      EntriesReadableIff(entries[1..]);
      forall i | 0 <= i < |entries| - 1 ensures entries[1..][i] == entries[i + 1] {}
      assert forall i :: 0 < i < |entries| ==> entries[i] == entries[1..][i - 1];
    }
  }

  lemma {:induction false} ReadableBelow(node: Node, names: seq<Path>, d: Node)
    requires Readable(node) && Leads(node, names, d)
    ensures Readable(d)
    decreases |names|
  {
    if names != [] {
      EntriesReadableIff(node.entries);
      var i :| 0 <= i < |node.entries| && node.entries[i].name == names[0] &&
               Leads(node.entries[i].node, names[1..], d);
      ReadableBelow(node.entries[i].node, names[1..], d);
    }
  }

  ghost predicate AllReadWell(node: Node) {
    forall names, d :: Leads(node, names, d) && d.Directory? ==> ReadsWell(d)
  }

  lemma {:induction false} AllReadWellReadable(node: Node)
    requires AllReadWell(node)
    ensures Readable(node)
    decreases node
  {
    if node.Directory? {
      assert Leads(node, [], node) && ReadsWell(node);
      forall i | 0 <= i < |node.entries| && node.entries[i].name != [46] && node.entries[i].name != [46, 46]
        ensures Readable(node.entries[i].node)
      {
        forall names, d | Leads(node.entries[i].node, names, d) && d.Directory? ensures ReadsWell(d) {
          LeadsOn(node, i, names, d);
        }
        AllReadWellReadable(node.entries[i].node);
      }
      EntriesReadableIff(node.entries);
    }
  }

  /** A tree is readable exactly if every directory in it reads well. */
  lemma ReadableIff(node: Node)
    ensures Readable(node) <==> AllReadWell(node)
  {
    if Readable(node) {
      forall names, d | Leads(node, names, d) && d.Directory? ensures ReadsWell(d) {
        ReadableBelow(node, names, d);
        EntriesReadableIff(d.entries);
      }
    }
    if AllReadWell(node) {
      AllReadWellReadable(node);
    }
  }

  // ---------------------------------------------------------------- paths are unique

  lemma {:induction false} FilesUnder(rel: Path, node: Node)
    requires WellNamed(node)
    ensures forall x :: x in FilesOf(rel, node) ==> Under(rel, x.0)
    decreases node
  {
    if node.Directory? {
      FilesInUnder(rel, node.entries);
    }
  }

  /** Every file found in a list of entries lies under one of their names. */
  lemma {:induction false} FilesInUnder(rel: Path, entries: seq<Entry>)
    requires EntriesWellNamed(entries)
    ensures forall x :: x in FilesIn(rel, entries) ==> Under(rel, x.0)
    ensures forall x :: x in FilesIn(rel, entries) ==>
              exists e :: e in entries && !IsDots(e.name) && IsName(e.name) && Under(JoinRelative(rel, e.name), x.0)
    decreases entries
  {
    if entries != [] {
      FilesInUnder(rel, entries[1..]);
      var e := entries[0];
      if !IsDots(e.name) {
        var sub := JoinRelative(rel, e.name);
        FilesUnder(sub, e.node);
        forall x | x in FilesOf(sub, e.node) ensures Under(rel, x.0) {
          UnderParent(rel, e.name, x.0);
        }
        assert e in entries;
      }
    }
  }

  /** No two files of a set have the same path. */
  ghost predicate Unambiguous(files: set<(Path, Bytes)>) {
    forall x, y :: x in files && y in files && x.0 == y.0 ==> x == y
  }

  lemma {:induction false} FilesUnambiguous(rel: Path, node: Node)
    requires WellNamed(node)
    ensures Unambiguous(FilesOf(rel, node)) && |FilesOf(rel, node)| == CountFiles(node)
    decreases node
  {
    if node.Directory? {
      FilesInUnambiguous(rel, node.entries);
    }
  }

  /** Joined paths never collide, so the files of a directory are as many as its entries lead to. */
  lemma {:induction false} FilesInUnambiguous(rel: Path, entries: seq<Entry>)
    requires EntriesWellNamed(entries)
    ensures Unambiguous(FilesIn(rel, entries)) && |FilesIn(rel, entries)| == CountFilesIn(entries)
    decreases entries
  {
    if entries != [] {
      FilesInUnambiguous(rel, entries[1..]);
      if !IsDots(entries[0].name) {
        FilesUnambiguous(JoinRelative(rel, entries[0].name), entries[0].node);
        FirstEntryApart(rel, entries);
      }
    }
  }

  lemma FirstEntryApart(rel: Path, entries: seq<Entry>)
    requires EntriesWellNamed(entries) && entries != [] && !IsDots(entries[0].name)
    ensures forall x, y :: x in FilesOfEntry(rel, entries[0]) && y in FilesIn(rel, entries[1..]) ==> x.0 != y.0
    ensures FilesOfEntry(rel, entries[0]) !! FilesIn(rel, entries[1..])
  {
    var first, rest := entries[0], entries[1..];
    FilesUnder(JoinRelative(rel, first.name), first.node);
    FilesInUnder(rel, rest);
    forall x, y | x in FilesOfEntry(rel, first) && y in FilesIn(rel, rest) ensures x.0 != y.0 {
      var e :| e in rest && !IsDots(e.name) && IsName(e.name) && Under(JoinRelative(rel, e.name), y.0);
      if x.0 == y.0 {
        PathTellsName(rel, first.name, e.name, x.0);
      }
    }
  }

  // ---------------------------------------------------------------- the file system

  /** A file system: what is found at an absolute path. */
  type FileSystem = map<Path, Node>

  /** Below every directory, joining an entry's name to its path leads to that entry. */
  ghost predicate Closed(fs: FileSystem) {
    forall dir, i :: dir in fs && fs[dir].Directory? && 0 <= i < |fs[dir].entries| ==>
      var e := fs[dir].entries[i];
      !IsDots(e.name) ==> JoinPath(dir, e.name) in fs && fs[JoinPath(dir, e.name)] == e.node
  }

  /** The absolute path of the directory with this relative path, as the scan builds it. */
  function AbsoluteOf(root: Path, rel: Path): Path {
    if rel == [] then root else JoinPath(root, rel)
  }

  /** Scanner and comparer reach an entry by the same absolute path. */
  lemma AbsoluteOfEntry(root: Path, rel: Path, name: Path)
    requires (rel == [] || EndsInName(rel)) && IsName(name)
    ensures JoinPath(AbsoluteOf(root, rel), name) == JoinPath(root, JoinRelative(rel, name))
    ensures AbsoluteOf(root, JoinRelative(rel, name)) == JoinPath(root, JoinRelative(rel, name))
  {
    if rel != [] {
      ScannerAndComparerAgree(root, rel, name);
    }
    JoinRelativeEndsInName(rel, name);
  }

  /** The comparer opens, under the root joined with the whole relative path, exactly the file
      the scan found there. */
  lemma {:induction false} ComparerOpensFile(fs: FileSystem, root: Path, rel: Path, node: Node)
    requires Closed(fs) && WellNamed(node) && (rel == [] || EndsInName(rel))
    requires AbsoluteOf(root, rel) in fs && fs[AbsoluteOf(root, rel)] == node
    requires rel == [] ==> !node.File?
    ensures forall x :: x in FilesOf(rel, node) ==> JoinPath(root, x.0) in fs && fs[JoinPath(root, x.0)] == File(x.1)
    decreases node, 1
  {
    if node.Directory? {
      ComparerOpensFiles(fs, root, rel, node, 0);
    }
  }

  lemma {:induction false} ComparerOpensFiles(fs: FileSystem, root: Path, rel: Path, node: Node, i: nat)
    requires Closed(fs) && node.Directory? && i <= |node.entries| && (rel == [] || EndsInName(rel))
    requires EntriesWellNamed(node.entries[i..])
    requires AbsoluteOf(root, rel) in fs && fs[AbsoluteOf(root, rel)] == node
    ensures forall x :: x in FilesIn(rel, node.entries[i..]) ==>
              JoinPath(root, x.0) in fs && fs[JoinPath(root, x.0)] == File(x.1)
    decreases node, 0, |node.entries| - i
  {
    if i < |node.entries| {
      var e := node.entries[i];
      assert node.entries[i..][0] == e && node.entries[i..][1..] == node.entries[i + 1..];
      ComparerOpensFiles(fs, root, rel, node, i + 1);
      if !IsDots(e.name) {
        AbsoluteOfEntry(root, rel, e.name);
        JoinRelativeEndsInName(rel, e.name);
        ComparerOpensFile(fs, root, JoinRelative(rel, e.name), e.node);
      }
    }
  }
}
