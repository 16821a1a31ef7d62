/** src/scanner.c: the iterative walk over a directory tree with an explicit stack. */
module Scanner {
  import opened Common
  import opened Arena
  import opened FileIndex
  import opened Paths
  import opened Tree

  const ENOTDIR: Errno := 20

  datatype ScanFrame = ScanFrame(relative: Path, absolute: Path)

  class FrameStack {
    var items: array<ScanFrame>
    var count: nat

    ghost predicate Valid()
      reads this
    {
      count <= items.Length
    }

    ghost function Contents(): seq<ScanFrame>
      requires Valid()
      reads this, items
    {
      items[..count]
    }

    constructor ()
      ensures Valid() && fresh(items) && items.Length == 0 && Contents() == []
    {
      items := new ScanFrame[0];
      count := 0;
    }

    /** `frame_stack_push`. */
    method Push(frame: ScanFrame, growOk: bool) returns (rc: Errno)
      requires Valid()
      modifies this, items
      ensures Valid() && (items == old(items) || fresh(items))
      ensures rc == if growOk || old(count) < old(items.Length) then OK else ENOMEM
      ensures Contents() == if rc == OK then old(Contents()) + [frame] else old(Contents())
    {
      if count == items.Length {
        if !growOk {
          return ENOMEM;
        }
        var capacity := if items.Length == 0 then 32 else 2 * items.Length;
        var grown := new ScanFrame[capacity];
        for i := 0 to count
          invariant items == old(items) && count == old(count) && items[..] == old(items[..])
          invariant grown[..i] == items[..i]
        {
          grown[i] := items[i];
        }
        assert grown[..count] == items[..count];
        items := grown;
      }
      items[count] := frame;
      count := count + 1;
      rc := OK;
    }

    /** `frame_stack_pop`. */
    method Pop() returns (frame: Option<ScanFrame>)
      requires Valid()
      modifies this`count
      ensures Valid()
      ensures if old(Contents()) == [] then frame.None? && Contents() == []
              else frame.Some? && old(Contents()) == Contents() + [frame.value]
    {
      if count == 0 {
        return None;
      }
      count := count - 1;
      frame := Some(items[count]);
    }
  }

  // ---------------------------------------------------------------- what the stack stands for

  function NodeAt(fs: FileSystem, path: Path): Node {
    if path in fs then fs[path] else Special
  }

  ghost function FrameFiles(fs: FileSystem, f: ScanFrame): set<(Path, Bytes)> {
    FilesOf(f.relative, NodeAt(fs, f.absolute))
  }

  /** The files still to be found below the directories on the stack. */
  ghost function StackFiles(fs: FileSystem, frames: seq<ScanFrame>): set<(Path, Bytes)> {
    if frames == [] then {}
    else StackFiles(fs, frames[..|frames| - 1]) + FrameFiles(fs, frames[|frames| - 1])
  }

  ghost predicate StackReadable(fs: FileSystem, frames: seq<ScanFrame>) {
    frames != [] ==>
      StackReadable(fs, frames[..|frames| - 1]) && Readable(NodeAt(fs, frames[|frames| - 1].absolute))
  }

  /** A size that shrinks with every directory taken from the stack. */
  function Size(node: Node): nat {
    if node.Directory? then 1 + SizeIn(node.entries) else 1
  }

  function SizeIn(entries: seq<Entry>): nat {
    if entries == [] then 0 else Size(entries[0].node) + SizeIn(entries[1..])
  }

  ghost function StackSize(fs: FileSystem, frames: seq<ScanFrame>): nat {
    if frames == [] then 0
    else StackSize(fs, frames[..|frames| - 1]) + Size(NodeAt(fs, frames[|frames| - 1].absolute))
  }

  lemma StackPush(fs: FileSystem, frames: seq<ScanFrame>, f: ScanFrame)
    ensures StackFiles(fs, frames + [f]) == StackFiles(fs, frames) + FrameFiles(fs, f)
    ensures StackReadable(fs, frames + [f]) <==> StackReadable(fs, frames) && Readable(NodeAt(fs, f.absolute))
    ensures StackSize(fs, frames + [f]) == StackSize(fs, frames) + Size(NodeAt(fs, f.absolute))
  {
    assert (frames + [f])[..|frames|] == frames;
  }

  /** The frame of a directory below the root. */
  ghost predicate FrameOk(fs: FileSystem, root: Path, f: ScanFrame) {
    && IsCString(f.relative) && (f.relative == [] || EndsInName(f.relative))
    && f.absolute == AbsoluteOf(root, f.relative)
    && WellNamed(NodeAt(fs, f.absolute)) && Below(NodeAt(fs, root), NodeAt(fs, f.absolute))
  }

  /** The index entries for a set of files. */
  ghost function SizesOf(files: set<(Path, Bytes)>): map<Path, nat>
    requires Unambiguous(files)
  {
    map x | x in files :: x.0 := |x.1|
  }

  lemma SizesWithout(files: set<(Path, Bytes)>, x: (Path, Bytes))
    requires Unambiguous(files) && x in files
    ensures Unambiguous(files - {x}) && |SizesOf(files)| == |SizesOf(files - {x})| + 1
  {
    var all, rest := SizesOf(files), SizesOf(files - {x});
    assert x.0 !in rest.Keys;
    forall p ensures p in all.Keys <==> p in rest.Keys || p == x.0 {
      if p in all.Keys {
        var y :| y in files && y.0 == p;
        assert y != x ==> y in files - {x};
      }
    }
    assert all.Keys == rest.Keys + {x.0};
  }

  /** No two files share an entry: the index counts the files. */
  lemma {:induction false} SizesCount(files: set<(Path, Bytes)>)
    requires Unambiguous(files)
    ensures |SizesOf(files)| == |files|
    decreases |files|
  {
    if files != {} {
      var x :| x in files;
      var rest := files - {x};
      SizesCount(rest);
      SizesWithout(files, x);
    } else {
      assert SizesOf(files) == map[];
    }
  }

  // ---------------------------------------------------------------- the scan

  /** Which of the allocations made for one entry would succeed. */
  datatype Allocs = Allocs(relative: bool, absolute: bool, push: bool, grow: bool, copy: bool)

  predicate Granted(mem: Allocs) {
    mem.relative && mem.absolute && mem.push && mem.grow && mem.copy
  }

  ghost function FilePaths(files: set<(Path, Bytes)>): set<Path> {
    set x | x in files :: x.0
  }

  /** The paths an index can come to hold in the scan of some files stay below the limit. */
  ghost predicate Few(contents: map<Path, nat>, files: set<(Path, Bytes)>) {
    |contents.Keys + FilePaths(files)| < FILE_LIMIT
  }

  lemma SubsetSize<T>(s: set<T>, t: set<T>)
    requires s <= t
    ensures |s| <= |t|
  {
    assert t == s + (t - s);
  }

  /** What has been stored so far leaves room for the rest. */
  lemma FewLeft(base: map<Path, nat>, files: set<(Path, Bytes)>, done: set<(Path, Bytes)>, contents: map<Path, nat>,
                rest: set<(Path, Bytes)>)
    requires Few(base, files) && done <= files && rest <= files && Unambiguous(done)
    requires contents == base + SizesOf(done)
    ensures Few(contents, rest) && |contents| < FILE_LIMIT
  {
    assert SizesOf(done).Keys <= FilePaths(files);
    SubsetSize(contents.Keys + FilePaths(rest), base.Keys + FilePaths(files));
    SubsetSize(contents.Keys, base.Keys + FilePaths(files));
  }

  function ChildOf(frame: ScanFrame, e: Entry): ScanFrame {
    ScanFrame(JoinRelative(frame.relative, e.name), JoinPath(frame.absolute, e.name))
  }

  /** What an entry does to the stack and to the index. */
  function FramesAfter(frame: ScanFrame, e: Entry, frames: seq<ScanFrame>): seq<ScanFrame> {
    if !IsDots(e.name) && e.node.Directory? then frames + [ChildOf(frame, e)] else frames
  }

  function ContentsAfter(frame: ScanFrame, e: Entry, contents: map<Path, nat>): map<Path, nat> {
    if !IsDots(e.name) && e.node.File? then contents[ChildOf(frame, e).relative := |e.node.content|] else contents
  }

  /** Stack and index are sound and share no memory. */
  ghost predicate Ready(stack: FrameStack, index: FileIndex)
    reads stack, index, index.slots, index.arena, index.arena.Repr
    ensures Ready(stack, index) ==> stack.Valid()
  {
    && stack.Valid() && index.Valid() && index.arena.Valid()
    && stack.items as object !in index.arena.Repr && stack !in index.arena.Repr
  }

  /** The memory a scan writes to. */
  ghost function Footprint(stack: FrameStack, index: FileIndex): set<object>
    reads stack, index, index.arena
  {
    {stack, stack.items} + IndexFootprint(index)
  }

  ghost function IndexFootprint(index: FileIndex): set<object>
    reads index, index.arena
  {
    {index, index.slots} + index.arena.Repr
  }

  /** The two path strings of an entry. */
  method EntryPaths(frame: ScanFrame, name: Path, mem: Allocs) returns (paths: Option<(Path, Path)>)
    ensures paths.Some? <==> mem.relative && mem.absolute
    ensures paths.Some? ==> paths.value == (JoinRelative(frame.relative, name), JoinPath(frame.absolute, name))
  {
    var rel := BuildJoinRelative(frame.relative, name, mem.relative);
    var abs := BuildJoinPath(frame.absolute, name, mem.absolute);
    if rel == null || abs == null {
      return None;
    }
    ghost var r, a := JoinRelative(frame.relative, name), JoinPath(frame.absolute, name);
    assert (r + [0])[..|r|] == r && (a + [0])[..|a|] == a;
    paths := Some((rel[..][..rel.Length - 1], abs[..][..abs.Length - 1]));
  }

  /** The frame of an entry is a proper one again: path construction stays in step. */
  lemma ChildFrameOk(fs: FileSystem, root: Path, frame: ScanFrame, e: Entry)
    requires FrameOk(fs, root, frame) && IsName(e.name) && WellNamed(e.node) && !IsDots(e.name)
    requires NodeAt(fs, frame.absolute).Directory? && e in NodeAt(fs, frame.absolute).entries
    requires NodeAt(fs, JoinPath(frame.absolute, e.name)) == e.node
    ensures FrameOk(fs, root, ChildOf(frame, e)) && IsCString(ChildOf(frame, e).relative)
  {
    AbsoluteOfEntry(root, frame.relative, e.name);
    JoinRelativeEndsInName(frame.relative, e.name);
    var d := NodeAt(fs, frame.absolute);
    var i :| 0 <= i < |d.entries| && d.entries[i] == e;
    BelowEntry(NodeAt(fs, root), d, i);
  }

  method PushFrame(frame: ScanFrame, stack: FrameStack, index: FileIndex, growOk: bool) returns (rc: Errno)
    requires Ready(stack, index)
    modifies Footprint(stack, index)
    ensures Ready(stack, index) && index.contents == old(index.contents)
    ensures fresh(Footprint(stack, index) - old(Footprint(stack, index)))
    ensures (rc == OK || rc == ENOMEM) && (growOk ==> rc == OK)
    ensures stack.Contents() == if rc == OK then old(stack.Contents()) + [frame] else old(stack.Contents())
  {
    hide FileIndex.Valid, StringArena.Valid;
    rc := stack.Push(frame, growOk);
    index.arena.Untouched();
  }

  method IndexFile(path: Path, size: nat, stack: FrameStack, index: FileIndex, mem: Allocs) returns (rc: Errno)
    requires Ready(stack, index) && IsCString(path)
    modifies Footprint(stack, index)
    ensures Ready(stack, index) && stack.Contents() == old(stack.Contents())
    ensures fresh(Footprint(stack, index) - old(Footprint(stack, index)))
    ensures rc == OK || rc == ENOMEM
    ensures Granted(mem) && |old(index.contents)| < FILE_LIMIT ==> rc == OK
    ensures index.contents == if rc == OK then old(index.contents)[path := size] else old(index.contents)
  {
    hide FileIndex.Valid, StringArena.Valid;
    rc := index.Upsert(path, size, mem.grow, mem.copy);
  }

  /** The body of the `readdir` loop for one entry that is not "." or "..". */
  method ScanEntry(fs: FileSystem, ghost root: Path, frame: ScanFrame, e: Entry, stack: FrameStack, index: FileIndex,
                   mem: Allocs)
    returns (rc: Errno)
    requires FrameOk(fs, root, frame) && IsName(e.name) && WellNamed(e.node)
    requires NodeAt(fs, frame.absolute).Directory? && e in NodeAt(fs, frame.absolute).entries
    requires JoinPath(frame.absolute, e.name) in fs && fs[JoinPath(frame.absolute, e.name)] == e.node
    requires Ready(stack, index)
    requires !IsDots(e.name)
    modifies Footprint(stack, index)
    ensures Ready(stack, index)
    ensures fresh(Footprint(stack, index) - old(Footprint(stack, index)))
    ensures rc == OK ==> e.statError == OK
    ensures rc == OK || rc == ENOMEM || rc == e.statError
    ensures e.statError == OK ==> rc == OK || rc == ENOMEM
    ensures e.statError == OK && Granted(mem) && |old(index.contents)| < FILE_LIMIT ==> rc == OK
    ensures FrameOk(fs, root, ChildOf(frame, e))
    ensures stack.Contents() == if rc == OK then FramesAfter(frame, e, old(stack.Contents())) else old(stack.Contents())
    ensures index.contents == if rc == OK then ContentsAfter(frame, e, old(index.contents)) else old(index.contents)
  {
    hide Ready, FrameOk, WellNamed, JoinRelative, JoinPath, IsName, FrameStack.Contents, IsCString;
    ChildFrameOk(fs, root, frame, e);
    var paths := EntryPaths(frame, e.name, mem);
    if paths.None? {
      return ENOMEM;
    }
    var (rel, abs) := paths.value;
    if e.statError != OK {
      return e.statError;
    }
    rc := Dispatch(fs[abs], ScanFrame(rel, abs), stack, index, mem);
  }

  /** `S_ISDIR` and `S_ISREG`: a directory goes on the stack, a regular file into the index,
      anything else is passed over. */
  method Dispatch(node: Node, child: ScanFrame, stack: FrameStack, index: FileIndex, mem: Allocs) returns (rc: Errno)
    requires Ready(stack, index) && IsCString(child.relative)
    modifies Footprint(stack, index)
    ensures Ready(stack, index)
    ensures fresh(Footprint(stack, index) - old(Footprint(stack, index)))
    ensures rc == OK || rc == ENOMEM
    ensures Granted(mem) && |old(index.contents)| < FILE_LIMIT ==> rc == OK
    ensures stack.Contents() == if rc == OK && node.Directory? then old(stack.Contents()) + [child]
                                else old(stack.Contents())
    ensures index.contents == if rc == OK && node.File? then old(index.contents)[child.relative := |node.content|]
                              else old(index.contents)
  {
    hide Ready;
    match node
    case Directory(_, _, _) =>
      rc := PushFrame(child, stack, index, mem.push);
    case File(content) =>
      rc := IndexFile(child.relative, |content|, stack, index, mem);
    case Special =>
      rc := OK;
  }

  ghost predicate AllFramesOk(fs: FileSystem, root: Path, frames: seq<ScanFrame>) {
    forall f :: f in frames ==> FrameOk(fs, root, f) && (f.relative == [] || NodeAt(fs, f.absolute).Directory?)
  }

  /** How the index and the stack account for the entries of one directory: what entered the
      index is `added`, the rest waits on the stack. */
  ghost predicate Accounted(fs: FileSystem, before: seq<ScanFrame>, after: seq<ScanFrame>, rel: Path,
                            entries: seq<Entry>, added: set<(Path, Bytes)>) {
    && added + StackFiles(fs, after) == StackFiles(fs, before) + FilesIn(rel, entries)
    && added <= FilesIn(rel, entries)
    && (StackReadable(fs, after) <==> StackReadable(fs, before) && EntriesReadable(entries))
    && StackSize(fs, after) <= StackSize(fs, before) + SizeIn(entries)
  }

  lemma FilesInSplit(rel: Path, entries: seq<Entry>, i: nat)
    requires i < |entries|
    ensures FilesIn(rel, entries[..i + 1]) == FilesIn(rel, entries[..i]) + FilesOfEntry(rel, entries[i])
    ensures EntriesReadable(entries[..i + 1]) <==>
              EntriesReadable(entries[..i]) &&
              (IsDots(entries[i].name) || (entries[i].statError == OK && Readable(entries[i].node)))
    ensures SizeIn(entries[..i + 1]) == SizeIn(entries[..i]) + Size(entries[i].node)
    decreases i
  {
    var head := entries[..i + 1];
    if i == 0 {
      assert head == [entries[0]] && head[1..] == [] && entries[..0] == [];
    } else {
      FilesInSplit(rel, entries[1..], i - 1);
      assert head[1..] == entries[1..][..i] && entries[..i][1..] == entries[1..][..i - 1];
    }
  }

  /** What is known after i entries of a directory: value-level state of the `readdir` loop. */
  ghost predicate Progress(fs: FileSystem, root: Path, frame: ScanFrame, entries: seq<Entry>, i: nat,
                           base: map<Path, nat>, before: seq<ScanFrame>, contents: map<Path, nat>,
                           frames: seq<ScanFrame>, added: set<(Path, Bytes)>)
    requires i <= |entries|
  {
    && AllFramesOk(fs, root, frames)
    && Accounted(fs, before, frames, frame.relative, entries[..i], added)
    && added <= FilesIn(frame.relative, entries)
    && Unambiguous(added) && contents == base + SizesOf(added)
  }

  ghost function AddedAfter(frame: ScanFrame, e: Entry, added: set<(Path, Bytes)>): set<(Path, Bytes)> {
    if !IsDots(e.name) && e.node.File? then added + {(ChildOf(frame, e).relative, e.node.content)} else added
  }

  /** One more entry accounted for. */
  lemma AccountEntry(fs: FileSystem, before: seq<ScanFrame>, mid: seq<ScanFrame>, frame: ScanFrame,
                     entries: seq<Entry>, i: nat, added: set<(Path, Bytes)>)
    requires i < |entries| && Accounted(fs, before, mid, frame.relative, entries[..i], added)
    requires var e := entries[i]; !IsDots(e.name) ==>
               e.statError == OK && NodeAt(fs, JoinPath(frame.absolute, e.name)) == e.node
    ensures var e := entries[i];
            Accounted(fs, before, FramesAfter(frame, e, mid), frame.relative, entries[..i + 1],
                      AddedAfter(frame, e, added))
  {
    FilesInSplit(frame.relative, entries, i);
    StackPush(fs, mid, ChildOf(frame, entries[i]));
  }

  lemma ProgressStart(fs: FileSystem, root: Path, frame: ScanFrame, entries: seq<Entry>, contents: map<Path, nat>,
                      frames: seq<ScanFrame>)
    requires AllFramesOk(fs, root, frames)
    ensures Progress(fs, root, frame, entries, 0, contents, frames, contents, frames, {})
  {
    assert entries[..0] == [];
    assert contents + SizesOf({}) == contents;
  }

  lemma ProgressStep(fs: FileSystem, root: Path, frame: ScanFrame, entries: seq<Entry>, i: nat, base: map<Path, nat>,
                     before: seq<ScanFrame>, contents: map<Path, nat>, frames: seq<ScanFrame>,
                     added: set<(Path, Bytes)>)
    requires i < |entries| && Progress(fs, root, frame, entries, i, base, before, contents, frames, added)
    requires Unambiguous(FilesIn(frame.relative, entries))
    requires var e := entries[i];
             !IsDots(e.name) ==>
               e.statError == OK && NodeAt(fs, JoinPath(frame.absolute, e.name)) == e.node &&
               FrameOk(fs, root, ChildOf(frame, e))
    ensures var e := entries[i];
            Progress(fs, root, frame, entries, i + 1, base, before,
                     ContentsAfter(frame, e, contents), FramesAfter(frame, e, frames), AddedAfter(frame, e, added))
  {
    var e := entries[i];
    AccountEntry(fs, before, frames, frame, entries, i, added);
    EntryFilesIn(frame.relative, entries, i);
    if !IsDots(e.name) && e.node.File? {
      var x := (ChildOf(frame, e).relative, e.node.content);
      assert added + {x} <= FilesIn(frame.relative, entries);
      SizesOfAdd(base, added, x.0, x.1);
    }
  }

  lemma {:induction false} EntryFilesIn(rel: Path, entries: seq<Entry>, i: nat)
    requires i < |entries|
    ensures FilesOfEntry(rel, entries[i]) <= FilesIn(rel, entries)
  {
    if i > 0 {
      EntryFilesIn(rel, entries[1..], i - 1);
    }
  }

  lemma SizesOfAt(files: set<(Path, Bytes)>, x: (Path, Bytes))
    requires Unambiguous(files) && x in files
    ensures x.0 in SizesOf(files) && SizesOf(files)[x.0] == |x.1|
  {
  }

  lemma SizesOfInsert(files: set<(Path, Bytes)>, x: (Path, Bytes))
    requires Unambiguous(files + {x}) && Unambiguous(files)
    ensures SizesOf(files + {x}) == SizesOf(files)[x.0 := |x.1|]
  {
    var l, r := SizesOf(files + {x}), SizesOf(files)[x.0 := |x.1|];
    forall p ensures p in l <==> p in r {
      InsertKeys(files, x, p);
    }
    forall p | p in l ensures l[p] == r[p] {
      var y :| y in files + {x} && y.0 == p;
      SizesOfAt(files + {x}, y);
      if y in files { SizesOfAt(files, y); }
    }
  }

  lemma InsertKeys(files: set<(Path, Bytes)>, x: (Path, Bytes), p: Path)
    requires Unambiguous(files + {x}) && Unambiguous(files)
    ensures p in SizesOf(files + {x}) <==> p in SizesOf(files) || p == x.0
  {
    SizesOfAt(files + {x}, x);
    if p in SizesOf(files) {
      var y :| y in files && y.0 == p;
      SizesOfAt(files + {x}, y);
    }
  }

  /** Storing one more file extends the index entries by that file. */
  lemma SizesOfAdd(base: map<Path, nat>, files: set<(Path, Bytes)>, path: Path, content: Bytes)
    requires Unambiguous(files + {(path, content)})
    ensures Unambiguous(files)
    ensures (base + SizesOf(files))[path := |content|] == base + SizesOf(files + {(path, content)})
  {
    var x := (path, content);
    assert forall y :: y in files ==> y in files + {x};
    SizesOfInsert(files, x);
    UpdateMerged(base, SizesOf(files), path, |content|);
  }

  lemma UpdateMerged(base: map<Path, nat>, m: map<Path, nat>, p: Path, n: nat)
    ensures (base + m)[p := n] == base + m[p := n]
  {
  }

  /** An entry that is not a dot entry, as the file system and the naming rules see it. */
  lemma EntryFacts(fs: FileSystem, dir: Path, i: nat)
    requires Closed(fs) && dir in fs && fs[dir].Directory? && i < |fs[dir].entries| && WellNamed(fs[dir])
    ensures var e := fs[dir].entries[i];
            !IsDots(e.name) ==>
              IsName(e.name) && WellNamed(e.node) && JoinPath(dir, e.name) in fs && fs[JoinPath(dir, e.name)] == e.node
  {
    EntriesFacts(fs[dir].entries, i);
  }

  lemma {:induction false} EntriesFacts(entries: seq<Entry>, i: nat)
    requires EntriesWellNamed(entries) && i < |entries|
    ensures !IsDots(entries[i].name) ==> IsName(entries[i].name) && WellNamed(entries[i].node)
  {
    if i > 0 {
      EntriesFacts(entries[1..], i - 1);
    }
  }

  /** What a directory has added so far leaves room for the next entry. */
  lemma ProgressFew(fs: FileSystem, root: Path, frame: ScanFrame, entries: seq<Entry>, i: nat, base: map<Path, nat>,
                    before: seq<ScanFrame>, contents: map<Path, nat>, frames: seq<ScanFrame>,
                    added: set<(Path, Bytes)>)
    requires i <= |entries| && Progress(fs, root, frame, entries, i, base, before, contents, frames, added)
    ensures Few(base, FilesIn(frame.relative, entries)) ==> |contents| < FILE_LIMIT
  {
    hide Few, AllFramesOk, Accounted, SizesOf;
    if Few(base, FilesIn(frame.relative, entries)) {
      FewLeft(base, FilesIn(frame.relative, entries), added, contents, {});
    }
  }

  /** One round of the `readdir` loop. */
  method ScanNext(fs: FileSystem, ghost root: Path, frame: ScanFrame, entries: seq<Entry>, k: nat, stack: FrameStack,
                  index: FileIndex, mem: Allocs, ghost base: map<Path, nat>, ghost before: seq<ScanFrame>,
                  ghost added: set<(Path, Bytes)>)
    returns (rc: Errno, ghost added': set<(Path, Bytes)>)
    requires Closed(fs) && FrameOk(fs, root, frame) && Unambiguous(FilesIn(frame.relative, entries))
    requires frame.absolute in fs && fs[frame.absolute].Directory? && fs[frame.absolute].entries == entries
    requires k < |entries| && Ready(stack, index)
    requires Progress(fs, root, frame, entries, k, base, before, index.contents, stack.Contents(), added)
    modifies Footprint(stack, index)
    ensures Ready(stack, index)
    ensures fresh(Footprint(stack, index) - old(Footprint(stack, index)))
    ensures rc == OK ==>
              Progress(fs, root, frame, entries, k + 1, base, before, index.contents, stack.Contents(), added')
    ensures rc != OK ==> Progress(fs, root, frame, entries, k, base, before, index.contents, stack.Contents(), added')
    ensures rc == OK || rc == ENOMEM || EntryError(entries, rc)
    ensures EntriesReadable(entries) ==> rc == OK || rc == ENOMEM
    ensures EntriesReadable(entries) && Granted(mem) && Few(base, FilesIn(frame.relative, entries)) ==> rc == OK
  {
    hide Ready, Closed, Progress, Few, Unambiguous, EntriesReadable, FilesIn, Granted, WellNamed, IsName, Below;
    hide FileIndex.Valid, StringArena.Valid;
    var e := entries[k];
    ghost var frames, contents := stack.Contents(), index.contents;
    EntryFacts(fs, frame.absolute, k);
    EntriesReadableAt(entries, k);
    ProgressFew(fs, root, frame, entries, k, base, before, contents, frames, added);
    rc, added' := OK, added;
    if !IsDots(e.name) {
      rc := ScanEntry(fs, root, frame, e, stack, index, mem);
    }
    if rc == OK {
      ProgressStep(fs, root, frame, entries, k, base, before, contents, frames, added);
      added' := AddedAfter(frame, e, added);
    }
  }

  lemma {:induction false} EntriesReadableAt(entries: seq<Entry>, i: nat)
    requires i < |entries|
    ensures EntriesReadable(entries) && !IsDots(entries[i].name) ==> entries[i].statError == OK
  {
    if i > 0 {
      EntriesReadableAt(entries[1..], i - 1);
    }
  }

  /** The `readdir` loop over one directory. */
  method ScanEntries(fs: FileSystem, ghost root: Path, frame: ScanFrame, entries: seq<Entry>, stack: FrameStack,
                     index: FileIndex, mem: nat -> Allocs)
    returns (rc: Errno, ghost i: nat, ghost added: set<(Path, Bytes)>)
    requires Closed(fs) && FrameOk(fs, root, frame) && Unambiguous(FilesIn(frame.relative, entries))
    requires frame.absolute in fs && fs[frame.absolute].Directory? && fs[frame.absolute].entries == entries
    requires Ready(stack, index) && AllFramesOk(fs, root, stack.Contents())
    modifies Footprint(stack, index)
    ensures Ready(stack, index)
    ensures fresh(Footprint(stack, index) - old(Footprint(stack, index)))
    ensures i <= |entries|
    ensures Progress(fs, root, frame, entries, i, old(index.contents), old(stack.Contents()), index.contents,
                     stack.Contents(), added)
    ensures rc == OK ==> i == |entries|
    ensures rc == OK || rc == ENOMEM || EntryError(entries, rc)
    ensures EntriesReadable(entries) ==> rc == OK || rc == ENOMEM
    ensures EntriesReadable(entries) && (forall n :: Granted(mem(n))) &&
            Few(old(index.contents), FilesIn(frame.relative, entries)) ==>
              rc == OK
  {
    hide Ready, Progress, Closed, FrameOk, Unambiguous, EntriesReadable, Granted, Few, EntryError;
    rc, i, added := OK, 0, {};
    ghost var base, before := index.contents, stack.Contents();
    ProgressStart(fs, root, frame, entries, base, before);
    var k := 0;
    while k < |entries|
      invariant i == k <= |entries| && rc == OK
      invariant Ready(stack, index)
      invariant fresh(Footprint(stack, index) - old(Footprint(stack, index)))
      invariant Progress(fs, root, frame, entries, k, base, before, index.contents, stack.Contents(), added)
    {
      rc, added := ScanNext(fs, root, frame, entries, k, stack, index, mem(k), base, before, added);
      if rc != OK {
        break;
      }
      k, i := k + 1, i + 1;
    }
  }

  /** What is known between two directories: the files found so far are in the index, the rest
      lies below the directories on the stack. */
  ghost predicate Walk(fs: FileSystem, root: Path, base: map<Path, nat>, contents: map<Path, nat>,
                       frames: seq<ScanFrame>, done: set<(Path, Bytes)>) {
    && AllFramesOk(fs, root, frames)
    && done + StackFiles(fs, frames) == FilesOf([], NodeAt(fs, root))
    && Found(fs, root, base, contents, done)
    && (StackReadable(fs, frames) <==> Readable(NodeAt(fs, root)))
  }

  /** The index has gained exactly the files `done` of the tree. */
  ghost predicate Found(fs: FileSystem, root: Path, base: map<Path, nat>, contents: map<Path, nat>,
                        done: set<(Path, Bytes)>) {
    && done <= FilesOf([], NodeAt(fs, root)) && Unambiguous(FilesOf([], NodeAt(fs, root)))
    && Unambiguous(done) && contents == base + SizesOf(done)
  }

  lemma WalkStart(fs: FileSystem, root: Path, base: map<Path, nat>)
    requires WellNamed(NodeAt(fs, root))
    ensures Walk(fs, root, base, base, [ScanFrame([], root)], {})
  {
    FilesUnambiguous([], NodeAt(fs, root));
    assert Leads(NodeAt(fs, root), [], NodeAt(fs, root));
    StackPush(fs, [], ScanFrame([], root));
    assert [] + [ScanFrame([], root)] == [ScanFrame([], root)];
    assert base + SizesOf({}) == base;
  }

  /** The files of one directory, at most, have been added. */
  lemma FoundMore(fs: FileSystem, root: Path, base: map<Path, nat>, mid: map<Path, nat>, contents: map<Path, nat>,
                  done: set<(Path, Bytes)>, added: set<(Path, Bytes)>)
    requires Found(fs, root, base, mid, done) && added <= FilesOf([], NodeAt(fs, root)) && Unambiguous(added)
    requires contents == mid + SizesOf(added)
    ensures Found(fs, root, base, contents, done + added)
  {
    assert Unambiguous(done + added);
    SizesOfUnion(base, done, added);
  }

  lemma SizesOfUnion(base: map<Path, nat>, s: set<(Path, Bytes)>, t: set<(Path, Bytes)>)
    requires Unambiguous(s + t) && Unambiguous(s) && Unambiguous(t)
    ensures (base + SizesOf(s)) + SizesOf(t) == base + SizesOf(s + t)
  {
    hide SizesOf, Unambiguous;
    var l, r := (base + SizesOf(s)) + SizesOf(t), base + SizesOf(s + t);
    forall p ensures p in l <==> p in r {
      UnionKeys(s, t, p);
    }
    forall p | p in l ensures l[p] == r[p] {
      UnionKeys(s, t, p);
      UnionLookup(s, t, p);
    }
  }

  lemma UnionLookup(s: set<(Path, Bytes)>, t: set<(Path, Bytes)>, p: Path)
    requires Unambiguous(s + t) && Unambiguous(s) && Unambiguous(t)
    ensures p in SizesOf(t) ==> p in SizesOf(s + t) && SizesOf(s + t)[p] == SizesOf(t)[p]
    ensures p in SizesOf(s) && p !in SizesOf(t) ==> p in SizesOf(s + t) && SizesOf(s + t)[p] == SizesOf(s)[p]
  {
    if p in SizesOf(t) {
      var y :| y in t && y.0 == p;
      SizesOfAt(s + t, y);
      SizesOfAt(t, y);
    } else if p in SizesOf(s) {
      var y :| y in s && y.0 == p;
      SizesOfAt(s + t, y);
      SizesOfAt(s, y);
    }
  }

  lemma UnionKeys(s: set<(Path, Bytes)>, t: set<(Path, Bytes)>, p: Path)
    requires Unambiguous(s + t) && Unambiguous(s) && Unambiguous(t)
    ensures p in SizesOf(s + t) <==> p in SizesOf(s) || p in SizesOf(t)
  {
    if p in SizesOf(s) {
      var y :| y in s && y.0 == p;
      SizesOfAt(s + t, y);
    }
    if p in SizesOf(t) {
      var y :| y in t && y.0 == p;
      SizesOfAt(s + t, y);
    }
  }

  /** A directory taken from the stack and read to its end. */
  lemma WalkStep(fs: FileSystem, root: Path, base: map<Path, nat>, contents: map<Path, nat>, frames: seq<ScanFrame>,
                 done: set<(Path, Bytes)>, frame: ScanFrame, contents': map<Path, nat>, frames': seq<ScanFrame>,
                 added: set<(Path, Bytes)>)
    requires Walk(fs, root, base, contents, frames + [frame], done)
    requires var d := NodeAt(fs, frame.absolute);
             d.Directory? && d.openError == OK && d.readError == OK &&
             Progress(fs, root, frame, d.entries, |d.entries|, contents, frames, contents', frames', added)
    ensures Walk(fs, root, base, contents', frames', done + added)
    ensures StackSize(fs, frames') < StackSize(fs, frames + [frame])
  {
    var d := NodeAt(fs, frame.absolute);
    StackPush(fs, frames, frame);
    assert d.entries[..|d.entries|] == d.entries;
    FoundMore(fs, root, base, contents, contents', done, added);
  }

  /** What the walk knows of the directory it has just taken from the stack. */
  lemma WalkTop(fs: FileSystem, root: Path, base: map<Path, nat>, contents: map<Path, nat>, frames: seq<ScanFrame>,
                frame: ScanFrame, done: set<(Path, Bytes)>)
    requires Walk(fs, root, base, contents, frames + [frame], done)
    ensures Found(fs, root, base, contents, done) && AllFramesOk(fs, root, frames) && FrameOk(fs, root, frame)
    ensures var d := NodeAt(fs, frame.absolute);
            && FilesOf(frame.relative, d) <= FilesOf([], NodeAt(fs, root)) && Unambiguous(FilesOf(frame.relative, d))
            && (Readable(NodeAt(fs, root)) ==> Readable(d))
            && (NodeAt(fs, root).Directory? ==> d.Directory?) && Below(NodeAt(fs, root), d)
  {
    StackPush(fs, frames, frame);
    assert frame in frames + [frame];
    assert forall f :: f in frames ==> f in frames + [frame];
  }

  /** The files of the directory still have room in the index. */
  lemma WalkFew(fs: FileSystem, root: Path, base: map<Path, nat>, contents: map<Path, nat>, done: set<(Path, Bytes)>,
                frame: ScanFrame)
    requires Found(fs, root, base, contents, done)
    requires FilesOf(frame.relative, NodeAt(fs, frame.absolute)) <= FilesOf([], NodeAt(fs, root))
    ensures Few(base, FilesOf([], NodeAt(fs, root))) ==>
              Few(contents, FilesOf(frame.relative, NodeAt(fs, frame.absolute)))
  {
    hide Few, SizesOf;
    if Few(base, FilesOf([], NodeAt(fs, root))) {
      FewLeft(base, FilesOf([], NodeAt(fs, root)), done, contents,
              FilesOf(frame.relative, NodeAt(fs, frame.absolute)));
    }
  }

  /** One round of the outer loop: `opendir`, the entries, and the error `readdir` ends with. */
  method VisitDirectory(fs: FileSystem, ghost root: Path, frame: ScanFrame, stack: FrameStack, index: FileIndex,
                        mem: nat -> Allocs, ghost base: map<Path, nat>, ghost done: set<(Path, Bytes)>)
    returns (rc: Errno, ghost done': set<(Path, Bytes)>)
    requires Closed(fs) && Ready(stack, index)
    requires Walk(fs, root, base, index.contents, stack.Contents() + [frame], done)
    modifies Footprint(stack, index)
    ensures Ready(stack, index)
    ensures fresh(Footprint(stack, index) - old(Footprint(stack, index)))
    ensures Found(fs, root, base, index.contents, done')
    ensures rc == OK ==>
              Walk(fs, root, base, index.contents, stack.Contents(), done') && NodeAt(fs, frame.absolute).Directory?
    ensures rc == OK ==> StackSize(fs, stack.Contents()) < StackSize(fs, old(stack.Contents()) + [frame])
    ensures NodeAt(fs, root).Directory? ==> rc == OK || rc == ENOMEM || TreeError(NodeAt(fs, root), rc)
    ensures NodeAt(fs, root).Directory? && Readable(NodeAt(fs, root)) ==> rc == OK || rc == ENOMEM
    ensures NodeAt(fs, root).Directory? && Readable(NodeAt(fs, root)) && (forall n :: Granted(mem(n))) &&
            Few(base, FilesOf([], NodeAt(fs, root))) ==>
              rc == OK
  {
    hide Ready, Footprint, Closed, EntriesReadable, FilesIn, Unambiguous, Walk, Found, FrameOk, AllFramesOk, Accounted;
    hide Granted, Few, EntryError;
    ghost var frames, contents := stack.Contents(), index.contents;
    WalkTop(fs, root, base, contents, frames, frame, done);
    WalkFew(fs, root, base, contents, done, frame);
    done' := done;
    if frame.absolute !in fs {
      rc := ENOENT;
    } else if !fs[frame.absolute].Directory? {
      rc := ENOTDIR;
    } else if fs[frame.absolute].openError != OK {
      rc := fs[frame.absolute].openError;
    } else {
      ghost var i, added;
      rc, i, added := ScanEntries(fs, root, frame, fs[frame.absolute].entries, stack, index, mem);
      done' := done + added;
      FoundMore(fs, root, base, contents, index.contents, done, added);
      if rc == OK {
        if fs[frame.absolute].readError == OK {
          WalkStep(fs, root, base, contents, frames, done, frame, index.contents, stack.Contents(), added);
        }
        rc := fs[frame.absolute].readError;
      }
    }
  }

  /** The index has every regular file of the tree under its path, with its size, and has gained no other. */
  ghost predicate IndexesTree(node: Node, base: map<Path, nat>, contents: map<Path, nat>) {
    && (forall x :: FileAt(node, [], x) ==> x.0 in contents && contents[x.0] == |x.1|)
    && (forall p :: p in contents <==> p in base || exists c :: FileAt(node, [], (p, c)))
  }

  lemma AllFilesIndexed(node: Node, base: map<Path, nat>, contents: map<Path, nat>)
    requires Unambiguous(FilesOf([], node)) && contents == base + SizesOf(FilesOf([], node))
    ensures IndexesTree(node, base, contents)
  {
    hide FilesOf, FileAt;
    forall x ensures x in FilesOf([], node) <==> FileAt(node, [], x) { FilesOfIff([], node, x); }
    forall x | FileAt(node, [], x) ensures x.0 in contents && contents[x.0] == |x.1| {
      SizesOfAt(FilesOf([], node), x);
    }
    forall p | p in contents && p !in base ensures exists c :: FileAt(node, [], (p, c)) {
      var x :| x in FilesOf([], node) && x.0 == p;
      assert x == (p, x.1);
    }
  }

  lemma FoundAll(fs: FileSystem, root: Path, base: map<Path, nat>, contents: map<Path, nat>)
    requires Found(fs, root, base, contents, FilesOf([], NodeAt(fs, root)))
    ensures IndexesTree(NodeAt(fs, root), base, contents)
  {
    AllFilesIndexed(NodeAt(fs, root), base, contents);
  }

  /** `scan_directory`. `rootMem` says whether the strings and the stack entry of the root can
      be allocated, `mem` the same for entry k of the d-th directory visited.
      On success every call on the tree succeeded and the index has gained every regular file
      with its size; on failure it has gained some of them. */
  method ScanDirectory(fs: FileSystem, root: Path, index: FileIndex, rootMem: Allocs, mem: (nat, nat) -> Allocs)
    returns (rc: Errno, ghost done: set<(Path, Bytes)>)
    requires Closed(fs) && WellNamed(NodeAt(fs, root)) && index.Valid() && index.arena.Valid()
    modifies IndexFootprint(index)
    ensures index.Valid() && index.arena.Valid() && fresh(IndexFootprint(index) - old(IndexFootprint(index)))
    ensures Found(fs, root, old(index.contents), index.contents, done)
    ensures rc == OK ==> done == FilesOf([], NodeAt(fs, root))
    ensures rc == OK ==> IndexesTree(NodeAt(fs, root), old(index.contents), index.contents)
    ensures rc == OK ==> NodeAt(fs, root).Directory? && Readable(NodeAt(fs, root))
    ensures rc == OK ==> rootMem.relative && rootMem.absolute && rootMem.push
    ensures NodeAt(fs, root).Directory? ==> rc == OK || rc == ENOMEM || TreeError(NodeAt(fs, root), rc)
    ensures NodeAt(fs, root).Directory? && Readable(NodeAt(fs, root)) ==> rc == OK || rc == ENOMEM
    ensures NodeAt(fs, root).Directory? && Readable(NodeAt(fs, root)) && Granted(rootMem) &&
            (forall d, n :: Granted(mem(d, n))) && Few(old(index.contents), FilesOf([], NodeAt(fs, root))) ==>
              rc == OK
  {
    hide FileIndex.Valid, StringArena.Valid, Closed, Readable, Walk, Found, StackSize, Few, FilesOf;
    hide IndexesTree;
    WalkStart(fs, root, index.contents);
    done := {};
    WalkFound(fs, root, index.contents, index.contents, [ScanFrame([], root)], done);
    if !rootMem.relative || !rootMem.absolute {
      return ENOMEM, done;
    }
    var stack := new FrameStack();
    rc := stack.Push(ScanFrame([], root), rootMem.push);
    if rc != OK {
      return;
    }
    ghost var before := Footprint(stack, index);
    label Started:
    rc, done := WalkStack(fs, root, stack, index, mem);
    assert IndexFootprint(index) <= Footprint(stack, index);
    assert forall o :: o in Footprint(stack, index) && o !in before ==> !old@Started(allocated(o));
    assert forall o :: o in Footprint(stack, index) && o !in before ==> !old(allocated(o));
    if rc == OK {
      FoundAll(fs, root, old(index.contents), index.contents);
    }
  }

  lemma WalkFound(fs: FileSystem, root: Path, base: map<Path, nat>, contents: map<Path, nat>, frames: seq<ScanFrame>,
                  done: set<(Path, Bytes)>)
    requires Walk(fs, root, base, contents, frames, done)
    ensures Found(fs, root, base, contents, done)
  {
  }

  /** The stack is empty: nothing is left to find. */
  lemma WalkDone(fs: FileSystem, root: Path, base: map<Path, nat>, contents: map<Path, nat>, done: set<(Path, Bytes)>)
    requires Walk(fs, root, base, contents, [], done)
    ensures done == FilesOf([], NodeAt(fs, root)) && Readable(NodeAt(fs, root))
  {
  }

  /** The outer loop of `scan_directory`. */
  method WalkStack(fs: FileSystem, root: Path, stack: FrameStack, index: FileIndex, mem: (nat, nat) -> Allocs)
    returns (rc: Errno, ghost done: set<(Path, Bytes)>)
    requires Closed(fs) && Ready(stack, index) && stack.Contents() == [ScanFrame([], root)]
    requires Walk(fs, root, index.contents, index.contents, stack.Contents(), {})
    modifies Footprint(stack, index)
    ensures Ready(stack, index)
    ensures fresh(Footprint(stack, index) - old(Footprint(stack, index)))
    ensures Found(fs, root, old(index.contents), index.contents, done)
    ensures rc == OK ==> done == FilesOf([], NodeAt(fs, root))
    ensures rc == OK ==> NodeAt(fs, root).Directory? && Readable(NodeAt(fs, root))
    ensures NodeAt(fs, root).Directory? ==> rc == OK || rc == ENOMEM || TreeError(NodeAt(fs, root), rc)
    ensures NodeAt(fs, root).Directory? && Readable(NodeAt(fs, root)) ==> rc == OK || rc == ENOMEM
    ensures NodeAt(fs, root).Directory? && Readable(NodeAt(fs, root)) && (forall d, n :: Granted(mem(d, n))) &&
            Few(old(index.contents), FilesOf([], NodeAt(fs, root))) ==>
              rc == OK
  {
    hide Ready, Closed, Readable, Walk, Found, StackSize, Footprint, Granted, Few;
    rc, done := OK, {};
    ghost var base := index.contents;
    var d: nat := 0;
    WalkFound(fs, root, base, base, stack.Contents(), done);
    while true
      invariant rc == OK && Ready(stack, index)
      invariant fresh(Footprint(stack, index) - old(Footprint(stack, index)))
      invariant Walk(fs, root, base, index.contents, stack.Contents(), done)
      invariant if d == 0 then stack.Contents() == [ScanFrame([], root)] else NodeAt(fs, root).Directory?
      decreases StackSize(fs, stack.Contents())
    {
      ghost var frames := stack.Contents();
      var popped := PopFrame(stack, index);
      if popped.None? {
        break;
      }
      assert popped.value == frames[|frames| - 1];
      ghost var before := Footprint(stack, index);
      label Popped:
      rc, done := VisitDirectory(fs, root, popped.value, stack, index, (k: nat) => mem(d, k), base, done);
      assert forall o :: o in Footprint(stack, index) && o !in before ==> !old@Popped(allocated(o));
      assert forall o :: o in Footprint(stack, index) && o !in before ==> !old(allocated(o));
      if rc != OK {
        return;
      }
      d := d + 1;
    }
    WalkDone(fs, root, base, index.contents, done);
    WalkFound(fs, root, base, index.contents, [], done);
  }

  method PopFrame(stack: FrameStack, index: FileIndex) returns (frame: Option<ScanFrame>)
    requires Ready(stack, index)
    modifies Footprint(stack, index)
    ensures Ready(stack, index) && index.contents == old(index.contents)
    ensures Footprint(stack, index) == old(Footprint(stack, index))
    ensures if old(stack.Contents()) == [] then frame.None? && stack.Contents() == []
            else frame.Some? && old(stack.Contents()) == stack.Contents() + [frame.value]
  {
    hide FileIndex.Valid, StringArena.Valid;
    frame := stack.Pop();
    index.arena.Untouched();
  }
}
