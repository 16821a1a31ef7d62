/** From two directory trees to the rows of the report (src/main.c:109-160). */
module EndToEnd {
  import opened Common
  import opened Arena
  import opened Slots
  import opened FileIndex
  import opened Paths
  import opened Tree
  import opened Scanner
  import opened Avl
  import opened PathTree
  import opened Results
  import opened Content
  import opened Compare
  import opened TaskQueue
  import opened ResultSet
  import opened Protocol
  import opened Safety
  import opened Runs
  import opened Refinement
  import opened PlannerLoop
  import opened Machine
  import opened Output
  import opened Verdiff
  import R = Reporting

  /** The regular files below a root, by relative path. */
  ghost function FilesAt(fs: FileSystem, root: Path): set<(Path, Bytes)> {
    FilesOf([], NodeAt(fs, root))
  }

  ghost predicate GoodRoot(fs: FileSystem, root: Path)
    ensures GoodRoot(fs, root) ==> root in fs
  {
    root in fs && fs[root].Directory? && WellNamed(fs[root])
  }

  /** Every allocation of a scan would succeed. */
  ghost predicate AllGranted(mem: (Allocs, (nat, nat) -> Allocs)) {
    Granted(mem.0) && forall d, k :: Granted(mem.1(d, k))
  }

  /** An empty index has room for the files of a tree. */
  lemma FewFiles(node: Node)
    requires WellNamed(node) && CountFiles(node) < FILE_LIMIT
    ensures Few(map[], FilesOf([], node))
  {
    FilesUnambiguous([], node);
    var m: map<Path, nat> := map[];
    assert m.Keys + FilePaths(FilesOf([], node)) == SizesOf(FilesOf([], node)).Keys;
    SizesCount(FilesOf([], node));
  }

  /** `main` makes an index of 1024 slots and scans a root into it. If that succeeds the index is the
      map from the path of every regular file to its size, and its count is their number. */
  method IndexTree(fs: FileSystem, root: Path, hash: Path -> nat, rootMem: Allocs, mem: (nat, nat) -> Allocs)
    returns (rc: Errno, index: FileIndex)
    requires Closed(fs) && GoodRoot(fs, root)
    ensures index.Valid() && fresh(index) && index.hash == hash
    ensures Unambiguous(FilesAt(fs, root))
    ensures rc == OK ==> index.contents == SizesOf(FilesAt(fs, root)) && index.count == CountFiles(fs[root])
    ensures rc == OK ==> UniqueKeys(index.slots[..]) && Represents(index.slots[..], index.contents)
    ensures rc == OK ==> IndexesTree(fs[root], map[], index.contents) && Readable(fs[root])
    ensures rc == OK || rc == ENOMEM || TreeError(fs[root], rc)
    ensures Readable(fs[root]) ==> rc == OK || rc == ENOMEM
    ensures Readable(fs[root]) && AllGranted((rootMem, mem)) && CountFiles(fs[root]) < FILE_LIMIT ==> rc == OK
  {
    hide StringArena.Valid, SizesOf, CountFiles, Readable, WellNamed, UniqueKeys, Represents, FilesOf, WellPlaced;
    hide KeysKept, Few, Granted, IndexesTree, TreeError;
    index := new FileIndex(hash, 1024);
    ghost var done;
    FilesUnambiguous([], fs[root]);
    if CountFiles(fs[root]) < FILE_LIMIT {
      FewFiles(fs[root]);
    }
    rc, done := ScanDirectory(fs, root, index, rootMem, mem);
    if rc == OK {
      SizesCount(FilesAt(fs, root));
    }
  }

  /** The run starts from what the two scans found, and the files are read where they were found. */
  ghost predicate FromTrees(env: Env, fs: FileSystem) {
    && Closed(fs) && GoodRoot(fs, env.config.rootA) && GoodRoot(fs, env.config.rootB)
    && Unambiguous(FilesAt(fs, env.config.rootA)) && env.sizesA == SizesOf(FilesAt(fs, env.config.rootA))
    && Unambiguous(FilesAt(fs, env.config.rootB)) && env.sizesB == SizesOf(FilesAt(fs, env.config.rootB))
    && (forall p :: SideA(env.config, fs, p).Some? ==> env.contentA(p) == SideA(env.config, fs, p).value)
    && (forall p :: SideB(env.config, fs, p).Some? ==> env.contentB(p) == SideB(env.config, fs, p).value)
  }

  /** The content the comparer finds under a root, or nothing. */
  function ReadUnder(fs: FileSystem, root: Path, p: Path): Bytes {
    var content := ContentAt(fs, JoinPath(root, p));
    if content.Some? then content.value else []
  }

  /** The table and the map of an index that a scan of this root has filled. */
  ghost predicate Scanned(fs: FileSystem, root: Path, slots: seq<IndexSlot>, sizes: map<Path, nat>) {
    && Closed(fs) && GoodRoot(fs, root) && UniqueKeys(slots) && Represents(slots, sizes)
    && Unambiguous(FilesAt(fs, root)) && sizes == SizesOf(FilesAt(fs, root))
  }

  lemma PreparedIsSound(fs: FileSystem, env: Env)
    requires Scanned(fs, env.config.rootA, env.slotsA, env.sizesA)
    requires Scanned(fs, env.config.rootB, env.slotsB, env.sizesB)
    requires forall p :: env.contentA(p) == ReadUnder(fs, env.config.rootA, p)
    requires forall p :: env.contentB(p) == ReadUnder(fs, env.config.rootB, p)
    requires |env.ring| > 0 && env.workerCount > 0
    ensures EnvOk(env) && FromTrees(env, fs)
  {
    hide FilesAt, Closed, GoodRoot, Unambiguous, UniqueKeys, Represents;
  }

  lemma GivenByTrees(env: Env, fs: FileSystem, indexA: FileIndex, indexB: FileIndex)
    requires FromTrees(env, fs) && Tables(env, indexA, indexB)
    ensures Given(env, indexA, indexB, fs)
  {
  }

  /** The root can be read and memory suffices to index it. */
  ghost predicate Scannable(fs: FileSystem, root: Path, mem: (Allocs, (nat, nat) -> Allocs))
    requires root in fs
  {
    Readable(fs[root]) && AllGranted(mem) && CountFiles(fs[root]) < FILE_LIMIT
  }

  method ScanRoot(fs: FileSystem, root: Path, pathHash: Path -> nat, mem: (Allocs, (nat, nat) -> Allocs))
    returns (rc: Errno, index: FileIndex)
    requires Closed(fs) && GoodRoot(fs, root)
    ensures index.Valid() && (rc == OK ==> Scanned(fs, root, index.slots[..], index.contents))
    ensures rc == OK ==> Readable(fs[root])
    ensures rc == OK || rc == ENOMEM || TreeError(fs[root], rc)
    ensures Readable(fs[root]) ==> rc == OK || rc == ENOMEM
    ensures Readable(fs[root]) && AllGranted(mem) && CountFiles(fs[root]) < FILE_LIMIT ==> rc == OK
  {
    hide FileIndex.Valid, SizesOf, FilesAt, Closed, GoodRoot, Unambiguous, UniqueKeys, Represents, Readable, CountFiles;
    hide AllGranted, IndexesTree, TreeError;
    rc, index := IndexTree(fs, root, pathHash, mem.0, mem.1);
  }

  /** The empty queue, result set and error slot of a run. */
  method SetUp(ghost env: Env, queue: TaskQueue) returns (results: ResultSet, context: CompareContext)
    requires queue.View() == EmptyQueue(env.ring)
    ensures Holds(queue, results, context, Start(env))
    ensures fresh(results) && fresh(results.items) && fresh(Nodes(results.layout)) && fresh(context)
  {
    hide Consistent;
    results := new ResultSet();
    context := new CompareContext();
  }

  /** `main` and `plan_and_compare` up to the start of the workers: both roots are scanned, each into an
      index of its own, and if both scans succeed the run starts from what they found, with an empty
      result set and a queue of 4096 slots. */
  method PrepareRun(fs: FileSystem, config: Config, pathHash: Path -> nat, hash: Bytes -> nat, isText: Bytes -> bool,
                    sight: Path -> Sight, workerCount: nat, memA: (Allocs, (nat, nat) -> Allocs),
                    memB: (Allocs, (nat, nat) -> Allocs))
    returns (rc: Errno, indexA: FileIndex, indexB: FileIndex, queue: TaskQueue, results: ResultSet,
             context: CompareContext, ghost env: Env)
    requires Closed(fs) && GoodRoot(fs, config.rootA) && GoodRoot(fs, config.rootB) && workerCount > 0
    ensures indexA.Valid() && indexB.Valid() && env.config == config
    ensures env.hash == hash && env.isText == isText && env.sight == sight && env.workerCount == workerCount
    ensures |env.ring| == 4096 && Holds(queue, results, context, Start(env))
    ensures fresh(queue) && fresh(queue.items) && fresh(context)
    ensures fresh(results) && fresh(results.items) && fresh(Nodes(results.layout))
    ensures rc == OK ==> EnvOk(env) && FromTrees(env, fs)
    ensures rc == OK ==> Tables(env, indexA, indexB) && Given(env, indexA, indexB, fs)
    ensures rc == OK ==> Readable(fs[config.rootA]) && Readable(fs[config.rootB])
    ensures rc == OK || rc == ENOMEM || TreeError(fs[config.rootA], rc) || TreeError(fs[config.rootB], rc)
    ensures Readable(fs[config.rootA]) && Readable(fs[config.rootB]) ==> rc == OK || rc == ENOMEM
    ensures Scannable(fs, config.rootA, memA) && Scannable(fs, config.rootB, memB) ==> rc == OK
  {
    hide FileIndex.Valid, Scanned, Readable, Closed, GoodRoot, EnvOk, FromTrees, Given, Holds, AllGranted, CountFiles;
    hide TreeError;
    rc, indexA := ScanRoot(fs, config.rootA, pathHash, memA);
    indexB := indexA;
    if rc == OK {
      rc, indexB := ScanRoot(fs, config.rootB, pathHash, memB);
    }
    queue := new TaskQueue(4096);
    env := Env(config, indexA.slots[..], indexA.contents, indexB.slots[..], indexB.contents,
               p => ReadUnder(fs, config.rootA, p), p => ReadUnder(fs, config.rootB, p), hash, isText, sight,
               queue.items[..], workerCount);
    if rc == OK {
      PreparedIsSound(fs, env);
      GivenByTrees(env, fs, indexA, indexB);
    }
    results, context := SetUp(env, queue);
  }

  /** A file the scan found is found again under its joined path, with the content it had. */
  lemma FoundAgain(fs: FileSystem, root: Path, x: (Path, Bytes))
    requires Closed(fs) && GoodRoot(fs, root) && x in FilesAt(fs, root)
    ensures ContentAt(fs, JoinPath(root, x.0)) == Some(x.1)
  {
    ComparerOpensFile(fs, root, [], fs[root]);
  }

  ghost predicate HasFile(files: set<(Path, Bytes)>, p: Path) {
    exists x :: x in files && x.0 == p
  }

  lemma SizesKeys(files: set<(Path, Bytes)>, p: Path)
    requires Unambiguous(files)
    ensures p in SizesOf(files) <==> HasFile(files, p)
    ensures forall x :: x in files && x.0 == p ==> SizesOf(files)[p] == |x.1|
  {
  }

  /** What one side of a run knows of a path. */
  lemma SideKnown(fs: FileSystem, root: Path, p: Path)
    requires Closed(fs) && GoodRoot(fs, root) && Unambiguous(FilesAt(fs, root)) && p in SizesOf(FilesAt(fs, root))
    ensures ContentAt(fs, JoinPath(root, p)).Some?
    ensures (p, ContentAt(fs, JoinPath(root, p)).value) in FilesAt(fs, root)
    ensures SizesOf(FilesAt(fs, root))[p] == |ContentAt(fs, JoinPath(root, p)).value|
  {
    var files := FilesAt(fs, root);
    SizesKeys(files, p);
    var x :| x in files && x.0 == p;
    FoundAgain(fs, root, x);
    assert x == (p, x.1);
  }

  /** The definition of the difference, on files: a path is removed if only A has it, added if only B
      has it, and unchanged exactly if both have it with the same content. */
  lemma ChangeOfFiles(env: Env, fs: FileSystem, p: Path)
    requires FromTrees(env, fs)
    ensures var A, B := FilesAt(fs, env.config.rootA), FilesAt(fs, env.config.rootB);
            && (p in AllPaths(env) <==> HasFile(A, p) || HasFile(B, p))
            && (p in AllPaths(env) ==>
                  && (SpecChange(env, p) == Removed <==> !HasFile(B, p))
                  && (SpecChange(env, p) == Added <==> !HasFile(A, p))
                  && (SpecChange(env, p) == Unchanged <==> exists c :: (p, c) in A && (p, c) in B))
    ensures p in env.sizesA ==> env.sizesA[p] == |env.contentA(p)|
    ensures p in env.sizesB ==> env.sizesB[p] == |env.contentB(p)|
    ensures p in env.sizesA ==> (p, env.contentA(p)) in FilesAt(fs, env.config.rootA)
    ensures p in env.sizesB ==> (p, env.contentB(p)) in FilesAt(fs, env.config.rootB)
  {
    var A, B := FilesAt(fs, env.config.rootA), FilesAt(fs, env.config.rootB);
    SizesKeys(A, p);
    SizesKeys(B, p);
    if p in env.sizesA {
      SideKnown(fs, env.config.rootA, p);
      assert (p, env.contentA(p)) in A;
    }
    if p in env.sizesB {
      SideKnown(fs, env.config.rootB, p);
      assert (p, env.contentB(p)) in B;
    }
    forall c | (p, c) in A && (p, c) in B
      ensures p in env.sizesA && p in env.sizesB && env.contentA(p) == c == env.contentB(p)
    {
      assert HasFile(A, p) && HasFile(B, p);
    }
  }

  lemma TreesFrozen(env: Env, fs: FileSystem)
    requires FromTrees(env, fs)
    ensures Frozen(env)
  {
    forall p
      ensures (p in env.sizesA ==> env.sizesA[p] == |env.contentA(p)|)
      ensures (p in env.sizesB ==> env.sizesB[p] == |env.contentB(p)|)
    {
      ChangeOfFiles(env, fs, p);
    }
  }

  /** Two trees differ where some path has a file on one side only, or different contents. */
  lemma SameFilesIff(A: set<(Path, Bytes)>, B: set<(Path, Bytes)>)
    requires Unambiguous(A) && Unambiguous(B)
    ensures A == B <==> forall p :: HasFile(A, p) || HasFile(B, p) ==> exists c :: (p, c) in A && (p, c) in B
  {
    if A == B {
      forall p | HasFile(A, p) || HasFile(B, p) ensures exists c :: (p, c) in A && (p, c) in B {
        var x :| x in A && x.0 == p;
        assert x == (p, x.1);
      }
    }
    if forall p :: HasFile(A, p) || HasFile(B, p) ==> exists c :: (p, c) in A && (p, c) in B {
      forall x ensures x in A <==> x in B {
        if x in A || x in B {
          assert HasFile(A, x.0) || HasFile(B, x.0);
          var c :| (x.0, c) in A && (x.0, c) in B;
        }
      }
    }
  }

  /** The detailed report of a successful run has a row for every path the trees disagree on and no
      other, sorted by path; it is empty exactly if both trees hold the same files with the same
      contents. */
  lemma RowsAreTheDifference(env: Env, fs: FileSystem, ss: seq<State>, acts: seq<Action>)
    requires EnvOk(env) && FromTrees(env, fs) && Verifying(env)
    requires IsRun(env, ss, acts) && Last(ss).producer == Done(OK)
    ensures var rs := Last(ss).report;
            && (forall i :: i in InOrder(rs.tree) ==> i < |rs.records|)
            && R.StrictlySorted(R.Rows(Listing(rs)))
            && (forall r :: r in R.Rows(Listing(rs)) <==>
                  r.path in AllPaths(env) && SpecChange(env, r.path) != Unchanged && r == SpecRecord(env, r.path))
            && (R.Rows(Listing(rs)) == [] <==> FilesAt(fs, env.config.rootA) == FilesAt(fs, env.config.rootB))
  {
    hide EnvOk, IsRun, FromTrees, Frozen, Verifying, Listing, FilesAt, SpecRecord, Counter;
    var rs := Last(ss).report;
    TreesFrozen(env, fs);
    SuccessfulRunsReportTheDifference(env, ss, acts);
    R.RowsKept(Listing(rs));
    forall p
      ensures SpecRecord(env, p).change == SpecChange(env, p) && SpecRecord(env, p).path == p
    {
      SpecRecordShape(env, p);
    }
    NoRowsIffSame(env, fs, R.Rows(Listing(rs)));
  }

  lemma NoRowsIffSame(env: Env, fs: FileSystem, rows: seq<ChangeRecord>)
    requires FromTrees(env, fs)
    requires forall r :: r in rows <==>
               r.path in AllPaths(env) && SpecChange(env, r.path) != Unchanged && r == SpecRecord(env, r.path)
    ensures rows == [] <==> FilesAt(fs, env.config.rootA) == FilesAt(fs, env.config.rootB)
  {
    hide FromTrees, FilesAt, SpecRecord, SpecChange, AllPaths;
    var A, B := FilesAt(fs, env.config.rootA), FilesAt(fs, env.config.rootB);
    TreesUnambiguous(env, fs);
    SameFilesIff(A, B);
    forall p ensures p in AllPaths(env) <==> HasFile(A, p) || HasFile(B, p) { ChangeOfFiles(env, fs, p); }
    forall p | p in AllPaths(env)
      ensures SpecChange(env, p) == Unchanged <==> exists c :: (p, c) in A && (p, c) in B
    {
      ChangeOfFiles(env, fs, p);
    }
    forall p | p in AllPaths(env) && SpecChange(env, p) != Unchanged
      ensures SpecRecord(env, p) in rows
    {
      SpecRecordShape(env, p);
    }
    if rows != [] {
      assert rows[0] in rows;
    }
  }

  lemma SpecRecordShape(env: Env, p: Path)
    ensures SpecRecord(env, p).change == SpecChange(env, p) && SpecRecord(env, p).path == p
  {
  }

  lemma TreesUnambiguous(env: Env, fs: FileSystem)
    requires FromTrees(env, fs)
    ensures Unambiguous(FilesAt(fs, env.config.rootA)) && Unambiguous(FilesAt(fs, env.config.rootB))
  {
  }

  /** The total `main` prints: the files of A and the added ones, which is what the four counters
      add up to. */
  lemma TotalScanned(env: Env, fs: FileSystem, ss: seq<State>, acts: seq<Action>)
    requires EnvOk(env) && FromTrees(env, fs) && IsRun(env, ss, acts) && Last(ss).producer == Done(OK)
    ensures var rs := Last(ss).report;
            rs.unchangedCount + rs.modifiedCount + rs.addedCount + rs.removedCount ==
            CountFiles(fs[env.config.rootA]) + rs.addedCount
  {
    hide EnvOk, IsRun;
    CountsAddUp(env, ss, acts);
    FilesUnambiguous([], fs[env.config.rootA]);
    SizesCount(FilesAt(fs, env.config.rootA));
  }

  /** Are the line differences of two files wanted, and are both taken for text? */
  predicate ByLine(setting: Setting, sight: Sight, a: Bytes, b: Bytes) {
    && setting.config.includeLines && sight.sniffA && sight.sniffB
    && setting.isText(a) && setting.isText(b)
  }

  /** Do sizes, hashes or a verification tell the files apart? A verification does if the contents differ or
      are read in different pieces, unless its buffer is empty. */
  predicate ToldApart(setting: Setting, sight: Sight, a: Bytes, b: Bytes) {
    || |a| != |b| || setting.hash(a) != setting.hash(b)
    || (setting.config.verifyEqualHashes && setting.config.hashBufferSize > 0 &&
        (a != b || !SplitAlike(setting.config.hashBufferSize, a, b, sight)))
  }

  /** What is reported of two sets of files: the paths that only one of them has, and those whose files are
      told apart. */
  ghost predicate Reported(A: set<(Path, Bytes)>, B: set<(Path, Bytes)>, setting: Setting, io: Path -> CompareIo,
                           r: ChangeRecord) {
    var p := r.path;
    || (exists a :: (p, a) in A && !HasFile(B, p) && r == ChangeRecord(p, Removed, OnlyInSource, |a|, 0, []))
    || (exists b :: (p, b) in B && !HasFile(A, p) && r == ChangeRecord(p, Added, OnlyInTarget, 0, |b|, []))
    || (exists a, b :: (p, a) in A && (p, b) in B && ToldApart(setting, io(p).sight, a, b) &&
                       r == ChangedRecord(p, a, b, a != b && ByLine(setting, io(p).sight, a, b)))
  }

  /** What has changed between them: the same with different contents for files told apart. */
  ghost predicate Differs(A: set<(Path, Bytes)>, B: set<(Path, Bytes)>, setting: Setting, io: Path -> CompareIo,
                          r: ChangeRecord) {
    var p := r.path;
    || (exists a :: (p, a) in A && !HasFile(B, p) && r == ChangeRecord(p, Removed, OnlyInSource, |a|, 0, []))
    || (exists b :: (p, b) in B && !HasFile(A, p) && r == ChangeRecord(p, Added, OnlyInTarget, 0, |b|, []))
    || (exists a, b :: (p, a) in A && (p, b) in B && a != b &&
                       r == ChangedRecord(p, a, b, ByLine(setting, io(p).sight, a, b)))
  }

  /** The rows of the report: sorted by path, and exactly what is to be reported of the two trees. */
  ghost predicate RowsOf(fs: FileSystem, setting: Setting, io: Path -> CompareIo, rows: seq<ChangeRecord>) {
    && R.StrictlySorted(rows)
    && forall r :: r in rows <==>
         Reported(FilesAt(fs, setting.config.rootA), FilesAt(fs, setting.config.rootB), setting, io, r)
  }

  /** The rows of a report that was cut short: some of what is to be reported, still in order. */
  ghost predicate SomeRowsOf(fs: FileSystem, setting: Setting, io: Path -> CompareIo, rows: seq<ChangeRecord>) {
    && R.StrictlySorted(rows)
    && forall r :: r in rows ==>
         Reported(FilesAt(fs, setting.config.rootA), FilesAt(fs, setting.config.rootB), setting, io, r)
  }

  /** The rows are exactly what has changed, and none exactly if the trees hold the same files. */
  ghost predicate RowsAreChanges(fs: FileSystem, setting: Setting, io: Path -> CompareIo, rows: seq<ChangeRecord>) {
    var A, B := FilesAt(fs, setting.config.rootA), FilesAt(fs, setting.config.rootB);
    (forall r :: r in rows <==> Differs(A, B, setting, io, r)) && (rows == [] <==> A == B)
  }

  /** Equal hashes are verified, with a buffer that holds something and that reads fill. */
  ghost predicate Verified(setting: Setting, io: Path -> CompareIo) {
    && setting.config.verifyEqualHashes && setting.config.hashBufferSize > 0
    && forall p :: FullReads(io(p).sight, setting.config.hashBufferSize)
  }

  ghost predicate SeenAs(env: Env, setting: Setting, io: Path -> CompareIo) {
    SettingOf(env, setting) && forall p :: io(p).sight == env.sight(p)
  }

  /** What the files of both trees say of a path is what the run's input says. */
  ghost predicate Agrees(env: Env, A: set<(Path, Bytes)>, B: set<(Path, Bytes)>, p: Path) {
    && (HasFile(A, p) <==> p in env.sizesA) && (HasFile(B, p) <==> p in env.sizesB)
    && (forall a :: (p, a) in A <==> p in env.sizesA && a == env.contentA(p))
    && (forall b :: (p, b) in B <==> p in env.sizesB && b == env.contentB(p))
    && (p in env.sizesA ==> env.sizesA[p] == |env.contentA(p)|)
    && (p in env.sizesB ==> env.sizesB[p] == |env.contentB(p)|)
  }

  lemma TreesAgree(env: Env, fs: FileSystem, p: Path)
    requires FromTrees(env, fs)
    ensures Agrees(env, FilesAt(fs, env.config.rootA), FilesAt(fs, env.config.rootB), p)
  {
    var A, B := FilesAt(fs, env.config.rootA), FilesAt(fs, env.config.rootB);
    TreesUnambiguous(env, fs);
    SizesKeys(A, p);
    SizesKeys(B, p);
    ChangeOfFiles(env, fs, p);
  }

  /** The difference of a run's input and that of the two trees are the same. */
  lemma DiffersIff(env: Env, A: set<(Path, Bytes)>, B: set<(Path, Bytes)>, setting: Setting, io: Path -> CompareIo,
                   r: ChangeRecord)
    requires Agrees(env, A, B, r.path) && SeenAs(env, setting, io)
    ensures Differs(A, B, setting, io, r) <==>
            r.path in AllPaths(env) && SpecChange(env, r.path) != Unchanged && r == SpecRecord(env, r.path)
  {
    hide HasFile, ChangedRecord;
    var p := r.path;
    assert p in env.sizesA ==> (p, env.contentA(p)) in A;
    assert p in env.sizesB ==> (p, env.contentB(p)) in B;
  }

  /** The events of a run's input that lead to rows are what is reported of the two trees. */
  lemma ReportedIff(env: Env, A: set<(Path, Bytes)>, B: set<(Path, Bytes)>, setting: Setting, io: Path -> CompareIo,
                    r: ChangeRecord)
    requires Agrees(env, A, B, r.path) && SeenAs(env, setting, io)
    ensures Reported(A, B, setting, io, r) <==>
            r.path in AllPaths(env) && EventOf(env, r.path) == Recorded(r) && r.change != Unchanged
  {
    hide HasFile, SplitAlike, Alike, LineDiffsOf;
    var p := r.path;
    AlikeIff(env.config.hashBufferSize, env.contentA(p), env.contentB(p), env.sight(p));
    NoDiffsIffEqual(env.contentA(p), env.contentB(p));
    assert p in env.sizesA ==> (p, env.contentA(p)) in A;
    assert p in env.sizesB ==> (p, env.contentB(p)) in B;
  }

  lemma FinishedRows(env: Env, fs: FileSystem, setting: Setting, io: Path -> CompareIo, ss: seq<State>,
                     acts: seq<Action>, all: seq<ChangeRecord>)
    requires EnvOk(env) && FromTrees(env, fs) && SeenAs(env, setting, io)
    requires IsRun(env, ss, acts) && Last(ss).producer == Done(OK)
    requires forall i :: i in InOrder(Last(ss).report.tree) ==> i < |Last(ss).report.records|
    requires all == R.Rows(Listing(Last(ss).report))
    ensures RowsOf(fs, setting, io, all)
    ensures Verified(setting, io) ==> RowsAreChanges(fs, setting, io, all)
  {
    hide EnvOk, IsRun, FromTrees, FilesAt, SpecRecord, SpecChange, AllPaths, R.Rows, Listing, Differs;
    hide Reported, EventOf, Inv, Agrees;
    var A, B := FilesAt(fs, env.config.rootA), FilesAt(fs, env.config.rootB);
    FinalState(env, ss, acts);
    FinalReport(env, Last(ss));
    R.RowsKept(Listing(Last(ss).report));
    forall r ensures Reported(A, B, setting, io, r) <==> r in all {
      TreesAgree(env, fs, r.path);
      ReportedIff(env, A, B, setting, io, r);
    }
    if Verified(setting, io) {
      RowsAreTheDifference(env, fs, ss, acts);
      forall r
        ensures Differs(A, B, setting, io, r) <==>
                r.path in AllPaths(env) && SpecChange(env, r.path) != Unchanged && r == SpecRecord(env, r.path)
      {
        TreesAgree(env, fs, r.path);
        DiffersIff(env, A, B, setting, io, r);
      }
    }
  }

  /** The first rows of a report. */
  lemma FirstRows(fs: FileSystem, setting: Setting, io: Path -> CompareIo, all: seq<ChangeRecord>,
                  rows: seq<ChangeRecord>)
    requires RowsOf(fs, setting, io, all) && rows <= all
    ensures SomeRowsOf(fs, setting, io, rows)
  {
    hide Reported;
    forall r | r in rows ensures r in all {
      var i :| 0 <= i < |rows| && rows[i] == r;
      assert all[i] == r;
    }
  }

  lemma HoldsResults(queue: TaskQueue, results: ResultSet, context: CompareContext, s: State)
    requires Holds(queue, results, context, s)
    ensures results.Valid() && results.View() == s.report
  {
  }

  /** The rows of the report after a run that returned 0. */
  method WriteReport(ghost env: Env, ghost fs: FileSystem, ghost setting: Setting, ghost io: Path -> CompareIo,
                     o: Shared, canWrite: ChangeRecord -> bool, ghost ss: seq<State>, ghost acts: seq<Action>)
    returns (rc: Errno, rows: seq<ChangeRecord>)
    requires EnvOk(env) && FromTrees(env, fs) && SeenAs(env, setting, io)
    requires IsRun(env, ss, acts) && Last(ss).producer == Done(OK)
    requires Holds(o.queue, o.results, o.context, Last(ss))
    ensures rc == OK ==> RowsOf(fs, setting, io, rows)
    ensures rc == OK && Verified(setting, io) ==> RowsAreChanges(fs, setting, io, rows)
    ensures SomeRowsOf(fs, setting, io, rows) && forall r :: r in rows ==> canWrite(r)
    ensures (forall r :: canWrite(r)) ==> rc == OK
    ensures rc == OK || rc == WRITE_FAILED
  {
    hide EnvOk, IsRun, FromTrees, Verified, SeenAs, ResultSet.Valid, Holds, RowsOf, RowsAreChanges, SomeRowsOf;
    hide R.Rows, Listing;
    HoldsResults(o.queue, o.results, o.context, Last(ss));
    assert allocated(Nodes(o.results.layout));
    rc, rows := WriteRows(o.results, canWrite);
    FinishedRows(env, fs, setting, io, ss, acts, R.Rows(Listing(Last(ss).report)));
    FirstRows(fs, setting, io, R.Rows(Listing(Last(ss).report)), rows);
  }

  /** Every file the scans found is found again by the comparer. */
  lemma TreesUnhindered(env: Env, fs: FileSystem, io: Path -> CompareIo)
    requires FromTrees(env, fs)
    ensures (forall p :: Faultless(io(p))) ==> Unhindered(env, fs, io)
  {
    hide Faultless, FilesAt, Closed, GoodRoot, Unambiguous;
    forall p | p in env.sizesA ensures SideA(env.config, fs, p).Some? { SideKnown(fs, env.config.rootA, p); }
    forall p | p in env.sizesB ensures SideB(env.config, fs, p).Some? { SideKnown(fs, env.config.rootB, p); }
  }

  /** Nothing goes wrong once the roots are scanned: no call of a comparison fails, memory suffices for the
      records, and every row can be written. */
  ghost predicate Smooth(io: Path -> CompareIo, mem: nat -> (bool, bool), canWrite: ChangeRecord -> bool) {
    && (forall p :: Faultless(io(p))) && (forall n :: mem(n) == (true, true)) && (forall r :: canWrite(r))
  }

  /** Every comparison of two files of one size that the program makes has gone without an error. */
  ghost predicate ComparisonsSucceed(fs: FileSystem, setting: Setting, io: Path -> CompareIo) {
    forall p, a, b :: (p, a) in FilesAt(fs, setting.config.rootA) && (p, b) in FilesAt(fs, setting.config.rootB) &&
                      |a| == |b| ==>
      ExamineFault(setting.config, setting.hash, setting.isText, Some(a), Some(b), io(p)) == OK
  }

  lemma AllComparisonsSucceed(env: Env, fs: FileSystem, setting: Setting, io: Path -> CompareIo, ss: seq<State>,
                              acts: seq<Action>)
    requires EnvOk(env) && FromTrees(env, fs) && SeenAs(env, setting, io)
    requires IsRun(env, ss, acts) && Last(ss).producer == Done(OK)
    requires Accountable(env, fs, setting, io, Last(ss))
    ensures ComparisonsSucceed(fs, setting, io)
  {
    hide EnvOk, IsRun, FromTrees, FilesAt, ExamineFault, Inv;
    FinalState(env, ss, acts);
    var A, B := FilesAt(fs, env.config.rootA), FilesAt(fs, env.config.rootB);
    forall p, a, b | (p, a) in A && (p, b) in B && |a| == |b|
      ensures ExamineFault(setting.config, setting.hash, setting.isText, Some(a), Some(b), io(p)) == OK
    {
      CommonFile(env, fs, p, a, b);
      CommonCompared(env, Last(ss), p);
      assert Examined(env, fs, setting, io(p), p);
    }
  }

  /** A path with a file of the same size in both trees. */
  lemma CommonFile(env: Env, fs: FileSystem, p: Path, a: Bytes, b: Bytes)
    requires FromTrees(env, fs) && |a| == |b|
    requires (p, a) in FilesAt(fs, env.config.rootA) && (p, b) in FilesAt(fs, env.config.rootB)
    ensures IsCommon(env, p) && SideA(env.config, fs, p) == Some(a) && SideB(env.config, fs, p) == Some(b)
  {
    hide FilesAt, Closed, GoodRoot;
    SizesOfAt(FilesAt(fs, env.config.rootA), (p, a));
    SizesOfAt(FilesAt(fs, env.config.rootB), (p, b));
    FoundAgain(fs, env.config.rootA, (p, a));
    FoundAgain(fs, env.config.rootB, (p, b));
  }

  /** What a failing program returns: ENOMEM, the error of a call on one of the trees or of the comparison of a
      path that both have, ECANCELED, or the code of a row that cannot be written. */
  ghost predicate FailureCode(fs: FileSystem, setting: Setting, io: Path -> CompareIo, rc: Errno)
    requires setting.config.rootA in fs && setting.config.rootB in fs
  {
    || rc == ENOMEM || rc == ECANCELED || rc == WRITE_FAILED
    || TreeError(fs[setting.config.rootA], rc) || TreeError(fs[setting.config.rootB], rc)
    || exists p :: HasFile(FilesAt(fs, setting.config.rootA), p) && HasFile(FilesAt(fs, setting.config.rootB), p) &&
                   EndsWith(fs, setting, io(p), p, rc)
  }

  lemma PoolCode(env: Env, fs: FileSystem, setting: Setting, io: Path -> CompareIo, rc: Errno)
    requires FromTrees(env, fs) && SeenAs(env, setting, io)
    requires rc == ECANCELED || Honest(env, fs, setting, io, rc)
    ensures rc != OK ==> FailureCode(fs, setting, io, rc)
  {
    hide EndsWith, FilesAt, TreeError, Closed, HasFile;
    TreesUnambiguous(env, fs);
    forall p | IsCommon(env, p)
      ensures HasFile(FilesAt(fs, env.config.rootA), p) && HasFile(FilesAt(fs, env.config.rootB), p)
    {
      SizesKeys(FilesAt(fs, env.config.rootA), p);
      SizesKeys(FilesAt(fs, env.config.rootB), p);
    }
  }

  /** The program from two roots to the rows of the report, with every thread on the real objects and under
      any schedule. If it returns 0, both trees could be read, every comparison went without an error, and
      the rows are, sorted by path, what is to be reported of the two trees; if equal hashes are verified
      with a buffer that reads fill, that is what has changed. If it fails, the rows are some of these, or
      none. It does return 0 if both trees can be read, memory suffices and no call fails. */
  method CompareTrees(fs: FileSystem, setting: Setting, pathHash: Path -> nat, io: Path -> CompareIo,
                      workerCount: nat, memA: (Allocs, (nat, nat) -> Allocs), memB: (Allocs, (nat, nat) -> Allocs),
                      schedule: nat -> Pick, wakeups: nat, mem: nat -> (bool, bool), canWrite: ChangeRecord -> bool)
    returns (rc: Errno, rows: seq<ChangeRecord>)
    requires Closed(fs) && GoodRoot(fs, setting.config.rootA) && GoodRoot(fs, setting.config.rootB) && workerCount > 0
    ensures rc == OK ==> RowsOf(fs, setting, io, rows)
    ensures rc == OK && Verified(setting, io) ==> RowsAreChanges(fs, setting, io, rows)
    ensures SomeRowsOf(fs, setting, io, rows) && forall r :: r in rows ==> canWrite(r)
    ensures rc == OK ==> Readable(fs[setting.config.rootA]) && Readable(fs[setting.config.rootB])
    ensures rc == OK ==> ComparisonsSucceed(fs, setting, io)
    ensures rc != OK ==> FailureCode(fs, setting, io, rc)
    ensures Scannable(fs, setting.config.rootA, memA) && Scannable(fs, setting.config.rootB, memB) &&
            Smooth(io, mem, canWrite) ==>
              rc == OK
  {
    hide EnvOk, IsRun, FromTrees, Verified, Unhindered, Faultless, FileIndex.Valid, ResultSet.Valid, Closed, GoodRoot;
    hide Readable, Holds, Given, RowsOf, RowsAreChanges, Tables, Scannable, ComparisonsSucceed, Accountable, EndsWith;
    hide TreeError, Honest;
    var sight := (p: Path) => io(p).sight;
    var indexA, indexB, queue, results, context;
    ghost var env;
    rc, indexA, indexB, queue, results, context, env :=
      PrepareRun(fs, setting.config, pathHash, setting.hash, setting.isText, sight, workerCount, memA, memB);
    rows := [];
    if rc != OK {
      return;
    }
    TreesUnhindered(env, fs, io);
    ghost var ss, acts;
    rc, ss, acts := RunPool(env, Shared(queue, results, context), indexA, indexB, fs, setting, io, workerCount,
                            schedule, wakeups, mem);
    PoolCode(env, fs, setting, io, rc);
    if rc != OK {
      return;
    }
    AllComparisonsSucceed(env, fs, setting, io, ss, acts);
    rc, rows := WriteReport(env, fs, setting, io, Shared(queue, results, context), canWrite, ss, acts);
  }
}
