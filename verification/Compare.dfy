/** src/compare.c:88-176: the verdict on a path found on both sides. */
module Compare {
  import opened Common
  import opened FileIndex
  import opened Paths
  import opened Tree
  import opened PathTree
  import opened Results
  import opened ResultSet
  import opened Content

  // ---------------------------------------------------------------- the verdict as a value

  /** What a comparison gets to see of two files besides their contents: whether the looks at their
      first bytes succeed, and in which pieces `read` hands them out. */
  datatype Sight = Sight(sniffA: bool, sniffB: bool, offersA: nat -> int, offersB: nat -> int)

  /** Reads that succeed fill the buffer unless the file ends. */
  ghost predicate FullReads(sight: Sight, size: nat) {
    Fills(sight.offersA, size) && Fills(sight.offersB, size)
  }

  /** The comparison of bytes finds no difference. */
  predicate Alike(size: nat, a: Bytes, b: Bytes, sight: Sight) {
    SameFrom(Source(OK, a, sight.offersA), Source(OK, b, sight.offersB), 0, 0, size)
  }

  /** Both contents are read in pieces of the same lengths. */
  predicate SplitAlike(size: nat, a: Bytes, b: Bytes, sight: Sight) {
    size == 0 || Counts(|a|, sight.offersA, 0, size) == Counts(|b|, sight.offersB, 0, size)
  }

  /** Both files are taken for text. A look that fails makes a file count as binary, without an error. */
  predicate TakenForText(isText: Bytes -> bool, a: Bytes, b: Bytes, sight: Sight) {
    (sight.sniffA && isText(a)) && (sight.sniffB && isText(b))
  }

  /** When the comparison of bytes is right: unequal contents need a real buffer, equal ones must be
      read alike. */
  lemma AlikeIff(size: nat, a: Bytes, b: Bytes, sight: Sight)
    ensures Alike(size, a, b, sight) <==> size == 0 || (a == b && SplitAlike(size, a, b, sight))
    ensures FullReads(sight, size) ==> (Alike(size, a, b, sight) <==> size == 0 || a == b)
  {
    var x, y := Source(OK, a, sight.offersA), Source(OK, b, sight.offersB);
    SameFromMeansEqual(x, y, size);
    if size > 0 {
      LooksEqualIff(x, y, size);
    }
  }

  /** The short cut by hash, and the comparison of bytes when it is asked for. */
  predicate JudgedEqual(config: Config, hash: Bytes -> nat, a: Bytes, b: Bytes, sight: Sight) {
    hash(a) == hash(b) && (config.verifyEqualHashes ==> Alike(config.hashBufferSize, a, b, sight))
  }

  function SimpleRecord(path: Path, change: ChangeType, detail: DetailKind, sizeA: nat, sizeB: nat): ChangeRecord {
    ChangeRecord(path, change, detail, sizeA, sizeB, [])
  }

  function ModifiedRecord(path: Path, sizeA: nat, sizeB: nat, diffs: seq<LineDiff>): ChangeRecord {
    ChangeRecord(path, Modified, if |diffs| > 0 then Lines else BinaryChanged, sizeA, sizeB, diffs)
  }

  /** What settles a path with these sizes in the indexes and these contents on disk. */
  function Verdict(config: Config, hash: Bytes -> nat, isText: Bytes -> bool, path: Path, sizeA: nat, sizeB: nat,
                   a: Bytes, b: Bytes, sight: Sight): Event {
    if sizeA != sizeB then Recorded(SimpleRecord(path, Modified, SizeChanged, sizeA, sizeB))
    else if JudgedEqual(config, hash, a, b, sight) then
      if config.includeUnchanged then Recorded(SimpleRecord(path, Unchanged, NoDetail, sizeA, sizeB))
      else Noted(Unchanged)
    else
      var listed := config.includeLines && TakenForText(isText, a, b, sight);
      Recorded(ModifiedRecord(path, sizeA, sizeB, if listed then LineDiffsOf(a, b) else []))
  }

  /** Exactly when the verdict on files of the indexed sizes tells whether the contents are equal.
      Unequal contents are told apart by size, by hash, or by a verification with a real buffer; equal
      contents are recognised unless verification reads them in different pieces. */
  lemma VerdictRightIff(config: Config, hash: Bytes -> nat, isText: Bytes -> bool, path: Path, a: Bytes, b: Bytes,
                        sight: Sight)
    ensures var v := Verdict(config, hash, isText, path, |a|, |b|, a, b, sight);
            v.Change() == (if a == b then Unchanged else Modified) <==>
              if a == b then !config.verifyEqualHashes || SplitAlike(config.hashBufferSize, a, b, sight)
              else |a| != |b| || hash(a) != hash(b) || (config.verifyEqualHashes && config.hashBufferSize > 0)
  {
    AlikeIff(config.hashBufferSize, a, b, sight);
  }

  /** With verification on, the verdict does not depend on the hash function. */
  lemma VerdictIgnoresHash(config: Config, hash: Bytes -> nat, hash': Bytes -> nat, isText: Bytes -> bool, path: Path,
                           sizeA: nat, sizeB: nat, a: Bytes, b: Bytes, sight: Sight)
    requires config.verifyEqualHashes && config.hashBufferSize > 0
    ensures Verdict(config, hash, isText, path, sizeA, sizeB, a, b, sight) ==
            Verdict(config, hash', isText, path, sizeA, sizeB, a, b, sight)
  {
    AlikeIff(config.hashBufferSize, a, b, sight);
  }

  /** A same-size pair found unequal has its lines listed whenever lines are asked for and both
      files are taken for text; the list is never empty then, if the contents do differ. */
  lemma LinesListedIff(config: Config, hash: Bytes -> nat, isText: Bytes -> bool, path: Path, sizeA: nat, sizeB: nat,
                       a: Bytes, b: Bytes, sight: Sight)
    ensures var v := Verdict(config, hash, isText, path, sizeA, sizeB, a, b, sight);
            v.Recorded? && v.record.detail == Lines <==>
              && sizeA == sizeB && config.includeLines && sight.sniffA && sight.sniffB && isText(a) && isText(b)
              && !JudgedEqual(config, hash, a, b, sight) && a != b
  {
    NoDiffsIffEqual(a, b);
  }

  // ---------------------------------------------------------------- the comparison step by step

  /** The outcome of everything the comparison asks of the system, apart from file contents. */
  datatype CompareIo = CompareIo(
    joinA: bool, joinB: bool,
    hashA: Errno, hashB: Errno,
    openA: Errno, openB: Errno, buffers: bool, sight: Sight,
    linesA: Errno, linesB: Errno, failsA: nat -> Errno, failsB: nat -> Errno, lineMem: nat -> (bool, bool),
    growOk: bool, nodeOk: bool)

  ghost predicate Faultless(io: CompareIo) {
    && io.joinA && io.joinB && io.hashA == OK && io.hashB == OK
    && io.openA == OK && io.openB == OK && io.buffers
    && (forall n :: io.sight.offersA(n) >= 0) && (forall n :: io.sight.offersB(n) >= 0)
    && io.linesA == OK && io.linesB == OK
    && (forall k :: io.failsA(k) == OK) && (forall k :: io.failsB(k) == OK)
    && (forall k :: io.lineMem(k) == (true, true))
    && io.growOk && io.nodeOk
  }

  function ContentAt(fs: FileSystem, path: Path): Option<Bytes> {
    if path in fs && fs[path].File? then Some(fs[path].content) else None
  }

  /** The code of hashing a file. */
  function HashFault(content: Option<Bytes>, fault: Errno): Errno {
    if fault != OK then fault else if content.None? then ENOENT else OK
  }

  /** The code of hashing both files and comparing them if need be. */
  function JudgeFault(config: Config, hash: Bytes -> nat, a: Option<Bytes>, b: Option<Bytes>, io: CompareIo): Errno {
    if HashFault(a, io.hashA) != OK then HashFault(a, io.hashA)
    else if HashFault(b, io.hashB) != OK then HashFault(b, io.hashB)
    else if hash(a.value) == hash(b.value) && config.verifyEqualHashes then
      BinaryFault(Source(io.openA, a.value, io.sight.offersA), Source(io.openB, b.value, io.sight.offersB),
                  config.hashBufferSize, io.buffers)
    else OK
  }

  /** The code of listing the lines that differ, if they are wanted. */
  function ListFault(config: Config, isText: Bytes -> bool, a: Bytes, b: Bytes, io: CompareIo): Errno {
    if config.includeLines && TakenForText(isText, a, b, io.sight) then
      TextFault(TextFile(io.linesA, a, io.failsA), TextFile(io.linesB, b, io.failsB), io.lineMem)
    else OK
  }

  /** The code of everything the comparison of two files of one size asks of the system, before the result
      set is touched. */
  function ExamineFault(config: Config, hash: Bytes -> nat, isText: Bytes -> bool, a: Option<Bytes>, b: Option<Bytes>,
                        io: CompareIo): Errno {
    if !io.joinA || !io.joinB then ENOMEM
    else
      var rc := JudgeFault(config, hash, a, b, io);
      if rc != OK then rc
      else if JudgedEqual(config, hash, a.value, b.value, io.sight) then OK
      else ListFault(config, isText, a.value, b.value, io)
  }

  /** A comparison succeeds exactly if both paths can be joined, both files can be hashed, every byte needed
      can be read when equal hashes are to be verified, and every line when lines are to be listed. */
  lemma ExamineFaultIff(config: Config, hash: Bytes -> nat, isText: Bytes -> bool, a: Option<Bytes>, b: Option<Bytes>,
                        io: CompareIo)
    ensures ExamineFault(config, hash, isText, a, b, io) == OK <==>
              && io.joinA && io.joinB && io.hashA == 0 && io.hashB == 0 && a.Some? && b.Some?
              && (hash(a.value) == hash(b.value) && config.verifyEqualHashes ==>
                    && io.openA == 0 && io.openB == 0 && io.buffers
                    && ReadFault(Source(0, a.value, io.sight.offersA), Source(0, b.value, io.sight.offersB), 0, 0,
                                 config.hashBufferSize) == 0)
              && (!JudgedEqual(config, hash, a.value, b.value, io.sight) && config.includeLines && io.sight.sniffA &&
                  io.sight.sniffB && isText(a.value) && isText(b.value) ==>
                    && io.linesA == 0 && io.linesB == 0
                    && LinesFault(TextFile(0, a.value, io.failsA), TextFile(0, b.value, io.failsB),
                                  SplitLines(a.value), SplitLines(b.value), 1, 0, 0, io.lineMem) == 0)
    ensures !io.joinA || !io.joinB ==> ExamineFault(config, hash, isText, a, b, io) == 12
    ensures io.joinA && io.joinB && io.hashA == 0 && io.hashB == 0 && a.Some? && b.Some? &&
            hash(a.value) == hash(b.value) && config.verifyEqualHashes && io.openA == 0 && io.openB == 0 &&
            !io.buffers ==>
              ExamineFault(config, hash, isText, a, b, io) == 12
  {
    hide ReadFault, LinesFault, JudgedEqual;
  }

  /** Nothing stands in the way of a comparison whose calls all succeed. */
  lemma FaultlessExamine(config: Config, hash: Bytes -> nat, isText: Bytes -> bool, a: Option<Bytes>, b: Option<Bytes>,
                         io: CompareIo)
    requires Faultless(io) && a.Some? && b.Some?
    ensures ExamineFault(config, hash, isText, a, b, io) == OK
  {
    hide ReadFault, LinesFault, JudgedEqual;
    UnfailingReads(Source(OK, a.value, io.sight.offersA), Source(OK, b.value, io.sight.offersB), 0, 0,
                   config.hashBufferSize);
    UnfailingLines(TextFile(OK, a.value, io.failsA), TextFile(OK, b.value, io.failsB), 0, io.lineMem);
  }

  /** `hash_file_xxh3`, whose inner workings are not modelled: an error, or the hash of the bytes. */
  method HashFile(fs: FileSystem, path: Path, fault: Errno, hash: Bytes -> nat) returns (rc: Errno, h: nat)
    ensures rc == HashFault(ContentAt(fs, path), fault)
    ensures rc == OK ==> h == hash(ContentAt(fs, path).value)
  {
    if fault != OK {
      return fault, 0;
    }
    var content := ContentAt(fs, path);
    if content.None? {
      return ENOENT, 0;
    }
    return OK, hash(content.value);
  }

  /** Hashes both files and, if need be, compares their bytes. */
  method Judge(config: Config, fs: FileSystem, pathA: Path, pathB: Path, hash: Bytes -> nat, io: CompareIo)
    returns (rc: Errno, equal: bool)
    ensures rc == OK ==> ContentAt(fs, pathA).Some? && ContentAt(fs, pathB).Some?
    ensures rc == OK ==>
              (equal <==> JudgedEqual(config, hash, ContentAt(fs, pathA).value, ContentAt(fs, pathB).value, io.sight))
    ensures rc == JudgeFault(config, hash, ContentAt(fs, pathA), ContentAt(fs, pathB), io)
  {
    hide Chunks, BinaryFault;
    equal := false;
    var hashA, hashB := 0, 0;
    rc, hashA := HashFile(fs, pathA, io.hashA, hash);
    if rc == OK {
      rc, hashB := HashFile(fs, pathB, io.hashB, hash);
    }
    if rc == OK {
      if hashA != hashB {
        equal := false;
      } else if config.verifyEqualHashes {
        var a := Source(io.openA, fs[pathA].content, io.sight.offersA);
        var b := Source(io.openB, fs[pathB].content, io.sight.offersB);
        rc, equal := CompareBinaryFiles(a, b, config.hashBufferSize, io.buffers);
      } else {
        equal := true;
      }
    }
  }

  /** The line differences of two text files, or none. */
  method ListLines(config: Config, a: Bytes, b: Bytes, isText: Bytes -> bool, io: CompareIo)
    returns (rc: Errno, diffs: seq<LineDiff>)
    ensures rc == OK ==>
              diffs == if config.includeLines && TakenForText(isText, a, b, io.sight) then LineDiffsOf(a, b) else []
    ensures rc == ListFault(config, isText, a, b, io)
  {
    hide LineDiffsOf, TextFault;
    rc, diffs := OK, [];
    if config.includeLines && (io.sight.sniffA && isText(a)) && (io.sight.sniffB && isText(b)) {
      var lines := new LineDiffVector();
      rc := DetectLineDifferences(TextFile(io.linesA, a, io.failsA), TextFile(io.linesB, b, io.failsB), lines,
                                  io.lineMem);
      if rc == OK {
        diffs := lines.Contents();
      }
    }
  }

  /** The two files under their roots. */
  function SideA(config: Config, fs: FileSystem, path: Path): Option<Bytes> {
    ContentAt(fs, JoinPath(config.rootA, path))
  }

  function SideB(config: Config, fs: FileSystem, path: Path): Option<Bytes> {
    ContentAt(fs, JoinPath(config.rootB, path))
  }

  /** The part of `compare_candidate_file` that opens the files: their verdict, or an error. */
  method Examine(config: Config, fs: FileSystem, path: Path, size: nat, hash: Bytes -> nat, isText: Bytes -> bool,
                 io: CompareIo)
    returns (rc: Errno, e: Event)
    ensures rc == OK ==> SideA(config, fs, path).Some? && SideB(config, fs, path).Some?
    ensures rc == OK ==> var a, b := SideA(config, fs, path).value, SideB(config, fs, path).value;
                         e == Verdict(config, hash, isText, path, size, size, a, b, io.sight)
    ensures rc == ExamineFault(config, hash, isText, SideA(config, fs, path), SideB(config, fs, path), io)
  {
    hide JoinPath, JudgedEqual, LineDiffsOf, JudgeFault, ListFault;
    e := Noted(Unchanged);
    if !io.joinA || !io.joinB {
      return ENOMEM, e;
    }
    var pathA, pathB := JoinPath(config.rootA, path), JoinPath(config.rootB, path);
    var equal;
    rc, equal := Judge(config, fs, pathA, pathB, hash, io);
    if rc != OK {
      return;
    }
    if equal {
      e := if config.includeUnchanged then Recorded(SimpleRecord(path, Unchanged, NoDetail, size, size))
           else Noted(Unchanged);
    } else {
      var diffs;
      rc, diffs := ListLines(config, fs[pathA].content, fs[pathB].content, isText, io);
      e := Recorded(ModifiedRecord(path, size, size, diffs));
    }
  }

  /** Hands the verdict to the result set. */
  method Deliver(e: Event, results: ResultSet, io: CompareIo) returns (rc: Errno)
    requires results.Valid()
    modifies results, results.items, Nodes(results.layout)
    ensures results.Valid() && (results.items == old(results.items) || fresh(results.items))
    ensures fresh(Nodes(results.layout) - old(Nodes(results.layout)))
    ensures results.View() == if rc == OK then Settle(old(results.View()), e) else old(results.View())
    ensures (rc == OK || rc == ENOMEM) && (io.growOk && io.nodeOk ==> rc == OK)
  {
    hide Consistent, ResultSet.Valid;
    match e
    case Recorded(record) =>
      rc := results.Push(record, io.growOk, io.nodeOk);
    case Noted(change) =>
      results.NoteType(change);
      rc := OK;
  }

  /** `compare_candidate_file`: the result set gains exactly the verdict on the path, or an error is
      returned and it is as it was. */
  method CompareCandidateFile(config: Config, indexA: FileIndex, indexB: FileIndex, fs: FileSystem, path: Path,
                              results: ResultSet, hash: Bytes -> nat, isText: Bytes -> bool, io: CompareIo)
    returns (rc: Errno)
    requires indexA.Valid() && indexB.Valid() && results.Valid()
    modifies results, results.items, Nodes(results.layout)
    ensures results.Valid() && (results.items == old(results.items) || fresh(results.items))
    ensures fresh(Nodes(results.layout) - old(Nodes(results.layout)))
    ensures rc != OK ==> results.View() == old(results.View())
    ensures rc == OK ==> path in old(indexA.contents) && path in old(indexB.contents)
    ensures rc == OK && old(indexA.contents)[path] != old(indexB.contents)[path] ==>
              results.View() == Settle(old(results.View()),
                                       Recorded(SimpleRecord(path, Modified, SizeChanged, old(indexA.contents)[path],
                                                             old(indexB.contents)[path])))
    ensures rc == OK && old(indexA.contents)[path] == old(indexB.contents)[path] ==>
              && SideA(config, fs, path).Some? && SideB(config, fs, path).Some?
              && var a, b := SideA(config, fs, path).value, SideB(config, fs, path).value;
                 results.View() == Settle(old(results.View()),
                   Verdict(config, hash, isText, path, old(indexA.contents)[path], old(indexB.contents)[path], a, b,
                           io.sight))
    ensures path !in old(indexA.contents) || path !in old(indexB.contents) ==> rc == ENOENT
    ensures path in old(indexA.contents) && path in old(indexB.contents) ==>
              var a, b := SideA(config, fs, path), SideB(config, fs, path);
              var fault := if old(indexA.contents)[path] != old(indexB.contents)[path] then OK
                           else ExamineFault(config, hash, isText, a, b, io);
              if fault != OK then rc == fault
              else (rc == OK || rc == ENOMEM) && (io.growOk && io.nodeOk ==> rc == OK)
    ensures Faultless(io) && path in old(indexA.contents) && path in old(indexB.contents) &&
            SideA(config, fs, path).Some? && SideB(config, fs, path).Some? ==>
              rc == OK
  {
    hide FileIndex.Valid, ResultSet.Valid, ResultSet.View, Verdict, Settle, SideA, SideB, Faultless, ExamineFault;
    if Faultless(io) && SideA(config, fs, path).Some? && SideB(config, fs, path).Some? {
      FaultlessExamine(config, hash, isText, SideA(config, fs, path), SideB(config, fs, path), io);
    }
    assert allocated(Nodes(results.layout));
    var sizeA := indexA.Find(path);
    var sizeB := indexB.Find(path);
    if sizeA.None? || sizeB.None? {
      return ENOENT;
    }
    var e;
    if sizeA.value != sizeB.value {
      e := Recorded(SimpleRecord(path, Modified, SizeChanged, sizeA.value, sizeB.value));
    } else {
      rc, e := Examine(config, fs, path, sizeA.value, hash, isText, io);
      if rc != OK {
        return;
      }
    }
    ghost var nodes := Nodes(results.layout);
    label Examined:
    rc := Deliver(e, results, io);
    assert forall o :: o in Nodes(results.layout) && o !in nodes ==> !old@Examined(allocated(o));
    assert forall o :: o in Nodes(results.layout) && o !in nodes ==> !old(allocated(o));
    FaultlessPushes(io);
  }

  lemma FaultlessPushes(io: CompareIo)
    ensures Faultless(io) ==> io.growOk && io.nodeOk
  {
  }
}
