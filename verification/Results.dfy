/** What has been reported so far, as a value: the records, the four counters and the shape of
    the ordered tree (src/index.c:209-305). `ResultSet` keeps the same state on the heap. */
module Results {
  import opened Common
  import opened Avl

  datatype Report = Report(
    records: seq<ChangeRecord>,
    unchangedCount: nat,
    modifiedCount: nat,
    addedCount: nat,
    removedCount: nat,
    tree: Tree)

  const EMPTY: Report := Report([], 0, 0, 0, 0, Leaf)

  function Bump(rs: Report, change: ChangeType): Report {
    match change
    case Unchanged => rs.(unchangedCount := rs.unchangedCount + 1)
    case Modified => rs.(modifiedCount := rs.modifiedCount + 1)
    case Added => rs.(addedCount := rs.addedCount + 1)
    case Removed => rs.(removedCount := rs.removedCount + 1)
  }

  function Counter(rs: Report, change: ChangeType): nat {
    match change
    case Unchanged => rs.unchangedCount
    case Modified => rs.modifiedCount
    case Added => rs.addedCount
    case Removed => rs.removedCount
  }

  function Push(rs: Report, record: ChangeRecord): Report {
    var records := rs.records + [record];
    Bump(rs.(records := records, tree := Insert(records, rs.tree, |rs.records|)), record.change)
  }

  /** No later record has the same path. */
  ghost predicate Latest(records: seq<ChangeRecord>, i: nat) {
    forall j :: i < j < |records| ==> PathAt(records, j) != PathAt(records, i)
  }

  /** The tree is a balanced search tree holding the latest record of every path. */
  ghost predicate Indexes(tree: Tree, records: seq<ChangeRecord>) {
    && Balanced(tree)
    && Increasing(records, InOrder(tree))
    && (forall i: nat :: i in InOrder(tree) <==> i < |records| && Latest(records, i))
  }

  ghost predicate Consistent(rs: Report) {
    Indexes(rs.tree, rs.records)
  }

  lemma IncreasingReadsPrefix(records: seq<ChangeRecord>, record: ChangeRecord, s: seq<nat>)
    requires Increasing(records, s) && forall x :: x in s ==> x < |records|
    ensures Increasing(records + [record], s)
  {
    forall i, j | 0 <= i < j < |s| ensures Before(PathAt(records + [record], s[i]), PathAt(records + [record], s[j])) {
      assert s[i] in s && s[j] in s;
    }
  }

  lemma LatestAfterPush(records: seq<ChangeRecord>, record: ChangeRecord, i: nat)
    requires i < |records|
    ensures Latest(records + [record], i) <==> Latest(records, i) && records[i].path != record.path
  {
    var all := records + [record];
    assert forall j :: 0 <= j < |records| ==> PathAt(all, j) == PathAt(records, j);
    assert PathAt(all, |records|) == record.path;
  }

  /** The new record enters the listing and replaces an earlier one with its path. */
  lemma ListedAfterPush(records: seq<ChangeRecord>, record: ChangeRecord, s: seq<nat>)
    requires Increasing(records, s)
    requires forall i: nat :: i in s <==> i < |records| && Latest(records, i)
    ensures var all := records + [record];
            var s' := InsertSorted(all, s, |records|);
            Increasing(all, s') && forall i: nat :: i in s' <==> i < |all| && Latest(all, i)
  {
    var all := records + [record];
    var s' := InsertSorted(all, s, |records|);
    IncreasingReadsPrefix(records, record, s);
    InsertSortedIncreasing(all, s, |records|);
    forall i: nat ensures i in s' <==> i < |all| && Latest(all, i) {
      if i < |records| {
        LatestAfterPush(records, record, i);
        assert PathAt(all, i) == records[i].path;
      }
    }
  }

  /** A successful push keeps the tree consistent with the records. */
  lemma PushConsistent(rs: Report, record: ChangeRecord)
    requires Consistent(rs)
    ensures Consistent(Push(rs, record))
  {
    InsertIndexes(rs.tree, rs.records, record);
  }

  lemma InsertIndexes(tree: Tree, records: seq<ChangeRecord>, record: ChangeRecord)
    requires Indexes(tree, records)
    ensures Indexes(Insert(records + [record], tree, |records|), records + [record])
  {
    var all := records + [record];
    ListedAfterPush(records, record, InOrder(tree));
    IncreasingReadsPrefix(records, record, InOrder(tree));
    InsertInOrder(all, tree, |records|);
    InsertBalanced(all, tree, |records|);
  }

  /** The descent meets an equal path exactly when some earlier record has that path. */
  lemma MeetsIffPushed(rs: Report, record: ChangeRecord)
    requires Consistent(rs)
    ensures Meets(rs.records + [record], rs.tree, |rs.records|) <==>
              exists i :: 0 <= i < |rs.records| && rs.records[i].path == record.path
  {
    var all, n := rs.records + [record], |rs.records|;
    IncreasingReadsPrefix(rs.records, record, InOrder(rs.tree));
    MeetsIffListed(all, rs.tree, n);
    if i :| 0 <= i < n && rs.records[i].path == record.path {
      var j := LatestWithPath(rs.records, i);
      assert j in InOrder(rs.tree) && PathAt(all, j) == PathAt(all, n);
    }
  }

  lemma LatestWithPath(records: seq<ChangeRecord>, i: nat) returns (j: nat)
    requires i < |records|
    ensures i <= j < |records| && records[j].path == records[i].path && Latest(records, j)
    decreases |records| - i
  {
    if Latest(records, i) {
      j := i;
    } else {
      var k :| i < k < |records| && PathAt(records, k) == PathAt(records, i);
      j := LatestWithPath(records, k);
    }
  }

  // ---------------------------------------------------------------- replay

  /** What settles a path: a record, or only a tick of a counter. */
  datatype Event = Recorded(record: ChangeRecord) | Noted(noted: ChangeType) {
    function Change(): ChangeType {
      if Recorded? then record.change else noted
    }
  }

  function Settle(rs: Report, e: Event): Report {
    if e.Recorded? then Push(rs, e.record) else Bump(rs, e.noted)
  }

  function Replay(es: seq<Event>): Report {
    if es == [] then EMPTY else Settle(Replay(es[..|es| - 1]), es[|es| - 1])
  }

  function RecordsOf(es: seq<Event>): seq<ChangeRecord> {
    if es == [] then []
    else
      var rest := RecordsOf(es[..|es| - 1]);
      if es[|es| - 1].Recorded? then rest + [es[|es| - 1].record] else rest
  }

  /** How many of the events are of this change type. */
  function Tally(es: seq<Event>, change: ChangeType): nat {
    if es == [] then 0
    else Tally(es[..|es| - 1], change) + (if es[|es| - 1].Change() == change then 1 else 0)
  }

  /** Whatever was settled, in whatever order: the tree is consistent, the records are the ones
      pushed, and each counter counts the events of its type. */
  lemma {:induction false} ReplayAgrees(es: seq<Event>)
    ensures Consistent(Replay(es))
    ensures Replay(es).records == RecordsOf(es)
    ensures forall c :: Counter(Replay(es), c) == Tally(es, c)
  {
    if es != [] {
      var before, e := es[..|es| - 1], es[|es| - 1];
      ReplayAgrees(before);
      if e.Recorded? {
        PushConsistent(Replay(before), e.record);
      }
    }
  }

  /** The records in the order of the report. */
  function Listing(rs: Report): seq<ChangeRecord>
    requires forall i :: i in InOrder(rs.tree) ==> i < |rs.records|
  {
    var s := InOrder(rs.tree);
    seq(|s|, j requires 0 <= j < |s| => assert s[j] in s; rs.records[s[j]])
  }
}
