/** From settled paths to the report: which records there are, what the counters say, and in which
    order the rows come out. */
module Reporting {
  import opened Common
  import opened Avl
  import opened Results

  ghost predicate NoRepeats<T>(s: seq<T>) {
    forall i, j :: 0 <= i < j < |s| ==> s[i] != s[j]
  }

  lemma {:induction false} CountOfNoRepeats<T>(s: seq<T>)
    requires NoRepeats(s)
    ensures forall x :: multiset(s)[x] <= 1
  {
    if s != [] {
      var init, last := s[..|s| - 1], s[|s| - 1];
      CountOfNoRepeats(init);
      assert s == init + [last] && last !in init;
    }
  }

  lemma NoRepeatsByCount<T>(s: seq<T>)
    requires forall x :: multiset(s)[x] <= 1
    ensures NoRepeats(s)
  {
    forall i, j | 0 <= i < j < |s| ensures s[i] != s[j] {
      var l, r := s[..j], s[j..];
      assert s == l + r && l[i] in l && r[0] in r;
      assert multiset(s)[s[j]] == multiset(l)[s[j]] + multiset(r)[s[j]];
    }
  }

  lemma PermutationNoRepeats<T>(s: seq<T>, t: seq<T>)
    requires multiset(s) == multiset(t) && NoRepeats(t)
    ensures NoRepeats(s) && forall x :: x in s <==> x in t
  {
    CountOfNoRepeats(t);
    NoRepeatsByCount(s);
    forall x ensures x in s <==> x in t {
      assert x in s <==> x in multiset(s);
      assert x in t <==> x in multiset(t);
    }
  }

  // ---------------------------------------------------------------- sorted lists of records

  ghost predicate StrictlySorted(rs: seq<ChangeRecord>) {
    forall i, j :: 0 <= i < j < |rs| ==> Before(rs[i].path, rs[j].path)
  }

  lemma SortedHead(s: seq<ChangeRecord>, t: seq<ChangeRecord>)
    requires s != [] && t != [] && StrictlySorted(s) && StrictlySorted(t)
    requires forall r :: r in s <==> r in t
    ensures s[0] == t[0]
  {
    assert s[0] in t && t[0] in s;
    var i :| 0 <= i < |t| && t[i] == s[0];
    var j :| 0 <= j < |s| && s[j] == t[0];
    if i > 0 && j > 0 {
      StrCmpAntisymmetric(s[0].path, t[0].path);
    }
  }

  lemma EmptyTogether(s: seq<ChangeRecord>, t: seq<ChangeRecord>)
    requires forall r :: r in s <==> r in t
    ensures s == [] <==> t == []
  {
    if s != [] { assert s[0] in t; }
    if t != [] { assert t[0] in s; }
  }

  /** There is only one way to list a set of records in strict order of path. */
  lemma {:induction false} SortedListUnique(s: seq<ChangeRecord>, t: seq<ChangeRecord>)
    requires StrictlySorted(s) && StrictlySorted(t)
    requires forall r :: r in s <==> r in t
    ensures s == t
  {
    EmptyTogether(s, t);
    if s != [] {
      SortedHead(s, t);
      assert s == [s[0]] + s[1..] && t == [t[0]] + t[1..];
      SortedTail(s);
      SortedTail(t);
      SortedListUnique(s[1..], t[1..]);
    }
  }

  lemma SortedTail(s: seq<ChangeRecord>)
    requires s != [] && StrictlySorted(s)
    ensures StrictlySorted(s[1..]) && s[0] !in s[1..]
    ensures forall r :: r in s[1..] <==> r in s && r != s[0]
  {
    forall i | 0 <= i < |s[1..]| ensures s[1..][i] != s[0] {
      assert Before(s[0].path, s[i + 1].path);
    }
    assert s == [s[0]] + s[1..];
  }

  // ---------------------------------------------------------------- the listing

  ghost predicate DistinctPaths(records: seq<ChangeRecord>) {
    forall i, j :: 0 <= i < j < |records| ==> records[i].path != records[j].path
  }

  lemma AllLatest(records: seq<ChangeRecord>)
    requires DistinctPaths(records)
    ensures forall i: nat :: i < |records| ==> Latest(records, i)
  {
  }

  /** With a consistent result set in which no path repeats, the tree has one node for every record,
      and an in-order walk lists all the records in strict order of path. */
  lemma ListingSorted(rs: Report)
    requires Consistent(rs) && DistinctPaths(rs.records)
    ensures forall i: nat :: i in InOrder(rs.tree) <==> i < |rs.records|
    ensures |InOrder(rs.tree)| == |rs.records|
    ensures StrictlySorted(Listing(rs))
    ensures forall r :: r in Listing(rs) <==> r in rs.records
  {
    AllLatest(rs.records);
    var s, l := InOrder(rs.tree), Listing(rs);
    IndicesAreRange(rs.records, s);
    forall i, j | 0 <= i < j < |l| ensures Before(l[i].path, l[j].path) {
      assert s[i] in s && s[j] in s;
      assert Before(PathAt(rs.records, s[i]), PathAt(rs.records, s[j]));
    }
    forall r ensures r in l <==> r in rs.records {
      if r in l {
        var j :| 0 <= j < |l| && l[j] == r;
        assert s[j] in s;
      }
      if r in rs.records {
        var i :| 0 <= i < |rs.records| && rs.records[i] == r;
        assert i in s;
        var j :| 0 <= j < |s| && s[j] == i;
        assert l[j] == r;
      }
    }
  }

  lemma IndicesAreRange(records: seq<ChangeRecord>, s: seq<nat>)
    requires Increasing(records, s) && forall i: nat :: i in s <==> i < |records|
    ensures |s| == |records|
  {
    forall i, j | 0 <= i < j < |s| ensures s[i] != s[j] {
      assert Before(PathAt(records, s[i]), PathAt(records, s[j]));
    }
    ElementsCount(s);
    assert Elements(s) == Range(|records|);
  }

  function Elements<T(!new, ==)>(s: seq<T>): (e: set<T>)
    ensures forall x :: x in e <==> x in s
  {
    if s == [] then {} else
      assert s == s[..|s| - 1] + [s[|s| - 1]];
      Elements(s[..|s| - 1]) + {s[|s| - 1]}
  }

  lemma {:induction false} ElementsCount<T(!new)>(s: seq<T>)
    requires NoRepeats(s)
    ensures |Elements(s)| == |s|
  {
    if s != [] {
      ElementsCount(s[..|s| - 1]);
    }
  }

  function Range(n: nat): (e: set<nat>)
    ensures |e| == n && forall i: nat :: i in e <==> i < n
  {
    if n == 0 then {} else Range(n - 1) + {n - 1}
  }

  /** The rows of the detailed report (src/output.c:123-128): unchanged records are passed over. */
  function Rows(records: seq<ChangeRecord>): seq<ChangeRecord> {
    if records == [] then []
    else if records[0].change == Unchanged then Rows(records[1..])
    else [records[0]] + Rows(records[1..])
  }

  lemma {:induction false} RowsKept(records: seq<ChangeRecord>)
    requires StrictlySorted(records)
    ensures StrictlySorted(Rows(records))
    ensures forall r :: r in Rows(records) <==> r in records && r.change != Unchanged
  {
    if records != [] {
      assert records == [records[0]] + records[1..];
      SortedTail(records);
      RowsKept(records[1..]);
      var rest := Rows(records[1..]);
      forall j | 0 <= j < |rest| ensures Before(records[0].path, rest[j].path) {
        assert rest[j] in records[1..];
        var k :| 0 <= k < |records[1..]| && records[1..][k] == rest[j];
        assert Before(records[0].path, records[k + 1].path);
      }
    }
  }
}
