/** src/output.c:71-87, 123-200 and 233-289: the rows of the detailed report, written from the result
    set, and the text of the line differences as it is printed. */
module Output {
  import opened Common
  import opened Paths
  import opened Content
  import opened Avl
  import opened PathTree
  import opened Results
  import opened ResultSet
  import R = Reporting

  /** What `write_record_row` returns when asked for a record that can or cannot be written. */
  const WRITE_FAILED: Errno := -1

  function WriteRow(record: ChangeRecord, canWrite: ChangeRecord -> bool): Errno {
    if record.change == Unchanged || canWrite(record) then OK else WRITE_FAILED
  }

  /** The visitor: record indices stand for records. */
  function RowWriter(records: seq<ChangeRecord>, canWrite: ChangeRecord -> bool): nat -> Errno {
    (i: nat) => if i < |records| then WriteRow(records[i], canWrite) else OK
  }

  /** A walk ends with the first index that is refused. */
  lemma {:induction false} VisitStops(s: seq<nat>, visitor: nat -> Errno)
    ensures var (rc, seen) := Visit(s, visitor);
            && seen <= s && (rc == OK ==> seen == s)
            && (rc != OK ==> seen != [] && rc == visitor(seen[|seen| - 1]))
            && (forall j :: 0 <= j < |seen| - (if rc == OK then 0 else 1) ==> visitor(seen[j]) == OK)
  {
    if s != [] && visitor(s[0]) == OK {
      VisitStops(s[1..], visitor);
      var (rc, rest) := Visit(s[1..], visitor);
      assert [s[0]] + s[1..] == s;
      forall j | 0 <= j < |rest| + 1 - (if rc == OK then 0 else 1) ensures visitor(([s[0]] + rest)[j]) == OK {
        if j > 0 {
          assert ([s[0]] + rest)[j] == rest[j - 1];
        }
      }
    }
  }

  lemma {:induction false} RowsAppend(l: seq<ChangeRecord>, m: seq<ChangeRecord>)
    ensures R.Rows(l + m) == R.Rows(l) + R.Rows(m)
  {
    if l == [] {
      assert l + m == m;
    } else {
      assert (l + m)[1..] == l[1..] + m;
      RowsAppend(l[1..], m);
    }
  }

  lemma RowsOfOne(record: ChangeRecord)
    ensures R.Rows([record]) == if record.change == Unchanged then [] else [record]
  {
    assert [record][1..] == [];
  }

  /** The rows up to and including one more record. */
  lemma RowsNext(all: seq<ChangeRecord>, k: nat)
    requires k < |all|
    ensures R.Rows(all[..k + 1]) == R.Rows(all[..k]) + (if all[k].change == Unchanged then [] else [all[k]])
  {
    hide R.Rows;
    assert all[..k + 1] == all[..k] + [all[k]];
    RowsAppend(all[..k], [all[k]]);
    RowsOfOne(all[k]);
  }

  lemma RowsSplit(all: seq<ChangeRecord>, k: nat)
    requires k <= |all|
    ensures R.Rows(all) == R.Rows(all[..k]) + R.Rows(all[k..])
  {
    hide R.Rows;
    assert all == all[..k] + all[k..];
    RowsAppend(all[..k], all[k..]);
  }

  lemma {:induction false} RowsIn(all: seq<ChangeRecord>)
    ensures forall r :: r in R.Rows(all) <==> r in all && r.change != Unchanged
  {
    if all != [] {
      RowsIn(all[1..]);
      assert all == [all[0]] + all[1..];
    }
  }

  lemma TreeWithin(rs: Report)
    requires Consistent(rs)
    ensures forall i :: i in InOrder(rs.tree) ==> i < |rs.records|
  {
  }

  /** What a walk over the listing writes, and where it stops. */
  ghost predicate Written(l: seq<ChangeRecord>, rc: Errno, done: nat, canWrite: ChangeRecord -> bool) {
    && done <= |l| && (rc == OK ==> done == |l|) && (rc == OK || rc == WRITE_FAILED)
    && (forall j :: 0 <= j < done ==> WriteRow(l[j], canWrite) == OK)
    && (rc != OK ==> done < |l| && WriteRow(l[done], canWrite) != OK)
  }

  lemma WalkWrites(rs: Report, canWrite: ChangeRecord -> bool)
    requires forall i :: i in InOrder(rs.tree) ==> i < |rs.records|
    ensures var (rc, seen) := Visit(InOrder(rs.tree), RowWriter(rs.records, canWrite));
            var done := if rc == OK then |seen| else |seen| - 1;
            && done >= 0 && seen <= InOrder(rs.tree) && Written(Listing(rs), rc, done, canWrite)
            && (forall j :: 0 <= j < done ==> seen[j] < |rs.records| && rs.records[seen[j]] == Listing(rs)[j])
  {
    var s, visitor, l := InOrder(rs.tree), RowWriter(rs.records, canWrite), Listing(rs);
    VisitStops(s, visitor);
    forall j | 0 <= j < |s| ensures s[j] < |rs.records| && visitor(s[j]) == WriteRow(l[j], canWrite) {
      assert s[j] in s;
    }
    var (rc, seen) := Visit(s, visitor);
    assert forall j :: 0 <= j < |seen| ==> seen[j] == s[j];
  }

  /** The rows written are all of them, or those before the first that cannot be written. */
  lemma WrittenRows(l: seq<ChangeRecord>, rc: Errno, done: nat, canWrite: ChangeRecord -> bool)
    requires Written(l, rc, done, canWrite)
    ensures rc == OK ==> R.Rows(l[..done]) == R.Rows(l)
    ensures rc != OK ==> R.Rows(l[..done]) < R.Rows(l) && !canWrite(R.Rows(l)[|R.Rows(l[..done])|])
    ensures rc == OK <==> forall r :: r in R.Rows(l) ==> canWrite(r)
    ensures (forall r :: r in R.Rows(l[..done]) ==> canWrite(r)) && (rc == OK || rc == WRITE_FAILED)
  {
    RowsIn(l);
    RowsIn(l[..done]);
    forall r | r in R.Rows(l[..done]) ensures canWrite(r) {
      var j :| 0 <= j < done && l[..done][j] == r;
      assert WriteRow(l[j], canWrite) == OK;
    }
    if rc == OK {
      assert l[..done] == l;
      forall r | r in R.Rows(l) ensures canWrite(r) {
        var j :| 0 <= j < |l| && l[j] == r;
        assert WriteRow(l[j], canWrite) == OK;
      }
    } else {
      assert l[done] in l;
      RowsSplit(l, done);
      assert R.Rows(l[done..])[0] == l[done];
    }
  }

  /** The walk with `write_record_row`: on success the rows written are those of the listing; a row that
      cannot be written ends the walk, with the rows before it written. */
  method WriteRows(results: ResultSet, canWrite: ChangeRecord -> bool) returns (rc: Errno, rows: seq<ChangeRecord>)
    requires results.Valid()
    ensures forall i :: i in InOrder(results.View().tree) ==> i < |results.View().records|
    ensures rc == OK ==> rows == R.Rows(Listing(results.View()))
    ensures rc != OK ==> rows < R.Rows(Listing(results.View())) && !canWrite(R.Rows(Listing(results.View()))[|rows|])
    ensures rc == OK <==> forall r :: r in R.Rows(Listing(results.View())) ==> canWrite(r)
    ensures (forall r :: r in rows ==> canWrite(r)) && (rc == OK || rc == WRITE_FAILED)
  {
    hide Written, Consistent, R.Rows;
    ghost var rs := results.View();
    TreeWithin(rs);
    ghost var l, tree := Listing(rs), Shape(results.layout);
    assert allocated(Nodes(results.layout));
    var records := results.items[..results.count];
    WalkWrites(rs, canWrite);
    var seen;
    rc, seen := Inorder(results.orderedRoot, RowWriter(records, canWrite), results.layout);
    rows := [];
    var done := if rc == OK then |seen| else |seen| - 1;
    WrittenRows(l, rc, done, canWrite);
    RowsOfNothing();
    for j := 0 to done
      invariant rows == R.Rows(l[..j])
    {
      RowsNext(l, j);
      if records[seen[j]].change != Unchanged {
        rows := rows + [records[seen[j]]];
      }
    }
  }

  lemma RowsOfNothing()
    ensures R.Rows([]) == []
  {
  }

  // ---------------------------------------------------------------- printed text

  const DOTS: Bytes := [46, 46, 46]

  /** The columns a side of the line-difference view is printed in. */
  const WIDTH: nat := 36

  /** What `strlen` leaves of stored text: everything up to the first zero byte. */
  function CString(s: Bytes): (c: Bytes)
    ensures IsCString(c) && c <= s && (|c| == |s| || s[|c|] == 0)
  {
    if s == [] || s[0] == 0 then []
    else
      assert s == [s[0]] + s[1..];
      [s[0]] + CString(s[1..])
  }

  /** `clip_text` as a value: longer text ends in dots. */
  function Clip(s: Bytes, width: nat): Bytes {
    if |s| <= width then s
    else if width <= 3 then s[..width]
    else s[..width - 3] + DOTS
  }

  /** The shape of clipped text at every width: it never takes more columns; text that fits is printed
      whole, and of longer text, if there is room for dots, everything but the last three columns. */
  lemma ClipFits(s: Bytes, width: nat)
    ensures var c := Clip(s, width);
            && |c| == (if |s| < width then |s| else width)
            && (|s| <= width ==> c == s)
            && (|s| > width && width <= 3 ==> c == s[..width])
            && (|s| > width > 3 ==> c[..width - 3] == s[..width - 3] && c[width - 3..] == [46, 46, 46])
  {
  }

  /** `clip_text`: the clipped text and its terminator, in a buffer that may be too small for `width`. */
  method ClipText(src: Path, width: nat, dest: array<byte>)
    requires dest.Length > 0
    modifies dest
    ensures var c := Clip(src, if width + 1 > dest.Length then dest.Length - 1 else width);
            |c| < dest.Length && dest[..|c| + 1] == c + [0]
  {
    var w := width;
    if w + 1 > dest.Length {
      w := dest.Length - 1;
    }
    if |src| <= w {
      CopyBytes(dest, 0, src + [0]);
      return;
    }
    if w <= 3 {
      CopyBytes(dest, 0, src[..w]);
      dest[w] := 0;
      assert dest[..w] == src[..w];
      return;
    }
    CopyBytes(dest, 0, src[..w - 3]);
    CopyBytes(dest, w - 3, DOTS + [0]);
    assert dest[..w + 1] == dest[..w - 3] + dest[w - 3..w + 1];
    assert src[..w - 3] + (DOTS + [0]) == src[..w - 3] + DOTS + [0];
  }

  /** A side of a pair as it is printed. */
  function Printed(text: Bytes): Bytes {
    Clip(CString(text), WIDTH)
  }

  /** Text that is printed with dots in its last three columns, its own or those of the clipping. */
  predicate EndsInDots(s: Bytes) {
    |s| > WIDTH || (|s| == WIDTH && s[WIDTH - 3..] == DOTS)
  }

  /** Exactly which texts are printed alike: equal ones, and those that agree up to the last three columns
      and show dots there. */
  lemma PrintedAlikeIff(x: Bytes, y: Bytes)
    ensures var p, q := CString(x), CString(y);
            Printed(x) == Printed(y) <==>
              p == q || (EndsInDots(p) && EndsInDots(q) && p[..WIDTH - 3] == q[..WIDTH - 3])
  {
    var p, q := CString(x), CString(y);
    ClipShape(p);
    ClipShape(q);
    if EndsInDots(p) && EndsInDots(q) {
      if Printed(x) == Printed(y) {
        assert p[..WIDTH - 3] == Printed(x)[..WIDTH - 3] && q[..WIDTH - 3] == Printed(y)[..WIDTH - 3];
      }
    }
  }

  lemma ClipShape(s: Bytes)
    ensures EndsInDots(s) ==> Clip(s, WIDTH) == s[..WIDTH - 3] + DOTS
    ensures !EndsInDots(s) ==> Clip(s, WIDTH) == s
    ensures !EndsInDots(s) ==> |s| < WIDTH || (|s| == WIDTH && s[WIDTH - 3..] != DOTS)
    ensures EndsInDots(s) ==> |Clip(s, WIDTH)| == WIDTH && Clip(s, WIDTH)[WIDTH - 3..] == DOTS
  {
    if |s| == WIDTH && EndsInDots(s) {
      assert s == s[..WIDTH - 3] + s[WIDTH - 3..];
    }
  }

  /** In the report of any two files: a pair whose lines differ only in their terminators is printed
      alike, and so is one whose texts agree as far as the view shows them. */
  lemma PairPrintedAlikeIff(a: Bytes, b: Bytes, d: LineDiff)
    requires d in LineDiffsOf(a, b)
    ensures d.lineNumber >= 1
    ensures var x, y := LineAt(SplitLines(a), d.lineNumber - 1), LineAt(SplitLines(b), d.lineNumber - 1);
            var p, q := CString(d.left), CString(d.right);
            && x != y && (SameButTerminators(Raw(x), Raw(y)) ==> p == q)
            && (Printed(d.left) == Printed(d.right) <==>
                  p == q || (EndsInDots(p) && EndsInDots(q) && p[..WIDTH - 3] == q[..WIDTH - 3]))
  {
    PairLooksIdenticalIff(a, b, d);
    PrintedAlikeIff(d.left, d.right);
  }
}
