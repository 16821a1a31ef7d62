/** The path tree as a value: what each operation of src/path_tree.c computes on the shape of
    the tree, and why that keeps it ordered, balanced and shallow. `PathTree` runs the same
    operations in place on the heap and is proved against these functions. */
module Avl {
  import opened Common

  datatype Tree = Leaf | Branch(left: Tree, index: nat, height: nat, right: Tree)

  /** The path a record index stands for. */
  function PathAt(recs: seq<ChangeRecord>, i: nat): Path {
    if i < |recs| then recs[i].path else []
  }

  function NodeHeight(t: Tree): nat {
    if t.Leaf? then 0 else t.height
  }

  function MaxNat(a: nat, b: nat): nat {
    if a > b then a else b
  }

  /** A node whose cached height has just been updated from its children. */
  function Join(l: Tree, i: nat, r: Tree): Tree {
    Branch(l, i, 1 + MaxNat(NodeHeight(l), NodeHeight(r)), r)
  }

  function RotateRight(t: Tree): Tree
    requires t.Branch? && t.left.Branch?
  {
    Join(t.left.left, t.left.index, Join(t.left.right, t.index, t.right))
  }

  function RotateLeft(t: Tree): Tree
    requires t.Branch? && t.right.Branch?
  {
    Join(Join(t.left, t.index, t.right.left), t.right.index, t.right.right)
  }

  /** A left child that leans right is rotated before the node itself is. */
  function LowerLeft(l: Tree, i: nat, r: Tree): Tree
    requires NodeHeight(l) > 1
  {
    RotateRight(Join(if NodeHeight(l.left) < NodeHeight(l.right) then RotateLeft(l) else l, i, r))
  }

  function LowerRight(l: Tree, i: nat, r: Tree): Tree
    requires NodeHeight(r) > 1
  {
    RotateLeft(Join(l, i, if NodeHeight(r.right) < NodeHeight(r.left) then RotateRight(r) else r))
  }

  function Rebalance(t: Tree): Tree
    requires t.Branch?
  {
    if NodeHeight(t.left) > NodeHeight(t.right) + 1 then LowerLeft(t.left, t.index, t.right)
    else if NodeHeight(t.right) > NodeHeight(t.left) + 1 then LowerRight(t.left, t.index, t.right)
    else Join(t.left, t.index, t.right)
  }

  lemma RebalanceIgnoresHeight(l: Tree, i: nat, h: nat, r: Tree)
    ensures Rebalance(Branch(l, i, h, r)) == Rebalance(Branch(l, i, 0, r))
  {
  }

  function Insert(recs: seq<ChangeRecord>, t: Tree, k: nat): Tree {
    match t
    case Leaf => Branch(Leaf, k, 1, Leaf)
    case Branch(l, i, h, r) =>
      var cmp := StrCmp(PathAt(recs, k), PathAt(recs, i));
      if cmp < 0 then Rebalance(Branch(Insert(recs, l, k), i, h, r))
      else if cmp > 0 then Rebalance(Branch(l, i, h, Insert(recs, r, k)))
      else Branch(l, k, h, r)
  }

  /** Does the descent for `k` meet an equal path (so that no node is allocated)? */
  predicate Meets(recs: seq<ChangeRecord>, t: Tree, k: nat) {
    match t
    case Leaf => false
    case Branch(l, i, _, r) =>
      var cmp := StrCmp(PathAt(recs, k), PathAt(recs, i));
      if cmp < 0 then Meets(recs, l, k)
      else if cmp > 0 then Meets(recs, r, k)
      else true
  }

  /** The record indices in the order the report visits them. */
  function InOrder(t: Tree): seq<nat> {
    match t
    case Leaf => []
    case Branch(l, i, _, r) => InOrder(l) + [i] + InOrder(r)
  }

  /** Every index in the tree is below n. */
  predicate Within(t: Tree, n: nat) {
    t.Branch? ==> t.index < n && Within(t.left, n) && Within(t.right, n)
  }

  lemma {:induction false} WithinIffListed(t: Tree, n: nat)
    ensures Within(t, n) <==> forall x :: x in InOrder(t) ==> x < n
  {
    if t.Branch? {
      WithinIffListed(t.left, n);
      WithinIffListed(t.right, n);
      assert t.index in InOrder(t);
      assert forall x :: x in InOrder(t) <==> x in InOrder(t.left) || x == t.index || x in InOrder(t.right);
    }
  }

  lemma {:induction false} WithinMore(t: Tree, m: nat, n: nat)
    requires Within(t, m) && m <= n
    ensures Within(t, n)
  {
    if t.Branch? {
      WithinMore(t.left, m, n);
      WithinMore(t.right, m, n);
    }
  }

  /** Only the paths of records below n matter to a tree whose indices are below n. */
  lemma {:induction false} InsertReadsPrefix(recs: seq<ChangeRecord>, recs': seq<ChangeRecord>, t: Tree, k: nat, n: nat)
    requires Within(t, n) && k < n <= |recs| && n <= |recs'| && recs[..n] == recs'[..n]
    ensures Insert(recs, t, k) == Insert(recs', t, k)
    ensures Meets(recs, t, k) == Meets(recs', t, k)
  {
    assert forall i :: 0 <= i < n ==> recs[..n][i] == recs[i] && recs'[..n][i] == recs'[i];
    assert PathAt(recs, k) == PathAt(recs', k);
    if t.Branch? {
      assert PathAt(recs, t.index) == PathAt(recs', t.index);
      InsertReadsPrefix(recs, recs', t.left, k, n);
      InsertReadsPrefix(recs, recs', t.right, k, n);
    }
  }

  // ---------------------------------------------------------------- order

  /** Paths strictly increase along `s`. */
  ghost predicate Increasing(recs: seq<ChangeRecord>, s: seq<nat>) {
    forall i, j :: 0 <= i < j < |s| ==> Before(PathAt(recs, s[i]), PathAt(recs, s[j]))
  }

  /** Reference insertion into a sorted listing: `k` goes in front of the first larger path,
      or takes the place of an equal one. */
  function InsertSorted(recs: seq<ChangeRecord>, s: seq<nat>, k: nat): seq<nat> {
    if s == [] then [k]
    else
      var cmp := StrCmp(PathAt(recs, k), PathAt(recs, s[0]));
      if cmp < 0 then [k] + s
      else if cmp == 0 then [k] + s[1..]
      else [s[0]] + InsertSorted(recs, s[1..], k)
  }

  lemma RebalanceInOrder(t: Tree)
    requires t.Branch?
    ensures InOrder(Rebalance(t)) == InOrder(t)
  {
    var l, r := t.left, t.right;
    if NodeHeight(l) > NodeHeight(r) + 1 {
      var l' := if NodeHeight(l.left) < NodeHeight(l.right) then RotateLeft(l) else l;
      assert InOrder(l') == InOrder(l) by {
        if NodeHeight(l.left) < NodeHeight(l.right) { RotateLeftInOrder(l); }
      }
      RotateRightInOrder(Join(l', t.index, r));
    } else if NodeHeight(r) > NodeHeight(l) + 1 {
      var r' := if NodeHeight(r.right) < NodeHeight(r.left) then RotateRight(r) else r;
      assert InOrder(r') == InOrder(r) by {
        if NodeHeight(r.right) < NodeHeight(r.left) { RotateRightInOrder(r); }
      }
      RotateLeftInOrder(Join(l, t.index, r'));
    }
  }

  lemma Regroup(a: seq<nat>, x: nat, b: seq<nat>, y: nat, c: seq<nat>)
    ensures (a + [x] + b) + [y] + c == a + [x] + (b + [y] + c)
  {
  }

  lemma RotateRightInOrder(t: Tree)
    requires t.Branch? && t.left.Branch?
    ensures InOrder(RotateRight(t)) == InOrder(t)
  {
    Regroup(InOrder(t.left.left), t.left.index, InOrder(t.left.right), t.index, InOrder(t.right));
  }

  lemma RotateLeftInOrder(t: Tree)
    requires t.Branch? && t.right.Branch?
    ensures InOrder(RotateLeft(t)) == InOrder(t)
  {
    Regroup(InOrder(t.left), t.index, InOrder(t.right.left), t.right.index, InOrder(t.right.right));
  }

  lemma {:induction false} InsertSortedLeft(recs: seq<ChangeRecord>, l: seq<nat>, x: nat, r: seq<nat>, k: nat)
    requires Before(PathAt(recs, k), PathAt(recs, x))
    ensures InsertSorted(recs, l + [x] + r, k) == InsertSorted(recs, l, k) + [x] + r
  {
    hide StrCmp;
    if l == [] {
      assert l + [x] + r == [x] + r;
    } else {
      var s := l + [x] + r;
      assert s[1..] == l[1..] + [x] + r;
      InsertSortedLeft(recs, l[1..], x, r, k);
      assert [s[0]] + (InsertSorted(recs, l[1..], k) + [x] + r) == ([s[0]] + InsertSorted(recs, l[1..], k)) + [x] + r;
      assert [k] + s == ([k] + l) + [x] + r;
      assert [k] + s[1..] == ([k] + l[1..]) + [x] + r;
    }
  }

  lemma {:induction false} InsertSortedRight(recs: seq<ChangeRecord>, l: seq<nat>, r: seq<nat>, k: nat)
    requires forall i :: 0 <= i < |l| ==> Before(PathAt(recs, l[i]), PathAt(recs, k))
    ensures InsertSorted(recs, l + r, k) == l + InsertSorted(recs, r, k)
  {
    if l == [] {
      assert l + r == r;
    } else {
      StrCmpAntisymmetric(PathAt(recs, l[0]), PathAt(recs, k));
      assert (l + r)[1..] == l[1..] + r;
      InsertSortedRight(recs, l[1..], r, k);
    }
  }

  lemma IncreasingParts(recs: seq<ChangeRecord>, l: seq<nat>, x: nat, r: seq<nat>)
    requires Increasing(recs, l + [x] + r)
    ensures Increasing(recs, l) && Increasing(recs, r)
    ensures forall i :: 0 <= i < |l| ==> Before(PathAt(recs, l[i]), PathAt(recs, x))
    ensures forall i :: 0 <= i < |r| ==> Before(PathAt(recs, x), PathAt(recs, r[i]))
  {
    var s := l + [x] + r;
    assert forall i :: 0 <= i < |l| ==> s[i] == l[i];
    assert s[|l|] == x;
    assert forall i :: 0 <= i < |r| ==> s[|l| + 1 + i] == r[i];
  }

  /** Sorted insertion around a middle element works on one side only. */
  lemma InsertSortedSplit(recs: seq<ChangeRecord>, l: seq<nat>, i: nat, r: seq<nat>, k: nat)
    requires Increasing(recs, l + [i] + r)
    ensures InsertSorted(recs, l + [i] + r, k) ==
            var cmp := StrCmp(PathAt(recs, k), PathAt(recs, i));
            if cmp < 0 then InsertSorted(recs, l, k) + [i] + r
            else if cmp > 0 then l + [i] + InsertSorted(recs, r, k)
            else l + [k] + r
  {
    IncreasingParts(recs, l, i, r);
    var cmp := StrCmp(PathAt(recs, k), PathAt(recs, i));
    if cmp < 0 {
      InsertSortedLeft(recs, l, i, r, k);
    } else {
      StrCmpAntisymmetric(PathAt(recs, i), PathAt(recs, k));
      LeftOf(recs, l, i, k);
      InsertSortedMiddle(recs, l, i, r, k);
    }
  }

  lemma InsertSortedMiddle(recs: seq<ChangeRecord>, l: seq<nat>, i: nat, r: seq<nat>, k: nat)
    requires forall j :: 0 <= j < |l| ==> Before(PathAt(recs, l[j]), PathAt(recs, k))
    requires !Before(PathAt(recs, k), PathAt(recs, i))
    ensures InsertSorted(recs, l + [i] + r, k) ==
            if PathAt(recs, k) == PathAt(recs, i) then l + [k] + r else l + [i] + InsertSorted(recs, r, k)
  {
    Associate(l, i, r);
    InsertSortedRight(recs, l, [i] + r, k);
    InsertSortedHead(recs, i, r, k);
    Associate(l, k, r);
    Associate(l, i, InsertSorted(recs, r, k));
  }

  lemma Associate(l: seq<nat>, x: nat, r: seq<nat>)
    ensures l + [x] + r == l + ([x] + r)
  {
  }

  lemma InsertSortedHead(recs: seq<ChangeRecord>, i: nat, r: seq<nat>, k: nat)
    requires !Before(PathAt(recs, k), PathAt(recs, i))
    ensures InsertSorted(recs, [i] + r, k) ==
            if PathAt(recs, k) == PathAt(recs, i) then [k] + r else [i] + InsertSorted(recs, r, k)
  {
    assert ([i] + r)[1..] == r;
  }

  /** The tree insertion is insertion into the sorted listing: rotations move nodes, never
      positions in the report. */
  lemma {:induction false} InsertInOrder(recs: seq<ChangeRecord>, t: Tree, k: nat)
    requires Increasing(recs, InOrder(t))
    ensures InOrder(Insert(recs, t, k)) == InsertSorted(recs, InOrder(t), k)
  {
    match t
    case Leaf =>
    case Branch(l, i, h, r) =>
      IncreasingParts(recs, InOrder(l), i, InOrder(r));
      InsertSortedSplit(recs, InOrder(l), i, InOrder(r), k);
      var cmp := StrCmp(PathAt(recs, k), PathAt(recs, i));
      if cmp < 0 {
        InsertInOrder(recs, l, k);
        RebalanceInOrder(Branch(Insert(recs, l, k), i, h, r));
      } else if cmp > 0 {
        InsertInOrder(recs, r, k);
        RebalanceInOrder(Branch(l, i, h, Insert(recs, r, k)));
      }
  }

  lemma LeftOf(recs: seq<ChangeRecord>, l: seq<nat>, i: nat, k: nat)
    requires forall j :: 0 <= j < |l| ==> Before(PathAt(recs, l[j]), PathAt(recs, i))
    requires PathAt(recs, i) == PathAt(recs, k) || Before(PathAt(recs, i), PathAt(recs, k))
    ensures forall j :: 0 <= j < |l| ==> Before(PathAt(recs, l[j]), PathAt(recs, k))
  {
    forall j | 0 <= j < |l| ensures Before(PathAt(recs, l[j]), PathAt(recs, k)) {
      if PathAt(recs, i) != PathAt(recs, k) {
        BeforeTransitive(PathAt(recs, l[j]), PathAt(recs, i), PathAt(recs, k));
      }
    }
  }

  /** Insertion keeps a sorted listing sorted, adds `k`, and drops only indices whose path
      equals that of `k`. */
  lemma {:induction false} InsertSortedIncreasing(recs: seq<ChangeRecord>, s: seq<nat>, k: nat)
    requires Increasing(recs, s)
    ensures Increasing(recs, InsertSorted(recs, s, k))
    ensures forall x :: x in InsertSorted(recs, s, k) <==> x == k || (x in s && PathAt(recs, x) != PathAt(recs, k))
  {
    if s != [] {
      var rest := s[1..];
      assert s == [s[0]] + rest;
      assert Increasing(recs, rest);
      var cmp := StrCmp(PathAt(recs, k), PathAt(recs, s[0]));
      var out := InsertSorted(recs, s, k);
      StrCmpAntisymmetric(PathAt(recs, k), PathAt(recs, s[0]));
      if cmp < 0 {
        RightOf(recs, s, k);
      } else if cmp == 0 {
        assert forall j :: 0 <= j < |rest| ==> Before(PathAt(recs, k), PathAt(recs, rest[j]));
        StrCmpIrreflexive(recs, rest, k);
      } else {
        InsertSortedIncreasing(recs, rest, k);
        var tail := InsertSorted(recs, rest, k);
        forall j | 0 <= j < |tail| ensures Before(PathAt(recs, s[0]), PathAt(recs, tail[j])) {
          assert tail[j] in tail;
        }
        assert out == [s[0]] + tail;
      }
    }
  }

  lemma RightOf(recs: seq<ChangeRecord>, s: seq<nat>, k: nat)
    requires s != [] && Increasing(recs, s) && Before(PathAt(recs, k), PathAt(recs, s[0]))
    ensures Increasing(recs, [k] + s)
    ensures forall x :: x in s ==> PathAt(recs, x) != PathAt(recs, k)
  {
    forall j | 0 <= j < |s| ensures Before(PathAt(recs, k), PathAt(recs, s[j])) {
      if j > 0 { BeforeTransitive(PathAt(recs, k), PathAt(recs, s[0]), PathAt(recs, s[j])); }
    }
    StrCmpIrreflexive(recs, s, k);
  }

  lemma StrCmpIrreflexive(recs: seq<ChangeRecord>, s: seq<nat>, k: nat)
    requires forall j :: 0 <= j < |s| ==> Before(PathAt(recs, k), PathAt(recs, s[j]))
    ensures forall x :: x in s ==> PathAt(recs, x) != PathAt(recs, k)
  {
  }

  /** Looking only at the path of `k` along the search finds an equal path iff there is one. */
  lemma {:induction false} MeetsIffListed(recs: seq<ChangeRecord>, t: Tree, k: nat)
    requires Increasing(recs, InOrder(t))
    ensures Meets(recs, t, k) <==> exists x :: x in InOrder(t) && PathAt(recs, x) == PathAt(recs, k)
  {
    match t
    case Leaf =>
    case Branch(l, i, h, r) =>
      var L, R := InOrder(l), InOrder(r);
      IncreasingParts(recs, L, i, R);
      MeetsIffListed(recs, l, k);
      MeetsIffListed(recs, r, k);
      assert forall x :: x in InOrder(t) <==> x in L || x == i || x in R;
      var p, q := PathAt(recs, k), PathAt(recs, i);
      StrCmpAntisymmetric(p, q);
      forall x | x in L ensures Before(PathAt(recs, x), q) { }
      forall x | x in R ensures Before(q, PathAt(recs, x)) { }
      if Before(p, q) {
        forall x | x in R ensures PathAt(recs, x) != p { StrCmpAntisymmetric(p, q); NotBothWays(p, q); }
      } else if p != q {
        forall x | x in L ensures PathAt(recs, x) != p { NotBothWays(q, p); }
      }
  }

  lemma NotBothWays(a: Path, b: Path)
    requires Before(a, b)
    ensures !Before(b, a)
  {
    StrCmpAntisymmetric(a, b);
  }

  /** Visiting a listing front to back, up to and including the first index the visitor
      refuses: what was visited, and the last return code. */
  function Visit(s: seq<nat>, visitor: nat -> Errno): (Errno, seq<nat>) {
    if s == [] then (OK, [])
    else if visitor(s[0]) != OK then (visitor(s[0]), [s[0]])
    else var (rc, rest) := Visit(s[1..], visitor); (rc, [s[0]] + rest)
  }

  lemma {:induction false} VisitConcat(s: seq<nat>, t: seq<nat>, visitor: nat -> Errno)
    ensures Visit(s + t, visitor) ==
            var (rc, done) := Visit(s, visitor);
            if rc != OK then (rc, done) else (Visit(t, visitor).0, done + Visit(t, visitor).1)
  {
    if s == [] {
      assert s + t == t;
      assert [] + Visit(t, visitor).1 == Visit(t, visitor).1;
    } else {
      assert (s + t)[1..] == s[1..] + t;
      VisitConcat(s[1..], t, visitor);
      var done, more := Visit(s[1..], visitor).1, Visit(t, visitor).1;
      assert [s[0]] + (done + more) == ([s[0]] + done) + more;
    }
  }

  /** A visitor that never fails sees every index, in order. */
  lemma {:induction false} VisitAll(s: seq<nat>, visitor: nat -> Errno)
    requires forall i :: i in s ==> visitor(i) == OK
    ensures Visit(s, visitor) == (OK, s)
  {
    if s != [] {
      VisitAll(s[1..], visitor);
      assert s == [s[0]] + s[1..];
    }
  }

  /** Visiting around a middle element, one part at a time. */
  lemma VisitAround(l: seq<nat>, i: nat, r: seq<nat>, visitor: nat -> Errno)
    ensures Visit(l + [i] + r, visitor) ==
            var (rc, done) := Visit(l, visitor);
            if rc != OK then (rc, done)
            else if visitor(i) != OK then (visitor(i), done + [i])
            else (Visit(r, visitor).0, done + [i] + Visit(r, visitor).1)
  {
    assert [i][1..] == [] && [i] + [] == [i];
    assert Visit([i], visitor) == (visitor(i), [i]);
    VisitConcat(l, [i], visitor);
    VisitConcat(l + [i], r, visitor);
  }

  // ---------------------------------------------------------------- balance

  /** Cached heights are exact and every node's children differ in height by at most one. */
  predicate Balanced(t: Tree) {
    t.Branch? ==>
      && Balanced(t.left) && Balanced(t.right)
      && t.height == 1 + MaxNat(NodeHeight(t.left), NodeHeight(t.right))
      && NodeHeight(t.left) <= NodeHeight(t.right) + 1
      && NodeHeight(t.right) <= NodeHeight(t.left) + 1
  }

  /** The longest path from the root, counted in nodes. */
  function Height(t: Tree): nat {
    if t.Leaf? then 0 else 1 + MaxNat(Height(t.left), Height(t.right))
  }

  lemma {:induction false} CachedHeightExact(t: Tree)
    requires Balanced(t)
    ensures NodeHeight(t) == Height(t)
  {
    if t.Branch? {
      CachedHeightExact(t.left);
      CachedHeightExact(t.right);
    }
  }

  lemma RebalanceLeftHeavy(l: Tree, i: nat, h: nat, r: Tree)
    requires Balanced(l) && Balanced(r) && NodeHeight(l) == NodeHeight(r) + 2
    ensures Balanced(Rebalance(Branch(l, i, h, r)))
    ensures NodeHeight(l) <= NodeHeight(Rebalance(Branch(l, i, h, r))) <= NodeHeight(l) + 1
  {
    if NodeHeight(l.left) < NodeHeight(l.right) {
      var m := l.right;
      var low, high := Join(l.left, l.index, m.left), Join(m.right, i, r);
      assert Balanced(low) && Balanced(high);
      assert Rebalance(Branch(l, i, h, r)) == Join(low, m.index, high);
    } else {
      var high := Join(l.right, i, r);
      assert Balanced(high);
      assert Rebalance(Branch(l, i, h, r)) == Join(l.left, l.index, high);
    }
  }

  lemma RebalanceRightHeavy(l: Tree, i: nat, h: nat, r: Tree)
    requires Balanced(l) && Balanced(r) && NodeHeight(r) == NodeHeight(l) + 2
    ensures Balanced(Rebalance(Branch(l, i, h, r)))
    ensures NodeHeight(r) <= NodeHeight(Rebalance(Branch(l, i, h, r))) <= NodeHeight(r) + 1
  {
    if NodeHeight(r.right) < NodeHeight(r.left) {
      var m := r.left;
      var low, high := Join(l, i, m.left), Join(m.right, r.index, r.right);
      assert Balanced(low) && Balanced(high);
      assert Rebalance(Branch(l, i, h, r)) == Join(low, m.index, high);
    } else {
      var low := Join(l, i, r.left);
      assert Balanced(low);
      assert Rebalance(Branch(l, i, h, r)) == Join(low, r.index, r.right);
    }
  }

  /** Rebalancing repairs a height difference of two. */
  lemma RebalanceBalanced(l: Tree, i: nat, h: nat, r: Tree)
    requires Balanced(l) && Balanced(r)
    requires NodeHeight(l) <= NodeHeight(r) + 2 && NodeHeight(r) <= NodeHeight(l) + 2
    ensures Balanced(Rebalance(Branch(l, i, h, r)))
    ensures var m := MaxNat(NodeHeight(l), NodeHeight(r));
            m <= NodeHeight(Rebalance(Branch(l, i, h, r))) <= m + 1
    ensures NodeHeight(l) <= NodeHeight(r) + 1 && NodeHeight(r) <= NodeHeight(l) + 1 ==>
              NodeHeight(Rebalance(Branch(l, i, h, r))) == 1 + MaxNat(NodeHeight(l), NodeHeight(r))
  {
    if NodeHeight(l) == NodeHeight(r) + 2 {
      RebalanceLeftHeavy(l, i, h, r);
    } else if NodeHeight(r) == NodeHeight(l) + 2 {
      RebalanceRightHeavy(l, i, h, r);
    }
  }

  /** Insertion keeps the tree balanced with exact heights and grows it by at most one level. */
  lemma {:induction false} InsertBalanced(recs: seq<ChangeRecord>, t: Tree, k: nat)
    requires Balanced(t)
    ensures Balanced(Insert(recs, t, k))
    ensures NodeHeight(t) <= NodeHeight(Insert(recs, t, k)) <= NodeHeight(t) + 1
  {
    match t
    case Leaf =>
    case Branch(l, i, h, r) =>
      var cmp := StrCmp(PathAt(recs, k), PathAt(recs, i));
      if cmp < 0 {
        InsertBalanced(recs, l, k);
        RebalanceBalanced(Insert(recs, l, k), i, h, r);
      } else if cmp > 0 {
        InsertBalanced(recs, r, k);
        RebalanceBalanced(l, i, h, Insert(recs, r, k));
      }
  }

  function Fib(n: nat): nat {
    if n < 2 then n else Fib(n - 1) + Fib(n - 2)
  }

  lemma {:induction false} FibMonotone(m: nat, n: nat)
    requires m <= n
    ensures Fib(m) <= Fib(n)
    decreases n
  {
    if m < n {
      FibMonotone(m, n - 1);
    }
  }

  /** A balanced tree of height h has at least Fib(h + 2) - 1 nodes: its height is logarithmic. */
  lemma {:induction false} HeightIsLogarithmic(t: Tree)
    requires Balanced(t)
    ensures |InOrder(t)| + 1 >= Fib(Height(t) + 2)
  {
    if t.Branch? {
      HeightIsLogarithmic(t.left);
      HeightIsLogarithmic(t.right);
      CachedHeightExact(t.left);
      CachedHeightExact(t.right);
      var a, b := Height(t.left), Height(t.right);
      FibMonotone(MaxNat(a, b) + 1, a + 2);
      FibMonotone(MaxNat(a, b) + 1, b + 2);
    }
  }
}
