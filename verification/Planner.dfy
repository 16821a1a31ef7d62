/** src/planner.c:62-88: the classification of paths by the indexes alone. The loops that carry it out
    are in `PlannerLoop`, how they interleave with the workers is the subject of `Protocol`. */
module Planner {
  import opened Common
  import opened Slots
  import opened Compare

  /** A call the planner makes: a record for the result set, or a task for the queue. */
  datatype Call = Present(record: ChangeRecord) | Candidate(task: Path) {
    function Path(): Path {
      if Present? then record.path else task
    }
  }

  /** What a slot of the source index calls for, given the sizes in the target index. */
  function SourceCall(slot: IndexSlot, target: map<Path, nat>): seq<Call> {
    if slot.Vacant? then []
    else if slot.key !in target then [Present(SimpleRecord(slot.key, Removed, OnlyInSource, slot.size, 0))]
    else if slot.size != target[slot.key] then
      [Present(SimpleRecord(slot.key, Modified, SizeChanged, slot.size, target[slot.key]))]
    else [Candidate(slot.key)]
  }

  function TargetCall(slot: IndexSlot, source: map<Path, nat>): seq<Call> {
    if slot.Vacant? || slot.key in source then []
    else [Present(SimpleRecord(slot.key, Added, OnlyInTarget, 0, slot.size))]
  }

  /** The calls for the first n slots. */
  function SourceCalls(slots: seq<IndexSlot>, target: map<Path, nat>, n: nat): seq<Call>
    requires n <= |slots|
  {
    if n == 0 then [] else SourceCalls(slots, target, n - 1) + SourceCall(slots[n - 1], target)
  }

  function TargetCalls(slots: seq<IndexSlot>, source: map<Path, nat>, n: nat): seq<Call>
    requires n <= |slots|
  {
    if n == 0 then [] else TargetCalls(slots, source, n - 1) + TargetCall(slots[n - 1], source)
  }

  /** Every call of a run that nothing stops. */
  function AllCalls(slotsA: seq<IndexSlot>, sizesA: map<Path, nat>, slotsB: seq<IndexSlot>,
                    sizesB: map<Path, nat>): seq<Call> {
    SourceCalls(slotsA, sizesB, |slotsA|) + TargetCalls(slotsB, sizesA, |slotsB|)
  }

  // ---------------------------------------------------------------- the calls cover every path once

  ghost predicate HasPath(calls: seq<Call>, p: Path) {
    exists c :: c in calls && c.Path() == p
  }

  ghost predicate DistinctPaths(calls: seq<Call>) {
    forall i, j :: 0 <= i < j < |calls| ==> calls[i].Path() != calls[j].Path()
  }

  ghost predicate KeyBefore(slots: seq<IndexSlot>, n: nat, p: Path)
    requires n <= |slots|
  {
    exists i :: 0 <= i < n && slots[i].Occupied? && slots[i].key == p
  }

  lemma HasPathAppend(calls: seq<Call>, more: seq<Call>, p: Path)
    ensures HasPath(calls + more, p) <==> HasPath(calls, p) || HasPath(more, p)
  {
    if HasPath(calls, p) {
      var c :| c in calls && c.Path() == p;
      assert c in calls + more;
    }
    if HasPath(more, p) {
      var c :| c in more && c.Path() == p;
      assert c in calls + more;
    }
  }

  lemma DistinctAppend(calls: seq<Call>, more: seq<Call>)
    requires DistinctPaths(calls) && DistinctPaths(more)
    requires forall c :: c in more ==> !HasPath(calls, c.Path())
    ensures DistinctPaths(calls + more)
  {
    var all := calls + more;
    forall i, j | 0 <= i < j < |all| ensures all[i].Path() != all[j].Path() {
      if i < |calls| <= j {
        assert all[j] in more && all[i] in calls;
      }
    }
  }

  lemma {:induction false} SourceCallsCover(slots: seq<IndexSlot>, target: map<Path, nat>, n: nat)
    requires n <= |slots| && UniqueKeys(slots)
    ensures DistinctPaths(SourceCalls(slots, target, n))
    ensures forall p :: HasPath(SourceCalls(slots, target, n), p) <==> KeyBefore(slots, n, p)
  {
    if n > 0 {
      var calls, more := SourceCalls(slots, target, n - 1), SourceCall(slots[n - 1], target);
      SourceCallsCover(slots, target, n - 1);
      forall p ensures HasPath(calls + more, p) <==> KeyBefore(slots, n, p) {
        HasPathAppend(calls, more, p);
        assert HasPath(more, p) <==> slots[n - 1].Occupied? && slots[n - 1].key == p by {
          if slots[n - 1].Occupied? { assert more[0] in more; }
        }
      }
      DistinctAppend(calls, more);
    }
  }

  lemma {:induction false} TargetCallsCover(slots: seq<IndexSlot>, source: map<Path, nat>, n: nat)
    requires n <= |slots| && UniqueKeys(slots)
    ensures DistinctPaths(TargetCalls(slots, source, n))
    ensures forall p :: HasPath(TargetCalls(slots, source, n), p) <==> KeyBefore(slots, n, p) && p !in source
  {
    if n > 0 {
      var calls, more := TargetCalls(slots, source, n - 1), TargetCall(slots[n - 1], source);
      TargetCallsCover(slots, source, n - 1);
      forall p ensures HasPath(calls + more, p) <==> KeyBefore(slots, n, p) && p !in source {
        HasPathAppend(calls, more, p);
        assert HasPath(more, p) <==> slots[n - 1].Occupied? && slots[n - 1].key == p && p !in source by {
          if slots[n - 1].Occupied? && slots[n - 1].key !in source { assert more[0] in more; }
        }
      }
      DistinctAppend(calls, more);
    }
  }

  lemma KeysAreSlots(slots: seq<IndexSlot>, m: map<Path, nat>, p: Path)
    requires Represents(slots, m)
    ensures KeyBefore(slots, |slots|, p) <==> p in m
  {
    if p in m {
      var s :| s in slots && s.Occupied? && s.key == p;
      var i :| 0 <= i < |slots| && slots[i] == s;
    }
    if KeyBefore(slots, |slots|, p) {
      var i :| 0 <= i < |slots| && slots[i].Occupied? && slots[i].key == p;
      assert slots[i] in slots;
    }
  }

  /** Every path of either index is in exactly one call, and no other path is. */
  lemma CallsCoverUnion(slotsA: seq<IndexSlot>, sizesA: map<Path, nat>, slotsB: seq<IndexSlot>, sizesB: map<Path, nat>)
    requires UniqueKeys(slotsA) && Represents(slotsA, sizesA) && UniqueKeys(slotsB) && Represents(slotsB, sizesB)
    ensures DistinctPaths(AllCalls(slotsA, sizesA, slotsB, sizesB))
    ensures forall p :: HasPath(AllCalls(slotsA, sizesA, slotsB, sizesB), p) <==> p in sizesA || p in sizesB
  {
    var src, tgt := SourceCalls(slotsA, sizesB, |slotsA|), TargetCalls(slotsB, sizesA, |slotsB|);
    SourceCallsCover(slotsA, sizesB, |slotsA|);
    TargetCallsCover(slotsB, sizesA, |slotsB|);
    forall p ensures HasPath(src + tgt, p) <==> p in sizesA || p in sizesB {
      HasPathAppend(src, tgt, p);
      KeysAreSlots(slotsA, sizesA, p);
      KeysAreSlots(slotsB, sizesB, p);
    }
    forall c | c in tgt ensures !HasPath(src, c.Path()) {
      assert HasPath(tgt, c.Path());
      KeysAreSlots(slotsA, sizesA, c.Path());
    }
    DistinctAppend(src, tgt);
  }

  // ---------------------------------------------------------------- prefixes

  /** The calls for more slots only add to those for fewer. */
  lemma {:induction false} SourceCallsPrefix(slots: seq<IndexSlot>, target: map<Path, nat>, m: nat, n: nat)
    returns (more: seq<Call>)
    requires m <= n <= |slots|
    ensures SourceCalls(slots, target, n) == SourceCalls(slots, target, m) + more
    decreases n
  {
    if m == n {
      more := [];
    } else {
      more := SourceCallsPrefix(slots, target, m, n - 1);
      more := more + SourceCall(slots[n - 1], target);
    }
  }

  lemma {:induction false} TargetCallsPrefix(slots: seq<IndexSlot>, source: map<Path, nat>, m: nat, n: nat)
    returns (more: seq<Call>)
    requires m <= n <= |slots|
    ensures TargetCalls(slots, source, n) == TargetCalls(slots, source, m) + more
    decreases n
  {
    if m == n {
      more := [];
    } else {
      more := TargetCallsPrefix(slots, source, m, n - 1);
      more := more + TargetCall(slots[n - 1], source);
    }
  }
}
