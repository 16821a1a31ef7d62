/** src/planner.c:8-91: the planner's loops on the real objects, as a run of the protocol. */
module PlannerLoop {
  import opened Common
  import opened FileIndex
  import opened PathTree
  import opened ResultSet
  import opened Compare
  import opened Planner
  import opened TaskQueue
  import opened Protocol
  import opened Safety
  import opened Liveness
  import opened Refinement

  /** How a stretch of the planner ends: it goes on, it has to wait for room, or it is stopped. */
  datatype Fate = Goes | Waits | Stops(rc: Errno)

  /** Where a stretch of the planner has left the protocol: at `next`, asleep, or closing with an error. */
  predicate Reached(fate: Fate, pc: ProducerPc, next: ProducerPc) {
    match fate
    case Goes => pc == next
    case Waits => pc.PushAsleep?
    case Stops(rc) => rc != OK && pc == Closing(rc)
  }

  /** The tables are those of the run. */
  ghost predicate Tables(env: Env, indexA: FileIndex, indexB: FileIndex)
    reads indexA, indexA.slots, indexB, indexB.slots
  {
    && indexA.slots[..] == env.slotsA && indexB.slots[..] == env.slotsB
    && indexA.contents == env.sizesA && indexB.contents == env.sizesB
  }

  lemma TablesLengths(env: Env, indexA: FileIndex, indexB: FileIndex)
    requires Tables(env, indexA, indexB)
    ensures indexA.slots.Length == |env.slotsA| && indexB.slots.Length == |env.slotsB|
  {
  }

  /** A planner step that calls nothing. */
  lemma QuietPlan(env: Env, s: State)
    requires (s.producer.ScanningA? || s.producer.ScanningB?)
    requires (NextCall(env, s.producer) == [] || NextCall(env, s.producer)[0].Candidate?)
    ensures Enabled(env, s, Plan(OK))
    ensures var s' := Apply(env, s, Plan(OK));
            && s'.queue == s.queue && s'.report == s.report && s'.firstError == s.firstError
            && s'.producer == if NextCall(env, s.producer) == [] then Advance(env, s.producer)
                              else PushReady(s.producer.i)
  {
  }

  /** A planner step that pushes a record. */
  lemma RecordPlan(env: Env, s: State, rc: Errno)
    requires Enabled(env, s, Plan(rc)) && NextCall(env, s.producer) != [] && NextCall(env, s.producer)[0].Present?
    ensures Apply(env, s, Plan(rc)).producer == if rc != OK then Closing(rc) else Advance(env, s.producer)
  {
  }

  lemma HoldsSame(queue: TaskQueue, results: ResultSet, context: CompareContext, s: State, s': State)
    requires Holds(queue, results, context, s)
    requires s'.queue == s.queue && s'.report == s.report && s'.firstError == s.firstError
    ensures Holds(queue, results, context, s')
  {
  }

  /** The push of the planner's current task, from taking the lock or from waking with it. */
  method Offer(ghost env: Env, queue: TaskQueue, results: ResultSet, context: CompareContext, task: Path,
               ghost i: nat, ghost ss: seq<State>, ghost acts: seq<Action>, ghost mid: seq<State>,
               ghost macts: seq<Action>)
    returns (fate: Fate, ghost ss': seq<State>, ghost acts': seq<Action>)
    requires EnvOk(env) && Continues(env, ss, acts, ThePlanner, mid, macts) && Holds(queue, results, context, Last(mid))
    requires AtPush(Last(mid).producer) && Last(mid).producer.i == i < |env.slotsA| && env.slotsA[i].Occupied?
    requires task == env.slotsA[i].key
    modifies queue, queue.items
    ensures Continues(env, ss, acts, ThePlanner, ss', acts') && Holds(queue, results, context, Last(ss'))
    ensures Reached(fate, Last(ss').producer, ScanningA(i + 1))
  {
    hide EnvOk, Enabled, Apply, Continues, IsRun, Holds, Inv;
    ContinuesIsRun(env, ss, acts, ThePlanner, mid, macts);
    RunInv(env, mid, macts, |macts|);
    ghost var a := PushMove(env, Last(mid));
    var outcome := PushTask(env, queue, results, context, task, Last(mid), a.signalled);
    ss', acts' := ContinueWith(env, ss, acts, ThePlanner, mid, macts, a);
    match outcome
    case MustWait => fate := Waits;
    case Refused => fate := Stops(ECANCELED);
    case Served => fate := Goes;
  }

  /** A record pushed for the slot the planner has reached. */
  method PresentHere(ghost env: Env, queue: TaskQueue, results: ResultSet, context: CompareContext,
                     record: ChangeRecord, mem: (bool, bool), ghost next: ProducerPc, ghost ss: seq<State>,
                     ghost acts: seq<Action>, ghost mid: seq<State>, ghost macts: seq<Action>)
    returns (fate: Fate, ghost ss': seq<State>, ghost acts': seq<Action>)
    requires EnvOk(env) && Continues(env, ss, acts, ThePlanner, mid, macts) && Holds(queue, results, context, Last(mid))
    requires Last(mid).producer.ScanningA? || Last(mid).producer.ScanningB?
    requires NextCall(env, Last(mid).producer) == [Present(record)] && next == Advance(env, Last(mid).producer)
    modifies results, results.items, Nodes(results.layout)
    ensures Continues(env, ss, acts, ThePlanner, ss', acts') && Holds(queue, results, context, Last(ss'))
    ensures !fate.Waits? && Reached(fate, Last(ss').producer, next)
    ensures (results.items == old(results.items) || fresh(results.items))
    ensures fresh(Nodes(results.layout) - old(Nodes(results.layout)))
  {
    hide EnvOk, Apply, Continues, IsRun, Holds, NextCall, Advance;
    ghost var s := Last(mid);
    var rc := PresentRecord(env, queue, results, context, record, mem.0, mem.1, s);
    RecordPlan(env, s, rc);
    ss', acts' := ContinueWith(env, ss, acts, ThePlanner, mid, macts, Plan(rc));
    fate := if rc == OK then Goes else Stops(rc);
  }

  /** A planner step that only moves on, or only turns to a candidate. */
  lemma MoveOn(env: Env, queue: TaskQueue, results: ResultSet, context: CompareContext, ss: seq<State>,
               acts: seq<Action>, mid: seq<State>, macts: seq<Action>) returns (ss': seq<State>, acts': seq<Action>)
    requires EnvOk(env) && Continues(env, ss, acts, ThePlanner, mid, macts) && Holds(queue, results, context, Last(mid))
    requires Last(mid).producer.ScanningA? || Last(mid).producer.ScanningB?
    requires var call := NextCall(env, Last(mid).producer); call == [] || call[0].Candidate?
    ensures Continues(env, ss, acts, ThePlanner, ss', acts') && Holds(queue, results, context, Last(ss'))
    ensures var pc := Last(mid).producer;
            Last(ss').producer == if NextCall(env, pc) == [] then Advance(env, pc) else PushReady(pc.i)
  {
    hide EnvOk, Apply, Enabled, Continues, IsRun, Holds, NextCall, Advance;
    QuietPlan(env, Last(mid));
    HoldsSame(queue, results, context, Last(mid), Apply(env, Last(mid), Plan(OK)));
    ss', acts' := ContinueWith(env, ss, acts, ThePlanner, mid, macts, Plan(OK));
  }

  /** What the slot of the source index calls for (src/planner.c:63-77). */
  method ClassifySource(indexA: FileIndex, indexB: FileIndex, i: nat) returns (call: seq<Call>)
    requires indexB.Valid() && i < indexA.slots.Length
    ensures call == SourceCall(indexA.slots[i], indexB.contents)
  {
    hide FileIndex.Valid;
    var slot := indexA.slots[i];
    if slot.Vacant? {
      return [];
    }
    var other := indexB.Find(slot.key);
    if other.None? {
      return [Present(SimpleRecord(slot.key, Removed, OnlyInSource, slot.size, 0))];
    }
    if slot.size != other.value {
      return [Present(SimpleRecord(slot.key, Modified, SizeChanged, slot.size, other.value))];
    }
    return [Candidate(slot.key)];
  }

  method ClassifyTarget(indexA: FileIndex, indexB: FileIndex, i: nat) returns (call: seq<Call>)
    requires indexA.Valid() && i < indexB.slots.Length
    ensures call == TargetCall(indexB.slots[i], indexA.contents)
  {
    hide FileIndex.Valid;
    var slot := indexB.slots[i];
    if slot.Vacant? {
      return [];
    }
    var other := indexA.Find(slot.key);
    if other.Some? {
      return [];
    }
    return [Present(SimpleRecord(slot.key, Added, OnlyInTarget, 0, slot.size))];
  }

  /** One round of either loop, once the call is known. */
  method MakeCall(ghost env: Env, queue: TaskQueue, results: ResultSet, context: CompareContext, call: seq<Call>,
                  mem: (bool, bool), ghost next: ProducerPc, ghost ss: seq<State>, ghost acts: seq<Action>,
                  ghost mid: seq<State>, ghost macts: seq<Action>)
    returns (fate: Fate, ghost ss': seq<State>, ghost acts': seq<Action>)
    requires EnvOk(env) && Continues(env, ss, acts, ThePlanner, mid, macts) && Holds(queue, results, context, Last(mid))
    requires Last(mid).producer.ScanningA? || Last(mid).producer.ScanningB?
    requires call == NextCall(env, Last(mid).producer) && |call| <= 1 && next == Advance(env, Last(mid).producer)
    requires var pc := Last(mid).producer;
             call != [] && call[0].Candidate? ==>
               next == ScanningA(pc.i + 1) && pc.i < |env.slotsA| && env.slotsA[pc.i].Occupied? &&
               call[0].task == env.slotsA[pc.i].key
    modifies queue, queue.items, results, results.items, Nodes(results.layout)
    ensures Continues(env, ss, acts, ThePlanner, ss', acts') && Holds(queue, results, context, Last(ss'))
    ensures Reached(fate, Last(ss').producer, next)
    ensures (results.items == old(results.items) || fresh(results.items))
    ensures fresh(Nodes(results.layout) - old(Nodes(results.layout)))
  {
    hide EnvOk, Apply, Enabled, Continues, IsRun, Holds, NextCall, Advance;
    if call == [] {
      fate := Goes;
      ss', acts' := MoveOn(env, queue, results, context, ss, acts, mid, macts);
    } else {
      match call[0]
      case Present(record) =>
        fate, ss', acts' := PresentHere(env, queue, results, context, record, mem, next, ss, acts, mid, macts);
      case Candidate(task) =>
        ss', acts' := MoveOn(env, queue, results, context, ss, acts, mid, macts);
        fate, ss', acts' := Offer(env, queue, results, context, task, Last(mid).producer.i, ss, acts, ss', acts');
    }
  }

  lemma SourceTurn(env: Env, i: nat)
    requires i < |env.slotsA|
    ensures var call := SourceCall(env.slotsA[i], env.sizesB);
            && call == NextCall(env, ScanningA(i)) && |call| <= 1 && Advance(env, ScanningA(i)) == ScanningA(i + 1)
            && (call != [] && call[0].Candidate? ==> env.slotsA[i].Occupied? && call[0].task == env.slotsA[i].key)
  {
  }

  lemma TargetTurn(env: Env, i: nat)
    requires i < |env.slotsB|
    ensures var call := TargetCall(env.slotsB[i], env.sizesA);
            && call == NextCall(env, ScanningB(i)) && |call| <= 1 && Advance(env, ScanningB(i)) == ScanningB(i + 1)
            && (call != [] ==> call[0].Present?)
  {
  }

  /** One round of the first loop. */
  method SourceRound(ghost env: Env, queue: TaskQueue, results: ResultSet, context: CompareContext, indexA: FileIndex,
                     indexB: FileIndex, i: nat, mem: (bool, bool), ghost ss: seq<State>, ghost acts: seq<Action>,
                     ghost mid: seq<State>, ghost macts: seq<Action>)
    returns (fate: Fate, ghost ss': seq<State>, ghost acts': seq<Action>)
    requires EnvOk(env) && Continues(env, ss, acts, ThePlanner, mid, macts) && Holds(queue, results, context, Last(mid))
    requires indexA.Valid() && indexB.Valid() && Tables(env, indexA, indexB)
    requires Last(mid).producer == ScanningA(i) && i < indexA.slots.Length
    modifies queue, queue.items, results, results.items, Nodes(results.layout)
    ensures Continues(env, ss, acts, ThePlanner, ss', acts') && Holds(queue, results, context, Last(ss'))
    ensures Reached(fate, Last(ss').producer, ScanningA(i + 1))
    ensures indexA.Valid() && indexB.Valid() && Tables(env, indexA, indexB)
    ensures (results.items == old(results.items) || fresh(results.items))
    ensures fresh(Nodes(results.layout) - old(Nodes(results.layout)))
  {
    hide EnvOk, Apply, Enabled, Continues, IsRun, Holds, FileIndex.Valid, SourceCall, NextCall, Advance;
    SourceTurn(env, i);
    assert allocated(Nodes(results.layout));
    assert indexA.slots[i] == env.slotsA[i];
    var call := ClassifySource(indexA, indexB, i);
    ghost var nodes := Nodes(results.layout);
    label Known:
    fate, ss', acts' := MakeCall(env, queue, results, context, call, mem, ScanningA(i + 1), ss, acts, mid, macts);
    assert forall o :: o in Nodes(results.layout) && o !in nodes ==> !old@Known(allocated(o));
  }

  /** One round of the second loop. */
  method TargetRound(ghost env: Env, queue: TaskQueue, results: ResultSet, context: CompareContext, indexA: FileIndex,
                     indexB: FileIndex, i: nat, mem: (bool, bool), ghost ss: seq<State>, ghost acts: seq<Action>,
                     ghost mid: seq<State>, ghost macts: seq<Action>)
    returns (fate: Fate, ghost ss': seq<State>, ghost acts': seq<Action>)
    requires EnvOk(env) && Continues(env, ss, acts, ThePlanner, mid, macts) && Holds(queue, results, context, Last(mid))
    requires indexA.Valid() && indexB.Valid() && Tables(env, indexA, indexB)
    requires Last(mid).producer == ScanningB(i) && i < indexB.slots.Length
    modifies queue, queue.items, results, results.items, Nodes(results.layout)
    ensures Continues(env, ss, acts, ThePlanner, ss', acts') && Holds(queue, results, context, Last(ss'))
    ensures Reached(fate, Last(ss').producer, ScanningB(i + 1))
    ensures indexA.Valid() && indexB.Valid() && Tables(env, indexA, indexB)
    ensures (results.items == old(results.items) || fresh(results.items))
    ensures fresh(Nodes(results.layout) - old(Nodes(results.layout)))
  {
    hide EnvOk, Apply, Enabled, Continues, IsRun, Holds, FileIndex.Valid, TargetCall, NextCall, Advance;
    TargetTurn(env, i);
    assert allocated(Nodes(results.layout));
    assert indexB.slots[i] == env.slotsB[i];
    var call := ClassifyTarget(indexA, indexB, i);
    ghost var nodes := Nodes(results.layout);
    label Known:
    fate, ss', acts' := MakeCall(env, queue, results, context, call, mem, ScanningB(i + 1), ss, acts, mid, macts);
    assert forall o :: o in Nodes(results.layout) && o !in nodes ==> !old@Known(allocated(o));
  }

  /** The first loop of `plan_and_compare` from slot `first` on. */
  method SourceLoop(ghost env: Env, queue: TaskQueue, results: ResultSet, context: CompareContext, indexA: FileIndex,
                    indexB: FileIndex, first: nat, mem: nat -> (bool, bool), ghost ss: seq<State>,
                    ghost acts: seq<Action>, ghost mid: seq<State>, ghost macts: seq<Action>)
    returns (fate: Fate, ghost ss': seq<State>, ghost acts': seq<Action>)
    requires EnvOk(env) && Continues(env, ss, acts, ThePlanner, mid, macts) && Holds(queue, results, context, Last(mid))
    requires indexA.Valid() && indexB.Valid() && Tables(env, indexA, indexB)
    requires Last(mid).producer == ScanningA(first) && first <= indexA.slots.Length
    modifies queue, queue.items, results, results.items, Nodes(results.layout)
    ensures Continues(env, ss, acts, ThePlanner, ss', acts') && Holds(queue, results, context, Last(ss'))
    ensures Reached(fate, Last(ss').producer, ScanningA(|env.slotsA|))
    ensures indexA.Valid() && indexB.Valid() && Tables(env, indexA, indexB)
    ensures (results.items == old(results.items) || fresh(results.items))
    ensures fresh(Nodes(results.layout) - old(Nodes(results.layout)))
  {
    hide EnvOk, Apply, Enabled, Continues, IsRun, Holds, FileIndex.Valid, Tables;
    TablesLengths(env, indexA, indexB);
    fate, ss', acts' := Goes, mid, macts;
    var i := first;
    while i < indexA.slots.Length && fate.Goes?
      invariant Continues(env, ss, acts, ThePlanner, ss', acts') && Holds(queue, results, context, Last(ss'))
      invariant Reached(fate, Last(ss').producer, ScanningA(i)) && i <= indexA.slots.Length
      invariant indexA.Valid() && indexB.Valid() && Tables(env, indexA, indexB)
      invariant (results.items == old(results.items) || fresh(results.items))
      invariant fresh(Nodes(results.layout) - old(Nodes(results.layout)))
      decreases indexA.slots.Length - i
    {
      ghost var nodes := Nodes(results.layout);
      label Round:
      fate, ss', acts' := SourceRound(env, queue, results, context, indexA, indexB, i, mem(i), ss, acts, ss', acts');
      assert forall o :: o in Nodes(results.layout) && o !in nodes ==> !old@Round(allocated(o));
      i := i + 1;
    }
  }

  /** The second loop. */
  method TargetLoop(ghost env: Env, queue: TaskQueue, results: ResultSet, context: CompareContext, indexA: FileIndex,
                    indexB: FileIndex, mem: nat -> (bool, bool), ghost ss: seq<State>, ghost acts: seq<Action>,
                    ghost mid: seq<State>, ghost macts: seq<Action>)
    returns (fate: Fate, ghost ss': seq<State>, ghost acts': seq<Action>)
    requires EnvOk(env) && Continues(env, ss, acts, ThePlanner, mid, macts) && Holds(queue, results, context, Last(mid))
    requires indexA.Valid() && indexB.Valid() && Tables(env, indexA, indexB)
    requires Last(mid).producer == ScanningB(0)
    modifies queue, queue.items, results, results.items, Nodes(results.layout)
    ensures Continues(env, ss, acts, ThePlanner, ss', acts') && Holds(queue, results, context, Last(ss'))
    ensures Reached(fate, Last(ss').producer, ScanningB(|env.slotsB|))
    ensures (results.items == old(results.items) || fresh(results.items))
    ensures fresh(Nodes(results.layout) - old(Nodes(results.layout)))
  {
    hide EnvOk, Apply, Enabled, Continues, IsRun, Holds, FileIndex.Valid, Tables;
    TablesLengths(env, indexA, indexB);
    fate, ss', acts' := Goes, mid, macts;
    var i := 0;
    while i < indexB.slots.Length && fate.Goes?
      invariant Continues(env, ss, acts, ThePlanner, ss', acts') && Holds(queue, results, context, Last(ss'))
      invariant Reached(fate, Last(ss').producer, ScanningB(i)) && i <= indexB.slots.Length
      invariant indexA.Valid() && indexB.Valid() && Tables(env, indexA, indexB)
      invariant (results.items == old(results.items) || fresh(results.items))
      invariant fresh(Nodes(results.layout) - old(Nodes(results.layout)))
      decreases indexB.slots.Length - i
    {
      ghost var nodes := Nodes(results.layout);
      label Round:
      fate, ss', acts' := TargetRound(env, queue, results, context, indexA, indexB, i, mem(i), ss, acts, ss', acts');
      assert forall o :: o in Nodes(results.layout) && o !in nodes ==> !old@Round(allocated(o));
      i := i + 1;
    }
  }

  lemma LoopEnds(env: Env)
    ensures NextCall(env, ScanningA(|env.slotsA|)) == [] && Advance(env, ScanningA(|env.slotsA|)) == ScanningB(0)
    ensures NextCall(env, ScanningB(|env.slotsB|)) == [] && Advance(env, ScanningB(|env.slotsB|)) == Closing(OK)
  {
  }

  /** Both loops from slot `first` of the source index on: they leave the planner waiting, or about to
      shut the queue down with its code. */
  method BothLoops(ghost env: Env, queue: TaskQueue, results: ResultSet, context: CompareContext, indexA: FileIndex,
                   indexB: FileIndex, first: nat, memA: nat -> (bool, bool), memB: nat -> (bool, bool),
                   ghost ss: seq<State>, ghost acts: seq<Action>, ghost mid: seq<State>, ghost macts: seq<Action>)
    returns (waits: bool, rc: Errno, ghost ss': seq<State>, ghost acts': seq<Action>)
    requires EnvOk(env) && Continues(env, ss, acts, ThePlanner, mid, macts) && Holds(queue, results, context, Last(mid))
    requires indexA.Valid() && indexB.Valid() && Tables(env, indexA, indexB)
    requires Last(mid).producer == ScanningA(first) && first <= indexA.slots.Length
    modifies queue, queue.items, results, results.items, Nodes(results.layout)
    ensures Continues(env, ss, acts, ThePlanner, ss', acts') && Holds(queue, results, context, Last(ss'))
    ensures if waits then Last(ss').producer.PushAsleep? else Last(ss').producer == Closing(rc)
  {
    hide EnvOk, Apply, Enabled, Continues, IsRun, Holds, FileIndex.Valid, NextCall, Advance;
    LoopEnds(env);
    var fate;
    fate, ss', acts' := SourceLoop(env, queue, results, context, indexA, indexB, first, memA, ss, acts, mid, macts);
    if fate.Goes? {
      ss', acts' := MoveOn(env, queue, results, context, ss, acts, ss', acts');
      fate, ss', acts' := TargetLoop(env, queue, results, context, indexA, indexB, memB, ss, acts, ss', acts');
      if fate.Goes? {
        ss', acts' := MoveOn(env, queue, results, context, ss, acts, ss', acts');
      }
    }
    waits, rc := fate.Waits?, if fate.Stops? then fate.rc else OK;
  }

  lemma CanClose(env: Env, s: State)
    requires s.producer.Closing?
    ensures Enabled(env, s, Close) && Apply(env, s, Close).producer == Joining(s.producer.rc, 0)
  {
  }

  /** At a push the planner has a candidate in hand. */
  lemma PushHasTask(env: Env, ss: seq<State>, acts: seq<Action>)
    requires EnvOk(env) && IsRun(env, ss, acts) && AtPush(Last(ss).producer)
    ensures Last(ss).producer.i < |env.slotsA| && env.slotsA[Last(ss).producer.i].Occupied?
  {
    RunInv(env, ss, acts, |acts|);
  }

  /** The body of `plan_and_compare` between starting the pool and joining it, while no other thread
      moves: from the start of the loops, or from a wake-up inside a push, until the planner has to
      wait or has shut the queue down, what it does to the shared objects is a run of the protocol's
      planner. */
  method PlannerMain(ghost env: Env, queue: TaskQueue, results: ResultSet, context: CompareContext, indexA: FileIndex,
                     indexB: FileIndex, memA: nat -> (bool, bool), memB: nat -> (bool, bool), first: nat,
                     pushing: bool, ghost ss: seq<State>, ghost acts: seq<Action>)
    returns (waits: bool, rc: Errno, ghost ss': seq<State>, ghost acts': seq<Action>)
    requires EnvOk(env) && IsRun(env, ss, acts) && Holds(queue, results, context, Last(ss))
    requires indexA.Valid() && indexB.Valid() && Tables(env, indexA, indexB)
    requires if pushing then AtPush(Last(ss).producer) && Last(ss).producer.i == first
             else Last(ss).producer == ScanningA(first) && first <= indexA.slots.Length
    modifies queue, queue.items, results, results.items, Nodes(results.layout)
    ensures Continues(env, ss, acts, ThePlanner, ss', acts') && Holds(queue, results, context, Last(ss'))
    ensures if waits then Last(ss').producer.PushAsleep? else Last(ss').producer == Joining(rc, 0)
  {
    hide EnvOk, Apply, Enabled, Continues, IsRun, Holds, FileIndex.Valid;
    ContinuesStart(env, ss, acts, ThePlanner);
    ss', acts' := ss, acts;
    var fate, i := Goes, first;
    if pushing {
      PushHasTask(env, ss, acts);
      assert indexA.slots[first] == env.slotsA[first];
      fate, ss', acts' := Offer(env, queue, results, context, indexA.slots[first].key, first, ss, acts, ss', acts');
      i := first + 1;
    }
    waits, rc := fate.Waits?, if fate.Stops? then fate.rc else OK;
    if fate.Goes? {
      waits, rc, ss', acts' := BothLoops(env, queue, results, context, indexA, indexB, i, memA, memB,
                                         ss, acts, ss', acts');
    }
    if !waits {
      CanClose(env, Last(ss'));
      StopAll(env, queue, results, context, Last(ss'), Close);
      ss', acts' := ContinueWith(env, ss, acts, ThePlanner, ss', acts', Close);
    }
  }
}
