/** `plan_and_compare` with all its threads (src/planner.c:34-100, src/thread_pool.c:139-185): the program
    counters of planner and workers beside the real queue, result set and error slot. A schedule picks
    the thread that runs its next critical section; whatever it picks, the execution is a run of the
    protocol, and it ends. */
module Machine {
  import opened Common
  import opened FileIndex
  import opened Tree
  import opened PathTree
  import opened ResultSet
  import opened Compare
  import opened Planner
  import opened TaskQueue
  import opened Protocol
  import opened Safety
  import opened Liveness
  import opened Runs
  import opened Refinement
  import opened PlannerLoop

  datatype Shared = Shared(queue: TaskQueue, results: ResultSet, context: CompareContext)

  datatype Threads = Threads(planner: ProducerPc, workers: seq<WorkerPc>)

  /** What the schedule decides: who runs, whom a signal wakes, and whether the thread picked wakes from
      its wait without a signal instead. */
  datatype Pick = Pick(who: Thread, signalled: nat, spurious: bool)

  /** Objects and program counters are in the state `s`. */
  ghost predicate At(o: Shared, t: Threads, s: State)
    reads o.queue, o.queue.items, o.results, o.results.items, Nodes(o.results.layout), o.context
  {
    Holds(o.queue, o.results, o.context, s) && s.producer == t.planner && s.workers == t.workers
  }

  /** The indexes are those of the run. */
  ghost predicate Indexes(env: Env, indexA: FileIndex, indexB: FileIndex, fs: FileSystem)
    reads indexA, indexA.slots, indexA.arena`live, indexA.arena`Repr
    reads indexB, indexB.slots, indexB.arena`live, indexB.arena`Repr
  {
    indexA.Valid() && indexB.Valid() && Tables(env, indexA, indexB) && Given(env, indexA, indexB, fs)
  }

  /** No comparison is hindered: every path of an index leads to a file, and no call on it fails. */
  ghost predicate Unhindered(env: Env, fs: FileSystem, io: Path -> CompareIo) {
    && (forall p :: Faultless(io(p)))
    && (forall p :: p in env.sizesA ==> SideA(env.config, fs, p).Some?)
    && (forall p :: p in env.sizesB ==> SideB(env.config, fs, p).Some?)
  }

  /** The code of a call that can fail: a record that finds no memory, or the comparison of a common path of
      one size. */
  ghost predicate Honest(env: Env, fs: FileSystem, setting: Setting, io: Path -> CompareIo, rc: Errno) {
    rc == OK || rc == ENOMEM || exists p :: IsCommon(env, p) && EndsWith(fs, setting, io(p), p, rc)
  }

  // ---------------------------------------------------------------- who can run

  /** The thread has a critical section to run: it is not waiting, not gone, and what it joins has left. */
  predicate Able(t: Threads, who: Thread) {
    match who
    case ThePlanner =>
      && !t.planner.PushAsleep? && !t.planner.Done?
      && (t.planner.Joining? && t.planner.k < |t.workers| ==> t.workers[t.planner.k].Exited?)
    case Worker(w) => w < |t.workers| && CanMove(t.workers[w])
  }

  function ThreadOf(a: Action): Thread {
    if ByPlanner(a) then ThePlanner else Worker(a.w)
  }

  lemma EnabledIsAble(env: Env, s: State, a: Action)
    requires Enabled(env, s, a) && !Spurious(a)
    ensures Able(Threads(s.producer, s.workers), ThreadOf(a))
  {
  }

  /** Before the end somebody can run. */
  lemma SomebodyAble(env: Env, s: State) returns (who: Thread)
    requires EnvOk(env) && Inv(env, s) && !s.producer.Done?
    ensures Able(Threads(s.producer, s.workers), who)
  {
    hide EnvOk, Inv, Enabled, Able;
    var a := NeverStuck(env, s);
    EnabledIsAble(env, s, a);
    who := ThreadOf(a);
  }

  /** The thread picked if it can run, and otherwise the first that can. */
  method Choose(t: Threads, picked: Thread, ghost someone: Thread) returns (who: Thread)
    requires Able(t, someone)
    ensures Able(t, who) && (Able(t, picked) ==> who == picked)
  {
    if Able(t, picked) {
      return picked;
    }
    if Able(t, ThePlanner) {
      return ThePlanner;
    }
    var w := 0;
    while w < |t.workers| && !Able(t, Worker(w))
      invariant w <= |t.workers| && forall v: nat :: v < w ==> !Able(t, Worker(v))
    {
      w := w + 1;
    }
    return Worker(w);
  }

  /** A waiting worker for a signal to wake, if there is one: the one picked if it waits. */
  method ChooseWaiter(workers: seq<WorkerPc>, picked: nat) returns (w: nat)
    ensures SomeAsleep(workers) ==> w < |workers| && workers[w].Asleep?
    ensures picked < |workers| && workers[picked].Asleep? ==> w == picked
  {
    if picked < |workers| && workers[picked].Asleep? {
      return picked;
    }
    w := 0;
    while w < |workers| && !workers[w].Asleep?
      invariant w <= |workers| && forall v: nat :: v < w ==> !workers[v].Asleep?
    {
      w := w + 1;
    }
  }

  /** A push that has somebody to wake wakes the worker picked, if that one waits. */
  predicate WakesPicked(s: State, a: Action, picked: nat) {
    a.Push? && picked < |s.workers| && s.workers[picked].Asleep? ==> a.signalled == picked
  }

  // ---------------------------------------------------------------- the planner's critical sections

  /** What a planner step that pushes a record does to the program counters. */
  lemma RecordCounters(env: Env, s: State, rc: Errno)
    requires Enabled(env, s, Plan(rc)) && NextCall(env, s.producer) != [] && NextCall(env, s.producer)[0].Present?
    ensures var s' := Apply(env, s, Plan(rc));
            s'.producer == (if rc != OK then Closing(rc) else Advance(env, s.producer)) && s'.workers == s.workers
  {
  }

  lemma QuietCounters(env: Env, s: State)
    requires s.producer.ScanningA? || s.producer.ScanningB?
    requires NextCall(env, s.producer) == [] || NextCall(env, s.producer)[0].Candidate?
    ensures Enabled(env, s, Plan(OK)) && Apply(env, s, Plan(OK)).workers == s.workers
  {
  }

  /** The call the planner has come to, and where it goes from there. */
  method Reach(ghost env: Env, indexA: FileIndex, indexB: FileIndex, ghost fs: FileSystem, pc: ProducerPc)
    returns (call: seq<Call>, next: ProducerPc)
    requires Indexes(env, indexA, indexB, fs) && (pc.ScanningA? || pc.ScanningB?)
    ensures call == NextCall(env, pc) && |call| <= 1 && next == Advance(env, pc)
    ensures Indexes(env, indexA, indexB, fs)
  {
    hide FileIndex.Valid, SourceCall, TargetCall, Given;
    OneCall(env, pc);
    call := [];
    match pc
    case ScanningA(i) =>
      next := if i < indexA.slots.Length then ScanningA(i + 1) else ScanningB(0);
      if i < indexA.slots.Length {
        assert indexA.slots[i] == env.slotsA[i];
        call := ClassifySource(indexA, indexB, i);
      }
    case ScanningB(i) =>
      next := if i < indexB.slots.Length then ScanningB(i + 1) else Closing(OK);
      if i < indexB.slots.Length {
        assert indexB.slots[i] == env.slotsB[i];
        call := ClassifyTarget(indexA, indexB, i);
      }
  }

  /** One slot of a planner loop: nothing, a record, or a turn to a task. */
  method ScanSection(ghost env: Env, o: Shared, t: Threads, call: seq<Call>, next: ProducerPc, mem: (bool, bool),
                     ghost s: State)
    returns (t': Threads, ghost a: Action)
    requires At(o, t, s) && (t.planner.ScanningA? || t.planner.ScanningB?)
    requires call == NextCall(env, t.planner) && |call| <= 1 && next == Advance(env, t.planner)
    modifies o.results, o.results.items, Nodes(o.results.layout)
    ensures Enabled(env, s, a) && a.Plan? && At(o, t', Apply(env, s, a))
    ensures (FaultOf(a) == OK || FaultOf(a) == ENOMEM) && (mem == (true, true) ==> FaultOf(a) == OK)
    ensures o.results.items == old(o.results.items) || fresh(o.results.items)
    ensures fresh(Nodes(o.results.layout) - old(Nodes(o.results.layout)))
  {
    hide Holds, Apply, Enabled, NextCall, Advance;
    if call != [] && call[0].Present? {
      QuietOrRecord(env, s);
      var rc := PresentRecord(env, o.queue, o.results, o.context, call[0].record, mem.0, mem.1, s);
      RecordCounters(env, s, rc);
      return t.(planner := if rc != OK then Closing(rc) else next), Plan(rc);
    }
    QuietPlan(env, s);
    QuietCounters(env, s);
    HoldsSame(o.queue, o.results, o.context, s, Apply(env, s, Plan(OK)));
    return t.(planner := if call == [] then next else PushReady(t.planner.i)), Plan(OK);
  }

  lemma QuietOrRecord(env: Env, s: State)
    requires s.producer.ScanningA? || s.producer.ScanningB?
    ensures Enabled(env, s, Plan(OK))
  {
  }

  lemma PushCounters(env: Env, s: State, signalled: nat)
    requires Enabled(env, s, Push(signalled))
    ensures Apply(env, s, Push(signalled)).workers ==
            if PushOutcome(s.queue).Served? then SignalWorker(s.workers, signalled) else s.workers
    ensures var pc := Apply(env, s, Push(signalled)).producer;
            PushOutcome(s.queue).Served? <==> pc.ScanningA?
  {
  }

  lemma CanPush(env: Env, s: State, signalled: nat)
    requires EnvOk(env) && Inv(env, s) && AtPush(s.producer)
    requires SomeAsleep(s.workers) ==> signalled < |s.workers| && s.workers[signalled].Asleep?
    ensures Enabled(env, s, Push(signalled))
  {
  }

  /** `task_queue_push` for the task of the slot the planner is at. */
  method PushSection(ghost env: Env, o: Shared, t: Threads, indexA: FileIndex, picked: nat, ghost s: State)
    returns (t': Threads, ghost a: Action)
    requires EnvOk(env) && Inv(env, s) && At(o, t, s) && AtPush(t.planner) && indexA.slots[..] == env.slotsA
    modifies o.queue, o.queue.items
    ensures Enabled(env, s, a) && a.Push? && WakesPicked(s, a, picked) && At(o, t', Apply(env, s, a))
    ensures o.results.items == old(o.results.items) && o.results.layout == old(o.results.layout)
  {
    hide EnvOk, Inv, Holds, Apply;
    assert allocated(Nodes(o.results.layout));
    var signalled := ChooseWaiter(t.workers, picked);
    CanPush(env, s, signalled);
    PushCounters(env, s, signalled);
    var i := t.planner.i;
    assert indexA.slots[i] == env.slotsA[i];
    var outcome := PushTask(env, o.queue, o.results, o.context, indexA.slots[i].key, s, signalled);
    match outcome
    case MustWait => return t.(planner := PushAsleep(i)), Push(signalled);
    case Refused => return t.(planner := Closing(ECANCELED)), Push(signalled);
    case Served => return Threads(ScanningA(i + 1), SignalWorker(t.workers, signalled)), Push(signalled);
  }

  lemma CloseCounters(env: Env, s: State)
    requires s.producer.Closing?
    ensures Enabled(env, s, Close) && Apply(env, s, Close).workers == WakeAll(s.workers)
    ensures Apply(env, s, Close).producer == Joining(s.producer.rc, 0)
  {
  }

  /** The planner's own `task_queue_shutdown`. */
  method CloseSection(ghost env: Env, o: Shared, t: Threads, ghost s: State) returns (t': Threads)
    requires At(o, t, s) && t.planner.Closing?
    modifies o.queue
    ensures Enabled(env, s, Close) && At(o, t', Apply(env, s, Close))
    ensures o.results.items == old(o.results.items) && o.results.layout == old(o.results.layout)
  {
    hide Holds, Apply;
    CloseCounters(env, s);
    StopAll(env, o.queue, o.results, o.context, s, Close);
    t' := Threads(Joining(t.planner.rc, 0), WakeAll(t.workers));
  }

  /** One round of `thread_pool_join`, or what follows it: the code of the planner, or the first error. */
  method JoinSection(ghost env: Env, o: Shared, t: Threads, ghost s: State) returns (t': Threads)
    requires At(o, t, s) && t.planner.Joining? && Able(t, ThePlanner)
    ensures Enabled(env, s, Join) && At(o, t', Apply(env, s, Join))
  {
    hide ResultSet.Valid, ResultSet.View;
    assert allocated(Nodes(o.results.layout));
    var rc, k := t.planner.rc, t.planner.k;
    if k < |t.workers| {
      t' := t.(planner := Joining(rc, k + 1));
    } else {
      t' := t.(planner := Done(if rc == OK then o.context.firstError else rc));
    }
  }

  /** The planner's next critical section. */
  method PlannerSection(ghost env: Env, o: Shared, t: Threads, indexA: FileIndex, indexB: FileIndex,
                        ghost fs: FileSystem, picked: nat, mem: (bool, bool), ghost s: State)
    returns (t': Threads, ghost a: Action)
    requires EnvOk(env) && Inv(env, s) && At(o, t, s) && Able(t, ThePlanner) && Indexes(env, indexA, indexB, fs)
    modifies o.queue, o.queue.items, o.results, o.results.items, Nodes(o.results.layout)
    ensures Enabled(env, s, a) && !Spurious(a) && At(o, t', Apply(env, s, a))
    ensures ByPlanner(a) && WakesPicked(s, a, picked)
    ensures !a.Compare? && (FaultOf(a) == OK || FaultOf(a) == ENOMEM)
    ensures mem == (true, true) ==> FaultOf(a) == OK
    ensures Indexes(env, indexA, indexB, fs)
    ensures o.results.items == old(o.results.items) || fresh(o.results.items)
    ensures fresh(Nodes(o.results.layout) - old(Nodes(o.results.layout)))
  {
    hide EnvOk, Inv, Holds, Apply, Enabled, FileIndex.Valid, Given;
    assert allocated(Nodes(o.results.layout));
    if t.planner.ScanningA? || t.planner.ScanningB? {
      var call, next := Reach(env, indexA, indexB, fs, t.planner);
      ghost var nodes := Nodes(o.results.layout);
      label Reached:
      t', a := ScanSection(env, o, t, call, next, mem, s);
      assert forall x :: x in Nodes(o.results.layout) && x !in nodes ==> !old@Reached(allocated(x));
    } else if AtPush(t.planner) {
      t', a := PushSection(env, o, t, indexA, picked, s);
    } else if t.planner.Closing? {
      t' := CloseSection(env, o, t, s);
      a := Close;
    } else {
      t' := JoinSection(env, o, t, s);
      a := Join;
    }
  }

  // ---------------------------------------------------------------- a worker's critical sections

  lemma PopCounters(env: Env, s: State, w: nat)
    requires Enabled(env, s, Action.Pop(w))
    ensures var s' := Apply(env, s, Action.Pop(w));
            && |s'.workers| == |s.workers| && s'.workers == s.workers[w := s'.workers[w]]
            && s'.producer == if s'.workers[w].Comparing? then SignalProducer(s.producer) else s.producer
  {
  }

  lemma CanPop(env: Env, s: State, w: nat)
    requires Inv(env, s) && w < |s.workers| && AtPop(s.workers[w])
    ensures Enabled(env, s, Action.Pop(w))
  {
  }

  /** `task_queue_pop`. */
  method PopSection(ghost env: Env, o: Shared, t: Threads, w: nat, ghost s: State) returns (t': Threads)
    requires Inv(env, s) && At(o, t, s) && w < |t.workers| && AtPop(t.workers[w])
    modifies o.queue
    ensures Enabled(env, s, Action.Pop(w)) && At(o, t', Apply(env, s, Action.Pop(w)))
    ensures o.results.items == old(o.results.items) && o.results.layout == old(o.results.layout)
  {
    hide Inv, Holds, Apply, Enabled;
    CanPop(env, s, w);
    PopCounters(env, s, w);
    var outcome, task := TakeTask(env, o.queue, o.results, o.context, s, w);
    match outcome
    case MustWait => return t.(workers := t.workers[w := Asleep]);
    case Refused => return t.(workers := t.workers[w := Exited(false)]);
    case Served => return Threads(SignalProducer(t.planner), t.workers[w := Comparing(task)]);
  }

  lemma CompareCounters(env: Env, s: State, w: nat, fault: Errno)
    requires Enabled(env, s, Action.Compare(w, fault))
    ensures var s' := Apply(env, s, Action.Compare(w, fault));
            && s'.workers == s.workers[w := if fault != OK then Failing(fault) else Ready] && s'.producer == s.producer
  {
  }

  lemma CanCompare(env: Env, s: State, w: nat)
    requires Inv(env, s) && w < |s.workers| && s.workers[w].Comparing?
    ensures Enabled(env, s, Action.Compare(w, OK))
    ensures IsCommon(env, s.workers[w].task)
  {
  }

  /** A comparison that succeeds has made no call that fails. */
  ghost predicate ComparedWell(env: Env, fs: FileSystem, setting: Setting, io: Path -> CompareIo, s: State, a: Action) {
    a.Compare? && a.fault == OK && a.w < |s.workers| && s.workers[a.w].Comparing? ==>
      Examined(env, fs, setting, io(s.workers[a.w].task), s.workers[a.w].task)
  }

  /** Every path compared so far was compared without an error, and every error met is that of a call. */
  ghost predicate Accountable(env: Env, fs: FileSystem, setting: Setting, io: Path -> CompareIo, s: State) {
    && (forall p :: p in s.compared ==> Examined(env, fs, setting, io(p), p))
    && (forall c :: c in s.faults ==> Honest(env, fs, setting, io, c))
  }

  lemma AccountableStart(env: Env, fs: FileSystem, setting: Setting, io: Path -> CompareIo)
    ensures Accountable(env, fs, setting, io, Start(env))
  {
  }

  lemma AccountableStep(env: Env, fs: FileSystem, setting: Setting, io: Path -> CompareIo, s: State, a: Action)
    requires Enabled(env, s, a) && (a.Compare? ==> ComparedWell(env, fs, setting, io, s, a))
    requires FaultOf(a) != OK ==> Honest(env, fs, setting, io, FaultOf(a))
    requires Accountable(env, fs, setting, io, s)
    ensures Accountable(env, fs, setting, io, Apply(env, s, a))
  {
    hide Examined, Honest;
    FaultStep(env, s, a);
  }

  /** The code of a finished run is that of a call, or ECANCELED. */
  lemma AccountableEnd(env: Env, fs: FileSystem, setting: Setting, io: Path -> CompareIo, ss: seq<State>,
                       acts: seq<Action>)
    requires EnvOk(env) && IsRun(env, ss, acts) && Last(ss).producer.Done?
    requires Accountable(env, fs, setting, io, Last(ss))
    ensures Last(ss).producer.rc == ECANCELED || Honest(env, fs, setting, io, Last(ss).producer.rc)
    ensures Last(ss).faults == [] ==> Last(ss).producer.rc == OK
  {
    hide EnvOk, IsRun, EndsWith, Examined;
    FaultsRecorded(env, ss, acts);
    ReturnCodeSound(env, ss, acts);
  }

  /** `compare_candidate_file` on the task in hand. */
  method CompareSection(ghost env: Env, o: Shared, t: Threads, indexA: FileIndex, indexB: FileIndex, fs: FileSystem,
                        setting: Setting, io: Path -> CompareIo, w: nat, ghost s: State)
    returns (t': Threads, ghost a: Action)
    requires Inv(env, s) && At(o, t, s) && w < |t.workers| && t.workers[w].Comparing?
    requires indexA.Valid() && indexB.Valid() && Given(env, indexA, indexB, fs)
    requires SettingOf(env, setting) && forall p :: io(p).sight == env.sight(p)
    modifies o.results, o.results.items, Nodes(o.results.layout)
    ensures Enabled(env, s, a) && a.Compare? && a.w == w && At(o, t', Apply(env, s, a))
    ensures Honest(env, fs, setting, io, FaultOf(a)) && (Unhindered(env, fs, io) ==> FaultOf(a) == OK)
    ensures ComparedWell(env, fs, setting, io, s, a)
    ensures o.results.items == old(o.results.items) || fresh(o.results.items)
    ensures fresh(Nodes(o.results.layout) - old(Nodes(o.results.layout)))
  {
    hide Inv, Holds, Apply, Enabled, FileIndex.Valid, Given, Faultless, SideA, SideB, Examined, EndsWith;
    CanCompare(env, s, w);
    var task := t.workers[w].task;
    var rc := CompareTask(env, o.queue, o.results, o.context, indexA, indexB, fs, setting, task, io(task), s, w);
    CompareCounters(env, s, w, rc);
    return t.(workers := t.workers[w := if rc != OK then Failing(rc) else Ready]), Action.Compare(w, rc);
  }

  lemma SetCounters(env: Env, s: State, w: nat)
    requires w < |s.workers| && s.workers[w].Failing?
    ensures Enabled(env, s, SetError(w))
    ensures var s' := Apply(env, s, SetError(w)); s'.workers == s.workers[w := Stopping] && s'.producer == s.producer
  {
  }

  lemma StopCounters(env: Env, s: State, w: nat)
    requires w < |s.workers| && s.workers[w].Stopping?
    ensures Enabled(env, s, StopQueue(w))
    ensures var s' := Apply(env, s, StopQueue(w));
            s'.workers == WakeAll(s.workers[w := Exited(true)]) && s'.producer == SignalProducer(s.producer)
  {
  }

  /** `compare_context_set_error`, then `task_queue_shutdown` and the end of the loop. */
  method ErrorSection(ghost env: Env, o: Shared, t: Threads, w: nat, ghost s: State)
    returns (t': Threads, ghost a: Action)
    requires At(o, t, s) && w < |t.workers| && (t.workers[w].Failing? || t.workers[w].Stopping?)
    modifies o.context, o.queue
    ensures Enabled(env, s, a) && !Spurious(a) && !a.Compare? && ThreadOf(a) == Worker(w)
    ensures FaultOf(a) == OK && At(o, t', Apply(env, s, a))
    ensures o.results.items == old(o.results.items) && o.results.layout == old(o.results.layout)
  {
    hide Holds, Apply, Enabled;
    if t.workers[w].Failing? {
      SetCounters(env, s, w);
      ReportError(env, o.queue, o.results, o.context, t.workers[w].code, s, w);
      return t.(workers := t.workers[w := Stopping]), SetError(w);
    }
    StopCounters(env, s, w);
    StopAll(env, o.queue, o.results, o.context, s, StopQueue(w));
    return Threads(SignalProducer(t.planner), WakeAll(t.workers[w := Exited(true)])), StopQueue(w);
  }

  /** Worker w's next critical section. */
  method WorkerSection(ghost env: Env, o: Shared, t: Threads, indexA: FileIndex, indexB: FileIndex, fs: FileSystem,
                       setting: Setting, io: Path -> CompareIo, w: nat, ghost s: State)
    returns (t': Threads, ghost a: Action)
    requires Inv(env, s) && At(o, t, s) && Able(t, Worker(w)) && Indexes(env, indexA, indexB, fs)
    requires SettingOf(env, setting) && forall p :: io(p).sight == env.sight(p)
    modifies o.queue, o.context, o.results, o.results.items, Nodes(o.results.layout)
    ensures Enabled(env, s, a) && !Spurious(a) && ThreadOf(a) == Worker(w) && At(o, t', Apply(env, s, a))
    ensures Honest(env, fs, setting, io, FaultOf(a)) && (Unhindered(env, fs, io) ==> FaultOf(a) == OK)
    ensures a.Compare? ==> ComparedWell(env, fs, setting, io, s, a)
    ensures Indexes(env, indexA, indexB, fs)
    ensures o.results.items == old(o.results.items) || fresh(o.results.items)
    ensures fresh(Nodes(o.results.layout) - old(Nodes(o.results.layout)))
  {
    hide Inv, Holds, Apply, Enabled, FileIndex.Valid, Given, SettingOf, Unhindered, Examined, EndsWith;
    if AtPop(t.workers[w]) {
      t' := PopSection(env, o, t, w, s);
      a := Action.Pop(w);
    } else if t.workers[w].Comparing? {
      t', a := CompareSection(env, o, t, indexA, indexB, fs, setting, io, w, s);
    } else {
      t', a := ErrorSection(env, o, t, w, s);
    }
  }

  // ---------------------------------------------------------------- the whole pool

  /** A wait that ends without a signal. */
  predicate Waits(t: Threads, who: Thread) {
    match who
    case ThePlanner => t.planner.PushAsleep?
    case Worker(w) => w < |t.workers| && t.workers[w].Asleep?
  }

  /** The step is the one the schedule asks for: a wake-up without a signal if that is what it picks, it may
      still have one and the thread waits; otherwise a step of the thread picked, if that can run. */
  ghost predicate Follows(s: State, a: Action, pick: Pick, mayWake: bool) {
    var t := Threads(s.producer, s.workers);
    && (Spurious(a) <==> pick.spurious && mayWake && Waits(t, pick.who))
    && (Spurious(a) || Able(t, pick.who) ==> ThreadOf(a) == pick.who)
    && WakesPicked(s, a, pick.signalled)
  }

  method WakeSection(ghost env: Env, o: Shared, t: Threads, pick: Pick, ghost s: State)
    returns (t': Threads, ghost a: Action)
    requires At(o, t, s) && pick.spurious && Waits(t, pick.who)
    ensures Enabled(env, s, a) && Spurious(a) && Follows(s, a, pick, true) && At(o, t', Apply(env, s, a))
  {
    hide ResultSet.Valid, ResultSet.View;
    match pick.who
    case ThePlanner => return t.(planner := PushWoken(t.planner.i)), WakeProducer;
    case Worker(w) => return t.(workers := t.workers[w := Woken]), WakeWorker(w);
  }

  /** One critical section of whichever thread the schedule picks, or of another if that one cannot run. */
  method RunSection(ghost env: Env, o: Shared, t: Threads, indexA: FileIndex, indexB: FileIndex, fs: FileSystem,
                    setting: Setting, io: Path -> CompareIo, pick: Pick, mem: (bool, bool), ghost mayWake: bool,
                    ghost s: State)
    returns (t': Threads, ghost a: Action)
    requires EnvOk(env) && Inv(env, s) && At(o, t, s) && !t.planner.Done? && Indexes(env, indexA, indexB, fs)
    requires SettingOf(env, setting) && forall p :: io(p).sight == env.sight(p)
    requires !(pick.spurious && mayWake && Waits(t, pick.who))
    modifies o.queue, o.queue.items, o.context, o.results, o.results.items, Nodes(o.results.layout)
    ensures Enabled(env, s, a) && !Spurious(a) && At(o, t', Apply(env, s, a))
    ensures Follows(s, a, pick, mayWake)
    ensures Honest(env, fs, setting, io, FaultOf(a))
    ensures Unhindered(env, fs, io) && mem == (true, true) ==> FaultOf(a) == OK
    ensures a.Compare? ==> ComparedWell(env, fs, setting, io, s, a)
    ensures Indexes(env, indexA, indexB, fs)
    ensures o.results.items == old(o.results.items) || fresh(o.results.items)
    ensures fresh(Nodes(o.results.layout) - old(Nodes(o.results.layout)))
  {
    hide EnvOk, Inv, Holds, Apply, Enabled, Able, FileIndex.Valid, Indexes, SettingOf, Unhindered, Examined;
    hide EndsWith;
    assert allocated(Nodes(o.results.layout));
    ghost var someone := SomebodyAble(env, s);
    var who := Choose(t, pick.who, someone);
    ghost var nodes := Nodes(o.results.layout);
    label Chosen:
    match who {
      case ThePlanner =>
        t', a := PlannerSection(env, o, t, indexA, indexB, fs, pick.signalled, mem, s);
      case Worker(w) =>
        t', a := WorkerSection(env, o, t, indexA, indexB, fs, setting, io, w, s);
    }
    assert forall x :: x in Nodes(o.results.layout) && x !in nodes ==> !old@Chosen(allocated(x));
  }

  /** Step k of a run is the one the schedule asks for. */
  ghost predicate FollowsAt(ss: seq<State>, acts: seq<Action>, schedule: nat -> Pick, wakeups: nat, k: nat)
    requires |ss| == |acts| + 1 && k < |acts|
  {
    Follows(ss[k], acts[k], schedule(k), SpuriousSteps(acts[..k]) < wakeups)
  }

  ghost predicate Scheduled(ss: seq<State>, acts: seq<Action>, schedule: nat -> Pick, wakeups: nat) {
    |ss| == |acts| + 1 && forall k :: 0 <= k < |acts| ==> FollowsAt(ss, acts, schedule, wakeups, k)
  }

  lemma SpuriousMore(acts: seq<Action>, a: Action)
    ensures SpuriousSteps(acts + [a]) == SpuriousSteps(acts) + if Spurious(a) then 1 else 0
  {
    assert (acts + [a])[..|acts|] == acts;
  }

  lemma ScheduledMore(ss: seq<State>, acts: seq<Action>, schedule: nat -> Pick, wakeups: nat, s: State, a: Action)
    requires Scheduled(ss, acts, schedule, wakeups)
    requires Follows(Last(ss), a, schedule(|acts|), SpuriousSteps(acts) < wakeups)
    ensures Scheduled(ss + [s], acts + [a], schedule, wakeups)
  {
    hide Follows, SpuriousSteps;
    var ss', acts' := ss + [s], acts + [a];
    assert acts'[..|acts|] == acts && ss'[|acts|] == Last(ss);
    assert FollowsAt(ss', acts', schedule, wakeups, |acts|);
    forall k | 0 <= k < |acts| ensures FollowsAt(ss', acts', schedule, wakeups, k) {
      assert acts'[..k] == acts[..k] && ss'[k] == ss[k] && acts'[k] == acts[k];
      assert FollowsAt(ss, acts, schedule, wakeups, k);
    }
  }

  /** What a schedule picks to get this step. */
  function PickFor(a: Action): Pick {
    Pick(ThreadOf(a), if a.Push? then a.signalled else 0, Spurious(a))
  }

  lemma PickedFollows(env: Env, s: State, a: Action)
    requires Enabled(env, s, a)
    ensures Follows(s, a, PickFor(a), true)
    ensures !Spurious(a) ==> Follows(s, a, PickFor(a), false)
  {
  }

  lemma {:induction false} SpuriousAtMost(acts: seq<Action>)
    ensures SpuriousSteps(acts) <= |acts|
  {
    if acts != [] {
      SpuriousAtMost(acts[..|acts| - 1]);
    }
  }

  /** No interleaving is out of reach: every run of the protocol, wake-ups without a signal included, is the
      one some schedule asks for. */
  lemma EveryRunIsScheduled(env: Env, ss: seq<State>, acts: seq<Action>, schedule: nat -> Pick)
    requires IsRun(env, ss, acts)
    requires forall k :: 0 <= k < |acts| ==> schedule(k) == PickFor(acts[k])
    ensures Scheduled(ss, acts, schedule, |acts|)
  {
    hide Enabled, Follows, Apply, SpuriousSteps, PickFor;
    forall k | 0 <= k < |acts| ensures FollowsAt(ss, acts, schedule, |acts|, k) {
      SpuriousAtMost(acts[..k]);
      PickedFollows(env, ss[k], acts[k]);
    }
  }

  lemma ScheduledStart(s: State, schedule: nat -> Pick, wakeups: nat)
    ensures Scheduled([s], [], schedule, wakeups) && SpuriousSteps([]) == 0
  {
  }

  lemma StartThreads(env: Env, workerCount: nat)
    requires env.workerCount == workerCount
    ensures Start(env).workers == seq(workerCount, _ => Ready) && Start(env).producer == ScanningA(0)
    ensures Start(env).faults == []
  {
  }

  /** The pool from its start until the planner has joined it, under any schedule with at most `wakeups`
      wake-ups without a signal: it ends, and what the threads did to the real objects is a run of the
      protocol, whose last state these objects are in. If no comparison is hindered and memory suffices for
      the records, it returns 0. */
  method RunPool(ghost env: Env, o: Shared, indexA: FileIndex, indexB: FileIndex, fs: FileSystem, setting: Setting,
                 io: Path -> CompareIo, workerCount: nat, schedule: nat -> Pick, wakeups: nat,
                 mem: nat -> (bool, bool))
    returns (rc: Errno, ghost ss: seq<State>, ghost acts: seq<Action>)
    requires EnvOk(env) && Indexes(env, indexA, indexB, fs) && env.workerCount == workerCount
    requires SettingOf(env, setting) && forall p :: io(p).sight == env.sight(p)
    requires Holds(o.queue, o.results, o.context, Start(env))
    modifies o.queue, o.queue.items, o.context, o.results, o.results.items, Nodes(o.results.layout)
    ensures IsRun(env, ss, acts) && Last(ss).producer == Done(rc)
    ensures Holds(o.queue, o.results, o.context, Last(ss))
    ensures Unhindered(env, fs, io) && (forall n :: mem(n) == (true, true)) ==> rc == OK
    ensures Accountable(env, fs, setting, io, Last(ss))
    ensures rc == ECANCELED || Honest(env, fs, setting, io, rc)
    ensures Scheduled(ss, acts, schedule, wakeups)
  {
    hide EnvOk, Inv, Holds, Apply, Enabled, FileIndex.Valid, Indexes, SettingOf, IsRun, Start, Measure, Unhindered;
    hide Accountable, ComparedWell, Honest, Scheduled, Follows, SpuriousSteps;
    ghost var smooth := Unhindered(env, fs, io) && forall n :: mem(n) == (true, true);
    RunStart(env);
    StartThreads(env, workerCount);
    AccountableStart(env, fs, setting, io);
    ss, acts := [Start(env)], [];
    ScheduledStart(Start(env), schedule, wakeups);
    var t := Threads(ScanningA(0), seq(workerCount, _ => Ready));
    var n, left := 0, wakeups;
    while !t.planner.Done?
      invariant IsRun(env, ss, acts) && At(o, t, Last(ss)) && Indexes(env, indexA, indexB, fs)
      invariant o.results.items == old(o.results.items) || fresh(o.results.items)
      invariant fresh(Nodes(o.results.layout) - old(Nodes(o.results.layout)))
      invariant smooth ==> Last(ss).faults == []
      invariant Accountable(env, fs, setting, io, Last(ss))
      invariant Scheduled(ss, acts, schedule, wakeups) && n == |acts| && left == wakeups - SpuriousSteps(acts)
      decreases left, Measure(env, Last(ss))
    {
      ghost var s, a := Last(ss), Close;
      RunInv(env, ss, acts, |acts|);
      var pick := schedule(n);
      if pick.spurious && left > 0 && Waits(t, pick.who) {
        t, a := WakeSection(env, o, t, pick, s);
        left := left - 1;
      } else {
        ghost var nodes := Nodes(o.results.layout);
        label Round:
        t, a := RunSection(env, o, t, indexA, indexB, fs, setting, io, pick, mem(n), left > 0, s);
        assert forall x :: x in Nodes(o.results.layout) && x !in nodes ==> !old@Round(allocated(x));
        StepMeasure(env, s, a);
      }
      FaultStep(env, s, a);
      AccountableStep(env, fs, setting, io, s, a);
      SpuriousMore(acts, a);
      ScheduledMore(ss, acts, schedule, wakeups, Apply(env, s, a), a);
      ss, acts := Go(env, ss, acts, a);
      n := n + 1;
    }
    rc := t.planner.rc;
    AccountableEnd(env, fs, setting, io, ss, acts);
  }
}
