/** What holds in every reachable state of the protocol: no wake-up is lost, no task is lost or done
    twice, errors are remembered, and the result set is what the settled paths make it. */
module Safety {
  import opened Common
  import opened Results
  import opened Planner
  import opened TaskQueue
  import opened Protocol

  // ---------------------------------------------------------------- sums over the workers

  function Sum(ws: seq<WorkerPc>, f: WorkerPc -> nat): nat {
    if ws == [] then 0 else f(ws[0]) + Sum(ws[1..], f)
  }

  lemma {:induction false} SumUpdate(ws: seq<WorkerPc>, f: WorkerPc -> nat, w: nat, pc: WorkerPc)
    requires w < |ws|
    ensures Sum(ws[w := pc], f) == Sum(ws, f) - f(ws[w]) + f(pc)
  {
    if w > 0 {
      assert ws[w := pc][1..] == ws[1..][w - 1 := pc];
      SumUpdate(ws[1..], f, w - 1, pc);
    } else {
      assert ws[w := pc][1..] == ws[1..];
    }
  }

  function WokenBit(pc: WorkerPc): nat {
    if pc.Woken? then 1 else 0
  }

  /** The tasks being compared. */
  function InFlight(ws: seq<WorkerPc>): multiset<Path> {
    if ws == [] then multiset{} else TaskOf(ws[0]) + InFlight(ws[1..])
  }

  function TaskOf(pc: WorkerPc): multiset<Path> {
    if pc.Comparing? then multiset{pc.task} else multiset{}
  }

  lemma {:induction false} InFlightAt(ws: seq<WorkerPc>, w: nat, pc: WorkerPc, p: Path)
    requires w < |ws|
    ensures InFlight(ws[w := pc])[p] + TaskOf(ws[w])[p] == InFlight(ws)[p] + TaskOf(pc)[p]
  {
    if w > 0 {
      assert ws[w := pc][1..] == ws[1..][w - 1 := pc];
      InFlightAt(ws[1..], w - 1, pc, p);
    } else {
      assert ws[w := pc][1..] == ws[1..];
    }
  }

  lemma InFlightUpdate(ws: seq<WorkerPc>, w: nat, pc: WorkerPc)
    requires w < |ws|
    ensures InFlight(ws[w := pc]) + TaskOf(ws[w]) == InFlight(ws) + TaskOf(pc)
  {
    forall p ensures (InFlight(ws[w := pc]) + TaskOf(ws[w]))[p] == (InFlight(ws) + TaskOf(pc))[p] {
      InFlightAt(ws, w, pc, p);
    }
  }

  lemma InFlightSame(ws: seq<WorkerPc>, w: nat, pc: WorkerPc)
    requires w < |ws| && !ws[w].Comparing? && !pc.Comparing?
    ensures InFlight(ws[w := pc]) == InFlight(ws)
  {
    InFlightUpdate(ws, w, pc);
    PlusNothing(InFlight(ws[w := pc]));
    PlusNothing(InFlight(ws));
  }

  lemma InFlightMore(ws: seq<WorkerPc>, w: nat, task: Path)
    requires w < |ws| && !ws[w].Comparing?
    ensures InFlight(ws[w := Comparing(task)]) == InFlight(ws) + multiset{task}
  {
    InFlightUpdate(ws, w, Comparing(task));
    PlusNothing(InFlight(ws[w := Comparing(task)]));
  }

  lemma InFlightLess(ws: seq<WorkerPc>, w: nat, pc: WorkerPc)
    requires w < |ws| && ws[w].Comparing? && !pc.Comparing?
    ensures InFlight(ws) == InFlight(ws[w := pc]) + multiset{ws[w].task}
  {
    InFlightUpdate(ws, w, pc);
    PlusNothing(InFlight(ws));
  }

  lemma PlusNothing(m: multiset<Path>)
    ensures m + multiset{} == m
  {
  }

  lemma {:induction false} InFlightWakeAll(ws: seq<WorkerPc>)
    ensures InFlight(WakeAll(ws)) == InFlight(ws)
  {
    if ws != [] {
      assert WakeAll(ws)[1..] == WakeAll(ws[1..]);
      InFlightWakeAll(ws[1..]);
    }
  }

  lemma InFlightSignal(ws: seq<WorkerPc>, w: nat)
    ensures InFlight(SignalWorker(ws, w)) == InFlight(ws)
  {
    if w < |ws| && ws[w].Asleep? {
      InFlightSame(ws, w, Woken);
    }
  }

  lemma {:induction false} NoneInFlight(ws: seq<WorkerPc>)
    requires forall w :: 0 <= w < |ws| ==> !ws[w].Comparing?
    ensures InFlight(ws) == multiset{}
  {
    if ws != [] {
      NoneInFlight(ws[1..]);
    }
  }

  // ---------------------------------------------------------------- nobody waits in vain

  /** After shutdown nobody sleeps. Before it, a worker sleeps only while every queued task has a
      woken worker coming for it, and the planner only while the queue is full. */
  ghost predicate WakeOk(s: State) {
    && (s.queue.shutdown ==> !SomeAsleep(s.workers) && !s.producer.PushAsleep?)
    && (!s.queue.shutdown && SomeAsleep(s.workers) ==> s.queue.count <= Sum(s.workers, WokenBit))
    && (!s.queue.shutdown && s.producer.PushAsleep? ==> s.queue.count == |s.queue.items|)
  }

  lemma AwakeAfterWakeAll(ws: seq<WorkerPc>)
    ensures !SomeAsleep(WakeAll(ws))
  {
  }

  /** Whoever sleeps after worker w's step slept before, or is w. */
  lemma StillAsleep(ws: seq<WorkerPc>, w: nat, pc: WorkerPc)
    requires w < |ws| && SomeAsleep(ws[w := pc])
    ensures pc.Asleep? || SomeAsleep(ws)
  {
    var i :| 0 <= i < |ws| && ws[w := pc][i].Asleep?;
    assert i != w ==> ws[i].Asleep?;
  }

  /** A worker that neither was woken nor falls asleep changes nothing about waiting. */
  lemma WakeWorkerStep(s: State, w: nat, pc: WorkerPc)
    requires WakeOk(s) && w < |s.workers| && !pc.Asleep? && WokenBit(pc) >= WokenBit(s.workers[w])
    ensures WakeOk(s.(workers := s.workers[w := pc]))
  {
    SumUpdate(s.workers, WokenBit, w, pc);
    if SomeAsleep(s.workers[w := pc]) {
      StillAsleep(s.workers, w, pc);
    }
  }

  lemma WakePush(env: Env, s: State, signalled: nat)
    requires WakeOk(s) && Enabled(env, s, Push(signalled))
    ensures WakeOk(Apply(env, s, Push(signalled)))
  {
    if PushOutcome(s.queue).Served? {
      var ws := s.workers;
      if SomeAsleep(ws) {
        SumUpdate(ws, WokenBit, signalled, Woken);
      }
    }
  }

  lemma WakePop(env: Env, s: State, w: nat)
    requires WakeOk(s) && Enabled(env, s, Action.Pop(w))
    ensures WakeOk(Apply(env, s, Action.Pop(w)))
  {
    var s' := Apply(env, s, Action.Pop(w));
    SumUpdate(s.workers, WokenBit, w, s'.workers[w]);
    if SomeAsleep(s'.workers) {
      StillAsleep(s.workers, w, s'.workers[w]);
    }
  }

  lemma WakeStep(env: Env, s: State, a: Action)
    requires WakeOk(s) && Enabled(env, s, a)
    ensures WakeOk(Apply(env, s, a))
  {
    match a
    case Push(signalled) => WakePush(env, s, signalled);
    case Pop(w) => WakePop(env, s, w);
    case Compare(w, fault) => WakeWorkerStep(s, w, if fault != OK then Failing(fault) else Ready);
    case SetError(w) => WakeWorkerStep(s, w, Stopping);
    case WakeWorker(w) => WakeWorkerStep(s, w, Woken);
    case StopQueue(w) => AwakeAfterWakeAll(s.workers[w := Exited(true)]);
    case Close => AwakeAfterWakeAll(s.workers);
    case _ =>
  }

  // ---------------------------------------------------------------- leaving

  /** Workers leave only after shutdown: the ones that found nothing left, or the ones that failed. */
  ghost predicate ExitOk(s: State) {
    && (forall w :: 0 <= w < |s.workers| && s.workers[w].Exited? ==> s.queue.shutdown)
    && (forall w :: 0 <= w < |s.workers| && s.workers[w] == Exited(false) ==> s.queue.count == 0)
    && (s.producer.Joining? || s.producer.Done? ==> s.queue.shutdown)
    && (s.producer.Joining? ==> forall w :: 0 <= w < s.producer.k && w < |s.workers| ==> s.workers[w].Exited?)
    && (s.producer.Done? ==> forall w :: 0 <= w < |s.workers| ==> s.workers[w].Exited?)
  }

  /** The planner's own steps. */
  predicate ByPlanner(a: Action) {
    a.Plan? || a.Push? || a.Close? || a.Join? || a.WakeProducer?
  }

  lemma ExitStepPlanner(env: Env, s: State, a: Action)
    requires ExitOk(s) && Enabled(env, s, a) && ByPlanner(a)
    ensures ExitOk(Apply(env, s, a))
  {
  }

  lemma ExitStepWorker(env: Env, s: State, a: Action)
    requires ExitOk(s) && Enabled(env, s, a) && !ByPlanner(a)
    ensures ExitOk(Apply(env, s, a))
  {
  }

  // ---------------------------------------------------------------- errors

  ghost predicate SomeFailing(ws: seq<WorkerPc>) {
    exists w :: 0 <= w < |ws| && ws[w].Failing?
  }

  /** The code the planner will return unless a worker's error comes in. */
  function PlannerCode(pc: ProducerPc): Errno {
    if pc.Closing? || pc.Joining? || pc.Done? then pc.rc else OK
  }

  /** An error is on record, or on its way there. */
  ghost predicate Troubled(s: State) {
    s.firstError != OK || SomeFailing(s.workers)
  }

  ghost predicate ErrorOk(s: State) {
    && (s.queue.shutdown && !s.producer.Joining? && !s.producer.Done? ==> s.firstError != OK)
    && (forall w :: 0 <= w < |s.workers| && (s.workers[w].Stopping? || s.workers[w] == Exited(true)) ==>
          s.firstError != OK)
    && (forall w :: 0 <= w < |s.workers| && s.workers[w].Failing? ==> s.workers[w].code in s.faults)
    && (s.firstError != OK ==> s.firstError in s.faults)
    && OK !in s.faults
  }

  /** A nonzero code comes from an error that was met; an error that was met is not forgotten. */
  ghost predicate CodeOk(s: State) {
    && (PlannerCode(s.producer) != OK ==>
          PlannerCode(s.producer) in s.faults || (PlannerCode(s.producer) == ECANCELED && s.firstError != OK))
    && (s.faults != [] ==> Troubled(s) || PlannerCode(s.producer) != OK)
    && (s.lost != multiset{} ==> Troubled(s))
    && (s.producer.Done? && s.producer.rc == OK ==> s.firstError == OK)
  }

  lemma ErrorStepPlanner(env: Env, s: State, a: Action)
    requires ErrorOk(s) && Enabled(env, s, a) && ByPlanner(a)
    ensures ErrorOk(Apply(env, s, a))
  {
  }

  /** A worker moves between states that claim nothing about errors. */
  lemma ErrorQuietStep(env: Env, s: State, a: Action)
    requires ErrorOk(s) && Enabled(env, s, a) && (a.Pop? || a.WakeWorker?)
    ensures ErrorOk(Apply(env, s, a))
  {
    hide RingOk;
  }

  lemma ErrorCompare(env: Env, s: State, w: nat, fault: Errno)
    requires ErrorOk(s) && Enabled(env, s, Action.Compare(w, fault))
    ensures ErrorOk(Apply(env, s, Action.Compare(w, fault)))
  {
    hide CompareEvent, Settle;
  }

  lemma ErrorSet(env: Env, s: State, w: nat)
    requires ErrorOk(s) && Enabled(env, s, SetError(w))
    ensures ErrorOk(Apply(env, s, SetError(w)))
  {
  }

  lemma ErrorStop(env: Env, s: State, w: nat)
    requires ErrorOk(s) && Enabled(env, s, StopQueue(w))
    ensures ErrorOk(Apply(env, s, StopQueue(w)))
  {
  }

  lemma ErrorStepWorker(env: Env, s: State, a: Action)
    requires ErrorOk(s) && Enabled(env, s, a) && !ByPlanner(a)
    ensures ErrorOk(Apply(env, s, a))
  {
    hide ErrorOk, Apply, Enabled;
    match a
    case Compare(w, fault) => ErrorCompare(env, s, w, fault);
    case SetError(w) => ErrorSet(env, s, w);
    case StopQueue(w) => ErrorStop(env, s, w);
    case _ => ErrorQuietStep(env, s, a);
  }

  lemma TroubleStays(env: Env, s: State, a: Action)
    requires Enabled(env, s, a) && Troubled(s) && ErrorOk(s)
    ensures Troubled(Apply(env, s, a))
  {
    if s.firstError == OK {
      var w :| 0 <= w < |s.workers| && s.workers[w].Failing?;
      assert s.workers[w].code != OK;
      var s' := Apply(env, s, a);
      assert s'.firstError != OK || s'.workers[w].Failing?;
    }
  }

  lemma CodeStepPlanner(env: Env, s: State, a: Action)
    requires ErrorOk(s) && CodeOk(s) && Enabled(env, s, a) && ByPlanner(a)
    ensures CodeOk(Apply(env, s, a))
  {
    if Troubled(s) {
      TroubleStays(env, s, a);
    }
  }

  lemma CodeStepWorker(env: Env, s: State, a: Action)
    requires ErrorOk(s) && CodeOk(s) && ExitOk(s) && Enabled(env, s, a) && !ByPlanner(a)
    ensures CodeOk(Apply(env, s, a))
  {
    if Troubled(s) {
      TroubleStays(env, s, a);
    }
    if a.Compare? && a.fault != OK {
      assert Apply(env, s, a).workers[a.w].Failing?;
    }
  }

  // ---------------------------------------------------------------- the planner's progress

  /** The calls completed are those of the slots passed. The planner's own code is 0 exactly if both
      loops ran to their ends, and then the first error, if any, is what it returns. */
  ghost predicate PlanOk(env: Env, s: State) {
    var src, all := SourceCalls(env.slotsA, env.sizesB, |env.slotsA|), Universe(env);
    match s.producer
    case ScanningA(i) => i <= |env.slotsA| && s.planned == SourceCalls(env.slotsA, env.sizesB, i)
    case PushReady(i) => AtCandidate(env, i) && s.planned == SourceCalls(env.slotsA, env.sizesB, i)
    case PushAsleep(i) => AtCandidate(env, i) && s.planned == SourceCalls(env.slotsA, env.sizesB, i)
    case PushWoken(i) => AtCandidate(env, i) && s.planned == SourceCalls(env.slotsA, env.sizesB, i)
    case ScanningB(i) => i <= |env.slotsB| && s.planned == src + TargetCalls(env.slotsB, env.sizesA, i)
    case Closing(rc) => s.planned <= all && (rc == OK <==> s.planned == all)
    case Joining(rc, _) => s.planned <= all && (rc == OK <==> s.planned == all)
    case Done(rc) => s.planned <= all && (rc == OK ==> s.planned == all) && (s.planned == all ==> rc == s.firstError)
  }

  /** Everything the planner would do in a run that nothing stops. */
  function Universe(env: Env): seq<Call> {
    AllCalls(env.slotsA, env.sizesA, env.slotsB, env.sizesB)
  }

  ghost predicate AtCandidate(env: Env, i: nat) {
    && i < |env.slotsA| && env.slotsA[i].Occupied?
    && SourceCall(env.slotsA[i], env.sizesB) == [Candidate(env.slotsA[i].key)]
  }

  lemma PlannedPrefix(env: Env, s: State)
    requires PlanOk(env, s)
    ensures s.planned <= Universe(env)
  {
    var src := SourceCalls(env.slotsA, env.sizesB, |env.slotsA|);
    match s.producer
    case ScanningB(i) =>
      var more := TargetCallsPrefix(env.slotsB, env.sizesA, i, |env.slotsB|);
      assert Universe(env) == s.planned + more;
    case ScanningA(i) => SourcePrefix(env, s.planned, i);
    case PushReady(i) => SourcePrefix(env, s.planned, i);
    case PushAsleep(i) => SourcePrefix(env, s.planned, i);
    case PushWoken(i) => SourcePrefix(env, s.planned, i);
    case _ =>
  }

  lemma SourcePrefix(env: Env, calls: seq<Call>, i: nat)
    requires i <= |env.slotsA| && calls == SourceCalls(env.slotsA, env.sizesB, i)
    ensures calls <= Universe(env)
  {
    var more := SourceCallsPrefix(env.slotsA, env.sizesB, i, |env.slotsA|);
    assert Universe(env) == calls + (more + TargetCalls(env.slotsB, env.sizesA, |env.slotsB|));
  }

  /** A call that is due has not been made: the planner is not at its end. */
  lemma CallIsDue(env: Env, s: State, call: Call)
    requires PlanOk(env, s)
    requires NextCall(env, s.producer) == [call] ||
             (AtPush(s.producer) && call == Candidate(env.slotsA[s.producer.i].key))
    ensures s.planned + [call] <= Universe(env)
  {
    var i := s.producer.i;
    if s.producer.ScanningB? {
      var more := TargetCallsPrefix(env.slotsB, env.sizesA, i + 1, |env.slotsB|);
      Associate(SourceCalls(env.slotsA, env.sizesB, |env.slotsA|), TargetCalls(env.slotsB, env.sizesA, i), [call]);
      assert Universe(env) == s.planned + [call] + more;
    } else {
      SourcePrefix(env, SourceCalls(env.slotsA, env.sizesB, i + 1), i + 1);
      assert s.planned + [call] <= Universe(env);
    }
  }

  /** The calls of one more slot. */
  lemma NextSlot(env: Env, pc: ProducerPc)
    ensures pc.ScanningA? && pc.i < |env.slotsA| ==>
              SourceCalls(env.slotsA, env.sizesB, pc.i + 1) ==
              SourceCalls(env.slotsA, env.sizesB, pc.i) + NextCall(env, pc)
    ensures pc.ScanningB? && pc.i < |env.slotsB| ==>
              TargetCalls(env.slotsB, env.sizesA, pc.i + 1) ==
              TargetCalls(env.slotsB, env.sizesA, pc.i) + NextCall(env, pc)
    ensures TargetCalls(env.slotsB, env.sizesA, 0) == []
    ensures pc.ScanningA? && pc.i >= |env.slotsA| ==> NextCall(env, pc) == []
    ensures pc.ScanningB? && pc.i >= |env.slotsB| ==> NextCall(env, pc) == []
  {
  }

  /** A turn to a task is what the slot calls for. */
  lemma TurnToTask(env: Env, s: State)
    requires s.producer.ScanningA? || s.producer.ScanningB?
    requires NextCall(env, s.producer) != [] && NextCall(env, s.producer)[0].Candidate?
    ensures s.producer.ScanningA? && AtCandidate(env, s.producer.i)
  {
  }

  lemma PlanStepSource(env: Env, s: State, fault: Errno)
    requires PlanOk(env, s) && Enabled(env, s, Plan(fault)) && s.producer.ScanningA?
    ensures PlanOk(env, Apply(env, s, Plan(fault)))
  {
    hide SourceCalls, TargetCalls, NextCall, AtCandidate, Universe;
    PlannedPrefix(env, s);
    OneCall(env, s.producer);
    NextSlot(env, s.producer);
    if NextCall(env, s.producer) != [] {
      CallIsDue(env, s, NextCall(env, s.producer)[0]);
      if NextCall(env, s.producer)[0].Candidate? {
        TurnToTask(env, s);
      }
    }
    assert s.planned + [] == s.planned;
  }

  lemma PlanStepTarget(env: Env, s: State, fault: Errno)
    requires PlanOk(env, s) && Enabled(env, s, Plan(fault)) && s.producer.ScanningB?
    ensures PlanOk(env, Apply(env, s, Plan(fault)))
  {
    hide SourceCalls, TargetCalls, NextCall, AtCandidate;
    PlannedPrefix(env, s);
    OneCall(env, s.producer);
    NextSlot(env, s.producer);
    if NextCall(env, s.producer) != [] {
      CallIsDue(env, s, NextCall(env, s.producer)[0]);
      if NextCall(env, s.producer)[0].Candidate? {
        TurnToTask(env, s);
      }
    }
    assert s.planned + [] == s.planned;
    if s.producer.i < |env.slotsB| {
      Associate(SourceCalls(env.slotsA, env.sizesB, |env.slotsA|), TargetCalls(env.slotsB, env.sizesA, s.producer.i),
                NextCall(env, s.producer));
    }
  }

  lemma Associate(a: seq<Call>, b: seq<Call>, c: seq<Call>)
    ensures (a + b) + c == a + (b + c)
  {
  }

  lemma PlanStepPush(env: Env, s: State, signalled: nat)
    requires PlanOk(env, s) && Enabled(env, s, Push(signalled))
    ensures PlanOk(env, Apply(env, s, Push(signalled)))
  {
    hide SourceCalls, TargetCalls, SourceCall, Universe;
    CallIsDue(env, s, Candidate(env.slotsA[s.producer.i].key));
    NextSlot(env, ScanningA(s.producer.i));
  }

  lemma PlanStep(env: Env, s: State, a: Action)
    requires PlanOk(env, s) && ExitOk(s) && Enabled(env, s, a)
    ensures PlanOk(env, Apply(env, s, a))
  {
    hide SourceCalls, TargetCalls, AtCandidate, Universe;
    PlannedPrefix(env, s);
    match a
    case Plan(fault) =>
      if s.producer.ScanningA? {
        PlanStepSource(env, s, fault);
      } else {
        PlanStepTarget(env, s, fault);
      }
    case Push(signalled) => PlanStepPush(env, s, signalled);
    case _ =>
  }

  // ---------------------------------------------------------------- no task lost, none done twice

  function PathsOf(calls: seq<Call>): seq<Path> {
    if calls == [] then [] else PathsOf(calls[..|calls| - 1]) + [calls[|calls| - 1].Path()]
  }

  /** The tasks among the calls. */
  function CandidatesOf(calls: seq<Call>): seq<Path> {
    if calls == [] then []
    else
      var last := calls[|calls| - 1];
      CandidatesOf(calls[..|calls| - 1]) + (if last.Candidate? then [last.task] else [])
  }

  /** The paths the planner settles itself. */
  function PresentedOf(calls: seq<Call>): seq<Path> {
    if calls == [] then []
    else
      var last := calls[|calls| - 1];
      PresentedOf(calls[..|calls| - 1]) + (if last.Present? then [last.record.path] else [])
  }

  lemma CallsAppend(calls: seq<Call>, c: Call)
    ensures CandidatesOf(calls + [c]) == CandidatesOf(calls) + (if c.Candidate? then [c.task] else [])
    ensures PresentedOf(calls + [c]) == PresentedOf(calls) + (if c.Present? then [c.record.path] else [])
    ensures PathsOf(calls + [c]) == PathsOf(calls) + [c.Path()]
  {
    assert (calls + [c])[..|calls|] == calls;
  }

  lemma {:induction false} PathsSplit(calls: seq<Call>)
    ensures multiset(PathsOf(calls)) == multiset(PresentedOf(calls)) + multiset(CandidatesOf(calls))
  {
    if calls != [] {
      PathsSplit(calls[..|calls| - 1]);
    }
  }

  /** The tasks pushed are those popped followed by those still in the ring. */
  ghost predicate FifoOk(s: State) {
    RingOk(s.queue) && CandidatesOf(s.planned) == s.popped + Contents(s.queue)
  }

  /** A popped task has been compared, is being compared, or is one that a worker failed on. */
  ghost predicate PoppedOk(s: State) {
    Accounted(multiset(s.popped), multiset(s.compared), InFlight(s.workers), s.lost)
  }

  predicate Accounted(popped: multiset<Path>, compared: multiset<Path>, inFlight: multiset<Path>,
                      lost: multiset<Path>) {
    popped == compared + inFlight + lost
  }

  /** What is settled was settled by the planner or by a comparison. */
  ghost predicate SettledOk(s: State) {
    multiset(s.settled) == multiset(PresentedOf(s.planned)) + multiset(s.compared)
  }

  ghost predicate FlowOk(s: State) {
    FifoOk(s) && PoppedOk(s) && SettledOk(s)
  }

  lemma TakeOne(popped: multiset<Path>, compared: multiset<Path>, inFlight: multiset<Path>, lost: multiset<Path>,
                t: Path)
    requires Accounted(popped, compared, inFlight, lost)
    ensures Accounted(popped + multiset{t}, compared, inFlight + multiset{t}, lost)
  {
  }

  lemma FinishOne(popped: multiset<Path>, compared: multiset<Path>, inFlight: multiset<Path>, lost: multiset<Path>,
                  t: Path)
    requires Accounted(popped, compared, inFlight + multiset{t}, lost)
    ensures Accounted(popped, compared + multiset{t}, inFlight, lost)
    ensures Accounted(popped, compared, inFlight, lost + multiset{t})
  {
  }

  lemma SettleOne(settled: seq<Path>, l: seq<Path>, r: seq<Path>, p: Path)
    requires multiset(settled) == multiset(l) + multiset(r)
    ensures multiset(settled + [p]) == multiset(l + [p]) + multiset(r)
    ensures multiset(settled + [p]) == multiset(l) + multiset(r + [p])
  {
  }

  lemma FlowPlan(env: Env, s: State, fault: Errno)
    requires FlowOk(s) && Enabled(env, s, Plan(fault))
    ensures FlowOk(Apply(env, s, Plan(fault)))
  {
    hide CandidatesOf, PresentedOf, Accounted, NextCall, Advance, RingOk, Contents, Results.Push;
    var call := NextCall(env, s.producer);
    OneCall(env, s.producer);
    if call != [] && call[0].Present? && fault == OK {
      CallsAppend(s.planned, call[0]);
      assert call == [call[0]];
      PlusNoPath(CandidatesOf(s.planned));
      SettleOne(s.settled, PresentedOf(s.planned), s.compared, call[0].record.path);
    }
  }

  lemma OneCall(env: Env, pc: ProducerPc)
    ensures |NextCall(env, pc)| <= 1
  {
  }

  lemma PlusNoPath(ps: seq<Path>)
    ensures ps + [] == ps
  {
  }

  lemma FlowPush(env: Env, s: State, signalled: nat)
    requires FlowOk(s) && Enabled(env, s, Push(signalled))
    ensures FlowOk(Apply(env, s, Push(signalled)))
  {
    hide CandidatesOf, PresentedOf, Accounted, RingOk, Contents, Enqueue;
    if PushOutcome(s.queue).Served? {
      var task := env.slotsA[s.producer.i].key;
      CallsAppend(s.planned, Candidate(task));
      CanEnqueue(s.queue);
      EnqueueAppends(s.queue, task);
      InFlightSignal(s.workers, signalled);
      PlusNoPath(PresentedOf(s.planned));
      Regroup(s.popped, Contents(s.queue), task);
    }
  }

  lemma CanEnqueue(q: Queue)
    requires RingOk(q) && PushOutcome(q).Served?
    ensures q.count < |q.items|
  {
  }

  lemma Regroup(a: seq<Path>, b: seq<Path>, p: Path)
    ensures (a + b) + [p] == a + (b + [p])
    ensures a + ([p] + b) == (a + [p]) + b
  {
  }

  lemma FlowPop(env: Env, s: State, w: nat)
    requires FlowOk(s) && Enabled(env, s, Action.Pop(w))
    ensures FlowOk(Apply(env, s, Action.Pop(w)))
  {
    hide CandidatesOf, PresentedOf, Accounted, Contents, Dequeue;
    if PopOutcome(s.queue).Served? {
      var task := s.queue.items[s.queue.head];
      DequeueTakesFront(s.queue);
      Regroup(s.popped, Contents(Dequeue(s.queue)), task);
      InFlightMore(s.workers, w, task);
      TakeOne(multiset(s.popped), multiset(s.compared), InFlight(s.workers), s.lost, task);
      Counted(s.popped, task);
    } else {
      InFlightSame(s.workers, w, Apply(env, s, Action.Pop(w)).workers[w]);
    }
  }

  lemma Counted(ps: seq<Path>, p: Path)
    ensures multiset(ps + [p]) == multiset(ps) + multiset{p}
  {
  }

  lemma FlowCompare(env: Env, s: State, w: nat, fault: Errno)
    requires FlowOk(s) && Enabled(env, s, Action.Compare(w, fault))
    ensures FlowOk(Apply(env, s, Action.Compare(w, fault)))
  {
    hide CandidatesOf, PresentedOf, Accounted, RingOk, Contents;
    var task, ws := s.workers[w].task, Apply(env, s, Action.Compare(w, fault)).workers;
    InFlightLess(s.workers, w, ws[w]);
    FinishOne(multiset(s.popped), multiset(s.compared), InFlight(ws), s.lost, task);
    Counted(s.compared, task);
    SettleOne(s.settled, PresentedOf(s.planned), s.compared, task);
  }

  lemma ShutKeeps(q: Queue)
    requires RingOk(q)
    ensures RingOk(q.(shutdown := true)) && Contents(q.(shutdown := true)) == Contents(q)
  {
  }

  /** Steps that move no task. */
  lemma FlowRest(env: Env, s: State, a: Action)
    requires FlowOk(s) && Enabled(env, s, a) && !a.Plan? && !a.Push? && !a.Pop? && !a.Compare?
    ensures FlowOk(Apply(env, s, a))
  {
    hide CandidatesOf, PresentedOf, Accounted, RingOk, Contents, WakeAll;
    ShutKeeps(s.queue);
    match a
    case SetError(w) => InFlightSame(s.workers, w, Stopping);
    case StopQueue(w) =>
      InFlightSame(s.workers, w, Exited(true));
      InFlightWakeAll(s.workers[w := Exited(true)]);
    case WakeWorker(w) => InFlightSame(s.workers, w, Woken);
    case Close => InFlightWakeAll(s.workers);
    case _ =>
  }

  lemma FlowStep(env: Env, s: State, a: Action)
    requires FlowOk(s) && Enabled(env, s, a)
    ensures FlowOk(Apply(env, s, a))
  {
    hide FlowOk;
    match a
    case Plan(fault) => FlowPlan(env, s, fault);
    case Push(signalled) => FlowPush(env, s, signalled);
    case Pop(w) => FlowPop(env, s, w);
    case Compare(w, fault) => FlowCompare(env, s, w, fault);
    case _ => FlowRest(env, s, a);
  }

  // ---------------------------------------------------------------- what is compared and what is reported

  /** In both indexes with the same size. */
  predicate IsCommon(env: Env, p: Path) {
    p in env.sizesA && p in env.sizesB && env.sizesA[p] == env.sizesB[p]
  }

  /** A task is a common path of one size; a record the planner pushes is the one its path deserves. */
  ghost predicate Right(env: Env, c: Call) {
    match c
    case Candidate(task) => IsCommon(env, task)
    case Present(record) => !IsCommon(env, record.path) && EventOf(env, record.path) == Recorded(record)
  }

  lemma SourceCallRight(env: Env, i: nat)
    requires EnvOk(env) && i < |env.slotsA|
    ensures forall c :: c in SourceCall(env.slotsA[i], env.sizesB) ==> Right(env, c)
  {
    assert env.slotsA[i] in env.slotsA;
  }

  lemma TargetCallRight(env: Env, i: nat)
    requires EnvOk(env) && i < |env.slotsB|
    ensures forall c :: c in TargetCall(env.slotsB[i], env.sizesA) ==> Right(env, c)
  {
    assert env.slotsB[i] in env.slotsB;
  }

  lemma NextCallRight(env: Env, pc: ProducerPc)
    requires EnvOk(env)
    ensures forall c :: c in NextCall(env, pc) ==> Right(env, c)
  {
    match pc
    case ScanningA(i) => if i < |env.slotsA| { SourceCallRight(env, i); }
    case ScanningB(i) => if i < |env.slotsB| { TargetCallRight(env, i); }
    case _ =>
  }

  /** Comparisons only ever look at common paths of one size: the error for a missing path and the
      second look at the sizes (src/compare.c:102-108) are never taken in a run. */
  ghost predicate TasksOk(env: Env, s: State) {
    && (forall t :: t in CandidatesOf(s.planned) ==> IsCommon(env, t))
    && (forall w :: 0 <= w < |s.workers| && s.workers[w].Comparing? ==> IsCommon(env, s.workers[w].task))
  }

  lemma TasksPlan(env: Env, s: State, fault: Errno)
    requires EnvOk(env) && TasksOk(env, s) && Enabled(env, s, Plan(fault))
    ensures TasksOk(env, Apply(env, s, Plan(fault)))
  {
    hide EnvOk, NextCall, CandidatesOf, IsCommon;
    OneCall(env, s.producer);
    var call := NextCall(env, s.producer);
    if call != [] && call[0].Present? && fault == OK {
      CallsAppend(s.planned, call[0]);
      assert call == [call[0]];
    }
  }

  lemma TasksPush(env: Env, s: State, signalled: nat)
    requires EnvOk(env) && PlanOk(env, s) && TasksOk(env, s) && Enabled(env, s, Push(signalled))
    ensures TasksOk(env, Apply(env, s, Push(signalled)))
  {
    hide EnvOk, CandidatesOf, IsCommon, SourceCalls, TargetCalls, EventOf, Universe, Contents;
    var task := env.slotsA[s.producer.i].key;
    SourceCallRight(env, s.producer.i);
    assert Candidate(task) in SourceCall(env.slotsA[s.producer.i], env.sizesB);
    CallsAppend(s.planned, Candidate(task));
  }

  lemma TasksPop(env: Env, s: State, w: nat)
    requires TasksOk(env, s) && FifoOk(s) && Enabled(env, s, Action.Pop(w))
    ensures TasksOk(env, Apply(env, s, Action.Pop(w)))
  {
    hide IsCommon, CandidatesOf, Contents;
    if PopOutcome(s.queue).Served? {
      DequeueTakesFront(s.queue);
      assert Contents(s.queue)[0] == s.queue.items[s.queue.head];
      assert Contents(s.queue)[0] in CandidatesOf(s.planned);
    }
  }

  lemma TasksStep(env: Env, s: State, a: Action)
    requires EnvOk(env) && PlanOk(env, s) && TasksOk(env, s) && FifoOk(s) && Enabled(env, s, a)
    ensures TasksOk(env, Apply(env, s, a))
  {
    hide IsCommon, CandidatesOf, EnvOk, PlanOk;
    match a
    case Plan(fault) => TasksPlan(env, s, fault);
    case Push(signalled) => TasksPush(env, s, signalled);
    case Pop(w) => TasksPop(env, s, w);
    case _ =>
  }

  function EventsOf(env: Env, ps: seq<Path>): seq<Event> {
    if ps == [] then [] else EventsOf(env, ps[..|ps| - 1]) + [EventOf(env, ps[|ps| - 1])]
  }

  /** The result set is what the settled paths make it, each by the event it deserves. */
  ghost predicate ReportOk(env: Env, s: State) {
    s.report == Replay(EventsOf(env, s.settled))
  }

  lemma ReplayMore(env: Env, ps: seq<Path>, p: Path)
    ensures Replay(EventsOf(env, ps + [p])) == Settle(Replay(EventsOf(env, ps)), EventOf(env, p))
  {
    assert (ps + [p])[..|ps|] == ps;
    var es := EventsOf(env, ps);
    assert (es + [EventOf(env, p)])[..|es|] == es;
  }

  lemma ReportStep(env: Env, s: State, a: Action)
    requires EnvOk(env) && ReportOk(env, s) && Enabled(env, s, a)
    ensures ReportOk(env, Apply(env, s, a))
  {
    hide EnvOk, NextCall, EventsOf, EventOf, Replay, Results.Push, CompareEvent, Advance, WakeAll;
    if a.Plan? {
      var call := NextCall(env, s.producer);
      NextCallRight(env, s.producer);
      if call != [] && call[0].Present? {
        assert Right(env, call[0]);
        ReplayMore(env, s.settled, call[0].record.path);
      }
    } else if a.Compare? {
      CompareIsEvent(env, s.workers[a.w].task);
      ReplayMore(env, s.settled, s.workers[a.w].task);
    }
  }

  lemma CompareIsEvent(env: Env, p: Path)
    requires p in env.sizesA && p in env.sizesB
    ensures CompareEvent(env, p) == EventOf(env, p)
  {
  }

  // ---------------------------------------------------------------- every reachable state

  ghost predicate ShapeOk(env: Env, s: State) {
    |s.workers| == env.workerCount && |s.queue.items| == |env.ring|
  }

  ghost predicate Inv(env: Env, s: State) {
    && ShapeOk(env, s) && WakeOk(s) && ExitOk(s) && ErrorOk(s) && CodeOk(s)
    && PlanOk(env, s) && FlowOk(s) && TasksOk(env, s) && ReportOk(env, s)
  }

  lemma ShapeStep(env: Env, s: State, a: Action)
    requires ShapeOk(env, s) && Enabled(env, s, a)
    ensures ShapeOk(env, Apply(env, s, a))
  {
  }

  lemma InvStep(env: Env, s: State, a: Action)
    requires EnvOk(env) && Inv(env, s) && Enabled(env, s, a)
    ensures Inv(env, Apply(env, s, a))
  {
    hide EnvOk, ShapeOk, WakeOk, ExitOk, ErrorOk, CodeOk, PlanOk, FlowOk, TasksOk, ReportOk, Apply, Enabled;
    ShapeStep(env, s, a);
    WakeStep(env, s, a);
    if ByPlanner(a) {
      ExitStepPlanner(env, s, a);
      ErrorStepPlanner(env, s, a);
      CodeStepPlanner(env, s, a);
    } else {
      ExitStepWorker(env, s, a);
      ErrorStepWorker(env, s, a);
      CodeStepWorker(env, s, a);
    }
    PlanStep(env, s, a);
    FlowStep(env, s, a);
    FlowIsFifo(s);
    TasksStep(env, s, a);
    ReportStep(env, s, a);
  }

  lemma FlowIsFifo(s: State)
    requires FlowOk(s)
    ensures FifoOk(s)
  {
  }

  lemma InvStart(env: Env)
    requires EnvOk(env)
    ensures Inv(env, Start(env))
  {
    var s := Start(env);
    NoneInFlight(s.workers);
    assert CandidatesOf(s.planned) == s.popped + Contents(s.queue);
    assert SourceCalls(env.slotsA, env.sizesB, 0) == [];
  }

  /** The invariant holds all along every run, whatever the schedule and whatever fails. */
  lemma {:induction false} RunInv(env: Env, ss: seq<State>, acts: seq<Action>, k: nat)
    requires EnvOk(env) && IsRun(env, ss, acts) && k < |ss|
    ensures Inv(env, ss[k])
  {
    if k == 0 {
      InvStart(env);
    } else {
      RunInv(env, ss, acts, k - 1);
      InvStep(env, ss[k - 1], acts[k - 1]);
    }
  }
}
