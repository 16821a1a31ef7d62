/** What a whole run of `plan_and_compare` keeps to: errors are reported and never overwritten, and a
    run that returns 0 has done everything exactly once. */
module Runs {
  import opened Common
  import opened TaskQueue
  import opened Protocol
  import opened Safety
  import opened Planner
  import opened Slots
  import opened Liveness

  // ---------------------------------------------------------------- conservation

  /** In every state of every run: first in, first out, and a popped task is compared, in a worker's
      hands, or the one that worker failed on; nothing is in two places. */
  lemma TasksConserved(env: Env, ss: seq<State>, acts: seq<Action>, k: nat)
    requires EnvOk(env) && IsRun(env, ss, acts) && k < |ss|
    ensures RingOk(ss[k].queue) && CandidatesOf(ss[k].planned) == ss[k].popped + Contents(ss[k].queue)
    ensures multiset(ss[k].popped) == multiset(ss[k].compared) + InFlight(ss[k].workers) + ss[k].lost
    ensures ss[k].planned <= Universe(env)
  {
    RunInv(env, ss, acts, k);
    PlannedPrefix(env, ss[k]);
  }

  /** In every state of every run: after shutdown nobody sleeps; before it, while a worker sleeps every
      queued task has a woken worker coming for it, and while the planner sleeps the queue is full; and
      nobody has left before shutdown. So a signal to a single waiter is enough. */
  lemma NobodyWaitsInVain(env: Env, ss: seq<State>, acts: seq<Action>, k: nat)
    requires EnvOk(env) && IsRun(env, ss, acts) && k < |ss|
    ensures var s := ss[k];
            && (s.queue.shutdown ==> !SomeAsleep(s.workers) && !s.producer.PushAsleep?)
            && (!s.queue.shutdown && SomeAsleep(s.workers) ==> s.queue.count <= Sum(s.workers, WokenBit))
            && (!s.queue.shutdown && s.producer.PushAsleep? ==> s.queue.count == |env.ring|)
            && (!s.queue.shutdown ==> forall w :: 0 <= w < |s.workers| ==> !s.workers[w].Exited?)
  {
    RunInv(env, ss, acts, k);
  }

  // ---------------------------------------------------------------- errors

  /** The errors met by the steps of a run, in order. */
  function FaultCodes(acts: seq<Action>): seq<Errno> {
    if acts == [] then []
    else
      var code := FaultOf(acts[|acts| - 1]);
      FaultCodes(acts[..|acts| - 1]) + (if code != OK then [code] else [])
  }

  lemma FaultStep(env: Env, s: State, a: Action)
    requires Enabled(env, s, a)
    ensures Apply(env, s, a).faults == s.faults + (if FaultOf(a) != OK then [FaultOf(a)] else [])
  {
    assert s.faults + [] == s.faults;
  }

  lemma {:induction false} FaultsRecorded(env: Env, ss: seq<State>, acts: seq<Action>)
    requires IsRun(env, ss, acts)
    ensures Last(ss).faults == FaultCodes(acts)
    decreases |acts|
  {
    if acts != [] {
      RunPrefix(env, ss, acts);
      FaultsRecorded(env, ss[..|acts|], acts[..|acts| - 1]);
      FaultStep(env, ss[|acts| - 1], acts[|acts| - 1]);
    }
  }

  /** The run returns 0 exactly if no record push and no comparison of the run failed; any other
      code is the code of a failure, or ECANCELED after a worker has put its error on record. */
  lemma ReturnCodeSound(env: Env, ss: seq<State>, acts: seq<Action>)
    requires EnvOk(env) && IsRun(env, ss, acts) && Last(ss).producer.Done?
    ensures var rc := Last(ss).producer.rc;
            && (rc == OK <==> FaultCodes(acts) == [])
            && (rc != OK ==> rc in FaultCodes(acts) || (rc == ECANCELED && Last(ss).firstError in FaultCodes(acts)))
  {
    hide FlowOk, WakeOk, PlanOk, ReportOk, TasksOk, Apply, Enabled, EnvOk;
    var s := Last(ss);
    RunInv(env, ss, acts, |acts|);
    FaultsRecorded(env, ss, acts);
    if s.producer.rc == OK {
      assert !Troubled(s);
    } else {
      assert s.faults != [];
    }
  }

  /** A run whose planner finished its loops returns the first error, if there is one. */
  lemma FinishedLoopsReturnFirstError(env: Env, ss: seq<State>, acts: seq<Action>)
    requires EnvOk(env) && IsRun(env, ss, acts) && Last(ss).producer.Done? && Last(ss).planned == Universe(env)
    ensures Last(ss).producer.rc == Last(ss).firstError
  {
    hide EnvOk, IsRun, Universe, ShapeOk, WakeOk, ExitOk, ErrorOk, CodeOk, FlowOk, TasksOk, ReportOk;
    RunInv(env, ss, acts, |acts|);
  }

  lemma {:induction false} FirstErrorStays(env: Env, ss: seq<State>, acts: seq<Action>, j: nat, k: nat)
    requires IsRun(env, ss, acts) && j <= k < |ss| && ss[j].firstError != OK
    ensures ss[k].firstError == ss[j].firstError
    decreases k
  {
    if j < k {
      FirstErrorStays(env, ss, acts, j, k - 1);
      assert ss[k] == Apply(env, ss[k - 1], acts[k - 1]);
    }
  }

  /** The queue is shut down before the planner does it itself, and a push is refused, only after a
      worker's error is on record. */
  lemma EarlyShutdownMeansError(env: Env, ss: seq<State>, acts: seq<Action>, k: nat)
    requires EnvOk(env) && IsRun(env, ss, acts) && k < |acts| && ss[k].queue.shutdown
    requires acts[k].Close? || acts[k].Push?
    ensures ss[k].firstError != OK
    ensures acts[k].Push? ==> ss[k + 1].producer == Closing(ECANCELED)
  {
    RunInv(env, ss, acts, k);
    assert Enabled(env, ss[k], acts[k]);
  }

  // ---------------------------------------------------------------- success

  lemma NoDoneWorkerInFlight(s: State)
    requires forall w :: 0 <= w < |s.workers| ==> s.workers[w].Exited?
    ensures InFlight(s.workers) == multiset{} && !SomeFailing(s.workers)
  {
    NoneInFlight(s.workers);
  }

  function FailedBit(pc: WorkerPc): nat {
    if pc.Failing? || pc.Stopping? || pc == Exited(true) then 1 else 0
  }

  lemma {:induction false} FailedWakeAll(ws: seq<WorkerPc>)
    ensures Sum(WakeAll(ws), FailedBit) == Sum(ws, FailedBit)
  {
    if ws != [] {
      assert WakeAll(ws)[1..] == WakeAll(ws[1..]);
      FailedWakeAll(ws[1..]);
    }
  }

  lemma {:induction false} FailedAtMost(ws: seq<WorkerPc>)
    ensures Sum(ws, FailedBit) <= |ws|
    ensures (forall w :: 0 <= w < |ws| ==> ws[w] == Exited(true)) ==> Sum(ws, FailedBit) == |ws|
  {
    if ws != [] {
      FailedAtMost(ws[1..]);
    }
  }

  lemma {:induction false} NoneFailed(ws: seq<WorkerPc>)
    requires forall w :: 0 <= w < |ws| ==> ws[w] == Ready
    ensures Sum(ws, FailedBit) == 0
  {
    if ws != [] {
      NoneFailed(ws[1..]);
    }
  }

  lemma FailedCompare(env: Env, s: State, w: nat, fault: Errno)
    requires Enabled(env, s, Action.Compare(w, fault)) && Sum(s.workers, FailedBit) == |s.lost|
    ensures var s' := Apply(env, s, Action.Compare(w, fault)); Sum(s'.workers, FailedBit) == |s'.lost|
  {
    hide CompareEvent;
    SumUpdate(s.workers, FailedBit, w, if fault != OK then Failing(fault) else Ready);
  }

  /** Steps of a worker that fail nothing. */
  lemma FailedMove(env: Env, s: State, a: Action)
    requires Enabled(env, s, a) && (a.Pop? || a.SetError? || a.WakeWorker?)
    ensures Sum(Apply(env, s, a).workers, FailedBit) == Sum(s.workers, FailedBit) && Apply(env, s, a).lost == s.lost
  {
    hide Enqueue, Dequeue;
    SumUpdate(s.workers, FailedBit, a.w, Apply(env, s, a).workers[a.w]);
  }

  lemma FailedStop(env: Env, s: State, w: nat)
    requires Enabled(env, s, StopQueue(w))
    ensures Sum(Apply(env, s, StopQueue(w)).workers, FailedBit) == Sum(s.workers, FailedBit)
  {
    SumUpdate(s.workers, FailedBit, w, Exited(true));
    FailedWakeAll(s.workers[w := Exited(true)]);
  }

  lemma FailedPlanner(env: Env, s: State, a: Action)
    requires Enabled(env, s, a) && ByPlanner(a)
    ensures Sum(Apply(env, s, a).workers, FailedBit) == Sum(s.workers, FailedBit) && Apply(env, s, a).lost == s.lost
  {
    hide Enqueue, RingOk, NextCall;
    FailedWakeAll(s.workers);
    if a.Push? && a.signalled < |s.workers| {
      SumUpdate(s.workers, FailedBit, a.signalled, Woken);
    }
  }

  /** A worker that has failed a comparison makes no other: one failure for each lost task. */
  lemma FailedStep(env: Env, s: State, a: Action)
    requires Enabled(env, s, a) && Sum(s.workers, FailedBit) == |s.lost|
    ensures Sum(Apply(env, s, a).workers, FailedBit) == |Apply(env, s, a).lost|
  {
    if ByPlanner(a) {
      FailedPlanner(env, s, a);
    } else {
      match a
      case Compare(w, fault) => FailedCompare(env, s, w, fault);
      case StopQueue(w) => FailedStop(env, s, w);
      case _ => FailedMove(env, s, a);
    }
  }

  /** In every state the lost tasks are as many as the workers that have failed. */
  lemma {:induction false} OneLossPerFailedWorker(env: Env, ss: seq<State>, acts: seq<Action>, k: nat)
    requires IsRun(env, ss, acts) && k < |ss|
    ensures Sum(ss[k].workers, FailedBit) == |ss[k].lost|
  {
    hide Apply, Enabled;
    if k == 0 {
      NoneFailed(ss[0].workers);
    } else {
      OneLossPerFailedWorker(env, ss, acts, k - 1);
      FailedStep(env, ss[k - 1], acts[k - 1]);
    }
  }

  /** What a finished run leaves behind, failed or not. Tasks stay in the queue only if every worker left
      because of a failed comparison, so with fewer failed comparisons than workers every task pushed was
      taken. There are never more failed comparisons than workers. */
  lemma LeftoversNeedAllWorkersFailed(env: Env, ss: seq<State>, acts: seq<Action>)
    requires EnvOk(env) && IsRun(env, ss, acts) && Last(ss).producer.Done?
    ensures RingOk(Last(ss).queue) && |Last(ss).lost| <= env.workerCount
    ensures |Last(ss).workers| == env.workerCount
    ensures Contents(Last(ss).queue) != [] ==>
              forall w :: 0 <= w < |Last(ss).workers| ==> Last(ss).workers[w] == Exited(true)
    ensures |Last(ss).lost| < env.workerCount ==> Contents(Last(ss).queue) == []
    ensures |Last(ss).lost| < env.workerCount ==> Last(ss).popped == CandidatesOf(Last(ss).planned)
    ensures |Last(ss).lost| < env.workerCount ==>
              multiset(CandidatesOf(Last(ss).planned)) == multiset(Last(ss).compared) + Last(ss).lost
  {
    hide EnvOk, IsRun, WakeOk, ErrorOk, CodeOk, PlanOk, TasksOk, ReportOk, CandidatesOf, SettledOk;
    var s := Last(ss);
    RunInv(env, ss, acts, |acts|);
    OneLossPerFailedWorker(env, ss, acts, |acts|);
    FailedAtMost(s.workers);
    NoneInFlight(s.workers);
    if |s.lost| < env.workerCount {
      assert s.popped + [] == s.popped;
      PlusNothing(multiset(s.compared));
    }
  }

  /** When 0 is returned no worker has failed, so every worker has left because nothing was left. */
  lemma SuccessLeavesNothing(env: Env, s: State)
    requires env.workerCount > 0 && Inv(env, s) && s.producer == Done(OK)
    ensures s.planned == Universe(env) && RingOk(s.queue) && Contents(s.queue) == []
    ensures InFlight(s.workers) == multiset{} && s.lost == multiset{}
  {
    hide WakeOk, TasksOk, ReportOk, PoppedOk, SettledOk, Universe;
    NoDoneWorkerInFlight(s);
    assert !Troubled(s);
    assert s.workers[0] == Exited(false);
  }

  lemma AllAccounted(popped: seq<Path>, compared: seq<Path>, candidates: seq<Path>, queued: seq<Path>)
    requires Accounted(multiset(popped), multiset(compared), multiset{}, multiset{})
    requires candidates == popped + queued && queued == []
    ensures multiset(compared) == multiset(candidates)
  {
    assert candidates == popped;
    PlusNothing(multiset(compared));
  }

  /** A run that returns 0 has left nothing undone: every call of the planner is complete, the queue
      is empty, every task was compared exactly once, and every path is settled exactly once. */
  lemma SuccessIsComplete(env: Env, s: State)
    requires EnvOk(env) && Inv(env, s) && s.producer == Done(OK)
    ensures s.planned == Universe(env) && RingOk(s.queue) && Contents(s.queue) == [] && s.lost == multiset{}
    ensures multiset(s.compared) == multiset(CandidatesOf(Universe(env)))
    ensures multiset(s.settled) == multiset(PathsOf(Universe(env)))
  {
    hide WakeOk, ExitOk, ErrorOk, CodeOk, PlanOk, TasksOk, ReportOk, EnvOk, Universe, Accounted, RingOk, Contents;
    hide CandidatesOf, PresentedOf, PathsOf;
    EnvHasWorkers(env);
    SuccessLeavesNothing(env, s);
    AllAccounted(s.popped, s.compared, CandidatesOf(s.planned), Contents(s.queue));
    PathsSplit(Universe(env));
  }

  lemma {:induction false} CandidatesGrow(calls: seq<Call>, more: seq<Call>)
    ensures forall t :: t in CandidatesOf(calls) ==> t in CandidatesOf(calls + more)
    decreases |more|
  {
    if more == [] {
      assert calls + more == calls;
    } else {
      var init, last := more[..|more| - 1], more[|more| - 1];
      CandidatesGrow(calls, init);
      CallsAppend(calls + init, last);
      assert calls + more == (calls + init) + [last];
    }
  }

  /** The slot of a common path of one size leads to a task. */
  lemma {:induction false} CommonIsTask(env: Env, n: nat, i: nat)
    requires EnvOk(env) && i < n <= |env.slotsA| && env.slotsA[i].Occupied? && IsCommon(env, env.slotsA[i].key)
    ensures env.slotsA[i].key in CandidatesOf(SourceCalls(env.slotsA, env.sizesB, n))
  {
    hide CandidatesOf;
    var before, slot := SourceCalls(env.slotsA, env.sizesB, n - 1), env.slotsA[n - 1];
    if i == n - 1 {
      assert slot in env.slotsA;
      CallsAppend(before, Candidate(slot.key));
    } else {
      CommonIsTask(env, n - 1, i);
      CandidatesGrow(before, SourceCall(slot, env.sizesB));
    }
  }

  /** After a run that returned 0 every common path of one size has been compared. */
  lemma CommonCompared(env: Env, s: State, p: Path)
    requires EnvOk(env) && Inv(env, s) && s.producer == Done(OK) && IsCommon(env, p)
    ensures p in s.compared
  {
    SuccessIsComplete(env, s);
    hide Inv, CandidatesOf, SourceCalls, TargetCalls;
    var slot :| slot in env.slotsA && slot.Occupied? && slot.key == p;
    var i :| 0 <= i < |env.slotsA| && env.slotsA[i] == slot;
    CommonIsTask(env, |env.slotsA|, i);
    CandidatesGrow(SourceCalls(env.slotsA, env.sizesB, |env.slotsA|),
                   TargetCalls(env.slotsB, env.sizesA, |env.slotsB|));
    assert p in multiset(CandidatesOf(Universe(env)));
  }

  lemma EnvHasWorkers(env: Env)
    requires EnvOk(env)
    ensures env.workerCount > 0
  {
  }

  lemma {:induction false} NoFaultCodes(acts: seq<Action>)
    requires forall k :: 0 <= k < |acts| ==> FaultOf(acts[k]) == OK
    ensures FaultCodes(acts) == []
  {
    if acts != [] {
      NoFaultCodes(acts[..|acts| - 1]);
    }
  }

  /** On every input some run returns 0: what is proved of successful runs is about something. */
  lemma EveryInputCanSucceed(env: Env) returns (ss: seq<State>, acts: seq<Action>)
    requires EnvOk(env)
    ensures IsRun(env, ss, acts) && Last(ss).producer == Done(OK)
  {
    hide EnvOk, IsRun, FaultOf, Start;
    RunStart(env);
    ss, acts := CanFinish(env, [Start(env)], []);
    NoFaultCodes(acts);
    ReturnCodeSound(env, ss, acts);
  }

  lemma RunStart(env: Env)
    ensures IsRun(env, [Start(env)], [])
  {
  }

  // ---------------------------------------------------------------- building runs

  lemma Go(env: Env, ss: seq<State>, acts: seq<Action>, a: Action) returns (ss': seq<State>, acts': seq<Action>)
    requires IsRun(env, ss, acts) && Enabled(env, Last(ss), a)
    ensures ss' == ss + [Apply(env, Last(ss), a)] && acts' == acts + [a]
    ensures IsRun(env, ss', acts') && Last(ss') == Apply(env, Last(ss), a)
  {
    RunExtend(env, ss, acts, a);
    ss', acts' := ss + [Apply(env, Last(ss), a)], acts + [a];
  }
}
