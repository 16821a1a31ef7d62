/** The protocol never gets stuck and always ends: some thread can take a real step in every state
    before the end, and every real step makes a measure smaller. */
module Liveness {
  import opened Common
  import opened Slots
  import opened Results
  import opened Compare
  import opened Planner
  import opened TaskQueue
  import opened Protocol
  import opened Safety

  // ---------------------------------------------------------------- no deadlock, no lost wake-up

  predicate CanMove(pc: WorkerPc) {
    !pc.Asleep? && !pc.Exited?
  }

  /** A worker that neither sleeps nor is gone has a step to take. */
  lemma WorkerMoves(env: Env, s: State, w: nat) returns (a: Action)
    requires Inv(env, s) && w < |s.workers| && CanMove(s.workers[w])
    ensures Enabled(env, s, a) && !Spurious(a) && FaultOf(a) == OK
  {
    match s.workers[w]
    case Ready => a := Action.Pop(w);
    case Woken => a := Action.Pop(w);
    case Comparing(task) => a := Action.Compare(w, OK);
    case Failing(_) => a := SetError(w);
    case Stopping => a := StopQueue(w);
  }

  function FaultOf(a: Action): Errno {
    if a.Plan? || a.Compare? then a.fault else OK
  }

  lemma {:induction false} NobodyWoken(ws: seq<WorkerPc>)
    requires forall w :: 0 <= w < |ws| ==> !CanMove(ws[w])
    ensures Sum(ws, WokenBit) == 0
  {
    if ws != [] {
      NobodyWoken(ws[1..]);
    }
  }

  /** If no worker can move, the planner can. */
  lemma PlannerMoves(env: Env, s: State) returns (a: Action)
    requires Inv(env, s) && !s.producer.Done? && !s.producer.PushAsleep?
    requires forall w :: 0 <= w < |s.workers| ==> !CanMove(s.workers[w])
    ensures Enabled(env, s, a) && !Spurious(a) && FaultOf(a) == OK
  {
    hide FlowOk, ErrorOk, CodeOk, ReportOk, TasksOk, PlanOk;
    match s.producer
    case ScanningA(_) => a := Plan(OK);
    case ScanningB(_) => a := Plan(OK);
    case PushReady(_) => a := PushMove(env, s);
    case PushWoken(_) => a := PushMove(env, s);
    case Closing(_) => a := Close;
    case Joining(_, k) => a := Join;
  }

  /** While the planner waits for room, some worker is up and about. */
  lemma PlannerHasCompany(env: Env, s: State)
    requires EnvOk(env) && Inv(env, s) && s.producer.PushAsleep?
    ensures exists w :: 0 <= w < |s.workers| && CanMove(s.workers[w])
  {
    hide FlowOk, ErrorOk, CodeOk, ReportOk, TasksOk, PlanOk, Represents, UniqueKeys;
    if !CanMove(s.workers[0]) {
      assert SomeAsleep(s.workers);
      if forall w :: 0 <= w < |s.workers| ==> !CanMove(s.workers[w]) {
        NobodyWoken(s.workers);
        assert false;
      }
    }
  }

  lemma PushMove(env: Env, s: State) returns (a: Action)
    requires Inv(env, s) && AtPush(s.producer)
    ensures Enabled(env, s, a) && a.Push?
  {
    if SomeAsleep(s.workers) {
      var w :| 0 <= w < |s.workers| && s.workers[w].Asleep?;
      a := Push(w);
    } else {
      a := Push(0);
    }
  }

  /** Whatever has happened, some thread can take a step that is neither a wake-up out of the blue
      nor an error, until the planner has returned. */
  lemma NeverStuck(env: Env, s: State) returns (a: Action)
    requires EnvOk(env) && Inv(env, s) && !s.producer.Done?
    ensures Enabled(env, s, a) && !Spurious(a) && FaultOf(a) == OK
  {
    hide Inv, EnvOk, Enabled;
    if s.producer.PushAsleep? {
      PlannerHasCompany(env, s);
    }
    if w :| 0 <= w < |s.workers| && CanMove(s.workers[w]) {
      a := WorkerMoves(env, s, w);
    } else {
      a := PlannerMoves(env, s);
    }
  }

  // ---------------------------------------------------------------- the measure

  function Left(n: nat, i: nat): nat {
    if i < n then n - i else 0
  }

  function WeightOf(pc: WorkerPc): nat {
    match pc
    case Ready => 1
    case Woken => 1
    case Comparing(_) => 4
    case Failing(_) => 3
    case Stopping => 2
    case Asleep => 0
    case Exited(_) => 0
  }

  function ProducerWeight(env: Env, pc: ProducerPc): nat {
    var b := |env.slotsB| + env.workerCount + 5;
    match pc
    case ScanningA(i) => 10 * Left(|env.slotsA|, i) + b
    case PushReady(i) => 10 * Left(|env.slotsA|, i) + b - 1
    case PushWoken(i) => 10 * Left(|env.slotsA|, i) + b - 2
    case PushAsleep(i) => 10 * Left(|env.slotsA|, i) + b - 3
    case ScanningB(i) => Left(|env.slotsB|, i) + env.workerCount + 4
    case Closing(_) => env.workerCount + 3
    case Joining(_, k) => Left(env.workerCount, k) + 1
    case Done(_) => 0
  }

  /** Slots not yet scanned, queued tasks, tasks in hand, threads awake, and the shutdown to come. */
  function Measure(env: Env, s: State): nat {
    ProducerWeight(env, s.producer) + Sum(s.workers, WeightOf) + 5 * s.queue.count
    + (if s.queue.shutdown then 0 else env.workerCount + 1)
  }

  lemma {:induction false} WeightWakeAll(ws: seq<WorkerPc>)
    ensures Sum(WakeAll(ws), WeightOf) <= Sum(ws, WeightOf) + |ws|
  {
    if ws != [] {
      assert WakeAll(ws)[1..] == WakeAll(ws[1..]);
      WeightWakeAll(ws[1..]);
    }
  }

  lemma WakeAllAwake(ws: seq<WorkerPc>)
    requires !SomeAsleep(ws)
    ensures WakeAll(ws) == ws
  {
  }

  lemma WeightShut(env: Env, s: State)
    requires |s.workers| == env.workerCount && (s.queue.shutdown ==> !SomeAsleep(s.workers) && !s.producer.PushAsleep?)
    ensures Measure(env, Shut(s)) <= Measure(env, s)
  {
    if s.queue.shutdown {
      WakeAllAwake(s.workers);
    } else {
      WeightWakeAll(s.workers);
    }
  }

  lemma ScanDecreases(env: Env, s: State, fault: Errno)
    requires Enabled(env, s, Plan(fault))
    ensures Measure(env, Apply(env, s, Plan(fault))) < Measure(env, s)
  {
    hide SourceCall, Results.Push;
  }

  lemma JoinDecreases(env: Env, s: State)
    requires |s.workers| == env.workerCount && Enabled(env, s, Join)
    ensures Measure(env, Apply(env, s, Join)) < Measure(env, s)
  {
  }

  lemma PushDecreases(env: Env, s: State, signalled: nat)
    requires EnvOk(env) && Inv(env, s) && Enabled(env, s, Push(signalled))
    ensures Measure(env, Apply(env, s, Push(signalled))) < Measure(env, s)
  {
    hide EnvOk, FlowOk, WakeOk, ErrorOk, CodeOk, ReportOk, TasksOk, SourceCalls, TargetCalls;
    if PushOutcome(s.queue).Served? && signalled < |s.workers| {
      SumUpdate(s.workers, WeightOf, signalled, Woken);
    }
  }

  lemma CloseDecreases(env: Env, s: State)
    requires Inv(env, s) && Enabled(env, s, Close)
    ensures Measure(env, Apply(env, s, Close)) < Measure(env, s)
  {
    hide EnvOk, FlowOk, ErrorOk, CodeOk, ReportOk, TasksOk, PlanOk;
    WeightShut(env, s);
  }

  lemma StopDecreases(env: Env, s: State, w: nat)
    requires Inv(env, s) && Enabled(env, s, StopQueue(w))
    ensures Measure(env, Apply(env, s, StopQueue(w))) < Measure(env, s)
  {
    hide EnvOk, FlowOk, ErrorOk, CodeOk, ReportOk, TasksOk, PlanOk;
    var gone := s.(workers := s.workers[w := Exited(true)]);
    SumUpdate(s.workers, WeightOf, w, Exited(true));
    if SomeAsleep(gone.workers) {
      StillAsleep(s.workers, w, Exited(true));
    }
    WeightShut(env, gone);
  }

  lemma PopDecreases(env: Env, s: State, w: nat)
    requires Enabled(env, s, Action.Pop(w))
    ensures Measure(env, Apply(env, s, Action.Pop(w))) < Measure(env, s)
  {
    var s' := Apply(env, s, Action.Pop(w));
    SumUpdate(s.workers, WeightOf, w, s'.workers[w]);
    assert s'.workers == s.workers[w := s'.workers[w]];
  }

  lemma CompareDecreases(env: Env, s: State, w: nat, fault: Errno)
    requires Enabled(env, s, Action.Compare(w, fault))
    ensures Measure(env, Apply(env, s, Action.Compare(w, fault))) < Measure(env, s)
  {
    hide Verdict, CompareEvent, Settle;
    SumUpdate(s.workers, WeightOf, w, if fault != OK then Failing(fault) else Ready);
  }

  lemma SetErrorDecreases(env: Env, s: State, w: nat)
    requires Enabled(env, s, SetError(w))
    ensures Measure(env, Apply(env, s, SetError(w))) < Measure(env, s)
  {
    SumUpdate(s.workers, WeightOf, w, Stopping);
  }

  lemma InvShape(env: Env, s: State)
    requires Inv(env, s)
    ensures |s.workers| == env.workerCount
  {
  }

  /** Every real step makes the measure smaller; a wake-up without a signal adds one. */
  lemma StepMeasure(env: Env, s: State, a: Action)
    requires EnvOk(env) && Inv(env, s) && Enabled(env, s, a)
    ensures if Spurious(a) then Measure(env, Apply(env, s, a)) == Measure(env, s) + 1
            else Measure(env, Apply(env, s, a)) < Measure(env, s)
  {
    hide EnvOk, Inv;
    InvShape(env, s);
    match a
    case Push(signalled) => PushDecreases(env, s, signalled);
    case Close => CloseDecreases(env, s);
    case StopQueue(w) => StopDecreases(env, s, w);
    case WakeWorker(w) => SumUpdate(s.workers, WeightOf, w, Woken);
    case WakeProducer =>
    case Plan(fault) => ScanDecreases(env, s, fault);
    case Join => JoinDecreases(env, s);
    case Pop(w) => PopDecreases(env, s, w);
    case Compare(w, fault) => CompareDecreases(env, s, w, fault);
    case SetError(w) => SetErrorDecreases(env, s, w);
  }

  // ---------------------------------------------------------------- every run ends

  function SpuriousSteps(acts: seq<Action>): nat {
    if acts == [] then 0
    else SpuriousSteps(acts[..|acts| - 1]) + (if Spurious(acts[|acts| - 1]) then 1 else 0)
  }

  /** A bound that depends on the input only. */
  function Bound(env: Env): nat {
    10 * |env.slotsA| + |env.slotsB| + 3 * env.workerCount + 6
  }

  lemma {:induction false} WeightReady(n: nat)
    ensures Sum(seq(n, _ => Ready), WeightOf) == n
  {
    if n > 0 {
      assert seq(n, _ => Ready)[1..] == seq(n - 1, _ => Ready);
      WeightReady(n - 1);
    }
  }

  lemma StartMeasure(env: Env)
    ensures Measure(env, Start(env)) == Bound(env)
  {
    WeightReady(env.workerCount);
    assert seq(env.workerCount, _ => Ready) == Start(env).workers;
  }

  lemma RunPrefix(env: Env, ss: seq<State>, acts: seq<Action>)
    requires IsRun(env, ss, acts) && acts != []
    ensures IsRun(env, ss[..|acts|], acts[..|acts| - 1])
    ensures var s := ss[|acts| - 1]; Enabled(env, s, acts[|acts| - 1]) && Last(ss) == Apply(env, s, acts[|acts| - 1])
  {
  }

  /** However the threads are scheduled and whatever fails, the number of real steps of a run is at
      most the bound plus the number of spurious wake-ups; more precisely the measure of the state
      it ends in is still to spare. */
  lemma {:induction false} RunsAreBounded(env: Env, ss: seq<State>, acts: seq<Action>)
    requires EnvOk(env) && IsRun(env, ss, acts)
    ensures |acts| - SpuriousSteps(acts) + Measure(env, Last(ss)) <= Bound(env) + SpuriousSteps(acts)
    decreases |acts|
  {
    hide Measure, Bound, Apply, Enabled, EnvOk;
    if acts == [] {
      StartMeasure(env);
    } else {
      RunPrefix(env, ss, acts);
      RunsAreBounded(env, ss[..|acts|], acts[..|acts| - 1]);
      RunInv(env, ss, acts, |acts| - 1);
      StepMeasure(env, ss[|acts| - 1], acts[|acts| - 1]);
    }
  }

  lemma RunExtend(env: Env, ss: seq<State>, acts: seq<Action>, a: Action)
    requires IsRun(env, ss, acts) && Enabled(env, Last(ss), a)
    ensures IsRun(env, ss + [Apply(env, Last(ss), a)], acts + [a])
  {
  }

  /** A run that can only go on by spurious wake-ups has ended: `plan_and_compare` has returned. */
  lemma MaximalRunsEnd(env: Env, ss: seq<State>, acts: seq<Action>)
    requires EnvOk(env) && IsRun(env, ss, acts)
    requires forall a :: Enabled(env, Last(ss), a) ==> Spurious(a)
    ensures Last(ss).producer.Done? && forall w :: 0 <= w < |Last(ss).workers| ==> Last(ss).workers[w].Exited?
  {
    RunInv(env, ss, acts, |acts|);
    if !Last(ss).producer.Done? {
      var a := NeverStuck(env, Last(ss));
      assert false;
    }
  }

  /** From every reachable state the run can be completed without another error. */
  lemma {:induction false} CanFinish(env: Env, ss: seq<State>, acts: seq<Action>)
    returns (ss': seq<State>, acts': seq<Action>)
    requires EnvOk(env) && IsRun(env, ss, acts)
    ensures IsRun(env, ss', acts') && ss <= ss' && acts <= acts' && Last(ss').producer.Done?
    ensures forall k :: |acts| <= k < |acts'| ==> !Spurious(acts'[k]) && FaultOf(acts'[k]) == OK
    decreases Measure(env, Last(ss))
  {
    hide Measure, Apply, Enabled, EnvOk, IsRun, Inv, FaultOf;
    ss', acts' := ss, acts;
    if !Last(ss).producer.Done? {
      RunInv(env, ss, acts, |acts|);
      var a := NeverStuck(env, Last(ss));
      StepMeasure(env, Last(ss), a);
      RunExtend(env, ss, acts, a);
      ss', acts' := CanFinish(env, ss + [Apply(env, Last(ss), a)], acts + [a]);
      assert acts'[|acts|] == a;
    }
  }
}
