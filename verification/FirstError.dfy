/** Is the code `plan_and_compare` returns the first error? Not always: the code that stops the planner
    wins over it (src/planner.c:90-95). This is on which inputs it always is. */
module FirstError {
  import opened Common
  import opened Words
  import opened Arena
  import opened Slots
  import opened FileIndex
  import opened Compare
  import opened Planner
  import opened TaskQueue
  import opened Protocol
  import opened Safety
  import opened Liveness
  import opened Runs
  import opened Verdiff
  import R = Reporting

  const EIO: Errno := 5

  /** Every finished run on this input returns the first error recorded, or 0 if there is none. */
  ghost predicate ReturnsFirstError(env: Env) {
    forall ss, acts :: IsRun(env, ss, acts) && Last(ss).producer.Done? ==> Last(ss).producer.rc == Last(ss).firstError
  }

  /** The planner has nothing to record itself. */
  ghost predicate OnlyCandidates(env: Env) {
    forall c :: c in Universe(env) ==> c.Candidate?
  }

  // ---------------------------------------------------------------- inputs on which it is

  /** With nothing to record, errors come from tasks only, and only a refused push stops the planner. */
  ghost predicate TaskErrors(env: Env, s: State) {
    && (s.faults != [] ==> s.lost != multiset{})
    && (PlannerCode(s.producer) != OK && s.planned != Universe(env) ==> PlannerCode(s.producer) == ECANCELED)
  }

  lemma TaskErrorsStep(env: Env, s: State, a: Action)
    requires OnlyCandidates(env) && Inv(env, s) && TaskErrors(env, s) && Enabled(env, s, a)
    ensures TaskErrors(env, Apply(env, s, a))
  {
    hide ShapeOk, WakeOk, ExitOk, ErrorOk, CodeOk, FlowOk, TasksOk, ReportOk, Universe, SourceCalls, TargetCalls;
    if a.Plan? && NextCall(env, s.producer) != [] {
      OneCall(env, s.producer);
      NextCallPlanned(env, s);
    } else if a.Push? {
      CallIsDue(env, s, Candidate(env.slotsA[s.producer.i].key));
    }
  }

  /** The call that is due is one of the planner's calls. */
  lemma NextCallPlanned(env: Env, s: State)
    requires PlanOk(env, s) && |NextCall(env, s.producer)| == 1
    ensures NextCall(env, s.producer)[0] in Universe(env)
  {
    var call := NextCall(env, s.producer)[0];
    CallIsDue(env, s, call);
    assert (s.planned + [call])[|s.planned|] == call;
  }

  lemma {:induction false} TaskErrorsRun(env: Env, ss: seq<State>, acts: seq<Action>, k: nat)
    requires EnvOk(env) && OnlyCandidates(env) && IsRun(env, ss, acts) && k < |ss|
    ensures TaskErrors(env, ss[k])
  {
    hide TaskErrors, Inv, EnvOk, OnlyCandidates;
    if k == 0 {
      TaskErrorsStart(env);
    } else {
      TaskErrorsRun(env, ss, acts, k - 1);
      RunInv(env, ss, acts, k - 1);
      TaskErrorsStep(env, ss[k - 1], acts[k - 1]);
    }
  }

  lemma TaskErrorsStart(env: Env)
    ensures TaskErrors(env, Start(env))
  {
  }

  lemma NothingPlanned(env: Env, s: State)
    requires FlowOk(s) && s.planned == []
    ensures s.lost == multiset{}
  {
    assert CandidatesOf(s.planned) == [] && s.popped == [];
    assert s.lost <= multiset(s.popped);
  }

  /** One common file and nothing else: whatever goes wrong, its error is returned. */
  lemma SingleTaskReturnsFirstError(env: Env, ss: seq<State>, acts: seq<Action>)
    requires EnvOk(env) && OnlyCandidates(env) && |Universe(env)| <= 1
    requires IsRun(env, ss, acts) && Last(ss).producer.Done?
    ensures Last(ss).producer.rc == Last(ss).firstError
  {
    hide EnvOk, OnlyCandidates, Universe, IsRun, FlowOk, WakeOk, ExitOk, TasksOk, ReportOk;
    var s := Last(ss);
    if s.planned == Universe(env) {
      FinishedLoopsReturnFirstError(env, ss, acts);
    } else {
      RunInv(env, ss, acts, |acts|);
      TaskErrorsRun(env, ss, acts, |acts|);
      PlannedPrefix(env, s);
      assert s.planned == [];
      NothingPlanned(env, s);
      assert s.faults == [];
    }
  }

  // ---------------------------------------------------------------- a record that cannot be pushed

  /** No worker has met an error. */
  ghost predicate Quiet(s: State) {
    s.firstError == OK && !SomeFailing(s.workers)
  }

  lemma QuietStep(env: Env, s: State, a: Action)
    requires Quiet(s) && Enabled(env, s, a) && (FaultOf(a) == OK || a.Plan?)
    ensures Quiet(Apply(env, s, a))
  {
  }

  lemma {:induction false} QuietRun(env: Env, ss: seq<State>, acts: seq<Action>, j: nat, k: nat)
    requires IsRun(env, ss, acts) && j <= k < |ss| && Quiet(ss[j])
    requires forall i :: j <= i < k ==> FaultOf(acts[i]) == OK || acts[i].Plan?
    ensures Quiet(ss[k])
    decreases k
  {
    if j < k {
      QuietRun(env, ss, acts, j, k - 1);
      QuietStep(env, ss[k - 1], acts[k - 1]);
    }
  }

  /** The code that stopped the planner stays with it to the end. */
  lemma {:induction false} PlannerCodeStays(env: Env, ss: seq<State>, acts: seq<Action>, j: nat, k: nat)
    requires IsRun(env, ss, acts) && j <= k < |ss| && PlannerCode(ss[j].producer) != OK
    ensures PlannerCode(ss[k].producer) == PlannerCode(ss[j].producer)
    decreases k
  {
    hide Apply, Enabled, PlannerCode;
    if j < k {
      PlannerCodeStays(env, ss, acts, j, k - 1);
      PlannerCodeStep(env, ss[k - 1], acts[k - 1]);
    }
  }

  lemma PlannerCodeStep(env: Env, s: State, a: Action)
    requires Enabled(env, s, a) && PlannerCode(s.producer) != OK
    ensures PlannerCode(Apply(env, s, a).producer) == PlannerCode(s.producer)
  {
  }

  lemma RecordIsPlanned(env: Env, s: State, a: Action, c: Call)
    requires Enabled(env, s, a) && c.Present? && c !in s.planned && c in Apply(env, s, a).planned
    ensures a.Plan? && NextCall(env, s.producer) != [] && NextCall(env, s.producer)[0].Present?
  {
  }

  /** A record that has been pushed was due at some step. */
  lemma {:induction false} RecordWasDue(env: Env, ss: seq<State>, acts: seq<Action>, c: Call, k: nat) returns (j: nat)
    requires IsRun(env, ss, acts) && k < |ss| && c.Present? && c in ss[k].planned
    ensures j < k && acts[j].Plan?
    ensures NextCall(env, ss[j].producer) != [] && NextCall(env, ss[j].producer)[0].Present?
    decreases k
  {
    hide Apply, Enabled, NextCall;
    if k == 0 {
      assert false;
    } else if c in ss[k - 1].planned {
      j := RecordWasDue(env, ss, acts, c, k - 1);
    } else {
      RecordIsPlanned(env, ss[k - 1], acts[k - 1], c);
      j := k - 1;
    }
  }

  lemma RunTake(env: Env, ss: seq<State>, acts: seq<Action>, k: nat)
    requires IsRun(env, ss, acts) && k <= |acts|
    ensures IsRun(env, ss[..k + 1], acts[..k]) && Last(ss[..k + 1]) == ss[k]
  {
  }

  /** The first error is not returned if a record of the planner cannot be pushed: then there is a code
      but no first error. */
  lemma RecordFailureReturned(env: Env, c: Call) returns (ss: seq<State>, acts: seq<Action>)
    requires EnvOk(env) && c in Universe(env) && c.Present?
    ensures IsRun(env, ss, acts) && Last(ss).producer == Done(ENOMEM) && Last(ss).firstError == OK
  {
    hide EnvOk, IsRun, Universe, Inv, Apply, Enabled, Start, NextCall;
    RunStart(env);
    ss, acts := CanFinish(env, [Start(env)], []);
    CleanRunPlansAll(env, ss, acts);
    var k := RecordWasDue(env, ss, acts, c, |acts|);
    QuietStart(env, ss, acts);
    QuietRun(env, ss, acts, 0, k);
    RunTake(env, ss, acts, k);
    ss, acts := ss[..k + 1], acts[..k];
    RunInv(env, ss, acts, k);
    StopAtRecord(env, ss[k]);
    ss, acts := Go(env, ss, acts, Plan(ENOMEM));
    var n, tt, bcts := |acts|, ss, acts;
    ss, acts := CanFinish(env, tt, bcts);
    assert ss[n] == Last(tt);
    QuietRun(env, ss, acts, n, |acts|);
    PlannerCodeStays(env, ss, acts, n, |acts|);
  }

  lemma QuietStart(env: Env, ss: seq<State>, acts: seq<Action>)
    requires IsRun(env, ss, acts)
    ensures Quiet(ss[0])
  {
  }

  lemma StopAtRecord(env: Env, s: State)
    requires Quiet(s) && NextCall(env, s.producer) != [] && NextCall(env, s.producer)[0].Present?
    ensures Enabled(env, s, Plan(ENOMEM))
    ensures Quiet(Apply(env, s, Plan(ENOMEM))) && Apply(env, s, Plan(ENOMEM)).producer == Closing(ENOMEM)
  {
  }

  /** A finished run without errors has made all the planner's calls. */
  lemma CleanRunPlansAll(env: Env, ss: seq<State>, acts: seq<Action>)
    requires EnvOk(env) && IsRun(env, ss, acts) && Last(ss).producer.Done?
    requires forall k :: 0 <= k < |acts| ==> FaultOf(acts[k]) == OK
    ensures Last(ss).planned == Universe(env)
  {
    hide EnvOk, IsRun, FaultOf;
    NoFaultCodes(acts);
    ReturnCodeSound(env, ss, acts);
    RunInv(env, ss, acts, |acts|);
    SuccessIsComplete(env, Last(ss));
  }

  // ---------------------------------------------------------------- a worker that stops the planner

  lemma {:induction false} TargetCallsPresent(slots: seq<IndexSlot>, source: map<Path, nat>, n: nat)
    requires n <= |slots|
    ensures forall c :: c in TargetCalls(slots, source, n) ==> c.Present?
  {
    if n > 0 {
      TargetCallsPresent(slots, source, n - 1);
    }
  }

  lemma TargetCallRecords(env: Env)
    requires TargetCalls(env.slotsB, env.sizesA, |env.slotsB|) != []
    ensures !OnlyCandidates(env)
  {
    var src := SourceCalls(env.slotsA, env.sizesB, |env.slotsA|);
    var tgt := TargetCalls(env.slotsB, env.sizesA, |env.slotsB|);
    TargetCallsPresent(env.slotsB, env.sizesA, |env.slotsB|);
    assert tgt[0] in tgt && tgt[0] in src + tgt;
    assert tgt[0] in Universe(env) && tgt[0].Present?;
  }

  /** With nothing to record, all calls come from the source index. */
  lemma CallsFromSource(env: Env)
    requires OnlyCandidates(env)
    ensures Universe(env) == SourceCalls(env.slotsA, env.sizesB, |env.slotsA|)
  {
    var src := SourceCalls(env.slotsA, env.sizesB, |env.slotsA|);
    var tgt := TargetCalls(env.slotsB, env.sizesA, |env.slotsB|);
    if tgt != [] {
      TargetCallRecords(env);
    }
    assert src + [] == src;
  }

  /** The slot of the first task. */
  lemma {:induction false} FirstTask(env: Env, n: nat) returns (i: nat)
    requires OnlyCandidates(env) && n <= |env.slotsA| && SourceCalls(env.slotsA, env.sizesB, n) != []
    ensures AtCandidate(env, i) && SourceCalls(env.slotsA, env.sizesB, i) == []
  {
    var before := SourceCalls(env.slotsA, env.sizesB, n - 1);
    if before != [] {
      i := FirstTask(env, n - 1);
    } else {
      i := n - 1;
      var call := SourceCall(env.slotsA[i], env.sizesB);
      SourcePrefix(env, SourceCalls(env.slotsA, env.sizesB, n), n);
      assert call[0] == SourceCalls(env.slotsA, env.sizesB, n)[0] == Universe(env)[0];
      assert Universe(env)[0] in Universe(env);
    }
  }

  /** The planner passes slots that call for nothing. */
  lemma {:induction false} ScanTo(env: Env, i: nat) returns (ss: seq<State>, acts: seq<Action>)
    requires i <= |env.slotsA| && SourceCalls(env.slotsA, env.sizesB, i) == []
    ensures IsRun(env, ss, acts) && Last(ss) == Start(env).(producer := ScanningA(i))
  {
    hide IsRun;
    if i == 0 {
      RunStart(env);
      ss, acts := [Start(env)], [];
    } else {
      ss, acts := ScanTo(env, i - 1);
      ss, acts := Go(env, ss, acts, Plan(OK));
    }
  }

  /** The planner has pushed the first task; nobody else has moved. */
  lemma FirstPush(env: Env, i: nat) returns (ss: seq<State>, acts: seq<Action>)
    requires EnvOk(env) && AtCandidate(env, i) && SourceCalls(env.slotsA, env.sizesB, i) == []
    ensures IsRun(env, ss, acts)
    ensures var s := Last(ss);
            && s.producer == ScanningA(i + 1) && s.planned == [Candidate(env.slotsA[i].key)] && s.firstError == OK
            && RingOk(s.queue) && s.queue.count == 1 && !s.queue.shutdown
            && |s.workers| > 0 && s.workers[0] == Ready
  {
    hide IsRun, SourceCalls, UniqueKeys, Represents;
    ss, acts := ScanTo(env, i);
    ss, acts := Go(env, ss, acts, Plan(OK));
    EnqueueAppends(Last(ss).queue, env.slotsA[i].key);
    ss, acts := Go(env, ss, acts, Push(0));
  }

  /** Worker 0 takes the task, fails on it and shuts the queue down. */
  lemma WorkerFailsFirst(env: Env, i: nat) returns (ss: seq<State>, acts: seq<Action>)
    requires EnvOk(env) && AtCandidate(env, i) && SourceCalls(env.slotsA, env.sizesB, i) == []
    ensures IsRun(env, ss, acts)
    ensures var s := Last(ss);
            s.planned == [Candidate(env.slotsA[i].key)] && s.firstError == EIO && s.queue.shutdown
  {
    hide IsRun, EnvOk, SourceCalls, AtCandidate, Contents;
    ss, acts := FirstPush(env, i);
    ss, acts := Go(env, ss, acts, Action.Pop(0));
    TaskIsCommon(env, ss, acts, 0);
    ss, acts := Go(env, ss, acts, Action.Compare(0, EIO));
    ss, acts := Go(env, ss, acts, SetError(0));
    ss, acts := Go(env, ss, acts, StopQueue(0));
  }

  lemma TaskIsCommon(env: Env, ss: seq<State>, acts: seq<Action>, w: nat)
    requires EnvOk(env) && IsRun(env, ss, acts) && w < |Last(ss).workers| && Last(ss).workers[w].Comparing?
    ensures Last(ss).workers[w].task in env.sizesA && Last(ss).workers[w].task in env.sizesB
  {
    RunInv(env, ss, acts, |acts|);
  }

  /** After shutdown the planner, with nothing to record, completes no call. */
  lemma ShutStep(env: Env, s: State, a: Action)
    requires OnlyCandidates(env) && PlanOk(env, s) && Enabled(env, s, a) && s.queue.shutdown
    ensures Apply(env, s, a).queue.shutdown && Apply(env, s, a).planned == s.planned
  {
    hide PlanOk, Universe;
    if a.Plan? && NextCall(env, s.producer) != [] {
      OneCall(env, s.producer);
      NextCallPlanned(env, s);
    }
  }

  lemma InvPlans(env: Env, s: State)
    requires Inv(env, s)
    ensures PlanOk(env, s)
  {
  }

  lemma {:induction false} ShutRun(env: Env, ss: seq<State>, acts: seq<Action>, j: nat, k: nat)
    requires EnvOk(env) && OnlyCandidates(env) && IsRun(env, ss, acts) && j <= k < |ss| && ss[j].queue.shutdown
    ensures ss[k].queue.shutdown && ss[k].planned == ss[j].planned
    decreases k
  {
    hide EnvOk, OnlyCandidates, Apply, Enabled, Inv, PlanOk;
    if j < k {
      ShutRun(env, ss, acts, j, k - 1);
      RunInv(env, ss, acts, k - 1);
      InvPlans(env, ss[k - 1]);
      ShutStep(env, ss[k - 1], acts[k - 1]);
    }
  }

  /** With two tasks or more: the first fails while another is still to be pushed, the push is refused,
      and ECANCELED is returned though the first error is EIO. */
  lemma CancelledReturned(env: Env) returns (ss: seq<State>, acts: seq<Action>)
    requires EnvOk(env) && OnlyCandidates(env) && |Universe(env)| >= 2
    ensures IsRun(env, ss, acts) && Last(ss).producer == Done(ECANCELED) && Last(ss).firstError == EIO
  {
    hide EnvOk, OnlyCandidates, Universe, IsRun, Inv, AtCandidate;
    CallsFromSource(env);
    var i := FirstTask(env, |env.slotsA|);
    var tt, bcts := WorkerFailsFirst(env, i);
    var n := |bcts|;
    ss, acts := CanFinish(env, tt, bcts);
    assert ss[n] == Last(tt);
    ShutRun(env, ss, acts, n, |acts|);
    FirstErrorStays(env, ss, acts, n, |acts|);
    TaskErrorsRun(env, ss, acts, |acts|);
    RunInv(env, ss, acts, |acts|);
    UnfinishedIsNotZero(env, Last(ss));
  }

  lemma UnfinishedIsNotZero(env: Env, s: State)
    requires Inv(env, s) && s.producer.Done? && s.planned != Universe(env)
    ensures s.producer.rc != OK
  {
  }

  // ---------------------------------------------------------------- exactly which inputs

  /** The code returned is always the first error exactly on inputs where the planner has at most one
      call to make and that is a task. On every other input some run returns another code: one whose
      record cannot be pushed, or one whose first task fails while another is still to be pushed. */
  lemma FirstErrorReturnedIff(env: Env)
    requires EnvOk(env)
    ensures ReturnsFirstError(env) <==> |Universe(env)| <= 1 && forall c :: c in Universe(env) ==> c.Candidate?
  {
    hide EnvOk, IsRun, Universe;
    if OnlyCandidates(env) {
      if |Universe(env)| <= 1 {
        forall ss, acts | IsRun(env, ss, acts) && Last(ss).producer.Done?
          ensures Last(ss).producer.rc == Last(ss).firstError
        {
          SingleTaskReturnsFirstError(env, ss, acts);
        }
      } else {
        var ss, acts := CancelledReturned(env);
        assert !ReturnsFirstError(env);
      }
    } else {
      var c :| c in Universe(env) && !c.Candidate?;
      var ss, acts := RecordFailureReturned(env, c);
      assert !ReturnsFirstError(env);
    }
  }

  lemma {:induction false} SourceCallsRight(env: Env, n: nat)
    requires EnvOk(env) && n <= |env.slotsA|
    ensures forall c :: c in SourceCalls(env.slotsA, env.sizesB, n) ==> Right(env, c)
  {
    if n > 0 {
      SourceCallsRight(env, n - 1);
      SourceCallRight(env, n - 1);
    }
  }

  lemma {:induction false} TargetCallsRight(env: Env, n: nat)
    requires EnvOk(env) && n <= |env.slotsB|
    ensures forall c :: c in TargetCalls(env.slotsB, env.sizesA, n) ==> Right(env, c)
  {
    if n > 0 {
      TargetCallsRight(env, n - 1);
      TargetCallRight(env, n - 1);
    }
  }

  lemma CallIsRight(env: Env, c: Call)
    requires EnvOk(env) && c in Universe(env)
    ensures Right(env, c)
  {
    SourceCallsRight(env, |env.slotsA|);
    TargetCallsRight(env, |env.slotsB|);
  }

  lemma PathsListed(calls: seq<Call>, p: Path)
    ensures p in PathsOf(calls) <==> HasPath(calls, p)
  {
    var ps := PathsOf(calls);
    PathsOfCalls(calls);
    if p in ps {
      var i :| 0 <= i < |ps| && ps[i] == p;
      assert calls[i] in calls;
    }
    if HasPath(calls, p) {
      var c :| c in calls && c.Path() == p;
      var i :| 0 <= i < |calls| && calls[i] == c;
      assert ps[i] == p;
    }
  }

  /** One call for every path. */
  lemma CallsPerPath(env: Env)
    requires EnvOk(env)
    ensures |Universe(env)| == |AllPaths(env)|
    ensures forall p :: p in AllPaths(env) <==> HasPath(Universe(env), p)
  {
    hide EnvOk, Universe, AllPaths, PathsOf, HasPath;
    var ps := PathsOf(Universe(env));
    UniversePaths(env);
    PathsOfCalls(Universe(env));
    R.ElementsCount(ps);
    assert R.Elements(ps) == AllPaths(env);
    forall p ensures p in ps <==> HasPath(Universe(env), p) {
      PathsListed(Universe(env), p);
    }
  }

  lemma CandidateIff(env: Env, c: Call)
    requires Right(env, c)
    ensures c.Candidate? <==> IsCommon(env, c.Path())
  {
  }

  lemma AllCommonIff(env: Env)
    ensures (forall p :: p in AllPaths(env) ==> IsCommon(env, p)) <==> env.sizesA == env.sizesB
  {
    if forall p :: p in AllPaths(env) ==> IsCommon(env, p) {
      forall p ensures p in env.sizesA || p in env.sizesB ==> IsCommon(env, p) {
        assert p in AllPaths(env) <==> p in env.sizesA || p in env.sizesB;
      }
    }
  }

  /** The planner has nothing to record exactly if the two indexes agree on paths and sizes. */
  lemma OnlyCandidatesIff(env: Env)
    requires EnvOk(env)
    ensures OnlyCandidates(env) <==> env.sizesA == env.sizesB
  {
    hide EnvOk, Universe, AllPaths, Right, IsCommon;
    CallsPerPath(env);
    AllCommonIff(env);
    forall c | c in Universe(env) ensures c.Candidate? <==> IsCommon(env, c.Path()) {
      CallIsRight(env, c);
      CandidateIff(env, c);
    }
    forall c | c in Universe(env) ensures c.Path() in AllPaths(env) {
      assert HasPath(Universe(env), c.Path());
    }
    forall p | p in AllPaths(env) ensures OnlyCandidates(env) ==> IsCommon(env, p) {
      var c :| c in Universe(env) && c.Path() == p;
    }
  }

  /** The same in terms of the two indexes: they agree on paths and sizes and hold at most one file. */
  lemma FirstErrorReturnedIffOneFile(env: Env)
    requires EnvOk(env)
    ensures ReturnsFirstError(env) <==> env.sizesA == env.sizesB && |env.sizesA| <= 1
  {
    hide EnvOk, IsRun, Universe, ReturnsFirstError;
    FirstErrorReturnedIff(env);
    OnlyCandidatesIff(env);
    CallsPerPath(env);
    if env.sizesA == env.sizesB {
      assert AllPaths(env) == env.sizesA.Keys;
    }
  }

  // ---------------------------------------------------------------- an input of the program

  const A_PATH: Path := [97]
  const B_PATH: Path := [98]

  /** Two empty files in a table of 1024 slots, as `main` makes it. */
  function ClashSlots(): seq<IndexSlot> {
    [Occupied(A_PATH, Ref(0, 0), 0, 0), Occupied(B_PATH, Ref(0, 2), 0, 1)] + seq(1022, _ => Vacant)
  }

  function ClashSizes(): map<Path, nat> {
    map[A_PATH := 0, B_PATH := 0]
  }

  /** Both trees hold the same two empty files; one worker, and a queue of 4096. */
  function ClashEnv(): Env {
    Env(Config([], [], false, true, 0x10_0000, true), ClashSlots(), ClashSizes(), ClashSlots(), ClashSizes(),
        _ => [], _ => [], _ => 0, _ => true, _ => Sight(true, true, _ => 0x10_0000, _ => 0x10_0000),
        seq(4096, _ => []), 1)
  }

  function ClashHash(p: Path): nat {
    if p == B_PATH then 1 else 0
  }

  lemma ClashSlotAt(i: nat)
    requires i < 1024
    ensures |ClashSlots()| == 1024
    ensures ClashSlots()[i] == if i == 0 then Occupied(A_PATH, Ref(0, 0), 0, 0)
                               else if i == 1 then Occupied(B_PATH, Ref(0, 2), 0, 1) else Vacant
  {
  }

  lemma ClashLoad()
    ensures Load(ClashSlots()) == 2 && IsPow2(1024)
  {
    var two: seq<IndexSlot>, rest: seq<IndexSlot> := ClashSlots()[..2], seq(1022, _ => Vacant);
    assert ClashSlots() == two + rest;
    AllVacant(rest);
    LoadConcat(two, rest);
    Times16(1);
    Times16(4);
    Times16(64);
  }

  lemma ClashSound()
    ensures Sound(ClashSlots(), ClashHash, ClashSizes())
    ensures KeysKept(ClashSlots(), [Stored(Ref(0, 0), A_PATH), Stored(Ref(0, 2), B_PATH)])
  {
    var slots := ClashSlots();
    forall i: nat | i < 1024 ensures |slots| == 1024 && (slots[i].Occupied? ==> i < 2) {
      ClashSlotAt(i);
    }
    ClashSlotAt(0);
    ClashSlotAt(1);
    assert A_PATH != B_PATH by { assert A_PATH[0] != B_PATH[0]; }
    assert slots[0] in slots && slots[1] in slots;
    forall s | s in slots && s.Occupied? ensures s == slots[0] || s == slots[1] {
      var i :| 0 <= i < |slots| && slots[i] == s;
    }
  }

  /** It is a table the index can be in, and the input as a whole is sound. */
  lemma ClashTableOk()
    ensures TableOk(ClashSlots(), ClashHash, ClashSizes(), [Stored(Ref(0, 0), A_PATH), Stored(Ref(0, 2), B_PATH)])
    ensures EnvOk(ClashEnv())
  {
    hide Sound, KeysKept, ClashSlots;
    ClashLoad();
    ClashSound();
    ClashSlotAt(0);
    SoundParts(ClashSlots(), ClashSizes());
  }

  lemma SoundParts(slots: seq<IndexSlot>, m: map<Path, nat>)
    requires Sound(slots, ClashHash, m)
    ensures UniqueKeys(slots) && Represents(slots, m)
  {
  }

  lemma ClashPaths()
    ensures |AllPaths(ClashEnv())| == 2 && ClashEnv().sizesA == ClashEnv().sizesB
  {
    assert A_PATH != B_PATH by { assert A_PATH[0] != B_PATH[0]; }
    assert AllPaths(ClashEnv()) == {A_PATH, B_PATH};
  }

  /** On that input the worker can fail on the first file while the planner has the second still to
      push: ECANCELED is returned though the first error is EIO. */
  lemma ReturnedCodeNeedNotBeFirstError() returns (ss: seq<State>, acts: seq<Action>)
    ensures EnvOk(ClashEnv()) && IsRun(ClashEnv(), ss, acts)
    ensures Last(ss).producer == Done(ECANCELED) && Last(ss).firstError == EIO
  {
    hide IsRun, Universe, EnvOk, AllPaths, OnlyCandidates, ClashEnv;
    var env := ClashEnv();
    ClashTableOk();
    ClashPaths();
    OnlyCandidatesIff(env);
    CallsPerPath(env);
    ss, acts := CancelledReturned(env);
  }
}
