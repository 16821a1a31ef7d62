/** The planner, the workers and what they share (src/planner.c:34-100, src/thread_pool.c:49-185) as
    a transition system. Every critical section is one step. `pthread_cond_wait` is two: giving up
    the lock to sleep, and waking with it. A signal wakes one waiter if there is one, chosen by the
    action; a waiter can also wake without a signal. */
module Protocol {
  import opened Common
  import opened Slots
  import opened Results
  import opened Compare
  import opened Planner
  import opened TaskQueue

  /** What a run is given: the two indexes, the contents on disk, and the empty ring. `sight` says how
      the reads of a path's two files split them and whether they can be looked at for text; a path is
      compared at most once in a run, so there is one answer for each. */
  datatype Env = Env(
    config: Config,
    slotsA: seq<IndexSlot>, sizesA: map<Path, nat>,
    slotsB: seq<IndexSlot>, sizesB: map<Path, nat>,
    contentA: Path -> Bytes, contentB: Path -> Bytes,
    hash: Bytes -> nat, isText: Bytes -> bool, sight: Path -> Sight,
    ring: seq<Path>, workerCount: nat)

  ghost predicate EnvOk(env: Env) {
    && UniqueKeys(env.slotsA) && Represents(env.slotsA, env.sizesA)
    && UniqueKeys(env.slotsB) && Represents(env.slotsB, env.sizesB)
    && |env.ring| > 0 && env.workerCount > 0
  }

  /** Where the planner is: in one of its loops, in `task_queue_push` for a slot (about to take the
      lock, waiting, or woken), shutting the queue down, joining worker k, or finished. */
  datatype ProducerPc =
    | ScanningA(i: nat) | PushReady(i: nat) | PushAsleep(i: nat) | PushWoken(i: nat) | ScanningB(i: nat)
    | Closing(rc: Errno) | Joining(rc: Errno, k: nat) | Done(rc: Errno)

  /** Where a worker is: about to take the queue's lock, waiting, woken, comparing, about to report
      an error, about to shut the queue down because of it, or gone. */
  datatype WorkerPc =
    | Ready | Asleep | Woken | Comparing(task: Path) | Failing(code: Errno) | Stopping | Exited(failed: bool)

  /** The last six fields only record what has happened: the calls the planner has completed, the
      tasks taken from the queue, those compared and those whose comparison failed, the paths settled
      by either side in the order of the result set, and the errors met. */
  datatype State = State(
    producer: ProducerPc,
    workers: seq<WorkerPc>,
    queue: Queue,
    firstError: Errno,
    report: Report,
    planned: seq<Call>,
    popped: seq<Path>,
    compared: seq<Path>,
    lost: multiset<Path>,
    settled: seq<Path>,
    faults: seq<Errno>)

  /** `Plan`, `Push`, `Close`, `Join`: the planner's next step. The others are steps of worker w.
      `fault` is the error the step meets, or 0; `signalled` is the waiting worker a push wakes. */
  datatype Action =
    | Plan(fault: Errno) | Push(signalled: nat) | Close | Join
    | Pop(w: nat) | Compare(w: nat, fault: Errno) | SetError(w: nat) | StopQueue(w: nat)
    | WakeWorker(w: nat) | WakeProducer

  /** A wake-up without a signal. */
  predicate Spurious(a: Action) {
    a.WakeWorker? || a.WakeProducer?
  }

  function Start(env: Env): State {
    State(ScanningA(0), seq(env.workerCount, _ => Ready), EmptyQueue(env.ring), OK, EMPTY, [], [], [], multiset{}, [],
          [])
  }

  // ---------------------------------------------------------------- verdicts

  /** What a comparison of a common path reports. */
  function CompareEvent(env: Env, p: Path): Event
    requires p in env.sizesA && p in env.sizesB
  {
    var a, b := env.contentA(p), env.contentB(p);
    Verdict(env.config, env.hash, env.isText, p, env.sizesA[p], env.sizesB[p], a, b, env.sight(p))
  }

  /** What settles a path, whichever thread settles it. */
  function EventOf(env: Env, p: Path): Event {
    if p in env.sizesA then
      if p in env.sizesB then CompareEvent(env, p)
      else Recorded(SimpleRecord(p, Removed, OnlyInSource, env.sizesA[p], 0))
    else if p in env.sizesB then Recorded(SimpleRecord(p, Added, OnlyInTarget, 0, env.sizesB[p]))
    else Noted(Unchanged)
  }

  /** The call the planner has reached, if the slot calls for one. */
  function NextCall(env: Env, pc: ProducerPc): seq<Call> {
    match pc
    case ScanningA(i) => if i < |env.slotsA| then SourceCall(env.slotsA[i], env.sizesB) else []
    case ScanningB(i) => if i < |env.slotsB| then TargetCall(env.slotsB[i], env.sizesA) else []
    case _ => []
  }

  // ---------------------------------------------------------------- waiting and waking

  predicate SomeAsleep(ws: seq<WorkerPc>) {
    exists i :: 0 <= i < |ws| && ws[i].Asleep?
  }

  /** `pthread_cond_signal(&not_empty)`. */
  function SignalWorker(ws: seq<WorkerPc>, w: nat): seq<WorkerPc> {
    if w < |ws| && ws[w].Asleep? then ws[w := Woken] else ws
  }

  function WakeUp(pc: WorkerPc): WorkerPc {
    if pc.Asleep? then Woken else pc
  }

  /** `pthread_cond_broadcast(&not_empty)`. */
  function WakeAll(ws: seq<WorkerPc>): seq<WorkerPc> {
    seq(|ws|, i requires 0 <= i < |ws| => WakeUp(ws[i]))
  }

  /** `pthread_cond_signal(&not_full)`: the planner is the only one to wait there. */
  function SignalProducer(pc: ProducerPc): ProducerPc {
    if pc.PushAsleep? then PushWoken(pc.i) else pc
  }

  /** `task_queue_shutdown`. */
  function Shut(s: State): State {
    s.(queue := s.queue.(shutdown := true), workers := WakeAll(s.workers), producer := SignalProducer(s.producer))
  }

  // ---------------------------------------------------------------- steps

  predicate AtPush(pc: ProducerPc) {
    pc.PushReady? || pc.PushWoken?
  }

  predicate AtPop(pc: WorkerPc) {
    pc.Ready? || pc.Woken?
  }

  ghost predicate Enabled(env: Env, s: State, a: Action) {
    match a
    case Plan(fault) =>
      && (s.producer.ScanningA? || s.producer.ScanningB?)
      && (fault != OK ==> NextCall(env, s.producer) != [] && NextCall(env, s.producer)[0].Present?)
    case Push(signalled) =>
      && AtPush(s.producer) && RingOk(s.queue) && s.producer.i < |env.slotsA| && env.slotsA[s.producer.i].Occupied?
      && (SomeAsleep(s.workers) ==> signalled < |s.workers| && s.workers[signalled].Asleep?)
    case Close => s.producer.Closing?
    case Join => s.producer.Joining? && (s.producer.k < |s.workers| ==> s.workers[s.producer.k].Exited?)
    case Pop(w) => w < |s.workers| && AtPop(s.workers[w]) && RingOk(s.queue)
    case Compare(w, fault) =>
      && w < |s.workers| && s.workers[w].Comparing?
      && s.workers[w].task in env.sizesA && s.workers[w].task in env.sizesB
    case SetError(w) => w < |s.workers| && s.workers[w].Failing?
    case StopQueue(w) => w < |s.workers| && s.workers[w].Stopping?
    case WakeWorker(w) => w < |s.workers| && s.workers[w].Asleep?
    case WakeProducer => s.producer.PushAsleep?
  }

  /** The next slot, or the next loop, or the end of the loops. */
  function Advance(env: Env, pc: ProducerPc): ProducerPc
    requires pc.ScanningA? || pc.ScanningB?
  {
    if pc.ScanningA? then
      if pc.i < |env.slotsA| then ScanningA(pc.i + 1) else ScanningB(0)
    else
      if pc.i < |env.slotsB| then ScanningB(pc.i + 1) else Closing(OK)
  }

  function ApplyPlan(env: Env, s: State, fault: Errno): State
    requires s.producer.ScanningA? || s.producer.ScanningB?
  {
    var call := NextCall(env, s.producer);
    if call == [] then s.(producer := Advance(env, s.producer))
    else if call[0].Candidate? then s.(producer := PushReady(s.producer.i))
    else if fault != OK then s.(producer := Closing(fault), faults := s.faults + [fault])
    else
      s.(producer := Advance(env, s.producer), planned := s.planned + call,
         report := Results.Push(s.report, call[0].record), settled := s.settled + [call[0].record.path])
  }

  function ApplyPush(env: Env, s: State, signalled: nat): State
    requires AtPush(s.producer) && RingOk(s.queue) && s.producer.i < |env.slotsA| && env.slotsA[s.producer.i].Occupied?
  {
    var task := env.slotsA[s.producer.i].key;
    match PushOutcome(s.queue)
    case MustWait => s.(producer := PushAsleep(s.producer.i))
    case Refused => s.(producer := Closing(ECANCELED))
    case Served =>
      s.(producer := ScanningA(s.producer.i + 1), planned := s.planned + [Candidate(task)],
         queue := Enqueue(s.queue, task), workers := SignalWorker(s.workers, signalled))
  }

  function ApplyPop(s: State, w: nat): State
    requires w < |s.workers| && RingOk(s.queue)
  {
    match PopOutcome(s.queue)
    case MustWait => s.(workers := s.workers[w := Asleep])
    case Refused => s.(workers := s.workers[w := Exited(false)])
    case Served =>
      var task := s.queue.items[s.queue.head];
      s.(workers := s.workers[w := Comparing(task)], queue := Dequeue(s.queue), popped := s.popped + [task],
         producer := SignalProducer(s.producer))
  }

  function ApplyCompare(env: Env, s: State, w: nat, fault: Errno): State
    requires w < |s.workers| && s.workers[w].Comparing? && s.workers[w].task in env.sizesA
    requires s.workers[w].task in env.sizesB
  {
    var task := s.workers[w].task;
    if fault != OK then
      s.(workers := s.workers[w := Failing(fault)], lost := s.lost + multiset{task}, faults := s.faults + [fault])
    else
      s.(workers := s.workers[w := Ready], compared := s.compared + [task],
         report := Settle(s.report, CompareEvent(env, task)), settled := s.settled + [task])
  }

  function ApplyJoin(s: State): State
    requires s.producer.Joining?
  {
    if s.producer.k < |s.workers| then s.(producer := Joining(s.producer.rc, s.producer.k + 1))
    else s.(producer := Done(if s.producer.rc == OK then s.firstError else s.producer.rc))
  }

  function Apply(env: Env, s: State, a: Action): State
    requires Enabled(env, s, a)
  {
    match a
    case Plan(fault) => ApplyPlan(env, s, fault)
    case Push(signalled) => ApplyPush(env, s, signalled)
    case Close => Shut(s).(producer := Joining(s.producer.rc, 0))
    case Join => ApplyJoin(s)
    case Pop(w) => ApplyPop(s, w)
    case Compare(w, fault) => ApplyCompare(env, s, w, fault)
    case SetError(w) => s.(firstError := KeepFirst(s.firstError, s.workers[w].code),
                           workers := s.workers[w := Stopping])
    case StopQueue(w) => Shut(s.(workers := s.workers[w := Exited(true)]))
    case WakeWorker(w) => s.(workers := s.workers[w := Woken])
    case WakeProducer => s.(producer := PushWoken(s.producer.i))
  }

  // ---------------------------------------------------------------- runs

  /** Each state follows from the one before by an enabled action, and the first is the start. */
  ghost predicate IsRun(env: Env, ss: seq<State>, acts: seq<Action>)
    ensures IsRun(env, ss, acts) ==> |ss| == |acts| + 1
  {
    && |ss| == |acts| + 1 && ss[0] == Start(env)
    && forall k :: 0 <= k < |acts| ==> Enabled(env, ss[k], acts[k]) && ss[k + 1] == Apply(env, ss[k], acts[k])
  }

  function Last(ss: seq<State>): State
    requires ss != []
  {
    ss[|ss| - 1]
  }
}
