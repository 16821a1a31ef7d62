/** The methods that work on the heap do what the steps of the protocol say: each method here runs one
    critical section of the C code on the real queue, result set and error slot. `WorkerLoop` and
    `PlannerLoop` put them together. */
module Refinement {
  import opened Common
  import opened FileIndex
  import opened Tree
  import opened PathTree
  import opened Results
  import opened ResultSet
  import opened Compare
  import opened Planner
  import opened TaskQueue
  import opened Protocol
  import opened Liveness

  /** The shared objects are in the state `s`. */
  ghost predicate Holds(queue: TaskQueue, results: ResultSet, context: CompareContext, s: State)
    reads queue, queue.items, results, results.items, Nodes(results.layout), context
  {
    && queue.items as object != results.items
    && queue.View() == s.queue && context.firstError == s.firstError
    && results.Valid() && results.View() == s.report
  }

  /** `task_queue_push` as the planner calls it. */
  method PushTask(ghost env: Env, queue: TaskQueue, results: ResultSet, context: CompareContext, task: Path,
                  ghost s: State, ghost signalled: nat)
    returns (outcome: Outcome)
    requires Holds(queue, results, context, s) && Enabled(env, s, Push(signalled))
    requires task == env.slotsA[s.producer.i].key
    modifies queue, queue.items
    ensures Holds(queue, results, context, Apply(env, s, Push(signalled)))
    ensures var pc := Apply(env, s, Push(signalled)).producer;
            match outcome
            case MustWait => pc == PushAsleep(s.producer.i)
            case Refused => pc == Closing(ECANCELED)
            case Served => pc == ScanningA(s.producer.i + 1)
  {
    hide ResultSet.Valid, Enqueue, RingOk;
    assert allocated(Nodes(results.layout));
    outcome := queue.Push(task);
  }

  /** `task_queue_pop` as a worker calls it. */
  method TakeTask(ghost env: Env, queue: TaskQueue, results: ResultSet, context: CompareContext, ghost s: State,
                  ghost w: nat)
    returns (outcome: Outcome, task: Path)
    requires Holds(queue, results, context, s) && Enabled(env, s, Action.Pop(w))
    modifies queue
    ensures Holds(queue, results, context, Apply(env, s, Action.Pop(w)))
    ensures var pc := Apply(env, s, Action.Pop(w)).workers[w];
            match outcome
            case MustWait => pc == Asleep
            case Refused => pc == Exited(false)
            case Served => pc == Comparing(task)
    ensures outcome.Served? ==> queue.count < old(queue.count)
  {
    hide ResultSet.Valid, Dequeue;
    assert allocated(Nodes(results.layout));
    ghost var q := queue.View();
    if s.queue.count > 0 { DequeueTakesFront(s.queue); }
    outcome, task := queue.Pop();
    if outcome.Served? {
      assert (Contents(q))[0] == task;
    }
  }

  /** `push_presence_record` for the slot the planner has reached. */
  method PresentRecord(ghost env: Env, queue: TaskQueue, results: ResultSet, context: CompareContext,
                       record: ChangeRecord, growOk: bool, nodeOk: bool, ghost s: State)
    returns (rc: Errno)
    requires Holds(queue, results, context, s) && Enabled(env, s, Plan(OK))
    requires NextCall(env, s.producer) == [Present(record)]
    modifies results, results.items, Nodes(results.layout)
    ensures (rc == OK || rc == ENOMEM) && (growOk && nodeOk ==> rc == OK)
    ensures Enabled(env, s, Plan(rc)) && Holds(queue, results, context, Apply(env, s, Plan(rc)))
    ensures (results.items == old(results.items) || fresh(results.items))
    ensures fresh(Nodes(results.layout) - old(Nodes(results.layout)))
  {
    hide ResultSet.Valid, ResultSet.View, Results.Push, NextCall, TaskQueue.View;
    assert allocated(Nodes(results.layout));
    ghost var q := queue.items;
    rc := results.Push(record, growOk, nodeOk);
    assert queue.items as object != results.items;
  }

  /** What a comparison needs to know of the run at run time. */
  datatype Setting = Setting(config: Config, hash: Bytes -> nat, isText: Bytes -> bool)

  ghost predicate SettingOf(env: Env, setting: Setting) {
    setting == Setting(env.config, env.hash, env.isText)
  }

  /** What the run is given is what the indexes and the disk hold. */
  ghost predicate Given(env: Env, indexA: FileIndex, indexB: FileIndex, fs: FileSystem)
    reads indexA, indexB
  {
    && indexA.contents == env.sizesA && indexB.contents == env.sizesB
    && (forall p :: SideA(env.config, fs, p).Some? ==> env.contentA(p) == SideA(env.config, fs, p).value)
    && (forall p :: SideB(env.config, fs, p).Some? ==> env.contentB(p) == SideB(env.config, fs, p).value)
  }

  /** The comparison of the path's two files ends with this code. */
  ghost predicate EndsWith(fs: FileSystem, setting: Setting, io: CompareIo, p: Path, rc: Errno) {
    rc == ExamineFault(setting.config, setting.hash, setting.isText, SideA(setting.config, fs, p),
                       SideB(setting.config, fs, p), io)
  }

  /** If the path has one size in both indexes, every call its comparison makes has succeeded. */
  ghost predicate Examined(env: Env, fs: FileSystem, setting: Setting, io: CompareIo, p: Path) {
    p in env.sizesA && p in env.sizesB && env.sizesA[p] == env.sizesB[p] ==> EndsWith(fs, setting, io, p, OK)
  }

  /** `compare_candidate_file` as a worker calls it on its task, with the reads and the looks for text
      that the run has for that path. */
  method CompareTask(ghost env: Env, queue: TaskQueue, results: ResultSet, context: CompareContext, indexA: FileIndex,
                     indexB: FileIndex, fs: FileSystem, setting: Setting, task: Path, io: CompareIo, ghost s: State,
                     ghost w: nat)
    returns (rc: Errno)
    requires Holds(queue, results, context, s) && Enabled(env, s, Action.Compare(w, OK))
    requires s.workers[w] == Comparing(task)
    requires indexA.Valid() && indexB.Valid() && Given(env, indexA, indexB, fs)
    requires SettingOf(env, setting) && io.sight == env.sight(task)
    modifies results, results.items, Nodes(results.layout)
    ensures Faultless(io) && SideA(setting.config, fs, task).Some? && SideB(setting.config, fs, task).Some? ==> rc == OK
    ensures rc == OK ==> Examined(env, fs, setting, io, task)
    ensures rc == OK || rc == ENOMEM || EndsWith(fs, setting, io, task, rc)
    ensures Enabled(env, s, Action.Compare(w, rc))
    ensures Holds(queue, results, context, Apply(env, s, Action.Compare(w, rc)))
    ensures (results.items == old(results.items) || fresh(results.items))
    ensures fresh(Nodes(results.layout) - old(Nodes(results.layout)))
  {
    hide ResultSet.Valid, FileIndex.Valid, ResultSet.View, Settle, Faultless, TaskQueue.View, JudgedEqual, ExamineFault;
    assert allocated(Nodes(results.layout));
    rc := CompareCandidateFile(setting.config, indexA, indexB, fs, task, results, setting.hash, setting.isText, io);
    assert queue.items as object != results.items;
  }

  /** `compare_context_set_error`. */
  method ReportError(ghost env: Env, queue: TaskQueue, results: ResultSet, context: CompareContext, code: Errno,
                     ghost s: State, ghost w: nat)
    requires Holds(queue, results, context, s) && Enabled(env, s, SetError(w)) && s.workers[w] == Failing(code)
    modifies context
    ensures Holds(queue, results, context, Apply(env, s, SetError(w)))
  {
    hide ResultSet.Valid;
    assert allocated(Nodes(results.layout));
    context.SetError(code);
  }

  /** `task_queue_shutdown`, called by a worker that has failed or by the planner. */
  method StopAll(ghost env: Env, queue: TaskQueue, results: ResultSet, context: CompareContext, ghost s: State,
                 ghost a: Action)
    requires Holds(queue, results, context, s) && (a.StopQueue? || a.Close?) && Enabled(env, s, a)
    modifies queue
    ensures Holds(queue, results, context, Apply(env, s, a))
  {
    hide ResultSet.Valid;
    assert allocated(Nodes(results.layout));
    queue.Shutdown();
  }

  // ---------------------------------------------------------------- runs of one thread

  datatype Thread = ThePlanner | Worker(w: nat)

  predicate StepOf(a: Action, t: Thread) {
    match t
    case ThePlanner => a.Plan? || a.Push? || a.Close?
    case Worker(w) => (a.Pop? || a.Compare? || a.SetError? || a.StopQueue?) && a.w == w
  }

  /** One run of the protocol is the beginning of another that goes on with steps of one thread. */
  ghost predicate Continues(env: Env, ss: seq<State>, acts: seq<Action>, t: Thread, ss': seq<State>, acts': seq<Action>)
    ensures Continues(env, ss, acts, t, ss', acts') ==> ss' != []
  {
    && IsRun(env, ss', acts') && ss <= ss' && acts <= acts'
    && forall k :: |acts| <= k < |acts'| ==> StepOf(acts'[k], t)
  }

  lemma ContinueWith(env: Env, ss: seq<State>, acts: seq<Action>, t: Thread, ss': seq<State>, acts': seq<Action>,
                     a: Action)
    returns (tt: seq<State>, bcts: seq<Action>)
    requires EnvOk(env) && Continues(env, ss, acts, t, ss', acts') && Enabled(env, Last(ss'), a) && StepOf(a, t)
    ensures Continues(env, ss, acts, t, tt, bcts) && Last(tt) == Apply(env, Last(ss'), a)
  {
    RunExtend(env, ss', acts', a);
    tt, bcts := ss' + [Apply(env, Last(ss'), a)], acts' + [a];
  }

  lemma ContinuesStart(env: Env, ss: seq<State>, acts: seq<Action>, t: Thread)
    requires IsRun(env, ss, acts)
    ensures Continues(env, ss, acts, t, ss, acts)
  {
  }

  lemma ContinuesIsRun(env: Env, ss: seq<State>, acts: seq<Action>, t: Thread, ss': seq<State>, acts': seq<Action>)
    requires Continues(env, ss, acts, t, ss', acts')
    ensures IsRun(env, ss', acts')
  {
  }
}
