/** src/thread_pool.c:139-151: the worker's loop on the real objects, as a run of the protocol. */
module WorkerLoop {
  import opened Common
  import opened FileIndex
  import opened Tree
  import opened PathTree
  import opened ResultSet
  import opened Compare
  import opened TaskQueue
  import opened Protocol
  import opened Safety
  import opened Refinement

  lemma ReadyToPop(env: Env, ss: seq<State>, acts: seq<Action>, w: nat)
    requires EnvOk(env) && IsRun(env, ss, acts) && w < |Last(ss).workers| && AtPop(Last(ss).workers[w])
    ensures Enabled(env, Last(ss), Action.Pop(w))
  {
    RunInv(env, ss, acts, |acts|);
  }

  lemma ReadyToCompare(env: Env, ss: seq<State>, acts: seq<Action>, w: nat)
    requires EnvOk(env) && IsRun(env, ss, acts) && w < |Last(ss).workers| && Last(ss).workers[w].Comparing?
    ensures Enabled(env, Last(ss), Action.Compare(w, OK))
  {
    RunInv(env, ss, acts, |acts|);
  }

  /** Where its own step takes a worker. */
  lemma WorkerAfter(env: Env, s: State, a: Action, w: nat)
    requires Enabled(env, s, a) && StepOf(a, Worker(w))
    ensures w < |s.workers| && |Apply(env, s, a).workers| == |s.workers|
    ensures var pc := Apply(env, s, a).workers[w];
            match a
            case Compare(_, fault) => pc == if fault != OK then Failing(fault) else Ready
            case SetError(_) => pc == Stopping
            case StopQueue(_) => pc == Exited(true)
            case _ => true
  {
  }

  lemma CanReport(env: Env, s: State, w: nat)
    requires w < |s.workers|
    ensures s.workers[w].Failing? ==> Enabled(env, s, SetError(w))
    ensures s.workers[w].Stopping? ==> Enabled(env, s, StopQueue(w))
  {
  }

  /** The end of the loop body when the comparison has failed. */
  method GiveUp(ghost env: Env, queue: TaskQueue, results: ResultSet, context: CompareContext, code: Errno,
                ghost w: nat, ghost ss: seq<State>, ghost acts: seq<Action>, ghost mid: seq<State>,
                ghost macts: seq<Action>)
    returns (ghost ss': seq<State>, ghost acts': seq<Action>)
    requires EnvOk(env) && Continues(env, ss, acts, Worker(w), mid, macts) && Holds(queue, results, context, Last(mid))
    requires w < |Last(mid).workers| && Last(mid).workers[w] == Failing(code)
    modifies queue, context
    ensures Continues(env, ss, acts, Worker(w), ss', acts') && Holds(queue, results, context, Last(ss'))
    ensures w < |Last(ss').workers| && Last(ss').workers[w] == Exited(true)
  {
    hide EnvOk, Enabled, Apply, Continues, IsRun, Holds;
    ghost var s := Last(mid);
    CanReport(env, s, w);
    ReportError(env, queue, results, context, code, s, w);
    WorkerAfter(env, s, SetError(w), w);
    ss', acts' := ContinueWith(env, ss, acts, Worker(w), mid, macts, SetError(w));
    s := Last(ss');
    CanReport(env, s, w);
    StopAll(env, queue, results, context, s, StopQueue(w));
    WorkerAfter(env, s, StopQueue(w), w);
    ss', acts' := ContinueWith(env, ss, acts, Worker(w), ss', acts', StopQueue(w));
  }

  /** The comparison of a task taken, as the next step of the run. */
  method ServeTask(ghost env: Env, queue: TaskQueue, results: ResultSet, context: CompareContext, indexA: FileIndex,
                   indexB: FileIndex, fs: FileSystem, setting: Setting, task: Path, io: CompareIo, ghost w: nat,
                   ghost ss: seq<State>, ghost acts: seq<Action>, ghost mid: seq<State>, ghost macts: seq<Action>)
    returns (rc: Errno, ghost ss': seq<State>, ghost acts': seq<Action>)
    requires EnvOk(env) && Continues(env, ss, acts, Worker(w), mid, macts) && Holds(queue, results, context, Last(mid))
    requires w < |Last(mid).workers| && Last(mid).workers[w] == Comparing(task)
    requires indexA.Valid() && indexB.Valid() && Given(env, indexA, indexB, fs)
    requires SettingOf(env, setting) && io.sight == env.sight(task)
    modifies results, results.items, Nodes(results.layout)
    ensures Continues(env, ss, acts, Worker(w), ss', acts') && Holds(queue, results, context, Last(ss'))
    ensures w < |Last(ss').workers| && Last(ss').workers[w] == if rc != OK then Failing(rc) else Ready
    ensures rc == OK ==> AtPop(Last(ss').workers[w])
    ensures (results.items == old(results.items) || fresh(results.items))
    ensures fresh(Nodes(results.layout) - old(Nodes(results.layout)))
  {
    hide EnvOk, Enabled, Apply, FileIndex.Valid, Continues, IsRun, Given, Holds;
    ContinuesIsRun(env, ss, acts, Worker(w), mid, macts);
    ReadyToCompare(env, mid, macts, w);
    rc := CompareTask(env, queue, results, context, indexA, indexB, fs, setting, task, io, Last(mid), w);
    WorkerAfter(env, Last(mid), Action.Compare(w, rc), w);
    ss', acts' := ContinueWith(env, ss, acts, Worker(w), mid, macts, Action.Compare(w, rc));
  }

  /** `worker_main` while no other thread moves: from taking the lock until it has to wait or leaves
      its loop, what it does to the shared objects is a run of the protocol's worker. */
  method WorkerMain(ghost env: Env, queue: TaskQueue, results: ResultSet, context: CompareContext, indexA: FileIndex,
                    indexB: FileIndex, fs: FileSystem, setting: Setting, io: Path -> CompareIo, ghost w: nat,
                    ghost ss: seq<State>, ghost acts: seq<Action>)
    returns (waits: bool, ghost ss': seq<State>, ghost acts': seq<Action>)
    requires EnvOk(env) && IsRun(env, ss, acts) && Holds(queue, results, context, Last(ss))
    requires w < |Last(ss).workers| && AtPop(Last(ss).workers[w])
    requires indexA.Valid() && indexB.Valid() && Given(env, indexA, indexB, fs)
    requires SettingOf(env, setting) && forall p :: io(p).sight == env.sight(p)
    modifies queue, context, results, results.items, Nodes(results.layout)
    ensures Continues(env, ss, acts, Worker(w), ss', acts') && Holds(queue, results, context, Last(ss'))
    ensures w < |Last(ss').workers| && if waits then Last(ss').workers[w].Asleep? else Last(ss').workers[w].Exited?
  {
    hide *;
    ContinuesStart(env, ss, acts, Worker(w));
    ss', acts' := ss, acts;
    while true
      invariant Continues(env, ss, acts, Worker(w), ss', acts') && Holds(queue, results, context, Last(ss'))
      invariant w < |Last(ss').workers| && AtPop(Last(ss').workers[w])
      invariant indexA.Valid() && indexB.Valid() && Given(env, indexA, indexB, fs)
      invariant results.items == old(results.items) || fresh(results.items)
      invariant fresh(Nodes(results.layout) - old(Nodes(results.layout)))
      decreases queue.count
    {
      ghost var s := Last(ss');
      ContinuesIsRun(env, ss, acts, Worker(w), ss', acts');
      ReadyToPop(env, ss', acts', w);
      WorkerAfter(env, s, Action.Pop(w), w);
      var outcome, task := TakeTask(env, queue, results, context, s, w);
      ss', acts' := ContinueWith(env, ss, acts, Worker(w), ss', acts', Action.Pop(w));
      if !outcome.Served? {
        return outcome.MustWait?, ss', acts';
      }
      ghost var nodes := Nodes(results.layout);
      label Taken:
      var rc;
      rc, ss', acts' := ServeTask(env, queue, results, context, indexA, indexB, fs, setting, task, io(task), w,
                                  ss, acts, ss', acts');
      assert forall o :: o in Nodes(results.layout) && o !in nodes ==> !old@Taken(allocated(o));
      if rc != OK {
        ss', acts' := GiveUp(env, queue, results, context, rc, w, ss, acts, ss', acts');
        return false, ss', acts';
      }
    }
  }
}
