/** The whole program: every successful run, under every interleaving, reports exactly the
    difference of the two trees, in order of path, and always the same way. */
module Verdiff {
  import opened Common
  import opened Avl
  import opened Results
  import opened Content
  import opened Compare
  import opened Planner
  import opened TaskQueue
  import opened Protocol
  import opened Safety
  import opened Runs
  import R = Reporting

  // ---------------------------------------------------------------- the difference, by definition

  /** The paths of either tree. */
  function AllPaths(env: Env): set<Path> {
    env.sizesA.Keys + env.sizesB.Keys
  }

  /** What happened to a path, by definition. */
  function SpecChange(env: Env, p: Path): ChangeType {
    if p !in env.sizesB then Removed
    else if p !in env.sizesA then Added
    else if env.contentA(p) == env.contentB(p) then Unchanged
    else Modified
  }

  /** The files have not changed since they were scanned. */
  ghost predicate Frozen(env: Env) {
    && (forall p :: p in env.sizesA ==> env.sizesA[p] == |env.contentA(p)|)
    && (forall p :: p in env.sizesB ==> env.sizesB[p] == |env.contentB(p)|)
  }

  /** Equal hashes are verified, with a buffer that holds something and that reads fill. */
  ghost predicate Verifying(env: Env) {
    && env.config.verifyEqualHashes && env.config.hashBufferSize > 0
    && forall p :: FullReads(env.sight(p), env.config.hashBufferSize)
  }

  /** Both files of the path are taken for text. */
  predicate LooksText(env: Env, p: Path) {
    TakenForText(env.isText, env.contentA(p), env.contentB(p), env.sight(p))
  }

  /** The event that settles a path carries that path and the verdict the definition gives. */
  lemma EventMeetsSpec(env: Env, p: Path)
    requires Frozen(env) && Verifying(env) && p in AllPaths(env)
    ensures EventOf(env, p).Change() == SpecChange(env, p)
    ensures EventOf(env, p).Recorded? <==> SpecChange(env, p) != Unchanged || env.config.includeUnchanged
  {
    if p in env.sizesA && p in env.sizesB {
      var a, b := env.contentA(p), env.contentB(p);
      AlikeIff(env.config.hashBufferSize, a, b, env.sight(p));
    }
  }

  lemma EventCarriesPath(env: Env, p: Path)
    ensures EventOf(env, p).Recorded? ==> EventOf(env, p).record.path == p
  {
  }

  // ---------------------------------------------------------------- each path settled once

  lemma {:induction false} PathsOfCalls(calls: seq<Call>)
    ensures |PathsOf(calls)| == |calls|
    ensures forall i :: 0 <= i < |calls| ==> PathsOf(calls)[i] == calls[i].Path()
  {
    if calls != [] {
      PathsOfCalls(calls[..|calls| - 1]);
    }
  }

  /** The planner's calls name every path of either tree exactly once. */
  lemma UniversePaths(env: Env)
    requires EnvOk(env)
    ensures R.NoRepeats(PathsOf(Universe(env)))
    ensures forall p :: p in PathsOf(Universe(env)) <==> p in AllPaths(env)
  {
    var calls, ps := Universe(env), PathsOf(Universe(env));
    CallsCoverUnion(env.slotsA, env.sizesA, env.slotsB, env.sizesB);
    PathsOfCalls(calls);
    forall p ensures p in ps <==> p in AllPaths(env) {
      if p in ps {
        var i :| 0 <= i < |ps| && ps[i] == p;
        assert calls[i] in calls;
      }
      if HasPath(calls, p) {
        var c :| c in calls && c.Path() == p;
        var i :| 0 <= i < |calls| && calls[i] == c;
        assert ps[i] == p;
      }
    }
  }

  /** Part of the planner's calls name no path twice either. */
  lemma PlannedOnce(env: Env, planned: seq<Call>)
    requires EnvOk(env) && planned <= Universe(env)
    ensures R.NoRepeats(PathsOf(planned)) && forall p :: p in PathsOf(planned) ==> p in AllPaths(env)
  {
    hide EnvOk, Universe, AllPaths;
    var ps, all := PathsOf(planned), PathsOf(Universe(env));
    UniversePaths(env);
    PathsOfCalls(planned);
    PathsOfCalls(Universe(env));
    assert forall i :: 0 <= i < |ps| ==> ps[i] == all[i];
    forall p | p in ps ensures p in AllPaths(env) {
      var i :| 0 <= i < |ps| && ps[i] == p;
      assert all[i] in all;
    }
  }

  /** In every reachable state, successful or not, no path has been settled twice. */
  lemma SettledOnce(env: Env, s: State)
    requires EnvOk(env) && Inv(env, s)
    ensures R.NoRepeats(s.settled) && forall p :: p in s.settled ==> p in AllPaths(env)
  {
    hide EnvOk, WakeOk, ExitOk, ErrorOk, CodeOk, PlanOk, FlowOk, TasksOk, ReportOk, AllPaths;
    PlannedPrefix(env, s);
    PlannedOnce(env, s.planned);
    SettledWithinPlanned(s);
    SubsetNoRepeats(s.settled, PathsOf(s.planned));
  }

  /** In every reachable state no task has been taken from the queue twice: a path is compared at most
      once. */
  lemma TakenOnce(env: Env, s: State)
    requires EnvOk(env) && Inv(env, s)
    ensures R.NoRepeats(s.popped)
  {
    hide EnvOk, WakeOk, ExitOk, ErrorOk, CodeOk, PlanOk, TasksOk, ReportOk, AllPaths;
    PlannedPrefix(env, s);
    PlannedOnce(env, s.planned);
    PathsSplit(s.planned);
    assert multiset(s.popped + Contents(s.queue)) == multiset(s.popped) + multiset(Contents(s.queue));
    SubsetNoRepeats(s.popped, PathsOf(s.planned));
  }

  lemma SubsetNoRepeats(s: seq<Path>, t: seq<Path>)
    requires multiset(s) <= multiset(t) && R.NoRepeats(t)
    ensures R.NoRepeats(s) && forall p :: p in s ==> p in t
  {
    R.CountOfNoRepeats(t);
    forall p ensures multiset(s)[p] <= 1 && (p in s ==> p in t) {
      assert multiset(s)[p] <= multiset(t)[p];
      assert p in s <==> p in multiset(s);
      assert p in t <==> p in multiset(t);
    }
    R.NoRepeatsByCount(s);
  }

  lemma SettledWithinPlanned(s: State)
    requires FlowOk(s)
    ensures multiset(s.settled) <= multiset(PathsOf(s.planned))
  {
    PathsSplit(s.planned);
    assert multiset(s.compared) <= multiset(s.popped);
    assert multiset(s.popped) <= multiset(CandidatesOf(s.planned)) by {
      assert multiset(s.popped + Contents(s.queue)) == multiset(s.popped) + multiset(Contents(s.queue));
    }
  }

  /** After a successful run, exactly the paths of either tree have been settled, each once. */
  lemma SettledAll(env: Env, s: State)
    requires EnvOk(env) && Inv(env, s) && s.producer == Done(OK)
    ensures R.NoRepeats(s.settled) && forall p :: p in s.settled <==> p in AllPaths(env)
  {
    hide EnvOk, Inv, Universe;
    SuccessIsComplete(env, s);
    UniversePaths(env);
    R.PermutationNoRepeats(s.settled, PathsOf(Universe(env)));
  }

  // ---------------------------------------------------------------- records and counters

  lemma {:induction false} RecordsSettled(env: Env, ps: seq<Path>)
    requires R.NoRepeats(ps)
    ensures var rs := RecordsOf(EventsOf(env, ps));
            && R.DistinctPaths(rs)
            && (forall r :: r in rs <==> r.path in ps && EventOf(env, r.path) == Recorded(r))
  {
    if ps != [] {
      var init, p := ps[..|ps| - 1], ps[|ps| - 1];
      RecordsSettled(env, init);
      assert ps == init + [p] && p !in init;
      var es, e := EventsOf(env, init), EventOf(env, p);
      assert (es + [e])[..|es|] == es;
      EventCarriesPath(env, p);
      var rs, rs' := RecordsOf(es), RecordsOf(EventsOf(env, ps));
      assert rs' == if e.Recorded? then rs + [e.record] else rs;
      forall i, j | 0 <= i < j < |rs'| ensures rs'[i].path != rs'[j].path {
        if j == |rs| {
          assert rs[i] in rs;
        }
      }
    }
  }

  /** The paths of a change type. */
  function OfChange(env: Env, ps: set<Path>, c: ChangeType): set<Path> {
    set p | p in ps && EventOf(env, p).Change() == c
  }

  lemma OfChangeMore(env: Env, ps: set<Path>, p: Path, c: ChangeType)
    requires p !in ps
    ensures |OfChange(env, ps + {p}, c)| == |OfChange(env, ps, c)| + (if EventOf(env, p).Change() == c then 1 else 0)
  {
    hide EventOf, Event.Change;
    var before := OfChange(env, ps, c);
    assert OfChange(env, ps + {p}, c) == if EventOf(env, p).Change() == c then before + {p} else before;
  }

  lemma TallyMore(es: seq<Event>, e: Event, c: ChangeType)
    ensures Tally(es + [e], c) == Tally(es, c) + (if e.Change() == c then 1 else 0)
  {
    assert (es + [e])[..|es|] == es;
  }

  lemma {:induction false} TallyCounts(env: Env, ps: seq<Path>, c: ChangeType)
    requires R.NoRepeats(ps)
    ensures Tally(EventsOf(env, ps), c) == |OfChange(env, R.Elements(ps), c)|
  {
    hide EventOf, Event.Change, Tally;
    if ps == [] {
      TallyNothing(c);
      assert OfChange(env, R.Elements(ps), c) == {};
    } else {
      var init, p := ps[..|ps| - 1], ps[|ps| - 1];
      TallyCounts(env, init, c);
      TallyMore(EventsOf(env, init), EventOf(env, p), c);
      OfChangeMore(env, R.Elements(init), p, c);
    }
  }

  lemma TallyNothing(c: ChangeType)
    ensures Tally([], c) == 0
  {
  }

  /** In every reachable state the tree of the result set has one node per record, and an in-order
      walk lists the records in strict order of path: no record ever replaces another in a run. */
  lemma OneNodePerRecord(env: Env, ss: seq<State>, acts: seq<Action>, k: nat)
    requires EnvOk(env) && IsRun(env, ss, acts) && k < |ss|
    ensures |InOrder(ss[k].report.tree)| == |ss[k].report.records|
    ensures forall i: nat :: i in InOrder(ss[k].report.tree) <==> i < |ss[k].report.records|
    ensures R.StrictlySorted(Listing(ss[k].report))
  {
    var s := ss[k];
    RunInv(env, ss, acts, k);
    ReportIsReplay(env, s);
    SettledOnce(env, s);
    RecordsSettled(env, s.settled);
    ReplayAgrees(EventsOf(env, s.settled));
    R.ListingSorted(s.report);
  }

  lemma ReportIsReplay(env: Env, s: State)
    requires Inv(env, s)
    ensures s.report == Replay(EventsOf(env, s.settled))
  {
  }

  // ---------------------------------------------------------------- the report of a successful run

  /** The report of a run that returned 0: its records, in strict order of path, and its counters,
      as a function of the inputs alone. */
  lemma FinalReport(env: Env, s: State)
    requires EnvOk(env) && Inv(env, s) && s.producer == Done(OK)
    ensures forall i :: i in InOrder(s.report.tree) ==> i < |s.report.records|
    ensures R.StrictlySorted(Listing(s.report))
    ensures forall r :: r in Listing(s.report) <==> r.path in AllPaths(env) && EventOf(env, r.path) == Recorded(r)
    ensures forall c :: Counter(s.report, c) == |OfChange(env, AllPaths(env), c)|
  {
    hide EnvOk, Inv, AllPaths, EventOf, OfChange, Consistent, EventsOf, RecordsOf, Tally, Replay;
    ReportIsReplay(env, s);
    SettledAll(env, s);
    RecordsSettled(env, s.settled);
    ReplayAgrees(EventsOf(env, s.settled));
    R.ListingSorted(s.report);
    assert R.Elements(s.settled) == AllPaths(env);
    forall c ensures Counter(s.report, c) == |OfChange(env, AllPaths(env), c)| {
      TallyCounts(env, s.settled, c);
    }
  }

  lemma FinalState(env: Env, ss: seq<State>, acts: seq<Action>)
    requires EnvOk(env) && IsRun(env, ss, acts)
    ensures Inv(env, Last(ss))
  {
    RunInv(env, ss, acts, |acts|);
  }

  /** The record for a file whose two contents differ, with its lines if they are wanted and shown. */
  function ChangedRecord(p: Path, a: Bytes, b: Bytes, byLine: bool): ChangeRecord {
    if |a| != |b| then ChangeRecord(p, Modified, SizeChanged, |a|, |b|, [])
    else if byLine then ChangeRecord(p, Modified, Lines, |a|, |b|, LineDiffsOf(a, b))
    else ChangeRecord(p, Modified, BinaryChanged, |a|, |b|, [])
  }

  /** The record a changed or listed path deserves, from the contents of the two files alone. */
  function SpecRecord(env: Env, p: Path): ChangeRecord {
    var a, b := env.contentA(p), env.contentB(p);
    match SpecChange(env, p)
    case Removed => ChangeRecord(p, Removed, OnlyInSource, |a|, 0, [])
    case Added => ChangeRecord(p, Added, OnlyInTarget, 0, |b|, [])
    case Unchanged => ChangeRecord(p, Unchanged, NoDetail, |a|, |b|, [])
    case Modified => ChangedRecord(p, a, b, env.config.includeLines && LooksText(env, p))
  }

  /** Is there a record for the path? Unchanged files have one only on request. */
  predicate Listed(env: Env, p: Path) {
    p in AllPaths(env) && (SpecChange(env, p) != Unchanged || env.config.includeUnchanged)
  }

  lemma EventIsSpec(env: Env, p: Path)
    requires Frozen(env) && Verifying(env) && p in AllPaths(env)
    ensures EventOf(env, p) == if Listed(env, p) then Recorded(SpecRecord(env, p)) else Noted(Unchanged)
  {
    EventMeetsSpec(env, p);
    if p in env.sizesA && p in env.sizesB {
      NoDiffsIffEqual(env.contentA(p), env.contentB(p));
    }
  }

  function WithChange(env: Env, c: ChangeType): set<Path> {
    set p | p in AllPaths(env) && SpecChange(env, p) == c
  }

  /** Main result. Whatever the interleaving, the number of workers, the room in the queue, the layout
      of the indexes and the hash function: if the run returns 0, the in-order listing is exactly the
      records of the listed paths, sorted by path, and each counter is the number of paths with that
      change, removed being A without B, added B without A, and the common paths divided by content. */
  lemma SuccessfulRunsReportTheDifference(env: Env, ss: seq<State>, acts: seq<Action>)
    requires EnvOk(env) && Frozen(env) && Verifying(env)
    requires IsRun(env, ss, acts) && Last(ss).producer == Done(OK)
    ensures var rs := Last(ss).report;
            && (forall i :: i in InOrder(rs.tree) ==> i < |rs.records|)
            && R.StrictlySorted(Listing(rs))
            && (forall r :: r in Listing(rs) <==> Listed(env, r.path) && r == SpecRecord(env, r.path))
            && (forall c :: Counter(rs, c) == |WithChange(env, c)|)
  {
    hide EnvOk, Inv, EventOf, SpecRecord, Frozen, Verifying, IsRun, Counter;
    var rs := Last(ss).report;
    FinalState(env, ss, acts);
    FinalReport(env, Last(ss));
    forall r ensures r in Listing(rs) <==> Listed(env, r.path) && r == SpecRecord(env, r.path) {
      if r.path in AllPaths(env) {
        EventIsSpec(env, r.path);
      }
    }
    forall c ensures Counter(rs, c) == |WithChange(env, c)| {
      forall p | p in AllPaths(env) ensures EventOf(env, p).Change() == SpecChange(env, p) {
        EventMeetsSpec(env, p);
      }
      assert OfChange(env, AllPaths(env), c) == WithChange(env, c);
    }
  }

  // ---------------------------------------------------------------- conservation of counts

  lemma {:induction false} TallySum(es: seq<Event>)
    ensures Tally(es, Unchanged) + Tally(es, Modified) + Tally(es, Added) + Tally(es, Removed) == |es|
  {
    if es != [] {
      TallySum(es[..|es| - 1]);
    }
  }

  lemma {:induction false} EventsCount(env: Env, ps: seq<Path>)
    ensures |EventsOf(env, ps)| == |ps|
  {
    if ps != [] {
      EventsCount(env, ps[..|ps| - 1]);
    }
  }

  /** After a successful run the counters add up to the number of paths in either tree, which is the
      total `main` prints: the files of A plus the files added. No assumption on the files or the
      hash is needed. */
  lemma CountsAddUp(env: Env, ss: seq<State>, acts: seq<Action>)
    requires EnvOk(env) && IsRun(env, ss, acts) && Last(ss).producer == Done(OK)
    ensures var rs := Last(ss).report;
            rs.unchangedCount + rs.modifiedCount + rs.addedCount + rs.removedCount
            == |AllPaths(env)| == |env.sizesA| + rs.addedCount
  {
    hide EnvOk, Inv, IsRun, AllPaths, EventOf, OfChange, EventsOf, Replay, Tally, Consistent, RecordsOf, Counter;
    var s := Last(ss);
    FinalState(env, ss, acts);
    ReportIsReplay(env, s);
    SettledAll(env, s);
    var es := EventsOf(env, s.settled);
    ReplayAgrees(es);
    TallySum(es);
    EventsCount(env, s.settled);
    R.ElementsCount(s.settled);
    assert R.Elements(s.settled) == AllPaths(env);
    CountersByName(s.report);
    FinalReport(env, s);
    AddedPaths(env);
  }

  lemma CountersByName(rs: Report)
    ensures Counter(rs, Unchanged) == rs.unchangedCount && Counter(rs, Modified) == rs.modifiedCount
    ensures Counter(rs, Added) == rs.addedCount && Counter(rs, Removed) == rs.removedCount
  {
  }

  lemma AddedIff(env: Env, p: Path)
    requires p in AllPaths(env)
    ensures EventOf(env, p).Change() == Added <==> p !in env.sizesA
  {
  }

  lemma AddedPaths(env: Env)
    ensures |AllPaths(env)| == |env.sizesA| + |OfChange(env, AllPaths(env), Added)|
  {
    hide EventOf, Event.Change, AllPaths;
    var all, added := AllPaths(env), OfChange(env, AllPaths(env), Added);
    forall p | p in all ensures p in added <==> p !in env.sizesA {
      AddedIff(env, p);
    }
    AllIncludes(env);
    SplitSize(all, env.sizesA.Keys, added);
  }

  lemma SplitSize(all: set<Path>, some: set<Path>, rest: set<Path>)
    requires some <= all && rest <= all && forall p :: p in all ==> (p in rest <==> p !in some)
    ensures |all| == |some| + |rest|
  {
    assert all == some + rest && some !! rest;
  }

  lemma AllIncludes(env: Env)
    ensures env.sizesA.Keys <= AllPaths(env)
  {
  }

  // ---------------------------------------------------------------- the report is always the same

  /** Two runs over the same trees with the same options and the same hash function. The tables may be
      laid out differently, and the queue and the pool may be of any size. */
  ghost predicate SameInput(e: Env, f: Env) {
    f == e.(slotsA := f.slotsA, slotsB := f.slotsB, ring := f.ring, workerCount := f.workerCount)
  }

  /** Any two successful runs on the same input list the same records in the same order and count the
      same, although the records were pushed in different orders into different trees. */
  lemma ReportIsDeterministic(e: Env, ss: seq<State>, acts: seq<Action>, f: Env, tt: seq<State>, bcts: seq<Action>)
    requires EnvOk(e) && IsRun(e, ss, acts) && Last(ss).producer == Done(OK)
    requires EnvOk(f) && IsRun(f, tt, bcts) && Last(tt).producer == Done(OK)
    requires SameInput(e, f)
    ensures var rs, ts := Last(ss).report, Last(tt).report;
            && (forall i :: i in InOrder(rs.tree) ==> i < |rs.records|)
            && (forall i :: i in InOrder(ts.tree) ==> i < |ts.records|)
            && Listing(rs) == Listing(ts) && forall c :: Counter(rs, c) == Counter(ts, c)
  {
    hide EnvOk, Inv, IsRun, Counter, Listing;
    FinalState(e, ss, acts);
    FinalState(f, tt, bcts);
    FinalReport(e, Last(ss));
    FinalReport(f, Last(tt));
    forall p ensures EventOf(e, p) == EventOf(f, p) { }
    R.SortedListUnique(Listing(Last(ss).report), Listing(Last(tt).report));
    forall c ensures OfChange(e, AllPaths(e), c) == OfChange(f, AllPaths(f), c) { }
  }

  /** The same trees, line options and outcomes of the looks for text; the hash function may differ, and
      so may the wish to list unchanged files. */
  ghost predicate SameTrees(e: Env, f: Env) {
    && e.sizesA == f.sizesA && e.sizesB == f.sizesB
    && (forall p :: LooksText(e, p) == LooksText(f, p))
    && e.contentA == f.contentA && e.contentB == f.contentB && e.config.includeLines == f.config.includeLines
  }

  /** With verification on, neither the hash function nor skipping unchanged files changes a row of
      the detailed report or a counter. */
  lemma RowsIgnoreOptions(e: Env, ss: seq<State>, acts: seq<Action>, f: Env, tt: seq<State>, bcts: seq<Action>)
    requires EnvOk(e) && IsRun(e, ss, acts) && Last(ss).producer == Done(OK)
    requires EnvOk(f) && IsRun(f, tt, bcts) && Last(tt).producer == Done(OK)
    requires SameTrees(e, f) && Frozen(e) && Verifying(e) && Verifying(f)
    ensures var rs, ts := Last(ss).report, Last(tt).report;
            && (forall i :: i in InOrder(rs.tree) ==> i < |rs.records|)
            && (forall i :: i in InOrder(ts.tree) ==> i < |ts.records|)
            && R.Rows(Listing(rs)) == R.Rows(Listing(ts)) && forall c :: Counter(rs, c) == Counter(ts, c)
  {
    hide EnvOk, Inv, IsRun, Counter, Listing, Verifying;
    var rs, ts := Last(ss).report, Last(tt).report;
    assert Frozen(f);
    SuccessfulRunsReportTheDifference(e, ss, acts);
    SuccessfulRunsReportTheDifference(f, tt, bcts);
    R.RowsKept(Listing(rs));
    R.RowsKept(Listing(ts));
    SpecUnaffected(e, f);
    R.SortedListUnique(R.Rows(Listing(rs)), R.Rows(Listing(ts)));
    forall c ensures WithChange(e, c) == WithChange(f, c) { }
  }

  lemma SpecUnaffected(e: Env, f: Env)
    requires SameTrees(e, f)
    ensures forall p :: SpecChange(e, p) == SpecChange(f, p) && SpecRecord(e, p) == SpecRecord(f, p)
    ensures forall p :: SpecRecord(e, p).change == SpecChange(e, p)
    ensures AllPaths(e) == AllPaths(f)
  {
  }
}
