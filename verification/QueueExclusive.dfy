/** One worker per job, and the concurrency limit. The program has them in some runs and
    not in others; stated here is exactly in which, over every run of QueueModel. Two
    conditions on a run suffice, that operators requeue only jobs nobody executes and that
    a worker's cleanup directly follows its outcome; the two traces at the end show that
    neither can be dropped. */
module QueueExclusive {
  import opened JobTable
  import opened QueueModel

  /** The run up to its last action, and the state it leaves. */
  function Earlier(acts: seq<Act>): seq<Act>
    requires acts != []
  {
    acts[..|acts| - 1]
  }

  function Last(acts: seq<Act>): Act
    requires acts != []
  {
    acts[|acts| - 1]
  }

  /** The largest limit in force at any point of the run. */
  function LargestLimit(acts: seq<Act>): int
    decreases |acts|
  {
    if acts == [] then 0
    else
      var earlier, now := LargestLimit(Earlier(acts)), After(acts).limit;
      if earlier < now then now else earlier
  }

  /* ---- workers, their jobs and activeJobs ---- */

  ghost predicate OnePerJob(workers: map<Tok, Worker>) {
    forall t, u :: t in workers && u in workers && workers[t].job == workers[u].job ==> t == u
  }

  ghost predicate AllActive(workers: map<Tok, Worker>, active: set<Id>) {
    forall t :: t in workers ==> workers[t].job in active
  }

  /** Workers, their jobs and the keys of activeJobs correspond one to one. */
  ghost predicate Paired(s: Sys) {
    OnePerJob(s.workers) && AllActive(s.workers, s.active) && |s.workers| == |s.active|
  }

  /** The action starts a worker for a job that still has one. */
  predicate Doubles(s: Sys, a: Act) {
    a.Register? && Enabled(s, a) && exists t :: t in s.workers && s.workers[t].job == s.disp.id
  }

  ghost predicate AlwaysPaired(acts: seq<Act>)
    decreases |acts|
  {
    Paired(After(acts)) && (acts != [] ==> AlwaysPaired(Earlier(acts)))
  }

  predicate NoDoubles(acts: seq<Act>)
    decreases |acts|
  {
    acts != [] ==> NoDoubles(Earlier(acts)) && !Doubles(After(Earlier(acts)), Last(acts))
  }

  lemma AfterLast(acts: seq<Act>)
    requires acts != []
    ensures After(acts) == Step(After(Earlier(acts)), Last(acts))
  {}

  lemma AddedPairs(workers: map<Tok, Worker>, active: set<Id>, tok: Tok, id: Id)
    requires OnePerJob(workers) && AllActive(workers, active) && |workers| == |active| && tok !in workers
    requires (forall t :: t in workers ==> workers[t].job != id) && id !in active
    ensures var more := workers[tok := Worker(id, false, false)];
      OnePerJob(more) && AllActive(more, active + {id}) && |more| == |active + {id}|
  {
    OneMorePerJob(workers, tok, id);
    hide OnePerJob;
    var more := workers[tok := Worker(id, false, false)];
    assert more.Keys == workers.Keys + {tok};
    assert |more.Keys| == |workers.Keys| + 1;
  }

  lemma OneMorePerJob(workers: map<Tok, Worker>, tok: Tok, id: Id)
    requires OnePerJob(workers) && tok !in workers && forall t :: t in workers ==> workers[t].job != id
    ensures OnePerJob(workers[tok := Worker(id, false, false)])
  {}

  lemma RegisterPairs(s: Sys)
    requires MapsOk(s) && Paired(s) && Enabled(s, Register) && !Doubles(s, Register)
    ensures Paired(Do(s, Register))
  {
    assert s.disp.id !in s.active;
    assert s.nextTok !in s.workers;
    hide MapsOk, OnePerJob, AllActive;
    AddedPairs(s.workers, s.active, s.nextTok, s.disp.id);
  }

  lemma CleanupPairs(s: Sys, tok: Tok)
    requires Paired(s) && Enabled(s, Cleanup(tok))
    ensures Paired(Do(s, Cleanup(tok)))
  {
    assert (s.workers - {tok}).Keys == s.workers.Keys - {tok};
  }

  /** The workers keep their jobs. */
  lemma SameJobsPair(s: Sys, n: Sys)
    requires Paired(s) && n.active == s.active && n.workers.Keys == s.workers.Keys
    requires forall t :: t in s.workers ==> n.workers[t].job == s.workers[t].job
    ensures Paired(n)
  {
    assert |n.workers| == |n.workers.Keys| && |s.workers| == |s.workers.Keys|;
  }

  lemma DownPairs(s: Sys, a: Act)
    requires SettingsOk(s) && Enabled(s, a) && (a.StopDone? || a.Crash? || a.Start?)
    ensures Paired(Do(s, a))
  {
    hide RecoveredTable;
    assert Do(s, a).workers == map[] && Do(s, a).active == {};
  }

  lemma OthersPair(s: Sys, a: Act)
    requires Paired(s) && Enabled(s, a)
    requires !a.Register? && !a.Cleanup? && !a.StopDone? && !a.Crash? && !a.Start?
    ensures Paired(Do(s, a))
  {
    hide Paired, OutcomeTable, Operated, IsNext;
    SameJobsPair(s, Do(s, a));
  }

  lemma PairedStep(s: Sys, a: Act)
    requires Inv(s) && Paired(s) && !Doubles(s, a)
    ensures Paired(Step(s, a))
  {
    hide Paired, Doubles, Do;
    if !Enabled(s, a) {
    } else if a.Register? {
      RegisterPairs(s);
    } else if a.Cleanup? {
      CleanupPairs(s, a.tok);
    } else if a.StopDone? || a.Crash? || a.Start? {
      DownPairs(s, a);
    } else {
      OthersPair(s, a);
    }
  }

  /** A second worker for a job breaks the correspondence at once. */
  lemma DoubleUnpairs(s: Sys, a: Act)
    requires Inv(s) && Doubles(s, a)
    ensures !Paired(Step(s, a))
  {
    var n := Do(s, a);
    var t :| t in s.workers && s.workers[t].job == s.disp.id;
    assert t in n.workers && s.nextTok in n.workers && n.workers[t].job == n.workers[s.nextTok].job && t != s.nextTok;
  }

  /** One worker per job, as many as entries of activeJobs, at every moment of a run: that
      holds if and only if no worker was ever started for a job that still had one. */
  lemma {:induction false} OneWorkerPerJob(acts: seq<Act>)
    ensures AlwaysPaired(acts) <==> NoDoubles(acts)
    decreases |acts|
  {
    if acts != [] {
      var before, a := Earlier(acts), Last(acts);
      OneWorkerPerJob(before);
      InvExec(INIT, before);
      AfterLast(acts);
      hide Inv, Paired;
      if Doubles(After(before), a) { DoubleUnpairs(After(before), a); }
      else if AlwaysPaired(before) { PairedStep(After(before), a); }
    }
  }

  /* ---- the limit ---- */

  function Heading(s: Sys): nat {
    |s.active| + (if s.disp.Room? || s.disp.Hand? then 1 else 0)
  }

  lemma HeadingStep(s: Sys, a: Act, bound: int)
    requires Heading(s) <= bound && s.limit <= bound
    ensures Heading(Step(s, a)) <= bound
  {
    if Enabled(s, a) && a.Cleanup? {
      var id := s.workers[a.tok].job;
      if id !in s.active { assert s.active - {id} == s.active; }
    }
  }

  /** The active map never outgrows the largest limit in force so far, in any run. */
  lemma {:induction false} ActiveBounded(acts: seq<Act>)
    ensures Heading(After(acts)) <= LargestLimit(acts) && After(acts).limit <= LargestLimit(acts)
    ensures 0 <= LargestLimit(acts)
    decreases |acts|
  {
    if acts != [] {
      ActiveBounded(Earlier(acts));
      AfterLast(acts);
      HeadingStep(After(Earlier(acts)), Last(acts), LargestLimit(Earlier(acts)));
    }
  }

  /** And while no job ever had two workers, neither do the workers themselves. */
  lemma LiveWorkersBounded(acts: seq<Act>)
    requires NoDoubles(acts)
    ensures |After(acts).workers| <= LargestLimit(acts)
  {
    OneWorkerPerJob(acts);
    ActiveBounded(acts);
  }

  /* ---- who executes a job ---- */

  predicate Executes(s: Sys, t: Tok) {
    t in s.workers && !s.workers[t].wrote
  }

  /** At most one worker executes any job, none while the dispatcher holds it. */
  ghost predicate Exclusive(s: Sys) {
    && (forall t, u :: Executes(s, t) && Executes(s, u) && s.workers[t].job == s.workers[u].job ==> t == u)
    && (forall t :: Executes(s, t) ==> s.disp != Hand(s.workers[t].job))
  }

  /** The action claims a job that is still executing. */
  predicate Overlaps(s: Sys, a: Act) {
    a.Claim? && Enabled(s, a) && exists t :: t in s.workers && s.workers[t].job == a.id && !s.workers[t].wrote
  }

  ghost predicate AlwaysExclusive(acts: seq<Act>)
    decreases |acts|
  {
    Exclusive(After(acts)) && (acts != [] ==> AlwaysExclusive(Earlier(acts)))
  }

  predicate NoOverlaps(acts: seq<Act>)
    decreases |acts|
  {
    acts != [] ==> NoOverlaps(Earlier(acts)) && !Overlaps(After(Earlier(acts)), Last(acts))
  }

  lemma ExclusiveStep(s: Sys, a: Act)
    requires IdsOk(s) && Exclusive(s) && !Overlaps(s, a)
    ensures Exclusive(Step(s, a))
  {
    hide OutcomeTable, Operated, RecoveredTable, IsNext;
  }

  lemma OverlapBreaks(s: Sys, a: Act)
    requires Overlaps(s, a)
    ensures !Exclusive(Step(s, a))
  {
    var t :| t in s.workers && s.workers[t].job == a.id && !s.workers[t].wrote;
    var n := Do(s, a);
    assert n.workers[t] == s.workers[t] && n.disp == Hand(n.workers[t].job);
  }

  /** No job is ever executed twice at a time if and only if none was ever claimed while
      it was still executing. */
  lemma {:induction false} OneExecutionPerJob(acts: seq<Act>)
    ensures AlwaysExclusive(acts) <==> NoOverlaps(acts)
    decreases |acts|
  {
    if acts != [] {
      var before, a := Earlier(acts), Last(acts);
      OneExecutionPerJob(before);
      InvExec(INIT, before);
      AfterLast(acts);
      if Overlaps(After(before), a) { OverlapBreaks(After(before), a); }
      else if AlwaysExclusive(before) {
        hide Exclusive, Overlaps;
        ExclusiveStep(After(before), a);
      }
    }
  }

  /* ---- what operators and workers have to observe ---- */

  /** Retrying or unquarantining a job that is held or being executed. */
  predicate RequeuesLive(s: Sys, a: Act) {
    a.Operate? && (a.op.RetryOp? || a.op.UnquarantineOp?) && Enabled(s, a) && exists id :: id in a.ids && Live(s, id)
  }

  predicate Respectful(acts: seq<Act>)
    decreases |acts|
  {
    acts != [] ==> Respectful(Earlier(acts)) && !RequeuesLive(After(Earlier(acts)), Last(acts))
  }

  predicate Waits(t: Table, id: Id) {
    id in t && (t[id].state.Queued? || t[id].state.Paused?)
  }

  /** No waiting row is held or being executed. */
  ghost predicate WaitingIdle(s: Sys) {
    forall id :: Waits(s.jobs, id) ==> !Live(s, id)
  }

  lemma OperatedWaits(op: Op, t: Table, ids: set<Id>, id: Id)
    requires Waits(Operated(op, t, ids), id)
    ensures Waits(t, id) || (id in ids && (op.RetryOp? || op.UnquarantineOp?))
  {}

  lemma OutcomeWaits(t: Table, w: Worker, result: Result, id: Id)
    requires Waits(OutcomeTable(t, w, result), id)
    ensures id == w.job || Waits(t, id)
  {}

  lemma LiveAfter(s: Sys, a: Act, id: Id)
    requires IdsOk(s) && Enabled(s, a) && Live(Do(s, a), id)
    ensures Live(s, id) || a == Claim(id)
  {
    hide OutcomeTable, Operated, RecoveredTable, IsNext;
    var n := Do(s, a);
    if n.disp != Hand(id) {
      var t :| t in n.workers && n.workers[t].job == id && !n.workers[t].wrote;
      if t in s.workers { assert s.workers[t].job == id && !s.workers[t].wrote; }
    }
  }

  /** Its outcome takes a job's only executing worker away. */
  lemma OutcomeFrees(s: Sys, a: Act)
    requires Exclusive(s) && a.Outcome? && Enabled(s, a)
    ensures !Live(Do(s, a), s.workers[a.tok].job)
  {
    hide OutcomeTable;
  }

  lemma NewRowIdle(s: Sys, a: Act)
    requires IdsOk(s) && a.Enqueue? && Enabled(s, a)
    ensures !Live(Do(s, a), s.lastId + 1)
  {}

  lemma WaitingAt(s: Sys, a: Act, id: Id)
    requires Inv(s) && Exclusive(s) && WaitingIdle(s) && Enabled(s, a) && !RequeuesLive(s, a) && Waits(Do(s, a).jobs, id)
    ensures !Live(Do(s, a), id)
  {
    if Live(Do(s, a), id) {
      LiveAfter(s, a, id);
    }
    if a.Operate? {
      OperatedWaits(a.op, s.jobs, a.ids, id);
    } else if a.Outcome? {
      OutcomeWaits(s.jobs, s.workers[a.tok], a.result, id);
      OutcomeFrees(s, a);
    } else if a.Enqueue? {
      NewRowIdle(s, a);
    }
    hide OutcomeTable, Operated, Exclusive;
  }

  lemma NoOverlapThen(s: Sys, a: Act)
    requires WaitingIdle(s)
    ensures !Overlaps(s, a)
  {
    if a.Claim? && Enabled(s, a) {
      assert IsNext(s.jobs, a.id);
      assert Waits(s.jobs, a.id);
    }
  }

  lemma RespectfulStep(s: Sys, a: Act)
    requires Inv(s) && Exclusive(s) && WaitingIdle(s) && !RequeuesLive(s, a)
    ensures Exclusive(Step(s, a)) && WaitingIdle(Step(s, a))
  {
    NoOverlapThen(s, a);
    ExclusiveStep(s, a);
    if Enabled(s, a) {
      forall id | Waits(Do(s, a).jobs, id) ensures !Live(Do(s, a), id) { WaitingAt(s, a, id); }
    }
  }

  /** Operators who requeue only jobs nobody holds or executes are enough for exclusive
      execution, and no waiting row is ever held or executed; cleanups may come late. */
  lemma {:induction false} RespectfulIsExclusive(acts: seq<Act>)
    requires Respectful(acts)
    ensures AlwaysExclusive(acts) && WaitingIdle(After(acts))
    decreases |acts|
  {
    if acts != [] {
      RespectfulIsExclusive(Earlier(acts));
      InvExec(INIT, Earlier(acts));
      AfterLast(acts);
      hide Inv, Exclusive, WaitingIdle, RequeuesLive;
      RespectfulStep(After(Earlier(acts)), Last(acts));
    }
  }

  /** A worker's cleanup directly follows its outcome. */
  predicate Prompt(acts: seq<Act>)
    decreases |acts|
  {
    acts != [] ==>
      Prompt(Earlier(acts)) && forall t :: t in After(Earlier(acts)).workers && After(Earlier(acts)).workers[t].wrote ==>
        Last(acts) == Cleanup(t)
  }

  /** Together the two conditions rule out second workers, so that all of the above
      holds. */
  lemma {:induction false} CarefulRuns(acts: seq<Act>)
    requires Respectful(acts) && Prompt(acts)
    ensures NoDoubles(acts) && NoOverlaps(acts)
    ensures AlwaysPaired(acts) && AlwaysExclusive(acts) && |After(acts).workers| <= LargestLimit(acts)
    decreases |acts|
  {
    RespectfulIsExclusive(acts);
    OneExecutionPerJob(acts);
    if acts != [] {
      CarefulRuns(Earlier(acts));
      RespectfulIsExclusive(Earlier(acts));
      assert !Doubles(After(Earlier(acts)), Last(acts));
    }
    OneWorkerPerJob(acts);
    LiveWorkersBounded(acts);
  }

  /* ---- neither condition can be dropped ---- */

  const ANY := Row(Queued, 0, "s", "/", 0, 0, 3)

  lemma ExecMore(s: Sys, acts: seq<Act>, a: Act)
    ensures Exec(s, acts + [a]) == Step(Exec(s, acts), a)
  {
    assert (acts + [a])[..|acts|] == acts;
  }

  lemma ExecOne(s: Sys, a: Act)
    ensures Exec(s, [a]) == Step(s, a)
  {
    ExecMore(s, [], a);
    assert [] + [a] == [a];
  }

  lemma ExecFive(s: Sys, a: Act, b: Act, c: Act, d: Act, e: Act)
    ensures Exec(s, [a, b, c, d, e]) == Step(Step(Step(Step(Step(s, a), b), c), d), e)
  {
    ExecThree(s, a, b, c);
    hide Exec;
    ExecMore(s, [a, b, c], d);
    ExecMore(s, [a, b, c, d], e);
    assert [a, b, c] + [d] == [a, b, c, d] && [a, b, c, d] + [e] == [a, b, c, d, e];
  }

  lemma ExecThree(s: Sys, a: Act, b: Act, c: Act)
    ensures Exec(s, [a, b, c]) == Step(Step(Step(s, a), b), c)
  {
    ExecMore(s, [], a);
    ExecMore(s, [a], b);
    ExecMore(s, [a, b], c);
    assert [] + [a] == [a] && [a] + [b] == [a, b] && [a, b] + [c] == [a, b, c];
  }

  lemma ReadsRoom(s: Sys)
    requires s.up && s.disp.Top? && !s.stopping && !s.paused && |s.active| < s.limit
    ensures Step(s, ReadLimits) == s.(disp := Room)
  {}

  function Registered(s: Sys, id: Id): Sys {
    s.(active := s.active + {id}, cancels := s.cancels[id := s.nextTok], disp := Top,
       workers := s.workers[s.nextTok := Worker(id, false, false)], nextTok := s.nextTok + 1)
  }

  lemma Registers(s: Sys)
    requires s.up && s.disp.Hand?
    ensures Step(s, Register) == Registered(s, s.disp.id)
  {}

  function Submitted(s: Sys): Sys {
    s.(jobs := s.jobs[s.lastId + 1 := ANY], lastId := s.lastId + 1)
  }

  lemma Submits(s: Sys)
    requires s.up
    ensures Step(s, Enqueue(ANY)) == Submitted(s)
  {}

  function InHand(s: Sys, id: Id): Sys
    requires id in s.jobs
  {
    s.(jobs := s.jobs[id := s.jobs[id].(state := Running)], disp := Hand(id))
  }

  lemma ClaimOnly(s: Sys, id: Id)
    requires s.up && s.disp.Room? && QueuedIn(s.jobs, id)
    requires forall j :: j in s.jobs && s.jobs[j].state.Queued? ==> j == id
    ensures Step(s, Claim(id)) == InHand(s, id)
  {
    BeforeIrreflexive(s.jobs, s.jobs[id]);
  }

  function Taken(s: Sys, id: Id): Sys
    requires id in s.jobs
  {
    Registered(InHand(s.(disp := Room), id), id)
  }

  /** From an idle dispatcher with room: read, claim the one queued job, register. */
  lemma TakeOne(s: Sys, id: Id)
    requires s.up && s.disp.Top? && !s.stopping && !s.paused && |s.active| < s.limit
    requires QueuedIn(s.jobs, id) && forall j :: j in s.jobs && s.jobs[j].state.Queued? ==> j == id
    ensures Exec(s, [ReadLimits, Claim(id), Register]) == Taken(s, id)
  {
    ExecThree(s, ReadLimits, Claim(id), Register);
    hide Exec, Step;
    ReadsRoom(s);
    ClaimOnly(s.(disp := Room), id);
    Registers(InHand(s.(disp := Room), id));
  }

  lemma {:induction false} ExecJoin(s: Sys, a: seq<Act>, b: seq<Act>)
    ensures Exec(s, a + b) == Exec(Exec(s, a), b)
    decreases |b|
  {
    if b == [] { assert a + b == a; }
    else {
      ExecJoin(s, a, b[..|b| - 1]);
      assert (a + b)[..|a + b| - 1] == a + b[..|b| - 1];
    }
  }

  /** A daemon whose only job runs in worker 0. */
  const ONE_RUNNING := [Start, Enqueue(ANY)] + [ReadLimits, Claim(1), Register]

  lemma OneRunning()
    ensures After(ONE_RUNNING) == INIT.(jobs := map[1 := ANY.(state := Running)], lastId := 1, up := true, limit := 2,
              active := {1}, cancels := map[1 := 0], disp := Top, workers := map[0 := Worker(1, false, false)], nextTok := 1)
  {
    ExecMore(INIT, [], Start);
    ExecMore(INIT, [Start], Enqueue(ANY));
    assert [] + [Start] == [Start] && [Start] + [Enqueue(ANY)] == [Start, Enqueue(ANY)];
    var s := After([Start, Enqueue(ANY)]);
    assert s.jobs == map[1 := ANY] && s.active == {} && s.limit == 2;
    hide Exec, Step;
    TakeOne(s, 1);
    ExecJoin(INIT, [Start, Enqueue(ANY)], [ReadLimits, Claim(1), Register]);
  }

  /** With room seen, worker 0 fails, its job is claimed and registered again, and only
      then does worker 0 clean up. */
  const LATE_CLEANUP := [ReadLimits, Outcome(0, Failure), Claim(1), Register, Cleanup(0)]

  lemma Fails(s: Sys, tok: Tok)
    requires s.up && tok in s.workers && !s.workers[tok].wrote && !s.workers[tok].cancelled
    ensures Step(s, Outcome(tok, Failure))
         == s.(jobs := FailedAndRetried(s.jobs, s.workers[tok].job), workers := s.workers[tok := s.workers[tok].(wrote := true)])
  {}

  lemma CleansUp(s: Sys, tok: Tok)
    requires s.up && tok in s.workers && s.workers[tok].wrote
    ensures var id := s.workers[tok].job;
      Step(s, Cleanup(tok)) == s.(active := s.active - {id}, cancels := s.cancels - {id}, workers := s.workers - {tok})
  {}

  lemma LateCleanup(s: Sys)
    requires s == After(ONE_RUNNING)
    ensures Exec(s, LATE_CLEANUP) == s.(jobs := map[1 := ANY.(state := Running, retries := 1)], active := {}, cancels := map[],
              workers := map[1 := Worker(1, false, false)], nextTok := 2)
  {
    OneRunning();
    ExecFive(s, ReadLimits, Outcome(0, Failure), Claim(1), Register, Cleanup(0));
    hide Exec, Step;
    ReadsRoom(s);
    var s1 := s.(disp := Room);
    Fails(s1, 0);
    assert FailedAndRetried(s.jobs, 1) == map[1 := ANY.(retries := 1)];
    assert s.workers[0 := Worker(1, true, false)] == map[0 := Worker(1, true, false)];
    var s2 := s1.(jobs := map[1 := ANY.(retries := 1)], workers := map[0 := Worker(1, true, false)]);
    ClaimOnly(s2, 1);
    Registers(InHand(s2, 1));
    CleansUp(Registered(InHand(s2, 1), 1), 0);
    LateEnd(s2);
  }

  lemma LateEnd(s: Sys)
    requires s.workers == map[0 := Worker(1, true, false)] && s.jobs.Keys == {1} && s.active == {1}
    requires s.cancels == map[1 := 0]
    requires s.nextTok == 1
    ensures var n := Registered(InHand(s, 1), 1);
      && n.workers - {0} == map[1 := Worker(1, false, false)] && n.cancels - {1} == map[] && n.active - {1} == {}
      && n.jobs == map[1 := s.jobs[1].(state := Running)]
  {}

  const TWO_MORE := ([Enqueue(ANY)] + [ReadLimits, Claim(2), Register]) + ([Enqueue(ANY)] + [ReadLimits, Claim(3), Register])

  /** A worker's outcome is written but its cleanup comes late: its job is claimed again
      in between, the cleanup removes the new worker's entry, and three jobs end up
      executing although the limit was 2 all along and no operator did anything but
      submit jobs. */
  lemma LateCleanupBreaksLimit()
    ensures var acts := ONE_RUNNING + LATE_CLEANUP + TWO_MORE; var s := After(acts);
      && s.limit == 2 && (forall a :: a in acts ==> !a.SetLimit? && !a.StoreLimit? && !a.Operate? && !a.Crash?)
      && s.workers == map[1 := Worker(1, false, false), 2 := Worker(2, false, false), 3 := Worker(3, false, false)]
      && s.active == {2, 3}
  {
    hide Exec, Step, Taken, Finished, FailedAndRetried;
    var s := After(ONE_RUNNING + LATE_CLEANUP);
    OneRunning();
    LateCleanup(After(ONE_RUNNING));
    ExecJoin(INIT, ONE_RUNNING, LATE_CLEANUP);
    ExecJoin(s, [Enqueue(ANY)] + [ReadLimits, Claim(2), Register], [Enqueue(ANY)] + [ReadLimits, Claim(3), Register]);
    ExecJoin(INIT, ONE_RUNNING + LATE_CLEANUP, TWO_MORE);
    NobodyInterferes();
    TwoTaken(s);
    SubmitAndTake(s);
    SubmitAndTake(Taken(Submitted(s), 2));
  }

  lemma NobodyInterferes()
    ensures forall a :: a in ONE_RUNNING + LATE_CLEANUP + TWO_MORE ==>
              !a.SetLimit? && !a.StoreLimit? && !a.Operate? && !a.Crash?
  {}

  lemma TwoTaken(s: Sys)
    requires s.workers == map[1 := Worker(1, false, false)] && s.active == {} && s.lastId == 1 && s.nextTok == 2
    requires s.jobs.Keys == {1} && !s.jobs[1].state.Queued?
    ensures var n := Taken(Submitted(s), 2);
      && n == s.(jobs := n.jobs, lastId := 2, active := {2}, cancels := n.cancels, disp := Top, workers := n.workers, nextTok := 3)
      && (forall j :: j in n.jobs ==> !n.jobs[j].state.Queued?)
      && Taken(Submitted(n), 3).active == {2, 3}
      && Taken(Submitted(n), 3).limit == s.limit
      && Taken(Submitted(n), 3).workers
         == map[1 := Worker(1, false, false), 2 := Worker(2, false, false), 3 := Worker(3, false, false)]
  {}

  lemma SubmitAndTake(s: Sys)
    requires s.up && s.disp.Top? && !s.stopping && !s.paused && |s.active| < s.limit
    requires forall j :: j in s.jobs ==> !s.jobs[j].state.Queued?
    ensures var id := s.lastId + 1;
      Exec(s, [Enqueue(ANY)] + [ReadLimits, Claim(id), Register]) == Taken(Submitted(s), id)
  {
    var id := s.lastId + 1;
    ExecOne(s, Enqueue(ANY));
    ExecJoin(s, [Enqueue(ANY)], [ReadLimits, Claim(id), Register]);
    hide Exec, Step, Taken;
    Submits(s);
    TakeOne(Submitted(s), id);
  }

  const RETRIED := [Operate(RetryOp, {1})] + [ReadLimits, Claim(1), Register]

  /** RetryJob has no state guard: retrying a running job gives it a second worker, even
      though no worker has reached its outcome yet. */
  lemma RetryBreaksExclusion()
    ensures After(ONE_RUNNING + RETRIED).workers == map[0 := Worker(1, false, false), 1 := Worker(1, false, false)]
  {
    OneRunning();
    var s := After(ONE_RUNNING);
    ExecJoin(INIT, ONE_RUNNING, RETRIED);
    ExecMore(s, [], Operate(RetryOp, {1}));
    assert [] + [Operate(RetryOp, {1})] == [Operate(RetryOp, {1})];
    assert Hits(RetryOp, s.jobs, {1}) == {1};
    var s1 := Exec(s, [Operate(RetryOp, {1})]);
    assert s1.jobs == map[1 := ANY];
    TakeOne(s1, 1);
    ExecJoin(s, [Operate(RetryOp, {1})], [ReadLimits, Claim(1), Register]);
  }
}
