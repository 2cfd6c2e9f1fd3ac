/** Safety of mirrord's queue over every interleaving, crash and restart. */
module QueueSafety {
  import opened Common
  import opened JobTable
  import opened QueueModel

  /* ---- running rows are owned ---- */

  /** In every reachable state of a daemon that is up, a running row is in the
      dispatcher's hand or has a worker that has not written its outcome. */
  lemma RunningIsOwned(acts: seq<Act>, id: Id)
    requires After(acts).up && id in After(acts).jobs && After(acts).jobs[id].state.Running?
    ensures Live(After(acts), id)
  {
    InvExec(INIT, acts);
  }

  /** When Stop returns no row is running; right after Start's recovery none is either,
      whatever crash came before. */
  lemma NoneRunningAcrossRestart(acts: seq<Act>, a: Act, id: Id)
    requires a.StopDone? || a.Start?
    requires Enabled(After(acts), a) && id in Do(After(acts), a).jobs
    ensures !Do(After(acts), a).jobs[id].state.Running?
  {
    if a.StopDone? && After(acts).jobs[id].state.Running? { RunningIsOwned(acts, id); }
  }

  /* ---- how often one job can be claimed ---- */

  /** The action gives the job a fresh retry budget. */
  predicate Resets(s: Sys, a: Act, id: Id) {
    a.Operate? && (a.op.RetryOp? || a.op.UnquarantineOp?) && Enabled(s, a) && id in Hits(a.op, s.jobs, a.ids)
  }

  /** Claims of a job since it was last retried or unquarantined by an operator. */
  ghost function ClaimsSince(acts: seq<Act>, id: Id): nat
    decreases |acts|
  {
    if acts == [] then 0
    else
      var before, a := acts[..|acts| - 1], acts[|acts| - 1];
      if Resets(After(before), a, id) then 0
      else ClaimsSince(before, id) + (if a == Claim(id) && Enabled(After(before), a) then 1 else 0)
  }

  /** A waiting job has been claimed at most once per counted retry. */
  ghost predicate Budget(claims: nat, r: Row) {
    && claims <= r.retries + 1
    && (r.state.Queued? || r.state.Paused? ==> claims <= r.retries)
    && claims <= r.maxRetries + 1
  }

  /** The claim count after one more action. */
  ghost function Counted(s: Sys, a: Act, id: Id, claims: nat): nat {
    if Resets(s, a, id) then 0 else claims + (if a == Claim(id) && Enabled(s, a) then 1 else 0)
  }

  lemma CountedAfter(before: seq<Act>, a: Act, id: Id)
    ensures After(before + [a]) == Step(After(before), a)
    ensures ClaimsSince(before + [a], id) == Counted(After(before), a, id, ClaimsSince(before, id))
  {
    assert (before + [a])[..|before|] == before;
  }

  lemma OutcomeBudget(t: Table, w: Worker, result: Result, id: Id, claims: nat)
    requires id in t && Budget(claims, t[id])
    ensures id in OutcomeTable(t, w, result) && Budget(claims, OutcomeTable(t, w, result)[id])
  {}

  lemma OperatedBudget(op: Op, t: Table, ids: set<Id>, id: Id, claims: nat)
    requires id in t && id in Operated(op, t, ids) && Budget(claims, t[id])
    ensures Budget(if (op.RetryOp? || op.UnquarantineOp?) && id in Hits(op, t, ids) then 0 else claims, Operated(op, t, ids)[id])
  {}

  lemma OperatedShrinks(op: Op, t: Table, ids: set<Id>)
    ensures Operated(op, t, ids).Keys <= t.Keys
  {}

  lemma OutcomeShrinks(t: Table, w: Worker, result: Result)
    ensures OutcomeTable(t, w, result).Keys <= t.Keys
  {}

  lemma RecoveredBudget(t: Table, id: Id, claims: nat)
    requires id in t && Budget(claims, t[id])
    ensures Budget(claims, RecoveredTable(t)[id])
  {}

  lemma BudgetStep(s: Sys, a: Act, id: Id, claims: nat)
    requires RowsOk(s)
    requires id > s.lastId ==> claims == 0
    requires id in s.jobs ==> Budget(claims, s.jobs[id])
    ensures id > Step(s, a).lastId ==> Counted(s, a, id, claims) == 0
    ensures id in Step(s, a).jobs ==> Budget(Counted(s, a, id, claims), Step(s, a).jobs[id])
  {
    if Enabled(s, a) {
      match a
      case Operate(op, ids) =>
        OperatedShrinks(op, s.jobs, ids);
        hide Hits, Operated, Budget;
        if id in Operated(op, s.jobs, ids) { OperatedBudget(op, s.jobs, ids, id, claims); }
      case Outcome(tok, result) =>
        OutcomeShrinks(s.jobs, s.workers[tok], result);
        hide OutcomeTable, Budget;
        if id in s.jobs { OutcomeBudget(s.jobs, s.workers[tok], result, id, claims); }
      case Start =>
        hide Recovered, Budget;
        if id in s.jobs { RecoveredBudget(s.jobs, id, claims); }
      case Claim(_) => ClaimBudget(s, a, id, claims);
      case _ =>
        hide OutcomeTable, Operated, RecoveredTable, IsNext, Budget, Hits;
    }
  }

  lemma ClaimBudget(s: Sys, a: Act, id: Id, claims: nat)
    requires RowsOk(s) && a.Claim? && Enabled(s, a)
    requires id > s.lastId ==> claims == 0
    requires id in s.jobs ==> Budget(claims, s.jobs[id])
    ensures id > Do(s, a).lastId ==> Counted(s, a, id, claims) == 0
    ensures id in Do(s, a).jobs ==> Budget(Counted(s, a, id, claims), Do(s, a).jobs[id])
  {}

  lemma {:induction false} BudgetHolds(acts: seq<Act>, id: Id)
    ensures id > After(acts).lastId ==> ClaimsSince(acts, id) == 0
    ensures id in After(acts).jobs ==> Budget(ClaimsSince(acts, id), After(acts).jobs[id])
    decreases |acts|
  {
    if acts != [] {
      var before, a := acts[..|acts| - 1], acts[|acts| - 1];
      BudgetHolds(before, id);
      InvExec(INIT, before);
      BudgetStep(After(before), a, id, ClaimsSince(before, id));
      CountedAfter(before, a, id);
      assert acts == before + [a];
    }
  }

  /** Over any interleaving and any number of crashes and restarts, a job is claimed at
      most max_retries + 1 times between operator resets. */
  lemma ClaimsBounded(acts: seq<Act>, id: Id)
    requires id in After(acts).jobs
    ensures ClaimsSince(acts, id) <= After(acts).jobs[id].maxRetries + 1
  {
    BudgetHolds(acts, id);
  }

  /** A waiting job has a retry left. */
  ghost predicate Spare(t: Table) {
    forall id :: id in t && (t[id].state.Queued? || t[id].state.Paused?) ==> t[id].retries < t[id].maxRetries
  }

  ghost predicate NoneRunning(t: Table) {
    forall id :: id in t ==> !t[id].state.Running?
  }

  /** Without a crash every waiting job still has a retry left, and a daemon that is
      down has no running row to recover. */
  ghost predicate Unharmed(s: Sys) {
    Spare(s.jobs) && (!s.up ==> NoneRunning(s.jobs))
  }

  lemma OperatedSpare(op: Op, t: Table, ids: set<Id>, last: Id)
    requires Spare(t) && TableOk(t, last)
    ensures Spare(Operated(op, t, ids))
  {}

  lemma OutcomeSpare(t: Table, w: Worker, result: Result, last: Id)
    requires Spare(t) && TableOk(t, last)
    ensures Spare(OutcomeTable(t, w, result))
  {
    OperatedSpare(QuarantineOp, t, {w.job}, last);
  }

  lemma RecoveredSpare(t: Table)
    requires Spare(t) && NoneRunning(t)
    ensures Spare(RecoveredTable(t))
  {}

  lemma StoppedIsIdle(s: Sys)
    requires Inv(s) && Enabled(s, StopDone)
    ensures NoneRunning(s.jobs)
  {
    forall id | id in s.jobs ensures !s.jobs[id].state.Running? { assert !Live(s, id); }
  }

  lemma UnharmedStep(s: Sys, a: Act)
    requires Inv(s) && Unharmed(s) && !a.Crash?
    ensures Unharmed(Step(s, a))
  {
    if Enabled(s, a) {
      hide OutcomeTable, Operated, RecoveredTable, Owned, MapsOk;
      match a
      case StopDone => StoppedIsIdle(s);
      case Operate(op, ids) => OperatedSpare(op, s.jobs, ids, s.lastId);
      case Outcome(tok, result) => OutcomeSpare(s.jobs, s.workers[tok], result, s.lastId);
      case Start => RecoveredSpare(s.jobs);
      case _ =>
    }
  }

  lemma {:induction false} UnharmedWithoutCrash(acts: seq<Act>)
    requires Crash !in acts
    ensures Unharmed(After(acts))
    decreases |acts|
  {
    if acts != [] {
      var before, a := acts[..|acts| - 1], acts[|acts| - 1];
      UnharmedWithoutCrash(before);
      InvExec(INIT, before);
      UnharmedStep(After(before), a);
    }
  }

  lemma UnharmedBudget(s: Sys, a: Act, id: Id, claims: nat)
    requires RowsOk(s) && Unharmed(s)
    requires id > s.lastId ==> claims == 0
    requires id in s.jobs ==> Budget(claims, s.jobs[id]) && claims <= s.jobs[id].maxRetries
    ensures id in Step(s, a).jobs ==> Counted(s, a, id, claims) <= Step(s, a).jobs[id].maxRetries
  {
    if Enabled(s, a) && a.Operate? {}
  }

  /** If the daemon never crashes (restarts through Stop are fine) the bound is
      max_retries itself. */
  lemma {:induction false} ClaimsBoundedWithoutCrash(acts: seq<Act>, id: Id)
    requires Crash !in acts && id in After(acts).jobs
    ensures ClaimsSince(acts, id) <= After(acts).jobs[id].maxRetries
    decreases |acts|
  {
    if acts != [] {
      var before, a := acts[..|acts| - 1], acts[|acts| - 1];
      assert acts == before + [a];
      CountedAfter(before, a, id);
      UnharmedWithoutCrash(before);
      BudgetHolds(before, id);
      InvExec(INIT, before);
      if id in After(before).jobs { ClaimsBoundedWithoutCrash(before, id); }
      UnharmedBudget(After(before), a, id, ClaimsSince(before, id));
    }
  }

  const ONCE := Row(Queued, 0, "s", "/", 0, 0, 1)

  /** One job with max_retries 1 is claimed and the daemon killed while it runs: recovery
      queues it again with its budget already used up, so it is claimed a second time. */
  const FIRST_LIFE := [Start, Enqueue(ONCE), ReadLimits, Claim(1)]
  const SECOND_LIFE := [Crash, Start, ReadLimits, Claim(1)]

  lemma OneRow(s: Sys)
    requires s.jobs.Keys == {1} && s.jobs[1].state.Queued?
    ensures IsNext(s.jobs, 1)
  {
    BeforeIrreflexive(s.jobs, s.jobs[1]);
  }

  lemma FirstLife()
    ensures After(FIRST_LIFE).jobs == map[1 := ONCE.(state := Running)]
    ensures ClaimsSince(FIRST_LIFE, 1) == 1
    ensures var s := After(FIRST_LIFE); s.up && s.storedPaused.None? && s.storedLimit.None?
  {
    assert After([]) == INIT && ClaimsSince([], 1) == 0;
    hide Exec, After, ClaimsSince;
    CountedAfter([], Start, 1);
    CountedAfter([Start], Enqueue(ONCE), 1);
    CountedAfter([Start, Enqueue(ONCE)], ReadLimits, 1);
    CountedAfter([Start, Enqueue(ONCE), ReadLimits], Claim(1), 1);
    assert [] + [Start] == [Start] && [Start] + [Enqueue(ONCE)] == [Start, Enqueue(ONCE)];
    assert [Start, Enqueue(ONCE)] + [ReadLimits] == [Start, Enqueue(ONCE), ReadLimits];
    assert [Start, Enqueue(ONCE), ReadLimits] + [Claim(1)] == FIRST_LIFE;
    OneRow(After([Start, Enqueue(ONCE), ReadLimits]));
  }

  /** The bound of ClaimsBounded is reached, so the crash-free one fails with crashes. */
  lemma CrashBoundIsReached()
    ensures 1 in After(FIRST_LIFE + SECOND_LIFE).jobs
    ensures ClaimsSince(FIRST_LIFE + SECOND_LIFE, 1) == After(FIRST_LIFE + SECOND_LIFE).jobs[1].maxRetries + 1
  {
    hide Exec, After, ClaimsSince;
    FirstLife();
    var f := FIRST_LIFE;
    CountedAfter(f, Crash, 1);
    CountedAfter(f + [Crash], Start, 1);
    CountedAfter(f + [Crash] + [Start], ReadLimits, 1);
    OneRow(After(f + [Crash] + [Start] + [ReadLimits]));
    CountedAfter(f + [Crash] + [Start] + [ReadLimits], Claim(1), 1);
    assert f + [Crash] + [Start] + [ReadLimits] + [Claim(1)] == FIRST_LIFE + SECOND_LIFE;
  }

  /* ---- pausing and lowering the limit ---- */

  ghost function Claims(s: Sys, acts: seq<Act>): nat
    decreases |acts|
  {
    if acts == [] then 0
    else
      var before, a := acts[..|acts| - 1], acts[|acts| - 1];
      Claims(s, before) + (if a.Claim? && Enabled(Exec(s, before), a) then 1 else 0)
  }

  predicate Unpauses(a: Act) {
    a == SetPaused(false) || a == StorePaused(false)
  }

  /** Once Pause has taken effect in memory and in the database, at most one more job is
      claimed before a Resume, whatever else happens, restarts included; none at all
      unless the dispatcher had already passed its check. */
  lemma {:induction false} PauseStopsClaims(s: Sys, acts: seq<Act>)
    requires s.paused && s.storedPaused == Some(true)
    requires forall a :: a in acts ==> !Unpauses(a)
    ensures Claims(s, acts) <= 1
    ensures !s.disp.Room? ==> Claims(s, acts) == 0
    ensures var n := Exec(s, acts);
      && n.paused && n.storedPaused == Some(true)
      && (n.disp.Room? ==> s.disp.Room? && Claims(s, acts) == 0)
    decreases |acts|
  {
    if acts != [] {
      var before, a := acts[..|acts| - 1], acts[|acts| - 1];
      PauseStopsClaims(s, before);
      assert a in acts;
      PausedStep(Exec(s, before), a);
      hide Step, Enabled, Unpauses;
    }
  }

  lemma PausedStep(s: Sys, a: Act)
    requires s.paused && s.storedPaused == Some(true) && !Unpauses(a)
    ensures var n := Step(s, a);
      && n.paused && n.storedPaused == Some(true) && (n.disp.Room? ==> s.disp.Room?)
      && (a.Claim? && Enabled(s, a) ==> s.disp.Room? && !n.disp.Room?)
  {
    hide OutcomeTable, Operated, RecoveredTable, IsNext;
  }

  predicate Raises(a: Act, n: int) {
    (a.SetLimit? || a.StoreLimit?) && a.n > n
  }

  function Pending(s: Sys): nat { if s.disp.Room? || s.disp.Hand? then 1 else 0 }

  function Max(a: int, b: int): int { if a < b then b else a }

  /** After the limit is lowered to n while a jobs are active, the active set never
      grows past max(n, a + 1) until someone raises the limit above n, although the
      dispatcher may still act on the values it read before. */
  lemma {:induction false} LoweredLimitHolds(s: Sys, acts: seq<Act>, n: int)
    requires s.limit <= n && LimitOnStart(s) <= n
    requires forall a :: a in acts ==> !Raises(a, n)
    ensures |Exec(s, acts).active| + Pending(Exec(s, acts)) <= Max(n, |s.active| + 1)
    ensures Exec(s, acts).limit <= n && LimitOnStart(Exec(s, acts)) <= n
    decreases |acts|
  {
    if acts != [] {
      var before, a := acts[..|acts| - 1], acts[|acts| - 1];
      LoweredLimitHolds(s, before, n);
      assert a in acts;
      LimitStep(Exec(s, before), a, n, Max(n, |s.active| + 1));
    }
  }

  lemma LimitStep(s: Sys, a: Act, n: int, bound: int)
    requires |s.active| + Pending(s) <= bound && n <= bound && 1 <= bound
    requires s.limit <= n && LimitOnStart(s) <= n && !Raises(a, n)
    ensures |Step(s, a).active| + Pending(Step(s, a)) <= bound
    ensures Step(s, a).limit <= n && LimitOnStart(Step(s, a)) <= n
  {
    if Enabled(s, a) && a.Cleanup? {
      var id := s.workers[a.tok].job;
      if id !in s.active { assert s.active - {id} == s.active; }
    }
  }
}
