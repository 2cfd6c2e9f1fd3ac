/** The Queue object of mirrord. Each method is one critical section of the program, or
    the sequence of sections an operator call goes through, and is proved to be exactly
    the corresponding action (or actions) of QueueModel, about which the safety and
    liveness results are stated. */
module JobQueue {
  import opened Common
  import opened JobTable
  import opened JobStore
  import M = QueueModel

  /** Part of the cancel loop: the jobs in `done` have been dealt with. */
  ghost function Cancelling(s: M.Sys, done: set<Id>, forget: bool): M.Sys {
    s.(workers := M.CancelledWorkers(s, done), cancels := if forget then s.cancels - done else s.cancels)
  }

  /** Every cancel function belongs to a worker of its job. */
  ghost predicate Pointing(s: M.Sys) {
    forall id :: id in s.cancels ==> s.cancels[id] in s.workers && s.workers[s.cancels[id]].job == id
  }

  lemma CancelNone(s: M.Sys)
    ensures forall forget :: Cancelling(s, {} , forget) == s
    ensures forall ids: set<Id> :: ids * (s.cancels.Keys - s.cancels.Keys) == {}
  {
    assert M.CancelledWorkers(s, {}) == s.workers && s.cancels - {} == s.cancels;
  }

  lemma CancelOne(s: M.Sys, done: set<Id>, id: Id, forget: bool)
    requires Pointing(s) && id in s.cancels && id !in done
    ensures var d, n := Cancelling(s, done, forget), Cancelling(s, done + {id}, forget);
      && id in d.cancels && d.cancels[id] in d.workers
      && n.workers == d.workers[d.cancels[id] := d.workers[d.cancels[id]].(cancelled := true)]
      && n.cancels == if forget then d.cancels - {id} else d.cancels
  {}

  lemma CancelAll(s: M.Sys, ids: set<Id>, forget: bool)
    requires s.up
    ensures Cancelling(s, ids * s.cancels.Keys, forget) == M.Do(s, M.CancelContexts(ids, forget))
  {
    assert M.CancelledWorkers(s, ids * s.cancels.Keys) == M.CancelledWorkers(s, ids);
    assert s.cancels - ids * s.cancels.Keys == s.cancels - ids;
  }

  /** What Start comes to. */
  lemma StartDoes(s: M.Sys)
    requires !s.up
    ensures M.Do(s, M.Start) == s.(jobs := RecoveredTable(s.jobs), up := true, stopping := false,
              paused := s.storedPaused == Some(true), limit := if s.storedLimit.Some? then s.storedLimit.value else 2,
              active := {}, cancels := map[], disp := M.Top, workers := map[])
  {}

  /** What the write of an outcome comes to. */
  lemma OutcomeDoes(s: M.Sys, tok: M.Tok, result: M.Result)
    requires s.up && tok in s.workers && !s.workers[tok].wrote
    ensures M.Do(s, M.Outcome(tok, result)).jobs ==
              var w := s.workers[tok];
              if w.cancelled then Finished(s.jobs, w.job, Cancelled)
              else if result.Success? then Finished(s.jobs, w.job, Completed)
              else if result.Fatal? then Operated(QuarantineOp, s.jobs, {w.job})
              else FailedAndRetried(s.jobs, w.job)
    ensures M.Do(s, M.Outcome(tok, result)) ==
              s.(jobs := M.Do(s, M.Outcome(tok, result)).jobs, workers := s.workers[tok := s.workers[tok].(wrote := true)])
  {}

  lemma OperateDoes(s: M.Sys, op: Op, ids: set<Id>)
    requires s.up
    ensures M.Do(s, M.Operate(op, ids)) == s.(jobs := Operated(op, s.jobs, ids))
  {}

  class Queue {
    const store: Store
    const maxRetries: int
    var paused: bool
    var concurrency: int
    var activeJobs: set<Id>
    var runningCancels: map<Id, M.Tok>
    // the process itself: the stop channel, the dispatcher's position, the goroutines
    var up: bool
    var stopping: bool
    var disp: M.Dispatcher
    var workers: map<M.Tok, M.Worker>
    var nextTok: M.Tok

    ghost function View(): M.Sys
      reads this, store
    {
      M.Sys(store.jobs, store.lastId, store.storedPaused, store.storedLimit, up, stopping, paused, concurrency,
            activeJobs, runningCancels, disp, workers, nextTok)
    }

    ghost predicate Valid()
      reads this, store
    {
      store.Valid() && maxRetries >= 1 && M.MapsOk(View()) && M.RowsOk(View())
    }

    constructor (store: Store, configuredConcurrency: int, configuredRetries: int)
      requires store.Valid() && forall id :: id in store.jobs ==> M.RowOk(store.jobs[id])
      ensures Valid() && this.store == store && !up
      ensures concurrency == if configuredConcurrency <= 0 then 2 else configuredConcurrency
      ensures maxRetries == if configuredRetries <= 0 then 3 else configuredRetries
    {
      this.store := store;
      concurrency := if configuredConcurrency <= 0 then 2 else configuredConcurrency;
      maxRetries := if configuredRetries <= 0 then 3 else configuredRetries;
      paused, activeJobs, runningCancels := false, {}, map[];
      up, stopping, disp, workers, nextTok := false, false, M.Gone, map[], 0;
    }

    method Start()
      requires Valid() && !up
      modifies this, store
      ensures Valid() && View() == M.Do(old(View()), M.Start)
    {
      hide M.MapsOk, M.RowsOk, RecoveredTable, M.Do;
      ghost var s := View();
      M.MapsStep(s, M.Start);
      M.RowsStep(s, M.Start);
      StartDoes(s);
      Begin();
      assert View() == M.Do(s, M.Start);
    }

    /** The recovery, the stored settings and a fresh memory. */
    method Begin()
      requires store.Valid()
      modifies this, store`jobs
      ensures store.Valid() && store.jobs == RecoveredTable(old(store.jobs))
      ensures paused == (store.storedPaused == Some(true))
      ensures concurrency == if store.storedLimit.Some? then store.storedLimit.value else 2
      ensures activeJobs == {} && runningCancels == map[] && workers == map[] && nextTok == old(nextTok)
      ensures up && !stopping && disp == M.Top
    {
      hide RecoveredTable;
      var _ := store.RecoverOrphanedJobs();
      var storedPaused, limit := store.GetQueueConfig();
      paused := storedPaused;
      if limit > 0 { concurrency := limit; }
      activeJobs, runningCancels, workers, up, stopping, disp := {}, map[], map[], true, false, M.Top;
    }

    /* ---- dispatchLoop ---- */

    /** The stop check and the read of paused, active count and limit. */
    method Check()
      requires Valid() && up && disp.Top?
      modifies this`disp
      ensures Valid() && View() == M.Do(old(View()), if stopping then M.SeeStop else M.ReadLimits)
      ensures disp == if stopping then M.Gone else if !paused && |activeJobs| < concurrency then M.Room else M.Top
    {
      if stopping { disp := M.Gone; return; }
      var activeCount := |activeJobs|;
      if !paused && activeCount < concurrency { disp := M.Room; }
    }

    method ClaimNext()
      requires Valid() && up && disp.Room?
      modifies this`disp, store`jobs
      ensures Valid()
      ensures if M.AnyQueued(old(store.jobs))
              then disp.Hand? && M.Enabled(old(View()), M.Claim(disp.id)) && View() == M.Do(old(View()), M.Claim(disp.id))
              else View() == M.Do(old(View()), M.FindEmpty)
      ensures disp.Hand? || disp.Top?
      ensures disp.Hand? ==> disp.id in old(store.jobs) && old(store.jobs)[disp.id].state == Queued
      ensures disp.Hand? ==> store.jobs == old(store.jobs)[disp.id := old(store.jobs)[disp.id].(state := Running)]
      ensures disp.Top? ==> store.jobs == old(store.jobs) && forall id :: id in store.jobs ==>
                store.jobs[id].state != Queued
    {
      ghost var s := View();
      var r := store.ClaimNextJob();
      match r {
        case None => disp := M.Top;
        case Some(id) =>
          assert QueuedIn(s.jobs, id);
          disp := M.Hand(id);
      }
      assert r.None? ==> forall id :: !QueuedIn(s.jobs, id);
      assert M.AnyQueued(s.jobs) <==> r.Some? by {
        if id :| id in s.jobs && s.jobs[id].state.Queued? { assert QueuedIn(s.jobs, id); }
      }
      M.MapsStep(s, if r.Some? then M.Claim(r.value) else M.FindEmpty);
      M.RowsStep(s, if r.Some? then M.Claim(r.value) else M.FindEmpty);
    }

    /** The worker starts together with the registration: it does nothing observable
        before its executor runs. */
    method Register()
      requires Valid() && up && disp.Hand?
      modifies this
      ensures Valid() && View() == M.Do(old(View()), M.Register)
      ensures disp == M.Top && activeJobs == old(activeJobs) + {old(disp).id}
      ensures runningCancels == old(runningCancels)[old(disp).id := old(nextTok)]
      ensures workers == old(workers)[old(nextTok) := M.Worker(old(disp).id, false, false)]
    {
      ghost var s := View();
      var id := disp.id;
      activeJobs := activeJobs + {id};
      runningCancels := runningCancels[id := nextTok];
      workers := workers[nextTok := M.Worker(id, false, false)];
      nextTok := nextTok + 1;
      disp := M.Top;
      M.MapsStep(s, M.Register);
    }

    /* ---- runWorker ---- */

    method WriteOutcome(tok: M.Tok, result: M.Result)
      requires Valid() && up && tok in workers && !workers[tok].wrote
      modifies this, store
      ensures Valid() && View() == M.Do(old(View()), M.Outcome(tok, result))
      ensures workers == old(workers)[tok := old(workers)[tok].(wrote := true)]
      ensures store.jobs.Keys == old(store.jobs).Keys
      ensures forall id :: id in store.jobs && id != old(workers)[tok].job ==> store.jobs[id] == old(store.jobs)[id]
      ensures var w := old(workers)[tok];
        w.job in store.jobs ==>
          var r := old(store.jobs)[w.job];
          store.jobs[w.job] ==
            if w.cancelled then r.(state := Cancelled)
            else if result.Success? then r.(state := Completed)
            else if result.Fatal? then r.(state := Quarantined)
            else r.(retries := r.retries + 1, state := if r.retries + 1 < r.maxRetries then Queued else Quarantined)
    {
      hide M.MapsOk, M.RowsOk, M.Do, M.OutcomeTable;
      ghost var s := View();
      var w := workers[tok];
      OutcomeDoes(s, tok, result);
      M.MapsStep(s, M.Outcome(tok, result));
      M.RowsStep(s, M.Outcome(tok, result));
      if w.cancelled {
        store.FinishJob(w.job, Cancelled);
      } else {
        match result
        case Success => store.FinishJob(w.job, Completed);
        case Fatal => var _ := store.OperateOn(QuarantineOp, w.job);
        case Failure => var _ := store.FailAndRetryJob(w.job);
      }
      workers := workers[tok := w.(wrote := true)];
    }

    method CleanUp(tok: M.Tok)
      requires Valid() && up && tok in workers && workers[tok].wrote
      modifies this
      ensures Valid() && View() == M.Do(old(View()), M.Cleanup(tok))
      ensures workers == old(workers) - {tok} && activeJobs == old(activeJobs) - {old(workers)[tok].job}
      ensures runningCancels == old(runningCancels) - {old(workers)[tok].job}
    {
      ghost var s := View();
      var id := workers[tok].job;
      activeJobs := activeJobs - {id};
      runningCancels := runningCancels - {id};
      workers := workers - {tok};
      M.MapsStep(s, M.Cleanup(tok));
    }

    /* ---- operators ---- */

    method Enqueue(priority: int, site: string, path: string, created: int) returns (id: Id)
      requires Valid() && up
      modifies this, store
      ensures Valid() && id == old(store.lastId) + 1
      ensures View() == M.Do(old(View()), M.Enqueue(Row(Queued, priority, site, path, created, 0, maxRetries)))
      ensures store.jobs == old(store.jobs)[id := Row(Queued, priority, site, path, created, 0, maxRetries)]
    {
      ghost var s := View();
      id := store.EnqueueJob(priority, site, path, created, maxRetries);
      M.MapsStep(s, M.Enqueue(Row(Queued, priority, site, path, created, 0, maxRetries)));
      M.RowsStep(s, M.Enqueue(Row(Queued, priority, site, path, created, 0, maxRetries)));
    }

    /** Pause is SetPaused(true), Resume SetPaused(false): memory first, then the
        database. */
    method PauseOrResume(pause: bool)
      requires Valid() && up
      modifies this, store
      ensures Valid() && View() == M.Do(M.Do(old(View()), M.SetPaused(pause)), M.StorePaused(pause))
      ensures paused == pause && store.storedPaused == Some(pause)
    {
      paused := pause;
      store.SetQueuePaused(pause);
    }

    method SetConcurrency(n: int) returns (ok: bool)
      requires Valid() && up
      modifies this, store
      ensures Valid() && ok == (n >= 1)
      ensures View() == if ok then M.Do(M.Do(old(View()), M.SetLimit(n)), M.StoreLimit(n)) else old(View())
      ensures ok ==> concurrency == n && store.storedLimit == Some(n)
    {
      if n < 1 { return false; }
      concurrency := n;
      store.SetQueueConcurrency(n);
      ok := true;
    }

    /** The loop over runningCancels: call the cancel functions of the chosen jobs and,
        for a batch or Stop, forget them. */
    method CancelEach(ids: set<Id>, forget: bool)
      requires Pointing(View())
      modifies this`workers, this`runningCancels
      ensures workers == Cancelling(old(View()), ids * old(runningCancels).Keys, forget).workers
      ensures runningCancels == Cancelling(old(View()), ids * old(runningCancels).Keys, forget).cancels
    {
      hide Cancelling, Pointing;
      ghost var s := View();
      var todo := runningCancels.Keys;
      CancelNone(s);
      while todo != {}
        invariant todo <= s.cancels.Keys
        invariant workers == Cancelling(s, ids * (s.cancels.Keys - todo), forget).workers
        invariant runningCancels == Cancelling(s, ids * (s.cancels.Keys - todo), forget).cancels
        decreases todo
      {
        var id :| id in todo;
        ghost var done := ids * (s.cancels.Keys - todo);
        if id in ids {
          CancelOne(s, done, id, forget);
          var tok := runningCancels[id];
          workers := workers[tok := workers[tok].(cancelled := true)];
          if forget { runningCancels := runningCancels - {id}; }
        }
        assert ids * (s.cancels.Keys - (todo - {id})) == if id in ids then done + {id} else done;
        todo := todo - {id};
      }
      assert ids * (s.cancels.Keys - {}) == ids * s.cancels.Keys;
    }

    method CancelContexts(ids: set<Id>, forget: bool)
      requires Valid() && up
      modifies this`workers, this`runningCancels
      ensures Valid() && View() == M.Do(old(View()), M.CancelContexts(ids, forget))
      // exactly the workers the chosen jobs' entries name are told to stop
      ensures workers.Keys == old(workers).Keys
      ensures forall t :: t in workers ==>
                var w := old(workers)[t];
                workers[t] == w.(cancelled := w.cancelled
                  || (w.job in ids && w.job in old(runningCancels) && old(runningCancels)[w.job] == t))
      ensures runningCancels == if forget then old(runningCancels) - ids else old(runningCancels)
    {
      ghost var s := View();
      CancelEach(ids, forget);
      CancelAll(s, ids, forget);
      M.MapsStep(s, M.CancelContexts(ids, forget));
    }

    /** A running job is only told to stop; anything else is cancelled in the table. */
    method CancelJob(id: Id)
      requires Valid() && up
      modifies this, store
      ensures Valid()
      ensures View() == M.Do(old(View()), if id in old(runningCancels) then M.CancelContexts({id}, false)
                                          else M.Operate(CancelOp, {id}))
      ensures id in old(runningCancels) ==>
                store.jobs == old(store.jobs) && old(runningCancels)[id] in workers && workers[old(runningCancels)[id]].cancelled
      ensures id !in old(runningCancels) ==>
                workers == old(workers) &&
                store.jobs == if id in old(store.jobs) && old(store.jobs)[id].state in {Queued, Running, Paused}
                              then old(store.jobs)[id := old(store.jobs)[id].(state := Cancelled)] else old(store.jobs)
    {
      ghost var s := View();
      if id in runningCancels {
        CancelContexts({id}, false);
      } else {
        var _ := store.OperateOn(CancelOp, id);
        M.MapsStep(s, M.Operate(CancelOp, {id}));
        M.RowsStep(s, M.Operate(CancelOp, {id}));
      }
    }

    /** Cancels the context and quarantines the row: the worker's own outcome, written
        later, overwrites the row again. */
    method QuarantineJob(id: Id) returns (found: bool)
      requires Valid() && up
      modifies this, store
      ensures Valid() && found == (id in old(store.jobs))
      ensures View() == M.Do(M.Do(old(View()), M.CancelContexts({id}, false)), M.Operate(QuarantineOp, {id}))
      ensures id in old(runningCancels) ==>
                old(runningCancels)[id] in workers && workers[old(runningCancels)[id]].cancelled
      ensures found ==> store.jobs == old(store.jobs)[id := old(store.jobs)[id].(state := Quarantined)]
    {
      CancelContexts({id}, false);
      ghost var s := View();
      found := store.OperateOn(QuarantineOp, id);
      M.MapsStep(s, M.Operate(QuarantineOp, {id}));
      M.RowsStep(s, M.Operate(QuarantineOp, {id}));
    }

    /** PauseJob, ResumeJob, RetryJob, UnquarantineJob and DeleteJob go straight to the
        table. */
    method OperateOn(op: Op, id: Id) returns (found: bool)
      requires Valid() && up
      modifies this, store
      ensures Valid() && found == (id in old(store.jobs) && Applies(op, old(store.jobs)[id].state))
      ensures View() == M.Do(old(View()), M.Operate(op, {id}))
    {
      ghost var s := View();
      found := store.OperateOn(op, id);
      M.MapsStep(s, M.Operate(op, {id}));
      M.RowsStep(s, M.Operate(op, {id}));
    }

    /** A batch cancel or quarantine first cancels the contexts of the running jobs it
        names (for a prefix, those still in the table). */
    method BatchJobs(op: Op, target: Target) returns (affected: nat, ghost ctxs: set<Id>, ghost ids: set<Id>)
      requires Valid() && up
      modifies this, store
      ensures Valid() && affected == |Hits(op, old(store.jobs), ids)|
      ensures ctxs == if !(op.CancelOp? || op.QuarantineOp?) then {}
                      else if target.Ids? then (set id | id in target.ids)
                      else set id | id in target.matching && id in old(store.jobs)
      ensures ids == if target.Ids? then (set id | id in target.ids)
                     else set id | id in target.matching && id in old(store.jobs) && PrefixStates(op, old(store.jobs)[id].state)
      ensures View() == M.Do(M.Do(old(View()), M.CancelContexts(ctxs, true)), M.Operate(op, ids))
    {
      hide M.MapsOk, M.RowsOk, Hits, Operated, M.Do;
      var chosen: set<Id> := {};
      if op.CancelOp? || op.QuarantineOp? {
        match target {
          case Ids(given) => chosen := set id | id in given;
          case Prefix(matching) => chosen := set id | id in matching && id in store.jobs;
        }
      }
      CancelContexts(chosen, true);
      ctxs := chosen;
      ghost var s := View();
      affected, ids := store.BatchAction(op, target);
      OperateDoes(s, op, ids);
      M.MapsStep(s, M.Operate(op, ids));
      M.RowsStep(s, M.Operate(op, ids));
    }

    /* ---- shutting down ---- */

    /** Stop closes the channel, then cancels and forgets every context. */
    method Stop()
      requires Valid() && up
      modifies this
      ensures Valid()
      ensures View() == M.Do(M.Do(old(View()), M.CloseStop), M.CancelContexts(old(runningCancels).Keys, true))
      ensures stopping && runningCancels == map[]
      ensures forall id :: id in old(runningCancels) ==>
                old(runningCancels)[id] in workers && workers[old(runningCancels)[id]].cancelled
    {
      stopping := true;
      CancelContexts(runningCancels.Keys, true);
    }

    /** Stop's wait is over once the dispatcher and all workers have returned. */
    method StopReturns()
      requires Valid() && up && stopping && disp.Gone? && workers == map[]
      modifies this
      ensures Valid() && View() == M.Do(old(View()), M.StopDone)
      ensures !up && activeJobs == {} && runningCancels == map[] && store.jobs == old(store.jobs)
    {
      ghost var s := View();
      up, stopping, activeJobs, runningCancels := false, false, {}, map[];
      M.MapsStep(s, M.StopDone);
    }
  }

  /** The concurrency a queue was configured with has no effect: Start replaces it by
      the stored value, or 2 if none was ever stored. */
  lemma ConfiguredLimitIgnored(s: M.Sys, configured: int)
    requires !s.up
    ensures M.Do(s.(limit := configured), M.Start) == M.Do(s, M.Start)
    ensures s.storedLimit.None? ==> M.Do(s.(limit := configured), M.Start).limit == 2
  {}
}
