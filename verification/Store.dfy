/** The Store of mirrord: each method is one atomic change of the database, since the
    Store holds its mutex and a single connection throughout. Database errors are
    outside the model. */
module JobStore {
  import opened Common
  import opened JobTable

  /** What a batch request names: explicit ids, or the ids whose source or site
      matches a prefix (URL matching itself is not modelled). */
  datatype Target = Ids(ids: seq<Id>) | Prefix(matching: set<Id>)

  class Store {
    var jobs: Table
    var lastId: Id                     // AUTOINCREMENT: ids are never handed out twice
    var storedPaused: Option<bool>
    var storedLimit: Option<int>

    ghost predicate Valid()
      reads this
    {
      && (forall id :: id in jobs ==> id <= lastId)
      && (storedLimit.Some? ==> storedLimit.value >= 1)
    }

    constructor ()
      ensures Valid() && jobs == map[] && lastId == 0 && storedPaused.None? && storedLimit.None?
    {
      jobs, lastId, storedPaused, storedLimit := map[], 0, None, None;
    }

    method RecoverOrphanedJobs() returns (recovered: nat)
      requires Valid()
      modifies this`jobs
      ensures Valid()
      ensures jobs == RecoveredTable(old(jobs))
      ensures jobs.Keys == old(jobs).Keys
      ensures forall id :: id in jobs ==>
                jobs[id] == if !old(jobs)[id].state.Running? then old(jobs)[id]
                            else if old(jobs)[id].retries < old(jobs)[id].maxRetries
                              then old(jobs)[id].(state := Queued, retries := old(jobs)[id].retries + 1)
                            else old(jobs)[id].(state := Quarantined)
      ensures recovered == |set id | id in old(jobs) && old(jobs)[id].state.Running?
                                  && old(jobs)[id].retries < old(jobs)[id].maxRetries|
    {
      recovered := |set id | id in jobs && jobs[id].state.Running? && jobs[id].retries < jobs[id].maxRetries|;
      jobs := map id | id in jobs :: Requeued(jobs[id]);
      jobs := map id | id in jobs :: Abandoned(jobs[id]);
    }

    /** A queue without a retry limit of its own gets 3. */
    method EnqueueJob(priority: int, site: string, path: string, created: int, maxRetries: int) returns (id: Id)
      requires Valid()
      modifies this`jobs, this`lastId
      ensures Valid()
      ensures id == old(lastId) + 1 && lastId == id && id !in old(jobs)
      ensures jobs == old(jobs)[id := Row(Queued, priority, site, path, created, 0, if maxRetries <= 0 then 3 else maxRetries)]
    {
      var limit := maxRetries;
      if limit <= 0 { limit := 3; }
      lastId := lastId + 1;
      id := lastId;
      jobs := jobs[id := Row(Queued, priority, site, path, created, 0, limit)];
    }

    /** None is ErrQueueEmpty. */
    method ClaimNextJob() returns (r: Option<Id>)
      requires Valid()
      modifies this`jobs
      ensures Valid()
      ensures r.None? <==> forall id :: !QueuedIn(old(jobs), id)
      ensures r.None? ==> jobs == old(jobs)
      ensures r.Some? ==> IsNext(old(jobs), r.value) && jobs == Claimed(old(jobs), r.value)
      ensures r.Some? ==> jobs == old(jobs)[r.value := old(jobs)[r.value].(state := Running)]
    {
      NextExists(jobs);
      if exists id :: id in jobs && QueuedIn(jobs, id) {
        var id :| id in jobs && IsNext(jobs, id);
        jobs := jobs[id := jobs[id].(state := Running)];
        r := Some(id);
      } else {
        r := None;
      }
    }

    /** Unconditional: whatever state the row is in, it is overwritten. */
    method FinishJob(id: Id, st: State)
      requires Valid()
      modifies this`jobs
      ensures Valid() && jobs == Finished(old(jobs), id, st)
      ensures jobs == if id in old(jobs) then old(jobs)[id := old(jobs)[id].(state := st)] else old(jobs)
    {
      if id in jobs { jobs := jobs[id := jobs[id].(state := st)]; }
    }

    /** None is the error for a row that no longer exists. */
    method FailAndRetryJob(id: Id) returns (next: Option<State>)
      requires Valid()
      modifies this`jobs
      ensures Valid() && jobs == FailedAndRetried(old(jobs), id)
      ensures id !in old(jobs) ==> jobs == old(jobs)
      ensures id in old(jobs) ==>
                var retries := old(jobs)[id].retries + 1;
                jobs == old(jobs)[id := old(jobs)[id].(retries := retries,
                                    state := if retries < old(jobs)[id].maxRetries then Queued else Quarantined)]
      ensures next == if id in jobs then Some(jobs[id].state) else None
    {
      if id !in jobs { return None; }
      var retries := jobs[id].retries + 1;
      var st := Queued;
      if retries >= jobs[id].maxRetries { st := Quarantined; }
      jobs := jobs[id := jobs[id].(state := st, retries := retries)];
      next := Some(st);
    }

    /** QuarantineJob, UnquarantineJob, RetryJob, PauseJob, ResumeJob, CancelJob and
        DeleteJob differ in their WHERE and SET clauses only; each reports whether it
        affected a row. */
    method OperateOn(op: Op, id: Id) returns (found: bool)
      requires Valid()
      modifies this`jobs
      ensures Valid() && jobs == Operated(op, old(jobs), {id})
      ensures found <==> id in old(jobs) && Applies(op, old(jobs)[id].state)
      ensures !found ==> jobs == old(jobs)
      // the WHERE clauses
      ensures found ==> id in old(jobs)
      ensures op.PauseOp? && id in old(jobs) ==> (found <==> old(jobs)[id].state == Queued)
      ensures op.ResumeOp? && id in old(jobs) ==> (found <==> old(jobs)[id].state == Paused)
      ensures op.UnquarantineOp? && id in old(jobs) ==> (found <==> old(jobs)[id].state == Quarantined)
      ensures op.CancelOp? && id in old(jobs) ==> (found <==> old(jobs)[id].state in {Queued, Running, Paused})
      ensures op.DeleteOp? && id in old(jobs) ==>
                (found <==> old(jobs)[id].state in {Completed, Failed, Cancelled, Quarantined})
      ensures (op.QuarantineOp? || op.RetryOp?) && id in old(jobs) ==> found
      // the SET clauses
      ensures found && op.PauseOp? ==> jobs == old(jobs)[id := old(jobs)[id].(state := Paused)]
      ensures found && op.ResumeOp? ==> jobs == old(jobs)[id := old(jobs)[id].(state := Queued)]
      ensures found && op.QuarantineOp? ==> jobs == old(jobs)[id := old(jobs)[id].(state := Quarantined)]
      ensures found && op.CancelOp? ==> jobs == old(jobs)[id := old(jobs)[id].(state := Cancelled)]
      ensures found && (op.UnquarantineOp? || op.RetryOp?) ==>
                jobs == old(jobs)[id := old(jobs)[id].(state := Queued, retries := 0)]
      ensures found && op.DeleteOp? ==> jobs == old(jobs) - {id}
    {
      found := id in jobs && Applies(op, jobs[id].state);
      assert found ==> Hits(op, jobs, {id}) == {id};
      assert !found ==> Hits(op, jobs, {id}) == {};
      if found {
        if op.DeleteOp? { jobs := jobs - {id}; }
        else { jobs := jobs[id := Changed(op, jobs[id])]; }
      }
    }

    /** The batch form. A prefix is first narrowed to the rows in the states the
        action is meant for; explicit ids are not, so only the statement's own WHERE
        clause protects them. */
    method BatchAction(op: Op, target: Target) returns (affected: nat, ghost ids: set<Id>)
      requires Valid()
      modifies this`jobs
      ensures Valid() && jobs == Operated(op, old(jobs), ids)
      ensures affected == |Hits(op, old(jobs), ids)|
      ensures target.Ids? ==> ids == set id | id in target.ids
      ensures target.Prefix? ==> forall id :: id in ids <==>
                id in target.matching && id in old(jobs) && PrefixStates(op, old(jobs)[id].state)
      // which states a prefix is narrowed to
      ensures target.Prefix? && op.QuarantineOp? ==>
                forall id :: id in ids ==> old(jobs)[id].state in {Queued, Paused, Failed, Running}
      ensures target.Prefix? && op.RetryOp? ==>
                forall id :: id in ids ==> old(jobs)[id].state in {Failed, Completed, Cancelled}
      // what becomes of the rows
      ensures jobs.Keys <= old(jobs).Keys && (!op.DeleteOp? ==> jobs.Keys == old(jobs).Keys)
      ensures forall id :: id in old(jobs) && id !in ids ==> id in jobs && jobs[id] == old(jobs)[id]
      ensures op.PauseOp? ==> forall id :: id in old(jobs) && id in ids ==>
                jobs[id] == if old(jobs)[id].state == Queued then old(jobs)[id].(state := Paused) else old(jobs)[id]
      ensures op.ResumeOp? ==> forall id :: id in old(jobs) && id in ids ==>
                jobs[id] == if old(jobs)[id].state == Paused then old(jobs)[id].(state := Queued) else old(jobs)[id]
      ensures op.QuarantineOp? ==> forall id :: id in old(jobs) && id in ids ==>
                jobs[id] == old(jobs)[id].(state := Quarantined)
      ensures op.UnquarantineOp? ==> forall id :: id in old(jobs) && id in ids ==>
                jobs[id] == if old(jobs)[id].state == Quarantined then old(jobs)[id].(state := Queued, retries := 0)
                            else old(jobs)[id]
      ensures op.CancelOp? ==> forall id :: id in old(jobs) && id in ids ==>
                jobs[id] == if old(jobs)[id].state in {Queued, Running, Paused} then old(jobs)[id].(state := Cancelled)
                            else old(jobs)[id]
      ensures op.RetryOp? ==> forall id :: id in old(jobs) && id in ids ==>
                jobs[id] == old(jobs)[id].(state := Queued, retries := 0)
      ensures op.DeleteOp? ==> forall id :: id in old(jobs) && id in ids ==>
                (id in jobs <==> old(jobs)[id].state !in {Completed, Failed, Cancelled, Quarantined})
      ensures op.DeleteOp? ==> forall id :: id in jobs ==> jobs[id] == old(jobs)[id]
    {
      var chosen: set<Id>;
      match target {
        case Ids(given) => chosen := set id | id in given;
        case Prefix(matching) => chosen := set id | id in jobs && id in matching && PrefixStates(op, jobs[id].state);
      }
      OperatedRows(op, jobs, chosen);
      hide Hits, Operated;
      ids := chosen;
      affected := ApplyTo(op, chosen);
    }

    /** The UPDATE or DELETE restricted to these ids. */
    method ApplyTo(op: Op, chosen: set<Id>) returns (affected: nat)
      requires Valid()
      modifies this`jobs
      ensures Valid() && jobs == Operated(op, old(jobs), chosen) && affected == |Hits(op, old(jobs), chosen)|
    {
      var hit := Hits(op, jobs, chosen);
      affected := |hit|;
      if op.DeleteOp? { jobs := jobs - hit; }
      else { jobs := map id | id in jobs :: if id in hit then Changed(op, jobs[id]) else jobs[id]; }
    }

    /** Defaults: not paused, two workers, never fewer than one. */
    method GetQueueConfig() returns (paused: bool, limit: int)
      requires Valid()
      ensures paused == (storedPaused == Some(true))
      ensures limit == if storedLimit.Some? then storedLimit.value else 2
    {
      paused := storedPaused.Some? && storedPaused.value;
      limit := 2;
      if storedLimit.Some? { limit := storedLimit.value; }
      if limit < 1 { limit := 1; }
    }

    method SetQueuePaused(paused: bool)
      requires Valid()
      modifies this`storedPaused
      ensures Valid() && storedPaused == Some(paused)
    {
      storedPaused := Some(paused);
    }

    method SetQueueConcurrency(n: int)
      requires Valid()
      modifies this`storedLimit
      ensures Valid() && storedLimit == Some(if n < 1 then 1 else n)
    {
      var limit := n;
      if limit < 1 { limit := 1; }
      storedLimit := Some(limit);
    }
  }
}
