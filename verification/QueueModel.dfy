/** mirrord's queue as a transition system: one dispatcher, any number of worker
    goroutines, operators, crashes and restarts. Every action is one critical section
    or one Store call of the program; between two actions anything may happen. */
module QueueModel {
  import opened Common
  import opened JobTable

  type Tok = nat   // names a worker goroutine

  /** Where dispatchLoop stands: at the top of the loop, past the check with room seen,
      holding a claimed job it has not registered, or returned. */
  datatype Dispatcher = Top | Room | Hand(id: Id) | Gone

  /** `wrote`: the outcome is in the table, the deferred cleanup has not run.
      `cancelled`: the worker's context was cancelled. */
  datatype Worker = Worker(job: Id, wrote: bool, cancelled: bool)

  /** How Executor.Run ended; Fatal is an error isImmediateQuarantineError accepts. */
  datatype Result = Success | Failure | Fatal

  datatype Sys = Sys(
    // the database
    jobs: Table, lastId: Id, storedPaused: Option<bool>, storedLimit: Option<int>,
    // the daemon's memory
    up: bool, stopping: bool, paused: bool, limit: int,
    active: set<Id>, cancels: map<Id, Tok>,
    disp: Dispatcher, workers: map<Tok, Worker>, nextTok: Tok)

  const INIT := Sys(map[], 0, None, None, false, false, false, 0, {}, map[], Gone, map[], 0)

  datatype Act =
    // dispatchLoop; the stop check and the read of the limits are two points, so that the
    // limits can still be read when a stop has just been asked for
    | ReadLimits | SeeStop | Claim(id: Id) | FindEmpty | Register
    // runWorker
    | Outcome(tok: Tok, result: Result) | Cleanup(tok: Tok)
    // operators
    | Enqueue(row: Row)
    | SetPaused(b: bool) | StorePaused(b: bool) | SetLimit(n: int) | StoreLimit(n: int)
    | CancelContexts(ids: set<Id>, forget: bool) | Operate(op: Op, ids: set<Id>)
    // the process
    | CloseStop | StopDone | Crash | Start

  predicate AnyQueued(t: Table) { exists id :: id in t && t[id].state.Queued? }

  predicate Enabled(s: Sys, a: Act) {
    match a
    case ReadLimits => s.up && s.disp.Top?
    case SeeStop => s.up && s.disp.Top? && s.stopping
    case Claim(id) => s.up && s.disp.Room? && IsNext(s.jobs, id)
    case FindEmpty => s.up && s.disp.Room? && !AnyQueued(s.jobs)
    case Register => s.up && s.disp.Hand?
    case Outcome(tok, _) => s.up && tok in s.workers && !s.workers[tok].wrote
    case Cleanup(tok) => s.up && tok in s.workers && s.workers[tok].wrote
    case Enqueue(row) => s.up && row.state.Queued? && row.retries == 0 && row.maxRetries >= 1
    case SetLimit(n) => s.up && n >= 1
    case StoreLimit(n) => s.up && n >= 1
    case StopDone => s.up && s.stopping && s.disp.Gone? && s.workers == map[]
    case Start => !s.up
    case _ => s.up
  }

  /** The statement a worker runs when its executor returns. */
  function OutcomeTable(t: Table, w: Worker, result: Result): Table {
    if w.cancelled then Finished(t, w.job, Cancelled)
    else match result
      case Success => Finished(t, w.job, Completed)
      case Fatal => Operated(QuarantineOp, t, {w.job})
      case Failure => FailedAndRetried(t, w.job)
  }

  function CancelledWorkers(s: Sys, ids: set<Id>): map<Tok, Worker> {
    map t | t in s.workers ::
      var w := s.workers[t];
      if w.job in ids && w.job in s.cancels && s.cancels[w.job] == t then w.(cancelled := true) else w
  }

  function Down(s: Sys): Sys {
    s.(up := false, stopping := false, active := {}, cancels := map[], disp := Gone, workers := map[])
  }

  /** The limit GetQueueConfig reports. */
  function LimitOnStart(s: Sys): int {
    if s.storedLimit.Some? then s.storedLimit.value else 2
  }

  function Do(s: Sys, a: Act): Sys
    requires Enabled(s, a)
  {
    match a
    case ReadLimits => s.(disp := if !s.paused && |s.active| < s.limit then Room else Top)
    case SeeStop => s.(disp := Gone)
    case Claim(id) => s.(jobs := Claimed(s.jobs, id), disp := Hand(id))
    case FindEmpty => s.(disp := Top)
    case Register =>
      var id := s.disp.id;
      s.(active := s.active + {id}, cancels := s.cancels[id := s.nextTok],
         workers := s.workers[s.nextTok := Worker(id, false, false)],
         nextTok := s.nextTok + 1, disp := Top)
    case Outcome(tok, result) =>
      var w := s.workers[tok];
      s.(jobs := OutcomeTable(s.jobs, w, result), workers := s.workers[tok := w.(wrote := true)])
    case Cleanup(tok) =>
      var id := s.workers[tok].job;
      s.(active := s.active - {id}, cancels := s.cancels - {id}, workers := s.workers - {tok})
    case Enqueue(row) => s.(jobs := s.jobs[s.lastId + 1 := row], lastId := s.lastId + 1)
    case SetPaused(b) => s.(paused := b)
    case StorePaused(b) => s.(storedPaused := Some(b))
    case SetLimit(n) => s.(limit := n)
    case StoreLimit(n) => s.(storedLimit := Some(n))
    case CancelContexts(ids, forget) =>
      s.(workers := CancelledWorkers(s, ids), cancels := if forget then s.cancels - ids else s.cancels)
    case Operate(op, ids) => s.(jobs := Operated(op, s.jobs, ids))
    case CloseStop => s.(stopping := true)
    case StopDone => Down(s)
    case Crash => Down(s)
    case Start =>
      s.(jobs := RecoveredTable(s.jobs), up := true, stopping := false,
         paused := s.storedPaused == Some(true), limit := LimitOnStart(s),
         active := {}, cancels := map[], disp := Top, workers := map[])
  }

  /** A run is a list of attempted actions; one that is not enabled does nothing. */
  function Step(s: Sys, a: Act): Sys {
    if Enabled(s, a) then Do(s, a) else s
  }

  function Exec(s: Sys, acts: seq<Act>): Sys
    decreases |acts|
  {
    if acts == [] then s else Step(Exec(s, acts[..|acts| - 1]), acts[|acts| - 1])
  }

  function After(acts: seq<Act>): Sys {
    Exec(INIT, acts)
  }

  /* ---- the invariant every run keeps ---- */

  /** A job some worker still has to write an outcome for, or the dispatcher holds. */
  predicate Live(s: Sys, id: Id) {
    s.disp == Hand(id) || exists t :: t in s.workers && s.workers[t].job == id && !s.workers[t].wrote
  }

  ghost predicate RowOk(r: Row) {
    r.maxRetries >= 1 && (r.state.Queued? || r.state.Paused? ==> r.retries <= r.maxRetries)
  }

  ghost predicate ActiveWorked(s: Sys) {
    forall id :: id in s.active ==> exists t :: t in s.workers && s.workers[t].job == id
  }

  ghost predicate IdsOk(s: Sys) {
    && (forall t :: t in s.workers ==> t < s.nextTok && s.workers[t].job <= s.lastId)
    && (s.disp.Hand? ==> s.disp.id <= s.lastId)
  }

  ghost predicate CancelsOk(s: Sys) {
    forall id :: id in s.cancels ==>
      id in s.active && s.cancels[id] in s.workers && s.workers[s.cancels[id]].job == id
  }

  ghost predicate SettingsOk(s: Sys) {
    && (!s.up ==> s.workers == map[] && s.active == {} && s.cancels == map[] && s.disp.Gone?)
    && (s.up && s.disp.Gone? ==> s.stopping)
    && (s.up ==> s.limit >= 1)
    && (s.storedLimit.Some? ==> s.storedLimit.value >= 1)
  }

  ghost predicate MapsOk(s: Sys) {
    IdsOk(s) && CancelsOk(s) && ActiveWorked(s) && SettingsOk(s)
  }

  ghost predicate TableOk(t: Table, last: Id) {
    forall id :: id in t ==> id <= last && RowOk(t[id])
  }

  ghost predicate RowsOk(s: Sys) {
    TableOk(s.jobs, s.lastId)
  }

  /** Every running row is in the dispatcher's hand or owned by a worker that has not
      written its outcome. */
  ghost predicate Owned(s: Sys) {
    s.up ==> forall id :: id in s.jobs && s.jobs[id].state.Running? ==> Live(s, id)
  }

  ghost predicate Inv(s: Sys) {
    MapsOk(s) && RowsOk(s) && Owned(s)
  }

  lemma ActiveStep(s: Sys, a: Act)
    requires MapsOk(s) && Enabled(s, a)
    ensures ActiveWorked(Do(s, a))
  {
    var n := Do(s, a);
    forall id | id in n.active ensures exists t :: t in n.workers && n.workers[t].job == id {
      if id in s.active {
        var t :| t in s.workers && s.workers[t].job == id;
        assert t in n.workers && n.workers[t].job == id;
      } else {
        assert n.workers[s.nextTok].job == id;
      }
    }
  }

  lemma IdsStep(s: Sys, a: Act)
    requires IdsOk(s) && RowsOk(s) && Enabled(s, a)
    ensures IdsOk(Do(s, a))
  {
    hide RowOk, OutcomeTable, Operated, RecoveredTable;
  }

  lemma CancelsStep(s: Sys, a: Act)
    requires CancelsOk(s) && IdsOk(s) && Enabled(s, a)
    ensures CancelsOk(Do(s, a))
  {
    hide OutcomeTable, Operated, RecoveredTable, IsNext;
  }

  lemma SettingsStep(s: Sys, a: Act)
    requires SettingsOk(s) && Enabled(s, a)
    ensures SettingsOk(Do(s, a))
  {
    hide OutcomeTable, Operated, RecoveredTable, IsNext;
  }

  lemma MapsStep(s: Sys, a: Act)
    requires MapsOk(s) && RowsOk(s) && Enabled(s, a)
    ensures MapsOk(Do(s, a))
  {
    hide IdsOk, CancelsOk, ActiveWorked, SettingsOk;
    IdsStep(s, a);
    CancelsStep(s, a);
    ActiveStep(s, a);
    SettingsStep(s, a);
  }

  lemma OperatedOk(op: Op, t: Table, ids: set<Id>, last: Id)
    requires TableOk(t, last)
    ensures TableOk(Operated(op, t, ids), last)
  {}

  lemma OutcomeOk(t: Table, w: Worker, result: Result, last: Id)
    requires TableOk(t, last)
    ensures TableOk(OutcomeTable(t, w, result), last)
  {
    OperatedOk(QuarantineOp, t, {w.job}, last);
  }

  lemma RecoveredOk(t: Table, last: Id)
    requires TableOk(t, last)
    ensures TableOk(RecoveredTable(t), last)
  {}

  lemma RowsStep(s: Sys, a: Act)
    requires RowsOk(s) && Enabled(s, a)
    ensures RowsOk(Do(s, a))
  {
    hide OutcomeTable, Operated, RecoveredTable;
    match a
    case Outcome(tok, result) => OutcomeOk(s.jobs, s.workers[tok], result, s.lastId);
    case Operate(op, ids) => OperatedOk(op, s.jobs, ids, s.lastId);
    case Start => RecoveredOk(s.jobs, s.lastId);
    case _ =>
  }

  lemma OwnedStep(s: Sys, a: Act)
    requires MapsOk(s) && Owned(s) && Enabled(s, a)
    ensures Owned(Do(s, a))
  {
    var n := Do(s, a);
    if n.up {
      forall id | id in n.jobs && n.jobs[id].state.Running? ensures Live(n, id) {
        if !a.Start? && a != Claim(id) {
          assert id in s.jobs && s.jobs[id].state.Running?;
          if s.disp == Hand(id) {
            if a.Register? { assert n.workers[s.nextTok] == Worker(id, false, false); }
          } else {
            var t :| t in s.workers && s.workers[t].job == id && !s.workers[t].wrote;
            assert t in n.workers && n.workers[t].job == id && !n.workers[t].wrote;
          }
        }
      }
    }
  }

  lemma InvStep(s: Sys, a: Act)
    requires Inv(s)
    ensures Inv(Step(s, a))
  {
    if Enabled(s, a) {
      MapsStep(s, a);
      RowsStep(s, a);
      OwnedStep(s, a);
    }
  }

  lemma {:induction false} InvExec(s: Sys, acts: seq<Act>)
    requires Inv(s)
    ensures Inv(Exec(s, acts))
    decreases |acts|
  {
    if acts != [] {
      InvExec(s, acts[..|acts| - 1]);
      InvStep(Exec(s, acts[..|acts| - 1]), acts[|acts| - 1]);
    }
  }
}
