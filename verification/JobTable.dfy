/** The jobs table of mirrord and what each SQL statement of its Store does to it.
    Columns that no statement branches on (method, destination, flags, texts and
    times other than created_at) are not represented. */
module JobTable {

  type Id = nat

  datatype State = Queued | Running | Paused | Completed | Failed | Quarantined | Cancelled

  datatype Row = Row(state: State, priority: int, site: string, path: string,
                     created: int, retries: nat, maxRetries: nat)

  type Table = map<Id, Row>

  /* ---- row transitions ---- */

  /** RecoverOrphanedJobs: the two UPDATEs run one after the other. */
  function Requeued(r: Row): Row {
    if r.state.Running? && r.retries < r.maxRetries
    then r.(state := Queued, retries := r.retries + 1) else r
  }

  function Abandoned(r: Row): Row {
    if r.state.Running? then r.(state := Quarantined) else r
  }

  function Recovered(r: Row): Row {
    Abandoned(Requeued(r))
  }

  /** FailAndRetryJob. */
  function FailedOnce(r: Row): Row {
    if r.retries + 1 >= r.maxRetries
    then r.(state := Quarantined, retries := r.retries + 1)
    else r.(state := Queued, retries := r.retries + 1)
  }

  /** The operator transitions; each exists for one job and for a batch. */
  datatype Op = PauseOp | ResumeOp | QuarantineOp | UnquarantineOp | CancelOp | RetryOp | DeleteOp

  /** The WHERE clause of each statement, its id test apart. */
  predicate Applies(op: Op, st: State) {
    match op
    case PauseOp => st.Queued?
    case ResumeOp => st.Paused?
    case QuarantineOp => true
    case UnquarantineOp => st.Quarantined?
    case CancelOp => st.Queued? || st.Running? || st.Paused?
    case RetryOp => true
    case DeleteOp => st.Completed? || st.Failed? || st.Cancelled? || st.Quarantined?
  }

  function Changed(op: Op, r: Row): Row {
    match op
    case PauseOp => r.(state := Paused)
    case ResumeOp => r.(state := Queued)
    case QuarantineOp => r.(state := Quarantined)
    case UnquarantineOp => r.(state := Queued, retries := 0)
    case CancelOp => r.(state := Cancelled)
    case RetryOp => r.(state := Queued, retries := 0)
    case DeleteOp => r
  }

  /** The rows an UPDATE or DELETE restricted to `ids` affects. */
  function Hits(op: Op, t: Table, ids: set<Id>): set<Id> {
    set id | id in t && id in ids && Applies(op, t[id].state)
  }

  function Operated(op: Op, t: Table, ids: set<Id>): Table {
    if op.DeleteOp? then t - Hits(op, t, ids)
    else map id | id in t :: if id in Hits(op, t, ids) then Changed(op, t[id]) else t[id]
  }

  /** What a statement makes of the rows it is given: some change, some do not, and only a
      DELETE takes any away. */
  lemma OperatedRows(op: Op, t: Table, ids: set<Id>)
    ensures var n := Operated(op, t, ids);
      && n.Keys <= t.Keys && (!op.DeleteOp? ==> n.Keys == t.Keys)
      && forall id :: id in t && id !in ids ==> id in n && n[id] == t[id]
    ensures op.PauseOp? ==> forall id :: id in t && id in ids ==>
              Operated(op, t, ids)[id] == if t[id].state == Queued then t[id].(state := Paused) else t[id]
    ensures op.ResumeOp? ==> forall id :: id in t && id in ids ==>
              Operated(op, t, ids)[id] == if t[id].state == Paused then t[id].(state := Queued) else t[id]
    ensures op.QuarantineOp? ==> forall id :: id in t && id in ids ==>
              Operated(op, t, ids)[id] == t[id].(state := Quarantined)
    ensures op.UnquarantineOp? ==> forall id :: id in t && id in ids ==>
              Operated(op, t, ids)[id] == if t[id].state == Quarantined then t[id].(state := Queued, retries := 0) else t[id]
    ensures op.CancelOp? ==> forall id :: id in t && id in ids ==>
              Operated(op, t, ids)[id] == if t[id].state in {Queued, Running, Paused} then t[id].(state := Cancelled) else t[id]
    ensures op.RetryOp? ==> forall id :: id in t && id in ids ==>
              Operated(op, t, ids)[id] == t[id].(state := Queued, retries := 0)
    ensures op.DeleteOp? ==> forall id :: id in t ==>
              (id in Operated(op, t, ids) <==> id !in ids || t[id].state !in {Completed, Failed, Cancelled, Quarantined})
    ensures op.DeleteOp? ==> forall id :: id in Operated(op, t, ids) ==> Operated(op, t, ids)[id] == t[id]
  {}

  /** The states a batch by prefix is narrowed to before it is applied. */
  predicate PrefixStates(op: Op, st: State) {
    match op
    case QuarantineOp => st.Queued? || st.Paused? || st.Failed? || st.Running?
    case RetryOp => st.Failed? || st.Completed? || st.Cancelled?
    case _ => Applies(op, st)
  }

  lemma PrefixStatesSpelled(op: Op, st: State)
    ensures var allowed :=
              if op.PauseOp? then {Queued} else if op.ResumeOp? then {Paused}
              else if op.UnquarantineOp? then {Quarantined}
              else if op.QuarantineOp? then {Queued, Paused, Failed, Running}
              else if op.CancelOp? then {Queued, Running, Paused}
              else if op.RetryOp? then {Failed, Completed, Cancelled}
              else {Completed, Failed, Cancelled, Quarantined};
      PrefixStates(op, st) <==> st in allowed
  {}

  function RecoveredTable(t: Table): Table {
    map id | id in t :: Recovered(t[id])
  }

  function Finished(t: Table, id: Id, st: State): Table {
    if id in t then t[id := t[id].(state := st)] else t
  }

  function FailedAndRetried(t: Table, id: Id): Table {
    if id in t then t[id := FailedOnce(t[id])] else t
  }

  /* ---- claiming ---- */

  /** SQLite's BINARY collation. */
  predicate StrLess(a: string, b: string) {
    b != [] && (a == [] || a[0] < b[0] || (a[0] == b[0] && StrLess(a[1..], b[1..])))
  }

  predicate Busy(t: Table, site: string) {
    exists id :: id in t && t[id].state.Running? && t[id].site == site
  }

  /** The ORDER BY of ClaimNextJob. */
  predicate Before(t: Table, a: Row, b: Row) {
    if a.priority != b.priority then a.priority > b.priority
    else if Busy(t, a.site) != Busy(t, b.site) then !Busy(t, a.site)
    else if a.site != b.site then StrLess(a.site, b.site)
    else if a.path != b.path then StrLess(a.path, b.path)
    else a.created < b.created
  }

  predicate QueuedIn(t: Table, id: Id) {
    id in t && t[id].state.Queued?
  }

  /** A row LIMIT 1 may return: nothing queued sorts before it. Rows equal in
      every sort key are left in any order by SQL, so this is not unique. */
  predicate IsNext(t: Table, id: Id) {
    QueuedIn(t, id) && forall j :: j in t && QueuedIn(t, j) ==> !Before(t, t[j], t[id])
  }

  function Claimed(t: Table, id: Id): Table
    requires id in t
  {
    t[id := t[id].(state := Running)]
  }

  /* ---- the claim order is a strict weak order, so a next row exists ---- */

  lemma {:induction false} StrLessIrreflexive(a: string)
    ensures !StrLess(a, a)
  {
    if a != [] { StrLessIrreflexive(a[1..]); }
  }

  lemma {:induction false} StrLessTransitive(a: string, b: string, c: string)
    requires StrLess(a, b) && StrLess(b, c)
    ensures StrLess(a, c)
  {
    if a != [] && a[0] == b[0] && b[0] == c[0] { StrLessTransitive(a[1..], b[1..], c[1..]); }
  }

  lemma {:induction false} StrLessTotal(a: string, b: string)
    requires a != b
    ensures StrLess(a, b) || StrLess(b, a)
  {
    if a != [] && b != [] && a[0] == b[0] {
      assert a == [a[0]] + a[1..] && b == [b[0]] + b[1..];
      StrLessTotal(a[1..], b[1..]);
    }
  }

  /** A path sorts before every path that extends it. */
  lemma {:induction false} PrefixSortsFirst(a: string, b: string)
    requires a < b
    ensures StrLess(a, b)
  {
    if a != [] {
      assert b[0] == a[0] && a[1..] < b[1..];
      PrefixSortsFirst(a[1..], b[1..]);
    }
  }

  lemma {:induction false} StrLessAt(a: string, b: string, k: nat)
    requires k < |a| && k < |b| && a[..k] == b[..k] && a[k] < b[k]
    ensures StrLess(a, b)
    decreases k
  {
    if k > 0 {
      assert a[0] == a[..k][0] && b[0] == b[..k][0];
      assert a[1..][..k - 1] == a[..k][1..] && b[1..][..k - 1] == b[..k][1..];
      StrLessAt(a[1..], b[1..], k - 1);
    }
  }

  lemma {:induction false} StrLessWhere(a: string, b: string) returns (k: nat)
    requires StrLess(a, b)
    ensures a < b || (k < |a| && k < |b| && a[..k] == b[..k] && a[k] < b[k])
  {
    k := 0;
    if a != [] && a[0] == b[0] {
      k := StrLessWhere(a[1..], b[1..]);
      k := k + 1;
      assert a == [a[0]] + a[1..] && b == [b[0]] + b[1..];
      if !(a < b) { assert a[..k] == [a[0]] + a[1..][..k - 1] && b[..k] == [b[0]] + b[1..][..k - 1]; }
    }
  }

  /** It compares the first characters that differ, and a prefix is smaller. */
  lemma StrLessCompares(a: string, b: string)
    ensures StrLess(a, b) <==> a < b || exists k :: 0 <= k < |a| && k < |b| && a[..k] == b[..k] && a[k] < b[k]
  {
    if StrLess(a, b) { var k := StrLessWhere(a, b); }
    if a < b { PrefixSortsFirst(a, b); }
    if k :| 0 <= k < |a| && k < |b| && a[..k] == b[..k] && a[k] < b[k] { StrLessAt(a, b, k); }
  }

  lemma BeforeIrreflexive(t: Table, a: Row)
    ensures !Before(t, a, a)
  {}

  lemma BeforeTransitive(t: Table, a: Row, b: Row, c: Row)
    requires Before(t, a, b) && Before(t, b, c)
    ensures Before(t, a, c)
  {
    if a.site != b.site && b.site != c.site && StrLess(a.site, b.site) && StrLess(b.site, c.site) {
      StrLessTransitive(a.site, b.site, c.site);
      if a.site == c.site { StrLessIrreflexive(a.site); }
    }
    if a.path != b.path && b.path != c.path && StrLess(a.path, b.path) && StrLess(b.path, c.path) {
      StrLessTransitive(a.path, b.path, c.path);
      if a.path == c.path { StrLessIrreflexive(a.path); }
    }
  }

  lemma {:induction false} LeastOf(t: Table, ids: set<Id>) returns (least: Id)
    requires ids != {} && forall id :: id in ids ==> id in t
    ensures least in ids
    ensures forall j :: j in ids ==> !Before(t, t[j], t[least])
    decreases |ids|
  {
    var x :| x in ids;
    BeforeIrreflexive(t, t[x]);
    least := x;
    if ids != {x} {
      var m := LeastOf(t, ids - {x});
      if !Before(t, t[x], t[m]) {
        least := m;
      } else {
        forall j | j in ids ensures !Before(t, t[j], t[x]) {
          if j != x && Before(t, t[j], t[x]) { BeforeTransitive(t, t[j], t[x], t[m]); }
        }
      }
    }
  }

  /** ClaimNextJob finds a row exactly when one is queued. */
  lemma NextExists(t: Table)
    ensures (exists id :: QueuedIn(t, id)) <==> (exists id :: IsNext(t, id))
  {
    if some :| QueuedIn(t, some) {
      var ids := set id | id in t && QueuedIn(t, id);
      assert some in ids;
      var least := LeastOf(t, ids);
      assert IsNext(t, least);
    }
  }
}
