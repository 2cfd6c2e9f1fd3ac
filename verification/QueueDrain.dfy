/** Liveness: once operators leave the queue alone, it drains. The dispatcher and the
    workers move in any fair order; executors end however they like. */
module QueueDrain {
  import opened Common
  import opened JobTable
  import opened QueueModel

  datatype Actor = Dispatch | Work(tok: Tok)

  /** One move of an actor; an actor with nothing to do leaves the state alone. */
  ghost predicate Moves(s: Sys, who: Actor, n: Sys) {
    match who
    case Dispatch =>
      if s.disp.Room? && AnyQueued(s.jobs) then exists id :: Enabled(s, Claim(id)) && n == Do(s, Claim(id))
      else n == Step(s, if s.disp.Top? then ReadLimits else if s.disp.Room? then FindEmpty else Register)
    case Work(t) =>
      if t in s.workers && !s.workers[t].wrote then exists r :: n == Step(s, Outcome(t, r))
      else n == Step(s, Cleanup(t))
  }

  /** The daemon is up, unpaused, not being stopped; what operators did before is
      arbitrary. */
  ghost predicate Open(s: Sys) {
    Inv(s) && s.up && !s.paused && !s.stopping
  }

  /** No state is stuck: every actor has a move. */
  lemma MovesExist(s: Sys, who: Actor)
    requires Open(s)
    ensures exists n :: Moves(s, who, n)
  {
    if who.Dispatch? && s.disp.Room? && AnyQueued(s.jobs) {
      var q :| q in s.jobs && s.jobs[q].state.Queued?;
      assert QueuedIn(s.jobs, q);
      NextExists(s.jobs);
      var id :| IsNext(s.jobs, id);
      assert Moves(s, who, Do(s, Claim(id)));
    } else if who.Dispatch? {
      assert Moves(s, who, Step(s, if s.disp.Top? then ReadLimits else if s.disp.Room? then FindEmpty else Register));
    } else if who.tok in s.workers && !s.workers[who.tok].wrote {
      assert Moves(s, who, Step(s, Outcome(who.tok, Success)));
    } else {
      assert Moves(s, who, Step(s, Cleanup(who.tok)));
    }
  }

  lemma OpenMoves(s: Sys, who: Actor, n: Sys)
    requires Open(s) && Moves(s, who, n)
    ensures Open(n)
  {
    hide Inv;
    if who.Dispatch? {
      if s.disp.Room? && AnyQueued(s.jobs) {
        var id :| Enabled(s, Claim(id)) && n == Do(s, Claim(id));
        InvStep(s, Claim(id));
      } else {
        InvStep(s, if s.disp.Top? then ReadLimits else if s.disp.Room? then FindEmpty else Register);
      }
    } else if who.tok in s.workers && !s.workers[who.tok].wrote {
      var r :| n == Step(s, Outcome(who.tok, r));
      InvStep(s, Outcome(who.tok, r));
    } else {
      InvStep(s, Cleanup(who.tok));
    }
  }

  /* ---- what is left to do ---- */

  function Slack(r: Row): nat {
    if r.retries <= r.maxRetries then r.maxRetries + 1 - r.retries else 0
  }

  /** A queued row may be claimed once per unused retry; a row someone is working on may
      still be queued again, whatever its state. */
  function RowPot(r: Row, live: bool): nat {
    if r.state.Queued? then 3 * Slack(r)
    else if live && Slack(r) >= 1 then 3 * Slack(r) - 2
    else 0
  }

  ghost function RowPots(s: Sys): map<Id, nat> {
    map id | id in s.jobs :: RowPot(s.jobs[id], Live(s, id))
  }

  function Unwritten(workers: map<Tok, Worker>): set<Tok> {
    set t | t in workers && !workers[t].wrote
  }

  function Executing(s: Sys): set<Tok> {
    Unwritten(s.workers)
  }

  ghost function Pot(s: Sys): nat {
    Sum(RowPots(s)) + |Executing(s)| + (if s.disp.Hand? then 1 else 0)
  }

  lemma ClaimPot(s: Sys, id: Id)
    requires Open(s) && Enabled(s, Claim(id))
    ensures Pot(Do(s, Claim(id))) < Pot(s)
  {
    var n := Do(s, Claim(id));
    assert Executing(n) == Executing(s);
    forall k | k in s.jobs && k != id ensures Live(n, k) == Live(s, k) {}
    assert RowPots(n) == RowPots(s)[id := RowPots(n)[id]];
    SumUpdate(RowPots(s), id, RowPots(n)[id]);
  }

  lemma RegisterLive(s: Sys, k: Id)
    requires Enabled(s, Register) && s.nextTok !in s.workers
    ensures Live(Do(s, Register), k) == Live(s, k)
  {
    var n := Do(s, Register);
    assert n.workers[s.nextTok].job == s.disp.id;
    assert forall t :: t in s.workers ==> n.workers[t] == s.workers[t];
  }

  lemma RegisterRows(s: Sys)
    requires Enabled(s, Register) && s.nextTok !in s.workers
    ensures RowPots(Do(s, Register)) == RowPots(s)
  {
    forall k ensures Live(Do(s, Register), k) == Live(s, k) { RegisterLive(s, k); }
  }

  lemma AddUnwritten(workers: map<Tok, Worker>, tok: Tok, id: Id)
    requires tok !in workers
    ensures Unwritten(workers[tok := Worker(id, false, false)]) == Unwritten(workers) + {tok}
    ensures |Unwritten(workers[tok := Worker(id, false, false)])| == |Unwritten(workers)| + 1
  {
    var more := Unwritten(workers[tok := Worker(id, false, false)]);
    assert more == Unwritten(workers) + {tok};
  }

  lemma RegisterPot(s: Sys)
    requires Enabled(s, Register) && s.nextTok !in s.workers
    ensures Pot(Do(s, Register)) == Pot(s)
    ensures Executing(Do(s, Register)) == Executing(s) + {s.nextTok}
  {
    RegisterRows(s);
    AddUnwritten(s.workers, s.nextTok, s.disp.id);
  }

  lemma CleanupPot(s: Sys, t: Tok)
    requires Open(s) && Enabled(s, Cleanup(t))
    ensures Pot(Do(s, Cleanup(t))) == Pot(s)
    ensures Executing(Do(s, Cleanup(t))) == Executing(s)
  {
    var n := Do(s, Cleanup(t));
    assert Executing(n) == Executing(s);
    forall k ensures Live(n, k) == Live(s, k) {
      if Live(s, k) && s.disp != Hand(k) {
        var u :| u in s.workers && s.workers[u].job == k && !s.workers[u].wrote;
        assert n.workers[u] == s.workers[u];
      }
    }
    assert RowPots(n) == RowPots(s);
  }

  lemma OutcomeLive(s: Sys, t: Tok, r: Result, k: Id)
    requires Enabled(s, Outcome(t, r)) && Live(Do(s, Outcome(t, r)), k)
    ensures Live(s, k)
  {
    var n := Do(s, Outcome(t, r));
    if n.disp != Hand(k) {
      var u :| u in n.workers && n.workers[u].job == k && !n.workers[u].wrote;
      assert u in s.workers && s.workers[u] == n.workers[u];
    }
  }

  lemma OutcomeRow(t: Table, w: Worker, r: Result, last: Id, k: Id)
    requires TableOk(t, last)
    ensures k in OutcomeTable(t, w, r) ==> k in t && (k != w.job ==> OutcomeTable(t, w, r)[k] == t[k])
    ensures k in OutcomeTable(t, w, r) && k == w.job ==>
              forall live: bool :: RowPot(OutcomeTable(t, w, r)[k], live) <= RowPot(t[k], true)
  {}

  lemma OutcomePot(s: Sys, t: Tok, r: Result)
    requires Open(s) && Enabled(s, Outcome(t, r))
    ensures Pot(Do(s, Outcome(t, r))) < Pot(s)
  {
    var n, w := Do(s, Outcome(t, r)), s.workers[t];
    assert Executing(n) == Executing(s) - {t};
    assert Live(s, w.job);
    forall k | k in n.jobs ensures k in s.jobs && RowPots(n)[k] <= RowPots(s)[k] {
      OutcomeRow(s.jobs, w, r, s.lastId, k);
      if Live(n, k) { OutcomeLive(s, t, r, k); }
    }
    SumMonotone(RowPots(n), RowPots(s));
  }

  /** Unless it uses up potential, a move changes no row, ends no execution, and starts
      one only for the job in hand. */
  ghost predicate Quiet(s: Sys, n: Sys) {
    && n.jobs == s.jobs
    && Executing(s) <= Executing(n)
    && (!s.disp.Hand? ==> !n.disp.Hand? && Executing(n) == Executing(s) && n.workers.Keys <= s.workers.Keys)
  }

  /** Looking at the limits, or finding nothing to claim. */
  lemma IdlePot(s: Sys, n: Sys)
    requires n == s.(disp := n.disp) && !s.disp.Hand? && !n.disp.Hand?
    ensures Pot(n) == Pot(s) && Quiet(s, n)
  {
    assert forall k :: Live(n, k) == Live(s, k);
    assert RowPots(n) == RowPots(s) && Executing(n) == Executing(s);
  }

  lemma DispatchPot(s: Sys, n: Sys)
    requires Open(s) && Moves(s, Dispatch, n)
    ensures Pot(n) <= Pot(s)
    ensures Pot(n) == Pot(s) ==> Quiet(s, n)
  {
    if s.disp.Room? && AnyQueued(s.jobs) {
      var id :| Enabled(s, Claim(id)) && n == Do(s, Claim(id));
      ClaimPot(s, id);
    } else if s.disp.Hand? {
      RegisterPot(s);
    } else {
      IdlePot(s, n);
    }
  }

  lemma MovePot(s: Sys, who: Actor, n: Sys)
    requires Open(s) && Moves(s, who, n)
    ensures Pot(n) <= Pot(s)
    ensures Pot(n) == Pot(s) ==> Quiet(s, n)
  {
    if who.Dispatch? {
      DispatchPot(s, n);
    } else if who.tok in s.workers && !s.workers[who.tok].wrote {
      var r :| n == Step(s, Outcome(who.tok, r));
      OutcomePot(s, who.tok, r);
    } else if who.tok in s.workers {
      CleanupPot(s, who.tok);
    }
  }

  lemma QuietSelf(s: Sys)
    ensures Quiet(s, s)
  {}

  lemma QuietTwice(a: Sys, b: Sys, c: Sys)
    requires Quiet(a, b) && Quiet(b, c)
    ensures Quiet(a, c)
  {}

  /* ---- fair behaviours ---- */

  /** An infinite run: at time i the actor turn(i) moves, and every actor's turn comes
      again and again. */
  ghost predicate Behaviour(f: nat -> Sys, turn: nat -> Actor) {
    && Open(f(0))
    && (forall i: nat :: MovesAt(f, turn, i))
    && (forall i: nat, who: Actor :: ComesAgain(turn, who, i))
  }

  ghost predicate MovesAt(f: nat -> Sys, turn: nat -> Actor, i: nat) {
    Moves(f(i), turn(i), f(i + 1))
  }

  ghost predicate ComesAgain(turn: nat -> Actor, who: Actor, i: nat) {
    exists j: nat :: i <= j && turn(j) == who
  }

  lemma {:induction false} AlwaysOpen(f: nat -> Sys, turn: nat -> Actor, i: nat)
    requires Behaviour(f, turn)
    ensures Open(f(i))
  {
    if i > 0 {
      AlwaysOpen(f, turn, i - 1);
      assert MovesAt(f, turn, i - 1);
      OpenMoves(f(i - 1), turn(i - 1), f(i));
    }
  }

  lemma {:induction false} PotNeverGrows(f: nat -> Sys, turn: nat -> Actor, i: nat, j: nat)
    requires Behaviour(f, turn) && i <= j
    ensures Pot(f(j)) <= Pot(f(i))
    decreases j
  {
    if i < j {
      PotNeverGrows(f, turn, i, j - 1);
      AlwaysOpen(f, turn, j - 1);
      assert MovesAt(f, turn, j - 1);
      MovePot(f(j - 1), turn(j - 1), f(j));
    }
  }

  lemma {:induction false} QuietStretch(f: nat -> Sys, turn: nat -> Actor, i: nat, j: nat)
    requires Behaviour(f, turn) && i <= j && Pot(f(j)) == Pot(f(i))
    ensures Quiet(f(i), f(j))
    decreases j
  {
    hide Pot, Behaviour;
    if i == j {
      QuietSelf(f(i));
    } else {
      hide Quiet;
      PotNeverGrows(f, turn, i, j - 1);
      PotNeverGrows(f, turn, j - 1, j);
      QuietStretch(f, turn, i, j - 1);
      QuietMove(f, turn, j - 1);
      QuietTwice(f(i), f(j - 1), f(j));
    }
  }

  lemma QuietMove(f: nat -> Sys, turn: nat -> Actor, i: nat)
    requires Behaviour(f, turn) && Pot(f(i + 1)) == Pot(f(i))
    ensures Quiet(f(i), f(i + 1))
  {
    AlwaysOpen(f, turn, i);
    assert MovesAt(f, turn, i);
    MovePot(f(i), turn(i), f(i + 1));
  }

  /** The next time an actor's turn comes. */
  lemma NextTurn(f: nat -> Sys, turn: nat -> Actor, i: nat, who: Actor) returns (j: nat)
    requires Behaviour(f, turn)
    ensures i <= j && turn(j) == who
    ensures forall k: nat :: i <= k < j ==> turn(k) != who
  {
    assert ComesAgain(turn, who, i);
    var far: nat :| i <= far && turn(far) == who;
    j := i;
    while turn(j) != who
      invariant i <= j <= far
      invariant forall k: nat :: i <= k < j ==> turn(k) != who
      decreases far - j
    {
      j := j + 1;
    }
  }

  /** The dispatcher stands still while it is not its turn. */
  lemma {:induction false} DispatcherWaits(f: nat -> Sys, turn: nat -> Actor, i: nat, j: nat)
    requires Behaviour(f, turn) && i <= j
    requires forall k: nat :: i <= k < j ==> turn(k) != Dispatch
    ensures f(j).disp == f(i).disp
    decreases j
  {
    if i < j {
      DispatcherWaits(f, turn, i, j - 1);
      assert MovesAt(f, turn, j - 1) && turn(j - 1) != Dispatch;
    }
  }

  /** An executing worker's outcome uses up potential. */
  lemma WorkerFinishes(f: nat -> Sys, turn: nat -> Actor, i: nat, t: Tok) returns (j: nat)
    requires Behaviour(f, turn) && t in Executing(f(i))
    ensures i < j && Pot(f(j)) < Pot(f(i))
  {
    var k := NextTurn(f, turn, i, Work(t));
    PotNeverGrows(f, turn, i, k);
    j := k + 1;
    AlwaysOpen(f, turn, k);
    assert MovesAt(f, turn, k);
    MovePot(f(k), turn(k), f(k + 1));
    if Pot(f(k)) == Pot(f(i)) {
      QuietStretch(f, turn, i, k);
      var r :| f(k + 1) == Step(f(k), Outcome(t, r));
      OutcomePot(f(k), t, r);
    }
  }

  /** A claimed job gets a worker, which finishes. */
  lemma HandFinishes(f: nat -> Sys, turn: nat -> Actor, i: nat) returns (j: nat)
    requires Behaviour(f, turn) && f(i).disp.Hand?
    ensures i < j && Pot(f(j)) < Pot(f(i))
  {
    var k := NextTurn(f, turn, i, Dispatch);
    DispatcherWaits(f, turn, i, k);
    PotNeverGrows(f, turn, i, k);
    AlwaysOpen(f, turn, k);
    assert MovesAt(f, turn, k);
    RegisterPot(f(k));
    j := WorkerFinishes(f, turn, k + 1, f(k).nextTok);
  }

  /** With nobody executing, leftover workers clean up, the dispatcher finds room and
      claims. */
  lemma QueuedIsClaimed(f: nat -> Sys, turn: nat -> Actor, i: nat) returns (j: nat)
    requires Behaviour(f, turn) && Executing(f(i)) == {} && !f(i).disp.Hand? && AnyQueued(f(i).jobs)
    ensures i < j && Pot(f(j)) < Pot(f(i))
    decreases |f(i).workers.Keys|
  {
    if f(i).workers == map[] {
      j := IdleClaims(f, turn, i);
      return;
    }
    var k := CleanupTurn(f, turn, i);
    if Pot(f(k)) < Pot(f(i)) { return k; }
    j := QueuedIsClaimed(f, turn, k);
  }

  lemma CleanupTurn(f: nat -> Sys, turn: nat -> Actor, i: nat) returns (k: nat)
    requires Behaviour(f, turn) && Executing(f(i)) == {} && !f(i).disp.Hand? && f(i).workers != map[]
    ensures i < k && Pot(f(k)) <= Pot(f(i))
    ensures Pot(f(k)) == Pot(f(i)) ==> Quiet(f(i), f(k)) && |f(k).workers.Keys| < |f(i).workers.Keys|
  {
    var t :| t in f(i).workers;
    var m := NextTurn(f, turn, i, Work(t));
    k := m + 1;
    PotNeverGrows(f, turn, i, k);
    if Pot(f(k)) == Pot(f(i)) {
      QuietUpTo(f, turn, i, m);
      AlwaysOpen(f, turn, m);
      assert MovesAt(f, turn, m);
      CleansUp(f(m), t, f(k));
      Smaller(f(k).workers.Keys, f(i).workers.Keys, t);
    }
  }

  lemma QuietUpTo(f: nat -> Sys, turn: nat -> Actor, i: nat, k: nat)
    requires Behaviour(f, turn) && i <= k && Pot(f(k + 1)) == Pot(f(i))
    ensures Quiet(f(i), f(k)) && Quiet(f(i), f(k + 1))
    ensures Pot(f(k)) == Pot(f(i))
  {
    PotNeverGrows(f, turn, i, k);
    PotNeverGrows(f, turn, k, k + 1);
    QuietStretch(f, turn, i, k);
    QuietStretch(f, turn, i, k + 1);
  }

  lemma CleansUp(s: Sys, t: Tok, n: Sys)
    requires s.up && Moves(s, Work(t), n) && t !in Executing(s)
    ensures n.workers.Keys == s.workers.Keys - {t}
  {}

  lemma Smaller(a: set<Tok>, b: set<Tok>, t: Tok)
    requires t in b && a <= b - {t}
    ensures |a| < |b|
  {
    var rest := b - {t} - a;
    assert b - {t} == a + rest;
  }

  lemma IdleClaims(f: nat -> Sys, turn: nat -> Actor, i: nat) returns (j: nat)
    requires Behaviour(f, turn) && f(i).workers == map[] && !f(i).disp.Hand? && AnyQueued(f(i).jobs)
    ensures i < j && Pot(f(j)) < Pot(f(i))
  {
    var k := IdleTurn(f, turn, i);
    if Pot(f(k)) < Pot(f(i)) { return k; }
    j := RoomClaims(f, turn, k);
  }

  lemma IdleTurn(f: nat -> Sys, turn: nat -> Actor, i: nat) returns (k: nat)
    requires Behaviour(f, turn) && f(i).workers == map[] && !f(i).disp.Hand? && AnyQueued(f(i).jobs)
    ensures i < k && Pot(f(k)) <= Pot(f(i))
    ensures Pot(f(k)) == Pot(f(i)) ==> f(k).disp.Room? && AnyQueued(f(k).jobs)
  {
    var m := NextTurn(f, turn, i, Dispatch);
    k := m + 1;
    PotNeverGrows(f, turn, i, k);
    if Pot(f(k)) == Pot(f(i)) {
      QuietUpTo(f, turn, i, m);
      AlwaysOpen(f, turn, m);
      assert MovesAt(f, turn, m);
      SeesRoom(f(m), f(k));
    }
  }

  /** A dispatcher move in an idle open daemon with a queued job either claims or finds
      room. */
  lemma SeesRoom(s: Sys, n: Sys)
    requires Open(s) && s.workers == map[] && !s.disp.Hand? && AnyQueued(s.jobs)
    requires Moves(s, Dispatch, n) && Pot(n) == Pot(s)
    ensures n.disp.Room?
  {
    Vacant(s);
    if s.disp.Room? {
      var id :| Enabled(s, Claim(id)) && n == Do(s, Claim(id));
      ClaimPot(s, id);
    }
  }

  lemma RoomClaims(f: nat -> Sys, turn: nat -> Actor, i: nat) returns (j: nat)
    requires Behaviour(f, turn) && f(i).disp.Room? && AnyQueued(f(i).jobs)
    ensures i < j && Pot(f(j)) < Pot(f(i))
  {
    var k := NextTurn(f, turn, i, Dispatch);
    j := k + 1;
    PotNeverGrows(f, turn, i, j);
    if Pot(f(j)) == Pot(f(i)) {
      QuietUpTo(f, turn, i, k);
      DispatcherWaits(f, turn, i, k);
      AlwaysOpen(f, turn, k);
      assert MovesAt(f, turn, k);
      var id :| Enabled(f(k), Claim(id)) && f(j) == Do(f(k), Claim(id));
      ClaimPot(f(k), id);
    }
  }

  /** Without workers activeJobs is empty, so an open daemon has room. */
  lemma Vacant(s: Sys)
    requires Open(s) && s.workers == map[]
    ensures |s.active| < s.limit
  {
    assert s.active == {};
  }

  lemma {:induction false} SumPositive(m: map<Id, nat>)
    requires Sum(m) > 0
    ensures exists k :: k in m && m[k] > 0
    decreases |m|
  {
    var k :| k in m && Sum(m) == m[k] + Sum(m - {k});
    if m[k] == 0 {
      SumPositive(m - {k});
      var j :| j in m - {k} && (m - {k})[j] > 0;
      assert m[j] > 0;
    }
  }

  lemma NobodyLive(s: Sys, id: Id)
    requires Executing(s) == {} && !s.disp.Hand?
    ensures !Live(s, id)
  {
    assert forall t :: t in s.workers && !s.workers[t].wrote ==> t in Executing(s);
  }

  /** Whatever is left to do, some of it gets done. */
  lemma Progress(f: nat -> Sys, turn: nat -> Actor, i: nat) returns (j: nat)
    requires Behaviour(f, turn) && Pot(f(i)) > 0
    ensures i < j && Pot(f(j)) < Pot(f(i))
  {
    if f(i).disp.Hand? {
      j := HandFinishes(f, turn, i);
    } else if t :| t in Executing(f(i)) {
      j := WorkerFinishes(f, turn, i, t);
    } else {
      SumPositive(RowPots(f(i)));
      var id :| id in f(i).jobs && RowPots(f(i))[id] > 0;
      NobodyLive(f(i), id);
      j := QueuedIsClaimed(f, turn, i);
    }
  }

  lemma ReachZero(f: nat -> Sys, turn: nat -> Actor, i: nat) returns (n: nat)
    requires Behaviour(f, turn)
    ensures Pot(f(n)) == 0
    decreases Pot(f(i))
  {
    if Pot(f(i)) == 0 { return i; }
    var j := Progress(f, turn, i);
    n := ReachZero(f, turn, j);
  }

  /** No job is queued, running or being executed. */
  predicate Drained(s: Sys) {
    && Executing(s) == {} && !s.disp.Hand?
    && forall id :: id in s.jobs ==> !s.jobs[id].state.Queued? && !s.jobs[id].state.Running?
  }

  lemma OneExecuting(s: Sys, t: Tok)
    requires t in s.workers && !s.workers[t].wrote
    ensures |Executing(s)| > 0
  {
    assert t in Executing(s);
  }

  lemma ZeroIsDrained(s: Sys)
    requires Open(s) && Pot(s) == 0
    ensures Drained(s)
  {
    assert |Executing(s)| == 0;
    forall id | id in s.jobs ensures !s.jobs[id].state.Queued? && !s.jobs[id].state.Running? {
      SumSplit(RowPots(s), id);
      if Live(s, id) {
        var t :| t in s.workers && s.workers[t].job == id && !s.workers[t].wrote;
        OneExecuting(s, t);
      }
    }
  }

  ghost predicate DrainedFrom(f: nat -> Sys, n: nat) {
    forall m: nat :: n <= m ==> Drained(f(m))
  }

  /** From any state operators may have left behind, every fair behaviour reaches a time
      from which on nothing is queued, claimed or running any more. */
  lemma QueueDrains(f: nat -> Sys, turn: nat -> Actor)
    requires Behaviour(f, turn)
    ensures exists n: nat :: DrainedFrom(f, n)
  {
    var n := ReachZero(f, turn, 0);
    forall m: nat | n <= m ensures Drained(f(m)) {
      PotNeverGrows(f, turn, n, m);
      AlwaysOpen(f, turn, m);
      ZeroIsDrained(f(m));
    }
    assert DrainedFrom(f, n);
  }

  /* ---- there are fair behaviours ---- */

  /** Rounds of turns, each with one worker more than the last: the round and the place
      in it. */
  datatype Cursor = Cursor(round: nat, place: nat)

  function CursorAt(i: nat): Cursor {
    if i == 0 then Cursor(0, 0)
    else
      var c := CursorAt(i - 1);
      if c.place < c.round then Cursor(c.round, c.place + 1) else Cursor(c.round + 1, 0)
  }

  function Rota(i: nat): Actor {
    var p := CursorAt(i).place;
    if p == 0 then Dispatch else Work(p - 1)
  }

  /** Every place is come to again. */
  lemma ComesTo(i: nat, p: nat) returns (j: nat)
    ensures i <= j && CursorAt(j).place == p
    decreases var c := CursorAt(i); if c.place <= p <= c.round then 0 else if p <= c.round then 1 else 1 + p - c.round,
              var c := CursorAt(i); if c.place <= p <= c.round then p - c.place else c.round - c.place
  {
    CursorInRound(i);
    if CursorAt(i).place == p { return i; }
    CursorInRound(i + 1);
    j := ComesTo(i + 1, p);
  }

  lemma {:induction false} CursorInRound(i: nat)
    ensures CursorAt(i).place <= CursorAt(i).round
  {
    if i > 0 { CursorInRound(i - 1); }
  }

  lemma RotaIsFair(who: Actor, i: nat)
    ensures ComesAgain(Rota, who, i)
  {
    var j := ComesTo(i, if who.Dispatch? then 0 else who.tok + 1);
    assert Rota(j) == who;
  }

  /** The run from s in which the actors take their turns by the rota. */
  ghost function Unrolled(s: Sys, i: nat): (n: Sys)
    requires Open(s)
    ensures Open(n)
  {
    if i == 0 then s
    else
      var last := Unrolled(s, i - 1);
      MovesExist(last, Rota(i - 1));
      var n :| Moves(last, Rota(i - 1), n);
      OpenMoves(last, Rota(i - 1), n);
      n
  }

  /** From every open state there is a fair behaviour. */
  lemma FairBehaviourExists(s: Sys)
    requires Open(s)
    ensures exists f: nat -> Sys :: f(0) == s && Behaviour(f, Rota)
  {
    hide Open, Moves;
    var f: nat -> Sys := (i: nat) => Unrolled(s, i);
    assert f(0) == s;
    forall i: nat ensures MovesAt(f, Rota, i) { assert f(i + 1) == Unrolled(s, i + 1); }
    forall i: nat, who: Actor ensures ComesAgain(Rota, who, i) { RotaIsFair(who, i); }
    assert Behaviour(f, Rota);
  }
}
