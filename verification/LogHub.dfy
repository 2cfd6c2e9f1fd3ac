/** The log hub of mirrord: per job a bounded buffer of recent lines, shifted in place,
    and live subscribers that lose lines rather than block the sender. */
module LogHub {
  import opened Common

  type JobId = nat
  type ChanId = nat    // names a subscriber channel

  datatype Log = Log(stream: string, message: string)

  /** A buffered Go channel. */
  datatype Chan = Chan(job: JobId, cap: nat, queue: seq<Log>, closed: bool)

  /** What the proofs remember about a subscription: the broadcast count at its start,
      the snapshot it got, what was sent to its channel, the positions of those lines in
      the history, how many its reader has taken, and whether it was ever full. */
  datatype Info = Info(start: nat, snapshot: seq<Log>, sent: seq<Log>, picks: seq<nat>, taken: nat, full: bool)

  function LastN<T>(s: seq<T>, n: nat): seq<T> {
    if |s| <= n then s else s[|s| - n..]
  }

  /** A non-blocking send. */
  function Offered(ch: Chan, e: Log): Chan {
    if |ch.queue| < ch.cap then ch.(queue := ch.queue + [e]) else ch
  }

  function Noted(inf: Info, ch: Chan, e: Log, at: nat): Info {
    if |ch.queue| < ch.cap then inf.(sent := inf.sent + [e], picks := inf.picks + [at]) else inf.(full := true)
  }

  ghost predicate InOrder(picks: seq<nat>, lo: nat, hi: nat) {
    && (forall i :: 0 <= i < |picks| ==> lo <= picks[i] < hi)
    && (forall i, j :: 0 <= i < j < |picks| ==> picks[i] < picks[j])
  }

  /** What a subscription and its channel have to do with the broadcast history h. */
  ghost predicate ChanOk(h: seq<Log>, ch: Chan, inf: Info) {
    && |inf.snapshot| <= inf.start <= |h| && inf.taken <= |inf.sent| == |inf.picks|
    && (forall i :: 0 <= i < |inf.snapshot| ==> inf.snapshot[i] == h[inf.start - |inf.snapshot| + i])
    && InOrder(inf.picks, inf.start, |h|)
    && (forall i :: 0 <= i < |inf.sent| ==> inf.sent[i] == h[inf.picks[i]])
    && ch.queue == inf.sent[inf.taken..]
    && (!inf.full ==> forall i :: 0 <= i < |inf.picks| ==> inf.picks[i] == inf.start + i)
    && (!inf.full && !ch.closed ==> inf.start + |inf.picks| == |h|)
  }

  ghost predicate Suffix<T>(a: seq<T>, b: seq<T>) {
    |a| <= |b| && a == b[|b| - |a|..]
  }

  lemma SuffixLast<T>(a: seq<T>, b: seq<T>, n: nat)
    requires Suffix(a, b)
    ensures Suffix(LastN(a, n), b)
  {}

  lemma SuffixAppend<T>(a: seq<T>, b: seq<T>, e: T)
    requires Suffix(a, b)
    ensures Suffix(a + [e], b + [e])
  {}

  lemma LastNAppend<T>(s: seq<T>, e: T, n: nat)
    requires n >= 1
    ensures LastN(s + [e], n) == if |LastN(s, n)| >= n then LastN(s, n)[1..] + [e] else LastN(s, n) + [e]
  {}

  lemma InOrderAppend(picks: seq<nat>, lo: nat, at: nat)
    requires InOrder(picks, lo, at) && lo <= at
    ensures InOrder(picks + [at], lo, at + 1)
  {}

  lemma InOrderLater(picks: seq<nat>, lo: nat, at: nat)
    requires InOrder(picks, lo, at)
    ensures InOrder(picks, lo, at + 1)
  {}

  lemma ChanOkOffered(h: seq<Log>, ch: Chan, inf: Info, e: Log)
    requires ChanOk(h, ch, inf) && !ch.closed
    ensures ChanOk(h + [e], Offered(ch, e), Noted(inf, ch, e, |h|))
  {
    if |ch.queue| < ch.cap {
      InOrderAppend(inf.picks, inf.start, |h|);
      assert (inf.sent + [e])[inf.taken..] == ch.queue + [e];
    } else {
      InOrderLater(inf.picks, inf.start, |h|);
    }
  }

  lemma ChanOkGrown(h: seq<Log>, ch: Chan, inf: Info, e: Log)
    requires ChanOk(h, ch, inf) && ch.closed
    ensures ChanOk(h + [e], ch, inf)
  {}

  type History = map<JobId, seq<Log>>

  function Hist(history: History, j: JobId): seq<Log> {
    if j in history then history[j] else []
  }

  function Added(history: History, j: JobId, e: Log): History {
    history[j := Hist(history, j) + [e]]
  }

  lemma AddedAt(history: History, j: JobId, e: Log)
    ensures Added(history, j, e) == history[j := (if j in history then history[j] else []) + [e]]
  {}

  ghost predicate TracksAt(since: History, history: History, cleared: set<JobId>, j: JobId) {
    && (j in since ==> j in history && Suffix(since[j], history[j]) && (j !in cleared ==> since[j] == history[j]))
    && (j in history && j !in cleared ==> j in since)
  }

  /** `since` is what was broadcast since the last Clear, `history` all of it. */
  ghost predicate Tracks(since: History, history: History, cleared: set<JobId>) {
    forall j :: TracksAt(since, history, cleared, j)
  }

  lemma TracksAdded(since: History, history: History, cleared: set<JobId>, j: JobId, e: Log)
    requires Tracks(since, history, cleared)
    ensures Tracks(Added(since, j, e), Added(history, j, e), cleared)
  {
    var since1, history1 := Added(since, j, e), Added(history, j, e);
    forall k ensures TracksAt(since1, history1, cleared, k) {
      assert TracksAt(since, history, cleared, k);
      if k == j { SuffixAppend(Hist(since, j), Hist(history, j), e); }
    }
  }

  lemma TracksCleared(since: History, history: History, cleared: set<JobId>, j: JobId)
    requires Tracks(since, history, cleared)
    ensures Tracks(since - {j}, history, cleared + {j})
  {
    forall k ensures TracksAt(since - {j}, history, cleared + {j}, k) { assert TracksAt(since, history, cleared, k); }
  }

  /** What the buffers should hold: the last lines since the last Clear. */
  function Lasts(since: History, ring: nat): History {
    map j | j in since :: LastN(since[j], ring)
  }

  /** A full buffer loses its oldest line. */
  function Pushed(buf: seq<Log>, ring: nat, e: Log): seq<Log>
    requires ring >= 1
  {
    if |buf| >= ring then buf[1..] + [e] else buf + [e]
  }

  lemma LastsAdded(since: History, ring: nat, j: JobId, e: Log)
    requires ring >= 1
    ensures Lasts(Added(since, j, e), ring) == Lasts(since, ring)[j := Pushed(Hist(Lasts(since, ring), j), ring, e)]
  {
    LastNAppend(Hist(since, j), e, ring);
  }

  lemma LastsCleared(since: History, ring: nat, j: JobId)
    ensures Lasts(since - {j}, ring) == Lasts(since, ring) - {j}
  {}

  lemma LastNAt(since: History, j: JobId, n: nat)
    ensures var h, last := if j in since then since[j] else [], LastN(Hist(since, j), n);
      |last| == (if |h| < n then |h| else n) && last == h[|h| - |last|..]
  {}

  lemma LastsAt(since: History, ring: nat, j: JobId)
    ensures Hist(Lasts(since, ring), j) == LastN(Hist(since, j), ring)
  {}

  lemma RememberOk(recent: History, since: History, history: History, cleared: set<JobId>, ring: nat, j: JobId, e: Log)
    requires ring >= 1 && recent == Lasts(since, ring) && Tracks(since, history, cleared)
    ensures recent[j := Pushed(Hist(recent, j), ring, e)] == Lasts(Added(since, j, e), ring)
    ensures Tracks(Added(since, j, e), Added(history, j, e), cleared)
  {
    LastsAdded(since, ring, j, e);
    TracksAdded(since, history, cleared, j, e);
  }

  /** A job's slice of recent lines: a backing array and the part in use. Once full, its
      lines are moved down by one place in the same array. */
  class Ring {
    const cells: array<Log>
    var used: nat

    ghost predicate Valid()
      reads this
    {
      used <= cells.Length && cells.Length >= 1
    }

    ghost function Lines(): seq<Log>
      requires Valid()
      reads this, cells
    {
      cells[..used]
    }

    constructor (ring: nat, filler: Log)
      requires ring >= 1
      ensures Valid() && fresh(cells) && cells.Length == ring && Lines() == []
    {
      cells := new Log[ring](_ => filler);
      used := 0;
    }

    method Push(e: Log)
      requires Valid()
      modifies this`used, cells
      ensures Valid() && Lines() == Pushed(old(Lines()), cells.Length, e)
      ensures Lines() == (if |old(Lines())| < cells.Length then old(Lines()) else old(Lines())[1..]) + [e]
    {
      ghost var was := cells[..];
      if used >= cells.Length {
        var i := 0;
        while i + 1 < used
          invariant 0 <= i < used == cells.Length
          invariant forall k :: 0 <= k < i ==> cells[k] == was[k + 1]
          invariant forall k :: i <= k < used ==> cells[k] == was[k]
        {
          cells[i] := cells[i + 1];
          i := i + 1;
        }
        cells[used - 1] := e;
      } else {
        cells[used] := e;
        used := used + 1;
      }
    }

    method Copy() returns (lines: array<Log>)
      requires Valid()
      ensures fresh(lines) && lines[..] == Lines()
    {
      lines := new Log[used];
      forall i | 0 <= i < used { lines[i] := cells[i]; }
    }
  }

  type Rings = map<JobId, Ring>

  /** No two jobs share a slice or a backing array. */
  ghost predicate Apart(rings: Rings) {
    forall j, k :: j in rings && k in rings && j != k ==> rings[j] != rings[k] && rings[j].cells != rings[k].cells
  }

  ghost function Memory(rings: Rings): set<object> {
    (set j | j in rings :: rings[j]) + (set j | j in rings :: rings[j].cells)
  }

  ghost predicate Shaped(rings: Rings, size: nat)
    reads Memory(rings)
  {
    size >= 1 && Apart(rings) && forall j :: j in rings ==> rings[j].Valid() && rings[j].cells.Length == size
  }

  /** What the buffers hold. */
  ghost function Held(rings: Rings, size: nat): History
    requires Shaped(rings, size)
    reads Memory(rings)
  {
    map j | j in rings :: rings[j].Lines()
  }

  lemma HeldWithout(rings: Rings, size: nat, j: JobId)
    requires Shaped(rings, size)
    ensures Memory(rings - {j}) <= Memory(rings)
    ensures Shaped(rings - {j}, size) && Held(rings - {j}, size) == Held(rings, size) - {j}
  {}

  lemma MemoryWith(rings: Rings, j: JobId, ring: Ring)
    requires j !in rings
    ensures Memory(rings[j := ring]) == Memory(rings) + {ring, ring.cells}
  {
    var more := rings[j := ring];
    assert more[j] == ring && forall k :: k in rings ==> k in more && more[k] == rings[k];
  }

  lemma ApartWith(rings: Rings, j: JobId, ring: Ring)
    requires Apart(rings) && ring !in Memory(rings) && ring.cells !in Memory(rings)
    ensures Apart(rings[j := ring])
  {
    assert forall k :: k in rings ==> rings[k] in Memory(rings) && rings[k].cells in Memory(rings);
    hide Memory;
  }

  /** A new buffer beside the others. */
  lemma HeldWith(rings: Rings, size: nat, j: JobId, ring: Ring)
    requires Shaped(rings, size) && j !in rings && ring !in Memory(rings) && ring.cells !in Memory(rings)
    requires ring.Valid() && ring.cells.Length == size && ring.Lines() == []
    ensures Memory(rings[j := ring]) == Memory(rings) + {ring, ring.cells}
    ensures Shaped(rings[j := ring], size) && Held(rings[j := ring], size) == Held(rings, size)[j := []]
  {
    MemoryWith(rings, j, ring);
    ApartWith(rings, j, ring);
    hide Memory, Apart;
  }

  lemma HeldAt(rings: Rings, size: nat, j: JobId)
    requires Shaped(rings, size)
    ensures size >= 1 && (j in rings <==> j in Held(rings, size))
    ensures j in rings ==> Held(rings, size)[j := Hist(Held(rings, size), j)] == Held(rings, size)
  {}

  predicate Subscribed(subs: map<JobId, set<ChanId>>, j: JobId, c: ChanId) {
    j in subs && c in subs[j]
  }

  ghost predicate Linked(subs: map<JobId, set<ChanId>>, chans: map<ChanId, Chan>) {
    && (forall j, c :: Subscribed(subs, j, c) ==> c in chans && chans[c].job == j)
    && (forall c :: c in chans ==> (!chans[c].closed <==> Subscribed(subs, chans[c].job, c)))
  }

  /** The subscriptions that do not agree with the history. */
  ghost function Broken(history: History, chans: map<ChanId, Chan>, infos: map<ChanId, Info>): set<ChanId> {
    set c | c in chans && !(c in infos && ChanOk(Hist(history, chans[c].job), chans[c], infos[c]))
  }

  ghost predicate EachOk(history: History, chans: map<ChanId, Chan>, infos: map<ChanId, Info>) {
    chans.Keys == infos.Keys && Broken(history, chans, infos) == {}
  }

  lemma OneOk(history: History, chans: map<ChanId, Chan>, infos: map<ChanId, Info>, c: ChanId)
    requires EachOk(history, chans, infos) && c in chans
    ensures c in infos && ChanOk(Hist(history, chans[c].job), chans[c], infos[c])
  {
    assert c !in Broken(history, chans, infos);
  }

  function Sent(subs: map<JobId, set<ChanId>>, chans: map<ChanId, Chan>, j: JobId, e: Log): map<ChanId, Chan> {
    map c | c in chans :: if Subscribed(subs, j, c) then Offered(chans[c], e) else chans[c]
  }

  ghost function SentInfos(subs: map<JobId, set<ChanId>>, chans: map<ChanId, Chan>, infos: map<ChanId, Info>,
                           j: JobId, e: Log, at: nat): map<ChanId, Info>
    requires chans.Keys == infos.Keys
  {
    map c | c in infos :: if Subscribed(subs, j, c) then Noted(infos[c], chans[c], e, at) else infos[c]
  }

  /** A subscription was sent the line, or counts as once full. */
  lemma SentInfosAt(subs: map<JobId, set<ChanId>>, chans: map<ChanId, Chan>, infos: map<ChanId, Info>,
                    j: JobId, e: Log, at: nat)
    requires chans.Keys == infos.Keys
    ensures forall c :: c in chans && j in subs && c in subs[j] ==>
              var inf := SentInfos(subs, chans, infos, j, e, at)[c];
              && (|chans[c].queue| < chans[c].cap ==> inf.sent == infos[c].sent + [e])
              && (inf.full <==> infos[c].full || |chans[c].queue| >= chans[c].cap)
  {}

  lemma OneBroadcast(history: History, subs: map<JobId, set<ChanId>>, chans: map<ChanId, Chan>,
                     infos: map<ChanId, Info>, j: JobId, e: Log, c: ChanId)
    requires chans.Keys == infos.Keys && Linked(subs, chans) && c in chans
    requires ChanOk(Hist(history, chans[c].job), chans[c], infos[c])
    ensures ChanOk(Hist(Added(history, j, e), chans[c].job), Sent(subs, chans, j, e)[c],
                   SentInfos(subs, chans, infos, j, e, |Hist(history, j)|)[c])
  {
    var h, ch, inf := Hist(history, j), chans[c], infos[c];
    var ch', inf' := Sent(subs, chans, j, e)[c], SentInfos(subs, chans, infos, j, e, |h|)[c];
    if Subscribed(subs, j, c) {
      assert ch' == Offered(ch, e) && inf' == Noted(inf, ch, e, |h|);
      ChanOkOffered(h, ch, inf, e);
    } else {
      assert ch' == ch && inf' == inf;
      if ch.job == j { ChanOkGrown(h, ch, inf, e); }
    }
  }

  lemma ChansBroadcast(history: History, subs: map<JobId, set<ChanId>>, chans: map<ChanId, Chan>,
                       infos: map<ChanId, Info>, j: JobId, e: Log)
    requires EachOk(history, chans, infos) && Linked(subs, chans)
    ensures chans.Keys == infos.Keys
    ensures EachOk(Added(history, j, e), Sent(subs, chans, j, e),
                   SentInfos(subs, chans, infos, j, e, |Hist(history, j)|))
  {
    var after, sent, noted := Added(history, j, e), Sent(subs, chans, j, e),
                              SentInfos(subs, chans, infos, j, e, |Hist(history, j)|);
    forall c | c in Broken(after, sent, noted) ensures false {
      OneOk(history, chans, infos, c);
      OneBroadcast(history, subs, chans, infos, j, e, c);
    }
  }

  lemma LinkedSent(subs: map<JobId, set<ChanId>>, chans: map<ChanId, Chan>, j: JobId, e: Log)
    requires Linked(subs, chans)
    ensures Linked(subs, Sent(subs, chans, j, e)) && Sent(subs, chans, j, e).Keys == chans.Keys
  {}

  lemma LinkedKeys(subs: map<JobId, set<ChanId>>, chans: map<ChanId, Chan>, j: JobId)
    requires Linked(subs, chans)
    ensures j in subs ==> subs[j] <= chans.Keys
  {
    assert forall c :: j in subs && c in subs[j] ==> Subscribed(subs, j, c);
  }

  lemma LinkedSubscribe(subs: map<JobId, set<ChanId>>, chans: map<ChanId, Chan>, j: JobId, c: ChanId, cap: nat)
    requires Linked(subs, chans) && c !in chans
    ensures Linked(subs[j := (if j in subs then subs[j] else {}) + {c}], chans[c := Chan(j, cap, [], false)])
  {
    var more := subs[j := (if j in subs then subs[j] else {}) + {c}];
    assert forall k, d :: Subscribed(more, k, d) <==> Subscribed(subs, k, d) || (k == j && d == c);
  }

  function Without(subs: map<JobId, set<ChanId>>, j: JobId, c: ChanId): map<JobId, set<ChanId>>
    requires j in subs
  {
    if subs[j] - {c} == {} then subs - {j} else subs[j := subs[j] - {c}]
  }

  /** A job loses that one subscriber, and goes with the last. */
  lemma WithoutSpelled(subs: map<JobId, set<ChanId>>, j: JobId, c: ChanId)
    requires j in subs
    ensures forall k :: k != j ==>
              (k in Without(subs, j, c) <==> k in subs) && (k in subs ==> Without(subs, j, c)[k] == subs[k])
    ensures j in Without(subs, j, c) <==> exists d :: d in subs[j] && d != c
    ensures j in Without(subs, j, c) ==> Without(subs, j, c)[j] == subs[j] - {c}
  {
    if d :| d in subs[j] && d != c { assert d in subs[j] - {c}; }
  }

  lemma LinkedWithout(subs: map<JobId, set<ChanId>>, chans: map<ChanId, Chan>, c: ChanId)
    requires Linked(subs, chans) && c in chans && !chans[c].closed
    ensures chans[c].job in subs
    ensures Linked(Without(subs, chans[c].job, c), chans[c := chans[c].(closed := true)])
  {
    var j := chans[c].job;
    assert Subscribed(subs, j, c);
    var less := Without(subs, j, c);
    forall k, d ensures Subscribed(less, k, d) <==> Subscribed(subs, k, d) && !(k == j && d == c) {
      if k == j && d != c && d in subs[j] { assert d in subs[j] - {c}; }
    }
  }

  lemma EachUpdate(history: History, chans: map<ChanId, Chan>, infos: map<ChanId, Info>, c: ChanId, ch: Chan, inf: Info)
    requires EachOk(history, chans, infos) && ChanOk(Hist(history, ch.job), ch, inf)
    ensures EachOk(history, chans[c := ch], infos[c := inf])
  {
    var chans', infos' := chans[c := ch], infos[c := inf];
    forall d | d in Broken(history, chans', infos') ensures false {
      if d != c { OneOk(history, chans, infos, d); }
    }
  }

  lemma NewChanOk(h: seq<Log>, recent: seq<Log>, j: JobId, cap: nat)
    requires Suffix(recent, h)
    ensures ChanOk(h, Chan(j, cap, [], false), Info(|h|, recent, [], [], 0, false))
  {}

  lemma ChanOkTaken(h: seq<Log>, ch: Chan, inf: Info)
    requires ChanOk(h, ch, inf) && ch.queue != []
    ensures ChanOk(h, ch.(queue := ch.queue[1..]), inf.(taken := inf.taken + 1))
    ensures ch.queue[0] == inf.sent[inf.taken]
  {}

  class Hub {
    const ringSize: nat
    var recentLogs: Rings
    var subscribers: map<JobId, set<ChanId>>
    var chans: map<ChanId, Chan>
    var nextChan: ChanId
    ghost var history: History                  // everything ever broadcast
    ghost var since: History                    // what was broadcast since the last Clear
    ghost var cleared: set<JobId>
    ghost var infos: map<ChanId, Info>

    /** Every buffer holds the last ringSize lines broadcast since the last Clear. */
    ghost predicate BufferOk()
      reads this`recentLogs, this`history, this`since, this`cleared, Memory(recentLogs)
    {
      && Shaped(recentLogs, ringSize) && Held(recentLogs, ringSize) == Lasts(since, ringSize)
      && Tracks(since, history, cleared)
    }

    ghost predicate Valid()
      reads this, Memory(recentLogs)
    {
      && BufferOk()
      && EachOk(history, chans, infos) && Linked(subscribers, chans)
      && (forall c :: c in chans ==> c < nextChan)
    }

    lemma Outside()
      ensures this !in Memory(recentLogs) && allocated(Memory(recentLogs))
      ensures forall j :: j in recentLogs ==>
                recentLogs[j] in Memory(recentLogs) && recentLogs[j].cells in Memory(recentLogs)
    {}

    constructor (size: int)
      ensures Valid() && recentLogs == map[]
      ensures ringSize == if size <= 0 then 500 else size
      ensures history == map[] && chans == map[]
    {
      ringSize := if size <= 0 then 500 else size;
      recentLogs, subscribers, chans, nextChan := map[], map[], map[], 0;
      history, since, cleared, infos := map[], map[], {}, map[];
    }

    /** Offers the line to every live subscriber of the job. */
    method FanOut(j: JobId, e: Log)
      requires j in subscribers ==> subscribers[j] <= chans.Keys
      modifies this`chans
      ensures chans == Sent(subscribers, old(chans), j, e)
      // a channel with room gets the line at the end, one that is full stays as it is
      ensures chans.Keys == old(chans).Keys && forall c :: c in chans ==>
                chans[c] == if j in subscribers && c in subscribers[j] && |old(chans)[c].queue| < old(chans)[c].cap
                            then old(chans)[c].(queue := old(chans)[c].queue + [e]) else old(chans)[c]
    {
      var todo := if j in subscribers then subscribers[j] else {};
      ghost var all, was := todo, chans;
      while todo != {}
        invariant todo <= all <= was.Keys && chans.Keys == was.Keys
        invariant forall c :: c in was ==> chans[c] == if c in all && c !in todo then Offered(was[c], e) else was[c]
        decreases todo
      {
        var c :| c in todo;
        if |chans[c].queue| < chans[c].cap {
          chans := chans[c := chans[c].(queue := chans[c].queue + [e])];
        }
        todo := todo - {c};
      }
    }

    /** A job without a buffer gets an empty one. */
    method GiveBuffer(j: JobId)
      requires Shaped(recentLogs, ringSize)
      modifies this`recentLogs
      ensures Shaped(recentLogs, ringSize) && fresh(Memory(recentLogs) - old(Memory(recentLogs))) && j in recentLogs
      ensures Held(recentLogs, ringSize) == old(Held(recentLogs, ringSize))[j := old(Hist(Held(recentLogs, ringSize), j))]
    {
      hide Shaped, Held, Memory;
      Outside();
      HeldAt(recentLogs, ringSize, j);
      if j !in recentLogs {
        var ring := new Ring(ringSize, Log("", ""));
        HeldWith(recentLogs, ringSize, j, ring);
        recentLogs := recentLogs[j := ring];
      }
    }

    /** Pushing to one job's buffer leaves the others alone. */
    method PushTo(j: JobId, e: Log)
      requires Shaped(recentLogs, ringSize) && j in recentLogs
      modifies recentLogs[j], recentLogs[j].cells
      ensures Shaped(recentLogs, ringSize)
      ensures var was := old(Held(recentLogs, ringSize));
        Held(recentLogs, ringSize) == was[j := Pushed(Hist(was, j), ringSize, e)]
    {
      ghost var was := Held(recentLogs, ringSize);
      recentLogs[j].Push(e);
      assert forall k :: k in recentLogs && k != j ==> recentLogs[k].Lines() == was[k];
    }

    /** The line enters the job's history and its buffer. */
    method Remember(j: JobId, e: Log)
      requires BufferOk()
      modifies this`recentLogs, this`history, this`since, Memory(recentLogs)
      ensures BufferOk() && history == Added(old(history), j, e) && since == Added(old(since), j, e)
      ensures fresh(Memory(recentLogs) - old(Memory(recentLogs)))
    {
      hide Shaped, Held, Memory, Lasts, Tracks, Added, Pushed;
      Outside();
      BufferTells(j);
      RememberOk(Held(recentLogs, ringSize), since, history, cleared, ringSize, j, e);
      GiveBuffer(j);
      Outside();
      PushTo(j, e);
      history, since := Added(history, j, e), Added(since, j, e);
    }

    method Broadcast(j: JobId, e: Log)
      requires Valid()
      modifies this`recentLogs, this`history, this`since, this`chans, this`infos, Memory(recentLogs)
      ensures Valid() && fresh(Memory(recentLogs) - old(Memory(recentLogs)))
      ensures history == Added(old(history), j, e)
      ensures chans == Sent(subscribers, old(chans), j, e)
      ensures infos == SentInfos(subscribers, old(chans), old(infos), j, e, |Hist(old(history), j)|)
    {
      hide BufferOk, Memory, Added, Linked, EachOk, Sent, SentInfos;
      Outside();
      ChansBroadcast(history, subscribers, chans, infos, j, e);
      LinkedSent(subscribers, chans, j, e);
      LinkedKeys(subscribers, chans, j);
      infos := SentInfos(subscribers, chans, infos, j, e, |Hist(history, j)|);
      Remember(j, e);
      Outside();
      FanOut(j, e);
    }

    lemma BufferTells(j: JobId)
      requires BufferOk()
      ensures j in recentLogs ==> recentLogs[j].Valid() && recentLogs[j].Lines() == LastN(Hist(since, j), ringSize)
      ensures j !in recentLogs ==> LastN(Hist(since, j), ringSize) == []
      ensures Suffix(LastN(Hist(since, j), ringSize), Hist(history, j)) && ringSize >= 1
    {
      assert TracksAt(since, history, cleared, j);
      SuffixLast(Hist(since, j), Hist(history, j), ringSize);
      LastsAt(since, ringSize, j);
      hide LastN, Suffix;
      assert Hist(Held(recentLogs, ringSize), j) == LastN(Hist(since, j), ringSize);
    }

    /** A copy of the job's buffer in an array of its own. */
    method RecentCopy(j: JobId) returns (recent: array<Log>)
      requires BufferOk()
      ensures fresh(recent) && recent[..] == LastN(Hist(since, j), ringSize) && Suffix(recent[..], Hist(history, j))
      ensures BufferOk()
    {
      hide BufferOk, LastN, Suffix, Shaped, Memory;
      Outside();
      BufferTells(j);
      recent := new Log[0];
      if j in recentLogs { recent := recentLogs[j].Copy(); }
    }

    /** The snapshot is a copy: a new array that no buffer uses. */
    method Subscribe(j: JobId, bufferSize: int) returns (c: ChanId, recent: array<Log>)
      requires Valid()
      modifies this`subscribers, this`chans, this`nextChan, this`infos
      ensures Valid()
      ensures c !in old(chans)
      ensures chans == old(chans)[c := Chan(j, if bufferSize <= 0 then 100 else bufferSize, [], false)]
      ensures fresh(recent) && recent[..] == LastN(Hist(since, j), ringSize)
      ensures subscribers == old(subscribers)[j := (if j in old(subscribers) then old(subscribers)[j] else {}) + {c}]
      ensures infos == old(infos)[c := Info(|Hist(history, j)|, recent[..], [], [], 0, false)]
    {
      hide BufferOk, Memory, Linked, EachOk, ChanOk, LastN, Hist;
      Outside();
      var cap: nat := if bufferSize <= 0 then 100 else bufferSize;
      c := nextChan;
      recent := RecentCopy(j);
      NewChanOk(Hist(history, j), recent[..], j, cap);
      LinkedSubscribe(subscribers, chans, j, c, cap);
      ghost var inf := Info(|Hist(history, j)|, recent[..], [], [], 0, false);
      EachUpdate(history, chans, infos, c, Chan(j, cap, [], false), inf);
      var subs := if j in subscribers then subscribers[j] else {};
      nextChan, chans, subscribers, infos := nextChan + 1, chans[c := Chan(j, cap, [], false)],
        subscribers[j := subs + {c}], infos[c := inf];
    }

    /** The subscriber must be a live one of this job: closing a closed channel panics. */
    method Unsubscribe(j: JobId, c: ChanId)
      requires Valid() && c in chans && !chans[c].closed && chans[c].job == j
      modifies this`subscribers, this`chans
      ensures Valid() && chans == old(chans)[c := old(chans)[c].(closed := true)]
      ensures j in old(subscribers) && subscribers == Without(old(subscribers), j, c)
    {
      hide BufferOk, Memory, EachOk, ChanOk;
      Outside();
      LinkedWithout(subscribers, chans, c);
      hide Linked;
      OneOk(history, chans, infos, c);
      EachUpdate(history, chans, infos, c, chans[c].(closed := true), infos[c]);
      assert infos[c := infos[c]] == infos;
      var subs := subscribers[j] - {c};
      if subs == {} { subscribers := subscribers - {j}; }
      else { subscribers := subscribers[j := subs]; }
      chans := chans[c := chans[c].(closed := true)];
    }

    method Clear(j: JobId)
      requires Valid()
      modifies this`recentLogs, this`since, this`cleared
      ensures Valid() && recentLogs == old(recentLogs) - {j}
      ensures since == old(since) - {j} && cleared == old(cleared) + {j}
    {
      hide Memory, Shaped, Held, Lasts, Tracks, EachOk, Linked;
      TracksCleared(since, history, cleared, j);
      LastsCleared(since, ringSize, j);
      Outside();
      HeldWithout(recentLogs, ringSize, j);
      recentLogs, since, cleared := recentLogs - {j}, since - {j}, cleared + {j};
    }

    /** The reader of a subscription takes the next line. */
    method Receive(c: ChanId) returns (e: Option<Log>)
      requires Valid() && c in chans
      modifies this`chans, this`infos
      ensures Valid() && c in old(infos)
      ensures old(chans)[c].queue == [] ==> e.None? && chans == old(chans) && infos == old(infos)
      ensures old(chans)[c].queue != [] ==>
                && e == Some(old(chans)[c].queue[0])
                && chans == old(chans)[c := old(chans)[c].(queue := old(chans)[c].queue[1..])]
                && infos == old(infos)[c := old(infos)[c].(taken := old(infos)[c].taken + 1)]
    {
      hide BufferOk, Memory, EachOk, ChanOk;
      Outside();
      var ch := chans[c];
      OneOk(history, chans, infos, c);
      if ch.queue == [] { return None; }
      e := Some(ch.queue[0]);
      ChanOkTaken(Hist(history, ch.job), ch, infos[c]);
      EachUpdate(history, chans, infos, c, ch.(queue := ch.queue[1..]), infos[c].(taken := infos[c].taken + 1));
      chans := chans[c := ch.(queue := ch.queue[1..])];
      infos := infos[c := infos[c].(taken := infos[c].taken + 1)];
    }

    /** However many lines follow, of this job or others, the snapshot stays what it was. */
    method SnapshotStands(j: JobId, bufferSize: int, lines: seq<(JobId, Log)>) returns (recent: array<Log>)
      requires Valid()
      modifies this, Memory(recentLogs)
      ensures Valid() && recent[..] == LastN(old(Hist(since, j)), ringSize)
    {
      hide Shaped, Held, Lasts, Tracks, EachOk, Linked;
      var c;
      c, recent := Subscribe(j, bufferSize);
      var i := 0;
      while i < |lines|
        invariant i <= |lines| && Valid() && fresh(Memory(recentLogs) - old(Memory(recentLogs)))
        invariant fresh(recent) && recent !in Memory(recentLogs) && recent[..] == LastN(old(Hist(since, j)), ringSize)
      {
        Broadcast(lines[i].0, lines[i].1);
        i := i + 1;
      }
    }

    /** For a job that was never cleared the buffer is the end of its whole history. */
    lemma RecentIsHistoryEnd(j: JobId)
      requires Valid() && j !in cleared
      ensures Hist(Held(recentLogs, ringSize), j) == LastN(Hist(history, j), ringSize)
      ensures var h, recent := Hist(history, j), if j in recentLogs then recentLogs[j].Lines() else [];
        |recent| == (if |h| < ringSize then |h| else ringSize) && recent == h[|h| - |recent|..]
    {
      assert TracksAt(since, history, cleared, j);
    }

    /** What holds for one subscription (SubscriberSees) holds for all of them. */
    lemma SubscriberGets(c: ChanId)
      requires Valid() && c in chans
      ensures c in infos && ChanOk(Hist(history, chans[c].job), chans[c], infos[c])
      ensures var h, ch, inf := Hist(history, chans[c].job), chans[c], infos[c];
        && inf.sent == inf.sent[..inf.taken] + ch.queue
        && InOrder(inf.picks, inf.start, |h|) && |inf.picks| == |inf.sent|
        && (forall i :: 0 <= i < |inf.sent| ==> inf.sent[i] == h[inf.picks[i]])
        && (!inf.full && !ch.closed ==> inf.snapshot + inf.sent == h[inf.start - |inf.snapshot|..])
    {
      OneOk(history, chans, infos, c);
      SubscriberSees(Hist(history, chans[c].job), chans[c], infos[c]);
    }
  }

  /** What a subscriber got: its lines are an in-order selection of what was broadcast
      after it subscribed, and while its buffer was never full, snapshot and lines
      together are one gap-free stretch of the history that, for a live subscriber,
      reaches to its end. */
  lemma SubscriberSees(h: seq<Log>, ch: Chan, inf: Info)
    requires ChanOk(h, ch, inf)
    ensures inf.sent == inf.sent[..inf.taken] + ch.queue
    ensures InOrder(inf.picks, inf.start, |h|) && |inf.picks| == |inf.sent|
    ensures forall i :: 0 <= i < |inf.sent| ==> inf.sent[i] == h[inf.picks[i]]
    ensures !inf.full ==>
              && inf.start + |inf.sent| <= |h|
              && inf.snapshot + inf.sent == h[inf.start - |inf.snapshot|..inf.start + |inf.sent|]
              && (!ch.closed ==> inf.start + |inf.sent| == |h|)
  {
    if !inf.full && inf.sent != [] { assert inf.picks[|inf.sent| - 1] < |h|; }
  }
}
