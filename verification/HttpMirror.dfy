/** The crawler of httpmirror. A run can be cut off before any write to the database (the
    same as crashing there), and every request can fail; what is on record afterwards is
    stated in each method's contract. */
module HttpMirror {
  import opened Common
  import opened HttpModel

  const MAX_ATTEMPTS := 3

  /** How one attempt at a URL, and a whole run, can end. */
  datatype Attempt = Handled | Permanent(code: nat) | Local | Transient | Cut
  datatype Outcome = Clean | Partial | Stopped

  /** What every table built with one scope satisfies at every moment. */
  ghost predicate Kept(sc: Scope, names: Names, rows: seq<Row>, files: Files) {
    Unique(rows) && LinksInScope(sc, rows) && Named(sc, names, rows, files) && Filed(names, rows, files)
  }

  /** Only bodies without a length were cut short. */
  ghost predicate ShortOnly(web: Web, a: Files, b: Files) {
    forall u :: u in b.short ==> u in a.short || Unsized(web, u)
  }

  /** An attempt at u may tear u's file if it is cut off, and only that; and its body may
      be cut short if that has no length. */
  ghost predicate TornBy(web: Web, a: Files, b: Files, cut: bool, u: Url) {
    && b.torn <= (if cut then a.torn + {u} else a.torn)
    && forall x :: x in b.short ==> x in a.short || (x == u && Unsized(web, u))
  }

  lemma TornSelf(web: Web, a: Files, u: Url)
    ensures TornBy(web, a, a, true, u) && TornBy(web, a, a, false, u)
  {}

  lemma TornTwice(web: Web, a: Files, b: Files, c: Files, cut: bool, u: Url)
    requires TornBy(web, a, b, false, u) && TornBy(web, b, c, cut, u)
    ensures TornBy(web, a, c, cut, u)
  {}

  ghost predicate AtMostOneTorn(a: Files, b: Files) {
    |b.torn - a.torn| <= 1
  }

  lemma TornOnly(web: Web, a: Files, b: Files, c: Files, u: Url)
    requires b.torn <= a.torn && TornBy(web, b, c, false, u)
    ensures c.torn <= a.torn
  {}

  lemma NoneTorn(a: Files, b: Files)
    requires b.torn <= a.torn
    ensures AtMostOneTorn(a, b)
  {
    assert b.torn - a.torn == {};
  }

  lemma LastTorn(web: Web, a: Files, b: Files, c: Files, u: Url)
    requires b.torn <= a.torn && TornBy(web, b, c, true, u)
    ensures AtMostOneTorn(a, c)
  {
    SubsetSize(c.torn - a.torn, {u});
  }

  /** Ids in ascending order, each below n. */
  ghost predicate Ascending(ids: seq<nat>, n: nat) {
    (forall j, k :: 0 <= j < k < |ids| ==> ids[j] < ids[k]) && forall j :: 0 <= j < |ids| ==> ids[j] < n
  }

  lemma AscendingNone()
    ensures Ascending([], 0)
  {}

  lemma AscendingNext(ids: seq<nat>, n: nat, i: nat)
    requires Ascending(ids, n) && n <= i
    ensures Ascending(ids + [i], i + 1)
  {}

  lemma AscendingBelow(ids: seq<nat>, n: nat, m: nat)
    requires Ascending(ids, n) && n <= m
    ensures Ascending(ids, m)
  {}

  ghost predicate Below(rows: seq<Row>, n: nat) {
    forall i :: 0 <= i < |rows| && i < n ==> !rows[i].state.Pending?
  }

  /** SELECT ... WHERE state = 'pending' AND id > ? ORDER BY id LIMIT 1. */
  function NextPending(rows: seq<Row>, next: nat): (i: nat)
    requires next <= |rows|
    ensures next <= i <= |rows| && (i < |rows| ==> rows[i].state.Pending?) && (Below(rows, next) ==> Below(rows, i))
  {
    NextOf(rows, (r: Row) => r.state.Pending?, next)
  }

  lemma NoStranger(sc: Scope, rows: seq<Row>, i: nat)
    requires LinksInScope(sc, rows) && i < |rows|
    ensures rows[i].requisite || InScope(sc, rows[i].url)
  {}

  lemma BelowNone(rows: seq<Row>)
    ensures Below(rows, 0)
  {}

  ghost predicate NoErrors(rows: seq<Row>) {
    forall i :: 0 <= i < |rows| ==> !rows[i].state.Errored?
  }

  /** Row i may change state and validators, all else as in Grown. */
  ghost predicate GrownBut(a: seq<Row>, b: seq<Row>, i: nat) {
    i < |a| <= |b| && b[i].url == a[i].url && Grown(a[i := b[i]], b)
  }

  lemma GrownIsGrownBut(a: seq<Row>, b: seq<Row>, i: nat)
    requires Grown(a, b) && i < |a|
    ensures GrownBut(a, b, i)
  {}

  lemma GrownThenDone(a: seq<Row>, b: seq<Row>, i: nat, r: Row)
    requires Grown(a, b) && i < |a| && r.url == a[i].url && r.requisite == b[i].requisite
    ensures GrownBut(a, b[i := r], i)
  {
    var a1, c := a[i := r], b[i := r];
    assert forall k :: 0 <= k < |a| && k != i ==> a1[k] == a[k];
    assert forall k :: 0 <= k < |b| && k != i ==> c[k] == b[k];
    assert Grown(a1, c);
  }

  /** What a loop over `us` enqueues. */
  function Targets(sc: Scope, us: seq<Url>, requisite: bool, listing: bool): set<Url> {
    set u: Url | u in us && (requisite || InScope(sc, u)) && (listing ==> u.query == "")
  }

  lemma TargetsStep(sc: Scope, us: seq<Url>, requisite: bool, listing: bool, i: nat)
    requires i < |us|
    ensures Targets(sc, us[..i + 1], requisite, listing)
         == Targets(sc, us[..i], requisite, listing)
          + (if (requisite || InScope(sc, us[i])) && (listing ==> us[i].query == "") then {us[i]} else {})
  {
    assert us[..i + 1] == us[..i] + [us[i]];
  }

  lemma EnqueuedNone(sc: Scope, us: seq<Url>, requisite: bool, listing: bool, rows: seq<Row>)
    ensures Grown(rows, rows) && Recorded(rows) == Recorded(rows) + Targets(sc, us[..0], requisite, listing)
  {
    assert Targets(sc, us[..0], requisite, listing) == {};
  }

  /** One more turn of an enqueue loop. */
  lemma EnqueuedNext(sc: Scope, us: seq<Url>, requisite: bool, listing: bool, first: seq<Row>, rows: seq<Row>, i: nat)
    requires i < |us| && Unique(rows) && LinksInScope(sc, rows) && Grown(first, rows)
    requires Recorded(rows) == Recorded(first) + Targets(sc, us[..i], requisite, listing)
    ensures var n := if listing && us[i].query != "" then rows else Enqueued(sc, rows, us[i], requisite);
      && Unique(n) && LinksInScope(sc, n) && Grown(first, n)
      && Recorded(n) == Recorded(first) + Targets(sc, us[..i + 1], requisite, listing)
  {
    TargetsStep(sc, us, requisite, listing, i);
    if !(listing && us[i].query != "") {
      EnqueuedGrows(sc, rows, us[i], requisite);
      GrownTrans(first, rows, Enqueued(sc, rows, us[i], requisite));
    }
  }

  lemma TargetsGrow(sc: Scope, us: seq<Url>, requisite: bool, listing: bool, i: nat)
    requires i <= |us|
    ensures Targets(sc, us[..i], requisite, listing) <= Targets(sc, us, requisite, listing)
  {}

  lemma GrownKeeps(sc: Scope, web: Web, names: Names, a: seq<Row>, b: seq<Row>, files: Files)
    requires Grown(a, b) && Named(sc, names, a, files)
    ensures Named(sc, names, b, files) && Recorded(a) <= Recorded(b)
    ensures Settled(sc, web, a, files) ==> Settled(sc, web, b, files)
    ensures Filed(names, a, files) ==> Filed(names, b, files)
  {
    GrownRecords(a, b);
    GrownKeepsNamed(sc, names, a, b, files);
    if Settled(sc, web, a, files) { GrownKeepsSettled(sc, web, a, b, files); }
  }

  /** Finishing a row whose expansion is on record. */
  lemma DoneKeeps(sc: Scope, web: Web, names: Names, rows: seq<Row>, files: Files, i: nat, r: Row)
    requires i < |rows| && r.url == rows[i].url && r.requisite == rows[i].requisite
    requires Kept(sc, names, rows, files)
    requires NamedOk(sc, names, r, Recorded(rows), files) && FiledOk(names, r, files)
    ensures Kept(sc, names, rows[i := r], files) && Recorded(rows[i := r]) == Recorded(rows)
    ensures Settled(sc, web, rows, files) && SettledOk(sc, web, r, Recorded(rows), files) ==>
              Settled(sc, web, rows[i := r], files)
  {
    var n := rows[i := r];
    assert forall k :: 0 <= k < |rows| ==> n[k].url == rows[k].url;
    forall u | u in Recorded(rows) ensures u in Recorded(n) {
      var k :| 0 <= k < |rows| && rows[k].url == u;
      assert n[k].url == u;
    }
    assert Recorded(n) == Recorded(rows);
    forall k | 0 <= k < |n| ensures NamedOk(sc, names, n[k], Recorded(n), files) {
      if k != i { assert NamedOk(sc, names, rows[k], Recorded(rows), files); }
    }
    if Settled(sc, web, rows, files) && SettledOk(sc, web, r, Recorded(rows), files) {
      forall k | 0 <= k < |n| ensures SettledOk(sc, web, n[k], Recorded(n), files) {
        if k != i { assert SettledOk(sc, web, rows[k], Recorded(rows), files); }
      }
    }
  }

  /** What is known of u's file changes, and of no other. */
  ghost predicate OneFile(a: Files, b: Files, u: Url) {
    && b.body - {u} == a.body - {u} && b.torn - {u} == a.torn - {u} && b.short - {u} == a.short - {u}
    && (u in a.body ==> u in b.body)
  }

  lemma OneFileAt(a: Files, b: Files, u: Url, x: Url)
    requires OneFile(a, b, u) && x != u
    ensures (x in b.body <==> x in a.body) && (x in a.body ==> b.body[x] == a.body[x])
    ensures (x in b.torn <==> x in a.torn) && (x in b.short <==> x in a.short)
  {
    assert x in b.body - {u} <==> x in a.body - {u};
    assert x in a.body ==> (b.body - {u})[x] == (a.body - {u})[x];
    assert x in b.torn - {u} <==> x in a.torn - {u};
    assert x in b.short - {u} <==> x in a.short - {u};
  }

  /** Rows of other URLs do not mind. */
  lemma OneFileKeeps(sc: Scope, web: Web, names: Names, rows: seq<Row>, a: Files, b: Files, i: nat)
    requires i < |rows| && Kept(sc, names, rows, a) && OneFile(a, b, rows[i].url)
    requires NamedOk(sc, names, rows[i], Recorded(rows), b) && FiledOk(names, rows[i], b)
    ensures Kept(sc, names, rows, b)
    ensures Settled(sc, web, rows, a) && SettledOk(sc, web, rows[i], Recorded(rows), b) ==> Settled(sc, web, rows, b)
  {
    forall k | 0 <= k < |rows|
      ensures NamedOk(sc, names, rows[k], Recorded(rows), b) && FiledOk(names, rows[k], b)
    {
      assert NamedOk(sc, names, rows[k], Recorded(rows), a) && FiledOk(names, rows[k], a);
      if k != i { OneFileAt(a, b, rows[i].url, rows[k].url); }
    }
    if Settled(sc, web, rows, a) && SettledOk(sc, web, rows[i], Recorded(rows), b) {
      forall k | 0 <= k < |rows| ensures SettledOk(sc, web, rows[k], Recorded(rows), b) {
        assert SettledOk(sc, web, rows[k], Recorded(rows), a);
        if k != i { OneFileAt(a, b, rows[i].url, rows[k].url); }
      }
    }
  }

  /** What a body, or a part of it, leaves before its row is finished: unless it is a
      listing, a new file, which counts as torn until the row has its validators. */
  function Arrived(files: Files, u: Url, page: Page, listing: bool, whole: bool): Files {
    Files(if listing then files.body else files.body[u := page],
          if listing then files.torn else files.torn + {u},
          if whole then files.short else files.short + {u})
  }

  lemma ArrivedKeeps(sc: Scope, web: Web, names: Names, rows: seq<Row>, files: Files, i: nat, page: Page,
                     listing: bool, whole: bool)
    requires i < |rows| && rows[i].state.Pending? && Kept(sc, names, rows, files) && web(rows[i].url).Body?
    requires whole ==> page == web(rows[i].url).page
    ensures var n := Arrived(files, rows[i].url, page, listing, whole);
      && Kept(sc, names, rows, n) && (Settled(sc, web, rows, files) ==> Settled(sc, web, rows, n))
      && (TrueFiles(web, files) ==> TrueFiles(web, n))
  {
    var n := Arrived(files, rows[i].url, page, listing, whole);
    assert NamedOk(sc, names, rows[i], Recorded(rows), files) && FiledOk(names, rows[i], files);
    OneFileKeeps(sc, web, names, rows, files, n, i);
  }

  /** And once it is: the file is no longer torn, and if all of it came it is no longer cut
      short, but for a file kept from when the listing was none. */
  function Mended(files: Files, u: Url, listing: bool, whole: bool): Files {
    Files(files.body,
          if listing then files.torn else files.torn - {u},
          if whole && !(listing && u in files.body) then files.short - {u} else files.short)
  }

  lemma MendedKeeps(sc: Scope, web: Web, names: Names, rows: seq<Row>, files: Files, i: nat, listing: bool, whole: bool)
    requires i < |rows| && Kept(sc, names, rows, files) && web(rows[i].url).Body?
    requires whole || rows[i].url in files.short
    requires listing == (web(rows[i].url).page.Listing? && InScope(sc, rows[i].url))
    requires if listing then rows[i].etag == "" && rows[i].lastMod == "" else rows[i].url in files.body
    requires whole ==> PageKids(sc, rows[i].url, web(rows[i].url).page) <= Recorded(rows)
    requires whole && !listing ==> files.body[rows[i].url] == web(rows[i].url).page
    requires whole && (rows[i].etag != "" || rows[i].lastMod != "") ==>
               names(rows[i].url, rows[i].etag, rows[i].lastMod) == web(rows[i].url).page
    ensures var n := Mended(files, rows[i].url, listing, whole);
      && Kept(sc, names, rows, n) && (Settled(sc, web, rows, files) ==> Settled(sc, web, rows, n))
      && (TrueFiles(web, files) ==> TrueFiles(web, n))
  {
    var n := Mended(files, rows[i].url, listing, whole);
    assert NamedOk(sc, names, rows[i], Recorded(rows), files) && FiledOk(names, rows[i], files);
    if Settled(sc, web, rows, files) { assert SettledOk(sc, web, rows[i], Recorded(rows), files); }
    OneFileKeeps(sc, web, names, rows, files, n, i);
  }

  lemma GrownButTwice(a: seq<Row>, b: seq<Row>, c: seq<Row>, i: nat)
    requires GrownBut(a, b, i) && GrownBut(b, c, i)
    ensures GrownBut(a, c, i)
  {
    var a1, b1 := a[i := c[i]], b[i := c[i]];
    assert forall k :: 0 <= k < |a| && k != i ==> a1[k] == a[k] && b1[k] == b[k];
  }

  lemma GrownButRecords(a: seq<Row>, b: seq<Row>, i: nat)
    requires GrownBut(a, b, i)
    ensures Recorded(a) <= Recorded(b)
  {
    forall u | u in Recorded(a) ensures u in Recorded(b) {
      var k :| 0 <= k < |a| && a[k].url == u;
      assert b[k].url == u;
    }
  }

  /** What attempts at row i keep: the table's invariants, what was settled and true, and all
      but the children of i as it was. */
  ghost predicate Tried(sc: Scope, web: Web, names: Names, i: nat, rows0: seq<Row>, files0: Files,
                        rows: seq<Row>, files: Files, cut: bool) {
    && i < |rows0| && Kept(sc, names, rows, files) && GrownBut(rows0, rows, i)
    && (Settled(sc, web, rows0, files0) ==> Settled(sc, web, rows, files))
    && (TrueFiles(web, files0) ==> TrueFiles(web, files))
    && TornBy(web, files0, files, cut, rows0[i].url)
    && Recorded(rows) <= Recorded(rows0) + Kids(sc, rows0[i].url, web(rows0[i].url), true)
  }

  lemma TriedTells(sc: Scope, web: Web, names: Names, i: nat, rows0: seq<Row>, files0: Files,
                   rows: seq<Row>, files: Files, cut: bool)
    requires Tried(sc, web, names, i, rows0, files0, rows, files, cut)
    ensures Kept(sc, names, rows, files) && i < |rows| && rows[i].url == rows0[i].url
  {}

  lemma TriedNothing(sc: Scope, web: Web, names: Names, i: nat, rows: seq<Row>, files: Files)
    requires i < |rows| && Kept(sc, names, rows, files)
    ensures Tried(sc, web, names, i, rows, files, rows, files, false)
  {
    GrownIsGrownBut(rows, rows, i);
  }

  lemma TriedTwice(sc: Scope, web: Web, names: Names, i: nat, rows0: seq<Row>, files0: Files,
                   rows1: seq<Row>, files1: Files, rows: seq<Row>, files: Files, cut: bool)
    requires Tried(sc, web, names, i, rows0, files0, rows1, files1, false)
    requires Tried(sc, web, names, i, rows1, files1, rows, files, cut)
    ensures Tried(sc, web, names, i, rows0, files0, rows, files, cut)
    ensures Tried(sc, web, names, i, rows0, files0, rows1, files1, true)
  {
    hide Kept, Settled, TrueFiles, TornBy, Recorded, Kids;
    GrownButTwice(rows0, rows1, rows, i);
    TornSelf(web, files1, rows0[i].url);
    TornTwice(web, files0, files1, files1, true, rows0[i].url);
    TornTwice(web, files0, files1, files, cut, rows0[i].url);
  }

  /** What a run keeps from one row to the next. */
  ghost predicate Passed(sc: Scope, web: Web, names: Names, universe: set<Url>, rows0: seq<Row>, files0: Files,
                         rows: seq<Row>, files: Files) {
    && Kept(sc, names, rows, files) && |rows0| <= |rows| && Recorded(rows0) <= Recorded(rows) <= universe
    && (Settled(sc, web, rows0, files0) ==> Settled(sc, web, rows, files))
    && (TrueFiles(web, files0) ==> TrueFiles(web, files)) && ShortOnly(web, files0, files)
    && forall root :: Sound(sc, web, root, rows0) ==> Sound(sc, web, root, rows)
  }

  lemma PassedTells(sc: Scope, web: Web, names: Names, universe: set<Url>, rows0: seq<Row>, files0: Files,
                    rows: seq<Row>, files: Files)
    requires Passed(sc, web, names, universe, rows0, files0, rows, files)
    ensures Kept(sc, names, rows, files) && Unique(rows) && LinksInScope(sc, rows) && Recorded(rows) <= universe
    ensures |rows0| <= |rows|
  {}

  lemma PassedNone(sc: Scope, web: Web, names: Names, universe: set<Url>, rows: seq<Row>, files: Files)
    requires Kept(sc, names, rows, files) && Recorded(rows) <= universe
    ensures Passed(sc, web, names, universe, rows, files, rows, files)
  {}

  lemma PassedTwice(sc: Scope, web: Web, names: Names, universe: set<Url>, rows0: seq<Row>, files0: Files,
                    rows1: seq<Row>, files1: Files, rows: seq<Row>, files: Files)
    requires Passed(sc, web, names, universe, rows0, files0, rows1, files1)
    requires Passed(sc, web, names, universe, rows1, files1, rows, files)
    ensures Passed(sc, web, names, universe, rows0, files0, rows, files)
  {
    hide Kept, Settled, TrueFiles, Sound, Recorded, Unsized;
  }

  lemma FitsUniverse(rows: seq<Row>, universe: set<Url>)
    requires Unique(rows) && Recorded(rows) <= universe
    ensures |rows| <= |universe|
  {
    forall i | 0 <= i < |rows| ensures rows[i].url in universe { RecordedHas(rows, i); }
    DistinctFit(rows, (r: Row) => r.url, universe);
  }

  lemma StaysSound(sc: Scope, web: Web, a: seq<Row>, b: seq<Row>, i: nat)
    requires i < |a| && Recorded(b) <= Recorded(a) + Kids(sc, a[i].url, web(a[i].url), true)
    ensures forall root :: Sound(sc, web, root, a) ==> Sound(sc, web, root, b)
  {
    forall root, k | Sound(sc, web, root, a) && 0 <= k < |b| ensures Reaches(sc, web, root, true, b[k].url) {
      RecordedHas(b, k);
      if b[k].url in Recorded(a) {
        var m :| 0 <= m < |a| && a[m].url == b[k].url;
      } else {
        ReachesKid(sc, web, root, true, a[i].url, b[k].url);
      }
    }
  }

  lemma GotLeads(sc: Scope, web: Web, names: Names, u: Url, page: Page, etag: string, lastMod: string, whole: bool)
    requires Possible(web, names, u, None, Got(page, etag, lastMod, whole))
    ensures forall requisite :: PageKids(sc, u, page) <= Kids(sc, u, web(u), requisite)
  {
    if !whole { PartLeads(sc, u, page, web(u).page); }
  }

  /** What a URL answers when nothing is in the way. */
  function PlainReply(fate: Fate): Reply {
    match fate
    case Body(page, etag, lastMod, _) => Got(page, etag, lastMod, true)
    case Moved(t) => Redirected(Some(t))
    case MovedNowhere => Redirected(None)
    case Refused(code) => Rejected(code)
  }

  lemma KidsWiden(sc: Scope, u: Url, fate: Fate, requisite: bool)
    ensures Kids(sc, u, fate, requisite) <= Kids(sc, u, fate, true)
  {}

  /** Every URL a fate mentions, in scope or not. */
  function Mentions(fate: Fate): set<Url> {
    match fate
    case Body(Html(links, reqs), _, _, _) => (set u | u in links) + (set u | u in reqs)
    case Body(Listing(entries), _, _, _) => set u | u in entries
    case Body(Css(refs), _, _, _) => set u | u in refs
    case Moved(t) => {t}
    case _ => {}
  }

  /** A finite set of URLs that no page leads out of. */
  ghost predicate Closed(web: Web, universe: set<Url>) {
    forall u :: u in universe ==> Mentions(web(u)) <= universe
  }

  lemma ClosedUnderKids(web: Web, universe: set<Url>, sc: Scope)
    requires Closed(web, universe)
    ensures forall u :: u in universe ==> Kids(sc, u, web(u), true) <= universe
  {
    forall u | u in universe ensures Kids(sc, u, web(u), true) <= universe {
      assert Kids(sc, u, web(u), true) <= Mentions(web(u));
    }
  }

  lemma FollowStays(web: Web, start: Url, universe: set<Url>)
    requires Closed(web, universe) && start in universe
    ensures forall k: nat :: Follow(web, start, k) in universe
  {
    forall k: nat ensures Follow(web, start, k) in universe { FollowStaysAt(web, start, universe, k); }
  }

  lemma {:induction false} FollowStaysAt(web: Web, start: Url, universe: set<Url>, k: nat)
    requires Closed(web, universe) && start in universe
    ensures Follow(web, start, k) in universe
  {
    if k > 0 {
      FollowStaysAt(web, start, universe, k - 1);
      var u := Follow(web, start, k - 1);
      assert web(u).Moved? ==> web(u).to in Mentions(web(u));
    }
  }

  /** The UPDATE at the start of a run. */
  function Reset(rows: seq<Row>, update: bool): seq<Row> {
    seq(|rows|, i requires 0 <= i < |rows| =>
      if update || rows[i].state.Errored? then rows[i].(state := Pending) else rows[i])
  }

  lemma ResetKeeps(sc: Scope, web: Web, names: Names, root: Url, rows: seq<Row>, files: Files, update: bool)
    requires Kept(sc, names, rows, files)
    ensures var n := Reset(rows, update);
      && Kept(sc, names, n, files) && NoErrors(n) && Recorded(n) == Recorded(rows)
      && (update || Settled(sc, web, rows, files) ==> Settled(sc, web, n, files))
      && (Sound(sc, web, root, rows) ==> Sound(sc, web, root, n))
  {
    var n := Reset(rows, update);
    assert forall k :: 0 <= k < |rows| ==> n[k] == rows[k].(state := n[k].state);
    forall u ensures u in Recorded(n) <==> u in Recorded(rows) {
      if u in Recorded(rows) { var k :| 0 <= k < |rows| && rows[k].url == u; RecordedHas(n, k); }
      if u in Recorded(n) { var k :| 0 <= k < |n| && n[k].url == u; RecordedHas(rows, k); }
    }
    forall k | 0 <= k < |n| ensures NamedOk(sc, names, n[k], Recorded(n), files) {
      assert NamedOk(sc, names, rows[k], Recorded(rows), files);
    }
    if Settled(sc, web, rows, files) {
      forall k | 0 <= k < |n| ensures SettledOk(sc, web, n[k], Recorded(n), files) {
        assert SettledOk(sc, web, rows[k], Recorded(rows), files);
      }
    }
  }

  lemma ResetAt(rows: seq<Row>, update: bool)
    ensures |Reset(rows, update)| == |rows|
    ensures forall i :: 0 <= i < |rows| ==>
              Reset(rows, update)[i] == if update || rows[i].state.Errored? then rows[i].(state := Pending) else rows[i]
  {}

  lemma EnqueueRootKeeps(web: Web, names: Names, root: Url, rows: seq<Row>, files: Files)
    requires Kept(ScopeOf(root), names, rows, files)
    ensures var sc, n := ScopeOf(root), Enqueued(ScopeOf(root), rows, root, false);
      && Kept(sc, names, n, files) && root in Recorded(n) && Recorded(n) == Recorded(rows) + {root}
      && (NoErrors(rows) ==> NoErrors(n))
      && (Settled(sc, web, rows, files) ==> Settled(sc, web, n, files))
      && (Sound(sc, web, root, rows) ==> Sound(sc, web, root, n))
  {
    var sc, n := ScopeOf(root), Enqueued(ScopeOf(root), rows, root, false);
    RootInScope(root);
    EnqueuedGrows(sc, rows, root, false);
    GrownKeeps(sc, web, names, rows, n, files);
    ReachesRoot(sc, web, root, true);
    if Sound(sc, web, root, rows) {
      forall k | 0 <= k < |n| ensures Reaches(sc, web, root, true, n[k].url) {
        RecordedHas(n, k);
        if n[k].url != root { var m :| 0 <= m < |rows| && rows[m].url == n[k].url; }
      }
    }
  }

  lemma EnqueueRootStates(sc: Scope, names: Names, rows: seq<Row>, files: Files, root: Url)
    requires Kept(sc, names, rows, files)
    ensures var n := Enqueued(sc, rows, root, false);
      |rows| <= |n| && forall i :: 0 <= i < |rows| ==> n[i] == rows[i].(requisite := n[i].requisite)
  {
    EnqueuedGrows(sc, rows, root, false);
  }

  class Crawler {
    var cachedRoot: Option<Url>      // meta: what the start URL resolved to
    var rows: seq<Row>
    var files: Files
    var requests: nat
    var errors: nat
    const steady: bool               // nothing fails, and nothing cuts a run off

    constructor (steady: bool)
      ensures cachedRoot.None? && rows == [] && files == NO_FILES && requests == 0 && this.steady == steady
    {
      cachedRoot, rows, files, requests, errors := None, [], NO_FILES, 0, 0;
      this.steady := steady;
    }

    method Enqueue(sc: Scope, u: Url, requisite: bool) returns (alive: bool)
      modifies this`rows
      ensures rows == if alive then Enqueued(sc, old(rows), u, requisite) else old(rows)
      ensures steady ==> alive
    {
      if !steady { if * { return false; } }
      alive := true;
      if !requisite && !InScope(sc, u) { return; }
      if u in Recorded(rows) {
        var i := Find(rows, u);
        rows := rows[i := rows[i].(requisite := rows[i].requisite && requisite)];
      } else {
        rows := rows + [Row(u, requisite, Pending, "", "")];
      }
    }

    /** The enqueue loops of save; `listing` skips entries with a query. */
    method EnqueueAll(sc: Scope, us: seq<Url>, requisite: bool, listing: bool) returns (alive: bool)
      requires Unique(rows) && LinksInScope(sc, rows)
      modifies this`rows
      ensures Unique(rows) && LinksInScope(sc, rows) && Grown(old(rows), rows)
      ensures Recorded(rows) <= Recorded(old(rows)) + Targets(sc, us, requisite, listing)
      ensures alive ==> Recorded(rows) == Recorded(old(rows)) + Targets(sc, us, requisite, listing)
      ensures steady ==> alive
    {
      var i := 0;
      alive := true;
      EnqueuedNone(sc, us, requisite, listing, rows);
      hide Unique, LinksInScope, Grown, Recorded, Enqueued, Targets;
      while i < |us|
        invariant i <= |us| && alive && Unique(rows) && LinksInScope(sc, rows) && Grown(old(rows), rows)
        invariant Recorded(rows) == Recorded(old(rows)) + Targets(sc, us[..i], requisite, listing)
      {
        EnqueuedNext(sc, us, requisite, listing, old(rows), rows, i);
        if !(listing && us[i].query != "") {
          alive := Enqueue(sc, us[i], requisite);
          if !alive {
            TargetsGrow(sc, us, requisite, listing, i);
            return;
          }
        }
        i := i + 1;
      }
      assert us[..|us|] == us;
    }

    /** All of a page's enqueues, links before requisites. */
    method EnqueueKids(sc: Scope, u: Url, page: Page) returns (alive: bool)
      requires Unique(rows) && LinksInScope(sc, rows)
      modifies this`rows
      ensures Unique(rows) && LinksInScope(sc, rows) && Grown(old(rows), rows)
      ensures Recorded(rows) <= Recorded(old(rows)) + PageKids(sc, u, page)
      ensures alive ==> Recorded(rows) == Recorded(old(rows)) + PageKids(sc, u, page)
      ensures alive && page.Html? && InScope(sc, u) ==>
                forall x: Url :: x in Recorded(rows) <==>
                  x in Recorded(old(rows)) || x in page.reqs || (x in page.links && InScope(sc, x))
      ensures alive && page.Listing? && InScope(sc, u) ==>
                forall x: Url :: x in Recorded(rows) <==>
                  x in Recorded(old(rows)) || (x in page.entries && x.query == "" && InScope(sc, x))
      ensures page.Other? || (!page.Css? && !InScope(sc, u)) ==> Recorded(rows) == Recorded(old(rows))
      ensures alive && page.Css? ==>
                forall x: Url :: x in Recorded(rows) <==> x in Recorded(old(rows)) || x in page.refs
      ensures steady ==> alive
    {
      alive := true;
      var isHtml := (page.Html? || page.Listing?) && InScope(sc, u);
      if isHtml && page.Listing? {
        alive := EnqueueAll(sc, page.entries, false, true);
      } else if isHtml {
        alive := EnqueueAll(sc, page.links, false, false);
        if alive {
          ghost var mid := rows;
          alive := EnqueueAll(sc, page.reqs, true, false);
          GrownTrans(old(rows), mid, rows);
        }
      } else if page.Css? {
        alive := EnqueueAll(sc, page.refs, true, false);
      }
    }

    method MarkDone(i: nat, etag: string, lastMod: string) returns (alive: bool)
      requires i < |rows|
      modifies this`rows
      ensures rows == if alive then old(rows)[i := old(rows)[i].(state := Done, etag := etag, lastMod := lastMod)] else old(rows)
      ensures steady ==> alive
    {
      if !steady { if * { return false; } }
      rows := rows[i := rows[i].(state := Done, etag := etag, lastMod := lastMod)];
      alive := true;
    }

    method SetState(i: nat, st: State) returns (alive: bool)
      requires i < |rows|
      modifies this`rows
      ensures rows == if alive then old(rows)[i := old(rows)[i].(state := st)] else old(rows)
      ensures steady ==> alive
    {
      if !steady { if * { return false; } }
      rows := rows[i := rows[i].(state := st)];
      alive := true;
    }

    /** A body, or as much of one without a length as came before the connection was closed:
        everything it leads to is enqueued before its row is marked done with the new
        validators. A listing is not kept and keeps no validators. */
    method Save(sc: Scope, ghost web: Web, ghost names: Names, i: nat, page: Page, etag: string, lastMod: string,
                whole: bool)
      returns (a: Attempt)
      requires i < |rows| && rows[i].state.Pending? && Kept(sc, names, rows, files) && Trusted(web, names)
      requires Possible(web, names, rows[i].url, None, Got(page, etag, lastMod, whole))
      modifies this`rows, this`files
      ensures Kept(sc, names, rows, files) && GrownBut(old(rows), rows, i)
      ensures old(Settled(sc, web, rows, files)) ==> Settled(sc, web, rows, files)
      ensures old(TrueFiles(web, files)) ==> TrueFiles(web, files)
      ensures a == Handled || a == Local || a == Transient || a == Cut
      ensures TornBy(web, old(files), files, a == Cut, old(rows)[i].url)
      ensures if a == Handled then rows[i].state.Done? else Grown(old(rows), rows)
      ensures Recorded(rows) <= Recorded(old(rows)) + PageKids(sc, old(rows)[i].url, page)
      ensures a == Handled ==> PageKids(sc, old(rows)[i].url, page) <= Recorded(rows)
      ensures a == Local || a == Transient ==> rows == old(rows) && files == old(files)
      // a listing is read, not kept, and its row keeps no validators
      ensures a == Handled && page.Listing? && InScope(sc, old(rows)[i].url) ==>
                rows[i].etag == "" && rows[i].lastMod == "" && files.body == old(files).body
      ensures a == Handled && !(page.Listing? && InScope(sc, old(rows)[i].url)) ==>
                && rows[i].etag == etag && rows[i].lastMod == lastMod
                && files.body == old(files).body[old(rows)[i].url := page] && old(rows)[i].url !in files.torn
                && (old(rows)[i].url in files.short <==> !whole)
      ensures a == Handled && !whole ==> old(rows)[i].url in files.short
      ensures steady ==> a == Handled
    {
      var u := rows[i].url;
      GrownIsGrownBut(rows, rows, i);
      if !steady {
        if * { return Local; }                     // creating the directory or the temp file
        if * { return Transient; }                 // the body broke off, and that was noticed
        if * { return Local; }                     // the rename
      }
      var listing := page.Listing? && InScope(sc, u);
      ArrivedKeeps(sc, web, names, rows, files, i, page, listing, whole);
      files := Arrived(files, u, page, listing, whole);
      a := Expand(sc, web, names, i, page, etag, lastMod, listing, whole);
    }

    /** What follows the rename: everything the page leads to, then the row. */
    method Expand(sc: Scope, ghost web: Web, ghost names: Names, i: nat, page: Page, etag: string, lastMod: string,
                  listing: bool, whole: bool)
      returns (a: Attempt)
      requires i < |rows| && rows[i].state.Pending? && Kept(sc, names, rows, files) && Trusted(web, names)
      requires Possible(web, names, rows[i].url, None, Got(page, etag, lastMod, whole))
      requires listing == (page.Listing? && InScope(sc, rows[i].url)) && (whole || rows[i].url in files.short)
      requires !listing ==> rows[i].url in files.torn && rows[i].url in files.body && files.body[rows[i].url] == page
      modifies this`rows, this`files
      ensures Kept(sc, names, rows, files) && GrownBut(old(rows), rows, i)
      ensures old(Settled(sc, web, rows, files)) ==> Settled(sc, web, rows, files)
      ensures old(TrueFiles(web, files)) ==> TrueFiles(web, files)
      ensures a == Handled || a == Cut
      ensures files == if a == Handled then Mended(old(files), old(rows)[i].url, listing, whole) else old(files)
      ensures if a == Handled then rows[i].state.Done? else Grown(old(rows), rows)
      ensures Recorded(rows) <= Recorded(old(rows)) + PageKids(sc, old(rows)[i].url, page)
      ensures a == Handled ==> PageKids(sc, old(rows)[i].url, page) <= Recorded(rows)
      ensures a == Handled ==>
                rows[i].etag == (if listing then "" else etag) && rows[i].lastMod == (if listing then "" else lastMod)
      ensures steady ==> a == Handled
    {
      var u := rows[i].url;
      var alive := EnqueueKids(sc, u, page);
      GrownKeeps(sc, web, names, old(rows), rows, files);
      GrownIsGrownBut(old(rows), rows, i);
      if !alive { return Cut; }
      var e, l := if listing then "" else etag, if listing then "" else lastMod;
      GrownThenDone(old(rows), rows, i, rows[i].(state := Done, etag := e, lastMod := l));
      alive := Finish(sc, web, names, i, e, l);
      a := if alive then Handled else Cut;
      if alive {
        MendedKeeps(sc, web, names, rows, files, i, listing, whole);
        files := Mended(files, u, listing, whole);
      }
    }

    /** A redirect is a link like any other, under the flag of the row that has it. */
    method TakeRedirect(sc: Scope, ghost web: Web, ghost names: Names, i: nat, to: Url) returns (a: Attempt)
      requires i < |rows| && Kept(sc, names, rows, files) && web(rows[i].url) == Moved(to)
      modifies this`rows
      ensures Kept(sc, names, rows, files) && GrownBut(old(rows), rows, i) && (a == Handled || a == Cut)
      ensures old(Settled(sc, web, rows, files)) ==> Settled(sc, web, rows, files)
      ensures if a == Handled then rows[i].state.Done? else Grown(old(rows), rows)
      ensures Recorded(rows) <= Recorded(old(rows)) + Kids(sc, old(rows)[i].url, Moved(to), old(rows)[i].requisite)
      ensures a == Handled ==> rows[i].etag == "" && rows[i].lastMod == ""
      ensures steady ==> a == Handled
      ensures a == Handled ==>
                forall x: Url :: x in Recorded(rows) <==>
                  x in Recorded(old(rows)) || (x == to && (old(rows)[i].requisite || InScope(sc, to)))
    {
      EnqueuedGrows(sc, rows, to, rows[i].requisite);
      var alive := Enqueue(sc, to, rows[i].requisite);
      GrownKeeps(sc, web, names, old(rows), rows, files);
      GrownIsGrownBut(old(rows), rows, i);
      if !alive { return Cut; }
      GrownThenDone(old(rows), rows, i, rows[i].(state := Done, etag := "", lastMod := ""));
      alive := Finish(sc, web, names, i, "", "");
      a := if alive then Handled else Cut;
    }

    /** markDone, once what the row leads to is on record. */
    method Finish(sc: Scope, ghost web: Web, ghost names: Names, i: nat, etag: string, lastMod: string)
      returns (alive: bool)
      requires i < |rows| && Kept(sc, names, rows, files)
      requires Kids(sc, rows[i].url, Trimmed(web, files.short)(rows[i].url), rows[i].requisite) <= Recorded(rows)
      requires NamedOk(sc, names, rows[i].(etag := etag, lastMod := lastMod), Recorded(rows), files)
      requires FiledOk(names, rows[i].(etag := etag, lastMod := lastMod), files)
      requires KeepsFile(sc, rows[i].url, web(rows[i].url)) ==> Current(web, files, rows[i].url)
      modifies this`rows
      ensures Kept(sc, names, rows, files) && Recorded(rows) == Recorded(old(rows))
      ensures rows == if alive then old(rows)[i := old(rows)[i].(state := Done, etag := etag, lastMod := lastMod)] else old(rows)
      ensures old(Settled(sc, web, rows, files)) ==> Settled(sc, web, rows, files)
      ensures steady ==> alive
    {
      DoneKeeps(sc, web, names, rows, files, i, rows[i].(state := Done, etag := etag, lastMod := lastMod));
      alive := MarkDone(i, etag, lastMod);
    }

    /** A 304 parses nothing, and loses nothing: the stored validators name a body whose
        expansion is already on record. What was cut short stays so. */
    method KeepUnchanged(sc: Scope, ghost web: Web, ghost names: Names, i: nat) returns (a: Attempt)
      requires i < |rows| && Kept(sc, names, rows, files) && web(rows[i].url).Body? && rows[i].url in files.body
      requires rows[i].etag != "" || rows[i].lastMod != ""
      requires names(rows[i].url, rows[i].etag, rows[i].lastMod) == web(rows[i].url).page
      modifies this`rows
      ensures Kept(sc, names, rows, files) && (a == Handled || a == Cut)
      ensures rows == if a == Handled then old(rows)[i := old(rows)[i].(state := Done)] else old(rows)
      ensures Recorded(rows) == Recorded(old(rows))
      ensures rows[i].url !in files.short ==> PageKids(sc, rows[i].url, web(rows[i].url).page) <= Recorded(rows)
      ensures rows[i].url !in files.torn && rows[i].url !in files.short ==>
                files.body[rows[i].url] == web(rows[i].url).page
      ensures steady ==> a == Handled
      ensures old(Settled(sc, web, rows, files)) ==> Settled(sc, web, rows, files)
    {
      assert NamedOk(sc, names, rows[i], Recorded(rows), files) && FiledOk(names, rows[i], files);
      var alive := Finish(sc, web, names, i, rows[i].etag, rows[i].lastMod);
      a := if alive then Handled else Cut;
    }

    /** What an answer to the validators sent, if any were, makes of a row. */
    method Answer(sc: Scope, ghost web: Web, ghost names: Names, i: nat, ghost sent: Option<(string, string)>, reply: Reply)
      returns (a: Attempt)
      requires i < |rows| && rows[i].state.Pending? && Kept(sc, names, rows, files) && Trusted(web, names)
      requires Possible(web, names, rows[i].url, sent, reply)
      requires sent == if rows[i].url in files.body && (rows[i].etag != "" || rows[i].lastMod != "")
                       then Some((rows[i].etag, rows[i].lastMod)) else None
      modifies this`rows, this`files
      ensures Kept(sc, names, rows, files) && GrownBut(old(rows), rows, i)
      ensures old(Settled(sc, web, rows, files)) ==> Settled(sc, web, rows, files)
      ensures old(TrueFiles(web, files)) ==> TrueFiles(web, files)
      ensures TornBy(web, old(files), files, a == Cut, old(rows)[i].url)
      ensures if a == Handled then rows[i].state.Done? else Grown(old(rows), rows)
      ensures a.Permanent? ==> Kids(sc, rows[i].url, web(rows[i].url), rows[i].requisite) == {}
      ensures Recorded(rows) <= Recorded(old(rows)) + Kids(sc, old(rows)[i].url, web(old(rows)[i].url), old(rows)[i].requisite)
      ensures reply.Busy? || reply.Broken? ==> a == Transient
      ensures reply.Rejected? || reply == Redirected(None) ==> a.Permanent?
      ensures reply.Got? || reply.Unchanged? || (reply.Redirected? && reply.to.Some?) ==> !a.Permanent?
      ensures reply.Unchanged? || (reply.Redirected? && reply.to.Some?) ==> a == Handled || a == Cut
      ensures a == Local ==> reply.Got?
      ensures steady && !reply.Busy? && !reply.Broken? ==> a == Handled || a.Permanent?
      ensures !reply.Got? && a != Handled ==> a == Cut || (rows == old(rows) && files == old(files))
    {
      GrownIsGrownBut(rows, rows, i);
      TornSelf(web, files, rows[i].url);
      hide Settled, Kept, Trusted, TrueFiles, GrownBut, TornBy, PartOf, PageKids;
      match reply {
        case Broken => a := Transient;
        case Busy => a := Transient;
        case Rejected(code) => a := Permanent(code);
        case Redirected(None) => a := Permanent(301);
        case Redirected(Some(to)) => a := TakeRedirect(sc, web, names, i, to);
        case Unchanged => a := KeepUnchanged(sc, web, names, i);
        case Got(page, etag, lastMod, whole) =>
          GotLeads(sc, web, names, rows[i].url, page, etag, lastMod, whole);
          a := Save(sc, web, names, i, page, etag, lastMod, whole);
      }
    }

    /** One attempt at a URL. Validators are sent only while the local file is there. */
    method Fetch(sc: Scope, web: Web, names: Names, i: nat) returns (a: Attempt)
      requires i < |rows| && rows[i].state.Pending? && Kept(sc, names, rows, files) && Trusted(web, names)
      modifies this`rows, this`files, this`requests
      ensures Tried(sc, web, names, i, old(rows), old(files), rows, files, a == Cut) && requests <= old(requests) + 1
      ensures a == Transient ==> requests == old(requests) + 1
      ensures a == Handled ==> web(old(rows)[i].url).Body? || web(old(rows)[i].url).Moved?
      ensures a.Permanent? ==> web(old(rows)[i].url).Refused? || web(old(rows)[i].url).MovedNowhere?
      ensures a == Local && requests > old(requests) ==> web(old(rows)[i].url).Body?
      ensures steady ==> a == Handled || a.Permanent?
      ensures if a == Handled then rows[i].state.Done? else Grown(old(rows), rows)
      ensures a.Permanent? ==> Kids(sc, rows[i].url, web(rows[i].url), rows[i].requisite) == {}
      ensures Recorded(rows) <= Recorded(old(rows)) + Kids(sc, old(rows)[i].url, web(old(rows)[i].url), old(rows)[i].requisite)
    {
      GrownIsGrownBut(rows, rows, i);
      TornSelf(web, files, rows[i].url);
      KidsWiden(sc, rows[i].url, web(rows[i].url), rows[i].requisite);
      hide Settled, Kept, Trusted, TrueFiles, GrownBut, TornBy, Kids;
      if !steady {
        if * { return Local; }                     // no usable local path
        if * { return Cut; }
      }
      var named := rows[i].etag != "" || rows[i].lastMod != "";
      var sent := if rows[i].url in files.body && named then Some((rows[i].etag, rows[i].lastMod)) else None;
      assert Possible(web, names, rows[i].url, sent, PlainReply(web(rows[i].url)));
      var reply: Reply :|
        Possible(web, names, rows[i].url, sent, reply) && (steady ==> !reply.Busy? && !reply.Broken?);
      requests := requests + 1;
      a := Answer(sc, web, names, i, sent, reply);
    }

    /** A permanent failure, or giving up. */
    method Conclude(sc: Scope, ghost web: Web, ghost names: Names, i: nat, st: State) returns (alive: bool)
      requires i < |rows| && Kept(sc, names, rows, files) && (st.Errored? || st.Failed?)
      requires st.Failed? ==> Kids(sc, rows[i].url, web(rows[i].url), rows[i].requisite) == {}
      modifies this`rows
      ensures Kept(sc, names, rows, files) && GrownBut(old(rows), rows, i) && Recorded(rows) == Recorded(old(rows))
      ensures old(Settled(sc, web, rows, files)) ==> Settled(sc, web, rows, files)
      ensures rows[i].state == if alive then st else old(rows)[i].state
      ensures steady ==> alive
    {
      assert NamedOk(sc, names, rows[i], Recorded(rows), files) && FiledOk(names, rows[i], files);
      DoneKeeps(sc, web, names, rows, files, i, rows[i].(state := st));
      alive := SetState(i, st);
    }

    /** At most three attempts. */
    method Retry(sc: Scope, web: Web, names: Names, i: nat) returns (a: Attempt)
      requires i < |rows| && rows[i].state.Pending? && Kept(sc, names, rows, files) && Trusted(web, names)
      modifies this`rows, this`files, this`requests
      ensures Tried(sc, web, names, i, old(rows), old(files), rows, files, a == Cut)
      ensures i < |rows| && if a == Handled then rows[i].state.Done? else rows[i].state.Pending?
      ensures a.Permanent? ==> Kids(sc, rows[i].url, web(rows[i].url), rows[i].requisite) == {}
      ensures requests <= old(requests) + 3 && (a == Transient ==> requests == old(requests) + 3)
      ensures steady ==> a == Handled || a.Permanent?
      ensures a == Handled ==> web(old(rows)[i].url).Body? || web(old(rows)[i].url).Moved?
      ensures a.Permanent? ==> web(old(rows)[i].url).Refused? || web(old(rows)[i].url).MovedNowhere?
    {
      hide Tried, Kept, Trusted, Kids, Recorded;
      var attempt := 1;
      a := Fetch(sc, web, names, i);
      TriedTells(sc, web, names, i, old(rows), old(files), rows, files, a == Cut);
      while a == Transient && attempt < MAX_ATTEMPTS
        invariant 1 <= attempt <= MAX_ATTEMPTS && requests <= old(requests) + attempt
        invariant a == Transient ==> requests == old(requests) + attempt
        invariant steady ==> a == Handled || a.Permanent?
        invariant a == Handled ==> web(old(rows)[i].url).Body? || web(old(rows)[i].url).Moved?
        invariant a.Permanent? ==> web(old(rows)[i].url).Refused? || web(old(rows)[i].url).MovedNowhere?
        invariant Tried(sc, web, names, i, old(rows), old(files), rows, files, a == Cut)
        invariant i < |rows| && if a == Handled then rows[i].state.Done? else rows[i].state.Pending?
        invariant a.Permanent? ==> Kids(sc, rows[i].url, web(rows[i].url), rows[i].requisite) == {}
      {
        ghost var rows1, files1 := rows, files;
        TriedTells(sc, web, names, i, old(rows), old(files), rows, files, false);
        TriedNothing(sc, web, names, i, rows, files);
        TriedTwice(sc, web, names, i, old(rows), old(files), rows, files, rows, files, false);
        if * { return Cut; }                       // cancelled during the backoff
        a := Fetch(sc, web, names, i);
        TriedTells(sc, web, names, i, rows1, files1, rows, files, a == Cut);
        TriedTwice(sc, web, names, i, old(rows), old(files), rows1, files1, rows, files, a == Cut);
        attempt := attempt + 1;
      }
    }

    /** The row then is done, failed, or in error, unless the run was cut off; `last` is how
        the last attempt ended. */
    method Process(sc: Scope, web: Web, names: Names, i: nat) returns (alive: bool, ghost last: Attempt)
      requires i < |rows| && rows[i].state.Pending? && Kept(sc, names, rows, files) && Trusted(web, names)
      modifies this`rows, this`files, this`requests, this`errors
      ensures Kept(sc, names, rows, files) && GrownBut(old(rows), rows, i)
      ensures old(Settled(sc, web, rows, files)) ==> Settled(sc, web, rows, files)
      ensures old(TrueFiles(web, files)) ==> TrueFiles(web, files)
      ensures TornBy(web, old(files), files, !alive, old(rows)[i].url)
      ensures last == Cut ==> !alive
      ensures steady ==> alive && !rows[i].state.Errored?
      ensures alive ==>
                rows[i].state == if last == Handled then Done else if last.Permanent? then Failed else Errored
      // a finished row tells what the URL is; anything else is counted
      ensures rows[i].state.Done? ==> web(rows[i].url).Body? || web(rows[i].url).Moved?
      ensures rows[i].state.Failed? ==> web(rows[i].url).Refused? || web(rows[i].url).MovedNowhere?
      ensures rows[i].state.Errored? ==> errors == old(errors) + 1
      ensures alive && !rows[i].state.Errored? ==> errors == old(errors)
      ensures old(errors) <= errors && requests <= old(requests) + 3
      ensures last == Transient ==> requests == old(requests) + 3
      ensures Recorded(rows) <= Recorded(old(rows)) + Kids(sc, old(rows)[i].url, web(old(rows)[i].url), true)
    {
      var a := Retry(sc, web, names, i);
      last := a;
      if a == Cut { return false, last; }
      if a == Handled { return true, last; }
      hide Settled, Kept, Trusted, TrueFiles, Recorded, Kids;
      ghost var before := rows;
      if a.Permanent? {
        alive := Conclude(sc, web, names, i, Failed);
      } else {
        errors := errors + 1;
        alive := Conclude(sc, web, names, i, Errored);
      }
      GrownButTwice(old(rows), before, rows, i);
    }

    /** One row's turn. */
    method Visit(sc: Scope, web: Web, names: Names, i: nat, ghost universe: set<Url>) returns (alive: bool)
      requires i < |rows| && rows[i].state.Pending? && Kept(sc, names, rows, files) && Trusted(web, names)
      requires Recorded(rows) <= universe
      requires forall u :: u in universe ==> Kids(sc, u, web(u), true) <= universe
      modifies this`rows, this`files, this`requests, this`errors
      ensures Passed(sc, web, names, universe, old(rows), old(files), rows, files)
      ensures TornBy(web, old(files), files, !alive, old(rows)[i].url)
      ensures old(Below(rows, i)) && alive ==> Below(rows, i + 1)
      ensures old(NoErrors(rows)) && errors == 0 ==> NoErrors(rows)
      ensures old(errors) <= errors && requests <= old(requests) + 3
      ensures steady ==> alive && errors == old(errors)
    {
      ghost var before := rows;
      RecordedHas(rows, i);
      ghost var last: Attempt;
      alive, last := Process(sc, web, names, i);
      StaysSound(sc, web, before, rows, i);
      GrownButRecords(before, rows, i);
      hide Kept, Settled, Sound, Trusted, TrueFiles, Recorded, Kids, Unsized;
    }

    /** run: pending rows in id order until none is left. Only over a finite universe of
        URLs can it be said to end. Every row is processed at most once, with at most three
        requests, and a run that is cut off tears one file at most. */
    method Run(sc: Scope, web: Web, names: Names, ghost universe: set<Url>) returns (alive: bool, ghost order: seq<nat>)
      requires Kept(sc, names, rows, files) && Trusted(web, names) && Recorded(rows) <= universe
      requires forall u :: u in universe ==> Kids(sc, u, web(u), true) <= universe
      requires errors == 0 && NoErrors(rows)
      modifies this`rows, this`files, this`requests, this`errors
      ensures Passed(sc, web, names, universe, old(rows), old(files), rows, files)
      ensures AtMostOneTorn(old(files), files) && (alive ==> files.torn <= old(files).torn)
      ensures alive ==> Below(rows, |rows|) && (errors == 0 ==> NoErrors(rows))
      ensures steady ==> alive && errors == 0
      ensures Ascending(order, |rows|) && requests <= old(requests) + 3 * |order|
    {
      hide Passed, Kept, Recorded, Kids, Trusted, NoErrors, Unique, TornBy, AtMostOneTorn, Ascending, Below,
        NextPending, InScope, LinksInScope;
      PassedNone(sc, web, names, universe, rows, files);
      BelowNone(rows);
      var next := 0;                               // lastID: ids below it have been passed
      order := [];
      AscendingNone();
      while true
        invariant Passed(sc, web, names, universe, old(rows), old(files), rows, files) && next <= |rows|
        invariant files.torn <= old(files).torn && Below(rows, next) && (errors == 0 ==> NoErrors(rows))
        invariant Ascending(order, next) && requests <= old(requests) + 3 * |order|
        invariant steady ==> errors == 0
        decreases |universe| - next
      {
        NoneTorn(old(files), files);
        AscendingBelow(order, next, |rows|);
        if !steady { if * { return false, order; } }
        var i := NextPending(rows, next);
        if i == |rows| { return true, order; }
        PassedTells(sc, web, names, universe, old(rows), old(files), rows, files);
        FitsUniverse(rows, universe);
        NoStranger(sc, rows, i);
        var u := rows[i].url;
        if !rows[i].requisite && !InScope(sc, u) {
          assert false;                            // with one scope there is no such row
        } else {
          ghost var rows1, files1 := rows, files;
          AscendingNext(order, next, i);
          next, order := i + 1, order + [i];
          alive := Visit(sc, web, names, i, universe);
          PassedTwice(sc, web, names, universe, old(rows), old(files), rows1, files1, rows, files);
          PassedTells(sc, web, names, universe, rows1, files1, rows, files);
          AscendingBelow(order, next, |rows|);
          if !alive {
            LastTorn(web, old(files), files1, files, u);
            return;
          }
          TornOnly(web, old(files), files1, files, u);
        }
      }
    }

    /* ---- whole runs ---- */

    ghost predicate Valid(names: Names)
      reads this
    {
      if cachedRoot.None? then rows == [] && files == NO_FILES else Kept(ScopeOf(cachedRoot.value), names, rows, files)
    }

    /** Every finished row has its expansion in this web on record, and if it is done, a
        file that is current or torn. */
    ghost predicate SettledFor(web: Web)
      reads this
    {
      cachedRoot.Some? ==> Settled(ScopeOf(cachedRoot.value), web, rows, files)
    }

    ghost predicate SoundFor(web: Web)
      reads this
    {
      cachedRoot.Some? ==> Sound(ScopeOf(cachedRoot.value), web, cachedRoot.value, rows)
    }

    /** All rows are finished and settled, and everything is among them that the root leads to
        otherwise than through bodies cut short. */
    ghost predicate Complete(web: Web)
      reads this
    {
      && cachedRoot.Some? && AllFinished(rows) && SettledFor(web)
      && (forall u :: Reaches(ScopeOf(cachedRoot.value), Trimmed(web, files.short), cachedRoot.value, false, u) ==>
            u in Recorded(rows))
    }

    ghost predicate Fits(universe: set<Url>)
      reads this
    {
      Recorded(rows) <= universe && (cachedRoot.Some? ==> cachedRoot.value in universe)
    }

    /** The first run searches for where the start URL's redirects end, by at most ten
        requests, and stores what it arrived at (RootIsEnd says when that is right); later
        runs read it back. */
    method ResolveStart(web: Web, ghost names: Names, start: Url, strikes: seq<Strike>)
      returns (r: Option<Url>, ghost cut: bool)
      requires Valid(names)
      modifies this`cachedRoot, this`requests
      ensures Valid(names)
      ensures old(SettledFor(web)) ==> SettledFor(web)
      ensures old(SoundFor(web)) ==> SoundFor(web)
      ensures cachedRoot == if r.Some? then r else old(cachedRoot)
      ensures r == if old(cachedRoot).Some? then old(cachedRoot) else if cut then None else Search(web, start, strikes, 0)
      ensures requests <= old(requests) + if old(cachedRoot).Some? then 0 else 10
      ensures steady ==> !cut
    {
      cut := false;
      if cachedRoot.Some? { return cachedRoot, false; }
      var u := start;
      var k := 0;
      while k < MAX_REDIRECTS
        invariant k <= MAX_REDIRECTS && cachedRoot == old(cachedRoot)
        invariant Search(web, start, strikes, 0) == Search(web, u, strikes, k)
        invariant requests == old(requests) + k
      {
        requests := requests + 1;
        var strike := StrikeAt(strikes, k);
        if strike == NoAnswer { return None, false; }
        if strike == BusyAnswer || !web(u).Moved? { break; }
        u := web(u).to;
        k := k + 1;
      }
      if !steady { if * { return None, true; } }   // cut off before the root is stored
      cachedRoot := Some(u);
      r := cachedRoot;
    }

    /** One run. Whatever happens, validators stay truthful and nothing foreign gets on
        record. `began` is whether it got past its reset. If the run is clean, it is
        complete for the web it saw, provided it re-checked everything (update) or all
        earlier runs saw the same web, and no file is torn that was not before. A run that
        is cut off tears one file at most. */
    method Mirror(web: Web, names: Names, start: Url, strikes: seq<Strike>, update: bool, ghost universe: set<Url>)
      returns (o: Outcome, ghost began: bool)
      requires Valid(names) && Trusted(web, names) && Closed(web, universe)
      requires start in universe && Fits(universe)
      modifies this
      ensures Valid(names) && Fits(universe) && Recorded(old(rows)) <= Recorded(rows)
      ensures old(cachedRoot).Some? ==> cachedRoot == old(cachedRoot)
      ensures old(cachedRoot).None? && cachedRoot.Some? ==> cachedRoot == Search(web, start, strikes, 0)
      ensures old(SettledFor(web)) || (began && update) ==> SettledFor(web)
      ensures old(SoundFor(web)) ==> SoundFor(web)
      ensures old(TrueFiles(web, files)) ==> TrueFiles(web, files)
      ensures AtMostOneTorn(old(files), files) && (o != Stopped ==> began && files.torn <= old(files).torn)
      ensures ShortOnly(web, old(files), files)
      ensures o == Clean && (update || old(SettledFor(web))) ==> Complete(web)
      ensures o == Clean ==> errors == 0 && forall i :: 0 <= i < |rows| ==> rows[i].state.Done? || rows[i].state.Failed?
      ensures o == Partial ==> errors > 0
      ensures steady && (old(cachedRoot).Some? || Search(web, start, strikes, 0).Some?) ==> o == Clean
      // links are only followed on the root's scheme and host and inside its directory
      ensures cachedRoot.Some? ==>
                var root := cachedRoot.value;
                forall i, k :: 0 <= i < |rows| && !rows[i].requisite && 0 < k <= |root.path| && root.path[k - 1] == '/' ==>
                  rows[i].url.scheme == root.scheme && rows[i].url.host == root.host && root.path[..k] <= rows[i].url.path
    {
      ghost var cut: bool;
      var found: Option<Url>;
      began := false;
      found, cut := ResolveStart(web, names, start, strikes);
      if found.None? {
        if cachedRoot.Some? { LinksInside(names); }
        return Stopped, false;
      }
      FollowStays(web, start, universe);
      if old(cachedRoot).None? { ghost var m := SearchFrom(web, start, strikes, 0); }
      o, began := RunFromRoot(web, names, update, universe);
      LinksInside(names);
    }

    lemma LinksInside(names: Names)
      requires cachedRoot.Some? && Valid(names)
      ensures var root := cachedRoot.value;
        forall i, k :: 0 <= i < |rows| && !rows[i].requisite && 0 < k <= |root.path| && root.path[k - 1] == '/' ==>
          rows[i].url.scheme == root.scheme && rows[i].url.host == root.host && root.path[..k] <= rows[i].url.path
    {
      forall i | 0 <= i < |rows| && !rows[i].requisite
        ensures InScope(ScopeOf(cachedRoot.value), rows[i].url)
      {}
      forall u: Url { ScopeSpelled(cachedRoot.value, u); }
    }

    method RunFromRoot(web: Web, names: Names, update: bool, ghost universe: set<Url>)
      returns (o: Outcome, ghost began: bool)
      requires cachedRoot.Some? && Valid(names) && Trusted(web, names) && Closed(web, universe)
      requires Fits(universe)
      modifies this`rows, this`files, this`requests, this`errors
      ensures Valid(names) && Fits(universe) && Recorded(old(rows)) <= Recorded(rows)
      ensures old(SettledFor(web)) || (began && update) ==> SettledFor(web)
      ensures old(SoundFor(web)) ==> SoundFor(web)
      ensures old(TrueFiles(web, files)) ==> TrueFiles(web, files)
      ensures AtMostOneTorn(old(files), files) && (o != Stopped ==> began && files.torn <= old(files).torn)
      ensures ShortOnly(web, old(files), files)
      ensures o == Clean && (update || old(SettledFor(web))) ==> Complete(web)
      ensures o == Clean ==> errors == 0 && forall i :: 0 <= i < |rows| ==> rows[i].state.Done? || rows[i].state.Failed?
      ensures o == Partial ==> errors > 0
      ensures steady ==> o == Clean
    {
      hide Kept, Settled, Sound, Recorded, TrueFiles, Trusted, Closed, Kids, NoErrors, Reaches, Trimmed, ScopeOf,
        AtMostOneTorn, Complete;
      NoneTorn(files, files);
      var alive: bool;
      alive, began := Begin(web, names, update);
      if !alive { return Stopped, began; }
      ClosedUnderKids(web, universe, ScopeOf(cachedRoot.value));
      ghost var order: seq<nat>;
      alive, order := Run(ScopeOf(cachedRoot.value), web, names, universe);
      if !alive { return Stopped, began; }
      if errors > 0 { return Partial, began; }
      o := Clean;
      FinishedIsComplete(web, names, update || old(SettledFor(web)));
    }

    /** The reset and the root's own row. */
    method Begin(ghost web: Web, ghost names: Names, update: bool) returns (alive: bool, ghost began: bool)
      requires cachedRoot.Some? && Valid(names)
      modifies this`rows, this`errors
      ensures Valid(names) && errors == 0 && (alive ==> began)
      ensures Recorded(rows) <= Recorded(old(rows)) + {cachedRoot.value} && Recorded(old(rows)) <= Recorded(rows)
      ensures old(SettledFor(web)) || (began && update) ==> SettledFor(web)
      ensures old(SoundFor(web)) ==> SoundFor(web)
      ensures alive ==> NoErrors(rows) && cachedRoot.value in Recorded(rows)
      // with update every row is asked for again, otherwise those that ended in an error
      ensures began ==> |old(rows)| <= |rows| && forall i :: 0 <= i < |old(rows)| ==>
                rows[i].url == old(rows)[i].url && rows[i].etag == old(rows)[i].etag && rows[i].lastMod == old(rows)[i].lastMod
                && rows[i].state == if update || old(rows)[i].state.Errored? then Pending else old(rows)[i].state
      ensures !began ==> rows == old(rows)
      ensures steady ==> alive
    {
      hide Kept, Settled, Sound, Recorded, Enqueued, Reset, NoErrors, ScopeOf;
      var root := cachedRoot.value;
      errors := 0;
      if !steady { if * { return false, false; } }
      ResetAt(rows, update);
      ResetKeeps(ScopeOf(root), web, names, root, rows, files, update);
      rows := Reset(rows, update);
      began := true;
      EnqueueRootKeeps(web, names, root, rows, files);
      EnqueueRootStates(ScopeOf(root), names, rows, files, root);
      alive := Enqueue(ScopeOf(root), root, false);
    }

    /** What a complete mirror has on record: the root, and with any URL, the links of its page
        that stay in the scope, its requisites, the entries of its listing, and where it
        redirects to; and the current body of every page. */
    lemma CompleteTells(web: Web, u: Url)
      requires Complete(web) && u in Recorded(rows)
      ensures cachedRoot.value in Recorded(rows)
      ensures var sc := ScopeOf(cachedRoot.value);
        && (web(u).Body? && web(u).page.Html? && InScope(sc, u) && u !in files.short ==>
              forall x: Url :: x in web(u).page.reqs || (x in web(u).page.links && InScope(sc, x)) ==> x in Recorded(rows))
        && (web(u).Body? && web(u).page.Listing? && InScope(sc, u) && u !in files.short ==>
              forall x: Url :: x in web(u).page.entries && x.query == "" && InScope(sc, x) ==> x in Recorded(rows))
        && (web(u).Body? && web(u).page.Css? && u !in files.short ==>
              forall x: Url :: x in web(u).page.refs ==> x in Recorded(rows))
        && (web(u).Moved? && InScope(sc, web(u).to) ==> web(u).to in Recorded(rows))
      ensures forall i :: 0 <= i < |rows| && rows[i].url == u && rows[i].requisite && web(u).Moved? ==>
                web(u).to in Recorded(rows)
      ensures forall i :: 0 <= i < |rows| && rows[i].url == u && rows[i].state.Done? && web(u).Body?
                          && !(web(u).page.Listing? && InScope(ScopeOf(cachedRoot.value), u)) ==>
                u in files.body && (files.body[u] == web(u).page || u in files.torn || u in files.short)
    {
      var sc := ScopeOf(cachedRoot.value);
      ReachesRoot(sc, Trimmed(web, files.short), cachedRoot.value, false);
      forall i | 0 <= i < |rows| && rows[i].url == u ensures SettledOk(sc, web, rows[i], Recorded(rows), files) {}
    }

    lemma FinishedIsComplete(web: Web, names: Names, settled: bool)
      requires cachedRoot.Some? && cachedRoot.value in Recorded(rows) && Below(rows, |rows|) && NoErrors(rows)
      requires Valid(names) && (settled ==> SettledFor(web))
      ensures AllFinished(rows)
      ensures settled ==> Complete(web)
    {
      if settled {
        forall u | Reaches(ScopeOf(cachedRoot.value), Trimmed(web, files.short), cachedRoot.value, false, u)
          ensures u in Recorded(rows)
        {
          SettledIsComplete(ScopeOf(cachedRoot.value), web, cachedRoot.value, rows, files, u);
        }
      }
    }

    /** Any number of runs over one web, cut off anywhere or failing, with or without
        update: if the last one is clean, what is on record is the closure of the root:
        all that can be reached by links and requisites otherwise than through bodies cut
        short and, redirects from inside the scope to outside aside, nothing else. Only
        bodies without a length can have been cut short. Complete says, through SettledFor,
        that each row still flagged a requisite has the target of its redirect on record
        too. */
    method MirrorAgainAndAgain(web: Web, names: Names, start: Url, updates: seq<bool>, ghost universe: set<Url>)
      returns (o: Outcome)
      requires cachedRoot.None? && rows == [] && files == NO_FILES
      requires Trusted(web, names) && Closed(web, universe) && start in universe && updates != []
      modifies this
      ensures Valid(names) && SettledFor(web) && TrueFiles(web, files) && ShortOnly(web, NO_FILES, files)
      ensures (forall u :: !Unsized(web, u)) ==> files.short == {}
      ensures o == Clean ==> Complete(web)
      ensures o == Clean ==>
                forall u :: u in Recorded(rows) ==> Reaches(ScopeOf(cachedRoot.value), web, cachedRoot.value, true, u)
      ensures o == Clean && NoStrayRedirects(ScopeOf(cachedRoot.value), web) && files.short == {} ==>
                forall u :: u in Recorded(rows) <==> Reaches(ScopeOf(cachedRoot.value), web, cachedRoot.value, false, u)
      ensures cachedRoot.Some? ==>
                var root := cachedRoot.value;
                forall i, k :: 0 <= i < |rows| && !rows[i].requisite && 0 < k <= |root.path| && root.path[k - 1] == '/' ==>
                  rows[i].url.scheme == root.scheme && rows[i].url.host == root.host && root.path[..k] <= rows[i].url.path
    {
      var k := 0;
      o := Stopped;
      while k < |updates|
        invariant k <= |updates| && Valid(names) && SettledFor(web) && SoundFor(web) && TrueFiles(web, files)
        invariant Fits(universe) && ShortOnly(web, NO_FILES, files)
        invariant o == Clean ==> Complete(web)
      {
        var strikes: seq<Strike> := *;
        ghost var began: bool;
        o, began := Mirror(web, names, start, strikes, updates[k], universe);
        k := k + 1;
      }
      if o == Clean { ExactlyReached(web); }
      if cachedRoot.Some? { LinksInside(names); }
    }

    lemma ExactlyReached(web: Web)
      requires Complete(web) && SoundFor(web)
      ensures forall u :: u in Recorded(rows) ==> Reaches(ScopeOf(cachedRoot.value), web, cachedRoot.value, true, u)
      ensures NoStrayRedirects(ScopeOf(cachedRoot.value), web) && files.short == {} ==>
                forall u :: u in Recorded(rows) <==> Reaches(ScopeOf(cachedRoot.value), web, cachedRoot.value, false, u)
    {
      var root := cachedRoot.value;
      forall u | u in Recorded(rows) ensures Reaches(ScopeOf(root), web, root, true, u) {
        var i :| 0 <= i < |rows| && rows[i].url == u;
      }
      hide Reaches, Recorded, SettledFor, Trimmed, NoStrayRedirects;
      if NoStrayRedirects(ScopeOf(root), web) && files.short == {} {
        forall u ensures u in Recorded(rows) <==> Reaches(ScopeOf(root), web, root, false, u) {
          ClosuresCoincide(ScopeOf(root), web, root, u);
          NothingTrimmed(ScopeOf(root), web, root, false, u);
        }
      }
    }

    /** After whatever earlier runs over whatever webs: once an update run has got past its
        reset, plain re-runs over the same web finish what it began. */
    method UpdateThenResume(web: Web, names: Names, start: Url, resumes: nat, ghost universe: set<Url>)
      returns (o: Outcome, ghost began: bool)
      requires Valid(names) && Trusted(web, names) && Closed(web, universe) && start in universe && Fits(universe)
      modifies this
      ensures Valid(names) && (began ==> SettledFor(web))
      ensures old(cachedRoot).Some? ==> cachedRoot == old(cachedRoot)
      ensures began && o == Clean ==> Complete(web)
    {
      var strikes: seq<Strike> := *;
      o, began := Mirror(web, names, start, strikes, true, universe);
      var k := 0;
      while k < resumes
        invariant k <= resumes && Valid(names) && Fits(universe) && (began ==> SettledFor(web))
        invariant old(cachedRoot).Some? ==> cachedRoot == old(cachedRoot)
        invariant began && o == Clean ==> Complete(web)
      {
        strikes := *;
        ghost var again: bool;
        o, again := Mirror(web, names, start, strikes, false, universe);
        k := k + 1;
      }
    }
  }

  /* ---- a body cut short ---- */

  const HOME := RawUrl("http", "h", "/", "")
  const INNER := RawUrl("http", "h", "/a", "")

  /** A page with one link, sent without its length. */
  function OneLink(u: Url): Fate {
    if u == HOME then Body(Html([INNER], []), "e", "", false) else Body(Other, "", "", true)
  }

  function OneLinkNames(u: Url, etag: string, lastMod: string): Page {
    OneLink(u).page
  }

  lemma InnerIsReached()
    ensures InScope(ScopeOf(HOME), INNER) && Reaches(ScopeOf(HOME), OneLink, HOME, false, INNER)
    ensures Trusted(OneLink, OneLinkNames)
  {
    var sc := ScopeOf(HOME);
    assert INNER in OneLink(HOME).page.links;
    ReachesRoot(sc, OneLink, HOME, false);
    ReachesKid(sc, OneLink, HOME, false, HOME, INNER);
  }

  lemma OneRow(sc: Scope, web: Web, names: Names, rows: seq<Row>, files: Files, u: Url)
    requires Kept(sc, names, rows, files) && Recorded(rows) <= {u} && rows != []
    ensures |rows| == 1 && rows[0].url == u
  {
    FitsUniverse(rows, {u});
    RecordedHas(rows, 0);
  }

  const QUEUED := [Row(HOME, false, Pending, "", "")]

  lemma QueuedKept()
    ensures Kept(ScopeOf(HOME), OneLinkNames, QUEUED, NO_FILES)
    ensures Enqueued(ScopeOf(HOME), [], HOME, false) == QUEUED
  {
    RootInScope(HOME);
  }

  lemma HomeAnswers()
    ensures Possible(OneLink, OneLinkNames, HOME, None, Got(Html([], []), "e", "", false))
    ensures Possible(OneLink, OneLinkNames, HOME, Some(("e", "")), Unchanged)
    ensures OneLink(HOME).Body? && OneLinkNames(HOME, "e", "") == OneLink(HOME).page
    ensures PageKids(ScopeOf(HOME), HOME, Html([], [])) == {} && Recorded(QUEUED) == {HOME}
  {
    RecordedHas(QUEUED, 0);
  }

  /** The connection is closed before the link has come, and nothing else goes wrong, then
      or when a run with update asks again: the page is done, and the link is not known. */
  method CutShortStays() returns (c: Crawler)
    ensures fresh(c) && |c.rows| == 1 && c.rows[0].url == HOME && c.rows[0].state.Done? && HOME in c.files.short
    ensures InScope(ScopeOf(HOME), INNER) && Reaches(ScopeOf(HOME), OneLink, HOME, false, INNER) && INNER != HOME
  {
    InnerIsReached();
    QueuedKept();
    HomeAnswers();
    hide Reaches, Trusted, Kept, Settled, TrueFiles, ScopeOf, InScope, OneLink, OneLinkNames, Possible, PageKids, Enqueued,
      Recorded, GrownBut, TornBy, Reset;
    var sc := ScopeOf(HOME);
    c := new Crawler(true);
    var alive := c.Enqueue(sc, HOME, false);
    var a := c.Save(sc, OneLink, OneLinkNames, 0, Html([], []), "e", "", false);
    OneRow(sc, OneLink, OneLinkNames, c.rows, c.files, HOME);
    ResetKeeps(sc, OneLink, OneLinkNames, HOME, c.rows, c.files, true);
    ResetAt(c.rows, true);
    c.rows := Reset(c.rows, true);
    a := c.KeepUnchanged(sc, OneLink, OneLinkNames, 0);
  }
}
