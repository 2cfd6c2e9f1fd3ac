/** What httpmirror's crawl is about: scopes, pages and what they lead to, the table of
    URLs, and the closure a complete mirror has to record. Extraction of links from
    bodies and detection of listings are left to the web itself: a page is given with
    its links. */
module HttpModel {
  import opened Common

  datatype RawUrl = RawUrl(scheme: string, host: string, path: string, query: string)

  /** A normalized http(s) URL: its path is absolute. */
  type Url = u: RawUrl | u.path != "" && u.path[0] == '/' witness RawUrl("http", "h", "/", "")

  datatype Scope = Scope(scheme: string, host: string, dir: string)

  /** p up to and including its last slash. */
  function DirOf(p: string): (d: string)
    ensures '/' !in p ==> d == "/"
    ensures '/' in p ==> d != "" && d <= p && d[|d| - 1] == '/' && '/' !in p[|d|..]
  {
    if p == "" then "/" else if p[|p| - 1] == '/' then p else DirOf(p[..|p| - 1])
  }

  function ScopeOf(root: Url): Scope {
    Scope(root.scheme, root.host, DirOf(root.path))
  }

  predicate InScope(sc: Scope, u: Url) {
    u.scheme == sc.scheme && u.host == sc.host && sc.dir <= u.path
  }

  lemma DirEnds(p: string, k: nat)
    requires '/' in p && 0 < k <= |p| && p[k - 1] == '/'
    ensures p[..k] <= DirOf(p)
    ensures '/' !in p[k..] ==> p[..k] == DirOf(p)
  {
    var d := DirOf(p);
    assert k <= |d|;
    if k < |d| { assert p[k..][|d| - 1 - k] == d[|d| - 1]; }
  }

  /** The scope of a crawl: the root's scheme and host, and its path up to and including the
      last slash. */
  lemma ScopeSpelled(root: Url, u: Url)
    ensures InScope(ScopeOf(root), u) <==>
              && u.scheme == root.scheme && u.host == root.host
              && exists k :: 0 < k <= |root.path| && root.path[k - 1] == '/' && '/' !in root.path[k..]
                             && root.path[..k] <= u.path
    ensures InScope(ScopeOf(root), u) ==>
              forall k :: 0 < k <= |root.path| && root.path[k - 1] == '/' ==> root.path[..k] <= u.path
  {
    var d := DirOf(root.path);
    assert root.path[0] == '/' && root.path[..|d|] == d;
    forall k | 0 < k <= |root.path| && root.path[k - 1] == '/'
      ensures root.path[..k] <= d && ('/' !in root.path[k..] ==> root.path[..k] == d)
    {
      DirEnds(root.path, k);
    }
  }

  lemma RootInScope(root: Url)
    ensures InScope(ScopeOf(root), root)
  {}

  /* ---- pages ---- */

  /** A body as the extractor sees it: HTML with the links and requisites found in it, a
      directory listing, a stylesheet, or anything else. */
  datatype Page = Html(links: seq<Url>, reqs: seq<Url>) | Listing(entries: seq<Url>) | Css(refs: seq<Url>) | Other

  /** What a URL permanently is. A body that is not sized comes without its length: it ends
      where the server closes the connection. */
  datatype Fate = Body(page: Page, etag: string, lastMod: string, sized: bool) | Moved(to: Url) | MovedNowhere
                | Refused(code: nat)

  type Web = Url -> Fate

  /** The page a pair of validators stands for. */
  type Names = (Url, string, string) -> Page

  /** Validators are trusted: whatever a server hands out names the body it comes with. */
  ghost predicate Trusted(web: Web, names: Names) {
    forall u :: web(u).Body? && (web(u).etag != "" || web(u).lastMod != "") ==>
      names(u, web(u).etag, web(u).lastMod) == web(u).page
  }

  /** What the first part of a page is taken for: a page of its kind that names no more. */
  predicate PartOf(part: Page, page: Page) {
    match page
    case Html(links, reqs) =>
      part.Html? && (forall u :: u in part.links ==> u in links) && forall u :: u in part.reqs ==> u in reqs
    case Listing(entries) => part.Listing? && forall u :: u in part.entries ==> u in entries
    case Css(refs) => part.Css? && forall u :: u in part.refs ==> u in refs
    case Other => part.Other?
  }

  predicate Unsized(web: Web, u: Url) {
    web(u).Body? && !web(u).sized
  }

  /** A body that was got need not be whole, but nothing tells. */
  datatype Reply = Got(page: Page, etag: string, lastMod: string, whole: bool) | Unchanged | Redirected(to: Option<Url>)
                 | Rejected(code: nat) | Busy | Broken

  /** The answers u may get, given the validators sent along. Transport errors, 5xx, 408
      and 429 can strike any request; a 304 only answers validators, and only while they
      still name the current body (section 13.1.2 of RFC 9110). A body that is not sized
      passes for whole wherever the connection is closed (section 6.3 of RFC 9112). */
  predicate Possible(web: Web, names: Names, u: Url, sent: Option<(string, string)>, r: Reply) {
    match r
    case Got(p, e, l, whole) =>
      && web(u).Body? && web(u).etag == e && web(u).lastMod == l
      && if whole then p == web(u).page else Unsized(web, u) && PartOf(p, web(u).page)
    case Unchanged => sent.Some? && web(u).Body? && names(u, sent.value.0, sent.value.1) == web(u).page
    case Redirected(None) => web(u) == MovedNowhere
    case Redirected(Some(t)) => web(u) == Moved(t)
    case Rejected(c) => web(u) == Refused(c)
    case Busy => true
    case Broken => true
  }

  function InScopeOf(sc: Scope, us: seq<Url>): set<Url> {
    set u: Url | u in us && InScope(sc, u)
  }

  /** What processing a page enqueues. An HTML page outside the scope is not parsed;
      entries of a listing with a query only re-sort it. */
  function PageKids(sc: Scope, u: Url, page: Page): set<Url> {
    match page
    case Html(links, reqs) => if InScope(sc, u) then InScopeOf(sc, links) + (set r: Url | r in reqs) else {}
    case Listing(entries) => if InScope(sc, u) then (set e: Url | e in entries && e.query == "" && InScope(sc, e)) else {}
    case Css(refs) => set r: Url | r in refs
    case Other => {}
  }

  /** What processing u as a link, or as a page requisite, leads to. */
  function Kids(sc: Scope, u: Url, fate: Fate, requisite: bool): set<Url> {
    match fate
    case Body(page, _, _, _) => PageKids(sc, u, page)
    case Moved(t) => if requisite || InScope(sc, t) then {t} else {}
    case _ => {}
  }

  /* ---- the closure ---- */

  /** What u leads to when only URLs out of the scope count as requisites, or all do. A
      row out of the scope is a requisite for good; one inside may have been one when its
      redirect was taken and be a link now. */
  function Leads(sc: Scope, web: Web, wide: bool, u: Url): set<Url> {
    Kids(sc, u, web(u), wide || !InScope(sc, u))
  }

  /** A chain of URLs from the root, each leading to the next. */
  ghost predicate Chain(sc: Scope, web: Web, root: Url, wide: bool, p: seq<Url>) {
    p != [] && p[0] == root && forall i :: 0 < i < |p| ==> p[i] in Leads(sc, web, wide, p[i - 1])
  }

  /** u is in the least set that contains the root and what its members lead to. */
  ghost predicate Reaches(sc: Scope, web: Web, root: Url, wide: bool, u: Url) {
    exists p :: Chain(sc, web, root, wide, p) && p[|p| - 1] == u
  }

  lemma ReachesRoot(sc: Scope, web: Web, root: Url, wide: bool)
    ensures Reaches(sc, web, root, wide, root)
  {
    assert Chain(sc, web, root, wide, [root]);
  }

  lemma ReachesKid(sc: Scope, web: Web, root: Url, wide: bool, u: Url, kid: Url)
    requires Reaches(sc, web, root, wide, u) && kid in Leads(sc, web, wide, u)
    ensures Reaches(sc, web, root, wide, kid)
  {
    var p :| Chain(sc, web, root, wide, p) && p[|p| - 1] == u;
    assert Chain(sc, web, root, wide, p + [kid]);
  }

  /** Reaches is the least such set: any other set closed that way contains it. */
  lemma {:induction false} ReachesIsLeast(sc: Scope, web: Web, root: Url, wide: bool, s: set<Url>, p: seq<Url>)
    requires root in s && forall u :: u in s ==> Leads(sc, web, wide, u) <= s
    requires Chain(sc, web, root, wide, p)
    ensures p[|p| - 1] in s
    decreases |p|
  {
    if |p| > 1 { ReachesIsLeast(sc, web, root, wide, s, p[..|p| - 1]); }
  }

  /* ---- the table ---- */

  datatype State = Pending | Done | Errored | Failed

  /** Row ids are handed out in order and rows are never deleted, so a row is known by
      its place. */
  datatype Row = Row(url: Url, requisite: bool, state: State, etag: string, lastMod: string)

  function Recorded(rows: seq<Row>): set<Url> {
    set i | 0 <= i < |rows| :: rows[i].url
  }

  function Find(rows: seq<Row>, u: Url): (i: nat)
    requires u in Recorded(rows)
    ensures i < |rows| && rows[i].url == u
  {
    if rows[|rows| - 1].url == u then |rows| - 1
    else
      assert u in Recorded(rows[..|rows| - 1]) by {
        var k :| 0 <= k < |rows| && rows[k].url == u;
        assert rows[..|rows| - 1][k].url == u;
      }
      Find(rows[..|rows| - 1], u)
  }

  /** enqueue: INSERT ... ON CONFLICT DO UPDATE SET requisite = MIN(...). */
  function Enqueued(sc: Scope, rows: seq<Row>, u: Url, requisite: bool): seq<Row> {
    if !requisite && !InScope(sc, u) then rows
    else if u in Recorded(rows) then
      var i := Find(rows, u);
      rows[i := rows[i].(requisite := rows[i].requisite && requisite)]
    else rows + [Row(u, requisite, Pending, "", "")]
  }

  /** Rows may be added, pending and without validators; known rows keep all but their
      requisite flag, which can only be dropped. */
  ghost predicate Grown(a: seq<Row>, b: seq<Row>) {
    && |a| <= |b|
    && (forall i :: 0 <= i < |a| ==> b[i] == a[i].(requisite := b[i].requisite) && (b[i].requisite ==> a[i].requisite))
    && (forall i :: |a| <= i < |b| ==> b[i].state.Pending? && b[i].etag == "" && b[i].lastMod == "")
  }

  ghost predicate Unique(rows: seq<Row>) {
    forall i, j :: 0 <= i < j < |rows| ==> rows[i].url != rows[j].url
  }

  /** Every row that is not just a requisite is in scope. */
  ghost predicate LinksInScope(sc: Scope, rows: seq<Row>) {
    forall i :: 0 <= i < |rows| ==> rows[i].requisite || InScope(sc, rows[i].url)
  }

  /** The local files by URL; those URLs whose file was put in place last by a run that was
      cut off before it wrote the new validators to the row; and those the last body of
      which, or the last one recorded, was cut short. */
  datatype Files = Files(body: map<Url, Page>, torn: set<Url>, short: set<Url>)

  const NO_FILES := Files(map[], {}, {})

  /** A body cut short counts for nothing. */
  ghost predicate NamedOk(sc: Scope, names: Names, r: Row, recorded: set<Url>, files: Files) {
    (r.etag != "" || r.lastMod != "") && r.url !in files.short ==>
      PageKids(sc, r.url, names(r.url, r.etag, r.lastMod)) <= recorded
  }

  /** The stored validators name the local file's body, unless it is torn or cut short. */
  ghost predicate FiledOk(names: Names, r: Row, files: Files) {
    (r.etag != "" || r.lastMod != "") && r.url in files.body && r.url !in files.torn && r.url !in files.short ==>
      files.body[r.url] == names(r.url, r.etag, r.lastMod)
  }

  ghost predicate Filed(names: Names, rows: seq<Row>, files: Files) {
    forall i :: 0 <= i < |rows| ==> FiledOk(names, rows[i], files)
  }

  /** Every stored validator names a body whose whole expansion is on record, unless it came
      with a body cut short. */
  ghost predicate Named(sc: Scope, names: Names, rows: seq<Row>, files: Files) {
    forall i :: 0 <= i < |rows| ==> NamedOk(sc, names, rows[i], Recorded(rows), files)
  }

  /** A body is saved unless it is a listing. */
  predicate KeepsFile(sc: Scope, u: Url, fate: Fate) {
    fate.Body? && !(fate.page.Listing? && InScope(sc, u))
  }

  /** Every local file is the body its URL has, unless it was cut short. */
  ghost predicate TrueFiles(web: Web, files: Files) {
    forall u :: u in files.body && u !in files.short ==> web(u).Body? && files.body[u] == web(u).page
  }

  /** The file is there, and unless it is torn or cut short it is the current body. */
  predicate Current(web: Web, files: Files, u: Url) {
    u in files.body && (u in files.torn || u in files.short || (web(u).Body? && files.body[u] == web(u).page))
  }

  /** The web as if what was cut short led nowhere. */
  function Trimmed(web: Web, short: set<Url>): Web {
    (u: Url) => if u in short && web(u).Body? then Refused(0) else web(u)
  }

  ghost predicate SettledOk(sc: Scope, web: Web, r: Row, recorded: set<Url>, files: Files) {
    && (r.state.Done? || r.state.Failed? ==> Kids(sc, r.url, Trimmed(web, files.short)(r.url), r.requisite) <= recorded)
    && (r.state.Done? && KeepsFile(sc, r.url, web(r.url)) ==> Current(web, files, r.url))
  }

  /** Every finished row has what it leads to on record, under its own flag, unless it was
      cut short, and if it is done, a current file. */
  ghost predicate Settled(sc: Scope, web: Web, rows: seq<Row>, files: Files) {
    forall i :: 0 <= i < |rows| ==> SettledOk(sc, web, rows[i], Recorded(rows), files)
  }

  /** Nothing is on record that the root does not lead to. */
  ghost predicate Sound(sc: Scope, web: Web, root: Url, rows: seq<Row>) {
    forall i :: 0 <= i < |rows| ==> Reaches(sc, web, root, true, rows[i].url)
  }

  /** A part of a page leads to no more than the page. */
  lemma PartLeads(sc: Scope, u: Url, part: Page, page: Page)
    requires PartOf(part, page)
    ensures PageKids(sc, u, part) <= PageKids(sc, u, page)
  {}

  lemma RecordedHas(rows: seq<Row>, i: nat)
    requires i < |rows|
    ensures rows[i].url in Recorded(rows)
  {}

  lemma GrownRecords(a: seq<Row>, b: seq<Row>)
    requires Grown(a, b)
    ensures Recorded(a) <= Recorded(b)
  {
    forall u | u in Recorded(a) ensures u in Recorded(b) {
      var i :| 0 <= i < |a| && a[i].url == u;
      assert b[i].url == u;
    }
  }

  lemma GrownTrans(a: seq<Row>, b: seq<Row>, c: seq<Row>)
    requires Grown(a, b) && Grown(b, c)
    ensures Grown(a, c)
  {}

  lemma EnqueuedGrows(sc: Scope, rows: seq<Row>, u: Url, requisite: bool)
    requires Unique(rows) && LinksInScope(sc, rows)
    ensures var n := Enqueued(sc, rows, u, requisite);
      && Grown(rows, n) && Unique(n) && LinksInScope(sc, n)
      && Recorded(n) == Recorded(rows) + (if requisite || InScope(sc, u) then {u} else {})
  {
    var n := Enqueued(sc, rows, u, requisite);
    if requisite || InScope(sc, u) {
      if u in Recorded(rows) {
        var i := Find(rows, u);
        assert forall k :: 0 <= k < |rows| ==> n[k].url == rows[k].url;
        assert Recorded(n) == Recorded(rows);
      } else {
        forall i | 0 <= i < |rows| ensures rows[i].url != u { RecordedHas(rows, i); }
        forall x | x in Recorded(rows) + {u} ensures x in Recorded(n) {
          if x == u { assert n[|rows|].url == u; }
          else { var i :| 0 <= i < |rows| && rows[i].url == x; assert n[i].url == x; }
        }
      }
    }
  }

  /** A link out of the scope is dropped; a new URL gets a pending row; a known one stays a
      requisite only while nothing links to it. */
  lemma EnqueuedSpelled(sc: Scope, rows: seq<Row>, u: Url, requisite: bool)
    requires Unique(rows)
    ensures var n := Enqueued(sc, rows, u, requisite);
      && (!requisite && !InScope(sc, u) ==> n == rows)
      && (u !in Recorded(rows) && (requisite || InScope(sc, u)) ==> n == rows + [Row(u, requisite, Pending, "", "")])
      && (u in Recorded(rows) ==> |n| == |rows|)
      && (forall i :: 0 <= i < |rows| ==>
            n[i] == if rows[i].url == u && !requisite && InScope(sc, u) then rows[i].(requisite := false) else rows[i])
  {
    forall i | 0 <= i < |rows| ensures rows[i].url in Recorded(rows) { RecordedHas(rows, i); }
  }

  lemma GrownKeepsNamed(sc: Scope, names: Names, a: seq<Row>, b: seq<Row>, files: Files)
    requires Grown(a, b) && Named(sc, names, a, files)
    ensures Named(sc, names, b, files)
  {
    GrownRecords(a, b);
    forall i | 0 <= i < |b| ensures NamedOk(sc, names, b[i], Recorded(b), files) {
      if i < |a| { assert NamedOk(sc, names, a[i], Recorded(a), files); }
    }
  }

  lemma GrownKeepsSettled(sc: Scope, web: Web, a: seq<Row>, b: seq<Row>, files: Files)
    requires Grown(a, b) && Settled(sc, web, a, files)
    ensures Settled(sc, web, b, files)
  {
    GrownRecords(a, b);
    forall i | 0 <= i < |b| ensures SettledOk(sc, web, b[i], Recorded(b), files) {
      if i < |a| {
        assert SettledOk(sc, web, a[i], Recorded(a), files);
        var fate := Trimmed(web, files.short)(a[i].url);
        assert Kids(sc, b[i].url, fate, b[i].requisite) <= Kids(sc, a[i].url, fate, a[i].requisite);
      }
    }
  }

  lemma SettledLeads(sc: Scope, web: Web, rows: seq<Row>, files: Files, i: nat)
    requires Settled(sc, web, rows, files) && LinksInScope(sc, rows) && i < |rows| && !rows[i].state.Pending?
    requires !rows[i].state.Errored?
    ensures Kids(sc, rows[i].url, Trimmed(web, files.short)(rows[i].url), rows[i].requisite) <= Recorded(rows)
    ensures Leads(sc, Trimmed(web, files.short), false, rows[i].url) <= Recorded(rows)
  {
    assert SettledOk(sc, web, rows[i], Recorded(rows), files);
    assert rows[i].requisite || InScope(sc, rows[i].url);
  }

  ghost predicate AllFinished(rows: seq<Row>) {
    forall i :: 0 <= i < |rows| ==> rows[i].state.Done? || rows[i].state.Failed?
  }

  /** The heart of completeness: in a table where every row is done or failed, and every
      finished row has its expansion on record, everything is that the root leads to
      otherwise than through bodies cut short. */
  lemma {:induction false} SettledIsComplete(sc: Scope, web: Web, root: Url, rows: seq<Row>, files: Files, u: Url)
    requires root in Recorded(rows) && Settled(sc, web, rows, files) && LinksInScope(sc, rows) && AllFinished(rows)
    requires Reaches(sc, Trimmed(web, files.short), root, false, u)
    ensures u in Recorded(rows)
  {
    var trimmed := Trimmed(web, files.short);
    forall x | x in Recorded(rows) ensures Leads(sc, trimmed, false, x) <= Recorded(rows) {
      var i :| 0 <= i < |rows| && rows[i].url == x;
      SettledLeads(sc, web, rows, files, i);
    }
    var p :| Chain(sc, trimmed, root, false, p) && p[|p| - 1] == u;
    ReachesIsLeast(sc, trimmed, root, false, Recorded(rows), p);
  }

  /** Nothing is cut short, nothing trimmed. */
  lemma NothingTrimmed(sc: Scope, web: Web, root: Url, wide: bool, u: Url)
    ensures Reaches(sc, Trimmed(web, {}), root, wide, u) <==> Reaches(sc, web, root, wide, u)
  {
    forall x: Url ensures Leads(sc, Trimmed(web, {}), wide, x) == Leads(sc, web, wide, x) {}
    if Reaches(sc, web, root, wide, u) {
      var p :| Chain(sc, web, root, wide, p) && p[|p| - 1] == u;
      assert Chain(sc, Trimmed(web, {}), root, wide, p);
    }
    if Reaches(sc, Trimmed(web, {}), root, wide, u) {
      var p :| Chain(sc, Trimmed(web, {}), root, wide, p) && p[|p| - 1] == u;
      assert Chain(sc, web, root, wide, p);
    }
  }

  /** A chain of redirects that, once out of the scope, may go anywhere. */
  ghost predicate Redirects(sc: Scope, web: Web, p: seq<Url>) {
    && p != []
    && (forall k :: 0 < k < |p| ==> web(p[k - 1]) == Moved(p[k]))
    && (forall k :: 1 < k < |p| ==> !InScope(sc, p[k - 1]) || InScope(sc, p[k]))
  }

  /** The redirects of a URL still flagged as a requisite are on record to their end,
      wherever they lead. */
  lemma {:induction false} RedirectsRecorded(sc: Scope, web: Web, rows: seq<Row>, files: Files, i: nat, p: seq<Url>)
    requires Settled(sc, web, rows, files) && LinksInScope(sc, rows) && AllFinished(rows)
    requires i < |rows| && rows[i].requisite && Redirects(sc, web, p) && p[0] == rows[i].url
    ensures p[|p| - 1] in Recorded(rows)
    decreases |p|
  {
    if |p| == 2 {
      SettledLeads(sc, web, rows, files, i);
    } else if |p| > 2 {
      var q := p[..|p| - 1];
      RedirectsRecorded(sc, web, rows, files, i, q);
      var j :| 0 <= j < |rows| && rows[j].url == q[|q| - 1];
      SettledLeads(sc, web, rows, files, j);
      assert web(p[|p| - 2]) == Moved(p[|p| - 1]);
    }
  }

  /** No URL of the scope redirects out of it. */
  ghost predicate NoStrayRedirects(sc: Scope, web: Web) {
    forall u :: InScope(sc, u) && web(u).Moved? ==> InScope(sc, web(u).to)
  }

  /** Then the two closures are one. */
  lemma ClosuresCoincide(sc: Scope, web: Web, root: Url, u: Url)
    requires NoStrayRedirects(sc, web)
    ensures Reaches(sc, web, root, true, u) <==> Reaches(sc, web, root, false, u)
  {
    forall x: Url ensures Leads(sc, web, true, x) == Leads(sc, web, false, x) {}
    if Reaches(sc, web, root, true, u) {
      var p :| Chain(sc, web, root, true, p) && p[|p| - 1] == u;
      assert Chain(sc, web, root, false, p);
    }
    if Reaches(sc, web, root, false, u) {
      var p :| Chain(sc, web, root, false, p) && p[|p| - 1] == u;
      assert Chain(sc, web, root, true, p);
    }
  }

  /* ---- the start URL ---- */

  const MAX_REDIRECTS := 10

  /** What strikes a request: nothing, a 5xx or similar answer, or a transport error. */
  datatype Strike = Clear | BusyAnswer | NoAnswer

  function StrikeAt(strikes: seq<Strike>, k: nat): Strike {
    if k < |strikes| then strikes[k] else Clear
  }

  /** Where k redirects lead. */
  function Follow(web: Web, start: Url, k: nat): Url {
    if k == 0 then start
    else var u := Follow(web, start, k - 1); if web(u).Moved? then web(u).to else u
  }

  /** Redirects end after at most k of them. */
  predicate EndsBy(web: Web, start: Url, k: nat) {
    !web(Follow(web, start, k)).Moved?
  }

  /** u is where the redirects of the start end. */
  ghost predicate EndOf(web: Web, start: Url, u: Url) {
    exists k: nat :: EndsBy(web, start, k) && u == Follow(web, start, k)
  }

  /** The search of resolveStart from its k-th request on: any answer that is no redirect
      ends it, a busy one included. None is a transport error. */
  function Search(web: Web, u: Url, strikes: seq<Strike>, k: nat): Option<Url>
    requires k <= MAX_REDIRECTS
    decreases MAX_REDIRECTS - k
  {
    if k == MAX_REDIRECTS then Some(u)
    else match StrikeAt(strikes, k)
      case NoAnswer => None
      case BusyAnswer => Some(u)
      case Clear => if web(u).Moved? then Search(web, web(u).to, strikes, k + 1) else Some(u)
  }

  /** Some request at a URL that redirects was answered busy. */
  ghost predicate Misled(web: Web, start: Url, strikes: seq<Strike>) {
    exists k: nat :: k < MAX_REDIRECTS && MisledAt(web, start, strikes, k)
  }

  ghost predicate MisledAt(web: Web, start: Url, strikes: seq<Strike>, k: nat) {
    StrikeAt(strikes, k).BusyAnswer? && web(Follow(web, start, k)).Moved?
  }

  lemma {:induction false} FollowStops(web: Web, start: Url, k: nat, m: nat)
    requires k <= m && EndsBy(web, start, k)
    ensures Follow(web, start, m) == Follow(web, start, k)
    decreases m
  {
    if k < m { FollowStops(web, start, k, m - 1); }
  }

  lemma EndIsOne(web: Web, start: Url, u: Url, k: nat)
    requires u == Follow(web, start, k)
    ensures EndOf(web, start, u) <==> EndsBy(web, start, k)
  {
    if EndOf(web, start, u) {
      var m: nat :| EndsBy(web, start, m) && u == Follow(web, start, m);
    }
  }

  /** Where the search from the k-th request on ends: at the end of the redirects, or too
      early, or after all its requests. */
  lemma {:induction false} SearchFrom(web: Web, start: Url, strikes: seq<Strike>, k: nat) returns (m: nat)
    requires k <= MAX_REDIRECTS && Search(web, Follow(web, start, k), strikes, k).Some?
    ensures k <= m <= MAX_REDIRECTS && Search(web, Follow(web, start, k), strikes, k) == Some(Follow(web, start, m))
    ensures EndsBy(web, start, m) || m == MAX_REDIRECTS || MisledAt(web, start, strikes, m)
    ensures forall j: nat :: k <= j < m ==> !MisledAt(web, start, strikes, j)
    decreases MAX_REDIRECTS - k
  {
    m := k;
    var u := Follow(web, start, k);
    if k < MAX_REDIRECTS && StrikeAt(strikes, k).Clear? && web(u).Moved? {
      assert Follow(web, start, k + 1) == web(u).to;
      m := SearchFrom(web, start, strikes, k + 1);
    }
  }

  /** The stored root is where the redirects of the start URL end if and only if they end
      within ten and no request at a URL that redirects was answered busy. */
  lemma RootIsEnd(web: Web, start: Url, strikes: seq<Strike>)
    requires Search(web, start, strikes, 0).Some?
    ensures EndOf(web, start, Search(web, start, strikes, 0).value) <==>
              EndsBy(web, start, 10) && !Misled(web, start, strikes)
  {
    var m := SearchFrom(web, start, strikes, 0);
    EndIsOne(web, start, Search(web, start, strikes, 0).value, m);
    if EndsBy(web, start, m) {
      FollowStops(web, start, m, MAX_REDIRECTS);
      forall j: nat | m <= j ensures !MisledAt(web, start, strikes, j) { FollowStops(web, start, m, j); }
    }
  }

  const OLD_HOME := RawUrl("http", "old", "/", "")
  const NEW_HOME := RawUrl("http", "new", "/", "")

  function MovedHome(u: Url): Fate {
    if u == OLD_HOME then Moved(NEW_HOME) else Body(Html([], []), "", "", true)
  }

  /** A busy answer at a start URL that has moved makes that URL the root, for good:
      later runs read it back. */
  lemma BusyMakesWrongRoot()
    ensures Search(MovedHome, OLD_HOME, [BusyAnswer], 0) == Some(OLD_HOME)
    ensures EndOf(MovedHome, OLD_HOME, NEW_HOME) && !EndOf(MovedHome, OLD_HOME, OLD_HOME)
  {
    assert Follow(MovedHome, OLD_HOME, 1) == NEW_HOME && EndsBy(MovedHome, OLD_HOME, 1);
    EndIsOne(MovedHome, OLD_HOME, OLD_HOME, 0);
  }
}
