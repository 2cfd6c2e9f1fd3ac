/** What the ORDER BY of ClaimNextJob means for sites and subtrees. */
module ClaimOrder {
  import opened JobTable

  /** `ids` are claimed one after another with nothing else happening in between. */
  ghost predicate ClaimRun(t: Table, ids: seq<Id>)
    decreases |ids|
  {
    ids == [] || (IsNext(t, ids[0]) && ClaimRun(Claimed(t, ids[0]), ids[1..]))
  }

  ghost predicate Top(t: Table, p: int) {
    forall id :: QueuedIn(t, id) ==> t[id].priority <= p
  }

  /** Sites without a running job that have a queued job of priority p. */
  ghost function IdleSites(t: Table, p: int): set<string> {
    set id | id in t && t[id].state.Queued? && t[id].priority == p && !Busy(t, t[id].site) :: t[id].site
  }

  lemma ClaimedBusy(t: Table, id: Id)
    requires QueuedIn(t, id)
    ensures forall site :: Busy(Claimed(t, id), site) <==> Busy(t, site) || site == t[id].site
  {
    var u := Claimed(t, id);
    forall site ensures Busy(u, site) <==> Busy(t, site) || site == t[id].site {
      if Busy(t, site) {
        var k :| k in t && t[k].state.Running? && t[k].site == site;
        assert u[k].state.Running? && u[k].site == site;
      }
      if site == t[id].site { assert u[id].state.Running?; }
      if k :| k in u && u[k].state.Running? && u[k].site == site {
        assert k == id || (k in t && t[k].state.Running?);
      }
    }
  }

  /** One claim while an idle site waits takes the first such site in name order. */
  lemma IdleSiteFirst(t: Table, p: int, id: Id)
    requires Top(t, p) && IdleSites(t, p) != {} && IsNext(t, id)
    ensures t[id].site in IdleSites(t, p) && t[id].priority == p
    ensures forall s :: s in IdleSites(t, p) ==> s == t[id].site || StrLess(t[id].site, s)
    ensures IdleSites(Claimed(t, id), p) == IdleSites(t, p) - {t[id].site}
    ensures Top(Claimed(t, id), p)
  {
    var site :| site in IdleSites(t, p);
    var k :| k in t && t[k].state.Queued? && t[k].priority == p && !Busy(t, t[k].site) && t[k].site == site;
    assert QueuedIn(t, k) && !Before(t, t[k], t[id]);
    forall s | s in IdleSites(t, p) ensures s == t[id].site || StrLess(t[id].site, s) {
      var j :| j in t && t[j].state.Queued? && t[j].priority == p && !Busy(t, t[j].site) && t[j].site == s;
      assert QueuedIn(t, j) && !Before(t, t[j], t[id]);
      if s != t[id].site { StrLessTotal(s, t[id].site); }
    }
    ClaimedBusy(t, id);
    var u := Claimed(t, id);
    forall s ensures s in IdleSites(u, p) <==> s in IdleSites(t, p) - {t[id].site} {
      if s in IdleSites(t, p) && s != t[id].site {
        var j :| j in t && t[j].state.Queued? && t[j].priority == p && !Busy(t, t[j].site) && t[j].site == s;
        assert j in u && u[j] == t[j];
      }
    }
    forall j | QueuedIn(u, j) ensures u[j].priority <= p { assert QueuedIn(t, j); }
  }

  /** What is claimed, against anything else queued: no lower priority; then no busy site
      before an idle one; then the first site, the first path and the oldest row. */
  lemma ClaimComparesTo(t: Table, id: Id, j: Id)
    requires IsNext(t, id) && j in t && t[j].state == Queued
    ensures id in t && t[id].state == Queued && t[j].priority <= t[id].priority
    ensures t[j].priority == t[id].priority ==>
              var busy := set k | k in t && t[k].state == Running :: t[k].site;
              && (t[id].site in busy ==> t[j].site in busy)
              && ((t[id].site in busy <==> t[j].site in busy) ==> t[id].site == t[j].site || StrLess(t[id].site, t[j].site))
              && (t[id].site == t[j].site ==> t[id].path == t[j].path || StrLess(t[id].path, t[j].path))
              && (t[id].site == t[j].site && t[id].path == t[j].path ==> t[id].created <= t[j].created)
  {
    var busy := set k | k in t && t[k].state == Running :: t[k].site;
    assert QueuedIn(t, j) && !Before(t, t[j], t[id]);
    forall site ensures site in busy <==> Busy(t, site) {}
    if t[id].site != t[j].site { StrLessTotal(t[id].site, t[j].site); }
    if t[id].path != t[j].path { StrLessTotal(t[id].path, t[j].path); }
  }

  /** The sites served by a run of claims. */
  ghost predicate Serves(t: Table, ids: seq<Id>, sites: seq<string>) {
    |sites| == |ids| && forall i :: 0 <= i < |ids| ==> ids[i] in t && t[ids[i]].site == sites[i]
  }

  /** Fair share: while m idle sites hold queued jobs of the top priority, the next m
      undisturbed claims serve m different ones of them, in name order; together they
      serve them all. */
  lemma {:induction false} FairShare(t: Table, p: int, ids: seq<Id>, sites: seq<string>)
    requires Top(t, p) && ClaimRun(t, ids) && Serves(t, ids, sites) && |ids| <= |IdleSites(t, p)|
    ensures forall i :: 0 <= i < |sites| ==> sites[i] in IdleSites(t, p)
    ensures forall i, j :: 0 <= i < j < |sites| ==> StrLess(sites[i], sites[j])
    ensures |ids| == |IdleSites(t, p)| ==> forall s :: s in IdleSites(t, p) ==> s in sites
    decreases |ids|
  {
    if ids == [] { return; }
    var u, rest := Claimed(t, ids[0]), sites[1..];
    var idle, left := IdleSites(t, p), IdleSites(u, p);
    assert sites[0] in idle && left == idle - {sites[0]} && Top(u, p)
        && forall s :: s in left ==> StrLess(sites[0], s) by { IdleSiteFirst(t, p, ids[0]); }
    FairShare(u, p, ids[1..], rest) by {
      assert Serves(u, ids[1..], rest);
    }
    forall i | 0 <= i < |sites| ensures sites[i] in idle && (i > 0 ==> sites[i] in left) {
      if i > 0 { assert sites[i] == rest[i - 1]; }
    }
    forall i, j | 0 <= i < j < |sites| ensures StrLess(sites[i], sites[j]) {
      if i > 0 { assert sites[i] == rest[i - 1] && sites[j] == rest[j - 1]; }
    }
    if |ids| == |idle| {
      forall s | s in idle ensures s in sites {
        if s != sites[0] { assert s in rest; }
      }
    }
  }

  /** Parents before subdirectories: a job is never claimed while a job of the same
      site and priority whose path is a proper prefix of its own is queued. */
  lemma AncestorFirst(t: Table, id: Id, anc: Id)
    requires IsNext(t, id) && anc in t
    requires t[anc].site == t[id].site && t[anc].priority == t[id].priority && t[anc].path < t[id].path
    ensures !t[anc].state.Queued?
  {
    PrefixSortsFirst(t[anc].path, t[id].path);
    assert Before(t, t[anc], t[id]);
  }

  /** Over a whole undisturbed run: if both are queued at the start and the descendant
      is claimed, the ancestor was claimed at an earlier position. */
  lemma {:induction false} AncestorsClaimedFirst(t: Table, ids: seq<Id>, anc: Id, k: nat)
    requires ClaimRun(t, ids) && k < |ids|
    requires QueuedIn(t, anc) && ids[k] in t
    requires t[anc].site == t[ids[k]].site && t[anc].priority == t[ids[k]].priority && t[anc].path < t[ids[k]].path
    ensures anc in ids[..k]
    decreases k
  {
    if k == 0 {
      AncestorFirst(t, ids[0], anc);
    } else if ids[0] != anc {
      AncestorsClaimedFirst(Claimed(t, ids[0]), ids[1..], anc, k - 1);
      assert ids[1..][..k - 1] == ids[1..k] && ids[..k] == [ids[0]] + ids[1..k];
    } else {
      assert ids[..k][0] == anc;
    }
  }
}
