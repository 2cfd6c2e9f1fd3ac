/** The recursion of gopher: get, fetch and readMenu call each other depth first over a
    shared set of selectors already seen to. With `faulty`, connections, transfers and
    local writes can fail, the peer can close early, which looks like the end of an item,
    and the run can be cancelled anywhere. */
module GopherCrawl {
  import opened Common
  import opened GopherModel

  datatype Type = Unknown | Known(c: char)
  datatype Result = Fine | Failed | Cancelled

  /** Whether a response is read as a menu. */
  predicate AsMenu(typ: Type, r: Reply) {
    typ == Known('1') || (typ == Unknown && r.menuLike)
  }

  lemma FewerLeft(universe: set<Selector>, seen: set<Selector>, s: Selector)
    requires s in universe - seen
    ensures |universe - (seen + {s})| < |universe - seen|
  {
    assert universe - (seen + {s}) == (universe - seen) - {s};
  }

  class Crawler {
    const site: Site
    ghost const menu: Kinds          // what each selector really is
    const start: Selector
    ghost const universe: set<Selector>
    var seen: set<Selector>
    var disk: Disk
    ghost var torn: set<Selector>    // whose transfer was closed early, in this run or before
    ghost var requests: Requests

    constructor (site: Site, ghost menu: Kinds, start: Selector, ghost universe: set<Selector>, disk: Disk,
                 ghost torn: set<Selector>)
      ensures this.site == site && this.menu == menu && this.start == start && this.universe == universe
      ensures seen == {} && this.disk == disk && this.torn == torn && requests == multiset{}
    {
      this.site, this.menu, this.start, this.universe := site, menu, start, universe;
      seen, this.disk, this.torn, requests := {}, disk, torn, multiset{};
    }

    ghost function View(): Crawl
      reads this
    {
      Crawl(seen, disk, torn, requests)
    }

    /** What does not change during a crawl. The selectors any menu can name are finitely
        many. */
    ghost predicate Setting() {
      && site.root == PathOf(start) && Tame(site, menu, start)
      && forall s :: s in universe ==> FollowedIn(site, site.reply(s).lines) <= universe
    }

    ghost predicate Tidy(left: nat)
      reads this
    {
      seen <= universe && DiskOk(site, menu, start, disk, torn) && |universe - seen| <= left
    }

    ghost predicate Placed(s: Selector) {
      s in universe && Reaches(site, menu, start, s) && LocalPath(site.root, s).Some?
    }

    ghost predicate TypeFits(s: Selector, typ: Type) {
      site.reply(s).body != "" ==> (typ == Known('1') || (typ == Unknown && site.reply(s).menuLike) <==> menu(s))
    }

    method Get(s: Selector, typ: Type, faulty: bool, ghost left: nat) returns (alive: bool)
      requires Setting() && Tidy(left) && s in universe
      requires LocalPath(site.root, s).Some? ==> Reaches(site, menu, start, s) && TypeFits(s, typ)
      requires LocalPath(site.root, s).None? ==> Linked(site, menu, start, s)
      modifies this
      ensures Tidy(left) && s in seen && Went(site, menu, start, {}, old(View()), View(), faulty)
      ensures !faulty ==> alive
      decreases left, 0
    {
      hide Tame, DiskOk, Reaches, PathOf, LocalPath, Saved, OnDisk, Went, Linked, FollowedIn;
      ghost var entry := View();
      WentNowhere(site, menu, start, {}, entry, faulty);
      if s in seen { return true; }
      FewerLeft(universe, seen, s);
      seen := seen + {s};
      if LocalPath(site.root, s).None? {
        WentPast(site, menu, start, s, entry, faulty);
        return true;
      }
      var t := typ;
      PlaceDecides(site, menu, start, disk, torn, s);
      if PathOf(s) in disk {
        if disk[PathOf(s)].Dir? {
          t := Known('1');
        } else {
          WentPast(site, menu, start, s, entry, faulty);
          return true;
        }
      }
      ghost var last: Result;
      alive, last := GetNew(s, t, faulty, entry, left - 1);
    }

    /** The retry loop of get. */
    method GetNew(s: Selector, typ: Type, faulty: bool, ghost entry: Crawl, ghost left: nat)
      returns (alive: bool, ghost last: Result)
      requires Setting() && Tidy(left) && Placed(s) && TypeFits(s, typ)
      requires !OnDisk(disk, s) && s !in entry.seen && View() == entry.(seen := entry.seen + {s})
      modifies this
      ensures Tidy(left) && s in seen && Went(site, menu, start, {}, entry, View(), faulty)
      ensures !faulty ==> alive
      ensures alive ==> last != Cancelled && (last == Failed ==> requests[s] == entry.requests[s] + 5)
      decreases left, 7
    {
      last := Failed;
      hide Explored, Finished, Tame, DiskOk, OnDisk, Reaches, PathOf, LocalPath;
      var attempt := 1;
      WentEntered(site, menu, start, s, entry);
      while attempt <= MAX_ATTEMPTS
        invariant 1 <= attempt <= MAX_ATTEMPTS + 1 && Tidy(left) && s in seen
        invariant Explored(site, menu, start, {}, entry, View())
        invariant requests[s] == entry.requests[s] + attempt - 1 && !OnDisk(disk, s)
        invariant !faulty ==> attempt == 1 && View() == old(View())
        invariant last == Failed
      {
        if faulty { if * { return false, last; } }
        var r := GetOnce(s, typ, faulty, entry, attempt - 1, left);
        last := r;
        if r != Failed { return r == Fine, last; }
        attempt := attempt + 1;
      }
      alive := true;
    }

    /** One turn of it. */
    method GetOnce(s: Selector, typ: Type, faulty: bool, ghost entry: Crawl, ghost n: nat, ghost left: nat)
      returns (r: Result)
      requires Setting() && Tidy(left) && s in seen && Placed(s) && TypeFits(s, typ)
      requires s !in entry.seen && Explored(site, menu, start, {}, entry, View())
      requires requests[s] == entry.requests[s] + n && n < MAX_ATTEMPTS && !OnDisk(disk, s)
      requires !faulty ==> View() == entry.(seen := entry.seen + {s})
      modifies this
      ensures Tidy(left) && s in seen && Explored(site, menu, start, {}, entry, View())
      ensures requests[s] == entry.requests[s] + n + 1 && (r == Failed ==> !OnDisk(disk, s))
      ensures !faulty ==> r == Fine && Finished(site, menu, entry, View())
      decreases left, 6
    {
      ghost var before := View();
      requests := requests + multiset{s};
      r := Fetch(s, typ, faulty, left);
      WentAgain(site, menu, start, s, entry, before, View(), n);
      if !faulty { WentWell(site, menu, s, entry, View()); }
    }

    /** One request for s. The peer may close at any point of the response, and what has
        arrived by then passes for the whole. */
    method Fetch(s: Selector, typ: Type, faulty: bool, ghost left: nat) returns (r: Result)
      requires Setting() && Tidy(left) && s in seen && Placed(s) && TypeFits(s, typ) && !OnDisk(disk, s)
      modifies this
      ensures Tidy(left) && Went(site, menu, start, {s}, old(View()), View(), faulty)
      ensures r == Failed ==> !OnDisk(disk, s)
      ensures !faulty ==> r == Fine && Achieved(site, menu, View(), s)
      decreases left, 5
    {
      WentNowhere(site, menu, start, {s}, View(), faulty);
      if faulty { if * { return Failed; } }        // no connection, or no first piece
      var reply := site.reply(s);
      var arrived := |reply.body|;
      if faulty { arrived :| 0 <= arrived <= |reply.body|; }
      if arrived == 0 { return Fine; }
      if AsMenu(typ, reply) {
        r := ReadMenu(s, faulty, left);
      } else {
        r := WriteFile(s, arrived, faulty, left);
      }
    }

    /** A plain item goes to a temp file that is renamed when the peer closes, after all of
        it or, closing early, after the first `arrived` bytes. */
    method WriteFile(s: Selector, arrived: nat, faulty: bool, ghost left: nat) returns (r: Result)
      requires Setting() && Tidy(left) && s in seen && Placed(s) && !menu(s) && !OnDisk(disk, s)
      requires 0 < arrived <= |site.reply(s).body|
      modifies this`disk, this`torn
      ensures Tidy(left)
      ensures Went(site, menu, start, {s}, old(View()), View(), faulty || arrived < |site.reply(s).body|)
      ensures r == Failed ==> !OnDisk(disk, s) && torn == old(torn)
      ensures !faulty ==> r == Fine
      ensures r == Fine ==> PathOf(s) in disk && disk[PathOf(s)] == File(site.reply(s).body[..arrived])
      ensures r == Fine ==> torn == old(torn) + if arrived < |site.reply(s).body| then {s} else {}
      ensures r == Fine && arrived == |site.reply(s).body| ==> Achieved(site, menu, View(), s)
      ensures r != Cancelled
    {
      hide Tame, DiskOk, Went, Achieved, OnDisk, Reaches, LocalPath, PathOf, WithRoom;
      var bytes := site.reply(s).body[..arrived];
      ghost var amiss := faulty || arrived < |site.reply(s).body|;
      WentNowhere(site, menu, start, {s}, View(), amiss);
      if faulty { if * { return Failed; } }
      WentRoom(site, menu, start, s, View(), amiss);
      disk := WithRoom(disk, s);
      if faulty { if * { return Failed; } }        // the transfer breaks off
      WentSaving(site, menu, start, s, arrived, old(View()), View(), amiss);
      disk, torn := disk[PathOf(s) := File(bytes)], torn + if arrived < |site.reply(s).body| then {s} else {};
      r := Fine;
    }

    /** A menu's entries are seen to before its info lines are written. Lines lost when a
        transfer breaks off are not missed. */
    method ReadMenu(s: Selector, faulty: bool, ghost left: nat) returns (r: Result)
      requires Setting() && Tidy(left) && s in seen && Placed(s) && menu(s) && site.reply(s).body != ""
      requires !OnDisk(disk, s)
      modifies this
      ensures Tidy(left) && Went(site, menu, start, {s}, old(View()), View(), faulty)
      ensures r == Failed ==> !OnDisk(disk, s)
      ensures !faulty ==> r == Fine && Achieved(site, menu, View(), s)
      decreases left, 4
    {
      hide Tame, DiskOk, Explored, Finished, Reaches, LocalPath, Missed, InfoText, Achieved;
      var n: nat := |site.reply(s).lines|;
      if faulty { n :| 0 <= n <= |site.reply(s).lines|; }
      WentNowhere(site, menu, start, {s}, View(), faulty);
      if faulty { if * { return Failed; } }
      MenuIsHoused(s);
      WentHousing(site, menu, start, s, PathOf(s), View(), faulty);
      disk := WithDirs(disk, PathOf(s), Dir);
      var alive, readme := FollowLines(s, n, faulty, old(View()), left);
      if !alive { return Cancelled; }
      r := Fine;
      if readme != "" { r := WriteReadme(s, readme, faulty, old(View()), left); }
      if !faulty { MenuAchieved(site, menu, View(), s, n); }
    }

    lemma MenuIsHoused(s: Selector)
      requires Placed(s) && menu(s)
      ensures Houses(site, menu, start, s, PathOf(s))
    {}

    /** The first n lines of a menu, in order. */
    method FollowLines(s: Selector, n: nat, faulty: bool, ghost first: Crawl, ghost left: nat)
      returns (alive: bool, readme: string)
      requires Setting() && Tidy(left) && s in seen && Placed(s) && menu(s) && site.reply(s).body != ""
      requires n <= |site.reply(s).lines| && PathOf(s) in disk && disk[PathOf(s)] == Dir
      requires s in first.seen && Went(site, menu, start, {s}, first, View(), faulty)
      modifies this
      ensures Tidy(left) && Went(site, menu, start, {s}, first, View(), faulty)
      ensures s in seen && PathOf(s) in disk && disk[PathOf(s)] == Dir
      ensures !faulty ==> alive && Missed(site, site.reply(s).lines[..n], seen) == {}
      ensures alive ==> readme == InfoText(site.reply(s).lines[..n])
      decreases left, 3
    {
      hide Tame, DiskOk, Explored, Finished, Reaches, PathOf, LocalPath, Missed, InfoText;
      var lines := site.reply(s).lines;
      NothingYet(site, lines, seen);
      readme, alive := "", true;
      var k := 0;
      while k < n
        invariant k <= n && alive && Tidy(left) && s in seen && PathOf(s) in disk && disk[PathOf(s)] == Dir
        invariant Went(site, menu, start, {s}, first, View(), faulty)
        invariant !faulty ==> Missed(site, lines[..k], seen) == {}
        invariant readme == InfoText(lines[..k])
      {
        alive, readme := FollowLine(s, k, readme, faulty, first, left);
        if !alive { return; }
        k := k + 1;
      }
    }

    method FollowLine(s: Selector, k: nat, text: string, faulty: bool, ghost first: Crawl, ghost left: nat)
      returns (alive: bool, readme: string)
      requires Setting() && Tidy(left) && s in seen && Placed(s) && menu(s) && site.reply(s).body != ""
      requires k < |site.reply(s).lines| && PathOf(s) in disk && disk[PathOf(s)] == Dir
      requires s in first.seen && Went(site, menu, start, {s}, first, View(), faulty)
      requires text == InfoText(site.reply(s).lines[..k])
      requires !faulty ==> Missed(site, site.reply(s).lines[..k], seen) == {}
      modifies this
      ensures Tidy(left) && Went(site, menu, start, {s}, first, View(), faulty)
      ensures s in seen && PathOf(s) in disk && disk[PathOf(s)] == Dir
      ensures !faulty ==> alive && Missed(site, site.reply(s).lines[..k + 1], seen) == {}
      ensures alive ==> readme == InfoText(site.reply(s).lines[..k + 1])
      decreases left, 2
    {
      hide Tame, DiskOk, Explored, Finished, Reaches, PathOf, LocalPath, Missed, InfoText;
      var l := site.reply(s).lines[k];
      LinesStep(site, site.reply(s).lines, k);
      readme, alive := text, true;
      if l.Info? {
        readme := readme + l.text + "\n";
      } else if Followed(site, l) {
        alive := Follow(s, l, faulty, first, left);
      }
      if !faulty { NoneMissed(site, site.reply(s).lines, k, old(seen), seen); }
    }

    method Follow(s: Selector, l: Line, faulty: bool, ghost first: Crawl, ghost left: nat) returns (alive: bool)
      requires Setting() && Tidy(left) && s in seen && Placed(s) && menu(s) && site.reply(s).body != ""
      requires l in site.reply(s).lines && Followed(site, l) && PathOf(s) in disk && disk[PathOf(s)] == Dir
      requires s in first.seen && Went(site, menu, start, {s}, first, View(), faulty)
      modifies this
      ensures Tidy(left) && Went(site, menu, start, {s}, first, View(), faulty)
      ensures old(seen) <= seen && l.selector in seen && PathOf(s) in disk && disk[PathOf(s)] == Dir
      ensures !faulty ==> alive
      decreases left, 1
    {
      ghost var before := View();
      EntryFits(s, l);
      alive := Get(l.selector, Known(l.typ), faulty, left);
      WentIn(site, menu, start, s, first, before, View(), faulty);
    }

    lemma EntryFits(s: Selector, l: Line)
      requires Setting() && Placed(s) && menu(s) && site.reply(s).body != ""
      requires l in site.reply(s).lines && Followed(site, l)
      ensures l.selector in universe
      ensures LocalPath(site.root, l.selector).Some? ==>
                Reaches(site, menu, start, l.selector) && TypeFits(l.selector, Known(l.typ))
      ensures LocalPath(site.root, l.selector).None? ==> Linked(site, menu, start, l.selector)
    {
      assert l.selector in FollowedIn(site, site.reply(s).lines) && l.selector in Named(site, menu, s);
      if LocalPath(site.root, l.selector).Some? { ReachesKid(site, menu, start, s, l.selector); }
    }

    method WriteReadme(s: Selector, readme: string, faulty: bool, ghost first: Crawl, ghost left: nat)
      returns (r: Result)
      requires Setting() && Tidy(left) && s in seen && Placed(s) && menu(s)
      requires s in first.seen && Went(site, menu, start, {s}, first, View(), faulty)
      modifies this`disk
      ensures Tidy(left) && Went(site, menu, start, {s}, first, View(), faulty)
      ensures PathOf(s) in old(disk) && old(disk)[PathOf(s)] == Dir ==> PathOf(s) in disk && disk[PathOf(s)] == Dir
      ensures !faulty ==> r == Fine && disk == old(disk)[ReadmePath(s) := File(readme)]
    {
      var bytes := readme;
      r := Fine;
      if faulty { if * { bytes := *; r := Failed; } }      // the writing breaks off
      WentNoting(site, menu, start, s, File(bytes), first, View(), faulty);
      disk := disk[ReadmePath(s) := File(bytes)];
    }

    /** One run, onto what earlier ones left. Whatever goes wrong, the disk holds nothing
        but what is reachable, under its own name, whole unless the peer closed a transfer
        of it early, info lines aside; and a file once there stays as it is. If nothing
        goes wrong, everything reachable has been dealt with, fetched once unless its file
        was there already. */
    method Mirror(typ: Type, faulty: bool) returns (alive: bool)
      requires Setting() && DiskOk(site, menu, start, disk, torn) && start in universe && TypeFits(start, typ)
      modifies this
      ensures DiskOk(site, menu, start, disk, torn) && Modest(site, menu, start, requests)
      ensures old(torn) <= torn && FilesStay(site, menu, start, old(disk), disk)
      ensures !faulty ==> alive && torn == old(torn) && Mirrored(site, menu, start, old(disk), disk, torn, requests)
      // nothing is seen to but the start and what some menu names on this host and port
      ensures forall t :: t in seen && t != start ==> exists m, l ::
                && Reaches(site, menu, start, m) && menu(m) && l in site.reply(m).lines
                && l.Entry? && l.selector == t && l.typ in {'0', '1', '4', '5', '6', '9', 'g', 'I'} && l.port == site.port
                && |l.host| == |site.host| && forall i :: 0 <= i < |l.host| ==> SameLetter(l.host[i], site.host[i])
      // without faults all of that is, and is on disk
      ensures !faulty ==> forall m, l ::
                && Reaches(site, menu, start, m) && menu(m) && site.reply(m).body != "" && l in site.reply(m).lines
                && l.Entry? && l.typ in {'0', '1', '4', '5', '6', '9', 'g', 'I'} && l.port == site.port
                && |l.host| == |site.host| && (forall i :: 0 <= i < |l.host| ==> SameLetter(l.host[i], site.host[i])) ==>
                  l.selector in seen
      ensures !faulty ==> forall s :: Reaches(site, menu, start, s) && s !in torn && site.reply(s).body != "" ==>
                && PathOf(s) in disk && disk[PathOf(s)] == (if menu(s) then Dir else File(site.reply(s).body))
                && (menu(s) && InfoText(site.reply(s).lines) != "" ==>
                      PathOf(s) + ["00README"] in disk && disk[PathOf(s) + ["00README"]] == File(InfoText(site.reply(s).lines)))
    {
      seen, requests := {}, multiset{};
      ghost var entry := View();
      ReachesStart(site, menu, start);
      ghost var left := |universe|;
      assert universe - seen == universe;
      alive := Get(start, typ, faulty, left);
      WentAll(site, menu, start, entry, View(), faulty);
      WentFilesStay(site, menu, start, entry, View());
      AllNamed(entry, faulty);
    }

    /** What was seen to, and what there is of it on disk, in the words of the menus. */
    lemma AllNamed(entry: Crawl, faulty: bool)
      requires Explored(site, menu, start, {}, entry, View()) && entry.seen == {}
      requires !faulty ==> forall s :: Reaches(site, menu, start, s) ==>
                 && s in seen && LocalPath(site.root, s).Some? && Named(site, menu, s) <= seen
                 && (s !in torn ==> Saved(site, menu, disk, s))
      ensures forall t :: t in seen && t != start ==> exists m, l ::
                && Reaches(site, menu, start, m) && menu(m) && l in site.reply(m).lines
                && l.Entry? && l.selector == t && l.typ in {'0', '1', '4', '5', '6', '9', 'g', 'I'} && l.port == site.port
                && |l.host| == |site.host| && forall i :: 0 <= i < |l.host| ==> SameLetter(l.host[i], site.host[i])
      ensures !faulty ==> forall m, l ::
                && Reaches(site, menu, start, m) && menu(m) && site.reply(m).body != "" && l in site.reply(m).lines
                && l.Entry? && l.typ in {'0', '1', '4', '5', '6', '9', 'g', 'I'} && l.port == site.port
                && |l.host| == |site.host| && (forall i :: 0 <= i < |l.host| ==> SameLetter(l.host[i], site.host[i])) ==>
                  l.selector in seen
      ensures !faulty ==> forall s :: Reaches(site, menu, start, s) && s !in torn && site.reply(s).body != "" ==>
                && PathOf(s) in disk && disk[PathOf(s)] == (if menu(s) then Dir else File(site.reply(s).body))
                && (menu(s) && InfoText(site.reply(s).lines) != "" ==>
                      PathOf(s) + ["00README"] in disk && disk[PathOf(s) + ["00README"]] == File(InfoText(site.reply(s).lines)))
    {
      forall t | t in seen && t != start
        ensures exists m, l ::
                  && Reaches(site, menu, start, m) && menu(m) && l in site.reply(m).lines
                  && l.Entry? && l.selector == t && l.typ in {'0', '1', '4', '5', '6', '9', 'g', 'I'} && l.port == site.port
                  && |l.host| == |site.host| && forall i :: 0 <= i < |l.host| ==> SameLetter(l.host[i], site.host[i])
      {
        SeenIsLinked(site, menu, start, entry, View(), t);
        var m, l := LinkedTells(site, menu, start, t);
      }
      hide Reaches, PathOf, SameLetter, LocalPath, Named, Saved;
      if !faulty {
        forall m, l |
          && Reaches(site, menu, start, m) && menu(m) && site.reply(m).body != "" && l in site.reply(m).lines
          && l.Entry? && l.typ in {'0', '1', '4', '5', '6', '9', 'g', 'I'} && l.port == site.port
          && |l.host| == |site.host| && forall i :: 0 <= i < |l.host| ==> SameLetter(l.host[i], site.host[i])
          ensures l.selector in seen
        {
          EntryIsNamed(site, menu, m, l);
        }
        forall s | Reaches(site, menu, start, s) && s !in torn && site.reply(s).body != "" {
          SavedTells(site, menu, disk, s);
        }
      }
    }

    /** Any number of runs onto what earlier ones left, say nothing: if the last is without
        faults, everything reachable is on disk, whole exactly unless some transfer of it
        was ever closed early. */
    method MirrorAgainAndAgain(typ: Type, faults: seq<bool>)
      requires Setting() && DiskOk(site, menu, start, disk, torn) && start in universe && TypeFits(start, typ)
      modifies this
      decreases faults
      ensures DiskOk(site, menu, start, disk, torn)
      ensures old(torn) <= torn && FilesStay(site, menu, start, old(disk), disk)
      ensures faults != [] && !faults[|faults| - 1] ==>
                forall s :: Reaches(site, menu, start, s) ==> (Saved(site, menu, disk, s) <==> s !in torn)
    {
      if faults != [] {
        MirrorAgainAndAgain(typ, faults[..|faults| - 1]);
        var alive := Mirror(typ, faults[|faults| - 1]);
      }
    }

    /** A transfer closed early is never made good: after any number of further runs, the
        file is still what had arrived. */
    method ClosedEarly(s: Selector, arrived: nat, typ: Type, faults: seq<bool>)
      requires Setting() && DiskOk(site, menu, start, disk, torn) && start in universe && TypeFits(start, typ)
      requires Placed(s) && !menu(s) && !OnDisk(disk, s) && 0 < arrived < |site.reply(s).body|
      modifies this
      ensures PathOf(s) in disk && disk[PathOf(s)] == File(site.reply(s).body[..arrived])
      ensures DiskOk(site, menu, start, disk, torn) && s in torn && !Saved(site, menu, disk, s)
    {
      seen := {s};
      var r := WriteFile(s, arrived, false, |universe - seen|);
      MirrorAgainAndAgain(typ, faults);
      TornIsNotSaved(site, menu, start, disk, torn, s);
    }

    /** Two runs in a row without faults: the second asks again for the menus and for what
        has an empty response, and for nothing else. */
    method MirrorTwice(typ: Type)
      requires Setting() && DiskOk(site, menu, start, disk, torn) && start in universe && TypeFits(start, typ)
      modifies this
      ensures DiskOk(site, menu, start, disk, torn) && FilesStay(site, menu, start, old(disk), disk)
      ensures forall s :: Reaches(site, menu, start, s) ==>
                requests[s] == if menu(s) || site.reply(s).body == "" then 1 else 0
    {
      var alive := Mirror(typ, false);
      ghost var before, torn0 := disk, torn;
      alive := Mirror(typ, false);
      forall s | Reaches(site, menu, start, s)
        ensures requests[s] == if menu(s) || site.reply(s).body == "" then 1 else 0
      {
        AskedAgain(site, menu, start, before, torn0, disk, torn, requests, s);
      }
    }
  }

  lemma TinyIsFinite()
    ensures var all := {"", "f", "g"};
      forall s :: s in all ==> FollowedIn(TINY, TINY.reply(s).lines) <= all
  {}

  /** Both at one site: a file cut short by its peer stays cut short, and a file without
      bytes is asked for on every run. */
  method NotMadeGood() returns (c: Crawler)
    ensures fresh(c) && ["f"] in c.disk && c.disk[["f"]] == File("y")
    ensures c.requests["f"] == 0 && c.requests["g"] == 1
  {
    hide Reaches, PathOf, Tame, DiskOk, Saved, FollowedIn;
    TinyIsTame();
    TinyPlaces();
    TinyIsFinite();
    NothingIsOk(TINY, TinyMenu, "");
    c := new Crawler(TINY, TinyMenu, "", {"", "f", "g"}, map[], {});
    c.ClosedEarly("f", 1, Known('1'), [false]);
    c.MirrorTwice(Known('1'));
  }
}
