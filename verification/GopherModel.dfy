/** What the gopher crawl is about: selectors and their places on disk, menus, the
    selectors a start leads to, and what a finished crawl leaves on disk. */
module GopherModel {
  import opened Common

  type Selector = string

  const FOLLOW_TYPES := "014569gI"
  const README := "00README"

  /* ---- places on disk ---- */

  function PathOf(s: Selector): Path {
    Cleaned(Split(s), true)
  }

  /** A selector whose place is not the root directory or below it has none. */
  function LocalPath(root: Path, s: Selector): Option<Path> {
    if root <= PathOf(s) then Some(PathOf(s)) else None
  }

  /** A place is a chain of plain names: nothing in it leads up or sideways. */
  lemma {:induction false} CleanIsPlain(parts: seq<string>)
    ensures forall n :: n in Cleaned(parts, true) ==> n !in {"", ".", ".."} && n in parts
  {
    if parts != [] {
      var before, last := Cleaned(parts[..|parts| - 1], true), parts[|parts| - 1];
      CleanIsPlain(parts[..|parts| - 1]);
      assert forall n :: n in Cleaned(parts, true) ==> n in before || (n == last && n !in {"", ".", ".."});
    }
  }

  lemma {:induction false} SplitHasNoSlash(s: string)
    ensures forall i :: 0 <= i < |Split(s)| ==> '/' !in Split(s)[i]
  {
    if s != "" { SplitHasNoSlash(s[1..]); }
  }

  lemma PlacesArePlain(root: Path, s: Selector)
    ensures LocalPath(root, s).Some? <==> root <= PathOf(s)
    ensures LocalPath(root, s).Some? ==>
              var p := LocalPath(root, s).value;
              p == PathOf(s) && forall i :: 0 <= i < |p| ==> p[i] !in {"", ".", ".."} && '/' !in p[i]
  {
    CleanIsPlain(Split(s));
    SplitHasNoSlash(s);
    var p := PathOf(s);
    forall i | 0 <= i < |p| ensures p[i] !in {"", ".", ".."} && '/' !in p[i] { assert p[i] in p; }
  }

  /** The place of a selector that spells plain names is where they say, and one more name
      goes below it; ".." goes one up, but not above the top. */
  lemma PathSpelled(s: Selector, names: Path, n: string)
    requires PlainNames(names) && names != [] && '/' !in n
    ensures PathOf(Joined(names)) == names
    ensures PathOf(s + "/" + n) == if n in {"", "."} then PathOf(s)
              else if n == ".." then Above(PathOf(s)) else PathOf(s) + [n]
  {
    SplitJoined(names);
    CleanedPlain(names, true);
    SplitAtSlash(s, n);
    SplitName(n);
    CleanIsPlain(Split(s));
    assert (Split(s) + [n])[..|Split(s)|] == Split(s);
    var p := PathOf(s);
    assert p != [] ==> p[|p| - 1] in p;
  }

  /* ---- servers ---- */

  /** A menu line as parsed; Skipped is an error entry or one that does not parse. */
  datatype Line = Info(text: string) | Skipped | Entry(typ: char, selector: Selector, host: string, port: string)

  /** A response: its bytes, its lines if read as a menu, and whether its first piece
      looks like one. */
  datatype Reply = Reply(body: string, lines: seq<Line>, menuLike: bool)

  datatype Site = Site(host: string, port: string, root: Path, reply: Selector -> Reply)

  function Lower(c: char): char {
    if 'A' <= c <= 'Z' then c - 'A' + 'a' else c
  }

  predicate EqualFold(a: string, b: string) {
    |a| == |b| && forall i :: 0 <= i < |a| ==> Lower(a[i]) == Lower(b[i])
  }

  /** An entry worth following on this server. */
  predicate Followed(site: Site, l: Line) {
    l.Entry? && l.typ in FOLLOW_TYPES && EqualFold(l.host, site.host) && l.port == site.port
  }

  /** The types followed, on the site's own host, in upper or lower case, and port. */
  lemma FollowedSpelled(site: Site, l: Line)
    ensures Followed(site, l) <==>
              && l.Entry? && l.typ in {'0', '1', '4', '5', '6', '9', 'g', 'I'} && l.port == site.port
              && |l.host| == |site.host| && forall i :: 0 <= i < |l.host| ==> SameLetter(l.host[i], site.host[i])
    ensures forall c, d :: SameLetter(c, d) <==>
              c == d || ('A' <= c <= 'Z' && d == c - 'A' + 'a') || ('A' <= d <= 'Z' && c == d - 'A' + 'a')
  {
    hide SameLetter;
    forall c: char, d: char { LowerSpelled(c, d); }
    assert forall c :: c in FOLLOW_TYPES <==> c in {'0', '1', '4', '5', '6', '9', 'g', 'I'} by {
      assert FOLLOW_TYPES == ['0', '1', '4', '5', '6', '9', 'g', 'I'];
    }
  }

  predicate SameLetter(c: char, d: char) {
    c == d || ('A' <= c <= 'Z' && d == c - 'A' + 'a') || ('A' <= d <= 'Z' && c == d - 'A' + 'a')
  }

  lemma LowerSpelled(c: char, d: char)
    ensures Lower(c) == Lower(d) <==> SameLetter(c, d)
    ensures SameLetter(c, d) <==>
              c == d || ('A' <= c <= 'Z' && d == c - 'A' + 'a') || ('A' <= d <= 'Z' && c == d - 'A' + 'a')
  {}

  function InfoText(lines: seq<Line>): string {
    if lines == [] then ""
    else InfoText(lines[..|lines| - 1]) + (if lines[|lines| - 1].Info? then lines[|lines| - 1].text + "\n" else "")
  }

  /* ---- what a start leads to ---- */

  type Kinds = Selector -> bool       // which selectors are menus

  function FollowedIn(site: Site, lines: seq<Line>): set<Selector> {
    set l | l in lines && Followed(site, l) :: l.selector
  }

  /** What is worth following in these lines and has not been seen to. */
  ghost function Missed(site: Site, lines: seq<Line>, seen: set<Selector>): set<Selector> {
    FollowedIn(site, lines) - seen
  }

  /** One more line of a menu. */
  lemma LinesStep(site: Site, lines: seq<Line>, k: nat)
    requires k < |lines|
    ensures InfoText(lines[..k + 1]) == InfoText(lines[..k]) + (if lines[k].Info? then lines[k].text + "\n" else "")
  {
    assert lines[..k + 1] == lines[..k] + [lines[k]];
  }

  lemma NothingYet(site: Site, lines: seq<Line>, seen: set<Selector>)
    ensures InfoText(lines[..0]) == "" && Missed(site, lines[..0], seen) == {}
  {}

  lemma NoneMissed(site: Site, lines: seq<Line>, k: nat, seen: set<Selector>, seen': set<Selector>)
    requires k < |lines| && Missed(site, lines[..k], seen) == {} && seen <= seen'
    requires Followed(site, lines[k]) ==> lines[k].selector in seen'
    ensures Missed(site, lines[..k + 1], seen') == {}
  {
    assert lines[..k + 1] == lines[..k] + [lines[k]];
    assert FollowedIn(site, lines[..k]) <= seen by {
      forall s | s in FollowedIn(site, lines[..k]) ensures s in seen { assert s !in Missed(site, lines[..k], seen); }
    }
  }

  /** What a selector's menu names, inside the subtree or not. */
  function Named(site: Site, menu: Kinds, s: Selector): set<Selector> {
    if menu(s) && site.reply(s).body != "" && LocalPath(site.root, s).Some?
    then FollowedIn(site, site.reply(s).lines) else {}
  }

  function Kids(site: Site, menu: Kinds, s: Selector): set<Selector> {
    set t | t in Named(site, menu, s) && LocalPath(site.root, t).Some?
  }

  /** Some reachable menu has an entry for s that is followed. */
  ghost predicate Linked(site: Site, menu: Kinds, start: Selector, s: Selector) {
    exists m :: Reaches(site, menu, start, m) && s in Named(site, menu, m)
  }

  ghost predicate Chain(site: Site, menu: Kinds, start: Selector, c: seq<Selector>) {
    c != [] && c[0] == start && forall i :: 0 < i < |c| ==> c[i] in Kids(site, menu, c[i - 1])
  }

  /** s is in the least set that contains the start and is closed under followed entries
      inside the subtree. */
  ghost predicate Reaches(site: Site, menu: Kinds, start: Selector, s: Selector) {
    exists c :: Chain(site, menu, start, c) && c[|c| - 1] == s
  }

  lemma ReachesStart(site: Site, menu: Kinds, start: Selector)
    ensures Reaches(site, menu, start, start)
  {
    assert Chain(site, menu, start, [start]);
  }

  lemma ReachesKid(site: Site, menu: Kinds, start: Selector, s: Selector, t: Selector)
    requires Reaches(site, menu, start, s) && t in Kids(site, menu, s)
    ensures Reaches(site, menu, start, t)
  {
    var c :| Chain(site, menu, start, c) && c[|c| - 1] == s;
    assert Chain(site, menu, start, c + [t]);
  }

  lemma {:induction false} ClosedHasChain(site: Site, menu: Kinds, start: Selector, seen: set<Selector>, c: seq<Selector>)
    requires start in seen && forall s :: s in seen ==> Kids(site, menu, s) <= seen
    requires Chain(site, menu, start, c)
    ensures c[|c| - 1] in seen
    decreases |c|
  {
    if |c| > 1 { ClosedHasChain(site, menu, start, seen, c[..|c| - 1]); }
  }

  lemma ReachableHasPath(site: Site, menu: Kinds, start: Selector, s: Selector)
    requires LocalPath(site.root, start).Some? && Reaches(site, menu, start, s)
    ensures LocalPath(site.root, s).Some?
  {
    var c :| Chain(site, menu, start, c) && c[|c| - 1] == s;
    if |c| > 1 { assert c[|c| - 1] in Kids(site, menu, c[|c| - 2]); }
  }

  /** What a reachable menu names as a menu is one, and the rest is not. */
  ghost predicate TypesTold(site: Site, menu: Kinds, start: Selector) {
    forall s, l :: Reaches(site, menu, start, s) && menu(s) && l in site.reply(s).lines && Followed(site, l) ==>
      (l.typ == '1' <==> menu(l.selector))
  }

  ghost predicate PlacesDiffer(site: Site, menu: Kinds, start: Selector) {
    forall s, t :: Reaches(site, menu, start, s) && Reaches(site, menu, start, t) && s != t ==> PathOf(s) != PathOf(t)
  }

  ghost predicate MenusAbove(site: Site, menu: Kinds, start: Selector) {
    forall s, t :: Reaches(site, menu, start, s) && Reaches(site, menu, start, t) && s != t && PathOf(s) <= PathOf(t) ==>
      menu(s)
  }

  /** One type and one place of its own per selector: places differ, only a menu's place
      has others below it, and none involves the name kept for a menu's info lines. */
  ghost predicate Tame(site: Site, menu: Kinds, start: Selector) {
    && TypesTold(site, menu, start) && PlacesDiffer(site, menu, start) && MenusAbove(site, menu, start)
    && (forall s :: Reaches(site, menu, start, s) ==> README !in PathOf(s))
  }

  /* ---- the disk ---- */

  datatype Node = Dir | File(bytes: string)
  type Disk = map<Path, Node>

  function ReadmePath(s: Selector): Path {
    PathOf(s) + [README]
  }

  /** What is kept of s: all of its response or, if a transfer of it was closed early, a
      part from the front. Of an empty response nothing is. */
  predicate Kept(site: Site, torn: set<Selector>, s: Selector, bytes: string) {
    bytes != "" && if s in torn then bytes < site.reply(s).body else bytes == site.reply(s).body
  }

  /** p belongs to s: its own place if it is not a menu, its info lines' if it is. */
  ghost predicate Owns(site: Site, menu: Kinds, start: Selector, torn: set<Selector>, s: Selector, p: Path, n: Node) {
    && Reaches(site, menu, start, s) && n.File?
    && if menu(s) then p == ReadmePath(s) else p == PathOf(s) && Kept(site, torn, s, n.bytes)
  }

  /** A directory is there for something reachable: a menu's place, or above a place. */
  ghost predicate Houses(site: Site, menu: Kinds, start: Selector, s: Selector, p: Path) {
    Reaches(site, menu, start, s) && p <= PathOf(s) && (p == PathOf(s) ==> menu(s))
  }

  ghost predicate NodeOk(site: Site, menu: Kinds, start: Selector, torn: set<Selector>, p: Path, n: Node) {
    if n.Dir? then exists s :: Houses(site, menu, start, s, p) else exists s :: Owns(site, menu, start, torn, s, p, n)
  }

  /** The transfers that were closed early were of plain files, and these are there. */
  ghost predicate TornOk(site: Site, menu: Kinds, start: Selector, disk: Disk, torn: set<Selector>) {
    forall s :: s in torn ==> Reaches(site, menu, start, s) && !menu(s) && OnDisk(disk, s)
  }

  /** What earlier crawls from this start, cut off or not, can have left behind. */
  ghost predicate DiskOk(site: Site, menu: Kinds, start: Selector, disk: Disk, torn: set<Selector>) {
    && (forall p :: p in disk ==> NodeOk(site, menu, start, torn, p, disk[p]))
    && TornOk(site, menu, start, disk, torn)
  }

  lemma NothingIsOk(site: Site, menu: Kinds, start: Selector)
    ensures DiskOk(site, menu, start, map[], {})
  {}

  /** What became of s: a file's bytes, a menu's directory and info lines. Nothing at all
      is kept of an empty response. */
  ghost predicate Saved(site: Site, menu: Kinds, disk: Disk, s: Selector) {
    site.reply(s).body != "" ==>
      if menu(s) then
        && PathOf(s) in disk && disk[PathOf(s)] == Dir
        && (InfoText(site.reply(s).lines) != "" ==>
              ReadmePath(s) in disk && disk[ReadmePath(s)] == File(InfoText(site.reply(s).lines)))
      else PathOf(s) in disk && disk[PathOf(s)] == File(site.reply(s).body)
  }

  /** Only files of the selectors in `news` appear, and only their info lines change. */
  ghost predicate Grew(disk: Disk, disk': Disk, news: set<Selector>) {
    && (forall p :: p in disk ==> p in disk' && (disk'[p] == disk[p] || exists m :: m in news && p == ReadmePath(m)))
    && (forall p :: p in disk' && p !in disk && disk'[p].File? ==>
          exists m :: m in news && (p == PathOf(m) || p == ReadmePath(m)))
  }

  predicate OnDisk(disk: Disk, s: Selector) {
    PathOf(s) in disk && disk[PathOf(s)].File?
  }

  lemma GrewTrans(a: Disk, b: Disk, c: Disk, f: set<Selector>, g: set<Selector>)
    requires Grew(a, b, f) && Grew(b, c, g)
    ensures Grew(a, c, f + g)
  {}

  lemma ReadmeIsNoPlace(site: Site, menu: Kinds, start: Selector, m: Selector, s: Selector)
    requires Tame(site, menu, start) && Reaches(site, menu, start, s)
    ensures !(ReadmePath(m) <= PathOf(s))
  {
    assert ReadmePath(m)[|PathOf(m)|] == README;
  }

  /** What others do leaves s as it is. */
  lemma SavedStays(site: Site, menu: Kinds, start: Selector, disk: Disk, disk': Disk, news: set<Selector>, s: Selector)
    requires Tame(site, menu, start) && Grew(disk, disk', news) && Saved(site, menu, disk, s) && s !in news
    requires Reaches(site, menu, start, s)
    requires forall m :: m in news ==> Reaches(site, menu, start, m) || LocalPath(site.root, m).None?
    requires LocalPath(site.root, s).Some?
    ensures Saved(site, menu, disk', s)
  {
    forall m | m in news
      ensures PathOf(s) != ReadmePath(m) && (ReadmePath(s) == ReadmePath(m) ==> PathOf(m) == PathOf(s))
    {
      ReadmeIsNoPlace(site, menu, start, m, s);
      if ReadmePath(s) == ReadmePath(m) { assert ReadmePath(s)[..|PathOf(s)|] == ReadmePath(m)[..|PathOf(m)|]; }
    }
    forall m | m in news ensures PathOf(m) != PathOf(s) {
      if LocalPath(site.root, m).None? { assert PathOf(m) != PathOf(s); }
    }
  }

  /** Nor does it put a file at s's place. */
  lemma OnDiskStays(site: Site, menu: Kinds, start: Selector, disk: Disk, disk': Disk, news: set<Selector>, s: Selector)
    requires Tame(site, menu, start) && Grew(disk, disk', news) && s !in news && Reaches(site, menu, start, s)
    requires LocalPath(site.root, s).Some?
    requires forall m :: m in news ==> Reaches(site, menu, start, m) || LocalPath(site.root, m).None?
    ensures OnDisk(disk', s) <==> OnDisk(disk, s)
  {
    forall m | m in news ensures PathOf(s) != ReadmePath(m) && PathOf(m) != PathOf(s) {
      ReadmeIsNoPlace(site, menu, start, m, s);
    }
  }

  /** What is found at a reachable selector's place: nothing, its own file, or, for a menu,
      a directory. The file is whole exactly if no transfer of it was closed early. */
  lemma PlaceTells(site: Site, menu: Kinds, start: Selector, disk: Disk, torn: set<Selector>, s: Selector)
    requires Tame(site, menu, start) && DiskOk(site, menu, start, disk, torn)
    requires Reaches(site, menu, start, s) && PathOf(s) in disk
    ensures if disk[PathOf(s)].Dir? then menu(s) else !menu(s) && Kept(site, torn, s, disk[PathOf(s)].bytes)
    ensures !menu(s) ==> (Saved(site, menu, disk, s) <==> s !in torn)
  {
    var p, n := PathOf(s), disk[PathOf(s)];
    assert NodeOk(site, menu, start, torn, p, n);
    if n.Dir? {
      var h :| Houses(site, menu, start, h, p);
    } else {
      var o :| Owns(site, menu, start, torn, o, p, n);
      ReadmeIsNoPlace(site, menu, start, o, s);
    }
  }

  /** What that decides: a directory is a menu's; a file is not asked for again. */
  lemma PlaceDecides(site: Site, menu: Kinds, start: Selector, disk: Disk, torn: set<Selector>, s: Selector)
    requires Tame(site, menu, start) && DiskOk(site, menu, start, disk, torn) && Reaches(site, menu, start, s)
    ensures OnDisk(disk, s) <==> PathOf(s) in disk && disk[PathOf(s)].File?
    ensures PathOf(s) in disk && disk[PathOf(s)].Dir? ==> menu(s)
    ensures OnDisk(disk, s) ==> !menu(s) && (s in torn || Saved(site, menu, disk, s))
  {
    hide Tame, DiskOk, Reaches, PathOf, Saved, Kept;
    if PathOf(s) in disk { PlaceTells(site, menu, start, disk, torn, s); }
  }

  /** Of what has been dealt with, a file is there exactly for what is no menu and not
      empty. */
  lemma OnDiskIffAnswered(site: Site, menu: Kinds, start: Selector, disk: Disk, torn: set<Selector>, s: Selector)
    requires Tame(site, menu, start) && DiskOk(site, menu, start, disk, torn) && Reaches(site, menu, start, s)
    requires s in torn || Saved(site, menu, disk, s)
    ensures OnDisk(disk, s) <==> !menu(s) && site.reply(s).body != ""
  {
    if PathOf(s) in disk { PlaceTells(site, menu, start, disk, torn, s); }
  }

  /** Saved and closed early exclude each other. */
  lemma TornIsNotSaved(site: Site, menu: Kinds, start: Selector, disk: Disk, torn: set<Selector>, s: Selector)
    requires Tame(site, menu, start) && DiskOk(site, menu, start, disk, torn) && s in torn
    ensures !Saved(site, menu, disk, s)
  {
    PlaceTells(site, menu, start, disk, torn, s);
  }

  /* ---- what is written ---- */

  predicate DirsFit(disk: Disk, p: Path) {
    forall k :: 0 <= k <= |p| && p[..k] in disk ==> disk[p[..k]].Dir?
  }

  lemma DirsFitAt(site: Site, menu: Kinds, start: Selector, disk: Disk, torn: set<Selector>, s: Selector, p: Path)
    requires Tame(site, menu, start) && DiskOk(site, menu, start, disk, torn) && Houses(site, menu, start, s, p)
    ensures DirsFit(disk, p)
    ensures DiskOk(site, menu, start, WithDirs(disk, p, Dir), torn)
    ensures p in WithDirs(disk, p, Dir) && WithDirs(disk, p, Dir)[p] == Dir
  {
    forall k | 0 <= k <= |p| && p[..k] in disk ensures disk[p[..k]].Dir? {
      var n := disk[p[..k]];
      assert NodeOk(site, menu, start, torn, p[..k], n) && p[..k] <= PathOf(s);
      forall o | Owns(site, menu, start, torn, o, p[..k], n) ensures false { ReadmeIsNoPlace(site, menu, start, o, s); }
    }
    assert p[..|p|] == p;
    forall q | q in WithDirs(disk, p, Dir) ensures NodeOk(site, menu, start, torn, q, WithDirs(disk, p, Dir)[q]) {
      if q in disk { assert NodeOk(site, menu, start, torn, q, disk[q]); }
      else {
        var k :| 0 <= k <= |p| && q == p[..k];
        assert Houses(site, menu, start, s, q);
      }
    }
  }

  lemma WithDirsGrows(disk: Disk, p: Path, news: set<Selector>)
    ensures Grew(disk, WithDirs(disk, p, Dir), news)
    ensures forall s :: OnDisk(WithDirs(disk, p, Dir), s) <==> OnDisk(disk, s)
  {
    hide PathOf;
  }

  /** What becomes of s's transfer does not concern other places. */
  lemma OthersOk(site: Site, menu: Kinds, start: Selector, torn: set<Selector>, torn': set<Selector>,
                 s: Selector, q: Path, n: Node)
    requires !menu(s) && q != PathOf(s) && torn <= torn' <= torn + {s} && NodeOk(site, menu, start, torn, q, n)
    ensures NodeOk(site, menu, start, torn', q, n)
  {
    if n.File? {
      var o :| Owns(site, menu, start, torn, o, q, n);
      hide Reaches, PathOf;
      assert Owns(site, menu, start, torn', o, q, n);
    }
  }

  lemma NewFileGrows(disk: Disk, s: Selector, n: Node)
    requires PathOf(s) !in disk && n.File?
    ensures Grew(disk, disk[PathOf(s) := n], {s})
    ensures forall t :: OnDisk(disk, t) || t == s ==> OnDisk(disk[PathOf(s) := n], t)
  {
    hide PathOf;
    assert s in {s};
  }

  /** There is nothing at the place of a plain selector whose file is not there. */
  lemma NothingThere(site: Site, menu: Kinds, start: Selector, disk: Disk, torn: set<Selector>, s: Selector)
    requires Tame(site, menu, start) && DiskOk(site, menu, start, disk, torn) && Reaches(site, menu, start, s)
    requires !menu(s) && !OnDisk(disk, s)
    ensures PathOf(s) !in disk
  {
    hide Tame, DiskOk, Reaches, PathOf;
    if PathOf(s) in disk { PlaceTells(site, menu, start, disk, torn, s); }
  }

  /** Writing a plain file where there is none, all of it or the part that arrived before
      the peer closed. */
  lemma FileWritten(site: Site, menu: Kinds, start: Selector, disk: Disk, torn: set<Selector>, torn': set<Selector>,
                    s: Selector, n: Node)
    requires Tame(site, menu, start) && DiskOk(site, menu, start, disk, torn) && !menu(s) && !OnDisk(disk, s)
    requires torn <= torn' <= torn + {s} && Owns(site, menu, start, torn', s, PathOf(s), n)
    ensures PathOf(s) !in disk && Grew(disk, disk[PathOf(s) := n], {s})
    ensures DiskOk(site, menu, start, disk[PathOf(s) := n], torn')
  {
    hide Tame, Reaches, PathOf, Kept, Grew, OnDisk;
    NothingThere(site, menu, start, disk, torn, s);
    NewFileGrows(disk, s, n);
    assert NodeOk(site, menu, start, torn', PathOf(s), n);
    hide Owns, NodeOk;
    forall q | q in disk && q != PathOf(s) ensures NodeOk(site, menu, start, torn', q, disk[q]) {
      OthersOk(site, menu, start, torn, torn', s, q, disk[q]);
    }
  }

  /** Writing a menu's info lines: only earlier ones can be there. */
  lemma ReadmeWritten(site: Site, menu: Kinds, start: Selector, disk: Disk, torn: set<Selector>, s: Selector, n: Node)
    requires Tame(site, menu, start) && DiskOk(site, menu, start, disk, torn)
    requires menu(s) && Reaches(site, menu, start, s) && n.File?
    ensures ReadmePath(s) in disk ==> disk[ReadmePath(s)].File?
    ensures Grew(disk, disk[ReadmePath(s) := n], {s}) && DiskOk(site, menu, start, disk[ReadmePath(s) := n], torn)
  {
    var p := ReadmePath(s);
    if p in disk {
      assert NodeOk(site, menu, start, torn, p, disk[p]);
      forall h | Houses(site, menu, start, h, p) ensures false { ReadmeIsNoPlace(site, menu, start, s, h); }
    }
    var d := disk[p := n];
    forall q | q in d ensures NodeOk(site, menu, start, torn, q, d[q]) {
      if q == p { assert Owns(site, menu, start, torn, s, q, n); }
      else { assert NodeOk(site, menu, start, torn, q, disk[q]); }
    }
  }

  /* ---- a crawl's progress ---- */

  type Requests = multiset<Selector>

  /** With the selectors whose transfer the peer closed early, leaving a part of their file. */
  datatype Crawl = Crawl(seen: set<Selector>, disk: Disk, torn: set<Selector>, requests: Requests)

  const MAX_ATTEMPTS := 5

  /** What a part of a crawl does to it: what it newly deals with is reachable or outside
      the subtree, is requested at most five times, and is all that changes, but for the
      menu `own` whose lines are being read. */
  ghost predicate Explored(site: Site, menu: Kinds, start: Selector, own: set<Selector>, a: Crawl, b: Crawl) {
    && a.seen <= b.seen && Grew(a.disk, b.disk, (b.seen - a.seen) + own)
    && a.torn <= b.torn <= a.torn + ((b.seen - a.seen) + own)
    && (forall s :: s in b.seen - a.seen ==>
          Reaches(site, menu, start, s) || (LocalPath(site.root, s).None? && Linked(site, menu, start, s)))
    && (forall s :: s !in b.seen - a.seen ==> b.requests[s] == a.requests[s])
    && (forall s :: s in b.seen - a.seen ==>
          b.requests[s] <= a.requests[s] + if LocalPath(site.root, s).Some? then MAX_ATTEMPTS else 0)
  }

  ghost predicate FinishedOne(site: Site, menu: Kinds, a: Crawl, b: Crawl, s: Selector) {
    && Named(site, menu, s) <= b.seen
    && (LocalPath(site.root, s).Some? ==>
          && (s in b.torn || Saved(site, menu, b.disk, s))
          && b.requests[s] == a.requests[s] + if OnDisk(a.disk, s) then 0 else 1)
  }

  /** And what it achieves if nothing goes wrong: what it newly deals with is on disk,
      after one request if it was not before, and all it names has been seen to. No
      transfer was closed early. */
  ghost predicate Finished(site: Site, menu: Kinds, a: Crawl, b: Crawl) {
    b.torn == a.torn && forall s :: s in b.seen - a.seen ==> FinishedOne(site, menu, a, b, s)
  }

  lemma ExploredTrans(site: Site, menu: Kinds, start: Selector, own: set<Selector>, a: Crawl, b: Crawl, c: Crawl)
    requires Explored(site, menu, start, own, a, b) && Explored(site, menu, start, own, b, c)
    ensures Explored(site, menu, start, own, a, c)
  {
    var f, g := (b.seen - a.seen) + own, (c.seen - b.seen) + own;
    GrewTrans(a.disk, b.disk, c.disk, f, g);
    assert f + g == (c.seen - a.seen) + own;
  }

  lemma FinishedTrans(site: Site, menu: Kinds, start: Selector, own: set<Selector>, a: Crawl, b: Crawl, c: Crawl)
    requires Tame(site, menu, start) && own <= a.seen && forall s :: s in own ==> Reaches(site, menu, start, s)
    requires Explored(site, menu, start, own, a, b) && Explored(site, menu, start, own, b, c)
    requires Finished(site, menu, a, b) && Finished(site, menu, b, c)
    ensures Finished(site, menu, a, c)
  {
    forall s | s in c.seen - a.seen ensures FinishedOne(site, menu, a, c, s) {
      if s in b.seen {
        assert FinishedOne(site, menu, a, b, s);
        if LocalPath(site.root, s).Some? {
          if s !in b.torn { SavedStays(site, menu, start, b.disk, c.disk, (c.seen - b.seen) + own, s); }
        }
      } else {
        assert FinishedOne(site, menu, b, c, s);
        if LocalPath(site.root, s).Some? {
          OnDiskStays(site, menu, start, a.disk, b.disk, (b.seen - a.seen) + own, s);
        }
      }
    }
  }

  lemma OwnGrows(site: Site, menu: Kinds, start: Selector, own: set<Selector>, a: Crawl, b: Crawl)
    requires Explored(site, menu, start, {}, a, b)
    ensures Explored(site, menu, start, own, a, b)
  {}

  /** Explored and, if nothing goes wrong, finished. */
  ghost predicate Went(site: Site, menu: Kinds, start: Selector, own: set<Selector>, a: Crawl, b: Crawl, faulty: bool) {
    Explored(site, menu, start, own, a, b) && (!faulty ==> Finished(site, menu, a, b))
  }

  lemma WentNowhere(site: Site, menu: Kinds, start: Selector, own: set<Selector>, a: Crawl, faulty: bool)
    ensures Went(site, menu, start, own, a, a, faulty)
  {}

  /** What is done while reading a menu adds up. */
  lemma WentTrans(site: Site, menu: Kinds, start: Selector, s: Selector, a: Crawl, b: Crawl, c: Crawl, faulty: bool)
    requires Tame(site, menu, start) && s in a.seen && Reaches(site, menu, start, s)
    requires Went(site, menu, start, {s}, a, b, faulty)
    requires Went(site, menu, start, {s}, b, c, faulty) || Went(site, menu, start, {}, b, c, faulty)
    ensures Went(site, menu, start, {s}, a, c, faulty)
  {
    if Went(site, menu, start, {}, b, c, faulty) { OwnGrows(site, menu, start, {s}, b, c); }
    ExploredTrans(site, menu, start, {s}, a, b, c);
    if !faulty { FinishedTrans(site, menu, start, {s}, a, b, c); }
  }

  /** Writing to disk on behalf of s. */
  lemma WentWriting(site: Site, menu: Kinds, start: Selector, s: Selector, a: Crawl, disk: Disk, faulty: bool)
    requires Grew(a.disk, disk, {s})
    ensures Went(site, menu, start, {s}, a, a.(disk := disk), faulty)
  {
    assert (a.seen - a.seen) + {s} == {s};
  }

  /** Making the directories for s. */
  lemma WentHousing(site: Site, menu: Kinds, start: Selector, s: Selector, p: Path, a: Crawl, faulty: bool)
    requires Tame(site, menu, start) && DiskOk(site, menu, start, a.disk, a.torn) && Houses(site, menu, start, s, p)
    ensures var disk := WithDirs(a.disk, p, Dir);
      && DirsFit(a.disk, p) && DiskOk(site, menu, start, disk, a.torn) && p in disk && disk[p] == Dir
      && (OnDisk(disk, s) <==> OnDisk(a.disk, s))
      && Went(site, menu, start, {s}, a, a.(disk := disk), faulty)
  {
    DirsFitAt(site, menu, start, a.disk, a.torn, s, p);
    WithDirsGrows(a.disk, p, {s});
    WentWriting(site, menu, start, s, a, WithDirs(a.disk, p, Dir), faulty);
  }

  /** The directories above a place, but for what lies outside the mirror. */
  function WithRoom(disk: Disk, s: Selector): Disk {
    if PathOf(s) == [] then disk else WithDirs(disk, Above(PathOf(s)), Dir)
  }

  lemma WentRoom(site: Site, menu: Kinds, start: Selector, s: Selector, a: Crawl, faulty: bool)
    requires Tame(site, menu, start) && DiskOk(site, menu, start, a.disk, a.torn) && Reaches(site, menu, start, s)
    ensures var disk := WithRoom(a.disk, s);
      && DiskOk(site, menu, start, disk, a.torn) && (OnDisk(disk, s) <==> OnDisk(a.disk, s))
      && Went(site, menu, start, {s}, a, a.(disk := disk), faulty)
    ensures PathOf(s) != [] ==> DirsFit(a.disk, Above(PathOf(s)))
  {
    hide PathOf, Reaches, Tame, DiskOk, Explored, Finished;
    if PathOf(s) == [] { WentNowhere(site, menu, start, {s}, a, faulty); }
    else {
      assert Houses(site, menu, start, s, Above(PathOf(s)));
      WentHousing(site, menu, start, s, Above(PathOf(s)), a, faulty);
    }
  }

  /** Writing s's file, or the first `arrived` bytes of it, where there was none. */
  lemma WentSaving(site: Site, menu: Kinds, start: Selector, s: Selector, arrived: nat, first: Crawl, a: Crawl, faulty: bool)
    requires Tame(site, menu, start) && DiskOk(site, menu, start, a.disk, a.torn) && s in first.seen
    requires Reaches(site, menu, start, s) && !menu(s) && !OnDisk(a.disk, s) && 0 < arrived <= |site.reply(s).body|
    requires Went(site, menu, start, {s}, first, a, faulty) && (faulty || arrived == |site.reply(s).body|)
    ensures var b := WithFile(site, a, s, arrived);
      && PathOf(s) !in a.disk && DiskOk(site, menu, start, b.disk, b.torn)
      && Went(site, menu, start, {s}, first, b, faulty)
      && (arrived == |site.reply(s).body| ==> Achieved(site, menu, b, s))
  {
    var b := WithFile(site, a, s, arrived);
    assert site.reply(s).body[..|site.reply(s).body|] == site.reply(s).body;
    FileWritten(site, menu, start, a.disk, a.torn, b.torn, s, b.disk[PathOf(s)]);
    assert Went(site, menu, start, {s}, a, b, faulty) by { assert (a.seen - a.seen) + {s} == {s}; }
    WentTrans(site, menu, start, s, first, a, b, faulty);
  }

  function WithFile(site: Site, a: Crawl, s: Selector, arrived: nat): Crawl
    requires arrived <= |site.reply(s).body|
  {
    a.(disk := a.disk[PathOf(s) := File(site.reply(s).body[..arrived])],
       torn := a.torn + if arrived < |site.reply(s).body| then {s} else {})
  }

  /** Writing a menu's info lines, after what came before. */
  lemma WentNoting(site: Site, menu: Kinds, start: Selector, s: Selector, n: Node, first: Crawl, a: Crawl, faulty: bool)
    requires Tame(site, menu, start) && DiskOk(site, menu, start, a.disk, a.torn) && n.File?
    requires Reaches(site, menu, start, s) && menu(s) && s in first.seen
    requires Went(site, menu, start, {s}, first, a, faulty)
    ensures ReadmePath(s) in a.disk ==> a.disk[ReadmePath(s)].File?
    ensures var disk := a.disk[ReadmePath(s) := n];
      DiskOk(site, menu, start, disk, a.torn) && Went(site, menu, start, {s}, first, a.(disk := disk), faulty)
  {
    ReadmeWritten(site, menu, start, a.disk, a.torn, s, n);
    WentWriting(site, menu, start, s, a, a.disk[ReadmePath(s) := n], faulty);
    WentTrans(site, menu, start, s, first, a, a.(disk := a.disk[ReadmePath(s) := n]), faulty);
  }

  /** What one entry leads to is seen to; the menu's directory stays. */
  lemma WentIn(site: Site, menu: Kinds, start: Selector, s: Selector, first: Crawl, a: Crawl, b: Crawl, faulty: bool)
    requires Tame(site, menu, start) && s in first.seen && Reaches(site, menu, start, s) && LocalPath(site.root, s).Some?
    requires Went(site, menu, start, {s}, first, a, faulty) && Went(site, menu, start, {}, a, b, faulty)
    requires PathOf(s) in a.disk && a.disk[PathOf(s)] == Dir
    ensures Went(site, menu, start, {s}, first, b, faulty) && a.seen <= b.seen
    ensures PathOf(s) in b.disk && b.disk[PathOf(s)] == Dir
  {
    WentTrans(site, menu, start, s, first, a, b, faulty);
    forall m ensures PathOf(s) != ReadmePath(m) { ReadmeIsNoPlace(site, menu, start, m, s); }
  }

  /** What dealing with s is to achieve. */
  ghost predicate Achieved(site: Site, menu: Kinds, b: Crawl, s: Selector) {
    Named(site, menu, s) <= b.seen && Saved(site, menu, b.disk, s)
  }

  lemma MenuAchieved(site: Site, menu: Kinds, b: Crawl, s: Selector, n: nat)
    requires menu(s) && n == |site.reply(s).lines| && Missed(site, site.reply(s).lines[..n], b.seen) == {}
    requires PathOf(s) in b.disk && b.disk[PathOf(s)] == Dir
    requires InfoText(site.reply(s).lines[..n]) != "" ==>
               ReadmePath(s) in b.disk && b.disk[ReadmePath(s)] == File(InfoText(site.reply(s).lines[..n]))
    ensures Achieved(site, menu, b, s)
  {
    assert site.reply(s).lines[..n] == site.reply(s).lines;
    forall t | t in Named(site, menu, s) ensures t in b.seen { assert t !in Missed(site, site.reply(s).lines, b.seen); }
  }

  /** One more request for s, which was newly seen since `entry`. */
  lemma WentAgain(site: Site, menu: Kinds, start: Selector, s: Selector, entry: Crawl, a: Crawl, b: Crawl, n: nat)
    requires Explored(site, menu, start, {}, entry, a) && s in a.seen - entry.seen && Reaches(site, menu, start, s)
    requires a.requests[s] == entry.requests[s] + n && n < MAX_ATTEMPTS && LocalPath(site.root, s).Some?
    requires Explored(site, menu, start, {s}, a.(requests := a.requests + multiset{s}), b)
    ensures Explored(site, menu, start, {}, entry, b) && b.requests[s] == entry.requests[s] + n + 1
  {
    GrewTrans(entry.disk, a.disk, b.disk, a.seen - entry.seen, (b.seen - a.seen) + {s});
    assert (a.seen - entry.seen) + ((b.seen - a.seen) + {s}) == (b.seen - entry.seen) + {};
  }

  lemma WentEntered(site: Site, menu: Kinds, start: Selector, s: Selector, entry: Crawl)
    requires Reaches(site, menu, start, s)
    ensures Explored(site, menu, start, {}, entry, entry.(seen := entry.seen + {s}))
  {}

  /** The first attempt went well. */
  lemma WentWell(site: Site, menu: Kinds, s: Selector, entry: Crawl, b: Crawl)
    requires s !in entry.seen && !OnDisk(entry.disk, s)
    requires Finished(site, menu, entry.(seen := entry.seen + {s}, requests := entry.requests + multiset{s}), b)
    requires Achieved(site, menu, b, s) && b.requests[s] == entry.requests[s] + 1
    ensures Finished(site, menu, entry, b)
  {
    var mid := entry.(seen := entry.seen + {s}, requests := entry.requests + multiset{s});
    forall t | t in b.seen - entry.seen ensures FinishedOne(site, menu, entry, b, t) {
      if t != s { assert FinishedOne(site, menu, mid, b, t); }
    }
  }

  /** A selector with no place, or whose file is there already. */
  lemma WentPast(site: Site, menu: Kinds, start: Selector, s: Selector, entry: Crawl, faulty: bool)
    requires s !in entry.seen
    requires LocalPath(site.root, s).Some? ==>
               && Reaches(site, menu, start, s) && !menu(s) && OnDisk(entry.disk, s)
               && (s in entry.torn || Saved(site, menu, entry.disk, s))
    requires LocalPath(site.root, s).None? ==> Linked(site, menu, start, s)
    ensures Went(site, menu, start, {}, entry, entry.(seen := entry.seen + {s}), faulty)
  {}

  /** Everything reachable is on disk, after one request unless its file was there, and
      whole unless an earlier transfer of it was closed early. */
  ghost predicate Mirrored(site: Site, menu: Kinds, start: Selector, before: Disk, disk: Disk, torn: set<Selector>,
                           requests: Requests) {
    forall s :: Reaches(site, menu, start, s) ==>
      (Saved(site, menu, disk, s) <==> s !in torn) && requests[s] == if OnDisk(before, s) then 0 else 1
  }

  /** A plain selector's file, once there, is never touched again. */
  ghost predicate FilesStay(site: Site, menu: Kinds, start: Selector, before: Disk, disk: Disk) {
    forall s :: Reaches(site, menu, start, s) && OnDisk(before, s) ==>
      OnDisk(disk, s) && disk[PathOf(s)] == before[PathOf(s)]
  }

  /** Requests only go to what is reachable, and at most five to each. */
  ghost predicate Modest(site: Site, menu: Kinds, start: Selector, requests: Requests) {
    forall s :: requests[s] <= 5 && (requests[s] > 0 ==> Reaches(site, menu, start, s))
  }

  /** Whatever is seen, but for the start, some reachable menu names. */
  lemma SeenIsLinked(site: Site, menu: Kinds, start: Selector, a: Crawl, b: Crawl, s: Selector)
    requires Explored(site, menu, start, {}, a, b) && a.seen == {} && s in b.seen && s != start
    ensures Linked(site, menu, start, s)
  {
    if Reaches(site, menu, start, s) {
      var c :| Chain(site, menu, start, c) && c[|c| - 1] == s;
      var before := c[..|c| - 1];
      assert Chain(site, menu, start, before) && before[|before| - 1] == c[|c| - 2];
      assert Reaches(site, menu, start, c[|c| - 2]);
    }
  }

  /** In the words of a menu: it has an entry for s of one of the types followed, on this host
      and port. */
  lemma LinkedTells(site: Site, menu: Kinds, start: Selector, s: Selector) returns (m: Selector, l: Line)
    requires Linked(site, menu, start, s)
    ensures Reaches(site, menu, start, m) && menu(m) && l in site.reply(m).lines
    ensures l.Entry? && l.selector == s && l.typ in {'0', '1', '4', '5', '6', '9', 'g', 'I'} && l.port == site.port
    ensures |l.host| == |site.host| && forall i :: 0 <= i < |l.host| ==> SameLetter(l.host[i], site.host[i])
  {
    m :| Reaches(site, menu, start, m) && s in Named(site, menu, m);
    l :| l in site.reply(m).lines && Followed(site, l) && l.selector == s;
    FollowedSpelled(site, l);
  }

  /** Every entry that names something to follow is among what a menu names. */
  lemma EntryIsNamed(site: Site, menu: Kinds, m: Selector, l: Line)
    requires menu(m) && site.reply(m).body != "" && LocalPath(site.root, m).Some? && l in site.reply(m).lines
    requires l.Entry? && l.typ in {'0', '1', '4', '5', '6', '9', 'g', 'I'} && l.port == site.port
    requires |l.host| == |site.host| && forall i :: 0 <= i < |l.host| ==> SameLetter(l.host[i], site.host[i])
    ensures l.selector in Named(site, menu, m)
  {
    FollowedSpelled(site, l);
  }

  /** What is on disk of s: a directory with the info lines, or all of the response. */
  lemma SavedTells(site: Site, menu: Kinds, disk: Disk, s: Selector)
    requires Saved(site, menu, disk, s) && site.reply(s).body != ""
    ensures PathOf(s) in disk && disk[PathOf(s)] == if menu(s) then Dir else File(site.reply(s).body)
    ensures menu(s) && InfoText(site.reply(s).lines) != "" ==>
              PathOf(s) + ["00README"] in disk && disk[PathOf(s) + ["00README"]] == File(InfoText(site.reply(s).lines))
  {}

  lemma WentFilesStay(site: Site, menu: Kinds, start: Selector, a: Crawl, b: Crawl)
    requires Tame(site, menu, start) && Explored(site, menu, start, {}, a, b)
    ensures FilesStay(site, menu, start, a.disk, b.disk)
  {
    forall s, m | Reaches(site, menu, start, s) ensures PathOf(s) != ReadmePath(m) {
      ReadmeIsNoPlace(site, menu, start, m, s);
    }
  }

  /** A crawl that started with nothing seen and saw to the start has mirrored it all. */
  lemma WentAll(site: Site, menu: Kinds, start: Selector, a: Crawl, b: Crawl, faulty: bool)
    requires LocalPath(site.root, start).Some? && start in b.seen && a.seen == {} && a.requests == multiset{}
    requires Tame(site, menu, start) && DiskOk(site, menu, start, b.disk, b.torn)
    requires Went(site, menu, start, {}, a, b, faulty)
    ensures Modest(site, menu, start, b.requests)
    ensures !faulty ==> b.torn == a.torn && Mirrored(site, menu, start, a.disk, b.disk, b.torn, b.requests)
    ensures !faulty ==> forall s :: Reaches(site, menu, start, s) ==>
              s in b.seen && LocalPath(site.root, s).Some? && Named(site, menu, s) <= b.seen
  {
    if !faulty {
      forall s | s in b.seen ensures Kids(site, menu, s) <= b.seen { assert FinishedOne(site, menu, a, b, s); }
      forall s | Reaches(site, menu, start, s)
        ensures Saved(site, menu, b.disk, s) <==> s !in b.torn
        ensures b.requests[s] == if OnDisk(a.disk, s) then 0 else 1
        ensures s in b.seen && LocalPath(site.root, s).Some? && Named(site, menu, s) <= b.seen
      {
        var c :| Chain(site, menu, start, c) && c[|c| - 1] == s;
        ClosedHasChain(site, menu, start, b.seen, c);
        ReachableHasPath(site, menu, start, s);
        assert FinishedOne(site, menu, a, b, s);
        if s in b.torn { TornIsNotSaved(site, menu, start, b.disk, b.torn, s); }
      }
    }
  }

  /** Once mirrored, what the next fault-free run asks for again are the menus and what had
      an empty response. */
  lemma AskedAgain(site: Site, menu: Kinds, start: Selector, before: Disk, torn: set<Selector>,
                   disk: Disk, torn': set<Selector>, requests: Requests, s: Selector)
    requires Tame(site, menu, start) && DiskOk(site, menu, start, before, torn) && Reaches(site, menu, start, s)
    requires s in torn || Saved(site, menu, before, s)
    requires Mirrored(site, menu, start, before, disk, torn', requests)
    ensures requests[s] == if menu(s) || site.reply(s).body == "" then 1 else 0
  {
    OnDiskIffAnswered(site, menu, start, before, torn, s);
  }

  /* ---- a tame site ---- */

  /** A menu with two files below it, one of them empty. */
  const TINY := Site("h", "70", [], s =>
    if s == "" then Reply("x", [Entry('0', "f", "H", "70"), Entry('0', "g", "H", "70")], true)
    else Reply(if s == "f" then "yy" else "", [], false))

  predicate TinyMenu(s: Selector) {
    s == ""
  }

  lemma OnePart(c: char)
    requires c !in {'/', '.'}
    ensures PathOf([c]) == [[c]]
  {
    assert Split([c]) == [[c]] by { assert [c][1..] == "" && Split("") == [""] && [c] + "" == [c]; }
    assert [[c]][..0] == [] && Cleaned([[c]], true) == [] + [[c]];
  }

  lemma TinyPlaces()
    ensures PathOf("") == [] && PathOf("f") == ["f"] && PathOf("g") == ["g"]
  {
    OnePart('f');
    OnePart('g');
    assert [""][..0] == [];
  }

  lemma TinyKids()
    ensures Kids(TINY, TinyMenu, "") == {"f", "g"} && Kids(TINY, TinyMenu, "f") == {} && Kids(TINY, TinyMenu, "g") == {}
  {
    TinyPlaces();
    hide PathOf;
    var lines := TINY.reply("").lines;
    assert lines[0] in lines && Followed(TINY, lines[0]) && lines[1] in lines && Followed(TINY, lines[1]);
    assert FollowedIn(TINY, lines) == {"f", "g"};
  }

  lemma TinyReaches(s: Selector)
    ensures Reaches(TINY, TinyMenu, "", s) <==> s == "" || s == "f" || s == "g"
  {
    TinyKids();
    ReachesStart(TINY, TinyMenu, "");
    ReachesKid(TINY, TinyMenu, "", "", "f");
    ReachesKid(TINY, TinyMenu, "", "", "g");
    hide Kids;
    if Reaches(TINY, TinyMenu, "", s) {
      var c :| Chain(TINY, TinyMenu, "", c) && c[|c| - 1] == s;
      ClosedHasChain(TINY, TinyMenu, "", {"", "f", "g"}, c);
    }
  }

  lemma TinyTypes()
    ensures TypesTold(TINY, TinyMenu, "")
  {
    forall s, l | Reaches(TINY, TinyMenu, "", s) && TinyMenu(s) && l in TINY.reply(s).lines && Followed(TINY, l)
      ensures l.typ == '1' <==> TinyMenu(l.selector)
    {
      hide Reaches, Followed;
      assert s == "";
    }
  }

  lemma TinyApart()
    ensures PlacesDiffer(TINY, TinyMenu, "") && MenusAbove(TINY, TinyMenu, "")
    ensures forall s :: Reaches(TINY, TinyMenu, "", s) ==> README !in PathOf(s)
  {
    TinyPlaces();
    hide Reaches, PathOf;
    forall s | Reaches(TINY, TinyMenu, "", s) ensures PathOf(s) in {[], ["f"], ["g"]} && README !in PathOf(s) {
      TinyReaches(s);
    }
    forall s, t | Reaches(TINY, TinyMenu, "", s) && Reaches(TINY, TinyMenu, "", t) && s != t
      ensures PathOf(s) != PathOf(t) && (PathOf(s) <= PathOf(t) ==> TinyMenu(s))
    {
      TinyReaches(s);
      TinyReaches(t);
    }
  }

  /** The conditions asked of a site can be met. */
  lemma TinyIsTame()
    ensures Tame(TINY, TinyMenu, "") && PathOf("") == TINY.root
    ensures Reaches(TINY, TinyMenu, "", "f") && Reaches(TINY, TinyMenu, "", "g")
  {
    hide Reaches, PathOf, TypesTold, PlacesDiffer, MenusAbove;
    TinyPlaces();
    TinyTypes();
    TinyApart();
    TinyReaches("f");
    TinyReaches("g");
  }
}
