/** What ftpmirror's worklist is about: the entries table, what a server lists, and what
    it takes for a table to reflect it. Paths are given by their components, so that
    joining a name is appending it. */
module FtpModel {
  import opened Common

  /** An item of a directory listing, as the FTP library reports it. */
  datatype Kind = Folder | File(size: int, mtime: int) | Link
  datatype Item = Item(name: string, kind: Kind)

  /** What each directory lists. */
  type Listing = Path -> seq<Item>

  /** listDir skips the entries that stand for the directory itself or its parent. */
  predicate Usable(it: Item) {
    it.name != "" && it.name != "." && it.name != ".." && '/' !in it.name
  }

  /** No directory lists a usable name twice. */
  ghost predicate Distinct(ls: Listing) {
    forall d: Path :: DistinctIn(ls(d))
  }

  ghost predicate DistinctIn(items: seq<Item>) {
    forall i, j :: 0 <= i < j < |items| && Usable(items[i]) && Usable(items[j]) ==> items[i].name != items[j].name
  }

  datatype State = Pending | Done | Errored | Failed

  /** Row ids are handed out in order and rows are never deleted, so a row is known by
      its place. */
  datatype Entry = Entry(path: Path, isDir: bool, size: int, mtime: int, state: State)

  predicate IsChild(p: Path, d: Path) {
    p != [] && p[..|p| - 1] == d
  }

  predicate Has(rows: seq<Entry>, p: Path) {
    exists i :: 0 <= i < |rows| && rows[i].path == p
  }

  function Find(rows: seq<Entry>, p: Path): (i: nat)
    requires Has(rows, p)
    ensures i < |rows| && rows[i].path == p
  {
    if rows[|rows| - 1].path == p then |rows| - 1
    else
      assert Has(rows[..|rows| - 1], p) by {
        var k :| 0 <= k < |rows| && rows[k].path == p;
        assert rows[..|rows| - 1][k].path == p;
      }
      Find(rows[..|rows| - 1], p)
  }

  ghost predicate HasParent(rows: seq<Entry>, j: nat)
    requires j < |rows|
  {
    exists i :: 0 <= i < j && IsChild(rows[j].path, rows[i].path)
  }

  ghost predicate Unique(rows: seq<Entry>) {
    forall i, j :: 0 <= i < j < |rows| ==> rows[i].path != rows[j].path
  }

  /** A table built from one root: it starts with the root, and every parent's id is
      below its children's. */
  ghost predicate Tree(root: Path, rows: seq<Entry>) {
    && Unique(rows)
    && (rows != [] ==> rows[0].path == root)
    && (forall j :: 1 <= j < |rows| ==> HasParent(rows, j))
  }

  /** With one root, every row is in scope (inScope, ftpmirror's prefix test). */
  lemma {:induction false} TreeInScope(root: Path, rows: seq<Entry>, j: nat)
    requires Tree(root, rows) && j < |rows|
    ensures root <= rows[j].path && (j > 0 ==> |root| < |rows[j].path|)
  {
    if j > 0 {
      assert HasParent(rows, j);
      var i :| 0 <= i < j && IsChild(rows[j].path, rows[i].path);
      TreeInScope(root, rows, i);
    }
  }

  /* ---- the local side ---- */

  /** Sizes as Lstat reports them. */
  type Disk = map<Path, nat>

  /** The file was downloaded in this run, or is on disk with the listed size. */
  predicate Current(disk: Disk, fetched: set<Path>, r: Entry) {
    r.path in fetched || (r.path in disk && (r.size < 0 || disk[r.path] == r.size))
  }

  /** What may happen to the disk during a run. */
  ghost predicate Later(disk: Disk, fetched: set<Path>, disk': Disk, fetched': set<Path>) {
    fetched <= fetched' && forall p :: p in disk ==> p in disk' && (disk'[p] == disk[p] || p in fetched')
  }

  /* ---- upsert ---- */

  /** Unknown entries are appended. Without update the rest is ignored; with it a row is
      written anew, to be worked on, if what is listed differs from it in anything but the
      state, or if the file is not on disk as listed. */
  function Upserted(rows: seq<Entry>, disk: Disk, update: bool, e: Entry): seq<Entry> {
    if !Has(rows, e.path) then rows + [e]
    else if !update then rows
    else
      var i := Find(rows, e.path);
      if rows[i] == e.(state := rows[i].state) && (e.isDir || Current(disk, {}, e)) then rows else rows[i := e]
  }

  /** Rows that are not children of d stay; new rows are children of d and pending. */
  ghost predicate Evolved(a: seq<Entry>, b: seq<Entry>, d: Path) {
    && |a| <= |b|
    && (forall j :: 0 <= j < |a| ==> b[j].path == a[j].path && (b[j] == a[j] || (IsChild(a[j].path, d) && b[j].state.Pending?)))
    && (forall j :: |a| <= j < |b| ==> IsChild(b[j].path, d) && b[j].state.Pending?)
  }

  lemma EvolvedTrans(a: seq<Entry>, b: seq<Entry>, c: seq<Entry>, d: Path)
    requires Evolved(a, b, d) && Evolved(b, c, d)
    ensures Evolved(a, c, d)
  {}

  lemma UpsertEvolves(root: Path, rows: seq<Entry>, disk: Disk, update: bool, e: Entry, i: nat)
    requires Tree(root, rows) && i < |rows| && IsChild(e.path, rows[i].path) && e.state.Pending?
    ensures var n := Upserted(rows, disk, update, e);
      && Tree(root, n) && Evolved(rows, n, rows[i].path) && Has(n, e.path)
  {
    var n := Upserted(rows, disk, update, e);
    if Has(rows, e.path) {
      var k := Find(rows, e.path);
      assert n[k].path == e.path;
    } else {
      assert n[|rows|] == e;
    }
    assert forall j :: 0 <= j < |rows| ==> n[j].path == rows[j].path;
    forall j | 1 <= j < |n| ensures HasParent(n, j) {
      if j == |rows| {
        assert IsChild(n[j].path, n[i].path);
      } else {
        assert HasParent(rows, j);
        var k :| 0 <= k < j && IsChild(rows[j].path, rows[k].path);
        assert IsChild(n[j].path, n[k].path);
      }
    }
  }

  lemma ChildLater(root: Path, rows: seq<Entry>, i: nat, j: nat)
    requires Tree(root, rows) && i < |rows| && j < |rows| && IsChild(rows[j].path, rows[i].path)
    ensures i < j
  {
    if j == 0 {
      TreeInScope(root, rows, i);
    } else {
      assert HasParent(rows, j);
      var k :| 0 <= k < j && IsChild(rows[j].path, rows[k].path);
      assert rows[k].path == rows[i].path;
    }
  }

  /** Only rows ahead of d's own row are touched: what is requeued is still to come. */
  lemma EvolvedAhead(root: Path, a: seq<Entry>, b: seq<Entry>, i: nat)
    requires Tree(root, a) && i < |a| && Evolved(a, b, a[i].path)
    ensures forall j :: 0 <= j <= i ==> b[j] == a[j]
  {
    forall j | 0 <= j < |a| && IsChild(a[j].path, a[i].path) ensures i < j { ChildLater(root, a, i, j); }
  }

  /* ---- what a table says about the server ---- */

  predicate Match(r: Entry, kind: Kind) {
    match kind
    case Folder => r.isDir
    case File(size, mtime) => !r.isDir && r.size == size && r.mtime == mtime
    case Link => false
  }

  /** The row as listDir would insert it. */
  function EntryOf(p: Path, kind: Kind): Entry
    requires !kind.Link?
  {
    match kind
    case Folder => Entry(p, true, -1, 0, Pending)
    case File(size, mtime) => Entry(p, false, size, mtime, Pending)
  }

  ghost predicate RowOk(r: Entry, p: Path, kind: Kind, disk: Disk, fetched: set<Path>, check: bool) {
    r.path == p && Match(r, kind) && (check && !r.isDir && r.state.Done? ==> Current(disk, fetched, r))
  }

  /** The item is on record as listed; with `check`, a file that is done is current. */
  ghost predicate ItemOk(rows: seq<Entry>, d: Path, it: Item, disk: Disk, fetched: set<Path>, check: bool) {
    Usable(it) && !it.kind.Link? ==> exists j :: 0 <= j < |rows| && RowOk(rows[j], d + [it.name], it.kind, disk, fetched, check)
  }

  ghost predicate Covered(rows: seq<Entry>, d: Path, items: seq<Item>, disk: Disk, fetched: set<Path>, check: bool) {
    forall k :: 0 <= k < |items| ==> ItemOk(rows, d, items[k], disk, fetched, check)
  }

  ghost predicate ListedOk(ls: Listing, r: Entry, rows: seq<Entry>, disk: Disk, fetched: set<Path>, check: bool) {
    r.isDir && r.state.Done? ==> Covered(rows, r.path, ls(r.path), disk, fetched, check)
  }

  /** Every directory that is done has its whole listing on record. */
  ghost predicate Listed(ls: Listing, rows: seq<Entry>, disk: Disk, fetched: set<Path>, check: bool) {
    forall j :: 0 <= j < |rows| ==> ListedOk(ls, rows[j], rows, disk, fetched, check)
  }

  /** p is on the server, below the root, as an item of this kind in a chain of folders. */
  ghost predicate OnServer(ls: Listing, root: Path, p: Path, kind: Kind)
    decreases |p|
  {
    if |p| <= |root| then p == root && kind.Folder?
    else
      && OnServer(ls, root, p[..|p| - 1], Folder)
      && Usable(Item(p[|p| - 1], kind)) && Item(p[|p| - 1], kind) in ls(p[..|p| - 1])
  }

  ghost predicate FaithfulRow(ls: Listing, root: Path, r: Entry) {
    exists kind :: OnServer(ls, root, r.path, kind) && Match(r, kind)
  }

  /** Every row stands for something on the server, as listed. */
  ghost predicate Faithful(ls: Listing, root: Path, rows: seq<Entry>) {
    forall j :: 0 <= j < |rows| ==> FaithfulRow(ls, root, rows[j])
  }

  lemma ItemOkStays(a: seq<Entry>, b: seq<Entry>, d: Path, d': Path, it: Item,
                    disk: Disk, fetched: set<Path>, disk': Disk, fetched': set<Path>, check: bool)
    requires Evolved(a, b, d) && d' != d && Later(disk, fetched, disk', fetched')
    requires ItemOk(a, d', it, disk, fetched, check)
    ensures ItemOk(b, d', it, disk', fetched', check)
  {
    if Usable(it) && !it.kind.Link? {
      var j :| 0 <= j < |a| && RowOk(a[j], d' + [it.name], it.kind, disk, fetched, check);
      assert a[j].path[..|a[j].path| - 1] == d';
      assert b[j] == a[j];
      assert RowOk(b[j], d' + [it.name], it.kind, disk', fetched', check);
    }
  }

  lemma CoveredStays(a: seq<Entry>, b: seq<Entry>, d: Path, d': Path, items: seq<Item>,
                     disk: Disk, fetched: set<Path>, disk': Disk, fetched': set<Path>, check: bool)
    requires Evolved(a, b, d) && d' != d && Later(disk, fetched, disk', fetched')
    requires Covered(a, d', items, disk, fetched, check)
    ensures Covered(b, d', items, disk', fetched', check)
  {
    forall k | 0 <= k < |items| ensures ItemOk(b, d', items[k], disk', fetched', check) {
      ItemOkStays(a, b, d, d', items[k], disk, fetched, disk', fetched', check);
    }
  }

  /** Listing a directory that is not done yet loses nothing of the others. */
  lemma ListedStays(ls: Listing, root: Path, a: seq<Entry>, b: seq<Entry>, i: nat,
                    disk: Disk, fetched: set<Path>, disk': Disk, fetched': set<Path>, check: bool)
    requires Tree(root, a) && i < |a| && a[i].state.Pending? && Evolved(a, b, a[i].path)
    requires Later(disk, fetched, disk', fetched') && Listed(ls, a, disk, fetched, check)
    ensures Listed(ls, b, disk', fetched', check)
  {
    forall j | 0 <= j < |b| ensures ListedOk(ls, b[j], b, disk', fetched', check) {
      if b[j].isDir && b[j].state.Done? {
        assert b[j] == a[j] && ListedOk(ls, a[j], a, disk, fetched, check);
        CoveredStays(a, b, a[i].path, a[j].path, ls(a[j].path), disk, fetched, disk', fetched', check);
      }
    }
  }

  /** The row of one item, just upserted. */
  lemma ItemUpserted(root: Path, rows: seq<Entry>, disk: Disk, fetched: set<Path>, update: bool, i: nat, it: Item)
    requires Tree(root, rows) && i < |rows| && Usable(it) && !it.kind.Link?
    requires update || (Has(rows, rows[i].path + [it.name]) ==> Match(rows[Find(rows, rows[i].path + [it.name])], it.kind))
    ensures ItemOk(Upserted(rows, disk, update, EntryOf(rows[i].path + [it.name], it.kind)),
                   rows[i].path, it, disk, fetched, update)
  {
    var e := EntryOf(rows[i].path + [it.name], it.kind);
    var n := Upserted(rows, disk, update, e);
    var j := if Has(rows, e.path) then Find(rows, e.path) else |rows|;
    assert RowOk(n[j], e.path, it.kind, disk, fetched, update);
  }

  /** Upserting one item leaves the others of the same directory alone. */
  lemma ItemOkBeside(rows: seq<Entry>, disk: Disk, disk': Disk, fetched: set<Path>, update: bool, d: Path, it: Item, other: Item)
    requires it.name != other.name && !it.kind.Link? && Later(disk, fetched, disk', fetched)
    requires ItemOk(rows, d, other, disk, fetched, update)
    ensures ItemOk(Upserted(rows, disk', update, EntryOf(d + [it.name], it.kind)), d, other, disk', fetched, update)
  {
    var n := Upserted(rows, disk', update, EntryOf(d + [it.name], it.kind));
    if Usable(other) && !other.kind.Link? {
      var j :| 0 <= j < |rows| && RowOk(rows[j], d + [other.name], other.kind, disk, fetched, update);
      assert (d + [other.name])[|d|] != (d + [it.name])[|d|];
      assert n[j] == rows[j];
      assert RowOk(n[j], d + [other.name], other.kind, disk', fetched, update);
    }
  }

  lemma ChildOnServer(ls: Listing, root: Path, r: Entry, it: Item)
    requires FaithfulRow(ls, root, r) && r.isDir && root <= r.path && it in ls(r.path) && Usable(it)
    ensures OnServer(ls, root, r.path + [it.name], it.kind)
  {
    assert (r.path + [it.name])[..|r.path|] == r.path;
  }

  /** A faithful row of an item agrees with it. */
  lemma FaithfulMatches(ls: Listing, root: Path, d: Path, it: Item, r: Entry)
    requires DistinctIn(ls(d)) && it in ls(d) && Usable(it) && root <= d
    requires FaithfulRow(ls, root, r) && r.path == d + [it.name]
    ensures Match(r, it.kind)
  {
    assert r.path[..|r.path| - 1] == d;
  }

  lemma UpsertFaithful(ls: Listing, root: Path, rows: seq<Entry>, disk: Disk, update: bool, i: nat, it: Item)
    requires Tree(root, rows) && Faithful(ls, root, rows) && i < |rows| && rows[i].isDir
    requires it in ls(rows[i].path) && Usable(it) && !it.kind.Link?
    ensures Faithful(ls, root, Upserted(rows, disk, update, EntryOf(rows[i].path + [it.name], it.kind)))
  {
    var e := EntryOf(rows[i].path + [it.name], it.kind);
    var n := Upserted(rows, disk, update, e);
    TreeInScope(root, rows, i);
    ChildOnServer(ls, root, rows[i], it);
    forall j | 0 <= j < |n| ensures FaithfulRow(ls, root, n[j]) {
      if n[j] != e { assert n[j] == rows[j]; }
    }
  }

  /* ---- the whole tree ---- */

  /** p or a directory above it was refused for good by the server. */
  ghost predicate RefusedAbove(rows: seq<Entry>, p: Path) {
    exists j :: 0 <= j < |rows| && rows[j].state.Failed? && rows[j].path <= p
  }

  /** p is done as listed and, with `check`, current. */
  ghost predicate Held(rows: seq<Entry>, p: Path, kind: Kind, disk: Disk, fetched: set<Path>, check: bool) {
    exists j :: 0 <= j < |rows| && rows[j].state.Done? && RowOk(rows[j], p, kind, disk, fetched, check)
  }

  ghost predicate Finished(rows: seq<Entry>) {
    forall j :: 0 <= j < |rows| ==> rows[j].state.Done? || rows[j].state.Failed?
  }

  /** What is on the server is on record and current, or under something refused. */
  ghost predicate Reflects(ls: Listing, root: Path, rows: seq<Entry>, disk: Disk, fetched: set<Path>, check: bool) {
    forall p, kind :: OnServer(ls, root, p, kind) && !kind.Link? ==>
      RefusedAbove(rows, p) || Held(rows, p, kind, disk, fetched, check)
  }

  lemma {:induction false} FinishedReflectsAt(ls: Listing, root: Path, rows: seq<Entry>, disk: Disk, fetched: set<Path>,
                                              check: bool, p: Path, kind: Kind)
    requires Tree(root, rows) && rows != [] && rows[0].isDir && Finished(rows) && Listed(ls, rows, disk, fetched, check)
    requires OnServer(ls, root, p, kind) && !kind.Link?
    ensures RefusedAbove(rows, p) || Held(rows, p, kind, disk, fetched, check)
    decreases |p|
  {
    if |p| <= |root| {
      assert RowOk(rows[0], p, kind, disk, fetched, check);
    } else {
      var d := p[..|p| - 1];
      FinishedReflectsAt(ls, root, rows, disk, fetched, check, d, Folder);
      if RefusedAbove(rows, d) {
        var j :| 0 <= j < |rows| && rows[j].state.Failed? && rows[j].path <= d;
        assert rows[j].path <= p;
      } else {
        var i :| 0 <= i < |rows| && rows[i].state.Done? && RowOk(rows[i], d, Folder, disk, fetched, check);
        assert ListedOk(ls, rows[i], rows, disk, fetched, check);
        var k :| 0 <= k < |ls(d)| && ls(d)[k] == Item(p[|p| - 1], kind);
        assert ItemOk(rows, d, ls(d)[k], disk, fetched, check);
        assert d + [p[|p| - 1]] == p;
        var j :| 0 <= j < |rows| && RowOk(rows[j], p, kind, disk, fetched, check);
        assert rows[j].state.Failed? ==> rows[j].path <= p;
      }
    }
  }

  lemma FinishedReflects(ls: Listing, root: Path, rows: seq<Entry>, disk: Disk, fetched: set<Path>, check: bool)
    requires Tree(root, rows) && rows != [] && rows[0].isDir && Finished(rows) && Listed(ls, rows, disk, fetched, check)
    ensures Reflects(ls, root, rows, disk, fetched, check)
  {
    forall p, kind | OnServer(ls, root, p, kind) && !kind.Link?
      ensures RefusedAbove(rows, p) || Held(rows, p, kind, disk, fetched, check)
    {
      FinishedReflectsAt(ls, root, rows, disk, fetched, check, p, kind);
    }
  }
}
