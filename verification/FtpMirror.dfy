/** The crawler of ftpmirror. A run can be cut off before any write to the database (the
    same as crashing there), and every exchange with the server can fail. */
module FtpMirror {
  import opened Common
  import opened FtpModel

  const MAX_ATTEMPTS := 3

  /** How one attempt at an entry, and a whole run, can end. */
  datatype Attempt = Handled | Permanent | Local | Transient | Cut
  datatype Outcome = Clean | Partial | Stopped

  /** The UPDATE at the start of a run. */
  function Reset(rows: seq<Entry>, update: bool): seq<Entry> {
    seq(|rows|, i requires 0 <= i < |rows| =>
      if (if update then rows[i].isDir || !rows[i].state.Done? else rows[i].state.Errored?)
      then rows[i].(state := Pending) else rows[i])
  }

  /** -update never looks again at a start path that is a single file once it is done:
      the reset skips it and addRoot returns early. Only then is the root left alone. */
  lemma ResetRequeuesRoot(rows: seq<Entry>)
    requires rows != []
    ensures Reset(rows, true)[0].state.Pending? <==> rows[0].isDir || !rows[0].state.Done?
  {}

  /** With update all directories are listed again, and every file that is not done is
      tried again; without, only what ended in an error. */
  lemma ResetSpelled(rows: seq<Entry>, update: bool)
    ensures |Reset(rows, update)| == |rows|
    ensures forall j :: 0 <= j < |rows| ==> Reset(rows, update)[j] == rows[j].(state := Reset(rows, update)[j].state)
    ensures update ==> forall j :: 0 <= j < |rows| ==>
              Reset(rows, update)[j].state == if rows[j].isDir || rows[j].state != Done then Pending else Done
    ensures !update ==> forall j :: 0 <= j < |rows| ==>
              Reset(rows, update)[j].state == if rows[j].state == Errored then Pending else rows[j].state
  {}

  ghost predicate NoErrors(rows: seq<Entry>) {
    forall j :: 0 <= j < |rows| ==> !rows[j].state.Errored?
  }

  ghost predicate Below(rows: seq<Entry>, n: nat) {
    forall j :: 0 <= j < |rows| && j < n ==> !rows[j].state.Pending?
  }

  ghost predicate Within(rows: seq<Entry>, universe: set<Path>) {
    forall j :: 0 <= j < |rows| ==> rows[j].path in universe
  }

  /** A finite set of paths that no listing leads out of. */
  ghost predicate Closed(ls: Listing, universe: set<Path>) {
    forall d, k :: d in universe && 0 <= k < |ls(d)| ==> d + [ls(d)[k].name] in universe
  }

  /** Row i may change state; otherwise only children of its path are touched. */
  ghost predicate EvolvedBut(a: seq<Entry>, b: seq<Entry>, i: nat) {
    i < |a| <= |b| && b[i] == a[i].(state := b[i].state) && Evolved(a[i := b[i]], b, a[i].path)
  }

  lemma EvolvedButFacts(root: Path, a: seq<Entry>, b: seq<Entry>, i: nat)
    requires Tree(root, a) && EvolvedBut(a, b, i)
    ensures forall j :: 0 <= j < i ==> b[j] == a[j]
    ensures Below(a, i) && !b[i].state.Pending? ==> Below(b, i + 1)
    ensures NoErrors(a) && !b[i].state.Errored? ==> NoErrors(b)
    ensures b[0].isDir == a[0].isDir
  {
    var a' := a[i := b[i]];
    TreeStays(root, a, i, b[i]);
    EvolvedAhead(root, a', b, i);
  }

  lemma TreeStays(root: Path, a: seq<Entry>, i: nat, r: Entry)
    requires Tree(root, a) && i < |a| && r.path == a[i].path
    ensures Tree(root, a[i := r])
  {
    var b := a[i := r];
    assert forall j :: 0 <= j < |a| ==> b[j].path == a[j].path;
    forall j | 1 <= j < |b| ensures HasParent(b, j) {
      assert HasParent(a, j);
      var k :| 0 <= k < j && IsChild(a[j].path, a[k].path);
      assert IsChild(b[j].path, b[k].path);
    }
  }

  lemma EvolvedThenState(a: seq<Entry>, b: seq<Entry>, i: nat, st: State)
    requires i < |a| && Evolved(a, b, a[i].path)
    ensures EvolvedBut(a, b[i := b[i].(state := st)], i)
  {
    var a', c := a[i := a[i].(state := st)], b[i := b[i].(state := st)];
    assert b[i] == a[i];
    assert forall j :: 0 <= j < |a| && j != i ==> a'[j] == a[j];
    assert forall j :: 0 <= j < |b| && j != i ==> c[j] == b[j];
  }

  /** Concluding row i keeps every other directory's listing on record. */
  lemma ListedConcluded(ls: Listing, rows: seq<Entry>, i: nat, st: State, disk: Disk, fetched: set<Path>, check: bool)
    requires i < |rows| && Listed(ls, rows, disk, fetched, check)
    requires st.Done? ==> if rows[i].isDir then Covered(rows, rows[i].path, ls(rows[i].path), disk, fetched, check)
                          else rows[i].path in fetched
    ensures Listed(ls, rows[i := rows[i].(state := st)], disk, fetched, check)
  {
    var b := rows[i := rows[i].(state := st)];
    forall j | 0 <= j < |b| ensures ListedOk(ls, b[j], b, disk, fetched, check) {
      if b[j].isDir && b[j].state.Done? {
        assert ListedOk(ls, rows[j], rows, disk, fetched, check);
        CoveredConcluded(rows, b, i, rows[j].path, ls(rows[j].path), disk, fetched, check);
      }
    }
  }

  lemma CoveredConcluded(a: seq<Entry>, b: seq<Entry>, i: nat, d: Path, items: seq<Item>,
                         disk: Disk, fetched: set<Path>, check: bool)
    requires i < |a| == |b| && b == a[i := b[i]] && b[i] == a[i].(state := b[i].state)
    requires b[i].state.Done? && !b[i].isDir ==> b[i].path in fetched
    requires Covered(a, d, items, disk, fetched, check)
    ensures Covered(b, d, items, disk, fetched, check)
  {
    forall k | 0 <= k < |items| ensures ItemOk(b, d, items[k], disk, fetched, check) {
      var it := items[k];
      assert ItemOk(a, d, it, disk, fetched, check);
      if Usable(it) && !it.kind.Link? {
        var j :| 0 <= j < |a| && RowOk(a[j], d + [it.name], it.kind, disk, fetched, check);
        assert RowOk(b[j], d + [it.name], it.kind, disk, fetched, check);
      }
    }
  }

  lemma FaithfulConcluded(ls: Listing, root: Path, rows: seq<Entry>, i: nat, st: State)
    requires i < |rows| && Faithful(ls, root, rows)
    ensures Faithful(ls, root, rows[i := rows[i].(state := st)])
  {
    var b := rows[i := rows[i].(state := st)];
    forall j | 0 <= j < |b| ensures FaithfulRow(ls, root, b[j]) {
      assert FaithfulRow(ls, root, rows[j]);
      var kind :| OnServer(ls, root, rows[j].path, kind) && Match(rows[j], kind);
      assert OnServer(ls, root, b[j].path, kind) && Match(b[j], kind);
    }
  }

  lemma UpsertWithin(ls: Listing, rows: seq<Entry>, disk: Disk, update: bool, i: nat, it: Item, universe: set<Path>)
    requires i < |rows| && it in ls(rows[i].path) && Within(rows, universe) && Closed(ls, universe) && !it.kind.Link?
    ensures Within(Upserted(rows, disk, update, EntryOf(rows[i].path + [it.name], it.kind)), universe)
  {
    var k :| 0 <= k < |ls(rows[i].path)| && ls(rows[i].path)[k] == it;
    assert rows[i].path in universe && rows[i].path + [ls(rows[i].path)[k].name] in universe;
  }

  /** What upserting one item of directory i does. */
  lemma ItemRecorded(ls: Listing, root: Path, rows: seq<Entry>, disk: Disk, fetched: set<Path>, update: bool,
                     i: nat, it: Item, universe: set<Path>)
    requires Tree(root, rows) && i < |rows| && rows[i].isDir && DistinctIn(ls(rows[i].path)) && it in ls(rows[i].path)
    requires Within(rows, universe) && Closed(ls, universe) && Usable(it) && !it.kind.Link?
    ensures var n := Upserted(rows, disk, update, EntryOf(rows[i].path + [it.name], it.kind));
      && Tree(root, n) && Within(n, universe) && Evolved(rows, n, rows[i].path)
      && (Faithful(ls, root, rows) ==> Faithful(ls, root, n))
      && (update || Faithful(ls, root, rows) ==> ItemOk(n, rows[i].path, it, disk, fetched, update))
  {
    var child := rows[i].path + [it.name];
    var e := EntryOf(child, it.kind);
    UpsertEvolves(root, rows, disk, update, e, i);
    UpsertWithin(ls, rows, disk, update, i, it, universe);
    hide Tree, Evolved, Within, Upserted, Closed, ItemOk;
    if Faithful(ls, root, rows) {
      UpsertFaithful(ls, root, rows, disk, update, i, it);
      TreeInScope(root, rows, i);
      if Has(rows, child) {
        assert FaithfulRow(ls, root, rows[Find(rows, child)]);
        FaithfulMatches(ls, root, rows[i].path, it, rows[Find(rows, child)]);
      }
    }
    if update || Faithful(ls, root, rows) { ItemUpserted(root, rows, disk, fetched, update, i, it); }
  }

  lemma LaterTrans(a: Disk, b: Disk, c: Disk, fetched: set<Path>)
    requires Later(a, fetched, b, fetched) && Later(b, fetched, c, fetched)
    ensures Later(a, fetched, c, fetched)
  {}

  lemma LaterTwice(a: Disk, fa: set<Path>, b: Disk, fb: set<Path>, c: Disk, fc: set<Path>)
    requires Later(a, fa, b, fb) && Later(b, fb, c, fc)
    ensures Later(a, fa, c, fc)
  {}

  lemma EvolvedSelf(a: seq<Entry>, d: Path)
    ensures Evolved(a, a, d)
  {}

  /** One more item of a listing is covered. */
  lemma CoveredNext(a: seq<Entry>, b: seq<Entry>, d: Path, items: seq<Item>, k: nat,
                    disk: Disk, disk': Disk, fetched: set<Path>, update: bool)
    requires k < |items| && DistinctIn(items) && Later(disk, fetched, disk', fetched)
    requires Covered(a, d, items[..k], disk, fetched, update)
    requires if Usable(items[k]) && !items[k].kind.Link?
             then b == Upserted(a, disk', update, EntryOf(d + [items[k].name], items[k].kind))
               && ItemOk(b, d, items[k], disk', fetched, update)
             else b == a
    ensures Covered(b, d, items[..k + 1], disk', fetched, update)
  {
    var upTo := items[..k + 1];
    forall m | 0 <= m < |upTo| ensures ItemOk(b, d, upTo[m], disk', fetched, update) {
      if m < k {
        assert upTo[m] == items[m] == items[..k][m];
        assert ItemOk(a, d, items[..k][m], disk, fetched, update);
        if Usable(items[m]) && !items[m].kind.Link? {
          ItemOkOlder(a, b, disk, disk', fetched, update, d, items[k], items[m]);
        }
      }
    }
  }

  lemma ItemOkOlder(a: seq<Entry>, b: seq<Entry>, disk: Disk, disk': Disk, fetched: set<Path>, update: bool,
                    d: Path, it: Item, other: Item)
    requires Later(disk, fetched, disk', fetched) && ItemOk(a, d, other, disk, fetched, update)
    requires Usable(it) ==> it.name != other.name
    requires if Usable(it) && !it.kind.Link?
             then b == Upserted(a, disk', update, EntryOf(d + [it.name], it.kind)) else b == a
    ensures ItemOk(b, d, other, disk', fetched, update)
  {
    if Usable(it) && !it.kind.Link? {
      ItemOkBeside(a, disk, disk', fetched, update, d, it, other);
    } else if Usable(other) && !other.kind.Link? {
      var j :| 0 <= j < |a| && RowOk(a[j], d + [other.name], other.kind, disk, fetched, update);
      assert RowOk(b[j], d + [other.name], other.kind, disk', fetched, update);
    }
  }

  lemma ListedUnchecked(ls: Listing, rows: seq<Entry>, disk: Disk, fetched: set<Path>, check: bool)
    requires Listed(ls, rows, disk, fetched, check)
    ensures Listed(ls, rows, map[], {}, false)
  {
    forall j | 0 <= j < |rows| ensures ListedOk(ls, rows[j], rows, map[], {}, false) {
      if rows[j].isDir && rows[j].state.Done? {
        assert ListedOk(ls, rows[j], rows, disk, fetched, check);
        CoveredUnchecked(rows, rows[j].path, ls(rows[j].path), disk, fetched, check, map[], {});
      }
    }
  }

  lemma CoveredUnchecked(rows: seq<Entry>, d: Path, items: seq<Item>, disk: Disk, fetched: set<Path>, check: bool,
                         disk': Disk, fetched': set<Path>)
    requires Covered(rows, d, items, disk, fetched, check)
    ensures Covered(rows, d, items, disk', fetched', false)
  {
    forall k | 0 <= k < |items| ensures ItemOk(rows, d, items[k], disk', fetched', false) {
      var it := items[k];
      assert ItemOk(rows, d, it, disk, fetched, check);
      if Usable(it) && !it.kind.Link? {
        var j :| 0 <= j < |rows| && RowOk(rows[j], d + [it.name], it.kind, disk, fetched, check);
        assert RowOk(rows[j], d + [it.name], it.kind, disk', fetched', false);
      }
    }
  }

  lemma ResetTree(root: Path, rows: seq<Entry>, update: bool)
    requires Tree(root, rows)
    ensures var n := Reset(rows, update); Tree(root, n) && NoErrors(n)
  {
    var n := Reset(rows, update);
    assert forall j :: 0 <= j < |rows| ==> n[j].path == rows[j].path;
    forall j | 1 <= j < |n| ensures HasParent(n, j) {
      assert HasParent(rows, j);
      var k :| 0 <= k < j && IsChild(rows[j].path, rows[k].path);
      assert IsChild(n[j].path, n[k].path);
    }
  }

  lemma ResetFaithful(ls: Listing, root: Path, rows: seq<Entry>, update: bool)
    requires Faithful(ls, root, rows)
    ensures Faithful(ls, root, Reset(rows, update))
  {
    var n := Reset(rows, update);
    forall j | 0 <= j < |n| ensures FaithfulRow(ls, root, n[j]) {
      assert FaithfulRow(ls, root, rows[j]);
      var kind :| OnServer(ls, root, rows[j].path, kind) && Match(rows[j], kind);
      assert OnServer(ls, root, n[j].path, kind) && Match(n[j], kind);
    }
  }

  /** With update no directory is done any more; without, none is undone. */
  lemma ResetListed(ls: Listing, rows: seq<Entry>, update: bool, disk: Disk)
    requires update || Listed(ls, rows, map[], {}, false)
    ensures Listed(ls, Reset(rows, update), disk, {}, update)
  {
    var n := Reset(rows, update);
    forall j | 0 <= j < |n| ensures ListedOk(ls, n[j], n, disk, {}, update) {
      if n[j].isDir && n[j].state.Done? {
        assert n[j] == rows[j] && ListedOk(ls, rows[j], rows, map[], {}, false);
        ResetCovered(rows, n[j].path, ls(n[j].path), disk);
      }
    }
  }

  lemma ResetKeeps(ls: Listing, root: Path, rows: seq<Entry>, update: bool, disk: Disk, universe: set<Path>)
    requires Tree(root, rows) && Within(rows, universe)
    ensures var n := Reset(rows, update);
      && Tree(root, n) && NoErrors(n) && Within(n, universe)
      && (Faithful(ls, root, rows) ==> Faithful(ls, root, n))
      && (update || Listed(ls, rows, map[], {}, false) ==> Listed(ls, n, disk, {}, update))
  {
    ResetTree(root, rows, update);
    if Faithful(ls, root, rows) { ResetFaithful(ls, root, rows, update); }
    if update || Listed(ls, rows, map[], {}, false) { ResetListed(ls, rows, update, disk); }
  }

  lemma ResetCovered(rows: seq<Entry>, d: Path, items: seq<Item>, disk: Disk)
    requires Covered(rows, d, items, map[], {}, false)
    ensures Covered(Reset(rows, false), d, items, disk, {}, false)
  {
    var n := Reset(rows, false);
    forall k | 0 <= k < |items| ensures ItemOk(n, d, items[k], disk, {}, false) {
      var it := items[k];
      assert ItemOk(rows, d, it, map[], {}, false);
      if Usable(it) && !it.kind.Link? {
        var j :| 0 <= j < |rows| && RowOk(rows[j], d + [it.name], it.kind, map[], {}, false);
        assert RowOk(n[j], d + [it.name], it.kind, disk, {}, false);
      }
    }
  }

  lemma RootOnRecord(root: Path, rows: seq<Entry>)
    requires Tree(root, rows) && rows != []
    ensures Has(rows, root)
  {
    assert rows[0].path == root;
  }

  lemma RootSettled(ls: Listing, root: Path, rows: seq<Entry>)
    requires |rows| == 1 && rows[0].path == root && rows[0].isDir && rows[0].state.Pending?
    ensures Faithful(ls, root, rows) && Listed(ls, rows, map[], {}, false)
  {
    assert OnServer(ls, root, root, Folder);
  }

  lemma FitsUniverse(rows: seq<Entry>, universe: set<Path>)
    requires Unique(rows) && Within(rows, universe)
    ensures |rows| <= |universe|
  {
    DistinctFit(rows, (r: Entry) => r.path, universe);
  }

  /** What Reflects says of files and of folders. */
  lemma ReflectsTells(ls: Listing, root: Path, rows: seq<Entry>, disk: Disk, fetched: set<Path>, check: bool)
    requires Reflects(ls, root, rows, disk, fetched, check)
    ensures forall p, size, mtime :: OnServer(ls, root, p, File(size, mtime)) ==>
              || (exists r :: r in rows && r.state.Failed? && r.path <= p)
              || (Entry(p, false, size, mtime, Done) in rows
                  && (check ==> p in fetched || (p in disk && (size < 0 || disk[p] == size))))
    ensures forall p :: OnServer(ls, root, p, Folder) ==>
              || (exists r :: r in rows && r.state.Failed? && r.path <= p)
              || (exists r :: r in rows && r.path == p && r.isDir && r.state.Done?)
  {
    hide OnServer;
    forall p, size, mtime | OnServer(ls, root, p, File(size, mtime)) && !RefusedAbove(rows, p)
      ensures Entry(p, false, size, mtime, Done) in rows
      ensures check ==> p in fetched || (p in disk && (size < 0 || disk[p] == size))
    {
      assert Held(rows, p, File(size, mtime), disk, fetched, check);
      var j :| 0 <= j < |rows| && rows[j].state.Done? && RowOk(rows[j], p, File(size, mtime), disk, fetched, check);
      assert rows[j] == Entry(p, false, size, mtime, Done);
    }
    forall p | OnServer(ls, root, p, Folder) && !RefusedAbove(rows, p)
      ensures exists r :: r in rows && r.path == p && r.isDir && r.state.Done?
    {
      assert Held(rows, p, Folder, disk, fetched, check);
    }
  }

  lemma FaithfulTells(ls: Listing, root: Path, rows: seq<Entry>)
    requires Faithful(ls, root, rows)
    ensures forall r :: r in rows ==> OnServer(ls, root, r.path, if r.isDir then Folder else File(r.size, r.mtime))
  {
    forall j | 0 <= j < |rows|
      ensures OnServer(ls, root, rows[j].path, if rows[j].isDir then Folder else File(rows[j].size, rows[j].mtime))
    {
      assert FaithfulRow(ls, root, rows[j]);
    }
  }

  class Crawler {
    const root: Path
    var rows: seq<Entry>
    var disk: Disk
    var errors: nat
    ghost var fetched: set<Path>     // downloaded in this run
    ghost var tries: nat             // attempts made so far
    const entered: bool              // the server takes the start path for a directory
    const steady: bool               // nothing fails or is refused, and nothing cuts a run off

    constructor (root: Path, entered: bool, disk: Disk, steady: bool)
      ensures this.root == root && this.entered == entered && rows == [] && this.disk == disk && this.steady == steady
    {
      this.entered, this.steady := entered, steady;
      this.root, rows, this.disk, errors, fetched, tries := root, [], disk, 0, {}, 0;
    }

    method Upsert(update: bool, p: Path, isDir: bool, size: int, mtime: int) returns (alive: bool)
      requires Unique(rows)
      modifies this`rows
      ensures rows == if alive then Upserted(old(rows), disk, update, Entry(p, isDir, size, mtime, Pending)) else old(rows)
      ensures alive && (forall j :: 0 <= j < |old(rows)| ==> old(rows)[j].path != p) ==>
                rows == old(rows) + [Entry(p, isDir, size, mtime, Pending)]
      ensures !update && (exists j :: 0 <= j < |old(rows)| && old(rows)[j].path == p) ==> rows == old(rows)
      // a known entry is requeued if anything listed has changed, or if the local file is
      // gone or not of the size listed
      ensures alive && update ==> |rows| >= |old(rows)| && forall j :: 0 <= j < |old(rows)| ==>
                var r := old(rows)[j];
                rows[j] == if r.path == p && (r.isDir != isDir || r.size != size || r.mtime != mtime
                                              || (!isDir && (p !in disk || (size >= 0 && disk[p] != size))))
                           then Entry(p, isDir, size, mtime, Pending) else r
      ensures steady ==> alive
    {
      if !steady { if * { return false; } }
      alive := true;
      if !Has(rows, p) {
        rows := rows + [Entry(p, isDir, size, mtime, Pending)];
        return;
      }
      if !update { return; }
      var i := Find(rows, p);
      var changed := isDir != rows[i].isDir || size != rows[i].size || mtime != rows[i].mtime;
      if !isDir && !changed {
        if p !in disk || (size >= 0 && disk[p] != size) { changed := true; }
      }
      if changed { rows := rows[i := Entry(p, isDir, size, mtime, Pending)]; }
    }

    /** One item of a listing. */
    method RecordItem(i: nat, it: Item, update: bool) returns (alive: bool)
      requires i < |rows| && Unique(rows)
      modifies this`rows, this`disk
      ensures Later(old(disk), fetched, disk, fetched)
      ensures it.name in {"", ".", ".."} || '/' in it.name || it.kind.Link? ==> alive && rows == old(rows)
      ensures var child := old(rows)[i].path + [it.name];
        alive && it.name !in {"", ".", ".."} && '/' !in it.name && !it.kind.Link?
        && (forall j :: 0 <= j < |old(rows)| ==> old(rows)[j].path != child) ==>
          rows == old(rows) + [if it.kind.Folder? then Entry(child, true, -1, 0, Pending)
                               else Entry(child, false, it.kind.size, it.kind.mtime, Pending)]
      ensures if alive && Usable(it) && !it.kind.Link?
              then disk == old(disk) && rows == Upserted(old(rows), disk, update, EntryOf(old(rows)[i].path + [it.name], it.kind))
              else rows == old(rows)
      ensures steady ==> alive
    {
      alive := true;
      if !Usable(it) { return; }
      var child := rows[i].path + [it.name];
      match it.kind {
        case Link =>
          // a symbolic link is recreated if nothing has its name; failing to is no failure
          var size: nat := *;
          if child !in disk { if * { disk := disk[child := size]; } }
        case Folder =>
          alive := Upsert(update, child, true, -1, 0);
        case File(size, mtime) =>
          alive := Upsert(update, child, false, size, mtime);
      }
    }

    /** One item, recorded in its directory's listing. */
    method RecordNext(ls: Listing, i: nat, d: Path, k: nat, update: bool, ghost universe: set<Path>, ghost ready: bool)
      returns (alive: bool)
      requires Tree(root, rows) && i < |rows| && rows[i].isDir && rows[i].path == d && DistinctIn(ls(d)) && k < |ls(d)|
      requires Within(rows, universe) && Closed(ls, universe) && (ready ==> update || Faithful(ls, root, rows))
      requires ready ==> Covered(rows, d, ls(d)[..k], disk, fetched, update)
      modifies this`rows, this`disk
      ensures Tree(root, rows) && Within(rows, universe) && Later(old(disk), fetched, disk, fetched)
      ensures Evolved(old(rows), rows, d) && i < |rows| && rows[i] == old(rows)[i]
      ensures old(Faithful(ls, root, rows)) ==> Faithful(ls, root, rows)
      ensures alive && ready ==> Covered(rows, d, ls(d)[..k + 1], disk, fetched, update)
      ensures steady ==> alive
    {
      ghost var before, disk0 := rows, disk;
      var it := ls(d)[k];
      if Usable(it) && !it.kind.Link? {
        ItemRecorded(ls, root, rows, disk, fetched, update, i, it, universe);
      }
      EvolvedSelf(rows, d);
      hide Tree, Within, Evolved, Faithful, Covered, Upserted, ItemOk, Closed;
      alive := RecordItem(i, it, update);
      EvolvedAhead(root, before, rows, i);
      if alive && ready { CoveredNext(before, rows, d, ls(d), k, disk0, disk, fetched, update); }
    }

    /** The loop over a listing. */
    method RecordItems(ls: Listing, i: nat, update: bool, ghost universe: set<Path>) returns (alive: bool)
      requires Tree(root, rows) && i < |rows| && rows[i].isDir && DistinctIn(ls(rows[i].path))
      requires Within(rows, universe) && Closed(ls, universe)
      modifies this`rows, this`disk
      ensures Tree(root, rows) && Within(rows, universe) && Later(old(disk), fetched, disk, fetched)
      ensures Evolved(old(rows), rows, old(rows)[i].path)
      ensures old(Faithful(ls, root, rows)) ==> Faithful(ls, root, rows)
      ensures alive && (update || old(Faithful(ls, root, rows))) ==>
                Covered(rows, old(rows)[i].path, ls(old(rows)[i].path), disk, fetched, update)
      ensures steady ==> alive
    {
      var d := rows[i].path;
      var items := ls(d);
      ghost var ready := update || Faithful(ls, root, rows);
      var k := 0;
      alive := true;
      EvolvedSelf(rows, d);
      assert Covered(rows, d, items[..0], disk, fetched, update);
      hide Tree, Within, Evolved, Faithful, Covered, DistinctIn, Closed;
      while k < |items|
        invariant k <= |items| && alive && i < |rows| && rows[i].isDir && rows[i].path == d
        invariant Tree(root, rows) && Within(rows, universe) && Later(old(disk), fetched, disk, fetched)
        invariant Evolved(old(rows), rows, d)
        invariant old(Faithful(ls, root, rows)) ==> Faithful(ls, root, rows)
        invariant ready ==> Covered(rows, d, items[..k], disk, fetched, update)
      {
        ghost var before, disk0 := rows, disk;
        alive := RecordNext(ls, i, d, k, update, universe, ready);
        LaterTrans(old(disk), disk0, disk, fetched);
        EvolvedTrans(old(rows), before, rows, d);
        if !alive { return; }
        k := k + 1;
      }
      assert items[..|items|] == items;
    }

    method MakeDirs(p: Path) returns (ok: bool)
      modifies this`disk
      ensures Later(old(disk), fetched, disk, fetched) && (steady ==> ok)
    {
      if !steady { if * { return false; } }
      var size: nat := *;
      disk := WithDirs(disk, p, size);
      ok := true;
    }

    /** listDir. A listing that cannot be had changes nothing. */
    method ListDir(ls: Listing, i: nat, update: bool, ghost universe: set<Path>) returns (a: Attempt)
      requires Tree(root, rows) && i < |rows| && rows[i].isDir && DistinctIn(ls(rows[i].path))
      requires Within(rows, universe) && Closed(ls, universe)
      modifies this`rows, this`disk
      ensures Tree(root, rows) && Within(rows, universe) && Later(old(disk), fetched, disk, fetched)
      ensures Evolved(old(rows), rows, old(rows)[i].path)
      ensures old(Faithful(ls, root, rows)) ==> Faithful(ls, root, rows)
      ensures a == Handled && (update || old(Faithful(ls, root, rows))) ==>
                Covered(rows, old(rows)[i].path, ls(old(rows)[i].path), disk, fetched, update)
      ensures steady ==> a == Handled
    {
      if !steady {
        if * { return Permanent; }                 // a 5xx reply
        if * { return Transient; }                 // any other failure
      }
      var ok := MakeDirs(rows[i].path);
      if !ok { return Local; }
      ghost var disk0 := disk;
      var alive := RecordItems(ls, i, update, universe);
      LaterTrans(old(disk), disk0, disk, fetched);
      a := if alive then Handled else Cut;
    }

    /** download, as far as the crawl is concerned: the bytes are the subject of
        FtpDownload. Only a transfer of at least the listed size succeeds. */
    method Download(i: nat) returns (a: Attempt)
      requires i < |rows|
      modifies this`disk, this`fetched
      ensures Later(old(disk), old(fetched), disk, fetched)
      ensures fetched == old(fetched) + if a == Handled then {rows[i].path} else {}
      ensures a == Handled ==> rows[i].path in disk && disk[rows[i].path] >= rows[i].size
      ensures steady ==> a == Handled
    {
      if !steady { if * { return Local; } }        // the file's name or place cannot be used
      var ok := MakeDirs(Above(rows[i].path));
      if !ok { return Local; }
      if !steady { if * { return Permanent; } }
      var least: nat := if steady && rows[i].size > 0 then rows[i].size else 0;
      assert least >= least;
      var got: nat :| got >= least;
      if got < rows[i].size { return Transient; }
      if !steady {
        if * { return Transient; }
        if * { return Local; }                     // the rename
      }
      disk := disk[rows[i].path := got];
      fetched := fetched + {rows[i].path};
      a := Handled;
    }

    /** What an attempt that succeeded has achieved for row i. */
    ghost predicate Achieved(ls: Listing, i: nat, check: bool)
      requires i < |rows|
      reads this
    {
      if rows[i].isDir then Covered(rows, rows[i].path, ls(rows[i].path), disk, fetched, check) else rows[i].path in fetched
    }

    /** One attempt at an entry; a server that cannot be reached ends the run. */
    method TryEntry(ls: Listing, i: nat, update: bool, ghost universe: set<Path>) returns (a: Attempt)
      requires Tree(root, rows) && i < |rows| && Distinct(ls) && Within(rows, universe) && Closed(ls, universe)
      modifies this`rows, this`disk, this`fetched, this`tries
      ensures tries == old(tries) + 1 && (steady ==> a == Handled)
      ensures Tree(root, rows) && Within(rows, universe) && Later(old(disk), old(fetched), disk, fetched)
      ensures Evolved(old(rows), rows, old(rows)[i].path)
      ensures old(Faithful(ls, root, rows)) ==> Faithful(ls, root, rows)
      ensures i < |rows| && rows[i] == old(rows)[i]
      ensures a == Handled && !rows[i].isDir ==> rows[i].path in fetched
      ensures a == Handled && (update || old(Faithful(ls, root, rows))) ==> Achieved(ls, i, update)
    {
      tries := tries + 1;
      if !steady { if * { return Cut; } }
      EvolvedSelf(rows, rows[i].path);
      if rows[i].isDir {
        ghost var before := rows;
        a := ListDir(ls, i, update, universe);
        EvolvedAhead(root, before, rows, i);
      } else {
        a := Download(i);
      }
    }

    /** The database write that concludes a row. */
    method SetState(i: nat, st: State) returns (alive: bool)
      requires i < |rows|
      modifies this`rows
      ensures rows == if alive then old(rows)[i := old(rows)[i].(state := st)] else old(rows)
      ensures steady ==> alive
    {
      if !steady { if * { return false; } }
      rows := rows[i := rows[i].(state := st)];
      alive := true;
    }

    /** At most three attempts, none of which loses what other directories listed. */
    method Retry(ls: Listing, i: nat, update: bool, ghost universe: set<Path>) returns (a: Attempt)
      requires Tree(root, rows) && i < |rows| && rows[i].state.Pending? && Distinct(ls)
      requires Within(rows, universe) && Closed(ls, universe)
      modifies this`rows, this`disk, this`fetched, this`tries
      ensures tries <= old(tries) + 3 && (a == Transient ==> tries == old(tries) + 3) && (steady ==> a == Handled)
      ensures Tree(root, rows) && Within(rows, universe) && Evolved(old(rows), rows, old(rows)[i].path)
      ensures i < |rows| && rows[i] == old(rows)[i]
      ensures Later(old(disk), old(fetched), disk, fetched)
      ensures old(Faithful(ls, root, rows)) ==> Faithful(ls, root, rows)
      ensures a == Handled && !rows[i].isDir ==> rows[i].path in fetched
      ensures a == Handled && (update || old(Faithful(ls, root, rows))) ==> Achieved(ls, i, update)
    {
      ghost var ready := update || Faithful(ls, root, rows);
      var attempt := 1;
      a := TryEntry(ls, i, update, universe);
      while a == Transient && attempt < MAX_ATTEMPTS
        invariant 1 <= attempt <= MAX_ATTEMPTS && tries == old(tries) + attempt && (steady ==> a == Handled)
        invariant Tree(root, rows) && Within(rows, universe) && Evolved(old(rows), rows, old(rows)[i].path)
        invariant Later(old(disk), old(fetched), disk, fetched)
        invariant old(Faithful(ls, root, rows)) ==> Faithful(ls, root, rows)
        invariant i < |rows| && rows[i] == old(rows)[i]
        invariant a == Handled && !rows[i].isDir ==> rows[i].path in fetched
        invariant a == Handled && ready ==> Achieved(ls, i, update)
      {
        if * { return Cut; }                       // cancelled during the backoff
        ghost var before, disk0, fetched0 := rows, disk, fetched;
        a := TryEntry(ls, i, update, universe);
        EvolvedTrans(old(rows), before, rows, old(rows)[i].path);
        LaterTwice(old(disk), old(fetched), disk0, fetched0, disk, fetched);
        attempt := attempt + 1;
      }
    }

    /** The row then is done, failed or in error, unless the run was cut off; `last` is how
        the last attempt ended. */
    method Process(ls: Listing, i: nat, update: bool, ghost universe: set<Path>)
      returns (alive: bool, ghost last: Attempt)
      requires Tree(root, rows) && i < |rows| && rows[i].state.Pending? && Distinct(ls)
      requires Within(rows, universe) && Closed(ls, universe)
      modifies this`rows, this`disk, this`fetched, this`errors, this`tries
      ensures tries <= old(tries) + 3 && (last == Transient ==> tries == old(tries) + 3)
      ensures (last == Cut ==> !alive) && (steady ==> alive && last == Handled)
      ensures Tree(root, rows) && Within(rows, universe) && EvolvedBut(old(rows), rows, i)
      ensures alive ==> rows[i].state == if last == Handled then Done else if last == Permanent then Failed else Errored
      ensures alive && rows[i].state.Done? && !rows[i].isDir ==> rows[i].path in fetched
      ensures alive ==> errors == old(errors) + if rows[i].state.Errored? then 1 else 0
      ensures old(Faithful(ls, root, rows)) ==> Faithful(ls, root, rows)
      ensures old(Ready(ls, update)) ==> Ready(ls, update)
      ensures alive ==> !rows[i].state.Pending?
      ensures rows[i].state.Errored? ==> errors > 0
      ensures old(errors) <= errors
    {
      ghost var ready := Ready(ls, update);
      var a := Retry(ls, i, update, universe);
      last := a;
      if ready { ListedStays(ls, root, old(rows), rows, i, old(disk), old(fetched), disk, fetched, update); }
      if a == Cut {
        EvolvedThenState(old(rows), rows, i, Pending);
        assert rows[i := rows[i].(state := Pending)] == rows;
        return false, last;
      }
      var st := if a == Handled then Done else if a == Permanent then Failed else Errored;
      if st == Errored { errors := errors + 1; }
      alive := Conclude(ls, i, st, update, ready, old(rows), universe);
    }

    /** What a clean run needs to be complete. */
    ghost predicate Ready(ls: Listing, update: bool)
      reads this
    {
      Listed(ls, rows, disk, fetched, update) && (update || Faithful(ls, root, rows))
    }

    method Conclude(ghost ls: Listing, i: nat, st: State, ghost update: bool, ghost ready: bool, ghost first: seq<Entry>,
                    ghost universe: set<Path>)
      returns (alive: bool)
      requires Tree(root, rows) && i < |first| && Evolved(first, rows, first[i].path) && rows[i] == first[i]
      requires rows[i].state.Pending? && !st.Pending? && Within(rows, universe)
      requires ready ==> Listed(ls, rows, disk, fetched, update) && (st.Done? ==> Achieved(ls, i, update))
      modifies this`rows
      ensures Tree(root, rows) && EvolvedBut(first, rows, i)
      ensures Within(rows, universe)
      ensures old(Faithful(ls, root, rows)) ==> Faithful(ls, root, rows)
      ensures ready ==> Listed(ls, rows, disk, fetched, update)
      ensures rows[i].state == if alive then st else Pending
      ensures steady ==> alive
    {
      EvolvedThenState(first, rows, i, Pending);
      EvolvedThenState(first, rows, i, st);
      TreeStays(root, rows, i, rows[i].(state := st));
      if ready { ListedConcluded(ls, rows, i, st, disk, fetched, update); }
      if Faithful(ls, root, rows) { FaithfulConcluded(ls, root, rows, i, st); }
      alive := SetState(i, st);
    }

    /** run: pending entries in id order until none is left. What is requeued on the way
        lies ahead of lastID, so nothing pending stays behind. Only over a finite
        universe of paths can it be said to end. */
    method Run(ls: Listing, update: bool, ghost universe: set<Path>) returns (alive: bool)
      requires Tree(root, rows) && rows != [] && Distinct(ls) && Within(rows, universe) && Closed(ls, universe)
      requires errors == 0 && NoErrors(rows)
      modifies this`rows, this`disk, this`fetched, this`errors, this`tries
      ensures Tree(root, rows) && Within(rows, universe) && rows != [] && rows[0].isDir == old(rows)[0].isDir
      ensures old(Faithful(ls, root, rows)) ==> Faithful(ls, root, rows)
      ensures old(Ready(ls, update)) ==> Ready(ls, update)
      ensures alive ==> Below(rows, |rows|) && (errors == 0 ==> NoErrors(rows))
      ensures steady ==> alive && errors == 0
      ensures Below(old(rows), |old(rows)|) ==> rows == old(rows) && disk == old(disk)
    {
      hide Faithful, Ready, NoErrors, Within;
      var next := 0;                               // lastID: ids below it have been passed
      while true
        invariant Tree(root, rows) && Within(rows, universe) && rows != [] && next <= |rows|
        invariant rows[0].isDir == old(rows)[0].isDir
        invariant old(Faithful(ls, root, rows)) ==> Faithful(ls, root, rows)
        invariant old(Ready(ls, update)) ==> Ready(ls, update)
        invariant Below(rows, next) && (errors == 0 ==> NoErrors(rows)) && (steady ==> errors == 0)
        invariant Below(old(rows), |old(rows)|) ==> rows == old(rows) && disk == old(disk)
        decreases |universe| - next
      {
        if !steady { if * { return false; } }
        var i := NextOf(rows, (r: Entry) => r.state.Pending?, next);
        if i == |rows| { return true; }
        FitsUniverse(rows, universe);
        TreeInScope(root, rows, i);
        next := i + 1;
        if !(root <= rows[i].path) {
          assert false;                            // with one root there is no such row
        } else {
          ghost var before := rows;
          ghost var last: Attempt;
          alive, last := Process(ls, i, update, universe);
          EvolvedButFacts(root, before, rows, i);
          if !alive { return; }
        }
      }
    }

    /** The root's own row, unless it is there: a directory if the server enters it, else
        a file if it has a size. */
    method AddRoot() returns (alive: bool)
      requires Tree(root, rows)
      modifies this`rows
      ensures Tree(root, rows) && (alive ==> rows != []) && (steady ==> alive)
      ensures rows == old(rows) || (old(rows) == [] && exists e: Entry :: e.path == root && e.state.Pending? && rows == [e])
      ensures old(rows) == [] && rows != [] ==>
                rows[0].isDir == entered && (entered ==> rows[0].size == -1 && rows[0].mtime == 0)
    {
      if rows != [] { RootOnRecord(root, rows); }
      if Has(rows, root) { return true; }
      if !steady { if * { return false; } }        // no connection, or neither of the two
      var size, mtime: int := -1, 0;
      if !entered { size := *; mtime := *; }
      alive := Upsert(false, root, entered, size, mtime);
    }

    /** Rows come from this server, and finished directories have their listing on record. */
    ghost predicate SettledFor(ls: Listing)
      reads this`rows
    {
      rows != [] && rows[0].isDir ==> Faithful(ls, root, rows) && Listed(ls, rows, map[], {}, false)
    }

    /** One run. A clean one leaves nothing pending, and if it re-checked everything, or
        all earlier runs saw the same server, the table reflects what the server has. */
    method Mirror(ls: Listing, update: bool, ghost universe: set<Path>) returns (o: Outcome)
      requires Tree(root, rows) && Distinct(ls) && Within(rows, universe) && Closed(ls, universe) && root in universe
      modifies this
      ensures Tree(root, rows) && Within(rows, universe)
      ensures old(SettledFor(ls)) ==> SettledFor(ls)
      ensures rows != [] ==> rows[0].isDir == if old(rows) == [] then entered else old(rows)[0].isDir
      ensures o == Clean ==> rows != [] && Finished(rows)
      ensures o == Clean && rows[0].isDir && (update || old(SettledFor(ls))) ==>
                Reflects(ls, root, rows, disk, fetched, update)
      // every file on the server is done as listed, and after an update it was downloaded
      // just now or is there with the size listed, unless the server refused it
      ensures o == Clean && rows[0].isDir && (update || old(SettledFor(ls))) ==>
                forall p, size, mtime :: OnServer(ls, root, p, File(size, mtime)) ==>
                  || (exists r :: r in rows && r.state.Failed? && r.path <= p)
                  || (Entry(p, false, size, mtime, Done) in rows
                      && (update ==> p in fetched || (p in disk && (size < 0 || disk[p] == size))))
      ensures o == Clean && rows[0].isDir && (update || old(SettledFor(ls))) ==>
                forall p :: OnServer(ls, root, p, Folder) ==>
                  || (exists r :: r in rows && r.state.Failed? && r.path <= p)
                  || (exists r :: r in rows && r.path == p && r.isDir && r.state.Done?)
      ensures o == Clean ==> errors == 0 && forall j :: 0 <= j < |rows| ==> rows[j].state.Done? || rows[j].state.Failed?
      ensures (o == Partial ==> errors > 0) && (steady ==> o == Clean)
      ensures |old(rows)| == 1 && !old(rows)[0].isDir && old(rows)[0].state.Done? ==>
                rows == old(rows) && disk == old(disk)
    {
      errors, fetched := 0, {};
      var alive := AddRoot();
      if old(rows) == [] && rows != [] && rows[0].isDir { RootSettled(ls, root, rows); }
      if !alive { return Stopped; }
      hide Reflects, Listed, Faithful, Tree, Within, Distinct, Closed, OnServer;
      o := RunFromRoot(ls, update, universe);
      if o == Clean && rows[0].isDir && (update || old(SettledFor(ls))) {
        ReflectsTells(ls, root, rows, disk, fetched, update);
      }
    }

    /** The reset and the worklist. */
    method RunFromRoot(ls: Listing, update: bool, ghost universe: set<Path>) returns (o: Outcome)
      requires Tree(root, rows) && rows != [] && Distinct(ls) && Within(rows, universe) && Closed(ls, universe)
      requires errors == 0 && fetched == {}
      modifies this
      ensures Tree(root, rows) && Within(rows, universe) && rows != [] && rows[0].isDir == old(rows)[0].isDir
      ensures old(SettledFor(ls)) ==> SettledFor(ls)
      ensures o == Clean ==> Finished(rows) && errors == 0
      ensures (o == Partial ==> errors > 0) && (steady ==> o == Clean)
      ensures o == Clean && rows[0].isDir && (update || old(SettledFor(ls))) ==>
                Reflects(ls, root, rows, disk, fetched, update)
      ensures |old(rows)| == 1 && !old(rows)[0].isDir && old(rows)[0].state.Done? ==>
                rows == old(rows) && disk == old(disk)
    {
      if !steady { if * { return Stopped; } }
      ghost var ready := rows[0].isDir && (update || SettledFor(ls));
      ResetKeeps(ls, root, rows, update, disk, universe);
      rows := Reset(rows, update);
      hide Reflects, Listed, Faithful, Within, Distinct, Closed;
      var alive := Run(ls, update, universe);
      if ready { ListedUnchecked(ls, rows, disk, fetched, update); }
      if !alive { return Stopped; }
      if errors > 0 { return Partial; }
      o := Clean;
      if ready { FinishedReflects(ls, root, rows, disk, fetched, update); }
    }

    /** Any number of runs against one server, cut off anywhere or failing, with or without
        update, the local files changing in between: if the last is clean and the start
        path is a directory, everything on the server is done (and current, after an
        update) unless it or a directory above it was refused, and everything on record is
        on the server. */
    method MirrorAgainAndAgain(ls: Listing, updates: seq<bool>, ghost universe: set<Path>) returns (o: Outcome)
      requires rows == [] && updates != [] && Distinct(ls) && Closed(ls, universe) && root in universe
      modifies this
      ensures Tree(root, rows) && Within(rows, universe) && SettledFor(ls)
      ensures (o == Clean ==> rows != [] && Finished(rows)) && (rows != [] ==> rows[0].isDir == entered)
      ensures o == Clean && rows[0].isDir ==> Reflects(ls, root, rows, disk, fetched, updates[|updates| - 1])
      ensures o == Clean && rows[0].isDir ==> Faithful(ls, root, rows)
      ensures o == Clean && rows[0].isDir ==>
                forall p, size, mtime :: OnServer(ls, root, p, File(size, mtime)) ==>
                  || (exists r :: r in rows && r.state.Failed? && r.path <= p)
                  || (Entry(p, false, size, mtime, Done) in rows
                      && (updates[|updates| - 1] ==> p in fetched || (p in disk && (size < 0 || disk[p] == size))))
      ensures o == Clean && rows[0].isDir ==>
                forall p :: OnServer(ls, root, p, Folder) ==>
                  || (exists r :: r in rows && r.state.Failed? && r.path <= p)
                  || (exists r :: r in rows && r.path == p && r.isDir && r.state.Done?)
      ensures o == Clean && rows[0].isDir ==>
                forall r :: r in rows ==> OnServer(ls, root, r.path, if r.isDir then Folder else File(r.size, r.mtime))
      decreases |updates|
    {
      assert Tree(root, rows) && Within(rows, universe);
      hide Tree, Within, Finished, Reflects, Faithful, Listed, Distinct, Closed, OnServer;
      var n := |updates|;
      if n > 1 { o := MirrorAgainAndAgain(ls, updates[..n - 1], universe); }
      disk := *;
      o := Mirror(ls, updates[n - 1], universe);
      if o == Clean && rows[0].isDir { FaithfulTells(ls, root, rows); }
    }
  }
}
