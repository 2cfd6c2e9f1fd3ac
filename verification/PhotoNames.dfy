/** File names in gphotos: how a free one is found, and what a run, with any downloads
    failing and cut off anywhere, does to the index and to the files on disk. */
module PhotoNames {
  import opened Common

  type Key = string
  type Content = seq<bv8>
  type Disk = map<string, Content>

  const TMP_SUFFIX := ".gphotos-tmp"

  /* ---- candidates ---- */

  /** filepath.Ext: from the last dot of the last path element. */
  function ExtFrom(p: string, i: nat): (e: string)
    requires i <= |p|
    ensures |e| <= |p| && p[|p| - |e|..] == e
  {
    if i == 0 || p[i - 1] == '/' then ""
    else if p[i - 1] == '.' then p[i - 1..]
    else ExtFrom(p, i - 1)
  }

  function Ext(p: string): (e: string)
    ensures |e| <= |p| && p[|p| - |e|..] == e
  {
    ExtFrom(p, |p|)
  }

  function Base(p: string): string {
    p[..|p| - |Ext(p)|]
  }

  function Decimal(n: nat): (s: string)
    ensures s != ""
  {
    if n < 10 then ["0123456789"[n]] else Decimal(n / 10) + ["0123456789"[n % 10]]
  }

  /** An extension starts at the last dot of the last element, and is empty if there is none. */
  lemma {:induction false} ExtFromSpelled(p: string, i: nat)
    requires i <= |p| && '.' !in p[i..] && '/' !in p[i..]
    ensures ExtFrom(p, i) != "" ==> ExtFrom(p, i)[0] == '.' && '.' !in ExtFrom(p, i)[1..] && '/' !in ExtFrom(p, i)
    ensures ExtFrom(p, i) == "" ==> exists k :: 0 <= k <= |p| && '.' !in p[k..] && (k == 0 || p[k - 1] == '/')
  {
    if i > 0 {
      assert p[i - 1..] == [p[i - 1]] + p[i..];
      if p[i - 1] != '/' && p[i - 1] != '.' { ExtFromSpelled(p, i - 1); }
    }
  }

  lemma ExtSpelled(p: string)
    ensures p == Base(p) + Ext(p)
    ensures Ext(p) != "" ==> Ext(p)[0] == '.' && '.' !in Ext(p)[1..] && '/' !in Ext(p)
    ensures Ext(p) == "" ==> exists k :: 0 <= k <= |p| && '.' !in p[k..] && (k == 0 || p[k - 1] == '/')
  {
    ExtFromSpelled(p, |p|);
  }

  /** The number a string of digits stands for. */
  ghost function ValueOf(s: string): int {
    if s == "" then 0 else 10 * ValueOf(s[..|s| - 1]) + (s[|s| - 1] as int - '0' as int)
  }

  lemma {:induction false} DecimalSpells(n: nat)
    ensures ValueOf(Decimal(n)) == n && (forall c :: c in Decimal(n) ==> '0' <= c <= '9')
    ensures n > 0 ==> Decimal(n)[0] != '0'
  {
    var digits := "0123456789";
    assert forall d :: 0 <= d < 10 ==> digits[d] as int - '0' as int == d;
    var s := Decimal(n);
    if n < 10 {
      assert s == [digits[n]] && s[..0] == "" && ValueOf(s[..0]) == 0;
    } else {
      DecimalSpells(n / 10);
      var t := Decimal(n / 10);
      assert s == t + [digits[n % 10]] && s[..|s| - 1] == t && s[|s| - 1] == digits[n % 10] && s[0] == t[0];
    }
  }

  /** The i-th name tried for p, counting from 1. */
  function Candidate(p: string, i: nat): string
    requires i >= 1
  {
    if i == 1 then p else Base(p) + "-" + Decimal(i) + Ext(p)
  }

  lemma DigitsDiffer(a: nat, b: nat)
    requires a < 10 && b < 10 && "0123456789"[a] == "0123456789"[b]
    ensures a == b
  {}

  lemma {:induction false} DecimalInjective(a: nat, b: nat)
    requires Decimal(a) == Decimal(b)
    ensures a == b
  {
    if a >= 10 { LongerThanOne(a); }
    if b >= 10 { LongerThanOne(b); }
    if a < 10 {
      DigitsDiffer(a, b);
    } else {
      var x, y := Decimal(a / 10), Decimal(b / 10);
      assert Decimal(a)[..|Decimal(a)| - 1] == x && Decimal(b)[..|Decimal(b)| - 1] == y;
      DecimalInjective(a / 10, b / 10);
      assert Decimal(a)[|x|] == "0123456789"[a % 10] && Decimal(b)[|y|] == "0123456789"[b % 10];
      DigitsDiffer(a % 10, b % 10);
    }
  }

  lemma LongerThanOne(n: nat)
    requires n >= 10
    ensures |Decimal(n)| > 1
  {}

  /** All candidates of a name differ. */
  lemma CandidatesDiffer(p: string, i: nat, j: nat)
    requires 1 <= i < j
    ensures Candidate(p, i) != Candidate(p, j)
  {
    var base, ext := Base(p), Ext(p);
    assert p == base + ext;
    if i == 1 {
      assert |Candidate(p, j)| > |p|;
    } else if Candidate(p, i) == Candidate(p, j) {
      var a, b := Candidate(p, i), Candidate(p, j);
      assert |Decimal(i)| == |Decimal(j)|;
      assert a[|base| + 1..|base| + 1 + |Decimal(i)|] == Decimal(i);
      assert b[|base| + 1..|base| + 1 + |Decimal(j)|] == Decimal(j);
      DecimalInjective(i, j);
    }
  }

  /** If the first n candidates are all in use, at least n names are. */
  lemma TakenAreMany(p: string, used: set<string>, n: nat)
    requires forall i :: 1 <= i <= n ==> Candidate(p, i) in used
    ensures n <= |used|
  {
    var names := seq(n, i requires 0 <= i < n => Candidate(p, i + 1));
    forall i, j | 0 <= i < j < n ensures names[i] != names[j] { CandidatesDiffer(p, i + 1, j + 1); }
    Pigeonhole(names, used);
  }

  /** n is the k-th candidate of p, free while all before it are in use. */
  ghost predicate FreeAt(p: string, used: set<string>, n: string, k: nat) {
    k >= 1 && n == Candidate(p, k) && n !in used && forall j :: 1 <= j < k ==> Candidate(p, j) in used
  }

  /** The name an item gets: the first candidate free, one of the first |used| + 1. */
  ghost predicate FirstFree(p: string, used: set<string>, n: string) {
    exists k: nat :: k <= |used| + 1 && FreeAt(p, used, n, k)
  }

  /** The first of the candidates that is not in use. */
  lemma FreeFound(p: string, used: set<string>, n: string, k: nat)
    requires k >= 1 && n == Candidate(p, k) && n !in used && forall j :: 1 <= j < k ==> Candidate(p, j) in used
    ensures FirstFree(p, used, n)
  {
    TakenAreMany(p, used, k - 1);
    assert FreeAt(p, used, n, k);
  }

  /** Some candidate of p. */
  ghost predicate IsCandidate(p: string, n: string) {
    exists k: nat :: k >= 1 && n == Candidate(p, k)
  }

  lemma FirstIsCandidate(p: string, used: set<string>, n: string)
    requires FirstFree(p, used, n)
    ensures IsCandidate(p, n)
  {
    var k: nat :| k <= |used| + 1 && FreeAt(p, used, n, k);
  }

  lemma NextCandidate(p: string, i: nat)
    requires i >= 1
    ensures Candidate(p, i) == if i == 1 then p else Base(p) + "-" + Decimal(i) + Ext(p)
  {}

  lemma FirstFreeIsOne(p: string, used: set<string>, m: string, n: string)
    requires FirstFree(p, used, m) && FirstFree(p, used, n)
    ensures m == n
  {
    hide Candidate;
    var i: nat :| i <= |used| + 1 && FreeAt(p, used, m, i);
    var j: nat :| j <= |used| + 1 && FreeAt(p, used, n, j);
    assert i == j;
  }

  /* ---- the index ---- */

  type Index = map<Key, seq<string>>

  ghost predicate NoDup(names: seq<string>) {
    forall i, j :: 0 <= i < j < |names| ==> names[i] != names[j]
  }

  /** No name is listed twice, in one entry or in two. */
  ghost predicate Disjoint(index: Index) {
    && (forall k :: k in index ==> NoDup(index[k]))
    && (forall k, l, n :: k in index && l in index && k != l && n in index[k] ==> n !in index[l])
  }

  function Names(index: Index): set<string> {
    set k, n | k in index && n in index[k] :: n
  }

  ghost predicate Unclaimed(names: seq<string>, used: set<string>) {
    NoDup(names) && forall n :: n in names ==> n !in used
  }

  lemma RecordKeeps(index: Index, used: set<string>, key: Key, names: seq<string>)
    requires Disjoint(index) && Names(index) <= used && Unclaimed(names, used)
    ensures Disjoint(index[key := names])
    ensures Names(index[key := names]) <= used + (set n | n in names)
  {
    var e := index[key := names];
    forall k, l, n | k in e && l in e && k != l && n in e[k] ensures n !in e[l] {
      if k == key {
        assert n !in used && forall m :: m in index[l] ==> m in Names(index);
      } else if l == key {
        assert n in Names(index);
      }
    }
  }

  lemma AppendFresh(names: seq<string>, n: string, used: set<string>)
    requires Unclaimed(names, used) && n !in used && n !in names
    ensures Unclaimed(names + [n], used)
  {}

  /* ---- the disk ---- */

  predicate IsTmp(n: string) {
    |TMP_SUFFIX| <= |n| && n[|n| - |TMP_SUFFIX|..] == TMP_SUFFIX
  }

  /** No file that is there is lost or changed, but for temp files. */
  ghost predicate Safe(a: Disk, b: Disk) {
    forall n :: n in a && !IsTmp(n) ==> n in b && b[n] == a[n]
  }

  lemma SafeTells(a: Disk, b: Disk)
    requires Safe(a, b)
    ensures forall n :: n in a && !(|n| >= 12 && n[|n| - 12..] == ".gphotos-tmp") ==> n in b && b[n] == a[n]
  {}

  ghost predicate OnDisk(names: seq<string>, disk: Disk) {
    forall n :: n in names && !IsTmp(n) ==> n in disk
  }

  lemma OnDiskStays(names: seq<string>, a: Disk, b: Disk)
    requires OnDisk(names, a) && Safe(a, b)
    ensures OnDisk(names, b)
  {}

  datatype Step = Fine | Failed | Cut

  /** What the server says of an item: its date folder, its name (empty if unknown),
      whether it is too old, and the keys and names of a RAW group's other files if they
      can be had. */
  datatype Item = Item(key: Key, subdir: string, name: string, older: bool, companions: Option<seq<(Key, string)>>)

  function TargetName(subdir: string, resolved: string, key: Key): string {
    JoinPath(subdir, if resolved == "" then key else resolved)
  }

  /** The date folder and the name, or the key if there is no name. */
  lemma TargetSpelled(dir: Path, resolved: string, key: Key)
    requires PlainNames(dir) && PlainName(if resolved == "" then key else resolved)
    ensures TargetName(Joined(dir), resolved, key) == Joined(dir + [if resolved == "" then key else resolved])
  {
    JoinPlain(dir, [if resolved == "" then key else resolved]);
  }

  /** Items are listed newest first; the first one too old ends the run. */
  function Considered(items: seq<Item>): (n: nat)
    ensures n <= |items|
  {
    if items == [] || items[0].older then 0 else 1 + Considered(items[1..])
  }

  lemma {:induction false} ConsideredUpTo(items: seq<Item>, n: nat)
    requires n <= |items| && (forall i :: 0 <= i < n ==> !items[i].older) && (n < |items| ==> items[n].older)
    ensures Considered(items) == n
    decreases n
  {
    if n > 0 { ConsideredUpTo(items[1..], n - 1); }
  }

  /** An empty page ends the run as well. */
  function ConsideredIn(pages: seq<seq<Item>>): nat {
    if pages == [] || pages[0] == [] then 0
    else if Considered(pages[0]) < |pages[0]| then Considered(pages[0])
    else |pages[0]| + ConsideredIn(pages[1..])
  }

  lemma ConsideredFrom(pages: seq<seq<Item>>, k: nat)
    requires k < |pages|
    ensures ConsideredIn(pages[k..]) == if pages[k] == [] then 0
              else if Considered(pages[k]) < |pages[k]| then Considered(pages[k])
              else |pages[k]| + ConsideredIn(pages[k + 1..])
  {
    hide Considered;
    assert pages[k..][0] == pages[k] && pages[k..][1..] == pages[k + 1..];
  }

  /* ---- what a run keeps of an index it started with ---- */

  ghost predicate Extends(base: Index, index: Index) {
    forall k :: k in base ==> k in index && index[k] == base[k]
  }

  /** Every file listed by a new entry is on disk. */
  ghost predicate NewOnDisk(base: Index, index: Index, disk: Disk) {
    forall k :: k in index && k !in base ==> index[k] != [] && OnDisk(index[k], disk)
  }

  ghost predicate Kept(base: Index, index: Index, disk: Disk) {
    Disjoint(index) && Extends(base, index) && NewOnDisk(base, index, disk)
  }

  lemma KeptSafe(base: Index, index: Index, disk: Disk, disk': Disk)
    requires Kept(base, index, disk) && Safe(disk, disk')
    ensures Kept(base, index, disk')
  {
    forall k | k in index && k !in base ensures OnDisk(index[k], disk') { OnDiskStays(index[k], disk, disk'); }
  }

  lemma KeptRecord(base: Index, index: Index, used: set<string>, used': set<string>, disk: Disk, disk': Disk,
                   key: Key, names: seq<string>)
    requires Kept(base, index, disk) && Safe(disk, disk') && Names(index) <= used <= used' && Unclaimed(names, used)
    requires key !in base && names != [] && OnDisk(names, disk') && forall n :: n in names ==> n in used'
    ensures Kept(base, index[key := names], disk') && Names(index[key := names]) <= used'
  {
    RecordKeeps(index, used, key, names);
    KeptSafe(base, index, disk, disk');
  }

  /* ---- whose file it is ---- */

  /** Which item a file was written for. */
  type Writers = map<string, Key>

  /** The file was written for another item. */
  ghost predicate Foreign(n: string, key: Key, writers: Writers) {
    n in writers && writers[n] != key
  }

  /** What changes while files are written: with the temp files created in this run. */
  datatype Place = Place(disk: Disk, used: set<string>, writers: Writers, temps: set<string>)

  /** What the run found on disk that the index did not list, and who had written what. */
  datatype Found = Found(strays: set<string>, writers: Writers)

  /** Names in use keep their writers, but for those of temp files. */
  ghost predicate WritersStay(a: Writers, b: Writers, used: set<string>, temps: set<string>) {
    forall n :: n in used && n !in temps && n in a ==> n in b && b[n] == a[n]
  }

  /** Files appear, all written for this item; nothing that was there is lost. */
  ghost predicate Goes(a: Place, b: Place, owner: Key) {
    && a.used <= b.used && a.temps <= b.temps && Safe(a.disk, b.disk)
    && WritersStay(a.writers, b.writers, a.used, b.temps)
    && forall n :: n in a.writers && a.writers[n] == owner ==> n in b.writers && b.writers[n] == owner
  }

  lemma GoesSelf(a: Place, owner: Key)
    ensures Goes(a, a, owner)
  {}

  lemma GoesIsSafe(a: Place, b: Place, owner: Key)
    requires Goes(a, b, owner)
    ensures Safe(a.disk, b.disk)
  {}

  lemma GoesTrans(a: Place, b: Place, c: Place, owner: Key)
    requires Goes(a, b, owner) && Goes(b, c, owner)
    ensures Goes(a, c, owner)
  {}

  /** What is on disk is in use, or was found there unlisted, or is a temp file; and what
      was found there is still as it was found. */
  ghost predicate Sound(p: Place, found: Found) {
    && p.disk.Keys <= p.used + found.strays + p.temps
    && (forall n :: n in p.temps ==> IsTmp(n))
    && (forall n :: n in found.strays && n !in p.temps ==> n in p.disk)
    && (forall n, key :: n in found.strays && n !in p.temps ==>
          (Foreign(n, key, p.writers) <==> Foreign(n, key, found.writers)))
  }

  /** A temp file is created. */
  function Opened(p: Place, tmp: string, part: Content, owner: Key): Place {
    p.(disk := p.disk[tmp := part], writers := p.writers[tmp := owner], temps := p.temps + {tmp})
  }

  lemma OpenedOk(p: Place, tmp: string, part: Content, owner: Key, found: Found)
    requires IsTmp(tmp)
    ensures Goes(p, Opened(p, tmp, part, owner), owner)
    ensures Sound(p, found) ==> Sound(Opened(p, tmp, part, owner), found)
  {
    hide IsTmp;
  }

  /** A temp file is removed. */
  function Dropped(p: Place, tmp: string): Place {
    p.(disk := p.disk - {tmp})
  }

  lemma DroppedOk(p: Place, tmp: string, owner: Key, found: Found)
    requires IsTmp(tmp) && tmp in p.temps
    ensures Goes(p, Dropped(p, tmp), owner) && (Sound(p, found) ==> Sound(Dropped(p, tmp), found))
  {
    hide IsTmp;
  }

  /** A file is put in place, under a name just claimed. */
  function Landed(p: Place, n: string, whole: Content, owner: Key): Place {
    p.(disk := p.disk[n := whole], used := p.used + {n}, writers := p.writers[n := owner])
  }

  lemma LandedOk(p: Place, n: string, whole: Content, owner: Key, found: Found)
    requires n !in p.disk && n !in p.used
    ensures Goes(p, Landed(p, n, whole, owner), owner) && (Sound(p, found) ==> Sound(Landed(p, n, whole, owner), found))
  {
    hide IsTmp;
  }

  lemma UnclaimedOk(p: Place, n: string, used0: set<string>, found: Found)
    requires Sound(p, found) && n !in p.disk && p.used == used0 + {n}
    ensures Sound(p.(used := used0), found)
  {
    hide IsTmp, Foreign;
  }

  lemma ClaimedOk(p: Place, n: string, owner: Key, found: Found)
    ensures Goes(p, p.(used := p.used + {n}), owner)
    ensures Sound(p, found) ==> Sound(p.(used := p.used + {n}), found)
  {
    hide IsTmp;
  }

  /** Each of these was written for this item, or found on disk unlisted, or has the name
      of a temp file. */
  ghost predicate OwnNames(names: seq<string>, key: Key, p: Place, found: Found) {
    forall n :: n in names ==> n in found.strays || n in p.temps || (n in p.writers && p.writers[n] == key)
  }

  ghost predicate Own(base: Index, index: Index, p: Place, found: Found) {
    forall k :: k in index && k !in base ==> OwnNames(index[k], k, p, found)
  }

  lemma OwnNamesStay(names: seq<string>, key: Key, a: Place, b: Place, owner: Key, found: Found)
    requires OwnNames(names, key, a, found) && Goes(a, b, owner) && forall n :: n in names ==> n in a.used
    ensures OwnNames(names, key, b, found)
  {}

  lemma OwnStays(base: Index, index: Index, a: Place, b: Place, owner: Key, found: Found)
    requires Own(base, index, a, found) && Names(index) <= a.used && Goes(a, b, owner)
    ensures Own(base, index, b, found)
  {
    forall k | k in index && k !in base ensures OwnNames(index[k], k, b, found) {
      assert forall n :: n in index[k] ==> n in Names(index);
      hide Goes, OwnNames, Names;
      OwnNamesStay(index[k], k, a, b, owner, found);
    }
  }

  lemma GoesKeeps(names: seq<string>, key: Key, a: Place, b: Place, found: Found)
    requires OwnNames(names, key, a, found) && OnDisk(names, a.disk) && Goes(a, b, key)
    requires forall n :: n in names ==> n in a.used
    ensures OwnNames(names, key, b, found) && OnDisk(names, b.disk)
  {
    OwnNamesStay(names, key, a, b, key, found);
    OnDiskStays(names, a.disk, b.disk);
  }

  /** The file is another item's exactly if it was found and was another's then. */
  ghost predicate Inherits(n: string, key: Key, a: Place, b: Place) {
    Foreign(n, key, b.writers) <==> n in a.disk && Foreign(n, key, a.writers)
  }

  lemma OwnAnyUsed(base: Index, index: Index, p: Place, used0: set<string>, found: Found)
    requires Own(base, index, p, found)
    ensures Own(base, index, p.(used := used0), found)
  {}

  lemma StillTaken(n: nat, pool: set<string>, used: set<string>, pool': set<string>, used': set<string>)
    requires n <= |pool * used| && pool <= pool' && used <= used'
    ensures n <= |pool' * used'|
  {
    SubsetSize(pool * used, pool' * used');
  }

  lemma OwnRecord(base: Index, index: Index, p: Place, found: Found, key: Key, names: seq<string>)
    requires Own(base, index, p, found) && OwnNames(names, key, p, found)
    ensures Own(base, index[key := names], p, found)
  {}

  /** A file a new entry lists is another item's if and only if it was found on disk
      unlisted and was another item's then, temp names aside. */
  ghost predicate Told(base: Index, index: Index, p: Place, found: Found) {
    forall k, n :: k in index && k !in base && n in index[k] && n !in p.temps ==>
      (Foreign(n, k, p.writers) <==> n in found.strays && Foreign(n, k, found.writers))
  }

  lemma OwnTells(base: Index, index: Index, p: Place, found: Found)
    requires Own(base, index, p, found) && Sound(p, found)
    ensures Told(base, index, p, found)
  {
    forall k, n | k in index && k !in base && n in index[k] && n !in p.temps
      ensures Foreign(n, k, p.writers) <==> n in found.strays && Foreign(n, k, found.writers)
    {
      assert OwnNames(index[k], k, p, found);
    }
  }

  /** Some temp files may be left where they are. */
  function Swept(disk: Disk, left: set<string>): Disk {
    map n | n in disk && (!IsTmp(n) || n in left) :: disk[n]
  }

  lemma BeginsValid(index: Index, disk: Disk, writers: Writers, left: set<string>)
    requires Disjoint(index)
    ensures var disk' := Swept(disk, left);
      var found := Found(disk'.Keys - Names(index), writers);
      var p := Place(disk', Names(index), writers, {});
      && Kept(index, index, disk') && Own(index, index, p, found) && Safe(disk, disk') && Sound(p, found)
      && found.strays <= (set n | n in disk && n !in Names(index))
      && (set n | n in disk && !IsTmp(n) && n !in Names(index)) <= found.strays
  {
    hide Disjoint, Names, IsTmp;
  }

  /** Adopting a file makes one name more of these a used one. */
  lemma OneMoreTaken(pool: set<string>, used: set<string>, pool': set<string>, used': set<string>, n: string)
    requires n in pool && n !in used && pool <= pool' && used + {n} <= used'
    ensures |pool * used| + 1 <= |pool' * used'|
  {
    assert |pool * used + {n}| == |pool * used| + 1;
    SubsetSize(pool * used + {n}, pool' * used');
  }

  lemma SafeTrans(a: Disk, b: Disk, c: Disk)
    requires Safe(a, b) && Safe(b, c)
    ensures Safe(a, c)
  {}

  const VIDEO_EXTENSIONS: set<string> :=
    {".mp4", ".mov", ".avi", ".mkv", ".3gp", ".3g2", ".webm", ".m4v", ".wmv", ".mts", ".m2ts"}

  function Lower(s: string): string {
    seq(|s|, i requires 0 <= i < |s| => if 'A' <= s[i] <= 'Z' then s[i] - 'A' + 'a' else s[i])
  }

  lemma LowerSpells(s: string)
    ensures |Lower(s)| == |s|
    ensures forall i, d :: 0 <= i < |s| && 0 <= d < 26 && s[i] == "ABCDEFGHIJKLMNOPQRSTUVWXYZ"[d] ==>
              Lower(s)[i] == "abcdefghijklmnopqrstuvwxyz"[d]
    ensures forall i :: 0 <= i < |s| && !('A' <= s[i] <= 'Z') ==> Lower(s)[i] == s[i]
  {
    assert forall d :: 0 <= d < 26 ==> "ABCDEFGHIJKLMNOPQRSTUVWXYZ"[d] as int == 'A' as int + d;
    assert forall d :: 0 <= d < 26 ==> "abcdefghijklmnopqrstuvwxyz"[d] as int == 'a' as int + d;
  }

  predicate IsVideo(name: string) {
    Lower(Ext(name)) in VIDEO_EXTENSIONS
  }

  /** What became of an item's further files: the name claimed for a video's thumbnail, whether
      that was had, and the companions recorded. */
  datatype Extras = Extras(thumb: string, had: bool, more: seq<string>)

  /** Each companion, in order, has the first name free for it. */
  ghost predicate NamesOf(companions: seq<(Key, string)>, subdir: string, used: set<string>, names: seq<string>) {
    |names| == |companions| && forall j :: 0 <= j < |names| ==>
      FirstFree(NameOr(TargetName(subdir, companions[j].1, companions[j].0), companions[j].0),
                used + (set n | n in names[..j]), names[j])
  }

  lemma NamesNone(companions: seq<(Key, string)>, subdir: string, used: set<string>, names: seq<string>, first: seq<string>)
    requires names == first
    ensures NamesOf(companions[..0], subdir, used, names[|first|..]) && used == used + (set n | n in names[|first|..])
  {}

  lemma NamesNext(companions: seq<(Key, string)>, i: nat, subdir: string, used: set<string>, names: seq<string>,
                  first: seq<string>, n: string)
    requires first <= names && i < |companions| && NamesOf(companions[..i], subdir, used, names[|first|..])
    requires FirstFree(NameOr(TargetName(subdir, companions[i].1, companions[i].0), companions[i].0),
                       used + (set m | m in names[|first|..]), n)
    ensures NamesOf(companions[..i + 1], subdir, used, (names + [n])[|first|..])
    ensures used + (set m | m in (names + [n])[|first|..]) == used + (set m | m in names[|first|..]) + {n}
  {
    hide FirstFree, TargetName, NameOr;
    var before, all := names[|first|..], (names + [n])[|first|..];
    assert all == before + [n];
    forall j | 0 <= j < |all|
      ensures FirstFree(NameOr(TargetName(subdir, companions[j].1, companions[j].0), companions[j].0),
                        used + (set m | m in all[..j]), all[j])
    {
      assert all[..j] == before[..j];
      assert j < i ==> companions[..i][j] == companions[j];
    }
  }

  lemma NamesOfLength(companions: seq<(Key, string)>, subdir: string, used: set<string>, names: seq<string>)
    requires NamesOf(companions, subdir, used, names)
    ensures |names| == |companions|
  {}

  /** The names recorded for an item whose first file has just been downloaded. */
  ghost predicate Listed(it: Item, first: string, tryCompanions: bool, used: set<string>, names: seq<string>, x: Extras) {
    && names == [first] + (if x.had then [x.thumb] else []) + x.more
    && (if IsVideo(first) then FirstFree(Base(first) + ".jpg", used, x.thumb) else !x.had)
    && (x.more != [] ==>
          && tryCompanions && it.companions.Some?
          && NamesOf(it.companions.value, it.subdir, used + (if IsVideo(first) then {x.thumb} else {}), x.more))
  }

  /** Nothing that there is to be had is missing. */
  ghost predicate AllHad(it: Item, first: string, tryCompanions: bool, x: Extras) {
    && (IsVideo(first) ==> x.had)
    && (tryCompanions && it.companions.Some? ==> |x.more| == |it.companions.value|)
  }

  lemma ListedTells(it: Item, first: string, tryCompanions: bool, used: set<string>, names: seq<string>, x: Extras)
    requires Listed(it, first, tryCompanions, used, names, x)
    ensures names == [first] + (if x.had then [x.thumb] else []) + x.more
    ensures if IsVideo(first) then FirstFree(Base(first) + ".jpg", used, x.thumb) else !x.had
    ensures x.more != [] ==> tryCompanions && it.companions.Some? && |x.more| == |it.companions.value|
    ensures x.more != [] ==> forall j :: 0 <= j < |x.more| ==>
              var c := it.companions.value[j];
              FirstFree(NameOr(TargetName(it.subdir, c.1, c.0), c.0),
                        used + (if IsVideo(first) then {x.thumb} else {}) + (set n | n in x.more[..j]), x.more[j])
    ensures var e := Lower(Ext(first));
      IsVideo(first) <==> e in {".mp4", ".mov", ".avi", ".mkv", ".3gp", ".3g2", ".webm", ".m4v", ".wmv", ".mts", ".m2ts"}
    ensures AllHad(it, first, tryCompanions, x) ==>
              (IsVideo(first) ==> x.had) && (tryCompanions && it.companions.Some? ==> |x.more| == |it.companions.value|)
  {
    hide FirstFree, TargetName, NameOr, Ext, Lower;
  }

  /** The name looked for: the item's own, or its key if that is not known. */
  function Wanted(it: Item, named: bool): string {
    NameOr(TargetName(it.subdir, if named then it.name else "", it.key), it.key)
  }

  /** The entry of a new key begins with a name of an item with that key. */
  ghost predicate NamedIn(items: seq<Item>, named: bool, key: Key, names: seq<string>) {
    names != [] && exists i :: 0 <= i < |items| && items[i].key == key && IsCandidate(Wanted(items[i], named), names[0])
  }

  ghost predicate NewNamed(items: seq<Item>, named: bool, before: Index, index: Index) {
    forall k :: k in index && k !in before ==> NamedIn(items, named, k, index[k])
  }

  /** Of one of these pages, by name. */
  ghost predicate NamedOn(pages: seq<seq<Item>>, n: nat, key: Key, names: seq<string>) {
    exists p :: 0 <= p < n && p < |pages| && NamedIn(pages[p], true, key, names)
  }

  lemma PageNamed(pages: seq<seq<Item>>, n: nat, first: Index, before: Index, index: Index)
    requires n < |pages| && NewNamed(pages[n], true, before, index) && Extends(before, index)
    requires forall k :: k in before && k !in first ==> NamedOn(pages, n, k, before[k])
    ensures forall k :: k in index && k !in first ==> NamedOn(pages, n + 1, k, index[k])
  {
    hide NamedIn;
    forall k | k in index && k !in first ensures NamedOn(pages, n + 1, k, index[k]) {
      if k in before { assert NamedOn(pages, n, k, before[k]); }
    }
  }

  lemma NoneNamed(items: seq<Item>, index: Index)
    ensures forall named :: NewNamed(items, named, index, index)
  {}

  lemma OneNamed(items: seq<Item>, named: bool, first: Index, before: Index, index: Index, it: Item)
    requires NewNamed(items, named, first, before) && it in items
    requires forall k :: k in index && (k !in before || index[k] != before[k]) ==>
               k == it.key && index[k] != [] && IsCandidate(Wanted(it, named), index[k][0])
    ensures NewNamed(items, named, first, index)
  {
    hide IsCandidate, Wanted;
    forall k | k in index && k !in first ensures NamedIn(items, named, k, index[k]) {
      if k in before && index[k] == before[k] { assert NamedIn(items, named, k, before[k]); }
      else { var i :| 0 <= i < |items| && items[i] == it; }
    }
  }

  function NameOr(name: string, key: Key): string {
    if name == "" then key else name
  }

  /** Its date folder, and there its name; its key if it has none or names were not had. */
  lemma WantedSpelled(it: Item, named: bool, dir: Path)
    requires it.subdir == Joined(dir) && PlainNames(dir) && PlainName(it.key) && (it.name == "" || PlainName(it.name))
    ensures Wanted(it, named) == Joined(dir + [if named && it.name != "" then it.name else it.key])
  {
    TargetSpelled(dir, if named then it.name else "", it.key);
    SplitJoined(dir + [if named && it.name != "" then it.name else it.key]);
  }

  class Library {
    var index: Index             // in memory
    var saved: Index             // as last written out
    var used: set<string>
    var disk: Disk
    ghost var writers: Writers
    ghost var temps: set<string>     // the temp files created in this run
    var downloaded: nat
    var adopted: nat
    var alreadyHad: nat
    var skipped: nat
    ghost var base: Index            // the index the run began with
    ghost var found: Found
    const steady: bool               // no request or write fails, and nothing cuts a run off

    constructor (disk: Disk, ghost writers: Writers, steady: bool)
      ensures index == map[] && saved == map[] && this.disk == disk && this.writers == writers && this.steady == steady
    {
      this.steady := steady;
      index, saved, used, this.disk, this.writers, temps := map[], map[], {}, disk, writers, {};
      downloaded, adopted, alreadyHad, skipped := 0, 0, 0, 0;
      base, found := map[], Found({}, map[]);
    }

    ghost function View(): Place
      reads this`disk, this`used, this`writers, this`temps
    {
      Place(disk, used, writers, temps)
    }

    /** Nothing recorded involves a name claimed since `used0`. The index in memory and the
        one written out both extend the one the run began with, list no name twice, and say
        truly what is on disk and whose it is. */
    ghost predicate Recorded(used0: set<string>)
      reads this`index, this`saved, this`disk, this`used, this`writers, this`temps, this`base, this`found
    {
      && Names(index) <= used0 <= used && Kept(base, index, disk) && Own(base, index, View(), found)
      && Names(saved) <= used0 && Kept(base, saved, disk) && Own(base, saved, View(), found)
      && Sound(View(), found)
    }

    ghost predicate Valid()
      reads this`index, this`saved, this`disk, this`used, this`writers, this`temps, this`base, this`found
    {
      Recorded(used)
    }

    /** What goes on while nothing is recorded. */
    lemma StillRecorded(a: Place, index: Index, saved: Index, used0: set<string>, owner: Key)
      requires Names(index) <= used0 <= a.used && Kept(base, index, a.disk) && Own(base, index, a, found)
      requires Names(saved) <= used0 && Kept(base, saved, a.disk) && Own(base, saved, a, found)
      requires Goes(a, View(), owner) && Sound(View(), found) && index == this.index && saved == this.saved
      ensures Recorded(used0)
    {
      hide Kept, Names, Own, Sound;
      KeptSafe(base, index, a.disk, disk);
      KeptSafe(base, saved, a.disk, disk);
      OwnStays(base, index, a, View(), owner, found);
      OwnStays(base, saved, a, View(), owner, found);
    }

    /** Adoptions are of files found unlisted, or of temp files. */
    ghost predicate Accounted()
      reads this`adopted, this`used, this`temps, this`found
    {
      adopted <= |(found.strays + temps) * used|
    }

    /** resolveFilename: the first candidate not in use. If a file has that name it is
        taken to be this item's own. */
    method Resolve(name: string, key: Key) returns (final: string, alreadyOnDisk: bool, ghost k: nat)
      modifies this`used
      ensures FirstFree(NameOr(name, key), old(used), final) && final !in old(used) && used == old(used) + {final}
      ensures alreadyOnDisk <==> final in disk
      // the name itself, or with the first number from 2 on under which it is not in use
      ensures var p := if name == "" then key else name;
        && k >= 1 && final == (if k == 1 then p else Base(p) + "-" + Decimal(k) + Ext(p))
        && forall j :: 1 <= j < k ==> (if j == 1 then p else Base(p) + "-" + Decimal(j) + Ext(p)) in old(used)
      ensures old(Sound(View(), found)) ==> Sound(View(), found) && (alreadyOnDisk ==> final in found.strays + temps)
      ensures forall owner :: Goes(old(View()), View(), owner)
    {
      hide Candidate, FirstFree, Ext, Base;
      var p := if name == "" then key else name;
      var ext := Ext(p);
      var base := Base(p);
      final := p;
      var i := 2;
      NextCandidate(p, 1);
      while final in used
        invariant i >= 2 && final == Candidate(p, i - 1) && used == old(used)
        invariant forall j :: 1 <= j < i - 1 ==> Candidate(p, j) in used
        decreases |used| + 2 - i
      {
        TakenAreMany(p, used, i - 1);
        NextCandidate(p, i);
        final := base + "-" + Decimal(i) + ext;
        i := i + 1;
      }
      k := i - 1;
      FreeFound(p, used, final, k);
      NextCandidate(p, k);
      forall j | 1 <= j < k ensures (if j == 1 then p else Base(p) + "-" + Decimal(j) + Ext(p)) in used {
        NextCandidate(p, j);
      }
      alreadyOnDisk := final in disk;
      used := used + {final};
    }

    /** writeAtomically: a temp file, renamed when complete. It is removed if writing it
        fails, but stays if renaming it does. */
    method Write(filename: string, ghost owner: Key, ghost used0: set<string>) returns (r: Step)
      requires filename !in disk && filename !in used0 && used == used0 + {filename}
      requires Sound(View(), found)
      modifies this`disk, this`writers, this`temps
      ensures Goes(old(View()).(used := used0), View(), owner) && Sound(View(), found)
      ensures temps <= old(temps) + {filename + ".gphotos-tmp"}
      ensures r == Fine ==> filename in writers && writers[filename] == owner
      ensures (filename in disk <==> r == Fine) && (steady ==> r == Fine)
    {
      hide Goes, Sound, IsTmp;
      var tmp := filename + TMP_SUFFIX;
      IsTemp(filename);
      ghost var p0 := View().(used := used0);
      UnclaimedOk(View(), filename, used0, found);
      GoesSelf(p0, owner);
      ClaimedOk(p0, filename, owner, found);
      if !steady {
        if * { return Failed; }                    // no directory, or the request failed
        if * { return Cut; }
      }
      var part: Content := *;
      ghost var p1 := Opened(p0, tmp, part, owner);
      OpenedOk(p0, tmp, part, owner, found);
      ClaimedOk(p1, filename, owner, found);
      GoesTrans(p0, p1, p1.(used := used), owner);
      disk, writers, temps := disk[tmp := part], writers[tmp := owner], temps + {tmp};
      if !steady {
        if * { return Cut; }
        if * { return Failed; }                    // the rename
      }
      disk := disk - {tmp};
      ghost var p2 := Dropped(p1, tmp);
      DroppedOk(p1, tmp, owner, found);
      GoesTrans(p0, p1, p2, owner);
      ClaimedOk(p2, filename, owner, found);
      GoesTrans(p0, p2, p2.(used := used), owner);
      if !steady { if * { return Failed; } }       // the writing
      var whole: Content := *;
      LandedOk(p2, filename, whole, owner, found);
      GoesTrans(p0, p2, Landed(p2, filename, whole, owner), owner);
      disk, writers := disk[filename := whole], writers[filename := owner];
      r := Fine;
    }

    /** A further file of an item: its name is claimed whether or not it can be had. Like
        any file it is taken as found if its name is found on disk. */
    method Fetch(name: string, key: Key, ghost owner: Key, ghost used0: set<string>, ghost names: seq<string>)
      returns (r: Step, filename: string)
      requires used0 <= used && Unclaimed(names, used0) && (forall n :: n in names ==> n in used) && OnDisk(names, disk)
      requires Sound(View(), found) && OwnNames(names, owner, View(), found)
      modifies this`used, this`disk, this`writers, this`temps
      ensures Goes(old(View()), View(), owner) && Sound(View(), found)
      ensures Unclaimed(names + [filename], used0) && (forall n :: n in names + [filename] ==> n in used)
      ensures OnDisk(names, disk) && OwnNames(names, owner, View(), found)
      ensures r == Fine ==> OnDisk(names + [filename], disk) && OwnNames(names + [filename], owner, View(), found)
      ensures FirstFree(NameOr(name, key), old(used), filename)
      ensures filename in old(disk) ==> r == Fine && View() == old(View()).(used := used)
      ensures r == Fine ==> Inherits(filename, owner, old(View()), View())
      ensures used == old(used) + {filename} && (filename in disk <==> r == Fine) && (steady ==> r == Fine)
    {
      var alreadyOnDisk: bool;
      ghost var k: nat;
      filename, alreadyOnDisk, k := Resolve(name, key);
      AppendFresh(names, filename, used0);
      if alreadyOnDisk { return Fine, filename; }
      r := Write(filename, owner, old(used));
      GoesKeeps(names, owner, old(View()), View(), found);
    }

    /** downloadCompanions: the first failure drops them all from the record, though their
        names stay in use. */
    method FetchCompanions(companions: seq<(Key, string)>, subdir: string, ghost owner: Key, ghost used0: set<string>,
                           first: seq<string>)
      returns (r: Step, names: seq<string>)
      requires used0 <= used && Unclaimed(first, used0) && (forall n :: n in first ==> n in used) && OnDisk(first, disk)
      requires Sound(View(), found) && OwnNames(first, owner, View(), found)
      modifies this`used, this`disk, this`writers, this`temps
      ensures Goes(old(View()), View(), owner) && Sound(View(), found) && first <= names
      ensures Unclaimed(names, used0) && (forall n :: n in names ==> n in used)
      ensures OnDisk(names, disk) && OwnNames(names, owner, View(), found)
      ensures r != Fine ==> names == first
      ensures r == Fine ==> NamesOf(companions, subdir, old(used), names[|first|..])
      ensures steady ==> r == Fine
    {
      hide NamesOf, FirstFree, Goes, Sound, Unclaimed, OwnNames, OnDisk, TargetName, Inherits;
      names := first;
      var i := 0;
      GoesSelf(View(), owner);
      NamesNone(companions, subdir, used, names, first);
      while i < |companions|
        invariant i <= |companions| && used0 <= used && Goes(old(View()), View(), owner) && first <= names
        invariant Unclaimed(names, used0) && (forall n :: n in names ==> n in used) && OnDisk(names, disk)
        invariant Sound(View(), found) && OwnNames(names, owner, View(), found)
        invariant used == old(used) + (set n | n in names[|first|..])
        invariant NamesOf(companions[..i], subdir, old(used), names[|first|..])
      {
        ghost var before, names0 := View(), names;
        var filename: string;
        r, filename := Fetch(TargetName(subdir, companions[i].1, companions[i].0), companions[i].0, owner, used0, names);
        GoesTrans(old(View()), before, View(), owner);
        if r != Fine {
          GoesKeeps(first, owner, old(View()), View(), found);
          return r, first;
        }
        names := names + [filename];
        NamesNext(companions, i, subdir, old(used), names0, first, filename);
        i := i + 1;
      }
      assert companions[..i] == companions;
      r := Fine;
    }

    /** A video's thumbnail, which may be missing. */
    method FetchThumb(it: Item, first: string, ghost used0: set<string>)
      returns (r: Step, names: seq<string>, ghost thumb: string)
      requires used0 <= used && first !in used0 && first in used && OnDisk([first], disk)
      requires Sound(View(), found) && OwnNames([first], it.key, View(), found)
      modifies this`used, this`disk, this`writers, this`temps
      ensures Goes(old(View()), View(), it.key) && Sound(View(), found)
      ensures [first] <= names && Unclaimed(names, used0) && (forall n :: n in names ==> n in used)
      ensures OnDisk(names, disk) && OwnNames(names, it.key, View(), found)
      ensures r != Cut ==> names == if IsVideo(first) && thumb in disk then [first, thumb] else [first]
      ensures if IsVideo(first) then FirstFree(Base(first) + ".jpg", old(used), thumb) && used == old(used) + {thumb}
              else used == old(used) && disk == old(disk) && r == Fine
      ensures steady ==> r == Fine && (IsVideo(first) ==> thumb in disk)
    {
      names, r, thumb := [first], Fine, "";
      GoesSelf(View(), it.key);
      if IsVideo(first) {
        var filename: string;
        r, filename := Fetch(Base(first) + ".jpg", it.key, it.key, used0, names);
        thumb := filename;
        if r == Fine { names := names + [filename]; }
      }
    }

    /** An item's further files: a video's thumbnail and the RAW companions. */
    method FetchExtras(it: Item, first: string, tryCompanions: bool, ghost used0: set<string>)
      returns (r: Step, names: seq<string>, ghost x: Extras)
      requires used0 <= used && first !in used0 && first in used && OnDisk([first], disk)
      requires Sound(View(), found) && OwnNames([first], it.key, View(), found)
      modifies this`used, this`disk, this`writers, this`temps
      ensures Goes(old(View()), View(), it.key) && Sound(View(), found) && r != Failed
      ensures [first] <= names && Unclaimed(names, used0) && (forall n :: n in names ==> n in used)
      ensures OnDisk(names, disk) && OwnNames(names, it.key, View(), found)
      ensures r == Fine ==> Listed(it, first, tryCompanions, old(used), names, x)
      ensures steady ==> r == Fine && AllHad(it, first, tryCompanions, x)
    {
      hide FirstFree, NamesOf, Unclaimed, OnDisk, OwnNames, Goes, Sound, IsVideo;
      ghost var thumb: string;
      r, names, thumb := FetchThumb(it, first, used0);
      x := Extras(thumb, IsVideo(first) && thumb in disk, []);
      if r == Cut { return; }
      r := Fine;
      ghost var before, names0 := View(), names;
      if tryCompanions && it.companions.Some? {
        var more: seq<string>;
        r, more := FetchCompanions(it.companions.value, it.subdir, it.key, used0, names);
        GoesTrans(old(View()), before, View(), it.key);
        if r == Cut { return; }
        x := x.(more := more[|names|..]);
        assert more == names + x.more;
        assert before.used == old(used) + if IsVideo(first) then {x.thumb} else {};
        if r == Fine { NamesOfLength(it.companions.value, it.subdir, before.used, x.more); }
        names, r := more, Fine;
      }
    }

    /** One new item gets the first name free for it. A file found under that name is
        adopted, whoever it was written for; else the item is downloaded; in both cases it
        is recorded. If the download fails it is skipped, its name claimed all the same. */
    method OneItem(it: Item, named: bool, tryCompanions: bool) returns (r: Step, fn: string, ghost x: Extras)
      requires Valid() && Accounted() && it.key !in base
      modifies this`index, this`used, this`disk, this`writers, this`temps, this`downloaded, this`adopted, this`skipped
      ensures Valid() && Accounted() && Goes(old(View()), View(), it.key)
      ensures FirstFree(Wanted(it, named), old(used), fn)
      ensures fn in old(disk) ==>
                r == Fine && index == old(index)[it.key := [fn]] && disk == old(disk) && writers == old(writers)
      ensures adopted == old(adopted) + if fn in old(disk) then 1 else 0
      ensures r == Fine ==> it.key in index && index == old(index)[it.key := index[it.key]]
      ensures r == Fine ==> [fn] <= index[it.key] && Unclaimed(index[it.key], old(used))
      ensures r == Fine ==> Inherits(fn, it.key, old(View()), View())
      ensures r != Fine ==> index == old(index)
      ensures r == Fine ==> skipped == old(skipped) && downloaded + adopted == old(downloaded) + old(adopted) + 1
      ensures r == Failed ==> skipped == old(skipped) + 1 && downloaded == old(downloaded) && adopted == old(adopted)
      // a downloaded item is recorded with the thumbnail, which only a video has, if that was
      // had, and then with its companions if all of them were
      ensures r == Fine && fn !in old(disk) ==> index[it.key] == [fn] + (if x.had then [x.thumb] else []) + x.more
      ensures r == Fine && fn !in old(disk) ==>
                var e := Lower(Ext(fn));
                if e in {".mp4", ".mov", ".avi", ".mkv", ".3gp", ".3g2", ".webm", ".m4v", ".wmv", ".mts", ".m2ts"}
                then FirstFree(Base(fn) + ".jpg", old(used) + {fn}, x.thumb) else !x.had
      ensures r == Fine && fn !in old(disk) && x.more != [] ==>
                tryCompanions && it.companions.Some? && |x.more| == |it.companions.value|
      ensures r == Fine && fn !in old(disk) ==> forall j :: 0 <= j < |x.more| && x.more != [] ==>
                var c := it.companions.value[j];
                FirstFree(NameOr(TargetName(it.subdir, c.1, c.0), c.0),
                          old(used) + {fn} + (if IsVideo(fn) then {x.thumb} else {}) + (set n | n in x.more[..j]), x.more[j])
      ensures steady ==> r == Fine
      ensures steady && fn !in old(disk) && IsVideo(fn) ==> x.had
      ensures steady && fn !in old(disk) && tryCompanions && it.companions.Some? ==> |x.more| == |it.companions.value|
    {
      var alreadyOnDisk: bool;
      hide Valid, Recorded, Accounted, Goes, FirstFree, Wanted, Unclaimed, Listed, AllHad, IsVideo;
      x := Extras("", false, []);
      ghost var used0 := used;
      fn, alreadyOnDisk := ClaimName(it, named);
      if alreadyOnDisk {
        ClaimedOk(old(View()), fn, it.key, found);
        r := Adopt(it.key, fn, used0);
      } else {
        r, x := Download(it, fn, tryCompanions, used0);
        if r == Fine { ListedTells(it, fn, tryCompanions, used0 + {fn}, index[it.key], x); }
      }
    }

    method ClaimName(it: Item, named: bool) returns (fn: string, alreadyOnDisk: bool)
      requires Valid() && Accounted()
      modifies this`used
      ensures Recorded(old(used))
      ensures used == old(used) + {fn} && fn !in old(used) && FirstFree(Wanted(it, named), old(used), fn)
      ensures adopted <= |(found.strays + temps) * old(used)|
      ensures alreadyOnDisk <==> fn in disk
      ensures fn in disk ==> fn in found.strays + temps
    {
      hide Kept, Names, FirstFree, Sound, Own, TargetName, Goes;
      ghost var k: nat;
      fn, alreadyOnDisk, k := Resolve(TargetName(it.subdir, if named then it.name else "", it.key), it.key);
      StillRecorded(old(View()), index, saved, old(used), it.key);
    }

    /** The file found under an item's name is taken for the item's own. */
    method Adopt(key: Key, fn: string, ghost used0: set<string>) returns (r: Step)
      requires Recorded(used0) && adopted <= |(found.strays + temps) * used0| && key !in base
      requires used == used0 + {fn} && fn !in used0 && fn in disk && fn in found.strays + temps
      modifies this`index, this`adopted
      ensures Valid() && Accounted() && r == Fine && index == old(index)[key := [fn]]
      ensures key in index && Unclaimed(index[key], used0) && adopted == old(adopted) + 1
    {
      hide Kept, Names, Own, Sound;
      SafeSelf(disk);
      KeptRecord(base, index, used0, used, disk, disk, key, [fn]);
      OwnRecord(base, index, View(), found, key, [fn]);
      OneMoreTaken(found.strays + temps, used0, found.strays + temps, used, fn);
      index, adopted, r := index[key := [fn]], adopted + 1, Fine;
    }

    method Download(it: Item, fn: string, tryCompanions: bool, ghost used0: set<string>)
      returns (r: Step, ghost x: Extras)
      requires Recorded(used0) && adopted <= |(found.strays + temps) * used0| && it.key !in base
      requires used == used0 + {fn} && fn !in used0 && fn !in disk
      modifies this`index, this`used, this`disk, this`writers, this`temps, this`downloaded, this`skipped
      ensures Valid() && Accounted() && Goes(old(View()).(used := used0), View(), it.key)
      ensures r == Fine ==> it.key in index && index == old(index)[it.key := index[it.key]]
      ensures r == Fine ==> [fn] <= index[it.key] && Unclaimed(index[it.key], used0)
      ensures r == Fine ==> fn in writers && writers[fn] == it.key
      ensures r != Fine ==> index == old(index)
      ensures r == Fine ==> skipped == old(skipped) && downloaded == old(downloaded) + 1
      ensures r == Failed ==> skipped == old(skipped) + 1 && downloaded == old(downloaded)
      ensures r == Fine ==> Listed(it, fn, tryCompanions, old(used), index[it.key], x)
      ensures steady ==> r == Fine && AllHad(it, fn, tryCompanions, x)
    {
      hide Goes, Accounted, Unclaimed, Kept, Names, Own, Sound, Listed, AllHad;
      x := Extras("", false, []);
      r := WriteFirst(it.key, fn, used0);
      if r == Fine {
        ghost var before := View();
        r, x := Complete(it, fn, tryCompanions, used0);
        GoesTrans(old(View()).(used := used0), before, View(), it.key);
      } else if r == Failed {
        skipped := skipped + 1;
      }
    }

    method WriteFirst(key: Key, fn: string, ghost used0: set<string>) returns (r: Step)
      requires Recorded(used0) && adopted <= |(found.strays + temps) * used0|
      requires used == used0 + {fn} && fn !in used0 && fn !in disk
      modifies this`disk, this`writers, this`temps
      ensures Recorded(used0) && Goes(old(View()).(used := used0), View(), key) && Accounted()
      ensures r == Fine ==> fn in disk && fn in writers && writers[fn] == key
      ensures steady ==> r == Fine
    {
      hide Kept, Names, Own, Sound;
      OwnAnyUsed(base, index, View(), used0, found);
      OwnAnyUsed(base, saved, View(), used0, found);
      r := Write(fn, key, used0);
      StillRecorded(old(View()).(used := used0), index, saved, used0, key);
      StillTaken(adopted, found.strays + old(temps), used0, found.strays + temps, used);
    }

    /** The extras and the record of an item whose first file has just been downloaded. */
    method Complete(it: Item, fn: string, tryCompanions: bool, ghost used0: set<string>)
      returns (r: Step, ghost x: Extras)
      requires Recorded(used0) && Accounted() && it.key !in base
      requires fn !in used0 && fn in used && fn in disk && fn in writers && writers[fn] == it.key
      modifies this`index, this`used, this`disk, this`writers, this`temps, this`downloaded
      ensures Valid() && Accounted() && Goes(old(View()), View(), it.key) && r != Failed
      ensures r == Fine ==> it.key in index && index == old(index)[it.key := index[it.key]]
      ensures r == Fine ==> [fn] <= index[it.key] && Unclaimed(index[it.key], used0)
      ensures r == Fine ==> fn in writers && writers[fn] == it.key
      ensures r != Fine ==> index == old(index)
      ensures downloaded == old(downloaded) + if r == Fine then 1 else 0
      ensures r == Fine ==> Listed(it, fn, tryCompanions, old(used), index[it.key], x)
      ensures steady ==> r == Fine && AllHad(it, fn, tryCompanions, x)
    {
      var names: seq<string>;
      hide Kept, Names, Own, Sound, Unclaimed, Listed, AllHad;
      r, names, x := FetchExtras(it, fn, tryCompanions, used0);
      StillRecorded(old(View()), index, saved, used0, it.key);
      StillTaken(adopted, found.strays + old(temps), old(used), found.strays + temps, used);
      if r == Cut { return; }
      SafeSelf(disk);
      KeptRecord(base, index, used0, used, disk, disk, it.key, names);
      OwnRecord(base, index, View(), found, it.key, names);
      index, downloaded := index[it.key := names], downloaded + 1;
    }

    /** save: a temp file, renamed. A failure is only logged. */
    method Save() returns (alive: bool)
      requires Valid()
      modifies this`saved
      ensures Valid() && (saved == old(saved) || saved == index) && (steady ==> alive && saved == index)
    {
      if !steady { if * { return false; } }
      alive := true;
      if !steady { if * { return; } }
      saved := index;
    }

    /** The items of a page up to the first one too old, less those the index has. */
    method Filter(items: seq<Item>) returns (newItems: seq<Item>, stop: bool)
      requires Extends(base, index)
      modifies this`alreadyHad
      ensures alreadyHad + |newItems| == old(alreadyHad) + Considered(items)
      ensures stop <==> Considered(items) < |items|
      ensures forall i :: 0 <= i < |newItems| ==>
                newItems[i].key !in base && newItems[i].key !in index && newItems[i] in items
      ensures forall i :: 0 <= i < Considered(items) ==> items[i].key in index || items[i] in newItems
    {
      newItems, stop := [], false;
      var i := 0;
      while i < |items| && !stop
        invariant i <= |items| && (stop ==> i < |items| && items[i].older)
        invariant forall k :: 0 <= k < i ==> !items[k].older
        invariant alreadyHad + |newItems| == old(alreadyHad) + i
        invariant forall k :: 0 <= k < |newItems| ==>
                    newItems[k].key !in base && newItems[k].key !in index && newItems[k] in items
        invariant forall k :: 0 <= k < i ==> items[k].key in index || items[k] in newItems
        decreases |items| - i, !stop
      {
        if items[i].older {
          stop := true;
        } else {
          if items[i].key in index { alreadyHad := alreadyHad + 1; }
          else { newItems := newItems + [items[i]]; }
          i := i + 1;
        }
      }
      ConsideredUpTo(items, i);
    }

    ghost function Handled(): nat
      reads this
    {
      downloaded + adopted + alreadyHad + skipped
    }

    lemma RecordedExtends()
      requires Valid()
      ensures Extends(base, index)
    {}

    /** An item, and the index written out after it. */
    method OneMore(it: Item, named: bool, tryCompanions: bool) returns (alive: bool)
      requires Valid() && Accounted() && it.key !in base
      modifies this`index, this`saved, this`used, this`disk, this`writers, this`temps,
               this`downloaded, this`adopted, this`skipped
      ensures Valid() && Accounted() && Safe(old(disk), disk)
      ensures alive ==> Handled() == old(Handled()) + 1
      ensures old(index).Keys <= index.Keys
      ensures forall k :: k in index && (k !in old(index) || index[k] != old(index)[k]) ==>
                k == it.key && index[k] != [] && IsCandidate(Wanted(it, named), index[k][0])
      ensures steady ==> alive && it.key in index && saved == index
    {
      hide IsCandidate, Wanted, Recorded, Safe, Accounted, FirstFree, Goes, Inherits, Unclaimed;
      ghost var before := View();
      var r, fn, x := OneItem(it, named, tryCompanions);
      GoesIsSafe(before, View(), it.key);
      FirstIsCandidate(Wanted(it, named), before.used, fn);
      if r == Cut { return false; }
      alive := true;
      if r == Fine { alive := Save(); }
    }

    /** One page of the library. */
    method OnePage(items: seq<Item>, tryCompanions: bool) returns (alive: bool, stop: bool, ghost named: bool)
      requires Valid() && Accounted()
      modifies this`index, this`saved, this`used, this`disk, this`writers, this`temps,
               this`downloaded, this`adopted, this`alreadyHad, this`skipped
      ensures Valid() && Accounted() && Safe(old(disk), disk)
      ensures alive ==> Handled() == old(Handled()) + Considered(items) && (stop <==> Considered(items) < |items|)
      ensures old(index).Keys <= index.Keys
      ensures steady ==> alive && forall i :: 0 <= i < Considered(items) ==> items[i].key in index
      ensures steady && old(saved) == old(index) ==> saved == index
      ensures NewNamed(items, named, old(index), index) && (steady ==> named) && Extends(old(index), index)
    {
      hide Valid, Recorded, Safe, Considered, Accounted, NewNamed, IsCandidate, Wanted;
      RecordedExtends();
      NoneNamed(items, index);
      var newItems: seq<Item>;
      newItems, stop := Filter(items);
      var had: bool := *;                          // the batch of names was had
      if steady { had := true; }
      named := had;
      var i := 0;
      alive := true;
      SafeSelf(disk);
      while i < |newItems|
        invariant i <= |newItems| && Valid() && Accounted() && Safe(old(disk), disk)
        invariant Handled() + |newItems| - i == old(Handled()) + Considered(items)
        invariant old(index).Keys <= index.Keys && (steady && old(saved) == old(index) ==> saved == index)
        invariant steady ==> forall j :: 0 <= j < i ==> newItems[j].key in index
        invariant NewNamed(items, named, old(index), index) && Extends(old(index), index)
      {
        ghost var disk0, index0 := disk, index;
        alive := OneMore(newItems[i], had, tryCompanions);
        OneNamed(items, named, old(index), index0, index, newItems[i]);
        SafeTrans(old(disk), disk0, disk);
        if !alive { return; }
        i := i + 1;
      }
      alive := true;
    }

    /** What a run begins with. removeStaleTempFiles may leave some where they are. */
    method Begin()
      requires Disjoint(saved)
      modifies this
      ensures Valid() && Accounted() && Safe(old(disk), disk) && Handled() == 0
      ensures saved == old(saved) && base == saved && index == saved && used == Names(saved)
      ensures temps == {} && writers == old(writers) && found.writers == old(writers)
      ensures found.strays <= (set n | n in old(disk) && n !in Names(saved))
      ensures (set n | n in old(disk) && !IsTmp(n) && n !in Names(saved)) <= found.strays
    {
      hide Kept, Own, Sound, Names, IsTmp, Safe;
      var left: set<string> := *;
      BeginsValid(saved, disk, writers, left);
      downloaded, adopted, alreadyHad, skipped := 0, 0, 0, 0;
      base, index, used, temps := saved, saved, Names(saved), {};
      disk, found := Swept(disk, left), Found(Swept(disk, left).Keys - Names(saved), writers);
    }

    /** One run, on whatever earlier ones left. At every moment, cut off or not: no name is
        in the index twice, the entries it had are as they were, every file a new entry
        lists is on disk, and no file that was there is lost or changed. A file a new entry
        lists is another item's if and only if it lay on disk unlisted when the run began
        and was another's then, temp names aside; and no more items are adopted than there
        are such strays and temp files. A run that is not cut off accounts for every item
        up to the first one too old, on the pages turned; if nothing fails, all of them are
        in the index written out. */
    method Mirror(pages: seq<seq<Item>>, tryCompanions: bool) returns (done: bool, ghost turned: nat)
      requires Disjoint(saved)
      modifies this
      ensures Disjoint(saved) && Extends(old(saved), saved) && NewOnDisk(old(saved), saved, disk)
      ensures Safe(old(disk), disk) && forall n :: n in temps ==> IsTmp(n)
      ensures forall n :: n in old(disk) && !(|n| >= 12 && n[|n| - 12..] == ".gphotos-tmp") ==>
                n in disk && disk[n] == old(disk)[n]
      ensures found.writers == old(writers) && found.strays <= (set n | n in old(disk) && n !in Names(old(saved)))
      ensures (set n | n in old(disk) && !IsTmp(n) && n !in Names(old(saved))) <= found.strays
      ensures Told(old(saved), saved, View(), found) && adopted <= |found.strays + temps|
      ensures done ==> Handled() == ConsideredIn(pages)
      ensures done ==> turned <= |pages|
      ensures done && turned < |pages| ==>
                pages[turned] == [] || (turned > 0 && Considered(pages[turned - 1]) < |pages[turned - 1]|)
      ensures done ==> forall j :: 0 <= j < turned ==>
                pages[j] != [] && (j + 1 < turned ==> Considered(pages[j]) == |pages[j]|)
      ensures steady ==> done && forall j, i :: 0 <= j < turned && 0 <= i < Considered(pages[j]) ==>
                pages[j][i].key in saved
      ensures steady ==> forall k :: k in saved && k !in old(saved) ==> NamedOn(pages, turned, k, saved[k])
    {
      hide Recorded, Safe, Considered, ConsideredIn, Disjoint, Extends, NewOnDisk, IsTmp, Accounted, Told, Names, Valid,
        NamedOn;
      Begin();
      ghost var disk0 := disk;
      done, turned := TurnPages(pages, tryCompanions);
      SafeTrans(old(disk), disk0, disk);
      Conclude();
      SafeTells(old(disk), disk);
    }

    method TurnPages(pages: seq<seq<Item>>, tryCompanions: bool) returns (done: bool, ghost turned: nat)
      requires Valid() && Accounted()
      modifies this`index, this`saved, this`used, this`disk, this`writers, this`temps,
               this`downloaded, this`adopted, this`alreadyHad, this`skipped
      ensures Valid() && Accounted() && Safe(old(disk), disk)
      ensures done ==> Handled() == old(Handled()) + ConsideredIn(pages)
      ensures turned <= |pages|
      ensures done && turned < |pages| ==>
                pages[turned] == [] || (turned > 0 && Considered(pages[turned - 1]) < |pages[turned - 1]|)
      ensures forall j :: 0 <= j < turned ==>
                pages[j] != [] && (j + 1 < turned ==> Considered(pages[j]) == |pages[j]|)
      ensures steady && old(saved) == old(index) ==>
                done && forall j, i :: 0 <= j < turned && 0 <= i < Considered(pages[j]) ==> pages[j][i].key in saved
      ensures steady && old(saved) == old(index) ==>
                forall k :: k in saved && k !in old(saved) ==> NamedOn(pages, turned, k, saved[k])
    {
      hide Valid, Recorded, Safe, Considered, Accounted, NewNamed, NamedOn, Extends;
      assert pages[0..] == pages;
      var k := 0;
      done, turned := true, 0;
      var stop := false;
      SafeSelf(disk);
      while k < |pages| && !stop && pages[k] != []
        invariant k <= |pages| && Valid() && Accounted() && Safe(old(disk), disk) && done
        invariant stop ==> k > 0 && Considered(pages[k - 1]) < |pages[k - 1]|
        invariant forall j :: 0 <= j < k ==>
                  pages[j] != [] && (j + 1 < k || !stop ==> Considered(pages[j]) == |pages[j]|)
        invariant steady && old(saved) == old(index) ==> saved == index
        invariant steady ==> forall j, i :: 0 <= j < k && 0 <= i < Considered(pages[j]) ==> pages[j][i].key in index
        invariant steady ==> forall x :: x in index && x !in old(index) ==> NamedOn(pages, k, x, index[x])
        invariant Handled() + (if stop then 0 else ConsideredIn(pages[k..])) == old(Handled()) + ConsideredIn(pages)
        decreases |pages| - k, !stop
      {
        ghost var disk0 := disk;
        ConsideredFrom(pages, k);
        ghost var named: bool;
        ghost var index0 := index;
        done, stop, named := OnePage(pages[k], tryCompanions);
        if steady { PageNamed(pages, k, old(index), index0, index); }
        SafeTrans(old(disk), disk0, disk);
        if !done { return done, k; }
        k := k + 1;
      }
      turned := k;
    }

    lemma Conclude()
      requires Valid() && Accounted()
      ensures Disjoint(saved) && Extends(base, saved) && NewOnDisk(base, saved, disk)
      ensures Told(base, saved, View(), found) && adopted <= |found.strays + temps|
      ensures forall n :: n in temps ==> IsTmp(n)
    {
      OwnTells(base, saved, View(), found);
      SubsetSize((found.strays + temps) * used, found.strays + temps);
    }
  }

  /** "a" was written for the item "v" by a run that was cut off before it saved the index.
      The item "p", of the same name, gets it as its own. */
  method WrongAdoption() returns (l: Library, r: Step)
    ensures fresh(l) && r == Fine && l.index == map["p" := ["a"]]
    ensures Foreign("a", "p", l.writers)
  {
    assert Joined([]) == "" && Joined(["a"]) == "a";
    TargetSpelled([], "a", "p");
    l := new Library(map["a" := []], map["a" := "v"], true);
    l.Begin();
    var it := Item("p", "", "a", false, None);
    var fn: string;
    ghost var x: Extras;
    assert FreeAt("a", {}, "a", 1);
    r, fn, x := l.OneItem(it, true, true);
    FirstFreeIsOne("a", {}, "a", fn);
  }

  lemma IsTemp(filename: string)
    ensures IsTmp(filename + ".gphotos-tmp") && filename + ".gphotos-tmp" != filename
  {}

  lemma SafeSelf(a: Disk)
    ensures Safe(a, a)
  {}
}
