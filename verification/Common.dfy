/** Small shared vocabulary: optional values, finite sums and pigeonhole facts. */
module Common {

  datatype Option<+T> = None | Some(value: T)

  /** The sum of all values of a finite map. */
  ghost function Sum<K>(m: map<K, nat>): nat
    decreases |m|
  {
    if m == map[] then 0
    else
      var k :| k in m;
      m[k] + Sum(m - {k})
  }

  /** Sum does not depend on the order in which keys are taken out. */
  lemma {:induction false} SumSplit<K>(m: map<K, nat>, k: K)
    requires k in m
    ensures Sum(m) == m[k] + Sum(m - {k})
    decreases |m|
  {
    var first :| first in m && Sum(m) == m[first] + Sum(m - {first});
    if first != k {
      SumSplit(m - {first}, k);
      SumSplit(m - {k}, first);
      assert m - {first} - {k} == m - {k} - {first};
    }
  }

  lemma SumUpdate<K>(m: map<K, nat>, k: K, v: nat)
    ensures Sum(m[k := v]) == v + Sum(m - {k})
    ensures k in m ==> Sum(m[k := v]) == Sum(m) - m[k] + v
  {
    SumSplit(m[k := v], k);
    assert m[k := v] - {k} == m - {k};
    if k in m { SumSplit(m, k); }
  }

  /** If every value of `a` is at most the matching value of `b`, so are the sums. */
  lemma {:induction false} SumMonotone<K>(a: map<K, nat>, b: map<K, nat>)
    requires a.Keys <= b.Keys
    requires forall k :: k in a ==> a[k] <= b[k]
    ensures Sum(a) <= Sum(b)
    decreases |a|
  {
    if a != map[] {
      var k :| k in a;
      SumSplit(a, k);
      SumSplit(b, k);
      SumMonotone(a - {k}, b - {k});
    }
  }

  /** A sequence without repetitions drawn from a finite set is no longer than the set. */
  lemma {:induction false} Pigeonhole<T>(s: seq<T>, u: set<T>)
    requires forall i :: 0 <= i < |s| ==> s[i] in u
    requires forall i, j :: 0 <= i < j < |s| ==> s[i] != s[j]
    ensures |s| <= |u|
  {
    if |s| > 0 {
      var n := |s| - 1;
      Pigeonhole(s[..n], u - {s[n]});
    }
  }

  lemma SubsetSize<T>(a: set<T>, b: set<T>)
    requires a <= b
    ensures |a| <= |b|
  {
    assert b == a + (b - a);
  }

  /** Things with distinct keys from a finite set are no more than the set. */
  lemma DistinctFit<T, K>(s: seq<T>, key: T -> K, u: set<K>)
    requires forall i :: 0 <= i < |s| ==> key(s[i]) in u
    requires forall i, j :: 0 <= i < j < |s| ==> key(s[i]) != key(s[j])
    ensures |s| <= |u|
  {
    Pigeonhole(seq(|s|, i requires 0 <= i < |s| => key(s[i])), u);
  }

  /** The first wanted element from `next` on, or the end. */
  function NextOf<T>(s: seq<T>, wanted: T -> bool, next: nat): (i: nat)
    requires next <= |s|
    ensures next <= i <= |s| && (i < |s| ==> wanted(s[i]))
    ensures forall k :: next <= k < i ==> !wanted(s[k])
    decreases |s| - next
  {
    if next == |s| || wanted(s[next]) then next else NextOf(s, wanted, next + 1)
  }

  /* ---- paths, by their components ---- */

  type Path = seq<string>

  function Prefixes(p: Path): set<Path> {
    set k | 0 <= k <= |p| :: p[..k]
  }

  function Above(p: Path): Path {
    if p == [] then [] else p[..|p| - 1]
  }

  /** MkdirAll, where it can succeed: missing directories appear. */
  function WithDirs<V>(disk: map<Path, V>, p: Path, dir: V): map<Path, V> {
    (map q | q in Prefixes(p) :: dir) + disk
  }

  /** The parts of a path between its slashes. */
  function Split(s: string): (parts: seq<string>)
    ensures parts != []
  {
    if s == "" then [""]
    else if s[0] == '/' then [""] + Split(s[1..])
    else var rest := Split(s[1..]); [[s[0]] + rest[0]] + rest[1..]
  }

  /** The components of a cleaned path. ".." undoes what is before it; at the front of a
      rooted path it is dropped, of another it stays. */
  function Cleaned(parts: seq<string>, rooted: bool): Path
    decreases |parts|
  {
    if parts == [] then []
    else
      var before, last := Cleaned(parts[..|parts| - 1], rooted), parts[|parts| - 1];
      if last == "" || last == "." then before
      else if last != ".." then before + [last]
      else if before != [] && before[|before| - 1] != ".." then before[..|before| - 1]
      else if rooted then before
      else before + [last]
  }

  function Joined(p: Path): string
    decreases |p|
  {
    if p == [] then ""
    else if |p| == 1 then p[0]
    else Joined(p[..|p| - 1]) + "/" + p[|p| - 1]
  }

  function CleanPath(s: string): string {
    var rooted := s != "" && s[0] == '/';
    var p := Cleaned(Split(s), rooted);
    if rooted then "/" + Joined(p) else if p == [] then "." else Joined(p)
  }

  /** filepath.Join: empty elements do not count. */
  function JoinPath(a: string, b: string): string {
    if a == "" && b == "" then ""
    else CleanPath(if a == "" then b else if b == "" then a else a + "/" + b)
  }

  /* ---- paths of plain names are joined as they are ---- */

  predicate PlainName(n: string) {
    n !in {"", ".", ".."} && '/' !in n
  }

  predicate PlainNames(p: Path) {
    forall i :: 0 <= i < |p| ==> PlainName(p[i])
  }

  lemma {:induction false} SplitAtSlash(s: string, t: string)
    ensures Split(s + "/" + t) == Split(s) + Split(t)
  {
    hide Split;
    var u := s + "/" + t;
    SplitStep(u);
    SplitStep(s);
    if s == "" {
      assert u[0] == '/' && u[1..] == t;
    } else {
      SplitAtSlash(s[1..], t);
      assert u[0] == s[0] && u[1..] == s[1..] + "/" + t;
      HeadOfBoth(s[0], Split(s[1..]), Split(t));
    }
  }

  lemma SplitStep(s: string)
    ensures s == "" ==> Split(s) == [""]
    ensures s != "" ==>
              var rest := Split(s[1..]); Split(s) == if s[0] == '/' then [""] + rest else [[s[0]] + rest[0]] + rest[1..]
  {}

  lemma HeadOfBoth(c: char, a: seq<string>, b: seq<string>)
    requires a != []
    ensures [[c] + (a + b)[0]] + (a + b)[1..] == [[c] + a[0]] + a[1..] + b
    ensures [""] + (a + b) == [""] + a + b
  {}

  lemma {:induction false} SplitName(n: string)
    requires '/' !in n
    ensures Split(n) == [n]
  {
    if n != "" {
      SplitName(n[1..]);
      assert [n[0]] + n[1..] == n;
    }
  }

  lemma {:induction false} SplitJoined(p: Path)
    requires PlainNames(p) && p != []
    ensures Split(Joined(p)) == p && Joined(p) != "" && Joined(p)[0] == p[0][0]
    decreases |p|
  {
    var n := |p| - 1;
    SplitName(p[n]);
    if n > 0 {
      SplitJoined(p[..n]);
      SplitAtSlash(Joined(p[..n]), p[n]);
      assert p[..n] + [p[n]] == p;
    }
  }

  lemma {:induction false} CleanedPlain(p: Path, rooted: bool)
    requires PlainNames(p)
    ensures Cleaned(p, rooted) == p
    decreases |p|
  {
    if p != [] {
      CleanedPlain(p[..|p| - 1], rooted);
      assert p[..|p| - 1] + [p[|p| - 1]] == p;
    }
  }

  lemma {:induction false} JoinedTwice(a: Path, b: Path)
    requires a != [] && b != []
    ensures Joined(a + b) == Joined(a) + "/" + Joined(b)
    decreases |b|
  {
    var n := |b| - 1;
    assert (a + b)[..|a + b| - 1] == a + b[..n];
    if n == 0 {
      assert a + b[..n] == a;
    } else {
      JoinedTwice(a, b[..n]);
    }
  }

  lemma JoinPlain(a: Path, b: Path)
    requires PlainNames(a) && PlainNames(b) && b != []
    ensures JoinPath(Joined(a), Joined(b)) == Joined(a + b)
  {
    SplitJoined(a + b);
    CleanedPlain(a + b, false);
    assert (a + b)[0][0] != '/' by { assert PlainName((a + b)[0]); }
    if a == [] {
      assert a + b == b;
    } else {
      SplitJoined(a);
      SplitJoined(b);
      JoinedTwice(a, b);
    }
  }
}
