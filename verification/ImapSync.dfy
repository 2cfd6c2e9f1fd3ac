/** One mailbox of imap, mirrored by UID into a Maildir. A run can be cut off before and
    inside any write; a server can answer in any order, and with more than was asked. */
module ImapSync {
  import opened Common

  type Uid = nat
  type Body = seq<bv8>

  /* ---- the server ---- */

  /** The messages of a mailbox, and a bound on the UIDs handed out so far. */
  datatype Box = Box(msgs: map<Uid, Body>, next: Uid)

  ghost predicate BoxOk(box: Box) {
    forall u :: u in box.msgs ==> 0 < u < box.next
  }

  /** Messages come and go, but a UID is never used again and never changes its meaning
      while UIDVALIDITY stays the same (section 2.3.1.1 of RFC 3501). */
  ghost predicate Evolves(a: Box, b: Box) {
    BoxOk(b) && a.next <= b.next && forall u :: u in b.msgs && u < a.next ==> u in a.msgs && a.msgs[u] == b.msgs[u]
  }

  /** What FETCH n:* asks for: everything from n on, and in any case the newest message
      (section 6.4.8 of RFC 3501). */
  predicate Asked(box: Box, n: Uid, u: Uid) {
    u in box.msgs && (n <= u || forall v :: v in box.msgs ==> v <= u)
  }

  /** A FETCH that ends well has sent what was asked, in any order, and nothing that is
      not in the mailbox. */
  predicate Complete(box: Box, n: Uid, answers: seq<Uid>) {
    (forall u :: u in box.msgs && Asked(box, n, u) ==> u in answers) && forall u :: u in answers ==> u in box.msgs
  }

  /** A FETCH data item; a body may come without content. */
  datatype Item = UidItem(uid: Uid) | FlagsItem(flags: set<Flag>) | BodyItem(literal: Option<Body>)

  /** The items of one message, in whatever order and number. */
  predicate Truthful(u: Uid, body: Body, items: seq<Item>) {
    forall i :: 0 <= i < |items| ==>
      match items[i]
      case UidItem(v) => v == u
      case FlagsItem(_) => true
      case BodyItem(None) => true
      case BodyItem(Some(b)) => b == body
  }

  /** Nothing amiss: a body comes, with content, and no body before a UID. */
  predicate Proper(items: seq<Item>) {
    && (exists b :: 0 <= b < |items| && items[b].BodyItem?)
    && (forall b :: 0 <= b < |items| && items[b].BodyItem? ==> items[b].literal.Some? && UidBefore(items, b))
  }

  predicate UidBefore(items: seq<Item>, n: nat) {
    exists a :: 0 <= a < n && a < |items| && items[a].UidItem?
  }

  lemma ProperExists(u: Uid, body: Body)
    ensures var items := [UidItem(u), BodyItem(Some(body))]; Truthful(u, body, items) && Proper(items)
  {
    var items := [UidItem(u), BodyItem(Some(body))];
    assert items[0].UidItem? && items[1].BodyItem?;
    assert UidBefore(items, 1);
  }

  /** All that a mailbox holds, one after another. */
  lemma {:induction false} Listed(us: set<Uid>) returns (answers: seq<Uid>)
    ensures forall u :: u in answers <==> u in us
  {
    if us == {} {
      answers := [];
    } else {
      var u :| u in us;
      var more := Listed(us - {u});
      answers := [u] + more;
    }
  }

  /* ---- flags ---- */

  datatype Flag = Draft | Flagged | Forwarded | Answered | Seen | Deleted | Keyword(name: string)

  const FLAG_CHARS: seq<(Flag, char)> :=
    [(Draft, 'D'), (Flagged, 'F'), (Forwarded, 'P'), (Answered, 'R'), (Seen, 'S'), (Deleted, 'T')]

  function Letters(flags: set<Flag>, n: nat): string
    requires n <= |FLAG_CHARS|
  {
    if n == 0 then "" else Letters(flags, n - 1) + (if FLAG_CHARS[n - 1].0 in flags then [FLAG_CHARS[n - 1].1] else [])
  }

  function FlagString(flags: set<Flag>): string {
    Letters(flags, |FLAG_CHARS|)
  }

  lemma {:induction false} LettersSpell(flags: set<Flag>, n: nat)
    requires n <= |FLAG_CHARS|
    ensures forall i, j :: 0 <= i < j < |Letters(flags, n)| ==> Letters(flags, n)[i] < Letters(flags, n)[j]
    ensures forall k :: 0 <= k < |FLAG_CHARS| ==>
              (FLAG_CHARS[k].1 in Letters(flags, n) <==> k < n && FLAG_CHARS[k].0 in flags)
    ensures forall c :: c in Letters(flags, n) ==> exists k :: 0 <= k < n && FLAG_CHARS[k].1 == c
  {
    assert forall i, j :: 0 <= i < j < |FLAG_CHARS| ==> FLAG_CHARS[i].1 < FLAG_CHARS[j].1;
    if n > 0 {
      LettersSpell(flags, n - 1);
      var before := Letters(flags, n - 1);
      forall i | 0 <= i < |before| ensures before[i] < FLAG_CHARS[n - 1].1 { assert before[i] in before; }
    }
  }

  /** The suffix of a Maildir name: the letters of the flags set, in alphabetical order. */
  lemma FlagStringSpells(flags: set<Flag>)
    ensures forall i, j :: 0 <= i < j < |FlagString(flags)| ==> FlagString(flags)[i] < FlagString(flags)[j]
    ensures forall c :: c in FlagString(flags) <==>
              || (c == 'D' && Draft in flags) || (c == 'F' && Flagged in flags) || (c == 'P' && Forwarded in flags)
              || (c == 'R' && Answered in flags) || (c == 'S' && Seen in flags) || (c == 'T' && Deleted in flags)
  {
    LettersSpell(flags, |FLAG_CHARS|);
    assert forall k :: 0 <= k < |FLAG_CHARS| ==> (FLAG_CHARS[k].1 in FlagString(flags) <==> FLAG_CHARS[k].0 in flags);
    assert FLAG_CHARS[0] == (Draft, 'D') && FLAG_CHARS[1] == (Flagged, 'F') && FLAG_CHARS[2] == (Forwarded, 'P');
    assert FLAG_CHARS[3] == (Answered, 'R') && FLAG_CHARS[4] == (Seen, 'S') && FLAG_CHARS[5] == (Deleted, 'T');
  }

  /** The flags of the last item that has any. */
  function LastFlags(items: seq<Item>): set<Flag> {
    if items == [] then {}
    else
      var n := |items| - 1;
      if items[n].FlagsItem? then items[n].flags else LastFlags(items[..n])
  }

  lemma LastFlagsNone(items: seq<Item>)
    ensures LastFlags(items[..0]) == {}
  {}

  lemma LastFlagsNext(items: seq<Item>, i: nat)
    requires i < |items|
    ensures LastFlags(items[..i + 1]) == if items[i].FlagsItem? then items[i].flags else LastFlags(items[..i])
  {
    assert items[..i + 1][..i] == items[..i];
  }

  lemma {:induction false} LastFlagsAt(items: seq<Item>, m: nat)
    requires m < |items| && items[m].FlagsItem? && forall n :: m < n < |items| ==> !items[n].FlagsItem?
    ensures LastFlags(items) == items[m].flags
    decreases |items|
  {
    if m < |items| - 1 { LastFlagsAt(items[..|items| - 1], m); }
  }

  lemma {:induction false} NoFlags(items: seq<Item>)
    requires forall m :: 0 <= m < |items| ==> !items[m].FlagsItem?
    ensures LastFlags(items) == {}
    decreases |items|
  {
    if items != [] { NoFlags(items[..|items| - 1]); }
  }

  lemma LastFlagsSpelled(items: seq<Item>)
    ensures LastFlags(items[..|items|]) == LastFlags(items)
    ensures forall m :: 0 <= m < |items| ==>
              items[m].FlagsItem? && (forall n :: m < n < |items| ==> !items[n].FlagsItem?) ==> LastFlags(items) == items[m].flags
    ensures (forall m :: 0 <= m < |items| ==> !items[m].FlagsItem?) ==> LastFlags(items) == {}
  {
    hide LastFlags;
    assert items[..|items|] == items;
    forall m | 0 <= m < |items| && items[m].FlagsItem? && forall n :: m < n < |items| ==> !items[n].FlagsItem?
      ensures LastFlags(items) == items[m].flags
    {
      LastFlagsAt(items, m);
    }
    if forall m :: 0 <= m < |items| ==> !items[m].FlagsItem? { NoFlags(items); }
  }

  /** What the server sent for one message. */
  datatype Response = Response(uid: Uid, items: seq<Item>)

  /** Every new file has the flags its message was sent with. */
  ghost predicate FlaggedAsSent(a: Cur, b: Cur, sent: seq<Response>) {
    forall k :: k in b && k !in a ==> SentAs(sent, k)
  }

  ghost predicate SentAs(sent: seq<Response>, k: (Uid, string)) {
    exists j :: 0 <= j < |sent| && sent[j].uid == k.0 && k.1 == FlagString(LastFlags(sent[j].items))
  }

  lemma SentMore(a: Cur, b: Cur, c: Cur, sent: seq<Response>, r: Response)
    requires FlaggedAsSent(a, b, sent)
    requires forall k :: k in c && k !in b ==> k == (r.uid, FlagString(LastFlags(r.items)))
    ensures FlaggedAsSent(a, c, sent + [r])
  {
    hide LastFlags, FlagString;
    forall k | k in c && k !in a ensures SentAs(sent + [r], k) {
      if k in b {
        var j :| 0 <= j < |sent| && sent[j].uid == k.0 && k.1 == FlagString(LastFlags(sent[j].items));
        assert (sent + [r])[j] == sent[j];
      } else {
        assert (sent + [r])[|sent|] == r;
      }
    }
  }

  /* ---- the local side ---- */

  type Cur = map<(Uid, string), Body>

  predicate HasUid(cur: Cur, u: Uid) {
    exists k :: k in cur && k.0 == u
  }

  /** os.WriteFile empties a file before it fills it: cut off in between, what is left
      does not parse. */
  datatype Marker = Absent | Holds(n: nat) | Garbled

  /** What is in cur/ belongs to this mailbox, and once per UID. */
  ghost predicate CurOk(box: Box, cur: Cur) {
    && (forall k :: k in cur ==> 0 < k.0 < box.next && (k.0 in box.msgs ==> cur[k] == box.msgs[k.0]))
    && (forall k, m :: k in cur && m in cur && k.0 == m.0 ==> k == m)
  }

  /** Everything on the server up to n is here. */
  ghost predicate UpTo(box: Box, cur: Cur, n: nat) {
    n < box.next && forall u :: u in box.msgs && u <= n ==> HasUid(cur, u)
  }

  /** The message has exactly one file, and that holds its body. */
  ghost predicate OneFile(cur: Cur, u: Uid, body: Body) {
    exists f :: (u, f) in cur && cur[(u, f)] == body && forall g :: (u, g) in cur ==> g == f
  }

  ghost predicate AllHere(box: Box, cur: Cur) {
    forall u :: u in box.msgs ==> OneFile(cur, u, box.msgs[u])
  }

  lemma HeldOnce(box: Box, cur: Cur, u: Uid)
    requires CurOk(box, cur) && u in box.msgs && HasUid(cur, u)
    ensures OneFile(cur, u, box.msgs[u])
  {
    var k :| k in cur && k.0 == u;
    assert k == (u, k.1);
  }

  lemma CurEvolves(a: Box, b: Box, cur: Cur, n: nat)
    requires Evolves(a, b) && CurOk(a, cur)
    ensures CurOk(b, cur) && BoxOk(b) && a.next <= b.next
    ensures UpTo(a, cur, n) ==> UpTo(b, cur, n)
  {}

  lemma NothingHere(box: Box)
    ensures CurOk(box, map[])
  {}

  /** Files only appear, each for a UID that had none. */
  ghost predicate Kept(a: Cur, b: Cur) {
    forall k :: k in a ==> k in b && b[k] == a[k]
  }

  lemma KeptTrans(a: Cur, b: Cur, c: Cur)
    requires Kept(a, b) && Kept(b, c)
    ensures Kept(a, c) && (forall w :: HasUid(b, w) ==> HasUid(c, w))
  {
    forall w | HasUid(b, w) ensures HasUid(c, w) {
      var k :| k in b && k.0 == w;
      assert k in c;
    }
  }

  /** Which of the first n answers are not here. */
  ghost function Missing(answers: seq<Uid>, n: nat, maxUid: Uid, cur: Cur): set<nat> {
    set j: nat | j < n && j < |answers| && !(answers[j] <= maxUid && HasUid(cur, answers[j]))
  }

  lemma NothingMissing(answers: seq<Uid>, maxUid: Uid, cur: Cur)
    ensures Missing(answers, 0, maxUid, cur) == {}
  {}

  lemma NoneMissing(answers: seq<Uid>, n: nat, maxUid: Uid, maxUid': Uid, a: Cur, b: Cur)
    requires n < |answers| && Missing(answers, n, maxUid, a) == {} && Kept(a, b)
    requires maxUid <= maxUid' && answers[n] <= maxUid' && HasUid(b, answers[n])
    ensures Missing(answers, n + 1, maxUid', b) == {}
  {
    KeptTrans(a, a, b);
    hide HasUid, Kept;
    forall j: nat | j < n ensures answers[j] <= maxUid && HasUid(a, answers[j]) {
      assert j !in Missing(answers, n, maxUid, a);
    }
  }

  lemma AllFetched(box: Box, first: Cur, cur: Cur, from: Uid, maxUid: Uid, answers: seq<Uid>)
    requires UpTo(box, first, from) && Kept(first, cur) && from <= maxUid && Complete(box, from + 1, answers)
    requires Missing(answers, |answers|, maxUid, cur) == {}
    ensures forall u :: u in box.msgs ==> u <= maxUid && HasUid(cur, u)
  {
    forall u | u in box.msgs ensures u <= maxUid && HasUid(cur, u) {
      if from < u {
        assert Asked(box, from + 1, u) && u in answers;
        var j: nat :| j < |answers| && answers[j] == u;
        assert j !in Missing(answers, |answers|, maxUid, cur);
      } else {
        var k :| k in first && k.0 == u;
        assert k in cur;
      }
    }
  }

  datatype Result = Synced | MarkerError | Interrupted

  class Maildir {
    var cur: Cur
    var tmp: map<Uid, Body>
    var validity: Marker             // .uidvalidity
    var last: Marker                 // .last-uid
    const steady: bool               // nothing fails, and nothing cuts a run off

    constructor (steady: bool)
      ensures cur == map[] && validity == Absent && last == Absent && this.steady == steady
    {
      this.steady := steady;
      cur, tmp, validity, last := map[], map[], Absent, Absent;
    }

    /** At every crash point: cur/ is sound, and .last-uid speaks the truth. */
    ghost predicate Valid(box: Box, v: nat)
      reads this
    {
      && BoxOk(box) && 0 < box.next && v != 0 && CurOk(box, cur)
      && (validity.Holds? ==> validity.n == v)
      && (last != Absent ==> validity != Absent)
      && (last.Holds? ==> UpTo(box, cur, last.n))
    }

    /** Both markers parse. */
    predicate Readable()
      reads this
    {
      validity != Garbled && (validity.Holds? ==> last != Garbled)
    }

    method LoadLastUid(v: nat) returns (last: Option<Uid>)
      ensures last.None? <==> validity == Garbled || (validity == Holds(v) && v != 0 && this.last == Garbled)
      ensures last.Some? ==> last.value == if validity == Holds(v) && v != 0 && this.last.Holds? then this.last.n else 0
    {
      match validity {
        case Garbled => return None;
        case Absent => return Some(0);
        case Holds(stored) =>
          if stored == 0 { return Some(0); }       // as if on a first run
          if stored != v { return Some(0); }       // the server has renumbered
          match this.last {
            case Garbled => return None;
            case Absent => return Some(0);
            case Holds(n) => return Some(n);
          }
      }
    }

    /** One FETCH response. Its file appears in cur/ under its final name or not at all. */
    method WriteMessage(ghost box: Box, ghost v: nat, ghost u: Uid, items: seq<Item>)
      returns (ok: bool, uid: Uid, ghost sent: set<Flag>)
      requires Valid(box, v) && u in box.msgs && Truthful(u, box.msgs[u], items)
      modifies this`cur, this`tmp
      ensures CurOk(box, cur)
      ensures ok ==> uid == u && HasUid(cur, u)
      ensures Kept(old(cur), cur)
      ensures forall k :: k in cur && k !in old(cur) ==> k.0 == u && !HasUid(old(cur), u) && cur[k] == box.msgs[u]
      ensures steady && Proper(items) ==> ok
      // it is filed under the flags of the last item that has any
      ensures cur != old(cur) ==> sent == LastFlags(items)
      ensures cur != old(cur) ==> forall m :: 0 <= m < |items| ==>
                items[m].FlagsItem? && (forall n :: m < n < |items| ==> !items[n].FlagsItem?) ==> sent == items[m].flags
      ensures cur != old(cur) && (forall m :: 0 <= m < |items| ==> !items[m].FlagsItem?) ==> sent == {}
      ensures forall k :: k in cur && k !in old(cur) ==> k.1 == FlagString(sent)
      ensures forall k :: k in cur && k !in old(cur) ==>
                && (forall i, j :: 0 <= i < j < |k.1| ==> k.1[i] < k.1[j])
                && (forall c :: c in k.1 <==>
                      || (c == 'D' && Draft in sent) || (c == 'F' && Flagged in sent) || (c == 'P' && Forwarded in sent)
                      || (c == 'R' && Answered in sent) || (c == 'S' && Seen in sent) || (c == 'T' && Deleted in sent))
    {
      hide LastFlags, FlagString;
      LastFlagsNone(items);
      sent := {};
      var flags: set<Flag> := {};
      var gotBody, haveIt := false, false;
      uid := 0;
      var i := 0;
      while i < |items|
        invariant i <= |items| && cur == old(cur)
        invariant uid == 0 || uid == u
        invariant haveIt ==> uid == u && HasUid(cur, u)
        invariant uid == u && !haveIt ==> !HasUid(cur, u)
        invariant gotBody ==> uid == u
        invariant gotBody && !haveIt ==> u in tmp && tmp[u] == box.msgs[u]
        invariant flags == LastFlags(items[..i])
        invariant UidBefore(items, i) ==> uid == u
        invariant forall b :: 0 <= b < i && items[b].BodyItem? ==> gotBody
      {
        if !steady { if * { return false, uid, flags; } }      // the connection broke
        assert match items[i]
               case UidItem(w) => w == u
               case FlagsItem(_) => true
               case BodyItem(None) => true
               case BodyItem(Some(b)) => b == box.msgs[u];
        match items[i] {
          case UidItem(w) =>
            uid := w;
            haveIt := HasUid(cur, uid);
          case FlagsItem(fs) =>
            flags := fs;
          case BodyItem(literal) =>
            if uid == 0 { return false, 0, flags; }       // body section arrived before UID
            gotBody := true;
            if !haveIt {
              if literal.None? { return false, uid, flags; }
              if !steady {
                if * {                             // broken off: part of a file, or none
                  var part: Body := *;
                  var kept: bool := *;
                  tmp := if kept then tmp[uid := part] else tmp - {uid};
                  return false, uid, flags;
                }
              }
              tmp := tmp[uid := literal.value];
            }
        }
        LastFlagsNext(items, i);
        i := i + 1;
      }
      LastFlagsSpelled(items);
      FlagStringSpells(flags);
      sent := flags;
      if haveIt { return true, uid, flags; }
      if !gotBody { return false, uid, flags; }
      if !steady { if * { return false, uid, flags; } }
      cur := cur[(uid, FlagString(flags)) := tmp[uid]];
      tmp := tmp - {uid};
      assert (u, FlagString(flags)) in cur;
      ok := true;
    }

    /** writeMarkers: each file is emptied, then filled; `steps` of these four steps are
        done. Markers that parse no longer do afterwards exactly if it is cut off between
        emptying a file and filling it. */
    method WriteMarkers(v: nat, lastUid: nat, steps: nat) returns (done: bool)
      modifies this`validity, this`last
      ensures done <==> steps >= 4
      ensures validity == if steps == 0 then old(validity) else if steps == 1 then Garbled else Holds(v)
      ensures last == if steps < 3 then old(last) else if steps == 3 then Garbled else Holds(lastUid)
      ensures old(Readable()) && (old(validity).Holds? || old(last) == Absent) ==> (Readable() <==> steps !in {1, 3})
    {
      if steps == 0 { return false; }
      validity := Garbled;
      if steps == 1 { return false; }
      validity := Holds(v);
      if steps == 2 { return false; }
      last := Garbled;
      if steps == 3 { return false; }
      last := Holds(lastUid);
      done := true;
    }

    /** The response for one message, whatever the server puts in it. */
    method FetchOne(box: Box, ghost v: nat, u: Uid) returns (ok: bool, uid: Uid, ghost response: Response)
      requires Valid(box, v) && u in box.msgs
      modifies this`cur, this`tmp
      ensures CurOk(box, cur) && Kept(old(cur), cur) && response.uid == u
      ensures (ok ==> uid == u && HasUid(cur, u)) && (steady ==> ok)
      ensures forall k :: k in cur && k !in old(cur) ==> k == (u, FlagString(LastFlags(response.items)))
    {
      hide LastFlags, FlagString, Proper;
      ProperExists(u, box.msgs[u]);
      var items: seq<Item> :| Truthful(u, box.msgs[u], items) && (steady ==> Proper(items));
      ghost var flags: set<Flag>;
      ok, uid, flags := WriteMessage(box, v, u, items);
      response := Response(u, items);
    }

    /** The messages asked for, in whatever order the server sends them. */
    method FetchAll(box: Box, ghost v: nat, from: Uid) returns (ok: bool, maxUid: Uid, ghost sent: seq<Response>)
      requires Valid(box, v) && from < box.next && UpTo(box, cur, from)
      modifies this`cur, this`tmp
      ensures CurOk(box, cur) && from <= maxUid < box.next && Kept(old(cur), cur)
      ensures ok ==>
                (maxUid == from || maxUid in box.msgs) && forall u :: u in box.msgs ==> u <= maxUid && HasUid(cur, u)
      ensures FlaggedAsSent(old(cur), cur, sent)
      ensures steady ==> ok
    {
      hide LastFlags, FlagString, Missing;
      sent := [];
      ghost var all := Listed(box.msgs.Keys);
      assert Complete(box, from + 1, all);
      var answers: seq<Uid> :| steady ==> Complete(box, from + 1, answers);
      maxUid := from;
      NothingMissing(answers, from, cur);
      var i := 0;
      while i < |answers|
        invariant i <= |answers| && from <= maxUid < box.next && (maxUid == from || maxUid in box.msgs)
        invariant CurOk(box, cur) && Kept(old(cur), cur) && FlaggedAsSent(old(cur), cur, sent)
        invariant Missing(answers, i, maxUid, cur) == {}
        invariant steady ==> Complete(box, from + 1, answers)
      {
        if !steady { if * { return false, maxUid, sent; } }
        assert answers[i] in answers;
        if answers[i] !in box.msgs { return false, maxUid, sent; }
        var u := answers[i];
        ghost var before := cur;
        var uid: Uid;
        ghost var response: Response;
        ok, uid, response := FetchOne(box, v, u);
        KeptTrans(old(cur), before, cur);
        SentMore(old(cur), before, cur, sent, response);
        sent := sent + [response];
        if !ok { return; }
        NoneMissing(answers, i, maxUid, if uid > maxUid then uid else maxUid, before, cur);
        if uid > maxUid { maxUid := uid; }
        i := i + 1;
      }
      if !steady { if * { return false, maxUid, sent; } }
      ok := Complete(box, from + 1, answers);
      if ok { AllFetched(box, old(cur), cur, from, maxUid, answers); }
    }

    /** One run. At whatever point it is cut off, what .last-uid says is true, and what it
        says never gets less. A run that ends well has every message of the mailbox,
        exactly once, though the newest is sent every time. */
    method MirrorMailbox(box: Box, v: nat) returns (r: Result, ghost sent: seq<Response>)
      requires Valid(box, v)
      modifies this
      ensures Valid(box, v) && Kept(old(cur), cur)
      ensures r == MarkerError <==> !old(Readable())
      ensures r == MarkerError ==> cur == old(cur) && validity == old(validity) && last == old(last)
      ensures r == Synced ==>
                last.Holds? && validity == Holds(v) && AllHere(box, cur) && forall u :: u in box.msgs ==> u <= last.n
      ensures old(last).Holds? && old(validity).Holds? ==> last == Garbled || (last.Holds? && old(last).n <= last.n)
      ensures last.Holds? ==> forall u :: u in box.msgs && u <= last.n ==> OneFile(cur, u, box.msgs[u])
      ensures r == Synced ==> forall u :: u in box.msgs ==> exists k :: k in cur && k.0 == u && cur[k] == box.msgs[u]
      ensures forall k, m :: k in cur && m in cur && k.0 == m.0 ==> k == m
      ensures FlaggedAsSent(old(cur), cur, sent)
      ensures steady ==> r == Synced || r == MarkerError
    {
      sent := [];
      ghost var cur0 := cur;
      var from := LoadLastUid(v);
      if from.None? {
        AllOnce(box, cur, last);
        return MarkerError, sent;
      }
      assert UpTo(box, cur, from.value);
      var ok: bool, maxUid: Uid;
      ok, maxUid, sent := FetchAll(box, v, from.value);
      if last.Holds? { UpToKept(box, cur0, cur, last.n); }
      if ok {
        var steps: nat := *;
        if steady { steps := 4; }
        ok := WriteMarkers(v, maxUid, steps);
      }
      r := if ok then Synced else Interrupted;
      AllOnce(box, cur, last);
    }

    /** A run for each state of a mailbox over the years, starting with nothing. If the
        last one ends well, every message then on the server is here exactly once; but
        once a run finds a marker that does not parse, no later one gets anywhere. */
    method MirrorOverTheYears(boxes: seq<Box>, v: nat) returns (results: seq<Result>)
      requires cur == map[] && validity == Absent && last == Absent && v != 0
      requires boxes != [] && BoxOk(boxes[0]) && 0 < boxes[0].next
      requires forall i :: 0 < i < |boxes| ==> Evolves(boxes[i - 1], boxes[i])
      modifies this
      ensures |results| == |boxes| && Valid(boxes[|boxes| - 1], v)
      ensures results[|boxes| - 1] == Synced ==>
                AllHere(boxes[|boxes| - 1], cur)
      ensures forall i :: 0 <= i < |results| && results[i] == MarkerError ==> !Readable()
      ensures forall i, j :: 0 <= i < j < |results| && results[i] == MarkerError ==> results[j] == MarkerError
      decreases |boxes|
    {
      hide CurOk, UpTo, AllHere, Evolves;
      var box := boxes[|boxes| - 1];
      NothingHere(box);
      results := [];
      if |boxes| > 1 {
        var before := boxes[|boxes| - 2];
        assert Evolves(before, box);
        results := MirrorOverTheYears(boxes[..|boxes| - 1], v);
        CurEvolves(before, box, cur, if last.Holds? then last.n else 0);
      }
      var r, sent := MirrorMailbox(box, v);
      results := results + [r];
    }
  }

  /** A first run finds nothing to fetch and is cut off inside the writing of a marker.
      Nothing else ever goes wrong, and yet no run on this mailbox gets anywhere again. */
  method StuckForGood(boxes: seq<Box>, v: nat, steps: nat) returns (dir: Maildir, results: seq<Result>)
    requires boxes != [] && BoxOk(boxes[0]) && 0 < boxes[0].next && v != 0 && steps in {1, 3}
    requires forall i :: 0 < i < |boxes| ==> Evolves(boxes[i - 1], boxes[i])
    ensures fresh(dir) && |results| == |boxes| && forall i :: 0 <= i < |results| ==> results[i] == MarkerError
    ensures dir.cur == map[]
  {
    dir := new Maildir(true);
    var done := dir.WriteMarkers(v, 0, steps);
    results := [];
    var k := 0;
    while k < |boxes|
      invariant k <= |boxes| && |results| == k && fresh(dir) && !dir.Readable() && dir.cur == map[]
      invariant dir.Valid(boxes[if k == 0 then 0 else k - 1], v)
      invariant forall i :: 0 <= i < k ==> results[i] == MarkerError
    {
      if k > 0 {
        assert Evolves(boxes[k - 1], boxes[k]);
        CurEvolves(boxes[k - 1], boxes[k], dir.cur, if dir.last.Holds? then dir.last.n else 0);
      }
      var r, sent := dir.MirrorMailbox(boxes[k], v);
      results := results + [r];
      k := k + 1;
    }
  }

  lemma UpToKept(box: Box, a: Cur, b: Cur, n: nat)
    requires UpTo(box, a, n) && Kept(a, b)
    ensures UpTo(box, b, n)
  {
    KeptTrans(a, a, b);
  }

  lemma AllOnce(box: Box, cur: Cur, last: Marker)
    requires CurOk(box, cur) && (last.Holds? ==> UpTo(box, cur, last.n))
    ensures last.Holds? ==> forall u :: u in box.msgs && u <= last.n ==> OneFile(cur, u, box.msgs[u])
  {
    if last.Holds? {
      forall u | u in box.msgs && u <= last.n ensures OneFile(cur, u, box.msgs[u]) { HeldOnce(box, cur, u); }
    }
  }
}
