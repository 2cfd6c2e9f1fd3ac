/** The binarycookies decoder of gphotos, against an encoder of the layout it documents.
    Times are kept as their raw eight bytes. */
module BinaryCookies {
  import opened Common

  newtype Byte = x: int | 0 <= x < 256
  type Bytes = seq<Byte>
  type U32 = x: int | 0 <= x < 0x1_0000_0000

  const MAGIC: Bytes := [0x63, 0x6f, 0x6f, 0x6b]
  const PAGE_TAG: Bytes := [0, 0, 1, 0]
  const ZEROS: Bytes := [0, 0, 0, 0]
  const HEADER := 56

  /* ---- integers ---- */

  function Le32(n: U32): Bytes {
    [(n % 256) as Byte, (n / 0x100 % 256) as Byte, (n / 0x1_0000 % 256) as Byte, (n / 0x100_0000) as Byte]
  }

  function Be32(n: U32): Bytes {
    [(n / 0x100_0000) as Byte, (n / 0x1_0000 % 256) as Byte, (n / 0x100 % 256) as Byte, (n % 256) as Byte]
  }

  function FromLe32(b: Bytes): U32
    requires |b| == 4
  {
    b[0] as int + 0x100 * b[1] as int + 0x1_0000 * b[2] as int + 0x100_0000 * b[3] as int
  }

  function FromBe32(b: Bytes): U32
    requires |b| == 4
  {
    0x100_0000 * b[0] as int + 0x1_0000 * b[1] as int + 0x100 * b[2] as int + b[3] as int
  }

  lemma IntegersRoundTrip(n: U32)
    ensures FromLe32(Le32(n)) == n && FromBe32(Be32(n)) == n
  {
    assert n / 0x100 == n / 0x1_0000 * 256 + n / 0x100 % 256;
    assert n / 0x1_0000 == n / 0x100_0000 * 256 + n / 0x1_0000 % 256;
  }

  /** The least significant byte comes first, or last. */
  lemma IntegersSpelled(a: Byte, b: Byte, c: Byte, d: Byte)
    ensures Le32(a as int + 0x100 * b as int + 0x1_0000 * c as int + 0x100_0000 * d as int) == [a, b, c, d]
    ensures Be32(a as int + 0x100 * b as int + 0x1_0000 * c as int + 0x100_0000 * d as int) == [d, c, b, a]
  {
    BytesOf(a as int, b as int, c as int, d as int);
  }

  lemma BytesOf(a: int, b: int, c: int, d: int)
    requires 0 <= a < 256 && 0 <= b < 256 && 0 <= c < 256 && 0 <= d < 256
    ensures var n := a + 0x100 * b + 0x1_0000 * c + 0x100_0000 * d;
      n % 256 == a && n / 0x100 % 256 == b && n / 0x1_0000 % 256 == c && n / 0x100_0000 == d
  {
    var n := a + 0x100 * b + 0x1_0000 * c + 0x100_0000 * d;
    assert n == 256 * (b + 0x100 * c + 0x1_0000 * d) + a;
    assert n / 0x100 == b + 0x100 * c + 0x1_0000 * d;
    assert n / 0x1_0000 == c + 0x100 * d;
  }

  /* ---- what decoding is ---- */

  /** A value and the bytes after it. */
  datatype Parsed<+T> = Ok(value: T, rest: Bytes) | Err

  function Take(b: Bytes, n: nat): Parsed<Bytes> {
    if n > |b| then Err else Ok(b[..n], b[n..])
  }

  function Word(b: Bytes, bigEndian: bool): Parsed<U32> {
    var t := Take(b, 4);
    if t.Err? then Err else Ok(if bigEndian then FromBe32(t.value) else FromLe32(t.value), t.rest)
  }

  function Words(b: Bytes, n: nat, bigEndian: bool): (r: Parsed<seq<U32>>)
    ensures r.Ok? ==> |r.value| == n && |b| == 4 * n + |r.rest|
    decreases n
  {
    if n == 0 then Ok([], b)
    else
      var before := Words(b, n - 1, bigEndian);
      if before.Err? then Err else
      var last := Word(before.rest, bigEndian);
      if last.Err? then Err else Ok(before.value + [last.value], last.rest)
  }

  lemma {:induction false} WordsFail(b: Bytes, k: nat, n: nat, bigEndian: bool)
    requires k <= n && Words(b, k, bigEndian).Err?
    ensures Words(b, n, bigEndian).Err?
    decreases n
  {
    if k < n { WordsFail(b, k, n - 1, bigEndian); }
  }

  /** The word after the first n. */
  lemma WordsNext(b: Bytes, n: nat, all: nat, bigEndian: bool, before: seq<U32>, left: Bytes)
    requires n < all && Words(b, n, bigEndian) == Ok(before, left)
    ensures Word(left, bigEndian).Err? ==> Words(b, all, bigEndian).Err?
    ensures Word(left, bigEndian).Ok? ==>
              Words(b, n + 1, bigEndian) == Ok(before + [Word(left, bigEndian).value], Word(left, bigEndian).rest)
  {
    hide Word;
    if Words(b, n + 1, bigEndian).Err? { WordsFail(b, n + 1, all, bigEndian); }
  }

  lemma WordsNone(b: Bytes, bigEndian: bool)
    ensures Words(b, 0, bigEndian) == Ok([], b)
  {}

  function UpToNul(s: Bytes): Bytes {
    if s == [] || s[0] == 0 then [] else [s[0]] + UpToNul(s[1..])
  }

  /** A field as long as its offsets say, cut at the first NUL. */
  function Field(b: Bytes, from: U32, to: U32): Parsed<Bytes> {
    if to < from then Err else
    var t := Take(b, to - from);
    if t.Err? then Err else Ok(UpToNul(t.value), t.rest)
  }

  /** What stands before the first NUL, and nothing if more is asked for than is there. */
  lemma {:induction false} UpToNulSpelled(s: Bytes)
    ensures UpToNul(s) <= s && 0 !in UpToNul(s) && (|UpToNul(s)| < |s| ==> s[|UpToNul(s)|] == 0)
    decreases |s|
  {
    if s != [] && s[0] != 0 {
      UpToNulSpelled(s[1..]);
      assert [s[0]] + s[1..] == s;
    }
  }

  lemma FieldSpelled(b: Bytes, from: U32, to: U32)
    ensures Field(b, from, to).Err? <==> to < from || to - from > |b|
    ensures Field(b, from, to).Ok? ==>
              var v, n := Field(b, from, to).value, to - from;
              && v <= b[..n] && 0 !in v && (|v| < n ==> b[|v|] == 0) && Field(b, from, to).rest == b[n..]
  {
    if from <= to && to - from <= |b| { UpToNulSpelled(b[..to - from]); }
  }

  datatype Head = Head(size: U32, domain: U32, name: U32, path: U32, value: U32, comment: U32, expires: Bytes)

  /** binary.Read of the header: nine words, an end mark, two times. */
  function HeadFrom(b: Bytes): Head
    requires |b| == HEADER
  {
    Head(FromLe32(b[0..4]), FromLe32(b[16..20]), FromLe32(b[20..24]), FromLe32(b[24..28]), FromLe32(b[28..32]),
         FromLe32(b[32..36]), b[40..48])
  }

  function DecodeHead(b: Bytes): Parsed<Head> {
    var t := Take(b, HEADER);
    if t.Err? then Err else Ok(HeadFrom(t.value), t.rest)
  }

  datatype BinCookie = BinCookie(domain: Bytes, name: Bytes, value: Bytes, expires: Bytes)

  /** Fields back to back, each one's length the step from its offset to the next. */
  function DecodeSpans(b: Bytes, bounds: seq<U32>): (r: Parsed<seq<Bytes>>)
    requires bounds != []
    ensures r.Ok? ==> |r.value| == |bounds| - 1
    decreases |bounds|
  {
    if |bounds| == 1 then Ok([], b)
    else
      var first := Field(b, bounds[0], bounds[1]);
      if first.Err? then Err else
      var more := DecodeSpans(first.rest, bounds[1..]);
      if more.Err? then Err else Ok([first.value] + more.value, more.rest)
  }

  /** A comment is read only if its offset is not 0; the record's size ends the value. */
  function Bounds(h: Head): seq<U32> {
    (if h.comment != 0 then [h.comment] else []) + [h.domain, h.name, h.path, h.value, h.size]
  }

  function CookieOf(fields: seq<Bytes>, h: Head): BinCookie
    requires |fields| >= 4
  {
    var n := |fields|;
    BinCookie(fields[n - 4], fields[n - 3], fields[n - 1], h.expires)
  }

  function DecodeFields(b: Bytes, h: Head): Parsed<BinCookie> {
    var r := DecodeSpans(b, Bounds(h));
    if r.Err? then Err else Ok(CookieOf(r.value, h), r.rest)
  }

  function DecodeRecord(b: Bytes): Parsed<BinCookie> {
    var h := DecodeHead(b);
    if h.Err? then Err else DecodeFields(h.rest, h.value)
  }

  /** The offset the first field is said to have. */
  function First(h: Head): U32 {
    if h.comment != 0 then h.comment else h.domain
  }

  lemma HeadConsumes(b: Bytes)
    requires DecodeHead(b).Ok?
    ensures |b| == HEADER + |DecodeHead(b).rest|
  {}

  lemma FieldConsumes(b: Bytes, from: U32, to: U32)
    requires Field(b, from, to).Ok?
    ensures |b| - |Field(b, from, to).rest| == (to as int) - (from as int)
  {
    hide UpToNul;
  }

  lemma {:induction false} SpansConsume(b: Bytes, bounds: seq<U32>)
    requires bounds != [] && DecodeSpans(b, bounds).Ok?
    ensures |b| - |DecodeSpans(b, bounds).rest| == (bounds[|bounds| - 1] as int) - (bounds[0] as int)
    decreases |bounds|
  {
    hide Field;
    if |bounds| > 1 {
      FieldConsumes(b, bounds[0], bounds[1]);
      SpansConsume(Field(b, bounds[0], bounds[1]).rest, bounds[1..]);
    }
  }

  /** The lengths telescope: whatever the offsets are, a record takes its header and its
      size less where its first field is said to start; it takes exactly its size if and
      only if that is right after the header. */
  lemma RecordConsumes(b: Bytes)
    requires DecodeRecord(b).Ok?
    ensures var h, taken := DecodeHead(b).value, |b| - |DecodeRecord(b).rest|;
      taken == HEADER + h.size - First(h) && (taken == h.size <==> First(h) == HEADER)
  {
    HeadConsumes(b);
    SpansConsume(DecodeHead(b).rest, Bounds(DecodeHead(b).value));
  }

  function DecodeRecords(b: Bytes, count: nat): Parsed<seq<BinCookie>>
    decreases count
  {
    if count == 0 then Ok([], b)
    else
      var before := DecodeRecords(b, count - 1);
      if before.Err? then Err else
      var last := DecodeRecord(before.rest);
      if last.Err? then Err else Ok(before.value + [last.value], last.rest)
  }

  lemma {:induction false} RecordsFail(b: Bytes, k: nat, count: nat)
    requires k <= count && DecodeRecords(b, k).Err?
    ensures DecodeRecords(b, count).Err?
    decreases count
  {
    hide DecodeRecord;
    if k < count { RecordsFail(b, k, count - 1); }
  }

  /** The offsets in a page are read over, and so is its end mark. */
  function DecodePage(page: Bytes): Option<seq<BinCookie>> {
    var tag := Take(page, 4);
    if tag.Err? || tag.value != PAGE_TAG then None else
    var count := Word(tag.rest, false);
    if count.Err? then None else
    var offsets := Words(count.rest, count.value, false);
    if offsets.Err? then None else
    var end := Take(offsets.rest, 4);
    if end.Err? then None else
    var r := DecodeRecords(end.rest, count.value);
    if r.Err? then None else Some(r.value)
  }

  function DecodePages(b: Bytes, sizes: seq<U32>, n: nat): Parsed<seq<BinCookie>>
    requires n <= |sizes|
    decreases n
  {
    if n == 0 then Ok([], b)
    else
      var before := DecodePages(b, sizes, n - 1);
      if before.Err? then Err else
      var page := Take(before.rest, sizes[n - 1]);
      if page.Err? then Err else
      var cookies := DecodePage(page.value);
      if cookies.None? then Err else Ok(before.value + cookies.value, page.rest)
  }

  lemma PagesNone(b: Bytes, sizes: seq<U32>)
    ensures DecodePages(b, sizes, 0) == Ok([], b)
  {}

  lemma {:induction false} PagesFail(b: Bytes, sizes: seq<U32>, k: nat, n: nat)
    requires k <= n <= |sizes| && DecodePages(b, sizes, k).Err?
    ensures DecodePages(b, sizes, n).Err?
    decreases n
  {
    hide DecodePage;
    if k < n { PagesFail(b, sizes, k, n - 1); }
  }

  /** The page after the first n. */
  lemma PagesNext(b: Bytes, sizes: seq<U32>, n: nat, before: seq<BinCookie>, left: Bytes)
    requires n < |sizes| && DecodePages(b, sizes, n) == Ok(before, left)
    ensures Take(left, sizes[n]).Err? || DecodePage(Take(left, sizes[n]).value).None? ==>
              DecodePages(b, sizes, |sizes|).Err?
    ensures Take(left, sizes[n]).Ok? && DecodePage(Take(left, sizes[n]).value).Some? ==>
              DecodePages(b, sizes, n + 1)
                == Ok(before + DecodePage(Take(left, sizes[n]).value).value, Take(left, sizes[n]).rest)
  {
    hide DecodePage, Take;
    if DecodePages(b, sizes, n + 1).Err? { PagesFail(b, sizes, n + 1, |sizes|); }
  }

  function DecodeFile(b: Bytes): Option<seq<BinCookie>> {
    var magic := Take(b, 4);
    if magic.Err? || magic.value != MAGIC then None else
    var count := Word(magic.rest, true);
    if count.Err? then None else
    var sizes := Words(count.rest, count.value, true);
    if sizes.Err? then None else
    var r := DecodePages(sizes.rest, sizes.value, count.value);
    if r.Err? then None else Some(r.value)
  }

  /** What does not start as it should, or ends too early, is refused. */
  lemma RefusedEarly(b: Bytes)
    ensures |b| < 8 || b[..4] != [0x63, 0x6f, 0x6f, 0x6b] ==> DecodeFile(b).None?
    ensures |b| < 12 || b[..4] != [0, 0, 1, 0] ==> DecodePage(b).None?
    ensures |b| < 56 ==> DecodeRecord(b).Err?
    ensures forall n: nat :: Take(b, n).Err? <==> n > |b|
  {
    hide DecodeRecords, DecodePages, FromLe32, FromBe32, DecodeFields, HeadFrom;
  }

  /* ---- the documented layout: each part followed by `rest` ---- */

  function EncodeWords(ws: seq<U32>, bigEndian: bool, rest: Bytes): (b: Bytes)
    ensures |b| == 4 * |ws| + |rest|
  {
    if ws == [] then rest
    else (if bigEndian then Be32(ws[0]) else Le32(ws[0])) + EncodeWords(ws[1..], bigEndian, rest)
  }

  /** A cookie as written. The trailer stands between the value's NUL and the end. */
  datatype Cookie = Cookie(comment: Option<Bytes>, domain: Bytes, name: Bytes, path: Bytes, value: Bytes, trailer: Bytes,
                           unknown1: U32, flags: U32, unknown2: U32, expires: Bytes, creation: Bytes)

  predicate NulFree(s: Bytes) {
    0 !in s
  }

  /** A field, its NUL, and in a value's case what comes before the next field. */
  function Z(s: Bytes, trailer: Bytes): (b: Bytes)
    ensures |b| == |s| + 1 + |trailer|
  {
    s + [0] + trailer
  }

  function CommentSize(c: Cookie): nat {
    if c.comment.Some? then |c.comment.value| + 1 else 0
  }

  function Size(c: Cookie): nat {
    HEADER + CommentSize(c) + |c.domain| + |c.name| + |c.path| + |c.value| + 4 + |c.trailer|
  }

  predicate Fit(c: Cookie) {
    && NulFree(c.domain) && NulFree(c.name) && NulFree(c.path) && NulFree(c.value)
    && |c.expires| == 8 && |c.creation| == 8 && Size(c) < 0x1_0000_0000
  }

  /** Offsets count from the record's start; a record without comment says 0 for it. */
  function HeadOf(c: Cookie): (h: Head)
    requires Fit(c)
    ensures First(h) == HEADER && h.size == Size(c)
  {
    var domain := HEADER + CommentSize(c);
    var name := domain + |c.domain| + 1;
    var path := name + |c.name| + 1;
    var value := path + |c.path| + 1;
    Head(Size(c), domain, name, path, value, if c.comment.Some? then HEADER else 0, c.expires)
  }

  function WordsOf(c: Cookie): seq<U32>
    requires Fit(c)
  {
    var h := HeadOf(c);
    [h.size, c.unknown1, c.flags, c.unknown2, h.domain, h.name, h.path, h.value, h.comment]
  }

  function EncodeHead(c: Cookie, rest: Bytes): (b: Bytes)
    requires Fit(c)
    ensures |b| == HEADER + |rest|
  {
    EncodeWords(WordsOf(c), false, ZEROS + c.expires + c.creation + rest)
  }

  function EncodeFields(c: Cookie, rest: Bytes): (b: Bytes)
    ensures |b| == Size(c) - HEADER + |rest|
  {
    var fields := Z(c.domain, []) + (Z(c.name, []) + (Z(c.path, []) + (Z(c.value, c.trailer) + rest)));
    if c.comment.Some? then Z(c.comment.value, []) + fields else fields
  }

  function EncodeRecord(c: Cookie, rest: Bytes): (b: Bytes)
    requires Fit(c)
    ensures |b| == Size(c) + |rest|
  {
    EncodeHead(c, EncodeFields(c, rest))
  }

  ghost predicate AllFit(cs: seq<Cookie>) {
    forall i :: 0 <= i < |cs| ==> Fit(cs[i])
  }

  ghost function EncodeRecords(cs: seq<Cookie>, rest: Bytes): Bytes
    requires AllFit(cs)
  {
    if cs == [] then rest else EncodeRecord(cs[0], EncodeRecords(cs[1..], rest))
  }

  /** A record byte by byte: nine words, an end mark, two times, and the fields one after
      another, each with its NUL. */
  lemma RecordSpelled(c: Cookie, rest: Bytes)
    requires Fit(c)
    ensures var domain := 56 + (if c.comment.Some? then |c.comment.value| + 1 else 0);
      var name := domain + |c.domain| + 1;
      var path := name + |c.name| + 1;
      var value := path + |c.path| + 1;
      EncodeRecord(c, rest) ==
        Le32(value + |c.value| + 1 + |c.trailer|) + (Le32(c.unknown1) + (Le32(c.flags) + (Le32(c.unknown2)
        + (Le32(domain) + (Le32(name) + (Le32(path) + (Le32(value) + (Le32(if c.comment.Some? then 56 else 0)
        + ([0, 0, 0, 0] + c.expires + c.creation
        + ((if c.comment.Some? then c.comment.value + [0] else [])
        + (c.domain + [0] + (c.name + [0] + (c.path + [0] + (c.value + [0] + c.trailer + rest))))))))))))))
  {
    NineWords(WordsOf(c), ZEROS + c.expires + c.creation + EncodeFields(c, rest));
    FieldsSpelled(c, rest);
    hide Le32, EncodeWords, EncodeFields;
  }

  lemma FieldsSpelled(c: Cookie, rest: Bytes)
    ensures EncodeFields(c, rest) == (if c.comment.Some? then c.comment.value + [0] else [])
      + (c.domain + [0] + (c.name + [0] + (c.path + [0] + (c.value + [0] + c.trailer + rest))))
  {
    assert Z(c.domain, []) == c.domain + [0] && Z(c.name, []) == c.name + [0] && Z(c.path, []) == c.path + [0];
    assert c.comment.Some? ==> Z(c.comment.value, []) == c.comment.value + [0];
  }

  lemma NineWords(ws: seq<U32>, rest: Bytes)
    requires |ws| == 9
    ensures EncodeWords(ws, false, rest) ==
              Le32(ws[0]) + (Le32(ws[1]) + (Le32(ws[2]) + (Le32(ws[3]) + (Le32(ws[4]) + (Le32(ws[5]) + (Le32(ws[6])
              + (Le32(ws[7]) + (Le32(ws[8]) + rest))))))))
  {
    assert EncodeWords(ws[9..], false, rest) == rest && ws[0..] == ws;
    hide EncodeWords, Le32, Be32;
    WordsFrom(ws, false, rest, 9);
    WordsFrom(ws, false, rest, 8);
    WordsFrom(ws, false, rest, 7);
    WordsFrom(ws, false, rest, 6);
    WordsFrom(ws, false, rest, 5);
    WordsFrom(ws, false, rest, 4);
    WordsFrom(ws, false, rest, 3);
    WordsFrom(ws, false, rest, 2);
    WordsFrom(ws, false, rest, 1);
  }

  function Shown(c: Cookie): BinCookie {
    BinCookie(c.domain, c.name, c.value, c.expires)
  }

  function AllShown(cs: seq<Cookie>): seq<BinCookie> {
    seq(|cs|, i requires 0 <= i < |cs| => Shown(cs[i]))
  }

  /* ---- decoding undoes encoding ---- */

  lemma TakeOf(x: Bytes, rest: Bytes)
    ensures Take(x + rest, |x|) == Ok(x, rest)
  {}

  lemma WordOf(n: U32, bigEndian: bool, rest: Bytes)
    ensures Word((if bigEndian then Be32(n) else Le32(n)) + rest, bigEndian) == Ok(n, rest)
  {
    TakeOf(if bigEndian then Be32(n) else Le32(n), rest);
    IntegersRoundTrip(n);
  }

  /** The words from the k-th on start with the k-th. */
  lemma WordsFrom(ws: seq<U32>, bigEndian: bool, rest: Bytes, k: nat)
    requires 0 < k <= |ws|
    ensures EncodeWords(ws[k - 1..], bigEndian, rest) ==
              (if bigEndian then Be32(ws[k - 1]) else Le32(ws[k - 1])) + EncodeWords(ws[k..], bigEndian, rest)
    ensures ws[..k] == ws[..k - 1] + [ws[k - 1]]
  {
    hide Be32, Le32;
    var from := ws[k - 1..];
    assert from[0] == ws[k - 1] && from[1..] == ws[k..];
  }

  lemma WordsStep(b: Bytes, bigEndian: bool, n: nat, before: seq<U32>, w: U32, rest: Bytes)
    requires Words(b, n, bigEndian) == Ok(before, (if bigEndian then Be32(w) else Le32(w)) + rest)
    ensures Words(b, n + 1, bigEndian) == Ok(before + [w], rest)
  {
    WordOf(w, bigEndian, rest);
    hide Word, Be32, Le32;
  }

  /** Having read k of the words, the others are what is left. */
  lemma {:induction false} WordsRoundTripUpTo(ws: seq<U32>, bigEndian: bool, rest: Bytes, k: nat)
    requires k <= |ws|
    ensures Words(EncodeWords(ws, bigEndian, rest), k, bigEndian) == Ok(ws[..k], EncodeWords(ws[k..], bigEndian, rest))
    decreases k
  {
    if k == 0 {
      assert ws[0..] == ws;
    } else {
      hide Words, EncodeWords, Be32, Le32;
      WordsRoundTripUpTo(ws, bigEndian, rest, k - 1);
      WordsFrom(ws, bigEndian, rest, k);
      WordsStep(EncodeWords(ws, bigEndian, rest), bigEndian, k - 1, ws[..k - 1], ws[k - 1],
                EncodeWords(ws[k..], bigEndian, rest));
    }
  }

  lemma WordsRoundTrip(ws: seq<U32>, bigEndian: bool, rest: Bytes)
    ensures Words(EncodeWords(ws, bigEndian, rest), |ws|, bigEndian) == Ok(ws, rest)
  {
    WordsRoundTripUpTo(ws, bigEndian, rest, |ws|);
    assert ws[..|ws|] == ws && ws[|ws|..] == [];
  }

  lemma {:induction false} UpToNulOf(s: Bytes, rest: Bytes)
    requires NulFree(s)
    ensures UpToNul(Z(s, rest)) == s
    decreases |s|
  {
    if s != [] {
      UpToNulOf(s[1..], rest);
      assert Z(s, rest)[1..] == Z(s[1..], rest);
    }
  }

  lemma FieldOf(s: Bytes, trailer: Bytes, rest: Bytes, from: U32, to: U32)
    requires NulFree(s) && to == from + |s| + 1 + |trailer|
    ensures Field(Z(s, trailer) + rest, from, to) == Ok(s, rest)
  {
    TakeOf(Z(s, trailer), rest);
    UpToNulOf(s, trailer);
  }

  lemma {:induction false} WordAt(ws: seq<U32>, rest: Bytes, k: nat)
    requires k < |ws|
    ensures FromLe32(EncodeWords(ws, false, rest)[4 * k..4 * k + 4]) == ws[k]
    decreases k
  {
    var b := EncodeWords(ws, false, rest);
    if k == 0 {
      assert b[0..4] == Le32(ws[0]);
      IntegersRoundTrip(ws[0]);
    } else {
      WordAt(ws[1..], rest, k - 1);
      assert b[4 * k..4 * k + 4] == EncodeWords(ws[1..], false, rest)[4 * (k - 1)..4 * (k - 1) + 4];
    }
  }

  lemma {:induction false} EncodeWordsEnd(ws: seq<U32>, bigEndian: bool, tail: Bytes, rest: Bytes)
    ensures EncodeWords(ws, bigEndian, tail + rest) == EncodeWords(ws, bigEndian, tail) + rest
    decreases |ws|
  {
    if ws != [] { EncodeWordsEnd(ws[1..], bigEndian, tail, rest); }
  }

  lemma {:induction false} TimesOf(ws: seq<U32>, times: Bytes)
    ensures EncodeWords(ws, false, times)[4 * |ws|..] == times
    decreases |ws|
  {
    if ws != [] { TimesOf(ws[1..], times); }
  }

  /** The words of a header are where the decoder looks for them. */
  lemma HeadWords(ws: seq<U32>, times: Bytes)
    requires |ws| == 9 && |times| == 20
    ensures var b := EncodeWords(ws, false, times);
      && FromLe32(b[0..4]) == ws[0] && FromLe32(b[16..20]) == ws[4] && FromLe32(b[20..24]) == ws[5]
      && FromLe32(b[24..28]) == ws[6] && FromLe32(b[28..32]) == ws[7] && FromLe32(b[32..36]) == ws[8]
  {
    WordAt(ws, times, 0);
    WordAt(ws, times, 4);
    WordAt(ws, times, 5);
    WordAt(ws, times, 6);
    WordAt(ws, times, 7);
    WordAt(ws, times, 8);
    hide EncodeWords, FromLe32;
  }

  /** And so is the expiry time. */
  lemma HeadExpires(ws: seq<U32>, expires: Bytes, creation: Bytes)
    requires |ws| == 9 && |expires| == 8 && |creation| == 8
    ensures EncodeWords(ws, false, ZEROS + expires + creation)[40..48] == expires
  {
    var times := ZEROS + expires + creation;
    var b := EncodeWords(ws, false, times);
    TimesOf(ws, times);
    hide EncodeWords;
    assert b[40..48] == b[36..][4..12];
    assert times[4..12] == expires;
  }

  lemma HeadRoundTrip(c: Cookie, rest: Bytes)
    requires Fit(c)
    ensures DecodeHead(EncodeHead(c, rest)) == Ok(HeadOf(c), rest)
  {
    var ws, times := WordsOf(c), ZEROS + c.expires + c.creation;
    var b := EncodeWords(ws, false, times);
    EncodeWordsEnd(ws, false, times, rest);
    TakeOf(b, rest);
    HeadWords(ws, times);
    HeadExpires(ws, c.expires, c.creation);
    hide EncodeWords, FromLe32, NulFree, Size;
    assert HeadFrom(b) == HeadOf(c);
  }

  /** One more field in front. */
  lemma SpansOf(s: Bytes, trailer: Bytes, rest: Bytes, from: U32, bounds: seq<U32>, fields: seq<Bytes>, end: Bytes)
    requires bounds != [] && DecodeSpans(rest, bounds) == Ok(fields, end)
    requires NulFree(s) && bounds[0] == from + |s| + 1 + |trailer|
    ensures DecodeSpans(Z(s, trailer) + rest, [from] + bounds) == Ok([s] + fields, end)
  {
    FieldOf(s, trailer, rest, from, bounds[0]);
    assert ([from] + bounds)[1..] == bounds;
  }

  lemma FieldsRoundTrip(c: Cookie, rest: Bytes)
    requires Fit(c)
    ensures DecodeFields(EncodeFields(c, rest), HeadOf(c)) == Ok(Shown(c), rest)
  {
    var h := HeadOf(c);
    var value := Z(c.value, c.trailer) + rest;
    var path := Z(c.path, []) + value;
    var name := Z(c.name, []) + path;
    var end := [h.size] + [];
    SpansOf(c.value, c.trailer, rest, h.value, end, [], rest);
    SpansOf(c.path, [], value, h.path, [h.value] + end, [c.value] + [], rest);
    SpansOf(c.name, [], path, h.name, [h.path] + ([h.value] + end), [c.path] + ([c.value] + []), rest);
    SpansOf(c.domain, [], name, h.domain, [h.name] + ([h.path] + ([h.value] + end)),
            [c.name] + ([c.path] + ([c.value] + [])), rest);
    hide DecodeSpans, DecodeFields, Z, Size, NulFree;
    CommentRoundTrip(c, Z(c.domain, []) + name, [h.domain] + ([h.name] + ([h.path] + ([h.value] + end))),
                     [c.domain] + ([c.name] + ([c.path] + ([c.value] + []))), rest);
  }

  lemma FirstSpan(b: Bytes, from: U32, to: U32, later: seq<U32>)
    ensures var first := Field(b, from, to);
      DecodeSpans(b, [from] + ([to] + later)) == if first.Err? then Err else
        var more := DecodeSpans(first.rest, [to] + later);
        if more.Err? then Err else Ok([first.value] + more.value, more.rest)
  {
    var bounds := [from] + ([to] + later);
    hide Field;
    assert bounds[0] == from && bounds[1] == to && bounds[1..] == [to] + later;
  }

  /** A comment in front, if there is one, changes nothing. */
  lemma CommentRoundTrip(c: Cookie, fields: Bytes, bounds: seq<U32>, parts: seq<Bytes>, rest: Bytes)
    requires Fit(c)
    requires var h := HeadOf(c); bounds == [h.domain] + ([h.name] + ([h.path] + ([h.value] + ([h.size] + []))))
    requires DecodeSpans(fields, bounds) == Ok(parts, rest)
    requires CookieOf(parts, HeadOf(c)) == Shown(c) && |parts| == 4
    ensures var b := if c.comment.Some? then Z(c.comment.value, []) + fields else fields;
      DecodeFields(b, HeadOf(c)) == Ok(Shown(c), rest)
  {
    var h := HeadOf(c);
    BoundsSpelled(h);
    CommentSpan(c, fields);
    hide Field, Bounds, DecodeSpans, UpToNul, Fit, HeadOf, Z;
    if c.comment.Some? {
      var comment, later := Z(c.comment.value, []), [h.name] + ([h.path] + ([h.value] + ([h.size] + [])));
      FirstSpan(comment + fields, h.comment, h.domain, later);
      assert CookieOf([UpToNul(comment)] + parts, h) == CookieOf(parts, h);
    }
  }

  lemma CommentSpan(c: Cookie, fields: Bytes)
    requires Fit(c)
    ensures var h := HeadOf(c);
      if c.comment.Some? then
        var comment := Z(c.comment.value, []);
        h.comment != 0 && Field(comment + fields, h.comment, h.domain) == Ok(UpToNul(comment), fields)
      else h.comment == 0
  {
    if c.comment.Some? { TakeOf(Z(c.comment.value, []), fields); }
    hide UpToNul, NulFree;
  }

  /** Decoding a record as laid out gives back its fields, whatever follows its value
      before its end, and leaves what comes after it. */
  lemma RecordRoundTrip(c: Cookie, rest: Bytes)
    requires Fit(c)
    ensures DecodeRecord(EncodeRecord(c, rest)) == Ok(Shown(c), rest)
  {
    HeadRoundTrip(c, EncodeFields(c, rest));
    FieldsRoundTrip(c, rest);
  }

  lemma {:induction false} RecordsRoundTripUpTo(cs: seq<Cookie>, rest: Bytes, k: nat)
    requires AllFit(cs) && k <= |cs|
    ensures DecodeRecords(EncodeRecords(cs, rest), k) == Ok(AllShown(cs[..k]), EncodeRecords(cs[k..], rest))
    decreases k
  {
    hide DecodeRecord, EncodeRecord;
    if k == 0 {
      assert cs[0..] == cs;
    } else {
      RecordsRoundTripUpTo(cs, rest, k - 1);
      assert cs[k - 1..][0] == cs[k - 1] && cs[k - 1..][1..] == cs[k..];
      assert AllShown(cs[..k]) == AllShown(cs[..k - 1]) + [Shown(cs[k - 1])];
      RecordRoundTrip(cs[k - 1], EncodeRecords(cs[k..], rest));
    }
  }

  lemma RecordsRoundTrip(cs: seq<Cookie>, rest: Bytes)
    requires AllFit(cs)
    ensures DecodeRecords(EncodeRecords(cs, rest), |cs|) == Ok(AllShown(cs), rest)
  {
    RecordsRoundTripUpTo(cs, rest, |cs|);
    assert cs[..|cs|] == cs && cs[|cs|..] == [];
  }

  /* ---- pages and files ---- */

  /** A page gives an offset for each cookie; records are read one after the other
      whatever the offsets say. */
  datatype Page = Page(cookies: seq<Cookie>, offsets: seq<U32>)

  ghost predicate PageFits(p: Page) {
    && AllFit(p.cookies) && |p.offsets| == |p.cookies|
    && 12 + 4 * |p.cookies| + |EncodeRecords(p.cookies, [])| < 0x1_0000_0000
  }

  ghost function EncodePage(p: Page): (b: Bytes)
    requires PageFits(p)
    ensures |b| == 12 + 4 * |p.cookies| + |EncodeRecords(p.cookies, [])|
  {
    PAGE_TAG + (Le32(|p.cookies|) + EncodeWords(p.offsets, false, ZEROS + EncodeRecords(p.cookies, [])))
  }

  lemma PageSpelled(p: Page)
    requires PageFits(p)
    ensures EncodePage(p) == [0, 0, 1, 0] + (Le32(|p.cookies|)
              + EncodeWords(p.offsets, false, [0, 0, 0, 0] + EncodeRecords(p.cookies, [])))
    ensures forall w: U32, ws: seq<U32>, rest :: EncodeWords([w] + ws, false, rest) == Le32(w) + EncodeWords(ws, false, rest)
    ensures forall rest :: EncodeWords([], false, rest) == rest
  {
    hide Le32, EncodeRecords;
    forall w: U32, ws: seq<U32>, rest ensures EncodeWords([w] + ws, false, rest) == Le32(w) + EncodeWords(ws, false, rest) {
      assert ([w] + ws)[1..] == ws;
    }
  }

  lemma PageRoundTrip(p: Page)
    requires PageFits(p)
    ensures DecodePage(EncodePage(p)) == Some(AllShown(p.cookies))
  {
    var end := ZEROS + EncodeRecords(p.cookies, []);
    var words := EncodeWords(p.offsets, false, end);
    TakeOf(PAGE_TAG, Le32(|p.cookies|) + words);
    WordOf(|p.cookies|, false, words);
    WordsRoundTrip(p.offsets, false, end);
    TakeOf(ZEROS, EncodeRecords(p.cookies, []));
    RecordsRoundTrip(p.cookies, []);
  }

  ghost predicate FileFits(pages: seq<Page>) {
    |pages| < 0x1_0000_0000 && forall i :: 0 <= i < |pages| ==> PageFits(pages[i])
  }

  ghost function PageSizes(pages: seq<Page>): (ws: seq<U32>)
    requires FileFits(pages)
    ensures |ws| == |pages|
  {
    seq(|pages|, i requires 0 <= i < |pages| => |EncodePage(pages[i])|)
  }

  ghost function EncodePages(pages: seq<Page>, rest: Bytes): Bytes
    requires FileFits(pages)
  {
    if pages == [] then rest else EncodePage(pages[0]) + EncodePages(pages[1..], rest)
  }

  /** A file, with its checksum and whatever follows that as `tail`. */
  ghost function EncodeFile(pages: seq<Page>, tail: Bytes): Bytes
    requires FileFits(pages)
  {
    MAGIC + (Be32(|pages|) + EncodeWords(PageSizes(pages), true, EncodePages(pages, tail)))
  }

  lemma FileSpelled(pages: seq<Page>, tail: Bytes)
    requires FileFits(pages)
    ensures EncodeFile(pages, tail) == [0x63, 0x6f, 0x6f, 0x6b] + (Be32(|pages|)
              + EncodeWords(PageSizes(pages), true, EncodePages(pages, tail)))
    ensures forall w: U32, ws: seq<U32>, rest :: EncodeWords([w] + ws, true, rest) == Be32(w) + EncodeWords(ws, true, rest)
    ensures forall i :: 0 <= i < |pages| ==> PageSizes(pages)[i] == |EncodePage(pages[i])|
  {
    hide Be32, EncodePages, EncodePage;
    forall w: U32, ws: seq<U32>, rest ensures EncodeWords([w] + ws, true, rest) == Be32(w) + EncodeWords(ws, true, rest) {
      assert ([w] + ws)[1..] == ws;
    }
  }

  function Flat(pages: seq<Page>): seq<BinCookie> {
    if pages == [] then [] else Flat(pages[..|pages| - 1]) + AllShown(pages[|pages| - 1].cookies)
  }

  lemma PagesStep(b: Bytes, sizes: seq<U32>, n: nat, before: seq<BinCookie>, page: Bytes, rest: Bytes, cookies: seq<BinCookie>)
    requires n < |sizes| && sizes[n] == |page| && DecodePages(b, sizes, n) == Ok(before, page + rest)
    requires DecodePage(page) == Some(cookies)
    ensures DecodePages(b, sizes, n + 1) == Ok(before + cookies, rest)
  {
    hide DecodePage, DecodePages;
    TakeOf(page, rest);
    PagesNext(b, sizes, n, before, page + rest);
  }

  /** The pages from the k-th on start with the k-th. */
  lemma PagesFrom(pages: seq<Page>, tail: Bytes, k: nat)
    requires FileFits(pages) && 0 < k <= |pages|
    ensures EncodePages(pages[k - 1..], tail) == EncodePage(pages[k - 1]) + EncodePages(pages[k..], tail)
    ensures PageSizes(pages)[k - 1] == |EncodePage(pages[k - 1])|
    ensures Flat(pages[..k]) == Flat(pages[..k - 1]) + AllShown(pages[k - 1].cookies)
  {
    hide EncodePage, PageFits, AllShown;
    var from, upTo := pages[k - 1..], pages[..k];
    assert from[0] == pages[k - 1] && from[1..] == pages[k..];
    assert upTo[k - 1] == pages[k - 1] && upTo[..k - 1] == pages[..k - 1];
  }

  lemma {:induction false} PagesRoundTripUpTo(pages: seq<Page>, tail: Bytes, k: nat)
    requires FileFits(pages) && k <= |pages|
    ensures DecodePages(EncodePages(pages, tail), PageSizes(pages), k) == Ok(Flat(pages[..k]), EncodePages(pages[k..], tail))
    decreases k
  {
    hide DecodePage, EncodePage, DecodePages, EncodePages, PageSizes, AllShown, PageFits;
    if k == 0 {
      assert pages[0..] == pages;
      PagesNone(EncodePages(pages, tail), PageSizes(pages));
    } else {
      hide Flat;
      PagesRoundTripUpTo(pages, tail, k - 1);
      PagesFrom(pages, tail, k);
      PageRoundTrip(pages[k - 1]);
      PagesStep(EncodePages(pages, tail), PageSizes(pages), k - 1, Flat(pages[..k - 1]), EncodePage(pages[k - 1]),
                EncodePages(pages[k..], tail), AllShown(pages[k - 1].cookies));
    }
  }

  /** Decoding undoes encoding: for any pages of cookies with NUL-free fields, any
      trailers after their values, and anything at the end of the file. */
  lemma FileRoundTrip(pages: seq<Page>, tail: Bytes)
    requires FileFits(pages)
    ensures DecodeFile(EncodeFile(pages, tail)) == Some(Flat(pages))
  {
    var sizes, body := PageSizes(pages), EncodePages(pages, tail);
    var words := EncodeWords(sizes, true, body);
    TakeOf(MAGIC, Be32(|pages|) + words);
    WordOf(|pages|, true, words);
    WordsRoundTrip(sizes, true, body);
    PagesRoundTripUpTo(pages, tail, |pages|);
    assert pages[..|pages|] == pages;
  }

  /* ---- the reader ---- */

  /** bytes.Reader, and the parsers that advance it. */
  class Reader {
    const bytes: Bytes
    var pos: nat

    constructor (bytes: Bytes)
      ensures this.bytes == bytes && Valid() && Rest() == bytes
    {
      this.bytes, pos := bytes, 0;
    }

    predicate Valid()
      reads this
    {
      pos <= |bytes|
    }

    ghost function Rest(): Bytes
      requires Valid()
      reads this
    {
      bytes[pos..]
    }

    method ReadFull(n: nat) returns (r: Option<Bytes>)
      requires Valid()
      modifies this
      ensures Valid() && (r.None? <==> Take(old(Rest()), n).Err?)
      ensures r.Some? ==> Take(old(Rest()), n) == Ok(r.value, Rest())
    {
      if pos + n > |bytes| {
        pos := |bytes|;
        return None;
      }
      r := Some(bytes[pos..pos + n]);
      assert old(Rest())[..n] == r.value;
      pos := pos + n;
      assert bytes[pos..] == old(Rest())[n..];
    }

    method ReadWord(bigEndian: bool) returns (r: Option<U32>)
      requires Valid()
      modifies this
      ensures Valid() && (r.None? <==> Word(old(Rest()), bigEndian).Err?)
      ensures r.Some? ==> Word(old(Rest()), bigEndian) == Ok(r.value, Rest())
    {
      var t := ReadFull(4);
      if t.None? { return None; }
      r := Some(if bigEndian then FromBe32(t.value) else FromLe32(t.value));
    }

    method ReadWords(n: nat, bigEndian: bool) returns (r: Option<seq<U32>>)
      requires Valid()
      modifies this
      ensures Valid() && (r.None? <==> Words(old(Rest()), n, bigEndian).Err?)
      ensures r.Some? ==> Words(old(Rest()), n, bigEndian) == Ok(r.value, Rest())
    {
      var ws: seq<U32> := [];
      ghost var all := Rest();
      WordsNone(all, bigEndian);
      hide Words, Word;
      while |ws| < n
        invariant Valid() && |ws| <= n && Words(all, |ws|, bigEndian) == Ok(ws, Rest())
      {
        WordsNext(all, |ws|, n, bigEndian, ws, Rest());
        var w := ReadWord(bigEndian);
        if w.None? { return None; }
        ws := ws + [w.value];
      }
      r := Some(ws);
    }

    /** bytes.IndexByte, and the cut. */
    static method CutAtNul(buf: Bytes) returns (text: Bytes)
      ensures text == UpToNul(buf)
    {
      var i := 0;
      while i < |buf| && buf[i] != 0
        invariant i <= |buf| && UpToNul(buf) == buf[..i] + UpToNul(buf[i..])
      {
        i := i + 1;
      }
      assert buf[..i] + [] == buf[..i];
      text := buf[..i];
    }

    /** readField. */
    method ReadField(from: U32, to: U32) returns (r: Option<Bytes>)
      requires Valid()
      modifies this
      ensures Valid() && (r.None? <==> Field(old(Rest()), from, to).Err?)
      ensures r.Some? ==> Field(old(Rest()), from, to) == Ok(r.value, Rest())
    {
      if to < from { return None; }
      var buf := ReadFull(to - from);
      if buf.None? { return None; }
      var text := CutAtNul(buf.value);
      r := Some(text);
    }

    method ReadHead() returns (r: Option<Head>)
      requires Valid()
      modifies this
      ensures Valid() && (r.None? <==> DecodeHead(old(Rest())).Err?)
      ensures r.Some? ==> DecodeHead(old(Rest())) == Ok(r.value, Rest())
    {
      var b := ReadFull(HEADER);
      if b.None? { return None; }
      r := Some(HeadFrom(b.value));
    }

    /** parseBinaryCookieRecord. */
    method ParseRecord() returns (r: Option<BinCookie>)
      requires Valid()
      modifies this
      ensures Valid() && (r.None? <==> DecodeRecord(old(Rest())).Err?)
      ensures r.Some? ==> DecodeRecord(old(Rest())) == Ok(r.value, Rest())
    {
      var h := ReadHead();
      if h.None? { return None; }
      r := ParseFields(h.value);
    }

    /** The next field, on the way to what `all` says. */
    method ReadSpan(ghost all: Parsed<seq<Bytes>>, ghost done: seq<Bytes>, from: U32, to: U32, ghost later: seq<U32>)
      returns (r: Option<Bytes>)
      requires Valid() && all == Resumed(done, DecodeSpans(Rest(), [from] + ([to] + later)))
      modifies this
      ensures Valid() && (r.None? ==> all.Err?)
      ensures r.Some? ==> all == Resumed(done + [r.value], DecodeSpans(Rest(), [to] + later))
    {
      FirstSpan(Rest(), from, to, later);
      hide DecodeSpans, Resumed;
      r := ReadField(from, to);
      if r.Some? { ResumedStep(done, r.value, DecodeSpans(Rest(), [to] + later)); }
      else { ResumedErr(done); }
    }

    method ParseFields(h: Head) returns (r: Option<BinCookie>)
      requires Valid()
      modifies this
      ensures Valid() && (r.None? <==> DecodeFields(old(Rest()), h).Err?)
      ensures r.Some? ==> DecodeFields(old(Rest()), h) == Ok(r.value, Rest())
    {
      ghost var all := DecodeSpans(Rest(), Bounds(h));
      ghost var done: seq<Bytes> := [];
      ResumedNone(all);
      BoundsSpelled(h);
      hide DecodeSpans, Resumed, Bounds;
      if h.comment != 0 {
        var comment := ReadSpan(all, [], h.comment, h.domain, [h.name] + ([h.path] + ([h.value] + ([h.size] + []))));
        if comment.None? { return None; }
        done := [] + [comment.value];
      }
      r := ParseNamed(h, all, done);
    }

    /** The fields every cookie has. */
    method ParseNamed(h: Head, ghost all: Parsed<seq<Bytes>>, ghost done: seq<Bytes>) returns (r: Option<BinCookie>)
      requires Valid()
      requires all == Resumed(done, DecodeSpans(Rest(), [h.domain] + ([h.name] + ([h.path] + ([h.value] + ([h.size] + []))))))
      modifies this
      ensures Valid() && (r.None? ==> all.Err?)
      ensures r.Some? ==> all.Ok? && |all.value| >= 4 && r.value == CookieOf(all.value, h) && all.rest == Rest()
    {
      hide DecodeSpans, Resumed;
      var domain := ReadSpan(all, done, h.domain, h.name, [h.path] + ([h.value] + ([h.size] + [])));
      if domain.None? { return None; }
      ghost var done1 := done + [domain.value];
      var name := ReadSpan(all, done1, h.name, h.path, [h.value] + ([h.size] + []));
      if name.None? { return None; }
      ghost var done2 := done1 + [name.value];
      var path := ReadSpan(all, done2, h.path, h.value, [h.size] + []);
      if path.None? { return None; }
      ghost var done3 := done2 + [path.value];
      var value := ReadSpan(all, done3, h.value, h.size, []);
      if value.None? { return None; }
      SpansEnd(done3 + [value.value], Rest(), h.size);
      r := Some(BinCookie(domain.value, name.value, value.value, h.expires));
    }

    method ParseRecords(count: nat) returns (r: Option<seq<BinCookie>>)
      requires Valid()
      modifies this
      ensures Valid() && (r.None? <==> DecodeRecords(old(Rest()), count).Err?)
      ensures r.Some? ==> DecodeRecords(old(Rest()), count) == Ok(r.value, Rest())
    {
      hide DecodeRecord;
      var cookies: seq<BinCookie> := [];
      var i := 0;
      while i < count
        invariant Valid() && i <= count && DecodeRecords(old(Rest()), i) == Ok(cookies, Rest())
      {
        var c := ParseRecord();
        if c.None? {
          RecordsFail(old(Rest()), i + 1, count);
          return None;
        }
        cookies := cookies + [c.value];
        i := i + 1;
      }
      r := Some(cookies);
    }

    /** parseBinaryCookiesPage, on a reader of one page. */
    method ParsePage() returns (r: Option<seq<BinCookie>>)
      requires Valid()
      modifies this
      ensures Valid() && r == DecodePage(old(Rest()))
    {
      var tag := ReadFull(4);
      if tag.None? || tag.value != PAGE_TAG { return None; }
      var count := ReadWord(false);
      if count.None? { return None; }
      var offsets := ReadWords(count.value, false);
      if offsets.None? { return None; }
      var end := ReadFull(4);
      if end.None? { return None; }
      r := ParseRecords(count.value);
    }
  }

  /** The page loop of loadCookiesFromBinaryCookies, before expired and foreign cookies
      are left out. */
  method ParseFile(data: Bytes) returns (r: Option<seq<BinCookie>>)
    ensures r == DecodeFile(data)
  {
    var reader := new Reader(data);
    var magic := reader.ReadFull(4);
    if magic.None? || magic.value != MAGIC { return None; }
    var count := reader.ReadWord(true);
    if count.None? { return None; }
    var sizes := reader.ReadWords(count.value, true);
    if sizes.None? { return None; }
    r := ParsePages(reader, sizes.value);
  }

  method ParseOnePage(bytes: Bytes) returns (r: Option<seq<BinCookie>>)
    ensures r == DecodePage(bytes)
  {
    hide DecodePage;
    var page := new Reader(bytes);
    r := page.ParsePage();
  }

  method ParsePages(reader: Reader, sizes: seq<U32>) returns (r: Option<seq<BinCookie>>)
    requires reader.Valid()
    modifies reader
    ensures r == match DecodePages(old(reader.Rest()), sizes, |sizes|) case Ok(cookies, _) => Some(cookies) case Err => None
  {
    ghost var all := reader.Rest();
    var cookies: seq<BinCookie> := [];
    PagesNone(all, sizes);
    hide DecodePage, DecodePages, Take;
    var k := 0;
    while k < |sizes|
      invariant k <= |sizes| && reader.Valid() && DecodePages(all, sizes, k) == Ok(cookies, reader.Rest())
    {
      PagesNext(all, sizes, k, cookies, reader.Rest());
      var bytes := reader.ReadFull(sizes[k]);
      if bytes.None? { return None; }
      var more := ParseOnePage(bytes.value);
      if more.None? { return None; }
      cookies := cookies + more.value;
      k := k + 1;
    }
    r := Some(cookies);
  }

  lemma SpansEnd(done: seq<Bytes>, b: Bytes, end: U32)
    ensures Resumed(done, DecodeSpans(b, [end] + [])) == Ok(done, b)
  {
    assert [end] + [] == [end];
    assert done + [] == done;
  }

  /** What a loop that has read `done` will have read. */
  function Resumed<T>(done: seq<T>, more: Parsed<seq<T>>): Parsed<seq<T>> {
    if more.Err? then Err else Ok(done + more.value, more.rest)
  }

  lemma ResumedErr<T>(done: seq<T>)
    ensures Resumed(done, Err) == Err
  {}

  lemma BoundsSpelled(h: Head)
    ensures var named := [h.domain] + ([h.name] + ([h.path] + ([h.value] + ([h.size] + []))));
      Bounds(h) == if h.comment != 0 then [h.comment] + named else named
  {}

  lemma ResumedNone<T>(more: Parsed<seq<T>>)
    ensures Resumed([], more) == more
  {
    if more.Ok? { assert [] + more.value == more.value; }
  }

  lemma ResumedStep<T>(done: seq<T>, x: T, more: Parsed<seq<T>>)
    ensures Resumed(done, if more.Err? then Err else Ok([x] + more.value, more.rest)) == Resumed(done + [x], more)
  {
    if more.Ok? { assert done + ([x] + more.value) == done + [x] + more.value; }
  }
}
