/** The bytes of one ftpmirror download: a temp file that later attempts resume with REST
    (section 5 of RFC 3659), renamed into place once it is long enough. */
module FtpDownload {
  import opened Common

  type Bytes = seq<bv8>

  datatype Result = Renamed | Permanent | Local | Transient | Cut

  predicate PrefixOf(file: Option<Bytes>, remote: Bytes) {
    file.Some? ==> file.value <= remote
  }

  /** Where a transfer starts: at the end of the temp file, unless that already has the
      listed size. A negative size is unknown. */
  function Offset(tmp: Option<Bytes>, size: int): (offset: nat)
    ensures offset > 0 ==> tmp.Some? && offset == |tmp.value| && (size >= 0 ==> offset < size)
  {
    if tmp.Some? && (size < 0 || |tmp.value| < size) then |tmp.value| else 0
  }

  class Transfer {
    var tmp: Option<Bytes>       // the temp file
    var local: Option<Bytes>     // the mirrored file

    constructor (local: Option<Bytes>)
      ensures tmp.None? && this.local == local
    {
      tmp, this.local := None, local;
    }

    /** RETR, after REST when the offset is not 0. A server that refuses a restart is asked
        for the whole file instead. */
    method Retrieve(offset: nat, faulty: bool) returns (from: Option<nat>, permanent: bool)
      ensures from.Some? ==> from.value == offset || from.value == 0
      ensures !faulty ==> from == Some(offset)
    {
      from, permanent := Some(offset), false;
      if faulty {
        if * { return; }
        permanent := *;
        if offset == 0 || !permanent { return None, permanent; }
        from := Some(0);
        if * { return; }
        permanent := *;
        from := None;
      }
    }

    /** io.Copy: what arrives is appended piece by piece. The stream can break off, and so
        can the writing, in the middle of a piece; so can the process. */
    method Copy(remote: Bytes, from: nat, faulty: bool) returns (n: nat, intact: bool)
      requires from <= |remote| && tmp == Some(remote[..from])
      modifies this`tmp
      ensures from + n <= |remote| && tmp == Some(remote[..from + n])
      ensures !faulty ==> intact && from + n == |remote|
    {
      n, intact := 0, true;
      assert remote[..from + n] == remote[..from];
      while from + n < |remote|
        invariant from + n <= |remote| && tmp == Some(remote[..from + n])
      {
        if faulty {
          if * { return n, true; }                 // the data connection just ends
          if * { return n, false; }
        }
        assert 0 < 1 <= |remote| - from - n;
        var k: nat :| 0 < k <= |remote| - from - n;
        assert remote[..from + n + k] == remote[..from + n] + remote[from + n..from + n + k];
        tmp := Some(tmp.value + remote[from + n..from + n + k]);
        n := n + k;
      }
    }

    /** One attempt at a file. Whatever goes wrong, the temp file stays a prefix of the
        remote bytes and the mirrored file is only ever replaced by one that is long
        enough; if nothing goes wrong it is replaced by the whole file, and only the
        missing bytes are sent. */
    method Attempt(remote: Bytes, size: int, faulty: bool) returns (r: Result, sent: nat)
      requires PrefixOf(tmp, remote)
      modifies this
      ensures PrefixOf(tmp, remote) && (tmp.Some? ==> tmp.value <= remote)
      ensures if r == Renamed then tmp.None? && local.Some? && local.value <= remote && |local.value| >= size
              else local == old(local)
      ensures r == Renamed && size == |remote| ==> local == Some(remote)
      ensures !faulty ==>
                sent == |remote| - if old(tmp).Some? && (size < 0 || |old(tmp).value| < size) then |old(tmp).value| else 0
      ensures !faulty ==> (r == Renamed <==> |remote| >= size)
      ensures r == Renamed && !faulty ==> local == Some(remote)
      ensures !faulty && r != Renamed ==> r == Transient && tmp == Some(remote)
    {
      sent := 0;
      if faulty { if * { return Local, 0; } }      // creating the directory
      var offset := Offset(tmp, size);
      var from, permanent := Retrieve(offset, faulty);
      if from.None? { return if permanent then Permanent else Transient, 0; }
      offset := from.value;
      if faulty { if * { return Local, 0; } }      // opening the temp file
      if offset == 0 { tmp := Some([]); }          // truncated; otherwise appended to
      assert tmp.value == remote[..offset];
      var intact: bool;
      sent, intact := Copy(remote, offset, faulty);
      assert offset + sent == |remote| ==> remote[..offset + sent] == remote;
      if faulty {
        if * { return Cut, sent; }
        if !intact { return Transient, sent; }
        if * { return Local, sent; }               // closing the temp file
        if * { return Transient, sent; }           // the server's closing reply
        if * { return Permanent, sent; }
      }
      if size >= 0 && offset + sent < size { return Transient, sent; }
      if faulty { if * { return Local, sent; } }   // the rename
      local, tmp := tmp, None;
      r := Renamed;
    }

    /** Any number of attempts at an unchanged file of the listed size, in one run or in
        many: the mirrored file is untouched or complete. */
    method Attempts(remote: Bytes, faults: seq<bool>) returns (done: bool)
      requires PrefixOf(tmp, remote)
      modifies this
      ensures PrefixOf(tmp, remote)
      ensures local == if done then Some(remote) else old(local)
      ensures (exists k :: 0 <= k < |faults| && !faults[k]) ==> done
    {
      done := false;
      var k := 0;
      while k < |faults| && !done
        invariant k <= |faults| && PrefixOf(tmp, remote)
        invariant local == if done then Some(remote) else old(local)
        invariant (exists j :: 0 <= j < k && !faults[j]) ==> done
      {
        var r, sent := Attempt(remote, |remote|, faults[k]);
        done := r == Renamed;
        k := k + 1;
      }
    }
  }
}
