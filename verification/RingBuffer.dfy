/** The blocking byte ring buffer as one thread sees it while no other thread acts: waiting for a
    binary semaphore succeeds when it is set and otherwise times out. */
module RingBuffer {
  import opened RingCore

  const RB_OK := 0
  const RB_FAIL := -1
  const RB_DONE := -2
  const RB_ABORT := -3
  const RB_TIMEOUT := -4

  /** Everything but the storage. */
  datatype Signals = Signals(canRead: bool, canWrite: bool, abortRead: bool, abortWrite: bool, done: bool,
                             unblock: bool)

  function Least(a: nat, b: nat): nat {
    if a < b then a else b
  }

  /** What a call that moved `n` bytes and stopped for the reason `ret` returns. */
  function Outcome(n: nat, ret: int): int {
    if ret == RB_FAIL || ret == RB_ABORT then ret else if n > 0 then n else ret
  }

  /** Why a reader that needs more than is stored gives up. */
  function ReadStop(s: Signals): int {
    if s.done then RB_DONE else if s.abortRead then RB_ABORT else RB_TIMEOUT
  }

  function WriteStop(s: Signals): int {
    if s.done then RB_DONE else if s.abortWrite then RB_ABORT else RB_TIMEOUT
  }

  function ReadResult(stored: nat, s: Signals, len: nat): int {
    Outcome(Least(len, stored), if len <= stored then 0 else ReadStop(s))
  }

  function WriteResult(space: nat, s: Signals, len: nat): int {
    Outcome(Least(len, space), if len <= space then 0 else WriteStop(s))
  }

  /** A reader that finds nothing, and nothing to report, waits. */
  predicate ReadWaits(stored: nat, s: Signals, len: nat) {
    len > stored && !s.done && !s.abortRead && !s.unblock
  }

  predicate WriteWaits(space: nat, s: Signals, len: nat) {
    len > space && !s.done && !s.abortWrite
  }

  function AfterRead(stored: nat, s: Signals, len: nat): Signals {
    var waits := ReadWaits(stored, s, len);
    s.(canRead := s.canRead && !waits, canWrite := s.canWrite || waits || Least(len, stored) > 0, unblock := false)
  }

  function AfterWrite(space: nat, s: Signals, len: nat): Signals {
    var waits := WriteWaits(space, s, len);
    s.(canWrite := s.canWrite && !waits, canRead := s.canRead || waits || Least(len, space) > 0)
  }

  class RingBuf {
    const data: array<byte>
    var r: nat
    var w: nat
    var fill: nat
    var canRead: bool
    var canWrite: bool
    var abortRead: bool
    var abortWrite: bool
    var isDoneWrite: bool
    var unblockReader: bool

    ghost function Store(): Ring
      reads this, data
    {
      Ring(data[..], r, w, fill)
    }

    ghost predicate Valid()
      reads this, data
    {
      Ok(Store())
    }

    /** The stored bytes, oldest first. */
    ghost function Stored(): seq<byte>
      requires Valid()
      reads this, data
    {
      Contents(Store())
    }

    ghost function Sig(): Signals
      reads this
    {
      Signals(canRead, canWrite, abortRead, abortWrite, isDoneWrite, unblockReader)
    }

    constructor (size: nat)
      requires size > 0
      ensures Valid() && fresh(data) && data.Length == size && Stored() == []
      ensures Sig() == Signals(false, false, false, false, false, false)
    {
      data := new byte[size];
      r, w, fill := 0, 0, 0;
      canRead, canWrite := false, false;
      abortRead, abortWrite, isDoneWrite, unblockReader := false, false, false, false;
    }

    /** The semaphores keep their state. */
    method Reset()
      requires data.Length > 0
      modifies this
      ensures Valid() && Stored() == []
      ensures Sig() == old(Sig()).(abortRead := false, abortWrite := false, done := false, unblock := false)
    {
      r, w, fill := 0, 0, 0;
      isDoneWrite, unblockReader, abortRead, abortWrite := false, false, false, false;
    }

    method BytesAvailable() returns (n: nat)
      requires Valid()
      ensures n == data.Length - |Stored()|
    {
      n := data.Length - fill;
    }

    method BytesFilled() returns (n: nat)
      requires Valid()
      ensures n == |Stored()|
    {
      n := fill;
    }

    method IsFull() returns (full: bool)
      requires Valid()
      ensures full <==> |Stored()| == data.Length
    {
      full := data.Length == fill;
    }

    /** memcpy(buf + at, data + from, n) */
    method CopyOut(buf: array<byte>, at: nat, from: nat, n: nat)
      requires buf != data && at + n <= buf.Length && from + n <= data.Length
      modifies buf
      ensures buf[..] == Overlay(old(buf[..]), at, data[from..from + n])
    {
      forall i | 0 <= i < n { buf[at + i] := data[from + i]; }
    }

    /** memcpy(data + to, buf + at, n) */
    method CopyIn(buf: array<byte>, at: nat, to: nat, n: nat)
      requires buf != data && at + n <= buf.Length && to + n <= data.Length
      modifies data
      ensures data[..] == Overlay(old(data[..]), to, buf[at..at + n])
    {
      forall i | 0 <= i < n { data[to + i] := buf[at + i]; }
    }

    /** One locked section of a read. */
    method TakeChunk(buf: array<byte>, at: nat, n: nat)
      requires Valid() && buf != data && n <= fill && at + n <= buf.Length
      modifies `r, `fill, buf
      ensures Valid() && Stored() == old(Stored())[n..]
      ensures buf[..] == Overlay(old(buf[..]), at, old(Stored())[..n])
    {
      hide Ok, Contents, Overlay;
      ghost var was := Store();
      GetIsDequeue(was, n);
      Bounds(was);
      if r + n > data.Length {
        CopyOutWrapped(buf, at, n);
        assert buf[..] == Overlay(old(buf[..]), at, GetChunk(was, n).1);
        r := n - (data.Length - r);
      } else {
        CopyOut(buf, at, r, n);
        assert buf[..] == Overlay(old(buf[..]), at, GetChunk(was, n).1);
        r := r + n;
      }
      fill := fill - n;
      assert data[..] == was.data;
      assert Store() == GetChunk(was, n).0;
    }

    /** The copy in two pieces. */
    method CopyOutWrapped(buf: array<byte>, at: nat, n: nat)
      requires buf != data && r <= data.Length < r + n && n <= data.Length && at + n <= buf.Length
      modifies buf
      ensures buf[..] == Overlay(old(buf[..]), at, data[r..] + data[..n - (data.Length - r)])
    {
      hide Overlay;
      var len1 := data.Length - r;
      var len2 := n - len1;
      OverlayTwice(buf[..], at, data[r..r + len1], data[0..0 + len2]);
      CopyOut(buf, at, r, len1);
      CopyOut(buf, at + len1, 0, len2);
      assert data[r..r + len1] == data[r..] && data[0..0 + len2] == data[..len2];
    }

    /** One locked section of a write. */
    method PutBytes(buf: array<byte>, at: nat, n: nat)
      requires Valid() && buf != data && fill + n <= data.Length && at + n <= buf.Length
      modifies `w, `fill, data
      ensures Valid() && Stored() == old(Stored()) + buf[at..at + n]
    {
      hide Ok, Contents, Overlay;
      ghost var was, s := Store(), buf[at..at + n];
      PutIsEnqueue(was, s);
      Bounds(was);
      if w + n > data.Length {
        var len1 := data.Length - w;
        var len2 := n - len1;
        CopyIn(buf, at, w, len1);
        CopyIn(buf, at + len1, 0, len2);
        assert s[..len1] == buf[at..at + len1] && s[len1..] == buf[at + len1..at + len1 + len2];
        w := len2;
      } else {
        CopyIn(buf, at, w, n);
        w := w + n;
      }
      fill := fill + n;
      assert Store() == PutChunk(was, s);
    }

    method Read(buf: array<byte>, len: nat) returns (result: int)
      requires Valid() && buf != data && len <= buf.Length
      modifies this, buf
      ensures Valid()
      ensures var n := Least(len, |old(Stored())|);
              Stored() == old(Stored())[n..] && buf[..] == Overlay(old(buf[..]), 0, old(Stored())[..n])
      ensures result == ReadResult(|old(Stored())|, old(Sig()), len)
      ensures Sig() == AfterRead(|old(Stored())|, old(Sig()), len)
    {
      hide Ok, Contents, Overlay;
      var ret, total, left := 0, 0, len;
      ghost var stored := Stored();
      OverlayNothing(buf[..]);
      FillIsLength(Store());
      while left > 0
        invariant Valid() && total + left == len
        invariant total == 0 || total == Least(len, |stored|)
        invariant total <= |stored| && Stored() == stored[total..] && fill == |stored| - total
        invariant buf[..] == Overlay(old(buf[..]), 0, stored[..total])
        invariant Sig() == old(Sig())
                  || (ReadWaits(|stored|, old(Sig()), len) && fill == 0
                      && Sig() == old(Sig()).(canRead := false, canWrite := true))
        invariant ret == 0
        decreases left, canRead
      {
        var n := if fill < left then fill else left;
        if n == 0 {
          if isDoneWrite { ret := RB_DONE; break; }
          if abortRead { ret := RB_ABORT; break; }
          if unblockReader { ret := RB_TIMEOUT; break; }
          canWrite := true;
          if !canRead { ret := RB_TIMEOUT; break; }
          canRead := false;
          continue;
        }
        ghost var before := buf[..];
        TakeChunk(buf, total, n);
        OverlayMore(old(buf[..]), stored[..total], stored[total..][..n]);
        assert stored[..total] + stored[total..][..n] == stored[..total + n];
        assert stored[total..][n..] == stored[total + n..];
        FillIsLength(Store());
        left, total := left - n, total + n;
      }
      if total > 0 { canWrite := true; }
      if ret == RB_FAIL || ret == RB_ABORT { total := 0; result := ret; }
      else { result := if total > 0 then total else ret; }
      unblockReader := false;
    }

    method Write(buf: array<byte>, len: nat) returns (result: int)
      requires Valid() && buf != data && len <= buf.Length
      modifies this, data
      ensures Valid()
      ensures var n := Least(len, data.Length - |old(Stored())|); Stored() == old(Stored()) + buf[..n]
      ensures result == WriteResult(data.Length - |old(Stored())|, old(Sig()), len)
      ensures Sig() == AfterWrite(data.Length - |old(Stored())|, old(Sig()), len)
    {
      hide Ok, Contents, Overlay;
      var total, ret := WriteLoop(buf, len);
      if total > 0 { canRead := true; }
      if ret == RB_FAIL || ret == RB_ABORT { result := ret; }
      else { result := if total > 0 then total else ret; }
    }

    /** The loop of a write: what was moved, and why it stopped. */
    method WriteLoop(buf: array<byte>, len: nat) returns (total: nat, ret: int)
      requires Valid() && buf != data && len <= buf.Length
      modifies this, data
      ensures Valid()
      ensures var space := data.Length - |old(Stored())|;
              && total == Least(len, space) && Stored() == old(Stored()) + buf[..total]
              && ret == (if len <= space then 0 else WriteStop(old(Sig())))
              && Sig() == if WriteWaits(space, old(Sig()), len) then old(Sig()).(canWrite := false, canRead := true)
                          else old(Sig())
    {
      hide Ok, Contents, Overlay;
      ret, total := 0, 0;
      var left := len;
      ghost var stored := Stored();
      ghost var space := data.Length - |stored|;
      FillIsLength(Store());
      assert stored + buf[..0] == stored;
      while left > 0
        invariant Valid() && total + left == len && fill <= data.Length
        invariant total == 0 || total == Least(len, space)
        invariant total <= space && Stored() == stored + buf[..total] && fill == |stored| + total
        invariant Sig() == old(Sig())
                  || (WriteWaits(space, old(Sig()), len) && fill == data.Length
                      && Sig() == old(Sig()).(canWrite := false, canRead := true))
        invariant ret == 0
        decreases left, canWrite
      {
        var n := BytesAvailable();
        if left < n { n := left; }
        if n == 0 {
          if isDoneWrite { ret := RB_DONE; break; }
          if abortWrite { ret := RB_ABORT; break; }
          canRead := true;
          if !canWrite { ret := RB_TIMEOUT; break; }
          canWrite := false;
          continue;
        }
        PutBytes(buf, total, n);
        assert stored + buf[..total] + buf[total..total + n] == stored + buf[..total + n];
        FillIsLength(Store());
        left, total := left - n, total + n;
      }
    }

    method AbortRead()
      modifies this
      ensures Store() == old(Store()) && Sig() == old(Sig()).(abortRead := true, canRead := true)
    {
      abortRead, canRead := true, true;
    }

    method AbortWrite()
      modifies this
      ensures Store() == old(Store()) && Sig() == old(Sig()).(abortWrite := true, canWrite := true)
    {
      abortWrite, canWrite := true, true;
    }

    method Abort()
      modifies this
      ensures Store() == old(Store())
      ensures Sig() == old(Sig()).(abortRead := true, canRead := true, abortWrite := true, canWrite := true)
    {
      AbortRead();
      AbortWrite();
    }

    method DoneWrite()
      modifies this
      ensures Store() == old(Store()) && Sig() == old(Sig()).(done := true, canRead := true)
    {
      isDoneWrite, canRead := true, true;
    }

    method UnblockReader()
      modifies this
      ensures Store() == old(Store()) && Sig() == old(Sig()).(unblock := true, canRead := true)
    {
      unblockReader, canRead := true, true;
    }
  }

  lemma Bounds(b: Ring)
    requires Ok(b)
    ensures 0 < |b.data| && b.r <= |b.data| && b.w <= |b.data| && b.fill <= |b.data|
  {
  }

  lemma FillIsLength(b: Ring)
    requires Ok(b)
    ensures |Contents(b)| == b.fill <= |b.data|
  {
  }

  lemma OverlayNothing(a: seq<byte>)
    ensures Overlay(a, 0, []) == a
  {
  }

  lemma OverlayTwice(a: seq<byte>, at: nat, x: seq<byte>, y: seq<byte>)
    requires at + |x| + |y| <= |a|
    ensures Overlay(Overlay(a, at, x), at + |x|, y) == Overlay(a, at, x + y)
  {
  }

  lemma OverlayMore(a: seq<byte>, x: seq<byte>, y: seq<byte>)
    requires |x| + |y| <= |a|
    ensures |Overlay(a, 0, x)| == |a| && Overlay(Overlay(a, 0, x), |x|, y) == Overlay(a, 0, x + y)
  {
  }

  // ---------- what results tell the caller ----------

  /** A positive result is the number of bytes taken; after RB_DONE or RB_TIMEOUT none was taken, and
      RB_DONE means that none is left. */
  lemma ReadResultMeans(stored: nat, s: Signals, len: nat)
    ensures var k, n := ReadResult(stored, s, len), Least(len, stored);
            && (k >= 0 ==> k == n)
            && (k == RB_DONE || k == RB_TIMEOUT ==> n == 0)
            && (k == RB_DONE ==> stored == 0 && s.done)
            && (k < 0 ==> k == RB_DONE || k == RB_ABORT || k == RB_TIMEOUT)
  {
  }

  /** Exactly when a read returns what. The end of the stream is reported as soon as nothing is stored, an abort as
      soon as too little is, and a timeout only if nothing else is to be reported; otherwise the bytes count. */
  lemma ReadResultExactly(stored: nat, s: Signals, len: nat)
    ensures var k := ReadResult(stored, s, len);
            && (k == -2 <==> len > 0 && stored == 0 && s.done)
            && (k == -3 <==> stored < len && s.abortRead && !s.done)
            && (k == -4 <==> len > 0 && stored == 0 && !s.done && !s.abortRead)
            && (k >= 0 <==> stored >= len || (stored > 0 && (s.done || !s.abortRead)))
            && (k >= 0 ==> k == if stored < len then stored else len)
  {
  }

  lemma WriteResultExactly(space: nat, s: Signals, len: nat)
    ensures var k := WriteResult(space, s, len);
            && (k == -2 <==> len > 0 && space == 0 && s.done)
            && (k == -3 <==> space < len && s.abortWrite && !s.done)
            && (k == -4 <==> len > 0 && space == 0 && !s.done && !s.abortWrite)
            && (k >= 0 <==> space >= len || (space > 0 && (s.done || !s.abortWrite)))
            && (k >= 0 ==> k == if space < len then space else len)
  {
  }

  /** What a read leaves behind for others: a writer is woken if and only if bytes were taken or the reader waited,
      a token of the reader is used up if and only if it waited, and an "unblock" lasts for one read. */
  lemma ReadLeaves(stored: nat, s: Signals, len: nat)
    ensures var t := AfterRead(stored, s, len);
            var waited := stored < len && !s.done && !s.abortRead && !s.unblock;
            && (t.canWrite <==> s.canWrite || waited || (stored > 0 && len > 0))
            && (t.canRead <==> s.canRead && !waited)
            && !t.unblock && t.done == s.done && t.abortRead == s.abortRead && t.abortWrite == s.abortWrite
    ensures stored == 0 && len > 0 && !s.done && !s.abortRead ==>
              !AfterRead(0, AfterRead(0, s, len), len).canRead && AfterRead(0, AfterRead(0, s, len), len).canWrite
  {
  }

  lemma WriteLeaves(space: nat, s: Signals, len: nat)
    ensures var t := AfterWrite(space, s, len);
            var waited := space < len && !s.done && !s.abortWrite;
            && (t.canRead <==> s.canRead || waited || (space > 0 && len > 0))
            && (t.canWrite <==> s.canWrite && !waited)
            && t.unblock == s.unblock && t.done == s.done && t.abortRead == s.abortRead && t.abortWrite == s.abortWrite
  {
  }

  /** The number of bytes taken can be told from the result, unless the read is aborted after it took
      some: then RB_ABORT hides how many. */
  lemma ReadCountKnown(stored: nat, s: Signals, len: nat)
    ensures var k, n := ReadResult(stored, s, len), Least(len, stored);
            n == (if k > 0 then k else 0) <==> !(s.abortRead && !s.done && 0 < stored < len)
  {
  }

  lemma WriteResultMeans(space: nat, s: Signals, len: nat)
    ensures var k, n := WriteResult(space, s, len), Least(len, space);
            && (k >= 0 ==> k == n)
            && (k == RB_DONE || k == RB_TIMEOUT ==> n == 0 && space == 0)
            && (k < 0 ==> k == RB_DONE || k == RB_ABORT || k == RB_TIMEOUT)
  {
  }

  lemma WriteCountKnown(space: nat, s: Signals, len: nat)
    ensures var k, n := WriteResult(space, s, len), Least(len, space);
            n == (if k > 0 then k else 0) <==> !(s.abortWrite && !s.done && 0 < space < len)
  {
  }

  /** With one byte stored and room for one, aborted calls for two bytes move one and do not say so. */
  lemma AbortHidesOne()
    ensures var s := Signals(false, false, true, true, false, false);
            && ReadResult(1, s, 2) == RB_ABORT && Least(2, 1) == 1
            && WriteResult(1, s, 2) == RB_ABORT
  {
  }
}
