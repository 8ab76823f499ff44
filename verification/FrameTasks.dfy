/** The speaker task, which plays whole frames from a ring and fills gaps with silence, and the
    microphone task, which puts whole captured frames into a ring and drops those that do not fit. */
module FrameTasks {
  import opened Wrappers
  import opened RingCore
  import opened RingBuffer

  /** Messages to a task; Other is any other message, or none. */
  datatype Op = Idle | Start | Exit | Other

  datatype Wait = NoWait | Forever

  /** A task runs in round `n` if it was told to start, and not to be idle since, nor ever to exit. */
  ghost predicate RunsIn(ops: seq<Op>, n: nat) {
    && n < |ops| && (forall j :: 0 <= j <= n ==> !ops[j].Exit?)
    && exists k :: 0 <= k <= n && ops[k].Start? && forall j :: k < j <= n ==> !ops[j].Idle?
  }

  lemma RunsStep(ops: seq<Op>, n: nat)
    requires n < |ops| && forall j :: 0 <= j <= n ==> !ops[j].Exit?
    ensures RunsIn(ops, n) <==> ops[n].Start? || (n > 0 && RunsIn(ops, n - 1) && !ops[n].Idle?)
  {
    if n > 0 && RunsIn(ops, n - 1) && !ops[n].Idle? {
      var k :| 0 <= k <= n - 1 && ops[k].Start? && forall j :: k < j <= n - 1 ==> !ops[j].Idle?;
      assert forall j :: k < j <= n ==> !ops[j].Idle?;
    }
  }

  function Silence(n: nat): seq<byte> {
    seq(n, _ => 0)
  }

  /** The ring with the thread at its other end. */
  class Link {
    const rb: RingBuf
    /** Everything that went in, and everything that came out, in this run. */
    var put: seq<byte>
    var got: seq<byte>

    ghost predicate Valid()
      reads this, rb, rb.data
    {
      rb.Valid() && got + rb.Stored() == put
    }

    constructor (size: nat)
      requires size > 0
      ensures Valid() && fresh(rb) && fresh(rb.data) && rb.data.Length == size && put == [] && got == []
    {
      rb := new RingBuf(size);
      put, got := [], [];
    }

    method Filled() returns (n: nat)
      requires Valid()
      ensures rb.Valid() && n == |rb.Stored()|
    {
      n := rb.BytesFilled();
    }

    method Available() returns (n: nat)
      requires Valid()
      ensures rb.Valid() && n + |rb.Stored()| == rb.data.Length
    {
      hide Ok, Contents;
      FillIsLength(rb.Store());
      n := rb.BytesAvailable();
    }

    /** A write; the result is what rb_write returns. */
    method Write(s: seq<byte>) returns (result: int)
      requires Valid()
      modifies this`put, rb, rb.data
      ensures Valid()
      ensures var n := Least(|s|, rb.data.Length - old(|rb.Stored()|));
              put == old(put) + s[..n] && rb.Stored() == old(rb.Stored()) + s[..n]
      ensures result == WriteResult(rb.data.Length - old(|rb.Stored()|), old(rb.Sig()), |s|)
    {
      hide Ok, Contents;
      FillIsLength(rb.Store());
      ghost var stored := rb.Stored();
      ghost var n := Least(|s|, rb.data.Length - |stored|);
      var buf := new byte[|s|](i requires 0 <= i < |s| => s[i]);
      assert buf[..] == s && buf[..n] == s[..n];
      var free := rb.BytesAvailable();
      result := rb.Write(buf, |s|);
      put := put + s[..if |s| < free then |s| else free];
      assert got + (stored + s[..n]) == (got + stored) + s[..n];
    }

    /** A read of `len` bytes into a buffer of that size; what is not read stays 0. */
    method Read(len: nat) returns (result: int, bytes: seq<byte>)
      requires Valid()
      modifies this`got, rb
      ensures Valid()
      ensures var n := Least(len, old(|rb.Stored()|));
              && got == old(got) + old(rb.Stored())[..n] && rb.Stored() == old(rb.Stored())[n..]
              && |bytes| == len && bytes[..n] == old(rb.Stored())[..n]
      ensures result == ReadResult(old(|rb.Stored()|), old(rb.Sig()), len)
    {
      hide Ok, Contents, Overlay, ReadResult, AfterRead;
      FillIsLength(rb.Store());
      ghost var stored := rb.Stored();
      ghost var n := Least(len, |stored|);
      var filled := rb.BytesFilled();
      var buf := new byte[len](_ => 0);
      OverlaidFirst(buf[..], stored[..n]);
      assert got + stored == (got + stored[..n]) + stored[n..];
      result := rb.Read(buf, len);
      bytes := buf[..];
      got := got + bytes[..if len < filled then len else filled];
    }
  }

  lemma OverlaidFirst(a: seq<byte>, s: seq<byte>)
    requires |s| <= |a|
    ensures |Overlay(a, 0, s)| == |a| && Overlay(a, 0, s)[..|s|] == s
  {
  }

  // ---------- the speaker ----------

  /** A frame given to the DAC; silent frames are filled in when the ring does not hold a whole one. */
  datatype Played = Played(data: seq<byte>, silent: bool)

  function Sound(played: seq<Played>): seq<byte> {
    if played == [] then []
    else Sound(played[..|played| - 1]) + if played[|played| - 1].silent then [] else played[|played| - 1].data
  }

  lemma SoundMore(played: seq<Played>, p: Played)
    ensures Sound(played + [p]) == Sound(played) + if p.silent then [] else p.data
  {
    assert (played + [p])[..|played|] == played;
  }

  /** One round of the speaker task: what was written to the ring before the fill level is looked at,
      and between that look and the read; the message; and whether the DAC asks for a frame. */
  datatype PlayRound = PlayRound(before: seq<byte>, op: Op, wanted: bool, between: seq<byte>)

  function PlayOps(rounds: seq<PlayRound>): seq<Op> {
    seq(|rounds|, i requires 0 <= i < |rounds| => rounds[i].op)
  }

  /** In how many rounds the task runs and the DAC asks for a frame. */
  ghost function PlayCount(rounds: seq<PlayRound>, n: nat): nat
    requires n <= |rounds|
  {
    if n == 0 then 0
    else PlayCount(rounds, n - 1) + if RunsIn(PlayOps(rounds), n - 1) && rounds[n - 1].wanted then 1 else 0
  }

  lemma {:induction false} PlayedOut(rounds: seq<PlayRound>, n: nat, m: nat)
    requires n < m <= |rounds| && rounds[n].op.Exit?
    ensures PlayCount(rounds, m) == PlayCount(rounds, n)
    decreases m
  {
    assert PlayOps(rounds)[n].Exit?;
    if m > n + 1 { PlayedOut(rounds, n, m - 1); }
  }

  lemma CountMore(rounds: seq<PlayRound>)
    ensures PlayCount(rounds, 0) == 0
    ensures forall n :: 0 <= n < |rounds| ==>
              PlayCount(rounds, n + 1) ==
              PlayCount(rounds, n) + if RunsIn(PlayOps(rounds), n) && rounds[n].wanted then 1 else 0
  {
    hide RunsIn;
  }

  class Speaker {
    const link: Link
    const frameSize: nat
    var running: bool
    var wait: Wait
    var played: seq<Played>
    var notified: nat
    var shortReads: nat

    /** Without the silence, what was played is what was read, in whole frames. */
    ghost predicate Valid()
      reads this, link, link.rb, link.rb.data
    {
      && link.Valid() && link.got == Sound(played) && shortReads == 0
      && (running <==> wait == NoWait)
      && (forall i :: 0 <= i < |played| ==> FrameOk(played[i]))
    }

    ghost predicate FrameOk(p: Played) {
      |p.data| == frameSize && (p.silent ==> forall k :: 0 <= k < frameSize ==> p.data[k] == 0)
    }

    constructor (ringSize: nat, frameSize: nat)
      requires ringSize > 0
      ensures Valid() && fresh(link) && fresh(link.rb) && fresh(link.rb.data) && played == [] && link.put == []
      ensures this.frameSize == frameSize && !running
    {
      link := new Link(ringSize);
      this.frameSize := frameSize;
      running, wait, played, notified, shortReads := false, Forever, [], 0, 0;
    }

    /** Takes a frame from the ring if a whole one is there, and silence otherwise. */
    method PlayFrame(between: seq<byte>)
      requires Valid()
      modifies this`played, this`notified, this`shortReads, link, link.rb, link.rb.data
      ensures Valid() && old(link.put) <= link.put
      ensures |played| == |old(played)| + 1 && played[..|old(played)|] == old(played)
      ensures played[|old(played)|].silent <==> |old(link.rb.Stored())| < frameSize
      ensures notified == old(notified) + if |old(link.rb.Stored())| < frameSize then 1 else 0
    {
      hide Link.Valid, Sound, Silence;
      var filled := link.Filled();
      if filled >= frameSize {
        PlayStored(between);
      } else {
        var n := link.Write(between);
        notified := notified + 1;
        SoundMore(played, Played(Silence(frameSize), true));
        SilenceLength(frameSize);
        played := played + [Played(Silence(frameSize), true)];
      }
    }

    /** The ring only gets fuller until the read, so the read is never short. */
    method PlayStored(between: seq<byte>)
      requires Valid() && |link.rb.Stored()| >= frameSize
      modifies this`played, this`shortReads, link, link.rb, link.rb.data
      ensures Valid() && old(link.put) <= link.put
      ensures |played| == |old(played)| + 1 && played[..|old(played)|] == old(played) && !played[|old(played)|].silent
    {
      hide Link.Valid, Sound, Silence;
      var n := link.Write(between);
      var rLen, buf := link.Read(frameSize);
      shortReads := shortReads + if rLen != frameSize then 1 else 0;
      var frame := Played(if rLen != frameSize then Silence(frameSize) else buf, false);
      SoundMore(played, frame);
      assert buf[..frameSize] == buf;
      played := played + [frame];
    }

    lemma SilenceLength(n: nat)
      ensures |Silence(n)| == n && forall k :: 0 <= k < n ==> Silence(n)[k] == 0
    {
    }

    /** A message other than Exit. */
    method Obey(op: Op)
      requires Valid() && !op.Exit?
      modifies this`running, this`wait
      ensures Valid() && (running <==> op.Start? || (old(running) && !op.Idle?))
    {
      hide Link.Valid, Sound;
      match op {
        case Idle => running, wait := false, Forever;
        case Start => running, wait := true, NoWait;
        case _ =>
      }
    }

    /** The task, until it is told to exit: one frame for each round in which it runs and is asked for one. */
    method Task(rounds: seq<PlayRound>)
      requires Valid() && !running
      modifies this, link, link.rb, link.rb.data
      ensures Valid() && old(link.put) <= link.put
      ensures old(played) <= played && |played| == |old(played)| + PlayCount(rounds, |rounds|)
      ensures Sound(played) + link.rb.Stored() == link.put
      ensures shortReads == 0
    {
      hide Link.Valid, Sound, RunsIn, PlayCount;
      ghost var ops := PlayOps(rounds);
      CountMore(rounds);
      for n := 0 to |rounds|
        invariant Valid() && old(link.put) <= link.put
        invariant old(played) <= played && |played| == |old(played)| + PlayCount(rounds, n)
        invariant (forall j :: 0 <= j < n ==> !ops[j].Exit?) && (running <==> n > 0 && RunsIn(ops, n - 1))
      {
        var m := link.Write(rounds[n].before);
        if rounds[n].op.Exit? {
          PlayedOut(rounds, n, |rounds|);
          break;
        }
        Obey(rounds[n].op);
        RunsStep(ops, n);
        if running && rounds[n].wanted { PlayFrame(rounds[n].between); }
      }
      running, wait := false, Forever;
      GotAndStored();
    }

    lemma GotAndStored()
      requires Valid()
      ensures link.rb.Valid() && Sound(played) + link.rb.Stored() == link.put
    {
    }
  }

  // ---------- the microphone ----------

  /** A captured frame, and whether there was room for it. */
  datatype Captured = Captured(data: seq<byte>, kept: bool)

  function Kept(captured: seq<Captured>): seq<byte> {
    if captured == [] then []
    else Kept(captured[..|captured| - 1]) + if captured[|captured| - 1].kept then captured[|captured| - 1].data else []
  }

  lemma KeptMore(captured: seq<Captured>, c: Captured)
    ensures Kept(captured + [c]) == Kept(captured) + if c.kept then c.data else []
  {
    assert (captured + [c])[..|captured|] == captured;
  }

  /** One round of the microphone task: what the consumer takes before the free space is looked at, and
      between that look and the write; the message; and the frame the ADC offers, if any. */
  datatype RecordRound = RecordRound(before: nat, op: Op, frame: Option<seq<byte>>, between: nat)

  function RecordOps(rounds: seq<RecordRound>): seq<Op> {
    seq(|rounds|, i requires 0 <= i < |rounds| => rounds[i].op)
  }

  /** The frames that the ADC offers in rounds in which the task runs. */
  ghost function Offered(rounds: seq<RecordRound>, n: nat): seq<seq<byte>>
    requires n <= |rounds|
  {
    if n == 0 then []
    else
      Offered(rounds, n - 1)
      + if RunsIn(RecordOps(rounds), n - 1) && rounds[n - 1].frame.Some? then [rounds[n - 1].frame.value] else []
  }

  lemma {:induction false} RecordedOut(rounds: seq<RecordRound>, n: nat, m: nat)
    requires n < m <= |rounds| && rounds[n].op.Exit?
    ensures Offered(rounds, m) == Offered(rounds, n)
    decreases m
  {
    assert RecordOps(rounds)[n].Exit?;
    if m > n + 1 { RecordedOut(rounds, n, m - 1); }
  }

  function DataOf(captured: seq<Captured>): seq<seq<byte>> {
    seq(|captured|, i requires 0 <= i < |captured| => captured[i].data)
  }

  lemma DataMore(captured: seq<Captured>, c: Captured)
    ensures DataOf(captured + [c]) == DataOf(captured) + [c.data]
  {
  }

  lemma OfferedMore(rounds: seq<RecordRound>, n: nat)
    requires n < |rounds|
    ensures Offered(rounds, n + 1) == Offered(rounds, n)
            + if RunsIn(RecordOps(rounds), n) && rounds[n].frame.Some? then [rounds[n].frame.value] else []
  {
    hide RunsIn;
  }

  lemma NothingOffered(rounds: seq<RecordRound>)
    ensures Offered(rounds, 0) == []
  {
  }

  class Microphone {
    const link: Link
    const frameSize: nat
    var running: bool
    var wait: Wait
    var captured: seq<Captured>
    var shortWrites: nat

    /** What went into the ring is the kept frames, each of them whole. */
    ghost predicate Valid()
      reads this, link, link.rb, link.rb.data
    {
      && link.Valid() && link.put == Kept(captured) && shortWrites == 0
      && (running <==> wait == NoWait)
      && (forall i :: 0 <= i < |captured| ==> |captured[i].data| == frameSize)
    }

    constructor (ringSize: nat, frameSize: nat)
      requires ringSize > 0
      ensures Valid() && fresh(link) && fresh(link.rb) && fresh(link.rb.data) && captured == [] && link.got == []
      ensures this.frameSize == frameSize && !running
    {
      link := new Link(ringSize);
      this.frameSize := frameSize;
      running, wait, captured, shortWrites := false, Forever, [], 0;
    }

    /** Puts the frame into the ring if all of it fits, and drops it otherwise. */
    method RecordFrame(frame: seq<byte>, between: nat)
      requires Valid() && |frame| == frameSize
      modifies this`captured, this`shortWrites, link, link.rb, link.rb.data
      ensures Valid() && old(link.got) <= link.got
      ensures captured == old(captured) + [Captured(frame, |old(link.rb.Stored())| + frameSize <= link.rb.data.Length)]
    {
      hide Link.Valid, Kept;
      var free := link.Available();
      var taken, bytes := TakeSome(between);
      if free >= frameSize {
        var wLen := link.Write(frame);
        assert frame[..frameSize] == frame;
        shortWrites := shortWrites + if wLen != frameSize then 1 else 0;
        KeptMore(captured, Captured(frame, true));
        captured := captured + [Captured(frame, true)];
      } else {
        KeptMore(captured, Captured(frame, false));
        captured := captured + [Captured(frame, false)];
      }
    }

    /** The consumer at the other end. */
    method TakeSome(len: nat) returns (result: int, bytes: seq<byte>)
      requires Valid()
      modifies link`got, link.rb
      ensures Valid() && old(link.got) <= link.got && link.rb.Valid()
      ensures |link.rb.Stored()| <= |old(link.rb.Stored())|
    {
      hide Kept;
      result, bytes := link.Read(len);
    }

    /** A message other than Exit. */
    method Obey(op: Op)
      requires Valid() && !op.Exit?
      modifies this`running, this`wait
      ensures Valid() && (running <==> op.Start? || (old(running) && !op.Idle?))
    {
      hide Link.Valid, Kept;
      match op {
        case Idle => running, wait := false, Forever;
        case Start => running, wait := true, NoWait;
        case _ =>
      }
    }

    /** The task, until it is told to exit: every frame offered while it runs is captured, kept or not. */
    method Task(rounds: seq<RecordRound>)
      requires Valid() && !running
      requires forall i :: 0 <= i < |rounds| && rounds[i].frame.Some? ==> |rounds[i].frame.value| == frameSize
      modifies this, link, link.rb, link.rb.data
      ensures Valid() && old(link.got) <= link.got
      ensures DataOf(captured) == DataOf(old(captured)) + Offered(rounds, |rounds|)
      ensures link.got + link.rb.Stored() == Kept(captured)
      ensures shortWrites == 0
    {
      hide Link.Valid, Kept, RunsIn, DataOf, Offered;
      ghost var ops := RecordOps(rounds);
      NothingOffered(rounds);
      for n := 0 to |rounds|
        invariant Valid() && old(link.got) <= link.got
        invariant DataOf(captured) == DataOf(old(captured)) + Offered(rounds, n)
        invariant (forall j :: 0 <= j < n ==> !ops[j].Exit?) && (running <==> n > 0 && RunsIn(ops, n - 1))
      {
        var taken, bytes := TakeSome(rounds[n].before);
        if rounds[n].op.Exit? {
          RecordedOut(rounds, n, |rounds|);
          break;
        }
        Obey(rounds[n].op);
        RunsStep(ops, n);
        OfferedMore(rounds, n);
        if running && rounds[n].frame.Some? {
          ghost var was := captured;
          RecordFrame(rounds[n].frame.value, rounds[n].between);
          DataMore(was, captured[|was|]);
        }
      }
      running, wait := false, Forever;
      GotAndStored();
    }

    lemma GotAndStored()
      requires Valid()
      ensures link.rb.Valid() && link.got + link.rb.Stored() == Kept(captured)
    {
    }
  }

  // ---------- whole frames ----------

  /** The frames that count, in order. */
  function KeptFrames(captured: seq<Captured>): seq<seq<byte>> {
    if captured == [] then []
    else KeptFrames(captured[..|captured| - 1])
         + if captured[|captured| - 1].kept then [captured[|captured| - 1].data] else []
  }

  predicate FrameAt(stream: seq<byte>, at: nat, frame: seq<byte>) {
    at + |frame| <= |stream| && stream[at..at + |frame|] == frame
  }

  /** The stream into the ring is cut at multiples of the frame size, each piece a captured frame: no
      frame is split, and the order of capture is kept. */
  lemma {:induction false} NoFrameSplit(captured: seq<Captured>, frameSize: nat)
    requires forall i :: 0 <= i < |captured| ==> |captured[i].data| == frameSize
    ensures |Kept(captured)| == |KeptFrames(captured)| * frameSize
    ensures forall k :: 0 <= k < |KeptFrames(captured)| ==>
            FrameAt(Kept(captured), k * frameSize, KeptFrames(captured)[k])
  {
    hide FrameAt;
    if captured != [] {
      var init, last := captured[..|captured| - 1], captured[|captured| - 1];
      NoFrameSplit(init, frameSize);
      var bytes, frames := Kept(init), KeptFrames(init);
      if last.kept {
        Distribute(|frames|, frameSize);
        forall k | 0 <= k < |frames| + 1 ensures FrameAt(bytes + last.data, k * frameSize, (frames + [last.data])[k]) {
          if k < |frames| {
            StillAt(bytes, last.data, k * frameSize, frames[k]);
          } else {
            LastAt(bytes, last.data);
          }
        }
      } else {
        assert Kept(captured) == bytes && KeptFrames(captured) == frames;
      }
    }
  }

  lemma StillAt(a: seq<byte>, b: seq<byte>, at: nat, frame: seq<byte>)
    requires FrameAt(a, at, frame)
    ensures FrameAt(a + b, at, frame)
  {
    assert (a + b)[at..at + |frame|] == a[at..at + |frame|];
  }

  lemma LastAt(a: seq<byte>, b: seq<byte>)
    ensures FrameAt(a + b, |a|, b)
  {
  }

  lemma Distribute(n: nat, size: nat)
    ensures (n + 1) * size == n * size + size
  {
  }
}
