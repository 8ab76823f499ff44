/** The same agreement of the two models for a write that runs alone. */
module RingAloneWrite {
  import opened Wrappers
  import opened RingCore
  import opened RingBuffer
  import opened RingProtocol
  import opened RingAlone

  lemma PutNothing(b: Ring)
    requires Ok(b)
    ensures PutIn(b, []) == b
  {
    assert Overlay(b.data, b.w, []) == b.data;
  }

  /** The next step of a writer that times out only when it can do nothing else. */
  function WriteAloneStep(s: State): Step
    requires Inv(s)
  {
    Steppable(s);
    if WriterStep(s).Some? then WriteStep else WriteTimeout
  }

  /** The same for the part of a step outside the copying section. */
  function WriteAloneSync(y: Sync, wr: Writer): (Sync, Writer) {
    var next := WriterSync(y, wr);
    if next.Some? then next.value else (y, wr.(pc := Exit, ret := RB_TIMEOUT))
  }

  function Left(wr: Writer): nat {
    if wr.pos <= |wr.buf| then |wr.buf| - wr.pos else 0
  }

  function SpaceIn(b: Ring): nat {
    if b.fill <= |b.data| then |b.data| - b.fill else 0
  }

  /** What the writer knows at each point, as long as nobody interferes. */
  predicate WriteKnows(space: nat, y: Sync, wr: Writer) {
    WriterPlace(space, y, wr) && WriterFlags(y, wr)
  }

  predicate WriterPlace(space: nat, y: Sync, wr: Writer) {
    && y.lock == (if Locked(wr.pc) then Some(TheWriter) else None)
    && wr.pos <= |wr.buf| && !wr.pc.ChkUnblock?
    && (Waiting(wr.pc) || Checking(wr.pc) ==> space == 0 && Left(wr) > 0)
    && (wr.pc.Crit? || wr.pc.Lock? ==> Left(wr) > 0)
    && (wr.pc.UnlockCopied? ==> Left(wr) == 0 || space == 0)
    && (!Leaving(wr.pc) ==> wr.ret == 0)
  }

  predicate WriterFlags(y: Sync, wr: Writer) {
    && (wr.pc.ChkAbort? || wr.pc.UnlockWait? || Waiting(wr.pc) ==> !y.done)
    && (wr.pc.UnlockWait? || Waiting(wr.pc) ==> !y.abortWrite)
    && (wr.pc.Take? ==> y.canRead)
  }

  function WritePlan(space: nat, y: Sync, wr: Writer): Plan {
    var g := SignalsOf(y);
    if Leaving(wr.pc) then
      Plan(0, wr.ret, y.(canRead := y.canRead || (wr.pos > 0 && !wr.pc.Finish?), lock := None))
    else
      var take := Least(Left(wr), space);
      var stop := if Left(wr) <= space then 0 else RingBuffer.WriteStop(g);
      var waits := WriteWaits(space, g, Left(wr));
      Plan(take, stop, y.(canWrite := y.canWrite && !waits, canRead := y.canRead || waits || wr.pos + take > 0,
                          lock := None))
  }

  /** Steps until the end of the call. */
  function WriteRemaining(space: nat, y: Sync, wr: Writer): nat {
    var again := if y.canWrite then 12 else 0;
    match wr.pc
    case Idle => 0
    case Finish => 1
    case Exit => 2
    case UnlockStop => 3
    case Take => again + 3
    case Give => again + 4
    case UnlockWait => again + 5
    case ChkUnblock => 0
    case ChkAbort => again + 7
    case ChkDone => again + 8
    case Crit => again + if space == 0 then 9 else 13
    case Lock => again + if space == 0 then 10 else 14
    case Head => again + if space == 0 then 11 else 15
    case UnlockCopied => again + 12
  }

  lemma WriteCheckKeepsPlace(space: nat, y: Sync, wr: Writer)
    requires WriteKnows(space, y, wr) && (Checking(wr.pc) || Waiting(wr.pc))
    ensures var (y', wr') := WriteAloneSync(y, wr);
            WriterPlace(space, y', wr') && !wr'.pc.Idle? && wr'.buf == wr.buf && wr'.pos == wr.pos
  {
  }

  lemma WriteLeaveKeepsPlace(space: nat, y: Sync, wr: Writer)
    requires WriteKnows(space, y, wr) && Leaving(wr.pc) && !wr.pc.Finish?
    ensures var (y', wr') := WriteAloneSync(y, wr);
            WriterPlace(space, y', wr') && !wr'.pc.Idle? && wr'.buf == wr.buf && wr'.pos == wr.pos
  {
  }

  lemma WriteLoopKeepsPlace(space: nat, y: Sync, wr: Writer)
    requires WriteKnows(space, y, wr) && (wr.pc.Head? || wr.pc.Lock? || wr.pc.UnlockCopied?)
    ensures var (y', wr') := WriteAloneSync(y, wr);
            WriterPlace(space, y', wr') && !wr'.pc.Idle? && wr'.buf == wr.buf && wr'.pos == wr.pos
  {
    hide WriterFlags;
  }

  lemma WriteSyncKeepsFlags(space: nat, y: Sync, wr: Writer)
    requires WriteKnows(space, y, wr) && ReadSyncing(wr.pc)
    ensures var (y', wr') := WriteAloneSync(y, wr); WriterFlags(y', wr')
  {
  }

  lemma WriteSyncNearer(space: nat, y: Sync, wr: Writer)
    requires WriteKnows(space, y, wr) && !wr.pc.Idle? && !wr.pc.Crit?
    ensures var (y', wr') := WriteAloneSync(y, wr); WriteRemaining(space, y', wr') < WriteRemaining(space, y, wr)
  {
  }

  lemma WriteCheckKeepsPlan(space: nat, y: Sync, wr: Writer)
    requires WriteKnows(space, y, wr) && (Checking(wr.pc) || Waiting(wr.pc))
    ensures var (y', wr') := WriteAloneSync(y, wr); WritePlan(space, y', wr') == WritePlan(space, y, wr)
  {
  }

  lemma WriteLeaveKeepsPlan(space: nat, y: Sync, wr: Writer)
    requires WriteKnows(space, y, wr) && Leaving(wr.pc) && !wr.pc.Finish?
    ensures var (y', wr') := WriteAloneSync(y, wr); WritePlan(space, y', wr') == WritePlan(space, y, wr)
  {
  }

  lemma WriteLoopKeepsPlan(space: nat, y: Sync, wr: Writer)
    requires WriteKnows(space, y, wr) && (wr.pc.Head? || wr.pc.Lock? || wr.pc.UnlockCopied?)
    ensures var (y', wr') := WriteAloneSync(y, wr); WritePlan(space, y', wr') == WritePlan(space, y, wr)
  {
    hide RingBuffer.WriteStop;
  }

  predicate WriteAloneInv(s: State) {
    Inv(s) && WriteKnows(SpaceIn(s.store.ring), s.y, s.wr)
  }

  /** The bytes the call is still going to put. */
  function StillToPut(s: State): seq<byte> {
    var take := WritePlan(SpaceIn(s.store.ring), s.y, s.wr).take;
    if s.wr.pos + take <= |s.wr.buf| then s.wr.buf[s.wr.pos..s.wr.pos + take] else []
  }

  function PutIn(b: Ring, s: seq<byte>): Ring {
    if Ok(b) && b.fill + |s| <= |b.data| then PutChunk(b, s) else b
  }

  /** The state in which the call in progress will end. */
  function WriteEnd(s: State): State {
    if s.wr.pc.Idle? || s.wr.pos > |s.wr.buf| then s
    else
      var bytes := StillToPut(s);
      var plan := WritePlan(SpaceIn(s.store.ring), s.y, s.wr);
      State(Store(PutIn(s.store.ring, bytes), s.store.written + bytes, s.store.read), plan.after, s.rd, IDLE_WRITER,
            s.readCalls, s.writeCalls + [Finished(s.wr.buf[..s.wr.pos] + bytes, plan.stop)])
  }

  lemma PutFits(s: State)
    requires Ok(s.store.ring) && s.wr.pos <= |s.wr.buf|
    ensures s.store.ring.fill + |StillToPut(s)| <= |s.store.ring.data|
    ensures |StillToPut(s)| == WritePlan(SpaceIn(s.store.ring), s.y, s.wr).take
  {
  }

  /** The locked section puts what the call will put, and the rest of the plan stays. */
  lemma WriteCritKeepsPlan(space: nat, y: Sync, wr: Writer, space': nat, wr': Writer)
    requires WriteKnows(space, y, wr) && wr.pc.Crit? && space > 0 && wr'.pc.UnlockCopied? && wr'.ret == wr.ret
             && wr'.buf == wr.buf
    requires var take := Least(Left(wr), space); space' == space - take && wr'.pos == wr.pos + take
    ensures WriteKnows(space', y, wr') && WriteRemaining(space', y, wr') < WriteRemaining(space, y, wr)
    ensures WritePlan(space', y, wr') == WritePlan(space, y, wr).(take := 0)
    ensures WritePlan(space, y, wr).take == Least(Left(wr), space)
  {
  }

  lemma WriteCritFull(y: Sync, wr: Writer)
    requires WriteKnows(0, y, wr) && wr.pc.Crit?
    ensures var wr' := wr.(pc := ChkDone);
            WriteKnows(0, y, wr') && WriteRemaining(0, y, wr') < WriteRemaining(0, y, wr)
                && WritePlan(0, y, wr') == WritePlan(0, y, wr)
  {
  }

  lemma WriteCritPlanned(s: State)
    requires WriteAloneInv(s) && s.wr.pc.Crit?
    ensures Planned(s)
  {
    hide Inv, WriterPlace, WriterFlags, WritePlan, WriteRemaining, Ok, Contents, PutIn, Finished, WriterSync, WriteCrit;
    Steppable(s);
    CritStep(s);
    WriterInv(s);
    var s' := WriterStep(s).value;
    Steppable(s');
    if SpaceIn(s.store.ring) > 0 {
      WriteCritCopies(s);
      WriteCritKeepsPlan(SpaceIn(s.store.ring), s.y, s.wr, SpaceIn(s'.store.ring), s'.wr);
      PutNothing(s'.store.ring);
      var bytes := StillToPut(s);
      assert StillToPut(s') == [];
      assert s'.wr.buf[..s'.wr.pos] + [] == s.wr.buf[..s.wr.pos] + bytes
             && s'.store.written + [] == s.store.written + bytes;
    } else {
      CritFull(s);
      WriteCritFull(s.y, s.wr);
    }
  }

  lemma CritStep(s: State)
    requires WriteAloneInv(s) && s.wr.pc.Crit?
    ensures Ok(s.store.ring) && s.wr.pos <= |s.wr.buf| && WriterStep(s).Some?
            && Next(s, WriteAloneStep(s)) == WriterStep(s)
  {
    Steppable(s);
    hide Inv, WriteKnows, WriteCrit;
  }

  lemma CritFull(s: State)
    requires WriteAloneInv(s) && s.wr.pc.Crit? && SpaceIn(s.store.ring) == 0
    ensures Ok(s.store.ring) && s.wr.pos <= |s.wr.buf|
    ensures WriterStep(s) == Some(s.(wr := s.wr.(pc := ChkDone)))
  {
    Steppable(s);
    hide Inv, WriteKnows, PutChunk;
  }

  lemma CritRoom(s: State)
    requires WriteAloneInv(s) && s.wr.pc.Crit? && Ok(s.store.ring)
    ensures Left(s.wr) > 0 && s.store.ring.fill <= |s.store.ring.data|
  {
    hide Inv, WriterFlags;
  }

  lemma StillToPutAtCrit(s: State)
    requires s.wr.pc.Crit? && s.wr.pos <= |s.wr.buf|
    ensures var take := Least(Left(s.wr), SpaceIn(s.store.ring));
            |StillToPut(s)| == take && StillToPut(s) == s.wr.buf[s.wr.pos..s.wr.pos + take]
  {
  }

  lemma WriteCritCopies(s: State)
    requires WriteAloneInv(s) && s.wr.pc.Crit? && SpaceIn(s.store.ring) > 0
    ensures Ok(s.store.ring) && s.wr.pos <= |s.wr.buf| && WriterStep(s).Some?
    ensures var s' := WriterStep(s).value; var take := Least(Left(s.wr), SpaceIn(s.store.ring));
            && s'.wr.pc.UnlockCopied? && s'.wr.ret == s.wr.ret && s'.wr.buf == s.wr.buf && s'.y == s.y && s'.rd == s.rd
            && s'.readCalls == s.readCalls && s'.writeCalls == s.writeCalls && s'.store.read == s.store.read
            && SpaceIn(s'.store.ring) == SpaceIn(s.store.ring) - take && s'.wr.pos == s.wr.pos + take
            && s'.store.ring == PutIn(s.store.ring, StillToPut(s))
            && s'.store.written == s.store.written + StillToPut(s)
            && |StillToPut(s)| == take
  {
    hide Inv, WriteKnows, Contents, WriterSync, Finished, Overlay, StillToPut, Ok;
    Steppable(s);
    CritRoom(s);
    StillToPutAtCrit(s);
    PutIsEnqueue(s.store.ring, StillToPut(s));
  }

  lemma WriteStepIsSync(s: State)
    requires WriteAloneInv(s) && !s.wr.pc.Idle? && !s.wr.pc.Crit?
    ensures Ok(s.store.ring) && s.wr.pos <= |s.wr.buf|
    ensures var (y', wr') := WriteAloneSync(s.y, s.wr);
            Next(s, WriteAloneStep(s)) ==
              Some(s.(y := y', wr := wr', writeCalls := s.writeCalls +
                      if s.wr.pc.Finish? then [Finished(s.wr.buf[..s.wr.pos], s.wr.ret)] else []))
  {
    Steppable(s);
    hide Ok, Conserved, ReadsAccounted, WritesAccounted, SyncInv, Finished;
    assert s.writeCalls + [] == s.writeCalls;
  }

  /** A step changes nothing about how the call will end, and brings the end nearer. */
  ghost predicate Planned(s: State)
    requires WriteAloneInv(s)
  {
    Steppable(s);
    var next := Next(s, WriteAloneStep(s));
    && next.Some? && Inv(next.value)
    && (next.value.wr.pc.Idle? || WriteAloneInv(next.value))
    && WriteEnd(next.value) == WriteEnd(s)
    && WriteRemaining(SpaceIn(next.value.store.ring), next.value.y, next.value.wr) <
       WriteRemaining(SpaceIn(s.store.ring), s.y, s.wr)
  }

  lemma WriteOtherPlanned(s: State)
    requires WriteAloneInv(s) && !s.wr.pc.Idle? && !s.wr.pc.Crit?
    ensures Planned(s)
  {
    hide Inv, WriterPlace, WriterFlags, WriteAloneSync, PutIn, Ok, WriteRemaining, WritePlan, Next, WriterSync,
         Finished;
    Steppable(s);
    var space, y, wr := SpaceIn(s.store.ring), s.y, s.wr;
    WriteSyncNearer(space, y, wr);
    WriteStepIsSync(s);
    NextInv(s, WriteAloneStep(s));
    var s' := Next(s, WriteAloneStep(s)).value;
    if wr.pc.Finish? {
      FinishEnds(s);
    } else {
      WriteSyncKeepsFlags(space, y, wr);
      if Checking(wr.pc) || Waiting(wr.pc) {
        WriteCheckKeepsPlace(space, y, wr);
        WriteCheckKeepsPlan(space, y, wr);
      } else if Leaving(wr.pc) {
        WriteLeaveKeepsPlace(space, y, wr);
        WriteLeaveKeepsPlan(space, y, wr);
      } else {
        WriteLoopKeepsPlace(space, y, wr);
        WriteLoopKeepsPlan(space, y, wr);
      }
      assert StillToPut(s') == StillToPut(s);
      assert s.writeCalls + [] == s.writeCalls;
    }
  }

  /** The last step leaves exactly the planned state. */
  lemma FinishEnds(s: State)
    requires WriteAloneInv(s) && s.wr.pc.Finish?
    ensures var (y', wr') := WriteAloneSync(s.y, s.wr);
            WriteEnd(s) == s.(y := y', wr := wr',
                              writeCalls := s.writeCalls + [Finished(s.wr.buf[..s.wr.pos], s.wr.ret)]) && wr'.pc.Idle?
  {
    Steppable(s);
    PutNothing(s.store.ring);
    hide Inv, Ok, PutIn, Finished;
    assert StillToPut(s) == [];
    assert s.wr.buf[..s.wr.pos] + [] == s.wr.buf[..s.wr.pos] && s.store.written + [] == s.store.written;
  }

  lemma WriteStepPlanned(s: State)
    requires WriteAloneInv(s) && !s.wr.pc.Idle?
    ensures Planned(s)
  {
    hide Planned, Inv, WriteKnows;
    if s.wr.pc.Crit? { WriteCritPlanned(s); } else { WriteOtherPlanned(s); }
  }

  function WriteAloneRun(s: State, n: nat): State
    requires WriteAloneInv(s)
    decreases n
  {
    hide Inv, WriteKnows, Next, WriteEnd, WriteRemaining;
    if n == 0 || s.wr.pc.Idle? then s
    else
      WriteStepPlanned(s);
      Steppable(s);
      var s' := Next(s, WriteAloneStep(s)).value;
      if s'.wr.pc.Idle? then s' else WriteAloneRun(s', n - 1)
  }

  lemma {:induction false} WriteAloneEnds(s: State, n: nat)
    requires WriteAloneInv(s) && WriteRemaining(SpaceIn(s.store.ring), s.y, s.wr) <= n
    ensures Inv(WriteAloneRun(s, n)) && WriteAloneRun(s, n) == WriteEnd(s)
    decreases n
  {
    hide Next, WritePlan, WriteRemaining, PutIn, WriteKnows, Inv, Ok, WriteAloneStep, StillToPut, Finished;
    Steppable(s);
    if !s.wr.pc.Idle? {
      WriteStepPlanned(s);
      var s' := Next(s, WriteAloneStep(s)).value;
      if !s'.wr.pc.Idle? { WriteAloneEnds(s', n - 1); }
    } else { assert WriteAloneRun(s, n) == s; }
  }

  lemma WriteCallKnows(s: State, buf: seq<byte>)
    requires Inv(s) && s.wr.pc.Idle? && s.y.lock.None?
    ensures WriteKnows(SpaceIn(s.store.ring), s.y, Writer(Head, buf, 0, 0))
    ensures WriteRemaining(SpaceIn(s.store.ring), s.y, Writer(Head, buf, 0, 0)) <= 27
  {
    hide Inv;
  }

  /** The plan of a fresh call is what the sequential specification says. */
  lemma WriteCallPlan(space: nat, y: Sync, buf: seq<byte>)
    requires y.lock.None?
    ensures var plan := WritePlan(space, y, Writer(Head, buf, 0, 0));
            && plan.take == Least(|buf|, space)
            && Outcome(plan.take, plan.stop) == WriteResult(space, SignalsOf(y), |buf|)
            && SignalsOf(plan.after) == AfterWrite(space, SignalsOf(y), |buf|)
  {
  }

  /** A write that nobody interferes with ends after at most 27 steps, exactly as RingBuf.Write states. */
  lemma WriteAlone(s: State, buf: seq<byte>)
    requires Inv(s) && s.wr.pc.Idle? && s.y.lock.None?
    ensures Inv(Next(s, WriteCall(buf)).value) && WriteAloneInv(Next(s, WriteCall(buf)).value)
    ensures var g, stored := SignalsOf(s.y), Contents(s.store.ring);
            var space := SpaceIn(s.store.ring);
            var s' := WriteAloneRun(Next(s, WriteCall(buf)).value, 27);
            && space == |s.store.ring.data| - |stored|
            && Inv(s') && s'.wr.pc.Idle? && s'.rd == s.rd
            && Contents(s'.store.ring) == stored + buf[..Least(|buf|, space)]
            && s'.writeCalls == s.writeCalls + [Call(buf[..Least(|buf|, space)], WriteResult(space, g, |buf|))]
            && SignalsOf(s'.y) == AfterWrite(space, g, |buf|)
  {
    Steppable(s);
    NextInv(s, WriteCall(buf));
    var s0 := Next(s, WriteCall(buf)).value;
    WriteCallKnows(s, buf);
    WriteAloneEnds(s0, 27);
    WriteCallPlan(SpaceIn(s.store.ring), s.y, buf);
    FillIsLength(s.store.ring);
    PutFits(s0);
    PutIsEnqueue(s.store.ring, StillToPut(s0));
    assert StillToPut(s0) == buf[..Least(|buf|, SpaceIn(s.store.ring))];
    assert buf[..0] + StillToPut(s0) == StillToPut(s0);
    hide Inv, Ok, Contents, PutChunk, WriteAloneRun, Next, PutIn, WriteKnows, WritePlan, WriteRemaining, AfterWrite,
         RingBuffer.WriteStop;
  }
}
