/** The two models of the ring buffer agree: a call that runs alone in the step system has exactly
    the effect and the result that the sequential class states. */
module RingAlone {
  import opened Wrappers
  import opened RingCore
  import opened RingBuffer
  import opened RingProtocol

  function SignalsOf(y: Sync): Signals {
    Signals(y.canRead, y.canWrite, y.abortRead, y.abortWrite, y.done, y.unblock)
  }

  /** Nothing left to do for the call but to leave. */
  predicate Leaving(pc: Pc) {
    pc.UnlockStop? || pc.Exit? || pc.Finish?
  }

  lemma GetNothing(b: Ring)
    requires Ok(b)
    ensures GetChunk(b, 0) == (b, [])
  {
    assert GetChunk(b, 0).1 == [];
  }

  // ---------- a read ----------

  /** The next step of a reader that times out only when it can do nothing else. */
  function ReadAloneStep(s: State): Step
    requires Inv(s)
  {
    Steppable(s);
    if ReaderStep(s).Some? then ReadStep else ReadTimeout
  }

  /** The same for the part of a step outside the copying section. */
  function ReadAloneSync(y: Sync, rd: Reader): (Sync, Reader) {
    var next := ReaderSync(y, rd);
    if next.Some? then next.value else (y, rd.(pc := Exit, ret := RB_TIMEOUT))
  }

  /** What the reader knows at each point, as long as nobody interferes. */
  predicate ReadKnows(fill: nat, y: Sync, rd: Reader) {
    KnowsPlace(fill, y, rd) && KnowsFlags(y, rd)
  }

  predicate KnowsPlace(fill: nat, y: Sync, rd: Reader) {
    && y.lock == (if Locked(rd.pc) then Some(TheReader) else None)
    && (Waiting(rd.pc) || Checking(rd.pc) ==> fill == 0 && rd.left > 0)
    && (rd.pc.Crit? || rd.pc.Lock? ==> rd.left > 0)
    && (rd.pc.UnlockCopied? ==> rd.left == 0 || fill == 0)
    && (!Leaving(rd.pc) ==> rd.ret == 0)
  }

  predicate KnowsFlags(y: Sync, rd: Reader) {
    && (rd.pc.ChkAbort? || rd.pc.ChkUnblock? || rd.pc.UnlockWait? || Waiting(rd.pc) ==> !y.done)
    && (rd.pc.ChkUnblock? || rd.pc.UnlockWait? || Waiting(rd.pc) ==> !y.abortRead)
    && (rd.pc.UnlockWait? || Waiting(rd.pc) ==> !y.unblock)
    && (rd.pc.Take? ==> y.canWrite)
  }

  /** How many bytes the call is still going to take, why it will stop, and what it will leave behind. */
  datatype Plan = Plan(take: nat, stop: int, after: Sync)

  function ReadPlan(fill: nat, y: Sync, rd: Reader): Plan {
    var g := SignalsOf(y);
    if Leaving(rd.pc) then
      Plan(0, rd.ret, y.(canWrite := y.canWrite || (rd.got != [] && !rd.pc.Finish?), unblock := false, lock := None))
    else
      var take := Least(rd.left, fill);
      var stop := if rd.left <= fill then 0 else RingBuffer.ReadStop(g);
      var waits := ReadWaits(fill, g, rd.left);
      Plan(take, stop, y.(canRead := y.canRead && !waits, canWrite := y.canWrite || waits || |rd.got| + take > 0,
                          unblock := false, lock := None))
  }

  /** Steps until the end of the call. */
  function ReadRemaining(fill: nat, y: Sync, rd: Reader): nat {
    var again := if y.canRead then 12 else 0;
    match rd.pc
    case Idle => 0
    case Finish => 1
    case Exit => 2
    case UnlockStop => 3
    case Take => again + 3
    case Give => again + 4
    case UnlockWait => again + 5
    case ChkUnblock => again + 6
    case ChkAbort => again + 7
    case ChkDone => again + 8
    case Crit => again + if fill == 0 then 9 else 13
    case Lock => again + if fill == 0 then 10 else 14
    case Head => again + if fill == 0 then 11 else 15
    case UnlockCopied => again + 12
  }

  predicate ReadSyncing(pc: Pc) {
    !pc.Idle? && !pc.Crit? && !pc.Finish?
  }

  lemma ReadCheckKeepsPlace(fill: nat, y: Sync, rd: Reader)
    requires ReadKnows(fill, y, rd) && (Checking(rd.pc) || Waiting(rd.pc))
    ensures var (y', rd') := ReadAloneSync(y, rd); KnowsPlace(fill, y', rd') && !rd'.pc.Idle? && rd'.got == rd.got
  {
  }

  lemma ReadLeaveKeepsPlace(fill: nat, y: Sync, rd: Reader)
    requires ReadKnows(fill, y, rd) && Leaving(rd.pc) && !rd.pc.Finish?
    ensures var (y', rd') := ReadAloneSync(y, rd); KnowsPlace(fill, y', rd') && !rd'.pc.Idle? && rd'.got == rd.got
  {
  }

  lemma ReadLoopKeepsPlace(fill: nat, y: Sync, rd: Reader)
    requires ReadKnows(fill, y, rd) && (rd.pc.Head? || rd.pc.Lock? || rd.pc.UnlockCopied?)
    ensures var (y', rd') := ReadAloneSync(y, rd); KnowsPlace(fill, y', rd') && !rd'.pc.Idle? && rd'.got == rd.got
  {
    hide KnowsFlags;
  }

  lemma ReadSyncKeepsFlags(fill: nat, y: Sync, rd: Reader)
    requires ReadKnows(fill, y, rd) && ReadSyncing(rd.pc)
    ensures var (y', rd') := ReadAloneSync(y, rd); KnowsFlags(y', rd')
  {
  }

  lemma ReadSyncNearer(fill: nat, y: Sync, rd: Reader)
    requires ReadKnows(fill, y, rd) && !rd.pc.Idle? && !rd.pc.Crit?
    ensures var (y', rd') := ReadAloneSync(y, rd); ReadRemaining(fill, y', rd') < ReadRemaining(fill, y, rd)
  {
  }

  /** Looking at the flags decides why the call stops. */
  lemma ReadCheckKeepsPlan(fill: nat, y: Sync, rd: Reader)
    requires ReadKnows(fill, y, rd) && (Checking(rd.pc) || Waiting(rd.pc))
    ensures var (y', rd') := ReadAloneSync(y, rd); ReadPlan(fill, y', rd') == ReadPlan(fill, y, rd)
  {
  }

  lemma ReadLeaveKeepsPlan(fill: nat, y: Sync, rd: Reader)
    requires ReadKnows(fill, y, rd) && Leaving(rd.pc) && !rd.pc.Finish?
    ensures var (y', rd') := ReadAloneSync(y, rd); ReadPlan(fill, y', rd') == ReadPlan(fill, y, rd)
  {
  }

  lemma ReadLoopKeepsPlan(fill: nat, y: Sync, rd: Reader)
    requires ReadKnows(fill, y, rd) && (rd.pc.Head? || rd.pc.Lock? || rd.pc.UnlockCopied?)
    ensures var (y', rd') := ReadAloneSync(y, rd); ReadPlan(fill, y', rd') == ReadPlan(fill, y, rd)
  {
    hide RingBuffer.ReadStop;
    assert rd.got != [] <==> |rd.got| > 0;
  }

  predicate ReadAloneInv(s: State) {
    Inv(s) && ReadKnows(s.store.ring.fill, s.y, s.rd)
  }

  /** The state in which the call in progress will end. */
  function ReadEnd(s: State): State
    requires Ok(s.store.ring)
  {
    if s.rd.pc.Idle? then s
    else
      FillIsLength(s.store.ring);
      var plan := ReadPlan(s.store.ring.fill, s.y, s.rd);
      var (ring, bytes) := GetChunk(s.store.ring, plan.take);
      State(Store(ring, s.store.written, s.store.read + bytes), plan.after, IDLE_READER, s.wr,
            s.readCalls + [Finished(s.rd.got + bytes, plan.stop)], s.writeCalls)
  }

  /** The locked section takes what the call will take, and the rest of the plan stays. */
  lemma ReadCritKeepsPlan(fill: nat, y: Sync, rd: Reader, fill': nat, rd': Reader)
    requires ReadKnows(fill, y, rd) && rd.pc.Crit? && fill > 0 && rd'.pc.UnlockCopied? && rd'.ret == rd.ret
    requires var take := Least(rd.left, fill);
             fill' == fill - take && rd'.left == rd.left - take && |rd'.got| == |rd.got| + take
    ensures ReadKnows(fill', y, rd') && ReadRemaining(fill', y, rd') < ReadRemaining(fill, y, rd)
    ensures ReadPlan(fill', y, rd') == ReadPlan(fill, y, rd).(take := 0)
    ensures ReadPlan(fill, y, rd).take == Least(rd.left, fill)
  {
  }

  lemma ReadCritEmpty(y: Sync, rd: Reader)
    requires ReadKnows(0, y, rd) && rd.pc.Crit?
    ensures var rd' := rd.(pc := ChkDone);
            ReadKnows(0, y, rd') && ReadRemaining(0, y, rd') < ReadRemaining(0, y, rd)
                && ReadPlan(0, y, rd') == ReadPlan(0, y, rd)
  {
  }

  lemma ReadCritPlanned(s: State)
    requires ReadAloneInv(s) && s.rd.pc.Crit?
    ensures ReaderStep(s).Some?
    ensures var s' := ReaderStep(s).value;
            && ReadAloneInv(s') && ReadEnd(s') == ReadEnd(s) && !s'.rd.pc.Idle?
            && ReadRemaining(s'.store.ring.fill, s'.y, s'.rd) < ReadRemaining(s.store.ring.fill, s.y, s.rd)
  {
    Steppable(s);
    ReaderInv(s);
    var s' := ReaderStep(s).value;
    if s.store.ring.fill > 0 {
      var bytes := GetChunk(s.store.ring, Least(s.rd.left, s.store.ring.fill)).1;
      CritCopies(s);
      ReadCritKeepsPlan(s.store.ring.fill, s.y, s.rd, s'.store.ring.fill, s'.rd);
      GetNothing(s'.store.ring);
      assert s'.rd.got + [] == s.rd.got + bytes && s'.store.read + [] == s.store.read + bytes;
    } else {
      ReadCritEmpty(s.y, s.rd);
    }
    hide Inv, ReadKnows, ReadPlan, ReadRemaining, Ok, Contents, GetChunk, Finished, ReaderSync;
  }

  lemma CritCopies(s: State)
    requires ReadAloneInv(s) && s.rd.pc.Crit? && s.store.ring.fill > 0
    ensures ReaderStep(s).Some?
    ensures var s' := ReaderStep(s).value; var take := Least(s.rd.left, s.store.ring.fill);
            && s'.rd.pc.UnlockCopied? && s'.rd.ret == s.rd.ret && s'.y == s.y && s'.wr == s.wr
            && s'.readCalls == s.readCalls && s'.writeCalls == s.writeCalls && s'.store.written == s.store.written
            && s'.store.ring.fill == s.store.ring.fill - take && s'.rd.left == s.rd.left - take
            && s'.rd.got == s.rd.got + GetChunk(s.store.ring, take).1 && |s'.rd.got| == |s.rd.got| + take
            && s'.store.ring == GetChunk(s.store.ring, take).0
            && s'.store.read == s.store.read + GetChunk(s.store.ring, take).1
  {
    Steppable(s);
    FillIsLength(s.store.ring);
    GetIsDequeue(s.store.ring, Least(s.rd.left, s.store.ring.fill));
    hide Ok, Contents, GetChunk, Conserved, SyncInv, ReadsAccounted, WritesAccounted, ReaderSync, Finished;
  }

  /** A step changes nothing about how the call will end, and brings the end nearer. */
  lemma ReadStepPlanned(s: State)
    requires ReadAloneInv(s) && !s.rd.pc.Idle?
    ensures var next := Next(s, ReadAloneStep(s));
            && next.Some? && Inv(next.value)
            && (next.value.rd.pc.Idle? || ReadAloneInv(next.value))
            && ReadEnd(next.value) == ReadEnd(s)
            && ReadRemaining(next.value.store.ring.fill, next.value.y, next.value.rd) <
               ReadRemaining(s.store.ring.fill, s.y, s.rd)
  {
    Steppable(s);
    if s.rd.pc.Crit? {
      ReadCritPlanned(s);
    } else {
      ReadOtherPlanned(s);
    }
  }

  lemma ReadOtherPlanned(s: State)
    requires ReadAloneInv(s) && !s.rd.pc.Idle? && !s.rd.pc.Crit?
    ensures var next := Next(s, ReadAloneStep(s));
            && next.Some? && Inv(next.value)
            && (next.value.rd.pc.Idle? || ReadAloneInv(next.value))
            && ReadEnd(next.value) == ReadEnd(s)
            && ReadRemaining(next.value.store.ring.fill, next.value.y, next.value.rd) <
               ReadRemaining(s.store.ring.fill, s.y, s.rd)
  {
    hide Inv, KnowsPlace, KnowsFlags, Next, ReaderSync, ReadAloneSync, GetChunk, Ok, ReadRemaining, ReadPlan, Finished;
    Steppable(s);
    var fill, y, rd := s.store.ring.fill, s.y, s.rd;
    ReadSyncNearer(fill, y, rd);
    StepIsSync(s);
    NextInv(s, ReadAloneStep(s));
    if rd.pc.Finish? {
      FinishEnds(s);
    } else {
      ReadSyncKeepsFlags(fill, y, rd);
      if Checking(rd.pc) || Waiting(rd.pc) {
        ReadCheckKeepsPlace(fill, y, rd);
        ReadCheckKeepsPlan(fill, y, rd);
      } else {
        if Leaving(rd.pc) {
          ReadLeaveKeepsPlace(fill, y, rd);
          ReadLeaveKeepsPlan(fill, y, rd);
        } else {
          ReadLoopKeepsPlace(fill, y, rd);
          ReadLoopKeepsPlan(fill, y, rd);
        }
      }
      assert s.readCalls + [] == s.readCalls;
    }
  }

  /** The last step leaves exactly the planned state. */
  lemma FinishEnds(s: State)
    requires ReadAloneInv(s) && s.rd.pc.Finish?
    ensures Ok(s.store.ring)
    ensures var (y', rd') := ReadAloneSync(s.y, s.rd);
            ReadEnd(s) == s.(y := y', rd := rd', readCalls := s.readCalls + [Finished(s.rd.got, s.rd.ret)])
                && rd'.pc.Idle?
  {
    Steppable(s);
    GetNothing(s.store.ring);
    hide Inv, Ok, GetChunk, Finished;
    assert s.rd.got + [] == s.rd.got && s.store.read + [] == s.store.read;
  }

  lemma StepIsSync(s: State)
    requires ReadAloneInv(s) && !s.rd.pc.Idle? && !s.rd.pc.Crit?
    ensures var (y', rd') := ReadAloneSync(s.y, s.rd);
            Next(s, ReadAloneStep(s)) ==
              Some(s.(y := y', rd := rd', readCalls := s.readCalls +
                      if s.rd.pc.Finish? then [Finished(s.rd.got, s.rd.ret)] else []))
  {
    Steppable(s);
    hide Ok, Conserved, ReadsAccounted, WritesAccounted, SyncInv, Finished;
    assert s.readCalls + [] == s.readCalls;
  }

  function ReadAloneRun(s: State, n: nat): State
    requires ReadAloneInv(s)
    decreases n
  {
    hide Inv, ReadKnows, Next, ReadEnd, ReadRemaining;
    if n == 0 || s.rd.pc.Idle? then s
    else
      ReadStepPlanned(s);
      Steppable(s);
      var s' := Next(s, ReadAloneStep(s)).value;
      if s'.rd.pc.Idle? then s' else ReadAloneRun(s', n - 1)
  }

  lemma {:induction false} ReadAloneEnds(s: State, n: nat)
    requires ReadAloneInv(s) && ReadRemaining(s.store.ring.fill, s.y, s.rd) <= n
    ensures ReadAloneRun(s, n) == ReadEnd(s)
    decreases n
  {
    hide Next, ReadPlan, ReadRemaining, GetChunk, ReadKnows, Inv;
    Steppable(s);
    if !s.rd.pc.Idle? {
      ReadStepPlanned(s);
      var s' := Next(s, ReadAloneStep(s)).value;
      if !s'.rd.pc.Idle? { ReadAloneEnds(s', n - 1); }
    } else { assert ReadAloneRun(s, n) == s; }
  }

  /** A read that nobody interferes with ends after at most 27 steps, exactly as RingBuf.Read states. */
  lemma ReadAlone(s: State, len: nat)
    requires Inv(s) && s.rd.pc.Idle? && s.y.lock.None?
    ensures Inv(Next(s, ReadCall(len)).value) && ReadAloneInv(Next(s, ReadCall(len)).value)
    ensures var g, stored := SignalsOf(s.y), Contents(s.store.ring);
            var s' := ReadAloneRun(Next(s, ReadCall(len)).value, 27);
            && Inv(s') && s'.rd.pc.Idle? && s'.wr == s.wr
            && Contents(s'.store.ring) == stored[Least(len, |stored|)..]
            && s'.readCalls == s.readCalls + [Call(stored[..Least(len, |stored|)], ReadResult(|stored|, g, len))]
            && SignalsOf(s'.y) == AfterRead(|stored|, g, len)
  {
    Steppable(s);
    NextInv(s, ReadCall(len));
    var s0 := Next(s, ReadCall(len)).value;
    CallKnows(s, len);
    ReadAloneEnds(s0, 27);
    CallPlan(s, len);
    FillIsLength(s.store.ring);
    GetIsDequeue(s.store.ring, Least(len, s.store.ring.fill));
    var got := GetChunk(s.store.ring, Least(len, s.store.ring.fill)).1;
    assert [] + got == got;
    ReadEndInv(s0);
    hide Inv, Ok, Contents, GetChunk, ReadAloneRun, Next, ReadKnows, ReadPlan, ReadRemaining, AfterRead,
         RingBuffer.ReadStop;
  }

  lemma ReadEndInv(s: State)
    requires ReadAloneInv(s)
    ensures Inv(ReadAloneRun(s, 27))
  {
    RunKeepsInv(s, 27);
  }

  lemma {:induction false} RunKeepsInv(s: State, n: nat)
    requires ReadAloneInv(s)
    ensures Inv(ReadAloneRun(s, n))
    decreases n
  {
    hide Inv, ReadKnows, Next, ReadEnd, ReadRemaining;
    if n > 0 && !s.rd.pc.Idle? {
      Steppable(s);
      ReadStepPlanned(s);
      var s' := Next(s, ReadAloneStep(s)).value;
      if !s'.rd.pc.Idle? { RunKeepsInv(s', n - 1); }
    }
  }

  lemma CallKnows(s: State, len: nat)
    requires Inv(s) && s.rd.pc.Idle? && s.y.lock.None?
    ensures ReadKnows(s.store.ring.fill, s.y, Reader(Head, len, [], 0))
    ensures ReadRemaining(s.store.ring.fill, s.y, Reader(Head, len, [], 0)) <= 27
  {
    hide Inv;
  }

  /** The plan of a fresh call is what the sequential specification says. */
  lemma CallPlan(s: State, len: nat)
    requires s.y.lock.None?
    ensures var fill, g := s.store.ring.fill, SignalsOf(s.y);
            var plan := ReadPlan(fill, s.y, Reader(Head, len, [], 0));
            && plan.take == Least(len, fill)
            && Outcome(plan.take, plan.stop) == ReadResult(fill, g, len)
            && SignalsOf(plan.after) == AfterRead(fill, g, len)
  {
  }
}
