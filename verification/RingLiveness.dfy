/** What the protocol guarantees to threads that wait, and to the reader at the end of the stream. */
module RingLiveness {
  import opened RingCore
  import opened RingBuffer
  import opened RingProtocol

  /** Reader and writer are never stuck together. */
  lemma NoDeadlock(s: State)
    requires Inv(s) && s.rd.pc.Take? && s.wr.pc.Take?
    ensures ReaderStep(s).Some? || WriterStep(s).Some?
  {
  }

  function Repeat(step: Step, n: nat): (steps: seq<Step>)
    ensures |steps| == n
  {
    if n == 0 then [] else [step] + Repeat(step, n - 1)
  }

  lemma RunFirst(s: State, step: Step, n: nat)
    requires Inv(s) && Next(s, step).Some?
    ensures Inv(Next(s, step).value)
    ensures Run(s, Repeat(step, n + 1)) == Run(Next(s, step).value, Repeat(step, n))
  {
    hide Inv, Next;
    NextInv(s, step);
    assert Repeat(step, n + 1)[1..] == Repeat(step, n);
  }

  // ---------- a reader that could go on is woken by the writer alone ----------

  /** An upper bound on the writer's steps until it gives can_read. */
  function WriterDistance(full: bool, wr: Writer): nat {
    match wr.pc
    case Head => if full then 7 else 11
    case Lock => if full then 6 else 10
    case Crit => if full then 5 else 9
    case UnlockCopied => if wr.pos == |wr.buf| then 2 else if full then 8 else 12
    case ChkDone => 4
    case ChkAbort => 3
    case UnlockWait => 2
    case UnlockStop => 2
    case _ => 1
  }

  predicate Full(s: State) {
    s.store.ring.fill == |s.store.ring.data|
  }

  predicate StarvedReader(s: State) {
    s.rd.pc.Take? && s.store.ring.fill > 0 && !s.y.canRead
  }

  lemma LockIsFree(y: Sync, rd: Reader, wr: Writer)
    requires Mutex(y, rd, wr) && !Locked(rd.pc) && !Locked(wr.pc)
    ensures y.lock.None?
  {
    if y.lock.Some? { match y.lock.value { case TheReader => case TheWriter => } }
  }

  lemma WriterSyncProgress(fill: nat, size: nat, y: Sync, rd: Reader, wr: Writer)
    requires SyncInv(fill, size, y, rd, wr) && rd.pc.Take? && fill > 0 && !y.canRead && !wr.pc.Crit?
    ensures var next := WriterSync(y, wr);
            && next.Some?
            && (next.value.0.canRead || WriterDistance(fill == size, next.value.1) < WriterDistance(fill == size, wr))
  {
    hide FlagsWake;
    if wr.pc.Lock? { LockIsFree(y, rd, wr); }
  }

  lemma CritProgress(s: State)
    requires Inv(s) && StarvedReader(s) && s.wr.pc.Crit?
    ensures WriterStep(s).Some?
    ensures var s' := WriterStep(s).value;
            s'.rd == s.rd && StarvedReader(s') && WriterDistance(Full(s'), s'.wr) < WriterDistance(Full(s), s.wr)
  {
    hide Inv, WriterStep;
    WriterCopyFills(s);
  }

  lemma WriterProgress(s: State)
    requires Inv(s) && StarvedReader(s)
    ensures WriterStep(s).Some?
    ensures var s' := WriterStep(s).value;
            s'.rd == s.rd && (s'.y.canRead
                              || (StarvedReader(s') && WriterDistance(Full(s'), s'.wr) < WriterDistance(Full(s), s.wr)))
  {
    hide FlagsWake, Mutex, SeenUnderLock, NoLostWakeup, Shape, WriterSync, WriterDistance, Conserved, ReadsAccounted,
         WritesAccounted, Ok;
    Steppable(s);
    if s.wr.pc.Crit? {
      CritProgress(s);
    } else {
      WriterSyncProgress(s.store.ring.fill, |s.store.ring.data|, s.y, s.rd, s.wr);
    }
  }

  /** After a copy either the call is complete or the buffer is full. */
  lemma WriterCopyFills(s: State)
    requires Inv(s) && s.wr.pc.Crit?
    ensures WriterStep(s).Some?
    ensures var s' := WriterStep(s).value;
            && s'.y == s.y && s'.rd == s.rd && s'.store.ring.fill >= s.store.ring.fill
            && if Full(s) then s'.wr.pc.ChkDone? && Full(s')
               else s'.wr.pc.UnlockCopied? && (Full(s') || s'.wr.pos == |s'.wr.buf|)
  {
    hide FlagsWake, NoLostWakeup, Mutex, ReadsAccounted, WritesAccounted, Contents;
  }

  /** A waiting reader with bytes to read gets its token within twelve steps of the writer, whatever
      the writer is doing and without help from anyone else. */
  lemma {:induction false} WriterWakesReader(s: State) returns (n: nat)
    requires Inv(s) && StarvedReader(s)
    ensures n <= WriterDistance(Full(s), s.wr) <= 12
    ensures var r := Run(s, Repeat(WriteStep, n)); r.Some? && r.value.rd == s.rd && r.value.y.canRead
    decreases WriterDistance(Full(s), s.wr)
  {
    hide Inv, WriterStep;
    Steppable(s);
    WriterProgress(s);
    var s' := Next(s, WriteStep).value;
    RunFirst(s, WriteStep, 0);
    if s'.y.canRead {
      n := 1;
    } else {
      var m := WriterWakesReader(s');
      n := m + 1;
      RunFirst(s, WriteStep, m);
    }
  }

  // ---------- a writer that could go on is woken by the reader alone ----------

  function ReaderDistance(empty: bool, rd: Reader): nat {
    match rd.pc
    case Head => if empty then 8 else 12
    case Lock => if empty then 7 else 11
    case Crit => if empty then 6 else 10
    case UnlockCopied => if rd.left == 0 then 2 else if empty then 9 else 13
    case ChkDone => 5
    case ChkAbort => 4
    case ChkUnblock => 3
    case UnlockWait => 2
    case UnlockStop => 2
    case _ => 1
  }

  predicate IsEmpty(s: State) {
    s.store.ring.fill == 0
  }

  predicate StarvedWriter(s: State) {
    s.wr.pc.Take? && s.store.ring.fill < |s.store.ring.data| && !s.y.canWrite
  }

  lemma ReaderCopyDrains(s: State)
    requires Inv(s) && s.rd.pc.Crit?
    ensures ReaderStep(s).Some?
    ensures var s' := ReaderStep(s).value;
            && s'.y == s.y && s'.wr == s.wr && s'.store.ring.fill <= s.store.ring.fill
            && |s'.store.ring.data| == |s.store.ring.data|
            && if IsEmpty(s) then s'.rd.pc.ChkDone? && IsEmpty(s')
               else s'.rd.pc.UnlockCopied? && (IsEmpty(s') || s'.rd.left == 0)
  {
    hide FlagsWake, NoLostWakeup, Mutex, ReadsAccounted, WritesAccounted, Contents;
  }

  lemma ReaderSyncProgress(fill: nat, size: nat, y: Sync, rd: Reader, wr: Writer)
    requires SyncInv(fill, size, y, rd, wr) && wr.pc.Take? && fill < size && !y.canWrite && !rd.pc.Crit?
    ensures var next := ReaderSync(y, rd);
            && next.Some?
            && (next.value.0.canWrite || ReaderDistance(fill == 0, next.value.1) < ReaderDistance(fill == 0, rd))
  {
    hide FlagsWake;
    if rd.pc.Lock? { LockIsFree(y, rd, wr); }
  }

  lemma ReaderProgress(s: State)
    requires Inv(s) && StarvedWriter(s)
    ensures ReaderStep(s).Some?
    ensures var s' := ReaderStep(s).value;
            s'.wr == s.wr && (s'.y.canWrite
                              || (StarvedWriter(s') && ReaderDistance(IsEmpty(s'), s'.rd) <
                                  ReaderDistance(IsEmpty(s), s.rd)))
  {
    Steppable(s);
    hide FlagsWake, Mutex, SeenUnderLock, NoLostWakeup, Shape, ReaderSync, Conserved, ReadsAccounted, WritesAccounted,
         Ok;
    if s.rd.pc.Crit? {
      ReaderCopyDrains(s);
    } else {
      ReaderSyncProgress(s.store.ring.fill, |s.store.ring.data|, s.y, s.rd, s.wr);
    }
  }

  /** The same for a waiting writer with room to write. */
  lemma {:induction false} ReaderWakesWriter(s: State) returns (n: nat)
    requires Inv(s) && StarvedWriter(s)
    ensures n <= ReaderDistance(IsEmpty(s), s.rd) <= 13
    ensures var r := Run(s, Repeat(ReadStep, n)); r.Some? && r.value.wr == s.wr && r.value.y.canWrite
    decreases ReaderDistance(IsEmpty(s), s.rd)
  {
    hide Inv, ReaderStep;
    Steppable(s);
    ReaderProgress(s);
    var s' := Next(s, ReadStep).value;
    RunFirst(s, ReadStep, 0);
    if s'.y.canWrite {
      n := 1;
    } else {
      var m := ReaderWakesWriter(s');
      n := m + 1;
      RunFirst(s, ReadStep, m);
    }
  }

  /** A flag raised while the reader is blocked has set can_read, or the thread that raised it still will. */
  lemma FlagsWakeReader(s: State)
    requires Inv(s) && s.rd.pc.Take? && (s.y.done || s.y.abortRead || s.y.unblock) && !s.y.canRead
    ensures Next(s, Control(GiveRead)).Some? && ReaderStep(Next(s, Control(GiveRead)).value).Some?
  {
  }

  lemma AbortWakesWriter(s: State)
    requires Inv(s) && s.wr.pc.Take? && s.y.abortWrite && !s.y.canWrite
    ensures Next(s, Control(GiveWrite)).Some? && WriterStep(Next(s, Control(GiveWrite)).value).Some?
  {
  }

  // ---------- end of stream ----------

  /** The writer raises "done" between calls and makes no further call. */
  predicate Polite(s: State, step: Step) {
    && (step.WriteCall? ==> !s.y.done)
    && (step == Control(RaiseDone) ==> s.wr.pc.Idle?)
  }

  predicate PoliteRun(s: State, steps: seq<Step>)
    requires Inv(s)
    decreases steps
  {
    hide Inv, Next;
    Steppable(s);
    steps == [] || (
      && Polite(s, steps[0]) && Next(s, steps[0]).Some?
      && (NextInv(s, steps[0]); PoliteRun(Next(s, steps[0]).value, steps[1..])))
  }

  predicate SawDone(s: State) {
    s.rd.ret == RB_DONE || exists c :: c in s.readCalls && c.result == RB_DONE
  }

  /** Once the reader has seen RB_DONE nothing is stored and nothing will be. */
  predicate EndInv(s: State) {
    && (s.y.done ==> s.wr.pc.Idle?)
    && (SawDone(s) ==> s.y.done && s.store.ring.fill == 0)
  }

  /** The end of the stream once "done" is raised and the writer is idle. */
  lemma EndReaderSync(s: State)
    requires Inv(s) && EndInv(s) && ReaderStep(s).Some? && !s.rd.pc.Finish?
    ensures EndInv(ReaderStep(s).value)
  {
    Steppable(s);
    hide Ok, Contents, Mutex, Shape, NoLostWakeup, FlagsWake, Conserved, ReadsAccounted, WritesAccounted, GetChunk;
    if s.rd.pc.Crit? { ReaderCopyDrains(s); }
  }

  lemma EndReaderFinish(s: State)
    requires Inv(s) && EndInv(s) && s.rd.pc.Finish?
    ensures ReaderStep(s).Some? && EndInv(ReaderStep(s).value)
  {
    Steppable(s);
    hide Ok, Contents, Mutex, Shape, NoLostWakeup, FlagsWake, SeenUnderLock, Conserved, WritesAccounted, Moved;
    var s' := ReaderStep(s).value;
    if SawDone(s') {
      var c :| c in s'.readCalls && c.result == RB_DONE;
      if c !in s.readCalls { assert c == Finished(s.rd.got, s.rd.ret) && s.rd.ret == RB_DONE; }
      assert SawDone(s);
    }
  }

  lemma EndStep(s: State, step: Step)
    requires Inv(s) && EndInv(s) && Polite(s, step) && Next(s, step).Some?
    ensures EndInv(Next(s, step).value)
  {
    Steppable(s);
    if step.ReadStep? {
      if s.rd.pc.Finish? { EndReaderFinish(s); } else { EndReaderSync(s); }
    } else if step.WriteStep? {
      EndWriterStep(s);
    } else {
      EndOtherStep(s, step);
    }
  }

  lemma EndWriterStep(s: State)
    requires Inv(s) && EndInv(s) && WriterStep(s).Some?
    ensures EndInv(WriterStep(s).value)
  {
    Steppable(s);
    hide Ok, Contents, Conserved, ReadsAccounted, WritesAccounted, SyncInv, WriteCrit, Finished;
    assert s.y.done ==> WriterSync(s.y, s.wr).None?;
    var s' := WriterStep(s).value;
    assert s'.readCalls == s.readCalls && s'.rd == s.rd;
    assert SawDone(s') ==> SawDone(s);
  }

  lemma OtherStep(s: State, step: Step)
    requires Inv(s) && Polite(s, step) && Next(s, step).Some? && !step.ReadStep? && !step.WriteStep?
    ensures var s' := Next(s, step).value;
            && s'.readCalls == s.readCalls && s'.store == s.store && (s'.rd.ret == RB_DONE ==> s.rd.ret == RB_DONE)
            && (s.y.done ==> s'.y.done) && (s'.y.done ==> s.y.done || s.wr.pc.Idle?)
            && (s'.y.done && s.wr.pc.Idle? ==> s'.wr.pc.Idle?)
  {
    Steppable(s);
    hide Ok, Contents, Inv, ReaderStep, WriterStep;
  }

  lemma EndOtherStep(s: State, step: Step)
    requires Inv(s) && EndInv(s) && Polite(s, step) && Next(s, step).Some? && !step.ReadStep? && !step.WriteStep?
    ensures EndInv(Next(s, step).value)
  {
    OtherStep(s, step);
    hide Inv, Next, Polite;
  }

  lemma {:induction false} EndRun(s: State, steps: seq<Step>)
    requires Inv(s) && EndInv(s) && PoliteRun(s, steps)
    ensures Run(s, steps).Some? && EndInv(Run(s, steps).value)
    decreases steps
  {
    hide Inv, EndInv, Next, Polite;
    Steppable(s);
    if steps != [] {
      NextInv(s, steps[0]);
      EndStep(s, steps[0]);
      EndRun(Next(s, steps[0]).value, steps[1..]);
    }
  }

  /** If the writer stops when it is done, a reader that is told RB_DONE has had every byte. */
  lemma EndOfStream(size: nat, steps: seq<Step>)
    requires size > 0
    ensures Inv(Init(size))
    ensures PoliteRun(Init(size), steps) ==>
              && Run(Init(size), steps).Some?
              && var s := Run(Init(size), steps).value; SawDone(s) ==> s.store.read == s.store.written && s.wr.pc.Idle?
  {
    InitInv(size);
    if PoliteRun(Init(size), steps) {
      EndRun(Init(size), steps);
      EndMeans(Run(Init(size), steps).value);
    }
  }

  lemma EndMeans(s: State)
    requires Inv(s) && EndInv(s)
    ensures SawDone(s) ==> s.store.read == s.store.written && s.wr.pc.Idle?
  {
    hide SawDone;
    if SawDone(s) { assert Contents(s.store.ring) == []; }
  }
}
