/** What callers are told once a flag is up and nothing can be moved any more, in every interleaving. */
module RingEnd {
  import opened Wrappers
  import opened RingCore
  import opened RingProtocol

  // ---------- flags ----------

  /** Raising a flag raises that flag and no other, and owes the thread that may wait for it a token. Apart from
      "unblock", which the end of a read takes back, no step ever lowers a flag. */
  lemma FlagsRaised(s: State, step: Step)
    requires Ok(s.store.ring) && s.wr.pos <= |s.wr.buf| && Next(s, step).Some?
    ensures var y, y' := s.y, Next(s, step).value.y;
            && (y'.done <==> y.done || step == Control(RaiseDone))
            && (y'.abortRead <==> y.abortRead || step == Control(RaiseAbortRead))
            && (y'.abortWrite <==> y.abortWrite || step == Control(RaiseAbortWrite))
            && (y'.unblock <==> step == Control(RaiseUnblock) || (y.unblock && !(step.ReadStep? && s.rd.pc.Finish?)))
  {
    hide Ok;
    if step.ReadStep? {
      IsReaderStep(s);
      ReaderFlags(s);
    } else if step.WriteStep? {
      IsWriterStep(s);
      WriterFlags(s);
    } else {
      OtherFlags(s, step);
    }
    hide Next, ReaderStep, WriterStep;
  }

  predicate SameFlags(y: Sync, y': Sync) {
    y'.done == y.done && y'.abortRead == y.abortRead && y'.abortWrite == y.abortWrite
  }

  lemma ReaderSyncFlags(y: Sync, rd: Reader)
    requires ReaderSync(y, rd).Some?
    ensures SameFlags(y, ReaderSync(y, rd).value.0)
  {
  }

  lemma ReaderSyncUnblock(y: Sync, rd: Reader)
    requires ReaderSync(y, rd).Some?
    ensures ReaderSync(y, rd).value.0.unblock == (y.unblock && !rd.pc.Finish?)
  {
  }

  lemma WriterSyncFlags(y: Sync, wr: Writer)
    requires WriterSync(y, wr).Some?
    ensures var y' := WriterSync(y, wr).value.0; SameFlags(y, y') && y'.unblock == y.unblock
  {
  }

  lemma ReaderFlags(s: State)
    requires Ok(s.store.ring) && ReaderStep(s).Some?
    ensures var y' := ReaderStep(s).value.y; SameFlags(s.y, y') && y'.unblock == (s.y.unblock && !s.rd.pc.Finish?)
  {
    hide Ok, ReadCrit, ReaderSync, WriterSync, SameFlags, Finished;
    if !s.rd.pc.Crit? {
      ReaderSyncFlags(s.y, s.rd);
      ReaderSyncUnblock(s.y, s.rd);
    }
    NothingChanged(s.y);
  }

  lemma WriterFlags(s: State)
    requires Ok(s.store.ring) && s.wr.pos <= |s.wr.buf| && WriterStep(s).Some?
    ensures var y' := WriterStep(s).value.y; SameFlags(s.y, y') && y'.unblock == s.y.unblock
  {
    hide Ok, WriteCrit, ReaderSync, WriterSync, SameFlags, Finished;
    if !s.wr.pc.Crit? { WriterSyncFlags(s.y, s.wr); }
    NothingChanged(s.y);
  }

  lemma NothingChanged(y: Sync)
    ensures SameFlags(y, y)
  {
  }

  lemma ControlFlags(y: Sync, c: Control)
    requires ControlSync(y, c).Some?
    ensures var y' := ControlSync(y, c).value;
            && (y'.done <==> y.done || c == RaiseDone) && (y'.abortRead <==> y.abortRead || c == RaiseAbortRead)
            && (y'.abortWrite <==> y.abortWrite || c == RaiseAbortWrite)
            && (y'.unblock <==> y.unblock || c == RaiseUnblock)
  {
  }

  lemma OtherFlags(s: State, step: Step)
    requires Ok(s.store.ring) && s.wr.pos <= |s.wr.buf| && Next(s, step).Some? && !step.ReadStep? && !step.WriteStep?
    ensures var y, y' := s.y, Next(s, step).value.y;
            && (y'.done <==> y.done || step == Control(RaiseDone))
            && (y'.abortRead <==> y.abortRead || step == Control(RaiseAbortRead))
            && (y'.abortWrite <==> y.abortWrite || step == Control(RaiseAbortWrite))
            && (y'.unblock <==> y.unblock || step == Control(RaiseUnblock))
  {
    hide Ok, ReaderStep, WriterStep, ControlSync;
    if step.Control? { ControlFlags(s.y, step.c); }
  }

  lemma IsWriterStep(s: State)
    requires Ok(s.store.ring) && s.wr.pos <= |s.wr.buf|
    ensures Next(s, WriteStep) == WriterStep(s)
  {
    hide Ok, WriterStep;
  }

  lemma FlagsOwe(s: State, c: Control)
    requires Ok(s.store.ring) && s.wr.pos <= |s.wr.buf| && Next(s, Control(c)).Some?
    ensures var y, y' := s.y, Next(s, Control(c)).value.y;
            && (c.RaiseDone? || c.RaiseAbortRead? || c.RaiseUnblock? ==> y'.owedRead == y.owedRead + 1)
            && (c.RaiseAbortWrite? ==> y'.owedWrite == y.owedWrite + 1)
            && (c.GiveRead? ==> y'.canRead) && (c.GiveWrite? ==> y'.canWrite)
  {
  }

  // ---------- the end of the stream is reported ----------

  /** What a reader that finds nothing is told. */
  predicate Reports(y: Sync, result: int) {
    if y.done then result == -2 else y.abortRead && result == -3
  }

  /** The ring is empty and stays so, and a call in progress will be told. */
  predicate Drained(s: State, result: int) {
    && Reports(s.y, result) && s.wr.pc.Idle? && s.store.ring.fill == 0
    && (s.rd.pc.Idle? || (s.rd.got == [] && Told(s.rd, result)))
  }

  predicate Told(rd: Reader, result: int) {
    match rd.pc
    case Head => rd.left > 0
    case Lock => true
    case Crit => true
    case ChkDone => true
    case ChkAbort => result == -3
    case UnlockStop => rd.ret == result
    case Exit => rd.ret == result
    case Finish => rd.ret == result
    case _ => false
  }

  /** The writer does not start another call, reads ask for something, and the report does not change. */
  predicate NoneWritten(s: State, step: Step) {
    !step.WriteCall? && (step.ReadCall? ==> step.len > 0) && (step == Control(RaiseDone) ==> s.y.done)
  }

  predicate AllTold(calls: seq<Call>, from: nat, result: int) {
    forall i :: from <= i < |calls| ==> calls[i] == Call([], result)
  }

  lemma ReaderTold(s: State, result: int)
    requires Ok(s.store.ring) && Drained(s, result) && ReaderStep(s).Some?
    ensures var s' := ReaderStep(s).value;
            && Drained(s', result) && s'.store == s.store
            && s'.readCalls == s.readCalls + if s.rd.pc.Finish? then [Call([], result)] else []
  {
    hide Ok, GetChunk;
  }

  lemma OthersDrain(s: State, step: Step, result: int)
    requires Ok(s.store.ring) && s.wr.pos <= |s.wr.buf| && Drained(s, result) && NoneWritten(s, step)
    requires !step.ReadStep? && Next(s, step).Some?
    ensures Drained(Next(s, step).value, result) && Next(s, step).value.readCalls == s.readCalls
  {
    hide Ok, ReaderStep, WriteCrit;
  }

  predicate QuietRun(s: State, steps: seq<Step>)
    requires Inv(s)
    decreases steps
  {
    hide Inv, Next;
    Steppable(s);
    steps == [] || (
      && NoneWritten(s, steps[0]) && Next(s, steps[0]).Some?
      && (NextInv(s, steps[0]); QuietRun(Next(s, steps[0]).value, steps[1..])))
  }

  lemma {:induction false} DrainedRun(s: State, steps: seq<Step>, from: nat, result: int)
    requires Inv(s) && Drained(s, result) && QuietRun(s, steps)
    requires from <= |s.readCalls| && AllTold(s.readCalls, from, result)
    ensures Run(s, steps).Some?
    ensures var s' := Run(s, steps).value;
            Drained(s', result) && from <= |s'.readCalls| && AllTold(s'.readCalls, from, result)
    decreases steps
  {
    hide Inv, Drained, Next, NoneWritten;
    Steppable(s);
    if steps != [] {
      NextInv(s, steps[0]);
      var s' := Next(s, steps[0]).value;
      if steps[0].ReadStep? {
        IsReaderStep(s);
        ReaderTold(s, result);
      } else {
        OthersDrain(s, steps[0], result);
      }
      DrainedRun(s', steps[1..], from, result);
    }
  }

  lemma IsReaderStep(s: State)
    requires Ok(s.store.ring) && s.wr.pos <= |s.wr.buf|
    ensures Next(s, ReadStep) == ReaderStep(s)
  {
    hide Ok, ReaderStep;
  }

  /** From any state in which "done" is up, the writer is idle and nothing is stored, every read that is called for
      at least one byte and ends returns RB_DONE, in every interleaving without a further write. */
  lemma EndIsReported(s: State, steps: seq<Step>)
    requires Inv(s) && s.y.done && s.wr.pc.Idle? && s.store.ring.fill == 0 && s.rd.pc.Idle?
    requires QuietRun(s, steps)
    ensures Run(s, steps).Some?
    ensures var s' := Run(s, steps).value; |s.readCalls| <= |s'.readCalls| && AllTold(s'.readCalls, |s.readCalls|, -2)
  {
    hide Inv, Next, NoneWritten;
    DrainedRun(s, steps, |s.readCalls|, -2);
  }

  /** The same for "abort" while "done" is not up: every read returns RB_ABORT. */
  lemma AbortIsReported(s: State, steps: seq<Step>)
    requires Inv(s) && s.y.abortRead && !s.y.done && s.wr.pc.Idle? && s.store.ring.fill == 0 && s.rd.pc.Idle?
    requires QuietRun(s, steps)
    ensures Run(s, steps).Some?
    ensures var s' := Run(s, steps).value; |s.readCalls| <= |s'.readCalls| && AllTold(s'.readCalls, |s.readCalls|, -3)
  {
    hide Inv, Next, NoneWritten;
    DrainedRun(s, steps, |s.readCalls|, -3);
  }

  /** Steps of the reader until its call is over. */
  function ToTell(pc: Pc): nat {
    match pc
    case Head => 7
    case Lock => 6
    case Crit => 5
    case ChkDone => 4
    case ChkAbort => 3
    case UnlockStop => 2
    case Exit => 1
    case _ => 0
  }

  /** Such a read never waits: each step of the reader is possible and brings the end of the call nearer. */
  lemma EndIsReached(s: State, result: int)
    requires Inv(s) && Drained(s, result) && !s.rd.pc.Idle?
    ensures Ok(s.store.ring) && ReaderStep(s).Some?
    ensures ToTell(ReaderStep(s).value.rd.pc) < ToTell(s.rd.pc) || (s.rd.pc.Finish? && ReaderStep(s).value.rd.pc.Idle?)
  {
    LockIsFree(s);
    hide Inv, Ok, GetChunk;
  }

  lemma LockIsFree(s: State)
    requires Inv(s) && s.wr.pc.Idle?
    ensures Ok(s.store.ring) && (s.rd.pc.Lock? ==> s.y.lock.None?)
  {
    hide Contents, ReadsAccounted, WritesAccounted, NoLostWakeup, FlagsWake, SeenUnderLock, Shape;
    Holders(s.y.lock);
  }

  lemma Holders(lock: Option<Who>)
    ensures lock.None? || lock == Some(TheReader) || lock == Some(TheWriter)
  {
    if lock.Some? {
      match lock.value
      case TheReader =>
      case TheWriter =>
    }
  }
}
