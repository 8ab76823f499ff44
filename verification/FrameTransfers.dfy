/** Whole frames through the shared ring, in every interleaving: once the thread that moves a frame has
    seen enough bytes, or enough room, its call moves the frame in one piece. */
module FrameTransfers {
  import opened RingCore
  import opened RingBuffer
  import opened RingProtocol

  // ---------- reading a frame ----------

  /** A read of `len` bytes that will get all of them. */
  predicate ReadingFrame(s: State, len: nat) {
    && s.rd.ret == 0
    && (s.rd.pc.Head? || s.rd.pc.Lock? || s.rd.pc.Crit? ==>
        s.rd.left == len && s.rd.got == [] && s.store.ring.fill >= len)
    && (s.rd.pc.UnlockCopied? || s.rd.pc.Exit? || s.rd.pc.Finish? ==> s.rd.left == 0 && |s.rd.got| == len)
    && (s.rd.pc.Head? || s.rd.pc.Lock? || s.rd.pc.Crit? || s.rd.pc.UnlockCopied? || s.rd.pc.Exit? || s.rd.pc.Finish?)
  }

  /** The call after those in `base` is still at it, or has returned the whole frame. */
  predicate FrameRead(s: State, base: seq<Call>, len: nat) {
    || (s.readCalls == base && ReadingFrame(s, len))
    || (|s.readCalls| > |base| && s.readCalls[|base|].result == len && |s.readCalls[|base|].moved| == len)
  }

  lemma OthersNeverTake(s: State, step: Step)
    requires Inv(s) && Next(s, step).Some? && !step.ReadStep?
    ensures Next(s, step).value.store.ring.fill >= s.store.ring.fill
    ensures Next(s, step).value.readCalls == s.readCalls
    ensures !step.ReadCall? && !step.ReadTimeout? ==> Next(s, step).value.rd == s.rd
  {
    Steppable(s);
    hide Conserved, ReadsAccounted, WritesAccounted, SyncInv, ReaderStep, WriterSync;
  }

  lemma FrameReaderStep(s: State, base: seq<Call>, len: nat)
    requires Inv(s) && s.readCalls == base && ReadingFrame(s, len) && ReaderStep(s).Some?
    ensures FrameRead(ReaderStep(s).value, base, len)
  {
    Steppable(s);
    FillIsLength(s.store.ring);
    if s.rd.pc.Crit? {
      GetIsDequeue(s.store.ring, Least(s.store.ring.fill, s.rd.left));
      ShapeOf(s);
    }
    hide Ok, Contents, GetChunk, Conserved, ReadsAccounted, WritesAccounted, SyncInv;
  }

  lemma ShapeOf(s: State)
    requires Inv(s) && s.rd.pc.Crit?
    ensures s.rd.left > 0
  {
  }

  lemma CallsOnlyGrow(s: State)
    requires Ok(s.store.ring) && ReaderStep(s).Some?
    ensures |s.readCalls| <= |ReaderStep(s).value.readCalls|
            && ReaderStep(s).value.readCalls[..|s.readCalls|] == s.readCalls
  {
    hide ReaderSync, ReadCrit;
  }

  lemma FrameReadStep(s: State, step: Step, base: seq<Call>, len: nat)
    requires Inv(s) && FrameRead(s, base, len) && Next(s, step).Some?
    ensures FrameRead(Next(s, step).value, base, len)
  {
    Steppable(s);
    if step.ReadStep? {
      if s.readCalls == base && ReadingFrame(s, len) {
        FrameReaderStep(s, base, len);
      } else {
        CallsOnlyGrow(s);
        assert ReaderStep(s).value.readCalls[..|s.readCalls|][|base|] == s.readCalls[|base|];
      }
    } else {
      OthersNeverTake(s, step);
      hide Inv, WriterStep, ReaderStep;
    }
  }

  lemma {:induction false} FrameReadRun(s: State, steps: seq<Step>, base: seq<Call>, len: nat)
    requires Inv(s) && FrameRead(s, base, len) && Run(s, steps).Some?
    ensures FrameRead(Run(s, steps).value, base, len)
    decreases steps
  {
    hide Inv, Next, FrameRead;
    if steps != [] {
      Steppable(s);
      NextInv(s, steps[0]);
      FrameReadStep(s, steps[0], base, len);
      FrameReadRun(Next(s, steps[0]).value, steps[1..], base, len);
    }
  }

  /** If the only reader asks for a frame that is there, it gets the frame, whatever the writer and the
      threads that raise flags do in the meantime: the short-read branch is never taken. */
  lemma WholeFrameRead(s: State, len: nat, steps: seq<Step>)
    requires Inv(s) && s.rd.pc.Idle? && s.store.ring.fill >= len
    ensures Inv(Next(s, ReadCall(len)).value)
    ensures Run(Next(s, ReadCall(len)).value, steps).Some? ==>
              var s' := Run(Next(s, ReadCall(len)).value, steps).value;
              |s'.readCalls| > |s.readCalls| ==> s'.readCalls[|s.readCalls|].result == len
  {
    Steppable(s);
    NextInv(s, ReadCall(len));
    var s0 := Next(s, ReadCall(len)).value;
    assert FrameRead(s0, s.readCalls, len);
    hide Inv, Run, Next;
    if Run(s0, steps).Some? { FrameReadRun(s0, steps, s.readCalls, len); }
  }

  // ---------- writing a frame ----------

  predicate WritingFrame(s: State, frame: seq<byte>) {
    && s.wr.ret == 0 && s.wr.buf == frame
    && (s.wr.pc.Head? || s.wr.pc.Lock? || s.wr.pc.Crit? ==>
        s.wr.pos == 0 && s.store.ring.fill + |frame| <= |s.store.ring.data|)
    && (s.wr.pc.UnlockCopied? || s.wr.pc.Exit? || s.wr.pc.Finish? ==> s.wr.pos == |frame|)
    && (s.wr.pc.Head? || s.wr.pc.Lock? || s.wr.pc.Crit? || s.wr.pc.UnlockCopied? || s.wr.pc.Exit? || s.wr.pc.Finish?)
  }

  predicate FrameWritten(s: State, base: seq<Call>, frame: seq<byte>) {
    || (s.writeCalls == base && WritingFrame(s, frame))
    || (|s.writeCalls| > |base| && s.writeCalls[|base|] == Call(frame, |frame|))
  }

  lemma OthersNeverFill(s: State, step: Step)
    requires Inv(s) && Next(s, step).Some? && !step.WriteStep?
    ensures Next(s, step).value.store.ring.fill <= s.store.ring.fill
    ensures |Next(s, step).value.store.ring.data| == |s.store.ring.data|
    ensures Next(s, step).value.writeCalls == s.writeCalls
    ensures !step.WriteCall? && !step.WriteTimeout? ==> Next(s, step).value.wr == s.wr
  {
    Steppable(s);
    hide Conserved, ReadsAccounted, WritesAccounted, SyncInv, WriterStep, ReaderSync;
  }

  lemma FrameWriterStep(s: State, base: seq<Call>, frame: seq<byte>)
    requires Inv(s) && s.writeCalls == base && WritingFrame(s, frame) && WriterStep(s).Some?
    ensures FrameWritten(WriterStep(s).value, base, frame)
  {
    Steppable(s);
    FillIsLength(s.store.ring);
    if s.wr.pc.Crit? { WriterShapeOf(s); }
    assert frame[..|frame|] == frame;
    hide Ok, Contents, PutChunk, Conserved, ReadsAccounted, WritesAccounted, SyncInv;
  }

  lemma WriterShapeOf(s: State)
    requires Inv(s) && s.wr.pc.Crit?
    ensures s.wr.pos < |s.wr.buf|
  {
  }

  lemma WriteCallsOnlyGrow(s: State)
    requires Ok(s.store.ring) && s.wr.pos <= |s.wr.buf| && WriterStep(s).Some?
    ensures |s.writeCalls| <= |WriterStep(s).value.writeCalls|
            && WriterStep(s).value.writeCalls[..|s.writeCalls|] == s.writeCalls
  {
    hide WriterSync, WriteCrit;
  }

  lemma FrameWriteStep(s: State, step: Step, base: seq<Call>, frame: seq<byte>)
    requires Inv(s) && FrameWritten(s, base, frame) && Next(s, step).Some?
    ensures FrameWritten(Next(s, step).value, base, frame)
  {
    Steppable(s);
    if step.WriteStep? {
      if s.writeCalls == base && WritingFrame(s, frame) {
        FrameWriterStep(s, base, frame);
      } else {
        WriteCallsOnlyGrow(s);
        assert WriterStep(s).value.writeCalls[..|s.writeCalls|][|base|] == s.writeCalls[|base|];
      }
    } else {
      OthersNeverFill(s, step);
      hide Inv, WriterStep, ReaderStep;
    }
  }

  lemma {:induction false} FrameWriteRun(s: State, steps: seq<Step>, base: seq<Call>, frame: seq<byte>)
    requires Inv(s) && FrameWritten(s, base, frame) && Run(s, steps).Some?
    ensures FrameWritten(Run(s, steps).value, base, frame)
    decreases steps
  {
    hide Inv, Next, FrameWritten;
    if steps != [] {
      Steppable(s);
      NextInv(s, steps[0]);
      FrameWriteStep(s, steps[0], base, frame);
      FrameWriteRun(Next(s, steps[0]).value, steps[1..], base, frame);
    }
  }

  /** If the only writer offers a frame for which there is room, the whole frame goes in, in one piece. */
  lemma WholeFrameWritten(s: State, frame: seq<byte>, steps: seq<Step>)
    requires Inv(s) && s.wr.pc.Idle? && s.store.ring.fill + |frame| <= |s.store.ring.data|
    ensures Inv(Next(s, WriteCall(frame)).value)
    ensures Run(Next(s, WriteCall(frame)).value, steps).Some? ==>
              var s' := Run(Next(s, WriteCall(frame)).value, steps).value;
              |s'.writeCalls| > |s.writeCalls| ==> s'.writeCalls[|s.writeCalls|] == Call(frame, |frame|)
  {
    Steppable(s);
    NextInv(s, WriteCall(frame));
    var s0 := Next(s, WriteCall(frame)).value;
    assert FrameWritten(s0, s.writeCalls, frame);
    hide Inv, Run, Next;
    if Run(s0, steps).Some? { FrameWriteRun(s0, steps, s.writeCalls, frame); }
  }
}
