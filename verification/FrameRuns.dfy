/** Whole runs of a thread that looks at the fill level before it moves a frame, in every interleaving with
    the thread at the other end and with threads that raise flags. */
module FrameRuns {
  import opened Wrappers
  import opened RingCore
  import opened RingProtocol
  import opened FrameTransfers

  /** Look is rb_bytes_filled or rb_bytes_available, called by the thread that moves frames. */
  datatype FrameStep = Look | Do(step: Step)

  /** The state, and whether the last look found enough for a frame. */
  datatype Watch = Watch(s: State, enough: bool)

  // ---------- the speaker's ring: the reader looks first ----------

  /** None when the step is not possible, or when a read is not preceded by a look that found a frame. */
  function PlayStep(w: Watch, size: nat, step: FrameStep): Option<Watch>
    requires Ok(w.s.store.ring) && w.s.wr.pos <= |w.s.wr.buf|
  {
    match step
    case Look => if w.s.rd.pc.Idle? then Some(w.(enough := w.s.store.ring.fill >= size)) else None
    case Do(st) =>
      if st.ReadCall? && !(st.len == size && w.enough) then None
      else
        var next := Next(w.s, st);
        if next.None? then None else Some(Watch(next.value, w.enough && !st.ReadCall?))
  }

  predicate FrameCall(c: Call, size: nat) {
    c.result == size && |c.moved| == size
  }

  predicate PlayInv(w: Watch, size: nat) {
    && Inv(w.s)
    && (forall i :: 0 <= i < |w.s.readCalls| ==> FrameCall(w.s.readCalls[i], size))
    && (w.s.rd.pc.Idle? || ReadingFrame(w.s, size))
    && (w.enough ==> w.s.rd.pc.Idle? && w.s.store.ring.fill >= size)
  }

  lemma PlayStepKeeps(w: Watch, size: nat, step: FrameStep)
    requires PlayInv(w, size)
    ensures Ok(w.s.store.ring) && w.s.wr.pos <= |w.s.wr.buf|
    ensures PlayStep(w, size, step).Some? ==> PlayInv(PlayStep(w, size, step).value, size)
  {
    hide Inv;
    Steppable(w.s);
    if step.Do? && PlayStep(w, size, step).Some? {
      NextInv(w.s, step.step);
      if step.step.ReadStep? {
        PlayReaderStep(w, size);
      } else {
        OthersNeverTake(w.s, step.step);
        hide ReaderStep, WriterStep, ControlSync;
      }
    }
  }

  lemma PlayReaderStep(w: Watch, size: nat)
    requires PlayInv(w, size) && Ok(w.s.store.ring) && ReaderStep(w.s).Some?
    ensures var s' := ReaderStep(w.s).value;
            && (forall i :: 0 <= i < |s'.readCalls| ==> FrameCall(s'.readCalls[i], size))
            && (s'.rd.pc.Idle? || ReadingFrame(s', size)) && !w.enough
  {
    NotIdle(w.s);
    FrameReaderStep(w.s, w.s.readCalls, size);
    CallsOnlyGrow(w.s);
    FinishOnce(w.s);
    var s' := ReaderStep(w.s).value;
    hide Inv, ReaderStep, ReadingFrame;
    forall i | 0 <= i < |s'.readCalls| ensures FrameCall(s'.readCalls[i], size) {
      if i < |w.s.readCalls| { assert s'.readCalls[..|w.s.readCalls|][i] == w.s.readCalls[i]; }
    }
  }

  lemma NotIdle(s: State)
    requires Ok(s.store.ring) && ReaderStep(s).Some?
    ensures !s.rd.pc.Idle?
  {
  }

  /** A reader's step ends at most one call, and then the reader is idle. */
  lemma FinishOnce(s: State)
    requires Ok(s.store.ring) && ReaderStep(s).Some?
    ensures var s' := ReaderStep(s).value;
            |s'.readCalls| <= |s.readCalls| + 1 && (|s'.readCalls| > |s.readCalls| ==> s'.rd.pc.Idle?)
  {
    hide ReadCrit;
  }

  function PlayRun(w: Watch, size: nat, steps: seq<FrameStep>): (r: Option<Watch>)
    requires PlayInv(w, size)
    ensures r.Some? ==> PlayInv(r.value, size)
    decreases steps
  {
    hide PlayInv, PlayStep;
    if steps == [] then Some(w)
    else
      PlayStepKeeps(w, size, steps[0]);
      var next := PlayStep(w, size, steps[0]);
      if next.None? then None else PlayRun(next.value, size, steps[1..])
  }

  /** In every run of a reader that looks before it reads, every read returns one whole frame, and the
      frames, put one after the other, are the beginning of the stream that was written. */
  lemma WholeFramesPlayed(ringSize: nat, size: nat, steps: seq<FrameStep>)
    requires ringSize > 0
    ensures PlayInv(Watch(Init(ringSize), false), size)
    ensures var r := PlayRun(Watch(Init(ringSize), false), size, steps);
            r.Some? ==>
              var s := r.value.s;
              && (forall i :: 0 <= i < |s.readCalls| ==> FrameCall(s.readCalls[i], size))
              && Ok(s.store.ring)
              && s.store.written == Moved(s.readCalls) + s.rd.got + Contents(s.store.ring)
  {
    InitInv(ringSize);
    var r := PlayRun(Watch(Init(ringSize), false), size, steps);
    hide PlayRun, Moved, Contents, Ok, SyncInv;
  }

  // ---------- the microphone's ring: the writer looks first ----------

  function RecordStep(w: Watch, size: nat, step: FrameStep): Option<Watch>
    requires Ok(w.s.store.ring) && w.s.wr.pos <= |w.s.wr.buf|
  {
    match step
    case Look => if w.s.wr.pc.Idle? then Some(w.(enough := w.s.store.ring.fill + size <= |w.s.store.ring.data|))
      else None
    case Do(st) =>
      if st.WriteCall? && !(|st.buf| == size && w.enough) then None
      else
        var next := Next(w.s, st);
        if next.None? then None else Some(Watch(next.value, w.enough && !st.WriteCall?))
  }

  predicate RecordInv(w: Watch, size: nat) {
    && Inv(w.s)
    && (forall i :: 0 <= i < |w.s.writeCalls| ==> FrameCall(w.s.writeCalls[i], size))
    && (w.s.wr.pc.Idle? || (|w.s.wr.buf| == size && WritingFrame(w.s, w.s.wr.buf)))
    && (w.enough ==> w.s.wr.pc.Idle? && w.s.store.ring.fill + size <= |w.s.store.ring.data|)
  }

  lemma RecordStepKeeps(w: Watch, size: nat, step: FrameStep)
    requires RecordInv(w, size)
    ensures Ok(w.s.store.ring) && w.s.wr.pos <= |w.s.wr.buf|
    ensures RecordStep(w, size, step).Some? ==> RecordInv(RecordStep(w, size, step).value, size)
  {
    hide Inv;
    Steppable(w.s);
    if step.Do? && RecordStep(w, size, step).Some? {
      NextInv(w.s, step.step);
      if step.step.WriteStep? {
        RecordWriterStep(w, size);
      } else {
        OthersNeverFill(w.s, step.step);
        hide ReaderStep, WriterStep, ControlSync;
      }
    }
  }

  lemma RecordWriterStep(w: Watch, size: nat)
    requires RecordInv(w, size) && Ok(w.s.store.ring) && w.s.wr.pos <= |w.s.wr.buf| && WriterStep(w.s).Some?
    ensures var s' := WriterStep(w.s).value;
            && (forall i :: 0 <= i < |s'.writeCalls| ==> FrameCall(s'.writeCalls[i], size))
            && (s'.wr.pc.Idle? || (|s'.wr.buf| == size && WritingFrame(s', s'.wr.buf))) && !w.enough
  {
    WriterNotIdle(w.s);
    FrameWriterStep(w.s, w.s.writeCalls, w.s.wr.buf);
    WriteCallsOnlyGrow(w.s);
    WriteFinishOnce(w.s);
    var s' := WriterStep(w.s).value;
    assert s'.wr.pc.Idle? || s'.writeCalls == w.s.writeCalls;
    assert s'.writeCalls == w.s.writeCalls ==> WritingFrame(s', w.s.wr.buf);
    WritingBuf(s', w.s.wr.buf);
    hide Inv, WriterStep, WritingFrame;
    forall i | 0 <= i < |s'.writeCalls| ensures FrameCall(s'.writeCalls[i], size) {
      if i < |w.s.writeCalls| { assert s'.writeCalls[..|w.s.writeCalls|][i] == w.s.writeCalls[i]; }
    }
  }

  lemma WritingBuf(s: State, frame: seq<byte>)
    ensures WritingFrame(s, frame) ==> s.wr.buf == frame
  {
  }

  lemma WriterNotIdle(s: State)
    requires Ok(s.store.ring) && s.wr.pos <= |s.wr.buf| && WriterStep(s).Some?
    ensures !s.wr.pc.Idle?
  {
  }

  lemma WriteFinishOnce(s: State)
    requires Ok(s.store.ring) && s.wr.pos <= |s.wr.buf| && WriterStep(s).Some?
    ensures var s' := WriterStep(s).value;
            |s'.writeCalls| <= |s.writeCalls| + 1 && (|s'.writeCalls| > |s.writeCalls| ==> s'.wr.pc.Idle?)
  {
    hide WriteCrit;
  }

  function RecordRun(w: Watch, size: nat, steps: seq<FrameStep>): (r: Option<Watch>)
    requires RecordInv(w, size)
    ensures r.Some? ==> RecordInv(r.value, size)
    decreases steps
  {
    hide RecordInv, RecordStep;
    if steps == [] then Some(w)
    else
      RecordStepKeeps(w, size, steps[0]);
      var next := RecordStep(w, size, steps[0]);
      if next.None? then None else RecordRun(next.value, size, steps[1..])
  }

  /** In every run of a writer that looks before it writes, every write puts one whole frame; the stream in the
      ring is those frames one after the other, whatever the reader does. */
  lemma WholeFramesRecorded(ringSize: nat, size: nat, steps: seq<FrameStep>)
    requires ringSize > 0
    ensures RecordInv(Watch(Init(ringSize), false), size)
    ensures var r := RecordRun(Watch(Init(ringSize), false), size, steps);
            r.Some? ==>
              var s := r.value.s;
              && (forall i :: 0 <= i < |s.writeCalls| ==> FrameCall(s.writeCalls[i], size))
              && Ok(s.store.ring) && s.wr.pos <= |s.wr.buf|
              && s.store.read + Contents(s.store.ring) == Moved(s.writeCalls) + s.wr.buf[..s.wr.pos]
              && (s.wr.pos == 0 || s.wr.pos == |s.wr.buf|)
  {
    InitInv(ringSize);
    var r := RecordRun(Watch(Init(ringSize), false), size, steps);
    if r.Some? { IdleAtStart(r.value.s); }
    hide RecordRun, Moved, Contents, Ok, SyncInv;
  }

  lemma IdleAtStart(s: State)
    requires Inv(s)
    ensures s.wr.pc.Idle? ==> s.wr.pos == 0
  {
    hide Contents, Ok, Moved;
  }
}
