/** The ring buffer shared by one reader and one writer, over every interleaving of their steps
    and of threads that raise "abort", "done" or "unblock". Steps are as fine as the accesses to
    the mutex, to the two binary semaphores and to each flag. */
module RingProtocol {
  import opened Wrappers
  import opened RingCore
  import opened RingBuffer

  /** Where a reader or a writer stands. Crit is the locked section up to the size test and the copy. */
  datatype Pc =
    | Idle | Head | Lock | Crit | UnlockCopied
    | ChkDone | ChkAbort | ChkUnblock | UnlockStop | UnlockWait
    | Give | Take | Exit | Finish

  /** One call in progress: `left` bytes to go, `got` moved so far, `ret` the reason to stop. */
  datatype Reader = Reader(pc: Pc, left: nat, got: seq<byte>, ret: int)
  datatype Writer = Writer(pc: Pc, buf: seq<byte>, pos: nat, ret: int)

  datatype Who = TheReader | TheWriter

  /** A finished call: the bytes it really moved, and what it returned. */
  datatype Call = Call(moved: seq<byte>, result: int)

  /** The semaphores, the flags, and the gives that raised flags still owe. */
  datatype Sync = Sync(
    lock: Option<Who>, canRead: bool, canWrite: bool,
    done: bool, abortRead: bool, abortWrite: bool, unblock: bool,
    owedRead: nat, owedWrite: nat)

  /** The storage, with all bytes ever copied in and copied out. */
  datatype Store = Store(ring: Ring, written: seq<byte>, read: seq<byte>)

  datatype State = State(store: Store, y: Sync, rd: Reader, wr: Writer, readCalls: seq<Call>, writeCalls: seq<Call>)

  const IDLE_READER := Reader(Idle, 0, [], 0)
  const IDLE_WRITER := Writer(Idle, [], 0, 0)

  function Init(size: nat): State {
    State(Store(Empty(seq(size, _ => 0)), [], []), Sync(None, false, false, false, false, false, false, 0, 0),
          IDLE_READER, IDLE_WRITER, [], [])
  }

  /** A step of the system. A thread that raises a flag gives the semaphore in a later step. */
  datatype Step =
    | ReadCall(len: nat) | ReadStep | ReadTimeout
    | WriteCall(buf: seq<byte>) | WriteStep | WriteTimeout
    | Control(c: Control)

  datatype Control = RaiseDone | RaiseAbortRead | RaiseUnblock | GiveRead | RaiseAbortWrite | GiveWrite

  // ---------- the reader ----------

  /** A reader's step outside the copying section; None when it has to wait. */
  function ReaderSync(y: Sync, rd: Reader): Option<(Sync, Reader)> {
    match rd.pc
    case Idle => None
    case Head => Some((y, rd.(pc := if rd.left == 0 then Exit else Lock)))
    case Lock => if y.lock.None? then Some((y.(lock := Some(TheReader)), rd.(pc := Crit))) else None
    case Crit => None
    case UnlockCopied => Some((y.(lock := None), rd.(pc := if rd.left == 0 then Exit else Head)))
    case ChkDone => Some((y, if y.done then rd.(pc := UnlockStop, ret := RB_DONE) else rd.(pc := ChkAbort)))
    case ChkAbort => Some((y, if y.abortRead then rd.(pc := UnlockStop, ret := RB_ABORT) else rd.(pc := ChkUnblock)))
    case ChkUnblock => Some((y, if y.unblock then rd.(pc := UnlockStop, ret := RB_TIMEOUT) else rd.(pc := UnlockWait)))
    case UnlockStop => Some((y.(lock := None), rd.(pc := Exit)))
    case UnlockWait => Some((y.(lock := None), rd.(pc := Give)))
    case Give => Some((y.(canWrite := true), rd.(pc := Take)))
    case Take => if y.canRead then Some((y.(canRead := false), rd.(pc := Head))) else None
    case Exit => Some((y.(canWrite := y.canWrite || rd.got != []), rd.(pc := Finish)))
    case Finish => Some((y.(unblock := false), IDLE_READER))
  }

  /** The size test and, when there is something to read, the copy, under the lock. */
  function ReadCrit(st: Store, rd: Reader): (Store, Reader)
    requires Ok(st.ring)
  {
    var n := Least(st.ring.fill, rd.left);
    if n == 0 then (st, rd.(pc := ChkDone))
    else
      var (ring, bytes) := GetChunk(st.ring, n);
      (Store(ring, st.written, st.read + bytes), Reader(UnlockCopied, rd.left - n, rd.got + bytes, rd.ret))
  }

  function Finished(got: seq<byte>, ret: int): Call {
    Call(got, Outcome(|got|, ret))
  }

  function ReaderStep(s: State): Option<State>
    requires Ok(s.store.ring)
  {
    if s.rd.pc.Crit? then
      var (st, rd) := ReadCrit(s.store, s.rd);
      Some(s.(store := st, rd := rd))
    else
      var next := ReaderSync(s.y, s.rd);
      if next.None? then None
      else
        var calls := if s.rd.pc.Finish? then s.readCalls + [Finished(s.rd.got, s.rd.ret)] else s.readCalls;
        Some(s.(y := next.value.0, rd := next.value.1, readCalls := calls))
  }

  // ---------- the writer ----------

  function WriterSync(y: Sync, wr: Writer): Option<(Sync, Writer)> {
    match wr.pc
    case Idle => None
    case Head => Some((y, wr.(pc := if wr.pos == |wr.buf| then Exit else Lock)))
    case Lock => if y.lock.None? then Some((y.(lock := Some(TheWriter)), wr.(pc := Crit))) else None
    case Crit => None
    case UnlockCopied => Some((y.(lock := None), wr.(pc := if wr.pos == |wr.buf| then Exit else Head)))
    case ChkDone => Some((y, if y.done then wr.(pc := UnlockStop, ret := RB_DONE) else wr.(pc := ChkAbort)))
    case ChkAbort => Some((y, if y.abortWrite then wr.(pc := UnlockStop, ret := RB_ABORT) else wr.(pc := UnlockWait)))
    case ChkUnblock => None
    case UnlockStop => Some((y.(lock := None), wr.(pc := Exit)))
    case UnlockWait => Some((y.(lock := None), wr.(pc := Give)))
    case Give => Some((y.(canRead := true), wr.(pc := Take)))
    case Take => if y.canWrite then Some((y.(canWrite := false), wr.(pc := Head))) else None
    case Exit => Some((y.(canRead := y.canRead || wr.pos > 0), wr.(pc := Finish)))
    case Finish => Some((y, IDLE_WRITER))
  }

  function WriteCrit(st: Store, wr: Writer): (Store, Writer)
    requires Ok(st.ring) && wr.pos <= |wr.buf|
  {
    var n := Least(|st.ring.data| - st.ring.fill, |wr.buf| - wr.pos);
    if n == 0 then (st, wr.(pc := ChkDone))
    else
      var bytes := wr.buf[wr.pos..wr.pos + n];
      (Store(PutChunk(st.ring, bytes), st.written + bytes, st.read), wr.(pc := UnlockCopied, pos := wr.pos + n))
  }

  function WriterStep(s: State): Option<State>
    requires Ok(s.store.ring) && s.wr.pos <= |s.wr.buf|
  {
    if s.wr.pc.Crit? then
      var (st, wr) := WriteCrit(s.store, s.wr);
      Some(s.(store := st, wr := wr))
    else
      var next := WriterSync(s.y, s.wr);
      if next.None? then None
      else
        var calls := if s.wr.pc.Finish? then s.writeCalls + [Finished(s.wr.buf[..s.wr.pos], s.wr.ret)]
                     else s.writeCalls;
        Some(s.(y := next.value.0, wr := next.value.1, writeCalls := calls))
  }

  // ---------- the system ----------

  function ControlSync(y: Sync, c: Control): Option<Sync> {
    match c
    case RaiseDone => Some(y.(done := true, owedRead := y.owedRead + 1))
    case RaiseAbortRead => Some(y.(abortRead := true, owedRead := y.owedRead + 1))
    case RaiseUnblock => Some(y.(unblock := true, owedRead := y.owedRead + 1))
    case GiveRead => if y.owedRead > 0 then Some(y.(canRead := true, owedRead := y.owedRead - 1)) else None
    case RaiseAbortWrite => Some(y.(abortWrite := true, owedWrite := y.owedWrite + 1))
    case GiveWrite => if y.owedWrite > 0 then Some(y.(canWrite := true, owedWrite := y.owedWrite - 1)) else None
  }

  /** None when the step is not possible in this state. */
  function Next(s: State, step: Step): Option<State>
    requires Ok(s.store.ring) && s.wr.pos <= |s.wr.buf|
  {
    match step
    case ReadCall(len) => if s.rd.pc.Idle? then Some(s.(rd := Reader(Head, len, [], 0))) else None
    case ReadStep => ReaderStep(s)
    case ReadTimeout => if s.rd.pc.Take? then Some(s.(rd := s.rd.(pc := Exit, ret := RB_TIMEOUT))) else None
    case WriteCall(buf) => if s.wr.pc.Idle? then Some(s.(wr := Writer(Head, buf, 0, 0))) else None
    case WriteStep => WriterStep(s)
    case WriteTimeout => if s.wr.pc.Take? then Some(s.(wr := s.wr.(pc := Exit, ret := RB_TIMEOUT))) else None
    case Control(c) =>
      var y := ControlSync(s.y, c);
      if y.None? then None else Some(s.(y := y.value))
  }

  // ---------- what every step keeps ----------

  predicate Waiting(pc: Pc) {
    pc.Give? || pc.Take?
  }

  predicate Checking(pc: Pc) {
    pc.ChkDone? || pc.ChkAbort? || pc.ChkUnblock? || pc.UnlockWait?
  }

  predicate Locked(pc: Pc) {
    pc.Crit? || pc.UnlockCopied? || Checking(pc) || pc.UnlockStop?
  }

  /** The mutex is held exactly by the thread that is in a locked section. */
  predicate Mutex(y: Sync, rd: Reader, wr: Writer) {
    && (y.lock == Some(TheReader) <==> Locked(rd.pc))
    && (y.lock == Some(TheWriter) <==> Locked(wr.pc))
  }

  /** Whoever looks at the flags does so while the buffer is still empty, or full. */
  predicate SeenUnderLock(fill: nat, size: nat, rd: Reader, wr: Writer) {
    && (Checking(rd.pc) || rd.pc.UnlockStop? ==> fill == 0)
    && (Checking(wr.pc) || wr.pc.UnlockStop? ==> fill == size)
  }

  /** A call that locks, checks or waits has something left to move. */
  predicate Shape(rd: Reader, wr: Writer) {
    && (rd.pc.Idle? ==> rd.got == []) && (wr.pc.Idle? ==> wr.pos == 0)
    && (rd.pc.Lock? || rd.pc.Crit? || Waiting(rd.pc) || Checking(rd.pc) ==> rd.left > 0)
    && (wr.pc.Lock? || wr.pc.Crit? || Waiting(wr.pc) || Checking(wr.pc) ==> wr.pos < |wr.buf|)
    && wr.pos <= |wr.buf| && !wr.pc.ChkUnblock?
  }

  /** The writer has put bytes and has still to give can_read, in its exit at the latest. */
  predicate WriterOwes(wr: Writer) {
    wr.pc.Give? || (wr.pos > 0 && !wr.pc.Idle? && !wr.pc.Take? && !wr.pc.Finish?)
  }

  predicate ReaderOwes(rd: Reader) {
    rd.pc.Give? || (rd.got != [] && !rd.pc.Idle? && !rd.pc.Take? && !rd.pc.Finish?)
  }

  /** A thread that waits although it could go on has a token, or will get one. */
  predicate NoLostWakeup(fill: nat, size: nat, y: Sync, rd: Reader, wr: Writer) {
    && (Waiting(rd.pc) && fill > 0 ==> y.canRead || WriterOwes(wr))
    && (Waiting(wr.pc) && fill < size ==> y.canWrite || ReaderOwes(rd))
  }

  /** A flag raised after the waiting thread looked at it leaves a token, or one still to be given. */
  predicate FlagsWake(y: Sync, rd: Reader, wr: Writer) {
    DoneWakes(y, rd) && AbortReadWakes(y, rd) && UnblockWakes(y, rd) && AbortWriteWakes(y, wr)
  }

  predicate DoneWakes(y: Sync, rd: Reader) {
    y.done && (Waiting(rd.pc) || (Checking(rd.pc) && !rd.pc.ChkDone?)) ==> y.canRead || y.owedRead > 0
  }

  predicate AbortReadWakes(y: Sync, rd: Reader) {
    y.abortRead && (Waiting(rd.pc) || rd.pc.ChkUnblock? || rd.pc.UnlockWait?) ==> y.canRead || y.owedRead > 0
  }

  predicate UnblockWakes(y: Sync, rd: Reader) {
    y.unblock && (Waiting(rd.pc) || rd.pc.UnlockWait?) ==> y.canRead || y.owedRead > 0
  }

  predicate AbortWriteWakes(y: Sync, wr: Writer) {
    y.abortWrite && (Waiting(wr.pc) || wr.pc.UnlockWait?) ==> y.canWrite || y.owedWrite > 0
  }

  predicate SyncInv(fill: nat, size: nat, y: Sync, rd: Reader, wr: Writer) {
    && Mutex(y, rd, wr) && SeenUnderLock(fill, size, rd, wr) && Shape(rd, wr)
    && NoLostWakeup(fill, size, y, rd, wr) && FlagsWake(y, rd, wr)
  }

  /** Bytes come out in the order they went in, none is lost and none is duplicated. */
  predicate Conserved(st: Store) {
    Ok(st.ring) && st.read + Contents(st.ring) == st.written
  }

  function Moved(calls: seq<Call>): seq<byte> {
    if calls == [] then [] else Moved(calls[..|calls| - 1]) + calls[|calls| - 1].moved
  }

  /** What a result says about the call it ends; RB_ABORT says nothing about the bytes moved. */
  predicate Honest(c: Call) {
    && (c.result >= 0 ==> c.result == |c.moved|)
    && (c.result < 0 ==> c.result == RB_DONE || c.result == RB_TIMEOUT || c.result == RB_ABORT)
    && (c.result == RB_DONE || c.result == RB_TIMEOUT ==> c.moved == [])
  }

  predicate RetOk(ret: int) {
    ret == 0 || ret == RB_DONE || ret == RB_ABORT || ret == RB_TIMEOUT
  }

  /** Each call accounts for exactly the bytes it moved. */
  predicate ReadsAccounted(st: Store, rd: Reader, calls: seq<Call>) {
    && st.read == Moved(calls) + rd.got
    && (forall c <- calls :: Honest(c))
    && RetOk(rd.ret)
  }

  predicate WritesAccounted(st: Store, wr: Writer, calls: seq<Call>) {
    && wr.pos <= |wr.buf|
    && st.written == Moved(calls) + wr.buf[..wr.pos]
    && (forall c <- calls :: Honest(c))
    && RetOk(wr.ret)
  }

  predicate Inv(s: State) {
    && Conserved(s.store)
    && SyncInv(s.store.ring.fill, |s.store.ring.data|, s.y, s.rd, s.wr)
    && ReadsAccounted(s.store, s.rd, s.readCalls) && WritesAccounted(s.store, s.wr, s.writeCalls)
  }

  lemma Steppable(s: State)
    requires Inv(s)
    ensures Ok(s.store.ring) && s.wr.pos <= |s.wr.buf|
  {
  }

  lemma InitInv(size: nat)
    requires size > 0
    ensures Inv(Init(size)) && |Init(size).store.ring.data| == size
  {
  }

  // ---------- the reader keeps the invariants ----------

  lemma ReaderKeepsMutex(fill: nat, size: nat, y: Sync, rd: Reader, wr: Writer)
    requires Mutex(y, rd, wr) && ReaderSync(y, rd).Some?
    ensures var (y', rd') := ReaderSync(y, rd).value; Mutex(y', rd', wr)
  {
  }

  lemma ReaderKeepsSeenUnderLock(fill: nat, size: nat, y: Sync, rd: Reader, wr: Writer)
    requires SeenUnderLock(fill, size, rd, wr) && ReaderSync(y, rd).Some?
    ensures var (y', rd') := ReaderSync(y, rd).value; SeenUnderLock(fill, size, rd', wr)
  {
  }

  lemma ReaderKeepsShape(fill: nat, size: nat, y: Sync, rd: Reader, wr: Writer)
    requires Shape(rd, wr) && ReaderSync(y, rd).Some?
    ensures var (y', rd') := ReaderSync(y, rd).value; Shape(rd', wr)
  {
  }

  lemma ReaderKeepsNoLostWakeup(fill: nat, size: nat, y: Sync, rd: Reader, wr: Writer)
    requires NoLostWakeup(fill, size, y, rd, wr) && SeenUnderLock(fill, size, rd, wr) && Shape(rd, wr)
             && ReaderSync(y, rd).Some?
    ensures var (y', rd') := ReaderSync(y, rd).value; NoLostWakeup(fill, size, y', rd', wr)
  {
  }

  lemma ReaderKeepsDoneWakes(y: Sync, rd: Reader, wr: Writer)
    requires DoneWakes(y, rd) && ReaderSync(y, rd).Some?
    ensures var (y', rd') := ReaderSync(y, rd).value; DoneWakes(y', rd')
  {
  }

  lemma ReaderKeepsAbortReadWakes(y: Sync, rd: Reader, wr: Writer)
    requires AbortReadWakes(y, rd) && ReaderSync(y, rd).Some?
    ensures var (y', rd') := ReaderSync(y, rd).value; AbortReadWakes(y', rd')
  {
  }

  lemma ReaderKeepsUnblockWakes(y: Sync, rd: Reader, wr: Writer)
    requires UnblockWakes(y, rd) && ReaderSync(y, rd).Some?
    ensures var (y', rd') := ReaderSync(y, rd).value; UnblockWakes(y', rd')
  {
  }

  lemma ReaderKeepsAbortWriteWakes(y: Sync, rd: Reader, wr: Writer)
    requires AbortWriteWakes(y, wr) && ReaderSync(y, rd).Some?
    ensures var (y', rd') := ReaderSync(y, rd).value; AbortWriteWakes(y', wr)
  {
  }

  lemma ReaderKeepsFlagsWake(y: Sync, rd: Reader, wr: Writer)
    requires FlagsWake(y, rd, wr) && ReaderSync(y, rd).Some?
    ensures var (y', rd') := ReaderSync(y, rd).value; FlagsWake(y', rd', wr)
  {
    hide DoneWakes, AbortReadWakes, UnblockWakes, AbortWriteWakes, ReaderSync;
    ReaderKeepsDoneWakes(y, rd, wr);
    ReaderKeepsAbortReadWakes(y, rd, wr);
    ReaderKeepsUnblockWakes(y, rd, wr);
    ReaderKeepsAbortWriteWakes(y, rd, wr);
  }

  lemma ReaderSyncKeeps(fill: nat, size: nat, y: Sync, rd: Reader, wr: Writer)
    requires SyncInv(fill, size, y, rd, wr) && ReaderSync(y, rd).Some?
    ensures var (y', rd') := ReaderSync(y, rd).value; SyncInv(fill, size, y', rd', wr)
  {
    hide Mutex, SeenUnderLock, Shape, NoLostWakeup, FlagsWake, ReaderSync;
    ReaderKeepsMutex(fill, size, y, rd, wr);
    ReaderKeepsSeenUnderLock(fill, size, y, rd, wr);
    ReaderKeepsShape(fill, size, y, rd, wr);
    ReaderKeepsNoLostWakeup(fill, size, y, rd, wr);
    ReaderKeepsFlagsWake(y, rd, wr);
  }

  /** The reader's locked section either moves bytes out, or finds nothing to do. */
  predicate ReadEffect(st: Store, rd: Reader, st': Store, rd': Reader) {
    if rd'.pc.ChkDone? then
      st' == st && rd' == rd.(pc := ChkDone) && Least(st.ring.fill, rd.left) == 0
    else
      && rd'.pc.UnlockCopied? && st'.ring.fill < st.ring.fill && |rd'.got| > |rd.got|
      && rd'.ret == rd.ret && st'.written == st.written
  }

  lemma ReadCritKeeps(st: Store, rd: Reader, calls: seq<Call>)
    requires Conserved(st) && ReadsAccounted(st, rd, calls)
    ensures var (st', rd') := ReadCrit(st, rd);
            && Conserved(st') && ReadsAccounted(st', rd', calls) && ReadEffect(st, rd, st', rd')
            && |st'.ring.data| == |st.ring.data| && st'.written == st.written
  {
    hide Ok, Contents, Moved;
    var n := Least(st.ring.fill, rd.left);
    FillIsLength(st.ring);
    if n > 0 {
      var bytes := GetChunk(st.ring, n).1;
      GetIsDequeue(st.ring, n);
      assert st.read + Contents(st.ring) == (st.read + Contents(st.ring)[..n]) + Contents(st.ring)[n..];
      assert Moved(calls) + rd.got + bytes == Moved(calls) + (rd.got + bytes);
    }
  }

  lemma ReadCritSync(fill: nat, size: nat, y: Sync, rd: Reader, wr: Writer, st: Store, st': Store, rd': Reader)
    requires SyncInv(fill, size, y, rd, wr) && rd.pc.Crit? && st.ring.fill == fill && ReadEffect(st, rd, st', rd')
    ensures SyncInv(st'.ring.fill, size, y, rd', wr)
  {
  }

  lemma MovedMore(calls: seq<Call>, c: Call)
    ensures Moved(calls + [c]) == Moved(calls) + c.moved
  {
    assert (calls + [c])[..|calls|] == calls;
  }

  lemma ReadFinished(st: Store, rd: Reader, calls: seq<Call>)
    requires ReadsAccounted(st, rd, calls)
    ensures ReadsAccounted(st, IDLE_READER, calls + [Finished(rd.got, rd.ret)])
  {
    hide Moved;
    MovedMore(calls, Finished(rd.got, rd.ret));
    assert Moved(calls) + rd.got == Moved(calls + [Finished(rd.got, rd.ret)]) + [];
  }

  lemma ReaderInv(s: State)
    requires Inv(s) && ReaderStep(s).Some?
    ensures Inv(ReaderStep(s).value) && |ReaderStep(s).value.store.ring.data| == |s.store.ring.data|
  {
    hide *;
    if s.rd.pc.Crit? { ReaderCritInv(s); } else { ReaderOtherInv(s); }
  }

  lemma ReaderCritInv(s: State)
    requires Inv(s) && s.rd.pc.Crit?
    ensures Ok(s.store.ring) && ReaderStep(s).Some?
    ensures Inv(ReaderStep(s).value) && |ReaderStep(s).value.store.ring.data| == |s.store.ring.data|
  {
    hide SyncInv, Conserved, ReadsAccounted, ReadEffect, ReadCrit, ReaderSync, Finished;
    Steppable(s);
    var (st, rd) := ReadCrit(s.store, s.rd);
    ReadCritKeeps(s.store, s.rd, s.readCalls);
    ReadCritSync(s.store.ring.fill, |s.store.ring.data|, s.y, s.rd, s.wr, s.store, st, rd);
  }

  lemma ReaderOtherInv(s: State)
    requires Inv(s) && !s.rd.pc.Crit? && ReaderStep(s).Some?
    ensures Inv(ReaderStep(s).value) && |ReaderStep(s).value.store.ring.data| == |s.store.ring.data|
  {
    hide SyncInv, Conserved, ReadsAccounted, ReadCrit, ReaderSync, Finished;
    Steppable(s);
    ReaderSyncKeeps(s.store.ring.fill, |s.store.ring.data|, s.y, s.rd, s.wr);
    if s.rd.pc.Finish? {
      FinishIdles(s.y, s.rd);
      ReadFinished(s.store, s.rd, s.readCalls);
    } else {
      ReaderSyncMovesNothing(s.store, s.y, s.rd, s.readCalls);
    }
  }

  lemma FinishIdles(y: Sync, rd: Reader)
    requires rd.pc.Finish?
    ensures ReaderSync(y, rd) == Some((y.(unblock := false), IDLE_READER))
  {
  }

  lemma ReaderSyncMovesNothing(st: Store, y: Sync, rd: Reader, calls: seq<Call>)
    requires ReadsAccounted(st, rd, calls) && ReaderSync(y, rd).Some? && !rd.pc.Finish?
    ensures ReadsAccounted(st, ReaderSync(y, rd).value.1, calls)
  {
    hide Moved;
  }

  // ---------- the writer keeps the invariants ----------

  lemma WriterKeepsMutex(fill: nat, size: nat, y: Sync, rd: Reader, wr: Writer)
    requires Mutex(y, rd, wr) && WriterSync(y, wr).Some?
    ensures var (y', wr') := WriterSync(y, wr).value; Mutex(y', rd, wr')
  {
  }

  lemma WriterKeepsSeenUnderLock(fill: nat, size: nat, y: Sync, rd: Reader, wr: Writer)
    requires SeenUnderLock(fill, size, rd, wr) && WriterSync(y, wr).Some?
    ensures var (y', wr') := WriterSync(y, wr).value; SeenUnderLock(fill, size, rd, wr')
  {
  }

  lemma WriterKeepsShape(fill: nat, size: nat, y: Sync, rd: Reader, wr: Writer)
    requires Shape(rd, wr) && WriterSync(y, wr).Some?
    ensures var (y', wr') := WriterSync(y, wr).value; Shape(rd, wr')
  {
  }

  lemma WriterKeepsNoLostWakeup(fill: nat, size: nat, y: Sync, rd: Reader, wr: Writer)
    requires NoLostWakeup(fill, size, y, rd, wr) && SeenUnderLock(fill, size, rd, wr) && Shape(rd, wr)
             && WriterSync(y, wr).Some?
    ensures var (y', wr') := WriterSync(y, wr).value; NoLostWakeup(fill, size, y', rd, wr')
  {
  }

  lemma WriterKeepsDoneWakes(y: Sync, rd: Reader, wr: Writer)
    requires DoneWakes(y, rd) && WriterSync(y, wr).Some?
    ensures var (y', wr') := WriterSync(y, wr).value; DoneWakes(y', rd)
  {
  }

  lemma WriterKeepsAbortReadWakes(y: Sync, rd: Reader, wr: Writer)
    requires AbortReadWakes(y, rd) && WriterSync(y, wr).Some?
    ensures var (y', wr') := WriterSync(y, wr).value; AbortReadWakes(y', rd)
  {
  }

  lemma WriterKeepsUnblockWakes(y: Sync, rd: Reader, wr: Writer)
    requires UnblockWakes(y, rd) && WriterSync(y, wr).Some?
    ensures var (y', wr') := WriterSync(y, wr).value; UnblockWakes(y', rd)
  {
  }

  lemma WriterKeepsAbortWriteWakes(y: Sync, rd: Reader, wr: Writer)
    requires AbortWriteWakes(y, wr) && WriterSync(y, wr).Some?
    ensures var (y', wr') := WriterSync(y, wr).value; AbortWriteWakes(y', wr')
  {
  }

  lemma WriterKeepsFlagsWake(y: Sync, rd: Reader, wr: Writer)
    requires FlagsWake(y, rd, wr) && WriterSync(y, wr).Some?
    ensures var (y', wr') := WriterSync(y, wr).value; FlagsWake(y', rd, wr')
  {
    hide DoneWakes, AbortReadWakes, UnblockWakes, AbortWriteWakes, WriterSync;
    WriterKeepsDoneWakes(y, rd, wr);
    WriterKeepsAbortReadWakes(y, rd, wr);
    WriterKeepsUnblockWakes(y, rd, wr);
    WriterKeepsAbortWriteWakes(y, rd, wr);
  }

  lemma WriterSyncKeeps(fill: nat, size: nat, y: Sync, rd: Reader, wr: Writer)
    requires SyncInv(fill, size, y, rd, wr) && WriterSync(y, wr).Some?
    ensures var (y', wr') := WriterSync(y, wr).value; SyncInv(fill, size, y', rd, wr')
  {
    hide Mutex, SeenUnderLock, Shape, NoLostWakeup, FlagsWake, WriterSync;
    WriterKeepsMutex(fill, size, y, rd, wr);
    WriterKeepsSeenUnderLock(fill, size, y, rd, wr);
    WriterKeepsShape(fill, size, y, rd, wr);
    WriterKeepsNoLostWakeup(fill, size, y, rd, wr);
    WriterKeepsFlagsWake(y, rd, wr);
  }

  predicate WriteEffect(st: Store, wr: Writer, st': Store, wr': Writer) {
    if wr'.pc.ChkDone? then
      st' == st && wr' == wr.(pc := ChkDone) && (st.ring.fill == |st.ring.data| || wr.pos == |wr.buf|)
    else
      && wr'.pc.UnlockCopied? && st'.ring.fill > st.ring.fill && wr.pos < wr'.pos <= |wr'.buf|
      && wr'.ret == wr.ret && st'.read == st.read
  }

  lemma WriteCritKeeps(st: Store, wr: Writer, calls: seq<Call>)
    requires Conserved(st) && WritesAccounted(st, wr, calls)
    ensures st.ring.fill <= |st.ring.data|
    ensures var (st', wr') := WriteCrit(st, wr);
            && Conserved(st') && WritesAccounted(st', wr', calls) && WriteEffect(st, wr, st', wr')
            && |st'.ring.data| == |st.ring.data| && st'.read == st.read
  {
    hide Ok, Contents, Moved;
    FillIsLength(st.ring);
    var n := Least(|st.ring.data| - st.ring.fill, |wr.buf| - wr.pos);
    if n > 0 {
      var bytes := wr.buf[wr.pos..wr.pos + n];
      PutIsEnqueue(st.ring, bytes);
      assert (st.read + Contents(st.ring)) + bytes == st.read + (Contents(st.ring) + bytes);
      assert Moved(calls) + wr.buf[..wr.pos] + bytes == Moved(calls) + wr.buf[..wr.pos + n];
    }
  }

  lemma WriteCritSync(fill: nat, size: nat, y: Sync, rd: Reader, wr: Writer, st: Store, st': Store, wr': Writer)
    requires SyncInv(fill, size, y, rd, wr) && wr.pc.Crit? && st.ring.fill == fill <= size && |st.ring.data| == size
    requires WriteEffect(st, wr, st', wr')
    ensures SyncInv(st'.ring.fill, size, y, rd, wr')
  {
  }

  lemma WriteFinished(st: Store, wr: Writer, calls: seq<Call>)
    requires WritesAccounted(st, wr, calls)
    ensures WritesAccounted(st, IDLE_WRITER, calls + [Finished(wr.buf[..wr.pos], wr.ret)])
  {
    hide Moved;
    MovedMore(calls, Finished(wr.buf[..wr.pos], wr.ret));
    assert Moved(calls) + wr.buf[..wr.pos] == Moved(calls + [Finished(wr.buf[..wr.pos], wr.ret)]) + [];
  }

  lemma WriterSyncMovesNothing(st: Store, y: Sync, wr: Writer, calls: seq<Call>)
    requires WritesAccounted(st, wr, calls) && WriterSync(y, wr).Some? && !wr.pc.Finish?
    ensures WritesAccounted(st, WriterSync(y, wr).value.1, calls)
  {
    hide Moved;
  }

  lemma WriterInv(s: State)
    requires Inv(s) && WriterStep(s).Some?
    ensures Inv(WriterStep(s).value) && |WriterStep(s).value.store.ring.data| == |s.store.ring.data|
  {
    hide *;
    if s.wr.pc.Crit? { WriterCritInv(s); } else { WriterOtherInv(s); }
  }

  lemma WriterCritInv(s: State)
    requires Inv(s) && s.wr.pc.Crit?
    ensures Ok(s.store.ring) && s.wr.pos <= |s.wr.buf| && WriterStep(s).Some?
    ensures Inv(WriterStep(s).value) && |WriterStep(s).value.store.ring.data| == |s.store.ring.data|
  {
    hide SyncInv, Conserved, WritesAccounted, WriteEffect, WriteCrit, WriterSync, Finished;
    Steppable(s);
    var (st, wr) := WriteCrit(s.store, s.wr);
    WriteCritKeeps(s.store, s.wr, s.writeCalls);
    WriteCritSync(s.store.ring.fill, |s.store.ring.data|, s.y, s.rd, s.wr, s.store, st, wr);
  }

  lemma WriterOtherInv(s: State)
    requires Inv(s) && !s.wr.pc.Crit? && WriterStep(s).Some?
    ensures Inv(WriterStep(s).value) && |WriterStep(s).value.store.ring.data| == |s.store.ring.data|
  {
    hide SyncInv, Conserved, WritesAccounted, WriteCrit, WriterSync, Finished;
    Steppable(s);
    WriterSyncKeeps(s.store.ring.fill, |s.store.ring.data|, s.y, s.rd, s.wr);
    if s.wr.pc.Finish? {
      assert WriterSync(s.y, s.wr) == Some((s.y, IDLE_WRITER)) by { WriterFinishIdles(s.y, s.wr); }
      WriteFinished(s.store, s.wr, s.writeCalls);
    } else {
      WriterSyncMovesNothing(s.store, s.y, s.wr, s.writeCalls);
    }
  }

  lemma WriterFinishIdles(y: Sync, wr: Writer)
    requires wr.pc.Finish?
    ensures WriterSync(y, wr) == Some((y, IDLE_WRITER))
  {
  }

  // ---------- every step, every run ----------

  lemma ControlSyncKeeps(fill: nat, size: nat, y: Sync, rd: Reader, wr: Writer, c: Control)
    requires SyncInv(fill, size, y, rd, wr) && ControlSync(y, c).Some?
    ensures SyncInv(fill, size, ControlSync(y, c).value, rd, wr)
  {
    hide Locked, Checking, Waiting, Shape, SeenUnderLock;
  }

  lemma ReaderMoves(fill: nat, size: nat, y: Sync, rd: Reader, wr: Writer, rd': Reader)
    requires SyncInv(fill, size, y, rd, wr)
    requires (rd.pc.Idle? && rd'.pc.Head?) || (rd.pc.Take? && rd'.pc.Exit? && rd'.got == rd.got)
    ensures SyncInv(fill, size, y, rd', wr)
  {
  }

  lemma WriterMoves(fill: nat, size: nat, y: Sync, rd: Reader, wr: Writer, wr': Writer)
    requires SyncInv(fill, size, y, rd, wr) && wr'.pos <= |wr'.buf|
    requires (wr.pc.Idle? && wr'.pc.Head?) || (wr.pc.Take? && wr'.pc.Exit? && wr'.pos == wr.pos)
    ensures SyncInv(fill, size, y, rd, wr')
  {
  }

  lemma CallsStartEmpty(s: State)
    requires Inv(s)
    ensures s.rd.pc.Idle? ==> forall len: nat :: ReadsAccounted(s.store, Reader(Head, len, [], 0), s.readCalls)
    ensures s.wr.pc.Idle? ==> forall buf :: WritesAccounted(s.store, Writer(Head, buf, 0, 0), s.writeCalls)
    ensures s.rd.pc.Take? ==> ReadsAccounted(s.store, s.rd.(pc := Exit, ret := RB_TIMEOUT), s.readCalls)
    ensures s.wr.pc.Take? ==> WritesAccounted(s.store, s.wr.(pc := Exit, ret := RB_TIMEOUT), s.writeCalls)
  {
    hide Ok, Contents, Moved, Mutex, SeenUnderLock, NoLostWakeup, FlagsWake;
    assert s.wr.buf[..0] == [];
  }

  lemma NextInv(s: State, step: Step)
    requires Inv(s) && Next(s, step).Some?
    ensures Inv(Next(s, step).value) && |Next(s, step).value.store.ring.data| == |s.store.ring.data|
  {
    Steppable(s);
    CallsStartEmpty(s);
    hide SyncInv, Conserved, ReadsAccounted, WritesAccounted, ReaderStep, WriterStep, ControlSync;
    var s' := Next(s, step).value;
    match step
    case ReadStep => ReaderInv(s);
    case WriteStep => WriterInv(s);
    case Control(c) => ControlSyncKeeps(s.store.ring.fill, |s.store.ring.data|, s.y, s.rd, s.wr, c);
    case ReadCall(_) => ReaderMoves(s.store.ring.fill, |s.store.ring.data|, s.y, s.rd, s.wr, s'.rd);
    case ReadTimeout => ReaderMoves(s.store.ring.fill, |s.store.ring.data|, s.y, s.rd, s.wr, s'.rd);
    case WriteCall(_) => WriterMoves(s.store.ring.fill, |s.store.ring.data|, s.y, s.rd, s.wr, s'.wr);
    case WriteTimeout => WriterMoves(s.store.ring.fill, |s.store.ring.data|, s.y, s.rd, s.wr, s'.wr);
  }

  /** The state after a run; None when some step was not possible. */
  function Run(s: State, steps: seq<Step>): (r: Option<State>)
    requires Inv(s)
    ensures r.Some? ==> Inv(r.value) && |r.value.store.ring.data| == |s.store.ring.data|
    decreases steps
  {
    hide Inv, Next;
    Steppable(s);
    if steps == [] then Some(s)
    else
      var next := Next(s, steps[0]);
      if next.None? then None
      else
        NextInv(s, steps[0]);
        Run(next.value, steps[1..])
  }

  // ---------- what this means ----------

  /** In every run the bytes read are a prefix of the bytes written, the rest is what is stored, and
      both streams are exactly what the calls moved. */
  lemma StreamConserved(size: nat, steps: seq<Step>)
    requires size > 0
    ensures Inv(Init(size))
    ensures Run(Init(size), steps).Some? ==>
            var s := Run(Init(size), steps).value;
            && Ok(s.store.ring) && s.wr.pos <= |s.wr.buf|
            && s.store.written == s.store.read + Contents(s.store.ring)
            && s.store.read == Moved(s.readCalls) + s.rd.got
            && s.store.written == Moved(s.writeCalls) + s.wr.buf[..s.wr.pos]
            && (forall c <- s.readCalls + s.writeCalls :: Honest(c))
  {
    hide Run, Init;
    InitInv(size);
  }
}
