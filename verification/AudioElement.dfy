/** The task of an audio element: it takes commands and calls the element's open, process and close
    callbacks, whose results are arbitrary. */
module AudioElement {
  import opened Wrappers

  datatype AelState = NONE | INIT | INITIALIZING | RUNNING | PAUSED | STOPPED | FINISHED | ERROR

  const AEL_IO_OK := 0
  const AEL_IO_FAIL := -1
  const AEL_IO_DONE := -2
  const AEL_IO_ABORT := -3
  const AEL_IO_TIMEOUT := -4
  const AEL_PROCESS_FAIL := -5

  function Ord(s: AelState): nat {
    match s
    case NONE => 0
    case INIT => 1
    case INITIALIZING => 2
    case RUNNING => 3
    case PAUSED => 4
    case STOPPED => 5
    case FINISHED => 6
    case ERROR => 7
  }

  /** A command from the queue; Foreign is a message that does not come from an element. */
  datatype Cmd = Finish | Stop | Pause | Resume | Destroy | Unknown | Foreign

  datatype Wait = NoWait | Forever

  /** What the task does to the outside: callbacks, and operations on the rings. */
  datatype Event = Open(r: int) | Process(r: int) | Close | RingDone | RingAbort | RingReset

  /** Calls of the interface by other threads, each taken as one step. */
  datatype Api = ApiPause | ApiStop

  /** One round of the task's loop: calls made meanwhile, the command received, if any, what open
      returns if it is called, and what process returns if it is called. */
  datatype Turn = Turn(apis: seq<Api>, cmd: Option<Cmd>, openRes: int, processRes: int)

  // ---------- what the life of an element looks like from outside ----------

  /** Whether it is running and open is part of the picture only because an element without an open
      callback may run in a state that does not say so. */
  datatype Life = Life(state: AelState, running: bool, open: bool)

  const NEWBORN := Life(INIT, false, false)

  function AfterOpen(r: int): AelState {
    if r == AEL_IO_OK || r == AEL_IO_DONE then RUNNING else if r == AEL_IO_ABORT then STOPPED else ERROR
  }

  function AfterStop(l: Life): Life {
    Life(STOPPED, false, l.open && (l.state == FINISHED || l.state == STOPPED))
  }

  function AfterFinish(l: Life): Life {
    if l.state == ERROR || l.state == STOPPED then l else Life(FINISHED, false, false)
  }

  function AfterError(l: Life): Life {
    if l.state == STOPPED then l else Life(ERROR, false, false)
  }

  function AfterResume(hasOpen: bool, l: Life, openRes: int): Life {
    if l.state == RUNNING then l.(running := true)
    else if hasOpen then Life(AfterOpen(openRes), AfterOpen(openRes) == RUNNING, AfterOpen(openRes) == RUNNING)
    else Life(l.state, true, true)
  }

  function AfterCmd(hasOpen: bool, l: Life, cmd: Option<Cmd>, openRes: int): Life {
    match cmd
    case Some(Finish) => AfterFinish(l)
    case Some(Stop) => AfterStop(l)
    case Some(Pause) => Life(PAUSED, false, false)
    case Some(Resume) => AfterResume(hasOpen, l, openRes)
    case Some(Destroy) => l.(running := false)
    case _ => l
  }

  /** Process is called when the element runs and its state is RUNNING or later. */
  predicate Processes(l: Life) {
    l.running && Ord(l.state) >= Ord(RUNNING)
  }

  function AfterProcess(l: Life, r: int): Life {
    if !Processes(l) then l
    else if r == AEL_IO_ABORT then AfterStop(l)
    else if r == AEL_IO_OK || r == AEL_IO_DONE then AfterFinish(l)
    else if r == AEL_IO_FAIL || r == AEL_PROCESS_FAIL then AfterError(l)
    else l
  }

  function AfterApi(l: Life, api: Api): Life {
    if api.ApiPause? && Ord(l.state) >= Ord(PAUSED) then l.(state := PAUSED) else l
  }

  function AfterApis(l: Life, apis: seq<Api>): Life {
    if apis == [] then l else AfterApi(AfterApis(l, apis[..|apis| - 1]), apis[|apis| - 1])
  }

  predicate Destroys(turn: Turn) {
    turn.cmd == Some(Destroy)
  }

  /** After the calls and the command of a round. */
  function Commanded(hasOpen: bool, l: Life, turn: Turn): Life {
    AfterCmd(hasOpen, AfterApis(l, turn.apis), turn.cmd, turn.openRes)
  }

  /** The life at the loop head, from commands and results alone. */
  function LifeOf(hasOpen: bool, turns: seq<Turn>): Life {
    if turns == [] then NEWBORN
    else
      var turn := turns[|turns| - 1];
      var l := Commanded(hasOpen, LifeOf(hasOpen, turns[..|turns| - 1]), turn);
      if Destroys(turn) then l else AfterProcess(l, turn.processRes)
  }

  /** Whether round `n` calls process. */
  predicate ProcessesIn(hasOpen: bool, turns: seq<Turn>, n: nat)
    requires n < |turns|
  {
    !Destroys(turns[n]) && Processes(Commanded(hasOpen, LifeOf(hasOpen, turns[..n]), turns[n]))
  }

  function ProcessCount(hasOpen: bool, turns: seq<Turn>): nat {
    if turns == [] then 0
    else ProcessCount(hasOpen, turns[..|turns| - 1]) + if ProcessesIn(hasOpen, turns, |turns| - 1) then 1 else 0
  }

  // ---------- the end of the stream ----------

  /** These results of process end the stream: the output rings are marked done. */
  predicate Ends(r: int) {
    r == AEL_IO_OK || r == AEL_IO_DONE
  }

  /** The output rings are reset by a "resume", unless the element is new, running or paused. */
  predicate ResetsRings(l: Life, cmd: Option<Cmd>) {
    cmd == Some(Resume) && l.state != INIT && l.state != RUNNING && l.state != PAUSED
  }

  /** Before the command of round `n`. */
  function AtCommand(hasOpen: bool, turns: seq<Turn>, n: nat): Life
    requires n < |turns|
  {
    AfterApis(LifeOf(hasOpen, turns[..n]), turns[n].apis)
  }

  predicate EndsIn(hasOpen: bool, turns: seq<Turn>, n: nat)
    requires n < |turns|
  {
    ProcessesIn(hasOpen, turns, n) && Ends(turns[n].processRes)
  }

  predicate ResetsIn(hasOpen: bool, turns: seq<Turn>, n: nat)
    requires n < |turns|
  {
    ResetsRings(AtCommand(hasOpen, turns, n), turns[n].cmd)
  }

  /** Whether the output rings are marked done, at the loop head. */
  predicate Marked(hasOpen: bool, turns: seq<Turn>) {
    if turns == [] then false
    else
      var n := |turns| - 1;
      (Marked(hasOpen, turns[..n]) && !ResetsIn(hasOpen, turns, n)) || EndsIn(hasOpen, turns, n)
  }

  /** Round `n` calls process although the output rings are still marked done. */
  predicate StaleIn(hasOpen: bool, turns: seq<Turn>, n: nat)
    requires n < |turns|
  {
    ProcessesIn(hasOpen, turns, n) && Marked(hasOpen, turns[..n]) && !ResetsIn(hasOpen, turns, n)
  }

  function StaleCount(hasOpen: bool, turns: seq<Turn>): nat {
    if turns == [] then 0
    else StaleCount(hasOpen, turns[..|turns| - 1]) + if StaleIn(hasOpen, turns, |turns| - 1) then 1 else 0
  }

  // ---------- elements with an open callback ----------

  /** The state tells everything. */
  predicate Plain(l: Life) {
    !l.state.NONE? && !l.state.INITIALIZING? && (l.running <==> l.state == RUNNING) && (l.open <==> l.state == RUNNING)
  }

  lemma {:induction false} ApisKeepPlain(l: Life, apis: seq<Api>)
    requires Plain(l)
    ensures Plain(AfterApis(l, apis)) && (AfterApis(l, apis).state == RUNNING <==> l.state == RUNNING)
  {
    if apis != [] { ApisKeepPlain(l, apis[..|apis| - 1]); }
  }

  lemma {:induction false} LifeIsPlain(turns: seq<Turn>)
    requires forall i :: 0 <= i < |turns| ==> !Destroys(turns[i])
    ensures Plain(LifeOf(true, turns))
  {
    if turns != [] {
      LifeIsPlain(turns[..|turns| - 1]);
      ApisKeepPlain(LifeOf(true, turns[..|turns| - 1]), turns[|turns| - 1].apis);
    }
  }

  predicate Starts(turn: Turn) {
    turn.cmd == Some(Resume) && AfterOpen(turn.openRes) == RUNNING
  }

  /** Neither a command nor a result of process takes a running element out of its state. */
  predicate KeepsGoing(turn: Turn) {
    && turn.cmd != Some(Finish) && turn.cmd != Some(Stop) && turn.cmd != Some(Pause)
    && AfterProcess(Life(RUNNING, true, true), turn.processRes).state == RUNNING
  }

  predicate GoingSince(turns: seq<Turn>, i: nat) {
    i < |turns| && Starts(turns[i]) && forall j :: i <= j < |turns| ==> KeepsGoing(turns[j])
  }

  /** An element with an open callback is running exactly when some "resume" opened it and nothing since
      then stopped it. */
  lemma {:induction false} RunningExactly(turns: seq<Turn>)
    requires forall i :: 0 <= i < |turns| ==> !Destroys(turns[i])
    ensures LifeOf(true, turns).state == RUNNING <==> exists i: nat :: GoingSince(turns, i)
  {
    if turns != [] {
      var n := |turns| - 1;
      var init, turn := turns[..n], turns[n];
      RunningExactly(init);
      LifeIsPlain(init);
      ApisKeepPlain(LifeOf(true, init), turn.apis);
      if Starts(turn) && KeepsGoing(turn) { assert GoingSince(turns, n); }
      if i: nat :| GoingSince(init, i) && KeepsGoing(turn) { assert GoingSince(turns, i); }
      if i: nat :| GoingSince(turns, i) {
        assert KeepsGoing(turns[n]);
        if i < n { assert GoingSince(init, i); }
      }
    }
  }

  // ---------- elements without one ----------

  /** A command that brings an element to rest. */
  predicate Rests(turn: Turn) {
    turn.cmd == Some(Finish) || turn.cmd == Some(Stop) || turn.cmd == Some(Pause)
  }

  lemma {:induction false} ApisKeepState(l: Life, apis: seq<Api>)
    ensures Ord(l.state) < Ord(PAUSED) ==> AfterApis(l, apis) == l
    ensures Ord(l.state) >= Ord(PAUSED) ==> Ord(AfterApis(l, apis).state) >= Ord(PAUSED)
    ensures AfterApis(l, apis).running == l.running && AfterApis(l, apis).open == l.open
  {
    if apis != [] { ApisKeepState(l, apis[..|apis| - 1]); }
  }

  predicate InitOrLater(l: Life) {
    l.state == INIT || Ord(l.state) >= Ord(PAUSED)
  }

  lemma RoundFromInit(l: Life, turn: Turn)
    requires InitOrLater(l)
    ensures InitOrLater(Commanded(false, l, turn))
    ensures Commanded(false, l, turn).state == INIT <==> l.state == INIT && !Rests(turn)
  {
    ApisKeepState(l, turn.apis);
    hide AfterApis;
  }

  lemma ProcessFromInit(l: Life, r: int)
    requires InitOrLater(l)
    ensures InitOrLater(AfterProcess(l, r)) && (AfterProcess(l, r).state == INIT <==> l.state == INIT)
  {
  }

  /** It leaves its first state only by a command that brings it to rest, and then it is past RUNNING. */
  lemma {:induction false} StillInit(turns: seq<Turn>)
    ensures InitOrLater(LifeOf(false, turns))
    ensures LifeOf(false, turns).state == INIT <==> forall i :: 0 <= i < |turns| ==> !Rests(turns[i])
  {
    if turns != [] {
      var n := |turns| - 1;
      var init := turns[..n];
      StillInit(init);
      var l := Commanded(false, LifeOf(false, init), turns[n]);
      RoundFromInit(LifeOf(false, init), turns[n]);
      ProcessFromInit(l, turns[n].processRes);
      hide Commanded, AfterProcess, InitOrLater, Rests;
      assert forall i :: 0 <= i < n ==> turns[i] == init[i];
    }
  }

  predicate RestedThenResumed(turns: seq<Turn>, i: nat, j: nat) {
    i < j < |turns| && Rests(turns[i]) && turns[j].cmd == Some(Resume)
  }

  /** Running past INIT in a round comes from a "resume" in that round or before, after a rest. */
  lemma {:induction false} RunsNow(turns: seq<Turn>, n: nat)
    requires n < |turns|
    requires var l := Commanded(false, LifeOf(false, turns[..n]), turns[n]); l.running && l.state != INIT
    ensures exists i: nat, j: nat :: j <= n && RestedThenResumed(turns, i, j)
    decreases n, 1
  {
    var init := turns[..n];
    StillInit(init);
    ApisKeepState(LifeOf(false, init), turns[n].apis);
    if turns[n].cmd == Some(Resume) {
      var i :| 0 <= i < n && Rests(init[i]);
      assert RestedThenResumed(turns, i, n);
    } else {
      assert n > 0 && LifeOf(false, init).running && LifeOf(false, init).state != INIT;
      assert init[..n - 1] == turns[..n - 1];
      RunsNow(turns, n - 1);
    }
  }

  /** An element without an open callback processes at some time if and only if it is resumed after a
      command that brought it to rest; a "resume" of a new one never makes it process. */
  lemma NoOpenProcesses(turns: seq<Turn>)
    ensures (exists n: nat :: n < |turns| && ProcessesIn(false, turns, n)) <==>
            exists i: nat, j: nat :: RestedThenResumed(turns, i, j)
  {
    if n: nat :| n < |turns| && ProcessesIn(false, turns, n) {
      RunsNow(turns, n);
    }
    if i: nat, j: nat :| RestedThenResumed(turns, i, j) {
      StillInit(turns[..j]);
      assert Rests(turns[..j][i]);
      ApisKeepState(LifeOf(false, turns[..j]), turns[j].apis);
      assert ProcessesIn(false, turns, j);
    }
  }

  /** Round by round: it processes exactly when it is running and its state was past RUNNING already when
      it was resumed. */
  lemma NoOpenResumed(l: Life, turn: Turn)
    requires turn.cmd == Some(Resume) && l.state != RUNNING && !l.state.NONE? && !l.state.INITIALIZING?
    ensures Processes(Commanded(false, l, turn)) <==> Ord(l.state) >= Ord(PAUSED)
  {
    ApisKeepState(l, turn.apis);
  }

  // ---------- the discipline of the callbacks ----------

  /** Draining: the end of the stream has been announced, so that no more data may be produced. */
  datatype Phase = Closed | Opened | Draining | Broken

  /** Open and close alternate, process runs only in between and not after the end was announced;
      the rings are aborted or reset only while closed. */
  function Step(p: Phase, e: Event): Phase {
    match e
    case Open(_) => if p == Closed then Opened else Broken
    case Process(_) => if p == Opened then Opened else Broken
    case RingDone => if p == Opened then Draining else Broken
    case Close => if p == Opened || p == Draining then Closed else Broken
    case RingAbort => if p == Closed then Closed else Broken
    case RingReset => if p == Closed then Closed else Broken
  }

  function PhaseOf(trace: seq<Event>): Phase {
    if trace == [] then Closed else Step(PhaseOf(trace[..|trace| - 1]), trace[|trace| - 1])
  }

  lemma PhaseSnoc(trace: seq<Event>, e: Event)
    ensures PhaseOf(trace + [e]) == Step(PhaseOf(trace), e)
    ensures Calls(trace + [e]) == Calls(trace) + if e.Process? then 1 else 0
    ensures DoneFlag(trace + [e]) <==> e.RingDone? || (DoneFlag(trace) && !e.RingReset?)
    ensures StaleCalls(trace + [e]) == StaleCalls(trace) + if e.Process? && DoneFlag(trace) then 1 else 0
  {
    assert (trace + [e])[..|trace|] == trace;
  }

  /** How often process was called. */
  function Calls(trace: seq<Event>): nat {
    if trace == [] then 0 else Calls(trace[..|trace| - 1]) + if trace[|trace| - 1].Process? then 1 else 0
  }

  /** Whether the output rings are marked done. */
  predicate DoneFlag(trace: seq<Event>) {
    trace != [] && var e := trace[|trace| - 1]; e.RingDone? || (DoneFlag(trace[..|trace| - 1]) && !e.RingReset?)
  }

  /** How often process was called while they were. */
  function StaleCalls(trace: seq<Event>): nat {
    if trace == [] then 0
    else
      var init := trace[..|trace| - 1];
      StaleCalls(init) + if trace[|trace| - 1].Process? && DoneFlag(init) then 1 else 0
  }

  function Opens(trace: seq<Event>): nat {
    if trace == [] then 0 else Opens(trace[..|trace| - 1]) + if trace[|trace| - 1].Open? then 1 else 0
  }

  function Closes(trace: seq<Event>): nat {
    if trace == [] then 0 else Closes(trace[..|trace| - 1]) + if trace[|trace| - 1].Close? then 1 else 0
  }

  /** A disciplined trace has as many closes as opens, except for the one that is still open. */
  lemma {:induction false} OpensAndCloses(trace: seq<Event>)
    requires PhaseOf(trace) != Broken
    ensures Opens(trace) == Closes(trace) + if PhaseOf(trace) == Closed then 0 else 1
  {
    if trace != [] { OpensAndCloses(trace[..|trace| - 1]); }
  }

  // ---------- the task ----------

  class Element {
    const hasOpen: bool
    const hasClose: bool
    var state: AelState
    var isOpen: bool
    var isRunning: bool
    var stopping: bool
    var wait: Wait
    var stoppedBit: bool
    var trace: seq<Event>

    ghost function L(): Life
      reads this
    {
      Life(state, isRunning, isOpen)
    }

    /** What is true at each loop head. With an open callback all flags follow from the state; with a close
        callback too, the callbacks are called in order. Without an open callback RUNNING never occurs. */
    ghost predicate Held()
      reads this
    {
      && !state.NONE? && !state.INITIALIZING?
      && (isRunning ==> isOpen && wait == NoWait)
      && (!isRunning && (state == STOPPED || state == FINISHED || state == ERROR) ==> stoppedBit)
      && (if hasOpen then Plain(L()) && (wait == NoWait <==> state == RUNNING) else state != RUNNING)
      && (hasOpen && hasClose ==> PhaseOf(trace) == if state == RUNNING then Opened else Closed)
    }

    constructor (hasOpen: bool, hasClose: bool)
      ensures this.hasOpen == hasOpen && this.hasClose == hasClose
      ensures L() == NEWBORN && Held() && trace == []
    {
      this.hasOpen, this.hasClose := hasOpen, hasClose;
      state, isOpen, isRunning, stopping, wait, stoppedBit, trace := INIT, false, false, false, Forever, false, [];
    }

    method ProcessDeinit()
      modifies `isOpen, `trace
      ensures !isOpen && trace == old(trace) + if old(isOpen) && hasClose then [Close] else []
    {
      if isOpen && hasClose { trace := trace + [Close]; }
      isOpen := false;
    }

    /** The events of closing an element that is open. */
    ghost function Closing(): seq<Event>
      reads this
    {
      if isOpen && hasClose then [Close] else []
    }

    method OnCmdError()
      modifies this
      ensures L() == AfterError(old(L()))
      ensures old(state) == STOPPED ==> trace == old(trace) && wait == old(wait) && stoppedBit == old(stoppedBit)
      ensures old(state) != STOPPED ==> trace == old(trace) + old(Closing()) && wait == Forever && stoppedBit
    {
      if state != STOPPED {
        ProcessDeinit();
        state, wait, isRunning, stoppedBit := ERROR, Forever, false, true;
      }
    }

    method OnCmdStop()
      modifies this
      ensures L() == AfterStop(old(L()))
      ensures old(state) == FINISHED || old(state) == STOPPED ==>
                && trace == old(trace) && wait == old(wait)
                && stoppedBit == (old(stoppedBit) || old(isRunning) || old(state) == FINISHED)
      ensures old(state) != FINISHED && old(state) != STOPPED ==>
                trace == old(trace) + old(Closing()) && wait == Forever && stoppedBit
    {
      if state != FINISHED && state != STOPPED {
        ProcessDeinit();
        state, wait, isRunning, stopping, stoppedBit := STOPPED, Forever, false, false, true;
      } else if !isRunning && state == STOPPED {
        stopping := false;
      } else {
        state, isRunning, stopping, stoppedBit := STOPPED, false, false, true;
      }
    }

    method OnCmdFinish()
      modifies this
      ensures L() == AfterFinish(old(L()))
      ensures old(state) == ERROR || old(state) == STOPPED ==>
                trace == old(trace) && wait == old(wait) && stoppedBit == old(stoppedBit)
      ensures old(state) != ERROR && old(state) != STOPPED ==>
                trace == old(trace) + old(Closing()) && wait == Forever && stoppedBit
    {
      if state == ERROR || state == STOPPED { return; }
      ProcessDeinit();
      state, wait, isRunning, stoppedBit := FINISHED, Forever, false, true;
    }

    /** Opens the element; whether that succeeded is the result. */
    method ProcessInit(openRes: int) returns (ok: bool)
      modifies this
      ensures !hasOpen ==> ok && isOpen && state == old(state) && trace == old(trace) && wait == old(wait)
                           && isRunning == old(isRunning) && stoppedBit == old(stoppedBit)
      ensures hasOpen ==> state == AfterOpen(openRes) && (ok <==> state == RUNNING) && (isOpen <==> ok)
      ensures hasOpen && ok ==> trace == old(trace) + [Open(openRes)] && wait == old(wait)
                                && isRunning == old(isRunning) && stoppedBit == old(stoppedBit)
      ensures hasOpen && !ok ==> trace == old(trace) + [Open(openRes)] + (if hasClose then [Close] else [])
                                 && wait == Forever && !isRunning && stoppedBit
    {
      if !hasOpen {
        isOpen := true;
        return true;
      }
      isOpen := true;
      state := INITIALIZING;
      trace := trace + [Open(openRes)];
      if openRes == AEL_IO_OK || openRes == AEL_IO_DONE {
        state := RUNNING;
        return true;
      } else if openRes == AEL_IO_ABORT {
        OnCmdStop();
      } else {
        state := ERROR;
        OnCmdError();
      }
      return false;
    }

    /** Without an open callback the flags say "running" while the state stays what it was. */
    method OnCmdResume(openRes: int) returns (ok: bool)
      requires Held()
      modifies this
      ensures L() == AfterResume(hasOpen, old(L()), openRes) && Held()
      ensures ok <==> isRunning
      ensures Calls(trace) == old(Calls(trace)) && StaleCalls(trace) == old(StaleCalls(trace))
      ensures DoneFlag(trace) == (old(DoneFlag(trace)) && !ResetsRings(old(L()), Some(Resume)))
    {
      hide PhaseOf, DoneFlag, StaleCalls, Calls;
      if state == RUNNING {
        isRunning := true;
        return true;
      }
      if state != INIT && state != RUNNING && state != PAUSED {
        PhaseSnoc(trace, RingReset);
        trace := trace + [RingReset];
      }
      isRunning := true;
      ghost var before := trace;
      ok := ProcessInit(openRes);
      PhaseSnoc(before, Open(openRes));
      if !ok {
        PhaseSnoc(before + [Open(openRes)], Close);
        assert before + [Open(openRes)] + [] == before + [Open(openRes)];
        PhaseSnoc(trace, RingAbort);
        trace := trace + [RingAbort];
        isRunning := false;
        return false;
      }
      wait := NoWait;
      stoppedBit := false;
    }

    method OnCmdPause()
      modifies this
      ensures state == PAUSED && !isOpen && wait == Forever && !isRunning && stoppedBit == old(stoppedBit)
      ensures trace == old(trace) + if old(isOpen) && hasClose then [Close] else []
    {
      state := PAUSED;
      ProcessDeinit();
      wait, isRunning := Forever, false;
    }

    /** Handles a command; the result tells whether the task has to end, as only "destroy" asks for. */
    method OnCmd(cmd: Option<Cmd>, openRes: int) returns (abort: bool)
      requires Held()
      modifies this
      ensures L() == AfterCmd(hasOpen, old(L()), cmd, openRes)
      ensures abort <==> cmd == Some(Destroy)
      ensures !abort ==> Held()
      ensures abort ==> trace == old(trace)
      ensures Calls(trace) == old(Calls(trace)) && StaleCalls(trace) == old(StaleCalls(trace))
      ensures DoneFlag(trace) == (old(DoneFlag(trace)) && !ResetsRings(old(L()), cmd))
    {
      hide PhaseOf, DoneFlag, StaleCalls, Calls;
      PhaseSnoc(trace, Close);
      assert trace + [] == trace;
      abort := false;
      match cmd {
        case None =>
        case Some(Finish) => OnCmdFinish();
        case Some(Stop) => OnCmdStop();
        case Some(Pause) => OnCmdPause();
        case Some(Resume) =>
          var ok := OnCmdResume(openRes);
          if !ok { stoppedBit := true; }
        case Some(Destroy) =>
          isRunning := false;
          stoppedBit := true;
          abort := true;
        case Some(Unknown) =>
        case Some(Foreign) => stoppedBit := true;
      }
    }

    /** Calls process, if the element is running, and acts on its result. */
    method ProcessRunning(processRes: int)
      requires Held()
      modifies this
      ensures L() == AfterProcess(old(L()), processRes) && Held()
      ensures Calls(trace) == old(Calls(trace)) + if old(Processes(L())) then 1 else 0
      ensures StaleCalls(trace) == old(StaleCalls(trace)) + if old(Processes(L()) && DoneFlag(trace)) then 1 else 0
      ensures DoneFlag(trace) == (old(DoneFlag(trace)) || (old(Processes(L())) && Ends(processRes)))
    {
      hide PhaseOf, DoneFlag, StaleCalls, Calls;
      if Ord(state) < Ord(RUNNING) || !isRunning { return; }
      PhaseSnoc(trace, Process(processRes));
      trace := trace + [Process(processRes)];
      PhaseSnoc(trace, Close);
      assert trace + [] == trace;
      if processRes <= 0 {
        if processRes == AEL_IO_ABORT {
          OnCmdStop();
        } else if processRes == AEL_IO_DONE || processRes == AEL_IO_OK {
          PhaseSnoc(trace, RingDone);
          trace := trace + [RingDone];
          PhaseSnoc(trace, Close);
          assert trace + [] == trace;
          OnCmdFinish();
        } else if processRes == AEL_IO_FAIL || processRes == AEL_PROCESS_FAIL {
          OnCmdError();
        }
      }
    }

    /** audio_element_pause: only an element that is already at rest is changed directly. */
    method CallPause()
      requires Held()
      modifies this
      ensures L() == AfterApi(old(L()), ApiPause) && Held() && trace == old(trace)
    {
      if Ord(state) >= Ord(PAUSED) { state := PAUSED; }
    }

    /** audio_element_stop, apart from the command it sends and the rings it aborts. */
    method CallStop()
      modifies this
      ensures L() == old(L()) && trace == old(trace) && (old(Held()) ==> Held())
    {
      if !isRunning {
        stoppedBit := true;
        return;
      }
      if state == RUNNING { stoppedBit := false; }
      if state == PAUSED { wait := NoWait; }
      if !stopping { stopping := true; }
    }

    method CallAll(apis: seq<Api>)
      requires Held()
      modifies this
      ensures L() == AfterApis(old(L()), apis) && Held() && trace == old(trace)
    {
      hide Held;
      for n := 0 to |apis|
        invariant Held() && L() == AfterApis(old(L()), apis[..n]) && trace == old(trace)
      {
        assert apis[..n + 1][..n] == apis[..n];
        match apis[n] {
          case ApiPause => CallPause();
          case ApiStop => CallStop();
        }
      }
      assert apis[..|apis|] == apis;
    }

    /** One round of the task's loop. */
    method Round(turn: Turn) returns (abort: bool)
      requires Held()
      modifies this
      ensures abort <==> Destroys(turn)
      ensures var l := Commanded(hasOpen, old(L()), turn);
              && L() == (if abort then l else AfterProcess(l, turn.processRes))
              && Calls(trace) == old(Calls(trace)) + if !abort && Processes(l) then 1 else 0
      ensures var l, apis := Commanded(hasOpen, old(L()), turn), AfterApis(old(L()), turn.apis);
              var marked := old(DoneFlag(trace)) && !ResetsRings(apis, turn.cmd);
              && StaleCalls(trace) == old(StaleCalls(trace)) + (if !abort && Processes(l) && marked then 1 else 0)
              && DoneFlag(trace) == (marked || (!abort && Processes(l) && Ends(turn.processRes)))
      ensures !abort ==> Held()
      ensures abort && hasOpen && hasClose ==> PhaseOf(trace) == if isOpen then Opened else Closed
    {
      hide Held, PhaseOf, DoneFlag, StaleCalls, Calls, Processes, AfterProcess, Plain;
      CallAll(turn.apis);
      OpenMeans();
      abort := OnCmd(turn.cmd, turn.openRes);
      if !abort { ProcessRunning(turn.processRes); }
    }

    /** The task, over the given rounds, until a "destroy" ends it: state and flags are those of LifeOf, process
        is called in exactly the rounds it says, and with both callbacks closes equal opens at the end. */
    method Task(turns: seq<Turn>) returns (rounds: nat, ended: bool)
      requires L() == NEWBORN && Held() && trace == []
      modifies this
      ensures rounds <= |turns| && forall i :: 0 <= i < rounds - 1 ==> !Destroys(turns[i])
      ensures ended <==> rounds > 0 && Destroys(turns[rounds - 1])
      ensures Calls(trace) == ProcessCount(hasOpen, turns[..rounds])
      ensures StaleCalls(trace) == StaleCount(hasOpen, turns[..rounds])
      ensures !ended ==> rounds == |turns| && Held() && L() == LifeOf(hasOpen, turns)
      ensures ended ==> !isOpen && stoppedBit
      ensures ended ==> var l := LifeOf(hasOpen, turns[..rounds]);
              state == if l.open && hasClose then STOPPED else l.state
      ensures ended && hasOpen && hasClose ==> PhaseOf(trace) == Closed && Opens(trace) == Closes(trace)
    {
      hide Held, PhaseOf, DoneFlag, StaleCalls, Calls, Processes, Commanded, AfterProcess, Plain;
      ended := false;
      rounds := 0;
      NoCalls();
      while rounds < |turns| && !ended
        invariant rounds <= |turns| && forall i :: 0 <= i < rounds - 1 ==> !Destroys(turns[i])
        invariant ended <==> rounds > 0 && Destroys(turns[rounds - 1])
        invariant L() == LifeOf(hasOpen, turns[..rounds]) && Calls(trace) == ProcessCount(hasOpen, turns[..rounds])
        invariant StaleCalls(trace) == StaleCount(hasOpen, turns[..rounds])
        invariant DoneFlag(trace) == Marked(hasOpen, turns[..rounds])
        invariant !ended ==> Held()
        invariant ended && hasOpen && hasClose ==> PhaseOf(trace) == if isOpen then Opened else Closed
        decreases |turns| - rounds
      {
        var turn := turns[rounds];
        LifeMore(hasOpen, turns, rounds);
        CountMore(hasOpen, turns, rounds);
        StaleMore(hasOpen, turns, rounds);
        ended := Round(turn);
        rounds := rounds + 1;
      }
      assert turns[..|turns|] == turns;
      if ended { Leave(); }
    }

    lemma OpenMeans()
      requires Held()
      ensures hasOpen && hasClose ==> PhaseOf(trace) == if isOpen then Opened else Closed
    {
    }

    /** What follows the loop: an element that is still open is closed. */
    method Leave()
      requires hasOpen && hasClose ==> PhaseOf(trace) == if isOpen then Opened else Closed
      modifies this
      ensures !isOpen && stoppedBit && state == if old(isOpen) && hasClose then STOPPED else old(state)
      ensures hasOpen && hasClose ==> PhaseOf(trace) == Closed && Opens(trace) == Closes(trace)
      ensures Calls(trace) == old(Calls(trace)) && StaleCalls(trace) == old(StaleCalls(trace))
    {
      hide PhaseOf, Opens, Closes, DoneFlag, StaleCalls, Calls;
      PhaseSnoc(trace, Close);
      if isOpen && hasClose {
        trace := trace + [Close];
        state := STOPPED;
      }
      isOpen, stopping, stoppedBit := false, false, true;
      if hasOpen && hasClose { OpensAndCloses(trace); }
    }
  }

  lemma NoCalls()
    ensures Calls([]) == 0 && StaleCalls([]) == 0 && !DoneFlag([])
  {
  }

  lemma LifeMore(hasOpen: bool, turns: seq<Turn>, n: nat)
    requires n < |turns|
    ensures var l := Commanded(hasOpen, LifeOf(hasOpen, turns[..n]), turns[n]);
            LifeOf(hasOpen, turns[..n + 1]) == if Destroys(turns[n]) then l else AfterProcess(l, turns[n].processRes)
  {
    assert turns[..n + 1][..n] == turns[..n];
  }

  lemma CountMore(hasOpen: bool, turns: seq<Turn>, n: nat)
    requires n < |turns|
    ensures ProcessCount(hasOpen, turns[..n + 1]) == ProcessCount(hasOpen, turns[..n]) +
            if ProcessesIn(hasOpen, turns, n) then 1 else 0
  {
    assert turns[..n + 1][..n] == turns[..n];
  }

  lemma StaleMore(hasOpen: bool, turns: seq<Turn>, n: nat)
    requires n < |turns|
    ensures StaleCount(hasOpen, turns[..n + 1]) == StaleCount(hasOpen, turns[..n])
            + if StaleIn(hasOpen, turns, n) then 1 else 0
    ensures Marked(hasOpen, turns[..n + 1]) <==>
            (Marked(hasOpen, turns[..n]) && !ResetsIn(hasOpen, turns, n)) || EndsIn(hasOpen, turns, n)
  {
    assert turns[..n + 1][..n] == turns[..n];
  }
}
