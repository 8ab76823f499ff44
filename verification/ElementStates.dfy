/** The state of an audio element over all rounds, by the command or result that last moved it. Results are the
    numbers that the callbacks return. */
module ElementStates {
  import opened Wrappers
  import opened AudioElement

  predicate NoDestroy(turns: seq<Turn>) {
    forall i :: 0 <= i < |turns| ==> !Destroys(turns[i])
  }

  /** The open callback is called for the command. */
  predicate CallsOpen(hasOpen: bool, l: Life, turn: Turn) {
    hasOpen && turn.cmd == Some(Resume) && l.state != RUNNING
  }

  /** Process is called after the command and returns one of these. */
  predicate Returns(hasOpen: bool, l: Life, turn: Turn, rs: seq<int>) {
    Processes(Commanded(hasOpen, l, turn)) && turn.processRes in rs
  }

  /** A round that starts from `l` leaves the element in state `s` because of something that happened in it. */
  predicate Enters(hasOpen: bool, l: Life, turn: Turn, s: AelState) {
    match s
    case RUNNING =>
      hasOpen && turn.cmd == Some(Resume) && turn.openRes in [0, -2] && turn.processRes !in [0, -1, -2, -3, -5]
    case ERROR =>
      (CallsOpen(hasOpen, l, turn) && turn.openRes !in [0, -2, -3])
      || (Returns(hasOpen, l, turn, [-1, -5]) && Rested(hasOpen, l, turn) != STOPPED)
    case STOPPED =>
      || turn.cmd == Some(Stop) || (CallsOpen(hasOpen, l, turn) && turn.openRes == -3)
      || Returns(hasOpen, l, turn, [-3])
    case FINISHED =>
      || (turn.cmd == Some(Finish) && Called(l, turn) !in [ERROR, STOPPED])
      || (Returns(hasOpen, l, turn, [0, -2]) && Rested(hasOpen, l, turn) !in [ERROR, STOPPED])
    case PAUSED =>
      || turn.cmd == Some(Pause)
      || (ApiPause in turn.apis && l.state !in [INIT, RUNNING] && turn.cmd !in [Some(Finish), Some(Stop)]
          && !CallsOpen(hasOpen, l, turn) && !Returns(hasOpen, l, turn, [0, -1, -2, -3, -5]))
    case _ => false
  }

  /** The state after the calls of the round, and the state after its command as well. */
  function Called(l: Life, turn: Turn): AelState {
    if ApiPause in turn.apis && l.state !in [INIT, RUNNING] then PAUSED else l.state
  }

  function Rested(hasOpen: bool, l: Life, turn: Turn): AelState {
    Commanded(hasOpen, l, turn).state
  }

  /** A round leaves an element in state `s` where it is. */
  predicate Keeps(hasOpen: bool, l: Life, turn: Turn, s: AelState) {
    match s
    case INIT => turn.cmd !in [Some(Finish), Some(Stop), Some(Pause)] && !CallsOpen(hasOpen, l, turn)
    case RUNNING =>
      turn.cmd !in [Some(Finish), Some(Stop), Some(Pause)] && turn.processRes !in [0, -1, -2, -3, -5]
    case ERROR =>
      && turn.cmd !in [Some(Stop), Some(Pause)] && ApiPause !in turn.apis && !CallsOpen(hasOpen, l, turn)
      && !Returns(hasOpen, l, turn, [-3])
    case STOPPED => turn.cmd != Some(Pause) && ApiPause !in turn.apis && !CallsOpen(hasOpen, l, turn)
    case FINISHED =>
      && turn.cmd !in [Some(Stop), Some(Pause)] && ApiPause !in turn.apis && !CallsOpen(hasOpen, l, turn)
      && !Returns(hasOpen, l, turn, [-1, -3, -5])
    case PAUSED =>
      && turn.cmd !in [Some(Finish), Some(Stop)] && !CallsOpen(hasOpen, l, turn)
      && !Returns(hasOpen, l, turn, [0, -1, -2, -3, -5])
    case _ => false
  }

  predicate Sane(hasOpen: bool, l: Life) {
    if hasOpen then Plain(l) else InitOrLater(l)
  }

  lemma LifeIsSane(hasOpen: bool, turns: seq<Turn>)
    requires NoDestroy(turns)
    ensures Sane(hasOpen, LifeOf(hasOpen, turns))
  {
    if hasOpen { LifeIsPlain(turns); } else { StillInit(turns); }
    hide LifeOf;
  }

  lemma {:induction false} ApisPause(l: Life, apis: seq<Api>)
    ensures AfterApis(l, apis) == if ApiPause in apis && Ord(l.state) >= Ord(PAUSED) then l.(state := PAUSED) else l
  {
    if apis != [] {
      var n := |apis| - 1;
      ApisPause(l, apis[..n]);
      assert apis == apis[..n] + [apis[n]];
    }
  }

  /** One round. */
  lemma Moved(hasOpen: bool, l: Life, turn: Turn, s: AelState)
    requires !Destroys(turn) && Sane(hasOpen, l) && s != NONE && s != INITIALIZING
    ensures AfterProcess(Commanded(hasOpen, l, turn), turn.processRes).state == s <==>
            Enters(hasOpen, l, turn, s) || (l.state == s && Keeps(hasOpen, l, turn, s))
  {
    match s
    case INIT => MovedInit(hasOpen, l, turn);
    case RUNNING => MovedRunning(hasOpen, l, turn);
    case PAUSED => MovedPaused(hasOpen, l, turn);
    case STOPPED => MovedStopped(hasOpen, l, turn);
    case FINISHED => MovedFinished(hasOpen, l, turn);
    case ERROR => MovedError(hasOpen, l, turn);
  }

  lemma MovedInit(hasOpen: bool, l: Life, turn: Turn)
    requires !Destroys(turn) && Sane(hasOpen, l)
    ensures AfterProcess(Commanded(hasOpen, l, turn), turn.processRes).state == INIT <==>
            Enters(hasOpen, l, turn, INIT) || (l.state == INIT && Keeps(hasOpen, l, turn, INIT))
  {
    hide AfterApis;
    ApisPause(l, turn.apis);
  }

  lemma MovedRunning(hasOpen: bool, l: Life, turn: Turn)
    requires !Destroys(turn) && Sane(hasOpen, l)
    ensures AfterProcess(Commanded(hasOpen, l, turn), turn.processRes).state == RUNNING <==>
            Enters(hasOpen, l, turn, RUNNING) || (l.state == RUNNING && Keeps(hasOpen, l, turn, RUNNING))
  {
    hide AfterApis;
    ApisPause(l, turn.apis);
  }

  lemma MovedPaused(hasOpen: bool, l: Life, turn: Turn)
    requires !Destroys(turn) && Sane(hasOpen, l)
    ensures AfterProcess(Commanded(hasOpen, l, turn), turn.processRes).state == PAUSED <==>
            Enters(hasOpen, l, turn, PAUSED) || (l.state == PAUSED && Keeps(hasOpen, l, turn, PAUSED))
  {
    hide AfterApis;
    ApisPause(l, turn.apis);
  }

  lemma MovedStopped(hasOpen: bool, l: Life, turn: Turn)
    requires !Destroys(turn) && Sane(hasOpen, l)
    ensures AfterProcess(Commanded(hasOpen, l, turn), turn.processRes).state == STOPPED <==>
            Enters(hasOpen, l, turn, STOPPED) || (l.state == STOPPED && Keeps(hasOpen, l, turn, STOPPED))
  {
    hide AfterApis;
    ApisPause(l, turn.apis);
  }

  lemma MovedFinished(hasOpen: bool, l: Life, turn: Turn)
    requires !Destroys(turn) && Sane(hasOpen, l)
    ensures AfterProcess(Commanded(hasOpen, l, turn), turn.processRes).state == FINISHED <==>
            Enters(hasOpen, l, turn, FINISHED) || (l.state == FINISHED && Keeps(hasOpen, l, turn, FINISHED))
  {
    hide AfterApis;
    ApisPause(l, turn.apis);
  }

  lemma MovedError(hasOpen: bool, l: Life, turn: Turn)
    requires !Destroys(turn) && Sane(hasOpen, l)
    ensures AfterProcess(Commanded(hasOpen, l, turn), turn.processRes).state == ERROR <==>
            Enters(hasOpen, l, turn, ERROR) || (l.state == ERROR && Keeps(hasOpen, l, turn, ERROR))
  {
    hide AfterApis;
    ApisPause(l, turn.apis);
  }

  // ---------- over all rounds ----------

  predicate EntersAt(hasOpen: bool, turns: seq<Turn>, i: nat, s: AelState) {
    i < |turns| && Enters(hasOpen, LifeOf(hasOpen, turns[..i]), turns[i], s)
  }

  predicate KeepsAt(hasOpen: bool, turns: seq<Turn>, i: nat, s: AelState) {
    i < |turns| && Keeps(hasOpen, LifeOf(hasOpen, turns[..i]), turns[i], s)
  }

  /** Round `i` moved the element to the state, and no round since has moved it away. */
  predicate MovedLast(hasOpen: bool, turns: seq<Turn>, i: nat, s: AelState) {
    EntersAt(hasOpen, turns, i, s) && forall j :: i < j < |turns| ==> KeepsAt(hasOpen, turns, j, s)
  }

  predicate NeverMoved(hasOpen: bool, turns: seq<Turn>) {
    forall j :: 0 <= j < |turns| ==> KeepsAt(hasOpen, turns, j, INIT)
  }

  lemma SameRounds(hasOpen: bool, turns: seq<Turn>, s: AelState)
    requires turns != []
    ensures var n := |turns| - 1;
            forall i :: 0 <= i < n ==>
              && (EntersAt(hasOpen, turns[..n], i, s) <==> EntersAt(hasOpen, turns, i, s))
              && (KeepsAt(hasOpen, turns[..n], i, s) <==> KeepsAt(hasOpen, turns, i, s))
  {
    hide LifeOf, Enters, Keeps;
    var n := |turns| - 1;
    forall i | 0 <= i < n ensures turns[..n][..i] == turns[..i] && turns[..n][i] == turns[i] {
    }
  }

  /** An element is new as long as nothing has moved it, and is otherwise in the state that some round moved it to
      and from which no later round moved it away. */
  lemma {:induction false} StateExactly(hasOpen: bool, turns: seq<Turn>, s: AelState)
    requires NoDestroy(turns) && s != NONE && s != INITIALIZING
    ensures s == INIT ==> (LifeOf(hasOpen, turns).state == s <==> NeverMoved(hasOpen, turns))
    ensures s != INIT ==> (LifeOf(hasOpen, turns).state == s <==> exists i: nat :: MovedLast(hasOpen, turns, i, s))
  {
    if turns != [] {
      var n := |turns| - 1;
      var init := turns[..n];
      StateExactly(hasOpen, init, s);
      LifeIsSane(hasOpen, init);
      assert !Destroys(turns[n]);
      Moved(hasOpen, LifeOf(hasOpen, init), turns[n], s);
      SameRounds(hasOpen, turns, s);
      LifeMore(hasOpen, turns, n);
      assert turns[..n + 1] == turns;
      OneMoreRound(hasOpen, turns, s);
      hide LifeOf, Enters, Keeps, EntersAt, KeepsAt, MovedLast, NeverMoved, AfterProcess, Commanded;
    }
  }

  lemma OneMoreRound(hasOpen: bool, turns: seq<Turn>, s: AelState)
    requires turns != []
    ensures var n := |turns| - 1;
            && (NeverMoved(hasOpen, turns) <==> NeverMoved(hasOpen, turns[..n]) && KeepsAt(hasOpen, turns, n, INIT))
            && ((exists i: nat :: MovedLast(hasOpen, turns, i, s)) <==>
                EntersAt(hasOpen, turns, n, s)
                || ((exists i: nat :: MovedLast(hasOpen, turns[..n], i, s)) && KeepsAt(hasOpen, turns, n, s)))
            && EntersAt(hasOpen, turns, n, s) == Enters(hasOpen, LifeOf(hasOpen, turns[..n]), turns[n], s)
            && KeepsAt(hasOpen, turns, n, s) == Keeps(hasOpen, LifeOf(hasOpen, turns[..n]), turns[n], s)
  {
    var n := |turns| - 1;
    SameRounds(hasOpen, turns, s);
    SameRounds(hasOpen, turns, INIT);
    assert EntersAt(hasOpen, turns, n, s) == Enters(hasOpen, LifeOf(hasOpen, turns[..n]), turns[n], s);
    assert KeepsAt(hasOpen, turns, n, s) == Keeps(hasOpen, LifeOf(hasOpen, turns[..n]), turns[n], s);
    hide LifeOf, Enters, Keeps, EntersAt, KeepsAt;
    if i: nat :| MovedLast(hasOpen, turns[..n], i, s) && KeepsAt(hasOpen, turns, n, s) {
      BeforeLast(hasOpen, turns, i, s);
    }
    if i: nat :| MovedLast(hasOpen, turns, i, s) { WithoutLast(hasOpen, turns, i, s); }
    if EntersAt(hasOpen, turns, n, s) { assert MovedLast(hasOpen, turns, n, s); }
  }

  lemma BeforeLast(hasOpen: bool, turns: seq<Turn>, i: nat, s: AelState)
    requires turns != [] && MovedLast(hasOpen, turns[..|turns| - 1], i, s)
    requires KeepsAt(hasOpen, turns, |turns| - 1, s)
    ensures MovedLast(hasOpen, turns, i, s)
  {
    SameRounds(hasOpen, turns, s);
    assert i < |turns| - 1;
    hide LifeOf, Enters, Keeps;
  }

  lemma WithoutLast(hasOpen: bool, turns: seq<Turn>, i: nat, s: AelState)
    requires turns != [] && MovedLast(hasOpen, turns, i, s)
    ensures var n := |turns| - 1;
            if i == n then EntersAt(hasOpen, turns, n, s)
            else MovedLast(hasOpen, turns[..n], i, s) && KeepsAt(hasOpen, turns, n, s)
  {
    SameRounds(hasOpen, turns, s);
    hide LifeOf, Enters, Keeps;
  }

  /** An element with an open callback runs if and only if some "resume" was answered by AEL_IO_OK or AEL_IO_DONE,
      and since then there was no "finish", "stop" or "pause" and no result of process among AEL_IO_OK,
      AEL_IO_FAIL, AEL_IO_DONE, AEL_IO_ABORT and AEL_PROCESS_FAIL. */
  lemma RunsExactly(turns: seq<Turn>)
    requires NoDestroy(turns)
    ensures var l := LifeOf(true, turns);
            (l.running && l.open <==> exists i: nat :: RunsSince(turns, i)) && (l.running <==> l.state == RUNNING)
  {
    LifeIsPlain(turns);
    StateExactly(true, turns, RUNNING);
    hide LifeOf, Plain;
    if i: nat :| MovedLast(true, turns, i, RUNNING) {
      forall j | i <= j < |turns| ensures GoesOn(turns[j]) {
        if j > i { assert KeepsAt(true, turns, j, RUNNING); }
      }
      assert RunsSince(turns, i);
    }
    if i: nat :| RunsSince(turns, i) {
      assert GoesOn(turns[i]);
      assert MovedLast(true, turns, i, RUNNING);
    }
  }

  predicate RunsSince(turns: seq<Turn>, i: nat) {
    && i < |turns| && turns[i].cmd == Some(Resume) && turns[i].openRes in [0, -2]
    && forall j :: i <= j < |turns| ==> GoesOn(turns[j])
  }

  predicate GoesOn(turn: Turn) {
    turn.cmd !in [Some(Finish), Some(Stop), Some(Pause)] && turn.processRes !in [0, -1, -2, -3, -5]
  }

  // ---------- without an open callback ----------

  /** An element without an open callback that is stopped and then resumed processes in every round from then on,
      whatever process returns, unless it is told to abort: finishing and failing are ignored while stopped. */
  lemma {:induction false} NeverEnds(turns: seq<Turn>, n: nat)
    requires 0 < n < |turns| && turns[0].cmd == Some(Stop) && turns[1].cmd == Some(Resume)
    requires forall i :: 0 <= i < |turns| ==> turns[i].apis == [] && turns[i].processRes != -3
    requires forall i :: 2 <= i < |turns| ==> turns[i].cmd == None
    ensures ProcessesIn(false, turns, n) && LifeOf(false, turns[..n + 1]) == Life(STOPPED, true, true)
  {
    LifeMore(false, turns, n);
    if n == 1 {
      LifeMore(false, turns, 0);
      assert turns[..0] == [];
    } else {
      NeverEnds(turns, n - 1);
    }
    hide LifeOf;
  }
}
