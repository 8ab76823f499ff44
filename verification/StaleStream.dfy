/** When an element with an open callback produces data although its output rings are still marked done from
    the end of an earlier stream, so that a reader takes the first moment without data for the end. */
module StaleStream {
  import opened Wrappers
  import opened AudioElement
  import opened ElementStates

  /** The command brings the element to another state than PAUSED. */
  predicate Moves(turn: Turn) {
    turn.cmd == Some(Finish) || turn.cmd == Some(Stop) || turn.cmd == Some(Resume)
  }

  /** In round `p` there is a "pause", as a command or as a call, and none of these commands since. */
  predicate PausesSince(turns: seq<Turn>, p: nat, n: nat) {
    && p < n <= |turns| && (turns[p].cmd == Some(Pause) || ApiPause in turns[p].apis)
    && forall q :: p <= q < n ==> !Moves(turns[q])
  }

  ghost predicate PausedBefore(turns: seq<Turn>, i: nat, n: nat) {
    exists p: nat :: i < p && PausesSince(turns, p, n)
  }

  /** After round `i` and before the command of round `n`. */
  ghost predicate PausedBetween(turns: seq<Turn>, i: nat, n: nat)
    requires n < |turns|
  {
    ApiPause in turns[n].apis || PausedBefore(turns, i, n)
  }

  /** A "resume" whose open callback reports success. */
  predicate Opened(turn: Turn) {
    turn.cmd == Some(Resume) && turn.openRes in [0, -2]
  }

  /** Process is called in round `n` and reports the end of the stream. */
  predicate Ended(turns: seq<Turn>, n: nat)
    requires n < |turns|
  {
    ProcessesIn(true, turns, n) && turns[n].processRes in [0, -2]
  }

  /** The stream ends in round `i`, and the element does not run until round `n`. */
  predicate AtRestSince(turns: seq<Turn>, i: nat, n: nat) {
    i < n <= |turns| && Ended(turns, i) && forall q :: i < q < n ==> !Opened(turns[q])
  }

  /** The stream ends in round `i`, the next "resume" that opens the element is in round `j`, and each "resume" up
      to there, successful or not, comes after a "pause" that neither "stop", "finish" nor "resume" follows. */
  ghost predicate ResumedPaused(turns: seq<Turn>, i: nat, j: nat) {
    && i < j < |turns| && AtRestSince(turns, i, j) && Opened(turns[j])
    && forall k :: i < k <= j && turns[k].cmd == Some(Resume) ==> PausedBetween(turns, i, k)
  }

  // ---------- at rest after the end of a stream ----------

  lemma EndOfRound(turns: seq<Turn>, i: nat)
    requires i < |turns| && Ended(turns, i) && Plain(LifeOf(true, turns[..i]))
    ensures LifeOf(true, turns[..i + 1]) == Life(FINISHED, false, false)
  {
    LifeMore(true, turns, i);
    ApisKeepPlain(LifeOf(true, turns[..i]), turns[i].apis);
    hide LifeOf, AfterApis;
  }

  /** The state at the head of round `n`, and whether it is PAUSED. */
  lemma {:induction false} RestState(turns: seq<Turn>, i: nat, n: nat)
    requires NoDestroy(turns) && AtRestSince(turns, i, n)
    ensures var l := LifeOf(true, turns[..n]);
            && Ord(l.state) >= Ord(PAUSED) && !l.running
            && (l.state == PAUSED <==> PausedBefore(turns, i, n))
    decreases n
  {
    if n == i + 1 {
      LifeIsPlain(turns[..i]);
      EndOfRound(turns, i);
      assert forall p: nat :: i < p ==> !PausesSince(turns, p, n);
    } else {
      var k := n - 1;
      RestState(turns, i, k);
      RestStep(LifeOf(true, turns[..k]), turns[k]);
      LifeMore(true, turns, k);
      PausesMore(turns, i, k);
      hide LifeOf, Commanded, AfterProcess, PausedBefore;
    }
  }

  lemma RestStep(l: Life, turn: Turn)
    requires Ord(l.state) >= Ord(PAUSED) && !l.running && !Opened(turn) && !Destroys(turn)
    ensures var l' := AfterProcess(Commanded(true, l, turn), turn.processRes);
            && Ord(l'.state) >= Ord(PAUSED) && !l'.running && !Processes(Commanded(true, l, turn))
            && (l'.state == PAUSED <==>
                !Moves(turn) && (l.state == PAUSED || turn.cmd == Some(Pause) || ApiPause in turn.apis))
  {
    ApisPause(l, turn.apis);
    hide AfterApis;
  }

  lemma PausesMore(turns: seq<Turn>, i: nat, k: nat)
    requires i < k < |turns|
    ensures PausedBefore(turns, i, k + 1) <==>
            !Moves(turns[k])
            && (PausedBefore(turns, i, k) || turns[k].cmd == Some(Pause) || ApiPause in turns[k].apis)
  {
    var n := k + 1;
    if p: nat :| i < p && PausesSince(turns, p, n) {
      assert !Moves(turns[k]);
      if p < k { assert PausesSince(turns, p, k); }
    }
    if !Moves(turns[k]) {
      if p: nat :| i < p && PausesSince(turns, p, k) { assert PausesSince(turns, p, n); }
      if turns[k].cmd == Some(Pause) || ApiPause in turns[k].apis { assert PausesSince(turns, k, n); }
    }
  }

  /** A round at rest: process is not called, and a "resume" resets the rings unless a "pause" came between. */
  lemma RestRound(turns: seq<Turn>, i: nat, n: nat)
    requires NoDestroy(turns) && AtRestSince(turns, i, n) && n < |turns|
    ensures ResetsIn(true, turns, n) <==> turns[n].cmd == Some(Resume) && !PausedBetween(turns, i, n)
    ensures ProcessesIn(true, turns, n) <==> Opened(turns[n])
  {
    RestState(turns, i, n);
    var l := LifeOf(true, turns[..n]);
    ApisPause(l, turns[n].apis);
    assert !Destroys(turns[n]);
    hide LifeOf, AfterApis, PausesSince, AtRestSince, NoDestroy;
  }

  // ---------- the mark ----------

  lemma MarkedMore(turns: seq<Turn>, n: nat)
    requires n < |turns|
    ensures Marked(true, turns[..n + 1]) <==>
            (Marked(true, turns[..n]) && !ResetsIn(true, turns, n)) || Ended(turns, n)
  {
    StaleMore(true, turns, n);
  }

  /** The mark stays as long as every "resume" finds the element paused. */
  lemma {:induction false} StillMarked(turns: seq<Turn>, i: nat, n: nat)
    requires NoDestroy(turns) && AtRestSince(turns, i, n)
    requires forall k :: i < k < n && turns[k].cmd == Some(Resume) ==> PausedBetween(turns, i, k)
    ensures Marked(true, turns[..n])
    decreases n
  {
    MarkedMore(turns, n - 1);
    if n > i + 1 {
      StillMarked(turns, i, n - 1);
      RestRound(turns, i, n - 1);
    }
    hide Marked;
  }

  predicate UnresetSince(turns: seq<Turn>, i: nat, n: nat) {
    i < n <= |turns| && Ended(turns, i) && forall k :: i < k < n ==> !ResetsIn(true, turns, k)
  }

  /** A mark comes from the end of a stream that no reset followed. */
  lemma {:induction false} WhyMarked(turns: seq<Turn>, n: nat)
    requires n <= |turns|
    ensures Marked(true, turns[..n]) ==> exists i: nat :: UnresetSince(turns, i, n)
    decreases n
  {
    hide Ended, ResetsIn;
    if n > 0 && Marked(true, turns[..n]) {
      MarkedMore(turns, n - 1);
      if Ended(turns, n - 1) {
        assert UnresetSince(turns, n - 1, n);
      } else {
        WhyMarked(turns, n - 1);
        var i: nat :| UnresetSince(turns, i, n - 1);
        assert UnresetSince(turns, i, n);
      }
    }
  }

  /** The first "resume" that opens the element after round `i`. */
  lemma {:induction false} FirstStart(turns: seq<Turn>, i: nat, n: nat) returns (j: nat)
    requires i < n <= |turns| && Ended(turns, i)
    requires exists q :: i < q < n && Opened(turns[q])
    ensures j < n && Opened(turns[j]) && AtRestSince(turns, i, j)
    decreases n
  {
    hide Ended, Opened;
    if q :| i < q < n - 1 && Opened(turns[q]) {
      j := FirstStart(turns, i, n - 1);
    } else {
      j := n - 1;
    }
  }

  /** An element processes while its rings are marked done if and only if, after the end of a stream, it is
      resumed from a "pause". */
  lemma StaleExactly(turns: seq<Turn>)
    requires NoDestroy(turns)
    ensures (exists n: nat :: n < |turns| && StaleIn(true, turns, n)) <==>
            exists i: nat, j: nat :: ResumedPaused(turns, i, j)
  {
    if n: nat :| n < |turns| && StaleIn(true, turns, n) {
      StaleComesFromPause(turns, n);
    }
    if i: nat, j: nat :| ResumedPaused(turns, i, j) {
      PausedAndResumed(turns, i, j);
    }
  }

  lemma StaleComesFromPause(turns: seq<Turn>, n: nat)
    requires NoDestroy(turns) && n < |turns| && StaleIn(true, turns, n)
    ensures exists i: nat, j: nat :: ResumedPaused(turns, i, j)
  {
    hide Ended, ResetsIn, Opened, ProcessesIn, Marked, PausedBetween, ResumedPaused, NoDestroy, AtRestSince;
    WhyMarked(turns, n);
    var i: nat :| UnresetSince(turns, i, n);
    SomeOpening(turns, i, n);
    var j := FirstStart(turns, i, n + 1);
    UnresetResumes(turns, i, j, n);
  }

  lemma SomeOpening(turns: seq<Turn>, i: nat, n: nat)
    requires NoDestroy(turns) && n < |turns| && UnresetSince(turns, i, n) && ProcessesIn(true, turns, n)
    ensures exists q :: i < q < n + 1 && Opened(turns[q])
  {
    hide Ended, ResetsIn, Opened, ProcessesIn, Marked, PausedBetween, NoDestroy;
    if forall q :: i < q <= n ==> !Opened(turns[q]) { RestRound(turns, i, n); }
  }

  lemma UnresetResumes(turns: seq<Turn>, i: nat, j: nat, n: nat)
    requires NoDestroy(turns) && j <= n < |turns| && UnresetSince(turns, i, n) && !ResetsIn(true, turns, n)
    requires Opened(turns[j]) && AtRestSince(turns, i, j)
    ensures ResumedPaused(turns, i, j)
  {
    hide Ended, ResetsIn, Opened, ProcessesIn, Marked, PausedBetween, NoDestroy;
    forall k | i < k <= j && turns[k].cmd == Some(Resume) ensures PausedBetween(turns, i, k) {
      RestRound(turns, i, k);
    }
  }

  /** Paused after it had finished, and resumed. */
  lemma FinishedPausedResumed()
    ensures var resume := Turn([], Some(Resume), AEL_IO_OK, 1); var end := Turn([], None, 0, AEL_IO_DONE);
            var turns := [resume, end, Turn([ApiPause], None, 0, 0), resume];
            NoDestroy(turns) && StaleIn(true, turns, 3)
  {
    var resume, end := Turn([], Some(Resume), AEL_IO_OK, 1), Turn([], None, 0, AEL_IO_DONE);
    var turns := [resume, end, Turn([ApiPause], None, 0, 0), resume];
    LifeMore(true, turns, 0);
    assert turns[..0] == [] && LifeOf(true, turns[..1]) == Life(RUNNING, true, true);
    assert Ended(turns, 1);
    assert PausesSince(turns, 2, 3);
    hide Ended, LifeOf, StaleIn, Marked;
    forall i | 0 <= i < |turns| ensures !Destroys(turns[i]) { }
    PausedAndResumed(turns, 1, 3);
  }

  lemma PausedAndResumed(turns: seq<Turn>, i: nat, j: nat)
    requires NoDestroy(turns) && ResumedPaused(turns, i, j)
    ensures StaleIn(true, turns, j)
  {
    StillMarked(turns, i, j);
    RestRound(turns, i, j);
  }
}
