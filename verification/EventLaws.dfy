/** What the operations of the event interface leave in every single queue and set, and what its callers are
    told over a run. */
module EventLaws {
  import opened Wrappers
  import opened Queues
  import opened ListenerSet
  import opened EventIface
  import opened ListenerRuns

  /** Discarding empties a queue of the interface, unless its size is given as 0. */
  predicate Discards(own: Option<QId>, size: nat, q: QId) {
    own == Some(q) && size != 0
  }

  /** Cleaning up deletes the listener's set and no other, takes the listed queues out of it, and empties them and
      the interface's own queues. Every other queue stays as it is. */
  lemma CleanedLaw(me: Iface, q: QId)
    requires me.Ready() && q in me.kernel.os.queues
    ensures var was, now := me.kernel.os, me.CleanedUp();
            var listed := me.queueSet.Some? && Lists(me.Items(), q);
            var own := Discards(me.externalQueue, me.externalSize, q) || Discards(me.internalQueue, me.internalSize, q);
            && q in now.queues && now.queues[q].size == was.queues[q].size
            && now.queues[q].home == (if listed then None else was.queues[q].home)
            && now.queues[q].msgs == (if listed || own then [] else was.queues[q].msgs)
            && now.queues.Keys == was.queues.Keys
            && (forall t :: t in now.sets <==> t in was.sets && Some(t) != me.queueSet)
            && (forall t <- now.sets :: now.sets[t] == was.sets[t])
  {
    hide Iface.Ready, Lists;
  }

  /** A listener that is built up has a new set with the listed queues in it, all empty; every other queue and set
      stays as it is. */
  lemma BuiltLaw(os: OS, items: seq<Item>, q: QId)
    requires items != [] && q in os.queues
    ensures var now := BuiltUp(os, items);
            && q in now.queues
            && now.queues[q] ==
               (if Lists(items, q) then Queue(os.queues[q].size, [], Some(os.nextSet)) else os.queues[q])
            && os.nextSet in now.sets && now.sets[os.nextSet].handles == []
            && forall t :: t != os.nextSet ==>
                 (t in now.sets <==> t in os.sets) && (t in os.sets ==> now.sets[t] == os.sets[t])
  {
    assert items[..|items|] == items;
    hide Lists, TotalSize;
  }

  /** The set has room for as many handles as the sizes add up to. */
  lemma RoomLaw(os: OS, items: seq<Item>, more: seq<Item>)
    requires items + more != []
    ensures BuiltUp(os, items + more).sets[os.nextSet].capacity == TotalSize(items) + TotalSize(more)
    ensures |items| == 1 ==> TotalSize(items) == items[0].size
  {
    TotalSizeConcat(items, more);
    if |items| == 1 { assert items[..0] == []; }
  }

  lemma {:induction false} TotalSizeConcat(xs: seq<Item>, ys: seq<Item>)
    ensures TotalSize(xs + ys) == TotalSize(xs) + TotalSize(ys)
  {
    if ys == [] {
      assert xs + ys == xs;
    } else {
      var n := |ys| - 1;
      assert (xs + ys)[..|xs| + n] == xs + ys[..n];
      TotalSizeConcat(xs, ys[..n]);
    }
  }

  /** A message is put last into the queue if it has room, and is refused otherwise; without a queue it is dropped
      and success is reported. */
  lemma PostedLaw(os: OS, q: Option<QId>, m: Msg)
    requires q.Some? ==> q.value in os.queues
    ensures var (now, err) := Posted(os, q, m);
            && (err == OK || err == FAIL)
            && (err == FAIL <==> q.Some? && |os.queues[q.value].msgs| >= os.queues[q.value].size)
            && (err == FAIL || q.None? ==> now == os)
            && (err == OK && q.Some? ==>
                  && MsgsOf(now, q.value) == MsgsOf(os, q.value) + [m]
                  && forall p :: p != q.value ==> MsgsOf(now, p) == MsgsOf(os, p))
  {
  }

  // ---------- what readers are told ----------

  function MsgsRead(answers: seq<Answer>): seq<Msg> {
    if answers == [] then []
    else (if answers[0].Got? && answers[0].m.Some? then [answers[0].m.value] else []) + MsgsRead(answers[1..])
  }

  function Msgs(ms: seq<(QId, Msg)>): seq<Msg> {
    seq(|ms|, i requires 0 <= i < |ms| => ms[i].1)
  }

  lemma MsgsConcat(xs: seq<(QId, Msg)>, ys: seq<(QId, Msg)>)
    ensures Msgs(xs + ys) == Msgs(xs) + Msgs(ys)
  {
  }

  /** While only messages are sent and read, what the reads return, followed by what still waits, is what waited at
      first followed by what was accepted. */
  lemma ReadsInOrder(l: Listener, ops: seq<Op>)
    requires forall op <- ops :: Sends(op) || op.Read?
    ensures MsgsRead(Expected(l, ops)) + Msgs(AfterAll(l, ops).waiting) ==
            Msgs(l.waiting) + Msgs(ListenerRuns.Accepted(l, ops))
  {
    FirstInFirstOut(l, ops);
    ReadsDelivered(l, ops);
    MsgsConcat(l.waiting, ListenerRuns.Accepted(l, ops));
    MsgsConcat(Delivered(l, ops), AfterAll(l, ops).waiting);
    hide *;
  }

  lemma {:induction false} ReadsDelivered(l: Listener, ops: seq<Op>)
    requires forall op <- ops :: Sends(op) || op.Read?
    ensures MsgsRead(Expected(l, ops)) == Msgs(Delivered(l, ops))
    decreases ops
  {
    hide After, Delivering, Msgs;
    if ops != [] {
      assert ops[0] in ops;
      var l' := After(l, ops[0]).0;
      ReadsDelivered(l', ops[1..]);
      MsgsConcat(Delivering(l, ops[0]), Delivered(l', ops[1..]));
      OneAnswer(l, ops[0]);
      assert Expected(l, ops)[1..] == Expected(l', ops[1..]);
    } else {
      NoMsgs();
    }
  }

  lemma NoMsgs()
    ensures Msgs([]) == []
  {
  }

  /** A read returns nothing only when nothing waits, and a message is refused only when its queue has no room. */
  lemma OneAnswer(l: Listener, op: Op)
    requires Sends(op) || op.Read?
    ensures var answer := After(l, op).1;
            && Msgs(Delivering(l, op)) == (if answer.Got? && answer.m.Some? then [answer.m.value] else [])
            && (answer == Got(None) <==> op.Read? && l.waiting == [])
            && (answer == Done(OK) <==> Sends(op) && (SendsTo(op).None? || Accepting(l, op) != []))
            && (answer == Done(FAIL) <==>
                Sends(op) && SendsTo(op).Some? && Lists(l.items, SendsTo(op).value) && !HasRoom(l, SendsTo(op).value))
  {
    hide Lists, HasRoom;
  }
}
