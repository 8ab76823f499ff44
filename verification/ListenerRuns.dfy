/** Whole runs of a listener: over any sequence of starting and ending to listen, sending and reading, it is
    one queue of messages in the order of sending, together with the list of queues it listens to. */
module ListenerRuns {
  import opened Wrappers
  import opened Queues
  import opened ListenerSet
  import opened EventIface
  import opened Stailq

  // ---------- what waits in a set ----------

  /** The messages that reading the set delivers, with the queues they are in. */
  ghost function Waiting(os: OS, t: SetId): seq<(QId, Msg)>
    decreases |HandlesOf(os, t)|
  {
    if HandlesOf(os, t) == [] then []
    else
      ReadSetEffect(os, t);
      var q := HandlesOf(os, t)[0];
      (if MsgsOf(os, q) == [] then [] else [(q, MsgsOf(os, q)[0])]) + Waiting(ReadSet(os, t).0, t)
  }

  function Ids(ms: seq<(QId, Msg)>): seq<QId> {
    if ms == [] then [] else [ms[0].0] + Ids(ms[1..])
  }

  /** Every pending handle stands for a message. */
  lemma HandleHasMessage(os: OS, t: SetId, items: seq<Item>)
    requires Exact(os, t, items) && HandlesOf(os, t) != []
    ensures Lists(items, HandlesOf(os, t)[0]) && MsgsOf(os, HandlesOf(os, t)[0]) != []
  {
    var handles := HandlesOf(os, t);
    assert Lists(items, handles[0]);
    var i :| 0 <= i < |items| && items[i].queue == handles[0];
    assert Pending(handles, items[i].queue) == |MsgsOf(os, items[i].queue)|;
  }

  lemma ReadTakesFirst(os: OS, t: SetId, items: seq<Item>)
    requires Exact(os, t, items)
    ensures ReadSet(os, t).1 == if Waiting(os, t) == [] then None else Some(Waiting(os, t)[0].1)
    ensures Waiting(ReadSet(os, t).0, t) == if Waiting(os, t) == [] then [] else Waiting(os, t)[1..]
  {
    hide Exact;
    if HandlesOf(os, t) != [] { HandleHasMessage(os, t, items); }
  }

  lemma {:induction false} IdsAreHandles(os: OS, t: SetId, items: seq<Item>)
    requires Exact(os, t, items)
    ensures Ids(Waiting(os, t)) == HandlesOf(os, t)
    decreases |HandlesOf(os, t)|
  {
    hide Exact, ReadSet;
    if HandlesOf(os, t) != [] {
      HandleHasMessage(os, t, items);
      ReadSetEffect(os, t);
      ReadKeepsExact(os, t, items);
      IdsAreHandles(ReadSet(os, t).0, t, items);
      assert Waiting(os, t)[1..] == Waiting(ReadSet(os, t).0, t);
    }
  }

  /** As many messages of a listed queue wait as are in it. */
  lemma CountWaiting(os: OS, t: SetId, items: seq<Item>, q: QId)
    requires Exact(os, t, items) && Lists(items, q)
    ensures Pending(Ids(Waiting(os, t)), q) == |MsgsOf(os, q)|
  {
    IdsAreHandles(os, t, items);
    var i :| 0 <= i < |items| && items[i].queue == q;
    assert Pending(HandlesOf(os, t), items[i].queue) == |MsgsOf(os, items[i].queue)|;
  }

  /** Only the handles and the queues they stand for matter. */
  lemma {:induction false} WaitingFrame(os: OS, os': OS, t: SetId)
    requires HandlesOf(os, t) == HandlesOf(os', t)
    requires forall q <- HandlesOf(os, t) :: MsgsOf(os, q) == MsgsOf(os', q)
    ensures Waiting(os, t) == Waiting(os', t)
    decreases |HandlesOf(os, t)|
  {
    hide ReadSet;
    if HandlesOf(os, t) != [] {
      ReadSetEffect(os, t);
      ReadSetEffect(os', t);
      WaitingFrame(ReadSet(os, t).0, ReadSet(os', t).0, t);
    }
  }

  lemma SendThenRead(os: OS, t: SetId, q: QId, m: Msg)
    requires t in os.sets && HandlesOf(os, t) != [] && HomeIs(os, q, Some(t)) && Send(os, q, m).1
    requires MsgsOf(os, HandlesOf(os, t)[0]) != [] && |HandlesOf(os, t)| < os.sets[t].capacity
    ensures var os' := Send(os, q, m).0;
            && HandlesOf(os', t) == HandlesOf(os, t) + [q]
            && MsgsOf(os', HandlesOf(os, t)[0]) != []
            && MsgsOf(os', HandlesOf(os, t)[0])[0] == MsgsOf(os, HandlesOf(os, t)[0])[0]
    ensures ReadSet(Send(os, q, m).0, t).0 == Send(ReadSet(os, t).0, q, m).0
    ensures q in ReadSet(os, t).0.queues && Send(ReadSet(os, t).0, q, m).1
  {
    var handles, os' := HandlesOf(os, t), Send(os, q, m).0;
    assert (handles + [q])[1..] == handles[1..] + [q];
    var h := handles[0];
    if h == q {
      assert (os.queues[q].msgs + [m])[1..] == os.queues[q].msgs[1..] + [m];
    }
    assert ReadSet(os', t).0.queues == Send(ReadSet(os, t).0, q, m).0.queues;
    assert ReadSet(os', t).0.sets == Send(ReadSet(os, t).0, q, m).0.sets;
  }

  /** A message that is accepted waits behind all others. */
  lemma {:induction false} SendAppends(os: OS, t: SetId, items: seq<Item>, q: QId, m: Msg)
    requires Exact(os, t, items) && q in os.queues && Lists(items, q) && Send(os, q, m).1
    ensures Waiting(Send(os, q, m).0, t) == Waiting(os, t) + [(q, m)]
    decreases |HandlesOf(os, t)|
  {
    hide Exact, ReadSet, Send;
    SendFacts(os, t, items, q, m);
    var os' := Send(os, q, m).0;
    if HandlesOf(os, t) == [] {
      ReadSetEffect(os', t);
      assert [q][1..] == [];
    } else {
      HandleHasMessage(os, t, items);
      SendThenRead(os, t, q, m);
      ReadSetEffect(os, t);
      ReadKeepsExact(os, t, items);
      SendAppends(ReadSet(os, t).0, t, items, q, m);
    }
  }

  lemma SendFacts(os: OS, t: SetId, items: seq<Item>, q: QId, m: Msg)
    requires Exact(os, t, items) && q in os.queues && Lists(items, q) && Send(os, q, m).1
    ensures t in os.sets && HomeIs(os, q, Some(t)) && |HandlesOf(os, t)| < os.sets[t].capacity
    ensures HandlesOf(os, t) == [] ==>
              HandlesOf(Send(os, q, m).0, t) == [q] && MsgsOf(Send(os, q, m).0, q) == [m]
  {
    NeverOverflows(os, t, items, q);
    ListedHome(os, items, q, Some(t));
    var i :| 0 <= i < |items| && items[i].queue == q;
    assert Pending(HandlesOf(os, t), items[i].queue) == |MsgsOf(os, items[i].queue)|;
  }

  /** A message to a queue that is not listed does not show. */
  lemma SendElsewhere(os: OS, t: SetId, items: seq<Item>, q: QId, m: Msg)
    requires Exact(os, t, items) && q in os.queues && !Lists(items, q) && os.queues[q].home != Some(t)
    ensures Waiting(Send(os, q, m).0, t) == Waiting(os, t)
  {
    var os' := Send(os, q, m).0;
    assert HandlesOf(os', t) == HandlesOf(os, t);
    forall h | h in HandlesOf(os, t) ensures MsgsOf(os, h) == MsgsOf(os', h) {
      var k :| 0 <= k < |HandlesOf(os, t)| && HandlesOf(os, t)[k] == h;
      assert Lists(items, HandlesOf(os, t)[k]);
    }
    WaitingFrame(os, os', t);
  }

  // ---------- what a listener is ----------

  /** The queues it listens to, and the messages it has not read yet, in the order of sending. */
  datatype Listener = Listener(items: seq<Item>, waiting: seq<(QId, Msg)>)

  datatype Op =
    | SetListener(evt: Iface)
    | SetMsgListener(evt: Iface)
    | RemoveListener(evt: Iface)
    | Sendout(evt: Iface, m: Msg)
    | Command(evt: Iface, m: Msg)
    | Read

  /** Elsewhere: whether a queue that is not listed takes a message is not the listener's business. */
  datatype Answer = Done(err: Err) | Got(m: Option<Msg>) | Elsewhere

  predicate Agree(answer: Answer, expected: Answer) {
    expected.Elsewhere? || answer == expected
  }

  function External(evt: Iface): Option<Item> {
    if evt.externalQueue.Some? && evt.externalSize > 0 then Some(Item(evt.externalQueue.value, evt.externalSize))
    else None
  }

  function Internal(evt: Iface): Option<Item> {
    if evt.internalQueue.Some? && evt.internalSize > 0 then Some(Item(evt.internalQueue.value, evt.internalSize))
    else None
  }

  /** What an operation starts to listen to. */
  function Adds(op: Op): Option<Item> {
    match op
    case SetListener(evt) => External(evt)
    case SetMsgListener(evt) => Internal(evt)
    case _ => None
  }

  /** The queue an operation sends to. */
  function SendsTo(op: Op): Option<QId> {
    match op
    case Sendout(evt, _) => evt.externalQueue
    case Command(evt, _) => evt.internalQueue
    case _ => None
  }

  function SizeIn(items: seq<Item>, q: QId): nat {
    if items == [] then 0 else if items[0].queue == q then items[0].size else SizeIn(items[1..], q)
  }

  predicate HasRoom(l: Listener, q: QId) {
    Pending(Ids(l.waiting), q) < SizeIn(l.items, q)
  }

  function Sent(l: Listener, q: Option<QId>, m: Msg): (Listener, Answer) {
    if q.None? then (l, Done(OK))
    else if !Lists(l.items, q.value) then (l, Elsewhere)
    else if HasRoom(l, q.value) then (l.(waiting := l.waiting + [(q.value, m)]), Done(OK))
    else (l, Done(FAIL))
  }

  /** Listening to more or to fewer queues discards what waits. */
  function After(l: Listener, op: Op): (Listener, Answer) {
    match op
    case SetListener(evt) =>
      if External(evt).None? then (l, Done(INVALID_ARG))
      else (Listener(l.items + [External(evt).value], []), Done(OK))
    case SetMsgListener(evt) =>
      if Internal(evt).None? then (l, Done(INVALID_ARG))
      else (Listener(l.items + [Internal(evt).value], []), Done(OK))
    case RemoveListener(evt) =>
      if External(evt).None? then (l, Done(INVALID_ARG))
      else (Listener(Without(l.items, External(evt).value.queue), []), Done(OK))
    case Sendout(evt, m) => Sent(l, evt.externalQueue, m)
    case Command(evt, m) => Sent(l, evt.internalQueue, m)
    case Read =>
      if l.waiting == [] then (l, Got(None)) else (l.(waiting := l.waiting[1..]), Got(Some(l.waiting[0].1)))
  }

  ghost function StateOf(me: Iface): Listener
    reads me, me.kernel, me.listening
  {
    Listener(me.Items(), if me.queueSet.None? then [] else Waiting(me.kernel.os, me.queueSet.value))
  }

  /** In order, or new; and no queue is in its set without being listed. */
  ghost predicate Orderly(me: Iface)
    reads me, me.kernel, me.listening, me.listening.elems
  {
    && me.Ready() && (me.Items() == [] || me.InOrder())
    && forall q <- me.kernel.os.queues ::
         me.queueSet.Some? && HomeIs(me.kernel.os, q, me.queueSet) ==> Lists(me.Items(), q)
  }

  /** The queues an operation names exist. A queue to listen to is in no set but possibly the listener's own. */
  predicate Usable(os: OS, items: seq<Item>, op: Op) {
    && (Adds(op).Some? ==>
          var q := Adds(op).value.queue;
          CanListen(os, Some(q), Adds(op).value.size) && (HomeIs(os, q, None) || Lists(items, q)))
    && (SendsTo(op).Some? ==> SendsTo(op).value in os.queues)
  }

  /** Nothing is listened to twice. */
  predicate Admissible(items: seq<Item>, op: Op) {
    Adds(op).Some? ==> !Lists(items, Adds(op).value.queue)
  }

  /** Queues stay, and those that are not listed are in no set unless they were before. */
  predicate HomesKept(os: OS, items: seq<Item>, os': OS, items': seq<Item>) {
    && os'.queues.Keys == os.queues.Keys
    && forall q <- os.queues ::
         && os'.queues[q].size == os.queues[q].size
         && (!Lists(items', q) ==> HomeIs(os', q, if Lists(items, q) then None else os.queues[q].home))
  }

  lemma StillUsable(os: OS, items: seq<Item>, os': OS, items': seq<Item>, op: Op)
    requires Usable(os, items, op) && HomesKept(os, items, os', items')
    ensures Usable(os', items', op)
  {
  }

  // ---------- one operation ----------

  lemma RebuiltFacts(os: OS, items: seq<Item>, cleaned: OS, items': seq<Item>, t: Option<SetId>)
    requires HomesCreated(cleaned) && AllHome(cleaned, items, None) && cleaned.queues.Keys == os.queues.Keys
    requires forall q <- os.queues :: cleaned.queues[q].size == os.queues[q].size
    requires forall q <- os.queues :: !Lists(items, q) ==> cleaned.queues[q].home == os.queues[q].home
    requires t == if items' == [] then None else Some(cleaned.nextSet)
    ensures HomesKept(os, items, BuiltUp(cleaned, items'), items')
    ensures forall q <- BuiltUp(cleaned, items').queues ::
              t.Some? && HomeIs(BuiltUp(cleaned, items'), q, t) ==> Lists(items', q)
    ensures t.Some? ==> Waiting(BuiltUp(cleaned, items'), t.value) == []
  {
    assert items'[..|items'|] == items';
    forall q | q in os.queues && Lists(items, q) ensures HomeIs(cleaned, q, None) {
      ListedHome(cleaned, items, q, None);
    }
    hide AllHome, Lists, TotalSize;
  }

  lemma CleanedQueues(me: Iface)
    requires me.Ready()
    ensures var cleaned := me.CleanedUp();
            && HomesCreated(cleaned) && AllHome(cleaned, me.Items(), None) && cleaned.nextSet == me.kernel.os.nextSet
            && cleaned.queues.Keys == me.kernel.os.queues.Keys
            && (forall q <- me.kernel.os.queues :: cleaned.queues[q].size == me.kernel.os.queues[q].size)
            && forall q <- me.kernel.os.queues ::
                 !Lists(me.Items(), q) ==> cleaned.queues[q].home == me.kernel.os.queues[q].home
  {
    hide *;
    me.CleanedFacts();
  }

  /** Starting or ending to listen. */
  method Change(me: Iface, op: Op) returns (answer: Answer)
    requires Orderly(me) && (op.SetListener? || op.SetMsgListener? || op.RemoveListener?)
    requires Usable(me.kernel.os, me.Items(), op) && Admissible(me.Items(), op)
    modifies me`queueSet, me.kernel, me.listening, me.listening.elems
    ensures Orderly(me) && HomesKept(old(me.kernel.os), old(me.Items()), me.kernel.os, me.Items())
    ensures (StateOf(me), answer) == After(old(StateOf(me)), op)
    ensures forall e <- me.listening.elems :: e in old(me.listening.elems) || fresh(e)
  {
    hide HomesKept, Iface.CleanedUp, Iface.Ready, Iface.InOrder, HomesCreated, AllHome, Waiting, BuiltUp, Lists,
         Without;
    ghost var os, items, cleaned := me.kernel.os, me.Items(), me.CleanedUp();
    CleanedQueues(me);
    var err;
    match op {
      case SetListener(evt) => err := me.SetListener(evt);
      case SetMsgListener(evt) => err := me.SetMsgListener(evt);
      case RemoveListener(evt) => err := me.RemoveListener(evt);
      case _ => assert false;
    }
    answer := Done(err);
    if err == INVALID_ARG {
      NothingMoved(os, items);
    } else {
      RebuiltFacts(os, items, cleaned, me.Items(), me.queueSet);
    }
  }

  lemma NothingMoved(os: OS, items: seq<Item>)
    ensures HomesKept(os, items, os, items)
  {
    hide Lists;
  }

  lemma {:induction false} SizeOfListed(os: OS, items: seq<Item>, q: QId)
    requires Sized(os, items) && Lists(items, q)
    ensures q in os.queues && SizeIn(items, q) == os.queues[q].size
  {
    var i :| 0 <= i < |items| && items[i].queue == q;
    if items[0].queue != q {
      assert items[1..][i - 1].queue == q;
      assert forall j :: 0 <= j < |items| - 1 ==> items[1..][j] == items[j + 1];
      SizeOfListed(os, items[1..], q);
    }
  }

  /** Sending to a listed queue of a listener in order. */
  lemma SendListed(os: OS, t: SetId, items: seq<Item>, q: QId, m: Msg)
    requires Exact(os, t, items) && q in os.queues && Lists(items, q)
    ensures var l, (os', ok) := Listener(items, Waiting(os, t)), Send(os, q, m);
            && Exact(os', t, items) && (ok <==> HasRoom(l, q))
            && Waiting(os', t) == if ok then Waiting(os, t) + [(q, m)] else Waiting(os, t)
  {
    hide Waiting;
    SendKeepsExact(os, t, items, q, m);
    CountWaiting(os, t, items, q);
    SizeOfListed(os, items, q);
    if Send(os, q, m).1 { SendAppends(os, t, items, q, m); }
  }

  lemma SendKeepsHomes(os: OS, items: seq<Item>, q: QId, m: Msg)
    requires q in os.queues
    ensures var os' := Send(os, q, m).0;
            && HomesKept(os, items, os', items) && (HomesCreated(os) ==> HomesCreated(os'))
            && os'.queues.Keys == os.queues.Keys && forall p <- os.queues :: os'.queues[p].home == os.queues[p].home
  {
    hide Lists;
  }

  lemma OrderlyParts(me: Iface)
    requires Orderly(me)
    ensures me.listening.Valid() && HomesCreated(me.kernel.os)
    ensures me.Items() != [] ==> me.queueSet.Some? && Exact(me.kernel.os, me.queueSet.value, me.Items())
    ensures me.Items() == [] && me.queueSet.Some? ==>
              me.queueSet.value in me.kernel.os.sets && HandlesOf(me.kernel.os, me.queueSet.value) == []
    ensures me.Items() == [] ==> forall q :: !Lists(me.Items(), q)
  {
    hide Exact, Covered, Head.Valid, Iface.OwnDrained;
    if me.queueSet.Some? && HandlesOf(me.kernel.os, me.queueSet.value) != [] {
      SomethingListed(HandlesOf(me.kernel.os, me.queueSet.value), me.Items());
    }
  }

  lemma SomethingListed(handles: seq<QId>, items: seq<Item>)
    requires OnlyListed(handles, items) && handles != []
    ensures items != []
  {
    assert Lists(items, handles[0]);
  }

  lemma OrderlyAgain(me: Iface)
    requires me.listening.Valid() && HomesCreated(me.kernel.os)
    requires me.Items() != [] ==> me.queueSet.Some? && Exact(me.kernel.os, me.queueSet.value, me.Items())
    requires me.Items() == [] && me.queueSet.Some? ==>
               me.queueSet.value in me.kernel.os.sets && HandlesOf(me.kernel.os, me.queueSet.value) == []
    ensures me.Ready() && (me.Items() == [] || me.InOrder())
  {
    if me.Items() != [] {
      me.SetIsInOrder();
    } else {
      me.OwnDrainedSets();
      hide Exact, Head.Valid, DrainedOpt;
    }
  }

  // ---------- sending and reading ----------

  predicate Sends(op: Op) {
    op.Sendout? || op.Command?
  }

  /** Whoever sends uses the same operating system. */
  ghost predicate Shares(me: Iface, op: Op) {
    Sends(op) ==> op.evt.kernel == me.kernel
  }

  method Deliver(me: Iface, op: Op) returns (answer: Answer)
    requires Orderly(me) && Sends(op) && Shares(me, op) && Usable(me.kernel.os, me.Items(), op)
    modifies me.kernel
    ensures Orderly(me) && HomesKept(old(me.kernel.os), old(me.Items()), me.kernel.os, me.Items())
    ensures StateOf(me) == After(old(StateOf(me)), op).0 && Agree(answer, After(old(StateOf(me)), op).1)
  {
    hide HomesKept, Iface.Ready, Iface.InOrder, HomesCreated, Waiting, Lists, Exact, Send, Head.Valid, HasRoom;
    ghost var os, items, q := me.kernel.os, me.Items(), SendsTo(op);
    OrderlyParts(me);
    var err;
    match op {
      case Sendout(evt, m) => err := evt.Sendout(m);
      case Command(evt, m) => err := evt.Command(m);
      case _ => assert false;
    }
    NothingMoved(os, items);
    answer := Done(err);
    if q.Some? {
      SendKeepsHomes(os, items, q.value, op.m);
      if me.queueSet.Some? { SendInSet(os, me.queueSet.value, items, q.value, op.m); }
    }
    OrderlyAgain(me);
  }

  /** What a send does to the listener's set, in order or new. */
  lemma SendInSet(os: OS, t: SetId, items: seq<Item>, q: QId, m: Msg)
    requires q in os.queues && (HomeIs(os, q, Some(t)) ==> Lists(items, q))
    requires if items == [] then t in os.sets && HandlesOf(os, t) == [] else Exact(os, t, items)
    ensures var l, (os', ok) := Listener(items, Waiting(os, t)), Send(os, q, m);
            && (if items == [] then t in os'.sets && HandlesOf(os', t) == [] else Exact(os', t, items))
            && (Lists(items, q) ==> (ok <==> HasRoom(l, q)))
            && Waiting(os', t) == if Lists(items, q) && ok then Waiting(os, t) + [(q, m)] else Waiting(os, t)
  {
    hide Exact, HasRoom, Pending;
    if Lists(items, q) {
      SendListed(os, t, items, q, m);
    } else if items != [] {
      SendKeepsExact(os, t, items, q, m);
      SendElsewhere(os, t, items, q, m);
    }
  }

  method ReadOne(me: Iface) returns (answer: Answer)
    requires Orderly(me)
    modifies me.kernel
    ensures Orderly(me) && HomesKept(old(me.kernel.os), old(me.Items()), me.kernel.os, me.Items())
    ensures (StateOf(me), answer) == After(old(StateOf(me)), Read)
  {
    hide HomesKept, Iface.Ready, Iface.InOrder, HomesCreated, Waiting, Lists, Exact, ReadSet, Head.Valid;
    ghost var os, items := me.kernel.os, me.Items();
    OrderlyParts(me);
    var m := me.Read();
    answer := Got(m);
    NothingMoved(os, items);
    if me.queueSet.Some? {
      ReadKeepsHomes(os, items, me.queueSet.value);
      ReadInSet(os, me.queueSet.value, items);
    }
    OrderlyAgain(me);
  }

  lemma ReadKeepsHomes(os: OS, items: seq<Item>, t: SetId)
    ensures var os' := ReadSet(os, t).0;
            && HomesKept(os, items, os', items) && (HomesCreated(os) ==> HomesCreated(os'))
            && os'.queues.Keys == os.queues.Keys && forall p <- os.queues :: os'.queues[p].home == os.queues[p].home
  {
    hide Lists;
  }

  lemma ReadInSet(os: OS, t: SetId, items: seq<Item>)
    requires if items == [] then t in os.sets && HandlesOf(os, t) == [] else Exact(os, t, items)
    ensures var os', m := ReadSet(os, t).0, ReadSet(os, t).1; var w := Waiting(os, t);
            && (if items == [] then t in os'.sets && HandlesOf(os', t) == [] else Exact(os', t, items))
            && (m, Waiting(os', t)) == (if w == [] then (None, []) else (Some(w[0].1), w[1..]))
  {
    hide Exact, Lists, Pending, ReadSet;
    if items == [] {
      NothingSelected(os, t);
    } else {
      ReadKeepsExact(os, t, items);
      ReadTakesFirst(os, t, items);
    }
  }

  // ---------- runs ----------

  method Perform(me: Iface, op: Op) returns (answer: Answer)
    requires Orderly(me) && Shares(me, op)
    requires Usable(me.kernel.os, me.Items(), op) && Admissible(me.Items(), op)
    modifies me`queueSet, me.kernel, me.listening, me.listening.elems
    ensures Orderly(me) && HomesKept(old(me.kernel.os), old(me.Items()), me.kernel.os, me.Items())
    ensures StateOf(me) == After(old(StateOf(me)), op).0 && Agree(answer, After(old(StateOf(me)), op).1)
    ensures forall e <- me.listening.elems :: e in old(me.listening.elems) || fresh(e)
  {
    hide Orderly, HomesKept, StateOf, After, Usable, Admissible, Shares;
    match op {
      case Read => answer := ReadOne(me);
      case Sendout(_, _) => answer := Deliver(me, op);
      case Command(_, _) => answer := Deliver(me, op);
      case _ => answer := Change(me, op);
    }
  }

  /** Nothing is listened to twice at any time. */
  ghost predicate Playable(l: Listener, ops: seq<Op>)
    decreases ops
  {
    ops == [] || (Admissible(l.items, ops[0]) && Playable(After(l, ops[0]).0, ops[1..]))
  }

  ghost function AfterAll(l: Listener, ops: seq<Op>): Listener
    decreases ops
  {
    if ops == [] then l else AfterAll(After(l, ops[0]).0, ops[1..])
  }

  ghost function Expected(l: Listener, ops: seq<Op>): (answers: seq<Answer>)
    ensures |answers| == |ops|
    decreases ops
  {
    if ops == [] then [] else [After(l, ops[0]).1] + Expected(After(l, ops[0]).0, ops[1..])
  }

  predicate AllAgree(answers: seq<Answer>, expected: seq<Answer>) {
    |answers| == |expected| && forall i :: 0 <= i < |answers| ==> Agree(answers[i], expected[i])
  }

  lemma AgreeMore(answers: seq<Answer>, answer: Answer, expected: seq<Answer>, rest: seq<Answer>)
    requires |answers| <= |expected| && AllAgree(answers, expected[..|answers|])
    requires expected[|answers|..] == rest && rest != [] && Agree(answer, rest[0])
    ensures AllAgree(answers + [answer], expected[..|answers| + 1]) && expected[|answers| + 1..] == rest[1..]
  {
    assert expected[|answers|] == rest[0];
    assert expected[|answers| + 1..] == expected[|answers|..][1..];
    forall i | 0 <= i < |answers| ensures Agree(answers[i], expected[i]) {
      assert expected[..|answers|][i] == expected[i];
    }
  }

  /** In every run the listener is in order after each operation, can be cleaned up, and answers as the queue of
      messages in the order of sending does. */
  method Run(me: Iface, ops: seq<Op>) returns (answers: seq<Answer>)
    requires Orderly(me) && Playable(StateOf(me), ops)
    requires forall op <- ops :: Usable(me.kernel.os, me.Items(), op) && Shares(me, op)
    modifies me`queueSet, me.kernel, me.listening, me.listening.elems
    ensures Orderly(me) && StateOf(me) == AfterAll(old(StateOf(me)), ops)
    ensures AllAgree(answers, Expected(old(StateOf(me)), ops))
  {
    hide Orderly, HomesKept, StateOf, After, Usable, Admissible, Agree, AllAgree, Shares;
    ghost var l := StateOf(me);
    ghost var expected := Expected(l, ops);
    answers := [];
    NoneYet(expected);
    for n := 0 to |ops|
      invariant Orderly(me) && Playable(StateOf(me), ops[n..]) && AfterAll(StateOf(me), ops[n..]) == AfterAll(l, ops)
      invariant forall op <- ops :: Usable(me.kernel.os, me.Items(), op) && Shares(me, op)
      invariant |answers| == n && AllAgree(answers, expected[..n]) && Expected(StateOf(me), ops[n..]) == expected[n..]
      invariant forall e <- me.listening.elems :: e in old(me.listening.elems) || fresh(e)
    {
      assert ops[n..][0] == ops[n] && ops[n..][1..] == ops[n + 1..];
      assert ops[n] in ops;
      ghost var os, items, rest := me.kernel.os, me.Items(), Expected(StateOf(me), ops[n..]);
      StateItems(me);
      assert forall i :: 0 <= i < |me.listening.elems| ==> me.listening.elems[i] in me.listening.elems;
      var answer := Perform(me, ops[n]);
      AgreeMore(answers, answer, expected, rest);
      forall op | op in ops ensures Usable(me.kernel.os, me.Items(), op) {
        StillUsable(os, items, me.kernel.os, me.Items(), op);
      }
      answers := answers + [answer];
    }
    assert expected[..|ops|] == expected;
  }

  lemma NoneYet(expected: seq<Answer>)
    ensures AllAgree([], expected[..0])
  {
  }

  lemma StateItems(me: Iface)
    ensures StateOf(me).items == me.Items()
  {
  }

  // ---------- sending and reading alone ----------

  /** The message an operation adds to those that wait. */
  function Accepting(l: Listener, op: Op): seq<(QId, Msg)> {
    if Sends(op) && SendsTo(op).Some? && Lists(l.items, SendsTo(op).value) && HasRoom(l, SendsTo(op).value)
    then [(SendsTo(op).value, op.m)] else []
  }

  /** The message an operation reads. */
  function Delivering(l: Listener, op: Op): seq<(QId, Msg)> {
    if op.Read? && l.waiting != [] then [l.waiting[0]] else []
  }

  function Accepted(l: Listener, ops: seq<Op>): seq<(QId, Msg)>
    decreases ops
  {
    if ops == [] then [] else Accepting(l, ops[0]) + Accepted(After(l, ops[0]).0, ops[1..])
  }

  function Delivered(l: Listener, ops: seq<Op>): seq<(QId, Msg)>
    decreases ops
  {
    if ops == [] then [] else Delivering(l, ops[0]) + Delivered(After(l, ops[0]).0, ops[1..])
  }

  lemma OneInOneOut(l: Listener, op: Op)
    requires Sends(op) || op.Read?
    ensures l.waiting + Accepting(l, op) == Delivering(l, op) + After(l, op).0.waiting
    ensures After(l, op).0.items == l.items
  {
    hide HasRoom, Lists;
  }

  /** While the list of queues stays as it is, nothing is lost, doubled or overtaken, across all queues. */
  lemma {:induction false} FirstInFirstOut(l: Listener, ops: seq<Op>)
    requires forall op <- ops :: Sends(op) || op.Read?
    ensures l.waiting + Accepted(l, ops) == Delivered(l, ops) + AfterAll(l, ops).waiting
    ensures AfterAll(l, ops).items == l.items
    decreases ops
  {
    hide After, Accepting, Delivering;
    if ops != [] {
      assert ops[0] in ops;
      var l' := After(l, ops[0]).0;
      OneInOneOut(l, ops[0]);
      FirstInFirstOut(l', ops[1..]);
      var (taken, given) := (Accepting(l, ops[0]), Delivering(l, ops[0]));
      assert l.waiting + (taken + Accepted(l', ops[1..])) == (l.waiting + taken) + Accepted(l', ops[1..]);
      assert (given + l'.waiting) + Accepted(l', ops[1..]) == given + (l'.waiting + Accepted(l', ops[1..]));
    }
  }

  // ---------- from the start ----------

  method NewListener(kernel: Kernel, internalQueue: Option<QId>, internalSize: nat,
                     externalQueue: Option<QId>, externalSize: nat, queueSetSize: nat) returns (me: Iface)
    requires HomesCreated(kernel.os)
    modifies kernel
    ensures fresh(me) && fresh(me.listening) && me.kernel == kernel
    ensures Orderly(me) && StateOf(me) == Listener([], []) && kernel.os.queues == old(kernel.os).queues
  {
    me := new Iface(kernel, internalQueue, internalSize, externalQueue, externalSize, queueSetSize);
    hide Iface.Ready, Head.Valid, Covered;
  }
}
