/** The event interface: a listener with the list of queues it listens to and their queue set. */
module EventIface {
  import opened Wrappers
  import opened Queues
  import opened ListenerSet
  import opened Stailq

  datatype Err = OK | FAIL | INVALID_ARG

  /** The operating system, shared by all interfaces. */
  class Kernel {
    var os: OS

    constructor ()
      ensures os == OS(map[], map[], 0)
    {
      os := OS(map[], map[], 0);
    }

    /** Receives from the queue until it is empty. */
    method DrainQueue(q: QId)
      modifies this
      ensures os == Drained(old(os), q)
    {
      ghost var was := os;
      while true
        invariant Drained(os, q) == Drained(was, q)
        decreases |MsgsOf(os, q)|
      {
        var m: Option<Msg>;
        ghost var before := os;
        os, m := Receive(os, q).0, Receive(os, q).1;
        if m.None? { break; }
        assert Drained(os, q) == Drained(before, q);
      }
      assert q in os.queues ==> os.queues[q := os.queues[q]] == os.queues;
    }
  }

  // ---------- what the operations leave behind ----------

  function Drained(os: OS, q: QId): OS {
    if q in os.queues then WithMsgs(os, q, []) else os
  }

  function DrainedOpt(os: OS, q: Option<QId>, size: nat): OS {
    if q.Some? && size != 0 then Drained(os, q.value) else os
  }

  /** The set is gone; its queues are empty and in no set. */
  function TakenApart(os: OS, t: SetId, items: seq<Item>): OS {
    OS(map q | q in os.queues :: if Lists(items, q) then Queue(os.queues[q].size, [], None) else os.queues[q],
       os.sets - {t}, os.nextSet)
  }

  /** Whether the queue at position `i` is in no set and not listed before. */
  predicate Fits(os: OS, items: seq<Item>, i: nat)
    requires i < |items|
  {
    HomeIs(os, items[i].queue, None) && !Lists(items[..i], items[i].queue)
  }

  /** How many queues of the list can be added one after the other. */
  function Accepted(os: OS, items: seq<Item>, i: nat): (n: nat)
    requires i <= |items|
    ensures i <= n <= |items|
    decreases |items| - i
  {
    if i < |items| && Fits(os, items, i) then Accepted(os, items, i + 1) else i
  }

  /** A new set holding the first `n` listed queues; the queue after them, if any, has been emptied
      without being added. */
  function BuiltTo(os: OS, items: seq<Item>, n: nat): OS
    requires n <= |items|
  {
    if items == [] then os
    else
      OS(map q | q in os.queues ::
           if Lists(items[..n], q) then Queue(os.queues[q].size, [], Some(os.nextSet))
           else if n < |items| && q == items[n].queue then os.queues[q].(msgs := [])
           else os.queues[q],
         os.sets[os.nextSet := QueueSet(TotalSize(items), [])], os.nextSet + 1)
  }

  /** A new set, sized for all listed queues, with all of them in it and empty. */
  function BuiltUp(os: OS, items: seq<Item>): OS {
    BuiltTo(os, items, |items|)
  }

  function QueuesOf(items: seq<Item>): seq<QId> {
    seq(|items|, i requires 0 <= i < |items| => items[i].queue)
  }

  lemma SameRepeats(items: seq<Item>)
    ensures DistinctQueues(items) <==> NoRepeats(QueuesOf(items))
  {
    var qs := QueuesOf(items);
    assert forall i :: 0 <= i < |items| ==> items[i].queue == qs[i];
  }

  /** Homes are sets that were created. */
  predicate HomesCreated(os: OS) {
    forall q <- os.queues :: os.queues[q].home.Some? ==> os.queues[q].home.value < os.nextSet
  }

  /** Everything fits exactly when the queues are distinct and in no set. */
  lemma {:induction false} AcceptedAll(os: OS, items: seq<Item>, i: nat)
    requires i <= |items|
    ensures Accepted(os, items, i) == |items| <==> forall j :: i <= j < |items| ==> Fits(os, items, j)
    ensures Accepted(os, items, i) < |items| ==> !Fits(os, items, Accepted(os, items, i))
    ensures forall j :: i <= j < Accepted(os, items, i) ==> Fits(os, items, j)
    decreases |items| - i
  {
    if i < |items| && Fits(os, items, i) { AcceptedAll(os, items, i + 1); }
  }

  lemma FitsAll(os: OS, items: seq<Item>)
    ensures Accepted(os, items, 0) == |items| <==> DistinctQueues(items) && AllHome(os, items, None)
  {
    AcceptedAll(os, items, 0);
    if DistinctQueues(items) && AllHome(os, items, None) {
      forall j | 0 <= j < |items| ensures Fits(os, items, j) { assert HomeIs(os, items[j].queue, None); }
    }
    if forall j :: 0 <= j < |items| ==> Fits(os, items, j) {
      forall i, j | 0 <= i < j < |items| ensures items[i].queue != items[j].queue {
        assert Fits(os, items, j);
        assert items[..j][i] == items[i];
      }
      forall j | 0 <= j < |items| ensures HomeIs(os, items[j].queue, None) { assert Fits(os, items, j); }
    }
  }

  // ---------- taking the set apart, step by step ----------

  /** The first `i` listed queues have been taken out of the set, the others can still be. */
  predicate Taking(base: OS, os: OS, t: SetId, items: seq<Item>, i: nat) {
    && os.nextSet == base.nextSet && os.queues.Keys == base.queues.Keys
    && t in os.sets && os.sets - {t} == base.sets - {t}
    && OnlyListed(HandlesOf(os, t), items)
    && (forall q <- base.queues :: !Lists(items, q) ==> os.queues[q] == base.queues[q])
    && (forall j :: 0 <= j < |items| ==> TakenOut(base, os, t, items[j].queue, j < i))
  }

  predicate TakenOut(base: OS, os: OS, t: SetId, q: QId, out: bool) {
    && q in base.queues && q in os.queues
    && if out then os.queues[q] == Queue(base.queues[q].size, [], None)
       else os.queues[q].size == base.queues[q].size && os.queues[q].home == Some(t) && Surplus(os, t, q) >= 0
  }

  lemma TakingStarts(os: OS, t: SetId, items: seq<Item>)
    requires Known(os, items) && Covered(os, t, items)
    ensures Taking(os, os, t, items, 0)
  {
    forall j | 0 <= j < |items| ensures TakenOut(os, os, t, items[j].queue, false) {
      assert |MsgsOf(os, items[j].queue)| <= Pending(HandlesOf(os, t), items[j].queue);
    }
  }

  lemma ReadKeepsTaking(base: OS, os: OS, t: SetId, items: seq<Item>, i: nat)
    requires Taking(base, os, t, items, i)
    ensures Taking(base, ReadSet(os, t).0, t, items, i)
    ensures HandlesOf(os, t) != [] ==> |HandlesOf(ReadSet(os, t).0, t)| < |HandlesOf(os, t)|
  {
    var handles := HandlesOf(os, t);
    if handles != [] {
      var os' := ReadSet(os, t).0;
      ReadSetEffect(os, t);
      forall j | 0 <= j < |items| ensures TakenOut(base, os', t, items[j].queue, j < i) {
        assert TakenOut(base, os, t, items[j].queue, j < i);
      }
      ReadElsewhere(os, t);
      assert OnlyListed(HandlesOf(os', t), items);
    }
  }

  lemma ReadElsewhere(os: OS, t: SetId)
    requires t in os.sets && HandlesOf(os, t) != []
    ensures var os' := ReadSet(os, t).0;
            && os'.nextSet == os.nextSet && os'.queues.Keys == os.queues.Keys
            && t in os'.sets && os'.sets - {t} == os.sets - {t}
            && forall q <- os.queues :: q != HandlesOf(os, t)[0] ==> os'.queues[q] == os.queues[q]
  {
  }

  lemma RemoveKeepsTaking(base: OS, os: OS, t: SetId, items: seq<Item>, i: nat)
    requires DistinctQueues(items) && i < |items| && Taking(base, os, t, items, i)
    ensures var (os', ok) := RemoveFromSet(os, items[i].queue, t);
            && (ok ==> Taking(base, os', t, items, i + 1))
            && (!ok ==> os' == os && HandlesOf(os, t) != [])
  {
    var q := items[i].queue;
    assert TakenOut(base, os, t, q, false);
    var (os', ok) := RemoveFromSet(os, q, t);
    if ok {
      forall j | 0 <= j < |items| ensures TakenOut(base, os', t, items[j].queue, j < i + 1) {
        assert TakenOut(base, os, t, items[j].queue, j < i);
      }
      assert Lists(items, q);
    } else {
      assert Pending(HandlesOf(os, t), q) > 0;
    }
  }

  lemma TakingEnds(base: OS, os: OS, t: SetId, items: seq<Item>)
    requires Taking(base, os, t, items, |items|)
    ensures DeleteSet(os, t) == TakenApart(base, t, items)
  {
    forall q <- base.queues ensures os.queues[q] == TakenApart(base, t, items).queues[q] {
      if Lists(items, q) {
        var j :| 0 <= j < |items| && items[j].queue == q;
        assert TakenOut(base, os, t, items[j].queue, true);
      }
    }
    assert DeleteSet(os, t).queues == TakenApart(base, t, items).queues;
  }

  // ---------- building the set up, step by step ----------

  predicate Building(base: OS, os: OS, items: seq<Item>, i: nat) {
    && i <= |items| && os.sets == base.sets[base.nextSet := QueueSet(TotalSize(items), [])]
    && os.nextSet == base.nextSet + 1
    && os.queues.Keys == base.queues.Keys
    && (forall q <- base.queues ::
          os.queues[q] == if Lists(items[..i], q) then Queue(base.queues[q].size, [], Some(base.nextSet))
                          else base.queues[q])
  }

  lemma BuildingStep(base: OS, os: OS, items: seq<Item>, i: nat)
    requires Building(base, os, items, i) && i < |items| && Fits(base, items, i)
    ensures var (os', ok) := AddToSet(Drained(os, items[i].queue), items[i].queue, base.nextSet);
            ok && Building(base, os', items, i + 1)
  {
    var q := items[i].queue;
    var os' := AddToSet(Drained(os, q), q, base.nextSet).0;
    forall p <- base.queues
      ensures Lists(items[..i + 1], p) <==> (p == q || Lists(items[..i], p))
    {
      assert items[..i + 1][i].queue == q;
      if Lists(items[..i], p) {
        var j :| 0 <= j < i && items[..i][j].queue == p;
        assert items[..i + 1][j].queue == p;
      }
      if Lists(items[..i + 1], p) && p != q {
        var j :| 0 <= j < i + 1 && items[..i + 1][j].queue == p;
        assert items[..i][j].queue == p;
      }
    }
  }

  lemma BuildingEnds(base: OS, os: OS, items: seq<Item>)
    requires Building(base, os, items, |items|) && items != []
    ensures os == BuiltTo(base, items, |items|)
  {
  }

  /** A queue that does not fit is emptied all the same, and stays where it is. */
  lemma BuildingFails(base: OS, os: OS, items: seq<Item>, i: nat)
    requires Building(base, os, items, i) && i < |items| && !Fits(base, items, i) && Sized(base, items)
    ensures AddToSet(Drained(os, items[i].queue), items[i].queue, base.nextSet) == (BuiltTo(base, items, i), false)
  {
    var q := items[i].queue;
    assert q in base.queues;
    assert Drained(os, q).queues == BuiltTo(base, items, i).queues;
  }

  /** A freshly built set is exact: as many handles as messages, namely none. */
  lemma BuiltUpExact(os: OS, items: seq<Item>)
    requires Known(os, items) && items != []
    ensures Exact(BuiltUp(os, items), os.nextSet, items)
  {
    assert items[..|items|] == items;
    var os' := BuiltUp(os, items);
    forall i | 0 <= i < |items|
      ensures HomeIs(os', items[i].queue, Some(os.nextSet)) && MsgsOf(os', items[i].queue) == []
      ensures items[i].queue in os'.queues && os'.queues[items[i].queue].size == items[i].size
    {
      assert Lists(items, items[i].queue);
    }
  }

  class Iface {
    const kernel: Kernel
    const internalQueue: Option<QId>
    const externalQueue: Option<QId>
    const internalSize: nat
    const externalSize: nat
    const queueSetSize: nat
    const listening: Head<Item>
    var queueSet: Option<SetId>

    ghost function Items(): seq<Item>
      reads listening
    {
      Vals(listening.elems)
    }

    /** What is true of a listener at all times. */
    ghost predicate Held()
      reads this, kernel, listening, listening.elems
    {
      && listening.Valid() && Sized(kernel.os, Items()) && HomesCreated(kernel.os)
      && (queueSet.Some? ==> queueSet.value in kernel.os.sets
                             && OnlyListed(HandlesOf(kernel.os, queueSet.value), Items()))
      && (queueSet.None? ==> Items() == [])
    }

    /** The set can be taken apart. */
    ghost predicate Ready()
      reads this, kernel, listening, listening.elems
    {
      Held() && DistinctQueues(Items()) && (queueSet.Some? ==> Covered(OwnDrained(), queueSet.value, Items()))
    }

    /** Cleaning up a listener ends if and only if its set can be taken apart. */
    lemma ReadyExactly()
      requires Held() && queueSet.Some?
      ensures Ready() <==> CleanupEnds(OwnDrained(), queueSet.value, QueuesOf(Items()))
    {
      hide Head.Valid, Drained, CleanupEnds, Pending, HomesCreated;
      var os, t, items := OwnDrained(), queueSet.value, Items();
      var qs := QueuesOf(items);
      CleanupEndsExactly(os, t, qs);
      OwnDrainedSets();
      SameRepeats(items);
      if Ready() {
        forall i | 0 <= i < |qs| ensures Removable(os, t, qs[i]) {
          assert HomeIs(os, items[i].queue, Some(t))
                 && |MsgsOf(os, items[i].queue)| <= Pending(HandlesOf(os, t), items[i].queue);
        }
      }
      if forall i :: 0 <= i < |qs| ==> Removable(os, t, qs[i]) {
        forall i | 0 <= i < |items|
          ensures HomeIs(os, items[i].queue, Some(t))
                  && |MsgsOf(os, items[i].queue)| <= Pending(HandlesOf(os, t), items[i].queue)
        {
          assert Removable(os, t, qs[i]);
        }
      }
    }

    lemma OwnDrainedSets()
      ensures OwnDrained().sets == kernel.os.sets && SameHomes(kernel.os, OwnDrained())
              && OwnDrained().nextSet == kernel.os.nextSet
    {
    }

    /** After discarding what is in its own queues. */
    ghost function OwnDrained(): OS
      reads this, kernel
    {
      DrainedOpt(DrainedOpt(kernel.os, externalQueue, externalSize), internalQueue, internalSize)
    }

    ghost function CleanedUp(): OS
      reads this, kernel, listening
    {
      if queueSet.Some? then TakenApart(OwnDrained(), queueSet.value, Items()) else OwnDrained()
    }

    constructor (kernel: Kernel, internalQueue: Option<QId>, internalSize: nat,
                 externalQueue: Option<QId>, externalSize: nat, queueSetSize: nat)
      requires HomesCreated(kernel.os)
      modifies kernel
      ensures this.kernel == kernel && this.internalQueue == internalQueue && this.externalQueue == externalQueue
      ensures this.internalSize == internalSize && this.externalSize == externalSize
      ensures fresh(listening) && Items() == [] && Ready()
      ensures queueSet == if queueSetSize == 0 then None else Some(old(kernel.os).nextSet)
      ensures kernel.os == if queueSetSize == 0 then old(kernel.os) else CreateSet(old(kernel.os), queueSetSize).0
    {
      this.kernel, this.internalQueue, this.internalSize := kernel, internalQueue, internalSize;
      this.externalQueue, this.externalSize, this.queueSetSize := externalQueue, externalSize, queueSetSize;
      listening := new Head<Item>();
      queueSet := None;
      new;
      if queueSetSize != 0 {
        queueSet := Some(CreateSet(kernel.os, queueSetSize).1);
        kernel.os := CreateSet(kernel.os, queueSetSize).0;
      }
    }

    method Read() returns (m: Option<Msg>)
      modifies kernel
      ensures queueSet.Some? ==> (kernel.os, m) == ReadSet(old(kernel.os), queueSet.value)
      ensures queueSet.None? ==> kernel.os == old(kernel.os) && m == None
      ensures old(InOrder()) ==> InOrder()
    {
      KeptInOrder();
      m := None;
      if queueSet.Some? {
        var active := Select(kernel.os, queueSet.value).1;
        kernel.os := Select(kernel.os, queueSet.value).0;
        if active.Some? {
          m := Receive(kernel.os, active.value).1;
          kernel.os := Receive(kernel.os, active.value).0;
        }
      }
    }

    lemma KeptInOrder()
      ensures InOrder() && queueSet.Some? ==> Exact(ReadSet(kernel.os, queueSet.value).0, queueSet.value, Items())
    {
      if InOrder() && queueSet.Some? { ReadKeepsExact(kernel.os, queueSet.value, Items()); }
    }

    /** Reads until a read fails. */
    method ReadAll(ghost base: OS, ghost items: seq<Item>, ghost i: nat)
      requires queueSet.Some? && Taking(base, kernel.os, queueSet.value, items, i)
      modifies kernel
      ensures Taking(base, kernel.os, queueSet.value, items, i)
      ensures |HandlesOf(kernel.os, queueSet.value)| <= old(|HandlesOf(kernel.os, queueSet.value)|)
      ensures old(HandlesOf(kernel.os, queueSet.value) != []) ==>
                |HandlesOf(kernel.os, queueSet.value)| < old(|HandlesOf(kernel.os, queueSet.value)|)
    {
      hide Taking, ReadSet, Pending;
      var m: Option<Msg>;
      ReadKeepsTaking(base, kernel.os, queueSet.value, items, i);
      NothingSelected(kernel.os, queueSet.value);
      m := Read();
      while m.Some?
        invariant Taking(base, kernel.os, queueSet.value, items, i)
        invariant |HandlesOf(kernel.os, queueSet.value)| <= old(|HandlesOf(kernel.os, queueSet.value)|)
        invariant old(HandlesOf(kernel.os, queueSet.value) != []) ==>
                    |HandlesOf(kernel.os, queueSet.value)| < old(|HandlesOf(kernel.os, queueSet.value)|)
        decreases |HandlesOf(kernel.os, queueSet.value)|, m.Some?
      {
        ReadKeepsTaking(base, kernel.os, queueSet.value, items, i);
        NothingSelected(kernel.os, queueSet.value);
        m := Read();
      }
    }

    /** audio_event_iface_discard */
    method Discard(ghost items: seq<Item>)
      requires items == Items() && Ready()
      modifies kernel
      ensures queueSet.None? ==> kernel.os == old(OwnDrained())
      ensures queueSet.Some? ==> Taking(old(OwnDrained()), kernel.os, queueSet.value, items, 0)
    {
      ReadyOwn();
      hide Taking, Covered, Known, Drained, Head.Valid, Ready;
      if externalQueue.Some? && externalSize != 0 { kernel.DrainQueue(externalQueue.value); }
      if internalQueue.Some? && internalSize != 0 { kernel.DrainQueue(internalQueue.value); }
      ghost var base := kernel.os;
      if queueSet.Some? {
        TakingStarts(base, queueSet.value, items);
        if queueSetSize != 0 { ReadAll(base, items, 0); }
      }
    }

    lemma OwnDrainedCovered(os: OS, items: seq<Item>)
      requires queueSet.Some? && Known(os, items) && Covered(os, queueSet.value, items)
      ensures var os' := DrainedOpt(DrainedOpt(os, externalQueue, externalSize), internalQueue, internalSize);
              Known(os', items) && Covered(os', queueSet.value, items)
    {
      hide Known, Covered;
      if externalQueue.Some? { DrainedCovered(os, queueSet.value, items, externalQueue.value); }
      var os1 := DrainedOpt(os, externalQueue, externalSize);
      if internalQueue.Some? { DrainedCovered(os1, queueSet.value, items, internalQueue.value); }
    }

    lemma ReadyOwn()
      requires Ready()
      ensures listening.Valid() && DistinctQueues(Items()) && Known(OwnDrained(), Items())
      ensures queueSet.Some? ==> Covered(OwnDrained(), queueSet.value, Items())
    {
      hide Covered, Head.Valid;
      OwnDrainedSets();
    }

    /** audio_event_iface_cleanup_listener: ends because enough handles are pending. */
    method CleanupListener()
      requires Ready()
      modifies this`queueSet, kernel
      ensures queueSet == None && kernel.os == old(CleanedUp())
    {
      hide Taking, Covered, Known, Drained, TakenApart, DistinctQueues, DrainedOpt, Head.Valid, Ready;
      ghost var items, base := Items(), OwnDrained();
      ReadyOwn();
      Discard(items);
      DetachAll(base, items);
      if queueSet.Some? {
        TakingEnds(base, kernel.os, queueSet.value, items);
        kernel.os := DeleteSet(kernel.os, queueSet.value);
        queueSet := None;
      }
    }

    ghost predicate Detached(base: OS, items: seq<Item>, i: nat)
      reads this, kernel
    {
      if queueSet.Some? then Taking(base, kernel.os, queueSet.value, items, i) else kernel.os == base
    }

    /** The traversal of the list. */
    method DetachAll(ghost base: OS, ghost items: seq<Item>)
      requires listening.Valid() && items == Items() && DistinctQueues(items) && Detached(base, items, 0)
      modifies kernel
      ensures Detached(base, items, |items|)
    {
      hide Taking, DistinctQueues, Detached, Head.Valid;
      ghost var i := 0;
      var item := listening.first;
      FirstListed(listening);
      while item != Null
        invariant i <= |items| && item == LinkAt(listening.elems, i)
        invariant Detached(base, items, i)
        decreases |items| - i
      {
        var tmp := NextListed(listening, item, i);
        Detach(item.e.val.queue, base, items, i);
        item := tmp;
        i := i + 1;
      }
    }

    method Detach(q: QId, ghost base: OS, ghost items: seq<Item>, ghost i: nat)
      requires DistinctQueues(items) && i < |items| && q == items[i].queue && Detached(base, items, i)
      modifies kernel
      ensures Detached(base, items, i + 1)
    {
      hide Taking, DistinctQueues;
      if queueSet.Some? {
        RemoveOne(q, base, items, i);
      } else {
        var m := Read();
      }
    }

    /** Reads until the queue can be taken out of the set. */
    method RemoveOne(q: QId, ghost base: OS, ghost items: seq<Item>, ghost i: nat)
      requires queueSet.Some? && DistinctQueues(items) && i < |items| && q == items[i].queue
      requires Taking(base, kernel.os, queueSet.value, items, i)
      modifies kernel
      ensures Taking(base, kernel.os, queueSet.value, items, i + 1)
    {
      hide Taking, RemoveFromSet, Pending;
      ReadAll(base, items, i);
      RemoveKeepsTaking(base, kernel.os, queueSet.value, items, i);
      var ok := RemoveFromSet(kernel.os, q, queueSet.value).1;
      kernel.os := RemoveFromSet(kernel.os, q, queueSet.value).0;
      while !ok
        invariant ok ==> Taking(base, kernel.os, queueSet.value, items, i + 1)
        invariant !ok ==> Taking(base, kernel.os, queueSet.value, items, i)
                          && HandlesOf(kernel.os, queueSet.value) != []
        decreases !ok, |HandlesOf(kernel.os, queueSet.value)|
      {
        ReadAll(base, items, i);
        RemoveKeepsTaking(base, kernel.os, queueSet.value, items, i);
        ok := RemoveFromSet(kernel.os, q, queueSet.value).1;
        kernel.os := RemoveFromSet(kernel.os, q, queueSet.value).0;
      }
    }

    /** audio_event_iface_update_listener: fails at the first listed queue that already is in a set, or
        that is listed twice, and leaves the set built up to there. */
    method UpdateListener() returns (err: Err)
      requires listening.Valid() && Sized(kernel.os, Items()) && queueSet == None
      modifies this`queueSet, kernel
      ensures kernel.os == BuiltTo(old(kernel.os), Items(), Accepted(old(kernel.os), Items(), 0))
      ensures err == if Accepted(old(kernel.os), Items(), 0) == |Items()| then OK else FAIL
      ensures queueSet == if Items() == [] then None else Some(old(kernel.os).nextSet)
    {
      ghost var items, base := Items(), kernel.os;
      TotalSizeZero(base, items);
      hide Sized, BuiltTo, Head.Valid, Building, Accepted;
      var queueSize := SumSizes();
      if queueSize != 0 {
        queueSet := Some(CreateSet(kernel.os, queueSize).1);
        kernel.os := CreateSet(kernel.os, queueSize).0;
        BuildingStarts(base, items);
        err := AddAll(base, items);
      } else {
        BuiltNothing(base);
        err := OK;
      }
    }

    method SumSizes() returns (total: nat)
      requires listening.Valid()
      ensures total == TotalSize(Items())
    {
      hide Head.Valid;
      ghost var items, i := Items(), 0;
      total := 0;
      var item := listening.first;
      FirstListed(listening);
      while item != Null
        invariant i <= |items| && item == LinkAt(listening.elems, i) && total == TotalSize(items[..i])
        decreases |items| - i
      {
        assert items[..i + 1][..i] == items[..i];
        var tmp := NextListed(listening, item, i);
        total := total + item.e.val.size;
        item := tmp;
        i := i + 1;
      }
      assert items[..|items|] == items;
    }

    /** Empties each listed queue and adds it to the new set. */
    method AddAll(ghost base: OS, ghost items: seq<Item>) returns (err: Err)
      requires listening.Valid() && items == Items() != [] && Sized(base, items)
      requires queueSet == Some(base.nextSet) && Building(base, kernel.os, items, 0)
      modifies kernel
      ensures kernel.os == BuiltTo(base, items, Accepted(base, items, 0))
      ensures err == if Accepted(base, items, 0) == |items| then OK else FAIL
    {
      hide Sized, Building, Head.Valid, AddToSet, BuiltTo, Fits, Drained;
      ghost var i := 0;
      var item := listening.first;
      FirstListed(listening);
      while item != Null
        invariant i <= |items| && item == LinkAt(listening.elems, i)
        invariant Building(base, kernel.os, items, i) && Accepted(base, items, 0) == Accepted(base, items, i)
        decreases |items| - i
      {
        var tmp := NextListed(listening, item, i);
        var q := item.e.val.queue;
        if Fits(base, items, i) {
          BuildingStep(base, kernel.os, items, i);
        } else {
          BuildingFails(base, kernel.os, items, i);
        }
        kernel.DrainQueue(q);
        var ok := AddToSet(kernel.os, q, queueSet.value).1;
        kernel.os := AddToSet(kernel.os, q, queueSet.value).0;
        if !ok { return FAIL; }
        item := tmp;
        i := i + 1;
      }
      BuildingEnds(base, kernel.os, items);
      return OK;
    }

    /** The listener is in order: as many handles as messages, and room for all. */
    ghost predicate InOrder()
      reads this, kernel, listening, listening.elems
    {
      && listening.Valid()
      && (queueSet.Some? ==> Exact(kernel.os, queueSet.value, Items()))
      && (queueSet.None? ==> Items() == [])
    }

    /** A listener that can never be cleaned up again: the loop over its queues does not end. */
    ghost predicate Refused()
      reads this, kernel, listening, listening.elems
    {
      Held() && queueSet.Some? && !CleanupEnds(OwnDrained(), queueSet.value, QueuesOf(Items()))
    }

    /** audio_event_iface_set_listener: this interface starts to listen to the external queue of `evt`. If
        that queue is in a set already, the call fails, yet the queue stays in the list. */
    method SetListener(evt: Iface) returns (err: Err)
      requires Ready() && CanListen(kernel.os, evt.externalQueue, evt.externalSize)
      modifies this`queueSet, kernel, listening, listening.elems
      ensures evt.externalQueue.None? || evt.externalSize == 0 ==>
                && err == INVALID_ARG && kernel.os == old(kernel.os) && queueSet == old(queueSet)
                && Items() == old(Items()) && Ready() && (old(InOrder()) ==> InOrder())
      ensures evt.externalQueue.Some? && evt.externalSize > 0 ==>
                && Items() == old(Items()) + [Item(evt.externalQueue.value, evt.externalSize)]
                && err == (if HomeIs(old(kernel.os), evt.externalQueue.value, None) then OK else FAIL)
                && queueSet == Some(old(kernel.os).nextSet)
      ensures err.OK? ==> InOrder() && Ready() && kernel.os == BuiltUp(old(CleanedUp()), Items())
      ensures err.FAIL? ==> Refused() && kernel.os == BuiltTo(old(CleanedUp()), Items(), |old(Items())|)
      ensures forall e <- listening.elems :: e in old(listening.elems) || fresh(e)
    {
      if evt.externalQueue.None? || evt.externalSize == 0 { return INVALID_ARG; }
      err := Listen(evt.externalQueue.value, evt.externalSize);
    }

    /** audio_event_iface_set_msg_listener: the same for its internal queue. */
    method SetMsgListener(evt: Iface) returns (err: Err)
      requires Ready() && CanListen(kernel.os, evt.internalQueue, evt.internalSize)
      modifies this`queueSet, kernel, listening, listening.elems
      ensures evt.internalQueue.None? || evt.internalSize == 0 ==>
                && err == INVALID_ARG && kernel.os == old(kernel.os) && queueSet == old(queueSet)
                && Items() == old(Items()) && Ready() && (old(InOrder()) ==> InOrder())
      ensures evt.internalQueue.Some? && evt.internalSize > 0 ==>
                && Items() == old(Items()) + [Item(evt.internalQueue.value, evt.internalSize)]
                && err == (if HomeIs(old(kernel.os), evt.internalQueue.value, None) then OK else FAIL)
                && queueSet == Some(old(kernel.os).nextSet)
      ensures err.OK? ==> InOrder() && Ready() && kernel.os == BuiltUp(old(CleanedUp()), Items())
      ensures err.FAIL? ==> Refused() && kernel.os == BuiltTo(old(CleanedUp()), Items(), |old(Items())|)
      ensures forall e <- listening.elems :: e in old(listening.elems) || fresh(e)
    {
      if evt.internalQueue.None? || evt.internalSize == 0 { return INVALID_ARG; }
      err := Listen(evt.internalQueue.value, evt.internalSize);
    }

    method Listen(q: QId, size: nat) returns (err: Err)
      requires Ready() && size > 0 && CanListen(kernel.os, Some(q), size)
      modifies this`queueSet, kernel, listening, listening.elems
      ensures Items() == old(Items()) + [Item(q, size)]
      ensures err == if HomeIs(old(kernel.os), q, None) then OK else FAIL
      ensures queueSet == Some(old(kernel.os).nextSet)
      ensures err.OK? ==> InOrder() && Ready() && kernel.os == BuiltUp(old(CleanedUp()), Items())
      ensures err.FAIL? ==> Refused() && kernel.os == BuiltTo(old(CleanedUp()), Items(), |old(Items())|)
      ensures forall e <- listening.elems :: e in old(listening.elems) || fresh(e)
    {
      CleanupFacts(q, size);
      hide *;
      CleanupListener();
      err := ListAlso(q, size);
    }

    /** One more queue in the list of a listener that has no set at the moment, and a new set for all. */
    method ListAlso(q: QId, size: nat) returns (err: Err)
      requires listening.Valid() && HomesCreated(kernel.os) && queueSet == None
      requires Known(kernel.os, Items()) && AllHome(kernel.os, Items(), None)
      requires q in kernel.os.queues && kernel.os.queues[q].size == size > 0
      modifies this`queueSet, kernel, listening, listening.elems
      ensures Items() == old(Items()) + [Item(q, size)] && queueSet == Some(old(kernel.os).nextSet)
      ensures err == if HomeIs(old(kernel.os), q, None) && !Lists(old(Items()), q) then OK else FAIL
      ensures err.OK? ==> InOrder() && Ready() && kernel.os == BuiltUp(old(kernel.os), Items())
      ensures err.FAIL? ==> Refused() && kernel.os == BuiltTo(old(kernel.os), Items(), |old(Items())|)
      ensures forall e <- listening.elems :: e in old(listening.elems) || fresh(e)
    {
      hide *;
      ghost var items, os := Items(), kernel.os;
      Append(Item(q, size));
      OneMore(os, items, q, size);
      err := UpdateListener();
      Listened(os, items, q, size);
    }

    /** What rebuilding the set with one more queue leads to. */
    lemma Listened(os: OS, items: seq<Item>, q: QId, size: nat)
      requires Known(os, items) && HomesCreated(os) && AllHome(os, items, None)
      requires q in os.queues && os.queues[q].size == size > 0
      requires listening.Valid() && Items() == items + [Item(q, size)] && queueSet == Some(os.nextSet)
      requires kernel.os == BuiltTo(os, Items(), Accepted(os, Items(), 0))
      ensures HomeIs(os, q, None) && !Lists(items, q) ==> InOrder() && Ready() && kernel.os == BuiltUp(os, Items())
      ensures !(HomeIs(os, q, None) && !Lists(items, q)) ==> Refused() && kernel.os == BuiltTo(os, Items(), |items|)
    {
      hide Known, Sized, HomesCreated, AllHome, HomeIs, Lists, BuiltTo, Accepted, InOrder, Ready, Refused, Head.Valid,
           NoRepeats, QueuesOf;
      OneMore(os, items, q, size);
      if HomeIs(os, q, None) && !Lists(items, q) {
        BuiltUpListens(os, Items(), queueSet);
        BuiltHomes(os, Items());
        SetIsInOrder();
      } else {
        OneTooMany(os, items, q, size);
        ListenerRefused();
      }
    }

    /** audio_event_iface_remove_listener: this interface no longer listens to the external queue of `evt`. */
    method RemoveListener(evt: Iface) returns (err: Err)
      requires Ready()
      modifies this`queueSet, kernel, listening, listening.elems
      ensures evt.externalQueue.None? || evt.externalSize == 0 ==>
                && err == INVALID_ARG && kernel.os == old(kernel.os) && queueSet == old(queueSet)
                && Items() == old(Items()) && Ready() && (old(InOrder()) ==> InOrder())
      ensures evt.externalQueue.Some? && evt.externalSize > 0 ==>
                && err == OK && InOrder() && Ready()
                && Items() == Without(old(Items()), evt.externalQueue.value)
                && kernel.os == BuiltUp(old(CleanedUp()), Items())
                && queueSet == if Items() == [] then None else Some(old(kernel.os).nextSet)
      ensures forall e <- listening.elems :: e in old(listening.elems) || fresh(e)
    {
      if evt.externalQueue.None? || evt.externalSize == 0 { return INVALID_ARG; }
      err := Unlisten(evt.externalQueue.value);
    }

    method Unlisten(q: QId) returns (err: Err)
      requires Ready()
      modifies this`queueSet, kernel, listening, listening.elems
      ensures err == OK && InOrder() && Ready() && Items() == Without(old(Items()), q)
      ensures kernel.os == BuiltUp(old(CleanedUp()), Items())
      ensures queueSet == if Items() == [] then None else Some(old(kernel.os).nextSet)
      ensures forall e <- listening.elems :: e in old(listening.elems) || fresh(e)
    {
      RemovalFacts(q);
      hide *;
      CleanupListener();
      Delete(q);
      err := Rebuild();
    }

    /** A new set for listed queues that all exist and are in no set. */
    method Rebuild() returns (err: Err)
      requires listening.Valid() && HomesCreated(kernel.os) && queueSet == None
      requires Known(kernel.os, Items()) && AllHome(kernel.os, Items(), None)
      modifies this`queueSet, kernel
      ensures err == OK && InOrder() && Ready()
      ensures kernel.os == BuiltUp(old(kernel.os), Items())
      ensures queueSet == if Items() == [] then None else Some(old(kernel.os).nextSet)
    {
      hide *;
      ghost var os := kernel.os;
      KnownFits(os, Items());
      err := UpdateListener();
      BuiltHomes(os, Items());
      if Items() == [] {
        NothingListed();
      } else {
        BuiltUpListens(os, Items(), queueSet);
        SetIsInOrder();
      }
    }

    method Delete(q: QId)
      requires listening.Valid()
      modifies listening, listening.elems
      ensures listening.Valid() && Items() == Without(old(Items()), q)
      ensures forall e <- listening.elems :: e in old(listening.elems) || fresh(e)
    {
      hide Head.Valid, Without;
      RestVals(listening.elems, q);
      RestOf(listening.elems, (item: Item) => item.queue == q);
      ghost var visited := listening.RemoveMatching((item: Item) => item.queue == q);
    }

    lemma RemovalFacts(q: QId)
      requires Ready()
      ensures listening.Valid() && HomesCreated(CleanedUp()) && CleanedUp().nextSet == kernel.os.nextSet
      ensures Known(CleanedUp(), Without(Items(), q)) && AllHome(CleanedUp(), Without(Items(), q), None)
    {
      CleanedFacts();
      hide Known, AllHome, CleanedUp, Head.Valid, Ready, HomesCreated;
      WithoutKnown(CleanedUp(), Items(), q);
    }

    lemma NothingListed()
      requires listening.Valid() && HomesCreated(kernel.os) && Items() == [] && queueSet == None
      ensures InOrder() && Ready()
    {
    }

    /** audio_event_iface_sendout: without an external queue the message is dropped silently. */
    method Sendout(m: Msg) returns (err: Err)
      requires externalQueue.Some? ==> externalQueue.value in kernel.os.queues
      modifies kernel
      ensures (kernel.os, err) == Posted(old(kernel.os), externalQueue, m)
    {
      err := Post(externalQueue, m);
    }

    /** audio_event_iface_cmd */
    method Command(m: Msg) returns (err: Err)
      requires internalQueue.Some? ==> internalQueue.value in kernel.os.queues
      modifies kernel
      ensures (kernel.os, err) == Posted(old(kernel.os), internalQueue, m)
    {
      err := Post(internalQueue, m);
    }

    method Post(q: Option<QId>, m: Msg) returns (err: Err)
      requires q.Some? ==> q.value in kernel.os.queues
      modifies kernel
      ensures (kernel.os, err) == Posted(old(kernel.os), q, m)
    {
      err := OK;
      if q.Some? {
        err := if Send(kernel.os, q.value, m).1 then OK else FAIL;
        kernel.os := Send(kernel.os, q.value, m).0;
      }
    }

    /** audio_event_iface_destroy */
    method Destroy()
      requires Ready()
      modifies this`queueSet, kernel, listening, listening.elems
      ensures listening.Valid() && Items() == [] && queueSet == None
      ensures var os := old(CleanedUp());
              var os1 := if internalQueue.Some? then DeleteQueue(os, internalQueue.value) else os;
              kernel.os == if externalQueue.Some? then DeleteQueue(os1, externalQueue.value) else os1
    {
      hide TakenApart, DrainedOpt, Known, Covered, AllHome, Head.Valid;
      ReadyIsValid();
      CleanupListener();
      RestNothing(listening.elems);
      ghost var visited := listening.RemoveMatching((item: Item) => true);
      if internalQueue.Some? { kernel.os := DeleteQueue(kernel.os, internalQueue.value); }
      if externalQueue.Some? { kernel.os := DeleteQueue(kernel.os, externalQueue.value); }
    }

    lemma ReadyIsValid()
      requires Ready()
      ensures listening.Valid()
    {
    }

    method Append(item: Item)
      requires listening.Valid()
      modifies listening, listening.elems
      ensures listening.Valid() && Items() == old(Items()) + [item]
      ensures forall e <- listening.elems :: e in old(listening.elems) || fresh(e)
    {
      hide Head.Valid;
      var elem := new Elem(item);
      listening.InsertTail(elem);
    }

    lemma SetIsInOrder()
      requires listening.Valid() && HomesCreated(kernel.os)
      requires queueSet.Some? && Exact(kernel.os, queueSet.value, Items())
      ensures InOrder() && Ready()
    {
      ExactCovers(kernel.os, queueSet.value, Items());
      OwnDrainedCovered(kernel.os, Items());
      hide Head.Valid, Covered, HomesCreated, DrainedOpt;
    }

    lemma ListenerRefused()
      requires listening.Valid() && queueSet.Some? && Items() != []
      requires Sized(kernel.os, Items()) && HomesCreated(kernel.os)
      requires queueSet.value in kernel.os.sets && HandlesOf(kernel.os, queueSet.value) == []
      requires !NoRepeats(QueuesOf(Items())) || !HomeIs(kernel.os, Items()[|Items()| - 1].queue, queueSet)
      ensures Refused()
    {
      hide Head.Valid, CleanupEnds, Sized, HomesCreated, NoRepeats;
      var qs := QueuesOf(Items());
      CleanupEndsExactly(OwnDrained(), queueSet.value, qs);
      OwnDrainedSets();
      if NoRepeats(qs) { assert !Removable(OwnDrained(), queueSet.value, qs[|qs| - 1]); }
    }

    lemma CleanedFacts()
      requires Ready()
      ensures listening.Valid() && HomesCreated(CleanedUp()) && CleanedUp().nextSet == kernel.os.nextSet
      ensures Known(CleanedUp(), Items()) && AllHome(CleanedUp(), Items(), None)
      ensures CleanedUp().queues.Keys == kernel.os.queues.Keys
      ensures forall q <- kernel.os.queues :: CleanedUp().queues[q].size == kernel.os.queues[q].size
      ensures forall q <- kernel.os.queues ::
              !Lists(Items(), q) ==> CleanedUp().queues[q].home == kernel.os.queues[q].home
    {
      hide Covered, Lists, Drained, DrainedOpt, Head.Valid;
      ReadyOwn();
      OwnDrainedSets();
      CleanedKnown(OwnDrained(), queueSet, Items());
    }

    lemma CleanupFacts(q: QId, size: nat)
      requires Ready() && size > 0 && CanListen(kernel.os, Some(q), size)
      ensures listening.Valid() && HomesCreated(CleanedUp()) && CleanedUp().nextSet == kernel.os.nextSet
      ensures Known(CleanedUp(), Items()) && AllHome(CleanedUp(), Items(), None)
      ensures q in CleanedUp().queues && CleanedUp().queues[q].size == size
      ensures HomeIs(CleanedUp(), q, None) && !Lists(Items(), q) <==> HomeIs(kernel.os, q, None)
    {
      CleanedFacts();
      hide Known, Drained, DrainedOpt, TakenApart, Head.Valid, HomesCreated, CleanedUp, Sized;
      if Lists(Items(), q) {
        var i :| 0 <= i < |Items()| && Items()[i].queue == q;
        OwnDrainedSets();
        if queueSet.Some? { assert HomeIs(OwnDrained(), Items()[i].queue, queueSet); }
      }
    }
  }

  function Posted(os: OS, q: Option<QId>, m: Msg): (OS, Err)
    requires q.Some? ==> q.value in os.queues
  {
    if q.None? then (os, OK) else (Send(os, q.value, m).0, if Send(os, q.value, m).1 then OK else FAIL)
  }

  /** The list without the queue. */
  function Without(items: seq<Item>, q: QId): seq<Item> {
    if items == [] then []
    else if items[0].queue == q then Without(items[1..], q)
    else [items[0]] + Without(items[1..], q)
  }

  lemma {:induction false} RestVals(elems: seq<Elem<Item>>, q: QId)
    ensures Vals(Rest(elems, (item: Item) => item.queue == q)) == Without(Vals(elems), q)
  {
    if elems != [] {
      RestVals(elems[1..], q);
      assert Vals(elems)[1..] == Vals(elems[1..]);
    }
  }

  lemma {:induction false} RestOf(elems: seq<Elem<Item>>, p: Item -> bool)
    ensures forall e <- Rest(elems, p) :: e in elems
  {
    if elems != [] { RestOf(elems[1..], p); }
  }

  lemma {:induction false} RestNothing(elems: seq<Elem<Item>>)
    ensures Rest(elems, (item: Item) => true) == []
  {
    if elems != [] { RestNothing(elems[1..]); }
  }

  lemma {:induction false} WithoutListed(items: seq<Item>, q: QId)
    requires DistinctQueues(items)
    ensures DistinctQueues(Without(items, q)) && !Lists(Without(items, q), q)
    ensures forall item :: item in Without(items, q) <==> item in items && item.queue != q
  {
    if items != [] {
      WithoutListed(items[1..], q);
      var rest := Without(items[1..], q);
      assert forall item :: item in items <==> item == items[0] || item in items[1..];
      forall item | item in rest ensures item.queue != items[0].queue {
        assert item in items[1..];
      }
      if items[0].queue != q { DistinctCons(items[0], rest); }
    }
  }

  lemma DistinctCons(item: Item, rest: seq<Item>)
    requires DistinctQueues(rest) && forall r <- rest :: r.queue != item.queue
    ensures DistinctQueues([item] + rest)
  {
    var more := [item] + rest;
    forall i, j | 0 <= i < j < |more| ensures more[i].queue != more[j].queue {
      assert more[j] == rest[j - 1];
      if i > 0 { assert more[i] == rest[i - 1]; }
    }
  }

  lemma WithoutKnown(os: OS, items: seq<Item>, q: QId)
    requires Known(os, items) && AllHome(os, items, None)
    ensures Known(os, Without(items, q)) && AllHome(os, Without(items, q), None)
  {
    WithoutListed(items, q);
    var rest := Without(items, q);
    forall i | 0 <= i < |rest|
      ensures HomeIs(os, rest[i].queue, None) && os.queues[rest[i].queue].size == rest[i].size > 0
    {
      assert rest[i] in items;
      var j :| 0 <= j < |items| && items[j] == rest[i];
      assert HomeIs(os, items[j].queue, None);
    }
  }

  lemma CleanedKnown(os: OS, t: Option<SetId>, items: seq<Item>)
    requires Known(os, items) && (t.None? ==> items == [])
    ensures var os' := if t.Some? then TakenApart(os, t.value, items) else os;
            && Known(os', items) && AllHome(os', items, None)
            && os'.queues.Keys == os.queues.Keys
            && forall q <- os.queues :: !Lists(items, q) ==> os'.queues[q] == os.queues[q]
  {
    forall i | 0 <= i < |items| ensures Lists(items, items[i].queue) {
    }
  }

  /** A queue listened to by one listener (set 0) is offered to a second one: it is refused, its message is
      lost all the same while the first listener's handle stays, and the second listener, whose list now
      holds it, can never be cleaned up. */
  lemma SecondListenerStuck()
    ensures var items := [Item(0, 1)];
            var os := OS(map[0 := Queue(1, [5], Some(0))], map[0 := QueueSet(1, [0])], 1);
            var after := BuiltTo(os, items, Accepted(os, items, 0));
            && Accepted(os, items, 0) == 0 && MsgsOf(after, 0) == [] && HandlesOf(after, 0) == [0]
            && !CleanupEnds(after, 1, QueuesOf(items))
  {
    var items := [Item(0, 1)];
    var os := OS(map[0 := Queue(1, [5], Some(0))], map[0 := QueueSet(1, [0])], 1);
    assert !Fits(os, items, 0);
    var after := BuiltTo(os, items, 0);
    assert !HomeIs(after, QueuesOf(items)[0], Some(1));
    CleanupEndsExactly(after, 1, QueuesOf(items));
    assert !Removable(after, 1, QueuesOf(items)[0]);
  }

  lemma KnownFits(os: OS, items: seq<Item>)
    requires Known(os, items) && AllHome(os, items, None)
    ensures Sized(os, items) && Accepted(os, items, 0) == |items|
    ensures BuiltTo(os, items, |items|) == BuiltUp(os, items)
  {
    hide BuiltTo, Sized, AllHome, Accepted, DistinctQueues;
    FitsAll(os, items);
  }

  lemma BuiltHomes(os: OS, items: seq<Item>)
    requires HomesCreated(os)
    ensures HomesCreated(BuiltUp(os, items))
  {
  }

  /** Of a list of queues in no set, all are accepted; one more is, if it is in no set and not listed. */
  lemma OneMore(os: OS, items: seq<Item>, q: QId, size: nat)
    requires Known(os, items) && AllHome(os, items, None)
    requires q in os.queues && os.queues[q].size == size > 0
    ensures var more := items + [Item(q, size)]; var fits := HomeIs(os, q, None) && !Lists(items, q);
            && Sized(os, more) && Accepted(os, more, 0) == (if fits then |more| else |items|)
            && (fits ==> Known(os, more))
  {
    var more := items + [Item(q, size)];
    assert more[|items|].queue == q && more[..|items|] == items;
    AcceptedAll(os, more, 0);
    FitsAll(os, more);
    FitsAll(os, items);
    AcceptedAll(os, items, 0);
    forall j | 0 <= j < |items| ensures Fits(os, more, j) {
      assert Fits(os, items, j) && more[..j] == items[..j];
    }
  }

  /** A queue that was not accepted can never be taken out of the set it is listed for. */
  lemma OneTooMany(os: OS, items: seq<Item>, q: QId, size: nat)
    requires Known(os, items) && HomesCreated(os) && q in os.queues && os.queues[q].size == size > 0
    requires !(HomeIs(os, q, None) && !Lists(items, q)) && AllHome(os, items, None)
    ensures var more := items + [Item(q, size)]; var os' := BuiltTo(os, more, |items|);
            && Sized(os', more) && HomesCreated(os') && os.nextSet in os'.sets && HandlesOf(os', os.nextSet) == []
            && (!NoRepeats(QueuesOf(more)) || !HomeIs(os', q, Some(os.nextSet)))
            && |more| > 0 && more[|more| - 1].queue == q
  {
    var more := items + [Item(q, size)];
    var os' := BuiltTo(os, more, |items|);
    assert more[..|items|] == items;
    if Lists(items, q) {
      var i :| 0 <= i < |items| && items[i].queue == q;
      assert QueuesOf(more)[i] == q == QueuesOf(more)[|items|];
    }
  }

  lemma BuiltUpListens(os: OS, items: seq<Item>, t: Option<SetId>)
    requires Known(os, items) && items != [] && t == Some(os.nextSet)
    ensures Exact(BuiltUp(os, items), t.value, items)
  {
    hide Exact, BuiltUp;
    BuiltUpExact(os, items);
  }

  predicate SameHomes(os: OS, os': OS) {
    && os'.queues.Keys == os.queues.Keys
    && forall q <- os.queues :: os'.queues[q].home == os.queues[q].home && os'.queues[q].size == os.queues[q].size
  }

  /** A queue that can be listened to exists and has the size its owner says. */
  predicate CanListen(os: OS, q: Option<QId>, size: nat) {
    q.Some? && size > 0 ==> q.value in os.queues && os.queues[q.value].size == size
  }

  lemma TotalSizeZero(os: OS, items: seq<Item>)
    requires Sized(os, items)
    ensures TotalSize(items) == 0 <==> items == []
  {
    if items != [] { assert items[|items| - 1].size > 0; }
  }

  lemma BuildingStarts(base: OS, items: seq<Item>)
    ensures Building(base, CreateSet(base, TotalSize(items)).0, items, 0)
  {
  }

  lemma BuiltNothing(os: OS)
    ensures BuiltTo(os, [], 0) == os && Accepted(os, [], 0) == 0
  {
  }

  method NextListed(list: Head<Item>, item: Link<Item>, ghost i: nat) returns (next: Link<Item>)
    requires list.Valid() && item.To? && item == LinkAt(list.elems, i)
    ensures next == LinkAt(list.elems, i + 1) && i < |list.elems| && item.e == list.elems[i]
  {
    next := item.e.next;
  }

  lemma FirstListed(list: Head<Item>)
    requires list.Valid()
    ensures list.first == LinkAt(list.elems, 0)
  {
  }

  lemma DrainedCovered(os: OS, t: SetId, items: seq<Item>, q: QId)
    requires Known(os, items) && Covered(os, t, items)
    ensures Known(Drained(os, q), items) && Covered(Drained(os, q), t, items)
  {
    var os' := Drained(os, q);
    forall i | 0 <= i < |items| ensures |MsgsOf(os', items[i].queue)| <= Pending(HandlesOf(os', t), items[i].queue) {
      assert |MsgsOf(os, items[i].queue)| <= Pending(HandlesOf(os, t), items[i].queue);
    }
  }

  lemma NothingSelected(os: OS, t: SetId)
    ensures HandlesOf(os, t) == [] ==> ReadSet(os, t) == (os, None)
  {
  }
}
