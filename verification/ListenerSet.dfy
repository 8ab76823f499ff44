/** The queue set of a listener: which queues are in it, how large it is, and why it never overflows. */
module ListenerSet {
  import opened Wrappers
  import opened Queues

  datatype Item = Item(queue: QId, size: nat)

  predicate DistinctQueues(items: seq<Item>) {
    forall i, j :: 0 <= i < j < |items| ==> items[i].queue != items[j].queue
  }

  predicate Lists(items: seq<Item>, q: QId) {
    exists i :: 0 <= i < |items| && items[i].queue == q
  }

  function TotalSize(items: seq<Item>): nat {
    if items == [] then 0 else TotalSize(items[..|items| - 1]) + items[|items| - 1].size
  }

  /** Listed queues exist and have the listed size, which is not zero. */
  predicate Sized(os: OS, items: seq<Item>) {
    forall i :: 0 <= i < |items| ==>
      items[i].queue in os.queues && os.queues[items[i].queue].size == items[i].size && items[i].size > 0
  }

  predicate Known(os: OS, items: seq<Item>) {
    DistinctQueues(items) && Sized(os, items)
  }

  predicate AllHome(os: OS, items: seq<Item>, home: Option<SetId>) {
    forall i :: 0 <= i < |items| ==> HomeIs(os, items[i].queue, home)
  }

  predicate OnlyListed(handles: seq<QId>, items: seq<Item>) {
    forall k :: 0 <= k < |handles| ==> Lists(items, handles[k])
  }

  /** Enough handles are pending to find every message: what taking the set apart needs. */
  predicate Covered(os: OS, t: SetId, items: seq<Item>) {
    && t in os.sets && AllHome(os, items, Some(t)) && OnlyListed(HandlesOf(os, t), items)
    && forall i :: 0 <= i < |items| ==> |MsgsOf(os, items[i].queue)| <= Pending(HandlesOf(os, t), items[i].queue)
  }

  /** One handle for each message of each listed queue, in a set sized for all of them. */
  predicate Exact(os: OS, t: SetId, items: seq<Item>) {
    && Known(os, items) && t in os.sets && AllHome(os, items, Some(t)) && OnlyListed(HandlesOf(os, t), items)
    && os.sets[t].capacity == TotalSize(items)
    && forall i :: 0 <= i < |items| ==>
         Pending(HandlesOf(os, t), items[i].queue) == |MsgsOf(os, items[i].queue)| <= items[i].size
  }

  // ---------- the set never overflows ----------

  function TotalPending(handles: seq<QId>, items: seq<Item>): nat {
    if items == [] then 0 else TotalPending(handles, items[..|items| - 1]) + Pending(handles, items[|items| - 1].queue)
  }

  lemma {:induction false} PendingHead(handles: seq<QId>, items: seq<Item>)
    requires handles != [] && DistinctQueues(items)
    ensures TotalPending(handles, items) == TotalPending(handles[1..], items) +
            if Lists(items, handles[0]) then 1 else 0
    decreases items
  {
    if items != [] {
      var init, last := items[..|items| - 1], items[|items| - 1];
      PendingHead(handles, init);
      if last.queue == handles[0] {
        assert !Lists(init, handles[0]);
        assert items[|items| - 1].queue == handles[0];
      } else {
        if Lists(items, handles[0]) {
          var i :| 0 <= i < |items| && items[i].queue == handles[0];
          assert init[i].queue == handles[0];
        }
        if Lists(init, handles[0]) {
          var i :| 0 <= i < |init| && init[i].queue == handles[0];
          assert items[i].queue == handles[0];
        }
      }
    }
  }

  lemma {:induction false} HandlesCounted(handles: seq<QId>, items: seq<Item>)
    requires DistinctQueues(items) && OnlyListed(handles, items)
    ensures TotalPending(handles, items) == |handles|
    decreases handles
  {
    if handles == [] {
      NothingPending(items);
    } else {
      PendingHead(handles, items);
      HandlesCounted(handles[1..], items);
    }
  }

  lemma {:induction false} NothingPending(items: seq<Item>)
    ensures TotalPending([], items) == 0
  {
    if items != [] { NothingPending(items[..|items| - 1]); }
  }

  /** As long as one listed queue has room for a message, the set has room for its handle. */
  lemma {:induction false} PendingBelowSize(handles: seq<QId>, items: seq<Item>)
    requires forall i :: 0 <= i < |items| ==> Pending(handles, items[i].queue) <= items[i].size
    ensures TotalPending(handles, items) <= TotalSize(items)
    ensures (exists i :: 0 <= i < |items| && Pending(handles, items[i].queue) < items[i].size)
            ==> TotalPending(handles, items) < TotalSize(items)
  {
    if items != [] {
      var init := items[..|items| - 1];
      PendingBelowSize(handles, init);
      if i :| 0 <= i < |items| && Pending(handles, items[i].queue) < items[i].size {
        if i < |items| - 1 { assert Pending(handles, init[i].queue) < init[i].size; }
      }
    }
  }

  lemma NeverOverflows(os: OS, t: SetId, items: seq<Item>, q: QId)
    requires Exact(os, t, items) && Lists(items, q) && |MsgsOf(os, q)| < os.queues[q].size
    ensures |HandlesOf(os, t)| < os.sets[t].capacity
  {
    var i :| 0 <= i < |items| && items[i].queue == q;
    assert Pending(HandlesOf(os, t), items[i].queue) < items[i].size;
    HandlesCounted(HandlesOf(os, t), items);
    PendingBelowSize(HandlesOf(os, t), items);
  }

  // ---------- sending and reading keep it exact ----------

  /** Any send by anyone: to a listed queue it posts exactly one handle, and none is ever lost. */
  lemma SendKeepsExact(os: OS, t: SetId, items: seq<Item>, q: QId, m: Msg)
    requires Exact(os, t, items) && q in os.queues && (Lists(items, q) || os.queues[q].home != Some(t))
    ensures Exact(Send(os, q, m).0, t, items)
    ensures Send(os, q, m).1 && Lists(items, q) ==> HandlesOf(Send(os, q, m).0, t) == HandlesOf(os, t) + [q]
    ensures Send(os, q, m).1 <==> |MsgsOf(os, q)| < os.queues[q].size
  {
    hide Pending, TotalSize;
    var os' := Send(os, q, m).0;
    if Lists(items, q) && Send(os, q, m).1 {
      NeverOverflows(os, t, items, q);
      ListedHome(os, items, q, Some(t));
      forall i | 0 <= i < |items|
        ensures Pending(HandlesOf(os', t), items[i].queue) == |MsgsOf(os', items[i].queue)| <= items[i].size
      {
        PendingConcat(HandlesOf(os, t), [q], items[i].queue);
        PendingOne(q, items[i].queue);
      }
    }
  }

  lemma PendingOne(q: QId, p: QId)
    ensures Pending([q], p) == if q == p then 1 else 0
  {
    assert [q][1..] == [];
  }

  lemma ListedHome(os: OS, items: seq<Item>, q: QId, home: Option<SetId>)
    requires AllHome(os, items, home) && Lists(items, q)
    ensures HomeIs(os, q, home)
  {
  }

  /** A read delivers a message whenever a handle is pending, and keeps the counts exact. */
  lemma ReadKeepsExact(os: OS, t: SetId, items: seq<Item>)
    requires Exact(os, t, items)
    ensures Exact(ReadSet(os, t).0, t, items)
    ensures ReadSet(os, t).1.Some? <==> exists i :: 0 <= i < |items| && MsgsOf(os, items[i].queue) != []
  {
    var handles := HandlesOf(os, t);
    if handles == [] {
      forall i | 0 <= i < |items| ensures MsgsOf(os, items[i].queue) == [] { assert Pending([], items[i].queue) == 0; }
    } else {
      ReadSetEffect(os, t);
      var i :| 0 <= i < |items| && items[i].queue == handles[0];
      assert Pending(handles, items[i].queue) > 0;
      assert MsgsOf(os, items[i].queue) != [];
      ReadExactEach(os, t, items);
    }
  }

  lemma ReadExactEach(os: OS, t: SetId, items: seq<Item>)
    requires Exact(os, t, items) && HandlesOf(os, t) != []
    ensures Exact(ReadSet(os, t).0, t, items)
  {
    ReadSetEffect(os, t);
    var os' := ReadSet(os, t).0;
    assert OnlyListed(HandlesOf(os', t), items);
    forall i | 0 <= i < |items|
      ensures Pending(HandlesOf(os', t), items[i].queue) == |MsgsOf(os', items[i].queue)| <= items[i].size
    {
      assert Pending(HandlesOf(os, t), items[i].queue) == |MsgsOf(os, items[i].queue)|;
    }
  }

  lemma ExactCovers(os: OS, t: SetId, items: seq<Item>)
    requires Exact(os, t, items)
    ensures Covered(os, t, items)
  {
  }

  /** Receiving from a member directly, past the set, still leaves enough handles to take it apart. */
  lemma DirectReceiveKeepsCovered(os: OS, t: SetId, items: seq<Item>, q: QId)
    requires Covered(os, t, items)
    ensures Covered(Receive(os, q).0, t, items)
  {
    var os' := Receive(os, q).0;
    forall i | 0 <= i < |items| ensures |MsgsOf(os', items[i].queue)| <= Pending(HandlesOf(os', t), items[i].queue) {
      assert |MsgsOf(os, items[i].queue)| <= Pending(HandlesOf(os, t), items[i].queue);
    }
  }

  /** But it makes the set overflow later: after queue 0 was drained directly, its stale handle uses up
      the place of queue 1, whose message then has no handle, so that taking queue 1 out never succeeds. */
  lemma DirectReceiveThenStuck()
    ensures var items := [Item(0, 1), Item(1, 1)];
            var os := OS(map[0 := Queue(1, [], Some(0)), 1 := Queue(1, [], Some(0))], map[0 := QueueSet(2, [])], 1);
            var os1 := Receive(Send(os, 0, 7).0, 0).0;
            var os2 := Send(Send(os1, 0, 8).0, 1, 9).0;
            && Exact(os, 0, items) && Covered(os1, 0, items)
            && forall n: nat :: !RemoveFromSet(AfterReads(os2, 0, n), 1, 0).1
  {
    var items := [Item(0, 1), Item(1, 1)];
    var os := OS(map[0 := Queue(1, [], Some(0)), 1 := Queue(1, [], Some(0))], map[0 := QueueSet(2, [])], 1);
    assert items[..1][..0] == [] && TotalSize(items[..1]) == 1;
    var os1 := Receive(Send(os, 0, 7).0, 0).0;
    var os2 := Send(Send(os1, 0, 8).0, 1, 9).0;
    SendKeepsExact(os, 0, items, 0, 7) by { assert items[0].queue == 0; }
    ExactCovers(Send(os, 0, 7).0, 0, items);
    DirectReceiveKeepsCovered(Send(os, 0, 7).0, 0, items, 0);
    assert HandlesOf(os1, 0) == [0] && HandlesOf(os2, 0) == [0, 0];
    assert [0, 0][1..] == [0] && [0][1..] == [];
    assert Surplus(os2, 0, 1) < 0;
    forall n: nat ensures !RemoveFromSet(AfterReads(os2, 0, n), 1, 0).1 { NeverEmptied(os2, 0, 1, n); }
  }
}
