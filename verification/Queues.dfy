/** What the event interface relies on from the operating system: message queues, and queue sets in
    which a handle is posted for each message sent to a member. */
module Queues {
  import opened Wrappers

  type Msg = nat
  type QId = nat
  type SetId = nat

  /** `home` is the set the queue is a member of. */
  datatype Queue = Queue(size: nat, msgs: seq<Msg>, home: Option<SetId>)
  datatype QueueSet = QueueSet(capacity: nat, handles: seq<QId>)

  datatype OS = OS(queues: map<QId, Queue>, sets: map<SetId, QueueSet>, nextSet: SetId)

  function WithMsgs(os: OS, q: QId, msgs: seq<Msg>): OS
    requires q in os.queues
  {
    os.(queues := os.queues[q := os.queues[q].(msgs := msgs)])
  }

  function WithHome(os: OS, q: QId, home: Option<SetId>): OS
    requires q in os.queues
  {
    os.(queues := os.queues[q := os.queues[q].(home := home)])
  }

  function WithHandles(os: OS, t: SetId, handles: seq<QId>): OS
    requires t in os.sets
  {
    os.(sets := os.sets[t := os.sets[t].(handles := handles)])
  }

  /** A full queue refuses the message; a full set loses the handle. */
  function Send(os: OS, q: QId, m: Msg): (OS, bool)
    requires q in os.queues
  {
    var s := os.queues[q];
    if |s.msgs| >= s.size then (os, false)
    else
      var sent := WithMsgs(os, q, s.msgs + [m]);
      if s.home.Some? && s.home.value in os.sets
          && |os.sets[s.home.value].handles| < os.sets[s.home.value].capacity then
        (WithHandles(sent, s.home.value, os.sets[s.home.value].handles + [q]), true)
      else (sent, true)
  }

  function Receive(os: OS, q: QId): (OS, Option<Msg>) {
    if q !in os.queues || os.queues[q].msgs == [] then (os, None)
    else (WithMsgs(os, q, os.queues[q].msgs[1..]), Some(os.queues[q].msgs[0]))
  }

  /** Takes the oldest handle, if any. */
  function Select(os: OS, t: SetId): (OS, Option<QId>) {
    if t !in os.sets || os.sets[t].handles == [] then (os, None)
    else (WithHandles(os, t, os.sets[t].handles[1..]), Some(os.sets[t].handles[0]))
  }

  /** Only an empty queue that is in no set can be added. */
  function AddToSet(os: OS, q: QId, t: SetId): (OS, bool) {
    if q in os.queues && os.queues[q].home.None? && os.queues[q].msgs == [] then (WithHome(os, q, Some(t)), true)
    else (os, false)
  }

  /** Only an empty member can be removed; its handles stay behind. */
  function RemoveFromSet(os: OS, q: QId, t: SetId): (OS, bool) {
    if q in os.queues && os.queues[q].home == Some(t) && os.queues[q].msgs == [] then (WithHome(os, q, None), true)
    else (os, false)
  }

  function CreateSet(os: OS, capacity: nat): (OS, SetId) {
    (os.(sets := os.sets[os.nextSet := QueueSet(capacity, [])], nextSet := os.nextSet + 1), os.nextSet)
  }

  function DeleteSet(os: OS, t: SetId): OS {
    os.(sets := os.sets - {t})
  }

  function DeleteQueue(os: OS, q: QId): OS {
    os.(queues := os.queues - {q})
  }

  /** How many handles of `q` are pending. */
  function Pending(handles: seq<QId>, q: QId): nat {
    if handles == [] then 0 else (if handles[0] == q then 1 else 0) + Pending(handles[1..], q)
  }

  lemma {:induction false} PendingConcat(xs: seq<QId>, ys: seq<QId>, q: QId)
    ensures Pending(xs + ys, q) == Pending(xs, q) + Pending(ys, q)
  {
    if xs == [] {
      assert xs + ys == ys;
    } else {
      assert (xs + ys)[1..] == xs[1..] + ys;
      PendingConcat(xs[1..], ys, q);
    }
  }

  /** audio_event_iface_read on a listener's set: take a handle, then receive from that queue. */
  function ReadSet(os: OS, t: SetId): (OS, Option<Msg>) {
    var (os1, q) := Select(os, t);
    if q.None? then (os1, None) else Receive(os1, q.value)
  }

  // ---------- draining a set ----------

  function MsgsOf(os: OS, q: QId): seq<Msg> {
    if q in os.queues then os.queues[q].msgs else []
  }

  function HandlesOf(os: OS, t: SetId): seq<QId> {
    if t in os.sets then os.sets[t].handles else []
  }

  function AfterReads(os: OS, t: SetId, n: nat): OS
    decreases n
  {
    if n == 0 then os else AfterReads(ReadSet(os, t).0, t, n - 1)
  }

  function Surplus(os: OS, t: SetId, q: QId): int {
    Pending(HandlesOf(os, t), q) - |MsgsOf(os, q)|
  }

  /** A read takes one handle and at most one message, of the same queue. */
  lemma ReadSetEffect(os: OS, t: SetId)
    requires HandlesOf(os, t) != []
    ensures var os', h := ReadSet(os, t).0, HandlesOf(os, t)[0];
            && HandlesOf(os', t) == HandlesOf(os, t)[1..]
            && MsgsOf(os', h) == (if MsgsOf(os, h) == [] then [] else MsgsOf(os, h)[1..])
            && (forall q :: q != h ==> MsgsOf(os', q) == MsgsOf(os, q))
  {
  }

  /** A queue with fewer handles than messages is never emptied by reading the set. */
  lemma {:induction false} NeverEmptied(os: OS, t: SetId, q: QId, n: nat)
    requires Surplus(os, t, q) < 0
    ensures Surplus(AfterReads(os, t, n), t, q) < 0 && MsgsOf(AfterReads(os, t, n), q) != []
    decreases n
  {
    if n > 0 {
      if HandlesOf(os, t) != [] { ReadSetEffect(os, t); }
      NeverEmptied(ReadSet(os, t).0, t, q, n - 1);
    }
  }

  lemma {:induction false} EmptiedAtLast(os: OS, t: SetId, q: QId)
    requires Surplus(os, t, q) >= 0
    ensures MsgsOf(AfterReads(os, t, |HandlesOf(os, t)|), q) == []
    decreases |HandlesOf(os, t)|
  {
    if HandlesOf(os, t) != [] {
      ReadSetEffect(os, t);
      EmptiedAtLast(ReadSet(os, t).0, t, q);
    }
  }

  /** Taking a queue out of a set succeeds after some reads exactly when it is a member of that very set
      and at least as many handles are pending as messages wait. */
  predicate Removable(os: OS, t: SetId, q: QId) {
    HomeIs(os, q, Some(t)) && |MsgsOf(os, q)| <= Pending(HandlesOf(os, t), q)
  }

  /** Otherwise the loop that retries never ends. */
  lemma RemovableExactly(os: OS, t: SetId, q: QId)
    ensures (exists n: nat :: RemovedAfter(os, t, q, n)) <==> Removable(os, t, q)
  {
    forall n: nat ensures HomeIs(AfterReads(os, t, n), q, Some(t)) <==> HomeIs(os, q, Some(t)) {
      ReadsKeepHome(os, t, q, n);
    }
    if Surplus(os, t, q) >= 0 {
      EmptiedAtLast(os, t, q);
      if HomeIs(os, q, Some(t)) { assert RemovedAfter(os, t, q, |HandlesOf(os, t)|); }
    } else {
      forall n: nat ensures !RemovedAfter(os, t, q, n) { NeverEmptied(os, t, q, n); }
    }
  }

  predicate HomeIs(os: OS, q: QId, home: Option<SetId>) {
    q in os.queues && os.queues[q].home == home
  }

  lemma {:induction false} ReadsKeepHome(os: OS, t: SetId, q: QId, n: nat)
    ensures HomeIs(AfterReads(os, t, n), q, Some(t)) <==> HomeIs(os, q, Some(t))
    decreases n
  {
    if n > 0 { ReadsKeepHome(ReadSet(os, t).0, t, q, n - 1); }
  }

  // ---------- taking a whole set apart ----------

  /** The loop over the listed queues: each is read for, some number of times, until it can be taken out. */
  ghost predicate CleanupEnds(os: OS, t: SetId, qs: seq<QId>)
    decreases qs
  {
    qs == []
    || exists n: nat :: RemovedAfter(os, t, qs[0], n)
         && CleanupEnds(RemoveFromSet(AfterReads(os, t, n), qs[0], t).0, t, qs[1..])
  }

  predicate RemovedAfter(os: OS, t: SetId, q: QId, n: nat) {
    RemoveFromSet(AfterReads(os, t, n), q, t).1
  }

  predicate NoRepeats(qs: seq<QId>) {
    forall i, j :: 0 <= i < j < |qs| ==> qs[i] != qs[j]
  }

  /** Reading never changes whether a queue can be taken out. */
  lemma {:induction false} ReadsKeepRemovable(os: OS, t: SetId, q: QId, n: nat)
    ensures Removable(AfterReads(os, t, n), t, q) <==> Removable(os, t, q)
    decreases n
  {
    if n > 0 {
      if HandlesOf(os, t) != [] { ReadSetEffect(os, t); }
      ReadsKeepHome(os, t, q, 1);
      assert AfterReads(os, t, 1) == AfterReads(ReadSet(os, t).0, t, 0);
      ReadsKeepRemovable(ReadSet(os, t).0, t, q, n - 1);
    }
  }

  /** Nor does taking out another queue; the queue taken out itself cannot be taken out again. */
  lemma RemoveKeepsOthers(os: OS, t: SetId, p: QId, q: QId)
    requires RemoveFromSet(os, p, t).1
    ensures Removable(RemoveFromSet(os, p, t).0, t, q) <==> p != q && Removable(os, t, q)
  {
  }

  /** Cleaning up ends if and only if the listed queues are distinct and all of them can be taken out. */
  lemma {:induction false} CleanupEndsExactly(os: OS, t: SetId, qs: seq<QId>)
    ensures CleanupEnds(os, t, qs) <==> NoRepeats(qs) && forall i :: 0 <= i < |qs| ==> Removable(os, t, qs[i])
    decreases qs
  {
    hide Removable, RemoveFromSet, AfterReads;
    if qs != [] {
      RemovableExactly(os, t, qs[0]);
      forall n: nat | RemovedAfter(os, t, qs[0], n)
        ensures CleanupEnds(RemoveFromSet(AfterReads(os, t, n), qs[0], t).0, t, qs[1..]) <==>
                NoRepeats(qs[1..]) && forall i :: 1 <= i < |qs| ==> qs[i] != qs[0] && Removable(os, t, qs[i])
      {
        var os' := RemoveFromSet(AfterReads(os, t, n), qs[0], t).0;
        CleanupEndsExactly(os', t, qs[1..]);
        forall i | 1 <= i < |qs| ensures Removable(os', t, qs[i]) <==> qs[i] != qs[0] && Removable(os, t, qs[i]) {
          ReadsKeepRemovable(os, t, qs[i], n);
          RemoveKeepsOthers(AfterReads(os, t, n), t, qs[0], qs[i]);
        }
        assert forall i :: 0 <= i < |qs| - 1 ==> qs[1..][i] == qs[i + 1];
        assert forall i :: 1 <= i < |qs| ==> qs[i] == qs[1..][i - 1];
      }
      assert NoRepeats(qs) <==> NoRepeats(qs[1..]) && forall i :: 1 <= i < |qs| ==> qs[i] != qs[0] by {
        assert forall i :: 1 <= i < |qs| ==> qs[i] == qs[1..][i - 1];
        assert forall i :: 0 <= i < |qs| - 1 ==> qs[1..][i] == qs[i + 1];
      }
      assert Removable(os, t, qs[0]) <==> exists n: nat :: RemovedAfter(os, t, qs[0], n);
    }
  }

  /** Only adding a queue to a set makes it a member, so a set that cannot be taken apart because a listed
      queue is no member of it stays that way, whatever is sent, received or removed. */
  lemma NeverJoins(os: OS, t: SetId, q: QId, p: QId, m: Msg, t': SetId)
    requires !HomeIs(os, q, Some(t))
    ensures p in os.queues ==> !HomeIs(Send(os, p, m).0, q, Some(t))
    ensures !HomeIs(Receive(os, p).0, q, Some(t)) && !HomeIs(ReadSet(os, t').0, q, Some(t))
    ensures !HomeIs(RemoveFromSet(os, p, t').0, q, Some(t))
    ensures t' != t ==> !HomeIs(AddToSet(os, p, t').0, q, Some(t))
  {
  }

  /** Deleting a queue spoils exactly the sets it is listed for: cleaning them up ends no more. */
  lemma DeletedWhileListed(os: OS, t: SetId, qs: seq<QId>, q: QId)
    ensures CleanupEnds(DeleteQueue(os, q), t, qs) <==> CleanupEnds(os, t, qs) && q !in qs
  {
    hide CleanupEnds, Pending, NoRepeats;
    CleanupEndsExactly(os, t, qs);
    CleanupEndsExactly(DeleteQueue(os, q), t, qs);
    forall p ensures Removable(DeleteQueue(os, q), t, p) <==> p != q && Removable(os, t, p) {
    }
    hide Removable;
  }
}
