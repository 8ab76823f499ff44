/** The intrusive singly-linked tail queue, on the heap, against the sequence of its elements. */
module Stailq {

  /** A next pointer; Trash is the poison value left in a removed element. */
  datatype Link<T> = Null | To(e: Elem<T>) | Trash

  /** The tail pointer: the address of the head's first link, or of an element's next link. */
  datatype Tail<T> = OfHead | OfElem(e: Elem<T>)

  class Elem<T> {
    var next: Link<T>
    const val: T

    constructor (v: T)
      ensures val == v && next == Null
    {
      val, next := v, Null;
    }
  }

  function LinkAt<T>(s: seq<Elem<T>>, i: nat): Link<T> {
    if i < |s| then To(s[i]) else Null
  }

  function TailOf<T>(s: seq<Elem<T>>): Tail<T> {
    if s == [] then OfHead else OfElem(s[|s| - 1])
  }

  function Vals<T>(s: seq<Elem<T>>): seq<T> {
    seq(|s|, i requires 0 <= i < |s| => s[i].val)
  }

  /** The elements that stay when those matching `p` are removed. */
  function Rest<T>(s: seq<Elem<T>>, p: T -> bool): seq<Elem<T>> {
    if s == [] then []
    else if p(s[0].val) then Rest(s[1..], p)
    else [s[0]] + Rest(s[1..], p)
  }

  /** `r` is `s` without some elements, in the order of `s`: those at the positions `ps` stay. */
  ghost predicate Subsequence<T>(s: seq<Elem<T>>, ps: seq<nat>, r: seq<Elem<T>>) {
    && |ps| == |r| && (forall i, j :: 0 <= i < j < |ps| ==> ps[i] < ps[j])
    && forall k :: 0 <= k < |ps| ==> ps[k] < |s| && s[ps[k]] == r[k]
  }

  function Later(ps: seq<nat>): seq<nat> {
    seq(|ps|, k requires 0 <= k < |ps| => ps[k] + 1)
  }

  lemma InLater(ps: seq<nat>, i: nat)
    ensures i in Later(ps) <==> i > 0 && i - 1 in ps
  {
    if i > 0 && i - 1 in ps {
      var k :| 0 <= k < |ps| && ps[k] == i - 1;
      assert Later(ps)[k] == i;
    }
  }

  lemma LaterSubsequence<T>(s: seq<Elem<T>>, ps: seq<nat>, r: seq<Elem<T>>)
    requires s != [] && Subsequence(s[1..], ps, r)
    ensures Subsequence(s, Later(ps), r)
  {
    forall k | 0 <= k < |ps| ensures Later(ps)[k] < |s| && s[Later(ps)[k]] == r[k] {
      assert s[1..][ps[k]] == s[ps[k] + 1];
    }
  }

  lemma FirstStays<T>(s: seq<Elem<T>>, ps: seq<nat>, r: seq<Elem<T>>)
    requires s != [] && Subsequence(s, ps, r) && forall k :: 0 <= k < |ps| ==> ps[k] > 0
    ensures Subsequence(s, [0] + ps, [s[0]] + r)
  {
  }

  /** Exactly the elements that do not match stay, in their order. */
  lemma {:induction false} RestInOrder<T>(s: seq<Elem<T>>, p: T -> bool) returns (ps: seq<nat>)
    ensures Subsequence(s, ps, Rest(s, p))
    ensures forall i: nat :: i < |s| ==> (!p(s[i].val) <==> i in ps)
  {
    ps := [];
    if s != [] {
      var rest := RestInOrder(s[1..], p);
      LaterSubsequence(s, rest, Rest(s[1..], p));
      FirstStays(s, Later(rest), Rest(s[1..], p));
      ps := if p(s[0].val) then Later(rest) else [0] + Later(rest);
      hide Later, Subsequence;
      forall i: nat | i < |s| ensures !p(s[i].val) <==> i in ps {
        InLater(rest, i);
        if i > 0 { assert s[i] == s[1..][i - 1]; }
      }
    }
  }

  class Head<T> {
    var first: Link<T>
    var last: Tail<T>
    ghost var elems: seq<Elem<T>>

    /** The links lead through `elems` in order, and the tail pointer is exact. */
    ghost predicate Valid()
      reads this, elems
    {
      && (forall i, j :: 0 <= i < j < |elems| ==> elems[i] != elems[j])
      && first == LinkAt(elems, 0)
      && (forall i :: 0 <= i < |elems| ==> elems[i].next == LinkAt(elems, i + 1))
      && last == TailOf(elems)
    }

    constructor ()
      ensures Valid() && elems == []
    {
      first, last, elems := Null, OfHead, [];
    }

    method InsertTail(e: Elem<T>)
      requires Valid() && e !in elems
      modifies this, elems, e
      ensures Valid() && elems == old(elems) + [e]
    {
      e.next := Null;
      match last {
        case OfHead => first := To(e);
        case OfElem(x) => x.next := To(e);
      }
      last := OfElem(e);
      elems := elems + [e];
    }

    /** Takes out the element, which is at position `at`, and poisons its link. */
    method Remove(e: Elem<T>, ghost at: nat)
      requires Valid() && at < |elems| && elems[at] == e
      modifies this, elems
      ensures Valid() && elems == old(elems)[..at] + old(elems)[at + 1..]
      ensures e.next == Trash && e !in elems
    {
      if first == To(e) {
        RemoveHead();
      } else {
        var cur := Before(e, at);
        RemoveAfter(cur, at - 1);
      }
      Poison(e);
    }

    method Poison(e: Elem<T>)
      requires Valid() && e !in elems
      modifies e
      ensures Valid() && e.next == Trash
    {
      e.next := Trash;
    }

    /** The element in front of `e`. */
    method Before(e: Elem<T>, ghost at: nat) returns (cur: Elem<T>)
      requires Valid() && 0 < at < |elems| && elems[at] == e
      ensures cur == elems[at - 1]
    {
      cur := first.e;
      ghost var i := 0;
      while cur.next != To(e)
        invariant 0 <= i < at && cur == elems[i]
        decreases at - i
      {
        cur := cur.next.e;
        i := i + 1;
      }
    }

    method RemoveHead()
      requires Valid() && elems != []
      modifies this
      ensures Valid() && elems == old(elems)[1..] && old(elems)[0] !in elems
    {
      first := first.e.next;
      if first == Null { last := OfHead; }
      elems := elems[1..];
    }

    method RemoveAfter(e: Elem<T>, ghost at: nat)
      requires Valid() && at + 1 < |elems| && elems[at] == e
      modifies this, e
      ensures Valid() && elems == old(elems)[..at + 1] + old(elems)[at + 2..] && old(elems)[at + 1] !in elems
    {
      hide LinkAt, TailOf;
      SplicedLinks(elems, at);
      ghost var left := elems[..at + 1] + elems[at + 2..];
      assert elems[at].next == LinkAt(elems, at + 1) && elems[at + 1].next == LinkAt(elems, at + 2);
      e.next := e.next.e.next;
      if e.next == Null { last := OfElem(e); }
      forall i | 0 <= i < |left| ensures left[i].next == LinkAt(left, i + 1) {
        assert left[i] == if i <= at then elems[i] else elems[i + 1];
        SplicedLink(elems, at, i + 1);
      }
      elems := left;
    }

    /** Traverses the list, reading each successor before the body may remove the element. Every
        element is visited once, in order; only matching ones leave. */
    method RemoveMatching(p: T -> bool) returns (ghost visited: seq<Elem<T>>)
      requires Valid()
      modifies this, elems
      ensures Valid() && visited == old(elems) && elems == Rest(old(elems), p)
      ensures forall e <- old(elems) :: p(e.val) ==> e.next == Trash
    {
      hide Valid, Rest, Traversed, Trashed, TailOf;
      ghost var all, kept := elems, 0;
      FirstAt();
      visited := [];
      var cur := first;
      TraversalStarts(all, p);
      while cur != Null
        invariant Valid() && |visited| <= |all| && visited == all[..|visited|]
        invariant cur == LinkAt(all, |visited|)
        invariant Traversed(all, |visited|, elems, kept, p)
        invariant Within(elems, all)
        invariant Trashed(all, |visited|, elems, p)
        decreases |all| - |visited|
      {
        StillThere(all, |visited|, elems, kept, p);
        NextAt(kept);
        var e := cur.e;
        var tmp := e.next;
        kept := Visit(e, p, all, |visited|, kept);
        visited := visited + [e];
        cur := tmp;
      }
      TraversalEnds(all, |visited|, elems, kept, p);
    }

    lemma FirstAt()
      requires Valid()
      ensures first == LinkAt(elems, 0)
    {
    }

    lemma NextAt(i: nat)
      requires Valid() && i < |elems|
      ensures elems[i].next == LinkAt(elems, i + 1)
    {
    }

    /** The loop's body. */
    method Visit(e: Elem<T>, p: T -> bool, ghost all: seq<Elem<T>>, ghost n: nat, ghost kept: nat)
        returns (ghost kept': nat)
      requires Valid() && Traversed(all, n, elems, kept, p) && n < |all| && all[n] == e
      requires Within(elems, all) && Trashed(all, n, elems, p)
      modifies this, elems
      ensures Valid() && Traversed(all, n + 1, elems, kept', p) && Within(elems, all) && Trashed(all, n + 1, elems, p)
    {
      hide Valid, Rest, Traversed;
      StillThere(all, n, elems, kept, p);
      kept' := kept;
      if p(e.val) {
        RemovedOne(all, n, elems, kept, p);
        Remove(e, kept);
      } else {
        KeptOne(all, n, elems, kept, p);
        kept' := kept + 1;
      }
    }
  }

  ghost predicate Within<T>(elems: seq<Elem<T>>, all: seq<Elem<T>>) {
    forall i :: 0 <= i < |elems| ==> elems[i] in all
  }

  lemma TraversalStarts<T>(all: seq<Elem<T>>, p: T -> bool)
    ensures Traversed(all, 0, all, 0, p) && Within(all, all) && Trashed(all, 0, all, p)
  {
    assert all[0..] == all;
  }

  lemma TraversalEnds<T>(all: seq<Elem<T>>, n: nat, elems: seq<Elem<T>>, kept: nat, p: T -> bool)
    requires Traversed(all, n, elems, kept, p) && n == |all| && Trashed(all, n, elems, p)
    ensures elems == Rest(all, p) && forall e <- all :: p(e.val) ==> e.next == Trash
  {
    assert elems[..kept] + [] == elems;
  }

  /** The links of a sequence from which the element after `at` is taken out. */
  lemma SplicedLinks<T>(s: seq<Elem<T>>, at: nat)
    requires at + 1 < |s| && forall i, j :: 0 <= i < j < |s| ==> s[i] != s[j]
    ensures var left := s[..at + 1] + s[at + 2..];
            && |left| == |s| - 1 && s[at + 1] !in left && (forall i, j :: 0 <= i < j < |left| ==> left[i] != left[j])
            && (forall i :: 0 <= i < |left| ==> left[i] == if i <= at then s[i] else s[i + 1])
            && LinkAt(left, 0) == LinkAt(s, 0)
            && LinkAt(s, at + 1) == To(s[at + 1]) && (LinkAt(s, at + 2) == Null <==> at + 2 == |s|)
            && TailOf(left) == if at + 2 == |s| then OfElem(s[at]) else TailOf(s)
  {
    ElementOnce(s, at + 1);
  }

  lemma SplicedLink<T>(s: seq<Elem<T>>, at: nat, i: nat)
    requires at + 1 < |s| && i < |s|
    ensures LinkAt(s[..at + 1] + s[at + 2..], i) == if i <= at then LinkAt(s, i) else LinkAt(s, i + 1)
  {
  }

  lemma ElementOnce<T>(s: seq<Elem<T>>, at: nat)
    requires at < |s| && forall i, j :: 0 <= i < j < |s| ==> s[i] != s[j]
    ensures s[at] !in s[..at] + s[at + 1..]
  {
  }

  /** After `n` visits the first `kept` elements have been kept and the rest is yet to be seen. */
  ghost predicate Traversed<T>(all: seq<Elem<T>>, n: nat, elems: seq<Elem<T>>, kept: nat, p: T -> bool) {
    && n <= |all| && kept <= |elems| && elems[kept..] == all[n..]
    && Rest(all, p) == elems[..kept] + Rest(all[n..], p)
  }

  ghost predicate Trashed<T>(all: seq<Elem<T>>, n: nat, elems: seq<Elem<T>>, p: T -> bool)
    requires n <= |all|
    reads all
  {
    forall i :: 0 <= i < n && p(all[i].val) ==> all[i].next == Trash && all[i] !in elems
  }

  lemma StillThere<T>(all: seq<Elem<T>>, n: nat, elems: seq<Elem<T>>, kept: nat, p: T -> bool)
    requires Traversed(all, n, elems, kept, p) && n < |all|
    ensures kept < |elems| && elems[kept] == all[n] && |elems| - kept == |all| - n
    ensures kept + 1 < |elems| ==> elems[kept + 1] == all[n + 1]
  {
    assert elems[kept..][0] == all[n..][0];
    if kept + 1 < |elems| { assert elems[kept..][1] == all[n..][1]; }
  }

  lemma RemovedOne<T>(all: seq<Elem<T>>, n: nat, elems: seq<Elem<T>>, kept: nat, p: T -> bool)
    requires Traversed(all, n, elems, kept, p) && n < |all| && p(all[n].val)
    ensures kept < |elems| && Traversed(all, n + 1, elems[..kept] + elems[kept + 1..], kept, p)
  {
    StillThere(all, n, elems, kept, p);
    assert all[n..][1..] == all[n + 1..] && elems[kept..][1..] == elems[kept + 1..];
    assert (elems[..kept] + elems[kept + 1..])[..kept] == elems[..kept];
    assert (elems[..kept] + elems[kept + 1..])[kept..] == elems[kept + 1..];
  }

  lemma KeptOne<T>(all: seq<Elem<T>>, n: nat, elems: seq<Elem<T>>, kept: nat, p: T -> bool)
    requires Traversed(all, n, elems, kept, p) && n < |all| && !p(all[n].val)
    ensures kept < |elems| && Traversed(all, n + 1, elems, kept + 1, p)
  {
    StillThere(all, n, elems, kept, p);
    assert all[n..][1..] == all[n + 1..] && elems[kept..][1..] == elems[kept + 1..];
    assert elems[..kept + 1] == elems[..kept] + [all[n]];
  }
}
