/** Dependency links between symbols, and the symbols that must forget their cached values
    when one of them changes. */
module DependencyGraph {

  type Name = string

  /** `dep`: the symbols that immediately depend on a symbol.
      `group`: the members of its choice, or the symbol alone. */
  datatype Graph = Graph(dep: map<Name, set<Name>>, group: map<Name, set<Name>>)

  /** `rank` witnesses that the graph has no cycles once choices are taken as single nodes. */
  ghost predicate Ordered(g: Graph, rank: map<Name, nat>) {
    && g.dep.Keys == rank.Keys && g.group.Keys == rank.Keys
    && (forall s <- rank :: NodeOrdered(g, rank, s))
  }

  ghost predicate NodeOrdered(g: Graph, rank: map<Name, nat>, s: Name)
    requires g.dep.Keys == rank.Keys && g.group.Keys == rank.Keys && s in rank
  {
    && s in g.group[s]
    && (forall b <- g.group[s] :: b in rank && g.group[b] == g.group[s] && rank[b] == rank[s])
    && (forall d <- g.dep[s] :: d in rank && rank[s] < rank[d])
  }

  ghost function Above(rank: map<Name, nat>, s: Name): set<Name>
    requires s in rank
  {
    set t | t in rank && rank[s] < rank[t]
  }

  lemma AboveShrinks(rank: map<Name, nat>, s: Name, d: Name)
    requires s in rank && d in rank && rank[s] < rank[d]
    ensures Above(rank, d) < Above(rank, s)
  {
    assert d in Above(rank, s) && d !in Above(rank, d);
  }

  /** Direct dependents of any member of the group of `s`. */
  ghost function GroupDeps(g: Graph, rank: map<Name, nat>, s: Name): (ds: set<Name>)
    requires Ordered(g, rank) && s in rank
    ensures forall d <- ds :: d in rank && rank[s] < rank[d] && Above(rank, d) < Above(rank, s)
  {
    var ds := set b, t | b in g.group[s] && t in g.dep[b] :: t;
    forall d | d in ds ensures d in rank && rank[s] < rank[d] && Above(rank, d) < Above(rank, s) {
      var b :| b in g.group[s] && d in g.dep[b];
      AboveShrinks(rank, s, d);
    }
    ds
  }

  /** All dependent symbols, collected the way kconfiglib does it: the direct dependents, their
      dependents, and for a choice member its siblings and what depends on those. */
  ghost function Dependents(g: Graph, rank: map<Name, nat>, s: Name): set<Name>
    requires Ordered(g, rank) && s in rank
    decreases Above(rank, s)
  {
    (g.group[s] - {s}) + DependentsOf(g, rank, GroupDeps(g, rank, s), s)
  }

  /** `ds` and everything that depends on them. */
  ghost function DependentsOf(g: Graph, rank: map<Name, nat>, ds: set<Name>, s: Name): set<Name>
    requires Ordered(g, rank) && s in rank && forall d <- ds :: d in rank && Above(rank, d) < Above(rank, s)
    decreases Above(rank, s), 0
  {
    ds + set d, t | d in ds && t in Dependents(g, rank, d) :: t
  }

  /** A symbol together with everything that has to be invalidated with it. */
  ghost function Cone(g: Graph, rank: map<Name, nat>, s: Name): set<Name>
    requires Ordered(g, rank) && s in rank
  {
    {s} + Dependents(g, rank, s)
  }

  // ---------- reachability ----------

  ghost predicate Step(g: Graph, s: Name, t: Name) {
    s in g.dep && s in g.group && (t in g.dep[s] || t in g.group[s])
  }

  ghost predicate Path(g: Graph, p: seq<Name>) {
    p != [] && forall i :: 0 <= i < |p| - 1 ==> Step(g, p[i], p[i + 1])
  }

  ghost predicate Reachable(g: Graph, s: Name, t: Name) {
    exists p :: Path(g, p) && p[0] == s && p[|p| - 1] == t
  }

  lemma ReachSelf(g: Graph, s: Name)
    ensures Reachable(g, s, s)
  {
    assert Path(g, [s]);
  }

  lemma ReachThenStep(g: Graph, s: Name, t: Name, w: Name)
    requires Reachable(g, s, t) && Step(g, t, w)
    ensures Reachable(g, s, w)
  {
    var p :| Path(g, p) && p[0] == s && p[|p| - 1] == t;
    var q := p + [w];
    assert Path(g, q) && q[0] == s && q[|q| - 1] == w;
  }

  lemma StepThenReach(g: Graph, s: Name, t: Name, w: Name)
    requires Step(g, s, t) && Reachable(g, t, w)
    ensures Reachable(g, s, w)
  {
    var p :| Path(g, p) && p[0] == t && p[|p| - 1] == w;
    var q := [s] + p;
    assert Path(g, q) && q[0] == s && q[|q| - 1] == w;
  }

  /** From `s` by way of the group member that `d` directly depends on. */
  lemma ReachViaGroup(g: Graph, rank: map<Name, nat>, s: Name, d: Name, t: Name)
    requires Ordered(g, rank) && s in rank && d in GroupDeps(g, rank, s) && Reachable(g, d, t)
    ensures Reachable(g, s, t)
  {
    var b :| b in g.group[s] && d in g.dep[b];
    StepThenReach(g, b, d, t);
    StepThenReach(g, s, b, t);
  }

  lemma {:induction false} DependentsAreReachable(g: Graph, rank: map<Name, nat>, s: Name, t: Name)
    requires Ordered(g, rank) && s in rank && t in Dependents(g, rank, s)
    ensures Reachable(g, s, t) && t in rank && t != s
    ensures rank[s] < rank[t] || t in g.group[s]
    decreases Above(rank, s)
  {
    if t in GroupDeps(g, rank, s) {
      ReachSelf(g, t);
      ReachViaGroup(g, rank, s, t, t);
    } else if t in g.group[s] - {s} {
      ReachSelf(g, s);
      ReachThenStep(g, s, s, t);
    } else {
      assert t in DependentsOf(g, rank, GroupDeps(g, rank, s), s);
      var d :| d in GroupDeps(g, rank, s) && t in Dependents(g, rank, d);
      DependentsAreReachable(g, rank, d, t);
      ReachViaGroup(g, rank, s, d, t);
      GroupsShareRank(g, rank, d, t);
    }
  }

  lemma GroupsShareRank(g: Graph, rank: map<Name, nat>, d: Name, t: Name)
    requires Ordered(g, rank) && d in rank && t in rank && (rank[d] < rank[t] || t in g.group[d])
    ensures rank[d] <= rank[t]
  {
  }

  lemma ConeIsClosed(g: Graph, rank: map<Name, nat>, s: Name, t: Name)
    requires Ordered(g, rank) && s in rank && Step(g, s, t)
    ensures t in rank && Cone(g, rank, t) <= Cone(g, rank, s)
  {
    if t in g.group[s] {
      assert GroupDeps(g, rank, t) == GroupDeps(g, rank, s);
      assert DependentsOf(g, rank, GroupDeps(g, rank, t), t) == DependentsOf(g, rank, GroupDeps(g, rank, s), s);
    } else {
      assert s in g.group[s];
      assert t in GroupDeps(g, rank, s);
      forall w | w in Dependents(g, rank, t) ensures w in DependentsOf(g, rank, GroupDeps(g, rank, s), s) { }
    }
  }

  lemma {:induction false} PathStaysInCone(g: Graph, rank: map<Name, nat>, p: seq<Name>)
    requires Ordered(g, rank) && Path(g, p) && p[0] in rank
    ensures p[|p| - 1] in Cone(g, rank, p[0])
    decreases |p|
  {
    if |p| > 1 {
      assert Step(g, p[0], p[1]);
      ConeIsClosed(g, rank, p[0], p[1]);
      assert Path(g, p[1..]) by {
        forall i | 0 <= i < |p[1..]| - 1 ensures Step(g, p[1..][i], p[1..][i + 1]) {
          assert Step(g, p[i + 1], p[i + 1 + 1]);
        }
      }
      PathStaysInCone(g, rank, p[1..]);
    }
  }

  /** The recursively collected dependents are exactly the other symbols that can be reached
      along dependency links and links between the members of a choice. */
  lemma DependentsExact(g: Graph, rank: map<Name, nat>, s: Name, t: Name)
    requires Ordered(g, rank) && s in rank
    ensures t in Dependents(g, rank, s) <==> t != s && Reachable(g, s, t)
  {
    if t in Dependents(g, rank, s) { DependentsAreReachable(g, rank, s, t); }
    if Reachable(g, s, t) {
      var p :| Path(g, p) && p[0] == s && p[|p| - 1] == t;
      PathStaysInCone(g, rank, p);
    }
  }

  /** What is one step from the cone is in the cone. */
  lemma ConeStep(g: Graph, rank: map<Name, nat>, s: Name, n: Name, t: Name)
    requires Ordered(g, rank) && s in rank && n in Cone(g, rank, s) && Step(g, n, t)
    ensures t in Cone(g, rank, s)
  {
    if n == s { ReachSelf(g, s); } else { DependentsExact(g, rank, s, n); }
    ReachThenStep(g, s, n, t);
    DependentsExact(g, rank, s, t);
  }
}
