/** The dependency graph of a configuration, and what a change of one user value can affect. */
module Dependencies {
  import opened Wrappers
  import opened Tristate
  import opened Expressions
  import opened Configuration
  import opened Recomputation
  import opened DependencyGraph

  /** The `dep` set of a symbol once the dependency links are built. */
  function DepOf(c: Config, s: SymName): set<SymName> {
    set t | t in c.syms && s in DirectInputs(c, t)
  }

  /** The members of the choice of `s`, or `s` alone. */
  function Group(c: Config, s: SymName): set<SymName>
    requires Closed(c) && s in c.syms
  {
    if c.syms[s].choice.None? then {s} else set t | t in c.choices[c.syms[s].choice.value].members
  }

  ghost function GraphOf(c: Config): Graph
    requires Closed(c)
  {
    Graph(map s | s in c.syms :: DepOf(c, s), map s | s in c.syms :: Group(c, s))
  }

  lemma GroupFacts(c: Config, rank: map<SymName, nat>, s: SymName, b: SymName)
    requires Model(c, rank) && s in c.syms && b in Group(c, s)
    ensures b in c.syms && c.syms[b].choice == c.syms[s].choice && rank[b] == rank[s]
  {
    hide Quiet, InputsFirst, DirectInputs;
    if c.syms[s].choice.Some? {
      assert ClosedChoice(c, c.syms[s].choice.value);
      assert SharedRank(rank, c.choices[c.syms[s].choice.value].members);
    }
  }

  lemma ChoiceGroup(c: Config, s: SymName)
    requires Closed(c) && s in c.syms && c.syms[s].choice.Some?
    ensures c.syms[s].choice.value in c.choices
    ensures Group(c, s) == set m | m in c.choices[c.syms[s].choice.value].members
  {
  }

  lemma DepsComeLater(c: Config, rank: map<SymName, nat>, s: SymName, d: SymName)
    requires Model(c, rank) && s in c.syms && d in DepOf(c, s)
    ensures d in c.syms && rank[s] < rank[d]
  {
    assert InputsFirst(c, rank, d);
  }

  lemma InOwnGroup(c: Config, s: SymName)
    requires Closed(c) && s in c.syms
    ensures s in Group(c, s)
  {
  }

  lemma SameGroup(c: Config, s: SymName, b: SymName)
    requires Closed(c) && s in c.syms && b in c.syms && c.syms[b].choice == c.syms[s].choice && b in Group(c, s)
    ensures Group(c, b) == Group(c, s)
  {
  }

  lemma NodeIsOrdered(c: Config, rank: map<SymName, nat>, s: SymName)
    requires Model(c, rank) && s in rank
    ensures NodeOrdered(GraphOf(c), rank, s)
  {
    InOwnGroup(c, s);
    forall b | b in Group(c, s) ensures b in rank && Group(c, b) == Group(c, s) && rank[b] == rank[s] {
      GroupFacts(c, rank, s, b);
      SameGroup(c, s, b);
    }
    forall d | d in DepOf(c, s) ensures d in rank && rank[s] < rank[d] { DepsComeLater(c, rank, s, d); }
  }

  lemma GraphOrdered(c: Config, rank: map<SymName, nat>)
    requires Model(c, rank)
    ensures Ordered(GraphOf(c), rank)
  {
    var g := GraphOf(c);
    assert g.dep.Keys == rank.Keys && g.group.Keys == rank.Keys;
    hide Model, NodeOrdered, GraphOf;
    forall s | s in rank ensures NodeOrdered(g, rank, s) { NodeIsOrdered(c, rank, s); }
  }

  /** A symbol and its dependents. */
  ghost function ConeOf(c: Config, rank: map<SymName, nat>, s: SymName): set<SymName>
    requires Model(c, rank) && s in c.syms
  {
    GraphOrdered(c, rank);
    Cone(GraphOf(c), rank, s)
  }

  lemma ConeHasGroup(c: Config, rank: map<SymName, nat>, s: SymName, t: SymName)
    requires Model(c, rank) && s in c.syms && t in c.syms
    requires t in Group(c, s)
    ensures t in ConeOf(c, rank, s)
  {
  }

  lemma ConeTakesGroup(c: Config, rank: map<SymName, nat>, s: SymName, m: SymName, t: SymName)
    requires Model(c, rank) && s in c.syms && m in c.syms && t in Group(c, m) && m in ConeOf(c, rank, s)
    ensures t in ConeOf(c, rank, s)
  {
    GraphOrdered(c, rank);
    assert Step(GraphOf(c), m, t);
    ConeStep(GraphOf(c), rank, s, m, t);
  }

  lemma ConeTakesDep(c: Config, rank: map<SymName, nat>, s: SymName, n: SymName, t: SymName)
    requires Model(c, rank) && s in c.syms && n in c.syms && t in DepOf(c, n) && n in ConeOf(c, rank, s)
    ensures t in ConeOf(c, rank, s)
  {
    GraphOrdered(c, rank);
    assert Step(GraphOf(c), n, t);
    ConeStep(GraphOf(c), rank, s, n, t);
  }

  // ---------- what a change of user value can affect ----------

  /** `u` and `u'` differ at most in what belongs to `s` and to the choice of `s`. */
  ghost predicate DiffersAt(c: Config, u: Users, u': Users, s: SymName)
    requires s in c.syms
  {
    && (forall t :: t != s ==> SameSymUser(u, u', t))
    && (forall k: ChoiceId :: c.syms[s].choice != Some(k) ==> SameChoiceUsers(u, u', k))
  }

  lemma OutsideCone(c: Config, rank: map<SymName, nat>, s: SymName, t: SymName, n: SymName)
    requires Model(c, rank) && s in c.syms && t in c.syms && t !in ConeOf(c, rank, s) && ReadsFrom(c, t, n)
    ensures n in c.syms && rank[n] < rank[t] && n !in ConeOf(c, rank, s)
  {
    InputsComeFirst(c, rank, t, n);
    if n in ConeOf(c, rank, s) {
      if n in DirectInputs(c, t) {
        ConeTakesDep(c, rank, s, n, t);
      } else {
        var k := c.syms[t].choice.value;
        assert ClosedChoice(c, k);
        var m :| m in c.choices[k].members && n in DirectInputs(c, m);
        ConeTakesDep(c, rank, s, n, m);
        ConeTakesGroup(c, rank, s, m, t);
      }
    }
  }

  lemma OutsideConeUsers(c: Config, rank: map<SymName, nat>, u: Users, u': Users, s: SymName, t: SymName)
    requires Model(c, rank) && s in c.syms && t in c.syms && t !in ConeOf(c, rank, s) && DiffersAt(c, u, u', s)
    ensures SameSymUser(u, u', t)
    ensures c.syms[t].choice.Some? ==> SameChoiceUsers(u, u', c.syms[t].choice.value)
  {
    if c.syms[t].choice.Some? && c.syms[t].choice == c.syms[s].choice {
      ConeHasGroup(c, rank, s, t);
    }
  }

  /** A change to the user values of `s` can reach no value outside the cone of `s`,
      provided it does not switch modules on or off. */
  lemma {:induction false} ValueOutsideCone(c: Config, rank: map<SymName, nat>, u: Users, u': Users, s: SymName,
                                            t: SymName)
    requires Model(c, rank) && UsersOk(c, u) && UsersOk(c, u') && s in c.syms && DiffersAt(c, u, u', s)
    requires World(c, rank, u).off == World(c, rank, u').off
    requires t in c.syms && t !in ConeOf(c, rank, s)
    ensures Val(c, rank, u, t) == Val(c, rank, u', t)
    decreases rank[t]
  {
    var vals, vals' := Below(c, rank, u, t), Below(c, rank, u', t);
    forall n | ReadsFrom(c, t, n) ensures Look(vals, n) == Look(vals', n) {
      OutsideCone(c, rank, s, t, n);
      ValueOutsideCone(c, rank, u, u', s, n);
    }
    OutsideConeUsers(c, rank, u, u', s, t);
    ValsAreBool(c, rank, u, vals);
    SameValue(c, rank, u, u', t, vals, vals');
  }

  /** Nor can it reach a visibility, also of a special symbol, or a write flag outside the cone. */
  lemma RestOutsideCone(c: Config, rank: map<SymName, nat>, u: Users, u': Users, s: SymName, t: SymName)
    requires Model(c, rank) && UsersOk(c, u) && UsersOk(c, u') && s in c.syms && DiffersAt(c, u, u', s)
    requires World(c, rank, u).off == World(c, rank, u').off
    requires t in c.syms && t !in ConeOf(c, rank, s)
    ensures Value(c, World(c, rank, u), u, t) == Value(c, World(c, rank, u'), u', t)
    ensures Vis(c, World(c, rank, u), t) == Vis(c, World(c, rank, u'), t)
  {
    var vals, vals' := AllVals(c, rank, u), AllVals(c, rank, u');
    forall n | ReadsFrom(c, t, n) ensures Look(vals, n) == Look(vals', n) {
      OutsideCone(c, rank, s, t, n);
      ValueOutsideCone(c, rank, u, u', s, n);
    }
    OutsideConeUsers(c, rank, u, u', s, t);
    ValsAreBool(c, rank, u, vals);
    SameValue(c, rank, u, u', t, vals, vals');
  }

  lemma InputOutsideCone(c: Config, rank: map<SymName, nat>, u: Users, u': Users, s: SymName, m: SymName, n: SymName)
    requires Model(c, rank) && UsersOk(c, u) && UsersOk(c, u') && s in c.syms && DiffersAt(c, u, u', s)
    requires World(c, rank, u).off == World(c, rank, u').off
    requires m in c.syms && m !in ConeOf(c, rank, s) && n in DirectInputs(c, m)
    ensures Look(AllVals(c, rank, u), n) == Look(AllVals(c, rank, u'), n)
  {
    OutsideCone(c, rank, s, m, n);
    ValueOutsideCone(c, rank, u, u', s, n);
  }

  /** Nor anything about a choice that has members, none of them in the cone. */
  lemma ChoiceOutsideCone(c: Config, rank: map<SymName, nat>, u: Users, u': Users, s: SymName, k: ChoiceId)
    requires Model(c, rank) && UsersOk(c, u) && UsersOk(c, u') && s in c.syms && DiffersAt(c, u, u', s)
    requires World(c, rank, u).off == World(c, rank, u').off
    requires k in c.choices && Populated(c, k) && forall m <- c.choices[k].members :: m !in ConeOf(c, rank, s)
    ensures ChoiceVis(c, World(c, rank, u), k) == ChoiceVis(c, World(c, rank, u'), k)
    ensures Mode(c, World(c, rank, u), u, k) == Mode(c, World(c, rank, u'), u', k)
    ensures Selection(c, World(c, rank, u), u, k) == Selection(c, World(c, rank, u'), u', k)
  {
    MembersOutsideCone(c, rank, u, u', s, k);
    FirstMemberOutsideCone(c, rank, u, u', s, k);
    ChoiceInputsAlike(c, World(c, rank, u), World(c, rank, u'), k);
    ChoiceFrame(c, World(c, rank, u), World(c, rank, u'), u, u', k);
  }

  /** What the prompts and defaults of a choice mention is outside the cone: enough for its visibility to stay,
      and all that can be asked of a choice without members. */
  lemma MentionedOutsideCone(c: Config, rank: map<SymName, nat>, u: Users, u': Users, s: SymName, k: ChoiceId)
    requires Model(c, rank) && UsersOk(c, u) && UsersOk(c, u') && s in c.syms && DiffersAt(c, u, u', s)
    requires World(c, rank, u).off == World(c, rank, u').off
    requires k in c.choices && ChoiceInputs(c.choices[k]) !! ConeOf(c, rank, s)
    ensures ChoiceVis(c, World(c, rank, u), k) == ChoiceVis(c, World(c, rank, u'), k)
  {
    hide UsersOk, DiffersAt, ConeOf, AllVals, PromptSyms, PickSyms, PromptsVis, Acyclic;
    MentionedKnown(c, rank, k);
    forall n | n in ChoiceInputs(c.choices[k]) ensures Look(AllVals(c, rank, u), n) == Look(AllVals(c, rank, u'), n) {
      MentionedStays(c, rank, u, u', s, n);
    }
    PromptsFrame(World(c, rank, u), World(c, rank, u'), c.choices[k].prompts);
  }

  lemma MentionedStays(c: Config, rank: map<SymName, nat>, u: Users, u': Users, s: SymName, n: SymName)
    requires Model(c, rank) && UsersOk(c, u) && UsersOk(c, u') && s in c.syms && DiffersAt(c, u, u', s)
    requires World(c, rank, u).off == World(c, rank, u').off
    requires n in c.syms && n !in ConeOf(c, rank, s)
    ensures Look(AllVals(c, rank, u), n) == Look(AllVals(c, rank, u'), n)
  {
    ValueOutsideCone(c, rank, u, u', s, n);
  }

  lemma MentionedKnown(c: Config, rank: map<SymName, nat>, k: ChoiceId)
    requires Model(c, rank) && k in c.choices
    ensures ChoiceInputs(c.choices[k]) <= c.syms.Keys
  {
  }

  lemma ChoiceInputsAlike(c: Config, x: Ctx, x': Ctx, k: ChoiceId)
    requires Closed(c) && k in c.choices && Populated(c, k)
    requires forall m <- c.choices[k].members :: m in c.syms && Alike(x, x', DirectInputs(c, m))
    ensures Alike(x, x', ChoiceInputs(c.choices[k]))
  {
    assert ClosedChoice(c, k);
    var m := c.choices[k].members[0];
    assert m in c.choices[k].members && ChoiceInputs(c.choices[k]) <= DirectInputs(c, m);
  }

  lemma FirstMemberOutsideCone(c: Config, rank: map<SymName, nat>, u: Users, u': Users, s: SymName, k: ChoiceId)
    requires Model(c, rank) && s in c.syms && DiffersAt(c, u, u', s)
    requires k in c.choices && Populated(c, k) && forall m <- c.choices[k].members :: m !in ConeOf(c, rank, s)
    ensures SameChoiceUsers(u, u', k)
  {
    assert ClosedChoice(c, k);
    var m := c.choices[k].members[0];
    assert m in c.choices[k].members;
    OutsideConeUsers(c, rank, u, u', s, m);
  }

  lemma MemberOutsideCone(c: Config, rank: map<SymName, nat>, u: Users, u': Users, s: SymName, m: SymName)
    requires Model(c, rank) && UsersOk(c, u) && UsersOk(c, u') && s in c.syms && DiffersAt(c, u, u', s)
    requires World(c, rank, u).off == World(c, rank, u').off
    requires m in c.syms && m !in ConeOf(c, rank, s)
    ensures Alike(World(c, rank, u), World(c, rank, u'), DirectInputs(c, m))
  {
    hide Model, UsersOk, DiffersAt, ConeOf, DirectInputs, AllVals;
    forall n | n in DirectInputs(c, m) ensures Look(AllVals(c, rank, u), n) == Look(AllVals(c, rank, u'), n) {
      InputOutsideCone(c, rank, u, u', s, m, n);
    }
  }

  lemma MembersOutsideCone(c: Config, rank: map<SymName, nat>, u: Users, u': Users, s: SymName, k: ChoiceId)
    requires Model(c, rank) && UsersOk(c, u) && UsersOk(c, u') && s in c.syms && DiffersAt(c, u, u', s)
    requires World(c, rank, u).off == World(c, rank, u').off
    requires k in c.choices && forall m <- c.choices[k].members :: m !in ConeOf(c, rank, s)
    ensures forall m <- c.choices[k].members ::
            m in c.syms && Alike(World(c, rank, u), World(c, rank, u'), DirectInputs(c, m))
  {
    assert ClosedChoice(c, k);
    forall m | m in c.choices[k].members
      ensures m in c.syms && Alike(World(c, rank, u), World(c, rank, u'), DirectInputs(c, m))
    {
      MemberOutsideCone(c, rank, u, u', s, m);
    }
  }

  /** A symbol whose dependents do not include MODULES cannot switch modules on or off. */
  lemma {:induction false} ModulesOutsideCone(c: Config, rank: map<SymName, nat>, u: Users, u': Users, s: SymName,
                                              t: SymName)
    requires Model(c, rank) && UsersOk(c, u) && UsersOk(c, u') && s in c.syms && DiffersAt(c, u, u', s)
    requires MODULES in c.syms && t in c.syms && t !in ConeOf(c, rank, s) && rank[t] <= rank[MODULES]
    ensures Val(c, rank, u, t) == Val(c, rank, u', t)
    decreases rank[t]
  {
    var vals, vals' := Below(c, rank, u, t), Below(c, rank, u', t);
    forall n | ReadsFrom(c, t, n) ensures Look(vals, n) == Look(vals', n) {
      OutsideCone(c, rank, s, t, n);
      ModulesOutsideCone(c, rank, u, u', s, n);
    }
    OutsideConeUsers(c, rank, u, u', s, t);
    ValsAreBool(c, rank, u, vals);
    SameValue(c, rank, u, u', t, vals, vals');
  }

  lemma ModulesStay(c: Config, rank: map<SymName, nat>, u: Users, u': Users, s: SymName)
    requires Model(c, rank) && UsersOk(c, u) && UsersOk(c, u') && s in c.syms && DiffersAt(c, u, u', s)
    requires MODULES !in ConeOf(c, rank, s)
    ensures World(c, rank, u).off == World(c, rank, u').off
  {
    if MODULES in c.syms { ModulesOutsideCone(c, rank, u, u', s, MODULES); }
  }

  /** Nothing outside `ss` that is cached and can be dropped changes: values, visibilities of ordinary symbols,
      and what is cached for choices that have members. */
  ghost predicate KeepsRest(c: Config, rank: map<SymName, nat>, u: Users, u': Users, ss: set<SymName>)
    requires Model(c, rank) && UsersOk(c, u) && UsersOk(c, u')
  {
    var x, x' := World(c, rank, u), World(c, rank, u');
    && (forall t <- c.syms :: t !in ss && c.syms[t].special.None? ==> SymKept(c, x, u, x', u', t))
    && (forall k <- c.choices :: Populated(c, k) && (forall m <- c.choices[k].members :: m !in ss) ==>
          ChoiceKept(c, x, u, x', u', k))
  }

  ghost predicate SymKept(c: Config, x: Ctx, u: Users, x': Ctx, u': Users, t: SymName)
    requires Closed(c) && UsersOk(c, u) && UsersOk(c, u') && t in c.syms
  {
    Value(c, x, u, t) == Value(c, x', u', t) && Vis(c, x, t) == Vis(c, x', t)
  }

  ghost predicate ChoiceKept(c: Config, x: Ctx, u: Users, x': Ctx, u': Users, k: ChoiceId)
    requires Closed(c) && UsersOk(c, u) && UsersOk(c, u') && k in c.choices
  {
    ChoiceVis(c, x, k) == ChoiceVis(c, x', k) && Selection(c, x, u, k) == Selection(c, x', u', k)
  }

  /** Dropping everything that can be dropped is always enough. */
  lemma AllDropped(c: Config, rank: map<SymName, nat>, u: Users, u': Users, ss: set<SymName>)
    requires Model(c, rank) && UsersOk(c, u) && UsersOk(c, u') && c.syms.Keys <= ss
    ensures KeepsRest(c, rank, u, u', ss)
  {
    hide Acyclic, UsersOk, World, SymKept, ChoiceKept;
    forall k | k in c.choices && Populated(c, k) ensures exists m :: m in c.choices[k].members && m in ss {
      assert ClosedChoice(c, k);
      assert c.choices[k].members[0] in c.choices[k].members;
    }
  }

  /** With the same user values nothing changes. */
  lemma NothingChanged(c: Config, rank: map<SymName, nat>, u: Users, ss: set<SymName>)
    requires Model(c, rank) && UsersOk(c, u)
    ensures KeepsRest(c, rank, u, u, ss)
  {
    hide Model, Closed, UsersOk, World, Value, Vis, ChoiceVis, Selection;
  }

  /** Two changes, one after the other. */
  lemma KeptTwice(c: Config, rank: map<SymName, nat>, u: Users, u1: Users, u2: Users,
                  ss: set<SymName>, ts: set<SymName>)
    requires Model(c, rank) && UsersOk(c, u) && UsersOk(c, u1) && UsersOk(c, u2)
    requires KeepsRest(c, rank, u, u1, ss) && KeepsRest(c, rank, u1, u2, ts)
    ensures KeepsRest(c, rank, u, u2, ss + ts)
  {
    hide Model, Closed, UsersOk, World, Value, Vis, ChoiceVis, Selection, Populated;
    ClosedModel(c, rank);
    var x, x1, x2 := World(c, rank, u), World(c, rank, u1), World(c, rank, u2);
    forall t | t in c.syms && t !in ss + ts && c.syms[t].special.None? ensures SymKept(c, x, u, x2, u2, t) {
      assert SymKept(c, x, u, x1, u1, t) && SymKept(c, x1, u1, x2, u2, t);
    }
    forall k | k in c.choices && Populated(c, k) && forall m <- c.choices[k].members :: m !in ss + ts
      ensures ChoiceKept(c, x, u, x2, u2, k)
    {
      assert ChoiceKept(c, x, u, x1, u1, k) && ChoiceKept(c, x1, u1, x2, u2, k);
    }
  }

  /** Nothing outside the cone changes unless modules are switched. */
  lemma ConeKeepsRest(c: Config, rank: map<SymName, nat>, u: Users, u': Users, s: SymName)
    requires Model(c, rank) && UsersOk(c, u) && UsersOk(c, u') && s in c.syms && DiffersAt(c, u, u', s)
    requires World(c, rank, u).off == World(c, rank, u').off
    ensures KeepsRest(c, rank, u, u', ConeOf(c, rank, s))
  {
    hide Model, Closed, UsersOk, World, ConeOf, DiffersAt, SymKept, ChoiceKept;
    ClosedModel(c, rank);
    forall t | t in c.syms && t !in ConeOf(c, rank, s)
      ensures SymKept(c, World(c, rank, u), u, World(c, rank, u'), u', t)
    {
      SymOutsideCone(c, rank, u, u', s, t);
    }
    forall k | k in c.choices && Populated(c, k) && forall m <- c.choices[k].members :: m !in ConeOf(c, rank, s)
      ensures ChoiceKept(c, World(c, rank, u), u, World(c, rank, u'), u', k)
    {
      ChoiceKeptOutsideCone(c, rank, u, u', s, k);
    }
  }

  lemma SymOutsideCone(c: Config, rank: map<SymName, nat>, u: Users, u': Users, s: SymName, t: SymName)
    requires Closed(c) && Model(c, rank) && UsersOk(c, u) && UsersOk(c, u') && s in c.syms && DiffersAt(c, u, u', s)
    requires World(c, rank, u).off == World(c, rank, u').off && t in c.syms && t !in ConeOf(c, rank, s)
    ensures SymKept(c, World(c, rank, u), u, World(c, rank, u'), u', t)
  {
    hide Model, Closed, UsersOk, World, ConeOf, DiffersAt, Value, Vis;
    RestOutsideCone(c, rank, u, u', s, t);
  }

  lemma ChoiceKeptOutsideCone(c: Config, rank: map<SymName, nat>, u: Users, u': Users, s: SymName, k: ChoiceId)
    requires Closed(c) && Model(c, rank) && UsersOk(c, u) && UsersOk(c, u') && s in c.syms && DiffersAt(c, u, u', s)
    requires World(c, rank, u).off == World(c, rank, u').off
    requires k in c.choices && Populated(c, k) && forall m <- c.choices[k].members :: m !in ConeOf(c, rank, s)
    ensures ChoiceKept(c, World(c, rank, u), u, World(c, rank, u'), u', k)
  {
    hide Model, Closed, UsersOk, World, ConeOf, DiffersAt, ChoiceVis, Selection, Mode;
    ChoiceOutsideCone(c, rank, u, u', s, k);
  }

  lemma ClosedModel(c: Config, rank: map<SymName, nat>)
    requires Model(c, rank)
    ensures Closed(c)
  {
  }

  // ---------- what a symbol itself is computed from ----------

  /** The inputs of a symbol do not change with its own user value, whether modules are switched or not. */
  lemma OwnInputStable(c: Config, rank: map<SymName, nat>, u: Users, u': Users, s: SymName, n: SymName)
    requires Model(c, rank) && UsersOk(c, u) && UsersOk(c, u') && s in c.syms && DiffersAt(c, u, u', s)
    requires n in DirectInputs(c, s)
    ensures Look(AllVals(c, rank, u), n) == Look(AllVals(c, rank, u'), n)
  {
    assert ReadsFrom(c, s, n);
    InputsComeFirst(c, rank, s, n);
    EarlierOutsideCone(c, rank, s, n);
    hide Closed, Acyclic, UsersOk, DiffersAt, DirectInputs, ReadsFrom, ConeOf;
    if MODULES in ConeOf(c, rank, s) {
      ConeAfter(c, rank, s, MODULES);
      ModulesOutsideCone(c, rank, u, u', s, n);
    } else {
      ModulesStay(c, rank, u, u', s);
      ValueOutsideCone(c, rank, u, u', s, n);
    }
  }

  lemma EarlierOutsideCone(c: Config, rank: map<SymName, nat>, s: SymName, n: SymName)
    requires Model(c, rank) && s in c.syms && n in c.syms && rank[n] < rank[s]
    ensures n !in ConeOf(c, rank, s)
  {
    hide Closed, Acyclic;
    if n in ConeOf(c, rank, s) { ConeAfter(c, rank, s, n); }
  }

  /** Whatever depends on a symbol does not come before it. */
  lemma ConeAfter(c: Config, rank: map<SymName, nat>, s: SymName, t: SymName)
    requires Model(c, rank) && s in c.syms && t in ConeOf(c, rank, s)
    ensures t in c.syms && rank[s] <= rank[t]
  {
    GraphOrdered(c, rank);
    hide Closed, Acyclic, Ordered, Dependents;
    if t != s {
      DependentsAreReachable(GraphOf(c), rank, s, t);
      if t in GraphOf(c).group[s] { GroupFacts(c, rank, s, t); }
    }
  }

  // ---------- assignments ----------

  /** The user values after set_user_value: unchanged unless the symbol is an ordinary defined one and
      the value fits its type; "y" and "m" also set the mode of the symbol's choice. */
  function Assigned(c: Config, u: Users, s: SymName, v: string): Users
    requires s in c.syms
  {
    var d := c.syms[s];
    if d.special.Some? || !d.defined || !ValidFor(c, s, v) then u
    else
      var sym := u.sym[s := v];
      if d.choice.None? || !Logical(d.ty) then u.(sym := sym)
      else if v == "y" then Users(sym, u.sel[d.choice.value := s], u.mode[d.choice.value := Y])
      else if v == "m" then Users(sym, u.sel - {d.choice.value}, u.mode[d.choice.value := M])
      else u.(sym := sym)
  }

  /** The user values after unset_user_value. */
  function Unassigned(c: Config, u: Users, s: SymName): Users
    requires s in c.syms
  {
    var d := c.syms[s];
    if d.choice.None? then u.(sym := u.sym - {s})
    else Users(u.sym - {s}, u.sel - {d.choice.value}, u.mode - {d.choice.value})
  }

  const NOBODY := Users(map[], map[], map[])

  lemma NobodyOk(c: Config)
    ensures UsersOk(c, NOBODY)
  {
  }

  /** The user values after load_config has read the settings. */
  function Loaded(c: Config, u: Users, settings: seq<(SymName, string)>): Users
    decreases settings
  {
    if settings == [] then u
    else
      var (s, v) := settings[0];
      Loaded(c, if s in c.syms then Assigned(c, u, s, v) else u, settings[1..])
  }

  lemma AssignedOk(c: Config, u: Users, s: SymName, v: string)
    requires Closed(c) && UsersOk(c, u) && s in c.syms
    ensures UsersOk(c, Assigned(c, u, s, v))
  {
  }

  lemma AssignedDiffers(c: Config, u: Users, s: SymName, v: string)
    requires s in c.syms
    ensures DiffersAt(c, u, Assigned(c, u, s, v), s)
  {
    hide ValidFor;
  }

  lemma UnassignedOk(c: Config, u: Users, s: SymName)
    requires Closed(c) && UsersOk(c, u) && s in c.syms
    ensures UsersOk(c, Unassigned(c, u, s)) && DiffersAt(c, u, Unassigned(c, u, s), s)
  {
    hide Closed;
  }

  /** The set kconfiglib collects for invalidation. */
  ghost function AllDependents(c: Config, rank: map<SymName, nat>, s: SymName): set<SymName>
    requires Model(c, rank) && s in c.syms
  {
    GraphOrdered(c, rank);
    Dependents(GraphOf(c), rank, s)
  }
}
