/** What fails, shown on concrete configurations: four ways in which something cached goes stale, and an
    assignable value that is not honoured. */
module CacheLimits {
  import opened Wrappers
  import opened Tristate
  import opened Expressions
  import opened Configuration
  import opened Recomputation
  import opened Evaluability
  import opened DependencyGraph
  import opened Dependencies
  import opened SymbolCache
  import opened SymbolLaws

  const ALWAYS: seq<Option<Expr>> := [None]

  /** A symbol with one unconditional prompt and nothing else. */
  function Prompted(ty: SymType): SymDef {
    SymDef(ty, ALWAYS, [], [], Leaf(Str("n")), None, true, None)
  }

  /** A bool MODULES and a tristate T, unrelated to each other. */
  function ModulesConfig(num: Numerals): Config {
    Config(map[MODULES := Prompted(Bool), "T" := Prompted(Tristate)], map[], num)
  }

  const FLAT_RANK: map<SymName, nat> := map[MODULES := 0, "T" := 1]

  /** MODULES = y and T = m. */
  const MODULES_ON := Users(map[MODULES := "y", "T" := "m"], map[], map[])

  lemma NoInputs(num: Numerals, s: SymName)
    requires s == MODULES || s == "T"
    ensures s in ModulesConfig(num).syms && DirectInputs(ModulesConfig(num), s) == {}
  {
    assert PromptSyms(ALWAYS) == {} by { assert ALWAYS[..0] == []; }
  }

  lemma ModulesModel(num: Numerals)
    ensures Model(ModulesConfig(num), FLAT_RANK) && UsersOk(ModulesConfig(num), MODULES_ON)
    ensures UsersOk(ModulesConfig(num), Unassigned(ModulesConfig(num), MODULES_ON, MODULES))
  {
    ModulesAcyclic(num);
    hide Model;
    assert UsersOk(ModulesConfig(num), MODULES_ON);
  }

  lemma ModulesAcyclic(num: Numerals)
    ensures Model(ModulesConfig(num), FLAT_RANK)
  {
    var c := ModulesConfig(num);
    assert "T" != MODULES by { assert |"T"| != |MODULES|; }
    NoInputs(num, MODULES);
    NoInputs(num, "T");
    assert InputsFirst(c, FLAT_RANK, MODULES) && InputsFirst(c, FLAT_RANK, "T");
    ModulesQuiet(num);
    hide Quiet, DirectInputs, InputsFirst;
    assert Acyclic(c, FLAT_RANK);
  }

  lemma ModulesQuiet(num: Numerals)
    ensures Quiet(ModulesConfig(num), MODULES)
  {
  }

  lemma PromptAlwaysVisible(x: Ctx)
    ensures PromptsVis(x, ALWAYS) == Y
  {
    assert ALWAYS[..0] == [];
  }

  /** The value of a prompted symbol. */
  lemma PromptedValue(num: Numerals, u: Users, s: SymName, x: Ctx)
    requires UsersOk(ModulesConfig(num), u) && Closed(ModulesConfig(num))
    requires s in ModulesConfig(num).syms
    ensures Value(ModulesConfig(num), x, u, s).text ==
            if s in u.sym then Show(Promote(ModulesConfig(num).syms[s].ty == Bool, Promote(x.off, Read(u.sym[s]))))
            else "n"
  {
    PromptAlwaysVisible(x);
    hide UsersOk, Closed, PromptsVis;
  }

  lemma ModulesOff(num: Numerals, u: Users)
    requires Model(ModulesConfig(num), FLAT_RANK) && UsersOk(ModulesConfig(num), u)
    ensures Val(ModulesConfig(num), FLAT_RANK, u, "T") ==
            if "T" !in u.sym then "n"
            else Show(Promote(!(MODULES in u.sym && u.sym[MODULES] == "y"), Read(u.sym["T"])))
  {
    hide Model, UsersOk, Closed, Value, Val;
    var c := ModulesConfig(num);
    ModelFacts(c, FLAT_RANK);
    var x := World(c, FLAT_RANK, u);
    Fixpoint(c, FLAT_RANK, u, MODULES);
    Fixpoint(c, FLAT_RANK, u, "T");
    PromptedValue(num, u, MODULES, x);
    PromptedValue(num, u, "T", x);
    assert "T" != MODULES by { assert |"T"| != |MODULES|; }
    if MODULES in u.sym { BoolUser(num, u); }
  }

  lemma BoolUser(num: Numerals, u: Users)
    requires UsersOk(ModulesConfig(num), u) && MODULES in u.sym
    ensures u.sym[MODULES] == "y" || u.sym[MODULES] == "n"
    ensures Show(Promote(true, Promote(true, Read(u.sym[MODULES])))) == u.sym[MODULES]
    ensures Show(Promote(true, Promote(false, Read(u.sym[MODULES])))) == u.sym[MODULES]
  {
    assert ValidFor(ModulesConfig(num), MODULES, u.sym[MODULES]);
    assert "T" != MODULES by { assert |"T"| != |MODULES|; }
  }

  /** unset_user_value() on MODULES does not invalidate everything, unlike set_user_value(): the
      value "m" cached for T stays, although recomputation now gives "y". */
  lemma UnsetModulesGoesStale(num: Numerals, q: Caches)
    requires "T" in q.syms && q.syms["T"].val == Some("m")
    ensures Model(ModulesConfig(num), FLAT_RANK) && UsersOk(ModulesConfig(num), MODULES_ON)
    ensures UsersOk(ModulesConfig(num), Unassigned(ModulesConfig(num), MODULES_ON, MODULES))
    ensures Val(ModulesConfig(num), FLAT_RANK, MODULES_ON, "T") == "m"
    ensures Forgotten(ModulesConfig(num), q, ConeOf(ModulesConfig(num), FLAT_RANK, MODULES)).syms["T"].val == Some("m")
    ensures Val(ModulesConfig(num), FLAT_RANK, Unassigned(ModulesConfig(num), MODULES_ON, MODULES), "T") == "y"
  {
    hide Model, UsersOk, Closed, Val, ConeOf, World;
    var c := ModulesConfig(num);
    ModulesModel(num);
    assert "T" != MODULES by { assert |"T"| != |MODULES|; }
    ModulesOff(num, MODULES_ON);
    ModulesOff(num, Unassigned(c, MODULES_ON, MODULES));
    NotADependent(num);
  }

  lemma NotADependent(num: Numerals)
    requires Model(ModulesConfig(num), FLAT_RANK)
    ensures "T" !in ConeOf(ModulesConfig(num), FLAT_RANK, MODULES)
  {
    hide Model, Closed, ConeOf;
    ModelFacts(ModulesConfig(num), FLAT_RANK);
    NoInputs(num, "T");
    assert "T" != MODULES by { assert |"T"| != |MODULES|; }
    NeverReached(ModulesConfig(num), FLAT_RANK, MODULES, "T");
  }

  /** A symbol outside choices that is computed from nothing is in no cone but its own. */
  lemma NeverReached(c: Config, rank: map<SymName, nat>, s: SymName, t: SymName)
    requires Model(c, rank) && s in c.syms && t in c.syms && s != t
    requires DirectInputs(c, t) == {} && c.syms[t].choice.None?
    ensures t !in ConeOf(c, rank, s)
  {
    GraphOrdered(c, rank);
    OnlyItselfReaches(c, rank, t);
    DependentsExact(GraphOf(c), rank, s, t);
    hide Model, Closed, GraphOf, DirectInputs, Dependents, Reachable;
    if Reachable(GraphOf(c), s, t) { PathToItself(GraphOf(c), s, t); }
  }

  lemma OnlyItselfReaches(c: Config, rank: map<SymName, nat>, t: SymName)
    requires Model(c, rank) && t in c.syms && DirectInputs(c, t) == {} && c.syms[t].choice.None?
    ensures forall b :: Step(GraphOf(c), b, t) ==> b == t
  {
    hide DirectInputs, Acyclic;
    forall b | Step(GraphOf(c), b, t) ensures b == t {
      assert t !in DepOf(c, b);
      assert t in Group(c, b);
    }
  }

  lemma PathToItself(g: Graph, s: SymName, t: SymName)
    requires Reachable(g, s, t) && forall b :: Step(g, b, t) ==> b == t
    ensures s == t
  {
    var p :| Path(g, p) && p[0] == s && p[|p| - 1] == t;
    PathStays(g, p, t);
  }

  lemma {:induction false} PathStays(g: Graph, p: seq<SymName>, t: SymName)
    requires Path(g, p) && p[|p| - 1] == t && forall b :: Step(g, b, t) ==> b == t
    ensures p[0] == t
  {
    if |p| > 1 {
      forall i | 0 <= i < |p[1..]| - 1 ensures Step(g, p[1..][i], p[1..][i + 1]) {
        assert Step(g, p[i + 1], p[i + 1 + 1]);
      }
      PathStays(g, p[1..], t);
      assert Step(g, p[0], p[0 + 1]);
    }
  }

  // ---------- a symbol that MODULES depends on ----------

  /** MODULES is selected by the bool symbol A; the tristate T is unrelated to both. */
  function SelectConfig(num: Numerals): Config {
    Config(map["A" := Prompted(Bool), MODULES := SymDef(Bool, [], [], [], Leaf(Sym("A")), None, true, None),
               "T" := Prompted(Tristate)],
           map[], num)
  }

  const SELECT_RANK: map<SymName, nat> := map["A" := 0, MODULES := 1, "T" := 2]

  /** A = y, which switches modules on, and T = m. */
  const SELECTED := Users(map["A" := "y", "T" := "m"], map[], map[])

  lemma SelectNames()
    ensures "A" != "T" && "A" != MODULES && "T" != MODULES
  {
    assert "A"[0] != "T"[0] && |"A"| != |MODULES| && |"T"| != |MODULES|;
  }

  lemma SelectInputs(num: Numerals)
    ensures var c := SelectConfig(num);
            && "A" in c.syms && "T" in c.syms && MODULES in c.syms
            && DirectInputs(c, "A") == {} && DirectInputs(c, "T") == {} && DirectInputs(c, MODULES) == {"A"}
  {
    SelectNames();
    assert PromptSyms(ALWAYS) == {} by { assert ALWAYS[..0] == []; }
  }

  lemma SelectModel(num: Numerals)
    ensures Model(SelectConfig(num), SELECT_RANK) && UsersOk(SelectConfig(num), SELECTED)
    ensures UsersOk(SelectConfig(num), Assigned(SelectConfig(num), SELECTED, "A", "n"))
  {
    hide Closed, Acyclic, UsersOk, Assigned;
    SelectNames();
    SelectClosed(num);
    SelectAcyclic(num);
    AssignedOk(SelectConfig(num), SELECTED, "A", "n");
  }

  lemma SelectClosed(num: Numerals)
    ensures Closed(SelectConfig(num)) && UsersOk(SelectConfig(num), SELECTED)
  {
    SelectNames();
  }

  lemma SelectAcyclic(num: Numerals)
    requires Closed(SelectConfig(num))
    ensures Acyclic(SelectConfig(num), SELECT_RANK)
  {
    var c := SelectConfig(num);
    SelectNames();
    SelectInputs(num);
    SelectQuiet(num);
    assert InputsFirst(c, SELECT_RANK, "A") && InputsFirst(c, SELECT_RANK, MODULES) && InputsFirst(c, SELECT_RANK, "T");
    hide Closed, Quiet, DirectInputs, InputsFirst;
  }

  lemma SelectQuiet(num: Numerals)
    ensures "A" in SelectConfig(num).syms && Quiet(SelectConfig(num), "A")
    ensures MODULES in SelectConfig(num).syms && Quiet(SelectConfig(num), MODULES)
  {
    SelectNames();
    assert "A" !in Tristates(SelectConfig(num));
  }

  /** A switches modules on and off. */
  lemma SelectedModules(num: Numerals, u: Users)
    requires Model(SelectConfig(num), SELECT_RANK) && UsersOk(SelectConfig(num), u)
    ensures World(SelectConfig(num), SELECT_RANK, u).off <==> !("A" in u.sym && u.sym["A"] == "y")
  {
    hide Model, UsersOk, Closed, Val;
    var c := SelectConfig(num);
    ModelFacts(c, SELECT_RANK);
    var x := World(c, SELECT_RANK, u);
    SelectNames();
    Fixpoint(c, SELECT_RANK, u, "A");
    Fixpoint(c, SELECT_RANK, u, MODULES);
    PromptedA(c, u, x);
    SelectedValue(c, u, x);
  }

  lemma SelectedValue(c: Config, u: Users, x: Ctx)
    requires Closed(c) && UsersOk(c, u) && "A" in c.syms && MODULES in c.syms
    requires c.syms[MODULES] == SymDef(Bool, [], [], [], Leaf(Sym("A")), None, true, None)
    requires "A" in x.env.logical && (Look(x.env.vals, "A") == "y" || Look(x.env.vals, "A") == "n")
    ensures Value(c, x, u, MODULES).text == Look(x.env.vals, "A")
  {
    hide Closed, UsersOk;
  }

  /** The value of T. */
  lemma SelectedT(num: Numerals, u: Users)
    requires Model(SelectConfig(num), SELECT_RANK) && UsersOk(SelectConfig(num), u)
    requires "T" in u.sym && u.sym["T"] == "m"
    ensures Val(SelectConfig(num), SELECT_RANK, u, "T") == if "A" in u.sym && u.sym["A"] == "y" then "m" else "y"
  {
    hide Model, UsersOk, Closed, Val;
    var c := SelectConfig(num);
    ModelFacts(c, SELECT_RANK);
    var x := World(c, SELECT_RANK, u);
    SelectNames();
    Fixpoint(c, SELECT_RANK, u, "T");
    SelectedModules(num, u);
    PromptAlwaysVisible(x);
    hide PromptsVis, World;
  }

  /** Assigning a symbol that MODULES is computed from switches modules too, and nothing is invalidated for
      that either: the value "m" cached for T stays. */
  lemma SetSelectorGoesStale(num: Numerals, q: Caches)
    requires "T" in q.syms && q.syms["T"].val == Some("m")
    ensures Model(SelectConfig(num), SELECT_RANK) && UsersOk(SelectConfig(num), SELECTED)
    ensures UsersOk(SelectConfig(num), Assigned(SelectConfig(num), SELECTED, "A", "n"))
    ensures Val(SelectConfig(num), SELECT_RANK, SELECTED, "T") == "m"
    ensures Forgotten(SelectConfig(num), q, ConeOf(SelectConfig(num), SELECT_RANK, "A")).syms["T"].val == Some("m")
    ensures Val(SelectConfig(num), SELECT_RANK, Assigned(SelectConfig(num), SELECTED, "A", "n"), "T") == "y"
  {
    hide Model, UsersOk, Closed, Val, ConeOf, World, DirectInputs;
    SelectModel(num);
    SelectNames();
    SelectInputs(num);
    SelectedT(num, SELECTED);
    SelectedT(num, Assigned(SelectConfig(num), SELECTED, "A", "n"));
    NeverReached(SelectConfig(num), SELECT_RANK, "A", "T");
  }

  // ---------- an assignable value that is not honoured ----------

  /** With modules off, "m" is listed for T, and assigning it gives "y". */
  lemma ListedNotHonoured(num: Numerals)
    ensures Model(ModulesConfig(num), FLAT_RANK) && UsersOk(ModulesConfig(num), NOBODY)
    ensures UsersOk(ModulesConfig(num), Assigned(ModulesConfig(num), NOBODY, "T", "m"))
    ensures M in AssignableValues(ModulesConfig(num), World(ModulesConfig(num), FLAT_RANK, NOBODY), "T")
    ensures Val(ModulesConfig(num), FLAT_RANK, Assigned(ModulesConfig(num), NOBODY, "T", "m"), "T") == "y"
  {
    hide Model, Closed, UsersOk, Val, World, PromptsVis, AssignableValues, Assigned;
    var c := ModulesConfig(num);
    ModulesModel(num);
    ModelFacts(c, FLAT_RANK);
    NobodyOk(c);
    AssignedOk(c, NOBODY, "T", "m");
    AllListed(c, World(c, FLAT_RANK, NOBODY));
    AssignedM(num);
    ModulesOff(num, Assigned(c, NOBODY, "T", "m"));
  }

  lemma AllListed(c: Config, x: Ctx)
    requires Closed(c) && "T" in c.syms && c.syms["T"] == Prompted(Tristate)
    ensures AssignableValues(c, x, "T") == [N, M, Y]
  {
    PromptAlwaysVisible(x);
    hide Closed, PromptsVis;
  }

  lemma AssignedM(num: Numerals)
    ensures Assigned(ModulesConfig(num), NOBODY, "T", "m") == Users(map["T" := "m"], map[], map[])
    ensures "T" != MODULES
  {
    assert "T" != MODULES by { assert |"T"| != |MODULES|; }
  }

  // ---------- special symbols ----------

  /** A symbol taken from the environment whose prompt depends on the bool symbol A. */
  function EnvConfig(num: Numerals): Config {
    Config(map["A" := Prompted(Bool),
               "E" := SymDef(Text, [Some(Leaf(Sym("A")))], [], [], Leaf(Str("n")), Some("env"), true, None)],
           map[], num)
  }

  const ENV_RANK: map<SymName, nat> := map["A" := 0, "E" := 1]

  lemma EnvModel(num: Numerals)
    ensures Model(EnvConfig(num), ENV_RANK) && UsersOk(EnvConfig(num), NOBODY)
    ensures UsersOk(EnvConfig(num), Assigned(EnvConfig(num), NOBODY, "A", "y"))
  {
    var c := EnvConfig(num);
    assert "A" != "E" by { assert "A"[0] != "E"[0]; }
    assert DirectInputs(c, "A") == {} by { assert PromptSyms(ALWAYS) == {} by { assert ALWAYS[..0] == []; } }
    assert DirectInputs(c, "E") == {"A"} by {
      var e: Option<Expr> := Some(Leaf(Sym("A")));
      assert PromptSyms([e]) == {"A"} by { assert [e][..0] == []; }
    }
    assert InputsFirst(c, ENV_RANK, "A") && InputsFirst(c, ENV_RANK, "E");
    assert MODULES !in c.syms by { assert |MODULES| != |"A"| && |MODULES| != |"E"|; }
    AssignedOk(c, NOBODY, "A", "y");
  }

  lemma EnvVisibility(num: Numerals, u: Users)
    requires Model(EnvConfig(num), ENV_RANK) && UsersOk(EnvConfig(num), u)
    ensures "E" in EnvConfig(num).syms && Closed(EnvConfig(num))
    ensures Vis(EnvConfig(num), World(EnvConfig(num), ENV_RANK, u), "E") ==
            if "A" in u.sym && u.sym["A"] == "y" then Y else N
  {
    hide Model, UsersOk, Closed, Val;
    var c := EnvConfig(num);
    ModelFacts(c, ENV_RANK);
    var x := World(c, ENV_RANK, u);
    Fixpoint(c, ENV_RANK, u, "A");
    assert "A" != "E" by { assert "A"[0] != "E"[0]; }
    PromptedA(c, u, x);
    var e: Option<Expr> := Some(Leaf(Sym("A")));
    assert [e][..0] == [];
    hide Value;
    assert "A" in x.env.logical && Look(x.env.vals, "A") == Value(c, x, u, "A").text;
    assert PromptsVis(x, [e]) == Cond(x, e);
  }

  /** The visibility cached for a special symbol is never dropped, not even when a symbol its prompt
      depends on is assigned. */
  lemma SpecialVisibilityGoesStale(num: Numerals, q: Caches)
    requires "E" in q.syms && q.syms["E"].vis == Some(N)
    ensures Model(EnvConfig(num), ENV_RANK) && UsersOk(EnvConfig(num), NOBODY) && Closed(EnvConfig(num))
    ensures UsersOk(EnvConfig(num), Assigned(EnvConfig(num), NOBODY, "A", "y"))
    ensures Vis(EnvConfig(num), World(EnvConfig(num), ENV_RANK, NOBODY), "E") == N
    ensures Forgotten(EnvConfig(num), q, ConeOf(EnvConfig(num), ENV_RANK, "A")).syms["E"].vis == Some(N)
    ensures Vis(EnvConfig(num), World(EnvConfig(num), ENV_RANK, Assigned(EnvConfig(num), NOBODY, "A", "y")), "E") == Y
  {
    hide Model, UsersOk, Closed, Val, ConeOf, World, Vis;
    EnvModel(num);
    EnvVisibility(num, NOBODY);
    EnvVisibility(num, Assigned(EnvConfig(num), NOBODY, "A", "y"));
    assert "A" != "E" by { assert "A"[0] != "E"[0]; }
  }

  // ---------- choices without members ----------

  /** A choice without members whose prompt depends on the bool symbol A. */
  function EmptyChoiceConfig(num: Numerals): Config {
    Config(map["A" := Prompted(Bool)], map[0 := ChoiceDef(Bool, [Some(Leaf(Sym("A")))], [], [], false)], num)
  }

  const A_RANK: map<SymName, nat> := map["A" := 0]

  lemma EmptyChoiceModel(num: Numerals)
    ensures Model(EmptyChoiceConfig(num), A_RANK) && UsersOk(EmptyChoiceConfig(num), NOBODY)
    ensures UsersOk(EmptyChoiceConfig(num), Assigned(EmptyChoiceConfig(num), NOBODY, "A", "y"))
  {
    var c := EmptyChoiceConfig(num);
    assert DirectInputs(c, "A") == {} by { assert PromptSyms(ALWAYS) == {} by { assert ALWAYS[..0] == []; } }
    var e: Option<Expr> := Some(Leaf(Sym("A")));
    assert PromptSyms([e]) == {"A"} by { assert [e][..0] == []; }
    assert InputsFirst(c, A_RANK, "A");
    assert MODULES !in c.syms by { assert |MODULES| != |"A"|; }
    AssignedOk(c, NOBODY, "A", "y");
  }

  lemma EmptyChoiceVisibility(num: Numerals, u: Users)
    requires Model(EmptyChoiceConfig(num), A_RANK) && UsersOk(EmptyChoiceConfig(num), u)
    ensures var x := World(EmptyChoiceConfig(num), A_RANK, u);
            ChoiceVis(EmptyChoiceConfig(num), x, 0) == if "A" in u.sym && u.sym["A"] == "y" then Y else N
  {
    hide Model, UsersOk, Closed, Val;
    var c := EmptyChoiceConfig(num);
    ModelFacts(c, A_RANK);
    var x := World(c, A_RANK, u);
    Fixpoint(c, A_RANK, u, "A");
    PromptedA(c, u, x);
    var e: Option<Expr> := Some(Leaf(Sym("A")));
    assert [e][..0] == [];
    hide Value;
    assert "A" in x.env.logical && Look(x.env.vals, "A") == Value(c, x, u, "A").text;
    assert PromptsVis(x, [e]) == Cond(x, e);
  }

  lemma PromptedA(c: Config, u: Users, x: Ctx)
    requires Closed(c) && UsersOk(c, u) && "A" in c.syms && c.syms["A"] == Prompted(Bool)
    ensures Value(c, x, u, "A").text == if "A" in u.sym && u.sym["A"] == "y" then "y" else "n"
  {
    if "A" in u.sym { assert ValidFor(c, "A", u.sym["A"]); }
    PromptAlwaysVisible(x);
    hide UsersOk, Closed, PromptsVis;
  }

  /** The visibility cached for a choice without members is never dropped: invalidation reaches a choice
      only through its members. */
  lemma EmptyChoiceGoesStale(num: Numerals, q: Caches)
    requires 0 in q.choices && q.choices[0].vis == Some(N)
    ensures Model(EmptyChoiceConfig(num), A_RANK) && UsersOk(EmptyChoiceConfig(num), NOBODY)
    ensures UsersOk(EmptyChoiceConfig(num), Assigned(EmptyChoiceConfig(num), NOBODY, "A", "y"))
    ensures ChoiceVis(EmptyChoiceConfig(num), World(EmptyChoiceConfig(num), A_RANK, NOBODY), 0) == N
    ensures Forgotten(EmptyChoiceConfig(num), q, EmptyChoiceConfig(num).syms.Keys).choices[0].vis == Some(N)
    ensures ChoiceVis(EmptyChoiceConfig(num),
                      World(EmptyChoiceConfig(num), A_RANK, Assigned(EmptyChoiceConfig(num), NOBODY, "A", "y")), 0) == Y
  {
    hide Model, UsersOk, Closed, Val, World, ChoiceVis;
    EmptyChoiceModel(num);
    EmptyChoiceVisibility(num, NOBODY);
    EmptyChoiceVisibility(num, Assigned(EmptyChoiceConfig(num), NOBODY, "A", "y"));
  }
}
