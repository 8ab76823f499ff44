/** When an expression can be evaluated without looking at symbols that come later. */
module Evaluability {
  import opened Wrappers
  import opened Tristate
  import opened Expressions
  import opened Configuration
  import opened Recomputation

  /** MODULES, if it exists, is decided before rank `r`. */
  ghost predicate ModulesKnown(c: Config, rank: map<SymName, nat>, r: nat) {
    MODULES in c.syms ==> MODULES in rank && rank[MODULES] < r
  }

  ghost predicate SymsReady(c: Config, rank: map<SymName, nat>, syms: set<SymName>, r: nat) {
    forall n <- syms :: n in c.syms && n in rank && rank[n] < r
  }

  /** All symbols of `e` come before rank `r`, and `e` needs promotion only if MODULES does too. */
  ghost predicate Ready(c: Config, rank: map<SymName, nat>, e: Option<Expr>, r: nat) {
    SymsReady(c, rank, SymsOfOpt(e), r) && (ModulesKnown(c, rank, r) || NeverMOpt(e, Tristates(c)))
  }

  lemma {:induction false} PromptsReady(c: Config, rank: map<SymName, nat>, r: nat, ps: seq<Option<Expr>>, i: nat)
    requires SymsReady(c, rank, PromptSyms(ps), r) && i < |ps|
    requires ModulesKnown(c, rank, r) || forall p <- ps :: NeverMOpt(p, Tristates(c))
    ensures Ready(c, rank, ps[i], r)
  {
    if i < |ps| - 1 {
      PromptsReady(c, rank, r, ps[..|ps| - 1], i);
    }
  }

  lemma {:induction false} DefaultReady(c: Config, rank: map<SymName, nat>, r: nat, ds: seq<Default>, i: nat,
                                        logical: bool)
    requires SymsReady(c, rank, DefaultSyms(ds), r) && i < |ds|
    requires ModulesKnown(c, rank, r) ||
             forall e <- ds :: NeverMOpt(e.cond, Tristates(c)) && (logical ==> NeverM(e.val, Tristates(c)))
    ensures Ready(c, rank, ds[i].cond, r) && SymsReady(c, rank, SymsOf(ds[i].val), r)
    ensures logical ==> Ready(c, rank, Some(ds[i].val), r)
  {
    if i > 0 { DefaultReady(c, rank, r, ds[1..], i - 1, logical); }
  }

  lemma {:induction false} RangeReady(c: Config, rank: map<SymName, nat>, r: nat, rs: seq<Range>, i: nat)
    requires SymsReady(c, rank, RangeSyms(rs), r) && i < |rs|
    requires ModulesKnown(c, rank, r) || forall e <- rs :: NeverMOpt(e.cond, Tristates(c))
    ensures Ready(c, rank, rs[i].cond, r)
    ensures SymsReady(c, rank, AtomSyms(rs[i].low) + AtomSyms(rs[i].high), r)
  {
    if i > 0 { RangeReady(c, rank, r, rs[1..], i - 1); }
  }

  lemma {:induction false} PickReady(c: Config, rank: map<SymName, nat>, r: nat, ps: seq<Pick>, i: nat)
    requires SymsReady(c, rank, PickSyms(ps), r) && i < |ps| && ModulesKnown(c, rank, r)
    ensures Ready(c, rank, ps[i].cond, r)
  {
    if i > 0 { PickReady(c, rank, r, ps[1..], i - 1); }
  }

  /** Everything a symbol is computed from can be evaluated before it. */
  lemma OwnReady(c: Config, rank: map<SymName, nat>, s: SymName)
    requires Model(c, rank) && s in c.syms
    ensures SymsReady(c, rank, DirectInputs(c, s), rank[s])
    ensures c.syms[s].special.None? || c.syms[s].prompts != [] ==> ModulesKnown(c, rank, rank[s]) || Quiet(c, s)
  {
    assert InputsFirst(c, rank, s);
  }

  /** A choice member is never one of the symbols MODULES is computed from. */
  lemma MemberKnowsModules(c: Config, rank: map<SymName, nat>, k: ChoiceId, m: SymName)
    requires Model(c, rank) && k in c.choices && m in c.choices[k].members
    ensures m in c.syms && c.syms[m].choice == Some(k) && c.syms[m].special.None? && Logical(c.syms[m].ty)
    ensures ModulesKnown(c, rank, rank[m])
    ensures SymsReady(c, rank, ChoiceInputs(c.choices[k]), rank[m])
  {
    assert ClosedChoice(c, k);
    OwnReady(c, rank, m);
  }

  /** A rank above that of every symbol. */
  ghost function Bound(rank: map<SymName, nat>): (r: nat)
    ensures forall s <- rank :: rank[s] < r
    decreases |rank|
  {
    if rank == map[] then 0
    else
      var s :| s in rank;
      var r := Bound(rank - {s});
      assert forall t <- rank :: t != s ==> t in rank - {s};
      if rank[s] < r then r else rank[s] + 1
  }

  /** Everything a choice is computed from can be evaluated at the end. */
  lemma ChoiceReady(c: Config, rank: map<SymName, nat>, k: ChoiceId)
    requires Model(c, rank) && k in c.choices
    ensures ModulesKnown(c, rank, Bound(rank)) && SymsReady(c, rank, ChoiceInputs(c.choices[k]), Bound(rank))
  {
  }

  /** Without promotion there is nothing to promote. */
  lemma NotM(c: Config, x: Ctx, e: Option<Expr>)
    requires BoolsAreBool(x.env, Tristates(c)) && NeverMOpt(e, Tristates(c)) && e.Some?
    ensures Raw(e.value, x.env) != M
  {
    NeverMSound(e.value, Tristates(c), x.env);
  }

  lemma {:induction false} SymsOfAllHas(es: seq<Expr>, i: nat)
    requires i < |es|
    ensures SymsOf(es[i]) <= SymsOfAll(es)
  {
    if i > 0 { SymsOfAllHas(es[1..], i - 1); }
  }

  /** What the evaluator knows about the final context. */
  lemma WorldFacts(c: Config, rank: map<SymName, nat>, u: Users)
    requires Model(c, rank) && UsersOk(c, u)
    ensures BoolsAreBool(World(c, rank, u).env, Tristates(c))
  {
    ValsAreBool(c, rank, u, AllVals(c, rank, u));
  }

  lemma WorldLook(c: Config, rank: map<SymName, nat>, u: Users, s: SymName)
    requires Model(c, rank) && UsersOk(c, u) && s in c.syms
    ensures Look(World(c, rank, u).env.vals, s) == Value(c, World(c, rank, u), u, s).text
    ensures s in World(c, rank, u).env.logical <==> Logical(c.syms[s].ty)
  {
    Fixpoint(c, rank, u, s);
  }

  lemma ShowRead(t: Tri, x: Ctx)
    ensures Raw(Leaf(Str(Show(t))), x.env) == t == Read(Show(t))
  {
    var s := Show(t);
    assert s == Show(t);
  }

  /** An undefined symbol is never written to .config, and its value is its name. */
  lemma UnknownValue(c: Config, x: Ctx, u: Users, s: SymName)
    requires Closed(c) && UsersOk(c, u) && s in c.syms && c.syms[s].special.None? && c.syms[s].ty == Unknown
    ensures Value(c, x, u, s) == Outcome(s, false)
  {
    hide Closed, UsersOk;
  }

  /** For a quiet bool symbol, nothing on the way to its value is "m". */
  lemma QuietNeverM(c: Config, x: Ctx, s: SymName)
    requires Closed(c) && s in c.syms && Quiet(c, s) && Logical(c.syms[s].ty)
    requires BoolsAreBool(x.env, Tristates(c))
    ensures Vis(c, x, s) != M && Cond(x, Some(c.syms[s].revDep)) != M
    ensures ActiveDefault(x, c.syms[s].defaults) != Some(M)
    ensures forall i :: 0 <= i < |c.syms[s].defaults| ==> Cond(x, c.syms[s].defaults[i].cond) != M
  {
    var d, ts := c.syms[s], Tristates(c);
    hide Closed, BoolsAreBool, NeverM, Cond, PromptsVis, ActiveDefault;
    QuietPrompts(x, x.off, d.prompts, ts);
    QuietCond(x, x.off, Some(d.revDep), ts);
    QuietDefaults(c, x, x.off, d.defaults, ts, true, 10, None, Outcome("", false));
    forall i | 0 <= i < |d.defaults| ensures Cond(x, d.defaults[i].cond) != M {
      QuietCond(x, x.off, d.defaults[i].cond, ts);
    }
  }

  lemma ModelFacts(c: Config, rank: map<SymName, nat>)
    requires Model(c, rank)
    ensures Closed(c) && rank.Keys == c.syms.Keys
  {
  }
}
