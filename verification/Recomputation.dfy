/** What a value depends on, and why recomputation has exactly one result. */
module Recomputation {
  import opened Wrappers
  import opened Tristate
  import opened Expressions
  import opened Configuration

  /** Contexts that cannot be told apart by reading the symbols in `syms`. */
  ghost predicate Alike(x: Ctx, x': Ctx, syms: set<SymName>) {
    x.off == x'.off && Agree(x.env, x'.env, syms)
  }

  lemma CondFrame(x: Ctx, x': Ctx, e: Option<Expr>)
    requires Alike(x, x', SymsOfOpt(e))
    ensures Cond(x, e) == Cond(x', e)
  {
    if e.Some? { RawFrame(e.value, x.env, x'.env); }
  }

  lemma {:induction false} PromptsFrame(x: Ctx, x': Ctx, ps: seq<Option<Expr>>)
    requires Alike(x, x', PromptSyms(ps))
    ensures PromptsVis(x, ps) == PromptsVis(x', ps)
  {
    if ps != [] {
      PromptsFrame(x, x', ps[..|ps| - 1]);
      CondFrame(x, x', ps[|ps| - 1]);
    }
  }

  lemma VisFrame(c: Config, x: Ctx, x': Ctx, s: SymName)
    requires Closed(c) && s in c.syms && Alike(x, x', DirectInputs(c, s))
    ensures Vis(c, x, s) == Vis(c, x', s)
    ensures c.syms[s].choice.Some? ==>
            ChoiceVis(c, x, c.syms[s].choice.value) == ChoiceVis(c, x', c.syms[s].choice.value)
  {
    var d := c.syms[s];
    PromptsFrame(x, x', d.prompts);
    if d.choice.Some? { PromptsFrame(x, x', c.choices[d.choice.value].prompts); }
  }

  lemma {:induction false} ActivePickFrame(x: Ctx, x': Ctx, ps: seq<Pick>)
    requires Alike(x, x', PickSyms(ps))
    ensures ActivePick(x, ps) == ActivePick(x', ps)
  {
    if ps != [] {
      CondFrame(x, x', ps[0].cond);
      ActivePickFrame(x, x', ps[1..]);
    }
  }

  lemma {:induction false} FirstVisibleFrame(c: Config, x: Ctx, x': Ctx, ms: seq<SymName>)
    requires Closed(c) && forall s <- ms :: s in c.syms && Alike(x, x', DirectInputs(c, s))
    ensures FirstVisible(c, x, ms) == FirstVisible(c, x', ms)
  {
    if ms != [] {
      VisFrame(c, x, x', ms[0]);
      FirstVisibleFrame(c, x, x', ms[1..]);
    }
  }

  /** Nothing about a choice depends on more than its own inputs and those of its members. */
  lemma ChoiceFrame(c: Config, x: Ctx, x': Ctx, u: Users, u': Users, k: ChoiceId)
    requires Closed(c) && UsersOk(c, u) && UsersOk(c, u') && k in c.choices
    requires Alike(x, x', ChoiceInputs(c.choices[k]))
    requires forall m <- c.choices[k].members :: m in c.syms ==> Alike(x, x', DirectInputs(c, m))
    requires SameChoiceUsers(u, u', k)
    ensures ChoiceVis(c, x, k) == ChoiceVis(c, x', k) && Mode(c, x, u, k) == Mode(c, x', u', k)
    ensures Selection(c, x, u, k) == Selection(c, x', u', k)
  {
    hide Alike, Mode, ChoiceVis, Vis, SelectionFromDefaults, ChoiceInputs, DirectInputs;
    ModeFrame(c, x, x', u, u', k);
    FromDefaultsFrame(c, x, x', k);
    MembersFrame(c, x, x', k);
  }

  lemma ModeFrame(c: Config, x: Ctx, x': Ctx, u: Users, u': Users, k: ChoiceId)
    requires k in c.choices && Alike(x, x', ChoiceInputs(c.choices[k])) && SameChoiceUsers(u, u', k)
    ensures ChoiceVis(c, x, k) == ChoiceVis(c, x', k) && Mode(c, x, u, k) == Mode(c, x', u', k)
  {
    PromptsFrame(x, x', c.choices[k].prompts);
    hide Alike, PromptsVis;
  }

  lemma MembersFrame(c: Config, x: Ctx, x': Ctx, k: ChoiceId)
    requires Closed(c) && k in c.choices
    requires forall m <- c.choices[k].members :: m in c.syms ==> Alike(x, x', DirectInputs(c, m))
    ensures forall m <- c.choices[k].members :: m in c.syms && Vis(c, x, m) == Vis(c, x', m)
  {
    hide Alike, DirectInputs, Vis;
    assert ClosedChoice(c, k);
    forall m | m in c.choices[k].members ensures m in c.syms && Vis(c, x, m) == Vis(c, x', m) {
      VisFrame(c, x, x', m);
    }
  }

  lemma FromDefaultsFrame(c: Config, x: Ctx, x': Ctx, k: ChoiceId)
    requires Closed(c) && k in c.choices && Alike(x, x', ChoiceInputs(c.choices[k]))
    requires forall m <- c.choices[k].members :: m in c.syms ==> Alike(x, x', DirectInputs(c, m))
    ensures SelectionFromDefaults(c, x, k) == SelectionFromDefaults(c, x', k)
  {
    hide DirectInputs, Vis, PromptSyms;
    assert ClosedChoice(c, k);
    var d := c.choices[k];
    ActivePickFrame(x, x', d.defaults);
    ActivePickIsListed(x, d.defaults);
    MembersFrame(c, x, x', k);
    FirstVisibleFrame(c, x, x', d.members);
  }

  ghost predicate SameChoiceUsers(u: Users, u': Users, k: ChoiceId) {
    && (k in u.sel <==> k in u'.sel) && (k in u.sel ==> u.sel[k] == u'.sel[k])
    && (k in u.mode <==> k in u'.mode) && (k in u.mode ==> u.mode[k] == u'.mode[k])
  }

  ghost predicate SameSymUser(u: Users, u': Users, s: SymName) {
    (s in u.sym <==> s in u'.sym) && (s in u.sym ==> u.sym[s] == u'.sym[s])
  }

  lemma {:induction false} DefaultsFrame(c: Config, x: Ctx, x': Ctx, ds: seq<Default>, base: nat,
                                         range: Option<(int, int)>, acc: Outcome)
    requires Alike(x, x', DefaultSyms(ds))
    ensures ActiveDefault(x, ds) == ActiveDefault(x', ds)
    ensures TextDefault(x, ds) == TextDefault(x', ds)
    ensures NumberDefault(c, x, base, range, ds, acc) == NumberDefault(c, x', base, range, ds, acc)
  {
    if ds != [] {
      CondFrame(x, x', ds[0].cond);
      CondFrame(x, x', Some(ds[0].val));
      if ds[0].val.Leaf? { AtomFrame(ds[0].val.a, x.env, x'.env); }
      DefaultsFrame(c, x, x', ds[1..], base, range, acc);
      DefaultsFrame(c, x, x', ds[1..], base, range, Outcome(ExprText(x, ds[0].val), true));
    }
  }

  lemma {:induction false} RangesFrame(c: Config, x: Ctx, x': Ctx, base: nat, rs: seq<Range>)
    requires Alike(x, x', RangeSyms(rs))
    ensures ActiveRange(c, x, base, rs) == ActiveRange(c, x', base, rs)
  {
    if rs != [] {
      CondFrame(x, x', rs[0].cond);
      AtomFrame(rs[0].low, x.env, x'.env);
      AtomFrame(rs[0].high, x.env, x'.env);
      RangesFrame(c, x, x', base, rs[1..]);
    }
  }

  /** Contexts that give the inputs of `s` the same values. */
  ghost predicate SameInputs(c: Config, x: Ctx, x': Ctx, s: SymName)
    requires Closed(c) && s in c.syms
  {
    && x.off == x'.off && x.env.logical == x'.env.logical
    && forall n :: ReadsFrom(c, s, n) ==> Look(x.env.vals, n) == Look(x'.env.vals, n)
  }

  lemma OwnAlike(c: Config, x: Ctx, x': Ctx, s: SymName)
    requires s in c.syms && Alike(x, x', DirectInputs(c, s))
    ensures x.off == x'.off
    ensures var d := c.syms[s];
            Alike(x, x', SymsOf(d.revDep)) && Alike(x, x', RangeSyms(d.ranges)) && Alike(x, x', DefaultSyms(d.defaults))
  {
    hide PromptSyms, DefaultSyms, RangeSyms, PickSyms, SymsOf;
  }

  lemma FreeFrame(c: Config, x: Ctx, x': Ctx, u: Users, u': Users, s: SymName)
    requires Closed(c) && UsersOk(c, u) && UsersOk(c, u') && s in c.syms && c.syms[s].choice.None?
    requires Alike(x, x', DirectInputs(c, s)) && SameSymUser(u, u', s)
    ensures Value(c, x, u, s) == Value(c, x', u', s)
  {
    hide Closed, UsersOk, Vis, Cond, ActiveDefault, ActiveRange, NumberDefault, TextDefault, Alike, DirectInputs;
    var d := c.syms[s];
    OwnAlike(c, x, x', s);
    VisFrame(c, x, x', s);
    CondFrame(x, x', Some(d.revDep));
    var base := if d.ty == Hex then 16 else 10;
    RangesFrame(c, x, x', base, d.ranges);
    DefaultsFrame(c, x, x', d.defaults, base, ActiveRange(c, x, base, d.ranges), Outcome("", Vis(c, x, s) != N));
  }

  lemma MemberFrame(c: Config, x: Ctx, x': Ctx, u: Users, u': Users, s: SymName, k: ChoiceId)
    requires Closed(c) && UsersOk(c, u) && UsersOk(c, u') && s in c.syms && c.syms[s].choice == Some(k)
    requires Vis(c, x, s) == Vis(c, x', s) && SameSymUser(u, u', s)
    requires Mode(c, x, u, k) == Mode(c, x', u', k) && Selection(c, x, u, k) == Selection(c, x', u', k)
    ensures Value(c, x, u, s) == Value(c, x', u', s)
  {
    hide UsersOk, Vis, Mode, Selection, TextValue, NumberValue, FreeValue;
    assert ClosedChoice(c, k);
    hide Closed;
  }

  lemma GroupAlike(c: Config, x: Ctx, x': Ctx, s: SymName)
    requires Closed(c) && s in c.syms && c.syms[s].choice.Some? && SameInputs(c, x, x', s)
    ensures forall m <- c.choices[c.syms[s].choice.value].members :: m in c.syms && Alike(x, x', DirectInputs(c, m))
  {
    var k := c.syms[s].choice.value;
    assert ClosedChoice(c, k);
    forall m | m in c.choices[k].members ensures Alike(x, x', DirectInputs(c, m)) {
      forall n | n in DirectInputs(c, m) ensures Look(x.env.vals, n) == Look(x'.env.vals, n) {
        assert GroupReads(c, k, n);
        assert ReadsFrom(c, s, n);
      }
    }
  }

  /** A value depends on nothing but its inputs, its own user value and its choice's user choices. */
  lemma ValueFrame(c: Config, x: Ctx, x': Ctx, u: Users, u': Users, s: SymName)
    requires Closed(c) && UsersOk(c, u) && UsersOk(c, u') && s in c.syms
    requires SameInputs(c, x, x', s) && SameSymUser(u, u', s)
    requires c.syms[s].choice.Some? ==> SameChoiceUsers(u, u', c.syms[s].choice.value)
    ensures Value(c, x, u, s) == Value(c, x', u', s)
    ensures Vis(c, x, s) == Vis(c, x', s)
  {
    assert Alike(x, x', DirectInputs(c, s)) by {
      forall n | n in DirectInputs(c, s) ensures Look(x.env.vals, n) == Look(x'.env.vals, n) {
        assert ReadsFrom(c, s, n);
      }
    }
    VisFrame(c, x, x', s);
    if c.syms[s].choice.None? {
      FreeFrame(c, x, x', u, u', s);
    } else {
      var k := c.syms[s].choice.value;
      GroupAlike(c, x, x', s);
      assert ChoiceInputs(c.choices[k]) <= DirectInputs(c, s);
      ChoiceFrame(c, x, x', u, u', k);
      MemberFrame(c, x, x', u, u', s, k);
    }
  }

  // ---------- symbols that never ask for MODULES ----------

  lemma {:induction false} QuietPrompts(x: Ctx, b: bool, ps: seq<Option<Expr>>, ts: set<SymName>)
    requires BoolsAreBool(x.env, ts) && forall p <- ps :: NeverMOpt(p, ts)
    ensures PromptsVis(x, ps) == PromptsVis(x.(off := b), ps) != M
  {
    if ps != [] {
      QuietPrompts(x, b, ps[..|ps| - 1], ts);
      QuietCond(x, b, ps[|ps| - 1], ts);
    }
  }

  lemma QuietCond(x: Ctx, b: bool, e: Option<Expr>, ts: set<SymName>)
    requires BoolsAreBool(x.env, ts) && NeverMOpt(e, ts)
    ensures Cond(x, e) == Cond(x.(off := b), e) != M
  {
    if e.Some? { NeverMSound(e.value, ts, x.env); }
  }

  lemma {:induction false} QuietDefaults(c: Config, x: Ctx, b: bool, ds: seq<Default>, ts: set<SymName>, logical: bool,
                                         base: nat, range: Option<(int, int)>, acc: Outcome)
    requires BoolsAreBool(x.env, ts)
    requires forall d <- ds :: NeverMOpt(d.cond, ts) && (logical ==> NeverM(d.val, ts))
    ensures logical ==> ActiveDefault(x, ds) == ActiveDefault(x.(off := b), ds) != Some(M)
    ensures TextDefault(x, ds) == TextDefault(x.(off := b), ds)
    ensures NumberDefault(c, x, base, range, ds, acc) == NumberDefault(c, x.(off := b), base, range, ds, acc)
  {
    if ds != [] {
      QuietCond(x, b, ds[0].cond, ts);
      if logical { QuietCond(x, b, Some(ds[0].val), ts); }
      QuietDefaults(c, x, b, ds[1..], ts, logical, base, range, acc);
      QuietDefaults(c, x, b, ds[1..], ts, logical, base, range, Outcome(ExprText(x, ds[0].val), true));
    }
  }

  lemma {:induction false} QuietRanges(c: Config, x: Ctx, b: bool, base: nat, rs: seq<Range>, ts: set<SymName>)
    requires BoolsAreBool(x.env, ts) && forall r <- rs :: NeverMOpt(r.cond, ts)
    ensures ActiveRange(c, x, base, rs) == ActiveRange(c, x.(off := b), base, rs)
  {
    if rs != [] {
      QuietCond(x, b, rs[0].cond, ts);
      QuietRanges(c, x, b, base, rs[1..], ts);
    }
  }

  /** For a quiet symbol it makes no difference whether modules are on or off. */
  lemma QuietValue(c: Config, x: Ctx, b: bool, u: Users, s: SymName)
    requires Closed(c) && UsersOk(c, u) && s in c.syms && Quiet(c, s)
    requires BoolsAreBool(x.env, Tristates(c))
    ensures Value(c, x, u, s) == Value(c, x.(off := b), u, s)
    ensures Vis(c, x, s) == Vis(c, x.(off := b), s)
  {
    var d := c.syms[s];
    var ts := Tristates(c);
    QuietPrompts(x, b, d.prompts, ts);
    var base := if d.ty == Hex then 16 else 10;
    QuietRanges(c, x, b, base, d.ranges, ts);
    QuietDefaults(c, x, b, d.defaults, ts, Logical(d.ty), base, ActiveRange(c, x, base, d.ranges),
                  Outcome("", Vis(c, x, s) != N));
    QuietCond(x, b, Some(d.revDep), ts);
  }

  // ---------- recomputation ----------

  /** A bool symbol never has the value "m"; a tristate symbol is one of the three. */
  lemma LogicalText(c: Config, x: Ctx, u: Users, s: SymName)
    requires Closed(c) && UsersOk(c, u) && s in c.syms
    ensures c.syms[s].ty == Bool ==> Value(c, x, u, s).text in {"n", "y"}
    ensures c.syms[s].ty == Tristate ==> Value(c, x, u, s).text in {"n", "m", "y"}
  {
  }

  lemma ValsAreBool(c: Config, rank: map<SymName, nat>, u: Users, vals: map<SymName, string>)
    requires Model(c, rank) && UsersOk(c, u)
    requires forall t <- vals :: t in c.syms && vals[t] == Val(c, rank, u, t)
    ensures BoolsAreBool(EnvOf(c, vals), Tristates(c))
  {
    hide Model, UsersOk, Val;
    forall t | t in EnvOf(c, vals).logical && t !in Tristates(c) ensures Read(Look(vals, t)) != M {
      if t in vals { BoolVal(c, rank, u, t); }
    }
  }

  lemma BoolVal(c: Config, rank: map<SymName, nat>, u: Users, t: SymName)
    requires Model(c, rank) && UsersOk(c, u) && t in c.syms && c.syms[t].ty == Bool
    ensures Read(Val(c, rank, u, t)) != M
  {
    hide Acyclic, Closed, UsersOk, Value, Below, CtxOf;
    LogicalText(c, CtxOf(c, Below(c, rank, u, t)), u, t);
  }

  lemma InputsComeFirst(c: Config, rank: map<SymName, nat>, s: SymName, n: SymName)
    requires Model(c, rank) && s in c.syms && ReadsFrom(c, s, n)
    ensures n in c.syms && rank[n] < rank[s]
  {
    if n in DirectInputs(c, s) {
      assert InputsFirst(c, rank, s);
    } else {
      var k := c.syms[s].choice.value;
      assert ClosedChoice(c, k) && SharedRank(rank, c.choices[k].members);
      var m :| m in c.choices[k].members && n in DirectInputs(c, m);
      assert InputsFirst(c, rank, m);
    }
  }

  /** Two partial recomputations that agree on the inputs of `s`, and on whether modules are on if
      that is decided before `s`, give `s` the same value and visibility. */
  lemma SameValue(c: Config, rank: map<SymName, nat>, u: Users, u': Users, s: SymName,
                  vals: map<SymName, string>, vals': map<SymName, string>)
    requires Model(c, rank) && UsersOk(c, u) && UsersOk(c, u') && s in c.syms
    requires forall n :: ReadsFrom(c, s, n) ==> Look(vals, n) == Look(vals', n)
    requires MODULES in c.syms && rank[MODULES] < rank[s] ==> CtxOf(c, vals).off == CtxOf(c, vals').off
    requires BoolsAreBool(EnvOf(c, vals), Tristates(c))
    requires SameSymUser(u, u', s)
    requires c.syms[s].choice.Some? ==> SameChoiceUsers(u, u', c.syms[s].choice.value)
    ensures Value(c, CtxOf(c, vals), u, s) == Value(c, CtxOf(c, vals'), u', s)
    ensures Vis(c, CtxOf(c, vals), s) == Vis(c, CtxOf(c, vals'), s)
  {
    var x, x' := CtxOf(c, vals), CtxOf(c, vals');
    if c.syms[s].special.None? || c.syms[s].prompts != [] {
      if x.off != x'.off {
        assert Quiet(c, s);
        QuietValue(c, x, x'.off, u, s);
      }
      ValueFrame(c, x.(off := x'.off), x', u, u', s);
    } else {
      NeverShown(c, s);
    }
  }

  /** Without prompts nothing is visible, and a special symbol is in no choice. */
  lemma NeverShown(c: Config, s: SymName)
    requires Closed(c) && s in c.syms && c.syms[s].special.Some? && c.syms[s].prompts == []
    ensures forall x :: Vis(c, x, s) == N
  {
  }

  /** Recomputing a symbol from the values of all others, at any moment, gives its value. */
  lemma Fixpoint(c: Config, rank: map<SymName, nat>, u: Users, s: SymName)
    requires Model(c, rank) && UsersOk(c, u) && s in c.syms
    ensures Value(c, World(c, rank, u), u, s).text == Val(c, rank, u, s) == AllVals(c, rank, u)[s]
  {
    hide Model, UsersOk, Value, Val;
    SameAsBelow(c, rank, u, s, AllVals(c, rank, u));
  }

  /** Recomputation is unambiguous: any assignment in which every symbol has its recomputed value
      is the one computed from the user values alone. */
  lemma {:induction false} Unique(c: Config, rank: map<SymName, nat>, u: Users, vals: map<SymName, string>, s: SymName)
    requires Model(c, rank) && UsersOk(c, u) && s in c.syms
    requires vals.Keys == c.syms.Keys && forall t <- vals :: vals[t] == Value(c, CtxOf(c, vals), u, t).text
    ensures vals[s] == Val(c, rank, u, s)
    decreases rank[s]
  {
    var below := Below(c, rank, u, s);
    forall n | n in c.syms && rank[n] < rank[s] ensures vals[n] == Val(c, rank, u, n) { Unique(c, rank, u, vals, n); }
    SameAsBelow(c, rank, u, s, vals);
  }

  lemma InputsSettled(c: Config, rank: map<SymName, nat>, u: Users, s: SymName, vals: map<SymName, string>)
    requires Model(c, rank) && UsersOk(c, u) && s in c.syms && vals.Keys == c.syms.Keys
    requires forall n :: n in c.syms && rank[n] < rank[s] ==> vals[n] == Val(c, rank, u, n)
    ensures forall n :: ReadsFrom(c, s, n) ==> Look(Below(c, rank, u, s), n) == Look(vals, n)
  {
    forall n | ReadsFrom(c, s, n) ensures Look(Below(c, rank, u, s), n) == Look(vals, n) {
      InputsComeFirst(c, rank, s, n);
    }
  }

  lemma SameAsBelow(c: Config, rank: map<SymName, nat>, u: Users, s: SymName, vals: map<SymName, string>)
    requires Model(c, rank) && UsersOk(c, u) && s in c.syms && vals.Keys == c.syms.Keys
    requires forall n :: n in c.syms && rank[n] < rank[s] ==> vals[n] == Val(c, rank, u, n)
    ensures Value(c, CtxOf(c, vals), u, s).text == Val(c, rank, u, s)
  {
    ValsAreBool(c, rank, u, Below(c, rank, u, s));
    InputsSettled(c, rank, u, s, vals);
    SameValue(c, rank, u, u, s, Below(c, rank, u, s), vals);
  }
}
