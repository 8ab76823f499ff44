/** Flattening of nested "if", "menu" and "choice" blocks into conditions of individual symbols. */
module BlockParser {
  import opened Wrappers
  import opened Expressions
  import opened Configuration

  /** Whoever owns prompts and defaults. */
  datatype Item = SymItem(name: SymName) | ChoiceItem(id: ChoiceId)

  datatype Select = Select(target: SymName, cond: Option<Expr>)

  /** A property line of a symbol or choice, in the order it appears. */
  datatype Prop =
    | DependsOn(e: Expr)
    | Prompt(cond: Option<Expr>)
    | DefaultTo(def: Default)
    | Selects(sel: Select)

  datatype Stmt =
    | ConfigStmt(sym: SymName, props: seq<Prop>)
    | IfStmt(dep: Expr, body: seq<Stmt>)
    | MenuStmt(dependsOn: seq<Expr>, visibleIf: seq<Expr>, body: seq<Stmt>)
    | ChoiceStmt(id: ChoiceId, props: seq<Prop>, body: seq<Stmt>)
    | CommentStmt(dependsOn: seq<Expr>)

  // ---------- properties of one definition ----------

  /** The conjunction of all "depends on" lines. */
  function DependsOf(props: seq<Prop>): Option<Expr> {
    if props == [] then None
    else
      var rest := DependsOf(props[..|props| - 1]);
      var last := props[|props| - 1];
      if last.DependsOn? then MakeAnd(rest, Some(last.e)) else rest
  }

  /** The last prompt wins within one definition. */
  function PromptOf(props: seq<Prop>): Option<Option<Expr>> {
    if props == [] then None
    else
      var last := props[|props| - 1];
      if last.Prompt? then Some(last.cond) else PromptOf(props[..|props| - 1])
  }

  function DefaultsOf(props: seq<Prop>): seq<Default> {
    if props == [] then []
    else
      var rest := DefaultsOf(props[..|props| - 1]);
      var last := props[|props| - 1];
      if last.DefaultTo? then rest + [last.def] else rest
  }

  function SelectsOf(props: seq<Prop>): seq<Select> {
    if props == [] then []
    else
      var rest := SelectsOf(props[..|props| - 1]);
      var last := props[|props| - 1];
      if last.Selects? then rest + [last.sel] else rest
  }

  function Conjoin(es: seq<Expr>): Option<Expr> {
    if es == [] then None else MakeAnd(Conjoin(es[..|es| - 1]), Some(es[|es| - 1]))
  }

  // ---------- the flattened tables, as functions ----------

  /** The final prompt condition: "visible if" of enclosing menus, then "depends on", then the
      dependencies of enclosing blocks. */
  function FinalPrompt(cond: Option<Expr>, props: seq<Prop>, deps: Option<Expr>, vis: Option<Expr>): Option<Expr> {
    MakeAnd(MakeAnd(MakeAnd(cond, vis), DependsOf(props)), deps)
  }

  function OwnPrompts(props: seq<Prop>, deps: Option<Expr>, vis: Option<Expr>): seq<Option<Expr>> {
    var p := PromptOf(props);
    if p.None? then [] else [FinalPrompt(p.value, props, deps, vis)]
  }

  function FinalDefaults(ds: seq<Default>, depends: Option<Expr>, deps: Option<Expr>): seq<Default> {
    if ds == [] then []
    else [Default(ds[0].val, MakeAnd(MakeAnd(ds[0].cond, depends), deps))] + FinalDefaults(ds[1..], depends, deps)
  }

  lemma FinalDefaultsStep(ds: seq<Default>, n: nat, depends: Option<Expr>, deps: Option<Expr>)
    requires n < |ds|
    ensures FinalDefaults(ds[n..], depends, deps) ==
            [Default(ds[n].val, MakeAnd(MakeAnd(ds[n].cond, depends), deps))]
            + FinalDefaults(ds[n + 1..], depends, deps)
  {
    hide MakeAnd;
    assert ds[n..][1..] == ds[n + 1..];
  }

  lemma FinalDefaultsEnd(ds: seq<Default>, depends: Option<Expr>, deps: Option<Expr>)
    ensures FinalDefaults(ds[|ds|..], depends, deps) == [] && ds[0..] == ds
  {
  }

  function AddSelects(acc: Expr, selector: SymName, sels: seq<Select>, depends: Option<Expr>, deps: Option<Expr>,
                      target: SymName): Expr
    decreases sels
  {
    if sels == [] then acc
    else
      var acc' := if sels[0].target == target
                  then MakeOr(Some(acc), MakeAnd(Some(Leaf(Sym(selector))),
                                                 MakeAnd(MakeAnd(sels[0].cond, depends), deps)))
                  else acc;
      AddSelects(acc', selector, sels[1..], depends, deps, target)
  }

  function StmtPrompts(st: Stmt, deps: Option<Expr>, vis: Option<Expr>, item: Item): seq<Option<Expr>>
    decreases st, 1
  {
    match st
    case ConfigStmt(s, props) => if item == SymItem(s) then OwnPrompts(props, deps, vis) else []
    case IfStmt(dep, body) => Prompts(body, MakeAnd(Some(dep), deps), vis, item)
    case MenuStmt(dependsOn, visibleIf, body) => Prompts(body, MakeAnd(Conjoin(dependsOn), deps),
                                                         MakeAnd(vis, Conjoin(visibleIf)), item)
    case ChoiceStmt(id, props, body) =>
      (if item == ChoiceItem(id) then OwnPrompts(props, deps, vis) else []) + Prompts(body, deps, vis, item)
    case CommentStmt(_) => []
  }

  function Prompts(sts: seq<Stmt>, deps: Option<Expr>, vis: Option<Expr>, item: Item): seq<Option<Expr>>
    decreases sts, 0
  {
    if sts == [] then [] else StmtPrompts(sts[0], deps, vis, item) + Prompts(sts[1..], deps, vis, item)
  }

  function OwnDefaults(props: seq<Prop>, deps: Option<Expr>): seq<Default> {
    FinalDefaults(DefaultsOf(props), DependsOf(props), deps)
  }

  function StmtDefaults(st: Stmt, deps: Option<Expr>, item: Item): seq<Default>
    decreases st, 1
  {
    match st
    case ConfigStmt(s, props) => if item == SymItem(s) then OwnDefaults(props, deps) else []
    case IfStmt(dep, body) => Defaults(body, MakeAnd(Some(dep), deps), item)
    case MenuStmt(dependsOn, _, body) => Defaults(body, MakeAnd(Conjoin(dependsOn), deps), item)
    case ChoiceStmt(id, props, body) =>
      (if item == ChoiceItem(id) then OwnDefaults(props, deps) else []) + Defaults(body, deps, item)
    case CommentStmt(_) => []
  }

  function Defaults(sts: seq<Stmt>, deps: Option<Expr>, item: Item): seq<Default>
    decreases sts, 0
  {
    if sts == [] then [] else StmtDefaults(sts[0], deps, item) + Defaults(sts[1..], deps, item)
  }

  function StmtRevDep(st: Stmt, deps: Option<Expr>, target: SymName, acc: Expr): Expr
    decreases st, 1
  {
    match st
    case ConfigStmt(s, props) => AddSelects(acc, s, SelectsOf(props), DependsOf(props), deps, target)
    case IfStmt(dep, body) => RevDep(body, MakeAnd(Some(dep), deps), target, acc)
    case MenuStmt(dependsOn, _, body) => RevDep(body, MakeAnd(Conjoin(dependsOn), deps), target, acc)
    case ChoiceStmt(_, _, body) => RevDep(body, deps, target, acc)
    case CommentStmt(_) => acc
  }

  function RevDep(sts: seq<Stmt>, deps: Option<Expr>, target: SymName, acc: Expr): Expr
    decreases sts, 0
  {
    if sts == [] then acc else RevDep(sts[1..], deps, target, StmtRevDep(sts[0], deps, target, acc))
  }

  // ---------- the parser pass that fills the tables ----------

  function PromptsAt(m: map<Item, seq<Option<Expr>>>, i: Item): seq<Option<Expr>> {
    if i in m then m[i] else []
  }

  function DefaultsAt(m: map<Item, seq<Default>>, i: Item): seq<Default> {
    if i in m then m[i] else []
  }

  /** A symbol nobody selects has the reverse dependency "n". */
  function RevDepAt(m: map<SymName, Expr>, s: SymName): Expr {
    if s in m then m[s] else Leaf(Str("n"))
  }

  class Tables {
    var prompts: map<Item, seq<Option<Expr>>>
    var defaults: map<Item, seq<Default>>
    var revDeps: map<SymName, Expr>

    constructor ()
      ensures prompts == map[] && defaults == map[] && revDeps == map[]
    {
      prompts, defaults, revDeps := map[], map[], map[];
    }

    ghost function Now(): Flat
      reads this
    {
      Flat(prompts, defaults, revDeps)
    }

    /** Properties of a symbol or choice, with the enclosing dependencies propagated. */
    method ParseProperties(item: Item, props: seq<Prop>, deps: Option<Expr>, vis: Option<Expr>)
      modifies this
      ensures AddsItem(old(Now()), Now(), item, props, deps, vis)
    {
      hide MakeAnd, MakeOr, PromptOf, DefaultsOf, SelectsOf, DependsOf, AddSelects, PromptsAt, DefaultsAt, RevDepAt;
      var newPrompt, newDefs, newSelects, depends := CollectProperties(props);
      Propagate(item, newPrompt, newDefs, newSelects, depends, deps, vis);
    }

    /** Reads the property lines of one definition. */
    static method CollectProperties(props: seq<Prop>)
      returns (newPrompt: Option<Option<Expr>>, newDefs: seq<Default>, newSelects: seq<Select>, depends: Option<Expr>)
      ensures newPrompt == PromptOf(props) && newDefs == DefaultsOf(props)
      ensures newSelects == SelectsOf(props) && depends == DependsOf(props)
    {
      hide MakeAnd, MakeOr;
      newPrompt, newDefs, newSelects, depends := None, [], [], None;
      for n := 0 to |props|
        invariant newPrompt == PromptOf(props[..n]) && newDefs == DefaultsOf(props[..n])
        invariant newSelects == SelectsOf(props[..n]) && depends == DependsOf(props[..n])
      {
        assert props[..n + 1][..n] == props[..n] && props[..n + 1][n] == props[n];
        match props[n]
        case DependsOn(e) => depends := MakeAnd(depends, Some(e));
        case Prompt(cond) => newPrompt := Some(cond);
        case DefaultTo(def) => newDefs := newDefs + [def];
        case Selects(sel) => newSelects := newSelects + [sel];
      }
      assert props[..|props|] == props;
    }

    /** Adds one definition's prompt, defaults and selects to the tables. */
    method Propagate(item: Item, newPrompt: Option<Option<Expr>>, newDefs: seq<Default>, newSelects: seq<Select>,
                     depends: Option<Expr>, deps: Option<Expr>, vis: Option<Expr>)
      modifies this
      ensures forall i :: PromptsAt(prompts, i) == PromptsAt(old(prompts), i) +
                if i == item && newPrompt.Some? then [MakeAnd(MakeAnd(MakeAnd(newPrompt.value, vis), depends), deps)]
                else []
      ensures forall i :: DefaultsAt(defaults, i) == DefaultsAt(old(defaults), i) +
                if i == item then FinalDefaults(newDefs, depends, deps) else []
      ensures forall s :: RevDepAt(revDeps, s) ==
                if item.SymItem? then AddSelects(RevDepAt(old(revDeps), s), item.name, newSelects, depends, deps, s)
                else RevDepAt(old(revDeps), s)
    {
      hide MakeAnd, MakeOr;
      if newPrompt.Some? {
        prompts := prompts[item := PromptsAt(prompts, item) +
                           [MakeAnd(MakeAnd(MakeAnd(newPrompt.value, vis), depends), deps)]];
      }
      var finals := FinalizeDefaults(newDefs, depends, deps);
      defaults := defaults[item := DefaultsAt(defaults, item) + finals];
      if item.SymItem? { PropagateSelects(item.name, newSelects, depends, deps); }
    }

    static method FinalizeDefaults(ds: seq<Default>, depends: Option<Expr>, deps: Option<Expr>)
        returns (finals: seq<Default>)
      ensures finals == FinalDefaults(ds, depends, deps)
    {
      hide MakeAnd, FinalDefaults;
      finals := [];
      FinalDefaultsEnd(ds, depends, deps);
      for n := 0 to |ds|
        invariant FinalDefaults(ds, depends, deps) == finals + FinalDefaults(ds[n..], depends, deps)
      {
        FinalDefaultsStep(ds, n, depends, deps);
        finals := finals + [Default(ds[n].val, MakeAnd(MakeAnd(ds[n].cond, depends), deps))];
      }
    }

    method PropagateSelects(selector: SymName, sels: seq<Select>, depends: Option<Expr>, deps: Option<Expr>)
      modifies `revDeps
      ensures forall s :: RevDepAt(revDeps, s) ==
                          AddSelects(RevDepAt(old(revDeps), s), selector, sels, depends, deps, s)
    {
      hide MakeAnd, MakeOr;
      for n := 0 to |sels|
        invariant forall s :: AddSelects(RevDepAt(revDeps, s), selector, sels[n..], depends, deps, s)
                           == AddSelects(RevDepAt(old(revDeps), s), selector, sels, depends, deps, s)
      {
        assert sels[n..][1..] == sels[n + 1..];
        var t := sels[n].target;
        revDeps := revDeps[t := MakeOr(Some(RevDepAt(revDeps, t)),
                                       MakeAnd(Some(Leaf(Sym(selector))),
                                               MakeAnd(MakeAnd(sels[n].cond, depends), deps)))];
      }
    }

    /** A block of statements inside the dependencies `deps` and the "visible if" condition `vis`. */
    method ParseBlock(sts: seq<Stmt>, deps: Option<Expr>, vis: Option<Expr>)
      modifies this
      ensures Adds(old(Now()), Now(), sts, deps, vis)
      decreases sts, 0
    {
      hide *;
      AddsNothing(Now(), deps, vis);
      for n := 0 to |sts|
        invariant Adds(old(Now()), Now(), sts[..n], deps, vis)
      {
        ghost var before := Now();
        ParseStmt(sts[n], deps, vis);
        AddsOneMore(old(Now()), before, Now(), sts[..n], sts[n], deps, vis);
        assert sts[..n] + [sts[n]] == sts[..n + 1];
      }
      assert sts[..|sts|] == sts;
    }

    method ParseStmt(st: Stmt, deps: Option<Expr>, vis: Option<Expr>)
      modifies this
      ensures AddsStmt(old(Now()), Now(), st, deps, vis)
      decreases st, 1
    {
      hide *;
      ghost var before := Now();
      match st
      case ConfigStmt(s, props) =>
        ParseProperties(SymItem(s), props, deps, vis);
        ConfigAdds(before, Now(), s, props, deps, vis);
      case IfStmt(dep, body) =>
        ParseBlock(body, MakeAnd(Some(dep), deps), vis);
        IfAdds(before, Now(), dep, body, deps, vis);
      case MenuStmt(dependsOn, visibleIf, body) =>
        var orig := ConjoinAll(dependsOn);
        var visibleIfExpr := ConjoinAll(visibleIf);
        ParseBlock(body, MakeAnd(orig, deps), MakeAnd(vis, visibleIfExpr));
        MenuAdds(before, Now(), dependsOn, visibleIf, body, deps, vis);
      case ChoiceStmt(id, props, body) =>
        ParseProperties(ChoiceItem(id), props, deps, vis);
        ghost var between := Now();
        ParseBlock(body, deps, vis);
        ChoiceAdds(before, between, Now(), st, deps, vis);
      case CommentStmt(dependsOn) =>
        CommentAddsNothing(before, dependsOn, deps, vis);
    }

    /** The "depends on" or the "visible if" lines of a menu. */
    static method ConjoinAll(es: seq<Expr>) returns (e: Option<Expr>)
      ensures e == Conjoin(es)
    {
      hide MakeAnd;
      e := None;
      for n := 0 to |es|
        invariant e == Conjoin(es[..n])
      {
        assert es[..n + 1][..n] == es[..n] && es[..n + 1][n] == es[n];
        e := MakeAnd(e, Some(es[n]));
      }
      assert es[..|es|] == es;
    }
  }

  /** A snapshot of the tables. */
  datatype Flat = Flat(prompts: map<Item, seq<Option<Expr>>>, defaults: map<Item, seq<Default>>,
                       revDeps: map<SymName, Expr>)

  /** From `t` to `t'` every item gained exactly the conditions a block contributes. */
  ghost predicate Adds(t: Flat, t': Flat, sts: seq<Stmt>, deps: Option<Expr>, vis: Option<Expr>) {
    && (forall i :: PromptsAt(t'.prompts, i) == PromptsAt(t.prompts, i) + Prompts(sts, deps, vis, i))
    && (forall i :: DefaultsAt(t'.defaults, i) == DefaultsAt(t.defaults, i) + Defaults(sts, deps, i))
    && (forall s :: RevDepAt(t'.revDeps, s) == RevDep(sts, deps, s, RevDepAt(t.revDeps, s)))
  }

  ghost predicate AddsStmt(t: Flat, t': Flat, st: Stmt, deps: Option<Expr>, vis: Option<Expr>) {
    && (forall i :: PromptsAt(t'.prompts, i) == PromptsAt(t.prompts, i) + StmtPrompts(st, deps, vis, i))
    && (forall i :: DefaultsAt(t'.defaults, i) == DefaultsAt(t.defaults, i) + StmtDefaults(st, deps, i))
    && (forall s :: RevDepAt(t'.revDeps, s) == StmtRevDep(st, deps, s, RevDepAt(t.revDeps, s)))
  }

  /** One definition with its properties. */
  ghost predicate AddsItem(t: Flat, t': Flat, item: Item, props: seq<Prop>, deps: Option<Expr>, vis: Option<Expr>) {
    && (forall i :: PromptsAt(t'.prompts, i) ==
                    PromptsAt(t.prompts, i) + if i == item then OwnPrompts(props, deps, vis) else [])
    && (forall i :: DefaultsAt(t'.defaults, i) ==
                    DefaultsAt(t.defaults, i) + if i == item then OwnDefaults(props, deps) else [])
    && (forall s :: RevDepAt(t'.revDeps, s) ==
                    if item.SymItem? then AddSelects(RevDepAt(t.revDeps, s), item.name, SelectsOf(props),
                                                     DependsOf(props), deps, s)
                    else RevDepAt(t.revDeps, s))
  }

  lemma ConfigAdds(t: Flat, t': Flat, s: SymName, props: seq<Prop>, deps: Option<Expr>, vis: Option<Expr>)
    requires AddsItem(t, t', SymItem(s), props, deps, vis)
    ensures AddsStmt(t, t', ConfigStmt(s, props), deps, vis)
  {
    hide OwnPrompts, OwnDefaults, AddSelects, PromptsAt, DefaultsAt, RevDepAt, SelectsOf, DependsOf;
  }

  lemma IfAdds(t: Flat, t': Flat, dep: Expr, body: seq<Stmt>, deps: Option<Expr>, vis: Option<Expr>)
    requires Adds(t, t', body, MakeAnd(Some(dep), deps), vis)
    ensures AddsStmt(t, t', IfStmt(dep, body), deps, vis)
  {
    hide Prompts, Defaults, RevDep, PromptsAt, DefaultsAt, RevDepAt, MakeAnd;
  }

  lemma MenuAdds(t: Flat, t': Flat, dependsOn: seq<Expr>, visibleIf: seq<Expr>, body: seq<Stmt>, deps: Option<Expr>,
                 vis: Option<Expr>)
    requires Adds(t, t', body, MakeAnd(Conjoin(dependsOn), deps), MakeAnd(vis, Conjoin(visibleIf)))
    ensures AddsStmt(t, t', MenuStmt(dependsOn, visibleIf, body), deps, vis)
  {
    hide Prompts, Defaults, RevDep, PromptsAt, DefaultsAt, RevDepAt, MakeAnd, Conjoin;
  }

  lemma CommentAddsNothing(t: Flat, dependsOn: seq<Expr>, deps: Option<Expr>, vis: Option<Expr>)
    ensures AddsStmt(t, t, CommentStmt(dependsOn), deps, vis)
  {
  }

  lemma ChoiceAdds(t: Flat, t1: Flat, t2: Flat, st: Stmt, deps: Option<Expr>, vis: Option<Expr>)
    requires st.ChoiceStmt?
    requires AddsItem(t, t1, ChoiceItem(st.id), st.props, deps, vis) && Adds(t1, t2, st.body, deps, vis)
    ensures AddsStmt(t, t2, st, deps, vis)
  {
    hide OwnPrompts, OwnDefaults, AddSelects, Prompts, Defaults, RevDep, PromptsAt, DefaultsAt, RevDepAt;
    var item := ChoiceItem(st.id);
    forall i ensures PromptsAt(t2.prompts, i) == PromptsAt(t.prompts, i) + StmtPrompts(st, deps, vis, i) {
      var own := if i == item then OwnPrompts(st.props, deps, vis) else [];
      assert PromptsAt(t.prompts, i) + own + Prompts(st.body, deps, vis, i) ==
             PromptsAt(t.prompts, i) + (own + Prompts(st.body, deps, vis, i));
    }
    forall i ensures DefaultsAt(t2.defaults, i) == DefaultsAt(t.defaults, i) + StmtDefaults(st, deps, i) {
      var own := if i == item then OwnDefaults(st.props, deps) else [];
      assert DefaultsAt(t.defaults, i) + own + Defaults(st.body, deps, i) ==
             DefaultsAt(t.defaults, i) + (own + Defaults(st.body, deps, i));
    }
  }

  lemma AddsNothing(t: Flat, deps: Option<Expr>, vis: Option<Expr>)
    ensures Adds(t, t, [], deps, vis)
  {
  }

  lemma {:induction false} PromptsConcat(xs: seq<Stmt>, ys: seq<Stmt>, deps: Option<Expr>, vis: Option<Expr>,
                                         item: Item)
    ensures Prompts(xs + ys, deps, vis, item) == Prompts(xs, deps, vis, item) + Prompts(ys, deps, vis, item)
  {
    hide StmtPrompts;
    if xs == [] {
      assert xs + ys == ys;
    } else {
      assert (xs + ys)[1..] == xs[1..] + ys;
      PromptsConcat(xs[1..], ys, deps, vis, item);
    }
  }

  lemma {:induction false} DefaultsConcat(xs: seq<Stmt>, ys: seq<Stmt>, deps: Option<Expr>, item: Item)
    ensures Defaults(xs + ys, deps, item) == Defaults(xs, deps, item) + Defaults(ys, deps, item)
  {
    hide StmtDefaults;
    if xs == [] {
      assert xs + ys == ys;
    } else {
      assert (xs + ys)[1..] == xs[1..] + ys;
      DefaultsConcat(xs[1..], ys, deps, item);
    }
  }

  lemma {:induction false} RevDepConcat(xs: seq<Stmt>, ys: seq<Stmt>, deps: Option<Expr>, target: SymName, acc: Expr)
    ensures RevDep(xs + ys, deps, target, acc) == RevDep(ys, deps, target, RevDep(xs, deps, target, acc))
  {
    hide StmtRevDep;
    if xs == [] {
      assert xs + ys == ys;
    } else {
      assert (xs + ys)[1..] == xs[1..] + ys;
      RevDepConcat(xs[1..], ys, deps, target, StmtRevDep(xs[0], deps, target, acc));
    }
  }

  lemma JustOne(st: Stmt, deps: Option<Expr>, vis: Option<Expr>, item: Item, target: SymName, acc: Expr)
    ensures Prompts([st], deps, vis, item) == StmtPrompts(st, deps, vis, item)
    ensures Defaults([st], deps, item) == StmtDefaults(st, deps, item)
    ensures RevDep([st], deps, target, acc) == StmtRevDep(st, deps, target, acc)
  {
    hide StmtPrompts, StmtDefaults, StmtRevDep;
    assert [st][1..] == [];
    assert StmtPrompts(st, deps, vis, item) + [] == StmtPrompts(st, deps, vis, item);
    assert StmtDefaults(st, deps, item) + [] == StmtDefaults(st, deps, item);
  }

  lemma AddsOneMore(t: Flat, t1: Flat, t2: Flat, sts: seq<Stmt>, st: Stmt, deps: Option<Expr>, vis: Option<Expr>)
    requires Adds(t, t1, sts, deps, vis) && AddsStmt(t1, t2, st, deps, vis)
    ensures Adds(t, t2, sts + [st], deps, vis)
  {
    hide Prompts, Defaults, RevDep, StmtPrompts, StmtDefaults, StmtRevDep, PromptsAt, DefaultsAt, RevDepAt;
    forall i ensures PromptsAt(t2.prompts, i) == PromptsAt(t.prompts, i) + Prompts(sts + [st], deps, vis, i) {
      PromptsConcat(sts, [st], deps, vis, i);
      JustOne(st, deps, vis, i, "", Leaf(Str("n")));
    }
    forall i ensures DefaultsAt(t2.defaults, i) == DefaultsAt(t.defaults, i) + Defaults(sts + [st], deps, i) {
      DefaultsConcat(sts, [st], deps, i);
      JustOne(st, deps, vis, i, "", Leaf(Str("n")));
    }
    forall s ensures RevDepAt(t2.revDeps, s) == RevDep(sts + [st], deps, s, RevDepAt(t.revDeps, s)) {
      RevDepConcat(sts, [st], deps, s, RevDepAt(t.revDeps, s));
      JustOne(st, deps, vis, SymItem(s), s, RevDep(sts, deps, s, RevDepAt(t.revDeps, s)));
    }
  }
}
