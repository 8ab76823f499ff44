/** What the flattened conditions mean, stated on the nested blocks themselves. */
module BlockMeaning {
  import opened Wrappers
  import opened Tristate
  import opened Expressions
  import opened Configuration
  import opened BlockParser
  import opened PropertyLines
  import SymbolLaws

  /** One definition, with the dependencies and the "visible if" conditions of every block around it. */
  datatype Site = Site(item: Item, props: seq<Prop>, around: seq<Expr>, visibleIfs: seq<Expr>)

  function SitesOf(st: Stmt, around: seq<Expr>, visibleIfs: seq<Expr>): seq<Site>
    decreases st, 1
  {
    match st
    case ConfigStmt(s, props) => [Site(SymItem(s), props, around, visibleIfs)]
    case IfStmt(dep, body) => Sites(body, around + [dep], visibleIfs)
    case MenuStmt(dependsOn, visibleIf, body) => Sites(body, around + dependsOn, visibleIfs + visibleIf)
    case ChoiceStmt(id, props, body) => [Site(ChoiceItem(id), props, around, visibleIfs)] +
      Sites(body, around, visibleIfs)
    case CommentStmt(_) => []
  }

  /** All definitions, in order. */
  function Sites(sts: seq<Stmt>, around: seq<Expr>, visibleIfs: seq<Expr>): seq<Site>
    decreases sts, 0
  {
    if sts == [] then [] else SitesOf(sts[0], around, visibleIfs) + Sites(sts[1..], around, visibleIfs)
  }

  function Listed(e: Option<Expr>): seq<Expr> {
    if e.None? then [] else [e.value]
  }

  /** For each prompt of an item, everything that must hold for it to be shown. */
  function PromptLists(sites: seq<Site>, item: Item): seq<seq<Expr>> {
    if sites == [] then []
    else SitePrompts(sites[0], item) + PromptLists(sites[1..], item)
  }

  function SitePrompts(site: Site, item: Item): seq<seq<Expr>> {
    var p := PromptOf(site.props);
    if site.item != item || p.None? then []
    else [Listed(p.value) + DependsLines(site.props) + site.around + site.visibleIfs]
  }

  /** For each default of an item, its value and everything that must hold for it to apply. */
  function DefaultLists(sites: seq<Site>, item: Item): seq<(Expr, seq<Expr>)> {
    if sites == [] then []
    else SiteDefaults(sites[0], item) + DefaultLists(sites[1..], item)
  }

  function SiteDefaults(site: Site, item: Item): seq<(Expr, seq<Expr>)> {
    if site.item != item then []
    else
      var ds := DefaultsOf(site.props);
      seq(|ds|, i requires 0 <= i < |ds| => (ds[i].val, Listed(ds[i].cond) + DependsLines(site.props) + site.around))
  }

  /** For each select of the target, the selector and everything the select depends on. */
  function SelectLists(sites: seq<Site>, target: SymName): seq<seq<Expr>> {
    if sites == [] then []
    else SiteSelects(sites[0], SelectsOf(sites[0].props), target) + SelectLists(sites[1..], target)
  }

  function SiteSelects(site: Site, sels: seq<Select>, target: SymName): seq<seq<Expr>> {
    if sels == [] || site.item.ChoiceItem? then []
    else
      (if sels[0].target == target
       then [[Leaf(Sym(site.item.name))] + Listed(sels[0].cond) + DependsLines(site.props) + site.around] else [])
      + SiteSelects(site, sels[1..], target)
  }

  /** The maximum, over the lists, of the minimum of each list. */
  function Highest(lists: seq<seq<Expr>>, env: Env): Tri {
    if lists == [] then N else Max(RawAnd(lists[0], env), Highest(lists[1..], env))
  }

  lemma {:induction false} HighestBounds(lists: seq<seq<Expr>>, env: Env)
    ensures forall l <- lists :: !Less(Highest(lists, env), RawAnd(l, env))
    ensures Highest(lists, env) != N ==> exists l :: l in lists && RawAnd(l, env) == Highest(lists, env)
  {
    if lists != [] {
      HighestBounds(lists[1..], env);
      assert lists[0] in lists;
      assert forall l <- lists :: l == lists[0] || l in lists[1..];
    }
  }

  lemma {:induction false} HighestConcat(xs: seq<seq<Expr>>, ys: seq<seq<Expr>>, env: Env)
    ensures Highest(xs + ys, env) == Max(Highest(xs, env), Highest(ys, env))
  {
    if xs == [] {
      assert xs + ys == ys;
    } else {
      assert (xs + ys)[1..] == xs[1..] + ys;
      HighestConcat(xs[1..], ys, env);
    }
  }

  /** The parsed conditions say the same as the listed ones. */
  ghost predicate SameConditions(env: Env, ps: seq<Option<Expr>>, lists: seq<seq<Expr>>) {
    |ps| == |lists| && forall i :: 0 <= i < |ps| ==> RawOpt(ps[i], env) == RawAnd(lists[i], env)
  }

  ghost predicate SameDefaults(env: Env, ds: seq<Default>, lists: seq<(Expr, seq<Expr>)>) {
    && |ds| == |lists|
    && forall i :: 0 <= i < |ds| ==> ds[i].val == lists[i].0 && RawOpt(ds[i].cond, env) == RawAnd(lists[i].1, env)
  }

  /** `deps` and `vis` carry the conditions of the blocks around. */
  ghost predicate Carries(env: Env, deps: Option<Expr>, around: seq<Expr>) {
    RawOpt(deps, env) == RawAnd(around, env)
  }

  lemma RawAndOne(e: Expr, env: Env)
    ensures RawAnd([e], env) == Raw(e, env)
  {
    assert [e][1..] == [];
  }

  lemma CarriesMore(env: Env, a: Option<Expr>, xs: seq<Expr>, b: Option<Expr>, ys: seq<Expr>)
    requires Carries(env, a, xs) && Carries(env, b, ys)
    ensures Carries(env, MakeAnd(a, b), xs + ys) && Carries(env, MakeAnd(b, a), xs + ys)
  {
    hide MakeAnd;
    MakeAndMeaning(a, b, env);
    MakeAndMeaning(b, a, env);
    RawAndConcat(xs, ys, env);
  }

  lemma ListedCarries(env: Env, e: Option<Expr>)
    ensures Carries(env, e, Listed(e))
  {
    if e.Some? { RawAndOne(e.value, env); }
  }

  lemma {:induction false} DependsCarries(env: Env, props: seq<Prop>)
    ensures Carries(env, DependsOf(props), DependsLines(props))
  {
    hide MakeAnd, Carries;
    if props == [] {
      ListedCarries(env, None);
    } else {
      DependsCarries(env, props[..|props| - 1]);
      var last := props[|props| - 1];
      if last.DependsOn? {
        ListedCarries(env, Some(last.e));
        CarriesMore(env, DependsOf(props[..|props| - 1]), DependsLines(props[..|props| - 1]), Some(last.e), [last.e]);
      }
    }
  }

  lemma {:induction false} ConjoinCarries(env: Env, es: seq<Expr>)
    ensures Carries(env, Conjoin(es), es)
  {
    hide MakeAnd, Carries;
    if es == [] {
      ListedCarries(env, None);
    } else {
      var init, last := es[..|es| - 1], es[|es| - 1];
      ConjoinCarries(env, init);
      ListedCarries(env, Some(last));
      CarriesMore(env, Conjoin(init), init, Some(last), [last]);
      assert init + [last] == es;
    }
  }

  /** Entering a block keeps track of its conditions. */
  lemma Enter(env: Env, st: Stmt, deps: Option<Expr>, around: seq<Expr>, vis: Option<Expr>, visibleIfs: seq<Expr>)
    requires Carries(env, deps, around) && Carries(env, vis, visibleIfs)
    ensures st.IfStmt? ==> Carries(env, MakeAnd(Some(st.dep), deps), around + [st.dep])
    ensures st.MenuStmt? ==>
              && Carries(env, MakeAnd(Conjoin(st.dependsOn), deps), around + st.dependsOn)
              && Carries(env, MakeAnd(vis, Conjoin(st.visibleIf)), visibleIfs + st.visibleIf)
  {
    hide MakeAnd, Carries, Conjoin;
    if st.IfStmt? {
      ListedCarries(env, Some(st.dep));
      CarriesMore(env, deps, around, Some(st.dep), [st.dep]);
    }
    if st.MenuStmt? {
      ConjoinCarries(env, st.dependsOn);
      ConjoinCarries(env, st.visibleIf);
      CarriesMore(env, deps, around, Conjoin(st.dependsOn), st.dependsOn);
      CarriesMore(env, vis, visibleIfs, Conjoin(st.visibleIf), st.visibleIf);
    }
  }

  // ---------- prompts ----------

  lemma SitePromptMeans(env: Env, site: Site, deps: Option<Expr>, vis: Option<Expr>)
    requires Carries(env, deps, site.around) && Carries(env, vis, site.visibleIfs)
    ensures SameConditions(env, OwnPrompts(site.props, deps, vis), SitePrompts(site, site.item))
  {
    hide MakeAnd, Carries, DependsOf, DependsLines, PromptOf, Listed;
    var p := PromptOf(site.props);
    if p.Some? {
      var ds := DependsLines(site.props);
      ListedCarries(env, p.value);
      DependsCarries(env, site.props);
      CarriesMore(env, p.value, Listed(p.value), vis, site.visibleIfs);
      CarriesMore(env, MakeAnd(p.value, vis), Listed(p.value) + site.visibleIfs, DependsOf(site.props), ds);
      CarriesMore(env, MakeAnd(MakeAnd(p.value, vis), DependsOf(site.props)), Listed(p.value) + site.visibleIfs + ds,
                  deps, site.around);
      SameMinimum(env, Listed(p.value), site.visibleIfs, ds, site.around);
      CarriesMeans(env, FinalPrompt(p.value, site.props, deps, vis),
                   Listed(p.value) + site.visibleIfs + ds + site.around);
    }
  }

  lemma CarriesMeans(env: Env, e: Option<Expr>, xs: seq<Expr>)
    requires Carries(env, e, xs)
    ensures RawOpt(e, env) == RawAnd(xs, env)
  {
  }

  lemma SameMinimum(env: Env, a: seq<Expr>, b: seq<Expr>, c: seq<Expr>, d: seq<Expr>)
    ensures RawAnd(a + b + c + d, env) == RawAnd(a + c + d + b, env)
  {
    hide RawAnd;
    RawAndConcat(a, b, env);
    RawAndConcat(a + b, c, env);
    RawAndConcat(a + b + c, d, env);
    RawAndConcat(a, c, env);
    RawAndConcat(a + c, d, env);
    RawAndConcat(a + c + d, b, env);
  }

  lemma {:induction false} PromptListsConcat(xs: seq<Site>, ys: seq<Site>, item: Item)
    ensures PromptLists(xs + ys, item) == PromptLists(xs, item) + PromptLists(ys, item)
  {
    hide SitePrompts;
    if xs == [] {
      assert xs + ys == ys;
    } else {
      assert (xs + ys)[1..] == xs[1..] + ys;
      PromptListsConcat(xs[1..], ys, item);
    }
  }

  lemma PromptListsOne(site: Site, item: Item)
    ensures PromptLists([site], item) == SitePrompts(site, item)
  {
    assert [site][1..] == [];
  }

  /** Flattening keeps the meaning of every prompt condition: one flattened condition for each
      prompt, equal to the minimum of all the conditions around it. */
  lemma {:induction false} PromptsMean(env: Env, sts: seq<Stmt>, deps: Option<Expr>, around: seq<Expr>,
                                       vis: Option<Expr>, visibleIfs: seq<Expr>, item: Item)
    requires Carries(env, deps, around) && Carries(env, vis, visibleIfs)
    ensures SameConditions(env, Prompts(sts, deps, vis, item), PromptLists(Sites(sts, around, visibleIfs), item))
    decreases sts, 0
  {
    hide Carries, StmtPrompts, SitesOf, SitePrompts;
    if sts != [] {
      StmtPromptsMean(env, sts[0], deps, around, vis, visibleIfs, item);
      PromptsMean(env, sts[1..], deps, around, vis, visibleIfs, item);
      PromptListsConcat(SitesOf(sts[0], around, visibleIfs), Sites(sts[1..], around, visibleIfs), item);
    }
  }

  lemma {:induction false} StmtPromptsMean(env: Env, st: Stmt, deps: Option<Expr>, around: seq<Expr>,
                                           vis: Option<Expr>, visibleIfs: seq<Expr>, item: Item)
    requires Carries(env, deps, around) && Carries(env, vis, visibleIfs)
    ensures SameConditions(env, StmtPrompts(st, deps, vis, item), PromptLists(SitesOf(st, around, visibleIfs), item))
    decreases st, 1
  {
    hide Carries, Prompts, Sites, SitePrompts, MakeAnd, Conjoin, OwnPrompts, PromptLists;
    Enter(env, st, deps, around, vis, visibleIfs);
    match st
    case ConfigStmt(s, props) => OwnPromptsMean(env, Site(SymItem(s), props, around, visibleIfs), deps, vis, item);
    case IfStmt(dep, body) => PromptsMean(env, body, MakeAnd(Some(dep), deps), around + [dep], vis, visibleIfs, item);
    case MenuStmt(dependsOn, visibleIf, body) =>
      PromptsMean(env, body, MakeAnd(Conjoin(dependsOn), deps), around + dependsOn,
                  MakeAnd(vis, Conjoin(visibleIf)), visibleIfs + visibleIf, item);
    case ChoiceStmt(id, props, body) =>
      var site := Site(ChoiceItem(id), props, around, visibleIfs);
      OwnPromptsMean(env, site, deps, vis, item);
      PromptsMean(env, body, deps, around, vis, visibleIfs, item);
      PromptListsConcat([site], Sites(body, around, visibleIfs), item);
    case CommentStmt(_) => assert PromptLists([], item) == [] by { PromptListsNil(item); }
  }

  lemma PromptListsNil(item: Item)
    ensures PromptLists([], item) == []
  {
  }

  lemma OwnPromptsMean(env: Env, site: Site, deps: Option<Expr>, vis: Option<Expr>, item: Item)
    requires Carries(env, deps, site.around) && Carries(env, vis, site.visibleIfs)
    ensures SameConditions(env, if item == site.item then OwnPrompts(site.props, deps, vis) else [],
                           PromptLists([site], item))
  {
    PromptListsOne(site, item);
    if item == site.item { SitePromptMeans(env, site, deps, vis); }
  }

  /** Visibility: the highest, over all prompts, of the lowest of the prompt's own condition, its
      "depends on" lines, the dependencies of every "if" and "menu" around it and their "visible if"s. */
  lemma VisibilityMeaning(x: Ctx, sts: seq<Stmt>, item: Item)
    ensures PromptsVis(x, Prompts(sts, None, None, item)) ==
            Promote(x.off, Highest(PromptLists(Sites(sts, [], []), item), x.env))
  {
    ListedCarries(x.env, None);
    PromptsMean(x.env, sts, None, [], None, [], item);
    PromptsVisMean(x, Prompts(sts, None, None, item), PromptLists(Sites(sts, [], []), item));
  }

  lemma {:induction false} PromptsVisMean(x: Ctx, ps: seq<Option<Expr>>, lists: seq<seq<Expr>>)
    requires SameConditions(x.env, ps, lists)
    ensures PromptsVis(x, ps) == Promote(x.off, Highest(lists, x.env))
  {
    if ps != [] {
      hide Highest, RawOpt, RawAnd;
      var n := |ps| - 1;
      PromptsVisMean(x, ps[..n], lists[..n]);
      assert lists == lists[..n] + [lists[n]];
      HighestConcat(lists[..n], [lists[n]], x.env);
      HighestOne(lists[n], x.env);
    }
  }

  lemma HighestOne(l: seq<Expr>, env: Env)
    ensures Highest([l], env) == RawAnd(l, env)
  {
    assert [l][1..] == [];
  }

  // ---------- defaults ----------

  lemma {:induction false} FinalDefaultsAt(ds: seq<Default>, depends: Option<Expr>, deps: Option<Expr>)
    ensures |FinalDefaults(ds, depends, deps)| == |ds|
    ensures forall i :: 0 <= i < |ds| ==>
              FinalDefaults(ds, depends, deps)[i] == Default(ds[i].val, MakeAnd(MakeAnd(ds[i].cond, depends), deps))
  {
    hide MakeAnd;
    if ds != [] { FinalDefaultsAt(ds[1..], depends, deps); }
  }

  lemma OwnDefaultsMean(env: Env, site: Site, deps: Option<Expr>, item: Item)
    requires Carries(env, deps, site.around)
    ensures SameDefaults(env, if item == site.item then OwnDefaults(site.props, deps) else [],
                         DefaultLists([site], item))
  {
    hide MakeAnd, Carries, DependsOf, DependsLines, DefaultsOf, Listed, FinalDefaults;
    assert [site][1..] == [];
    if item == site.item {
      var ds := DefaultsOf(site.props);
      var lines := DependsLines(site.props);
      FinalDefaultsAt(ds, DependsOf(site.props), deps);
      DependsCarries(env, site.props);
      forall i | 0 <= i < |ds|
        ensures RawOpt(OwnDefaults(site.props, deps)[i].cond, env) ==
                RawAnd(Listed(ds[i].cond) + lines + site.around, env)
      {
        ListedCarries(env, ds[i].cond);
        CarriesMore(env, ds[i].cond, Listed(ds[i].cond), DependsOf(site.props), lines);
        CarriesMore(env, MakeAnd(ds[i].cond, DependsOf(site.props)), Listed(ds[i].cond) + lines, deps, site.around);
        CarriesMeans(env, MakeAnd(MakeAnd(ds[i].cond, DependsOf(site.props)), deps),
                     Listed(ds[i].cond) + lines + site.around);
      }
    }
  }

  lemma {:induction false} DefaultListsConcat(xs: seq<Site>, ys: seq<Site>, item: Item)
    ensures DefaultLists(xs + ys, item) == DefaultLists(xs, item) + DefaultLists(ys, item)
  {
    hide SiteDefaults;
    if xs == [] {
      assert xs + ys == ys;
    } else {
      assert (xs + ys)[1..] == xs[1..] + ys;
      DefaultListsConcat(xs[1..], ys, item);
    }
  }

  /** The same for defaults, which "visible if" does not restrict. */
  lemma {:induction false} DefaultsMean(env: Env, sts: seq<Stmt>, deps: Option<Expr>, around: seq<Expr>,
                                        visibleIfs: seq<Expr>, item: Item)
    requires Carries(env, deps, around)
    ensures SameDefaults(env, Defaults(sts, deps, item), DefaultLists(Sites(sts, around, visibleIfs), item))
    decreases sts, 0
  {
    hide Carries, StmtDefaults, SitesOf, SiteDefaults;
    if sts != [] {
      StmtDefaultsMean(env, sts[0], deps, around, visibleIfs, item);
      DefaultsMean(env, sts[1..], deps, around, visibleIfs, item);
      DefaultListsConcat(SitesOf(sts[0], around, visibleIfs), Sites(sts[1..], around, visibleIfs), item);
    }
  }

  lemma {:induction false} StmtDefaultsMean(env: Env, st: Stmt, deps: Option<Expr>, around: seq<Expr>,
                                            visibleIfs: seq<Expr>, item: Item)
    requires Carries(env, deps, around)
    ensures SameDefaults(env, StmtDefaults(st, deps, item), DefaultLists(SitesOf(st, around, visibleIfs), item))
    decreases st, 1
  {
    hide Carries, Defaults, Sites, MakeAnd, Conjoin, OwnDefaults, DefaultLists;
    Enter(env, st, deps, around, deps, around);
    match st
    case ConfigStmt(s, props) => OwnDefaultsMean(env, Site(SymItem(s), props, around, visibleIfs), deps, item);
    case IfStmt(dep, body) => DefaultsMean(env, body, MakeAnd(Some(dep), deps), around + [dep], visibleIfs, item);
    case MenuStmt(dependsOn, visibleIf, body) =>
      DefaultsMean(env, body, MakeAnd(Conjoin(dependsOn), deps), around + dependsOn, visibleIfs + visibleIf, item);
    case ChoiceStmt(id, props, body) =>
      var site := Site(ChoiceItem(id), props, around, visibleIfs);
      OwnDefaultsMean(env, site, deps, item);
      DefaultsMean(env, body, deps, around, visibleIfs, item);
      DefaultListsConcat([site], Sites(body, around, visibleIfs), item);
    case CommentStmt(_) => assert DefaultLists([], item) == [] by { DefaultListsNil(item); }
  }

  lemma DefaultListsNil(item: Item)
    ensures DefaultLists([], item) == []
  {
  }

  // ---------- selects ----------

  lemma {:induction false} AddSelectsMean(env: Env, site: Site, acc: Expr, sels: seq<Select>, deps: Option<Expr>,
                                          target: SymName)
    requires site.item.SymItem? && Carries(env, deps, site.around)
    ensures Raw(AddSelects(acc, site.item.name, sels, DependsOf(site.props), deps, target), env)
         == Max(Raw(acc, env), Highest(SiteSelects(site, sels, target), env))
    decreases sels
  {
    hide MakeAnd, MakeOr, Carries, DependsOf, DependsLines, Listed, Raw;
    if sels != [] {
      var rest := SiteSelects(site, sels[1..], target);
      if sels[0].target == target {
        var cond := MakeAnd(Some(Leaf(Sym(site.item.name))),
                            MakeAnd(MakeAnd(sels[0].cond, DependsOf(site.props)), deps));
        var list := [Leaf(Sym(site.item.name))] + Listed(sels[0].cond) + DependsLines(site.props) + site.around;
        OneSelect(env, site, sels[0], deps);
        MakeOrMeaning(Some(acc), cond, env);
        HighestConcat([list], rest, env);
        HighestOne(list, env);
        AddSelectsMean(env, site, MakeOr(Some(acc), cond), sels[1..], deps, target);
      } else {
        AddSelectsMean(env, site, acc, sels[1..], deps, target);
        assert [] + rest == rest;
      }
    }
  }

  lemma OneSelect(env: Env, site: Site, sel: Select, deps: Option<Expr>)
    requires site.item.SymItem? && Carries(env, deps, site.around)
    ensures RawOpt(MakeAnd(Some(Leaf(Sym(site.item.name))), MakeAnd(MakeAnd(sel.cond, DependsOf(site.props)), deps)),
                   env)
         == RawAnd([Leaf(Sym(site.item.name))] + Listed(sel.cond) + DependsLines(site.props) + site.around, env)
  {
    hide MakeAnd, Carries, DependsOf, DependsLines;
    var lines := DependsLines(site.props);
    var self := Leaf(Sym(site.item.name));
    ListedCarries(env, sel.cond);
    ListedCarries(env, Some(self));
    DependsCarries(env, site.props);
    CarriesMore(env, sel.cond, Listed(sel.cond), DependsOf(site.props), lines);
    CarriesMore(env, MakeAnd(sel.cond, DependsOf(site.props)), Listed(sel.cond) + lines, deps, site.around);
    CarriesMore(env, Some(self), [self], MakeAnd(MakeAnd(sel.cond, DependsOf(site.props)), deps),
                Listed(sel.cond) + lines + site.around);
    assert [self] + (Listed(sel.cond) + lines + site.around) == [self] + Listed(sel.cond) + lines + site.around;
    CarriesMeans(env, MakeAnd(Some(self), MakeAnd(MakeAnd(sel.cond, DependsOf(site.props)), deps)),
                 [self] + Listed(sel.cond) + lines + site.around);
  }

  lemma {:induction false} SelectListsConcat(xs: seq<Site>, ys: seq<Site>, target: SymName)
    ensures SelectLists(xs + ys, target) == SelectLists(xs, target) + SelectLists(ys, target)
  {
    hide SiteSelects;
    if xs == [] {
      assert xs + ys == ys;
    } else {
      assert (xs + ys)[1..] == xs[1..] + ys;
      SelectListsConcat(xs[1..], ys, target);
    }
  }

  lemma SelectListsOne(site: Site, target: SymName)
    ensures SelectLists([site], target) == SiteSelects(site, SelectsOf(site.props), target)
  {
    assert [site][1..] == [];
  }

  lemma {:induction false} RevDepMeans(env: Env, sts: seq<Stmt>, deps: Option<Expr>, around: seq<Expr>,
                                       visibleIfs: seq<Expr>, target: SymName, acc: Expr)
    requires Carries(env, deps, around)
    ensures Raw(RevDep(sts, deps, target, acc), env)
         == Max(Raw(acc, env), Highest(SelectLists(Sites(sts, around, visibleIfs), target), env))
    decreases sts, 0
  {
    hide Carries, StmtRevDep, SitesOf, SiteSelects, Raw;
    if sts != [] {
      var first, rest := SitesOf(sts[0], around, visibleIfs), Sites(sts[1..], around, visibleIfs);
      StmtRevDepMeans(env, sts[0], deps, around, visibleIfs, target, acc);
      RevDepMeans(env, sts[1..], deps, around, visibleIfs, target, StmtRevDep(sts[0], deps, target, acc));
      SelectListsConcat(first, rest, target);
      HighestConcat(SelectLists(first, target), SelectLists(rest, target), env);
    }
  }

  lemma {:induction false} StmtRevDepMeans(env: Env, st: Stmt, deps: Option<Expr>, around: seq<Expr>,
                                           visibleIfs: seq<Expr>, target: SymName, acc: Expr)
    requires Carries(env, deps, around)
    ensures Raw(StmtRevDep(st, deps, target, acc), env)
         == Max(Raw(acc, env), Highest(SelectLists(SitesOf(st, around, visibleIfs), target), env))
    decreases st, 1
  {
    hide Carries, RevDep, Sites, MakeAnd, Conjoin, SelectLists, AddSelects, SelectsOf, DependsOf, Raw;
    Enter(env, st, deps, around, deps, around);
    match st
    case ConfigStmt(s, props) =>
      var site := Site(SymItem(s), props, around, visibleIfs);
      AddSelectsMean(env, site, acc, SelectsOf(props), deps, target);
      SelectListsOne(site, target);
    case IfStmt(dep, body) => RevDepMeans(env, body, MakeAnd(Some(dep), deps), around + [dep], visibleIfs, target, acc);
    case MenuStmt(dependsOn, visibleIf, body) =>
      RevDepMeans(env, body, MakeAnd(Conjoin(dependsOn), deps), around + dependsOn, visibleIfs + visibleIf, target,
                  acc);
    case ChoiceStmt(id, props, body) =>
      var site := Site(ChoiceItem(id), props, around, visibleIfs);
      var inner := Sites(body, around, visibleIfs);
      RevDepMeans(env, body, deps, around, visibleIfs, target, acc);
      SelectListsOne(site, target);
      SelectListsConcat([site], inner, target);
      assert [] + SelectLists(inner, target) == SelectLists(inner, target);
    case CommentStmt(_) => SelectListsNil(target);
  }

  lemma SelectListsNil(target: SymName)
    ensures SelectLists([], target) == []
  {
  }

  /** Folding all selects gives the highest, over the selects of the target, of the lowest of the
      selector, the select's condition, the selector's "depends on" lines and all blocks around it. */
  lemma SelectMeaning(env: Env, sts: seq<Stmt>, target: SymName)
    ensures Raw(RevDep(sts, None, target, Leaf(Str("n"))), env) == Highest(SelectLists(Sites(sts, [], []), target), env)
  {
    ListedCarries(env, None);
    RevDepMeans(env, sts, None, [], [], target, Leaf(Str("n")));
  }

  /** No select is ever ignored: a symbol outside choices is never below any of its active selects. */
  lemma SelectsHonoured(c: Config, x: Ctx, u: Users, sts: seq<Stmt>, s: SymName, select: seq<Expr>)
    requires Closed(c) && UsersOk(c, u) && s in c.syms && SymbolLaws.Free(c, s)
    requires c.syms[s].revDep == RevDep(sts, None, s, Leaf(Str("n")))
    requires select in SelectLists(Sites(sts, [], []), s)
    ensures !Less(Read(Value(c, x, u, s).text), Promote(x.off, RawAnd(select, x.env)))
  {
    hide Closed, UsersOk, Value, RevDep, Raw, RawAnd, Highest, SelectLists, Sites;
    SymbolLaws.SelectFloor(c, x, u, s);
    SelectMeaning(x.env, sts, s);
    HighestBounds(SelectLists(Sites(sts, [], []), s), x.env);
  }

  // ---------- by lines ----------

  /** Line `i` of definition `n` selects the target. */
  predicate SelectAt(sites: seq<Site>, n: nat, i: nat, target: SymName) {
    n < |sites| && sites[n].item.SymItem? && SelectLineAt(sites[n], i, target)
  }

  predicate SelectLineAt(site: Site, i: nat, target: SymName) {
    i < |site.props| && site.props[i].Selects? && site.props[i].sel.target == target
  }

  /** The selector, the condition of the line, the "depends on" lines of the definition and the blocks around. */
  function SelectNeeds(site: Site, i: nat): seq<Expr>
    requires site.item.SymItem? && i < |site.props| && site.props[i].Selects?
  {
    NeedsOf(site, site.props[i].sel)
  }

  function NeedsOf(site: Site, sel: Select): seq<Expr>
    requires site.item.SymItem?
  {
    [Leaf(Sym(site.item.name))] + Listed(sel.cond) + DependsLines(site.props) + site.around
  }

  lemma {:induction false} SiteSelectsAt(site: Site, sels: seq<Select>, target: SymName, l: seq<Expr>)
    requires site.item.SymItem?
    ensures l in SiteSelects(site, sels, target) <==>
            exists k :: 0 <= k < |sels| && sels[k].target == target && l == NeedsOf(site, sels[k])
  {
    hide Listed, DependsLines;
    if sels != [] {
      SiteSelectsAt(site, sels[1..], target, l);
      assert forall k :: 0 <= k < |sels| - 1 ==> sels[1..][k] == sels[k + 1];
      assert forall k :: 1 <= k < |sels| ==> sels[k] == sels[1..][k - 1];
    }
  }

  lemma SiteSelectsExact(site: Site, target: SymName, l: seq<Expr>)
    requires site.item.SymItem?
    ensures l in SiteSelects(site, SelectsOf(site.props), target) <==>
            exists i: nat :: SelectLineAt(site, i, target) && l == SelectNeeds(site, i)
  {
    var sels := SelectsOf(site.props);
    SiteSelectsAt(site, sels, target, l);
    var ps := SelectsInOrder(site.props);
    hide SiteSelects, SelectsOf, NeedsOf;
    if k :| 0 <= k < |sels| && sels[k].target == target && l == NeedsOf(site, sels[k]) {
      assert SelectLine(site.props[ps[k]]) == Some(sels[k]);
      assert SelectLineAt(site, ps[k], target) && l == SelectNeeds(site, ps[k]);
    }
    if i: nat :| SelectLineAt(site, i, target) && l == SelectNeeds(site, i) {
      assert SelectLine(site.props[i]) == Some(site.props[i].sel);
      var k :| 0 <= k < |ps| && ps[k] == i;
      assert sels[k] == site.props[i].sel;
    }
  }

  /** The lists of conditions under which a target is selected are exactly those of the lines that select it. */
  lemma {:induction false} SelectListsExact(sites: seq<Site>, target: SymName, l: seq<Expr>)
    ensures l in SelectLists(sites, target) <==>
            exists n: nat, i: nat :: SelectAt(sites, n, i, target) && l == SelectNeeds(sites[n], i)
  {
    hide SiteSelects, SelectsOf, SelectNeeds;
    if sites != [] {
      SelectListsExact(sites[1..], target, l);
      if sites[0].item.SymItem? {
        SiteSelectsExact(sites[0], target, l);
      } else {
        ChoiceSelectsNothing(sites[0], target);
      }
      assert forall n: nat, i: nat :: SelectAt(sites[1..], n, i, target) ==> SelectAt(sites, n + 1, i, target);
      if n: nat, i: nat :| SelectAt(sites, n, i, target) && l == SelectNeeds(sites[n], i) {
        if n > 0 { assert SelectAt(sites[1..], n - 1, i, target); }
      }
      if n: nat, i: nat :| SelectAt(sites[1..], n, i, target) && l == SelectNeeds(sites[1..][n], i) {
        assert SelectAt(sites, n + 1, i, target) && l == SelectNeeds(sites[n + 1], i);
      }
      if i: nat :| sites[0].item.SymItem? && SelectLineAt(sites[0], i, target) && l == SelectNeeds(sites[0], i) {
        assert SelectAt(sites, 0, i, target);
      }
    }
  }

  lemma ChoiceSelectsNothing(site: Site, target: SymName)
    requires site.item.ChoiceItem?
    ensures SiteSelects(site, SelectsOf(site.props), target) == []
  {
  }

  /** Line `i` is the prompt that counts in definition `n` of the item. */
  predicate PromptAt(sites: seq<Site>, n: nat, i: nat, item: Item) {
    n < |sites| && sites[n].item == item && LastPrompt(sites[n].props, i)
  }

  function PromptNeeds(site: Site, i: nat): seq<Expr>
    requires LastPrompt(site.props, i)
  {
    Listed(site.props[i].cond) + DependsLines(site.props) + site.around + site.visibleIfs
  }

  lemma SitePromptExact(site: Site, item: Item, l: seq<Expr>)
    ensures l in SitePrompts(site, item) <==>
            site.item == item && exists i: nat :: LastPrompt(site.props, i) && l == PromptNeeds(site, i)
  {
    FindPrompt(site.props);
    forall i: nat | LastPrompt(site.props, i) ensures i < |site.props|
        && PromptOf(site.props) == Some(site.props[i].cond) {
      PromptIsLast(site.props, i);
    }
    hide PromptOf, DependsLines, Listed;
  }

  lemma {:induction false} PromptListsExact(sites: seq<Site>, item: Item, l: seq<Expr>)
    ensures l in PromptLists(sites, item) <==>
            exists n: nat, i: nat :: PromptAt(sites, n, i, item) && l == PromptNeeds(sites[n], i)
  {
    hide SitePrompts, PromptNeeds, LastPrompt;
    if sites != [] {
      PromptListsExact(sites[1..], item, l);
      SitePromptExact(sites[0], item, l);
      if n: nat, i: nat :| PromptAt(sites, n, i, item) && l == PromptNeeds(sites[n], i) {
        if n > 0 { assert PromptAt(sites[1..], n - 1, i, item); }
      }
      if n: nat, i: nat :| PromptAt(sites[1..], n, i, item) && l == PromptNeeds(sites[1..][n], i) {
        assert PromptAt(sites, n + 1, i, item) && l == PromptNeeds(sites[n + 1], i);
      }
      if i: nat :| sites[0].item == item && LastPrompt(sites[0].props, i) && l == PromptNeeds(sites[0], i) {
        assert PromptAt(sites, 0, i, item);
      }
    }
  }

  /** Line `i` of definition `n` is a default of the item. */
  predicate DefaultAt(sites: seq<Site>, n: nat, i: nat, item: Item) {
    n < |sites| && sites[n].item == item && i < |sites[n].props| && sites[n].props[i].DefaultTo?
  }

  function DefaultNeeds(site: Site, i: nat): seq<Expr>
    requires i < |site.props| && site.props[i].DefaultTo?
  {
    Listed(site.props[i].def.cond) + DependsLines(site.props) + site.around
  }

  predicate Before(a: (nat, nat), b: (nat, nat)) {
    a.0 < b.0 || (a.0 == b.0 && a.1 < b.1)
  }

  /** The places are those of all defaults of the item, in order, and the list says what they say. */
  ghost predicate DefaultsAtPlaces(sites: seq<Site>, item: Item, places: seq<(nat, nat)>,
                                   list: seq<(Expr, seq<Expr>)>) {
    && |places| == |list| && (forall a, b :: 0 <= a < b < |places| ==> Before(places[a], places[b]))
    && (forall k :: 0 <= k < |places| ==> DefaultAtPlace(sites, item, places[k], list[k]))
    && (forall n: nat, i: nat :: DefaultAt(sites, n, i, item) ==> (n, i) in places)
  }

  predicate DefaultAtPlace(sites: seq<Site>, item: Item, place: (nat, nat), e: (Expr, seq<Expr>)) {
    && DefaultAt(sites, place.0, place.1, item)
    && e == (sites[place.0].props[place.1].def.val, DefaultNeeds(sites[place.0], place.1))
  }

  lemma SiteDefaultsExact(site: Site, item: Item) returns (places: seq<(nat, nat)>)
    ensures DefaultsAtPlaces([site], item, places, SiteDefaults(site, item))
  {
    places := [];
    if site.item == item {
      var ps := DefaultsInOrder(site.props);
      var ds := DefaultsOf(site.props);
      places := seq(|ps|, k requires 0 <= k < |ps| => (0, ps[k]));
      hide DefaultsOf, DependsLines, Listed;
      forall k | 0 <= k < |places| ensures DefaultAtPlace([site], item, places[k], SiteDefaults(site, item)[k]) {
        assert DefaultLine(site.props[ps[k]]) == Some(ds[k]);
      }
      forall n: nat, i: nat | DefaultAt([site], n, i, item) ensures (n, i) in places {
        assert DefaultLine(site.props[i]).Some? && i in ps;
        var k :| 0 <= k < |ps| && ps[k] == i;
        assert places[k] == (n, i);
      }
    }
  }

  function Shifted(places: seq<(nat, nat)>): seq<(nat, nat)> {
    seq(|places|, k requires 0 <= k < |places| => (places[k].0 + 1, places[k].1))
  }

  lemma PlacesJoin(sites: seq<Site>, item: Item, first: seq<(nat, nat)>, list1: seq<(Expr, seq<Expr>)>,
                   rest: seq<(nat, nat)>, list2: seq<(Expr, seq<Expr>)>)
    requires sites != []
    requires DefaultsAtPlaces([sites[0]], item, first, list1) && DefaultsAtPlaces(sites[1..], item, rest, list2)
    ensures DefaultsAtPlaces(sites, item, first + Shifted(rest), list1 + list2)
  {
    hide DefaultNeeds, DefaultAtPlace, DefaultAt;
    var places, list := first + Shifted(rest), list1 + list2;
    forall k | 0 <= k < |places| ensures DefaultAtPlace(sites, item, places[k], list[k]) {
      if k < |first| {
        OfFirst(sites, item, first[k], list1[k]);
      } else {
        OfRest(sites, item, rest[k - |first|], list2[k - |first|]);
      }
    }
    forall a, b | 0 <= a < b < |places| ensures Before(places[a], places[b]) {
      if a < |first| { OfFirst(sites, item, first[a], list1[a]); }
    }
    forall n: nat, i: nat | DefaultAt(sites, n, i, item) ensures (n, i) in places {
      AtFirstOrRest(sites, item, n, i);
      if n > 0 {
        var k :| 0 <= k < |rest| && rest[k] == (n - 1, i);
        assert places[|first| + k] == (n, i);
      }
    }
  }

  lemma OfFirst(sites: seq<Site>, item: Item, place: (nat, nat), e: (Expr, seq<Expr>))
    requires sites != [] && DefaultAtPlace([sites[0]], item, place, e)
    ensures DefaultAtPlace(sites, item, place, e) && place.0 == 0
  {
  }

  lemma OfRest(sites: seq<Site>, item: Item, place: (nat, nat), e: (Expr, seq<Expr>))
    requires sites != [] && DefaultAtPlace(sites[1..], item, place, e)
    ensures DefaultAtPlace(sites, item, (place.0 + 1, place.1), e)
  {
  }

  lemma AtFirstOrRest(sites: seq<Site>, item: Item, n: nat, i: nat)
    requires sites != [] && DefaultAt(sites, n, i, item)
    ensures if n == 0 then DefaultAt([sites[0]], 0, i, item) else DefaultAt(sites[1..], n - 1, i, item)
  {
  }

  /** The defaults of an item are exactly its default lines, in the order of definitions and of lines. */
  lemma {:induction false} DefaultListsExact(sites: seq<Site>, item: Item) returns (places: seq<(nat, nat)>)
    ensures DefaultsAtPlaces(sites, item, places, DefaultLists(sites, item))
  {
    places := [];
    if sites != [] {
      hide DefaultsAtPlaces, SiteDefaults;
      var first := SiteDefaultsExact(sites[0], item);
      var rest := DefaultListsExact(sites[1..], item);
      PlacesJoin(sites, item, first, SiteDefaults(sites[0], item), rest, DefaultLists(sites[1..], item));
      places := first + Shifted(rest);
    }
  }

  /** No line that selects a symbol outside choices is ever ignored: the symbol is never below the lowest of the
      conditions of the line. */
  lemma SelectLinesHonoured(c: Config, x: Ctx, u: Users, sts: seq<Stmt>, s: SymName, n: nat, i: nat)
    requires Closed(c) && UsersOk(c, u) && s in c.syms && SymbolLaws.Free(c, s)
    requires c.syms[s].revDep == RevDep(sts, None, s, Leaf(Str("n")))
    requires SelectAt(Sites(sts, [], []), n, i, s)
    ensures !Less(Read(Value(c, x, u, s).text), Promote(x.off, RawAnd(SelectNeeds(Sites(sts, [], [])[n], i), x.env)))
  {
    hide Closed, UsersOk, Value, RevDep, Raw, RawAnd, SelectLists, Sites;
    SelectListsExact(Sites(sts, [], []), s, SelectNeeds(Sites(sts, [], [])[n], i));
    SelectsHonoured(c, x, u, sts, s, SelectNeeds(Sites(sts, [], [])[n], i));
  }

  /** The highest, over all lines that select the target, of the lowest of the conditions of each line. */
  ghost predicate SelectsByLines(sites: seq<Site>, env: Env, target: SymName, v: Tri) {
    && (forall n: nat, i: nat :: SelectAt(sites, n, i, target) ==> !Less(v, RawAnd(SelectNeeds(sites[n], i), env)))
    && (v != N ==> exists n: nat, i: nat :: SelectAt(sites, n, i, target) && RawAnd(SelectNeeds(sites[n], i), env) == v)
  }

  /** The same over the prompts that count in the definitions of an item. */
  ghost predicate PromptsByLines(sites: seq<Site>, env: Env, item: Item, v: Tri) {
    && (forall n: nat, i: nat :: PromptAt(sites, n, i, item) ==> !Less(v, RawAnd(PromptNeeds(sites[n], i), env)))
    && (v != N ==> exists n: nat, i: nat :: PromptAt(sites, n, i, item) && RawAnd(PromptNeeds(sites[n], i), env) == v)
  }

  /** With "m" counting as "y" when modules are off. */
  ghost predicate VisibleByLines(sites: seq<Site>, x: Ctx, item: Item, vis: Tri) {
    exists v :: PromptsByLines(sites, x.env, item, v) && vis == Promote(x.off, v)
  }

  /** Value and condition of every default line of an item, in order. */
  ghost predicate DefaultsByLines(sites: seq<Site>, env: Env, item: Item, ds: seq<Default>) {
    exists places, list :: DefaultsAtPlaces(sites, item, places, list) && SameDefaults(env, ds, list)
  }

  lemma HighestByLines(sites: seq<Site>, env: Env, target: SymName, item: Item)
    ensures SelectsByLines(sites, env, target, Highest(SelectLists(sites, target), env))
    ensures PromptsByLines(sites, env, item, Highest(PromptLists(sites, item), env))
  {
    hide SelectLists, PromptLists, SelectNeeds, PromptNeeds, Highest, RawAnd;
    HighestBounds(SelectLists(sites, target), env);
    HighestBounds(PromptLists(sites, item), env);
    forall l ensures l in SelectLists(sites, target) <==>
        exists n: nat, i: nat :: SelectAt(sites, n, i, target) && l == SelectNeeds(sites[n], i) {
      SelectListsExact(sites, target, l);
    }
    forall l ensures l in PromptLists(sites, item) <==>
        exists n: nat, i: nat :: PromptAt(sites, n, i, item) && l == PromptNeeds(sites[n], i) {
      PromptListsExact(sites, item, l);
    }
  }

  /** Parsing a whole file from empty tables gives every item the visibility, the defaults and the reverse
      dependency that the lines of its nested definitions call for. */
  method Flatten(sts: seq<Stmt>) returns (t: Tables)
    ensures forall x, i :: VisibleByLines(Sites(sts, [], []), x, i, PromptsVis(x, PromptsAt(t.prompts, i)))
    ensures forall env, i :: DefaultsByLines(Sites(sts, [], []), env, i, DefaultsAt(t.defaults, i))
    ensures forall env, s :: SelectsByLines(Sites(sts, [], []), env, s, Raw(RevDepAt(t.revDeps, s), env))
    ensures forall x, i :: PromptsVis(x, PromptsAt(t.prompts, i)) ==
                           Promote(x.off, Highest(PromptLists(Sites(sts, [], []), i), x.env))
    ensures forall env, i :: SameDefaults(env, DefaultsAt(t.defaults, i), DefaultLists(Sites(sts, [], []), i))
    ensures forall env, s :: Raw(RevDepAt(t.revDeps, s), env) == Highest(SelectLists(Sites(sts, [], []), s), env)
  {
    hide MakeAnd, MakeOr, Highest, PromptLists, SelectLists, DefaultLists, Sites, Prompts, Defaults, RevDep, PromptsVis,
         SameDefaults, Raw, PromptsAt, DefaultsAt, RevDepAt, Adds, Promote, PromptsByLines, DefaultsByLines,
         SelectsByLines;
    t := new Tables();
    t.ParseBlock(sts, None, None);
    AddedFromScratch(t.Now(), sts);
    forall x, i ensures PromptsVis(x, PromptsAt(t.Now().prompts, i)) ==
        Promote(x.off, Highest(PromptLists(Sites(sts, [], []), i), x.env)) {
      VisibilityMeaning(x, sts, i);
    }
    forall x, i ensures VisibleByLines(Sites(sts, [], []), x, i, PromptsVis(x, PromptsAt(t.Now().prompts, i))) {
      VisibilityMeaning(x, sts, i);
      HighestByLines(Sites(sts, [], []), x.env, "", i);
    }
    forall env, i
      ensures DefaultsByLines(Sites(sts, [], []), env, i, DefaultsAt(t.Now().defaults, i))
      ensures SameDefaults(env, DefaultsAt(t.Now().defaults, i), DefaultLists(Sites(sts, [], []), i))
    {
      DefaultsMeanByLines(env, sts, i);
    }
    forall env, s
      ensures SelectsByLines(Sites(sts, [], []), env, s, Raw(RevDepAt(t.Now().revDeps, s), env))
      ensures Raw(RevDepAt(t.Now().revDeps, s), env) == Highest(SelectLists(Sites(sts, [], []), s), env)
    {
      SelectMeaning(env, sts, s);
      HighestByLines(Sites(sts, [], []), env, s, SymItem(s));
    }
  }

  lemma DefaultsMeanByLines(env: Env, sts: seq<Stmt>, item: Item)
    ensures DefaultsByLines(Sites(sts, [], []), env, item, Defaults(sts, None, item))
    ensures SameDefaults(env, Defaults(sts, None, item), DefaultLists(Sites(sts, [], []), item))
  {
    hide SameDefaults, DefaultsAtPlaces, Sites, Defaults, DefaultLists;
    ListedCarries(env, None);
    DefaultsMean(env, sts, None, [], [], item);
    var places := DefaultListsExact(Sites(sts, [], []), item);
  }

  lemma AddedFromScratch(t: Flat, sts: seq<Stmt>)
    requires Adds(Flat(map[], map[], map[]), t, sts, None, None)
    ensures forall i :: PromptsAt(t.prompts, i) == Prompts(sts, None, None, i)
    ensures forall i :: DefaultsAt(t.defaults, i) == Defaults(sts, None, i)
    ensures forall s :: RevDepAt(t.revDeps, s) == RevDep(sts, None, s, Leaf(Str("n")))
  {
    hide Prompts, Defaults, RevDep;
    forall i ensures PromptsAt(t.prompts, i) == Prompts(sts, None, None, i)
        && DefaultsAt(t.defaults, i) == Defaults(sts, None, i) {
      assert [] + Prompts(sts, None, None, i) == Prompts(sts, None, None, i);
      assert [] + Defaults(sts, None, i) == Defaults(sts, None, i);
    }
  }
}
