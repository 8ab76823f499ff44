/** Which conditions surround a definition, block by block. */
module BlockLaws {
  import opened Expressions
  import opened Configuration
  import opened BlockParser
  import opened BlockMeaning

  /** The same definition, with more around it. */
  predicate Wraps(outer: Site, inner: Site, around: seq<Expr>, visibleIfs: seq<Expr>) {
    && outer.item == inner.item && outer.props == inner.props
    && outer.around == around + inner.around && outer.visibleIfs == visibleIfs + inner.visibleIfs
  }

  predicate AllWrapped(outer: seq<Site>, inner: seq<Site>, around: seq<Expr>, visibleIfs: seq<Expr>) {
    |outer| == |inner| && forall n :: 0 <= n < |inner| ==> Wraps(outer[n], inner[n], around, visibleIfs)
  }

  /** The definitions of an "if" block are those of its body, each with the condition around it. A menu adds its
      dependencies and its "visible if" conditions. A choice adds nothing but itself, and a comment has none. */
  lemma BlockLaw(s: SymName, dep: Expr, dependsOn: seq<Expr>, visibleIf: seq<Expr>, k: ChoiceId, props: seq<Prop>,
                 body: seq<Stmt>)
    ensures Sites([ConfigStmt(s, props)], [], []) == [Site(SymItem(s), props, [], [])]
    ensures var inner := Sites(body, [], []);
            && AllWrapped(Sites([IfStmt(dep, body)], [], []), inner, [dep], [])
            && AllWrapped(Sites([MenuStmt(dependsOn, visibleIf, body)], [], []), inner, dependsOn, visibleIf)
            && Sites([ChoiceStmt(k, props, body)], [], []) == [Site(ChoiceItem(k), props, [], [])] + inner
            && Sites([CommentStmt(dependsOn)], [], []) == []
  {
    OneStatement(ConfigStmt(s, props), [], []);
    OneStatement(IfStmt(dep, body), [], []);
    OneStatement(MenuStmt(dependsOn, visibleIf, body), [], []);
    OneStatement(ChoiceStmt(k, props, body), [], []);
    OneStatement(CommentStmt(dependsOn), [], []);
    WrappedBlock(body, [], [], [dep], []);
    WrappedBlock(body, [], [], dependsOn, visibleIf);
    assert [] + [dep] == [dep] + [] && dependsOn + [] == [] + dependsOn && visibleIf + [] == [] + visibleIf;
  }

  lemma OneStatement(st: Stmt, around: seq<Expr>, visibleIfs: seq<Expr>)
    ensures Sites([st], around, visibleIfs) == SitesOf(st, around, visibleIfs)
  {
    assert [st][1..] == [];
  }

  lemma {:induction false} WrappedStmt(st: Stmt, around: seq<Expr>, visibleIfs: seq<Expr>, a: seq<Expr>, v: seq<Expr>)
    ensures AllWrapped(SitesOf(st, a + around, v + visibleIfs), SitesOf(st, around, visibleIfs), a, v)
    decreases st, 1
  {
    hide Sites;
    match st
    case ConfigStmt(s, props) =>
    case IfStmt(dep, body) =>
      assert (a + around) + [dep] == a + (around + [dep]);
      WrappedBlock(body, around + [dep], visibleIfs, a, v);
    case MenuStmt(dependsOn, visibleIf, body) =>
      assert (a + around) + dependsOn == a + (around + dependsOn);
      assert (v + visibleIfs) + visibleIf == v + (visibleIfs + visibleIf);
      WrappedBlock(body, around + dependsOn, visibleIfs + visibleIf, a, v);
    case ChoiceStmt(id, props, body) =>
      WrappedBlock(body, around, visibleIfs, a, v);
      WrappedJoin([Site(ChoiceItem(id), props, a + around, v + visibleIfs)],
                  [Site(ChoiceItem(id), props, around, visibleIfs)],
                  Sites(body, a + around, v + visibleIfs), Sites(body, around, visibleIfs), a, v);
    case CommentStmt(_) =>
  }

  lemma {:induction false} WrappedBlock(sts: seq<Stmt>, around: seq<Expr>, visibleIfs: seq<Expr>, a: seq<Expr>,
                                        v: seq<Expr>)
    ensures AllWrapped(Sites(sts, a + around, v + visibleIfs), Sites(sts, around, visibleIfs), a, v)
    decreases sts, 0
  {
    hide SitesOf;
    if sts != [] {
      WrappedStmt(sts[0], around, visibleIfs, a, v);
      WrappedBlock(sts[1..], around, visibleIfs, a, v);
      WrappedJoin(SitesOf(sts[0], a + around, v + visibleIfs), SitesOf(sts[0], around, visibleIfs),
                  Sites(sts[1..], a + around, v + visibleIfs), Sites(sts[1..], around, visibleIfs), a, v);
    }
  }

  lemma WrappedJoin(xs: seq<Site>, xs': seq<Site>, ys: seq<Site>, ys': seq<Site>, a: seq<Expr>, v: seq<Expr>)
    requires AllWrapped(xs, xs', a, v) && AllWrapped(ys, ys', a, v)
    ensures AllWrapped(xs + ys, xs' + ys', a, v)
  {
  }

  /** Blocks one after the other contribute one after the other. */
  lemma {:induction false} SequenceLaw(xs: seq<Stmt>, ys: seq<Stmt>)
    ensures Sites(xs + ys, [], []) == Sites(xs, [], []) + Sites(ys, [], [])
  {
    if xs == [] {
      assert xs + ys == ys;
    } else {
      assert (xs + ys)[1..] == xs[1..] + ys;
      SequenceLaw(xs[1..], ys);
    }
  }
}
