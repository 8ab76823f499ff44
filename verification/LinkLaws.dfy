/** Which symbols an expression mentions, and which symbols a symbol is linked to, by the positions of its
    properties. */
module LinkLaws {
  import opened Wrappers
  import opened Expressions
  import opened Configuration

  /** Exactly the symbols that occur somewhere in it are collected from an expression. */
  lemma {:induction false} MentionLaw(e: Expr, n: SymName)
    ensures e.Leaf? ==> (n in SymsOf(e) <==> e.a == Sym(n))
    ensures e.Rel? ==> (n in SymsOf(e) <==> e.left == Sym(n) || e.right == Sym(n))
    ensures e.Not? ==> (n in SymsOf(e) <==> n in SymsOf(e.e))
    ensures e.And? ==> (n in SymsOf(e) <==> exists i :: 0 <= i < |e.es| && n in SymsOf(e.es[i]))
    ensures e.Or? ==> (n in SymsOf(e) <==> exists i :: 0 <= i < |e.es| && n in SymsOf(e.es[i]))
  {
    if e.And? { MentionedInAll(e.es, n); }
    if e.Or? { MentionedInAll(e.es, n); }
  }

  lemma {:induction false} MentionedInAll(es: seq<Expr>, n: SymName)
    ensures n in SymsOfAll(es) <==> exists i :: 0 <= i < |es| && n in SymsOf(es[i])
  {
    hide SymsOf;
    if es != [] {
      MentionedInAll(es[1..], n);
      assert forall i :: 0 <= i < |es| - 1 ==> es[1..][i] == es[i + 1];
      assert forall i :: 1 <= i < |es| ==> es[i] == es[1..][i - 1];
    }
  }

  predicate InCond(e: Option<Expr>, n: SymName) {
    e.Some? && n in SymsOf(e.value)
  }

  predicate InPrompt(ps: seq<Option<Expr>>, n: SymName) {
    exists i :: 0 <= i < |ps| && InCond(ps[i], n)
  }

  predicate InDefault(ds: seq<Default>, n: SymName) {
    exists i :: 0 <= i < |ds| && (n in SymsOf(ds[i].val) || InCond(ds[i].cond, n))
  }

  predicate InRange(rs: seq<Range>, n: SymName) {
    exists i :: 0 <= i < |rs| && (rs[i].low == Sym(n) || rs[i].high == Sym(n) || InCond(rs[i].cond, n))
  }

  predicate InPick(ps: seq<Pick>, n: SymName) {
    exists i :: 0 <= i < |ps| && InCond(ps[i].cond, n)
  }

  lemma {:induction false} PromptSymsExact(ps: seq<Option<Expr>>, n: SymName)
    ensures n in PromptSyms(ps) <==> InPrompt(ps, n)
  {
    hide SymsOf;
    if ps != [] {
      var k := |ps| - 1;
      PromptSymsExact(ps[..k], n);
      assert forall i :: 0 <= i < k ==> ps[..k][i] == ps[i];
    }
  }

  lemma {:induction false} DefaultSymsExact(ds: seq<Default>, n: SymName)
    ensures n in DefaultSyms(ds) <==> InDefault(ds, n)
  {
    hide SymsOf;
    if ds != [] {
      DefaultSymsExact(ds[1..], n);
      assert forall i :: 0 <= i < |ds| - 1 ==> ds[1..][i] == ds[i + 1];
      assert forall i :: 1 <= i < |ds| ==> ds[i] == ds[1..][i - 1];
    }
  }

  lemma {:induction false} RangeSymsExact(rs: seq<Range>, n: SymName)
    ensures n in RangeSyms(rs) <==> InRange(rs, n)
  {
    hide SymsOf;
    if rs != [] {
      RangeSymsExact(rs[1..], n);
      assert forall i :: 0 <= i < |rs| - 1 ==> rs[1..][i] == rs[i + 1];
      assert forall i :: 1 <= i < |rs| ==> rs[i] == rs[1..][i - 1];
    }
  }

  lemma {:induction false} PickSymsExact(ps: seq<Pick>, n: SymName)
    ensures n in PickSyms(ps) <==> InPick(ps, n)
  {
    hide SymsOf;
    if ps != [] {
      PickSymsExact(ps[1..], n);
      assert forall i :: 0 <= i < |ps| - 1 ==> ps[1..][i] == ps[i + 1];
      assert forall i :: 1 <= i < |ps| ==> ps[i] == ps[1..][i - 1];
    }
  }

  /** A symbol is linked to exactly the symbols that some prompt, default, range, its reverse dependency, or a
      prompt or default of its choice mentions. */
  lemma LinkedExactly(c: Config, s: SymName, n: SymName)
    requires s in c.syms && (c.syms[s].choice.Some? ==> c.syms[s].choice.value in c.choices)
    ensures var d := c.syms[s];
            n in DirectInputs(c, s) <==>
            || InPrompt(d.prompts, n) || InDefault(d.defaults, n) || InRange(d.ranges, n) || n in SymsOf(d.revDep)
            || (d.choice.Some? && (InPrompt(c.choices[d.choice.value].prompts, n)
                                   || InPick(c.choices[d.choice.value].defaults, n)))
  {
    var d := c.syms[s];
    PromptSymsExact(d.prompts, n);
    DefaultSymsExact(d.defaults, n);
    RangeSymsExact(d.ranges, n);
    if d.choice.Some? {
      PromptSymsExact(c.choices[d.choice.value].prompts, n);
      PickSymsExact(c.choices[d.choice.value].defaults, n);
    }
    hide InPrompt, InDefault, InRange, InPick;
  }
}
