/** What conditional expressions and their tokens mean, without recourse to how they are evaluated, parsed
    or rewritten. */
module ExprLaws {
  import opened Tristate
  import opened Expressions
  import opened ExprParser
  import opened ExprPrinter

  // ---------- operators ----------

  /** "n" as soon as one operand is, "y" only if all are. */
  lemma {:induction false} AndValue(es: seq<Expr>, env: Env)
    ensures Raw(And(es), env) == N <==> exists i :: 0 <= i < |es| && Raw(es[i], env) == N
    ensures Raw(And(es), env) == Y <==> forall i :: 0 <= i < |es| ==> Raw(es[i], env) == Y
  {
    if es != [] {
      var rest := es[1..];
      AndValue(rest, env);
      assert forall i :: 0 <= i < |rest| ==> rest[i] == es[i + 1];
      assert forall i :: 1 <= i < |es| ==> es[i] == rest[i - 1];
      assert Raw(And(rest), env) == RawAnd(rest, env);
    }
  }

  /** "y" as soon as one operand is, "n" only if all are. */
  lemma {:induction false} OrValue(es: seq<Expr>, env: Env)
    ensures Raw(Or(es), env) == Y <==> exists i :: 0 <= i < |es| && Raw(es[i], env) == Y
    ensures Raw(Or(es), env) == N <==> forall i :: 0 <= i < |es| ==> Raw(es[i], env) == N
  {
    if es != [] {
      var rest := es[1..];
      OrValue(rest, env);
      assert forall i :: 0 <= i < |rest| ==> rest[i] == es[i + 1];
      assert forall i :: 1 <= i < |es| ==> es[i] == rest[i - 1];
      assert Raw(Or(rest), env) == RawOr(rest, env);
    }
  }

  /** Negation exchanges "n" and "y", and so exchanges conjunctions and disjunctions. */
  lemma NotValue(e: Expr, env: Env)
    ensures Raw(Not(e), env) == Y <==> Raw(e, env) == N
    ensures Raw(Not(e), env) == N <==> Raw(e, env) == Y
    ensures Raw(Not(Not(e)), env) == Raw(e, env)
  {
  }

  lemma DeMorgan(es: seq<Expr>, env: Env)
    ensures var nots := seq(|es|, i requires 0 <= i < |es| => Not(es[i]));
            && Raw(Not(And(es)), env) == Raw(Or(nots), env)
            && Raw(Not(Or(es)), env) == Raw(And(nots), env)
  {
    var nots := seq(|es|, i requires 0 <= i < |es| => Not(es[i]));
    AndValue(es, env);
    OrValue(es, env);
    AndValue(nots, env);
    OrValue(nots, env);
    forall i | 0 <= i < |es|
      ensures (Raw(nots[i], env) == Y <==> Raw(es[i], env) == N) && (Raw(nots[i], env) == N <==> Raw(es[i], env) == Y)
    {
      NotValue(es[i], env);
    }
    NotValue(And(es), env);
    NotValue(Or(es), env);
    hide Raw;
  }

  /** Comparisons look at texts only; "!=" is the negation of "=". */
  lemma CompareValue(l: Atom, r: Atom, env: Env)
    ensures Raw(Rel(false, l, r), env) == Y <==> AtomText(l, env) == AtomText(r, env)
    ensures Raw(Rel(false, l, r), env) == N <==> AtomText(l, env) != AtomText(r, env)
    ensures Raw(Rel(true, l, r), env) == Raw(Not(Rel(false, l, r)), env)
  {
  }

  /** Symbols that are neither bool nor tristate count as "n", whatever their value. */
  lemma OperandValue(s: SymName, text: string, env: Env)
    ensures s !in env.logical ==> Raw(Leaf(Sym(s)), env) == N
    ensures s in env.logical && s in env.vals ==>
              && (Raw(Leaf(Sym(s)), env) == Y <==> env.vals[s] == "y")
              && (Raw(Leaf(Sym(s)), env) == M <==> env.vals[s] == "m")
    ensures Raw(Leaf(Str(text)), env) == Y <==> text == "y"
    ensures Raw(Leaf(Str(text)), env) == M <==> text == "m"
  {
    assert "y"[0] != "m"[0];
  }

  // ---------- "m" and MODULES ----------

  /** The operands that are rewritten. */
  predicate IsM(a: Atom) {
    a == Sym("m") || a == Str("m")
  }

  /** The tree with every lone "m" or m replaced by "m" && MODULES. */
  function Rewrite(e: Expr): Expr
    decreases e, 1
  {
    match e
    case Leaf(a) => if IsM(a) then And([Leaf(Str("m")), Leaf(Sym("MODULES"))]) else e
    case And(es) => And(RewriteAll(es))
    case Or(es) => Or(RewriteAll(es))
    case Not(e1) => Not(Rewrite(e1))
    case Rel(_, _, _) => e
  }

  function RewriteAll(es: seq<Expr>): (rs: seq<Expr>)
    ensures |rs| == |es|
    decreases es, 0
  {
    if es == [] then [] else [Rewrite(es[0])] + RewriteAll(es[1..])
  }

  lemma {:induction false} RewriteAllAppend(es: seq<Expr>, e: Expr)
    ensures RewriteAll(es + [e]) == RewriteAll(es) + [Rewrite(e)]
  {
    if es == [] {
      assert es + [e] == [e] && [e][1..] == [];
    } else {
      assert (es + [e])[1..] == es[1..] + [e];
      RewriteAllAppend(es[1..], e);
    }
  }

  lemma RewriteMk(es: seq<Expr>)
    ensures Rewrite(MkAnd(es)) == MkAnd(RewriteAll(es)) && Rewrite(MkOr(es)) == MkOr(RewriteAll(es))
  {
  }

  function Rewritten(r: Parsed): Parsed {
    if r.Ok? then Ok(Rewrite(r.e), r.rest) else r
  }

  lemma {:induction false} FactorRewrites(ts: seq<Token>)
    ensures Factor(true, ts) == Rewritten(Factor(false, ts))
    decreases |ts|, 0
  {
    hide OrList;
    if ts != [] && ts[0] == TNot { FactorRewrites(ts[1..]); }
    if ts != [] && ts[0] == TOpen { OrListRewrites(ts[1..], []); }
  }

  lemma {:induction false} AndListRewrites(ts: seq<Token>, acc: seq<Expr>)
    ensures AndList(true, ts, RewriteAll(acc)) == Rewritten(AndList(false, ts, acc))
    decreases |ts|, 1
  {
    hide Factor, AndList, Rewrite, RewriteAll, MkAnd;
    AndListStep(true, ts, RewriteAll(acc));
    AndListStep(false, ts, acc);
    FactorRewrites(ts);
    var f := Factor(false, ts);
    if f.Ok? {
      RewriteAllAppend(acc, f.e);
      RewriteMk(acc + [f.e]);
      if Starts(f.rest, TAnd) { AndListRewrites(f.rest[1..], acc + [f.e]); }
    }
  }

  lemma {:induction false} OrListRewrites(ts: seq<Token>, acc: seq<Expr>)
    ensures OrList(true, ts, RewriteAll(acc)) == Rewritten(OrList(false, ts, acc))
    decreases |ts|, 3
  {
    hide Factor, AndList, OrList, Rewrite, RewriteAll, MkOr;
    OrListStep(true, ts, RewriteAll(acc));
    OrListStep(false, ts, acc);
    NothingRewritten();
    AndListRewrites(ts, []);
    var t := AndList(false, ts, []);
    if t.Ok? {
      RewriteAllAppend(acc, t.e);
      RewriteMk(acc + [t.e]);
      if Starts(t.rest, TOr) { OrListRewrites(t.rest[1..], acc + [t.e]); }
    }
  }

  lemma NothingRewritten()
    ensures RewriteAll([]) == []
  {
  }

  /** Operands as they are, except that "m" counts as `m`. */
  function ReadM(env: Env, m: Tri): Atom -> Tri {
    a => if IsM(a) then m else AtomTri(a, env)
  }

  /** How much "m" is worth: no more than MODULES. */
  function WorthOfM(env: Env): Tri {
    if "MODULES" !in env.logical then N else Min(M, Read(Look(env.vals, "MODULES")))
  }

  lemma {:induction false} RewriteMeans(e: Expr, env: Env)
    ensures Raw(Rewrite(e), env) == ValueBy(e, ReadM(env, WorthOfM(env)), env)
    decreases e, 1
  {
    match e
    case Leaf(a) => if IsM(a) { TwoOperands(Leaf(Str("m")), Leaf(Sym("MODULES")), env); }
    case And(es) => RewriteAllMeans(es, env);
    case Or(es) => RewriteAllMeans(es, env);
    case Not(e1) => RewriteMeans(e1, env);
    case Rel(_, _, _) =>
  }

  lemma TwoOperands(a: Expr, b: Expr, env: Env)
    ensures Raw(And([a, b]), env) == Min(Raw(a, env), Raw(b, env))
  {
    assert [a, b][1..] == [b] && [b][1..] == [];
    assert RawAnd([b], env) == Raw(b, env);
  }

  lemma {:induction false} RewriteAllMeans(es: seq<Expr>, env: Env)
    ensures RawAnd(RewriteAll(es), env) == AndBy(es, ReadM(env, WorthOfM(env)), env)
    ensures RawOr(RewriteAll(es), env) == OrBy(es, ReadM(env, WorthOfM(env)), env)
    decreases es, 0
  {
    if es != [] {
      RewriteMeans(es[0], env);
      RewriteAllMeans(es[1..], env);
      assert RewriteAll(es)[1..] == RewriteAll(es[1..]);
    }
  }

  /** The symbols compared with something. */
  function ComparedSyms(e: Expr): set<SymName>
    decreases e, 1
  {
    match e
    case Leaf(_) => {}
    case And(es) => ComparedInAll(es)
    case Or(es) => ComparedInAll(es)
    case Not(e1) => ComparedSyms(e1)
    case Rel(_, l, r) => AtomSyms(l) + AtomSyms(r)
  }

  function ComparedInAll(es: seq<Expr>): set<SymName>
    decreases es, 0
  {
    if es == [] then {} else ComparedSyms(es[0]) + ComparedInAll(es[1..])
  }

  /** The operands that stand alone. */
  function LoneAtoms(e: Expr): set<Atom>
    decreases e, 1
  {
    match e
    case Leaf(a) => {a}
    case And(es) => LoneInAll(es)
    case Or(es) => LoneInAll(es)
    case Not(e1) => LoneAtoms(e1)
    case Rel(_, _, _) => {}
  }

  function LoneInAll(es: seq<Expr>): set<Atom>
    decreases es, 0
  {
    if es == [] then {} else LoneAtoms(es[0]) + LoneInAll(es[1..])
  }

  /** MODULES instead of m, where m stands alone. */
  function RewrittenSyms(compared: set<SymName>, lone: set<Atom>): set<SymName> {
    compared + (set a | a in lone && a.Sym? && a.name != "m" :: a.name)
    + if Sym("m") in lone || Str("m") in lone then {"MODULES"} else {}
  }

  lemma {:induction false} RewriteSyms(e: Expr)
    ensures SymsOf(Rewrite(e)) == RewrittenSyms(ComparedSyms(e), LoneAtoms(e))
    ensures SymsOf(e) == ComparedSyms(e) + set a | a in LoneAtoms(e) && a.Sym? :: a.name
    decreases e, 1
  {
    match e
    case Leaf(a) => if IsM(a) { TwoSyms(); }
    case And(es) => RewriteAllSyms(es);
    case Or(es) => RewriteAllSyms(es);
    case Not(e1) => RewriteSyms(e1);
    case Rel(_, _, _) =>
  }

  lemma TwoSyms()
    ensures SymsOf(And([Leaf(Str("m")), Leaf(Sym("MODULES"))])) == {"MODULES"}
  {
    var es := [Leaf(Str("m")), Leaf(Sym("MODULES"))];
    assert es[1..] == [Leaf(Sym("MODULES"))] && es[1..][1..] == [];
    assert SymsOfAll(es[1..]) == {"MODULES"};
  }

  lemma {:induction false} RewriteAllSyms(es: seq<Expr>)
    ensures SymsOfAll(RewriteAll(es)) == RewrittenSyms(ComparedInAll(es), LoneInAll(es))
    ensures SymsOfAll(es) == ComparedInAll(es) + set a | a in LoneInAll(es) && a.Sym? :: a.name
    decreases es, 0
  {
    if es != [] {
      RewriteSyms(es[0]);
      RewriteAllSyms(es[1..]);
      assert RewriteAll(es)[1..] == RewriteAll(es[1..]);
    }
  }

  /** Parsing any tokens with rewriting on: the same as without, except that every lone "m" or m is worth the
      minimum of "m" and MODULES, and mentions MODULES. */
  lemma ModulesRewriting(ts: seq<Token>, env: Env)
    ensures var r, plain := ParseTokens(true, ts), ParseTokens(false, ts);
            && (plain.Err? ==> r == plain)
            && (plain.Ok? ==>
                  && r.Ok? && r.rest == plain.rest
                  && Raw(r.e, env) == ValueBy(plain.e, ReadM(env, WorthOfM(env)), env)
                  && SymsOf(r.e) == RewrittenSyms(ComparedSyms(plain.e), LoneAtoms(plain.e)))
  {
    NothingRewritten();
    OrListRewrites(ts, []);
    var plain := ParseTokens(false, ts);
    if plain.Ok? {
      RewriteMeans(plain.e, env);
      RewriteSyms(plain.e);
    }
    hide OrList, Rewrite, ValueBy, Raw, SymsOf, RewrittenSyms;
  }

  /** The same for a printed expression that is read back. */
  lemma SplicedModules(e: Expr, env: Env)
    requires Printable(e)
    ensures Raw(Spliced(true, e), env) == ValueBy(e, ReadM(env, WorthOfM(env)), env)
  {
    hide Print, Spliced, Printable, OrList, ValueBy, Raw, ReadM;
    RoundTrip(true, e, []);
    RoundTrip(false, e, []);
    ModulesRewriting(Print(e), env);
    SplicedValue(e, ReadM(env, WorthOfM(env)), env);
  }

  // ---------- precedence, on tokens ----------

  /** Operands with "&&" between them. */
  function AndTokens(g: seq<Atom>): seq<Token>
    requires g != []
  {
    AtomToken(g[0]) + if |g| == 1 then [] else [TAnd] + AndTokens(g[1..])
  }

  /** Such groups with "||" between them. */
  function OrTokens(gs: seq<seq<Atom>>): seq<Token>
    requires gs != [] && forall i :: 0 <= i < |gs| ==> Operands(gs[i])
  {
    assert Operands(gs[0]);
    AndTokens(gs[0]) + if |gs| == 1 then [] else [TOr] + OrTokens(gs[1..])
  }

  function Leaves(g: seq<Atom>): seq<Expr> {
    seq(|g|, i requires 0 <= i < |g| => Leaf(g[i]))
  }

  function Groups(gs: seq<seq<Atom>>): seq<Expr> {
    seq(|gs|, i requires 0 <= i < |gs| => And(Leaves(gs[i])))
  }

  predicate AllY(g: seq<Atom>, env: Env) {
    forall a <- g :: AtomTri(a, env) == Y
  }

  predicate SomeN(g: seq<Atom>, env: Env) {
    exists a :: a in g && AtomTri(a, env) == N
  }

  predicate Operands(g: seq<Atom>) {
    g != [] && forall a <- g :: !a.Stray?
  }

  lemma {:induction false} PrintGroup(g: seq<Atom>)
    requires Operands(g)
    ensures Intersperse(Leaves(g), TAnd, 1) == AndTokens(g) && PrintableAll(Leaves(g))
  {
    var es := Leaves(g);
    assert SubExpr(es[0], 1) == AtomToken(g[0]);
    assert g[0] in g;
    if |g| == 1 {
      assert es[1..] == [] && PrintableAll(es[1..]);
    } else {
      assert es[1..] == Leaves(g[1..]);
      PrintGroup(g[1..]);
    }
  }

  lemma {:induction false} PrintGroups(gs: seq<seq<Atom>>)
    requires gs != [] && forall i :: 0 <= i < |gs| ==> Operands(gs[i])
    ensures Intersperse(Groups(gs), TOr, 0) == OrTokens(gs) && PrintableAll(Groups(gs))
  {
    var es := Groups(gs);
    PrintGroup(gs[0]);
    assert SubExpr(es[0], 0) == AndTokens(gs[0]);
    if |gs| == 1 {
      assert es[1..] == [] && PrintableAll(es[1..]);
    } else {
      assert es[1..] == Groups(gs[1..]);
      PrintGroups(gs[1..]);
    }
  }

  /** "&&" binds more tightly than "||": the tokens are worth "y" if some group has only operands worth "y",
      and "n" if every group has one worth "n". */
  lemma FlatTokens(gs: seq<seq<Atom>>, env: Env)
    requires gs != [] && forall i :: 0 <= i < |gs| ==> Operands(gs[i])
    ensures var r := ParseTokens(false, OrTokens(gs));
            && r.Ok? && r.rest == []
            && (Raw(r.e, env) == Y <==> exists i :: 0 <= i < |gs| && AllY(gs[i], env))
            && (Raw(r.e, env) == N <==> forall i :: 0 <= i < |gs| ==> SomeN(gs[i], env))
  {
    hide Print, Spliced, OrList, PrintableAll, Intersperse;
    var e := Or(Groups(gs));
    PrintGroups(gs);
    PrintedOr(Groups(gs));
    RoundTrip(false, e, []);
    SplicedMeaning(e, env);
    GroupsValue(gs, env);
  }

  lemma PrintedOr(es: seq<Expr>)
    requires es != [] && PrintableAll(es)
    ensures Print(Or(es)) == Intersperse(es, TOr, 0) && Printable(Or(es))
  {
  }

  lemma GroupsValue(gs: seq<seq<Atom>>, env: Env)
    ensures var v := Raw(Or(Groups(gs)), env);
            && (v == Y <==> exists i :: 0 <= i < |gs| && AllY(gs[i], env))
            && (v == N <==> forall i :: 0 <= i < |gs| ==> SomeN(gs[i], env))
  {
    var es := Groups(gs);
    OrValue(es, env);
    forall i | 0 <= i < |gs|
      ensures (Raw(es[i], env) == Y <==> AllY(gs[i], env)) && (Raw(es[i], env) == N <==> SomeN(gs[i], env))
    {
      GroupValue(gs[i], env);
    }
    hide Raw, AllY, SomeN;
  }

  lemma GroupValue(g: seq<Atom>, env: Env)
    ensures Raw(And(Leaves(g)), env) == Y <==> AllY(g, env)
    ensures Raw(And(Leaves(g)), env) == N <==> SomeN(g, env)
  {
    var es := Leaves(g);
    AndValue(es, env);
    assert forall i :: 0 <= i < |g| ==> Raw(es[i], env) == AtomTri(g[i], env);
  }

  /** "=" and "!=" compare the texts of two operands, with or without rewriting. */
  lemma ComparisonTokens(tm: bool, l: Atom, r: Atom, env: Env)
    requires !l.Stray? && !r.Stray?
    ensures var same := ParseTokens(tm, AtomToken(l) + [TEqual] + AtomToken(r));
            same.Ok? && same.rest == [] && (Raw(same.e, env) == Y <==> AtomText(l, env) == AtomText(r, env))
    ensures var differ := ParseTokens(tm, AtomToken(l) + [TUnequal] + AtomToken(r));
            differ.Ok? && differ.rest == [] && (Raw(differ.e, env) == Y <==> AtomText(l, env) != AtomText(r, env))
  {
    RoundTrip(tm, Rel(false, l, r), []);
    RoundTrip(tm, Rel(true, l, r), []);
    CompareValue(l, r, env);
    hide OrList;
  }

  /** "!" negates the one factor after it, not the whole of what follows. */
  lemma NegationTokens(a: Atom, b: Atom, env: Env)
    requires !a.Stray? && !b.Stray?
    ensures var r := ParseTokens(false, [TNot] + AtomToken(a) + [TAnd] + AtomToken(b));
            && r.Ok? && r.rest == []
            && (Raw(r.e, env) == Y <==> AtomTri(a, env) == N && AtomTri(b, env) == Y)
  {
    var es := [Not(Leaf(a)), Leaf(b)];
    PrintedPair(Not(Leaf(a)), Leaf(b));
    assert [TNot] + AtomToken(a) + ([TAnd] + AtomToken(b)) == [TNot] + AtomToken(a) + [TAnd] + AtomToken(b);
    RoundTrip(false, And(es), []);
    SplicedMeaning(And(es), env);
    TwoOperands(Not(Leaf(a)), Leaf(b), env);
    hide OrList, Spliced, Print;
  }

  lemma PrintedPair(x: Expr, y: Expr)
    requires Printable(x) && Printable(y) && !x.Or? && !y.Or?
    ensures Print(And([x, y])) == Print(x) + ([TAnd] + Print(y)) && Printable(And([x, y]))
  {
    var es := [x, y];
    assert es[1..] == [y] && [y][1..] == [];
    assert PrintableAll([y][1..]) && PrintableAll([y]) && PrintableAll(es);
    assert SubExpr(x, 1) == Print(x) && SubExpr(y, 1) == Print(y);
    assert Intersperse([y], TAnd, 1) == Print(y);
  }

  /** Parentheses group. */
  lemma ParenthesisTokens(tm: bool, e: Expr, k: seq<Token>)
    requires Printable(e)
    ensures Factor(tm, [TOpen] + Print(e) + [TClose] + k) == Ok(Spliced(tm, e), k)
  {
    hide *;
    ParseParenthesised(tm, e, k);
  }

  /** A missing closing parenthesis is reported. */
  lemma UnclosedTokens(tm: bool, e: Expr, k: seq<Token>)
    requires Printable(e) && EndsFactor(k) && !Starts(k, TAnd) && !Starts(k, TOr) && !Starts(k, TClose)
    ensures Factor(tm, [TOpen] + (Print(e) + k)) == Err(MissingCloseParen)
  {
    hide Print, Spliced, Printable, OrList, OperandAtom, Lone, EndsFactor;
    ParsePrinted(tm, e, k);
    assert ([TOpen] + (Print(e) + k))[1..] == Print(e) + k;
  }

  /** Nothing else can start an expression. */
  lemma BadStart(tm: bool, ts: seq<Token>)
    requires ts == [] || !(ts[0].TSym? || ts[0].TStr? || ts[0] == TNot || ts[0] == TOpen)
    ensures ParseTokens(tm, ts) == Err(Malformed)
  {
    OrListStep(tm, ts, []);
    AndListStep(tm, ts, []);
    hide OrList, AndList;
  }
}
