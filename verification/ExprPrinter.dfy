/** Printing expressions, and why the parser undoes the printer. */
module ExprPrinter {
  import opened Tristate
  import opened Expressions
  import opened ExprParser

  // ---------- the printer ----------

  /** Printing precedence; comparisons and operands never need parentheses. */
  function Precedence(e: Expr): nat {
    match e
    case Or(_) => 0
    case And(_) => 1
    case Not(_) => 2
    case Leaf(_) => 3
    case Rel(_, _, _) => 3
  }

  function AtomToken(a: Atom): seq<Token> {
    match a
    case Sym(s) => [TSym(s)]
    case Str(s) => [TStr(s)]
    case Stray(_) => []
  }

  /** The printed form, token by token. */
  function Print(e: Expr): seq<Token>
    decreases e, 2
  {
    match e
    case Leaf(a) => AtomToken(a)
    case And(es) => Intersperse(es, TAnd, 1)
    case Or(es) => Intersperse(es, TOr, 0)
    case Not(e1) => if e1.Leaf? then [TNot] + Print(e1) else [TNot, TOpen] + Print(e1) + [TClose]
    case Rel(unequal, l, r) => AtomToken(l) + [if unequal then TUnequal else TEqual] + AtomToken(r)
  }

  function Intersperse(es: seq<Expr>, op: Token, prec: nat): seq<Token>
    decreases es, 0
  {
    if es == [] then []
    else if |es| == 1 then SubExpr(es[0], prec)
    else SubExpr(es[0], prec) + [op] + Intersperse(es[1..], op, prec)
  }

  function SubExpr(e: Expr, prec: nat): seq<Token>
    decreases e, 3
  {
    if prec <= Precedence(e) then Print(e) else [TOpen] + Print(e) + [TClose]
  }

  /** Expressions with a printed form: "&&" and "||" have operands, and operands are symbols or strings. */
  predicate Printable(e: Expr)
    decreases e, 1
  {
    match e
    case Leaf(a) => !a.Stray?
    case And(es) => es != [] && PrintableAll(es)
    case Or(es) => es != [] && PrintableAll(es)
    case Not(e1) => Printable(e1)
    case Rel(_, l, r) => !l.Stray? && !r.Stray?
  }

  predicate PrintableAll(es: seq<Expr>)
    decreases es, 0
  {
    es == [] || (Printable(es[0]) && PrintableAll(es[1..]))
  }

  // ---------- what comes back ----------

  /** The tree the parser rebuilds: directly nested nodes of the same operator are spliced into one,
      single-operand nodes disappear, and "m" is rewritten when `tm` is set. */
  function Spliced(tm: bool, e: Expr): Expr
    decreases e, 2
  {
    match e
    case Leaf(a) => Lone(tm, a)
    case And(es) => MkAnd(AndOps(tm, es))
    case Or(es) => MkOr(OrOps(tm, es))
    case Not(e1) => Not(Spliced(tm, e1))
    case Rel(_, _, _) => e
  }

  function AndOps(tm: bool, es: seq<Expr>): seq<Expr>
    decreases es, 0
  {
    if es == [] then []
    else (if es[0].And? then AndOps(tm, es[0].es) else [Spliced(tm, es[0])]) + AndOps(tm, es[1..])
  }

  function OrOps(tm: bool, es: seq<Expr>): seq<Expr>
    decreases es, 0
  {
    if es == [] then []
    else (if es[0].Or? then OrOps(tm, es[0].es) else [Spliced(tm, es[0])]) + OrOps(tm, es[1..])
  }

  // ---------- parsing what was printed ----------

  /** No "=" or "!=" follows. */
  predicate EndsFactor(k: seq<Token>) {
    !Starts(k, TEqual) && !Starts(k, TUnequal)
  }

  lemma Assoc<T>(a: seq<T>, b: seq<T>, c: seq<T>)
    ensures a + (b + c) == (a + b) + c
  {
  }

  lemma NoneBefore<T>(a: seq<T>)
    ensures [] + a == a
  {
  }

  lemma Regroup<T>(a: seq<T>, b: seq<T>, c: seq<T>, d: seq<T>)
    ensures a + b + c + d == a + (b + (c + d))
  {
  }

  lemma AndNode(tm: bool, es: seq<Expr>)
    ensures Print(And(es)) == Intersperse(es, TAnd, 1) == SubExpr(And(es), 1)
    ensures Spliced(tm, And(es)) == MkAnd(AndOps(tm, es))
    ensures Printable(And(es)) ==> es != [] && PrintableAll(es)
  {
  }

  lemma OrNode(tm: bool, es: seq<Expr>)
    ensures Print(Or(es)) == Intersperse(es, TOr, 0) == SubExpr(Or(es), 0)
    ensures Spliced(tm, Or(es)) == MkOr(OrOps(tm, es))
    ensures Printable(Or(es)) ==> es != [] && PrintableAll(es)
  {
  }

  lemma AndOpsStep(tm: bool, es: seq<Expr>)
    requires es != []
    ensures var ops := if es[0].And? then AndOps(tm, es[0].es) else [Spliced(tm, es[0])];
            AndOps(tm, es) == if |es| == 1 then ops else ops + AndOps(tm, es[1..])
  {
    hide Spliced;
    if |es| == 1 { assert es[1..] == []; }
  }

  lemma OrOpsStep(tm: bool, es: seq<Expr>)
    requires es != []
    ensures var ops := if es[0].Or? then OrOps(tm, es[0].es) else [Spliced(tm, es[0])];
            OrOps(tm, es) == if |es| == 1 then ops else ops + OrOps(tm, es[1..])
  {
    hide Spliced;
    if |es| == 1 { assert es[1..] == []; }
  }

  /** What follows the first operand of a printed list. */
  function Following(es: seq<Expr>, op: Token, prec: nat, k: seq<Token>): seq<Token>
    requires es != []
  {
    if |es| == 1 then k else [op] + (Intersperse(es[1..], op, prec) + k)
  }

  lemma MkOne(e: Expr)
    ensures MkAnd([e]) == e == MkOr([e])
  {
  }

  lemma IntersperseStep(es: seq<Expr>, op: Token, prec: nat, k: seq<Token>)
    requires es != []
    ensures Intersperse(es, op, prec) + k == SubExpr(es[0], prec) + Following(es, op, prec, k)
  {
    hide Print, SubExpr;
  }

  lemma AndRestSteps(tm: bool, k: seq<Token>, acc: seq<Expr>)
    ensures !Starts(k, TAnd) ==> AndRest(tm, k, acc) == Ok(MkAnd(acc), k)
    ensures AndRest(tm, [TAnd] + k, acc) == AndList(tm, k, acc)
  {
    assert ([TAnd] + k)[1..] == k;
    hide AndList;
  }

  lemma OrRestSteps(tm: bool, k: seq<Token>, acc: seq<Expr>)
    ensures !Starts(k, TOr) ==> OrRest(tm, k, acc) == Ok(MkOr(acc), k)
    ensures OrRest(tm, [TOr] + k, acc) == OrList(tm, k, acc)
  {
    assert ([TOr] + k)[1..] == k;
    hide OrList;
  }

  lemma AndListOfFactor(tm: bool, ts: seq<Token>, acc: seq<Expr>)
    requires Factor(tm, ts).Ok?
    ensures AndList(tm, ts, acc) == AndRest(tm, Factor(tm, ts).rest, acc + [Factor(tm, ts).e])
  {
    hide Factor, AndRest;
  }

  lemma OrListOfTerm(tm: bool, ts: seq<Token>, acc: seq<Expr>)
    requires AndList(tm, ts, []).Ok?
    ensures OrList(tm, ts, acc) == OrRest(tm, AndList(tm, ts, []).rest, acc + [AndList(tm, ts, []).e])
  {
    hide AndList, OrRest;
  }

  lemma FactorOfLeaf(tm: bool, a: Atom, k: seq<Token>)
    requires !a.Stray? && EndsFactor(k)
    ensures Factor(tm, AtomToken(a) + k) == Ok(Lone(tm, a), k)
  {
    assert (AtomToken(a) + k)[1..] == k;
  }

  lemma FactorOfRel(tm: bool, unequal: bool, l: Atom, r: Atom, k: seq<Token>)
    requires !l.Stray? && !r.Stray?
    ensures Factor(tm, Print(Rel(unequal, l, r)) + k) == Ok(Rel(unequal, l, r), k)
  {
    assert (Print(Rel(unequal, l, r)) + k)[3..] == k;
  }

  lemma FactorOfNot(tm: bool, ts: seq<Token>)
    ensures var r := Factor(tm, ts); r.Ok? ==> Factor(tm, [TNot] + ts) == Ok(Not(r.e), r.rest)
  {
    assert ([TNot] + ts)[1..] == ts;
    hide OrList;
  }

  lemma PrintNot(e: Expr, k: seq<Token>)
    ensures Print(Not(e)) + k == [TNot] + (if e.Leaf? then Print(e) + k else [TOpen] + Print(e) + [TClose] + k)
  {
    hide Intersperse;
  }

  lemma {:induction false} ParsePrintedFactor(tm: bool, e: Expr, k: seq<Token>)
    requires Printable(e) && !e.And? && !e.Or? && EndsFactor(k)
    ensures Factor(tm, Print(e) + k) == Ok(Spliced(tm, e), k)
    decreases e, 3
  {
    hide Factor, EndsFactor, Intersperse, AndOps, OrOps;
    match e
    case Leaf(a) => FactorOfLeaf(tm, a, k);
    case Rel(unequal, l, r) => FactorOfRel(tm, unequal, l, r, k);
    case Not(e1) =>
      PrintNot(e1, k);
      hide Print;
      if e1.Leaf? {
        ParsePrintedFactor(tm, e1, k);
        FactorOfNot(tm, Print(e1) + k);
      } else {
        ParseParenthesised(tm, e1, k);
        FactorOfNot(tm, [TOpen] + Print(e1) + [TClose] + k);
      }
  }

  lemma FactorOfParens(tm: bool, ts: seq<Token>)
    ensures var r := OrList(tm, ts, []);
            r.Ok? && Starts(r.rest, TClose) ==> Factor(tm, [TOpen] + ts) == Ok(r.e, r.rest[1..])
  {
    hide OrList, MkAnd, MkOr, Lone, OperandAtom;
    assert ([TOpen] + ts)[0] == TOpen && ([TOpen] + ts)[1..] == ts;
  }

  lemma {:induction false} ParseParenthesised(tm: bool, e: Expr, k: seq<Token>)
    requires Printable(e)
    ensures Factor(tm, [TOpen] + Print(e) + [TClose] + k) == Ok(Spliced(tm, e), k)
    decreases e, 6
  {
    hide Factor, OrList, Print, Spliced, Printable;
    Regroup([TOpen], Print(e), [TClose], k);
    ParsePrinted(tm, e, [TClose] + k);
    FactorOfParens(tm, Print(e) + ([TClose] + k));
    assert ([TClose] + k)[1..] == k;
  }

  /** A whole printed expression, followed by anything that cannot continue it. */
  lemma {:induction false} ParsePrinted(tm: bool, e: Expr, k: seq<Token>)
    requires Printable(e) && EndsFactor(k) && !Starts(k, TAnd) && !Starts(k, TOr)
    ensures OrList(tm, Print(e) + k, []) == Ok(Spliced(tm, e), k)
    decreases e, 5
  {
    hide *;
    if e.Or? {
      OrNode(tm, e.es);
      ParsePrintedOr(tm, e.es, k, []);
      NoneBefore(OrOps(tm, e.es));
      OrRestSteps(tm, k, OrOps(tm, e.es));
    } else {
      ParsePrintedTerm(tm, e, k);
      OrListOfTerm(tm, Print(e) + k, []);
      NoneBefore([Spliced(tm, e)]);
      OrRestSteps(tm, k, [Spliced(tm, e)]);
      MkOne(Spliced(tm, e));
    }
  }

  /** One operand of "||". */
  lemma {:induction false} ParsePrintedTerm(tm: bool, e: Expr, k: seq<Token>)
    requires Printable(e) && !e.Or? && EndsFactor(k) && !Starts(k, TAnd)
    ensures AndList(tm, Print(e) + k, []) == Ok(Spliced(tm, e), k)
    decreases e, 4
  {
    hide *;
    if e.And? {
      AndNode(tm, e.es);
      ParsePrintedAnd(tm, e.es, k, []);
      NoneBefore(AndOps(tm, e.es));
      AndRestSteps(tm, k, AndOps(tm, e.es));
    } else {
      ParsePrintedFactor(tm, e, k);
      AndListOfFactor(tm, Print(e) + k, []);
      NoneBefore([Spliced(tm, e)]);
      AndRestSteps(tm, k, [Spliced(tm, e)]);
      MkOne(Spliced(tm, e));
    }
  }

  /** A list of "&&" operands, continuing the operands in `acc`. */
  lemma {:induction false} ParsePrintedAnd(tm: bool, es: seq<Expr>, k: seq<Token>, acc: seq<Expr>)
    requires es != [] && PrintableAll(es) && EndsFactor(k)
    ensures AndList(tm, Intersperse(es, TAnd, 1) + k, acc) == AndRest(tm, k, acc + AndOps(tm, es))
    decreases es, 2
  {
    hide Factor, AndList, AndRest, Print, Spliced, Printable, Intersperse, SubExpr;
    var ops := if es[0].And? then AndOps(tm, es[0].es) else [Spliced(tm, es[0])];
    var k' := Following(es, TAnd, 1, k);
    IntersperseStep(es, TAnd, 1, k);
    ParseAndOperand(tm, es[0], k', acc);
    AndOpsStep(tm, es);
    hide AndOps;
    if |es| > 1 {
      AndRestSteps(tm, Intersperse(es[1..], TAnd, 1) + k, acc + ops);
      ParsePrintedAnd(tm, es[1..], k, acc + ops);
      Assoc(acc, ops, AndOps(tm, es[1..]));
    }
  }

  /** A list of "||" operands, continuing the operands in `acc`. */
  lemma {:induction false} ParsePrintedOr(tm: bool, es: seq<Expr>, k: seq<Token>, acc: seq<Expr>)
    requires es != [] && PrintableAll(es) && EndsFactor(k) && !Starts(k, TAnd)
    ensures OrList(tm, Intersperse(es, TOr, 0) + k, acc) == OrRest(tm, k, acc + OrOps(tm, es))
    decreases es, 2
  {
    hide Factor, OrList, OrRest, Print, Spliced, Printable, Intersperse, SubExpr;
    var ops := if es[0].Or? then OrOps(tm, es[0].es) else [Spliced(tm, es[0])];
    var k' := Following(es, TOr, 0, k);
    IntersperseStep(es, TOr, 0, k);
    ParseOrOperand(tm, es[0], k', acc);
    OrOpsStep(tm, es);
    hide OrOps;
    if |es| > 1 {
      OrRestSteps(tm, Intersperse(es[1..], TOr, 0) + k, acc + ops);
      ParsePrintedOr(tm, es[1..], k, acc + ops);
      Assoc(acc, ops, OrOps(tm, es[1..]));
    }
  }

  lemma {:induction false} ParseAndOperand(tm: bool, x: Expr, k: seq<Token>, acc: seq<Expr>)
    requires Printable(x) && EndsFactor(k)
    ensures AndList(tm, SubExpr(x, 1) + k, acc)
         == AndRest(tm, k, acc + if x.And? then AndOps(tm, x.es) else [Spliced(tm, x)])
    decreases x, 7
  {
    hide Factor, AndList, AndRest, Print, Spliced, Intersperse, AndOps, OrOps;
    if x.And? {
      AndNode(tm, x.es);
      ParsePrintedAnd(tm, x.es, k, acc);
    } else {
      if x.Or? { ParseParenthesised(tm, x, k); } else { ParsePrintedFactor(tm, x, k); }
      AndListOfFactor(tm, SubExpr(x, 1) + k, acc);
    }
  }

  lemma {:induction false} ParseOrOperand(tm: bool, x: Expr, k: seq<Token>, acc: seq<Expr>)
    requires Printable(x) && EndsFactor(k) && !Starts(k, TAnd)
    ensures OrList(tm, SubExpr(x, 0) + k, acc)
         == OrRest(tm, k, acc + if x.Or? then OrOps(tm, x.es) else [Spliced(tm, x)])
    decreases x, 7
  {
    hide Factor, AndList, OrList, AndRest, OrRest, Print, Spliced, Intersperse, AndOps, OrOps;
    assert SubExpr(x, 0) == Print(x);
    if x.Or? {
      OrNode(tm, x.es);
      ParsePrintedOr(tm, x.es, k, acc);
    } else {
      ParsePrintedTerm(tm, x, k);
      OrListOfTerm(tm, Print(x) + k, acc);
    }
  }

  /** The parser undoes the printer: the printed form of any printable expression, standing alone or
      followed by any token that cannot continue it (such as "if"), parses without error into the
      spliced tree and leaves exactly what followed. */
  lemma RoundTrip(tm: bool, e: Expr, k: seq<Token>)
    requires Printable(e)
    requires k == [] || k[0].TKeyword? || k[0] == TClose
    ensures ParseTokens(tm, Print(e) + k) == Ok(Spliced(tm, e), k)
    ensures ParseTokens(tm, Print(e)) == Ok(Spliced(tm, e), [])
  {
    hide Print, Spliced, Printable, OrList;
    ParsePrinted(tm, e, k);
    ParsePrinted(tm, e, []);
    assert Print(e) + [] == Print(e);
  }

  /** The parser proper, run on a printed expression. */
  method ParseBack(e: Expr, tm: bool) returns (r: Result, left: nat)
    requires Printable(e)
    ensures r == Result.Parsed(Spliced(tm, e)) && left == 0
  {
    hide Print, Spliced, Printable, OrList;
    var feed := new Feed(Print(e));
    var parser := new Parser(tm, {});
    RoundTrip(tm, e, []);
    r := parser.ParseExprRec(feed);
    left := |feed.items| - feed.i;
  }

  // ---------- splicing is harmless ----------

  /** Splicing keeps the value, however operands are read. */
  lemma {:induction false} SplicedValue(e: Expr, read: Atom -> Tri, env: Env)
    requires Printable(e)
    ensures ValueBy(Spliced(false, e), read, env) == ValueBy(e, read, env)
    decreases e, 2
  {
    match e
    case Leaf(_) =>
    case Rel(_, _, _) =>
    case Not(e1) => SplicedValue(e1, read, env);
    case And(es) =>
      AndOpsValue(es, read, env);
      MkValue(AndOps(false, es), read, env);
    case Or(es) =>
      OrOpsValue(es, read, env);
      MkValue(OrOps(false, es), read, env);
  }

  lemma MkValue(es: seq<Expr>, read: Atom -> Tri, env: Env)
    ensures ValueBy(MkAnd(es), read, env) == AndBy(es, read, env)
    ensures ValueBy(MkOr(es), read, env) == OrBy(es, read, env)
  {
    if |es| == 1 { assert es[1..] == []; }
  }

  lemma {:induction false} AndOpsValue(es: seq<Expr>, read: Atom -> Tri, env: Env)
    requires PrintableAll(es)
    ensures AndBy(AndOps(false, es), read, env) == AndBy(es, read, env)
    decreases es, 0
  {
    if es != [] {
      var first := if es[0].And? then AndOps(false, es[0].es) else [Spliced(false, es[0])];
      if es[0].And? {
        AndOpsValue(es[0].es, read, env);
      } else {
        SplicedValue(es[0], read, env);
        MkValue(first, read, env);
      }
      AndOpsValue(es[1..], read, env);
      AndByConcat(first, AndOps(false, es[1..]), read, env);
    }
  }

  lemma {:induction false} OrOpsValue(es: seq<Expr>, read: Atom -> Tri, env: Env)
    requires PrintableAll(es)
    ensures OrBy(OrOps(false, es), read, env) == OrBy(es, read, env)
    decreases es, 0
  {
    if es != [] {
      var first := if es[0].Or? then OrOps(false, es[0].es) else [Spliced(false, es[0])];
      if es[0].Or? {
        OrOpsValue(es[0].es, read, env);
      } else {
        SplicedValue(es[0], read, env);
        MkValue(first, read, env);
      }
      OrOpsValue(es[1..], read, env);
      OrByConcat(first, OrOps(false, es[1..]), read, env);
    }
  }

  /** Splicing keeps the value in every environment. */
  lemma SplicedMeaning(e: Expr, env: Env)
    requires Printable(e)
    ensures Raw(Spliced(false, e), env) == Raw(e, env)
  {
    var read := a => AtomTri(a, env);
    hide Spliced, Printable, ValueBy, Raw, AtomTri;
    SplicedValue(e, read, env);
    ReadPlainly(e, read, env);
    ReadPlainly(Spliced(false, e), read, env);
  }

  /** Already spliced: at least two operands everywhere, none of them of the same operator. */
  predicate Flat(e: Expr)
    decreases e, 1
  {
    match e
    case Leaf(_) => true
    case Rel(_, _, _) => true
    case Not(e1) => Flat(e1)
    case And(es) => |es| >= 2 && FlatAll(es) && forall x <- es :: !x.And?
    case Or(es) => |es| >= 2 && FlatAll(es) && forall x <- es :: !x.Or?
  }

  predicate FlatAll(es: seq<Expr>)
    decreases es, 0
  {
    es == [] || (Flat(es[0]) && FlatAll(es[1..]))
  }

  /** On spliced trees the round trip is the identity. */
  lemma {:induction false} FlatUnchanged(e: Expr)
    requires Flat(e)
    ensures Spliced(false, e) == e
    decreases e, 1
  {
    match e
    case Leaf(_) =>
    case Rel(_, _, _) =>
    case Not(e1) => FlatUnchanged(e1);
    case And(es) => FlatAllUnchanged(es);
    case Or(es) => FlatAllUnchanged(es);
  }

  lemma {:induction false} FlatAllUnchanged(es: seq<Expr>)
    requires FlatAll(es)
    ensures (forall x <- es :: !x.And?) ==> AndOps(false, es) == es
    ensures (forall x <- es :: !x.Or?) ==> OrOps(false, es) == es
    decreases es, 0
  {
    if es != [] {
      FlatUnchanged(es[0]);
      FlatAllUnchanged(es[1..]);
      assert es == [es[0]] + es[1..];
    }
  }

  /** At least two operands everywhere. */
  predicate Proper(e: Expr)
    decreases e, 1
  {
    match e
    case Leaf(a) => !a.Stray?
    case And(es) => |es| >= 2 && ProperAll(es)
    case Or(es) => |es| >= 2 && ProperAll(es)
    case Not(e1) => Proper(e1)
    case Rel(_, l, r) => !l.Stray? && !r.Stray?
  }

  predicate ProperAll(es: seq<Expr>)
    decreases es, 0
  {
    es == [] || (Proper(es[0]) && ProperAll(es[1..]))
  }

  /** What comes back is spliced, so a second round trip changes nothing. */
  lemma {:induction false} SplicedIsFlat(e: Expr)
    requires Proper(e)
    ensures Flat(Spliced(false, e))
    ensures e.And? <==> Spliced(false, e).And?
    ensures e.Or? <==> Spliced(false, e).Or?
    decreases e, 2
  {
    match e
    case Leaf(_) =>
    case Rel(_, _, _) =>
    case Not(e1) => SplicedIsFlat(e1);
    case And(es) => AndOpsFlat(es);
    case Or(es) => OrOpsFlat(es);
  }

  lemma {:induction false} FlatAllConcat(xs: seq<Expr>, ys: seq<Expr>)
    requires FlatAll(xs) && FlatAll(ys)
    ensures FlatAll(xs + ys)
  {
    if xs == [] {
      assert xs + ys == ys;
    } else {
      assert (xs + ys)[1..] == xs[1..] + ys;
      FlatAllConcat(xs[1..], ys);
    }
  }

  lemma {:induction false} AndOpsFlat(es: seq<Expr>)
    requires ProperAll(es)
    ensures FlatAll(AndOps(false, es)) && |AndOps(false, es)| >= |es| && forall x <- AndOps(false, es) :: !x.And?
    decreases es, 0
  {
    if es != [] {
      var first := if es[0].And? then AndOps(false, es[0].es) else [Spliced(false, es[0])];
      if es[0].And? { AndOpsFlat(es[0].es); } else { SplicedIsFlat(es[0]); }
      AndOpsFlat(es[1..]);
      FlatAllConcat(first, AndOps(false, es[1..]));
    }
  }

  lemma {:induction false} OrOpsFlat(es: seq<Expr>)
    requires ProperAll(es)
    ensures FlatAll(OrOps(false, es)) && |OrOps(false, es)| >= |es| && forall x <- OrOps(false, es) :: !x.Or?
    decreases es, 0
  {
    if es != [] {
      var first := if es[0].Or? then OrOps(false, es[0].es) else [Spliced(false, es[0])];
      if es[0].Or? { OrOpsFlat(es[0].es); } else { SplicedIsFlat(es[0]); }
      OrOpsFlat(es[1..]);
      FlatAllConcat(first, OrOps(false, es[1..]));
    }
  }
}
