/** Conditional expressions: their meaning, their symbols, and the smart constructors. */
module Expressions {
  import opened Wrappers
  import opened Tristate

  type SymName = string

  /** An operand. Stray stands for whatever non-operand token (or end of line, None) the
      parser accepted on the right of a comparison. */
  datatype Atom = Sym(name: SymName) | Str(text: string) | Stray(code: Option<nat>)

  datatype Expr =
    | Leaf(a: Atom)
    | And(es: seq<Expr>)
    | Or(es: seq<Expr>)
    | Not(e: Expr)
    | Rel(unequal: bool, left: Atom, right: Atom)

  /** Current symbol values, and which symbols are bool or tristate. */
  datatype Env = Env(vals: map<SymName, string>, logical: set<SymName>)

  function Look(vals: map<SymName, string>, s: SymName): string {
    if s in vals then vals[s] else ""
  }

  function AtomText(a: Atom, env: Env): string {
    match a
    case Sym(s) => Look(env.vals, s)
    case Str(t) => t
    case Stray(_) => ""
  }

  function AtomTri(a: Atom, env: Env): Tri {
    match a
    case Sym(s) => if s in env.logical then Read(Look(env.vals, s)) else N
    case Str(t) => Read(t)
    case Stray(_) => N
  }

  /** The tristate value of an expression, before promotion of "m". */
  function Raw(e: Expr, env: Env): Tri
    decreases e, 1
  {
    match e
    case Leaf(a) => AtomTri(a, env)
    case And(es) => RawAnd(es, env)
    case Or(es) => RawOr(es, env)
    case Not(e1) => Negate(Raw(e1, env))
    case Rel(unequal, l, r) => if (AtomText(l, env) == AtomText(r, env)) != unequal then Y else N
  }

  function Negate(t: Tri): Tri {
    match t
    case Y => N
    case N => Y
    case M => M
  }

  /** Minimum over the operands, "y" when there are none. */
  function RawAnd(es: seq<Expr>, env: Env): Tri
    decreases es, 0
  {
    if es == [] then Y else Min(Raw(es[0], env), RawAnd(es[1..], env))
  }

  /** Maximum over the operands, "n" when there are none. */
  function RawOr(es: seq<Expr>, env: Env): Tri
    decreases es, 0
  {
    if es == [] then N else Max(Raw(es[0], env), RawOr(es[1..], env))
  }

  /** A missing condition counts as "y". */
  function RawOpt(e: Option<Expr>, env: Env): Tri {
    if e.None? then Y else Raw(e.value, env)
  }

  lemma {:induction false} RawAndConcat(xs: seq<Expr>, ys: seq<Expr>, env: Env)
    ensures RawAnd(xs + ys, env) == Min(RawAnd(xs, env), RawAnd(ys, env))
  {
    if xs == [] {
      assert xs + ys == ys;
    } else {
      assert (xs + ys)[1..] == xs[1..] + ys;
      RawAndConcat(xs[1..], ys, env);
    }
  }

  lemma {:induction false} RawOrConcat(xs: seq<Expr>, ys: seq<Expr>, env: Env)
    ensures RawOr(xs + ys, env) == Max(RawOr(xs, env), RawOr(ys, env))
  {
    if xs == [] {
      assert xs + ys == ys;
    } else {
      assert (xs + ys)[1..] == xs[1..] + ys;
      RawOrConcat(xs[1..], ys, env);
    }
  }

  // ---------- values under another reading of operands ----------

  /** The value of an expression whose lone operands are read by `read`; comparisons are as ever. */
  function ValueBy(e: Expr, read: Atom -> Tri, env: Env): Tri
    decreases e, 1
  {
    match e
    case Leaf(a) => read(a)
    case And(es) => AndBy(es, read, env)
    case Or(es) => OrBy(es, read, env)
    case Not(e1) => Negate(ValueBy(e1, read, env))
    case Rel(_, _, _) => Raw(e, env)
  }

  function AndBy(es: seq<Expr>, read: Atom -> Tri, env: Env): Tri
    decreases es, 0
  {
    if es == [] then Y else Min(ValueBy(es[0], read, env), AndBy(es[1..], read, env))
  }

  function OrBy(es: seq<Expr>, read: Atom -> Tri, env: Env): Tri
    decreases es, 0
  {
    if es == [] then N else Max(ValueBy(es[0], read, env), OrBy(es[1..], read, env))
  }

  lemma {:induction false} AndByConcat(xs: seq<Expr>, ys: seq<Expr>, read: Atom -> Tri, env: Env)
    ensures AndBy(xs + ys, read, env) == Min(AndBy(xs, read, env), AndBy(ys, read, env))
  {
    if xs == [] {
      assert xs + ys == ys;
    } else {
      assert (xs + ys)[1..] == xs[1..] + ys;
      AndByConcat(xs[1..], ys, read, env);
    }
  }

  lemma {:induction false} OrByConcat(xs: seq<Expr>, ys: seq<Expr>, read: Atom -> Tri, env: Env)
    ensures OrBy(xs + ys, read, env) == Max(OrBy(xs, read, env), OrBy(ys, read, env))
  {
    if xs == [] {
      assert xs + ys == ys;
    } else {
      assert (xs + ys)[1..] == xs[1..] + ys;
      OrByConcat(xs[1..], ys, read, env);
    }
  }

  /** Operands read as they are. */
  lemma {:induction false} ReadPlainly(e: Expr, read: Atom -> Tri, env: Env)
    requires forall a :: read(a) == AtomTri(a, env)
    ensures ValueBy(e, read, env) == Raw(e, env)
    decreases e, 1
  {
    match e
    case Leaf(_) =>
    case And(es) => ReadAllPlainly(es, read, env);
    case Or(es) => ReadAllPlainly(es, read, env);
    case Not(e1) => ReadPlainly(e1, read, env);
    case Rel(_, _, _) =>
  }

  lemma {:induction false} ReadAllPlainly(es: seq<Expr>, read: Atom -> Tri, env: Env)
    requires forall a :: read(a) == AtomTri(a, env)
    ensures AndBy(es, read, env) == RawAnd(es, env) && OrBy(es, read, env) == RawOr(es, env)
    decreases es, 0
  {
    if es != [] {
      ReadPlainly(es[0], read, env);
      ReadAllPlainly(es[1..], read, env);
    }
  }

  // ---------- smart constructors ----------

  predicate IsStr(e: Option<Expr>, s: string) {
    e.Some? && e.value == Leaf(Str(s))
  }

  /** Conjunction with trivial simplification; None counts as "y". */
  function MakeAnd(e1: Option<Expr>, e2: Option<Expr>): Option<Expr> {
    if e1.None? || IsStr(e1, "y") then e2
    else if e2.None? || IsStr(e2, "y") then e1
    else if e1.value.And? then
      if e2.value.And? then Some(And(e1.value.es + e2.value.es))
      else Some(And(e1.value.es + [e2.value]))
    else if e2.value.And? then Some(And(e2.value.es + [e1.value]))
    else Some(And([e1.value, e2.value]))
  }

  /** Disjunction with trivial simplification; None counts as "y" and never comes out. */
  function MakeOr(e1: Option<Expr>, e2: Option<Expr>): Expr {
    if e1.None? || e2.None? || IsStr(e1, "y") || IsStr(e2, "y") then Leaf(Str("y"))
    else if IsStr(e1, "n") then e2.value
    else if e1.value.Or? then
      if e2.value.Or? then Or(e1.value.es + e2.value.es)
      else Or(e1.value.es + [e2.value])
    else if e2.value.Or? then Or(e2.value.es + [e1.value])
    else Or([e1.value, e2.value])
  }

  /** The rewriting done by the conjunction constructor keeps the value, in every environment. */
  lemma MakeAndMeaning(e1: Option<Expr>, e2: Option<Expr>, env: Env)
    ensures RawOpt(MakeAnd(e1, e2), env) == Min(RawOpt(e1, env), RawOpt(e2, env))
  {
    if e1.Some? && e2.Some? {
      var x, y := e1.value, e2.value;
      RawAndConcat([x], [y], env);
      assert [x] + [y] == [x, y];
      if x.And? {
        RawAndConcat(x.es, [y], env);
        if y.And? { RawAndConcat(x.es, y.es, env); }
      }
      if y.And? { RawAndConcat(y.es, [x], env); }
    }
  }

  /** The same for disjunction. */
  lemma MakeOrMeaning(e1: Option<Expr>, e2: Option<Expr>, env: Env)
    ensures Raw(MakeOr(e1, e2), env) == Max(RawOpt(e1, env), RawOpt(e2, env))
  {
    if e1.Some? && e2.Some? {
      var x, y := e1.value, e2.value;
      RawOrConcat([x], [y], env);
      assert [x] + [y] == [x, y];
      if x.Or? {
        RawOrConcat(x.es, [y], env);
        if y.Or? { RawOrConcat(x.es, y.es, env); }
      }
      if y.Or? { RawOrConcat(y.es, [x], env); }
    }
  }

  // ---------- symbols of an expression ----------

  function AtomSyms(a: Atom): set<SymName> {
    if a.Sym? then {a.name} else {}
  }

  function SymsOf(e: Expr): set<SymName>
    decreases e, 1
  {
    match e
    case Leaf(a) => AtomSyms(a)
    case And(es) => SymsOfAll(es)
    case Or(es) => SymsOfAll(es)
    case Not(e1) => SymsOf(e1)
    case Rel(_, l, r) => AtomSyms(l) + AtomSyms(r)
  }

  function SymsOfAll(es: seq<Expr>): set<SymName>
    decreases es, 0
  {
    if es == [] then {} else SymsOf(es[0]) + SymsOfAll(es[1..])
  }

  function SymsOfOpt(e: Option<Expr>): set<SymName> {
    if e.None? then {} else SymsOf(e.value)
  }

  /** Two environments that give the same meaning to the symbols in `syms`. */
  ghost predicate Agree(env: Env, env': Env, syms: set<SymName>) {
    env.logical == env'.logical && forall s <- syms :: Look(env.vals, s) == Look(env'.vals, s)
  }

  /** The value of an expression depends on nothing but the symbols collected from it. */
  lemma {:induction false} RawFrame(e: Expr, env: Env, env': Env)
    requires Agree(env, env', SymsOf(e))
    ensures Raw(e, env) == Raw(e, env')
    decreases e, 1
  {
    match e
    case Leaf(a) => AtomFrame(a, env, env');
    case And(es) => RawAllFrame(es, env, env');
    case Or(es) => RawAllFrame(es, env, env');
    case Not(e1) => RawFrame(e1, env, env');
    case Rel(_, l, r) =>
      AtomFrame(l, env, env');
      AtomFrame(r, env, env');
  }

  lemma AtomFrame(a: Atom, env: Env, env': Env)
    requires Agree(env, env', AtomSyms(a))
    ensures AtomText(a, env) == AtomText(a, env') && AtomTri(a, env) == AtomTri(a, env')
  {
    if a.Sym? { assert a.name in AtomSyms(a); }
  }

  lemma {:induction false} RawAllFrame(es: seq<Expr>, env: Env, env': Env)
    requires Agree(env, env', SymsOfAll(es))
    ensures RawAnd(es, env) == RawAnd(es, env') && RawOr(es, env) == RawOr(es, env')
    decreases es, 0
  {
    if es != [] {
      RawFrame(es[0], env, env');
      RawAllFrame(es[1..], env, env');
    }
  }

  // ---------- expressions that cannot be "m" ----------

  predicate AtomNeverM(a: Atom, tristates: set<SymName>) {
    match a
    case Sym(s) => s !in tristates
    case Str(t) => t != "m"
    case Stray(_) => true
  }

  /** No constant "m" and no tristate symbol anywhere outside comparisons. */
  predicate NeverM(e: Expr, tristates: set<SymName>)
    decreases e, 1
  {
    match e
    case Leaf(a) => AtomNeverM(a, tristates)
    case And(es) => NeverMAll(es, tristates)
    case Or(es) => NeverMAll(es, tristates)
    case Not(e1) => NeverM(e1, tristates)
    case Rel(_, _, _) => true
  }

  predicate NeverMAll(es: seq<Expr>, tristates: set<SymName>)
    decreases es, 0
  {
    es == [] || (NeverM(es[0], tristates) && NeverMAll(es[1..], tristates))
  }

  predicate NeverMOpt(e: Option<Expr>, tristates: set<SymName>) {
    e.None? || NeverM(e.value, tristates)
  }

  /** Symbols that are bool never have the value "m". */
  ghost predicate BoolsAreBool(env: Env, tristates: set<SymName>) {
    forall s :: s in env.logical && s !in tristates ==> Read(Look(env.vals, s)) != M
  }

  lemma {:induction false} NeverMSound(e: Expr, tristates: set<SymName>, env: Env)
    requires NeverM(e, tristates) && BoolsAreBool(env, tristates)
    ensures Raw(e, env) != M
    decreases e, 1
  {
    match e
    case Leaf(a) =>
    case And(es) => NeverMAllSound(es, tristates, env);
    case Or(es) => NeverMAllSound(es, tristates, env);
    case Not(e1) => NeverMSound(e1, tristates, env);
    case Rel(_, _, _) =>
  }

  lemma {:induction false} NeverMAllSound(es: seq<Expr>, tristates: set<SymName>, env: Env)
    requires NeverMAll(es, tristates) && BoolsAreBool(env, tristates)
    ensures RawAnd(es, env) != M && RawOr(es, env) != M
    decreases es, 0
  {
    if es != [] {
      NeverMSound(es[0], tristates, env);
      NeverMAllSound(es[1..], tristates, env);
    }
  }
}
