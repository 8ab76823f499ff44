/** A parsed configuration and, for given user values, the value of every symbol computed
    without any cache: what kconfiglib recomputes from scratch. */
module Configuration {
  import opened Wrappers
  import opened Tristate
  import opened Expressions

  datatype SymType = Unknown | Bool | Tristate | Text | Hex | Int

  /** Python's int(), str() and hex(); they are parameters of the model. */
  datatype Numerals = Numerals(parse: (string, nat) -> Option<int>, dec: int -> string, hex: int -> string)

  datatype Default = Default(val: Expr, cond: Option<Expr>)
  datatype Range = Range(low: Atom, high: Atom, cond: Option<Expr>)
  datatype Pick = Pick(sym: SymName, cond: Option<Expr>)

  type ChoiceId = nat

  /** `special` holds the fixed value of n, m, y, UNAME_RELEASE and environment symbols;
      `choice` is set for actual choice symbols only. */
  datatype SymDef = SymDef(
    ty: SymType, prompts: seq<Option<Expr>>, defaults: seq<Default>, ranges: seq<Range>,
    revDep: Expr, special: Option<string>, defined: bool, choice: Option<ChoiceId>)

  datatype ChoiceDef = ChoiceDef(
    ty: SymType, prompts: seq<Option<Expr>>, defaults: seq<Pick>, members: seq<SymName>, optional: bool)

  datatype Config = Config(syms: map<SymName, SymDef>, choices: map<ChoiceId, ChoiceDef>, num: Numerals)

  /** User values of symbols, and the user selection and mode of choices. */
  datatype Users = Users(sym: map<SymName, string>, sel: map<ChoiceId, SymName>, mode: map<ChoiceId, Tri>)

  /** An environment together with "are modules switched off?". */
  datatype Ctx = Ctx(env: Env, off: bool)

  /** A symbol value, and whether the symbol is written to .config. */
  datatype Outcome = Outcome(text: string, write: bool)

  const MODULES := "MODULES"

  predicate Logical(ty: SymType) {
    ty == Bool || ty == Tristate
  }

  /** Names are resolved, choices and their members refer to each other, members are ordinary bool or
      tristate symbols, choice defaults are members, and special bool and tristate symbols hold bool and
      tristate values. */
  ghost predicate Closed(c: Config) {
    && (forall s <- c.syms :: c.syms[s].choice.Some? ==>
          c.syms[s].choice.value in c.choices && s in c.choices[c.syms[s].choice.value].members)
    && (forall k <- c.choices :: ClosedChoice(c, k))
    && (forall s <- c.syms :: c.syms[s].special.Some? ==>
          && (c.syms[s].ty == Bool ==> c.syms[s].special.value in {"n", "y"})
          && (c.syms[s].ty == Tristate ==> c.syms[s].special.value in {"n", "m", "y"}))
  }

  ghost predicate ClosedChoice(c: Config, k: ChoiceId)
    requires k in c.choices
  {
    && (forall s <- c.choices[k].members ::
          && s in c.syms && c.syms[s].choice == Some(k)
          && Logical(c.syms[s].ty) && c.syms[s].special.None?)
    && (Populated(c, k) ==> forall p <- c.choices[k].defaults :: p.sym in c.choices[k].members)
  }

  /** A choice may turn out to have no actual symbols. */
  predicate Populated(c: Config, k: ChoiceId)
    requires k in c.choices
  {
    c.choices[k].members != []
  }

  lemma ClosedMembers(c: Config, k: ChoiceId)
    requires Closed(c) && k in c.choices
    ensures Populated(c, k) ==> c.choices[k].members[0] in c.choices[k].members
    ensures forall m <- c.choices[k].members :: m in c.syms && c.syms[m].special.None?
    ensures Populated(c, k) ==>
              forall i :: 0 <= i < |c.choices[k].defaults| ==> c.choices[k].defaults[i].sym in c.choices[k].members
  {
    assert ClosedChoice(c, k);
  }

  /** User values passed the type check of set_user_value; user selections are members. */
  ghost predicate UsersOk(c: Config, u: Users) {
    && (forall s <- u.sym :: s in c.syms && c.syms[s].special.None? && ValidFor(c, s, u.sym[s]))
    && (forall k <- u.sel :: k in c.choices && u.sel[k] in c.choices[k].members)
    && (forall k <- u.mode :: k in c.choices && Populated(c, k))
  }

  /** The type check of set_user_value. */
  predicate ValidFor(c: Config, s: SymName, v: string)
    requires s in c.syms
  {
    match c.syms[s].ty
    case Bool => v == "y" || v == "n"
    case Tristate => v == "y" || v == "m" || v == "n"
    case Text => true
    case Int => c.num.parse(v, 10).Some?
    case Hex => c.num.parse(v, 16).Some?
    case Unknown => false
  }

  function CtxOf(c: Config, vals: map<SymName, string>): Ctx {
    Ctx(EnvOf(c, vals), MODULES !in c.syms || Look(vals, MODULES) != "y")
  }

  function EnvOf(c: Config, vals: map<SymName, string>): Env {
    Env(vals, set s | s in c.syms && Logical(c.syms[s].ty))
  }

  // ---------- conditions and visibility ----------

  function Cond(x: Ctx, e: Option<Expr>): Tri {
    if e.None? then Y else Promote(x.off, Raw(e.value, x.env))
  }

  function PromptsVis(x: Ctx, ps: seq<Option<Expr>>): Tri {
    if ps == [] then N
    else Max(Promote(x.off, PromptsVis(x, ps[..|ps| - 1])), Cond(x, ps[|ps| - 1]))
  }

  function ChoiceVis(c: Config, x: Ctx, k: ChoiceId): Tri
    requires k in c.choices
  {
    Widen(c.choices[k].ty == Tristate, PromptsVis(x, c.choices[k].prompts))
  }

  function Vis(c: Config, x: Ctx, s: SymName): Tri
    requires Closed(c) && s in c.syms
  {
    var d := c.syms[s];
    var base := PromptsVis(x, d.prompts);
    var bounded := if d.choice.None? then base
                   else Min(Promote(x.off, base), Promote(x.off, ChoiceVis(c, x, d.choice.value)));
    Widen(d.ty == Tristate, bounded)
  }

  // ---------- choices ----------

  function Mode(c: Config, x: Ctx, u: Users, k: ChoiceId): Tri
    requires k in c.choices
  {
    ModeAt(c, x, u, k, ChoiceVis(c, x, k))
  }

  /** The mode of a choice of the given visibility. */
  function ModeAt(c: Config, x: Ctx, u: Users, k: ChoiceId, vis: Tri): Tri
    requires k in c.choices
  {
    var want := if k in u.mode then u.mode[k] else if c.choices[k].optional then N else M;
    Promote(c.choices[k].ty == Bool, Min(Promote(x.off, want), Promote(x.off, vis)))
  }

  function ActivePick(x: Ctx, ps: seq<Pick>): Option<SymName> {
    if ps == [] then None
    else if Cond(x, ps[0].cond) != N then Some(ps[0].sym)
    else ActivePick(x, ps[1..])
  }

  function FirstVisible(c: Config, x: Ctx, ms: seq<SymName>): Option<SymName>
    requires Closed(c) && forall s <- ms :: s in c.syms
  {
    if ms == [] then None
    else if Vis(c, x, ms[0]) != N then Some(ms[0])
    else FirstVisible(c, x, ms[1..])
  }

  lemma {:induction false} ActivePickIsListed(x: Ctx, ps: seq<Pick>)
    ensures ActivePick(x, ps).Some? ==> exists p :: p in ps && p.sym == ActivePick(x, ps).value
  {
    if ps != [] {
      assert ps[0] in ps;
      ActivePickIsListed(x, ps[1..]);
    }
  }

  function SelectionFromDefaults(c: Config, x: Ctx, k: ChoiceId): Option<SymName>
    requires Closed(c) && k in c.choices
  {
    assert ClosedChoice(c, k);
    if !Populated(c, k) then None
    else
      ActivePickIsListed(x, c.choices[k].defaults);
      var pick := ActivePick(x, c.choices[k].defaults);
      var chosen := if pick.Some? then pick.value else c.choices[k].members[0];
      if Vis(c, x, chosen) != N then Some(chosen)
      else FirstVisible(c, x, c.choices[k].members)
  }

  function Selection(c: Config, x: Ctx, u: Users, k: ChoiceId): Option<SymName>
    requires Closed(c) && UsersOk(c, u) && k in c.choices
  {
    assert ClosedChoice(c, k);
    if Mode(c, x, u, k) != Y then None
    else if k in u.sel && Vis(c, x, u.sel[k]) == Y then Some(u.sel[k])
    else if c.choices[k].optional then None
    else SelectionFromDefaults(c, x, k)
  }

  // ---------- values ----------

  /** Value and write flag of a choice member. */
  function MemberValue(c: Config, x: Ctx, u: Users, s: SymName): (Tri, bool)
    requires Closed(c) && UsersOk(c, u) && s in c.syms && c.syms[s].choice.Some?
  {
    var k := c.syms[s].choice.value;
    if Vis(c, x, s) == N then (N, false)
    else
      var mode := Mode(c, x, u, k);
      var t := if mode == Y then (if Selection(c, x, u, k) == Some(s) then Y else N)
               else if mode == M && s in u.sym && Read(u.sym[s]) != N then M
               else N;
      (t, mode != N)
  }

  /** The first default whose condition holds, bounded by that condition. */
  function ActiveDefault(x: Ctx, ds: seq<Default>): Option<Tri> {
    if ds == [] then None
    else
      var cond := Cond(x, ds[0].cond);
      if cond != N then Some(Min(Cond(x, Some(ds[0].val)), Promote(x.off, cond)))
      else ActiveDefault(x, ds[1..])
  }

  /** Value and write flag of a bool or tristate symbol outside choices. */
  function FreeValue(c: Config, x: Ctx, u: Users, s: SymName): (Tri, bool)
    requires Closed(c) && s in c.syms
  {
    var d := c.syms[s];
    var vis := Vis(c, x, s);
    var def := ActiveDefault(x, d.defaults);
    var base := if vis != N && s in u.sym then Min(Promote(x.off, Read(u.sym[s])), Promote(x.off, vis))
                else if def.Some? then def.value else N;
    var write := vis != N || def.Some?;
    var rev := Cond(x, Some(d.revDep));
    if rev != N then (Max(Promote(x.off, base), Promote(x.off, rev)), true) else (base, write)
  }

  function ExprText(x: Ctx, e: Expr): string {
    if e.Leaf? then AtomText(e.a, x.env) else ""
  }

  function NumberOr0(c: Config, base: nat, s: string): int {
    var n := c.num.parse(s, base);
    if n.Some? then n.value else 0
  }

  function ActiveRange(c: Config, x: Ctx, base: nat, rs: seq<Range>): Option<(int, int)> {
    if rs == [] then None
    else if Cond(x, rs[0].cond) != N then
      Some((NumberOr0(c, base, AtomText(rs[0].low, x.env)), NumberOr0(c, base, AtomText(rs[0].high, x.env))))
    else ActiveRange(c, x, base, rs[1..])
  }

  function Numeral(c: Config, base: nat, n: int): string {
    if base == 16 then c.num.hex(n) else c.num.dec(n)
  }

  function Clamped(c: Config, base: nat, range: Option<(int, int)>, text: string, n: int): string {
    if range.Some? && n < range.value.0 then Numeral(c, base, range.value.0)
    else if range.Some? && n > range.value.1 then Numeral(c, base, range.value.1)
    else text
  }

  /** Defaults of a number: the first active one that is a number ends the search; an active one
      that is not stays as the value unless a later one, or the range, overrides it. */
  function NumberDefault(c: Config, x: Ctx, base: nat, range: Option<(int, int)>, ds: seq<Default>,
                         acc: Outcome): Outcome {
    if ds == [] then
      if range.Some? && range.value.0 > 0 then Outcome(Numeral(c, base, range.value.0), acc.write) else acc
    else if Cond(x, ds[0].cond) == N then NumberDefault(c, x, base, range, ds[1..], acc)
    else
      var text := ExprText(x, ds[0].val);
      var n := c.num.parse(text, base);
      if n.Some? then Outcome(Clamped(c, base, range, text, n.value), true)
      else NumberDefault(c, x, base, range, ds[1..], Outcome(text, true))
  }

  function NumberValue(c: Config, x: Ctx, u: Users, s: SymName): Outcome
    requires Closed(c) && s in c.syms
  {
    var d := c.syms[s];
    var base := if d.ty == Hex then 16 else 10;
    var vis := Vis(c, x, s);
    var range := ActiveRange(c, x, base, d.ranges);
    if vis != N && s in u.sym && UserNumberOk(c, base, range, u.sym[s]) then Outcome(u.sym[s], true)
    else NumberDefault(c, x, base, range, d.defaults, Outcome("", vis != N))
  }

  predicate UserNumberOk(c: Config, base: nat, range: Option<(int, int)>, v: string) {
    var n := c.num.parse(v, base);
    n.Some? && (range.None? || range.value.0 <= n.value <= range.value.1)
  }

  function TextDefault(x: Ctx, ds: seq<Default>): Option<string> {
    if ds == [] then None
    else if Cond(x, ds[0].cond) != N then Some(ExprText(x, ds[0].val))
    else TextDefault(x, ds[1..])
  }

  function TextValue(c: Config, x: Ctx, u: Users, s: SymName): Outcome
    requires Closed(c) && s in c.syms
  {
    var vis := Vis(c, x, s);
    var def := TextDefault(x, c.syms[s].defaults);
    if vis != N && s in u.sym then Outcome(u.sym[s], true)
    else if def.Some? then Outcome(def.value, true)
    else Outcome("", vis != N)
  }

  /** The value of a symbol, given the values of the other symbols. */
  function Value(c: Config, x: Ctx, u: Users, s: SymName): Outcome
    requires Closed(c) && UsersOk(c, u) && s in c.syms
  {
    var d := c.syms[s];
    if d.special.Some? then Outcome(d.special.value, false)
    else match d.ty
      case Unknown => Outcome(s, false)
      case Text => TextValue(c, x, u, s)
      case Int => NumberValue(c, x, u, s)
      case Hex => NumberValue(c, x, u, s)
      case Bool =>
        var (t, write) := if d.choice.Some? then MemberValue(c, x, u, s) else FreeValue(c, x, u, s);
        Outcome(Show(Promote(true, t)), write)
      case Tristate =>
        var (t, write) := if d.choice.Some? then MemberValue(c, x, u, s) else FreeValue(c, x, u, s);
        Outcome(Show(t), write)
  }

  // ---------- inputs: the symbols a value is computed from ----------

  function PromptSyms(ps: seq<Option<Expr>>): set<SymName> {
    if ps == [] then {} else PromptSyms(ps[..|ps| - 1]) + SymsOfOpt(ps[|ps| - 1])
  }

  function DefaultSyms(ds: seq<Default>): set<SymName> {
    if ds == [] then {} else SymsOf(ds[0].val) + SymsOfOpt(ds[0].cond) + DefaultSyms(ds[1..])
  }

  function RangeSyms(rs: seq<Range>): set<SymName> {
    if rs == [] then {}
    else AtomSyms(rs[0].low) + AtomSyms(rs[0].high) + SymsOfOpt(rs[0].cond) + RangeSyms(rs[1..])
  }

  function PickSyms(ps: seq<Pick>): set<SymName> {
    if ps == [] then {} else SymsOfOpt(ps[0].cond) + PickSyms(ps[1..])
  }

  function OwnInputs(d: SymDef): set<SymName> {
    PromptSyms(d.prompts) + DefaultSyms(d.defaults) + SymsOf(d.revDep) + RangeSyms(d.ranges)
  }

  function ChoiceInputs(d: ChoiceDef): set<SymName> {
    PromptSyms(d.prompts) + PickSyms(d.defaults)
  }

  /** The symbols whose `dep` set gets `s`. */
  function DirectInputs(c: Config, s: SymName): set<SymName>
    requires s in c.syms
  {
    var d := c.syms[s];
    OwnInputs(d) + if d.choice.Some? && d.choice.value in c.choices then ChoiceInputs(c.choices[d.choice.value]) else {}
  }

  /** A choice member also depends on whatever decides about its siblings. */
  ghost predicate ReadsFrom(c: Config, s: SymName, n: SymName)
    requires Closed(c) && s in c.syms
  {
    || n in DirectInputs(c, s)
    || (c.syms[s].choice.Some? && GroupReads(c, c.syms[s].choice.value, n))
  }

  ghost predicate GroupReads(c: Config, k: ChoiceId, n: SymName)
    requires Closed(c) && k in c.choices
  {
    assert ClosedChoice(c, k);
    exists m :: m in c.choices[k].members && n in DirectInputs(c, m)
  }

  // ---------- acyclic configurations ----------

  function Tristates(c: Config): set<SymName> {
    set s | s in c.syms && c.syms[s].ty == Tristate
  }

  /** Neither the value nor the visibility of such a symbol ever goes through "m". */
  ghost predicate Quiet(c: Config, s: SymName)
    requires s in c.syms
  {
    var d := c.syms[s];
    var ts := Tristates(c);
    && d.choice.None? && d.ty != Tristate && NeverM(d.revDep, ts)
    && (forall p <- d.prompts :: NeverMOpt(p, ts))
    && (forall e <- d.defaults :: NeverMOpt(e.cond, ts) && (Logical(d.ty) ==> NeverM(e.val, ts)))
    && (forall r <- d.ranges :: NeverMOpt(r.cond, ts))
  }

  /** `rank` witnesses that evaluation terminates: inputs come first, choice members share a rank,
      and whatever MODULES itself is computed from never needs to ask for MODULES. */
  ghost predicate Acyclic(c: Config, rank: map<SymName, nat>)
    requires Closed(c)
  {
    && rank.Keys == c.syms.Keys
    && (forall s <- c.syms :: InputsFirst(c, rank, s))
    && (forall k <- c.choices :: SharedRank(rank, c.choices[k].members) && ChoiceInputs(c.choices[k]) <= c.syms.Keys)
    && (MODULES in c.syms ==> forall s <- c.syms ::
          (c.syms[s].special.None? || c.syms[s].prompts != []) && rank[s] <= rank[MODULES] ==> Quiet(c, s))
  }

  ghost predicate InputsFirst(c: Config, rank: map<SymName, nat>, s: SymName)
    requires s in c.syms && rank.Keys == c.syms.Keys
  {
    DirectInputs(c, s) <= c.syms.Keys && forall n <- DirectInputs(c, s) :: rank[n] < rank[s]
  }

  ghost predicate SharedRank(rank: map<SymName, nat>, members: seq<SymName>) {
    forall a <- members, b <- members :: a in rank && b in rank && rank[a] == rank[b]
  }

  ghost predicate Model(c: Config, rank: map<SymName, nat>) {
    Closed(c) && Acyclic(c, rank)
  }

  /** Values of all symbols that come strictly before `s`. */
  ghost function Below(c: Config, rank: map<SymName, nat>, u: Users, s: SymName): map<SymName, string>
    requires Model(c, rank) && UsersOk(c, u) && s in c.syms
    decreases rank[s], 0
  {
    map t | t in c.syms && rank[t] < rank[s] :: Val(c, rank, u, t)
  }

  /** The value of `s` computed from the user values alone. */
  ghost function Val(c: Config, rank: map<SymName, nat>, u: Users, s: SymName): string
    requires Model(c, rank) && UsersOk(c, u) && s in c.syms
    decreases rank[s], 1
  {
    Value(c, CtxOf(c, Below(c, rank, u, s)), u, s).text
  }

  ghost function AllVals(c: Config, rank: map<SymName, nat>, u: Users): map<SymName, string>
    requires Model(c, rank) && UsersOk(c, u)
  {
    map s | s in c.syms :: Val(c, rank, u, s)
  }

  /** The context in which everything is finally evaluated. */
  ghost function World(c: Config, rank: map<SymName, nat>, u: Users): Ctx
    requires Model(c, rank) && UsersOk(c, u)
  {
    CtxOf(c, AllVals(c, rank, u))
  }

  // ---------- visibilities that are cached for good ----------

  /** The visibility of a special symbol, and of a choice without members, is computed when it is first
      asked for; no invalidation ever reaches it. */
  datatype Pins = Pins(syms: map<SymName, Tri>, choices: map<ChoiceId, Tri>)

  predicate IsSpecial(c: Config, s: SymName) {
    s in c.syms && c.syms[s].special.Some?
  }

  predicate IsOrphan(c: Config, k: ChoiceId) {
    k in c.choices && !Populated(c, k)
  }

  /** The visibility that is shown: the pinned one, if any. */
  function ShownVis(c: Config, x: Ctx, p: Pins, s: SymName): Tri
    requires Closed(c) && s in c.syms
  {
    if IsSpecial(c, s) && s in p.syms then p.syms[s] else Vis(c, x, s)
  }

  function ShownChoiceVis(c: Config, x: Ctx, p: Pins, k: ChoiceId): Tri
    requires k in c.choices
  {
    if IsOrphan(c, k) && k in p.choices then p.choices[k] else ChoiceVis(c, x, k)
  }

  /** What is pinned after a visibility has been asked for. */
  function PinSym(c: Config, x: Ctx, p: Pins, s: SymName): Pins
    requires Closed(c) && s in c.syms
  {
    if IsSpecial(c, s) then p.(syms := p.syms[s := ShownVis(c, x, p, s)]) else p
  }

  function PinChoice(c: Config, x: Ctx, p: Pins, k: ChoiceId): Pins
    requires k in c.choices
  {
    if IsOrphan(c, k) then p.(choices := p.choices[k := ShownChoiceVis(c, x, p, k)]) else p
  }

  /** A choice without members never has a selection. */
  lemma OrphanSelection(c: Config, x: Ctx, u: Users, k: ChoiceId)
    requires Closed(c) && UsersOk(c, u) && IsOrphan(c, k)
    ensures Selection(c, x, u, k) == None && k !in u.sel && k !in u.mode
  {
  }
}
