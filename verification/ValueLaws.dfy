/** What every kind of symbol is worth, by the positions of its properties: which default, which range and
    which member counts. Conditions are the only notion taken from the evaluation. */
module ValueLaws {
  import opened Wrappers
  import opened Tristate
  import opened Expressions
  import opened Configuration
  import SymbolLaws

  // ---------- positions ----------

  /** The first condition that holds is at position `i`. */
  predicate FirstHolds(x: Ctx, conds: seq<Option<Expr>>, i: nat) {
    i < |conds| && Cond(x, conds[i]) != N && forall j :: 0 <= j < i ==> Cond(x, conds[j]) == N
  }

  predicate NoneHolds(x: Ctx, conds: seq<Option<Expr>>) {
    forall j :: 0 <= j < |conds| ==> Cond(x, conds[j]) == N
  }

  function DefaultConds(ds: seq<Default>): seq<Option<Expr>> {
    seq(|ds|, i requires 0 <= i < |ds| => ds[i].cond)
  }

  function RangeConds(rs: seq<Range>): seq<Option<Expr>> {
    seq(|rs|, i requires 0 <= i < |rs| => rs[i].cond)
  }

  function PickConds(ps: seq<Pick>): seq<Option<Expr>> {
    seq(|ps|, i requires 0 <= i < |ps| => ps[i].cond)
  }

  /** A missing condition holds; "m" counts as "y" without modules. */
  lemma CondLaw(x: Ctx, e: Expr)
    ensures Cond(x, None) == Y
    ensures Cond(x, Some(e)) == N <==> Raw(e, x.env) == N
    ensures Cond(x, Some(e)) == M <==> Raw(e, x.env) == M && !x.off
  {
  }

  // ---------- visibility ----------

  /** Prompts count as much as the highest of their conditions. */
  lemma {:induction false} PromptsLaw(x: Ctx, ps: seq<Option<Expr>>)
    ensures PromptsVis(x, ps) == N <==> NoneHolds(x, ps)
    ensures PromptsVis(x, ps) == Y <==> exists i :: 0 <= i < |ps| && Cond(x, ps[i]) == Y
  {
    if ps != [] {
      var n := |ps| - 1;
      PromptsLaw(x, ps[..n]);
      SymbolLaws.PromptsPromoted(x, ps[..n]);
      hide Cond, PromptsVis;
      assert forall i :: 0 <= i < n ==> ps[i] == ps[..n][i];
      PromptsStep(x, ps);
    }
  }

  lemma PromptsStep(x: Ctx, ps: seq<Option<Expr>>)
    requires ps != []
    ensures PromptsVis(x, ps) == Max(Promote(x.off, PromptsVis(x, ps[..|ps| - 1])), Cond(x, ps[|ps| - 1]))
  {
  }

  /** A symbol is visible if some prompt's condition holds and its choice, if any, is visible; only tristate
      symbols can be visible as "m". */
  lemma VisibleLaw(c: Config, x: Ctx, s: SymName)
    requires Closed(c) && s in c.syms
    ensures var d := c.syms[s]; var shown := d.choice.None? || ChoiceVis(c, x, d.choice.value) != N;
            && (Vis(c, x, s) == N <==> NoneHolds(x, d.prompts) || !shown)
            && (Vis(c, x, s) == M ==> d.ty == Tristate)
    ensures var d := c.syms[s];
            d.ty == Tristate ==>
              (Vis(c, x, s) == Y <==>
               && (exists i :: 0 <= i < |d.prompts| && Cond(x, d.prompts[i]) == Y)
               && (d.choice.Some? ==> Promote(x.off, ChoiceVis(c, x, d.choice.value)) == Y))
  {
    hide Closed, PromptsVis, ChoiceVis, Cond, NoneHolds;
    PromptsLaw(x, c.syms[s].prompts);
    SymbolLaws.PromptsPromoted(x, c.syms[s].prompts);
  }

  /** The same for a choice. */
  lemma ChoiceVisibleLaw(c: Config, x: Ctx, k: ChoiceId)
    requires k in c.choices
    ensures ChoiceVis(c, x, k) == N <==> NoneHolds(x, c.choices[k].prompts)
    ensures ChoiceVis(c, x, k) == M ==> c.choices[k].ty == Tristate
    ensures c.choices[k].ty == Tristate ==>
              (ChoiceVis(c, x, k) == Y <==>
               exists i :: 0 <= i < |c.choices[k].prompts| && Cond(x, c.choices[k].prompts[i]) == Y)
  {
    hide PromptsVis, Cond, NoneHolds;
    PromptsLaw(x, c.choices[k].prompts);
  }

  // ---------- bool and tristate symbols outside choices ----------

  lemma Rest<T>(xs: seq<T>)
    requires xs != []
    ensures forall j :: 0 <= j < |xs| - 1 ==> xs[1..][j] == xs[j + 1]
  {
  }

  /** What holds first in the whole list holds first in the rest, unless it is the head. */
  lemma FirstInRest(x: Ctx, conds: seq<Option<Expr>>, i: nat)
    requires FirstHolds(x, conds, i)
    ensures i == 0 ==> Cond(x, conds[0]) != N
    ensures i > 0 ==> Cond(x, conds[0]) == N && FirstHolds(x, conds[1..], i - 1)
  {
    hide Cond;
    Rest(conds);
  }

  lemma NoneInRest(x: Ctx, conds: seq<Option<Expr>>)
    requires NoneHolds(x, conds) && conds != []
    ensures Cond(x, conds[0]) == N && NoneHolds(x, conds[1..])
  {
    hide Cond;
    Rest(conds);
  }

  lemma {:induction false} ActiveDefaultAt(x: Ctx, ds: seq<Default>, i: nat)
    requires FirstHolds(x, DefaultConds(ds), i)
    ensures ActiveDefault(x, ds) == Some(Min(Cond(x, Some(ds[i].val)), Cond(x, ds[i].cond)))
  {
    FirstInRest(x, DefaultConds(ds), i);
    SymbolLaws.CondPromoted(x, ds[0].cond);
    hide Cond, FirstHolds;
    if i > 0 {
      assert DefaultConds(ds[1..]) == DefaultConds(ds)[1..];
      ActiveDefaultAt(x, ds[1..], i - 1);
    }
  }

  lemma {:induction false} NoActiveDefault(x: Ctx, ds: seq<Default>)
    requires NoneHolds(x, DefaultConds(ds))
    ensures ActiveDefault(x, ds) == None
  {
    hide Cond, NoneHolds;
    if ds != [] {
      NoneInRest(x, DefaultConds(ds));
      assert DefaultConds(ds[1..]) == DefaultConds(ds)[1..];
      NoActiveDefault(x, ds[1..]);
    }
  }

  lemma DefaultsLaw(x: Ctx, ds: seq<Default>)
    ensures NoneHolds(x, DefaultConds(ds)) ==> ActiveDefault(x, ds) == None
    ensures forall i: nat :: FirstHolds(x, DefaultConds(ds), i) ==>
              ActiveDefault(x, ds) == Some(Min(Cond(x, Some(ds[i].val)), Cond(x, ds[i].cond)))
  {
    hide Cond, NoneHolds, ActiveDefault;
    if NoneHolds(x, DefaultConds(ds)) { NoActiveDefault(x, ds); }
    forall i: nat | FirstHolds(x, DefaultConds(ds), i)
      ensures i < |ds| && ActiveDefault(x, ds) == Some(Min(Cond(x, Some(ds[i].val)), Cond(x, ds[i].cond)))
    {
      ActiveDefaultAt(x, ds, i);
    }
  }

  /** The text of a value: never below the select condition, and "m" only for tristate symbols. */
  function Lifted(c: Config, x: Ctx, s: SymName, t: Tri): string
    requires s in c.syms
  {
    Show(Widen(c.syms[s].ty == Tristate, Max(t, Cond(x, Some(c.syms[s].revDep)))))
  }

  predicate UserCounts(c: Config, x: Ctx, u: Users, s: SymName)
    requires Closed(c) && s in c.syms
  {
    Vis(c, x, s) != N && s in u.sym
  }

  /** A user value counts while the symbol is visible, up to its visibility. Otherwise the first default whose
      condition holds counts, up to that condition. Otherwise only selects count. */
  lemma FreeSymbolValue(c: Config, x: Ctx, u: Users, s: SymName)
    requires Closed(c) && UsersOk(c, u) && s in c.syms && SymbolLaws.Free(c, s)
    ensures var text, ds := Value(c, x, u, s).text, c.syms[s].defaults;
            && (UserCounts(c, x, u, s) ==>
                  text == Lifted(c, x, s, Min(Promote(x.off, Read(u.sym[s])), Vis(c, x, s))))
            && (!UserCounts(c, x, u, s) ==>
                  forall i: nat :: FirstHolds(x, DefaultConds(ds), i) ==>
                    text == Lifted(c, x, s, Min(Cond(x, Some(ds[i].val)), Cond(x, ds[i].cond))))
            && (!UserCounts(c, x, u, s) && NoneHolds(x, DefaultConds(ds)) ==>
                  text == Show(Widen(c.syms[s].ty == Tristate, Cond(x, Some(c.syms[s].revDep)))))
  {
    SymbolLaws.VisPromoted(c, x, s);
    DefaultsLaw(x, c.syms[s].defaults);
    ActiveDefaultPromoted(x, c.syms[s].defaults);
    SymbolLaws.CondPromoted(x, Some(c.syms[s].revDep));
    FreeParts(c, x, u, s);
    hide Closed, UsersOk, Vis, Cond, ActiveDefault, Value, FirstHolds, NoneHolds, DefaultConds;
  }

  lemma {:induction false} ActiveDefaultPromoted(x: Ctx, ds: seq<Default>)
    ensures ActiveDefault(x, ds).Some? ==> Promote(x.off, ActiveDefault(x, ds).value) == ActiveDefault(x, ds).value
  {
    if ds != [] {
      SymbolLaws.CondPromoted(x, ds[0].cond);
      SymbolLaws.CondPromoted(x, Some(ds[0].val));
      ActiveDefaultPromoted(x, ds[1..]);
      hide Cond;
    }
  }

  lemma FreeParts(c: Config, x: Ctx, u: Users, s: SymName)
    requires Closed(c) && UsersOk(c, u) && s in c.syms && SymbolLaws.Free(c, s)
    ensures Value(c, x, u, s) ==
            Outcome(Show(Promote(c.syms[s].ty == Bool, FreeValue(c, x, u, s).0)), FreeValue(c, x, u, s).1)
  {
    hide Closed, UsersOk, FreeValue;
  }

  /** Such a symbol is written out unless it is invisible, has no default that holds, and is not selected. */
  lemma FreeSymbolWritten(c: Config, x: Ctx, u: Users, s: SymName)
    requires Closed(c) && UsersOk(c, u) && s in c.syms && SymbolLaws.Free(c, s)
    ensures !Value(c, x, u, s).write <==>
            && Vis(c, x, s) == N && NoneHolds(x, DefaultConds(c.syms[s].defaults))
            && Cond(x, Some(c.syms[s].revDep)) == N
  {
    DefaultsLaw(x, c.syms[s].defaults);
    FirstOrNone(x, DefaultConds(c.syms[s].defaults));
    FreeParts(c, x, u, s);
    hide Closed, UsersOk, Vis, Cond, ActiveDefault, Value, FirstHolds, NoneHolds, DefaultConds;
  }

  lemma {:induction false} FirstOrNone(x: Ctx, conds: seq<Option<Expr>>)
    ensures NoneHolds(x, conds) <==> !exists i: nat :: FirstHolds(x, conds, i)
  {
    hide Cond;
    if conds != [] {
      var n := |conds| - 1;
      FirstOrNone(x, conds[..n]);
      if !NoneHolds(x, conds) {
        if i: nat :| FirstHolds(x, conds[..n], i) {
          assert FirstHolds(x, conds, i);
        } else {
          assert NoneHolds(x, conds[..n]);
          assert forall j :: 0 <= j < n ==> conds[..n][j] == conds[j];
          assert FirstHolds(x, conds, n);
        }
      }
    }
  }

  // ---------- string symbols ----------

  lemma {:induction false} TextDefaultAt(x: Ctx, ds: seq<Default>, i: nat)
    requires FirstHolds(x, DefaultConds(ds), i)
    ensures TextDefault(x, ds) == Some(ExprText(x, ds[i].val))
  {
    FirstInRest(x, DefaultConds(ds), i);
    hide Cond, FirstHolds, ExprText;
    if i > 0 {
      assert DefaultConds(ds[1..]) == DefaultConds(ds)[1..];
      TextDefaultAt(x, ds[1..], i - 1);
    }
  }

  lemma {:induction false} NoTextDefault(x: Ctx, ds: seq<Default>)
    requires NoneHolds(x, DefaultConds(ds))
    ensures TextDefault(x, ds) == None
  {
    hide Cond, NoneHolds, ExprText;
    if ds != [] {
      NoneInRest(x, DefaultConds(ds));
      assert DefaultConds(ds[1..]) == DefaultConds(ds)[1..];
      NoTextDefault(x, ds[1..]);
    }
  }

  /** The text of a default that is a single operand. */
  predicate Reads(x: Ctx, d: Default, text: string) {
    d.val.Leaf? && AtomText(d.val.a, x.env) == text
  }

  /** The user value while visible; otherwise the first default whose condition holds; otherwise nothing. It is
      written out if it is visible or has such a default. */
  lemma TextSymbolValue(c: Config, x: Ctx, u: Users, s: SymName)
    requires Closed(c) && UsersOk(c, u) && s in c.syms && c.syms[s].ty == Text && c.syms[s].special.None?
    ensures var v, ds := Value(c, x, u, s), c.syms[s].defaults;
            && (UserCounts(c, x, u, s) ==> v.text == u.sym[s])
            && (!UserCounts(c, x, u, s) ==> forall i: nat, text ::
                  FirstHolds(x, DefaultConds(ds), i) && Reads(x, ds[i], text) ==> v.text == text)
            && (!UserCounts(c, x, u, s) && NoneHolds(x, DefaultConds(ds)) ==> v.text == "")
            && (!v.write <==> Vis(c, x, s) == N && NoneHolds(x, DefaultConds(ds)))
  {
    var ds := c.syms[s].defaults;
    FirstOrNone(x, DefaultConds(ds));
    if NoneHolds(x, DefaultConds(ds)) { NoTextDefault(x, ds); }
    forall i: nat | FirstHolds(x, DefaultConds(ds), i)
      ensures i < |ds| && TextDefault(x, ds) == Some(ExprText(x, ds[i].val))
    {
      TextDefaultAt(x, ds, i);
    }
    hide Closed, UsersOk, Vis, Cond, TextDefault, NoneHolds, DefaultConds;
  }

  // ---------- numbers ----------

  function BaseOf(ty: SymType): nat {
    if ty == Hex then 16 else 10
  }

  /** A number as it is written for its type. */
  function Numeric(c: Config, ty: SymType, n: int): string {
    if ty == Hex then c.num.hex(n) else c.num.dec(n)
  }

  /** The bounds are those of the first range whose condition holds; a bound that is no number counts as 0. */
  ghost predicate Bounds(c: Config, x: Ctx, s: SymName, low: int, high: int)
    requires s in c.syms
  {
    var rs := c.syms[s].ranges;
    exists i: nat :: FirstHolds(x, RangeConds(rs), i)
      && BoundIs(c, x, c.syms[s].ty, rs[i].low, low) && BoundIs(c, x, c.syms[s].ty, rs[i].high, high)
  }

  predicate BoundIs(c: Config, x: Ctx, ty: SymType, a: Atom, n: int) {
    var parsed := c.num.parse(AtomText(a, x.env), BaseOf(ty));
    if parsed.Some? then n == parsed.value else n == 0
  }

  predicate Unbounded(c: Config, x: Ctx, s: SymName)
    requires s in c.syms
  {
    NoneHolds(x, RangeConds(c.syms[s].ranges))
  }

  lemma {:induction false} ActiveRangeAt(c: Config, x: Ctx, base: nat, rs: seq<Range>, i: nat)
    requires FirstHolds(x, RangeConds(rs), i)
    ensures ActiveRange(c, x, base, rs) ==
            Some((NumberOr0(c, base, AtomText(rs[i].low, x.env)), NumberOr0(c, base, AtomText(rs[i].high, x.env))))
  {
    FirstInRest(x, RangeConds(rs), i);
    hide Cond, FirstHolds, NumberOr0, AtomText;
    if i > 0 {
      assert RangeConds(rs[1..]) == RangeConds(rs)[1..];
      ActiveRangeAt(c, x, base, rs[1..], i - 1);
    }
  }

  lemma {:induction false} NoActiveRange(c: Config, x: Ctx, base: nat, rs: seq<Range>)
    requires NoneHolds(x, RangeConds(rs))
    ensures ActiveRange(c, x, base, rs) == None
  {
    hide Cond, NoneHolds, NumberOr0, AtomText;
    if rs != [] {
      NoneInRest(x, RangeConds(rs));
      assert RangeConds(rs[1..]) == RangeConds(rs)[1..];
      NoActiveRange(c, x, base, rs[1..]);
    }
  }

  lemma RangeLaw(c: Config, x: Ctx, s: SymName)
    requires s in c.syms
    ensures var range := ActiveRange(c, x, BaseOf(c.syms[s].ty), c.syms[s].ranges);
            && (Unbounded(c, x, s) <==> range == None)
            && forall low, high :: Bounds(c, x, s, low, high) <==> range == Some((low, high))
  {
    var rs, base := c.syms[s].ranges, BaseOf(c.syms[s].ty);
    FirstOrNone(x, RangeConds(rs));
    if Unbounded(c, x, s) {
      NoActiveRange(c, x, base, rs);
    } else {
      var i: nat :| FirstHolds(x, RangeConds(rs), i);
      ActiveRangeAt(c, x, base, rs, i);
      OnlyFirst(x, RangeConds(rs));
    }
    hide Cond, ActiveRange, NoneHolds;
  }

  lemma OnlyFirst(x: Ctx, conds: seq<Option<Expr>>)
    ensures forall i: nat, j: nat :: FirstHolds(x, conds, i) && FirstHolds(x, conds, j) ==> i == j
  {
    hide Cond;
  }

  /** A default that holds and is a number. */
  predicate IsNumber(c: Config, x: Ctx, base: nat, d: Default) {
    Cond(x, d.cond) != N && c.num.parse(ExprText(x, d.val), base).Some?
  }

  predicate FirstNumber(c: Config, x: Ctx, base: nat, ds: seq<Default>, i: nat) {
    i < |ds| && IsNumber(c, x, base, ds[i]) && forall j :: 0 <= j < i ==> !IsNumber(c, x, base, ds[j])
  }

  predicate NoNumber(c: Config, x: Ctx, base: nat, ds: seq<Default>) {
    forall j :: 0 <= j < |ds| ==> !IsNumber(c, x, base, ds[j])
  }

  /** The last default that holds. */
  predicate LastHolds(x: Ctx, ds: seq<Default>, i: nat) {
    i < |ds| && Cond(x, ds[i].cond) != N && forall j :: i < j < |ds| ==> Cond(x, ds[j].cond) == N
  }

  ghost predicate Allowed(c: Config, x: Ctx, s: SymName, n: int)
    requires s in c.syms
  {
    Unbounded(c, x, s) || exists low, high :: Bounds(c, x, s, low, high) && low <= n <= high
  }

  /** The user value counts if the symbol is visible and the value is a number within the bounds. */
  ghost predicate UserNumberCounts(c: Config, x: Ctx, u: Users, s: SymName)
    requires Closed(c) && s in c.syms
  {
    UserCounts(c, x, u, s)
    && c.num.parse(u.sym[s], BaseOf(c.syms[s].ty)).Some?
    && Allowed(c, x, s, c.num.parse(u.sym[s], BaseOf(c.syms[s].ty)).value)
  }

  lemma {:induction false} NumberDefaultAt(c: Config, x: Ctx, base: nat, range: Option<(int, int)>, ds: seq<Default>,
                                           acc: Outcome, i: nat)
    requires FirstNumber(c, x, base, ds, i)
    ensures var text := ExprText(x, ds[i].val);
            NumberDefault(c, x, base, range, ds, acc) ==
            Outcome(Clamped(c, base, range, text, c.num.parse(text, base).value), true)
    decreases ds
  {
    hide Cond, ExprText, Clamped;
    if i > 0 {
      Rest(ds);
      assert !IsNumber(c, x, base, ds[0]);
      var text := ExprText(x, ds[0].val);
      NumberDefaultAt(c, x, base, range, ds[1..], if Cond(x, ds[0].cond) == N then acc else Outcome(text, true), i - 1);
    }
  }

  lemma {:induction false} NoNumberDefault(c: Config, x: Ctx, base: nat, range: Option<(int, int)>, ds: seq<Default>,
                                           acc: Outcome)
    requires NoNumber(c, x, base, ds)
    ensures var v := NumberDefault(c, x, base, range, ds, acc);
            && (v.write <==> acc.write || !NoneHolds(x, DefaultConds(ds)))
            && (range.Some? && range.value.0 > 0 ==> v.text == Numeral(c, base, range.value.0))
            && (!(range.Some? && range.value.0 > 0) ==>
                  && (forall i: nat :: LastHolds(x, ds, i) ==> v.text == ExprText(x, ds[i].val))
                  && (NoneHolds(x, DefaultConds(ds)) ==> v.text == acc.text))
    decreases ds
  {
    hide Cond, ExprText, Numeral;
    if ds != [] {
      assert !IsNumber(c, x, base, ds[0]);
      Rest(ds);
      var acc' := if Cond(x, ds[0].cond) == N then acc else Outcome(ExprText(x, ds[0].val), true);
      NoNumberDefault(c, x, base, range, ds[1..], acc');
      HoldsInRest(x, ds);
      forall i: nat | LastHolds(x, ds, i) ensures i > 0 ==> LastHolds(x, ds[1..], i - 1) {
      }
    }
  }

  lemma HoldsInRest(x: Ctx, ds: seq<Default>)
    requires ds != []
    ensures NoneHolds(x, DefaultConds(ds)) <==> Cond(x, ds[0].cond) == N && NoneHolds(x, DefaultConds(ds[1..]))
    ensures NoneHolds(x, DefaultConds(ds[1..])) ==> forall i: nat :: LastHolds(x, ds, i) ==> i == 0
  {
    hide Cond;
    var conds, rest := DefaultConds(ds), DefaultConds(ds[1..]);
    assert rest == conds[1..] && forall j :: 1 <= j < |conds| ==> conds[j] == rest[j - 1];
    assert forall j :: 0 <= j < |rest| ==> rest[j] == conds[j + 1];
    assert forall j :: 0 <= j < |conds| ==> conds[j] == ds[j].cond;
  }

  /** A user value that is a number within the bounds counts while the symbol is visible. Otherwise the first
      default that holds and is a number counts, moved into the bounds. Otherwise the lower bound does, if it is
      positive, and else the text of the last default that holds. It is written out if it is visible or has a
      default that holds. */
  lemma NumberSymbolValue(c: Config, x: Ctx, u: Users, s: SymName)
    requires Closed(c) && UsersOk(c, u) && s in c.syms && c.syms[s].special.None?
    requires c.syms[s].ty == Int || c.syms[s].ty == Hex
    ensures var v, ty, ds, base := Value(c, x, u, s), c.syms[s].ty, c.syms[s].defaults, BaseOf(c.syms[s].ty);
            && (UserNumberCounts(c, x, u, s) ==> v.text == u.sym[s])
            && (!v.write <==> Vis(c, x, s) == N && NoneHolds(x, DefaultConds(ds)))
            && (!UserNumberCounts(c, x, u, s) ==>
                  && (forall i: nat :: FirstNumber(c, x, base, ds, i) ==> DefaultNumber(c, x, s, ds[i], v.text))
                  && (NoNumber(c, x, base, ds) ==> NoDefaultNumber(c, x, s, v.text)))
  {
    NumberParts(c, x, u, s);
    RangeLaw(c, x, s);
    NumberWithoutUser(c, x, s, Outcome("", Vis(c, x, s) != N));
    hide Closed, UsersOk, Vis, Cond, NumberDefault, ActiveRange, NoneHolds, Bounds, Unbounded, Value, DefaultNumber,
         NoDefaultNumber, FirstNumber, NoNumber;
  }

  lemma NumberWithoutUser(c: Config, x: Ctx, s: SymName, acc: Outcome)
    requires s in c.syms && acc.text == ""
    ensures var base, ds := BaseOf(c.syms[s].ty), c.syms[s].defaults;
            var v := NumberDefault(c, x, base, ActiveRange(c, x, base, c.syms[s].ranges), ds, acc);
            && (v.write <==> acc.write || !NoneHolds(x, DefaultConds(ds)))
            && (forall i: nat :: FirstNumber(c, x, base, ds, i) ==> DefaultNumber(c, x, s, ds[i], v.text))
            && (NoNumber(c, x, base, ds) ==> NoDefaultNumber(c, x, s, v.text))
  {
    var base, ds := BaseOf(c.syms[s].ty), c.syms[s].defaults;
    var v := NumberDefault(c, x, base, ActiveRange(c, x, base, c.syms[s].ranges), ds, acc);
    forall i: nat | FirstNumber(c, x, base, ds, i)
      ensures i < |ds| && DefaultNumber(c, x, s, ds[i], v.text) && v.write && !NoneHolds(x, DefaultConds(ds))
    {
      FoundNumber(c, x, s, acc, i);
    }
    if NoNumber(c, x, base, ds) { FoundNoNumber(c, x, s, acc); }
    FirstNumberOrNone(c, x, base, ds);
    hide NumberDefault, ActiveRange, NoneHolds, DefaultNumber, NoDefaultNumber, NoNumber, Cond;
  }

  lemma FoundNumber(c: Config, x: Ctx, s: SymName, acc: Outcome, i: nat)
    requires s in c.syms && FirstNumber(c, x, BaseOf(c.syms[s].ty), c.syms[s].defaults, i)
    ensures var base, ds := BaseOf(c.syms[s].ty), c.syms[s].defaults;
            var v := NumberDefault(c, x, base, ActiveRange(c, x, base, c.syms[s].ranges), ds, acc);
            DefaultNumber(c, x, s, ds[i], v.text) && v.write && !NoneHolds(x, DefaultConds(ds))
  {
    var base, ds := BaseOf(c.syms[s].ty), c.syms[s].defaults;
    RangeLaw(c, x, s);
    NumberDefaultAt(c, x, base, ActiveRange(c, x, base, c.syms[s].ranges), ds, acc, i);
    assert DefaultConds(ds)[i] == ds[i].cond;
    hide NumberDefault, ActiveRange, Cond, Bounds, Unbounded, ExprText;
  }

  lemma FoundNoNumber(c: Config, x: Ctx, s: SymName, acc: Outcome)
    requires s in c.syms && acc.text == "" && NoNumber(c, x, BaseOf(c.syms[s].ty), c.syms[s].defaults)
    ensures var base, ds := BaseOf(c.syms[s].ty), c.syms[s].defaults;
            var v := NumberDefault(c, x, base, ActiveRange(c, x, base, c.syms[s].ranges), ds, acc);
            NoDefaultNumber(c, x, s, v.text) && (v.write <==> acc.write || !NoneHolds(x, DefaultConds(ds)))
  {
    hide NumberDefault, ActiveRange, Cond, Bounds, Unbounded, ExprText, NoneHolds, NoNumber, LastHolds;
    var base, ds := BaseOf(c.syms[s].ty), c.syms[s].defaults;
    var range := ActiveRange(c, x, base, c.syms[s].ranges);
    RangeLaw(c, x, s);
    NoNumberDefault(c, x, base, range, ds, acc);
    if forall low, high :: Bounds(c, x, s, low, high) ==> low <= 0 {
      if range.Some? { assert Bounds(c, x, s, range.value.0, range.value.1); }
    }
  }

  lemma {:induction false} FirstNumberOrNone(c: Config, x: Ctx, base: nat, ds: seq<Default>)
    ensures NoNumber(c, x, base, ds) || exists i: nat :: FirstNumber(c, x, base, ds, i)
  {
    hide IsNumber;
    if ds != [] {
      var n := |ds| - 1;
      FirstNumberOrNone(c, x, base, ds[..n]);
      if i: nat :| FirstNumber(c, x, base, ds[..n], i) {
        assert FirstNumber(c, x, base, ds, i);
      } else {
        assert forall j :: 0 <= j < n ==> ds[..n][j] == ds[j];
        if !NoNumber(c, x, base, ds) { assert FirstNumber(c, x, base, ds, n); }
      }
    }
  }

  /** The text of a default that is a number, or the bound it exceeds. */
  ghost predicate DefaultNumber(c: Config, x: Ctx, s: SymName, d: Default, text: string)
    requires s in c.syms
  {
    var own := ExprText(x, d.val);
    var n := c.num.parse(own, BaseOf(c.syms[s].ty));
    && n.Some?
    && (Allowed(c, x, s, n.value) ==> text == own)
    && forall low, high :: Bounds(c, x, s, low, high) ==>
         && (n.value < low ==> text == Numeric(c, c.syms[s].ty, low))
         && (low <= n.value && n.value > high ==> text == Numeric(c, c.syms[s].ty, high))
  }

  ghost predicate NoDefaultNumber(c: Config, x: Ctx, s: SymName, text: string)
    requires s in c.syms
  {
    && (forall low, high :: Bounds(c, x, s, low, high) && low > 0 ==> text == Numeric(c, c.syms[s].ty, low))
    && ((forall low, high :: Bounds(c, x, s, low, high) ==> low <= 0) ==>
          && (forall i: nat :: LastHolds(x, c.syms[s].defaults, i) ==> text == ExprText(x, c.syms[s].defaults[i].val))
          && (NoneHolds(x, DefaultConds(c.syms[s].defaults)) ==> text == ""))
  }

  lemma NumberParts(c: Config, x: Ctx, u: Users, s: SymName)
    requires Closed(c) && UsersOk(c, u) && s in c.syms && c.syms[s].special.None?
    requires c.syms[s].ty == Int || c.syms[s].ty == Hex
    ensures var base := BaseOf(c.syms[s].ty); var range := ActiveRange(c, x, base, c.syms[s].ranges);
            Value(c, x, u, s) ==
            if UserCounts(c, x, u, s) && UserNumberOk(c, base, range, u.sym[s]) then Outcome(u.sym[s], true)
            else NumberDefault(c, x, base, range, c.syms[s].defaults, Outcome("", Vis(c, x, s) != N))
  {
    hide Closed, UsersOk, Vis, ActiveRange, NumberDefault, UserNumberOk;
  }

  // ---------- modes and members of choices ----------

  /** A mode is never above the visibility. A mode set by the user holds up to that; without one, an optional
      choice is off and any other is as much on as its visibility allows, at least "m". Bool choices are never
      in "m" mode. */
  lemma ModeLaw(c: Config, x: Ctx, u: Users, k: ChoiceId)
    requires k in c.choices
    ensures var mode, vis := Mode(c, x, u, k), ChoiceVis(c, x, k);
            && (vis == N ==> mode == N)
            && (c.choices[k].ty == Bool ==> mode != M)
            && (k in u.mode && u.mode[k] == N ==> mode == N)
            && (k in u.mode && u.mode[k] == Y && vis != N ==>
                  (mode == Y <==> vis == Y || x.off || c.choices[k].ty == Bool) && mode != N)
            && (k in u.mode && u.mode[k] == M && vis != N ==>
                  (mode == Y <==> x.off || c.choices[k].ty == Bool) && mode != N)
            && (k !in u.mode && c.choices[k].optional ==> mode == N)
            && (k !in u.mode && !c.choices[k].optional && vis != N ==>
                  (mode == Y <==> x.off || c.choices[k].ty == Bool) && mode != N)
  {
    hide ChoiceVis;
  }

  /** A member of a choice in "m" mode is "m" if it is visible and the user set it to anything but "n". In "n"
      mode, or while it is invisible, it is "n". It is written out if it is visible and the mode is not "n". */
  lemma MemberSymbolValue(c: Config, x: Ctx, u: Users, s: SymName)
    requires Closed(c) && UsersOk(c, u) && s in c.syms && c.syms[s].choice.Some? && c.syms[s].special.None?
    requires Logical(c.syms[s].ty)
    ensures var v, mode := Value(c, x, u, s), Mode(c, x, u, c.syms[s].choice.value);
            && (mode == N || Vis(c, x, s) == N ==> v.text == "n")
            && (mode == M && Vis(c, x, s) != N ==>
                  v.text == if s in u.sym && (u.sym[s] == "m" || u.sym[s] == "y")
                            then (if c.syms[s].ty == Tristate then "m" else "y") else "n")
            && (v.write <==> Vis(c, x, s) != N && mode != N)
  {
    hide Closed, UsersOk, Vis, Mode, Selection;
  }

  // ---------- selections ----------

  lemma {:induction false} ActivePickAt(x: Ctx, ps: seq<Pick>, i: nat)
    requires FirstHolds(x, PickConds(ps), i)
    ensures ActivePick(x, ps) == Some(ps[i].sym)
  {
    FirstInRest(x, PickConds(ps), i);
    hide Cond, FirstHolds;
    if i > 0 {
      assert PickConds(ps[1..]) == PickConds(ps)[1..];
      ActivePickAt(x, ps[1..], i - 1);
    }
  }

  lemma {:induction false} NoActivePick(x: Ctx, ps: seq<Pick>)
    requires NoneHolds(x, PickConds(ps))
    ensures ActivePick(x, ps) == None
  {
    hide Cond, NoneHolds;
    if ps != [] {
      NoneInRest(x, PickConds(ps));
      assert PickConds(ps[1..]) == PickConds(ps)[1..];
      NoActivePick(x, ps[1..]);
    }
  }

  /** The first visible member is at position `i`. */
  predicate FirstShown(c: Config, x: Ctx, ms: seq<SymName>, i: nat)
    requires Closed(c) && forall m <- ms :: m in c.syms
  {
    i < |ms| && Vis(c, x, ms[i]) != N && forall j :: 0 <= j < i ==> Vis(c, x, ms[j]) == N
  }

  lemma {:induction false} FirstVisibleAt(c: Config, x: Ctx, ms: seq<SymName>, i: nat)
    requires Closed(c) && (forall m <- ms :: m in c.syms) && FirstShown(c, x, ms, i)
    ensures FirstVisible(c, x, ms) == Some(ms[i])
  {
    hide Closed, Vis;
    if i > 0 {
      assert Vis(c, x, ms[0]) == N;
      FirstVisibleAt(c, x, ms[1..], i - 1);
    }
  }

  /** What the defaults of a choice prefer: the first whose condition holds, or else the first member. */
  predicate Preferred(c: Config, x: Ctx, k: ChoiceId, m: SymName)
    requires k in c.choices
  {
    var ps := c.choices[k].defaults;
    || (exists i: nat :: i < |ps| && FirstHolds(x, PickConds(ps), i) && ps[i].sym == m)
    || (NoneHolds(x, PickConds(ps)) && c.choices[k].members != [] && m == c.choices[k].members[0])
  }

  /** In "y" mode the user's selection counts if it is visible as "y". Otherwise an optional choice selects
      nothing, and any other the preferred member if that is visible, and else the first visible one. */
  lemma SelectionLaw(c: Config, x: Ctx, u: Users, k: ChoiceId)
    requires Closed(c) && UsersOk(c, u) && k in c.choices
    ensures forall m <- c.choices[k].members :: m in c.syms
    ensures k in u.sel ==> u.sel[k] in c.syms
    ensures Mode(c, x, u, k) != Y ==> Selection(c, x, u, k) == None
    ensures var chosen := k in u.sel && Vis(c, x, u.sel[k]) == Y;
            Mode(c, x, u, k) == Y ==>
              && (chosen ==> Selection(c, x, u, k) == Some(u.sel[k]))
              && (!chosen && c.choices[k].optional ==> Selection(c, x, u, k) == None)
              && (!chosen && !c.choices[k].optional ==> DefaultSelection(c, x, k, Selection(c, x, u, k)))
  {
    assert ClosedChoice(c, k);
    SelectedByDefault(c, x, k);
    hide Vis, Mode, SelectionFromDefaults, DefaultSelection;
  }

  ghost predicate DefaultSelection(c: Config, x: Ctx, k: ChoiceId, sel: Option<SymName>)
    requires Closed(c) && k in c.choices && forall m <- c.choices[k].members :: m in c.syms
  {
    && (c.choices[k].members == [] ==> sel == None)
    && (forall m <- c.choices[k].members :: Preferred(c, x, k, m) ==>
          && (Vis(c, x, m) != N ==> sel == Some(m))
          && (Vis(c, x, m) == N ==>
                forall i: nat :: FirstShown(c, x, c.choices[k].members, i) ==> sel == Some(c.choices[k].members[i])))
    && ((forall m <- c.choices[k].members :: Vis(c, x, m) == N) ==> sel == None)
  }

  lemma SelectedByDefault(c: Config, x: Ctx, k: ChoiceId)
    requires Closed(c) && k in c.choices
    ensures forall m <- c.choices[k].members :: m in c.syms
    ensures DefaultSelection(c, x, k, SelectionFromDefaults(c, x, k))
  {
    assert ClosedChoice(c, k);
    var ms, ps := c.choices[k].members, c.choices[k].defaults;
    SymbolLaws.FirstVisibleFacts(c, x, ms);
    ActivePickIsListed(x, ps);
    forall i: nat | FirstShown(c, x, ms, i) ensures i < |ms| && FirstVisible(c, x, ms) == Some(ms[i]) {
      FirstVisibleAt(c, x, ms, i);
    }
    forall m | Preferred(c, x, k, m)
      ensures ActivePick(x, ps) == Some(m) || (ActivePick(x, ps) == None && ms != [] && m == ms[0])
    {
      if NoneHolds(x, PickConds(ps)) { NoActivePick(x, ps); }
      if i: nat :| i < |ps| && FirstHolds(x, PickConds(ps), i) && ps[i].sym == m { ActivePickAt(x, ps, i); }
    }
    hide Vis, FirstVisible, ActivePick, Preferred, FirstShown, Cond;
  }

  // ---------- symbols with a fixed value ----------

  /** Special symbols keep their value, and symbols that are only referred to have their name as their value.
      Neither is written out. */
  lemma FixedSymbolValue(c: Config, x: Ctx, u: Users, s: SymName)
    requires Closed(c) && UsersOk(c, u) && s in c.syms
    ensures c.syms[s].special.Some? ==> Value(c, x, u, s) == Outcome(c.syms[s].special.value, false)
    ensures c.syms[s].special.None? && c.syms[s].ty == Unknown ==> Value(c, x, u, s) == Outcome(s, false)
  {
    hide Closed, UsersOk;
  }

  /** In the resulting world symbols look as they are valued, bool and tristate symbols count as tristates, and
      modules are off unless MODULES is "y". */
  lemma WorldLaw(c: Config, rank: map<SymName, nat>, u: Users, s: SymName)
    requires Model(c, rank) && UsersOk(c, u)
    ensures var x := World(c, rank, u);
            && (s in c.syms ==> s in x.env.vals && x.env.vals[s] == Val(c, rank, u, s))
            && (s in x.env.logical <==> s in c.syms && (c.syms[s].ty == Bool || c.syms[s].ty == Tristate))
            && (x.off <==> MODULES !in c.syms || Val(c, rank, u, MODULES) != "y")
  {
    hide UsersOk;
  }
}
