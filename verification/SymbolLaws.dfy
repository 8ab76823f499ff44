/** What users of the library rely on: selects are a floor, assignable values are honoured,
    and a choice in "y" mode has exactly one selected member. */
module SymbolLaws {
  import opened Wrappers
  import opened Tristate
  import opened Expressions
  import opened Configuration
  import opened Recomputation
  import opened Evaluability
  import opened Dependencies

  /** A bool or tristate symbol outside choices whose value is computed, not fixed. */
  ghost predicate Free(c: Config, s: SymName)
    requires s in c.syms
  {
    Logical(c.syms[s].ty) && c.syms[s].choice.None? && c.syms[s].special.None?
  }

  /** The value of a selected symbol is never below the selecting condition. */
  lemma SelectFloor(c: Config, x: Ctx, u: Users, s: SymName)
    requires Closed(c) && UsersOk(c, u) && s in c.syms && Free(c, s)
    ensures Value(c, x, u, s).text == Show(Read(Value(c, x, u, s).text))
    ensures !Less(Read(Value(c, x, u, s).text), Cond(x, Some(c.syms[s].revDep)))
  {
    hide Closed, UsersOk, Vis, ActiveDefault, Cond;
    var t := FreeValue(c, x, u, s).0;
    assert Read(Show(t)) == t && Read(Show(Promote(true, t))) == Promote(true, t);
    assert Cond(x, Some(c.syms[s].revDep)) == Promote(x.off, Cond(x, Some(c.syms[s].revDep))) by {
      CondPromoted(x, Some(c.syms[s].revDep));
    }
  }

  lemma CondPromoted(x: Ctx, e: Option<Expr>)
    ensures Promote(x.off, Cond(x, e)) == Cond(x, e)
  {
  }

  // ---------- assignable values ----------

  /** get_assignable_values(): a Python slice, empty unless it has at least two elements. */
  function AssignableValues(c: Config, x: Ctx, s: SymName): seq<Tri>
    requires Closed(c) && s in c.syms
  {
    if !Logical(c.syms[s].ty) then []
    else
      var rev := Cond(x, Some(c.syms[s].revDep));
      if rev == M && c.syms[s].ty == Bool then []
      else
        var lo, hi := ToInt(rev), ToInt(Vis(c, x, s)) + 1;
        if lo + 1 < hi then [N, M, Y][lo..hi] else []
  }

  /** is_modifiable(). */
  predicate IsModifiable(c: Config, x: Ctx, s: SymName)
    requires Closed(c) && s in c.syms
  {
    if c.syms[s].special.Some? then false
    else if Logical(c.syms[s].ty) then
      var rev := Cond(x, Some(c.syms[s].revDep));
      !(rev == M && c.syms[s].ty == Bool) && Less(rev, Vis(c, x, s))
    else Vis(c, x, s) != N
  }

  lemma AssignableMeans(c: Config, x: Ctx, s: SymName, v: Tri)
    requires Closed(c) && s in c.syms && Logical(c.syms[s].ty) && c.syms[s].special.None?
    ensures v in AssignableValues(c, x, s) <==>
            IsModifiable(c, x, s) && !Less(v, Cond(x, Some(c.syms[s].revDep))) && !Less(Vis(c, x, s), v)
  {
    hide Closed, Vis, Cond;
    var all := [N, M, Y];
    assert forall i :: 0 <= i < 3 ==> ToInt(all[i]) == i;
    assert all[ToInt(v)] == v;
    var lo, hi := ToInt(Cond(x, Some(c.syms[s].revDep))), ToInt(Vis(c, x, s)) + 1;
    if lo + 1 < hi {
      assert v in all[lo..hi] <==> lo <= ToInt(v) < hi by {
        if lo <= ToInt(v) < hi { assert all[lo..hi][ToInt(v) - lo] == v; }
      }
    }
  }

  /** Either modules are not switched, or the symbol never asks whether they are on. */
  lemma SwitchOrQuiet(c: Config, rank: map<SymName, nat>, u: Users, u': Users, s: SymName)
    requires Model(c, rank) && UsersOk(c, u) && UsersOk(c, u') && s in c.syms && DiffersAt(c, u, u', s)
    requires c.syms[s].special.None?
    ensures World(c, rank, u).off == World(c, rank, u').off || Quiet(c, s)
  {
    hide UsersOk, DiffersAt, World, ConeOf, Closed, Quiet;
    if MODULES in ConeOf(c, rank, s) { ConeAfter(c, rank, s, MODULES); } else { ModulesStay(c, rank, u, u', s); }
  }

  /** The inputs of a symbol look the same, except that modules may have been switched. */
  lemma OwnConditionsStable(c: Config, rank: map<SymName, nat>, u: Users, u': Users, s: SymName)
    requires Model(c, rank) && UsersOk(c, u) && UsersOk(c, u') && s in c.syms && DiffersAt(c, u, u', s)
    ensures var x, x' := World(c, rank, u), World(c, rank, u'); Alike(x.(off := x'.off), x', DirectInputs(c, s))
  {
    hide Model, Closed, UsersOk, DiffersAt, DirectInputs, AllVals;
    forall n | n in DirectInputs(c, s) ensures Look(AllVals(c, rank, u), n) == Look(AllVals(c, rank, u'), n) {
      OwnInputStable(c, rank, u, u', s, n);
    }
  }

  /** A symbol's own visibility and conditions do not depend on its own user value. */
  lemma OwnConditionsSame(c: Config, rank: map<SymName, nat>, u: Users, u': Users, s: SymName)
    requires Closed(c) && Model(c, rank) && UsersOk(c, u) && UsersOk(c, u') && s in c.syms && DiffersAt(c, u, u', s)
    requires c.syms[s].special.None?
    ensures Vis(c, World(c, rank, u), s) == Vis(c, World(c, rank, u'), s)
    ensures Cond(World(c, rank, u), Some(c.syms[s].revDep)) == Cond(World(c, rank, u'), Some(c.syms[s].revDep))
  {
    hide Model, Closed, UsersOk, World, DiffersAt, PromptSyms, DefaultSyms, RangeSyms, PickSyms, SymsOf, Vis, Cond,
         Quiet;
    var x, x' := World(c, rank, u), World(c, rank, u');
    OwnConditionsStable(c, rank, u, u', s);
    VisFrame(c, x.(off := x'.off), x', s);
    CondFrame(x.(off := x'.off), x', Some(c.syms[s].revDep));
    SwitchOrQuiet(c, rank, u, u', s);
    if x.off != x'.off {
      WorldFacts(c, rank, u);
      QuietOwn(c, x, x'.off, u, s);
    } else {
      assert x.(off := x'.off) == x;
    }
  }

  lemma QuietOwn(c: Config, x: Ctx, b: bool, u: Users, s: SymName)
    requires Closed(c) && UsersOk(c, u) && s in c.syms && Quiet(c, s) && BoolsAreBool(x.env, Tristates(c))
    ensures Value(c, x, u, s) == Value(c, x.(off := b), u, s) && Vis(c, x, s) == Vis(c, x.(off := b), s)
    ensures Cond(x, Some(c.syms[s].revDep)) == Cond(x.(off := b), Some(c.syms[s].revDep))
  {
    QuietValue(c, x, b, u, s);
    QuietCond(x, b, Some(c.syms[s].revDep), Tristates(c));
  }

  /** Assigning a value to a modifiable symbol outside choices works exactly for the values listed as
      assignable, except that "m" becomes "y" when modules are off. */
  lemma AssignableHonoured(c: Config, rank: map<SymName, nat>, u: Users, s: SymName, v: Tri)
    requires Closed(c) && Model(c, rank) && UsersOk(c, u) && s in c.syms && Free(c, s) && c.syms[s].defined
    requires ValidFor(c, s, Show(v)) && UsersOk(c, Assigned(c, u, s, Show(v)))
    requires IsModifiable(c, World(c, rank, u), s)
    ensures Val(c, rank, Assigned(c, u, s, Show(v)), s) == Show(v) <==>
            v in AssignableValues(c, World(c, rank, u), s) && !(v == M && World(c, rank, u).off)
  {
    hide Model, Closed, UsersOk, World, DiffersAt, Vis, Cond, AssignableValues, Value, Val, ValidFor, Quiet;
    var u' := Assigned(c, u, s, Show(v));
    var x' := World(c, rank, u');
    AssignableMeans(c, World(c, rank, u), s, v);
    AssignedDiffers(c, u, s, Show(v));
    OwnConditionsSame(c, rank, u, u', s);
    Fixpoint(c, rank, u', s);
    VisPromoted(c, x', s);
    CondPromoted(x', Some(c.syms[s].revDep));
    BoolIsNotM(c, s, v);
    SwitchOrQuiet(c, rank, u, u', s);
    QuietIsNotM(c, s, v);
    ValueOfAssigned(c, x', u', s, v);
  }

  lemma QuietIsNotM(c: Config, s: SymName, v: Tri)
    requires s in c.syms && Logical(c.syms[s].ty) && ValidFor(c, s, Show(v))
    ensures Quiet(c, s) ==> v != M
  {
  }

  lemma BoolIsNotM(c: Config, s: SymName, v: Tri)
    requires s in c.syms && ValidFor(c, s, Show(v))
    ensures c.syms[s].ty == Bool ==> v != M
  {
  }

  lemma VisPromoted(c: Config, x: Ctx, s: SymName)
    requires Closed(c) && s in c.syms
    ensures Promote(x.off, Vis(c, x, s)) == Vis(c, x, s)
    ensures c.syms[s].ty == Bool ==> Vis(c, x, s) != M
  {
    hide Closed;
    PromptsPromoted(x, c.syms[s].prompts);
  }

  lemma {:induction false} PromptsPromoted(x: Ctx, ps: seq<Option<Expr>>)
    ensures Promote(x.off, PromptsVis(x, ps)) == PromptsVis(x, ps)
  {
    if ps != [] {
      PromptsPromoted(x, ps[..|ps| - 1]);
      CondPromoted(x, ps[|ps| - 1]);
    }
  }

  /** The value of a visible symbol with user value `v`: `v` clipped to the range from the
      select condition up to the visibility. */
  lemma ValueOfAssigned(c: Config, x: Ctx, u: Users, s: SymName, v: Tri)
    requires Closed(c) && UsersOk(c, u) && s in c.syms && Free(c, s)
    requires s in u.sym && u.sym[s] == Show(v) && Vis(c, x, s) != N
    ensures Value(c, x, u, s).text ==
            Show(Promote(c.syms[s].ty == Bool,
                         Max(Min(Promote(x.off, v), Vis(c, x, s)), Cond(x, Some(c.syms[s].revDep)))))
    ensures forall t, t': Tri :: Show(t) == Show(t') ==> t == t'
  {
    VisPromoted(c, x, s);
    CondPromoted(x, Some(c.syms[s].revDep));
    hide Closed, UsersOk, Vis, Cond;
    forall t, t': Tri | Show(t) == Show(t') ensures t == t' { assert Read(Show(t)) == t && Read(Show(t')) == t'; }
    assert Read(Show(v)) == v;
  }

  /** A symbol that is not modifiable has the same value whatever user value is assigned. */
  lemma NotModifiable(c: Config, rank: map<SymName, nat>, u: Users, s: SymName, v: string, w: string)
    requires Model(c, rank) && UsersOk(c, u) && s in c.syms && c.syms[s].choice.None?
    requires ValidFor(c, s, v) && ValidFor(c, s, w)
    requires UsersOk(c, Assigned(c, u, s, v)) && UsersOk(c, Assigned(c, u, s, w))
    requires !IsModifiable(c, World(c, rank, u), s)
    ensures Val(c, rank, Assigned(c, u, s, v), s) == Val(c, rank, Assigned(c, u, s, w), s)
  {
    StuckValue(c, rank, u, s, v);
    StuckValue(c, rank, u, s, w);
  }

  /** The value every assignment to a symbol that is not modifiable leads to. */
  function Stuck(c: Config, x: Ctx, u: Users, s: SymName): string
    requires Closed(c) && UsersOk(c, u) && s in c.syms
  {
    var d := c.syms[s];
    if d.special.None? && d.defined && Logical(d.ty) && d.choice.None? && Vis(c, x, s) != N
    then Show(Promote(d.ty == Bool, Cond(x, Some(d.revDep))))
    else Value(c, x, u, s).text
  }

  lemma StuckValue(c: Config, rank: map<SymName, nat>, u: Users, s: SymName, v: string)
    requires Closed(c) && Model(c, rank) && UsersOk(c, u) && s in c.syms && c.syms[s].choice.None?
    requires ValidFor(c, s, v) && UsersOk(c, Assigned(c, u, s, v))
    requires !IsModifiable(c, World(c, rank, u), s)
    ensures Val(c, rank, Assigned(c, u, s, v), s) == Stuck(c, World(c, rank, u), u, s)
  {
    hide Model, Closed, UsersOk, World, DiffersAt, Vis, Cond, Value, Val;
    var u' := Assigned(c, u, s, v);
    Fixpoint(c, rank, u', s);
    var d := c.syms[s];
    if d.special.None? && d.defined {
      var x, x' := World(c, rank, u), World(c, rank, u');
      AssignedDiffers(c, u, s, v);
      OwnConditionsSame(c, rank, u, u', s);
      SameUserSameValue(c, rank, u, u', s);
      if Vis(c, x, s) == N {
        InvisibleIgnoresUser(c, x', u, u', s);
      } else {
        assert Logical(d.ty);
        var t := Read(v);
        assert v == Show(t);
        ValueOfAssigned(c, x', u', s, t);
        VisPromoted(c, x', s);
        CondPromoted(x', Some(d.revDep));
      }
    }
  }

  lemma SameUserSameValue(c: Config, rank: map<SymName, nat>, u: Users, u': Users, s: SymName)
    requires Closed(c) && Model(c, rank) && UsersOk(c, u) && UsersOk(c, u') && s in c.syms && DiffersAt(c, u, u', s)
    requires c.syms[s].choice.None? && c.syms[s].special.None?
    ensures Value(c, World(c, rank, u), u, s) == Value(c, World(c, rank, u'), u, s)
  {
    hide Model, Closed, UsersOk, World, DiffersAt, Vis, Cond, Value, Alike, DirectInputs, Quiet;
    var x, x' := World(c, rank, u), World(c, rank, u');
    OwnConditionsStable(c, rank, u, u', s);
    FreeFrame(c, x.(off := x'.off), x', u, u, s);
    SwitchOrQuiet(c, rank, u, u', s);
    if x.off != x'.off {
      WorldFacts(c, rank, u);
      QuietOwn(c, x, x'.off, u, s);
    } else {
      assert x.(off := x'.off) == x;
    }
  }

  /** The user value of an invisible symbol has no effect. */
  lemma InvisibleIgnoresUser(c: Config, x: Ctx, u: Users, u': Users, s: SymName)
    requires Closed(c) && UsersOk(c, u) && UsersOk(c, u') && s in c.syms && c.syms[s].choice.None? && Vis(c, x, s) == N
    ensures Value(c, x, u, s) == Value(c, x, u', s)
  {
    hide Closed, UsersOk, Vis;
  }

  // ---------- choices ----------

  /** Exactly one member: some member is valued "y", and every member valued "y" is that one. */
  ghost predicate ExactlyOneY(c: Config, x: Ctx, u: Users, k: ChoiceId)
    requires Closed(c) && UsersOk(c, u) && k in c.choices
  {
    exists m :: m in c.choices[k].members && OnlyY(c, x, u, k, m)
  }

  ghost predicate OnlyY(c: Config, x: Ctx, u: Users, k: ChoiceId, m: SymName)
    requires Closed(c) && UsersOk(c, u) && k in c.choices && m in c.choices[k].members
  {
    assert ClosedChoice(c, k);
    && Value(c, x, u, m).text == "y" && Vis(c, x, m) != N
    && forall n :: n in c.choices[k].members && n != m ==> Value(c, x, u, n).text == "n"
  }

  ghost predicate AnyVisible(c: Config, x: Ctx, k: ChoiceId)
    requires Closed(c) && k in c.choices
  {
    assert ClosedChoice(c, k);
    exists m :: m in c.choices[k].members && Vis(c, x, m) != N
  }

  ghost predicate AllN(c: Config, x: Ctx, u: Users, k: ChoiceId)
    requires Closed(c) && UsersOk(c, u) && k in c.choices
  {
    assert ClosedChoice(c, k);
    forall m :: m in c.choices[k].members ==> Value(c, x, u, m).text == "n"
  }

  lemma {:induction false} FirstVisibleFacts(c: Config, x: Ctx, ms: seq<SymName>)
    requires Closed(c) && forall s <- ms :: s in c.syms
    ensures FirstVisible(c, x, ms).Some? ==>
              FirstVisible(c, x, ms).value in ms && Vis(c, x, FirstVisible(c, x, ms).value) != N
    ensures FirstVisible(c, x, ms).None? ==> forall m <- ms :: Vis(c, x, m) == N
  {
    if ms != [] { FirstVisibleFacts(c, x, ms[1..]); }
  }

  /** In "y" mode the selection is a visible member; for a choice that is not optional it exists
      exactly when some member is visible. */
  lemma SelectionFacts(c: Config, x: Ctx, u: Users, k: ChoiceId)
    requires Closed(c) && UsersOk(c, u) && k in c.choices && Mode(c, x, u, k) == Y
    ensures var sel := Selection(c, x, u, k);
            sel.Some? ==> sel.value in c.choices[k].members && sel.value in c.syms && Vis(c, x, sel.value) != N
    ensures Selection(c, x, u, k).None? && !c.choices[k].optional ==> !AnyVisible(c, x, k)
  {
    assert ClosedChoice(c, k);
    hide Vis, Mode;
    FirstVisibleFacts(c, x, c.choices[k].members);
    ActivePickIsListed(x, c.choices[k].defaults);
  }

  lemma MemberInYMode(c: Config, x: Ctx, u: Users, k: ChoiceId, m: SymName)
    requires Closed(c) && UsersOk(c, u) && k in c.choices && Mode(c, x, u, k) == Y && m in c.choices[k].members
    ensures m in c.syms
    ensures Value(c, x, u, m).text == if Selection(c, x, u, k) == Some(m) then "y" else "n"
  {
    assert ClosedChoice(c, k);
    SelectionFacts(c, x, u, k);
    hide Vis, Mode, Selection;
  }

  /** A choice in "y" mode has at most one member valued "y", and that member is visible; one that
      is not optional has exactly one if any member is visible, and none otherwise. */
  lemma ChoiceExclusive(c: Config, x: Ctx, u: Users, k: ChoiceId)
    requires Closed(c) && UsersOk(c, u) && k in c.choices && Mode(c, x, u, k) == Y
    ensures ExactlyOneY(c, x, u, k) || AllN(c, x, u, k)
    ensures !c.choices[k].optional ==> (ExactlyOneY(c, x, u, k) <==> AnyVisible(c, x, k))
    ensures !c.choices[k].optional ==> (AllN(c, x, u, k) <==> !AnyVisible(c, x, k))
  {
    assert ClosedChoice(c, k);
    SelectionFacts(c, x, u, k);
    hide Closed, ClosedChoice, UsersOk, Vis, Mode, Selection, Value;
    forall m | m in c.choices[k].members
      ensures Value(c, x, u, m).text == if Selection(c, x, u, k) == Some(m) then "y" else "n"
    {
      MemberInYMode(c, x, u, k, m);
    }
    var sel := Selection(c, x, u, k);
    if sel.Some? {
      assert OnlyY(c, x, u, k, sel.value);
      assert Value(c, x, u, sel.value).text[0] == 'y';
    }
  }
}
