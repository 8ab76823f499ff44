/** What assignments, removals and loads leave as user values, by the assigned values themselves. */
module UserLaws {
  import opened Wrappers
  import opened Tristate
  import opened Configuration
  import opened Dependencies
  import opened SymbolLaws
  import opened Expressions

  /** The values that are taken, by type. */
  predicate Accepts(c: Config, s: SymName, v: string)
    requires s in c.syms
  {
    && c.syms[s].special.None? && c.syms[s].defined
    && match c.syms[s].ty
       case Bool => v in ["n", "y"]
       case Tristate => v in ["n", "m", "y"]
       case Text => true
       case Int => c.num.parse(v, 10).Some?
       case Hex => c.num.parse(v, 16).Some?
       case Unknown => false
  }

  /** A member of a choice that decides about the selection. */
  predicate MemberOf(c: Config, s: SymName, k: ChoiceId)
    requires s in c.syms
  {
    c.syms[s].choice.Some? && c.syms[s].choice.value == k && Logical(c.syms[s].ty)
  }

  /** An accepted value becomes the user value of its symbol and of no other. "y" for a member selects it and puts
      its choice into "y" mode, "m" deselects and puts it into "m" mode, and "n" leaves the choice alone. */
  lemma AssignedLaw(c: Config, u: Users, s: SymName, v: string)
    requires s in c.syms
    ensures var u' := Assigned(c, u, s, v);
            && (!Accepts(c, s, v) ==> u' == u)
            && (Accepts(c, s, v) ==> u'.sym == u.sym[s := v])
            && forall k ::
                 var chosen := Accepts(c, s, v) && MemberOf(c, s, k) && v != "n";
                 && (chosen && v == "y" ==> k in u'.sel && u'.sel[k] == s && k in u'.mode && u'.mode[k] == Y)
                 && (chosen && v == "m" ==> k !in u'.sel && k in u'.mode && u'.mode[k] == M)
                 && (!chosen ==> SameChoice(u, u', k))
  {
    if c.syms[s].choice.Some? { assert "y" != "n" && "m" != "n" && "y" != "m"; }
  }

  predicate SameChoice(u: Users, u': Users, k: ChoiceId) {
    && (k in u.sel <==> k in u'.sel) && (k in u.sel ==> u.sel[k] == u'.sel[k])
    && (k in u.mode <==> k in u'.mode) && (k in u.mode ==> u.mode[k] == u'.mode[k])
  }

  /** A removal takes away the user value and, for a member, selection and mode of its choice; nothing else. */
  lemma UnassignedLaw(c: Config, u: Users, s: SymName)
    requires s in c.syms
    ensures var u' := Unassigned(c, u, s);
            && s !in u'.sym && (forall t :: t != s ==> (t in u'.sym <==> t in u.sym))
            && (forall t <- u'.sym :: u'.sym[t] == u.sym[t])
            && forall k ::
                 if c.syms[s].choice.Some? && c.syms[s].choice.value == k then k !in u'.sel && k !in u'.mode
                 else SameChoice(u, u', k)
  {
  }

  /** Removing after assigning is the same as removing. */
  lemma RemovalUndoes(c: Config, u: Users, s: SymName, v: string)
    requires s in c.syms
    ensures Unassigned(c, Assigned(c, u, s, v), s) == Unassigned(c, u, s)
  {
    hide ValidFor, Logical;
  }

  /** A member set to "y" is selected, and every other member is "n", as soon as it and its choice are visible as "y",
      whatever was selected before. */
  lemma ChosenMember(c: Config, x: Ctx, u: Users, s: SymName, k: ChoiceId)
    requires Closed(c) && UsersOk(c, u) && s in c.syms && MemberOf(c, s, k) && Accepts(c, s, "y")
    requires UsersOk(c, Assigned(c, u, s, "y")) && k in c.choices
    requires ChoiceVis(c, x, k) == Y && Vis(c, x, s) == Y
    ensures Value(c, x, Assigned(c, u, s, "y"), s).text == "y"
    ensures forall m <- c.choices[k].members ::
            m in c.syms && (m != s ==> Value(c, x, Assigned(c, u, s, "y"), m).text == "n")
  {
    var u' := Assigned(c, u, s, "y");
    AssignedLaw(c, u, s, "y");
    assert ClosedChoice(c, k);
    ChosenSelection(c, x, u', s, k);
    hide Closed, UsersOk, Vis, ChoiceVis, Mode, Selection, Value, Assigned;
    forall m | m in c.choices[k].members
      ensures m in c.syms && Value(c, x, u', m).text == if m == s then "y" else "n"
    {
      MemberInYMode(c, x, u', k, m);
    }
  }

  lemma ChosenSelection(c: Config, x: Ctx, u: Users, s: SymName, k: ChoiceId)
    requires Closed(c) && UsersOk(c, u) && s in c.syms && MemberOf(c, s, k) && k in c.choices
    requires k in u.sel && u.sel[k] == s && k in u.mode && u.mode[k] == Y
    requires ChoiceVis(c, x, k) == Y && Vis(c, x, s) == Y
    ensures s in c.choices[k].members && Mode(c, x, u, k) == Y && Selection(c, x, u, k) == Some(s)
  {
    hide ChoiceVis, Vis;
  }

  // ---------- loading ----------

  /** The setting at position `i` is the last one that gives `s` a value. */
  predicate LastSets(c: Config, settings: seq<(SymName, string)>, s: SymName, i: nat)
    requires s in c.syms
  {
    && i < |settings| && settings[i].0 == s && Accepts(c, s, settings[i].1)
    && forall j :: i < j < |settings| && settings[j].0 == s ==> !Accepts(c, s, settings[j].1)
  }

  predicate NothingSets(c: Config, settings: seq<(SymName, string)>, s: SymName)
    requires s in c.syms
  {
    forall j :: 0 <= j < |settings| && settings[j].0 == s ==> !Accepts(c, s, settings[j].1)
  }

  /** The last accepted setting of a symbol counts, and a symbol without one keeps its user value. */
  lemma {:induction false} LoadedLaw(c: Config, u: Users, settings: seq<(SymName, string)>, s: SymName)
    requires s in c.syms
    ensures var u' := Loaded(c, u, settings);
            && (forall i: nat :: LastSets(c, settings, s, i) ==> s in u'.sym && u'.sym[s] == settings[i].1)
            && (NothingSets(c, settings, s) ==>
                  (s in u'.sym <==> s in u.sym) && (s in u.sym ==> u'.sym[s] == u.sym[s]))
    decreases settings
  {
    hide Accepts, Assigned;
    if settings != [] {
      var (t, v) := settings[0];
      var u1 := if t in c.syms then Assigned(c, u, t, v) else u;
      LoadedLaw(c, u1, settings[1..], s);
      if t in c.syms { AssignedLaw(c, u, t, v); }
      assert forall j :: 0 <= j < |settings| - 1 ==> settings[1..][j] == settings[j + 1];
      forall i: nat | LastSets(c, settings, s, i)
        ensures s in Loaded(c, u, settings).sym && Loaded(c, u, settings).sym[s] == settings[i].1
      {
        if i > 0 {
          assert LastSets(c, settings[1..], s, i - 1);
        } else {
          assert NothingSets(c, settings[1..], s);
        }
      }
    }
  }

  /** The setting at position `i` is the last one that decides about the choice `k`. */
  predicate LastChooses(c: Config, settings: seq<(SymName, string)>, k: ChoiceId, i: nat) {
    i < |settings| && Chooses(c, settings[i], k) && forall j :: i < j < |settings| ==> !Chooses(c, settings[j], k)
  }

  predicate Chooses(c: Config, e: (SymName, string), k: ChoiceId) {
    e.0 in c.syms && MemberOf(c, e.0, k) && Accepts(c, e.0, e.1) && (e.1 == "y" || e.1 == "m")
  }

  /** Of several members set to "y" or "m" in a file, the last one decides. */
  lemma {:induction false} LoadedChoiceLaw(c: Config, u: Users, settings: seq<(SymName, string)>, k: ChoiceId)
    ensures var u' := Loaded(c, u, settings);
            && (forall i: nat :: LastChooses(c, settings, k, i) ==>
                  if settings[i].1 == "y" then k in u'.sel && u'.sel[k] == settings[i].0 && k in u'.mode
                      && u'.mode[k] == Y
                  else k !in u'.sel && k in u'.mode && u'.mode[k] == M)
            && ((forall j :: 0 <= j < |settings| ==> !Chooses(c, settings[j], k)) ==> SameChoice(u, u', k))
    decreases settings
  {
    hide Accepts, Assigned, MemberOf;
    if settings != [] {
      var (t, v) := settings[0];
      var u1 := if t in c.syms then Assigned(c, u, t, v) else u;
      LoadedChoiceLaw(c, u1, settings[1..], k);
      FirstChooses(c, u, settings[0], k);
      assert forall j :: 0 <= j < |settings| - 1 ==> settings[1..][j] == settings[j + 1];
      hide Chooses;
      forall i: nat | LastChooses(c, settings, k, i) ensures i > 0 ==> LastChooses(c, settings[1..], k, i - 1) {
      }
    }
  }

  lemma FirstChooses(c: Config, u: Users, e: (SymName, string), k: ChoiceId)
    ensures var u' := if e.0 in c.syms then Assigned(c, u, e.0, e.1) else u;
            if !Chooses(c, e, k) then SameChoice(u, u', k)
            else if e.1 == "y" then k in u'.sel && u'.sel[k] == e.0 && k in u'.mode && u'.mode[k] == Y
            else k !in u'.sel && k in u'.mode && u'.mode[k] == M
  {
    if e.0 in c.syms { AssignedLaw(c, u, e.0, e.1); }
    hide Assigned;
    if e.0 in c.syms && Accepts(c, e.0, e.1) && MemberOf(c, e.0, k) && e.1 != "y" && e.1 != "m" { assert e.1 == "n"; }
  }
}
