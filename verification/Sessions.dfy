/** Whole runs: any sequence of assignments, removals, loads and queries gets the answers that recomputation
    without caches would give, as long as caches are right when something is asked, and apart from the few
    visibilities that stay as they were when first asked for. */
module Sessions {
  import opened Wrappers
  import opened Tristate
  import opened Expressions
  import opened Configuration
  import opened Recomputation
  import opened Evaluability
  import opened Dependencies
  import opened SymbolCache

  datatype Op =
    | Set(s: SymName, v: string)
    | Unset(s: SymName)
    | UnsetAll
    | Load(replace: bool, settings: seq<(SymName, string)>)
    | AskValue(s: SymName)
    | AskVisibility(s: SymName)
    | AskChoiceVisibility(k: ChoiceId)
    | AskMode(k: ChoiceId)
    | AskSelection(k: ChoiceId)

  datatype Answer = Done | Value(text: string) | Level(level: Tri) | Member(sel: Option<SymName>)

  /** All that later answers depend on: the user values, and the visibilities cached for good. */
  datatype Session = Session(u: Users, p: Pins)

  const START := Session(NOBODY, Pins(map[], map[]))

  /** The operation names existing items. */
  ghost predicate Known(c: Config, op: Op) {
    match op
    case Set(s, _) => s in c.syms
    case Unset(s) => s in c.syms
    case UnsetAll => true
    case Load(_, _) => true
    case AskValue(s) => s in c.syms
    case AskVisibility(s) => s in c.syms
    case AskChoiceVisibility(k) => k in c.choices
    case AskMode(k) => k in c.choices
    case AskSelection(k) => k in c.choices
  }

  /** The user values after an operation. */
  ghost function UsersAfter(c: Config, u: Users, op: Op): Users
    requires Known(c, op)
  {
    match op
    case Set(s, v) => Assigned(c, u, s, v)
    case Unset(s) => Unassigned(c, u, s)
    case UnsetAll => NOBODY
    case Load(replace, settings) => Loaded(c, if replace then NOBODY else u, settings)
    case _ => u
  }

  /** The visibilities cached for good after an operation. */
  ghost function PinsAfter(c: Config, x: Ctx, p: Pins, op: Op): Pins
    requires Closed(c) && Known(c, op)
  {
    match op
    case AskVisibility(s) => PinSym(c, x, p, s)
    case AskChoiceVisibility(k) => PinChoice(c, x, p, k)
    case AskMode(k) => PinChoice(c, x, p, k)
    case AskSelection(k) => PinChoice(c, x, p, k)
    case _ => p
  }

  ghost function After(c: Config, rank: map<SymName, nat>, st: Session, op: Op): Session
    requires Model(c, rank) && UsersOk(c, st.u) && Known(c, op)
  {
    ClosedModel(c, rank);
    Session(UsersAfter(c, st.u, op), PinsAfter(c, World(c, rank, st.u), st.p, op))
  }

  lemma AfterOk(c: Config, rank: map<SymName, nat>, u: Users, op: Op)
    requires Model(c, rank) && UsersOk(c, u) && Known(c, op)
    ensures UsersOk(c, UsersAfter(c, u, op))
  {
    hide Model, Closed, UsersOk, Assigned, Unassigned, Loaded, DiffersAt;
    ClosedModel(c, rank);
    NobodyOk(c);
    match op
    case Set(s, v) => AssignedOk(c, u, s, v);
    case Unset(s) => UnassignedOk(c, u, s);
    case Load(replace, settings) => LoadedOk(c, if replace then NOBODY else u, settings);
    case _ =>
  }

  lemma {:induction false} LoadedOk(c: Config, u: Users, settings: seq<(SymName, string)>)
    requires Closed(c) && UsersOk(c, u)
    ensures UsersOk(c, Loaded(c, u, settings))
    decreases settings
  {
    hide Closed, UsersOk, Assigned;
    if settings != [] {
      var (s, v) := settings[0];
      if s in c.syms { AssignedOk(c, u, s, v); }
      LoadedOk(c, if s in c.syms then Assigned(c, u, s, v) else u, settings[1..]);
    }
  }

  // ---------- operations that leave right caches ----------

  /** The user values for which all caches were last known to be right, and what was dropped since. */
  datatype Base = Base(u: Users, dropped: set<SymName>)

  predicate IsQuery(op: Op) {
    !op.Set? && !op.Unset? && !op.UnsetAll? && !op.Load?
  }

  /** The symbols whose caches an operation drops. */
  ghost function Drops(c: Config, rank: map<SymName, nat>, op: Op): set<SymName>
    requires Model(c, rank) && Known(c, op)
  {
    match op
    case Set(s, _) => if s == MODULES then c.syms.Keys else ConeOf(c, rank, s)
    case Unset(s) => ConeOf(c, rank, s)
    case UnsetAll => c.syms.Keys
    case Load(_, _) => c.syms.Keys
    case _ => {}
  }

  /** Nothing has changed since that was not dropped, so that all caches are right. */
  ghost predicate Clean(c: Config, rank: map<SymName, nat>, b: Base, u: Users)
    requires Model(c, rank) && UsersOk(c, b.u) && UsersOk(c, u)
  {
    KeepsRest(c, rank, b.u, u, b.dropped)
  }

  ghost function BaseAfter(c: Config, rank: map<SymName, nat>, b: Base, u: Users, op: Op): Base
    requires Model(c, rank) && Known(c, op)
  {
    if IsQuery(op) then Base(u, {}) else Base(b.u, b.dropped + Drops(c, rank, op))
  }

  /** The operation changes nothing that it does not drop. */
  ghost predicate Harmless(c: Config, rank: map<SymName, nat>, u: Users, op: Op)
    requires Model(c, rank) && UsersOk(c, u) && Known(c, op)
  {
    AfterOk(c, rank, u, op);
    IsQuery(op) || KeepsRest(c, rank, u, UsersAfter(c, u, op), Drops(c, rank, op))
  }

  /** Harmless operations keep clean what is clean. */
  lemma StaysClean(c: Config, rank: map<SymName, nat>, b: Base, u: Users, op: Op)
    requires Model(c, rank) && UsersOk(c, b.u) && UsersOk(c, u) && Known(c, op) && UsersOk(c, UsersAfter(c, u, op))
    requires Clean(c, rank, b, u) && Harmless(c, rank, u, op)
    ensures var b' := BaseAfter(c, rank, b, u, op); UsersOk(c, b'.u) && Clean(c, rank, b', UsersAfter(c, u, op))
  {
    hide Model, UsersOk, KeepsRest, Drops;
    if IsQuery(op) {
      NothingChanged(c, rank, u, {});
    } else {
      KeptTwice(c, rank, b.u, u, UsersAfter(c, u, op), b.dropped, Drops(c, rank, op));
    }
  }

  /** Operations that drop everything make the caches right, whatever was before. */
  lemma Repairs(c: Config, rank: map<SymName, nat>, b: Base, u: Users, op: Op)
    requires Model(c, rank) && UsersOk(c, b.u) && UsersOk(c, u) && Known(c, op) && UsersOk(c, UsersAfter(c, u, op))
    requires op.UnsetAll? || op.Load? || (op.Set? && op.s == MODULES)
    ensures Clean(c, rank, BaseAfter(c, rank, b, u, op), UsersAfter(c, u, op))
    ensures Harmless(c, rank, u, op)
  {
    hide Model, UsersOk, KeepsRest, UsersAfter;
    AllDropped(c, rank, b.u, UsersAfter(c, u, op), b.dropped + c.syms.Keys);
    AllDropped(c, rank, u, UsersAfter(c, u, op), c.syms.Keys);
  }

  /** So does undoing what was done, as long as nothing is asked in between. */
  lemma UndoneIsClean(c: Config, rank: map<SymName, nat>, b: Base)
    requires Model(c, rank) && UsersOk(c, b.u)
    ensures Clean(c, rank, b, b.u)
  {
    hide Model, UsersOk, KeepsRest;
    NothingChanged(c, rank, b.u, b.dropped);
  }

  /** It is enough that modules are not switched on or off. */
  lemma NoSwitch(c: Config, rank: map<SymName, nat>, u: Users, op: Op)
    requires Model(c, rank) && UsersOk(c, u) && Known(c, op) && UsersOk(c, UsersAfter(c, u, op))
    requires World(c, rank, u).off == World(c, rank, UsersAfter(c, u, op)).off
    ensures Harmless(c, rank, u, op)
  {
    hide Model, Closed, UsersOk, World, ConeOf, DiffersAt, KeepsRest, Assigned, Unassigned, Loaded;
    ClosedModel(c, rank);
    if op.UnsetAll? || op.Load? || (op.Set? && op.s == MODULES) { Repairs(c, rank, Base(u, {}), u, op); }
    match op
    case Set(s, v) =>
      AssignedDiffers(c, u, s, v);
      ConeKeepsRest(c, rank, u, Assigned(c, u, s, v), s);
    case Unset(s) =>
      UnassignedOk(c, u, s);
      ConeKeepsRest(c, rank, u, Unassigned(c, u, s), s);
    case _ =>
  }

  /** A check that needs no evaluation: MODULES does not depend on the assigned symbol. */
  lemma UnrelatedToModules(c: Config, rank: map<SymName, nat>, u: Users, op: Op)
    requires Model(c, rank) && UsersOk(c, u) && Known(c, op)
    requires op.Set? || op.Unset? ==> (op.Set? && op.s == MODULES) || MODULES !in ConeOf(c, rank, op.s)
    ensures Harmless(c, rank, u, op)
  {
    hide Model, Closed, UsersOk, World, ConeOf, DiffersAt, KeepsRest, Assigned, Unassigned, Loaded;
    AfterOk(c, rank, u, op);
    ClosedModel(c, rank);
    if op.UnsetAll? || op.Load? || (op.Set? && op.s == MODULES) { Repairs(c, rank, Base(u, {}), u, op); }
    match op
    case Set(s, v) =>
      if s != MODULES {
        AssignedDiffers(c, u, s, v);
        ModulesStay(c, rank, u, Assigned(c, u, s, v), s);
        NoSwitch(c, rank, u, op);
      }
    case Unset(s) =>
      UnassignedOk(c, u, s);
      ModulesStay(c, rank, u, Unassigned(c, u, s), s);
      NoSwitch(c, rank, u, op);
    case _ =>
  }

  /** Removing the user value of MODULES: modules are not switched exactly when MODULES is "y" now and would be
      without its user value, or is "y" in neither case. Both values can be computed before the call. */
  lemma UnsetModulesSwitches(c: Config, rank: map<SymName, nat>, u: Users)
    requires Closed(c) && Model(c, rank) && UsersOk(c, u) && MODULES in c.syms && UsersOk(c, Unassigned(c, u, MODULES))
    ensures World(c, rank, u).off == World(c, rank, Unassigned(c, u, MODULES)).off <==>
            (Configuration.Value(c, World(c, rank, u), u, MODULES).text == "y" <==>
             Configuration.Value(c, World(c, rank, u), Unassigned(c, u, MODULES), MODULES).text == "y")
  {
    var u' := Unassigned(c, u, MODULES);
    UnassignedOk(c, u, MODULES);
    Fixpoint(c, rank, u, MODULES);
    Fixpoint(c, rank, u', MODULES);
    UnsetModulesValue(c, rank, u);
    hide Model, Closed, UsersOk, Configuration.Value, Unassigned, Val;
  }

  lemma UnsetModulesValue(c: Config, rank: map<SymName, nat>, u: Users)
    requires Closed(c) && Model(c, rank) && UsersOk(c, u) && MODULES in c.syms && UsersOk(c, Unassigned(c, u, MODULES))
    ensures var u' := Unassigned(c, u, MODULES);
            Configuration.Value(c, World(c, rank, u), u', MODULES) ==
                Configuration.Value(c, World(c, rank, u'), u', MODULES)
  {
    var u' := Unassigned(c, u, MODULES);
    var x, x' := World(c, rank, u), World(c, rank, u');
    UnassignedOk(c, u, MODULES);
    WorldFacts(c, rank, u);
    ModulesAlike(c, rank, u, u');
    hide Closed, UsersOk, DiffersAt, World, DirectInputs, Quiet, Unassigned, Configuration.Value;
    if c.syms[MODULES].special.None? {
      assert Quiet(c, MODULES);
      ModulesAlone(c);
      QuietValue(c, x, x'.off, u', MODULES);
      FreeFrame(c, x.(off := x'.off), x', u', u', MODULES);
    } else {
      FixedValue(c, u', MODULES);
    }
  }

  lemma FixedValue(c: Config, u: Users, s: SymName)
    requires Closed(c) && UsersOk(c, u) && s in c.syms && c.syms[s].special.Some?
    ensures forall x :: Configuration.Value(c, x, u, s) == Outcome(c.syms[s].special.value, false)
  {
  }

  lemma ModulesAlone(c: Config)
    requires MODULES in c.syms && Quiet(c, MODULES)
    ensures c.syms[MODULES].choice.None?
  {
  }

  /** What MODULES is computed from does not change with its user value. */
  lemma ModulesAlike(c: Config, rank: map<SymName, nat>, u: Users, u': Users)
    requires Model(c, rank) && UsersOk(c, u) && UsersOk(c, u') && MODULES in c.syms && DiffersAt(c, u, u', MODULES)
    ensures var x, x' := World(c, rank, u), World(c, rank, u'); Alike(x.(off := x'.off), x', DirectInputs(c, MODULES))
  {
    hide Model, Closed, UsersOk, DiffersAt, DirectInputs, AllVals;
    forall n | n in DirectInputs(c, MODULES) ensures Look(AllVals(c, rank, u), n) == Look(AllVals(c, rank, u'), n) {
      OwnInputStable(c, rank, u, u', MODULES, n);
    }
  }

  /** A visibility cached for good is still right after an operation exactly when it did not change; it does
      not if the symbol is outside the cone and modules are not switched. */
  lemma PinnedStillRight(c: Config, rank: map<SymName, nat>, u: Users, u': Users, p: Pins, s: SymName, t: SymName)
    requires Closed(c) && Model(c, rank) && UsersOk(c, u) && UsersOk(c, u') && s in c.syms && DiffersAt(c, u, u', s)
    requires IsSpecial(c, t) && t in p.syms && p.syms[t] == Vis(c, World(c, rank, u), t)
    ensures ShownVis(c, World(c, rank, u'), p, t) == Vis(c, World(c, rank, u'), t) <==>
            Vis(c, World(c, rank, u), t) == Vis(c, World(c, rank, u'), t)
    ensures t !in ConeOf(c, rank, s) && World(c, rank, u).off == World(c, rank, u').off ==>
            ShownVis(c, World(c, rank, u'), p, t) == Vis(c, World(c, rank, u'), t)
  {
    hide Model, Closed, UsersOk, DiffersAt, World, ConeOf, Vis;
    if t !in ConeOf(c, rank, s) && World(c, rank, u).off == World(c, rank, u').off {
      RestOutsideCone(c, rank, u, u', s, t);
    }
  }

  /** The same for a choice without members, which is in no cone: its visibility does not change if the cone
      has none of the symbols its prompts and defaults mention and modules are not switched. */
  lemma OrphanStillRight(c: Config, rank: map<SymName, nat>, u: Users, u': Users, p: Pins, s: SymName, k: ChoiceId)
    requires Closed(c) && Model(c, rank) && UsersOk(c, u) && UsersOk(c, u') && s in c.syms && DiffersAt(c, u, u', s)
    requires IsOrphan(c, k) && k in p.choices && p.choices[k] == ChoiceVis(c, World(c, rank, u), k)
    ensures ShownChoiceVis(c, World(c, rank, u'), p, k) == ChoiceVis(c, World(c, rank, u'), k) <==>
            ChoiceVis(c, World(c, rank, u), k) == ChoiceVis(c, World(c, rank, u'), k)
    ensures ChoiceInputs(c.choices[k]) !! ConeOf(c, rank, s) && World(c, rank, u).off == World(c, rank, u').off ==>
            ShownChoiceVis(c, World(c, rank, u'), p, k) == ChoiceVis(c, World(c, rank, u'), k)
  {
    if ChoiceInputs(c.choices[k]) !! ConeOf(c, rank, s) && World(c, rank, u).off == World(c, rank, u').off {
      MentionedOutsideCone(c, rank, u, u', s, k);
    }
    hide Model, Closed, UsersOk, DiffersAt, World, ConeOf, ChoiceVis;
  }

  // ---------- answers ----------

  /** The answer to one operation, recomputed from the session alone. */
  ghost function Answered(c: Config, rank: map<SymName, nat>, st: Session, op: Op): Answer
    requires Model(c, rank) && UsersOk(c, st.u) && Known(c, op)
  {
    ClosedModel(c, rank);
    AnsweredIn(c, World(c, rank, st.u), st, op)
  }

  ghost function AnsweredIn(c: Config, x: Ctx, st: Session, op: Op): Answer
    requires Closed(c) && UsersOk(c, st.u) && Known(c, op)
  {
    match op
    case AskValue(s) => Value(Configuration.Value(c, x, st.u, s).text)
    case AskVisibility(s) => Level(ShownVis(c, x, st.p, s))
    case AskChoiceVisibility(k) => Level(ShownChoiceVis(c, x, st.p, k))
    case AskMode(k) => Level(ModeAt(c, x, st.u, k, ShownChoiceVis(c, x, st.p, k)))
    case AskSelection(k) => Member(Selection(c, x, st.u, k))
    case _ => Done
  }

  /** For ordinary symbols and choices with members nothing is cached for good. */
  lemma OrdinaryAnswers(c: Config, x: Ctx, st: Session, op: Op)
    requires Closed(c) && UsersOk(c, st.u) && Known(c, op)
    ensures op.AskVisibility? && !IsSpecial(c, op.s) ==> AnsweredIn(c, x, st, op) == Level(Vis(c, x, op.s))
    ensures op.AskChoiceVisibility? && Populated(c, op.k) ==> AnsweredIn(c, x, st, op) == Level(ChoiceVis(c, x, op.k))
    ensures op.AskMode? && Populated(c, op.k) ==> AnsweredIn(c, x, st, op) == Level(Mode(c, x, st.u, op.k))
  {
  }

  /** All names exist, and whenever something is asked, nothing has changed since the last question that was
      not dropped. Assignments, removals and loads are not restricted. */
  ghost predicate Admissible(c: Config, rank: map<SymName, nat>, b: Base, u: Users, ops: seq<Op>)
    requires Model(c, rank) && UsersOk(c, b.u) && UsersOk(c, u)
    decreases |ops|
  {
    ops == [] ||
    (Known(c, ops[0]) && (IsQuery(ops[0]) ==> Clean(c, rank, b, u)) &&
     (AfterOk(c, rank, u, ops[0]);
      Admissible(c, rank, BaseAfter(c, rank, b, u, ops[0]), UsersAfter(c, u, ops[0]), ops[1..])))
  }

  ghost predicate AllHarmless(c: Config, rank: map<SymName, nat>, u: Users, ops: seq<Op>)
    requires Model(c, rank) && UsersOk(c, u)
    decreases |ops|
  {
    ops == [] ||
    (Known(c, ops[0]) && Harmless(c, rank, u, ops[0]) &&
     (AfterOk(c, rank, u, ops[0]); AllHarmless(c, rank, UsersAfter(c, u, ops[0]), ops[1..])))
  }

  /** Anything may be asked at any time if no operation is harmful. */
  lemma {:induction false} HarmlessRun(c: Config, rank: map<SymName, nat>, b: Base, u: Users, ops: seq<Op>)
    requires Model(c, rank) && UsersOk(c, b.u) && UsersOk(c, u)
    requires Clean(c, rank, b, u) && AllHarmless(c, rank, u, ops)
    ensures Admissible(c, rank, b, u, ops)
    decreases |ops|
  {
    hide Model, UsersOk, Clean, Harmless, BaseAfter, UsersAfter;
    if ops != [] {
      AfterOk(c, rank, u, ops[0]);
      StaysClean(c, rank, b, u, ops[0]);
      HarmlessRun(c, rank, BaseAfter(c, rank, b, u, ops[0]), UsersAfter(c, u, ops[0]), ops[1..]);
    }
  }

  ghost predicate AllKnown(c: Config, ops: seq<Op>) {
    forall i :: 0 <= i < |ops| ==> Known(c, ops[i])
  }

  ghost function Answers(c: Config, rank: map<SymName, nat>, st: Session, ops: seq<Op>): seq<Answer>
    requires Model(c, rank) && UsersOk(c, st.u) && AllKnown(c, ops)
    decreases |ops|
  {
    if ops == [] then []
    else
      AfterOk(c, rank, st.u, ops[0]);
      [Answered(c, rank, st, ops[0])] + Answers(c, rank, After(c, rank, st, ops[0]), ops[1..])
  }

  lemma {:induction false} AdmissibleKnown(c: Config, rank: map<SymName, nat>, b: Base, u: Users, ops: seq<Op>)
    requires Model(c, rank) && UsersOk(c, b.u) && UsersOk(c, u) && Admissible(c, rank, b, u, ops)
    ensures AllKnown(c, ops)
    decreases |ops|
  {
    hide Model, UsersOk, Clean, UsersAfter, Known, Drops;
    if ops != [] {
      AfterOk(c, rank, u, ops[0]);
      AdmissibleKnown(c, rank, BaseAfter(c, rank, b, u, ops[0]), UsersAfter(c, u, ops[0]), ops[1..]);
      assert forall i :: 1 <= i < |ops| ==> ops[i] == ops[1..][i - 1];
    }
  }

  method QuerySymbol(kc: Kconfig, op: Op) returns (answer: Answer)
    requires kc.Fresh() && Known(kc.c, op)
    requires op.AskValue? || op.AskVisibility?
    modifies kc`pinned, kc.syms.Values`cachedVal, kc.syms.Values`cachedVis, kc.syms.Values`writeToConf
    modifies kc.chs.Values`cachedVis, kc.chs.Values`cachedSelection
    ensures kc.Fresh()
    ensures answer == AnsweredIn(kc.c, World(kc.c, kc.rank, kc.U()), Session(kc.U(), old(kc.pinned)), op)
    ensures kc.pinned == PinsAfter(kc.c, World(kc.c, kc.rank, kc.U()), old(kc.pinned), op)
  {
    hide Model, Closed, UsersOk, World, ShownVis, ShownChoiceVis, ModeAt, Selection, Configuration.Value, PinSym,
         PinChoice;
    hide Kconfig.Coherent, Kconfig.Linked, Kconfig.U, Kconfig.Snapshot, Kconfig.Static, Populated;
    kc.FreshParts();
    ghost var u := kc.U();
    ghost var x := World(kc.c, kc.rank, u);
    if op.AskValue? {
      var v := kc.GetValue(op.s, u, x);
      answer := Value(v);
    } else {
      var t := kc.GetVisibility(op.s, u, x);
      answer := Level(t);
    }
  }

  method QueryChoice(kc: Kconfig, op: Op) returns (answer: Answer)
    requires kc.Fresh() && Known(kc.c, op)
    requires op.AskChoiceVisibility? || op.AskMode?
    modifies kc`pinned, kc.syms.Values`cachedVal, kc.syms.Values`cachedVis, kc.syms.Values`writeToConf
    modifies kc.chs.Values`cachedVis, kc.chs.Values`cachedSelection
    ensures kc.Fresh()
    ensures answer == AnsweredIn(kc.c, World(kc.c, kc.rank, kc.U()), Session(kc.U(), old(kc.pinned)), op)
    ensures kc.pinned == PinsAfter(kc.c, World(kc.c, kc.rank, kc.U()), old(kc.pinned), op)
  {
    hide Model, Closed, UsersOk, World, ShownVis, ShownChoiceVis, ModeAt, Selection, Configuration.Value, PinSym,
         PinChoice;
    hide Kconfig.Coherent, Kconfig.Linked, Kconfig.U, Kconfig.Snapshot, Kconfig.Static, Populated;
    kc.FreshParts();
    ghost var u := kc.U();
    ghost var x := World(kc.c, kc.rank, u);
    if op.AskMode? {
      var t := kc.GetMode(op.k, u, x);
      answer := Level(t);
    } else {
      var t := kc.GetChoiceVisibility(op.k, u, x);
      answer := Level(t);
    }
  }

  method QuerySelection(kc: Kconfig, op: Op) returns (answer: Answer)
    requires kc.Fresh() && Known(kc.c, op)
    requires op.AskSelection?
    modifies kc`pinned, kc.syms.Values`cachedVal, kc.syms.Values`cachedVis, kc.syms.Values`writeToConf
    modifies kc.chs.Values`cachedVis, kc.chs.Values`cachedSelection
    ensures kc.Fresh()
    ensures answer == AnsweredIn(kc.c, World(kc.c, kc.rank, kc.U()), Session(kc.U(), old(kc.pinned)), op)
    ensures kc.pinned == PinsAfter(kc.c, World(kc.c, kc.rank, kc.U()), old(kc.pinned), op)
  {
    hide Model, Closed, UsersOk, World, ShownVis, ShownChoiceVis, ModeAt, Selection, Configuration.Value, PinSym,
         PinChoice;
    hide Kconfig.Coherent, Kconfig.Linked, Kconfig.U, Kconfig.Snapshot, Kconfig.Static, Populated;
    kc.FreshParts();
    ghost var u := kc.U();
    ghost var x := World(kc.c, kc.rank, u);
    var sel := kc.GetSelection(op.k, u, x);
    answer := Member(sel);
  }

  method Query(kc: Kconfig, op: Op) returns (answer: Answer)
    requires kc.Fresh() && Known(kc.c, op)
    requires op.AskValue? || op.AskVisibility? || op.AskChoiceVisibility? || op.AskMode? || op.AskSelection?
    modifies kc`pinned, kc.syms.Values`cachedVal, kc.syms.Values`cachedVis, kc.syms.Values`writeToConf
    modifies kc.chs.Values`cachedVis, kc.chs.Values`cachedSelection
    ensures kc.Fresh()
    ensures answer == AnsweredIn(kc.c, World(kc.c, kc.rank, kc.U()), Session(kc.U(), old(kc.pinned)), op)
    ensures kc.pinned == PinsAfter(kc.c, World(kc.c, kc.rank, kc.U()), old(kc.pinned), op)
  {
    hide Model, Closed, UsersOk, World, ShownVis, ShownChoiceVis, ModeAt, Selection, Configuration.Value, PinSym,
         PinChoice;
    hide Kconfig.Coherent, Kconfig.Linked, Kconfig.U, Kconfig.Snapshot, Kconfig.Static, Populated, Kconfig.Fresh, Known,
         AnsweredIn, PinsAfter;
    if op.AskValue? || op.AskVisibility? {
      answer := QuerySymbol(kc, op);
    } else if op.AskSelection? {
      answer := QuerySelection(kc, op);
    } else {
      answer := QueryChoice(kc, op);
    }
  }

  ghost function SessionOf(kc: Kconfig): Session
    reads kc`pinned, kc.syms.Values`userVal, kc.chs.Values`userVal, kc.chs.Values`userMode
  {
    Session(kc.U(), kc.pinned)
  }

  /** One operation on caches that were right for `b.u`. Questions need clean caches and leave right ones.
      After any other operation the caches are right if they are clean, and only then if they were full. */
  method Perform(kc: Kconfig, op: Op, ghost q: Caches, ghost b: Base) returns (answer: Answer)
    requires kc.Since(q, b.u, b.dropped) && Known(kc.c, op)
    requires IsQuery(op) ==> Clean(kc.c, kc.rank, b, kc.U())
    modifies kc`pinned, kc.syms.Values, kc.chs.Values
    ensures UsersOk(kc.c, kc.U()) && SessionOf(kc) == After(kc.c, kc.rank, old(SessionOf(kc)), op)
    ensures answer == Answered(kc.c, kc.rank, old(SessionOf(kc)), op)
    ensures IsQuery(op) ==> kc.Fresh()
    ensures !IsQuery(op) ==>
              var b' := BaseAfter(kc.c, kc.rank, b, old(kc.U()), op);
              && kc.Since(q, b'.u, b'.dropped)
              && (Clean(kc.c, kc.rank, b', kc.U()) ==> kc.Fresh())
              && (kc.Full(q) && kc.Fresh() ==> Clean(kc.c, kc.rank, b', kc.U()))
  {
    hide Model, Closed, UsersOk, World, UsersAfter, PinsAfter, AnsweredIn, KeepsRest, Drops, Known;
    hide Kconfig.Since, Kconfig.Fresh, Kconfig.U, Kconfig.Snapshot, Kconfig.Static, Kconfig.Full, Kconfig.Linked;
    Parts(kc, q, b);
    if IsQuery(op) {
      kc.FreshSince(q, b.u, b.dropped);
      OnlyAsked(kc, op);
      answer := Query(kc, op);
    } else {
      NotAsked(kc, op);
      Mutate(kc, op, q, b);
      Parts(kc, q, Base(b.u, b.dropped + Drops(kc.c, kc.rank, op)));
      answer := Done;
    }
  }

  lemma Parts(kc: Kconfig, q: Caches, b: Base)
    requires kc.Since(q, b.u, b.dropped)
    ensures Closed(kc.c) && Model(kc.c, kc.rank) && UsersOk(kc.c, kc.U()) && UsersOk(kc.c, b.u)
    ensures kc.Static()
  {
  }

  lemma OnlyAsked(kc: Kconfig, op: Op)
    requires Known(kc.c, op) && IsQuery(op)
    ensures forall u :: UsersAfter(kc.c, u, op) == u
  {
  }

  /** Apart from questions, nothing is pinned and nothing answered. */
  lemma NotAsked(kc: Kconfig, op: Op)
    requires Closed(kc.c) && Model(kc.c, kc.rank) && UsersOk(kc.c, kc.U()) && Known(kc.c, op) && !IsQuery(op)
    ensures forall x, p :: PinsAfter(kc.c, x, p, op) == p
    ensures forall x, st: Session :: UsersOk(kc.c, st.u) ==> AnsweredIn(kc.c, x, st, op) == Done
  {
    hide Model, Closed, UsersOk, World;
  }

  method Mutate(kc: Kconfig, op: Op, ghost q: Caches, ghost b: Base)
    requires kc.Since(q, b.u, b.dropped) && Known(kc.c, op) && !IsQuery(op)
    modifies kc.syms.Values, kc.chs.Values
    ensures kc.U() == UsersAfter(kc.c, old(kc.U()), op)
    ensures kc.Since(q, b.u, b.dropped + Drops(kc.c, kc.rank, op))
    ensures KeepsRest(kc.c, kc.rank, b.u, kc.U(), b.dropped + Drops(kc.c, kc.rank, op)) ==> kc.Fresh()
    ensures kc.Full(q) && kc.Fresh() ==>
              KeepsRest(kc.c, kc.rank, b.u, kc.U(), b.dropped + Drops(kc.c, kc.rank, op))
  {
    hide Model, Closed, UsersOk, World, Assigned, Unassigned, Loaded, KeepsRest, ConeOf;
    hide Kconfig.Since, Kconfig.Fresh, Kconfig.U, Kconfig.Snapshot, Kconfig.Static, Kconfig.Full, Kconfig.Linked;
    Parts(kc, q, b);
    match op {
      case Set(s, v) => kc.SetUserValue(s, v, q, b.u, b.dropped);
      case Unset(s) => kc.UnsetUserValue(s, q, b.u, b.dropped);
      case UnsetAll => kc.UnsetUserValues(q, b.u, b.dropped);
      case Load(replace, settings) => kc.LoadConfig(replace, settings, q, b.u, b.dropped);
      case _ =>
    }
    Parts(kc, q, Base(b.u, b.dropped + Drops(kc.c, kc.rank, op)));
    if op.UnsetAll? || op.Load? { AllDropped(kc.c, kc.rank, b.u, kc.U(), b.dropped + kc.c.syms.Keys); }
  }

  /** The same, keeping track of since when the caches are as they are. */
  method Next(kc: Kconfig, op: Op, ghost q: Caches, ghost b: Base)
    returns (answer: Answer, ghost q': Caches, ghost b': Base)
    requires kc.Since(q, b.u, b.dropped) && Known(kc.c, op)
    requires IsQuery(op) ==> Clean(kc.c, kc.rank, b, kc.U())
    modifies kc`pinned, kc.syms.Values, kc.chs.Values
    ensures UsersOk(kc.c, kc.U()) && SessionOf(kc) == After(kc.c, kc.rank, old(SessionOf(kc)), op)
    ensures answer == Answered(kc.c, kc.rank, old(SessionOf(kc)), op)
    ensures b' == BaseAfter(kc.c, kc.rank, b, old(kc.U()), op) && kc.Since(q', b'.u, b'.dropped)
  {
    hide Model, Closed, UsersOk, UsersAfter, PinsAfter, Clean, Answered, Known;
    hide Kconfig.Since, Kconfig.Fresh, Kconfig.U, Kconfig.Snapshot, Kconfig.Static, Kconfig.Full, Kconfig.Linked;
    Parts(kc, q, b);
    if IsQuery(op) { OnlyAsked(kc, op); }
    answer := Perform(kc, op, q, b);
    b' := BaseAfter(kc.c, kc.rank, b, old(kc.U()), op);
    if IsQuery(op) {
      kc.SinceNow();
      q' := kc.Snapshot();
    } else {
      q' := q;
    }
  }

  ghost function LastBase(c: Config, rank: map<SymName, nat>, b: Base, u: Users, ops: seq<Op>): Base
    requires Model(c, rank) && UsersOk(c, u) && AllKnown(c, ops)
    decreases |ops|
  {
    if ops == [] then b
    else
      AfterOk(c, rank, u, ops[0]);
      LastBase(c, rank, BaseAfter(c, rank, b, u, ops[0]), UsersAfter(c, u, ops[0]), ops[1..])
  }

  /** Over every run, in which caches need to be right only when something is asked, every answer is the one
      recomputed from the session of that moment. At the end the caches are right if they are clean. */
  method Run(kc: Kconfig, ops: seq<Op>, ghost q: Caches, ghost b: Base)
    returns (answers: seq<Answer>, ghost q': Caches, ghost b': Base)
    requires kc.Since(q, b.u, b.dropped) && UsersOk(kc.c, b.u)
    requires Model(kc.c, kc.rank) && UsersOk(kc.c, kc.U()) && Admissible(kc.c, kc.rank, b, kc.U(), ops)
    modifies kc`pinned, kc.syms.Values, kc.chs.Values
    ensures AllKnown(kc.c, ops) && answers == Answers(kc.c, kc.rank, old(SessionOf(kc)), ops)
    ensures b' == LastBase(kc.c, kc.rank, b, old(kc.U()), ops) && kc.Since(q', b'.u, b'.dropped)
    ensures UsersOk(kc.c, b'.u) && UsersOk(kc.c, kc.U()) && (Clean(kc.c, kc.rank, b', kc.U()) ==> kc.Fresh())
  {
    hide Model, Closed, UsersOk, UsersAfter, PinsAfter, BaseAfter, Answered, Known, IsQuery, KeepsRest, Clean, Drops;
    hide Kconfig.Since, Kconfig.Fresh, Kconfig.U, Kconfig.Snapshot, Kconfig.Static, Kconfig.Full, Kconfig.Linked;
    hide Admissible, AllKnown, LastBase, Answers, After;
    ghost var st := SessionOf(kc);
    answers, q', b' := [], q, b;
    AdmissibleKnown(kc.c, kc.rank, b, kc.U(), ops);
    for i := 0 to |ops|
      invariant kc.Since(q', b'.u, b'.dropped) && UsersOk(kc.c, kc.U()) && UsersOk(kc.c, b'.u)
      invariant Admissible(kc.c, kc.rank, b', kc.U(), ops[i..]) && AllKnown(kc.c, ops[i..])
      invariant LastBase(kc.c, kc.rank, b', kc.U(), ops[i..]) == LastBase(kc.c, kc.rank, b, st.u, ops)
      invariant Answers(kc.c, kc.rank, st, ops) == answers + Answers(kc.c, kc.rank, SessionOf(kc), ops[i..])
    {
      assert ops[i..][0] == ops[i] && ops[i..][1..] == ops[i + 1..];
      RunStep(kc.c, kc.rank, b', SessionOf(kc), ops[i..]);
      var answer;
      answer, q', b' := Next(kc, ops[i], q', b');
      answers := answers + [answer];
    }
    FreshIfClean(kc, q', b');
    NothingMore(kc.c, kc.rank, b', SessionOf(kc));
  }

  /** What remains after the first operation of a run. */
  lemma RunStep(c: Config, rank: map<SymName, nat>, b: Base, st: Session, ops: seq<Op>)
    requires Model(c, rank) && UsersOk(c, b.u) && UsersOk(c, st.u) && ops != []
    requires Admissible(c, rank, b, st.u, ops) && AllKnown(c, ops)
    ensures Known(c, ops[0]) && (IsQuery(ops[0]) ==> Clean(c, rank, b, st.u)) && AllKnown(c, ops[1..])
    ensures var st', b' := After(c, rank, st, ops[0]), BaseAfter(c, rank, b, st.u, ops[0]);
            && UsersOk(c, b'.u) && UsersOk(c, st'.u) && Admissible(c, rank, b', st'.u, ops[1..])
            && LastBase(c, rank, b, st.u, ops) == LastBase(c, rank, b', st'.u, ops[1..])
            && Answers(c, rank, st, ops) == [Answered(c, rank, st, ops[0])] + Answers(c, rank, st', ops[1..])
  {
    hide Model, UsersOk, Known, UsersAfter, PinsAfter, Clean, Answered, Drops, World;
    AfterOk(c, rank, st.u, ops[0]);
    assert forall i :: 0 <= i < |ops| - 1 ==> ops[1..][i] == ops[i + 1];
  }

  lemma NothingMore(c: Config, rank: map<SymName, nat>, b: Base, st: Session)
    requires Model(c, rank) && UsersOk(c, st.u) && AllKnown(c, [])
    ensures LastBase(c, rank, b, st.u, []) == b && Answers(c, rank, st, []) == []
  {
    hide Model, UsersOk;
  }

  lemma FreshIfClean(kc: Kconfig, q: Caches, b: Base)
    requires kc.Since(q, b.u, b.dropped)
    ensures Model(kc.c, kc.rank) && UsersOk(kc.c, kc.U()) && UsersOk(kc.c, b.u)
    ensures Clean(kc.c, kc.rank, b, kc.U()) ==> kc.Fresh()
  {
    Parts(kc, q, b);
    kc.FreshSince(q, b.u, b.dropped);
    hide Kconfig.Since, Kconfig.Fresh, KeepsRest, UsersOk;
  }

  /** A run from the start. */
  method Whole(c: Config, ghost rank: map<SymName, nat>, ops: seq<Op>) returns (answers: seq<Answer>)
    requires Model(c, rank) && UsersOk(c, NOBODY) && Admissible(c, rank, Base(NOBODY, {}), NOBODY, ops)
    ensures AllKnown(c, ops) && answers == Answers(c, rank, START, ops)
  {
    hide Model, UsersOk, Admissible, Answers, AllKnown, LastBase, Clean, Kconfig.Fresh, Kconfig.U, Kconfig.Since;
    var kc := new Kconfig(c, rank);
    kc.SinceNow();
    ghost var q, b;
    answers, q, b := Run(kc, ops, kc.Snapshot(), Base(NOBODY, {}));
  }
}
