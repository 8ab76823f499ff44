/** Symbols with their caches: evaluation that fills the caches, assignments that invalidate them. */
module SymbolCache {
  import opened Wrappers
  import opened Tristate
  import opened Expressions
  import opened Configuration
  import opened Recomputation
  import opened Evaluability
  import opened DependencyGraph
  import opened Dependencies

  class SymbolState {
    var userVal: Option<string>
    var cachedVal: Option<string>
    var cachedVis: Option<Tri>
    var writeToConf: bool
    var dep: set<SymName>
    var cachedDeps: Option<set<SymName>>

    constructor (special: Option<string>)
      ensures userVal.None? && cachedVal == special && cachedVis.None? && !writeToConf
      ensures dep == {} && cachedDeps.None?
    {
      userVal, cachedVal, cachedVis, writeToConf := None, special, None, false;
      dep, cachedDeps := {}, None;
    }
  }

  /** The outer option of `cachedSelection` says whether anything is cached at all. */
  class ChoiceState {
    var userVal: Option<SymName>
    var userMode: Option<Tri>
    var cachedSelection: Option<Option<SymName>>
    var cachedVis: Option<Tri>

    constructor ()
      ensures userVal.None? && userMode.None? && cachedSelection.None? && cachedVis.None?
    {
      userVal, userMode, cachedSelection, cachedVis := None, None, None, None;
    }
  }

  /** What is cached for a symbol, with the flag that goes with its value, and for a choice. */
  datatype SymCache = SymCache(val: Option<string>, vis: Option<Tri>, write: bool)
  datatype ChoiceCache = ChoiceCache(sel: Option<Option<SymName>>, vis: Option<Tri>)

  /** The contents of all caches. */
  datatype Caches = Caches(syms: map<SymName, SymCache>, choices: map<ChoiceId, ChoiceCache>)

  ghost predicate HasMember(c: Config, k: ChoiceId, ss: set<SymName>) {
    k in c.choices && exists m :: m in c.choices[k].members && m in ss
  }

  ghost predicate Forgets(c: Config, s: SymName, ss: set<SymName>) {
    s in ss && s in c.syms && c.syms[s].special.None?
  }

  /** The caches after invalidating the symbols in `ss`: a special symbol keeps everything, and
      invalidating a member clears its choice as well. */
  ghost function Forgotten(c: Config, q: Caches, ss: set<SymName>): Caches {
    Caches(
      map n | n in q.syms :: if Forgets(c, n, ss) then SymCache(None, None, q.syms[n].write) else q.syms[n],
      map k | k in q.choices :: if HasMember(c, k, ss) then ChoiceCache(None, None) else q.choices[k])
  }

  lemma HasMemberUnion(c: Config, k: ChoiceId, ss: set<SymName>, ts: set<SymName>)
    ensures HasMember(c, k, ss + ts) <==> HasMember(c, k, ss) || HasMember(c, k, ts)
  {
    if HasMember(c, k, ss + ts) { var m :| m in c.choices[k].members && m in ss + ts; }
    if HasMember(c, k, ss) { var m :| m in c.choices[k].members && m in ss; assert m in ss + ts; }
    if HasMember(c, k, ts) { var m :| m in c.choices[k].members && m in ts; assert m in ss + ts; }
  }

  /** Invalidation is cumulative. */
  lemma ForgetTwice(c: Config, q: Caches, ss: set<SymName>, ts: set<SymName>)
    ensures Forgotten(c, Forgotten(c, q, ss), ts) == Forgotten(c, q, ss + ts)
  {
    forall k | k in q.choices ensures HasMember(c, k, ss + ts) <==> HasMember(c, k, ss) || HasMember(c, k, ts) {
      HasMemberUnion(c, k, ss, ts);
    }
    hide HasMember;
  }

  /** Invalidating one ordinary symbol clears it and its own choice. */
  lemma ForgetOne(c: Config, q: Caches, s: SymName)
    requires s in c.syms && s in q.syms && c.syms[s].special.None?
    requires forall k :: k in q.choices ==> (HasMember(c, k, {s}) <==> c.syms[s].choice == Some(k))
    requires c.syms[s].choice.Some? ==> c.syms[s].choice.value in q.choices
    ensures Forgotten(c, q, {s}) ==
            Caches(q.syms[s := SymCache(None, None, q.syms[s].write)],
                   if c.syms[s].choice.Some? then q.choices[c.syms[s].choice.value := ChoiceCache(None, None)]
                   else q.choices)
  {
    hide HasMember;
  }

  lemma ForgetSpecial(c: Config, q: Caches, s: SymName)
    requires s in c.syms && c.syms[s].special.Some? && forall k :: k in q.choices ==> !HasMember(c, k, {s})
    ensures Forgotten(c, q, {s}) == q
  {
    hide HasMember;
  }

  /** All remaining user values belong to the symbols in `todo` or to their choices. */
  ghost predicate OnlyLeft(c: Config, u: Users, todo: set<SymName>) {
    && u.sym.Keys <= todo
    && (forall k <- u.sel :: HasMember(c, k, todo))
    && (forall k <- u.mode :: HasMember(c, k, todo))
  }

  method NewSymbols(defs: map<SymName, SymDef>) returns (ss: map<SymName, SymbolState>)
    ensures ss.Keys == defs.Keys
    ensures forall a <- ss, b <- ss :: a != b ==> ss[a] != ss[b]
    ensures forall a <- ss :: fresh(ss[a]) && ss[a].userVal.None? && ss[a].cachedVal == defs[a].special
              && ss[a].cachedVis.None? && !ss[a].writeToConf && ss[a].dep == {} && ss[a].cachedDeps.None?
  {
    ss := map[];
    var todo := defs.Keys;
    while todo != {}
      invariant todo <= defs.Keys && ss.Keys == defs.Keys - todo
      invariant forall a <- ss, b <- ss :: a != b ==> ss[a] != ss[b]
      invariant forall a <- ss :: fresh(ss[a]) && ss[a].userVal.None? && ss[a].cachedVal == defs[a].special
                  && ss[a].cachedVis.None? && !ss[a].writeToConf && ss[a].dep == {} && ss[a].cachedDeps.None?
      decreases todo
    {
      var s :| s in todo;
      var o := new SymbolState(defs[s].special);
      ss, todo := ss[s := o], todo - {s};
    }
  }

  method NewChoices(ids: set<ChoiceId>) returns (ks: map<ChoiceId, ChoiceState>)
    ensures ks.Keys == ids
    ensures forall a <- ks, b <- ks :: a != b ==> ks[a] != ks[b]
    ensures forall a <- ks :: fresh(ks[a]) && ks[a].userVal.None? && ks[a].userMode.None?
              && ks[a].cachedSelection.None? && ks[a].cachedVis.None?
  {
    ks := map[];
    var todo := ids;
    while todo != {}
      invariant todo <= ids && ks.Keys == ids - todo
      invariant forall a <- ks, b <- ks :: a != b ==> ks[a] != ks[b]
      invariant forall a <- ks :: fresh(ks[a]) && ks[a].userVal.None? && ks[a].userMode.None?
                  && ks[a].cachedSelection.None? && ks[a].cachedVis.None?
      decreases todo
    {
      var k :| k in todo;
      var o := new ChoiceState();
      ks, todo := ks[k := o], todo - {k};
    }
  }

  lemma ForgetNothing(c: Config, q: Caches)
    ensures Forgotten(c, q, {}) == q
  {
  }

  /** Asking again for something pinned pins nothing more. */
  lemma PinnedAlready(c: Config, x: Ctx, p: Pins, s: SymName, k: ChoiceId)
    ensures Closed(c) && s in c.syms && s in p.syms ==> PinSym(c, x, p, s) == p
    ensures k in c.choices && k in p.choices ==> PinChoice(c, x, p, k) == p
  {
    assert s in p.syms ==> p.syms[s := p.syms[s]] == p.syms;
    assert k in p.choices ==> p.choices[k := p.choices[k]] == p.choices;
    hide Closed, Vis, ChoiceVis;
  }

  class Kconfig {
    const c: Config
    const syms: map<SymName, SymbolState>
    const chs: map<ChoiceId, ChoiceState>
    ghost const rank: map<SymName, nat>
    /** The visibilities that nothing will ever drop from the caches. */
    ghost var pinned: Pins

    /** What never changes once the configuration is parsed. */
    ghost predicate Static() {
      && Closed(c) && Model(c, rank) && rank.Keys == c.syms.Keys
      && syms.Keys == c.syms.Keys && chs.Keys == c.choices.Keys
      && (forall a <- syms, b <- syms :: a != b ==> syms[a] != syms[b])
      && (forall a <- chs, b <- chs :: a != b ==> chs[a] != chs[b])
    }

    /** The user values currently assigned. */
    ghost function U(): Users
      reads syms.Values`userVal, chs.Values`userVal, chs.Values`userMode
    {
      Users(map s | s in syms && syms[s].userVal.Some? :: syms[s].userVal.value,
            map k | k in chs && chs[k].userVal.Some? :: chs[k].userVal.value,
            map k | k in chs && chs[k].userMode.Some? :: chs[k].userMode.value)
    }

    /** Whatever is cached for `s` equals recomputation, except that the visibility cached for a special
        symbol is the pinned one. */
    ghost predicate SymCoherent(s: SymName, u: Users, x: Ctx)
      requires Closed(c) && UsersOk(c, u) && s in c.syms && s in syms
      reads this`pinned, if s in syms then {syms[s]} else {}
    {
      var o := syms[s];
      && (c.syms[s].special.Some? ==> o.cachedVal == c.syms[s].special)
      && (c.syms[s].ty == Unknown ==> !o.writeToConf)
      && (o.cachedVal.Some? ==> o.cachedVal.value == Value(c, x, u, s).text)
      && (o.cachedVal.Some? && c.syms[s].special.None? ==> o.writeToConf == Value(c, x, u, s).write)
      && (o.cachedVis.Some? && c.syms[s].special.None? ==> o.cachedVis.value == Vis(c, x, s))
      && (c.syms[s].special.Some? ==> o.cachedVis == if s in pinned.syms then Some(pinned.syms[s]) else None)
    }

    ghost predicate ChoiceCoherent(k: ChoiceId, u: Users, x: Ctx)
      requires Closed(c) && UsersOk(c, u) && k in c.choices && k in chs
      reads this`pinned, if k in chs then {chs[k]} else {}
    {
      var o := chs[k];
      && (o.cachedVis.Some? && Populated(c, k) ==> o.cachedVis.value == ChoiceVis(c, x, k))
      && (o.cachedSelection.Some? ==> o.cachedSelection.value == Selection(c, x, u, k))
      && (!Populated(c, k) ==>
            && o.cachedVis == (if k in pinned.choices then Some(pinned.choices[k]) else None)
            && (o.cachedSelection.Some? ==> k in pinned.choices))
    }

    /** The caches agree with recomputation from the user values `u`; `x` is the resulting world. */
    ghost predicate Coherent(u: Users, x: Ctx)
      reads this`pinned, syms.Values, chs.Values
    {
      && Static() && u == U() && UsersOk(c, u) && x == World(c, rank, u)
      && (forall s <- syms :: SymCoherent(s, u, x))
      && (forall k <- chs :: ChoiceCoherent(k, u, x))
    }

    // ---------- filling a cache ----------

    lemma SymsDistinct()
      requires Static()
      ensures Closed(c)
      ensures syms.Keys == c.syms.Keys && forall a <- syms, b <- syms :: a != b ==> syms[a] != syms[b]
    {
    }

    method StoreVis(s: SymName, vis: Tri, ghost u: Users, ghost x: Ctx)
      requires Coherent(u, x) && s in c.syms && vis == Vis(c, x, s) && (IsSpecial(c, s) ==> s !in pinned.syms)
      modifies syms.Values`cachedVis, (if IsSpecial(c, s) then {this} else {})`pinned
      ensures Coherent(u, x) && syms[s].cachedVis == Some(vis) && pinned == PinSym(c, x, old(pinned), s)
    {
      hide *;
      if IsSpecial(c, s) { PinVis(s, vis, u, x); } else { StoreOrdinaryVis(s, vis, u, x); }
    }

    method StoreOrdinaryVis(s: SymName, vis: Tri, ghost u: Users, ghost x: Ctx)
      requires Coherent(u, x) && s in c.syms && vis == Vis(c, x, s) && !IsSpecial(c, s)
      modifies syms.Values`cachedVis
      ensures Coherent(u, x) && syms[s].cachedVis == Some(vis) && pinned == PinSym(c, x, pinned, s)
    {
      hide Model, Closed, UsersOk, ChoiceCoherent, World, Value, Vis;
      syms[s].cachedVis := Some(vis);
      assert SymCoherent(s, u, x);
    }

    method PinVis(s: SymName, vis: Tri, ghost u: Users, ghost x: Ctx)
      requires Coherent(u, x) && s in c.syms && vis == Vis(c, x, s) && IsSpecial(c, s) && s !in pinned.syms
      modifies syms.Values`cachedVis, this`pinned
      ensures Coherent(u, x) && syms[s].cachedVis == Some(vis) && pinned == PinSym(c, x, old(pinned), s)
    {
      hide *;
      CoherentParts(u, x);
      CoherentCaches(u, x);
      SpecialPinned(Snapshot(), pinned, u, x, s);
      PutVis(s, vis);
      pinned := PinSym(c, x, pinned, s);
      CoherentCaches(u, x);
    }

    lemma CoherentParts(u: Users, x: Ctx)
      requires Coherent(u, x)
      ensures Static() && UsersOk(c, u) && u == U() && x == World(c, rank, u) && syms.Keys == c.syms.Keys
              && chs.Keys == c.choices.Keys
    {
    }

    method PutVis(s: SymName, vis: Tri)
      requires Static() && s in c.syms
      modifies syms.Values`cachedVis
      ensures syms[s].cachedVis == Some(vis)
      ensures var q := old(Snapshot());
              s in q.syms && Snapshot() == q.(syms := q.syms[s := q.syms[s].(vis := Some(vis))])
    {
      hide Static;
      SymsDistinct();
      syms[s].cachedVis := Some(vis);
    }

    lemma SpecialPinned(q: Caches, p: Pins, u: Users, x: Ctx, s: SymName)
      requires Closed(c) && UsersOk(c, u) && IsSpecial(c, s) && CachesOk(q, p, u, x)
      ensures s in q.syms
      ensures s !in p.syms ==>
                CachesOk(q.(syms := q.syms[s := q.syms[s].(vis := Some(Vis(c, x, s)))]), PinSym(c, x, p, s), u, x)
    {
      hide Closed, UsersOk, Value, Vis, ChoiceVis, Selection, Populated;
      if s !in p.syms {
        var q' := q.(syms := q.syms[s := q.syms[s].(vis := Some(Vis(c, x, s)))]);
        var p' := PinSym(c, x, p, s);
        forall t | t in c.syms ensures SymCacheOk(t, q'.syms[t], p', u, x) { assert SymCacheOk(t, q.syms[t], p, u, x); }
        forall k | k in c.choices ensures ChoiceCacheOk(k, q'.choices[k], p', u, x) {
          assert ChoiceCacheOk(k, q.choices[k], p, u, x);
        }
      }
    }

    method StoreValue(s: SymName, v: Outcome, ghost u: Users, ghost x: Ctx)
      requires Coherent(u, x) && s in c.syms && c.syms[s].special.None? && v == Value(c, x, u, s)
      modifies syms.Values`cachedVal, syms.Values`writeToConf
      ensures Coherent(u, x)
    {
      hide Model, Closed, UsersOk, ChoiceCoherent, World, Value, Vis, Static, U;
      SymsDistinct();
      UndefinedUnwritten(s, u, x);
      syms[s].cachedVal, syms[s].writeToConf := Some(v.text), v.write;
      assert SymCoherent(s, u, x);
    }

    lemma UndefinedUnwritten(s: SymName, u: Users, x: Ctx)
      requires Coherent(u, x) && s in c.syms && c.syms[s].special.None?
      ensures Closed(c) && UsersOk(c, u) && (c.syms[s].ty == Unknown ==> !Value(c, x, u, s).write)
    {
      hide Closed, UsersOk, SymCoherent, ChoiceCoherent, World, Value, U;
      if c.syms[s].ty == Unknown { UnknownValue(c, x, u, s); }
    }

    method StoreChoiceVis(k: ChoiceId, vis: Tri, ghost u: Users, ghost x: Ctx)
      requires Coherent(u, x) && k in c.choices && vis == ChoiceVis(c, x, k)
               && (IsOrphan(c, k) ==> k !in pinned.choices)
      modifies chs.Values`cachedVis, (if IsOrphan(c, k) then {this} else {})`pinned
      ensures Coherent(u, x) && chs[k].cachedVis == Some(vis) && pinned == PinChoice(c, x, old(pinned), k)
    {
      hide *;
      if IsOrphan(c, k) { PinChoiceVis(k, vis, u, x); } else { StoreLiveChoiceVis(k, vis, u, x); }
    }

    method StoreLiveChoiceVis(k: ChoiceId, vis: Tri, ghost u: Users, ghost x: Ctx)
      requires Coherent(u, x) && k in c.choices && vis == ChoiceVis(c, x, k) && !IsOrphan(c, k)
      modifies chs.Values`cachedVis
      ensures Coherent(u, x) && chs[k].cachedVis == Some(vis) && pinned == PinChoice(c, x, pinned, k)
    {
      hide Model, Closed, UsersOk, SymCoherent, World, Selection, ChoiceVis;
      chs[k].cachedVis := Some(vis);
      assert ChoiceCoherent(k, u, x);
    }

    method PinChoiceVis(k: ChoiceId, vis: Tri, ghost u: Users, ghost x: Ctx)
      requires Coherent(u, x) && k in c.choices && vis == ChoiceVis(c, x, k) && IsOrphan(c, k) && k !in pinned.choices
      modifies chs.Values`cachedVis, this`pinned
      ensures Coherent(u, x) && chs[k].cachedVis == Some(vis) && pinned == PinChoice(c, x, old(pinned), k)
    {
      hide *;
      CoherentParts(u, x);
      CoherentCaches(u, x);
      OrphanPinned(Snapshot(), pinned, u, x, k);
      PutChoiceVis(k, vis);
      pinned := PinChoice(c, x, pinned, k);
      CoherentCaches(u, x);
    }

    method PutChoiceVis(k: ChoiceId, vis: Tri)
      requires Static() && k in c.choices
      modifies chs.Values`cachedVis
      ensures chs[k].cachedVis == Some(vis)
      ensures var q := old(Snapshot());
              k in q.choices && Snapshot() == q.(choices := q.choices[k := q.choices[k].(vis := Some(vis))])
    {
      hide Static;
      KeysOf(k);
      chs[k].cachedVis := Some(vis);
    }

    lemma OrphanPinned(q: Caches, p: Pins, u: Users, x: Ctx, k: ChoiceId)
      requires Closed(c) && UsersOk(c, u) && IsOrphan(c, k) && CachesOk(q, p, u, x)
      ensures k in q.choices
      ensures k !in p.choices ==>
                CachesOk(q.(choices := q.choices[k := q.choices[k].(vis := Some(ChoiceVis(c, x, k)))]),
                         PinChoice(c, x, p, k), u, x)
    {
      hide Closed, UsersOk, Value, Vis, ChoiceVis, Selection;
      if k !in p.choices {
        var q' := q.(choices := q.choices[k := q.choices[k].(vis := Some(ChoiceVis(c, x, k)))]);
        var p' := PinChoice(c, x, p, k);
        forall t | t in c.syms ensures SymCacheOk(t, q'.syms[t], p', u, x) { assert SymCacheOk(t, q.syms[t], p, u, x); }
        forall j | j in c.choices ensures ChoiceCacheOk(j, q'.choices[j], p', u, x) {
          assert ChoiceCacheOk(j, q.choices[j], p, u, x);
        }
      }
    }

    method StoreSelection(k: ChoiceId, sel: Option<SymName>, ghost u: Users, ghost x: Ctx)
      requires Coherent(u, x) && k in c.choices && sel == Selection(c, x, u, k)
      requires Populated(c, k) || k in pinned.choices
      modifies chs.Values`cachedSelection
      ensures Coherent(u, x)
    {
      hide Model, Closed, UsersOk, SymCoherent, World, Selection, ChoiceVis;
      chs[k].cachedSelection := Some(sel);
      assert ChoiceCoherent(k, u, x);
    }

    // ---------- expressions ----------

    method EvalExpr(e: Option<Expr>, ghost r: nat, ghost u: Users, ghost x: Ctx) returns (t: Tri)
      requires Coherent(u, x) && Ready(c, rank, e, r)
      modifies syms.Values`cachedVal, syms.Values`cachedVis, syms.Values`writeToConf
      modifies chs.Values`cachedVis, chs.Values`cachedSelection
      ensures Coherent(u, x) && t == Cond(x, e)
      decreases r, 1
    {
      hide Model, Closed, UsersOk, SymCoherent, ChoiceCoherent, NeverMOpt;
      if e.None? { return Y; }
      t := EvalRec(e.value, r, u, x);
      if t == M {
        if MODULES !in c.syms { return Y; }
        if !ModulesKnown(c, rank, r) {
          WorldFacts(c, rank, u);
          NotM(c, x, e);
        }
        WorldLook(c, rank, u, MODULES);
        var modules := GetValue(MODULES, u, x);
        if modules != "y" { return Y; }
      }
    }

    method EvalRec(e: Expr, ghost r: nat, ghost u: Users, ghost x: Ctx) returns (t: Tri)
      requires Coherent(u, x) && SymsReady(c, rank, SymsOf(e), r)
      modifies syms.Values`cachedVal, syms.Values`cachedVis, syms.Values`writeToConf
      modifies chs.Values`cachedVis, chs.Values`cachedSelection
      ensures Coherent(u, x) && t == Raw(e, x.env)
      decreases r, 0, e
    {
      hide Model, Closed, UsersOk, SymCoherent, ChoiceCoherent, World;
      match e
      case Leaf(a) =>
        match a {
          case Str(s) => t := Read(s);
          case Stray(_) => t := N;
          case Sym(s) =>
            WorldLook(c, rank, u, s);
            if !Logical(c.syms[s].ty) { return N; }
            var v := GetValue(s, u, x);
            t := Read(v);
        }
      case And(es) => t := EvalAnd(es, r, u, x);
      case Or(es) => t := EvalOr(es, r, u, x);
      case Not(e1) =>
        var ev := EvalRec(e1, r, u, x);
        t := Negate(ev);
      case Rel(unequal, left, right) =>
        var lv := StrVal(left, r, u, x);
        var rv := StrVal(right, r, u, x);
        t := if (lv == rv) != unequal then Y else N;
    }

    method EvalAnd(es: seq<Expr>, ghost r: nat, ghost u: Users, ghost x: Ctx) returns (t: Tri)
      requires Coherent(u, x) && SymsReady(c, rank, SymsOfAll(es), r)
      modifies syms.Values`cachedVal, syms.Values`cachedVis, syms.Values`writeToConf
      modifies chs.Values`cachedVis, chs.Values`cachedSelection
      ensures Coherent(u, x) && t == RawAnd(es, x.env)
      decreases r, 0, es
    {
      hide Model, Closed, UsersOk, SymCoherent, ChoiceCoherent, World;
      t := Y;
      for i := 0 to |es|
        invariant Coherent(u, x)
        invariant t != N && RawAnd(es, x.env) == Min(t, RawAnd(es[i..], x.env))
      {
        SymsOfAllHas(es, i);
        var ev := EvalRec(es[i], r, u, x);
        assert es[i..][1..] == es[i + 1..];
        if ev == N { return N; }
        if ev == M { t := M; }
      }
    }

    method EvalOr(es: seq<Expr>, ghost r: nat, ghost u: Users, ghost x: Ctx) returns (t: Tri)
      requires Coherent(u, x) && SymsReady(c, rank, SymsOfAll(es), r)
      modifies syms.Values`cachedVal, syms.Values`cachedVis, syms.Values`writeToConf
      modifies chs.Values`cachedVis, chs.Values`cachedSelection
      ensures Coherent(u, x) && t == RawOr(es, x.env)
      decreases r, 0, es
    {
      hide Model, Closed, UsersOk, SymCoherent, ChoiceCoherent, World;
      t := N;
      for i := 0 to |es|
        invariant Coherent(u, x)
        invariant t != Y && RawOr(es, x.env) == Max(t, RawOr(es[i..], x.env))
      {
        SymsOfAllHas(es, i);
        var ev := EvalRec(es[i], r, u, x);
        assert es[i..][1..] == es[i + 1..];
        if ev == Y { return Y; }
        if ev == M { t := M; }
      }
    }

    method StrVal(a: Atom, ghost r: nat, ghost u: Users, ghost x: Ctx) returns (v: string)
      requires Coherent(u, x) && SymsReady(c, rank, AtomSyms(a), r)
      modifies syms.Values`cachedVal, syms.Values`cachedVis, syms.Values`writeToConf
      modifies chs.Values`cachedVis, chs.Values`cachedSelection
      ensures Coherent(u, x) && v == AtomText(a, x.env)
      decreases r, 0, a
    {
      hide Model, Closed, UsersOk, SymCoherent, ChoiceCoherent, World;
      match a
      case Str(s) => v := s;
      case Stray(_) => v := "";
      case Sym(s) =>
        WorldLook(c, rank, u, s);
        v := GetValue(s, u, x);
    }

    method EvalMin(e1: Option<Expr>, e2: Option<Expr>, ghost r: nat, ghost u: Users, ghost x: Ctx) returns (t: Tri)
      requires Coherent(u, x) && Ready(c, rank, e1, r) && Ready(c, rank, e2, r)
      modifies syms.Values`cachedVal, syms.Values`cachedVis, syms.Values`writeToConf
      modifies chs.Values`cachedVis, chs.Values`cachedSelection
      ensures Coherent(u, x) && t == Min(Cond(x, e1), Cond(x, e2))
      decreases r, 2
    {
      hide *;
      var t1 := EvalExpr(e1, r, u, x);
      var t2 := EvalExpr(e2, r, u, x);
      t := Min(t1, t2);
    }

    method EvalMax(e1: Option<Expr>, e2: Option<Expr>, ghost r: nat, ghost u: Users, ghost x: Ctx) returns (t: Tri)
      requires Coherent(u, x) && Ready(c, rank, e1, r) && Ready(c, rank, e2, r)
      modifies syms.Values`cachedVal, syms.Values`cachedVis, syms.Values`writeToConf
      modifies chs.Values`cachedVis, chs.Values`cachedSelection
      ensures Coherent(u, x) && t == Max(Cond(x, e1), Cond(x, e2))
      decreases r, 2
    {
      hide *;
      var t1 := EvalExpr(e1, r, u, x);
      var t2 := EvalExpr(e2, r, u, x);
      t := Max(t1, t2);
    }

    // ---------- visibility ----------

    ghost predicate PromptsEvaluable(ps: seq<Option<Expr>>, r: nat) {
      && SymsReady(c, rank, PromptSyms(ps), r)
      && (ModulesKnown(c, rank, r) || forall p <- ps :: NeverMOpt(p, Tristates(c)))
    }

    lemma PrefixNotM(ps: seq<Option<Expr>>, i: nat, r: nat, u: Users, x: Ctx)
      requires Coherent(u, x) && PromptsEvaluable(ps, r) && i <= |ps|
      ensures ModulesKnown(c, rank, r) || PromptsVis(x, ps[..i]) != M
    {
      hide Model, Closed, UsersOk, SymCoherent, ChoiceCoherent, PromptsVis;
      WorldFacts(c, rank, u);
      hide World;
      if !ModulesKnown(c, rank, r) { QuietPrompts(x, x.off, ps[..i], Tristates(c)); }
    }

    lemma ConstantReady(t: Tri, r: nat)
      requires ModulesKnown(c, rank, r) || t != M
      ensures Ready(c, rank, Some(Leaf(Str(Show(t)))), r)
    {
    }

    lemma ConstantCond(x: Ctx, t: Tri)
      ensures Cond(x, Some(Leaf(Str(Show(t))))) == Promote(x.off, t)
    {
      ShowRead(t, x);
    }

    method PromptsVisibility(ps: seq<Option<Expr>>, ghost r: nat, ghost u: Users, ghost x: Ctx) returns (vis: Tri)
      requires Coherent(u, x) && PromptsEvaluable(ps, r)
      modifies syms.Values`cachedVal, syms.Values`cachedVis, syms.Values`writeToConf
      modifies chs.Values`cachedVis, chs.Values`cachedSelection
      ensures Coherent(u, x) && vis == PromptsVis(x, ps)
      ensures ModulesKnown(c, rank, r) || vis != M
      decreases r, 3
    {
      hide Coherent, Cond, PromptSyms, NeverMOpt, SymsReady, ModulesKnown, Ready;
      vis := N;
      for i := 0 to |ps|
        invariant Coherent(u, x)
        invariant vis == PromptsVis(x, ps[..i])
      {
        assert ps[..i + 1][..i] == ps[..i] && ps[..i + 1][i] == ps[i];
        PrefixNotM(ps, i, r, u, x);
        ConstantReady(vis, r);
        ConstantCond(x, vis);
        PromptsReady(c, rank, r, ps, i);
        vis := EvalMax(Some(Leaf(Str(Show(vis)))), ps[i], r, u, x);
      }
      assert ps[..|ps|] == ps;
      PrefixNotM(ps, |ps|, r, u, x);
    }

    /** The rank shared by the members of a choice; without members, one above all symbols. */
    ghost function ChoiceRank(k: ChoiceId): (r: nat)
      requires Static() && k in c.choices
    {
      assert ClosedChoice(c, k);
      if Populated(c, k) then
        assert c.choices[k].members[0] in c.choices[k].members;
        rank[c.choices[k].members[0]]
      else Bound(rank)
    }

    lemma ChoiceRankFacts(k: ChoiceId)
      requires Static() && k in c.choices
      ensures ModulesKnown(c, rank, ChoiceRank(k)) && SymsReady(c, rank, ChoiceInputs(c.choices[k]), ChoiceRank(k))
      ensures forall m <- c.choices[k].members :: m in c.syms && rank[m] == ChoiceRank(k)
    {
      assert ClosedChoice(c, k) && SharedRank(rank, c.choices[k].members);
      if Populated(c, k) {
        MemberKnowsModules(c, rank, k, c.choices[k].members[0]);
      } else {
        ChoiceReady(c, rank, k);
      }
    }

    lemma ChoiceOf(s: SymName)
      requires Static() && s in c.syms && c.syms[s].choice.Some?
      ensures var k := c.syms[s].choice.value; k in c.choices && s in c.choices[k].members && Populated(c, k)
      ensures rank[s] == ChoiceRank(c.syms[s].choice.value)
    {
      ChoiceRankFacts(c.syms[s].choice.value);
    }

    method GetChoiceVisibility(k: ChoiceId, ghost u: Users, ghost x: Ctx) returns (vis: Tri)
      requires Coherent(u, x) && k in c.choices
      modifies syms.Values`cachedVal, syms.Values`cachedVis, syms.Values`writeToConf
      modifies chs.Values`cachedVis, chs.Values`cachedSelection
      modifies (if IsOrphan(c, k) then {this} else {})`pinned
      ensures Coherent(u, x) && vis == ShownChoiceVis(c, x, old(pinned), k)
      ensures pinned == PinChoice(c, x, old(pinned), k)
      decreases ChoiceRank(k), 4
    {
      hide Model, Closed, UsersOk, SymCoherent, World, PromptsVis, PromptSyms, PickSyms, Selection;
      if chs[k].cachedVis.None? {
        ChoiceRankFacts(k);
        vis := PromptsVisibility(c.choices[k].prompts, ChoiceRank(k), u, x);
        if vis == M && c.choices[k].ty != Tristate { vis := Y; }
        StoreChoiceVis(k, vis, u, x);
      } else {
        assert ChoiceCoherent(k, u, x);
        PinnedAlready(c, x, pinned, "", k);
      }
      return chs[k].cachedVis.value;
    }

    lemma SpecialsAreFree(s: SymName)
      requires Static() && s in c.syms && c.syms[s].special.Some?
      ensures c.syms[s].choice.None?
    {
    }

    method GetVisibility(s: SymName, ghost u: Users, ghost x: Ctx) returns (vis: Tri)
      requires Coherent(u, x) && s in c.syms
      modifies syms.Values`cachedVal, syms.Values`cachedVis, syms.Values`writeToConf
      modifies chs.Values`cachedVis, chs.Values`cachedSelection
      modifies (if IsSpecial(c, s) then {this} else {})`pinned
      ensures Coherent(u, x) && vis == ShownVis(c, x, old(pinned), s) && pinned == PinSym(c, x, old(pinned), s)
      decreases rank[s], 5
    {
      hide Model, Closed, UsersOk, ChoiceCoherent, World, Value, Vis;
      var o := syms[s];
      if IsSpecial(c, s) { SpecialsAreFree(s); }
      if o.cachedVis.None? {
        vis := ComputeVisibility(s, u, x);
        StoreVis(s, vis, u, x);
      } else {
        assert SymCoherent(s, u, x);
        PinnedAlready(c, x, pinned, s, 0);
      }
      return o.cachedVis.value;
    }

    method ComputeVisibility(s: SymName, ghost u: Users, ghost x: Ctx) returns (vis: Tri)
      requires Coherent(u, x) && s in c.syms
      modifies syms.Values`cachedVal, syms.Values`cachedVis, syms.Values`writeToConf
      modifies chs.Values`cachedVis, chs.Values`cachedSelection
      ensures Coherent(u, x) && vis == Vis(c, x, s)
      decreases rank[s], 5, 0
    {
      hide Model, Closed, UsersOk, ChoiceCoherent, World, PromptsVis, PromptSyms, DefaultSyms, RangeSyms, PickSyms,
           Value;
      var d := c.syms[s];
      OwnReady(c, rank, s);
      assert PromptsEvaluable(d.prompts, rank[s]);
      vis := PromptsVisibility(d.prompts, rank[s], u, x);
      if d.choice.Some? {
        var k := d.choice.value;
        ChoiceOf(s);
        ChoiceRankFacts(k);
        var choiceVis := GetChoiceVisibility(k, u, x);
        ConstantReady(vis, rank[s]);
        ConstantReady(choiceVis, rank[s]);
        ConstantCond(x, vis);
        ConstantCond(x, choiceVis);
        vis := EvalMin(Some(Leaf(Str(Show(vis)))), Some(Leaf(Str(Show(choiceVis)))), rank[s], u, x);
      }
      if vis == M && d.ty != Tristate { vis := Y; }
    }

    // ---------- choices ----------

    lemma UserOf(s: SymName, u: Users, x: Ctx)
      requires Coherent(u, x) && s in c.syms
      ensures syms[s].userVal.Some? <==> s in u.sym
      ensures syms[s].userVal.Some? ==> syms[s].userVal.value == u.sym[s]
    {
      hide Model, Closed, UsersOk, SymCoherent, ChoiceCoherent, World;
    }

    lemma ChoiceUserOf(k: ChoiceId, u: Users, x: Ctx)
      requires Coherent(u, x) && k in c.choices
      ensures (chs[k].userVal.Some? <==> k in u.sel) && (chs[k].userMode.Some? <==> k in u.mode)
      ensures chs[k].userVal.Some? ==> chs[k].userVal.value == u.sel[k] && u.sel[k] in c.choices[k].members
      ensures chs[k].userMode.Some? ==> chs[k].userMode.value == u.mode[k]
    {
      hide Model, Closed, SymCoherent, ChoiceCoherent, World;
    }

    method GetMode(k: ChoiceId, ghost u: Users, ghost x: Ctx) returns (mode: Tri)
      requires Coherent(u, x) && k in c.choices
      modifies syms.Values`cachedVal, syms.Values`cachedVis, syms.Values`writeToConf
      modifies chs.Values`cachedVis, chs.Values`cachedSelection
      modifies (if IsOrphan(c, k) then {this} else {})`pinned
      ensures Coherent(u, x) && mode == ModeAt(c, x, u, k, ShownChoiceVis(c, x, old(pinned), k))
      ensures pinned == PinChoice(c, x, old(pinned), k)
      decreases ChoiceRank(k), 5
    {
      hide Model, Closed, UsersOk, SymCoherent, ChoiceCoherent, World, ChoiceVis, Cond, Ready;
      ChoiceRankFacts(k);
      ChoiceUserOf(k, u, x);
      var want := if chs[k].userMode.Some? then chs[k].userMode.value else if c.choices[k].optional then N else M;
      var choiceVis := GetChoiceVisibility(k, u, x);
      ConstantReady(want, ChoiceRank(k));
      ConstantReady(choiceVis, ChoiceRank(k));
      ConstantCond(x, want);
      ConstantCond(x, choiceVis);
      mode := EvalMin(Some(Leaf(Str(Show(want)))), Some(Leaf(Str(Show(choiceVis)))), ChoiceRank(k), u, x);
      if mode == M && c.choices[k].ty == Bool { mode := Y; }
    }

    lemma PicksAreMembers(k: ChoiceId)
      requires Static() && k in c.choices && Populated(c, k)
      ensures forall i :: 0 <= i < |c.choices[k].defaults| ==> c.choices[k].defaults[i].sym in c.choices[k].members
      ensures c.choices[k].members[0] in c.choices[k].members
    {
      hide Model, Acyclic;
      ClosedMembers(c, k);
      hide Closed;
    }

    lemma MembersAreOrdinary(k: ChoiceId)
      requires Static() && k in c.choices
      ensures forall m <- c.choices[k].members :: m in c.syms && c.syms[m].special.None? && rank[m] == ChoiceRank(k)
    {
      hide Model, Acyclic;
      ClosedMembers(c, k);
      ChoiceRankFacts(k);
      hide Closed;
    }

    method ChosenDefault(k: ChoiceId, ghost u: Users, ghost x: Ctx) returns (chosen: SymName)
      requires Coherent(u, x) && k in c.choices && Populated(c, k)
      modifies syms.Values`cachedVal, syms.Values`cachedVis, syms.Values`writeToConf
      modifies chs.Values`cachedVis, chs.Values`cachedSelection
      ensures Coherent(u, x) && chosen in c.choices[k].members
      ensures var pick := ActivePick(x, c.choices[k].defaults);
              chosen == if pick.Some? then pick.value else c.choices[k].members[0]
      decreases ChoiceRank(k), 5
    {
      hide Model, Closed, ClosedChoice, UsersOk, SymCoherent, ChoiceCoherent, World, ChoiceRank, Cond, Ready, SymsReady,
           ModulesKnown;
      PicksAreMembers(k);
      ChoiceRankFacts(k);
      var d := c.choices[k];
      for i := 0 to |d.defaults|
        invariant Coherent(u, x)
        invariant ActivePick(x, d.defaults) == ActivePick(x, d.defaults[i..])
      {
        PickReady(c, rank, ChoiceRank(k), d.defaults, i);
        var cond := EvalExpr(d.defaults[i].cond, ChoiceRank(k), u, x);
        assert d.defaults[i..][1..] == d.defaults[i + 1..];
        if cond != N { return d.defaults[i].sym; }
      }
      chosen := d.members[0];
    }

    method GetSelectionFromDefaults(k: ChoiceId, ghost u: Users, ghost x: Ctx) returns (sel: Option<SymName>)
      requires Coherent(u, x) && k in c.choices
      modifies syms.Values`cachedVal, syms.Values`cachedVis, syms.Values`writeToConf
      modifies chs.Values`cachedVis, chs.Values`cachedSelection
      ensures Coherent(u, x) && sel == SelectionFromDefaults(c, x, k)
      decreases ChoiceRank(k), 6
    {
      hide Model, Closed, ClosedChoice, UsersOk, SymCoherent, ChoiceCoherent, World, Vis, ChoiceRank;
      if c.choices[k].members == [] { return None; }
      var chosen := ChosenDefault(k, u, x);
      MembersAreOrdinary(k);
      var members := c.choices[k].members;
      var vis := GetVisibility(chosen, u, x);
      if vis != N { return Some(chosen); }
      for i := 0 to |members|
        invariant Coherent(u, x)
        invariant FirstVisible(c, x, members) == FirstVisible(c, x, members[i..])
      {
        assert members[i] in members;
        vis := GetVisibility(members[i], u, x);
        assert members[i..][1..] == members[i + 1..];
        if vis != N { return Some(members[i]); }
      }
      sel := None;
    }

    method GetSelection(k: ChoiceId, ghost u: Users, ghost x: Ctx) returns (sel: Option<SymName>)
      requires Coherent(u, x) && k in c.choices
      modifies syms.Values`cachedVal, syms.Values`cachedVis, syms.Values`writeToConf
      modifies chs.Values`cachedVis, chs.Values`cachedSelection
      modifies (if IsOrphan(c, k) then {this} else {})`pinned
      ensures Coherent(u, x) && sel == Selection(c, x, u, k) && pinned == PinChoice(c, x, old(pinned), k)
      decreases ChoiceRank(k), 7
    {
      hide Model, Closed, ClosedChoice, UsersOk, SymCoherent, World, Vis, ChoiceVis, ChoiceRank, ModeAt,
           SelectionFromDefaults;
      MembersAreOrdinary(k);
      NoSelection(k, u, x);
      assert ChoiceCoherent(k, u, x);
      if chs[k].cachedSelection.Some? {
        PinnedAlready(c, x, pinned, "", k);
        return chs[k].cachedSelection.value;
      }
      hide ChoiceCoherent;
      ChoiceUserOf(k, u, x);
      var mode := GetMode(k, u, x);
      var user := chs[k].userVal;
      if mode != Y {
        sel := None;
      } else {
        var userVisible := N;
        if user.Some? { userVisible := GetVisibility(user.value, u, x); }
        if userVisible == Y {
          sel := user;
        } else if c.choices[k].optional {
          sel := None;
        } else {
          sel := GetSelectionFromDefaults(k, u, x);
        }
      }
      StoreSelection(k, sel, u, x);
    }

    lemma NoSelection(k: ChoiceId, u: Users, x: Ctx)
      requires Coherent(u, x) && k in c.choices
      ensures IsOrphan(c, k) ==> Selection(c, x, u, k) == None && SelectionFromDefaults(c, x, k) == None && k !in u.sel
    {
      hide Model, Acyclic, SymCoherent, ChoiceCoherent, World;
      if IsOrphan(c, k) { OrphanSelection(c, x, u, k); }
    }

    // ---------- values ----------

    method GetMemberValue(s: SymName, vis: Tri, ghost u: Users, ghost x: Ctx) returns (t: Tri, write: bool)
      requires Coherent(u, x) && s in c.syms && c.syms[s].choice.Some? && vis == Vis(c, x, s)
      modifies syms.Values`cachedVal, syms.Values`cachedVis, syms.Values`writeToConf
      modifies chs.Values`cachedVis, chs.Values`cachedSelection
      ensures Coherent(u, x) && (t, write) == MemberValue(c, x, u, s)
      decreases rank[s], 8
    {
      hide Model, Closed, ClosedChoice, UsersOk, SymCoherent, ChoiceCoherent, World, Vis, ModeAt, ChoiceVis, Selection;
      ChoiceOf(s);
      UserOf(s, u, x);
      t, write := N, false;
      if vis != N {
        var k := c.syms[s].choice.value;
        var mode := GetMode(k, u, x);
        write := mode != N;
        if mode == Y {
          var sel := GetSelection(k, u, x);
          t := if sel == Some(s) then Y else N;
        } else if mode == M {
          if syms[s].userVal == Some("m") || syms[s].userVal == Some("y") { t := M; }
        }
      }
    }

    /** For a symbol MODULES may depend on, nothing on the way to its value is "m". */
    lemma FreeNeverM(s: SymName, u: Users, x: Ctx)
      requires Coherent(u, x) && s in c.syms && c.syms[s].special.None? && Logical(c.syms[s].ty)
      requires !ModulesKnown(c, rank, rank[s])
      ensures Vis(c, x, s) != M && Cond(x, Some(c.syms[s].revDep)) != M && NeverM(c.syms[s].revDep, Tristates(c))
      ensures ActiveDefault(x, c.syms[s].defaults) != Some(M)
      ensures forall i :: 0 <= i < |c.syms[s].defaults| ==> Cond(x, c.syms[s].defaults[i].cond) != M
      ensures s in u.sym ==> u.sym[s] != "m"
    {
      hide Model, Closed, SymCoherent, ChoiceCoherent, World, BoolsAreBool, Vis, Cond, ActiveDefault;
      OwnReady(c, rank, s);
      WorldFacts(c, rank, u);
      QuietNeverM(c, x, s);
    }

    lemma UserCond(x: Ctx, v: string)
      ensures Cond(x, Some(Leaf(Str(v)))) == Promote(x.off, Read(v))
    {
    }

    lemma UserReady(v: string, r: nat)
      requires ModulesKnown(c, rank, r) || v != "m"
      ensures Ready(c, rank, Some(Leaf(Str(v))), r)
    {
    }

    /** Default `i` of a symbol can be evaluated before the symbol. */
    lemma DefaultsEvaluable(s: SymName, i: nat)
      requires Static() && s in c.syms && c.syms[s].special.None? && i < |c.syms[s].defaults|
      ensures Ready(c, rank, c.syms[s].defaults[i].cond, rank[s])
      ensures SymsReady(c, rank, SymsOf(c.syms[s].defaults[i].val), rank[s])
      ensures Logical(c.syms[s].ty) ==> Ready(c, rank, Some(c.syms[s].defaults[i].val), rank[s])
    {
      hide Model, Closed;
      OwnReady(c, rank, s);
      DefaultReady(c, rank, rank[s], c.syms[s].defaults, i, Logical(c.syms[s].ty));
    }

    method GetActiveDefault(s: SymName, ghost u: Users, ghost x: Ctx) returns (def: Option<Tri>)
      requires Coherent(u, x) && s in c.syms && c.syms[s].special.None? && Logical(c.syms[s].ty)
      modifies syms.Values`cachedVal, syms.Values`cachedVis, syms.Values`writeToConf
      modifies chs.Values`cachedVis, chs.Values`cachedSelection
      ensures Coherent(u, x) && def == ActiveDefault(x, c.syms[s].defaults)
      decreases rank[s], 3
    {
      hide Model, Closed, UsersOk, SymCoherent, ChoiceCoherent, World, Cond, Ready, ModulesKnown;
      var ds := c.syms[s].defaults;
      for i := 0 to |ds|
        invariant Coherent(u, x)
        invariant ActiveDefault(x, ds) == ActiveDefault(x, ds[i..])
      {
        DefaultsEvaluable(s, i);
        var cond := EvalExpr(ds[i].cond, rank[s], u, x);
        assert ds[i..][1..] == ds[i + 1..];
        if cond != N {
          if !ModulesKnown(c, rank, rank[s]) { FreeNeverM(s, u, x); }
          ConstantReady(cond, rank[s]);
          ConstantCond(x, cond);
          var val := EvalMin(Some(ds[i].val), Some(Leaf(Str(Show(cond)))), rank[s], u, x);
          return Some(val);
        }
      }
      def := None;
    }

    lemma RevDepReady(s: SymName, u: Users, x: Ctx)
      requires Coherent(u, x) && s in c.syms && c.syms[s].special.None? && Logical(c.syms[s].ty)
      ensures Ready(c, rank, Some(c.syms[s].revDep), rank[s])
    {
      hide Model, Closed, UsersOk, SymCoherent, ChoiceCoherent, World;
      OwnReady(c, rank, s);
      if !ModulesKnown(c, rank, rank[s]) { FreeNeverM(s, u, x); }
    }

    method GetFreeValue(s: SymName, vis: Tri, ghost u: Users, ghost x: Ctx) returns (t: Tri, write: bool)
      requires Coherent(u, x) && s in c.syms && c.syms[s].special.None? && Logical(c.syms[s].ty)
      requires c.syms[s].choice.None? && vis == Vis(c, x, s)
      modifies syms.Values`cachedVal, syms.Values`cachedVis, syms.Values`writeToConf
      modifies chs.Values`cachedVis, chs.Values`cachedSelection
      ensures Coherent(u, x) && (t, write) == FreeValue(c, x, u, s)
      decreases rank[s], 8
    {
      hide Model, Closed, UsersOk, SymCoherent, ChoiceCoherent, World, Vis, Cond, Ready, ModulesKnown, ActiveDefault,
           NeverM;
      ghost var r := rank[s];
      UserOf(s, u, x);
      if !ModulesKnown(c, rank, r) { FreeNeverM(s, u, x); }
      t, write := N, false;
      var useDefaults := true;
      if vis != N {
        write := true;
        if syms[s].userVal.Some? {
          var user := syms[s].userVal.value;
          UserReady(user, r);
          UserCond(x, user);
          ConstantReady(vis, r);
          ConstantCond(x, vis);
          t := EvalMin(Some(Leaf(Str(user))), Some(Leaf(Str(Show(vis)))), r, u, x);
          useDefaults := false;
        }
      }
      if useDefaults {
        var def := GetActiveDefault(s, u, x);
        if def.Some? { t, write := def.value, true; }
      }
      RevDepReady(s, u, x);
      var rev := EvalExpr(Some(c.syms[s].revDep), r, u, x);
      if rev != N {
        write := true;
        FreeBaseNotM(s, t, u, x);
        ConstantReady(t, r);
        ConstantReady(rev, r);
        ConstantCond(x, t);
        ConstantCond(x, rev);
        t := EvalMax(Some(Leaf(Str(Show(t)))), Some(Leaf(Str(Show(rev)))), r, u, x);
      }
    }

    /** The value before selects are taken into account. */
    lemma FreeBaseNotM(s: SymName, t: Tri, u: Users, x: Ctx)
      requires Coherent(u, x) && s in c.syms && c.syms[s].special.None? && Logical(c.syms[s].ty)
      requires t == N || Some(t) == ActiveDefault(x, c.syms[s].defaults)
            || (s in u.sym && t == Min(Promote(x.off, Read(u.sym[s])), Promote(x.off, Vis(c, x, s))))
      ensures ModulesKnown(c, rank, rank[s]) || t != M
    {
      hide Model, Closed, UsersOk, SymCoherent, ChoiceCoherent, World, Vis, Cond, ActiveDefault, NeverM, ModulesKnown;
      if !ModulesKnown(c, rank, rank[s]) { FreeNeverM(s, u, x); }
    }

    method ExprStr(e: Expr, ghost r: nat, ghost u: Users, ghost x: Ctx) returns (v: string)
      requires Coherent(u, x) && SymsReady(c, rank, SymsOf(e), r)
      modifies syms.Values`cachedVal, syms.Values`cachedVis, syms.Values`writeToConf
      modifies chs.Values`cachedVis, chs.Values`cachedSelection
      ensures Coherent(u, x) && v == ExprText(x, e)
      decreases r, 1
    {
      hide Coherent;
      v := "";
      if e.Leaf? { v := StrVal(e.a, r, u, x); }
    }

    method GetTextValue(s: SymName, vis: Tri, ghost u: Users, ghost x: Ctx) returns (v: Outcome)
      requires Coherent(u, x) && s in c.syms && c.syms[s].special.None? && vis == Vis(c, x, s)
      modifies syms.Values`cachedVal, syms.Values`cachedVis, syms.Values`writeToConf
      modifies chs.Values`cachedVis, chs.Values`cachedSelection
      ensures Coherent(u, x) && v == TextValue(c, x, u, s)
      decreases rank[s], 8
    {
      hide Model, Closed, UsersOk, SymCoherent, ChoiceCoherent, World, Vis, Cond, ExprText, Ready;
      UserOf(s, u, x);
      if vis != N && syms[s].userVal.Some? { return Outcome(syms[s].userVal.value, true); }
      var ds := c.syms[s].defaults;
      for i := 0 to |ds|
        invariant Coherent(u, x)
        invariant TextDefault(x, ds) == TextDefault(x, ds[i..])
      {
        DefaultsEvaluable(s, i);
        var cond := EvalExpr(ds[i].cond, rank[s], u, x);
        assert ds[i..][1..] == ds[i + 1..];
        if cond != N {
          var text := ExprStr(ds[i].val, rank[s], u, x);
          return Outcome(text, true);
        }
      }
      v := Outcome("", vis != N);
    }

    /** Range `i` of a symbol can be evaluated before the symbol. */
    lemma RangesEvaluable(s: SymName, i: nat)
      requires Static() && s in c.syms && c.syms[s].special.None? && i < |c.syms[s].ranges|
      ensures Ready(c, rank, c.syms[s].ranges[i].cond, rank[s])
      ensures SymsReady(c, rank, AtomSyms(c.syms[s].ranges[i].low), rank[s])
      ensures SymsReady(c, rank, AtomSyms(c.syms[s].ranges[i].high), rank[s])
    {
      hide Model, Closed;
      OwnReady(c, rank, s);
      RangeReady(c, rank, rank[s], c.syms[s].ranges, i);
    }

    method GetActiveRange(s: SymName, base: nat, ghost u: Users, ghost x: Ctx) returns (range: Option<(int, int)>)
      requires Coherent(u, x) && s in c.syms && c.syms[s].special.None?
      modifies syms.Values`cachedVal, syms.Values`cachedVis, syms.Values`writeToConf
      modifies chs.Values`cachedVis, chs.Values`cachedSelection
      ensures Coherent(u, x) && range == ActiveRange(c, x, base, c.syms[s].ranges)
      decreases rank[s], 3
    {
      hide Model, Closed, UsersOk, SymCoherent, ChoiceCoherent, World, Cond, Ready, AtomText;
      var rs := c.syms[s].ranges;
      for i := 0 to |rs|
        invariant Coherent(u, x)
        invariant ActiveRange(c, x, base, rs) == ActiveRange(c, x, base, rs[i..])
      {
        RangesEvaluable(s, i);
        var cond := EvalExpr(rs[i].cond, rank[s], u, x);
        assert rs[i..][1..] == rs[i + 1..];
        if cond != N {
          var low := StrVal(rs[i].low, rank[s], u, x);
          var high := StrVal(rs[i].high, rank[s], u, x);
          return Some((NumberOr0(c, base, low), NumberOr0(c, base, high)));
        }
      }
      range := None;
    }

    method GetNumberDefault(s: SymName, base: nat, range: Option<(int, int)>, write: bool, ghost u: Users, ghost x: Ctx)
      returns (v: Outcome)
      requires Coherent(u, x) && s in c.syms && c.syms[s].special.None?
      modifies syms.Values`cachedVal, syms.Values`cachedVis, syms.Values`writeToConf
      modifies chs.Values`cachedVis, chs.Values`cachedSelection
      ensures Coherent(u, x) && v == NumberDefault(c, x, base, range, c.syms[s].defaults, Outcome("", write))
      decreases rank[s], 3
    {
      hide Model, Closed, UsersOk, SymCoherent, ChoiceCoherent, World, Cond, Ready, ExprText;
      var ds := c.syms[s].defaults;
      v := Outcome("", write);
      for i := 0 to |ds|
        invariant Coherent(u, x)
        invariant NumberDefault(c, x, base, range, ds, Outcome("", write)) ==
                  NumberDefault(c, x, base, range, ds[i..], v)
      {
        DefaultsEvaluable(s, i);
        var cond := EvalExpr(ds[i].cond, rank[s], u, x);
        assert ds[i..][1..] == ds[i + 1..];
        if cond != N {
          var text := ExprStr(ds[i].val, rank[s], u, x);
          v := Outcome(text, true);
          var n := c.num.parse(text, base);
          if n.Some? { return Outcome(Clamped(c, base, range, text, n.value), true); }
        }
      }
      if range.Some? && range.value.0 > 0 { v := Outcome(Numeral(c, base, range.value.0), v.write); }
    }

    method GetNumberValue(s: SymName, vis: Tri, ghost u: Users, ghost x: Ctx) returns (v: Outcome)
      requires Coherent(u, x) && s in c.syms && c.syms[s].special.None? && vis == Vis(c, x, s)
      modifies syms.Values`cachedVal, syms.Values`cachedVis, syms.Values`writeToConf
      modifies chs.Values`cachedVis, chs.Values`cachedSelection
      ensures Coherent(u, x) && v == NumberValue(c, x, u, s)
      decreases rank[s], 8
    {
      hide Model, Closed, UsersOk, SymCoherent, ChoiceCoherent, World, Vis, ActiveRange, NumberDefault;
      UserOf(s, u, x);
      var base := if c.syms[s].ty == Hex then 16 else 10;
      var range := GetActiveRange(s, base, u, x);
      if vis != N && syms[s].userVal.Some? && UserNumberOk(c, base, range, syms[s].userVal.value) {
        return Outcome(syms[s].userVal.value, true);
      }
      v := GetNumberDefault(s, base, range, vis != N, u, x);
    }

    /** The cached value, or the value computed by the rules for the symbol's type. */
    method GetValue(s: SymName, ghost u: Users, ghost x: Ctx) returns (v: string)
      requires Coherent(u, x) && s in c.syms
      modifies syms.Values`cachedVal, syms.Values`cachedVis, syms.Values`writeToConf
      modifies chs.Values`cachedVis, chs.Values`cachedSelection
      ensures Coherent(u, x) && v == Value(c, x, u, s).text
      decreases rank[s], 9
    {
      hide Model, Closed, UsersOk, ChoiceCoherent, World, Vis, MemberValue, FreeValue, NumberValue, TextValue;
      assert SymCoherent(s, u, x);
      if syms[s].cachedVal.Some? { return syms[s].cachedVal.value; }
      hide SymCoherent;
      var d := c.syms[s];
      var r: Outcome;
      if d.ty == Unknown {
        r := Outcome(s, false);
      } else {
        var vis := GetVisibility(s, u, x);
        if Logical(d.ty) {
          var t, write;
          if d.choice.Some? {
            t, write := GetMemberValue(s, vis, u, x);
          } else {
            t, write := GetFreeValue(s, vis, u, x);
          }
          if t == M && d.ty == Bool { t := Y; }
          r := Outcome(Show(t), write);
        } else if d.ty == Int || d.ty == Hex {
          r := GetNumberValue(s, vis, u, x);
        } else {
          r := GetTextValue(s, vis, u, x);
        }
      }
      StoreValue(s, r, u, x);
      v := r.text;
    }
  
    // ---------- dependency links ----------

    /** The links hold what the configuration says, and memoised dependents are right. */
    ghost predicate Linked()
      requires Static()
      reads syms.Values`dep, syms.Values`cachedDeps
    {
      forall s <- syms ::
        && syms[s].dep == DepOf(c, s)
        && (syms[s].cachedDeps.Some? ==> syms[s].cachedDeps.value == AllDependents(c, rank, s))
    }

    /** `t` has been added to the links of exactly the symbols in `names`. */
    ghost predicate Added(before: map<SymName, set<SymName>>, names: set<SymName>, t: SymName)
      requires before.Keys == syms.Keys
      reads syms.Values`dep
    {
      forall n <- syms :: syms[n].dep == before[n] + if n in names then {t} else {}
    }

    method AddDep(n: SymName, t: SymName, ghost before: map<SymName, set<SymName>>, ghost done: set<SymName>)
      requires forall a <- syms, b <- syms :: a != b ==> syms[a] != syms[b]
      requires before.Keys == syms.Keys && n in syms && Added(before, done, t)
      modifies syms.Values`dep
      ensures Added(before, done + {n}, t)
    {
      assert syms[n].dep == before[n] + if n in done then {t} else {};
      syms[n].dep := syms[n].dep + {t};
    }

    method AddExprDeps(names: set<SymName>, t: SymName, ghost before: map<SymName, set<SymName>>,
                       ghost done: set<SymName>)
      requires forall a <- syms, b <- syms :: a != b ==> syms[a] != syms[b]
      requires before.Keys == syms.Keys && names <= syms.Keys && Added(before, done, t)
      modifies syms.Values`dep
      ensures Added(before, done + names, t)
    {
      hide Added;
      var todo := names;
      assert done + (names - todo) == done;
      while todo != {}
        invariant todo <= names && Added(before, done + (names - todo), t)
        decreases todo
      {
        var n :| n in todo;
        ghost var sofar := done + (names - todo);
        AddDep(n, t, before, sofar);
        todo := todo - {n};
        assert done + (names - todo) == sofar + {n};
      }
      assert done + (names - {}) == done + names;
    }

    lemma {:induction false} DefaultSymsHas(ds: seq<Default>, i: nat)
      requires i < |ds|
      ensures DefaultSyms(ds[i..]) == SymsOf(ds[i].val) + SymsOfOpt(ds[i].cond) + DefaultSyms(ds[i + 1..])
    {
      assert ds[i..][1..] == ds[i + 1..];
    }

    lemma {:induction false} RangeSymsHas(rs: seq<Range>, i: nat)
      requires i < |rs|
      ensures RangeSyms(rs[i..]) ==
              AtomSyms(rs[i].low) + AtomSyms(rs[i].high) + SymsOfOpt(rs[i].cond) + RangeSyms(rs[i + 1..])
    {
      assert rs[i..][1..] == rs[i + 1..];
    }

    lemma {:induction false} PickSymsHas(ps: seq<Pick>, i: nat)
      requires i < |ps|
      ensures PickSyms(ps[i..]) == SymsOfOpt(ps[i].cond) + PickSyms(ps[i + 1..])
    {
      assert ps[i..][1..] == ps[i + 1..];
    }

    method AddPromptDeps(ps: seq<Option<Expr>>, t: SymName, ghost before: map<SymName, set<SymName>>,
                         ghost done: set<SymName>)
      requires forall a <- syms, b <- syms :: a != b ==> syms[a] != syms[b]
      requires before.Keys == syms.Keys && PromptSyms(ps) <= syms.Keys && Added(before, done, t)
      modifies syms.Values`dep
      ensures Added(before, done + PromptSyms(ps), t)
    {
      assert done == done + PromptSyms(ps[..0]);
      for i := 0 to |ps|
        invariant PromptSyms(ps[..i]) <= PromptSyms(ps)
        invariant Added(before, done + PromptSyms(ps[..i]), t)
      {
        PromptSymsGrow(ps, i + 1);
        assert ps[..i + 1][..i] == ps[..i] && ps[..i + 1][i] == ps[i];
        AddExprDeps(SymsOfOpt(ps[i]), t, before, done + PromptSyms(ps[..i]));
        assert done + PromptSyms(ps[..i]) + SymsOfOpt(ps[i]) == done + PromptSyms(ps[..i + 1]);
      }
      assert ps[..|ps|] == ps;
    }

    lemma {:induction false} PromptSymsGrow(ps: seq<Option<Expr>>, i: nat)
      requires i <= |ps|
      ensures PromptSyms(ps[..i]) <= PromptSyms(ps)
    {
      if i == |ps| {
        assert ps[..i] == ps;
      } else {
        PromptSymsGrow(ps[..|ps| - 1], i);
        assert ps[..|ps| - 1][..i] == ps[..i];
      }
    }

    method AddDefaultDeps(ds: seq<Default>, t: SymName, ghost before: map<SymName, set<SymName>>,
                          ghost done: set<SymName>)
      requires forall a <- syms, b <- syms :: a != b ==> syms[a] != syms[b]
      requires before.Keys == syms.Keys && DefaultSyms(ds) <= syms.Keys && Added(before, done, t)
      modifies syms.Values`dep
      ensures Added(before, done + DefaultSyms(ds), t)
    {
      ghost var sofar := done;
      for i := 0 to |ds|
        invariant DefaultSyms(ds[i..]) <= syms.Keys && sofar + DefaultSyms(ds[i..]) == done + DefaultSyms(ds)
        invariant Added(before, sofar, t)
      {
        DefaultSymsHas(ds, i);
        AddExprDeps(SymsOf(ds[i].val), t, before, sofar);
        AddExprDeps(SymsOfOpt(ds[i].cond), t, before, sofar + SymsOf(ds[i].val));
        sofar := sofar + SymsOf(ds[i].val) + SymsOfOpt(ds[i].cond);
      }
      assert sofar == sofar + DefaultSyms(ds[|ds|..]);
    }

    method AddRangeDeps(rs: seq<Range>, t: SymName, ghost before: map<SymName, set<SymName>>, ghost done: set<SymName>)
      requires forall a <- syms, b <- syms :: a != b ==> syms[a] != syms[b]
      requires before.Keys == syms.Keys && RangeSyms(rs) <= syms.Keys && Added(before, done, t)
      modifies syms.Values`dep
      ensures Added(before, done + RangeSyms(rs), t)
    {
      ghost var sofar := done;
      for i := 0 to |rs|
        invariant RangeSyms(rs[i..]) <= syms.Keys && sofar + RangeSyms(rs[i..]) == done + RangeSyms(rs)
        invariant Added(before, sofar, t)
      {
        RangeSymsHas(rs, i);
        AddExprDeps(AtomSyms(rs[i].low), t, before, sofar);
        AddExprDeps(AtomSyms(rs[i].high), t, before, sofar + AtomSyms(rs[i].low));
        AddExprDeps(SymsOfOpt(rs[i].cond), t, before, sofar + AtomSyms(rs[i].low) + AtomSyms(rs[i].high));
        sofar := sofar + AtomSyms(rs[i].low) + AtomSyms(rs[i].high) + SymsOfOpt(rs[i].cond);
      }
      assert sofar == sofar + RangeSyms(rs[|rs|..]);
    }

    method AddPickDeps(ps: seq<Pick>, t: SymName, ghost before: map<SymName, set<SymName>>, ghost done: set<SymName>)
      requires forall a <- syms, b <- syms :: a != b ==> syms[a] != syms[b]
      requires before.Keys == syms.Keys && PickSyms(ps) <= syms.Keys && Added(before, done, t)
      modifies syms.Values`dep
      ensures Added(before, done + PickSyms(ps), t)
    {
      ghost var sofar := done;
      for i := 0 to |ps|
        invariant PickSyms(ps[i..]) <= syms.Keys && sofar + PickSyms(ps[i..]) == done + PickSyms(ps)
        invariant Added(before, sofar, t)
      {
        PickSymsHas(ps, i);
        AddExprDeps(SymsOfOpt(ps[i].cond), t, before, sofar);
        sofar := sofar + SymsOfOpt(ps[i].cond);
      }
      assert sofar == sofar + PickSyms(ps[|ps|..]);
    }

    /** Adds `t` to the links of every symbol it reads directly. */
    method AddDeps(t: SymName, ghost before: map<SymName, set<SymName>>)
      requires forall a <- syms, b <- syms :: a != b ==> syms[a] != syms[b]
      requires t in c.syms && before.Keys == syms.Keys && DirectInputs(c, t) <= syms.Keys && Added(before, {}, t)
      requires c.syms[t].choice.Some? ==> c.syms[t].choice.value in c.choices
      modifies syms.Values`dep
      ensures Added(before, DirectInputs(c, t), t)
    {
      hide PromptSyms, DefaultSyms, RangeSyms, PickSyms, Added;
      var d := c.syms[t];
      AddPromptDeps(d.prompts, t, before, {});
      ghost var done := {} + PromptSyms(d.prompts);
      AddDefaultDeps(d.defaults, t, before, done);
      done := done + DefaultSyms(d.defaults);
      AddExprDeps(SymsOf(d.revDep), t, before, done);
      done := done + SymsOf(d.revDep);
      AddRangeDeps(d.ranges, t, before, done);
      done := done + RangeSyms(d.ranges);
      assert done == OwnInputs(d);
      if d.choice.Some? {
        var choice := c.choices[d.choice.value];
        AddPromptDeps(choice.prompts, t, before, done);
        AddPickDeps(choice.defaults, t, before, done + PromptSyms(choice.prompts));
        assert done + PromptSyms(choice.prompts) + PickSyms(choice.defaults) == DirectInputs(c, t);
      } else {
        assert done == DirectInputs(c, t);
      }
    }

    lemma LinksStep(ts: set<SymName>, t: SymName, n: SymName)
      requires t in c.syms && t !in ts
      ensures LinksAmong(ts + {t}, n) == LinksAmong(ts, n) + if n in DirectInputs(c, t) then {t} else {}
    {
      hide DirectInputs;
    }

    /** The part of the links of `n` that comes from the symbols in `ts`. */
    ghost function LinksAmong(ts: set<SymName>, n: SymName): set<SymName> {
      set t | t in ts && t in c.syms && n in DirectInputs(c, t)
    }

    /** Builds all dependency links. */
    method BuildDep()
      requires Static() && forall s <- syms :: syms[s].dep == {}
      modifies syms.Values`dep
      ensures forall s <- syms :: syms[s].dep == DepOf(c, s)
    {
      hide Static, DirectInputs, DepOf, LinksAmong;
      SymsDistinct();
      ghost var done: set<SymName> := {};
      NoLinks();
      var todo := c.syms.Keys;
      while todo != {}
        invariant done !! todo && done + todo == c.syms.Keys
        invariant forall n <- syms :: syms[n].dep == LinksAmong(done, n)
        decreases todo
      {
        var t :| t in todo;
        AddLinks(t, done);
        done, todo := done + {t}, todo - {t};
      }
      AllLinks();
    }

    method AddLinks(t: SymName, ghost done: set<SymName>)
      requires Static() && t in c.syms && t !in done && forall n <- syms :: syms[n].dep == LinksAmong(done, n)
      modifies syms.Values`dep
      ensures forall n <- syms :: syms[n].dep == LinksAmong(done + {t}, n)
    {
      hide Static, DirectInputs, LinksAmong, Added;
      SymsDistinct();
      InputsKnown(t);
      ghost var before := map n | n in syms :: syms[n].dep;
      NothingAdded(before, t);
      AddDeps(t, before);
      LinksGrow(before, done, t);
    }

    lemma NoLinks()
      ensures forall n :: LinksAmong({}, n) == {}
    {
    }

    lemma AllLinks()
      ensures forall n :: LinksAmong(c.syms.Keys, n) == DepOf(c, n)
    {
      hide DirectInputs;
    }

    lemma NothingAdded(before: map<SymName, set<SymName>>, t: SymName)
      requires before.Keys == syms.Keys && forall n <- syms :: before[n] == syms[n].dep
      ensures Added(before, {}, t)
    {
    }

    lemma LinksGrow(before: map<SymName, set<SymName>>, done: set<SymName>, t: SymName)
      requires before.Keys == syms.Keys && t in c.syms && t !in done
      requires forall n <- syms :: before[n] == LinksAmong(done, n)
      requires Added(before, DirectInputs(c, t), t)
      ensures forall n <- syms :: syms[n].dep == LinksAmong(done + {t}, n)
    {
      hide LinksAmong, DirectInputs;
      forall n | n in syms ensures syms[n].dep == LinksAmong(done + {t}, n) { LinksStep(done, t, n); }
    }

    lemma InputsKnown(t: SymName)
      requires Static() && t in c.syms
      ensures DirectInputs(c, t) <= c.syms.Keys
      ensures c.syms[t].choice.Some? ==> c.syms[t].choice.value in c.choices
    {
      assert InputsFirst(c, rank, t);
    }
  
    // ---------- dependents ----------

    /** `ds` and everything that depends on them. */
    ghost function From(ds: set<SymName>): set<SymName>
      requires Static()
    {
      ds + set d, t | d in ds && d in c.syms && t in AllDependents(c, rank, d) :: t
    }

    /** The links of the symbols in `bs`. */
    ghost function LinksOf(bs: set<SymName>): set<SymName> {
      set b, t | b in bs && t in DepOf(c, b) :: t
    }

    lemma DependentsUnfold(s: SymName)
      requires Static() && s in c.syms
      ensures AllDependents(c, rank, s) == (Group(c, s) - {s}) + From(LinksOf(Group(c, s)))
    {
      hide Model, Closed, Ordered, Group, DepOf, Above;
      GraphOrdered(c, rank);
      var g := GraphOf(c);
      assert g.group[s] == Group(c, s);
      hide Model, Closed, Ordered, LinksOf, GraphOf, GroupDeps, Group, Above;
      forall d ensures d in GroupDeps(g, rank, s) <==> d in LinksOf(Group(c, s)) { GroupLink(s, d); }
      FromIsDependentsOf(GroupDeps(g, rank, s), s);
    }

    lemma FromIsDependentsOf(ds: set<SymName>, s: SymName)
      requires Static() && s in c.syms && Ordered(GraphOf(c), rank)
      requires forall d <- ds :: d in rank && Above(rank, d) < Above(rank, s)
      ensures From(ds) == DependentsOf(GraphOf(c), rank, ds, s)
    {
      hide Model, Closed, Ordered, GraphOf, Above, Dependents;
      forall d | d in ds ensures d in c.syms && AllDependents(c, rank, d) == Dependents(GraphOf(c), rank, d) { }
    }

    lemma GroupLink(s: SymName, d: SymName)
      requires Static() && s in c.syms && Ordered(GraphOf(c), rank)
      ensures d in GroupDeps(GraphOf(c), rank, s) <==> d in LinksOf(Group(c, s))
    {
      hide Closed, Acyclic, Ordered, DirectInputs, DepOf, Group;
      var g := GraphOf(c);
      assert g.group[s] == Group(c, s);
      forall b | b in Group(c, s) ensures b in c.syms && g.dep[b] == DepOf(c, b) { GroupFacts(c, rank, s, b); }
    }

    lemma LinksComeAfter(s: SymName, d: SymName)
      requires Static() && s in c.syms && d in LinksOf(Group(c, s))
      ensures d in c.syms && Above(rank, d) < Above(rank, s)
    {
      hide Model, Closed, Group, DepOf;
      var b :| b in Group(c, s) && d in DepOf(c, b);
      GroupFacts(c, rank, s, b);
      DepsComeLater(c, rank, b, d);
      AboveShrinks(rank, s, d);
    }

    /** The symbols in `ds` and all their dependents. */
    method CollectDependents(ds: set<SymName>, ghost s: SymName) returns (res: set<SymName>)
      requires Static() && Linked() && s in c.syms && ds <= LinksOf(Group(c, s))
      modifies syms.Values`cachedDeps
      ensures Linked() && res == From(ds)
      decreases Above(rank, s), 0
    {
      hide Model, Closed, Above, AllDependents, LinksOf, DepOf, Group;
      res := ds;
      var todo := ds;
      ghost var done: set<SymName> := {};
      while todo != {}
        invariant Linked() && done !! todo && done + todo == ds
        invariant res == ds + From(done)
        decreases todo
      {
        var d :| d in todo;
        LinksComeAfter(s, d);
        var more := GetDependent(d);
        res := res + more;
        assert From(done + {d}) == From(done) + {d} + more;
        done, todo := done + {d}, todo - {d};
      }
      assert done == ds;
    }

    /** All dependents of a symbol, memoised; choice symbols also depend on their siblings. */
    method GetDependent(s: SymName) returns (res: set<SymName>)
      requires Static() && Linked() && s in c.syms
      modifies syms.Values`cachedDeps
      ensures Linked() && res == AllDependents(c, rank, s)
      decreases Above(rank, s), 2
    {
      hide Model, Closed, Above, AllDependents, From, DepOf;
      if syms[s].cachedDeps.Some? { return syms[s].cachedDeps.value; }
      InOwnGroup(c, s);
      DependentsUnfold(s);
      assert LinksOf({s}) == syms[s].dep;
      assert LinksOf({s}) <= LinksOf(Group(c, s));
      res := CollectDependents(syms[s].dep, s);
      if c.syms[s].choice.Some? {
        MembersAreGroup(s);
        var siblings := AddSiblings(s, c.choices[c.syms[s].choice.value].members);
        res := res + siblings;
        FromLinksUnion(s);
      } else {
        assert Group(c, s) == {s};
      }
      syms[s].cachedDeps := Some(res);
    }

    lemma MembersAreGroup(s: SymName)
      requires Static() && s in c.syms && c.syms[s].choice.Some?
      ensures c.syms[s].choice.value in c.choices
      ensures forall m <- c.choices[c.syms[s].choice.value].members :: m in Group(c, s)
      ensures Group(c, s) == set m | m in c.choices[c.syms[s].choice.value].members
    {
      hide Model, Acyclic, Group;
      ChoiceGroup(c, s);
      hide Closed;
    }

    lemma FromLinksUnion(s: SymName)
      requires Static() && s in c.syms && s in Group(c, s)
      ensures From(LinksOf(Group(c, s))) == From(LinksOf({s})) + From(LinksOf(Group(c, s) - {s}))
    {
      hide Model, Closed, AllDependents, DepOf, Group;
      assert LinksOf(Group(c, s)) == LinksOf({s}) + LinksOf(Group(c, s) - {s});
      hide LinksOf;
    }

    /** The siblings of `s` and what depends on them. */
    method AddSiblings(s: SymName, members: seq<SymName>) returns (res: set<SymName>)
      requires Static() && Linked() && s in c.syms && forall m <- members :: m in Group(c, s)
      modifies syms.Values`cachedDeps
      ensures Linked()
      ensures res == ((set m | m in members) - {s}) + From(LinksOf((set m | m in members) - {s}))
      decreases Above(rank, s), 1
    {
      hide Model, Closed, Above, AllDependents, From, DepOf, Group;
      res := {};
      ghost var done: set<SymName> := {};
      FromNothing();
      for i := 0 to |members|
        invariant Linked() && done == (set m | m in members[..i]) - {s}
        invariant res == done + From(LinksOf(done))
      {
        var sibling := members[i];
        assert members[..i + 1] == members[..i] + [sibling];
        if sibling != s {
          GroupFacts(c, rank, s, sibling);
          assert LinksOf({sibling}) == DepOf(c, sibling) && DepOf(c, sibling) <= LinksOf(Group(c, s));
          var more := CollectDependents(syms[sibling].dep, s);
          res := res + {sibling} + more;
          FromOneMore(done, sibling);
          done := done + {sibling};
        }
      }
      assert members[..|members|] == members;
    }

    lemma FromNothing()
      requires Static()
      ensures From(LinksOf({})) == {}
    {
    }

    lemma FromOneMore(bs: set<SymName>, b: SymName)
      requires Static()
      ensures From(LinksOf(bs + {b})) == From(LinksOf(bs)) + From(DepOf(c, b))
    {
      hide Model, Closed, AllDependents, DepOf;
      assert LinksOf(bs + {b}) == LinksOf(bs) + DepOf(c, b);
      hide LinksOf;
    }
  
    // ---------- invalidation ----------

    ghost function Snapshot(): Caches
      reads syms.Values`cachedVal, syms.Values`cachedVis, syms.Values`writeToConf
      reads chs.Values`cachedSelection, chs.Values`cachedVis
    {
      Caches(map s | s in syms :: SymCache(syms[s].cachedVal, syms[s].cachedVis, syms[s].writeToConf),
             map k | k in chs :: ChoiceCache(chs[k].cachedSelection, chs[k].cachedVis))
    }

    method InvalidateChoice(k: ChoiceId)
      requires Static() && k in c.choices
      modifies chs.Values`cachedVis, chs.Values`cachedSelection
      ensures Snapshot() == old(Snapshot()).(choices := old(Snapshot()).choices[k := ChoiceCache(None, None)])
    {
      hide Model, Closed;
      chs[k].cachedSelection, chs[k].cachedVis := None, None;
    }

    method InvalidateOwn(s: SymName)
      requires Static() && s in c.syms
      modifies syms.Values`cachedVal, syms.Values`cachedVis
      ensures Snapshot() ==
              old(Snapshot()).(syms := old(Snapshot()).syms[s := SymCache(None, None, syms[s].writeToConf)])
    {
      hide Model, Closed;
      syms[s].cachedVal, syms[s].cachedVis := None, None;
    }

    method Invalidate(s: SymName)
      requires Static() && s in c.syms
      modifies syms.Values`cachedVal, syms.Values`cachedVis, chs.Values`cachedVis, chs.Values`cachedSelection
      ensures Snapshot() == Forgotten(c, old(Snapshot()), {s})
    {
      hide Model, Closed, HasMember;
      ghost var q := Snapshot();
      assert q.syms.Keys == c.syms.Keys && q.choices.Keys == c.choices.Keys;
      assert s in q.syms && q.syms[s].write == syms[s].writeToConf;
      hide Snapshot, Forgotten;
      var d := c.syms[s];
      if d.special.Some? {
        SpecialIsNoMember(s);
        ForgetSpecial(c, q, s);
      } else {
        MemberOfOwnChoice(s);
        ForgetOne(c, q, s);
        if d.choice.Some? { InvalidateChoice(d.choice.value); }
        InvalidateOwn(s);
      }
    }

    lemma SpecialIsNoMember(s: SymName)
      requires Static() && s in c.syms && c.syms[s].special.Some?
      ensures forall k <- c.choices :: !HasMember(c, k, {s})
    {
      hide Model;
      forall k | k in c.choices ensures !HasMember(c, k, {s}) { assert ClosedChoice(c, k); }
    }

    lemma MemberOfOwnChoice(s: SymName)
      requires Static() && s in c.syms
      ensures c.syms[s].choice.Some? ==> c.syms[s].choice.value in c.choices
      ensures forall k <- c.choices :: HasMember(c, k, {s}) <==> c.syms[s].choice == Some(k)
    {
      hide Model;
      forall k | k in c.choices ensures HasMember(c, k, {s}) <==> c.syms[s].choice == Some(k) {
        assert ClosedChoice(c, k);
      }
    }

    /** Invalidates each of the symbols in `ss`. */
    method InvalidateEach(ss: set<SymName>)
      requires Static() && ss <= c.syms.Keys
      modifies syms.Values`cachedVal, syms.Values`cachedVis, chs.Values`cachedVis, chs.Values`cachedSelection
      ensures Snapshot() == Forgotten(c, old(Snapshot()), ss)
    {
      hide Model, Closed, Forgotten;
      var todo := ss;
      ghost var done: set<SymName> := {};
      ForgetNothing(c, Snapshot());
      while todo != {}
        invariant done !! todo && done + todo == ss
        invariant Snapshot() == Forgotten(c, old(Snapshot()), done)
        decreases todo
      {
        var s :| s in todo;
        Invalidate(s);
        ForgetTwice(c, old(Snapshot()), done, {s});
        done, todo := done + {s}, todo - {s};
      }
      assert done == ss;
    }

    method InvalidateDependent(s: SymName)
      requires Static() && Linked() && s in c.syms
      modifies syms.Values`cachedDeps
      modifies syms.Values`cachedVal, syms.Values`cachedVis, chs.Values`cachedVis, chs.Values`cachedSelection
      ensures Linked() && Snapshot() == Forgotten(c, old(Snapshot()), AllDependents(c, rank, s))
    {
      hide Model, Closed, AllDependents, DepOf, Linked, Forgotten, Snapshot;
      var ds := GetDependent(s);
      DependentsKnown(s);
      InvalidateEach(ds);
    }

    lemma DependentsKnown(s: SymName)
      requires Static() && s in c.syms
      ensures AllDependents(c, rank, s) <= c.syms.Keys
    {
      GraphOrdered(c, rank);
      hide Model, Closed, GraphOf, Ordered, Dependents;
      forall t | t in AllDependents(c, rank, s) ensures t in c.syms { DependentsAreReachable(GraphOf(c), rank, s, t); }
    }

    // ---------- what survives an assignment ----------

    /** The caches `q` agree with recomputation. */
    ghost predicate CachesOk(q: Caches, p: Pins, u: Users, x: Ctx)
      requires Closed(c) && UsersOk(c, u)
    {
      && q.syms.Keys == c.syms.Keys && q.choices.Keys == c.choices.Keys
      && (forall s <- c.syms :: SymCacheOk(s, q.syms[s], p, u, x))
      && (forall k <- c.choices :: ChoiceCacheOk(k, q.choices[k], p, u, x))
    }

    ghost predicate SymCacheOk(s: SymName, o: SymCache, p: Pins, u: Users, x: Ctx)
      requires Closed(c) && UsersOk(c, u) && s in c.syms
    {
      && (c.syms[s].special.Some? ==> o.val == c.syms[s].special)
      && (c.syms[s].ty == Unknown ==> !o.write)
      && (o.val.Some? ==> o.val.value == Value(c, x, u, s).text)
      && (o.val.Some? && c.syms[s].special.None? ==> o.write == Value(c, x, u, s).write)
      && (o.vis.Some? && c.syms[s].special.None? ==> o.vis.value == Vis(c, x, s))
      && (c.syms[s].special.Some? ==> o.vis == if s in p.syms then Some(p.syms[s]) else None)
    }

    ghost predicate ChoiceCacheOk(k: ChoiceId, o: ChoiceCache, p: Pins, u: Users, x: Ctx)
      requires Closed(c) && UsersOk(c, u) && k in c.choices
    {
      && (o.vis.Some? && Populated(c, k) ==> o.vis.value == ChoiceVis(c, x, k))
      && (o.sel.Some? ==> o.sel.value == Selection(c, x, u, k))
      && (!Populated(c, k) ==>
            o.vis == (if k in p.choices then Some(p.choices[k]) else None) && (o.sel.Some? ==> k in p.choices))
    }

    lemma CoherentCaches(u: Users, x: Ctx)
      requires Static() && UsersOk(c, u)
      ensures Coherent(u, x) <==> u == U() && x == World(c, rank, u) && CachesOk(Snapshot(), pinned, u, x)
    {
      hide Model, Closed, UsersOk, Value, Vis, ChoiceVis, Selection, World, Populated;
      var q := Snapshot();
      assert forall s <- c.syms :: SymCoherent(s, u, x) <==> SymCacheOk(s, q.syms[s], pinned, u, x);
      assert forall k <- c.choices :: ChoiceCoherent(k, u, x) <==> ChoiceCacheOk(k, q.choices[k], pinned, u, x);
    }

    /** A cache that is not dropped stays right when what it holds does not change. */
    lemma SymSurvives(q: Caches, p: Pins, u: Users, u': Users, x: Ctx, x': Ctx, ss: set<SymName>, t: SymName)
      requires Closed(c) && UsersOk(c, u) && UsersOk(c, u')
      requires t in c.syms && t in q.syms && SymCacheOk(t, q.syms[t], p, u, x)
      requires t !in ss && c.syms[t].special.None? ==> SymKept(c, x, u, x', u', t)
      ensures SymCacheOk(t, Forgotten(c, q, ss).syms[t], p, u', x')
    {
      hide Closed, UsersOk, Value, Vis;
      if c.syms[t].special.Some? { SpecialValue(t, u, u', x, x'); }
    }

    lemma ChoiceSurvives(q: Caches, p: Pins, u: Users, u': Users, x: Ctx, x': Ctx, ss: set<SymName>, k: ChoiceId)
      requires Closed(c) && UsersOk(c, u) && UsersOk(c, u')
      requires k in c.choices && k in q.choices && ChoiceCacheOk(k, q.choices[k], p, u, x)
      requires Populated(c, k) && (forall m <- c.choices[k].members :: m !in ss) ==> ChoiceKept(c, x, u, x', u', k)
      ensures ChoiceCacheOk(k, Forgotten(c, q, ss).choices[k], p, u', x')
    {
      if !Populated(c, k) {
        OrphanSelection(c, x, u, k);
        OrphanSelection(c, x', u', k);
      }
      hide Closed, UsersOk, ChoiceVis, Selection;
      if !HasMember(c, k, ss) { assert forall m <- c.choices[k].members :: m !in ss; }
    }

    /** What is not dropped survives a change of user values that does not change it. */
    lemma CachesSurvive(q: Caches, p: Pins, u: Users, u': Users, ss: set<SymName>)
      requires Static() && UsersOk(c, u) && UsersOk(c, u')
      requires CachesOk(q, p, u, World(c, rank, u)) && KeepsRest(c, rank, u, u', ss)
      ensures CachesOk(Forgotten(c, q, ss), p, u', World(c, rank, u'))
    {
      hide Model, Closed, UsersOk, World, SymCacheOk, ChoiceCacheOk, SymKept, ChoiceKept, Populated;
      var x, x' := World(c, rank, u), World(c, rank, u');
      ghost var q' := Forgotten(c, q, ss);
      assert q'.syms.Keys == q.syms.Keys && q'.choices.Keys == q.choices.Keys;
      hide Forgotten;
      forall t | t in c.syms ensures SymCacheOk(t, q'.syms[t], p, u', x') { SymSurvives(q, p, u, u', x, x', ss, t); }
      forall k | k in c.choices ensures ChoiceCacheOk(k, q'.choices[k], p, u', x') {
        ChoiceSurvives(q, p, u, u', x, x', ss, k);
      }
    }

    /** Everything that can be dropped is cached. */
    ghost predicate Full(q: Caches) {
      && q.syms.Keys == c.syms.Keys && q.choices.Keys == c.choices.Keys
      && (forall s <- c.syms :: c.syms[s].special.None? ==> q.syms[s].val.Some? && q.syms[s].vis.Some?)
      && (forall k <- c.choices :: Populated(c, k) ==> q.choices[k].vis.Some? && q.choices[k].sel.Some?)
    }

    /** For full caches nothing less will do. */
    lemma CachesSurviveOnlyIf(q: Caches, p: Pins, u: Users, u': Users, ss: set<SymName>)
      requires Static() && UsersOk(c, u) && UsersOk(c, u') && Full(q)
      requires CachesOk(q, p, u, World(c, rank, u)) && CachesOk(Forgotten(c, q, ss), p, u', World(c, rank, u'))
      ensures KeepsRest(c, rank, u, u', ss)
    {
      hide Model, Closed, UsersOk, World;
      var x, x' := World(c, rank, u), World(c, rank, u');
      var q' := Forgotten(c, q, ss);
      forall t | t in c.syms && t !in ss && c.syms[t].special.None? ensures SymKept(c, x, u, x', u', t) {
        assert q'.syms[t] == q.syms[t];
        SymOnly(t, q.syms[t], p, u, u', x, x');
      }
      forall k | k in c.choices && Populated(c, k) && forall m <- c.choices[k].members :: m !in ss
        ensures ChoiceKept(c, x, u, x', u', k)
      {
        assert !HasMember(c, k, ss) && q'.choices[k] == q.choices[k];
        ChoiceOnly(k, q.choices[k], p, u, u', x, x');
      }
    }

    lemma SymOnly(t: SymName, o: SymCache, p: Pins, u: Users, u': Users, x: Ctx, x': Ctx)
      requires Closed(c) && UsersOk(c, u) && UsersOk(c, u') && t in c.syms && c.syms[t].special.None?
      requires o.val.Some? && o.vis.Some? && SymCacheOk(t, o, p, u, x) && SymCacheOk(t, o, p, u', x')
      ensures SymKept(c, x, u, x', u', t)
    {
      hide Closed, UsersOk, Value, Vis;
    }

    lemma ChoiceOnly(k: ChoiceId, o: ChoiceCache, p: Pins, u: Users, u': Users, x: Ctx, x': Ctx)
      requires Closed(c) && UsersOk(c, u) && UsersOk(c, u') && k in c.choices && Populated(c, k)
      requires o.vis.Some? && o.sel.Some? && ChoiceCacheOk(k, o, p, u, x) && ChoiceCacheOk(k, o, p, u', x')
      ensures ChoiceKept(c, x, u, x', u', k)
    {
      hide Closed, UsersOk, ChoiceVis, Selection;
    }

    lemma SpecialValue(t: SymName, u: Users, u': Users, x: Ctx, x': Ctx)
      requires Closed(c) && UsersOk(c, u) && UsersOk(c, u') && t in c.syms && c.syms[t].special.Some?
      ensures Value(c, x, u, t) == Value(c, x', u', t) == Outcome(c.syms[t].special.value, false)
    {
      hide Closed, UsersOk;
    }

    lemma ChoiceHasMembers(k: ChoiceId)
      requires Static() && k in c.choices && Populated(c, k)
      ensures HasMember(c, k, c.syms.Keys)
    {
      assert ClosedChoice(c, k);
      assert c.choices[k].members[0] in c.choices[k].members;
    }

    // ---------- operations ----------

    /** The configuration as its users see it: caches agree with recomputation from the user values. */
    ghost predicate Fresh()
      reads this`pinned, syms.Values, chs.Values
    {
      Static() && Linked() && UsersOk(c, U()) && Coherent(U(), World(c, rank, U()))
    }

    method PutUser(s: SymName, v: Option<string>)
      requires Static() && s in c.syms
      modifies syms.Values`userVal
      ensures U() == old(U()).(sym := if v.Some? then old(U()).sym[s := v.value] else old(U()).sym - {s})
    {
      hide Model, Closed;
      syms[s].userVal := v;
    }

    method PutChoice(k: ChoiceId, sel: Option<SymName>, mode: Option<Tri>)
      requires Static() && k in c.choices
      modifies chs.Values`userVal, chs.Values`userMode
      ensures U().sym == old(U()).sym
      ensures U().sel == if sel.Some? then old(U()).sel[k := sel.value] else old(U()).sel - {k}
      ensures U().mode == if mode.Some? then old(U()).mode[k := mode.value] else old(U()).mode - {k}
    {
      hide Static, U;
      PutSel(k, sel);
      PutMode(k, mode);
    }

    method PutSel(k: ChoiceId, sel: Option<SymName>)
      requires Static() && k in c.choices
      modifies chs.Values`userVal
      ensures U() == old(U()).(sel := if sel.Some? then old(U()).sel[k := sel.value] else old(U()).sel - {k})
    {
      hide Static;
      KeysOf(k);
      chs[k].userVal := sel;
    }

    method PutMode(k: ChoiceId, mode: Option<Tri>)
      requires Static() && k in c.choices
      modifies chs.Values`userMode
      ensures U() == old(U()).(mode := if mode.Some? then old(U()).mode[k := mode.value] else old(U()).mode - {k})
    {
      hide Static;
      KeysOf(k);
      chs[k].userMode := mode;
    }

    lemma KeysOf(k: ChoiceId)
      requires Static() && k in c.choices
      ensures chs.Keys == c.choices.Keys && forall a <- chs, b <- chs :: a != b ==> chs[a] != chs[b]
    {
    }

    /** The assignment alone, without any invalidation. */
    method AssignUser(s: SymName, v: string)
      requires Static() && s in c.syms
      modifies syms.Values`userVal, chs.Values`userVal, chs.Values`userMode
      ensures U() == Assigned(c, old(U()), s, v)
    {
      hide Model, Closed, ValidFor, HasMember, U;
      var d := c.syms[s];
      MemberOfOwnChoice(s);
      if d.special.None? && d.defined && ValidFor(c, s, v) {
        PutUser(s, Some(v));
        if d.choice.Some? && Logical(d.ty) {
          if v == "y" {
            PutChoice(d.choice.value, Some(s), Some(Y));
          } else if v == "m" {
            PutChoice(d.choice.value, None, Some(M));
          }
        }
      }
    }

    /** Removes the user value and invalidates the symbol itself; a member also resets its choice. */
    method UnassignUser(s: SymName)
      requires Static() && s in c.syms
      modifies syms.Values`userVal, chs.Values`userVal, chs.Values`userMode
      modifies syms.Values`cachedVal, syms.Values`cachedVis, chs.Values`cachedVis, chs.Values`cachedSelection
      ensures U() == Unassigned(c, old(U()), s)
      ensures Snapshot() == Forgotten(c, old(Snapshot()), {s})
    {
      hide Model, Closed, HasMember, U, Forgotten, Unassigned, Snapshot;
      Invalidate(s);
      DropUser(s);
    }

    method DropUser(s: SymName)
      requires Static() && s in c.syms
      modifies syms.Values`userVal, chs.Values`userVal, chs.Values`userMode
      ensures U() == Unassigned(c, old(U()), s)
    {
      hide Model, Closed, HasMember, U;
      PutUser(s, None);
      MemberOfOwnChoice(s);
      if c.syms[s].choice.Some? { PutChoice(c.syms[s].choice.value, None, None); }
    }

    lemma ConeIs(s: SymName)
      requires Static() && s in c.syms
      ensures ConeOf(c, rank, s) == {s} + AllDependents(c, rank, s)
    {
      hide Model, Closed, GraphOf, Dependents;
      GraphOrdered(c, rank);
    }

    /** Invalidates a symbol and its dependents. */
    method InvalidateCone(s: SymName)
      requires Static() && Linked() && s in c.syms
      modifies syms.Values`cachedDeps
      modifies syms.Values`cachedVal, syms.Values`cachedVis, chs.Values`cachedVis, chs.Values`cachedSelection
      ensures Linked() && Snapshot() == Forgotten(c, old(Snapshot()), ConeOf(c, rank, s))
    {
      hide Model, Closed, AllDependents, ConeOf, DepOf, Forgotten, Snapshot;
      ghost var q := Snapshot();
      Invalidate(s);
      InvalidateDependent(s);
      ForgetTwice(c, q, {s}, AllDependents(c, rank, s));
      ConeIs(s);
    }

    /** The caches were `q`, right for the user values `u`, and since then those of `ss` have been dropped. User
        values may have changed in any way. */
    ghost predicate Since(q: Caches, u: Users, ss: set<SymName>)
      reads this`pinned, syms.Values, chs.Values
    {
      && Static() && Linked() && UsersOk(c, u) && UsersOk(c, U())
      && CachesOk(q, pinned, u, World(c, rank, u)) && Snapshot() == Forgotten(c, q, ss)
    }

    /** Then all caches are right if nothing else changed in between; and if all caches were filled, only then. */
    lemma FreshSince(q: Caches, u: Users, ss: set<SymName>)
      requires Since(q, u, ss)
      ensures Static() && UsersOk(c, u) && UsersOk(c, U())
      ensures KeepsRest(c, rank, u, U(), ss) ==> Fresh()
      ensures Full(q) && Fresh() ==> KeepsRest(c, rank, u, U(), ss)
    {
      hide Model, Closed, UsersOk, World, CachesOk, Forgotten, DiffersAt, ConeOf, U, Snapshot, DepOf, AllDependents,
           Coherent;
      hide KeepsRest, Full;
      CoherentCaches(U(), World(c, rank, U()));
      if KeepsRest(c, rank, u, U(), ss) { CachesSurvive(q, pinned, u, U(), ss); }
      if Full(q) && Fresh() { CachesSurviveOnlyIf(q, pinned, u, U(), ss); }
    }

    /** Right caches are right since now. */
    lemma SinceNow()
      requires Fresh()
      ensures Since(Snapshot(), U(), {})
    {
      hide Model, Closed, UsersOk, World, CachesOk, Forgotten, U, Snapshot, DepOf, AllDependents, Coherent;
      CoherentCaches(U(), World(c, rank, U()));
      ForgetNothing(c, Snapshot());
    }

    /** What the operations need of it. */
    lemma SinceParts(q: Caches, u: Users, ss: set<SymName>)
      requires Since(q, u, ss)
      ensures Static() && Linked() && UsersOk(c, U()) && Snapshot() == Forgotten(c, q, ss)
      ensures UsersOk(c, u) && CachesOk(q, pinned, u, World(c, rank, u))
    {
    }

    /** Dropping more. */
    lemma SinceMore(q: Caches, u: Users, ss: set<SymName>, was: Caches, ts: set<SymName>)
      requires Static() && Linked() && UsersOk(c, u) && UsersOk(c, U())
      requires CachesOk(q, pinned, u, World(c, rank, u))
      requires was == Forgotten(c, q, ss) && Snapshot() == Forgotten(c, was, ts)
      ensures Since(q, u, ss + ts)
    {
      hide Model, Closed, UsersOk, World, CachesOk, Forgotten, U, Snapshot, DepOf, AllDependents;
      ForgetTwice(c, q, ss, ts);
    }

    lemma FreshParts()
      requires Fresh()
      ensures Closed(c) && Model(c, rank) && UsersOk(c, U()) && syms.Keys == c.syms.Keys && chs.Keys == c.choices.Keys
    {
    }

    /** The symbols whose caches set_user_value drops. */
    ghost function Dropped(s: SymName): set<SymName>
      requires Static() && s in c.syms
    {
      if s == MODULES then c.syms.Keys else ConeOf(c, rank, s)
    }

    /** Assigns a user value and invalidates what depends on it; assigning MODULES invalidates everything.
        Afterwards the caches agree with recomputation again if and, when they were full, only if nothing
        changed that was not dropped. */
    method SetUserValue(s: SymName, v: string, ghost q: Caches, ghost u: Users, ghost ss: set<SymName>)
      requires Since(q, u, ss) && s in c.syms
      modifies syms.Values, chs.Values
      ensures Since(q, u, ss + Dropped(s)) && U() == Assigned(c, old(U()), s, v)
      ensures Snapshot() == Forgotten(c, old(Snapshot()), Dropped(s))
      ensures s == MODULES || KeepsRest(c, rank, u, U(), ss + Dropped(s)) ==> Fresh()
      ensures Full(q) && Fresh() ==> KeepsRest(c, rank, u, U(), ss + Dropped(s))
    {
      hide *;
      SinceParts(q, u, ss);
      ghost var was := Snapshot();
      AssignAndDrop(s, v);
      SinceMore(q, u, ss, was, Dropped(s));
      FreshSince(q, u, ss + Dropped(s));
      DroppedAll(s);
      if s == MODULES { AllDropped(c, rank, u, U(), ss + Dropped(s)); }
    }

    lemma DroppedAll(s: SymName)
      requires Static() && s in c.syms
      ensures s == MODULES ==> Dropped(s) == c.syms.Keys
    {
    }

    method AssignAndDrop(s: SymName, v: string)
      requires Static() && Linked() && UsersOk(c, U()) && s in c.syms
      modifies syms.Values, chs.Values
      ensures Linked() && UsersOk(c, U()) && U() == Assigned(c, old(U()), s, v)
      ensures Snapshot() == Forgotten(c, old(Snapshot()), Dropped(s))
    {
      hide Model, Closed, UsersOk, Assigned, Forgotten, U, Snapshot, Linked, Dropped;
      AssignedOk(c, U(), s, v);
      AssignUser(s, v);
      InvalidateFor(s);
    }

    method InvalidateFor(s: SymName)
      requires Static() && Linked() && s in c.syms
      modifies syms.Values`cachedDeps
      modifies syms.Values`cachedVal, syms.Values`cachedVis, chs.Values`cachedVis, chs.Values`cachedSelection
      ensures Linked() && Snapshot() == Forgotten(c, old(Snapshot()), Dropped(s))
    {
      hide Model, Closed, ConeOf, DepOf, AllDependents, Forgotten, Snapshot;
      if s == MODULES { InvalidateEach(c.syms.Keys); } else { InvalidateCone(s); }
    }

    /** Removes a user value and invalidates what depends on it, also for MODULES. */
    method UnsetUserValue(s: SymName, ghost q: Caches, ghost u: Users, ghost ss: set<SymName>)
      requires Since(q, u, ss) && s in c.syms
      modifies syms.Values, chs.Values
      ensures Since(q, u, ss + ConeOf(c, rank, s)) && U() == Unassigned(c, old(U()), s)
      ensures Snapshot() == Forgotten(c, old(Snapshot()), ConeOf(c, rank, s))
      ensures KeepsRest(c, rank, u, U(), ss + ConeOf(c, rank, s)) ==> Fresh()
      ensures Full(q) && Fresh() ==> KeepsRest(c, rank, u, U(), ss + ConeOf(c, rank, s))
    {
      hide *;
      SinceParts(q, u, ss);
      ghost var was := Snapshot();
      UnassignAndDrop(s);
      SinceMore(q, u, ss, was, ConeOf(c, rank, s));
      FreshSince(q, u, ss + ConeOf(c, rank, s));
    }

    method UnassignAndDrop(s: SymName)
      requires Static() && Linked() && UsersOk(c, U()) && s in c.syms
      modifies syms.Values, chs.Values
      ensures Linked() && UsersOk(c, U()) && U() == Unassigned(c, old(U()), s)
      ensures Snapshot() == Forgotten(c, old(Snapshot()), ConeOf(c, rank, s))
    {
      hide Model, Closed, UsersOk, ConeOf, DepOf, AllDependents, Unassigned, Forgotten, U, Snapshot, DiffersAt;
      ghost var was := Snapshot();
      UnassignedOk(c, U(), s);
      UnassignUser(s);
      InvalidateDependent(s);
      ForgetTwice(c, was, {s}, AllDependents(c, rank, s));
      ConeIs(s);
    }

    lemma LosesMember(k: ChoiceId, s: SymName, todo: set<SymName>)
      requires Static() && s in todo && s in c.syms && HasMember(c, k, todo) && c.syms[s].choice != Some(k)
      ensures HasMember(c, k, todo - {s})
    {
      hide Model;
      var m :| m in c.choices[k].members && m in todo;
      assert ClosedChoice(c, k);
      assert m in todo - {s};
    }

    lemma FewerLeft(u: Users, s: SymName, todo: set<SymName>)
      requires Static() && s in todo && s in c.syms && OnlyLeft(c, u, todo)
      ensures OnlyLeft(c, Unassigned(c, u, s), todo - {s})
    {
      hide Model, Closed, HasMember;
      var w := Unassigned(c, u, s);
      forall k | k in w.sel ensures HasMember(c, k, todo - {s}) { LosesMember(k, s, todo); }
      forall k | k in w.mode ensures HasMember(c, k, todo - {s}) { LosesMember(k, s, todo); }
    }

    /** Removes all user values, and drops every cache that can be dropped. */
    method UnsetUserValues(ghost q: Caches, ghost u: Users, ghost ss: set<SymName>)
      requires Since(q, u, ss)
      modifies syms.Values, chs.Values
      ensures Fresh() && U() == NOBODY && Since(q, u, ss + c.syms.Keys)
      ensures Snapshot() == Forgotten(c, old(Snapshot()), c.syms.Keys)
    {
      hide *;
      SinceParts(q, u, ss);
      ghost var was := Snapshot();
      UnassignEach();
      SinceMore(q, u, ss, was, c.syms.Keys);
      FreshSince(q, u, ss + c.syms.Keys);
      AllDropped(c, rank, u, U(), ss + c.syms.Keys);
    }

    method UnassignEach()
      requires Static() && Linked() && UsersOk(c, U())
      modifies syms.Values, chs.Values
      ensures Linked() && UsersOk(c, U()) && U() == NOBODY && Snapshot() == Forgotten(c, old(Snapshot()), c.syms.Keys)
    {
      hide Model, Closed, UsersOk, DepOf, AllDependents, Unassigned, Forgotten, U, Snapshot, HasMember;
      ghost var was := Snapshot();
      ForgetNothing(c, was);
      var todo := c.syms.Keys;
      ghost var done: set<SymName> := {};
      AllLeft(U());
      while todo != {}
        invariant Linked() && done !! todo && done + todo == c.syms.Keys
        invariant UsersOk(c, U()) && OnlyLeft(c, U(), todo)
        invariant Snapshot() == Forgotten(c, was, done)
        decreases todo
      {
        var s :| s in todo;
        UnassignedOk(c, U(), s);
        FewerLeft(U(), s, todo);
        UnassignUser(s);
        ForgetTwice(c, was, done, {s});
        done, todo := done + {s}, todo - {s};
      }
      assert done == c.syms.Keys;
      NothingIsLeft(U());
    }

    /** Loading a .config file: everything is dropped first, then each setting of a known symbol is assigned
        without any further invalidation. */
    method LoadConfig(replace: bool, settings: seq<(SymName, string)>,
                      ghost q: Caches, ghost u: Users, ghost ss: set<SymName>)
      requires Since(q, u, ss)
      modifies syms.Values, chs.Values
      ensures Fresh() && U() == Loaded(c, if replace then NOBODY else old(U()), settings)
      ensures Since(q, u, ss + c.syms.Keys) && Snapshot() == Forgotten(c, old(Snapshot()), c.syms.Keys)
    {
      hide *;
      SinceParts(q, u, ss);
      ghost var was := Snapshot();
      DropAndAssign(replace, settings);
      SinceMore(q, u, ss, was, c.syms.Keys);
      FreshSince(q, u, ss + c.syms.Keys);
      AllDropped(c, rank, u, U(), ss + c.syms.Keys);
    }

    method DropAndAssign(replace: bool, settings: seq<(SymName, string)>)
      requires Static() && Linked() && UsersOk(c, U())
      modifies syms.Values, chs.Values
      ensures Linked() && UsersOk(c, U()) && U() == Loaded(c, if replace then NOBODY else old(U()), settings)
      ensures Snapshot() == Forgotten(c, old(Snapshot()), c.syms.Keys)
    {
      hide Model, Closed, UsersOk, DepOf, AllDependents, Forgotten, U, Snapshot, Loaded;
      if replace { UnassignEach(); } else { InvalidateEach(c.syms.Keys); }
      AssignEach(settings);
    }

    method AssignEach(settings: seq<(SymName, string)>)
      requires Static() && UsersOk(c, U())
      modifies syms.Values`userVal, chs.Values`userVal, chs.Values`userMode
      ensures UsersOk(c, U()) && U() == Loaded(c, old(U()), settings)
    {
      hide Model, Closed, UsersOk, U, HasMember, Assigned;
      ghost var start := U();
      for i := 0 to |settings|
        invariant UsersOk(c, U()) && Loaded(c, start, settings) == Loaded(c, U(), settings[i..])
      {
        assert settings[i..][1..] == settings[i + 1..];
        if settings[i].0 in syms {
          AssignedOk(c, U(), settings[i].0, settings[i].1);
          AssignUser(settings[i].0, settings[i].1);
        }
      }
    }

    lemma AllLeft(u: Users)
      requires Static() && UsersOk(c, u)
      ensures OnlyLeft(c, u, c.syms.Keys)
    {
      hide Model, Acyclic, HasMember;
      forall k | k in c.choices && Populated(c, k) ensures HasMember(c, k, c.syms.Keys) { ChoiceHasMembers(k); }
      forall k | k in u.sel ensures Populated(c, k) { assert u.sel[k] in c.choices[k].members; }
    }

    lemma NothingIsLeft(u: Users)
      requires OnlyLeft(c, u, {})
      ensures u == NOBODY
    {
      assert u.sym.Keys == {} && u.sel.Keys == {} && u.mode.Keys == {};
    }

    lemma InitiallyFresh()
      requires Static() && (forall s <- syms :: syms[s].dep == DepOf(c, s) && syms[s].cachedDeps.None?)
      requires forall s <- syms :: syms[s].userVal.None? && syms[s].cachedVal == c.syms[s].special
                 && syms[s].cachedVis.None? && !syms[s].writeToConf
      requires forall k <- chs :: chs[k].userVal.None? && chs[k].userMode.None?
                 && chs[k].cachedSelection.None? && chs[k].cachedVis.None?
      requires pinned == Pins(map[], map[])
      ensures Fresh() && U() == NOBODY
    {
      hide Model, Closed, DepOf, AllDependents, World, Coherent, Value, Vis, ChoiceVis, Selection;
      assert U() == NOBODY;
      var x := World(c, rank, U());
      forall s | s in c.syms ensures SymCacheOk(s, Snapshot().syms[s], pinned, U(), x) {
        if c.syms[s].special.Some? { SpecialValue(s, U(), U(), x, x); }
      }
      CoherentCaches(U(), x);
    }

    /** A freshly parsed configuration: links built, no user values, nothing cached but the
        fixed values of special symbols. */
    constructor (c: Config, ghost rank: map<SymName, nat>)
      requires Model(c, rank)
      ensures fresh(syms.Values) && fresh(chs.Values)
      ensures this.c == c && this.rank == rank && Fresh() && U() == NOBODY && pinned == Pins(map[], map[])
    {
      hide Model, Closed, AllDependents, DepOf, Fresh;
      ModelFacts(c, rank);
      var ss := NewSymbols(c.syms);
      var ks := NewChoices(c.choices.Keys);
      this.c, this.rank, syms, chs, pinned := c, rank, ss, ks, Pins(map[], map[]);
      new;
      BuildDep();
      InitiallyFresh();
    }
  }
}
