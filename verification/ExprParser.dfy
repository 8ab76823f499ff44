/** The recursive-descent parser for conditional expressions, over a feed of tokens. */
module ExprParser {
  import opened Wrappers
  import opened Expressions

  /** Keyword(code) stands for every other token number. */
  datatype Token = TSym(name: SymName) | TStr(text: string) | TAnd | TOr | TNot | TOpen | TClose | TEqual | TUnequal
      | TKeyword(code: nat)

  datatype ParseError = MissingCloseParen | Malformed
  datatype Parsed = Ok(e: Expr, rest: seq<Token>) | Err(error: ParseError)

  predicate IsOperand(t: Token) {
    t.TSym? || t.TStr?
  }

  function OperandAtom(t: Token): Atom {
    match t
    case TSym(s) => Sym(s)
    case TStr(s) => Str(s)
    case TAnd => Stray(Some(0))
    case TOr => Stray(Some(1))
    case TNot => Stray(Some(2))
    case TOpen => Stray(Some(3))
    case TClose => Stray(Some(4))
    case TEqual => Stray(Some(5))
    case TUnequal => Stray(Some(6))
    case TKeyword(code) => Stray(Some(code))
  }

  /** A lone operand; with `transformM`, "m" and m become "m" && MODULES. */
  function Lone(transformM: bool, a: Atom): Expr {
    if transformM && (a == Sym("m") || a == Str("m")) then And([Leaf(Str("m")), Leaf(Sym("MODULES"))]) else Leaf(a)
  }

  function MkAnd(es: seq<Expr>): Expr {
    if |es| == 1 then es[0] else And(es)
  }

  function MkOr(es: seq<Expr>): Expr {
    if |es| == 1 then es[0] else Or(es)
  }

  predicate Starts(ts: seq<Token>, t: Token) {
    ts != [] && ts[0] == t
  }

  // ---------- the grammar as functions on the remaining tokens ----------

  function Factor(tm: bool, ts: seq<Token>): (r: Parsed)
    ensures r.Ok? ==> |r.rest| < |ts| && r.rest == ts[|ts| - |r.rest|..]
    decreases |ts|, 0
  {
    if ts == [] then Err(Malformed)
    else if IsOperand(ts[0]) then
      if |ts| > 1 && (ts[1] == TEqual || ts[1] == TUnequal) then
        if |ts| > 2 then Ok(Rel(ts[1] == TUnequal, OperandAtom(ts[0]), OperandAtom(ts[2])), ts[3..])
        else Ok(Rel(ts[1] == TUnequal, OperandAtom(ts[0]), Stray(None)), [])
      else Ok(Lone(tm, OperandAtom(ts[0])), ts[1..])
    else if ts[0] == TNot then
      var r := Factor(tm, ts[1..]);
      if r.Ok? then Ok(Not(r.e), r.rest) else r
    else if ts[0] == TOpen then
      var r := OrList(tm, ts[1..], []);
      if r.Err? then r
      else if Starts(r.rest, TClose) then Ok(r.e, r.rest[1..]) else Err(MissingCloseParen)
    else Err(Malformed)
  }

  /** A factor, and more of them as long as "&&" follows. */
  function AndList(tm: bool, ts: seq<Token>, acc: seq<Expr>): (r: Parsed)
    ensures r.Ok? ==> |r.rest| < |ts| && r.rest == ts[|ts| - |r.rest|..]
    decreases |ts|, 1
  {
    var f := Factor(tm, ts);
    if f.Err? then f else AndRest(tm, f.rest, acc + [f.e])
  }

  function AndRest(tm: bool, ts: seq<Token>, acc: seq<Expr>): (r: Parsed)
    ensures r.Ok? ==> |r.rest| <= |ts| && r.rest == ts[|ts| - |r.rest|..]
    decreases |ts|, 2
  {
    if Starts(ts, TAnd) then AndList(tm, ts[1..], acc) else Ok(MkAnd(acc), ts)
  }

  /** An "&&" term, and more of them as long as "||" follows. */
  function OrList(tm: bool, ts: seq<Token>, acc: seq<Expr>): (r: Parsed)
    ensures r.Ok? ==> |r.rest| < |ts| && r.rest == ts[|ts| - |r.rest|..]
    decreases |ts|, 3
  {
    var t := AndList(tm, ts, []);
    if t.Err? then t else OrRest(tm, t.rest, acc + [t.e])
  }

  function OrRest(tm: bool, ts: seq<Token>, acc: seq<Expr>): (r: Parsed)
    ensures r.Ok? ==> |r.rest| <= |ts| && r.rest == ts[|ts| - |r.rest|..]
    decreases |ts|, 4
  {
    if Starts(ts, TOr) then OrList(tm, ts[1..], acc) else Ok(MkOr(acc), ts)
  }

  function ParseTokens(tm: bool, ts: seq<Token>): Parsed {
    OrList(tm, ts, [])
  }

  lemma AndListStep(tm: bool, ts: seq<Token>, acc: seq<Expr>)
    ensures var f := Factor(tm, ts);
            AndList(tm, ts, acc) ==
            if f.Err? then f
            else if Starts(f.rest, TAnd) then AndList(tm, f.rest[1..], acc + [f.e])
            else Ok(MkAnd(acc + [f.e]), f.rest)
  {
    hide Factor;
  }

  lemma OrListStep(tm: bool, ts: seq<Token>, acc: seq<Expr>)
    ensures var t := AndList(tm, ts, []);
            OrList(tm, ts, acc) ==
            if t.Err? then t
            else if Starts(t.rest, TOr) then OrList(tm, t.rest[1..], acc + [t.e])
            else Ok(MkOr(acc + [t.e]), t.rest)
  {
    hide Factor, AndList;
  }

  // ---------- the token feed and the parser proper ----------

  class Feed {
    const items: seq<Token>
    var i: nat

    ghost predicate Valid()
      reads this
    {
      i <= |items|
    }

    ghost function Rest(): seq<Token>
      requires Valid()
      reads this
    {
      items[i..]
    }

    constructor (items: seq<Token>)
      ensures Valid() && Rest() == items
    {
      this.items, i := items, 0;
    }

    method GetNext() returns (t: Option<Token>)
      requires Valid()
      modifies this
      ensures Valid()
      ensures old(Rest()) == [] ==> t.None? && Rest() == []
      ensures old(Rest()) != [] ==> t == Some(old(Rest())[0]) && Rest() == old(Rest())[1..]
      ensures i == old(i) + (if t.Some? then 1 else 0) && (t.Some? ==> old(i) < |items| && items[old(i)] == t.value)
    {
      if i >= |items| { return None; }
      t := Some(items[i]);
      i := i + 1;
    }

    method PeekNext() returns (t: Option<Token>)
      requires Valid()
      ensures t == if Rest() == [] then None else Some(Rest()[0])
    {
      t := if i >= |items| then None else Some(items[i]);
    }

    /** Takes the next token if it is `t`. */
    method Check(t: Token) returns (found: bool)
      requires Valid()
      modifies this
      ensures Valid() && found == Starts(old(Rest()), t)
      ensures Rest() == if found then old(Rest())[1..] else old(Rest())
      ensures i == old(i) + (if found then 1 else 0) && (found ==> old(i) < |items| && items[old(i)] == t)
    {
      found := i < |items| && items[i] == t;
      if found { i := i + 1; }
    }

    method UngetAll()
      modifies this
      ensures Valid() && Rest() == items
    {
      i := 0;
    }
  }

  datatype Result = Parsed(e: Expr) | Failed(error: ParseError)

  /** Parser state for one expression: the "m" rewriting flag, and the symbols recorded as
      referenced by the item being parsed. */
  class Parser {
    const transformM: bool
    var referenced: set<SymName>

    constructor (transformM: bool, referenced: set<SymName>)
      ensures this.transformM == transformM && this.referenced == referenced
    {
      this.transformM, this.referenced := transformM, referenced;
    }

    /** How a parsing step relates to the grammar: same result, same tokens left. */
    static ghost predicate Matches(r: Result, rest: seq<Token>, spec: Parsed) {
      match spec
      case Ok(e, left) => r == Result.Parsed(e) && rest == left
      case Err(error) => r == Failed(error)
    }

    /** All symbols among the tokens read since `from` have been added to `before`, and nothing else. */
    ghost predicate Noted(feed: Feed, from: nat, before: set<SymName>)
      reads this, feed
    {
      from <= feed.i <= |feed.items| && referenced == before + TokenSyms(feed.items[from..feed.i])
    }

    lemma NotedNothing(feed: Feed)
      requires feed.Valid()
      ensures Noted(feed, feed.i, referenced)
    {
      assert feed.items[feed.i..feed.i] == [];
    }

    method ParseFactor(feed: Feed) returns (r: Result)
      requires feed.Valid()
      modifies this, feed
      ensures feed.Valid() && Matches(r, feed.Rest(), Factor(transformM, old(feed.Rest())))
      ensures Noted(feed, old(feed.i), old(referenced))
      decreases |feed.Rest()|, 0
    {
      hide AndList, OrList, Feed.Rest, TokenSyms;
      NotedNothing(feed);
      ghost var from, before, ts := feed.i, referenced, feed.Rest();
      var token := feed.GetNext();
      if token.None? { return Failed(Malformed); }
      TokenSymsMore(feed.items, from, from);
      if IsOperand(token.value) {
        r := ParseOperand(feed, token.value, ts);
      } else if token.value == TNot {
        ghost var inner := feed.i;
        r := ParseFactor(feed);
        TokenSymsSplit(feed.items, from, inner, feed.i);
        if r.Parsed? { r := Result.Parsed(Not(r.e)); }
      } else if token.value == TOpen {
        ghost var inner := feed.i;
        r := ParseParens(feed, ts);
        TokenSymsSplit(feed.items, from, inner, feed.i);
      } else {
        r := Failed(Malformed);
      }
    }

    /** An operand that has been taken from the feed, and the comparison it may start. */
    method ParseOperand(feed: Feed, token: Token, ghost ts: seq<Token>) returns (r: Result)
      requires feed.Valid() && feed.i > 0 && feed.items[feed.i - 1] == token && IsOperand(token)
      requires ts != [] && ts[0] == token && feed.Rest() == ts[1..]
      modifies this, feed
      ensures feed.Valid() && Matches(r, feed.Rest(), Factor(transformM, ts))
      ensures Noted(feed, old(feed.i) - 1, old(referenced))
    {
      hide AndList, OrList, TokenSyms, Lone;
      ghost var from := feed.i - 1;
      JustOneToken(feed.items, from);
      if token.TSym? { referenced := referenced + {token.name}; }
      var next := feed.PeekNext();
      if next != Some(TEqual) && next != Some(TUnequal) {
        return Result.Parsed(Lone(transformM, OperandAtom(token)));
      }
      assert Noted(feed, from, old(referenced));
      ghost var middle := feed.i;
      r := ParseRelation(feed, token, ts);
      TokenSymsSplit(feed.items, from, middle, feed.i);
    }

    /** The rest of a comparison: the operator and whatever token follows it. */
    method ParseRelation(feed: Feed, token: Token, ghost ts: seq<Token>) returns (r: Result)
      requires feed.Valid() && |ts| > 1 && ts[0] == token && IsOperand(token) && feed.Rest() == ts[1..]
      requires ts[1] == TEqual || ts[1] == TUnequal
      modifies this, feed
      ensures feed.Valid() && Matches(r, feed.Rest(), Factor(transformM, ts))
      ensures Noted(feed, old(feed.i), old(referenced))
    {
      hide AndList, OrList, TokenSyms;
      ghost var from := feed.i;
      var relation := feed.GetNext();
      JustOneToken(feed.items, from);
      var token2 := feed.GetNext();
      if token2.Some? { TokenSymsMore(feed.items, from, from + 1); }
      var right := if token2.None? then Stray(None) else OperandAtom(token2.value);
      if right.Sym? { referenced := referenced + {right.name}; }
      r := Result.Parsed(Rel(relation != Some(TEqual), OperandAtom(token), right));
    }

    /** An expression after an opening parenthesis that has been taken from the feed. */
    method ParseParens(feed: Feed, ghost ts: seq<Token>) returns (r: Result)
      requires feed.Valid() && ts != [] && ts[0] == TOpen && feed.Rest() == ts[1..]
      modifies this, feed
      ensures feed.Valid() && Matches(r, feed.Rest(), Factor(transformM, ts))
      ensures Noted(feed, old(feed.i), old(referenced))
      decreases |feed.Rest()|, 8
    {
      hide AndList, OrList, TokenSyms, Feed.Rest;
      r := ParseExprRec(feed);
      if r.Failed? { return; }
      var closed := CheckNoted(feed, TClose, old(feed.i), old(referenced));
      if !closed { r := Failed(MissingCloseParen); }
    }

    /** Taking an operator adds no symbol. */
    method CheckNoted(feed: Feed, t: Token, ghost from: nat, ghost before: set<SymName>) returns (found: bool)
      requires feed.Valid() && !t.TSym? && Noted(feed, from, before)
      modifies feed
      ensures feed.Valid() && found == Starts(old(feed.Rest()), t)
      ensures feed.Rest() == if found then old(feed.Rest())[1..] else old(feed.Rest())
      ensures Noted(feed, from, before)
    {
      hide TokenSyms;
      ghost var i := feed.i;
      found := feed.Check(t);
      if found { TokenSymsMore(feed.items, from, i); }
    }

    method ParseOrTerm(feed: Feed) returns (r: Result)
      requires feed.Valid()
      modifies this, feed
      ensures feed.Valid() && Matches(r, feed.Rest(), AndList(transformM, old(feed.Rest()), []))
      ensures Noted(feed, old(feed.i), old(referenced))
      decreases |feed.Rest()|, 3
    {
      hide Factor, AndList, AndRest, TokenSyms;
      AndListStep(transformM, feed.Rest(), []);
      r := ParseFactor(feed);
      if r.Failed? { return; }
      assert [] + [r.e] == [r.e];
      var found := CheckNoted(feed, TAnd, old(feed.i), old(referenced));
      if found {
        ghost var from := feed.i;
        r := MoreFactors(feed, r.e);
        TokenSymsSplit(feed.items, old(feed.i), from, feed.i);
      }
    }

    /** One more factor of a list, and whether another one follows. */
    method AppendFactor(feed: Feed, terms: seq<Expr>) returns (r: Result, found: bool)
      requires feed.Valid()
      modifies this, feed
      ensures feed.Valid() && (r.Parsed? ==> |feed.Rest()| < |old(feed.Rest())|)
      ensures var spec := AndList(transformM, old(feed.Rest()), terms);
              if r.Failed? then Matches(r, feed.Rest(), spec)
              else spec == if found then AndList(transformM, feed.Rest(), terms + [r.e])
                           else Ok(MkAnd(terms + [r.e]), feed.Rest())
      ensures Noted(feed, old(feed.i), old(referenced))
      decreases |feed.Rest()|, 1
    {
      hide Factor, AndList, AndRest, TokenSyms, Feed.Rest, Feed.Valid;
      AndListStep(transformM, feed.Rest(), terms);
      found := false;
      r := ParseFactor(feed);
      if r.Parsed? { found := CheckNoted(feed, TAnd, old(feed.i), old(referenced)); }
    }

    /** The operands of an "&&" after the first one. */
    method MoreFactors(feed: Feed, first: Expr) returns (r: Result)
      requires feed.Valid()
      modifies this, feed
      ensures feed.Valid() && Matches(r, feed.Rest(), AndList(transformM, old(feed.Rest()), [first]))
      ensures Noted(feed, old(feed.i), old(referenced))
      decreases |feed.Rest()|, 3
    {
      hide Factor, AndList, AndRest, TokenSyms, Feed.Rest, Feed.Valid;
      ghost var size := |feed.Rest()|;
      ghost var spec := AndList(transformM, feed.Rest(), [first]);
      var terms, found := [first], true;
      NotedNothing(feed);
      while found
        invariant feed.Valid() && |feed.Rest()| <= size && |terms| >= 1 && (found || |terms| >= 2)
        invariant spec == if found then AndList(transformM, feed.Rest(), terms) else Ok(And(terms), feed.Rest())
        invariant Noted(feed, old(feed.i), old(referenced))
        decreases |feed.Rest()|
      {
        ghost var from := feed.i;
        r, found := AppendFactor(feed, terms);
        TokenSymsSplit(feed.items, old(feed.i), from, feed.i);
        if r.Failed? { return; }
        terms := terms + [r.e];
      }
      r := Result.Parsed(And(terms));
    }

    method ParseExprRec(feed: Feed) returns (r: Result)
      requires feed.Valid()
      modifies this, feed
      ensures feed.Valid() && Matches(r, feed.Rest(), ParseTokens(transformM, old(feed.Rest())))
      ensures Noted(feed, old(feed.i), old(referenced))
      decreases |feed.Rest()|, 7
    {
      hide AndList, OrList, OrRest, TokenSyms;
      OrListStep(transformM, feed.Rest(), []);
      r := ParseOrTerm(feed);
      if r.Failed? { return; }
      assert [] + [r.e] == [r.e];
      var found := CheckNoted(feed, TOr, old(feed.i), old(referenced));
      if found {
        ghost var from := feed.i;
        r := MoreTerms(feed, r.e);
        TokenSymsSplit(feed.items, old(feed.i), from, feed.i);
      }
    }

    /** One more term of a list, and whether another one follows. */
    method AppendTerm(feed: Feed, terms: seq<Expr>) returns (r: Result, found: bool)
      requires feed.Valid()
      modifies this, feed
      ensures feed.Valid() && (r.Parsed? ==> |feed.Rest()| < |old(feed.Rest())|)
      ensures var spec := OrList(transformM, old(feed.Rest()), terms);
              if r.Failed? then Matches(r, feed.Rest(), spec)
              else spec == if found then OrList(transformM, feed.Rest(), terms + [r.e])
                           else Ok(MkOr(terms + [r.e]), feed.Rest())
      ensures Noted(feed, old(feed.i), old(referenced))
      decreases |feed.Rest()|, 5
    {
      hide AndList, OrList, OrRest, TokenSyms, Feed.Rest, Feed.Valid;
      OrListStep(transformM, feed.Rest(), terms);
      found := false;
      r := ParseOrTerm(feed);
      if r.Parsed? { found := CheckNoted(feed, TOr, old(feed.i), old(referenced)); }
    }

    /** The operands of an "||" after the first one. */
    method MoreTerms(feed: Feed, first: Expr) returns (r: Result)
      requires feed.Valid()
      modifies this, feed
      ensures feed.Valid() && Matches(r, feed.Rest(), OrList(transformM, old(feed.Rest()), [first]))
      ensures Noted(feed, old(feed.i), old(referenced))
      decreases |feed.Rest()|, 6
    {
      hide AndList, OrList, OrRest, TokenSyms, Feed.Rest, Feed.Valid;
      ghost var size := |feed.Rest()|;
      ghost var spec := OrList(transformM, feed.Rest(), [first]);
      var terms, found := [first], true;
      NotedNothing(feed);
      while found
        invariant feed.Valid() && |feed.Rest()| <= size && |terms| >= 1 && (found || |terms| >= 2)
        invariant spec == if found then OrList(transformM, feed.Rest(), terms) else Ok(Or(terms), feed.Rest())
        invariant Noted(feed, old(feed.i), old(referenced))
        decreases |feed.Rest()|
      {
        ghost var from := feed.i;
        r, found := AppendTerm(feed, terms);
        TokenSymsSplit(feed.items, old(feed.i), from, feed.i);
        if r.Failed? { return; }
        terms := terms + [r.e];
      }
      r := Result.Parsed(Or(terms));
    }
  }

  // ---------- the symbols that are recorded ----------

  function TokenSyms(ts: seq<Token>): set<SymName> {
    set t | t in ts && t.TSym? :: t.name
  }

  lemma TokenSymsSplit(ts: seq<Token>, a: nat, b: nat, c: nat)
    requires a <= b <= c <= |ts|
    ensures TokenSyms(ts[a..c]) == TokenSyms(ts[a..b]) + TokenSyms(ts[b..c])
  {
    assert ts[a..c] == ts[a..b] + ts[b..c];
  }

  lemma TokenSymsMore(ts: seq<Token>, a: nat, b: nat)
    requires a <= b < |ts|
    ensures TokenSyms(ts[a..b + 1]) == TokenSyms(ts[a..b]) + (if ts[b].TSym? then {ts[b].name} else {})
  {
    assert ts[a..b + 1] == ts[a..b] + [ts[b]];
  }

  lemma JustOneToken(ts: seq<Token>, a: nat)
    requires a < |ts|
    ensures TokenSyms(ts[a..a + 1]) == if ts[a].TSym? then {ts[a].name} else {}
  {
    assert ts[a..a + 1] == [ts[a]];
  }

  /** The symbols among the tokens of `ts` in front of `rest`. */
  function Consumed(ts: seq<Token>, rest: seq<Token>): set<SymName> {
    if |rest| <= |ts| then TokenSyms(ts[..|ts| - |rest|]) else {}
  }

  lemma {:induction false} FactorSyms(ts: seq<Token>)
    requires Factor(false, ts).Ok?
    ensures var r := Factor(false, ts); SymsOf(r.e) == Consumed(ts, r.rest)
    decreases |ts|, 0
  {
    hide AndList, OrList, Consumed;
    if IsOperand(ts[0]) {
      OperandSyms(ts);
    } else if ts[0] == TNot {
      FactorSyms(ts[1..]);
      FirstAdds(ts, Factor(false, ts).rest);
    } else {
      var r := OrList(false, ts[1..], []);
      OrListSyms(ts[1..], []);
      NoSyms();
      FirstAdds(ts, r.rest);
      LastAdds(ts, r.rest);
    }
  }

  lemma OperandSyms(ts: seq<Token>)
    requires ts != [] && IsOperand(ts[0])
    ensures var r := Factor(false, ts); r.Ok? && SymsOf(r.e) == Consumed(ts, r.rest)
  {
    hide AndList, OrList;
    if |ts| > 0 { assert ts[..1] == [ts[0]]; }
    if |ts| > 1 { assert ts[..2] == [ts[0], ts[1]]; }
    if |ts| > 2 { assert ts[..3] == [ts[0], ts[1], ts[2]]; }
  }

  lemma FirstAdds(ts: seq<Token>, rest: seq<Token>)
    requires ts != [] && |rest| < |ts| && !ts[0].TSym?
    ensures Consumed(ts, rest) == Consumed(ts[1..], rest)
  {
    var n := |ts| - |rest|;
    assert ts[..n] == [ts[0]] + ts[1..][..n - 1];
  }

  lemma LastAdds(ts: seq<Token>, rest: seq<Token>)
    requires rest != [] && |rest| <= |ts| && rest == ts[|ts| - |rest|..] && !rest[0].TSym?
    ensures Consumed(ts, rest[1..]) == Consumed(ts, rest)
  {
    var n := |ts| - |rest|;
    assert ts[..n + 1] == ts[..n] + [rest[0]];
  }

  lemma {:induction false} AndListSyms(ts: seq<Token>, acc: seq<Expr>)
    requires AndList(false, ts, acc).Ok?
    ensures var r := AndList(false, ts, acc); SymsOf(r.e) == SymsOfAll(acc) + Consumed(ts, r.rest)
    decreases |ts|, 1
  {
    hide Factor, AndList, Consumed, SymsOf, SymsOfAll, MkAnd;
    AndListStep(false, ts, acc);
    var f := Factor(false, ts);
    FactorSyms(ts);
    SymsOfAllAppend(acc, f.e);
    if Starts(f.rest, TAnd) {
      AndListSyms(f.rest[1..], acc + [f.e]);
      RestSyms(ts, f.rest, AndList(false, f.rest[1..], acc + [f.e]).rest);
    } else {
      SymsOfMk(acc + [f.e]);
    }
  }

  lemma {:induction false} OrListSyms(ts: seq<Token>, acc: seq<Expr>)
    requires OrList(false, ts, acc).Ok?
    ensures var r := OrList(false, ts, acc); SymsOf(r.e) == SymsOfAll(acc) + Consumed(ts, r.rest)
    decreases |ts|, 3
  {
    hide Factor, AndList, OrList, Consumed, SymsOf, SymsOfAll, MkOr;
    OrListStep(false, ts, acc);
    var t := AndList(false, ts, []);
    AndListSyms(ts, []);
    NoSyms();
    SymsOfAllAppend(acc, t.e);
    if Starts(t.rest, TOr) {
      OrListSyms(t.rest[1..], acc + [t.e]);
      RestSyms(ts, t.rest, OrList(false, t.rest[1..], acc + [t.e]).rest);
    } else {
      SymsOfMk(acc + [t.e]);
    }
  }

  lemma NoSyms()
    ensures SymsOfAll([]) == {}
  {
  }

  /** Tokens up to an operator, the operator, and the tokens after it. */
  lemma RestSyms(ts: seq<Token>, mid: seq<Token>, rest: seq<Token>)
    requires 0 < |mid| <= |ts| && mid == ts[|ts| - |mid|..] && !mid[0].TSym? && |rest| < |mid|
    ensures Consumed(ts, rest) == Consumed(ts, mid) + Consumed(mid[1..], rest)
  {
    var m, n := |ts| - |mid|, |ts| - |rest|;
    assert mid[1..][..n - m - 1] == ts[m + 1..n];
    assert ts[..n] == ts[..m] + [mid[0]] + ts[m + 1..n];
  }

  lemma SymsOfMk(es: seq<Expr>)
    requires es != []
    ensures SymsOf(MkAnd(es)) == SymsOfAll(es) == SymsOf(MkOr(es))
  {
    if |es| == 1 { assert es == [es[0]] && es[1..] == []; }
  }

  lemma {:induction false} SymsOfAllAppend(es: seq<Expr>, e: Expr)
    ensures SymsOfAll(es + [e]) == SymsOfAll(es) + SymsOf(e)
  {
    if es == [] {
      assert es + [e] == [e] && [e][1..] == [];
    } else {
      assert (es + [e])[1..] == es[1..] + [e];
      SymsOfAllAppend(es[1..], e);
    }
  }

  /** Parsed without "m" rewriting, an expression mentions exactly the symbols that are recorded. */
  lemma ParsedSyms(ts: seq<Token>)
    requires ParseTokens(false, ts).Ok?
    ensures var r := ParseTokens(false, ts); SymsOf(r.e) == Consumed(ts, r.rest)
  {
    OrListSyms(ts, []);
    NoSyms();
  }
}
