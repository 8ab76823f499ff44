/** What the property lines of one definition contribute, by the positions of the lines. */
module PropertyLines {
  import opened Wrappers
  import opened Expressions
  import opened Configuration
  import opened BlockParser

  function DependsLine(p: Prop): Option<Expr> {
    if p.DependsOn? then Some(p.e) else None
  }

  function DefaultLine(p: Prop): Option<Default> {
    if p.DefaultTo? then Some(p.def) else None
  }

  function SelectLine(p: Prop): Option<Select> {
    if p.Selects? then Some(p.sel) else None
  }

  predicate Increasing(ps: seq<nat>) {
    forall i, j :: 0 <= i < j < |ps| ==> ps[i] < ps[j]
  }

  /** `xs` is what the lines of one kind say, in the order of their positions `ps`, and there are no others. */
  predicate InOrder<T(==)>(props: seq<Prop>, line: Prop -> Option<T>, ps: seq<nat>, xs: seq<T>) {
    && |ps| == |xs| && Increasing(ps)
    && (forall k :: 0 <= k < |ps| ==> ps[k] < |props| && line(props[ps[k]]) == Some(xs[k]))
    && (forall i :: 0 <= i < |props| && line(props[i]).Some? ==> i in ps)
  }

  /** One more property line. */
  lemma OneMoreLine<T>(props: seq<Prop>, line: Prop -> Option<T>, ps: seq<nat>, xs: seq<T>)
    requires props != [] && InOrder(props[..|props| - 1], line, ps, xs)
    ensures var last := line(props[|props| - 1]);
            if last.Some? then InOrder(props, line, ps + [|props| - 1], xs + [last.value])
            else InOrder(props, line, ps, xs)
  {
    var n := |props| - 1;
    var last := line(props[n]);
    var ps', xs' := if last.Some? then ps + [n] else ps, if last.Some? then xs + [last.value] else xs;
    forall k | 0 <= k < |ps'| ensures ps'[k] < |props| && line(props[ps'[k]]) == Some(xs'[k]) {
      if k < |ps| { assert props[..n][ps[k]] == props[ps[k]]; }
    }
    forall i | 0 <= i < |props| && line(props[i]).Some? ensures i in ps' {
      if i < n {
        assert props[..n][i] == props[i] && i in ps;
      } else {
        assert ps'[|ps|] == n;
      }
    }
  }

  lemma {:induction false} DefaultsInOrder(props: seq<Prop>) returns (ps: seq<nat>)
    ensures InOrder(props, DefaultLine, ps, DefaultsOf(props))
  {
    ps := [];
    if props != [] {
      ps := DefaultsInOrder(props[..|props| - 1]);
      OneMoreLine(props, DefaultLine, ps, DefaultsOf(props[..|props| - 1]));
      if props[|props| - 1].DefaultTo? { ps := ps + [|props| - 1]; }
    }
  }

  lemma {:induction false} SelectsInOrder(props: seq<Prop>) returns (ps: seq<nat>)
    ensures InOrder(props, SelectLine, ps, SelectsOf(props))
  {
    ps := [];
    if props != [] {
      ps := SelectsInOrder(props[..|props| - 1]);
      OneMoreLine(props, SelectLine, ps, SelectsOf(props[..|props| - 1]));
      if props[|props| - 1].Selects? { ps := ps + [|props| - 1]; }
    }
  }

  /** The "depends on" lines, in order. */
  function DependsLines(props: seq<Prop>): seq<Expr> {
    if props == [] then []
    else
      var rest := DependsLines(props[..|props| - 1]);
      var last := props[|props| - 1];
      if last.DependsOn? then rest + [last.e] else rest
  }

  lemma {:induction false} DependsInOrder(props: seq<Prop>) returns (ps: seq<nat>)
    ensures InOrder(props, DependsLine, ps, DependsLines(props))
  {
    ps := [];
    if props != [] {
      ps := DependsInOrder(props[..|props| - 1]);
      OneMoreLine(props, DependsLine, ps, DependsLines(props[..|props| - 1]));
      if props[|props| - 1].DependsOn? { ps := ps + [|props| - 1]; }
    }
  }

  /** The last prompt is at position `i`. */
  predicate LastPrompt(props: seq<Prop>, i: nat) {
    i < |props| && props[i].Prompt? && forall j :: i < j < |props| ==> !props[j].Prompt?
  }

  lemma {:induction false} PromptIsLast(props: seq<Prop>, i: nat)
    requires LastPrompt(props, i)
    ensures PromptOf(props) == Some(props[i].cond)
  {
    var n := |props| - 1;
    if i < n {
      assert !props[n].Prompt?;
      PromptIsLast(props[..n], i);
    }
  }

  lemma {:induction false} FindPrompt(props: seq<Prop>)
    ensures PromptOf(props).Some? <==> exists i: nat :: LastPrompt(props, i)
  {
    if props != [] {
      var n := |props| - 1;
      FindPrompt(props[..n]);
      if props[n].Prompt? {
        assert LastPrompt(props, n);
      } else if PromptOf(props).Some? {
        var i: nat :| LastPrompt(props[..n], i);
        assert forall j :: 0 <= j < n ==> props[..n][j] == props[j];
        assert LastPrompt(props, i);
      }
    }
    if i: nat :| LastPrompt(props, i) { PromptIsLast(props, i); }
  }
}
