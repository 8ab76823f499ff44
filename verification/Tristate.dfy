/** Tristate values "n" < "m" < "y" and their textual form. */
module Tristate {

  datatype Tri = N | M | Y

  function ToInt(t: Tri): nat {
    match t
    case N => 0
    case M => 1
    case Y => 2
  }

  predicate Less(a: Tri, b: Tri) {
    ToInt(a) < ToInt(b)
  }

  function Min(a: Tri, b: Tri): Tri {
    if Less(a, b) then a else b
  }

  function Max(a: Tri, b: Tri): Tri {
    if Less(b, a) then a else b
  }

  /** The text of a tristate value, as stored in symbol values. */
  function Show(t: Tri): string {
    match t
    case N => "n"
    case M => "m"
    case Y => "y"
  }

  /** How a constant is read as a tristate: everything but "y" and "m" counts as "n". */
  function Read(s: string): (t: Tri)
    ensures forall u: Tri :: s == Show(u) ==> t == u
  {
    if s == "y" then Y else if s == "m" then M else N
  }

  /** A "m" condition counts as "y" when modules are switched off. */
  function Promote(off: bool, t: Tri): Tri {
    if off && t == M then Y else t
  }

  /** Only tristate items can be "m"; everything else is widened to "y". */
  function Widen(tristate: bool, t: Tri): Tri {
    Promote(!tristate, t)
  }
}
