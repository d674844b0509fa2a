/** Definitions shared by several modules. */
module Common {

  function Min(a: nat, b: nat): nat { if a < b then a else b }

  ghost predicate Distinct<T>(xs: seq<T>) { forall i, j | 0 <= i < j < |xs| :: xs[i] != xs[j] }
}
