/** What several modules share: optional values, minimum and maximum, and a supply of fresh numbers. */
module Wrappers {

  /** A value that may be absent: SQL NULL, a missing row, a JavaScript null. */
  datatype Option<+T> = None | Some(value: T)

  function Min(a: int, b: int): int { if a <= b then a else b }

  function Max(a: int, b: int): int { if a >= b then a else b }

  /** Natural numbers outside a finite set exist: fresh ids, random tokens, transaction hashes. */
  lemma {:induction false} UnusedExists(used: set<nat>) returns (bound: nat)
    ensures forall t :: t in used ==> t < bound
    decreases used
  {
    if used == {} {
      bound := 0;
    } else {
      var u :| u in used;
      var rest := UnusedExists(used - {u});
      bound := if rest <= u then u + 1 else rest;
      assert forall t :: t in used ==> t == u || t in used - {u};
    }
  }
}
