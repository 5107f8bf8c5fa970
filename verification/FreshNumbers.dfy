/** Tokens and request ids never run out. */
module FreshNumbers {

  /** A number above all of those used. */
  lemma {:induction false} Fresh(used: set<nat>) returns (n: nat)
    ensures forall q | q in used :: q < n
  {
    if used == {} {
      n := 0;
    } else {
      var q :| q in used;
      n := Fresh(used - {q});
      assert used == used - {q} + {q};
      n := if q >= n then q + 1 else n;
    }
  }
}
