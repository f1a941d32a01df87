/** Counting positions one after the other. */
module Counting {

  /** With position `n` looked at, the hits are one more if it is one. */
  lemma OneMorePosition(n: nat, before: set<nat>, after: set<nat>, hit: bool)
    requires n !in before && forall i :: i in after <==> i in before || (hit && i == n)
    ensures |after| == |before| + if hit then 1 else 0
  {
    assert after == before + if hit then {n} else {};
  }

  lemma NoPosition(hits: set<nat>)
    requires forall i :: i !in hits
    ensures |hits| == 0
  {
    assert hits == {};
  }
}
