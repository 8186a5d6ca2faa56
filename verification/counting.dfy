/**
 * Counting facts about sets of process ids, shared by the quorum
 * arguments of the replicated store and of the broadcast protocols.
 */
module Counting {
  /** `n` numbered processes: 0, ..., n - 1. */
  function Upto(n: nat): (s: set<nat>)
    ensures |s| == n
    ensures forall x: nat :: x in s <==> x < n
  {
    if n == 0 then {} else
      var s := Upto(n - 1);
      assert n - 1 !in s;
      s + {n - 1}
  }

  lemma {:induction false} SubsetCard(a: set<nat>, b: set<nat>)
    requires a <= b
    ensures |a| <= |b|
    decreases b
  {
    if a != {} {
      var x :| x in a;
      SubsetCard(a - {x}, b - {x});
    }
  }

  /** Two groups drawn from `n` processes share at least as many as their sizes exceed `n` by. */
  lemma Overlap(n: nat, a: set<nat>, b: set<nat>)
    requires forall x :: x in a + b ==> x < n
    ensures |a * b| >= |a| + |b| - n
  {
    SubsetCard(a + b, Upto(n));
    assert |a + b| == |a| + |b| - |a * b|;
  }
}
