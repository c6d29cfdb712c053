/** The tables that values of a heap lead to. */
module Reachability {
  import opened Tables

  ghost predicate ClosedIn(h: Heap, S: set<Table>) {
    S <= h.Keys && forall t | t in S :: EntriesWithin(h[t], S)
  }

  // The least closed set around the roots.
  ghost function Reach(h: Heap, roots: set<Table>): set<Table> {
    set t | t in h && forall S | S <= h.Keys && roots <= S && ClosedIn(h, S) :: t in S
  }

  ghost predicate WholeHeap(h: Heap) {
    ClosedIn(h, h.Keys)
  }

  lemma ReachIsClosed(h: Heap, roots: set<Table>)
    requires WholeHeap(h) && roots <= h.Keys
    ensures ClosedIn(h, Reach(h, roots)) && roots <= Reach(h, roots)
  {
    var R := Reach(h, roots);
    forall t, k | t in R && k in h[t]
      ensures Within(k, R) && Within(h[t][k], R)
    {
      assert Within(k, h.Keys) && Within(h[t][k], h.Keys);
      forall S | S <= h.Keys && roots <= S && ClosedIn(h, S)
        ensures Within(k, S) && Within(h[t][k], S)
      {
        assert t in S;
      }
    }
  }

  lemma ReachIsLeast(h: Heap, roots: set<Table>, S: set<Table>)
    requires roots <= S && ClosedIn(h, S)
    ensures Reach(h, roots) <= S
  {
  }

  // A value unfolds alike in two heaps that agree on what it leads to.
  lemma UnfoldAgree(h: Heap, h': Heap, S: set<Table>, v: Value, depth: nat)
    requires ClosedIn(h, S) && Within(v, S) && S <= h'.Keys && forall t | t in S :: h'[t] == h[t]
    ensures Unfold(h', v, depth) == Unfold(h, v, depth)
  {
    var R := set t | t in S :: (t, t);
    assert Bisimulation(R, h', h);
    BisimilarUnfold(R, h', h, v, v, depth);
  }

  function Sub(h: Heap, S: set<Table>): Heap {
    map t | t in h && t in S :: h[t]
  }
}
