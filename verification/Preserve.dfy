/** Carrying the state of many globals over a reload: each merged into its fresh declaration. */
module Preserve {
  import opened Tables
  import opened Snapshot
  import opened Reachability
  import opened Merge
  import opened MergeOrder
  import opened MergeMeaning

  // Whether a reload binds the old value of a name again.
  predicate Preserved(before: Globals, after: Globals, n: string) {
    n in before && n in after && !before[n].Function? && !after[n].Function?
  }

  // Which binding a preserving reload leaves under each name.
  function Rebound(before: Globals, after: Globals): Globals {
    map n | n in after :: if Preserved(before, after, n) then before[n] else after[n]
  }

  // The old binding comes back, unless it or the new one is a function or the name is new; a
  // name that is gone stays gone.
  lemma ReboundExactly(before: Globals, after: Globals)
    ensures Rebound(before, after).Keys == after.Keys
    ensures forall n | n in after && n !in before :: Rebound(before, after)[n] == after[n]
    ensures forall n | n in after && n in before ::
              Rebound(before, after)[n] == if before[n].Function? || after[n].Function? then after[n] else before[n]
  {
  }

  // Whether it merges another table into the old one.
  predicate Merging(before: Globals, after: Globals, n: string) {
    Preserved(before, after, n) && before[n].TableRef? && after[n].TableRef? && before[n] != after[n]
  }

  function TableOf(v: Value): set<Table> {
    if v.TableRef? then {v.table} else {}
  }

  ghost function LiveOf(h: Heap, before: Globals, n: string): set<Table>
    requires n in before
  {
    Reach(h, TableOf(before[n]))
  }

  ghost function FreshOf(h: Heap, after: Globals, n: string): set<Table>
    requires n in after
  {
    Reach(h, TableOf(after[n]))
  }

  ghost function OriginOf(h: Heap, before: Globals, after: Globals, n: string): Origin
    requires Merging(before, after, n)
  {
    var live := LiveOf(h, before, n);
    Origin(Sub(h, live + FreshOf(h, after, n)), live, before[n].table, after[n].table)
  }

  // The live tables that are merged into belong to one global each, and to no fresh one, and
  // keep step with what is merged into them.
  ghost predicate Apart(h: Heap, before: Globals, after: Globals) {
    && (forall n, m | Merging(before, after, n) && Merging(before, after, m) :: LiveOf(h, before, n) !! FreshOf(h, after, m))
    && (forall n, m | Merging(before, after, n) && Preserved(before, after, m) && n != m :: LiveOf(h, before, n) !! LiveOf(h, before, m))
    && (forall n | Merging(before, after, n) :: InStep(OriginOf(h, before, after, n)))
  }

  // Every preserved global unfolds, to every depth, to its old value overlaid on its fresh one.
  ghost predicate MergedGlobals(h: Heap, h': Heap, before: Globals, after: Globals) {
    forall n, depth: nat | Preserved(before, after, n) ::
      Unfold(h', before[n], depth) == OverlayTree(Unfold(h, before[n], depth), Unfold(h, after[n], depth))
  }

  ghost predicate WellFormed(h: Heap, before: Globals, after: Globals) {
    ClosedHeap(h) && GlobalsWithin(before, h.Keys) && GlobalsWithin(after, h.Keys)
  }

  // ---------------------------------------------------------------------------------
  // One global

  lemma LiveIsClosed(h: Heap, before: Globals, n: string)
    requires ClosedHeap(h) && GlobalsWithin(before, h.Keys) && n in before
    ensures ClosedIn(h, LiveOf(h, before, n)) && Within(before[n], LiveOf(h, before, n))
  {
    ReachIsClosed(h, TableOf(before[n]));
  }

  lemma OriginSeparated(h: Heap, before: Globals, after: Globals, n: string)
    requires WellFormed(h, before, after) && Apart(h, before, after) && Merging(before, after, n)
    ensures var g := OriginOf(h, before, after, n);
            && Separated(g) && InStep(g)
            && g.h.Keys == LiveOf(h, before, n) + FreshOf(h, after, n) && g.h.Keys <= h.Keys
            && forall t | t in g.h :: g.h[t] == h[t]
  {
    hide Reach, InStep, Clean;
    LiveIsClosed(h, before, n);
    LiveIsClosed(h, after, n);
    var g := OriginOf(h, before, after, n);
    assert LiveOf(h, before, n) !! FreshOf(h, after, n);
    assert g.h.Keys == LiveOf(h, before, n) + FreshOf(h, after, n);
    assert g.h.Keys - g.live == FreshOf(h, after, n);
  }

  lemma FairLess(pick: Pick, T: set<Table>, K: set<Value>, T': set<Table>, K': set<Value>)
    requires Fair(pick, T, K) && T' <= T && K' <= K
    ensures Fair(pick, T', K')
  {
  }

  lemma OriginAnyOrder(h: Heap, before: Globals, after: Globals, n: string, pick: Pick)
    requires WellFormed(h, before, after) && Apart(h, before, after) && Merging(before, after, n)
    requires Fair(pick, h.Keys, KeysOf(h))
    ensures AnyOrder(OriginOf(h, before, after, n), pick)
  {
    hide Apart, WellFormed, Fair, Separated, InStep;
    OriginSeparated(h, before, after, n);
    var g := OriginOf(h, before, after, n);
    FairLess(pick, h.Keys, KeysOf(h), g.h.Keys, KeysOf(g.h));
  }

  // ---------------------------------------------------------------------------------
  // All globals, in any order

  ghost function Goal(h: Heap, before: Globals, after: Globals, n: string, pick: Pick): Heap
    requires Merging(before, after, n)
  {
    After(OriginOf(h, before, after, n), Outcome(OriginOf(h, before, after, n), pick))
  }

  ghost function Region(h: Heap, before: Globals, after: Globals, n: string): set<Table>
    requires Merging(before, after, n)
  {
    OriginOf(h, before, after, n).h.Keys
  }

  // The names in `todo` still have to be merged, the others have been.
  ghost predicate Waiting(h: Heap, h': Heap, before: Globals, after: Globals, todo: set<string>) {
    forall n | Merging(before, after, n) && n in todo ::
      forall t | t in Region(h, before, after, n) :: t in h && t in h' && h'[t] == h[t]
  }

  ghost predicate Done(h: Heap, h': Heap, before: Globals, after: Globals, pick: Pick, todo: set<string>) {
    forall n | Merging(before, after, n) && n !in todo ::
      forall t | t in Region(h, before, after, n) :: t in h && t in h' && h'[t] == Goal(h, before, after, n, pick)[t]
  }

  // Tables that belong to no merged global.
  ghost predicate Elsewhere(h: Heap, before: Globals, after: Globals, t: Table) {
    forall n | Merging(before, after, n) :: t !in LiveOf(h, before, n)
  }

  ghost predicate Stage(h: Heap, h': Heap, before: Globals, after: Globals, pick: Pick, todo: set<string>) {
    && h'.Keys == h.Keys && Waiting(h, h', before, after, todo) && Done(h, h', before, after, pick, todo)
    && forall t | t in h && Elsewhere(h, before, after, t) :: h'[t] == h[t]
  }

  lemma StageStart(h: Heap, before: Globals, after: Globals, pick: Pick)
    requires WellFormed(h, before, after)
    ensures Stage(h, h, before, after, pick, before.Keys)
  {
    hide Reach;
    forall n, t | Merging(before, after, n) && t in Region(h, before, after, n)
      ensures t in h
    {
    }
  }

  lemma StageSkip(h: Heap, h': Heap, before: Globals, after: Globals, pick: Pick, todo: set<string>, n: string)
    requires Stage(h, h', before, after, pick, todo) && !Merging(before, after, n)
    ensures Stage(h, h', before, after, pick, todo - {n})
  {
    hide Region, Goal, LiveOf;
  }

  // What the merge of one global may rely on.
  lemma StageBefore(h: Heap, h': Heap, before: Globals, after: Globals, pick: Pick, todo: set<string>, n: string)
    requires WellFormed(h, before, after) && Apart(h, before, after) && Stage(h, h', before, after, pick, todo)
    requires Merging(before, after, n) && n in todo
    ensures Started(OriginOf(h, before, after, n), h', map[])
  {
    hide Apart, Separated, InStep, Goal, LiveOf;
    OriginSeparated(h, before, after, n);
  }

  lemma OthersStay(h: Heap, h1: Heap, h2: Heap, before: Globals, after: Globals, n: string, m: string)
    requires WellFormed(h, before, after) && Apart(h, before, after) && h1.Keys == h2.Keys == h.Keys
    requires Merging(before, after, n) && Merging(before, after, m) && m != n
    requires forall t | t in h1 && t !in LiveOf(h, before, n) :: h2[t] == h1[t]
    ensures forall t | t in Region(h, before, after, m) :: t in h && h2[t] == h1[t]
  {
    hide Separated, InStep, Reach, WellFormed, LiveOf, FreshOf;
    OriginSeparated(h, before, after, m);
    assert LiveOf(h, before, n) !! LiveOf(h, before, m) && LiveOf(h, before, n) !! FreshOf(h, after, m);
  }

  lemma StageStep(h: Heap, h1: Heap, h2: Heap, before: Globals, after: Globals, pick: Pick, todo: set<string>, n: string)
    requires WellFormed(h, before, after) && Apart(h, before, after) && Stage(h, h1, before, after, pick, todo)
    requires Merging(before, after, n) && n in todo && h2.Keys == h1.Keys
    requires forall t | t in Region(h, before, after, n) :: t in h && h2[t] == Goal(h, before, after, n, pick)[t]
    requires forall t | t in h1 && t !in LiveOf(h, before, n) :: h2[t] == h1[t]
    ensures Stage(h, h2, before, after, pick, todo - {n})
  {
    hide Apart, WellFormed, Region, Goal, LiveOf, Merging;
    forall m | Merging(before, after, m) && m != n
      ensures forall t | t in Region(h, before, after, m) :: t in h && h2[t] == h1[t]
    {
      OthersStay(h, h1, h2, before, after, n, m);
    }
  }

  // The merged tables lead only to tables that were merged together.
  lemma GoalIsClosed(h: Heap, before: Globals, after: Globals, n: string, pick: Pick)
    requires WellFormed(h, before, after) && Apart(h, before, after) && Merging(before, after, n)
    ensures ClosedIn(Goal(h, before, after, n, pick), Region(h, before, after, n))
    ensures Goal(h, before, after, n, pick).Keys == Region(h, before, after, n)
  {
    hide Apart, WellFormed, InStep, Outcome;
    OriginSeparated(h, before, after, n);
    AfterIsClosed(OriginOf(h, before, after, n), Outcome(OriginOf(h, before, after, n), pick));
  }

  lemma AfterIsClosed(g: Origin, from: map<Table, Source>)
    requires Separated(g)
    ensures ClosedIn(After(g, from), g.h.Keys) && After(g, from).Keys == g.h.Keys
  {
    hide Clean;
  }

  // A merged global unfolds to the overlay, whatever has happened to the others.
  lemma GlobalMerged(h: Heap, h': Heap, before: Globals, after: Globals, pick: Pick, n: string, depth: nat)
    requires WellFormed(h, before, after) && Apart(h, before, after) && Fair(pick, h.Keys, KeysOf(h))
    requires Stage(h, h', before, after, pick, {}) && Merging(before, after, n)
    ensures Unfold(h', before[n], depth) == OverlayTree(Unfold(h, before[n], depth), Unfold(h, after[n], depth))
  {
    hide Apart, WellFormed, Fair, InStep, Goal, Unfold, OverlayTree, Reach, Separated;
    var g, goal := OriginOf(h, before, after, n), Goal(h, before, after, n, pick);
    OriginSeparated(h, before, after, n);
    OriginAnyOrder(h, before, after, n, pick);
    GoalIsClosed(h, before, after, n, pick);
    SeparatedParts(g);
    UnfoldAgree(goal, h', g.h.Keys, before[n], depth);
    GoalUnfolds(h, before, after, n, pick, depth);
    ClosedSub(g);
    UnfoldAgree(g.h, h, g.h.Keys, before[n], depth);
    UnfoldAgree(g.h, h, g.h.Keys, after[n], depth);
  }

  lemma ClosedSub(g: Origin)
    requires Separated(g)
    ensures ClosedIn(g.h, g.h.Keys)
  {
  }

  lemma GoalUnfolds(h: Heap, before: Globals, after: Globals, n: string, pick: Pick, depth: nat)
    requires Merging(before, after, n)
    requires var g := OriginOf(h, before, after, n); Separated(g) && InStep(g) && AnyOrder(g, pick)
    ensures var g := OriginOf(h, before, after, n);
            Unfold(Goal(h, before, after, n, pick), before[n], depth) ==
            OverlayTree(Unfold(g.h, before[n], depth), Unfold(g.h, after[n], depth))
  {
    hide InStep, Separated, AnyOrder, Outcome, After, OverlayTree, Unfold;
    MergeIsOverlay(OriginOf(h, before, after, n), pick, [], before[n].table, depth);
  }

  // A value overlaid on itself, or on one that is not a table, is what it was.
  lemma {:induction false} OverlaySelf(t: Tree)
    ensures OverlayTree(t, t) == t
  {
    if t.Node? {
      forall k | k in t.fields
        ensures OverlayTree(t.fields[k], t.fields[k]) == t.fields[k]
      {
        OverlaySelf(t.fields[k]);
      }
      assert OverlayTree(t, t).fields == t.fields;
    }
  }

  lemma OverlayOther(h: Heap, v: Value, w: Value, depth: nat)
    requires !v.Function? && !(v.TableRef? && w.TableRef?)
    ensures OverlayTree(Unfold(h, v, depth), Unfold(h, w, depth)) == Unfold(h, v, depth)
  {
  }

  lemma GlobalKept(h: Heap, h': Heap, before: Globals, after: Globals, pick: Pick, n: string, depth: nat)
    requires WellFormed(h, before, after) && Apart(h, before, after)
    requires Stage(h, h', before, after, pick, {}) && Preserved(before, after, n) && !Merging(before, after, n)
    ensures Unfold(h', before[n], depth) == OverlayTree(Unfold(h, before[n], depth), Unfold(h, after[n], depth))
  {
    hide InStep, Goal, Unfold, OverlayTree, Reach, OriginOf, Region;
    LiveIsClosed(h, before, n);
    forall t | t in LiveOf(h, before, n)
      ensures h'[t] == h[t]
    {
      forall m | Merging(before, after, m)
        ensures t !in LiveOf(h, before, m)
      {
        assert LiveOf(h, before, m) !! LiveOf(h, before, n);
      }
    }
    UnfoldAgree(h, h', LiveOf(h, before, n), before[n], depth);
    if before[n] == after[n] {
      OverlaySelf(Unfold(h, before[n], depth));
    } else {
      OverlayOther(h, before[n], after[n], depth);
    }
  }

  lemma StageDone(h: Heap, h': Heap, before: Globals, after: Globals, pick: Pick)
    requires WellFormed(h, before, after) && Apart(h, before, after) && Fair(pick, h.Keys, KeysOf(h))
    requires Stage(h, h', before, after, pick, {})
    ensures MergedGlobals(h, h', before, after)
  {
    hide WellFormed, Apart, Fair, Stage, Unfold, OverlayTree;
    forall n, depth: nat | Preserved(before, after, n)
      ensures Unfold(h', before[n], depth) == OverlayTree(Unfold(h, before[n], depth), Unfold(h, after[n], depth))
    {
      if Merging(before, after, n) {
        GlobalMerged(h, h', before, after, pick, n, depth);
      } else {
        GlobalKept(h, h', before, after, pick, n, depth);
      }
    }
  }
}
