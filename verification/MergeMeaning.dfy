/** What a finished merge means: live state overlaid on the fresh program's defaults. */
module MergeMeaning {
  import opened Wrappers
  import opened Tables
  import opened Merge
  import opened MergeOrder

  // The recursive overlay of two unfolded values.
  ghost function OverlayTree(a: Tree, b: Tree): Tree {
    if a.Node? && b.Node? then
      Node(map k | k in a.fields.Keys + b.fields.Keys ::
        if k !in b.fields then a.fields[k]
        else if k !in a.fields then b.fields[k]
        else OverlayTree(a.fields[k], b.fields[k]))
    else if a.Leaf? && b.Leaf? && a.v.Function? && b.v.Function? then b
    else a
  }

  // ---------------------------------------------------------------------------------
  // Live tables that keep step with the fresh graph

  // Where a key leads on the fresh side, if to a table.
  function Beside(h: Heap, f: Option<Table>, k: Value): Option<Table> {
    if f.Some? && f.value in h && k in h[f.value] && h[f.value][k].TableRef? then Some(h[f.value][k].table) else None
  }

  function AllPairs(g: Origin): set<(Table, Option<Table>)> {
    (set d | d in g.h :: (d, None)) + (set d, f | d in g.h && f in g.h :: (d, Some(f)))
  }

  // Each edge of a live table is followed on both sides.
  ghost predicate Paired(g: Origin, S: set<(Table, Option<Table>)>) {
    && (g.dst, Some(g.fresh_)) in S
    && forall p, k | p in S && p.0 in g.h && k in g.h[p.0] && g.h[p.0][k].TableRef? ::
         (g.h[p.0][k].table, Beside(g.h, p.1, k)) in S
  }

  // Each live table with what stands at the same place on the fresh side: the least paired set.
  ghost function Pairs(g: Origin): set<(Table, Option<Table>)> {
    set p | p in AllPairs(g) && forall S | S <= AllPairs(g) && Paired(g, S) :: p in S
  }

  // However a live table is reached, the same fresh table, or none, stands at that place.
  ghost predicate InStep(g: Origin) {
    forall p, q | p in Pairs(g) && q in Pairs(g) && p.0 == q.0 :: p.1 == q.1
  }

  lemma {:induction false} PathPaired(g: Origin, path: seq<Value>, S: set<(Table, Option<Table>)>)
    requires Separated(g) && Paired(g, S)
    ensures var d := Follow(g.h, g.dst, path);
            d.Some? ==> (d.value, Follow(g.h, g.fresh_, path)) in S
    decreases |path|
  {
    if path != [] {
      PathPaired(g, path[..|path| - 1], S);
    }
  }

  lemma PathInPairs(g: Origin, path: seq<Value>)
    requires Separated(g)
    ensures var d := Follow(g.h, g.dst, path);
            d.Some? ==> (d.value, Follow(g.h, g.fresh_, path)) in Pairs(g)
  {
    hide Paired, Follow;
    var d := Follow(g.h, g.dst, path);
    if d.Some? {
      StaysPlaced(g, path);
      forall S | S <= AllPairs(g) && Paired(g, S)
        ensures (d.value, Follow(g.h, g.fresh_, path)) in S
      {
        PathPaired(g, path, S);
      }
    }
  }

  lemma SamePlace(g: Origin, p: seq<Value>, q: seq<Value>)
    requires Separated(g) && InStep(g)
    requires Follow(g.h, g.dst, p).Some? && Follow(g.h, g.dst, p) == Follow(g.h, g.dst, q)
    ensures Follow(g.h, g.fresh_, p) == Follow(g.h, g.fresh_, q)
  {
    hide Separated, Pairs, Follow;
    PathInPairs(g, p);
    PathInPairs(g, q);
  }

  // The live graph is a tree: no edge leads to the root and no table has two edges to it.
  ghost predicate TreeShaped(g: Origin) {
    && g.live <= g.h.Keys
    && (forall t, k | t in g.live && k in g.h[t] :: g.h[t][k] != TableRef(g.dst))
    && (forall s, j, t, k | s in g.live && j in g.h[s] && t in g.live && k in g.h[t] && g.h[s][j] == g.h[t][k] ::
          g.h[s][j].TableRef? ==> s == t && j == k)
  }

  lemma LastEdge(g: Origin, path: seq<Value>)
    requires Separated(g) && path != [] && Follow(g.h, g.dst, path).Some?
    ensures var (d, k) := (Follow(g.h, g.dst, path[..|path| - 1]), path[|path| - 1]);
            && d.Some? && d.value in g.live && d.value in g.h
            && k in g.h[d.value] && g.h[d.value][k] == TableRef(Follow(g.h, g.dst, path).value)
  {
    hide ClosedHeap;
    StaysPlaced(g, path[..|path| - 1]);
  }

  lemma OneEdge(g: Origin, s: Table, j: Value, t: Table, k: Value)
    requires TreeShaped(g) && s in g.live && j in g.h[s] && t in g.live && k in g.h[t]
    requires g.h[s][j] == g.h[t][k] && g.h[s][j].TableRef?
    ensures s == t && j == k && g.h[s][j] != TableRef(g.dst)
  {
  }

  // In a tree, only one path leads to a table.
  lemma {:induction false} OnePath(g: Origin, p: seq<Value>, q: seq<Value>)
    requires TreeShaped(g) && Separated(g)
    requires Follow(g.h, g.dst, p).Some? && Follow(g.h, g.dst, p) == Follow(g.h, g.dst, q)
    ensures p == q
    decreases |p|
  {
    hide Separated, TreeShaped;
    if p != [] {
      LastEdge(g, p);
      var s, j := Follow(g.h, g.dst, p[..|p| - 1]).value, p[|p| - 1];
      OneEdge(g, s, j, s, j);
    }
    if q != [] {
      LastEdge(g, q);
      var t, k := Follow(g.h, g.dst, q[..|q| - 1]).value, q[|q| - 1];
      OneEdge(g, t, k, t, k);
    }
    if p != [] && q != [] {
      OneEdge(g, Follow(g.h, g.dst, p[..|p| - 1]).value, p[|p| - 1], Follow(g.h, g.dst, q[..|q| - 1]).value, q[|q| - 1]);
      OnePath(g, p[..|p| - 1], q[..|q| - 1]);
      assert p == p[..|p| - 1] + [p[|p| - 1]] && q == q[..|q| - 1] + [q[|q| - 1]];
    }
  }

  // So a tree keeps step with whatever it is merged with.
  lemma TreeInStep(g: Origin)
    requires TreeShaped(g) && Separated(g)
    ensures InStep(g)
  {
    hide TreeShaped, Separated, AllPairs, Beside, Follow;
    var S := set p | p in AllPairs(g) &&
               exists path :: Follow(g.h, g.dst, path) == Some(p.0) && Follow(g.h, g.fresh_, path) == p.1;
    assert Paired(g, S) by {
      RootPaired(g);
      forall p, k | p in S && p.0 in g.h && k in g.h[p.0] && g.h[p.0][k].TableRef?
        ensures (g.h[p.0][k].table, Beside(g.h, p.1, k)) in S
      {
        var path :| Follow(g.h, g.dst, path) == Some(p.0) && Follow(g.h, g.fresh_, path) == p.1;
        EdgePaired(g, path, p.0, k);
      }
    }
    forall p, q | p in Pairs(g) && q in Pairs(g) && p.0 == q.0
      ensures p.1 == q.1
    {
      assert p in S && q in S;
      var a :| Follow(g.h, g.dst, a) == Some(p.0) && Follow(g.h, g.fresh_, a) == p.1;
      var b :| Follow(g.h, g.dst, b) == Some(q.0) && Follow(g.h, g.fresh_, b) == q.1;
      OnePath(g, a, b);
    }
  }

  lemma RootPaired(g: Origin)
    requires Separated(g)
    ensures (g.dst, Some(g.fresh_)) in AllPairs(g)
    ensures Follow(g.h, g.dst, []) == Some(g.dst) && Follow(g.h, g.fresh_, []) == Some(g.fresh_)
  {
  }

  lemma EdgePaired(g: Origin, path: seq<Value>, d: Table, k: Value)
    requires Separated(g) && Follow(g.h, g.dst, path) == Some(d) && d in g.h && k in g.h[d] && g.h[d][k].TableRef?
    ensures var beside := Beside(g.h, Follow(g.h, g.fresh_, path), k);
            && (g.h[d][k].table, beside) in AllPairs(g)
            && Follow(g.h, g.dst, path + [k]) == Some(g.h[d][k].table) && Follow(g.h, g.fresh_, path + [k]) == beside
  {
    hide Separated, AllPairs;
    assert (path + [k])[..|path|] == path;
    StaysPlaced(g, path + [k]);
    InAllPairs(g, g.h[d][k].table, Beside(g.h, Follow(g.h, g.fresh_, path), k));
  }

  lemma InAllPairs(g: Origin, d: Table, o: Option<Table>)
    requires Separated(g) && (d in g.h.Keys || d in g.live) && (o.Some? ==> o.value in g.h)
    ensures (d, o) in AllPairs(g)
  {
  }

  // ---------------------------------------------------------------------------------
  // The recursive overlay

  // A live table is overlaid exactly where the fresh graph has a table too.
  lemma MergedAt(g: Origin, pick: Pick, path: seq<Value>, d: Table)
    requires Separated(g) && AnyOrder(g, pick) && InStep(g) && Follow(g.h, g.dst, path) == Some(d)
    ensures d in g.live && d in g.h
    ensures var (h, f) := (After(g, Outcome(g, pick)), Follow(g.h, g.fresh_, path));
            if f.Some? then f.value in g.h && f.value !in g.live && h[d] == Overlay(g.h[d], g.h[f.value]) else h[d] == g.h[d]
  {
    hide ClosedHeap, InStep, Visits, Outcome, Overlay, Follow, Direct, AnyOrder;
    var from, f := Outcome(g, pick), Follow(g.h, g.fresh_, path);
    StaysPlaced(g, path);
    OutcomeFacts(g, pick);
    if d in from {
      SamePlace(g, path, from[d].path);
    }
    if f.Some? {
      forall t, s1, s2, k | Meet(g, t, s1) && Meet(g, t, s2) && Direct(g, s2.path) && Both(g.h, t, s1.fresh_, k)
        ensures Both(g.h, t, s2.fresh_, k)
      {
        SamePlace(g, s1.path, s2.path);
      }
      AllVisited(g, pick, d, Source(f.value, path));
    }
  }

  lemma FreshUnchanged(g: Origin, pick: Pick, v: Value, depth: nat)
    requires Separated(g) && AnyOrder(g, pick) && Within(v, g.h.Keys - g.live)
    ensures Unfold(After(g, Outcome(g, pick)), v, depth) == Unfold(g.h, v, depth)
  {
    hide Visits, Outcome, Follow, AnyOrder, Overlay;
    OutcomeFacts(g, pick);
    var R := set t | t in g.h && t !in g.live :: (t, t);
    assert Bisimulation(R, After(g, Outcome(g, pick)), g.h);
    BisimilarUnfold(R, After(g, Outcome(g, pick)), g.h, v, v, depth);
  }

  // What the merge should make of the table at the end of a path.
  ghost function Expected(g: Origin, d: Table, ff: Option<Table>, depth: nat): Tree {
    match ff
    case Some(f) => OverlayTree(Unfold(g.h, TableRef(d), depth), Unfold(g.h, TableRef(f), depth))
    case None => Unfold(g.h, TableRef(d), depth)
  }

  // ... and of the value it holds under a key.
  ghost function ExpectedField(g: Origin, d: Table, ff: Option<Table>, k: Value, depth: nat): Tree
    requires d in g.h && (ff.Some? ==> ff.value in g.h)
    requires k in g.h[d] || (ff.Some? && k in g.h[ff.value])
  {
    if ff.None? || k !in g.h[ff.value] then Unfold(g.h, g.h[d][k], depth)
    else if k !in g.h[d] then Unfold(g.h, g.h[ff.value][k], depth)
    else OverlayTree(Unfold(g.h, g.h[d][k], depth), Unfold(g.h, g.h[ff.value][k], depth))
  }

  lemma ExpectedByField(g: Origin, h: Heap, d: Table, ff: Option<Table>, depth: nat)
    requires depth > 0 && d in g.h && d in h && (ff.Some? ==> ff.value in g.h)
    requires h[d].Keys == g.h[d].Keys + if ff.Some? then g.h[ff.value].Keys else {}
    requires forall k | k in h[d] :: Unfold(h, h[d][k], depth - 1) == ExpectedField(g, d, ff, k, depth - 1)
    ensures Unfold(h, TableRef(d), depth) == Expected(g, d, ff, depth)
  {
  }

  lemma CutOverlay(g: Origin, h: Heap, d: Table, ff: Option<Table>)
    ensures Unfold(h, TableRef(d), 0) == Expected(g, d, ff, 0)
  {
  }

  // On live tables that keep step with the fresh graph, trees among them, the merge is the
  // recursive overlay in every order and to every depth: every fresh key is present and every
  // live value that is not a function is what it was.
  lemma {:induction false} MergeIsOverlay(g: Origin, pick: Pick, path: seq<Value>, d: Table, depth: nat)
    requires Separated(g) && AnyOrder(g, pick) && InStep(g) && Follow(g.h, g.dst, path) == Some(d)
    ensures Unfold(After(g, Outcome(g, pick)), TableRef(d), depth) == Expected(g, d, Follow(g.h, g.fresh_, path), depth)
    decreases depth, 0
  {
    hide Separated, InStep, AnyOrder, OverlayTree, Follow, Visits, Outcome, Overlay;
    MergedAt(g, pick, path, d);
    var h, ff := After(g, Outcome(g, pick)), Follow(g.h, g.fresh_, path);
    if depth > 0 {
      OverlaidKeys(g, h, d, ff);
      forall k | k in h[d]
        ensures Unfold(h, h[d][k], depth - 1) == ExpectedField(g, d, ff, k, depth - 1)
      {
        MergeIsOverlayAt(g, pick, path, d, k, depth - 1);
      }
      ExpectedByField(g, h, d, ff, depth);
    } else {
      CutOverlay(g, h, d, ff);
    }
  }

  lemma OverlaidKeys(g: Origin, h: Heap, d: Table, ff: Option<Table>)
    requires d in g.h && d in h && (ff.Some? ==> ff.value in g.h)
    requires h[d] == if ff.Some? then Overlay(g.h[d], g.h[ff.value]) else g.h[d]
    ensures h[d].Keys == g.h[d].Keys + if ff.Some? then g.h[ff.value].Keys else {}
  {
  }

  lemma {:induction false} MergeIsOverlayAt(g: Origin, pick: Pick, path: seq<Value>, d: Table, k: Value, depth: nat)
    requires Separated(g) && AnyOrder(g, pick) && InStep(g) && Follow(g.h, g.dst, path) == Some(d)
    requires d in g.h && (Follow(g.h, g.fresh_, path).Some? ==> Follow(g.h, g.fresh_, path).value in g.h)
    requires k in g.h[d] || (Follow(g.h, g.fresh_, path).Some? && k in g.h[Follow(g.h, g.fresh_, path).value])
    requires k in After(g, Outcome(g, pick))[d]
    ensures Unfold(After(g, Outcome(g, pick)), After(g, Outcome(g, pick))[d][k], depth) ==
            ExpectedField(g, d, Follow(g.h, g.fresh_, path), k, depth)
    decreases depth, 1
  {
    hide InStep, AnyOrder, Follow, Visits, Outcome, After, ClosedHeap;
    MergedAt(g, pick, path, d);
    var ff := Follow(g.h, g.fresh_, path);
    if k in g.h[d] {
      EntryFacts(g.h, d, k);
    }
    if ff.Some? && k in g.h[ff.value] && Yields(Get(g.h[d], k), g.h[ff.value][k]) {
      FreshUnchanged(g, pick, g.h[ff.value][k], depth);
    } else if g.h[d][k].TableRef? {
      EdgePaired(g, path, d, k);
      MergeIsOverlay(g, pick, path + [k], g.h[d][k].table, depth);
    }
  }

  // One global's table merged with its fresh declaration, as after a successful reload.
  method MergeRoots(dst: Table, fresh_: Table, pick: Pick, ghost U: set<Table>, ghost live: set<Table>)
    requires Closed(U) && dst in live && fresh_ in U && fresh_ !in live
    requires var g := Origin(View(U), live, dst, fresh_); Separated(g) && InStep(g) && AnyOrder(g, pick)
    modifies U`entries
    ensures forall depth: nat :: Unfold(View(U), TableRef(dst), depth) ==
              OverlayTree(old(Unfold(View(U), TableRef(dst), depth)), old(Unfold(View(U), TableRef(fresh_), depth)))
    ensures forall t | t in U && t !in live :: t.entries == old(t.entries)
  {
    hide OverlayTree, Unfold, InStep, KeysWithin, KeysOf, Merged, ClosedHeap, Closed, Visits, Separated, Fair, Finished, After;
    ghost var h := View(U);
    ghost var g := Origin(h, live, dst, fresh_);
    SeparatedParts(g);
    KeysOfWithin(h);
    assert h.Keys == U;
    var seen, from := MergeTables(dst, fresh_, {}, pick, U, KeysOf(h), true, g, [], map[]);
    assert seen - {} == seen;
    DoneIsAfter(g, View(U), from);
    forall depth: nat
      ensures Unfold(View(U), TableRef(dst), depth) ==
              OverlayTree(Unfold(h, TableRef(dst), depth), Unfold(h, TableRef(fresh_), depth))
    {
      MergeIsOverlay(g, pick, [], dst, depth);
    }
    assert forall t | t in U && t !in live :: View(U)[t] == h[t];
  }

  lemma SeparatedParts(g: Origin)
    requires Separated(g)
    ensures ClosedHeap(g.h) && g.live <= g.h.Keys && Placed(g, g.dst, g.fresh_)
  {
  }

  lemma DoneIsAfter(g: Origin, h: Heap, from: map<Table, Source>)
    requires Started(g, h, from) && Finished(g, h, from, from.Keys)
    ensures forall t | t in g.h :: h[t] == After(g, from)[t]
    ensures h.Keys == g.h.Keys ==> h == After(g, from)
  {
    hide Separated, Overlay;
  }

  // ---------------------------------------------------------------------------------
  // A default that is lost in every order

  // Whatever the shape of the live graph, each visited table has become the overlay of itself
  // and of some one fresh table found at the end of one path that leads to it.
  lemma MergedFromOnePath(g: Origin, pick: Pick, d: Table)
    requires Separated(g) && AnyOrder(g, pick) && d in g.h
    ensures var h := After(g, Outcome(g, pick));
            if d in Outcome(g, pick) then exists s :: Meet(g, d, s) && Direct(g, s.path) && h[d] == Overlay(g.h[d], g.h[s.fresh_])
            else h[d] == g.h[d]
  {
    hide Visits, Outcome, Direct, Follow, Overlay, Separated;
    OutcomeFacts(g, pick);
    if d in Outcome(g, pick) {
      var s := Outcome(g, pick)[d];
      assert Meet(g, d, s) && Direct(g, s.path);
    }
  }

  // Defaults that no single fresh table offers together never arrive together.
  lemma DefaultsFromOneTable(g: Origin, pick: Pick, d: Table, a: Value, b: Value)
    requires Separated(g) && AnyOrder(g, pick) && d in g.h && a !in g.h[d] && b !in g.h[d]
    requires forall f | f in g.h && f !in g.live :: !(a in g.h[f] && b in g.h[f])
    ensures var h := After(g, Outcome(g, pick)); !(a in h[d] && b in h[d])
  {
    hide Visits, Outcome, Direct, Follow, Separated;
    MergedFromOnePath(g, pick, d);
  }

  // Two live keys share one table; the reloaded program declares a table for each.
  function SharedHeap(r: Table, s: Table, f: Table, x: Table, y: Table): Heap {
    var (a, b) := (Scalar(0), Scalar(1));
    map[r := map[a := TableRef(s), b := TableRef(s)], s := map[],
        f := map[a := TableRef(x), b := TableRef(y)], x := map[Scalar(2) := a], y := map[Scalar(3) := b]]
  }

  lemma SharedLinks(r: Table, s: Table, f: Table, x: Table, y: Table)
    requires r != s && f !in {r, s} && x !in {r, s, f} && y !in {r, s, f, x}
    ensures var h := SharedHeap(r, s, f, x, y);
            && h.Keys == {r, s, f, x, y}
            && (forall t | t in {r, s} :: Clean(h[t]) && EntriesWithin(h[t], {r, s}))
            && (forall t | t in {f, x, y} :: Clean(h[t]) && EntriesWithin(h[t], {f, x, y}))
  {
  }

  lemma SharedIsSeparated(r: Table, s: Table, f: Table, x: Table, y: Table)
    requires r != s && f !in {r, s} && x !in {r, s, f} && y !in {r, s, f, x}
    ensures Separated(Origin(SharedHeap(r, s, f, x, y), {r, s}, r, f))
  {
    hide SharedHeap, Clean;
    SharedLinks(r, s, f, x, y);
    assert SharedHeap(r, s, f, x, y).Keys - {r, s} == {f, x, y};
  }

  // So, whatever the order of iteration, the shared table misses one of the two defaults.
  lemma SharedTableLosesDefault(r: Table, s: Table, f: Table, x: Table, y: Table, pick: Pick)
    requires r != s && f !in {r, s} && x !in {r, s, f} && y !in {r, s, f, x}
    requires AnyOrder(Origin(SharedHeap(r, s, f, x, y), {r, s}, r, f), pick)
    ensures var g := Origin(SharedHeap(r, s, f, x, y), {r, s}, r, f);
            var h := After(g, Outcome(g, pick));
            s in h && !(Scalar(2) in h[s] && Scalar(3) in h[s])
  {
    hide Separated, AnyOrder, Outcome;
    var g := Origin(SharedHeap(r, s, f, x, y), {r, s}, r, f);
    SharedIsSeparated(r, s, f, x, y);
    forall t | t in g.h && t !in g.live
      ensures !(Scalar(2) in g.h[t] && Scalar(3) in g.h[t])
    {
      assert t in {f, x, y};
    }
    DefaultsFromOneTable(g, pick, s, Scalar(2), Scalar(3));
  }

  // The merge itself, on such tables.
  method MergeShared(r: Table, s: Table, f: Table, x: Table, y: Table, pick: Pick)
    requires r != s && f !in {r, s} && x !in {r, s, f} && y !in {r, s, f, x}
    requires View({r, s, f, x, y}) == SharedHeap(r, s, f, x, y)
    requires AnyOrder(Origin(SharedHeap(r, s, f, x, y), {r, s}, r, f), pick)
    modifies {r, s, f, x, y}`entries
    ensures !(Scalar(2) in s.entries && Scalar(3) in s.entries)
    ensures f.entries == old(f.entries) && x.entries == old(x.entries) && y.entries == old(y.entries)
  {
    hide Merged, Closed, ClosedHeap, SharedHeap, KeysWithin, KeysOf, Visits, Fair, Separated, Finished, After;
    ghost var U, h := {r, s, f, x, y}, SharedHeap(r, s, f, x, y);
    ghost var g := Origin(h, {r, s}, r, f);
    SharedIsSeparated(r, s, f, x, y);
    SeparatedParts(g);
    KeysOfWithin(h);
    assert h.Keys == U;
    var seen, from := MergeTables(r, f, {}, pick, U, KeysOf(h), true, g, [], map[]);
    assert seen - {} == seen;
    DoneIsAfter(g, View(U), from);
    SharedTableLosesDefault(r, s, f, x, y, pick);
    assert forall t | t in {f, x, y} :: View(U)[t] == h[t];
  }
}
