/** Merging the tables of a reloaded program into the tables that were already live. */
module Merge {
  import opened Tables

  function Get(e: Entries, k: Value): Value {
    if k in e then e[k] else Nil
  }

  // Live state wins, but a missing key is filled in and a function gives way to a function.
  predicate Yields(current: Value, v: Value) {
    current.Nil? || (current.Function? && v.Function?)
  }

  function Prefer(current: Value, v: Value): Value {
    if Yields(current, v) then v else current
  }

  function Overlay(e: Entries, f: Entries): Entries {
    map k | k in e.Keys + f.Keys :: if k in f then Prefer(Get(e, k), f[k]) else e[k]
  }

  function Only(f: Entries, keys: set<Value>): Entries {
    map k | k in f && k in keys :: f[k]
  }

  // No key is lost, and only functions change, into functions.
  ghost predicate Keeps(e: Entries, e': Entries) {
    forall k | k in e :: k in e' && (e'[k] == e[k] || (e[k].Function? && e'[k].Function?))
  }

  // ---------------------------------------------------------------------------------
  // What every merge respects, however the two graphs overlap

  ghost predicate ClosedHeap(h: Heap) {
    forall t | t in h :: Clean(h[t]) && EntriesWithin(h[t], h.Keys)
  }

  ghost predicate KeysWithin(h: Heap, K: set<Value>) {
    forall t | t in h :: h[t].Keys <= K
  }

  lemma EntryFacts(h: Heap, t: Table, k: Value)
    requires ClosedHeap(h) && t in h && k in h[t]
    ensures !k.Nil? && KeyOf(k) == k && !h[t][k].Nil? && Within(k, h.Keys) && Within(h[t][k], h.Keys)
  {
  }

  // The keys that merging can ever introduce.
  ghost function KeysOf(h: Heap): set<Value> {
    set t, k | t in h && k in h[t] :: k
  }

  lemma ClosedIsClosedHeap(tables: set<Table>)
    ensures Closed(tables) <==> ClosedHeap(View(tables))
  {
    assert forall t | t in tables :: View(tables)[t] == t.entries;
  }

  lemma KeysOfWithin(h: Heap)
    ensures KeysWithin(h, KeysOf(h))
  {
  }

  // Only visited, unprotected tables have changed, and those have kept their state.
  ghost predicate Merged(h: Heap, h': Heap, protected: set<Table>, seen: set<Table>) {
    && h.Keys == h'.Keys && ClosedHeap(h') && seen <= h.Keys
    && (forall t | t in h :: Keeps(h[t], h'[t]))
    && (forall t | t in h && (t in protected || t !in seen) :: h'[t] == h[t])
  }

  lemma MergedTrans(h0: Heap, h1: Heap, h2: Heap, P: set<Table>, P1: set<Table>, s1: set<Table>, s2: set<Table>)
    requires Merged(h0, h1, P, s1) && Merged(h1, h2, P1, s2) && P <= P1 && s1 <= s2
    ensures Merged(h0, h2, P, s2)
  {
  }

  lemma MergedNothing(h: Heap, P: set<Table>, seen: set<Table>)
    requires ClosedHeap(h) && seen <= h.Keys
    ensures Merged(h, h, P, seen)
  {
  }

  lemma MergedLess(h: Heap, h': Heap, P: set<Table>, dst: Table, seen: set<Table>)
    requires Merged(h, h', P, seen)
    ensures Merged(h, h', P - {dst}, seen)
  {
  }

  // Storing a key of one table into another that has none, or a function, there.
  lemma MergedStore(h: Heap, dst: Table, seen: set<Table>, K: set<Value>, fresh_: Table, k: Value)
    requires ClosedHeap(h) && KeysWithin(h, K) && seen <= h.Keys && dst in seen
    requires fresh_ in h && k in h[fresh_] && Yields(Get(h[dst], k), h[fresh_][k])
    ensures var h' := h[dst := Stored(h[dst], k, h[fresh_][k])];
            Merged(h, h', seen - {dst}, seen) && KeysWithin(h', K)
  {
  }

  // ---------------------------------------------------------------------------------
  // The order of iteration

  // The key of a fresh table to visit next, of those left: one order for each table.
  type Pick = (Table, set<Value>) -> Value

  ghost predicate Fair(pick: Pick, tables: set<Table>, K: set<Value>) {
    forall f, keys | f in tables && keys <= K && keys != {} :: pick(f, keys) in keys
  }

  // ---------------------------------------------------------------------------------
  // What a merge computes when the live and the fresh graph are separate

  // The heap when the merge started, its two roots, and the tables of the live graph.
  datatype Origin = Origin(h: Heap, live: set<Table>, dst: Table, fresh_: Table)

  ghost predicate Separated(g: Origin) {
    && ClosedHeap(g.h) && g.live <= g.h.Keys && Placed(g, g.dst, g.fresh_)
    && (forall t | t in g.live :: EntriesWithin(g.h[t], g.live))
    && (forall t | t in g.h && t !in g.live :: EntriesWithin(g.h[t], g.h.Keys - g.live))
  }

  // A live table and a fresh one.
  predicate Placed(g: Origin, d: Table, f: Table) {
    d in g.live && d in g.h && f in g.h && f !in g.live
  }

  // The fresh table a live table is merged from, and the path of keys that led to both.
  datatype Source = Source(fresh_: Table, path: seq<Value>)

  predicate Both(h: Heap, d: Table, f: Table, k: Value) {
    d in h && f in h && k in h[d] && k in h[f] && h[d][k].TableRef? && h[f][k].TableRef?
  }

  // Which live tables a merge visits, and from where it merges each: depth first, and a table
  // only the first time it is met.
  ghost function Visits(h: Heap, d: Table, s: Source, from: map<Table, Source>, pick: Pick): (from': map<Table, Source>)
    ensures forall t | t in from :: t in from' && from'[t] == from[t]
    decreases h.Keys - from.Keys, 0
  {
    if d !in h || s.fresh_ !in h || d in from then from
    else
      assert d in h.Keys - from.Keys && d !in h.Keys - from[d := s].Keys;
      VisitKeys(h, d, s, h[s.fresh_].Keys, from[d := s], pick)
  }

  ghost function VisitKeys(h: Heap, d: Table, s: Source, keys: set<Value>, from: map<Table, Source>, pick: Pick): (from': map<Table, Source>)
    ensures forall t | t in from :: t in from' && from'[t] == from[t]
    decreases h.Keys - from.Keys, 1, keys
  {
    if keys == {} || pick(s.fresh_, keys) !in keys then from
    else
      var k := pick(s.fresh_, keys);
      var visited :=
        if Both(h, d, s.fresh_, k) then Visits(h, h[d][k].table, Source(h[s.fresh_][k].table, s.path + [k]), from, pick)
        else from;
      VisitKeys(h, d, s, keys - {k}, visited, pick)
  }

  ghost function Outcome(g: Origin, pick: Pick): map<Table, Source> {
    Visits(g.h, g.dst, Source(g.fresh_, []), map[], pick)
  }

  // The heap a merge leaves: every table it visited is overlaid once.
  ghost function After(g: Origin, from: map<Table, Source>): Heap {
    map t | t in g.h :: if t in from && from[t].fresh_ in g.h then Overlay(g.h[t], g.h[from[t].fresh_]) else g.h[t]
  }

  // Tables not visited so far are as they were.
  ghost predicate Started(g: Origin, h: Heap, from: map<Table, Source>) {
    && Separated(g) && g.h.Keys <= h.Keys && from.Keys <= g.live
    && forall t | t in g.h && t !in from :: h[t] == g.h[t]
  }

  ghost predicate Finished(g: Origin, h: Heap, from: map<Table, Source>, tables: set<Table>) {
    forall t | t in tables :: t in g.h && t in h && t in from && from[t].fresh_ in g.h && h[t] == After(g, from)[t]
  }

  // Halfway through the loop over the fresh table's keys.
  ghost predicate InProgress(g: Origin, h: Heap, start: map<Table, Source>, from: map<Table, Source>, dst: Table, s: Source,
                             keys: set<Value>, pick: Pick)
  {
    && Started(g, h, from) && Placed(g, dst, s.fresh_)
    && start.Keys <= from.Keys && dst in from && dst !in start && from[dst] == s
    && h[dst] == Overlay(g.h[dst], Only(g.h[s.fresh_], keys))
    && Finished(g, h, from, from.Keys - start.Keys - {dst})
    && Visits(g.h, dst, s, start, pick) == VisitKeys(g.h, dst, s, g.h[s.fresh_].Keys - keys, from, pick)
  }

  lemma ProgressStart(g: Origin, h: Heap, start: map<Table, Source>, dst: Table, s: Source, pick: Pick)
    requires Started(g, h, start) && Placed(g, dst, s.fresh_) && dst !in start
    ensures InProgress(g, h, start, start[dst := s], dst, s, {}, pick)
  {
    hide Separated;
    assert Overlay(g.h[dst], Only(g.h[s.fresh_], {})) == g.h[dst];
    assert g.h[s.fresh_].Keys - {} == g.h[s.fresh_].Keys;
  }

  lemma ProgressParts(g: Origin, h: Heap, start: map<Table, Source>, from: map<Table, Source>, dst: Table, s: Source,
                      keys: set<Value>, pick: Pick)
    requires InProgress(g, h, start, from, dst, s, keys, pick)
    ensures Started(g, h, from) && Placed(g, dst, s.fresh_) && dst in h
  {
  }

  lemma ProgressEnd(g: Origin, h: Heap, start: map<Table, Source>, from: map<Table, Source>, dst: Table, s: Source,
                    keys: set<Value>, pick: Pick)
    requires InProgress(g, h, start, from, dst, s, keys, pick) && h[s.fresh_].Keys <= keys
    ensures Started(g, h, from) && Finished(g, h, from, from.Keys - start.Keys)
    ensures from == Visits(g.h, dst, s, start, pick)
  {
    hide Overlay, Separated, Visits, VisitKeys;
    assert Only(g.h[s.fresh_], keys) == g.h[s.fresh_];
    assert g.h[s.fresh_].Keys - keys == {};
    NothingToVisit(g.h, dst, s, from, pick);
  }

  lemma NothingToVisit(h: Heap, d: Table, s: Source, from: map<Table, Source>, pick: Pick)
    requires d in h && s.fresh_ in h
    ensures VisitKeys(h, d, s, {}, from, pick) == from
  {
  }

  lemma OverlayStep(e: Entries, f: Entries, keys: set<Value>, k: Value)
    requires Clean(f) && k in f && k !in keys
    ensures var o := Overlay(e, Only(f, keys));
            && Get(o, k) == Get(e, k)
            && Overlay(e, Only(f, keys + {k})) == if Yields(Get(e, k), f[k]) then Stored(o, k, f[k]) else o
  {
    var o, o' := Overlay(e, Only(f, keys)), Overlay(e, Only(f, keys + {k}));
    assert forall j :: j in o' <==> j in o || j == k;
  }

  // The key about to be visited still reads as it did when the merge started.
  lemma ProgressReads(g: Origin, h: Heap, start: map<Table, Source>, from: map<Table, Source>, dst: Table, s: Source,
                      keys: set<Value>, k: Value, pick: Pick)
    requires InProgress(g, h, start, from, dst, s, keys, pick)
    requires k in h[s.fresh_] && k !in keys
    ensures h[s.fresh_] == g.h[s.fresh_] && Get(h[dst], k) == Get(g.h[dst], k)
    ensures Both(g.h, dst, s.fresh_, k) ==> Placed(g, g.h[dst][k].table, g.h[s.fresh_][k].table)
  {
    OverlayStep(g.h[dst], g.h[s.fresh_], keys, k);
  }

  lemma VisitNext(h: Heap, d: Table, s: Source, keys: set<Value>, k: Value, from: map<Table, Source>, pick: Pick)
    requires s.fresh_ in h && k in h[s.fresh_].Keys - keys && k == pick(s.fresh_, h[s.fresh_].Keys - keys)
    ensures VisitKeys(h, d, s, h[s.fresh_].Keys - keys, from, pick) ==
            VisitKeys(h, d, s, h[s.fresh_].Keys - (keys + {k}),
                      if Both(h, d, s.fresh_, k) then Visits(h, h[d][k].table, Source(h[s.fresh_][k].table, s.path + [k]), from, pick)
                      else from, pick)
  {
    assert h[s.fresh_].Keys - keys - {k} == h[s.fresh_].Keys - (keys + {k});
  }

  lemma ProgressStored(g: Origin, h: Heap, start: map<Table, Source>, from: map<Table, Source>, dst: Table, s: Source,
                       keys: set<Value>, k: Value, pick: Pick)
    requires InProgress(g, h, start, from, dst, s, keys, pick)
    requires k in h[s.fresh_] && k !in keys && k == pick(s.fresh_, h[s.fresh_].Keys - keys)
    requires !(h[s.fresh_][k].TableRef? && Get(h[dst], k).TableRef?)
    ensures var v := h[s.fresh_][k];
            var h' := if Yields(Get(h[dst], k), v) then h[dst := Stored(h[dst], k, v)] else h;
            InProgress(g, h', start, from, dst, s, keys + {k}, pick)
  {
    hide Overlay, Only, ClosedHeap, EntriesWithin, Visits, VisitKeys;
    OverlayStep(g.h[dst], g.h[s.fresh_], keys, k) by {
      FreshIsClean(g, h, from, s.fresh_);
    }
    VisitNext(g.h, dst, s, keys, k, from, pick);
  }

  lemma FreshIsClean(g: Origin, h: Heap, from: map<Table, Source>, f: Table)
    requires Started(g, h, from) && f in g.h
    ensures Clean(g.h[f])
  {
  }

  lemma ProgressCalled(g: Origin, h: Heap, h': Heap, start: map<Table, Source>, from: map<Table, Source>, from': map<Table, Source>,
                       dst: Table, s: Source, keys: set<Value>, k: Value, pick: Pick)
    requires InProgress(g, h, start, from, dst, s, keys, pick)
    requires k in h[s.fresh_] && k !in keys && k == pick(s.fresh_, h[s.fresh_].Keys - keys)
    requires Both(g.h, dst, s.fresh_, k)
    requires from' == Visits(g.h, g.h[dst][k].table, Source(g.h[s.fresh_][k].table, s.path + [k]), from, pick)
    requires Merged(h, h', from.Keys, from'.Keys) && Started(g, h', from') && Finished(g, h', from', from'.Keys - from.Keys)
    ensures InProgress(g, h', start, from', dst, s, keys + {k}, pick)
  {
    hide Overlay, Only, Finished, Started, Merged, Visits, VisitKeys, Get, Yields;
    OverlayStep(g.h[dst], g.h[s.fresh_], keys, k) by {
      FreshIsClean(g, h, from, s.fresh_);
    }
    TablesDoNotYield(g, dst, s.fresh_, k);
    ProgressParts(g, h, start, from, dst, s, keys, pick);
    ProgressReads(g, h, start, from, dst, s, keys, k, pick);
    VisitNext(g.h, dst, s, keys, k, from, pick);
    MergedProtects(h, h', from.Keys, from'.Keys);
    assert from.Keys - (start.Keys + {dst}) == from.Keys - start.Keys - {dst};
    FinishedMore(g, h, h', from, from', start.Keys + {dst});
    assert from'.Keys - (start.Keys + {dst}) == from'.Keys - start.Keys - {dst};
  }

  lemma MergedProtects(h: Heap, h': Heap, P: set<Table>, seen: set<Table>)
    requires Merged(h, h', P, seen)
    ensures ClosedHeap(h') && h.Keys == h'.Keys && forall t | t in P && t in h :: h'[t] == h[t]
  {
  }

  lemma FinishedMore(g: Origin, h: Heap, h': Heap, from: map<Table, Source>, from': map<Table, Source>, before: set<Table>)
    requires Finished(g, h, from, from.Keys - before) && Finished(g, h', from', from'.Keys - from.Keys)
    requires h.Keys == h'.Keys && forall t | t in from :: t in from' && from'[t] == from[t] && (t in h ==> h'[t] == h[t])
    ensures Finished(g, h', from', from'.Keys - before)
  {
    hide Overlay;
  }

  lemma TablesDoNotYield(g: Origin, d: Table, f: Table, k: Value)
    requires Both(g.h, d, f, k)
    ensures !Yields(Get(g.h[d], k), g.h[f][k])
  {
  }

  // ---------------------------------------------------------------------------------
  // The merge itself

  lemma NothingLeft(keys: set<Value>, visited: set<Value>)
    requires keys - visited == {}
    ensures keys <= visited
  {
    forall k | k in keys
      ensures k in visited
    {
      assert k in visited || k in keys - visited;
    }
  }

  // Always respects Merged; when `exact`, visits and leaves what the graph in g says.
  method MergeTables(dst: Table?, fresh_: Table?, seen: set<Table>, pick: Pick, ghost U: set<Table>, ghost K: set<Value>,
                     ghost exact: bool, ghost g: Origin, ghost path: seq<Value>, ghost from: map<Table, Source>)
    returns (seen': set<Table>, ghost from': map<Table, Source>)
    requires ClosedHeap(View(U)) && seen <= U && KeysWithin(View(U), K) && (exact ==> Fair(pick, U, K))
    requires (dst != null ==> dst in U) && (fresh_ != null ==> fresh_ in U)
    requires exact ==> dst != null && fresh_ != null && Placed(g, dst, fresh_) && seen == from.Keys && Started(g, View(U), from)
    modifies U`entries
    ensures Merged(old(View(U)), View(U), seen, seen') && seen <= seen' && KeysWithin(View(U), K)
    ensures dst != null && fresh_ != null ==> dst in seen'
    ensures dst == fresh_ ==> View(U) == old(View(U))
    ensures exact ==> seen' == from'.Keys && from' == Visits(g.h, dst, Source(fresh_, path), from, pick)
    ensures exact ==> Started(g, View(U), from') && Finished(g, View(U), from', seen' - seen)
    decreases U - seen, K, 1
  {
    hide Visits, VisitKeys, Finished, Fair, InProgress, ClosedHeap, Merged, Started, Placed;
    MergedNothing(View(U), seen, seen);
    MergedNothing(View(U), seen, if dst != null then seen + {dst} else seen);
    seen', from' := seen, from;
    if dst == null || fresh_ == null || dst in seen {
      if exact {
        SeenStays(g.h, dst, Source(fresh_, path), from, pick);
        FinishedNothing(g, View(U), from);
      }
      return;
    }
    ghost var s := Source(fresh_, path);
    seen' := seen + {dst};
    if exact {
      from' := from[dst := s];
      ProgressStart(g, View(U), from, dst, s, pick);
    }
    var visited: set<Value> := {};
    while fresh_.entries.Keys - visited != {}
      invariant seen + {dst} <= seen' <= U
      invariant Merged(old(View(U)), View(U), seen, seen') && ClosedHeap(View(U))
      invariant KeysWithin(View(U), K)
      invariant dst == fresh_ ==> View(U) == old(View(U))
      invariant exact ==> seen' == from'.Keys && InProgress(g, View(U), from, from', dst, s, visited, pick)
      decreases K - visited
    {
      assert View(U)[fresh_] == fresh_.entries;
      assert exact ==> pick(fresh_, fresh_.entries.Keys - visited) in fresh_.entries.Keys - visited by {
        FairPick(exact, pick, U, K, fresh_, fresh_.entries.Keys - visited);
      }
      var k := pick(fresh_, fresh_.entries.Keys - visited);
      if k !in fresh_.entries.Keys - visited {
        k :| k in fresh_.entries.Keys - visited;
      }
      assert k in K;
      ghost var h1, s1 := View(U), seen';
      seen', from' := MergeEntry(dst, fresh_, k, seen', pick, U, K, exact, g, path, from', visited, from);
      MergedTrans(old(View(U)), h1, View(U), seen, s1 - {dst}, s1, seen');
      MergedProtects(h1, View(U), s1 - {dst}, seen');
      visited := visited + {k};
    }
    NothingLeft(fresh_.entries.Keys, visited);
    assert View(U)[fresh_] == fresh_.entries;
    if exact {
      ProgressEnd(g, View(U), from, from', dst, s, visited, pick);
    }
  }

  lemma FairPick(exact: bool, pick: Pick, U: set<Table>, K: set<Value>, f: Table, keys: set<Value>)
    requires (exact ==> Fair(pick, U, K)) && f in U && keys <= K && keys != {}
    ensures exact ==> pick(f, keys) in keys
  {
  }

  lemma SeenStays(h: Heap, d: Table, s: Source, from: map<Table, Source>, pick: Pick)
    requires d in from
    ensures Visits(h, d, s, from, pick) == from
  {
  }

  lemma FinishedNothing(g: Origin, h: Heap, from: map<Table, Source>)
    ensures Finished(g, h, from, from.Keys - from.Keys)
  {
  }

  method MergeEntry(dst: Table, fresh_: Table, k: Value, seen: set<Table>, pick: Pick, ghost U: set<Table>, ghost K: set<Value>,
                    ghost exact: bool, ghost g: Origin, ghost path: seq<Value>, ghost from: map<Table, Source>,
                    ghost visited: set<Value>, ghost start: map<Table, Source>)
    returns (seen': set<Table>, ghost from': map<Table, Source>)
    requires ClosedHeap(View(U)) && seen <= U && KeysWithin(View(U), K) && (exact ==> Fair(pick, U, K))
    requires dst in seen && fresh_ in U && k in fresh_.entries && k !in visited
    requires exact ==> seen == from.Keys && InProgress(g, View(U), start, from, dst, Source(fresh_, path), visited, pick)
    requires exact ==> k == pick(fresh_, fresh_.entries.Keys - visited)
    modifies U`entries
    ensures Merged(old(View(U)), View(U), seen - {dst}, seen') && seen <= seen' && KeysWithin(View(U), K)
    ensures dst == fresh_ ==> View(U) == old(View(U))
    ensures exact ==> seen' == from'.Keys && InProgress(g, View(U), start, from', dst, Source(fresh_, path), visited + {k}, pick)
    decreases U - seen, K, 2
  {
    hide ClosedHeap, KeysWithin, Merged, InProgress, Finished, Separated, Started, Fair, Visits, VisitKeys, Overlay;
    seen', from' := seen, from;
    var v := fresh_.entries[k];
    var current := dst.RawGet(k);
    ghost var h, s := View(U), Source(fresh_, path);
    assert h[fresh_] == fresh_.entries && Get(h[dst], k) == current;
    EntryFacts(h, fresh_, k);
    if current.TableRef? {
      EntryFacts(h, dst, k);
    }
    MergedNothing(h, seen - {dst}, seen);
    if exact {
      ProgressReads(g, h, start, from, dst, s, visited, k, pick);
      ProgressParts(g, h, start, from, dst, s, visited, pick);
      if !(current.TableRef? && v.TableRef?) {
        ProgressStored(g, h, start, from, dst, s, visited, k, pick);
      }
    }
    if current.Nil? {
      MergedStore(h, dst, seen, K, fresh_, k);
      dst.RawSet(k, v);
      assert View(U) == h[dst := Stored(h[dst], k, v)];
    } else if current.Function? && v.Function? {
      assert dst == fresh_ ==> Stored(h[dst], k, v) == h[dst];
      MergedStore(h, dst, seen, K, fresh_, k);
      dst.RawSet(k, v);
      assert View(U) == h[dst := Stored(h[dst], k, v)];
    } else if current.TableRef? && v.TableRef? {
      seen', from' := MergeTables(current.table, v.table, seen, pick, U, K, exact, g, path + [k], from);
      MergedLess(h, View(U), seen, dst, seen');
      if exact {
        ProgressCalled(g, h, View(U), start, from, from', dst, s, visited, k, pick);
      }
    }
  }
}
