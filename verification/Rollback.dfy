/** What a failed reload leaves behind: the old tables, refilled from a copy of all they led to. */
module Rollback {
  import opened Tables
  import opened Snapshot
  import opened Merge
  import opened Reachability

  ghost function GlobalTables(g: Globals): set<Table> {
    set n | n in g && g[n].TableRef? :: g[n].table
  }

  // c is an isomorphic copy of the part of h that the memo covers.
  ghost predicate IsSnapshot(h: Heap, c: Heap, memo: map<Table, Table>) {
    && memo.Keys <= h.Keys && memo.Values == c.Keys && memo.Values !! h.Keys && Injective(memo)
    && ClosedHeap(c)
    && forall t | t in memo :: Mirrors(h[t], c[memo[t]], memo)
  }

  lemma SnapshotIsSnapshot(memo: map<Table, Table>, G: set<Table>)
    requires Closed(G) && IsMemo(memo, G) && CopiedSince(map[], memo)
    ensures IsSnapshot(View(G), View(memo.Values), memo)
    ensures forall t | t in memo :: memo[t].metatable == t.metatable
  {
    SnapshotIsomorphic(memo, G);
    forall t | t in memo
      ensures Clean(memo[t].entries) && Copied(t, memo[t], memo)
    {
      assert Copied(t, memo[t], memo) && Clean(t.entries);
    }
  }

  lemma SnapshotFacts(h: Heap, c: Heap, memo: map<Table, Table>)
    requires IsSnapshot(h, c, memo)
    ensures memo.Keys <= h.Keys && memo.Values == c.Keys && memo.Keys !! memo.Values
    ensures ClosedHeap(c)
  {
  }

  lemma GlobalsWithinMore(g: Globals, K: set<Table>, tables: set<Table>)
    requires GlobalsWithin(g, K) && K <= tables
    ensures GlobalsWithin(g, tables)
  {
  }

  // Refilling the global tables from the snapshot.
  ghost predicate RefilledHeap(h1: Heap, c: Heap, h': Heap, globals: set<Table>, memo: map<Table, Table>) {
    && globals <= memo.Keys && globals <= h1.Keys && memo.Values <= c.Keys
    && h'.Keys == h1.Keys + c.Keys
    && (forall t | t in h1 && t !in globals && t !in c :: h'[t] == h1[t])
    && (forall t | t in c && t !in globals :: h'[t] == c[t])
    && (forall t | t in globals :: h'[t] == c[memo[t]])
  }

  lemma RefilledView(U: set<Table>, h1: Heap, c: Heap, globals: set<Table>, memo: map<Table, Table>)
    requires globals <= memo.Keys && globals <= U && U !! memo.Values && h1.Keys == U && c.Keys == memo.Values
    requires forall t | t in globals :: t.entries == memo[t].entries
    requires forall t | t in U && t !in globals :: t.entries == h1[t]
    requires forall t | t in c :: t.entries == c[t]
    ensures RefilledHeap(h1, c, View(U + memo.Values), globals, memo)
  {
  }

  lemma ViewKeys(U: set<Table>)
    ensures View(U).Keys == U
  {
  }

  lemma CleanAt(U: set<Table>)
    requires ClosedHeap(View(U))
    ensures forall t | t in U :: Clean(t.entries)
  {
    forall t | t in U
      ensures Clean(t.entries)
    {
      assert View(U)[t] == t.entries;
    }
  }

  lemma RefilledClosed(h1: Heap, c: Heap, h': Heap, globals: set<Table>, memo: map<Table, Table>)
    requires RefilledHeap(h1, c, h', globals, memo) && ClosedHeap(h1) && ClosedHeap(c)
    ensures ClosedHeap(h')
  {
  }

  lemma RefilledRollsBack(h0: Heap, h1: Heap, c: Heap, h': Heap, before: Globals, memo: map<Table, Table>)
    requires IsSnapshot(h0, c, memo) && RefilledHeap(h1, c, h', GlobalTables(before), memo) && h0.Keys <= h1.Keys
    ensures RolledBack(h0, h', before, memo)
  {
    hide MirrorsOn, Injective;
  }

  // The copies mirror the old heap, and each global table holds its copy's entries.
  ghost predicate RolledBack(h: Heap, h': Heap, globals: Globals, memo: map<Table, Table>) {
    && memo.Keys <= h.Keys && memo.Values !! h.Keys && memo.Values <= h'.Keys && Injective(memo)
    && (forall t | t in memo :: Mirrors(h[t], h'[memo[t]], memo))
    && (forall n | n in globals && globals[n].TableRef? ::
          var t := globals[n].table; t in memo && t in h' && h'[t] == h'[memo[t]])
  }

  ghost predicate NoTableKeys(e: Entries) {
    forall k | k in e :: !k.TableRef?
  }

  // After a roll-back every global unfolds, to every depth, to what it was.
  lemma RolledBackUnfold(h: Heap, h': Heap, globals: Globals, memo: map<Table, Table>, n: string, depth: nat)
    requires RolledBack(h, h', globals, memo) && n in globals
    requires forall t | t in memo :: NoTableKeys(h[t])
    ensures Unfold(h', globals[n], depth) == Unfold(h, globals[n], depth)
  {
    var R := (set t | t in memo :: (t, memo[t])) + (set t | t in memo && t in h' && h'[t] == h'[memo[t]] :: (t, t));
    forall p | p in R
      ensures p.0 in h && p.1 in h' && h[p.0].Keys == h'[p.1].Keys
      ensures forall k | k in h[p.0] :: SameValue(R, h[p.0][k], h'[p.1][k])
    {
      var t := p.0;
      assert Mirrors(h[t], h'[memo[t]], memo);
      forall k | k in h[t]
        ensures k in h'[p.1] && SameValue(R, h[t][k], h'[p.1][k])
      {
        assert Image(k, memo) == k;
      }
      forall k | k in h'[p.1]
        ensures k in h[t]
      {
        var j :| j in h[t].Keys && Image(j, memo) == k;
      }
    }
    BisimilarUnfold(R, h, h', globals[n], globals[n], depth);
  }

  // As long as no table among ts is keyed by a table, every global unfolds alike in both heaps.
  ghost predicate UnfoldAlike(h: Heap, h': Heap, globals: Globals, ts: set<Table>) {
    (forall t | t in ts && t in h :: NoTableKeys(h[t])) ==>
      forall n, depth: nat | n in globals :: Unfold(h', globals[n], depth) == Unfold(h, globals[n], depth)
  }

  lemma RolledBackUnfoldAll(h: Heap, h': Heap, globals: Globals, memo: map<Table, Table>)
    requires RolledBack(h, h', globals, memo)
    ensures UnfoldAlike(h, h', globals, memo.Keys)
  {
    if forall t | t in memo :: NoTableKeys(h[t]) {
      forall n, depth: nat | n in globals
        ensures Unfold(h', globals[n], depth) == Unfold(h, globals[n], depth)
      {
        RolledBackUnfold(h, h', globals, memo, n, depth);
      }
    }
  }

  // ---------------------------------------------------------------------------------
  // Sharing

  // The tables within reach of the roots are linked alike in both heaps, the roots being the
  // same tables in both.
  ghost predicate Isomorphism(h: Heap, h': Heap, roots: set<Table>, m: map<Table, Table>) {
    && m.Keys == Reach(h, roots) && m.Values == Reach(h', roots) && Injective(m)
    && (forall t | t in roots :: t in m && m[t] == t)
    && forall t | t in m && t in h && m[t] in h' :: Mirrors(h[t], h'[m[t]], m)
  }

  predicate Refers(v: Value, T: set<Table>) {
    v.TableRef? && v.table in T
  }

  predicate NoEdgeInto(e: Entries, T: set<Table>) {
    forall k | k in e :: !Refers(k, T) && !Refers(e[k], T)
  }

  // Nothing leads to a global table.
  ghost predicate NoneReferred(h: Heap, tables: set<Table>, T: set<Table>) {
    forall t | t in tables && t in h :: NoEdgeInto(h[t], T)
  }

  function Restored(memo: map<Table, Table>, roots: set<Table>): map<Table, Table> {
    map t | t in memo :: if t in roots then t else memo[t]
  }

  lemma MirrorsThrough(e: Entries, e': Entries, memo: map<Table, Table>, roots: set<Table>)
    requires Mirrors(e, e', memo) && NoEdgeInto(e, roots)
    ensures Mirrors(e, e', Restored(memo, roots))
  {
    var m := Restored(memo, roots);
    forall k | k in e
      ensures Within(k, m.Keys) && Within(e[k], m.Keys) && Image(k, m) == Image(k, memo) && Image(e[k], m) == Image(e[k], memo)
    {
      assert !Refers(k, roots) && !Refers(e[k], roots);
    }
    forall k' | k' in e'
      ensures exists k :: k in e.Keys && Image(k, m) == k'
    {
      var k :| k in e.Keys && Image(k, memo) == k';
      assert Image(k, m) == k';
    }
  }

  lemma MirrorsWithin(e: Entries, e': Entries, m: map<Table, Table>)
    requires Mirrors(e, e', m)
    ensures EntriesWithin(e', m.Values) && EntriesWithin(e, m.Keys)
  {
    forall k' | k' in e'
      ensures Within(k', m.Values) && Within(e'[k'], m.Values)
    {
      var k :| k in e.Keys && Image(k, m) == k';
    }
  }

  // Where the copy leads only into S, the original leads only to what m puts into S.
  lemma MirrorsBack(e: Entries, e': Entries, m: map<Table, Table>, S: set<Table>)
    requires Mirrors(e, e', m) && EntriesWithin(e', S)
    ensures EntriesWithin(e, set t | t in m && m[t] in S)
  {
    forall k | k in e
      ensures Within(k, set t | t in m && m[t] in S) && Within(e[k], set t | t in m && m[t] in S)
    {
      assert Image(k, m) in e' && e'[Image(k, m)] == Image(e[k], m);
    }
  }

  // A map that mirrors all tables within reach of the roots, and keeps the roots, meets exactly
  // the tables within reach of them on the other side.
  lemma MirroredReach(h: Heap, h': Heap, roots: set<Table>, m: map<Table, Table>)
    requires WholeHeap(h') && m.Keys == Reach(h, roots) && m.Values <= h'.Keys && roots <= h.Keys
    requires forall t | t in roots :: t in m && m[t] == t
    requires forall t | t in m :: Mirrors(h[t], h'[m[t]], m)
    ensures m.Values == Reach(h', roots)
  {
    hide Mirrors, Reach;
    var R := Reach(h', roots);
    ReachWithin(h, roots);
    assert m.Values >= roots by {
      assert forall t | t in roots :: m[t] == t;
    }
    ReachIsClosed(h', roots);
    assert ClosedIn(h', m.Values) by {
      forall t | t in m
        ensures EntriesWithin(h'[m[t]], m.Values)
      {
        MirrorsWithin(h[t], h'[m[t]], m);
      }
    }
    ReachIsLeast(h', roots, m.Values);
    var S := set t | t in m && m[t] in R;
    assert ClosedIn(h, S) by {
      forall t | t in S
        ensures EntriesWithin(h[t], S)
      {
        MirrorsBack(h[t], h'[m[t]], m, R);
      }
    }
    ReachIsLeast(h, roots, S);
  }

  lemma ReachWithin(h: Heap, roots: set<Table>)
    ensures Reach(h, roots) <= h.Keys
  {
  }

  // If nothing led to a global table, the roll-back has restored all links.
  lemma RestoredIsIsomorphism(h: Heap, h': Heap, before: Globals, memo: map<Table, Table>)
    requires RolledBack(h, h', before, memo) && WholeHeap(h')
    requires memo.Keys == Reach(h, GlobalTables(before)) && NoneReferred(h, memo.Keys, GlobalTables(before))
    ensures Isomorphism(h, h', GlobalTables(before), Restored(memo, GlobalTables(before)))
  {
    hide Mirrors, NoEdgeInto, Reach, WholeHeap, EntriesWithin;
    var roots := GlobalTables(before);
    var m := Restored(memo, roots);
    RolledBackParts(h, h', before, memo);
    forall t | t in m
      ensures m[t] in h' && Mirrors(h[t], h'[m[t]], m)
    {
      MirrorsThrough(h[t], h'[memo[t]], memo, roots);
    }
    MirroredReach(h, h', roots, m);
  }

  // After a roll-back, global tables and copies lead only to copies.
  lemma LeadsToCopies(h: Heap, h': Heap, before: Globals, memo: map<Table, Table>)
    requires RolledBack(h, h', before, memo) && WholeHeap(h')
    ensures Reach(h', GlobalTables(before)) <= GlobalTables(before) + memo.Values
    ensures forall t | t in Reach(h', GlobalTables(before)) :: EntriesWithin(h'[t], memo.Values)
  {
    hide Mirrors;
    var S := GlobalTables(before) + memo.Values;
    forall t | t in S
      ensures t in h' && EntriesWithin(h'[t], memo.Values)
    {
      var u :| u in memo && h'[t] == h'[memo[u]];
      MirrorsWithin(h[u], h'[memo[u]], memo);
    }
    ReachIsLeast(h', GlobalTables(before), S);
  }

  lemma EdgeToRootIsLost(h: Heap, h': Heap, before: Globals, memo: map<Table, Table>, m: map<Table, Table>, t: Table)
    requires RolledBack(h, h', before, memo) && WholeHeap(h') && memo.Keys == Reach(h, GlobalTables(before))
    requires Isomorphism(h, h', GlobalTables(before), m) && t in memo
    ensures NoEdgeInto(h[t], GlobalTables(before))
  {
    hide RolledBack, Reach, WholeHeap, Mirrors, NoEdgeInto, EntriesWithin, GlobalTables;
    LeadsToCopies(h, h', before, memo);
    RolledBackParts(h, h', before, memo);
    assert m[t] in m.Values;
    RootsNotMet(h[t], h'[m[t]], m, GlobalTables(before), memo.Values);
  }

  lemma RootsNotMet(e: Entries, e': Entries, m: map<Table, Table>, roots: set<Table>, copies: set<Table>)
    requires Mirrors(e, e', m) && EntriesWithin(e', copies) && roots !! copies
    requires forall t | t in roots :: t in m && m[t] == t
    ensures NoEdgeInto(e, roots)
  {
    forall k | k in e
      ensures !Refers(k, roots) && !Refers(e[k], roots)
    {
      assert Image(k, m) in e' && e'[Image(k, m)] == Image(e[k], m);
      assert Within(Image(k, m), copies) && Within(Image(e[k], m), copies);
    }
  }

  lemma RolledBackParts(h: Heap, h': Heap, before: Globals, memo: map<Table, Table>)
    requires RolledBack(h, h', before, memo)
    ensures memo.Keys <= h.Keys && GlobalTables(before) <= h.Keys && memo.Values !! h.Keys
    ensures WholeHeap(h') ==> Reach(h', GlobalTables(before)) <= h'.Keys
  {
  }

  // A roll-back restores all links exactly if nothing led to a global table: such a link now
  // leads to a copy of that table.
  lemma SharingRestoredExactly(h: Heap, h': Heap, before: Globals, memo: map<Table, Table>)
    requires RolledBack(h, h', before, memo) && WholeHeap(h')
    requires memo.Keys == Reach(h, GlobalTables(before))
    ensures (exists m :: Isomorphism(h, h', GlobalTables(before), m)) <==> NoneReferred(h, memo.Keys, GlobalTables(before))
  {
    hide RolledBack, Isomorphism, Reach, WholeHeap, NoEdgeInto;
    if NoneReferred(h, memo.Keys, GlobalTables(before)) {
      RestoredIsIsomorphism(h, h', before, memo);
    }
    if m :| Isomorphism(h, h', GlobalTables(before), m) {
      forall t | t in memo && t in h
        ensures NoEdgeInto(h[t], GlobalTables(before))
      {
        EdgeToRootIsLost(h, h', before, memo, m, t);
      }
    }
  }

  // a = T; b = {x: T}: afterwards b.x is no longer a.
  lemma SharedGlobalIsSevered(T: Table, B: Table, x: Value, h': Heap, memo: map<Table, Table>)
    requires T != B && !x.TableRef?
    requires var before := map["a" := TableRef(T), "b" := TableRef(B)];
             var h := map[T := map[], B := map[x := TableRef(T)]];
             RolledBack(h, h', before, memo) && WholeHeap(h') && memo.Keys == Reach(h, GlobalTables(before))
    ensures var roots := GlobalTables(map["a" := TableRef(T), "b" := TableRef(B)]);
            !exists m :: Isomorphism(map[T := map[], B := map[x := TableRef(T)]], h', roots, m)
    ensures B in h' && x in h'[B] && h'[B][x].TableRef? && h'[B][x] != TableRef(T)
  {
    hide Reach, WholeHeap;
    var before: Globals := map["a" := TableRef(T), "b" := TableRef(B)];
    var h: Heap := map[T := map[], B := map[x := TableRef(T)]];
    assert before["a"] == TableRef(T) && before["b"] == TableRef(B);
    assert T in GlobalTables(before) && B in GlobalTables(before) && B in memo;
    assert Refers(h[B][x], GlobalTables(before));
    assert !NoneReferred(h, memo.Keys, GlobalTables(before));
    SharingRestoredExactly(h, h', before, memo);
    assert Mirrors(h[B], h'[memo[B]], memo) && Image(x, memo) == x;
  }

  // ---------------------------------------------------------------------------------
  // Which old tables are restored

  predicate LeadsNowhere(e: Entries) {
    forall k | k in e :: !k.TableRef? && !e[k].TableRef?
  }

  // An old table keeps what the run left in it unless it is a global's, nested tables and those
  // that only a closure or a metatable holds included. So it has its own entries again exactly
  // if it is a global's and led to no tables, or if the run left it as it was.
  lemma OwnEntriesExactly(h0: Heap, h1: Heap, c: Heap, h': Heap, before: Globals, memo: map<Table, Table>, t: Table)
    requires IsSnapshot(h0, c, memo) && RefilledHeap(h1, c, h', GlobalTables(before), memo) && h0.Keys <= h1.Keys && t in h0
    ensures t in h' && (t !in GlobalTables(before) ==> h'[t] == h1[t])
    ensures h'[t] == h0[t] <==> if t in GlobalTables(before) then LeadsNowhere(h0[t]) else h1[t] == h0[t]
  {
    hide ClosedHeap, Injective;
    if t in GlobalTables(before) {
      assert Mirrors(h0[t], c[memo[t]], memo);
      CopiedEntries(h0[t], c[memo[t]], memo, h0.Keys);
    }
  }

  lemma CopiedEntries(e: Entries, e': Entries, memo: map<Table, Table>, old_: set<Table>)
    requires Mirrors(e, e', memo) && memo.Keys <= old_ && memo.Values !! old_
    ensures e' == e <==> LeadsNowhere(e)
  {
    hide Mirrors;
    if LeadsNowhere(e) {
      FlatCopy(e, e', memo);
    } else {
      MirrorsWithin(e, e', memo);
      var k :| k in e && (k.TableRef? || e[k].TableRef?);
      assert Within(k, memo.Keys) && Within(e[k], memo.Keys);
      assert k in e' && e'[k] == e[k] ==> Within(k, memo.Values) && Within(e[k], memo.Values);
    }
  }

  lemma FlatCopy(e: Entries, e': Entries, memo: map<Table, Table>)
    requires Mirrors(e, e', memo) && LeadsNowhere(e)
    ensures e' == e
  {
    hide LeadsNowhere, Mirrors, Image;
    forall k | k in e
      ensures k in e' && e'[k] == e[k]
    {
      MirroredEntry(e, e', memo, k);
      FlatEntry(e, memo, k);
    }
    forall k' | k' in e'
      ensures k' in e
    {
      var k := MirrorSource(e, e', memo, k');
      MirroredEntry(e, e', memo, k);
      FlatEntry(e, memo, k);
    }
    assert e'.Keys == e.Keys;
  }

  lemma MirroredEntry(e: Entries, e': Entries, memo: map<Table, Table>, k: Value)
    requires Mirrors(e, e', memo) && k in e
    ensures Within(k, memo.Keys) && Within(e[k], memo.Keys)
    ensures Image(k, memo) in e' && e'[Image(k, memo)] == Image(e[k], memo)
  {
  }

  lemma MirrorSource(e: Entries, e': Entries, memo: map<Table, Table>, k': Value) returns (k: Value)
    requires Mirrors(e, e', memo) && k' in e'
    ensures k in e && Within(k, memo.Keys) && Image(k, memo) == k'
  {
    k :| k in e.Keys && Image(k, memo) == k';
  }

  lemma FlatEntry(e: Entries, memo: map<Table, Table>, k: Value)
    requires LeadsNowhere(e) && k in e && Within(k, memo.Keys) && Within(e[k], memo.Keys)
    ensures Image(k, memo) == k && Image(e[k], memo) == e[k]
  {
  }
}
