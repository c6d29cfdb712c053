/** What a merge visits, in every order of iteration, and when the order matters. */
module MergeOrder {
  import opened Wrappers
  import opened Tables
  import opened Merge

  // The table found by following a path of keys through tables.
  ghost function Follow(h: Heap, root: Table, path: seq<Value>): Option<Table> {
    if path == [] then Some(root)
    else
      var mid := Follow(h, root, path[..|path| - 1]);
      if mid.None? || mid.value !in h then None
      else
        var v := Get(h[mid.value], path[|path| - 1]);
        if v.TableRef? then Some(v.table) else None
  }

  // One path leads to the live table d and to the fresh table s.fresh_.
  ghost predicate Meet(g: Origin, d: Table, s: Source) {
    && Placed(g, d, s.fresh_)
    && Follow(g.h, g.dst, s.path) == Some(d) && Follow(g.h, g.fresh_, s.path) == Some(s.fresh_)
  }

  // The path passes no live table twice.
  ghost predicate Direct(g: Origin, path: seq<Value>) {
    forall i, j | 0 <= i < j <= |path| :: Follow(g.h, g.dst, path[..i]) != Follow(g.h, g.dst, path[..j])
  }

  // The path leaves no fresh table by two different keys, as it does not if it passes none twice.
  ghost predicate Steady(g: Origin, path: seq<Value>) {
    forall i, j | 0 <= i < j < |path| && Follow(g.h, g.fresh_, path[..i]) == Follow(g.h, g.fresh_, path[..j]) :: path[i] == path[j]
  }

  ghost predicate AnyOrder(g: Origin, pick: Pick) {
    Fair(pick, g.h.Keys, KeysOf(g.h))
  }

  lemma MeetStep(g: Origin, d: Table, s: Source, k: Value)
    requires Separated(g) && Meet(g, d, s) && Both(g.h, d, s.fresh_, k)
    ensures Meet(g, g.h[d][k].table, Source(g.h[s.fresh_][k].table, s.path + [k]))
  {
    hide ClosedHeap;
    assert (s.path + [k])[..|s.path|] == s.path;
    assert Within(g.h[d][k], g.live) && Within(g.h[s.fresh_][k], g.h.Keys - g.live);
  }

  // A path that two roots share can be stopped at any point.
  lemma {:induction false} MeetPrefix(g: Origin, d: Table, s: Source, i: nat)
    requires Separated(g) && Meet(g, d, s) && i <= |s.path|
    ensures var (d', f') := (Follow(g.h, g.dst, s.path[..i]), Follow(g.h, g.fresh_, s.path[..i]));
            && d'.Some? && f'.Some? && Meet(g, d'.value, Source(f'.value, s.path[..i]))
            && (i < |s.path| ==> Both(g.h, d'.value, f'.value, s.path[i]))
    decreases |s.path| - i
  {
    hide ClosedHeap;
    if i == |s.path| {
      assert s.path[..i] == s.path;
    } else {
      MeetPrefix(g, d, s, i + 1);
      assert s.path[..i + 1][..i] == s.path[..i];
      MeetAbove(g, s.path, i);
    }
  }

  lemma MeetAbove(g: Origin, path: seq<Value>, i: nat)
    requires Separated(g) && i < |path|
    requires Follow(g.h, g.dst, path[..i + 1]).Some? && Follow(g.h, g.fresh_, path[..i + 1]).Some?
    ensures var (d, f) := (Follow(g.h, g.dst, path[..i]), Follow(g.h, g.fresh_, path[..i]));
            d.Some? && f.Some? && Both(g.h, d.value, f.value, path[i]) && Placed(g, d.value, f.value)
  {
    assert path[..i + 1][..i] == path[..i];
    StaysPlaced(g, path[..i]);
  }

  // The live graph leads only to live tables, the fresh one only to fresh ones.
  lemma {:induction false} StaysPlaced(g: Origin, path: seq<Value>)
    requires Separated(g)
    ensures Follow(g.h, g.dst, path).Some? ==> Follow(g.h, g.dst, path).value in g.live
    ensures Follow(g.h, g.fresh_, path).Some? ==> Follow(g.h, g.fresh_, path).value in g.h.Keys - g.live
    decreases |path|
  {
    hide ClosedHeap;
    if path != [] {
      StaysPlaced(g, path[..|path| - 1]);
    }
  }

  // ---------------------------------------------------------------------------------
  // In every order

  // The live tables above the end of a path are visited, and no two of them are the same.
  ghost predicate Led(g: Origin, path: seq<Value>, from: map<Table, Source>) {
    && (forall i | 0 <= i < |path| :: Follow(g.h, g.dst, path[..i]).Some? && Follow(g.h, g.dst, path[..i]).value in from)
    && (forall i, j | 0 <= i < j < |path| :: Follow(g.h, g.dst, path[..i]) != Follow(g.h, g.dst, path[..j]))
  }

  lemma LedStep(g: Origin, d: Table, s: Source, k: Value, from: map<Table, Source>)
    requires Led(g, s.path, from) && Direct(g, s.path) && Meet(g, d, s) && d in from
    ensures Led(g, s.path + [k], from)
  {
    var path := s.path + [k];
    assert forall i | 0 <= i <= |s.path| :: path[..i] == s.path[..i];
    assert s.path[..|s.path|] == s.path;
  }

  lemma LedDirect(g: Origin, d: Table, s: Source, from: map<Table, Source>)
    requires Led(g, s.path, from) && Meet(g, d, s) && d !in from
    ensures Direct(g, s.path)
  {
    assert s.path[..|s.path|] == s.path;
  }

  lemma LedMore(g: Origin, path: seq<Value>, from: map<Table, Source>, from': map<Table, Source>)
    requires Led(g, path, from) && from.Keys <= from'.Keys
    ensures Led(g, path, from')
  {
  }

  // A table is merged from one it meets on a direct path.
  lemma {:induction false} VisitsDirect(g: Origin, d: Table, s: Source, from: map<Table, Source>, pick: Pick)
    requires Separated(g) && Meet(g, d, s) && Led(g, s.path, from)
    ensures var r := Visits(g.h, d, s, from, pick);
            d in r && forall t | t in r && t !in from :: Meet(g, t, r[t]) && Direct(g, r[t].path)
    decreases g.h.Keys - from.Keys, 0
  {
    hide Separated, Follow, Led, Direct;
    if d !in from {
      assert d in g.h.Keys - from.Keys && d !in g.h.Keys - from[d := s].Keys;
      LedDirect(g, d, s, from);
      LedMore(g, s.path, from, from[d := s]);
      VisitKeysDirect(g, d, s, g.h[s.fresh_].Keys, from[d := s], pick);
    }
  }

  lemma {:induction false} VisitKeysDirect(g: Origin, d: Table, s: Source, keys: set<Value>, from: map<Table, Source>, pick: Pick)
    requires Separated(g) && Meet(g, d, s) && Led(g, s.path, from) && Direct(g, s.path) && d in from
    ensures var r := VisitKeys(g.h, d, s, keys, from, pick);
            forall t | t in r && t !in from :: Meet(g, t, r[t]) && Direct(g, r[t].path)
    decreases g.h.Keys - from.Keys, 1, keys
  {
    hide Separated, Follow, Led, Direct, Visits;
    if keys != {} && pick(s.fresh_, keys) in keys {
      var k := pick(s.fresh_, keys);
      var visited := from;
      if Both(g.h, d, s.fresh_, k) {
        var s' := Source(g.h[s.fresh_][k].table, s.path + [k]);
        MeetStep(g, d, s, k);
        LedStep(g, d, s, k, from);
        VisitsDirect(g, g.h[d][k].table, s', from, pick);
        visited := Visits(g.h, g.h[d][k].table, s', from, pick);
      }
      LedMore(g, s.path, from, visited);
      VisitKeysDirect(g, d, s, keys - {k}, visited, pick);
    }
  }

  // Wherever a visited table and the one it is merged from both lead to a table, the live one
  // of these is visited too.
  ghost predicate Descends(g: Origin, r: map<Table, Source>, t: Table) {
    t in r && forall k | t in g.h && k in g.h[t] && Both(g.h, t, r[t].fresh_, k) :: g.h[t][k].table in r
  }

  lemma {:induction false} VisitsDescend(g: Origin, d: Table, s: Source, from: map<Table, Source>, pick: Pick)
    requires Separated(g) && Placed(g, d, s.fresh_) && AnyOrder(g, pick)
    ensures var r := Visits(g.h, d, s, from, pick);
            d in r && forall t | t in r && t !in from :: Descends(g, r, t)
    decreases g.h.Keys - from.Keys, 0
  {
    hide Separated, AnyOrder;
    if d !in from {
      assert d in g.h.Keys - from.Keys && d !in g.h.Keys - from[d := s].Keys;
      VisitKeysDescend(g, d, s, g.h[s.fresh_].Keys, from[d := s], pick);
    }
  }

  lemma {:induction false} VisitKeysDescend(g: Origin, d: Table, s: Source, keys: set<Value>, from: map<Table, Source>, pick: Pick)
    requires Separated(g) && Placed(g, d, s.fresh_) && AnyOrder(g, pick) && keys <= g.h[s.fresh_].Keys
    ensures var r := VisitKeys(g.h, d, s, keys, from, pick);
            && (forall k | k in keys && Both(g.h, d, s.fresh_, k) :: g.h[d][k].table in r)
            && forall t | t in r && t !in from :: Descends(g, r, t)
    decreases g.h.Keys - from.Keys, 1, keys
  {
    hide Separated, AnyOrder, Visits;
    if keys != {} {
      var k := pick(s.fresh_, keys);
      PickedKey(g, pick, s.fresh_, keys);
      var visited := from;
      if Both(g.h, d, s.fresh_, k) {
        var s' := Source(g.h[s.fresh_][k].table, s.path + [k]);
        PlacedStep(g, d, s.fresh_, k);
        VisitsDescend(g, g.h[d][k].table, s', from, pick);
        visited := Visits(g.h, g.h[d][k].table, s', from, pick);
      }
      VisitKeysDescend(g, d, s, keys - {k}, visited, pick);
    }
  }

  lemma PickedKey(g: Origin, pick: Pick, f: Table, keys: set<Value>)
    requires AnyOrder(g, pick) && f in g.h && keys <= g.h[f].Keys && keys != {}
    ensures pick(f, keys) in keys
  {
    assert keys <= KeysOf(g.h);
  }

  lemma PlacedStep(g: Origin, d: Table, f: Table, k: Value)
    requires Separated(g) && Placed(g, d, f) && Both(g.h, d, f, k)
    ensures Placed(g, g.h[d][k].table, g.h[f][k].table)
  {
    hide ClosedHeap;
    assert Within(g.h[d][k], g.live) && Within(g.h[f][k], g.h.Keys - g.live);
  }

  // What holds of the outcome in every order.
  lemma OutcomeFacts(g: Origin, pick: Pick)
    requires Separated(g) && AnyOrder(g, pick)
    ensures var r := Outcome(g, pick);
            g.dst in r && forall t | t in r :: Meet(g, t, r[t]) && Direct(g, r[t].path) && Descends(g, r, t)
  {
    hide Visits, Direct, ClosedHeap;
    assert Meet(g, g.dst, Source(g.fresh_, []));
    VisitsDirect(g, g.dst, Source(g.fresh_, []), map[], pick);
    VisitsDescend(g, g.dst, Source(g.fresh_, []), map[], pick);
  }

  // ---------------------------------------------------------------------------------
  // In some order

  ghost function AnyOf(keys: set<Value>): Value {
    if keys == {} then Nil else var k :| k in keys; k
  }

  // At the fresh tables of the path, the key that continues it comes first.
  ghost function Steer(g: Origin, path: seq<Value>, f: Table, keys: set<Value>): Value {
    if exists i :: 0 <= i < |path| && Follow(g.h, g.fresh_, path[..i]) == Some(f) && path[i] in keys then
      var i :| 0 <= i < |path| && Follow(g.h, g.fresh_, path[..i]) == Some(f) && path[i] in keys;
      path[i]
    else AnyOf(keys)
  }

  ghost function Down(g: Origin, path: seq<Value>): Pick {
    (f: Table, keys: set<Value>) => Steer(g, path, f, keys)
  }

  lemma DownIsFair(g: Origin, path: seq<Value>)
    ensures AnyOrder(g, Down(g, path))
  {
  }

  lemma SteersDown(g: Origin, path: seq<Value>, i: nat, f: Table, keys: set<Value>)
    requires Steady(g, path) && i < |path| && Follow(g.h, g.fresh_, path[..i]) == Some(f) && path[i] in keys
    ensures Steer(g, path, f, keys) == path[i]
  {
    var j :| 0 <= j < |path| && Follow(g.h, g.fresh_, path[..j]) == Some(f) && path[j] in keys && Steer(g, path, f, keys) == path[j];
  }

  // Going straight down a direct and steady path, the merge visits the table at its end from there.
  lemma {:induction false} StraightDown(g: Origin, d: Table, s: Source, i: nat, from: map<Table, Source>)
    requires Separated(g) && Meet(g, d, s) && Direct(g, s.path) && Steady(g, s.path) && i <= |s.path|
    requires forall j | i <= j <= |s.path| :: Follow(g.h, g.dst, s.path[..j]).Some? ==> Follow(g.h, g.dst, s.path[..j]).value !in from
    requires Follow(g.h, g.dst, s.path[..i]).Some? && Follow(g.h, g.fresh_, s.path[..i]).Some?
    ensures var (d', f') := (Follow(g.h, g.dst, s.path[..i]).value, Follow(g.h, g.fresh_, s.path[..i]).value);
            var r := Visits(g.h, d', Source(f', s.path[..i]), from, Down(g, s.path));
            d in r && r[d] == s
    decreases |s.path| - i
  {
    hide Separated, Follow, Steer, VisitKeys, Steady;
    var (d', f') := (Follow(g.h, g.dst, s.path[..i]).value, Follow(g.h, g.fresh_, s.path[..i]).value);
    var (s', pick) := (Source(f', s.path[..i]), Down(g, s.path));
    MeetPrefix(g, d, s, i);
    assert Follow(g.h, g.dst, s.path[..i]) == Some(d') && d' !in from;
    var from' := from[d' := s'];
    if i == |s.path| {
      assert s.path[..i] == s.path;
    } else {
      var k := s.path[i];
      MeetPrefix(g, d, s, i + 1);
      FollowStep(g, d', f', s.path, i);
      SteersDown(g, s.path, i, f', g.h[f'].Keys);
      assert s.path[..i + 1] == s.path[..i] + [k];
      StraightDown(g, d, s, i + 1, from');
      FirstKey(g, d', s', k, from', pick);
    }
  }

  lemma FollowStep(g: Origin, d: Table, f: Table, path: seq<Value>, i: nat)
    requires i < |path| && Follow(g.h, g.dst, path[..i]) == Some(d) && Follow(g.h, g.fresh_, path[..i]) == Some(f)
    requires Both(g.h, d, f, path[i])
    ensures Follow(g.h, g.dst, path[..i + 1]) == Some(g.h[d][path[i]].table)
    ensures Follow(g.h, g.fresh_, path[..i + 1]) == Some(g.h[f][path[i]].table)
  {
    assert path[..i + 1][..i] == path[..i];
  }

  lemma FirstKey(g: Origin, d: Table, s: Source, k: Value, from: map<Table, Source>, pick: Pick)
    requires Both(g.h, d, s.fresh_, k) && pick(s.fresh_, g.h[s.fresh_].Keys) == k
    ensures var r := VisitKeys(g.h, d, s, g.h[s.fresh_].Keys, from, pick);
            var v := Visits(g.h, g.h[d][k].table, Source(g.h[s.fresh_][k].table, s.path + [k]), from, pick);
            forall t | t in v :: t in r && r[t] == v[t]
  {
    hide Visits;
  }

  lemma ReachedInSomeOrder(g: Origin, d: Table, s: Source)
    requires Separated(g) && Meet(g, d, s) && Direct(g, s.path) && Steady(g, s.path)
    ensures AnyOrder(g, Down(g, s.path)) && d in Outcome(g, Down(g, s.path)) && Outcome(g, Down(g, s.path))[d] == s
  {
    hide Separated, Visits, Direct, Steady, Steer;
    DownIsFair(g, s.path);
    StraightDown(g, d, s, 0, map[]);
  }

  // Whatever the order, a table is merged from one at the end of a direct path; and if that path
  // is steady, there is such an order.
  lemma MergedFrom(g: Origin, d: Table, f: Table)
    requires Separated(g)
    ensures (exists pick :: AnyOrder(g, pick) && d in Outcome(g, pick) && Outcome(g, pick)[d].fresh_ == f) ==>
              exists path :: Meet(g, d, Source(f, path)) && Direct(g, path)
    ensures (exists path :: Meet(g, d, Source(f, path)) && Direct(g, path) && Steady(g, path)) ==>
              exists pick :: AnyOrder(g, pick) && d in Outcome(g, pick) && Outcome(g, pick)[d].fresh_ == f
  {
    hide Separated, AnyOrder, Visits, Meet, Direct, Steady;
    if exists pick :: AnyOrder(g, pick) && d in Outcome(g, pick) && Outcome(g, pick)[d].fresh_ == f {
      var pick :| AnyOrder(g, pick) && d in Outcome(g, pick) && Outcome(g, pick)[d].fresh_ == f;
      OutcomeFacts(g, pick);
      var path := Outcome(g, pick)[d].path;
      assert Meet(g, d, Source(f, path)) && Direct(g, path);
    }
    if exists path :: Meet(g, d, Source(f, path)) && Direct(g, path) && Steady(g, path) {
      var path :| Meet(g, d, Source(f, path)) && Direct(g, path) && Steady(g, path);
      ReachedInSomeOrder(g, d, Source(f, path));
      var pick := Down(g, path);
      assert AnyOrder(g, pick) && d in Outcome(g, pick) && Outcome(g, pick)[d].fresh_ == f;
    }
  }

  // Where direct paths are steady, the tables that a live table is merged from, over all
  // orders, are exactly those at the ends of direct paths.
  lemma MergedFromExactly(g: Origin, d: Table, f: Table)
    requires Separated(g)
    requires forall s | Meet(g, d, s) && Direct(g, s.path) :: Steady(g, s.path)
    ensures (exists pick :: AnyOrder(g, pick) && d in Outcome(g, pick) && Outcome(g, pick)[d].fresh_ == f)
            <==> (exists path :: Meet(g, d, Source(f, path)) && Direct(g, path))
  {
    hide Separated, AnyOrder, Outcome, Meet, Direct, Steady;
    MergedFrom(g, d, f);
    if exists path :: Meet(g, d, Source(f, path)) && Direct(g, path) {
      var path :| Meet(g, d, Source(f, path)) && Direct(g, path);
      assert Steady(g, Source(f, path).path);
    }
  }

  // ---------------------------------------------------------------------------------
  // Fresh graphs whose paths are steady

  // Links between fresh tables lead down.
  ghost predicate Ranked(g: Origin, rank: map<Table, nat>) {
    forall f, k | f in g.h && f !in g.live && k in g.h[f] && g.h[f][k].TableRef? ::
      f in rank && g.h[f][k].table in rank && rank[g.h[f][k].table] < rank[f]
  }

  lemma {:induction false} RankFalls(g: Origin, rank: map<Table, nat>, path: seq<Value>, i: nat, j: nat)
    requires Separated(g) && Ranked(g, rank) && i < j <= |path| && Follow(g.h, g.fresh_, path[..j]).Some?
    ensures var (f, e) := (Follow(g.h, g.fresh_, path[..i]), Follow(g.h, g.fresh_, path[..j]));
            f.Some? && f.value in rank && e.value in rank && rank[e.value] < rank[f.value]
    decreases j
  {
    hide ClosedHeap;
    assert path[..j][..j - 1] == path[..j - 1];
    StaysPlaced(g, path[..j - 1]);
    if i < j - 1 {
      RankFalls(g, rank, path, i, j - 1);
    }
  }

  // In an acyclic fresh graph every path is steady.
  lemma AcyclicIsSteady(g: Origin, rank: map<Table, nat>, d: Table, s: Source)
    requires Separated(g) && Ranked(g, rank) && Meet(g, d, s)
    ensures Steady(g, s.path)
  {
    hide Separated, Ranked;
    forall i, j | 0 <= i < j < |s.path|
      ensures Follow(g.h, g.fresh_, s.path[..i]) != Follow(g.h, g.fresh_, s.path[..j])
    {
      MeetPrefix(g, d, s, j);
      RankFalls(g, rank, s.path, i, j);
    }
  }

  // ---------------------------------------------------------------------------------
  // When every default arrives

  // Merging f2 into d leaves nothing out that merging f1 would have put there.
  predicate Offers(g: Origin, d: Table, f1: Table, f2: Table) {
    d in g.h && f1 in g.h && f2 in g.h && g.h[f1].Keys <= g.h[d].Keys + g.h[f2].Keys
  }

  // ... nor any table below d.
  ghost predicate Covers(g: Origin, d: Table, f1: Table, f2: Table) {
    Offers(g, d, f1, f2) && forall k | k in g.h[d] && Both(g.h, d, f1, k) :: Both(g.h, d, f2, k)
  }

  // Every visited table ends up with every key that any fresh table offers it, in every order,
  // if those on direct paths each offer what all others do.
  lemma VisitedGetAll(g: Origin, pick: Pick, d: Table, s: Source)
    requires Separated(g) && AnyOrder(g, pick) && d in Outcome(g, pick) && Meet(g, d, s)
    requires forall d, s1, s2 | Meet(g, d, s1) && Meet(g, d, s2) && Direct(g, s2.path) :: Offers(g, d, s1.fresh_, s2.fresh_)
    ensures g.h[s.fresh_].Keys <= After(g, Outcome(g, pick))[d].Keys
  {
    hide Separated, AnyOrder, Visits, Outcome, Follow, Direct;
    OutcomeFacts(g, pick);
    var s2 := Outcome(g, pick)[d];
    assert Meet(g, d, s2) && Direct(g, s2.path);
    assert Offers(g, d, s.fresh_, s2.fresh_);
  }

  // ... and only if, where direct paths are steady.
  lemma VisitedGetAllExactly(g: Origin)
    requires Separated(g)
    requires forall d, s | Meet(g, d, s) && Direct(g, s.path) :: Steady(g, s.path)
    ensures (forall pick, d, s | AnyOrder(g, pick) && d in Outcome(g, pick) && Meet(g, d, s) ::
              g.h[s.fresh_].Keys <= After(g, Outcome(g, pick))[d].Keys)
            <==> (forall d, s1, s2 | Meet(g, d, s1) && Meet(g, d, s2) && Direct(g, s2.path) :: Offers(g, d, s1.fresh_, s2.fresh_))
  {
    hide Separated, AnyOrder, Visits, Outcome, Follow, Direct, Steady;
    if forall d, s1, s2 | Meet(g, d, s1) && Meet(g, d, s2) && Direct(g, s2.path) :: Offers(g, d, s1.fresh_, s2.fresh_) {
      forall pick, d, s | AnyOrder(g, pick) && d in Outcome(g, pick) && Meet(g, d, s)
        ensures g.h[s.fresh_].Keys <= After(g, Outcome(g, pick))[d].Keys
      {
        VisitedGetAll(g, pick, d, s);
      }
    }
    if forall pick, d, s | AnyOrder(g, pick) && d in Outcome(g, pick) && Meet(g, d, s) ::
         g.h[s.fresh_].Keys <= After(g, Outcome(g, pick))[d].Keys {
      forall d, s1, s2 | Meet(g, d, s1) && Meet(g, d, s2) && Direct(g, s2.path)
        ensures Offers(g, d, s1.fresh_, s2.fresh_)
      {
        ReachedInSomeOrder(g, d, s2);
        assert g.h[s1.fresh_].Keys <= After(g, Outcome(g, Down(g, s2.path)))[d].Keys;
      }
    }
  }

  // A key that some fresh table offers, but one on a direct and steady path does not, is lost
  // in the order that goes straight down that path.
  lemma LostInSomeOrder(g: Origin, d: Table, s1: Source, s2: Source, k: Value)
    requires Separated(g) && Meet(g, d, s1) && Meet(g, d, s2) && Direct(g, s2.path) && Steady(g, s2.path)
    requires k in g.h[s1.fresh_] && k !in g.h[d] && k !in g.h[s2.fresh_]
    ensures AnyOrder(g, Down(g, s2.path)) && k !in After(g, Outcome(g, Down(g, s2.path)))[d]
  {
    hide Separated, AnyOrder, Visits, Outcome, Follow, Direct, Steady;
    ReachedInSomeOrder(g, d, s2);
  }

  // Every live table that meets a fresh one is visited, and from a table that covers all it
  // meets, in every order, if the tables on direct paths cover all others.
  lemma AllMerged(g: Origin, pick: Pick, d: Table, s: Source)
    requires Separated(g) && AnyOrder(g, pick) && Meet(g, d, s)
    requires forall d, s1, s2 | Meet(g, d, s1) && Meet(g, d, s2) && Direct(g, s2.path) :: Covers(g, d, s1.fresh_, s2.fresh_)
    ensures d in Outcome(g, pick) && Covers(g, d, s.fresh_, Outcome(g, pick)[d].fresh_)
  {
    hide Separated, AnyOrder, Visits, Outcome, Meet, Direct, Offers;
    OutcomeFacts(g, pick);
    AllVisited(g, pick, d, s);
    var s2 := Outcome(g, pick)[d];
    assert Meet(g, d, s2) && Direct(g, s2.path);
  }

  // ... and only if, where direct paths are steady.
  lemma AllMergedExactly(g: Origin)
    requires Separated(g)
    requires forall d, s | Meet(g, d, s) && Direct(g, s.path) :: Steady(g, s.path)
    ensures (forall pick, d, s | AnyOrder(g, pick) && Meet(g, d, s) ::
              d in Outcome(g, pick) && Covers(g, d, s.fresh_, Outcome(g, pick)[d].fresh_))
            <==> (forall d, s1, s2 | Meet(g, d, s1) && Meet(g, d, s2) && Direct(g, s2.path) :: Covers(g, d, s1.fresh_, s2.fresh_))
  {
    hide Separated, AnyOrder, Visits, Outcome, Meet, Direct, Steady, Covers;
    if forall d, s1, s2 | Meet(g, d, s1) && Meet(g, d, s2) && Direct(g, s2.path) :: Covers(g, d, s1.fresh_, s2.fresh_) {
      forall pick, d, s | AnyOrder(g, pick) && Meet(g, d, s)
        ensures d in Outcome(g, pick) && Covers(g, d, s.fresh_, Outcome(g, pick)[d].fresh_)
      {
        AllMerged(g, pick, d, s);
      }
    }
    if forall pick, d, s | AnyOrder(g, pick) && Meet(g, d, s) ::
         d in Outcome(g, pick) && Covers(g, d, s.fresh_, Outcome(g, pick)[d].fresh_) {
      forall d, s1, s2 | Meet(g, d, s1) && Meet(g, d, s2) && Direct(g, s2.path)
        ensures Covers(g, d, s1.fresh_, s2.fresh_)
      {
        ReachedInSomeOrder(g, d, s2);
      }
    }
  }

  // Where tables agree on which keys lead to tables, no table is passed by.
  lemma {:induction false} AllVisited(g: Origin, pick: Pick, d: Table, s: Source)
    requires Separated(g) && AnyOrder(g, pick) && Meet(g, d, s)
    requires forall t, s1, s2, k | Meet(g, t, s1) && Meet(g, t, s2) && Direct(g, s2.path) && Both(g.h, t, s1.fresh_, k) ::
               Both(g.h, t, s2.fresh_, k)
    ensures d in Outcome(g, pick)
    decreases |s.path|
  {
    hide Separated, AnyOrder, Visits, Outcome, Direct;
    OutcomeFacts(g, pick);
    if s.path != [] {
      var i := |s.path| - 1;
      MeetPrefix(g, d, s, i);
      var (d', f') := (Follow(g.h, g.dst, s.path[..i]).value, Follow(g.h, g.fresh_, s.path[..i]).value);
      AllVisited(g, pick, d', Source(f', s.path[..i]));
      FollowStep(g, d', f', s.path, i);
      assert s.path[..i + 1] == s.path;
      assert Descends(g, Outcome(g, pick), d');
      assert Both(g.h, d', Outcome(g, pick)[d'].fresh_, s.path[i]);
    }
  }

  // No default is lost anywhere, in any order, exactly if each table on a direct path offers
  // what all others do, where such paths are steady and tables agree on which keys lead to tables.
  lemma NoDefaultLostExactly(g: Origin)
    requires Separated(g)
    requires forall d, s | Meet(g, d, s) && Direct(g, s.path) :: Steady(g, s.path)
    requires forall t, s1, s2, k | Meet(g, t, s1) && Meet(g, t, s2) && Direct(g, s2.path) && Both(g.h, t, s1.fresh_, k) ::
               Both(g.h, t, s2.fresh_, k)
    ensures (forall pick, d, s | AnyOrder(g, pick) && Meet(g, d, s) :: g.h[s.fresh_].Keys <= After(g, Outcome(g, pick))[d].Keys)
            <==> (forall d, s1, s2 | Meet(g, d, s1) && Meet(g, d, s2) && Direct(g, s2.path) :: Offers(g, d, s1.fresh_, s2.fresh_))
  {
    hide Separated, AnyOrder, Visits, Outcome, Follow, Direct, Steady, After;
    VisitedGetAllExactly(g);
    forall pick, d, s | AnyOrder(g, pick) && Meet(g, d, s)
      ensures d in Outcome(g, pick)
    {
      AllVisited(g, pick, d, s);
    }
  }

  // ---------------------------------------------------------------------------------
  // A fresh table that leads to itself: a direct path that no order takes

  const A := Scalar(0)
  const B := Scalar(1)
  const X := Scalar(2)

  // d0 = {A: d1, B: e}, d1 = {A: d2, B: d2}, e = {X: d2}, d2 = {}; f = {A: f, B: g, X: 9}, g = {X: f}.
  function LoopHeap(d0: Table, d1: Table, e: Table, d2: Table, f: Table, g: Table): Heap {
    map[d0 := map[A := TableRef(d1), B := TableRef(e)], d1 := map[A := TableRef(d2), B := TableRef(d2)],
        e := map[X := TableRef(d2)], d2 := map[],
        f := map[A := TableRef(f), B := TableRef(g), X := Scalar(9)], g := map[X := TableRef(f)]]
  }

  predicate Apart6(d0: Table, d1: Table, e: Table, d2: Table, f: Table, g: Table) {
    d0 !in {d1, e, d2, f, g} && d1 !in {e, d2, f, g} && e !in {d2, f, g} && d2 !in {f, g} && f != g
  }

  // Of the keys A and B, the one that comes first is followed first, wherever X comes.
  lemma FollowedFirst(h: Heap, d: Table, s: Source, k: Value, from: map<Table, Source>, pick: Pick)
    requires d in h && s.fresh_ in h && h[s.fresh_].Keys == {A, B, X} && k in {A, B}
    requires Both(h, d, s.fresh_, k) && !Both(h, d, s.fresh_, X)
    requires pick(s.fresh_, {A, B, X}) == k || (pick(s.fresh_, {A, B, X}) == X && pick(s.fresh_, {A, B}) == k)
    ensures var r := VisitKeys(h, d, s, h[s.fresh_].Keys, from, pick);
            var v := Visits(h, h[d][k].table, Source(h[s.fresh_][k].table, s.path + [k]), from, pick);
            forall t | t in v :: t in r && r[t] == v[t]
  {
    hide Visits;
    assert {A, B, X} - {X} == {A, B};
  }

  // A table without entries is merged from the first table it is met with.
  lemma EmptyVisited(h: Heap, d: Table, s: Source, from: map<Table, Source>, pick: Pick)
    requires d in h && s.fresh_ in h && d !in from
    ensures var r := Visits(h, d, s, from, pick); d in r && r[d] == s
  {
  }

  lemma LoopVisits(d0: Table, d1: Table, e: Table, d2: Table, f: Table, g: Table, pick: Pick)
    requires Apart6(d0, d1, e, d2, f, g)
    requires Fair(pick, {d0, d1, e, d2, f, g}, {A, B, X})
    ensures var r := Visits(LoopHeap(d0, d1, e, d2, f, g), d0, Source(f, []), map[], pick);
            d2 in r && r[d2].fresh_ == f
  {
    hide Visits, VisitKeys;
    var h := LoopHeap(d0, d1, e, d2, f, g);
    var from := map[d0 := Source(f, [])];
    LoopEntries(d0, d1, e, d2, f, g);
    VisitsOpens(h, d0, Source(f, []), map[], pick);
    assert pick(f, {A, B, X}) in {A, B, X} && pick(f, {A, B}) in {A, B};
    var k := if pick(f, {A, B, X}) == X then pick(f, {A, B}) else pick(f, {A, B, X});
    FollowedFirst(h, d0, Source(f, []), k, from, pick);
    if k == A {
      var s := Source(f, [] + [A]);
      VisitsOpens(h, d1, s, from, pick);
      FollowedFirst(h, d1, s, A, from[d1 := s], pick);
      EmptyVisited(h, d2, Source(f, s.path + [A]), from[d1 := s], pick);
    } else {
      var s := Source(g, [] + [B]);
      VisitsOpens(h, e, s, from, pick);
      assert pick(g, {X}) == X;
      FirstKey(Origin(h, {}, d0, f), e, s, X, from[e := s], pick);
      EmptyVisited(h, d2, Source(f, s.path + [X]), from[e := s], pick);
    }
  }

  lemma VisitsOpens(h: Heap, d: Table, s: Source, from: map<Table, Source>, pick: Pick)
    requires d in h && s.fresh_ in h && d !in from
    ensures Visits(h, d, s, from, pick) == VisitKeys(h, d, s, h[s.fresh_].Keys, from[d := s], pick)
  {
  }

  lemma LoopEntries(d0: Table, d1: Table, e: Table, d2: Table, f: Table, g: Table)
    requires Apart6(d0, d1, e, d2, f, g)
    ensures var h := LoopHeap(d0, d1, e, d2, f, g);
            && h.Keys == {d0, d1, e, d2, f, g} && h[f].Keys == {A, B, X} && h[g].Keys == {X}
            && Both(h, d0, f, A) && Both(h, d0, f, B) && !Both(h, d0, f, X) && Both(h, d1, f, A) && Both(h, d1, f, B) && !Both(h, d1, f, X)
            && Both(h, e, g, X)
            && h[d0][A] == TableRef(d1) && h[d0][B] == TableRef(e) && h[d1][A] == h[d1][B] == TableRef(d2) && h[e][X] == TableRef(d2)
            && h[f][A] == TableRef(f) && h[f][B] == TableRef(g) && h[g][X] == TableRef(f)
  {
  }

  // d2 meets g at the end of the direct path A, B, but in every order it is merged from f: one
  // order for both visits of f cannot follow A first and B first.
  lemma UnsteadyPathNotTaken(d0: Table, d1: Table, e: Table, d2: Table, f: Table, g: Table, pick: Pick)
    requires Apart6(d0, d1, e, d2, f, g)
    requires Fair(pick, {d0, d1, e, d2, f, g}, {A, B, X})
    ensures var o := Origin(LoopHeap(d0, d1, e, d2, f, g), {d0, d1, e, d2}, d0, f);
            && Meet(o, d2, Source(g, [A, B])) && Direct(o, [A, B]) && !Steady(o, [A, B])
            && d2 in Outcome(o, pick) && Outcome(o, pick)[d2].fresh_ == f
  {
    hide Visits, LoopHeap, Fair;
    var o := Origin(LoopHeap(d0, d1, e, d2, f, g), {d0, d1, e, d2}, d0, f);
    LoopEntries(d0, d1, e, d2, f, g);
    LoopVisits(d0, d1, e, d2, f, g, pick);
    var path := [A, B];
    assert path[..0] == [] && path[..1] == [A] && path[..2] == path && path[..1][..0] == [];
    assert Follow(o.h, d0, []) == Some(d0) && Follow(o.h, f, []) == Some(f);
    assert Follow(o.h, d0, path[..1]) == Some(d1) && Follow(o.h, f, path[..1]) == Some(f);
    assert Follow(o.h, d0, path) == Some(d2) && Follow(o.h, f, path) == Some(g);
  }
}
