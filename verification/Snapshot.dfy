/** The deep snapshot taken before a reload: a memoised copy of the whole table graph. */
module Snapshot {
  import opened Tables

  // A finished copy: same metatable, renamed entries.
  ghost predicate Copied(t: Table, copy: Table, memo: map<Table, Table>)
    reads t, copy
  {
    Mirrors(t.entries, copy.entries, memo) && copy.metatable == t.metatable
  }

  // A memo maps originals in G, one to one, to tables outside G.
  ghost predicate IsMemo(memo: map<Table, Table>, G: set<Table>) {
    memo.Keys <= G && memo.Values !! G && Injective(memo)
  }

  function NewCopies(from: map<Table, Table>, memo: map<Table, Table>): set<Table> {
    set t | t in memo && t !in from :: memo[t]
  }

  // Everything the memo has gained since `from` is completely copied.
  ghost predicate CopiedSince(from: map<Table, Table>, memo: map<Table, Table>)
    reads memo.Keys - from.Keys, NewCopies(from, memo)
  {
    forall t | t in memo && t !in from :: Copied(t, memo[t], memo)
  }

  lemma CopiedExtend(from: map<Table, Table>, mid: map<Table, Table>, memo: map<Table, Table>)
    requires CopiedSince(from, mid) && Extends(mid, memo) && CopiedSince(mid, memo)
    ensures CopiedSince(from, memo)
    ensures Extends(from, mid) ==> NewCopies(from, memo) == NewCopies(from, mid) + NewCopies(mid, memo)
  {
    forall t | t in memo && t !in from
      ensures Copied(t, memo[t], memo)
    {
      if t in mid {
        MirrorsOnExtend(t.entries.Keys, t.entries, mid[t].entries, mid, memo);
      }
    }
  }

  lemma EdgesStay(t: Table, k: Value, G: set<Table>)
    requires Closed(G) && t in G && k in t.entries
    ensures Clean(t.entries) && Within(k, G) && Within(t.entries[k], G)
  {
  }

  method CloneValue(v: Value, memo: map<Table, Table>, ghost G: set<Table>)
    returns (r: Value, memo': map<Table, Table>)
    requires Closed(G) && Within(v, G) && IsMemo(memo, G)
    ensures IsMemo(memo', G) && Extends(memo, memo')
    ensures Within(v, memo'.Keys) && r == Image(v, memo')
    ensures fresh(NewCopies(memo, memo'))
    ensures CopiedSince(memo, memo')
    decreases G - memo.Keys, 0
  {
    hide MirrorsOn, Closed, Clean;
    if !v.TableRef? {
      return v, memo;
    }
    var t := v.table;
    if t in memo {
      return TableRef(memo[t]), memo;
    }
    var copy := new Table();
    var started := memo[t := copy];
    assert t in G - memo.Keys;
    memo' := CloneEntries(t, copy, started, G);
    copy.metatable := t.metatable;
    r := TableRef(copy);
    assert NewCopies(memo, memo') == NewCopies(started, memo') + {copy};
  }

  // The loop over Next: fills `copy` with the renamed entries of t, in any order.
  method CloneEntries(t: Table, copy: Table, memo: map<Table, Table>, ghost G: set<Table>)
    returns (memo': map<Table, Table>)
    requires Closed(G) && t in G && IsMemo(memo, G)
    requires t in memo && memo[t] == copy && copy.entries == map[]
    modifies copy`entries
    ensures IsMemo(memo', G) && Extends(memo, memo')
    ensures Mirrors(t.entries, copy.entries, memo')
    ensures fresh(NewCopies(memo, memo'))
    ensures CopiedSince(memo, memo')
    decreases G - memo.Keys, 2
  {
    hide MirrorsOn, Injective, Closed, Clean;
    memo' := memo;
    assert copy !in G;
    MirrorsOnNothing(t.entries, memo);
    var todo := t.entries.Keys;
    ghost var done: set<Value> := {};
    while todo != {}
      invariant done !! todo && done + todo == t.entries.Keys
      invariant IsMemo(memo', G) && Extends(memo, memo')
      invariant MirrorsOn(done, t.entries, copy.entries, memo')
      invariant fresh(NewCopies(memo, memo')) && copy !in NewCopies(memo, memo')
      invariant CopiedSince(memo, memo')
      decreases todo
    {
      var k :| k in todo;
      ghost var mid := memo';
      memo' := CloneEntry(k, t, copy, memo', G, done);
      CopiedExtend(memo, mid, memo');
      todo, done := todo - {k}, done + {k};
    }
    assert done == t.entries.Keys;
  }

  method CloneEntry(k: Value, t: Table, copy: Table, memo: map<Table, Table>, ghost G: set<Table>, ghost done: set<Value>)
    returns (memo': map<Table, Table>)
    requires Closed(G) && t in G && IsMemo(memo, G)
    requires t in memo && memo[t] == copy
    requires k in t.entries && k !in done && MirrorsOn(done, t.entries, copy.entries, memo)
    modifies copy`entries
    ensures IsMemo(memo', G) && Extends(memo, memo')
    ensures MirrorsOn(done + {k}, t.entries, copy.entries, memo')
    ensures fresh(NewCopies(memo, memo'))
    ensures CopiedSince(memo, memo')
    decreases G - memo.Keys, 1
  {
    hide MirrorsOn, Injective, Closed, Clean;
    assert copy !in G;
    EdgesStay(t, k, G);
    var ck, mid := CloneValue(k, memo, G);
    var cv;
    cv, memo' := CloneValue(t.entries[k], mid, G);
    CopiedExtend(memo, mid, memo');
    MirrorsOnExtend(done, t.entries, copy.entries, memo, memo');
    MirrorsOnStore(done, k, t.entries, copy.entries, memo');
    copy.RawSet(ck, cv);
  }

  type Globals = map<string, Value>

  ghost predicate GlobalsWithin(g: Globals, tables: set<Table>) {
    forall n | n in g :: Within(g[n], tables)
  }

  // Copies every global with one shared memo, in any order of the names.
  method DeepSnapshotGlobals(globals: Globals, ghost G: set<Table>)
    returns (out: Globals, ghost memo: map<Table, Table>)
    requires Closed(G) && GlobalsWithin(globals, G)
    ensures IsMemo(memo, G) && fresh(memo.Values) && CopiedSince(map[], memo)
    ensures out.Keys == globals.Keys && GlobalsWithin(globals, memo.Keys)
    ensures forall n | n in globals :: out[n] == Image(globals[n], memo)
  {
    hide MirrorsOn, Injective;
    MemoNothing(G);
    var seen: map<Table, Table> := map[];
    out := map[];
    var todo := globals.Keys;
    while todo != {}
      invariant todo <= globals.Keys && out.Keys == globals.Keys - todo
      invariant IsMemo(seen, G) && fresh(NewCopies(map[], seen)) && CopiedSince(map[], seen)
      invariant forall n | n in out :: Within(globals[n], seen.Keys) && out[n] == Image(globals[n], seen)
      decreases todo
    {
      var n :| n in todo;
      ghost var mid := seen;
      var copy;
      copy, seen := CloneValue(globals[n], seen, G);
      CopiedExtend(map[], mid, seen);
      out := out[n := copy];
      todo := todo - {n};
    }
    memo := seen;
    assert NewCopies(map[], seen) == seen.Values;
  }

  lemma MemoNothing(G: set<Table>)
    ensures IsMemo(map[], G) && CopiedSince(map[], map[])
  {
  }

  // The snapshot is an isomorphic graph: the original-to-copy map is one to one, the copies
  // are disjoint from the originals, each edge t[k] = v is matched by an edge of the copy
  // and no copy has any other edge, so copies only lead to copies.
  lemma SnapshotIsomorphic(memo: map<Table, Table>, G: set<Table>)
    requires IsMemo(memo, G) && CopiedSince(map[], memo)
    ensures memo.Keys !! memo.Values
    ensures forall s, t | s in memo && t in memo :: memo[s] == memo[t] <==> s == t
    ensures forall t, k | t in memo && k in t.entries ::
      && Within(k, memo.Keys) && Within(t.entries[k], memo.Keys)
      && Image(k, memo) in memo[t].entries && memo[t].entries[Image(k, memo)] == Image(t.entries[k], memo)
    ensures forall t | t in memo :: EntriesWithin(memo[t].entries, memo.Values)
    ensures forall t, k' | t in memo && k' in memo[t].entries :: exists k :: k in t.entries && Image(k, memo) == k'
  {
    forall t | t in memo
      ensures EntriesWithin(memo[t].entries, memo.Values) && Copied(t, memo[t], memo)
    {
      assert Copied(t, memo[t], memo);
      forall k' | k' in memo[t].entries
        ensures Within(k', memo.Values) && Within(memo[t].entries[k'], memo.Values)
      {
        var k :| k in t.entries.Keys && Image(k, memo) == k';
      }
    }
  }
}
