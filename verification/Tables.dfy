/** Script values and the tables they refer to: the mutable part of a script's state
    that a hot reload has to carry across. */
module Tables {

  // Functions and most scalars are opaque atoms; a table is a reference to a heap object. A
  // float with a whole value is not the integer it equals, except as a key.
  datatype Value =
    | Nil
    | Scalar(id: int)
    | Whole(n: int)
    | WholeFloat(n: int)
    | Function(id: int)
    | TableRef(table: Table)

  function KeyOf(k: Value): Value {
    if k.WholeFloat? then Whole(k.n) else k
  }

  type Entries = map<Value, Value>

  // What RawSet leaves behind: a nil key is ignored, a nil value removes the key.
  function Stored(e: Entries, key: Value, val: Value): Entries {
    if key.Nil? then e else if val.Nil? then e - {KeyOf(key)} else e[KeyOf(key) := val]
  }

  // A float with a whole value stores under the integer, and a read by the integer finds it.
  lemma WholeFloatKey(e: Entries, n: int, val: Value)
    requires !val.Nil?
    ensures Stored(e, WholeFloat(n), val) == Stored(e, Whole(n), val) == e[Whole(n) := val]
    ensures Stored(e, WholeFloat(n), Nil) == e - {Whole(n)}
  {
  }

  // No nil ever appears as a key or as a stored value, and no float with a whole value as a key.
  ghost predicate Clean(e: Entries) {
    forall k | k in e :: !k.Nil? && KeyOf(k) == k && !e[k].Nil?
  }

  class Table {
    var entries: Entries
    var metatable: Table?

    constructor ()
      ensures entries == map[] && metatable == null
    {
      entries, metatable := map[], null;
    }

    method RawSet(key: Value, val: Value)
      modifies this`entries
      ensures entries == Stored(old(entries), key, val)
    {
      if key.Nil? {
        return;
      }
      var k := if key.WholeFloat? then Whole(key.n) else key;
      entries := if val.Nil? then entries - {k} else entries[k := val];
    }

    function RawGet(key: Value): Value
      reads this
    {
      if key in entries then entries[key] else Nil
    }
  }

  // The tables that an entry map mentions, as keys or as values.
  ghost predicate Within(v: Value, tables: set<Table>) {
    v.TableRef? ==> v.table in tables
  }

  ghost predicate EntriesWithin(e: Entries, tables: set<Table>) {
    forall k | k in e :: Within(k, tables) && Within(e[k], tables)
  }

  // A well-formed table graph: every edge of a table of the set stays in the set.
  ghost predicate Closed(tables: set<Table>)
    reads tables
  {
    forall t | t in tables :: Clean(t.entries) && EntriesWithin(t.entries, tables)
  }

  // ---------------------------------------------------------------------------------
  // A heap as a value, and what a script can observe of it

  type Heap = map<Table, Entries>

  ghost function View(tables: set<Table>): Heap
    reads tables
  {
    map t | t in tables :: t.entries
  }

  // The raw contents of a value, followed through tables down to a given depth.
  datatype Tree = Cut | Leaf(v: Value) | Node(fields: map<Value, Tree>)

  ghost function Unfold(h: Heap, v: Value, depth: nat): Tree
    decreases depth
  {
    if !v.TableRef? then Leaf(v)
    else if depth == 0 || v.table !in h then Cut
    else Node(map k | k in h[v.table] :: Unfold(h, h[v.table][k], depth - 1))
  }

  // Renames the tables a value refers to.
  function Image(v: Value, memo: map<Table, Table>): Value
    requires v.TableRef? ==> v.table in memo
  {
    if v.TableRef? then TableRef(memo[v.table]) else v
  }

  ghost predicate Injective(memo: map<Table, Table>) {
    forall s, t | s in memo && t in memo && memo[s] == memo[t] :: s == t
  }

  // e' holds exactly the renamed keys of K, each with its renamed value.
  ghost predicate MirrorsOn(K: set<Value>, e: Entries, e': Entries, memo: map<Table, Table>) {
    && K <= e.Keys
    && (forall k | k in K :: Within(k, memo.Keys) && Within(e[k], memo.Keys))
    && (forall k | k in K :: Image(k, memo) in e' && e'[Image(k, memo)] == Image(e[k], memo))
    && (forall k' | k' in e' :: exists k :: k in K && Image(k, memo) == k')
  }

  ghost predicate Mirrors(e: Entries, e': Entries, memo: map<Table, Table>) {
    MirrorsOn(e.Keys, e, e', memo)
  }

  ghost predicate Extends(memo: map<Table, Table>, memo': map<Table, Table>) {
    forall t | t in memo :: t in memo' && memo'[t] == memo[t]
  }

  lemma MirrorsOnNothing(e: Entries, memo: map<Table, Table>)
    ensures MirrorsOn({}, e, map[], memo)
  {
  }

  lemma MirrorsOnExtend(K: set<Value>, e: Entries, e': Entries, memo: map<Table, Table>, memo': map<Table, Table>)
    requires MirrorsOn(K, e, e', memo) && Extends(memo, memo')
    ensures MirrorsOn(K, e, e', memo')
  {
    forall k | k in K
      ensures Within(k, memo'.Keys) && Within(e[k], memo'.Keys)
      ensures Image(k, memo') == Image(k, memo) && Image(e[k], memo') == Image(e[k], memo)
    {
    }
    forall k' | k' in e'
      ensures exists k :: k in K && Image(k, memo') == k'
    {
      var k :| k in K && Image(k, memo) == k';
      assert Image(k, memo') == k';
    }
  }

  lemma ImageInjective(k1: Value, k2: Value, memo: map<Table, Table>)
    requires Injective(memo) && Within(k1, memo.Keys) && Within(k2, memo.Keys)
    requires Image(k1, memo) == Image(k2, memo)
    ensures k1 == k2
  {
  }

  lemma MirrorsOnStore(K: set<Value>, k: Value, e: Entries, e': Entries, memo: map<Table, Table>)
    requires MirrorsOn(K, e, e', memo) && Injective(memo)
    requires k in e && k !in K && Clean(e)
    requires Within(k, memo.Keys) && Within(e[k], memo.Keys)
    ensures MirrorsOn(K + {k}, e, Stored(e', Image(k, memo), Image(e[k], memo)), memo)
  {
    var ik := Image(k, memo);
    var e'' := Stored(e', ik, Image(e[k], memo));
    forall j | j in K
      ensures Image(j, memo) != ik
    {
      if Image(j, memo) == ik {
        ImageInjective(j, k, memo);
      }
    }
    forall k' | k' in e''
      ensures exists j :: j in K + {k} && Image(j, memo) == k'
    {
      if k' == ik {
        assert k in K + {k};
      } else {
        var j :| j in K && Image(j, memo) == k';
        assert j in K + {k};
      }
    }
  }

  // ---------------------------------------------------------------------------------
  // Observational equality across two heaps

  ghost predicate SameValue(R: set<(Table, Table)>, v: Value, w: Value) {
    if v.TableRef? && w.TableRef? then (v.table, w.table) in R else v == w
  }

  // R is a bisimulation: related tables have the same keys, and related values under them.
  ghost predicate Bisimulation(R: set<(Table, Table)>, h: Heap, h': Heap) {
    forall p | p in R ::
      && p.0 in h && p.1 in h'
      && h[p.0].Keys == h'[p.1].Keys
      && forall k | k in h[p.0] :: SameValue(R, h[p.0][k], h'[p.1][k])
  }

  lemma {:induction false} BisimilarUnfold(R: set<(Table, Table)>, h: Heap, h': Heap, v: Value, w: Value, depth: nat)
    requires Bisimulation(R, h, h') && SameValue(R, v, w)
    ensures Unfold(h, v, depth) == Unfold(h', w, depth)
    decreases depth
  {
    if v.TableRef? && w.TableRef? && depth > 0 {
      var p := (v.table, w.table);
      assert p in R;
      var e, e' := h[v.table], h'[w.table];
      forall k | k in e
        ensures Unfold(h, e[k], depth - 1) == Unfold(h', e'[k], depth - 1)
      {
        BisimilarUnfold(R, h, h', e[k], e'[k], depth - 1);
      }
    }
  }
}
