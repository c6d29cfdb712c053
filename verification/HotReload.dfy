/** Applying a reloaded program to a persistent VM: snapshot, run, then roll back or preserve. */
module HotReload {
  import opened Wrappers
  import opened Tables
  import opened Snapshot
  import opened Merge
  import opened MergeOrder
  import opened MergeMeaning
  import opened Reachability
  import opened Preserve
  import opened Rollback

  // ---------------------------------------------------------------------------------
  // What a run may do

  // A run reaches values that existed when it started, and tables it made itself; it
  // cannot name the tables of a snapshot taken afterwards.
  datatype Operand = Known(v: Value) | Made(index: nat)

  datatype Effect =
    | Make
    | Store(table: Operand, key: Operand, val: Operand)
    | SetMeta(table: Operand, meta: Operand)
    | Bind(name: string, val: Operand)

  datatype Ending = Completed | Failed | Cancelled

  datatype Run = Run(effects: seq<Effect>, ending: Ending)

  ghost predicate OperandWithin(o: Operand, tables: set<Table>) {
    o.Known? ==> Within(o.v, tables)
  }

  ghost predicate EffectWithin(e: Effect, tables: set<Table>) {
    match e
    case Make => true
    case Store(t, k, v) => OperandWithin(t, tables) && OperandWithin(k, tables) && OperandWithin(v, tables)
    case SetMeta(t, m) => OperandWithin(t, tables) && OperandWithin(m, tables)
    case Bind(_, v) => OperandWithin(v, tables)
  }

  ghost predicate RunWithin(effects: seq<Effect>, tables: set<Table>) {
    forall i | 0 <= i < |effects| :: EffectWithin(effects[i], tables)
  }

  function Elems(made: seq<Table>): set<Table> {
    set t | t in made
  }

  function Eval(o: Operand, made: seq<Table>): Value {
    match o
    case Known(v) => v
    case Made(i) => if i < |made| then TableRef(made[i]) else Nil
  }

  // ---------------------------------------------------------------------------------
  // Restoring tables

  method ClearTable(t: Table)
    requires Clean(t.entries)
    modifies t`entries
    ensures t.entries == map[]
  {
    var keys := t.entries.Keys;
    while keys != {}
      invariant t.entries.Keys == keys && Clean(t.entries)
      decreases keys
    {
      var k :| k in keys;
      t.RawSet(k, Nil);
      keys := keys - {k};
    }
  }

  // Refills dst from src. A metatable is only ever put back, never taken away.
  method RestoreTable(dst: Table?, src: Table?, seen: set<Table>) returns (seen': set<Table>)
    requires dst != null ==> Clean(dst.entries)
    requires src != null ==> Clean(src.entries)
    modifies dst
    ensures dst == null || src == null || dst in seen ==> seen' == seen && (dst != null ==> unchanged(dst))
    ensures dst != null && src != null && dst !in seen ==>
              && seen' == seen + {dst}
              && dst.entries == (if dst == src then map[] else old(src.entries))
              && dst.metatable == (if old(src.metatable) != null then old(src.metatable) else old(dst.metatable))
  {
    if dst == null || src == null || dst in seen {
      return seen;
    }
    seen' := seen + {dst};
    ClearTable(dst);
    var todo := src.entries.Keys;
    ghost var e := src.entries;
    while todo != {}
      invariant todo <= src.entries.Keys && src.entries == e
      invariant dst == src ==> e == map[]
      invariant dst != src ==> dst.entries == map k | k in e && k !in todo :: e[k]
      invariant dst == src ==> dst.entries == map[]
      invariant dst.metatable == old(dst.metatable) && src.metatable == old(src.metatable)
      decreases todo
    {
      var k :| k in todo;
      dst.RawSet(k, src.entries[k]);
      todo := todo - {k};
    }
    if src.metatable != null {
      dst.metatable := src.metatable;
    }
  }

  // ---------------------------------------------------------------------------------
  // What a reload leaves

  // t holds its copy's entries, and its copy's metatable unless the copy has none.
  ghost predicate Refilled(t: Table, copy: Table, left: Table?)
    reads t, copy
  {
    t.entries == copy.entries && t.metatable == if copy.metatable != null then copy.metatable else left
  }

  ghost predicate KeepsHeap(h: Heap, h': Heap) {
    h.Keys == h'.Keys && forall t | t in h :: Keeps(h[t], h'[t])
  }

  lemma KeepsHeapTrans(h0: Heap, h1: Heap, h2: Heap)
    requires KeepsHeap(h0, h1) && KeepsHeap(h1, h2)
    ensures KeepsHeap(h0, h2)
  {
  }

  lemma KeepsHeapRefl(h: Heap)
    ensures KeepsHeap(h, h)
  {
  }

  lemma EvalsWithin(e: Effect, made: seq<Table>, U: set<Table>)
    requires EffectWithin(e, U) && Elems(made) <= U
    ensures match e
            case Make => true
            case Store(t, k, v) => Within(Eval(t, made), U) && Within(Eval(k, made), U) && Within(Eval(v, made), U)
            case SetMeta(t, m) => Within(Eval(t, made), U) && Within(Eval(m, made), U)
            case Bind(_, v) => Within(Eval(v, made), U)
  {
  }

  lemma MetaMatches(e: Effect, made: seq<Table>, U: set<Table>)
    requires e.SetMeta?
    ensures forall t | t in U && t !in made :: Eval(e.table, made) == TableRef(t) <==> e.table == Known(TableRef(t))
    ensures Eval(e.meta, made).TableRef? <==> match e.meta { case Known(m) => m.TableRef? case Made(i) => i < |made| }
  {
  }

  lemma ViewAt(U: set<Table>, t: Table)
    requires t in U
    ensures View(U).Keys == U && View(U)[t] == t.entries
  {
  }

  lemma MadeOne(U: set<Table>, made: seq<Table>, t: Table, h: Heap)
    requires Closed(U) && Elems(made) <= U && t !in U && t.entries == map[] && View(U) == h
    ensures Closed(U + Elems(made + [t])) && View(U + Elems(made + [t])) == h[t := map[]]
    ensures Elems(made + [t]) - Elems(made) == {t} && U <= U + Elems(made + [t])
  {
    assert U + Elems(made + [t]) == U + {t};
  }

  // One more effect.
  lemma RunStep(effects: seq<Effect>, i: nat, globals: Globals, h: Heap, made: seq<Table>, made': seq<Table>)
    requires i < |effects| && |made| == Makes(effects[..i]) && made <= made'
    requires |made'| == |made| + if effects[i].Make? then 1 else 0
    ensures Makes(effects[..i + 1]) == |made'|
    ensures var b := Bindings(effects[..i], globals, made);
            Bindings(effects[..i + 1], globals, made') ==
            if effects[i].Bind? then b[effects[i].name := Eval(effects[i].val, made)] else b
    ensures Contents(effects[..i + 1], h, made') == StepHeap(effects[i], Contents(effects[..i], h, made), made')
  {
    hide StepHeap, Eval;
    assert effects[..i + 1][..i] == effects[..i];
    var more := made'[|made|..];
    assert made' == made + more && made'[..|made|] == made && made'[..|made'|] == made';
    BindingsMore(effects[..i], globals, made, more);
    ContentsMore(effects[..i], h, made, more);
  }

  lemma MetaNext(effects: seq<Effect>, i: nat, t: Table, had: bool)
    requires i < |effects|
    ensures HasMeta(effects[..i + 1], t, had) == MetaStep(effects[i], Makes(effects[..i]), t, HasMeta(effects[..i], t, had))
  {
    assert effects[..i + 1][..i] == effects[..i];
  }

  lemma NothingMade(tables: set<Table>)
    ensures Elems([]) == {} && tables + Elems([]) == tables
  {
  }

  lemma EffectMore(e: Effect, tables: set<Table>, U: set<Table>)
    requires EffectWithin(e, tables) && tables <= U
    ensures EffectWithin(e, U)
  {
  }

  lemma MadeMore(tables: set<Table>, was: seq<Table>, made: seq<Table>)
    requires was <= made
    ensures tables + Elems(was) + Elems(made) == tables + Elems(made)
    ensures Elems(made) == Elems(was) + (Elems(made) - Elems(was))
    ensures forall t | t in was :: t in Elems(was)
  {
  }

  function Without(g: Globals, names: set<string>): Globals {
    map n | n in g && n !in names :: g[n]
  }

  lemma ReboundFirst(before: Globals, after: Globals)
    ensures Rebound(Without(before, before.Keys), after) == after
  {
  }

  lemma ReboundLast(before: Globals, after: Globals, todo: set<string>)
    requires todo == {}
    ensures Without(before, todo) == before
  {
  }

  lemma ReboundNext(before: Globals, after: Globals, todo: set<string>, n: string)
    requires n in todo && todo <= before.Keys
    ensures var was := Rebound(Without(before, todo), after);
            Rebound(Without(before, todo - {n}), after) ==
            if n in after && !after[n].Function? && !before[n].Function? then was[n := before[n]] else was
    ensures n in after ==> n in Rebound(Without(before, todo), after)
  {
  }

  lemma GlobalsBound(before: Globals, g: Globals, tables: set<Table>, n: string)
    requires GlobalsWithin(before, tables) && GlobalsWithin(g, tables) && n in before
    ensures Within(before[n], tables) && GlobalsWithin(g[n := before[n]], tables)
    ensures n in g ==> Within(g[n], tables)
  {
  }

  lemma ReachIsHeap(tables: set<Table>, before: Globals)
    requires Closed(tables) && GlobalsWithin(before, tables)
    ensures var G := Reach(View(tables), GlobalTables(before));
            G <= tables && Closed(G) && GlobalsWithin(before, G)
  {
    hide Reach;
    var h := View(tables);
    assert WholeHeap(h) by {
      assert forall t | t in tables :: h[t] == t.entries;
    }
    ReachIsClosed(h, GlobalTables(before));
    assert forall t | t in Reach(h, GlobalTables(before)) :: h[t] == t.entries;
  }

  lemma MemoIsReach(tables: set<Table>, before: Globals, memo: map<Table, Table>)
    requires IsSnapshot(View(tables), View(memo.Values), memo) && GlobalsWithin(before, memo.Keys)
    requires memo.Keys <= Reach(View(tables), GlobalTables(before))
    ensures memo.Keys == Reach(View(tables), GlobalTables(before))
  {
    hide Reach;
    forall t | t in memo
      ensures EntriesWithin(View(tables)[t], memo.Keys)
    {
      MirrorsWithin(View(tables)[t], View(memo.Values)[memo[t]], memo);
    }
    ReachIsLeast(View(tables), GlobalTables(before), memo.Keys);
  }

  // The merge of the graph in g, and nothing else.
  ghost predicate MergedOnly(g: Origin, h: Heap, h': Heap, pick: Pick) {
    && h'.Keys == h.Keys && (forall t | t in g.h :: t in h' && h'[t] == After(g, Outcome(g, pick))[t])
    && forall t | t in h && t !in g.live :: h'[t] == h[t]
  }

  lemma StartedPlaced(g: Origin, h: Heap)
    requires Started(g, h, map[])
    ensures Placed(g, g.dst, g.fresh_)
  {
  }

  lemma MergeDone(g: Origin, h: Heap, h': Heap, from: map<Table, Source>, pick: Pick)
    requires Merged(h, h', {}, from.Keys) && Started(g, h', from) && Finished(g, h', from, from.Keys) && from == Outcome(g, pick)
    ensures MergedOnly(g, h, h', pick)
  {
    hide Separated, Visits, Overlay, Keeps, ClosedHeap;
    DoneIsAfter(g, h', from);
  }

  // When the overlay of each global can be told from the start.
  ghost predicate MayMerge(before: Globals, after: Globals, h: Heap, pick: Pick) {
    Apart(h, before, after) && Fair(pick, h.Keys, KeysOf(h))
  }

  // Tables that are not a global's hold what the run left in them.
  ghost predicate OthersAsLeft(h1: Heap, h': Heap, globals: set<Table>) {
    forall t | t in h1 && t !in globals :: t in h' && h'[t] == h1[t]
  }

  lemma RefilledOthers(h1: Heap, c: Heap, h': Heap, globals: set<Table>, memo: map<Table, Table>)
    requires RefilledHeap(h1, c, h', globals, memo) && h1.Keys !! c.Keys
    ensures OthersAsLeft(h1, h', globals)
  {
  }

  // Whatever the state, no entry that was not a function is lost; and if each merged graph is
  // apart from all others and keeps step, every global is overlaid to every depth.
  ghost predicate Carried(before: Globals, after: Globals, h: Heap, h': Heap, pick: Pick) {
    KeepsHeap(h, h') && (MayMerge(before, after, h, pick) ==> MergedGlobals(h, h', before, after))
  }

  lemma MayStart(h: Heap, before: Globals, after: Globals, pick: Pick)
    requires WellFormed(h, before, after)
    ensures Stage(h, h, before, after, pick, before.Keys)
  {
    hide Stage;
    StageStart(h, before, after, pick);
  }

  lemma MayMergeOne(h: Heap, h': Heap, before: Globals, after: Globals, pick: Pick, todo: set<string>, n: string)
    requires WellFormed(h, before, after) && MayMerge(before, after, h, pick) && Stage(h, h', before, after, pick, todo)
    requires Merging(before, after, n) && n in todo
    ensures Started(OriginOf(h, before, after, n), h', map[]) && Fair(pick, h.Keys, KeysOf(h))
  {
    hide Stage, Apart, WellFormed, Fair, OriginOf;
    StageBefore(h, h', before, after, pick, todo, n);
  }

  lemma NextStage(h: Heap, h1: Heap, h2: Heap, before: Globals, after: Globals, pick: Pick, todo: set<string>, n: string)
    requires WellFormed(h, before, after) && MayMerge(before, after, h, pick) && Stage(h, h1, before, after, pick, todo) && n in todo
    requires if Merging(before, after, n) then MergedOnly(OriginOf(h, before, after, n), h1, h2, pick) else h2 == h1
    ensures Stage(h, h2, before, after, pick, todo - {n})
  {
    hide Stage, Apart, WellFormed, Fair, Outcome, After;
    if Merging(before, after, n) {
      StageKeys(h, h1, before, after, pick, todo, n);
      StageStep(h, h1, h2, before, after, pick, todo, n);
    } else {
      StageSkip(h, h1, before, after, pick, todo, n);
    }
  }

  lemma OriginRoots(h: Heap, before: Globals, after: Globals, n: string)
    requires Merging(before, after, n)
    ensures before[n] == TableRef(OriginOf(h, before, after, n).dst) && after[n] == TableRef(OriginOf(h, before, after, n).fresh_)
  {
  }

  lemma StageKeys(h: Heap, h1: Heap, before: Globals, after: Globals, pick: Pick, todo: set<string>, n: string)
    requires Stage(h, h1, before, after, pick, todo) && Merging(before, after, n)
    ensures h1.Keys == h.Keys && Region(h, before, after, n) <= h.Keys
  {
    hide Reach, Goal;
  }

  lemma MayDone(h: Heap, h': Heap, before: Globals, after: Globals, pick: Pick)
    requires WellFormed(h, before, after) && MayMerge(before, after, h, pick) && Stage(h, h', before, after, pick, {})
    ensures MergedGlobals(h, h', before, after)
  {
    hide Stage, Apart, WellFormed, Fair;
    StageDone(h, h', before, after, pick);
  }

  lemma MergedKeeps(h: Heap, h': Heap, P: set<Table>, seen: set<Table>)
    requires Merged(h, h', P, seen)
    ensures KeepsHeap(h, h') && ClosedHeap(h')
  {
  }

  ghost function Metas(tables: set<Table>): map<Table, Table?>
    reads tables
  {
    map t | t in tables :: t.metatable
  }

  // A metatable comes back exactly if there was one before, or the run left none.
  ghost predicate MetasRestored(m: map<Table, Table?>, m': map<Table, Table?>, globals: set<Table>, effects: seq<Effect>) {
    forall t | t in globals :: t in m && t in m' && (m'[t] == m[t] <==> m[t] != null || !HasMeta(effects, t, false))
  }

  // Whether a table that existed before the run has a metatable after it.
  function HasMeta(effects: seq<Effect>, t: Table, had: bool): bool {
    if effects == [] then had
    else
      var rest := effects[..|effects| - 1];
      MetaStep(effects[|effects| - 1], Makes(rest), t, HasMeta(rest, t, had))
  }

  function MetaStep(e: Effect, made: nat, t: Table, had: bool): bool {
    if e.SetMeta? && e.table == Known(TableRef(t)) then
      match e.meta { case Known(m) => m.TableRef? case Made(i) => i < made }
    else had
  }

  function Makes(effects: seq<Effect>): nat {
    if effects == [] then 0
    else Makes(effects[..|effects| - 1]) + if effects[|effects| - 1].Make? then 1 else 0
  }

  // The bindings a run leaves, when the tables it made are `news`, in order.
  function Bindings(effects: seq<Effect>, globals: Globals, news: seq<Table>): Globals {
    if effects == [] then globals
    else
      var rest, e := effects[..|effects| - 1], effects[|effects| - 1];
      var before := Bindings(rest, globals, news);
      if e.Bind? && Makes(rest) <= |news| then before[e.name := Eval(e.val, news[..Makes(rest)])] else before
  }

  // The tables a run leaves, starting from those of h.
  ghost function Contents(effects: seq<Effect>, h: Heap, news: seq<Table>): Heap {
    if effects == [] then h
    else
      var rest := Contents(effects[..|effects| - 1], h, news);
      if Makes(effects) <= |news| then StepHeap(effects[|effects| - 1], rest, news[..Makes(effects)]) else rest
  }

  ghost function StepHeap(e: Effect, h: Heap, made: seq<Table>): Heap {
    match e
    case Make => if made == [] then h else h[made[|made| - 1] := map[]]
    case Store(table, key, val) =>
      var t := Eval(table, made);
      if t.TableRef? && t.table in h then h[t.table := Stored(h[t.table], Eval(key, made), Eval(val, made))] else h
    case _ => h
  }

  lemma {:induction false} ContentsMore(effects: seq<Effect>, h: Heap, news: seq<Table>, more: seq<Table>)
    requires Makes(effects) <= |news|
    ensures Contents(effects, h, news + more) == Contents(effects, h, news)
  {
    if effects != [] {
      ContentsMore(effects[..|effects| - 1], h, news, more);
      assert (news + more)[..Makes(effects)] == news[..Makes(effects)];
    }
  }

  // Bindings that the run does not touch show through, wherever they are kept.
  lemma {:induction false} BindingsOver(effects: seq<Effect>, under: Globals, over: Globals, news: seq<Table>)
    ensures under + Bindings(effects, over, news) == Bindings(effects, under + over, news)
  {
    if effects != [] {
      BindingsOver(effects[..|effects| - 1], under, over, news);
    }
  }

  lemma {:induction false} BindingsMore(effects: seq<Effect>, globals: Globals, news: seq<Table>, more: seq<Table>)
    requires Makes(effects) <= |news|
    ensures Bindings(effects, globals, news + more) == Bindings(effects, globals, news)
  {
    if effects != [] {
      var rest := effects[..|effects| - 1];
      BindingsMore(rest, globals, news, more);
      assert (news + more)[..Makes(rest)] == news[..Makes(rest)];
    }
  }

  // ---------------------------------------------------------------------------------
  // The VM

  class VM {
    const useVM: bool
    var interp: Globals
    var bytecode: Option<Globals>
    ghost var tables: set<Table>  // every table a value of this VM may lead to

    ghost predicate Valid()
      reads this, tables
    {
      && Closed(tables) && GlobalsWithin(interp, tables)
      && (bytecode.Some? ==> useVM && GlobalsWithin(bytecode.value, tables))
    }

    constructor (useVM: bool, globals: Globals, ghost tables: set<Table>)
      requires Closed(tables) && GlobalsWithin(globals, tables)
      ensures Valid() && interp == globals && bytecode == None && this.tables == tables && this.useVM == useVM
    {
      this.useVM, interp, bytecode, this.tables := useVM, globals, None, tables;
    }

    // The bytecode VM, when there is one, holds no binding the interpreter lacks.
    ghost predicate Synced()
      reads this
    {
      bytecode.Some? ==> forall n | n in bytecode.value :: n in interp && interp[n] == bytecode.value[n]
    }

    function Visible(): Globals
      reads this
    {
      if bytecode.Some? then interp + bytecode.value else interp
    }

    // Bindings of the bytecode VM win over the interpreter's.
    lemma VisibleExactly(n: string)
      ensures n in Visible() <==> n in interp || (bytecode.Some? && n in bytecode.value)
      ensures n in Visible() ==> Visible()[n] == if bytecode.Some? && n in bytecode.value then bytecode.value[n] else interp[n]
    {
    }

    method SyncBytecodeGlobals()
      modifies this`interp
      ensures interp == old(Visible()) && Synced()
    {
      if bytecode.None? {
        return;
      }
      var todo := bytecode.value.Keys;
      while todo != {}
        invariant todo <= bytecode.value.Keys
        invariant interp == old(interp) + map n | n in bytecode.value && n !in todo :: bytecode.value[n]
        decreases todo
      {
        var n :| n in todo;
        interp := interp[n := bytecode.value[n]];
        todo := todo - {n};
      }
    }

    method SnapshotGlobals() returns (globals: Globals)
      modifies this`interp
      ensures globals == interp == old(Visible()) && Synced()
    {
      SyncBytecodeGlobals();
      globals := interp;
    }

    method RestoreGlobals(globals: Globals)
      modifies this`interp, this`bytecode
      ensures interp == globals && bytecode == None
    {
      interp, bytecode := globals, None;
    }

    // Rebinds old state over what the run declared, merging table into table.
    method PreserveHotReloadState(before: Globals, pick: Pick)
      requires Valid() && Synced() && GlobalsWithin(before, tables)
      modifies this`interp, this`bytecode, tables`entries
      ensures Valid() && Synced()
      ensures interp == Rebound(before, old(interp)) && interp.Keys == old(interp).Keys
      ensures forall n | n in interp && n !in before :: interp[n] == old(interp)[n]
      ensures forall n | n in interp && n in before ::
                interp[n] == if before[n].Function? || old(interp)[n].Function? then old(interp)[n] else before[n]
      ensures bytecode.Some? <==> old(bytecode.Some?)
      ensures KeepsHeap(old(View(tables)), View(tables))
      ensures old(MayMerge(before, interp, View(tables), pick)) ==> MergedGlobals(old(View(tables)), View(tables), before, old(interp))
    {
      hide KeepsHeap, Closed, Merged, KeysWithin, KeysOf, ClosedHeap, Separated, View, Stage, MayMerge, MergedOnly, OriginOf, MergedGlobals, Fair, Started, Rebound, GlobalsWithin, Without;
      var after := interp;
      ghost var h0, K := View(tables), KeysOf(View(tables));
      ghost var exact := MayMerge(before, after, h0, pick);
      var todo := before.Keys;
      KeepsHeapRefl(h0);
      ClosedIsClosedHeap(tables);
      KeysOfWithin(h0);
      ViewKeys(tables);
      MayStart(h0, before, after, pick);
      ReboundExactly(before, after);
      ReboundFirst(before, after);
      while todo != {}
        invariant todo <= before.Keys
        invariant interp == Rebound(Without(before, todo), after) && (bytecode.Some? ==> bytecode.value.Keys <= interp.Keys)
        invariant Synced() && (bytecode.Some? <==> old(bytecode.Some?))
        invariant GlobalsWithin(interp, tables) && (bytecode.Some? ==> GlobalsWithin(bytecode.value, tables))
        invariant ClosedHeap(View(tables)) && KeepsHeap(h0, View(tables)) && KeysWithin(View(tables), K)
        invariant exact ==> Stage(h0, View(tables), before, after, pick, todo)
        decreases todo
      {
        var name :| name in todo;
        ghost var h1, left := View(tables), todo;
        todo := todo - {name};
        ReboundNext(before, after, left, name);
        GlobalsBound(before, interp, tables, name);
        GlobalsBound(before, after, tables, name);
        if bytecode.Some? {
          GlobalsBound(before, bytecode.value, tables, name);
        }
        ghost var g: Option<Origin> := None;
        if exact && Merging(before, after, name) {
          MayMergeOne(h0, h1, before, after, pick, left, name);
          OriginRoots(h0, before, after, name);
          g := Some(OriginOf(h0, before, after, name));
        }
        if name in after && !after[name].Function? && !before[name].Function? {
          PreserveOne(name, before[name], after[name], pick, h0, K, g);
        }
        if exact {
          NextStage(h0, h1, View(tables), before, after, pick, left, name);
        }
      }
      ReboundLast(before, after, todo);
      ClosedIsClosedHeap(tables);
      if exact {
        MayDone(h0, View(tables), before, after, pick);
      }
    }

    method PreserveOne(name: string, old_: Value, current: Value, pick: Pick, ghost h0: Heap, ghost K: set<Value>,
                       ghost g: Option<Origin>)
      requires ClosedHeap(View(tables)) && Within(old_, tables) && Within(current, tables)
      requires KeepsHeap(h0, View(tables)) && KeysWithin(View(tables), K)
      requires g.Some? ==> old_ == TableRef(g.value.dst) && current == TableRef(g.value.fresh_)
      requires g.Some? ==> Started(g.value, View(tables), map[]) && Fair(pick, tables, K)
      modifies this`interp, this`bytecode, tables`entries
      ensures ClosedHeap(View(tables)) && KeepsHeap(h0, View(tables)) && KeysWithin(View(tables), K)
      ensures View(tables).Keys == tables
      ensures old_ == current || !old_.TableRef? || !current.TableRef? ==> View(tables) == old(View(tables))
      ensures g.Some? ==> MergedOnly(g.value, old(View(tables)), View(tables), pick)
      ensures interp == old(interp)[name := old_]
      ensures bytecode == match old(bytecode) { case None => None case Some(b) => Some(b[name := old_]) }
    {
      hide KeepsHeap, Merged, KeysWithin, ClosedHeap, Separated, Finished, Fair, Visits, After, MergedOnly;
      ghost var h := View(tables);
      if old_.TableRef? && current.TableRef? {
        if g.Some? {
          StartedPlaced(g.value, h);
        }
        var seen, from := MergeTables(old_.table, current.table, {}, pick, tables, K, g.Some?,
                                      if g.Some? then g.value else Origin(h, {}, old_.table, current.table), [], map[]);
        MergedKeeps(h, View(tables), {}, seen);
        KeepsHeapTrans(h0, h, View(tables));
        if g.Some? {
          assert seen - {} == seen;
          MergeDone(g.value, h, View(tables), from, pick);
        }
      }
      interp := interp[name := old_];
      if bytecode.Some? {
        bytecode := Some(bytecode.value[name := old_]);
      }
    }

    // Puts every global table back from the snapshot, in any order, then the bindings.
    method RestoreFromSnapshot(before: Globals, snapshot: Globals, ghost memo: map<Table, Table>, ghost copies: set<Table>)
      requires GlobalTables(before) <= memo.Keys && memo.Keys !! memo.Values && memo.Values == copies
      requires snapshot.Keys == before.Keys
      requires forall n | n in before :: Within(before[n], memo.Keys) && snapshot[n] == Image(before[n], memo)
      requires forall t | t in GlobalTables(before) + copies :: Clean(t.entries)
      modifies this`interp, this`bytecode, GlobalTables(before)
      ensures interp == before && bytecode == None
      ensures forall t | t in GlobalTables(before) :: Refilled(t, memo[t], old(t.metatable))
    {
      var restored: Globals := map[];
      var todo := before.Keys;
      while todo != {}
        invariant todo <= before.Keys && restored == map n | n in before && n !in todo :: before[n]
        invariant forall t | t in GlobalTables(before) :: Clean(t.entries)
        invariant forall t | t in GlobalTables(before) ::
                    Refilled(t, memo[t], old(t.metatable)) || (unchanged(t) && t !in GlobalTables(restored))
        decreases todo
      {
        var name :| name in todo;
        todo := todo - {name};
        var value := before[name];
        restored := restored[name := value];
        if value.TableRef? {
          assert value.table in GlobalTables(before);
          if name in snapshot && snapshot[name].TableRef? {
            var seen := RestoreTable(value.table, snapshot[name].table, {});
          }
        }
      }
      assert restored == before;
      RestoreGlobals(restored);
    }

    // One write of a run.
    method Put(t: Table, key: Value, val: Value, ghost U: set<Table>)
      requires Closed(U) && t in U && Within(key, U) && Within(val, U)
      modifies t`entries
      ensures Closed(U) && View(U) == old(View(U))[t := Stored(old(t.entries), key, val)]
    {
      t.RawSet(key, val);
    }

    method Attach(t: Table, meta: Table?, ghost U: set<Table>)
      requires Closed(U)
      modifies t`metatable
      ensures Closed(U) && View(U) == old(View(U)) && t.metatable == meta
    {
      t.metatable := meta;
    }

    // One effect of a run on the bindings it works on.
    method Perform(e: Effect, globals: Globals, made: seq<Table>, ghost U: set<Table>)
      returns (globals': Globals, made': seq<Table>)
      requires Closed(U) && EffectWithin(e, U) && GlobalsWithin(globals, U) && Elems(made) <= U
      modifies U
      ensures Closed(U + Elems(made')) && GlobalsWithin(globals', U + Elems(made'))
      ensures made <= made' && |made'| == |made| + if e.Make? then 1 else 0
      ensures globals' == if e.Bind? then globals[e.name := Eval(e.val, made)] else globals
      ensures View(U + Elems(made')) == StepHeap(e, old(View(U)), made')
      ensures fresh(Elems(made') - Elems(made))
      ensures forall t | t in U && t !in made :: t.metatable != null <==> MetaStep(e, |made|, t, old(t.metatable != null))
    {
      hide Closed, Clean, Stored, View, Eval;
      globals', made' := globals, made;
      EvalsWithin(e, made, U);
      ViewKeys(U);
      match e
      case Make =>
        var t := new Table();
        made' := made + [t];
        MadeOne(U, made, t, old(View(U)));
      case Store(table, key, val) =>
        var t := Eval(table, made);
        if t.TableRef? {
          ViewAt(U, t.table);
          Put(t.table, Eval(key, made), Eval(val, made), U);
        }
        assert U + Elems(made) == U;
      case SetMeta(table, meta) =>
        var t, m := Eval(table, made), Eval(meta, made);
        if t.TableRef? {
          Attach(t.table, if m.TableRef? then m.table else null, U);
        }
        assert U + Elems(made) == U;
        MetaMatches(e, made, U);
      case Bind(name, val) =>
        globals' := globals[name := Eval(val, made)];
        assert U + Elems(made) == U;
    }

    method PerformAll(effects: seq<Effect>, globals: Globals)
      returns (globals': Globals, ghost news: seq<Table>)
      requires Closed(tables) && RunWithin(effects, tables) && GlobalsWithin(globals, tables)
      modifies tables
      ensures fresh(Elems(news)) && Closed(tables + Elems(news)) && GlobalsWithin(globals', tables + Elems(news))
      ensures globals' == Bindings(effects, globals, news)
      ensures |news| == Makes(effects) && View(tables + Elems(news)) == Contents(effects, old(View(tables)), news)
      ensures forall t | t in tables :: t.metatable != null <==> HasMeta(effects, t, old(t.metatable != null))
    {
      hide Closed, View, EffectWithin, StepHeap, MetaStep, Elems;
      globals' := globals;
      var made: seq<Table> := [];
      ghost var h0 := View(tables);
      NothingMade(tables);
      for i := 0 to |effects|
        invariant fresh(Elems(made)) && |made| == Makes(effects[..i])
        invariant globals' == Bindings(effects[..i], globals, made)
        invariant View(tables + Elems(made)) == Contents(effects[..i], h0, made)
        invariant Closed(tables + Elems(made)) && GlobalsWithin(globals', tables + Elems(made))
        invariant forall t | t in tables :: t.metatable != null <==> HasMeta(effects[..i], t, old(t.metatable != null))
      {
        ghost var U, was := tables + Elems(made), made;
        EffectMore(effects[i], tables, U);
        forall t, had: bool
          ensures HasMeta(effects[..i + 1], t, had) == MetaStep(effects[i], |was|, t, HasMeta(effects[..i], t, had))
        {
          MetaNext(effects, i, t, had);
        }
        globals', made := Perform(effects[i], globals', made, U);
        RunStep(effects, i, globals, h0, was, made);
        MadeMore(tables, was, made);
      }
      news := made;
      assert effects[..|effects|] == effects;
    }

    // Runs a program: the bytecode VM keeps its own bindings and shares them on success.
    method RunContext(run: Run) returns (ok: bool, ghost news: seq<Table>)
      requires Valid() && RunWithin(run.effects, tables)
      modifies this`interp, this`bytecode, tables
      ensures ok <==> run.ending.Completed?
      ensures fresh(Elems(news)) && Closed(tables + Elems(news))
      ensures View(tables + Elems(news)) == Contents(run.effects, old(View(tables)), news)
      ensures ok && old(Synced()) ==> interp == Bindings(run.effects, old(interp), news)
      ensures ok ==> GlobalsWithin(interp, tables + Elems(news)) && Synced()
      ensures ok && bytecode.Some? ==> useVM && GlobalsWithin(bytecode.value, tables + Elems(news))
      ensures forall t | t in tables :: t.metatable != null <==> HasMeta(run.effects, t, old(t.metatable != null))
    {
      hide Contents, Bindings, HasMeta, RunWithin, Clean, EntriesWithin;
      var globals;
      if useVM {
        var reuse := bytecode.Some?;
        globals, news := PerformAll(run.effects, if reuse then bytecode.value else interp);
        if run.ending.Failed? {
          if reuse {
            bytecode := Some(globals);
          }
          return false, news;
        }
        ghost var start := if reuse then bytecode.value else interp;
        BindingsOver(run.effects, interp, start, news);
        assert Synced() ==> interp + start == interp;
        bytecode := Some(globals);
        SyncBytecodeGlobals();
      } else {
        globals, news := PerformAll(run.effects, interp);
        interp := globals;
      }
      ok := run.ending.Completed?;
    }

    // The same restoration, seen on the heap of U and the copies.
    method Refill(before: Globals, snapshot: Globals, ghost memo: map<Table, Table>, ghost U: set<Table>)
      requires GlobalTables(before) <= memo.Keys * U && U !! memo.Values && memo.Keys !! memo.Values
      requires snapshot.Keys == before.Keys
      requires forall n | n in before :: Within(before[n], memo.Keys) && snapshot[n] == Image(before[n], memo)
      requires ClosedHeap(View(U)) && ClosedHeap(View(memo.Values))
      modifies this`interp, this`bytecode, GlobalTables(before)
      ensures interp == before && bytecode == None
      ensures RefilledHeap(old(View(U)), old(View(memo.Values)), View(U + memo.Values), GlobalTables(before), memo)
      ensures forall t | t in GlobalTables(before) :: Refilled(t, memo[t], old(t.metatable))
    {
      hide ClosedHeap, Clean, RefilledHeap;
      ghost var h1, c := View(U), View(memo.Values);
      CleanAt(U);
      CleanAt(memo.Values);
      RestoreFromSnapshot(before, snapshot, memo, memo.Values);
      RefilledView(U, h1, c, GlobalTables(before), memo);
    }

    // Restores the bindings and tables that a failed run has left in any state.
    method RollBack(before: Globals, snapshot: Globals, ghost memo: map<Table, Table>, ghost h0: Heap, ghost made: set<Table>)
      requires Closed(tables + made) && GlobalTables(before) <= memo.Keys
      requires h0.Keys == tables && IsSnapshot(h0, View(memo.Values), memo) && memo.Values !! tables + made
      requires snapshot.Keys == before.Keys
      requires forall n | n in before :: Within(before[n], memo.Keys) && snapshot[n] == Image(before[n], memo)
      modifies this, GlobalTables(before)
      ensures Valid() && interp == before && bytecode == None
      ensures tables == old(tables) + made + memo.Values
      ensures RolledBack(h0, View(tables), before, memo)
      ensures RefilledHeap(old(View(tables + made)), old(View(memo.Values)), View(tables), GlobalTables(before), memo)
      ensures UnfoldAlike(h0, View(tables), before, memo.Keys)
      ensures forall t | t in GlobalTables(before) :: Refilled(t, memo[t], old(t.metatable))
    {
      hide MirrorsOn, Injective, Closed, ClosedHeap, IsSnapshot, RolledBack, UnfoldAlike, RefilledHeap, View;
      ghost var h1, c, U := View(tables + made), View(memo.Values), tables + made;
      SnapshotFacts(h0, c, memo);
      ClosedIsClosedHeap(U);
      ViewKeys(U);
      Refill(before, snapshot, memo, U);
      tables := U + memo.Values;
      RefilledClosed(h1, c, View(tables), GlobalTables(before), memo);
      RefilledRollsBack(h0, h1, c, View(tables), before, memo);
      RolledBackUnfoldAll(h0, View(tables), before, memo);
      ClosedIsClosedHeap(tables);
      GlobalsWithinMore(before, memo.Keys, tables);
    }

    // The bindings before a reload and a deep copy of everything they lead to.
    method TakeSnapshot() returns (before: Globals, beforeDeep: Globals, ghost memo: map<Table, Table>)
      requires Valid()
      modifies this`interp
      ensures Valid() && before == interp == old(Visible()) && Synced() && GlobalsWithin(before, tables)
      ensures fresh(memo.Values) && IsSnapshot(View(tables), View(memo.Values), memo)
      ensures GlobalTables(before) <= memo.Keys <= tables && beforeDeep.Keys == before.Keys
      ensures memo.Keys == Reach(View(tables), GlobalTables(before))
      ensures forall n | n in before :: Within(before[n], memo.Keys) && beforeDeep[n] == Image(before[n], memo)
      ensures forall t | t in memo :: memo[t].metatable == t.metatable
    {
      hide MirrorsOn, Injective, CopiedSince, Closed, IsSnapshot;
      before := SnapshotGlobals();
      ghost var G := Reach(View(tables), GlobalTables(before));
      ReachIsHeap(tables, before);
      beforeDeep, memo := DeepSnapshotGlobals(before, G);
      SnapshotIsSnapshot(memo, tables);
      MemoIsReach(tables, before, memo);
    }

    // Applies a program; a failed run leaves no trace on the globals or their tables.
    method ApplyProgram(run: Run, preserve: bool, pick: Pick) returns (ok: bool, ghost memo: map<Table, Table>, ghost news: seq<Table>)
      requires Valid() && RunWithin(run.effects, tables)
      modifies this, tables
      ensures Valid() && old(tables) <= tables && fresh(tables - old(tables))
      ensures ok <==> run.ending.Completed?
      ensures !ok ==> interp == old(Visible()) && bytecode == None
      ensures !ok ==> RolledBack(old(View(tables)), View(tables), interp, memo)
      ensures !ok ==> MetasRestored(old(Metas(tables)), Metas(tables), GlobalTables(interp), run.effects)
      ensures !ok ==> UnfoldAlike(old(View(tables)), View(tables), interp, memo.Keys)
      ensures !ok ==> memo.Keys == Reach(old(View(tables)), GlobalTables(interp))
      ensures !ok ==> OthersAsLeft(Contents(run.effects, old(View(tables)), news), View(tables), GlobalTables(interp))
      ensures ok ==> Synced()
      ensures ok ==> var ran := Bindings(run.effects, old(Visible()), news);
                     interp == if preserve then Rebound(old(Visible()), ran) else ran
      ensures ok && preserve ==> var was, ran := old(Visible()), Bindings(run.effects, old(Visible()), news);
                                 && interp.Keys == ran.Keys
                                 && (forall n | n in ran && n !in was :: interp[n] == ran[n])
                                 && (forall n | n in ran && n in was ::
                                       interp[n] == if was[n].Function? || ran[n].Function? then ran[n] else was[n])
      ensures ok && !preserve ==> View(tables) == Contents(run.effects, old(View(tables)), news)
      ensures ok && preserve ==>
                Carried(old(Visible()), Bindings(run.effects, old(Visible()), news),
                        Contents(run.effects, old(View(tables)), news), View(tables), pick)
    {
      hide UnfoldAlike, IsSnapshot, RolledBack, Closed, KeepsHeap, HasMeta, RunWithin, Rebound, Bindings, Contents, Elems, Reach, MergedGlobals, MayMerge, RefilledHeap, OthersAsLeft, ClosedHeap, Injective, MirrorsOn;
      ghost var h0, m0 := View(tables), Metas(tables);
      var before, beforeDeep;
      before, beforeDeep, memo := TakeSnapshot();
      ghost var c := View(memo.Values);
      ok, news := RunContext(run);
      ghost var made := Elems(news);
      if !ok {
        assert View(memo.Values) == c;
        ghost var h1 := View(tables + made);
        RollBack(before, beforeDeep, memo, h0, made);
        RefilledOthers(h1, c, View(tables), GlobalTables(before), memo);
      } else {
        tables := tables + made;
        if preserve {
          PreserveHotReloadState(before, pick);
        }
      }
    }
  }

  // A failed run that gives a global table its first metatable leaves it there.
  method FailedRunLeavesMetatable(vm: VM, n: string, t: Table)
    requires vm.Valid() && n in vm.Visible() && vm.Visible()[n] == TableRef(t) && t.metatable == null
    modifies vm, vm.tables
    ensures vm.Valid() && n in vm.interp && vm.interp[n] == TableRef(t) && t.metatable != null
  {
    hide RolledBack, UnfoldAlike, Bindings, HasMeta, Closed;
    var effects := [Make, SetMeta(Known(TableRef(t)), Made(0))];
    LeavesMeta(effects, t);
    var ok, memo, news := vm.ApplyProgram(Run(effects, Failed), true, (_, _) => Nil);
    assert t in GlobalTables(vm.interp);
  }

  lemma LeavesMeta(effects: seq<Effect>, t: Table)
    requires effects == [Make, SetMeta(Known(TableRef(t)), Made(0))]
    ensures HasMeta(effects, t, false)
  {
    assert effects[..1] == [Make] && effects[..1][..0] == [];
  }
}
