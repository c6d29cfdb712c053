/** What the static check guarantees about runs that jump within a function body. */
module GotoRuns {
  import opened Wrappers
  import opened LabelControl

  // The interpreter unwinds to a block around the goto that has the label; the bytecode VM
  // jumps to wherever in the body the label stands.
  datatype Engine = Interpreter | Bytecode

  // A statement of a block of a function body, or the end of the block.
  datatype Place = Place(path: Path, index: nat)

  // Where control is, and the places whose locals have been executed and are still in scope.
  datatype State = State(at: Place, live: set<Place>)

  // The block of a body that a path leads to.
  function BlockAt(body: Block, path: Path): Option<Block>
    decreases |path|
  {
    if path == [] then Some(body)
    else
      var (i, k) := path[0];
      if i < |body.stmts| && body.stmts[i].Nest? && k < |body.stmts[i].bodies|
      then BlockAt(body.stmts[i].bodies[k], path[1..]) else None
  }

  function StmtAt(body: Block, p: Place): Option<Stmt> {
    match BlockAt(body, p.path)
    case None => None
    case Some(b) => if p.index < |b.stmts| then Some(b.stmts[p.index]) else None
  }

  predicate IsLocal(body: Block, l: Place) {
    StmtAt(body, l).Some? && IntroducesLocal(StmtAt(body, l).value)
  }

  // l stands before p in a block around p, or is the very statement p stands in, as a loop is.
  predicate Above(l: Place, p: Place) {
    l.path <= p.path && if l.path == p.path then l.index < p.index else l.index <= p.path[|l.path|].0
  }

  predicate InScope(body: Block, l: Place, p: Place) {
    IsLocal(body, l) && Above(l, p)
  }

  function Own(body: Block, p: Place): set<Place> {
    if IsLocal(body, p) then {p} else {}
  }

  predicate IsLoop(body: Block, p: Place) {
    StmtAt(body, p).Some? && StmtAt(body, p).value.Nest? && StmtAt(body, p).value.kind in {ForStmt, ForNumStmt, ForRangeStmt}
  }

  // A goto and a return do not go on to the next statement, and a block is always entered.
  predicate MayPass(s: Stmt) {
    !s.GotoStmt? && !(s.Nest? && s.kind == BlockStmt) && !(s.Exprs? && s.exprKind == ReturnStmt)
  }

  // Control passes a statement, enters one of its blocks, leaves a block at its end, or leaves
  // a loop early; a loop may start over. Conditions are opaque.
  ghost predicate Moves(body: Block, p: Place, p': Place) {
    var s := StmtAt(body, p);
    || (s.Some? && MayPass(s.value) && p' == Place(p.path, p.index + 1))
    || (s.Some? && s.value.Nest? && exists k: nat :: k < |s.value.bodies| && p' == Place(p.path + [(p.index, k)], 0))
    || (s.None? && p.path != [] && Leaves(body, p, |p.path| - 1, p'))
    || (s == Some(Other) && exists n: nat ::
          n < |p.path| && IsLoop(body, Place(p.path[..n], p.path[n].0)) && Leaves(body, p, n, p'))
  }

  predicate Leaves(body: Block, p: Place, n: nat, p': Place)
    requires n < |p.path|
  {
    var around := Place(p.path[..n], p.path[n].0);
    p' == Place(around.path, around.index + 1) || (IsLoop(body, around) && p' == Place(p.path[..n + 1], 0))
  }

  predicate Jumps(engine: Engine, body: Block, p: Place, p': Place) {
    var (s, t) := (StmtAt(body, p), StmtAt(body, p'));
    && s.Some? && s.value.GotoStmt? && t == Some(LabelStmt(s.value.name))
    && (engine.Interpreter? ==> p'.path <= p.path)
  }

  // Leaving the scope of a local forgets it.
  ghost predicate Step(engine: Engine, body: Block, s: State, s': State) {
    && (Moves(body, s.at, s'.at) || Jumps(engine, body, s.at, s'.at))
    && s'.live == set l | l in s.live + Own(body, s.at) && InScope(body, l, s'.at)
  }

  function End(run: seq<State>): State
    requires run != []
  {
    run[|run| - 1]
  }

  ghost predicate IsRun(engine: Engine, body: Block, run: seq<State>) {
    && run != [] && run[0] == State(Place([], 0), {})
    && forall i | 0 <= i < |run| - 1 :: Step(engine, body, run[i], run[i + 1])
  }

  // Of the locals of the block at `path`, exactly those above control have been executed.
  ghost predicate Safe(body: Block, path: Path, s: State) {
    forall k: nat :: Place(path, k) in s.live <==> InScope(body, Place(path, k), s.at)
  }

  ghost predicate AllRunsSafe(engine: Engine, body: Block, path: Path) {
    forall run: seq<State> | IsRun(engine, body, run) :: Safe(body, path, End(run))
  }

  // Some local of the block at `path` is above p' but not above p.
  ghost predicate Skips(body: Block, path: Path, p: Place, p': Place) {
    exists k: nat :: InScope(body, Place(path, k), p') && !InScope(body, Place(path, k), p)
  }

  // No run reaches a goto that skips a local of the block at `path`; `across` looks only at
  // gotos to a label of another block than their own.
  ghost predicate NoReachableSkip(engine: Engine, body: Block, path: Path, across: bool) {
    forall run: seq<State>, p': Place | IsRun(engine, body, run) && Jumps(engine, body, End(run).at, p') && Skips(body, path, End(run).at, p') ::
      across && p'.path == End(run).at.path
  }

  // However control moves without a jump, only the local of the statement it passes comes above it.
  lemma MovesKeepScope(body: Block, p: Place, p': Place, l: Place)
    requires Moves(body, p, p') && InScope(body, l, p')
    ensures InScope(body, l, p) || l == p
  {
    hide StmtAt, IsLocal, IsLoop;
    var s := StmtAt(body, p);
    if s.Some? && s.value.Nest? && exists k: nat :: k < |s.value.bodies| && p' == Place(p.path + [(p.index, k)], 0) {
      if l.path != p.path {
        assert |l.path| < |p.path| && p'.path[|l.path|] == p.path[|l.path|];
      }
    } else if p'.path != p.path {
      var n: nat :| n < |p.path| && Leaves(body, p, n, p');
      if l.path != p'.path {
        assert p'.path[|l.path|] == p.path[|l.path|];
      }
    }
  }

  lemma StepSafe(engine: Engine, body: Block, path: Path, s: State, s': State)
    requires Safe(body, path, s) && Step(engine, body, s, s')
    requires !(Jumps(engine, body, s.at, s'.at) && Skips(body, path, s.at, s'.at))
    ensures Safe(body, path, s')
  {
    hide Moves, Jumps, InScope, StmtAt;
    forall k: nat | InScope(body, Place(path, k), s'.at)
      ensures Place(path, k) in s'.live
    {
      if Moves(body, s.at, s'.at) {
        MovesKeepScope(body, s.at, s'.at, Place(path, k));
        OwnLocal(body, Place(path, k), s'.at);
      }
    }
  }

  lemma OwnLocal(body: Block, l: Place, p: Place)
    requires InScope(body, l, p)
    ensures l in Own(body, l)
  {
  }

  lemma {:induction false} SafeWithoutSkips(engine: Engine, body: Block, path: Path, run: seq<State>)
    requires IsRun(engine, body, run) && NoReachableSkip(engine, body, path, false)
    ensures Safe(body, path, End(run))
    decreases |run|
  {
    hide Step, Safe, Jumps, Skips;
    if |run| > 1 {
      var before := run[..|run| - 1];
      SafeWithoutSkips(engine, body, path, before);
      assert Step(engine, body, run[|run| - 2], run[|run| - 1]);
      StepSafe(engine, body, path, End(before), End(run));
    } else {
      StartSafe(body, path);
    }
  }

  lemma StartSafe(body: Block, path: Path)
    ensures Safe(body, path, State(Place([], 0), {}))
  {
  }

  // A reachable jump over a local leads to a state where it is in scope but never executed.
  lemma SkipIsUnsafe(engine: Engine, body: Block, path: Path, run: seq<State>, p': Place)
    requires IsRun(engine, body, run) && Safe(body, path, End(run))
    requires Jumps(engine, body, End(run).at, p') && Skips(body, path, End(run).at, p')
    ensures !AllRunsSafe(engine, body, path)
  {
    hide Jumps, InScope, Moves;
    var s := End(run);
    var s' := State(p', set l | l in s.live + Own(body, s.at) && InScope(body, l, p'));
    var longer := run + [s'];
    assert Step(engine, body, s, s');
    forall i | 0 <= i < |longer| - 1
      ensures Step(engine, body, longer[i], longer[i + 1])
    {
      assert longer[i] == run[i];
    }
    assert IsRun(engine, body, longer);
    var k: nat :| InScope(body, Place(path, k), p') && !InScope(body, Place(path, k), s.at);
    GotoOwnsNothing(engine, body, s.at, p');
    assert Place(path, k) !in s'.live;
    assert !Safe(body, path, End(longer));
  }

  lemma GotoOwnsNothing(engine: Engine, body: Block, p: Place, p': Place)
    requires Jumps(engine, body, p, p')
    ensures Own(body, p) == {}
  {
  }

  // The condition is exact: all runs keep to the scope of a block's locals exactly if none
  // reaches a goto that skips one, from within the block or from anywhere else in the body.
  lemma SafeExactly(engine: Engine, body: Block, path: Path)
    ensures AllRunsSafe(engine, body, path) <==> NoReachableSkip(engine, body, path, false)
  {
    hide Step, Safe, Skips, Jumps;
    if NoReachableSkip(engine, body, path, false) {
      forall run: seq<State> | IsRun(engine, body, run)
        ensures Safe(body, path, End(run))
      {
        SafeWithoutSkips(engine, body, path, run);
      }
    }
    if AllRunsSafe(engine, body, path) {
      forall run: seq<State>, p': Place | IsRun(engine, body, run) && Jumps(engine, body, End(run).at, p')
        ensures !Skips(body, path, End(run).at, p')
      {
        if Skips(body, path, End(run).at, p') {
          SkipIsUnsafe(engine, body, path, run, p');
        }
      }
    }
  }

  // ---------------------------------------------------------------------------------
  // Accepted bodies

  lemma {:induction false} MarksOfStmt(b: Block, n: nat, i: nat, path: Path, m: Mark)
    requires i < n <= |b.stmts| && m in StmtMarks(b, b.stmts[i], i, path)
    ensures m in Marks(b, n, path)
  {
    if i < n - 1 {
      MarksOfStmt(b, n - 1, i, path, m);
    }
  }

  lemma {:induction false} MarksOfNest(s: Stmt, n: nat, k: nat, i: nat, path: Path, m: Mark)
    requires s.Nest? && k < n <= |s.bodies| && m in AllMarks(s.bodies[k], path + [(i, k)])
    ensures m in NestMarks(s, n, i, path)
  {
    if k < n - 1 {
      MarksOfNest(s, n - 1, k, i, path, m);
    }
  }

  // What stands in a block of a body is seen by the walk over the body.
  lemma {:induction false} MarksBelow(body: Block, base: Path, path: Path, m: Mark)
    requires BlockAt(body, path).Some? && m in AllMarks(BlockAt(body, path).value, base + path)
    ensures m in AllMarks(body, base)
    decreases |path|
  {
    if path == [] {
      assert base + path == base;
    } else {
      var (i, k) := path[0];
      assert base + [(i, k)] + path[1..] == base + path;
      MarksBelow(body.stmts[i].bodies[k], base + [(i, k)], path[1..], m);
      MarksOfNest(body.stmts[i], |body.stmts[i].bodies|, k, i, base, m);
      MarksOfStmt(body, |body.stmts|, i, base, m);
    }
  }

  lemma {:induction false} GotosHold(marks: seq<Mark>, m: Mark)
    requires m in marks && m.isGoto
    ensures m in Gotos(marks)
    decreases |marks|
  {
    if m != marks[|marks| - 1] {
      assert marks == marks[..|marks| - 1] + [marks[|marks| - 1]];
      GotosHold(marks[..|marks| - 1], m);
    }
  }

  // The walk over the body records what stands at a place.
  lemma MarkAt(body: Block, p: Place)
    requires StmtAt(body, p).Some? && (StmtAt(body, p).value.GotoStmt? || StmtAt(body, p).value.LabelStmt?)
    ensures var s := StmtAt(body, p).value;
            Mark(s.GotoStmt?, s.name, p.path, BlockAt(body, p.path).value, p.index) in AllMarks(body, [])
  {
    var b, s := BlockAt(body, p.path).value, StmtAt(body, p).value;
    var m := Mark(s.GotoStmt?, s.name, p.path, b, p.index);
    assert [] + p.path == p.path;
    MarksOfStmt(b, |b.stmts|, p.index, p.path, m);
    MarksBelow(body, [], p.path, m);
  }

  // In an accepted body, a goto skips no local on its way to a label of its own block.
  lemma DirectGotosDoNotSkip(engine: Engine, body: Block, path: Path, p: Place, p': Place)
    requires Rule(body) && Jumps(engine, body, p, p') && p'.path == p.path
    ensures !Skips(body, path, p, p')
  {
    hide AllMarks;
    var marks := AllMarks(body, []);
    var b, name := BlockAt(body, p.path).value, StmtAt(body, p).value.name;
    var g, l := Mark(true, name, p.path, b, p.index), Mark(false, name, p.path, b, p'.index);
    MarkAt(body, p);
    MarkAt(body, p');
    GotosHold(marks, g);
    var target :| target in marks && !target.isGoto && target.name == name && Allowed(g, target);
    var i :| 0 <= i < |marks| && marks[i] == target;
    var j :| 0 <= j < |marks| && marks[j] == l;
    assert target == l;
    forall k: nat | InScope(body, Place(path, k), p')
      ensures InScope(body, Place(path, k), p)
    {
      assert path == p.path ==> IntroducesLocal(b.stmts[k]) && !(p.index < k < p'.index);
    }
  }

  // So in an accepted body the condition is about gotos across blocks only: out of an inner
  // block over a local of an outer one, or into a block that is not around the goto.
  lemma AcceptedSafeExactly(engine: Engine, body: Block, path: Path)
    requires Rule(body)
    ensures AllRunsSafe(engine, body, path) <==> NoReachableSkip(engine, body, path, true)
  {
    hide Rule, Step, Skips, Jumps;
    SafeExactly(engine, body, path);
    forall run: seq<State>, p': Place | IsRun(engine, body, run) && Jumps(engine, body, End(run).at, p') && p'.path == End(run).at.path
      ensures !Skips(body, path, End(run).at, p')
    {
      DirectGotosDoNotSkip(engine, body, path, End(run).at, p');
    }
  }

  // A reader of the text can tell: it is enough that no goto of another block skips a local on
  // its way to its label.
  lemma NoSkipInTheText(engine: Engine, body: Block, path: Path)
    requires Rule(body)
    requires forall g, l | g in AllMarks(body, []) && l in AllMarks(body, []) && g.isGoto && !l.isGoto && g.name == l.name ::
               g.path == l.path || !Skips(body, path, Place(g.path, g.index), Place(l.path, l.index))
    ensures AllRunsSafe(engine, body, path)
  {
    hide Rule, AllMarks, Step, BlockAt, Skips;
    forall run: seq<State>, p': Place | IsRun(engine, body, run) && Jumps(engine, body, End(run).at, p') && Skips(body, path, End(run).at, p')
      ensures p'.path == End(run).at.path
    {
      MarkAt(body, End(run).at);
      MarkAt(body, p');
    }
    AcceptedSafeExactly(engine, body, path);
  }

  // Whatever mix of jumps forward and back: if every goto of the body to a label in or below
  // a block stands in the label's own block, the locals of that block are safe on all runs.
  lemma AcceptedIsSafe(engine: Engine, body: Block, path: Path)
    requires Rule(body)
    requires forall g, l | g in AllMarks(body, []) && l in AllMarks(body, []) && g.isGoto && !l.isGoto && g.name == l.name ::
               path <= l.path ==> g.path == l.path
    ensures AllRunsSafe(engine, body, path)
  {
    hide AllMarks, BlockAt;
    NoSkipInTheText(engine, body, path);
  }

  // ---------------------------------------------------------------------------------
  // What the check lets through

  // if c { goto L }; x := 1; L:
  const NESTED_SKIP := Block([
    Nest(IfStmt, [Block([GotoStmt("L")])]),
    Exprs(DeclareStmt, []),
    LabelStmt("L")])

  // { goto L }; { x := 1; L: }
  const SIBLING_JUMP := Block([
    Nest(BlockStmt, [Block([GotoStmt("L")])]),
    Nest(BlockStmt, [Block([Exprs(DeclareStmt, []), LabelStmt("L")])])])

  lemma NestedSkipMarks()
    ensures var inner := Block([GotoStmt("L")]);
            StmtMarks(NESTED_SKIP, NESTED_SKIP.stmts[0], 0, []) == [Mark(true, "L", [(0, 0)], inner, 0)]
            && AllMarks(NESTED_SKIP, []) == [Mark(true, "L", [(0, 0)], inner, 0), Mark(false, "L", [], NESTED_SKIP, 2)]
    ensures Bodies(NESTED_SKIP) == [NESTED_SKIP]
  {
    var inner := Block([GotoStmt("L")]);
    var s := NESTED_SKIP.stmts[0];
    assert Marks(inner, 0, [(0, 0)]) == [];
    assert AllMarks(inner, [(0, 0)]) == [Mark(true, "L", [(0, 0)], inner, 0)];
    assert NestMarks(s, 0, 0, []) == [];
    var path: Path := [(0, 0)];
    assert [] + [(0, 0)] == path;
    assert NestMarks(s, 1, 0, []) == AllMarks(inner, path);
    assert Marks(NESTED_SKIP, 0, []) == [];
    assert Marks(NESTED_SKIP, 1, []) == StmtMarks(NESTED_SKIP, s, 0, []);
    assert Marks(NESTED_SKIP, 2, []) == Marks(NESTED_SKIP, 1, []);
    assert Inner(inner, 0) == [] && Inner(inner, 1) == [];
    assert NestBodies(s, 0) == [] && NestBodies(s, 1) == [];
    assert ExprBodies(NESTED_SKIP.stmts[1], 0) == [];
    assert Inner(NESTED_SKIP, 0) == [] && Inner(NESTED_SKIP, 1) == [] && Inner(NESTED_SKIP, 2) == [] && Inner(NESTED_SKIP, 3) == [];
  }

  lemma OneGoto(b: Block, g: Mark, l: Mark)
    requires AllMarks(b, []) == [g, l] && g.isGoto && !l.isGoto && g.name == l.name && Allowed(g, l)
    ensures Rule(b)
  {
    var marks := AllMarks(b, []);
    assert Gotos(marks) == [g] by {
      assert marks[..1] == [g] && [g][..0] == [];
      assert Gotos([g]) == Gotos([]) + [g] && Gotos(marks) == Gotos(marks[..1]);
    }
  }

  // A goto in an inner block may jump over a local of the block around it.
  lemma NestedGotoMaySkip(engine: Engine)
    ensures AllRule(Bodies(NESTED_SKIP)) && !AllRunsSafe(engine, NESTED_SKIP, [])
  {
    hide AllMarks, Marks, StmtMarks, NestMarks, Bodies, Inner, Moves, Jumps, InScope, IsLocal, Rule;
    var b := NESTED_SKIP;
    NestedSkipMarks();
    OneGoto(b, AllMarks(b, [])[0], AllMarks(b, [])[1]);
    NestedSkipSteps(engine);
    var run := [State(Place([], 0), {}), State(Place([(0, 0)], 0), {})];
    assert Step(engine, b, run[0], run[1]);
    assert IsRun(engine, b, run);
    assert Skips(b, [], End(run).at, Place([], 2));
    SafeExactly(engine, b, []);
  }

  lemma NestedSkipSteps(engine: Engine)
    ensures var b, inner := NESTED_SKIP, Place([(0, 0)], 0);
            && Moves(b, Place([], 0), inner) && Jumps(engine, b, inner, Place([], 2))
            && InScope(b, Place([], 1), Place([], 2)) && !InScope(b, Place([], 1), inner) && !IsLocal(b, Place([], 0))
  {
    var b: Block, s: Stmt := NESTED_SKIP, NESTED_SKIP.stmts[0];
    var path: Path := [(0, 0)];
    assert [] + [(0, 0)] == path;
    assert BlockAt(b, path) == BlockAt(s.bodies[0], path[1..]);
    assert StmtAt(b, Place([], 0)) == Some(s);
    assert Place(path, 0) == Place(Place([], 0).path + [(0, 0 as nat)], 0) && 0 < |s.bodies|;
  }

  lemma SiblingJumpMarks()
    ensures var from, to := Block([GotoStmt("L")]), Block([Exprs(DeclareStmt, []), LabelStmt("L")]);
            AllMarks(SIBLING_JUMP, []) == [Mark(true, "L", [(0, 0)], from, 0), Mark(false, "L", [(1, 0)], to, 1)]
    ensures Bodies(SIBLING_JUMP) == [SIBLING_JUMP]
  {
    var b, from, to := SIBLING_JUMP, Block([GotoStmt("L")]), Block([Exprs(DeclareStmt, []), LabelStmt("L")]);
    var s, t := b.stmts[0], b.stmts[1];
    assert Marks(from, 0, [(0, 0)]) == [] && Marks(to, 0, [(1, 0)]) == [] && Marks(to, 1, [(1, 0)]) == [];
    assert NestMarks(s, 0, 0, []) == [] && NestMarks(t, 0, 1, []) == [];
    var p: Path, q: Path := [(0, 0)], [(1, 0)];
    assert [] + [(0, 0)] == p && [] + [(1, 0)] == q;
    assert AllMarks(from, p) == [Mark(true, "L", p, from, 0)] && AllMarks(to, q) == [Mark(false, "L", q, to, 1)];
    assert NestMarks(s, 1, 0, []) == AllMarks(from, p);
    assert NestMarks(t, 1, 1, []) == AllMarks(to, q);
    assert Marks(b, 0, []) == [];
    assert Marks(b, 1, []) == StmtMarks(b, s, 0, []);
    assert Marks(b, 2, []) == StmtMarks(b, s, 0, []) + StmtMarks(b, t, 1, []);
    assert ExprBodies(to.stmts[0], 0) == [];
    assert Inner(from, 0) == [] && Inner(from, 1) == [] && Inner(to, 0) == [] && Inner(to, 1) == [] && Inner(to, 2) == [];
    assert NestBodies(s, 0) == [] && NestBodies(s, 1) == [] && NestBodies(t, 0) == [] && NestBodies(t, 1) == [];
    assert Inner(b, 0) == [] && Inner(b, 1) == [] && Inner(b, 2) == [];
  }

  lemma SiblingJumpSteps()
    ensures var b, from, to := SIBLING_JUMP, Place([(0, 0)], 0), Place([(1, 0)], 1);
            && Moves(b, Place([], 0), from) && Jumps(Bytecode, b, from, to) && !IsLocal(b, Place([], 0))
            && InScope(b, Place([(1, 0)], 0), to) && !InScope(b, Place([(1, 0)], 0), from)
  {
    var b: Block, s: Stmt := SIBLING_JUMP, SIBLING_JUMP.stmts[0];
    var p: Path, q: Path := [(0, 0)], [(1, 0)];
    assert [] + [(0, 0)] == p;
    assert BlockAt(b, p) == BlockAt(s.bodies[0], p[1..]) && BlockAt(b, q) == BlockAt(b.stmts[1].bodies[0], q[1..]);
    assert StmtAt(b, Place([], 0)) == Some(s);
    assert Place(p, 0) == Place(Place([], 0).path + [(0, 0 as nat)], 0) && 0 < |s.bodies|;
    assert !(q <= p) by {
      assert p[0] != q[0];
    }
  }

  // Depth is compared as a number, so a goto may enter a block that does not enclose it. On the
  // bytecode VM it then skips that block's locals; the interpreter finds no such label.
  lemma GotoMayEnterSibling(path: Path)
    ensures AllRule(Bodies(SIBLING_JUMP))
    ensures !AllRunsSafe(Bytecode, SIBLING_JUMP, [(1, 0)])
    ensures AllRunsSafe(Interpreter, SIBLING_JUMP, path)
  {
    hide AllMarks, Marks, StmtMarks, NestMarks, Bodies, Inner, Moves, Jumps, InScope, IsLocal, Rule;
    var b := SIBLING_JUMP;
    SiblingJumpMarks();
    OneGoto(b, AllMarks(b, [])[0], AllMarks(b, [])[1]);
    SiblingJumpSteps();
    var run := [State(Place([], 0), {}), State(Place([(0, 0)], 0), {})];
    assert Step(Bytecode, b, run[0], run[1]);
    assert IsRun(Bytecode, b, run);
    assert Skips(b, [(1, 0)], End(run).at, Place([(1, 0)], 1));
    SafeExactly(Bytecode, b, [(1, 0)]);
    forall p, p': Place
      ensures !Jumps(Interpreter, b, p, p')
    {
      NoSiblingLabel(p, p');
    }
    AcceptedSafeExactly(Interpreter, b, path);
  }

  lemma NoSiblingLabel(p: Place, p': Place)
    ensures !Jumps(Interpreter, SIBLING_JUMP, p, p')
  {
    hide AllMarks;
    if Jumps(Interpreter, SIBLING_JUMP, p, p') {
      SiblingJumpMarks();
      MarkAt(SIBLING_JUMP, p);
      MarkAt(SIBLING_JUMP, p');
    }
  }
}
