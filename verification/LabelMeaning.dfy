/** The static check of labels, in terms of where statements and function bodies stand in the text. */
module LabelMeaning {
  import opened Wrappers
  import opened LabelControl
  import opened GotoRuns

  // ---------------------------------------------------------------------------------
  // Which function bodies a body holds

  // Where a function stands in a body: a declaration, or a literal among the operands of one of
  // the expressions of a statement.
  datatype Hole =
    | Declaration(path: Path, index: nat)
    | Literal(path: Path, index: nat, value: nat, operands: seq<nat>)

  function ExprAt(e: Expr, operands: seq<nat>): Option<Expr>
    decreases |operands|
  {
    if operands == [] then Some(e)
    else if e.Operands? && operands[0] < |e.parts| then ExprAt(e.parts[operands[0]], operands[1..])
    else None
  }

  // The body of the function that stands there, if one does.
  function HeldAt(b: Block, hole: Hole): Option<Block> {
    match StmtAt(b, Place(hole.path, hole.index))
    case Some(FuncDeclStmt(body)) => if hole.Declaration? then Some(body) else None
    case Some(Exprs(_, values)) =>
      if hole.Literal? && hole.value < |values| then
        match ExprAt(values[hole.value], hole.operands)
        case Some(FuncLit(body)) => Some(body)
        case _ => None
      else None
    case _ => None
  }

  // Functions inside functions.
  function BodyAt(b: Block, holes: seq<Hole>): Option<Block>
    decreases |holes|
  {
    if holes == [] then Some(b)
    else match HeldAt(b, holes[0])
      case None => None
      case Some(body) => BodyAt(body, holes[1..])
  }

  lemma {:induction false} InnerOfStmt(b: Block, n: nat, i: nat, x: Block)
    requires i < n <= |b.stmts| && x in StmtBodies(b.stmts[i])
    ensures x in Inner(b, n)
  {
    if i < n - 1 {
      InnerOfStmt(b, n - 1, i, x);
    }
  }

  lemma {:induction false} InnerOfNest(s: Stmt, n: nat, k: nat, x: Block)
    requires s.Nest? && k < n <= |s.bodies| && x in Inner(s.bodies[k], |s.bodies[k].stmts|)
    ensures x in NestBodies(s, n)
  {
    if k < n - 1 {
      InnerOfNest(s, n - 1, k, x);
    }
  }

  lemma {:induction false} InnerBelow(b: Block, path: Path, x: Block)
    requires BlockAt(b, path).Some? && x in Inner(BlockAt(b, path).value, |BlockAt(b, path).value.stmts|)
    ensures x in Inner(b, |b.stmts|)
    decreases |path|
  {
    if path != [] {
      var (i, k) := path[0];
      InnerBelow(b.stmts[i].bodies[k], path[1..], x);
      InnerOfNest(b.stmts[i], |b.stmts[i].bodies|, k, x);
      InnerOfStmt(b, |b.stmts|, i, x);
    }
  }

  lemma {:induction false} PartsHold(e: Expr, n: nat, k: nat, x: Block)
    requires e.Operands? && k < n <= |e.parts| && x in OneExprBodies(e.parts[k])
    ensures x in PartBodies(e, n)
  {
    if k < n - 1 {
      PartsHold(e, n - 1, k, x);
    }
  }

  lemma {:induction false} OperandsHold(e: Expr, operands: seq<nat>, x: Block)
    requires ExprAt(e, operands).Some? && x in OneExprBodies(ExprAt(e, operands).value)
    ensures x in OneExprBodies(e)
    decreases |operands|
  {
    if operands != [] {
      OperandsHold(e.parts[operands[0]], operands[1..], x);
      PartsHold(e, |e.parts|, operands[0], x);
    }
  }

  lemma {:induction false} ValuesHold(s: Stmt, n: nat, k: nat, x: Block)
    requires s.Exprs? && k < n <= |s.values| && x in OneExprBodies(s.values[k])
    ensures x in ExprBodies(s, n)
  {
    if k < n - 1 {
      ValuesHold(s, n - 1, k, x);
    }
  }

  // What a function held by a body holds, the body holds.
  lemma HeldIsInner(b: Block, hole: Hole, x: Block)
    requires HeldAt(b, hole).Some? && x in Bodies(HeldAt(b, hole).value)
    ensures x in Inner(b, |b.stmts|)
  {
    var c := BlockAt(b, hole.path).value;
    var s := c.stmts[hole.index];
    if hole.Literal? {
      OperandsHold(s.values[hole.value], hole.operands, x);
      ValuesHold(s, |s.values|, hole.value, x);
    }
    InnerOfStmt(c, |c.stmts|, hole.index, x);
    InnerBelow(b, hole.path, x);
  }

  lemma {:induction false} BodyIsHeld(b: Block, holes: seq<Hole>)
    requires BodyAt(b, holes).Some?
    ensures BodyAt(b, holes).value in Bodies(b)
    decreases |holes|
  {
    if holes != [] {
      BodyIsHeld(HeldAt(b, holes[0]).value, holes[1..]);
      HeldIsInner(b, holes[0], BodyAt(b, holes).value);
    }
  }

  // The same hole, seen from the block around the k-th block of statement i.
  function Outward(hole: Hole, i: nat, k: nat): Hole {
    hole.(path := [(i, k)] + hole.path)
  }

  lemma OutwardHolds(b: Block, i: nat, k: nat, holes: seq<Hole>)
    requires i < |b.stmts| && b.stmts[i].Nest? && k < |b.stmts[i].bodies| && holes != []
    ensures BodyAt(b, [Outward(holes[0], i, k)] + holes[1..]) == BodyAt(b.stmts[i].bodies[k], holes)
  {
    var hole := Outward(holes[0], i, k);
    assert hole.path[0] == (i, k) && hole.path[1..] == holes[0].path;
    assert ([hole] + holes[1..])[1..] == holes[1..];
  }

  lemma {:induction false} FindInner(b: Block, n: nat, x: Block) returns (holes: seq<Hole>)
    requires n <= |b.stmts| && x in Inner(b, n)
    ensures holes != [] && BodyAt(b, holes) == Some(x)
    decreases b, n
  {
    if x in Inner(b, n - 1) {
      holes := FindInner(b, n - 1, x);
    } else {
      holes := FindInStmt(b, n - 1, x);
    }
  }

  lemma {:induction false} FindInStmt(b: Block, i: nat, x: Block) returns (holes: seq<Hole>)
    requires i < |b.stmts| && x in StmtBodies(b.stmts[i])
    ensures holes != [] && BodyAt(b, holes) == Some(x)
    decreases b.stmts[i], 2, 0
  {
    match b.stmts[i]
    case Nest(_, bodies) =>
      holes := FindInNest(b, i, |bodies|, x);
    case FuncDeclStmt(body) =>
      var rest := FindBody(body, x);
      holes := [Declaration([], i)] + rest;
      assert holes[1..] == rest && HeldAt(b, holes[0]) == Some(body);
    case Exprs(_, values) =>
      holes := FindInValues(b, i, |values|, x);
    case _ =>
      assert false;
  }

  lemma {:induction false} FindBody(b: Block, x: Block) returns (holes: seq<Hole>)
    requires x in Bodies(b)
    ensures BodyAt(b, holes) == Some(x)
    decreases b, |b.stmts| + 1
  {
    holes := [];
    if x != b {
      holes := FindInner(b, |b.stmts|, x);
    }
  }

  lemma {:induction false} FindInNest(b: Block, i: nat, n: nat, x: Block) returns (holes: seq<Hole>)
    requires i < |b.stmts| && b.stmts[i].Nest? && n <= |b.stmts[i].bodies| && x in NestBodies(b.stmts[i], n)
    ensures holes != [] && BodyAt(b, holes) == Some(x)
    decreases b.stmts[i], 1, n
  {
    var s := b.stmts[i];
    if x in NestBodies(s, n - 1) {
      holes := FindInNest(b, i, n - 1, x);
    } else {
      var c := s.bodies[n - 1];
      var inside := FindInner(c, |c.stmts|, x);
      OutwardHolds(b, i, n - 1, inside);
      holes := [Outward(inside[0], i, n - 1)] + inside[1..];
    }
  }

  lemma {:induction false} FindInValues(b: Block, i: nat, n: nat, x: Block) returns (holes: seq<Hole>)
    requires i < |b.stmts| && b.stmts[i].Exprs? && n <= |b.stmts[i].values| && x in ExprBodies(b.stmts[i], n)
    ensures holes != [] && BodyAt(b, holes) == Some(x)
    decreases b.stmts[i], 1, n
  {
    var s := b.stmts[i];
    if x in ExprBodies(s, n - 1) {
      holes := FindInValues(b, i, n - 1, x);
    } else {
      var operands, body, rest := FindInExpr(s.values[n - 1], x);
      holes := [Literal([], i, n - 1, operands)] + rest;
      assert holes[1..] == rest && HeldAt(b, holes[0]) == Some(body);
    }
  }

  lemma {:induction false} FindInExpr(e: Expr, x: Block) returns (operands: seq<nat>, body: Block, rest: seq<Hole>)
    requires x in OneExprBodies(e)
    ensures ExprAt(e, operands) == Some(FuncLit(body)) && BodyAt(body, rest) == Some(x)
    decreases e, 1, 0
  {
    match e
    case FuncLit(f) =>
      operands, body := [], f;
      rest := FindBody(f, x);
    case Operands(parts) =>
      operands, body, rest := FindInParts(e, |parts|, x);
  }

  lemma {:induction false} FindInParts(e: Expr, n: nat, x: Block) returns (operands: seq<nat>, body: Block, rest: seq<Hole>)
    requires e.Operands? && n <= |e.parts| && x in PartBodies(e, n)
    ensures ExprAt(e, operands) == Some(FuncLit(body)) && BodyAt(body, rest) == Some(x)
    decreases e, 0, n
  {
    if x in PartBodies(e, n - 1) {
      operands, body, rest := FindInParts(e, n - 1, x);
    } else {
      var inside;
      inside, body, rest := FindInExpr(e.parts[n - 1], x);
      operands := [n - 1] + inside;
      assert operands[1..] == inside;
    }
  }

  // The walk reaches exactly the body itself and the bodies of the function declarations and
  // function literals in it, at any depth of blocks, operands and functions.
  lemma BodiesExactly(b: Block, x: Block)
    ensures x in Bodies(b) <==> exists holes :: BodyAt(b, holes) == Some(x)
  {
    if x in Bodies(b) {
      var holes := FindBody(b, x);
    }
    if exists holes :: BodyAt(b, holes) == Some(x) {
      var holes :| BodyAt(b, holes) == Some(x);
      BodyIsHeld(b, holes);
    }
  }

  // ---------------------------------------------------------------------------------
  // The rule, by places

  predicate Declares(s: Stmt) {
    s.FuncDeclStmt? || (s.Exprs? && s.exprKind.DeclareStmt?) || (s.Nest? && (s.kind.ForNumStmt? || s.kind.ForRangeStmt?))
  }

  // A goto at p may go to a label at q: q is no deeper, and if it is further down the same block,
  // no declaration and no counting loop stands between them.
  ghost predicate MayGo(b: Block, p: Place, q: Place) {
    && |q.path| <= |p.path|
    && (q.path == p.path ==> forall k | p.index < k < q.index ::
          StmtAt(b, Place(p.path, k)).Some? ==> !Declares(StmtAt(b, Place(p.path, k)).value))
  }

  ghost predicate OneLabelEach(b: Block) {
    forall p, q, name | StmtAt(b, p) == Some(LabelStmt(name)) && StmtAt(b, q) == Some(LabelStmt(name)) :: p == q
  }

  ghost predicate GotosMayGo(b: Block) {
    forall p, name | StmtAt(b, p) == Some(GotoStmt(name)) ::
      exists q :: StmtAt(b, q) == Some(LabelStmt(name)) && MayGo(b, p, q)
  }

  // Where a mark stands, relative to the block it was collected from.
  predicate MarkStands(b: Block, base: Path, m: Mark) {
    && base <= m.path && BlockAt(b, m.path[|base|..]) == Some(m.block) && m.index < |m.block.stmts|
    && m.block.stmts[m.index] == if m.isGoto then GotoStmt(m.name) else LabelStmt(m.name)
  }

  // Which statement of the block a mark belongs to, and which of its blocks.
  function TopOf(base: Path, m: Mark): nat
    requires base <= m.path
  {
    if m.path == base then m.index else m.path[|base|].0
  }

  lemma {:induction false} MarksStand(b: Block, n: nat, base: Path, m: Mark)
    requires n <= |b.stmts| && m in Marks(b, n, base)
    ensures MarkStands(b, base, m) && TopOf(base, m) < n
    decreases b, n
  {
    if m in Marks(b, n - 1, base) {
      MarksStand(b, n - 1, base, m);
    } else {
      StmtMarksStand(b, n - 1, base, m);
    }
  }

  lemma {:induction false} StmtMarksStand(b: Block, i: nat, base: Path, m: Mark)
    requires i < |b.stmts| && m in StmtMarks(b, b.stmts[i], i, base)
    ensures MarkStands(b, base, m) && TopOf(base, m) == i
    decreases b.stmts[i], 1, 0
  {
    if b.stmts[i].Nest? {
      var k := NestMarksStand(b, i, |b.stmts[i].bodies|, base, m);
    } else {
      assert m.path[|base|..] == [];
    }
  }

  lemma {:induction false} NestMarksStand(b: Block, i: nat, n: nat, base: Path, m: Mark) returns (k: nat)
    requires i < |b.stmts| && b.stmts[i].Nest? && n <= |b.stmts[i].bodies| && m in NestMarks(b.stmts[i], n, i, base)
    ensures k < n && m in AllMarks(b.stmts[i].bodies[k], base + [(i, k)]) && base + [(i, k)] <= m.path
    ensures MarkStands(b, base, m) && TopOf(base, m) == i && m.path != base
    decreases b.stmts[i], 0, n
  {
    var s := b.stmts[i];
    if m in NestMarks(s, n - 1, i, base) {
      k := NestMarksStand(b, i, n - 1, base, m);
    } else {
      k := n - 1;
      var c, inside := s.bodies[k], base + [(i, k)];
      MarksStand(c, |c.stmts|, inside, m);
      assert inside[|base|] == (i, k) && m.path[|base|] == (i, k);
      assert m.path[|base|..][1..] == m.path[|inside|..] && m.path[|base|..][0] == (i, k);
    }
  }

  // No goto and no label is collected twice.
  ghost predicate Distinct(marks: seq<Mark>) {
    forall i, j | 0 <= i < j < |marks| :: marks[i] != marks[j]
  }

  lemma DistinctConcat(a: seq<Mark>, b: seq<Mark>)
    requires Distinct(a) && Distinct(b) && forall m | m in a :: m !in b
    ensures Distinct(a + b)
  {
    forall i, j | 0 <= i < j < |a + b|
      ensures (a + b)[i] != (a + b)[j]
    {
      if i < |a| <= j {
        assert a[i] in a && b[j - |a|] in b;
      }
    }
  }

  lemma {:induction false} MarksDistinct(b: Block, n: nat, base: Path)
    requires n <= |b.stmts|
    ensures Distinct(Marks(b, n, base))
    decreases b, n
  {
    if n > 0 {
      var before, own := Marks(b, n - 1, base), StmtMarks(b, b.stmts[n - 1], n - 1, base);
      MarksDistinct(b, n - 1, base);
      StmtMarksDistinct(b, n - 1, base);
      forall m | m in before
        ensures m !in own
      {
        MarksStand(b, n - 1, base, m);
        if m in own {
          StmtMarksStand(b, n - 1, base, m);
        }
      }
      DistinctConcat(before, own);
    }
  }

  lemma {:induction false} StmtMarksDistinct(b: Block, i: nat, base: Path)
    requires i < |b.stmts|
    ensures Distinct(StmtMarks(b, b.stmts[i], i, base))
    decreases b.stmts[i], 1, 0
  {
    if b.stmts[i].Nest? {
      NestMarksDistinct(b, i, |b.stmts[i].bodies|, base);
    }
  }

  lemma MarkInBranch(c: Block, base: Path, i: nat, k: nat, m: Mark)
    requires m in AllMarks(c, base + [(i, k)])
    ensures |m.path| > |base| && m.path[|base|] == (i, k)
  {
    MarksStand(c, |c.stmts|, base + [(i, k)], m);
    assert (base + [(i, k)])[|base|] == (i, k);
  }

  lemma {:induction false} NestMarksDistinct(b: Block, i: nat, n: nat, base: Path)
    requires i < |b.stmts| && b.stmts[i].Nest? && n <= |b.stmts[i].bodies|
    ensures Distinct(NestMarks(b.stmts[i], n, i, base))
    decreases b.stmts[i], 0, n
  {
    if n > 0 {
      var s := b.stmts[i];
      var c, inside := s.bodies[n - 1], base + [(i, n - 1)];
      NestMarksDistinct(b, i, n - 1, base);
      MarksDistinct(c, |c.stmts|, inside);
      var before, own := NestMarks(s, n - 1, i, base), AllMarks(c, inside);
      forall m | m in before
        ensures m !in own
      {
        var k := NestMarksStand(b, i, n - 1, base, m);
        MarkInBranch(s.bodies[k], base, i, k, m);
        if m in own {
          MarkInBranch(c, base, i, n - 1, m);
        }
      }
      DistinctConcat(before, own);
    }
  }

  // The mark of what stands at a place.
  function MarkOf(b: Block, p: Place): Mark
    requires StmtAt(b, p).Some? && (StmtAt(b, p).value.GotoStmt? || StmtAt(b, p).value.LabelStmt?)
  {
    var s := StmtAt(b, p).value;
    Mark(s.GotoStmt?, s.name, p.path, BlockAt(b, p.path).value, p.index)
  }

  lemma PlaceOfMark(b: Block, m: Mark)
    requires m in AllMarks(b, [])
    ensures StmtAt(b, Place(m.path, m.index)) == Some(if m.isGoto then GotoStmt(m.name) else LabelStmt(m.name))
    ensures m == MarkOf(b, Place(m.path, m.index))
  {
    MarksStand(b, |b.stmts|, [], m);
    assert m.path[0..] == m.path;
  }

  lemma LabelsByPlaces(b: Block)
    ensures UniqueLabels(AllMarks(b, [])) <==> OneLabelEach(b)
  {
    hide AllMarks, BlockAt;
    var marks := AllMarks(b, []);
    if UniqueLabels(marks) {
      forall p, q, name | StmtAt(b, p) == Some(LabelStmt(name)) && StmtAt(b, q) == Some(LabelStmt(name))
        ensures p == q
      {
        MarkAt(b, p);
        MarkAt(b, q);
        var i :| 0 <= i < |marks| && marks[i] == MarkOf(b, p);
        var j :| 0 <= j < |marks| && marks[j] == MarkOf(b, q);
      }
    }
    if OneLabelEach(b) {
      CollectedOnce(b);
      forall i, j | 0 <= i < j < |marks| && !marks[i].isGoto && !marks[j].isGoto
        ensures marks[i].name != marks[j].name
      {
        PlaceOfMark(b, marks[i]);
        PlaceOfMark(b, marks[j]);
      }
    }
  }

  lemma CollectedOnce(b: Block)
    ensures Distinct(AllMarks(b, []))
  {
    MarksDistinct(b, |b.stmts|, []);
  }

  lemma AllowedByPlaces(b: Block, p: Place, q: Place)
    requires StmtAt(b, p).Some? && StmtAt(b, p).value.GotoStmt? && StmtAt(b, q).Some? && StmtAt(b, q).value.LabelStmt?
    ensures Allowed(MarkOf(b, p), MarkOf(b, q)) <==> MayGo(b, p, q)
  {
    hide BlockAt;
    var c := BlockAt(b, p.path).value;
    forall k: nat | k < |c.stmts|
      ensures StmtAt(b, Place(p.path, k)) == Some(c.stmts[k]) && (IntroducesLocal(c.stmts[k]) <==> Declares(c.stmts[k]))
    {
    }
  }

  lemma GotosByPlaces(b: Block)
    ensures GotosAllowed(Gotos(AllMarks(b, [])), AllMarks(b, [])) <==> GotosMayGo(b)
  {
    hide AllMarks, BlockAt, Allowed, MayGo;
    var marks := AllMarks(b, []);
    if GotosAllowed(Gotos(marks), marks) {
      forall p, name | StmtAt(b, p) == Some(GotoStmt(name))
        ensures exists q :: StmtAt(b, q) == Some(LabelStmt(name)) && MayGo(b, p, q)
      {
        var g := MarkOf(b, p);
        MarkAt(b, p);
        GotosHold(marks, g);
        var l :| l in marks && !l.isGoto && l.name == g.name && Allowed(g, l);
        var q := Place(l.path, l.index);
        PlaceOfMark(b, l);
        AllowedByPlaces(b, p, q);
        assert StmtAt(b, q) == Some(LabelStmt(name)) && MayGo(b, p, q);
      }
    }
    if GotosMayGo(b) {
      forall g | g in Gotos(marks)
        ensures exists l :: l in marks && !l.isGoto && l.name == g.name && Allowed(g, l)
      {
        GotosAreMarks(marks, g);
        PlaceOfMark(b, g);
        var p := Place(g.path, g.index);
        var q :| StmtAt(b, q) == Some(LabelStmt(g.name)) && MayGo(b, p, q);
        MarkAt(b, q);
        AllowedByPlaces(b, p, q);
        assert MarkOf(b, q) in marks && Allowed(g, MarkOf(b, q));
      }
    }
  }

  lemma {:induction false} GotosAreMarks(marks: seq<Mark>, g: Mark)
    requires g in Gotos(marks)
    ensures g in marks && g.isGoto
    decreases |marks|
  {
    if g in Gotos(marks[..|marks| - 1]) {
      GotosAreMarks(marks[..|marks| - 1], g);
    }
  }

  // A body obeys the rule exactly if no two of its labels have one name and each goto may go to a
  // label of its name.
  lemma RuleByPlaces(b: Block)
    ensures Rule(b) <==> OneLabelEach(b) && GotosMayGo(b)
  {
    hide AllMarks, UniqueLabels, GotosAllowed, OneLabelEach, GotosMayGo;
    LabelsByPlaces(b);
    GotosByPlaces(b);
  }

  // Accepting a body is accepting it and every function in it, by the text alone.
  lemma AcceptedExactly(b: Block)
    ensures AllRule(Bodies(b)) <==>
            forall holes | BodyAt(b, holes).Some? :: OneLabelEach(BodyAt(b, holes).value) && GotosMayGo(BodyAt(b, holes).value)
  {
    hide Bodies, BodyAt, OneLabelEach, GotosMayGo, Rule;
    if AllRule(Bodies(b)) {
      forall holes | BodyAt(b, holes).Some?
        ensures OneLabelEach(BodyAt(b, holes).value) && GotosMayGo(BodyAt(b, holes).value)
      {
        BodyIsHeld(b, holes);
        RuleByPlaces(BodyAt(b, holes).value);
      }
    } else {
      var x :| x in Bodies(b) && !Rule(x);
      var holes := FindBody(b, x);
      RuleByPlaces(x);
      assert BodyAt(b, holes).Some? && BodyAt(b, holes).value == x;
    }
  }
}
