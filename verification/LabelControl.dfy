/** The static check of labels and gotos, function by function. */
module LabelControl {
  import opened Wrappers

  // Statements that hold blocks, and statements whose expressions are walked, by kind. A
  // statement's absent blocks (no else branch, say) are left out of its list.
  datatype NestKind = BlockStmt | IfStmt | ForStmt | ForNumStmt | ForRangeStmt | EvaluateStmt
  datatype ExprKind = DeclareStmt | AssignStmt | CallStmt | ReturnStmt

  datatype Stmt =
    | LabelStmt(name: string)
    | GotoStmt(name: string)
    | Nest(kind: NestKind, bodies: seq<Block>)
    | FuncDeclStmt(body: Block)
    | Exprs(exprKind: ExprKind, values: seq<Expr>)
    | Other

  datatype Block = Block(stmts: seq<Stmt>)

  // Of an expression only function literals matter; the rest is its walked operands, in order.
  datatype Expr = FuncLit(funcBody: Block) | Operands(parts: seq<Expr>)

  predicate IntroducesLocal(s: Stmt) {
    match s
    case Exprs(kind, _) => kind == DeclareStmt
    case FuncDeclStmt(_) => true
    case Nest(kind, _) => kind == ForNumStmt || kind == ForRangeStmt
    case _ => false
  }

  // A block of a function body, by the statement and the branch taken at each level.
  type Path = seq<(nat, nat)>

  // A label or a goto, where it stands.
  datatype Mark = Mark(isGoto: bool, name: string, path: Path, block: Block, index: nat)

  // ---------------------------------------------------------------------------------
  // The labels and gotos of one function body, in the order of the text

  function Marks(b: Block, n: nat, path: Path): seq<Mark>
    requires n <= |b.stmts|
    decreases b, n
  {
    if n == 0 then [] else Marks(b, n - 1, path) + StmtMarks(b, b.stmts[n - 1], n - 1, path)
  }

  function StmtMarks(b: Block, s: Stmt, i: nat, path: Path): seq<Mark>
    decreases s, 1, 0
  {
    match s
    case LabelStmt(name) => [Mark(false, name, path, b, i)]
    case GotoStmt(name) => [Mark(true, name, path, b, i)]
    case Nest(_, bodies) => NestMarks(s, |bodies|, i, path)
    case _ => []
  }

  function NestMarks(s: Stmt, k: nat, i: nat, path: Path): seq<Mark>
    requires s.Nest? && k <= |s.bodies|
    decreases s, 0, k
  {
    if k == 0 then [] else NestMarks(s, k - 1, i, path) + AllMarks(s.bodies[k - 1], path + [(i, k - 1)])
  }

  function AllMarks(b: Block, path: Path): seq<Mark>
    decreases b, |b.stmts| + 1
  {
    Marks(b, |b.stmts|, path)
  }

  // ---------------------------------------------------------------------------------
  // The rule, and the function bodies it applies to

  ghost predicate UniqueLabels(marks: seq<Mark>) {
    forall i, j | 0 <= i < j < |marks| && !marks[i].isGoto && !marks[j].isGoto :: marks[i].name != marks[j].name
  }

  predicate SkipsLocal(g: Mark, target: Mark) {
    target.path == g.path && exists k | g.index < k < target.index && k < |g.block.stmts| :: IntroducesLocal(g.block.stmts[k])
  }

  predicate Allowed(g: Mark, target: Mark) {
    |target.path| <= |g.path| && !SkipsLocal(g, target)
  }

  // Every goto has a label of the same body, no deeper, and skips no local of their block.
  ghost predicate GotosAllowed(gotos: seq<Mark>, marks: seq<Mark>) {
    forall g | g in gotos :: exists target :: target in marks && !target.isGoto && target.name == g.name && Allowed(g, target)
  }

  ghost predicate Rule(body: Block) {
    var marks := AllMarks(body, []);
    UniqueLabels(marks) && GotosAllowed(Gotos(marks), marks)
  }

  function Gotos(marks: seq<Mark>): seq<Mark> {
    if marks == [] then []
    else
      var m := marks[|marks| - 1];
      Gotos(marks[..|marks| - 1]) + if m.isGoto then [m] else []
  }

  // The function bodies that the walk over a body reaches, itself first.
  function Bodies(b: Block): seq<Block>
    decreases b, |b.stmts| + 1
  {
    [b] + Inner(b, |b.stmts|)
  }

  function Inner(b: Block, n: nat): seq<Block>
    requires n <= |b.stmts|
    decreases b, n
  {
    if n == 0 then [] else Inner(b, n - 1) + StmtBodies(b.stmts[n - 1])
  }

  function StmtBodies(s: Stmt): seq<Block>
    decreases s, 1, 0
  {
    match s
    case Nest(_, bodies) => NestBodies(s, |bodies|)
    case FuncDeclStmt(body) => Bodies(body)
    case Exprs(_, values) => ExprBodies(s, |values|)
    case _ => []
  }

  function NestBodies(s: Stmt, k: nat): seq<Block>
    requires s.Nest? && k <= |s.bodies|
    decreases s, 0, k
  {
    if k == 0 then [] else NestBodies(s, k - 1) + Inner(s.bodies[k - 1], |s.bodies[k - 1].stmts|)
  }

  function ExprBodies(s: Stmt, k: nat): seq<Block>
    requires s.Exprs? && k <= |s.values|
    decreases s, 0, k
  {
    if k == 0 then [] else ExprBodies(s, k - 1) + OneExprBodies(s.values[k - 1])
  }

  function OneExprBodies(e: Expr): seq<Block>
    decreases e, 1, 0
  {
    match e
    case FuncLit(body) => Bodies(body)
    case Operands(parts) => PartBodies(e, |parts|)
  }

  function PartBodies(e: Expr, k: nat): seq<Block>
    requires e.Operands? && k <= |e.parts|
    decreases e, 0, k
  {
    if k == 0 then [] else PartBodies(e, k - 1) + OneExprBodies(e.parts[k - 1])
  }

  ghost predicate AllRule(bodies: seq<Block>) {
    forall b | b in bodies :: Rule(b)
  }

  // ---------------------------------------------------------------------------------
  // The tables the walk fills

  function AddLabels(labels: map<string, Mark>, marks: seq<Mark>): map<string, Mark> {
    if marks == [] then labels
    else
      var m := marks[|marks| - 1];
      var before := AddLabels(labels, marks[..|marks| - 1]);
      if m.isGoto then before else before[m.name := m]
  }

  // No label repeats one already in the table.
  predicate Fresh(labels: map<string, Mark>, marks: seq<Mark>) {
    if marks == [] then true
    else
      var m := marks[|marks| - 1];
      var rest := marks[..|marks| - 1];
      Fresh(labels, rest) && (m.isGoto || m.name !in AddLabels(labels, rest))
  }

  lemma {:induction false} TablesConcat(labels: map<string, Mark>, a: seq<Mark>, b: seq<Mark>)
    ensures AddLabels(labels, a + b) == AddLabels(AddLabels(labels, a), b)
    ensures Fresh(labels, a + b) <==> Fresh(labels, a) && Fresh(AddLabels(labels, a), b)
    ensures Gotos(a + b) == Gotos(a) + Gotos(b)
    decreases |b|
  {
    if b == [] {
      assert a + b == a;
    } else {
      TablesConcat(labels, a, b[..|b| - 1]);
      assert (a + b)[..|a + b| - 1] == a + b[..|b| - 1] && (a + b)[|a + b| - 1] == b[|b| - 1];
    }
  }

  lemma AllRuleNone()
    ensures AllRule([])
  {
  }

  lemma AllRuleConcat(a: seq<Block>, b: seq<Block>)
    ensures AllRule(a + b) <==> AllRule(a) && AllRule(b)
  {
  }

  // ---------------------------------------------------------------------------------
  // The walk

  datatype Error = Duplicate(name: string) | NotFound(name: string) | Deeper(name: string) | OverLocal(name: string)

  class LabelScope {
    var labels: map<string, Mark>
    var gotos: seq<Mark>

    constructor ()
      ensures labels == map[] && gotos == []
    {
      labels, gotos := map[], [];
    }

    method WalkBlock(b: Block, path: Path) returns (err: Option<Error>)
      modifies this
      ensures err.None? <==> Fresh(old(labels), AllMarks(b, path)) && AllRule(Inner(b, |b.stmts|))
      ensures err.None? ==> labels == AddLabels(old(labels), AllMarks(b, path)) && gotos == old(gotos) + Gotos(AllMarks(b, path))
      decreases b, |b.stmts| + 2
    {
      hide AllRule, Fresh, AddLabels, Gotos, Marks, StmtMarks, AllMarks, Inner, StmtBodies;
      BlockStart(b, path, labels);
      BlockEnd(b, path);
      for i := 0 to |b.stmts|
        invariant Fresh(old(labels), Marks(b, i, path)) && AllRule(Inner(b, i))
        invariant labels == AddLabels(old(labels), Marks(b, i, path))
        invariant gotos == old(gotos) + Gotos(Marks(b, i, path))
      {
        err := WalkStmt(b, i, path);
        BlockStep(b, i, path, old(labels));
        if err.Some? {
          RejectedEarly(b, i + 1, path, old(labels));
          return;
        }
      }
      err := None;
    }

    method WalkStmt(b: Block, i: nat, path: Path) returns (err: Option<Error>)
      requires i < |b.stmts|
      modifies this
      ensures err.None? <==> Fresh(old(labels), StmtMarks(b, b.stmts[i], i, path)) && AllRule(StmtBodies(b.stmts[i]))
      ensures err.None? ==> labels == AddLabels(old(labels), StmtMarks(b, b.stmts[i], i, path))
      ensures err.None? ==> gotos == old(gotos) + Gotos(StmtMarks(b, b.stmts[i], i, path))
      decreases b.stmts[i], 3, 0
    {
      hide Rule, AllRule, NestMarks, NestBodies, ExprBodies, Bodies;
      AllRuleNone();
      match b.stmts[i]
      case LabelStmt(name) =>
        var m := Mark(false, name, path, b, i);
        OneMark(labels, m);
        if name in labels {
          return Some(Duplicate(name));
        }
        labels := labels[name := m];
        err := None;
      case GotoStmt(name) =>
        var m := Mark(true, name, path, b, i);
        OneMark(labels, m);
        gotos := gotos + [m];
        err := None;
      case Nest(_, bodies) =>
        err := WalkNest(b.stmts[i], i, path);
      case FuncDeclStmt(body) =>
        err := ValidateLabelStmtList(body);
      case Exprs(_, values) =>
        err := WalkStmtExprs(b.stmts[i]);
      case Other =>
        err := None;
    }

    method WalkNest(s: Stmt, i: nat, path: Path) returns (err: Option<Error>)
      requires s.Nest?
      modifies this
      ensures err.None? <==> Fresh(old(labels), NestMarks(s, |s.bodies|, i, path)) && AllRule(NestBodies(s, |s.bodies|))
      ensures err.None? ==> labels == AddLabels(old(labels), NestMarks(s, |s.bodies|, i, path))
      ensures err.None? ==> gotos == old(gotos) + Gotos(NestMarks(s, |s.bodies|, i, path))
      decreases s, 2, 0
    {
      hide AllRule, Fresh, AddLabels, Gotos, AllMarks, NestMarks, Inner, NestBodies;
      NestStart(s, i, path, labels);
      for k := 0 to |s.bodies|
        invariant Fresh(old(labels), NestMarks(s, k, i, path)) && AllRule(NestBodies(s, k))
        invariant labels == AddLabels(old(labels), NestMarks(s, k, i, path))
        invariant gotos == old(gotos) + Gotos(NestMarks(s, k, i, path))
      {
        var body := s.bodies[k];
        err := WalkBlock(body, path + [(i, k)]);
        NestStep(s, k, i, path, old(labels));
        if err.Some? {
          NestRejectedEarly(s, k + 1, i, path, old(labels));
          return;
        }
      }
      err := None;
    }
  }

  method WalkStmtExprs(s: Stmt) returns (err: Option<Error>)
    requires s.Exprs?
    ensures err.None? <==> AllRule(ExprBodies(s, |s.values|))
    decreases s, 2, 0
  {
    hide Rule;
    for k := 0 to |s.values|
      invariant AllRule(ExprBodies(s, k))
    {
      err := WalkExpr(s.values[k]);
      AllRuleConcat(ExprBodies(s, k), OneExprBodies(s.values[k]));
      if err.Some? {
        ExprsRejectedEarly(s, k + 1);
        return;
      }
    }
    err := None;
  }

  method WalkExpr(e: Expr) returns (err: Option<Error>)
    ensures err.None? <==> AllRule(OneExprBodies(e))
    decreases e, 2, 0
  {
    hide Rule;
    match e
    case FuncLit(body) =>
      err := ValidateLabelStmtList(body);
    case Operands(parts) =>
      for k := 0 to |parts|
        invariant AllRule(PartBodies(e, k))
      {
        err := WalkExpr(parts[k]);
        AllRuleConcat(PartBodies(e, k), OneExprBodies(parts[k]));
        if err.Some? {
          PartsRejectedEarly(e, k + 1);
          return;
        }
      }
      err := None;
  }

  // Accepts a function body exactly if every body it reaches obeys the rule.
  method ValidateLabelStmtList(body: Block) returns (err: Option<Error>)
    ensures err.None? <==> AllRule(Bodies(body))
    decreases body, |body.stmts| + 3
  {
    hide Rule;
    var scope := new LabelScope();
    err := scope.WalkBlock(body, []);
    AllRuleConcat([body], Inner(body, |body.stmts|));
    ghost var marks := AllMarks(body, []);
    FreshIsUnique(marks);
    if err.Some? {
      RuleUnfolds(body);
      return;
    }
    err := CheckGotos(scope.gotos, scope.labels, marks);
    RuleUnfolds(body);
  }

  method CheckGotos(gotos: seq<Mark>, labels: map<string, Mark>, ghost marks: seq<Mark>) returns (err: Option<Error>)
    requires labels == AddLabels(map[], marks) && UniqueLabels(marks)
    ensures err.None? <==> GotosAllowed(gotos, marks)
  {
    for i := 0 to |gotos|
      invariant GotosAllowed(gotos[..i], marks)
    {
      var g := gotos[i];
      LabelFound(marks, g.name);
      if g.name !in labels {
        return Some(NotFound(g.name));
      }
      var target := labels[g.name];
      if |target.path| > |g.path| {
        assert !Allowed(g, target);
        return Some(Deeper(g.name));
      }
      if target.path == g.path && target.index > g.index {
        for k := g.index + 1 to target.index
          invariant forall j | g.index < j < k && j < |g.block.stmts| :: !IntroducesLocal(g.block.stmts[j])
        {
          if k < |g.block.stmts| && IntroducesLocal(g.block.stmts[k]) {
            assert !Allowed(g, target);
            return Some(OverLocal(g.name));
          }
        }
      }
      assert Allowed(g, target);
      assert gotos[..i + 1] == gotos[..i] + [g];
    }
    err := None;
    assert gotos[..|gotos|] == gotos;
  }

  // ---------------------------------------------------------------------------------
  // Steps of the proof

  lemma OneMark(labels: map<string, Mark>, m: Mark)
    ensures Fresh(labels, [m]) <==> m.isGoto || m.name !in labels
    ensures AddLabels(labels, [m]) == if m.isGoto then labels else labels[m.name := m]
    ensures Gotos([m]) == if m.isGoto then [m] else []
  {
    assert [m][..0] == [];
  }

  lemma BlockStart(b: Block, path: Path, labels: map<string, Mark>)
    ensures Fresh(labels, Marks(b, 0, path)) && AllRule(Inner(b, 0))
    ensures AddLabels(labels, Marks(b, 0, path)) == labels && Gotos(Marks(b, 0, path)) == []
  {
  }

  lemma BlockEnd(b: Block, path: Path)
    ensures AllMarks(b, path) == Marks(b, |b.stmts|, path)
  {
  }

  lemma BlockStep(b: Block, i: nat, path: Path, labels: map<string, Mark>)
    requires i < |b.stmts|
    ensures var (a, m) := (Marks(b, i, path), StmtMarks(b, b.stmts[i], i, path));
            var next := Marks(b, i + 1, path);
            && AddLabels(labels, next) == AddLabels(AddLabels(labels, a), m)
            && (Fresh(labels, next) <==> Fresh(labels, a) && Fresh(AddLabels(labels, a), m))
            && Gotos(next) == Gotos(a) + Gotos(m)
    ensures AllRule(Inner(b, i + 1)) <==> AllRule(Inner(b, i)) && AllRule(StmtBodies(b.stmts[i]))
  {
    TablesConcat(labels, Marks(b, i, path), StmtMarks(b, b.stmts[i], i, path));
    AllRuleConcat(Inner(b, i), StmtBodies(b.stmts[i]));
  }

  lemma NestStart(s: Stmt, i: nat, path: Path, labels: map<string, Mark>)
    requires s.Nest?
    ensures Fresh(labels, NestMarks(s, 0, i, path)) && AllRule(NestBodies(s, 0))
    ensures AddLabels(labels, NestMarks(s, 0, i, path)) == labels && Gotos(NestMarks(s, 0, i, path)) == []
  {
  }

  lemma NestStep(s: Stmt, k: nat, i: nat, path: Path, labels: map<string, Mark>)
    requires s.Nest? && k < |s.bodies|
    ensures var (a, m) := (NestMarks(s, k, i, path), AllMarks(s.bodies[k], path + [(i, k)]));
            var next := NestMarks(s, k + 1, i, path);
            && AddLabels(labels, next) == AddLabels(AddLabels(labels, a), m)
            && (Fresh(labels, next) <==> Fresh(labels, a) && Fresh(AddLabels(labels, a), m))
            && Gotos(next) == Gotos(a) + Gotos(m)
    ensures AllRule(NestBodies(s, k + 1)) <==> AllRule(NestBodies(s, k)) && AllRule(Inner(s.bodies[k], |s.bodies[k].stmts|))
  {
    TablesConcat(labels, NestMarks(s, k, i, path), AllMarks(s.bodies[k], path + [(i, k)]));
    AllRuleConcat(NestBodies(s, k), Inner(s.bodies[k], |s.bodies[k].stmts|));
  }

  lemma {:induction false} RejectedEarly(b: Block, n: nat, path: Path, labels: map<string, Mark>)
    requires n <= |b.stmts| && !(Fresh(labels, Marks(b, n, path)) && AllRule(Inner(b, n)))
    ensures !(Fresh(labels, AllMarks(b, path)) && AllRule(Inner(b, |b.stmts|)))
    decreases |b.stmts| - n
  {
    if n < |b.stmts| {
      TablesConcat(labels, Marks(b, n, path), StmtMarks(b, b.stmts[n], n, path));
      AllRuleConcat(Inner(b, n), StmtBodies(b.stmts[n]));
      RejectedEarly(b, n + 1, path, labels);
    }
  }

  lemma {:induction false} NestRejectedEarly(s: Stmt, k: nat, i: nat, path: Path, labels: map<string, Mark>)
    requires s.Nest? && k <= |s.bodies| && !(Fresh(labels, NestMarks(s, k, i, path)) && AllRule(NestBodies(s, k)))
    ensures !(Fresh(labels, NestMarks(s, |s.bodies|, i, path)) && AllRule(NestBodies(s, |s.bodies|)))
    decreases |s.bodies| - k
  {
    if k < |s.bodies| {
      TablesConcat(labels, NestMarks(s, k, i, path), AllMarks(s.bodies[k], path + [(i, k)]));
      AllRuleConcat(NestBodies(s, k), Inner(s.bodies[k], |s.bodies[k].stmts|));
      NestRejectedEarly(s, k + 1, i, path, labels);
    }
  }

  lemma {:induction false} ExprsRejectedEarly(s: Stmt, k: nat)
    requires s.Exprs? && k <= |s.values| && !AllRule(ExprBodies(s, k))
    ensures !AllRule(ExprBodies(s, |s.values|))
    decreases |s.values| - k
  {
    if k < |s.values| {
      AllRuleConcat(ExprBodies(s, k), OneExprBodies(s.values[k]));
      ExprsRejectedEarly(s, k + 1);
    }
  }

  lemma {:induction false} PartsRejectedEarly(e: Expr, k: nat)
    requires e.Operands? && k <= |e.parts| && !AllRule(PartBodies(e, k))
    ensures !AllRule(PartBodies(e, |e.parts|))
    decreases |e.parts| - k
  {
    if k < |e.parts| {
      AllRuleConcat(PartBodies(e, k), OneExprBodies(e.parts[k]));
      PartsRejectedEarly(e, k + 1);
    }
  }

  // The table holds a name exactly if some label has it, and then holds the last such label.
  lemma {:induction false} TableHolds(marks: seq<Mark>, name: string)
    ensures name in AddLabels(map[], marks) <==> exists m :: m in marks && !m.isGoto && m.name == name
    ensures name in AddLabels(map[], marks) ==>
              var m := AddLabels(map[], marks)[name]; m in marks && !m.isGoto && m.name == name
    decreases |marks|
  {
    if marks != [] {
      var rest, m := marks[..|marks| - 1], marks[|marks| - 1];
      TableHolds(rest, name);
      assert marks == rest + [m];
    }
  }

  lemma {:induction false} FreshIsUnique(marks: seq<Mark>)
    ensures Fresh(map[], marks) <==> UniqueLabels(marks)
    decreases |marks|
  {
    if marks != [] {
      var rest, m := marks[..|marks| - 1], marks[|marks| - 1];
      FreshIsUnique(rest);
      TableHolds(rest, m.name);
      OneMoreLabel(rest, m);
      assert marks == rest + [m];
    }
  }

  lemma OneMoreLabel(rest: seq<Mark>, m: Mark)
    ensures UniqueLabels(rest + [m]) <==> UniqueLabels(rest) && (m.isGoto || forall l | l in rest && !l.isGoto :: l.name != m.name)
  {
    var marks := rest + [m];
    assert forall i | 0 <= i < |rest| :: marks[i] == rest[i] && marks[i] in rest;
    assert marks[|rest|] == m;
    if UniqueLabels(marks) && !m.isGoto {
      forall l | l in rest && !l.isGoto
        ensures l.name != m.name
      {
        var i :| 0 <= i < |rest| && rest[i] == l;
        assert marks[i] == l;
      }
    }
  }

  // With unique labels, a name's entry is the only label it could mean.
  lemma LabelFound(marks: seq<Mark>, name: string)
    requires UniqueLabels(marks)
    ensures var labels := AddLabels(map[], marks);
            if name in labels then labels[name] in marks && !labels[name].isGoto && labels[name].name == name
              && forall m | m in marks && !m.isGoto && m.name == name :: m == labels[name]
            else forall m | m in marks && !m.isGoto :: m.name != name
  {
    TableHolds(marks, name);
    var labels := AddLabels(map[], marks);
    forall m | m in marks && !m.isGoto && m.name == name
      ensures name in labels && m == labels[name]
    {
      var i :| 0 <= i < |marks| && marks[i] == m;
      var j :| 0 <= j < |marks| && marks[j] == labels[name];
    }
  }

  lemma RuleUnfolds(body: Block)
    ensures var marks := AllMarks(body, []);
            AllRule([body]) <==> UniqueLabels(marks) && GotosAllowed(Gotos(marks), marks)
  {
    assert body in [body];
  }
}
