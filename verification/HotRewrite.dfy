/** Rewriting a program before a reload, so that it does not declare again what is kept. */
module HotRewrite {

  datatype Kind = ScalarKind | TableKind | FunctionKind

  datatype Target = Ident(name: string) | Place

  // Expressions and function bodies are known by their fingerprints, which are never empty.
  datatype Stmt =
    | FuncDecl(name: string, text: string)
    | Declare(names: seq<string>, values: seq<string>, readOnly: bool)
    | Assign(targets: seq<Target>)
    | Update(target: Target)          // compound assignments, increments and decrements
    | Other(id: int)

  function Fingerprint(prints: map<string, string>, name: string): string {
    if name in prints then prints[name] else ""
  }

  // The declared name keeps its old value: a scalar always, a function if its text is the same.
  predicate PreservesName(name: string, i: nat, values: seq<string>, before: map<string, Kind>, prints: map<string, string>) {
    name in before && match before[name]
      case TableKind => false
      case ScalarKind => true
      case FunctionKind => i < |values| && Fingerprint(prints, name) == values[i]
  }

  predicate HasState(name: string, before: map<string, Kind>) {
    name in before && !before[name].FunctionKind?
  }

  // Statements that would only declare or assign again what is kept.
  predicate Skips(stmt: Stmt, before: map<string, Kind>, prints: map<string, string>) {
    match stmt
    case FuncDecl(name, text) => Fingerprint(prints, name) == text
    case Declare(names, values, _) =>
      names != [] && forall i | 0 <= i < |names| :: PreservesName(names[i], i, values, before, prints)
    case Assign(targets) => targets != [] && forall t | t in targets :: t.Ident? && HasState(t.name, before)
    case Update(t) => t.Ident? && HasState(t.name, before)
    case Other(_) => false
  }

  method ShouldSkip(stmt: Stmt, before: map<string, Kind>, prints: map<string, string>) returns (skip: bool)
    ensures skip <==> Skips(stmt, before, prints)
  {
    match stmt
    case FuncDecl(name, text) =>
      return Fingerprint(prints, name) == text;
    case Declare(names, values, _) =>
      for i := 0 to |names|
        invariant forall k | 0 <= k < i :: PreservesName(names[k], k, values, before, prints)
      {
        if !PreservesName(names[i], i, values, before, prints) {
          return false;
        }
      }
      return |names| != 0;
    case Assign(targets) =>
      for i := 0 to |targets|
        invariant forall k | 0 <= k < i :: targets[k].Ident? && HasState(targets[k].name, before)
      {
        if !(targets[i].Ident? && HasState(targets[i].name, before)) {
          return false;
        }
      }
      return |targets| != 0;
    case Update(t) =>
      return t.Ident? && HasState(t.name, before);
    case Other(_) =>
      return false;
  }

  // ---------------------------------------------------------------------------------
  // The names that stay in a declaration

  // The positions below n whose names are declared again.
  function Kept(d: Stmt, n: nat, before: map<string, Kind>, prints: map<string, string>): seq<nat>
    requires d.Declare? && n <= |d.names|
  {
    if n == 0 then []
    else Kept(d, n - 1, before, prints) + if PreservesName(d.names[n - 1], n - 1, d.values, before, prints) then [] else [n - 1]
  }

  // The elements at some positions of s, which KeptBelow shows to be positions of s.
  function At(s: seq<string>, positions: seq<nat>): seq<string> {
    seq(|positions|, k requires 0 <= k < |positions| => if positions[k] < |s| then s[positions[k]] else "")
  }

  function Least(a: nat, b: nat): nat {
    if a < b then a else b
  }

  lemma {:induction false} KeptBelow(d: Stmt, n: nat, before: map<string, Kind>, prints: map<string, string>)
    requires d.Declare? && n <= |d.names|
    ensures forall k | 0 <= k < |Kept(d, n, before, prints)| :: Kept(d, n, before, prints)[k] < n
  {
    if n > 0 {
      KeptBelow(d, n - 1, before, prints);
    }
  }

  method RewriteStmt(stmt: Stmt, before: map<string, Kind>, prints: map<string, string>) returns (out: seq<Stmt>)
    ensures !stmt.Declare? ==> out == if Skips(stmt, before, prints) then [] else [stmt]
    ensures stmt.Declare? ==>
              var kept := Kept(stmt, |stmt.names|, before, prints);
              var valued := Kept(stmt, Least(|stmt.names|, |stmt.values|), before, prints);
              out == if kept == [] then [] else [Declare(At(stmt.names, kept), At(stmt.values, valued), stmt.readOnly)]
  {
    hide PreservesName;
    var skip := ShouldSkip(stmt, before, prints);
    if !stmt.Declare? {
      return if skip then [] else [stmt];
    }
    if skip {
      NothingKept(stmt, |stmt.names|, before, prints);
      return [];
    }
    var names, values := KeepNames(stmt, before, prints);
    if |names| == 0 {
      return [];
    }
    return [Declare(names, values, stmt.readOnly)];
  }

  // The loop over the declared names.
  method KeepNames(stmt: Stmt, before: map<string, Kind>, prints: map<string, string>) returns (names: seq<string>, values: seq<string>)
    requires stmt.Declare?
    ensures names == At(stmt.names, Kept(stmt, |stmt.names|, before, prints))
    ensures values == At(stmt.values, Kept(stmt, Least(|stmt.names|, |stmt.values|), before, prints))
  {
    hide PreservesName, At, Kept;
    KeptNone(stmt, before, prints);
    names, values := [], [];
    AtNothing(stmt.names);
    AtNothing(stmt.values);
    for i := 0 to |stmt.names|
      invariant names == At(stmt.names, Kept(stmt, i, before, prints))
      invariant values == At(stmt.values, Kept(stmt, Least(i, |stmt.values|), before, prints))
    {
      KeptStep(stmt, i, before, prints);
      if PreservesName(stmt.names[i], i, stmt.values, before, prints) {
        continue;
      }
      AtAppend(stmt.names, Kept(stmt, i, before, prints), i);
      names := names + [stmt.names[i]];
      if i < |stmt.values| {
        AtAppend(stmt.values, Kept(stmt, i, before, prints), i);
        values := values + [stmt.values[i]];
      }
    }
  }

  lemma KeptNone(d: Stmt, before: map<string, Kind>, prints: map<string, string>)
    requires d.Declare?
    ensures Kept(d, 0, before, prints) == []
  {
  }

  lemma KeptStep(d: Stmt, i: nat, before: map<string, Kind>, prints: map<string, string>)
    requires d.Declare? && i < |d.names|
    ensures Kept(d, i + 1, before, prints) ==
            if PreservesName(d.names[i], i, d.values, before, prints) then Kept(d, i, before, prints)
            else Kept(d, i, before, prints) + [i]
  {
  }

  lemma AtNothing(s: seq<string>)
    ensures At(s, []) == []
  {
  }

  lemma AtAppend(s: seq<string>, positions: seq<nat>, i: nat)
    requires i < |s|
    ensures At(s, positions + [i]) == At(s, positions) + [s[i]]
  {
  }

  lemma {:induction false} NothingKept(d: Stmt, n: nat, before: map<string, Kind>, prints: map<string, string>)
    requires d.Declare? && n <= |d.names|
    requires forall i | 0 <= i < n :: PreservesName(d.names[i], i, d.values, before, prints)
    ensures Kept(d, n, before, prints) == []
  {
    if n > 0 {
      NothingKept(d, n - 1, before, prints);
    }
  }

  // ---------------------------------------------------------------------------------
  // What the remaining names are bound to

  // A name is bound to a result of one of the values: its own value's first, or, past the last
  // value, one of that value's further results.
  datatype Source = Nothing | ResultOf(value: nat, result: nat)

  function SourceOf(i: nat, values: nat): Source {
    if i < values then ResultOf(i, 0) else if values > 0 then ResultOf(values - 1, i - values + 1) else Nothing
  }

  // The same after rewriting, in terms of the original values.
  function SourceAfter(k: nat, valued: seq<nat>): Source {
    match SourceOf(k, |valued|)
    case Nothing => Nothing
    case ResultOf(v, r) => ResultOf(valued[v], r)
  }

  // Kept positions split at any point: those below it come first, in order.
  lemma {:induction false} KeptPrefix(d: Stmt, m: nat, n: nat, before: map<string, Kind>, prints: map<string, string>)
    requires d.Declare? && m <= n <= |d.names|
    ensures Kept(d, m, before, prints) <= Kept(d, n, before, prints)
    ensures |Kept(d, n, before, prints)| - |Kept(d, m, before, prints)| <= n - m
    ensures |Kept(d, n, before, prints)| - |Kept(d, m, before, prints)| == n - m <==>
            forall i | m <= i < n :: !PreservesName(d.names[i], i, d.values, before, prints)
    decreases n - m
  {
    if m < n {
      KeptPrefix(d, m, n - 1, before, prints);
    }
  }

  lemma KeptSize(d: Stmt, i: nat, before: map<string, Kind>, prints: map<string, string>)
    requires d.Declare? && i < |d.names| && !PreservesName(d.names[i], i, d.values, before, prints)
    ensures var kept, k := Kept(d, |d.names|, before, prints), |Kept(d, i, before, prints)|;
            k < |kept| && kept[k] == i
  {
    hide Kept;
    KeptStep(d, i, before, prints);
    KeptPrefix(d, i + 1, |d.names|, before, prints);
  }

  lemma OwnValue(d: Stmt, i: nat, before: map<string, Kind>, prints: map<string, string>)
    requires d.Declare? && i < |d.names| && !PreservesName(d.names[i], i, d.values, before, prints) && i < |d.values|
    ensures SourceAfter(|Kept(d, i, before, prints)|, Kept(d, Least(|d.names|, |d.values|), before, prints)) == ResultOf(i, 0)
  {
    hide Kept;
    KeptStep(d, i, before, prints);
    KeptPrefix(d, i + 1, Least(|d.names|, |d.values|), before, prints);
  }

  lemma LastValued(d: Stmt, m: nat, before: map<string, Kind>, prints: map<string, string>)
    requires d.Declare? && 0 < m <= |d.names|
    ensures var valued := Kept(d, m, before, prints);
            (valued != [] && valued[|valued| - 1] == m - 1) <==> !PreservesName(d.names[m - 1], m - 1, d.values, before, prints)
  {
    KeptBelow(d, m - 1, before, prints);
  }

  lemma FurtherResult(d: Stmt, i: nat, before: map<string, Kind>, prints: map<string, string>)
    requires d.Declare? && i < |d.names| && 0 < |d.values| <= i
    ensures SourceAfter(|Kept(d, i, before, prints)|, Kept(d, |d.values|, before, prints)) == ResultOf(|d.values| - 1, i - |d.values| + 1)
            <==> forall j | |d.values| - 1 <= j < i :: !PreservesName(d.names[j], j, d.values, before, prints)
  {
    hide Kept, PreservesName;
    KeptPrefix(d, |d.values|, i, before, prints);
    LastValued(d, |d.values|, before, prints);
  }

  // A name that is declared again is bound to what the original declaration bound it to exactly
  // if it has a value of its own, or there are no values at all, or every name from the one
  // with the last value up to it is declared again too.
  lemma RewriteBindsAlike(d: Stmt, i: nat, before: map<string, Kind>, prints: map<string, string>)
    requires d.Declare? && i < |d.names| && !PreservesName(d.names[i], i, d.values, before, prints)
    ensures var kept, m := Kept(d, |d.names|, before, prints), |d.values|;
            var valued := Kept(d, Least(|d.names|, m), before, prints);
            var k := |Kept(d, i, before, prints)|;
            && k < |kept| && kept[k] == i
            && (SourceAfter(k, valued) == SourceOf(i, m) <==>
                i < m || m == 0 || forall j | m - 1 <= j < i :: !PreservesName(d.names[j], j, d.values, before, prints))
  {
    hide PreservesName;
    KeptSize(d, i, before, prints);
    if i < |d.values| {
      OwnValue(d, i, before, prints);
    } else if |d.values| > 0 {
      FurtherResult(d, i, before, prints);
    }
  }

  // In a, b := f() with a preserved, b no longer gets the second result of f.
  lemma PreservedNameTakesTheCall()
    ensures var d, before := Declare(["a", "b"], ["f()"], false), map["a" := ScalarKind];
            && SourceOf(1, |d.values|) == ResultOf(0, 1)
            && SourceAfter(0, Kept(d, 1, before, map[])) == Nothing
            && Kept(d, 2, before, map[]) == [1]
  {
    var d, before := Declare(["a", "b"], ["f()"], false), map["a" := ScalarKind];
    assert d.names[0] == "a" && d.names[1] == "b" && "b" != "a";
    assert Kept(d, 0, before, map[]) == [];
    assert Kept(d, 1, before, map[]) == [];
  }

  // ---------------------------------------------------------------------------------
  // What is declared again, in terms of what the names held

  lemma {:induction false} InKept(d: Stmt, n: nat, i: nat, before: map<string, Kind>, prints: map<string, string>)
    requires d.Declare? && n <= |d.names|
    ensures i in Kept(d, n, before, prints) <==> i < n && !PreservesName(d.names[i], i, d.values, before, prints)
  {
    if n > 0 {
      InKept(d, n - 1, i, before, prints);
    }
  }

  // A name that is new or held a table is always declared again, one that held a scalar never,
  // and one that held a function exactly if the value standing for it is not that function.
  lemma DeclaredAgainExactly(d: Stmt, i: nat, before: map<string, Kind>, prints: map<string, string>)
    requires d.Declare? && i < |d.names|
    ensures var (name, again) := (d.names[i], i in Kept(d, |d.names|, before, prints));
            && (name !in before ==> again)
            && (name in before && before[name] == TableKind ==> again)
            && (name in before && before[name] == ScalarKind ==> !again)
            && (name in before && before[name] == FunctionKind && name in prints ==>
                  (again <==> i >= |d.values| || d.values[i] != prints[name]))
            && (name in before && before[name] == FunctionKind && name !in prints && (i < |d.values| ==> d.values[i] != "") ==> again)
  {
    InKept(d, |d.names|, i, before, prints);
  }

  // A declaration is dropped exactly if it has names and none is declared again.
  lemma DroppedDeclaration(d: Stmt, before: map<string, Kind>, prints: map<string, string>)
    requires d.Declare?
    ensures Skips(d, before, prints) <==> d.names != [] && Kept(d, |d.names|, before, prints) == []
  {
    forall i: nat | i < |d.names|
      ensures i in Kept(d, |d.names|, before, prints) <==> !PreservesName(d.names[i], i, d.values, before, prints)
    {
      InKept(d, |d.names|, i, before, prints);
    }
    if Kept(d, |d.names|, before, prints) != [] {
      KeptBelow(d, |d.names|, before, prints);
      var i := Kept(d, |d.names|, before, prints)[0];
      assert i in Kept(d, |d.names|, before, prints);
      InKept(d, |d.names|, i, before, prints);
    }
  }

  predicate Changes(t: Target, before: map<string, Kind>) {
    match t
    case Place => true
    case Ident(name) => name !in before || before[name] == FunctionKind
  }

  // Other statements stay if there is one target that is not a name, or a name that is new or
  // held a function; a function declaration stays if its text is another.
  lemma StaysExactly(stmt: Stmt, before: map<string, Kind>, prints: map<string, string>)
    ensures stmt.Assign? ==>
              (!Skips(stmt, before, prints) <==>
               stmt.targets == [] || (exists t :: t in stmt.targets && Changes(t, before)))
    ensures stmt.Update? ==>
              (!Skips(stmt, before, prints) <==>
               Changes(stmt.target, before))
    ensures stmt.FuncDecl? && stmt.name in prints ==> (!Skips(stmt, before, prints) <==> prints[stmt.name] != stmt.text)
    ensures stmt.FuncDecl? && stmt.name !in prints && stmt.text != "" ==> !Skips(stmt, before, prints)
    ensures stmt.Other? ==> !Skips(stmt, before, prints)
  {
  }
}
