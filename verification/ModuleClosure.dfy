/** The modules a manifest brings in: a depth-first walk over manifests that may require each other. */
module ModuleClosure {
  import opened Wrappers

  datatype Req = Req(path: string, version: string)

  // What is on disk for a module: whether its manifest can be read, and what it requires.
  datatype Entry = Entry(manifest: Option<seq<Req>>)

  // Modules outside the map do not exist.
  type Disk = map<Req, Entry>

  datatype Mode = Vendor(includeMissing: bool) | Cache

  predicate IsRemote(path: string) {
    '.' in path && '/' in path
  }

  // Requirements that are skipped without being marked as seen fail this.
  predicate Eligible(mode: Mode, r: Req) {
    r.version != "" && (mode.Cache? ==> "github.com/" <= r.path)
  }

  // Requirements that are listed, when they come up first.
  predicate Passes(mode: Mode, disk: Disk, r: Req) {
    Eligible(mode, r) && if mode == Vendor(true) then IsRemote(r.path) else r in disk
  }

  function Manifest(disk: Disk, r: Req): seq<Req> {
    if r in disk && disk[r].manifest.Some? then disk[r].manifest.value else []
  }

  // ---------------------------------------------------------------------------------
  // The walk as a function

  datatype Walked = Walked(modules: seq<Req>, seen: set<Req>)

  function Unseen(disk: Disk, seen: set<Req>): set<Req> {
    set r | r in disk && r !in seen
  }

  function Slashes(path: string): nat {
    if path == "" then 0 else (if path[0] == '/' then 1 else 0) + Slashes(path[1..])
  }

  lemma {:induction false} SubsetSize<T>(a: set<T>, b: set<T>)
    requires a <= b
    ensures |a| <= |b|
    ensures a != b ==> |a| < |b|
    decreases |a|
  {
    if a != {} {
      var x :| x in a;
      SubsetSize(a - {x}, b - {x});
      assert a == (a - {x}) + {x} && b == (b - {x}) + {x};
    } else if b != {} {
      var y :| y in b;
      assert |b| > 0;
    }
  }

  function Walk(mode: Mode, disk: Disk, reqs: seq<Req>, seen: set<Req>): (w: Walked)
    ensures seen <= w.seen
    decreases |Unseen(disk, seen)|, |reqs|
  {
    if reqs == [] then Walked([], seen)
    else
      var r, rest := reqs[0], reqs[1..];
      if !Eligible(mode, r) || r in seen then Walk(mode, disk, rest, seen)
      else
        var marked := seen + {r};
        SubsetSize(Unseen(disk, marked), Unseen(disk, seen));
        if !Passes(mode, disk, r) then Walk(mode, disk, rest, marked)
        else
          var deps := if r in disk then
            assert r in Unseen(disk, seen) && r !in Unseen(disk, marked);
            Walk(mode, disk, Manifest(disk, r), marked)
          else Walked([], marked);
          SubsetSize(Unseen(disk, deps.seen), Unseen(disk, seen));
          var others := Walk(mode, disk, rest, deps.seen);
          Walked([r] + deps.modules + others.modules, others.seen)
  }

  // ---------------------------------------------------------------------------------
  // What the walk computes

  ghost predicate NoDuplicates<T>(s: seq<T>) {
    forall i, j | 0 <= i < j < |s| :: s[i] != s[j]
  }

  lemma NoDuplicatesConcat<T>(a: seq<T>, b: seq<T>)
    requires NoDuplicates(a) && NoDuplicates(b) && forall x | x in a :: x !in b
    ensures NoDuplicates(a + b)
  {
    forall i, j | 0 <= i < j < |a + b|
      ensures (a + b)[i] != (a + b)[j]
    {
      if i < |a| <= j {
        assert a[i] in a && b[j - |a|] in b;
      }
    }
  }

  // Each module is listed at most once: listing marks it, and only unmarked ones are listed.
  lemma {:induction false} WalkListsOnce(mode: Mode, disk: Disk, reqs: seq<Req>, seen: set<Req>)
    ensures var w := Walk(mode, disk, reqs, seen);
            && NoDuplicates(w.modules)
            && forall m | m in w.modules :: m in w.seen && m !in seen && Passes(mode, disk, m)
    decreases |Unseen(disk, seen)|, |reqs|
  {
    if reqs != [] {
      var r, rest := reqs[0], reqs[1..];
      if !Eligible(mode, r) || r in seen {
        WalkListsOnce(mode, disk, rest, seen);
      } else {
        var marked := seen + {r};
        SubsetSize(Unseen(disk, marked), Unseen(disk, seen));
        if !Passes(mode, disk, r) {
          WalkListsOnce(mode, disk, rest, marked);
        } else if r in disk {
          assert r in Unseen(disk, seen) && r !in Unseen(disk, marked);
          WalkListsOnce(mode, disk, Manifest(disk, r), marked);
          var deps := Walk(mode, disk, Manifest(disk, r), marked);
          SubsetSize(Unseen(disk, deps.seen), Unseen(disk, seen));
          WalkListsOnce(mode, disk, rest, deps.seen);
          NoDuplicatesConcat([r], deps.modules);
          NoDuplicatesConcat([r] + deps.modules, Walk(mode, disk, rest, deps.seen).modules);
        } else {
          WalkListsOnce(mode, disk, rest, marked);
          NoDuplicatesConcat([r], Walk(mode, disk, rest, marked).modules);
        }
      }
    }
  }

  // Everything asked for has been marked, and every marked module that passes is listed.
  ghost predicate Covered(mode: Mode, reqs: seq<Req>, seen: set<Req>) {
    forall r | r in reqs && Eligible(mode, r) :: r in seen
  }

  lemma {:induction false} WalkCovers(mode: Mode, disk: Disk, reqs: seq<Req>, seen: set<Req>)
    ensures var w := Walk(mode, disk, reqs, seen);
            && Covered(mode, reqs, w.seen)
            && (forall r | r in w.seen && r !in seen && Passes(mode, disk, r) :: r in w.modules)
            && (forall m | m in w.modules :: Covered(mode, Manifest(disk, m), w.seen))
    decreases |Unseen(disk, seen)|, |reqs|
  {
    if reqs != [] {
      var r, rest := reqs[0], reqs[1..];
      var w := Walk(mode, disk, reqs, seen);
      if !Eligible(mode, r) || r in seen {
        WalkCovers(mode, disk, rest, seen);
      } else {
        var marked := seen + {r};
        SubsetSize(Unseen(disk, marked), Unseen(disk, seen));
        if !Passes(mode, disk, r) {
          WalkCovers(mode, disk, rest, marked);
        } else {
          var deps := Walked([], marked);
          if r in disk {
            assert r in Unseen(disk, seen) && r !in Unseen(disk, marked);
            WalkCovers(mode, disk, Manifest(disk, r), marked);
            deps := Walk(mode, disk, Manifest(disk, r), marked);
          }
          SubsetSize(Unseen(disk, deps.seen), Unseen(disk, seen));
          WalkCovers(mode, disk, rest, deps.seen);
          var others := Walk(mode, disk, rest, deps.seen);
          forall m | m in w.modules
            ensures Covered(mode, Manifest(disk, m), w.seen)
          {
            assert m == r || m in deps.modules || m in others.modules;
          }
        }
      }
    }
  }

  // Sets of modules that miss nothing: what reqs ask for, and what their members ask for.
  ghost predicate Asked(mode: Mode, disk: Disk, reqs: seq<Req>, S: set<Req>) {
    forall r | r in reqs && Passes(mode, disk, r) :: r in S
  }

  ghost predicate ClosedSet(mode: Mode, disk: Disk, S: set<Req>) {
    forall m | m in S :: Asked(mode, disk, Manifest(disk, m), S)
  }

  lemma {:induction false} WalkNeeded(mode: Mode, disk: Disk, reqs: seq<Req>, seen: set<Req>, S: set<Req>)
    requires Asked(mode, disk, reqs, S) && ClosedSet(mode, disk, S)
    ensures forall m | m in Walk(mode, disk, reqs, seen).modules :: m in S
    decreases |Unseen(disk, seen)|, |reqs|
  {
    if reqs != [] {
      var r, rest := reqs[0], reqs[1..];
      if !Eligible(mode, r) || r in seen {
        WalkNeeded(mode, disk, rest, seen, S);
      } else {
        var marked := seen + {r};
        SubsetSize(Unseen(disk, marked), Unseen(disk, seen));
        if !Passes(mode, disk, r) {
          WalkNeeded(mode, disk, rest, marked, S);
        } else {
          var deps := Walked([], marked);
          if r in disk {
            assert r in Unseen(disk, seen) && r !in Unseen(disk, marked);
            WalkNeeded(mode, disk, Manifest(disk, r), marked, S);
            deps := Walk(mode, disk, Manifest(disk, r), marked);
          }
          SubsetSize(Unseen(disk, deps.seen), Unseen(disk, seen));
          WalkNeeded(mode, disk, rest, deps.seen, S);
        }
      }
    }
  }

  // The list is the least closed set: it misses nothing, and nothing in it could be missed.
  lemma WalkIsLeastClosed(mode: Mode, disk: Disk, root: seq<Req>)
    ensures var listed := set m | m in Walk(mode, disk, root, {}).modules;
            && Asked(mode, disk, root, listed) && ClosedSet(mode, disk, listed)
            && forall S | Asked(mode, disk, root, S) && ClosedSet(mode, disk, S) :: listed <= S
  {
    WalkCovers(mode, disk, root, {});
    WalkListsOnce(mode, disk, root, {});
    forall S | Asked(mode, disk, root, S) && ClosedSet(mode, disk, S)
      ensures forall m | m in Walk(mode, disk, root, {}).modules :: m in S
    {
      WalkNeeded(mode, disk, root, {}, S);
    }
  }

  // ---------------------------------------------------------------------------------
  // The walks as the program runs them

  datatype Module = Module(req: Req, root: string, kind: string)

  // Which directory holds a module.
  type Roots = Req -> string

  function Modules(reqs: seq<Req>, roots: Roots, kind: string): seq<Module> {
    seq(|reqs|, i requires 0 <= i < |reqs| => Module(reqs[i], roots(reqs[i]), kind))
  }

  // vendor/path@version below the root of the script's module.
  function VendorRoot(root: string, r: Req): string {
    root + "/vendor/" + r.path + "@" + r.version
  }

  function VendorRoots(root: string): Roots {
    r => VendorRoot(root, r)
  }

  function CacheRoots(cacheDir: string): Roots {
    r => CacheRoot(cacheDir, r)
  }

  // The version follows the first three parts of the path, the repository; the rest comes after.
  function CacheRoot(cacheDir: string, r: Req): string {
    var end := RepositoryEnd(r.path, 0, 0);
    cacheDir + "/extract/" + r.path[..end] + "@" + r.version + r.path[end..]
  }

  // Where the third slash of a path is; its end if there is none.
  function RepositoryEnd(path: string, i: nat, slashes: nat): (end: nat)
    requires i <= |path|
    ensures i <= end <= |path|
    decreases |path| - i
  {
    if i == |path| then i
    else if path[i] == '/' then if slashes == 2 then i else RepositoryEnd(path, i + 1, slashes + 1)
    else RepositoryEnd(path, i + 1, slashes)
  }

  lemma {:induction false} SlashesConcat(a: string, b: string)
    ensures Slashes(a + b) == Slashes(a) + Slashes(b)
    decreases |a|
  {
    if a == "" {
      assert a + b == b;
    } else {
      assert (a + b)[1..] == a[1..] + b;
      SlashesConcat(a[1..], b);
    }
  }

  lemma {:induction false} RepositoryEndFrom(path: string, i: nat, slashes: nat)
    requires i <= |path| && slashes <= 2 && slashes == Slashes(path[..i])
    ensures var end := RepositoryEnd(path, i, slashes);
            && Slashes(path[..end]) <= 2 && (end < |path| ==> path[end] == '/' && Slashes(path[..end]) == 2)
    decreases |path| - i
  {
    if i < |path| && !(path[i] == '/' && slashes == 2) {
      SlashesConcat(path[..i], [path[i]]);
      assert path[..i + 1] == path[..i] + [path[i]] && [path[i]][1..] == "";
      RepositoryEndFrom(path, i + 1, if path[i] == '/' then slashes + 1 else slashes);
    }
  }

  // In the cache the version stands after the host, the owner and the repository, and whatever
  // else the path says comes after it, from its third slash on.
  lemma CacheRootExactly(cacheDir: string, r: Req)
    ensures exists repository, below: string ::
              && r.path == repository + below && CacheRoot(cacheDir, r) == cacheDir + "/extract/" + repository + "@" + r.version + below
              && Slashes(repository) <= 2 && (below != "" ==> below[0] == '/' && Slashes(repository) == 2)
  {
    var end := RepositoryEnd(r.path, 0, 0);
    assert r.path[..0] == "";
    RepositoryEndFrom(r.path, 0, 0);
    var repository, below := r.path[..end], r.path[end..];
    assert r.path == repository + below && (below != "" ==> below[0] == r.path[end]);
    assert CacheRoot(cacheDir, r) == cacheDir + "/extract/" + repository + "@" + r.version + below;
  }

  // The map that all levels of the recursion mark.
  class Seen {
    var keys: set<Req>

    constructor ()
      ensures keys == {}
    {
      keys := {};
    }
  }

  // One turn of the loop over a manifest, as the walk sees it.
  lemma WalkFirst(mode: Mode, disk: Disk, r: Req, rest: seq<Req>, seen: set<Req>)
    ensures var w, marked := Walk(mode, disk, [r] + rest, seen), seen + {r};
            if !Eligible(mode, r) || r in seen then w == Walk(mode, disk, rest, seen)
            else if !Passes(mode, disk, r) then w == Walk(mode, disk, rest, marked)
            else if r !in disk || disk[r].manifest.None? then
              var later := Walk(mode, disk, rest, marked);
              w == Walked([r] + later.modules, later.seen)
            else
              var deps := Walk(mode, disk, disk[r].manifest.value, marked);
              var later := Walk(mode, disk, rest, deps.seen);
              w == Walked([r] + deps.modules + later.modules, later.seen)
  {
    assert ([r] + rest)[1..] == rest;
  }

  // What is listed, mode by mode, without the filter: vendored modules that exist or, when
  // missing ones are wanted, whose path names a host; cached modules of one host that exist.
  lemma ListedExactly(mode: Mode, disk: Disk, root: seq<Req>, m: Req)
    ensures var listed := Walk(mode, disk, root, {}).modules;
            && (m in listed ==> m.version != "")
            && (m in listed && mode == Vendor(false) ==> m in disk)
            && (m in listed && mode == Vendor(true) ==> '.' in m.path && '/' in m.path)
            && (m in listed && mode == Cache ==> "github.com/" <= m.path && m in disk)
            && (m in root && m.version != "" && mode == Vendor(false) && m in disk ==> m in listed)
            && (m in root && m.version != "" && mode == Vendor(true) && '.' in m.path && '/' in m.path ==> m in listed)
            && (m in root && m.version != "" && mode == Cache && "github.com/" <= m.path && m in disk ==> m in listed)
  {
    hide Walk;
    WalkListsOnce(mode, disk, root, {});
    WalkIsLeastClosed(mode, disk, root);
  }

  lemma WalkTurn(mode: Mode, disk: Disk, reqs: seq<Req>, i: nat, seen: set<Req>)
    requires i < |reqs|
    ensures var r, w, marked := reqs[i], Walk(mode, disk, reqs[i..], seen), seen + {reqs[i]};
            if !Eligible(mode, r) || r in seen then w == Walk(mode, disk, reqs[i + 1..], seen)
            else if !Passes(mode, disk, r) then w == Walk(mode, disk, reqs[i + 1..], marked)
            else if r !in disk || disk[r].manifest.None? then
              w.modules == [r] + Walk(mode, disk, reqs[i + 1..], marked).modules
              && w.seen == Walk(mode, disk, reqs[i + 1..], marked).seen
            else
              var deps := Walk(mode, disk, disk[r].manifest.value, marked);
              w.modules == [r] + deps.modules + Walk(mode, disk, reqs[i + 1..], deps.seen).modules
              && w.seen == Walk(mode, disk, reqs[i + 1..], deps.seen).seen
  {
    hide Walk, Eligible, Passes;
    assert reqs[i..] == [reqs[i]] + reqs[i + 1..];
    WalkFirst(mode, disk, reqs[i], reqs[i + 1..], seen);
  }

  lemma WalkNothing(mode: Mode, disk: Disk, reqs: seq<Req>, seen: set<Req>)
    ensures Walk(mode, disk, reqs[|reqs|..], seen) == Walked([], seen) && reqs[0..] == reqs
  {
  }

  lemma UnseenShrinks(disk: Disk, r: Req, seen: set<Req>, marked: set<Req>)
    requires r in disk && r !in seen && seen + {r} <= marked
    ensures |Unseen(disk, marked)| < |Unseen(disk, seen)|
  {
    assert r in Unseen(disk, seen) && r !in Unseen(disk, marked);
    SubsetSize(Unseen(disk, marked), Unseen(disk, seen));
  }

  lemma ModulesAppend(a: seq<Req>, b: seq<Req>, roots: Roots, kind: string)
    ensures Modules(a + b, roots, kind) == Modules(a, roots, kind) + Modules(b, roots, kind)
  {
  }

  lemma NoModules(roots: Roots, kind: string)
    ensures Modules([], roots, kind) == []
  {
  }

  lemma ModulesNext(listed: seq<Req>, r: Req, roots: Roots, kind: string)
    ensures Modules(listed + [r], roots, kind) == Modules(listed, roots, kind) + [Module(r, roots(r), kind)]
  {
  }

  method AppendVendorModules(modules: seq<Module>, root: string, manifest: seq<Req>, includeMissing: bool, seen: Seen, disk: Disk)
    returns (modules': seq<Module>)
    modifies seen
    ensures var w := Walk(Vendor(includeMissing), disk, manifest, old(seen.keys));
            modules' == modules + Modules(w.modules, VendorRoots(root), "vendor") && seen.keys == w.seen
    decreases |Unseen(disk, seen.keys)|
  {
    hide Walk, Unseen, Modules, IsRemote, RepositoryEnd;
    ghost var mode := Vendor(includeMissing);
    ghost var whole := Walk(mode, disk, manifest, seen.keys);
    ghost var listed: seq<Req> := [];
    WalkNothing(mode, disk, manifest, seen.keys);
    NoModules(VendorRoots(root), "vendor");
    modules' := modules;
    for i := 0 to |manifest|
      invariant modules' == modules + Modules(listed, VendorRoots(root), "vendor") && old(seen.keys) <= seen.keys
      invariant whole.modules == listed + Walk(mode, disk, manifest[i..], seen.keys).modules
      invariant whole.seen == Walk(mode, disk, manifest[i..], seen.keys).seen
    {
      var req := manifest[i];
      WalkTurn(mode, disk, manifest, i, seen.keys);
      if req.version == "" {
        continue;
      }
      if req in seen.keys {
        continue;
      }
      seen.keys := seen.keys + {req};
      if !includeMissing {
        if req !in disk {
          continue;
        }
      }
      if includeMissing && !IsRemote(req.path) {
        continue;
      }
      modules' := modules' + [Module(req, VendorRoot(root, req), "vendor")];
      ModulesNext(listed, req, VendorRoots(root), "vendor");
      listed := listed + [req];
      if req !in disk || disk[req].manifest.None? {
        continue;
      }
      UnseenShrinks(disk, req, old(seen.keys), seen.keys);
      ghost var deps := Walk(mode, disk, disk[req].manifest.value, seen.keys);
      modules' := AppendVendorModules(modules', root, disk[req].manifest.value, includeMissing, seen, disk);
      ModulesAppend(listed, deps.modules, VendorRoots(root), "vendor");
      listed := listed + deps.modules;
    }
    WalkNothing(mode, disk, manifest, seen.keys);
    assert listed + [] == listed;
  }

  method AppendCacheModules(modules: seq<Module>, cacheDir: string, manifest: seq<Req>, seen: Seen, disk: Disk)
    returns (modules': seq<Module>)
    modifies seen
    ensures var w := Walk(Cache, disk, manifest, old(seen.keys));
            modules' == modules + Modules(w.modules, CacheRoots(cacheDir), "cache") && seen.keys == w.seen
    decreases |Unseen(disk, seen.keys)|
  {
    hide Walk, Unseen, Modules, IsRemote, RepositoryEnd;
    ghost var whole := Walk(Cache, disk, manifest, seen.keys);
    ghost var listed: seq<Req> := [];
    WalkNothing(Cache, disk, manifest, seen.keys);
    NoModules(CacheRoots(cacheDir), "cache");
    modules' := modules;
    for i := 0 to |manifest|
      invariant modules' == modules + Modules(listed, CacheRoots(cacheDir), "cache") && old(seen.keys) <= seen.keys
      invariant whole.modules == listed + Walk(Cache, disk, manifest[i..], seen.keys).modules
      invariant whole.seen == Walk(Cache, disk, manifest[i..], seen.keys).seen
    {
      var req := manifest[i];
      WalkTurn(Cache, disk, manifest, i, seen.keys);
      if !("github.com/" <= req.path) || req.version == "" {
        continue;
      }
      if req in seen.keys {
        continue;
      }
      seen.keys := seen.keys + {req};
      if req !in disk {
        continue;
      }
      modules' := modules' + [Module(req, CacheRoot(cacheDir, req), "cache")];
      ModulesNext(listed, req, CacheRoots(cacheDir), "cache");
      listed := listed + [req];
      if disk[req].manifest.None? {
        continue;
      }
      UnseenShrinks(disk, req, old(seen.keys), seen.keys);
      ghost var deps := Walk(Cache, disk, disk[req].manifest.value, seen.keys);
      modules' := AppendCacheModules(modules', cacheDir, disk[req].manifest.value, seen, disk);
      ModulesAppend(listed, deps.modules, CacheRoots(cacheDir), "cache");
      listed := listed + deps.modules;
    }
    WalkNothing(Cache, disk, manifest, seen.keys);
    assert listed + [] == listed;
  }

  // Top-level entry points: a fresh map of marks each.
  method VendorModulesForManifest(root: string, manifest: seq<Req>, includeMissing: bool, disk: Disk) returns (modules: seq<Module>)
    ensures modules == Modules(Walk(Vendor(includeMissing), disk, manifest, {}).modules, VendorRoots(root), "vendor")
  {
    var seen := new Seen();
    modules := AppendVendorModules([], root, manifest, includeMissing, seen, disk);
  }

  method CacheModulesForManifest(cacheDir: string, manifest: seq<Req>, disk: Disk) returns (modules: seq<Module>)
    ensures modules == Modules(Walk(Cache, disk, manifest, {}).modules, CacheRoots(cacheDir), "cache")
  {
    var seen := new Seen();
    modules := AppendCacheModules([], cacheDir, manifest, seen, disk);
  }
}
