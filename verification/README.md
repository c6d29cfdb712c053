# Leia: the hot-reload engine and its neighbours

Leia is a scripting language with a Go implementation. This project models the parts of it
whose correctness does not show from any single function, and proves what they are for.

- **Hot reload** (`Tables`, `Reachability`, `Snapshot`, `Merge`, `MergeOrder`, `MergeMeaning`,
  `Preserve`, `Rollback`, `HotReload`, `HotRewrite`).
  A persistent VM snapshots its globals and, with one shared memo, every table they lead to;
  runs the reloaded program; on failure clears and refills the global tables from the copy; on
  success rebinds the old values and merges fresh tables into the old ones. Tables are heap
  objects that a script shares and links in cycles. A run is any sequence of effects on tables
  it can name, with any outcome. Table graphs are compared by *unfolding* them to every depth,
  which hides which tables are shared, and by isomorphism, which does not. The order in which a
  merge iterates over each fresh table is a parameter, so that what holds in every order and what
  some order breaks can both be stated.
- **Reload protocol** (`ReloadProtocol`). Threads that reload one instance, split at every lock
  release, while the source changes at any moment.
- **Worker pools** (`WorkerPool`, `ExamplesPool`). Feeder, workers, closer and collector as
  steps of a state machine, in every interleaving.
- **Module closure** (`ModuleClosure`). A depth-first walk over manifests that may require each
  other.
- **Labels and gotos** (`LabelControl`, `LabelMeaning`, `GotoRuns`). The static check against a declarative
  rule, the rule against places in the syntax, and against what runs may do.
- **LSP framing** (`LspFraming`). The header and content parts of the Base Protocol of the
  Language Server Protocol 3.17, decoded from any chunks.
- **Shell lines** (`ShellJoin`). Joining arguments, against token splitting and quote removal as
  in sections 2.2 and 2.3 of the Shell Command Language in POSIX.1-2017.
- **Specification preview** (`Highlighter`, `BlockTags`, `PageMeaning`). A highlighter that loses nothing and a
  block renderer whose tags nest and which reads documents back as they were written.
- **Layout kernels** (`Kernels`). The same loops over an array of records and over columns.
- **Record and replay** (`Replay`, `DeepCopy`). Recorded model turns and their replay, on values;
  and the same records as storage that callers share, copied on the way in and out.

## Where the code does something else than it promises

Each of these is proved, next to the condition under which the promise holds.

- A failed reload is documented to undo every table mutation (`docs/reference/hot-reload/index.md`,
  line 99). A metatable that the run added to a global table without one stays:
  `HotReload.FailedRunLeavesMetatable`; exactly when one comes back: `MetasRestored`, which
  `HotReload.VM.ApplyProgram` ensures.
- Undoing a failed reload refills the global tables from copies, and no others. A link that led
  to a global table leads to a copy of it afterwards: `Rollback.SharedGlobalIsSevered`; all links are
  restored exactly if there was none: `Rollback.SharingRestoredExactly`. Old tables that are not a
  global's, such as nested tables and those that only a closure or a metatable holds, keep what the
  failed run wrote; exactly which old tables have their own entries again: `Rollback.OwnEntriesExactly`.
- New fields and defaults are documented to be merged into existing tables (line 82 there). A
  live table that several fresh tables meet is merged from one of them only and may lose a
  default: `MergeMeaning.MergeShared`. Each visited table gets every default in every order if
  each fresh table on a path that passes no live table twice offers all that any other offers
  (`MergeOrder.VisitedGetAll`), and where such paths are steady, as in every acyclic fresh graph, only
  then: `MergeOrder.VisitedGetAllExactly`, with the order that loses a key in
  `MergeOrder.LostInSomeOrder`. No table is passed by either under the condition of
  `MergeOrder.AllMerged` and, where paths are steady, only then: `MergeOrder.AllMergedExactly`. A path
  that is not steady may be one that no order takes: `MergeOrder.UnsteadyPathNotTaken`.
- `a, b := f()` with `a` preserved is rewritten to `b := ` with no value, so `b` becomes nil instead of the
  second result: `HotRewrite.PreservedNameTakesTheCall`; exactly when: `HotRewrite.RewriteBindsAlike`.
- A goto must not jump over a local declaration or into a deeper scope
  (`docs/spec/declarations.md`, line 236). The check looks for locals only between a goto and a
  label of the same block, and compares depth as a number, so a goto may leave an inner block
  over a local of an outer one (`GotoRuns.NestedGotoMaySkip`) and, on the bytecode VM, enter a block
  past its locals (`GotoRuns.GotoMayEnterSibling`). A block's locals are safe on all runs of an
  accepted body exactly if no run reaches a goto of another block that skips one:
  `GotoRuns.AcceptedSafeExactly`; what a reader of the text can check is in `GotoRuns.NoSkipInTheText`.
- A message body that is not JSON raises before it leaves the buffer, so nothing that follows is
  ever delivered: `LspFraming.SentSticks`. What is delivered is exactly the longest decodable
  prefix: `LspFraming.DeliveredExactly`.
- A compiled program is applied without another look at the disk, so two calls that overlap an
  edit may leave the older source running: `ReloadProtocol.OlderSourceMayStay`. No call that succeeds
  before the next edit, in any interleaving, leaves another source running than the one on disk
  exactly if no call under way has another source to apply or, wrongly, takes the one on disk for
  applied: `ReloadProtocol.MisleadsExactly`.
- Quoting only arguments that hold blanks, quotes, backslashes or dollars leaves shell operators
  bare: `ShellJoin.ConditionalQuotingMissesOperators`; exactly when it matters: `ShellJoin.StrictRoundTrip`.
- A request with a slice that is empty but not nil, or with a NaN, never matches its own recording:
  `Replay.EmptyOrNaNMismatches`; exactly when: `Replay.MismatchExactly`.
- A recording shares maps and slices of other types than `map[string]any` and `[]any`, so a caller can
  change what was recorded: `DeepCopy.OpaqueStorageLeaks`. A recorded turn is safe from every write
  to storage that is not the recording's own exactly if its request and result hold no such value:
  `DeepCopy.SafeExactly`.

## Model

| member | source | states |
|---|---|---|
| Tables.Table.RawSet | internal/runtime/table.go:657-694 | A write leaves all other keys alone; a nil key is ignored, a nil value removes its key, and a float key with a whole value is the integer |
| Tables.WholeFloatKey | internal/runtime/table.go:657-694 | A float key with a whole value and the integer are one key, for writes and removals |
| Tables.BisimilarUnfold | hotloader.go:724-757 | Tables related by a bisimulation of two heaps, cyclic or shared, unfold to the same tree at every depth |
| Tables.MirrorsOnStore | hotloader.go:745-755 | Storing one more renamed entry keeps a copy an exact image: a key renamed by a one-to-one memo never overwrites another |
| Snapshot.CloneValue | hotloader.go:733-757 | Terminates on any finite table graph, cycles included; extends a one-to-one memo with fresh tables only, leaves every original alone, and each newly finished copy mirrors its original and has its metatable |
| Snapshot.CloneEntries | hotloader.go:745-755 | The loop over a table's entries, in any order, makes the copy mirror the table under the final memo |
| Snapshot.DeepSnapshotGlobals | hotloader.go:724-731 | All globals are copied with one memo, so sharing across globals survives; every global's copy is its image under that memo |
| Snapshot.SnapshotIsomorphic | hotloader.go:724-757 | Originals and copies are disjoint, the map between them is one to one, each edge of an original has its image, and a copy has no other edges and leads only to copies |
| Merge.MergeTables | hotloader.go:772-794 | Terminates on any graph, under any aliasing and in any order; never drops or changes an entry that was not a function, and a function only gives way to a function; with live and fresh graphs apart, visits exactly the tables, from exactly the sources, and leaves exactly the heap that the walk over pairs of tables says for this order |
| Merge.MergeEntry | hotloader.go:779-792 | One key of the loop: fill, replace function by function, descend into two tables, or leave alone |
| Merge.OverlayStep | hotloader.go:783-792 | Merging key by key adds up to the overlay of the keys done so far, in any order |
| Merge.MergedTrans | hotloader.go:772-794 | What two merges in a row keep, one merge keeps: nested calls cannot undo what outer ones promise |
| MergeOrder.VisitsDirect | hotloader.go:772-794 | Whatever the order, a table is merged from one that it meets at the end of a path passing no live table twice |
| MergeOrder.VisitsDescend | hotloader.go:778-793 | Wherever a visited table and its source both lead to a table, the live one is visited too |
| MergeOrder.StraightDown | hotloader.go:772-794 | For each such path that is steady, leaving no fresh table by two keys, one order for each fresh table goes straight down it and merges its end from there |
| MergeOrder.MergedFrom | hotloader.go:772-794 | Over all orders, a live table is merged only from fresh tables at the ends of such paths, and from each one at the end of a steady one |
| MergeOrder.AcyclicIsSteady | hotloader.go:772-794 | In an acyclic fresh graph every path is steady |
| MergeOrder.UnsteadyPathNotTaken | hotloader.go:772-794 | A fresh table that leads to itself, and a path that no order takes |
| MergeOrder.MergedFromExactly | hotloader.go:772-794 | Where such paths are steady, the sources of a live table over all orders are exactly the fresh tables at their ends |
| MergeOrder.VisitedGetAll | hotloader.go:772-794 | Every visited table gets every key that any fresh table offers it, in every order, if each table on such a path offers all that any other one offers |
| MergeOrder.VisitedGetAllExactly | hotloader.go:772-794 | Where such paths are steady: every visited table gets every key that any fresh table offers it, in every order, iff each table on such a path offers all that any other one offers |
| MergeOrder.LostInSomeOrder | hotloader.go:772-794 | A key that one fresh table offers and another on such a steady path does not is lost in the order that goes straight down that path |
| MergeOrder.AllVisited | hotloader.go:772-794 | Where fresh tables agree on which keys lead to tables, every live table that meets one is visited, in every order |
| MergeOrder.AllMerged | hotloader.go:772-794 | Every live table that meets a fresh one is visited in every order, from a table that covers all it meets, if the tables on such paths cover all others |
| MergeOrder.AllMergedExactly | hotloader.go:772-794 | Where such paths are steady: every live table that meets a fresh one is visited in every order, from a table that covers all it meets, iff the tables on such paths cover all others |
| MergeOrder.NoDefaultLostExactly | hotloader.go:772-794 | Where such paths are steady and fresh tables agree on which keys lead to tables: no default is lost anywhere in any order iff each table on such a path offers all that any other one offers |
| MergeMeaning.MergedFromOnePath | hotloader.go:772-794 | Whatever the live graph's shape and the order, a visited table is the overlay of itself and one fresh table found at the end of one path to both; all other tables are untouched |
| MergeMeaning.OnePath | hotloader.go:772-794 | In a tree only one path leads to a table |
| MergeMeaning.TreeInStep | hotloader.go:772-794 | A tree keeps step with whatever is merged into it |
| MergeMeaning.MergedAt | hotloader.go:772-794 | A live table that keeps step is overlaid exactly where the fresh graph has a table at the same place |
| MergeMeaning.MergeIsOverlay | hotloader.go:772-794 | On live tables that keep step with the fresh graph, cyclic and shared ones included, the merge is in every order the recursive overlay to every depth: every fresh key arrives, every live value that is not a function stays |
| MergeMeaning.MergeRoots | vm.go:634-636 | Merging one global's table: its unfolding, to every depth, is the overlay of its old unfolding and the fresh one's; fresh tables are unmodified |
| MergeMeaning.FreshUnchanged | hotloader.go:772-794 | The fresh graph unfolds, to every depth, as before the merge |
| MergeMeaning.DefaultsFromOneTable | hotloader.go:772-794 | Two defaults that no single fresh table offers together never arrive together in one live table |
| MergeMeaning.SharedTableLosesDefault | hotloader.go:772-794 | A live table shared by two fields misses one of its two defaults, in every order of iteration |
| MergeMeaning.MergeShared | hotloader.go:772-794 | Merging five such tables in place: one default is missing afterwards, and the fresh tables are as they were |
| Reachability.ReachIsClosed | hotloader.go:733-757 | What roots lead to is closed under following keys and values |
| Reachability.ReachIsLeast | hotloader.go:733-757 | ... and is contained in every closed set around the roots |
| Reachability.UnfoldAgree | hotloader.go:733-757 | A value unfolds alike in heaps that agree on what it leads to |
| Preserve.OriginSeparated | vm.go:627-642 | Each merged global starts from a live and a fresh graph that are apart |
| Preserve.StageStep | vm.go:627-642 | Merging one global, in any order of names, leaves what the others are merged from, and what they were merged into |
| Preserve.GlobalMerged | vm.go:634-636 | Whatever has happened to the others, a merged global unfolds to its old value overlaid on its fresh one, to every depth |
| Preserve.GlobalKept | vm.go:627-642 | A preserved global that is not merged unfolds to its old value |
| Preserve.StageDone | vm.go:627-642 | Every preserved global unfolds to the overlay of its old and its fresh value |
| Preserve.OverlaySelf | hotloader.go:783-792 | A value overlaid on itself is what it was |
| Preserve.ReboundExactly | vm.go:627-642 | Exactly the new names stay bound; each keeps its new value if it was not bound before or if the old or the new value is a function, and otherwise has its old one |
| HotReload.ClearTable | hotloader.go:708-722 | The table ends empty |
| HotReload.RestoreTable | hotloader.go:688-706 | Absent or already restored tables stay as they are; else the entries become those of the copy, and the metatable changes only if the copy has one |
| HotReload.VM.SyncBytecodeGlobals | vm.go:606-613 | Bindings of the bytecode VM win over the interpreter's; no binding is lost |
| HotReload.VM.VisibleExactly | vm.go:606-613 | What is visible under a name: the bytecode VM's binding if it has one, else the interpreter's |
| HotReload.VM.SnapshotGlobals | vm.go:615-620 | The snapshot is what is visible through both engines, and the two then agree |
| HotReload.VM.RestoreGlobals | vm.go:622-625 | Exactly the given names are bound, and the bytecode VM is dropped |
| HotReload.VM.PreserveHotReloadState | vm.go:627-642 | Exactly the new names stay bound, in both engines; each keeps its new value if it was not bound before or if the old or the new value is a function, and otherwise has its old one; no table loses or changes an entry that was not a function; and if the merged graphs are apart from each other and keep step, each preserved global unfolds to the overlay of its old and its fresh value, to every depth |
| HotReload.VM.PreserveOne | vm.go:634-640 | One name: two tables are merged exactly as the graph says, with all other tables left alone, and then the old value is bound in both engines; a table merged with itself stays as it is |
| HotReload.VM.Perform | vm.go:266-421 | One effect of a run: makes one empty table, writes one entry, sets or clears one metatable, or binds one name, and changes nothing else |
| HotReload.VM.PerformAll | vm.go:266-421 | Any sequence of effects: the bindings and the contents of all tables they leave, and exactly which old tables have a metatable |
| HotReload.VM.RunContext | vm.go:252-421 | Whatever effects a run has and whichever engine runs it: the tables hold what the effects leave, in order; on success so do the visible bindings, and both engines agree |
| HotReload.BindingsOver | vm.go:266-274 | Running over the bytecode VM's bindings and then sharing them is running over all of them |
| HotReload.RunStep | vm.go:266-421 | Effects add up one by one, whatever tables are made later |
| HotReload.VM.RestoreFromSnapshot | hotloader.go:759-770 | In any order of names, every global table ends with its copy's contents, however many names share it |
| HotReload.VM.Refill | hotloader.go:759-770 | The restoration seen on the whole heap: global tables take their copies' contents, all others keep what the run left |
| HotReload.VM.RollBack | hotloader.go:484-490 | From any state a failed run left: exactly the old names, bound to the same tables, whose contents mirror the originals again, so that each unfolds as before |
| Rollback.RefilledRollsBack | hotloader.go:759-770 | Refilling only the global tables restores the whole graph: nested tables are reached through the copies |
| Rollback.RolledBackUnfold | hotloader.go:484-490 | After a roll-back each global unfolds to its old value at every depth, cyclic graphs included (no table used as a key) |
| Rollback.MirroredReach | hotloader.go:759-770 | A map that mirrors all tables within reach and keeps the roots meets exactly the tables within reach on the other side |
| Rollback.SharingRestoredExactly | hotloader.go:759-770 | The rolled-back graph is isomorphic to the old one, global tables being the same in both, iff no table within reach led to a global table |
| Rollback.SharedGlobalIsSevered | hotloader.go:759-770 | With `a = T; b = {x: T}`, `b.x` is another table than `a` afterwards, and no isomorphism exists |
| Rollback.OwnEntriesExactly | hotloader.go:759-770 | An old table that is not a global's keeps what the run left; one has its own entries again iff it is a global's and led to no tables, or is not and the run left it as it was |
| Rollback.SnapshotIsSnapshot | hotloader.go:724-757 | The deep snapshot, seen as two heaps, is an isomorphism that records the state before the run |
| HotReload.VM.TakeSnapshot | hotloader.go:482-483 | Taking both snapshots changes no table and no visible binding, and copies exactly the tables within reach of the globals |
| HotReload.VM.ApplyProgram | hotloader.go:481-496 | For every run: a failure rolls names, identities and contents back to every depth, leaves tables that are not a global's as the run left them, and restores metatables exactly if there was one or the run left none; a success binds exactly the run's names, to the run's values or, when preserving, to the old value wherever neither the old nor the new one is a function, with merged tables as PreserveHotReloadState says |
| HotReload.FailedRunLeavesMetatable | hotloader.go:688-706 | A failed run that gives a global table its first metatable leaves it there |
| HotRewrite.ShouldSkip | hotloader.go:544-578 | Which statements are dropped: exact conditions for functions, declarations, assignments and updates |
| HotRewrite.RewriteStmt | hotloader.go:514-542 | Other statements are dropped or kept as ShouldSkip decides; a declaration keeps exactly the names that are not preserved, in order, with those values that stand at kept positions |
| HotRewrite.KeepNames | hotloader.go:522-532 | The loop over names keeps names and values in step as the code does |
| HotRewrite.KeptPrefix | hotloader.go:524-532 | Kept positions below any point come first; none is missing there exactly if no name there is preserved |
| HotRewrite.DeclaredAgainExactly | hotloader.go:580-592 | A declared name that is new or held a table is kept, one that held a scalar is not, and one that held a function is kept exactly if the value standing for it prints as another |
| HotRewrite.DroppedDeclaration | hotloader.go:544-578 | A declaration is dropped exactly if it has names and none of them is kept |
| HotRewrite.StaysExactly | hotloader.go:544-578 | An assignment or update stays exactly if some target is no name, is new or held a function; a function declaration stays if its text is another; other statements always stay |
| HotRewrite.RewriteBindsAlike | hotloader.go:514-542 | A kept name is bound to what the whole declaration bound it to exactly if it has a value of its own, there are no values, or all names from the last value's on are kept |
| HotRewrite.PreservedNameTakesTheCall | hotloader.go:514-542 | In `a, b := f()` with `a` preserved, `b` gets nothing |
| ReloadProtocol.NextInv | hotloader.go:375-463 | Every step of every thread, and every edit of the source, keeps the invariant: lock ownership, current equals applied outside the publishing window, a log that counts up |
| ReloadProtocol.RunInv | hotloader.go:375-463 | The invariant holds in every state of every run |
| ReloadProtocol.ConsecutiveProgramsDiffer | hotloader.go:406-463 | In every interleaving each applied program has the next generation, and has the fingerprint of the one before it only if it was asked for by an unconditional reload |
| ReloadProtocol.OnlyPublishApplies | hotloader.go:257-263 | No step but publishing changes the applied snapshot, the current program or the log; publishing adds exactly one generation |
| ReloadProtocol.LookExactly | hotloader.go:411-451 | A look at a source that cannot be read, or that has changed and does not compile, or that is cancelled, ends the call as failed; one at an unchanged source reports so; nothing is published then; only a changed source that compiles goes on |
| ReloadProtocol.AppliedWasRead | hotloader.go:406-463 | Over whole runs: every applied program after the first has the fingerprint of a source that compiles and that the call publishing it has read from disk |
| ReloadProtocol.ChangedWasRead | hotloader.go:406-463 | Over whole runs: a call that reports a change has read that source, which compiles, and has applied it |
| ReloadProtocol.ResultsAreTrue | hotloader.go:406-463 | The generation a call reports was applied from the very source this call read |
| ReloadProtocol.NoDeadlock | hotloader.go:406-463 | While a call is under way, some call can move |
| ReloadProtocol.CallsAreBounded | hotloader.go:375-463 | Each call takes at most eight steps, whatever the interleaving |
| ReloadProtocol.SettlesOnDisk | hotloader.go:406-463 | If at the last edit no call was under way with another source, the program on disk runs from the first call on that does not fail |
| ReloadProtocol.MisleadsExactly | hotloader.go:406-463 | No edit-free continuation has a successful call that ends with another source applied than the one on disk iff no call under way has another source to apply or wrongly takes the one on disk for applied |
| ReloadProtocol.StaleCompiled | hotloader.go:453-462 | A call that has compiled another source gets to apply it, whoever holds the lock |
| ReloadProtocol.StaleKnown | hotloader.go:411-429 | A call that still takes the source on disk for the applied one reports so |
| ReloadProtocol.OlderSourceMayStay | hotloader.go:406-463 | A run of two successful calls around an edit that ends with the older source applied |
| WorkerPool.NoPanic | cmd/leia/bench_harness_go.go:533-565 | No send on a closed channel, no channel closed twice, no negative wait count |
| WorkerPool.NextConserved | cmd/leia/bench_harness_go.go:536-570 | Each index handed over is in exactly one place, once: at a worker, in the done channel or collected |
| WorkerPool.NextInv | cmd/leia/bench_harness_go.go:521-575 | Every enabled step keeps the whole invariant |
| WorkerPool.EveryStepCounts | cmd/leia/bench_harness_go.go:521-575 | Every step lowers the number of steps left by exactly one |
| WorkerPool.NoDeadlock | cmd/leia/bench_harness_go.go:521-575 | Until the pool has returned, some step is enabled |
| WorkerPool.RunInv | cmd/leia/bench_harness_go.go:521-575 | The invariant holds in every reachable state, and the steps left depend only on the steps made |
| WorkerPool.EveryScheduleEnds | cmd/leia/bench_harness_go.go:521-575 | All schedules have the same bounded length, panic nowhere and end in a return |
| WorkerPool.PoolIsSequential | cmd/leia/bench_harness_go.go:521-575 | Each index is processed exactly once; there is an error iff some spec failed; without one the results are those of the specs in order |
| WorkerPool.EarliestErrorReturned | cmd/leia/bench_harness_go.go:564-574 | The error returned is that of the failed spec that was collected first |
| WorkerPool.OneWorkerInOrder | cmd/leia/bench_harness_go.go:521-575 | With one worker the specs are collected in order, so the error is that of the first failing spec |
| WorkerPool.WorkersWanted | cmd/leia/bench_harness_go.go:525-531 | How many workers start: as many as asked for, one at least and no more than there are specs |
| ExamplesPool.NextOwnedOnce | cmd/leia/examples.go:419-431 | An index is with the feeder, with one worker or written, and never in two places |
| ExamplesPool.NextNoneLost | cmd/leia/examples.go:419-431 | Every index taken from the feeder is held or written |
| ExamplesPool.EveryStepCounts | cmd/leia/examples.go:404-434 | Every step lowers the number of steps left by exactly one |
| ExamplesPool.NoDeadlock | cmd/leia/examples.go:404-434 | Until the call has returned, some step is enabled |
| ExamplesPool.RunInv | cmd/leia/examples.go:404-434 | The invariant holds in every reachable state |
| ExamplesPool.NoWriteRace | cmd/leia/examples.go:421-426 | Two workers about to write hold different indices, and an index is written at most once |
| ExamplesPool.PoolIsSequential | cmd/leia/examples.go:404-434 | Every schedule ends without a panic and returns what checking one by one returns |
| ExamplesPool.WorkersWanted | cmd/leia/examples.go:412-418 | How many workers start: as many as asked for, one at least and no more than there are examples |
| ModuleClosure.WalkListsOnce | modconfig.go:80-137 | Each path and version is listed at most once, and only if it passes the mode's filter |
| ModuleClosure.WalkCovers | modconfig.go:80-137 | Marking before filtering loses nothing: whatever was marked and passes is listed, with what its manifest asks for |
| ModuleClosure.WalkNeeded | modconfig.go:80-137 | Nothing is listed that some closed set could do without |
| ModuleClosure.WalkIsLeastClosed | modconfig.go:76-137 | The list is the least set closed under requirements, over cyclic manifests too |
| ModuleClosure.ListedExactly | modconfig.go:80-137 | Mode by mode: vendored modules must exist unless missing ones are wanted, which must then name a host; cached ones must be of one host and exist; required modules that do so are listed |
| ModuleClosure.AppendVendorModules | modconfig.go:80-107 | The recursive loop over the shared marks appends exactly the walk's modules, each with its vendor directory; terminates on cycles |
| ModuleClosure.AppendCacheModules | modconfig.go:113-137 | The same for the cache, which lists only modules that exist, with the version after the repository part of the path |
| ModuleClosure.CacheRootExactly | modconfig.go:139-149 | The version stands after the first three parts of the path, and the rest of the path after it |
| ModuleClosure.VendorModulesForManifest | modconfig.go:76-78 | Starts with no marks |
| ModuleClosure.CacheModulesForManifest | modconfig.go:109-111 | Starts with no marks |
| LabelControl.ValidateLabelStmtList | internal/ast/label_control.go:9-60 | Accepts iff in this body and in each function body reached from it labels are unique, each goto has a label no deeper than itself, and a forward goto of the label's own block skips no local |
| LabelMeaning.BodiesExactly | internal/ast/label_control.go:103-203 | The bodies that are checked on their own are exactly those of function declarations and of function literals at any path through statements and operands |
| LabelMeaning.RuleByPlaces | internal/ast/label_control.go:37-60 | A body obeys the rule iff no label is declared at two places and each place of a goto has a place of its label, no deeper, with no local between them if both are in one block and the label comes later |
| LabelMeaning.AcceptedExactly | internal/ast/label_control.go:9-203 | A program is accepted iff it and every function body at any path in it obey the rule on places |
| LabelControl.LabelScope.WalkBlock | internal/ast/label_control.go:62-120 | Fails exactly on a repeated label or a bad inner function; else records every label and goto of the body in order |
| LabelControl.LabelScope.WalkStmt | internal/ast/label_control.go:66-117 | The same for one statement |
| LabelControl.LabelScope.WalkNest | internal/ast/label_control.go:75-112 | The same for the blocks of one statement, one level deeper |
| LabelControl.WalkStmtExprs | internal/ast/label_control.go:122-146 | Fails exactly if a function literal in the statement's expressions breaks the rule |
| LabelControl.WalkExpr | internal/ast/label_control.go:148-203 | The same for one expression |
| LabelControl.CheckGotos | internal/ast/label_control.go:43-58 | Looking gotos up in the label table decides the rule on the marks of the body |
| LabelControl.FreshIsUnique | internal/ast/label_control.go:68-72 | Refusing a name already in the table is refusing repeated labels |
| LabelControl.LabelFound | internal/ast/label_control.go:44-47 | With unique labels the table's entry is the only label a goto could mean |
| GotoRuns.SafeExactly | internal/ast/label_control.go:43-57 | On either engine, all runs of a body keep the locals of a block executed above control iff no run reaches a goto, from anywhere in the body, that skips one |
| GotoRuns.SkipIsUnsafe | internal/ast/label_control.go:50-56 | A reachable jump over a local leads to a state where it is in scope and was never executed |
| GotoRuns.DirectGotosDoNotSkip | internal/ast/label_control.go:50-56 | In an accepted body a goto skips no local of any block on its way to a label of its own block, forward or back |
| GotoRuns.MarksBelow | internal/ast/label_control.go:62-120 | What stands in a block at any depth is seen by the walk over the body |
| GotoRuns.AcceptedIsSafe | internal/ast/label_control.go:43-57 | In an accepted body, if every goto to a label in or below a block stands in the label's own block, the locals of that block are safe on every run, whatever mix of jumps |
| GotoRuns.AcceptedSafeExactly | internal/ast/label_control.go:43-57 | A block of an accepted body is safe iff no run reaches a goto whose label is in another block than the goto and that skips a local of the block |
| GotoRuns.NoSkipInTheText | internal/ast/label_control.go:43-57 | It is enough that no goto of another block skips a local between where it stands and where its label stands |
| GotoRuns.MovesKeepScope | internal/ast/label_control.go:62-120 | However control moves without a jump, only the local of the statement it passes comes into scope |
| GotoRuns.NestedGotoMaySkip | internal/ast/label_control.go:43-57 | An accepted body with a run, on either engine, on which a goto of an inner block jumps over a local |
| GotoRuns.GotoMayEnterSibling | internal/ast/label_control.go:48-50 | An accepted body with a run of the bytecode VM on which a goto enters a block that is not around it past a local; the interpreter is safe on it |
| LspFraming.Client.HandleData | editors/vscode/extension.js:604-627 | The loop ends; buffer, delivered bodies and a raised error are those of draining the old buffer and the chunk |
| LspFraming.DrainAppend | editors/vscode/extension.js:604-627 | Draining early and draining the rest with what comes next is draining everything at once |
| LspFraming.ChunkInvariance | editors/vscode/extension.js:604-627 | However a stream is cut, the same bodies come out and the same bytes stay |
| LspFraming.StuckStaysStuck | editors/vscode/extension.js:623-624 | Once a body has not decoded no later data is delivered |
| LspFraming.NumberOfDecimal | editors/vscode/extension.js:600-618 | Reading a printed length gives the length back |
| LspFraming.HeaderParses | editors/vscode/extension.js:600-618 | The header that is sent parses to the length that was sent |
| LspFraming.MarkerAfterHeader | editors/vscode/extension.js:600-607 | The first blank line ends the header, whatever bytes the body holds |
| LspFraming.LengthExactly | editors/vscode/extension.js:611-617 | The length is all the digits after the first field name that white space and a digit follow, in any case; there is none iff there is no such place |
| LspFraming.HeaderWithoutLengthDropped | editors/vscode/extension.js:611-617 | A header without a length is dropped with its blank line, and what follows is read on |
| LspFraming.SentDrains | editors/vscode/extension.js:595-627 | A sent message is delivered first, and what follows is drained as if it stood alone |
| LspFraming.SentSticks | editors/vscode/extension.js:623-624 | A sent message whose body does not decode delivers nothing, then or later |
| LspFraming.DeliveredExactly | editors/vscode/extension.js:595-627 | Of any messages sent exactly the longest decodable prefix arrives, and all that follows stays in the buffer |
| LspFraming.RoundTrip | editors/vscode/extension.js:595-627 | Messages arrive in order, byte for byte, and leave nothing in the buffer, iff every body decodes |
| LspFraming.RoundTripInChunks | editors/vscode/extension.js:595-627 | Cut into any chunks, the longest decodable prefix of the messages arrives and the rest stays in the buffer |
| ShellJoin.ReadQuoted | editors/vscode/extension.js:73-78 | An escaped and quoted argument reads as the argument, whatever it holds and whatever follows |
| ShellJoin.ReadPart | cmd/leia/ci.go:191-201 | Each part, quoted or bare, reads as its argument and leaves the reader inside that word |
| ShellJoin.ReadJoined | cmd/leia/ci.go:191-201 | Reading a joined line gives the arguments back, or, in a shell that heeds operators, fails exactly if some bare argument acts |
| ShellJoin.RoundTrip | editors/vscode/extension.js:239-241 | Splitting on blanks and removing quotes gives back every list of arguments, for both ways of quoting |
| ShellJoin.StrictRoundTrip | cmd/leia/ci.go:191-201 | With operators, patterns and comments heeded: gives the arguments back iff all are quoted or no bare one acts |
| ShellJoin.ConditionalQuotingMissesOperators | cmd/leia/ci.go:191-201 | The argument `;` is lost by conditional quoting and kept by quoting always |
| ShellJoin.BareExactly | cmd/leia/ci.go:191-201 | Without quoting always, exactly which characters make an argument of one character quoted; an empty one is |
| ShellJoin.QuotedExactly | cmd/leia/ci.go:191-201 | An argument is quoted iff it is empty or holds one of them |
| ShellJoin.ShellJoin | cmd/leia/ci.go:191-201 | The loop builds a line that reads back as its arguments |
| Highlighter.TextOfEscaped | cmd/leia/doc_spec_preview.go:542-544 | Unescaping undoes escaping, in and out of spans |
| Highlighter.EscapedIsPlain | cmd/leia/doc_spec_preview.go:542-544 | Escaped text holds no angle bracket and no quote |
| Highlighter.TextOfSpan | cmd/leia/doc_spec_preview.go:542-544 | Taking one span off gives its text back and leaves what follows |
| Highlighter.ScanString | cmd/leia/doc_spec_preview.go:478-496 | The scan of a quoted string stops past its closing quote or at the end, escapes heeded |
| Highlighter.StringEndExactly | cmd/leia/doc_spec_preview.go:478-496 | A quoted string ends past the first quote with an even number of backslashes before it, or at the end of the text if there is none |
| Highlighter.PastNextExactly | cmd/leia/doc_spec_preview.go:451-508 | A block comment or raw string ends past the first place of its closing mark, or at the end of the text if there is none |
| Highlighter.LineCommentExactly | cmd/leia/doc_spec_preview.go:462-477 | A line comment runs up to the first line break, and is a directive iff it starts as one |
| Highlighter.ClosedTokenExactly | cmd/leia/doc_spec_preview.go:451-508 | Which closing mark ends which token, from where on, and its class |
| Highlighter.WordExactly | cmd/leia/doc_spec_preview.go:515-528 | A word is as long as it can be, and is classed as keyword, constant or built-in, in that order, by the whole of it |
| Highlighter.NextToken | cmd/leia/doc_spec_preview.go:449-539 | One turn of the loop emits the token at its place, and always moves on |
| Highlighter.Lossless | cmd/leia/doc_spec_preview.go:447-540 | From every position: balanced spans, and erasing them gives the rest of the source exactly |
| Highlighter.HighlightLeia | cmd/leia/doc_spec_preview.go:447-540 | Terminates on every source, unterminated comments and strings included, and loses nothing |
| BlockTags.NestConcat | cmd/leia/doc_spec_preview.go:220-369 | Tags nest piece by piece: what one piece leaves open the next one starts from |
| BlockTags.ChunkNests | cmd/leia/doc_spec_preview.go:220-369 | Each piece of output is well nested where it may stand, and opens or closes exactly what it says |
| BlockTags.RowsNest | cmd/leia/doc_spec_preview.go:292-313 | Table rows of any number of cells nest |
| BlockTags.AtomsGrowItem | cmd/leia/doc_spec_preview.go:354-356 | Adding a line to the last list item adds that line to what the page says, and nothing else |
| BlockTags.Renderer.CloseParagraph | cmd/leia/doc_spec_preview.go:238-243 | Writes the pending paragraph, if any; says nothing new |
| BlockTags.Renderer.CloseLists | cmd/leia/doc_spec_preview.go:244-253 | Closes whichever list is open, never both |
| BlockTags.Renderer.Fence | cmd/leia/doc_spec_preview.go:257-271 | A fence closes text and lists and opens code, or ends the code block |
| BlockTags.Renderer.CodeText | cmd/leia/doc_spec_preview.go:272-276 | A line inside a fence is kept as it is, whatever it looks like |
| BlockTags.Renderer.Table | cmd/leia/doc_spec_preview.go:282-315 | A table is written whole, each row padded or cut to the header |
| BlockTags.Renderer.Title | cmd/leia/doc_spec_preview.go:323-336 | A heading stands outside lists and paragraphs |
| BlockTags.Renderer.ListItem | cmd/leia/doc_spec_preview.go:337-353 | An item stands in a list of its own kind, opened only if that kind is not open yet |
| BlockTags.Renderer.InsideList | cmd/leia/doc_spec_preview.go:338-351 | Afterwards exactly the list of this kind is open, and the other one is closed |
| BlockTags.Renderer.GrowItem | cmd/leia/doc_spec_preview.go:354-356 | A continuation line goes to the last item |
| BlockTags.Renderer.OtherLine | cmd/leia/doc_spec_preview.go:316-361 | Blank lines, headings, items, continuations and text: what each says and which mode it leaves |
| BlockTags.Renderer.Turn | cmd/leia/doc_spec_preview.go:255-362 | One turn moves on, keeps the invariant (never both lists open, no pending paragraph in a list) and says what its lines say |
| BlockTags.Renderer.Render | cmd/leia/doc_spec_preview.go:220-369 | For every list of lines the tags are balanced and the page says exactly what the lines say, in order |
| BlockTags.Renderer.Finish | cmd/leia/doc_spec_preview.go:363-368 | Whatever is open at the end is closed, and pending text is written |
| PageMeaning.DocumentReads | cmd/leia/doc_spec_preview.go:220-369 | Any sequence of paragraphs, lists with continued items, headings, code blocks and tables, written out as lines, is read back as exactly these blocks with exactly their texts, in order |
| PageMeaning.ListingReads | cmd/leia/doc_spec_preview.go:337-356 | A list reads back as one list of its kind with its items, each with its continuation lines |
| PageMeaning.CodeReads | cmd/leia/doc_spec_preview.go:257-276 | What stands between fences reads back as it is, markers, comments and tables included |
| PageMeaning.GridReads | cmd/leia/doc_spec_preview.go:282-315 | A table reads back as its header and rows |
| PageMeaning.ContentShift | cmd/leia/doc_spec_preview.go:255-362 | Reading a line and what follows does not depend on the lines before it but through the mode |
| PageMeaning.PageElements | cmd/leia/doc_spec_preview.go:220-369 | The elements a page opens, wrappers left out, are exactly those its text calls for, in the order of the text |
| PageMeaning.CellsExactly | cmd/leia/doc_spec_preview.go:573-606 | A row is split exactly at the bars with an even number of backslashes and an even number of unescaped backquotes before them |
| PageMeaning.TrimExactly | cmd/leia/doc_spec_preview.go:573-606 | Trimming takes the blanks at both ends and nothing else |
| PageMeaning.MarkerIsOrdered | cmd/leia/doc_spec_preview.go:345-353 | An ordered item starts with digits, a dot and a blank, and the marker is all of these |
| Kernels.IntegrateAoS | benchmarks/layoutbench/kernels.go:84-100 | After all sweeps each particle is its own start moved that many times, and the sum is the checksum |
| Kernels.KickAoS | benchmarks/layoutbench/kernels.go:87-92 | One particle's velocity changes in place; no other particle does |
| Kernels.DriftAoS | benchmarks/layoutbench/kernels.go:93-96 | One particle's place changes, by its new velocity; no other particle does |
| Kernels.KickBalance | benchmarks/layoutbench/kernels.go:87-92 | Each coordinate of the velocity stays iff its place is in balance with the mass |
| Kernels.KickPull | benchmarks/layoutbench/kernels.go:87-92 | A particle eight units further out is pulled back by one unit of speed per unit of time, on each axis alone |
| Kernels.DriftBack | benchmarks/layoutbench/kernels.go:93-96 | Drifting back by the same time undoes a drift; in one unit of time a place moves by the velocity |
| Kernels.ParticlesSoA.KickAt | benchmarks/layoutbench/kernels.go:105-110 | The same on three velocity columns |
| Kernels.ParticlesSoA.DriftAt | benchmarks/layoutbench/kernels.go:111-113 | The same on three place columns |
| Kernels.ParticlesSoA.Sweep | benchmarks/layoutbench/kernels.go:104-114 | One in-place sweep over the columns moves every particle once more |
| Kernels.ParticlesSoA.Integrate | benchmarks/layoutbench/kernels.go:102-117 | The same as over records, on seven columns |
| Kernels.MovedAdds | benchmarks/layoutbench/kernels.go:84-117 | Integrating twice is integrating for the sum of the steps |
| Kernels.IntegrateBoth | benchmarks/layoutbench/kernels.go:84-117 | Started alike, the two layouts agree particle by particle and in the checksum |
| Kernels.ChecksumParticlesAoS | benchmarks/layoutbench/kernels.go:137-144 | Sums in order over the records |
| Kernels.ChecksumCounts | benchmarks/layoutbench/kernels.go:137-144 | What one particle adds to the checksum, by its place modulo seven |
| Kernels.ParticlesSoA.ChecksumParticlesSoA | benchmarks/layoutbench/kernels.go:146-153 | Sums over the columns what the records would sum to |
| Kernels.UnzipRecordsAoS | benchmarks/layoutbench/kernels.go:292-302 | Appending column by column into reused storage transposes the records |
| Kernels.FilterConcat | benchmarks/layoutbench/kernels.go:268-276 | Filtering works piece by piece: kept records stay in order |
| Kernels.KeepExactly | benchmarks/layoutbench/kernels.go:334-336 | Kept are active records whose group is a multiple of five, negative ones included, or whose value times weight is over eighteen |
| Kernels.Append | benchmarks/layoutbench/kernels.go:268-276 | A slice append writes in place while there is room and else copies, disturbing nothing beyond its place |
| Kernels.AppendRow | benchmarks/layoutbench/kernels.go:282-286 | Appending to five columns pushes one row, each column in place or moved, and disturbs no other entry |
| Kernels.FilterRecordsAoS | benchmarks/layoutbench/kernels.go:268-276 | The kept records in order, even when the destination is the storage of the source |
| Kernels.FilterRecordsSoA | benchmarks/layoutbench/kernels.go:278-290 | Filtering columns is filtering the records they stand for, even when the destination reuses the storage of the source column by column |
| Kernels.SumsAgree | benchmarks/layoutbench/kernels.go:310-332 | The checksum over columns is that over the records, on every prefix |
| Kernels.TermCounts | benchmarks/layoutbench/kernels.go:310-320 | What one record adds to the checksum, with the remainder of the sign of the identifier |
| Kernels.ChecksumRecordsAoS | benchmarks/layoutbench/kernels.go:310-320 | Sums in order over the records |
| Kernels.ChecksumRecordsSoA | benchmarks/layoutbench/kernels.go:322-332 | Sums in order over the columns |
| Kernels.FilterBoth | benchmarks/layoutbench/kernels.go:268-302 | Filtering commutes with the change of layout, and the checksums agree |
| Replay.CloneAnyExact | llm/replay.go:373-390 | A copy is its original iff no map and no list in it is nil; a copy always has that form |
| Replay.CloneRequestExact | llm/replay.go:318-351 | Copying leaves a request as it is iff no slice of it is empty but not nil and no map or list in its dynamic values is nil; a copy always has that form |
| Replay.EqualAnyExact | llm/replay.go:457-469 | Deep equality of dynamic values is being the same and equal to oneself throughout |
| Replay.RequestsEqualExactly | llm/replay.go:457-469 | Two requests compare equal iff they are the same and nothing in them fails to equal itself |
| Replay.CloneResultTwice | llm/replay.go:353-360 | Copying a copied result changes nothing more |
| Replay.CloneResultExact | llm/replay.go:353-360 | Copying leaves a result as it is iff its calls are not nil and no map or list in their arguments is nil |
| Replay.CloneResultAlike | llm/replay.go:353-360 | A copy has the status, text, reason and usage of its original and as many calls, each with its id, its tool and its arguments up to nil and empty |
| Replay.CloneRequestAlike | llm/replay.go:318-351 | A copied request is its original up to nil and empty |
| Replay.CloneRecordAlike | llm/replay.go:300-307 | A copied record is its original up to nil and empty |
| Replay.CloneRecordTwice | llm/replay.go:300-307 | Copying a copied record changes nothing more |
| Replay.Recorder.constructor | llm/replay.go:22-28 | Starts from copies of the given records |
| Replay.Recorder.Record | llm/replay.go:30-37 | Appends a copy and leaves the rest |
| Replay.Recorder.Records | llm/replay.go:39-50 | Gives copies, in order |
| Replay.Recorder.Reset | llm/replay.go:52-59 | Forgets every record |
| Replay.ReplayProvider.constructor | llm/replay.go:108-116 | Starts at the first of the copied records |
| Replay.ReplayProvider.Turn | llm/replay.go:157-216 | Answers as the specification of replies does; every turn but an exhausted one moves on, and only a match is remembered as the last match |
| Replay.ReplayProvider.Progress | llm/replay.go:218-228 | Consumed and remaining always add up to the recording |
| Replay.ReplayProvider.Reset | llm/replay.go:230-236 | Back to the first record, no match remembered |
| Replay.RecordThenReplay | llm/replay.go:157-216 | Replaying the recorded requests, if stable, gives the results and errors of the run itself in order, equal but for nil and empty lists and maps and exactly equal where copying a result keeps it, then exhaustion whatever is asked |
| Replay.EachRequestConsumesOne | llm/replay.go:193-216 | Every request but one after the end consumes one record, whether it matches or not |
| Replay.MismatchExactly | llm/replay.go:193-216 | A recorded request is refused by its own recording iff copying changes it or something in it, such as a NaN, does not equal itself |
| Replay.EmptyOrNaNMismatches | llm/replay.go:457-469 | An empty stop list that is not nil is enough, and so is a NaN temperature |
| DeepCopy.CloneAny | llm/replay.go:373-390 | The copy of a dynamic value stands for the copy of what it stands for, in fresh storage all of it but opaque storage, which is shared |
| DeepCopy.CloneMap | llm/replay.go:375-380 | The same for a map, in any order of keys |
| DeepCopy.CloneList | llm/replay.go:381-386 | The same for a list |
| DeepCopy.CloneCalls | llm/replay.go:353-360 | Tool calls with their arguments, in fresh storage; never nil |
| DeepCopy.CloneMessages | llm/replay.go:318-327 | Messages with their boxed tool calls and values, in fresh storage; nil if there are none |
| DeepCopy.CloneTools | llm/replay.go:328-333 | Tools with their lists and schemas, in fresh storage; nil if there are none |
| DeepCopy.CloneOptions | llm/replay.go:334-349 | Boxed floats, stop list and metadata, each in storage of its own |
| DeepCopy.CloneRequest | llm/replay.go:318-351 | A request, in fresh storage throughout |
| DeepCopy.CloneResult | llm/replay.go:353-360 | A result, in fresh storage throughout |
| DeepCopy.CloneRecord | llm/replay.go:300-307 | A record, in fresh storage throughout |
| DeepCopy.Store.Record | llm/replay.go:30-37 | A whole record is stored as its copy, and what is stored shares only opaque storage with what was given |
| DeepCopy.Store.Get | llm/replay.go:39-50 | What is given out is the copy of the turn asked for, whatever has become of others, and shares only opaque storage with what is stored |
| DeepCopy.Store.Reply | llm/replay.go:157-166 | The answer of a replayed turn is the copy of the recorded result, in the caller's own storage |
| DeepCopy.UpdatesDoNotLeak | llm/replay.go:30-50 | Any writes to storage that is not the store's, the recorded turn, earlier copies and opaque storage included, change no later copy of a turn that holds no opaque value |
| DeepCopy.KeptExactly | llm/replay.go:387-388 | With other contents in opaque storage, a value stands for the same iff the storage it leads to holds the same |
| DeepCopy.RecordKeptExactly | llm/replay.go:300-307 | The same of whole records; a record leads to no opaque storage iff its request and result hold no opaque value |
| DeepCopy.SafeExactly | llm/replay.go:300-307 | Its own storage left alone, a record stands for what it does whatever happens to opaque storage iff its request and result hold no opaque value |
| DeepCopy.PlainTurnsKept | llm/replay.go:30-50 | In any later heap that leaves the store's own storage alone, a turn that holds no opaque value is what it was |
| DeepCopy.LeakableExactly | llm/replay.go:30-50 | A stored turn leads to shared opaque storage iff it holds an opaque value |
| DeepCopy.OpaqueStorageLeaks | llm/replay.go:387-388 | A caller that changes any opaque storage a stored turn leads to, wherever in it, changes the turn |

## Left out

- HotReload.VM.ApplyProgram: says nothing of metatable contents, which the code shares; unfolding after a failure is only stated without tables as keys, which come back as copies and so as other keys.
- Rollback.RolledBackUnfold: asks that no table is keyed by a table, for that reason; Rollback.SharingRestoredExactly covers tables with such keys.
- HotReload.VM.RunContext: the program is any sequence of effects with any outcome, in place of the interpreter, the bytecode VM and the JIT; compiling, the options of a new bytecode VM and the globals it withholds for lack of a capability are not modelled.
- MergeMeaning.MergeIsOverlay: asks that live and fresh graph are apart and that no live table stands beside two different fresh ones; otherwise it is false, and Merge.MergeTables, MergeMeaning.MergedFromOnePath and MergeOrder.VisitedGetAllExactly say what holds.
- MergeMeaning.MergeRoots: asks for the same.
- MergeOrder.VisitedGetAllExactly: asks that paths passing no live table twice are steady; otherwise the condition is sufficient (MergeOrder.VisitedGetAll) but not necessary, as MergeOrder.UnsteadyPathNotTaken shows.
- MergeOrder.MergedFromExactly: the same; MergeOrder.MergedFrom says what holds without it.
- MergeOrder.AllMergedExactly: the same; MergeOrder.AllMerged says what holds without it.
- MergeOrder.NoDefaultLostExactly: the same, and asks that fresh tables agree on which keys lead to tables; tables that a merge passes by are otherwise only covered together with what each table is merged from.
- Preserve.GlobalMerged: asks that a merged global's tables belong to no other preserved global; otherwise one merge shows in the other's value.
- ReloadProtocol.ConsecutiveProgramsDiffer: one instance is the only publisher of its handle, as instances publish outside the loader lock; fingerprints are abstract values, and no claim is made on collisions of SHA-256 or of the printed syntax tree.
- GotoRuns.AcceptedIsSafe: asks that no goto of another block aims into the block; without that it is false. A goto inside the body of a select is executed, but the check does not see it, and so neither do the marks this asks about.
- GotoRuns.AcceptedSafeExactly: a goto inside the body of a select is executed but not seen by the check, and not by the runs here.
- GotoRuns.NoSkipInTheText: the same; gotos inside the body of a select are not among its marks.
- GotoRuns.SafeExactly: the body of a select is opaque; conditions are opaque, a branch may or may not be taken; a body's own top-level names are locals like all others, though the main program makes them globals.
- Replay.RecordThenReplay: asks for stable requests; without that it is false.
- ShellJoin.StrictRoundTrip: heeds no assignment words and no reserved words, so a first argument such as `A=1` or `if` meets its condition though a shell would not run it as a command; the quoting used on Windows is not modelled.
- Kernels.FilterRecordsAoS: both slices start at the beginning of their storage.
- Kernels.FilterRecordsSoA: no column shares storage with a column of another name.
- Replay.ReplayProvider.Turn: hashes and keys of the remembered match are not modelled; requests and results are values, and DeepCopy has their storage.
- Table storage by key type and lazy tables: a table is a map.
- The order of a table's `Next` and Go's map order are any order; a table that the loop itself changes is visited once per key it has at the time.
- Read-only flags and captured cells of globals.
- Nil receivers, empty paths and locks of the recorder; a cancelled context is an outcome like any other.
- Reading sources and manifests, NUL bytes in keys, process output captured by the example checks, progress printing and its lock, the early return for an empty list of specs.
- Statements and expressions the label walk does not enter are opaque, and so is which of several errors is reported first.
- JSON and message dispatch in the language client: a body decodes or not; header lengths are unbounded integers; only ASCII white space in headers.
- PageMeaning.DocumentReads: asks that the texts of a document are trimmed and hold no marker of another block, and its cells no bar, backquote or backslash; PageMeaning.CellsExactly covers cells that do.
- The number and operator patterns of the highlighter are any functions from text to a length.
- Inline Markdown, heading identifiers, the index, front matter and the text of links.
- Rounding and NaN: the kernels compute over reals.
- Saving and loading recordings, streamed turns, record hashes, calibration and statistics of benchmarks: bookkeeping that adds no hard property.
