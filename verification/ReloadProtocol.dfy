/** The reload protocol of a hot instance: two locks, a check repeated under the second one,
    and generation numbers; any number of threads, and a source file that changes at any time. */
module ReloadProtocol {
  import opened Wrappers

  // Fingerprints are abstract: two sources are the same program iff their fingerprints agree.
  type Fingerprint = nat
  type Thread = nat

  datatype Disk = Unreadable | Text(fingerprint: Fingerprint, compiles: bool)

  datatype Snapshot = Snapshot(generation: nat, fingerprint: Fingerprint)

  // What a call has told its caller; `seen` is the fingerprint it read from disk.
  datatype Result =
    | Failed
    | Unchanged(generation: nat, seen: Fingerprint)
    | Changed(generation: nat, seen: Fingerprint)

  // Where a thread stands. `forced` marks Reload, which applies unchanged sources too.
  datatype PC =
    | Idle(last: Option<Result>)
    | Reading                                              // holds the instance lock
    | HasRead(read: Snapshot)
    | Looking(known: Option<Snapshot>)                     // holds the loader lock; None is forced
    | Compiled(fingerprint: Fingerprint, forced: bool)
    | Checking(fingerprint: Fingerprint, forced: bool)     // holds the instance lock, up to Publishing
    | Applying(fingerprint: Fingerprint, forced: bool)
    | Installing(fingerprint: Fingerprint, forced: bool)
    | Publishing(fingerprint: Fingerprint, forced: bool)
  {
    predicate HoldsInstance() {
      Reading? || Checking? || Applying? || Installing? || Publishing?
    }

    predicate HoldsLoader() {
      Looking?
    }
  }

  // One entry for every program that was applied.
  datatype Entry = Entry(snapshot: Snapshot, forced: bool)

  datatype State = State(
    disk: Disk,
    instanceLock: Option<Thread>,
    loaderLock: Option<Thread>,
    current: Snapshot,           // what the handle publishes
    applied: Snapshot,           // what the instance runs
    threads: seq<PC>,
    log: seq<Entry>)

  datatype Action =
    | Edit(disk: Disk)
    | CallIfChanged(t: Thread)
    | ReadApplied(t: Thread)
    | EnterLoader(t: Thread)
    | CallReload(t: Thread)
    | Look(t: Thread, cancelled: bool)
    | EnterInstance(t: Thread)
    | Check(t: Thread)
    | RunProgram(t: Thread, ok: bool)
    | Install(t: Thread)
    | Publish(t: Thread)

  predicate Enabled(s: State, a: Action) {
    match a
    case Edit(_) => true
    case CallIfChanged(t) => t < |s.threads| && s.threads[t].Idle? && s.instanceLock == None
    case ReadApplied(t) => t < |s.threads| && s.threads[t].Reading?
    case EnterLoader(t) => t < |s.threads| && s.threads[t].HasRead? && s.loaderLock == None
    case CallReload(t) => t < |s.threads| && s.threads[t].Idle? && s.loaderLock == None
    case Look(t, _) => t < |s.threads| && s.threads[t].Looking?
    case EnterInstance(t) => t < |s.threads| && s.threads[t].Compiled? && s.instanceLock == None
    case Check(t) => t < |s.threads| && s.threads[t].Checking?
    case RunProgram(t, _) => t < |s.threads| && s.threads[t].Applying?
    case Install(t) => t < |s.threads| && s.threads[t].Installing?
    case Publish(t) => t < |s.threads| && s.threads[t].Publishing?
  }

  function Go(s: State, t: Thread, pc: PC): State
    requires t < |s.threads|
  {
    s.(threads := s.threads[t := pc])
  }

  function Return(s: State, t: Thread, r: Result): State
    requires t < |s.threads|
  {
    Go(s, t, Idle(Some(r)))
  }

  // Under the loader lock: read the file, compare with what was applied, compile.
  function LookAt(s: State, t: Thread, cancelled: bool): State
    requires t < |s.threads| && s.threads[t].Looking?
  {
    var pc := s.threads[t];
    var s' := s.(loaderLock := None);
    if s.disk.Unreadable? then Return(s', t, Failed)
    else if pc.known.Some? && pc.known.value.fingerprint == s.disk.fingerprint then
      Return(s', t, Unchanged(pc.known.value.generation, s.disk.fingerprint))
    else if cancelled || !s.disk.compiles then Return(s', t, Failed)
    else Go(s', t, Compiled(s.disk.fingerprint, pc.known.None?))
  }

  function Next(s: State, a: Action): State
    requires Enabled(s, a)
  {
    match a
    case Edit(disk) => s.(disk := disk)
    case CallIfChanged(t) => Go(s, t, Reading).(instanceLock := Some(t))
    case ReadApplied(t) => Go(s, t, HasRead(s.applied)).(instanceLock := None)
    case EnterLoader(t) => Go(s, t, Looking(Some(s.threads[t].read))).(loaderLock := Some(t))
    case CallReload(t) => Go(s, t, Looking(None)).(loaderLock := Some(t))
    case Look(t, cancelled) => LookAt(s, t, cancelled)
    case EnterInstance(t) =>
      Go(s, t, Checking(s.threads[t].fingerprint, s.threads[t].forced)).(instanceLock := Some(t))
    case Check(t) =>
      var pc := s.threads[t];
      if !pc.forced && s.applied.fingerprint == pc.fingerprint then
        Return(s, t, Unchanged(s.applied.generation, pc.fingerprint)).(instanceLock := None)
      else Go(s, t, Applying(pc.fingerprint, pc.forced))
    case RunProgram(t, ok) =>
      var pc := s.threads[t];
      if ok then Go(s, t, Installing(pc.fingerprint, pc.forced))
      else Return(s, t, Failed).(instanceLock := None)
    case Install(t) =>
      var pc := s.threads[t];
      Go(s, t, Publishing(pc.fingerprint, pc.forced)).(current := Snapshot(s.current.generation + 1, pc.fingerprint))
    case Publish(t) =>
      var pc := s.threads[t];
      Return(s, t, Changed(s.current.generation, pc.fingerprint))
        .(instanceLock := None, applied := s.current, log := s.log + [Entry(s.current, pc.forced)])
  }

  predicate Init(s: State) {
    && s.instanceLock == None && s.loaderLock == None
    && s.current == s.applied && s.log == [Entry(s.applied, true)]
    && forall t: Thread | t < |s.threads| :: s.threads[t] == Idle(None)
  }

  predicate IsRun(states: seq<State>, actions: seq<Action>) {
    && |states| == |actions| + 1 && Init(states[0])
    && forall i | 0 <= i < |actions| :: Enabled(states[i], actions[i]) && states[i + 1] == Next(states[i], actions[i])
  }

  // ---------------------------------------------------------------------------------
  // The invariant

  predicate Logged(s: State, generation: nat, fingerprint: Fingerprint) {
    exists i :: 0 <= i < |s.log| && s.log[i].snapshot == Snapshot(generation, fingerprint)
  }

  // Generations count up by one, and a fingerprint only follows itself when forced.
  predicate GoodLog(s: State) {
    && s.log != [] && s.log[|s.log| - 1].snapshot == s.applied
    && forall i | 0 < i < |s.log| ::
      && s.log[i].snapshot.generation == s.log[i - 1].snapshot.generation + 1
      && (s.log[i].snapshot.fingerprint == s.log[i - 1].snapshot.fingerprint ==> s.log[i].forced)
  }

  predicate GoodInstanceLock(s: State) {
    && (forall t: Thread | t < |s.threads| :: s.threads[t].HoldsInstance() <==> s.instanceLock == Some(t))
    && (s.instanceLock.Some? ==> s.instanceLock.value < |s.threads|)
  }

  predicate GoodLoaderLock(s: State) {
    && (forall t: Thread | t < |s.threads| :: s.threads[t].HoldsLoader() <==> s.loaderLock == Some(t))
    && (s.loaderLock.Some? ==> s.loaderLock.value < |s.threads|)
  }

  predicate GoodLocks(s: State) {
    GoodInstanceLock(s) && GoodLoaderLock(s)
  }

  predicate GoodThread(s: State, pc: PC) {
    match pc
    case Idle(Some(Unchanged(g, f))) => Logged(s, g, f)
    case Idle(Some(Changed(g, f))) => Logged(s, g, f)
    case HasRead(k) => Logged(s, k.generation, k.fingerprint)
    case Looking(Some(k)) => Logged(s, k.generation, k.fingerprint)
    case Applying(f, forced) => forced || f != s.applied.fingerprint
    case Installing(f, forced) => forced || f != s.applied.fingerprint
    case Publishing(f, forced) =>
      (forced || f != s.applied.fingerprint) && s.current == Snapshot(s.applied.generation + 1, f)
    case _ => true
  }

  // The handle and the instance agree, except between install and publish.
  predicate GoodHandle(s: State) {
    (forall t: Thread | t < |s.threads| :: !s.threads[t].Publishing?) ==> s.current == s.applied
  }

  predicate Inv(s: State) {
    GoodLog(s) && GoodLocks(s) && GoodHandle(s) && forall t: Thread | t < |s.threads| :: GoodThread(s, s.threads[t])
  }

  lemma InitInv(s: State)
    requires Init(s)
    ensures Inv(s)
  {
  }

  lemma LastLogged(s: State)
    requires GoodLog(s)
    ensures Logged(s, s.applied.generation, s.applied.fingerprint)
  {
    assert s.log[|s.log| - 1].snapshot == Snapshot(s.applied.generation, s.applied.fingerprint);
  }

  lemma LogGrows(s: State, s': State, generation: nat, fingerprint: Fingerprint)
    requires s.log <= s'.log && Logged(s, generation, fingerprint)
    ensures Logged(s', generation, fingerprint)
  {
    var i :| 0 <= i < |s.log| && s.log[i].snapshot == Snapshot(generation, fingerprint);
    assert s'.log[i] == s.log[i];
  }

  lemma NextLog(s: State, a: Action)
    requires Inv(s) && Enabled(s, a)
    ensures GoodLog(Next(s, a)) && s.log <= Next(s, a).log
  {
    hide GoodLocks, Logged;
  }

  lemma NextInstanceLock(s: State, a: Action)
    requires GoodInstanceLock(s) && Enabled(s, a)
    ensures GoodInstanceLock(Next(s, a))
  {
  }

  lemma NextLoaderLock(s: State, a: Action)
    requires GoodLoaderLock(s) && Enabled(s, a)
    ensures GoodLoaderLock(Next(s, a))
  {
  }

  // Only the holder of the instance lock can be between install and publish.
  lemma NextHandle(s: State, a: Action)
    requires GoodLocks(s) && GoodHandle(s) && Enabled(s, a)
    ensures GoodHandle(Next(s, a))
  {
    var s' := Next(s, a);
    if a.Publish? {
      assert s'.current == s'.applied;
    } else if s'.current != s'.applied {
      if a.Install? {
        assert s'.threads[a.t].Publishing?;
      } else {
        var t: Thread :| t < |s.threads| && s.threads[t].Publishing?;
        assert s.instanceLock == Some(t);
        assert s'.threads[t].Publishing?;
      }
    }
  }

  lemma ThreadKept(s: State, s': State, pc: PC)
    requires GoodThread(s, pc) && s.log <= s'.log
    requires pc.HoldsInstance() ==> s'.current == s.current && s'.applied == s.applied
    ensures GoodThread(s', pc)
  {
    match pc
    case Idle(Some(Unchanged(g, f))) => LogGrows(s, s', g, f);
    case Idle(Some(Changed(g, f))) => LogGrows(s, s', g, f);
    case HasRead(k) => LogGrows(s, s', k.generation, k.fingerprint);
    case Looking(Some(k)) => LogGrows(s, s', k.generation, k.fingerprint);
    case _ =>
  }

  lemma OtherThread(s: State, a: Action, t: Thread)
    requires Inv(s) && Enabled(s, a) && t < |s.threads| && Next(s, a).threads[t] == s.threads[t]
    requires a.Edit? || a.t != t
    ensures GoodThread(Next(s, a), s.threads[t])
  {
    NextLog(s, a);
    hide GoodLog, GoodHandle, GoodThread, Logged;
    ThreadKept(s, Next(s, a), s.threads[t]);
  }

  lemma MovedThread(s: State, a: Action)
    requires Inv(s) && Enabled(s, a) && !a.Edit?
    ensures GoodThread(Next(s, a), Next(s, a).threads[a.t])
  {
    hide GoodLocks, GoodHandle, GoodLog, Logged;
    var s' := Next(s, a);
    NextLog(s, a);
    LastLogged(s);
    LastLogged(s');
    if a.EnterLoader? {
      EnteringThread(s, a.t);
    } else if a.Look? {
      LookingThread(s, a);
    } else if a.Install? {
      InstallFrom(s, a.t);
    } else if a.RunProgram? || a.Publish? {
      assert GoodThread(s, s.threads[a.t]);
    }
  }

  lemma EnteringThread(s: State, t: Thread)
    requires Inv(s) && Enabled(s, EnterLoader(t))
    ensures Logged(Next(s, EnterLoader(t)), s.threads[t].read.generation, s.threads[t].read.fingerprint)
  {
    hide GoodLocks, GoodHandle, GoodLog;
    assert GoodThread(s, s.threads[t]);
  }

  lemma LookingThread(s: State, a: Action)
    requires Inv(s) && Enabled(s, a) && a.Look?
    ensures GoodThread(Next(s, a), Next(s, a).threads[a.t])
  {
    hide GoodLocks, GoodHandle, GoodLog;
    assert GoodThread(s, s.threads[a.t]);
  }

  lemma InstallFrom(s: State, t: Thread)
    requires Inv(s) && t < |s.threads| && s.threads[t].Installing?
    ensures s.current == s.applied
  {
    assert s.instanceLock == Some(t);
  }

  lemma NextInv(s: State, a: Action)
    requires Inv(s) && Enabled(s, a)
    ensures Inv(Next(s, a))
  {
    var s' := Next(s, a);
    NextLog(s, a);
    NextInstanceLock(s, a);
    NextLoaderLock(s, a);
    NextHandle(s, a);
    forall t: Thread | t < |s'.threads|
      ensures GoodThread(s', s'.threads[t])
    {
      if !a.Edit? && t == a.t {
        MovedThread(s, a);
      } else {
        OthersStand(s, a, t);
        OtherThread(s, a, t);
      }
    }
  }

  lemma OthersStand(s: State, a: Action, t: Thread)
    requires Enabled(s, a) && t < |Next(s, a).threads| && (a.Edit? || a.t != t)
    ensures t < |s.threads| && Next(s, a).threads[t] == s.threads[t]
  {
  }

  // ---------------------------------------------------------------------------------
  // Whole runs

  lemma {:induction false} RunInv(states: seq<State>, actions: seq<Action>, i: nat)
    requires IsRun(states, actions) && i <= |actions|
    ensures Inv(states[i])
  {
    if i == 0 {
      InitInv(states[0]);
    } else {
      RunInv(states, actions, i - 1);
      NextInv(states[i - 1], actions[i - 1]);
    }
  }

  // Whatever the interleaving: generations count up by one, and no two consecutive programs
  // are the same unless the second was asked for by Reload.
  lemma ConsecutiveProgramsDiffer(states: seq<State>, actions: seq<Action>, n: nat, i: nat)
    requires IsRun(states, actions) && n <= |actions| && 0 < i < |states[n].log|
    ensures var prev, next := states[n].log[i - 1].snapshot, states[n].log[i].snapshot;
            && next.generation == prev.generation + 1
            && (next.fingerprint == prev.fingerprint ==> states[n].log[i].forced)
  {
    RunInv(states, actions, n);
  }

  // Only publishing changes what the instance runs, and it adds exactly one generation.
  lemma OnlyPublishApplies(states: seq<State>, actions: seq<Action>, i: nat)
    requires IsRun(states, actions) && i < |actions|
    ensures !actions[i].Publish? ==> states[i + 1].applied == states[i].applied && states[i + 1].log == states[i].log
    ensures actions[i].Publish? ==>
              && states[i + 1].applied.generation == states[i].applied.generation + 1
              && states[i + 1].current == states[i + 1].applied
              && states[i + 1].log == states[i].log + [Entry(states[i + 1].applied, states[i].threads[actions[i].t].forced)]
  {
    RunInv(states, actions, i);
    if actions[i].Publish? {
      assert GoodThread(states[i], states[i].threads[actions[i].t]);
    }
  }

  // What a call reports is true: the generation it names was applied, from the very source
  // that this call read.
  lemma ResultsAreTrue(states: seq<State>, actions: seq<Action>, n: nat, t: Thread)
    requires IsRun(states, actions) && n <= |actions| && t < |states[n].threads|
    requires states[n].threads[t].Idle? && states[n].threads[t].last.Some? && !states[n].threads[t].last.value.Failed?
    ensures var r := states[n].threads[t].last.value;
            exists i :: 0 <= i < |states[n].log| && states[n].log[i].snapshot == Snapshot(r.generation, r.seen)
  {
    RunInv(states, actions, n);
    assert GoodThread(states[n], states[n].threads[t]);
  }

  // The two locks are never held together, so some call can always move on.
  lemma NoDeadlock(states: seq<State>, actions: seq<Action>, n: nat)
    requires IsRun(states, actions) && n <= |actions|
    requires exists t: Thread :: t < |states[n].threads| && !states[n].threads[t].Idle?
    ensures exists a :: Moves(a) && Enabled(states[n], a)
  {
    RunInv(states, actions, n);
    var s := states[n];
    if s.loaderLock.Some? {
      assert Enabled(s, Look(s.loaderLock.value, false)) && Moves(Look(s.loaderLock.value, false));
    } else if s.instanceLock.Some? {
      var t := s.instanceLock.value;
      var a := match s.threads[t]
        case Reading => ReadApplied(t)
        case Checking(_, _) => Check(t)
        case Applying(_, _) => RunProgram(t, true)
        case Installing(_, _) => Install(t)
        case _ => Publish(t);
      assert s.threads[t].HoldsInstance();
      assert Enabled(s, a) && Moves(a);
    } else {
      var t: Thread :| t < |s.threads| && !s.threads[t].Idle?;
      assert !s.threads[t].HoldsInstance() && !s.threads[t].HoldsLoader();
      var a := if s.threads[t].HasRead? then EnterLoader(t) else EnterInstance(t);
      assert Enabled(s, a) && Moves(a);
    }
  }

  // A step of a call under way, as opposed to a new call or an edit of the file.
  predicate Moves(a: Action) {
    !a.Edit? && !a.CallIfChanged? && !a.CallReload?
  }

  // The number of steps a call may still take.
  function Left(pc: PC): nat {
    match pc
    case Idle(_) => 0
    case Reading => 8
    case HasRead(_) => 7
    case Looking(_) => 6
    case Compiled(_, _) => 5
    case Checking(_, _) => 4
    case Applying(_, _) => 3
    case Installing(_, _) => 2
    case Publishing(_, _) => 1
  }

  function AllLeft(threads: seq<PC>): nat {
    if threads == [] then 0 else Left(threads[0]) + AllLeft(threads[1..])
  }

  lemma {:induction false} AllLeftUpdate(threads: seq<PC>, t: Thread, pc: PC)
    requires t < |threads|
    ensures AllLeft(threads[t := pc]) == AllLeft(threads) - Left(threads[t]) + Left(pc)
  {
    if t == 0 {
      assert threads[t := pc][1..] == threads[1..];
    } else {
      AllLeftUpdate(threads[1..], t - 1, pc);
      assert threads[t := pc][1..] == threads[1..][t - 1 := pc];
    }
  }

  lemma {:induction false} AllIdle(threads: seq<PC>)
    requires forall t | 0 <= t < |threads| :: threads[t].Idle?
    ensures AllLeft(threads) == 0
  {
    if threads != [] {
      AllIdle(threads[1..]);
    }
  }

  lemma StepLeft(s: State, a: Action)
    requires Enabled(s, a)
    ensures a.Edit? ==> AllLeft(Next(s, a).threads) == AllLeft(s.threads)
    ensures !a.Edit? && Moves(a) ==> AllLeft(Next(s, a).threads) < AllLeft(s.threads)
    ensures !a.Edit? && !Moves(a) ==> AllLeft(Next(s, a).threads) <= AllLeft(s.threads) + 8
  {
    if !a.Edit? {
      AllLeftUpdate(s.threads, a.t, Next(s, a).threads[a.t]);
      assert Next(s, a).threads == s.threads[a.t := Next(s, a).threads[a.t]];
    }
  }

  function Count(actions: seq<Action>, moving: bool): nat {
    if actions == [] then 0
    else
      var a := actions[|actions| - 1];
      Count(actions[..|actions| - 1], moving) + if !a.Edit? && Moves(a) == moving then 1 else 0
  }

  lemma StartsIdle(s: State)
    requires Init(s)
    ensures AllLeft(s.threads) == 0
  {
    AllIdle(s.threads);
  }

  // Every call returns: calls take at most eight steps each, in any interleaving.
  lemma {:induction false} CallsAreBounded(states: seq<State>, actions: seq<Action>, n: nat)
    requires IsRun(states, actions) && n <= |actions|
    ensures Count(actions[..n], true) + AllLeft(states[n].threads) <= 8 * Count(actions[..n], false)
  {
    hide Next, Enabled, Init, AllLeft;
    if n == 0 {
      StartsIdle(states[0]);
    } else {
      CallsAreBounded(states, actions, n - 1);
      var s, a := states[n - 1], actions[n - 1];
      assert actions[..n][..n - 1] == actions[..n - 1];
      StepLeft(s, a);
    }
  }

  // ---------------------------------------------------------------------------------
  // Which program runs once all is quiet

  // Whatever a call has still to apply, and whatever it believes to be applied already, is the
  // source f that is on disk.
  predicate Settling(s: State, f: Fingerprint) {
    && s.disk.Text? && s.disk.fingerprint == f
    && forall t: Thread | t < |s.threads| ::
      match s.threads[t]
      case HasRead(k) => k.fingerprint == f ==> s.applied.fingerprint == f
      case Looking(Some(k)) => k.fingerprint == f ==> s.applied.fingerprint == f
      case Compiled(g, _) => g == f
      case Checking(g, _) => g == f
      case Applying(g, _) => g == f
      case Installing(g, _) => g == f
      case Publishing(g, _) => g == f && s.current.fingerprint == f
      case _ => true
  }

  // A call that ends here, and not in failure.
  predicate Succeeds(s: State, a: Action)
    requires Enabled(s, a)
  {
    !a.Edit? && match Next(s, a).threads[a.t] { case Idle(Some(Unchanged(_, _))) => true case Idle(Some(Changed(_, _))) => true case _ => false }
  }

  lemma SettlingStep(s: State, a: Action, f: Fingerprint)
    requires GoodLocks(s) && Settling(s, f) && Enabled(s, a) && !a.Edit?
    ensures Settling(Next(s, a), f)
    ensures s.applied.fingerprint == f ==> Next(s, a).applied.fingerprint == f
    ensures Succeeds(s, a) ==> Next(s, a).applied.fingerprint == f
  {
    var s' := Next(s, a);
    assert s'.applied.fingerprint != s.applied.fingerprint ==> s'.applied.fingerprint == f;
    forall t: Thread | t < |s.threads| && s.threads[t].Publishing?
      ensures a.t == t || s'.current == s.current
    {
      assert s.instanceLock == Some(t);
    }
  }

  // If at the last edit no call was under way with another source, then after the first call
  // that does not fail the program on disk is the one that runs, and it stays so.
  lemma SettlesOnDisk(states: seq<State>, actions: seq<Action>, m: nat, i: nat, n: nat)
    requires IsRun(states, actions) && m <= i < n <= |actions| && states[m].disk.Text?
    requires Settling(states[m], states[m].disk.fingerprint)
    requires forall k | m <= k < n :: !actions[k].Edit?
    requires Succeeds(states[i], actions[i])
    ensures states[n].disk == states[m].disk && states[n].applied.fingerprint == states[n].disk.fingerprint
    decreases n
  {
    hide Enabled, Next, Settling, GoodLog, GoodHandle, GoodThread, Init;
    var f := states[m].disk.fingerprint;
    SettlingFrom(states, actions, m, i, f);
    RunInv(states, actions, n - 1);
    SettlingFrom(states, actions, m, n - 1, f);
    SettlingStep(states[n - 1], actions[n - 1], f);
    SettlingFrom(states, actions, m, n, f);
    SettlingDisk(states[n], f);
    if i < n - 1 {
      SettlesOnDisk(states, actions, m, i, n - 1);
      SettlingDisk(states[n - 1], f);
    }
  }

  lemma SettlingDisk(s: State, f: Fingerprint)
    requires Settling(s, f)
    ensures s.disk.Text? && s.disk.fingerprint == f
  {
  }

  lemma {:induction false} SettlingFrom(states: seq<State>, actions: seq<Action>, m: nat, n: nat, f: Fingerprint)
    requires IsRun(states, actions) && m <= n <= |actions|
    requires Settling(states[m], f)
    requires forall k | m <= k < n :: !actions[k].Edit?
    ensures Settling(states[n], f) && states[n].disk == states[m].disk
  {
    hide Enabled, Next, GoodLog, GoodHandle, GoodThread, Init;
    if n > m {
      DiskStays(states[n - 1], actions[n - 1]);
      SettlingFrom(states, actions, m, n - 1, f);
      RunInv(states, actions, n - 1);
      SettlingStep(states[n - 1], actions[n - 1], f);
    }
  }

  lemma DiskStays(s: State, a: Action)
    requires Enabled(s, a) && !a.Edit?
    ensures Next(s, a).disk == s.disk
  {
  }

  function Play(s: State, actions: seq<Action>): (r: Option<State>)
    decreases |actions|
  {
    if actions == [] then Some(s)
    else if !Enabled(s, actions[0]) then None
    else Play(Next(s, actions[0]), actions[1..])
  }

  lemma {:induction false} PlayJoins(s: State, a: seq<Action>, b: seq<Action>)
    requires Play(s, a).Some?
    ensures Play(s, a + b) == Play(Play(s, a).value, b)
    decreases |a|
  {
    if a == [] {
      assert a + b == b;
    } else {
      assert (a + b)[1..] == a[1..] + b;
      PlayJoins(Next(s, a[0]), a[1..], b);
    }
  }

  // A whole call, from an idle thread up to its compiled program, and from there to its result.
  function UpToCompiled(t: Thread): seq<Action> {
    [CallIfChanged(t), ReadApplied(t), EnterLoader(t), Look(t, false)]
  }

  function FromCompiled(t: Thread): seq<Action> {
    [EnterInstance(t), Check(t), RunProgram(t, true), Install(t), Publish(t)]
  }

  lemma PlayUpToCompiled(s: State, t: Thread)
    requires t < |s.threads| && s.threads[t].Idle? && s.instanceLock == None && s.loaderLock == None
    requires s.disk.Text? && s.disk.compiles && s.disk.fingerprint != s.applied.fingerprint
    ensures Play(s, UpToCompiled(t)) == Some(s.(threads := s.threads[t := Compiled(s.disk.fingerprint, false)]))
  {
    var a := UpToCompiled(t);
    var s1 := Next(s, a[0]);
    var s2 := Next(s1, a[1]);
    var s3 := Next(s2, a[2]);
    PlayFour(s, a[0], a[1], a[2], a[3]);
    assert Next(s3, a[3]) == s.(threads := s.threads[t := Compiled(s.disk.fingerprint, false)]);
  }

  lemma PlayStep(s: State, a: Action, rest: seq<Action>)
    requires Enabled(s, a)
    ensures Play(s, [a] + rest) == Play(Next(s, a), rest)
  {
    assert ([a] + rest)[1..] == rest;
  }

  lemma PlayFour(s: State, a: Action, b: Action, c: Action, d: Action)
    requires Enabled(s, a) && Enabled(Next(s, a), b)
    requires Enabled(Next(Next(s, a), b), c) && Enabled(Next(Next(Next(s, a), b), c), d)
    ensures Play(s, [a, b, c, d]) == Some(Next(Next(Next(Next(s, a), b), c), d))
  {
    hide Enabled, Next;
    var s1 := Next(s, a);
    var s2 := Next(s1, b);
    var s3 := Next(s2, c);
    PlayStep(s, a, [b, c, d]);
    PlayStep(s1, b, [c, d]);
    PlayStep(s2, c, [d]);
    PlayStep(s3, d, []);
    assert [a, b, c, d] == [a] + [b, c, d] && [b, c, d] == [b] + [c, d] && [c, d] == [c] + [d] && [d] == [d] + [];
  }

  lemma PlayFromCompiled(s: State, t: Thread)
    requires t < |s.threads| && s.threads[t].Compiled? && !s.threads[t].forced && s.instanceLock == None
    requires s.threads[t].fingerprint != s.applied.fingerprint
    ensures var f := s.threads[t].fingerprint;
            var next := Snapshot(s.current.generation + 1, f);
            Play(s, FromCompiled(t)) == Some(s.(
              current := next, applied := next, log := s.log + [Entry(next, false)],
              threads := s.threads[t := Idle(Some(Changed(next.generation, f)))]))
  {
    var a := FromCompiled(t);
    var s1 := Next(s, a[0]);
    assert s1 == s.(instanceLock := Some(t), threads := s.threads[t := Checking(s.threads[t].fingerprint, false)]);
    var s2 := Next(s1, a[1]);
    var s3 := Next(s2, a[2]);
    var s4 := Next(s3, a[3]);
    var f := s.threads[t].fingerprint;
    var next := Snapshot(s.current.generation + 1, f);
    assert Next(s4, a[4]).threads == s.threads[t := Idle(Some(Changed(next.generation, f)))];
    assert Next(s4, a[4]) == s.(
      current := next, applied := next, log := s.log + [Entry(next, false)],
      threads := s.threads[t := Idle(Some(Changed(next.generation, f)))]);
    PlayStep(s, a[0], a[1..]);
    PlayFour(s1, a[1], a[2], a[3], a[4]);
    assert a == [a[0]] + a[1..] && a[1..] == [a[1], a[2], a[3], a[4]];
  }

  // Without that, two calls that overlap an edit may leave the older source running: a compiled
  // program is applied without another look at the disk.
  lemma OlderSourceMayStay(first: Fingerprint, older: Fingerprint, newer: Fingerprint)
    requires first != older && older != newer && newer != first
    ensures var start := Snapshot(1, first);
            var s := State(Text(older, true), None, None, start, start, [Idle(None), Idle(None)], [Entry(start, true)]);
            exists actions, s' ::
              && Init(s) && Play(s, actions) == Some(s')
              && s'.disk == Text(newer, true) && s'.applied.fingerprint == older
              && s'.threads == [Idle(Some(Changed(3, older))), Idle(Some(Changed(2, newer)))]
  {
    hide Play, Next, Enabled, UpToCompiled, FromCompiled;
    var start := Snapshot(1, first);
    var s := State(Text(older, true), None, None, start, start, [Idle(None), Idle(None)], [Entry(start, true)]);
    PlayUpToCompiled(s, 0);
    var s1 := Play(s, UpToCompiled(0)).value;
    var s2 := s1.(disk := Text(newer, true));
    PlayEdit(s1, s2.disk);
    PlayUpToCompiled(s2, 1);
    var s3 := Play(s2, UpToCompiled(1)).value;
    PlayFromCompiled(s3, 1);
    var s4 := Play(s3, FromCompiled(1)).value;
    PlayFromCompiled(s4, 0);
    var s5 := Play(s4, FromCompiled(0)).value;
    PlayJoins(s3, FromCompiled(1), FromCompiled(0));
    PlayJoins(s2, UpToCompiled(1), FromCompiled(1) + FromCompiled(0));
    PlayJoins(s1, [Edit(s2.disk)], UpToCompiled(1) + (FromCompiled(1) + FromCompiled(0)));
    PlayJoins(s, UpToCompiled(0), [Edit(s2.disk)] + (UpToCompiled(1) + (FromCompiled(1) + FromCompiled(0))));
    var actions := UpToCompiled(0) + ([Edit(s2.disk)] + (UpToCompiled(1) + (FromCompiled(1) + FromCompiled(0))));
    assert Init(s) && Play(s, actions) == Some(s5);
    assert s5.threads == [Idle(Some(Changed(3, older))), Idle(Some(Changed(2, newer)))];
  }

  lemma PlayEdit(s: State, disk: Disk)
    ensures Play(s, [Edit(disk)]) == Some(s.(disk := disk))
  {
    assert [Edit(disk)][1..] == [];
  }

  // ---------------------------------------------------------------------------------
  // Exactly when a call may report success while another source runs

  predicate EditFree(actions: seq<Action>) {
    forall i | 0 <= i < |actions| :: !actions[i].Edit?
  }

  // After these steps, none of them an edit, the last one ends a call that succeeds, and what
  // runs then is not f.
  predicate Misleads(s: State, f: Fingerprint, actions: seq<Action>, last: Action) {
    && EditFree(actions) && Play(s, actions).Some? && Enabled(Play(s, actions).value, last)
    && Succeeds(Play(s, actions).value, last) && Next(Play(s, actions).value, last).applied.fingerprint != f
  }

  ghost predicate MayMislead(s: State, f: Fingerprint) {
    exists actions, last :: Misleads(s, f, actions, last)
  }

  lemma MisleadNow(s: State, a: Action, f: Fingerprint)
    requires Enabled(s, a) && Succeeds(s, a) && Next(s, a).applied.fingerprint != f
    ensures MayMislead(s, f)
  {
    assert Misleads(s, f, [], a);
  }

  lemma MisleadStep(s: State, a: Action, f: Fingerprint)
    requires Enabled(s, a) && !a.Edit? && MayMislead(Next(s, a), f)
    ensures MayMislead(s, f)
  {
    hide Enabled, Next, Succeeds, Play;
    var actions, last :| Misleads(Next(s, a), f, actions, last);
    PlayStep(s, a, actions);
    assert Misleads(s, f, [a] + actions, last);
  }

  // A call that holds the instance lock with another source goes on to apply it.
  lemma {:induction false} StaleApplies(s: State, t: Thread, f: Fingerprint)
    requires Inv(s) && t < |s.threads|
    requires s.threads[t].Checking? || s.threads[t].Applying? || s.threads[t].Installing? || s.threads[t].Publishing?
    requires s.threads[t].fingerprint != f
    ensures MayMislead(s, f)
    decreases match s.threads[t] { case Checking(_, _) => 3 case Applying(_, _) => 2 case Installing(_, _) => 1 case _ => 0 }
  {
    hide Inv, MayMislead;
    var a := match s.threads[t]
      case Checking(_, _) => Check(t)
      case Applying(_, _) => RunProgram(t, true)
      case Installing(_, _) => Install(t)
      case _ => Publish(t);
    NextInv(s, a);
    PublishesItsOwn(s, t);
    if Succeeds(s, a) {
      MisleadNow(s, a, f);
    } else {
      StaleApplies(Next(s, a), t, f);
      MisleadStep(s, a, f);
    }
  }

  lemma PublishesItsOwn(s: State, t: Thread)
    requires Inv(s) && t < |s.threads|
    ensures s.threads[t].Publishing? ==> s.current.fingerprint == s.threads[t].fingerprint
  {
    hide GoodLog, GoodLocks, GoodHandle;
    assert GoodThread(s, s.threads[t]);
  }

  // How far the holder of the instance lock is from giving it up.
  function Holding(s: State): nat {
    if s.instanceLock.None? || s.instanceLock.value >= |s.threads| then 0
    else
      match s.threads[s.instanceLock.value]
      case Checking(_, _) => 2
      case Installing(_, _) => 2
      case _ => 1
  }

  function Yielding(s: State, u: Thread): Action
    requires u < |s.threads|
  {
    match s.threads[u]
    case Reading => ReadApplied(u)
    case Checking(_, _) => Check(u)
    case Applying(_, _) => RunProgram(u, false)
    case Installing(_, _) => Install(u)
    case _ => Publish(u)
  }

  // The holder of the instance lock can always come closer to giving it up.
  lemma HolderYields(s: State, t: Thread)
    requires Inv(s) && s.instanceLock.Some? && t < |s.threads| && s.threads[t].Compiled?
    ensures var u := s.instanceLock.value;
            && u < |s.threads| && u != t && Enabled(s, Yielding(s, u)) && !Yielding(s, u).Edit?
            && Holding(Next(s, Yielding(s, u))) < Holding(s)
            && t < |Next(s, Yielding(s, u)).threads| && Next(s, Yielding(s, u)).threads[t] == s.threads[t]
  {
    hide GoodLog, GoodHandle, GoodThread;
    var u := s.instanceLock.value;
    assert s.threads[u].HoldsInstance();
  }

  // A call that has compiled another source gets to apply it once the lock is free.
  lemma {:induction false} StaleCompiled(s: State, t: Thread, f: Fingerprint)
    requires Inv(s) && t < |s.threads| && s.threads[t].Compiled? && s.threads[t].fingerprint != f
    ensures MayMislead(s, f)
    decreases Holding(s)
  {
    hide Inv, MayMislead, Holding, Yielding;
    if s.instanceLock.None? {
      var a := EnterInstance(t);
      NextInv(s, a);
      StaleApplies(Next(s, a), t, f);
      MisleadStep(s, a, f);
    } else {
      HolderYields(s, t);
      var a := Yielding(s, s.instanceLock.value);
      NextInv(s, a);
      StaleCompiled(Next(s, a), t, f);
      MisleadStep(s, a, f);
    }
  }

  // A call that still takes the source on disk for the applied one reports so.
  lemma {:induction false} StaleKnown(s: State, t: Thread, k: Snapshot, f: Fingerprint)
    requires Inv(s) && t < |s.threads| && (s.threads[t] == HasRead(k) || s.threads[t] == Looking(Some(k)))
    requires s.disk.Text? && s.disk.fingerprint == f == k.fingerprint && s.applied.fingerprint != f
    ensures MayMislead(s, f)
    decreases if s.threads[t].Looking? then 0 else if s.loaderLock.None? then 1 else 2
  {
    hide Inv, MayMislead;
    if s.threads[t].Looking? {
      MisleadNow(s, Look(t, false), f);
    } else if s.loaderLock.None? {
      NextInv(s, EnterLoader(t));
      StaleKnown(Next(s, EnterLoader(t)), t, k, f);
      MisleadStep(s, EnterLoader(t), f);
    } else {
      LoaderHolder(s, t);
      var a := Look(s.loaderLock.value, true);
      NextInv(s, a);
      StaleKnown(Next(s, a), t, k, f);
      MisleadStep(s, a, f);
    }
  }

  lemma LoaderHolder(s: State, t: Thread)
    requires Inv(s) && s.loaderLock.Some? && t < |s.threads| && s.threads[t].HasRead?
    ensures s.loaderLock.value < |s.threads| && s.threads[s.loaderLock.value].Looking? && s.loaderLock.value != t
  {
    hide GoodLog, GoodHandle, GoodThread;
    assert s.threads[s.loaderLock.value].HoldsLoader();
  }

  lemma {:induction false} SettlingPlay(s: State, actions: seq<Action>, f: Fingerprint)
    requires Inv(s) && Settling(s, f) && EditFree(actions) && Play(s, actions).Some?
    ensures Inv(Play(s, actions).value) && Settling(Play(s, actions).value, f)
    decreases |actions|
  {
    hide Inv, Settling, Enabled, Next;
    if actions != [] {
      NextInv(s, actions[0]);
      InvLocks(s);
      SettlingStep(s, actions[0], f);
      SettlingPlay(Next(s, actions[0]), actions[1..], f);
    }
  }

  lemma InvLocks(s: State)
    requires Inv(s)
    ensures GoodLocks(s)
  {
  }

  // No call that succeeds before the next edit, in any interleaving, leaves another source
  // running exactly if no call under way has another source to apply or, wrongly, takes the one
  // on disk for applied.
  lemma MisleadsExactly(s: State)
    requires Inv(s) && s.disk.Text?
    ensures !MayMislead(s, s.disk.fingerprint) <==> Settling(s, s.disk.fingerprint)
  {
    hide Inv, Enabled, Next, Succeeds, Play;
    var f := s.disk.fingerprint;
    if Settling(s, f) && MayMislead(s, f) {
      var actions, last :| Misleads(s, f, actions, last);
      SettlingPlay(s, actions, f);
      InvLocks(Play(s, actions).value);
      SucceedsIsCall(Play(s, actions).value, last);
      SettlingStep(Play(s, actions).value, last, f);
      assert false;
    }
    if !Settling(s, f) {
      UnsettledThread(s, f);
      var t: Thread :| t < |s.threads| && Unsettled(s, s.threads[t], f);
      match s.threads[t]
      case HasRead(k) => StaleKnown(s, t, k, f);
      case Looking(Some(k)) => StaleKnown(s, t, k, f);
      case Compiled(_, _) => StaleCompiled(s, t, f);
      case _ => StaleApplies(s, t, f);
    }
  }

  lemma SucceedsIsCall(s: State, a: Action)
    requires Enabled(s, a) && Succeeds(s, a)
    ensures !a.Edit?
  {
  }

  predicate Unsettled(s: State, pc: PC, f: Fingerprint) {
    match pc
    case HasRead(k) => k.fingerprint == f && s.applied.fingerprint != f
    case Looking(Some(k)) => k.fingerprint == f && s.applied.fingerprint != f
    case Compiled(g, _) => g != f
    case Checking(g, _) => g != f
    case Applying(g, _) => g != f
    case Installing(g, _) => g != f
    case Publishing(g, _) => g != f
    case _ => false
  }

  lemma UnsettledThread(s: State, f: Fingerprint)
    requires Inv(s) && s.disk.Text? && s.disk.fingerprint == f && !Settling(s, f)
    ensures exists t: Thread :: t < |s.threads| && Unsettled(s, s.threads[t], f)
  {
    hide Inv;
    forall t: Thread | t < |s.threads|
      ensures s.threads[t].Publishing? ==> s.current.fingerprint == s.threads[t].fingerprint
    {
      PublishesItsOwn(s, t);
    }
  }

  // ---------------------------------------------------------------------------------
  // Only sources that compile are ever applied

  // In step k the call that thread t is still making before step n read a source f that compiles.
  predicate Reads(states: seq<State>, actions: seq<Action>, k: nat, n: nat, t: Thread, f: Fingerprint) {
    && k < n <= |actions| && |states| == |actions| + 1
    && actions[k] == Look(t, false) && states[k].disk == Text(f, true)
    && forall m | k < m <= n :: t < |states[m].threads| && !states[m].threads[t].Idle?
  }

  predicate HasSource(pc: PC) {
    pc.Compiled? || pc.Checking? || pc.Applying? || pc.Installing? || pc.Publishing?
  }

  lemma SourceComes(s: State, a: Action, t: Thread)
    requires Enabled(s, a) && t < |Next(s, a).threads| && HasSource(Next(s, a).threads[t])
    ensures t < |s.threads|
    ensures var f := Next(s, a).threads[t].fingerprint;
            || (a == Look(t, false) && s.disk == Text(f, true))
            || (HasSource(s.threads[t]) && s.threads[t].fingerprint == f)
  {
  }

  lemma {:induction false} SourceWasRead(states: seq<State>, actions: seq<Action>, n: nat, t: Thread)
    requires IsRun(states, actions) && n <= |actions| && t < |states[n].threads| && HasSource(states[n].threads[t])
    ensures exists k :: Reads(states, actions, k, n, t, states[n].threads[t].fingerprint)
  {
    hide Enabled, Next;
    if n > 0 {
      var f := states[n].threads[t].fingerprint;
      SourceComes(states[n - 1], actions[n - 1], t);
      if actions[n - 1] == Look(t, false) && states[n - 1].disk == Text(f, true) {
        assert Reads(states, actions, n - 1, n, t, f);
      } else {
        SourceWasRead(states, actions, n - 1, t);
        var k :| Reads(states, actions, k, n - 1, t, f);
        assert Reads(states, actions, k, n, t, f);
      }
    }
  }

  // Every program after the first was read from disk, and compiled, by the call that applied it.
  lemma {:induction false} AppliedWasRead(states: seq<State>, actions: seq<Action>, n: nat, i: nat)
    requires IsRun(states, actions) && n <= |actions| && 0 < i < |states[n].log|
    ensures exists k: nat, m: nat, t: Thread :: k < m < n && actions[m] == Publish(t) && states[m + 1].applied == states[n].log[i].snapshot
              && Reads(states, actions, k, m, t, states[n].log[i].snapshot.fingerprint)
  {
    hide Enabled, Next, Inv;
    if n > 0 {
      OnlyPublishApplies(states, actions, n - 1);
      if i < |states[n - 1].log| {
        assert states[n - 1].log[i] == states[n].log[i];
        AppliedWasRead(states, actions, n - 1, i);
      } else {
        PublishedWasRead(states, actions, n - 1);
        var t, f := actions[n - 1].t, states[n].applied.fingerprint;
        assert states[n].log[i].snapshot == states[n].applied && actions[n - 1] == Publish(t);
        var k: nat :| Reads(states, actions, k, n - 1, t, f);
        assert k < n - 1 < n;
      }
    }
  }

  lemma PublishedWasRead(states: seq<State>, actions: seq<Action>, m: nat)
    requires IsRun(states, actions) && m < |actions| && actions[m].Publish?
    ensures var (t, applied) := (actions[m].t, states[m + 1].applied);
            && t < |states[m + 1].threads| && states[m + 1].threads[t] == Idle(Some(Changed(applied.generation, applied.fingerprint)))
            && exists k :: Reads(states, actions, k, m, t, applied.fingerprint)
  {
    RunInv(states, actions, m);
    hide Inv;
    PublishesItsOwn(states[m], actions[m].t);
    SourceWasRead(states, actions, m, actions[m].t);
  }

  // A call that reports a change has read and compiled the source it names, and applied it.
  lemma {:induction false} ChangedWasRead(states: seq<State>, actions: seq<Action>, n: nat, t: Thread)
    requires IsRun(states, actions) && n <= |actions| && t < |states[n].threads|
    requires states[n].threads[t].Idle? && states[n].threads[t].last.Some? && states[n].threads[t].last.value.Changed?
    ensures var r := states[n].threads[t].last.value;
            exists k: nat, m: nat :: k < m < n && actions[m] == Publish(t) && states[m + 1].applied == Snapshot(r.generation, r.seen)
              && Reads(states, actions, k, m, t, r.seen)
  {
    hide Enabled, Next, Inv;
    if n > 0 {
      ChangedComes(states[n - 1], actions[n - 1], t);
      if actions[n - 1] == Publish(t) {
        PublishedWasRead(states, actions, n - 1);
      } else {
        ChangedWasRead(states, actions, n - 1, t);
      }
    }
  }

  lemma ChangedComes(s: State, a: Action, t: Thread)
    requires Enabled(s, a) && t < |Next(s, a).threads|
    requires var pc := Next(s, a).threads[t]; pc.Idle? && pc.last.Some? && pc.last.value.Changed?
    ensures t < |s.threads| && (a == Publish(t) || Next(s, a).threads[t] == s.threads[t])
  {
  }

  // A call that finds the source unreadable, or changed but not compiling, or is cancelled then,
  // fails; one that finds it unchanged says so; and nothing is published either way.
  lemma LookExactly(states: seq<State>, actions: seq<Action>, i: nat)
    requires IsRun(states, actions) && i < |actions| && actions[i].Look?
    ensures states[i + 1].applied == states[i].applied && states[i + 1].current == states[i].current && states[i + 1].log == states[i].log
    ensures var (t, disk) := (actions[i].t, states[i].disk);
            && t < |states[i].threads| == |states[i + 1].threads| && states[i].threads[t].Looking?
            && var (known, pc) := (states[i].threads[t].known, states[i + 1].threads[t]);
            && (disk.Unreadable? ==> pc == Idle(Some(Failed)))
            && (disk.Text? && known.Some? && known.value.fingerprint == disk.fingerprint ==>
                  pc == Idle(Some(Unchanged(known.value.generation, disk.fingerprint))))
            && (disk.Text? && (known.None? || known.value.fingerprint != disk.fingerprint) ==>
                  if actions[i].cancelled || !disk.compiles then pc == Idle(Some(Failed))
                  else pc == Compiled(disk.fingerprint, known.None?))
  {
  }
}
