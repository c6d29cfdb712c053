/** Checking examples on a pool of workers that write straight into one shared slice. */
module ExamplesPool {
  import opened Wrappers

  // The number of examples, the number of jobs asked for, and what checking each one yields.
  datatype Job = Job(examples: nat, jobs: int, check: nat -> int)

  function WorkerCount(examples: nat, jobs: int): nat {
    var capped := if jobs > examples then examples else jobs;
    if capped < 1 then 1 else capped
  }

  datatype Worker =
    | Receiving
    | Checking(index: nat)
    | Writing(index: nat, value: int)   // about to store into results[index]
    | Leaving
    | Exited

  // The main goroutine feeds, closes the channel and waits for the workers.
  datatype Main = Feeding(next: nat) | Waiting | Returned

  datatype State = State(main: Main, workers: seq<Worker>, closed: bool, wg: nat, results: seq<Option<int>>)

  datatype Action =
    | HandOver(w: nat)
    | Close
    | Check(w: nat)
    | Write(w: nat)
    | SeeClosed(w: nat)
    | Exit(w: nat)
    | Return

  predicate Enabled(j: Job, s: State, a: Action) {
    match a
    case HandOver(w) => s.main.Feeding? && s.main.next < j.examples && w < |s.workers| && s.workers[w].Receiving?
    case Close => s.main.Feeding? && s.main.next >= j.examples
    case Check(w) => w < |s.workers| && s.workers[w].Checking?
    case Write(w) => w < |s.workers| && s.workers[w].Writing?
    case SeeClosed(w) => w < |s.workers| && s.workers[w].Receiving? && s.closed
    case Exit(w) => w < |s.workers| && s.workers[w].Leaving?
    case Return => s.main.Waiting? && s.wg == 0
  }

  // A send on the closed channel, a second close, a negative wait group, a bad index.
  predicate Panics(s: State, a: Action) {
    match a
    case HandOver(_) => s.closed
    case Close => s.closed
    case Write(w) => w < |s.workers| && s.workers[w].Writing? && s.workers[w].index >= |s.results|
    case Exit(_) => s.wg == 0
    case _ => false
  }

  function Next(j: Job, s: State, a: Action): State
    requires Enabled(j, s, a) && !Panics(s, a)
  {
    match a
    case HandOver(w) => s.(main := Feeding(s.main.next + 1), workers := s.workers[w := Checking(s.main.next)])
    case Close => s.(main := Waiting, closed := true)
    case Check(w) =>
      var index := s.workers[w].index;
      s.(workers := s.workers[w := Writing(index, j.check(index))])
    case Write(w) =>
      var worker := s.workers[w];
      s.(workers := s.workers[w := Receiving], results := s.results[worker.index := Some(worker.value)])
    case SeeClosed(w) => s.(workers := s.workers[w := Leaving])
    case Exit(w) => s.(workers := s.workers[w := Exited], wg := s.wg - 1)
    case Return => s.(main := Returned)
  }

  function Start(j: Job): State {
    State(Feeding(0), seq(WorkerCount(j.examples, j.jobs), _ => Receiving), false,
          WorkerCount(j.examples, j.jobs), seq(j.examples, _ => None))
  }

  // ---------------------------------------------------------------------------------
  // The invariant

  function Fed(j: Job, s: State): nat {
    if s.main.Feeding? then s.main.next else j.examples
  }

  predicate Busy(w: Worker) {
    w.Checking? || w.Writing?
  }

  predicate Owns(w: Worker, i: nat) {
    Busy(w) && w.index == i
  }

  // An index that was handed over is either owned by exactly one worker and still unwritten,
  ghost predicate OwnedOnce(j: Job, s: State) {
    && Fed(j, s) <= j.examples == |s.results|
    && (forall w | 0 <= w < |s.workers| && Busy(s.workers[w]) :: s.workers[w].index < Fed(j, s) && s.results[s.workers[w].index] == None)
    && (forall v, w | 0 <= v < w < |s.workers| && Busy(s.workers[v]) && Busy(s.workers[w]) :: s.workers[v].index != s.workers[w].index)
    && (forall i: nat | i < j.examples && s.results[i].Some? :: i < Fed(j, s))
  }

  // ... or written with its own result,
  ghost predicate TrueWrites(j: Job, s: State) {
    && (forall w | 0 <= w < |s.workers| && s.workers[w].Writing? :: s.workers[w].value == j.check(s.workers[w].index))
    && (forall i: nat | i < |s.results| && s.results[i].Some? :: s.results[i] == Some(j.check(i)))
  }

  // ... and none is lost.
  ghost predicate NoneLost(j: Job, s: State) {
    forall i: nat | i < Fed(j, s) && i < |s.results| && s.results[i] == None :: exists w :: 0 <= w < |s.workers| && Owns(s.workers[w], i)
  }

  function LiveWorkers(workers: seq<Worker>): nat {
    if workers == [] then 0 else (if workers[0].Exited? then 0 else 1) + LiveWorkers(workers[1..])
  }

  predicate Channels(j: Job, s: State) {
    && |s.workers| == WorkerCount(j.examples, j.jobs) && s.wg == LiveWorkers(s.workers)
    && (s.closed <==> !s.main.Feeding?)
    && (forall w | 0 <= w < |s.workers| && (s.workers[w].Leaving? || s.workers[w].Exited?) :: s.closed)
    && (s.main.Returned? ==> forall w | 0 <= w < |s.workers| :: s.workers[w].Exited?)
  }

  ghost predicate Inv(j: Job, s: State) {
    OwnedOnce(j, s) && TrueWrites(j, s) && NoneLost(j, s) && Channels(j, s)
  }

  lemma {:induction false} LiveUpdate(workers: seq<Worker>, w: nat, worker: Worker)
    requires w < |workers|
    ensures LiveWorkers(workers[w := worker]) ==
            LiveWorkers(workers) - (if workers[w].Exited? then 0 else 1) + (if worker.Exited? then 0 else 1)
  {
    if w == 0 {
      assert workers[w := worker][1..] == workers[1..];
    } else {
      LiveUpdate(workers[1..], w - 1, worker);
      assert workers[w := worker][1..] == workers[1..][w - 1 := worker];
    }
  }

  lemma {:induction false} NoneLive(workers: seq<Worker>)
    ensures LiveWorkers(workers) == 0 <==> forall w | 0 <= w < |workers| :: workers[w].Exited?
  {
    if workers != [] {
      NoneLive(workers[1..]);
      assert forall w | 0 < w < |workers| :: workers[w] == workers[1..][w - 1];
      if LiveWorkers(workers) != 0 && workers[0].Exited? {
        var w :| 0 <= w < |workers[1..]| && !workers[1..][w].Exited?;
        assert !workers[w + 1].Exited?;
      }
    }
  }

  lemma {:induction false} FreshWorkers(n: nat)
    ensures LiveWorkers(seq(n, _ => Receiving)) == n && Potential(seq(n, _ => Receiving)) == 2 * n
  {
    if n > 0 {
      FreshWorkers(n - 1);
      assert seq(n, _ => Receiving)[1..] == seq(n - 1, _ => Receiving);
    }
  }

  lemma StartInv(j: Job)
    ensures Inv(j, Start(j))
  {
    FreshWorkers(WorkerCount(j.examples, j.jobs));
  }

  lemma NextOwnedOnce(j: Job, s: State, a: Action)
    requires OwnedOnce(j, s) && Enabled(j, s, a) && !Panics(s, a)
    ensures OwnedOnce(j, Next(j, s, a))
  {
    if a.HandOver? || a.Write? {
      HandsOverOnce(j, s, a);
    }
  }

  // The two steps that change who owns an index.
  lemma HandsOverOnce(j: Job, s: State, a: Action)
    requires OwnedOnce(j, s) && Enabled(j, s, a) && !Panics(s, a) && (a.HandOver? || a.Write?)
    ensures OwnedOnce(j, Next(j, s, a))
  {
    var s' := Next(j, s, a);
    forall w | 0 <= w < |s'.workers| && w != a.w
      ensures s'.workers[w] == s.workers[w]
    {
    }
  }

  lemma NextTrueWrites(j: Job, s: State, a: Action)
    requires TrueWrites(j, s) && Enabled(j, s, a) && !Panics(s, a)
    ensures TrueWrites(j, Next(j, s, a))
  {
  }

  lemma NextNoneLost(j: Job, s: State, a: Action)
    requires OwnedOnce(j, s) && NoneLost(j, s) && Enabled(j, s, a) && !Panics(s, a)
    ensures NoneLost(j, Next(j, s, a))
  {
    var s' := Next(j, s, a);
    forall i: nat | i < Fed(j, s') && i < |s'.results| && s'.results[i] == None
      ensures exists w :: 0 <= w < |s'.workers| && Owns(s'.workers[w], i)
    {
      if a.HandOver? && i == s.main.next {
        assert Owns(s'.workers[a.w], i);
      } else {
        assert s.results[i] == None;
        var w :| 0 <= w < |s.workers| && Owns(s.workers[w], i);
        assert Owns(s'.workers[w], i);
      }
    }
  }

  lemma NextChannels(j: Job, s: State, a: Action)
    requires Channels(j, s) && Enabled(j, s, a) && !Panics(s, a)
    ensures Channels(j, Next(j, s, a))
  {
    if a.HandOver? || a.Check? || a.Write? || a.SeeClosed? || a.Exit? {
      LiveUpdate(s.workers, a.w, Next(j, s, a).workers[a.w]);
    }
    NoneLive(s.workers);
  }

  lemma NoPanic(j: Job, s: State, a: Action)
    requires Inv(j, s) && Enabled(j, s, a)
    ensures !Panics(s, a)
  {
    NoneLive(s.workers);
  }

  // ---------------------------------------------------------------------------------
  // Progress and whole runs

  function Steps(w: Worker): nat {
    match w
    case Receiving => 2
    case Checking(_) => 4
    case Writing(_, _) => 3
    case Leaving => 1
    case Exited => 0
  }

  function Potential(workers: seq<Worker>): nat {
    if workers == [] then 0 else Steps(workers[0]) + Potential(workers[1..])
  }

  lemma {:induction false} PotentialUpdate(workers: seq<Worker>, w: nat, worker: Worker)
    requires w < |workers|
    ensures Potential(workers[w := worker]) == Potential(workers) - Steps(workers[w]) + Steps(worker)
  {
    if w == 0 {
      assert workers[w := worker][1..] == workers[1..];
    } else {
      PotentialUpdate(workers[1..], w - 1, worker);
      assert workers[w := worker][1..] == workers[1..][w - 1 := worker];
    }
  }

  // The number of steps left, on every schedule.
  function Remaining(j: Job, s: State): int {
    Potential(s.workers) + match s.main
      case Feeding(next) => 3 * (j.examples - next) + 2
      case Waiting => 1
      case Returned => 0
  }

  lemma EveryStepCounts(j: Job, s: State, a: Action)
    requires Enabled(j, s, a) && !Panics(s, a) && Fed(j, s) <= j.examples
    ensures Remaining(j, Next(j, s, a)) == Remaining(j, s) - 1
  {
    if a.HandOver? || a.Check? || a.Write? || a.SeeClosed? || a.Exit? {
      PotentialUpdate(s.workers, a.w, Next(j, s, a).workers[a.w]);
    }
  }

  lemma NoDeadlock(j: Job, s: State)
    requires Inv(j, s) && !s.main.Returned?
    ensures exists a :: Enabled(j, s, a)
  {
    if w: nat :| w < |s.workers| && !s.workers[w].Exited? {
      match s.workers[w]
      case Receiving => assert Enabled(j, s, SeeClosed(w)) || Enabled(j, s, HandOver(w)) || Enabled(j, s, Close);
      case Checking(_) => assert Enabled(j, s, Check(w));
      case Writing(_, _) => assert Enabled(j, s, Write(w));
      case Leaving => assert Enabled(j, s, Exit(w));
    } else {
      NoneLive(s.workers);
      assert s.workers[0].Exited?;
      assert Enabled(j, s, Return);
    }
  }

  ghost predicate IsRun(j: Job, states: seq<State>, actions: seq<Action>) {
    && |states| == |actions| + 1 && states[0] == Start(j)
    && forall i | 0 <= i < |actions| ::
         Enabled(j, states[i], actions[i]) && (!Panics(states[i], actions[i]) ==> states[i + 1] == Next(j, states[i], actions[i]))
  }

  lemma {:induction false} RunInv(j: Job, states: seq<State>, actions: seq<Action>, n: nat)
    requires IsRun(j, states, actions) && n <= |actions|
    ensures Inv(j, states[n])
    ensures Remaining(j, states[n]) == 3 * j.examples + 2 * WorkerCount(j.examples, j.jobs) + 2 - n
  {
    if n == 0 {
      StartInv(j);
      FreshWorkers(WorkerCount(j.examples, j.jobs));
    } else {
      RunInv(j, states, actions, n - 1);
      NoPanic(j, states[n - 1], actions[n - 1]);
      NextOwnedOnce(j, states[n - 1], actions[n - 1]);
      NextTrueWrites(j, states[n - 1], actions[n - 1]);
      NextNoneLost(j, states[n - 1], actions[n - 1]);
      NextChannels(j, states[n - 1], actions[n - 1]);
      EveryStepCounts(j, states[n - 1], actions[n - 1]);
    }
  }

  // Writes never race: two workers about to write hold different indices, and an index is
  // written while it still holds the zero value, so at most once.
  lemma NoWriteRace(j: Job, states: seq<State>, actions: seq<Action>, n: nat, v: nat, w: nat)
    requires IsRun(j, states, actions) && n <= |actions|
    requires v < |states[n].workers| && states[n].workers[v].Writing?
    requires w < |states[n].workers| && states[n].workers[w].Writing?
    ensures v != w ==> states[n].workers[v].index != states[n].workers[w].index
    ensures states[n].workers[v].index < |states[n].results| && states[n].results[states[n].workers[v].index] == None
  {
    RunInv(j, states, actions, n);
  }

  // Every schedule ends without a panic, and returns what checking one by one would.
  lemma PoolIsSequential(j: Job, states: seq<State>, actions: seq<Action>)
    requires IsRun(j, states, actions)
    ensures forall i | 0 <= i < |actions| :: !Panics(states[i], actions[i])
    ensures |actions| <= 3 * j.examples + 2 * WorkerCount(j.examples, j.jobs) + 2
    ensures states[|actions|].main.Returned? || exists a :: Enabled(j, states[|actions|], a)
    ensures states[|actions|].main.Returned? ==>
              states[|actions|].results == seq(j.examples, i requires 0 <= i => Some(j.check(i)))
  {
    forall i | 0 <= i < |actions|
      ensures !Panics(states[i], actions[i])
    {
      RunInv(j, states, actions, i);
      NoPanic(j, states[i], actions[i]);
    }
    RunInv(j, states, actions, |actions|);
    if !states[|actions|].main.Returned? {
      NoDeadlock(j, states[|actions|]);
    }
  }

  // As many workers as jobs, but at least one, and no more than examples if there are any.
  lemma WorkersWanted(examples: nat, jobs: int)
    ensures 1 <= WorkerCount(examples, jobs) && (examples > 0 ==> WorkerCount(examples, jobs) <= examples)
    ensures 1 <= jobs <= examples ==> WorkerCount(examples, jobs) == jobs
    ensures jobs > examples > 0 ==> WorkerCount(examples, jobs) == examples
    ensures jobs <= 1 || examples == 0 ==> WorkerCount(examples, jobs) == 1
  {
  }

  // The call starts exactly that many goroutines, each waiting for work.
  lemma StartsThatMany(j: Job)
    ensures |Start(j).workers| == Start(j).wg == WorkerCount(j.examples, j.jobs)
    ensures forall w | 0 <= w < |Start(j).workers| :: Start(j).workers[w].Receiving?
  {
  }
}
