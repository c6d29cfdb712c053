/** Running specs on a pool of workers: a feeder on an unbuffered channel, workers that report on
    a buffered one, a close-wait-close chain and a collecting loop, in every interleaving. */
module WorkerPool {
  import opened Wrappers

  // What running one spec yields: results and errors are opaque.
  datatype Outcome = Outcome(result: int, err: Option<int>)

  datatype Item = Item(index: nat, outcome: Outcome)

  // The number of specs, the number of jobs asked for, and what running each spec yields.
  datatype Job = Job(specs: nat, jobs: int, run: nat -> Outcome)

  function WorkerCount(specs: nat, jobs: int): nat {
    var capped := if jobs > specs then specs else jobs;
    if capped < 1 then 1 else capped
  }

  datatype Worker =
    | Receiving               // at the head of the loop over the work channel
    | Working(index: nat)
    | Sending(item: Item)     // about to send on the done channel
    | Leaving                 // the work channel is closed
    | Exited                  // has called wg.Done

  datatype Feeder = Feeding(next: nat) | AwaitingWorkers | ClosingDone | Finished

  datatype State = State(
    feeder: Feeder,
    workers: seq<Worker>,
    workClosed: bool,
    wg: nat,
    done: seq<Item>,          // the buffer of the done channel
    doneClosed: bool,
    collected: seq<nat>,      // indices in the order of collection
    results: seq<Option<int>>,
    firstErr: Option<int>,
    returned: bool)

  datatype Action =
    | HandOver(w: nat)        // the rendezvous on the unbuffered channel
    | CloseWork
    | Run(w: nat)
    | Send(w: nat)
    | SeeClosed(w: nat)
    | Exit(w: nat)
    | AllExited
    | CloseDone
    | Collect
    | Return

  predicate Enabled(j: Job, s: State, a: Action) {
    match a
    case HandOver(w) => s.feeder.Feeding? && s.feeder.next < j.specs && w < |s.workers| && s.workers[w].Receiving?
    case CloseWork => s.feeder.Feeding? && s.feeder.next >= j.specs
    case Run(w) => w < |s.workers| && s.workers[w].Working?
    case Send(w) => w < |s.workers| && s.workers[w].Sending? && |s.done| < j.specs
    case SeeClosed(w) => w < |s.workers| && s.workers[w].Receiving? && s.workClosed
    case Exit(w) => w < |s.workers| && s.workers[w].Leaving?
    case AllExited => s.feeder.AwaitingWorkers? && s.wg == 0
    case CloseDone => s.feeder.ClosingDone?
    case Collect => !s.returned && s.done != []
    case Return => !s.returned && s.done == [] && s.doneClosed
  }

  // A send on a closed channel, a second close or a negative wait group would panic.
  predicate Panics(s: State, a: Action) {
    match a
    case HandOver(_) => s.workClosed
    case CloseWork => s.workClosed
    case Send(_) => s.doneClosed
    case Exit(_) => s.wg == 0
    case CloseDone => s.doneClosed
    case Collect => s.done != [] && s.done[0].index >= |s.results|
    case _ => false
  }

  function Next(j: Job, s: State, a: Action): State
    requires Enabled(j, s, a) && !Panics(s, a)
  {
    match a
    case HandOver(w) =>
      s.(feeder := Feeding(s.feeder.next + 1), workers := s.workers[w := Working(s.feeder.next)])
    case CloseWork => s.(feeder := AwaitingWorkers, workClosed := true)
    case Run(w) =>
      var index := s.workers[w].index;
      s.(workers := s.workers[w := Sending(Item(index, j.run(index)))])
    case Send(w) => s.(workers := s.workers[w := Receiving], done := s.done + [s.workers[w].item])
    case SeeClosed(w) => s.(workers := s.workers[w := Leaving])
    case Exit(w) => s.(workers := s.workers[w := Exited], wg := s.wg - 1)
    case AllExited => s.(feeder := ClosingDone)
    case CloseDone => s.(feeder := Finished, doneClosed := true)
    case Collect =>
      var item := s.done[0];
      s.(done := s.done[1..],
         collected := s.collected + [item.index],
         firstErr := if item.outcome.err.Some? && s.firstErr.None? then item.outcome.err else s.firstErr,
         results := s.results[item.index := Some(item.outcome.result)])
    case Return => s.(returned := true)
  }

  function Start(j: Job): State {
    State(Feeding(0), seq(WorkerCount(j.specs, j.jobs), _ => Receiving), false, WorkerCount(j.specs, j.jobs),
          [], false, [], seq(j.specs, _ => None), None, false)
  }

  // ---------------------------------------------------------------------------------
  // Where each index is

  function Holds(w: Worker, i: nat): nat {
    if (w.Working? && w.index == i) || (w.Sending? && w.item.index == i) then 1 else 0
  }

  function Held(workers: seq<Worker>, i: nat): nat {
    if workers == [] then 0 else Holds(workers[0], i) + Held(workers[1..], i)
  }

  function Sent(items: seq<Item>, i: nat): nat {
    if items == [] then 0 else (if items[0].index == i then 1 else 0) + Sent(items[1..], i)
  }

  function Times(indices: seq<nat>, i: nat): nat {
    if indices == [] then 0 else (if indices[0] == i then 1 else 0) + Times(indices[1..], i)
  }

  predicate Busy(w: Worker) {
    w.Working? || w.Sending?
  }

  // The number of workers of a kind.
  function Tally(workers: seq<Worker>, kind: Worker -> bool): nat {
    if workers == [] then 0 else (if kind(workers[0]) then 1 else 0) + Tally(workers[1..], kind)
  }

  lemma {:induction false} HeldUpdate(workers: seq<Worker>, w: nat, worker: Worker, i: nat)
    requires w < |workers|
    ensures Held(workers[w := worker], i) == Held(workers, i) - Holds(workers[w], i) + Holds(worker, i)
  {
    if w == 0 {
      assert workers[w := worker][1..] == workers[1..];
    } else {
      HeldUpdate(workers[1..], w - 1, worker, i);
      assert workers[w := worker][1..] == workers[1..][w - 1 := worker];
    }
  }

  lemma {:induction false} HeldAt(workers: seq<Worker>, w: nat, i: nat)
    requires w < |workers|
    ensures Holds(workers[w], i) <= Held(workers, i)
  {
    if w > 0 {
      HeldAt(workers[1..], w - 1, i);
    }
  }

  lemma {:induction false} TallyUpdate(workers: seq<Worker>, w: nat, worker: Worker, kind: Worker -> bool)
    requires w < |workers|
    ensures Tally(workers[w := worker], kind) ==
            Tally(workers, kind) - (if kind(workers[w]) then 1 else 0) + (if kind(worker) then 1 else 0)
  {
    if w == 0 {
      assert workers[w := worker][1..] == workers[1..];
    } else {
      TallyUpdate(workers[1..], w - 1, worker, kind);
      assert workers[w := worker][1..] == workers[1..][w - 1 := worker];
    }
  }

  lemma {:induction false} TallyZero(workers: seq<Worker>, kind: Worker -> bool)
    ensures Tally(workers, kind) == 0 <==> forall w | 0 <= w < |workers| :: !kind(workers[w])
  {
    if workers != [] {
      TallyZero(workers[1..], kind);
      if Tally(workers, kind) == 0 {
        forall w | 0 <= w < |workers|
          ensures !kind(workers[w])
        {
          assert w > 0 ==> workers[w] == workers[1..][w - 1];
        }
      } else if !kind(workers[0]) {
        var w :| 0 <= w < |workers[1..]| && kind(workers[1..][w]);
        assert kind(workers[w + 1]);
      }
    }
  }

  lemma {:induction false} SentAppend(items: seq<Item>, item: Item, i: nat)
    ensures Sent(items + [item], i) == Sent(items, i) + if item.index == i then 1 else 0
  {
    if items != [] {
      SentAppend(items[1..], item, i);
      assert (items + [item])[1..] == items[1..] + [item];
    }
  }

  lemma {:induction false} TimesAppend(indices: seq<nat>, index: nat, i: nat)
    ensures Times(indices + [index], i) == Times(indices, i) + if index == i then 1 else 0
  {
    if indices != [] {
      TimesAppend(indices[1..], index, i);
      assert (indices + [index])[1..] == indices[1..] + [index];
    }
  }

  // ---------------------------------------------------------------------------------
  // The invariant

  function Fed(j: Job, s: State): nat {
    if s.feeder.Feeding? then s.feeder.next else j.specs
  }

  predicate Live(w: Worker) {
    !w.Exited?
  }

  // Every index handed over is in exactly one place, once; the others are nowhere.
  ghost predicate Conserved(j: Job, s: State) {
    && Fed(j, s) <= j.specs
    && (forall i: nat :: Held(s.workers, i) + Sent(s.done, i) + Times(s.collected, i) == if i < Fed(j, s) then 1 else 0)
    && Tally(s.workers, Busy) + |s.done| + |s.collected| == Fed(j, s)
  }

  predicate Counted(s: State) {
    s.wg == Tally(s.workers, Live)
  }

  predicate Channels(j: Job, s: State) {
    && |s.workers| == WorkerCount(j.specs, j.jobs)
    && (s.workClosed <==> !s.feeder.Feeding?)
    && (s.doneClosed <==> s.feeder.Finished?)
    && (forall w | 0 <= w < |s.workers| && (s.workers[w].Leaving? || s.workers[w].Exited?) :: s.workClosed)
    && (s.feeder.ClosingDone? || s.feeder.Finished? ==> forall w | 0 <= w < |s.workers| :: s.workers[w].Exited?)
    && (s.returned ==> s.done == [] && s.doneClosed)
  }

  predicate TrueItem(j: Job, item: Item) {
    item.index < j.specs && item.outcome == j.run(item.index)
  }

  predicate Items(j: Job, s: State) {
    && Fed(j, s) <= j.specs
    && (forall w | 0 <= w < |s.workers| && s.workers[w].Working? :: s.workers[w].index < j.specs)
    && (forall w | 0 <= w < |s.workers| && s.workers[w].Sending? :: TrueItem(j, s.workers[w].item))
    && (forall k | 0 <= k < |s.done| :: TrueItem(j, s.done[k]))
  }

  predicate Results(j: Job, s: State) {
    && |s.results| == j.specs
    && (forall i: nat | i < j.specs :: s.results[i] == if i in s.collected then Some(j.run(i).result) else None)
    && (forall i | i in s.collected :: i < j.specs && (j.run(i).err.Some? ==> s.firstErr.Some?))
    && (s.firstErr.Some? ==> exists i :: i in s.collected && j.run(i).err == s.firstErr)
  }

  ghost predicate Inv(j: Job, s: State) {
    Conserved(j, s) && Counted(s) && Channels(j, s) && Items(j, s) && Results(j, s)
  }

  lemma {:induction false} FreshWorkers(n: nat, i: nat)
    ensures var ws := seq(n, _ => Receiving);
            Held(ws, i) == 0 && Tally(ws, Busy) == 0 && Tally(ws, Live) == n && Potential(ws) == 2 * n
  {
    if n > 0 {
      FreshWorkers(n - 1, i);
      assert seq(n, _ => Receiving)[1..] == seq(n - 1, _ => Receiving);
    }
  }

  lemma StartInv(j: Job)
    ensures Inv(j, Start(j))
  {
    forall i: nat
      ensures Held(Start(j).workers, i) == 0
    {
      FreshWorkers(WorkerCount(j.specs, j.jobs), i);
    }
    FreshWorkers(WorkerCount(j.specs, j.jobs), 0);
  }

  lemma NoPanic(j: Job, s: State, a: Action)
    requires Inv(j, s) && Enabled(j, s, a)
    ensures !Panics(s, a)
  {
    if a.Exit? {
      TallyZero(s.workers, Live);
    }
  }

  lemma NextConserved(j: Job, s: State, a: Action)
    requires Conserved(j, s) && Enabled(j, s, a) && !Panics(s, a)
    ensures Conserved(j, Next(j, s, a))
  {
    hide Enabled, Panics, Conserved, Next;
    if a.HandOver? || a.Run? || a.Send? || a.SeeClosed? || a.Exit? {
      WorkerConserves(j, s, a);
    } else {
      OthersConserve(j, s, a);
    }
  }

  // The step of one worker, as it shows in the counts.
  lemma WorkerConserves(j: Job, s: State, a: Action)
    requires Conserved(j, s) && Enabled(j, s, a) && !Panics(s, a)
    requires a.HandOver? || a.Run? || a.Send? || a.SeeClosed? || a.Exit?
    ensures Conserved(j, Next(j, s, a))
  {
    hide Held, Sent, Times, Tally;
    var s' := Next(j, s, a);
    TallyUpdate(s.workers, a.w, s'.workers[a.w], Busy);
    forall i: nat
      ensures Held(s'.workers, i) + Sent(s'.done, i) + Times(s'.collected, i) == if i < Fed(j, s') then 1 else 0
    {
      assert Held(s.workers, i) + Sent(s.done, i) + Times(s.collected, i) == if i < Fed(j, s) then 1 else 0;
      HeldUpdate(s.workers, a.w, s'.workers[a.w], i);
      if a.Send? {
        SentAppend(s.done, s.workers[a.w].item, i);
      }
    }
  }

  lemma OthersConserve(j: Job, s: State, a: Action)
    requires Conserved(j, s) && Enabled(j, s, a) && !Panics(s, a)
    requires !(a.HandOver? || a.Run? || a.Send? || a.SeeClosed? || a.Exit?)
    ensures Conserved(j, Next(j, s, a))
  {
    hide Held, Times, Tally;
    var s' := Next(j, s, a);
    forall i: nat
      ensures Held(s'.workers, i) + Sent(s'.done, i) + Times(s'.collected, i) == if i < Fed(j, s') then 1 else 0
    {
      assert Held(s.workers, i) + Sent(s.done, i) + Times(s.collected, i) == if i < Fed(j, s) then 1 else 0;
      if a.Collect? {
        TimesAppend(s.collected, s.done[0].index, i);
      }
    }
  }

  lemma NextCounted(j: Job, s: State, a: Action)
    requires Counted(s) && Enabled(j, s, a) && !Panics(s, a)
    ensures Counted(Next(j, s, a))
  {
    if a.HandOver? || a.Run? || a.Send? || a.SeeClosed? || a.Exit? {
      TallyUpdate(s.workers, a.w, Next(j, s, a).workers[a.w], Live);
    }
  }

  lemma NextChannels(j: Job, s: State, a: Action)
    requires Channels(j, s) && Counted(s) && Enabled(j, s, a) && !Panics(s, a)
    ensures Channels(j, Next(j, s, a))
  {
    if a.AllExited? {
      TallyZero(s.workers, Live);
    }
  }

  lemma NextItems(j: Job, s: State, a: Action)
    requires Items(j, s) && Enabled(j, s, a) && !Panics(s, a)
    ensures Items(j, Next(j, s, a))
  {
  }

  lemma NextResults(j: Job, s: State, a: Action)
    requires Results(j, s) && Items(j, s) && Enabled(j, s, a) && !Panics(s, a)
    ensures Results(j, Next(j, s, a))
  {
    if a.Collect? {
      var s' := Next(j, s, a);
      var index := s.done[0].index;
      assert TrueItem(j, s.done[0]);
      assert forall i :: i in s'.collected <==> i in s.collected || i == index;
      if s.firstErr.Some? {
        var i :| i in s.collected && j.run(i).err == s.firstErr;
        assert i in s'.collected;
      } else if s'.firstErr.Some? {
        assert index in s'.collected && j.run(index).err == s'.firstErr;
      }
    }
  }

  lemma NextInv(j: Job, s: State, a: Action)
    requires Inv(j, s) && Enabled(j, s, a)
    ensures !Panics(s, a) && Inv(j, Next(j, s, a))
  {
    NoPanic(j, s, a);
    NextConserved(j, s, a);
    NextCounted(j, s, a);
    NextChannels(j, s, a);
    NextItems(j, s, a);
    NextResults(j, s, a);
  }

  // ---------------------------------------------------------------------------------
  // Progress

  function Steps(w: Worker): nat {
    match w
    case Receiving => 2
    case Working(_) => 5
    case Sending(_) => 4
    case Leaving => 1
    case Exited => 0
  }

  function Potential(workers: seq<Worker>): nat {
    if workers == [] then 0 else Steps(workers[0]) + Potential(workers[1..])
  }

  // The number of steps left, on every schedule.
  function Remaining(j: Job, s: State): int {
    (match s.feeder
     case Feeding(next) => 4 * (j.specs - next) + 3
     case AwaitingWorkers => 2
     case ClosingDone => 1
     case Finished => 0)
    + Potential(s.workers) + |s.done| + if s.returned then 0 else 1
  }

  lemma {:induction false} PotentialUpdate(workers: seq<Worker>, w: nat, worker: Worker)
    requires w < |workers|
    ensures Potential(workers[w := worker]) == Potential(workers) - Steps(workers[w]) + Steps(worker)
  {
    if w == 0 {
      assert workers[w := worker][1..] == workers[1..];
    } else {
      PotentialUpdate(workers[1..], w - 1, worker);
      assert workers[w := worker][1..] == workers[1..][w - 1 := worker];
    }
  }

  lemma EveryStepCounts(j: Job, s: State, a: Action)
    requires Enabled(j, s, a) && !Panics(s, a) && Fed(j, s) <= j.specs
    ensures Remaining(j, Next(j, s, a)) == Remaining(j, s) - 1
  {
    if a.HandOver? || a.Run? || a.Send? || a.SeeClosed? || a.Exit? {
      PotentialUpdate(s.workers, a.w, Next(j, s, a).workers[a.w]);
    }
  }

  lemma NoDeadlock(j: Job, s: State)
    requires Inv(j, s) && !s.returned
    ensures exists a :: Enabled(j, s, a)
  {
    if w: nat :| w < |s.workers| && !s.workers[w].Exited? {
      WorkerMoves(j, s, w);
    } else if s.done != [] {
      assert Enabled(j, s, Collect);
    } else {
      TallyZero(s.workers, Live);
      assert s.workers[0].Exited?;
      assert Enabled(j, s, AllExited) || Enabled(j, s, CloseDone) || Enabled(j, s, Return);
    }
  }

  // A worker that has not exited always has a step, or hands its turn to the feeder.
  lemma WorkerMoves(j: Job, s: State, w: nat)
    requires Inv(j, s) && w < |s.workers| && !s.workers[w].Exited?
    ensures exists a :: Enabled(j, s, a)
  {
    match s.workers[w]
    case Receiving =>
      assert Enabled(j, s, SeeClosed(w)) || Enabled(j, s, HandOver(w)) || Enabled(j, s, CloseWork);
    case Working(_) => assert Enabled(j, s, Run(w));
    case Sending(_) =>
      TallyZero(s.workers, Busy);
      assert Busy(s.workers[w]);
      assert Enabled(j, s, Send(w));
    case Leaving => assert Enabled(j, s, Exit(w));
  }

  // ---------------------------------------------------------------------------------
  // Whole runs

  ghost predicate IsRun(j: Job, states: seq<State>, actions: seq<Action>) {
    && |states| == |actions| + 1 && states[0] == Start(j)
    && forall i | 0 <= i < |actions| ::
         Enabled(j, states[i], actions[i]) && (!Panics(states[i], actions[i]) ==> states[i + 1] == Next(j, states[i], actions[i]))
  }

  lemma {:induction false} RunInv(j: Job, states: seq<State>, actions: seq<Action>, n: nat)
    requires IsRun(j, states, actions) && n <= |actions|
    ensures Inv(j, states[n])
    ensures Remaining(j, states[n]) == 4 * j.specs + 2 * WorkerCount(j.specs, j.jobs) + 4 - n
  {
    if n == 0 {
      StartInv(j);
      FreshWorkers(WorkerCount(j.specs, j.jobs), 0);
    } else {
      RunInv(j, states, actions, n - 1);
      NextInv(j, states[n - 1], actions[n - 1]);
      EveryStepCounts(j, states[n - 1], actions[n - 1]);
    }
  }

  // In every interleaving nothing panics and the pool is never stuck; every schedule ends,
  // after the same number of steps, with the collector returning.
  lemma EveryScheduleEnds(j: Job, states: seq<State>, actions: seq<Action>)
    requires IsRun(j, states, actions)
    ensures forall i | 0 <= i < |actions| :: !Panics(states[i], actions[i])
    ensures |actions| <= 4 * j.specs + 2 * WorkerCount(j.specs, j.jobs) + 4
    ensures states[|actions|].returned || exists a :: Enabled(j, states[|actions|], a)
    ensures (forall a :: !Enabled(j, states[|actions|], a)) ==>
              states[|actions|].returned && |actions| == 4 * j.specs + 2 * WorkerCount(j.specs, j.jobs) + 4
  {
    forall i | 0 <= i < |actions|
      ensures !Panics(states[i], actions[i])
    {
      RunInv(j, states, actions, i);
      NoPanic(j, states[i], actions[i]);
    }
    var s := states[|actions|];
    RunInv(j, states, actions, |actions|);
    if !s.returned {
      NoDeadlock(j, s);
    } else {
      ReturnedIsLast(j, s);
    }
  }

  lemma ReturnedIsLast(j: Job, s: State)
    requires Inv(j, s) && s.returned
    ensures Remaining(j, s) == 0
  {
    AllExitedPotential(s.workers);
  }

  lemma {:induction false} AllExitedPotential(workers: seq<Worker>)
    requires forall w | 0 <= w < |workers| :: workers[w].Exited?
    ensures Potential(workers) == 0 && Tally(workers, Busy) == 0 && forall i :: Held(workers, i) == 0
  {
    if workers != [] {
      AllExitedPotential(workers[1..]);
    }
  }

  lemma {:induction false} TimesIn(indices: seq<nat>, i: nat)
    ensures Times(indices, i) > 0 <==> i in indices
  {
    if indices != [] {
      TimesIn(indices[1..], i);
    }
  }

  // The value returned: an error, or all the results.
  function Returned(s: State): (Option<int>, seq<Option<int>>) {
    if s.firstErr.Some? then (s.firstErr, []) else (None, s.results)
  }

  // Whatever the schedule, the pool returns what running the specs one by one would: each
  // index was processed exactly once, and there is an error iff some spec failed.
  lemma PoolIsSequential(j: Job, states: seq<State>, actions: seq<Action>, n: nat)
    requires IsRun(j, states, actions) && n <= |actions| && states[n].returned
    ensures forall i | 0 <= i < j.specs :: Times(states[n].collected, i) == 1
    ensures |states[n].collected| == j.specs
    ensures var (err, results) := Returned(states[n]);
            && (err.Some? <==> exists i :: 0 <= i < j.specs && j.run(i).err.Some?)
            && (err.Some? ==> exists i :: 0 <= i < j.specs && j.run(i).err == err)
            && (err.None? ==> results == seq(j.specs, i requires 0 <= i => Some(j.run(i).result)))
  {
    var s := states[n];
    RunInv(j, states, actions, n);
    AllExitedPotential(s.workers);
    forall i | 0 <= i < j.specs
      ensures Times(s.collected, i) == 1 && i in s.collected
    {
      assert Held(s.workers, i) == 0;
      TimesIn(s.collected, i);
    }
  }

  // ---------------------------------------------------------------------------------
  // Which error is returned

  // The error of the first of some indices that failed.
  function FirstFailure(j: Job, indices: seq<nat>): Option<int> {
    if indices == [] then None
    else if j.run(indices[0]).err.Some? then j.run(indices[0]).err
    else FirstFailure(j, indices[1..])
  }

  lemma {:induction false} FirstFailureAppend(j: Job, indices: seq<nat>, i: nat)
    ensures FirstFailure(j, indices + [i]) ==
            if FirstFailure(j, indices).Some? then FirstFailure(j, indices) else j.run(i).err
    decreases |indices|
  {
    if indices != [] {
      assert (indices + [i])[1..] == indices[1..] + [i];
      FirstFailureAppend(j, indices[1..], i);
    }
  }

  lemma {:induction false} FirstFailureIsFirst(j: Job, indices: seq<nat>)
    ensures FirstFailure(j, indices).None? <==> forall k | 0 <= k < |indices| :: j.run(indices[k]).err.None?
    ensures FirstFailure(j, indices).Some? ==>
              exists k :: 0 <= k < |indices| && j.run(indices[k]).err == FirstFailure(j, indices)
                && forall l | 0 <= l < k :: j.run(indices[l]).err.None?
    decreases |indices|
  {
    if indices != [] && j.run(indices[0]).err.None? {
      var rest := indices[1..];
      FirstFailureIsFirst(j, rest);
      assert forall l | 1 <= l < |indices| :: indices[l] == rest[l - 1];
      if FirstFailure(j, rest).Some? {
        var k :| 0 <= k < |rest| && j.run(rest[k]).err == FirstFailure(j, rest) && forall l | 0 <= l < k :: j.run(rest[l]).err.None?;
        assert indices[k + 1] == rest[k];
      }
    }
  }

  lemma NextFirstFailure(j: Job, s: State, a: Action)
    requires Items(j, s) && s.firstErr == FirstFailure(j, s.collected) && Enabled(j, s, a) && !Panics(s, a)
    ensures Next(j, s, a).firstErr == FirstFailure(j, Next(j, s, a).collected)
  {
    if a.Collect? {
      assert TrueItem(j, s.done[0]);
      FirstFailureAppend(j, s.collected, s.done[0].index);
    }
  }

  lemma {:induction false} RunFirstFailure(j: Job, states: seq<State>, actions: seq<Action>, n: nat)
    requires IsRun(j, states, actions) && n <= |actions|
    ensures states[n].firstErr == FirstFailure(j, states[n].collected)
  {
    hide Enabled, Next, Panics, Conserved, Counted, Channels, Items, Results;
    if n == 0 {
      NothingCollected(j);
    } else {
      RunFirstFailure(j, states, actions, n - 1);
      RunInv(j, states, actions, n - 1);
      NoPanic(j, states[n - 1], actions[n - 1]);
      NextFirstFailure(j, states[n - 1], actions[n - 1]);
    }
  }

  lemma NothingCollected(j: Job)
    ensures Start(j).firstErr == FirstFailure(j, Start(j).collected)
  {
  }

  // The error returned is that of the failed spec that was collected first.
  lemma EarliestErrorReturned(j: Job, states: seq<State>, actions: seq<Action>, n: nat)
    requires IsRun(j, states, actions) && n <= |actions| && states[n].returned
    ensures var (err, collected) := (Returned(states[n]).0, states[n].collected);
            err.Some? ==> exists k :: 0 <= k < |collected| && j.run(collected[k]).err == err
                            && forall l | 0 <= l < k :: j.run(collected[l]).err.None?
  {
    RunFirstFailure(j, states, actions, n);
    FirstFailureIsFirst(j, states[n].collected);
  }

  // ---------------------------------------------------------------------------------
  // One worker

  function Indices(items: seq<Item>): seq<nat> {
    seq(|items|, k requires 0 <= k < |items| => items[k].index)
  }

  function InHand(w: Worker): seq<nat> {
    match w
    case Working(index) => [index]
    case Sending(item) => [item.index]
    case _ => []
  }

  // All indices handed over, in the order in which they came.
  function Line(s: State): seq<nat>
    requires s.workers != []
  {
    s.collected + Indices(s.done) + InHand(s.workers[0])
  }

  function UpTo(n: nat): seq<nat> {
    seq(n, i requires 0 <= i => i)
  }

  lemma IndicesAppend(items: seq<Item>, item: Item)
    ensures Indices(items + [item]) == Indices(items) + [item.index]
  {
  }

  lemma NextLine(j: Job, s: State, a: Action)
    requires Fed(j, s) <= j.specs && |s.workers| == 1 && Line(s) == UpTo(Fed(j, s)) && Enabled(j, s, a) && !Panics(s, a)
    ensures |Next(j, s, a).workers| == 1 && Line(Next(j, s, a)) == UpTo(Fed(j, Next(j, s, a)))
  {
    hide Indices;
    var s' := Next(j, s, a);
    match a
    case HandOver(w) =>
      assert UpTo(s.feeder.next + 1) == UpTo(s.feeder.next) + [s.feeder.next];
      assert Line(s') == Line(s) + [s.feeder.next];
    case Send(w) =>
      IndicesAppend(s.done, s.workers[w].item);
      assert Line(s') == Line(s);
    case Collect =>
      CollectedNext(s.done);
      assert Line(s') == Line(s);
    case _ =>
      assert Line(s') == Line(s);
  }

  lemma CollectedNext(items: seq<Item>)
    requires items != []
    ensures Indices(items) == [items[0].index] + Indices(items[1..])
  {
  }

  lemma {:induction false} RunLine(j: Job, states: seq<State>, actions: seq<Action>, n: nat)
    requires IsRun(j, states, actions) && n <= |actions| && WorkerCount(j.specs, j.jobs) == 1
    ensures |states[n].workers| == 1 && Line(states[n]) == UpTo(Fed(j, states[n]))
  {
    hide Enabled, Next, Panics, Counted, Channels, Items, Results;
    if n > 0 {
      RunLine(j, states, actions, n - 1);
      RunInv(j, states, actions, n - 1);
      NoPanic(j, states[n - 1], actions[n - 1]);
      NextLine(j, states[n - 1], actions[n - 1]);
    }
  }

  // With one worker the specs are collected in order, so the error is that of the first spec
  // that fails, as when running them one by one.
  lemma OneWorkerInOrder(j: Job, states: seq<State>, actions: seq<Action>, n: nat)
    requires IsRun(j, states, actions) && n <= |actions| && WorkerCount(j.specs, j.jobs) == 1
    ensures states[n].collected <= UpTo(j.specs)
    ensures states[n].returned ==> states[n].collected == UpTo(j.specs)
    ensures states[n].returned && Returned(states[n]).0.Some? ==>
              exists i: nat :: i < j.specs && j.run(i).err == Returned(states[n]).0 && forall k: nat | k < i :: j.run(k).err.None?
  {
    hide Counted, Channels, Items, Results, Conserved, Indices;
    RunLine(j, states, actions, n);
    RunInv(j, states, actions, n);
    FedWithin(j, states[n]);
    assert UpTo(Fed(j, states[n])) <= UpTo(j.specs);
    assert states[n].collected <= Line(states[n]);
    if states[n].returned {
      PoolIsSequential(j, states, actions, n);
      assert |states[n].collected| == |UpTo(j.specs)|;
      EarliestErrorReturned(j, states, actions, n);
      if Returned(states[n]).0.Some? {
        var c := states[n].collected;
        var k :| 0 <= k < |c| && j.run(c[k]).err == Returned(states[n]).0 && forall l | 0 <= l < k :: j.run(c[l]).err.None?;
        assert c == UpTo(j.specs) && c[k] == k;
        forall l: nat | l < k
          ensures j.run(l).err.None?
        {
          assert c[l] == l;
        }
      }
    }
  }

  lemma FedWithin(j: Job, s: State)
    requires Conserved(j, s)
    ensures Fed(j, s) <= j.specs
  {
  }

  // As many workers as jobs, but at least one, and no more than specs if there are any.
  lemma WorkersWanted(specs: nat, jobs: int)
    ensures 1 <= WorkerCount(specs, jobs) && (specs > 0 ==> WorkerCount(specs, jobs) <= specs)
    ensures 1 <= jobs <= specs ==> WorkerCount(specs, jobs) == jobs
    ensures jobs > specs > 0 ==> WorkerCount(specs, jobs) == specs
    ensures jobs <= 1 || specs == 0 ==> WorkerCount(specs, jobs) == 1
  {
  }
}
