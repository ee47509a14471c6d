/** The worker slots shared by scanning, direct dispatch and the worker pool in `pkg/compensator/worker.go`,
    `pkg/outbox/outbox.go` and `pkg/outbox/worker.go`: a channel of `WorkerCount` tokens guards a job channel
    of the same capacity.  Every channel operation and every query is one step. */
module Slots {
  // ---------------------------------------------------------------- the slot channel

  /** A send that does not wait, and a receive. */
  function Sent(used: int, capacity: int): int { if used < capacity then used + 1 else used }

  function Received(used: int): int { used - 1 }

  datatype Reserved = Reserved(count: nat) | Cancelled

  /** The attempts before the first that finds the channel full, at most `limit`. */
  ghost predicate FreeAttempts(seen: seq<nat>, capacity: nat, limit: nat, count: nat) {
    count <= limit <= |seen| && (forall k :: 0 <= k < count ==> seen[k] < capacity) && (count < limit ==> seen[count] >= capacity)
  }

  class SlotChannel {
    var used: int
    const capacity: nat

    constructor (capacity: nat)
      ensures used == 0 && this.capacity == capacity
    {
      used := 0;
      this.capacity := capacity;
    }

    method TrySend() returns (ok: bool)
      modifies this
      ensures used == Sent(old(used), capacity) && ok == (old(used) < capacity)
    {
      if used >= capacity { return false; }
      used := used + 1;
      ok := true;
    }

    method Receive()
      modifies this
      ensures used == Received(old(used))
    {
      used := used - 1;
    }

    /** `reserve` while others use the channel: `seen[k]` tokens are in it at the k-th attempt.  A waiting
        caller's first attempt ends when there is room or its context is done.  The result is the number of
        attempts that found room, which ends at the first that did not. */
    method Reserve(limit: nat, wait: bool, done: bool, seen: seq<nat>) returns (r: Reserved)
      requires |seen| == limit && (wait && !done && limit > 0 ==> seen[0] < capacity)
      modifies this
      ensures wait && done && limit > 0 <==> r.Cancelled?
      ensures r.Reserved? ==> FreeAttempts(seen, capacity, limit, r.count) && (wait && limit > 0 ==> r.count > 0)
      ensures r.Reserved? && 0 < r.count == limit ==> used == Sent(seen[limit - 1], capacity)
    {
      if limit == 0 { return Reserved(0); }
      if wait && done { return Cancelled; }
      var count := 0;
      while count < limit
        invariant count <= limit && forall k :: 0 <= k < count ==> seen[k] < capacity
        invariant count > 0 ==> used == Sent(seen[count - 1], capacity)
        decreases limit - count
      {
        used := seen[count];
        var ok := TrySend();
        if !ok { return Reserved(count); }
        count := count + 1;
      }
      r := Reserved(count);
    }

    /** `unreserve` while others use the channel, leaving `seen[k]` tokens before the k-th receive. */
    method Unreserve(count: nat, seen: seq<nat>)
      requires |seen| == count
      modifies this
      ensures used == if count == 0 then old(used) else Received(seen[count - 1])
    {
      for i := 0 to count
        invariant used == if i == 0 then old(used) else Received(seen[i - 1])
      {
        used := seen[i];
        Receive();
      }
    }
  }

  // ---------------------------------------------------------------- everyone together

  /** A scan or a dispatch call: reserving, querying with its reservation, giving back what it does not need,
      handing tasks to the workers, or waiting for its own tasks to run. */
  datatype Actor =
    | Idle
    | Reserving(count: nat, limit: nat)
    | Claiming(count: nat)
    | Returning(spare: nat, tasks: nat, async: bool)
    | Handing(tasks: nat)
    | Running(tasks: nat)

  datatype State = State(capacity: nat, slots: int, jobs: int, actors: seq<Actor>, busy: seq<bool>)

  datatype Act =
    | Ask(limit: nat)
    | Take
    | StopTaking
    | ClaimFails
    | ClaimReturns(tasks: nat, async: bool)
    | GiveBack
    | StartTasks
    | Hand
    | TaskEnds
    | Leave

  datatype Step = Do(a: nat, act: Act) | Fetch(w: nat) | Finish(w: nat)

  ghost predicate ActEnabled(st: State, x: Actor, act: Act) {
    match act
    case Ask(limit) => x.Idle? && limit > 0
    case Take => x.Reserving? && x.count < x.limit && st.slots < st.capacity
    case StopTaking => x.Reserving?
    case ClaimFails => x.Claiming?
    case ClaimReturns(tasks, _) => x.Claiming? && tasks <= x.count
    case GiveBack => x.Returning? && x.spare > 0
    case StartTasks => x.Returning? && x.spare == 0
    case Hand => x.Handing? && x.tasks > 0
    case TaskEnds => x.Running? && x.tasks > 0
    case Leave => (x.Handing? || x.Running?) && x.tasks == 0
  }

  /** A step does not ask for room in the job channel or for a token to take back: `NeverBlocks` shows there
      is always one. */
  ghost predicate Enabled(st: State, step: Step) {
    match step
    case Do(a, act) => a < |st.actors| && ActEnabled(st, st.actors[a], act)
    case Fetch(w) => w < |st.busy| && !st.busy[w] && st.jobs > 0
    case Finish(w) => w < |st.busy| && st.busy[w]
  }

  ghost function ActorAfter(st: State, x: Actor, act: Act): Actor
    requires ActEnabled(st, x, act)
  {
    match act
    case Ask(limit) => Reserving(0, limit)
    case Take => x.(count := x.count + 1)
    case StopTaking => if x.count == 0 then Idle else Claiming(x.count)
    case ClaimFails => Returning(x.count, 0, false)
    case ClaimReturns(tasks, async) => Returning(x.count - tasks, tasks, async)
    case GiveBack => x.(spare := x.spare - 1)
    case StartTasks => if x.async then Handing(x.tasks) else Running(x.tasks)
    case Hand => Handing(x.tasks - 1)
    case TaskEnds => Running(x.tasks - 1)
    case Leave => Idle
  }

  /** The slot channel after an actor's step. */
  ghost function SlotsAfter(st: State, act: Act): int {
    if act.Take? then Sent(st.slots, st.capacity) else if act.GiveBack? || act.TaskEnds? then Received(st.slots) else st.slots
  }

  ghost function Next(st: State, step: Step): State
    requires Enabled(st, step)
  {
    match step
    case Do(a, act) =>
      st.(actors := st.actors[a := ActorAfter(st, st.actors[a], act)],
      slots := SlotsAfter(st, act),
      jobs := st.jobs + if act.Hand? then 1 else 0)
    case Fetch(w) => st.(jobs := st.jobs - 1, busy := st.busy[w := true])
    case Finish(w) => st.(slots := Received(st.slots), busy := st.busy[w := false])
  }

  ghost predicate Valid(st: State, run: seq<Step>)
    decreases run
  {
    run == [] || (Enabled(st, run[0]) && Valid(Next(st, run[0]), run[1..]))
  }

  ghost function After(st: State, run: seq<Step>): State
    requires Valid(st, run)
    decreases run
  {
    if run == [] then st else After(Next(st, run[0]), run[1..])
  }

  ghost predicate Initial(st: State) {
    st.slots == 0 && st.jobs == 0 && (forall i :: 0 <= i < |st.actors| ==> st.actors[i].Idle?) && forall i :: 0 <= i < |st.busy| ==> !st.busy[i]
  }

  // ---------------------------------------------------------------- counting slots

  ghost function Holding(x: Actor): nat {
    match x
    case Idle => 0
    case Reserving(count, _) => count
    case Claiming(count) => count
    case Returning(spare, tasks, _) => spare + tasks
    case Handing(tasks) => tasks
    case Running(tasks) => tasks
  }

  ghost function Held(actors: seq<Actor>): nat { if actors == [] then 0 else Holding(actors[0]) + Held(actors[1..]) }

  ghost function Busy(busy: seq<bool>): nat { if busy == [] then 0 else (if busy[0] then 1 else 0) + Busy(busy[1..]) }

  ghost function Direct(actors: seq<Actor>): nat {
    if actors == [] then 0 else (if actors[0].Running? then actors[0].tasks else 0) + Direct(actors[1..])
  }

  lemma {:induction false} ActorChanged(actors: seq<Actor>, i: nat, x: Actor)
    requires i < |actors|
    ensures Held(actors[i := x]) + Holding(actors[i]) == Held(actors) + Holding(x) && Held(actors) >= Holding(actors[i])
  {
    if i > 0 {
      assert actors[i := x][1..] == actors[1..][i - 1 := x];
      ActorChanged(actors[1..], i - 1, x);
    } else {
      assert actors[i := x][1..] == actors[1..];
    }
  }

  lemma {:induction false} BusyChanged(busy: seq<bool>, w: nat, b: bool)
    requires w < |busy|
    ensures Busy(busy[w := b]) + (if busy[w] then 1 else 0) == Busy(busy) + (if b then 1 else 0) && Busy(busy) >= if busy[w] then 1 else 0
  {
    if w > 0 {
      assert busy[w := b][1..] == busy[1..][w - 1 := b];
      BusyChanged(busy[1..], w - 1, b);
    } else {
      assert busy[w := b][1..] == busy[1..];
    }
  }

  lemma {:induction false} DirectIsHeld(actors: seq<Actor>)
    ensures Direct(actors) <= Held(actors)
  {
    if actors != [] { DirectIsHeld(actors[1..]); }
  }

  /** Occupied slots are the reserved ones, the queued tasks and the running tasks, and never exceed the
      number of workers. */
  ghost predicate Conserved(st: State) {
    0 <= st.jobs && st.slots == Held(st.actors) + st.jobs + Busy(st.busy) <= st.capacity
  }

  /** What an actor holds changes by the slots it takes, less the task it hands over. */
  lemma ActConserves(st: State, x: Actor, act: Act)
    requires ActEnabled(st, x, act)
    ensures Holding(ActorAfter(st, x, act)) - Holding(x) == SlotsAfter(st, act) - st.slots - if act.Hand? then 1 else 0
    ensures st.slots <= st.capacity ==> SlotsAfter(st, act) <= st.capacity
  {
  }

  lemma StepConserves(st: State, step: Step)
    requires Conserved(st) && Enabled(st, step)
    ensures Conserved(Next(st, step))
  {
    if step.Do? {
      var x := st.actors[step.a];
      ActConserves(st, x, step.act);
      ActorChanged(st.actors, step.a, ActorAfter(st, x, step.act));
      hide Held, Busy, Holding, ActorAfter, ActEnabled;
    } else {
      BusyChanged(st.busy, step.w, step.Fetch?);
      hide Held, Busy;
    }
  }

  lemma {:induction false} RunConserves(st: State, run: seq<Step>)
    requires Conserved(st) && Valid(st, run)
    ensures Conserved(After(st, run)) && After(st, run).capacity == st.capacity
    decreases run
  {
    if run != [] {
      StepConserves(st, run[0]);
      RunConserves(Next(st, run[0]), run[1..]);
    }
  }

  lemma {:induction false} NothingHeld(actors: seq<Actor>, busy: seq<bool>)
    ensures (forall i :: 0 <= i < |actors| ==> actors[i].Idle?) ==> Held(actors) == 0
    ensures (forall i :: 0 <= i < |busy| ==> !busy[i]) ==> Busy(busy) == 0
    decreases |actors| + |busy|
  {
    if actors != [] { NothingHeld(actors[1..], busy); }
    if busy != [] { NothingHeld([], busy[1..]); }
  }

  // ---------------------------------------------------------------- what every run guarantees

  /** In every interleaving of scans, dispatches, failures and workers: slots are conserved, the handlers
      running at once stay within the number of workers, and when all is quiet every slot is free again. */
  lemma SlotsConserved(st: State, run: seq<Step>)
    requires Initial(st) && Valid(st, run)
    ensures var st' := After(st, run);
            Conserved(st') && Direct(st'.actors) + Busy(st'.busy) <= st.capacity &&
            ((forall i :: 0 <= i < |st'.actors| ==> st'.actors[i].Idle?) && (forall i :: 0 <= i < |st'.busy| ==> !st'.busy[i]) && st'.jobs == 0
             ==> st'.slots == 0)
  {
    NothingHeld(st.actors, st.busy);
    RunConserves(st, run);
    var st' := After(st, run);
    DirectIsHeld(st'.actors);
    NothingHeld(st'.actors, st'.busy);
  }

  /** Handing a task to the workers never blocks, and a token to take back is always there. */
  lemma NeverBlocks(st: State, run: seq<Step>, step: Step)
    requires Initial(st) && Valid(st, run) && Enabled(After(st, run), step)
    ensures step.Do? && step.act.Hand? ==> After(st, run).jobs < st.capacity
    ensures step.Finish? || (step.Do? && (step.act.GiveBack? || step.act.TaskEnds?)) ==> After(st, run).slots > 0
  {
    NothingHeld(st.actors, st.busy);
    RunConserves(st, run);
    var st' := After(st, run);
    if step.Finish? { BusyChanged(st'.busy, step.w, false); }
    if step.Do? { ActorChanged(st'.actors, step.a, Idle); }
  }

  // ---------------------------------------------------------------- every claimed task is executed once

  /** The tasks the step's query returned, for the workers or for the caller's own goroutine. */
  ghost function ClaimedBy(step: Step, async: bool): nat {
    if step.Do? && step.act.ClaimReturns? && step.act.async == async then step.act.tasks else 0
  }

  ghost function One(b: bool): nat { if b then 1 else 0 }

  ghost predicate Acts(step: Step, act: Act) { step.Do? && step.act == act }

  /** What the steps of a run come to: tasks claimed for the workers and for the callers, tasks handed over,
      executions ended by workers and by callers, tokens given back unused, and tokens taken. */
  datatype Tally = Tally(pooled: nat, direct: nat, handed: nat, finished: nat, ended: nat, returned: nat, taken: nat)

  ghost function TallyOf(run: seq<Step>): Tally {
    if run == [] then Tally(0, 0, 0, 0, 0, 0, 0)
    else
      var t, s := TallyOf(run[1..]), run[0];
      Tally(
        t.pooled + ClaimedBy(s, true), t.direct + ClaimedBy(s, false), t.handed + One(Acts(s, Hand)),
        t.finished + One(s.Finish?), t.ended + One(Acts(s, TaskEnds)), t.returned + One(Acts(s, GiveBack)), t.taken + One(Acts(s, Take)))
  }

  /** The tasks an actor has claimed and not handed over, or not executed. */
  ghost function Tasks(x: Actor, async: bool): nat {
    match x
    case Returning(_, tasks, a) => if a == async then tasks else 0
    case Handing(tasks) => if async then tasks else 0
    case Running(tasks) => if async then 0 else tasks
    case _ => 0
  }

  ghost function AllTasks(actors: seq<Actor>, async: bool): nat {
    if actors == [] then 0 else Tasks(actors[0], async) + AllTasks(actors[1..], async)
  }

  lemma {:induction false} TasksChanged(actors: seq<Actor>, i: nat, x: Actor, async: bool)
    requires i < |actors|
    ensures AllTasks(actors[i := x], async) + Tasks(actors[i], async) == AllTasks(actors, async) + Tasks(x, async)
  {
    if i > 0 {
      assert actors[i := x][1..] == actors[1..][i - 1 := x];
      TasksChanged(actors[1..], i - 1, x, async);
    } else {
      assert actors[i := x][1..] == actors[1..];
    }
  }

  lemma StepKeepsTasks(st: State, step: Step)
    requires Enabled(st, step)
    ensures var st' := Next(st, step);
            AllTasks(st.actors, true) + ClaimedBy(step, true) == AllTasks(st'.actors, true) + One(Acts(step, Hand)) &&
            AllTasks(st.actors, false) + ClaimedBy(step, false) == AllTasks(st'.actors, false) + One(Acts(step, TaskEnds)) &&
            st.jobs + Busy(st.busy) + One(Acts(step, Hand)) == st'.jobs + Busy(st'.busy) + One(step.Finish?) &&
            st.slots + One(Acts(step, Take)) == st'.slots + One(Acts(step, GiveBack)) + One(Acts(step, TaskEnds)) + One(step.Finish?)
  {
    if step.Do? {
      var x := ActorAfter(st, st.actors[step.a], step.act);
      TasksChanged(st.actors, step.a, x, true);
      TasksChanged(st.actors, step.a, x, false);
    } else {
      BusyChanged(st.busy, step.w, step.Fetch?);
    }
    hide AllTasks, Busy;
  }

  lemma {:induction false} RunKeepsTasks(st: State, run: seq<Step>)
    requires Valid(st, run)
    ensures var st', t := After(st, run), TallyOf(run);
            AllTasks(st.actors, true) + t.pooled == AllTasks(st'.actors, true) + t.handed &&
            AllTasks(st.actors, false) + t.direct == AllTasks(st'.actors, false) + t.ended &&
            st.jobs + Busy(st.busy) + t.handed == st'.jobs + Busy(st'.busy) + t.finished &&
            st.slots + t.taken == st'.slots + t.returned + t.ended + t.finished
    decreases run
  {
    if run != [] {
      StepKeepsTasks(st, run[0]);
      RunKeepsTasks(Next(st, run[0]), run[1..]);
      hide AllTasks, Busy, Next, Enabled, ClaimedBy, Acts;
    }
  }

  lemma {:induction false} NoTasks(actors: seq<Actor>, async: bool)
    requires forall i :: 0 <= i < |actors| ==> actors[i].Idle?
    ensures AllTasks(actors, async) == 0
  {
    if actors != [] { NoTasks(actors[1..], async); }
  }

  /** In every interleaving, every task claimed for the workers is with its caller, queued, running or ended,
      each once, every task claimed by a dispatching caller is with it or ended, and every token taken is in
      the channel or was given back unused or at the end of an execution; so when all is quiet as many
      executions have ended as tasks were claimed. */
  lemma TasksRunOnce(st: State, run: seq<Step>)
    requires Initial(st) && Valid(st, run)
    ensures var st', t := After(st, run), TallyOf(run);
            t.pooled == t.finished + AllTasks(st'.actors, true) + st'.jobs + Busy(st'.busy) &&
            t.direct == t.ended + AllTasks(st'.actors, false) &&
            t.taken == t.returned + t.ended + t.finished + st'.slots &&
            ((forall i :: 0 <= i < |st'.actors| ==> st'.actors[i].Idle?) && (forall i :: 0 <= i < |st'.busy| ==> !st'.busy[i]) && st'.jobs == 0
             ==> t.pooled == t.finished && t.direct == t.ended)
  {
    NoTasks(st.actors, true);
    NoTasks(st.actors, false);
    NothingHeld([], st.busy);
    RunKeepsTasks(st, run);
    var st' := After(st, run);
    NothingHeld([], st'.busy);
    if forall i :: 0 <= i < |st'.actors| ==> st'.actors[i].Idle? {
      NoTasks(st'.actors, true);
      NoTasks(st'.actors, false);
    }
  }
}
