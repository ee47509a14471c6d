/** The local pipeline of a Redis Streams subscription in `pkg/infra/redis_stream.go`: producers (poll and
    reclaim) put messages into a bounded queue, workers handle them, an ack worker acknowledges in batches.

    Every channel operation, critical section, handler call and store command is one step, and all steps
    interleave. */
module RedisStream {
  import opened Options

  type Id = nat

  /** The critical section at the start of `enqueue`. */
  function Registered(inFlight: set<Id>, id: Id): set<Id> { inFlight + {id} }

  /** The critical section of `release`. */
  function Released(inFlight: set<Id>, id: Id): set<Id> { inFlight - {id} }

  /** `inFlight` of a subscription; the pipeline below is built from the same two functions. */
  class Subscription {
    var inFlight: set<Id>

    constructor ()
      ensures inFlight == {}
    {
      inFlight := {};
    }

    /** A message may go on to the queue exactly when it was in no place before. */
    method Register(id: Id) returns (added: bool)
      modifies this
      ensures inFlight == Registered(old(inFlight), id) && added == (id !in old(inFlight))
    {
      if id in inFlight { return false; }
      inFlight := inFlight + {id};
      added := true;
    }

    method Release(id: Id)
      modifies this
      ensures inFlight == Released(old(inFlight), id)
    {
      inFlight := inFlight - {id};
    }
  }

  /** Where a producer or a worker is.  A producer is idle, sending to the queue or gone; a worker is idle,
      has received a message, runs the handler, sends a success to the ack worker, acknowledges a message it
      wrote to the DLQ, is about to release a message, or is gone. */
  datatype Phase =
    | Idle
    | Sending(id: Id)
    | Took(id: Id)
    | Running(id: Id)
    | Acking(id: Id)
    | AckingDead(id: Id)
    | Releasing(id: Id)
    | Exited

  datatype State = State(
    queue: seq<Id>, ackQueue: seq<Id>, batch: seq<Id>, flushing: seq<Id>, inFlight: set<Id>,
    producers: seq<Phase>, workers: seq<Phase>,
    stopped: bool, cancelled: bool, ackClosed: bool)

  datatype Act = Receive | Drop | Run | Succeed | Fail | DeadLetter | AckDead | Release | SendAck | LoseAck | WorkerExit

  datatype Step =
    | Offer(p: nat, id: Id)
    | Send(p: nat)
    | Withdraw(p: nat)
    | ProducerExit(p: nat)
    | Work(w: nat, act: Act)
    | Collect
    | Flush
    | ReleaseFlushed
    | StopPolling
    | Cancel
    | CloseAckQueue

  ghost predicate AllExited(ps: seq<Phase>) { forall i :: 0 <= i < |ps| ==> ps[i].Exited? }

  ghost predicate WorkEnabled(st: State, p: Phase, act: Act) {
    match act
    case Receive => p.Idle? && st.queue != []
    case Drop => p.Took? && st.stopped
    case Run => p.Took?
    case Succeed => p.Running?
    case Fail => p.Running?
    case DeadLetter => p.Running?
    case AckDead => p.AckingDead?
    case Release => p.Releasing?
    case SendAck => p.Acking?
    case LoseAck => p.Acking? && st.cancelled
    case WorkerExit => p.Idle? && st.stopped
  }

  ghost predicate Enabled(st: State, step: Step) {
    match step
    case Offer(p, _) => p < |st.producers| && st.producers[p].Idle?
    case Send(p) => p < |st.producers| && st.producers[p].Sending?
    case Withdraw(p) => p < |st.producers| && st.producers[p].Sending? && st.stopped
    case ProducerExit(p) => p < |st.producers| && st.producers[p].Idle? && st.stopped
    case Work(w, act) => w < |st.workers| && WorkEnabled(st, st.workers[w], act)
    case Collect => st.ackQueue != [] && st.flushing == []
    case Flush => st.batch != [] && st.flushing == []
    case ReleaseFlushed => st.flushing != []
    case StopPolling => true
    case Cancel => true
    case CloseAckQueue => st.stopped && AllExited(st.producers) && AllExited(st.workers)
  }

  ghost function PhaseAfter(st: State, p: Phase, act: Act): Phase
    requires WorkEnabled(st, p, act)
  {
    match act
    case Receive => Took(st.queue[0])
    case Drop => Exited
    case Run => Running(p.id)
    case Succeed => Acking(p.id)
    case Fail => Releasing(p.id)
    case DeadLetter => AckingDead(p.id)
    case AckDead => Releasing(p.id)
    case Release => Idle
    case SendAck => Idle
    case LoseAck => Idle
    case WorkerExit => Exited
  }

  /** What a worker's act does outside the worker. */
  ghost function Around(st: State, p: Phase, act: Act): State
    requires WorkEnabled(st, p, act)
  {
    match act
    case Receive => st.(queue := st.queue[1..])
    case Drop => st.(inFlight := Released(st.inFlight, p.id))
    case Release => st.(inFlight := Released(st.inFlight, p.id))
    case SendAck => st.(ackQueue := st.ackQueue + [p.id])
    case LoseAck => st.(inFlight := Released(st.inFlight, p.id))
    case _ => st
  }

  ghost function Worked(st: State, w: nat, act: Act): State
    requires w < |st.workers| && WorkEnabled(st, st.workers[w], act)
  {
    Around(st, st.workers[w], act).(workers := st.workers[w := PhaseAfter(st, st.workers[w], act)])
  }

  ghost function Next(st: State, step: Step): State
    requires Enabled(st, step)
  {
    match step
    case Offer(p, id) =>
      if id in st.inFlight then st else st.(inFlight := Registered(st.inFlight, id), producers := st.producers[p := Sending(id)])
    case Send(p) => st.(queue := st.queue + [st.producers[p].id], producers := st.producers[p := Idle])
    case Withdraw(p) => st.(inFlight := Released(st.inFlight, st.producers[p].id), producers := st.producers[p := Exited])
    case ProducerExit(p) => st.(producers := st.producers[p := Exited])
    case Work(w, act) => Worked(st, w, act)
    case Collect => st.(ackQueue := st.ackQueue[1..], batch := st.batch + [st.ackQueue[0]])
    case Flush => st.(batch := [], flushing := st.batch)
    case ReleaseFlushed => st.(flushing := st.flushing[1..], inFlight := Released(st.inFlight, st.flushing[0]))
    case StopPolling => st.(stopped := true)
    case Cancel => st.(cancelled := true)
    case CloseAckQueue => st.(ackClosed := true)
  }

  ghost predicate Valid(st: State, run: seq<Step>)
    decreases run
  {
    run == [] || (Enabled(st, run[0]) && Valid(Next(st, run[0]), run[1..]))
  }

  ghost function After(st: State, run: seq<Step>): State
    requires Valid(st, run)
    decreases run
  {
    if run == [] then st else After(Next(st, run[0]), run[1..])
  }

  ghost predicate AllIdle(ps: seq<Phase>) { forall i :: 0 <= i < |ps| ==> ps[i].Idle? }

  ghost predicate Initial(st: State) {
    AllIdle(st.producers) && AllIdle(st.workers) && st == State([], [], [], [], {}, st.producers, st.workers, false, false, false)
  }

  // ---------------------------------------------------------------- counting one message

  ghost function One(b: bool): nat { if b then 1 else 0 }

  ghost function Count(s: seq<Id>, x: Id): nat { if s == [] then 0 else One(s[0] == x) + Count(s[1..], x) }

  lemma {:induction false} CountCat(a: seq<Id>, b: seq<Id>, x: Id)
    ensures Count(a + b, x) == Count(a, x) + Count(b, x)
  {
    if a == [] {
      assert a + b == b;
    } else {
      assert (a + b)[1..] == a[1..] + b;
      CountCat(a[1..], b, x);
    }
  }

  lemma CountLast(s: seq<Id>, y: Id, x: Id)
    ensures Count(s + [y], x) == Count(s, x) + One(x == y)
  {
    CountCat(s, [y], x);
  }

  /** A producer or worker holds the message. */
  ghost predicate Holds(p: Phase, x: Id) { !p.Idle? && !p.Exited? && p.id == x }

  /** A worker is about to have the message acknowledged. */
  ghost predicate Owes(p: Phase, x: Id) { (p.Acking? || p.AckingDead?) && p.id == x }

  ghost function Holders(ps: seq<Phase>, x: Id): nat {
    if ps == [] then 0 else One(Holds(ps[0], x)) + Holders(ps[1..], x)
  }

  ghost function Owers(ps: seq<Phase>, x: Id): nat {
    if ps == [] then 0 else One(Owes(ps[0], x)) + Owers(ps[1..], x)
  }

  lemma {:induction false} OneChanged(ps: seq<Phase>, i: nat, p: Phase, x: Id)
    requires i < |ps|
    ensures Holders(ps[i := p], x) + One(Holds(ps[i], x)) == Holders(ps, x) + One(Holds(p, x))
    ensures Owers(ps[i := p], x) + One(Owes(ps[i], x)) == Owers(ps, x) + One(Owes(p, x))
    ensures Holds(ps[i], x) ==> Holders(ps, x) > 0
  {
    var ps' := ps[i := p];
    if i == 0 {
      assert ps'[1..] == ps[1..];
    } else {
      assert ps'[0] == ps[0] && ps'[1..] == ps[1..][i - 1 := p];
      OneChanged(ps[1..], i - 1, p, x);
    }
  }

  lemma {:induction false} IdleHoldNothing(ps: seq<Phase>, x: Id)
    requires AllIdle(ps)
    ensures Holders(ps, x) == 0 && Owers(ps, x) == 0
  {
    if ps != [] { IdleHoldNothing(ps[1..], x); }
  }

  /** The places the message is in: a producer, the queue, a worker, the ack queue, the ack batch. */
  ghost function Places(st: State, x: Id): nat {
    Holders(st.producers, x) + Count(st.queue, x) + Holders(st.workers, x) + Count(st.ackQueue, x) + Count(st.batch, x) + Count(st.flushing, x)
  }

  /** Acknowledgements of the message still to be issued. */
  ghost function Owed(st: State, x: Id): nat { Owers(st.workers, x) + Count(st.ackQueue, x) + Count(st.batch, x) }

  ghost predicate PlacesInv(st: State, x: Id) { Places(st, x) == One(x in st.inFlight) }

  /** The step is a handler success or a DLQ write of the message. */
  ghost function EarnedBy(st: State, step: Step, x: Id): nat
    requires Enabled(st, step)
  {
    One(step.Work? && (step.act.Succeed? || step.act.DeadLetter?) && st.workers[step.w].id == x)
  }

  /** How often the step acknowledges the message: one by one after a DLQ write, in batches otherwise. */
  ghost function AckedBy(st: State, step: Step, x: Id): nat
    requires Enabled(st, step)
  {
    if step.Flush? then Count(st.batch, x) else One(step.Work? && step.act.AckDead? && st.workers[step.w].id == x)
  }

  /** The step gives up the acknowledgement of the message. */
  ghost function LostBy(st: State, step: Step, x: Id): nat
    requires Enabled(st, step)
  {
    One(step.Work? && step.act.LoseAck? && st.workers[step.w].id == x)
  }

  ghost predicate ClosedInv(st: State) {
    st.ackClosed ==> st.stopped && AllExited(st.producers) && AllExited(st.workers)
  }

  // ---------------------------------------------------------------- every step

  ghost predicate AckBalance(st: State, step: Step, x: Id)
    requires Enabled(st, step)
  {
    AckedBy(st, step, x) + LostBy(st, step, x) + Owed(Next(st, step), x) == EarnedBy(st, step, x) + Owed(st, x)
  }

  lemma ProducerKeepsInv(st: State, step: Step, x: Id)
    requires PlacesInv(st, x) && Enabled(st, step) && (step.Offer? || step.Send? || step.Withdraw? || step.ProducerExit?)
    ensures PlacesInv(Next(st, step), x)
  {
    var st' := Next(st, step);
    OneChanged(st.producers, step.p, st'.producers[step.p], x);
    assert st.producers[step.p := st.producers[step.p]] == st.producers;
    if step.Send? { CountLast(st.queue, st.producers[step.p].id, x); }
    hide Holders, Owers, Count;
  }

  lemma ProducerBalances(st: State, step: Step, x: Id)
    requires Enabled(st, step) && (step.Offer? || step.Send? || step.Withdraw? || step.ProducerExit?)
    ensures AckBalance(st, step, x)
  {
    hide Holders, Owers, Count;
  }

  /** A worker's act moves the message it holds from one place to another, or out of the pipeline. */
  lemma ActMoves(st: State, p: Phase, act: Act, x: Id)
    requires WorkEnabled(st, p, act) && (Holds(p, x) ==> x in st.inFlight)
    ensures var st', p' := Around(st, p, act), PhaseAfter(st, p, act);
            Count(st'.queue, x) + Count(st'.ackQueue, x) + One(Holds(p', x)) + One(x in st.inFlight)
              == Count(st.queue, x) + Count(st.ackQueue, x) + One(Holds(p, x)) + One(x in st'.inFlight)
  {
    if act.Receive? { assert Count(st.queue, x) == One(st.queue[0] == x) + Count(st.queue[1..], x); }
    if act.SendAck? { CountLast(st.ackQueue, p.id, x); }
    hide Count;
  }

  /** What it comes to owe is a success or a DLQ write, and what it no longer owes is acknowledged, handed on
      or lost. */
  lemma ActEarns(st: State, p: Phase, act: Act, x: Id)
    requires WorkEnabled(st, p, act)
    ensures var st', p' := Around(st, p, act), PhaseAfter(st, p, act);
            One((act.AckDead? || act.LoseAck?) && p.id == x) + Count(st'.ackQueue, x) + One(Owes(p', x))
              == Count(st.ackQueue, x) + One(Owes(p, x)) + One((act.Succeed? || act.DeadLetter?) && p.id == x)
  {
    if act.SendAck? { CountLast(st.ackQueue, p.id, x); }
  }

  lemma AroundKeeps(st: State, p: Phase, act: Act)
    requires WorkEnabled(st, p, act)
    ensures var st' := Around(st, p, act); st'.producers == st.producers && st'.batch == st.batch && st'.flushing == st.flushing
  {
  }

  lemma HeldIsInFlight(st: State, w: nat, x: Id)
    requires PlacesInv(st, x) && w < |st.workers|
    ensures Holds(st.workers[w], x) ==> x in st.inFlight
  {
    OneChanged(st.workers, w, Idle, x);
    hide Holders, Count;
  }

  lemma WorkKeepsPlaces(st: State, w: nat, act: Act, x: Id)
    requires PlacesInv(st, x) && w < |st.workers| && WorkEnabled(st, st.workers[w], act)
    ensures PlacesInv(Worked(st, w, act), x)
  {
    var p := st.workers[w];
    hide Holders, Owers, Count, Holds, Owes, Around, PhaseAfter, WorkEnabled, One;
    HeldIsInFlight(st, w, x);
    OneChanged(st.workers, w, PhaseAfter(st, p, act), x);
    ActMoves(st, p, act, x);
    AroundKeeps(st, p, act);
  }

  lemma WorkBalances(st: State, w: nat, act: Act, x: Id)
    requires w < |st.workers| && WorkEnabled(st, st.workers[w], act)
    ensures AckBalance(st, Work(w, act), x)
  {
    var p := st.workers[w];
    hide Holders, Owers, Count, Holds, Owes, Around, PhaseAfter, WorkEnabled;
    OneChanged(st.workers, w, PhaseAfter(st, p, act), x);
    ActEarns(st, p, act, x);
    AroundKeeps(st, p, act);
  }

  lemma AckWorkerKeepsInv(st: State, step: Step, x: Id)
    requires PlacesInv(st, x) && Enabled(st, step) && (step.Collect? || step.Flush? || step.ReleaseFlushed?)
    ensures PlacesInv(Next(st, step), x) && AckBalance(st, step, x)
  {
    if step.Collect? {
      CountLast(st.batch, st.ackQueue[0], x);
      assert Count(st.ackQueue, x) == One(st.ackQueue[0] == x) + Count(st.ackQueue[1..], x);
    } else if step.Flush? {
      assert Count([], x) == 0;
    } else {
      assert Count(st.flushing, x) == One(st.flushing[0] == x) + Count(st.flushing[1..], x);
    }
    hide Holders, Owers, Count;
  }

  lemma StepKeepsInv(st: State, step: Step, x: Id)
    requires PlacesInv(st, x) && Enabled(st, step)
    ensures PlacesInv(Next(st, step), x) && AckBalance(st, step, x)
  {
    match step
    case Work(w, act) =>
      hide Worked, PlacesInv, AckBalance;
      WorkKeepsPlaces(st, w, act, x);
      WorkBalances(st, w, act, x);
    case StopPolling =>
    case Cancel =>
    case CloseAckQueue =>
    case Offer(_, _) => hide Next, Enabled, PlacesInv, AckBalance; ProducerKeepsInv(st, step, x); ProducerBalances(st, step, x);
    case Send(_) => hide Next, Enabled, PlacesInv, AckBalance; ProducerKeepsInv(st, step, x); ProducerBalances(st, step, x);
    case Withdraw(_) => hide Next, Enabled, PlacesInv, AckBalance; ProducerKeepsInv(st, step, x); ProducerBalances(st, step, x);
    case ProducerExit(_) => hide Next, Enabled, PlacesInv, AckBalance; ProducerKeepsInv(st, step, x); ProducerBalances(st, step, x);
    case _ => hide Next, Enabled, PlacesInv, AckBalance; AckWorkerKeepsInv(st, step, x);
  }

  lemma StepKeepsClosed(st: State, step: Step)
    requires ClosedInv(st) && Enabled(st, step)
    ensures ClosedInv(Next(st, step))
  {
  }

  /** Handler successes and DLQ writes, acknowledgements issued, and acknowledgements given up in a run. */
  datatype Tally = Tally(earned: nat, acked: nat, lost: nat)

  ghost function TallyOf(st: State, run: seq<Step>, x: Id): Tally
    requires Valid(st, run)
    decreases run
  {
    if run == [] then Tally(0, 0, 0)
    else
      var rest := TallyOf(Next(st, run[0]), run[1..], x);
      Tally(EarnedBy(st, run[0], x) + rest.earned, AckedBy(st, run[0], x) + rest.acked, LostBy(st, run[0], x) + rest.lost)
  }

  lemma {:induction false} RunKeepsInv(st: State, run: seq<Step>, x: Id)
    requires PlacesInv(st, x) && ClosedInv(st) && Valid(st, run)
    ensures PlacesInv(After(st, run), x) && ClosedInv(After(st, run))
    ensures var t := TallyOf(st, run, x); t.acked + t.lost + Owed(After(st, run), x) == t.earned + Owed(st, x)
    decreases run
  {
    if run != [] {
      hide PlacesInv, ClosedInv, Next, Enabled, Owed, EarnedBy, AckedBy, LostBy;
      StepKeepsInv(st, run[0], x);
      StepKeepsClosed(st, run[0]);
      RunKeepsInv(Next(st, run[0]), run[1..], x);
    }
  }

  lemma StartsSound(st: State, x: Id)
    requires Initial(st)
    ensures PlacesInv(st, x) && ClosedInv(st) && Owed(st, x) == 0
  {
    IdleHoldNothing(st.producers, x);
    IdleHoldNothing(st.workers, x);
  }

  // ---------------------------------------------------------------- what every run guarantees

  /** In every interleaving a message is in at most one place, and in `inFlight` exactly while it is in one. */
  lemma OnePlaceAtATime(st: State, run: seq<Step>, x: Id)
    requires Initial(st) && Valid(st, run)
    ensures Places(After(st, run), x) == One(x in After(st, run).inFlight)
  {
    StartsSound(st, x);
    RunKeepsInv(st, run, x);
  }

  /** In every interleaving, every handler success and every DLQ write of a message is acknowledged once, on
      its way to it, or given up; so none comes before a success or a DLQ write, and none is left out. */
  lemma AcksAreEarned(st: State, run: seq<Step>, x: Id)
    requires Initial(st) && Valid(st, run)
    ensures var t := TallyOf(st, run, x); t.acked + Owed(After(st, run), x) + t.lost == t.earned
  {
    StartsSound(st, x);
    RunKeepsInv(st, run, x);
  }

  /** An acknowledgement is given up only after the subscription was cancelled. */
  lemma {:induction false} LostOnlyAfterCancel(st: State, run: seq<Step>, x: Id)
    requires Valid(st, run) && !st.cancelled && Cancel !in run
    ensures TallyOf(st, run, x).lost == 0
    decreases run
  {
    if run != [] {
      assert run[0] in run;
      LostOnlyAfterCancel(Next(st, run[0]), run[1..], x);
    }
  }

  /** Nothing is sent to the ack queue once it is closed. */
  lemma NoSendAfterClose(st: State, run: seq<Step>, w: nat)
    requires Initial(st) && Valid(st, run) && After(st, run).ackClosed
    ensures !Enabled(After(st, run), Work(w, SendAck))
  {
    hide Initial, Valid, After, PlacesInv;
    StartsSound(st, 0);
    RunKeepsInv(st, run, 0);
  }

  // ---------------------------------------------------------------- what a worker may do next

  lemma {:induction false} RunSplits(st: State, run: seq<Step>, n: nat)
    requires n <= |run| && Valid(st, run)
    ensures Valid(st, run[..n]) && Valid(After(st, run[..n]), run[n..])
    ensures After(st, run) == After(After(st, run[..n]), run[n..])
    decreases run
  {
    hide Next, Enabled;
    if n == 0 {
      assert run[..0] == [] && run[0..] == run;
    } else {
      RunSplits(Next(st, run[0]), run[1..], n - 1);
      assert run[..n][0] == run[0] && run[..n][1..] == run[1..][..n - 1] && run[1..][n - 1..] == run[n..];
    }
  }

  /** The pipeline before step `n` of a run. */
  ghost function At(st: State, run: seq<Step>, n: nat): State
    requires n <= |run| && Valid(st, run)
  {
    RunSplits(st, run, n);
    After(st, run[..n])
  }

  lemma StepAt(st: State, run: seq<Step>, n: nat)
    requires n < |run| && Valid(st, run)
    ensures Enabled(At(st, run, n), run[n]) && At(st, run, n + 1) == Next(At(st, run, n), run[n])
  {
    hide Next, Enabled;
    RunSplits(st, run, n + 1);
    var upTo := run[..n + 1];
    RunSplits(st, upTo, n);
    assert upTo[..n] == run[..n] && upTo[n..] == [run[n]];
    var mid := At(st, run, n);
    assert Valid(mid, [run[n]]);
    assert After(Next(mid, run[n]), []) == Next(mid, run[n]);
  }

  /** The last act of a worker. */
  ghost function LastAct(run: seq<Step>, n: nat, w: nat): Option<Act>
    requires n <= |run|
  {
    if n == 0 then None else if run[n - 1].Work? && run[n - 1].w == w then Some(run[n - 1].act) else LastAct(run, n - 1, w)
  }

  /** The order of a worker's acts: a message is dropped or handled, a success is acknowledged or given up, a
      failure is released, a DLQ write is acknowledged and then released. */
  ghost predicate Follows(last: Option<Act>, act: Act) {
    match act
    case Drop => last == Some(Receive)
    case Run => last == Some(Receive)
    case Succeed => last == Some(Run)
    case Fail => last == Some(Run)
    case DeadLetter => last == Some(Run)
    case AckDead => last == Some(DeadLetter)
    case Release => last == Some(Fail) || last == Some(AckDead)
    case SendAck => last == Some(Succeed)
    case LoseAck => last == Some(Succeed)
    case _ => last == None || last == Some(Release) || last == Some(SendAck) || last == Some(LoseAck)
  }

  ghost predicate InPhase(p: Phase, last: Option<Act>) {
    match last
    case None => p.Idle?
    case Some(Receive) => p.Took?
    case Some(Run) => p.Running?
    case Some(Succeed) => p.Acking?
    case Some(Fail) => p.Releasing?
    case Some(DeadLetter) => p.AckingDead?
    case Some(AckDead) => p.Releasing?
    case Some(Drop) => p.Exited?
    case Some(WorkerExit) => p.Exited?
    case Some(_) => p.Idle?
  }

  lemma PhaseStep(st: State, step: Step, w: nat, last: Option<Act>)
    requires Enabled(st, step) && w < |st.workers| && InPhase(st.workers[w], last)
    ensures var st' := Next(st, step);
            |st'.workers| == |st.workers| && InPhase(st'.workers[w], if step.Work? && step.w == w then Some(step.act) else last) &&
            (st'.stopped <==> st.stopped || step == StopPolling) && (st'.cancelled <==> st.cancelled || step == Cancel)
  {
    hide Registered, Released;
  }

  lemma {:induction false} PhaseTells(st: State, run: seq<Step>, n: nat, w: nat)
    requires Initial(st) && n <= |run| && Valid(st, run) && w < |st.workers|
    ensures var mid := At(st, run, n);
            |mid.workers| == |st.workers| && InPhase(mid.workers[w], LastAct(run, n, w)) &&
            (mid.stopped <==> StopPolling in run[..n]) && (mid.cancelled <==> Cancel in run[..n])
  {
    if n == 0 {
      assert run[..0] == [];
    } else {
      hide Next, Enabled, InPhase, Valid;
      PhaseTells(st, run, n - 1, w);
      StepAt(st, run, n - 1);
      PhaseStep(At(st, run, n - 1), run[n - 1], w, LastAct(run, n - 1, w));
      assert run[..n] == run[..n - 1] + [run[n - 1]];
    }
  }

  lemma PhaseDecides(st: State, p: Phase, act: Act, last: Option<Act>)
    requires InPhase(p, last)
    ensures WorkEnabled(st, p, act) <==>
            Follows(last, act) && (act.Receive? ==> st.queue != []) && (act.Drop? || act.WorkerExit? ==> st.stopped) && (act.LoseAck? ==> st.cancelled)
  {
  }

  /** In every interleaving, what a worker can do next is decided by its last act, the queue, and whether
      polling was stopped or the subscription cancelled. */
  lemma ActsExactly(st: State, run: seq<Step>, n: nat, w: nat, act: Act)
    requires Initial(st) && n <= |run| && Valid(st, run) && w < |st.workers|
    ensures Enabled(At(st, run, n), Work(w, act)) <==>
            Follows(LastAct(run, n, w), act) && (act.Receive? ==> At(st, run, n).queue != []) &&
            (act.Drop? || act.WorkerExit? ==> StopPolling in run[..n]) && (act.LoseAck? ==> Cancel in run[..n])
  {
    hide At, Valid, LastAct, InPhase, Follows, WorkEnabled, Initial;
    PhaseTells(st, run, n, w);
    var mid := At(st, run, n);
    PhaseDecides(mid, mid.workers[w], act, LastAct(run, n, w));
  }
}
