/** The per-partition worker of `pkg/infra/kafka.go` for a traditional consumer group.

    The worker goroutine runs `next`, `acquire`, `process`, `complete` in a loop; the poll loop enqueues; a
    revoke, loss or shutdown stops, cancels and finally revokes it.  Each critical section, handler call, DLQ
    write and wait is one step, and steps of the three interleave freely. */
module KafkaPartition {
  import opened Options

  // ---------------------------------------------------------------- the fields under the mutex

  datatype Fields<R> = Fields(queue: seq<R>, paused: bool, revoked: bool)

  function Enqueued<R>(f: Fields<R>, records: seq<R>, pauseAt: nat): Fields<R> {
    if f.revoked then f
    else
      var queue := f.queue + records;
      Fields(queue, f.paused || |queue| >= pauseAt, false)
  }

  function Dequeued<R>(f: Fields<R>, resumeAt: nat): Fields<R>
    requires f.queue != []
  {
    f.(queue := f.queue[1..], paused := f.paused && |f.queue| - 1 > resumeAt)
  }

  function Revoked<R>(f: Fields<R>): Fields<R> { f.(queue := [], revoked := true) }

  /** `kafkaPartitionWorker`; `fetching` is what the consumer was last told about the partition, `marks` what it
      was told to commit. */
  class Worker<R> {
    var queue: seq<R>
    var paused: bool
    var revoked: bool
    var fetching: bool
    var marks: seq<R>

    ghost function Value(): Fields<R>
      reads this
    {
      Fields(queue, paused, revoked)
    }

    constructor ()
      ensures Value() == Fields([], false, false) && fetching && marks == []
    {
      queue, paused, revoked, fetching, marks := [], false, false, true, [];
    }

    method Enqueue(records: seq<R>, pauseAt: nat)
      requires fetching == !paused
      modifies this
      ensures Value() == Enqueued(old(Value()), records, pauseAt) && fetching == !paused && marks == old(marks)
    {
      if revoked { return; }
      queue := queue + records;
      if !paused && |queue| >= pauseAt {
        paused := true;
        fetching := false;
      }
    }

    /** The critical section of `next`. */
    method Next(resumeAt: nat) returns (record: Option<R>)
      requires fetching == !paused
      modifies this
      ensures fetching == !paused && marks == old(marks)
      ensures if old(queue) == [] then record == None && Value() == old(Value())
              else record == Some(old(queue)[0]) && Value() == Dequeued(old(Value()), resumeAt)
    {
      if |queue| > 0 {
        record := Some(queue[0]);
        queue := queue[1..];
        if paused && |queue| <= resumeAt {
          paused := false;
          fetching := true;
        }
        return;
      }
      queue := [];
      record := None;
    }

    method Complete(record: R)
      modifies this
      ensures Value() == old(Value()) && fetching == old(fetching)
      ensures marks == if revoked then old(marks) else old(marks) + [record]
    {
      if !revoked { marks := marks + [record]; }
    }

    method MarkRevoked()
      modifies this
      ensures Value() == Revoked(old(Value())) && marks == old(marks)
    {
      revoked := true;
      queue := [];
    }
  }

  // ---------------------------------------------------------------- the worker goroutine

  /** Where the goroutine is: waiting for a record, for a slot, in the handler, between handler attempts, in
      the DLQ write, between DLQ attempts, about to complete, or gone. */
  datatype Phase<R> =
    | Idle
    | Took(record: R)
    | Handling(record: R, attempt: nat)
    | Resting(record: R, attempt: nat)
    | Publishing(record: R, failures: nat)
    | Repeating(record: R, failures: nat)
    | Settled(record: R)
    | Exited

  /** `taken` and `enqueued` are all records ever taken from and accepted into the queue; `settled` those
      handled or written to the DLQ; `marked` what was handed over for committing. */
  datatype State<R> = State(
    fields: Fields<R>, phase: Phase<R>, stopping: bool, cancelled: bool,
    enqueued: seq<R>, taken: seq<R>, settled: seq<R>, marked: seq<R>)

  datatype Config = Config(batchSize: nat, maxRetries: nat)

  datatype Step<R> =
    | Enqueue(records: seq<R>)
    | Next(exit: bool)
    | Acquire(granted: bool)
    | Handle(success: bool)
    | Wait(elapsed: bool)
    | Publish(success: bool)
    | Complete
    | Stop
    | Cancel
    | MarkRevoked

  ghost predicate Interrupted<R>(st: State<R>) { st.stopping || st.cancelled }

  /** An attempt to get a slot or to wait fails only when the worker is stopped or cancelled, and a slot is
      kept only when it is not. */
  ghost predicate Enabled<R>(st: State<R>, step: Step<R>) {
    match step
    case Next(exit) =>
      st.phase.Idle? &&
      if exit then st.stopping || (st.cancelled && st.fields.queue == []) else st.fields.queue != []
    case Acquire(granted) => st.phase.Took? && granted == !Interrupted(st)
    case Handle(_) => st.phase.Handling?
    case Wait(elapsed) => (st.phase.Resting? || st.phase.Repeating?) && (!elapsed ==> Interrupted(st))
    case Publish(_) => st.phase.Publishing?
    case Complete => st.phase.Settled?
    case _ => true
  }

  /** `next` returns without a record when it sees the worker stopped; a stop or cancellation it does not see
      yet leaves it a record from the queue. */
  ghost function AfterNext<R>(c: Config, st: State<R>, exit: bool): State<R>
    requires !exit ==> st.fields.queue != []
  {
    if exit then st.(phase := Exited)
    else
      var record := st.fields.queue[0];
      st.(fields := Dequeued(st.fields, c.batchSize), phase := Took(record), taken := st.taken + [record])
  }

  ghost function AfterHandle<R>(c: Config, st: State<R>, success: bool): State<R>
    requires st.phase.Handling?
  {
    var Handling(record, attempt) := st.phase;
    if success then st.(phase := Settled(record), settled := st.settled + [record])
    else if st.cancelled then st.(phase := Exited)
    else if attempt >= c.maxRetries then st.(phase := Publishing(record, attempt + 1))
    else st.(phase := Resting(record, attempt))
  }

  ghost function AfterPublish<R>(st: State<R>, success: bool): State<R>
    requires st.phase.Publishing?
  {
    var Publishing(record, failures) := st.phase;
    if success then st.(phase := Settled(record), settled := st.settled + [record])
    else if st.cancelled then st.(phase := Exited)
    else st.(phase := Repeating(record, failures))
  }

  ghost function AfterComplete<R>(st: State<R>): State<R>
    requires st.phase.Settled?
  {
    st.(phase := Idle, marked := if st.fields.revoked then st.marked else st.marked + [st.phase.record])
  }

  ghost function Do<R>(c: Config, st: State<R>, step: Step<R>): State<R>
    requires Enabled(st, step)
  {
    match step
    case Enqueue(records) =>
      st.(fields := Enqueued(st.fields, records, 2 * c.batchSize), enqueued := if st.fields.revoked then st.enqueued else st.enqueued + records)
    case Next(exit) => AfterNext(c, st, exit)
    case Acquire(granted) => st.(phase := if granted then Handling(st.phase.record, 0) else Exited)
    case Handle(success) => AfterHandle(c, st, success)
    case Wait(elapsed) =>
      st.(phase := if !elapsed then Exited
          else if st.phase.Resting? then Handling(st.phase.record, st.phase.attempt + 1)
          else Publishing(st.phase.record, st.phase.failures))
    case Publish(success) => AfterPublish(st, success)
    case Complete => AfterComplete(st)
    case Stop => st.(stopping := true)
    case Cancel => st.(cancelled := true)
    case MarkRevoked => st.(fields := Revoked(st.fields))
  }

  ghost predicate Valid<R>(c: Config, st: State<R>, run: seq<Step<R>>)
    decreases run
  {
    run == [] || (Enabled(st, run[0]) && Valid(c, Do(c, st, run[0]), run[1..]))
  }

  ghost function After<R>(c: Config, st: State<R>, run: seq<Step<R>>): State<R>
    requires Valid(c, st, run)
    decreases run
  {
    if run == [] then st else After(c, Do(c, st, run[0]), run[1..])
  }

  ghost function Start<R>(): State<R> { State(Fields([], false, false), Idle, false, false, [], [], [], []) }

  // ---------------------------------------------------------------- the invariant

  ghost predicate Prefix<T>(a: seq<T>, b: seq<T>) { |a| <= |b| && b[..|a|] == a }

  /** The record being worked on, if it is not settled yet. */
  ghost function InHand<R>(p: Phase<R>): seq<R> {
    match p
    case Took(r) => [r]
    case Handling(r, _) => [r]
    case Resting(r, _) => [r]
    case Publishing(r, _) => [r]
    case Repeating(r, _) => [r]
    case _ => []
  }

  /** The settled record that is about to be marked. */
  ghost function AboutToMark<R>(p: Phase<R>): seq<R> { if p.Settled? then [p.record] else [] }

  /** A worker stops fetching with more than a batch left and fetches with less than two. */
  ghost predicate FlowControlled<R>(c: Config, f: Fields<R>) {
    !f.revoked ==> if f.paused then |f.queue| > c.batchSize else |f.queue| < 2 * c.batchSize
  }

  ghost predicate Inv<R>(c: Config, st: State<R>) {
    FlowControlled(c, st.fields) &&
    (st.fields.revoked ==> st.fields.queue == []) &&
    Prefix(st.taken, st.enqueued) &&
    (!st.fields.revoked ==> st.taken + st.fields.queue == st.enqueued) &&
    (if st.phase.Exited? then Prefix(st.settled, st.taken) else st.settled + InHand(st.phase) == st.taken) &&
    Prefix(st.marked, st.settled) &&
    (!st.fields.revoked ==> st.marked + AboutToMark(st.phase) == st.settled)
  }

  lemma PrefixGrows<T>(a: seq<T>, b: seq<T>, more: seq<T>)
    requires Prefix(a, b)
    ensures Prefix(a, b + more)
  {
    assert (b + more)[..|a|] == b[..|a|];
  }

  lemma EnqueueKeepsInv<R>(c: Config, st: State<R>, records: seq<R>)
    requires Inv(c, st) && c.batchSize > 0
    ensures Inv(c, Do(c, st, Enqueue(records)))
  {
    PrefixGrows(st.taken, st.enqueued, records);
    assert (st.taken + st.fields.queue) + records == st.taken + (st.fields.queue + records);
  }

  lemma NextKeepsInv<R>(c: Config, st: State<R>, exit: bool)
    requires Inv(c, st) && Enabled(st, Next(exit)) && c.batchSize > 0
    ensures Inv(c, AfterNext(c, st, exit))
  {
    assert st.settled + [] == st.settled;
    if !exit {
      var r := st.fields.queue[0];
      assert st.fields.queue == [r] + st.fields.queue[1..];
      assert (st.taken + [r]) + st.fields.queue[1..] == st.enqueued;
    }
  }

  lemma SettleKeepsInv<R>(c: Config, st: State<R>)
    requires Inv(c, st) && (st.phase.Handling? || st.phase.Publishing?)
    ensures Inv(c, st.(phase := Settled(st.phase.record), settled := st.settled + [st.phase.record]))
  {
    var r := st.phase.record;
    PrefixGrows(st.marked, st.settled, [r]);
    assert (st.settled + [r]) + [] == st.taken;
    assert st.marked + [] == st.marked;
  }

  /** Giving up a record in hand leaves the settled ones a prefix of the taken ones. */
  lemma ExitKeepsInv<R>(c: Config, st: State<R>)
    requires Inv(c, st) && !st.phase.Settled?
    ensures Inv(c, st.(phase := Exited))
  {
    var settled, hand := st.settled, InHand(st.phase);
    if !st.phase.Exited? { assert (settled + hand)[..|settled|] == settled; }
  }

  lemma HandleKeepsInv<R>(c: Config, st: State<R>, success: bool)
    requires Inv(c, st) && st.phase.Handling?
    ensures Inv(c, AfterHandle(c, st, success))
  {
    if success { SettleKeepsInv(c, st); } else { ExitKeepsInv(c, st); }
  }

  lemma PublishKeepsInv<R>(c: Config, st: State<R>, success: bool)
    requires Inv(c, st) && st.phase.Publishing?
    ensures Inv(c, AfterPublish(st, success))
  {
    if success { SettleKeepsInv(c, st); } else { ExitKeepsInv(c, st); }
  }

  lemma CompleteKeepsInv<R>(c: Config, st: State<R>)
    requires Inv(c, st) && st.phase.Settled?
    ensures Inv(c, AfterComplete(st))
  {
    var marked := st.marked + AboutToMark(st.phase);
    assert marked + [] == marked;
    assert Prefix(marked, st.settled) || st.fields.revoked;
  }

  /** The record in hand stays the same while the goroutine moves on with it. */
  lemma ProceedKeepsInv<R>(c: Config, st: State<R>, phase: Phase<R>)
    requires Inv(c, st) && InHand(phase) == InHand(st.phase) && !st.phase.Settled? && !phase.Settled? && !st.phase.Exited? && !phase.Exited?
    ensures Inv(c, st.(phase := phase))
  {
    hide InHand, Prefix;
  }

  lemma SignalKeepsInv<R>(c: Config, st: State<R>, step: Step<R>)
    requires Inv(c, st) && (step.Stop? || step.Cancel? || step.MarkRevoked?)
    ensures Inv(c, Do(c, st, step))
  {
    hide InHand, Prefix;
  }

  lemma StepKeepsInv<R>(c: Config, st: State<R>, step: Step<R>)
    requires Inv(c, st) && Enabled(st, step) && c.batchSize > 0
    ensures Inv(c, Do(c, st, step))
  {
    match step
    case Enqueue(records) => hide Inv; EnqueueKeepsInv(c, st, records);
    case Next(exit) => hide Inv; NextKeepsInv(c, st, exit);
    case Acquire(granted) =>
      hide Inv;
      if granted { ProceedKeepsInv(c, st, Handling(st.phase.record, 0)); } else { ExitKeepsInv(c, st); }
    case Handle(success) => hide Inv; HandleKeepsInv(c, st, success);
    case Wait(elapsed) =>
      hide Inv;
      if elapsed { ProceedKeepsInv(c, st, Do(c, st, step).phase); } else { ExitKeepsInv(c, st); }
    case Publish(success) => hide Inv; PublishKeepsInv(c, st, success);
    case Complete => hide Inv; CompleteKeepsInv(c, st);
    case _ => hide Inv; SignalKeepsInv(c, st, step);
  }

  lemma {:induction false} RunKeepsInv<R>(c: Config, st: State<R>, run: seq<Step<R>>)
    requires Inv(c, st) && Valid(c, st, run) && c.batchSize > 0
    ensures Inv(c, After(c, st, run))
    decreases run
  {
    if run != [] {
      StepKeepsInv(c, st, run[0]);
      RunKeepsInv(c, Do(c, st, run[0]), run[1..]);
    }
  }

  // ---------------------------------------------------------------- what the steps of a run tell

  lemma {:induction false} RunSplits<R>(c: Config, st: State<R>, run: seq<Step<R>>, n: nat)
    requires n <= |run| && Valid(c, st, run)
    ensures Valid(c, st, run[..n]) && Valid(c, After(c, st, run[..n]), run[n..])
    ensures After(c, st, run) == After(c, After(c, st, run[..n]), run[n..])
    decreases run
  {
    if n == 0 {
      assert run[..0] == [] && run[0..] == run;
    } else {
      RunSplits(c, Do(c, st, run[0]), run[1..], n - 1);
      assert run[..n][0] == run[0] && run[..n][1..] == run[1..][..n - 1] && run[1..][n - 1..] == run[n..];
    }
  }

  /** The state before step `n` of a run. */
  ghost function At<R>(c: Config, run: seq<Step<R>>, n: nat): State<R>
    requires n <= |run| && Valid(c, Start<R>(), run)
  {
    RunSplits(c, Start<R>(), run, n);
    After(c, Start<R>(), run[..n])
  }

  lemma StepAt<R>(c: Config, run: seq<Step<R>>, n: nat)
    requires n < |run| && Valid(c, Start<R>(), run)
    ensures Enabled(At(c, run, n), run[n]) && At(c, run, n + 1) == Do(c, At(c, run, n), run[n])
  {
    RunSplits(c, Start<R>(), run, n + 1);
    var upTo := run[..n + 1];
    RunSplits(c, Start<R>(), upTo, n);
    assert upTo[..n] == run[..n] && upTo[n..] == [run[n]];
    var st := At(c, run, n);
    assert Valid(c, st, [run[n]]);
    assert After(c, Do(c, st, run[n]), []) == Do(c, st, run[n]);
  }

  /** The records handed to the worker before `markRevoked`. */
  ghost function Accepted<R>(run: seq<Step<R>>, n: nat): seq<R>
    requires n <= |run|
  {
    if n == 0 then []
    else Accepted(run, n - 1) + if run[n - 1].Enqueue? && MarkRevoked !in run[..n - 1] then run[n - 1].records else []
  }

  /** How often the goroutine completed a record before `markRevoked`. */
  ghost function Completions<R>(run: seq<Step<R>>, n: nat): nat
    requires n <= |run|
  {
    if n == 0 then 0
    else Completions(run, n - 1) + if run[n - 1].Complete? && MarkRevoked !in run[..n - 1] then 1 else 0
  }

  /** Where the handler or the DLQ write succeeded. */
  ghost function Successes<R>(run: seq<Step<R>>, n: nat): (r: seq<nat>)
    requires n <= |run|
    ensures forall k :: 0 <= k < |r| ==> r[k] < n && (run[r[k]] == Handle(true) || run[r[k]] == Publish(true))
  {
    if n == 0 then []
    else Successes(run, n - 1) + if run[n - 1] == Handle(true) || run[n - 1] == Publish(true) then [n - 1] else []
  }

  /** How often the handler has failed since a slot was last acquired. */
  ghost function Failures<R>(run: seq<Step<R>>, n: nat): nat
    requires n <= |run|
  {
    if n == 0 || run[n - 1].Acquire? then 0
    else Failures(run, n - 1) + if run[n - 1] == Handle(false) then 1 else 0
  }

  /** How far the goroutine has come with a record, from the failures of the handler. */
  ghost predicate CountsFailures<R>(c: Config, p: Phase<R>, failures: nat) {
    match p
    case Handling(_, attempt) => attempt == failures <= c.maxRetries
    case Resting(_, attempt) => attempt + 1 == failures <= c.maxRetries
    case Publishing(_, f) => f == failures == c.maxRetries + 1
    case Repeating(_, f) => f == failures == c.maxRetries + 1
    case _ => true
  }

  lemma CountStep<R>(c: Config, st: State<R>, step: Step<R>, failures: nat)
    requires Enabled(st, step) && CountsFailures(c, st.phase, failures)
    ensures CountsFailures(c, Do(c, st, step).phase, if step.Acquire? then 0 else failures + if step == Handle(false) then 1 else 0)
  {
    hide Enqueued, Dequeued, Revoked;
  }

  lemma {:induction false} RunCountsFailures<R>(c: Config, run: seq<Step<R>>, n: nat)
    requires n <= |run| && Valid(c, Start<R>(), run)
    ensures CountsFailures(c, At(c, run, n).phase, Failures(run, n))
  {
    if n > 0 {
      RunCountsFailures(c, run, n - 1);
      StepAt(c, run, n - 1);
      CountStep(c, At(c, run, n - 1), run[n - 1], Failures(run, n - 1));
    }
  }

  /** The handler is called only while it has failed at most `maxRetries` times since the record got its
      slot, the DLQ is written only after exactly one failure more, and after each failure of the handler
      the goroutine goes on to one or the other unless it ends. */
  lemma RetriesBeforeDeadLetter<R>(c: Config, run: seq<Step<R>>, n: nat)
    requires n < |run| && Valid(c, Start<R>(), run)
    ensures run[n].Handle? ==> Failures(run, n) <= c.maxRetries
    ensures run[n].Publish? ==> Failures(run, n) == c.maxRetries + 1
    ensures run[n] == Handle(false) && Cancel !in run[..n] ==>
              var p := At(c, run, n + 1).phase;
              InHand(p) == InHand(At(c, run, n).phase) && if Failures(run, n) < c.maxRetries then p.Resting? else p.Publishing?
  {
    StepAt(c, run, n);
    RunCountsFailures(c, run, n);
    SignalsSeen(c, run, n);
  }

  /** What was accepted and how much was marked. */
  ghost predicate Told<R>(c: Config, run: seq<Step<R>>, n: nat)
    requires n <= |run| && Valid(c, Start<R>(), run)
  {
    var st := At(c, run, n);
    (st.fields.revoked <==> MarkRevoked in run[..n]) && st.enqueued == Accepted(run, n) && |st.marked| == Completions(run, n)
  }

  lemma {:induction false} RunTells<R>(c: Config, run: seq<Step<R>>, n: nat)
    requires n <= |run| && Valid(c, Start<R>(), run)
    ensures Told(c, run, n)
  {
    if n == 0 {
      assert run[..0] == [];
    } else {
      RunTells(c, run, n - 1);
      StepAt(c, run, n - 1);
      StepTells(c, At(c, run, n - 1), run[n - 1]);
      assert run[..n] == run[..n - 1] + [run[n - 1]];
      hide At, Do, Enabled, Valid, InHand;
    }
  }

  /** The settled records are those in hand at the successes. */
  ghost predicate SettledAtSuccess<R>(c: Config, run: seq<Step<R>>, settled: seq<R>, successes: seq<nat>)
    requires Valid(c, Start<R>(), run)
  {
    |settled| == |successes| &&
    forall k :: 0 <= k < |settled| ==> successes[k] <= |run| && InHand(At(c, run, successes[k]).phase) == [settled[k]]
  }

  lemma SettledOneMore<R>(c: Config, run: seq<Step<R>>, settled: seq<R>, successes: seq<nat>, n: nat, r: R)
    requires Valid(c, Start<R>(), run) && SettledAtSuccess(c, run, settled, successes)
    requires n <= |run| && InHand(At(c, run, n).phase) == [r]
    ensures SettledAtSuccess(c, run, settled + [r], successes + [n])
  {
    hide At, InHand;
  }

  lemma {:induction false} SuccessesSettle<R>(c: Config, run: seq<Step<R>>, n: nat)
    requires n <= |run| && Valid(c, Start<R>(), run)
    ensures SettledAtSuccess(c, run, At(c, run, n).settled, Successes(run, n))
  {
    if n > 0 {
      SuccessesSettle(c, run, n - 1);
      StepAt(c, run, n - 1);
      var st, step := At(c, run, n - 1), run[n - 1];
      StepTells(c, st, step);
      if step == Handle(true) || step == Publish(true) {
        SettledOneMore(c, run, st.settled, Successes(run, n - 1), n - 1, InHand(st.phase)[0]);
      }
      hide At, Do, Enabled, Valid, InHand, SettledAtSuccess;
    }
  }

  lemma StepTells<R>(c: Config, st: State<R>, step: Step<R>)
    requires Enabled(st, step)
    ensures var st' := Do(c, st, step);
            st'.enqueued == st.enqueued + (if step.Enqueue? && !st.fields.revoked then step.records else []) &&
            (st'.fields.revoked <==> st.fields.revoked || step == MarkRevoked) &&
            |st'.marked| == |st.marked| + (if step.Complete? && !st.fields.revoked then 1 else 0) &&
            st'.settled == st.settled + (if step == Handle(true) || step == Publish(true) then InHand(st.phase) else [])
    ensures step == Handle(true) || step == Publish(true) ==> |InHand(st.phase)| == 1
  {
  }

  // ---------------------------------------------------------------- ordered commit

  /** Step `i` is the success of the handler for `r` after at most `maxRetries` failures, or that of the DLQ
      write for `r` after exactly `maxRetries + 1`. */
  ghost predicate Settles<R>(c: Config, run: seq<Step<R>>, i: nat, r: R)
    requires Valid(c, Start<R>(), run)
  {
    i < |run| && InHand(At(c, run, i).phase) == [r] &&
    ((run[i] == Handle(true) && Failures(run, i) <= c.maxRetries) || (run[i] == Publish(true) && Failures(run, i) == c.maxRetries + 1))
  }

  /** Ordered commit: in every interleaving, as many records are marked as the goroutine completed before
      `markRevoked`, they are the first ones handed to the worker, in order, and the k-th of them was in hand
      when the k-th success came: of the handler after at most `maxRetries` failures, or of the DLQ write
      after exactly `maxRetries + 1`.  The queue stays within the bounds that pause and resume set. */
  lemma OrderedCommit<R>(c: Config, run: seq<Step<R>>)
    requires Valid(c, Start<R>(), run) && c.batchSize > 0
    ensures var st, settled := After(c, Start<R>(), run), Successes(run, |run|);
            |st.marked| == Completions(run, |run|) && Prefix(st.marked, Accepted(run, |run|)) &&
            |st.marked| <= |settled| && (forall k :: 0 <= k < |st.marked| ==> Settles(c, run, settled[k], st.marked[k])) &&
            FlowControlled(c, st.fields)
  {
    assert run[..|run|] == run;
    RunKeepsInv(c, Start<R>(), run);
    RunTells(c, run, |run|);
    SuccessesSettle(c, run, |run|);
    var st, settled := After(c, Start<R>(), run), Successes(run, |run|);
    MarkedIsSettled(c, st);
    forall k | 0 <= k < |st.marked| ensures Settles(c, run, settled[k], st.marked[k]) {
      RetriesBeforeDeadLetter(c, run, settled[k]);
    }
  }

  lemma MarkedIsSettled<R>(c: Config, st: State<R>)
    requires Inv(c, st)
    ensures Prefix(st.marked, st.enqueued) && Prefix(st.marked, st.settled)
  {
    if !st.phase.Exited? { assert st.taken[..|st.settled|] == st.settled; }
    assert st.enqueued[..|st.marked|] == st.enqueued[..|st.taken|][..|st.marked|];
    assert st.taken[..|st.marked|] == st.taken[..|st.settled|][..|st.marked|];
  }

  /** The goroutine ends exactly when it sees a stop or cancellation while it waits for a record, a slot or
      the next attempt, or when the handler or the DLQ write fails after a cancellation. */
  lemma EndsExactly<R>(c: Config, run: seq<Step<R>>, n: nat)
    requires n < |run| && Valid(c, Start<R>(), run) && !At(c, run, n).phase.Exited?
    ensures At(c, run, n + 1).phase.Exited? <==>
            run[n] == Next(true) || run[n] == Acquire(false) || run[n] == Wait(false) ||
            ((run[n] == Handle(false) || run[n] == Publish(false)) && Cancel in run[..n])
    ensures At(c, run, n + 1).phase.Exited? ==> Cancel in run[..n] || Stop in run[..n]
  {
    StepAt(c, run, n);
    SignalsSeen(c, run, n);
  }

  lemma {:induction false} SignalsSeen<R>(c: Config, run: seq<Step<R>>, n: nat)
    requires n <= |run| && Valid(c, Start<R>(), run)
    ensures At(c, run, n).cancelled <==> Cancel in run[..n]
    ensures At(c, run, n).stopping <==> Stop in run[..n]
  {
    if n == 0 {
      assert run[..0] == [];
    } else {
      SignalsSeen(c, run, n - 1);
      StepAt(c, run, n - 1);
      SignalStep(c, At(c, run, n - 1), run[n - 1]);
      assert run[..n] == run[..n - 1] + [run[n - 1]];
      hide At, Do, Enabled;
    }
  }

  lemma SignalStep<R>(c: Config, st: State<R>, step: Step<R>)
    requires Enabled(st, step)
    ensures var st' := Do(c, st, step);
            (st'.cancelled <==> st.cancelled || step == Cancel) && (st'.stopping <==> st.stopping || step == Stop)
  {
  }

  /** Nothing is marked and nothing enqueued after `markRevoked`, whatever is still running. */
  lemma {:induction false} NothingAfterRevoke<R>(c: Config, st: State<R>, run: seq<Step<R>>)
    requires Valid(c, st, run) && st.fields.revoked
    ensures var st' := After(c, st, run); st'.fields.revoked && st'.marked == st.marked && st'.enqueued == st.enqueued
    decreases run
  {
    if run != [] { NothingAfterRevoke(c, Do(c, st, run[0]), run[1..]); }
  }
}
