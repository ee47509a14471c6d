/** The close barrier of `internal/mqruntime/mqruntime.go`.  Each critical section, each wait that ends and
    the call of `release` is one step; any number of callers interleave. */
module Lifecycle {
  import opened Options

  type Sub = nat

  type Caller = nat

  /** A release result; 0 is nil. */
  type Result = int

  datatype Stage = Open | Closing | Closed

  // ---------------------------------------------------------------- the critical sections

  /** The fields under the mutex, and the wait group's counter. */
  datatype Fields = Fields(stage: Stage, subscriptions: set<Sub>, operations: int, closeErr: Result)

  function Begun(f: Fields): Fields { if f.stage.Open? then f.(operations := f.operations + 1) else f }

  function Ended(f: Fields): Fields { f.(operations := f.operations - 1) }

  function Tracked(f: Fields, s: Sub): Fields { if f.stage.Open? then f.(subscriptions := f.subscriptions + {s}) else f }

  function Untracked(f: Fields, s: Sub): Fields { f.(subscriptions := f.subscriptions - {s}) }

  /** The first critical section of `Close`. */
  function CloseStarted(f: Fields): Fields { if f.stage.Open? then f.(stage := Closing) else f }

  /** The last one of the first `Close`. */
  function CloseFinished(f: Fields, err: Result): Fields { f.(stage := Closed, closeErr := err) }

  class Lifecycle {
    var stage: Stage
    var subscriptions: set<Sub>
    var operations: int
    var closeErr: Result
    /** Whether the channel `closeDone` is closed. */
    var closeDone: bool

    ghost function Value(): Fields
      reads this
    {
      Fields(stage, subscriptions, operations, closeErr)
    }

    /** A caller that finds `closeDone` closed finds the result stored. */
    ghost predicate Valid()
      reads this
    {
      closeDone == stage.Closed?
    }

    constructor ()
      ensures Valid() && Value() == Fields(Open, {}, 0, 0)
    {
      stage, subscriptions, operations, closeDone, closeErr := Open, {}, 0, false, 0;
    }

    method Begin() returns (ok: bool)
      requires Valid()
      modifies this
      ensures Valid() && ok == old(stage).Open? && Value() == Begun(old(Value()))
    {
      if stage != Open { return false; }
      operations := operations + 1;
      ok := true;
    }

    method End()
      requires Valid()
      modifies this
      ensures Valid() && Value() == Ended(old(Value()))
    {
      operations := operations - 1;
    }

    method Track(s: Sub) returns (ok: bool)
      requires Valid()
      modifies this
      ensures Valid() && ok == old(stage).Open? && Value() == Tracked(old(Value()), s)
    {
      if stage != Open { return false; }
      subscriptions := subscriptions + {s};
      ok := true;
    }

    method Untrack(s: Sub)
      requires Valid()
      modifies this
      ensures Valid() && Value() == Untracked(old(Value()), s)
    {
      subscriptions := subscriptions - {s};
    }

    /** Only the first caller closes, and gets the subscriptions to wait for. */
    method StartClose() returns (first: bool, snapshot: set<Sub>)
      requires Valid()
      modifies this
      ensures Valid() && first == old(stage).Open? && Value() == CloseStarted(old(Value()))
      ensures first ==> snapshot == old(subscriptions)
    {
      if stage != Open { return false, {}; }
      stage := Closing;
      return true, subscriptions;
    }

    method FinishClose(err: Result)
      requires Valid()
      modifies this
      ensures Valid() && Value() == CloseFinished(old(Value()), err)
    {
      closeErr := err;
      stage := Closed;
      closeDone := true;
    }

    /** A later `Close` after `closeDone`. */
    method Answer() returns (r: Option<Result>)
      requires Valid()
      ensures r == if stage.Closed? then Some(closeErr) else None
    {
      r := if closeDone then Some(closeErr) else None;
    }
  }

  // ---------------------------------------------------------------- all callers together

  /** How far the first `Close` has come: operations waited for, subscriptions waited for, release called. */
  datatype Barrier = Barrier(owner: Caller, snapshot: seq<Sub>, drained: bool, waited: nat, released: Option<Result>)

  /** `tracked` are all subscriptions ever tracked; a subscription in `finishing` has entered `Finish` and is no
      longer tracked, one in `done` has closed its channel. */
  datatype State = State(
    fields: Fields,
    tracked: set<Sub>, finishing: set<Sub>, done: set<Sub>,
    barrier: Option<Barrier>, releases: nat, waiters: set<Caller>, answers: map<Caller, Result>)

  datatype Step =
    | Begin
    | End
    | Track(s: Sub)
    | Untrack(s: Sub)
    | CloseChannel(s: Sub)
    | StartClose(caller: Caller, order: seq<Sub>)
    | Drain
    | Await
    | Release(result: Result)
    | FinishClose
    | Answer(caller: Caller)
    | GiveUp(caller: Caller)

  const Start := State(Fields(Open, {}, 0, 0), {}, {}, {}, None, 0, {}, map[])

  /** The subscriptions in the order the map iteration gives them. */
  ghost predicate Lists(order: seq<Sub>, subs: set<Sub>) { (set s <- order) == subs }

  ghost predicate Enabled(st: State, step: Step) {
    match step
    case Begin => true
    case End => st.fields.operations > 0
    case Track(s) => true
    case Untrack(s) => s !in st.finishing
    case CloseChannel(s) => s in st.finishing
    case StartClose(_, order) => Lists(order, st.fields.subscriptions)
    case Drain => st.barrier.Some? && st.fields.operations == 0
    case Await => st.barrier.Some? && st.barrier.value.drained && st.barrier.value.waited < |st.barrier.value.snapshot|
                  && st.barrier.value.snapshot[st.barrier.value.waited] in st.done
    case Release(_) => st.barrier.Some? && st.barrier.value.drained && st.barrier.value.waited == |st.barrier.value.snapshot|
                       && st.barrier.value.released.None?
    case FinishClose => st.fields.stage.Closing? && st.barrier.Some? && st.barrier.value.released.Some?
    case Answer(caller) => caller in st.waiters && st.fields.stage.Closed?
    case GiveUp(caller) => caller in st.waiters
  }

  ghost function Next(st: State, step: Step): State
    requires Enabled(st, step)
  {
    match step
    case Begin => st.(fields := Begun(st.fields))
    case End => st.(fields := Ended(st.fields))
    case Track(s) => st.(fields := Tracked(st.fields, s), tracked := if st.fields.stage.Open? then st.tracked + {s} else st.tracked)
    case Untrack(s) => st.(fields := Untracked(st.fields, s), finishing := st.finishing + {s})
    case CloseChannel(s) => st.(done := st.done + {s})
    case StartClose(caller, order) =>
      if st.fields.stage.Open? then st.(fields := CloseStarted(st.fields), barrier := Some(Barrier(caller, order, false, 0, None)))
      else st.(fields := CloseStarted(st.fields), waiters := st.waiters + {caller})
    case Drain => st.(barrier := Some(st.barrier.value.(drained := true)))
    case Await => st.(barrier := Some(st.barrier.value.(waited := st.barrier.value.waited + 1)))
    case Release(result) => st.(barrier := Some(st.barrier.value.(released := Some(result))), releases := st.releases + 1)
    case FinishClose =>
      var b := st.barrier.value;
      st.(fields := CloseFinished(st.fields, b.released.value), answers := st.answers[b.owner := b.released.value])
    case Answer(caller) => st.(waiters := st.waiters - {caller}, answers := st.answers[caller := st.fields.closeErr])
    case GiveUp(caller) => st.(waiters := st.waiters - {caller})
  }

  ghost predicate Valid(st: State, run: seq<Step>)
    decreases run
  {
    run == [] || (Enabled(st, run[0]) && Valid(Next(st, run[0]), run[1..]))
  }

  ghost function After(st: State, run: seq<Step>): State
    requires Valid(st, run)
    decreases run
  {
    if run == [] then st else After(Next(st, run[0]), run[1..])
  }

  // ---------------------------------------------------------------- the invariant

  ghost predicate BarrierInv(st: State, b: Barrier) {
    !st.fields.stage.Open? &&
    (b.drained ==> st.fields.operations == 0) &&
    b.waited <= |b.snapshot| && (b.waited > 0 ==> b.drained) &&
    (forall k :: 0 <= k < b.waited ==> b.snapshot[k] in st.done) &&
    (forall s <- st.tracked :: s in st.finishing || s in b.snapshot) &&
    (b.released.Some? ==> b.drained && b.waited == |b.snapshot|) &&
    st.releases == (if b.released.Some? then 1 else 0) &&
    (st.fields.stage.Closed? ==> b.released == Some(st.fields.closeErr))
  }

  ghost predicate Inv(st: State) {
    st.done <= st.finishing &&
    (st.fields.stage.Open? <==> st.barrier.None?) &&
    (st.barrier.None? ==> st.releases == 0 && st.answers == map[] && forall s <- st.tracked :: s in st.finishing || s in st.fields.subscriptions) &&
    (st.barrier.Some? ==> BarrierInv(st, st.barrier.value)) &&
    (!st.fields.stage.Closed? ==> st.answers == map[]) &&
    (forall c <- st.answers :: st.answers[c] == st.fields.closeErr)
  }

  lemma StepKeepsInv(st: State, step: Step)
    requires Inv(st) && Enabled(st, step)
    ensures Inv(Next(st, step))
    ensures !st.fields.stage.Open? ==>
              !Next(st, step).fields.stage.Open? && Next(st, step).tracked == st.tracked &&
              st.releases <= Next(st, step).releases
  {
    if step.StartClose? && st.fields.stage.Open? {
      forall s | s in st.tracked ensures s in st.finishing || s in step.order {
        if s in st.fields.subscriptions { assert s in (set x <- step.order); }
      }
    }
  }

  lemma {:induction false} RunKeepsInv(st: State, run: seq<Step>)
    requires Inv(st) && Valid(st, run)
    ensures Inv(After(st, run))
    ensures !st.fields.stage.Open? ==>
              !After(st, run).fields.stage.Open? && After(st, run).tracked == st.tracked &&
              st.releases <= After(st, run).releases
    decreases run
  {
    if run != [] {
      StepKeepsInv(st, run[0]);
      RunKeepsInv(Next(st, run[0]), run[1..]);
    }
  }

  // ---------------------------------------------------------------- what the steps of a run tell

  lemma {:induction false} RunSplits(st: State, run: seq<Step>, n: nat)
    requires n <= |run| && Valid(st, run)
    ensures Valid(st, run[..n]) && Valid(After(st, run[..n]), run[n..])
    ensures After(st, run) == After(After(st, run[..n]), run[n..])
    decreases run
  {
    if n == 0 {
      assert run[..0] == [] && run[0..] == run;
    } else {
      RunSplits(Next(st, run[0]), run[1..], n - 1);
      assert run[..n][0] == run[0] && run[..n][1..] == run[1..][..n - 1] && run[1..][n - 1..] == run[n..];
    }
  }

  /** The state before step `n` of a run. */
  ghost function At(run: seq<Step>, n: nat): State
    requires n <= |run| && Valid(Start, run)
  {
    RunSplits(Start, run, n);
    After(Start, run[..n])
  }

  lemma StepAt(run: seq<Step>, n: nat)
    requires n < |run| && Valid(Start, run)
    ensures Enabled(At(run, n), run[n]) && At(run, n + 1) == Next(At(run, n), run[n])
  {
    RunSplits(Start, run, n + 1);
    var upTo := run[..n + 1];
    RunSplits(Start, upTo, n);
    assert upTo[..n] == run[..n] && upTo[n..] == [run[n]];
    var st := At(run, n);
    assert Valid(st, [run[n]]);
    assert After(Next(st, run[n]), []) == Next(st, run[n]);
  }

  lemma RunAt(run: seq<Step>, n: nat, m: nat)
    requires n <= m <= |run| && Valid(Start, run)
    ensures Inv(At(run, n)) && Inv(At(run, m))
    ensures !At(run, n).fields.stage.Open? ==> !At(run, m).fields.stage.Open?
    ensures At(run, n).releases <= At(run, m).releases
  {
    RunSplits(Start, run, m);
    var upTo := run[..m];
    RunSplits(Start, upTo, n);
    assert upTo[..n] == run[..n];
    RunKeepsInv(Start, run[..n]);
    RunKeepsInv(At(run, n), upTo[n..]);
  }

  /** No `Close` has started. */
  ghost predicate NoClose(run: seq<Step>, n: nat)
    requires n <= |run|
  {
    forall i :: 0 <= i < n ==> !run[i].StartClose?
  }

  /** The `Begin` calls that came before any `Close`. */
  ghost function Begins(run: seq<Step>, n: nat): nat
    requires n <= |run|
  {
    if n == 0 then 0 else Begins(run, n - 1) + if run[n - 1].Begin? && NoClose(run, n - 1) then 1 else 0
  }

  ghost function Ends(run: seq<Step>, n: nat): nat
    requires n <= |run|
  {
    if n == 0 then 0 else Ends(run, n - 1) + if run[n - 1].End? then 1 else 0
  }

  ghost function Releases(run: seq<Step>, n: nat): nat
    requires n <= |run|
  {
    if n == 0 then 0 else Releases(run, n - 1) + if run[n - 1].Release? then 1 else 0
  }

  /** `s` was tracked before any `Close`, and not untracked since. */
  ghost predicate Subscribed(run: seq<Step>, n: nat, s: Sub)
    requires n <= |run|
  {
    n > 0 && if run[n - 1] == Untrack(s) then false else Subscribed(run, n - 1, s) || (run[n - 1] == Track(s) && NoClose(run, n - 1))
  }

  /** `s` was ever tracked before any `Close`. */
  ghost predicate EverTracked(run: seq<Step>, n: nat, s: Sub)
    requires n <= |run|
  {
    exists i :: 0 <= i < n && run[i] == Track(s) && NoClose(run, i)
  }

  /** One more step adds to the counters and sets what it says. */
  lemma StepTells(st: State, step: Step)
    requires Enabled(st, step)
    ensures var st' := Next(st, step); var open := st.fields.stage.Open?;
            (st'.fields.stage.Open? <==> open && !step.StartClose? && !step.FinishClose?) &&
            st'.fields.operations == st.fields.operations + (if step.Begin? && open then 1 else 0) - (if step.End? then 1 else 0) &&
            st'.releases == st.releases + (if step.Release? then 1 else 0)
    ensures var st' := Next(st, step); var open := st.fields.stage.Open?;
            forall s :: (s in st'.fields.subscriptions <==> step != Untrack(s) && (s in st.fields.subscriptions || (step == Track(s) && open))) &&
                        (s in st'.tracked <==> s in st.tracked || (step == Track(s) && open)) &&
                        (s in st'.finishing <==> s in st.finishing || step == Untrack(s)) &&
                        (s in st'.done <==> s in st.done || step == CloseChannel(s))
  {
  }

  /** The counters count the calls: operations under way are those begun before any `Close` less those ended. */
  lemma {:induction false} CountersTell(run: seq<Step>, n: nat)
    requires n <= |run| && Valid(Start, run)
    ensures var st := At(run, n);
            (st.fields.stage.Open? <==> NoClose(run, n)) &&
            st.fields.operations == Begins(run, n) - Ends(run, n) && st.releases == Releases(run, n)
  {
    if n > 0 {
      CountersTell(run, n - 1);
      StepAt(run, n - 1);
      StepTells(At(run, n - 1), run[n - 1]);
      RunAt(run, n - 1, n);
      hide At, Next, Valid, BarrierInv;
    }
  }

  /** The sets hold exactly what was tracked before any `Close`, untracked, and finished. */
  lemma {:induction false} SetsTell(run: seq<Step>, n: nat, s: Sub)
    requires n <= |run| && Valid(Start, run)
    ensures var st := At(run, n);
            (s in st.fields.subscriptions <==> Subscribed(run, n, s)) &&
            (s in st.tracked <==> EverTracked(run, n, s)) &&
            (s in st.finishing <==> Untrack(s) in run[..n]) &&
            (s in st.done <==> CloseChannel(s) in run[..n])
  {
    if n == 0 {
      assert run[..0] == [];
    } else {
      SetsTell(run, n - 1, s);
      CountersTell(run, n - 1);
      StepAt(run, n - 1);
      StepTells(At(run, n - 1), run[n - 1]);
      assert run[..n] == run[..n - 1] + [run[n - 1]];
      hide At, Next, Enabled, Valid;
    }
  }

  /** The first `Close` holds its caller and the subscriptions tracked when it started. */
  ghost predicate StartedBy(run: seq<Step>, n: nat, j: nat, b: Barrier)
    requires n <= |run|
  {
    j < n && run[j] == StartClose(b.owner, b.snapshot) && NoClose(run, j) && (forall s :: Subscribed(run, j, s) ==> s in b.snapshot) &&
    (b.released.Some? ==> Release(b.released.value) in run[..n])
  }

  lemma {:induction false} BarrierTells(run: seq<Step>, n: nat) returns (j: nat)
    requires n <= |run| && Valid(Start, run) && At(run, n).barrier.Some?
    ensures StartedBy(run, n, j, At(run, n).barrier.value)
  {
    StepAt(run, n - 1);
    CountersTell(run, n - 1);
    var st, step := At(run, n - 1), run[n - 1];
    assert run[..n] == run[..n - 1] + [step];
    if st.barrier.Some? {
      j := BarrierTells(run, n - 1);
      RunAt(run, n - 1, n);
    } else {
      j := n - 1;
      forall s | Subscribed(run, j, s) ensures s in step.order {
        SetsTell(run, j, s);
        assert s in (set x <- step.order);
      }
    }
    hide At, Valid;
  }

  // ---------------------------------------------------------------- the barrier

  /** In every interleaving, when `release` is called: as many operations have ended as ever begin, every
      subscription ever tracked has entered `Finish`, those tracked when the first `Close` started have
      closed their channel, and there is no other call of `release`. */
  lemma ReleaseIsLast(run: seq<Step>, i: nat) returns (j: nat)
    requires Valid(Start, run) && i < |run| && run[i].Release?
    ensures j < i && run[j].StartClose? && NoClose(run, j)
    ensures Ends(run, i) == Begins(run, i) == Begins(run, |run|) == Ends(run, |run|)
    ensures forall s :: EverTracked(run, |run|, s) ==> Untrack(s) in run[..i]
    ensures forall s :: Subscribed(run, j, s) ==> CloseChannel(s) in run[..i]
    ensures forall k :: 0 <= k < |run| && run[k].Release? ==> k == i
  {
    StepAt(run, i);
    RunAt(run, i, i + 1);
    RunAt(run, i + 1, |run|);
    CountersTell(run, i);
    CountersTell(run, |run|);
    j := BarrierTells(run, i);
    BeginsFixed(run, i, |run|);
    var st := At(run, i);
    ReleaseNeeds(st, run[i].result);
    forall s | Subscribed(run, j, s) ensures CloseChannel(s) in run[..i] { SetsTell(run, i, s); }
    forall s | EverTracked(run, |run|, s) ensures Untrack(s) in run[..i] { SetsTell(run, i, s); }
    forall k | 0 <= k < |run| && run[k].Release? ensures k == i {
      if k < i { ReleaseCounted(run, k, i); }
      if i < k { ReleaseCounted(run, i, k); }
      ReleaseCounted(run, if k < i then i else k, |run|);
    }
    hide At, Valid, Next, Enabled, Begins, Ends, Subscribed;
  }

  lemma ReleaseNeeds(st: State, result: Result)
    requires Inv(st) && Enabled(st, Release(result))
    ensures st.fields.operations == 0 && st.tracked <= st.finishing && st.releases == 0
    ensures forall s <- st.barrier.value.snapshot :: s in st.done
  {
    var b := st.barrier.value;
    forall s | s in b.snapshot ensures s in st.done { var k :| 0 <= k < |b.snapshot| && b.snapshot[k] == s; }
  }

  lemma {:induction false} ReleaseCounted(run: seq<Step>, i: nat, n: nat)
    requires i < n <= |run| && run[i].Release?
    ensures Releases(run, n) >= Releases(run, i) + 1
  {
    if i < n - 1 { ReleaseCounted(run, i, n - 1); }
  }

  lemma {:induction false} BeginsFixed(run: seq<Step>, n: nat, m: nat)
    requires n <= m <= |run| && !NoClose(run, n)
    ensures Begins(run, m) == Begins(run, n)
    ensures forall s :: EverTracked(run, m, s) ==> EverTracked(run, n, s)
  {
    if n < m { BeginsFixed(run, n, m - 1); }
  }

  /** Once a `Close` has started, `Begin` and `Track` change nothing, whatever has happened since. */
  lemma NothingStartsAfterClose(run: seq<Step>, n: nat, s: Sub)
    requires n <= |run| && Valid(Start, run) && !NoClose(run, n)
    ensures Next(At(run, n), Begin) == At(run, n) && Next(At(run, n), Track(s)) == At(run, n)
  {
    CountersTell(run, n);
  }

  /** Step `i` is where a `Close` of `caller` returns: the first one by finishing, a later one by finding it
      finished. */
  ghost predicate Returns(run: seq<Step>, i: nat, caller: Caller) {
    i < |run| &&
    (run[i] == Answer(caller) ||
     (run[i] == FinishClose && exists j :: 0 <= j < i && run[j].StartClose? && run[j].caller == caller && NoClose(run, j)))
  }

  /** Every `Close` that returns through the first one's completion gives the result of the one release. */
  lemma EveryCloseAgrees(run: seq<Step>, i: nat, caller: Caller) returns (k: nat)
    requires Valid(Start, run) && Returns(run, i, caller)
    ensures caller in At(run, i + 1).answers
    ensures k < i && run[k] == Release(At(run, i + 1).answers[caller])
  {
    StepAt(run, i);
    RunAt(run, i, i + 1);
    var j := BarrierTells(run, i);
    var st := At(run, i);
    if run[i].FinishClose? {
      var j' :| 0 <= j' < i && run[j'].StartClose? && run[j'].caller == caller && NoClose(run, j');
      assert j == j';
    }
    k :| 0 <= k < i && run[..i][k] == Release(st.barrier.value.released.value);
  }

  // ---------------------------------------------------------------- the barrier waits for the work and nothing else

  /** All operations have ended and the subscriptions the first `Close` found have closed their channel. */
  ghost predicate Ready(st: State) {
    st.barrier.Some? && st.fields.operations == 0 && forall s <- st.barrier.value.snapshot :: s in st.done
  }

  /** The steps the first `Close` still has to make up to its release. */
  ghost function StepsLeft(b: Barrier): int {
    if b.released.Some? then 0 else 1 + |b.snapshot| - b.waited + if b.drained then 0 else 1
  }

  /** The next one of them. */
  ghost function NextOfClose(b: Barrier, result: Result): Step {
    if !b.drained then Drain else if b.waited < |b.snapshot| then Await else Release(result)
  }

  lemma StepKeepsReady(st: State, step: Step)
    requires Inv(st) && Enabled(st, step) && Ready(st)
    ensures Ready(Next(st, step)) && StepsLeft(Next(st, step).barrier.value) <= StepsLeft(st.barrier.value)
  {
  }

  lemma {:induction false} RunKeepsReady(st: State, run: seq<Step>)
    requires Inv(st) && Valid(st, run) && Ready(st)
    ensures Ready(After(st, run)) && StepsLeft(After(st, run).barrier.value) <= StepsLeft(st.barrier.value)
    decreases run
  {
    if run != [] {
      StepKeepsInv(st, run[0]);
      StepKeepsReady(st, run[0]);
      RunKeepsReady(Next(st, run[0]), run[1..]);
    }
  }

  /** The release is possible only when all work has ended; and from then on, in every continuation, it has
      happened or the first `Close` can take its next step towards it, no step of anyone sets it back, and
      at most `StepsLeft` of its own steps are left. */
  lemma WaitsOnlyForWork(run: seq<Step>, more: seq<Step>, result: Result)
    requires Valid(Start, run) && Valid(After(Start, run), more)
    ensures Enabled(After(Start, run), Release(result)) ==> Ready(After(Start, run))
    ensures Ready(After(Start, run)) ==>
              var st := After(After(Start, run), more);
              Ready(st) && StepsLeft(st.barrier.value) <= StepsLeft(After(Start, run).barrier.value) &&
              (st.releases == 1 ||
               var step := NextOfClose(st.barrier.value, result);
               Enabled(st, step) && StepsLeft(Next(st, step).barrier.value) == StepsLeft(st.barrier.value) - 1)
  {
    RunKeepsInv(Start, run);
    var s := After(Start, run);
    if Enabled(s, Release(result)) {
      var b := s.barrier.value;
      forall x | x in b.snapshot ensures x in s.done { var k :| 0 <= k < |b.snapshot| && b.snapshot[k] == x; }
    }
    if Ready(s) {
      RunKeepsInv(s, more);
      RunKeepsReady(s, more);
    }
  }
}
