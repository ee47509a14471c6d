/** The per-worker generator of `pkg/idgen/snowflake/node.go`.

    Times are Unix milliseconds.  A call to `generate` reads the clock one or more times, so a call
    takes the readings it would see; a call whose readings run out while it is still waiting for the
    next millisecond is `Waiting` (it holds the mutex and has changed nothing). */
module SnowflakeNode {
  import opened Options

  const MAX_WORKER_ID := 1023
  const MAX_SEQUENCE := 4095
  /** `1 << workerIDShift` */
  const WORKER_UNIT := 4096
  /** `1 << timestampShift` */
  const TIMESTAMP_UNIT := 4194304
  /** `1<<41 - 1`, the largest elapsed time the layout can hold */
  const MAX_ELAPSED := 2199023255551
  const MAX_INT64 := 9223372036854775807
  const DEFAULT_EPOCH := 1577836800000

  datatype Error = LeaseLost | ClockBackwards | InvalidConfig | TimestampOverflow

  datatype Outcome = Issued(id: int) | Failed(error: Error) | Waiting

  /** The mutable fields of a node. */
  datatype State = State(timestamp: int, workerID: int, sequence: int, epoch: int, retired: bool)

  function Fresh(workerID: int, epoch: int): State {
    State(0, workerID, 0, if epoch == 0 then DEFAULT_EPOCH else epoch, false)
  }

  // ---------------------------------------------------------------- the bit layout

  function Compose(elapsed: int, workerID: int, sequence: int): int {
    elapsed * TIMESTAMP_UNIT + workerID * WORKER_UNIT + sequence
  }

  function ElapsedOf(id: int): int { id / TIMESTAMP_UNIT }

  function WorkerOf(id: int): int { id / WORKER_UNIT % (MAX_WORKER_ID + 1) }

  function SequenceOf(id: int): int { id % WORKER_UNIT }

  /** `getTimeFromID`: the arithmetic shift of the source is a floor division here. */
  function TimeFromID(epoch: int, id: int): int { ElapsedOf(id) + epoch }

  /** The shifts and ors of the source build exactly the sum used by `Compose`, without reaching the
      sign bit; the right shift of `getTimeFromID` takes the elapsed time back out, shift and mask the rest. */
  lemma BitLayout(elapsed: bv64, workerID: bv64, sequence: bv64)
    requires elapsed <= 2199023255551 && workerID <= 1023 && sequence <= 4095
    ensures (elapsed << 22) | (workerID << 12) | sequence == elapsed * 4194304 + workerID * 4096 + sequence
    ensures (elapsed << 22) | (workerID << 12) | sequence <= 9223372036854775807
    ensures ((elapsed << 22) | (workerID << 12) | sequence) >> 22 == elapsed
    ensures (((elapsed << 22) | (workerID << 12) | sequence) >> 12) & 1023 == workerID
    ensures ((elapsed << 22) | (workerID << 12) | sequence) & 4095 == sequence
  {
  }

  ghost predicate InLayout(elapsed: int, workerID: int, sequence: int) {
    0 <= elapsed <= MAX_ELAPSED && 0 <= workerID <= MAX_WORKER_ID && 0 <= sequence <= MAX_SEQUENCE
  }

  /** An ID is a non-negative int64 that gives back its three parts. */
  lemma ComposeRoundTrip(elapsed: int, workerID: int, sequence: int)
    requires InLayout(elapsed, workerID, sequence)
    ensures var id := Compose(elapsed, workerID, sequence);
            0 <= id <= MAX_INT64 &&
            ElapsedOf(id) == elapsed && WorkerOf(id) == workerID && SequenceOf(id) == sequence
  {
    var low := workerID * WORKER_UNIT + sequence;
    assert 0 <= low < TIMESTAMP_UNIT;
    var id := Compose(elapsed, workerID, sequence);
    assert id == elapsed * TIMESTAMP_UNIT + low;
    assert id / WORKER_UNIT == elapsed * 1024 + workerID;
  }

  // ---------------------------------------------------------------- generate

  datatype Reading = At(ms: int) | Behind | Never

  /** The wait loop: the first reading that differs from `timestamp`. */
  function NextMillisecond(timestamp: int, clock: seq<int>): Reading {
    if clock == [] then Never
    else if clock[0] < timestamp then Behind
    else if clock[0] == timestamp then NextMillisecond(timestamp, clock[1..])
    else At(clock[0])
  }

  /** The tail of `generate`: the sequence is stored before the two range checks, the timestamp after. */
  function Emit(n: State, current: int, sequence: int): (State, Outcome) {
    var stored := n.(sequence := sequence);
    var elapsed := current - n.epoch;
    if elapsed < 0 then (stored, Failed(InvalidConfig))
    else if elapsed > MAX_ELAPSED then (stored, Failed(TimestampOverflow))
    else (stored.(timestamp := current), Issued(Compose(elapsed, n.workerID, sequence)))
  }

  function Generated(n: State, clock: seq<int>): (State, Outcome) {
    if n.retired then (n, Failed(LeaseLost))
    else if clock == [] then (n, Waiting)
    else if clock[0] < n.timestamp then (n, Failed(ClockBackwards))
    else if clock[0] == n.timestamp && n.sequence == MAX_SEQUENCE then
      match NextMillisecond(n.timestamp, clock[1..])
      case Never => (n, Waiting)
      case Behind => (n, Failed(ClockBackwards))
      case At(ms) => Emit(n, ms, 0)
    else
      Emit(n, clock[0], if clock[0] == n.timestamp then n.sequence + 1 else 0)
  }

  // ---------------------------------------------------------------- exactly what a call answers

  /** The readings up to `k` all show the node's own millisecond, whose sequence is used up. */
  ghost predicate WaitsUpTo(n: State, clock: seq<int>, k: nat) {
    k <= |clock| && (k > 0 ==> n.sequence == MAX_SEQUENCE) && forall j :: 0 <= j < k ==> clock[j] == n.timestamp
  }

  /** A call uses reading `k`: the first one, unless it has to wait, and then the first of a later millisecond. */
  ghost predicate Uses(n: State, clock: seq<int>, k: nat) {
    k < |clock| && WaitsUpTo(n, clock, k) &&
    (clock[k] > n.timestamp || (k == 0 && clock[k] == n.timestamp && n.sequence != MAX_SEQUENCE))
  }

  lemma {:induction false} WaitEnds(timestamp: int, clock: seq<int>, k: nat)
    requires k <= |clock| && (forall j :: 0 <= j < k ==> clock[j] == timestamp) && (k < |clock| ==> clock[k] != timestamp)
    ensures NextMillisecond(timestamp, clock) == if k == |clock| then Never else if clock[k] < timestamp then Behind else At(clock[k])
  {
    if k > 0 { WaitEnds(timestamp, clock[1..], k - 1); }
  }

  /** A call that uses a reading: the distance of that reading from the epoch decides between the two range
      errors and an ID with that timestamp and the next sequence number, or 0 in a new millisecond. */
  lemma AnswersFrom(n: State, clock: seq<int>, k: nat)
    requires !n.retired && Uses(n, clock, k)
    ensures var (n', out) := Generated(n, clock);
            var elapsed, sequence := clock[k] - n.epoch, if clock[k] == n.timestamp then n.sequence + 1 else 0;
            if elapsed < 0 then out == Failed(InvalidConfig)
            else if elapsed > MAX_ELAPSED then out == Failed(TimestampOverflow)
            else out == Issued(Compose(elapsed, n.workerID, sequence)) && n' == n.(timestamp := clock[k], sequence := sequence)
  {
    if k > 0 { WaitEnds(n.timestamp, clock[1..], k - 1); }
  }

  lemma NoAnswerFrom(n: State, clock: seq<int>, k: nat)
    requires !n.retired && WaitsUpTo(n, clock, k) && (k < |clock| ==> clock[k] < n.timestamp)
    ensures Generated(n, clock) == (n, if k == |clock| then Waiting else Failed(ClockBackwards))
  {
    if k > 0 { WaitEnds(n.timestamp, clock[1..], k - 1); }
  }

  /** Every clock has used up milliseconds first, and then ends, falls behind or has a reading to use. */
  lemma {:induction false} WaitStops(n: State, clock: seq<int>, from: nat) returns (k: nat)
    requires WaitsUpTo(n, clock, from)
    ensures k <= |clock| && WaitsUpTo(n, clock, k) && (k < |clock| ==> clock[k] < n.timestamp || Uses(n, clock, k))
    decreases |clock| - from
  {
    if from < |clock| && clock[from] == n.timestamp && n.sequence == MAX_SEQUENCE { k := WaitStops(n, clock, from + 1); } else { k := from; }
  }

  /** For every node that is not retired and every clock, an ID is issued exactly when there is a reading to
      use, at most 41 bits after the epoch; the call waits exactly while every reading shows the used up
      millisecond; and the clock is reported as behind exactly when the first other reading is. */
  lemma IssuesExactly(n: State, clock: seq<int>)
    requires !n.retired
    ensures Generated(n, clock).1.Issued? <==> exists k: nat :: Uses(n, clock, k) && 0 <= clock[k] - n.epoch <= MAX_ELAPSED
    ensures Generated(n, clock).1 == Waiting <==> WaitsUpTo(n, clock, |clock|)
    ensures Generated(n, clock).1 == Failed(ClockBackwards) <==>
            exists k: nat :: k < |clock| && WaitsUpTo(n, clock, k) && clock[k] < n.timestamp
  {
    hide Generated;
    var k := WaitStops(n, clock, 0);
    if Uses(n, clock, k) { AnswersFrom(n, clock, k); } else { NoAnswerFrom(n, clock, k); }
    forall j: nat | Uses(n, clock, j) ensures j == k { }
    forall j: nat | j < |clock| && WaitsUpTo(n, clock, j) && clock[j] < n.timestamp ensures j == k { }
  }

  /** The node as the source has it: fields behind a mutex, one method per critical section. */
  class Node {
    var timestamp: int
    const workerID: int
    var sequence: int
    const epoch: int
    var retired: bool

    function View(): State
      reads this
    {
      State(timestamp, workerID, sequence, epoch, retired)
    }

    constructor (workerID: int, epoch: int)
      requires 0 <= workerID <= MAX_WORKER_ID
      ensures View() == Fresh(workerID, epoch)
    {
      this.timestamp, this.workerID, this.sequence := 0, workerID, 0;
      this.epoch := if epoch == 0 then DEFAULT_EPOCH else epoch;
      this.retired := false;
    }

    method Generate(clock: seq<int>) returns (r: Outcome)
      modifies this
      ensures (View(), r) == Generated(old(View()), clock)
    {
      if retired { return Failed(LeaseLost); }
      if clock == [] { return Waiting; }
      var current, k := clock[0], 1;
      if current < timestamp { return Failed(ClockBackwards); }
      if current == timestamp {
        if sequence == MAX_SEQUENCE {
          while current <= timestamp
            invariant 1 <= k <= |clock| && timestamp == old(timestamp) && sequence == old(sequence)
            invariant current >= timestamp && retired == old(retired)
            invariant NextMillisecond(timestamp, clock[1..])
                   == if current == timestamp then NextMillisecond(timestamp, clock[k..]) else At(current)
            decreases |clock| - k, timestamp - current
          {
            if k == |clock| { return Waiting; }
            current, k := clock[k], k + 1;
            assert clock[k - 1..][1..] == clock[k..];
            if current < timestamp { return Failed(ClockBackwards); }
          }
          sequence := 0;
        } else {
          sequence := sequence + 1;
        }
      } else {
        sequence := 0;
      }
      var elapsed := current - epoch;
      if elapsed < 0 { return Failed(InvalidConfig); }
      if elapsed > MAX_ELAPSED { return Failed(TimestampOverflow); }
      timestamp := current;
      r := Issued(Compose(elapsed, workerID, sequence));
    }

    method LatestTimestamp() returns (t: int)
      ensures t == timestamp
    {
      t := timestamp;
    }

    /** After `Retire` no call issues an ID, so the returned timestamp bounds every ID of the node. */
    method Retire() returns (t: int)
      modifies this`retired
      ensures t == timestamp && View() == old(View()).(retired := true)
      ensures forall clock :: Generated(View(), clock) == (View(), Failed(LeaseLost))
    {
      retired := true;
      t := timestamp;
    }
  }

  /** `newNode`: refuses worker IDs the layout cannot hold. */
  method NewNode(workerID: int, epoch: int) returns (r: Option<Node>)
    ensures r.Some? <==> 0 <= workerID <= MAX_WORKER_ID
    ensures r.Some? ==> fresh(r.value) && r.value.View() == Fresh(workerID, epoch)
  {
    if workerID < 0 || workerID > MAX_WORKER_ID { return None; }
    var node := new Node(workerID, epoch);
    r := Some(node);
  }

  // ---------------------------------------------------------------- whole runs of one node

  datatype Event = Call(clock: seq<int>) | Retired

  function Apply(n: State, e: Event): (State, Outcome) {
    match e
    case Call(clock) => Generated(n, clock)
    case Retired => (n.(retired := true), Failed(LeaseLost))
  }

  /** The IDs a node returns over a run, in order. */
  function IDs(n: State, run: seq<Event>): seq<int>
    decreases run
  {
    if run == [] then []
    else
      var (n', out) := Apply(n, run[0]);
      (if out.Issued? then [out.id] else []) + IDs(n', run[1..])
  }

  ghost predicate Increasing(s: seq<int>) {
    forall i, j :: 0 <= i < j < |s| ==> s[i] < s[j]
  }

  /** What an observer of the calls knows: the last ID, and whether a call ended in the 41-bit overflow
      since then. */
  datatype Seen = Seen(last: Option<int>, overflowed: bool)

  ghost function Observe(seen: Seen, out: Outcome): Seen {
    match out
    case Issued(id) => Seen(Some(id), false)
    case Failed(TimestampOverflow) => seen.(overflowed := true)
    case _ => seen
  }

  /** The one situation in which `generate` goes back: an overflow reset the sequence since the last
      ID, that ID was not the first of its millisecond, and the clock shows that millisecond again. */
  ghost predicate Rewinds(n: State, seen: Seen, e: Event) {
    e.Call? && !n.retired && e.clock != [] && e.clock[0] == n.timestamp &&
    seen.overflowed && seen.last.Some? && SequenceOf(seen.last.value) != 0
  }

  ghost predicate NeverRewinds(n: State, seen: Seen, run: seq<Event>)
    decreases run
  {
    run == [] ||
    var (n', out) := Apply(n, run[0]);
    !Rewinds(n, seen, run[0]) && NeverRewinds(n', Observe(seen, out), run[1..])
  }

  ghost predicate NeverOverflows(n: State, run: seq<Event>)
    decreases run
  {
    run == [] ||
    var (n', out) := Apply(n, run[0]);
    out != Failed(TimestampOverflow) && NeverOverflows(n', run[1..])
  }

  /** A node together with what was seen of it. */
  ghost predicate Consistent(n: State, seen: Seen) {
    0 <= n.workerID <= MAX_WORKER_ID && 0 <= n.sequence <= MAX_SEQUENCE && 0 <= n.timestamp &&
    (seen.last.Some? ==>
       InLayout(n.timestamp - n.epoch, n.workerID, SequenceOf(seen.last.value)) &&
       seen.last.value == Compose(n.timestamp - n.epoch, n.workerID, SequenceOf(seen.last.value)) &&
       n.sequence == if seen.overflowed then 0 else SequenceOf(seen.last.value))
  }

  lemma NextMillisecondLater(timestamp: int, clock: seq<int>)
    ensures var r := NextMillisecond(timestamp, clock); r.At? ==> r.ms > timestamp
  {
  }

  lemma ComposeOrder(e1: int, e2: int, w: int, s1: int, s2: int)
    requires InLayout(e1, w, s1) && InLayout(e2, w, s2)
    ensures Compose(e1, w, s1) < Compose(e2, w, s2) <==> e1 < e2 || (e1 == e2 && s1 < s2)
  {
    if e1 < e2 {
      assert e1 * TIMESTAMP_UNIT + TIMESTAMP_UNIT <= e2 * TIMESTAMP_UNIT;
    } else if e2 < e1 {
      assert e2 * TIMESTAMP_UNIT + TIMESTAMP_UNIT <= e1 * TIMESTAMP_UNIT;
    }
  }

  /** One call: what it leaves is consistent again, and an ID it issues exceeds the previous one
      exactly when the call does not rewind. */
  lemma StepOrder(n: State, seen: Seen, e: Event)
    requires Consistent(n, seen)
    ensures var (n', out) := Apply(n, e);
            Consistent(n', Observe(seen, out)) &&
            (out.Issued? && seen.last.Some? ==> (seen.last.value < out.id <==> !Rewinds(n, seen, e))) &&
            (Rewinds(n, seen, e) ==> out.Issued?)
  {
    var (n', out) := Apply(n, e);
    if e.Call? && e.clock != [] {
      NextMillisecondLater(n.timestamp, e.clock[1..]);
      if out.Issued? {
        ComposeRoundTrip(n'.timestamp - n'.epoch, n'.workerID, n'.sequence);
        if seen.last.Some? {
          ComposeOrder(n.timestamp - n.epoch, n'.timestamp - n'.epoch, n.workerID, SequenceOf(seen.last.value), n'.sequence);
        }
      }
    }
  }

  ghost function Prepend(seen: Seen, ids: seq<int>): seq<int> {
    (if seen.last.Some? then [seen.last.value] else []) + ids
  }

  lemma IncreasingCons(x: int, rest: seq<int>)
    requires rest != []
    ensures Increasing([x] + rest) <==> x < rest[0] && Increasing(rest)
  {
    var ids := [x] + rest;
    if Increasing(ids) {
      assert ids[0] < ids[1];
      forall i, j | 0 <= i < j < |rest| ensures rest[i] < rest[j] { assert ids[i + 1] < ids[j + 1]; }
    }
  }

  lemma {:induction false} OrderedRun(n: State, seen: Seen, run: seq<Event>)
    requires Consistent(n, seen)
    ensures Increasing(Prepend(seen, IDs(n, run))) <==> NeverRewinds(n, seen, run)
    decreases run
  {
    if run != [] {
      var (n', out) := Apply(n, run[0]);
      var seen' := Observe(seen, out);
      StepOrder(n, seen, run[0]);
      OrderedRun(n', seen', run[1..]);
      var rest := Prepend(seen', IDs(n', run[1..]));
      if out.Issued? && seen.last.Some? {
        assert Prepend(seen, IDs(n, run)) == [seen.last.value] + rest;
        IncreasingCons(seen.last.value, rest);
      } else {
        assert Prepend(seen, IDs(n, run)) == rest;
      }
    }
  }

  /** Over every run of a new node, with any clock whatever, the IDs strictly increase if and only if
      no call rewinds. */
  lemma IncreasingExactly(workerID: int, epoch: int, run: seq<Event>)
    requires 0 <= workerID <= MAX_WORKER_ID
    ensures var n := Fresh(workerID, epoch);
            Increasing(IDs(n, run)) <==> NeverRewinds(n, Seen(None, false), run)
  {
    var n := Fresh(workerID, epoch);
    OrderedRun(n, Seen(None, false), run);
    assert Prepend(Seen(None, false), IDs(n, run)) == IDs(n, run);
  }

  lemma {:induction false} NoOverflowNoRewind(n: State, seen: Seen, run: seq<Event>)
    requires !seen.overflowed && NeverOverflows(n, run)
    ensures NeverRewinds(n, seen, run)
    decreases run
  {
    if run != [] {
      var (n', out) := Apply(n, run[0]);
      NoOverflowNoRewind(n', Observe(seen, out), run[1..]);
    }
  }

  /** In particular they increase, even under a clock that steps back, as long as no call has hit the
      41-bit overflow. */
  lemma IncreasingWithoutOverflow(workerID: int, epoch: int, run: seq<Event>)
    requires 0 <= workerID <= MAX_WORKER_ID
    requires NeverOverflows(Fresh(workerID, epoch), run)
    ensures Increasing(IDs(Fresh(workerID, epoch), run))
  {
    IncreasingExactly(workerID, epoch, run);
    NoOverflowNoRewind(Fresh(workerID, epoch), Seen(None, false), run);
  }

  /** The overflow does matter: two IDs in the last millisecond of the layout, an overflowing call, and
      the clock stepping back one millisecond give the second ID again. */
  lemma OverflowRepeatsAnID()
    ensures var last := DEFAULT_EPOCH + MAX_ELAPSED;
            var ids := IDs(Fresh(0, 0), [Call([last]), Call([last]), Call([last + 1]), Call([last])]);
            |ids| == 3 && ids[1] == ids[2]
  {
    var last := DEFAULT_EPOCH + MAX_ELAPSED;
    var n0 := Fresh(0, 0);
    var run := [Call([last]), Call([last]), Call([last + 1]), Call([last])];
    var (n1, o1) := Apply(n0, run[0]);
    var (n2, o2) := Apply(n1, run[1]);
    var (n3, o3) := Apply(n2, run[2]);
    var (n4, o4) := Apply(n3, run[3]);
    assert IDs(n4, []) == [];
    assert run[3..] == [run[3]] && run[3..][1..] == [];
    assert IDs(n3, run[3..]) == [o4.id];
    assert run[2..][1..] == run[3..];
    assert IDs(n2, run[2..]) == [o4.id];
    assert run[1..][1..] == run[2..];
    assert IDs(n1, run[1..]) == [o2.id, o4.id];
    assert IDs(n0, run) == [o1.id, o2.id, o4.id];
  }

  /** Every ID of every run decodes to the worker of its node, so two workers never share an ID. */
  lemma {:induction false} IDsCarryTheWorker(n: State, seen: Seen, run: seq<Event>, k: nat)
    requires Consistent(n, seen) && k < |IDs(n, run)|
    ensures var id := IDs(n, run)[k]; 0 <= id <= MAX_INT64 && WorkerOf(id) == n.workerID
    decreases run
  {
    var (n', out) := Apply(n, run[0]);
    StepOrder(n, seen, run[0]);
    if out.Issued? {
      ComposeRoundTrip(n'.timestamp - n'.epoch, n'.workerID, n'.sequence);
    }
    if !out.Issued? || k > 0 {
      IDsCarryTheWorker(n', Observe(seen, out), run[1..], if out.Issued? then k - 1 else k);
    }
  }

  lemma DistinctWorkersDistinctIDs(a: State, ra: seq<Event>, i: nat, b: State, rb: seq<Event>, j: nat)
    requires Consistent(a, Seen(None, false)) && Consistent(b, Seen(None, false)) && a.workerID != b.workerID
    requires i < |IDs(a, ra)| && j < |IDs(b, rb)|
    ensures IDs(a, ra)[i] != IDs(b, rb)[j]
  {
    IDsCarryTheWorker(a, Seen(None, false), ra, i);
    IDsCarryTheWorker(b, Seen(None, false), rb, j);
  }
}
