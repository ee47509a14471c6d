/** Any number of generators drawing IDs of one business tag from one database row. */
module SegmentCluster {
  import opened Options
  import opened SegmentStore
  import opened SegmentBuffer

  /** The row and every buffer ever created for the tag, in any process. */
  datatype Cluster = Cluster(row: Option<Row>, buffers: seq<Local>)

  /** How a fetch ends: the answer arrives, it commits and the answer is lost, or it does not happen. */
  datatype Delivery = Delivered | Lost | Down

  datatype Step =
    | InitTag(startID: int64, step: int32)
    | NewBuffer
    | InitializeBuffer(i: nat, delivery: Delivery)
    | NextID(i: nat, active: bool, delivery: Delivery)
    | QueryNext(i: nat, channel: nat, delivery: Delivery)
    | InstallNext(i: nat, channel: nat)

  const Start := Cluster(None, [])

  function Arrives(row: Option<Row>, d: Delivery): Fetched {
    if d.Delivered? then Answer(row) else Refused(Unavailable)
  }

  function RowAfter(row: Option<Row>, d: Delivery): Option<Row> { if d.Down? then row else Advanced(row) }

  /** The step of the buffer concerned. */
  ghost function EventOf(row: Option<Row>, s: Step): Event
    requires !s.InitTag? && !s.NewBuffer?
  {
    match s
    case InitializeBuffer(_, d) => Initialize(Arrives(row, d))
    case NextID(_, active, d) => Event.Next(Arrives(row, d), active)
    case QueryNext(_, c, d) => Query(c, Arrives(row, d))
    case InstallNext(_, c) => Install(c)
  }

  function DeliveryOf(s: Step): Delivery {
    match s
    case InitializeBuffer(_, d) => d
    case NextID(_, _, d) => d
    case QueryNext(_, _, d) => d
    case _ => Down
  }

  ghost predicate Fetches(l: Local, s: Step) {
    s.InitializeBuffer? || s.QueryNext? || (s.NextID? && Asks(l.buffer))
  }

  ghost predicate Enabled(c: Cluster, s: Step) {
    match s
    case InitTag(startID, step) => startID >= 0
    case NewBuffer => true
    case _ => s.i < |c.buffers| && Possible(c.buffers[s.i], EventOf(c.row, s))
  }

  ghost function Next(c: Cluster, s: Step): Cluster
    requires Enabled(c, s)
  {
    match s
    case InitTag(startID, step) => c.(row := Initialised(c.row, startID, StepOrDefault(step)))
    case NewBuffer => c.(buffers := c.buffers + [NewLocal])
    case _ =>
      var l := c.buffers[s.i];
      Cluster(
        if Fetches(l, s) then RowAfter(c.row, DeliveryOf(s)) else c.row,
        c.buffers[s.i := SegmentBuffer.Step(l, EventOf(c.row, s))])
  }

  ghost predicate Valid(c: Cluster, run: seq<Step>)
    decreases run
  {
    run == [] || (Enabled(c, run[0]) && Valid(Next(c, run[0]), run[1..]))
  }

  ghost function After(c: Cluster, run: seq<Step>): Cluster
    requires Valid(c, run)
    decreases run
  {
    if run == [] then c else After(Next(c, run[0]), run[1..])
  }

  // ---------------------------------------------------------------- ranges held

  ghost function InFlight(l: Local): seq<Segment> {
    var c := l.buffer.loadDone;
    if c in l.loads && l.loads[c].Answered? then Ranges(l.loads[c].fetched) else []
  }

  /** The ranges a buffer has obtained, the one on its way last. */
  ghost function Held(l: Local): seq<Segment> { l.obtained + InFlight(l) }

  ghost function Gains(l: Local, e: Event): seq<Segment> {
    match e
    case Initialize(f) => Ranges(f)
    case Next(f, _) => if Asks(l.buffer) then Ranges(f) else []
    case Query(_, f) => Ranges(f)
    case Install(_) => []
  }

  lemma NextHeld(l: Local, f: Fetched, active: bool)
    requires SegmentBuffer.Inv(l) && (f.Got? ==> Fresh(f.segment))
    ensures Held(AfterNext(l, f, active)) == Held(l) + Gains(l, Event.Next(f, active))
  {
    TakeKeepsLoad(l.buffer, f, active);
    hide Take, Stock, Concat, Shaped, ChannelsClosed;
    var l' := AfterNext(l, f, active);
    if l.buffer.loading {
      assert l'.loads == l.loads && InFlight(l') == InFlight(l);
    } else {
      assert l.loads == map[] && InFlight(l) == [];
      assert InFlight(l') == [];
    }
  }

  /** A buffer's ranges are kept in the order the row gave them out. */
  lemma HeldGrows(l: Local, e: Event)
    requires SegmentBuffer.Inv(l) && Possible(l, e)
    ensures Held(SegmentBuffer.Step(l, e)) == Held(l) + Gains(l, e)
  {
    match e
    case Initialize(f) =>
      assert l.loads == map[] && InFlight(l) == [];
    case Next(f, active) => NextHeld(l, f, active);
    case Query(c, f) =>
      assert InFlight(l) == [];
      assert InFlight(SegmentBuffer.Step(l, e)) == Ranges(f);
    case Install(c) =>
      assert l.buffer.loading && c == l.buffer.loadDone;
      assert InFlight(l) == Ranges(l.loads[c].fetched) && InFlight(SegmentBuffer.Step(l, e)) == [];
  }

  // ---------------------------------------------------------------- ranges never meet

  ghost predicate Bounded(row: Option<Row>, s: Segment) { row.Some? && row.value.origin < s.start && s.end <= row.value.maxID }

  ghost predicate InOrder(ranges: seq<Segment>) { forall k, m :: 0 <= k < m < |ranges| ==> ranges[k].end < ranges[m].start }

  ghost predicate Disjoint(a: Segment, b: Segment) { a.end < b.start || b.end < a.start }

  ghost predicate Disjoints(a: seq<Segment>, b: seq<Segment>) {
    forall k, m :: 0 <= k < |a| && 0 <= m < |b| ==> Disjoint(a[k], b[m])
  }

  ghost predicate AllBounded(row: Option<Row>, ranges: seq<Segment>) { forall k :: 0 <= k < |ranges| ==> Bounded(row, ranges[k]) }

  ghost predicate Inv(c: Cluster) {
    Sound(c.row) &&
    (forall i :: 0 <= i < |c.buffers| ==> SegmentBuffer.Inv(c.buffers[i])) &&
    (forall i :: 0 <= i < |c.buffers| ==> AllBounded(c.row, Held(c.buffers[i])) && InOrder(Held(c.buffers[i]))) &&
    (forall i, j :: 0 <= i < j < |c.buffers| ==> Disjoints(Held(c.buffers[i]), Held(c.buffers[j])))
  }

  ghost predicate Grows(row: Option<Row>, row': Option<Row>) {
    row.Some? ==> row'.Some? && row'.value.origin == row.value.origin && row.value.maxID <= row'.value.maxID
  }

  lemma BoundedGrows(row: Option<Row>, row': Option<Row>, ranges: seq<Segment>)
    requires AllBounded(row, ranges) && Grows(row, row')
    ensures AllBounded(row', ranges)
  {
    forall k | 0 <= k < |ranges| ensures Bounded(row', ranges[k]) { assert Bounded(row, ranges[k]); }
  }

  /** Whatever a fetch brings lies above everything given out before, and within the new `max_id`. */
  lemma FetchIsAbove(row: Option<Row>, d: Delivery)
    ensures Grows(row, RowAfter(row, d))
    ensures row.Some? && row.value.origin <= row.value.maxID ==> RowAfter(row, d).value.origin <= RowAfter(row, d).value.maxID
    ensures row.None? ==> RowAfter(row, d).None?
    ensures var f := Arrives(row, d);
            f.Got? ==> Fresh(f.segment) && row.Some? && row.value.maxID < f.segment.start && f.segment.end == RowAfter(row, d).value.maxID
  {
    AnswerIsNext(row);
  }

  lemma NewRangeIsApart(row: Option<Row>, row': Option<Row>, s: Segment, mine: seq<Segment>, other: seq<Segment>)
    requires row.Some? && row'.Some? && Grows(row, row') && row.value.origin <= row.value.maxID < s.start && s.end == row'.value.maxID
    requires AllBounded(row, mine) && InOrder(mine) && AllBounded(row, other)
    ensures AllBounded(row', mine + [s]) && InOrder(mine + [s])
    ensures Disjoints(mine, other) ==> Disjoints(mine + [s], other)
    ensures Disjoints(other, mine) ==> Disjoints(other, mine + [s])
  {
    forall k | 0 <= k < |mine + [s]| ensures Bounded(row', (mine + [s])[k]) {
      if k < |mine| { assert Bounded(row, mine[k]); }
    }
    forall k | 0 <= k < |mine| ensures mine[k].end < s.start { assert Bounded(row, mine[k]); }
    forall k | 0 <= k < |other| ensures other[k].end < s.start { assert Bounded(row, other[k]); }
  }

  ghost function RowOf(row: Option<Row>, l: Local, s: Step): Option<Row> {
    if Fetches(l, s) then RowAfter(row, DeliveryOf(s)) else row
  }

  ghost predicate Sound(row: Option<Row>) { row.Some? ==> row.value.origin <= row.value.maxID }

  lemma GainsAreAbove(row: Option<Row>, l: Local, s: Step)
    requires !s.InitTag? && !s.NewBuffer? && Sound(row)
    ensures var row', gained := RowOf(row, l, s), Gains(l, EventOf(row, s));
            Grows(row, row') && Sound(row') && (row.None? ==> row'.None?) &&
            (gained == [] || exists r: Segment :: gained == [r] && row.Some? && row.value.maxID < r.start && r.end == row'.value.maxID)
  {
    FetchIsAbove(row, DeliveryOf(s));
    var gained := Gains(l, EventOf(row, s));
    if gained != [] { assert gained == [gained[0]]; }
  }

  /** What the concerned buffer and its row look like after a step. */
  lemma BufferStep(c: Cluster, s: Step)
    requires Inv(c) && Enabled(c, s) && !s.InitTag? && !s.NewBuffer?
    ensures var l, c' := c.buffers[s.i], Next(c, s);
            SegmentBuffer.Inv(c'.buffers[s.i]) && Grows(c.row, c'.row) && (c.row.None? ==> c'.row.None?) && Sound(c'.row) &&
            (Held(c'.buffers[s.i]) == Held(l) ||
             exists r: Segment :: Held(c'.buffers[s.i]) == Held(l) + [r] && c.row.Some? && c.row.value.maxID < r.start && r.end == c'.row.value.maxID)
  {
    var l, c' := c.buffers[s.i], Next(c, s);
    var e := EventOf(c.row, s);
    assert c'.row == RowOf(c.row, l, s) && c'.buffers[s.i] == SegmentBuffer.Step(l, e);
    StepKeepsInv(l, e);
    HeldGrows(l, e);
    GainsAreAbove(c.row, l, s);
    hide *;
    assert Held(l) + [] == Held(l);
  }

  lemma OtherBuffers(c: Cluster, s: Step, i: nat, mine: seq<Segment>)
    requires Inv(c) && Enabled(c, s) && !s.InitTag? && !s.NewBuffer? && i < |c.buffers| && i != s.i
    requires mine == Held(Next(c, s).buffers[s.i])
    ensures var c' := Next(c, s);
            c'.buffers[i] == c.buffers[i] && AllBounded(c'.row, Held(c.buffers[i])) &&
            AllBounded(c'.row, mine) && InOrder(mine) &&
            (i < s.i ==> Disjoints(Held(c.buffers[i]), mine)) && (s.i < i ==> Disjoints(mine, Held(c.buffers[i])))
  {
    BufferStep(c, s);
    var c', l := Next(c, s), c.buffers[s.i];
    BoundedGrows(c.row, c'.row, Held(c.buffers[i]));
    if mine == Held(l) {
      BoundedGrows(c.row, c'.row, mine);
    } else {
      var r: Segment :| mine == Held(l) + [r] && c.row.Some? && c.row.value.maxID < r.start && r.end == c'.row.value.maxID;
      NewRangeIsApart(c.row, c'.row, r, Held(l), Held(c.buffers[i]));
    }
  }

  lemma MyBuffer(c: Cluster, s: Step)
    requires Inv(c) && Enabled(c, s) && !s.InitTag? && !s.NewBuffer?
    ensures var c' := Next(c, s); AllBounded(c'.row, Held(c'.buffers[s.i])) && InOrder(Held(c'.buffers[s.i]))
  {
    BufferStep(c, s);
    var c', l := Next(c, s), c.buffers[s.i];
    var mine := Held(c'.buffers[s.i]);
    if mine == Held(l) {
      BoundedGrows(c.row, c'.row, mine);
    } else {
      var r: Segment :| mine == Held(l) + [r] && c.row.Some? && c.row.value.maxID < r.start && r.end == c'.row.value.maxID;
      NewRangeIsApart(c.row, c'.row, r, Held(l), []);
    }
  }

  lemma InitTagKeepsInv(c: Cluster, s: Step)
    requires Inv(c) && Enabled(c, s) && s.InitTag?
    ensures Inv(Next(c, s)) && Grows(c.row, Next(c, s).row)
  {
    var c' := Next(c, s);
    hide SegmentBuffer.Inv, Held, AllBounded, InOrder, Disjoints;
    forall i | 0 <= i < |c.buffers| ensures AllBounded(c'.row, Held(c.buffers[i])) {
      BoundedGrows(c.row, c'.row, Held(c.buffers[i]));
    }
  }

  lemma NewBufferKeepsInv(c: Cluster)
    requires Inv(c)
    ensures Inv(Next(c, NewBuffer))
  {
    assert Held(NewLocal) == [] && SegmentBuffer.Inv(NewLocal);
    hide SegmentBuffer.Inv, Held;
  }

  ghost predicate SoundBuffer(row: Option<Row>, l: Local) {
    SegmentBuffer.Inv(l) && AllBounded(row, Held(l)) && InOrder(Held(l))
  }

  ghost predicate Apart(a: Local, b: Local) { Disjoints(Held(a), Held(b)) }

  lemma OneBufferChanged(c: Cluster, c': Cluster, n: nat)
    requires Inv(c) && n < |c.buffers| == |c'.buffers|
    requires Sound(c'.row)
    requires SoundBuffer(c'.row, c'.buffers[n])
    requires forall i :: 0 <= i < |c.buffers| && i != n ==>
               c'.buffers[i] == c.buffers[i] && SoundBuffer(c'.row, c'.buffers[i]) &&
               (i < n ==> Apart(c'.buffers[i], c'.buffers[n])) && (n < i ==> Apart(c'.buffers[n], c'.buffers[i]))
    ensures Inv(c')
  {
    hide SegmentBuffer.Inv, Held, AllBounded, InOrder, Disjoints;
    forall i, j | 0 <= i < j < |c'.buffers| ensures Disjoints(Held(c'.buffers[i]), Held(c'.buffers[j])) {
      if i == n { assert Apart(c'.buffers[n], c'.buffers[j]); } else if j == n { assert Apart(c'.buffers[i], c'.buffers[n]); }
    }
    forall i | 0 <= i < |c'.buffers|
      ensures SegmentBuffer.Inv(c'.buffers[i]) && AllBounded(c'.row, Held(c'.buffers[i])) && InOrder(Held(c'.buffers[i]))
    {
      assert SoundBuffer(c'.row, c'.buffers[i]);
    }
  }

  lemma BufferKeepsInv(c: Cluster, s: Step)
    requires Inv(c) && Enabled(c, s) && !s.InitTag? && !s.NewBuffer?
    ensures Inv(Next(c, s)) && Grows(c.row, Next(c, s).row)
  {
    var c' := Next(c, s);
    assert |c'.buffers| == |c.buffers|;
    BufferStep(c, s);
    MyBuffer(c, s);
    hide SegmentBuffer.Inv, Held, AllBounded, InOrder, Disjoints, Next, Enabled;
    forall i | 0 <= i < |c.buffers| && i != s.i
      ensures c'.buffers[i] == c.buffers[i] && SoundBuffer(c'.row, c.buffers[i])
      ensures i < s.i ==> Apart(c'.buffers[i], c'.buffers[s.i])
      ensures s.i < i ==> Apart(c'.buffers[s.i], c'.buffers[i])
    {
      OtherBuffers(c, s, i, Held(c'.buffers[s.i]));
    }
    assert SoundBuffer(c'.row, c'.buffers[s.i]);
    hide Inv, SoundBuffer, Apart;
    OneBufferChanged(c, c', s.i);
  }

  lemma StepKeepsClusterInv(c: Cluster, s: Step)
    requires Inv(c) && Enabled(c, s)
    ensures Inv(Next(c, s)) && Grows(c.row, Next(c, s).row)
  {
    if s.InitTag? { InitTagKeepsInv(c, s); } else if s.NewBuffer? { NewBufferKeepsInv(c); } else { BufferKeepsInv(c, s); }
  }

  lemma {:induction false} RunKeepsClusterInv(c: Cluster, run: seq<Step>)
    requires Inv(c) && Valid(c, run)
    ensures Inv(After(c, run)) && Grows(c.row, After(c, run).row)
    decreases run
  {
    if run != [] {
      StepKeepsClusterInv(c, run[0]);
      RunKeepsClusterInv(Next(c, run[0]), run[1..]);
    }
  }

  // ---------------------------------------------------------------- from ranges to IDs

  lemma {:induction false} LeftIsTheRange(s: Segment, k: nat)
    requires k < |Left(s)|
    ensures Left(s)[k] as int == s.current as int + k && Left(s)[k] <= s.end
    decreases k
  {
    if k > 0 {
      LeftIsTheRange(s.(current := s.current + 1), k - 1);
    }
  }

  /** Every ID of the ranges lies in one of them, and IDs follow the order of the ranges. */
  lemma {:induction false} ConcatIsOrdered(ranges: seq<Segment>, k: nat, m: nat)
    requires (forall s <- ranges :: Fresh(s)) && InOrder(ranges) && k <= m < |Concat(ranges)|
    ensures exists n :: 0 <= n < |ranges| && ranges[n].start <= Concat(ranges)[m] <= ranges[n].end
    ensures k < m ==> Concat(ranges)[k] < Concat(ranges)[m]
  {
    var n := |ranges| - 1;
    var before, last := ranges[..n], ranges[n];
    var ids := Concat(before);
    if m < |ids| {
      ConcatIsOrdered(before, k, m);
      var p :| 0 <= p < |before| && before[p].start <= ids[m] <= before[p].end;
      assert ranges[p] == before[p];
    } else {
      LeftIsTheRange(last, m - |ids|);
      assert last in ranges;
      assert Concat(ranges)[m] == Left(last)[m - |ids|];
      hide Left;
      assert ranges[n].start <= Concat(ranges)[m] <= ranges[n].end;
      if k < |ids| {
        ConcatIsOrdered(before, k, k);
        var p :| 0 <= p < |before| && before[p].start <= ids[k] <= before[p].end;
        assert ranges[p] == before[p] && ranges[p].end < ranges[n].start;
      } else {
        LeftIsTheRange(last, k - |ids|);
      }
    }
  }

  lemma ReturnedIsHeld(l: Local, k: nat)
    requires SegmentBuffer.Inv(l) && InOrder(Held(l)) && k < |l.returned|
    ensures exists n :: 0 <= n < |Held(l)| && Held(l)[n].start <= l.returned[k] <= Held(l)[n].end
    ensures forall j :: 0 <= j < k ==> l.returned[j] < l.returned[k]
  {
    assert forall i :: 0 <= i < |l.obtained| ==> l.obtained[i] == Held(l)[i];
    assert forall i :: 0 <= i < |l.returned| ==> Concat(l.obtained)[i] == (l.returned + Stock(l.buffer))[i] == l.returned[i];
    hide SegmentBuffer.Inv, Held, Concat, Stock;
    assert InOrder(l.obtained);
    ConcatIsOrdered(l.obtained, k, k);
    forall j | 0 <= j < k ensures l.returned[j] < l.returned[k] { ConcatIsOrdered(l.obtained, j, k); }
    var n :| 0 <= n < |l.obtained| && l.obtained[n].start <= l.returned[k] <= l.obtained[n].end;
    assert Held(l)[n] == l.obtained[n];
  }

  /** No clock, no lock and no lost answer matters: over all buffers of all processes and all interleavings,
      IDs of one buffer strictly increase, IDs of different buffers differ, and every ID lies above the start
      ID stored when the row was created and not above the row's `max_id`. */
  lemma GloballyUnique(run: seq<Step>, i: nat, j: nat, k: nat, m: nat)
    requires Valid(Start, run)
    requires var c := After(Start, run);
             i < |c.buffers| && j < |c.buffers| && k < |c.buffers[i].returned| && m < |c.buffers[j].returned|
    ensures var c := After(Start, run);
            c.row.Some? && c.row.value.origin < c.buffers[i].returned[k] <= c.row.value.maxID &&
            (i == j && k < m ==> c.buffers[i].returned[k] < c.buffers[j].returned[m]) &&
            (i != j ==> c.buffers[i].returned[k] != c.buffers[j].returned[m])
  {
    RunKeepsClusterInv(Start, run);
    var c := After(Start, run);
    var a, b := c.buffers[i], c.buffers[j];
    ReturnedIsHeld(a, k);
    ReturnedIsHeld(b, m);
    var p :| 0 <= p < |Held(a)| && Held(a)[p].start <= a.returned[k] <= Held(a)[p].end;
    var q :| 0 <= q < |Held(b)| && Held(b)[q].start <= b.returned[m] <= Held(b)[q].end;
    assert Bounded(c.row, Held(a)[p]);
    if i < j { assert Disjoint(Held(a)[p], Held(b)[q]); }
    if j < i { assert Disjoint(Held(b)[q], Held(a)[p]); }
  }

  /** `max_id` never falls and the origin never changes, whatever is initialised again in between. */
  lemma MaxIDOnlyGrows(run: seq<Step>, more: seq<Step>)
    requires Valid(Start, run) && Valid(After(Start, run), more)
    ensures Grows(After(Start, run).row, After(After(Start, run), more).row)
  {
    RunKeepsClusterInv(Start, run);
    RunKeepsClusterInv(After(Start, run), more);
  }
}
