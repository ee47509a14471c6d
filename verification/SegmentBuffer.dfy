/** The double buffer of `pkg/idgen/segment/segment.go`.

    A call of `nextID` is a sequence of critical sections under the buffer's mutex, each one step here: it
    returns an ID, fails, or waits on a channel and tries again.  What the store and `startAsync` answer
    are parameters of the step.  Channels are numbered from 1 in the order they are made; 0 is nil. */
module SegmentBuffer {
  import opened Options
  import opened SegmentStore

  datatype Buffer = Buffer(
    current: Option<Segment>, exhausted: bool, next: Option<Segment>,
    loading: bool, loadDone: nat, channels: nat, closed: set<nat>)

  datatype Outcome = ID(id: int64) | Waits(channel: nat) | Failed(error: Error)

  datatype Taken = Taken(buffer: Buffer, outcome: Outcome)

  const EmptyBuffer := Buffer(None, false, None, false, 0, 0, {})

  // ---------------------------------------------------------------- the steps on values

  ghost predicate Usable(s: Segment) { s.start <= s.current <= s.end && s.end as int - s.start as int < 0x7fff_ffff }

  /** `current` and `next` hold ranges, a used-up `current` stays at its last ID, and a load in flight means
      an empty `next`. */
  ghost predicate Shaped(b: Buffer) {
    (b.current.Some? ==> Usable(b.current.value)) &&
    (b.next.Some? ==> Fresh(b.next.value) && b.current.Some? && !b.loading) &&
    (b.exhausted ==> b.current.Some? && b.current.value.current == b.current.value.end)
  }

  predicate UsedUp(b: Buffer) { b.current.Some? && (b.exhausted || b.current.value.current > b.current.value.end) }

  /** The step asks the store for a range itself. */
  predicate Asks(b: Buffer) { UsedUp(b) && b.next.None? && !b.loading }

  /** A fifth of the range is used and nothing is loaded or being loaded. */
  predicate Preloads(b: Buffer, lastID: int64)
    requires Shaped(b) && b.current.Some? && b.current.value.start <= lastID <= b.current.value.end
  {
    !b.loading && b.next.None? &&
    (lastID - b.current.value.start + 1) * 5 >= b.current.value.end - b.current.value.start + 1
  }

  /** `maybeStartPreloadLocked`; `active` is what `startAsync` answers. */
  function Preloaded(b: Buffer, lastID: int64, active: bool): Buffer
    requires Shaped(b) && b.current.Some? && b.current.value.start <= lastID <= b.current.value.end
  {
    if !Preloads(b, lastID) then b
    else
      var ch := b.channels + 1;
      if active then b.(channels := ch, loadDone := ch, loading := true)
      else b.(channels := ch, loadDone := ch, closed := b.closed + {ch})
  }

  function Drawn(b: Buffer, active: bool): Taken
    requires Shaped(b) && b.current.Some? && !b.exhausted
  {
    var s := b.current.value;
    var b' := if s.current == s.end then b.(exhausted := true) else b.(current := Some(s.(current := s.current + 1)));
    Taken(Preloaded(b', s.current, active), ID(s.current))
  }

  /** One critical section of `nextID`. */
  function Take(b: Buffer, fetched: Fetched, active: bool): Taken
    requires Shaped(b) && (fetched.Got? ==> Fresh(fetched.segment))
  {
    if b.current.None? then Taken(b, Failed(BizTagNotFound))
    else if !UsedUp(b) then Drawn(b, active)
    else if b.next.Some? then Drawn(b.(current := b.next, exhausted := false, next := None), active)
    else if b.loading then Taken(b, Waits(b.loadDone))
    else
      match fetched
      case Refused(error) => Taken(b, Failed(error))
      case Got(s) => Drawn(b.(current := Some(s), exhausted := false), active)
  }

  /** The critical section at the end of `loadNext`. */
  function Loaded(b: Buffer, channel: nat, fetched: Fetched): Buffer {
    if !b.loading || b.loadDone != channel then b
    else b.(next := if fetched.Got? then Some(fetched.segment) else b.next, loading := false, closed := b.closed + {channel})
  }

  // ---------------------------------------------------------------- the object

  /** `segmentBuffer`; fields are 64-bit, so no operation here can overflow. */
  class DoubleBuffer {
    var current: Option<Segment>
    var exhausted: bool
    var next: Option<Segment>
    var loading: bool
    var loadDone: nat
    var channels: nat
    var closed: set<nat>

    ghost function Value(): Buffer
      reads this
    {
      Buffer(current, exhausted, next, loading, loadDone, channels, closed)
    }

    constructor ()
      ensures Value() == EmptyBuffer
    {
      current, exhausted, next, loading, loadDone, channels, closed := None, false, None, false, 0, 0, {};
    }

    /** The end of `initializeBuffer`. */
    method Initialize(segment: Segment)
      modifies this
      ensures Value() == old(Value()).(current := Some(segment))
    {
      current := Some(segment);
    }

    method NextID(fetched: Fetched, active: bool) returns (r: Outcome)
      requires Shaped(Value()) && (fetched.Got? ==> Fresh(fetched.segment))
      modifies this
      ensures Taken(Value(), r) == Take(old(Value()), fetched, active)
    {
      if current.None? { return Failed(BizTagNotFound); }
      if exhausted || current.value.current > current.value.end {
        if next.Some? {
          current := next;
          exhausted := false;
          next := None;
        } else if loading {
          return Waits(loadDone);
        } else {
          if fetched.Refused? { return Failed(fetched.error); }
          current := Some(fetched.segment);
          exhausted := false;
        }
      }
      var id := current.value.current;
      if id == current.value.end {
        exhausted := true;
      } else {
        current := Some(current.value.(current := id + 1));
      }
      MaybeStartPreload(id, active);
      r := ID(id);
    }

    method MaybeStartPreload(lastID: int64, active: bool)
      requires Shaped(Value()) && current.Some? && current.value.start <= lastID <= current.value.end
      modifies this
      ensures Value() == Preloaded(old(Value()), lastID, active)
    {
      if loading || next.Some? { return; }
      var total := current.value.end - current.value.start + 1;
      var used := lastID - current.value.start + 1;
      if total <= 0 || used * 5 < total * 1 { return; }
      loading := true;
      channels := channels + 1;
      loadDone := channels;
      if active { return; }
      loading := false;
      closed := closed + {loadDone};
    }

    method LoadNext(channel: nat, fetched: Fetched)
      modifies this
      ensures Value() == Loaded(old(Value()), channel, fetched)
    {
      if loading && loadDone == channel {
        if fetched.Got? { next := Some(fetched.segment); }
        loading := false;
        closed := closed + {channel};
      }
    }
  }

  // ---------------------------------------------------------------- what a step does to the IDs

  /** The IDs a range still holds, in order. */
  ghost function Left(s: Segment): (ids: seq<int64>)
    ensures s.current <= s.end ==> ids != [] && ids[0] == s.current
    decreases s.end as int - s.current as int
  {
    if s.current > s.end then [] else if s.current == s.end then [s.current] else [s.current] + Left(s.(current := s.current + 1))
  }

  /** The IDs a buffer holds, in the order it will return them. */
  ghost function Stock(b: Buffer): seq<int64> {
    (if b.current.None? || b.exhausted then [] else Left(b.current.value)) + (if b.next.None? then [] else Left(b.next.value))
  }

  lemma PreloadKeepsStock(b: Buffer, lastID: int64, active: bool)
    requires Shaped(b) && b.current.Some? && b.current.value.start <= lastID <= b.current.value.end
    ensures Shaped(Preloaded(b, lastID, active)) && Stock(Preloaded(b, lastID, active)) == Stock(b)
  {
    hide Left;
  }

  lemma DrawnTakesFirst(b: Buffer, active: bool)
    requires Shaped(b) && b.current.Some? && !b.exhausted
    ensures var t := Drawn(b, active); Shaped(t.buffer) && [t.outcome.id] + Stock(t.buffer) == Stock(b)
  {
    var s := b.current.value;
    var b' := if s.current == s.end then b.(exhausted := true) else b.(current := Some(s.(current := s.current + 1)));
    var tail, behind := if s.current == s.end then [] else Left(s.(current := s.current + 1)), if b.next.None? then [] else Left(b.next.value);
    assert Left(s) == [s.current] + tail;
    assert Stock(b) == Left(s) + behind && Stock(b') == tail + behind;
    assert Shaped(b');
    hide Left, Preloaded, Stock, Shaped;
    Associate([s.current], tail, behind);
    PreloadKeepsStock(b', s.current, active);
  }

  /** An ID comes off the front of the stock, after the range just fetched has been put there if the stock
      was empty; a step that returns no ID changes nothing. */
  lemma TakeIsFIFO(b: Buffer, fetched: Fetched, active: bool)
    requires Shaped(b) && (fetched.Got? ==> Fresh(fetched.segment))
    ensures var t := Take(b, fetched, active);
            Shaped(t.buffer) &&
            (Asks(b) ==> Stock(b) == []) &&
            match t.outcome
            case ID(id) => [id] + Stock(t.buffer) == if Asks(b) && fetched.Got? then Left(fetched.segment) else Stock(b)
            case _ => t.buffer == b
  {
    if b.current.Some? {
      if !UsedUp(b) {
        DrawnTakesFirst(b, active);
      } else if b.next.Some? {
        var b' := b.(current := b.next, exhausted := false, next := None);
        assert Stock(b') == Stock(b);
        DrawnTakesFirst(b', active);
      } else if !b.loading && fetched.Got? {
        var b' := b.(current := Some(fetched.segment), exhausted := false);
        assert Stock(b') == Left(fetched.segment);
        DrawnTakesFirst(b', active);
      }
    }
  }

  /** A step returns an ID exactly when it has one or gets a range, the first of them; it waits, for the load
      in flight, exactly when it has none and one is in flight; and it fails exactly when the buffer was never
      initialised or the store refuses, with the store's error. */
  lemma TakeExactly(b: Buffer, fetched: Fetched, active: bool)
    requires Shaped(b) && (fetched.Got? ==> Fresh(fetched.segment))
    ensures var out := Take(b, fetched, active).outcome;
            if b.current.None? then out == Failed(BizTagNotFound)
            else if Stock(b) != [] then out == ID(Stock(b)[0])
            else if b.loading then out == Waits(b.loadDone)
            else match fetched
            case Got(s) => out == ID(s.start)
            case Refused(error) => out == Failed(error)
  {
    if b.current.Some? && b.next.Some? { assert Left(b.next.value) != []; }
    hide Preloaded;
  }

  /** A fifth of the current range is used once `id` has been returned. */
  ghost predicate FifthUsed(s: Segment, id: int64) {
    (id as int - s.start as int + 1) * 5 >= s.end as int - s.start as int + 1
  }

  /** A returned ID starts a load exactly when a fifth of its range is used, none is in flight, none is
      loaded and the generator is active; so with an active generator the next range is on its way from then on. */
  lemma PreloadsByAFifth(b: Buffer, fetched: Fetched, active: bool)
    requires Shaped(b) && (fetched.Got? ==> Fresh(fetched.segment)) && Take(b, fetched, active).outcome.ID?
    ensures var t := Take(b, fetched, active);
            t.buffer.current.Some? &&
            var s, id := t.buffer.current.value, t.outcome.id;
            s.start <= id <= s.end &&
            (t.buffer.loading && !b.loading <==> active && FifthUsed(s, id) && !b.loading && t.buffer.next.None?) &&
            (active && FifthUsed(s, id) ==> t.buffer.loading || t.buffer.next.Some?)
  {
  }

  // ---------------------------------------------------------------- channels

  /** Every channel ever made is closed, except the one of the load in flight. */
  ghost predicate ChannelsClosed(b: Buffer) {
    (forall c <- b.closed :: 1 <= c <= b.channels) &&
    (forall c :: 1 <= c <= b.channels && c !in b.closed ==> b.loading && c == b.loadDone) &&
    (b.loading ==> 1 <= b.loadDone <= b.channels && b.loadDone !in b.closed)
  }

  lemma DrawnKeepsChannels(b: Buffer, active: bool)
    requires Shaped(b) && ChannelsClosed(b) && b.current.Some? && !b.exhausted
    ensures ChannelsClosed(Drawn(b, active).buffer)
  {
    var s := b.current.value;
    var b' := if s.current == s.end then b.(exhausted := true) else b.(current := Some(s.(current := s.current + 1)));
    assert ChannelsClosed(b');
    assert ChannelsClosed(Preloaded(b', s.current, active));
  }

  lemma TakeKeepsChannels(b: Buffer, fetched: Fetched, active: bool)
    requires Shaped(b) && ChannelsClosed(b) && (fetched.Got? ==> Fresh(fetched.segment))
    ensures ChannelsClosed(Take(b, fetched, active).buffer)
  {
    if b.current.Some? {
      if !UsedUp(b) {
        DrawnKeepsChannels(b, active);
      } else if b.next.Some? {
        DrawnKeepsChannels(b.(current := b.next, exhausted := false, next := None), active);
      } else if !b.loading && fetched.Got? {
        DrawnKeepsChannels(b.(current := Some(fetched.segment), exhausted := false), active);
      }
    }
  }

  // ---------------------------------------------------------------- one buffer and its loads

  /** A `loadNext` goroutine before and after its query. */
  datatype Load = Querying | Answered(fetched: Fetched)

  /** A buffer, the loads in flight by the channel each was started with, the ranges obtained and the IDs returned. */
  datatype Local = Local(buffer: Buffer, loads: map<nat, Load>, obtained: seq<Segment>, returned: seq<int64>)

  datatype Event =
    | Initialize(fetched: Fetched)
    | Next(fetched: Fetched, active: bool)
    | Query(channel: nat, fetched: Fetched)
    | Install(channel: nat)

  const NewLocal := Local(EmptyBuffer, map[], [], [])

  /** `Shaped` holds in every reachable state (`RunKeepsInv`), so it excludes no call. */
  ghost predicate Possible(l: Local, e: Event) {
    match e
    case Initialize(f) => l.buffer.current.None? && (f.Got? ==> Fresh(f.segment))
    case Next(f, _) => Shaped(l.buffer) && (f.Got? ==> Fresh(f.segment))
    case Query(c, f) => c in l.loads && l.loads[c].Querying? && (f.Got? ==> Fresh(f.segment))
    case Install(c) => c in l.loads && l.loads[c].Answered?
  }

  function Ranges(f: Fetched): seq<Segment> { if f.Got? then [f.segment] else [] }

  ghost function AfterInitialize(l: Local, f: Fetched): Local {
    if f.Got? then l.(buffer := l.buffer.(current := Some(f.segment)), obtained := l.obtained + [f.segment]) else l
  }

  ghost function AfterNext(l: Local, f: Fetched, active: bool): Local
    requires Shaped(l.buffer) && (f.Got? ==> Fresh(f.segment))
  {
    var t := Take(l.buffer, f, active);
    Local(
      t.buffer,
      if t.buffer.loading && !l.buffer.loading then l.loads[t.buffer.loadDone := Querying] else l.loads,
      l.obtained + if Asks(l.buffer) then Ranges(f) else [],
      l.returned + if t.outcome.ID? then [t.outcome.id] else [])
  }

  ghost function AfterInstall(l: Local, c: nat): Local
    requires c in l.loads && l.loads[c].Answered?
  {
    var f := l.loads[c].fetched;
    Local(
      Loaded(l.buffer, c, f), l.loads - {c},
      l.obtained + (if l.buffer.loading && l.buffer.loadDone == c then Ranges(f) else []), l.returned)
  }

  ghost function Step(l: Local, e: Event): Local
    requires Possible(l, e)
  {
    match e
    case Initialize(f) => AfterInitialize(l, f)
    case Next(f, active) => AfterNext(l, f, active)
    case Query(c, f) => l.(loads := l.loads[c := Answered(f)])
    case Install(c) => AfterInstall(l, c)
  }

  ghost function Concat(ranges: seq<Segment>): seq<int64> {
    if ranges == [] then [] else Concat(ranges[..|ranges| - 1]) + Left(ranges[|ranges| - 1])
  }

  /** The load of the channel in `loadDone`, and no other, is in flight exactly while `loading`. */
  ghost predicate OneLoad(l: Local) {
    l.loads.Keys == (if l.buffer.loading then {l.buffer.loadDone} else {}) &&
    forall c <- l.loads :: l.loads[c].Answered? && l.loads[c].fetched.Got? ==> Fresh(l.loads[c].fetched.segment)
  }

  /** What every step keeps; the last line is the conservation of IDs. */
  ghost predicate Inv(l: Local) {
    Shaped(l.buffer) && ChannelsClosed(l.buffer) && OneLoad(l) &&
    (forall s <- l.obtained :: Fresh(s)) && (l.buffer.current.None? ==> !l.buffer.loading) &&
    l.returned + Stock(l.buffer) == Concat(l.obtained)
  }

  lemma ConcatOne(ranges: seq<Segment>, s: Segment)
    ensures Concat(ranges + [s]) == Concat(ranges) + Left(s)
  {
    var all := ranges + [s];
    assert all[..|all| - 1] == ranges;
  }

  /** A step of `nextID` never ends a load. */
  lemma TakeKeepsLoad(b: Buffer, fetched: Fetched, active: bool)
    requires Shaped(b) && (fetched.Got? ==> Fresh(fetched.segment))
    ensures var b' := Take(b, fetched, active).buffer;
            (b.loading ==> b'.loading && b'.loadDone == b.loadDone) && (b'.current.None? <==> b.current.None?)
  {
  }

  lemma Associate<T>(a: seq<T>, b: seq<T>, c: seq<T>)
    ensures a + (b + c) == a + b + c
  {
  }

  lemma NextConserves(l: Local, f: Fetched, active: bool)
    requires Shaped(l.buffer) && l.returned + Stock(l.buffer) == Concat(l.obtained) && (f.Got? ==> Fresh(f.segment))
    ensures var l' := AfterNext(l, f, active); l'.returned + Stock(l'.buffer) == Concat(l'.obtained)
  {
    TakeIsFIFO(l.buffer, f, active);
    var t := Take(l.buffer, f, active);
    if Asks(l.buffer) && f.Got? {
      ConcatOne(l.obtained, f.segment);
      assert t.outcome.ID?;
      assert l.returned + [] == l.returned;
    } else {
      assert l.obtained + [] == l.obtained;
    }
    hide Take, Stock, Concat, Shaped;
    if t.outcome.ID? { Associate(l.returned, [t.outcome.id], Stock(t.buffer)); } else { assert l.returned + [] == l.returned; }
  }

  lemma NextKeepsOneLoad(l: Local, f: Fetched, active: bool)
    requires Shaped(l.buffer) && OneLoad(l) && (f.Got? ==> Fresh(f.segment))
    ensures OneLoad(AfterNext(l, f, active))
  {
    TakeKeepsLoad(l.buffer, f, active);
    hide Take, Shaped;
    var b := Take(l.buffer, f, active).buffer;
    if b.loading && !l.buffer.loading { assert l.loads == map[]; }
  }

  lemma NextKeepsInv(l: Local, f: Fetched, active: bool)
    requires Inv(l) && (f.Got? ==> Fresh(f.segment))
    ensures Inv(AfterNext(l, f, active))
  {
    NextConserves(l, f, active);
    TakeIsFIFO(l.buffer, f, active);
    TakeKeepsChannels(l.buffer, f, active);
    TakeKeepsLoad(l.buffer, f, active);
    NextKeepsOneLoad(l, f, active);
    hide Take, Stock, Concat, Shaped, ChannelsClosed, OneLoad;
  }

  lemma InstallKeepsInv(l: Local, c: nat)
    requires Inv(l) && c in l.loads && l.loads[c].Answered?
    ensures l.buffer.loading && l.buffer.loadDone == c && l.buffer.next.None?
    ensures Inv(AfterInstall(l, c))
  {
    var f := l.loads[c].fetched;
    var b, l' := l.buffer, AfterInstall(l, c);
    assert l'.loads.Keys == {};
    assert Shaped(l'.buffer) && ChannelsClosed(l'.buffer) && OneLoad(l') && (l'.buffer.current.None? ==> !l'.buffer.loading);
    InstalledStock(b, c, f);
    if f.Got? {
      assert l'.obtained == l.obtained + [f.segment];
      hide Stock, Concat, Left, Shaped, ChannelsClosed, OneLoad;
      ConcatOne(l.obtained, f.segment);
      Associate(l.returned, Stock(b), Left(f.segment));
    } else {
      assert l'.obtained == l.obtained;
      hide Stock, Concat, Left, Shaped, ChannelsClosed, OneLoad;
    }
  }

  lemma InstalledStock(b: Buffer, c: nat, f: Fetched)
    requires b.loading && b.loadDone == c && b.next.None?
    ensures Stock(Loaded(b, c, f)) == Stock(b) + if f.Got? then Left(f.segment) else []
  {
    hide Left;
  }

  lemma StepKeepsInv(l: Local, e: Event)
    requires Inv(l) && Possible(l, e)
    ensures Inv(Step(l, e))
  {
    match e
    case Initialize(f) =>
      if f.Got? {
        ConcatOne(l.obtained, f.segment);
        assert l.returned + Stock(l.buffer) == l.returned;
        assert Stock(Step(l, e).buffer) == Left(f.segment);
      }
    case Next(f, active) => NextKeepsInv(l, f, active);
    case Query(c, f) => assert Step(l, e).loads.Keys == l.loads.Keys;
    case Install(c) => InstallKeepsInv(l, c);
  }

  // ---------------------------------------------------------------- whole runs of one buffer

  ghost predicate Valid(l: Local, run: seq<Event>)
    decreases run
  {
    run == [] || (Possible(l, run[0]) && Valid(Step(l, run[0]), run[1..]))
  }

  ghost function After(l: Local, run: seq<Event>): Local
    requires Valid(l, run)
    decreases run
  {
    if run == [] then l else After(Step(l, run[0]), run[1..])
  }

  lemma {:induction false} RunKeepsInv(l: Local, run: seq<Event>)
    requires Inv(l) && Valid(l, run)
    ensures Inv(After(l, run))
    decreases run
  {
    if run != [] {
      StepKeepsInv(l, run[0]);
      RunKeepsInv(Step(l, run[0]), run[1..]);
    }
  }

  /** The generator the double buffer stands for: when it has nothing left it takes the next range, and it
      returns the first ID it has. */
  ghost function Simple(stock: seq<int64>, ranges: seq<Segment>, n: nat): seq<int64>
    decreases n, |ranges|
  {
    if n == 0 then []
    else if stock != [] then [stock[0]] + Simple(stock[1..], ranges, n - 1)
    else if ranges != [] then Simple(Left(ranges[0]), ranges[1..], n)
    else []
  }

  lemma {:induction false} ConcatFirst(ranges: seq<Segment>)
    requires ranges != []
    ensures Concat(ranges) == Left(ranges[0]) + Concat(ranges[1..])
  {
    var n := |ranges| - 1;
    if n == 0 {
      assert ranges == [ranges[0]] && ranges[..0] == [] && ranges[1..] == [];
      assert Left(ranges[0]) + [] == Left(ranges[0]) && [] + Left(ranges[0]) == Left(ranges[0]);
    } else {
      ConcatFirst(ranges[..n]);
      assert ranges[..n][1..] == ranges[1..][..n - 1] && ranges[1..][n - 1] == ranges[n];
      var middle := Concat(ranges[..n][1..]);
      assert Concat(ranges[1..]) == middle + Left(ranges[n]);
      hide Left, Concat;
      Associate(Left(ranges[0]), middle, Left(ranges[n]));
    }
  }

  lemma {:induction false} SimpleIsPrefix(stock: seq<int64>, ranges: seq<Segment>, n: nat)
    requires n <= |stock + Concat(ranges)|
    ensures Simple(stock, ranges, n) == (stock + Concat(ranges))[..n]
    decreases n, |ranges|
  {
    var all := stock + Concat(ranges);
    if n > 0 {
      if stock != [] {
        SimpleIsPrefix(stock[1..], ranges, n - 1);
        hide Concat, Left;
        assert all[1..] == stock[1..] + Concat(ranges);
        assert all[..n] == [stock[0]] + all[1..][..n - 1];
      } else {
        assert ranges != [];
        ConcatFirst(ranges);
        hide Concat, Left;
        assert all == Left(ranges[0]) + Concat(ranges[1..]);
        SimpleIsPrefix(Left(ranges[0]), ranges[1..], n);
      }
    }
  }

  /** Preloading refines the simple generator: whatever the store answers and however the loads interleave
      with the calls, the IDs returned are those of a generator that fetches only when it is empty, fed with
      the same ranges.  The IDs not yet returned are exactly those left in the two ranges. */
  lemma RefinesSimple(run: seq<Event>)
    requires Valid(NewLocal, run)
    ensures var l := After(NewLocal, run);
            l.returned == Simple([], l.obtained, |l.returned|) && l.returned + Stock(l.buffer) == Concat(l.obtained)
  {
    assert Inv(NewLocal);
    RunKeepsInv(NewLocal, run);
    var l := After(NewLocal, run);
    assert [] + Concat(l.obtained) == Concat(l.obtained);
    SimpleIsPrefix([], l.obtained, |l.returned|);
  }

  /** At most one load is in flight, `next` is empty meanwhile, its goroutine always finds its own channel
      in `loadDone`, and a channel a caller may wait on is closed or belongs to that load. */
  lemma OneLoadAtATime(run: seq<Event>)
    requires Valid(NewLocal, run)
    ensures var l := After(NewLocal, run);
            l.loads.Keys <= {l.buffer.loadDone} &&
            (forall c <- l.loads :: l.buffer.loading && c == l.buffer.loadDone && l.buffer.next.None? && c !in l.buffer.closed) &&
            (forall c :: 1 <= c <= l.buffer.channels ==> c in l.buffer.closed || c in l.loads) &&
            (forall c <- l.loads :: l.loads[c].Answered? ==> c in Step(l, Install(c)).buffer.closed)
  {
    assert Inv(NewLocal);
    RunKeepsInv(NewLocal, run);
  }
}
