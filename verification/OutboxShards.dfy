/** Shard ownership in `pkg/outbox/storage.go`: leases on shard rows, taken and given up by `coordinate` and
    `release`, checked by `lockShard`.  `coordinate` is two transactions, so it is two steps, and other
    nodes act in between.  A random token is a number never used before; 0 is the empty token. */
module OutboxShards {
  import opened OutboxAssignment

  type Token = nat

  datatype Shard = Shard(owner: string, token: Token, until: int)

  const Free := Shard("", 0, 0)

  // ---------------------------------------------------------------- what the statements do to a row

  function GivenUp(r: Shard, node: string, kept: bool): Shard { if r.owner == node && !kept then Free else r }

  function Taken(r: Shard, node: string, wanted: bool, now: int, lease: int, token: Token): Shard {
    if !wanted then r
    else if r.until <= now then Shard(node, token, now + lease)
    else if r.owner == node then r.(until := now + lease)
    else r
  }

  function Live(nodes: map<string, int>, now: int): set<string> { set n <- nodes | nodes[n] > now }

  /** `lockShard` accepts this owner and token. */
  predicate Accepts(r: Shard, owner: string, token: Token, now: int) { r.owner == owner && r.token == token && r.until > now }

  // ---------------------------------------------------------------- the tables

  class ShardTable {
    var shards: seq<Shard>
    var nodes: map<string, int>

    /** The rows `initialize` inserts. */
    constructor ()
      ensures shards == seq(SHARD_COUNT, _ => Free) && nodes == map[]
    {
      shards, nodes := seq(SHARD_COUNT, _ => Free), map[];
    }

    method LockShard(id: int, owner: string, token: Token, now: int) returns (ok: bool)
      ensures ok <==> 0 <= id < |shards| && Accepts(shards[id], owner, token, now)
    {
      if id < 0 || id >= |shards| { return false; }
      var current := shards[id];
      if current.owner != owner || current.token != token || current.until <= now { return false; }
      ok := true;
    }

    /** The first transaction of `coordinate`; `listing` is the live nodes in the order the database returns them. */
    method BeginCoordinate(node: string, now: int, lease: int, listing: seq<string>) returns (desired: seq<int>)
      requires lease > 0 && Distinct(listing) && Names(listing) == Live(nodes[node := now + lease], now)
      modifies this
      ensures nodes == old(nodes)[node := now + lease]
      ensures forall s :: s in desired <==> s in Share(Live(nodes, now), node)
      ensures |shards| == |old(shards)|
      ensures forall s :: 0 <= s < |shards| ==>
                shards[s] == GivenUp(old(shards)[s], node, s in Share(Live(nodes, now), node))
    {
      nodes := nodes[node := now + lease];
      desired := Assignment(listing, node);
      assert node in Names(listing);
      forall s ensures s in desired <==> s in Share(Live(nodes, now), node) { AssignmentIsShare(listing, node, s); }
      var rows, kept := shards, desired;
      shards := seq(|rows|, i requires 0 <= i < |rows| => GivenUp(rows[i], node, i in kept));
    }

    /** The second transaction: renew, then acquire, then list the leases held and drop expired nodes.  The
        leases returned are those that pass `lockShard` now. */
    method EndCoordinate(node: string, desired: set<int>, now: int, lease: int, token: Token) returns (leases: map<int, Token>)
      requires lease > 0
      modifies this
      ensures |shards| == |old(shards)|
      ensures forall s :: 0 <= s < |shards| ==> shards[s] == Taken(old(shards)[s], node, s in desired, now, lease, token)
      ensures nodes == map n | n in old(nodes) && old(nodes)[n] > now :: old(nodes)[n]
      ensures forall s, t :: s in leases && leases[s] == t <==> 0 <= s < |shards| && Accepts(shards[s], node, t, now)
    {
      var rows := shards;
      var renewed := seq(|rows|, i requires 0 <= i < |rows| =>
        if rows[i].owner == node && rows[i].until > now && i in desired then rows[i].(until := now + lease) else rows[i]);
      shards := seq(|renewed|, i requires 0 <= i < |renewed| =>
        if renewed[i].until <= now && i in desired then Shard(node, token, now + lease) else renewed[i]);
      leases := map s | 0 <= s < |shards| && shards[s].owner == node && shards[s].until > now :: shards[s].token;
      nodes := map n | n in nodes && nodes[n] > now :: nodes[n];
    }

    method Release(node: string)
      modifies this
      ensures |shards| == |old(shards)| && nodes == old(nodes) - {node}
      ensures forall s :: 0 <= s < |shards| ==> shards[s] == GivenUp(old(shards)[s], node, false)
    {
      var rows := shards;
      shards := seq(|rows|, i requires 0 <= i < |rows| => GivenUp(rows[i], node, false));
      nodes := nodes - {node};
    }
  }

  // ---------------------------------------------------------------- all nodes together

  /** `pending` holds the shards each node decided on in the first half of a `coordinate`. */
  datatype State = State(
    shards: seq<Shard>, nodes: map<string, int>, pending: map<string, set<int>>, now: int, lease: int, unused: Token)

  datatype Step = Begin(node: string, desired: set<int>) | End(node: string) | Release(node: string) | Tick(elapsed: nat)

  ghost predicate Enabled(st: State, step: Step) { step.End? ==> step.node in st.pending }

  ghost function Begun(st: State, node: string, desired: set<int>): State {
    st.(shards := seq(|st.shards|, i requires 0 <= i < |st.shards| => GivenUp(st.shards[i], node, i in desired)),
    nodes := st.nodes[node := st.now + st.lease],
    pending := st.pending[node := desired])
  }

  ghost function Ended(st: State, node: string): State
    requires node in st.pending
  {
    var desired := st.pending[node];
    st.(shards := seq(|st.shards|, i requires 0 <= i < |st.shards| => Taken(st.shards[i], node, i in desired, st.now, st.lease, st.unused)),
    nodes := map n | n in st.nodes && st.nodes[n] > st.now :: st.nodes[n],
    pending := st.pending - {node},
    unused := st.unused + 1)
  }

  ghost function Released(st: State, node: string): State {
    st.(shards := seq(|st.shards|, i requires 0 <= i < |st.shards| => GivenUp(st.shards[i], node, false)), nodes := st.nodes - {node})
  }

  ghost function Next(st: State, step: Step): State
    requires Enabled(st, step)
  {
    match step
    case Begin(node, desired) => Begun(st, node, desired)
    case End(node) => Ended(st, node)
    case Release(node) => Released(st, node)
    case Tick(elapsed) => st.(now := st.now + elapsed)
  }

  ghost predicate Valid(st: State, run: seq<Step>)
    decreases run
  {
    run == [] || (Enabled(st, run[0]) && Valid(Next(st, run[0]), run[1..]))
  }

  ghost function After(st: State, run: seq<Step>): State
    requires Valid(st, run)
    decreases run
  {
    if run == [] then st else After(Next(st, run[0]), run[1..])
  }

  /** The tables as created, at any time. */
  ghost predicate Initial(st: State) {
    |st.shards| == SHARD_COUNT && (forall s :: 0 <= s < SHARD_COUNT ==> st.shards[s] == Free) &&
    st.nodes == map[] && st.pending == map[] && st.now >= 0 && st.lease > 0 && st.unused == 1
  }

  ghost predicate Sane(st: State) {
    |st.shards| == SHARD_COUNT && st.now >= 0 && st.lease > 0 && st.unused > 0 &&
    forall s :: 0 <= s < SHARD_COUNT ==> st.shards[s].token < st.unused && st.shards[s].until <= st.now + st.lease
  }

  lemma StepStaysSane(st: State, step: Step)
    requires Sane(st) && Enabled(st, step)
    ensures var st' := Next(st, step); Sane(st') && st.now <= st'.now && st'.lease == st.lease && st.unused <= st'.unused
  {
  }

  lemma {:induction false} RunStaysSane(st: State, run: seq<Step>)
    requires Sane(st) && Valid(st, run)
    ensures Sane(After(st, run)) && st.now <= After(st, run).now && After(st, run).lease == st.lease && st.unused <= After(st, run).unused
    decreases run
  {
    if run != [] {
      StepStaysSane(st, run[0]);
      RunStaysSane(Next(st, run[0]), run[1..]);
    }
  }

  // ---------------------------------------------------------------- fencing

  /** The owner and token pass `lockShard` for this shard now. */
  ghost predicate Passes(st: State, s: int, owner: string, token: Token) {
    0 <= s < |st.shards| && Accepts(st.shards[s], owner, token, st.now)
  }

  /** A token already given out that does not pass will not pass after any one step. */
  lemma StaysOutOneStep(st: State, step: Step, s: int, owner: string, token: Token)
    requires Sane(st) && Enabled(st, step) && token < st.unused && !Passes(st, s, owner, token)
    ensures !Passes(Next(st, step), s, owner, token)
  {
  }

  lemma {:induction false} StaysOut(st: State, run: seq<Step>, s: int, owner: string, token: Token)
    requires Sane(st) && Valid(st, run) && token < st.unused && !Passes(st, s, owner, token)
    ensures !Passes(After(st, run), s, owner, token)
    decreases run
  {
    if run != [] {
      StaysOutOneStep(st, run[0], s, owner, token);
      StepStaysSane(st, run[0]);
      StaysOut(Next(st, run[0]), run[1..], s, owner, token);
    }
  }

  /** Fencing: in every run from the initial tables, whatever shards nodes believe they should own, once
      another owner or token passes for a shard, an earlier pair never passes for it again. */
  lemma SupersededNeverPasses(
    st: State, before: seq<Step>, between: seq<Step>, later: seq<Step>, s: int, owner: string, token: Token, owner': string, token': Token)
    requires Initial(st) && Valid(st, before) && Valid(After(st, before), between)
    requires Valid(After(After(st, before), between), later)
    requires Passes(After(st, before), s, owner, token)
    requires Passes(After(After(st, before), between), s, owner', token') && (owner', token') != (owner, token)
    ensures !Passes(After(After(After(st, before), between), later), s, owner, token)
  {
    RunStaysSane(st, before);
    RunStaysSane(After(st, before), between);
    StaysOut(After(After(st, before), between), later, s, owner, token);
  }

  /** A pair passes during one stretch of time only: once it stops passing, by expiry or release, it is dead. */
  lemma OneTenure(st: State, before: seq<Step>, between: seq<Step>, later: seq<Step>, s: int, owner: string, token: Token)
    requires Initial(st) && Valid(st, before) && Valid(After(st, before), between)
    requires Valid(After(After(st, before), between), later)
    requires Passes(After(st, before), s, owner, token) && !Passes(After(After(st, before), between), s, owner, token)
    ensures !Passes(After(After(After(st, before), between), later), s, owner, token)
  {
    RunStaysSane(st, before);
    RunStaysSane(After(st, before), between);
    StaysOut(After(After(st, before), between), later, s, owner, token);
  }

  /** The step gives up the shard on its owner's behalf. */
  ghost predicate GivesUp(step: Step, owner: string, s: int) {
    step == Release(owner) || (step.Begin? && step.node == owner && s !in step.desired)
  }

  /** An unexpired lease keeps its owner and token, except through a step of the owner itself. */
  lemma OnlyTheOwnerGivesUp(st: State, step: Step, s: int)
    requires Sane(st) && Enabled(st, step) && 0 <= s < SHARD_COUNT && st.shards[s].until > st.now
    ensures var r, r' := st.shards[s], Next(st, step).shards[s];
            if GivesUp(step, r.owner, s) then r' == Free else r'.owner == r.owner && r'.token == r.token && r'.until >= r.until
  {
  }

  ghost predicate NeverGivesUp(run: seq<Step>, owner: string, s: int) {
    forall i :: 0 <= i < |run| ==> !GivesUp(run[i], owner, s)
  }

  /** A lease is safe until its end against every step of every other node, whatever their views. */
  lemma {:induction false} TenureIsSafe(st: State, run: seq<Step>, s: int, owner: string, token: Token)
    requires Sane(st) && Valid(st, run) && Passes(st, s, owner, token) && NeverGivesUp(run, owner, s)
    requires st.shards[s].until > After(st, run).now
    ensures Passes(After(st, run), s, owner, token)
    decreases run
  {
    if run != [] {
      OnlyTheOwnerGivesUp(st, run[0], s);
      StepStaysSane(st, run[0]);
      RunStaysSane(Next(st, run[0]), run[1..]);
      TenureIsSafe(Next(st, run[0]), run[1..], s, owner, token);
    }
  }
}
