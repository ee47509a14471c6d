/** Two rounds of `coordinate` settle the shards. */
module OutboxRebalance {
  import opened OutboxAssignment
  import opened OutboxShards

  ghost function Elapsed(run: seq<Step>): nat {
    if run == [] then 0 else (if run[0].Tick? then run[0].elapsed else 0) + Elapsed(run[1..])
  }

  /** Only live nodes act, each deciding by the node table it reads. */
  ghost predicate Acts(st: State, step: Step, live: set<string>) {
    match step
    case Begin(node, desired) => node in live && desired == Share(Live(st.nodes[node := st.now + st.lease], st.now), node)
    case End(node) => node in live
    case Release(_) => false
    case Tick(_) => true
  }

  ghost predicate Coordinates(st: State, run: seq<Step>, live: set<string>)
    requires Valid(st, run)
    decreases run
  {
    run == [] || (Acts(st, run[0], live) && Coordinates(Next(st, run[0]), run[1..], live))
  }

  /** The nodes whose first (second) transaction is in the run. */
  ghost function Beginners(run: seq<Step>): set<string> { set i | 0 <= i < |run| && run[i].Begin? :: run[i].node }

  ghost function Enders(run: seq<Step>): set<string> { set i | 0 <= i < |run| && run[i].End? :: run[i].node }

  // ---------------------------------------------------------------- membership is stable

  /** Until `horizon` every node that looks sees exactly the live nodes. */
  ghost predicate Calm(st: State, live: set<string>, horizon: int) {
    (forall n <- live :: n in st.nodes && st.nodes[n] > horizon) &&
    (forall n <- st.nodes :: n !in live ==> st.nodes[n] <= st.now) &&
    (forall n <- st.pending :: n in live && st.pending[n] == Share(live, n))
  }

  lemma SeesTheLive(st: State, live: set<string>, horizon: int, node: string)
    requires Calm(st, live, horizon) && node in live && st.now <= horizon < st.now + st.lease
    ensures Live(st.nodes[node := st.now + st.lease], st.now) == live
  {
    var nodes := st.nodes[node := st.now + st.lease];
    forall n ensures n in Live(nodes, st.now) <==> n in live { if n in live { assert n in st.nodes; } }
  }

  lemma BeginStaysCalm(st: State, node: string, desired: set<int>, live: set<string>, horizon: int)
    requires Calm(st, live, horizon) && node in live && desired == Share(live, node) && horizon < st.now + st.lease
    ensures Calm(Begun(st, node, desired), live, horizon)
  {
    hide Share;
  }

  lemma EndStaysCalm(st: State, node: string, live: set<string>, horizon: int)
    requires Calm(st, live, horizon) && node in st.pending && st.now <= horizon
    ensures Calm(Ended(st, node), live, horizon)
  {
    hide Share;
  }

  lemma StaysCalm(st: State, step: Step, live: set<string>, horizon: int)
    requires Sane(st) && Enabled(st, step) && Acts(st, step, live) && Calm(st, live, horizon)
    requires Next(st, step).now <= horizon < st.now + st.lease
    ensures Calm(Next(st, step), live, horizon)
    ensures step.Begin? ==> step.desired == Share(live, step.node)
    ensures step.End? ==> st.pending[step.node] == Share(live, step.node)
  {
    match step
    case Begin(node, desired) =>
      SeesTheLive(st, live, horizon, node);
      hide Share, Live, Calm, Sane;
      BeginStaysCalm(st, node, desired, live, horizon);
    case End(node) =>
      hide Share, Sane;
      EndStaysCalm(st, node, live, horizon);
    case _ => hide Share;
  }

  // ---------------------------------------------------------------- one shard

  /** The shard's assignee. */
  ghost predicate Assignee(live: set<string>, s: int, a: string) {
    0 <= s < SHARD_COUNT && a in live && s in Share(live, a) && forall n <- live :: s in Share(live, n) ==> n == a
  }

  ghost function RowAfter(st: State, step: Step, r: Shard, a: string): Shard {
    match step
    case Begin(n, _) => GivenUp(r, n, n == a)
    case End(n) => Taken(r, n, n == a, st.now, st.lease, st.unused)
    case _ => r
  }

  /** For one shard, all that matters is whether the acting node is its assignee. */
  lemma RowStep(st: State, step: Step, live: set<string>, horizon: int, s: int, a: string)
    requires Sane(st) && Enabled(st, step) && Acts(st, step, live) && Calm(st, live, horizon)
    requires Next(st, step).now <= horizon < st.now + st.lease && Assignee(live, s, a)
    ensures |Next(st, step).shards| == SHARD_COUNT && Next(st, step).shards[s] == RowAfter(st, step, st.shards[s], a)
    ensures step.Begin? || step.End? ==> step.node in live
  {
    StaysCalm(st, step, live, horizon);
    hide Share, Live, Calm;
  }

  /** Nobody but the assignee and the nodes not yet begun may hold the shard. */
  ghost predicate Clearing(r: Shard, now: int, live: set<string>, a: string, begun: set<string>) {
    (r.owner in live ==> r.owner == a || r.owner !in begun) && (r.owner !in live ==> r.until <= now)
  }

  lemma ClearingStep(st: State, step: Step, live: set<string>, horizon: int, s: int, a: string, begun: set<string>)
    requires Sane(st) && Enabled(st, step) && Acts(st, step, live) && Calm(st, live, horizon) && "" !in live
    requires Next(st, step).now <= horizon < st.now + st.lease
    requires Assignee(live, s, a) && Clearing(st.shards[s], st.now, live, a, begun)
    ensures var st' := Next(st, step);
            |st'.shards| == SHARD_COUNT &&
            Clearing(st'.shards[s], st'.now, live, a, begun + if step.Begin? then {step.node} else {})
  {
    RowStep(st, step, live, horizon, s, a);
    assert st.now <= Next(st, step).now && (step.Begin? || step.End? ==> Next(st, step).now == st.now);
    hide Share, Live, Calm, Acts, Next, Enabled, Assignee;
  }

  lemma BeginnersFirst(run: seq<Step>)
    requires run != []
    ensures Beginners(run) == (if run[0].Begin? then {run[0].node} else {}) + Beginners(run[1..])
    ensures Enders(run) == (if run[0].End? then {run[0].node} else {}) + Enders(run[1..])
  {
    var rest := run[1..];
    forall n | n in Beginners(run) ensures n in (if run[0].Begin? then {run[0].node} else {}) + Beginners(rest) {
      var i :| 0 <= i < |run| && run[i].Begin? && run[i].node == n;
      if i > 0 { assert rest[i - 1] == run[i]; }
    }
    forall n | n in Enders(run) ensures n in (if run[0].End? then {run[0].node} else {}) + Enders(rest) {
      var i :| 0 <= i < |run| && run[i].End? && run[i].node == n;
      if i > 0 { assert rest[i - 1] == run[i]; }
    }
    forall i | 0 <= i < |rest| ensures rest[i] == run[i + 1] { }
    assert forall n <- Beginners(rest) :: n in Beginners(run);
    assert forall n <- Enders(rest) :: n in Enders(run);
  }

  /** A run of live nodes from a calm state, within one shard lease. */
  ghost predicate Tame(st: State, run: seq<Step>, live: set<string>, horizon: int) {
    Sane(st) && Calm(st, live, horizon) && Valid(st, run) && Coordinates(st, run, live) &&
    st.now + Elapsed(run) <= horizon < st.now + st.lease
  }

  lemma TameStep(st: State, run: seq<Step>, live: set<string>, horizon: int)
    requires run != [] && Tame(st, run, live, horizon)
    ensures Enabled(st, run[0]) && Acts(st, run[0], live)
    ensures var st' := Next(st, run[0]);
            Tame(st', run[1..], live, horizon) && st'.now <= horizon && st'.lease == st.lease &&
            st'.now == st.now + TimeOf(run[0])
  {
    var st' := Next(st, run[0]);
    assert st'.now == st.now + TimeOf(run[0]);
    hide Next, Enabled, Acts, Calm, Sane;
    StepStaysSane(st, run[0]);
    StaysCalm(st, run[0], live, horizon);
  }

  lemma {:induction false} TameRun(st: State, run: seq<Step>, live: set<string>, horizon: int)
    requires Valid(st, run) && Tame(st, run, live, horizon)
    ensures var st' := After(st, run);
            Sane(st') && Calm(st', live, horizon) && st'.now == st.now + Elapsed(run) && st'.lease == st.lease
    decreases run
  {
    if run != [] {
      TameStep(st, run, live, horizon);
      hide Tame, Sane, Calm, Next, Enabled, Acts;
      TameRun(Next(st, run[0]), run[1..], live, horizon);
    }
  }

  lemma UnionAssociates<T>(a: set<T>, b: set<T>, c: set<T>)
    ensures a + b + c == a + (b + c)
  {
  }

  lemma ClearsStep(st: State, run: seq<Step>, live: set<string>, horizon: int, s: int, a: string, begun: set<string>)
    requires run != [] && Tame(st, run, live, horizon) && "" !in live && |st.shards| == SHARD_COUNT
    requires Assignee(live, s, a) && Clearing(st.shards[s], st.now, live, a, begun)
    ensures Enabled(st, run[0])
    ensures var st' := Next(st, run[0]);
            |st'.shards| == SHARD_COUNT && Clearing(st'.shards[s], st'.now, live, a, begun + if run[0].Begin? then {run[0].node} else {})
  {
    TameStep(st, run, live, horizon);
    hide Next, Enabled, Acts, Calm, Sane, Clearing, Assignee, Valid, Coordinates;
    ClearingStep(st, run[0], live, horizon, s, a, begun);
  }

  /** First round: shards held by the wrong live node are given up. */
  lemma {:induction false} FirstRound(st: State, run: seq<Step>, live: set<string>, horizon: int, s: int, a: string, begun: set<string>)
    requires Valid(st, run) && Tame(st, run, live, horizon) && "" !in live && |st.shards| == SHARD_COUNT
    requires Assignee(live, s, a) && Clearing(st.shards[s], st.now, live, a, begun)
    ensures var st' := After(st, run);
            |st'.shards| == SHARD_COUNT && Clearing(st'.shards[s], st'.now, live, a, begun + Beginners(run))
    decreases run
  {
    if run == [] {
      assert begun + Beginners(run) == begun;
    } else {
      var begun' := begun + if run[0].Begin? then {run[0].node} else {};
      assert After(st, run) == After(Next(st, run[0]), run[1..]) && Valid(Next(st, run[0]), run[1..]);
      TameStep(st, run, live, horizon);
      hide Valid, After, Next, Enabled, Acts, Calm, Sane, Clearing, Assignee, Tame, Beginners, Coordinates;
      ClearsStep(st, run, live, horizon, s, a, begun);
      BeginnersFirst(run);
      FirstRound(Next(st, run[0]), run[1..], live, horizon, s, a, begun');
      UnionAssociates(begun, if run[0].Begin? then {run[0].node} else {}, Beginners(run[1..]));
    }
  }

  /** The assignee has the shard until `until` at least, or nobody else has it. */
  ghost predicate Settling(r: Shard, now: int, a: string, until: int, ended: bool) {
    if ended then r.owner == a && r.until >= until else r.owner == a || r.until <= now
  }

  lemma SettlingStep(st: State, step: Step, live: set<string>, horizon: int, s: int, a: string, until: int, ended: bool)
    requires Sane(st) && Enabled(st, step) && Acts(st, step, live) && Calm(st, live, horizon)
    requires Next(st, step).now <= horizon < until <= st.now + st.lease
    requires Assignee(live, s, a) && Settling(st.shards[s], st.now, a, until, ended)
    ensures var st' := Next(st, step);
            |st'.shards| == SHARD_COUNT && Settling(st'.shards[s], st'.now, a, until, ended || step == End(a))
  {
    RowStep(st, step, live, horizon, s, a);
    assert st.now <= Next(st, step).now && (step.Begin? || step.End? ==> Next(st, step).now == st.now);
    hide Share, Live, Calm, Acts, Next, Enabled, Assignee;
  }

  /** Second round: the assignee takes the shard and keeps it. */
  lemma {:induction false} SecondRound(st: State, run: seq<Step>, live: set<string>, horizon: int, s: int, a: string, until: int, ended: bool)
    requires Valid(st, run) && Tame(st, run, live, horizon) && horizon < until <= st.now + st.lease && |st.shards| == SHARD_COUNT
    requires Assignee(live, s, a) && Settling(st.shards[s], st.now, a, until, ended)
    ensures var st' := After(st, run);
            |st'.shards| == SHARD_COUNT && st'.now <= horizon && Settling(st'.shards[s], st'.now, a, until, ended || a in Enders(run))
    decreases run
  {
    if run != [] {
      TameStep(st, run, live, horizon);
      SettlingStep(st, run[0], live, horizon, s, a, until, ended);
      BeginnersFirst(run);
      hide Next, Enabled, Acts, Calm, Sane, Settling, Assignee, Tame, Enders;
      SecondRound(Next(st, run[0]), run[1..], live, horizon, s, a, until, ended || run[0] == End(a));
    }
  }

  // ---------------------------------------------------------------- the theorem

  /** The live nodes are registered for the whole time, every other registration and every shard lease of
      another owner has expired, and no `coordinate` is under way. */
  ghost predicate Quiet(st: State, live: set<string>, time: nat) {
    Sane(st) && live != {} && "" !in live && st.pending == map[] &&
    (forall n <- live :: n in st.nodes && st.nodes[n] > st.now + time) &&
    (forall n <- st.nodes :: n !in live ==> st.nodes[n] <= st.now) &&
    (forall s :: 0 <= s < SHARD_COUNT && st.shards[s].owner !in live ==> st.shards[s].until <= st.now)
  }

  /** From any division of the shards among the live nodes: when a first round contains the first
      transaction of every live node and a second round the second one, in any order and interleaving and
      within one shard lease, every shard ends up with its assignee under an unexpired lease. */
  lemma TwoRoundsSettle(st: State, first: seq<Step>, second: seq<Step>, live: set<string>, s: int) returns (a: string)
    requires Valid(st, first) && Valid(After(st, first), second)
    requires Coordinates(st, first, live) && Coordinates(After(st, first), second, live)
    requires Elapsed(first) + Elapsed(second) < st.lease && Quiet(st, live, Elapsed(first) + Elapsed(second))
    requires live <= Beginners(first) && live <= Enders(second)
    requires 0 <= s < SHARD_COUNT
    ensures a in live && s in Share(live, a)
    ensures var st' := After(After(st, first), second);
            |st'.shards| == SHARD_COUNT && st'.shards[s].owner == a && st'.shards[s].until > st'.now
  {
    a := SharesSplitExactly(live, s);
    var horizon := st.now + Elapsed(first) + Elapsed(second);
    assert Tame(st, first, live, horizon);
    FirstRound(st, first, live, horizon, s, a, {});
    TameRun(st, first, live, horizon);
    var st' := After(st, first);
    SecondRound(st', second, live, horizon, s, a, st'.now + st'.lease, false);
  }

  // ---------------------------------------------------------------- when any run settles a shard

  /** The database time at which the i-th step happens. */
  ghost function TimeAt(now: int, run: seq<Step>, i: nat): int
    requires i <= |run|
  {
    now + Elapsed(run[..i])
  }

  ghost predicate BeginsBefore(run: seq<Step>, node: string, i: nat)
    requires i <= |run|
  {
    exists j :: 0 <= j < i && run[j].Begin? && run[j].node == node
  }

  /** The second transaction of `a` at `i` finds the shard given up by its holder, or the lease at its end. */
  ghost predicate Finds(run: seq<Step>, now: int, r: Shard, a: string, i: nat) {
    i < |run| && run[i] == End(a) && (BeginsBefore(run, r.owner, i) || TimeAt(now, run, i) >= r.until)
  }

  ghost predicate SomeFinds(run: seq<Step>, now: int, r: Shard, a: string) { exists i: nat :: Finds(run, now, r, a, i) }

  ghost predicate Owns(st: State, s: int, a: string) {
    |st.shards| == SHARD_COUNT && 0 <= s < SHARD_COUNT && st.shards[s].owner == a && st.shards[s].until > st.now
  }

  lemma TimeAtNext(now: int, run: seq<Step>, i: nat)
    requires 0 < i <= |run|
    ensures TimeAt(now, run, i) == TimeAt(now + (if run[0].Tick? then run[0].elapsed else 0), run[1..], i - 1)
  {
    assert run[..i][1..] == run[1..][..i - 1] && run[..i][0] == run[0];
  }

  lemma BeginsBeforeNext(run: seq<Step>, node: string, i: nat)
    requires 0 < i <= |run|
    ensures BeginsBefore(run, node, i) <==> (run[0].Begin? && run[0].node == node) || BeginsBefore(run[1..], node, i - 1)
  {
    if BeginsBefore(run, node, i) {
      var j :| 0 <= j < i && run[j].Begin? && run[j].node == node;
      if j > 0 { assert run[1..][j - 1] == run[j]; }
    }
    if BeginsBefore(run[1..], node, i - 1) {
      var j :| 0 <= j < i - 1 && run[1..][j].Begin? && run[1..][j].node == node;
      assert run[j + 1] == run[1..][j];
    }
  }

  lemma {:induction false} TimeGrows(now: int, run: seq<Step>, i: nat)
    requires i <= |run|
    ensures now <= TimeAt(now, run, i)
  {
  }

  /** What a step that does not take the shard makes of its row. */
  ghost function LeftBy(step: Step, r: Shard): Shard { if step.Begin? && step.node == r.owner then Free else r }

  ghost function TimeOf(step: Step): nat { if step.Tick? then step.elapsed else 0 }

  /** Looking one step further: the first step takes the shard, gives it up, or leaves things as they are. */
  lemma FindsNext(run: seq<Step>, now: int, r: Shard, a: string)
    requires run != [] && now >= 0 && !(run[0] == End(a) && r.until <= now)
    ensures SomeFinds(run, now, r, a) <==> SomeFinds(run[1..], now + TimeOf(run[0]), LeftBy(run[0], r), a)
  {
    var now', r' := now + TimeOf(run[0]), LeftBy(run[0], r);
    assert TimeAt(now, run, 0) == now;
    forall i: nat ensures i > 0 ==> (Finds(run, now, r, a, i) <==> Finds(run[1..], now', r', a, i - 1)) {
      if 0 < i < |run| {
        TimeAtNext(now, run, i);
        BeginsBeforeNext(run, r.owner, i);
        TimeGrows(now', run[1..], i - 1);
        assert run[1..][i - 1] == run[i];
      }
    }
    hide Finds;
    if SomeFinds(run, now, r, a) {
      var i: nat :| Finds(run, now, r, a, i);
      assert i > 0 by { NotFirst(run, now, r, a); }
      assert Finds(run[1..], now', r', a, i - 1);
    }
    if SomeFinds(run[1..], now', r', a) {
      var i: nat :| Finds(run[1..], now', r', a, i);
      assert Finds(run, now, r, a, i + 1);
    }
  }

  lemma NotFirst(run: seq<Step>, now: int, r: Shard, a: string)
    requires run != [] && !(run[0] == End(a) && r.until <= now)
    ensures !Finds(run, now, r, a, 0)
  {
    assert run[..0] == [];
  }

  /** What the first step of a run makes of a shard in other hands. */
  lemma MisplacedStep(st: State, run: seq<Step>, live: set<string>, horizon: int, s: int, a: string)
    requires run != [] && Tame(st, run, live, horizon) && "" !in live && |st.shards| == SHARD_COUNT
    requires Assignee(live, s, a) && st.shards[s].owner != a
    ensures Enabled(st, run[0]) && |Next(st, run[0]).shards| == SHARD_COUNT
    ensures var r, r' := st.shards[s], Next(st, run[0]).shards[s];
            if run[0] == End(a) && r.until <= st.now then r' == Shard(a, st.unused, st.now + st.lease)
            else r'.owner != a && r' == LeftBy(run[0], r)
  {
    TameStep(st, run, live, horizon);
    RowStep(st, run[0], live, horizon, s, a);
    hide Next, Calm, Acts, Enabled, Tame, Valid, Coordinates, Sane;
  }

  lemma MisplacedTaken(st: State, run: seq<Step>, live: set<string>, horizon: int, s: int, a: string)
    requires run != [] && Valid(st, run) && Tame(st, run, live, horizon) && "" !in live && |st.shards| == SHARD_COUNT
    requires Assignee(live, s, a) && st.shards[s].owner != a && run[0] == End(a) && st.shards[s].until <= st.now
    ensures Owns(After(st, run), s, a)
  {
    var st' := Next(st, run[0]);
    TameStep(st, run, live, horizon);
    MisplacedStep(st, run, live, horizon, s, a);
    assert 0 <= s < SHARD_COUNT && horizon < st.now + st.lease;
    hide Next, Calm, Acts, Enabled, Sane, Tame, Assignee, Coordinates;
    SecondRound(st', run[1..], live, horizon, s, a, st.now + st.lease, true);
  }

  lemma MisplacedNext(st: State, run: seq<Step>, live: set<string>, horizon: int, s: int, a: string)
    requires run != [] && Tame(st, run, live, horizon) && "" !in live && |st.shards| == SHARD_COUNT && st.now >= 0
    requires Assignee(live, s, a) && st.shards[s].owner != a && !(run[0] == End(a) && st.shards[s].until <= st.now)
    ensures Enabled(st, run[0])
    ensures var st' := Next(st, run[0]);
            Tame(st', run[1..], live, horizon) && |st'.shards| == SHARD_COUNT && st'.now >= 0 && st'.shards[s].owner != a
  {
    assert 0 <= s < SHARD_COUNT;
    hide *;
    TameStep(st, run, live, horizon);
    MisplacedStep(st, run, live, horizon, s, a);
  }

  lemma MisplacedRow(st: State, run: seq<Step>, live: set<string>, horizon: int, s: int, a: string)
    requires run != [] && Tame(st, run, live, horizon) && "" !in live && |st.shards| == SHARD_COUNT
    requires Assignee(live, s, a) && st.shards[s].owner != a && !(run[0] == End(a) && st.shards[s].until <= st.now)
    ensures 0 <= s < SHARD_COUNT && Enabled(st, run[0]) && |Next(st, run[0]).shards| == SHARD_COUNT
    ensures Next(st, run[0]).shards[s] == LeftBy(run[0], st.shards[s]) && Next(st, run[0]).now == st.now + TimeOf(run[0])
  {
    assert 0 <= s < SHARD_COUNT;
    hide *;
    TameStep(st, run, live, horizon);
    MisplacedStep(st, run, live, horizon, s, a);
  }

  lemma MisplacedFinds(st: State, run: seq<Step>, live: set<string>, horizon: int, s: int, a: string)
    requires run != [] && Tame(st, run, live, horizon) && "" !in live && |st.shards| == SHARD_COUNT && st.now >= 0
    requires Assignee(live, s, a) && st.shards[s].owner != a && !(run[0] == End(a) && st.shards[s].until <= st.now)
    ensures Enabled(st, run[0]) && |Next(st, run[0]).shards| == SHARD_COUNT
    ensures var st' := Next(st, run[0]);
            SomeFinds(run, st.now, st.shards[s], a) <==> SomeFinds(run[1..], st'.now, st'.shards[s], a)
  {
    hide *;
    MisplacedRow(st, run, live, horizon, s, a);
    FindsNext(run, st.now, st.shards[s], a);
  }

  lemma NothingFound(now: int, r: Shard, a: string)
    ensures !SomeFinds([], now, r, a)
  {
  }

  /** A shard in other hands comes to its assignee exactly when some second transaction of the assignee comes
      after the holder's first one, or not before the end of the lease. */
  lemma {:induction false} MisplacedSettlesExactly(st: State, run: seq<Step>, live: set<string>, horizon: int, s: int, a: string)
    requires Valid(st, run) && Tame(st, run, live, horizon) && "" !in live && |st.shards| == SHARD_COUNT && st.now >= 0
    requires Assignee(live, s, a) && st.shards[s].owner != a
    ensures Owns(After(st, run), s, a) <==> SomeFinds(run, st.now, st.shards[s], a)
    decreases run
  {
    assert 0 <= s < SHARD_COUNT;
    hide Next, Calm, Acts, Enabled, Sane, SomeFinds, Tame, Assignee, Coordinates;
    if run == [] {
      NothingFound(st.now, st.shards[s], a);
    } else if run[0] == End(a) && st.shards[s].until <= st.now {
      MisplacedTaken(st, run, live, horizon, s, a);
      FoundFirst(run, st.now, st.shards[s], a);
    } else {
      assert Valid(Next(st, run[0]), run[1..]) && After(st, run) == After(Next(st, run[0]), run[1..]);
      hide *;
      MisplacedNext(st, run, live, horizon, s, a);
      MisplacedFinds(st, run, live, horizon, s, a);
      MisplacedSettlesExactly(Next(st, run[0]), run[1..], live, horizon, s, a);
    }
  }

  lemma FoundFirst(run: seq<Step>, now: int, r: Shard, a: string)
    requires run != [] && run[0] == End(a) && r.until <= now
    ensures SomeFinds(run, now, r, a)
  {
    assert run[..0] == [];
    FoundSome(run, now, r, a, 0);
  }

  lemma FoundSome(run: seq<Step>, now: int, r: Shard, a: string, i: nat)
    requires Finds(run, now, r, a, i)
    ensures SomeFinds(run, now, r, a)
  {
  }

  lemma OwnStep(st: State, run: seq<Step>, live: set<string>, horizon: int, s: int, a: string)
    requires run != [] && Tame(st, run, live, horizon) && |st.shards| == SHARD_COUNT && Assignee(live, s, a) && st.shards[s].owner == a
    ensures Enabled(st, run[0]) && |Next(st, run[0]).shards| == SHARD_COUNT
    ensures var r' := Next(st, run[0]).shards[s];
            r'.owner == a && r'.until == if run[0] == End(a) then st.now + st.lease else st.shards[s].until
  {
    TameStep(st, run, live, horizon);
    RowStep(st, run[0], live, horizon, s, a);
    hide Next, Calm, Acts, Enabled, Tame, Valid, Coordinates, Sane;
  }

  /** A shard its assignee already holds stays with it exactly when the lease outlasts the run or a second
      transaction of the assignee renews it. */
  lemma {:induction false} OwnSettlesExactly(st: State, run: seq<Step>, live: set<string>, horizon: int, s: int, a: string)
    requires Valid(st, run) && Tame(st, run, live, horizon) && |st.shards| == SHARD_COUNT
    requires Assignee(live, s, a) && st.shards[s].owner == a
    ensures Owns(After(st, run), s, a) <==> st.shards[s].until > st.now + Elapsed(run) || a in Enders(run)
    decreases run
  {
    if run != [] {
      var st' := Next(st, run[0]);
      assert After(st, run) == After(st', run[1..]) && Valid(st', run[1..]) && 0 <= s < SHARD_COUNT;
      assert Elapsed(run) == Elapsed(run[1..]) + if run[0].Tick? then run[0].elapsed else 0;
      hide Valid, After, Next, Calm, Acts, Enabled, Sane, Beginners, Enders, Assignee, Tame, Coordinates, Elapsed;
      TameStep(st, run, live, horizon);
      OwnStep(st, run, live, horizon, s, a);
      BeginnersFirst(run);
      if run[0] == End(a) {
        SecondRound(st', run[1..], live, horizon, s, a, st.now + st.lease, true);
      } else {
        OwnSettlesExactly(st', run[1..], live, horizon, s, a);
      }
    }
  }

  /** Over any run of live nodes within one shard lease, for every shard: when exactly its assignee ends up
      with it. */
  lemma RunSettlesExactly(st: State, run: seq<Step>, live: set<string>, s: int, a: string)
    requires Valid(st, run) && Coordinates(st, run, live) && Elapsed(run) < st.lease && Quiet(st, live, Elapsed(run))
    requires Assignee(live, s, a)
    ensures var r := st.shards[s];
            Owns(After(st, run), s, a) <==>
              if r.owner == a then r.until > st.now + Elapsed(run) || a in Enders(run) else SomeFinds(run, st.now, r, a)
  {
    assert Tame(st, run, live, st.now + Elapsed(run));
    if st.shards[s].owner == a {
      OwnSettlesExactly(st, run, live, st.now + Elapsed(run), s, a);
    } else {
      MisplacedSettlesExactly(st, run, live, st.now + Elapsed(run), s, a);
    }
  }

  lemma ExpiredIsFound(st: State, run: seq<Step>, live: set<string>, s: int, a: string)
    requires Quiet(st, live, Elapsed(run)) && Assignee(live, s, a) && live <= Enders(run) && st.shards[s].owner !in live
    ensures SomeFinds(run, st.now, st.shards[s], a)
  {
    assert a in Enders(run);
    var i: nat :| i < |run| && run[i].End? && run[i].node == a;
    TimeGrows(st.now, run, i);
    FoundSome(run, st.now, st.shards[s], a, i);
  }

  /** One complete round settles all shards exactly when, for every shard in the hands of another live node,
      a second transaction of the assignee follows the holder's first one or the end of its lease. */
  lemma OneRoundSettlesExactly(st: State, run: seq<Step>, live: set<string>)
    requires Valid(st, run) && Coordinates(st, run, live) && Elapsed(run) < st.lease && Quiet(st, live, Elapsed(run))
    requires live <= Beginners(run) && live <= Enders(run)
    ensures (forall s, a :: Assignee(live, s, a) ==> Owns(After(st, run), s, a))
       <==> (forall s, a :: Assignee(live, s, a) && st.shards[s].owner in live && st.shards[s].owner != a ==>
              SomeFinds(run, st.now, st.shards[s], a))
  {
    forall s, a | Assignee(live, s, a)
      ensures Owns(After(st, run), s, a) <==>
                (st.shards[s].owner in live && st.shards[s].owner != a ==> SomeFinds(run, st.now, st.shards[s], a))
    {
      RunSettlesExactly(st, run, live, s, a);
      if st.shards[s].owner !in live { ExpiredIsFound(st, run, live, s, a); }
    }
  }

  // ---------------------------------------------------------------- one round is not enough

  const Pair := {"a", "b"}

  lemma PairShares()
    ensures Assignee(Pair, 1, "b")
  {
    var a, b := "a", "b";
    assert a[0] == 'a' && b[0] == 'b';
    assert Less(a, b) && !Less(b, a) && !Less(a, a) && !Less(b, b);
    var before := set m <- Pair | Less(m, b);
    assert before == {a} && |before| == 1;
    assert (set m <- Pair | Less(m, a)) == {};
    assert a != b && |Pair| == 2;
  }

  /** One node holds every shard. */
  ghost function Hoarded(): State {
    State(seq(SHARD_COUNT, _ => Shard("a", 1, 400)), map["a" := 400, "b" := 400], map[], 100, 500, 2)
  }

  lemma PairStep(st: State, step: Step, r: Shard)
    requires Sane(st) && Calm(st, Pair, 100) && st.now == 100 && st.lease == 500 && st.shards[1] == r
    requires Enabled(st, step) && Acts(st, step, Pair) && !step.Tick?
    ensures var st' := Next(st, step);
            Sane(st') && Calm(st', Pair, 100) && st'.now == 100 && st'.lease == 500 && st'.shards[1] == RowAfter(st, step, r, "b") &&
            (step.Begin? ==> step.node in st'.pending)
  {
    PairShares();
    StepStaysSane(st, step);
    StaysCalm(st, step, Pair, 100);
    RowStep(st, step, Pair, 100, 1, "b");
  }

  lemma HoardedIsQuiet()
    ensures var st := Hoarded();
            Quiet(st, Pair, 0) && Sane(st) && Calm(st, Pair, 100) && st.now == 100 && st.lease == 500 && st.shards[1] == Shard("a", 1, 400)
  {
  }

  ghost function OneRound(): seq<Step> { [Begin("b", Share(Pair, "b")), End("b"), Begin("a", Share(Pair, "a")), End("a")] }

  lemma OneRoundIsComplete()
    ensures Pair <= Beginners(OneRound()) && Pair <= Enders(OneRound())
  {
    var run := OneRound();
    assert run[0].node in Beginners(run) && run[2].node in Beginners(run) && run[1].node in Enders(run) && run[3].node in Enders(run);
  }

  /** What a node with a free view does in one round of its own. */
  lemma PairRound(st: State, node: string, r: Shard)
    requires Sane(st) && Calm(st, Pair, 100) && st.now == 100 && st.lease == 500 && st.shards[1] == r && node in Pair
    ensures var begin, end := Begin(node, Share(Pair, node)), End(node);
            Enabled(st, begin) && Acts(st, begin, Pair) &&
            var s1 := Next(st, begin);
            Enabled(s1, end) && Acts(s1, end, Pair) &&
            var s2 := Next(s1, end);
            Sane(s2) && Calm(s2, Pair, 100) && s2.now == 100 && s2.lease == 500 &&
            s2.shards[1] == RowAfter(s1, end, RowAfter(st, begin, r, "b"), "b") && s1.now == 100
  {
    SeesTheLive(st, Pair, 100, node);
    var begin, end := Begin(node, Share(Pair, node)), End(node);
    PairStep(st, begin, r);
    var s1 := Next(st, begin);
    hide Share, Live, Calm, Next, RowAfter;
    PairStep(s1, end, RowAfter(st, begin, r, "b"));
  }

  /** One complete `coordinate` of every live node need not settle the shards: a node that comes before the
      one that gives up its shards finds nothing to take. */
  lemma OneRoundMayNotSettle()
    ensures Quiet(Hoarded(), Pair, 0) && Valid(Hoarded(), OneRound()) && Coordinates(Hoarded(), OneRound(), Pair) && Elapsed(OneRound()) == 0
    ensures Pair <= Beginners(OneRound()) && Pair <= Enders(OneRound())
    ensures |After(Hoarded(), OneRound()).shards| == SHARD_COUNT && After(Hoarded(), OneRound()).shards[1] == Free
  {
    var s0, run := Hoarded(), OneRound();
    hide Share, Live, Calm, Next, Hoarded, Beginners, Enders, Quiet, Enabled, Acts;
    HoardedIsQuiet();
    OneRoundIsComplete();
    PairRound(s0, "b", s0.shards[1]);
    var s1 := Next(s0, run[0]);
    var s2 := Next(s1, run[1]);
    PairRound(s2, "a", s2.shards[1]);
    var s3 := Next(s2, run[2]);
    Unrolled(s0, run, s1, s2, s3, Next(s3, run[3]));
  }

  lemma Unrolled(s0: State, run: seq<Step>, s1: State, s2: State, s3: State, s4: State)
    requires |run| == 4
    requires Enabled(s0, run[0]) && s1 == Next(s0, run[0]) && Enabled(s1, run[1]) && s2 == Next(s1, run[1])
    requires Enabled(s2, run[2]) && s3 == Next(s2, run[2]) && Enabled(s3, run[3]) && s4 == Next(s3, run[3])
    requires Acts(s0, run[0], Pair) && Acts(s1, run[1], Pair) && Acts(s2, run[2], Pair) && Acts(s3, run[3], Pair)
    requires forall i :: 0 <= i < 4 ==> !run[i].Tick?
    ensures Valid(s0, run) && After(s0, run) == s4 && Coordinates(s0, run, Pair) && Elapsed(run) == 0
  {
    hide Next, Enabled, Acts;
    var r1 := run[1..];
    var r2 := r1[1..];
    var r3 := r2[1..];
    assert r3[1..] == [];
    assert Valid(s4, []) && Valid(s3, r3) && Valid(s2, r2) && Valid(s1, r1);
    assert After(s3, r3) == s4 && After(s2, r2) == s4 && After(s1, r1) == s4;
    assert Coordinates(s3, r3, Pair) && Coordinates(s2, r2, Pair) && Coordinates(s1, r1, Pair);
    assert Elapsed(r3) == 0 && Elapsed(r2) == 0 && Elapsed(r1) == 0;
  }
}
