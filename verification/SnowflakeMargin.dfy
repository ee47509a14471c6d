/** The converse of `SnowflakeCluster.GloballyUnique`: each assumption it makes is needed.  For every
    environment that violates one there is a run that issues an ID twice. */
module SnowflakeMargin {
  import opened Options
  import opened SnowflakeNode
  import opened SnowflakeWorkers
  import opened SnowflakeCluster

  ghost predicate Reaches(env: Env, s: Cluster, s': Cluster) {
    exists run :: Valid(env, s, run) && After(env, s, run) == s'
  }

  lemma {:induction false} RunsCompose(env: Env, s: Cluster, a: seq<Step>, b: seq<Step>)
    requires Valid(env, s, a) && Valid(env, After(env, s, a), b)
    ensures Valid(env, s, a + b) && After(env, s, a + b) == After(env, After(env, s, a), b)
    decreases a
  {
    if a == [] {
      assert a + b == b;
    } else {
      assert (a + b)[1..] == a[1..] + b;
      RunsCompose(env, Next(env, s, a[0]), a[1..], b);
    }
  }

  lemma Then(env: Env, s: Cluster, s1: Cluster, s2: Cluster)
    requires Reaches(env, s, s1) && Reaches(env, s1, s2)
    ensures Reaches(env, s, s2)
  {
    var a :| Valid(env, s, a) && After(env, s, a) == s1;
    var b :| Valid(env, s1, b) && After(env, s1, b) == s2;
    RunsCompose(env, s, a, b);
  }

  lemma One(env: Env, s: Cluster, step: Step)
    requires Enabled(env, s, step)
    ensures Reaches(env, s, Next(env, s, step))
  {
    var run, s' := [step], Next(env, s, step);
    assert run[0] == step && run[1..] == [];
    hide Enabled, Next;
    assert Valid(env, s', []) && After(env, s', []) == s';
    assert Valid(env, s, run);
    assert After(env, s, run) == s';
  }

  lemma Wait(env: Env, s: Cluster, ms: nat)
    ensures Reaches(env, s, s.(now := s.now + ms))
  {
    One(env, s, Tick(ms));
  }

  /** A process that starts, obtains a lease and becomes active `delay` after the allocation. */
  ghost function Activated(env: Env, s: Cluster, p: nat, k: Token, w: int, b: int, delay: nat): Cluster {
    s.(now := s.now + delay,
       rows := Allocated(s.rows, w, b, s.now, k),
       leases := s.leases[k := Lease(w, b, Fresh(w, env.epoch), s.now, None)],
       processes := s.processes[p := Process(Active, Some(k), s.now + delay, Idle)])
  }

  lemma Grants(env: Env, s: Cluster, p: nat, k: Token, w: int, b: int)
    requires p !in s.processes && k !in s.leases && Picks(s.rows, s.now, w) && IsBarrier(s.rows, s.now, b)
    ensures Reaches(env, s, s.(rows := Allocated(s.rows, w, b, s.now, k),
                               leases := s.leases[k := Lease(w, b, Fresh(w, env.epoch), s.now, None)],
                               processes := s.processes[p := Process(Lost, None, 0, WaitingForClock(k))]))
  {
    One(env, s, Start(p));
    var s1 := Next(env, s, Start(p));
    One(env, s1, Allocate(p, k, w, b, true));
    var s2 := Grant(env, s1, p, k, w, b, true);
    Then(env, s, s1, s2);
    assert s2.processes == s.processes[p := Process(Lost, None, 0, WaitingForClock(k))];
  }

  lemma Activates(env: Env, s: Cluster, p: nat, k: Token, w: int, b: int, delay: nat, reading: int)
    requires p !in s.processes && k !in s.leases && Picks(s.rows, s.now, w) && IsBarrier(s.rows, s.now, b)
    requires delay <= env.recordDelay && b < reading <= s.now + delay + env.skew
    ensures Reaches(env, s, Activated(env, s, p, k, w, b, delay))
  {
    Grants(env, s, p, k, w, b);
    var s1 := s.(rows := Allocated(s.rows, w, b, s.now, k),
                 leases := s.leases[k := Lease(w, b, Fresh(w, env.epoch), s.now, None)],
                 processes := s.processes[p := Process(Lost, None, 0, WaitingForClock(k))]);
    Wait(env, s1, delay);
    var s2 := s1.(now := s1.now + delay);
    Then(env, s, s1, s2);
    Confirms(env, s2, p, k, reading);
    var s3 := s2.(processes := s2.processes[p := Process(Active, Some(k), s2.now, Idle)]);
    Then(env, s, s2, s3);
    assert s3.processes == Activated(env, s, p, k, w, b, delay).processes;
  }

  lemma Confirms(env: Env, s: Cluster, p: nat, k: Token, reading: int)
    requires p in s.processes && s.processes[p] == Process(Lost, None, 0, WaitingForClock(k)) && k in s.leases
    requires s.leases[k].barrier < reading <= s.now + env.skew && s.leases[k].wrote <= s.now <= s.leases[k].wrote + env.recordDelay
    ensures Reaches(env, s, s.(processes := s.processes[p := Process(Active, Some(k), s.now, Idle)]))
  {
    One(env, s, StoreLease(p, reading));
    var s1 := Next(env, s, StoreLease(p, reading));
    One(env, s1, RecordAllocation(p, s.now));
    var s2 := Next(env, s1, RecordAllocation(p, s.now));
    Then(env, s, s1, s2);
    One(env, s2, Activate(p));
    var s3 := Next(env, s2, Activate(p));
    Then(env, s, s2, s3);
    assert s3.processes == s.processes[p := Process(Active, Some(k), s.now, Idle)];
  }

  ghost predicate ActiveOn(s: Cluster, p: nat, k: Token) {
    p in s.processes && s.processes[p].status.Active? && s.processes[p].lease == Some(k) && k in s.leases
  }

  lemma Enters(env: Env, s: Cluster, p: nat, c: nat)
    requires p in s.processes && s.processes[p].status.Active? && c !in s.calls
    ensures Reaches(env, s, s.(calls := s.calls[c := Pending(p, Timed(s.now))]))
  {
    One(env, s, Enter(p, c));
    var s1 := Next(env, s, Enter(p, c));
    One(env, s1, ReadTime(c));
    var s2 := Next(env, s1, ReadTime(c));
    Then(env, s, s1, s2);
    assert s2.calls == s.calls[c := Pending(p, Timed(s.now))];
  }

  /** A call passes the heartbeat check and loads the lease. */
  lemma Checks(env: Env, s: Cluster, p: nat, k: Token, c: nat)
    requires ActiveOn(s, p, k) && c !in s.calls && s.now - s.processes[p].heartbeat <= SAFETY_THRESHOLD
    ensures Reaches(env, s, s.(calls := s.calls[c := Pending(p, Loaded(s.now, k))]))
  {
    Enters(env, s, p, c);
    var s1 := s.(calls := s.calls[c := Pending(p, Timed(s.now))]);
    PassesAndLoads(env, s1, p, k, c);
    assert s1.calls[c := Pending(p, Loaded(s.now, k))] == s.calls[c := Pending(p, Loaded(s.now, k))];
    Then(env, s, s1, s.(calls := s.calls[c := Pending(p, Loaded(s.now, k))]));
  }

  lemma PassesAndLoads(env: Env, s: Cluster, p: nat, k: Token, c: nat)
    requires ActiveOn(s, p, k) && c in s.calls && s.calls[c] == Pending(p, Timed(s.now)) && s.now - s.processes[p].heartbeat <= SAFETY_THRESHOLD
    ensures Reaches(env, s, s.(calls := s.calls[c := Pending(p, Loaded(s.now, k))]))
  {
    One(env, s, Check(c));
    var s1 := Next(env, s, Check(c));
    assert s1 == s.(calls := s.calls[c := Pending(p, Passed(s.now))]);
    One(env, s1, Load(c));
    var s2 := Next(env, s1, Load(c));
    assert s2.calls == s.calls[c := Pending(p, Loaded(s.now, k))];
    hide Reaches, Next, Enabled;
    Then(env, s, s1, s2);
  }

  /** A whole call that issues the ID `(x, w, sequence)`. */
  ghost function Issuing(s: Cluster, k: Token, node: State, id: int): Cluster
    requires k in s.leases
  {
    s.(leases := s.leases[k := s.leases[k].(node := node, last := Some(id))],
       issued := s.issued + [id], issuedBy := s.issuedBy + [k])
  }

  lemma Answers(env: Env, s: Cluster, p: nat, k: Token, c: nat, at: int, x: int)
    requires k in s.leases && c !in s.calls && s.now <= at + env.callDelay
    requires ReadingsFit(env, s.now, s.leases[k].barrier, [x])
    requires Generated(s.leases[k].node, [x]).1.Issued?
    ensures var (node, out) := Generated(s.leases[k].node, [x]);
            Reaches(env, s.(calls := s.calls[c := Pending(p, Loaded(at, k))]), Issuing(s, k, node, out.id))
  {
    var s1 := s.(calls := s.calls[c := Pending(p, Loaded(at, k))]);
    One(env, s1, Generate(c, [x]));
    assert s1.calls - {c} == s.calls;
  }

  lemma Calls(env: Env, s: Cluster, p: nat, k: Token, x: int)
    requires ActiveOn(s, p, k) && s.now - s.processes[p].heartbeat <= SAFETY_THRESHOLD && 0 !in s.calls
    requires ReadingsFit(env, s.now, s.leases[k].barrier, [x])
    requires Generated(s.leases[k].node, [x]).1.Issued?
    ensures var (node, out) := Generated(s.leases[k].node, [x]); Reaches(env, s, Issuing(s, k, node, out.id))
  {
    var (node, out) := Generated(s.leases[k].node, [x]);
    Checks(env, s, p, k, 0);
    Answers(env, s, p, k, 0, s.now, x);
    Then(env, s, s.(calls := s.calls[0 := Pending(p, Loaded(s.now, k))]), Issuing(s, k, node, out.id));
  }

  lemma FreshIssues(env: Env, w: int, x: int)
    requires env.epoch > 0 && 0 <= x - env.epoch <= MAX_ELAPSED
    ensures Generated(Fresh(w, env.epoch), [x]) ==
            (State(x, w, 0, env.epoch, false), Issued(Compose(x - env.epoch, w, 0)))
  {
  }

  lemma RepeatRefutes(env: Env, now: int, s: Cluster, i: nat, j: nat)
    requires now >= 0 && Reaches(env, Initial(now), s) && i < j < |s.issued| && s.issued[i] == s.issued[j]
    ensures !AlwaysUnique(env)
  {
    var run :| Valid(env, Initial(now), run) && After(env, Initial(now), run) == s;
    assert !Distinct(After(env, Initial(now), run).issued);
  }

  // ---------------------------------------------------------------- the margin

  /** Reclaiming worker 0 from an expired first lease. */
  ghost function Taken(env: Env, s: Cluster, delay: nat): Cluster {
    Activated(env, s, 2, 2, 0, s.now, delay)
  }

  lemma Takes(env: Env, s: Cluster, start: int, delay: nat)
    requires s.rows == map[0 := Row(start, start, 1)] && s.now == start + WORKER_TIMEOUT + 1 && start >= 0
    requires 2 !in s.processes && 2 !in s.leases && delay <= env.recordDelay && 1 <= delay + env.skew
    ensures Reaches(env, s, Taken(env, s, delay))
  {
    assert Reclaims(s.rows, s.now, 0) && IsBarrier(s.rows, s.now, s.now);
    Activates(env, s, 2, 2, 0, s.now, delay, s.now + 1);
  }

  /** The first lease, active `r` after its allocation at the epoch. */
  ghost function First(env: Env, r: nat): Cluster {
    Activated(env, Initial(env.epoch), 1, 1, 0, env.epoch, r)
  }

  lemma FirstActive(env: Env, r: nat)
    requires Usable(env) && r <= env.recordDelay && r + env.skew >= 1
    ensures Reaches(env, Initial(env.epoch), First(env, r))
  {
    var s := Initial(env.epoch);
    assert Picks(s.rows, s.now, 0) && IsBarrier(s.rows, s.now, env.epoch);
    Activates(env, s, 1, 1, 0, env.epoch, r, env.epoch + 1);
  }

  /** Some skew: the old lease issues its last ID before it expires, ahead of the database clock. */
  lemma MarginWithSkew(env: Env, q: nat, r: nat, c: nat)
    requires Usable(env) && 1 <= q <= env.skew && r <= env.recordDelay && c <= env.callDelay && q + r + c == 10002
    ensures !AlwaysUnique(env)
  {
    var e, x := env.epoch, env.epoch + WORKER_TIMEOUT + 2;
    var id := Compose(x - e, 0, 0);
    FirstActive(env, r);
    var s0, s1 := Initial(e), First(env, r);
    Wait(env, s1, SAFETY_THRESHOLD);
    var s2 := s1.(now := s1.now + SAFETY_THRESHOLD);
    Then(env, s0, s1, s2);
    Checks(env, s2, 1, 1, 0);
    var s3 := s2.(calls := s2.calls[0 := Pending(1, Loaded(s2.now, 1))]);
    Then(env, s0, s2, s3);
    Wait(env, s3, c);
    var s4 := s3.(now := s3.now + c);
    Then(env, s0, s3, s4);
    FreshIssues(env, 0, x);
    var node := Generated(Fresh(0, e), [x]).0;
    Answers(env, s4.(calls := map[]), 1, 1, 0, s2.now, x);
    var s5 := Issuing(s4.(calls := map[]), 1, node, id);
    Then(env, s0, s4, s5);
    Wait(env, s5, q - 1);
    var s6 := s5.(now := s5.now + (q - 1));
    Then(env, s0, s5, s6);
    Takes(env, s6, e, 0);
    var s7 := Taken(env, s6, 0);
    Then(env, s0, s6, s7);
    Calls(env, s7, 2, 2, x);
    var s8 := Issuing(s7, 2, node, id);
    Then(env, s0, s7, s8);
    RepeatRefutes(env, e, s8, 0, 1);
  }

  /** Without a call delay: the old lease passes its check after the worker was reclaimed. */
  lemma MarginByRecording(env: Env)
    requires Usable(env) && env.recordDelay >= 10002
    ensures !AlwaysUnique(env)
  {
    var e, x := env.epoch, env.epoch + WORKER_TIMEOUT + 2;
    FirstActive(env, 10002);
    var s0, s1 := Initial(e), First(env, 10002);
    Wait(env, s1, SAFETY_THRESHOLD - 1);
    var s2 := s1.(now := s1.now + (SAFETY_THRESHOLD - 1));
    Then(env, s0, s1, s2);
    Takes(env, s2, e, 1);
    var s3 := Taken(env, s2, 1);
    Then(env, s0, s2, s3);
    Checks(env, s3, 1, 1, 0);
    var s4 := s3.(calls := s3.calls[0 := Pending(1, Loaded(s3.now, 1))]);
    Then(env, s0, s3, s4);
    BothIssue(env, s3, s3.now, x);
    Then(env, s0, s4, Both(env, s3, x));
    RepeatRefutes(env, e, Both(env, s3, x), 0, 1);
  }

  /** With one: it passes its check before. */
  lemma MarginByCalling(env: Env, r: nat, c: nat)
    requires Usable(env) && 1 <= r <= env.recordDelay && 1 <= c <= env.callDelay && r + c == 10002
    ensures !AlwaysUnique(env)
  {
    var e, x := env.epoch, env.epoch + WORKER_TIMEOUT + 2;
    FirstActive(env, r);
    var s0, s1 := Initial(e), First(env, r);
    Wait(env, s1, SAFETY_THRESHOLD);
    var s2 := s1.(now := s1.now + SAFETY_THRESHOLD);
    Then(env, s0, s1, s2);
    Checks(env, s2, 1, 1, 0);
    var s3 := s2.(calls := s2.calls[0 := Pending(1, Loaded(s2.now, 1))]);
    Then(env, s0, s2, s3);
    Wait(env, s3, 10001 - r);
    var s4 := s3.(now := s3.now + (10001 - r));
    Then(env, s0, s3, s4);
    Takes(env, s4, e, 1);
    var s5 := Taken(env, s4, 1);
    Then(env, s0, s4, s5);
    var s6 := s5.(calls := map[]);
    BothIssue(env, s6, s2.now, x);
    assert s6.calls[0 := Pending(1, Loaded(s2.now, 1))] == s5.calls;
    Then(env, s0, s5, Both(env, s6, x));
    RepeatRefutes(env, e, Both(env, s6, x), 0, 1);
  }

  /** No skew: the old lease issues its last ID just after the worker was reclaimed. */
  lemma MarginWithoutSkew(env: Env, r: nat, c: nat)
    requires Usable(env) && 1 <= r <= env.recordDelay && c <= env.callDelay && r + c == 10002
    ensures !AlwaysUnique(env)
  {
    if c == 0 { MarginByRecording(env); } else { MarginByCalling(env, r, c); }
  }

  ghost function Both(env: Env, s: Cluster, x: int): Cluster
    requires 1 in s.leases && 2 in s.leases
  {
    var node := Generated(Fresh(0, env.epoch), [x]).0;
    var id := Compose(x - env.epoch, 0, 0);
    Issuing(Issuing(s, 1, node, id), 2, node, id)
  }

  /** Two fresh leases of worker 0, both allowed to use the millisecond `x`, give the same ID. */
  lemma BothIssue(env: Env, s: Cluster, at: int, x: int)
    requires Usable(env) && ActiveOn(s, 1, 1) && ActiveOn(s, 2, 2) && s.calls == map[] && s.issued == []
    requires s.leases[1].node == s.leases[2].node == Fresh(0, env.epoch) && s.now <= at + env.callDelay
    requires ReadingsFit(env, s.now, s.leases[1].barrier, [x]) && ReadingsFit(env, s.now, s.leases[2].barrier, [x])
    requires 0 <= x - env.epoch <= MAX_ELAPSED && s.now - s.processes[2].heartbeat <= SAFETY_THRESHOLD
    ensures Reaches(env, s.(calls := s.calls[0 := Pending(1, Loaded(at, 1))]), Both(env, s, x))
    ensures var t := Both(env, s, x); |t.issued| == 2 && t.issued[0] == t.issued[1]
  {
    FreshIssues(env, 0, x);
    var node := Generated(Fresh(0, env.epoch), [x]).0;
    var id := Compose(x - env.epoch, 0, 0);
    Answers(env, s, 1, 1, 0, at, x);
    Calls(env, Issuing(s, 1, node, id), 2, 2, x);
    Then(env, s.(calls := s.calls[0 := Pending(1, Loaded(at, 1))]), Issuing(s, 1, node, id), Both(env, s, x));
  }

  lemma MarginNeeded(env: Env)
    requires Usable(env) && env.skew + env.recordDelay + env.callDelay > WORKER_TIMEOUT - SAFETY_THRESHOLD + 1
    ensures !AlwaysUnique(env)
  {
    var q := if env.skew < 10002 then env.skew else 10002;
    var r := if env.recordDelay < 10002 - q then env.recordDelay else 10002 - q;
    if q >= 1 {
      MarginWithSkew(env, q, r, 10002 - q - r);
    } else {
      MarginWithoutSkew(env, r, 10002 - r);
    }
  }

  // ---------------------------------------------------------------- falling back to the barrier

  /** A closed process retires its node and releases its worker. */
  lemma Closes(env: Env, s: Cluster, p: nat, k: Token)
    requires ActiveOn(s, p, k) && s.processes[p].task.Idle?
    ensures Reaches(env, s,
              s.(rows := Released(s.rows, s.leases[k].worker, k, s.leases[k].node.timestamp, s.now),
                 leases := s.leases[k := s.leases[k].(node := s.leases[k].node.(retired := true))],
                 processes := s.processes[p := s.processes[p].(status := Closed)]))
  {
    One(env, s, Close(p));
    var s1 := Next(env, s, Close(p));
    assert s1 == s.(processes := s.processes[p := s.processes[p].(status := Closed)]);
    One(env, s1, Retire(p));
    var s2 := Next(env, s1, Retire(p));
    assert s2 == s1.(leases := s.leases[k := s.leases[k].(node := s.leases[k].node.(retired := true))]);
    var step := Release(k, s.leases[k].node.timestamp);
    One(env, s2, step);
    var s3 := Next(env, s2, step);
    assert s3 == s2.(rows := Released(s.rows, s.leases[k].worker, k, s.leases[k].node.timestamp, s.now));
    hide *;
    Then(env, s, s1, s2);
    Then(env, s, s2, s3);
  }

  /** Worker 0 of a closed process that issued the first ID of the millisecond `x`. */
  ghost predicate ReleasedAfter(env: Env, s: Cluster, x: int) {
    s.rows == map[0 := Row(x, 0, 1)] && s.now + 1 >= x && s.calls == map[] &&
    2 !in s.processes && 2 !in s.leases && s.issued == [Compose(x - env.epoch, 0, 0)]
  }

  lemma IssuesAndCloses(env: Env, start: int, r: nat) returns (s: Cluster)
    requires Usable(env) && start == env.epoch + WORKER_TIMEOUT + 1 && r <= env.recordDelay && 1 <= r + env.skew && r <= 1
    ensures Reaches(env, Initial(start), s) && ReleasedAfter(env, s, start + 1) && s.now == start + r
  {
    var x := start + 1;
    var s0 := Initial(start);
    assert Picks(s0.rows, s0.now, 0) && IsBarrier(s0.rows, s0.now, start);
    Activates(env, s0, 1, 1, 0, start, r, x);
    var s1 := Activated(env, s0, 1, 1, 0, start, r);
    FreshIssues(env, 0, x);
    var node := Generated(Fresh(0, env.epoch), [x]).0;
    Calls(env, s1, 1, 1, x);
    var s2 := Issuing(s1, 1, node, Compose(x - env.epoch, 0, 0));
    Then(env, s0, s1, s2);
    Closes(env, s2, 1, 1);
    s := s2.(rows := Released(s2.rows, 0, 1, x, s2.now),
             leases := s2.leases[1 := s2.leases[1].(node := node.(retired := true))],
             processes := s2.processes[1 := s2.processes[1].(status := Closed)]);
    Then(env, s0, s2, s);
  }

  /** A new node starts at timestamp 0, not at its barrier: a clock that falls back repeats an ID of the
      previous lease of the worker. */
  lemma FallingBackRepeats(env: Env)
    requires Usable(env) && env.fallsBack
    ensures !AlwaysUnique(env)
  {
    var start := env.epoch + WORKER_TIMEOUT + 1;
    var r := if env.recordDelay == 0 then 0 else 1;
    var x := start + 1;
    var s0 := Initial(start);
    var s1 := IssuesAndCloses(env, start, r);
    Wait(env, s1, 1);
    var s2 := s1.(now := s1.now + 1);
    Then(env, s0, s1, s2);
    assert Reclaims(s2.rows, s2.now, 0) && IsBarrier(s2.rows, s2.now, s2.now);
    Activates(env, s2, 2, 2, 0, s2.now, r, s2.now + 1);
    var s3 := Activated(env, s2, 2, 2, 0, s2.now, r);
    Then(env, s0, s2, s3);
    FreshIssues(env, 0, x);
    Calls(env, s3, 2, 2, x);
    var s4 := Issuing(s3, 2, Generated(Fresh(0, env.epoch), [x]).0, Compose(x - env.epoch, 0, 0));
    Then(env, s0, s3, s4);
    RepeatRefutes(env, start, s4, 0, 1);
  }

  // ---------------------------------------------------------------- the 41-bit overflow

  lemma Overflows(env: Env, s: Cluster, p: nat, k: Token, x: int)
    requires ActiveOn(s, p, k) && s.now - s.processes[p].heartbeat <= SAFETY_THRESHOLD && 0 !in s.calls
    requires ReadingsFit(env, s.now, s.leases[k].barrier, [x])
    requires Generated(s.leases[k].node, [x]).1 == Failed(TimestampOverflow)
    ensures Reaches(env, s, s.(leases := s.leases[k := s.leases[k].(node := Generated(s.leases[k].node, [x]).0)]))
  {
    Checks(env, s, p, k, 0);
    var s1 := s.(calls := s.calls[0 := Pending(p, Loaded(s.now, k))]);
    One(env, s1, Generate(0, [x]));
    assert s1.calls - {0} == s.calls;
    Then(env, s, s1, Answer(env, s1, 0, [x]));
  }

  /** A lease whose node has issued `n` IDs in the last millisecond of the layout. */
  ghost predicate AtTheTop(env: Env, s: Cluster, n: nat) {
    ActiveOn(s, 1, 1) && s.calls == map[] && s.now - s.processes[1].heartbeat <= SAFETY_THRESHOLD &&
    s.leases[1].barrier == env.epoch + MAX_ELAPSED - 1 && s.now > env.epoch + MAX_ELAPSED && 1 <= n == |s.issued| &&
    s.leases[1].node == State(env.epoch + MAX_ELAPSED, 0, n - 1, env.epoch, false)
  }

  lemma FirstAtTheTop(env: Env) returns (s: Cluster)
    requires Usable(env) && env.overflows
    ensures Reaches(env, Initial(env.epoch + MAX_ELAPSED - 1), s) && AtTheTop(env, s, 1)
  {
    var top := env.epoch + MAX_ELAPSED;
    var r := if env.recordDelay == 0 then 0 else 1;
    var s0 := Initial(top - 1);
    assert Picks(s0.rows, s0.now, 0) && IsBarrier(s0.rows, s0.now, top - 1);
    Activates(env, s0, 1, 1, 0, top - 1, r, top);
    var s1 := Activated(env, s0, 1, 1, 0, top - 1, r);
    Wait(env, s1, 2);
    var s2 := s1.(now := s1.now + 2);
    Then(env, s0, s1, s2);
    FreshIssues(env, 0, top);
    Calls(env, s2, 1, 1, top);
    s := Issuing(s2, 1, State(top, 0, 0, env.epoch, false), Compose(MAX_ELAPSED, 0, 0));
    Then(env, s0, s2, s);
  }

  /** One process at the end of the layout repeats an ID of its own. */
  lemma OverflowRepeats(env: Env)
    requires Usable(env) && env.overflows
    ensures !AlwaysUnique(env)
  {
    var top := env.epoch + MAX_ELAPSED;
    var s0 := Initial(top - 1);
    var s1 := FirstAtTheTop(env);
    var n := State(top, 0, 0, env.epoch, false);
    var id := Compose(MAX_ELAPSED, 0, 1);
    Calls(env, s1, 1, 1, top);
    var s2 := Issuing(s1, 1, n.(sequence := 1), id);
    Then(env, s0, s1, s2);
    Overflows(env, s2, 1, 1, top + 1);
    var s3 := s2.(leases := s2.leases[1 := s2.leases[1].(node := n)]);
    Then(env, s0, s2, s3);
    Calls(env, s3, 1, 1, top);
    var s4 := Issuing(s3, 1, n.(sequence := 1), id);
    Then(env, s0, s3, s4);
    RepeatRefutes(env, top - 1, s4, 1, 2);
  }

  // ---------------------------------------------------------------- the exact condition

  /** Global uniqueness holds over all runs if and only if no clock falls back to its barrier, none
      overflows, and skew, recording delay and call delay together fit the margin between the 20 s
      safety threshold and the 30 s worker timeout (strictly past which a worker is reclaimed, hence
      the extra millisecond). */
  lemma UniqueExactly(env: Env)
    requires Usable(env)
    ensures AlwaysUnique(env) <==>
            !env.fallsBack && !env.overflows &&
            env.skew + env.recordDelay + env.callDelay <= WORKER_TIMEOUT - SAFETY_THRESHOLD + 1
  {
    if env.fallsBack {
      FallingBackRepeats(env);
    } else if env.overflows {
      OverflowRepeats(env);
    } else if env.skew + env.recordDelay + env.callDelay > WORKER_TIMEOUT - SAFETY_THRESHOLD + 1 {
      MarginNeeded(env);
    } else {
      GloballyUnique(env);
    }
  }
}
