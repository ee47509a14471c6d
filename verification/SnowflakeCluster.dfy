/** Many generator processes sharing one worker table: `pkg/idgen/snowflake/snowflake.go` over
    `SnowflakeWorkers` and `SnowflakeNode`.

    A run is any interleaving of the steps below.  A step is one SQL statement, one atomic access to
    the fields `state`, `lease` and `lastHeartbeat`, or one critical section of a node.  Time is the
    database clock in milliseconds.  What the code relies on but cannot enforce is an `Env`:

      - a process measures time spans at the rate of the database clock;
      - a local clock reading exceeds the database clock by at most `skew`;
      - the reading `recordHeartbeat` stores, at whatever later time, is taken at most `recordDelay` after
        the database write it stands for, the wait of `waitForClock` included;
      - a `Generate` call reads the clock for its ID at most `callDelay` after the reading its heartbeat
        check uses;
      - unless `fallsBack`, no clock reads back to or below the barrier it has waited for;
      - unless `overflows`, no clock reads past the 41-bit range. */
module SnowflakeCluster {
  import opened Options
  import opened SnowflakeNode
  import opened SnowflakeWorkers

  datatype Env = Env(epoch: int, skew: nat, recordDelay: nat, callDelay: nat, fallsBack: bool, overflows: bool)

  /** `resolveConfig` admits no epoch below 1; and some lease must be able to get past `waitForClock`
      in time, or no process would ever generate. */
  ghost predicate Usable(env: Env) { env.epoch > 0 && env.skew + env.recordDelay > 0 }

  /** A lease ever granted: its node, the barrier it was given, and when its row was last written for
      it.  `last` is the last ID it issued. */
  datatype Lease = Lease(worker: int, barrier: int, node: State, wrote: int, last: Option<int>)

  /** Where the goroutine of New, `heartbeatLoop` and `recoverLease` stands. */
  datatype Task =
    | Idle
    | WaitingForClock(token: Token)
    | LeaseStored
    | HeartbeatRecorded
    | HeartbeatDue
    | HeartbeatWritten(at: int)

  datatype Status = Active | Lost | Closed

  datatype Process = Process(status: Status, lease: Option<Token>, heartbeat: int, task: Task)

  /** How far a `Generate` call has come: it has found the process active, read the time for the heartbeat
      check, passed the check, or loaded the lease. */
  datatype Stage = Entered | Timed(at: int) | Passed(at: int) | Loaded(at: int, token: Token)

  datatype Pending = Pending(process: nat, stage: Stage)

  /** `issued` and `issuedBy` record every ID and the lease that issued it. */
  datatype Cluster = Cluster(
    now: int, rows: Table, leases: map<Token, Lease>, processes: map<nat, Process>,
    calls: map<nat, Pending>, issued: seq<int>, issuedBy: seq<Token>)

  function Initial(now: int): Cluster { Cluster(now, map[], map[], map[], map[], [], []) }

  datatype Step =
    | Tick(ms: nat)
    | Start(p: nat)
    | Allocate(p: nat, token: Token, worker: int, barrier: int, answered: bool)
    | StoreLease(p: nat, reading: int)
    | GiveUpWaiting(p: nat)
    | RecordAllocation(p: nat, reading: int)
    | Activate(p: nat)
    | BeginHeartbeat(p: nat)
    | WriteHeartbeat(p: nat, timestamp: int, answered: bool)
    | RecordHeartbeat(p: nat, reading: int)
    | Expire(p: nat)
    | Close(p: nat)
    | Retire(p: nat)
    | Release(token: Token, timestamp: int)
    | Enter(p: nat, call: nat)
    | ReadTime(call: nat)
    | Check(call: nat)
    | Load(call: nat)
    | Generate(call: nat, clock: seq<int>)

  // ---------------------------------------------------------------- the steps

  ghost predicate ReadingsFit(env: Env, now: int, barrier: int, clock: seq<int>) {
    forall i :: 0 <= i < |clock| ==>
      clock[i] <= now + env.skew &&
      (env.fallsBack || barrier < clock[i]) &&
      (env.overflows || clock[i] - env.epoch <= MAX_ELAPSED)
  }

  ghost predicate MayAllocate(s: Cluster, p: nat, token: Token, worker: int, barrier: int) {
    p in s.processes && s.processes[p].task.Idle? && !s.processes[p].status.Active? &&
    (s.processes[p].lease.Some? ==>
       s.processes[p].lease.value in s.leases && s.leases[s.processes[p].lease.value].node.retired) &&
    token !in s.leases && Picks(s.rows, s.now, worker) && IsBarrier(s.rows, s.now, barrier)
  }

  ghost predicate MayGenerate(env: Env, s: Cluster, call: nat, clock: seq<int>) {
    call in s.calls && s.calls[call].stage.Loaded? && s.calls[call].stage.token in s.leases &&
    s.now <= s.calls[call].stage.at + env.callDelay &&
    ReadingsFit(env, s.now, s.leases[s.calls[call].stage.token].barrier, clock)
  }

  /** The process has a lease. */
  ghost predicate Leased(s: Cluster, p: nat) {
    p in s.processes && s.processes[p].lease.Some? && s.processes[p].lease.value in s.leases
  }

  ghost predicate MayWrite(s: Cluster, p: nat, timestamp: int) {
    Leased(s, p) && s.processes[p].task.HeartbeatDue? && 0 <= timestamp <= s.leases[s.processes[p].lease.value].node.timestamp
  }

  ghost predicate MayRelease(s: Cluster, token: Token, timestamp: int) {
    token in s.leases && s.leases[token].node.retired &&
    (timestamp == s.leases[token].node.timestamp || (s.leases[token].last.None? && timestamp == s.leases[token].barrier))
  }

  /** The steps of the goroutine and of `Close` that touch only fields of their process. */
  ghost predicate MayMove(env: Env, s: Cluster, step: Step) {
    match step
    case Start(p) => p !in s.processes
    case StoreLease(p, reading) =>
      p in s.processes && s.processes[p].task.WaitingForClock? && s.processes[p].task.token in s.leases &&
      StartupClockWait(reading, s.leases[s.processes[p].task.token].barrier) == Some(0) && reading <= s.now + env.skew
    case RecordAllocation(p, reading) =>
      Leased(s, p) && s.processes[p].task.LeaseStored? && s.leases[s.processes[p].lease.value].wrote <= reading <= s.now &&
      reading <= s.leases[s.processes[p].lease.value].wrote + env.recordDelay
    case Activate(p) => p in s.processes && s.processes[p].task.HeartbeatRecorded?
    case BeginHeartbeat(p) => p in s.processes && s.processes[p].task.Idle? && s.processes[p].status.Active?
    case RecordHeartbeat(p, reading) =>
      p in s.processes && s.processes[p].task.HeartbeatWritten? && s.processes[p].task.at <= reading <= s.now &&
      reading <= s.processes[p].task.at + env.recordDelay
    case Expire(p) => p in s.processes
    case Close(p) => p in s.processes
    case _ => false
  }

  /** The steps of a `Generate` call before it reaches the node. */
  ghost predicate MayCall(s: Cluster, step: Step) {
    match step
    case Enter(p, call) => call !in s.calls && p in s.processes && s.processes[p].status.Active?
    case ReadTime(call) => call in s.calls && s.calls[call].stage.Entered?
    case Check(call) =>
      call in s.calls && s.calls[call].stage.Timed? && s.calls[call].process in s.processes &&
      s.calls[call].stage.at - s.processes[s.calls[call].process].heartbeat <= SAFETY_THRESHOLD
    case Load(call) =>
      call in s.calls && s.calls[call].stage.Passed? && s.calls[call].process in s.processes &&
      s.processes[s.calls[call].process].lease.Some?
    case _ => false
  }

  ghost predicate Enabled(env: Env, s: Cluster, step: Step) {
    match step
    case Tick(_) => true
    case Allocate(p, token, worker, barrier, _) => MayAllocate(s, p, token, worker, barrier)
    case GiveUpWaiting(p) =>
      p in s.processes && s.processes[p].task.WaitingForClock? && s.processes[p].task.token in s.leases
    case WriteHeartbeat(p, timestamp, _) => MayWrite(s, p, timestamp)
    case Retire(p) => Leased(s, p) && s.processes[p].task.Idle? && !s.processes[p].status.Active?
    case Release(token, timestamp) => MayRelease(s, token, timestamp)
    case Generate(call, clock) => MayGenerate(env, s, call, clock)
    case _ => MayMove(env, s, step) || MayCall(s, step)
  }

  ghost function WithProcess(s: Cluster, p: nat, process: Process): Cluster {
    s.(processes := s.processes[p := process])
  }

  /** An unanswered allocation may have been committed all the same; nobody then uses its token. */
  ghost function Grant(env: Env, s: Cluster, p: nat, token: Token, worker: int, barrier: int, answered: bool): Cluster
    requires MayAllocate(s, p, token, worker, barrier)
  {
    s.(rows := Allocated(s.rows, worker, barrier, s.now, token),
       leases := s.leases[token := Lease(worker, barrier, Fresh(worker, env.epoch), s.now, None)],
       processes := if answered then s.processes[p := s.processes[p].(task := WaitingForClock(token))] else s.processes)
  }

  ghost function Answer(env: Env, s: Cluster, call: nat, clock: seq<int>): Cluster
    requires MayGenerate(env, s, call, clock)
  {
    var token := s.calls[call].stage.token;
    var l := s.leases[token];
    var (node, out) := Generated(l.node, clock);
    if out.Waiting? then s
    else if out.Issued? then
      s.(calls := s.calls - {call}, leases := s.leases[token := l.(node := node, last := Some(out.id))],
         issued := s.issued + [out.id], issuedBy := s.issuedBy + [token])
    else
      s.(calls := s.calls - {call}, leases := s.leases[token := l.(node := node)])
  }

  ghost function LostFrom(status: Status): Status { if status.Active? then Lost else status }

  /** The process that moves, as it is afterwards. */
  ghost function Moved(env: Env, s: Cluster, step: Step): Process
    requires MayMove(env, s, step)
  {
    match step
    case Start(p) => Process(Lost, None, 0, Idle)
    case StoreLease(p, _) => s.processes[p].(lease := Some(s.processes[p].task.token), task := LeaseStored)
    case RecordAllocation(p, reading) => s.processes[p].(heartbeat := reading, task := HeartbeatRecorded)
    case Activate(p) => s.processes[p].(task := Idle, status := if s.processes[p].status.Lost? then Active else s.processes[p].status)
    case BeginHeartbeat(p) => s.processes[p].(task := HeartbeatDue)
    case RecordHeartbeat(p, reading) => s.processes[p].(heartbeat := reading, task := Idle)
    case Expire(p) => s.processes[p].(status := LostFrom(s.processes[p].status))
    case Close(p) => s.processes[p].(status := Closed)
  }

  /** The call that proceeds, as it is afterwards. */
  ghost function Called(s: Cluster, step: Step): Pending
    requires MayCall(s, step)
  {
    match step
    case Enter(p, _) => Pending(p, Entered)
    case ReadTime(call) => s.calls[call].(stage := Timed(s.now))
    case Check(call) => s.calls[call].(stage := Passed(s.calls[call].stage.at))
    case Load(call) => s.calls[call].(stage := Loaded(s.calls[call].stage.at, s.processes[s.calls[call].process].lease.value))
  }

  /** The node of a lease stops for good. */
  ghost function Retired(s: Cluster, token: Token): Cluster
    requires token in s.leases
  {
    s.(leases := s.leases[token := s.leases[token].(node := s.leases[token].node.(retired := true))])
  }

  /** The heartbeat statement and what the loop makes of its answer. */
  ghost function Written(s: Cluster, p: nat, timestamp: int, answered: bool): Cluster
    requires MayWrite(s, p, timestamp)
  {
    var process, token := s.processes[p], s.processes[p].lease.value;
    var l := s.leases[token];
    if Holds(s.rows, l.worker, token) then
      WithProcess(
        s.(rows := Refreshed(s.rows, l.worker, token, timestamp, s.now), leases := s.leases[token := l.(wrote := s.now)]),
        p, process.(task := if answered then HeartbeatWritten(s.now) else Idle))
    else
      WithProcess(s, p, process.(task := Idle, status := if answered then LostFrom(process.status) else process.status))
  }

  ghost function Next(env: Env, s: Cluster, step: Step): Cluster
    requires Enabled(env, s, step)
  {
    match step
    case Tick(ms) => s.(now := s.now + ms)
    case Allocate(p, token, worker, barrier, answered) => Grant(env, s, p, token, worker, barrier, answered)
    case GiveUpWaiting(p) => WithProcess(Retired(s, s.processes[p].task.token), p, s.processes[p].(task := Idle))
    case WriteHeartbeat(p, timestamp, answered) => Written(s, p, timestamp, answered)
    case Retire(p) => Retired(s, s.processes[p].lease.value)
    case Release(token, timestamp) => s.(rows := Released(s.rows, s.leases[token].worker, token, timestamp, s.now))
    case Generate(call, clock) => Answer(env, s, call, clock)
    case Enter(_, call) => s.(calls := s.calls[call := Called(s, step)])
    case ReadTime(call) => s.(calls := s.calls[call := Called(s, step)])
    case Check(call) => s.(calls := s.calls[call := Called(s, step)])
    case Load(call) => s.(calls := s.calls[call := Called(s, step)])
    case _ => WithProcess(s, step.p, Moved(env, s, step))
  }

  // ---------------------------------------------------------------- runs

  ghost predicate Valid(env: Env, s: Cluster, run: seq<Step>)
    decreases run
  {
    run == [] || (Enabled(env, s, run[0]) && Valid(env, Next(env, s, run[0]), run[1..]))
  }

  ghost function After(env: Env, s: Cluster, run: seq<Step>): Cluster
    requires Valid(env, s, run)
    decreases run
  {
    if run == [] then s else After(env, Next(env, s, run[0]), run[1..])
  }

  ghost predicate Distinct<T>(s: seq<T>) { forall i, j :: 0 <= i < j < |s| ==> s[i] != s[j] }

  /** No two successful `Generate` calls of any run return the same ID. */
  ghost predicate AlwaysUnique(env: Env) {
    forall now, run :: now >= 0 && Valid(env, Initial(now), run) ==> Distinct(After(env, Initial(now), run).issued)
  }

  // ---------------------------------------------------------------- the invariant

  /** The assumptions under which it holds. */
  ghost predicate Safe(env: Env) {
    env.epoch > 0 && !env.fallsBack && !env.overflows &&
    env.skew + env.recordDelay + env.callDelay <= WORKER_TIMEOUT - SAFETY_THRESHOLD + 1
  }

  ghost predicate Current(s: Cluster, k: Token)
    requires k in s.leases
  {
    Holds(s.rows, s.leases[k].worker, k)
  }

  ghost predicate LeaseOk(env: Env, now: int, rows: Table, k: Token, l: Lease) {
    0 <= l.worker <= MAX_WORKER_ID && l.worker in rows && 0 <= l.wrote <= now &&
    l.node.workerID == l.worker && l.node.epoch == env.epoch && Consistent(l.node, Seen(l.last, false)) &&
    (l.last.None? ==> l.node.timestamp == 0) &&
    l.node.timestamp <= l.wrote + WORKER_TIMEOUT + 1 &&
    (Holds(rows, l.worker, k) ==>
       rows[l.worker].updatedAt == l.wrote ||
       (l.node.retired && l.node.timestamp <= rows[l.worker].lastTimestamp))
  }

  ghost predicate Leases(env: Env, s: Cluster) {
    0 <= s.now &&
    (forall k <- s.leases :: LeaseOk(env, s.now, s.rows, k, s.leases[k])) &&
    (forall w <- s.rows :: s.rows[w].token in s.leases && s.leases[s.rows[w].token].worker == w &&
                           s.leases[s.rows[w].token].barrier <= s.rows[w].lastTimestamp)
  }

  /** Lease `a` of a worker was over before lease `b` began: whatever `a` has issued, or still can, is
      not past the barrier of `b`. */
  ghost predicate Before(s: Cluster, a: Token, b: Token)
    requires a in s.leases && b in s.leases
  {
    !Current(s, a) && s.leases[a].node.timestamp <= s.leases[b].barrier &&
    (s.leases[a].node.retired || s.leases[a].wrote + WORKER_TIMEOUT + 1 <= s.leases[b].barrier)
  }

  ghost predicate Ordered(s: Cluster) {
    forall a, b | a in s.leases && b in s.leases && a != b && s.leases[a].worker == s.leases[b].worker ::
      Before(s, a, b) || Before(s, b, a)
  }

  /** The recorded heartbeat stands for a write not much older, and precedes a lease still being waited for. */
  ghost predicate ProcessOk(env: Env, s: Cluster, p: nat)
    requires p in s.processes
  {
    var process := s.processes[p];
    process.heartbeat <= s.now &&
    (process.lease.Some? ==>
       process.lease.value in s.leases && process.heartbeat <= s.leases[process.lease.value].wrote + env.recordDelay) &&
    (process.status.Active? ==>
       process.lease.Some? && (process.task.Idle? || process.task.HeartbeatDue? || process.task.HeartbeatWritten?)) &&
    match process.task
    case WaitingForClock(k) => k in s.leases && process.heartbeat <= s.leases[k].wrote
    case LeaseStored => process.lease.Some?
    case HeartbeatRecorded => process.lease.Some?
    case HeartbeatWritten(at) => process.lease.Some? && at <= s.leases[process.lease.value].wrote
    case _ => true
  }

  ghost predicate Deadline(env: Env, s: Cluster, k: Token, checkedAt: int)
    requires k in s.leases
  {
    checkedAt <= s.leases[k].wrote + env.recordDelay + SAFETY_THRESHOLD
  }

  /** Whatever lease the call has loaded or may still load, its deadline holds. */
  ghost predicate CallOk(env: Env, s: Cluster, c: nat)
    requires c in s.calls
  {
    var call := s.calls[c];
    call.process in s.processes &&
    var process := s.processes[call.process];
    match call.stage
    case Entered => process.lease.Some?
    case Timed(at) => at <= s.now && process.lease.Some?
    case Passed(at) =>
      at <= s.now && process.lease.Some? && process.lease.value in s.leases && Deadline(env, s, process.lease.value, at) &&
      (process.task.WaitingForClock? ==> process.task.token in s.leases && Deadline(env, s, process.task.token, at))
    case Loaded(at, k) => at <= s.now && k in s.leases && Deadline(env, s, k, at)
  }

  ghost predicate Schedules(env: Env, s: Cluster) {
    (forall p <- s.processes :: ProcessOk(env, s, p)) && (forall c <- s.calls :: CallOk(env, s, c))
  }

  /** An issued ID lies strictly above the barrier of its lease and not above its last ID. */
  ghost predicate IssuedBy(env: Env, l: Lease, id: int) {
    0 <= id && WorkerOf(id) == l.worker && l.last.Some? && id <= l.last.value && l.barrier < TimeFromID(env.epoch, id)
  }

  ghost predicate History(env: Env, s: Cluster) {
    |s.issued| == |s.issuedBy| && Distinct(s.issued) &&
    forall i :: 0 <= i < |s.issued| ==> s.issuedBy[i] in s.leases && IssuedBy(env, s.leases[s.issuedBy[i]], s.issued[i])
  }

  ghost predicate Inv(env: Env, s: Cluster) {
    Leases(env, s) && Ordered(s) && Schedules(env, s) && History(env, s)
  }

  // ---------------------------------------------------------------- every step keeps it

  /** What the cluster uses of one `generate` call. */
  lemma GeneratedFacts(n: State, clock: seq<int>)
    ensures var (n', out) := Generated(n, clock);
            n'.workerID == n.workerID && n'.epoch == n.epoch && n'.retired == n.retired &&
            (n.retired ==> n' == n && !out.Issued?) &&
            (out.Issued? ==> n'.timestamp in clock && out.id == Compose(n'.timestamp - n.epoch, n.workerID, n'.sequence)) &&
            (!out.Issued? ==> n'.timestamp == n.timestamp) &&
            (out == Failed(TimestampOverflow) ==> exists r <- clock :: r - n.epoch > MAX_ELAPSED)
  {
    if clock != [] {
      NextReadingOccurs(n.timestamp, clock[1..]);
      assert clock[0] in clock && forall r <- clock[1..] :: r in clock;
    }
  }

  lemma NextReadingOccurs(timestamp: int, clock: seq<int>)
    ensures var r := NextMillisecond(timestamp, clock); r.At? ==> r.ms in clock
  {
  }

  ghost predicate GoodCall(env: Env, l: Lease, node: State, out: Outcome) {
    node.workerID == l.worker && node.epoch == env.epoch && node.retired == l.node.retired &&
    out != Failed(TimestampOverflow) && Consistent(node, Observe(Seen(l.last, false), out)) &&
    (l.node.retired ==> !out.Issued?) &&
    (!out.Issued? ==> node.timestamp == l.node.timestamp) &&
    (out.Issued? ==>
       node.timestamp <= l.wrote + WORKER_TIMEOUT + 1 && l.barrier < node.timestamp &&
       node.timestamp == TimeFromID(env.epoch, out.id) && WorkerOf(out.id) == l.worker && 0 <= out.id &&
       (l.last.Some? ==> l.last.value < out.id))
  }

  /** A call that may still generate: its deadline has not passed, so no reading can be past `wrote`
      plus the worker timeout, and an ID it issues is above the barrier and above the last one. */
  lemma GenerateInTime(env: Env, now: int, l: Lease, clock: seq<int>)
    requires Safe(env) && ReadingsFit(env, now, l.barrier, clock)
    requires now <= l.wrote + env.recordDelay + SAFETY_THRESHOLD + env.callDelay
    requires l.node.workerID == l.worker && l.node.epoch == env.epoch && Consistent(l.node, Seen(l.last, false))
    ensures var (node, out) := Generated(l.node, clock); GoodCall(env, l, node, out)
  {
    var (node, out) := Generated(l.node, clock);
    GeneratedFacts(l.node, clock);
    StepOrder(l.node, Seen(l.last, false), Call(clock));
    if out.Issued? {
      ComposeRoundTrip(node.timestamp - node.epoch, node.workerID, node.sequence);
    }
  }

  lemma GenerateIsGood(env: Env, s: Cluster, call: nat, clock: seq<int>)
    requires Safe(env) && Leases(env, s) && Schedules(env, s) && MayGenerate(env, s, call, clock)
    ensures var l := s.leases[s.calls[call].stage.token];
            var (node, out) := Generated(l.node, clock); GoodCall(env, l, node, out)
  {
    var k := s.calls[call].stage.token;
    assert CallOk(env, s, call) && LeaseOk(env, s.now, s.rows, k, s.leases[k]);
    GenerateInTime(env, s.now, s.leases[k], clock);
  }

  /** How a lease changes in a step that does not take its worker: the row changes hands never, the
      barrier never, and what a superseded lease still may issue does not grow. */
  ghost predicate Evolves(s: Cluster, s': Cluster, k: Token) {
    k in s.leases && k in s'.leases && s.now <= s'.now &&
    var l, l' := s.leases[k], s'.leases[k];
    l'.worker == l.worker && l'.barrier == l.barrier && Current(s', k) == Current(s, k) &&
    l.wrote <= l'.wrote && (l'.wrote == l.wrote || Current(s, k)) &&
    (l.node.retired ==> l'.node.retired) &&
    (l'.node.timestamp == l.node.timestamp ||
     (!l.node.retired && l'.node.timestamp <= l'.wrote + WORKER_TIMEOUT + 1))
  }

  lemma EvolvesKeepsOrder(s: Cluster, s': Cluster)
    requires Ordered(s) && s'.leases.Keys == s.leases.Keys && forall k <- s.leases :: Evolves(s, s', k)
    ensures Ordered(s')
  {
    forall a, b | a in s'.leases && b in s'.leases && a != b && s'.leases[a].worker == s'.leases[b].worker
      ensures Before(s', a, b) || Before(s', b, a)
    {
      assert Evolves(s, s', a) && Evolves(s, s', b);
      assert Before(s, a, b) || Before(s, b, a);
    }
  }

  lemma SameHistory(env: Env, s: Cluster, s': Cluster)
    requires History(env, s) && s'.issued == s.issued && s'.issuedBy == s.issuedBy
    requires forall k <- s.leases :: k in s'.leases && s'.leases[k].worker == s.leases[k].worker
                && s'.leases[k].barrier == s.leases[k].barrier && s'.leases[k].last == s.leases[k].last
    ensures History(env, s')
  {
    forall i | 0 <= i < |s'.issued|
      ensures s'.issuedBy[i] in s'.leases && IssuedBy(env, s'.leases[s'.issuedBy[i]], s'.issued[i])
    {
      assert IssuedBy(env, s.leases[s.issuedBy[i]], s.issued[i]);
    }
  }

  lemma GenerateLease(env: Env, s: Cluster, call: nat, clock: seq<int>, k: Token)
    requires MayGenerate(env, s, call, clock) && k in s.leases && LeaseOk(env, s.now, s.rows, k, s.leases[k])
    requires var l := s.leases[s.calls[call].stage.token];
             var (node, out) := Generated(l.node, clock); GoodCall(env, l, node, out)
    ensures var s' := Answer(env, s, call, clock);
            Evolves(s, s', k) && LeaseOk(env, s'.now, s'.rows, k, s'.leases[k])
  {
  }

  ghost predicate WritesMonotone(s: Cluster, s': Cluster) {
    s.leases.Keys <= s'.leases.Keys && s.now <= s'.now &&
    forall k <- s.leases :: s.leases[k].wrote <= s'.leases[k].wrote
  }

  lemma FrameSchedules(env: Env, s: Cluster, s': Cluster)
    requires Schedules(env, s) && WritesMonotone(s, s') && s'.processes == s.processes
    requires forall c <- s'.calls :: c in s.calls && s'.calls[c] == s.calls[c]
    ensures Schedules(env, s')
  {
    forall p <- s'.processes ensures ProcessOk(env, s', p) { assert ProcessOk(env, s, p); }
    forall c <- s'.calls ensures CallOk(env, s', c) { assert CallOk(env, s, c); }
  }

  lemma GenerateLeases(env: Env, s: Cluster, call: nat, clock: seq<int>)
    requires Safe(env) && Inv(env, s) && MayGenerate(env, s, call, clock)
    ensures var s' := Answer(env, s, call, clock); Leases(env, s') && Ordered(s')
  {
    GenerateIsGood(env, s, call, clock);
    var s' := Answer(env, s, call, clock);
    assert s'.leases.Keys == s.leases.Keys;
    forall k <- s.leases ensures Evolves(s, s', k) && LeaseOk(env, s'.now, s'.rows, k, s'.leases[k]) { GenerateLease(env, s, call, clock, k); }
    assert forall w <- s'.rows :: Evolves(s, s', s.rows[w].token);
    EvolvesKeepsOrder(s, s');
  }

  lemma GenerateSchedules(env: Env, s: Cluster, call: nat, clock: seq<int>)
    requires Schedules(env, s) && MayGenerate(env, s, call, clock)
    ensures Schedules(env, Answer(env, s, call, clock))
  {
    FrameSchedules(env, s, Answer(env, s, call, clock));
  }

  lemma GenerateStep(env: Env, s: Cluster, call: nat, clock: seq<int>)
    requires Safe(env) && Inv(env, s) && MayGenerate(env, s, call, clock)
    ensures Inv(env, Answer(env, s, call, clock))
  {
    GenerateLeases(env, s, call, clock);
    GenerateSchedules(env, s, call, clock);
    GenerateHistory(env, s, call, clock);
  }

  /** IDs of two leases of one worker differ, because one ended before the barrier of the other. */
  lemma OtherLeaseOtherID(env: Env, s: Cluster, j: Token, id: int, k: Token, new_: int, timestamp: int)
    requires j in s.leases && k in s.leases && j != k && s.leases[j].worker == s.leases[k].worker && Ordered(s)
    requires LeaseOk(env, s.now, s.rows, j, s.leases[j]) && IssuedBy(env, s.leases[j], id)
    requires s.leases[k].barrier < timestamp == TimeFromID(env.epoch, new_)
    requires !s.leases[k].node.retired && timestamp <= s.leases[k].wrote + WORKER_TIMEOUT + 1
    ensures id != new_
  {
    var l := s.leases[j];
    ComposeRoundTrip(l.node.timestamp - env.epoch, l.worker, SequenceOf(l.last.value));
    assert ElapsedOf(id) <= ElapsedOf(l.last.value);
    assert Before(s, j, k) || Before(s, k, j);
  }

  /** A new ID differs from all earlier ones: from those of its own lease because a node increases, from
      those of other leases of the same worker because of the barriers, and from the rest by worker. */
  lemma GenerateIsNew(env: Env, s: Cluster, call: nat, clock: seq<int>, i: nat)
    requires Safe(env) && Inv(env, s) && MayGenerate(env, s, call, clock) && i < |s.issued|
    ensures var (_, out) := Generated(s.leases[s.calls[call].stage.token].node, clock);
            out.Issued? ==> s.issued[i] != out.id
  {
    GenerateIsGood(env, s, call, clock);
    var k := s.calls[call].stage.token;
    var (node, out) := Generated(s.leases[k].node, clock);
    var j := s.issuedBy[i];
    assert IssuedBy(env, s.leases[j], s.issued[i]) && LeaseOk(env, s.now, s.rows, j, s.leases[j]);
    if out.Issued? && j != k && s.leases[j].worker == s.leases[k].worker {
      OtherLeaseOtherID(env, s, j, s.issued[i], k, out.id, node.timestamp);
    }
  }

  /** What a call adds to the history. */
  lemma AnswerHistory(env: Env, s: Cluster, call: nat, clock: seq<int>)
    requires MayGenerate(env, s, call, clock)
    ensures var k := s.calls[call].stage.token;
            var (node, out) := Generated(s.leases[k].node, clock);
            var s' := Answer(env, s, call, clock);
            s'.leases.Keys == s.leases.Keys && (forall j <- s.leases :: j != k ==> s'.leases[j] == s.leases[j]) &&
            s'.leases[k].worker == s.leases[k].worker && s'.leases[k].barrier == s.leases[k].barrier &&
            s'.leases[k].last == (if out.Issued? then Some(out.id) else s.leases[k].last) &&
            s'.issued == s.issued + (if out.Issued? then [out.id] else []) && s'.issuedBy == s.issuedBy + (if out.Issued? then [k] else [])
  {
    hide Generated, ReadingsFit;
  }

  lemma KeepsIssuing(env: Env, l: Lease, l': Lease, id: int)
    requires IssuedBy(env, l, id) && l'.worker == l.worker && l'.barrier == l.barrier
    requires l'.last == l.last || (l'.last.Some? && (l.last.Some? ==> l.last.value < l'.last.value))
    ensures IssuedBy(env, l', id)
  {
  }

  lemma GenerateHistory(env: Env, s: Cluster, call: nat, clock: seq<int>)
    requires Safe(env) && Inv(env, s) && MayGenerate(env, s, call, clock)
    ensures History(env, Answer(env, s, call, clock))
  {
    var k, s' := s.calls[call].stage.token, Answer(env, s, call, clock);
    var (node, out) := Generated(s.leases[k].node, clock);
    AnswerHistory(env, s, call, clock);
    GenerateIsGood(env, s, call, clock);
    assert History(env, s);
    assert out.Issued? ==> IssuedBy(env, s'.leases[k], out.id);
    forall i | 0 <= i < |s.issued| ensures out.Issued? ==> s.issued[i] != out.id { GenerateIsNew(env, s, call, clock, i); }
    hide *;
    HistoryGrows(env, s, s', k, out);
  }

  lemma HistoryGrows(env: Env, s: Cluster, s': Cluster, k: Token, out: Outcome)
    requires History(env, s) && k in s.leases && s'.leases.Keys == s.leases.Keys && forall j <- s.leases :: j != k ==> s'.leases[j] == s.leases[j]
    requires s'.leases[k].worker == s.leases[k].worker && s'.leases[k].barrier == s.leases[k].barrier
    requires s'.leases[k].last == (if out.Issued? then Some(out.id) else s.leases[k].last)
    requires s'.issued == s.issued + (if out.Issued? then [out.id] else []) && s'.issuedBy == s.issuedBy + (if out.Issued? then [k] else [])
    requires out.Issued? ==>
               IssuedBy(env, s'.leases[k], out.id) && (s.leases[k].last.Some? ==> s.leases[k].last.value < out.id) &&
               forall i :: 0 <= i < |s.issued| ==> s.issued[i] != out.id
    ensures History(env, s')
  {
    hide IssuedBy;
    forall i | 0 <= i < |s.issued| ensures s.issuedBy[i] in s'.leases && IssuedBy(env, s'.leases[s.issuedBy[i]], s.issued[i]) {
      KeepsIssuing(env, s.leases[s.issuedBy[i]], s'.leases[s.issuedBy[i]], s.issued[i]);
    }
  }

  lemma AllocateLease(env: Env, s: Cluster, p: nat, token: Token, worker: int, barrier: int, answered: bool, k: Token)
    requires Safe(env) && Inv(env, s) && MayAllocate(s, p, token, worker, barrier) && (k == token || k in s.leases)
    ensures var s' := Grant(env, s, p, token, worker, barrier, answered);
            LeaseOk(env, s'.now, s'.rows, k, s'.leases[k]) &&
            (k != token ==> (Current(s', k) <==> Current(s, k) && s.leases[k].worker != worker))
  {
    if k != token { assert LeaseOk(env, s.now, s.rows, k, s.leases[k]); }
  }

  /** Every lease the worker had before ends before the new one begins. */
  lemma AllocateEndsEarlierLeases(env: Env, s: Cluster, p: nat, token: Token, worker: int, barrier: int, answered: bool, a: Token)
    requires Safe(env) && Inv(env, s) && MayAllocate(s, p, token, worker, barrier)
    requires a in s.leases && s.leases[a].worker == worker
    ensures Before(Grant(env, s, p, token, worker, barrier, answered), a, token)
  {
    AllocateLease(env, s, p, token, worker, barrier, answered, a);
    assert LeaseOk(env, s.now, s.rows, a, s.leases[a]);
    var current := s.rows[worker].token;
    assert LeaseOk(env, s.now, s.rows, current, s.leases[current]);
    if a != current {
      assert Before(s, a, current) || Before(s, current, a);
    }
  }

  lemma AllocateOrder(env: Env, s: Cluster, p: nat, token: Token, worker: int, barrier: int, answered: bool)
    requires Safe(env) && Inv(env, s) && MayAllocate(s, p, token, worker, barrier)
    ensures Ordered(Grant(env, s, p, token, worker, barrier, answered))
  {
    var s' := Grant(env, s, p, token, worker, barrier, answered);
    forall a, b | a in s'.leases && b in s'.leases && a != b && s'.leases[a].worker == s'.leases[b].worker
      ensures Before(s', a, b) || Before(s', b, a)
    {
      if a == token {
        AllocateEndsEarlierLeases(env, s, p, token, worker, barrier, answered, b);
      } else if b == token {
        AllocateEndsEarlierLeases(env, s, p, token, worker, barrier, answered, a);
      } else {
        AllocateLease(env, s, p, token, worker, barrier, answered, a);
        AllocateLease(env, s, p, token, worker, barrier, answered, b);
        assert Before(s, a, b) || Before(s, b, a);
      }
    }
  }

  lemma AllocateProcess(env: Env, s: Cluster, p: nat, token: Token, worker: int, barrier: int, answered: bool, q: nat)
    requires MayAllocate(s, p, token, worker, barrier) && q in s.processes && ProcessOk(env, s, q)
    ensures ProcessOk(env, Grant(env, s, p, token, worker, barrier, answered), q)
  {
  }

  lemma AllocateCall(env: Env, s: Cluster, p: nat, token: Token, worker: int, barrier: int, answered: bool, c: nat)
    requires MayAllocate(s, p, token, worker, barrier) && c in s.calls && CallOk(env, s, c)
    ensures CallOk(env, Grant(env, s, p, token, worker, barrier, answered), c)
  {
  }

  lemma AllocateSchedules(env: Env, s: Cluster, p: nat, token: Token, worker: int, barrier: int, answered: bool)
    requires MayAllocate(s, p, token, worker, barrier) && Schedules(env, s)
    ensures Schedules(env, Grant(env, s, p, token, worker, barrier, answered))
  {
    forall q <- s.processes { AllocateProcess(env, s, p, token, worker, barrier, answered, q); }
    forall c <- s.calls { AllocateCall(env, s, p, token, worker, barrier, answered, c); }
  }

  lemma AllocateLeases(env: Env, s: Cluster, p: nat, token: Token, worker: int, barrier: int, answered: bool)
    requires Safe(env) && Inv(env, s) && MayAllocate(s, p, token, worker, barrier)
    ensures Leases(env, Grant(env, s, p, token, worker, barrier, answered))
  {
    var s' := Grant(env, s, p, token, worker, barrier, answered);
    forall k <- s'.leases ensures LeaseOk(env, s'.now, s'.rows, k, s'.leases[k]) { AllocateLease(env, s, p, token, worker, barrier, answered, k); }
  }

  lemma AllocateStep(env: Env, s: Cluster, p: nat, token: Token, worker: int, barrier: int, answered: bool)
    requires Safe(env) && Inv(env, s) && MayAllocate(s, p, token, worker, barrier)
    ensures Inv(env, Grant(env, s, p, token, worker, barrier, answered))
  {
    AllocateLeases(env, s, p, token, worker, barrier, answered);
    AllocateOrder(env, s, p, token, worker, barrier, answered);
    AllocateSchedules(env, s, p, token, worker, barrier, answered);
    SameHistory(env, s, Grant(env, s, p, token, worker, barrier, answered));
  }

  // ---------------------------------------------------------------- leases and rows in the other steps

  /** Each lease and each row moved on; so did the whole table. */
  ghost predicate MovedOn(env: Env, s: Cluster, s': Cluster) {
    0 <= s.now <= s'.now && s'.leases.Keys == s.leases.Keys &&
    (forall k <- s.leases :: Evolves(s, s', k) && LeaseOk(env, s'.now, s'.rows, k, s'.leases[k]) && s'.leases[k].last == s.leases[k].last) &&
    (forall w <- s'.rows :: w in s.rows && s'.rows[w].token == s.rows[w].token && s.rows[w].lastTimestamp <= s'.rows[w].lastTimestamp)
  }

  lemma UnchangedMovesOn(env: Env, s: Cluster, s': Cluster)
    requires Leases(env, s) && s'.rows == s.rows && s'.leases == s.leases && s.now <= s'.now
    ensures MovedOn(env, s, s')
  {
    forall k <- s.leases ensures Evolves(s, s', k) && LeaseOk(env, s'.now, s'.rows, k, s'.leases[k]) {
      assert LeaseOk(env, s.now, s.rows, k, s.leases[k]);
    }
  }

  lemma RetiredLease(env: Env, s: Cluster, token: Token, s': Cluster, k: Token)
    requires token in s.leases && s'.rows == s.rows && s'.leases == Retired(s, token).leases && s'.now == s.now
    requires k in s.leases && LeaseOk(env, s.now, s.rows, k, s.leases[k])
    ensures k in s'.leases && Evolves(s, s', k) && LeaseOk(env, s'.now, s'.rows, k, s'.leases[k]) && s'.leases[k].last == s.leases[k].last
  {
  }

  lemma RetiredMovesOn(env: Env, s: Cluster, token: Token, s': Cluster)
    requires Leases(env, s) && token in s.leases && s'.rows == s.rows && s'.leases == Retired(s, token).leases && s'.now == s.now
    ensures MovedOn(env, s, s')
  {
    assert s'.leases.Keys == s.leases.Keys;
    hide LeaseOk, Evolves, Retired;
    forall k <- s.leases
      ensures Evolves(s, s', k) && LeaseOk(env, s'.now, s'.rows, k, s'.leases[k]) && s'.leases[k].last == s.leases[k].last
    {
      RetiredLease(env, s, token, s', k);
    }
  }

  lemma WrittenLease(env: Env, s: Cluster, p: nat, timestamp: int, answered: bool, k: Token)
    requires MayWrite(s, p, timestamp) && k in s.leases && LeaseOk(env, s.now, s.rows, k, s.leases[k])
    ensures var s' := Written(s, p, timestamp, answered);
            Evolves(s, s', k) && LeaseOk(env, s'.now, s'.rows, k, s'.leases[k]) && s'.leases[k].last == s.leases[k].last
  {
    hide Consistent;
  }

  lemma WrittenRows(env: Env, s: Cluster, p: nat, timestamp: int, answered: bool)
    requires MayWrite(s, p, timestamp)
    ensures var s' := Written(s, p, timestamp, answered);
            s'.leases.Keys == s.leases.Keys && s'.now == s.now &&
            forall w <- s'.rows :: w in s.rows && s'.rows[w].token == s.rows[w].token && s.rows[w].lastTimestamp <= s'.rows[w].lastTimestamp
  {
  }

  lemma WrittenMovesOn(env: Env, s: Cluster, p: nat, timestamp: int, answered: bool)
    requires Leases(env, s) && MayWrite(s, p, timestamp)
    ensures MovedOn(env, s, Written(s, p, timestamp, answered))
  {
    var s' := Written(s, p, timestamp, answered);
    hide Written, LeaseOk, Evolves;
    WrittenRows(env, s, p, timestamp, answered);
    forall k <- s.leases
      ensures Evolves(s, s', k) && LeaseOk(env, s'.now, s'.rows, k, s'.leases[k]) && s'.leases[k].last == s.leases[k].last
    {
      WrittenLease(env, s, p, timestamp, answered, k);
    }
  }

  lemma ReleasedLease(env: Env, s: Cluster, token: Token, timestamp: int, s': Cluster, k: Token)
    requires MayRelease(s, token, timestamp) && s' == s.(rows := Released(s.rows, s.leases[token].worker, token, timestamp, s.now))
    requires k in s.leases && LeaseOk(env, s.now, s.rows, k, s.leases[k])
    ensures Evolves(s, s', k) && LeaseOk(env, s'.now, s'.rows, k, s'.leases[k])
  {
    hide Consistent;
  }

  lemma ReleasedMovesOn(env: Env, s: Cluster, token: Token, timestamp: int, s': Cluster)
    requires Leases(env, s) && MayRelease(s, token, timestamp)
    requires s' == s.(rows := Released(s.rows, s.leases[token].worker, token, timestamp, s.now))
    ensures MovedOn(env, s, s')
  {
    assert forall w <- s'.rows :: w in s.rows && s'.rows[w].token == s.rows[w].token && s.rows[w].lastTimestamp <= s'.rows[w].lastTimestamp;
    hide LeaseOk, Evolves, Released;
    forall k <- s.leases ensures Evolves(s, s', k) && LeaseOk(env, s'.now, s'.rows, k, s'.leases[k]) {
      ReleasedLease(env, s, token, timestamp, s', k);
    }
  }

  lemma MovedOnKeepsRows(env: Env, s: Cluster, s': Cluster)
    requires Leases(env, s) && MovedOn(env, s, s')
    ensures Leases(env, s') && WritesMonotone(s, s')
  {
    hide LeaseOk;
    forall w <- s'.rows
      ensures s'.rows[w].token in s'.leases && s'.leases[s'.rows[w].token].worker == w &&
              s'.leases[s'.rows[w].token].barrier <= s'.rows[w].lastTimestamp
    {
      assert Evolves(s, s', s.rows[w].token);
    }
    assert forall k <- s.leases :: Evolves(s, s', k);
  }

  lemma MovedOnKeepsHistory(env: Env, s: Cluster, s': Cluster)
    requires Ordered(s) && History(env, s) && MovedOn(env, s, s')
    requires s'.issued == s.issued && s'.issuedBy == s.issuedBy
    ensures Ordered(s') && History(env, s')
  {
    hide LeaseOk;
    assert forall k <- s.leases :: k in s'.leases && Evolves(s, s', k);
    EvolvesKeepsOrder(s, s');
    SameHistory(env, s, s');
  }

  lemma MovedOnKeepsInv(env: Env, s: Cluster, s': Cluster)
    requires Inv(env, s) && MovedOn(env, s, s') && s'.issued == s.issued && s'.issuedBy == s.issuedBy
    requires WritesMonotone(s, s') ==> Schedules(env, s')
    ensures Inv(env, s')
  {
    MovedOnKeepsRows(env, s, s');
    MovedOnKeepsHistory(env, s, s');
  }

  // ---------------------------------------------------------------- processes and calls in the other steps

  /** The calls of a process keep their deadlines when it keeps its lease and starts no new wait, and when it
      takes the lease it waited for. */
  ghost predicate Follows(old_: Process, new_: Process) {
    (new_.lease == old_.lease && (new_.task.WaitingForClock? ==> new_.task == old_.task)) ||
    (old_.task.WaitingForClock? && new_.lease == Some(old_.task.token) && !new_.task.WaitingForClock?)
  }

  lemma CallFollows(env: Env, s: Cluster, s': Cluster, c: nat)
    requires c in s.calls && CallOk(env, s, c) && c in s'.calls && s'.calls[c] == s.calls[c] && WritesMonotone(s, s')
    requires var p := s.calls[c].process; p in s'.processes && Follows(s.processes[p], s'.processes[p])
    ensures CallOk(env, s', c)
  {
  }

  lemma OneProcessChanged(env: Env, s: Cluster, s': Cluster, p: nat)
    requires Schedules(env, s) && WritesMonotone(s, s') && s'.calls == s.calls
    requires p in s'.processes && s'.processes == s.processes[p := s'.processes[p]] && ProcessOk(env, s', p)
    requires p in s.processes ==> Follows(s.processes[p], s'.processes[p])
    ensures Schedules(env, s')
  {
    forall q <- s'.processes ensures ProcessOk(env, s', q) { if q != p { assert ProcessOk(env, s, q); } }
    hide ProcessOk;
    forall c <- s'.calls ensures CallOk(env, s', c) {
      assert CallOk(env, s, c);
      CallFollows(env, s, s', c);
    }
  }

  lemma MovedProcess(env: Env, s: Cluster, step: Step)
    requires MayMove(env, s, step) && Leases(env, s) && (step.p in s.processes ==> ProcessOk(env, s, step.p))
    ensures ProcessOk(env, WithProcess(s, step.p, Moved(env, s, step)), step.p)
    ensures step.p in s.processes ==> Follows(s.processes[step.p], Moved(env, s, step))
  {
    hide LeaseOk;
    if step.StoreLease? {
      var k := s.processes[step.p].task.token;
      assert LeaseOk(env, s.now, s.rows, k, s.leases[k]);
    }
  }

  lemma MoveStep(env: Env, s: Cluster, step: Step)
    requires Inv(env, s) && MayMove(env, s, step)
    ensures Inv(env, WithProcess(s, step.p, Moved(env, s, step)))
  {
    var s' := WithProcess(s, step.p, Moved(env, s, step));
    UnchangedMovesOn(env, s, s');
    if step.p in s.processes { assert ProcessOk(env, s, step.p); }
    MovedProcess(env, s, step);
    hide Moved, MayMove, ProcessOk, CallOk, LeaseOk, MovedOn, Follows;
    OneProcessChanged(env, s, s', step.p);
    MovedOnKeepsInv(env, s, s');
  }

  lemma CalledOk(env: Env, s: Cluster, step: Step)
    requires MayCall(s, step) && Schedules(env, s)
    ensures CallOk(env, s.(calls := s.calls[step.call := Called(s, step)]), step.call)
  {
    match step
    case Enter(p, _) => assert ProcessOk(env, s, p);
    case ReadTime(call) => assert CallOk(env, s, call);
    case Check(call) => assert CallOk(env, s, call) && ProcessOk(env, s, s.calls[call].process);
    case Load(call) => assert CallOk(env, s, call);
  }

  lemma OneCallChanged(env: Env, s: Cluster, s': Cluster, call: nat)
    requires Schedules(env, s) && call in s'.calls && CallOk(env, s', call) && s' == s.(calls := s.calls[call := s'.calls[call]])
    ensures Schedules(env, s')
  {
    forall p <- s'.processes ensures ProcessOk(env, s', p) { assert ProcessOk(env, s, p); }
    forall c <- s'.calls ensures CallOk(env, s', c) { if c != call { assert CallOk(env, s, c); } }
  }

  lemma CallStep(env: Env, s: Cluster, step: Step)
    requires Inv(env, s) && MayCall(s, step)
    ensures Inv(env, s.(calls := s.calls[step.call := Called(s, step)]))
  {
    var s' := s.(calls := s.calls[step.call := Called(s, step)]);
    hide Called, MayCall, LeaseOk, MovedOn, ProcessOk, CallOk;
    UnchangedMovesOn(env, s, s');
    CalledOk(env, s, step);
    OneCallChanged(env, s, s', step.call);
    MovedOnKeepsInv(env, s, s');
  }

  lemma TickStep(env: Env, s: Cluster, ms: nat)
    requires Inv(env, s)
    ensures Inv(env, s.(now := s.now + ms))
  {
    var s' := s.(now := s.now + ms);
    UnchangedMovesOn(env, s, s');
    hide LeaseOk, ProcessOk, CallOk, MovedOn;
    FrameSchedules(env, s, s');
    MovedOnKeepsInv(env, s, s');
  }

  lemma GiveUpProcess(env: Env, s: Cluster, p: nat)
    requires Enabled(env, s, GiveUpWaiting(p)) && ProcessOk(env, s, p)
    ensures var s' := Next(env, s, GiveUpWaiting(p));
            WritesMonotone(s, s') && p in s'.processes && ProcessOk(env, s', p) && Follows(s.processes[p], s'.processes[p])
  {
  }

  lemma GiveUpStep(env: Env, s: Cluster, p: nat)
    requires Inv(env, s) && Enabled(env, s, GiveUpWaiting(p))
    ensures Inv(env, Next(env, s, GiveUpWaiting(p)))
  {
    var s' := Next(env, s, GiveUpWaiting(p));
    assert ProcessOk(env, s, p);
    assert s'.processes == s.processes[p := s'.processes[p]] && s'.calls == s.calls && s'.issued == s.issued && s'.issuedBy == s.issuedBy;
    assert s'.rows == s.rows && s'.leases == Retired(s, s.processes[p].task.token).leases && s'.now == s.now;
    GiveUpProcess(env, s, p);
    hide Next, Enabled, Retired, LeaseOk, ProcessOk, CallOk, MovedOn, Follows;
    RetiredMovesOn(env, s, s.processes[p].task.token, s');
    OneProcessChanged(env, s, s', p);
    MovedOnKeepsInv(env, s, s');
  }

  lemma RetireStep(env: Env, s: Cluster, token: Token)
    requires Inv(env, s) && token in s.leases
    ensures Inv(env, Retired(s, token))
  {
    var s' := Retired(s, token);
    RetiredMovesOn(env, s, token, s');
    assert WritesMonotone(s, s');
    hide LeaseOk, ProcessOk, CallOk, MovedOn;
    FrameSchedules(env, s, s');
    MovedOnKeepsInv(env, s, s');
  }

  lemma WrittenProcess(env: Env, s: Cluster, p: nat, timestamp: int, answered: bool)
    requires MayWrite(s, p, timestamp) && Leases(env, s) && ProcessOk(env, s, p)
    ensures var s' := Written(s, p, timestamp, answered);
            WritesMonotone(s, s') && ProcessOk(env, s', p) && Follows(s.processes[p], s'.processes[p])
  {
    var token := s.processes[p].lease.value;
    assert LeaseOk(env, s.now, s.rows, token, s.leases[token]);
    hide Consistent, Refreshed;
  }

  lemma WriteStep(env: Env, s: Cluster, p: nat, timestamp: int, answered: bool)
    requires Inv(env, s) && MayWrite(s, p, timestamp)
    ensures Inv(env, Written(s, p, timestamp, answered))
  {
    var s' := Written(s, p, timestamp, answered);
    assert s'.processes == s.processes[p := s'.processes[p]] && s'.calls == s.calls && s'.issued == s.issued && s'.issuedBy == s.issuedBy;
    assert ProcessOk(env, s, p);
    hide Written, LeaseOk, ProcessOk, CallOk, MovedOn, Follows;
    WrittenMovesOn(env, s, p, timestamp, answered);
    WrittenProcess(env, s, p, timestamp, answered);
    OneProcessChanged(env, s, s', p);
    MovedOnKeepsInv(env, s, s');
  }

  lemma ReleaseStep(env: Env, s: Cluster, token: Token, timestamp: int)
    requires Inv(env, s) && MayRelease(s, token, timestamp)
    ensures Inv(env, s.(rows := Released(s.rows, s.leases[token].worker, token, timestamp, s.now)))
  {
    var s' := s.(rows := Released(s.rows, s.leases[token].worker, token, timestamp, s.now));
    hide LeaseOk, ProcessOk, CallOk, MovedOn, Released;
    ReleasedMovesOn(env, s, token, timestamp, s');
    FrameSchedules(env, s, s');
    MovedOnKeepsInv(env, s, s');
  }

  lemma StepKeepsInvariant(env: Env, s: Cluster, step: Step)
    requires Safe(env) && Inv(env, s) && Enabled(env, s, step)
    ensures Inv(env, Next(env, s, step))
  {
    hide Inv, Written, Moved, Called;
    match step
    case Tick(ms) => TickStep(env, s, ms);
    case Generate(call, clock) => GenerateStep(env, s, call, clock);
    case Allocate(p, token, worker, barrier, answered) => AllocateStep(env, s, p, token, worker, barrier, answered);
    case GiveUpWaiting(p) => GiveUpStep(env, s, p);
    case WriteHeartbeat(p, timestamp, answered) => WriteStep(env, s, p, timestamp, answered);
    case Retire(p) => RetireStep(env, s, s.processes[p].lease.value);
    case Release(token, timestamp) => ReleaseStep(env, s, token, timestamp);
    case Enter(_, _) => CallStep(env, s, step);
    case ReadTime(_) => CallStep(env, s, step);
    case Check(_) => CallStep(env, s, step);
    case Load(_) => CallStep(env, s, step);
    case _ => MoveStep(env, s, step);
  }

  lemma {:induction false} RunKeepsInvariant(env: Env, s: Cluster, run: seq<Step>)
    requires Safe(env) && Inv(env, s) && Valid(env, s, run)
    ensures Inv(env, After(env, s, run))
    decreases run
  {
    if run != [] {
      hide Inv, Next, Enabled;
      StepKeepsInvariant(env, s, run[0]);
      RunKeepsInvariant(env, Next(env, s, run[0]), run[1..]);
    }
  }

  /** Global uniqueness: when the three delays fit the margin between the safety threshold and the
      worker timeout, no interleaving of any number of processes issues an ID twice. */
  lemma GloballyUnique(env: Env)
    requires Safe(env)
    ensures AlwaysUnique(env)
  {
    forall now, run | now >= 0 && Valid(env, Initial(now), run)
      ensures Distinct(After(env, Initial(now), run).issued)
    {
      RunKeepsInvariant(env, Initial(now), run);
    }
  }
}
