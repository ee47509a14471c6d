/** The leased task queue of `pkg/compensator`.  Each statement is one atomic step at one database time; a
    random token is a positive number never used before.  A claim may take any due rows: which ones a query
    returns depends on order, limit, registered types and skipped locks. */
module Compensator {
  import opened Options

  type Token = nat

  datatype Status = Pending | Running | Succeeded | Failed

  datatype Row = Row(status: Status, attempts: int, token: Token, nextRunAt: int, completedAt: Option<int>)

  /** A claimed row as the worker holds it. */
  datatype Task = Task(id: int, attempt: int, token: Token)

  type Rows = map<int, Row>

  /** `retries` after the first execution, and the lease of a claim. */
  datatype Config = Config(retries: nat, lease: int)

  // ---------------------------------------------------------------- what the statements do

  function Inserted(now: int): Row { Row(Pending, 0, 0, now, None) }

  predicate Due(r: Row, now: int) { (r.status.Pending? || r.status.Running?) && r.nextRunAt <= now }

  predicate Exhausted(c: Config, r: Row) { r.attempts >= c.retries + 1 }

  function ClaimedRow(c: Config, r: Row, now: int, token: Token): Row {
    if Exhausted(c, r) then Row(Failed, r.attempts, 0, r.nextRunAt, Some(now))
    else Row(Running, r.attempts + 1, token, now + c.lease, None)
  }

  predicate Holds(rows: Rows, t: Task) { t.id in rows && rows[t.id].status.Running? && rows[t.id].token == t.token }

  function FinishedRow(r: Row, status: Status, delay: nat, now: int): Row {
    Row(status, r.attempts, 0, if status.Pending? then now + delay else r.nextRunAt,
        if status.Succeeded? || status.Failed? then Some(now) else None)
  }

  function AbandonedRow(r: Row, now: int): Row { r.(status := Pending, attempts := r.attempts - 1, token := 0, nextRunAt := now) }

  /** `outcome` without the error text. */
  function Outcome(c: Config, attempt: int, success: bool): Status {
    if success then Succeeded else if attempt >= c.retries + 1 then Failed else Pending
  }

  // ---------------------------------------------------------------- the table

  datatype Error = NotFound | NotFailed

  class TaskTable {
    var rows: Rows
    const config: Config

    constructor (config: Config)
      ensures rows == map[] && this.config == config
    {
      rows := map[];
      this.config := config;
    }

    method Insert(ids: seq<int>, now: int)
      requires forall id <- ids :: id !in rows
      modifies this
      ensures rows.Keys == old(rows).Keys + (set id <- ids)
      ensures forall id <- rows :: rows[id] == if id in ids then Inserted(now) else old(rows)[id]
    {
      rows := map id | id in rows.Keys + (set i <- ids) :: if id in rows then rows[id] else Row(Pending, 0, 0, now, None);
    }

    /** One UPDATE whose columns are CASE expressions over the picked rows. */
    method Claim(picked: set<int>, token: Token, now: int)
      requires forall id <- picked :: id in rows && Due(rows[id], now)
      modifies this
      ensures rows.Keys == old(rows).Keys
      ensures forall id <- rows ::
                rows[id] == if id in picked then ClaimedRow(config, old(rows)[id], now, token) else old(rows)[id]
    {
      rows := map id | id in rows ::
        var r := rows[id];
        var exhausted := r.attempts >= config.retries + 1;
        if id !in picked then r
        else Row(
          if exhausted then Failed else Running,
          if exhausted then r.attempts else r.attempts + 1,
          if exhausted then 0 else token,
          if exhausted then r.nextRunAt else now + config.lease,
          if exhausted then Some(now) else None);
    }

    method Finish(t: Task, success: bool, delay: nat, now: int) returns (ok: bool)
      modifies this
      ensures ok <==> Holds(old(rows), t)
      ensures rows == if ok then old(rows)[t.id := FinishedRow(old(rows)[t.id], Outcome(config, t.attempt, success), delay, now)]
                      else old(rows)
    {
      var status := Succeeded;
      if !success { status := if t.attempt >= config.retries + 1 then Failed else Pending; }
      if t.id !in rows { return false; }
      var r := rows[t.id];
      if r.status != Running || r.token != t.token { return false; }
      var next := if status == Pending then now + delay else r.nextRunAt;
      var completed := if status != Pending then Some(now) else None;
      rows := rows[t.id := Row(status, r.attempts, 0, next, completed)];
      ok := true;
    }

    method Abandon(t: Task, now: int)
      modifies this
      ensures rows == if Holds(old(rows), t) then old(rows)[t.id := AbandonedRow(old(rows)[t.id], now)] else old(rows)
    {
      if t.id in rows && rows[t.id].status == Running && rows[t.id].token == t.token {
        var r := rows[t.id];
        rows := rows[t.id := Row(Pending, r.attempts - 1, 0, now, r.completedAt)];
      }
    }

    method Retry(id: int, now: int) returns (error: Option<Error>)
      modifies this
      ensures error == (if id !in old(rows) then Some(NotFound) else if !old(rows)[id].status.Failed? then Some(NotFailed) else None)
      ensures rows == if error == None then old(rows)[id := Inserted(now)] else old(rows)
    {
      if id in rows && rows[id].status == Failed {
        rows := rows[id := Row(Pending, 0, 0, now, None)];
        return None;
      }
      if id !in rows { return Some(NotFound); }
      error := Some(NotFailed);
    }
  }

  /** The delay after the given failed attempt, before jitter, doubles up to its cap. */
  ghost function Doubled(delay: nat, times: nat): nat { if times == 0 then delay else 2 * Doubled(delay, times - 1) }

  function Min(a: nat, b: nat): nat { if a <= b then a else b }

  lemma {:induction false} DoubledGrows(delay: nat, times: nat, more: nat)
    requires times <= more
    ensures Doubled(delay, times) <= Doubled(delay, more)
    decreases more
  {
    if times < more { DoubledGrows(delay, times, more - 1); }
  }

  /** `backoff` in milliseconds; `jitter` is the random addition. */
  method Backoff(least: nat, most: nat, attempt: nat, jitter: nat) returns (delay: nat)
    requires least > 0 && most > 0 && attempt >= 1
    requires var d := Min(Doubled(least, attempt - 1), most); jitter <= d - d / 2
    ensures var d := Min(Doubled(least, attempt - 1), most);
            d / 2 <= delay <= d && delay >= 1 && delay <= most && (delay == d / 2 + jitter || (delay == 1 && d / 2 + jitter == 0))
  {
    delay := least;
    var i := 1;
    while i < attempt && delay < most
      invariant 1 <= i <= attempt && delay == Doubled(least, i - 1)
      invariant delay <= most || delay == least
    {
      if delay > most / 2 {
        DoubledGrows(least, i, attempt - 1);
        delay := most;
        break;
      }
      delay := delay * 2;
      i := i + 1;
    }
    DoubledGrows(least, i - 1, attempt - 1);
    DoubledGrows(least, 0, attempt - 1);
    delay := Min(delay, most);
    assert delay == Min(Doubled(least, attempt - 1), most);
    var half := delay / 2;
    delay := if half + jitter >= 1 then half + jitter else 1;
  }

  // ---------------------------------------------------------------- runs

  /** The table with its history: claims of each row since its insert or its last `Retry` that were not
      given back, the last claim of each row, and every task ever handed out. */
  datatype State = State(
    config: Config, rows: Rows, now: int, unused: Token, claims: map<int, int>, latest: map<int, Task>, tasks: set<Task>)

  datatype Step =
    | Insert(id: int)
    | Claim(picked: set<int>)
    | Finish(task: Task, success: bool, delay: nat)
    | Abandon(task: Task)
    | Retry(id: int)
    | Cleanup(doomed: set<int>)
    | Tick(elapsed: nat)

  ghost predicate Terminal(r: Row) { r.status.Succeeded? || r.status.Failed? }

  ghost predicate Enabled(st: State, step: Step) {
    match step
    case Insert(id) => id !in st.claims
    case Claim(picked) => forall id <- picked :: id in st.rows && Due(st.rows[id], st.now)
    case Finish(t, _, _) => t in st.tasks
    case Abandon(t) => t in st.tasks
    case Retry(id) => id in st.rows && st.rows[id].status.Failed?
    case Cleanup(doomed) => forall id <- doomed :: id in st.rows && Terminal(st.rows[id])
    case Tick(_) => true
  }

  ghost predicate Takes(st: State, picked: set<int>, id: int) { id in picked && id in st.rows && !Exhausted(st.config, st.rows[id]) }

  ghost function TaskFor(st: State, id: int): Task
    requires id in st.rows
  {
    Task(id, st.rows[id].attempts + 1, st.unused)
  }

  ghost function AfterClaim(st: State, picked: set<int>): State {
    st.(rows := map id | id in st.rows :: if id in picked then ClaimedRow(st.config, st.rows[id], st.now, st.unused) else st.rows[id],
    unused := st.unused + 1,
    claims := map id | id in st.claims :: if Takes(st, picked, id) then st.claims[id] + 1 else st.claims[id],
    latest := map id | id in st.latest.Keys + st.rows.Keys && (id in st.latest || Takes(st, picked, id)) ::
      if Takes(st, picked, id) then TaskFor(st, id) else st.latest[id],
    tasks := st.tasks + set id <- picked | Takes(st, picked, id) :: TaskFor(st, id))
  }

  ghost function AfterFinish(st: State, t: Task, success: bool, delay: nat): State {
    if Holds(st.rows, t)
    then st.(rows := st.rows[t.id := FinishedRow(st.rows[t.id], Outcome(st.config, t.attempt, success), delay, st.now)])
    else st
  }

  ghost function AfterAbandon(st: State, t: Task): State {
    if Holds(st.rows, t) && t.id in st.claims
    then st.(rows := st.rows[t.id := AbandonedRow(st.rows[t.id], st.now)], claims := st.claims[t.id := st.claims[t.id] - 1])
    else st
  }

  ghost function Next(st: State, step: Step): State
    requires Enabled(st, step)
  {
    match step
    case Insert(id) => st.(rows := st.rows[id := Inserted(st.now)], claims := st.claims[id := 0])
    case Claim(picked) => AfterClaim(st, picked)
    case Finish(t, success, delay) => AfterFinish(st, t, success, delay)
    case Abandon(t) => AfterAbandon(st, t)
    case Retry(id) => st.(rows := st.rows[id := Inserted(st.now)], claims := st.claims[id := 0])
    case Cleanup(doomed) => st.(rows := st.rows - doomed)
    case Tick(elapsed) => st.(now := st.now + elapsed)
  }

  ghost predicate Valid(st: State, run: seq<Step>)
    decreases run
  {
    run == [] || (Enabled(st, run[0]) && Valid(Next(st, run[0]), run[1..]))
  }

  ghost function After(st: State, run: seq<Step>): State
    requires Valid(st, run)
    decreases run
  {
    if run == [] then st else After(Next(st, run[0]), run[1..])
  }

  ghost predicate Initial(st: State) {
    st.rows == map[] && st.unused == 1 && st.claims == map[] && st.latest == map[] && st.tasks == {}
  }

  // ---------------------------------------------------------------- the invariant

  /** What a row's status says about its other columns. */
  ghost predicate Consistent(c: Config, r: Row) {
    (r.status.Running? <==> r.token != 0) &&
    (r.completedAt.Some? <==> Terminal(r)) &&
    match r.status
    case Pending => 0 <= r.attempts <= c.retries
    case Running => 1 <= r.attempts <= c.retries + 1
    case Succeeded => 1 <= r.attempts <= c.retries + 1
    case Failed => r.attempts == c.retries + 1
  }

  ghost predicate RowInv(st: State, id: int)
    requires id in st.rows
  {
    var r := st.rows[id];
    Consistent(st.config, r) && id in st.claims && st.claims[id] == r.attempts && r.token < st.unused &&
    (r.status.Running? ==> id in st.latest && st.latest[id] == Task(id, r.attempts, r.token))
  }

  ghost predicate TaskInv(st: State, t: Task) {
    0 < t.token < st.unused &&
    (t.id in st.rows && st.rows[t.id].token == t.token ==> t.id in st.latest && st.latest[t.id] == t && t.attempt == st.rows[t.id].attempts)
  }

  ghost predicate Inv(st: State) {
    st.unused > 0 && (forall id <- st.rows :: RowInv(st, id)) && (forall t <- st.tasks :: TaskInv(st, t))
  }

  lemma ClaimKeepsInv(st: State, picked: set<int>)
    requires Inv(st) && forall id <- picked :: id in st.rows && Due(st.rows[id], st.now)
    ensures Inv(AfterClaim(st, picked))
  {
    var st' := AfterClaim(st, picked);
    forall id | id in st'.rows ensures RowInv(st', id) { assert RowInv(st, id); }
    forall t | t in st'.tasks ensures TaskInv(st', t) {
      if t in st.tasks { assert TaskInv(st, t); }
    }
  }

  lemma StepKeepsRow(st: State, step: Step, id: int)
    requires Enabled(st, step) && !step.Claim? && st.unused > 0 && id in Next(st, step).rows && (id in st.rows ==> RowInv(st, id))
    requires step.Finish? || step.Abandon? ==> TaskInv(st, step.task)
    ensures RowInv(Next(st, step), id)
  {
  }

  lemma StepKeepsTask(st: State, step: Step, t: Task)
    requires Enabled(st, step) && !step.Claim? && TaskInv(st, t)
    ensures TaskInv(Next(st, step), t)
  {
  }

  lemma StepKeepsInv(st: State, step: Step)
    requires Inv(st) && Enabled(st, step)
    ensures Inv(Next(st, step))
  {
    if step.Claim? {
      ClaimKeepsInv(st, step.picked);
    } else {
      var st' := Next(st, step);
      assert st'.unused == st.unused && st'.tasks == st.tasks;
      if step.Finish? || step.Abandon? { assert TaskInv(st, step.task); }
      hide RowInv, TaskInv, Next;
      forall id | id in st'.rows ensures RowInv(st', id) { StepKeepsRow(st, step, id); }
      forall t | t in st'.tasks ensures TaskInv(st', t) { StepKeepsTask(st, step, t); }
    }
  }

  lemma {:induction false} RunKeepsInv(st: State, run: seq<Step>)
    requires Inv(st) && Valid(st, run)
    ensures Inv(After(st, run))
    decreases run
  {
    if run != [] {
      StepKeepsInv(st, run[0]);
      RunKeepsInv(Next(st, run[0]), run[1..]);
    }
  }

  // ---------------------------------------------------------------- what every run guarantees

  /** In every run, for every row: running means a nonzero token and an attempt within the budget, pending
      means budget left, `completed_at` is set exactly in the terminal states, failed means the whole budget
      was spent, `attempts` counts the claims not given back, and a due row without budget is a running one
      whose lease expired. */
  lemma RowsStayConsistent(st: State, run: seq<Step>, id: int)
    requires Initial(st) && Valid(st, run) && id in After(st, run).rows
    ensures var st' := After(st, run);
            var r := st'.rows[id];
            Consistent(st'.config, r) && id in st'.claims && r.attempts == st'.claims[id] &&
            (Due(r, st'.now) && Exhausted(st'.config, r) ==> r.status.Running?)
  {
    RunKeepsInv(st, run);
    assert RowInv(After(st, run), id);
  }

  /** A result is accepted exactly from the last claim of a row still running, however late it comes. */
  lemma HoldsExactly(st: State, run: seq<Step>, t: Task)
    requires Initial(st) && Valid(st, run) && t in After(st, run).tasks
    ensures var st' := After(st, run);
            Holds(st'.rows, t) <==>
              t.id in st'.rows && st'.rows[t.id].status.Running? && t.id in st'.latest && st'.latest[t.id] == t
  {
    RunKeepsInv(st, run);
    var st' := After(st, run);
    assert TaskInv(st', t);
    if t.id in st'.rows { assert RowInv(st', t.id); }
  }

  lemma {:induction false} DeadForever(st: State, run: seq<Step>, t: Task)
    requires Valid(st, run) && 0 < t.token < st.unused && !Holds(st.rows, t)
    ensures !Holds(After(st, run).rows, t)
    decreases run
  {
    if run != [] { DeadForever(Next(st, run[0]), run[1..], t); }
  }

  /** A stale token changes nothing, now or in any continuation: after one finish or abandon, and after
      another claim took the row, both operations leave the table as it is. */
  lemma StaleChangesNothing(st: State, run: seq<Step>, more: seq<Step>, t: Task, success: bool, delay: nat)
    requires Initial(st) && Valid(st, run) && t in After(st, run).tasks && !Holds(After(st, run).rows, t)
    requires Valid(After(st, run), more)
    ensures var st' := After(After(st, run), more); AfterFinish(st', t, success, delay) == st' && AfterAbandon(st', t) == st'
  {
    RunKeepsInv(st, run);
    assert TaskInv(After(st, run), t);
    DeadForever(After(st, run), more, t);
  }

  lemma FinishAndAbandonAreLast(st: State, run: seq<Step>, t: Task, success: bool, delay: nat)
    requires Initial(st) && Valid(st, run) && t in After(st, run).tasks
    ensures !Holds(AfterFinish(After(st, run), t, success, delay).rows, t) && !Holds(AfterAbandon(After(st, run), t).rows, t)
  {
    RunKeepsInv(st, run);
    var st' := After(st, run);
    assert TaskInv(st', t);
    if t.id in st'.rows { assert RowInv(st', t.id); }
  }

  /** Abandoning undoes exactly one claim.  A pending row claimed and given back is the row it was, due now
      instead of earlier; a running row whose lease expired, taken over and given back, is pending again with
      the attempts it had; and the count of claims is what it was. */
  lemma AbandonUndoesClaim(st: State, run: seq<Step>, picked: set<int>, id: int)
    requires Initial(st) && Valid(st, run) && id in picked
    requires var s := After(st, run);
             Enabled(s, Claim(picked)) && (s.rows[id].status.Pending? || !Exhausted(s.config, s.rows[id]))
    ensures var s := After(st, run);
            var c := AfterClaim(s, picked);
            id in c.latest && c.latest[id] in c.tasks && Holds(c.rows, c.latest[id]) &&
            var a := AfterAbandon(c, c.latest[id]);
            a.rows[id] == s.rows[id].(status := Pending, token := 0, nextRunAt := s.now) &&
            (s.rows[id].status.Pending? ==> a.rows[id] == s.rows[id].(nextRunAt := s.now)) &&
            id in a.claims && id in s.claims && a.claims[id] == s.claims[id]
  {
    RunKeepsInv(st, run);
    assert RowInv(After(st, run), id);
  }

  // ---------------------------------------------------------------- leases are honoured

  ghost predicate NeverEnds(run: seq<Step>, t: Task) {
    forall i :: 0 <= i < |run| ==> !((run[i].Finish? || run[i].Abandon?) && run[i].task == t)
  }

  ghost predicate Leased(st: State, t: Task, until: int) { t in st.tasks && Holds(st.rows, t) && st.rows[t.id].nextRunAt == until }

  lemma {:induction false} TimeGrows(st: State, run: seq<Step>)
    requires Valid(st, run)
    ensures st.now <= After(st, run).now
    decreases run
  {
    if run != [] { TimeGrows(Next(st, run[0]), run[1..]); }
  }

  lemma LeaseLastsOneStep(st: State, step: Step, t: Task, until: int)
    requires Inv(st) && Enabled(st, step) && Leased(st, t, until) && Next(st, step).now < until
    requires !((step.Finish? || step.Abandon?) && step.task == t)
    ensures Leased(Next(st, step), t, until)
  {
    assert TaskInv(st, t) && RowInv(st, t.id);
    if step.Finish? || step.Abandon? { assert TaskInv(st, step.task); }
  }

  lemma {:induction false} LeaseLasts(st: State, run: seq<Step>, t: Task, until: int)
    requires Inv(st) && Valid(st, run) && Leased(st, t, until) && NeverEnds(run, t) && After(st, run).now < until
    ensures Leased(After(st, run), t, until)
    decreases run
  {
    if run != [] {
      TimeGrows(Next(st, run[0]), run[1..]);
      LeaseLastsOneStep(st, run[0], t, until);
      StepKeepsInv(st, run[0]);
      LeaseLasts(Next(st, run[0]), run[1..], t, until);
    }
  }

  /** A claim is exclusive for its whole lease: until it is finished or abandoned, and as long as less than
      the lease has passed, no step of anyone takes it away. */
  lemma ClaimIsExclusive(st: State, run: seq<Step>, picked: set<int>, id: int, more: seq<Step>)
    requires Initial(st) && Valid(st, run) && Enabled(After(st, run), Claim(picked)) && Takes(After(st, run), picked, id)
    requires var s := After(st, run);
             Valid(AfterClaim(s, picked), more) && NeverEnds(more, TaskFor(s, id)) &&
             After(AfterClaim(s, picked), more).now < s.now + s.config.lease
    ensures Holds(After(AfterClaim(After(st, run), picked), more).rows, TaskFor(After(st, run), id))
  {
    RunKeepsInv(st, run);
    var s := After(st, run);
    ClaimKeepsInv(s, picked);
    TimeGrows(AfterClaim(s, picked), more);
    LeaseLasts(AfterClaim(s, picked), more, TaskFor(s, id), s.now + s.config.lease);
  }
}
