/** The message rows of `pkg/outbox/storage.go` and the leased claims on them.  Each statement or transaction
    is one atomic step at one database time; a random token is a number never used before, 0 the empty one.
    A claim may take any due rows: which ones a query returns depends on order, limit and skipped locks. */
module OutboxMessages {
  import opened Options

  type Token = nat

  datatype Status = Pending | Processing | Succeeded | Failed

  datatype Row = Row(status: Status, attempts: nat, token: Token, until: int, nextAt: int, completedAt: int)

  /** A claimed row as the worker holds it. */
  datatype Task = Task(id: int, attempts: nat, token: Token, until: int)

  type Rows = map<int, Row>

  datatype Config = Config(retries: nat, lease: int, retention: int)

  // ---------------------------------------------------------------- what the statements do

  function Inserted(now: int): Row { Row(Pending, 0, 0, 0, now, 0) }

  predicate Due(r: Row, now: int) {
    (r.status.Pending? && r.nextAt <= now) || (r.status.Processing? && r.until <= now)
  }

  /** The delivery budget is used up. */
  predicate Spent(c: Config, r: Row) { r.attempts >= c.retries + 1 }

  function ClaimedRow(c: Config, r: Row, now: int, token: Token): Row {
    if Spent(c, r) then r.(status := Failed, token := 0, until := 0)
    else r.(status := Processing, attempts := r.attempts + 1, token := token, until := now + c.lease)
  }

  function Claimed(c: Config, rows: Rows, ids: seq<int>, now: int, token: Token): Rows {
    map id | id in rows :: if id in ids then ClaimedRow(c, rows[id], now, token) else rows[id]
  }

  /** The tasks a claim returns: the rows with budget left, as they are after the claim. */
  function TasksOf(c: Config, rows: Rows, ids: seq<int>, now: int, token: Token): seq<Task>
    requires forall id <- ids :: id in rows
  {
    if ids == [] then []
    else
      var last := ids[|ids| - 1];
      TasksOf(c, rows, ids[..|ids| - 1], now, token)
      + if Spent(c, rows[last]) then [] else [Task(last, rows[last].attempts + 1, token, now + c.lease)]
  }

  lemma TasksStep(c: Config, rows: Rows, ids: seq<int>, i: nat, now: int, token: Token)
    requires i < |ids| && forall id <- ids :: id in rows
    ensures ids[i] in rows
    ensures TasksOf(c, rows, ids[..i + 1], now, token)
         == TasksOf(c, rows, ids[..i], now, token)
            + if Spent(c, rows[ids[i]]) then [] else [Task(ids[i], rows[ids[i]].attempts + 1, token, now + c.lease)]
  {
    assert ids[i] in ids;
    var upto := ids[..i + 1];
    assert |upto| == i + 1 && upto[i] == ids[i] && upto[..i] == ids[..i];
    assert forall id <- upto :: id in ids;
  }

  predicate Finishable(rows: Rows, t: Task, now: int) {
    t.id in rows && rows[t.id].status.Processing? && rows[t.id].token == t.token && rows[t.id].until > now
  }

  function FinalStatus(c: Config, t: Task, success: bool): Status {
    if success then Succeeded else if t.attempts >= c.retries + 1 then Failed else Pending
  }

  function FinishedRow(c: Config, r: Row, t: Task, success: bool, delay: nat, now: int): Row {
    var status := FinalStatus(c, t, success);
    Row(status, r.attempts, 0, 0, if status.Pending? then now + delay else 0, if success then now else 0)
  }

  function RetriedRow(r: Row, now: int): Row {
    if r.status.Failed? then Row(Pending, 0, 0, 0, now, 0) else r
  }

  predicate Outdated(c: Config, r: Row, now: int) { r.status.Succeeded? && r.completedAt < now - c.retention }

  // ---------------------------------------------------------------- the table

  datatype Error = NotFound | NotFailed | LeaseLost

  class MessageTable {
    var rows: Rows
    const config: Config

    constructor (config: Config)
      ensures rows == map[] && this.config == config
    {
      rows := map[];
      this.config := config;
    }

    method Insert(id: int, now: int)
      requires id !in rows
      modifies this
      ensures rows == old(rows)[id := Inserted(now)]
    {
      rows := rows[id := Row(Pending, 0, 0, 0, now, 0)];
    }

    /** The loop of `markClaimed`: rows without budget, rows to claim, and the tasks they become. */
    method Sort(ids: seq<int>, now: int, token: Token) returns (exhausted: seq<int>, taken: seq<int>, claimed: seq<Task>)
      requires forall id <- ids :: id in rows
      ensures forall id <- exhausted :: id in ids && Spent(config, rows[id])
      ensures forall id <- taken :: id in ids && !Spent(config, rows[id])
      ensures forall id <- ids :: id in exhausted || id in taken
      ensures claimed == TasksOf(config, rows, ids, now, token)
    {
      exhausted, taken, claimed := [], [], [];
      for i := 0 to |ids|
        invariant forall id <- ids :: id in rows
        invariant forall id <- exhausted :: id in ids && Spent(config, rows[id])
        invariant forall id <- taken :: id in ids && !Spent(config, rows[id])
        invariant forall id <- ids[..i] :: id in exhausted || id in taken
        invariant claimed == TasksOf(config, rows, ids[..i], now, token)
      {
        var next := ids[i];
        assert next in ids;
        assert ids[..i + 1] == ids[..i] + [next];
        var row := rows[next];
        TasksStep(config, rows, ids, i, now, token);
        hide TasksOf;
        if row.attempts >= config.retries + 1 {
          exhausted := exhausted + [ids[i]];
          continue;
        }
        claimed := claimed + [Task(ids[i], row.attempts + 1, token, now + config.lease)];
        taken := taken + [ids[i]];
      }
      assert ids[..|ids|] == ids;
    }

    /** `markClaimed` on the rows a claim query returned: one loop, then one update for each kind. */
    method MarkClaimed(ids: seq<int>, now: int, token: Token) returns (claimed: seq<Task>)
      requires forall id <- ids :: id in rows
      modifies this
      ensures rows == Claimed(config, old(rows), ids, now, token)
      ensures claimed == TasksOf(config, old(rows), ids, now, token)
    {
      hide TasksOf;
      ghost var before := rows;
      var exhausted, taken, tasks := Sort(ids, now, token);
      rows := map id | id in rows :: if id in exhausted then rows[id].(status := Failed, token := 0, until := 0) else rows[id];
      rows := map id | id in rows ::
        if id in taken then rows[id].(status := Processing, attempts := rows[id].attempts + 1, token := token, until := now + config.lease)
        else rows[id];
      forall id | id in before ensures rows[id] == Claimed(config, before, ids, now, token)[id] {
        assert id in ids ==> id in exhausted || id in taken;
      }
      claimed := tasks;
    }

    method Finish(t: Task, success: bool, delay: nat, now: int) returns (status: Option<Status>)
      modifies this
      ensures if Finishable(old(rows), t, now)
              then rows == old(rows)[t.id := FinishedRow(config, old(rows)[t.id], t, success, delay, now)]
                   && status == Some(FinalStatus(config, t, success))
              else rows == old(rows) && status == None
    {
      var outcome, completed, next := Succeeded, now, 0;
      if !success {
        outcome, completed, next := Pending, 0, now + delay;
        if t.attempts >= config.retries + 1 { outcome, next := Failed, 0; }
      }
      if t.id in rows && rows[t.id].status == Processing && rows[t.id].token == t.token && rows[t.id].until > now {
        rows := rows[t.id := Row(outcome, rows[t.id].attempts, 0, 0, next, completed)];
        return Some(outcome);
      }
      status := None;
    }

    method Retry(id: int, now: int) returns (error: Option<Error>)
      modifies this
      ensures error == (if id !in old(rows) then Some(NotFound) else if !old(rows)[id].status.Failed? then Some(NotFailed) else None)
      ensures rows == if id in old(rows) then old(rows)[id := RetriedRow(old(rows)[id], now)] else old(rows)
    {
      if id in rows && rows[id].status == Failed {
        rows := rows[id := Row(Pending, 0, 0, 0, now, 0)];
        return None;
      }
      if id !in rows { return Some(NotFound); }
      error := Some(NotFailed);
    }

    /** Deletes some of the rows that succeeded long enough ago. */
    method Cleanup(ids: set<int>, now: int)
      requires forall id <- ids :: id in rows && Outdated(config, rows[id], now)
      modifies this
      ensures rows == old(rows) - ids
    {
      rows := rows - ids;
    }
  }

  // ---------------------------------------------------------------- runs

  /** The table with its history: claims of each row since its insert or its last `Retry`, the last claim of
      each row, and every task ever handed out. */
  datatype State = State(
    config: Config, rows: Rows, now: int, unused: Token, claims: map<int, nat>, latest: map<int, Task>, tasks: set<Task>)

  datatype Step =
    | Insert(id: int)
    | Claim(ids: seq<int>)
    | Finish(task: Task, success: bool, delay: nat)
    | Retry(id: int)
    | Cleanup(doomed: set<int>)
    | Tick(elapsed: nat)

  ghost predicate Enabled(st: State, step: Step) {
    match step
    case Insert(id) => id !in st.claims
    case Claim(ids) => forall id <- ids :: id in st.rows && Due(st.rows[id], st.now)
    case Finish(t, _, _) => t in st.tasks
    case Retry(id) => id in st.rows
    case Cleanup(ids) => forall id <- ids :: id in st.rows && Outdated(st.config, st.rows[id], st.now)
    case Tick(_) => true
  }

  ghost predicate Takes(st: State, ids: seq<int>, id: int) { id in ids && id in st.rows && !Spent(st.config, st.rows[id]) }

  ghost function TaskFor(st: State, id: int): Task
    requires id in st.rows
  {
    Task(id, st.rows[id].attempts + 1, st.unused, st.now + st.config.lease)
  }

  ghost function AfterClaim(st: State, ids: seq<int>): State
    requires forall id <- ids :: id in st.rows
  {
    st.(rows := Claimed(st.config, st.rows, ids, st.now, st.unused),
    unused := st.unused + 1,
    claims := map id | id in st.claims :: if Takes(st, ids, id) then st.claims[id] + 1 else st.claims[id],
    latest := map id | id in st.latest.Keys + st.rows.Keys && (id in st.latest || Takes(st, ids, id)) ::
      if Takes(st, ids, id) then TaskFor(st, id) else st.latest[id],
    tasks := st.tasks + set t <- TasksOf(st.config, st.rows, ids, st.now, st.unused))
  }

  ghost function AfterFinish(st: State, t: Task, success: bool, delay: nat): State {
    if Finishable(st.rows, t, st.now)
    then st.(rows := st.rows[t.id := FinishedRow(st.config, st.rows[t.id], t, success, delay, st.now)])
    else st
  }

  ghost function AfterRetry(st: State, id: int): State
    requires id in st.rows
  {
    st.(rows := st.rows[id := RetriedRow(st.rows[id], st.now)],
    claims := if st.rows[id].status.Failed? then st.claims[id := 0] else st.claims)
  }

  ghost function Next(st: State, step: Step): State
    requires Enabled(st, step)
  {
    match step
    case Insert(id) => st.(rows := st.rows[id := Inserted(st.now)], claims := st.claims[id := 0])
    case Claim(ids) => AfterClaim(st, ids)
    case Finish(t, success, delay) => AfterFinish(st, t, success, delay)
    case Retry(id) => AfterRetry(st, id)
    case Cleanup(ids) => st.(rows := st.rows - ids)
    case Tick(elapsed) => st.(now := st.now + elapsed)
  }

  ghost predicate Valid(st: State, run: seq<Step>)
    decreases run
  {
    run == [] || (Enabled(st, run[0]) && Valid(Next(st, run[0]), run[1..]))
  }

  ghost function After(st: State, run: seq<Step>): State
    requires Valid(st, run)
    decreases run
  {
    if run == [] then st else After(Next(st, run[0]), run[1..])
  }

  ghost predicate Initial(st: State) {
    st.rows == map[] && st.now > 0 && st.unused == 1 && st.claims == map[] && st.latest == map[] && st.tasks == {} && st.config.lease > 0
  }

  // ---------------------------------------------------------------- the invariant

  /** What a row's status says about its other columns. */
  ghost predicate Consistent(c: Config, r: Row) {
    (r.status.Processing? <==> r.token != 0) &&
    (r.completedAt != 0 <==> r.status.Succeeded?) &&
    match r.status
    case Pending => r.attempts <= c.retries
    case Processing => 1 <= r.attempts <= c.retries + 1
    case Succeeded => 1 <= r.attempts <= c.retries + 1
    case Failed => r.attempts == c.retries + 1
  }

  /** The last claim of a processing row is the one its columns show. */
  ghost predicate Current(st: State, id: int)
    requires id in st.rows
  {
    var r := st.rows[id];
    r.status.Processing? ==> id in st.latest && st.latest[id] == Task(id, r.attempts, r.token, r.until)
  }

  ghost predicate RowInv(st: State, id: int)
    requires id in st.rows
  {
    Consistent(st.config, st.rows[id]) && id in st.claims && st.claims[id] == st.rows[id].attempts &&
    st.rows[id].token < st.unused && Current(st, id)
  }

  /** A row carries a token only of the task that got it. */
  ghost predicate TaskInv(st: State, t: Task) {
    0 < t.token < st.unused &&
    (t.id in st.rows && st.rows[t.id].token == t.token ==>
      t.id in st.latest && st.latest[t.id] == t && t.attempts == st.rows[t.id].attempts && t.until == st.rows[t.id].until)
  }

  ghost predicate Inv(st: State) {
    st.now > 0 && st.unused > 0 && (forall id <- st.rows :: RowInv(st, id)) && (forall t <- st.tasks :: TaskInv(st, t))
  }

  lemma {:induction false} TasksAreTaken(c: Config, rows: Rows, ids: seq<int>, now: int, token: Token, t: Task)
    requires forall id <- ids :: id in rows
    ensures t in TasksOf(c, rows, ids, now, token) <==>
              t.id in ids && !Spent(c, rows[t.id]) && t == Task(t.id, rows[t.id].attempts + 1, token, now + c.lease)
  {
    if ids != [] {
      var init, last := ids[..|ids| - 1], ids[|ids| - 1];
      assert ids == init + [last];
      TasksAreTaken(c, rows, init, now, token, t);
    }
  }

  lemma ClaimKeepsRow(st: State, ids: seq<int>, id: int)
    requires (forall i <- ids :: i in st.rows && Due(st.rows[i], st.now)) && id in st.rows && RowInv(st, id) && st.unused > 0
    ensures id in AfterClaim(st, ids).rows && RowInv(AfterClaim(st, ids), id)
  {
  }

  lemma ClaimKeepsTask(st: State, ids: seq<int>, t: Task)
    requires (forall i <- ids :: i in st.rows && Due(st.rows[i], st.now)) && st.unused > 0
    requires t in st.tasks ==> TaskInv(st, t)
    requires t in AfterClaim(st, ids).tasks
    ensures TaskInv(AfterClaim(st, ids), t)
  {
    TasksAreTaken(st.config, st.rows, ids, st.now, st.unused, t);
  }

  lemma ClaimKeepsInv(st: State, ids: seq<int>)
    requires Inv(st) && forall i <- ids :: i in st.rows && Due(st.rows[i], st.now)
    ensures Inv(AfterClaim(st, ids))
  {
    var st' := AfterClaim(st, ids);
    assert st'.rows.Keys == st.rows.Keys;
    forall id | id in st'.rows ensures RowInv(st', id) { ClaimKeepsRow(st, ids, id); }
    forall t | t in st'.tasks ensures TaskInv(st', t) { ClaimKeepsTask(st, ids, t); }
  }

  lemma FinishKeepsInv(st: State, t: Task, success: bool, delay: nat)
    requires Inv(st) && t in st.tasks
    ensures Inv(AfterFinish(st, t, success, delay))
  {
    var st' := AfterFinish(st, t, success, delay);
    assert TaskInv(st, t);
    forall id | id in st'.rows ensures RowInv(st', id) { assert RowInv(st, id); }
    forall u | u in st'.tasks ensures TaskInv(st', u) { assert TaskInv(st, u); }
  }

  lemma StepKeepsInv(st: State, step: Step)
    requires Inv(st) && Enabled(st, step)
    ensures Inv(Next(st, step))
  {
    match step
    case Claim(ids) => ClaimKeepsInv(st, ids);
    case Finish(t, success, delay) => FinishKeepsInv(st, t, success, delay);
    case _ =>
      var st' := Next(st, step);
      forall id | id in st'.rows ensures RowInv(st', id) { if id in st.rows { assert RowInv(st, id); } }
      forall u | u in st'.tasks ensures TaskInv(st', u) { assert TaskInv(st, u); }
  }

  lemma {:induction false} RunKeepsInv(st: State, run: seq<Step>)
    requires Inv(st) && Valid(st, run)
    ensures Inv(After(st, run))
    decreases run
  {
    if run != [] {
      StepKeepsInv(st, run[0]);
      RunKeepsInv(Next(st, run[0]), run[1..]);
    }
  }

  // ---------------------------------------------------------------- what every run guarantees

  /** In every run, for every row: it is processing exactly when it holds a token, `completed_at` is set
      exactly when it succeeded, `attempts` counts the claims since insert or `Retry` and never exceeds the
      budget, a pending row has budget left, and a due row without budget is an expired processing row. */
  lemma RowsStayConsistent(st: State, run: seq<Step>, id: int)
    requires Initial(st) && Valid(st, run) && id in After(st, run).rows
    ensures var st' := After(st, run);
            var r := st'.rows[id];
            Consistent(st'.config, r) && id in st'.claims && r.attempts == st'.claims[id] <= st'.config.retries + 1 &&
            (Due(r, st'.now) && Spent(st'.config, r) ==> r.status.Processing? && r.until <= st'.now)
  {
    RunKeepsInv(st, run);
    assert RowInv(After(st, run), id);
  }

  /** A finish takes effect exactly for the last claim of a row still processing, before its lease ends. */
  lemma FinishExactly(st: State, run: seq<Step>, t: Task)
    requires Initial(st) && Valid(st, run) && t in After(st, run).tasks
    ensures var st' := After(st, run);
            Finishable(st'.rows, t, st'.now) <==>
              t.id in st'.rows && st'.rows[t.id].status.Processing? && t.id in st'.latest && st'.latest[t.id] == t && st'.now < t.until
  {
    RunKeepsInv(st, run);
    var st' := After(st, run);
    assert TaskInv(st', t);
    if t.id in st'.rows { assert RowInv(st', t.id); }
  }

  lemma DeadOneStep(st: State, step: Step, t: Task)
    requires Enabled(st, step) && 0 < t.token < st.unused && !Finishable(st.rows, t, st.now)
    ensures !Finishable(Next(st, step).rows, t, Next(st, step).now) && st.unused <= Next(st, step).unused
  {
  }

  lemma {:induction false} DeadForever(st: State, run: seq<Step>, t: Task)
    requires Valid(st, run) && 0 < t.token < st.unused && !Finishable(st.rows, t, st.now)
    ensures !Finishable(After(st, run).rows, t, After(st, run).now)
    decreases run
  {
    if run != [] {
      DeadOneStep(st, run[0], t);
      DeadForever(Next(st, run[0]), run[1..], t);
    }
  }

  /** Each claim finishes at most once: after a finish, and after a claim has been lost, nothing its task
      does has any effect, in any continuation. */
  lemma FinishedOnce(st: State, run: seq<Step>, more: seq<Step>, t: Task, success: bool, delay: nat)
    requires Initial(st) && Valid(st, run) && t in After(st, run).tasks
    requires Valid(AfterFinish(After(st, run), t, success, delay), more)
    ensures var st' := After(AfterFinish(After(st, run), t, success, delay), more); !Finishable(st'.rows, t, st'.now)
  {
    RunKeepsInv(st, run);
    assert TaskInv(After(st, run), t);
    DeadForever(AfterFinish(After(st, run), t, success, delay), more, t);
  }

  /** A row disappears only after it succeeded and its retention passed. */
  lemma OnlySucceededVanish(st: State, step: Step, id: int)
    requires Enabled(st, step) && id in st.rows && id !in Next(st, step).rows
    ensures st.rows[id].status.Succeeded? && st.rows[id].completedAt < st.now - st.config.retention
  {
  }

  // ---------------------------------------------------------------- leases and delays are honoured

  ghost predicate NeverFinishes(run: seq<Step>, t: Task) { forall i :: 0 <= i < |run| ==> !(run[i].Finish? && run[i].task == t) }

  lemma {:induction false} TimeGrows(st: State, run: seq<Step>)
    requires Valid(st, run)
    ensures st.now <= After(st, run).now
    decreases run
  {
    if run != [] { TimeGrows(Next(st, run[0]), run[1..]); }
  }

  lemma ClaimLastsOneStep(st: State, step: Step, t: Task)
    requires Inv(st) && Enabled(st, step) && t in st.tasks && Finishable(st.rows, t, st.now)
    requires !(step.Finish? && step.task == t) && Next(st, step).now < t.until
    ensures Finishable(Next(st, step).rows, t, Next(st, step).now)
  {
    assert TaskInv(st, t) && RowInv(st, t.id);
    if step.Finish? { assert TaskInv(st, step.task); }
  }

  lemma {:induction false} ClaimLasts(st: State, run: seq<Step>, t: Task)
    requires Inv(st) && Valid(st, run) && t in st.tasks && Finishable(st.rows, t, st.now)
    requires NeverFinishes(run, t) && After(st, run).now < t.until
    ensures Finishable(After(st, run).rows, t, After(st, run).now)
    decreases run
  {
    if run != [] {
      TimeGrows(Next(st, run[0]), run[1..]);
      ClaimLastsOneStep(st, run[0], t);
      StepKeepsInv(st, run[0]);
      assert t in Next(st, run[0]).tasks;
      ClaimLasts(Next(st, run[0]), run[1..], t);
    }
  }

  /** A claim is exclusive for its whole lease: until it is finished, and as long as less than the lease has
      passed, no step of anyone takes it away. */
  lemma ClaimIsExclusive(st: State, run: seq<Step>, ids: seq<int>, id: int, more: seq<Step>)
    requires Initial(st) && Valid(st, run) && Enabled(After(st, run), Claim(ids)) && Takes(After(st, run), ids, id)
    requires var s := After(st, run);
             Valid(AfterClaim(s, ids), more) && NeverFinishes(more, TaskFor(s, id)) &&
             After(AfterClaim(s, ids), more).now < s.now + s.config.lease
    ensures var s := After(st, run);
            var s' := After(AfterClaim(s, ids), more);
            Finishable(s'.rows, TaskFor(s, id), s'.now)
  {
    RunKeepsInv(st, run);
    var s := After(st, run);
    ClaimKeepsInv(s, ids);
    TasksAreTaken(s.config, s.rows, ids, s.now, s.unused, TaskFor(s, id));
    TimeGrows(AfterClaim(s, ids), more);
    ClaimLasts(AfterClaim(s, ids), more, TaskFor(s, id));
  }

  /** The row waits, unclaimed, for its next attempt. */
  ghost predicate Resting(st: State, id: int, r: Row) { id in st.claims && id in st.rows && st.rows[id] == r && r.status.Pending? }

  lemma {:induction false} DelayIsHonoured(st: State, run: seq<Step>, id: int, r: Row)
    requires Inv(st) && Valid(st, run) && Resting(st, id, r) && After(st, run).now < r.nextAt
    ensures Resting(After(st, run), id, r)
    decreases run
  {
    if run != [] {
      TimeGrows(Next(st, run[0]), run[1..]);
      StepKeepsInv(st, run[0]);
      assert Resting(Next(st, run[0]), id, r) by {
        if run[0].Finish? { assert TaskInv(st, run[0].task) && RowInv(st, id); }
      }
      DelayIsHonoured(Next(st, run[0]), run[1..], id, r);
    }
  }

  /** A failed delivery with budget left is not tried again before its delay has passed. */
  lemma NoRetryBeforeDelay(st: State, run: seq<Step>, t: Task, delay: nat, more: seq<Step>)
    requires Initial(st) && Valid(st, run) && t in After(st, run).tasks && t.attempts <= After(st, run).config.retries
    requires Finishable(After(st, run).rows, t, After(st, run).now)
    requires var s := After(st, run);
             Valid(AfterFinish(s, t, false, delay), more) && After(AfterFinish(s, t, false, delay), more).now < s.now + delay
    ensures var s' := After(AfterFinish(After(st, run), t, false, delay), more);
            t.id in s'.rows && s'.rows[t.id].status.Pending? && s'.rows[t.id].attempts == t.attempts
  {
    RunKeepsInv(st, run);
    var s := After(st, run);
    assert TaskInv(s, t) && RowInv(s, t.id);
    FinishKeepsInv(s, t, false, delay);
    var f := AfterFinish(s, t, false, delay);
    DelayIsHonoured(f, more, t.id, f.rows[t.id]);
  }
}
