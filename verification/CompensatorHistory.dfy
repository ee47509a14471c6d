/** A row of the task queue, told from the statements of a run alone: no column is read here, only which
    statements came, in which order and when. */
module CompensatorHistory {
  import opened Options
  import opened Compensator

  // ---------------------------------------------------------------- runs step by step

  lemma {:induction false} RunSplits(st: State, run: seq<Step>, n: nat)
    requires n <= |run| && Valid(st, run)
    ensures Valid(st, run[..n]) && Valid(After(st, run[..n]), run[n..])
    ensures After(st, run) == After(After(st, run[..n]), run[n..])
    decreases run
  {
    if n == 0 {
      assert run[..0] == [] && run[0..] == run;
    } else {
      RunSplits(Next(st, run[0]), run[1..], n - 1);
      assert run[..n][0] == run[0] && run[..n][1..] == run[1..][..n - 1] && run[1..][n - 1..] == run[n..];
    }
  }

  /** The table before step `n` of a run. */
  ghost function At(st: State, run: seq<Step>, n: nat): State
    requires n <= |run| && Valid(st, run)
  {
    RunSplits(st, run, n);
    After(st, run[..n])
  }

  lemma StepAt(st: State, run: seq<Step>, n: nat)
    requires n < |run| && Valid(st, run)
    ensures Enabled(At(st, run, n), run[n]) && At(st, run, n + 1) == Next(At(st, run, n), run[n])
  {
    RunSplits(st, run, n + 1);
    var upTo := run[..n + 1];
    RunSplits(st, upTo, n);
    assert upTo[..n] == run[..n] && upTo[n..] == [run[n]];
    var mid := At(st, run, n);
    assert Valid(mid, [run[n]]);
    assert After(Next(mid, run[n]), []) == Next(mid, run[n]);
  }

  lemma InvAt(st: State, run: seq<Step>, n: nat)
    requires Initial(st) && n <= |run| && Valid(st, run)
    ensures Inv(At(st, run, n))
  {
    RunSplits(st, run, n);
    RunKeepsInv(st, run[..n]);
  }

  // ---------------------------------------------------------------- the history of a row

  ghost function Clock(st: State, run: seq<Step>, n: nat): int
    requires n <= |run|
  {
    if n == 0 then st.now else Clock(st, run, n - 1) + if run[n - 1].Tick? then run[n - 1].elapsed else 0
  }

  /** The token of a claim at step `n`: each claim has one of its own. */
  ghost function TokenAt(run: seq<Step>, n: nat): Token
    requires n <= |run|
  {
    if n == 0 then 1 else TokenAt(run, n - 1) + if run[n - 1].Claim? then 1 else 0
  }

  /** Executions counted against the budget: claims since the insert or the last `Retry`, less those given
      back. */
  ghost function Used(c: Config, run: seq<Step>, n: nat, id: int): int
    requires n <= |run|
    decreases n, 0
  {
    if n == 0 then 0
    else if !Concerns(c, run, n - 1, id) then Used(c, run, n - 1, id)
    else match run[n - 1]
    case Claim(_) => if Spent(c, run, n - 1, id) then Used(c, run, n - 1, id) else Used(c, run, n - 1, id) + 1
    case Abandon(_) => Used(c, run, n - 1, id) - 1
    case Finish(_, _, _) => Used(c, run, n - 1, id)
    case _ => 0
  }

  ghost predicate Spent(c: Config, run: seq<Step>, n: nat, id: int)
    requires n <= |run|
    decreases n, 1
  {
    Used(c, run, n, id) >= c.retries + 1
  }

  /** Step `n` has an effect on the row. */
  ghost predicate Concerns(c: Config, run: seq<Step>, n: nat, id: int)
    requires n < |run|
    decreases n, 2
  {
    match run[n]
    case Insert(x) => x == id
    case Retry(x) => x == id
    case Claim(picked) => id in picked
    case Finish(t, _, _) => t.id == id && InForce(c, run, n, t)
    case Abandon(t) => t.id == id && InForce(c, run, n, t)
    case _ => false
  }

  /** The last thing that happened to the row is the claim with this task's token. */
  ghost predicate InForce(c: Config, run: seq<Step>, n: nat, t: Task)
    requires n <= |run|
    decreases n, 1
  {
    var j := Last(c, run, n, t.id);
    j >= 0 && run[j].Claim? && !Spent(c, run, j, t.id) && t.token == TokenAt(run, j)
  }

  /** The last step with an effect on the row, or -1 when there is no such row. */
  ghost function Last(c: Config, run: seq<Step>, n: nat, id: int): (r: int)
    requires n <= |run|
    ensures -1 <= r < n
    ensures r >= 0 ==> Concerns(c, run, r, id)
    decreases n, 0
  {
    if n == 0 || (run[n - 1].Cleanup? && id in run[n - 1].doomed) then -1
    else if Concerns(c, run, n - 1, id) then n - 1
    else Last(c, run, n - 1, id)
  }

  // ---------------------------------------------------------------- the row shows its history

  /** The row after step `j`, the last one with an effect on it. */
  ghost predicate Shows(st: State, run: seq<Step>, j: nat, id: int, r: Row)
    requires j < |run|
  {
    var c, now := st.config, Clock(st, run, j);
    match run[j]
    case Claim(_) =>
      if Spent(c, run, j, id) then r.status == Failed && r.completedAt == Some(now)
      else r.status == Running && r.token == TokenAt(run, j) && r.nextRunAt == now + c.lease && r.completedAt == None
    case Finish(_, success, delay) =>
      if success then r.status == Succeeded && r.completedAt == Some(now)
      else if Spent(c, run, j, id) then r.status == Failed && r.completedAt == Some(now)
      else r.status == Pending && r.nextRunAt == now + delay && r.completedAt == None
    case _ => r.status == Pending && r.nextRunAt == now && r.completedAt == None
  }

  ghost predicate Told(st: State, run: seq<Step>, n: nat, id: int)
    requires n <= |run| && Valid(st, run)
  {
    var rows, j := At(st, run, n).rows, Last(st.config, run, n, id);
    (id in rows <==> j >= 0) && (id in rows ==> rows[id].attempts == Used(st.config, run, n, id) && Shows(st, run, j, id, rows[id]))
  }

  lemma {:induction false} StateTells(st: State, run: seq<Step>, n: nat)
    requires Initial(st) && n <= |run| && Valid(st, run)
    ensures var mid := At(st, run, n); mid.now == Clock(st, run, n) && mid.unused == TokenAt(run, n) && mid.config == st.config
  {
    if n > 0 {
      StateTells(st, run, n - 1);
      StepAt(st, run, n - 1);
    }
  }

  lemma HoldsTells(st: State, run: seq<Step>, n: nat, t: Task)
    requires Initial(st) && n <= |run| && Valid(st, run) && Told(st, run, n, t.id) && t in At(st, run, n).tasks
    ensures Holds(At(st, run, n).rows, t) <==> InForce(st.config, run, n, t)
  {
    InvAt(st, run, n);
    assert TaskInv(At(st, run, n), t);
    hide At, Valid, Used, Clock, TokenAt, Last, Concerns, Inv, RowInv;
  }

  /** What one step does to a row it has an effect on. */
  ghost predicate Stepped(st: State, step: Step, id: int, rows': Rows) {
    var rows := st.rows;
    match step
    case Insert(x) => x == id ==> id !in rows && id in rows' && rows'[id] == Row(Pending, 0, 0, st.now, None)
    case Retry(x) => x == id ==> id in rows && id in rows' && rows'[id] == Row(Pending, 0, 0, st.now, None)
    case Claim(picked) =>
      id in picked ==>
        id in rows && id in rows' &&
        if rows[id].attempts >= st.config.retries + 1
        then rows'[id].status == Failed && rows'[id].completedAt == Some(st.now) && rows'[id].attempts == rows[id].attempts
        else rows'[id] == Row(Running, rows[id].attempts + 1, st.unused, st.now + st.config.lease, None)
    case Finish(t, success, delay) =>
      t.id == id && Holds(rows, t) ==>
        id in rows && id in rows' && rows'[id].attempts == rows[id].attempts &&
        if success then rows'[id].status == Succeeded && rows'[id].completedAt == Some(st.now)
        else if rows[id].attempts >= st.config.retries + 1 then rows'[id].status == Failed && rows'[id].completedAt == Some(st.now)
        else rows'[id].status == Pending && rows'[id].nextRunAt == st.now + delay && rows'[id].completedAt == None
    case Abandon(t) =>
      t.id == id && Holds(rows, t) ==>
        id in rows && id in rows' && rows'[id].attempts == rows[id].attempts - 1 &&
        rows'[id].status == Pending && rows'[id].nextRunAt == st.now && rows'[id].completedAt == None
    case Cleanup(doomed) => id in doomed ==> id !in rows'
    case Tick(_) => true
  }

  ghost predicate Untouched(st: State, step: Step, id: int) {
    match step
    case Insert(x) => x != id
    case Retry(x) => x != id
    case Claim(picked) => id !in picked
    case Finish(t, _, _) => t.id != id || !Holds(st.rows, t)
    case Abandon(t) => t.id != id || !Holds(st.rows, t)
    case Cleanup(doomed) => id !in doomed
    case Tick(_) => true
  }

  lemma StepRow(st: State, step: Step, id: int)
    requires Inv(st) && Enabled(st, step)
    ensures Stepped(st, step, id, Next(st, step).rows)
    ensures Untouched(st, step, id) ==>
              (id in st.rows <==> id in Next(st, step).rows) && (id in st.rows ==> Next(st, step).rows[id] == st.rows[id])
  {
    if id in st.rows { assert RowInv(st, id); }
    if step.Finish? || step.Abandon? { assert TaskInv(st, step.task); }
  }

  lemma ConcernedShows(st: State, run: seq<Step>, i: nat, id: int, mid: State, rows': Rows)
    requires i < |run| && Concerns(st.config, run, i, id) && Stepped(mid, run[i], id, rows')
    requires mid.now == Clock(st, run, i) && mid.unused == TokenAt(run, i) && mid.config == st.config
    requires run[i].Finish? || run[i].Abandon? ==> Holds(mid.rows, run[i].task)
    requires id in mid.rows ==> mid.rows[id].attempts == Used(st.config, run, i, id)
    ensures id in rows' && rows'[id].attempts == Used(st.config, run, i + 1, id) && Shows(st, run, i, id, rows'[id])
  {
    hide Clock, TokenAt, Holds, InForce;
  }

  lemma LastStep(c: Config, run: seq<Step>, i: nat, id: int)
    requires i < |run|
    ensures Last(c, run, i + 1, id) ==
            if run[i].Cleanup? && id in run[i].doomed then -1 else if Concerns(c, run, i, id) then i else Last(c, run, i, id)
    ensures !Concerns(c, run, i, id) ==> Used(c, run, i + 1, id) == Used(c, run, i, id)
  {
    hide InForce;
  }

  /** In every run, a row exists exactly when something happened to it since it was last deleted, its
      `attempts` are the claims counted against the budget, and it shows the last thing that happened: due
      at once after an insert, a `Retry` or an abandon; running until its lease ends after a claim with
      budget left; succeeded after a success; pending until the delay has passed after a failure with budget
      left; failed after a failure or a takeover without. */
  lemma {:induction false} RowShowsHistory(st: State, run: seq<Step>, n: nat, id: int)
    requires Initial(st) && n <= |run| && Valid(st, run)
    ensures Told(st, run, n, id)
  {
    if n > 0 {
      RowShowsHistory(st, run, n - 1, id);
      StepAt(st, run, n - 1);
      StateTells(st, run, n - 1);
      InvAt(st, run, n - 1);
      var mid, step := At(st, run, n - 1), run[n - 1];
      if (step.Finish? || step.Abandon?) && step.task.id == id { HoldsTells(st, run, n - 1, step.task); }
      StepRow(mid, step, id);
      hide At, Valid, Next, Enabled, Inv, InForce, Clock, TokenAt, Holds, Used, Last, Shows, Stepped;
      LastStep(st.config, run, n - 1, id);
      if Concerns(st.config, run, n - 1, id) { ConcernedShows(st, run, n - 1, id, mid, At(st, run, n).rows); }
    }
  }

  // ---------------------------------------------------------------- what follows

  /** A claim hands out exactly the picked rows with budget left, with their executions so far plus one and
      the token of the claim. */
  ghost predicate HandedOut(c: Config, run: seq<Step>, j: nat, t: Task) {
    j < |run| && run[j].Claim? && t.id in run[j].picked && !Spent(c, run, j, t.id) && t == Task(t.id, Used(c, run, j, t.id) + 1, TokenAt(run, j))
  }

  lemma TasksTell(st: State, run: seq<Step>, i: nat, t: Task)
    requires Initial(st) && i < |run| && Valid(st, run)
    ensures t in At(st, run, i + 1).tasks <==> t in At(st, run, i).tasks || HandedOut(st.config, run, i, t)
  {
    hide At, Valid, Clock, Used, Last, Shows, TokenAt;
    StepAt(st, run, i);
    StateTells(st, run, i);
    RowShowsHistory(st, run, i, t.id);
  }

  lemma {:induction false} TasksExactly(st: State, run: seq<Step>, n: nat, t: Task)
    requires Initial(st) && n <= |run| && Valid(st, run)
    ensures t in At(st, run, n).tasks <==> exists j :: 0 <= j < n && HandedOut(st.config, run, j, t)
  {
    hide Valid, HandedOut;
    if n > 0 {
      TasksExactly(st, run, n - 1, t);
      TasksTell(st, run, n - 1, t);
    }
  }

  /** The result of a task is accepted exactly while its claim is the last thing that happened to the row. */
  lemma AcceptedExactly(st: State, run: seq<Step>, n: nat, t: Task)
    requires Initial(st) && n <= |run| && Valid(st, run) && t in At(st, run, n).tasks
    ensures Holds(At(st, run, n).rows, t) <==> InForce(st.config, run, n, t)
  {
    RowShowsHistory(st, run, n, t.id);
    HoldsTells(st, run, n, t);
  }

  /** A row has succeeded exactly when the last thing that happened to it is a success reported for its
      latest claim, and failed exactly when it is a failure or a takeover with the budget spent. */
  lemma FinalExactly(st: State, run: seq<Step>, n: nat, id: int)
    requires Initial(st) && n <= |run| && Valid(st, run)
    ensures var rows, c, j := At(st, run, n).rows, st.config, Last(st.config, run, n, id);
            (id in rows && rows[id].status.Succeeded? <==> j >= 0 && run[j].Finish? && run[j].success) &&
            (id in rows && rows[id].status.Failed? <==>
              j >= 0 && Spent(c, run, j, id) && (run[j].Claim? || (run[j].Finish? && !run[j].success)))
  {
    RowShowsHistory(st, run, n, id);
    hide At, Valid, Clock, Used;
  }

  /** The row can be claimed: at once after an insert, a `Retry` or an abandon, after the delay of a failure
      with budget left, after the lease of a claim. */
  ghost predicate Claimable(st: State, run: seq<Step>, n: nat, id: int)
    requires n <= |run|
  {
    var c, j := st.config, Last(st.config, run, n, id);
    j >= 0 &&
    match run[j]
    case Claim(_) => !Spent(c, run, j, id) && Clock(st, run, j) + c.lease <= Clock(st, run, n)
    case Finish(_, success, delay) => !success && !Spent(c, run, j, id) && Clock(st, run, j) + delay <= Clock(st, run, n)
    case _ => true
  }

  lemma ClaimableExactly(st: State, run: seq<Step>, n: nat, id: int)
    requires Initial(st) && n <= |run| && Valid(st, run)
    ensures Enabled(At(st, run, n), Claim({id})) <==> Claimable(st, run, n, id)
  {
    RowShowsHistory(st, run, n, id);
    StateTells(st, run, n);
    var j := Last(st.config, run, n, id);
    if j >= 0 { ClockGrows(st, run, j, n); }
    hide At, Valid, Clock, Used, TokenAt, Last;
  }

  lemma {:induction false} ClockGrows(st: State, run: seq<Step>, j: nat, n: nat)
    requires j <= n <= |run|
    ensures Clock(st, run, j) <= Clock(st, run, n)
  {
    if j < n { ClockGrows(st, run, j, n - 1); }
  }

  /** After a failure with budget left nothing happens to the row before its delay has passed. */
  lemma {:induction false} NoRetryBeforeDelay(st: State, run: seq<Step>, i: nat, n: nat, id: int)
    requires Initial(st) && i < n <= |run| && Valid(st, run) && Concerns(st.config, run, i, id)
    requires run[i].Finish? && !run[i].success && !Spent(st.config, run, i, id) && Clock(st, run, n) < Clock(st, run, i) + run[i].delay
    ensures Last(st.config, run, n, id) == i && Used(st.config, run, n, id) == Used(st.config, run, i, id)
    ensures id in At(st, run, n).rows && At(st, run, n).rows[id].status == Pending
  {
    RowShowsHistory(st, run, n, id);
    LastStep(st.config, run, n - 1, id);
    if n == i + 1 {
      assert Used(st.config, run, n, id) == Used(st.config, run, i, id);
      hide Last, Used;
    } else {
      ClockGrows(st, run, n - 1, n);
      NoRetryBeforeDelay(st, run, i, n - 1, id);
      RestsOneStep(st, run, i, n - 1, id);
    }
    hide At, Valid, Clock, Concerns, TokenAt, InForce, Last, Used;
  }

  lemma RestsOneStep(st: State, run: seq<Step>, i: nat, n: nat, id: int)
    requires Initial(st) && i < n < |run| && Valid(st, run) && Last(st.config, run, n, id) == i
    requires run[i].Finish? && !run[i].success && !Spent(st.config, run, i, id) && Clock(st, run, n) < Clock(st, run, i) + run[i].delay
    ensures !Concerns(st.config, run, n, id) && Last(st.config, run, n + 1, id) == i && Used(st.config, run, n + 1, id) == Used(st.config, run, n, id)
  {
    RowShowsHistory(st, run, n, id);
    StepAt(st, run, n);
    StateTells(st, run, n);
    InvAt(st, run, n);
    assert RowInv(At(st, run, n), id);
    LastStep(st.config, run, n, id);
    assert At(st, run, n).rows[id].status == Pending && At(st, run, n).rows[id].nextRunAt > At(st, run, n).now;
    assert forall t: Task :: t.id == id ==> !InForce(st.config, run, n, t);
    hide At, Valid, Clock, Used, TokenAt, Last, Inv, Told, Shows, InForce, Next, RowInv;
  }
}
