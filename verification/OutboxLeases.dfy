/** Who holds a shard of `pkg/outbox/storage.go`, told from the transactions of a run alone. */
module OutboxLeases {
  import opened OutboxAssignment
  import opened OutboxShards

  // ---------------------------------------------------------------- runs step by step

  lemma {:induction false} RunSplits(st: State, run: seq<Step>, n: nat)
    requires n <= |run| && Valid(st, run)
    ensures Valid(st, run[..n]) && Valid(After(st, run[..n]), run[n..])
    ensures After(st, run) == After(After(st, run[..n]), run[n..])
    decreases run
  {
    if n == 0 {
      assert run[..0] == [] && run[0..] == run;
    } else {
      RunSplits(Next(st, run[0]), run[1..], n - 1);
      assert run[..n][0] == run[0] && run[..n][1..] == run[1..][..n - 1] && run[1..][n - 1..] == run[n..];
    }
  }

  /** The tables before step `n` of a run. */
  ghost function At(st: State, run: seq<Step>, n: nat): State
    requires n <= |run| && Valid(st, run)
  {
    RunSplits(st, run, n);
    After(st, run[..n])
  }

  lemma StepAt(st: State, run: seq<Step>, n: nat)
    requires n < |run| && Valid(st, run)
    ensures Enabled(At(st, run, n), run[n]) && At(st, run, n + 1) == Next(At(st, run, n), run[n])
  {
    RunSplits(st, run, n + 1);
    var upTo := run[..n + 1];
    RunSplits(st, upTo, n);
    assert upTo[..n] == run[..n] && upTo[n..] == [run[n]];
    var mid := At(st, run, n);
    assert Valid(mid, [run[n]]);
    assert After(Next(mid, run[n]), []) == Next(mid, run[n]);
  }

  lemma SaneAt(st: State, run: seq<Step>, n: nat)
    requires Initial(st) && n <= |run| && Valid(st, run)
    ensures Sane(At(st, run, n)) && At(st, run, n).lease == st.lease
  {
    RunSplits(st, run, n);
    RunStaysSane(st, run[..n]);
  }

  // ---------------------------------------------------------------- what the transactions tell

  ghost function Clock(st: State, run: seq<Step>, n: nat): int
    requires n <= |run|
  {
    if n == 0 then st.now else Clock(st, run, n - 1) + if run[n - 1].Tick? then run[n - 1].elapsed else 0
  }

  /** How many second transactions came before step `n`; each of them has a token of its own. */
  ghost function Ends(run: seq<Step>, n: nat): nat
    requires n <= |run|
  {
    if n == 0 then 0 else Ends(run, n - 1) + if run[n - 1].End? then 1 else 0
  }

  /** `owner` is in a `coordinate` whose first transaction assigned it shard `s`. */
  ghost predicate Wants(run: seq<Step>, n: nat, owner: string, s: int)
    requires n <= |run|
  {
    n > 0 &&
    match run[n - 1]
    case Begin(node, desired) => if node == owner then s in desired else Wants(run, n - 1, owner, s)
    case End(node) => node != owner && Wants(run, n - 1, owner, s)
    case _ => Wants(run, n - 1, owner, s)
  }

  /** Step `n` is a second transaction of `owner` for shard `s`. */
  ghost predicate Asks(run: seq<Step>, n: nat, owner: string, s: int)
    requires n < |run|
  {
    run[n] == End(owner) && Wants(run, n, owner, s)
  }

  /** The last of them before step `n`, or -1. */
  ghost function LastAsk(run: seq<Step>, n: nat, owner: string, s: int): (r: int)
    requires n <= |run|
    ensures -1 <= r < n && (r >= 0 ==> Asks(run, r, owner, s))
  {
    if n == 0 then -1 else if Asks(run, n - 1, owner, s) then n - 1 else LastAsk(run, n - 1, owner, s)
  }

  ghost predicate Recent(st: State, run: seq<Step>, n: nat, owner: string, s: int)
    requires n <= |run|
  {
    LastAsk(run, n, owner, s) >= 0 && Clock(st, run, n) < Clock(st, run, LastAsk(run, n, owner, s)) + st.lease
  }

  ghost predicate NobodyPasses(st: State, s: int) { forall owner, token :: !Passes(st, s, owner, token) }

  /** `owner` asked for the shard at step `k` when nobody held it, has not given it up since, and has never
      let a lease go by without asking again. */
  ghost predicate Tenure(st: State, run: seq<Step>, k: nat, n: nat, owner: string, s: int)
    requires n <= |run| && Valid(st, run)
  {
    k < n && Asks(run, k, owner, s) && NobodyPasses(At(st, run, k), s) &&
    (forall m :: k < m < n ==> !GivesUp(run[m], owner, s)) &&
    (forall m :: k < m <= n ==> Recent(st, run, m, owner, s))
  }

  // ---------------------------------------------------------------- the tables agree

  lemma {:induction false} StateTells(st: State, run: seq<Step>, n: nat)
    requires Initial(st) && n <= |run| && Valid(st, run)
    ensures var mid := At(st, run, n); mid.now == Clock(st, run, n) && mid.unused == Ends(run, n) + 1
  {
    if n > 0 {
      StateTells(st, run, n - 1);
      StepAt(st, run, n - 1);
    }
  }

  lemma {:induction false} PendingTells(st: State, run: seq<Step>, n: nat, owner: string, s: int)
    requires Initial(st) && n <= |run| && Valid(st, run)
    ensures owner in At(st, run, n).pending && s in At(st, run, n).pending[owner] <==> Wants(run, n, owner, s)
  {
    if n > 0 {
      PendingTells(st, run, n - 1, owner, s);
      StepAt(st, run, n - 1);
      hide At, Valid;
    }
  }

  lemma FreeExactly(st: State, run: seq<Step>, n: nat, s: int)
    requires Initial(st) && n <= |run| && Valid(st, run) && 0 <= s < SHARD_COUNT && |At(st, run, n).shards| == SHARD_COUNT
    ensures NobodyPasses(At(st, run, n), s) <==> At(st, run, n).shards[s].until <= Clock(st, run, n)
  {
    StateTells(st, run, n);
    var mid := At(st, run, n);
    var r := mid.shards[s];
    if r.until > mid.now { assert Passes(mid, s, r.owner, r.token); }
  }

  lemma FreeAtFirst(st: State, run: seq<Step>, s: int)
    requires Initial(st) && Valid(st, run) && 0 <= s < SHARD_COUNT
    ensures |At(st, run, 0).shards| == SHARD_COUNT && At(st, run, 0).shards[s].until <= Clock(st, run, 0) && st.lease > 0
  {
  }

  /** The row is that of a tenure. */
  ghost predicate IsRow(st: State, run: seq<Step>, k: nat, n: nat, owner: string, s: int, r: Shard)
    requires k < n <= |run|
  {
    LastAsk(run, n, owner, s) >= 0 && r == Shard(owner, Ends(run, k) + 1, Clock(st, run, LastAsk(run, n, owner, s)) + st.lease)
  }

  lemma IsRowStarts(st: State, run: seq<Step>, k: nat, owner: string, s: int)
    requires k < |run| && Asks(run, k, owner, s)
    ensures IsRow(st, run, k, k + 1, owner, s, Shard(owner, Ends(run, k) + 1, Clock(st, run, k) + st.lease))
  {
    hide Asks, Ends;
  }

  lemma IsRowExtends(st: State, run: seq<Step>, k: nat, n: nat, owner: string, s: int, r: Shard)
    requires k < n < |run| && IsRow(st, run, k, n, owner, s, r)
    ensures IsRow(st, run, k, n + 1, owner, s, if Asks(run, n, owner, s) then r.(until := Clock(st, run, n) + st.lease) else r)
  {
    hide Asks, Ends, Clock;
  }

  lemma IsRowRecent(st: State, run: seq<Step>, k: nat, n: nat, owner: string, s: int, r: Shard)
    requires k < n <= |run| && IsRow(st, run, k, n, owner, s, r)
    ensures r.owner == owner && r.token == Ends(run, k) + 1 && (Recent(st, run, n, owner, s) <==> r.until > Clock(st, run, n))
  {
    hide Asks, Ends, Clock;
  }

  lemma ClockStep(st: State, run: seq<Step>, n: nat)
    requires Initial(st) && n < |run| && Valid(st, run)
    ensures 0 <= Clock(st, run, n) <= Clock(st, run, n + 1) && (!run[n].Tick? ==> Clock(st, run, n + 1) == Clock(st, run, n))
  {
    StateTells(st, run, n);
    SaneAt(st, run, n);
  }

  lemma TenureStarts(st: State, run: seq<Step>, k: nat, owner: string, s: int)
    requires k < |run| && Valid(st, run) && Asks(run, k, owner, s) && NobodyPasses(At(st, run, k), s) && st.lease > 0
    ensures Tenure(st, run, k, k + 1, owner, s)
  {
    hide At, Valid, NobodyPasses, Wants, Ends;
  }

  lemma TenureExtends(st: State, run: seq<Step>, k: nat, n: nat, owner: string, s: int)
    requires k < n < |run| && Valid(st, run)
    ensures Tenure(st, run, k, n + 1, owner, s) <==>
            Tenure(st, run, k, n, owner, s) && !GivesUp(run[n], owner, s) && Recent(st, run, n + 1, owner, s)
  {
    hide At, Valid, NobodyPasses, Wants, Ends, Recent, GivesUp;
  }

  /** What step `n` does to the row of shard `s`. */
  lemma RowStep(st: State, run: seq<Step>, n: nat, s: int)
    requires Initial(st) && n < |run| && Valid(st, run) && 0 <= s < SHARD_COUNT
    ensures |At(st, run, n).shards| == SHARD_COUNT == |At(st, run, n + 1).shards|
    ensures var r, r', now := At(st, run, n).shards[s], At(st, run, n + 1).shards[s], Clock(st, run, n);
            if GivesUp(run[n], r.owner, s) then r' == Free
            else if r.until <= now then
              r' == if run[n].End? && Asks(run, n, run[n].node, s) then Shard(run[n].node, Ends(run, n) + 1, now + st.lease) else r
            else r' == if Asks(run, n, r.owner, s) then r.(until := now + st.lease) else r
  {
    StepAt(st, run, n);
    StateTells(st, run, n);
    SaneAt(st, run, n);
    SaneAt(st, run, n + 1);
    if run[n].End? { PendingTells(st, run, n, run[n].node, s); }
    hide At, Wants, Valid, Clock, Ends;
  }

  /** A row that was free and is not any more starts a tenure. */
  lemma TakenStartsTenure(st: State, run: seq<Step>, n: nat, s: int)
    requires Initial(st) && n < |run| && Valid(st, run) && 0 <= s < SHARD_COUNT && st.lease > 0
    requires |At(st, run, n).shards| == SHARD_COUNT == |At(st, run, n + 1).shards|
    requires At(st, run, n).shards[s].until <= Clock(st, run, n) && At(st, run, n + 1).shards[s].until > Clock(st, run, n + 1)
    ensures var r := At(st, run, n + 1).shards[s]; Tenure(st, run, n, n + 1, r.owner, s) && IsRow(st, run, n, n + 1, r.owner, s, r)
  {
    hide At, Valid, NobodyPasses, Wants, Tenure, Initial, IsRow, Clock, Ends, LastAsk, Recent, Asks, GivesUp;
    RowStep(st, run, n, s);
    ClockStep(st, run, n);
    FreeExactly(st, run, n, s);
    var r := At(st, run, n + 1).shards[s];
    TenureStarts(st, run, n, r.owner, s);
    IsRowStarts(st, run, n, r.owner, s);
  }

  /** A row that stays unexpired stays with its tenure. */
  lemma KeptExtendsTenure(st: State, run: seq<Step>, k: nat, n: nat, s: int)
    requires Initial(st) && n < |run| && Valid(st, run) && 0 <= s < SHARD_COUNT
    requires |At(st, run, n).shards| == SHARD_COUNT == |At(st, run, n + 1).shards|
    requires At(st, run, n).shards[s].until > Clock(st, run, n) && At(st, run, n + 1).shards[s].until > Clock(st, run, n + 1)
    requires var r := At(st, run, n).shards[s]; Tenure(st, run, k, n, r.owner, s) && k < n && IsRow(st, run, k, n, r.owner, s, r)
    ensures var r := At(st, run, n + 1).shards[s]; Tenure(st, run, k, n + 1, r.owner, s) && IsRow(st, run, k, n + 1, r.owner, s, r)
  {
    hide At, Valid, NobodyPasses, Wants, Tenure, Initial, IsRow, Clock, Ends, LastAsk, Recent, Asks, GivesUp;
    RowStep(st, run, n, s);
    ClockStep(st, run, n);
    var r, r' := At(st, run, n).shards[s], At(st, run, n + 1).shards[s];
    IsRowExtends(st, run, k, n, r.owner, s, r);
    IsRowRecent(st, run, k, n + 1, r.owner, s, r');
    TenureExtends(st, run, k, n, r.owner, s);
  }

  /** An unexpired row belongs to a tenure. */
  lemma {:induction false} RowHasTenure(st: State, run: seq<Step>, n: nat, s: int) returns (k: nat)
    requires Initial(st) && n <= |run| && Valid(st, run) && 0 <= s < SHARD_COUNT
    requires |At(st, run, n).shards| == SHARD_COUNT && At(st, run, n).shards[s].until > Clock(st, run, n)
    ensures var r := At(st, run, n).shards[s];
            Tenure(st, run, k, n, r.owner, s) && k < n && IsRow(st, run, k, n, r.owner, s, r)
  {
    FreeAtFirst(st, run, s);
    hide At, Valid, NobodyPasses, Wants, Tenure, Initial, IsRow, Clock, Ends, LastAsk, Recent, Asks, GivesUp;
    RowStep(st, run, n - 1, s);
    if At(st, run, n - 1).shards[s].until <= Clock(st, run, n - 1) {
      k := n - 1;
      TakenStartsTenure(st, run, k, s);
    } else {
      k := RowHasTenure(st, run, n - 1, s);
      KeptExtendsTenure(st, run, k, n - 1, s);
    }
  }

  /** A tenure decides the row. */
  lemma {:induction false} TenureHasRow(st: State, run: seq<Step>, k: nat, n: nat, owner: string, s: int)
    requires Initial(st) && n <= |run| && Valid(st, run) && 0 <= s < SHARD_COUNT && Tenure(st, run, k, n, owner, s)
    ensures |At(st, run, n).shards| == SHARD_COUNT && IsRow(st, run, k, n, owner, s, At(st, run, n).shards[s])
  {
    hide Tenure, At, Valid, NobodyPasses, Wants, Initial, IsRow, Clock, Ends, LastAsk, Recent, Asks;
    TenureFacts(st, run, k, n, owner, s);
    RowStep(st, run, n - 1, s);
    if k == n - 1 {
      FreeExactly(st, run, k, s);
      IsRowStarts(st, run, k, owner, s);
    } else {
      TenureExtends(st, run, k, n - 1, owner, s);
      TenureHasRow(st, run, k, n - 1, owner, s);
      TenureFacts(st, run, k, n - 1, owner, s);
      var r := At(st, run, n - 1).shards[s];
      IsRowRecent(st, run, k, n - 1, owner, s, r);
      IsRowExtends(st, run, k, n - 1, owner, s, r);
    }
  }

  lemma TenureFacts(st: State, run: seq<Step>, k: nat, n: nat, owner: string, s: int)
    requires n <= |run| && Valid(st, run) && Tenure(st, run, k, n, owner, s)
    ensures k < n && run[k] == End(owner) && Asks(run, k, owner, s) && NobodyPasses(At(st, run, k), s) && Recent(st, run, n, owner, s)
  {
  }

  // ---------------------------------------------------------------- exactly who passes

  /** In every run, an owner and token pass `lockShard` exactly when the owner took the shard with that token
      in a second transaction that found it free, has not given it up, and never let a lease go by without
      renewing it. */
  lemma PassesExactly(st: State, run: seq<Step>, n: nat, s: int, owner: string, token: Token)
    requires Initial(st) && n <= |run| && Valid(st, run)
    ensures Passes(At(st, run, n), s, owner, token) <==>
            0 <= s < SHARD_COUNT && exists k :: Tenure(st, run, k, n, owner, s) && token == Ends(run, k) + 1
  {
    SaneAt(st, run, n);
    StateTells(st, run, n);
    if Passes(At(st, run, n), s, owner, token) { var k := RowHasTenure(st, run, n, s); }
    if 0 <= s < SHARD_COUNT {
      forall k | Tenure(st, run, k, n, owner, s) && token == Ends(run, k) + 1 ensures Passes(At(st, run, n), s, owner, token) {
        TenureHasRow(st, run, k, n, owner, s);
        assert Recent(st, run, n, owner, s);
      }
    }
    hide At, Valid, Asks;
  }

  /** Who passes has asked for the shard less than a lease ago. */
  lemma LeaseEnds(st: State, run: seq<Step>, n: nat, s: int, owner: string, token: Token)
    requires Initial(st) && n <= |run| && Valid(st, run) && Passes(At(st, run, n), s, owner, token)
    ensures exists i :: 0 <= i < n && Asks(run, i, owner, s) && Clock(st, run, n) < Clock(st, run, i) + st.lease
  {
    PassesExactly(st, run, n, s, owner, token);
    var k :| Tenure(st, run, k, n, owner, s);
    assert Recent(st, run, n, owner, s);
    assert Asks(run, LastAsk(run, n, owner, s), owner, s);
  }

  // ---------------------------------------------------------------- exactly who is live

  /** The last registration of a node that it has not withdrawn, or -1. */
  ghost function LastBegin(run: seq<Step>, n: nat, node: string): (r: int)
    requires n <= |run|
    ensures -1 <= r < n
  {
    if n == 0 || run[n - 1] == Release(node) then -1
    else if run[n - 1].Begin? && run[n - 1].node == node then n - 1
    else LastBegin(run, n - 1, node)
  }

  /** In every run a node is live exactly when it registered less than a lease ago and has not been released. */
  lemma LiveExactly(st: State, run: seq<Step>, n: nat, node: string)
    requires Initial(st) && n <= |run| && Valid(st, run)
    ensures node in Live(At(st, run, n).nodes, At(st, run, n).now) <==>
            LastBegin(run, n, node) >= 0 && Clock(st, run, n) < Clock(st, run, LastBegin(run, n, node)) + st.lease
  {
    NodesTell(st, run, n, node);
    StateTells(st, run, n);
  }

  lemma {:induction false} NodesTell(st: State, run: seq<Step>, n: nat, node: string)
    requires Initial(st) && n <= |run| && Valid(st, run)
    ensures var nodes, b := At(st, run, n).nodes, LastBegin(run, n, node);
            (node in nodes ==> b >= 0 && nodes[node] == Clock(st, run, b) + st.lease) &&
            (b >= 0 && node !in nodes ==> Clock(st, run, b) + st.lease <= Clock(st, run, n))
  {
    if n > 0 {
      NodesTell(st, run, n - 1, node);
      StepAt(st, run, n - 1);
      StateTells(st, run, n - 1);
      SaneAt(st, run, n - 1);
      ClockStep(st, run, n - 1);
      NodesStep(At(st, run, n - 1), run[n - 1], node);
      hide At, Valid, Sane, Next, Enabled, Initial;
    }
  }

  lemma NodesStep(st: State, step: Step, node: string)
    requires Enabled(st, step)
    ensures var nodes, nodes' := st.nodes, Next(st, step).nodes;
            if step == Release(node) then node !in nodes'
            else if step.Begin? && step.node == node then node in nodes' && nodes'[node] == st.now + st.lease
            else if node in nodes' then node in nodes && nodes'[node] == nodes[node]
            else node in nodes ==> nodes[node] <= st.now
  {
  }
}
