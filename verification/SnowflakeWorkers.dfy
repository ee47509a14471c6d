/** The worker table of `pkg/idgen/snowflake/storage.go`.  Each SQL transaction is one atomic step; the
    coordinator row serialises allocations and holds the epoch. */
module SnowflakeWorkers {
  import opened Options
  import opened SnowflakeNode

  const WORKER_TIMEOUT := 30000
  const SAFETY_THRESHOLD := 20000
  const MAX_CLOCK_ROLLBACK := 5000

  /** A random lease token; a new one is never equal to an old one. */
  type Token = nat

  datatype Row = Row(lastTimestamp: int, updatedAt: int, token: Token)

  type Table = map<int, Row>

  function Max(a: int, b: int): int { if a < b then b else a }

  // ---------------------------------------------------------------- specifications

  ghost predicate Expired(r: Row, now: int) { r.updatedAt < now - WORKER_TIMEOUT }

  ghost predicate NoneExpired(t: Table, now: int) { forall w <- t :: !Expired(t[w], now) }

  /** `w` is an expired worker with the oldest `updated_at`. */
  ghost predicate Reclaims(t: Table, now: int, w: int) {
    w in t && Expired(t[w], now) && forall v <- t :: Expired(t[v], now) ==> t[w].updatedAt <= t[v].updatedAt
  }

  ghost predicate LeastFree(used: set<int>, w: int) {
    0 <= w && w !in used && forall v :: 0 <= v < w ==> v in used
  }

  /** The worker an allocation may take: an expired one if there is any, else the least unused one. */
  ghost predicate Picks(t: Table, now: int, w: int) {
    Reclaims(t, now, w) || (NoneExpired(t, now) && LeastFree(t.Keys, w) && w <= MAX_WORKER_ID)
  }

  /** `b` is the greatest of 0, the database time and every stored timestamp. */
  ghost predicate IsBarrier(t: Table, now: int, b: int) {
    now <= b && 0 <= b && (forall w <- t :: t[w].lastTimestamp <= b) &&
    (b == now || b == 0 || exists w <- t :: t[w].lastTimestamp == b)
  }

  function Allocated(t: Table, w: int, barrier: int, now: int, token: Token): Table {
    t[w := Row(barrier, now, token)]
  }

  predicate Holds(t: Table, w: int, token: Token) { w in t && t[w].token == token }

  function Refreshed(t: Table, w: int, token: Token, timestamp: int, now: int): Table {
    if Holds(t, w, token) then t[w := Row(Max(Max(t[w].lastTimestamp, timestamp), now), now, token)] else t
  }

  function Released(t: Table, w: int, token: Token, timestamp: int, now: int): Table {
    if Holds(t, w, token) then t[w := Row(Max(Max(t[w].lastTimestamp, timestamp), now), 0, token)] else t
  }

  /** For the token holder, a heartbeat keeps the worker from being reclaimed for the whole timeout, a release
      lets it be reclaimed from then on, and both leave a stored timestamp that nothing used so far exceeds;
      for anyone else, and for every other worker, nothing changes. */
  lemma LeaseExactly(t: Table, w: int, token: Token, timestamp: int, now: int, later: int)
    ensures !Holds(t, w, token) ==> Refreshed(t, w, token, timestamp, now) == t == Released(t, w, token, timestamp, now)
    ensures Holds(t, w, token) ==>
              var kept, freed := Refreshed(t, w, token, timestamp, now), Released(t, w, token, timestamp, now);
              w in kept && w in freed && kept == t[w := kept[w]] && freed == t[w := freed[w]] &&
              kept[w].token == freed[w].token == token && kept[w].lastTimestamp == freed[w].lastTimestamp &&
              kept[w].lastTimestamp in {t[w].lastTimestamp, timestamp, now} && timestamp <= kept[w].lastTimestamp && now <= kept[w].lastTimestamp &&
              t[w].lastTimestamp <= kept[w].lastTimestamp &&
              (Expired(kept[w], later) <==> later - now > WORKER_TIMEOUT) && (Expired(freed[w], later) <==> later > WORKER_TIMEOUT)
  {
  }

  datatype Allocation = Allocation(workerID: int, barrier: int, token: Token) | NoWorkerID | WrongCoordinator

  /** The metadata row; `reserved` is whether it carries the coordinator's own token. */
  datatype Coordinator = Coordinator(epoch: int, reserved: bool)

  /** `lockCoordinator` lets the allocation go on: all processes share the stored epoch. */
  predicate Admits(c: Option<Coordinator>, epoch: int) { c.Some? && c.value.reserved && c.value.epoch == epoch }

  /** The rows of `SELECT worker_id ... ORDER BY worker_id ASC`. */
  ghost predicate Listing(ids: seq<int>, t: Table) {
    (forall i, j :: 0 <= i < j < |ids| ==> ids[i] < ids[j]) && (forall i :: 0 <= i < |ids| ==> ids[i] in t) && (forall w <- t :: w in ids)
  }

  ghost predicate InRange(t: Table) { forall w <- t :: 0 <= w <= MAX_WORKER_ID }

  // ---------------------------------------------------------------- the storage

  class WorkerTable {
    var rows: Table
    var coordinator: Option<Coordinator>

    constructor (epoch: int)
      ensures rows == map[] && Admits(coordinator, epoch)
    {
      rows, coordinator := map[], Some(Coordinator(epoch, true));
    }

    /** The scan of `findAvailableWorkerID` over the ordered IDs. */
    method FindAvailableWorkerID(ids: seq<int>) returns (r: Option<int>)
      requires Listing(ids, rows) && InRange(rows)
      ensures r.Some? ==> LeastFree(rows.Keys, r.value) && r.value <= MAX_WORKER_ID
      ensures r.None? ==> forall w :: 0 <= w <= MAX_WORKER_ID ==> w in rows
    {
      var next := 0;
      for k := 0 to |ids|
        invariant 0 <= next
        invariant forall v :: 0 <= v < next ==> v in ids[..k]
        invariant next !in ids[..k]
      {
        assert ids[..k + 1] == ids[..k] + [ids[k]];
        if ids[k] == next {
          next := next + 1;
        }
      }
      assert ids[..|ids|] == ids && forall v :: v in ids ==> v in rows;
      r := if next > MAX_WORKER_ID then None else Some(next);
    }

    /** The reclaim query and the MAX query of an allocation. */
    method ScanRows(ids: seq<int>, now: int) returns (oldest: Option<int>, barrier: int)
      requires Listing(ids, rows)
      ensures IsBarrier(rows, now, barrier)
      ensures if oldest.Some? then Reclaims(rows, now, oldest.value) else NoneExpired(rows, now)
    {
      oldest, barrier := None, Max(0, now);
      for k := 0 to |ids|
        invariant oldest.Some? ==> oldest.value in rows && Expired(rows[oldest.value], now)
        invariant forall i :: 0 <= i < k && Expired(rows[ids[i]], now) ==>
                    oldest.Some? && rows[oldest.value].updatedAt <= rows[ids[i]].updatedAt
        invariant now <= barrier && 0 <= barrier && forall i :: 0 <= i < k ==> rows[ids[i]].lastTimestamp <= barrier
        invariant barrier == now || barrier == 0 || exists w <- rows :: rows[w].lastTimestamp == barrier
      {
        var row := rows[ids[k]];
        if row.updatedAt < now - WORKER_TIMEOUT && (oldest.None? || row.updatedAt < rows[oldest.value].updatedAt) {
          oldest := Some(ids[k]);
        }
        barrier := Max(barrier, row.lastTimestamp);
      }
      assert forall w <- rows :: w in ids;
    }

    /** `allocateWorkerOnce`: reclaim an expired worker, else insert the least unused one. */
    method Allocate(epoch: int, ids: seq<int>, now: int, token: Token) returns (r: Allocation)
      requires Listing(ids, rows) && InRange(rows)
      modifies this`rows
      ensures r.WrongCoordinator? <==> coordinator.None? || !coordinator.value.reserved || coordinator.value.epoch != epoch
      ensures r.NoWorkerID? <==>
                Admits(coordinator, epoch) && NoneExpired(old(rows), now) && forall w :: 0 <= w <= MAX_WORKER_ID ==> w in old(rows)
      ensures !r.Allocation? ==> rows == old(rows)
      ensures r.Allocation? ==>
                Picks(old(rows), now, r.workerID) && IsBarrier(old(rows), now, r.barrier) && r.token == token &&
                rows == Allocated(old(rows), r.workerID, r.barrier, now, token)
      ensures InRange(rows)
    {
      if coordinator.None? { return WrongCoordinator; }
      if !coordinator.value.reserved { return WrongCoordinator; }
      if coordinator.value.epoch != epoch { return WrongCoordinator; }
      var oldest, barrier := ScanRows(ids, now);
      var choice := oldest;
      if choice.None? {
        choice := FindAvailableWorkerID(ids);
        if choice.None? { return NoWorkerID; }
      }
      rows := Allocated(rows, choice.value, barrier, now, token);
      r := Allocation(choice.value, barrier, token);
    }

    /** `ErrLeaseLost` when no row matches the worker and its token. */
    method Heartbeat(workerID: int, token: Token, timestamp: int, now: int) returns (kept: bool)
      modifies this
      ensures rows == Refreshed(old(rows), workerID, token, timestamp, now)
      ensures kept <==> Holds(old(rows), workerID, token)
    {
      kept := false;
      if workerID in rows && rows[workerID].token == token {
        var last := Max(Max(rows[workerID].lastTimestamp, timestamp), now);
        rows := rows[workerID := Row(last, now, token)];
        kept := true;
      }
    }

    method Release(workerID: int, token: Token, timestamp: int, now: int)
      modifies this
      ensures rows == Released(old(rows), workerID, token, timestamp, now)
    {
      if workerID in rows && rows[workerID].token == token {
        var last := Max(Max(rows[workerID].lastTimestamp, timestamp), now);
        rows := rows[workerID := Row(last, 0, token)];
      }
    }
  }

  /** `startupClockWait`: zero exactly when the clock is past the barrier, refused when it is more than
      five seconds behind, and otherwise long enough to enter the millisecond after the barrier. */
  function StartupClockWait(now: int, barrier: int): (r: Option<int>)
    ensures r == Some(0) <==> barrier < now
    ensures r.None? <==> barrier - now > MAX_CLOCK_ROLLBACK
    ensures r.Some? && r.value > 0 ==> now + r.value == barrier + 1 && r.value <= MAX_CLOCK_ROLLBACK + 1
  {
    if barrier < now then Some(0)
    else if barrier - now > MAX_CLOCK_ROLLBACK then None
    else Some(barrier - now + 1)
  }
}
