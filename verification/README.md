# Verification of the kc coordination code

This project models the parts of kc where several processes, goroutines or layers must agree, and proves what
they promise over all inputs, all runs and all interleavings.

| modules | what they model |
|---|---|
| `SnowflakeNode`, `SnowflakeWorkers`, `SnowflakeCluster`, `SnowflakeMargin` | Snowflake IDs: the bit layout and per-worker generator, the leased worker table, many processes together, and the exact clock condition for global uniqueness |
| `SegmentStore`, `SegmentBuffer`, `SegmentCluster` | segment IDs: the tag row in both SQL dialects, the double buffer with asynchronous preload, many generators on one row |
| `OutboxAssignment`, `OutboxShards`, `OutboxLeases`, `OutboxRebalance`, `OutboxMessages`, `OutboxHistory` | the outbox: shard assignment, shard leases and fencing, exactly who holds a shard, convergence of rebalancing, the message rows, and what each shows of its history |
| `Compensator`, `CompensatorHistory` | the compensator's task rows and its backoff, and what each row shows of its history |
| `Slots` | worker slots in the outbox and the compensator |
| `KafkaPartition`, `KafkaShare` | the Kafka partition worker, and the split of share-group concurrency |
| `RedisStream` | the local pipeline of a Redis Streams subscription |
| `Lifecycle` | the close barrier shared by the MQ runtimes |
| `EtcdCache` | the balancer's dense-slice cache against a plain map |
| `SqlExpr`, `SqlGuard`, `SqlText`, `SqlMeaning`, `SqlStatement`, `SqlSelect` | the query builder: rendering, a lexer and parser that read the text back, and evaluation in three-valued logic |

How it is modelled:

- An SQL statement or transaction is one atomic step at one database time. A random token is a number never used before.
- A goroutine is a sequence of atomic steps: one critical section, channel operation, query, handler call or wait each. Steps of different goroutines interleave freely, and a run is any sequence of enabled steps.
- Handlers, the network, what `startAsync` answers, which due rows a query returns and how long things take are parameters of the steps, so theorems hold for all of them.
- Objects that the source updates in place are classes whose methods are proved against functions on values; the steps of the runs are built from the same functions, and the theorems say over the steps of a run, without naming those functions, what they lead to.
- Integers are unbounded except where width matters: Snowflake IDs are shown to fit a signed 64-bit integer, and the segment allocator uses a 64-bit type, so that no operation in it can overflow.

Where the code and the properties one would expect of it differ, the code is kept, a lemma shows the difference,
and the exact condition is proved:

- IDs of one Snowflake node strictly increase under any clock as long as no call has hit the 41-bit overflow; after an overflow they increase exactly when no later call rewinds (`IncreasingExactly`, `OverflowRepeatsAnID`).
- Snowflake IDs are globally unique exactly when no clock falls back to its barrier, none overflows, and clock skew, recording delay and call delay together are at most 10001 ms (`UniqueExactly`).
- The mutation guard refuses exactly the predicates that are true under every assignment of truth values to their leaves, but not every predicate true on every row: `c IS NULL OR c IS NOT NULL`, `c = v OR NOT (c = v) OR c IS NULL` and, for `low` below `high`, `c < high OR c > low OR c IS NULL` are, and pass (`NullTestsEscapeTheGuard`, `OppositesEscapeTheGuard`, `RangesEscapeTheGuard`). Being true on every row of every SQL database is a finite check on the tree: over which columns are NULL, where the others lie among the constants, and what LIKE says (`HoldsEverywhereExactly`, `PlacesBeyondDoNotMatter`). The guard misses a predicate exactly when it passes that check without being refused (`GuardIsExactExactly`). Of a database this assumes that a comparison is unknown exactly when a side is NULL, that the other values are totally preordered and the six comparison operators follow from that order, and that the constants compare with each other as given. LIKE patterns are not interpreted, and a column may lie strictly between any two constants, so `c <= 3 OR c >= 4 OR c IS NULL`, which is true on every row only of a column of integers, counts as not true everywhere.
- After a snapshot the cache's map and slice agree exactly when the snapshot lists no ID twice (`ReplaceLocked`).
- Two rounds of `coordinate` settle the shards, one need not (`TwoRoundsSettle`, `OneRoundMayNotSettle`). Any run settles a shard held by another live node exactly when a second transaction of the assignee follows the holder's first one or the end of its lease (`RunSettlesExactly`), so one complete round settles all shards exactly when this holds for every misplaced one (`OneRoundSettlesExactly`).
- An accepted SET list can set a column twice, through a column without owner and one with (`ColumnsCanBeSetTwice`); it sets each column once exactly when no column comes with two owners (`SetsOnceExactly`), and the columns generated for a model all carry its one owner.

## Model

| member | source | states |
|---|---|---|
| `SnowflakeNode.BitLayout` | pkg/idgen/snowflake/node.go:92-93 | on 64-bit words the shifts and ORs of the layout are a sum below the sign bit, and shifts and masks take out elapsed time, worker and sequence again |
| `SnowflakeNode.ComposeRoundTrip` | pkg/idgen/snowflake/node.go:93-112 | every ID is a non-negative int64 and decodes to its elapsed time, worker and sequence |
| `SnowflakeNode.Node.Generate` | pkg/idgen/snowflake/node.go:54-94 | the fields and the result after a call are those of the specification, for every sequence of clock readings, including waiting and the sequence reset before the 41-bit check |
| `SnowflakeNode.Node.LatestTimestamp` | pkg/idgen/snowflake/node.go:96-101 | the last timestamp, node unchanged |
| `SnowflakeNode.Node.Retire` | pkg/idgen/snowflake/node.go:103-108 | returns the last timestamp and retires the node, after which no call issues an ID |
| `SnowflakeNode.NewNode` | pkg/idgen/snowflake/node.go:39-52 | refuses exactly the worker IDs outside 0..1023; a new node starts at timestamp 0 |
| `SnowflakeNode.IssuesExactly` | pkg/idgen/snowflake/node.go:54-94 | for every node and clock: an ID is issued exactly when there is a reading to use (the first, or after a used up millisecond the first later one) at most 41 bits after the epoch; the call waits exactly while every reading shows the used up millisecond; the clock counts as behind exactly when the first other reading is |
| `SnowflakeNode.AnswersFrom` | pkg/idgen/snowflake/node.go:66-93 | the reading used decides between the two range errors and an ID with its timestamp and the next sequence number, or 0 in a new millisecond, and the node keeps both |
| `SnowflakeNode.StepOrder` | pkg/idgen/snowflake/node.go:54-94 | one call keeps the node consistent, and a call that does not rewind issues an ID above the last one |
| `SnowflakeNode.IncreasingExactly` | pkg/idgen/snowflake/node.go:54-94 | over every run and every clock, the IDs of a node strictly increase if and only if no call rewinds after an overflow |
| `SnowflakeNode.IncreasingWithoutOverflow` | pkg/idgen/snowflake/node.go:54-94 | IDs strictly increase for every clock, also one stepping back, while no call has overflowed |
| `SnowflakeNode.OverflowRepeatsAnID` | pkg/idgen/snowflake/node.go:60-94 | a concrete run in which an overflowing call lets the next call repeat an ID |
| `SnowflakeNode.IDsCarryTheWorker` | pkg/idgen/snowflake/node.go:54-112 | every ID of every run is a non-negative int64 carrying the node's worker ID |
| `SnowflakeNode.DistinctWorkersDistinctIDs` | pkg/idgen/snowflake/node.go:54-112 | two workers never issue the same ID, whatever their clocks and epochs |
| `SnowflakeWorkers.WorkerTable.FindAvailableWorkerID` | pkg/idgen/snowflake/storage.go:275-303 | the scan returns the least unused worker ID, and none exactly when all 1024 are used |
| `SnowflakeWorkers.WorkerTable.ScanRows` | pkg/idgen/snowflake/storage.go:197-222 | the barrier is the greatest of the database time and all stored timestamps, and the expired worker with the oldest write is found exactly when one has expired |
| `SnowflakeWorkers.WorkerTable.Allocate` | pkg/idgen/snowflake/storage.go:173-273 | refuses exactly without a coordinator row of this epoch; else takes the expired worker with the oldest write, or the least unused one, with its barrier, and fails exactly when every worker is live; a refusal changes nothing |
| `SnowflakeWorkers.WorkerTable.Heartbeat` | pkg/idgen/snowflake/storage.go:332-353 | moves the row's timestamp and write time forward for the holder of the token, changes nothing for anyone else |
| `SnowflakeWorkers.WorkerTable.Release` | pkg/idgen/snowflake/storage.go:355-367 | expires the row at once and keeps its timestamp for later barriers, for the holder of the token only |
| `SnowflakeWorkers.LeaseExactly` | pkg/idgen/snowflake/storage.go:332-367 | after a heartbeat of the token holder the worker can be reclaimed exactly once the timeout has passed, after a release at once; both keep the greatest of the timestamps used and the time, and change no other row |
| `SnowflakeWorkers.StartupClockWait` | pkg/idgen/snowflake/snowflake.go:311-321 | no wait exactly when the clock is past the barrier, refusal exactly beyond five seconds, otherwise a wait into the millisecond after the barrier |
| `SnowflakeCluster.StepKeepsInvariant` | pkg/idgen/snowflake/snowflake.go:139-331 | every step keeps the cluster invariant, among them each read of state, time, heartbeat and lease by a call, a heartbeat written after the lease was given up, a heartbeat time stored later than read, and a lease given up at any time |
| `SnowflakeCluster.RunKeepsInvariant` | pkg/idgen/snowflake/snowflake.go:77-331 | every step of every run keeps the cluster invariant: leases of one worker follow each other in time and their IDs in timestamp |
| `SnowflakeCluster.GenerateIsNew` | pkg/idgen/snowflake/snowflake.go:139-164 | an ID issued within the margin differs from every ID issued before by any process |
| `SnowflakeCluster.AllocateEndsEarlierLeases` | pkg/idgen/snowflake/storage.go:173-251 | when a worker is taken over, every lease it had before ends before the new one begins, in time and in timestamps |
| `SnowflakeCluster.GloballyUnique` | pkg/idgen/snowflake/snowflake.go:96-331 | no two successful calls of any processes in any run return the same ID, when skew, recording delay (clock wait included) and call delay fit the margin and no clock falls back or overflows |
| `SnowflakeMargin.MarginNeeded` | pkg/idgen/snowflake/snowflake.go:323-331 | for every environment beyond the margin there is a run with a repeated ID |
| `SnowflakeMargin.FallingBackRepeats` | pkg/idgen/snowflake/snowflake.go:289-321 | with a clock that may fall back after the clock wait there is a run with a repeated ID, because a new node starts at timestamp 0 |
| `SnowflakeMargin.OverflowRepeats` | pkg/idgen/snowflake/node.go:60-94 | with a clock that may pass the 41-bit range there is a run with a repeated ID |
| `SnowflakeMargin.UniqueExactly` | pkg/idgen/snowflake/snowflake.go:139-331 | global uniqueness over all runs holds if and only if clocks neither fall back nor overflow and the three delays add up to at most 10001 ms |
| `SegmentStore.AnswerIsNext` | pkg/idgen/segment/storage.go:225-288 | a fetched range starts right after everything handed out before and ends at the new `max_id` |
| `SegmentStore.AnswerExactly` | pkg/idgen/segment/storage.go:225-288 | a range is handed out exactly when the row exists, its step is positive and `max_id + step` fits an int64; it has exactly `step` IDs and `max_id` grows by exactly `step`; a missing row, a bad step and an overflow give their three errors and leave the row |
| `SegmentStore.RowTells` | pkg/idgen/segment/storage.go:139-288 | after any sequence of inits and fetches the row has the start of the first init, the step of the last, and as `max_id` the start plus all IDs handed out |
| `SegmentStore.FetchExactly` | pkg/idgen/segment/storage.go:225-288 | after any sequence of calls a fetch is served exactly when the tag exists and its last step is positive and fits, with the `step` IDs that follow all those handed out |
| `SegmentStore.MakeSegment` | pkg/idgen/segment/storage.go:290-296 | refuses exactly a step that is not positive; else the range of `step` IDs that ends at `max_id`, wrapping around only where the source would |
| `SegmentStore.StepOrDefault` | pkg/idgen/segment/segment.go:156-158 | a positive step stays, any other becomes a positive default |
| `SegmentStore.TagRow.InitPostgreSQL` | pkg/idgen/segment/storage.go:139-152 | creates the row with the start ID, or changes only its step |
| `SegmentStore.TagRow.InitMySQL` | pkg/idgen/segment/storage.go:161-196 | the same row as the PostgreSQL statement leaves |
| `SegmentStore.TagRow.FetchPostgreSQL` | pkg/idgen/segment/storage.go:225-251 | row, range and overflow of the answer that `AnswerExactly` determines; a refusal is a refusal whatever the second query sees, and the same one when the row has not changed between the two |
| `SegmentStore.TagRow.FetchMySQL` | pkg/idgen/segment/storage.go:253-288 | the answer and row that `AnswerExactly` determines: not found, invalid step, overflow, or the next `step` IDs |
| `SegmentBuffer.DoubleBuffer.NextID` | pkg/idgen/segment/segment.go:348-394 | each critical section takes the buffer to the specified state and outcome, in 64-bit arithmetic without overflow |
| `SegmentBuffer.DoubleBuffer.MaybeStartPreload` | pkg/idgen/segment/segment.go:396-416 | starts a load, or makes and closes the channel again when the generator is not active |
| `SegmentBuffer.DoubleBuffer.LoadNext` | pkg/idgen/segment/segment.go:434-450 | installs the range and closes the channel of its own load, and nothing else |
| `SegmentBuffer.DoubleBuffer.Initialize` | pkg/idgen/segment/segment.go:278-292 | the first range becomes current |
| `SegmentBuffer.TakeIsFIFO` | pkg/idgen/segment/segment.go:348-394 | a returned ID is the first of the stock; a range is fetched only when the stock is empty; a step that returns no ID changes nothing |
| `SegmentBuffer.TakeExactly` | pkg/idgen/segment/segment.go:348-394 | a step returns the first ID left, or of the range it gets, exactly when there is one; waits for the load in flight exactly when nothing is left and one is in flight; and fails exactly without an initialised buffer or with the store's error |
| `SegmentBuffer.PreloadsByAFifth` | pkg/idgen/segment/segment.go:396-417 | a returned ID starts a load exactly when a fifth of its range is used and none is loaded or in flight |
| `SegmentBuffer.TakeKeepsChannels` | pkg/idgen/segment/segment.go:348-417 | every channel ever made is closed except that of the load in flight |
| `SegmentBuffer.StepKeepsInv` | pkg/idgen/segment/segment.go:278-450 | every step keeps shape, channels, the single load and the conservation of IDs |
| `SegmentBuffer.RefinesSimple` | pkg/idgen/segment/segment.go:348-450 | in every run the IDs returned are those of a generator that fetches only when empty, fed the same ranges; the rest are exactly those left in the two ranges |
| `SegmentBuffer.OneLoadAtATime` | pkg/idgen/segment/segment.go:396-450 | at most one load is in flight, `next` is empty meanwhile, its guard always holds, and every channel a caller can wait on is closed or closed by that load's end |
| `SegmentCluster.HeldGrows` | pkg/idgen/segment/segment.go:348-450 | ranges are used in the order the row gave them out, also across a preload in flight |
| `SegmentCluster.GloballyUnique` | pkg/idgen/segment/storage.go:139-296 | over any number of generators, re-inits, lost and failed fetches: IDs of one buffer strictly increase, IDs of different buffers differ, all lie above the start ID stored at creation and not above `max_id` |
| `SegmentCluster.MaxIDOnlyGrows` | pkg/idgen/segment/storage.go:139-288 | `max_id` never falls and the origin never changes in any continuation |
| `OutboxAssignment.Assignment` | pkg/outbox/storage.go:379-391 | the shards from the node's rank in steps of the number of nodes; none for an unknown node |
| `OutboxAssignment.SearchStrings` | pkg/outbox/storage.go:382-382 | the least index whose name is not below the node's |
| `OutboxAssignment.AssignmentIsShare` | pkg/outbox/storage.go:379-391 | the result depends only on the set of names, not on their order |
| `OutboxAssignment.SharesSplitExactly` | pkg/outbox/storage.go:379-391 | for every non-empty set of nodes each of the 64 shards has one and only one owner |
| `OutboxAssignment.SharesAreEven` | pkg/outbox/storage.go:379-391 | shares of any two nodes differ by at most one shard |
| `OutboxShards.ShardTable.LockShard` | pkg/outbox/storage.go:140-158 | passes exactly for the owner and token of the row while its lease has not ended; over whole runs, exactly as `PassesExactly` says |
| `OutboxShards.ShardTable.BeginCoordinate` | pkg/outbox/storage.go:393-447 | registers the node, returns exactly its share of the live nodes, and gives up exactly its other shards |
| `OutboxShards.ShardTable.EndCoordinate` | pkg/outbox/storage.go:448-485 | renews unexpired leases of wanted shards, takes expired ones under a new token, leaves the rest; returns exactly the leases that pass the lock, which `PassesExactly` determines |
| `OutboxShards.ShardTable.Release` | pkg/outbox/storage.go:530-543 | frees all shards of the node and unregisters it |
| `OutboxShards.SupersededNeverPasses` | pkg/outbox/storage.go:140-158 | in every run, with any views of membership, once another owner or token passes for a shard the earlier one never passes again |
| `OutboxShards.OneTenure` | pkg/outbox/storage.go:393-485 | an owner and token pass during one stretch of time only |
| `OutboxShards.OnlyTheOwnerGivesUp` | pkg/outbox/storage.go:432-478 | a step changes owner or token of an unexpired lease exactly when it is the owner's own release |
| `OutboxShards.TenureIsSafe` | pkg/outbox/storage.go:393-485 | in every run, an unexpired lease its owner does not give up stays valid until its end, whatever other nodes do |
| `OutboxLeases.PassesExactly` | pkg/outbox/storage.go:140-158 | in every run, an owner and token pass the lock if and only if the owner took the shard with that token in a second transaction for it that found nobody passing, has not given it up since, and never let a lease go by without asking again |
| `OutboxLeases.LeaseEnds` | pkg/outbox/storage.go:140-158 | who passes has asked for the shard in a second transaction less than a lease ago, so once that time is over the pair does not pass |
| `OutboxLeases.LiveExactly` | pkg/outbox/storage.go:403-428 | in every run, a node counts as live if and only if it registered less than a lease ago and was not released since |
| `OutboxRebalance.SeesTheLive` | pkg/outbox/storage.go:403-428 | while registrations last, every node reads the same membership |
| `OutboxRebalance.TwoRoundsSettle` | pkg/outbox/storage.go:393-485 | from any ownership, two rounds of `coordinate` in any interleaving within one shard lease leave every shard with its assignee under an unexpired lease |
| `OutboxRebalance.MisplacedSettlesExactly` | pkg/outbox/storage.go:393-485 | over any run of live nodes within one shard lease, a shard in other hands ends up with its assignee if and only if a second transaction of the assignee follows the holder's first one or comes not before the end of its lease |
| `OutboxRebalance.RunSettlesExactly` | pkg/outbox/storage.go:393-485 | for every shard, whoever holds it, the exact condition under which any such run leaves it with its assignee under an unexpired lease |
| `OutboxRebalance.OneRoundSettlesExactly` | pkg/outbox/storage.go:393-485 | one complete round settles all shards if and only if that condition holds for every shard in the hands of another live node |
| `OutboxRebalance.OneRoundMayNotSettle` | pkg/outbox/storage.go:393-485 | a concrete complete round after which a shard has no owner |
| `OutboxMessages.MessageTable.Insert` | pkg/outbox/storage.go:104-125 | a new row is pending, due now, without attempts or token |
| `OutboxMessages.MessageTable.Sort` | pkg/outbox/storage.go:275-292 | splits the selected rows into those without budget and those to claim, and returns the latter as tasks in order |
| `OutboxMessages.MessageTable.MarkClaimed` | pkg/outbox/storage.go:275-311 | every selected row without budget fails, every other one is claimed once more under the new token and lease, no other row changes, and the tasks returned are the claimed rows in order |
| `OutboxMessages.MessageTable.Finish` | pkg/outbox/storage.go:328-357 | takes effect exactly for a processing row with this token and an unexpired lease, with the outcome that `RowShowsHistory` determines |
| `OutboxMessages.MessageTable.Retry` | pkg/outbox/storage.go:359-376 | resets exactly a failed row, and tells a missing row from one that is not failed |
| `OutboxMessages.MessageTable.Cleanup` | pkg/outbox/storage.go:487-528 | removes the selected outdated rows and nothing else |
| `OutboxMessages.RowsStayConsistent` | pkg/outbox/storage.go:160-376 | in every run: processing exactly with a token, completed exactly when succeeded, attempts equal to claims since insert or retry and within the budget, pending with budget left, due without budget only as expired processing |
| `OutboxMessages.FinishExactly` | pkg/outbox/storage.go:328-357 | a finish takes effect exactly for the latest claim of a row still processing, before its lease ends |
| `OutboxMessages.FinishedOnce` | pkg/outbox/storage.go:328-357 | after a finish, effective or not, the same claim never takes effect again in any continuation |
| `OutboxMessages.ClaimIsExclusive` | pkg/outbox/storage.go:160-227 | in every run, no step of anyone takes an unfinished claim away before its lease has passed |
| `OutboxMessages.NoRetryBeforeDelay` | pkg/outbox/storage.go:328-357 | a failed delivery with budget left stays pending and unclaimed until its delay has passed |
| `OutboxMessages.OnlySucceededVanish` | pkg/outbox/storage.go:487-528 | a row disappears only after it succeeded and its retention passed |
| `OutboxHistory.RowShowsHistory` | pkg/outbox/storage.go:104-376 | in every run each row is what the last statement with an effect on it left, told from the statements alone: due at once after an insert or an effective `Retry`; processing to the end of its lease after a claim with budget left; succeeded after a success; pending for the delay after a failure with budget left; failed after a failure or a takeover without; and `attempts` is the number of claims since insert or `Retry` |
| `OutboxHistory.FinalExactly` | pkg/outbox/storage.go:328-344 | a row has succeeded if and only if the last thing that happened to it is a success reported for its latest claim within its lease, and failed if and only if it is a failure or a takeover with the budget spent |
| `OutboxHistory.ClaimableExactly` | pkg/outbox/storage.go:160-227 | a row can be claimed if and only if it was inserted or retried, its delay after a failure with budget left has passed, or the lease of its claim has |
| `OutboxHistory.CleanableExactly` | pkg/outbox/storage.go:487-528 | a row can be deleted if and only if it succeeded and the retention has passed since |
| `OutboxHistory.TasksExactly` | pkg/outbox/storage.go:275-311 | the tasks ever handed out are exactly the claimed rows with budget left, each with its count of deliveries, the token of the claim and the end of its lease |
| `OutboxHistory.AcceptedExactly` | pkg/outbox/storage.go:328-357 | the result of a task is accepted if and only if its claim is the last thing that happened to the row and its lease has not passed |
| `Compensator.TaskTable.Insert` | pkg/compensator/storage.go:60-97 | new rows are pending, due now, without attempts or token; other rows stay |
| `Compensator.TaskTable.Claim` | pkg/compensator/storage.go:67-82 | picked rows without budget fail and complete, the others run under the new token and lease with one more attempt; other rows stay |
| `Compensator.TaskTable.Finish` | pkg/compensator/storage.go:83-133 | takes effect exactly for a running row with this token, with the outcome that `RowShowsHistory` determines |
| `Compensator.TaskTable.Abandon` | pkg/compensator/storage.go:136-140 | gives a running row with this token back with one attempt less |
| `Compensator.TaskTable.Retry` | pkg/compensator/storage.go:161-176 | resets exactly a failed row, and tells a missing row from one that is not failed |
| `Compensator.Backoff` | pkg/compensator/worker.go:179-191 | the delay is half of the minimum doubled once per earlier attempt and capped, plus the jitter, so it lies between half and all of that, and it is never zero |
| `Compensator.RowsStayConsistent` | pkg/compensator/storage.go:57-189 | in every run: running exactly with a nonzero token and within the budget, pending with budget left, completed exactly when terminal, failed with the whole budget spent, attempts equal to claims not given back |
| `Compensator.HoldsExactly` | pkg/compensator/storage.go:122-140 | a result is accepted exactly from the latest claim of a row still running, however late |
| `Compensator.StaleChangesNothing` | pkg/compensator/storage.go:122-140 | a token that no longer holds changes nothing in any continuation |
| `Compensator.FinishAndAbandonAreLast` | pkg/compensator/worker.go:118-150 | after a finish or an abandon the claim no longer holds |
| `Compensator.AbandonUndoesClaim` | pkg/compensator/storage.go:136-140 | claiming and abandoning a row restores its attempts and its count of claims: a pending row is as it was, due now, and an expired running row becomes pending without a token |
| `Compensator.ClaimIsExclusive` | pkg/compensator/storage.go:67-82 | in every run, no step of anyone takes an unfinished claim away before its lease has passed |
| `CompensatorHistory.RowShowsHistory` | pkg/compensator/storage.go:57-189 | in every run each row is what the last statement with an effect on it left, told from the statements alone: due at once after an insert, a `Retry` or an abandon; running to the end of its lease after a claim with budget left; succeeded after a success; pending for the delay after a failure with budget left; failed after a failure or a takeover without; and `attempts` is the number of claims not given back |
| `CompensatorHistory.FinalExactly` | pkg/compensator/worker.go:142-150 | a row has succeeded if and only if the last thing that happened to it is a success reported for its latest claim, and failed if and only if it is a failure or a takeover with the budget spent |
| `CompensatorHistory.ClaimableExactly` | pkg/compensator/storage.go:67-82 | a row can be claimed if and only if it was inserted, retried or given back, its delay after a failure with budget left has passed, or the lease of its claim has |
| `CompensatorHistory.TasksExactly` | pkg/compensator/storage.go:67-82 | the tasks ever handed out are exactly the picked rows with budget left, each with its count of executions and the token of the claim |
| `CompensatorHistory.AcceptedExactly` | pkg/compensator/storage.go:122-140 | the result of a task is accepted if and only if its claim is the last thing that happened to the row, however late |
| `CompensatorHistory.NoRetryBeforeDelay` | pkg/compensator/worker.go:142-150 | after a failure with budget left the row stays pending and nothing happens to it until the delay has passed |
| `Slots.SlotChannel.Reserve` | pkg/outbox/outbox.go:385-411 | while others use the channel, in both modes: the number of attempts before the first that finds it full, at least one after waiting, and an error exactly when the wait is cancelled |
| `Slots.SlotChannel.Unreserve` | pkg/outbox/outbox.go:413-417 | takes back that many tokens while others use the channel |
| `Slots.StepConserves` | pkg/outbox/outbox.go:341-428 | every step keeps occupied slots equal to reserved plus queued plus executing, within the number of workers |
| `Slots.SlotsConserved` | pkg/outbox/outbox.go:341-428 | in every run slots are conserved on every path, concurrent handlers stay within the number of workers, and when all is quiet no slot is lost |
| `Slots.NeverBlocks` | pkg/outbox/worker.go:107-161 | handing a task to the workers never blocks, nor does giving a slot back |
| `Slots.TasksRunOnce` | pkg/outbox/worker.go:107-161 | in every run every task claimed for the workers is with its caller, queued, running or ended, each once, every task of a dispatching caller is with it or ended, and every token taken is in the channel or was given back; when all is quiet as many executions have ended as tasks were claimed |
| `KafkaPartition.Worker.Enqueue` | pkg/infra/kafka.go:716-733 | appends unless revoked, and tells the consumer to pause exactly when the worker becomes paused |
| `KafkaPartition.Worker.Next` | pkg/infra/kafka.go:735-763 | takes the first record and resumes fetching at the lower mark |
| `KafkaPartition.Worker.Complete` | pkg/infra/kafka.go:780-786 | marks the record unless revoked |
| `KafkaPartition.Worker.MarkRevoked` | pkg/infra/kafka.go:815-820 | drops the queue and marks nothing |
| `KafkaPartition.StepKeepsInv` | pkg/infra/kafka.go:624-820 | every step keeps the order of enqueued, taken, settled and marked records and the bounds of the queue |
| `KafkaPartition.OrderedCommit` | pkg/infra/kafka.go:488-820 | in every interleaving as many records are marked as the goroutine completed before `markRevoked`; they are the first ones handed to the worker, in order; the k-th was in hand when the k-th success came, of the handler after at most `maxRetries` failures since its slot or of the DLQ write after exactly one more; pause and resume bound the queue |
| `KafkaPartition.NothingAfterRevoke` | pkg/infra/kafka.go:582-599 | nothing is marked or enqueued after `markRevoked` |
| `KafkaPartition.RetriesBeforeDeadLetter` | pkg/infra/kafka.go:643-684 | the handler is called only while it has failed at most `maxRetries` times since the slot was acquired, the DLQ is written only after exactly `maxRetries + 1` failures, and after each failure without a cancellation the record in hand is tried again or goes to the DLQ accordingly |
| `KafkaPartition.EndsExactly` | pkg/infra/kafka.go:624-684 | the goroutine ends exactly when it sees a stop or cancellation while waiting, or when the handler or the DLQ write fails after a cancellation |
| `KafkaShare.ShareConsumerLimits` | pkg/infra/kafka.go:1128-1142 | the limits add up to the concurrency, each lies between 1 and the batch size, any two differ by at most one |
| `KafkaShare.CountFits` | pkg/infra/kafka.go:1129-1133 | the number of consumers covers the concurrency at the batch size without exceeding it |
| `RedisStream.Subscription.Register` | pkg/infra/redis_stream.go:97-104 | the step by which a message enters the pipeline of `OnePlaceAtATime`: allowed exactly when it is in no place |
| `RedisStream.Subscription.Release` | pkg/infra/redis_stream.go:115-119 | the step by which a message leaves the pipeline of `OnePlaceAtATime` |
| `RedisStream.StepKeepsInv` | pkg/infra/redis_stream.go:97-728 | every step of every goroutine keeps both counts for every message: places against `inFlight`, acknowledgements issued, owed and given up against successes and DLQ writes |
| `RedisStream.OnePlaceAtATime` | pkg/infra/redis_stream.go:97-621 | in every interleaving a message is in at most one place of the pipeline, and in `inFlight` exactly then |
| `RedisStream.AcksAreEarned` | pkg/infra/redis_stream.go:488-728 | in every interleaving the acknowledgements of a message, issued, on their way and given up, are as many as its handler successes and DLQ writes |
| `RedisStream.LostOnlyAfterCancel` | pkg/infra/redis_stream.go:516-521 | an acknowledgement is given up only after the subscription was cancelled |
| `RedisStream.ActsExactly` | pkg/infra/redis_stream.go:488-551 | what a worker can do next is decided by its last act, the queue and the two signals: a received message is handled or dropped after a stop, a success is sent to the ack worker or given up after a cancellation, a failure is released, a DLQ write is acknowledged and then released |
| `RedisStream.NoSendAfterClose` | pkg/infra/redis_stream.go:333-354 | no worker can send to the ack queue once it is closed |
| `Lifecycle.Lifecycle.Begin` | internal/mqruntime/mqruntime.go:54-62 | succeeds exactly while open, and counts the operation as `CountersTell` demands |
| `Lifecycle.Lifecycle.End` | internal/mqruntime/mqruntime.go:65-67 | the step of `ReleaseIsLast` that ends an operation, whatever the stage |
| `Lifecycle.Lifecycle.Track` | internal/mqruntime/mqruntime.go:98-106 | the step of `ReleaseIsLast` that tracks a subscription: it succeeds exactly while open |
| `Lifecycle.Lifecycle.Untrack` | internal/mqruntime/mqruntime.go:108-112 | the step of `ReleaseIsLast` by which `Finish` removes a subscription, whatever the stage |
| `Lifecycle.Lifecycle.StartClose` | internal/mqruntime/mqruntime.go:117-138 | exactly one caller becomes the closer, and it gets the subscriptions tracked at that moment |
| `Lifecycle.Lifecycle.FinishClose` | internal/mqruntime/mqruntime.go:161-166 | the result is stored no later than the channel other callers wait on is closed |
| `Lifecycle.Lifecycle.Answer` | internal/mqruntime/mqruntime.go:119-130 | a later close returns through the channel exactly once the first has finished, with its result |
| `Lifecycle.StepKeepsInv` | internal/mqruntime/mqruntime.go:54-203 | every critical section, wait and release keeps the barrier's invariant, and after a close has started nothing begins or is tracked |
| `Lifecycle.CountersTell` | internal/mqruntime/mqruntime.go:54-67 | in every run the stage is open exactly before the first `Close`, and the operations under way are the `Begin` calls before it less the `End` calls |
| `Lifecycle.SetsTell` | internal/mqruntime/mqruntime.go:98-112 | in every run the subscriptions are exactly those tracked before any `Close` and not removed since |
| `Lifecycle.ReleaseIsLast` | internal/mqruntime/mqruntime.go:117-203 | at any call of release in any run: as many operations have ended as ever begin, every subscription ever tracked has entered `Finish`, those tracked when the first close started have closed their channel, and there is no other call of release |
| `Lifecycle.NothingStartsAfterClose` | internal/mqruntime/mqruntime.go:54-106 | once a close has started, `Begin` and `Track` change nothing, whatever has happened since |
| `Lifecycle.EveryCloseAgrees` | internal/mqruntime/mqruntime.go:117-167 | every close that returns by finishing or by finding the first finished gives the result of an earlier call of release in the run |
| `Lifecycle.WaitsOnlyForWork` | internal/mqruntime/mqruntime.go:139-160 | the release is possible only when all work has ended; from then on, in every continuation, it has happened or the first close can take its next step towards it, and no step of anyone sets it back |
| `EtcdCache.ServiceState.PutLocked` | pkg/registry/etcd/balancer.go:130-147 | the map gets the descriptor, map and slice stay in bijection, and only a changed endpoint replaces the object |
| `EtcdCache.ServiceState.RemoveLocked` | pkg/registry/etcd/balancer.go:168-181 | exactly the ID disappears, and swap-remove keeps map and slice in bijection |
| `EtcdCache.ServiceState.ReplaceLocked` | pkg/registry/etcd/balancer.go:94-109 | the map becomes the snapshot, later entries winning, objects with an unchanged endpoint are kept, and map and slice agree if and only if no ID repeats |
| `EtcdCache.ServiceState.ReplaceAt` | pkg/registry/etcd/balancer.go:83-91 | applies a snapshot unless its revision is stale |
| `EtcdCache.ServiceState.PutAt` | pkg/registry/etcd/balancer.go:119-127 | applies a put unless its revision is stale |
| `EtcdCache.ServiceState.RemoveAt` | pkg/registry/etcd/balancer.go:157-165 | applies a delete unless its revision is stale |
| `EtcdCache.ServiceState.AdvanceRevision` | pkg/registry/etcd/balancer.go:184-190 | the revision only grows |
| `EtcdCache.ServiceState.HandleAll` | pkg/registry/etcd/balancer.go:83-190 | after any sequence of events the objects hold what the plain map holds, in bijection |
| `EtcdCache.CacheIsFold` | pkg/registry/etcd/balancer.go:83-190 | the plain map is the fold of the events that are not stale, the revision the greatest seen |
| `EtcdCache.EntryIsLastEvent` | pkg/registry/etcd/balancer.go:83-190 | whatever events come in whatever order, the entry of an ID is what the last event about it says that is not below an earlier one: the instance put, nothing after a delete, and after a snapshot its last entry for the ID or nothing |
| `EtcdCache.EntryStays` | pkg/registry/etcd/balancer.go:83-190 | without such an event the entry is the one from before |
| `EtcdCache.RevisionIsGreatest` | pkg/registry/etcd/balancer.go:184-190 | the revision is the greatest seen |
| `EtcdCache.InOrderNothingDropped` | pkg/registry/etcd/balancer.go:83-190 | events in revision order are never dropped |
| `SqlExpr.RenderExpr` | pkg/sqlxgen/sqlxgen.go:102-190 | the builder loops return the text and arguments of the specification, or refuse |
| `SqlExpr.RenderGroup` | pkg/sqlxgen/sqlxgen.go:143-174 | the same for groups, members in order |
| `SqlExpr.ClassifyPredicate` | pkg/sqlxgen/sqlxgen.go:515-566 | the class is the strong Kleene value with every non-constant leaf unknown |
| `SqlExpr.IsUnrestricted` | pkg/sqlxgen/sqlxgen.go:508-513 | true exactly when that value of the conjunction is true |
| `SqlExpr.KleeneIsSound` | pkg/sqlxgen/sqlxgen.go:508-566 | a decided class is the truth value on every row under every comparison |
| `SqlExpr.GuardIsExactOnLeaves` | pkg/sqlxgen/sqlxgen.go:508-566 | the guard refuses exactly the predicate lists true under every assignment of truth values to leaves |
| `SqlExpr.GuardIsExact` | pkg/sqlxgen/sqlxgen.go:508-566 | without null tests the guard refuses exactly the predicate lists true on every row of any one database that has a NULL |
| `SqlExpr.NullTestsEscapeTheGuard` | pkg/sqlxgen/sqlxgen.go:508-566 | a predicate with null tests that is true on every row and passes |
| `SqlExpr.KleeneAtIsSound` | pkg/sqlxgen/sqlxgen.go:102-141 | with the NULL columns of a row given, a decided Kleene value is the truth value on that row |
| `SqlExpr.HoldsForAllNullsSuffices` | pkg/sqlxgen/sqlxgen.go:102-141 | a predicate with the Kleene value true for every choice of the NULL columns it tests holds on every row, whatever the database compares |
| `SqlGuard.MeaningIsValueAt` | pkg/sqlxgen/sqlxgen.go:102-190 | a row and a choice that agree on the columns and constants of a predicate give it the same truth value |
| `SqlGuard.HoldsEverywhereExactly` | pkg/sqlxgen/sqlxgen.go:102-190 | a predicate holds on every row of every SQL database that orders its constants as given if and only if it is true for every choice of NULL columns, places of the others among the constants, and LIKE |
| `SqlGuard.PlacesBeyondDoNotMatter` | pkg/sqlxgen/sqlxgen.go:102-190 | that check is finite: places beyond the least and the greatest constant make no difference |
| `SqlGuard.GuardIsExactExactly` | pkg/sqlxgen/sqlxgen.go:508-566 | the guard is exact on a predicate list if and only if it refuses it or some choice leaves the list not true |
| `SqlGuard.OppositesEscapeTheGuard` | pkg/sqlxgen/sqlxgen.go:508-566 | a comparison or its negation or a null test holds on every row and passes |
| `SqlGuard.RangesEscapeTheGuard` | pkg/sqlxgen/sqlxgen.go:508-566 | two overlapping half-lines or a null test hold on every row and pass |
| `SqlText.LexIdentifier` | pkg/sqlxgen/sqlxgen.go:74-80 | a quoted identifier reads back as the name, whatever characters it has, in both dialects |
| `SqlText.LexText` | pkg/sqlxgen/sqlxgen.go:102-190 | rendered pieces come back from the lexer one by one, placeholders numbered in order |
| `SqlText.RenderIsText` | pkg/sqlxgen/sqlxgen.go:102-190 | rendering writes exactly the pieces of the tree and returns exactly its values in order |
| `SqlMeaning.QuestionsAreArgs` | pkg/sqlxgen/sqlxgen.go:102-190 | one placeholder per argument |
| `SqlMeaning.RendersExactly` | pkg/sqlxgen/sqlxgen.go:102-190 | rendering succeeds exactly when no expression is nil and every leaf names a column |
| `SqlMeaning.BuildWhereExactly` | pkg/sqlxgen/sqlxgen.go:456-501 | a WHERE clause is written if and only if there are no expressions, or none is nil at any depth and every leaf has a non-empty column the model admits by owner and name, or by name alone without an owner |
| `SqlMeaning.RenderKeepsMeaning` | pkg/sqlxgen/sqlxgen.go:102-190 | for every tree, row, comparison and dialect, the text parsed back and evaluated with the arguments in three-valued logic has the tree's meaning |
| `SqlMeaning.WhereKeepsMeaning` | pkg/sqlxgen/sqlxgen.go:456-473 | the WHERE clause means the conjunction of its predicates |
| `SqlStatement.WriteAssignments` | pkg/sqlxgen/sqlxgen.go:581-613 | the loop returns the text and arguments of the specification, or refuses an empty list, a foreign column or a repeated one |
| `SqlStatement.UpdateKeepsMeaning` | internal/sqlxgen/generate_go.go:281-285 | an UPDATE read back gives each column the value, sum or NULL of its assignment on the rows where the predicates hold, SET arguments before WHERE arguments |
| `SqlStatement.BuildAssignmentsExactly` | pkg/sqlxgen/sqlxgen.go:581-613 | a SET list is written if and only if it is not empty, every column is non-empty and admitted, and no owner and column come twice |
| `SqlStatement.UpdatesExactly` | internal/sqlxgen/generate_go.go:280-285 | an UPDATE is unsafe if and only if nothing allows it on all rows and its predicates are certain whatever the row, and otherwise written if and only if SET list and predicates are |
| `SqlStatement.SetsOnceExactly` | pkg/sqlxgen/sqlxgen.go:581-613 | an accepted SET list sets each column once if and only if no column comes with two owners |
| `SqlStatement.ColumnsCanBeSetTwice` | pkg/sqlxgen/sqlxgen.go:568-613 | an accepted SET list that sets a column twice, through two owners |
| `SqlStatement.DialectsAgreeOnSet` | pkg/sqlxgen/sqlxgen.go:581-613 | then evaluating all right-hand sides at once and from left to right give the same row, so an UPDATE means the same in both dialects |
| `SqlSelect.WriteOrders` | pkg/sqlxgen/sqlxgen.go:616-641 | the loop with its length test writes the keys in order, separated by commas, or refuses a foreign or empty column |
| `SqlSelect.SelectKeepsMeaning` | internal/sqlxgen/generate_go.go:253-261 | the clauses after the table read back as the predicates, the sort keys in order and the window asked for, WHERE arguments before those of LIMIT and OFFSET |
| `SqlSelect.SelectsExactly` | pkg/sqlxgen/sqlxgen.go:616-661 | the clauses are written if and only if predicates and sort keys name admitted columns and neither limit nor offset is negative |
| `SqlSelect.PageIsText` | pkg/sqlxgen/sqlxgen.go:644-661 | the four shapes of pagination are the limit followed by the offset, with the MySQL numeral for a missing limit |

## Left out

- `SnowflakeCluster.GloballyUnique`: the `Snowflake` object is modelled as steps on values, one per atomic access, because its fields are read by one goroutine while another changes them; time is whole milliseconds.
- `SnowflakeWorkers.WorkerTable.Allocate`: rows outside the worker range other than the coordinator's, IP addresses and the retry after a duplicate key are not modelled; in `SnowflakeCluster` all processes use the stored epoch.
- `SegmentStore.TagRow.FetchPostgreSQL`: connection errors and retries are not part of the methods; a fetch that fails, or commits and loses its answer, is a step of `SegmentCluster`.
- `OutboxAssignment.SearchStrings`: stands for the library's search, and `Sort` for the library's sort, by what they return.
- `OutboxMessages.MessageTable.MarkClaimed`: which due rows a claim query selects (order, limit, skipped locks) is left open, so all claims hold for any choice; texts, payloads and `updated_at` are not modelled.
- `Compensator.TaskTable.Claim`: the same for the compensator's query and its task types.
- `Compensator.Backoff`: in milliseconds.
- `KafkaPartition.OrderedCommit`: one worker; the map of workers per partition, rebalancing deadlines and the broker's offsets are not modelled.
- `RedisStream.OnePlaceAtATime`: the bound of the channels and the reclaim cursor are not modelled; a step that sends does not wait for room.
- `SqlSelect.SelectKeepsMeaning`: without the column list before the table.
- `SqlMeaning.RenderKeepsMeaning`: on the text with question marks; turning them into the numbered placeholders of PostgreSQL is done by the sqlx library.
- The backlog wake-up handshake of the compensator: the periodic scan covers it, and no liveness is claimed.
- Scoring, random choice and in-flight counters of the etcd balancer, and its health statistics beyond the identity of the object that carries them.
- Kafka share-group record processing, consumer rebuilding and retry delays; Redis Streams consumer cleanup and message encoding.
- Schema creation, configuration, logging, metrics, `pkg/auth`, `pkg/client`, `pkg/server`, `pkg/cache` and the Go source generator apart from the argument order of what it emits.
