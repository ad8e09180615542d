# Verification of the Convex backend's queue, scheduler, cache and index structures

This project models the stateful core structures of the Convex backend in Dafny 4.11 and proves
properties of every run of them. `dafny verify dfyconfig.toml` checks the whole project.

Each structure is modelled twice over where the source mutates state: a pure transition system
(`State`, `Event`, `Enabled`, `Next`, `Run`, `After`), about which the run theorems are stated, and a
class whose methods keep the source's loops and in-place updates and are proved to make exactly the
transitions of that system. Every critical section, channel operation and clock read of the source is
a separate step or a separate value, so the theorems hold for every interleaving.

| file | models |
|---|---|
| `LruOrder.dfy` | the contract of the `lru` crate: recency order, lookup, put, pop |
| `CacheStore.dfy` | the locked part of `AsyncLru`: entries, size counter, the three critical sections, the trim loop |
| `AsyncLru.dfy` | `AsyncLru` as a transition system: callers, request queue, builds, prepopulation, eviction, replies |
| `AsyncLruReplies.dfy` | what callers are answered, read off the list of events; progress of builds |
| `LruRecency.dfy` | the recency order over runs |
| `AsyncLruRuns.dfy` | concrete runs where the plain statements fail |
| `MultiTypeLru.dfy` | type-erased keys and values on top of `AsyncLru` |
| `CoDelQueue.dfy`, `CoDelQueueImpl.dfy` | the CoDel queue, its sender and receiver handles, and the mutable objects |
| `ThreadPool.dfy` | dispatcher and workers of `BoundedThreadPool` over the CoDel queue |
| `FunctionLog.dfy` | the cursor-addressed function log, eviction, streaming, summaries |
| `TopK.dfy` | top-k rate aggregation |
| `IdTracker.dfy`, `DeletedBitset.dfy`, `Bytes.dfy` | the id table and the deleted bitset with their file formats |
| `ClientPool.dfy` | first-fit client sharing |
| `SearchTokens.dfy` | inversion of prefix search |
| `Arith.dfy`, `Prelude.dfy` | shared arithmetic facts; `Option` and `Result` |

## Findings

- `current_size` is not always the sum of the cached sizes: a failing build of a key that another build
  prepopulated pops the Ready entry without subtracting its size (`AsyncLruRuns.LeakIsReachable`). It is
  exact if and only if no such step occurred (`AsyncLru.ExactSizeIff`). The lost capacity never comes back.
- `drop_waiting` can panic (`AsyncLruRuns.DropWaitingPanicIsReachable`), exactly when an expired request
  meets a Ready entry; it is the only panic any run can reach. The `expect` in `trim_to_size` cannot fire:
  the leak is always bounded by `max_size`.
- That panic is also the only way a caller's `recv` can fail when generators return their requested key:
  throughout such a run no channel closes without a message if and only if no step is the panic
  (`AsyncLru.CompleteRunsServeIff`). The comment on `wait_for_value` calls such a failure a developer error.
- A key can be built twice at once after its Waiting entry was evicted
  (`AsyncLruRuns.DoubleBuildIsReachable`). Single flight holds throughout a run if and only if no step
  displaces a Waiting entry whose build goes on (`AsyncLru.SingleFlightIff`).
- The comment on `trim_to_size` says that evicting a Waiting entry causes a channel error for its callers.
  The eviction alone does not; it does when the key is then requested and built again before the first
  request is taken up as expired (`AsyncLruRuns.EvictedWaiterFails`).
- The comment on `AsyncLru::new` says that `max_size` 0 panics. It does not; nothing of positive size stays cached.
- With `MAX_UDF_EXECUTION` 0 the log forgets its last cursor and cursors can repeat
  (`FunctionLog.CursorsRepeatWithoutRetention`); with at least 1 they strictly increase.
- Shrinking a `DeletedBitset` breaks its count exactly when a deleted bit is dropped
  (`DeletedBitset.ResizeConsistentIff`); `MemoryIdTracker::insert` leaves stale inverse entries exactly when
  it reuses an index or an id for another partner (`IdTracker.InsertInverseIff`).

## Model

| member | source | states |
|---|---|---|
| `CacheStore.TrimIsShortest` | crates/async_lru/src/async_lru.rs:293-319 | trimming evicts the shortest least-recently-used prefix that brings the counter within `max_size`; the `expect` fires iff the leaked size alone exceeds `max_size` |
| `CacheStore.TrimDropsPrefix` | crates/async_lru/src/async_lru.rs:293-319 | trimming terminates, drops a prefix of the recency order and subtracts exactly its memoized sizes |
| `CacheStore.InsertedSurvivesIff` | crates/async_lru/src/async_lru.rs:264-279 | a freshly built value stays cached iff its size plus the leak fits in `max_size` |
| `CacheStore.UpdateAccounting` | crates/async_lru/src/async_lru.rs:256-286 | one `update_value`, for both outcomes: the counter stays Ready sizes plus leak and within `max_size`; the leak grows exactly by a Ready entry popped on failure |
| `CacheStore.UpdateLookup` | crates/async_lru/src/async_lru.rs:256-286 | the entry at every key after `update_value`: evicted keys are gone, the built key is Ready or absent, all others unchanged |
| `CacheStore.RequestKeepsLookups` | crates/async_lru/src/async_lru.rs:382-428 | a request changes no entry but the Waiting one it creates, and no size |
| `CacheStore.Inner.TrimToSize` | crates/async_lru/src/async_lru.rs:293-319 | the loop computes that trim; no unsigned subtraction underflows; it panics iff the leak exceeds `max_size` |
| `CacheStore.Inner.UpdateValue` | crates/async_lru/src/async_lru.rs:256-286 | the critical section makes the specified update, keeps the accounting and never panics |
| `CacheStore.Inner.DropWaiting` | crates/async_lru/src/async_lru.rs:247-254 | pops the entry without touching the counter; panics iff it was Ready |
| `CacheStore.Inner.GetSync` | crates/async_lru/src/async_lru.rs:382-428 | hit, join, kickoff or queue-full by the cached entry and the queue's answer, with the resulting recency order |
| `AsyncLru.StepAccounted` | crates/async_lru/src/async_lru.rs:247-319 | every step keeps the accounting equation; the only step that panics is an expiry that meets a Ready entry |
| `AsyncLru.RunAccounted` | crates/async_lru/src/async_lru.rs:256-319 | over every run the counter is the memoized Ready sizes plus the leak, and leak ≤ counter ≤ `max_size` |
| `AsyncLru.ExactSizeIff` | crates/async_lru/src/async_lru.rs:281-284 | the counter equals the sum of Ready sizes iff no step of the run popped a Ready entry of non-zero size unaccounted |
| `AsyncLru.RunInvariant` | crates/async_lru/src/async_lru.rs:226-245 | at most 200 queued and `concurrency` running builds, each in one place, each replying at most once after settling its own entry, every waiter on a channel of its own key |
| `AsyncLru.StepOrphansIff` | crates/async_lru/src/async_lru.rs:450-477 | a step orphans a Waiting entry iff its generator's map lacks the requested key while the entry still points at the build, or it is the panic while an entry points at a running build |
| `AsyncLru.OrphanFreeIff` | crates/async_lru/src/async_lru.rs:382-477 | throughout a run every Waiting entry belongs to an unfinished build iff no step abandons one |
| `AsyncLru.CompleteRunsServeIff` | crates/async_lru/src/async_lru.rs:431-477 | with generators that return their requested key, despite prepopulation and eviction: throughout a run no caller's channel closes without a message iff no step is the panic of `drop_waiting`, and before it no Waiting entry is orphaned |
| `AsyncLru.PanicFailsTheCaller` | crates/async_lru/src/async_lru.rs:247-254 | the panic closes the channel of the caller whose request expired, with nothing sent |
| `AsyncLru.OneBuildPerKey` | crates/async_lru/src/async_lru.rs:58-64 | under single flight two unfinished builds of one key are the same build |
| `AsyncLru.KeepingKeepsSingleFlight` | crates/async_lru/src/async_lru.rs:382-428 | a step that displaces no Waiting entry keeps "Waiting on c iff build c is unfinished" |
| `AsyncLru.DisplacingBreaksSingleFlight` | crates/async_lru/src/async_lru.rs:288-292 | a step that displaces one breaks it |
| `AsyncLru.SingleFlightIff` | crates/async_lru/src/async_lru.rs:382-477 | single flight holds throughout a run iff no step of it displaces a waiting build |
| `AsyncLru.OwnKeyRunsAreOrderly` | crates/async_lru/src/async_lru.rs:337-360 | runs of `get` without eviction of Waiting entries: single flight, no leak, no panic, exact counter |
| `AsyncLru.InitIsOrderly` | crates/async_lru/src/async_lru.rs:226-245 | the new cache satisfies every invariant the run theorems start from |
| `AsyncLru.DeliveredWasProduced` | crates/async_lru/src/async_lru.rs:362-477 | every value delivered for a key was produced by some generator under that key |
| `AsyncLruReplies.DeliveredIsExactly` | crates/async_lru/src/async_lru.rs:362-477 | over every run, what callers were handed is exactly the cached value at each hit and, at each `recv`, what the generator of that build returned for the requested key, read off the events |
| `AsyncLruReplies.WaiterGetsTheBuiltValue` | crates/async_lru/src/async_lru.rs:431-477 | in every run of a new cache, when a build generated a value for its key, a later `recv` of a caller of that key on its channel hands over that value |
| `AsyncLruReplies.GetOutcome` | crates/async_lru/src/async_lru.rs:382-428 | hit: the value; waiting: join that channel; miss: a new channel, queued with its Waiting entry; miss with 200 requests queued: nothing changes |
| `AsyncLruReplies.StartDecides` | crates/async_lru/src/async_lru.rs:456-467 | over every run, a request taken up as expired never runs its generator, and one taken up in time never drops its entry |
| `AsyncLruReplies.BuildReplies` | crates/async_lru/src/async_lru.rs:456-477 | a running build's own steps alone lead to a reply that every waiting caller can receive, for every map with the requested key |
| `AsyncLruReplies.NoDeadlock` | crates/async_lru/src/async_lru.rs:456-477 | a running build can always step, and with none running a queued one can start |
| `AsyncLruReplies.InitIsFaithful` | crates/async_lru/src/async_lru.rs:226-245 | the new cache satisfies the invariants these theorems start from |
| `LruRecency.UpdateRecent` | crates/async_lru/src/async_lru.rs:264-279 | every entry an update evicts was last used before every entry it keeps |
| `LruRecency.RunRecent` | crates/async_lru/src/async_lru.rs:382-428 | in every reachable state the entries stand in the order of their last use |
| `AsyncLruRuns.LeakIsReachable` | crates/async_lru/src/async_lru.rs:281-284 | a run, one build at a time, after which the counter is 5 and the Ready sizes sum to 2 |
| `AsyncLruRuns.DropWaitingPanicIsReachable` | crates/async_lru/src/async_lru.rs:247-254 | a run, one build at a time, that ends in the panic |
| `AsyncLruRuns.DoubleBuildIsReachable` | crates/async_lru/src/async_lru.rs:288-300 | a run with two unfinished builds of the same key |
| `AsyncLruRuns.EvictedWaiterFails` | crates/async_lru/src/async_lru.rs:288-300 | a run of own-key builds, one at a time, in which the caller of an evicted Waiting entry ends on a closed channel with no message |
| `MultiTypeLru.DowncastNeverFails` | crates/async_lru/src/multi_type_async_lru.rs:93-122 | over every run, each value handed to a caller passes the downcast to its key's value type |
| `CoDelQueue.PushKeepsShape` | crates/common/src/codel_queue.rs:120-133 | a push keeps the buffer an idle-deadline prefix and congested-deadline suffix in arrival order, none before `last_time_empty` |
| `CoDelQueue.PopKeepsShape` | crates/common/src/codel_queue.rs:135-170 | so does a pop |
| `CoDelQueue.ExpiredIff` | crates/common/src/codel_queue.rs:151-170 | an item is flagged expired iff it waited longer than the expiration given on arrival |
| `CoDelQueue.ServesOldestOrNewest` | crates/common/src/codel_queue.rs:151-164 | the oldest arrival is served when the front has expired or the queue is idle, else the newest |
| `CoDelQueue.PushOutcome` | crates/common/src/codel_queue.rs:120-133 | a push is refused iff `capacity` items wait; else the entry lives for the idle expiration iff the queue was last found empty less than that long ago, an empty queue counting as found empty now |
| `CoDelQueue.EmptyQueueIsIdle` | crates/common/src/codel_queue.rs:96-118 | an item pushed into an empty queue gets the idle expiration however long the queue was quiet, as long as the idle test reads the clock within that time of the refresh |
| `CoDelQueue.PopOutcome` | crates/common/src/codel_queue.rs:135-170 | which entry leaves, its flag, what stays, and when `last_time_empty` moves |
| `CoDelQueue.ExpiredOnlyWhenCongested` | crates/common/src/codel_queue.rs:96-112 | nothing is returned expired while the queue is idle |
| `CoDelQueue.NewIsSound` | crates/common/src/codel_queue.rs:58-68 | a new queue and channel satisfy the invariants |
| `CoDelQueue.RunSound` | crates/common/src/codel_queue.rs:96-170 | over every run: that shape, length within capacity, and accepted = returned + buffered as multisets |
| `CoDelQueue.LastTimeEmptyIsLatest` | crates/common/src/codel_queue.rs:107-112 | over every run `last_time_empty` is the last of the clock reads at which the buffer was found empty, and these only move forward |
| `CoDelQueue.CongestionPersists` | crates/common/src/codel_queue.rs:96-112 | congestion lasts until the queue empties |
| `CoDelQueue.FirstInFirstOut` | crates/common/src/codel_queue.rs:151-164 | runs without a congested pop return items in the order accepted |
| `CoDelQueue.EndIff` | crates/common/src/codel_queue.rs:250-259 | the stream ends iff no sender is alive and the buffer is empty, and then everything accepted was delivered |
| `CoDelQueue.ChannelRunOpen` | crates/common/src/codel_queue.rs:205-280 | `senders` counts the live handles over every run; after one end, every poll of every receiver ends and nothing more is delivered |
| `CoDelQueue.HandlesAreAlive` | crates/common/src/codel_queue.rs:218-236 | over every run a handle is live iff it was there or was cloned, and was not dropped since, by the operations alone |
| `CoDelQueue.SendersCount` | crates/common/src/codel_queue.rs:218-236 | `senders` is what it was plus the clones minus the drops |
| `CoDelQueue.EndIffAllDropped` | crates/common/src/codel_queue.rs:247-280 | in every run of a new channel a poll answers the end iff the buffer is empty and every handle ever made was dropped, and then everything accepted was delivered |
| `CoDelQueueImpl.Queue.UpdateLastTimeEmpty` | crates/common/src/codel_queue.rs:107-118 | moves `last_time_empty` to a fresh clock read iff the queue is empty; metric reads change nothing |
| `CoDelQueueImpl.Queue.IsIdle` | crates/common/src/codel_queue.rs:96-105 | the idle test on a later clock read than the refresh |
| `CoDelQueueImpl.Queue.Push` | crates/common/src/codel_queue.rs:120-133 | full queue: error and no change; else the specified push at ordered clock reads, with the resulting `last_time_empty` and deadline stated on the fields |
| `CoDelQueueImpl.Queue.PopFront` | crates/common/src/codel_queue.rs:135-143 | removes the first entry, if any, then refreshes |
| `CoDelQueueImpl.Queue.PopBack` | crates/common/src/codel_queue.rs:145-149 | removes the last entry, if any, then refreshes |
| `CoDelQueueImpl.Queue.Pop` | crates/common/src/codel_queue.rs:151-170 | the specified pop at ordered clock reads |
| `CoDelQueueImpl.Shared.CloneSender` | crates/common/src/codel_queue.rs:218-225 | the channel's step: the count goes up by one with the new live handle |
| `CoDelQueueImpl.Shared.DropSender` | crates/common/src/codel_queue.rs:227-236 | the channel's step: the count goes down by one with the dropped handle, without underflow |
| `CoDelQueueImpl.Shared.TrySend` | crates/common/src/codel_queue.rs:238-245 | the channel's step at clock reads after the clock: accepts the item iff there is room, and keeps the channel invariant |
| `CoDelQueueImpl.Shared.PollNext` | crates/common/src/codel_queue.rs:247-280 | the channel's step at clock reads after the clock: an item iff the buffer is not empty, the end iff it is and no handle lives, and keeps the channel invariant |
| `ThreadPool.StepPartitioned` | crates/common/src/bounded_thread_pool.rs:118-213 | every step keeps each worker in exactly one of available, reserved, busy, reported |
| `ThreadPool.RunSound` | crates/common/src/bounded_thread_pool.rs:118-213 | in every reachable state: that partition, at most `max_exec_threads` workers, no failed hand-over |
| `ThreadPool.InitIsSound` | crates/common/src/bounded_thread_pool.rs:55-79 | the new pool satisfies the invariant |
| `ThreadPool.DoneHasRoom` | crates/common/src/bounded_thread_pool.rs:148-161 | a reporting worker finds room in the in-progress channel |
| `ThreadPool.SendsNeverFail` | crates/common/src/bounded_thread_pool.rs:156-210 | in every reachable state neither `try_send` finds its channel full |
| `ThreadPool.EveryRequestOnce` | crates/common/src/bounded_thread_pool.rs:89-115 | over any run every accepted request is in exactly one stage: queued, handed over, in a worker, executed or expired |
| `ThreadPool.ExpiredAreTheFlagged` | crates/common/src/bounded_thread_pool.rs:191-198 | over any run exactly the requests the queue flagged are expired, in that order |
| `ThreadPool.QueueIsAChannel` | crates/common/src/bounded_thread_pool.rs:81-115 | over every run the pool's queue is the channel of the clients' and the dispatcher's operations, in order |
| `ThreadPool.ReportsInOrder` | crates/common/src/bounded_thread_pool.rs:163-189 | workers are collected in the order in which they reported, none lost |
| `ThreadPool.CreatesOnlyWhenAllBusy` | crates/common/src/bounded_thread_pool.rs:163-189 | a worker is created only if all were busy when the dispatcher finished draining, whatever happens until it picks |
| `ThreadPool.DispatcherNeverStuck` | crates/common/src/bounded_thread_pool.rs:156-213 | until it stops the dispatcher can step, except while it waits for a report or on an empty queue with live senders |
| `ThreadPool.WorkerNeverStuck` | crates/common/src/bounded_thread_pool.rs:118-154 | a busy worker can always take its next step |
| `ThreadPool.ClientsCanSend` | crates/common/src/bounded_thread_pool.rs:81-115 | any live handle can send a new request, accepted iff the queue has room |
| `ThreadPool.StopLeavesNothingQueued` | crates/common/src/bounded_thread_pool.rs:191-198 | the dispatcher is stopped iff a poll answered the end, and then no request is left in the queue and no sender lives |
| `ThreadPool.BlockedIsReleased` | crates/common/src/bounded_thread_pool.rs:172-189 | the dispatcher waits only when all workers exist and none is available, and then, unless a report is there already, any worker's own steps, at most three, lead to a state where it goes on |
| `ThreadPool.MostRecentWorkerFirst` | crates/common/src/bounded_thread_pool.rs:163-173 | draining then picking reserves the worker that reported last |
| `ThreadPool.Scheduler.Drain` | crates/common/src/bounded_thread_pool.rs:166-168 | the loop stacks all reports in order |
| `ThreadPool.Scheduler.PickWorker` | crates/common/src/bounded_thread_pool.rs:172-189 | makes the transition of the model's pick: top of stack, new worker, or wait |
| `FunctionLog.NextTimeIsLeast` | crates/application/src/function_log.rs:1947-1961 | the next cursor is the least not before the clock and after every entry |
| `FunctionLog.EvictDropsShortestPrefix` | crates/application/src/function_log.rs:1805-1813 | eviction removes the shortest prefix that leaves at most the maximum number of completions |
| `FunctionLog.CompletionsAreCounted` | crates/application/src/function_log.rs:1805-1813 | the completion count is the number of positions that hold a completion |
| `FunctionLog.HistoryIsWritten` | crates/application/src/function_log.rs:1776-1905 | over every run the history is exactly the parts written with a readable clock, in order |
| `FunctionLog.RetainsTheLastCompletions` | crates/application/src/function_log.rs:1805-1813 | with `MAX_UDF_EXECUTION` at least one, the completions in the log of every reachable state are the last that many of the whole history, or all there were, and the counter says so |
| `FunctionLog.FirstAfter` | crates/application/src/function_log.rs:1492-1493 | everything before the index is at or before the cursor, the entry at it is after |
| `FunctionLog.WriteSound` | crates/application/src/function_log.rs:1776-1905 | an append keeps the log the end of the history with strictly increasing cursors, and what the reader has received |
| `FunctionLog.PollSound` | crates/application/src/function_log.rs:1488-1522 | a poll keeps delivered and missed exactly the entries asked for |
| `FunctionLog.StreamingIsExactlyOnce` | crates/application/src/function_log.rs:1488-1522 | over every run of writers and a polling reader, whatever the clock: cursors increase over the whole history, and each entry after the first cursor is received once, in order, or was evicted before its poll |
| `FunctionLog.PollCatchesUp` | crates/application/src/function_log.rs:1490-1515 | after a poll no entry past the first cursor is outstanding except ones already evicted |
| `FunctionLog.InitIsSound` | crates/application/src/function_log.rs:1765-1773 | the empty log and a reader at any cursor satisfy the invariants |
| `FunctionLog.CursorsRepeatWithoutRetention` | crates/application/src/function_log.rs:1807-1813 | with a maximum of 0 two writes can get the same cursor |
| `FunctionLog.TallyConcat` | crates/application/src/function_log.rs:1421-1460 | summaries of consecutive polls add up to the summary of everything polled |
| `FunctionLog.TallyCounts` | crates/application/src/function_log.rs:1433-1457 | invocations are the positions holding a completion of the caller, type and environment, errors those that failed, and the time is the sum of their execution times |
| `FunctionLog.SameGroupIff` | crates/application/src/function_log.rs:1438-1445 | two executions are summed together iff caller, type and environment agree |
| `FunctionLog.Inner.LogExecution` | crates/application/src/function_log.rs:1776-1818 | the loop computes the specified append and eviction; the completion counter is exact and does not underflow |
| `FunctionLog.Inner.LogExecutionProgress` | crates/application/src/function_log.rs:1884-1905 | appends a progress part without eviction |
| `FunctionLog.Inner.Stream` | crates/application/src/function_log.rs:1462-1486 | the completions after the cursor, whole and in order |
| `FunctionLog.OnlyAt` | crates/application/src/function_log.rs:1470-1479 | each completion is streamed whole, at the place given by the number of completions before it |
| `FunctionLog.Inner.UdfSummary` | crates/application/src/function_log.rs:1421-1460 | totals and per-group summaries are the tallies of the completions after the cursor; a group is present iff it has an invocation |
| `TopK.SumTimeseries` | crates/application/src/function_log.rs:1708-1725 | the nested loops return the bucketwise sum, or an error iff some series does not fit the window |
| `TopK.SumAtPermutes` | crates/application/src/function_log.rs:1708-1725 | a bucket's sum depends only on which series are summed |
| `TopK.OverallConcat` | crates/application/src/function_log.rs:1347-1353 | the overall value of a series is the sum of the values present, wherever it is cut |
| `TopK.RankedUnique` | crates/application/src/function_log.rs:1324-1336 | rate-then-name ranking of a set of names is unique, so the unstable sort cannot show |
| `TopK.TopNamesAreTheTop` | crates/application/src/function_log.rs:1324-1336 | the chosen names do not depend on iteration order, are `k` or all, and outrank every name left out |
| `TopK.ChosenRates` | crates/application/src/function_log.rs:1324-1336 | the chosen names have the lowest rates when ascending, else the highest, against every name left out and among themselves; equal rates go by the smaller name |
| `TopK.NameLeIff` | crates/application/src/function_log.rs:1333 | names are ordered by their first differing character, or the shorter first |
| `TopK.NothingLostNothingTwice` | crates/application/src/function_log.rs:1358-1381 | in every bucket named plus rest is the total, for both inputs |
| `TopK.ReportedEntries` | crates/application/src/function_log.rs:1360-1381 | the report: each chosen name with its merged series, then `_rest` with the merged sums of what is left |
| `TopK.ReportAccountsForAll` | crates/application/src/function_log.rs:1339-1384 | a successful result has one entry with its own merged series for each chosen name, all other names of both inputs are summed in `_rest`, which is there iff there are any, and its sums complete the chosen ones to the totals in every bucket |
| `TopK.MergedIff` | crates/application/src/function_log.rs:1360-1373 | a named series merges the two inputs bucket by bucket, or the first with nothing, and fails iff both exist with different buckets |
| `TopK.FailsIff` | crates/application/src/function_log.rs:1339-1384 | the aggregation fails iff a chosen name's two series have different buckets or a series left out lacks the window's buckets |
| `TopK.ResultIsOrderFree` | crates/application/src/function_log.rs:1339-1384 | the whole result is the same for every iteration order of the two hash maps |
| `TopK.OverallRates` | crates/application/src/function_log.rs:1347-1357 | the first loop computes, for every name of the first input, the merge of the two overall values in that order, and keeps it iff there is one |
| `TopK.NamedEntries` | crates/application/src/function_log.rs:1360-1373 | the second loop reports the chosen series and moves them out of both maps |
| `TopK.TopKForRate` | crates/application/src/function_log.rs:1339-1384 | the method computes the specified aggregation, errors included |
| `IdTracker.ContiguousIff` | crates/common/src/id_tracker.rs:144-152 | the check on the greatest key holds iff the keys are exactly `0..len-1` |
| `IdTracker.IndexBitsHold` | crates/common/src/id_tracker.rs:161-162 | the computed width is the least that holds every index |
| `IdTracker.BuiltIdsAreDistinct` | crates/common/src/id_tracker.rs:164-167 | the hash table can only be built for distinct ids |
| `IdTracker.LoadEncoded` | crates/common/src/id_tracker.rs:68-92 | loading a written file gives back count, ids and hash table |
| `IdTracker.WriteSucceedsIff` | crates/common/src/id_tracker.rs:144-180 | writing succeeds iff the keys are `0..len-1`, the table can be built, and both lengths fit in 32 bits |
| `IdTracker.FileContents` | crates/common/src/id_tracker.rs:155-180 | version 1, the two lengths, each id at its place, then the index |
| `IdTracker.AcceptedIff` | crates/common/src/id_tracker.rs:68-92 | a file is accepted iff it has version 1, the length its counts ask for, and a readable index |
| `IdTracker.LookupIff` | crates/common/src/id_tracker.rs:114-121 | lookup answers `i` iff `x` is stored at `i`, for members and non-members |
| `IdTracker.StaticAgreesWithTable` | crates/common/src/id_tracker.rs:94-180 | after write and load the static index agrees with the table in both directions, for every 16-byte id |
| `IdTracker.InsertInverseIff` | crates/common/src/id_tracker.rs:131-134 | an insert keeps the two maps inverse iff it reuses no index or id for another partner |
| `IdTracker.LookupIsIndexId` | crates/common/src/id_tracker.rs:114-138 | for tables with inverse maps static lookup equals `index_id` |
| `IdTracker.MemoryIdTracker.Insert` | crates/common/src/id_tracker.rs:131-134 | the pair is found in both maps and every other entry is as before; inverse maps stay inverse iff neither the index nor the id had another partner |
| `IdTracker.MemoryIdTracker.WriteIdTracker` | crates/common/src/id_tracker.rs:155-180 | writes the specified file or fails |
| `DeletedBitset.LoadAfterWrite` | crates/common/src/deleted_bitset.rs:104-178 | writing succeeds iff the count is right and there are under 2^32 bits; the file has 9 + 8·ceil(n/64) bytes and loads back to the same bitset |
| `DeletedBitset.FileLayout` | crates/common/src/deleted_bitset.rs:116-121 | byte `9 + j` of the file holds bits `8j..8j+7`, low bit first |
| `DeletedBitset.BitInFile` | crates/common/src/deleted_bitset.rs:104-125 | document `i` is bit `i % 8`, from the low end, of byte `9 + i / 8`; the header holds version 1, the number of bits and the number of ones |
| `DeletedBitset.BlocksNeeded` | crates/common/src/deleted_bitset.rs:104-125 | the number of blocks is the least that holds the bits |
| `DeletedBitset.CountIsOnes` | crates/common/src/deleted_bitset.rs:104-125 | the count is the number of positions whose bit is set |
| `DeletedBitset.AcceptedIff` | crates/common/src/deleted_bitset.rs:138-178 | a file is accepted iff it has version 1, exactly the length for its bit count, and as many ones as it says |
| `DeletedBitset.WriteAfterLoad` | crates/common/src/deleted_bitset.rs:138-178 | rewriting an accepted file keeps header and bits and clears the padding |
| `DeletedBitset.ReproducedIff` | crates/common/src/deleted_bitset.rs:159-168 | the file is reproduced iff its padding was clear |
| `DeletedBitset.ResizeConsistentIff` | crates/common/src/deleted_bitset.rs:52-54 | resizing keeps the count right iff no deleted bit is dropped |
| `DeletedBitset.DeletedBitset.Resize` | crates/common/src/deleted_bitset.rs:52-54 | the new length, the kept bits and the clear tail; a right count stays right iff no deleted bit is dropped |
| `DeletedBitset.DeletedBitset.Delete` | crates/common/src/deleted_bitset.rs:86-94 | succeeds iff the id is in range and not deleted; then exactly that id becomes deleted and the count stays right |
| `DeletedBitset.DeletedBitset.Write` | crates/common/src/deleted_bitset.rs:104-125 | writes the specified file or fails |
| `DeletedBitset.DeletedBitset.Load` | crates/common/src/deleted_bitset.rs:138-178 | accepts and decodes exactly as specified |
| `ClientPool.ClientsCreated` | crates/common/src/client_pool.rs:38-68 | over every run no client has more than `max` borrowers and exactly ceil(peak / max) clients were created |
| `ClientPool.FirstFitIsOptimal` | crates/common/src/client_pool.rs:38-55 | no pool that respects the cap can serve the peak with fewer clients |
| `ClientPool.GetLends` | crates/common/src/client_pool.rs:38-55 | the first client with capacity, and it alone, is lent once more; with none a new one is made, lent once |
| `ClientPool.ClientPool.New` | crates/common/src/client_pool.rs:23-36 | an error iff the concurrency is zero |
| `ClientPool.ClientPool.Get` | crates/common/src/client_pool.rs:38-55 | the scan lends the first client with capacity or creates one |
| `ClientPool.ClientPool.DropBorrow` | crates/common/src/client_pool.rs:58-60 | one borrow fewer on that client |
| `SearchTokens.CalculatePrefixes` | crates/common/src/document_index_keys.rs:184-203 | a non-empty string is collected iff it is a prefix of some token, the empty one iff it is a token |
| `SearchTokens.SkipIsSound` | crates/common/src/document_index_keys.rs:187-190 | skipping a collected token loses nothing because the set is prefix-closed |
| `SearchTokens.ForEachToken` | crates/common/src/document_index_keys.rs:159-182 | with `prefix`, exactly those strings, each once; without, the tokens in order |

## Left out

- Metrics, tracing, timers, pause clients, log sending, waiter wake-ups and wakers: no effect on the modelled state.
- `lru`, `async_broadcast`, tokio channels, `csf`, `BitVec`, `sort_unstable_by`: used through short contracts, not modelled inside.
- Sizes in `AsyncLru` are unbounded naturals; overflow of the 64-bit counter upwards is not modelled.
- Panicking generators and jobs and dying threads. Runs of `AsyncLru` end at a `drop_waiting` panic: requests still queued then, and later ones, are never taken up.
- `max_exec_threads` 0: tokio's `mpsc::channel(0)` panics at crates/common/src/bounded_thread_pool.rs:161, while the model's dispatcher blocks.
- Floating point: cursors are bit patterns of finite non-negative doubles, series values are reals; NaN, rounding, percentages and resampling are not modelled, nor are errors of `bucket_start`.
- Values of cached entries and jobs are opaque; requests of the pool are numbered.
- `ClientPool` treats a get and a drop as one step each; a drop in the middle of another caller's scan is not modelled.
- `FunctionLog.Inner.UdfSummary`: syscall traces of a group are not merged, because they are another componentwise sum.
- `key_hash` of type-erased keys: hashing is not modelled, only key equality.
- Database, HTTP, deployment, storage and authentication crates, the npm packages, documentation and build scripts.
