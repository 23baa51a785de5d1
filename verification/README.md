# Verified model of quark_strm's stateful core

quark_strm keeps its fragile logic in a few in-memory components: a write queue that merges, batches
and retries database writes, caches with expiry and cascading invalidation, a rate limiter, a workflow
task table, an alert manager, and some pure transformations of configuration trees, test results and
webhook events. This project models these components in Dafny and proves what they keep over every
run.

`dafny verify dfyconfig.toml` checks everything.

How the model is laid out:

- **Write queue.** `WriteQueue` is a state machine whose steps are the atomic sections of the program
  (create, merge section, push section, pop, remove from the merge cache, group, reject, open a session,
  execute, commit, retry, clear, register). Any number of producers and workers take steps in any order,
  and sessions, executions and commits fail at will. `WriteQueueMoves` counts what every step moves,
  `WriteQueueSafety` keeps the invariant of one task, `WriteQueueRuns` puts the invariant together and
  reads the theorems off it, `WriteQueueHeap` shows that order keys never change inside the heap,
  `WriteQueueOrder` says what leaves the queue first in terms of the submitted levels, and when a failed task
  is given up, `WriteQueueCounters` what the counters count,
  `WriteQueueDrain` holds the termination measure and what a refusal does to its merge key,
  `WriteQueueDurable` keeps a log of executions and their sessions and says exactly which writes reach
  the database, `WriteQueueScenarios` has runs that show the bad cases to be real,
  `WriteQueueObject` is the object with its fields and methods, and `WriteQueueSteps` shows that it
  refines the state machine.
- **Caches.** `Lru` specifies each operation as a function on (entries in recency order, counters); the
  class `LruCache` performs it in place. `MultiLevel` puts two of them together. `CacheSpaces` follows one
  namespace of the cache manager through all manager calls; `CacheManager` has the objects. `LruExpiry` and
  `CacheExpiry` say which time to live decides, and when exactly a stored value is found.
- **Rate limiter.** `RateLimiter` compares the limiter with a reference bucket that never forgets;
  `RateLimiterRequests` gives every decision on requests with a client and a verb.
- **Workflow tasks.** `Workflow` lets one coroutine per task interleave with cancel and create requests.
- **Alerts.** `Alerts` follows thresholds and the alert list through runs of checks.
- **Configuration.** `ConfigTree` has nested paths and `EnvOverrides` the laws of the environment overrides
  on trees of values. In `SharedConfig` and `SharedOverrides` several paths may lead to one dictionary, as
  aliases in a YAML file make them: what a write changes, which paths clash, when the overrides read back.
  `EnvOverridesInPlace` has the copy, the nested write and the override phase on dictionaries that are
  changed in place. `SystemConfig` has masking, restoring and merging, `SystemConfigSecrets` what a mask shows
  of a secret and which keys are sensitive.
- **Webhooks.** `Webhooks` compares the incremental event log with a cut of all events into sessions;
  `WebhookFields` says which fields of an item decide.
- **Failure lanes and re-verification.** `Lanes` and `Reverify` follow one iteration of the continuous
  test loop, `LaneOrder` has the order of lanes and modules in full. `Sorting` has the lexicographic order
  that the sorts use.
- `Prelude` and `Text` have filtered sequences, subsequences, repeats, numerals, ASCII case mapping and words
  in any mixture of cases.

Every call takes its clock readings as parameters, real numbers or, for workflow tasks, integers; a
statement that needs a clock that never goes back says so.

What the proofs found, besides what holds:

- A write that is over and was not reported as failed once it was queued can still be missing from the
  database. `WriteQueueDurable.SilentlyLostIff` lists the ways, as an equivalence over all runs of the
  model: its submission was refused, it was cleared before anything of it was durable, an upsert that fell
  back undid it within its session, it named no row to begin with, it is an update whose first execution
  was not made durable, or it is an upsert that fell back with nothing to look a row up by.
- Refusal: a keyed submission that finds the queue full stays in the merge cache
  (`app/core/db_write_queue.py:276-280`). Every later submission with that key is acknowledged and lost,
  until a task of the same id is popped or the queue is cleared: `RefusedTaskStaysCached`,
  `MergeIntoRefusedIsLost`, and from an empty queue `RefusalIsReachable`.
- Updates: executing an update removes the row id from the task's own data
  (`app/core/db_write_queue.py:464`), so an update names its row only until its first execution
  (`UpdateNamesARowIffNeverRun`). One whose first commit fails runs again, writes nothing and is counted
  as completed: `UpdateIsSilentlyLost`.
- Upserts: one that cannot build its row rolls its whole session back and goes on
  (`app/core/db_write_queue.py:485`); what the session did before is undone but counted as completed:
  `UpsertUndoesItsSession`. It then looks for a row to update, and without an `id` or `file_id` it writes
  nothing and is counted as completed too: `UpsertFallsBackOnNothing`.
- A task that fails in a session whose commit fails too is queued twice, and may be committed twice:
  `TaskIsCommittedTwice`. An upsert by a model's `create_or_update` commits the session in its middle
  (`app/models/strm_record.py:46-95`, `app/models/strm_record.py:224-246`); when the session then fails,
  what is durable is retried: `UpsertIsWrittenTwice`. `CommitsAreBounded` counts both causes and bounds how
  often a task is made durable by them.
- Aliases: when two of the sections `tmdb`, `emby` and `security` are one dictionary of the configuration
  file and both get an `api_key` from the environment, the later value is read for both:
  `SharedSectionExample`. `OverridesReadBackIff` says that nothing else can keep a variable from reading
  back, however dictionaries are shared.
- With two limits for one metric, the alert that is resolved can be another threshold's, and the active
  alerts then carry the wrong limit: `WrongAlertIsResolved`. `AgreeIffOwnAlertsResolved` says exactly when,
  and `OneTagPerMetricAgrees` that one limit and operator per metric is enough.
- The counters balance only as long as no failed commit sends tasks back that were already counted;
  `TasksAreConserved` has the exact surplus.
- Restoring masked lists goes by position. Deleting or reordering elements before saving gives them
  back exactly when each can be recovered from the one stored at its new position: `ChoiceRoundTripsIff`,
  `DeletionShiftsSecrets`, with an instance in `DeletionExample`.
- An edit that looks like the mask of what it replaces is ignored, also when it clears a secret:
  `SaveOneEdit` says exactly when an edit takes effect.
- A value promoted into the first cache level can be served for the sum of both times to live after it
  was written, not just for one of them: `StalenessBoundIsTight`.
- Episodes of different seasons can share an aggregate key; `KeyIdentifiesSeason` and
  `SeasonsCoincideIff` say exactly when, `DifferentSeasonsCollide` has an instance.
- With a limit of zero, a clean-up can drop a block between the two clock readings of one call:
  `DecisionsMatchIff`, `ZeroLimitCanDropABlock`. Nothing is accepted in any case.

## Model

| member | source | states |
|---|---|---|
| WriteQueueRuns.StepKeepsInv | app/core/db_write_queue.py:223-523 | every atomic step of every thread keeps the whole invariant: where each task is, what its data carries, how often it was and can still be executed, how the counters balance, who may overtake whom |
| WriteQueueRuns.LostIffRefused | app/core/db_write_queue.py:264-285 | in every interleaving, failures and clears included, the submissions a task carries are never executed, reported or cleared if and only if the push of that task found the queue full |
| WriteQueueRuns.FirstExecutionSeesAllMerges | app/core/db_write_queue.py:264-275 | the data a task is first executed with is the in-order dictionary update of every submission it ever carries, so no merge comes too late |
| WriteQueueRuns.CachedIsNotInABatch | app/core/db_write_queue.py:372-376 | a task in the merge cache has never been executed and stands in no batch, group or retry list of any worker |
| WriteQueueRuns.CachedIsAccountedFor | app/core/db_write_queue.py:264-285 | each task in the merge cache is about to be pushed, queued or in a worker's hands, or was refused; it was never cleared or reported |
| WriteQueueRuns.EmptyKeysNeverMerge | app/core/db_write_queue.py:263-277 | in every run nothing is cached under an empty merge key; a submission with that key or none goes straight to its push, any other to the merge section first |
| WriteQueueRuns.BatchesAreBounded | app/core/db_write_queue.py:344-378 | in every run no worker gathers more tasks than the batch size, and it can take the least queued task exactly while it has fewer |
| WriteQueueRuns.AttemptsAreBounded | app/core/db_write_queue.py:495-520 | no task is executed more than max_retries times (once if that is below one), also when a failed commit retries tasks that are already queued again |
| WriteQueueRuns.TasksAreConserved | app/core/db_write_queue.py:277-285 | in every reachable state total plus the surplus of failed commits equals queued plus held plus completed plus failed plus cleared; the plain balance holds exactly when that surplus is zero |
| WriteQueueRuns.SameProducerIsFifo | app/core/db_write_queue.py:311-315 | of two never-retried tasks of one producer with equal priority, the younger is not popped before the older has been popped or cleared, whatever others do |
| WriteQueueRuns.PopTakesOlderFirst | app/core/db_write_queue.py:41-58 | a younger task of equal priority can be popped only when the older one is not in the queue, having been popped or cleared |
| WriteQueueHeap.QueuedKeysNeverChange | app/core/db_write_queue.py:516-520 | no step changes priority or sequence of a task while it is queued, although retries mutate priorities of tasks that may be queued again, so the heap order is never broken in place |
| WriteQueueHeap.StepKeepsHeapInv | app/core/db_write_queue.py:495-520 | every step keeps: a task that never failed is in one place at most, and one that failed and may run again already has its raised priority |
| WriteQueueOrder.PopOrder | app/core/db_write_queue.py:23-58 | in every reachable state the task that is popped is the oldest of the most urgent queued ones, where the levels low, normal, high and critical ascend and a task that has failed counts at least as high |
| WriteQueueOrder.LevelsDecide | app/core/db_write_queue.py:254 | of two queued tasks that have never failed, one is not popped while the other was submitted with a more urgent level |
| WriteQueueOrder.RetriedGoFirst | app/core/db_write_queue.py:516-520 | a low or normal task that has failed and is queued again is popped before every low or normal one that has not failed |
| WriteQueueOrder.GivenUpIff | app/core/db_write_queue.py:495-520 | a failed attempt reports the task and queues nothing exactly when it is the max_retries-th or a later one; every other one queues the task once more and reports nothing |
| WriteQueueCounters.CountersCount | app/core/db_write_queue.py:252-446 | in every run the total is the number of tasks ever queued, the merged are those taken over by an older task, the completed are the successful executions, and the failed are what remains |
| WriteQueueMoves.GroupingIsPermutation | app/core/db_write_queue.py:390-395 | grouping a batch by model loses and repeats nothing, keeps the batch order within each model and makes exactly one group a model |
| WriteQueueMoves.HeldMoves | app/core/db_write_queue.py:344-446 | for each task, what the workers hold changes in every step by exactly what enters and what leaves their hands |
| WriteQueueDrain.WorkersTerminate | app/core/db_write_queue.py:380-446 | without new submissions at most a fixed number of worker steps can follow, whatever fails and however they interleave |
| WriteQueueDrain.StuckMeansDrained | app/core/db_write_queue.py:317-378 | when no worker step is possible, the queue is empty and no worker holds a task, so with the bound above the queue always drains |
| WriteQueueDrain.MergeIntoRefusedIsLost | app/core/db_write_queue.py:266-275 | a submission merged into a refused task is acknowledged, and in every continuation its data is never executed or reported |
| WriteQueueDrain.RefusedTaskStaysCached | app/core/db_write_queue.py:276-280 | in every state with a full queue, a submission with a fresh key is refused and leaves its task in the merge cache |
| WriteQueueDurable.StepKeepsBooks | app/core/db_write_queue.py:407-523 | every step keeps the books: data of each task, log of executions with whether they fell back, named a row and became durable, where each copy of a task is, and that nothing queued disappears |
| WriteQueueDurable.UpdateNamesARowIffNeverRun | app/core/db_write_queue.py:462-470 | in every reachable state an update task names a row exactly if it has not been executed and its submissions name one |
| WriteQueueDurable.ExecutionNamesIff | app/core/db_write_queue.py:448-493 | in every run an execution names a row exactly if it is an insert, an upsert that builds its row or has an id or file id to look one up, a deletion with an id, or the first execution of an update with an id, ids as submitted |
| WriteQueueDurable.QueuedTaskSucceedsOrIsReported | app/core/db_write_queue.py:397-446 | a queued task that is neither queued nor held any more, nor in an open session, was cleared, was reported as failed, or succeeded in a session that was committed |
| WriteQueueDurable.SilentlyLostIff | app/core/db_write_queue.py:223-523 | a write that is over and was not reported is missing from the database if and only if it was refused, cleared before anything of it was durable, undone in its session by an upsert, named no row, is an update whose first execution was not made durable, or is an upsert each of whose durable executions fell back with no id or file_id to look up |
| WriteQueueDurable.CommitsAreBounded | app/core/db_write_queue.py:397-443 | a task succeeds in at most one committed session more than it failed in sessions that were rolled back; it is made durable at most once more than that and than commits in the middle of a session kept an execution that failed or whose session was rolled back |
| WriteQueueScenarios.UpdateIsSilentlyLost | app/core/db_write_queue.py:397-470 | a run from the empty queue in which an update is executed twice, both counted as completed, and its row is never written |
| WriteQueueScenarios.UpsertUndoesItsSession | app/core/db_write_queue.py:475-485 | a run from the empty queue in which an upsert falls back and undoes the insert before it in its session, which is then committed with both counted as completed |
| WriteQueueScenarios.UpsertFallsBackOnNothing | app/core/db_write_queue.py:479-493 | a run from the empty queue in which an upsert that cannot build its row and names none to update is counted as completed and never written |
| WriteQueueScenarios.TaskIsCommittedTwice | app/core/db_write_queue.py:397-443 | a run from the empty queue in which a task that failed together with its commit succeeds in two committed sessions |
| WriteQueueScenarios.UpsertIsWrittenTwice | app/core/db_write_queue.py:477-478 | a run from the empty queue, without a failed execution, in which an upsert that commits by itself is made durable twice |
| WriteQueueScenarios.RefusalIsReachable | app/core/db_write_queue.py:264-280 | from the empty queue, with every maximum size, a run fills the queue and leaves a refused task in the merge cache |
| WriteQueueObject.SectionsAreSteps | app/core/db_write_queue.py:252-285 | creating, merging and pushing, as the object does them in place, are the steps of the state machine on the shared state |
| WriteQueueObject.AttemptsAreSteps | app/core/db_write_queue.py:424-442 | an execution with its retry, and a retry alone, as the object does them, are the steps of the state machine |
| WriteQueueSteps.PopIsTwoSteps | app/core/db_write_queue.py:364-376 | popping a task as the object does it is the pop step followed by the removal from the merge cache |
| WriteQueueSteps.GroupIsARun | app/core/db_write_queue.py:407-446 | refinement: whatever the database does with a group, the object's result is what the machine reaches by that worker's reject, open, execute, commit and retry steps, the other workers standing still |
| WriteQueueObject.AsyncWriteQueue.Submit | app/core/db_write_queue.py:223-288 | outcome and whole new state of an uninterrupted submission: not running, merged into the older task, refused after caching, or queued and counted |
| WriteQueueObject.AsyncWriteQueue.MergeSection | app/core/db_write_queue.py:264-275 | the cached task takes the new data and a fresh retry count, or the new task becomes the cached one |
| WriteQueueObject.AsyncWriteQueue.PushSection | app/core/db_write_queue.py:277-285 | the task is queued and counted exactly when there is room, and nothing changes otherwise |
| WriteQueueObject.AsyncWriteQueue.PopOne | app/core/db_write_queue.py:364-376 | takes a least task of the queue, and from the merge cache exactly the entries with its task id |
| WriteQueueObject.AsyncWriteQueue.GetBatch | app/core/db_write_queue.py:344-378 | the batch is the least part of the queue in heap order, stops at batch size, deadline or empty queue, and nothing left in the merge cache has the id of a task in it |
| WriteQueueObject.AsyncWriteQueue.GroupTasks | app/core/db_write_queue.py:390-395 | the loop computes the grouping that is proved to be a permutation |
| WriteQueueObject.AsyncWriteQueue.ExecuteBatch | app/core/db_write_queue.py:380-405 | each group of the batch is executed in turn, whatever became of those before it |
| WriteQueueObject.AsyncWriteQueue.ExecuteModelBatch | app/core/db_write_queue.py:398-446 | a group of an unregistered model is counted as failed; otherwise each task is executed, failed ones are retried, and all are retried when the session or the commit fails |
| WriteQueueObject.AsyncWriteQueue.RetryTask | app/core/db_write_queue.py:495-522 | counts the attempt; gives up at max_retries, else raises the priority to high and queues the task again |
| WriteQueueObject.AsyncWriteQueue.Clear | app/core/db_write_queue.py:544-560 | empties queue and merge cache, keeps tasks and counters, returns how many were queued |
| Lru.RunValid | app/core/lru_cache.py:88-114 | after every trace keys are distinct and there are at most maxsize entries |
| Lru.LruInclusion | app/core/lru_cache.py:53-213 | two caches that differ only in capacity, on the same trace: the small one's entries are always an order-preserving subsequence of the large one's, the size difference never exceeds the capacity difference, and hits of the small are at most hits of the large |
| Lru.LruInclusionOutputs | app/core/lru_cache.py:53-86 | every hit, positive membership answer and successful store of the small cache is the same answer of the large one |
| Lru.CachedIsIdeal | app/core/lru_cache.py:88-132 | every cached entry is the last one stored for its key in a plain map that never evicts, with value, time stamp and ttl |
| Lru.HitIsLatestAndFresh | app/core/lru_cache.py:63-86 | a hit returns the value last stored for its key, which has not been deleted, cleared or expired |
| Lru.StoredIsRetained | app/core/lru_cache.py:100-114 | a stored value stays cached as long as it is not replaced, deleted, cleared or expired and fewer than maxsize other keys are used since |
| LruExpiry.HitIff | app/core/lru_cache.py:53-114 | after a store and any operations that neither replace, delete, clear nor evict the key, a lookup hits exactly if the value is not too old now and no lookup, membership test or clean-up saw it too old before: by its own time to live if it has one, else by the cache's, else never |
| LruExpiry.OwnTtlDecides | app/core/lru_cache.py:71-77 | a value stored with its own time to live is found for exactly so long, whatever the cache's default is |
| LruExpiry.DefaultTtlDecides | app/core/lru_cache.py:71-77 | a value stored without one is found for as long as the cache's default says, and always if there is none |
| Lru.CleanupAgrees | app/core/lru_cache.py:164-189 | collecting the expired keys and then deleting them one by one leaves exactly the live entries, in order, and counts the rest |
| Lru.LruCache.Get | app/core/lru_cache.py:53-86 | answer, recency order, removal of an expired entry and counters of a lookup |
| Lru.LruCache.Set | app/core/lru_cache.py:88-114 | replaces the key, evicts the least recent entry when full, fails on a capacity below one |
| Lru.LruCache.Delete | app/core/lru_cache.py:116-132 | removes the key and tells whether it was there |
| Lru.LruCache.Contains | app/core/lru_cache.py:196-213 | membership refreshes recency and drops an expired entry without counting a miss |
| Lru.LruCache.CleanupExpired | app/core/lru_cache.py:164-189 | removes exactly the expired entries and counts them |
| MultiLevel.ReadIsLastWrite | app/core/lru_cache.py:311-349 | after any calls a found value is the last one written for the key, at most l1_ttl + l2_ttl old however often it was promoted |
| MultiLevel.StalenessBoundIsTight | app/core/lru_cache.py:321-335 | the bound is reached by a promotion at the last live moment of the second level |
| MultiLevel.RunCoherent | app/core/lru_cache.py:311-349 | an entry of the second level is the last write itself, one of the first level a copy of it made while the second was still live |
| MultiLevel.MultiLevelLruCache.Get | app/core/lru_cache.py:311-337 | first level, then second with promotion, with both caches and the three counters |
| MultiLevel.MultiLevelLruCache.Set | app/core/lru_cache.py:339-349 | writes both levels, the first one first |
| CacheSpaces.VersionedKeyInjective | app/core/cache_manager.py:179-183 | a stored key determines version and caller's key, also when caller's keys contain colons |
| Text.DecimalInjective | app/core/cache_manager.py:179-183 | the numeral that carries the version in a key determines the version |
| Text.DecimalReadsBack | app/core/cache_manager.py:179-183 | the numeral of a number denotes that number |
| CacheSpaces.RunCurrent | app/core/cache_manager.py:191-201 | after any manager calls no stored key carries a version that its namespace has not reached |
| CacheSpaces.InvalidationComplete | app/core/cache_manager.py:441-521 | after a call that drops a key, by deleting it, clearing its namespace or all, a new version or an invalidation of it, its namespace or one it depends on, every later lookup of it can only return a value stored after that call |
| CacheSpaces.RunKeepsOnlyFrom | app/core/cache_manager.py:207-238 | what a namespace holds for a key from some version on was stored by the calls made since |
| CacheSpaces.OneLevelReachesAll | app/core/cache_manager.py:85-90 | the dependency graph is transitively closed and has no cycle |
| CacheSpaces.CascadeCoversReachable | app/core/cache_manager.py:509-521 | with the cascade on, invalidating a namespace covers every key of every namespace that depends on it, however far |
| CacheSpaces.InvalidationReaches | app/core/cache_manager.py:81-90 | invalidating a namespace, for which an empty key also stands, changes that namespace and, with the cascade on, exactly those that depend on it, named one by one: by one version with versioning on, by emptying them with versioning off |
| CacheSpaces.KeyInvalidationReaches | app/core/cache_manager.py:488-521 | invalidating one key removes its entry and no other, and cascades in the same way |
| CacheSpaces.VersionsAndClearing | app/core/cache_manager.py:191-240 | what a new version and what clearing do to each namespace |
| CacheExpiry.SpaceHitIff | app/core/cache_manager.py:207-233 | after a store in a namespace and any manager calls that neither replace nor drop the key nor throw it out, a lookup finds the value exactly if its time to live has not passed now nor had passed when a lookup or clean-up saw it: the given seconds, ten years for never, the default of the namespace, or else the global one |
| CacheManager.InvalidationInTwoParts | app/core/cache_manager.py:490-521 | the effect of an invalidation on all namespaces is the primary change followed by the cascade |
| CacheManager.LocalEffect | app/core/cache_manager.py:403-458 | lookups, stores and deletions change no other namespace |
| CacheManager.NamespacedCache.Get | app/core/cache_manager.py:207-210 | looks up the versioned key in place |
| CacheManager.NamespacedCache.Set | app/core/cache_manager.py:212-233 | stores under the versioned key with the default, given or ten-year time to live |
| CacheManager.NamespacedCache.IncrementVersion | app/core/cache_manager.py:191-201 | the version grows by one and the entries stay |
| CacheManager.Manager.Get | app/core/cache_manager.py:403-422 | value, effect on all namespaces and hit or miss counter |
| CacheManager.Manager.Set | app/core/cache_manager.py:424-439 | effect on all namespaces; the counter moves only when the store succeeds |
| CacheManager.Manager.Delete | app/core/cache_manager.py:441-458 | effect on all namespaces, whether something was removed, counter |
| CacheManager.Manager.InvalidateRelated | app/core/cache_manager.py:466-534 | effect on all namespaces, cascaded set, log entry and the exact number of counted invalidations |
| CacheManager.Manager.AppendLog | app/core/cache_manager.py:536-542 | the log keeps the newest hundred events |
| RateLimiter.DecisionsMatchHistory | app/core/rate_limiter.py:146-189 | with a positive limit every decision is the one that the full accepted history of the bucket would give, whatever was pruned or cleaned up; with any limit, as long as no clean-up dropped a block |
| RateLimiter.DecisionsMatchIff | app/core/rate_limiter.py:146-189 | for every limit: all decisions on a bucket match its full history exactly when no clean-up dropped its block between the two clock readings of one call |
| RateLimiter.PositiveLimitDropsNoBlock | app/core/rate_limiter.py:256-272 | with a positive limit no clean-up ever drops a block |
| RateLimiter.ZeroLimitCanDropABlock | app/core/rate_limiter.py:158-183 | with a limit of zero it happens: a blocked client is forgotten and blocked anew |
| RateLimiter.RunRefines | app/core/rate_limiter.py:171-189 | the pruned list answers every window from now on like the full history, across clean-ups that drop no block |
| RateLimiter.WindowBound | app/core/rate_limiter.py:170-187 | over a whole run the accepted requests of one bucket in any window (t - seconds, t] number at most the configured requests |
| RateLimiter.BlockHolds | app/core/rate_limiter.py:165-168 | after an overflow every request before the end of the block is refused with the remaining whole seconds, if the limit is positive or no block was dropped |
| RateLimiter.NoneAcceptedWhileBlocked | app/core/rate_limiter.py:165-189 | for every limit, no request before the end of the block is accepted |
| RateLimiter.BlockedStaysPut | app/core/rate_limiter.py:165-168 | while a block lasts, refused requests and clean-ups change neither the time stamps nor the block end nor the counters of the client |
| RateLimiter.RecoversAfterBlock | app/core/rate_limiter.py:170-189 | if the block lasts at least one window and the limit is positive, the first request at or after its end is accepted |
| RateLimiter.ClosedBucketAcceptsNothing | app/core/rate_limiter.py:174-183 | with a limit of zero or less nothing is ever accepted |
| RateLimiter.BucketDeterminesConfig | app/core/rate_limiter.py:233-242 | requests that share a bucket come from one client and are judged by one configuration |
| RateLimiter.CleanupForgets | app/core/rate_limiter.py:256-272 | a clean-up comes at most every three hundred seconds and forgets exactly the clients without time stamps whose block is over |
| RateLimiterRequests.VerbsAreLimited | app/core/rate_limiter.py:23-242 | in every run the requests of a client accepted in any window with the verbs get, head and options, in any mixture of cases, number at most the read limit, those with any other verb at most the write limit |
| RateLimiterRequests.DecisionTells | app/core/rate_limiter.py:146-189 | with a positive limit every decision follows from the earlier ones on the same client and kind of verb: still blocked exactly under an earlier overflow's block, else overflow exactly when the window holds as many accepted requests as the limit of that kind, else accepted |
| RateLimiter.Limiter.CheckRateLimit | app/core/rate_limiter.py:146-189 | decision and whole new client table of one check |
| RateLimiter.Limiter.CleanupIfNeeded | app/core/rate_limiter.py:256-272 | at most every five minutes, drops exactly the clients without time stamps and without a block |
| Workflow.StepKeepsInv | app/api/quark.py:467-577 | every resumption, cancellation and creation keeps status and progress consistent with where the worker is suspended, and handles with workers |
| Workflow.TerminalIsAbsorbing | app/api/quark.py:608-630 | in every interleaving a task never leaves a final status, never moves back and never loses progress |
| Workflow.EndedIsFinal | app/api/quark.py:467-577 | a worker that is over left its task in a final status, and completed goes with 100 percent and nothing else |
| Workflow.StatusTellsOutcome | app/api/quark.py:467-577 | in every run that does not cancel it, the listed task of a worker that is over is failed exactly when the preview failed, or renames were wanted and listing, asking for or making them failed, and completed otherwise |
| Workflow.ExecutesOnlyIfAsked | app/api/quark.py:496-537 | in every run a worker makes renames only if it was asked to, its preview succeeded and there was something to rename |
| Workflow.CancelIsFinal | app/api/quark.py:608-630 | a task that is cancelled while it is pending or running is cancelled in every continuation, as long as it is listed |
| Workflow.CancellationIsRecorded | app/api/quark.py:556-577 | a worker that is unwound records the cancellation once more before it gives up its handle, unless it was about to record a failure |
| Workflow.NoRenamesAfterCancel | app/api/quark.py:608-630 | once a task is cancelled its worker starts no renames, whatever runs after that: it waits for renames only if it did so at the cancellation and has not resumed since |
| Workflow.WorkersEnd | app/api/quark.py:467-577 | in every interleaving a worker resumes at most nine times, can resume exactly until it has ended, and has ended after nine |
| Workflow.EveryHandleIsReleased | app/api/quark.py:550-577 | in every interleaving a handle is in the table exactly until its worker is over, and no cancellation keeps the final clause from running |
| Workflow.CreateBoundsTable | app/api/quark.py:137-149 | creating a task leaves at most fifty tasks besides those with a handle, drops none with a handle, and none unless fifty others are at least as new |
| Workflow.KeptAreNewest | app/api/quark.py:141-146 | sorting by time of update and taking the first fifty selects fifty newest tasks |
| Workflow.Tables.Update | app/api/quark.py:117-158 | changes the given fields of a listed task and nothing else |
| Workflow.Tables.PruneTasks | app/api/quark.py:137-149 | sorts out the newest tasks, and the loop drops exactly those that are neither among them nor have a handle |
| Workflow.Tables.CreateTask | app/api/quark.py:581-597 | both tables after a creation, pruned by a choice of newest tasks that the create step allows |
| Workflow.Tables.CancelTask | app/api/quark.py:608-630 | a task that is not final becomes cancelled, and the handle is cancelled with it |
| Alerts.AlertsStayInStep | app/core/metrics_collector.py:282-349 | with thresholds added inactive, each metric always has as many active alerts as active thresholds |
| Alerts.ResolveCounts | app/core/metrics_collector.py:341-349 | resolving takes away exactly one active alert of its metric and touches no other metric |
| Alerts.CheckKeepsAgreementIff | app/core/metrics_collector.py:282-349 | one threshold's check keeps active alerts and active thresholds in agreement on metric, limit and operator exactly when an alert that it resolves carries the threshold's own |
| Alerts.TagsAreConserved | app/core/metrics_collector.py:263-349 | in every run the alerts, active and resolved, carry exactly the metrics, limits and operators of the thresholds that are active or have ended |
| Alerts.AgreeIffOwnAlertsResolved | app/core/metrics_collector.py:341-349 | after every run active alerts agree with active thresholds, as multisets of metric, limit and operator, exactly when the resolved alerts agree with the thresholds that have ended |
| Alerts.OneTagPerMetricAgrees | app/core/metrics_collector.py:341-349 | with one limit and operator for each metric they agree after every run |
| Alerts.WrongAlertIsResolved | app/core/metrics_collector.py:341-349 | a run with two limits for one metric in which the end of one threshold resolves the alert of the other, which is still active |
| Alerts.ActiveIffStreakSpansDuration | app/core/metrics_collector.py:282-308 | for every history, a threshold is active exactly when some check of the current unbroken streak came at least its duration after the streak's first reading other than zero |
| Alerts.ActiveIffTimeSinceFirstCheck | app/core/metrics_collector.py:282-308 | with a clock that never goes back and is not at zero, it is active exactly when the streak spans the duration from its first to its latest check |
| Alerts.CheckStreaksIff | app/core/metrics_collector.py:282-322 | a reading starts or continues a streak exactly when it is beyond the limit in the sense of gt, ge, lt, le or eq, and ends it otherwise, as any other operator does |
| Alerts.ZeroStartIsForgotten | app/core/metrics_collector.py:295-299 | with a clock that never goes back, the time since the first check decides exactly unless the streak begins at reading zero and the duration has passed since zero but not since the first other reading |
| Alerts.ThresholdsAreIndependent | app/core/metrics_collector.py:274-280 | in the manager each threshold evolves by its own readings alone |
| Alerts.AlertManager.AddThreshold | app/core/metrics_collector.py:263-271 | the threshold joins the list and nothing else changes |
| Alerts.AlertManager.CheckThresholds | app/core/metrics_collector.py:274-280 | thresholds and alert list after a check of all thresholds in list order |
| Alerts.AlertManager.CheckSingleThreshold | app/core/metrics_collector.py:282-308 | one threshold and the alert list after one check |
| Alerts.AlertManager.ResolveAlert | app/core/metrics_collector.py:341-349 | the backward search resolves the newest active alert of the metric |
| ConfigTree.SetThenGet | app/config/runtime.py:115-121 | a written path reads back the value, also through missing or non-dictionary parents |
| ConfigTree.SetKeepsOthers | app/config/runtime.py:115-121 | a path neither under nor above the written one keeps its content |
| ConfigTree.SetsCommute | app/config/runtime.py:115-121 | writes to incomparable paths commute |
| ConfigTree.SetTwice | app/config/runtime.py:115-121 | the second of two writes to a path wins |
| EnvOverrides.TableIsPrefixFree | app/config/runtime.py:20-39 | no path of the override table is a prefix of another |
| EnvOverrides.OverridesCommute | app/config/runtime.py:73-79 | prefix-free writes give the same tree in every order |
| EnvOverrides.OverridePhase | app/config/runtime.py:73-79 | for every environment and every configuration that is a tree of values, the override writes may be made in any order, each reads back, and unrelated paths keep their content |
| EnvOverrides.WhereVariablesGo | app/config/runtime.py:20-79 | after the overrides each of the eighteen variables that is set is read at its own path, named one by one, whatever the configuration was |
| SharedConfig.FollowAfter | app/config/runtime.py:115-121 | with any sharing, every path after a write: one that never asks for the changed key leads where it did, any other shows the value, a new section or nothing, by where its rest stands to the rest of the written path |
| SharedConfig.ReadsBackIff | app/config/runtime.py:115-121 | a written path reads back its value exactly when it has not gone through the changed key before its end, as no path without repeated keys does |
| SharedConfig.UndisturbedIsKept | app/config/runtime.py:115-121 | a path that does not meet the changed place shows what it did |
| SharedConfig.PairClash | app/config/runtime.py:115-121 | after a write, a second one disturbs the first exactly when either disturbs the other in the configuration before both |
| SharedConfig.UndisturbedKeepTheirClashes | app/config/runtime.py:115-121 | whether one of two paths disturbs the other is not changed by a write that disturbs neither |
| SharedConfig.ClashAlike | app/config/runtime.py:74 | paths disturb each other in a deep copy exactly when they do in the original |
| SharedOverrides.PhaseReadsBackIff | app/config/runtime.py:76-79 | with any sharing, writes of different values to paths without repeated keys all read back at the end if and only if no two of the paths clash in the configuration as it was loaded |
| SharedOverrides.DisturbedShows | app/config/runtime.py:76-79 | what a path that the writes disturb shows in the end, from the loaded configuration alone: the write that it meets first decides |
| SharedOverrides.OrderDoesNotMatter | app/config/runtime.py:76-79 | writes that do not clash leave the same sight at every path in any two orders |
| SharedOverrides.KeptAlong | app/config/runtime.py:76-79 | a path that none of them disturbs shows what it did |
| SharedOverrides.DisturbingIsSharing | app/config/runtime.py:115-121 | of two paths neither of which leads through the other, one disturbs the other only if two different paths lead to one dictionary |
| SharedOverrides.UnsharedPhaseIsOnTrees | app/config/runtime.py:73-79 | where no dictionary is shared, the phase on dictionaries does to every path what it does to the tree of values |
| SharedOverrides.PeacefulIffSectionsApart | app/config/runtime.py:20-39 | the paths of the set variables clash exactly when two of tmdb, emby and security are one dictionary and both get their api_key |
| SharedOverrides.OverridesReadBackIff | app/config/runtime.py:73-79 | variables with different values all read back after the phase if and only if no two sections that get an api_key are one dictionary |
| SharedOverrides.SharedSectionExample | app/config/runtime.py:76-79 | with one dictionary under tmdb and emby, the value of the second variable is read for both, and after the first write an unrelated path has changed |
| EnvOverridesInPlace.DeepCopy | app/config/runtime.py:74 | for every configuration, also with shared or cyclic dictionaries: one new dictionary for each that is reached, sharing kept, and every path of the copy shows what it shows in the original |
| EnvOverridesInPlace.SetNested | app/config/runtime.py:115-121 | for every configuration the loop changes one key of the last dictionary on the path, makes one new dictionary for each further key, and touches nothing else |
| EnvOverridesInPlace.ApplyEnvOverrides | app/config/runtime.py:73-79 | the override phase makes exactly the writes that the environment asks for, in a copy, and changes no dictionary of the caller's; different values all read back exactly when no two of the caller's sections that get an api_key are one dictionary |
| SystemConfig.RoundTripIff | app/api/system_config.py:40-57 | restoring the masked configuration gives it back if and only if redaction changes none of its plain strings |
| SystemConfig.SaveUnchangedIff | app/api/system_config.py:128-131 | saving an unedited masked configuration changes nothing under exactly that condition |
| SystemConfig.RestoreMaskIff | app/api/system_config.py:40-57 | for every two values, the mask of one sent back where the other is stored gives the first again exactly when it can be recovered, field by field |
| SystemConfig.RestoreOneEdit | app/api/system_config.py:40-57 | restoring a masked configuration with one edited field outside sensitive sections gives the original with the edit, or without it when it looks like the mask of what it replaces |
| SystemConfig.SaveOneEdit | app/api/system_config.py:128-131 | for every path and plain value, saving an edited masked configuration is editing the real one, every secret kept, exactly when the edit does not look like the mask of what it replaces or equals it |
| SystemConfig.ChoiceRoundTripsIff | app/api/system_config.py:51-56 | sending back some elements of a masked list in any order gives them back exactly when each can be recovered from the element stored at its new position |
| SystemConfig.DeletionShiftsSecrets | app/api/system_config.py:51-56 | deleting an element round-trips exactly when the elements before it are not redacted and each one after it can be recovered from its left neighbour |
| SystemConfig.DeletionExample | app/api/system_config.py:51-56 | with the first of two tokens deleted, the second entry gets the deleted token |
| SystemConfig.MergeIdempotent | app/api/system_config.py:60-67 | merging the same patch twice is merging it once |
| SystemConfig.MergeKeepsOutside | app/api/system_config.py:60-67 | every path outside the patch keeps its content |
| SystemConfig.MergeTakesPatch | app/api/system_config.py:60-67 | every plain value of the patch is in the result at its path |
| SystemConfig.MergeCovering | app/api/system_config.py:60-67 | a patch that has every key of the base replaces it |
| SystemConfig.MaskSecretTwice | app/core/security.py:34-44 | a mask keeps the length of the secret, and masking a mask changes nothing |
| SystemConfigSecrets.MaskHides | app/core/security.py:34-66 | however deep a sensitive field lies, what is shown of a string there has its length and only stars, except the first and last four characters of more than eight; null shows as an empty text, anything else as three stars |
| SystemConfigSecrets.MaskTellsNothingElse | app/core/security.py:34-44 | two secrets of one length that agree where masks show them have the same mask |
| SystemConfigSecrets.MaskShows | app/core/security.py:59-66 | outside sensitive fields everything shows as it is, up to the redaction of free text |
| SystemConfigSecrets.SensitiveIff | app/core/security.py:29-31 | a key is sensitive exactly when it contains one of ten words in any mixture of cases |
| SystemConfigSecrets.SecretEditTakenIff | app/api/system_config.py:28-48 | a text sent back for a secret replaces it unless it is empty, three stars or, character by character, the mask of the stored one |
| SystemConfig.MaskIdempotent | app/core/security.py:47-66 | masking a masked configuration changes nothing, if redaction is idempotent |
| SystemConfig.MaskSensitiveData | app/core/security.py:47-66 | the loops compute the masking that the round trip is proved of |
| SystemConfig.RestoreMaskedValues | app/api/system_config.py:40-57 | the loops compute the restoration that the round trip is proved of |
| SystemConfig.DeepMergeDict | app/api/system_config.py:60-67 | the loop computes the merge that the laws above are proved of |
| Webhooks.RowsAreSessions | app/api/emby.py:405-456 | with a fixed window and a clock that never goes back, the rows of an event type and key are, field by field, the summaries of the sessions of its events: run length as count and payload count, first and last time, name and body of the last event |
| Webhooks.SessionsAreMaximalRuns | app/api/emby.py:407-418 | sessions cut the events, in order and without loss, into runs with gaps within the window that are more than a window apart |
| Webhooks.MaximalRunsAreUnique | app/api/emby.py:407-418 | there is no other way to cut the events like that |
| Webhooks.RowsOfKeyNeverTie | app/api/emby.py:416-417 | two rows of a key are never equally new, so the order of the query leaves no choice |
| Webhooks.NewestIsLast | app/api/emby.py:408-418 | the query finds the last row of the key if that one is within the window, and nothing otherwise |
| Webhooks.WebhooksAreConserved | app/api/emby.py:397-474 | the counts over all rows add up to the number of webhooks logged, and each aggregate repeats the count and key of its row, whatever windows and clock do |
| Webhooks.KeyIdentifiesSeason | app/api/emby.py:353-358 | two items of one event type share a key exactly when series and season texts agree or overlap around a season mark, which takes a colon in a season |
| Webhooks.DifferentSeasonsCollide | app/api/emby.py:353-358 | two items with different series and different seasons share a key |
| Webhooks.SeasonsCoincideIff | app/api/emby.py:357-358 | on the fields of two items, when their season texts are equal: zero, null, an empty text and a missing field are no season, numbers agree when equal, anything else when it prints the same |
| Webhooks.EntryKinds | app/api/emby.py:348-350 | an event is aggregated exactly when its normalized type reads "episode" in some mixture of cases |
| Webhooks.StripTakesMargins | app/api/emby.py:349 | stripping takes off all white space at both ends and nothing else |
| WebhookFields.EpisodeIff | app/api/emby.py:348-405 | an event is aggregated exactly when the first of its two type fields that counts reads episode, in any mixture of cases and between white space |
| WebhookFields.SeriesAndSeason | app/api/emby.py:353-358 | series and season of the key are the texts of the first of four and of two fields that counts, or a default |
| WebhookFields.NameShows | app/api/emby.py:361-366 | the name shown is the first of three fields that counts, with the season unless there is none; a season of zero is shown although it has no part in the key |
| WebhookFields.OthersAsTheyAre | app/api/emby.py:397-403 | any other event is logged with its type without margins, or Unknown, and its id and name unless empty |
| Webhooks.EventLog.LogWebhookEvent | app/api/emby.py:397-474 | the table after one webhook, the row that was written and whether it was aggregated |
| Sorting.SortBySorts | scripts/continuous_optimize.py:1185-1194 | sorting by key gives an ascending permutation |
| Sorting.SortIsCanonical | scripts/continuous_optimize.py:1185-1194 | when keys identify elements, the sorted sequence is the same for every permutation of the input |
| Lanes.LanesPartitionFailures | scripts/continuous_optimize.py:1141-1157 | every failed module stands in the lane it names, as often as in the results, and nowhere else; no lane is empty or repeated; lanes and their modules are in ascending order of their keys |
| Lanes.LanesAreCanonical | scripts/continuous_optimize.py:1141-1194 | with distinct module names the lanes are the same for every permutation of the results |
| Lanes.LongestLaneComesFirst | scripts/continuous_optimize.py:1148-1157 | a lane with a longer failed command comes before one with a shorter |
| Lanes.LongestModuleComesFirst | scripts/continuous_optimize.py:1185-1194 | likewise for the modules inside every lane |
| LaneOrder.LanesInOrder | scripts/continuous_optimize.py:1141-1157 | lanes are in order of longest failed command, total time, risk, number of failed commands, and name |
| LaneOrder.ModulesInOrder | scripts/continuous_optimize.py:1185-1194 | modules of a lane are in order of longest failed command, total time, risk and name |
| LaneOrder.LongestFailed | scripts/continuous_optimize.py:1173-1174 | a module's longest time is attained by a failed command and exceeded by none, or zero if none failed |
| LaneOrder.FailedAddUp | scripts/continuous_optimize.py:1160-1178 | every failed command adds its time to the total and one to the count, no other does |
| LaneOrder.LongestOfLane | scripts/continuous_optimize.py:1151 | a lane's longest failed command is the longest of its modules' |
| LaneOrder.LaneAddsUp | scripts/continuous_optimize.py:1152-1154 | a lane's total time and number of failed commands are the sums over its modules |
| LaneOrder.RiskierIff | scripts/continuous_optimize.py:1181-1182 | risks compare as high, medium-high, medium, low in any mixture of cases, with any other text below them |
| LaneOrder.TimeoutIsWhole | scripts/continuous_optimize.py:1168-1170 | a timeout counts in whole seconds, the fraction dropped towards zero, and as zero if it is no number |
| Lanes.Max | scripts/continuous_optimize.py:1173-1174 | the greatest value, attained and not exceeded, or the default for nothing |
| Lanes.BuildFailureLanes | scripts/continuous_optimize.py:1141-1157 | the grouping loop and the two sorts compute the lanes characterized above |
| Reverify.FinalFailuresWereFailures | scripts/continuous_optimize.py:1547-1556 | with distinct names a module that fails at the end of an iteration failed in its baseline |
| Reverify.FailedModulePassesIffRerunsPass | scripts/continuous_optimize.py:1213-1226 | a failed module ends passed exactly when every failed command has a rerun that passed, and otherwise ends failed |
| Reverify.CommandsStayInPlace | scripts/continuous_optimize.py:1197-1226 | no baseline command disappears or moves, only failed ones are replaced, and only by reruns that were not skipped |
| Reverify.MergeKeepsCommands | scripts/continuous_optimize.py:1197-1210 | for any two lists of results: every baseline command keeps its place, replaced by the last rerun of its name that was not skipped, and the reruns of other names that were not skipped follow in order |
| Reverify.StatusMeaning | scripts/continuous_optimize.py:893-899 | a module fails exactly when a command failed and passes exactly when one passed and none failed |
| Reverify.BaselineRunsAll | scripts/continuous_optimize.py:924-962 | a baseline run of a module has one result for each plan, with its name and timeout and the outcome of the run |
| Reverify.BaselineIs | scripts/continuous_optimize.py:1513-1546 | every module of the baseline has the outcomes of its own commands |
| Reverify.FailedModulesAreTargets | scripts/continuous_optimize.py:1547-1549 | exactly the failed modules are verified again, with exactly their failed commands |
| Reverify.RerunOfCommand | scripts/continuous_optimize.py:924-950 | a targeted run has a result that is not skipped for a command exactly when it is wanted and ran |
| Reverify.WithoutAgentsBaselineStands | scripts/continuous_optimize.py:1518-1556 | without agents nothing runs again and the baseline stands |
| Reverify.RunModule | scripts/continuous_optimize.py:924-962 | the loop over the plans runs exactly the wanted ones, in order |
| Reverify.MergeModuleResults | scripts/continuous_optimize.py:1213-1226 | the loops merge each module with the last verification result of its name |
| Reverify.RunIteration | scripts/continuous_optimize.py:1513-1572 | baseline, lanes, targeted reruns and merge together give the results the theorems speak of, and the issue count |

## Left out

- The heap's array layout: the queue is a multiset and a pop takes a least task. `WriteQueueHeap.QueuedKeysNeverChange` proves the condition under which a binary heap does that.
- WriteQueueRuns.TasksAreConserved: as does `WriteQueueCounters.CountersCount`, takes each counter update as atomic; the program increments some of them outside its locks.
- WriteQueueDrain.WorkersTerminate: bounds steps, not time; the waits of the worker threads, start and stop are not modelled.
- One retry (count, raise, queue) is one step, as is one execution with its retry. Merging into a task updates the task's own data, not the dictionary its caller may still hold.
- Queue size and waiting time metrics, callbacks, and the rows themselves; a session is "opens or not, each task succeeds or not, an upsert may roll back or commit what came before it in its middle, commits or not" (`app/core/db.py:363-385`). An execution that fails is taken to write nothing unless it commits by itself. Which row an update, a deletion or an upsert that falls back finds is left out: it names one or not, an id or file id being a number that is not zero.
- `clear` empties the merge cache without the merge lock (`app/core/db_write_queue.py:551-554`), so a submission that is between looking for its key and reading the entry (`app/core/db_write_queue.py:266-268`) can raise a key error; in the model merging and clearing are atomic.
- CacheManager.Manager.Get: the manager holds its namespace caches as values; `NamespacedCache` shows the same per-namespace functions performed in place. Aliasing between namespaces is not captured.
- The namespace `increment_namespace_version`, statistics reports, the other backends and the legacy adapter of the cache manager are not proved against an object; the first is a call of `CacheSpaces`.
- RateLimiter.WindowBound: speaks of requests that go through the middleware; the `limit` decorator judges the same buckets by other configurations. Client identification is not modelled.
- Workflow messages, stages and payload fields; a remote call is an outcome. In the state machine ties between equally new tasks when pruning go either way; the object decides them by the order of the table.
- Workflow.EveryHandleIsReleased: rests on the event loop running ready callbacks in order, so that a worker's first step precedes any cancellation of it; cancellations from outside the endpoints, such as a shutdown, are not modelled.
- Alert tags, metric statistics other than the latest value, and system monitoring.
- EnvOverridesInPlace.ApplyEnvOverrides: lists inside the configuration are values, so dictionaries inside lists are not followed; a dictionary of the copy gets its cells at once where the library fills it key by key.
- EnvOverrides.OverridePhase: trees of values, in which no dictionary is reached in two ways; `SharedOverrides` covers the others.
- SystemConfig.RoundTripIff: the redaction of free text is a parameter, and configuration keys are strings.
- Placeholder substitution and provider keys in the configuration, audit records and API key handling of the save request.
- Letter case is mapped for ASCII letters only, and white space is ASCII white space.
- Webhooks.RowsAreSessions: one clock reading a call, also for the creation time that the database fills in; a changing window is covered only by `Webhooks.WebhooksAreConserved`. Row ids and event latency are not modelled.
- Reverify.RunIteration: the agents' work shows only in the outcomes of the reruns; reports, logs and durations are left out, and other fields of a command result are one text.
- HTTP, WebSocket, media server, cloud drive and Redis clients, routing, authentication and the frontend.
