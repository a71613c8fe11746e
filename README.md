# Task lifecycle of the TaskFlow API, in Dafny

This project models the task-lifecycle core of the TaskFlow NestJS service and
proves properties of that model. The core has these parts:

- the cache service over the shared key-value store;
- the query service: filtered and paginated listing, bulk lookup by ids,
  aggregate counts and the read-through point lookup;
- the domain rules: creation validation, building a task, the update overlay
  and the status change;
- the command service: create, lock-guarded update, delete, batch
  complete/delete and status change;
- the queue worker: retry budget, dispatch on the job name, the task-created and
  status-update handlers, and the paged overdue sweep;
- the hourly trigger that enqueues the sweep job;
- the rate-limit guard and the role guard.

## How the model is built

- The world is one value, `Backend.Snapshot`. It holds the task table, the cache
  entries, the held locks, the rate-limit counters and the job queue.
- Every service operation is a function from the world before the call to the
  world after it, together with what the call returned or threw
  (`Backend.Step`). These functions carry the contracts and the lemmas, in the
  modules `TaskDomain`, `TaskQuery`, `TaskCommand`, `TaskProcessor`,
  `OverdueTasks`, `RateLimit` and `Roles`.
- `World.TaskWorld` is the same world as an object with five mutable fields. Its
  methods perform the services step by step: cache writes, lock
  acquire/release, saves, removes and queue adds, with the loops of the batch
  command and the overdue sweep as `for` and `while` loops. Each method is
  proved to end in the state, and return the value, that the corresponding
  function gives.

The environment is an input:

- Whether a queue add throws is an input: `fault`, or `faults(k)` for the
  `k`-th add of a call.
- So are whether the lookup or a sweep query throws, the clock read at each
  sweep page, date parsing (`Date.parse`), date rendering, and the SHA-256
  digest of the client address.
- JSON encoding of cached values is the identity.

A transaction that throws restores the task table only. Queue adds and cache
writes made before the throw stay.

Tasks keep `status` and `priority` as the stored strings. `applyUpdate`
(`Object.assign`) copies a patch into the row without checking it, so a row can
hold a value outside the enumerations, and the model keeps that possible.

A batch `delete` removes the rows before it announces them. TypeORM's `remove`
unsets the primary column of every record it removes, so the `task-deleted`
jobs and the success entries of that batch carry no task id
(`TaskCommand.RemovedRowJob`). The single delete announces the id it was given.

### Where the code differs from the design description

The model follows the code in each of these cases:

- **Update reads through the cache.** The design says the update reads the task
  from the store, bypassing the cache. The code loads it through the cached
  point lookup (src/modules/tasks/services/task-command.service.ts:52).
- **A failing add rolls back.** The design says a failing queue add does not
  roll back the persisted change. In the code the add is inside the
  transaction, so a throwing add rolls the table back, and the call throws.
- **Locks have no token.** The design says locks carry a token checked on
  release. The code calls `acquireLock(key, ttl)` and `releaseLock(key)` with no
  token. They are modelled as "take the key if it is free" and "drop the key".
- **Some writes leave the cache stale.** The design says every successful write
  invalidates the cache entry. Only the update does. Delete, batch and status
  change do not. Three lemmas show the consequences:
  - `TaskCommand.DeleteLeavesStaleEntry`: a deleted task is still served.
  - `TaskCommand.UpdateAfterDeleteResurrects`: an update then saves the deleted
    row again.
  - `TaskCommand.StatusChangeLeavesStaleEntry`: a status change is not seen by
    the next read.
- **The overdue bound is not a date.** The design says the sweep lists the
  PENDING tasks due before now. The code passes `LessThan(new Date())`
  (src/queues/task-processor/task-processor.service.ts:120), a TypeORM find
  operator. The listing binds it unchanged as the parameter of the raw
  condition `task.dueDate < :dueDate`
  (src/modules/tasks/services/task-query.service.ts:34). Only `find`-style
  conditions interpret such an operator. The driver sends the object as
  JSON text, which PostgreSQL cannot read as a timestamp, so the first page
  query is expected to throw. The filter type of the listing has no `dueDate`
  field either, so the object reaches the listing only through the loose
  typing of the call. The model keeps both readings:
  - `TaskProcessor.FirstQueryFailureEndsJob`: when the first page query throws,
    the job queues nothing and returns that error. This is the expected
    outcome of the code as written.
  - `TaskProcessor.SweepPageSlice` and `TaskProcessor.OverdueSweepHandlesEachOnce`
    read the operator as its date, and so describe the sweep the design intends.

The worker never dispatches the jobs the services enqueue:

- The command service enqueues `task-status-updated` and `task-deleted`.
- The sweep enqueues `send-notification`.
- The worker dispatches only `task-created`, `task-status-update` and
  `overdue-tasks-notification`.

These names are modelled as written. `TaskProcessor.EnqueuedNamesAreUnknown`
proves that such a job is reported as an unknown type.

## Model

| member | source | states |
|---|---|---|
| Backend.TaskKeyInjective | src/modules/tasks/services/task-query.service.ts:54 | distinct task ids have distinct cache keys `task:{id}` |
| Backend.CacheGet | src/common/services/cache.service.ts:8-11 | the value is returned exactly when the key is present, and it is the stored value; an absent key gives null |
| Backend.CacheSet | src/common/services/cache.service.ts:13-16 | afterwards the key reads back the value; the TTL is 300 when none is given, the given TTL otherwise (0 means no expiry); every other key and the rest of the world are unchanged |
| Backend.CacheHas | src/common/services/cache.service.ts:22-25 | true exactly when a read of the key finds a value |
| RateLimit.KeyFamiliesDisjoint | src/modules/tasks/services/task-query.service.ts:54 | a task's cache key, a task's lock key and a rate-limit counter key are pairwise different, so the three kinds of entries never share a key |
| Backend.CacheDelete | src/common/services/cache.service.ts:18-20 | afterwards the key reads null and `has` is false; every other key keeps its value |
| Backend.CacheClear | src/common/services/cache.service.ts:27-30 | afterwards every key reads null, and the locks and rate-limit counters in the same store are gone; table and queue are unchanged |
| Backend.SetThenGet | src/common/services/cache.service.ts:8-16 | a value set and read back is the value set, and `has` reports it |
| Backend.AcquireLock | src/modules/tasks/services/task-command.service.ts:43-48 | acquisition succeeds exactly when the key is not held, and then records the key with its TTL; on failure nothing changes |
| Backend.ReleaseLock | src/modules/tasks/services/task-command.service.ts:73-75 | afterwards the key is not held; other locks and the rest of the world are unchanged |
| Backend.AcquireReleaseRestores | src/modules/tasks/services/task-command.service.ts:43-75 | taking a free lock and releasing it gives back the world as it was |
| Backend.Enqueue | src/modules/tasks/services/task-command.service.ts:34-37 | a successful add appends exactly the job; a throwing add changes nothing |
| Backend.Save | src/modules/tasks/services/task-command.service.ts:33 | the row with the record's id is inserted or overwritten; keying by id is preserved |
| Backend.Remove | src/modules/tasks/services/task-command.service.ts:84 | exactly the row with the id is gone; keying by id is preserved |
| Backend.Rollback | src/modules/tasks/services/task-command.service.ts:32-39 | a transaction that threw restores the table; cache, locks, counters and queue keep what was done to them |
| TaskDomain.ValidateTaskCreation | src/modules/tasks/services/task-domain.service.ts:10-30 | the input is accepted exactly when every check passes; each error occurs exactly when its check is the first one to fail, in the source's order; invalid priority or status errors carry the offending value; all are bad requests |
| TaskDomain.CreateFromDto | src/modules/tasks/services/task-domain.service.ts:32-43 | the built task is PENDING whatever the input said; title and user id are copied; a missing description becomes empty and a missing priority MEDIUM; a due date is set exactly when one is given, as parsed |
| TaskDomain.CreateIgnoresInputStatus | src/modules/tasks/services/task-domain.service.ts:40 | two accepted inputs that differ only in status build the same task |
| TaskDomain.ApplyUpdate | src/modules/tasks/services/task-domain.service.ts:45-48 | every field present in the patch takes the patch value and every other field, id and creation time included, keeps its value; a due date sent as null clears it |
| TaskDomain.ApplyNullDueDate | src/modules/tasks/services/task-domain.service.ts:46 | a due date sent as null clears the due date, and a due date left out keeps it |
| TaskDomain.ApplyEmptyPatch | src/modules/tasks/services/task-domain.service.ts:45-48 | the empty patch leaves the task unchanged |
| TaskDomain.ApplyUpdateIdempotent | src/modules/tasks/services/task-domain.service.ts:45-48 | applying a patch twice is applying it once |
| TaskDomain.ApplyUpdateIsPermissive | src/modules/tasks/services/task-domain.service.ts:46 | a status outside the enumeration is stored as given |
| TaskDomain.UpdateStatus | src/modules/tasks/services/task-domain.service.ts:50-56 | it fails exactly when the value is not a status, with a bad-request error naming it; otherwise only the status changes, to the given value |
| TaskQuery.Matching | src/modules/tasks/services/task-query.service.ts:31-34 | exactly the stored rows that meet every supplied filter are selected (equal status, equal priority, equal user, due date strictly before the bound), each once |
| TaskQuery.SortTasks | src/modules/tasks/services/task-query.service.ts:37 | the result is ordered on the sort column in the requested direction and is a permutation of the input; the column is any of the row's own columns: the two timestamps, id, title, description, status, priority or user id |
| TaskQuery.PrecedesTotal | src/modules/tasks/services/task-query.service.ts:37 | any two rows are comparable in the sort order |
| TaskQuery.PrecedesTransitive | src/modules/tasks/services/task-query.service.ts:37 | the sort order is transitive |
| TaskQuery.KeyLeTotal | src/modules/tasks/services/task-query.service.ts:37 | any two column values are comparable: timestamps with NULL last, texts in code-point order |
| TaskQuery.KeyLeTransitive | src/modules/tasks/services/task-query.service.ts:37 | the comparison of column values is transitive |
| TaskQuery.PageOf | src/modules/tasks/services/task-query.service.ts:23 | a missing page is 1, a given one is kept |
| TaskQuery.LimitOf | src/modules/tasks/services/task-query.service.ts:23 | a missing limit is 10, a given one is kept |
| TaskQuery.SkipOf | src/modules/tasks/services/task-query.service.ts:38 | the rows skipped are `(page - 1) * limit` |
| TaskQuery.CeilDiv | src/modules/tasks/services/task-query.service.ts:48 | the least page count whose pages hold all the rows |
| TaskQuery.SortedMatches | src/modules/tasks/services/task-query.service.ts:31-37 | exactly the matching stored rows, in the requested order, each once |
| TaskQuery.PageSlice | src/modules/tasks/services/task-query.service.ts:38-39 | at most `limit` rows after the first `skip`, exactly how many remain, each from the input, an ordered input giving an ordered page |
| TaskQuery.ListTasks | src/modules/tasks/services/task-query.service.ts:19-51 | every listed row is stored and meets every filter; the page is the sorted matches with `(page-1)*limit` skipped and at most `limit` taken; total counts all matches; page and limit are echoed; totalPages is the ceiling of total over limit |
| TaskQuery.ListDefaults | src/modules/tasks/services/task-query.service.ts:23 | without options the listing is the first ten matches by creation time, newest first |
| TaskQuery.TasksByIds | src/modules/tasks/services/task-query.service.ts:71-76 | exactly the stored rows whose id is requested, each once |
| TaskQuery.GetStats | src/modules/tasks/services/task-query.service.ts:78-94 | total counts every row; the completed, in-progress, pending and high-priority counts count the rows with that value, each at most total, the three status counts together at most total |
| TaskQuery.StatusCountsPartition | src/modules/tasks/services/task-query.service.ts:82-84 | when every stored status is a status value the three status counts add up to total |
| TaskQuery.GetTaskById | src/modules/tasks/services/task-query.service.ts:53-69 | a cached value is returned with nothing changed and no table read; on a miss the stored row is returned and cached with TTL 300; an absent row returns null and is not cached; nothing but the cache changes |
| TaskQuery.LookupCoherent | src/modules/tasks/services/task-query.service.ts:53-69 | over a cache that agrees with the table the lookup returns exactly the stored row and keeps the cache agreeing |
| TaskQuery.LookupTwice | src/modules/tasks/services/task-query.service.ts:54-65 | a second lookup is a hit that returns what the first returned and changes nothing |
| TaskCommand.CreateTask | src/modules/tasks/services/task-command.service.ts:28-40 | an invalid input throws its validation error before anything is saved or enqueued; otherwise the row `TaskDomain.CreateFromDto` builds (PENDING; title, user id and due date from the input, description and priority defaulted) is saved under the store's fresh id, growing the table by exactly one row, one `task-created` job with its id and status is enqueued, and the row is returned; a throwing add rolls the save back and throws |
| TaskCommand.UpdateInLock | src/modules/tasks/services/task-command.service.ts:51-72 | an absent task throws not-found with nothing changed; on success the loaded task overlaid with the patch is saved, a `task-status-updated` job is enqueued exactly when the status changed, and `task:{id}` is deleted from the cache; a failure leaves table and queue as they were |
| TaskCommand.UpdateTask | src/modules/tasks/services/task-command.service.ts:42-76 | a held lock throws Conflict with nothing changed; otherwise the transaction above runs and the lock is released on every exit, so the locks end as they began |
| TaskCommand.DeleteTask | src/modules/tasks/services/task-command.service.ts:78-87 | an absent task throws not-found; otherwise the row is removed and one `task-deleted` job enqueued, or, if the add throws, the table is restored; the cache is only what the lookup left |
| TaskCommand.UpdateStatus | src/modules/tasks/services/task-command.service.ts:126-140 | an absent task throws not-found, an invalid status throws bad-request; otherwise the row is saved with the new status and one `task-status-updated` job enqueued; the cache is only what the lookup left |
| TaskCommand.MissingIds | src/modules/tasks/services/task-command.service.ts:94-95 | exactly the requested ids that no found row has, each as often as it was requested; one requested id is kept exactly when no found row has it |
| TaskCommand.MissingIdsAppend | src/modules/tasks/services/task-command.service.ts:94-95 | the missing ids of a concatenation are those of its parts in order, so the filter keeps the request order |
| TaskCommand.NotFoundResults | src/modules/tasks/services/task-command.service.ts:97-99 | one not-found failure per missing id, in order |
| TaskCommand.MarkCompleted | src/modules/tasks/services/task-command.service.ts:102-105 | each found row with its status replaced by COMPLETED, in order, ids unchanged |
| TaskCommand.SaveAll | src/modules/tasks/services/task-command.service.ts:106 | the saved rows are stored under their ids and every other row keeps its value |
| TaskCommand.RemoveAll | src/modules/tasks/services/task-command.service.ts:115 | exactly the rows with the given ids are removed and every other row keeps its value |
| TaskCommand.FirstFault | src/modules/tasks/services/task-command.service.ts:107-119 | the index of the first throwing add of the loop, or the item count: every add before it goes through |
| TaskCommand.AnnounceClosed | src/modules/tasks/services/task-command.service.ts:107-119 | the loop adds the jobs and success entries of the items before the first throwing add and ends with that add's error |
| TaskCommand.RunBatch | src/modules/tasks/services/task-command.service.ts:90-123 | the jobs of the items before the first throwing add stay queued; the call succeeds exactly when no add throws, and then the table is the new one and the results are the failures then one success per item; otherwise the table is restored and the call throws that error |
| TaskCommand.BatchProcess | src/modules/tasks/services/task-command.service.ts:89-124 | an action other than `complete` or `delete` only reports the missing ids and changes nothing; those two actions act on the found rows, with the cache untouched |
| TaskCommand.ActOnBatch | src/modules/tasks/services/task-command.service.ts:92-123 | the missing ids come first as failures, then one success per found row; one job per found row up to the first throwing add; success exactly when no add throws |
| TaskCommand.DeleteAnnouncementsCarryNoId | src/modules/tasks/services/task-command.service.ts:114-119 | every `task-deleted` job and success entry of a `delete` batch has no task id, since `remove` has cleared the ids of the removed records |
| TaskCommand.BatchCompleteMarksRows | src/modules/tasks/services/task-command.service.ts:101-113 | a successful `complete` marks exactly the requested stored rows COMPLETED and changes nothing else in the table |
| TaskCommand.BatchDeleteRemovesRows | src/modules/tasks/services/task-command.service.ts:114-119 | a successful `delete` removes exactly the requested stored rows and keeps every other row |
| TaskCommand.CompleteEffect | src/modules/tasks/services/task-command.service.ts:102-106 | saving the found rows as COMPLETED changes exactly the requested stored rows, and only their status |
| TaskCommand.DeleteEffect | src/modules/tasks/services/task-command.service.ts:115 | removing the found rows removes exactly the requested stored rows |
| TaskCommand.MissingAreUnstored | src/modules/tasks/services/task-command.service.ts:92-95 | the failures name exactly the requested ids without a row |
| TaskCommand.FoundIds | src/modules/tasks/services/task-command.service.ts:92-94 | the found ids are exactly the requested ids that are stored |
| TaskCommand.CreatePreservesCoherence | src/modules/tasks/services/task-command.service.ts:28-40 | creating a task with a fresh id keeps a cache that agrees with the table agreeing |
| TaskCommand.UpdateInLockPreservesCoherence | src/modules/tasks/services/task-command.service.ts:51-72 | the update transaction, whatever its outcome, keeps an agreeing cache agreeing |
| TaskCommand.UpdatePreservesCoherence | src/modules/tasks/services/task-command.service.ts:42-76 | an update, whatever its outcome, keeps an agreeing cache agreeing |
| TaskCommand.ReadAfterUpdate | src/modules/tasks/services/task-command.service.ts:42-76 | after a successful update over an agreeing cache, the next lookup returns the saved row |
| TaskCommand.DeleteLeavesStaleEntry | src/modules/tasks/services/task-command.service.ts:78-87 | after deleting a cached stored task, a lookup still returns the deleted row and the cache no longer agrees with the table |
| TaskCommand.UpdateAfterDeleteResurrects | src/modules/tasks/services/task-command.service.ts:42-87 | after such a delete an update of the same id succeeds and saves the row back |
| TaskCommand.StatusChangeLeavesStaleEntry | src/modules/tasks/services/task-command.service.ts:126-140 | after a status change of a cached task, a lookup returns the row with its old status |
| TaskProcessor.HandleTaskCreated | src/queues/task-processor/task-processor.service.ts:55-81 | missing or empty task id or status reports `Missing required data` with nothing changed; a lookup error is reported; an absent task reports not found; a found task reports its stored id and status, not the payload's |
| TaskProcessor.HandleStatusUpdate | src/queues/task-processor/task-processor.service.ts:83-105 | missing data is reported with nothing changed; otherwise the status change runs and its error message, or the saved id and status, is returned, never thrown |
| TaskProcessor.SweepSkipProduct | src/queues/task-processor/task-processor.service.ts:118-121 | sweep page `p` skips `(p - 1) * 100` rows |
| TaskProcessor.SweepOptions | src/queues/task-processor/task-processor.service.ts:119 | each sweep page asks for 100 rows by due date, ascending |
| TaskProcessor.SweepPage | src/queues/task-processor/task-processor.service.ts:118-123 | a page past the number of rows is empty |
| TaskProcessor.SweepPageSlice | src/queues/task-processor/task-processor.service.ts:118-121 | sweep page `p` is the `p`-th run of 100 PENDING rows due before that page's clock reading, in ascending due-date order |
| TaskProcessor.SweepPages | src/queues/task-processor/task-processor.service.ts:117-127 | the listing of every page, each empty beyond the number of rows, which bounds the loop |
| TaskProcessor.NoticesFrom | src/queues/task-processor/task-processor.service.ts:129-155 | one result entry per row |
| TaskProcessor.DecimalString | src/queues/task-processor/task-processor.service.ts:166 | the count in the message is written in decimal digits that denote the count, with no leading zero |
| TaskProcessor.HandleOverdueTasks | src/queues/task-processor/task-processor.service.ts:107-174 | the sweep's notifications stay queued whatever its outcome; a query error is returned as the failure; otherwise the result reports the count of handled rows and their entries; nothing but the queue changes |
| TaskProcessor.Process | src/queues/task-processor/task-processor.service.ts:27-53 | a job with no attempts left (default 3) is refused and runs no handler; each known name goes to its handler; any other name is reported unknown; the only throw is a null data object read by the task-created or status-update handler, rethrown as `Job {id} failed: {message}` |
| TaskProcessor.JobsFromAppend | src/queues/task-processor/task-processor.service.ts:129-155 | the adds and entries of two runs of rows are those of the first run followed by those of the second |
| TaskProcessor.FirstQueryFailureEndsJob | src/queues/task-processor/task-processor.service.ts:107-174 | when the first page query throws, as the `LessThan` parameter is expected to make it, the job queues nothing, changes nothing and returns that error |
| TaskProcessor.SweepFromFailedQuery | src/queues/task-processor/task-processor.service.ts:169-173 | a query that throws ends the sweep with its error and no further adds |
| TaskProcessor.SweepFromEmptyPage | src/queues/task-processor/task-processor.service.ts:124-127 | an empty page ends the sweep with no further adds or entries |
| TaskProcessor.SweepFromNextPage | src/queues/task-processor/task-processor.service.ts:117-158 | a page with rows is handled, then the sweep goes on with the next page |
| TaskProcessor.SweepAdvance | src/queues/task-processor/task-processor.service.ts:129-157 | handling one page moves its adds and entries from what is to come to what has been made, without changing the totals |
| TaskProcessor.SweepClosed | src/queues/task-processor/task-processor.service.ts:117-158 | when every page is the matching window of one row sequence and no query throws, the sweep handles each of its rows exactly once, in order |
| TaskProcessor.PageWindow | src/queues/task-processor/task-processor.service.ts:118-127 | each page is the next slice of the rows; a page is empty only when the rows are used up |
| TaskProcessor.OverdueSweepHandlesEachOnce | src/queues/task-processor/task-processor.service.ts:107-174 | with a fixed clock and no failing query, and with every page query breaking due-date ties the same way, the job handles every PENDING row due before now exactly once, in ascending due-date order, makes one add attempt per row and reports their count |
| TaskProcessor.NoticesFromIndex | src/queues/task-processor/task-processor.service.ts:129-154 | the `j`-th entry is the `j`-th row's and says whether its add threw |
| TaskProcessor.JobsFromNoFaults | src/queues/task-processor/task-processor.service.ts:133-136 | when no add throws, every row gets its `send-notification` job, in order |
| TaskProcessor.EnqueuedNamesAreUnknown | src/queues/task-processor/task-processor.service.ts:37-47 | jobs named `task-status-updated`, `task-deleted` or `send-notification` are reported as unknown and change nothing |
| OverdueTasks.CheckOverdueTasks | src/queues/scheduled-tasks/overdue-tasks.service.ts:16-36 | each run appends exactly one `overdue-tasks-notification` job with empty data, three attempts and exponential backoff from 5000 ms; a throwing add is swallowed; nothing else is read or changed |
| OverdueTasks.SweepJobIsSwept | src/queues/scheduled-tasks/overdue-tasks.service.ts:21-28 | that job is dispatched to the sweep on each of its three attempts and refused after |
| RateLimit.RateKeyInjective | src/common/guards/rate-limit.guard.ts:26-27 | distinct (client digest, handler) pairs have distinct counter keys |
| RateLimit.Incr | src/common/guards/rate-limit.guard.ts:29 | the counter goes up by one and keeps its expiry, an absent one starts at 1 with none; the new count is returned; other counters are unchanged |
| RateLimit.Expire | src/common/guards/rate-limit.guard.ts:31 | an existing counter gets the expiry; an absent key changes nothing |
| RateLimit.CanActivate | src/common/guards/rate-limit.guard.ts:20-46 | every call increments the counter, rejected calls included; the expiry of `windowMs/1000` seconds is set only on the call that makes the count 1; the call passes exactly when the new count is at most the limit (100 a minute without metadata), else is rejected with the limit and the window |
| RateLimit.PairsCountIndependently | src/common/guards/rate-limit.guard.ts:26-29 | a request of one (client, handler) pair changes neither the count nor the next decision of any other pair |
| RateLimit.WindowElapsed | src/common/guards/rate-limit.guard.ts:31 | at the end of the window the counter is gone and counts 0 |
| RateLimit.FreshWindow | src/common/guards/rate-limit.guard.ts:29-46 | in one window from no counter, of `n` requests exactly the first `limit` pass; the counter holds `n` and expires one window after the first request; other counters are unchanged |
| RateLimit.NewWindowPasses | src/common/guards/rate-limit.guard.ts:29-34 | after the window has elapsed the next request passes exactly when the limit is at least 1 |
| Roles.Covered | src/common/guards/roles.guard.ts:28-31 | only `admin` and `user` are in the hierarchy |
| Roles.CanActivate | src/common/guards/roles.guard.ts:12-34 | no required-roles metadata allows; no user or no role denies; `admin` passes exactly when `admin` or `user` is required; `user` passes exactly when `user` is required; a role outside the table fails the guard |
| Roles.EmptyRequirementDenies | src/common/guards/roles.guard.ts:33 | an empty requirement list denies every user whose role is in the table |
| Roles.AdminDominatesUser | src/common/guards/roles.guard.ts:28-33 | whatever `user` may reach, `admin` may reach too |
| World.TaskWorld.Get | src/common/services/cache.service.ts:8-11 | returns what `Backend.CacheGet` gives |
| World.TaskWorld.Set | src/common/services/cache.service.ts:13-16 | the new state is `Backend.CacheSet` of the old |
| World.TaskWorld.Delete | src/common/services/cache.service.ts:18-20 | the new state is `Backend.CacheDelete` of the old |
| World.TaskWorld.Has | src/common/services/cache.service.ts:22-25 | returns what `Backend.CacheHas` gives |
| World.TaskWorld.Clear | src/common/services/cache.service.ts:27-30 | the new state is `Backend.CacheClear` of the old |
| World.TaskWorld.AcquireLock | src/modules/tasks/services/task-command.service.ts:44 | state and result are `Backend.AcquireLock` of the old state |
| World.TaskWorld.ReleaseLock | src/modules/tasks/services/task-command.service.ts:74 | the new state is `Backend.ReleaseLock` of the old |
| World.TaskWorld.Add | src/modules/tasks/services/task-command.service.ts:34-37 | the new state is `Backend.Enqueue` of the old; only the queue may change |
| World.TaskWorld.GetTaskById | src/modules/tasks/services/task-query.service.ts:53-69 | state and result are `TaskQuery.GetTaskById` of the old state |
| World.TaskWorld.CreateTask | src/modules/tasks/services/task-command.service.ts:28-40 | state and result are `TaskCommand.CreateTask` of the old state |
| World.TaskWorld.UpdateTask | src/modules/tasks/services/task-command.service.ts:42-76 | state and result are `TaskCommand.UpdateTask` of the old state; the lock is released in both exits |
| World.TaskWorld.UpdateInLock | src/modules/tasks/services/task-command.service.ts:51-72 | state and result are `TaskCommand.UpdateInLock` of the old state |
| World.TaskWorld.DeleteTask | src/modules/tasks/services/task-command.service.ts:78-87 | state and result are `TaskCommand.DeleteTask` of the old state |
| World.TaskWorld.UpdateStatus | src/modules/tasks/services/task-command.service.ts:126-140 | state and result are `TaskCommand.UpdateStatus` of the old state |
| World.TaskWorld.BatchProcess | src/modules/tasks/services/task-command.service.ts:89-124 | state and result are `TaskCommand.BatchProcess` of the old state |
| World.TaskWorld.NotFoundFailures | src/modules/tasks/services/task-command.service.ts:97-99 | the loop builds `TaskCommand.NotFoundResults` of the missing ids |
| World.TaskWorld.RunBatch | src/modules/tasks/services/task-command.service.ts:101-123 | state and result are `TaskCommand.RunBatch` of the old state; only table and queue may change |
| World.TaskWorld.AnnounceItems | src/modules/tasks/services/task-command.service.ts:107-119 | the loop's queue, results and error are `TaskCommand.Announce` from the first item |
| World.TaskWorld.CheckOverdueTasks | src/queues/scheduled-tasks/overdue-tasks.service.ts:16-36 | the new state is `OverdueTasks.CheckOverdueTasks` of the old; only the queue may change |
| World.TaskWorld.Incr | src/common/guards/rate-limit.guard.ts:29 | state and count are `RateLimit.Incr` of the old state |
| World.TaskWorld.Expire | src/common/guards/rate-limit.guard.ts:31 | the new state is `RateLimit.Expire` of the old |
| World.TaskWorld.CanActivate | src/common/guards/rate-limit.guard.ts:20-46 | state and decision are `RateLimit.CanActivate` of the old state; only the counters may change |
| World.TaskWorld.HandleTaskCreated | src/queues/task-processor/task-processor.service.ts:55-81 | state and result are `TaskProcessor.HandleTaskCreated` of the old state |
| World.TaskWorld.HandleStatusUpdate | src/queues/task-processor/task-processor.service.ts:83-105 | state and result are `TaskProcessor.HandleStatusUpdate` of the old state |
| World.TaskWorld.Process | src/queues/task-processor/task-processor.service.ts:27-53 | state and outcome are `TaskProcessor.Process` of the old state |
| World.TaskWorld.HandleOverdueTasks | src/queues/task-processor/task-processor.service.ts:107-174 | state and result are `TaskProcessor.HandleOverdueTasks` of the old state |
| World.TaskWorld.RunSweep | src/queues/task-processor/task-processor.service.ts:113-158 | the page loop queues exactly the sweep's adds and ends with its result or error |
| World.TaskWorld.SweepStep | src/queues/task-processor/task-processor.service.ts:117-158 | one loop round: a throwing query ends the sweep with its error, an empty page ends it, otherwise the page is handled and the sweep moves to the next page |
| World.TaskWorld.AdvancePage | src/queues/task-processor/task-processor.service.ts:129-157 | the page's rows are notified and the page counter advances, keeping the sweep's totals |
| World.TaskWorld.ListPage | src/queues/task-processor/task-processor.service.ts:118-123 | the rows listed are those of the page at its clock reading |
| World.TaskWorld.NotifyRows | src/queues/task-processor/task-processor.service.ts:129-155 | one add attempt per row in order; a throwing add is recorded and skipped; the entries are `TaskProcessor.NoticesFrom` |

## Left out

- The Redis client is not part of this model. The one Redis keyspace is split into three maps by the kind of key: cache entries (`task:` keys), locks (`lock:task:` keys) and rate-limit counters (`rate-limit:` keys). `RateLimit.KeyFamiliesDisjoint` shows that these key families never overlap. Lock acquire and release take a key if free and drop it, with no token. TTLs are stored as data and never expire; `RateLimit.WindowElapsed` stands for the end of a window.
- BullMQ is not part of this model. The queue is an append-only sequence of (name, data, options). Retries, backoff timing, removal of finished jobs and the queue-wide default options are the library's.
- Concurrency is not modelled. The worker's concurrency of 5 and races between processes on locks and cache are absent; every operation runs alone.
- The database is the task table. Query building, the user relation join and migrations are not modelled. The store errors modelled are a throwing queue add, a throwing point lookup (`Env.lookupError`) and a throwing sweep query (`Env.queryError`). A save or remove that throws is not modelled.
- SQL returns rows in an unspecified order. The model lists the table in ascending id order, and ties of the sort column keep that order.
- TaskProcessor.OverdueSweepHandlesEachOnce: its "exactly once" rests on every page query ordering tied due dates the same way. The model's ordering does this, but a database need not, and with a different tie order across page queries a row could be skipped or notified twice. The number of add attempts equals the number of rows listed whatever the tie order.
- The clock, `Date.parse`, date rendering in messages, SHA-256 and JSON encoding are inputs or the identity.
- TaskQuery.GetStats: the counts are natural numbers; how the driver returns a raw `COUNT(*)` (a string in PostgreSQL) is not modelled.
- TaskQuery.ListTasks / TaskQuery.SortTasks: `sortBy` is a free string that names a column. The model covers the row's own columns. `status` and `priority` are sorted as their stored strings in code-point order; the task entity is not part of this model, so a database enum ordering is not modelled. The database's text collation is taken to be code-point order. Sorting on `updatedAt` (a column the model does not keep) or on a relation is not modelled. A `sortBy` that names no column makes the query throw, and that is not modelled.
- TaskQuery.ListTasks: requires page and limit of at least 1, the bounds the request validation of the listing enforces before the query runs.
- RateLimit.CanActivate: the rejection carries the limit and the window in seconds; the text of the message, which prints a JavaScript number, is not modelled. A count past 2^63 is not modelled.
- Backend.CacheHas: modelled only on cache keys. A `task:` key never names a lock or a counter (`RateLimit.KeyFamiliesDisjoint`), but a `has` of a lock or counter key would see that entry in Redis, and the model does not.
- Backend.CacheGet: likewise, it reads only cache entries, not locks or counters under the same key.
- Backend.CacheDelete: likewise, it deletes only a cache entry, never a lock or a counter under the same key.
- TaskDomain.ApplyUpdate: only the due date is nullable. A null title, description, status, priority or user id would be copied by `Object.assign` and then refused by the column constraints, and that is not modelled.
- RateLimit.Expire: the expiry is kept as the exact quotient `windowMs / 1000`, including a fraction that Redis would reject.
- TaskProcessor.HandleOverdueTasks: the model reads the `LessThan(new Date())` operator as its date. On TypeORM's query builder with PostgreSQL the bound is not a date, and the query is expected to fail. The driver and database behaviour behind this are not modelled; whether a query throws is the input `Env.queryError`, and `TaskProcessor.FirstQueryFailureEndsJob` gives the outcome when it does.
- TaskProcessor.SweepPageSlice: states the page of PENDING rows due before the page's clock reading. That is the sweep the code would perform if its bound were a date; with the operator object the query is expected to throw instead.
- TaskProcessor.OverdueSweepHandlesEachOnce: its premise of no failing query, with the operator read as a date, is the intended sweep rather than the code as written (see the line above).
- TaskProcessor.HandleOverdueTasks: a clock reading per page is an input; all that is proved about the rows visited is `TaskProcessor.OverdueSweepHandlesEachOnce`, under a single clock reading.
- Roles.CanActivate: a role outside `admin`/`user` is `Fails`, the type error of calling `some` on a missing hierarchy entry; the exception itself is not modelled.
- Controllers, the task facade, DTO decorators, authentication, logging, metrics, the exception filter and health checks are wiring, I/O or observability. Only the contracts they hand to the core are kept: page and limit at least 1, and batch actions passed through as strings.
