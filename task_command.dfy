/**
 * The command service: create, lock-guarded update, delete, batch complete or
 * delete, and status change. Each is a function from the world before the call
 * to the world after it and what the call returned or threw. A transaction that
 * throws restores the task table only: queue appends and cache writes already
 * made stay.
 */
module TaskCommand {
  import opened Wrappers
  import opened TaskTypes
  import opened Backend
  import TaskDomain
  import opened TaskQuery

  /** The TTL, in milliseconds, of the lock an update takes. */
  const LockTtl: nat := 10000

  function TaskCreatedJob(t: Task): Job {
    Job("task-created", Some(Payload(Some(t.id), Some(t.status), None)), NoOptions)
  }

  function StatusUpdatedJob(id: Id, status: string): Job {
    Job("task-status-updated", Some(Payload(Some(id), Some(status), None)), NoOptions)
  }

  function DeletedJob(id: Id): Job {
    Job("task-deleted", Some(Payload(Some(id), None, None)), NoOptions)
  }

  /**
   * The `task-deleted` job the batch enqueues for a row it has already
   * removed: `remove` unsets the primary column of every record it removes,
   * so the payload's task id is undefined and drops out of the job data.
   */
  const RemovedRowJob: Job := Job("task-deleted", Some(Payload(None, None, None)), NoOptions)

  /** What the read-through lookup returns for `id` in world `s`. */
  function LoadedTask(s: Snapshot, id: Id): Option<Task> {
    GetTaskById(s, id).1
  }

  // ------------------------------------------------------------ create

  /**
   * Create: an invalid input throws before anything is saved or enqueued; a
   * valid one saves one PENDING row and then enqueues one `task-created` job for
   * it. If the enqueue throws, the transaction is rolled back. `newId` is the
   * id the store generates for the row, one no row has.
   */
  function CreateTask(s: Snapshot, dto: CreateInput, parse: DateParser, newId: Id, now: Timestamp,
                      fault: Option<string>): (r: Step<Task>)
    requires WellKeyed(s.tasks)
    requires newId !in s.tasks
    ensures WellKeyed(r.after.tasks)
    ensures TaskDomain.ValidateTaskCreation(dto, parse).Some? ==>
      r == Step(s, Err(TaskDomain.ValidateTaskCreation(dto, parse).value))
    ensures r.result.Ok? <==> TaskDomain.ValidateTaskCreation(dto, parse).None? && fault.None?
    ensures TaskDomain.ValidateTaskCreation(dto, parse).None? && fault.Some? ==>
      r == Step(s, Err(QueueError(fault.value)))
    ensures r.result.Ok? ==>
      var t := r.result.value;
      && t.id == newId && t.createdAt == now && t.status == StatusValue(Pending)
      && t.title == dto.title.value && t.userId == dto.userId.value
      && t.description == dto.description.GetOr("")
      && t.priority == dto.priority.GetOr(PriorityValue(Medium))
      && t.dueDate == (if Present(dto.dueDate) then parse(dto.dueDate.value) else None)
      && t == TaskDomain.CreateFromDto(dto, parse).Persisted(newId, now)
      && r.after.tasks == s.tasks[newId := t]
      && |r.after.tasks| == |s.tasks| + 1
      && r.after.queue == s.queue + [TaskCreatedJob(t)]
    ensures r.after.cache == s.cache && r.after.locks == s.locks && r.after.counters == s.counters
  {
    match TaskDomain.ValidateTaskCreation(dto, parse)
    case Some(e) => Step(s, Err(e))
    case None =>
      var saved := TaskDomain.CreateFromDto(dto, parse).Persisted(newId, now);
      var s1 := Save(s, saved);
      var s2 := Enqueue(s1, TaskCreatedJob(saved), fault);
      if fault.Some? then Step(Rollback(s2, s), Err(QueueError(fault.value)))
      else Step(s2, Ok(saved))
  }

  // ------------------------------------------------------------ update

  /** The transaction of an update, run while the lock is held. */
  function UpdateInLock(s: Snapshot, id: Id, patch: Patch, fault: Option<string>): (r: Step<Task>)
    requires WellKeyed(s.tasks)
    ensures WellKeyed(r.after.tasks)
    ensures r.after.locks == s.locks && r.after.counters == s.counters
    ensures LoadedTask(s, id).None? ==> r == Step(s, Err(NotFound(id)))
    ensures r.result.Ok? ==>
      var loaded := LoadedTask(s, id).value;
      var saved := r.result.value;
      && saved == TaskDomain.ApplyUpdate(loaded, patch)
      && r.after.tasks == s.tasks[saved.id := saved]
      && TaskKey(id) !in r.after.cache
      && r.after.queue == s.queue + (if loaded.status != saved.status then [StatusUpdatedJob(saved.id, saved.status)] else [])
    ensures r.result.Err? ==> r.after.tasks == s.tasks && r.after.queue == s.queue
    ensures forall k :: k != TaskKey(id) && k in s.cache ==> k in r.after.cache && r.after.cache[k] == s.cache[k]
  {
    var (s1, found) := GetTaskById(s, id);
    match found
    case None => Step(s1, Err(NotFound(id)))
    case Some(task) =>
      var updated := TaskDomain.ApplyUpdate(task, patch);
      var s2 := Save(s1, updated);
      if task.status != updated.status then
        if fault.Some? then Step(Rollback(s2, s), Err(QueueError(fault.value)))
        else Step(CacheDelete(Enqueue(s2, StatusUpdatedJob(updated.id, updated.status), None), TaskKey(id)), Ok(updated))
      else Step(CacheDelete(s2, TaskKey(id)), Ok(updated))
  }

  /**
   * Update: without the lock `lock:task:{id}` it throws Conflict and changes
   * nothing. With it, the task is loaded through the cache, patched and saved;
   * a `task-status-updated` job is enqueued exactly when the status changed;
   * the cache entry `task:{id}` is deleted; and the lock is released on every
   * exit.
   */
  function UpdateTask(s: Snapshot, id: Id, patch: Patch, fault: Option<string>): (r: Step<Task>)
    requires WellKeyed(s.tasks)
    ensures WellKeyed(r.after.tasks)
    ensures LockKey(id) in s.locks ==> r == Step(s, Err(Conflict))
    ensures LockKey(id) !in s.locks ==> r.after.locks == s.locks
    ensures r.after.counters == s.counters
    ensures LockKey(id) !in s.locks && LoadedTask(s, id).None? ==> r == Step(s, Err(NotFound(id)))
    ensures r.result.Ok? ==>
      var loaded := LoadedTask(s, id).value;
      var saved := r.result.value;
      && LockKey(id) !in s.locks
      && saved == TaskDomain.ApplyUpdate(loaded, patch)
      && r.after.tasks == s.tasks[saved.id := saved]
      && TaskKey(id) !in r.after.cache
      && r.after.queue == s.queue + (if loaded.status != saved.status then [StatusUpdatedJob(saved.id, saved.status)] else [])
    ensures r.result.Err? ==> r.after.tasks == s.tasks && r.after.queue == s.queue
    ensures forall k :: k != TaskKey(id) && k in s.cache ==> k in r.after.cache && r.after.cache[k] == s.cache[k]
  {
    var key := LockKey(id);
    var (s1, acquired) := AcquireLock(s, key, LockTtl);
    if !acquired then Step(s, Err(Conflict))
    else
      assert LoadedTask(s1, id) == LoadedTask(s, id);
      var inner := UpdateInLock(s1, id, patch, fault);
      Step(ReleaseLock(inner.after, key), inner.result)
  }

  // ------------------------------------------------------------ delete

  /**
   * Delete: the task is loaded through the cache (NotFound if absent), its row
   * removed and a `task-deleted` job enqueued. The cache is not invalidated.
   */
  function DeleteTask(s: Snapshot, id: Id, fault: Option<string>): (r: Step<()>)
    requires WellKeyed(s.tasks)
    ensures WellKeyed(r.after.tasks)
    ensures LoadedTask(s, id).None? <==> r == Step(s, Err(NotFound(id)))
    ensures r.result.Ok? <==> LoadedTask(s, id).Some? && fault.None?
    ensures r.result.Ok? ==>
      && r.after.tasks == s.tasks - {LoadedTask(s, id).value.id}
      && r.after.queue == s.queue + [DeletedJob(id)]
    ensures r.result.Err? ==> r.after.tasks == s.tasks && r.after.queue == s.queue
    ensures r.after.cache == GetTaskById(s, id).0.cache
    ensures r.after.locks == s.locks && r.after.counters == s.counters
  {
    var (s1, found) := GetTaskById(s, id);
    match found
    case None => Step(s1, Err(NotFound(id)))
    case Some(task) =>
      var s2 := Remove(s1, task.id);
      if fault.Some? then Step(Rollback(s2, s1), Err(QueueError(fault.value)))
      else Step(Enqueue(s2, DeletedJob(id), None), Ok(()))
  }

  // ------------------------------------------------------------ status change

  /**
   * Status change: the task is loaded through the cache, its status replaced
   * if the value is valid, the row saved and a `task-status-updated` job
   * enqueued. The cache is not invalidated.
   */
  function UpdateStatus(s: Snapshot, id: Id, status: string, fault: Option<string>): (r: Step<Task>)
    requires WellKeyed(s.tasks)
    ensures WellKeyed(r.after.tasks)
    ensures LoadedTask(s, id).None? <==> r == Step(s, Err(NotFound(id)))
    ensures LoadedTask(s, id).Some? && !IsStatusValue(status) ==>
      r == Step(GetTaskById(s, id).0, Err(InvalidStatus(status)))
    ensures r.result.Ok? <==> LoadedTask(s, id).Some? && IsStatusValue(status) && fault.None?
    ensures r.result.Ok? ==>
      var saved := r.result.value;
      && saved == LoadedTask(s, id).value.(status := status)
      && r.after.tasks == s.tasks[saved.id := saved]
      && r.after.queue == s.queue + [StatusUpdatedJob(saved.id, status)]
    ensures r.result.Err? ==> r.after.tasks == s.tasks && r.after.queue == s.queue
    ensures r.after.cache == GetTaskById(s, id).0.cache
    ensures r.after.locks == s.locks && r.after.counters == s.counters
  {
    var (s1, found) := GetTaskById(s, id);
    match found
    case None => Step(s1, Err(NotFound(id)))
    case Some(task) =>
      match TaskDomain.UpdateStatus(task, status)
      case Err(e) => Step(s1, Err(e))
      case Ok(updated) =>
        var s2 := Save(s1, updated);
        if fault.Some? then Step(Rollback(s2, s1), Err(QueueError(fault.value)))
        else Step(Enqueue(s2, StatusUpdatedJob(updated.id, updated.status), None), Ok(updated))
  }

  // ------------------------------------------------------------ batch

  /**
   * One entry of the batch response; `entryId` is the entry's `taskId`. A
   * success entry of `delete` has none, since it is read from a record
   * `remove` has already cleared.
   */
  datatype BatchResult = Failed(taskId: Id, error: string) | Succeeded(entryId: Option<Id>, result: Option<Task>)

  /** The two actions the batch command acts on; any other action string does nothing. */
  datatype BatchAction = CompleteAll | DeleteAll

  function ActionOf(action: string): Option<BatchAction> {
    if action == "complete" then Some(CompleteAll)
    else if action == "delete" then Some(DeleteAll)
    else None
  }

  /** The requested ids no found row has, in request order, repeats kept. */
  function MissingIds(ids: seq<Id>, found: seq<Task>): (r: seq<Id>)
    ensures forall id :: id in r <==> id in ids && id !in Ids(found)
    ensures forall id :: multiset(r)[id] == if id in Ids(found) then 0 else multiset(ids)[id]
    ensures |ids| == 1 ==> r == if ids[0] in Ids(found) then [] else ids
    ensures |r| <= |ids|
  {
    if ids == [] then []
    else
      var rest := MissingIds(ids[1..], found);
      assert ids == [ids[0]] + ids[1..];
      (if ids[0] in Ids(found) then [] else [ids[0]]) + rest
  }

  /**
   * The missing ids of a concatenation are those of its first part followed by
   * those of its second: with the one-id case above, the missing ids keep the
   * request order.
   */
  lemma {:induction false} MissingIdsAppend(xs: seq<Id>, ys: seq<Id>, found: seq<Task>)
    decreases |xs|
    ensures MissingIds(xs + ys, found) == MissingIds(xs, found) + MissingIds(ys, found)
  {
    if xs == [] {
      assert xs + ys == ys;
    } else {
      assert (xs + ys)[1..] == xs[1..] + ys;
      MissingIdsAppend(xs[1..], ys, found);
      var head := if xs[0] in Ids(found) then [] else [xs[0]];
      AppendAssoc(head, MissingIds(xs[1..], found), MissingIds(ys, found));
    }
  }

  function NotFoundResults(missing: seq<Id>): (r: seq<BatchResult>)
    ensures |r| == |missing|
    ensures forall i :: 0 <= i < |r| ==> r[i] == Failed(missing[i], NotFound(missing[i]).Message())
  {
    seq(|missing|, i requires 0 <= i < |missing| => Failed(missing[i], NotFound(missing[i]).Message()))
  }

  /** The found rows with their status replaced by COMPLETED. */
  function MarkCompleted(found: seq<Task>): (r: seq<Task>)
    ensures |r| == |found|
    ensures forall i :: 0 <= i < |r| ==> r[i] == found[i].(status := StatusValue(Completed))
    ensures DistinctIds(found) ==> DistinctIds(r)
    ensures Ids(r) == Ids(found)
  {
    seq(|found|, i requires 0 <= i < |found| => found[i].(status := StatusValue(Completed)))
  }

  /** `save` of an array of records: each row in turn. */
  function SaveAll(tasks: map<Id, Task>, ts: seq<Task>): (r: map<Id, Task>)
    decreases |ts|
    ensures forall id :: id in r <==> id in tasks || id in Ids(ts)
    ensures forall id :: id in tasks && id !in Ids(ts) ==> r[id] == tasks[id]
    ensures DistinctIds(ts) ==> forall i :: 0 <= i < |ts| ==> ts[i].id in r && r[ts[i].id] == ts[i]
    ensures WellKeyed(tasks) ==> WellKeyed(r)
  {
    if ts == [] then tasks
    else
      var rest := SaveAll(tasks[ts[0].id := ts[0]], ts[1..]);
      IdsTail(ts);
      if DistinctIds(ts) then
        SaveAllHead(tasks[ts[0].id := ts[0]], ts, rest);
        rest
      else rest
  }

  /** The step of `SaveAll`: saving the head, then the distinct tail, leaves every row of `ts` stored. */
  lemma SaveAllHead(table: map<Id, Task>, ts: seq<Task>, rest: map<Id, Task>)
    requires ts != [] && DistinctIds(ts)
    requires ts[0].id in table && table[ts[0].id] == ts[0]
    requires forall id :: id in table ==> id in rest
    requires forall id :: id in table && id !in Ids(ts[1..]) ==> rest[id] == table[id]
    requires DistinctIds(ts[1..]) ==> forall i :: 0 <= i < |ts| - 1 ==> ts[1..][i].id in rest && rest[ts[1..][i].id] == ts[1..][i]
    ensures forall i :: 0 <= i < |ts| ==> ts[i].id in rest && rest[ts[i].id] == ts[i]
  {
    assert DistinctIds(ts[1..]);
    forall i | 0 <= i < |ts|
      ensures ts[i].id in rest && rest[ts[i].id] == ts[i]
    {
      if i == 0 {
        assert ts[0].id !in Ids(ts[1..]);
      } else {
        assert ts[i] == ts[1..][i - 1];
      }
    }
  }

  lemma IdsTail(ts: seq<Task>)
    requires ts != []
    ensures forall id :: id in Ids(ts) <==> id == ts[0].id || id in Ids(ts[1..])
  {
    assert Ids(ts) == [ts[0].id] + Ids(ts[1..]);
  }

  /** `remove` of an array of records: every row with one of their ids. */
  function RemoveAll(tasks: map<Id, Task>, ts: seq<Task>): (r: map<Id, Task>)
    ensures forall id :: id in r <==> id in tasks && id !in Ids(ts)
    ensures forall id :: id in r ==> r[id] == tasks[id]
    ensures WellKeyed(tasks) ==> WellKeyed(r)
  {
    var gone := set id | id in Ids(ts);
    tasks - gone
  }

  function BatchJob(a: BatchAction, t: Task): Job {
    match a
    case CompleteAll => StatusUpdatedJob(t.id, StatusValue(Completed))
    case DeleteAll => RemovedRowJob
  }

  function BatchSuccess(a: BatchAction, t: Task): BatchResult {
    match a
    case CompleteAll => Succeeded(Some(t.id), Some(t))
    case DeleteAll => Succeeded(None, None)
  }

  /** The job each task of `ts` gets, in order. */
  function BatchJobs(a: BatchAction, ts: seq<Task>): (r: seq<Job>)
    ensures |r| == |ts|
  {
    if ts == [] then [] else [BatchJob(a, ts[0])] + BatchJobs(a, ts[1..])
  }

  /** The success entry each task of `ts` gets, in order. */
  function BatchSuccesses(a: BatchAction, ts: seq<Task>): (r: seq<BatchResult>)
    ensures |r| == |ts|
  {
    if ts == [] then [] else [BatchSuccess(a, ts[0])] + BatchSuccesses(a, ts[1..])
  }

  /** The jobs of two runs of items are the jobs of the first run followed by those of the second. */
  lemma {:induction false} BatchJobsAppend(a: BatchAction, xs: seq<Task>, ys: seq<Task>)
    decreases |xs|
    ensures BatchJobs(a, xs + ys) == BatchJobs(a, xs) + BatchJobs(a, ys)
  {
    if xs == [] {
      assert xs + ys == ys;
    } else {
      assert (xs + ys)[1..] == xs[1..] + ys;
      BatchJobsAppend(a, xs[1..], ys);
      AppendAssoc([BatchJob(a, xs[0])], BatchJobs(a, xs[1..]), BatchJobs(a, ys));
    }
  }

  /** Likewise for the success entries. */
  lemma {:induction false} BatchSuccessesAppend(a: BatchAction, xs: seq<Task>, ys: seq<Task>)
    decreases |xs|
    ensures BatchSuccesses(a, xs + ys) == BatchSuccesses(a, xs) + BatchSuccesses(a, ys)
  {
    if xs == [] {
      assert xs + ys == ys;
    } else {
      assert (xs + ys)[1..] == xs[1..] + ys;
      BatchSuccessesAppend(a, xs[1..], ys);
      AppendAssoc([BatchSuccess(a, xs[0])], BatchSuccesses(a, xs[1..]), BatchSuccesses(a, ys));
    }
  }

  /** The index of the first of the adds `i`, ..., `n - 1` that throws, or `n`. */
  function FirstFault(faults: nat -> Option<string>, i: nat, n: nat): (k: nat)
    requires i <= n
    decreases n - i
    ensures i <= k <= n
    ensures forall j :: i <= j < k ==> faults(j).None?
    ensures k < n ==> faults(k).Some?
  {
    if i == n || faults(i).Some? then i else FirstFault(faults, i + 1, n)
  }

  /** The first throwing add is the one at `k` when every add before it, from `i`, goes through. */
  lemma {:induction false} FirstFaultAt(faults: nat -> Option<string>, i: nat, n: nat, k: nat)
    requires i <= k <= n
    requires forall j :: i <= j < k ==> faults(j).None?
    requires k < n ==> faults(k).Some?
    decreases k - i
    ensures FirstFault(faults, i, n) == k
  {
    if i < k {
      FirstFaultAt(faults, i + 1, n, k);
    }
  }

  /**
   * The loop of the batch command from item `i` on: one add and one success
   * entry per item; the `k`-th add throws when `faults(k)` holds a message,
   * which ends the loop with that error.
   */
  function Announce(q: seq<Job>, rs: seq<BatchResult>, items: seq<Task>, i: nat, a: BatchAction,
                    faults: nat -> Option<string>): (seq<Job>, seq<BatchResult>, Option<string>)
    requires i <= |items|
    decreases |items| - i
  {
    if i == |items| then (q, rs, None)
    else if faults(i).Some? then (q, rs, faults(i))
    else Announce(q + [BatchJob(a, items[i])], rs + [BatchSuccess(a, items[i])], items, i + 1, a, faults)
  }

  /**
   * The loop adds the jobs and success entries of the items before the first
   * throwing add, and ends with that add's error, if any.
   */
  lemma {:induction false} AnnounceClosed(q: seq<Job>, rs: seq<BatchResult>, items: seq<Task>, i: nat, a: BatchAction,
                                          faults: nat -> Option<string>)
    requires i <= |items|
    decreases |items| - i
    ensures var r := Announce(q, rs, items, i, a, faults);
      var k := FirstFault(faults, i, |items|);
      && r.0 == q + BatchJobs(a, items[i..k])
      && r.1 == rs + BatchSuccesses(a, items[i..k])
      && r.2 == (if k < |items| then faults(k) else None)
  {
    var k := FirstFault(faults, i, |items|);
    if i == |items| || faults(i).Some? {
      assert k == i;
      assert BatchJobs(a, items[i..k]) == [];
      assert BatchSuccesses(a, items[i..k]) == [];
    } else {
      var j, x := BatchJob(a, items[i]), BatchSuccess(a, items[i]);
      AnnounceClosed(q + [j], rs + [x], items, i + 1, a, faults);
      assert k == FirstFault(faults, i + 1, |items|);
      AnnounceStep(a, items, i, k);
      AppendAssoc(q, [j], BatchJobs(a, items[i + 1..k]));
      AppendAssoc(rs, [x], BatchSuccesses(a, items[i + 1..k]));
    }
  }

  lemma AnnounceStep(a: BatchAction, items: seq<Task>, i: nat, k: nat)
    requires i < k <= |items|
    ensures BatchJobs(a, items[i..k]) == [BatchJob(a, items[i])] + BatchJobs(a, items[i + 1..k])
    ensures BatchSuccesses(a, items[i..k]) == [BatchSuccess(a, items[i])] + BatchSuccesses(a, items[i + 1..k])
  {
    assert items[i..k][1..] == items[i + 1..k];
  }

  /**
   * The transaction of a batch action: the loop over `items`, then either the
   * new table `table` and the results, or, when an add throws, the old table
   * and that error.
   */
  function RunBatch(s: Snapshot, failures: seq<BatchResult>, items: seq<Task>, table: map<Id, Task>,
                    a: BatchAction, faults: nat -> Option<string>): (r: Step<seq<BatchResult>>)
    ensures var k := FirstFault(faults, 0, |items|);
      && r.after.queue == s.queue + BatchJobs(a, items[..k])
      && (r.result.Ok? <==> k == |items|)
      && (r.result.Err? ==> r.after.tasks == s.tasks && r.result.error == QueueError(faults(k).value))
      && (r.result.Ok? ==> r.after.tasks == table && r.result.value == failures + BatchSuccesses(a, items))
    ensures r.after.cache == s.cache && r.after.locks == s.locks && r.after.counters == s.counters
  {
    var (q, rs, err) := Announce(s.queue, failures, items, 0, a, faults);
    AnnounceClosed(s.queue, failures, items, 0, a, faults);
    assert items[0..|items|] == items;
    if err.Some? then Step(Rollback(s.(tasks := table, queue := q), s), Err(QueueError(err.value)))
    else Step(s.(tasks := table, queue := q), Ok(rs))
  }

  /** The rows a batch action saves or removes, and the table it leaves. */
  function BatchItems(a: BatchAction, found: seq<Task>): seq<Task> {
    if a == CompleteAll then MarkCompleted(found) else found
  }

  function BatchTable(a: BatchAction, tasks: map<Id, Task>, found: seq<Task>): (r: map<Id, Task>)
    ensures WellKeyed(tasks) ==> WellKeyed(r)
  {
    if a == CompleteAll then SaveAll(tasks, MarkCompleted(found)) else RemoveAll(tasks, found)
  }

  /**
   * Batch: the requested ids with no row come first as failures, in request
   * order. `complete` saves every found row as COMPLETED and enqueues a
   * `task-status-updated` job for each; `delete` removes them and enqueues a
   * `task-deleted` job for each; any other action changes nothing. The first
   * add that throws rolls the table back, keeps the jobs already added and
   * makes the whole call throw. The cache is not touched.
   */
  function BatchProcess(s: Snapshot, ids: seq<Id>, action: string, faults: nat -> Option<string>)
    : (r: Step<seq<BatchResult>>)
    requires WellKeyed(s.tasks)
    ensures WellKeyed(r.after.tasks)
    ensures r.after.cache == s.cache && r.after.locks == s.locks && r.after.counters == s.counters
    ensures ActionOf(action).None? ==>
      r == Step(s, Ok(NotFoundResults(MissingIds(ids, TasksByIds(s.tasks, ids)))))
    ensures ActionOf(action).Some? ==> r == ActOnBatch(s, ids, ActionOf(action).value, faults)
  {
    match ActionOf(action)
    case None => Step(s, Ok(NotFoundResults(MissingIds(ids, TasksByIds(s.tasks, ids)))))
    case Some(a) => ActOnBatch(s, ids, a, faults)
  }

  /**
   * The batch with action `a`: the jobs of the items before the first throwing
   * add are queued; without a throwing add the table becomes `BatchTable` and
   * the result lists the failures and then one success per item; otherwise the
   * table is as it was and the call throws that add's error.
   */
  function ActOnBatch(s: Snapshot, ids: seq<Id>, a: BatchAction, faults: nat -> Option<string>)
    : (r: Step<seq<BatchResult>>)
    requires WellKeyed(s.tasks)
    ensures WellKeyed(r.after.tasks)
    ensures r.after.cache == s.cache && r.after.locks == s.locks && r.after.counters == s.counters
    ensures var found := TasksByIds(s.tasks, ids);
      var k := FirstFault(faults, 0, |found|);
      && r.after.queue == s.queue + BatchJobs(a, BatchItems(a, found)[..k])
      && (r.result.Ok? <==> k == |found|)
      && (r.result.Err? ==> r.after.tasks == s.tasks && r.result.error == QueueError(faults(k).value))
      && (r.result.Ok? ==>
            && r.after.tasks == BatchTable(a, s.tasks, found)
            && r.result.value == NotFoundResults(MissingIds(ids, found)) + BatchSuccesses(a, BatchItems(a, found)))
  {
    var found := TasksByIds(s.tasks, ids);
    var items := BatchItems(a, found);
    assert |items| == |found|;
    RunBatch(s, NotFoundResults(MissingIds(ids, found)), items, BatchTable(a, s.tasks, found), a, faults)
  }

  /** A batch `complete` that succeeds marks exactly the requested stored rows COMPLETED. */
  lemma BatchCompleteMarksRows(s: Snapshot, ids: seq<Id>, faults: nat -> Option<string>)
    requires WellKeyed(s.tasks)
    requires BatchProcess(s, ids, "complete", faults).result.Ok?
    ensures var after := BatchProcess(s, ids, "complete", faults).after.tasks;
      && after.Keys == s.tasks.Keys
      && forall id :: id in s.tasks ==>
           after[id] == if id in ids then s.tasks[id].(status := StatusValue(Completed)) else s.tasks[id]
  {
    CompleteEffect(s.tasks, ids);
  }

  /** A batch `delete` that succeeds removes exactly the requested stored rows. */
  lemma BatchDeleteRemovesRows(s: Snapshot, ids: seq<Id>, faults: nat -> Option<string>)
    requires WellKeyed(s.tasks)
    requires BatchProcess(s, ids, "delete", faults).result.Ok?
    ensures var after := BatchProcess(s, ids, "delete", faults).after.tasks;
      && (forall id :: id in after <==> id in s.tasks && id !in ids)
      && forall id :: id in after ==> after[id] == s.tasks[id]
  {
    DeleteEffect(s.tasks, ids);
  }

  /**
   * A `delete` batch announces each removed row with a job and a success entry
   * that carry no task id, because `remove` has cleared the ids first.
   */
  lemma {:induction false} DeleteAnnouncementsCarryNoId(ts: seq<Task>)
    decreases |ts|
    ensures forall j :: 0 <= j < |ts| ==> BatchJobs(DeleteAll, ts)[j] == RemovedRowJob
    ensures forall j :: 0 <= j < |ts| ==> BatchSuccesses(DeleteAll, ts)[j] == Succeeded(None, None)
  {
    if ts != [] {
      DeleteAnnouncementsCarryNoId(ts[1..]);
      forall j | 1 <= j < |ts|
        ensures BatchJobs(DeleteAll, ts)[j] == BatchJobs(DeleteAll, ts[1..])[j - 1]
        ensures BatchSuccesses(DeleteAll, ts)[j] == BatchSuccesses(DeleteAll, ts[1..])[j - 1]
      {
      }
    }
  }

  /** Saving the found rows as COMPLETED changes exactly the requested stored rows, and only their status. */
  lemma CompleteEffect(tasks: map<Id, Task>, ids: seq<Id>)
    requires WellKeyed(tasks)
    ensures var table := SaveAll(tasks, MarkCompleted(TasksByIds(tasks, ids)));
      && table.Keys == tasks.Keys
      && forall id :: id in tasks ==>
           table[id] == if id in ids then tasks[id].(status := StatusValue(Completed)) else tasks[id]
  {
    var found := TasksByIds(tasks, ids);
    var items := MarkCompleted(found);
    FoundIds(tasks, ids, found);
    forall id | id in tasks && id in ids
      ensures SaveAll(tasks, items)[id] == tasks[id].(status := StatusValue(Completed))
    {
      var j :| 0 <= j < |found| && found[j] == tasks[id];
      assert items[j].id == id;
    }
  }

  /** Removing the found rows removes exactly the requested stored rows. */
  lemma DeleteEffect(tasks: map<Id, Task>, ids: seq<Id>)
    requires WellKeyed(tasks)
    ensures var table := RemoveAll(tasks, TasksByIds(tasks, ids));
      && (forall id :: id in table <==> id in tasks && id !in ids)
      && forall id :: id in table ==> table[id] == tasks[id]
  {
    FoundIds(tasks, ids, TasksByIds(tasks, ids));
  }

  /** The failures of a batch name exactly the requested ids that have no row. */
  lemma MissingAreUnstored(tasks: map<Id, Task>, ids: seq<Id>)
    requires WellKeyed(tasks)
    ensures forall id :: id in MissingIds(ids, TasksByIds(tasks, ids)) <==> id in ids && id !in tasks
  {
    FoundIds(tasks, ids, TasksByIds(tasks, ids));
  }

  /** The ids of the rows the batch found are exactly the requested ids that are stored. */
  lemma FoundIds(tasks: map<Id, Task>, ids: seq<Id>, found: seq<Task>)
    requires WellKeyed(tasks)
    requires found == TasksByIds(tasks, ids)
    ensures forall id :: id in Ids(found) <==> id in ids && id in tasks
  {
    var foundIds := Ids(found);
    forall id | id in foundIds
      ensures id in ids && id in tasks
    {
      var j :| 0 <= j < |found| && foundIds[j] == id;
      assert found[j] in found;
    }
    forall id | id in ids && id in tasks
      ensures id in foundIds
    {
      var j :| 0 <= j < |found| && found[j] == tasks[id];
      assert foundIds[j] == id;
    }
  }

  // ------------------------------------------------------------ cache coherence across commands

  /** Creating a task with a fresh id keeps a coherent cache coherent. */
  lemma CreatePreservesCoherence(s: Snapshot, dto: CreateInput, parse: DateParser, newId: Id, now: Timestamp,
                                 fault: Option<string>)
    requires WellKeyed(s.tasks) && Coherent(s)
    requires newId !in s.tasks
    ensures Coherent(CreateTask(s, dto, parse, newId, now, fault).after)
  {
    var r := CreateTask(s, dto, parse, newId, now, fault).after;
    forall x | TaskKey(x) in r.cache
      ensures x in r.tasks && r.cache[TaskKey(x)].value == r.tasks[x]
    {
      assert x != newId;
    }
  }

  /** An update, whatever its outcome, keeps a coherent cache coherent. */
  lemma UpdatePreservesCoherence(s: Snapshot, id: Id, patch: Patch, fault: Option<string>)
    requires WellKeyed(s.tasks) && Coherent(s)
    ensures Coherent(UpdateTask(s, id, patch, fault).after)
  {
    if LockKey(id) !in s.locks {
      var s1 := AcquireLock(s, LockKey(id), LockTtl).0;
      assert Coherent(s1);
      UpdateInLockPreservesCoherence(s1, id, patch, fault);
    }
  }

  /** The transaction of an update keeps a coherent cache coherent. */
  lemma UpdateInLockPreservesCoherence(s: Snapshot, id: Id, patch: Patch, fault: Option<string>)
    requires WellKeyed(s.tasks) && Coherent(s)
    ensures Coherent(UpdateInLock(s, id, patch, fault).after)
  {
    var r := UpdateInLock(s, id, patch, fault);
    LookupCoherent(s, id);
    var loaded := GetTaskById(s, id).0;
    if r.result.Ok? {
      assert id in s.tasks && r.result.value.id == id;
      forall x | TaskKey(x) in r.after.cache
        ensures x in r.after.tasks && r.after.cache[TaskKey(x)].value == r.after.tasks[x]
      {
        assert x != id;
        assert TaskKey(x) in loaded.cache;
      }
    } else {
      assert r.after.cache == loaded.cache;
    }
  }

  /** After a successful update over a coherent cache, a read returns the saved row. */
  lemma ReadAfterUpdate(s: Snapshot, id: Id, patch: Patch, fault: Option<string>)
    requires WellKeyed(s.tasks) && Coherent(s)
    requires UpdateTask(s, id, patch, fault).result.Ok?
    ensures LoadedTask(UpdateTask(s, id, patch, fault).after, id) == Some(UpdateTask(s, id, patch, fault).result.value)
  {
    var r := UpdateTask(s, id, patch, fault);
    LookupCoherent(AcquireLock(s, LockKey(id), LockTtl).0, id);
    UpdatePreservesCoherence(s, id, patch, fault);
    LookupCoherent(r.after, id);
  }

  /**
   * Delete does not invalidate the cache: after deleting a stored task, a read
   * still returns the deleted row, and the cache is no longer coherent.
   */
  lemma DeleteLeavesStaleEntry(s: Snapshot, id: Id)
    requires WellKeyed(s.tasks) && Coherent(s)
    requires id in s.tasks
    ensures var r := DeleteTask(s, id, None);
      && r.result.Ok?
      && id !in r.after.tasks
      && LoadedTask(r.after, id) == Some(s.tasks[id])
      && !Coherent(r.after)
  {
    LookupCoherent(s, id);
  }

  /**
   * Because of that entry, an update of the deleted id succeeds and saves the
   * row back into the table.
   */
  lemma UpdateAfterDeleteResurrects(s: Snapshot, id: Id, patch: Patch)
    requires WellKeyed(s.tasks) && Coherent(s)
    requires id in s.tasks && LockKey(id) !in s.locks
    ensures var deleted := DeleteTask(s, id, None).after;
      var r := UpdateTask(deleted, id, patch, None);
      && r.result.Ok?
      && r.result.value == TaskDomain.ApplyUpdate(s.tasks[id], patch)
      && r.after.tasks == deleted.tasks[id := r.result.value]
  {
    DeleteLeavesStaleEntry(s, id);
    var deleted := DeleteTask(s, id, None).after;
    var s1 := AcquireLock(deleted, LockKey(id), LockTtl).0;
    assert LoadedTask(s1, id) == Some(s.tasks[id]);
  }

  /**
   * The status change does not invalidate the cache either: after a status
   * change of a stored task, a read returns the row with its old status.
   */
  lemma StatusChangeLeavesStaleEntry(s: Snapshot, id: Id, status: string)
    requires WellKeyed(s.tasks) && Coherent(s)
    requires id in s.tasks && IsStatusValue(status) && status != s.tasks[id].status
    ensures var r := UpdateStatus(s, id, status, None);
      && r.result.Ok?
      && r.after.tasks[id].status == status
      && LoadedTask(r.after, id) == Some(s.tasks[id])
  {
    LookupCoherent(s, id);
  }
}
