/**
 * The services as they run: one object holds the task table, the key-value
 * store (cache entries, locks, rate-limit counters) and the job queue, and each
 * service method changes them step by step. Every method is proved to leave
 * the object in the state, and to return the value, that the corresponding
 * function of the value model gives.
 */
module World {
  import opened Wrappers
  import opened TaskTypes
  import opened Backend
  import opened TaskQuery
  import TaskDomain
  import TaskCommand
  import TaskProcessor
  import OverdueTasks
  import RateLimit

  class TaskWorld {
    var tasks: map<Id, Task>
    var cache: map<string, CacheEntry>
    var locks: map<string, nat>
    var queue: seq<Job>
    var counters: map<string, Counter>

    /** The current world as a value. */
    function State(): Snapshot
      reads this
    {
      Snapshot(tasks, cache, locks, queue, counters)
    }

    /** Every row is stored under its own id. */
    ghost predicate Valid()
      reads this
    {
      WellKeyed(tasks)
    }

    /** A world with the given rows, an empty store and an empty queue. */
    constructor (rows: map<Id, Task>)
      requires WellKeyed(rows)
      ensures Valid()
      ensures State() == Snapshot(rows, map[], map[], [], map[])
    {
      tasks := rows;
      cache := map[];
      locks := map[];
      queue := [];
      counters := map[];
    }

    // -------------------------------------------------------------- cache service

    method Get(key: string) returns (r: Option<Task>)
      ensures r == CacheGet(State(), key)
    {
      if key in cache {
        r := Some(cache[key].value);
      } else {
        r := None;
      }
    }

    method Set(key: string, value: Task, ttl: Option<nat>)
      modifies this
      ensures State() == CacheSet(old(State()), key, value, ttl)
    {
      var seconds := ttl.GetOr(DefaultCacheTtlSeconds);
      cache := cache[key := CacheEntry(value, if seconds > 0 then Some(seconds) else None)];
    }

    method Delete(key: string)
      modifies this
      ensures State() == CacheDelete(old(State()), key)
    {
      cache := cache - {key};
    }

    method Has(key: string) returns (r: bool)
      ensures r == CacheHas(State(), key)
    {
      r := key in cache;
    }

    method Clear()
      modifies this
      ensures State() == CacheClear(old(State()))
    {
      cache := map[];
      locks := map[];
      counters := map[];
    }

    // -------------------------------------------------------------- locks and queue

    method AcquireLock(key: string, ttl: nat) returns (acquired: bool)
      modifies this
      ensures (State(), acquired) == Backend.AcquireLock(old(State()), key, ttl)
    {
      acquired := key !in locks;
      if acquired {
        locks := locks[key := ttl];
      }
    }

    method ReleaseLock(key: string)
      modifies this
      ensures State() == Backend.ReleaseLock(old(State()), key)
    {
      locks := locks - {key};
    }

    /** `add`: appends the job unless the queue throws `fault`. */
    method Add(job: Job, fault: Option<string>)
      modifies this`queue
      ensures State() == Enqueue(old(State()), job, fault)
    {
      if fault.None? {
        queue := queue + [job];
      }
    }

    // -------------------------------------------------------------- point lookup

    /** The read-through lookup of the query service. */
    method GetTaskById(id: Id) returns (r: Option<Task>)
      modifies this
      ensures (State(), r) == TaskQuery.GetTaskById(old(State()), id)
    {
      var key := TaskKey(id);
      r := Get(key);
      if r.None? && id in tasks {
        r := Some(tasks[id]);
        Set(key, tasks[id], Some(DefaultCacheTtlSeconds));
      }
    }

    // -------------------------------------------------------------- command service

    method CreateTask(dto: CreateInput, parse: DateParser, newId: Id, now: Timestamp, fault: Option<string>)
      returns (r: Result<Task, Failure>)
      requires Valid() && newId !in tasks
      modifies this
      ensures Valid()
      ensures Step(State(), r) == TaskCommand.CreateTask(old(State()), dto, parse, newId, now, fault)
    {
      var invalid := TaskDomain.ValidateTaskCreation(dto, parse);
      if invalid.Some? {
        return Err(invalid.value);
      }
      var saved := TaskDomain.CreateFromDto(dto, parse).Persisted(newId, now);
      var start := tasks;
      tasks := tasks[saved.id := saved];
      Add(TaskCommand.TaskCreatedJob(saved), fault);
      if fault.Some? {
        tasks := start;
        return Err(QueueError(fault.value));
      }
      return Ok(saved);
    }

    method UpdateTask(id: Id, patch: Patch, fault: Option<string>) returns (r: Result<Task, Failure>)
      requires Valid()
      modifies this
      ensures Valid()
      ensures Step(State(), r) == TaskCommand.UpdateTask(old(State()), id, patch, fault)
    {
      var key := LockKey(id);
      var acquired := AcquireLock(key, TaskCommand.LockTtl);
      if !acquired {
        return Err(Conflict);
      }
      r := UpdateInLock(id, patch, fault);
      ReleaseLock(key);
    }

    /** The body of the update's transaction, while the lock is held. */
    method UpdateInLock(id: Id, patch: Patch, fault: Option<string>) returns (r: Result<Task, Failure>)
      requires Valid()
      modifies this
      ensures Valid()
      ensures Step(State(), r) == TaskCommand.UpdateInLock(old(State()), id, patch, fault)
    {
      var start := tasks;
      var loaded := GetTaskById(id);
      if loaded.None? {
        return Err(NotFound(id));
      }
      var task := loaded.value;
      var updated := TaskDomain.ApplyUpdate(task, patch);
      tasks := tasks[updated.id := updated];
      if task.status != updated.status {
        Add(TaskCommand.StatusUpdatedJob(updated.id, updated.status), fault);
        if fault.Some? {
          tasks := start;
          return Err(QueueError(fault.value));
        }
      }
      Delete(TaskKey(id));
      return Ok(updated);
    }

    method DeleteTask(id: Id, fault: Option<string>) returns (r: Result<(), Failure>)
      requires Valid()
      modifies this
      ensures Valid()
      ensures Step(State(), r) == TaskCommand.DeleteTask(old(State()), id, fault)
    {
      var loaded := GetTaskById(id);
      if loaded.None? {
        return Err(NotFound(id));
      }
      var start := tasks;
      tasks := tasks - {loaded.value.id};
      Add(TaskCommand.DeletedJob(id), fault);
      if fault.Some? {
        tasks := start;
        return Err(QueueError(fault.value));
      }
      return Ok(());
    }

    method UpdateStatus(id: Id, status: string, fault: Option<string>) returns (r: Result<Task, Failure>)
      requires Valid()
      modifies this
      ensures Valid()
      ensures Step(State(), r) == TaskCommand.UpdateStatus(old(State()), id, status, fault)
    {
      var loaded := GetTaskById(id);
      if loaded.None? {
        return Err(NotFound(id));
      }
      var changed := TaskDomain.UpdateStatus(loaded.value, status);
      if changed.Err? {
        return Err(changed.error);
      }
      var updated := changed.value;
      var start := tasks;
      tasks := tasks[updated.id := updated];
      Add(TaskCommand.StatusUpdatedJob(updated.id, updated.status), fault);
      if fault.Some? {
        tasks := start;
        return Err(QueueError(fault.value));
      }
      return Ok(updated);
    }

    /**
     * Batch: the failures of the missing ids first, then, for `complete` or
     * `delete`, the table is saved or pruned in one call and each item is
     * announced in turn; the first add that throws restores the table.
     */
    method BatchProcess(ids: seq<Id>, action: string, faults: nat -> Option<string>)
      returns (r: Result<seq<TaskCommand.BatchResult>, Failure>)
      requires Valid()
      modifies this
      ensures Valid()
      ensures Step(State(), r) == TaskCommand.BatchProcess(old(State()), ids, action, faults)
    {
      var found := TasksByIds(tasks, ids);
      var results := NotFoundFailures(TaskCommand.MissingIds(ids, found));
      var action' := TaskCommand.ActionOf(action);
      if action'.None? {
        return Ok(results);
      }
      var a := action'.value;
      r := RunBatch(results, TaskCommand.BatchItems(a, found), TaskCommand.BatchTable(a, tasks, found), a, faults);
    }

    /** One not-found failure per missing id, in order. */
    method NotFoundFailures(missing: seq<Id>) returns (results: seq<TaskCommand.BatchResult>)
      ensures results == TaskCommand.NotFoundResults(missing)
    {
      results := [];
      for i := 0 to |missing|
        invariant |results| == i
        invariant forall j :: 0 <= j < i ==> results[j] == TaskCommand.Failed(missing[j], NotFound(missing[j]).Message())
      {
        results := results + [TaskCommand.Failed(missing[i], NotFound(missing[i]).Message())];
      }
    }

    /**
     * The transaction of a batch action: the table becomes `table`, then each
     * item's job is added and its success entry recorded; the first add that
     * throws restores the table and ends the call with that error.
     */
    method RunBatch(failures: seq<TaskCommand.BatchResult>, items: seq<Task>, table: map<Id, Task>,
                    a: TaskCommand.BatchAction, faults: nat -> Option<string>)
      returns (r: Result<seq<TaskCommand.BatchResult>, Failure>)
      modifies this`tasks, this`queue
      ensures Step(State(), r) == TaskCommand.RunBatch(old(State()), failures, items, table, a, faults)
    {
      var start := tasks;
      tasks := table;
      var results, err := AnnounceItems(failures, items, a, faults);
      if err.Some? {
        tasks := start;
        return Err(QueueError(err.value));
      }
      return Ok(results);
    }

    /**
     * The loop of a batch action over `items`: the `i`-th add throws when
     * `faults(i)` holds a message, which ends the loop with it; otherwise the
     * item's success entry is recorded.
     */
    method AnnounceItems(failures: seq<TaskCommand.BatchResult>, items: seq<Task>, a: TaskCommand.BatchAction,
                         faults: nat -> Option<string>)
      returns (results: seq<TaskCommand.BatchResult>, err: Option<string>)
      modifies this`queue
      ensures (queue, results, err) == TaskCommand.Announce(old(queue), failures, items, 0, a, faults)
    {
      results := failures;
      for i := 0 to |items|
        invariant TaskCommand.Announce(queue, results, items, i, a, faults)
               == TaskCommand.Announce(old(queue), failures, items, 0, a, faults)
      {
        Add(TaskCommand.BatchJob(a, items[i]), faults(i));
        if faults(i).Some? {
          return results, faults(i);
        }
        results := results + [TaskCommand.BatchSuccess(a, items[i])];
      }
      return results, None;
    }

    // -------------------------------------------------------------- hourly trigger

    /** One run of the hourly trigger: the sweep job is added, and a failing add is swallowed. */
    method CheckOverdueTasks(fault: Option<string>)
      modifies this`queue
      ensures State() == OverdueTasks.CheckOverdueTasks(old(State()), fault)
    {
      Add(OverdueTasks.SweepJob, fault);
    }

    // -------------------------------------------------------------- rate-limit guard

    /** `incr` of a counter, returning the new count. */
    method Incr(key: string) returns (count: nat)
      modifies this`counters
      ensures (State(), count) == RateLimit.Incr(old(State()), key)
    {
      var current := if key in counters then counters[key] else Counter(0, None);
      count := current.count + 1;
      counters := counters[key := Counter(count, current.expirySeconds)];
    }

    /** `expire` of a counter. */
    method Expire(key: string, seconds: real)
      modifies this`counters
      ensures State() == RateLimit.Expire(old(State()), key, seconds)
    {
      if key in counters {
        counters := counters[key := counters[key].(expirySeconds := Some(seconds))];
      }
    }

    /** The guard for one request of client `digest` at `handler`. */
    method CanActivate(meta: Option<RateLimit.RateLimitOptions>, digest: string, handler: string)
      returns (d: RateLimit.Decision)
      modifies this`counters
      ensures (State(), d) == RateLimit.CanActivate(old(State()), meta, digest, handler)
    {
      var options := RateLimit.OptionsOf(meta);
      var key := RateLimit.RateKey(digest, handler);
      var count := Incr(key);
      if count == 1 {
        Expire(key, RateLimit.WindowSeconds(options));
      }
      if count > options.limit {
        return RateLimit.Rejected(options.limit, RateLimit.WindowSeconds(options));
      }
      return RateLimit.Allowed;
    }

    // -------------------------------------------------------------- queue worker

    method HandleTaskCreated(data: Payload, env: TaskProcessor.Env) returns (r: TaskProcessor.JobResult)
      modifies this
      ensures TaskProcessor.Handled(State(), TaskProcessor.Returned(r)) == TaskProcessor.HandleTaskCreated(old(State()), data, env)
    {
      if !Present(data.taskId) || !Present(data.status) {
        return TaskProcessor.Unsuccessful("Missing required data");
      }
      if env.lookupError.Some? {
        return TaskProcessor.Unsuccessful(env.lookupError.value);
      }
      var found := GetTaskById(data.taskId.value);
      if found.None? {
        return TaskProcessor.Unsuccessful("Task " + data.taskId.value + " not found");
      }
      return TaskProcessor.Created(found.value.id, found.value.status);
    }

    method HandleStatusUpdate(data: Payload, env: TaskProcessor.Env) returns (r: TaskProcessor.JobResult)
      requires Valid()
      modifies this
      ensures Valid()
      ensures TaskProcessor.Handled(State(), TaskProcessor.Returned(r)) == TaskProcessor.HandleStatusUpdate(old(State()), data, env)
    {
      if !Present(data.taskId) || !Present(data.status) {
        return TaskProcessor.Unsuccessful("Missing required data");
      }
      var c := UpdateStatus(data.taskId.value, data.status.value, env.addError(0));
      match c
      case Err(e) => r := TaskProcessor.Unsuccessful(e.Message());
      case Ok(t) => r := TaskProcessor.StatusUpdated(t.id, t.status);
    }

    /**
     * The worker: a job without attempts left is refused, a known name goes to
     * its handler, an unknown one is reported; a null data object read by the
     * task-created or status-update handler makes the job throw.
     */
    method Process(d: TaskProcessor.Delivery, env: TaskProcessor.Env) returns (outcome: TaskProcessor.Outcome)
      requires Valid()
      modifies this
      ensures Valid()
      ensures TaskProcessor.Handled(State(), outcome) == TaskProcessor.Process(old(State()), d, env)
    {
      if TaskProcessor.Exhausted(d) {
        return TaskProcessor.Returned(TaskProcessor.Unsuccessful("Max retry limit reached"));
      }
      var r: TaskProcessor.JobResult;
      if d.job.name == "task-created" {
        if d.job.data.None? {
          return TaskProcessor.Thrown(TaskProcessor.Wrapped(d, env.nullDataError));
        }
        r := HandleTaskCreated(d.job.data.value, env);
      } else if d.job.name == "task-status-update" {
        if d.job.data.None? {
          return TaskProcessor.Thrown(TaskProcessor.Wrapped(d, env.nullDataError));
        }
        r := HandleStatusUpdate(d.job.data.value, env);
      } else if d.job.name == "overdue-tasks-notification" {
        r := HandleOverdueTasks(env);
      } else {
        r := TaskProcessor.Unsuccessful("Unknown job type: " + d.job.name);
      }
      return TaskProcessor.Returned(r);
    }

    /**
     * The overdue sweep: pages of 100 PENDING rows due before the clock reading
     * of the page, in ascending due-date order, until a page comes back empty;
     * one notification add per row, whose failure is recorded and skipped. A
     * query that throws ends the sweep with its error.
     */
    method HandleOverdueTasks(env: TaskProcessor.Env) returns (r: TaskProcessor.JobResult)
      requires Valid()
      modifies this
      ensures Valid()
      ensures TaskProcessor.Handled(State(), TaskProcessor.Returned(r)) == TaskProcessor.HandleOverdueTasks(old(State()), env)
    {
      var swept := RunSweep(TaskProcessor.SweepPages(tasks, env), env);
      match swept
      case Err(m) => r := TaskProcessor.Unsuccessful(m);
      case Ok(results) =>
        r := TaskProcessor.Swept("Processed " + TaskProcessor.DecimalString(|results|) + " overdue tasks", results);
    }

    /**
     * The loop of the sweep, page by page; `pages` names the listing of each
     * page, which the loop reads as it goes.
     */
    method RunSweep(ghost pages: nat -> seq<Task>, env: TaskProcessor.Env)
      returns (r: Result<seq<TaskProcessor.Notice>, string>)
      requires WellKeyed(tasks)
      requires TaskProcessor.ListsSweepPages(pages, tasks, env)
      requires forall p: nat :: pages(p) != [] ==> p <= |tasks|
      modifies this`queue
      ensures var total := TaskProcessor.SweepFrom(pages, |tasks|, 0, 1, env);
        queue == old(queue) + total.0 && r == total.1
    {
      ghost var bound := |tasks|;
      ghost var total := TaskProcessor.SweepFrom(pages, bound, 0, 1, env);
      ghost var added: seq<Job> := [];
      ghost var k: nat := 0;
      var page := 1;
      var results: seq<TaskProcessor.Notice> := [];
      TaskProcessor.SweepSoFarStart(total);
      while true
        invariant 1 <= page <= bound + 1
        invariant k == |results|
        invariant queue == old(queue) + added
        invariant total == TaskProcessor.SweepSoFar(added, results, TaskProcessor.SweepFrom(pages, bound, k, page, env))
        decreases bound + 1 - page
      {
        var more, err, next, added', k' := SweepStep(pages, bound, old(queue), added, page, results, k, env);
        if err.Some? {
          return Err(err.value);
        }
        if !more {
          return Ok(next);
        }
        added, k, results, page := added', k', next, page + 1;
      }
    }

    /**
     * One page of the sweep, after `added` jobs and the entries `results`:
     * a query that throws ends the sweep with its error, an empty page ends
     * it, and otherwise the page's rows are notified and the sweep moves on to
     * the next page.
     */
    method SweepStep(ghost pages: nat -> seq<Task>, ghost bound: nat, ghost base: seq<Job>, ghost added: seq<Job>,
                     page: nat, results: seq<TaskProcessor.Notice>, ghost k: nat, env: TaskProcessor.Env)
      returns (more: bool, err: Option<string>, next: seq<TaskProcessor.Notice>, ghost added': seq<Job>, ghost k': nat)
      requires WellKeyed(tasks) && bound == |tasks|
      requires TaskProcessor.ListsSweepPages(pages, tasks, env)
      requires forall p: nat :: pages(p) != [] ==> p <= bound
      requires 1 <= page <= bound + 1 && k == |results| && queue == base + added
      modifies this`queue
      ensures queue == base + added' && k' == |next|
      ensures err.Some? ==>
        TaskProcessor.SweepSoFar(added, results, TaskProcessor.SweepFrom(pages, bound, k, page, env)) == (added', Err(err.value))
      ensures err.None? && !more ==>
        TaskProcessor.SweepSoFar(added, results, TaskProcessor.SweepFrom(pages, bound, k, page, env)) == (added', Ok(next))
      ensures err.None? && more ==>
        && page + 1 <= bound + 1
        && TaskProcessor.SweepSoFar(added, results, TaskProcessor.SweepFrom(pages, bound, k, page, env))
           == TaskProcessor.SweepSoFar(added', next, TaskProcessor.SweepFrom(pages, bound, k', page + 1, env))
    {
      if env.queryError(page).Some? {
        TaskProcessor.SweepFromFailedQuery(pages, bound, added, results, k, page, env);
        return false, env.queryError(page), results, added, k;
      }
      var data := ListPage(pages, page, env);
      if |data| == 0 {
        TaskProcessor.SweepFromEmptyPage(pages, bound, added, results, k, page, env);
        return false, None, results, added, k;
      }
      more, err := true, None;
      next, added', k' := AdvancePage(pages, bound, base, added, page, data, results, k, env);
    }

    /** A page that lists rows: each is notified, and the sweep moves on to the next page. */
    method AdvancePage(ghost pages: nat -> seq<Task>, ghost bound: nat, ghost base: seq<Job>, ghost added: seq<Job>,
                       ghost page: nat, data: seq<Task>, results: seq<TaskProcessor.Notice>, ghost k: nat,
                       env: TaskProcessor.Env)
      returns (next: seq<TaskProcessor.Notice>, ghost added': seq<Job>, ghost k': nat)
      requires 1 <= page <= bound + 1
      requires forall p: nat :: pages(p) != [] ==> p <= bound
      requires env.queryError(page).None? && data == pages(page) && data != []
      requires k == |results| && queue == base + added
      modifies this`queue
      ensures queue == base + added' && k' == |next|
      ensures page + 1 <= bound + 1
      ensures TaskProcessor.SweepSoFar(added, results, TaskProcessor.SweepFrom(pages, bound, k, page, env))
           == TaskProcessor.SweepSoFar(added', next, TaskProcessor.SweepFrom(pages, bound, k', page + 1, env))
    {
      AppendAssoc(base, added, TaskProcessor.JobsFrom(data, k, env));
      next := NotifyRows(data, results, k, env);
      added', k' := added + TaskProcessor.JobsFrom(data, k, env), k + |data|;
      TaskProcessor.SweepAdvance(pages, bound, added, results, k, page, data, env, k', page + 1);
    }

    /** The listing of sweep page `page`, at the clock reading of that page. */
    method ListPage(ghost pages: nat -> seq<Task>, page: nat, env: TaskProcessor.Env) returns (data: seq<Task>)
      requires WellKeyed(tasks) && page >= 1
      requires TaskProcessor.ListsSweepPages(pages, tasks, env)
      ensures data == pages(page)
    {
      data := TaskProcessor.SweepPage(tasks, page, env);
    }

    /**
     * The rows of one sweep page in turn: a notification add for each, and an
     * entry that records whether the add went through; the `k`-th add of the
     * job is the one after `k` entries.
     */
    method NotifyRows(data: seq<Task>, results: seq<TaskProcessor.Notice>, ghost k: nat, env: TaskProcessor.Env)
      returns (r: seq<TaskProcessor.Notice>)
      requires k == |results|
      modifies this`queue
      ensures queue == old(queue) + TaskProcessor.JobsFrom(data, k, env)
      ensures r == results + TaskProcessor.NoticesFrom(data, k, env)
    {
      r := results;
      for j := 0 to |data|
        invariant queue == old(queue) + TaskProcessor.JobsFrom(data[..j], k, env)
        invariant r == results + TaskProcessor.NoticesFrom(data[..j], k, env)
      {
        SweepAppendOne(data, j, k, env);
        var t := data[j];
        var fault := env.addError(|r|);
        Add(TaskProcessor.NotificationJob(t, env.showDate), fault);
        if fault.None? {
          r := r + [TaskProcessor.Queued(t.id, "Notification queued for task " + t.id)];
        } else {
          r := r + [TaskProcessor.NotQueued(t.id, fault.value)];
        }
      }
      assert data[..|data|] == data;
    }
  }

  /** Handling one more row of a page adds its notification, if the add goes through, and its entry. */
  lemma SweepAppendOne(data: seq<Task>, j: nat, k: nat, env: TaskProcessor.Env)
    requires j < |data|
    ensures TaskProcessor.JobsFrom(data[..j + 1], k, env)
         == TaskProcessor.JobsFrom(data[..j], k, env)
            + (if env.addError(k + j).None? then [TaskProcessor.NotificationJob(data[j], env.showDate)] else [])
    ensures TaskProcessor.NoticesFrom(data[..j + 1], k, env)
         == TaskProcessor.NoticesFrom(data[..j], k, env) + [TaskProcessor.NoticeFor(data[j], k + j, env)]
  {
    assert data[..j + 1] == data[..j] + [data[j]];
    TaskProcessor.JobsFromAppend(data[..j], [data[j]], k, env);
  }
}
