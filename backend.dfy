/**
 * The shared world the services act on: the task table, the key-value store
 * (cache entries, held locks and rate-limit counters) and the job queue, as
 * one value, with the primitive reads and updates of each part. The cache
 * service's operations are defined here; JSON encoding and decoding of cached
 * values is the identity.
 */
module Backend {
  import opened Wrappers
  import opened TaskTypes

  /** The TTL the cache service uses when the caller gives none. */
  const DefaultCacheTtlSeconds: nat := 300

  /** A cached value with the expiry it was stored with (`None`: no expiry). */
  datatype CacheEntry = CacheEntry(value: Task, ttlSeconds: Option<nat>)

  /** A job's data object; a missing field is an absent property. */
  datatype Payload = Payload(taskId: Option<Id>, status: Option<string>, message: Option<string>)

  datatype Backoff = Backoff(kind: string, delay: nat)

  /** Per-job options given to `add`; absent fields fall back to the queue's defaults. */
  datatype JobOptions = JobOptions(attempts: Option<nat>, backoff: Option<Backoff>)

  /** A queued job: name, data (`None` is a null data object) and options. */
  datatype Job = Job(name: string, data: Option<Payload>, opts: JobOptions)

  /** The options of an `add` call that passes none. */
  const NoOptions := JobOptions(None, None)

  /** A rate-limit counter and the expiry, in seconds, set on it. */
  datatype Counter = Counter(count: nat, expirySeconds: Option<real>)

  datatype Snapshot = Snapshot(
    tasks: map<Id, Task>,
    cache: map<string, CacheEntry>,
    locks: map<string, nat>,
    queue: seq<Job>,
    counters: map<string, Counter>)

  /** Every row is stored under its own id (the id is the primary key). */
  predicate WellKeyed(tasks: map<Id, Task>) {
    forall id :: id in tasks ==> tasks[id].id == id
  }

  /** The cache key of a task. */
  function TaskKey(id: Id): string {
    "task:" + id
  }

  lemma TaskKeyInjective(a: Id, b: Id)
    requires TaskKey(a) == TaskKey(b)
    ensures a == b
  {
    assert a == TaskKey(a)[5..];
    assert b == TaskKey(b)[5..];
  }

  /** The lock key of a task. */
  function LockKey(id: Id): string {
    "lock:task:" + id
  }

  // ---------------------------------------------------------------- cache

  /** `get`: the cached value, or `None` (null) for an absent key. */
  function CacheGet(s: Snapshot, key: string): (r: Option<Task>)
    ensures r.Some? <==> key in s.cache
    ensures r.Some? ==> r.value == s.cache[key].value
  {
    if key in s.cache then Some(s.cache[key].value) else None
  }

  /**
   * `set`: stores the value with TTL `ttl`, 300 seconds when none is given; a
   * TTL of 0 is a falsy expiry, so the value is stored without one.
   */
  function CacheSet(s: Snapshot, key: string, value: Task, ttl: Option<nat>): (r: Snapshot)
    ensures CacheGet(r, key) == Some(value)
    ensures ttl.None? ==> r.cache[key].ttlSeconds == Some(DefaultCacheTtlSeconds)
    ensures ttl.Some? && ttl.value > 0 ==> r.cache[key].ttlSeconds == ttl
    ensures ttl == Some(0) ==> r.cache[key].ttlSeconds.None?
    ensures forall k :: k != key ==> CacheGet(r, k) == CacheGet(s, k)
    ensures r.cache.Keys == s.cache.Keys + {key}
    ensures r == s.(cache := r.cache)
  {
    var seconds := ttl.GetOr(DefaultCacheTtlSeconds);
    s.(cache := s.cache[key := CacheEntry(value, if seconds > 0 then Some(seconds) else None)])
  }

  /** `has`: whether the store reports the key as existing. */
  function CacheHas(s: Snapshot, key: string): (r: bool)
    ensures r <==> CacheGet(s, key).Some?
  {
    key in s.cache
  }

  /** `delete`: the key becomes absent, every other key keeps its value. */
  function CacheDelete(s: Snapshot, key: string): (r: Snapshot)
    ensures CacheGet(r, key).None? && !CacheHas(r, key)
    ensures forall k :: k != key ==> (k in r.cache <==> k in s.cache)
    ensures forall k :: k != key && k in s.cache ==> r.cache[k] == s.cache[k]
    ensures r == s.(cache := r.cache)
  {
    s.(cache := s.cache - {key})
  }

  /**
   * `clear`: a flush of the whole key-value store, which also holds the locks
   * and the rate-limit counters.
   */
  function CacheClear(s: Snapshot): (r: Snapshot)
    ensures forall k :: CacheGet(r, k).None?
    ensures r.locks == map[] && r.counters == map[]
    ensures r.tasks == s.tasks && r.queue == s.queue
  {
    s.(cache := map[], locks := map[], counters := map[])
  }

  /** A value set and read back is the value set. */
  lemma SetThenGet(s: Snapshot, key: string, value: Task, ttl: Option<nat>)
    ensures CacheGet(CacheSet(s, key, value, ttl), key) == Some(value)
    ensures CacheHas(CacheSet(s, key, value, ttl), key)
  {
  }

  // ---------------------------------------------------------------- locks

  /**
   * Lock acquisition as the command service relies on it: it succeeds exactly
   * when the key is not held, and then records the key with its TTL.
   */
  function AcquireLock(s: Snapshot, key: string, ttl: nat): (r: (Snapshot, bool))
    ensures r.1 <==> key !in s.locks
    ensures r.1 ==> r.0 == s.(locks := s.locks[key := ttl])
    ensures !r.1 ==> r.0 == s
  {
    if key in s.locks then (s, false) else (s.(locks := s.locks[key := ttl]), true)
  }

  /** Lock release: the key is no longer held. */
  function ReleaseLock(s: Snapshot, key: string): (r: Snapshot)
    ensures key !in r.locks
    ensures r.locks == s.locks - {key}
    ensures r == s.(locks := r.locks)
  {
    s.(locks := s.locks - {key})
  }

  /** A lock taken and released leaves the locks as they were. */
  lemma AcquireReleaseRestores(s: Snapshot, key: string, ttl: nat)
    requires key !in s.locks
    ensures ReleaseLock(AcquireLock(s, key, ttl).0, key) == s
  {
    assert ReleaseLock(AcquireLock(s, key, ttl).0, key).locks == s.locks;
  }

  // ---------------------------------------------------------------- queue

  /**
   * `add`: appends the job, unless the queue throws (`fault` holds the error
   * message), in which case nothing is appended.
   */
  function Enqueue(s: Snapshot, job: Job, fault: Option<string>): (r: Snapshot)
    ensures fault.None? ==> r.queue == s.queue + [job]
    ensures fault.Some? ==> r == s
    ensures r == s.(queue := r.queue)
  {
    if fault.None? then s.(queue := s.queue + [job]) else s
  }

  // ---------------------------------------------------------------- store

  /** `save`: inserts or overwrites the row with the record's id. */
  function Save(s: Snapshot, t: Task): (r: Snapshot)
    ensures r.tasks == s.tasks[t.id := t]
    ensures WellKeyed(s.tasks) ==> WellKeyed(r.tasks)
    ensures r == s.(tasks := r.tasks)
  {
    s.(tasks := s.tasks[t.id := t])
  }

  /** `remove`: deletes the row with the given id. */
  function Remove(s: Snapshot, id: Id): (r: Snapshot)
    ensures r.tasks == s.tasks - {id}
    ensures WellKeyed(s.tasks) ==> WellKeyed(r.tasks)
    ensures r == s.(tasks := r.tasks)
  {
    s.(tasks := s.tasks - {id})
  }

  /**
   * The effect of a transaction that threw after `start`: the table is back to
   * its state at `start`; cache, locks and queue keep what was done to them.
   */
  function Rollback(current: Snapshot, start: Snapshot): (r: Snapshot)
    ensures r.tasks == start.tasks
    ensures r.cache == current.cache && r.locks == current.locks && r.queue == current.queue
    ensures r.counters == current.counters
  {
    current.(tasks := start.tasks)
  }

  /** The outcome of a service call: the world after it and what it returned or threw. */
  datatype Step<T> = Step(after: Snapshot, result: Result<T, Failure>)
}
