/**
 * The queue worker: a job within its attempt budget is dispatched on its name
 * to the task-created handler, the status-update handler or the overdue sweep;
 * any other name is reported as unknown. Handlers catch their own errors and
 * report them as unsuccessful results; the one error that escapes is reading
 * the fields of a null job data object, which the worker rethrows wrapped with
 * the job id.
 */
module TaskProcessor {
  import opened Wrappers
  import opened TaskTypes
  import opened Backend
  import opened TaskQuery
  import TaskCommand

  /** The attempt budget of a job whose options give none. */
  const DefaultAttempts: nat := 3
  /** The page size of the overdue sweep. */
  const SweepBatchSize: nat := 100

  /** A job as the worker receives it: its id, the attempts already made, the job. */
  datatype Delivery = Delivery(id: string, attemptsMade: nat, job: Job)

  /** One entry of the sweep's results. */
  datatype Notice = Queued(taskId: Id, message: string) | NotQueued(taskId: Id, error: string)

  /** The value a handler returns. */
  datatype JobResult =
    | Unsuccessful(error: string)
    | Created(taskId: Id, status: string)
    | StatusUpdated(taskId: Id, newStatus: string)
    | Swept(message: string, results: seq<Notice>)

  datatype Outcome = Returned(value: JobResult) | Thrown(message: string)

  /**
   * What the worker gets from its environment: whether the task lookup throws,
   * whether the `k`-th queue add of the job throws, whether the query of sweep
   * page `p` throws, the clock read at the query of page `p`, the rendering of
   * a date in a message, and the message of the error raised by reading the
   * fields of a null data object.
   */
  datatype Env = Env(
    lookupError: Option<string>,
    addError: nat -> Option<string>,
    queryError: nat -> Option<string>,
    clock: nat -> Timestamp,
    showDate: Timestamp -> string,
    nullDataError: string)

  datatype Handled = Handled(after: Snapshot, outcome: Outcome)

  // ------------------------------------------------------------ task-created

  /**
   * A `task-created` job: missing or empty task id or status is reported; else
   * the task is looked up through the cache and its stored id and status are
   * returned.
   */
  function HandleTaskCreated(s: Snapshot, data: Payload, env: Env): (r: Handled)
    ensures r.outcome.Returned?
    ensures !Present(data.taskId) || !Present(data.status) ==>
      r == Handled(s, Returned(Unsuccessful("Missing required data")))
    ensures Present(data.taskId) && Present(data.status) && env.lookupError.Some? ==>
      r == Handled(s, Returned(Unsuccessful(env.lookupError.value)))
    ensures Present(data.taskId) && Present(data.status) && env.lookupError.None? ==>
      r.after == GetTaskById(s, data.taskId.value).0
      && r.outcome.value == match LoadedTask(s, data.taskId.value)
         case None => Unsuccessful("Task " + data.taskId.value + " not found")
         case Some(t) => Created(t.id, t.status)
    ensures r.after.tasks == s.tasks && r.after.queue == s.queue && r.after.locks == s.locks
    ensures r.after.counters == s.counters
  {
    if !Present(data.taskId) || !Present(data.status) then
      Handled(s, Returned(Unsuccessful("Missing required data")))
    else if env.lookupError.Some? then
      Handled(s, Returned(Unsuccessful(env.lookupError.value)))
    else
      var (s1, found) := GetTaskById(s, data.taskId.value);
      match found
      case None => Handled(s1, Returned(Unsuccessful("Task " + data.taskId.value + " not found")))
      case Some(task) => Handled(s1, Returned(Created(task.id, task.status)))
  }

  function LoadedTask(s: Snapshot, id: Id): Option<Task> {
    TaskCommand.LoadedTask(s, id)
  }

  // ------------------------------------------------------------ task-status-update

  /**
   * A `task-status-update` job: missing or empty task id or status is
   * reported; else the status change command runs, and its failure message,
   * or the saved id and status, is returned.
   */
  function HandleStatusUpdate(s: Snapshot, data: Payload, env: Env): (r: Handled)
    requires WellKeyed(s.tasks)
    ensures WellKeyed(r.after.tasks)
    ensures r.outcome.Returned?
    ensures !Present(data.taskId) || !Present(data.status) ==>
      r == Handled(s, Returned(Unsuccessful("Missing required data")))
    ensures Present(data.taskId) && Present(data.status) ==>
      var c := TaskCommand.UpdateStatus(s, data.taskId.value, data.status.value, env.addError(0));
      && r.after == c.after
      && r.outcome.value == match c.result
         case Err(e) => Unsuccessful(e.Message())
         case Ok(t) => StatusUpdated(t.id, t.status)
    ensures r.outcome.value.StatusUpdated? ==> r.outcome.value.newStatus == data.status.value
  {
    if !Present(data.taskId) || !Present(data.status) then
      Handled(s, Returned(Unsuccessful("Missing required data")))
    else
      var c := TaskCommand.UpdateStatus(s, data.taskId.value, data.status.value, env.addError(0));
      match c.result
      case Err(e) => Handled(c.after, Returned(Unsuccessful(e.Message())))
      case Ok(t) => Handled(c.after, Returned(StatusUpdated(t.id, t.status)))
  }

  // ------------------------------------------------------------ overdue sweep

  /**
   * The rows the sweep looks for at time `now`: PENDING with a due date before
   * `now`. This reads the `LessThan(now)` operator the code passes as the
   * date `now` itself; `FirstQueryFailureEndsJob` covers the query that
   * rejects the operator instead.
   */
  function OverdueFilter(now: Timestamp): TaskFilter {
    TaskFilter(Some(Pending), None, None, Some(now))
  }

  /** The rows before sweep page `page`. */
  function SweepSkip(page: nat): nat
    requires page >= 1
  {
    if page == 1 then 0 else SweepSkip(page - 1) + SweepBatchSize
  }

  lemma {:induction false} SweepSkipProduct(page: nat)
    requires page >= 1
    ensures SweepSkip(page) == (page - 1) * 100
  {
    if page > 1 {
      SweepSkipProduct(page - 1);
    }
  }

  /** The listing options of sweep page `page`: 100 rows by due date, ascending. */
  function SweepOptions(page: nat): (o: PaginationOptions)
    requires page >= 1
    ensures ValidPagination(o)
    ensures SkipOf(o) == SweepSkip(page) && LimitOf(o) == SweepBatchSize
    ensures SortByOf(o) == DueDate && SortOrderOf(o) == Asc
  {
    var o := PaginationOptions(Some(page), Some(SweepBatchSize), Some(DueDate), Some(Asc));
    SweepSkipProduct(page);
    o
  }

  function RenderDue(d: Option<Timestamp>, show: Timestamp -> string): string {
    match d
    case None => "null"
    case Some(t) => show(t)
  }

  function NotificationJob(t: Task, show: Timestamp -> string): Job {
    Job("send-notification",
        Some(Payload(Some(t.id), None, Some("Task " + t.id + " is overdue (due: " + RenderDue(t.dueDate, show) + ")"))),
        NoOptions)
  }

  /** The result entry of the `k`-th notification of the job. */
  function NoticeFor(t: Task, k: nat, env: Env): Notice {
    match env.addError(k)
    case Some(e) => NotQueued(t.id, e)
    case None => Queued(t.id, "Notification queued for task " + t.id)
  }

  /** The notification jobs of `ts`, the first being the `k`-th add of the job: the adds that do not throw. */
  function JobsFrom(ts: seq<Task>, k: nat, env: Env): seq<Job> {
    if ts == [] then []
    else (if env.addError(k).None? then [NotificationJob(ts[0], env.showDate)] else []) + JobsFrom(ts[1..], k + 1, env)
  }

  /** The result entries of `ts`, the first being the `k`-th add of the job. */
  function NoticesFrom(ts: seq<Task>, k: nat, env: Env): (r: seq<Notice>)
    ensures |r| == |ts|
  {
    if ts == [] then [] else [NoticeFor(ts[0], k, env)] + NoticesFrom(ts[1..], k + 1, env)
  }

  /** The rows of sweep page `page`, listed at the clock reading of that page. */
  function SweepPage(tasks: map<Id, Task>, page: nat, env: Env): (r: seq<Task>)
    requires WellKeyed(tasks) && page >= 1
    ensures r != [] ==> page <= |tasks|
  {
    var f := OverdueFilter(env.clock(page));
    var data := ListTasks(tasks, SweepOptions(page), f).data;
    SweepSkipProduct(page);
    assert |MatchingIds(tasks, f)| <= |tasks| by {
      CardinalityMonotone(MatchingIds(tasks, f), tasks.Keys);
    }
    data
  }

  /** Sweep page `page` is the `page`-th run of 100 overdue rows in ascending due-date order. */
  lemma SweepPageSlice(tasks: map<Id, Task>, page: nat, env: Env)
    requires WellKeyed(tasks) && page >= 1
    ensures SweepPage(tasks, page, env)
         == PageSlice(SortedMatches(tasks, OverdueFilter(env.clock(page)), DueDate, Asc),
                      SweepSkip(page), SweepBatchSize)
  {
    assert SkipOf(SweepOptions(page)) == SweepSkip(page);
  }

  /** The listing of every sweep page of `tasks`; a page is empty beyond the number of rows. */
  function SweepPages(tasks: map<Id, Task>, env: Env): (pages: nat -> seq<Task>)
    requires WellKeyed(tasks)
    ensures ListsSweepPages(pages, tasks, env)
    ensures forall p: nat :: pages(p) != [] ==> p <= |tasks|
  {
    p => if p >= 1 then SweepPage(tasks, p, env) else []
  }

  /** `pages` lists sweep page `p` of `tasks` for every `p` from 1. */
  ghost predicate ListsSweepPages(pages: nat -> seq<Task>, tasks: map<Id, Task>, env: Env)
    requires WellKeyed(tasks)
  {
    forall p: nat {:trigger SweepPage(tasks, p, env)} :: p >= 1 ==> pages(p) == SweepPage(tasks, p, env)
  }

  /**
   * The sweep from page `page` on, over the page listings `pages` (empty beyond
   * page `bound`), its first add being the `k`-th of the job: the jobs it adds
   * and its result entries. A page that is empty ends the sweep; a query that
   * throws ends it with that error, and the notifications already added stay
   * queued.
   */
  function SweepFrom(pages: nat -> seq<Task>, bound: nat, k: nat, page: nat, env: Env): (seq<Job>, Result<seq<Notice>, string>)
    requires 1 <= page <= bound + 1
    requires forall p: nat :: pages(p) != [] ==> p <= bound
    decreases bound + 1 - page
  {
    if env.queryError(page).Some? then ([], Err(env.queryError(page).value))
    else
      var data := pages(page);
      if data == [] then ([], Ok([]))
      else
        var rest := SweepFrom(pages, bound, k + |data|, page + 1, env);
        (JobsFrom(data, k, env) + rest.0, AfterPage(NoticesFrom(data, k, env), rest.1))
  }

  /** The result entries of a page followed by those of the rest of the sweep, or the error that ended it. */
  function AfterPage(notices: seq<Notice>, rest: Result<seq<Notice>, string>): (r: Result<seq<Notice>, string>)
    ensures rest.Err? ==> r == rest
    ensures rest.Ok? ==> r == Ok(notices + rest.value)
  {
    match rest
    case Err(e) => Err(e)
    case Ok(more) => Ok(notices + more)
  }

  predicate AllDigits(s: string) {
    forall i :: 0 <= i < |s| ==> '0' <= s[i] <= '9'
  }

  /** The number a string of decimal digits denotes, read left to right. */
  function DigitsValue(s: string): nat
    requires AllDigits(s)
    decreases |s|
  {
    if s == [] then 0 else DigitsValue(s[..|s| - 1]) * 10 + ((s[|s| - 1] as int) - ('0' as int))
  }

  /**
   * The decimal rendering of a count, as a template literal prints it: the
   * digits of `n` with no leading zero.
   */
  function DecimalString(n: nat): (r: string)
    ensures |r| >= 1 && AllDigits(r)
    ensures DigitsValue(r) == n
    ensures r[0] != '0' || n == 0
  {
    var digit := ['0', '1', '2', '3', '4', '5', '6', '7', '8', '9'][n % 10];
    assert (digit as int) - ('0' as int) == n % 10;
    if n < 10 then [digit]
    else
      var r := DecimalString(n / 10) + [digit];
      assert r[..|r| - 1] == DecimalString(n / 10);
      r
  }

  /** The whole sweep of `tasks`: from page 1, its first add being the job's first. */
  function Sweep(tasks: map<Id, Task>, env: Env): (seq<Job>, Result<seq<Notice>, string>)
    requires WellKeyed(tasks)
  {
    SweepFrom(SweepPages(tasks, env), |tasks|, 0, 1, env)
  }

  /**
   * The `overdue-tasks-notification` job: the sweep, whose notifications stay
   * queued whatever its outcome; a query error is returned as the job's
   * failure, otherwise the count of handled rows and their entries.
   */
  function HandleOverdueTasks(s: Snapshot, env: Env): (r: Handled)
    requires WellKeyed(s.tasks)
    ensures r.outcome.Returned?
    ensures r.after == s.(queue := s.queue + Sweep(s.tasks, env).0)
    ensures Sweep(s.tasks, env).1.Err? ==> r.outcome.value == Unsuccessful(Sweep(s.tasks, env).1.error)
    ensures Sweep(s.tasks, env).1.Ok? ==>
      r.outcome.value == Swept("Processed " + DecimalString(|Sweep(s.tasks, env).1.value|) + " overdue tasks",
                               Sweep(s.tasks, env).1.value)
  {
    var (jobs, res) := Sweep(s.tasks, env);
    var after := s.(queue := s.queue + jobs);
    match res
    case Err(m) => Handled(after, Returned(Unsuccessful(m)))
    case Ok(rs) => Handled(after, Returned(Swept("Processed " + DecimalString(|rs|) + " overdue tasks", rs)))
  }

  /**
   * A first page query that throws ends the job at once: nothing is queued and
   * the job returns that error. The sweep binds a `LessThan` operator object
   * as a query-builder parameter, which the database does not read as a date,
   * so this is the outcome the code as written is expected to have.
   */
  lemma FirstQueryFailureEndsJob(s: Snapshot, env: Env)
    requires WellKeyed(s.tasks)
    requires env.queryError(1).Some?
    ensures HandleOverdueTasks(s, env) == Handled(s, Returned(Unsuccessful(env.queryError(1).value)))
  {
    SweepFromFailedQuery(SweepPages(s.tasks, env), |s.tasks|, [], [], 0, 1, env);
    assert s.queue + [] == s.queue;
  }

  // ------------------------------------------------------------ dispatch

  predicate Exhausted(d: Delivery) {
    d.attemptsMade >= d.job.opts.attempts.GetOr(DefaultAttempts)
  }

  /** The error the worker throws for a handler's error `message`. */
  function Wrapped(d: Delivery, message: string): string {
    "Job " + d.id + " failed: " + message
  }

  /**
   * The worker: a job without attempts left is refused, a known name is
   * dispatched, an unknown one reported. Only a null data object read by the
   * task-created or status-update handler makes it throw.
   */
  function Process(s: Snapshot, d: Delivery, env: Env): (r: Handled)
    requires WellKeyed(s.tasks)
    ensures WellKeyed(r.after.tasks)
    ensures Exhausted(d) ==> r == Handled(s, Returned(Unsuccessful("Max retry limit reached")))
    ensures r.outcome.Thrown? <==>
      !Exhausted(d) && d.job.name in {"task-created", "task-status-update"} && d.job.data.None?
    ensures r.outcome.Thrown? ==> r == Handled(s, Thrown(Wrapped(d, env.nullDataError)))
    ensures !Exhausted(d) && d.job.name !in {"task-created", "task-status-update", "overdue-tasks-notification"} ==>
      r == Handled(s, Returned(Unsuccessful("Unknown job type: " + d.job.name)))
    ensures !Exhausted(d) && d.job.name == "task-created" && d.job.data.Some? ==>
      r == HandleTaskCreated(s, d.job.data.value, env)
    ensures !Exhausted(d) && d.job.name == "task-status-update" && d.job.data.Some? ==>
      r == HandleStatusUpdate(s, d.job.data.value, env)
    ensures !Exhausted(d) && d.job.name == "overdue-tasks-notification" ==> r == HandleOverdueTasks(s, env)
    ensures d.job.name != "task-status-update" ==> r.after.tasks == s.tasks
  {
    if Exhausted(d) then Handled(s, Returned(Unsuccessful("Max retry limit reached")))
    else if d.job.name == "task-created" then
      match d.job.data
      case None => Handled(s, Thrown(Wrapped(d, env.nullDataError)))
      case Some(p) => HandleTaskCreated(s, p, env)
    else if d.job.name == "task-status-update" then
      match d.job.data
      case None => Handled(s, Thrown(Wrapped(d, env.nullDataError)))
      case Some(p) => HandleStatusUpdate(s, p, env)
    else if d.job.name == "overdue-tasks-notification" then HandleOverdueTasks(s, env)
    else Handled(s, Returned(Unsuccessful("Unknown job type: " + d.job.name)))
  }

  // ------------------------------------------------------------ what the sweep does

  lemma {:induction false} JobsFromAppend(a: seq<Task>, b: seq<Task>, k: nat, env: Env)
    decreases |a|
    ensures JobsFrom(a + b, k, env) == JobsFrom(a, k, env) + JobsFrom(b, k + |a|, env)
    ensures NoticesFrom(a + b, k, env) == NoticesFrom(a, k, env) + NoticesFrom(b, k + |a|, env)
  {
    if a != [] {
      assert (a + b)[1..] == a[1..] + b;
      JobsFromAppend(a[1..], b, k + 1, env);
    } else {
      assert a + b == b;
    }
  }

  /** The rows of `all` from `lo` on are those up to `hi`, then the rest. */
  lemma SliceJoin(all: seq<Task>, lo: nat, hi: nat)
    requires lo <= hi <= |all|
    ensures all[lo..hi] + all[hi..] == all[lo..]
  {
  }

  /**
   * A page that lists rows and does not throw: if the sweep from the next page
   * on handles `rows`, the sweep from this page on handles the page, then `rows`.
   */
  lemma SweepJoin(pages: nat -> seq<Task>, bound: nat, k: nat, page: nat, data: seq<Task>, env: Env, rows: seq<Task>)
    requires 1 <= page <= bound + 1
    requires forall p: nat :: pages(p) != [] ==> p <= bound
    requires env.queryError(page).None? && data == pages(page) && data != []
    requires SweepFrom(pages, bound, k + |data|, page + 1, env)
          == (JobsFrom(rows, k + |data|, env), Ok(NoticesFrom(rows, k + |data|, env)))
    ensures SweepFrom(pages, bound, k, page, env) == (JobsFrom(data + rows, k, env), Ok(NoticesFrom(data + rows, k, env)))
  {
    JobsFromAppend(data, rows, k, env);
  }

  /** A query that throws ends the sweep with its error and no further adds. */
  lemma SweepFromFailedQuery(pages: nat -> seq<Task>, bound: nat, added: seq<Job>, results: seq<Notice>,
                             k: nat, page: nat, env: Env)
    requires 1 <= page <= bound + 1
    requires forall p: nat :: pages(p) != [] ==> p <= bound
    requires env.queryError(page).Some?
    ensures SweepFrom(pages, bound, k, page, env) == ([], Err(env.queryError(page).value))
    ensures SweepSoFar(added, results, SweepFrom(pages, bound, k, page, env)) == (added, Err(env.queryError(page).value))
  {
    assert added + [] == added;
  }

  /** An empty page ends the sweep with no further adds or entries. */
  lemma SweepFromEmptyPage(pages: nat -> seq<Task>, bound: nat, added: seq<Job>, results: seq<Notice>,
                           k: nat, page: nat, env: Env)
    requires 1 <= page <= bound + 1
    requires forall p: nat :: pages(p) != [] ==> p <= bound
    requires env.queryError(page).None? && pages(page) == []
    ensures SweepFrom(pages, bound, k, page, env) == ([], Ok([]))
    ensures SweepSoFar(added, results, SweepFrom(pages, bound, k, page, env)) == (added, Ok(results))
  {
    assert added + [] == added && results + [] == results;
  }

  /** A page that lists rows is handled, then the sweep goes on with the next page. */
  lemma SweepFromNextPage(pages: nat -> seq<Task>, bound: nat, k: nat, page: nat, data: seq<Task>, env: Env,
                          nextK: nat)
    requires 1 <= page <= bound + 1
    requires forall p: nat :: pages(p) != [] ==> p <= bound
    requires env.queryError(page).None? && data == pages(page) && data != []
    requires nextK == k + |data|
    ensures page + 1 <= bound + 1
    ensures SweepFrom(pages, bound, k, page, env)
         == (JobsFrom(data, k, env) + SweepFrom(pages, bound, nextK, page + 1, env).0,
             AfterPage(NoticesFrom(data, k, env), SweepFrom(pages, bound, nextK, page + 1, env).1))
  {
  }

  /** The adds and entries of a sweep part-way through: those made so far, then those still to come. */
  function SweepSoFar(added: seq<Job>, results: seq<Notice>, rest: (seq<Job>, Result<seq<Notice>, string>))
    : (seq<Job>, Result<seq<Notice>, string>)
  {
    (added + rest.0, AfterPage(results, rest.1))
  }

  /** Before the first page nothing has been made, and all of the sweep is to come. */
  lemma SweepSoFarStart(total: (seq<Job>, Result<seq<Notice>, string>))
    ensures SweepSoFar([], [], total) == total
  {
    assert [] + total.0 == total.0;
    if total.1.Ok? {
      assert [] + total.1.value == total.1.value;
    }
  }

  /**
   * Handling page `page`, which lists the rows `data`, moves its adds and
   * entries from what is still to come to what has been made; the sweep goes on
   * with the next page, its first add being the `nextK`-th.
   */
  lemma SweepAdvance(pages: nat -> seq<Task>, bound: nat, added: seq<Job>, results: seq<Notice>, k: nat, page: nat,
                     data: seq<Task>, env: Env, nextK: nat, nextPage: nat)
    requires 1 <= page <= bound + 1
    requires forall p: nat :: pages(p) != [] ==> p <= bound
    requires env.queryError(page).None? && data == pages(page) && data != []
    requires nextK == k + |data| && nextPage == page + 1
    ensures nextPage <= bound + 1
    ensures SweepSoFar(added, results, SweepFrom(pages, bound, k, page, env))
         == SweepSoFar(added + JobsFrom(data, k, env), results + NoticesFrom(data, k, env),
                       SweepFrom(pages, bound, nextK, nextPage, env))
  {
    SweepFromNextPage(pages, bound, k, page, data, env, nextK);
    SweepSoFarStep(added, results, JobsFrom(data, k, env), NoticesFrom(data, k, env),
                   SweepFrom(pages, bound, nextK, nextPage, env));
  }

  /** Moving one page's adds and entries from what is to come to what has been made changes no total. */
  lemma SweepSoFarStep(added: seq<Job>, results: seq<Notice>, jobs: seq<Job>, notices: seq<Notice>,
                       rest: (seq<Job>, Result<seq<Notice>, string>))
    ensures SweepSoFar(added, results, (jobs + rest.0, AfterPage(notices, rest.1)))
         == SweepSoFar(added + jobs, results + notices, rest)
  {
    AppendAssoc(added, jobs, rest.0);
    AfterPageAppend(results, notices, rest.1);
  }

  lemma AfterPageAppend(a: seq<Notice>, b: seq<Notice>, rest: Result<seq<Notice>, string>)
    ensures AfterPage(a, AfterPage(b, rest)) == AfterPage(a + b, rest)
  {
    if rest.Ok? {
      AppendAssoc(a, b, rest.value);
    }
  }

  /** The rows the sweep visits when the clock reads `now` throughout. */
  function OverdueRows(tasks: map<Id, Task>, now: Timestamp): seq<Task>
    requires WellKeyed(tasks)
  {
    SortedMatches(tasks, OverdueFilter(now), DueDate, Asc)
  }

  /** The at most 100 rows of `all` after the first `skip`. */
  function Window(all: seq<Task>, skip: nat): seq<Task> {
    all[Min(skip, |all|)..Min(skip + SweepBatchSize, |all|)]
  }

  /** Every page of `pages` is the matching window of `all`. */
  ghost predicate PagedAs(pages: nat -> seq<Task>, all: seq<Task>) {
    forall p: nat {:trigger Window(all, SweepSkip(p))} :: p >= 1 ==> pages(p) == Window(all, SweepSkip(p))
  }

  /**
   * When every sweep page is the matching window of `all` and no query throws,
   * the sweep from page `page` handles every row of `all` from that page on
   * exactly once, in order.
   */
  lemma {:induction false} SweepClosed(pages: nat -> seq<Task>, bound: nat, all: seq<Task>, page: nat, lo: nat, env: Env)
    requires 1 <= page <= bound + 1
    requires forall p: nat :: pages(p) != [] ==> p <= bound
    requires PagedAs(pages, all)
    requires forall p :: env.queryError(p).None?
    requires lo == Min(SweepSkip(page), |all|)
    decreases bound + 1 - page
    ensures SweepFrom(pages, bound, lo, page, env) == (JobsFrom(all[lo..], lo, env), Ok(NoticesFrom(all[lo..], lo, env)))
  {
    var hi := Min(SweepSkip(page) + SweepBatchSize, |all|);
    var data := pages(page);
    PageWindow(pages, all, page, lo, hi, data);
    if data != [] {
      SweepClosed(pages, bound, all, page + 1, hi, env);
      SweepJoin(pages, bound, lo, page, data, env, all[hi..]);
      SliceJoin(all, lo, hi);
    }
  }

  /** Page `page` is the slice of `all` from `lo` to `hi`; it is empty only once `all` is used up. */
  lemma PageWindow(pages: nat -> seq<Task>, all: seq<Task>, page: nat, lo: nat, hi: nat, data: seq<Task>)
    requires page >= 1 && PagedAs(pages, all) && data == pages(page)
    requires lo == Min(SweepSkip(page), |all|) && hi == Min(SweepSkip(page) + SweepBatchSize, |all|)
    ensures lo <= hi <= |all| && data == all[lo..hi] && lo + |data| == hi
    ensures hi == Min(SweepSkip(page + 1), |all|)
    ensures data == [] ==> all[lo..] == []
  {
    assert data == Window(all, SweepSkip(page));
    assert SweepSkip(page + 1) == SweepSkip(page) + SweepBatchSize;
  }

  /**
   * With a fixed clock and no failing query, the overdue job handles every
   * PENDING row due before `now` exactly once, in ascending due-date order:
   * one result entry per row, one notification per add that does not throw,
   * and the count of rows in its message. Nothing but the queue changes.
   */
  lemma OverdueSweepHandlesEachOnce(s: Snapshot, env: Env, now: Timestamp)
    requires WellKeyed(s.tasks)
    requires forall p :: env.clock(p) == now
    requires forall p :: env.queryError(p).None?
    ensures var all := OverdueRows(s.tasks, now);
      HandleOverdueTasks(s, env)
        == Handled(s.(queue := s.queue + JobsFrom(all, 0, env)),
                   Returned(Swept("Processed " + DecimalString(|all|) + " overdue tasks", NoticesFrom(all, 0, env))))
  {
    var all := OverdueRows(s.tasks, now);
    var pages := SweepPages(s.tasks, env);
    forall p | p >= 1
      ensures pages(p) == Window(all, SweepSkip(p))
    {
      SweepPageSlice(s.tasks, p, env);
    }
    SweepClosed(pages, |s.tasks|, all, 1, 0, env);
    assert all[0..] == all;
  }

  /** The `j`-th result entry is that of the `j`-th row and says whether its add threw. */
  lemma {:induction false} NoticesFromIndex(ts: seq<Task>, k: nat, env: Env, j: nat)
    requires j < |ts|
    decreases |ts|
    ensures NoticesFrom(ts, k, env)[j] == NoticeFor(ts[j], k + j, env)
    ensures NoticesFrom(ts, k, env)[j].taskId == ts[j].id
  {
    if j > 0 {
      NoticesFromIndex(ts[1..], k + 1, env, j - 1);
    }
  }

  /** When no add throws, every row gets its notification, in order. */
  lemma {:induction false} JobsFromNoFaults(ts: seq<Task>, k: nat, env: Env)
    requires forall n :: env.addError(n).None?
    decreases |ts|
    ensures |JobsFrom(ts, k, env)| == |ts|
    ensures forall j :: 0 <= j < |ts| ==> JobsFrom(ts, k, env)[j] == NotificationJob(ts[j], env.showDate)
  {
    if ts != [] {
      JobsFromNoFaults(ts[1..], k + 1, env);
    }
  }

  // ------------------------------------------------------------ jobs the worker does not know

  /**
   * The jobs the command service and the sweep enqueue are not among the names
   * the worker dispatches: with attempts left, each is reported as unknown and
   * changes nothing.
   */
  lemma EnqueuedNamesAreUnknown(s: Snapshot, d: Delivery, env: Env)
    requires WellKeyed(s.tasks) && !Exhausted(d)
    requires d.job.name in {"task-status-updated", "task-deleted", "send-notification"}
    ensures Process(s, d, env) == Handled(s, Returned(Unsuccessful("Unknown job type: " + d.job.name)))
  {
  }
}
