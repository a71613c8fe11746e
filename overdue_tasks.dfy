/**
 * The hourly trigger of the overdue sweep: each run enqueues one
 * `overdue-tasks-notification` job with an empty data object and its own retry
 * options, and swallows a failing enqueue. The scanning itself is the worker's.
 */
module OverdueTasks {
  import opened Wrappers
  import opened TaskTypes
  import opened Backend
  import TaskProcessor

  /** The retry options of the sweep job: three attempts, exponential backoff from 5000 ms. */
  const SweepJobOptions := JobOptions(Some(3), Some(Backoff("exponential", 5000)))

  /** The job one run enqueues: the empty data object and the options above. */
  const SweepJob := Job("overdue-tasks-notification", Some(Payload(None, None, None)), SweepJobOptions)

  /**
   * One run: the job is appended unless the queue throws (`fault`), which is
   * caught, so the run never fails and touches nothing but the queue.
   */
  function CheckOverdueTasks(s: Snapshot, fault: Option<string>): (r: Snapshot)
    ensures fault.None? ==> r.queue == s.queue + [SweepJob]
    ensures fault.Some? ==> r == s
    ensures r.tasks == s.tasks && r.cache == s.cache && r.locks == s.locks && r.counters == s.counters
  {
    Enqueue(s, SweepJob, fault)
  }

  /**
   * The job a run enqueues is dispatched by the worker to the overdue sweep on
   * each of its three attempts, and refused once they are used up.
   */
  lemma SweepJobIsSwept(s: Snapshot, id: string, attemptsMade: nat, env: TaskProcessor.Env)
    requires WellKeyed(s.tasks)
    ensures var d := TaskProcessor.Delivery(id, attemptsMade, SweepJob);
      && (attemptsMade < 3 ==> TaskProcessor.Process(s, d, env) == TaskProcessor.HandleOverdueTasks(s, env))
      && (attemptsMade >= 3 ==>
            TaskProcessor.Process(s, d, env)
            == TaskProcessor.Handled(s, TaskProcessor.Returned(TaskProcessor.Unsuccessful("Max retry limit reached"))))
  {
    var d := TaskProcessor.Delivery(id, attemptsMade, SweepJob);
    assert TaskProcessor.Exhausted(d) <==> attemptsMade >= 3;
  }
}
