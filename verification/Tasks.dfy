/** The scheduler's records (internal/scheduler/job.go): jobs, tasks and the
    assignments handed to workers. Timestamps, error texts and the algorithm's
    own configuration are not modelled; no decision depends on them. */
module Tasks {

  /** A job id is a UUID in its text form. */
  datatype JobId = JobId(text: string)

  /** A task id is a UUID, compared only for equality. */
  type TaskId(==, !new, 00)

  type WorkerId = string
  type Shard = string

  datatype JobStatus = JobPending | JobRunning | JobCompleted | JobFailed

  datatype TaskStatus = TaskPending | TaskAssigned | TaskRunning | TaskDone | TaskFailed

  datatype Job = Job(
    id: JobId,
    priority: int,
    status: JobStatus,
    shards: seq<Shard>,
    totalTasks: int,
    doneTasks: int,
    failedTasks: int)

  /** A task owns the half-open slice [rangeStart, rangeEnd) of its shard;
      rangeEnd is negative until a worker reports the shard's size. */
  datatype Task = Task(
    id: TaskId,
    jobId: JobId,
    shard: Shard,
    workerId: WorkerId,
    status: TaskStatus,
    priority: int,
    retries: int,
    maxRetries: int,
    rangeStart: int,
    rangeEnd: int,
    frontier: int,
    granted: int,
    generation: int,
    split: bool)
  {
    predicate InFlight() { status.TaskAssigned? || status.TaskRunning? }

    predicate Settled() { status.TaskDone? || status.TaskFailed? }

    predicate SizeKnown() { rangeEnd >= 0 }

    /** The part of the range no worker has been leased yet. */
    function Tail(): int { rangeEnd - granted }

    predicate Owns(x: int) { rangeStart <= x < rangeEnd }
  }

  datatype Assignment = Assignment(
    taskId: TaskId,
    jobId: JobId,
    shard: Shard,
    rangeStart: int,
    rangeEnd: int,
    bound: int,
    generation: int,
    split: bool)

  datatype Renewal = Renewal(generation: int, bound: int, stolen: bool)

  function AssignmentFor(t: Task): Assignment {
    Assignment(t.id, t.jobId, t.shard, t.rangeStart, t.rangeEnd, t.granted, t.generation, t.split)
  }
}
