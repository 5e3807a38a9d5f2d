/** The scheduler's atomic steps as functions and relations on its state
    (internal/scheduler/scheduler.go). Every method of the Scheduler class is
    proved to take one of these steps; the run theorems are about them.

    Identifiers drawn from uuid.New, the ring's answer for a shard and the order
    in which Go walks a map are arguments of the step. */
module SchedulerSpec {
  import opened Util
  import opened Tasks

  datatype State = State(
    jobs: map<JobId, Job>,
    tasks: map<TaskId, Task>,
    pendingQ: seq<TaskId>,
    leaseChunk: int,
    doneCalls: seq<JobId>)

  const MIN_STEAL_ITEMS := 2

  /** x, but no further than an end that is known. */
  function UpTo(x: int, end: int): int { if end >= 0 && x > end then end else x }

  /******* One task *******/

  function Grant(t: Task, chunk: int): Task {
    var reach := t.frontier + chunk;
    var g := if t.SizeKnown() && reach > t.rangeEnd then t.rangeEnd else reach;
    if g > t.granted then t.(granted := g) else t
  }

  function ResetLease(t: Task): Task {
    t.(frontier := t.rangeStart, granted := t.rangeStart)
  }

  /** The lease after a renewal, before the next chunk is granted. */
  function Report(t: Task, frontier: int, total: int): Task {
    var sized := if !t.SizeKnown() && total > 0 then t.(rangeEnd := total) else t;
    var moved := if frontier > sized.frontier then sized.(frontier := frontier) else sized;
    if moved.SizeKnown() && moved.frontier > moved.rangeEnd
    then moved.(frontier := moved.rangeEnd)
    else moved
  }

  function Renewed(t: Task, frontier: int, total: int, chunk: int): Task {
    Grant(Report(t, frontier, total), chunk)
  }

  /** The bound a renewal answers: one chunk past the furthest frontier reported, within
      the range once its end is known or the first total tells it, and never less than
      was granted before. */
  predicate Regranted(t: Task, frontier: int, total: int, chunk: int, bound: int) {
    var end := if t.rangeEnd < 0 && total > 0 then total else t.rangeEnd;
    bound == Max(t.granted, UpTo(UpTo(Max(t.frontier, frontier), end) + chunk, end))
  }

  lemma RenewedBound(t: Task, frontier: int, total: int, chunk: int)
    ensures Regranted(t, frontier, total, chunk, Renewed(t, frontier, total, chunk).granted)
  {
  }

  /******* Job bookkeeping *******/

  function JobTasks(s: State, j: JobId): set<TaskId> {
    set tid <- s.tasks | s.tasks[tid].jobId == j
  }

  function WithStatus(s: State, j: JobId, st: TaskStatus): set<TaskId> {
    set tid <- s.tasks | s.tasks[tid].jobId == j && s.tasks[tid].status == st
  }

  function OpenTasks(s: State, j: JobId): set<TaskId> {
    set tid <- s.tasks | s.tasks[tid].jobId == j && !s.tasks[tid].Settled()
  }

  predicate Terminal(j: Job) { j.status.JobCompleted? || j.status.JobFailed? }

  function UpdateJob(s: State, j: JobId): State {
    if j !in s.jobs then s else
      var done, failed := |WithStatus(s, j, TaskDone)|, |WithStatus(s, j, TaskFailed)|;
      var job := s.jobs[j].(doneTasks := done, failedTasks := failed);
      if OpenTasks(s, j) != {} then s.(jobs := s.jobs[j := job])
      else
        var status := if failed > 0 then JobFailed else JobCompleted;
        s.(jobs := s.jobs[j := job.(status := status)], doneCalls := s.doneCalls + [j])
  }

  /******* Submit *******/

  function FreshTask(tid: TaskId, j: JobId, shard: Shard, priority: int, maxRetries: int): Task {
    Task(tid, j, shard, "", TaskPending, priority, 0, maxRetries, 0, -1, 0, 0, 0, false)
  }

  /** Task ids are new and pairwise distinct, as uuid.New promises. */
  predicate FreshIds(s: State, j: JobId, shards: seq<Shard>, ids: seq<TaskId>) {
    && j !in s.jobs
    && |ids| == |shards|
    && (forall k | 0 <= k < |ids| :: ids[k] !in s.tasks)
    && (forall k, l | 0 <= k < l < |ids| :: ids[k] != ids[l])
  }

  function AddTasks(s: State, j: JobId, priority: int, maxRetries: int, shards: seq<Shard>, ids: seq<TaskId>): State
    requires |ids| == |shards|
  {
    if ids == [] then s else
      var k := |ids| - 1;
      var before := AddTasks(s, j, priority, maxRetries, shards[..k], ids[..k]);
      before.(
        tasks := before.tasks[ids[k] := FreshTask(ids[k], j, shards[k], priority, maxRetries)],
        pendingQ := before.pendingQ + [ids[k]])
  }

  lemma AddsOneMore(s: State, j: JobId, priority: int, maxRetries: int, shards: seq<Shard>, ids: seq<TaskId>, k: nat)
    requires k < |ids| == |shards|
    ensures AddTasks(s, j, priority, maxRetries, shards[..k + 1], ids[..k + 1]) ==
              var before := AddTasks(s, j, priority, maxRetries, shards[..k], ids[..k]);
              before.(tasks := before.tasks[ids[k] := FreshTask(ids[k], j, shards[k], priority, maxRetries)],
                      pendingQ := before.pendingQ + [ids[k]])
  {
    assert shards[..k + 1][..k] == shards[..k] && ids[..k + 1][..k] == ids[..k];
  }

  function Submit(s: State, j: JobId, priority: int, maxRetries: int, shards: seq<Shard>, ids: seq<TaskId>): State
    requires |ids| == |shards|
  {
    var job := Job(j, priority, JobRunning, shards, |shards|, 0, 0);
    AddTasks(s.(jobs := s.jobs[j := job]), j, priority, maxRetries, shards, ids)
  }

  /******* Poll *******/

  predicate Pollable(s: State, i: int) {
    && 0 <= i < |s.pendingQ|
    && s.pendingQ[i] in s.tasks
    && s.tasks[s.pendingQ[i]].status.TaskPending?
  }

  function Queued(s: State, i: int): Task
    requires Pollable(s, i)
  {
    s.tasks[s.pendingQ[i]]
  }

  predicate Local(s: State, w: WorkerId, owner: Shard -> WorkerId, i: int) {
    Pollable(s, i) && owner(Queued(s, i).shard) == w
  }

  /** The entry PollTasks takes: the first task the ring prefers for w, or, when
      there is none, the earliest of the highest-priority pending tasks. */
  ghost predicate LegalPick(s: State, w: WorkerId, owner: Shard -> WorkerId, i: int) {
    && Pollable(s, i)
    && if Local(s, w, owner, i) then forall k :: 0 <= k < i ==> !Local(s, w, owner, k)
       else
         && (forall k :: 0 <= k < |s.pendingQ| ==> !Local(s, w, owner, k))
         && (forall k :: 0 <= k < |s.pendingQ| && Pollable(s, k) ==> Queued(s, k).priority <= Queued(s, i).priority)
         && (forall k :: 0 <= k < i && Pollable(s, k) ==> Queued(s, k).priority < Queued(s, i).priority)
  }

  function Dequeue(s: State, i: int): State
    requires 0 <= i < |s.pendingQ|
  {
    s.(pendingQ := s.pendingQ[..i] + s.pendingQ[i + 1..])
  }

  function Assign(s: State, tid: TaskId, w: WorkerId): State
    requires tid in s.tasks
  {
    s.(tasks := s.tasks[tid := Grant(s.tasks[tid].(status := TaskAssigned, workerId := w), s.leaseChunk)])
  }

  predicate Splittable(s: State, tid: TaskId) {
    tid in s.tasks && s.tasks[tid].InFlight() && s.tasks[tid].SizeKnown()
  }

  /** The steal takes from a task with the longest un-granted tail, if that tail
      has at least two items. */
  ghost predicate LegalVictim(s: State, v: TaskId) {
    && Splittable(s, v)
    && s.tasks[v].Tail() >= MIN_STEAL_ITEMS
    && forall u :: Splittable(s, u) ==> s.tasks[u].Tail() <= s.tasks[v].Tail()
  }

  function SplitPoint(t: Task): int { t.granted + t.Tail() / 2 }

  function StolenTask(victim: Task, newId: TaskId): Task {
    var at := SplitPoint(victim);
    Task(newId, victim.jobId, victim.shard, "", TaskPending, 0, 0, victim.maxRetries,
         at, victim.rangeEnd, at, at, 0, true)
  }

  function Shrunk(victim: Task): Task {
    victim.(rangeEnd := SplitPoint(victim), generation := victim.generation + 1, split := true)
  }

  function Steal(s: State, v: TaskId, newId: TaskId): State
    requires v in s.tasks
  {
    var victim := s.tasks[v];
    var j := victim.jobId;
    s.(tasks := s.tasks[v := Shrunk(victim)][newId := StolenTask(victim, newId)],
       jobs := if j in s.jobs then s.jobs[j := s.jobs[j].(totalTasks := s.jobs[j].totalTasks + 1)] else s.jobs)
  }

  datatype Choice = Take(index: nat) | StealFrom(victim: TaskId, newId: TaskId) | Nothing

  ghost predicate PollStep(s: State, w: WorkerId, owner: Shard -> WorkerId, c: Choice, s': State) {
    match c
    case Take(i) =>
      && LegalPick(s, w, owner, i)
      && s' == Assign(Dequeue(s, i), s.pendingQ[i], w)
    case StealFrom(v, newId) =>
      && (forall i :: 0 <= i < |s.pendingQ| ==> !Pollable(s, i))
      && LegalVictim(s, v) && newId !in s.tasks
      && s' == Assign(Steal(s, v, newId), newId, w)
    case Nothing =>
      && (forall i :: 0 <= i < |s.pendingQ| ==> !Pollable(s, i))
      && (forall v :: !LegalVictim(s, v))
      && s' == s
  }

  /** The task an assigning poll hands out. */
  function Chosen(s: State, c: Choice): TaskId
    requires c.Take? ==> c.index < |s.pendingQ|
    requires !c.Nothing?
  {
    match c
    case Take(i) => s.pendingQ[i]
    case StealFrom(_, newId) => newId
  }

  /******* Start, settle, renew *******/

  function Start(s: State, tid: TaskId): State {
    if tid in s.tasks then s.(tasks := s.tasks[tid := s.tasks[tid].(status := TaskRunning)]) else s
  }

  function RequeuedTask(t: Task): Task {
    ResetLease(t.(retries := t.retries + 1, status := TaskPending, workerId := ""))
  }

  function Requeue(s: State, tid: TaskId): State
    requires tid in s.tasks
  {
    s.(tasks := s.tasks[tid := RequeuedTask(s.tasks[tid])], pendingQ := s.pendingQ + [tid])
  }

  function Finish(s: State, tid: TaskId, w: WorkerId, status: TaskStatus): State
    requires tid in s.tasks
  {
    var t := s.tasks[tid];
    UpdateJob(s.(tasks := s.tasks[tid := t.(status := status, workerId := w)]), t.jobId)
  }

  /** The last, locked phase of ReportResult. */
  function Settle(s: State, tid: TaskId, w: WorkerId, failed: bool): State {
    if tid !in s.tasks || s.tasks[tid].status.TaskDone? then s
    else if !failed then Finish(s, tid, w, TaskDone)
    else if s.tasks[tid].retries < s.tasks[tid].maxRetries then Requeue(s, tid)
    else Finish(s, tid, w, TaskFailed)
  }

  function Renew(s: State, tid: TaskId, frontier: int, total: int): State {
    if tid in s.tasks
    then s.(tasks := s.tasks[tid := Renewed(s.tasks[tid], frontier, total, s.leaseChunk)])
    else s
  }

  /******* Rebalance, drain *******/

  predicate HeldBy(s: State, tid: TaskId, w: WorkerId) {
    tid in s.tasks && s.tasks[tid].workerId == w && s.tasks[tid].InFlight()
  }

  function Reclaim(s: State, tid: TaskId): State
    requires tid in s.tasks
  {
    var t := s.tasks[tid];
    if t.retries < t.maxRetries then Requeue(s, tid) else Finish(s, tid, t.workerId, TaskFailed)
  }

  function ReclaimAll(s: State, order: seq<TaskId>): State {
    if order == [] then s else
      var before := ReclaimAll(s, order[..|order| - 1]);
      if order[|order| - 1] in before.tasks then Reclaim(before, order[|order| - 1]) else before
  }

  /** The walk has visited, each once, exactly the tasks w holds outside `unseen`. */
  ghost predicate WalkOutside(s: State, w: WorkerId, order: seq<TaskId>, unseen: set<TaskId>) {
    && (forall k :: 0 <= k < |order| ==> HeldBy(s, order[k], w) && order[k] !in unseen)
    && (forall k, l :: 0 <= k < l < |order| ==> order[k] != order[l])
    && (forall tid :: HeldBy(s, tid, w) && tid !in unseen ==> tid in order)
  }

  ghost predicate WalkOf(s: State, w: WorkerId, order: seq<TaskId>) {
    WalkOutside(s, w, order, {})
  }

  lemma WalkVisits(s: State, w: WorkerId, order: seq<TaskId>, unseen: set<TaskId>, tid: TaskId)
    requires WalkOutside(s, w, order, unseen) && tid in unseen
    ensures WalkOutside(s, w, if HeldBy(s, tid, w) then order + [tid] else order, unseen - {tid})
    ensures HeldBy(s, tid, w) && tid in ReclaimAll(s, order).tasks ==>
              ReclaimAll(s, order + [tid]) == Reclaim(ReclaimAll(s, order), tid)
  {
    assert (order + [tid])[..|order|] == order;
  }

  /** DrainPending keeps the task's worker field and skips ids that are not
      pending or whose job is unknown. */
  predicate Drainable(s: State, tid: TaskId) {
    tid in s.tasks && s.tasks[tid].status.TaskPending? && s.tasks[tid].jobId in s.jobs
  }

  function DrainAll(s: State, ids: seq<TaskId>): State {
    if ids == [] then s else
      var tid := ids[|ids| - 1];
      var before := DrainAll(s, ids[..|ids| - 1]);
      if Drainable(before, tid) then Assign(before, tid, before.tasks[tid].workerId) else before
  }

  function Drain(s: State, n: nat): State {
    var k := Min(n, |s.pendingQ|);
    DrainAll(s.(pendingQ := s.pendingQ[k..]), s.pendingQ[..k])
  }

  lemma DrainsOneMore(s: State, ids: seq<TaskId>, i: nat)
    requires i < |ids|
    ensures DrainAll(s, ids[..i + 1]) ==
              var before := DrainAll(s, ids[..i]);
              if Drainable(before, ids[i]) then Assign(before, ids[i], before.tasks[ids[i]].workerId) else before
  {
    assert ids[..i + 1][..i] == ids[..i];
  }

  /******* The step relation *******/

  datatype Op =
    | SubmitJob(j: JobId, priority: int, maxRetries: int, shards: seq<Shard>, ids: seq<TaskId>)
    | Poll(w: WorkerId, owner: Shard -> WorkerId, choice: Choice)
    | StartTask(tid: TaskId)
    | SettleTask(tid: TaskId, w: WorkerId, failed: bool)
    | RenewLease(tid: TaskId, frontier: int, total: int)
    | RebalanceWorker(w: WorkerId, order: seq<TaskId>)
    | DrainPending(n: nat)
    | SetLeaseChunk(chunk: int)

  ghost predicate Next(s: State, op: Op, s': State) {
    match op
    case SubmitJob(j, priority, maxRetries, shards, ids) =>
      FreshIds(s, j, shards, ids) && s' == Submit(s, j, priority, maxRetries, shards, ids)
    case Poll(w, owner, choice) => PollStep(s, w, owner, choice, s')
    case StartTask(tid) => s' == Start(s, tid)
    case SettleTask(tid, w, failed) => s' == Settle(s, tid, w, failed)
    case RenewLease(tid, frontier, total) => s' == Renew(s, tid, frontier, total)
    case RebalanceWorker(w, order) => WalkOf(s, w, order) && s' == ReclaimAll(s, order)
    case DrainPending(n) => s' == Drain(s, n)
    case SetLeaseChunk(chunk) => s' == if chunk > 0 then s.(leaseChunk := chunk) else s
  }
}
