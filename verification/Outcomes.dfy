/** How tasks and jobs come out (internal/scheduler/scheduler.go, StartTask, ReportResult,
    RebalanceWorker and updateJob): what each call makes of a task, and whether a job
    that ends has failed or completed. */
module Outcomes {
  import opened Util
  import opened Tasks
  import opened SchedulerSpec
  import opened SchedulerRuns
  import opened JobBooks
  import opened JobCounters
  import opened Once
  import opened DoneHook

  /******* Tasks *******/

  /** A task back in the queue: one more retry, nobody's, and its lease at the start of
      its range. */
  predicate BackInQueue(t: Task, t': Task) {
    t' == t.(status := TaskPending, workerId := "", retries := t.retries + 1, frontier := t.rangeStart, granted := t.rangeStart)
  }

  /** A start changes the status alone, whatever it was. */
  lemma StartLaw(s: State, tid: TaskId, s': State)
    requires Next(s, Op.StartTask(tid), s')
    ensures s'.tasks.Keys == s.tasks.Keys && s' == s.(tasks := s'.tasks)
    ensures tid in s.tasks ==> s'.tasks[tid] == s.tasks[tid].(status := TaskRunning)
    ensures forall u <- s.tasks :: u != tid ==> s'.tasks[u] == s.tasks[u]
  {
  }

  /** A report settles a task that is not done: a success makes it done and an error,
      while a retry is left, pending again at the end of the queue, else failed. */
  lemma SettleLaw(s: State, tid: TaskId, w: WorkerId, failed: bool, s': State)
    requires Next(s, Op.SettleTask(tid, w, failed), s')
    ensures s'.tasks.Keys == s.tasks.Keys && s'.leaseChunk == s.leaseChunk
    ensures forall u <- s.tasks :: u != tid ==> s'.tasks[u] == s.tasks[u]
    ensures tid !in s.tasks || s.tasks[tid].status.TaskDone? ==> s' == s
    ensures tid in s.tasks && !s.tasks[tid].status.TaskDone? ==>
              var t, t' := s.tasks[tid], s'.tasks[tid];
              if failed && t.retries < t.maxRetries
              then BackInQueue(t, t') && s'.pendingQ == s.pendingQ + [tid] && s'.jobs == s.jobs
              else t' == t.(status := if failed then TaskFailed else TaskDone, workerId := w) && s'.pendingQ == s.pendingQ
  {
  }

  /** A rebalance requeues or fails every task in flight of the worker, and no other. */
  lemma RebalanceLaw(s: State, w: WorkerId, order: seq<TaskId>, s': State, t: TaskId)
    requires Next(s, Op.RebalanceWorker(w, order), s') && t in s.tasks
    ensures s'.tasks.Keys == s.tasks.Keys
    ensures if s.tasks[t].workerId == w && s.tasks[t].InFlight()
            then if s.tasks[t].retries < s.tasks[t].maxRetries then BackInQueue(s.tasks[t], s'.tasks[t])
                 else s'.tasks[t] == s.tasks[t].(status := TaskFailed)
            else s'.tasks[t] == s.tasks[t]
  {
    ReclaimedTask(s, order, t);
    assert HeldBy(s, t, w) ==> t in order;
    if t in order {
      var k :| 0 <= k < |order| && order[k] == t;
      assert HeldBy(s, order[k], w);
    }
  }

  /** A submission adds one pending whole-shard task for each shard, of the job's
      priority, in the order of the shards, and the running job. */
  lemma SubmitLaw(s: State, op: Op, s': State, k: nat)
    requires op.SubmitJob? && Next(s, op, s') && k < |op.shards|
    ensures |op.ids| == |op.shards| && op.ids[k] in s'.tasks
    ensures s'.tasks[op.ids[k]] ==
              Task(op.ids[k], op.j, op.shards[k], "", TaskPending, op.priority, 0, op.maxRetries, 0, -1, 0, 0, 0, false)
    ensures s'.pendingQ == s.pendingQ + op.ids
    ensures op.j in s'.jobs && s'.jobs[op.j] == Job(op.j, op.priority, JobRunning, op.shards, |op.shards|, 0, 0)
  {
    var job := Job(op.j, op.priority, JobRunning, op.shards, |op.shards|, 0, 0);
    var s0 := s.(jobs := s.jobs[op.j := job]);
    AddedQueue(s0, op.j, op.priority, op.maxRetries, op.shards, op.ids);
    AddedTask(s0, op.j, op.priority, op.maxRetries, op.shards, op.ids, op.ids[k]);
  }

  /******* Jobs *******/

  ghost predicate AnyFailed(s: State, j: JobId) {
    exists t :: t in s.tasks && s.tasks[t].jobId == j && s.tasks[t].status.TaskFailed?
  }

  /** Nothing of the job is open, and it has failed exactly if one of its tasks has. */
  ghost predicate Judged(s: State, j: JobId) {
    && j in s.jobs && OpenTasks(s, j) == {}
    && s.jobs[j].status == if AnyFailed(s, j) then JobFailed else JobCompleted
  }

  lemma FailedCount(s: State, j: JobId)
    ensures |WithStatus(s, j, TaskFailed)| > 0 <==> AnyFailed(s, j)
  {
    if t :| t in s.tasks && s.tasks[t].jobId == j && s.tasks[t].status.TaskFailed? {
      assert t in WithStatus(s, j, TaskFailed);
    } else {
      assert WithStatus(s, j, TaskFailed) == {};
    }
  }

  lemma SameTasksFail(s: State, s': State, j: JobId)
    requires s'.tasks == s.tasks
    ensures AnyFailed(s', j) <==> AnyFailed(s, j)
  {
  }

  /** Closing a job judges it. */
  lemma FinishJudges(s: State, tid: TaskId, w: WorkerId, status: TaskStatus)
    requires tid in s.tasks && s.tasks[tid].jobId in s.jobs && (status.TaskDone? || status.TaskFailed?)
    requires OpenTasks(s, s.tasks[tid].jobId) <= {tid}
    ensures Judged(Finish(s, tid, w, status), s.tasks[tid].jobId)
  {
    var j, s' := s.tasks[tid].jobId, Finish(s, tid, w, status);
    var mid := s.(tasks := s.tasks[tid := s.tasks[tid].(status := status, workerId := w)]);
    assert OpenTasks(mid, j) == OpenTasks(s, j) - {tid};
    assert OpenTasks(mid, j) == {};
    assert OpenTasks(s', j) == OpenTasks(mid, j);
    FailedCount(mid, j);
    SameTasksFail(mid, s', j);
  }

  /** What happens to other jobs' tasks leaves a judged job as it is. */
  lemma OthersJudged(s: State, s': State, tid: TaskId, j: JobId)
    requires Judged(s, j) && tid in s.tasks && s.tasks[tid].jobId != j
    requires s'.tasks.Keys == s.tasks.Keys && s'.tasks[tid].jobId == s.tasks[tid].jobId
    requires (forall u <- s.tasks :: u != tid ==> s'.tasks[u] == s.tasks[u]) && j in s'.jobs && s'.jobs[j] == s.jobs[j]
    ensures Judged(s', j)
  {
    assert OpenTasks(s', j) == OpenTasks(s, j);
    assert forall t :: t in s.tasks && s.tasks[t].jobId == j && s.tasks[t].status.TaskFailed? <==>
                       t in s'.tasks && s'.tasks[t].jobId == j && s'.tasks[t].status.TaskFailed?;
  }

  /** The jobs whose hook the call has called. */
  ghost predicate NewlyCalled(s: State, s': State, k: nat) { |s.doneCalls| <= k < |s'.doneCalls| }

  ghost predicate CallsJudged(s: State, s': State) {
    s.doneCalls <= s'.doneCalls && forall k: nat {:trigger s'.doneCalls[k]} :: NewlyCalled(s, s', k) ==> Judged(s', s'.doneCalls[k])
  }

  lemma SettleJudges(s: State, tid: TaskId, w: WorkerId, failed: bool)
    requires Filed(s)
    ensures CallsJudged(s, Settle(s, tid, w, failed))
  {
    SettleCalls(s, tid, w, failed);
    if Finishes(s, tid, failed) && OpenTasks(s, s.tasks[tid].jobId) <= {tid} {
      FinishJudges(s, tid, w, if failed then TaskFailed else TaskDone);
    }
  }

  lemma ReclaimJudges(s: State, tid: TaskId)
    requires Filed(s) && tid in s.tasks
    ensures CallsJudged(s, Reclaim(s, tid))
  {
    if !HasRetry(s, tid) {
      FinishCalls(s, tid, s.tasks[tid].workerId, TaskFailed);
      if OpenTasks(s, s.tasks[tid].jobId) <= {tid} { FinishJudges(s, tid, s.tasks[tid].workerId, TaskFailed); }
    }
  }

  /** An open task is of no judged job. */
  lemma ReclaimKeepsJudged(s: State, tid: TaskId, j: JobId)
    requires Judged(s, j) && tid in s.tasks && !s.tasks[tid].Settled()
    ensures Judged(Reclaim(s, tid), j)
  {
    assert tid in OpenTasks(s, s.tasks[tid].jobId);
    ReclaimOne(s, tid);
    OthersJudged(s, Reclaim(s, tid), tid, j);
  }

  lemma JudgedOn(s: State, mid: State, tid: TaskId)
    requires tid in mid.tasks && !mid.tasks[tid].Settled() && CallsJudged(s, mid) && CallsJudged(mid, Reclaim(mid, tid))
    ensures CallsJudged(s, Reclaim(mid, tid))
  {
    var s' := Reclaim(mid, tid);
    forall k: nat | NewlyCalled(s, s', k) ensures Judged(s', s'.doneCalls[k]) {
      if k < |mid.doneCalls| {
        assert s'.doneCalls[k] == mid.doneCalls[k] && NewlyCalled(s, mid, k);
        ReclaimKeepsJudged(mid, tid, mid.doneCalls[k]);
      } else {
        assert NewlyCalled(mid, s', k);
      }
    }
  }

  lemma {:induction false} RebalanceJudges(s: State, order: seq<TaskId>)
    requires Filed(s) && NoRepeats(order)
    requires forall k :: 0 <= k < |order| ==> order[k] in s.tasks && !s.tasks[order[k]].Settled()
    ensures CallsJudged(s, ReclaimAll(s, order))
  {
    if order != [] {
      var n := |order| - 1;
      RebalanceJudges(s, order[..n]);
      ReclaimedTask(s, order[..n], order[n]);
      ReclaimedJobs(s, order[..n]);
      assert order[n] !in order[..n];
      ReclaimJudges(ReclaimAll(s, order[..n]), order[n]);
      JudgedOn(s, ReclaimAll(s, order[..n]), order[n]);
    }
  }

  lemma StepJudges(s: State, op: Op, s': State)
    requires Filed(s) && Next(s, op, s')
    ensures CallsJudged(s, s')
  {
    match op
    case SettleTask(tid, w, failed) => SettleJudges(s, tid, w, failed);
    case RebalanceWorker(w, order) =>
      assert forall k :: 0 <= k < |order| ==> HeldBy(s, order[k], w);
      RebalanceJudges(s, order);
    case _ => OthersKeepStatus(s, op, s');
  }

  /** In every run, whatever is called, a job whose hook is called has nothing open at
      that moment, and is failed if and only if one of its tasks is, else completed. */
  lemma HookTellsOutcome(hs: seq<History>, ops: seq<Op>, i: nat, k: nat)
    requires Run(hs, ops) && i < |ops| && |hs[i].s.doneCalls| <= k < |hs[i + 1].s.doneCalls|
    ensures Judged(hs[i + 1].s, hs[i + 1].s.doneCalls[k])
  {
    RunsKeepBooks(hs, ops, i);
    StepJudges(hs[i].s, ops[i], hs[i + 1].s);
    assert NewlyCalled(hs[i].s, hs[i + 1].s, k);
  }

  /******* With prompt starts, at every moment *******/

  /** A terminal job is failed exactly if it counts a failed task. */
  ghost predicate Marked(s: State) {
    forall j <- s.jobs :: Terminal(s.jobs[j]) ==> s.jobs[j].status == if s.jobs[j].failedTasks > 0 then JobFailed else JobCompleted
  }

  ghost predicate MarksKept(s: State, s': State) {
    s.jobs.Keys <= s'.jobs.Keys
    && forall j <- s'.jobs ::
         if j in s.jobs then s'.jobs[j].status == s.jobs[j].status && s'.jobs[j].failedTasks == s.jobs[j].failedTasks
         else !Terminal(s'.jobs[j])
  }

  lemma OthersKeepMarks(s: State, op: Op, s': State)
    requires Next(s, op, s') && Quietly(op)
    ensures MarksKept(s, s')
  {
    if op.SubmitJob? {
      SubmitRest(s, op, s');
    } else if op.DrainPending? {
      var k := Min(op.n, |s.pendingQ|);
      DrainKeepsStatus(s.(pendingQ := s.pendingQ[k..]), s.pendingQ[..k]);
    }
  }

  lemma KeptMarks(s: State, s': State)
    requires Marked(s) && MarksKept(s, s')
    ensures Marked(s')
  {
  }

  /** In a closed state a report of a terminal job's task recounts and judges it again. */
  lemma FinishMarks(s: State, tid: TaskId, w: WorkerId, status: TaskStatus)
    requires Filed(s) && Closed(s) && Marked(s) && tid in s.tasks && (status.TaskDone? || status.TaskFailed?)
    ensures Marked(Finish(s, tid, w, status))
  {
    var j := s.tasks[tid].jobId;
    var mid := s.(tasks := s.tasks[tid := s.tasks[tid].(status := status, workerId := w)]);
    assert JobClosed(s, j);
    assert OpenTasks(mid, j) == OpenTasks(s, j) - {tid};
  }

  lemma SettleMarks(s: State, tid: TaskId, w: WorkerId, failed: bool)
    requires Filed(s) && Closed(s) && Marked(s)
    ensures Marked(Settle(s, tid, w, failed))
  {
    if Finishes(s, tid, failed) { FinishMarks(s, tid, w, if failed then TaskFailed else TaskDone); }
  }

  lemma {:induction false} ReclaimMarks(s: State, order: seq<TaskId>)
    requires Filed(s) && Closed(s) && Marked(s) && NoRepeats(order)
    requires forall k :: 0 <= k < |order| ==> order[k] in s.tasks && !s.tasks[order[k]].Settled()
    ensures Marked(ReclaimAll(s, order))
  {
    if order != [] {
      var n := |order| - 1;
      var before := ReclaimAll(s, order[..n]);
      ReclaimMarks(s, order[..n]);
      ReclaimKeepsClosed(s, order[..n]);
      ReclaimedTask(s, order[..n], order[n]);
      if !HasRetry(before, order[n]) { FinishMarks(before, order[n], before.tasks[order[n]].workerId, TaskFailed); }
    }
  }

  lemma StepMarks(s: State, op: Op, s': State)
    requires Filed(s) && Closed(s) && Marked(s) && Next(s, op, s')
    ensures Marked(s')
  {
    match op
    case SettleTask(tid, w, failed) => SettleMarks(s, tid, w, failed);
    case RebalanceWorker(w, order) =>
      assert forall k :: 0 <= k < |order| ==> HeldBy(s, order[k], w);
      ReclaimMarks(s, order);
    case _ =>
      OthersKeepMarks(s, op, s');
      KeptMarks(s, s');
  }

  lemma {:induction false} PromptRunsMark(hs: seq<History>, ops: seq<Op>, k: nat)
    requires Run(hs, ops) && k < |hs| && forall i :: 0 <= i < k ==> Prompt(hs[i].s, ops[i])
    ensures Marked(hs[k].s)
  {
    if k > 0 {
      PromptRunsMark(hs, ops, k - 1);
      PromptRunsClose(hs, ops, k - 1);
      RunsKeepBooks(hs, ops, k - 1);
      StepMarks(hs[k - 1].s, ops[k - 1], hs[k].s);
    }
  }

  /** In every run whose starts are prompt a terminal job is, at every moment, failed if
      and only if one of its tasks is, else completed. */
  lemma TerminalOutcome(hs: seq<History>, ops: seq<Op>, k: nat, j: JobId)
    requires Run(hs, ops) && k < |hs| && TerminalJob(hs[k].s, j) && forall i :: 0 <= i < k ==> Prompt(hs[i].s, ops[i])
    ensures Judged(hs[k].s, j)
  {
    PromptRunsMark(hs, ops, k);
    PromptRunsClose(hs, ops, k);
    RunsCount(hs, ops, k);
    assert JobClosed(hs[k].s, j) && JobCounted(hs[k].s, j);
    FailedCount(hs[k].s, j);
  }
}
