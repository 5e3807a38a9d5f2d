/** The scheduler's bookkeeping over runs: no pending task leaves the queue, no
    task is handed out more than 1 + MaxRetries times, job totals count the job's
    tasks, and a closed job has no open task. */
module JobBooks {
  import opened Util
  import opened Tasks
  import opened SchedulerSpec
  import opened SchedulerRuns

  /** How one step may move a task's status and retry count. */
  predicate Moves(t: Task, t': Task) {
    && t'.jobId == t.jobId && t'.maxRetries == t.maxRetries
    && (t'.retries == t.retries || (t'.retries == t.retries + 1 && t.retries < t.maxRetries && t'.status.TaskPending?))
    && (t'.retries == t.retries && t'.status.TaskPending? ==> t.status.TaskPending?)
    && (t'.status.TaskAssigned? && !t.status.TaskAssigned? ==> t.status.TaskPending?)
    && (t'.status.TaskFailed? ==> t.status.TaskFailed? || t.retries >= t.maxRetries)
  }

  ghost predicate AllMove(s: State, s': State) {
    s'.tasks.Keys == s.tasks.Keys && forall tid {:trigger s'.tasks[tid]} :: tid in s.tasks ==> Moves(s.tasks[tid], s'.tasks[tid])
  }

  /** A task the step leaves pending is in the new queue unless it was already
      pending and missing from the old one. */
  ghost predicate QueueKept(s: State, s': State) {
    forall tid <- s'.tasks :: s'.tasks[tid].status.TaskPending? ==>
      tid in s'.pendingQ || (tid in s.tasks && s.tasks[tid].status.TaskPending? && tid !in s.pendingQ)
  }

  ghost predicate TotalsKept(s: State, s': State) {
    s'.jobs.Keys == s.jobs.Keys && forall j <- s.jobs :: s'.jobs[j].totalTasks == s.jobs[j].totalTasks
  }

  ghost predicate Clerical(s: State, s': State) {
    AllMove(s, s') && QueueKept(s, s') && TotalsKept(s, s')
  }

  /** Every job of a task is on file. */
  ghost predicate Filed(s: State) {
    forall tid <- s.tasks :: s.tasks[tid].jobId in s.jobs
  }

  /******* Each step is clerical *******/

  lemma ClericalRequeue(s: State, tid: TaskId)
    requires tid in s.tasks && s.tasks[tid].retries < s.tasks[tid].maxRetries
    ensures Clerical(s, Requeue(s, tid))
  {
  }

  lemma ClericalFinish(s: State, tid: TaskId, w: WorkerId, status: TaskStatus)
    requires tid in s.tasks && (status.TaskDone? || (status.TaskFailed? && s.tasks[tid].retries >= s.tasks[tid].maxRetries))
    ensures Clerical(s, Finish(s, tid, w, status))
    ensures Finish(s, tid, w, status).pendingQ == s.pendingQ
  {
  }

  lemma ClericalTake(s: State, i: nat, w: WorkerId)
    requires Pollable(s, i)
    ensures Clerical(s, Assign(Dequeue(s, i), s.pendingQ[i], w))
  {
    var s', tid := Assign(Dequeue(s, i), s.pendingQ[i], w), s.pendingQ[i];
    forall u <- s'.tasks | s'.tasks[u].status.TaskPending? && u in s.pendingQ ensures u in s'.pendingQ {
      var k :| 0 <= k < |s.pendingQ| && s.pendingQ[k] == u;
      assert u == s'.pendingQ[if k < i then k else k - 1];
    }
  }

  function Reclaimed(t: Task): Task {
    if t.retries < t.maxRetries then RequeuedTask(t) else t.(status := TaskFailed)
  }

  lemma ReclaimOne(s: State, tid: TaskId)
    requires tid in s.tasks
    ensures Reclaim(s, tid).tasks == s.tasks[tid := Reclaimed(s.tasks[tid])]
  {
    assert s.tasks[tid].(status := TaskFailed, workerId := s.tasks[tid].workerId) == s.tasks[tid].(status := TaskFailed);
  }

  /** Reclaiming in any order touches each visited task once. */
  lemma {:induction false} ReclaimedTask(s: State, order: seq<TaskId>, tid: TaskId)
    requires tid in s.tasks
    requires forall k, l :: 0 <= k < l < |order| ==> order[k] != order[l]
    ensures ReclaimAll(s, order).tasks.Keys == s.tasks.Keys
    ensures ReclaimAll(s, order).tasks[tid] == if tid in order then Reclaimed(s.tasks[tid]) else s.tasks[tid]
  {
    if order != [] {
      var k := |order| - 1;
      var before := ReclaimAll(s, order[..k]);
      ReclaimedTask(s, order[..k], tid);
      assert order == order[..k] + [order[k]];
      if order[k] in before.tasks { ReclaimOne(before, order[k]); }
    }
  }

  lemma {:induction false} ReclaimedQueue(s: State, order: seq<TaskId>)
    ensures QueueKept(s, ReclaimAll(s, order)) && TotalsKept(s, ReclaimAll(s, order))
    ensures ReclaimAll(s, order).tasks.Keys == s.tasks.Keys
    ensures forall tid <- s.pendingQ :: tid in ReclaimAll(s, order).pendingQ
  {
    if order != [] {
      var tid, before := order[|order| - 1], ReclaimAll(s, order[..|order| - 1]);
      ReclaimedQueue(s, order[..|order| - 1]);
      if tid in before.tasks {
        ReclaimQueuesOne(before, tid);
        QueueKeptOn(s, before, Reclaim(before, tid));
      }
    }
  }

  lemma ReclaimQueuesOne(s: State, tid: TaskId)
    requires tid in s.tasks
    ensures QueueKept(s, Reclaim(s, tid)) && TotalsKept(s, Reclaim(s, tid))
    ensures Reclaim(s, tid).tasks.Keys == s.tasks.Keys && s.pendingQ <= Reclaim(s, tid).pendingQ
  {
  }

  lemma QueueKeptOn(s: State, mid: State, s': State)
    requires QueueKept(s, mid) && TotalsKept(s, mid) && QueueKept(mid, s') && TotalsKept(mid, s') && mid.pendingQ <= s'.pendingQ
    requires mid.tasks.Keys == s.tasks.Keys && s'.tasks.Keys == s.tasks.Keys
    requires forall tid <- s.pendingQ :: tid in mid.pendingQ
    ensures QueueKept(s, s') && TotalsKept(s, s') && forall tid <- s.pendingQ :: tid in s'.pendingQ
  {
    forall tid <- mid.pendingQ ensures tid in s'.pendingQ {
      var i :| 0 <= i < |mid.pendingQ| && mid.pendingQ[i] == tid;
      assert s'.pendingQ[i] == tid;
    }
  }

  lemma ClericalRebalance(s: State, w: WorkerId, order: seq<TaskId>)
    requires WalkOf(s, w, order)
    ensures Clerical(s, ReclaimAll(s, order))
  {
    ReclaimedQueue(s, order);
    forall tid <- s.tasks ensures Moves(s.tasks[tid], ReclaimAll(s, order).tasks[tid]) {
      ReclaimedTask(s, order, tid);
      if tid in order {
        var k :| 0 <= k < |order| && order[k] == tid;
        assert HeldBy(s, tid, w);
      }
    }
  }

  predicate Drained(t: Task, t': Task) {
    t' == t || (t.status.TaskPending? && t'.status.TaskAssigned? && t'.retries == t.retries
                && t'.jobId == t.jobId && t'.maxRetries == t.maxRetries)
  }

  lemma {:induction false} DrainedTasks(s: State, ids: seq<TaskId>)
    requires Filed(s)
    ensures var s' := DrainAll(s, ids);
            && s'.tasks.Keys == s.tasks.Keys && s'.jobs == s.jobs && s'.pendingQ == s.pendingQ && Filed(s')
            && (forall tid <- s.tasks :: Drained(s.tasks[tid], s'.tasks[tid]))
            && (forall tid <- s.tasks :: tid in ids ==> !s'.tasks[tid].status.TaskPending?)
  {
    if ids != [] {
      var k := |ids| - 1;
      DrainedTasks(s, ids[..k]);
      assert ids == ids[..k] + [ids[k]];
    }
  }

  lemma ClericalDrain(s: State, n: nat)
    requires Filed(s)
    ensures Clerical(s, Drain(s, n))
  {
    var k := Min(n, |s.pendingQ|);
    DrainedTasks(s.(pendingQ := s.pendingQ[k..]), s.pendingQ[..k]);
    assert s.pendingQ == s.pendingQ[..k] + s.pendingQ[k..];
  }

  lemma ClericalSettle(s: State, tid: TaskId, w: WorkerId, failed: bool)
    ensures Clerical(s, Settle(s, tid, w, failed))
  {
    if tid in s.tasks && !s.tasks[tid].status.TaskDone? {
      if !failed {
        ClericalFinish(s, tid, w, TaskDone);
      } else if s.tasks[tid].retries < s.tasks[tid].maxRetries {
        ClericalRequeue(s, tid);
      } else {
        ClericalFinish(s, tid, w, TaskFailed);
      }
    }
  }

  lemma ClericalStart(s: State, tid: TaskId)
    ensures Clerical(s, Start(s, tid))
  {
  }

  lemma ClericalRenew(s: State, tid: TaskId, frontier: int, total: int)
    ensures Clerical(s, Renew(s, tid, frontier, total))
  {
  }

  lemma ClericalStep(s: State, op: Op, s': State)
    requires Filed(s) && Next(s, op, s') && !op.SubmitJob? && !Steals(op)
    ensures Clerical(s, s')
  {
    match op
    case Poll(w, _, choice) =>
      if choice.Take? { ClericalTake(s, choice.index, w); }
    case StartTask(tid) => ClericalStart(s, tid);
    case SettleTask(tid, w, failed) => ClericalSettle(s, tid, w, failed);
    case RenewLease(tid, frontier, total) => ClericalRenew(s, tid, frontier, total);
    case RebalanceWorker(w, order) => ClericalRebalance(s, w, order);
    case DrainPending(n) => ClericalDrain(s, n);
    case SetLeaseChunk(_) =>
  }

  /******* The books over a run *******/

  predicate RetriesRight(t: Task) {
    && 0 <= t.retries <= Max(0, t.maxRetries)
    && (t.status.TaskFailed? ==> t.retries >= t.maxRetries)
  }

  predicate HandoutsRight(h: History, tid: TaskId)
    requires tid in h.s.tasks
  {
    tid in h.assigns && h.assigns[tid] <= h.s.tasks[tid].retries + if h.s.tasks[tid].status.TaskPending? then 0 else 1
  }

  ghost predicate QueueComplete(s: State) {
    forall tid <- s.tasks :: s.tasks[tid].status.TaskPending? ==> tid in s.pendingQ
  }

  ghost predicate TotalsRight(s: State) {
    forall j <- s.jobs :: s.jobs[j].totalTasks == |JobTasks(s, j)|
  }

  ghost predicate Books(h: History) {
    && Filed(h.s) && QueueComplete(h.s) && TotalsRight(h.s) && h.assigns.Keys == h.s.tasks.Keys
    && forall tid <- h.s.tasks :: RetriesRight(h.s.tasks[tid]) && HandoutsRight(h, tid)
  }

  lemma ClericalKeepsBooks(h: History, h': History)
    requires Books(h) && Clerical(h.s, h'.s) && AssignsFollow(h.s, h.assigns, h'.s, h'.assigns)
    ensures Books(h')
  {
    forall tid <- h'.s.tasks ensures RetriesRight(h'.s.tasks[tid]) && HandoutsRight(h', tid) {
      assert Moves(h.s.tasks[tid], h'.s.tasks[tid]);
      assert RetriesRight(h.s.tasks[tid]) && HandoutsRight(h, tid);
    }
    forall j <- h'.s.jobs ensures h'.s.jobs[j].totalTasks == |JobTasks(h'.s, j)| {
      assert JobTasks(h'.s, j) == JobTasks(h.s, j) by {
        assert forall tid <- h.s.tasks :: Moves(h.s.tasks[tid], h'.s.tasks[tid]);
      }
    }
  }

  /** New tasks of job j join the state, and its total grows by their number. */
  ghost predicate Joined(s: State, s': State, j: JobId, added: set<TaskId>) {
    && s'.tasks.Keys == s.tasks.Keys + added && added !! s.tasks.Keys
    && (forall tid <- s.tasks :: s'.tasks[tid].jobId == s.tasks[tid].jobId)
    && (forall tid <- added :: s'.tasks[tid].jobId == j)
    && s'.jobs.Keys == s.jobs.Keys + {j}
    && (forall i <- s.jobs :: i != j ==> s'.jobs[i].totalTasks == s.jobs[i].totalTasks)
    && s'.jobs[j].totalTasks == |added| + if j in s.jobs then s.jobs[j].totalTasks else 0
  }

  lemma NewTasksTotals(s: State, s': State, j: JobId, added: set<TaskId>)
    requires Filed(s) && TotalsRight(s) && Joined(s, s', j, added)
    ensures TotalsRight(s') && Filed(s')
  {
    forall i <- s'.jobs ensures s'.jobs[i].totalTasks == |JobTasks(s', i)| { NewTotal(s, s', j, added, i); }
    forall tid <- s'.tasks ensures s'.tasks[tid].jobId in s'.jobs {
      assert tid in s.tasks || tid in added;
    }
  }

  lemma NewTotal(s: State, s': State, j: JobId, added: set<TaskId>, i: JobId)
    requires Filed(s) && TotalsRight(s) && Joined(s, s', j, added) && i in s'.jobs
    ensures s'.jobs[i].totalTasks == |JobTasks(s', i)|
  {
    JobTasksGrow(s, s', j, added, i);
    if i !in s.jobs { assert JobTasks(s, i) == {}; }
  }

  lemma JobTasksGrow(s: State, s': State, j: JobId, added: set<TaskId>, i: JobId)
    requires s'.tasks.Keys == s.tasks.Keys + added && added !! s.tasks.Keys
    requires forall tid <- s.tasks :: s'.tasks[tid].jobId == s.tasks[tid].jobId
    requires forall tid <- added :: s'.tasks[tid].jobId == j
    ensures |JobTasks(s', i)| == |JobTasks(s, i)| + if i == j then |added| else 0
  {
    if i == j {
      assert JobTasks(s', i) == JobTasks(s, i) + added;
    } else {
      assert JobTasks(s', i) == JobTasks(s, i);
    }
  }

  lemma SubmitJoins(s: State, op: Op, s': State)
    requires Submitted(s, op, s')
    ensures Joined(s, s', op.j, Added(s, s'))
  {
  }

  /** Old tasks keep status and retries, the added ones are fresh and, if pending,
      queued. */
  ghost predicate FreshlyAdded(s: State, s': State, added: set<TaskId>) {
    && s'.tasks.Keys == s.tasks.Keys + added && added !! s.tasks.Keys && s.pendingQ <= s'.pendingQ
    && (forall tid <- s.tasks ::
          && s'.tasks[tid].retries == s.tasks[tid].retries
          && s'.tasks[tid].maxRetries == s.tasks[tid].maxRetries
          && s'.tasks[tid].status == s.tasks[tid].status)
    && (forall tid <- added ::
          && s'.tasks[tid].retries == 0 && !s'.tasks[tid].status.TaskFailed?
          && (s'.tasks[tid].status.TaskPending? ==> tid in s'.pendingQ))
  }

  /** New tasks join the books. */
  lemma NewTasksKeepBooks(h: History, h': History, added: set<TaskId>)
    requires Books(h) && AssignsFollow(h.s, h.assigns, h'.s, h'.assigns)
    requires FreshlyAdded(h.s, h'.s, added) && TotalsRight(h'.s) && Filed(h'.s)
    ensures Books(h')
  {
    forall tid <- h'.s.tasks ensures RetriesRight(h'.s.tasks[tid]) && HandoutsRight(h', tid) {
      if tid in h.s.tasks {
        assert RetriesRight(h.s.tasks[tid]) && HandoutsRight(h, tid);
      }
    }
  }

  lemma SubmitAdds(s: State, op: Op, s': State)
    requires Submitted(s, op, s')
    ensures FreshlyAdded(s, s', Added(s, s'))
  {
  }

  lemma SubmitKeepsBooks(h: History, op: Op, h': History)
    requires Books(h) && Submitted(h.s, op, h'.s) && AssignsFollow(h.s, h.assigns, h'.s, h'.assigns)
    ensures Books(h')
  {
    SubmitJoins(h.s, op, h'.s);
    NewTasksTotals(h.s, h'.s, op.j, Added(h.s, h'.s));
    SubmitAdds(h.s, op, h'.s);
    NewTasksKeepBooks(h, h', Added(h.s, h'.s));
  }

  lemma StealTotals(s: State, op: Op, s': State)
    requires Filed(s) && TotalsRight(s) && Stolen(s, op, s')
    ensures TotalsRight(s') && Filed(s')
  {
    NewTasksTotals(s, s', s.tasks[op.choice.victim].jobId, {op.choice.newId});
  }

  lemma StealAdds(s: State, op: Op, s': State)
    requires Stolen(s, op, s')
    ensures FreshlyAdded(s, s', {op.choice.newId})
  {
  }

  lemma StealKeepsBooks(h: History, op: Op, h': History)
    requires Books(h) && Stolen(h.s, op, h'.s) && AssignsFollow(h.s, h.assigns, h'.s, h'.assigns)
    ensures Books(h')
  {
    StealTotals(h.s, op, h'.s);
    StealAdds(h.s, op, h'.s);
    NewTasksKeepBooks(h, h', {op.choice.newId});
  }

  lemma StepKeepsBooks(h: History, op: Op, h': History)
    requires Books(h) && Step(h, op, h') && Shaped(h, op, h')
    ensures Books(h')
  {
    if op.SubmitJob? {
      SubmitKeepsBooks(h, op, h');
    } else if Steals(op) {
      StealKeepsBooks(h, op, h');
    } else {
      ClericalStep(h.s, op, h'.s);
      ClericalKeepsBooks(h, h');
    }
  }

  /** In every run, whatever is called: each pending task is queued, each job's
      total counts its tasks, and no task is handed out more often than
      1 + MaxRetries times. */
  lemma {:induction false} RunsKeepBooks(hs: seq<History>, ops: seq<Op>, k: nat)
    requires Run(hs, ops) && k < |hs|
    ensures Books(hs[k]) && HandoutsBounded(hs[k])
  {
    if k > 0 {
      RunsKeepBooks(hs, ops, k - 1);
      RunStepKeepsBooks(hs, ops, k - 1);
    }
    BooksBoundHandouts(hs[k]);
  }

  /** No task has been handed out more than 1 + MaxRetries times. */
  ghost predicate HandoutsBounded(h: History) {
    forall tid <- h.s.tasks :: tid in h.assigns && h.assigns[tid] <= 1 + Max(0, h.s.tasks[tid].maxRetries)
  }

  lemma BooksBoundHandouts(h: History)
    requires Books(h)
    ensures HandoutsBounded(h)
  {
    forall tid <- h.s.tasks ensures tid in h.assigns && h.assigns[tid] <= 1 + Max(0, h.s.tasks[tid].maxRetries) {
      assert RetriesRight(h.s.tasks[tid]) && HandoutsRight(h, tid);
    }
  }

  lemma RunStepKeepsBooks(hs: seq<History>, ops: seq<Op>, k: nat)
    requires Run(hs, ops) && k < |ops| && Books(hs[k])
    ensures Books(hs[k + 1])
  {
    RunsShape(hs, ops, k);
    StepKeepsBooks(hs[k], ops[k], hs[k + 1]);
  }

  /******* Closed jobs *******/

  /** A terminal job has no open task; the done hook has been called for exactly the
      terminal jobs. */
  ghost predicate JobClosed(s: State, j: JobId)
    requires j in s.jobs
  {
    && (j in s.doneCalls <==> Terminal(s.jobs[j]))
    && (Terminal(s.jobs[j]) ==> OpenTasks(s, j) == {})
  }

  ghost predicate Closed(s: State) {
    && (forall j <- s.jobs :: JobClosed(s, j))
    && (forall j <- s.doneCalls :: j in s.jobs)
  }

  /** A late StartTask is harmless while the task's job is still open. */
  predicate Timely(s: State, op: Op) {
    op.StartTask? && op.tid in s.tasks && s.tasks[op.tid].jobId in s.jobs ==> !Terminal(s.jobs[s.tasks[op.tid].jobId])
  }

  /** Exactly the starts in a terminal job reopen it. */
  lemma StartReopens(s: State, tid: TaskId)
    requires Filed(s) && Closed(s)
    ensures Closed(Start(s, tid)) <==> Timely(s, StartTask(tid))
  {
    var s' := Start(s, tid);
    if tid in s.tasks {
      var j := s.tasks[tid].jobId;
      assert tid in OpenTasks(s', j);
      if Terminal(s.jobs[j]) {
        assert !JobClosed(s', j);
      } else {
        forall i <- s'.jobs ensures JobClosed(s', i) {
          assert JobClosed(s, i);
          if i != j { assert OpenTasks(s', i) == OpenTasks(s, i); }
        }
      }
    }
  }

  /** Settling or reopening tasks of open jobs only, with the jobs untouched. */
  lemma OpenJobsChange(s: State, s': State)
    requires Filed(s) && Closed(s)
    requires s'.jobs.Keys == s.jobs.Keys && s'.doneCalls == s.doneCalls
    requires forall j <- s.jobs :: s'.jobs[j].status == s.jobs[j].status
    requires forall tid <- s'.tasks :: tid in s.tasks || (s'.tasks[tid].jobId in s.jobs && !Terminal(s.jobs[s'.tasks[tid].jobId]))
    requires forall tid <- s'.tasks :: tid in s.tasks ==>
               && s'.tasks[tid].jobId == s.tasks[tid].jobId
               && (s.tasks[tid].Settled() ==> s'.tasks[tid].Settled() || !Terminal(s.jobs[s.tasks[tid].jobId]))
    ensures Closed(s')
  {
    forall j <- s'.jobs ensures JobClosed(s', j) {
      assert JobClosed(s, j);
      if Terminal(s.jobs[j]) {
        assert OpenTasks(s', j) <= OpenTasks(s, j);
      }
    }
  }

  /** Settling one task and recounting its job. */
  lemma FinishKeepsClosed(s: State, tid: TaskId, w: WorkerId, status: TaskStatus)
    requires Filed(s) && Closed(s) && tid in s.tasks && (status.TaskDone? || status.TaskFailed?)
    ensures Closed(Finish(s, tid, w, status))
  {
    var j, s' := s.tasks[tid].jobId, Finish(s, tid, w, status);
    var mid := s.(tasks := s.tasks[tid := s.tasks[tid].(status := status, workerId := w)]);
    OpenJobsChange(s, mid);
    assert OpenTasks(s', j) == OpenTasks(mid, j);
    forall i <- s'.jobs ensures JobClosed(s', i) {
      assert JobClosed(mid, i);
      assert OpenTasks(s', i) == OpenTasks(mid, i);
    }
  }

  /** A closed task's job is not terminal while the task is open. */
  lemma OpenTaskOpenJob(s: State, tid: TaskId)
    requires Filed(s) && Closed(s) && tid in s.tasks && !s.tasks[tid].Settled()
    ensures !Terminal(s.jobs[s.tasks[tid].jobId])
  {
    var j := s.tasks[tid].jobId;
    assert JobClosed(s, j) && tid in OpenTasks(s, j);
  }

  lemma RequeueKeepsClosed(s: State, tid: TaskId)
    requires Filed(s) && Closed(s) && tid in s.tasks && !s.tasks[tid].Settled()
    ensures Closed(Requeue(s, tid))
  {
    OpenTaskOpenJob(s, tid);
    OpenJobsChange(s, Requeue(s, tid));
  }

  lemma {:induction false} ReclaimKeepsClosed(s: State, order: seq<TaskId>)
    requires Filed(s) && Closed(s)
    requires forall k :: 0 <= k < |order| ==> order[k] in s.tasks && !s.tasks[order[k]].Settled()
    requires forall k, l :: 0 <= k < l < |order| ==> order[k] != order[l]
    ensures Filed(ReclaimAll(s, order)) && Closed(ReclaimAll(s, order))
  {
    if order != [] {
      var k := |order| - 1;
      var tid, before := order[k], ReclaimAll(s, order[..k]);
      ReclaimKeepsClosed(s, order[..k]);
      ReclaimedTask(s, order[..k], tid);
      if before.tasks[tid].retries < before.tasks[tid].maxRetries {
        RequeueKeepsClosed(before, tid);
      } else {
        FinishKeepsClosed(before, tid, before.tasks[tid].workerId, TaskFailed);
      }
      ReclaimedJobs(s, order);
    }
  }

  lemma {:induction false} ReclaimedJobs(s: State, order: seq<TaskId>)
    requires Filed(s)
    ensures Filed(ReclaimAll(s, order))
  {
    if order != [] { ReclaimedJobs(s, order[..|order| - 1]); }
  }

  lemma SettleKeepsClosed(s: State, tid: TaskId, w: WorkerId, failed: bool)
    requires Filed(s) && Closed(s) && (tid in s.tasks ==> RetriesRight(s.tasks[tid]))
    ensures Closed(Settle(s, tid, w, failed))
  {
    if tid in s.tasks && !s.tasks[tid].status.TaskDone? {
      if !failed {
        FinishKeepsClosed(s, tid, w, TaskDone);
      } else if s.tasks[tid].retries < s.tasks[tid].maxRetries {
        RequeueKeepsClosed(s, tid);
      } else {
        FinishKeepsClosed(s, tid, w, TaskFailed);
      }
    }
  }

  lemma SubmitOpens(s: State, op: Op, s': State, j: JobId)
    requires Submitted(s, op, s') && j in s.jobs
    ensures OpenTasks(s', j) <= OpenTasks(s, j)
  {
  }

  lemma SubmitKeepsClosed(s: State, op: Op, s': State)
    requires Filed(s) && Closed(s) && Submitted(s, op, s')
    ensures Closed(s')
  {
    forall j <- s'.jobs ensures JobClosed(s', j) {
      if j in s.jobs {
        assert JobClosed(s, j);
        SubmitOpens(s, op, s', j);
      }
    }
  }

  lemma StealKeepsClosed(s: State, op: Op, s': State)
    requires Filed(s) && Closed(s) && Stolen(s, op, s')
    ensures Closed(s')
  {
    OpenTaskOpenJob(s, op.choice.victim);
    OpenJobsChange(s, s');
  }

  lemma PollKeepsClosed(s: State, i: nat, w: WorkerId)
    requires Filed(s) && Closed(s) && Pollable(s, i)
    ensures Closed(Assign(Dequeue(s, i), s.pendingQ[i], w))
  {
    OpenJobsChange(s, Assign(Dequeue(s, i), s.pendingQ[i], w));
  }

  lemma RenewKeepsClosed(s: State, tid: TaskId, frontier: int, total: int)
    requires Filed(s) && Closed(s)
    ensures Closed(Renew(s, tid, frontier, total))
  {
    OpenJobsChange(s, Renew(s, tid, frontier, total));
  }

  lemma DrainKeepsClosed(s: State, n: nat)
    requires Filed(s) && Closed(s)
    ensures Closed(Drain(s, n))
  {
    var k := Min(n, |s.pendingQ|);
    DrainedTasks(s.(pendingQ := s.pendingQ[k..]), s.pendingQ[..k]);
    DrainKeepsCalls(s.(pendingQ := s.pendingQ[k..]), s.pendingQ[..k]);
    OpenJobsChange(s, Drain(s, n));
  }

  lemma RebalanceKeepsClosed(s: State, w: WorkerId, order: seq<TaskId>)
    requires Filed(s) && Closed(s) && WalkOf(s, w, order)
    ensures Closed(ReclaimAll(s, order))
  {
    assert forall k :: 0 <= k < |order| ==> HeldBy(s, order[k], w);
    ReclaimKeepsClosed(s, order);
  }

  lemma HandKeepsClosed(s: State, op: Op, s': State)
    requires Filed(s) && Closed(s) && op.Poll? && Next(s, op, s') && Shape(s, op, s')
    ensures Closed(s')
  {
    if Steals(op) {
      StealKeepsClosed(s, op, s');
    } else if op.choice.Take? {
      PollKeepsClosed(s, op.choice.index, op.w);
    }
  }

  lemma StepKeepsClosed(h: History, op: Op, h': History)
    requires Books(h) && Closed(h.s) && Next(h.s, op, h'.s) && Shape(h.s, op, h'.s) && Timely(h.s, op)
    ensures Closed(h'.s)
  {
    var s, s' := h.s, h'.s;
    match op
    case SubmitJob(_, _, _, _, _) => SubmitKeepsClosed(s, op, s');
    case Poll(_, _, _) => HandKeepsClosed(s, op, s');
    case StartTask(tid) => StartReopens(s, tid);
    case SettleTask(tid, w, failed) => SettleKeepsClosed(s, tid, w, failed);
    case RenewLease(tid, frontier, total) => RenewKeepsClosed(s, tid, frontier, total);
    case RebalanceWorker(w, order) => RebalanceKeepsClosed(s, w, order);
    case DrainPending(n) => DrainKeepsClosed(s, n);
    case SetLeaseChunk(_) => OpenJobsChange(s, s');
  }

  lemma {:induction false} DrainKeepsCalls(s: State, ids: seq<TaskId>)
    ensures DrainAll(s, ids).doneCalls == s.doneCalls
  {
    if ids != [] { DrainKeepsCalls(s, ids[..|ids| - 1]); }
  }

  /** In every run whose starts are timely, a job is terminal exactly when its
      done hook was called, and then none of its tasks is open. */
  lemma {:induction false} RunsCloseJobs(hs: seq<History>, ops: seq<Op>, k: nat)
    requires Run(hs, ops) && k < |hs|
    requires forall i :: 0 <= i < k ==> Timely(hs[i].s, ops[i])
    ensures Closed(hs[k].s)
  {
    if k > 0 {
      RunsCloseJobs(hs, ops, k - 1);
      RunsKeepBooks(hs, ops, k - 1);
      RunsShape(hs, ops, k - 1);
      StepKeepsClosed(hs[k - 1], ops[k - 1], hs[k]);
    }
  }
}
