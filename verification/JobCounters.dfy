/** A job's progress counters (internal/scheduler/scheduler.go, updateJob) over runs:
    they count its done and failed tasks, and a terminal job's add up to its total. */
module JobCounters {
  import opened Util
  import opened Tasks
  import opened SchedulerSpec
  import opened SchedulerRuns
  import opened JobBooks

  ghost predicate JobCounted(s: State, j: JobId)
    requires j in s.jobs
  {
    && s.jobs[j].doneTasks == |WithStatus(s, j, TaskDone)|
    && s.jobs[j].failedTasks == |WithStatus(s, j, TaskFailed)|
  }

  ghost predicate Counted(s: State) { forall j <- s.jobs :: JobCounted(s, j) }

  /** StartTask comes before the task is settled. */
  predicate Prompt(s: State, op: Op) {
    op.StartTask? && op.tid in s.tasks ==> !s.tasks[op.tid].Settled()
  }

  /** Old tasks keep job and settled status, new ones are not settled; old jobs keep
      their counters and new ones start at zero with no old task. */
  ghost predicate SettledKept(s: State, s': State) {
    && s.tasks.Keys <= s'.tasks.Keys && s.jobs.Keys <= s'.jobs.Keys
    && (forall t <- s'.tasks ::
          if t in s.tasks then
            && s'.tasks[t].jobId == s.tasks[t].jobId
            && (s'.tasks[t].status == s.tasks[t].status || (!s'.tasks[t].Settled() && !s.tasks[t].Settled()))
          else !s'.tasks[t].Settled())
    && (forall j <- s'.jobs ::
          if j in s.jobs then s'.jobs[j].doneTasks == s.jobs[j].doneTasks && s'.jobs[j].failedTasks == s.jobs[j].failedTasks
          else s'.jobs[j].doneTasks == 0 && s'.jobs[j].failedTasks == 0)
  }

  lemma SameSettled(s: State, s': State, j: JobId, st: TaskStatus)
    requires SettledKept(s, s') && (st.TaskDone? || st.TaskFailed?)
    ensures WithStatus(s', j, st) == WithStatus(s, j, st)
  {
  }

  lemma KeptCounts(s: State, s': State)
    requires Filed(s) && Counted(s) && SettledKept(s, s')
    ensures Counted(s')
  {
    forall j <- s'.jobs ensures JobCounted(s', j) {
      SameSettled(s, s', j, TaskDone);
      SameSettled(s, s', j, TaskFailed);
      if j in s.jobs {
        assert JobCounted(s, j);
      } else {
        assert WithStatus(s, j, TaskDone) == {} && WithStatus(s, j, TaskFailed) == {};
      }
    }
  }

  /** Settling a task recounts its job and leaves every other job's tasks alone. */
  lemma FinishCounts(s: State, tid: TaskId, w: WorkerId, status: TaskStatus)
    requires Counted(s) && tid in s.tasks && s.tasks[tid].jobId in s.jobs
    ensures Counted(Finish(s, tid, w, status))
  {
    var j, s' := s.tasks[tid].jobId, Finish(s, tid, w, status);
    forall i <- s'.jobs ensures JobCounted(s', i) {
      if i == j {
        Recounted(s.(tasks := s.tasks[tid := s.tasks[tid].(status := status, workerId := w)]), j);
      } else {
        assert JobCounted(s, i);
        OtherJob(s, s', tid, i, TaskDone);
        OtherJob(s, s', tid, i, TaskFailed);
      }
    }
  }

  lemma Recounted(s: State, j: JobId)
    requires j in s.jobs
    ensures UpdateJob(s, j).tasks == s.tasks && j in UpdateJob(s, j).jobs && JobCounted(UpdateJob(s, j), j)
  {
    assert WithStatus(UpdateJob(s, j), j, TaskDone) == WithStatus(s, j, TaskDone);
    assert WithStatus(UpdateJob(s, j), j, TaskFailed) == WithStatus(s, j, TaskFailed);
  }

  lemma OtherJob(s: State, s': State, tid: TaskId, i: JobId, st: TaskStatus)
    requires tid in s.tasks && s'.tasks.Keys == s.tasks.Keys && s.tasks[tid].jobId != i
    requires s'.tasks[tid].jobId == s.tasks[tid].jobId && forall t <- s.tasks :: t != tid ==> s'.tasks[t] == s.tasks[t]
    ensures WithStatus(s', i, st) == WithStatus(s, i, st)
  {
  }

  lemma RequeueCounts(s: State, tid: TaskId)
    requires Filed(s) && Counted(s) && tid in s.tasks && !s.tasks[tid].Settled()
    ensures Counted(Requeue(s, tid))
  {
    KeptCounts(s, Requeue(s, tid));
  }

  lemma SettleCounts(s: State, tid: TaskId, w: WorkerId, failed: bool)
    requires Filed(s) && Counted(s) && (tid in s.tasks ==> RetriesRight(s.tasks[tid]))
    ensures Counted(Settle(s, tid, w, failed))
  {
    if tid in s.tasks && !s.tasks[tid].status.TaskDone? {
      if !failed {
        FinishCounts(s, tid, w, TaskDone);
      } else if s.tasks[tid].retries < s.tasks[tid].maxRetries {
        RequeueCounts(s, tid);
      } else {
        FinishCounts(s, tid, w, TaskFailed);
      }
    }
  }

  lemma {:induction false} ReclaimCounts(s: State, order: seq<TaskId>)
    requires Filed(s) && Counted(s)
    requires forall k :: 0 <= k < |order| ==> order[k] in s.tasks && !s.tasks[order[k]].Settled()
    requires forall k, l :: 0 <= k < l < |order| ==> order[k] != order[l]
    ensures Counted(ReclaimAll(s, order))
  {
    if order != [] {
      var k := |order| - 1;
      var tid, before := order[k], ReclaimAll(s, order[..k]);
      ReclaimCounts(s, order[..k]);
      ReclaimedTask(s, order[..k], tid);
      ReclaimedJobs(s, order[..k]);
      ReclaimOneCounts(before, tid);
    }
  }

  lemma ReclaimOneCounts(s: State, tid: TaskId)
    requires Filed(s) && Counted(s) && tid in s.tasks && !s.tasks[tid].Settled()
    ensures Counted(Reclaim(s, tid))
  {
    if s.tasks[tid].retries < s.tasks[tid].maxRetries {
      RequeueCounts(s, tid);
    } else {
      FinishCounts(s, tid, s.tasks[tid].workerId, TaskFailed);
    }
  }

  lemma {:induction false} DrainAllCounts(s: State, ids: seq<TaskId>)
    requires Filed(s) && Counted(s)
    ensures Filed(DrainAll(s, ids)) && Counted(DrainAll(s, ids))
  {
    if ids != [] {
      var tid, before := ids[|ids| - 1], DrainAll(s, ids[..|ids| - 1]);
      DrainAllCounts(s, ids[..|ids| - 1]);
      if Drainable(before, tid) {
        TouchCounts(before, tid, Assign(before, tid, before.tasks[tid].workerId).tasks[tid], before.pendingQ, before.leaseChunk);
      }
    }
  }

  lemma DrainCounts(s: State, n: nat)
    requires Filed(s) && Counted(s)
    ensures Counted(Drain(s, n))
  {
    var k := Min(n, |s.pendingQ|);
    KeptCounts(s, s.(pendingQ := s.pendingQ[k..]));
    DrainAllCounts(s.(pendingQ := s.pendingQ[k..]), s.pendingQ[..k]);
  }

  lemma SubmitCounts(s: State, op: Op, s': State)
    requires Filed(s) && Counted(s) && Submitted(s, op, s')
    ensures Counted(s')
  {
    KeptCounts(s, s');
  }

  lemma StealCounts(s: State, op: Op, s': State)
    requires Filed(s) && Counted(s) && Stolen(s, op, s')
    ensures Counted(s')
  {
    KeptCounts(s, s');
  }

  /** One task changes, and not between settled and not settled. */
  lemma TouchCounts(s: State, tid: TaskId, t: Task, q: seq<TaskId>, chunk: int)
    requires Filed(s) && Counted(s) && tid in s.tasks && t.jobId == s.tasks[tid].jobId
    requires t.status == s.tasks[tid].status || (!t.Settled() && !s.tasks[tid].Settled())
    ensures Counted(s.(tasks := s.tasks[tid := t], pendingQ := q, leaseChunk := chunk))
  {
    KeptCounts(s, s.(tasks := s.tasks[tid := t], pendingQ := q, leaseChunk := chunk));
  }

  lemma TakeCounts(s: State, i: nat, w: WorkerId)
    requires Filed(s) && Counted(s) && Pollable(s, i)
    ensures Counted(Assign(Dequeue(s, i), s.pendingQ[i], w))
  {
    var s' := Assign(Dequeue(s, i), s.pendingQ[i], w);
    TouchCounts(s, s.pendingQ[i], s'.tasks[s.pendingQ[i]], s'.pendingQ, s.leaseChunk);
  }

  lemma RenewCounts(s: State, tid: TaskId, frontier: int, total: int)
    requires Filed(s) && Counted(s)
    ensures Counted(Renew(s, tid, frontier, total))
  {
    if tid in s.tasks {
      TouchCounts(s, tid, Renewed(s.tasks[tid], frontier, total, s.leaseChunk), s.pendingQ, s.leaseChunk);
    }
  }

  lemma StartCounts(s: State, tid: TaskId)
    requires Filed(s) && Counted(s) && Prompt(s, StartTask(tid))
    ensures Counted(Start(s, tid))
  {
    if tid in s.tasks {
      TouchCounts(s, tid, s.tasks[tid].(status := TaskRunning), s.pendingQ, s.leaseChunk);
    }
  }

  lemma ChunkCounts(s: State, chunk: int)
    requires Filed(s) && Counted(s)
    ensures Counted(s.(leaseChunk := chunk))
  {
    KeptCounts(s, s.(leaseChunk := chunk));
  }

  /** A start after the task was settled always leaves a counter wrong. */
  lemma LateStartMiscounts(s: State, tid: TaskId)
    requires Filed(s) && Counted(s)
    ensures Counted(Start(s, tid)) <==> Prompt(s, StartTask(tid))
  {
    if Prompt(s, StartTask(tid)) {
      StartCounts(s, tid);
    } else {
      var s', j, st := Start(s, tid), s.tasks[tid].jobId, s.tasks[tid].status;
      assert JobCounted(s, j);
      assert WithStatus(s', j, st) == WithStatus(s, j, st) - {tid};
      assert tid in WithStatus(s, j, st);
      assert !JobCounted(s', j);
    }
  }

  lemma StepCounts(h: History, op: Op, h': History)
    requires Books(h) && Counted(h.s) && Next(h.s, op, h'.s) && Shape(h.s, op, h'.s) && Prompt(h.s, op)
    ensures Counted(h'.s)
  {
    var s, s' := h.s, h'.s;
    match op
    case SubmitJob(_, _, _, _, _) => SubmitCounts(s, op, s');
    case Poll(w, _, choice) =>
      if Steals(op) {
        StealCounts(s, op, s');
      } else if choice.Take? {
        TakeCounts(s, choice.index, w);
      }
    case StartTask(tid) => StartCounts(s, tid);
    case SettleTask(tid, w, failed) => SettleCounts(s, tid, w, failed);
    case RenewLease(tid, frontier, total) => RenewCounts(s, tid, frontier, total);
    case RebalanceWorker(w, order) => RebalanceCounts(s, w, order);
    case DrainPending(n) => DrainCounts(s, n);
    case SetLeaseChunk(chunk) => ChunkCounts(s, chunk);
  }

  lemma RebalanceCounts(s: State, w: WorkerId, order: seq<TaskId>)
    requires Filed(s) && Counted(s) && WalkOf(s, w, order)
    ensures Counted(ReclaimAll(s, order))
  {
    assert forall k :: 0 <= k < |order| ==> HeldBy(s, order[k], w);
    ReclaimCounts(s, order);
  }

  lemma RunStepCounts(hs: seq<History>, ops: seq<Op>, k: nat)
    requires Run(hs, ops) && k < |ops| && Counted(hs[k].s) && Prompt(hs[k].s, ops[k])
    ensures Counted(hs[k + 1].s)
  {
    RunsKeepBooks(hs, ops, k);
    RunsShape(hs, ops, k);
    StepCounts(hs[k], ops[k], hs[k + 1]);
  }

  /** In every run whose starts are prompt the counters are right at every moment. */
  lemma {:induction false} RunsCount(hs: seq<History>, ops: seq<Op>, k: nat)
    requires Run(hs, ops) && k < |hs| && forall i :: 0 <= i < k ==> Prompt(hs[i].s, ops[i])
    ensures Counted(hs[k].s)
  {
    if k > 0 {
      RunsCount(hs, ops, k - 1);
      RunStepCounts(hs, ops, k - 1);
    }
  }

  /** A prompt start of a state with closed terminal jobs is timely too. */
  lemma PromptIsTimely(s: State, op: Op)
    requires Filed(s) && Closed(s) && Prompt(s, op)
    ensures Timely(s, op)
  {
    if op.StartTask? && op.tid in s.tasks { OpenTaskOpenJob(s, op.tid); }
  }

  /** In every run whose starts are prompt terminal jobs are closed. */
  lemma {:induction false} PromptRunsClose(hs: seq<History>, ops: seq<Op>, k: nat)
    requires Run(hs, ops) && k < |hs| && forall i :: 0 <= i < k ==> Prompt(hs[i].s, ops[i])
    ensures Closed(hs[k].s)
  {
    if k > 0 {
      PromptRunsClose(hs, ops, k - 1);
      RunsKeepBooks(hs, ops, k - 1);
      RunsShape(hs, ops, k - 1);
      PromptIsTimely(hs[k - 1].s, ops[k - 1]);
      StepKeepsClosed(hs[k - 1], ops[k - 1], hs[k]);
    }
  }

  /** A terminal job's counters add up to its number of tasks, and an open job's do
      as soon as nothing is open. */
  lemma TerminalAddsUp(hs: seq<History>, ops: seq<Op>, k: nat, j: JobId)
    requires Run(hs, ops) && k < |hs| && j in hs[k].s.jobs
    requires forall i :: 0 <= i < k ==> Prompt(hs[i].s, ops[i])
    ensures Terminal(hs[k].s.jobs[j]) ==> OpenTasks(hs[k].s, j) == {}
    ensures OpenTasks(hs[k].s, j) == {} <==>
              hs[k].s.jobs[j].doneTasks + hs[k].s.jobs[j].failedTasks == hs[k].s.jobs[j].totalTasks
  {
    var s := hs[k].s;
    RunsCount(hs, ops, k);
    PromptRunsClose(hs, ops, k);
    RunsKeepBooks(hs, ops, k);
    assert JobClosed(s, j) && JobCounted(s, j);
    ThreeWays(s, j);
  }

  lemma ThreeWays(s: State, j: JobId)
    ensures |JobTasks(s, j)| == |WithStatus(s, j, TaskDone)| + |WithStatus(s, j, TaskFailed)| + |OpenTasks(s, j)|
  {
    var settled := WithStatus(s, j, TaskDone) + WithStatus(s, j, TaskFailed);
    assert JobTasks(s, j) == settled + OpenTasks(s, j);
    assert |settled| == |WithStatus(s, j, TaskDone)| + |WithStatus(s, j, TaskFailed)|;
  }
}
