/** The done hook (internal/scheduler/scheduler.go, OnJobDone and updateJob) over
    every run, whatever is called and however late: a job is terminal exactly when its
    hook has been called, terminal jobs stay so, and the calls that call the hook of a
    job again. */
module DoneHook {
  import opened Util
  import opened Tasks
  import opened SchedulerSpec
  import opened SchedulerRuns
  import opened JobBooks
  import opened Once

  /******* Terminal if and only if called *******/

  predicate JobCalled(s: State, j: JobId)
    requires j in s.jobs
  {
    j in s.doneCalls <==> Terminal(s.jobs[j])
  }

  ghost predicate Called(s: State) {
    && (forall j <- s.jobs :: JobCalled(s, j))
    && (forall j <- s.doneCalls :: j in s.jobs)
  }

  /** Old jobs keep their status, new ones are not terminal, and the hook is not called. */
  ghost predicate StatusKept(s: State, s': State) {
    && s'.doneCalls == s.doneCalls && s.jobs.Keys <= s'.jobs.Keys
    && forall j <- s'.jobs :: if j in s.jobs then s'.jobs[j].status == s.jobs[j].status else !Terminal(s'.jobs[j])
  }

  lemma KeptCalled(s: State, s': State)
    requires Called(s) && StatusKept(s, s')
    ensures Called(s')
  {
    forall j <- s'.jobs ensures JobCalled(s', j) {
      assert j in s.jobs ==> JobCalled(s, j);
    }
  }

  /** What the state after a call keeps of the hook's past. */
  ghost predicate Grown(s: State, s': State) {
    Called(s') && s.doneCalls <= s'.doneCalls && s.jobs.Keys <= s'.jobs.Keys
  }

  lemma KeptGrown(s: State, s': State)
    requires Called(s) && StatusKept(s, s')
    ensures Grown(s, s')
  {
    KeptCalled(s, s');
  }

  lemma FinishGrown(s: State, tid: TaskId, w: WorkerId, status: TaskStatus)
    requires Called(s) && tid in s.tasks
    ensures Grown(s, Finish(s, tid, w, status))
  {
    var j, s' := s.tasks[tid].jobId, Finish(s, tid, w, status);
    forall i <- s'.jobs ensures JobCalled(s', i) {
      assert JobCalled(s, i);
    }
  }

  lemma {:induction false} ReclaimGrown(s: State, order: seq<TaskId>)
    requires Called(s)
    ensures Grown(s, ReclaimAll(s, order))
  {
    if order != [] {
      var before, tid := ReclaimAll(s, order[..|order| - 1]), order[|order| - 1];
      ReclaimGrown(s, order[..|order| - 1]);
      if tid in before.tasks && !HasRetry(before, tid) {
        FinishGrown(before, tid, before.tasks[tid].workerId, TaskFailed);
      } else if tid in before.tasks {
        KeptGrown(before, Reclaim(before, tid));
      }
    }
  }

  lemma {:induction false} DrainKeepsStatus(s: State, ids: seq<TaskId>)
    ensures DrainAll(s, ids).jobs == s.jobs && DrainAll(s, ids).doneCalls == s.doneCalls
  {
    if ids != [] { DrainKeepsStatus(s, ids[..|ids| - 1]); }
  }

  lemma SettleGrown(s: State, tid: TaskId, w: WorkerId, failed: bool)
    requires Called(s)
    ensures Grown(s, Settle(s, tid, w, failed))
  {
    if tid in s.tasks && !s.tasks[tid].status.TaskDone? && !(failed && HasRetry(s, tid)) {
      FinishGrown(s, tid, w, if failed then TaskFailed else TaskDone);
    } else {
      KeptGrown(s, Settle(s, tid, w, failed));
    }
  }

  predicate Quietly(op: Op) { !op.SettleTask? && !op.RebalanceWorker? }

  /** Only reports and rebalances call the hook or end a job. */
  lemma OthersKeepStatus(s: State, op: Op, s': State)
    requires Next(s, op, s') && Quietly(op)
    ensures StatusKept(s, s')
  {
    if op.SubmitJob? {
      SubmitRest(s, op, s');
    } else if op.DrainPending? {
      var k := Min(op.n, |s.pendingQ|);
      DrainKeepsStatus(s.(pendingQ := s.pendingQ[k..]), s.pendingQ[..k]);
    }
  }

  lemma StepGrown(s: State, op: Op, s': State)
    requires Called(s) && Next(s, op, s')
    ensures Grown(s, s')
  {
    match op
    case SettleTask(tid, w, failed) => SettleGrown(s, tid, w, failed);
    case RebalanceWorker(_, order) => ReclaimGrown(s, order);
    case _ =>
      OthersKeepStatus(s, op, s');
      KeptGrown(s, s');
  }

  /** In every run, whatever is called, the hook has been called for exactly the
      terminal jobs. */
  lemma {:induction false} RunsCall(hs: seq<History>, ops: seq<Op>, k: nat)
    requires Run(hs, ops) && k < |hs|
    ensures Called(hs[k].s)
  {
    if k > 0 {
      RunsCall(hs, ops, k - 1);
      StepGrown(hs[k - 1].s, ops[k - 1], hs[k].s);
    }
  }

  lemma RunGrown(hs: seq<History>, ops: seq<Op>, i: nat)
    requires Run(hs, ops) && i < |ops|
    ensures Called(hs[i].s) && Grown(hs[i].s, hs[i + 1].s)
  {
    RunsCall(hs, ops, i);
    StepGrown(hs[i].s, ops[i], hs[i + 1].s);
  }

  predicate TerminalJob(s: State, j: JobId) { j in s.jobs && Terminal(s.jobs[j]) }

  lemma GrownStays(s: State, s': State, j: JobId)
    requires Called(s) && Grown(s, s') && TerminalJob(s, j)
    ensures TerminalJob(s', j)
  {
    assert JobCalled(s, j) && JobCalled(s', j);
  }

  lemma RunStepStays(hs: seq<History>, ops: seq<Op>, i: nat, j: JobId)
    requires Run(hs, ops) && i < |ops| && TerminalJob(hs[i].s, j)
    ensures TerminalJob(hs[i + 1].s, j)
  {
    RunGrown(hs, ops, i);
    GrownStays(hs[i].s, hs[i + 1].s, j);
  }

  /** In every run a job once terminal stays terminal, even when a late start reopens
      one of its tasks. */
  lemma {:induction false} TerminalStays(hs: seq<History>, ops: seq<Op>, k: nat, m: nat, j: JobId)
    requires Run(hs, ops) && k <= m < |hs| && TerminalJob(hs[k].s, j)
    ensures TerminalJob(hs[m].s, j)
  {
    if k < m {
      TerminalStays(hs, ops, k, m - 1, j);
      RunStepStays(hs, ops, m - 1, j);
    }
  }

  /******* The calls that call it again *******/

  /** A report that finishes the task. */
  predicate Finishes(s: State, tid: TaskId, failed: bool) {
    tid in s.tasks && !s.tasks[tid].status.TaskDone? && !(failed && HasRetry(s, tid))
  }

  /** The rebalance fails all of the job's open tasks, and there are some. */
  predicate Emptied(s: State, order: seq<TaskId>, j: JobId) {
    OpenTasks(s, j) != {} && forall tid <- OpenTasks(s, j) :: tid in order && !HasRetry(s, tid)
  }

  /** A report that finishes the last task of a terminal job, or a task of one with
      none open; or a rebalance that fails all its open tasks. */
  predicate Repeats(s: State, op: Op) {
    match op
    case SettleTask(tid, _, failed) =>
      && Finishes(s, tid, failed)
      && TerminalJob(s, s.tasks[tid].jobId) && OpenTasks(s, s.tasks[tid].jobId) <= {tid}
    case RebalanceWorker(_, order) => exists j <- s.jobs :: TerminalJob(s, j) && Emptied(s, order, j)
    case _ => false
  }

  /** What a report adds to the calls. */
  lemma SettleCalls(s: State, tid: TaskId, w: WorkerId, failed: bool)
    requires Filed(s)
    ensures Settle(s, tid, w, failed).doneCalls ==
              if Finishes(s, tid, failed) && OpenTasks(s, s.tasks[tid].jobId) <= {tid}
              then s.doneCalls + [s.tasks[tid].jobId] else s.doneCalls
  {
    if Finishes(s, tid, failed) {
      var status := if failed then TaskFailed else TaskDone;
      FinishCalls(s, tid, w, status);
    }
  }

  lemma FinishCalls(s: State, tid: TaskId, w: WorkerId, status: TaskStatus)
    requires Filed(s) && tid in s.tasks && (status.TaskDone? || status.TaskFailed?)
    ensures Finish(s, tid, w, status).doneCalls ==
              if OpenTasks(s, s.tasks[tid].jobId) <= {tid} then s.doneCalls + [s.tasks[tid].jobId] else s.doneCalls
  {
    var j := s.tasks[tid].jobId;
    var mid := s.(tasks := s.tasks[tid := s.tasks[tid].(status := status, workerId := w)]);
    assert OpenTasks(mid, j) == OpenTasks(s, j) - {tid};
  }

  /** A report calls the hook of a job that had its call exactly when it repeats. */
  lemma HookFiresAgain(s: State, tid: TaskId, w: WorkerId, failed: bool)
    requires Filed(s) && Called(s) && NoRepeats(s.doneCalls)
    ensures NoRepeats(Settle(s, tid, w, failed).doneCalls) <==> !Repeats(s, SettleTask(tid, w, failed))
  {
    SettleCalls(s, tid, w, failed);
    if tid in s.tasks {
      var j := s.tasks[tid].jobId;
      assert JobCalled(s, j) && j in [j];
      AppendedOnce(s.doneCalls, [j]);
    }
  }

  /** What a rebalance adds to the calls: each job it empties, once. */
  lemma {:induction false} ReclaimCalls(s: State, order: seq<TaskId>) returns (calls: seq<JobId>)
    requires Filed(s) && NoRepeats(order)
    requires forall k :: 0 <= k < |order| ==> order[k] in s.tasks && !s.tasks[order[k]].Settled()
    ensures ReclaimAll(s, order).doneCalls == s.doneCalls + calls
    ensures NoRepeats(calls) && forall j :: j in calls <==> Emptied(s, order, j)
  {
    if order == [] {
      calls := [];
    } else {
      var n := |order| - 1;
      var tid, before := order[n], ReclaimAll(s, order[..n]);
      var j := s.tasks[tid].jobId;
      calls := ReclaimCalls(s, order[..n]);
      assert tid !in order[..n];
      ReclaimedTask(s, order[..n], tid);
      ReclaimedJobs(s, order[..n]);
      EmptiedLater(s, order, j);
      if !HasRetry(s, tid) {
        FinishCalls(before, tid, before.tasks[tid].workerId, TaskFailed);
        OpenAfter(s, order, j);
        if Emptied(s, order, j) {
          assert (calls + [j])[|calls|] == j;
          AppendedOnce(calls, [j]);
          calls := calls + [j];
        }
      }
    }
  }

  /** Visiting one more open task empties at most its own job. */
  lemma EmptiedLater(s: State, order: seq<TaskId>, j: JobId)
    requires order != [] && NoRepeats(order) && order[|order| - 1] in s.tasks && !s.tasks[order[|order| - 1]].Settled()
    requires j == s.tasks[order[|order| - 1]].jobId
    ensures !Emptied(s, order[..|order| - 1], j)
    ensures HasRetry(s, order[|order| - 1]) ==> !Emptied(s, order, j)
    ensures forall i :: i != j ==> (Emptied(s, order[..|order| - 1], i) <==> Emptied(s, order, i))
  {
    var n := |order| - 1;
    assert order == order[..n] + [order[n]];
    assert order[n] in OpenTasks(s, j) && order[n] !in order[..n];
    forall i | i != j ensures Emptied(s, order[..n], i) <==> Emptied(s, order, i) {
      assert order[n] !in OpenTasks(s, i);
    }
  }

  /** What is open when the walk comes to its last task. */
  lemma OpenAfter(s: State, order: seq<TaskId>, j: JobId)
    requires order != [] && NoRepeats(order) && forall k :: 0 <= k < |order| ==> order[k] in s.tasks && !s.tasks[order[k]].Settled()
    requires var tid := order[|order| - 1]; j == s.tasks[tid].jobId && !HasRetry(s, tid)
    ensures OpenTasks(ReclaimAll(s, order[..|order| - 1]), j) <= {order[|order| - 1]} <==> Emptied(s, order, j)
  {
    var n := |order| - 1;
    var before := ReclaimAll(s, order[..n]);
    assert order == order[..n] + [order[n]];
    assert order[n] in OpenTasks(s, j);
    forall tid <- s.tasks
      ensures tid in OpenTasks(before, j) <==> tid in OpenTasks(s, j) && !(tid in order[..n] && !HasRetry(s, tid))
    {
      ReclaimedTask(s, order[..n], tid);
    }
    ReclaimedTask(s, order[..n], order[n]);
    assert forall tid <- OpenTasks(before, j) :: tid in s.tasks;
    if OpenTasks(before, j) <= {order[n]} {
      forall tid <- OpenTasks(s, j) ensures tid in order && !HasRetry(s, tid) {
        assert tid in OpenTasks(before, j) ==> tid == order[n];
      }
    }
  }

  /** A rebalance calls the hook of a job that had its call exactly when it empties a
      terminal one. */
  lemma RebalanceCallsOnce(s: State, w: WorkerId, order: seq<TaskId>)
    requires Filed(s) && Called(s) && NoRepeats(s.doneCalls) && WalkOf(s, w, order)
    ensures NoRepeats(ReclaimAll(s, order).doneCalls) <==> !Repeats(s, RebalanceWorker(w, order))
  {
    assert forall k :: 0 <= k < |order| ==> HeldBy(s, order[k], w);
    var calls := ReclaimCalls(s, order);
    AppendedOnce(s.doneCalls, calls);
    forall j <- calls ensures j in s.jobs && JobCalled(s, j) {
      var tid :| tid in OpenTasks(s, j);
    }
  }

  lemma StepCallsOnce(s: State, op: Op, s': State)
    requires Filed(s) && Called(s) && NoRepeats(s.doneCalls) && Next(s, op, s')
    ensures NoRepeats(s'.doneCalls) <==> !Repeats(s, op)
  {
    match op
    case SettleTask(tid, w, failed) => HookFiresAgain(s, tid, w, failed);
    case RebalanceWorker(w, order) => RebalanceCallsOnce(s, w, order);
    case _ => OthersKeepStatus(s, op, s');
  }

  lemma RunStepCallsOnce(hs: seq<History>, ops: seq<Op>, i: nat)
    requires Run(hs, ops) && i < |ops|
    ensures NoRepeats(hs[i + 1].s.doneCalls) <==> NoRepeats(hs[i].s.doneCalls) && !Repeats(hs[i].s, ops[i])
  {
    RunGrown(hs, ops, i);
    RunsKeepBooks(hs, ops, i);
    if NoRepeats(hs[i].s.doneCalls) { StepCallsOnce(hs[i].s, ops[i], hs[i + 1].s); }
  }

  ghost predicate NeverRepeats(hs: seq<History>, ops: seq<Op>, m: nat) {
    m <= |ops| && m < |hs| && forall i :: 0 <= i < m ==> !Repeats(hs[i].s, ops[i])
  }

  lemma NeverRepeatsNext(hs: seq<History>, ops: seq<Op>, m: nat)
    requires 0 < m < |hs| && m <= |ops|
    ensures NeverRepeats(hs, ops, m) <==> NeverRepeats(hs, ops, m - 1) && !Repeats(hs[m - 1].s, ops[m - 1])
  {
  }

  /** In every run, whatever is called and however late, the hook has been called at most
      once for each job if and only if no call was one of those two. */
  lemma {:induction false} HookOnceExactly(hs: seq<History>, ops: seq<Op>, m: nat)
    requires Run(hs, ops) && m < |hs|
    ensures NoRepeats(hs[m].s.doneCalls) <==> NeverRepeats(hs, ops, m)
  {
    if m > 0 {
      HookOnceExactly(hs, ops, m - 1);
      RunStepCallsOnce(hs, ops, m - 1);
      NeverRepeatsNext(hs, ops, m);
    }
  }

  /******* With timely starts, and without *******/

  /** A report that reaches a failed task of a terminal job. */
  predicate Refires(s: State, op: Op) {
    op.SettleTask? && op.tid in s.tasks && s.tasks[op.tid].status.TaskFailed? && TerminalJob(s, s.tasks[op.tid].jobId)
  }

  /** While closed jobs have no open task only such a report calls the hook again. */
  lemma ClosedRepeats(s: State, op: Op)
    requires Filed(s) && Closed(s) && forall tid <- s.tasks :: RetriesRight(s.tasks[tid])
    ensures Repeats(s, op) <==> Refires(s, op)
  {
    if op.SettleTask? && op.tid in s.tasks {
      assert JobClosed(s, s.tasks[op.tid].jobId);
      if !s.tasks[op.tid].Settled() { OpenTaskOpenJob(s, op.tid); }
      assert RetriesRight(s.tasks[op.tid]);
    } else if op.RebalanceWorker? {
      forall j <- s.jobs ensures !(TerminalJob(s, j) && Emptied(s, op.order, j)) {
        assert JobClosed(s, j);
      }
    }
  }

  /** So with timely starts the hook is called at most once for each job if and only if
      no report reached a failed task of a terminal job. */
  lemma HookOnceTimely(hs: seq<History>, ops: seq<Op>, m: nat)
    requires Run(hs, ops) && m < |hs| && forall i :: 0 <= i < m ==> Timely(hs[i].s, ops[i])
    ensures NoRepeats(hs[m].s.doneCalls) <==> forall i :: 0 <= i < m ==> !Refires(hs[i].s, ops[i])
  {
    HookOnceExactly(hs, ops, m);
    forall i | 0 <= i < m ensures Repeats(hs[i].s, ops[i]) <==> Refires(hs[i].s, ops[i]) {
      RunsCloseJobs(hs, ops, i);
      RunsKeepBooks(hs, ops, i);
      ClosedRepeats(hs[i].s, ops[i]);
    }
  }

  /** A late start in a closed terminal job makes the call repeat though no failed task
      is reported: by a success report of the task, or by a rebalance of its worker when
      no retry is left. */
  lemma LateStartRepeats(s: State, tid: TaskId, w: WorkerId)
    requires Filed(s) && Closed(s) && tid in s.tasks && Terminal(s.jobs[s.tasks[tid].jobId])
    ensures var started := Start(s, tid);
            && Repeats(started, SettleTask(tid, w, false)) && !Refires(started, SettleTask(tid, w, false))
            && HeldBy(started, tid, s.tasks[tid].workerId)
            && (!HasRetry(s, tid) ==>
                  forall order | tid in order :: Repeats(started, RebalanceWorker(s.tasks[tid].workerId, order)))
  {
    var started, j := Start(s, tid), s.tasks[tid].jobId;
    assert JobClosed(s, j);
    assert tid in OpenTasks(started, j);
    assert forall u <- OpenTasks(started, j) :: u != tid ==> u in OpenTasks(s, j);
    assert OpenTasks(started, j) == {tid};
    if !HasRetry(s, tid) {
      forall order | tid in order ensures Repeats(started, RebalanceWorker(s.tasks[tid].workerId, order)) {
        assert TerminalJob(started, j) && Emptied(started, order, j);
      }
    }
  }
}
