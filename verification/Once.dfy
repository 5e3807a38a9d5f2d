/** The scheduler queues a task once, and exactly when it queues one twice
    (internal/scheduler/scheduler.go). */
module Once {
  import opened Util
  import opened Tasks
  import opened SchedulerSpec
  import opened SchedulerRuns
  import opened JobBooks

  /******* The queue *******/

  ghost predicate QueueKnown(s: State) { forall id <- s.pendingQ :: id in s.tasks }

  predicate HasRetry(s: State, tid: TaskId) {
    tid in s.tasks && s.tasks[tid].retries < s.tasks[tid].maxRetries
  }

  /** The call puts an id in the queue that is there already: an error report with a
      retry left, or a rebalance, for a task still queued. */
  predicate Doubles(s: State, op: Op) {
    match op
    case SettleTask(tid, _, failed) =>
      failed && HasRetry(s, tid) && !s.tasks[tid].status.TaskDone? && tid in s.pendingQ
    case RebalanceWorker(_, order) => exists i :: 0 <= i < |order| && HasRetry(s, order[i]) && order[i] in s.pendingQ
    case _ => false
  }

  /** What a rebalance queues again. */
  function Requeued(s: State, order: seq<TaskId>): seq<TaskId> {
    if order == [] then [] else
      var before, last := Requeued(s, order[..|order| - 1]), order[|order| - 1];
      if HasRetry(s, last) then before + [last] else before
  }

  lemma {:induction false} RequeuedAre(s: State, order: seq<TaskId>)
    requires NoRepeats(order)
    ensures NoRepeats(Requeued(s, order))
    ensures forall x :: x in Requeued(s, order) <==> exists i :: 0 <= i < |order| && order[i] == x && HasRetry(s, x)
  {
    if order != [] {
      var n := |order| - 1;
      RequeuedAre(s, order[..n]);
      assert order == order[..n] + [order[n]];
    }
  }

  lemma {:induction false} ReclaimQueues(s: State, order: seq<TaskId>)
    requires NoRepeats(order) && forall i :: 0 <= i < |order| ==> order[i] in s.tasks
    ensures ReclaimAll(s, order).pendingQ == s.pendingQ + Requeued(s, order)
  {
    if order != [] {
      var n := |order| - 1;
      ReclaimQueues(s, order[..n]);
      ReclaimedTask(s, order[..n], order[n]);
      assert order[n] !in order[..n];
    }
  }

  lemma RebalanceOnce(s: State, w: WorkerId, order: seq<TaskId>)
    requires NoRepeats(s.pendingQ) && WalkOf(s, w, order)
    ensures NoRepeats(ReclaimAll(s, order).pendingQ) <==> !Doubles(s, RebalanceWorker(w, order))
  {
    assert forall i :: 0 <= i < |order| ==> HeldBy(s, order[i], w);
    ReclaimQueues(s, order);
    RequeuedAre(s, order);
    AppendedOnce(s.pendingQ, Requeued(s, order));
    if Doubles(s, RebalanceWorker(w, order)) {
      var i :| 0 <= i < |order| && HasRetry(s, order[i]) && order[i] in s.pendingQ;
      assert order[i] in Requeued(s, order);
    }
  }

  lemma SettleOnce(s: State, tid: TaskId, w: WorkerId, failed: bool)
    requires NoRepeats(s.pendingQ)
    ensures NoRepeats(Settle(s, tid, w, failed).pendingQ) <==> !Doubles(s, SettleTask(tid, w, failed))
  {
    AppendedOnce(s.pendingQ, [tid]);
    assert tid in [tid];
  }

  lemma SubmitOnce(s: State, op: Op, s': State)
    requires op.SubmitJob? && Next(s, op, s') && QueueKnown(s) && NoRepeats(s.pendingQ)
    ensures NoRepeats(s'.pendingQ)
  {
    var job := Job(op.j, op.priority, JobRunning, op.shards, |op.shards|, 0, 0);
    AddedQueue(s.(jobs := s.jobs[op.j := job]), op.j, op.priority, op.maxRetries, op.shards, op.ids);
    AppendedOnce(s.pendingQ, op.ids);
  }

  lemma {:induction false} DrainQueues(s: State, ids: seq<TaskId>)
    ensures DrainAll(s, ids).pendingQ == s.pendingQ && DrainAll(s, ids).tasks.Keys == s.tasks.Keys
  {
    if ids != [] { DrainQueues(s, ids[..|ids| - 1]); }
  }

  lemma CutOnce(q: seq<TaskId>, i: nat)
    requires NoRepeats(q) && i < |q|
    ensures NoRepeats(q[..i] + q[i + 1..]) && forall x <- q[..i] + q[i + 1..] :: x in q
  {
  }

  /** A call keeps the queue free of repetitions if and only if it does not queue an
      id again that is still queued. */
  lemma StepOnce(s: State, op: Op, s': State)
    requires Next(s, op, s') && QueueKnown(s) && NoRepeats(s.pendingQ)
    ensures NoRepeats(s'.pendingQ) <==> !Doubles(s, op)
  {
    match op
    case SubmitJob(_, _, _, _, _) => SubmitOnce(s, op, s');
    case Poll(w, _, choice) =>
      if choice.Take? { CutOnce(s.pendingQ, choice.index); }
    case SettleTask(tid, w, failed) => SettleOnce(s, tid, w, failed);
    case RebalanceWorker(w, order) => RebalanceOnce(s, w, order);
    case DrainPending(n) =>
      var k := Min(n, |s.pendingQ|);
      DrainQueues(s.(pendingQ := s.pendingQ[k..]), s.pendingQ[..k]);
    case _ =>
  }

  lemma RebalanceKnown(s: State, w: WorkerId, order: seq<TaskId>)
    requires QueueKnown(s) && WalkOf(s, w, order)
    ensures QueueKnown(ReclaimAll(s, order))
  {
    assert forall i :: 0 <= i < |order| ==> HeldBy(s, order[i], w);
    ReclaimQueues(s, order);
    RequeuedAre(s, order);
    ReclaimedQueue(s, order);
  }

  lemma SubmitKnown(s: State, op: Op, s': State)
    requires op.SubmitJob? && Next(s, op, s') && QueueKnown(s)
    ensures QueueKnown(s')
  {
    var s0 := s.(jobs := s.jobs[op.j := Job(op.j, op.priority, JobRunning, op.shards, |op.shards|, 0, 0)]);
    AddedQueue(s0, op.j, op.priority, op.maxRetries, op.shards, op.ids);
    forall id <- s'.pendingQ ensures id in s'.tasks {
      AddedTask(s0, op.j, op.priority, op.maxRetries, op.shards, op.ids, id);
    }
  }

  lemma StepKnown(s: State, op: Op, s': State)
    requires Next(s, op, s') && QueueKnown(s)
    ensures QueueKnown(s')
  {
    match op
    case SubmitJob(_, _, _, _, _) => SubmitKnown(s, op, s');
    case RebalanceWorker(w, order) => RebalanceKnown(s, w, order);
    case DrainPending(n) =>
      var k := Min(n, |s.pendingQ|);
      DrainQueues(s.(pendingQ := s.pendingQ[k..]), s.pendingQ[..k]);
    case _ =>
  }

  lemma {:induction false} RunsKnowQueue(hs: seq<History>, ops: seq<Op>, m: nat)
    requires Run(hs, ops) && m < |hs|
    ensures QueueKnown(hs[m].s)
  {
    if m > 0 {
      RunsKnowQueue(hs, ops, m - 1);
      StepKnown(hs[m - 1].s, ops[m - 1], hs[m].s);
    }
  }

  lemma RunStepOnce(hs: seq<History>, ops: seq<Op>, i: nat)
    requires Run(hs, ops) && i < |ops| && NoRepeats(hs[i].s.pendingQ)
    ensures NoRepeats(hs[i + 1].s.pendingQ) <==> !Doubles(hs[i].s, ops[i])
  {
    RunsKnowQueue(hs, ops, i);
    StepOnce(hs[i].s, ops[i], hs[i + 1].s);
  }

  ghost predicate OnceUpTo(hs: seq<History>, m: nat) {
    m < |hs| && forall k :: 0 <= k <= m ==> NoRepeats(hs[k].s.pendingQ)
  }

  /** In every run the queue holds each id at most once, up to any moment, if and only
      if no call before it queued an id that was still queued. */
  lemma {:induction false} QueuedOnceExactly(hs: seq<History>, ops: seq<Op>, m: nat)
    requires Run(hs, ops) && m < |hs|
    ensures OnceUpTo(hs, m) <==> forall i :: 0 <= i < m ==> !Doubles(hs[i].s, ops[i])
  {
    if m > 0 {
      QueuedOnceExactly(hs, ops, m - 1);
      if OnceUpTo(hs, m - 1) { RunStepOnce(hs, ops, m - 1); }
      assert OnceUpTo(hs, m) <==> OnceUpTo(hs, m - 1) && NoRepeats(hs[m].s.pendingQ);
    }
  }

  /** It happens, and not only by a repeated error report: a start of a queued task
      followed by its only error report, or by a rebalance of its recorded worker. */
  lemma LateStartQueuesTwice(s: State, tid: TaskId, w: WorkerId)
    requires HasRetry(s, tid) && tid in s.pendingQ
    ensures var started := Start(s, tid);
            && Doubles(started, SettleTask(tid, w, true))
            && HeldBy(started, tid, s.tasks[tid].workerId)
            && forall order | tid in order :: Doubles(started, RebalanceWorker(s.tasks[tid].workerId, order))
  {
    var started := Start(s, tid);
    forall order | tid in order ensures Doubles(started, RebalanceWorker(s.tasks[tid].workerId, order)) {
      var i :| 0 <= i < |order| && order[i] == tid;
      assert HasRetry(started, order[i]) && order[i] in started.pendingQ;
    }
  }

  lemma SecondErrorQueuesTwice(s: State, tid: TaskId, w: WorkerId)
    requires tid in s.tasks && !s.tasks[tid].status.TaskDone? && s.tasks[tid].retries + 1 < s.tasks[tid].maxRetries
    ensures Doubles(Settle(s, tid, w, true), SettleTask(tid, w, true))
  {
    assert (s.pendingQ + [tid])[|s.pendingQ|] == tid;
  }
}
