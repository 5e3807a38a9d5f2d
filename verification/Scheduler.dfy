/** The coordinator's scheduler (internal/scheduler/scheduler.go). Each method is
    one critical section of the source and is proved to take the matching step of
    SchedulerSpec. A task record is a value in the tasks map; where Go walks a map
    the walk here takes the keys in an arbitrary order. */
module Scheduler {
  import opened Util
  import opened Tasks
  import opened SchedulerSpec

  class Scheduler {
    var jobs: map<JobId, Job>
    var tasks: map<TaskId, Task>
    var pendingQ: seq<TaskId>
    var leaseChunk: int
    var doneCalls: seq<JobId>
    const maxRetries: int

    ghost function Contents(): State
      reads this
    {
      State(jobs, tasks, pendingQ, leaseChunk, doneCalls)
    }

    /** Every task is filed under its own id and belongs to a known job. */
    ghost predicate Valid()
      reads this
    {
      forall tid <- tasks :: tasks[tid].id == tid && tasks[tid].jobId in jobs
    }

    constructor (maxRetries: int)
      ensures Valid()
      ensures Contents() == State(map[], map[], [], 1000, [])
      ensures this.maxRetries == maxRetries
    {
      jobs, tasks, pendingQ, leaseChunk, doneCalls := map[], map[], [], 1000, [];
      this.maxRetries := maxRetries;
    }

    method SetLeaseChunk(n: int)
      requires Valid()
      modifies this`leaseChunk
      ensures Valid() && Next(old(Contents()), Op.SetLeaseChunk(n), Contents())
    {
      if n <= 0 { return; }
      leaseChunk := n;
    }

    method Submit(j: JobId, priority: int, requested: seq<Shard>, allShards: seq<Shard>, ids: seq<TaskId>)
      requires Valid()
      requires FreshIds(Contents(), j, if |requested| == 0 then allShards else requested, ids)
      modifies this
      ensures Valid()
      ensures Next(old(Contents()),
                   SubmitJob(j, priority, maxRetries, if |requested| == 0 then allShards else requested, ids),
                   Contents())
    {
      var shards := requested;
      if |shards| == 0 { shards := allShards; }
      jobs := jobs[j := Job(j, priority, JobRunning, shards, |shards|, 0, 0)];
      ghost var start := Contents();
      for k := 0 to |shards|
        invariant Valid() && j in jobs
        invariant Contents() == AddTasks(start, j, priority, maxRetries, shards[..k], ids[..k])
      {
        AddsOneMore(start, j, priority, maxRetries, shards, ids, k);
        tasks := tasks[ids[k] := FreshTask(ids[k], j, shards[k], priority, maxRetries)];
        pendingQ := pendingQ + [ids[k]];
      }
      assert shards[..|shards|] == shards && ids[..|ids|] == ids;
    }

    /** The index to take from the queue, negative when nothing is pending. */
    method PickPending(w: WorkerId, owner: Shard -> WorkerId) returns (idx: int)
      ensures idx >= 0 ==> LegalPick(Contents(), w, owner, idx)
      ensures idx < 0 ==> forall i :: 0 <= i < |pendingQ| ==> !Pollable(Contents(), i)
    {
      var fallback, fallbackPri := -1, 0;
      for i := 0 to |pendingQ|
        invariant forall k :: 0 <= k < i ==> !Local(Contents(), w, owner, k)
        invariant fallback < 0 ==> forall k :: 0 <= k < i ==> !Pollable(Contents(), k)
        invariant fallback >= 0 ==>
                    && fallback < i && Pollable(Contents(), fallback)
                    && fallbackPri == Queued(Contents(), fallback).priority
                    && (forall k :: 0 <= k < i && Pollable(Contents(), k) ==> Queued(Contents(), k).priority <= fallbackPri)
                    && (forall k :: 0 <= k < fallback && Pollable(Contents(), k) ==> Queued(Contents(), k).priority < fallbackPri)
      {
        var tid := pendingQ[i];
        if tid in tasks && tasks[tid].status.TaskPending? {
          var t := tasks[tid];
          if owner(t.shard) == w {
            return i;
          }
          if fallback < 0 || t.priority > fallbackPri {
            fallback, fallbackPri := i, t.priority;
          }
        }
      }
      return fallback;
    }

    /** The task with the longest un-granted tail, when that tail can be split. */
    method FindVictim() returns (victim: Option<TaskId>)
      ensures victim.Some? ==> LegalVictim(Contents(), victim.value)
      ensures victim.None? ==> forall v :: !LegalVictim(Contents(), v)
    {
      victim := None;
      var bestTail := 0;
      var unseen := tasks.Keys;
      while unseen != {}
        invariant unseen <= tasks.Keys && bestTail >= 0
        invariant victim.None? ==> bestTail == 0
        invariant victim.Some? ==> Splittable(Contents(), victim.value) && tasks[victim.value].Tail() == bestTail
        invariant forall u :: Splittable(Contents(), u) && u !in unseen ==> tasks[u].Tail() <= bestTail
        decreases |unseen|
      {
        var tid :| tid in unseen;
        unseen := unseen - {tid};
        var t := tasks[tid];
        if t.InFlight() && t.rangeEnd >= 0 && t.rangeEnd - t.granted > bestTail {
          bestTail, victim := t.rangeEnd - t.granted, Some(tid);
        }
      }
      if victim.None? || bestTail < MIN_STEAL_ITEMS {
        victim := None;
      }
    }

    method StealTail(v: TaskId, newId: TaskId)
      requires Valid() && LegalVictim(Contents(), v) && newId !in tasks
      modifies this`tasks, this`jobs
      ensures Valid()
      ensures Contents() == Steal(old(Contents()), v, newId)
    {
      var victim := tasks[v];
      var at := victim.granted + (victim.rangeEnd - victim.granted) / 2;
      var stolen := Task(newId, victim.jobId, victim.shard, "", TaskPending, 0, 0, victim.maxRetries,
                         at, victim.rangeEnd, at, at, 0, true);
      victim := victim.(rangeEnd := at, generation := victim.generation + 1, split := true);
      // No leased item changes hands and the two ranges meet.
      assert stolen.rangeStart > victim.granted && victim.rangeEnd == stolen.rangeStart;
      tasks := tasks[v := victim][newId := stolen];
      if victim.jobId in jobs {
        var job := jobs[victim.jobId];
        jobs := jobs[victim.jobId := job.(totalTasks := job.totalTasks + 1)];
      }
    }

    method AssignTask(tid: TaskId, w: WorkerId) returns (a: Assignment)
      requires Valid() && tid in tasks
      modifies this`tasks
      ensures Valid()
      ensures Contents() == Assign(old(Contents()), tid, w)
      ensures var t := old(tasks[tid]);
              a == Assignment(tid, t.jobId, t.shard, t.rangeStart, t.rangeEnd,
                              Max(t.granted, UpTo(t.frontier + leaseChunk, t.rangeEnd)), t.generation, t.split)
      ensures a == AssignmentFor(tasks[tid])
    {
      var t := tasks[tid].(status := TaskAssigned, workerId := w);
      t := Grant(t, leaseChunk);
      tasks := tasks[tid := t];
      a := AssignmentFor(t);
    }

    method PollTasks(w: WorkerId, owner: Shard -> WorkerId, newId: TaskId)
      returns (a: Option<Assignment>, ghost choice: Choice)
      requires Valid() && newId !in tasks
      modifies this`tasks, this`jobs, this`pendingQ
      ensures Valid()
      ensures Next(old(Contents()), Poll(w, owner, choice), Contents())
      ensures a.None? <==> choice.Nothing?
      ensures a.Some? ==> Chosen(old(Contents()), choice) in tasks
                          && a.value == AssignmentFor(tasks[Chosen(old(Contents()), choice)])
    {
      var idx := PickPending(w, owner);
      if idx < 0 {
        var v := FindVictim();
        if v.None? {
          a, choice := None, Nothing;
          return;
        }
        StealTail(v.value, newId);
        var given := AssignTask(newId, w);
        a, choice := Some(given), StealFrom(v.value, newId);
        return;
      }
      var tid := pendingQ[idx];
      choice := Take(idx);
      pendingQ := pendingQ[..idx] + pendingQ[idx + 1..];
      var given := AssignTask(tid, w);
      a := Some(given);
    }

    method StartTask(tid: TaskId) returns (found: bool)
      requires Valid()
      modifies this`tasks
      ensures Valid() && found == (tid in old(tasks))
      ensures Next(old(Contents()), Op.StartTask(tid), Contents())
    {
      found := tid in tasks;
      if !found { return; }
      tasks := tasks[tid := tasks[tid].(status := TaskRunning)];
    }

    /** How many of the job's tasks are open, done and failed. */
    method CountTasks(j: JobId) returns (pending: nat, done: nat, failed: nat)
      ensures pending == |OpenTasks(Contents(), j)|
      ensures done == |WithStatus(Contents(), j, TaskDone)|
      ensures failed == |WithStatus(Contents(), j, TaskFailed)|
    {
      pending, done, failed := 0, 0, 0;
      ghost var open: set<TaskId>, dones: set<TaskId>, fails: set<TaskId> := {}, {}, {};
      var unseen := tasks.Keys;
      while unseen != {}
        invariant unseen <= tasks.Keys
        invariant pending == |open| && done == |dones| && failed == |fails|
        invariant forall tid :: tid in open <==> tid in tasks && tid !in unseen && tasks[tid].jobId == j && !tasks[tid].Settled()
        invariant forall tid :: tid in dones <==> tid in tasks && tid !in unseen && tasks[tid].jobId == j && tasks[tid].status.TaskDone?
        invariant forall tid :: tid in fails <==> tid in tasks && tid !in unseen && tasks[tid].jobId == j && tasks[tid].status.TaskFailed?
        decreases |unseen|
      {
        var tid :| tid in unseen;
        unseen := unseen - {tid};
        if tasks[tid].jobId == j {
          match tasks[tid].status
          case TaskDone => done, dones := done + 1, dones + {tid};
          case TaskFailed => failed, fails := failed + 1, fails + {tid};
          case _ => pending, open := pending + 1, open + {tid};
        }
      }
      assert open == OpenTasks(Contents(), j);
      assert dones == WithStatus(Contents(), j, TaskDone);
      assert fails == WithStatus(Contents(), j, TaskFailed);
    }

    /** Recounts the job's tasks and closes the job when none is open. */
    method UpdateJob(j: JobId)
      requires Valid()
      modifies this`jobs, this`doneCalls
      ensures Valid()
      ensures Contents() == SchedulerSpec.UpdateJob(old(Contents()), j)
      ensures j in jobs && (forall tid <- tasks :: tasks[tid].jobId == j ==> tasks[tid].Settled()) ==>
                && doneCalls == old(doneCalls) + [j]
                && (jobs[j].status == JobFailed <==> exists tid :: tid in tasks && tasks[tid].jobId == j && tasks[tid].status.TaskFailed?)
                && (jobs[j].status == JobFailed || jobs[j].status == JobCompleted)
    {
      if j !in jobs { return; }
      var pending, done, failed := CountTasks(j);
      assert pending == 0 <==> forall tid <- tasks :: tasks[tid].jobId == j ==> tasks[tid].Settled() by {
        assert forall tid :: tid in tasks && tasks[tid].jobId == j && !tasks[tid].Settled() <==> tid in OpenTasks(Contents(), j);
      }
      assert failed > 0 <==> exists tid :: tid in tasks && tasks[tid].jobId == j && tasks[tid].status.TaskFailed? by {
        assert forall tid :: tid in tasks && tasks[tid].jobId == j && tasks[tid].status.TaskFailed? <==> tid in WithStatus(Contents(), j, TaskFailed);
      }
      jobs := jobs[j := jobs[j].(doneTasks := done, failedTasks := failed)];
      if pending > 0 { return; }
      jobs := jobs[j := jobs[j].(status := if failed > 0 then JobFailed else JobCompleted)];
      doneCalls := doneCalls + [j];
    }

    method RequeueTask(tid: TaskId)
      requires Valid() && tid in tasks
      modifies this`tasks, this`pendingQ
      ensures Valid()
      ensures Contents() == Requeue(old(Contents()), tid)
    {
      var t := tasks[tid];
      t := t.(retries := t.retries + 1, status := TaskPending, workerId := "");
      tasks := tasks[tid := ResetLease(t)];
      pendingQ := pendingQ + [tid];
    }

    /** The locked phases of ReportResult: the first decides whether the report
        goes on, the last records the outcome. The work between them is the
        Commit protocol's. */
    method BeginReport(tid: TaskId) returns (goesOn: bool)
      ensures goesOn == (tid in tasks && !tasks[tid].status.TaskDone?)
    {
      if tid !in tasks { return false; }
      return !tasks[tid].status.TaskDone?;
    }

    method EndReport(tid: TaskId, w: WorkerId, failed: bool)
      requires Valid()
      modifies this`jobs, this`tasks, this`pendingQ, this`doneCalls
      ensures Valid()
      ensures Next(old(Contents()), SettleTask(tid, w, failed), Contents())
    {
      if tid !in tasks || tasks[tid].status.TaskDone? { return; }
      if failed {
        if tasks[tid].retries < tasks[tid].maxRetries {
          RequeueTask(tid);
          return;
        }
        tasks := tasks[tid := tasks[tid].(workerId := w, status := TaskFailed)];
        UpdateJob(tasks[tid].jobId);
        return;
      }
      tasks := tasks[tid := tasks[tid].(workerId := w, status := TaskDone)];
      UpdateJob(tasks[tid].jobId);
    }

    method RenewLease(tid: TaskId, generation: int, frontier: int, total: int) returns (r: Option<Renewal>)
      requires Valid()
      modifies this`tasks
      ensures Valid()
      ensures Next(old(Contents()), Op.RenewLease(tid, frontier, total), Contents())
      ensures r.Some? <==> tid in old(tasks)
      ensures r.Some? ==> r.value == Renewal(tasks[tid].generation, tasks[tid].granted, generation < tasks[tid].generation)
      ensures r.Some? ==>
                Regranted(old(tasks)[tid], frontier, total, leaseChunk, r.value.bound)
    {
      if tid !in tasks { return None; }
      RenewedBound(tasks[tid], frontier, total, leaseChunk);
      var t := tasks[tid];
      if t.rangeEnd < 0 && total > 0 {
        t := t.(rangeEnd := total);
      }
      if frontier > t.frontier {
        t := t.(frontier := frontier);
      }
      if t.rangeEnd >= 0 && t.frontier > t.rangeEnd {
        t := t.(frontier := t.rangeEnd);
      }
      t := Grant(t, leaseChunk);
      tasks := tasks[tid := t];
      r := Some(Renewal(t.generation, t.granted, generation < t.generation));
    }

    method ReclaimTask(tid: TaskId) returns (requeued: bool)
      requires Valid() && tid in tasks
      modifies this`jobs, this`tasks, this`pendingQ, this`doneCalls
      ensures Valid()
      ensures Contents() == Reclaim(old(Contents()), tid)
      ensures tasks.Keys == old(tasks).Keys
      ensures forall u <- tasks :: u != tid ==> tasks[u] == old(tasks)[u]
      ensures |pendingQ| == |old(pendingQ)| + if requeued then 1 else 0
    {
      var t := tasks[tid];
      if t.retries < t.maxRetries {
        RequeueTask(tid);
        return true;
      }
      tasks := tasks[tid := t.(status := TaskFailed)];
      UpdateJob(t.jobId);
      return false;
    }

    /** Re-queues what a dead worker held; `persist` tells whether the source
        writes the outcome to its store, which it skips when nothing was queued. */
    method RebalanceWorker(w: WorkerId) returns (persist: bool, ghost order: seq<TaskId>)
      requires Valid()
      modifies this`jobs, this`tasks, this`pendingQ, this`doneCalls
      ensures Valid()
      ensures Next(old(Contents()), Op.RebalanceWorker(w, order), Contents())
      ensures persist <==> |pendingQ| > |old(pendingQ)|
    {
      persist, order := false, [];
      ghost var s := Contents();
      var unseen := tasks.Keys;
      while unseen != {}
        invariant Valid() && unseen <= s.tasks.Keys == tasks.Keys
        invariant Contents() == ReclaimAll(s, order)
        invariant WalkOutside(s, w, order, unseen)
        invariant forall tid <- unseen :: tasks[tid] == s.tasks[tid]
        invariant |pendingQ| >= |s.pendingQ| && (persist <==> |pendingQ| > |s.pendingQ|)
        decreases |unseen|
      {
        var tid :| tid in unseen;
        WalkVisits(s, w, order, unseen, tid);
        unseen := unseen - {tid};
        if tasks[tid].workerId == w && tasks[tid].InFlight() {
          var requeued := ReclaimTask(tid);
          persist := persist || requeued;
          order := order + [tid];
        }
      }
    }

    /** Hands out up to n queued tasks at once, without naming a worker: an assignment for
        every task it has assigned, and for no other. */
    method DrainPending(n: nat) returns (assignments: seq<Assignment>)
      requires Valid()
      modifies this`tasks, this`pendingQ
      ensures Valid()
      ensures Next(old(Contents()), Op.DrainPending(n), Contents())
      ensures |assignments| <= n && tasks.Keys == old(tasks).Keys
      ensures forall a <- assignments :: a.taskId in tasks && a == AssignmentFor(tasks[a.taskId])
      ensures forall i, j :: 0 <= i < j < |assignments| ==> assignments[i].taskId != assignments[j].taskId
      ensures forall tid <- tasks ::
                (exists a :: a in assignments && a.taskId == tid) <==>
                old(tasks)[tid].status.TaskPending? && tasks[tid].status.TaskAssigned?
    {
      var k := if n > |pendingQ| then |pendingQ| else n;
      assignments := [];
      var ids := pendingQ[..k];
      pendingQ := pendingQ[k..];
      ghost var s := Contents();
      for i := 0 to k
        invariant Valid() && Contents() == DrainAll(s, ids[..i])
        invariant Drained(s, Contents(), assignments) && |assignments| <= i
      {
        DrainsOneMore(s, ids, i);
        var tid := ids[i];
        if tid in tasks && tasks[tid].status.TaskPending? && tasks[tid].jobId in jobs {
          ghost var before := Contents();
          var a := AssignTask(tid, tasks[tid].workerId);
          DrainedOne(s, before, assignments, tid, Contents(), a);
          assignments := assignments + [a];
        }
      }
      assert ids[..k] == ids;
    }
  }

  /** The assignments are those of the tasks assigned since s. */
  ghost predicate Drained(s: State, now: State, assignments: seq<Assignment>) {
    && now.tasks.Keys == s.tasks.Keys
    && (forall a <- assignments :: a.taskId in now.tasks && a == AssignmentFor(now.tasks[a.taskId]))
    && (forall i, j :: 0 <= i < j < |assignments| ==> assignments[i].taskId != assignments[j].taskId)
    && (forall tid <- now.tasks ::
          (exists a :: a in assignments && a.taskId == tid) <==>
          s.tasks[tid].status.TaskPending? && now.tasks[tid].status.TaskAssigned?)
    && (forall tid <- now.tasks :: now.tasks[tid].status.TaskPending? ==> now.tasks[tid] == s.tasks[tid])
    && (forall tid <- now.tasks :: s.tasks[tid].status.TaskPending? || now.tasks[tid] == s.tasks[tid])
  }

  /** One pending task more is assigned. */
  lemma DrainedOne(s: State, before: State, assignments: seq<Assignment>, tid: TaskId, now: State, a: Assignment)
    requires Drained(s, before, assignments) && tid in before.tasks && before.tasks[tid].status.TaskPending?
    requires tid in now.tasks && now.tasks == before.tasks[tid := now.tasks[tid]] && now.tasks[tid].status.TaskAssigned?
    requires a == AssignmentFor(now.tasks[tid]) && a.taskId == tid
    ensures Drained(s, now, assignments + [a])
  {
    var more := assignments + [a];
    forall b <- assignments ensures b.taskId != tid {
      assert before.tasks[b.taskId].status.TaskAssigned?;
    }
    forall i, j | 0 <= i < j < |more| ensures more[i].taskId != more[j].taskId {
      if j == |assignments| { assert more[i] in assignments; }
    }
    forall u <- now.tasks
      ensures (exists b :: b in more && b.taskId == u) <==> s.tasks[u].status.TaskPending? && now.tasks[u].status.TaskAssigned?
    {
      if u == tid {
        assert a in more;
      } else if b :| b in assignments && b.taskId == u {
        assert b in more;
      }
    }
  }
}
