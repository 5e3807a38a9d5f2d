/** What every run of the scheduler keeps, for any calls with any arguments:
    the ranges of a shard's tasks tile it, a shard can be stolen from only so often,
    and leases stay ordered. */
module SchedulerRuns {
  import opened Util
  import opened Tasks
  import opened SchedulerSpec

  /** The scheduler's state with what a run remembers about its tasks: the
      submitted task each one descends from, the size a submitted task was given,
      and how often each task was handed out. */
  datatype History = History(
    s: State,
    root: map<TaskId, TaskId>,
    size: map<TaskId, int>,
    assigns: map<TaskId, nat>)

  predicate Sizes(s: State, op: Op) {
    && op.RenewLease? && op.tid in s.tasks
    && !s.tasks[op.tid].SizeKnown() && op.total > 0
  }

  predicate Steals(op: Op) { op.Poll? && op.choice.StealFrom? }

  /** New tasks are submitted ones, their own roots, or the stolen piece, which
      descends from what its victim descends from. */
  ghost predicate RootsFollow(root: map<TaskId, TaskId>, op: Op, s': State, root': map<TaskId, TaskId>) {
    && root'.Keys == s'.tasks.Keys
    && forall tid <- s'.tasks ::
         root'[tid] == if tid in root then root[tid]
                       else if Steals(op) && op.choice.victim in root then root[op.choice.victim]
                       else tid
  }

  function SizeAfter(s: State, size: map<TaskId, int>, op: Op): map<TaskId, int> {
    if Sizes(s, op) then size[op.tid := op.total] else size
  }

  predicate HandedOut(s: State, s': State, tid: TaskId)
    requires tid in s'.tasks
  {
    s'.tasks[tid].status.TaskAssigned? && !(tid in s.tasks && s.tasks[tid].status.TaskAssigned?)
  }

  ghost predicate AssignsFollow(s: State, assigns: map<TaskId, nat>, s': State, assigns': map<TaskId, nat>) {
    && assigns'.Keys == s'.tasks.Keys
    && forall tid <- s'.tasks ::
         assigns'[tid] == (if tid in assigns then assigns[tid] else 0) + if HandedOut(s, s', tid) then 1 else 0
  }

  ghost predicate Step(h: History, op: Op, h': History) {
    && Next(h.s, op, h'.s)
    && RootsFollow(h.root, op, h'.s, h'.root)
    && h'.size == SizeAfter(h.s, h.size, op)
    && AssignsFollow(h.s, h.assigns, h'.s, h'.assigns)
  }

  ghost predicate Initial(h: History) {
    && h.s.jobs == map[] && h.s.tasks == map[] && h.s.pendingQ == [] && h.s.doneCalls == []
    && h.s.leaseChunk > 0 && h.root == map[] && h.size == map[] && h.assigns == map[]
  }

  ghost predicate Run(hs: seq<History>, ops: seq<Op>) {
    && |hs| == |ops| + 1
    && Initial(hs[0])
    && forall k :: 0 <= k < |ops| ==> Step(hs[k], ops[k], hs[k + 1])
  }

  /******* Ranges *******/

  predicate LeaseOrder(t: Task) { 0 <= t.rangeStart <= t.frontier <= t.granted }

  predicate RangeShape(t: Task) {
    if t.SizeKnown() then t.rangeStart < t.rangeEnd else t.rangeStart == 0 && !t.split
  }

  predicate WithinEnd(t: Task) { t.SizeKnown() ==> t.granted <= t.rangeEnd }

  /** The task is filed under its id, belongs to a known job, descends from a
      submitted task of the same job and shard, and has an ordered lease. */
  predicate KnownTask(h: History, tid: TaskId) {
    && tid in h.s.tasks && tid in h.root
    && h.s.tasks[tid].id == tid
    && h.s.tasks[tid].jobId in h.s.jobs
    && LeaseOrder(h.s.tasks[tid]) && RangeShape(h.s.tasks[tid])
    && var r := h.root[tid];
       && r in h.root && h.root[r] == r && r in h.s.tasks
       && h.s.tasks[r].jobId == h.s.tasks[tid].jobId
       && h.s.tasks[r].shard == h.s.tasks[tid].shard
  }

  ghost predicate Known(h: History) {
    && h.root.Keys == h.s.tasks.Keys
    && h.size.Keys <= h.s.tasks.Keys
    && h.s.leaseChunk > 0
    && forall tid <- h.s.tasks :: KnownTask(h, tid)
  }

  predicate Member(h: History, r: TaskId, tid: TaskId) {
    tid in h.s.tasks && tid in h.root && h.root[tid] == r
  }

  ghost predicate Covered(h: History, r: TaskId, x: int) {
    exists tid :: Member(h, r, tid) && h.s.tasks[tid].Owns(x)
  }

  /** The family's ranges are non-empty, lie in [0, n), meet every offset of it
      and never overlap. */
  ghost predicate Tiles(h: History, r: TaskId, n: int) {
    && n > 0
    && (forall tid :: Member(h, r, tid) ==> 0 <= h.s.tasks[tid].rangeStart < h.s.tasks[tid].rangeEnd <= n)
    && (forall x :: 0 <= x < n ==> Covered(h, r, x))
    && (forall t, u :: Member(h, r, t) && Member(h, r, u) && t != u ==>
          h.s.tasks[t].rangeEnd <= h.s.tasks[u].rangeStart || h.s.tasks[u].rangeEnd <= h.s.tasks[t].rangeStart)
  }

  /** Either one task of unknown size, or a tiling of the reported size. */
  ghost predicate FamilyShape(h: History, r: TaskId) {
    if r in h.size then Tiles(h, r, h.size[r])
    else Member(h, r, r) && !h.s.tasks[r].SizeKnown() && forall tid :: Member(h, r, tid) ==> tid == r
  }

  ghost predicate Tiled(h: History) {
    && Known(h)
    && forall r :: Member(h, r, r) ==> FamilyShape(h, r)
  }

  /** The task keeps its range, lineage and identity and its lease stays ordered. */
  predicate QuietTask(t: Task, t': Task) {
    && t'.id == t.id && t'.jobId == t.jobId && t'.shard == t.shard && t'.maxRetries == t.maxRetries
    && t'.rangeStart == t.rangeStart && t'.rangeEnd == t.rangeEnd
    && t'.split == t.split && t'.generation == t.generation
    && (LeaseOrder(t) && RangeShape(t) ==> LeaseOrder(t') && (WithinEnd(t) ==> WithinEnd(t')))
  }

  ghost predicate Quiet(s: State, s': State) {
    && s'.tasks.Keys == s.tasks.Keys && s'.jobs.Keys == s.jobs.Keys && s'.leaseChunk > 0
    && forall tid {:trigger s'.tasks[tid]} :: tid in s.tasks ==> QuietTask(s.tasks[tid], s'.tasks[tid])
  }

  lemma QuietAssign(s: State, tid: TaskId, w: WorkerId)
    requires s.leaseChunk > 0 && tid in s.tasks
    ensures Quiet(s, Assign(s, tid, w))
  {
    assert QuietTask(s.tasks[tid], Assign(s, tid, w).tasks[tid]);
  }

  lemma QuietRenewal(t: Task, frontier: int, total: int, chunk: int)
    requires chunk > 0 && (t.SizeKnown() || total <= 0)
    ensures QuietTask(t, Renewed(t, frontier, total, chunk))
  {
    var moved := Report(t, frontier, total);
    assert LeaseOrder(t) && RangeShape(t) ==> moved.rangeStart <= moved.frontier;
  }

  lemma QuietReclaimOne(s: State, tid: TaskId, w: WorkerId, status: TaskStatus)
    requires s.leaseChunk > 0 && tid in s.tasks
    ensures Quiet(s, Requeue(s, tid)) && Quiet(s, Finish(s, tid, w, status))
  {
    assert QuietTask(s.tasks[tid], RequeuedTask(s.tasks[tid]));
    assert QuietTask(s.tasks[tid], s.tasks[tid].(status := status, workerId := w));
  }

  lemma {:induction false} QuietDrain(s: State, ids: seq<TaskId>)
    requires s.leaseChunk > 0
    ensures Quiet(s, DrainAll(s, ids))
  {
    if ids != [] {
      var tid, before := ids[|ids| - 1], DrainAll(s, ids[..|ids| - 1]);
      QuietDrain(s, ids[..|ids| - 1]);
      if Drainable(before, tid) {
        QuietAssign(before, tid, before.tasks[tid].workerId);
      }
    }
  }

  lemma QuietOn(s: State, mid: State, s': State)
    requires Quiet(s, mid) && Quiet(mid, s')
    ensures Quiet(s, s')
  {
  }

  lemma QuietReclaimed(s: State, tid: TaskId)
    requires s.leaseChunk > 0 && tid in s.tasks
    ensures Quiet(s, Reclaim(s, tid))
  {
    QuietReclaimOne(s, tid, s.tasks[tid].workerId, TaskFailed);
  }

  lemma {:induction false} QuietReclaim(s: State, order: seq<TaskId>)
    requires s.leaseChunk > 0
    ensures Quiet(s, ReclaimAll(s, order))
  {
    if order != [] {
      var tid, before := order[|order| - 1], ReclaimAll(s, order[..|order| - 1]);
      QuietReclaim(s, order[..|order| - 1]);
      if tid in before.tasks {
        QuietReclaimed(before, tid);
        QuietOn(s, before, Reclaim(before, tid));
      }
    }
  }

  lemma QuietStep(s: State, op: Op, s': State)
    requires s.leaseChunk > 0 && Next(s, op, s')
    requires !op.SubmitJob? && !Steals(op) && !Sizes(s, op)
    ensures Quiet(s, s')
  {
    match op
    case Poll(w, _, choice) =>
      if choice.Take? {
        QuietAssign(Dequeue(s, choice.index), s.pendingQ[choice.index], w);
      }
    case StartTask(tid) =>
    case SettleTask(tid, w, failed) =>
      if tid in s.tasks {
        QuietReclaimOne(s, tid, w, if failed then TaskFailed else TaskDone);
      }
    case RenewLease(tid, frontier, total) =>
      if tid in s.tasks {
        QuietRenewal(s.tasks[tid], frontier, total, s.leaseChunk);
      }
    case RebalanceWorker(_, order) => QuietReclaim(s, order);
    case DrainPending(n) =>
      var k := Min(n, |s.pendingQ|);
      QuietDrain(s.(pendingQ := s.pendingQ[k..]), s.pendingQ[..k]);
    case SetLeaseChunk(_) =>
  }

  /** What a submission adds: one whole-shard task per shard, queued in order. */
  lemma {:induction false} AddedQueue(s: State, j: JobId, priority: int, maxRetries: int, shards: seq<Shard>, ids: seq<TaskId>)
    requires |ids| == |shards|
    ensures var s' := AddTasks(s, j, priority, maxRetries, shards, ids);
            && s'.jobs == s.jobs && s'.leaseChunk == s.leaseChunk && s'.doneCalls == s.doneCalls
            && s'.pendingQ == s.pendingQ + ids
  {
    if ids != [] {
      var k := |ids| - 1;
      AddedQueue(s, j, priority, maxRetries, shards[..k], ids[..k]);
      assert ids == ids[..k] + [ids[k]];
    }
  }

  lemma {:induction false} AddedTask(s: State, j: JobId, priority: int, maxRetries: int, shards: seq<Shard>, ids: seq<TaskId>, tid: TaskId)
    requires |ids| == |shards|
    ensures var s' := AddTasks(s, j, priority, maxRetries, shards, ids);
            && (tid in s'.tasks <==> tid in s.tasks || tid in ids)
            && (tid in s.tasks && tid !in ids ==> s'.tasks[tid] == s.tasks[tid])
            && (tid in ids ==> exists k :: 0 <= k < |ids| && ids[k] == tid
                                           && s'.tasks[tid] == FreshTask(tid, j, shards[k], priority, maxRetries))
  {
    if ids != [] {
      var k := |ids| - 1;
      AddedTask(s, j, priority, maxRetries, shards[..k], ids[..k], tid);
      assert ids == ids[..k] + [ids[k]];
    }
  }

  predicate IsFresh(t: Task, tid: TaskId, j: JobId, maxRetries: int) {
    && t.id == tid && t.jobId == j && t.status.TaskPending? && t.workerId == ""
    && t.retries == 0 && t.maxRetries == maxRetries
    && t.rangeStart == 0 && t.rangeEnd == -1 && t.frontier == 0 && t.granted == 0
    && t.generation == 0 && !t.split
  }


  /******* The four shapes of a step *******/

  function Added(s: State, s': State): set<TaskId> { s'.tasks.Keys - s.tasks.Keys }

  /** One whole-shard task per shard is added and queued. */
  ghost predicate Submitted(s: State, op: Op, s': State) {
    && op.SubmitJob?
    && s.tasks.Keys <= s'.tasks.Keys
    && (forall tid <- s.tasks :: s'.tasks[tid] == s.tasks[tid])
    && (forall tid <- s'.tasks :: tid !in s.tasks ==>
          IsFresh(s'.tasks[tid], tid, op.j, op.maxRetries) && tid in s'.pendingQ)
    && |Added(s, s')| == |op.shards| && op.j !in s.jobs
    && s'.jobs.Keys == s.jobs.Keys + {op.j} && (forall i <- s.jobs :: s'.jobs[i] == s.jobs[i])
    && s'.jobs[op.j] == Job(op.j, op.priority, JobRunning, op.shards, |op.shards|, 0, 0)
    && s.pendingQ <= s'.pendingQ && s'.leaseChunk == s.leaseChunk > 0 && s'.doneCalls == s.doneCalls
  }

  /** A whole-shard task learns its size; nothing else changes. */
  ghost predicate Sized(s: State, op: Op, s': State) {
    && Sizes(s, op)
    && s'.jobs == s.jobs && s'.leaseChunk == s.leaseChunk > 0
    && s'.pendingQ == s.pendingQ && s'.doneCalls == s.doneCalls
    && s'.tasks.Keys == s.tasks.Keys
    && (forall tid <- s.tasks :: tid != op.tid ==> s'.tasks[tid] == s.tasks[tid])
    && var t, t' := s.tasks[op.tid], s'.tasks[op.tid];
       && t' == t.(rangeEnd := op.total, frontier := t'.frontier, granted := t'.granted)
       && LeaseOrder(t') && RangeShape(t') && (t.granted <= op.total ==> WithinEnd(t'))
  }

  /** Only the un-granted tail of a sized task in flight moves, to a new task. */
  ghost predicate Stolen(s: State, op: Op, s': State) {
    && Steals(op)
    && var v, n := op.choice.victim, op.choice.newId;
       && v in s.tasks && n !in s.tasks && s'.tasks.Keys == s.tasks.Keys + {n}
       && (forall tid <- s.tasks :: tid != v ==> s'.tasks[tid] == s.tasks[tid])
       && s'.pendingQ == s.pendingQ && s'.leaseChunk == s.leaseChunk > 0 && s'.doneCalls == s.doneCalls
       && var t, t', p := s.tasks[v], s'.tasks[v], s'.tasks[n];
          && t.InFlight() && t.SizeKnown() && t' == Shrunk(t) && t.jobId in s.jobs
          && t.granted < t'.rangeEnd == p.rangeStart < p.rangeEnd == t.rangeEnd
          && p.id == n && p.jobId == t.jobId && p.shard == t.shard && p.workerId == op.w
          && p.status.TaskAssigned? && p.split && p.generation == 0 && p.frontier == p.rangeStart
          && p.rangeStart < p.granted && LeaseOrder(p) && WithinEnd(p)
          && p.retries == 0 && p.maxRetries == t.maxRetries
          && s'.jobs == s.jobs[t.jobId := s.jobs[t.jobId].(totalTasks := s.jobs[t.jobId].totalTasks + 1)]
  }

  ghost predicate Shape(s: State, op: Op, s': State) {
    if op.SubmitJob? then Submitted(s, op, s')
    else if Sizes(s, op) then Sized(s, op, s')
    else if Steals(op) then Stolen(s, op, s')
    else Quiet(s, s')
  }

  /** What became of one id in a submission. */
  lemma SubmitTask(s: State, op: Op, s': State, tid: TaskId)
    requires op.SubmitJob? && Next(s, op, s')
    ensures tid in s'.tasks <==> tid in s.tasks || tid in op.ids
    ensures tid in s.tasks ==> tid !in op.ids && s'.tasks[tid] == s.tasks[tid]
    ensures tid in op.ids ==> IsFresh(s'.tasks[tid], tid, op.j, op.maxRetries)
  {
    var job := Job(op.j, op.priority, JobRunning, op.shards, |op.shards|, 0, 0);
    AddedTask(s.(jobs := s.jobs[op.j := job]), op.j, op.priority, op.maxRetries, op.shards, op.ids, tid);
  }

  lemma SubmitCount(s: State, op: Op, s': State)
    requires op.SubmitJob? && Next(s, op, s')
    ensures Added(s, s') == (set tid | tid in op.ids) && |Added(s, s')| == |op.shards|
  {
    DistinctMembers(op.ids);
    forall tid ensures tid in Added(s, s') <==> tid in op.ids { SubmitTask(s, op, s', tid); }
  }

  lemma SubmitRest(s: State, op: Op, s': State)
    requires op.SubmitJob? && Next(s, op, s')
    ensures op.j !in s.jobs && s'.jobs.Keys == s.jobs.Keys + {op.j} && (forall i <- s.jobs :: s'.jobs[i] == s.jobs[i])
    ensures s'.jobs[op.j] == Job(op.j, op.priority, JobRunning, op.shards, |op.shards|, 0, 0)
    ensures s'.pendingQ == s.pendingQ + op.ids && s'.leaseChunk == s.leaseChunk && s'.doneCalls == s.doneCalls
  {
    var job := Job(op.j, op.priority, JobRunning, op.shards, |op.shards|, 0, 0);
    AddedQueue(s.(jobs := s.jobs[op.j := job]), op.j, op.priority, op.maxRetries, op.shards, op.ids);
  }

  lemma SubmitTasks(s: State, op: Op, s': State)
    requires op.SubmitJob? && Next(s, op, s') && s'.pendingQ == s.pendingQ + op.ids
    ensures s.tasks.Keys <= s'.tasks.Keys && forall tid <- s.tasks :: s'.tasks[tid] == s.tasks[tid]
    ensures forall tid <- s'.tasks :: tid !in s.tasks ==>
              IsFresh(s'.tasks[tid], tid, op.j, op.maxRetries) && tid in s'.pendingQ
  {
    forall tid <- s.tasks ensures tid in s'.tasks && s'.tasks[tid] == s.tasks[tid] { SubmitTask(s, op, s', tid); }
    forall tid <- s'.tasks | tid !in s.tasks
      ensures IsFresh(s'.tasks[tid], tid, op.j, op.maxRetries) && tid in s'.pendingQ
    {
      SubmitTask(s, op, s', tid);
    }
  }

  lemma SubmitShape(s: State, op: Op, s': State)
    requires s.leaseChunk > 0 && op.SubmitJob? && Next(s, op, s')
    ensures Submitted(s, op, s')
  {
    SubmitRest(s, op, s');
    SubmitCount(s, op, s');
    SubmitTasks(s, op, s');
  }

  lemma SizingShape(s: State, op: Op, s': State)
    requires Sizes(s, op) && Next(s, op, s') && s.leaseChunk > 0
    requires LeaseOrder(s.tasks[op.tid]) && RangeShape(s.tasks[op.tid])
    ensures Sized(s, op, s')
  {
  }

  lemma StealShape(s: State, op: Op, s': State)
    requires Steals(op) && Next(s, op, s') && s.leaseChunk > 0
    requires op.choice.victim in s.tasks ==> LeaseOrder(s.tasks[op.choice.victim]) && s.tasks[op.choice.victim].jobId in s.jobs
    ensures Stolen(s, op, s')
  {
    assert LegalVictim(s, op.choice.victim);
  }

  lemma StepShape(h: History, op: Op, s': State)
    requires Known(h) && Next(h.s, op, s')
    ensures Shape(h.s, op, s')
  {
    if op.SubmitJob? {
      SubmitShape(h.s, op, s');
    } else if Sizes(h.s, op) {
      assert KnownTask(h, op.tid);
      SizingShape(h.s, op, s');
    } else if Steals(op) {
      assert op.choice.victim in h.s.tasks ==> KnownTask(h, op.choice.victim);
      StealShape(h.s, op, s');
    } else {
      QuietStep(h.s, op, s');
    }
  }

  /** A step seen through its shape. */
  ghost predicate Shaped(h: History, op: Op, h': History) {
    && Shape(h.s, op, h'.s)
    && RootsFollow(h.root, op, h'.s, h'.root)
    && h'.size == SizeAfter(h.s, h.size, op)
    && AssignsFollow(h.s, h.assigns, h'.s, h'.assigns)
  }

  lemma StepIsShaped(h: History, op: Op, h': History)
    requires Known(h) && Step(h, op, h')
    ensures Shaped(h, op, h')
  {
    StepShape(h, op, h'.s);
  }

  /******* Each shape keeps the tiling *******/

  /** Tasks never disappear, old lineage never changes, and a new task is its own
      root or, after a steal, the one new member of its victim's family. */
  ghost predicate Lineage(h: History, op: Op, h': History) {
    && h.s.tasks.Keys <= h'.s.tasks.Keys
    && h.root.Keys == h.s.tasks.Keys && h'.root.Keys == h'.s.tasks.Keys
    && (forall tid <- h.root :: h'.root[tid] == h.root[tid])
    && (if Steals(op) then
          && op.choice.victim in h.root && op.choice.newId !in h.root
          && h'.root.Keys == h.root.Keys + {op.choice.newId}
          && h'.root[op.choice.newId] == h.root[op.choice.victim]
        else forall tid <- h'.root :: tid !in h.root ==> h'.root[tid] == tid)
  }

  lemma ShapedLineage(h: History, op: Op, h': History)
    requires h.root.Keys == h.s.tasks.Keys && Shaped(h, op, h')
    ensures Lineage(h, op, h')
  {
  }

  /** The family has the same members with the same ranges in both histories. */
  ghost predicate SameFamily(h: History, h': History, r: TaskId) {
    && (r in h'.size <==> r in h.size) && (r in h.size ==> h'.size[r] == h.size[r])
    && (forall tid :: Member(h, r, tid) <==> Member(h', r, tid))
    && (forall tid :: Member(h, r, tid) ==>
          && h'.s.tasks[tid].rangeStart == h.s.tasks[tid].rangeStart
          && h'.s.tasks[tid].rangeEnd == h.s.tasks[tid].rangeEnd)
  }

  lemma FamilyCarries(h: History, h': History, r: TaskId)
    requires SameFamily(h, h', r) && FamilyShape(h, r)
    ensures FamilyShape(h', r)
  {
    if r in h.size {
      forall x | 0 <= x < h.size[r] ensures Covered(h', r, x) {
        assert Covered(h, r, x);
        var tid :| Member(h, r, tid) && h.s.tasks[tid].Owns(x);
        assert Member(h', r, tid) && h'.s.tasks[tid].Owns(x);
      }
    }
  }

  lemma QuietKeepsTiling(h: History, h': History)
    requires Tiled(h) && Quiet(h.s, h'.s) && h'.root == h.root && h'.size == h.size
    ensures Tiled(h')
  {
    forall tid <- h'.s.tasks ensures KnownTask(h', tid) {
      assert KnownTask(h, tid) && KnownTask(h, h.root[tid]);
    }
    forall r | Member(h', r, r) ensures FamilyShape(h', r) {
      assert Member(h, r, r);
      assert SameFamily(h, h', r);
      FamilyCarries(h, h', r);
    }
  }

  /** New unsized tasks, each its own root, join the old ones. */
  lemma SubmitKeepsTiling(h: History, op: Op, h': History)
    requires Tiled(h) && Submitted(h.s, op, h'.s) && Lineage(h, op, h') && h'.size == h.size
    ensures Tiled(h')
  {
    forall tid <- h'.s.tasks ensures KnownTask(h', tid) {
      if tid in h.s.tasks { assert KnownTask(h, tid); }
    }
    forall r | Member(h', r, r) ensures FamilyShape(h', r) {
      if r in h.s.tasks {
        assert Member(h, r, r);
        SubmitOthers(h, op, h', r);
        FamilyCarries(h, h', r);
      } else {
        forall tid | Member(h', r, tid) ensures tid == r { assert tid in h.s.tasks ==> KnownTask(h, tid); }
      }
    }
  }

  lemma SubmitOthers(h: History, op: Op, h': History, r: TaskId)
    requires Submitted(h.s, op, h'.s) && Lineage(h, op, h') && h'.size == h.size && r in h.s.tasks
    ensures SameFamily(h, h', r)
  {
  }

  /** The first reported size turns the whole-shard task into a one-piece tiling. */
  lemma SizedTaskTiles(h: History, h': History, r: TaskId, n: int)
    requires FamilyShape(h, r) && r !in h.size && n > 0
    requires forall tid :: Member(h', r, tid) <==> Member(h, r, tid)
    requires Member(h', r, r) && h'.s.tasks[r].rangeStart == 0 && h'.s.tasks[r].rangeEnd == n
    ensures Tiles(h', r, n)
  {
    forall x | 0 <= x < n ensures Covered(h', r, x) {
      assert Member(h', r, r) && h'.s.tasks[r].Owns(x);
    }
  }

  lemma UnsizedIsRoot(h: History, tid: TaskId)
    requires Tiled(h) && tid in h.s.tasks && !h.s.tasks[tid].SizeKnown()
    ensures h.root[tid] == tid && tid !in h.size && Member(h, tid, tid)
  {
    var r := h.root[tid];
    assert Member(h, r, r) && Member(h, r, tid);
    assert FamilyShape(h, r);
  }

  lemma SizingKeepsTiling(h: History, op: Op, h': History)
    requires Tiled(h) && Sized(h.s, op, h'.s) && h'.root == h.root && h'.size == SizeAfter(h.s, h.size, op)
    ensures Tiled(h')
  {
    var sized := op.tid;
    UnsizedIsRoot(h, sized);
    forall tid <- h'.s.tasks ensures KnownTask(h', tid) { assert KnownTask(h, tid); }
    forall r | Member(h', r, r) ensures FamilyShape(h', r) {
      assert Member(h, r, r);
      if r == sized {
        SizedTaskTiles(h, h', sized, op.total);
      } else {
        SizingOthers(h, op, h', r);
        FamilyCarries(h, h', r);
      }
    }
  }

  lemma SizingOthers(h: History, op: Op, h': History, r: TaskId)
    requires Sized(h.s, op, h'.s) && h'.root == h.root && h'.size == SizeAfter(h.s, h.size, op)
    requires op.tid in h.root && h.root[op.tid] == op.tid && r != op.tid
    ensures SameFamily(h, h', r)
  {
    assert forall tid :: Member(h, r, tid) ==> tid != op.tid;
  }

  /** Cutting one member's range in two, at a point strictly inside it. */
  lemma CutTiles(h: History, h': History, r: TaskId, n: int, v: TaskId, piece: TaskId)
    requires Tiles(h, r, n) && Member(h, r, v) && piece !in h.s.tasks
    requires forall tid :: Member(h', r, tid) <==> Member(h, r, tid) || tid == piece
    requires Member(h', r, v) && Member(h', r, piece) && h.s.tasks.Keys <= h'.s.tasks.Keys
    requires forall tid :: Member(h, r, tid) ==> h'.s.tasks[tid].rangeStart == h.s.tasks[tid].rangeStart
    requires forall tid :: Member(h, r, tid) && tid != v ==> h'.s.tasks[tid].rangeEnd == h.s.tasks[tid].rangeEnd
    requires h.s.tasks[v].rangeStart < h'.s.tasks[v].rangeEnd == h'.s.tasks[piece].rangeStart
             < h'.s.tasks[piece].rangeEnd == h.s.tasks[v].rangeEnd
    ensures Tiles(h', r, n)
  {
    forall x | 0 <= x < n ensures Covered(h', r, x) {
      assert Covered(h, r, x);
      var tid :| Member(h, r, tid) && h.s.tasks[tid].Owns(x);
      var owner := if tid == v && x >= h'.s.tasks[v].rangeEnd then piece else tid;
      assert Member(h', r, owner) && h'.s.tasks[owner].Owns(x);
    }
  }

  lemma StealCutsOff(h: History, op: Op, h': History)
    requires Stolen(h.s, op, h'.s) && Lineage(h, op, h') && h'.size == h.size
    ensures CutOff(h, h', op.choice.victim, op.choice.newId)
  {
    assert h'.root == h.root[op.choice.newId := h.root[op.choice.victim]];
  }

  /** h' is h with v's un-granted tail cut off into a new task. */
  ghost predicate CutOff(h: History, h': History, v: TaskId, piece: TaskId) {
    && v in h.s.tasks && v in h.root && piece !in h.s.tasks
    && h'.root == h.root[piece := h.root[v]] && h'.size == h.size
    && h'.s.tasks.Keys == h.s.tasks.Keys + {piece} && h'.s.jobs.Keys == h.s.jobs.Keys && h'.s.leaseChunk > 0
    && (forall tid <- h.s.tasks :: tid != v ==> h'.s.tasks[tid] == h.s.tasks[tid])
    && var t, t', p := h.s.tasks[v], h'.s.tasks[v], h'.s.tasks[piece];
       && t.SizeKnown() && t' == Shrunk(t)
       && t.granted < t'.rangeEnd == p.rangeStart < p.rangeEnd == t.rangeEnd
       && p.id == piece && p.jobId == t.jobId && p.shard == t.shard && LeaseOrder(p)
  }

  lemma PieceKnown(h: History, h': History, v: TaskId, piece: TaskId, tid: TaskId)
    requires Tiled(h) && CutOff(h, h', v, piece) && tid in h'.s.tasks
    ensures KnownTask(h', tid)
  {
    assert KnownTask(h, v);
    if tid != piece { assert KnownTask(h, tid); }
  }

  lemma VictimFamily(h: History, h': History, v: TaskId, piece: TaskId)
    requires CutOff(h, h', v, piece) && KnownTask(h, v) && h.root.Keys == h.s.tasks.Keys
    requires FamilyShape(h, h.root[v])
    ensures FamilyShape(h', h.root[v])
  {
    var r := h.root[v];
    assert Member(h, r, v);
    CutTiles(h, h', r, h.size[r], v, piece);
  }

  lemma OtherFamily(h: History, h': History, v: TaskId, piece: TaskId, r: TaskId)
    requires CutOff(h, h', v, piece) && r != h.root[v] && r != piece
    ensures SameFamily(h, h', r)
  {
    assert forall tid :: Member(h, r, tid) ==> tid != v && tid != piece;
    assert forall tid :: Member(h', r, tid) ==> tid != v && tid != piece;
  }

  lemma PieceKeepsTiling(h: History, h': History, v: TaskId, piece: TaskId)
    requires Tiled(h) && CutOff(h, h', v, piece)
    ensures Tiled(h')
  {
    forall tid <- h'.s.tasks ensures KnownTask(h', tid) { PieceKnown(h, h', v, piece, tid); }
    forall r | Member(h', r, r) ensures FamilyShape(h', r) {
      if r == h.root[v] {
        assert KnownTask(h, v) && Member(h, r, r);
        VictimFamily(h, h', v, piece);
      } else {
        assert r != piece && Member(h, r, r);
        OtherFamily(h, h', v, piece, r);
        FamilyCarries(h, h', r);
      }
    }
  }

  lemma StepKeepsTiling(h: History, op: Op, h': History)
    requires Tiled(h) && Step(h, op, h')
    ensures Shaped(h, op, h') && Tiled(h')
  {
    StepIsShaped(h, op, h');
    ShapedKeepsTiling(h, op, h');
  }

  lemma ShapedKeepsTiling(h: History, op: Op, h': History)
    requires Tiled(h) && Shaped(h, op, h')
    ensures Tiled(h')
  {
    ShapedLineage(h, op, h');
    if op.SubmitJob? {
      SubmitKeepsTiling(h, op, h');
    } else if Sizes(h.s, op) {
      SameRoots(h, op, h');
      SizingKeepsTiling(h, op, h');
    } else if Steals(op) {
      StealCutsOff(h, op, h');
      PieceKeepsTiling(h, h', op.choice.victim, op.choice.newId);
    } else {
      SameRoots(h, op, h');
      QuietKeepsTiling(h, h');
    }
  }

  lemma SameRoots(h: History, op: Op, h': History)
    requires Lineage(h, op, h') && h'.s.tasks.Keys == h.s.tasks.Keys
    ensures h'.root == h.root
  {
  }

  /** In every run, whatever is called, the tasks descended from one submitted
      task are one task of unknown size or a tiling of the reported size. */
  lemma {:induction false} RunsTile(hs: seq<History>, ops: seq<Op>, k: nat)
    requires Run(hs, ops) && k < |hs|
    ensures Tiled(hs[k])
  {
    if k == 0 {
      assert Known(hs[0]);
    } else {
      RunsTile(hs, ops, k - 1);
      StepKeepsTiling(hs[k - 1], ops[k - 1], hs[k]);
    }
  }

  lemma RunsShape(hs: seq<History>, ops: seq<Op>, k: nat)
    requires Run(hs, ops) && k < |ops|
    ensures Tiled(hs[k]) && Shaped(hs[k], ops[k], hs[k + 1]) && Lineage(hs[k], ops[k], hs[k + 1])
  {
    RunsTile(hs, ops, k);
    StepIsShaped(hs[k], ops[k], hs[k + 1]);
    ShapedLineage(hs[k], ops[k], hs[k + 1]);
  }

  lemma RunsLineage(hs: seq<History>, ops: seq<Op>, k: nat)
    requires Run(hs, ops) && k < |ops|
    ensures Known(hs[k]) && Lineage(hs[k], ops[k], hs[k + 1])
  {
    RunsShape(hs, ops, k);
  }

  /******* How many steals a shard can take *******/

  function Family(h: History, r: TaskId): set<TaskId> {
    set tid <- h.s.tasks | Member(h, r, tid)
  }

  predicate StealsFrom(h: History, op: Op, r: TaskId) {
    Steals(op) && op.choice.victim in h.root && h.root[op.choice.victim] == r
  }

  /** The number of steals among the first k steps that hit r's family. */
  function StealCount(hs: seq<History>, ops: seq<Op>, r: TaskId, k: nat): nat
    requires |hs| == |ops| + 1 && k <= |ops|
  {
    if k == 0 then 0
    else StealCount(hs, ops, r, k - 1) + if StealsFrom(hs[k - 1], ops[k - 1], r) then 1 else 0
  }

  lemma LineageGrowsFamily(h: History, op: Op, h': History, r: TaskId)
    requires Lineage(h, op, h') && Member(h, r, r)
    ensures Member(h', r, r)
    ensures |Family(h', r)| == |Family(h, r)| + if StealsFrom(h, op, r) then 1 else 0
  {
    assert Family(h', r) == Family(h, r) + if StealsFrom(h, op, r) then {op.choice.newId} else {};
  }

  /** A tiling of [0, n) has at most n pieces. */
  lemma TilingBound(h: History, r: TaskId, n: int)
    requires Tiles(h, r, n)
    ensures |Family(h, r)| <= n
  {
    var at := map tid <- h.s.tasks :: h.s.tasks[tid].rangeStart;
    forall t <- Family(h, r), u <- Family(h, r) | t != u ensures at[t] != at[u] {
      assert Member(h, r, t) && Member(h, r, u);
    }
    forall t <- Family(h, r) ensures t in at && 0 <= at[t] < n { assert Member(h, r, t); }
    DistinctPositions(Family(h, r), at, n);
  }

  /** Step k of a run, as far as lineage goes. */
  ghost predicate LinkAt(hs: seq<History>, ops: seq<Op>, k: nat)
    requires |hs| == |ops| + 1 && k < |ops|
  {
    Known(hs[k]) && Lineage(hs[k], ops[k], hs[k + 1])
  }

  ghost predicate Linked(hs: seq<History>, ops: seq<Op>) {
    && |hs| == |ops| + 1 && hs[0].s.tasks == map[] && hs[0].root == map[]
    && forall k {:trigger LinkAt(hs, ops, k)} :: 0 <= k < |ops| ==> LinkAt(hs, ops, k)
  }

  lemma RunsAreLinked(hs: seq<History>, ops: seq<Op>)
    requires Run(hs, ops)
    ensures Linked(hs, ops)
  {
    forall k | 0 <= k < |ops| ensures LinkAt(hs, ops, k) { RunsLineage(hs, ops, k); }
  }

  lemma {:induction false} FamilyGrowth(hs: seq<History>, ops: seq<Op>, r: TaskId, k: nat)
    requires Linked(hs, ops) && k <= |ops| && Member(hs[k], r, r)
    ensures |Family(hs[k], r)| == 1 + StealCount(hs, ops, r, k)
  {
    if k > 0 {
      GrowthStep(hs, ops, r, k - 1);
      if Member(hs[k - 1], r, r) { FamilyGrowth(hs, ops, r, k - 1); }
    }
  }

  /** A step adds a member for each steal, and a new family starts with one. */
  lemma GrowthStep(hs: seq<History>, ops: seq<Op>, r: TaskId, k: nat)
    requires Linked(hs, ops) && k < |ops| && Member(hs[k + 1], r, r)
    ensures if Member(hs[k], r, r)
            then |Family(hs[k + 1], r)| - StealCount(hs, ops, r, k + 1) == |Family(hs[k], r)| - StealCount(hs, ops, r, k)
            else |Family(hs[k + 1], r)| == 1 && StealCount(hs, ops, r, k + 1) == 0
  {
    assert LinkAt(hs, ops, k);
    if Member(hs[k], r, r) {
      LineageGrowsFamily(hs[k], ops[k], hs[k + 1], r);
    } else {
      NewRoot(hs[k], ops[k], hs[k + 1], r);
      NoStealsBefore(hs, ops, r, k);
    }
  }

  lemma NewRoot(h: History, op: Op, h': History, r: TaskId)
    requires Known(h) && Lineage(h, op, h') && !Member(h, r, r) && Member(h', r, r)
    ensures r !in h.s.tasks && !StealsFrom(h, op, r) && Family(h', r) == {r}
  {
    forall tid <- h.s.tasks ensures h.root[tid] != r { assert KnownTask(h, tid); }
  }

  lemma NotStolenFrom(hs: seq<History>, ops: seq<Op>, r: TaskId, k: nat)
    requires Linked(hs, ops) && k < |ops| && r !in hs[k + 1].s.tasks
    ensures r !in hs[k].s.tasks && !StealsFrom(hs[k], ops[k], r)
  {
    assert LinkAt(hs, ops, k);
    var h, op := hs[k], ops[k];
    if Steals(op) { assert KnownTask(h, op.choice.victim); }
  }

  lemma {:induction false} NoStealsBefore(hs: seq<History>, ops: seq<Op>, r: TaskId, k: nat)
    requires Linked(hs, ops) && k <= |ops| && r !in hs[k].s.tasks
    ensures StealCount(hs, ops, r, k) == 0
  {
    if k > 0 {
      NotStolenFrom(hs, ops, r, k - 1);
      NoStealsBefore(hs, ops, r, k - 1);
    }
  }

  /** At most size - 1 steals can ever hit a shard of that many items. */
  lemma StealsBounded(hs: seq<History>, ops: seq<Op>, r: TaskId, k: nat)
    requires Run(hs, ops) && k <= |ops| && Member(hs[k], r, r)
    ensures r in hs[k].size ==> StealCount(hs, ops, r, k) <= hs[k].size[r] - 1
    ensures r !in hs[k].size ==> StealCount(hs, ops, r, k) == 0
  {
    RunsTile(hs, ops, k);
    RunsAreLinked(hs, ops);
    FamilyGrowth(hs, ops, r, k);
    if r in hs[k].size {
      TilingBound(hs[k], r, hs[k].size[r]);
    } else {
      assert FamilyShape(hs[k], r);
      assert Family(hs[k], r) == {r};
    }
  }

  /******* The granted bound stays inside the range *******/

  /** A renewal of an ordered lease keeps Granted within RangeEnd exactly when it
      is not a first size report below what was already granted. */
  lemma RenewalWithinEnd(t: Task, frontier: int, total: int, chunk: int)
    requires chunk > 0 && LeaseOrder(t) && RangeShape(t) && WithinEnd(t)
    ensures WithinEnd(Renewed(t, frontier, total, chunk)) <==> !(!t.SizeKnown() && 0 < total < t.granted)
  {
  }

  /** Such a report: a whole-shard task leased to 1000 is told its shard has 5. */
  lemma SmallFirstTotalOverruns(tid: TaskId)
    ensures var t := Grant(FreshTask(tid, JobId("j"), "ff", 0, 3), 1000);
            && LeaseOrder(t) && RangeShape(t) && WithinEnd(t)
            && !WithinEnd(Renewed(t, 0, 5, 1000))
  {
  }

  predicate FairTotal(s: State, op: Op) {
    Sizes(s, op) ==> s.tasks[op.tid].granted <= op.total
  }

  ghost predicate AllWithinEnd(s: State) {
    forall tid <- s.tasks :: WithinEnd(s.tasks[tid])
  }

  lemma StepKeepsWithinEnd(h: History, op: Op, h': History)
    requires Known(h) && AllWithinEnd(h.s) && Shape(h.s, op, h'.s) && FairTotal(h.s, op)
    ensures AllWithinEnd(h'.s)
  {
    forall tid <- h'.s.tasks ensures WithinEnd(h'.s.tasks[tid]) {
      assert tid in h.s.tasks ==> KnownTask(h, tid);
    }
  }

  /** RangeStart <= Frontier <= Granted in every run. */
  lemma RunsOrderLeases(hs: seq<History>, ops: seq<Op>, k: nat, tid: TaskId)
    requires Run(hs, ops) && k < |hs| && tid in hs[k].s.tasks
    ensures LeaseOrder(hs[k].s.tasks[tid])
  {
    RunsTile(hs, ops, k);
    assert KnownTask(hs[k], tid);
  }

  /** Granted <= RangeEnd in every run whose first size reports are no smaller
      than what they find granted. */
  lemma {:induction false} RunsStayWithinEnd(hs: seq<History>, ops: seq<Op>, k: nat)
    requires Run(hs, ops) && k < |hs|
    requires forall i :: 0 <= i < k ==> FairTotal(hs[i].s, ops[i])
    ensures AllWithinEnd(hs[k].s)
  {
    if k > 0 {
      RunsShape(hs, ops, k - 1);
      RunsStayWithinEnd(hs, ops, k - 1);
      StepKeepsWithinEnd(hs[k - 1], ops[k - 1], hs[k]);
    }
  }
}
