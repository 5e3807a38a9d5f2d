/** What a lease is granted, to the item (internal/scheduler/scheduler.go, grantLocked,
    assignLocked and RenewLease): in any call, in every run of the scheduler and in
    every behaviour of the fleet. */
module Leases {
  import opened Util
  import opened Tasks
  import opened SchedulerSpec
  import opened SchedulerRuns
  import opened Attempts
  import opened Fleet

  /******* Calls *******/

  /** A renewal takes over the first total, moves the frontier forward only, grants one
      chunk past it, neither past a known end, takes nothing back, and touches nothing
      else. */
  lemma RenewalLaw(s: State, tid: TaskId, frontier: int, total: int, s': State)
    requires Next(s, Op.RenewLease(tid, frontier, total), s')
    ensures s'.tasks.Keys == s.tasks.Keys && s' == s.(tasks := s'.tasks)
    ensures forall u <- s.tasks :: u != tid ==> s'.tasks[u] == s.tasks[u]
    ensures tid in s.tasks ==>
              var t, t' := s.tasks[tid], s'.tasks[tid];
              && t' == t.(rangeEnd := t'.rangeEnd, frontier := t'.frontier, granted := t'.granted)
              && t'.rangeEnd == (if t.rangeEnd < 0 && total > 0 then total else t.rangeEnd)
              && t'.frontier == UpTo(Max(t.frontier, frontier), t'.rangeEnd)
              && t'.granted == Max(t.granted, UpTo(t'.frontier + s.leaseChunk, t'.rangeEnd))
  {
  }

  /** t' is t handed to worker w with one chunk granted past its frontier. */
  predicate HandedTo(t: Task, t': Task, w: WorkerId, chunk: int) {
    && t' == t.(status := TaskAssigned, workerId := w, granted := t'.granted)
    && t'.granted == Max(t.granted, UpTo(t.frontier + chunk, t.rangeEnd))
  }

  /** A poll that takes a queued task hands out that task, takes it off the queue and
      changes nothing else. */
  lemma TakeLaw(s: State, w: WorkerId, owner: Shard -> WorkerId, i: nat, s': State)
    requires Next(s, Poll(w, owner, Take(i)), s')
    ensures i < |s.pendingQ| && s.pendingQ[i] in s.tasks && s'.tasks.Keys == s.tasks.Keys
    ensures HandedTo(s.tasks[s.pendingQ[i]], s'.tasks[s.pendingQ[i]], w, s.leaseChunk)
    ensures forall u <- s.tasks :: u != s.pendingQ[i] ==> s'.tasks[u] == s.tasks[u]
    ensures s' == s.(tasks := s'.tasks, pendingQ := s.pendingQ[..i] + s.pendingQ[i + 1..])
  {
  }

  /** Which one: of the tasks the ring prefers for the worker the first in the queue; when
      there is none, of those of the highest priority the first. */
  lemma TakeOrder(s: State, w: WorkerId, owner: Shard -> WorkerId, i: nat, s': State, k: nat)
    requires Next(s, Poll(w, owner, Take(i)), s') && k != i
    requires k < |s.pendingQ| && s.pendingQ[k] in s.tasks && s.tasks[s.pendingQ[k]].status.TaskPending?
    ensures i < |s.pendingQ| && s.pendingQ[i] in s.tasks && s.tasks[s.pendingQ[i]].status.TaskPending?
    ensures var taken, other := s.tasks[s.pendingQ[i]], s.tasks[s.pendingQ[k]];
            if owner(taken.shard) == w then owner(other.shard) == w ==> i < k
            else owner(other.shard) != w
                 && (other.priority < taken.priority || (other.priority == taken.priority && i < k))
  {
    assert Pollable(s, i) && Pollable(s, k);
    assert SchedulerSpec.Local(s, w, owner, k) <==> owner(s.tasks[s.pendingQ[k]].shard) == w;
  }

  /** A steal cuts the victim in the middle of what it was not granted, at the next
      generation; the new task is a pending one of the rest, handed out at once. */
  lemma StealLaw(s: State, w: WorkerId, owner: Shard -> WorkerId, v: TaskId, piece: TaskId, s': State)
    requires Next(s, Poll(w, owner, StealFrom(v, piece)), s')
    ensures v in s.tasks && piece !in s.tasks && s'.tasks.Keys == s.tasks.Keys + {piece}
    ensures var t, at := s.tasks[v], s.tasks[v].granted + (s.tasks[v].rangeEnd - s.tasks[v].granted) / 2;
            && s'.tasks[v] == t.(rangeEnd := at, generation := t.generation + 1, split := true)
            && s'.tasks[piece] == Task(piece, t.jobId, t.shard, w, TaskAssigned, 0, 0, t.maxRetries,
                                       at, t.rangeEnd, at, s'.tasks[piece].granted, 0, true)
            && s'.tasks[piece].granted == Max(at, UpTo(at + s.leaseChunk, t.rangeEnd))
    ensures forall u <- s.tasks :: u != v ==> s'.tasks[u] == s.tasks[u]
    ensures s'.pendingQ == s.pendingQ && s'.doneCalls == s.doneCalls
  {
  }

  /** Which one: of the sized tasks in flight one with the longest un-granted tail, of two
      items at least, and only when no queued task is pending; and a poll gives nothing
      only when there is none either. */
  lemma StealTarget(s: State, w: WorkerId, owner: Shard -> WorkerId, c: Choice, s': State, u: TaskId)
    requires Next(s, Poll(w, owner, c), s') && !c.Take? && u in s.tasks && s.tasks[u].InFlight() && s.tasks[u].rangeEnd >= 0
    ensures forall k :: 0 <= k < |s.pendingQ| ==> s.pendingQ[k] !in s.tasks || !s.tasks[s.pendingQ[k]].status.TaskPending?
    ensures c.StealFrom? ==>
              && c.victim in s.tasks && s.tasks[c.victim].InFlight() && s.tasks[c.victim].rangeEnd >= 0
              && Max(2, s.tasks[u].rangeEnd - s.tasks[u].granted) <= s.tasks[c.victim].rangeEnd - s.tasks[c.victim].granted
    ensures c.Nothing? ==> s' == s
    ensures c.Nothing? ==> exists v :: LongestTail(s, v) && s.tasks[v].rangeEnd - s.tasks[v].granted < 2
  {
    forall k | 0 <= k < |s.pendingQ| ensures s.pendingQ[k] !in s.tasks || !s.tasks[s.pendingQ[k]].status.TaskPending? {
      assert !Pollable(s, k);
    }
    assert Splittable(s, u);
    if c.Nothing? {
      var v := SomeLongest(s, s.tasks.Keys, u);
      assert !LegalVictim(s, v);
    }
  }

  ghost predicate LongestTail(s: State, v: TaskId) {
    && Splittable(s, v)
    && forall u :: Splittable(s, u) ==> s.tasks[u].Tail() <= s.tasks[v].Tail()
  }

  lemma {:induction false} SomeLongest(s: State, among: set<TaskId>, u: TaskId) returns (v: TaskId)
    requires u in among && Splittable(s, u)
    ensures v in among && Splittable(s, v) && forall x <- among :: Splittable(s, x) ==> s.tasks[x].Tail() <= s.tasks[v].Tail()
    decreases among
  {
    var rest := among - {u};
    if x :| x in rest && Splittable(s, x) {
      v := SomeLongest(s, rest, x);
      if s.tasks[v].Tail() < s.tasks[u].Tail() { v := u; }
    } else {
      v := u;
    }
  }

  /** A drain takes the first n off the queue and hands each pending one with a known job
      to the worker it names; nothing else changes. */
  lemma {:induction false} DrainAllLaw(s: State, ids: seq<TaskId>, t: TaskId)
    requires t in s.tasks
    ensures var s' := DrainAll(s, ids);
            && s' == s.(tasks := s'.tasks) && s'.tasks.Keys == s.tasks.Keys
            && (if t in ids && s.tasks[t].status.TaskPending? && s.tasks[t].jobId in s.jobs
                then HandedTo(s.tasks[t], s'.tasks[t], s.tasks[t].workerId, s.leaseChunk)
                else s'.tasks[t] == s.tasks[t])
  {
    if ids != [] {
      var n := |ids| - 1;
      DrainAllLaw(s, ids[..n], t);
      assert ids == ids[..n] + [ids[n]];
    }
  }

  lemma DrainLaw(s: State, n: nat, s': State, t: TaskId)
    requires Next(s, Op.DrainPending(n), s') && t in s.tasks
    ensures var k := Min(n, |s.pendingQ|);
            && s' == s.(tasks := s'.tasks, pendingQ := s.pendingQ[k..]) && s'.tasks.Keys == s.tasks.Keys
            && (if t in s.pendingQ[..k] && s.tasks[t].status.TaskPending? && s.tasks[t].jobId in s.jobs
                then HandedTo(s.tasks[t], s'.tasks[t], s.tasks[t].workerId, s.leaseChunk)
                else s'.tasks[t] == s.tasks[t])
  {
    var k := Min(n, |s.pendingQ|);
    DrainAllLaw(s.(pendingQ := s.pendingQ[k..]), s.pendingQ[..k], t);
  }

  /******* The chunk *******/

  /** The last positive chunk that was set, or the one at the start. */
  function LastChunk(chunk: int, ops: seq<Op>): int {
    if ops == [] then chunk else
      var last := ops[|ops| - 1];
      if last.SetLeaseChunk? && last.chunk > 0 then last.chunk else LastChunk(chunk, ops[..|ops| - 1])
  }

  lemma {:induction false} ReclaimKeepsChunk(s: State, order: seq<TaskId>)
    ensures ReclaimAll(s, order).leaseChunk == s.leaseChunk
  {
    if order != [] { ReclaimKeepsChunk(s, order[..|order| - 1]); }
  }

  lemma {:induction false} DrainKeepsChunk(s: State, ids: seq<TaskId>)
    ensures DrainAll(s, ids).leaseChunk == s.leaseChunk
  {
    if ids != [] { DrainKeepsChunk(s, ids[..|ids| - 1]); }
  }

  lemma StepChunk(s: State, op: Op, s': State)
    requires Next(s, op, s')
    ensures s'.leaseChunk == LastChunk(s.leaseChunk, [op])
  {
    assert [op][..0] == [];
    match op
    case SubmitJob(_, _, _, _, _) => SubmitRest(s, op, s');
    case RebalanceWorker(_, order) => ReclaimKeepsChunk(s, order);
    case DrainPending(n) =>
      var k := Min(n, |s.pendingQ|);
      DrainKeepsChunk(s.(pendingQ := s.pendingQ[k..]), s.pendingQ[..k]);
    case _ =>
  }

  /** In every run the chunk in use is the last positive one that was set. */
  lemma {:induction false} ChunkIsLastSet(hs: seq<History>, ops: seq<Op>, k: nat)
    requires Run(hs, ops) && k < |hs|
    ensures hs[k].s.leaseChunk == LastChunk(hs[0].s.leaseChunk, ops[..k])
  {
    if k > 0 {
      ChunkIsLastSet(hs, ops, k - 1);
      StepChunk(hs[k - 1].s, ops[k - 1], hs[k].s);
      OneMoreChunk(hs[0].s.leaseChunk, ops, k);
    }
  }

  lemma OneMoreChunk(chunk: int, ops: seq<Op>, k: nat)
    requires 0 < k <= |ops|
    ensures LastChunk(chunk, ops[..k]) == LastChunk(LastChunk(chunk, ops[..k - 1]), [ops[k - 1]])
  {
    assert ops[..k][..k - 1] == ops[..k - 1] && [ops[k - 1]][..0] == [];
  }

  /******* The fleet *******/

  /** A renewal a worker makes at its bound moves that bound by exactly one chunk, or by
      what is left of the range. */
  lemma BoundMovesByChunk(ws: seq<World>, evs: seq<Event>, i: nat, t: TaskId, act: Act, lost: bool)
    requires Behaviour(ws, evs) && i < |evs| && evs[i] == Event.Local(t, act, lost) && Renews(act)
    ensures t in ws[i].e && t in ws[i].h.s.tasks && t in ws[i + 1].h.s.tasks && ws[i].e[t].attempt.Some?
    ensures var k, k', a := ws[i].h.s.tasks[t], ws[i + 1].h.s.tasks[t], ws[i].e[t].attempt.value;
            && a.i == a.bound == k.granted == k'.frontier
            && k'.rangeEnd == (if k.SizeKnown() then k.rangeEnd else ws[i].e[t].n)
            && k'.granted == Min(a.bound + ws[i].h.s.leaseChunk, k'.rangeEnd)
  {
    BehavioursKeepInv(ws, evs, i);
    var w := ws[i];
    RenewalMove(w, t, act, lost, ws[i + 1]);
  }

  lemma RenewedAtBound(k: Task, e: Entry, act: Act, chunk: int)
    requires TaskOk(k, e) && Enabled(k, e, act) && Renews(act) && chunk > 0
    ensures var k', a := TaskAfter(k, e, act, chunk), e.attempt.value;
            && a.i == a.bound == k.granted == k'.frontier
            && k'.rangeEnd == (if k.SizeKnown() then k.rangeEnd else e.n)
            && k'.granted == Min(a.bound + chunk, k'.rangeEnd)
  {
  }

  lemma RenewalMove(w: World, t: TaskId, act: Act, lost: bool, w': World)
    requires AllOk(w.h.s, w.e) && w.h.s.leaseChunk > 0 && LocalStep(w, t, act, lost, w') && Renews(act)
    ensures t in w.e && t in w.h.s.tasks && t in w'.h.s.tasks && w.e[t].attempt.Some?
    ensures var k, k', a := w.h.s.tasks[t], w'.h.s.tasks[t], w.e[t].attempt.value;
            && a.i == a.bound == k.granted == k'.frontier
            && k'.rangeEnd == (if k.SizeKnown() then k.rangeEnd else w.e[t].n)
            && k'.granted == Min(a.bound + w.h.s.leaseChunk, k'.rangeEnd)
  {
    LocalTasks(w, t, act, lost, w');
    RenewedAtBound(w.h.s.tasks[t], w.e[t], act, w.h.s.leaseChunk);
  }

  /** Whatever way a task is handed out, its attempt starts with exactly one chunk, or the
      whole range if that is less. */
  lemma FirstChunk(ws: seq<World>, evs: seq<Event>, i: nat, t: TaskId)
    requires Behaviour(ws, evs) && i < |evs| && evs[i].Hand? && t in ws[i + 1].h.s.tasks
    requires HandedOut(ws[i].h.s, ws[i + 1].h.s, t)
    ensures var k' := ws[i + 1].h.s.tasks[t];
            k'.granted == UpTo(k'.rangeStart + ws[i].h.s.leaseChunk, k'.rangeEnd) && k'.frontier == k'.rangeStart
    ensures t in ws[i + 1].e && ws[i + 1].e[t].attempt.Some?
            && ws[i + 1].e[t].attempt.value.bound == ws[i + 1].h.s.tasks[t].granted
  {
    BehavioursKeepInv(ws, evs, i);
    HandMove(ws[i], evs[i].op, ws[i + 1], t);
    HandEntry(ws[i], evs[i].op, ws[i + 1], t);
  }

  /** What a task handed out starts with. */
  predicate FreshLease(k: Task, chunk: int) {
    k.granted == UpTo(k.rangeStart + chunk, k.rangeEnd) && k.frontier == k.rangeStart
  }

  lemma HandedFresh(k: Task, e: Entry, k': Task, w: WorkerId, chunk: int)
    requires TaskOk(k, e) && k.status.TaskPending? && HandedTo(k, k', w, chunk) && chunk > 0
    ensures FreshLease(k', chunk)
  {
  }

  lemma TakenFresh(w: World, op: Op, s': State, t: TaskId)
    requires AllOk(w.h.s, w.e) && w.h.s.leaseChunk > 0 && op.Poll? && op.choice.Take? && Next(w.h.s, op, s')
    requires t in s'.tasks && HandedOut(w.h.s, s', t)
    ensures FreshLease(s'.tasks[t], w.h.s.leaseChunk)
  {
    TakeLaw(w.h.s, op.w, op.owner, op.choice.index, s');
    HandedFresh(w.h.s.tasks[t], w.e[t], s'.tasks[t], op.w, w.h.s.leaseChunk);
  }

  lemma DrainedFresh(w: World, op: Op, s': State, t: TaskId)
    requires AllOk(w.h.s, w.e) && w.h.s.leaseChunk > 0 && op.DrainPending? && Next(w.h.s, op, s')
    requires t in s'.tasks && HandedOut(w.h.s, s', t)
    ensures FreshLease(s'.tasks[t], w.h.s.leaseChunk)
  {
    DrainKeys(w.h.s, op.n);
    DrainLaw(w.h.s, op.n, s', t);
    HandedFresh(w.h.s.tasks[t], w.e[t], s'.tasks[t], w.h.s.tasks[t].workerId, w.h.s.leaseChunk);
  }

  lemma StolenFresh(w: World, op: Op, s': State, t: TaskId)
    requires w.h.s.leaseChunk > 0 && Steals(op) && Next(w.h.s, op, s')
    requires t in s'.tasks && HandedOut(w.h.s, s', t)
    ensures FreshLease(s'.tasks[t], w.h.s.leaseChunk)
  {
    StealLaw(w.h.s, op.w, op.owner, op.choice.victim, op.choice.newId, s');
  }

  lemma HandMove(w: World, op: Op, w': World, t: TaskId)
    requires AllOk(w.h.s, w.e) && w.h.s.leaseChunk > 0 && HandStep(w, op, w') && t in w'.h.s.tasks && HandedOut(w.h.s, w'.h.s, t)
    ensures FreshLease(w'.h.s.tasks[t], w.h.s.leaseChunk)
  {
    if op.DrainPending? {
      DrainedFresh(w, op, w'.h.s, t);
    } else if Steals(op) {
      StolenFresh(w, op, w'.h.s, t);
    } else if op.choice.Take? {
      TakenFresh(w, op, w'.h.s, t);
    }
  }

  lemma HandEntry(w: World, op: Op, w': World, t: TaskId)
    requires HandStep(w, op, w') && t in w'.h.s.tasks && HandedOut(w.h.s, w'.h.s, t)
    ensures t in w'.e && w'.e[t].attempt.Some? && w'.e[t].attempt.value.bound == w'.h.s.tasks[t].granted
  {
    assert w'.e[t] == HandedEntry(w, op, w'.h.s, t);
  }
}
