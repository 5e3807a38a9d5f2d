/** The scheduler and all its workers and reports together, as one transition
    system: every interleaving of polls, steals, renewals, retries, worker deaths,
    rebalances of stopped workers and result reports, phase by phase.

    What the protocol assumes is in the guards: a worker is rebalanced only when it
    no longer acts, and an error report is sent once and settled before that. Failed
    renewals and failed starts, starts that reopen a task a late report has settled,
    lost reports, repeated success reports, success reports that outlive their worker
    and restarts of the coordinator are all steps. */
module Fleet {
  import opened Util
  import opened Tasks
  import opened SchedulerSpec
  import opened SchedulerRuns
  import opened JobBooks
  import opened Keys
  import opened FinalKeys
  import opened CommitFsm
  import opened Attempts

  /** What the reports act on outside the scheduler, and which of it is attached. */
  datatype Outside = Outside(
    committer: bool,
    decider: bool,
    effect: bool,
    objects: set<string>,
    records: Ledger,
    claimed: set<string>,
    emits: seq<string>,
    lost: set<string>)

  datatype World = World(h: History, e: map<TaskId, Entry>, x: Outside)

  datatype Event =
    | Admin(op: Op)                            // Submit, SetLeaseChunk
    | Hand(op: Op)                             // PollTasks, DrainPending
    | Rebalance(op: Op)
    | Local(t: TaskId, act: Act, lost: bool)
    | Restart(chunk: int)

  /******* Steps *******/

  ghost predicate AdminStep(w: World, op: Op, w': World) {
    && (op.SubmitJob? || op.SetLeaseChunk?)
    && Step(w.h, op, w'.h) && w'.x == w.x
    && w'.e.Keys == w'.h.s.tasks.Keys
    && forall t <- w'.e :: w'.e[t] == if t in w.e then w.e[t] else NewEntry(w'.e[t].n)
  }

  /** The entry of a task after a poll or a drain. */
  function HandedEntry(w: World, op: Op, s': State, t: TaskId): Entry
    requires t in s'.tasks
  {
    var old' :=
      if t in w.e then w.e[t]
      else if Steals(op) && op.choice.victim in w.e then NewEntry(w.e[op.choice.victim].n)
      else NewEntry(0);
    if HandedOut(w.h.s, s', t) then old'.(attempt := Some(NewAttempt(s'.tasks[t], old'.n)), short := false)
    else if Steals(op) && t == op.choice.victim then old'.(tainted := old'.tainted || old'.touched)
    else old'
  }

  ghost predicate HandStep(w: World, op: Op, w': World) {
    && (op.Poll? || op.DrainPending?)
    && Step(w.h, op, w'.h) && w'.x == w.x
    && w'.e.Keys == w'.h.s.tasks.Keys
    && forall t <- w'.e :: w'.e[t] == HandedEntry(w, op, w'.h.s, t)
  }

  ghost predicate RebalanceStep(w: World, op: Op, w': World) {
    && op.RebalanceWorker?
    && Step(w.h, op, w'.h) && w'.x == w.x
    && (forall t <- w.e :: HeldBy(w.h.s, t, op.w) ==> Running(w.e[t], Stopped))
    && w'.e == w.e
  }

  /** The scheduler call an act makes, if any. */
  function OpOf(w: World, t: TaskId, act: Act): Option<Op>
    requires t in w.e && t in w.h.s.tasks && Enabled(w.h.s.tasks[t], w.e[t], act)
  {
    match act
    case Begin => Some(StartTask(t))
    case RenewOk => Some(RenewLease(t, w.e[t].attempt.value.i, w.e[t].n))
    case RenewUnheard => Some(RenewLease(t, w.e[t].attempt.value.i, w.e[t].n))
    case End(j, worker) => Some(SettleTask(t, worker, w.e[t].reports[j].failed))
    case _ => None
  }

  /** Phases 2, 3 and 3.5 of ReportResult: copy, agree, fire the effect. A report
      can be lost in the middle of its effect, after the claim and before the
      event is out (`lost`): the call then returns an error. */
  ghost predicate OutsideStep(t: TaskId, k: Task, e: Entry, act: Act, lost: bool, x: Outside, x': Outside)
    requires Enabled(k, e, act)
  {
    match act
    case Copy(j) => x' == AfterCopy(k, e.reports[j], x)
    case Decide(j) => x' == AfterDecision(t, k, e.reports[j], x)
    case Effect(j) => x' == AfterEffect(k, e.reports[j], x)
    case Drop(j) => x' == AfterDrop(k, e.reports[j], lost, x)
    case _ => x' == x
  }

  function AfterDrop(k: Task, r: Report, lost: bool, x: Outside): Outside {
    var key := KeyFor(k, r.rng);
    if lost && r.stage == Decided && Fires(k, r, x) then x.(claimed := x.claimed + {key}, lost := x.lost + {key}) else x
  }

  function AfterCopy(k: Task, r: Report, x: Outside): Outside {
    if !r.failed && r.hasKey && x.committer then x.(objects := x.objects + {KeyFor(k, r.rng)}) else x
  }

  function AfterDecision(t: TaskId, k: Task, r: Report, x: Outside): Outside {
    if !r.failed && x.decider
    then x.(records := Apply(x.records, Command(t, k.jobId, r.gen, KeyFor(k, r.rng))))
    else x
  }

  predicate Fires(k: Task, r: Report, x: Outside) {
    !r.failed && x.effect && KeyFor(k, r.rng) !in x.claimed
  }

  function AfterEffect(k: Task, r: Report, x: Outside): Outside {
    var key := KeyFor(k, r.rng);
    if Fires(k, r, x) then x.(claimed := x.claimed + {key}, emits := x.emits + [key]) else x
  }

  ghost predicate LocalStep(w: World, t: TaskId, act: Act, lost: bool, w': World) {
    && t in w.h.s.tasks && t in w.e && Enabled(w.h.s.tasks[t], w.e[t], act)
    && (match OpOf(w, t, act)
        case Some(op) => Step(w.h, op, w'.h)
        case None => w'.h == w.h)
    && w'.e == w.e[t := EntryAfter(w.h.s.tasks[t], w.e[t], act, w.h.s.leaseChunk)]
    && OutsideStep(t, w.h.s.tasks[t], w.e[t], act, lost, w.x, w'.x)
  }

  /** The coordinator comes back with the state it had; what no call has written
      down, the chunk and the hook's record, starts afresh. The calls under way at
      the crash are lost, which is their Drop. */
  ghost predicate RestartStep(w: World, chunk: int, w': World) {
    && chunk > 0
    && (forall t <- w.e :: forall j :: 0 <= j < |w.e[t].reports| ==> w.e[t].reports[j].stage.Sent?)
    && w' == w.(h := w.h.(s := w.h.s.(leaseChunk := chunk, doneCalls := [])))
  }

  ghost predicate Move(w: World, ev: Event, w': World) {
    match ev
    case Admin(op) => AdminStep(w, op, w')
    case Hand(op) => HandStep(w, op, w')
    case Rebalance(op) => RebalanceStep(w, op, w')
    case Local(t, act, lost) => LocalStep(w, t, act, lost, w')
    case Restart(chunk) => RestartStep(w, chunk, w')
  }

  ghost predicate Start0(w: World) {
    Initial(w.h) && w.e == map[] && w.x.objects == {} && w.x.records == map[] && w.x.claimed == {} && w.x.emits == [] && w.x.lost == {}
  }

  ghost predicate Behaviour(ws: seq<World>, evs: seq<Event>) {
    && |ws| == |evs| + 1
    && Start0(ws[0])
    && forall i :: 0 <= i < |evs| ==> Move(ws[i], evs[i], ws[i + 1])
  }

  /******* The invariant *******/

  ghost predicate AllOk(s: State, e: map<TaskId, Entry>) {
    && e.Keys == s.tasks.Keys
    && forall t <- e :: TaskOk(s.tasks[t], e[t])
  }

  /** A shard has one listing: its tasks agree on its size, and a reported size is
      that size. */
  ghost predicate OneListing(w: World) {
    && (forall t {:trigger Listed(w, t)} :: t in w.e ==> Listed(w, t))
    && (forall r <- w.h.size :: r in w.e && w.h.size[r] == w.e[r].n)
  }

  predicate Listed(w: World, t: TaskId)
    requires t in w.e
  {
    t in w.h.root && w.h.root[t] in w.e && w.e[w.h.root[t]].n == w.e[t].n
  }

  ghost predicate Inv(w: World) {
    Tiled(w.h) && AllOk(w.h.s, w.e) && OneListing(w)
  }

  /******* Each kind of step keeps every task OK *******/

  lemma NewTaskOk(k: Task, tid: TaskId, j: JobId, maxRetries: int, n: nat)
    requires IsFresh(k, tid, j, maxRetries)
    ensures TaskOk(k, NewEntry(n))
  {
  }

  /** Old tasks and entries are as they were, the others are newly submitted. */
  ghost predicate Grown(s: State, e: map<TaskId, Entry>, op: Op, s': State, e': map<TaskId, Entry>) {
    && e'.Keys == s'.tasks.Keys
    && forall t <- e' ::
         if t in e then t in s.tasks && s'.tasks[t] == s.tasks[t] && e'[t] == e[t]
         else op.SubmitJob? && IsFresh(s'.tasks[t], t, op.j, op.maxRetries) && e'[t] == NewEntry(e'[t].n)
  }

  lemma GrownKeepsOk(s: State, e: map<TaskId, Entry>, op: Op, s': State, e': map<TaskId, Entry>)
    requires AllOk(s, e) && Grown(s, e, op, s', e')
    ensures AllOk(s', e')
  {
    forall t <- e' ensures TaskOk(s'.tasks[t], e'[t]) {
      if t !in e { NewTaskOk(s'.tasks[t], t, op.j, op.maxRetries, e'[t].n); }
    }
  }

  lemma SubmitGrows(s: State, e: map<TaskId, Entry>, op: Op, s': State, e': map<TaskId, Entry>)
    requires e.Keys == s.tasks.Keys && e'.Keys == s'.tasks.Keys && Submitted(s, op, s')
    requires forall t <- e' :: e'[t] == if t in e then e[t] else NewEntry(e'[t].n)
    ensures Grown(s, e, op, s', e')
  {
  }

  lemma AdminGrows(w: World, op: Op, w': World)
    requires Known(w.h) && w.e.Keys == w.h.s.tasks.Keys && AdminStep(w, op, w')
    ensures Grown(w.h.s, w.e, op, w'.h.s, w'.e)
  {
    if op.SubmitJob? {
      StepShape(w.h, op, w'.h.s);
      SubmitGrows(w.h.s, w.e, op, w'.h.s, w'.e);
    } else {
      assert w'.h.s.tasks == w.h.s.tasks;
    }
  }

  lemma AdminKeepsOk(w: World, op: Op, w': World)
    requires Known(w.h) && AllOk(w.h.s, w.e) && AdminStep(w, op, w')
    ensures AllOk(w'.h.s, w'.e)
  {
    AdminGrows(w, op, w');
    GrownKeepsOk(w.h.s, w.e, op, w'.h.s, w'.e);
  }

  /** A task is as it was, or was pending and is handed out. */
  predicate Given(k: Task, e: Entry, k': Task, e': Entry, chunk: int) {
    || (k' == k && e' == e)
    || (&& k.status.TaskPending?
        && k' == Grant(k.(status := TaskAssigned, workerId := k'.workerId), chunk)
        && e' == e.(attempt := Some(NewAttempt(k', e.n)), short := false))
  }

  ghost predicate AllGiven(s: State, e: map<TaskId, Entry>, s': State, e': map<TaskId, Entry>) {
    && e.Keys == s.tasks.Keys && e'.Keys == s'.tasks.Keys == e.Keys
    && forall t <- e :: Given(s.tasks[t], e[t], s'.tasks[t], e'[t], s.leaseChunk)
  }

  lemma GivenKeepsOk(s: State, e: map<TaskId, Entry>, s': State, e': map<TaskId, Entry>)
    requires AllOk(s, e) && s.leaseChunk > 0 && AllGiven(s, e, s', e')
    ensures AllOk(s', e')
  {
    forall t <- e' ensures TaskOk(s'.tasks[t], e'[t]) {
      if s.tasks[t].status.TaskPending? { HandoutOk(s.tasks[t], e[t], s'.tasks[t].workerId, s.leaseChunk); }
    }
  }

  lemma TakeGives(w: World, op: Op, w': World)
    requires w.e.Keys == w.h.s.tasks.Keys && HandStep(w, op, w') && op.Poll? && op.choice.Take?
    ensures AllGiven(w.h.s, w.e, w'.h.s, w'.e)
  {
    var s, s', tid := w.h.s, w'.h.s, w.h.s.pendingQ[op.choice.index];
    assert s'.tasks == s.tasks[tid := Grant(s.tasks[tid].(status := TaskAssigned, workerId := op.w), s.leaseChunk)];
    forall t <- w.e ensures Given(s.tasks[t], w.e[t], s'.tasks[t], w'.e[t], s.leaseChunk) {
      assert w'.e[t] == HandedEntry(w, op, s', t);
    }
  }

  /** The piece a thief gets is a task like any other just handed out. */
  lemma PieceOk(p: Task, n: nat)
    requires LeaseOrder(p) && WithinEnd(p) && p.SizeKnown() && p.rangeStart < p.rangeEnd <= n
    requires p.frontier == p.rangeStart && p.status.TaskAssigned?
    ensures TaskOk(p, NewEntry(n).(attempt := Some(NewAttempt(p, n)), short := false))
  {
  }

  lemma StolenKeepsOk(w: World, op: Op, w': World)
    requires AllOk(w.h.s, w.e) && Stolen(w.h.s, op, w'.h.s) && w'.e.Keys == w'.h.s.tasks.Keys
    requires forall t <- w'.e :: w'.e[t] == HandedEntry(w, op, w'.h.s, t)
    ensures AllOk(w'.h.s, w'.e)
  {
    var v, piece := op.choice.victim, op.choice.newId;
    ShrunkOk(w.h.s.tasks[v], w.e[v]);
    PieceOk(w'.h.s.tasks[piece], w.e[v].n);
    assert w'.e[piece] == HandedEntry(w, op, w'.h.s, piece);
  }

  lemma StealKeepsOk(w: World, op: Op, w': World)
    requires Known(w.h) && AllOk(w.h.s, w.e) && HandStep(w, op, w') && Steals(op)
    ensures AllOk(w'.h.s, w'.e)
  {
    StepShape(w.h, op, w'.h.s);
    StolenKeepsOk(w, op, w');
  }

  /** A drained task was pending and is granted its first chunk. */
  lemma {:induction false} DrainedExactly(s: State, ids: seq<TaskId>, t: TaskId)
    requires t in s.tasks
    ensures var s' := DrainAll(s, ids);
            && s'.tasks.Keys == s.tasks.Keys && s'.leaseChunk == s.leaseChunk
            && (s'.tasks[t] == s.tasks[t]
                || (s.tasks[t].status.TaskPending?
                    && s'.tasks[t] == Grant(s.tasks[t].(status := TaskAssigned, workerId := s.tasks[t].workerId), s.leaseChunk)))
  {
    if ids != [] { DrainedExactly(s, ids[..|ids| - 1], t); }
  }

  lemma DrainGives(w: World, op: Op, w': World)
    requires w.e.Keys == w.h.s.tasks.Keys && HandStep(w, op, w') && op.DrainPending?
    ensures AllGiven(w.h.s, w.e, w'.h.s, w'.e)
  {
    var s, s' := w.h.s, w'.h.s;
    var c := Min(op.n, |s.pendingQ|);
    DrainKeys(s, op.n);
    forall t <- w.e ensures Given(s.tasks[t], w.e[t], s'.tasks[t], w'.e[t], s.leaseChunk) {
      assert w'.e[t] == HandedEntry(w, op, s', t);
      DrainedExactly(s.(pendingQ := s.pendingQ[c..]), s.pendingQ[..c], t);
    }
  }

  lemma {:induction false} DrainKeysAll(s: State, ids: seq<TaskId>)
    ensures DrainAll(s, ids).tasks.Keys == s.tasks.Keys
  {
    if ids != [] { DrainKeysAll(s, ids[..|ids| - 1]); }
  }

  lemma DrainKeys(s: State, n: nat)
    ensures Drain(s, n).tasks.Keys == s.tasks.Keys
  {
    var c := Min(n, |s.pendingQ|);
    DrainKeysAll(s.(pendingQ := s.pendingQ[c..]), s.pendingQ[..c]);
  }

  lemma NothingGives(w: World, op: Op, w': World)
    requires w.e.Keys == w.h.s.tasks.Keys && HandStep(w, op, w') && op.Poll? && op.choice.Nothing?
    ensures AllGiven(w.h.s, w.e, w'.h.s, w'.e)
  {
    forall t <- w.e ensures w'.e[t] == w.e[t] { assert w'.e[t] == HandedEntry(w, op, w'.h.s, t); }
  }

  lemma HandKeepsOk(w: World, op: Op, w': World)
    requires Known(w.h) && AllOk(w.h.s, w.e) && HandStep(w, op, w')
    ensures AllOk(w'.h.s, w'.e)
  {
    if Steals(op) {
      StealKeepsOk(w, op, w');
    } else {
      if op.DrainPending? {
        DrainGives(w, op, w');
      } else if op.choice.Take? {
        TakeGives(w, op, w');
      } else {
        NothingGives(w, op, w');
      }
      GivenKeepsOk(w.h.s, w.e, w'.h.s, w'.e);
    }
  }

  /** Each task the rebalanced worker held is reclaimed, the others stay. */
  ghost predicate Taken(s: State, e: map<TaskId, Entry>, s': State) {
    && s'.tasks.Keys == s.tasks.Keys
    && forall t <- s.tasks ::
         || s'.tasks[t] == s.tasks[t]
         || (s.tasks[t].InFlight() && t in e && Running(e[t], Stopped) && s'.tasks[t] == Reclaimed(s.tasks[t]))
  }

  lemma TakenKeepsOk(s: State, e: map<TaskId, Entry>, s': State)
    requires AllOk(s, e) && Taken(s, e, s')
    ensures AllOk(s', e)
  {
    forall t <- e ensures TaskOk(s'.tasks[t], e[t]) {
      if s'.tasks[t] != s.tasks[t] { ReclaimOk(s.tasks[t], e[t]); }
    }
  }

  lemma RebalanceTakes(w: World, op: Op, w': World)
    requires w.e.Keys == w.h.s.tasks.Keys && RebalanceStep(w, op, w')
    ensures Taken(w.h.s, w.e, w'.h.s)
  {
    var s, s' := w.h.s, w'.h.s;
    ReclaimedQueue(s, op.order);
    forall t <- s.tasks
      ensures s'.tasks[t] == s.tasks[t] || (s.tasks[t].InFlight() && Running(w.e[t], Stopped) && s'.tasks[t] == Reclaimed(s.tasks[t]))
    {
      ReclaimedTask(s, op.order, t);
      if t in op.order {
        var i :| 0 <= i < |op.order| && op.order[i] == t;
        assert HeldBy(s, t, op.w);
      }
    }
  }

  lemma RebalanceKeepsOk(w: World, op: Op, w': World)
    requires AllOk(w.h.s, w.e) && RebalanceStep(w, op, w')
    ensures AllOk(w'.h.s, w'.e)
  {
    RebalanceTakes(w, op, w');
    TakenKeepsOk(w.h.s, w.e, w'.h.s);
  }

  lemma SettledTasks(s: State, t: TaskId, w: WorkerId, failed: bool)
    requires t in s.tasks
    ensures var k := s.tasks[t];
            Settle(s, t, w, failed).tasks ==
              s.tasks[t := if k.status.TaskDone? then k
                           else if failed then Retried(k, w)
                           else k.(status := TaskDone, workerId := w)]
  {
  }

  /** What an act's scheduler call does to the tasks: only task t changes. */
  lemma LocalTasks(w: World, t: TaskId, act: Act, lost: bool, w': World)
    requires LocalStep(w, t, act, lost, w')
    ensures w'.h.s.tasks == w.h.s.tasks[t := TaskAfter(w.h.s.tasks[t], w.e[t], act, w.h.s.leaseChunk)]
  {
    if act.End? {
      SettledTasks(w.h.s, t, act.w, w.e[t].reports[act.j].failed);
    }
  }

  lemma LocalKeepsOk(w: World, t: TaskId, act: Act, lost: bool, w': World)
    requires w.h.s.leaseChunk > 0 && AllOk(w.h.s, w.e) && LocalStep(w, t, act, lost, w')
    ensures AllOk(w'.h.s, w'.e)
  {
    LocalTasks(w, t, act, lost, w');
    ActKeepsOk(w.h.s.tasks[t], w.e[t], act, w.h.s.leaseChunk);
  }

  /******* One listing per shard *******/

  /** Entries keep n, a stolen piece has its victim's, and a size that appears is
      the one the listing shows. */
  lemma LineageKeepsListing(w: World, op: Op, w': World)
    requires OneListing(w) && Lineage(w.h, op, w'.h) && w.e.Keys == w.h.s.tasks.Keys && w'.e.Keys == w'.h.s.tasks.Keys
    requires forall t <- w.e :: w'.e[t].n == w.e[t].n
    requires Steals(op) ==> op.choice.newId in w'.e && op.choice.victim in w.e && w'.e[op.choice.newId].n == w.e[op.choice.victim].n
    requires forall r <- w'.h.size :: if r in w.h.size then w'.h.size[r] == w.h.size[r] else r in w.e && w'.h.size[r] == w.e[r].n
    ensures OneListing(w')
  {
    forall t <- w'.e ensures Listed(w', t) {
      if t in w.e {
        assert Listed(w, t);
      } else if Steals(op) {
        assert Listed(w, op.choice.victim);
      }
    }
  }

  lemma AdminKeepsListing(w: World, op: Op, w': World)
    requires OneListing(w) && w.e.Keys == w.h.s.tasks.Keys && AdminStep(w, op, w') && Lineage(w.h, op, w'.h)
    ensures OneListing(w')
  {
    LineageKeepsListing(w, op, w');
  }

  /** Polls and drains keep every n, and give a stolen piece its victim's. */
  lemma HandKeepsN(w: World, op: Op, w': World)
    requires w.e.Keys <= w'.e.Keys == w'.h.s.tasks.Keys && forall t <- w'.e :: w'.e[t] == HandedEntry(w, op, w'.h.s, t)
    ensures forall t <- w.e :: w'.e[t].n == w.e[t].n
    ensures Steals(op) && op.choice.newId in w'.e && op.choice.newId !in w.e && op.choice.victim in w.e ==>
              w'.e[op.choice.newId].n == w.e[op.choice.victim].n
  {
  }

  lemma HandKeepsListing(w: World, op: Op, w': World)
    requires OneListing(w) && w.e.Keys == w.h.s.tasks.Keys && HandStep(w, op, w') && Lineage(w.h, op, w'.h)
    ensures OneListing(w')
  {
    HandKeepsN(w, op, w');
    HandSizes(w.h, op, w'.h);
    LineageKeepsListing(w, op, w');
  }

  lemma HandSizes(h: History, op: Op, h': History)
    requires Step(h, op, h') && (op.Poll? || op.DrainPending?)
    ensures h'.size == h.size
  {
  }

  lemma RebalanceKeepsListing(w: World, op: Op, w': World)
    requires OneListing(w) && w.e.Keys == w.h.s.tasks.Keys && RebalanceStep(w, op, w') && Lineage(w.h, op, w'.h)
    ensures OneListing(w')
  {
    ReclaimedQueue(w.h.s, op.order);
    LineageKeepsListing(w, op, w');
  }

  lemma EntryKeepsN(k: Task, e: Entry, act: Act, chunk: int)
    requires Enabled(k, e, act)
    ensures EntryAfter(k, e, act, chunk).n == e.n
  {
  }

  lemma QuietActKeepsListing(w: World, t: TaskId, act: Act, lost: bool, w': World)
    requires OneListing(w) && w.e.Keys == w.h.s.tasks.Keys && LocalStep(w, t, act, lost, w')
    requires OpOf(w, t, act).None?
    ensures OneListing(w')
  {
    EntryKeepsN(w.h.s.tasks[t], w.e[t], act, w.h.s.leaseChunk);
    forall u <- w'.e ensures Listed(w', u) { assert Listed(w, u); }
  }

  /** An act's scheduler call can only give its own task the listing's size. */
  lemma CallSizes(w: World, t: TaskId, act: Act, lost: bool, w': World)
    requires LocalStep(w, t, act, lost, w') && OpOf(w, t, act).Some?
    ensures w'.h.size == w.h.size || w'.h.size == w.h.size[t := w.e[t].n]
    ensures w'.e.Keys == w.e.Keys && forall u <- w.e :: w'.e[u].n == w.e[u].n
    ensures !Steals(OpOf(w, t, act).value)
  {
    EntryKeepsN(w.h.s.tasks[t], w.e[t], act, w.h.s.leaseChunk);
  }

  lemma SizesKeepListing(w: World, t: TaskId, op: Op, w': World)
    requires OneListing(w) && Lineage(w.h, op, w'.h) && !Steals(op) && t in w.e
    requires w.e.Keys == w.h.s.tasks.Keys == w'.h.s.tasks.Keys == w'.e.Keys && forall u <- w.e :: w'.e[u].n == w.e[u].n
    requires w'.h.size == w.h.size || w'.h.size == w.h.size[t := w.e[t].n]
    ensures OneListing(w')
  {
    LineageKeepsListing(w, op, w');
  }

  /******* Every behaviour *******/

  lemma CallKeepsTiling(h: History, op: Op, h': History)
    requires Tiled(h) && Step(h, op, h')
    ensures Tiled(h') && Lineage(h, op, h')
  {
    StepKeepsTiling(h, op, h');
    ShapedLineage(h, op, h');
  }

  lemma MoveKeepsInv(w: World, ev: Event, w': World)
    requires Inv(w) && Move(w, ev, w')
    ensures Inv(w')
  {
    match ev
    case Admin(op) =>
      CallKeepsTiling(w.h, op, w'.h);
      AdminKeepsOk(w, op, w');
      AdminKeepsListing(w, op, w');
    case Hand(op) =>
      CallKeepsTiling(w.h, op, w'.h);
      HandKeepsOk(w, op, w');
      HandKeepsListing(w, op, w');
    case Rebalance(op) =>
      CallKeepsTiling(w.h, op, w'.h);
      RebalanceKeepsOk(w, op, w');
      RebalanceKeepsListing(w, op, w');
    case Local(t, act, lost) =>
      LocalKeepsInv(w, t, act, lost, w');
    case Restart(chunk) =>
      RestartKeepsInv(w, chunk, w');
  }

  lemma RestartKeepsTiling(h: History, chunk: int)
    requires Tiled(h) && chunk > 0
    ensures Tiled(h.(s := h.s.(leaseChunk := chunk, doneCalls := [])))
  {
    var h' := h.(s := h.s.(leaseChunk := chunk, doneCalls := []));
    forall t <- h'.s.tasks ensures KnownTask(h', t) { assert KnownTask(h, t); }
    forall r | Member(h', r, r) ensures FamilyShape(h', r) {
      assert Member(h, r, r);
      FamilyCarries(h, h', r);
    }
  }

  lemma RestartKeepsInv(w: World, chunk: int, w': World)
    requires Inv(w) && RestartStep(w, chunk, w')
    ensures Inv(w')
  {
    RestartKeepsTiling(w.h, chunk);
    forall t <- w'.e ensures Listed(w', t) { assert Listed(w, t); }
  }

  lemma LocalKeepsInv(w: World, t: TaskId, act: Act, lost: bool, w': World)
    requires Inv(w) && LocalStep(w, t, act, lost, w')
    ensures Inv(w')
  {
    LocalKeepsOk(w, t, act, lost, w');
    if OpOf(w, t, act).Some? {
      CallKeepsTiling(w.h, OpOf(w, t, act).value, w'.h);
      CallSizes(w, t, act, lost, w');
      LocalTasks(w, t, act, lost, w');
      SizesKeepListing(w, t, OpOf(w, t, act).value, w');
    } else {
      QuietActKeepsListing(w, t, act, lost, w');
    }
  }

  lemma {:induction false} BehavioursKeepInv(ws: seq<World>, evs: seq<Event>, i: nat)
    requires Behaviour(ws, evs) && i < |ws|
    ensures Inv(ws[i])
  {
    if i > 0 {
      BehavioursKeepInv(ws, evs, i - 1);
      MoveKeepsInv(ws[i - 1], evs[i - 1], ws[i]);
    }
  }

  /******* What that gives *******/

  /** The interval of offsets an attempt has processed so far. */
  predicate Processed(e: Entry, x: int) {
    e.attempt.Some? && e.attempt.value.start <= x < e.attempt.value.i
  }

  predicate Committed(e: Entry, x: int) {
    e.commit.Some? && e.commit.value.span.lo <= x < e.commit.value.span.hi
  }

  /** The task has been cut since the result was sent that settled it last. */
  predicate Overtaken(w: World, t: TaskId)
    requires t in w.e && t in w.h.s.tasks
  {
    w.e[t].commit.Some? && w.e[t].commit.value.span.made < w.h.s.tasks[t].generation
  }

  /** A committed interval lies in the shard and, unless its task was cut meanwhile,
      in the range its task owns. */
  lemma CommittedInside(w: World, t: TaskId, x: int)
    requires Inv(w) && t in w.e && Committed(w.e[t], x)
    ensures 0 <= x < w.e[t].n
    ensures !Overtaken(w, t) && w.h.s.tasks[t].SizeKnown() ==> w.h.s.tasks[t].Owns(x)
  {
    assert TaskOk(w.h.s.tasks[t], w.e[t]);
  }

  /** Two tasks of one family own no offset in common. */
  lemma FamilyApart(w: World, t: TaskId, u: TaskId, x: int)
    requires Inv(w) && t in w.e && u in w.e && t != u && w.h.root[t] == w.h.root[u]
    requires !w.h.s.tasks[t].SizeKnown() || w.h.s.tasks[t].Owns(x)
    ensures w.h.s.tasks[u].SizeKnown() && !w.h.s.tasks[u].Owns(x)
  {
    var r := w.h.root[t];
    assert KnownTask(w.h, t) && KnownTask(w.h, u);
    assert Member(w.h, r, t) && Member(w.h, r, u) && Member(w.h, r, r);
    assert FamilyShape(w.h, r);
  }

  /** Safety: no offset of a shard stands behind two committed results, unless one
      of their tasks was cut after its result was sent. */
  lemma CommitsDisjoint(ws: seq<World>, evs: seq<Event>, i: nat, t: TaskId, u: TaskId, x: int)
    requires Behaviour(ws, evs) && i < |ws|
    requires t in ws[i].e && u in ws[i].e && t in ws[i].h.root && u in ws[i].h.root
    requires t in ws[i].h.s.tasks && u in ws[i].h.s.tasks && !Overtaken(ws[i], t) && !Overtaken(ws[i], u)
    requires t != u && ws[i].h.root[t] == ws[i].h.root[u]
    ensures !(Committed(ws[i].e[t], x) && Committed(ws[i].e[u], x))
  {
    var w := ws[i];
    BehavioursKeepInv(ws, evs, i);
    if Committed(w.e[t], x) {
      CommittedInside(w, t, x);
      FamilyApart(w, t, u, x);
      if Committed(w.e[u], x) { CommittedInside(w, u, x); }
    }
  }

  /** Attempts under way or finished on different tasks of a shard have processed
      no offset in common. */
  lemma AttemptsDisjoint(ws: seq<World>, evs: seq<Event>, i: nat, t: TaskId, u: TaskId, x: int)
    requires Behaviour(ws, evs) && i < |ws|
    requires t in ws[i].e && u in ws[i].e && t in ws[i].h.root && u in ws[i].h.root
    requires t != u && ws[i].h.root[t] == ws[i].h.root[u]
    requires Busy(ws[i], t) && Busy(ws[i], u)
    ensures !(Processed(ws[i].e[t], x) && Processed(ws[i].e[u], x))
  {
    var w := ws[i];
    BehavioursKeepInv(ws, evs, i);
    if Processed(w.e[t], x) && Processed(w.e[u], x) {
      ProcessedInside(w, t, x);
      ProcessedInside(w, u, x);
      FamilyApart(w, t, u, x);
    }
  }

  predicate Busy(w: World, t: TaskId) {
    && t in w.e && t in w.h.s.tasks && Live(w.h.s.tasks[t])
    && (Running(w.e[t], Fresh) || Running(w.e[t], Looping) || HasResult(w.e[t]))
  }

  /** A worker touches only what the scheduler granted, inside the task's range. */
  lemma ProcessedInside(w: World, t: TaskId, x: int)
    requires Inv(w) && Busy(w, t) && Processed(w.e[t], x)
    ensures x < w.h.s.tasks[t].granted && (w.h.s.tasks[t].SizeKnown() ==> w.h.s.tasks[t].Owns(x))
  {
    assert TaskOk(w.h.s.tasks[t], w.e[t]);
  }

  /** A finishing worker has covered its whole range, unless its loop ended on a
      failed renewal with items ahead of it. */
  lemma FinishedIsComplete(ws: seq<World>, evs: seq<Event>, i: nat, t: TaskId)
    requires Behaviour(ws, evs) && i < |ws|
    requires t in ws[i].e && t in ws[i].h.s.tasks && Live(ws[i].h.s.tasks[t]) && HasResult(ws[i].e[t])
    ensures var k, a := ws[i].h.s.tasks[t], ws[i].e[t].attempt.value;
            !ws[i].e[t].short <==> a.i == if k.SizeKnown() then k.rangeEnd else ws[i].e[t].n
    ensures var k, a := ws[i].h.s.tasks[t], ws[i].e[t].attempt.value;
            !ws[i].e[t].short && k.SizeKnown() ==> a.i == k.rangeEnd == k.granted
  {
    BehavioursKeepInv(ws, evs, i);
    assert TaskOk(ws[i].h.s.tasks[t], ws[i].e[t]);
  }

  /** Only a failed renewal with items ahead makes an attempt short. */
  lemma OnlyLostRenewalsAreShort(k: Task, e: Entry, act: Act, chunk: int)
    requires TaskOk(k, e) && Enabled(k, e, act) && chunk > 0
    ensures !e.short && EntryAfter(k, e, act, chunk).short <==>
              !e.short && (act.RenewLost? || act.RenewUnheard?) && e.attempt.value.i < if k.SizeKnown() then k.rangeEnd else e.n
  {
  }

  /******* Coverage *******/

  ghost predicate FamilyDone(w: World, r: TaskId) {
    forall t :: Member(w.h, r, t) ==> w.h.s.tasks[t].status.TaskDone?
  }

  ghost predicate CommittedBySome(w: World, r: TaskId, x: int) {
    exists t :: Member(w.h, r, t) && t in w.e && Committed(w.e[t], x)
  }

  /** No committed result of the family left its loop early. */
  ghost predicate NoneShort(w: World, r: TaskId) {
    forall t :: Member(w.h, r, t) && t in w.e && w.e[t].commit.Some? ==> !w.e[t].commit.value.span.short
  }

  ghost predicate NoneOvertaken(w: World, r: TaskId) {
    forall t :: Member(w.h, r, t) && t in w.e ==> !Overtaken(w, t)
  }

  /** A complete result covers its task's range, and more if the task was cut. */
  lemma CoversOwn(w: World, t: TaskId, x: int)
    requires Inv(w) && t in w.e && w.e[t].commit.Some? && !w.e[t].commit.value.span.short
    requires if w.h.s.tasks[t].SizeKnown() then w.h.s.tasks[t].Owns(x) else 0 <= x < w.e[t].n
    ensures Committed(w.e[t], x)
  {
    assert TaskOk(w.h.s.tasks[t], w.e[t]);
  }

  /** The task of the family that answers for an offset of the shard. */
  lemma OwnerOf(w: World, r: TaskId, x: int) returns (t: TaskId)
    requires Inv(w) && Member(w.h, r, r) && 0 <= x < w.e[r].n
    ensures Member(w.h, r, t) && t in w.e
    ensures if w.h.s.tasks[t].SizeKnown() then w.h.s.tasks[t].Owns(x) else 0 <= x < w.e[t].n
  {
    assert FamilyShape(w.h, r);
    t := r;
    if r in w.h.size {
      assert w.h.size[r] == w.e[r].n;
      assert Covered(w.h, r, x);
      t :| Member(w.h, r, t) && w.h.s.tasks[t].Owns(x);
    }
  }

  lemma CompleteCovers(w: World, r: TaskId, x: int)
    requires Inv(w) && Member(w.h, r, r) && FamilyDone(w, r) && NoneShort(w, r) && 0 <= x < w.e[r].n
    ensures CommittedBySome(w, r, x)
  {
    var t := OwnerOf(w, r, x);
    assert TaskOk(w.h.s.tasks[t], w.e[t]);
    CoversOwn(w, t, x);
  }

  /** The first item a short result leaves out is behind no result of the shard,
      when no task was cut under a result on its way. */
  lemma ShortLeavesGap(w: World, r: TaskId, t: TaskId)
    requires Inv(w) && Member(w.h, r, r) && Member(w.h, r, t) && FamilyDone(w, r) && NoneOvertaken(w, r)
    requires w.e[t].commit.Some? && w.e[t].commit.value.span.short
    ensures exists x :: 0 <= x < w.e[r].n && !CommittedBySome(w, r, x)
  {
    var k := w.h.s.tasks[t];
    assert TaskOk(k, w.e[t]) && Listed(w, t);
    var x := w.e[t].commit.value.span.hi;
    assert 0 <= x < w.e[r].n && (k.SizeKnown() ==> k.Owns(x));
    forall u | Member(w.h, r, u) && u in w.e && Committed(w.e[u], x) ensures false {
      if u != t {
        CommittedInside(w, u, x);
        FamilyApart(w, t, u, x);
      }
    }
    assert !CommittedBySome(w, r, x);
  }

  /** When every task of a shard is done and none of their results was short, every
      offset of the shard is behind one. While no task was cut under a result on its
      way, that is so only then. */
  lemma CommitsCoverShard(ws: seq<World>, evs: seq<Event>, i: nat, r: TaskId)
    requires Behaviour(ws, evs) && i < |ws|
    requires Member(ws[i].h, r, r) && FamilyDone(ws[i], r) && r in ws[i].e
    ensures NoneShort(ws[i], r) ==> forall x :: 0 <= x < ws[i].e[r].n ==> CommittedBySome(ws[i], r, x)
    ensures NoneOvertaken(ws[i], r) && (forall x :: 0 <= x < ws[i].e[r].n ==> CommittedBySome(ws[i], r, x)) ==> NoneShort(ws[i], r)
    ensures forall x :: CommittedBySome(ws[i], r, x) ==> 0 <= x < ws[i].e[r].n
  {
    var w := ws[i];
    BehavioursKeepInv(ws, evs, i);
    if NoneShort(w, r) {
      forall x | 0 <= x < w.e[r].n ensures CommittedBySome(w, r, x) { CompleteCovers(w, r, x); }
    } else if NoneOvertaken(w, r) {
      var t :| Member(w.h, r, t) && t in w.e && w.e[t].commit.Some? && w.e[t].commit.value.span.short;
      ShortLeavesGap(w, r, t);
    }
    forall x | CommittedBySome(w, r, x) ensures 0 <= x < w.e[r].n {
      var t :| Member(w.h, r, t) && t in w.e && Committed(w.e[t], x);
      CommittedInside(w, t, x);
      assert Listed(w, t);
    }
  }

  /** No offset is behind the results of two tasks of the family. */
  ghost predicate NoOverlap(w: World, r: TaskId) {
    forall t, u, x :: Member(w.h, r, t) && Member(w.h, r, u) && t != u && t in w.e && u in w.e ==>
      !(Committed(w.e[t], x) && Committed(w.e[u], x))
  }

  /** An overtaken complete result and the one of the task that owns the first item
      cut off overlap there. */
  lemma OvertakenOverlaps(w: World, r: TaskId, t: TaskId)
    requires Inv(w) && Member(w.h, r, r) && Member(w.h, r, t) && FamilyDone(w, r) && NoneShort(w, r)
    requires t in w.e && Overtaken(w, t)
    ensures !NoOverlap(w, r)
  {
    var k := w.h.s.tasks[t];
    assert TaskOk(k, w.e[t]) && Listed(w, t);
    var x := k.rangeEnd;
    assert Committed(w.e[t], x);
    var u := OwnerOf(w, r, x);
    assert TaskOk(w.h.s.tasks[u], w.e[u]);
    CoversOwn(w, u, x);
  }

  /** Once a shard's tasks are done, none short, no offset is behind two results if
      and only if no task was cut after its own was sent: its generation is still the
      one of that moment. */
  lemma CommitsDisjointExactly(ws: seq<World>, evs: seq<Event>, i: nat, r: TaskId)
    requires Behaviour(ws, evs) && i < |ws|
    requires Member(ws[i].h, r, r) && FamilyDone(ws[i], r) && NoneShort(ws[i], r)
    ensures NoOverlap(ws[i], r) <==> NoneOvertaken(ws[i], r)
  {
    var w := ws[i];
    BehavioursKeepInv(ws, evs, i);
    if NoneOvertaken(w, r) {
      forall t, u, x | Member(w.h, r, t) && Member(w.h, r, u) && t != u && t in w.e && u in w.e
        ensures !(Committed(w.e[t], x) && Committed(w.e[u], x))
      {
        CommitsDisjoint(ws, evs, i, t, u, x);
      }
    } else {
      var t :| Member(w.h, r, t) && t in w.e && Overtaken(w, t);
      OvertakenOverlaps(w, r, t);
    }
  }

  /** A done task's complete result covers exactly its range if and only if the task
      was not cut under it. */
  lemma CommittedExactly(ws: seq<World>, evs: seq<Event>, i: nat, t: TaskId)
    requires Behaviour(ws, evs) && i < |ws| && t in ws[i].e && t in ws[i].h.s.tasks
    requires ws[i].e[t].commit.Some? && !ws[i].e[t].commit.value.span.short
    ensures Overtaken(ws[i], t) <==> !Complete(ws[i].h.s.tasks[t], ws[i].e[t].commit.value.span.hi, ws[i].e[t].n)
  {
    BehavioursKeepInv(ws, evs, i);
    assert TaskOk(ws[i].h.s.tasks[t], ws[i].e[t]);
    LateResultExact(ws[i].h.s.tasks[t], ws[i].e[t].n, ws[i].e[t].commit.value.span);
  }
}
