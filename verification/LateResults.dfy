/** What becomes of a result that outlives its worker, on runs that exist: the
    first attempt finishes [0, 100) and its report is delayed, the task is re-run,
    its tail [54, 100) is stolen, and then the late report settles it; or the late
    report comes first, and the start of the second attempt reopens the task. */
module LateResults {
  import opened Util
  import opened Tasks
  import opened SchedulerSpec
  import opened SchedulerRuns
  import opened JobBooks
  import opened Attempts
  import opened Fleet
  import opened FleetSteps

  ghost predicate EndsIn(ws: seq<World>, evs: seq<Event>, w: World) {
    Behaviour(ws, evs) && ws[|ws| - 1] == w
  }

  ghost predicate Reachable(w: World) { exists ws, evs :: EndsIn(ws, evs, w) }

  lemma Reached(w: World, ev: Event, w': World)
    requires Reachable(w) && Move(w, ev, w')
    ensures Reachable(w')
  {
    var ws, evs :| EndsIn(ws, evs, w);
    var ws', evs' := ws + [w'], evs + [ev];
    forall i | 0 <= i < |evs'| ensures Move(ws'[i], evs'[i], ws'[i + 1]) {
      if i < |evs| { assert Move(ws[i], evs[i], ws[i + 1]); }
    }
    assert EndsIn(ws', evs', w');
  }

  lemma ReachableInv(w: World)
    requires Reachable(w)
    ensures Inv(w)
  {
    var ws, evs :| EndsIn(ws, evs, w);
    BehavioursKeepInv(ws, evs, |ws| - 1);
  }

  /******* Acts of one task *******/

  /** Only task t and its entry differ, and what of the outside is attached stays so. */
  ghost predicate OnlyAt(w: World, t: TaskId, w': World) {
    && t in w.e && t in w.h.s.tasks && t in w'.e && t in w'.h.s.tasks
    && w'.h.s.tasks == w.h.s.tasks[t := w'.h.s.tasks[t]] && w'.e == w.e[t := w'.e[t]]
    && w'.h.s.pendingQ == w.h.s.pendingQ && w'.h.s.leaseChunk == w.h.s.leaseChunk && w'.h.root == w.h.root
    && w'.x.committer == w.x.committer
  }

  /** The act settles no failure, so the queue is left alone. */
  predicate Smooth(e: Entry, act: Act) {
    act.End? ==> act.j < |e.reports| && !e.reports[act.j].failed
  }

  lemma CallKeepsQueue(h: History, op: Op, h': History)
    requires Step(h, op, h') && h.root.Keys == h.s.tasks.Keys == h'.s.tasks.Keys
    requires op.StartTask? || op.RenewLease? || (op.SettleTask? && !op.failed)
    ensures h'.s.pendingQ == h.s.pendingQ && h'.s.leaseChunk == h.s.leaseChunk && h'.root == h.root
  {
  }

  lemma ReachableOk(w: World, t: TaskId)
    requires Reachable(w) && t in w.e && t in w.h.s.tasks
    ensures TaskOk(w.h.s.tasks[t], w.e[t]) && w.h.s.leaseChunk > 0 && w.h.root.Keys == w.h.s.tasks.Keys
  {
    ReachableInv(w);
  }

  lemma CallOnlyAt(w: World, t: TaskId, act: Act, w': World)
    requires LocalStep(w, t, act, false, w') && Smooth(w.e[t], act) && w.h.root.Keys == w.h.s.tasks.Keys
    requires w'.h.s.tasks.Keys == w.h.s.tasks.Keys
    ensures w'.h.s.pendingQ == w.h.s.pendingQ && w'.h.s.leaseChunk == w.h.s.leaseChunk && w'.h.root == w.h.root
  {
    if OpOf(w, t, act).Some? { CallKeepsQueue(w.h, OpOf(w, t, act).value, w'.h); }
  }

  lemma LocalOnlyAt(w: World, t: TaskId, act: Act, w': World)
    requires LocalStep(w, t, act, false, w') && Smooth(w.e[t], act) && w.h.root.Keys == w.h.s.tasks.Keys
    ensures OnlyAt(w, t, w')
    ensures w'.h.s.tasks[t] == TaskAfter(w.h.s.tasks[t], w.e[t], act, w.h.s.leaseChunk)
    ensures w'.e[t] == EntryAfter(w.h.s.tasks[t], w.e[t], act, w.h.s.leaseChunk)
  {
    LocalTasks(w, t, act, false, w');
    CallOnlyAt(w, t, act, w');
  }

  lemma Act1(w: World, t: TaskId, act: Act) returns (w': World)
    requires Reachable(w) && t in w.e && t in w.h.s.tasks && Enabled(w.h.s.tasks[t], w.e[t], act) && Smooth(w.e[t], act)
    ensures Reachable(w') && OnlyAt(w, t, w')
    ensures w'.h.s.tasks[t] == TaskAfter(w.h.s.tasks[t], w.e[t], act, w.h.s.leaseChunk)
    ensures w'.e[t] == EntryAfter(w.h.s.tasks[t], w.e[t], act, w.h.s.leaseChunk)
    ensures OutsideStep(t, w.h.s.tasks[t], w.e[t], act, false, w.x, w'.x)
  {
    ReachableOk(w, t);
    w' := ActMoves(w, t, act, false);
    Reached(w, Local(t, act, false), w');
    LocalOnlyAt(w, t, act, w');
  }

  lemma OnlyAtTwice(w: World, t: TaskId, w': World, w'': World)
    requires OnlyAt(w, t, w') && OnlyAt(w', t, w'')
    ensures OnlyAt(w, t, w'')
  {
  }

  /** The task keeps who it is and what it owns; its size is learned or it is as it
      was. */
  predicate SameWork(k: Task, k': Task, n: nat) {
    && k'.jobId == k.jobId && k'.workerId == k.workerId && k'.status == k.status
    && k'.retries == k.retries && k'.maxRetries == k.maxRetries
    && k'.rangeStart == k.rangeStart && k'.generation == k.generation && (k.SizeKnown() ==> k'.rangeEnd == k.rangeEnd)
    && (k' == k || (k'.SizeKnown() && (k.SizeKnown() || k'.rangeEnd == n)))
  }

  /** The next turn of an undisturbed loop: it comes nearer its end, or ends there. */
  lemma NextTurn(k: Task, e: Entry, chunk: int) returns (act: Act)
    requires TaskOk(k, e) && k.InFlight() && Running(e, Looping) && chunk > 0
    ensures Enabled(k, e, act) && Smooth(e, act) && SameWork(k, TaskAfter(k, e, act, chunk), e.n)
    ensures var e' := EntryAfter(k, e, act, chunk);
            && e' == e.(attempt := e'.attempt) && !e'.short
            && (Running(e', Finished) || (Running(e', Looping) && TurnsLeft(e') < TurnsLeft(e)))
  {
    var a := e.attempt.value;
    act := if a.i >= a.end then Leave else if a.i < a.bound then Work else RenewOk;
    if act.RenewOk? { RenewalKeepsHold(k, a, e.n, chunk); }
  }

  function TurnsLeft(e: Entry): int {
    if e.attempt.None? then 0 else
      var a := e.attempt.value;
      2 * (a.end - a.i) + if a.bound <= a.i then 1 else 0
  }

  /** An attempt in its loop that nothing disturbs goes through its whole range. */
  lemma {:induction false} WorkThrough(w: World, t: TaskId) returns (w': World)
    requires Reachable(w) && t in w.e && t in w.h.s.tasks && w.h.s.tasks[t].InFlight() && Running(w.e[t], Looping)
    ensures Reachable(w') && OnlyAt(w, t, w') && SameWork(w.h.s.tasks[t], w'.h.s.tasks[t], w.e[t].n)
    ensures Running(w'.e[t], Finished) && !w'.e[t].short && w'.e[t] == w.e[t].(attempt := w'.e[t].attempt)
    decreases Max(TurnsLeft(w.e[t]), 0)
  {
    ReachableOk(w, t);
    var act := NextTurn(w.h.s.tasks[t], w.e[t], w.h.s.leaseChunk);
    w' := Act1(w, t, act);
    if Running(w'.e[t], Looping) {
      var mid := w';
      StillTurns(w.h.s.tasks[t], w.e[t]);
      w' := WorkThrough(mid, t);
      OnlyAtTwice(w, t, mid, w');
    }
  }

  lemma StillTurns(k: Task, e: Entry)
    requires TaskOk(k, e) && k.InFlight() && Running(e, Looping)
    ensures TurnsLeft(e) >= 0
  {
  }

  /******* From handing out to a result, and from a report to its task done *******/

  /** A fresh attempt runs, finishes its range and reports. */
  lemma RunAndSend(w: World, t: TaskId) returns (w': World)
    requires Reachable(w) && t in w.e && t in w.h.s.tasks && w.h.s.tasks[t].InFlight() && Running(w.e[t], Fresh)
    ensures Reachable(w') && OnlyAt(w, t, w')
    ensures SameWork(w.h.s.tasks[t].(status := TaskRunning), w'.h.s.tasks[t], w.e[t].n) && Running(w'.e[t], Reported)
    ensures w'.e[t].n == w.e[t].n && |w'.e[t].reports| == |w.e[t].reports| + 1 && w'.e[t].tainted == w.e[t].tainted
    ensures var r, k' := w'.e[t].reports[|w.e[t].reports|], w'.h.s.tasks[t];
            && r.stage.Sent? && !r.failed && r.hasKey && !r.span.short && r.span.made == k'.generation
            && r.span.lo == k'.rangeStart && Complete(k', r.span.hi, w.e[t].n) && r.span.hi <= k'.granted
  {
    var a := Act1(w, t, Begin);
    var b := WorkThrough(a, t);
    OnlyAtTwice(w, t, a, b);
    ReachableOk(b, t);
    w' := Act1(b, t, SendOk(true));
    OnlyAtTwice(w, t, b, w');
    FinishedSpan(b.h.s.tasks[t], b.e[t]);
  }

  lemma FinishedSpan(k: Task, e: Entry)
    requires TaskOk(k, e) && k.InFlight() && Running(e, Finished) && !e.short
    ensures e.attempt.value.start == k.rangeStart && Complete(k, e.attempt.value.i, e.n) && e.attempt.value.i <= k.granted
  {
  }

  /** The phase of ReportResult that takes report j on from a stage. */
  predicate NextPhase(stage: Stage, act: Act, j: nat, next: Stage) {
    || (stage == Sent && act == Check(j) && next == Checked)
    || (stage == Checked && act == Copy(j) && next == Copied)
    || (stage == Copied && act == Decide(j) && next == Decided)
    || (stage == Decided && act == Effect(j) && next == Applied)
  }

  /** The task and its surroundings while report j goes through its phases. */
  predicate Phasing(k: Task, e: Entry, k': Task, e': Entry, j: nat, stage: Stage) {
    && k' == k && j < |e.reports| && |e'.reports| == |e.reports| && e'.n == e.n && e'.attempt == e.attempt
    && e'.reports[j].stage == stage && e'.reports[j].span == e.reports[j].span && !e'.reports[j].failed
    && e'.commit == e.commit
  }

  lemma Phase1(w0: World, w: World, t: TaskId, j: nat, stage: Stage, act: Act, next: Stage) returns (w': World)
    requires Reachable(w) && OnlyAt(w0, t, w) && !w.h.s.tasks[t].status.TaskDone?
    requires Phasing(w0.h.s.tasks[t], w0.e[t], w.h.s.tasks[t], w.e[t], j, stage)
    requires NextPhase(stage, act, j, next)
    ensures Reachable(w') && OnlyAt(w0, t, w') && Phasing(w0.h.s.tasks[t], w0.e[t], w'.h.s.tasks[t], w'.e[t], j, next)
  {
    w' := Act1(w, t, act);
    OnlyAtTwice(w0, t, w, w');
  }

  lemma ReportThrough(w: World, t: TaskId, j: nat, worker: WorkerId) returns (w': World)
    requires Reachable(w) && t in w.e && t in w.h.s.tasks && !w.h.s.tasks[t].status.TaskDone?
    requires At(w.e[t], j, Sent) && !w.e[t].reports[j].failed
    ensures Reachable(w') && OnlyAt(w, t, w')
    ensures w'.h.s.tasks[t] == w.h.s.tasks[t].(status := TaskDone, workerId := worker)
    ensures w'.e[t].n == w.e[t].n && w'.e[t].attempt == w.e[t].attempt
    ensures w'.e[t].commit.Some? && w'.e[t].commit.value.span == w.e[t].reports[j].span
  {
    var a := Phase1(w, w, t, j, Sent, Check(j), Checked);
    a := Phase1(w, a, t, j, Checked, Copy(j), Copied);
    a := Phase1(w, a, t, j, Copied, Decide(j), Decided);
    a := Phase1(w, a, t, j, Decided, Effect(j), Applied);
    w' := Act1(a, t, End(j, worker));
    OnlyAtTwice(w, t, a, w');
  }

  /** From w on, t's attempt has failed and its report has got to a stage. */
  predicate Failing(w: World, t: TaskId, a: World, stage: Stage) {
    && t in w.e && w.e[t].attempt.Some? && t in a.e && t in w.h.s.tasks && t in a.h.s.tasks
    && a.h.s.tasks[t] == w.h.s.tasks[t] && a.x == w.x && |a.e[t].reports| > 0
    && var r := a.e[t].reports[|a.e[t].reports| - 1];
       r.failed && r.stage == stage && a.e[t] == InPhase(w.e[t], ErrorSent).(reports := w.e[t].reports + [r])
  }

  lemma FailSends(w: World, t: TaskId) returns (a: World)
    requires Reachable(w) && t in w.e && t in w.h.s.tasks && w.h.s.tasks[t].InFlight()
    requires Running(w.e[t], Looping) || Running(w.e[t], Finished)
    ensures Reachable(a) && OnlyAt(w, t, a) && Failing(w, t, a, Sent)
  {
    var b := Act1(w, t, Break);
    a := Act1(b, t, SendErr);
    OnlyAtTwice(w, t, b, a);
  }

  /** What a phase makes of an error report. */
  lemma ErrorAdvances(k: Task, e: Entry, stage: Stage, act: Act, next: Stage, chunk: int)
    requires !k.status.TaskDone? && |e.reports| > 0 && e.reports[|e.reports| - 1].failed && e.reports[|e.reports| - 1].stage == stage
    requires NextPhase(stage, act, |e.reports| - 1, next)
    ensures Enabled(k, e, act) && Smooth(e, act) && TaskAfter(k, e, act, chunk) == k
    ensures exists r: Report :: r.failed && r.stage == next && EntryAfter(k, e, act, chunk) == e.(reports := e.reports[..|e.reports| - 1] + [r])
  {
    var j, e' := |e.reports| - 1, EntryAfter(k, e, act, chunk);
    var r := e'.reports[j];
    assert e'.reports == e.reports[..j] + [r];
  }

  lemma FailPhase(w: World, a: World, t: TaskId, stage: Stage, act: Act, next: Stage) returns (a': World)
    requires Reachable(a) && OnlyAt(w, t, a) && Failing(w, t, a, stage) && !a.h.s.tasks[t].status.TaskDone?
    requires NextPhase(stage, act, |w.e[t].reports|, next)
    ensures Reachable(a') && OnlyAt(w, t, a') && Failing(w, t, a', next)
  {
    ErrorAdvances(a.h.s.tasks[t], a.e[t], stage, act, next, a.h.s.leaseChunk);
    a' := Act1(a, t, act);
    OnlyAtTwice(w, t, a, a');
  }

  lemma FailPhases(w: World, a: World, t: TaskId) returns (a': World)
    requires Reachable(a) && OnlyAt(w, t, a) && Failing(w, t, a, Sent) && !a.h.s.tasks[t].status.TaskDone?
    ensures Reachable(a') && OnlyAt(w, t, a') && Failing(w, t, a', Applied)
  {
    var j := |w.e[t].reports|;
    a' := FailPhase(w, a, t, Sent, Check(j), Checked);
    a' := FailPhase(w, a', t, Checked, Copy(j), Copied);
    a' := FailPhase(w, a', t, Copied, Decide(j), Decided);
    a' := FailPhase(w, a', t, Decided, Effect(j), Applied);
  }

  /** An attempt that fails on its way, or when its output is staged, can report that; the
      report leaves nothing behind and sends the task back to the queue while a retry is
      left, else fails it. */
  lemma FailThrough(w: World, t: TaskId, worker: WorkerId) returns (w': World)
    requires Reachable(w) && t in w.e && t in w.h.s.tasks && w.h.s.tasks[t].InFlight()
    requires Running(w.e[t], Looping) || Running(w.e[t], Finished)
    ensures Reachable(w') && w'.x == w.x && w'.e == w.e[t := InPhase(w.e[t], ErrorSent)]
    ensures var k := w.h.s.tasks[t];
            w'.h.s.tasks == w.h.s.tasks[t :=
              if k.retries < k.maxRetries
              then k.(status := TaskPending, workerId := "", retries := k.retries + 1, frontier := k.rangeStart, granted := k.rangeStart)
              else k.(status := TaskFailed, workerId := worker)]
  {
    var b := FailSends(w, t);
    b := FailPhases(w, b, t);
    w' := FailEnds(w, b, t, worker);
  }

  lemma ErrorEnds(k: Task, e0: Entry, e: Entry, r: Report, worker: WorkerId, chunk: int)
    requires !k.status.TaskDone? && r.failed && r.stage == Applied
    requires e0.attempt.Some? && e == InPhase(e0, ErrorSent).(reports := e0.reports + [r])
    ensures var act := End(|e0.reports|, worker);
            && Enabled(k, e, act) && TaskAfter(k, e, act, chunk) == Retried(k, worker)
            && EntryAfter(k, e, act, chunk) == InPhase(e0, ErrorSent)
  {
    assert Without(e.reports, |e0.reports|) == e0.reports;
  }

  lemma AnyAct(w: World, t: TaskId, act: Act) returns (w': World)
    requires Reachable(w) && t in w.e && t in w.h.s.tasks && Enabled(w.h.s.tasks[t], w.e[t], act)
    ensures Reachable(w') && w'.h.s.tasks == w.h.s.tasks[t := TaskAfter(w.h.s.tasks[t], w.e[t], act, w.h.s.leaseChunk)]
    ensures w'.e == w.e[t := EntryAfter(w.h.s.tasks[t], w.e[t], act, w.h.s.leaseChunk)]
    ensures OutsideStep(t, w.h.s.tasks[t], w.e[t], act, false, w.x, w'.x)
  {
    w' := ActMoves(w, t, act, false);
    Reached(w, Local(t, act, false), w');
    LocalTasks(w, t, act, false, w');
  }

  lemma FailEnds(w: World, a: World, t: TaskId, worker: WorkerId) returns (w': World)
    requires Reachable(a) && OnlyAt(w, t, a) && Failing(w, t, a, Applied) && !a.h.s.tasks[t].status.TaskDone?
    ensures Reachable(w') && w'.x == w.x && w'.e == w.e[t := InPhase(w.e[t], ErrorSent)]
    ensures w'.h.s.tasks == w.h.s.tasks[t := Retried(w.h.s.tasks[t], worker)]
  {
    var n := |w.e[t].reports|;
    ErrorEnds(a.h.s.tasks[t], w.e[t], a.e[t], a.e[t].reports[n], worker, a.h.s.leaseChunk);
    w' := AnyAct(a, t, End(n, worker));
  }

  /******* The run *******/

  /** The world holds exactly task t, filed as its own root. */
  ghost predicate Alone(w: World, t: TaskId, q: seq<TaskId>) {
    && w.h.s.tasks.Keys == {t} && w.e.Keys == {t} && w.h.root == map[t := t]
    && w.h.s.pendingQ == q && w.h.s.leaseChunk == 8
  }

  lemma StillAlone(w: World, t: TaskId, q: seq<TaskId>, w': World)
    requires Alone(w, t, q) && OnlyAt(w, t, w')
    ensures Alone(w', t, q)
  {
  }

  function FirstWorld(): World {
    World(History(State(map[], map[], [], 8, []), map[], map[], map[]), map[],
          Outside(true, true, true, {}, map[], {}, [], {}))
  }

  lemma Submission(j: JobId, shard: Shard, t: TaskId, maxRetries: int) returns (w: World)
    ensures Reachable(w) && Alone(w, t, [t]) && w.x.committer
    ensures w.h.s.tasks[t] == FreshTask(t, j, shard, 0, maxRetries) && w.e[t] == NewEntry(100)
  {
    var w0 := FirstWorld();
    assert EndsIn([w0], [], w0);
    var op := SubmitJob(j, 0, maxRetries, [shard], [t]);
    var s' := Submit(w0.h.s, j, 0, maxRetries, [shard], [t]);
    assert AddTasks(w0.h.s.(jobs := map[j := Job(j, 0, JobRunning, [shard], 1, 0, 0)]), j, 0, maxRetries, [], []).tasks == map[];
    assert s'.tasks == map[t := FreshTask(t, j, shard, 0, maxRetries)] && s'.pendingQ == [t];
    w := AdminMoves(w0, op, s', 100);
    Reached(w0, Admin(op), w);
    assert w.e[t] == NewEntry(100);
    assert w.h.root == map[t := t];
  }

  lemma TakeAlone(w: World, t: TaskId, worker: WorkerId) returns (w': World)
    requires Reachable(w) && Alone(w, t, [t]) && w.h.s.tasks[t].status.TaskPending?
    ensures Reachable(w') && Alone(w', t, []) && w'.x == w.x
    ensures w'.h.s.tasks[t] == Grant(w.h.s.tasks[t].(status := TaskAssigned, workerId := worker), 8)
    ensures w'.e[t] == w.e[t].(attempt := Some(NewAttempt(w'.h.s.tasks[t], w.e[t].n)), short := false)
  {
    var op := Poll(worker, (x: Shard) => worker, Take(0));
    var s' := Assign(Dequeue(w.h.s, 0), t, worker);
    assert SchedulerSpec.Local(w.h.s, worker, op.owner, 0) && w.h.s.pendingQ[..0] + w.h.s.pendingQ[1..] == [];
    assert Next(w.h.s, op, s');
    w' := HandMoves(w, op, s');
    Reached(w, Hand(op), w');
    assert w'.e[t] == HandedEntry(w, op, s', t);
    assert w'.h.root == map[t := t];
  }

  lemma RebalanceAlone(w: World, t: TaskId) returns (w': World)
    requires Reachable(w) && Alone(w, t, []) && w.h.s.tasks[t].InFlight() && Running(w.e[t], Stopped)
    ensures Reachable(w') && w'.e == w.e && w'.x == w.x && w'.h.s.tasks == w.h.s.tasks[t := Reclaimed(w.h.s.tasks[t])]
    ensures w.h.s.tasks[t].retries < w.h.s.tasks[t].maxRetries ==> Alone(w', t, [t])
  {
    var op := RebalanceWorker(w.h.s.tasks[t].workerId, [t]);
    var s' := Reclaim(w.h.s, t);
    assert [t][..0] == [] && ReclaimAll(w.h.s, [t]) == s';
    ReclaimOne(w.h.s, t);
    assert WalkOf(w.h.s, op.w, [t]) by { assert HeldBy(w.h.s, t, op.w); }
    w' := RebalanceMoves(w, op, s');
    Reached(w, Rebalance(op), w');
    assert w'.h.root == map[t := t];
  }

  /** The tail is stolen into a new task of the same family. */
  lemma StealAlone(w: World, t: TaskId, piece: TaskId, worker: WorkerId) returns (w': World)
    requires Reachable(w) && Alone(w, t, []) && t != piece
    requires w.h.s.tasks[t].InFlight() && w.h.s.tasks[t].SizeKnown() && w.h.s.tasks[t].Tail() >= 2
    ensures Reachable(w') && w'.e.Keys == {t, piece} == w'.h.s.tasks.Keys && w'.h.root == map[t := t, piece := t]
    ensures w'.h.s.tasks[t] == Shrunk(w.h.s.tasks[t])
    ensures w'.h.s.tasks[piece] == Grant(StolenTask(w.h.s.tasks[t], piece).(status := TaskAssigned, workerId := worker), 8)
    ensures w'.e[t].n == w.e[t].n && w'.e[t].reports == w.e[t].reports && w'.e[t].commit == w.e[t].commit
    ensures w'.e[piece] == NewEntry(w.e[t].n).(attempt := Some(NewAttempt(w'.h.s.tasks[piece], w.e[t].n)), short := false)
  {
    var op := Poll(worker, (x: Shard) => worker, StealFrom(t, piece));
    var s' := Assign(Steal(w.h.s, t, piece), piece, worker);
    assert LegalVictim(w.h.s, t);
    w' := HandMoves(w, op, s');
    Reached(w, Hand(op), w');
    assert w'.e[t] == HandedEntry(w, op, s', t) && w'.e[piece] == HandedEntry(w, op, s', piece);
    assert w'.h.root == map[t := t, piece := t];
  }

  /** The first attempt finishes [0, 100), reports, and its worker is gone before the
      report gets anywhere. */
  lemma FirstAttempt(j: JobId, shard: Shard, t: TaskId, worker: WorkerId) returns (w: World)
    ensures Reachable(w) && Alone(w, t, []) && Running(w.e[t], Stopped) && w.e[t].n == 100
    ensures var k := w.h.s.tasks[t];
            k.InFlight() && k.retries == 0 && k.maxRetries == 3 && k.generation == 0 && k.rangeStart == 0 && k.rangeEnd == 100
    ensures |w.e[t].reports| == 1 && At(w.e[t], 0, Sent) && !w.e[t].reports[0].failed
    ensures w.e[t].reports[0].span == Span(0, 100, false, 0)
  {
    var a := Submission(j, shard, t, 3);
    var b := TakeAlone(a, t, worker);
    var c := RunAndSend(b, t);
    StillAlone(b, t, [], c);
    w := Act1(c, t, Die);
    StillAlone(c, t, [], w);
  }

  /** It is re-run by a second worker, and a third one steals the tail [54, 100). */
  lemma SecondAttempt(w: World, t: TaskId, piece: TaskId, second: WorkerId, third: WorkerId) returns (w': World)
    requires Reachable(w) && Alone(w, t, []) && t != piece && Running(w.e[t], Stopped) && w.e[t].n == 100
    requires var k := w.h.s.tasks[t];
             k.InFlight() && k.retries == 0 && k.maxRetries == 3 && k.generation == 0 && k.rangeStart == 0 && k.rangeEnd == 100
    ensures Reachable(w') && w'.e.Keys == {t, piece} == w'.h.s.tasks.Keys && w'.h.root == map[t := t, piece := t]
    ensures var k, p := w'.h.s.tasks[t], w'.h.s.tasks[piece];
            && k.InFlight() && k.generation == 1 && k.rangeStart == 0 && k.rangeEnd == 54
            && p.InFlight() && p.generation == 0 && p.rangeStart == 54 && p.rangeEnd == 100
    ensures w'.e[t].n == 100 && w'.e[t].reports == w.e[t].reports
    ensures w'.e[piece].n == 100 && w'.e[piece].reports == [] && Running(w'.e[piece], Fresh)
  {
    var a := RebalanceAlone(w, t);
    var b := TakeAlone(a, t, second);
    assert b.h.s.tasks[t].granted == 8;
    w' := StealAlone(b, t, piece, third);
  }

  /** So a run exists at whose end two results stand behind every item of [54, 100):
      the late one of the first attempt, which settles the task cut to [0, 54), and
      the thief's. */
  lemma LateResultOverlaps(j: JobId, shard: Shard, t: TaskId, piece: TaskId, first: WorkerId, second: WorkerId, third: WorkerId)
    returns (w: World)
    requires t != piece
    ensures Reachable(w) && t in w.e && piece in w.e && t in w.h.s.tasks && piece in w.h.s.tasks
    ensures t in w.h.root && piece in w.h.root && w.h.root[t] == w.h.root[piece]
    ensures w.h.s.tasks[t].status.TaskDone? && w.h.s.tasks[piece].status.TaskDone?
    ensures w.h.s.tasks[t].rangeEnd == 54 && Overtaken(w, t) && !Overtaken(w, piece)
    ensures forall x :: 54 <= x < 100 ==> Committed(w.e[t], x) && Committed(w.e[piece], x)
  {
    var a := FirstAttempt(j, shard, t, first);
    var b := SecondAttempt(a, t, piece, second, third);
    var c := ReportThrough(b, t, 0, first);
    var d := RunAndSend(c, piece);
    w := ReportThrough(d, piece, 0, third);
  }

  /** The late report comes first, and settles the task while its second attempt has
      not started. */
  lemma LateSettles(j: JobId, shard: Shard, t: TaskId, first: WorkerId, second: WorkerId) returns (w: World)
    ensures Reachable(w) && Alone(w, t, []) && w.h.s.tasks[t].status.TaskDone? && Running(w.e[t], Fresh)
    ensures w.h.s.tasks[t].rangeEnd == 100 && w.h.s.tasks[t].granted == 8 && w.h.s.tasks[t].generation == 0
    ensures w.e[t].commit.Some? && w.e[t].commit.value.span == Span(0, 100, false, 0)
  {
    var a := FirstAttempt(j, shard, t, first);
    var b := RebalanceAlone(a, t);
    var c := TakeAlone(b, t, second);
    w := ReportThrough(c, t, 0, first);
    StillAlone(c, t, [], w);
  }

  /** Then its start reopens the task, with the late result still committed, and it can
      lose its tail under that result like any other. */
  lemma LateStartReopens(j: JobId, shard: Shard, t: TaskId, piece: TaskId, first: WorkerId, second: WorkerId, third: WorkerId)
    returns (done: World, w: World)
    requires t != piece
    ensures Reachable(done) && Alone(done, t, []) && done.h.s.tasks[t].status.TaskDone? && done.e[t].commit.Some?
    ensures Reachable(w) && t in w.e && t in w.h.s.tasks && w.h.s.tasks[t].status.TaskRunning?
    ensures w.e[t].commit == done.e[t].commit && Overtaken(w, t)
  {
    done := LateSettles(j, shard, t, first, second);
    var reopened := Act1(done, t, Begin);
    StillAlone(done, t, [], reopened);
    w := StealAlone(reopened, t, piece, third);
  }
}
