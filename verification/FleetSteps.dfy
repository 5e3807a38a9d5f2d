/** The fleet restricts nothing but what its guards say: every scheduler call that
    can be made, and every act that is enabled, has its move. */
module FleetSteps {
  import opened Util
  import opened Tasks
  import opened SchedulerSpec
  import opened SchedulerRuns
  import opened Attempts
  import opened Fleet

  /** What a run remembers after a step of the scheduler. */
  ghost function Remembered(h: History, op: Op, s': State): History {
    History(s',
            map tid <- s'.tasks ::
              if tid in h.root then h.root[tid]
              else if Steals(op) && op.choice.victim in h.root then h.root[op.choice.victim]
              else tid,
            SizeAfter(h.s, h.size, op),
            map tid <- s'.tasks ::
              (if tid in h.assigns then h.assigns[tid] else 0) + if HandedOut(h.s, s', tid) then 1 else 0)
  }

  lemma CallRemembered(h: History, op: Op, s': State)
    requires Next(h.s, op, s')
    ensures Step(h, op, Remembered(h, op, s'))
  {
  }

  /** Whatever a poll or a drain does, the fleet follows. */
  lemma HandMoves(w: World, op: Op, s': State) returns (w': World)
    requires (op.Poll? || op.DrainPending?) && Next(w.h.s, op, s')
    ensures Move(w, Hand(op), w') && w'.h.s == s'
  {
    CallRemembered(w.h, op, s');
    w' := World(Remembered(w.h, op, s'), map t <- s'.tasks :: HandedEntry(w, op, s', t), w.x);
  }

  /** Submissions and configuration, for any size n of the new shards. */
  lemma AdminMoves(w: World, op: Op, s': State, n: nat) returns (w': World)
    requires (op.SubmitJob? || op.SetLeaseChunk?) && Next(w.h.s, op, s')
    ensures Move(w, Admin(op), w') && w'.h.s == s' && forall t <- w'.e :: t !in w.e ==> w'.e[t] == NewEntry(n)
  {
    CallRemembered(w.h, op, s');
    w' := World(Remembered(w.h, op, s'), map t <- s'.tasks :: if t in w.e then w.e[t] else NewEntry(n), w.x);
  }

  /** A worker none of whose tasks is acted on any more can be rebalanced. */
  lemma RebalanceMoves(w: World, op: Op, s': State) returns (w': World)
    requires op.RebalanceWorker? && Next(w.h.s, op, s')
    requires forall t <- w.e :: HeldBy(w.h.s, t, op.w) ==> Running(w.e[t], Stopped)
    ensures Move(w, Rebalance(op), w') && w'.h.s == s'
  {
    CallRemembered(w.h, op, s');
    w' := World(Remembered(w.h, op, s'), w.e, w.x);
  }

  /** The scheduler state after an act's call. */
  function StateAfter(w: World, t: TaskId, act: Act): State
    requires t in w.e && t in w.h.s.tasks && Enabled(w.h.s.tasks[t], w.e[t], act)
  {
    match act
    case Begin => Start(w.h.s, t)
    case RenewOk => Renew(w.h.s, t, w.e[t].attempt.value.i, w.e[t].n)
    case RenewUnheard => Renew(w.h.s, t, w.e[t].attempt.value.i, w.e[t].n)
    case End(j, worker) => Settle(w.h.s, t, worker, w.e[t].reports[j].failed)
    case _ => w.h.s
  }

  function OutsideAfter(t: TaskId, k: Task, e: Entry, act: Act, lost: bool, x: Outside): Outside
    requires Enabled(k, e, act)
  {
    match act
    case Copy(j) => AfterCopy(k, e.reports[j], x)
    case Decide(j) => AfterDecision(t, k, e.reports[j], x)
    case Effect(j) => AfterEffect(k, e.reports[j], x)
    case Drop(j) => AfterDrop(k, e.reports[j], lost, x)
    case _ => x
  }

  /** Every enabled act can be taken. */
  lemma ActMoves(w: World, t: TaskId, act: Act, lost: bool) returns (w': World)
    requires t in w.e && t in w.h.s.tasks && Enabled(w.h.s.tasks[t], w.e[t], act)
    ensures Move(w, Local(t, act, lost), w')
  {
    var k, e, s' := w.h.s.tasks[t], w.e[t], StateAfter(w, t, act);
    var h' := w.h;
    if OpOf(w, t, act).Some? {
      CallRemembered(w.h, OpOf(w, t, act).value, s');
      h' := Remembered(w.h, OpOf(w, t, act).value, s');
    }
    w' := World(h', w.e[t := EntryAfter(k, e, act, w.h.s.leaseChunk)], OutsideAfter(t, k, e, act, lost, w.x));
  }

  /** An in-flight task is never stuck: its worker or one of its reports can act, or
      the worker has stopped and waits to be rebalanced. */
  lemma InFlightActs(ws: seq<World>, evs: seq<Event>, i: nat, t: TaskId) returns (act: Act)
    requires Behaviour(ws, evs) && i < |ws| && t in ws[i].h.s.tasks && ws[i].h.s.tasks[t].InFlight()
    ensures t in ws[i].e
    ensures Running(ws[i].e[t], Stopped) || Enabled(ws[i].h.s.tasks[t], ws[i].e[t], act)
  {
    BehavioursKeepInv(ws, evs, i);
    var k, e := ws[i].h.s.tasks[t], ws[i].e[t];
    assert TaskOk(k, e);
    act := NextAct(k, e);
  }

  /** The phase that follows for report j. */
  function NextPhase(stage: Stage, j: nat, w: WorkerId): Act {
    match stage
    case Sent => Check(j)
    case Checked => Copy(j)
    case Copied => Decide(j)
    case Decided => Effect(j)
    case Applied => End(j, w)
  }

  lemma NextAct(k: Task, e: Entry) returns (act: Act)
    requires TaskOk(k, e) && k.InFlight()
    ensures Running(e, Stopped) || Enabled(k, e, act)
  {
    act := Begin;
    var a := e.attempt.value;
    match a.phase
    case Fresh =>
    case Looping => act := if a.i >= a.end then Leave else if a.i < a.bound then Work else RenewOk;
    case Finished => act := SendOk(true);
    case Reported => act := SendOk(true);
    case Errored => act := SendErr;
    case ErrorSent =>
      var j :| 0 <= j < |e.reports| && e.reports[j].failed;
      act := NextPhase(e.reports[j].stage, j, k.workerId);
    case Stopped =>
  }
}
