/** The fleet and its coordinator's write-ahead log together: one sequence of events
    drives both, with crashes between and inside calls and restores from the log. What
    holds of every behaviour of the fleet holds in every such run. */
module CrashSafety {
  import opened Util
  import opened Tasks
  import opened SchedulerSpec
  import opened Attempts
  import Fleet
  import LateResults
  import Persist
  import PersistRuns
  import WalRuns
  import Wal

  datatype Joint = Joint(w: Fleet.World, n: PersistRuns.Node)

  datatype Event =
    | Acts(mv: Fleet.Event)                                             // no scheduler call
    | Calls(mv: Fleet.Event, image: Persist.Image)
    | CallsUnwritten(mv: Fleet.Event, image: Persist.Image, written: nat)
    | DiesInCall(mv: Fleet.Event, image: Persist.Image, written: nat)
    | Stores(ev: PersistRuns.Event)                                     // the checkpoint loop
    | Dies(ev: PersistRuns.Event)
    | Returns

  /** The scheduler call a move of the fleet makes, if any. */
  function OpAt(w: Fleet.World, mv: Fleet.Event): Option<Op> {
    match mv
    case Admin(op) => Some(op)
    case Hand(op) => Some(op)
    case Rebalance(op) => Some(op)
    case Local(t, act, _) =>
      if t in w.e && t in w.h.s.tasks && Enabled(w.h.s.tasks[t], w.e[t], act) then Fleet.OpOf(w, t, act) else None
    case Restart(_) => None
  }

  /** A phase of a report in the coordinator. */
  predicate Phase(act: Act) { act.Check? || act.Copy? || act.Decide? || act.Effect? || act.End? }

  /** No call is under way in the coordinator; reports may be on their way to it. */
  ghost predicate NoneUnderWay(w: Fleet.World) {
    forall t <- w.e :: forall j :: 0 <= j < |w.e[t].reports| ==> w.e[t].reports[j].stage.Sent?
  }

  /** The world with a scheduler just restored. */
  function Resumed(w: Fleet.World, s: State): Fleet.World { w.(h := w.h.(s := s)) }

  /** Workers go on while the coordinator is down. It comes back with the default chunk,
      an empty hook record and what its log restores, once no call of before the crash
      is under way. */
  ghost predicate Step(c: PersistRuns.Codec, j: Joint, ev: Event, j': Joint) {
    match ev
    case Acts(mv) =>
      && mv.Local? && OpAt(j.w, mv) == None && Fleet.Move(j.w, mv, j'.w) && j'.n == j.n
      && (j.n.wal.up || !Phase(mv.act))
    case Calls(mv, im) =>
      && OpAt(j.w, mv).Some? && Fleet.Move(j.w, mv, j'.w) && j'.w.h.s == j'.n.live
      && PersistRuns.Step(c, j.n, PersistRuns.Call(OpAt(j.w, mv).value, im), j'.n)
    case CallsUnwritten(mv, im, written) =>
      && OpAt(j.w, mv).Some? && Fleet.Move(j.w, mv, j'.w) && j'.w.h.s == j'.n.live
      && PersistRuns.Step(c, j.n, PersistRuns.FailedCall(OpAt(j.w, mv).value, im, written), j'.n)
    case DiesInCall(mv, im, written) =>
      && OpAt(j.w, mv).Some? && PersistRuns.Step(c, j.n, PersistRuns.CrashInCall(OpAt(j.w, mv).value, im, written), j'.n)
      && if written == 16 + |c.enc(im)| then Fleet.Move(j.w, mv, j'.w) && j'.w.h.s == j'.n.live else j'.w == j.w
    case Stores(pe) => (pe.TakeSnapshot? || pe.CommitSnapshot?) && PersistRuns.Step(c, j.n, pe, j'.n) && j'.w == j.w
    case Dies(pe) => (pe.Crash? || pe.CrashInCommit?) && PersistRuns.Step(c, j.n, pe, j'.n) && j'.w == j.w
    case Returns =>
      && PersistRuns.Step(c, j.n, PersistRuns.Restart, j'.n) && NoneUnderWay(j.w)
      && j'.n.live.leaseChunk > 0 && j'.n.live.doneCalls == [] && j'.w == Resumed(j.w, j'.n.live)
  }

  ghost predicate Run(c: PersistRuns.Codec, js: seq<Joint>, evs: seq<Event>) {
    && Persist.Faithful(c.enc, c.dec) && |js| == |evs| + 1
    && Fleet.Start0(js[0].w) && PersistRuns.Initial(js[0].n)
    && forall i :: 0 <= i < |evs| ==> Step(c, js[i], evs[i], js[i + 1])
  }

  /** What a crash needs so as to lose nothing: everything that changed is written, or is
      by the call it strikes; and no commit of a snapshot older than the last record. */
  predicate Lossless(c: PersistRuns.Codec, n: PersistRuns.Node, ev: Event) {
    match ev
    case Stores(pe) => PersistRuns.Undisturbed(n, pe)
    case Dies(pe) => PersistRuns.Undisturbed(n, pe) && (n.wal.up ==> !n.lossy)
    case DiesInCall(_, im, written) => !n.lossy || (n.wal.torn.None? && written == 16 + |c.enc(im)|)
    case _ => true
  }

  /** The log serves the fleet's scheduler, or holds what it is to come back with. */
  ghost predicate Coupled(c: PersistRuns.Codec, j: Joint) {
    && PersistRuns.Inv(c, j.n) && LateResults.Reachable(j.w)
    && (if j.n.wal.up then j.w.h.s == j.n.live else Persist.CoreOf(j.w.h.s) == j.n.durable && j.n.wal.torn == None)
  }

  lemma ActsCoupled(c: PersistRuns.Codec, j: Joint, ev: Event, j': Joint)
    requires Coupled(c, j) && Step(c, j, ev, j') && ev.Acts?
    ensures Coupled(c, j')
  {
    LateResults.Reached(j.w, ev.mv, j'.w);
  }

  lemma CallsCoupled(c: PersistRuns.Codec, j: Joint, ev: Event, j': Joint)
    requires Persist.Faithful(c.enc, c.dec) && Coupled(c, j) && Step(c, j, ev, j') && (ev.Calls? || ev.CallsUnwritten?)
    ensures Coupled(c, j')
  {
    LateResults.Reached(j.w, ev.mv, j'.w);
    var op := OpAt(j.w, ev.mv).value;
    PersistRuns.StepKeepsInv(c, j.n,
      if ev.Calls? then PersistRuns.Call(op, ev.image) else PersistRuns.FailedCall(op, ev.image, ev.written), j'.n);
  }

  lemma DiesInCallCoupled(c: PersistRuns.Codec, j: Joint, ev: Event, j': Joint)
    requires Persist.Faithful(c.enc, c.dec) && Coupled(c, j) && Step(c, j, ev, j') && ev.DiesInCall? && Lossless(c, j.n, ev)
    ensures Coupled(c, j')
  {
    PersistRuns.StepKeepsInv(c, j.n, PersistRuns.CrashInCall(OpAt(j.w, ev.mv).value, ev.image, ev.written), j'.n);
    if ev.written == 16 + |c.enc(ev.image)| { LateResults.Reached(j.w, ev.mv, j'.w); }
  }

  lemma StoresCoupled(c: PersistRuns.Codec, j: Joint, ev: Event, j': Joint)
    requires Persist.Faithful(c.enc, c.dec) && Coupled(c, j) && Step(c, j, ev, j') && ev.Stores? && Lossless(c, j.n, ev)
    ensures Coupled(c, j')
  {
    PersistRuns.StepKeepsInv(c, j.n, ev.ev, j'.n);
  }

  lemma DiesCoupled(c: PersistRuns.Codec, j: Joint, ev: Event, j': Joint)
    requires Persist.Faithful(c.enc, c.dec) && Coupled(c, j) && Step(c, j, ev, j') && ev.Dies? && Lossless(c, j.n, ev)
    ensures Coupled(c, j')
  {
    PersistRuns.StepKeepsInv(c, j.n, ev.ev, j'.n);
  }

  lemma RestoredCore(c: PersistRuns.Codec, n: PersistRuns.Node, n': PersistRuns.Node)
    requires PersistRuns.Inv(c, n) && n.wal.torn == None && PersistRuns.Step(c, n, PersistRuns.Restart, n')
    ensures Persist.CoreOf(n'.live) == n.durable
  {
    WalRuns.TornRecords(c.crc, n.wal);
  }

  lemma SameCore(s: State, s': State)
    requires Persist.CoreOf(s') == Persist.CoreOf(s)
    ensures s' == s.(leaseChunk := s'.leaseChunk, doneCalls := s'.doneCalls)
  {
  }

  /** A restore after a crash that lost nothing is one Restart of the fleet. */
  lemma ReturnIsRestart(c: PersistRuns.Codec, j: Joint, j': Joint)
    requires Coupled(c, j) && Step(c, j, Returns, j')
    ensures Fleet.Move(j.w, Fleet.Restart(j'.n.live.leaseChunk), j'.w)
  {
    RestoredCore(c, j.n, j'.n);
    SameCore(j.w.h.s, j'.n.live);
  }

  lemma ReturnsCoupled(c: PersistRuns.Codec, j: Joint, j': Joint)
    requires Persist.Faithful(c.enc, c.dec) && Coupled(c, j) && Step(c, j, Returns, j')
    ensures Coupled(c, j')
  {
    ReturnIsRestart(c, j, j');
    LateResults.Reached(j.w, Fleet.Restart(j'.n.live.leaseChunk), j'.w);
    PersistRuns.StepKeepsInv(c, j.n, PersistRuns.Restart, j'.n);
  }

  lemma StepCoupled(c: PersistRuns.Codec, j: Joint, ev: Event, j': Joint)
    requires Persist.Faithful(c.enc, c.dec) && Coupled(c, j) && Step(c, j, ev, j') && Lossless(c, j.n, ev)
    ensures Coupled(c, j')
  {
    match ev
    case Acts(_) => ActsCoupled(c, j, ev, j');
    case Calls(_, _) => CallsCoupled(c, j, ev, j');
    case CallsUnwritten(_, _, _) => CallsCoupled(c, j, ev, j');
    case DiesInCall(_, _, _) => DiesInCallCoupled(c, j, ev, j');
    case Stores(_) => StoresCoupled(c, j, ev, j');
    case Dies(_) => DiesCoupled(c, j, ev, j');
    case Returns => ReturnsCoupled(c, j, j');
  }

  lemma StartCoupled(c: PersistRuns.Codec, j: Joint)
    requires Fleet.Start0(j.w) && PersistRuns.Initial(j.n)
    ensures Coupled(c, j)
  {
    assert LateResults.EndsIn([j.w], [], j.w);
    PersistRuns.InitialInv(c, j.n);
  }

  lemma {:induction false} RunsCoupled(c: PersistRuns.Codec, js: seq<Joint>, evs: seq<Event>, i: nat)
    requires Run(c, js, evs) && i < |js| && forall k :: 0 <= k < i ==> Lossless(c, js[k].n, evs[k])
    ensures Coupled(c, js[i])
  {
    if i == 0 {
      StartCoupled(c, js[0]);
    } else {
      RunsCoupled(c, js, evs, i - 1);
      StepCoupled(c, js[i - 1], evs[i - 1], js[i]);
    }
  }

  /** In every run of fleet and log together, with any number of crashes, between calls
      or at any byte of one's record, the fleet is at every moment where some behaviour
      of it gets, with all that every behaviour keeps; and while the coordinator is up
      the scheduler it serves is the fleet's. */
  lemma SafeAcrossCrashes(c: PersistRuns.Codec, js: seq<Joint>, evs: seq<Event>, i: nat)
    requires Run(c, js, evs) && i < |js| && forall k :: 0 <= k < i ==> Lossless(c, js[k].n, evs[k])
    ensures LateResults.Reachable(js[i].w) && Fleet.Inv(js[i].w)
    ensures js[i].n.wal.up ==> js[i].w.h.s == js[i].n.live
  {
    RunsCoupled(c, js, evs, i);
    LateResults.ReachableInv(js[i].w);
  }

  /** Calls under way at a crash are lost one by one, after which none is. */
  lemma {:induction false} UnderWayAreLost(w: Fleet.World, t: TaskId) returns (w': Fleet.World)
    requires LateResults.Reachable(w) && t in w.e && t in w.h.s.tasks
    ensures LateResults.Reachable(w') && LateResults.OnlyAt(w, t, w') && w'.h.s.tasks[t] == w.h.s.tasks[t]
    ensures forall j :: 0 <= j < |w'.e[t].reports| ==> w'.e[t].reports[j].stage.Sent?
    decreases |w.e[t].reports|
  {
    if j: nat :| j < |w.e[t].reports| && !w.e[t].reports[j].stage.Sent? {
      var mid := LateResults.Act1(w, t, Drop(j));
      w' := UnderWayAreLost(mid, t);
      LateResults.OnlyAtTwice(w, t, mid, w');
    } else {
      w' := w;
    }
  }
}
