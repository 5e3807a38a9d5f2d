/** A scheduler with its write-ahead log over whole runs: calls, snapshots taken and
    committed in two critical sections, crashes at any byte, restarts. */
module PersistRuns {
  import opened Util
  import opened Tasks
  import opened SchedulerSpec
  import opened SchedulerRuns
  import opened JobBooks
  import opened Framing
  import opened Wal
  import opened Persist
  import WalRuns

  datatype Codec = Codec(crc: Checksum, enc: Encoder, dec: Decoder)

  /** A snapshot taken and not yet committed; behind once a call changed the state,
      stale once such a call became durable. */
  datatype Snapshot = Snapshot(image: Image, core: Core, behind: bool, stale: bool)

  /** `durable` is the state at the latest durable point: the last call whose record was
      completely written with no torn bytes before it, the moment the last committed
      snapshot was taken, or what a restart made of torn bytes, whichever is last.
      `lossy` tells that a later call has changed the state. */
  datatype Node = Node(live: State, wal: WalRuns.System, durable: Core, snap: Option<Snapshot>, lossy: bool)

  datatype Event =
    | Call(op: Op, image: Image)
    | FailedCall(op: Op, image: Image, written: nat)   // its append fails, which is only logged
    | CrashInCall(op: Op, image: Image, written: nat)
    | TakeSnapshot(image: Image)
    | CommitSnapshot
    | CrashInCommit(reached: Reached)
    | Crash
    | Restart

  /** Which calls write a record. */
  predicate Persists(s: State, op: Op, s': State) {
    match op
    case SubmitJob(_, _, _, _, _) => true
    case Poll(_, _, choice) => !choice.Nothing?
    case StartTask(tid) => tid in s.tasks
    case SettleTask(tid, _, _) => tid in s.tasks && !s.tasks[tid].status.TaskDone?
    case RenewLease(tid, _, _) => tid in s.tasks
    case RebalanceWorker(_, _) => |s'.pendingQ| > |s.pendingQ|
    case DrainPending(n) => Min(n, |s.pendingQ|) > 0
    case SetLeaseChunk(_) => false
  }

  /** A rebalance that re-queues nothing although it finds tasks. */
  predicate Silent(op: Op) { op.RebalanceWorker? && op.order != [] }

  /** The state changed, and the change is durable or not. */
  function Passed(snap: Option<Snapshot>, durable: bool): Option<Snapshot> {
    if snap.Some? then Some(snap.value.(behind := true, stale := snap.value.stale || durable)) else None
  }

  /** What a call that tried to write its record leaves. */
  predicate Recorded(w: Node, durable: bool, w': Node) {
    && w'.durable == (if durable then CoreOf(w'.live) else w.durable)
    && w'.lossy == !durable && w'.snap == Passed(w.snap, durable)
  }

  ghost predicate CallStep(c: Codec, w: Node, op: Op, im: Image, w': Node) {
    && w.wal.up && Next(w.live, op, w'.live)
    && if Persists(w.live, op, w'.live) then
         && ImageOf(im, CoreOf(w'.live)) && WalRuns.Step(c.crc, w.wal, WalRuns.Append(c.enc(im)), w'.wal)
         && Recorded(w, w.wal.torn.None?, w')
       else
         && w'.wal == w.wal && w'.durable == w.durable
         && w'.lossy == (w.lossy || Silent(op)) && w'.snap == if Silent(op) then Passed(w.snap, false) else w.snap
  }

  ghost predicate FailedCallStep(c: Codec, w: Node, op: Op, im: Image, written: nat, w': Node) {
    && w.wal.up && Next(w.live, op, w'.live) && Persists(w.live, op, w'.live) && ImageOf(im, CoreOf(w'.live))
    && WalRuns.Step(c.crc, w.wal, WalRuns.FailAppend(c.enc(im), written), w'.wal)
    && Recorded(w, w.wal.torn.None? && written == 16 + |c.enc(im)|, w')
  }

  ghost predicate CrashInCallStep(c: Codec, w: Node, op: Op, im: Image, written: nat, w': Node) {
    && w.wal.up && Next(w.live, op, w'.live) && Persists(w.live, op, w'.live) && ImageOf(im, CoreOf(w'.live))
    && WalRuns.Step(c.crc, w.wal, WalRuns.CrashInAppend(c.enc(im), written), w'.wal)
    && w'.durable == (if w.wal.torn.None? && written == 16 + |c.enc(im)| then CoreOf(w'.live) else w.durable)
    && w'.snap == None
  }

  ghost predicate Step(c: Codec, w: Node, ev: Event, w': Node) {
    match ev
    case Call(op, im) => CallStep(c, w, op, im, w')
    case FailedCall(op, im, written) => FailedCallStep(c, w, op, im, written, w')
    case CrashInCall(op, im, written) => CrashInCallStep(c, w, op, im, written, w')
    case TakeSnapshot(im) =>
      && w.wal.up && ImageOf(im, CoreOf(w.live))
      && w' == w.(snap := Some(Snapshot(im, CoreOf(w.live), false, false)))
    case CommitSnapshot =>
      && w.snap.Some? && WalRuns.Step(c.crc, w.wal, WalRuns.Checkpoint(c.enc(w.snap.value.image)), w'.wal)
      && w'.durable == (if w.snap.value.stale then w.durable else w.snap.value.core)
      && w'.live == w.live && w'.snap == None && w'.lossy == (if w.snap.value.stale then w.lossy else w.snap.value.behind)
    case CrashInCommit(reached) =>
      && w.snap.Some? && WalRuns.Step(c.crc, w.wal, WalRuns.CrashInCheckpoint(c.enc(w.snap.value.image), reached), w'.wal)
      && w'.durable == (if w.snap.value.stale || reached.TempWritten? then w.durable else w.snap.value.core)
      && w'.snap == None
    case Crash => WalRuns.Step(c.crc, w.wal, WalRuns.Crash, w'.wal) && w'.durable == w.durable && w'.snap == None
    case Restart =>
      && WalRuns.Step(c.crc, w.wal, WalRuns.Reopen, w'.wal)
      && Restored(c.dec, Recovered(c.crc, w.wal.disk)) == Some(CoreOf(w'.live))
      && w'.durable == (if WalRuns.TailHidden(c.crc, w.wal) then w.durable else CoreOf(w'.live))
      && w'.snap == None && !w'.lossy
  }

  predicate Initial(w: Node) { WalRuns.Initial(w.wal) && w.durable == EMPTY && w.snap == None }

  /** No call became durable between a snapshot and its commit. */
  predicate Undisturbed(w: Node, ev: Event) {
    (ev.CommitSnapshot? || ev.CrashInCommit?) && w.snap.Some? ==> !w.snap.value.stale
  }

  ghost predicate Run(c: Codec, ws: seq<Node>, evs: seq<Event>) {
    && Faithful(c.enc, c.dec) && |ws| == |evs| + 1 && Initial(ws[0])
    && forall i :: 0 <= i < |evs| ==> Step(c, ws[i], evs[i], ws[i + 1])
  }

  /******* Every state carries its own ids *******/

  lemma {:induction false} AddOwnIds(s: State, j: JobId, priority: int, maxRetries: int, shards: seq<Shard>, ids: seq<TaskId>)
    requires |ids| == |shards| && OwnIds(CoreOf(s))
    ensures OwnIds(CoreOf(AddTasks(s, j, priority, maxRetries, shards, ids)))
  {
    if ids != [] { AddOwnIds(s, j, priority, maxRetries, shards[..|ids| - 1], ids[..|ids| - 1]); }
  }

  lemma {:induction false} DrainOwnIds(s: State, ids: seq<TaskId>)
    requires OwnIds(CoreOf(s))
    ensures OwnIds(CoreOf(DrainAll(s, ids)))
  {
    if ids != [] { DrainOwnIds(s, ids[..|ids| - 1]); }
  }

  lemma FinishOwnIds(s: State, tid: TaskId, w: WorkerId, status: TaskStatus)
    requires OwnIds(CoreOf(s)) && tid in s.tasks
    ensures OwnIds(CoreOf(Finish(s, tid, w, status)))
  {
  }

  lemma {:induction false} ReclaimOwnIds(s: State, order: seq<TaskId>)
    requires OwnIds(CoreOf(s))
    ensures OwnIds(CoreOf(ReclaimAll(s, order)))
  {
    if order != [] {
      var before, tid := ReclaimAll(s, order[..|order| - 1]), order[|order| - 1];
      ReclaimOwnIds(s, order[..|order| - 1]);
      if tid in before.tasks { FinishOwnIds(before, tid, before.tasks[tid].workerId, TaskFailed); }
    }
  }

  lemma NextOwnIds(s: State, op: Op, s': State)
    requires OwnIds(CoreOf(s)) && Next(s, op, s')
    ensures OwnIds(CoreOf(s'))
  {
    match op
    case SubmitJob(j, priority, maxRetries, shards, ids) =>
      var job := Job(j, priority, JobRunning, shards, |shards|, 0, 0);
      AddOwnIds(s.(jobs := s.jobs[j := job]), j, priority, maxRetries, shards, ids);
    case SettleTask(tid, w, failed) =>
      if tid in s.tasks { FinishOwnIds(s, tid, w, if failed then TaskFailed else TaskDone); }
    case RebalanceWorker(w, order) => ReclaimOwnIds(s, order);
    case DrainPending(n) =>
      var k := Min(n, |s.pendingQ|);
      DrainOwnIds(s.(pendingQ := s.pendingQ[k..]), s.pendingQ[..k]);
    case _ =>
  }

  /******* Calls that write nothing *******/

  lemma {:induction false} ReclaimGrowsQueue(s: State, order: seq<TaskId>)
    requires forall i, k :: 0 <= i < k < |order| ==> order[i] != order[k]
    requires forall i :: 0 <= i < |order| ==> order[i] in s.tasks
    ensures |ReclaimAll(s, order).pendingQ| >= |s.pendingQ|
    ensures |ReclaimAll(s, order).pendingQ| == |s.pendingQ| ==>
              forall i :: 0 <= i < |order| ==> s.tasks[order[i]].retries >= s.tasks[order[i]].maxRetries
  {
    if order != [] {
      var n := |order| - 1;
      ReclaimGrowsQueue(s, order[..n]);
      ReclaimedTask(s, order[..n], order[n]);
      assert order[n] !in order[..n];
      assert forall i :: 0 <= i < n ==> order[i] == order[..n][i];
    }
  }

  /** A call that writes nothing changes nothing that is saved, except a rebalance
      that found tasks and could re-queue none: it always does. */
  lemma UnwrittenChange(s: State, op: Op, s': State)
    requires Next(s, op, s') && !Persists(s, op, s')
    ensures CoreOf(s') != CoreOf(s) <==> Silent(op)
  {
    match op
    case RebalanceWorker(w, order) =>
      if order != [] {
        ReclaimGrowsQueue(s, order);
        assert HeldBy(s, order[0], w);
        ReclaimedTask(s, order, order[0]);
      }
    case DrainPending(n) =>
      if s.pendingQ != [] { assert s.pendingQ[0..] == s.pendingQ; }
    case _ =>
  }

  /******* The invariant *******/

  /** The log holds, as its newest entry, an image of the durable state. */
  ghost predicate Stored(c: Codec, w: Node) {
    Restored(c.dec, w.wal.spec) == Some(w.durable)
  }

  ghost predicate SnapOk(w: Node) {
    w.snap.Some? ==>
      && ImageOf(w.snap.value.image, w.snap.value.core) && OwnIds(w.snap.value.core)
      && (!w.snap.value.behind ==> w.snap.value.core == CoreOf(w.live))
      && (!w.snap.value.stale && !w.lossy ==> !w.snap.value.behind)
  }

  ghost predicate Inv(c: Codec, w: Node) {
    && WalRuns.Inv(c.crc, w.wal) && Stored(c, w) && OwnIds(w.durable)
    && (w.wal.up ==> OwnIds(CoreOf(w.live)) && SnapOk(w))
    && (w.wal.up && !w.lossy ==> w.durable == CoreOf(w.live) && w.wal.torn == None)
  }

  lemma StoredByAppend(c: Codec, spec: Recovery, im: Image, core: Core)
    requires Faithful(c.enc, c.dec) && ImageOf(im, core)
    ensures Restored(c.dec, WalRuns.WithRecord(spec, c.enc(im))) == Some(core)
    ensures Restored(c.dec, Recovery(Some(c.enc(im)), [])) == Some(core)
  {
    RebuildsImage(im, core);
  }

  lemma CallKeepsInv(c: Codec, w: Node, op: Op, im: Image, w': Node)
    requires Faithful(c.enc, c.dec) && Inv(c, w) && CallStep(c, w, op, im, w')
    ensures Inv(c, w')
  {
    NextOwnIds(w.live, op, w'.live);
    if Persists(w.live, op, w'.live) {
      WalRuns.StepKeepsInv(c.crc, w.wal, WalRuns.Append(c.enc(im)), w'.wal);
      StoredByAppend(c, w.wal.spec, im, CoreOf(w'.live));
    } else {
      UnwrittenChange(w.live, op, w'.live);
    }
  }

  lemma FailedCallKeepsInv(c: Codec, w: Node, op: Op, im: Image, written: nat, w': Node)
    requires Faithful(c.enc, c.dec) && Inv(c, w) && FailedCallStep(c, w, op, im, written, w')
    ensures Inv(c, w')
  {
    NextOwnIds(w.live, op, w'.live);
    WalRuns.StepKeepsInv(c.crc, w.wal, WalRuns.FailAppend(c.enc(im), written), w'.wal);
    StoredByAppend(c, w.wal.spec, im, CoreOf(w'.live));
  }

  lemma RestartKeepsInv(c: Codec, w: Node, w': Node)
    requires Inv(c, w) && Step(c, w, Restart, w')
    ensures Inv(c, w')
  {
    WalRuns.StepKeepsInv(c.crc, w.wal, WalRuns.Reopen, w'.wal);
    WalRuns.TornRecords(c.crc, w.wal);
    RestoredOwnIds(c.dec, Recovered(c.crc, w.wal.disk));
  }

  lemma RestoredOwnIds(dec: Decoder, r: Recovery)
    ensures Restored(dec, r).Some? ==> OwnIds(Restored(dec, r).value)
  {
    var b := Blob(r);
    if b.Some? && dec(b.value).Some? { RebuiltOwnIds(dec(b.value).value); }
  }

  lemma CrashInCallKeepsInv(c: Codec, w: Node, op: Op, im: Image, written: nat, w': Node)
    requires Faithful(c.enc, c.dec) && Inv(c, w) && CrashInCallStep(c, w, op, im, written, w')
    ensures Inv(c, w')
  {
    NextOwnIds(w.live, op, w'.live);
    WalRuns.StepKeepsInv(c.crc, w.wal, WalRuns.CrashInAppend(c.enc(im), written), w'.wal);
    StoredByAppend(c, w.wal.spec, im, CoreOf(w'.live));
  }

  lemma CommitKeepsInv(c: Codec, w: Node, ev: Event, w': Node)
    requires Faithful(c.enc, c.dec) && Inv(c, w) && Step(c, w, ev, w') && Undisturbed(w, ev)
    requires ev.CommitSnapshot? || ev.CrashInCommit?
    ensures Inv(c, w')
  {
    var b := c.enc(w.snap.value.image);
    WalRuns.StepKeepsInv(c.crc, w.wal,
      if ev.CommitSnapshot? then WalRuns.Checkpoint(b) else WalRuns.CrashInCheckpoint(b, ev.reached), w'.wal);
    StoredByAppend(c, w.wal.spec, w.snap.value.image, w.snap.value.core);
  }

  lemma StepKeepsInv(c: Codec, w: Node, ev: Event, w': Node)
    requires Faithful(c.enc, c.dec) && Inv(c, w) && Step(c, w, ev, w') && Undisturbed(w, ev)
    ensures Inv(c, w')
  {
    match ev
    case Call(op, im) => CallKeepsInv(c, w, op, im, w');
    case FailedCall(op, im, written) => FailedCallKeepsInv(c, w, op, im, written, w');
    case CrashInCall(op, im, written) => CrashInCallKeepsInv(c, w, op, im, written, w');
    case TakeSnapshot(im) =>
    case CommitSnapshot => CommitKeepsInv(c, w, ev, w');
    case CrashInCommit(reached) => CommitKeepsInv(c, w, ev, w');
    case Crash => WalRuns.StepKeepsInv(c.crc, w.wal, WalRuns.Crash, w'.wal);
    case Restart => RestartKeepsInv(c, w, w');
  }

  lemma InitialInv(c: Codec, w: Node)
    requires Initial(w)
    ensures Inv(c, w)
  {
  }

  lemma {:induction false} RunsKeepInv(c: Codec, ws: seq<Node>, evs: seq<Event>, i: nat)
    requires Run(c, ws, evs) && i < |ws| && forall k :: 0 <= k < i ==> Undisturbed(ws[k], evs[k])
    ensures Inv(c, ws[i])
  {
    if i == 0 {
      InitialInv(c, ws[0]);
    } else {
      RunsKeepInv(c, ws, evs, i - 1);
      StepKeepsInv(c, ws[i - 1], evs[i - 1], ws[i]);
    }
  }

  /** Whenever the process dies, opening the log and restoring from it gives the state at
      the latest durable point, unless torn bytes in the log read as a frame; while no
      later call has changed the state that is the live state itself. And the state
      always encodes. */
  lemma RestoreIsDurable(c: Codec, ws: seq<Node>, evs: seq<Event>, i: nat)
    requires Run(c, ws, evs) && i < |ws| && forall k :: 0 <= k < i ==> Undisturbed(ws[k], evs[k])
    ensures SnapReads(c.crc, ws[i].wal.disk)
    ensures WalRuns.TailHidden(c.crc, ws[i].wal) ==> Restored(c.dec, Recovered(c.crc, ws[i].wal.disk)) == Some(ws[i].durable)
    ensures ws[i].wal.up && !ws[i].lossy ==> ws[i].durable == CoreOf(ws[i].live) && WalRuns.TailHidden(c.crc, ws[i].wal)
    ensures ws[i].wal.up ==> OwnIds(CoreOf(ws[i].live))
  {
    RunsKeepInv(c, ws, evs, i);
    WalRuns.TornRecords(c.crc, ws[i].wal);
  }

  /** A restart is always as good as the log it reads: from then on nothing is lost to
      torn bytes until another write fails half-way. */
  lemma RestartHeals(c: Codec, ws: seq<Node>, evs: seq<Event>, i: nat)
    requires Run(c, ws, evs) && i < |evs| && evs[i].Restart? && forall k :: 0 <= k <= i ==> Undisturbed(ws[k], evs[k])
    ensures ws[i + 1].wal.torn == None && ws[i + 1].durable == CoreOf(ws[i + 1].live)
    ensures WalRuns.TailHidden(c.crc, ws[i].wal) ==> ws[i + 1].durable == ws[i].durable
  {
    RunsKeepInv(c, ws, evs, i + 1);
    assert Step(c, ws[i], evs[i], ws[i + 1]);
  }

  /** Committing a snapshot always restores the state it was taken of; so with calls
      persisted in between, the commit takes the durable state back unless they
      changed nothing. */
  lemma StaleCommitGoesBack(c: Codec, w: Node, w': Node)
    requires Faithful(c.enc, c.dec) && Inv(c, w) && Step(c, w, CommitSnapshot, w') && w.wal.up
    ensures SnapReads(c.crc, w'.wal.disk)
    ensures Restored(c.dec, Recovered(c.crc, w'.wal.disk)) == Some(w.snap.value.core)
    ensures w.snap.value.stale ==>
              (Restored(c.dec, Recovered(c.crc, w'.wal.disk)) == Some(w'.durable) <==> w.snap.value.core == w.durable)
  {
    var b := c.enc(w.snap.value.image);
    WalRuns.StepKeepsInv(c.crc, w.wal, WalRuns.Checkpoint(b), w'.wal);
    StoredByAppend(c, w.wal.spec, w.snap.value.image, w.snap.value.core);
  }
}
