/** What the write-ahead log recovers, over every sequence of appends, failed or not,
    checkpoints, crashes at any byte or step, and reopenings. */
module WalRuns {
  import opened Util
  import opened Framing
  import opened Wal

  /** The disk, the open log if any, what the calls say is to be recovered, and, when a
      write that failed half-way has left its bytes in the log, where they begin. */
  datatype System = System(disk: Disk, up: bool, seqNo: Long, spec: Recovery, torn: Option<nat>)

  datatype Event =
    | Append(payload: Bytes)
    | FailAppend(payload: Bytes, written: nat)      // the write or the sync fails, the process goes on
    | CrashInAppend(payload: Bytes, written: nat)
    | Checkpoint(payload: Bytes)
    | CrashInCheckpoint(payload: Bytes, reached: Reached)
    | Crash
    | Reopen

  /** What the calls alone say: the last committed checkpoint and what was appended
      since, and whether torn bytes are in the way. */
  datatype Replay = Replay(spec: Recovery, torn: bool)

  predicate Tears(ev: Event) { ev.FailAppend? && 0 < ev.written < 16 + |ev.payload| }

  function WithRecord(spec: Recovery, p: Bytes): Recovery { spec.(records := spec.records + [p]) }

  /** A completed append counts unless torn bytes are before it, one cut short does not;
      a checkpoint counts from its rename on; a completed one and a reopening take the
      torn bytes away. */
  function Logged(r: Replay, ev: Event): Replay {
    match ev
    case Append(p) => if r.torn then r else r.(spec := WithRecord(r.spec, p))
    case FailAppend(p, written) =>
      if r.torn then r
      else if written == 16 + |p| then r.(spec := WithRecord(r.spec, p))
      else r.(torn := written > 0)
    case CrashInAppend(p, written) => if r.torn || written != 16 + |p| then r else r.(spec := WithRecord(r.spec, p))
    case Checkpoint(p) => Replay(Recovery(Some(p), []), false)
    case CrashInCheckpoint(p, reached) => if reached.TempWritten? then r else r.(spec := Recovery(Some(p), []))
    case Crash => r
    case Reopen => r.(torn := false)
  }

  /** The disk up to the torn bytes, and what is behind there. */
  function Base(w: System): Disk {
    if w.torn.Some? && w.torn.value <= |w.disk.log| then w.disk.(log := w.disk.log[..w.torn.value]) else w.disk
  }

  function Tail(w: System): Bytes {
    if w.torn.Some? && w.torn.value <= |w.disk.log| then w.disk.log[w.torn.value..] else []
  }

  /** The torn bytes and what follows them do not read as a frame; so when there are none. */
  predicate TailHidden(crc: Checksum, w: System) { ReadFrame(crc, Tail(w)) == None }

  function TornAfter(w: System, ev: Event): Option<nat> {
    match ev
    case FailAppend(_, _) => if w.torn.None? && Tears(ev) then Some(|w.disk.log|) else w.torn
    case Checkpoint(_) => None
    case CrashInCheckpoint(_, reached) =>
      if w.torn.Some? && reached.Truncated? && reached.n <= w.torn.value then None else w.torn
    case Reopen => None
    case _ => w.torn
  }

  /** The counter has not run out and the payload fits its length field. */
  predicate Room(w: System, p: Bytes) { w.seqNo < LAST && |p| + 8 < WORD }

  /** What the calls say, but for a reopening that reads torn bytes as records: what it
      has then recovered is taken as it is. */
  predicate SpecFollows(crc: Checksum, w: System, ev: Event, w': System) {
    w'.spec == if ev.Reopen? && SnapReads(crc, w.disk) && !TailHidden(crc, w) then Recovered(crc, w.disk)
               else Logged(Replay(w.spec, w.torn.Some?), ev).spec
  }

  predicate Step(crc: Checksum, w: System, ev: Event, w': System) {
    && SpecFollows(crc, w, ev, w') && w'.torn == TornAfter(w, ev)
    && match ev
       case Append(p) =>
         && w.up && Room(w, p) && w'.up && w'.seqNo == NextSeq(w.seqNo)
         && w'.disk == Appended(crc, w.disk, Record(w'.seqNo, p))
       case FailAppend(p, written) =>
         && w.up && Room(w, p) && written <= 16 + |p| && w'.up && w'.seqNo == NextSeq(w.seqNo)
         && w'.disk == AppendUpTo(crc, w.disk, Record(w'.seqNo, p), written)
       case CrashInAppend(p, written) =>
         && w.up && Room(w, p) && written <= 16 + |p| && !w'.up
         && w'.disk == AppendUpTo(crc, w.disk, Record(NextSeq(w.seqNo), p), written)
       case Checkpoint(p) =>
         && w.up && |p| + 8 < WORD && w'.up && w'.seqNo == w.seqNo
         && w'.disk == CheckpointUpTo(crc, w.disk, Record(w.seqNo, p), Truncated(0))
       case CrashInCheckpoint(p, reached) =>
         && w.up && |p| + 8 < WORD && !w'.up
         && (reached.TempWritten? ==> reached.n <= 16 + |p|) && (reached.Truncated? ==> reached.n <= |w.disk.log|)
         && w'.disk == CheckpointUpTo(crc, w.disk, Record(w.seqNo, p), reached)
       case Crash => !w'.up && w'.disk == w.disk
       case Reopen =>
         && !w.up && SnapReads(crc, w.disk) && w'.up
         && w'.disk == Trimmed(crc, w.disk) && w'.seqNo == RecoveredSeq(crc, w.disk)
  }

  predicate Initial(w: System) {
    w.disk.snap == None && w.disk.log == [] && !w.up && w.torn == None && w.spec == Recovery(None, [])
  }

  ghost predicate Run(crc: Checksum, ws: seq<System>, evs: seq<Event>) {
    && |ws| == |evs| + 1 && Initial(ws[0])
    && forall i :: 0 <= i < |evs| ==> Step(crc, ws[i], evs[i], ws[i + 1])
  }

  /******* The invariant *******/

  predicate Below(rs: seq<Record>, top: Long) {
    forall i :: 0 <= i < |rs| ==> rs[i].seqNo <= top
  }

  predicate Exact(crc: Checksum, d: Disk, spec: Recovery) {
    SnapReads(crc, d) && Recovered(crc, d) == spec
  }

  /** An open log is whole and its counter covers everything on disk. */
  predicate Covers(crc: Checksum, d: Disk, seqNo: Long) {
    Whole(crc, d.log) && SnapReads(crc, d) && SnapSeq(crc, d) <= seqNo && Below(Records(crc, d.log), seqNo)
  }

  /** All this of the disk up to the torn bytes. */
  predicate Inv(crc: Checksum, w: System) {
    && Exact(crc, Base(w), w.spec)
    && (w.torn.Some? ==> w.torn.value <= |w.disk.log| && Whole(crc, Base(w).log))
    && (w.up ==> Covers(crc, Base(w), w.seqNo))
  }

  /******* Appends *******/

  lemma FrameAlone(crc: Checksum, r: Record, n: nat)
    requires Fits(r) && n <= |Frame(crc, r)|
    ensures Records(crc, Frame(crc, r)[..n]) == if n == |Frame(crc, r)| then [r] else []
    ensures n == |Frame(crc, r)| ==> Intact(crc, Frame(crc, r)[..n]) == n
  {
    var f := Frame(crc, r);
    if n < |f| {
      TornFrame(crc, r, n);
    } else {
      FrameReadsBack(crc, r, []);
      assert f[..n] == f == f + [] && f[n..] == [];
    }
  }

  /** An append reaches the records when its last byte does, and not before. */
  lemma AppendedRecords(crc: Checksum, d: Disk, r: Record, n: nat)
    requires Whole(crc, d.log) && Fits(r) && n <= |Frame(crc, r)|
    ensures var d' := AppendUpTo(crc, d, r, n);
            && Records(crc, d'.log) == Records(crc, d.log) + (if n == |Frame(crc, r)| then [r] else [])
            && (n == |Frame(crc, r)| ==> Whole(crc, d'.log))
  {
    FrameAlone(crc, r, n);
    LogExtends(crc, d.log, Frame(crc, r)[..n]);
  }

  /** One record more, numbered next. */
  lemma NextRecord(rs: seq<Record>, r: Record, seqNo: Long, snapSeq: Long)
    requires Below(rs, seqNo) && snapSeq <= seqNo < r.seqNo
    ensures Below(rs + [r], r.seqNo) && Newer(rs + [r], snapSeq) == Newer(rs, snapSeq) + [r.payload]
  {
    OneMore(rs, r, snapSeq);
  }

  lemma AppendKeeps(crc: Checksum, d: Disk, seqNo: Long, spec: Recovery, p: Bytes, n: nat)
    requires Exact(crc, d, spec) && Covers(crc, d, seqNo)
    requires seqNo < LAST && |p| + 8 < WORD && n <= 16 + |p|
    ensures var r := Record(NextSeq(seqNo), p);
            var d' := AppendUpTo(crc, d, r, n);
            && Exact(crc, d', if n == 16 + |p| then WithRecord(spec, p) else spec)
            && (n == 16 + |p| ==> Covers(crc, d', r.seqNo))
  {
    var r, rs := Record(NextSeq(seqNo), p), Records(crc, d.log);
    AppendedRecords(crc, d, r, n);
    if n == 16 + |p| {
      NextRecord(rs, r, seqNo, SnapSeq(crc, d));
    } else {
      assert rs + [] == rs;
    }
  }

  /******* Checkpoints *******/

  lemma {:induction false} NoneNewer(rs: seq<Record>, top: Long)
    requires Below(rs, top)
    ensures Newer(rs, top) == []
  {
    if rs != [] { NoneNewer(rs[..|rs| - 1], top); }
  }

  /** From the rename on, recovery sees the new checkpoint and nothing else, however
      much of the old log is left. */
  lemma NewSnapshot(crc: Checksum, d: Disk, seqNo: Long, p: Bytes, n: nat)
    requires Below(Records(crc, d.log), seqNo) && |p| + 8 < WORD && n <= |d.log|
    ensures var d' := Disk(Some(Frame(crc, Record(seqNo, p))), d.log[..n], []);
            && Exact(crc, d', Recovery(Some(p), [])) && SnapSeq(crc, d') == seqNo && Below(Records(crc, d'.log), seqNo)
  {
    var r := Record(seqNo, p);
    FrameReadsBack(crc, r, []);
    assert Frame(crc, r) + [] == Frame(crc, r);
    CutLog(crc, d.log, n);
    NoneNewer(Records(crc, d.log[..n]), seqNo);
  }

  /** A completed checkpoint makes good whatever was in the log before. */
  lemma CheckpointHeals(crc: Checksum, d: Disk, seqNo: Long, p: Bytes)
    requires |p| + 8 < WORD
    ensures var d' := CheckpointUpTo(crc, d, Record(seqNo, p), Truncated(0));
            Exact(crc, d', Recovery(Some(p), [])) && Covers(crc, d', seqNo)
  {
    var empty := d.(log := []);
    NewSnapshot(crc, empty, seqNo, p, 0);
    assert d.log[..0] == [] && empty.log[..0] == [];
  }

  /******* Reopening *******/

  lemma {:induction false} MaxIsTop(rs: seq<Record>)
    ensures Below(rs, MaxSeq(rs))
  {
    if rs != [] {
      MaxIsTop(rs[..|rs| - 1]);
      assert forall i :: 0 <= i < |rs| - 1 ==> rs[i] == rs[..|rs| - 1][i];
    }
  }

  /** A reopening keeps what it reads, in a whole log under its counter. */
  lemma ReopenKeeps(crc: Checksum, d: Disk)
    requires SnapReads(crc, d)
    ensures var d' := Trimmed(crc, d);
            Exact(crc, d', Recovered(crc, d)) && Covers(crc, d', RecoveredSeq(crc, d)) && Records(crc, d'.log) == Records(crc, d.log)
  {
    TrimWhole(crc, d.log);
    MaxIsTop(Records(crc, d.log));
  }

  /******* Torn bytes *******/

  /** Bytes after a whole log add no record exactly while they do not read as a
      frame. */
  lemma HiddenExactly(crc: Checksum, log: Bytes, tail: Bytes)
    requires Whole(crc, log)
    ensures Records(crc, log + tail) == Records(crc, log) <==> ReadFrame(crc, tail) == None
  {
    LogExtends(crc, log, tail);
    if ReadFrame(crc, tail) == None {
      assert Records(crc, log) + [] == Records(crc, log);
    } else {
      assert |Records(crc, tail)| > 0;
    }
  }

  lemma BaseAndTail(w: System)
    requires w.torn.Some? ==> w.torn.value <= |w.disk.log|
    ensures w.disk.log == Base(w).log + Tail(w) && Base(w).snap == w.disk.snap
  {
  }

  /** Recovery sees the disk up to the torn bytes, and no more, exactly while they and
      what follows do not read as a frame. */
  lemma TornRecords(crc: Checksum, w: System)
    requires Inv(crc, w)
    ensures Records(crc, w.disk.log) == Records(crc, Base(w).log) <==> TailHidden(crc, w)
    ensures SnapReads(crc, w.disk) && (TailHidden(crc, w) ==> Recovered(crc, w.disk) == w.spec)
  {
    BaseAndTail(w);
    if w.torn.Some? { HiddenExactly(crc, Base(w).log, Tail(w)); }
  }

  /** More bytes at the end stay behind torn ones. */
  lemma TornStays(crc: Checksum, w: System, more: Bytes, w': System)
    requires Inv(crc, w) && w.torn.Some? && w'.torn == w.torn && w'.spec == w.spec
    requires w'.disk == w.disk.(log := w.disk.log + more) && (w'.up ==> w.up && w.seqNo <= w'.seqNo)
    ensures Base(w') == Base(w) && Inv(crc, w')
  {
    assert w'.disk.log[..w.torn.value] == w.disk.log[..w.torn.value];
  }

  /******* Every run *******/

  predicate Appends(ev: Event) { ev.Append? || ev.FailAppend? || ev.CrashInAppend? }

  function Written(ev: Event): nat
    requires Appends(ev)
  {
    if ev.Append? then 16 + |ev.payload| else ev.written
  }

  lemma AppendedBytes(crc: Checksum, w: System, ev: Event, w': System)
    requires Step(crc, w, ev, w') && Appends(ev)
    ensures Written(ev) <= 16 + |ev.payload|
    ensures w'.disk == AppendUpTo(crc, w.disk, Record(NextSeq(w.seqNo), ev.payload), Written(ev))
    ensures w'.disk == w.disk.(log := w.disk.log + Frame(crc, Record(NextSeq(w.seqNo), ev.payload))[..Written(ev)])
  {
  }

  /** An append to a log without torn bytes. */
  lemma CleanAppendKeeps(crc: Checksum, w: System, ev: Event, w': System)
    requires Inv(crc, w) && Step(crc, w, ev, w') && Appends(ev) && w.torn.None?
    ensures Inv(crc, w')
  {
    var r := Record(NextSeq(w.seqNo), ev.payload);
    AppendedBytes(crc, w, ev, w');
    AppendKeeps(crc, w.disk, w.seqNo, w.spec, ev.payload, Written(ev));
    if Tears(ev) || Written(ev) == 0 {
      assert Frame(crc, r)[..0] == [] && w.disk.log + [] == w.disk.log;
      assert w'.disk.log[..|w.disk.log|] == w.disk.log;
      assert Base(w') == w.disk;
    }
  }

  lemma AppendStepKeeps(crc: Checksum, w: System, ev: Event, w': System)
    requires Inv(crc, w) && Step(crc, w, ev, w') && Appends(ev)
    ensures Inv(crc, w')
  {
    if w.torn.None? {
      CleanAppendKeeps(crc, w, ev, w');
    } else {
      AppendedBytes(crc, w, ev, w');
      TornStays(crc, w, Frame(crc, Record(NextSeq(w.seqNo), ev.payload))[..Written(ev)], w');
    }
  }

  /** What a checkpoint that got no further leaves up to the torn bytes. */
  lemma CheckpointBase(crc: Checksum, w: System, p: Bytes, reached: Reached, w': System)
    requires Step(crc, w, CrashInCheckpoint(p, reached), w') && !reached.TempWritten?
    requires w.torn.Some? ==> w.torn.value <= |w.disk.log|
    ensures var n := if reached.Truncated? then Min(reached.n, |Base(w).log|) else |Base(w).log|;
            n <= |Base(w).log| && Base(w') == Disk(Some(Frame(crc, Record(w.seqNo, p))), Base(w).log[..n], [])
            && (w'.torn.Some? ==> w'.torn == w.torn && n == |Base(w).log| && w'.torn.value <= |w'.disk.log|)
  {
    var n := if reached.Truncated? then Min(reached.n, |Base(w).log|) else |Base(w).log|;
    assert Base(w).log[..|Base(w).log|] == Base(w).log;
    if reached.Truncated? && w.torn.Some? {
      assert w.disk.log[..reached.n][..n] == Base(w).log[..n];
      if w'.torn.None? { assert w.disk.log[..reached.n] == Base(w).log[..n]; }
    }
  }

  lemma CheckpointCutKeeps(crc: Checksum, w: System, p: Bytes, reached: Reached, w': System)
    requires Inv(crc, w) && Step(crc, w, CrashInCheckpoint(p, reached), w')
    ensures Inv(crc, w')
  {
    if !reached.TempWritten? {
      CheckpointBase(crc, w, p, reached, w');
      NewSnapshot(crc, Base(w), w.seqNo, p, |Base(w').log|);
      assert Base(w).log[..|Base(w).log|] == Base(w).log;
    }
  }

  lemma StepKeepsInv(crc: Checksum, w: System, ev: Event, w': System)
    requires Inv(crc, w) && Step(crc, w, ev, w')
    ensures Inv(crc, w')
  {
    match ev
    case Checkpoint(p) => CheckpointHeals(crc, w.disk, w.seqNo, p);
    case CrashInCheckpoint(p, reached) => CheckpointCutKeeps(crc, w, p, reached, w');
    case Crash =>
    case Reopen =>
      ReopenKeeps(crc, w.disk);
      TornRecords(crc, w);
    case _ => AppendStepKeeps(crc, w, ev, w');
  }

  lemma {:induction false} RunsKeepInv(crc: Checksum, ws: seq<System>, evs: seq<Event>, i: nat)
    requires Run(crc, ws, evs) && i < |ws|
    ensures Inv(crc, ws[i])
  {
    if i > 0 {
      RunsKeepInv(crc, ws, evs, i - 1);
      StepKeepsInv(crc, ws[i - 1], evs[i - 1], ws[i]);
    }
  }

  /******* What is recovered *******/

  function Replayed(start: Recovery, evs: seq<Event>): Replay {
    if evs == [] then Replay(start, false) else Logged(Replayed(start, evs[..|evs| - 1]), evs[|evs| - 1])
  }

  /** The start, or a reopening. */
  predicate Baseline(evs: seq<Event>, b: nat) { b <= |evs| && (b == 0 || evs[b - 1].Reopen?) }

  /** No reopening since b has read torn bytes as records. */
  ghost predicate CleanSince(crc: Checksum, ws: seq<System>, evs: seq<Event>, b: nat, i: nat) {
    b <= i <= |evs| && i < |ws| && forall k :: b <= k < i && evs[k].Reopen? ==> TailHidden(crc, ws[k])
  }

  lemma BaselineIsClean(crc: Checksum, ws: seq<System>, evs: seq<Event>, b: nat)
    requires Run(crc, ws, evs) && Baseline(evs, b)
    ensures ws[b].torn == None && SnapReads(crc, ws[b].disk) && Recovered(crc, ws[b].disk) == ws[b].spec
  {
    RunsKeepInv(crc, ws, evs, b);
    if b > 0 { assert Step(crc, ws[b - 1], evs[b - 1], ws[b]); }
    TornRecords(crc, ws[b]);
  }

  predicate Follows(w: System, r: Replay) { w.spec == r.spec && (w.up ==> w.torn.Some? == r.torn) }

  lemma StepReplays(crc: Checksum, w: System, ev: Event, w': System, r: Replay)
    requires Step(crc, w, ev, w') && Follows(w, r) && (ev.Reopen? ==> TailHidden(crc, w))
    ensures Follows(w', Logged(r, ev))
  {
  }

  lemma ReplayedNext(start: Recovery, evs: seq<Event>, b: nat, i: nat)
    requires b <= i < |evs|
    ensures Replayed(start, evs[b..i + 1]) == Logged(Replayed(start, evs[b..i]), evs[i])
  {
    assert evs[b..i + 1][..i - b] == evs[b..i];
  }

  lemma RunStep(crc: Checksum, ws: seq<System>, evs: seq<Event>, i: nat)
    requires Run(crc, ws, evs) && i < |evs|
    ensures |ws| == |evs| + 1 && Step(crc, ws[i], evs[i], ws[i + 1])
  {
  }

  /** One more event keeps the run at what its events replay to. */
  predicate Carries(w: System, w': System, start: Recovery, evs: seq<Event>, b: nat, i: nat)
    requires b <= i < |evs|
  {
    Follows(w, Replayed(start, evs[b..i])) ==> Follows(w', Replayed(start, evs[b..i + 1]))
  }

  lemma FollowsNext(crc: Checksum, ws: seq<System>, evs: seq<Event>, b: nat, i: nat, start: Recovery)
    requires Run(crc, ws, evs) && b <= i && CleanSince(crc, ws, evs, b, i + 1)
    ensures Carries(ws[i], ws[i + 1], start, evs, b, i)
  {
    RunStep(crc, ws, evs, i);
    var r := Replayed(start, evs[b..i]);
    if Follows(ws[i], r) { StepReplays(crc, ws[i], evs[i], ws[i + 1], r); }
    ReplayedNext(start, evs, b, i);
  }

  lemma {:induction false} Carried(ws: seq<System>, evs: seq<Event>, b: nat, i: nat, start: Recovery)
    requires b <= i <= |evs| && i < |ws| && Follows(ws[b], Replay(start, false))
    requires forall k :: b <= k < i ==> Carries(ws[k], ws[k + 1], start, evs, b, k)
    ensures Follows(ws[i], Replayed(start, evs[b..i]))
  {
    if i > b {
      Carried(ws, evs, b, i - 1, start);
      assert Carries(ws[i - 1], ws[i - 1 + 1], start, evs, b, i - 1);
    }
  }

  lemma SpecIsReplay(crc: Checksum, ws: seq<System>, evs: seq<Event>, b: nat, i: nat, start: Recovery)
    requires Run(crc, ws, evs) && CleanSince(crc, ws, evs, b, i) && Follows(ws[b], Replay(start, false))
    ensures Follows(ws[i], Replayed(start, evs[b..i]))
  {
    forall k | b <= k < i ensures Carries(ws[k], ws[k + 1], start, evs, b, k) {
      FollowsNext(crc, ws, evs, b, k, start);
    }
    Carried(ws, evs, b, i, start);
  }

  /** Opening the log at any moment of any run succeeds, unless torn bytes read as a
      frame, and returns exactly what the last reopening, or the empty disk, had, and
      since then the last checkpoint that got as far as its rename and, in order, every
      append whose last byte was written with no torn bytes before it. */
  lemma RecoveryIsExact(crc: Checksum, ws: seq<System>, evs: seq<Event>, b: nat, i: nat)
    requires Run(crc, ws, evs) && Baseline(evs, b) && CleanSince(crc, ws, evs, b, i) && TailHidden(crc, ws[i])
    ensures SnapReads(crc, ws[b].disk) && SnapReads(crc, ws[i].disk)
    ensures Recovered(crc, ws[i].disk) == Replayed(Recovered(crc, ws[b].disk), evs[b..i]).spec
    ensures b == 0 ==> Recovered(crc, ws[b].disk) == Recovery(None, [])
  {
    BaselineIsClean(crc, ws, evs, b);
    SpecIsReplay(crc, ws, evs, b, i, Recovered(crc, ws[b].disk));
    RunsKeepInv(crc, ws, evs, i);
    TornRecords(crc, ws[i]);
  }

  /******* Sequence numbers *******/

  predicate Rising(rs: seq<Record>) {
    forall i, j :: 0 <= i < j < |rs| ==> rs[i].seqNo < rs[j].seqNo
  }

  lemma {:induction false} MaxBelow(rs: seq<Record>, top: Long)
    requires Below(rs, top)
    ensures MaxSeq(rs) <= top
  {
    if rs != [] { MaxBelow(rs[..|rs| - 1], top); }
  }

  lemma {:induction false} MaxGrows(rs: seq<Record>, more: seq<Record>)
    ensures MaxSeq(rs) <= MaxSeq(rs + more)
  {
    if more == [] {
      assert rs + more == rs;
    } else {
      MaxGrows(rs, more[..|more| - 1]);
      assert (rs + more)[..|rs + more| - 1] == rs + more[..|more| - 1];
    }
  }

  lemma CleanAppended(crc: Checksum, w: System, ev: Event, w': System)
    requires Inv(crc, w) && Step(crc, w, ev, w') && Appends(ev) && w.torn.None?
    ensures var r, whole := Record(NextSeq(w.seqNo), ev.payload), Written(ev) == 16 + |ev.payload|;
            && Records(crc, Base(w').log) == Records(crc, w.disk.log) + (if whole then [r] else [])
            && Base(w').snap == w.disk.snap
  {
    AppendedBytes(crc, w, ev, w');
    AppendedRecords(crc, w.disk, Record(NextSeq(w.seqNo), ev.payload), Written(ev));
    if Tears(ev) {
      assert w'.disk.log[..|w.disk.log|] == w.disk.log;
      assert Records(crc, w.disk.log) + [] == Records(crc, w.disk.log);
    }
  }

  lemma TornAppended(crc: Checksum, w: System, ev: Event, w': System)
    requires Inv(crc, w) && Step(crc, w, ev, w') && Appends(ev) && w.torn.Some?
    ensures Base(w').log == Base(w).log && Base(w').snap == Base(w).snap
  {
    AppendedBytes(crc, w, ev, w');
    assert w'.disk.log[..w.torn.value] == w.disk.log[..w.torn.value];
  }

  /** The records up to the torn bytes after any append. */
  lemma AppendedBase(crc: Checksum, w: System, ev: Event, w': System)
    requires Inv(crc, w) && Step(crc, w, ev, w') && Appends(ev)
    ensures var r, whole := Record(NextSeq(w.seqNo), ev.payload), w.torn.None? && Written(ev) == 16 + |ev.payload|;
            && Records(crc, Base(w').log) == Records(crc, Base(w).log) + (if whole then [r] else [])
            && Base(w').snap == Base(w).snap
  {
    if w.torn.None? {
      CleanAppended(crc, w, ev, w');
    } else {
      TornAppended(crc, w, ev, w');
      assert Records(crc, Base(w).log) + [] == Records(crc, Base(w).log);
    }
  }

  /** The number recovered never falls, appends are numbered above it, and records that
      rise go on rising. */
  predicate Raised(crc: Checksum, w: System, ev: Event, w': System) {
    && SnapReads(crc, Base(w)) && SnapReads(crc, Base(w'))
    && RecoveredSeq(crc, Base(w)) <= RecoveredSeq(crc, Base(w'))
    && (ev.Append? ==> RecoveredSeq(crc, Base(w)) < w'.seqNo)
    && (ev.Append? && w.torn.None? ==> RecoveredSeq(crc, Base(w')) == w'.seqNo)
    && (Rising(Records(crc, Base(w).log)) && (ev.Reopen? ==> TailHidden(crc, w)) ==> Rising(Records(crc, Base(w').log)))
  }

  lemma NextIsTop(rs: seq<Record>, r: Record, top: Long)
    requires Below(rs, top) && top < r.seqNo
    ensures MaxSeq(rs) <= top && MaxSeq(rs + [r]) == r.seqNo && (Rising(rs) ==> Rising(rs + [r]))
  {
    MaxBelow(rs, top);
    OneMore(rs, r, 0);
  }

  /** A disk with perhaps one record more, numbered above the others. */
  lemma MoreRecords(crc: Checksum, d: Disk, d': Disk, r: Record, whole: bool, top: Long)
    requires SnapReads(crc, d) && d'.snap == d.snap && SnapSeq(crc, d) <= top < r.seqNo && Below(Records(crc, d.log), top)
    requires Records(crc, d'.log) == Records(crc, d.log) + (if whole then [r] else [])
    ensures SnapReads(crc, d') && RecoveredSeq(crc, d) <= top && RecoveredSeq(crc, d) <= RecoveredSeq(crc, d')
    ensures whole ==> RecoveredSeq(crc, d') == r.seqNo
    ensures Rising(Records(crc, d.log)) ==> Rising(Records(crc, d'.log))
  {
    NextIsTop(Records(crc, d.log), r, top);
    assert Records(crc, d.log) + [] == Records(crc, d.log);
  }

  lemma AppendRises(crc: Checksum, w: System, ev: Event, w': System)
    requires Inv(crc, w) && Step(crc, w, ev, w') && Appends(ev)
    ensures Raised(crc, w, ev, w')
  {
    AppendedBase(crc, w, ev, w');
    MoreRecords(crc, Base(w), Base(w'), Record(NextSeq(w.seqNo), ev.payload),
      w.torn.None? && Written(ev) == 16 + |ev.payload|, w.seqNo);
  }

  /** The disk up to the torn bytes is a new snapshot and a part of the old log. */
  lemma SnapshotRises(crc: Checksum, w: System, ev: Event, w': System, p: Bytes, n: nat)
    requires Inv(crc, w) && w.up && |p| + 8 < WORD && n <= |Base(w).log| && !ev.Append? && !ev.Reopen?
    requires Base(w') == Disk(Some(Frame(crc, Record(w.seqNo, p))), Base(w).log[..n], [])
    ensures Raised(crc, w, ev, w')
  {
    MaxBelow(Records(crc, Base(w).log), w.seqNo);
    NewSnapshot(crc, Base(w), w.seqNo, p, n);
    CutLog(crc, Base(w).log, n);
  }

  lemma CheckpointRises(crc: Checksum, w: System, ev: Event, w': System)
    requires Inv(crc, w) && Step(crc, w, ev, w') && (ev.Checkpoint? || ev.CrashInCheckpoint?)
    ensures Raised(crc, w, ev, w')
  {
    if ev.Checkpoint? {
      assert w.disk.log[..0] == Base(w).log[..0];
      SnapshotRises(crc, w, ev, w', ev.payload, 0);
    } else if !ev.reached.TempWritten? {
      CheckpointBase(crc, w, ev.payload, ev.reached, w');
      SnapshotRises(crc, w, ev, w', ev.payload,
        if ev.reached.Truncated? then Min(ev.reached.n, |Base(w).log|) else |Base(w).log|);
    }
  }

  /** What is read of a disk never has a smaller number than a part of it. */
  lemma TrimmedRises(crc: Checksum, d: Disk, base: Disk, tail: Bytes)
    requires SnapReads(crc, d) && base.snap == d.snap && d.log == base.log + tail && Whole(crc, base.log)
    ensures SnapReads(crc, base) && SnapReads(crc, Trimmed(crc, d)) && RecoveredSeq(crc, base) <= RecoveredSeq(crc, Trimmed(crc, d))
  {
    TrimWhole(crc, d.log);
    LogExtends(crc, base.log, tail);
    MaxGrows(Records(crc, base.log), Records(crc, tail));
  }

  lemma ReopenRises(crc: Checksum, w: System, w': System)
    requires Inv(crc, w) && Step(crc, w, Reopen, w')
    ensures Raised(crc, w, Reopen, w')
  {
    ReopenKeeps(crc, w.disk);
    TornRecords(crc, w);
    BaseAndTail(w);
    if w.torn.Some? { TrimmedRises(crc, w.disk, Base(w), Tail(w)); }
  }

  lemma StepRaises(crc: Checksum, w: System, ev: Event, w': System)
    requires Inv(crc, w) && Step(crc, w, ev, w')
    ensures Raised(crc, w, ev, w')
  {
    match ev
    case Checkpoint(_) => CheckpointRises(crc, w, ev, w');
    case CrashInCheckpoint(_, _) => CheckpointRises(crc, w, ev, w');
    case Crash =>
    case Reopen => ReopenRises(crc, w, w');
    case _ => AppendRises(crc, w, ev, w');
  }

  lemma CheckpointNumber(crc: Checksum, w: System, p: Bytes, w': System)
    requires Step(crc, w, Checkpoint(p), w')
    ensures w'.seqNo == w.seqNo && SnapReads(crc, w'.disk) && RecoveredSeq(crc, w'.disk) == w.seqNo
  {
    NewSnapshot(crc, w.disk.(log := []), w.seqNo, p, 0);
    assert w.disk.log[..0] == [];
  }

  /** In every run the number the next append would get after a crash never falls, and
      an append is numbered above all that is recovered. */
  lemma SequenceNumbersRise(crc: Checksum, ws: seq<System>, evs: seq<Event>, i: nat)
    requires Run(crc, ws, evs) && i < |evs|
    ensures SnapReads(crc, Base(ws[i])) && SnapReads(crc, Base(ws[i + 1])) && SnapReads(crc, ws[i].disk)
    ensures TailHidden(crc, ws[i]) ==> RecoveredSeq(crc, ws[i].disk) == RecoveredSeq(crc, Base(ws[i]))
    ensures RecoveredSeq(crc, Base(ws[i])) <= RecoveredSeq(crc, Base(ws[i + 1]))
    ensures evs[i].Append? ==> RecoveredSeq(crc, Base(ws[i])) < ws[i + 1].seqNo
    ensures evs[i].Append? && ws[i].torn.None? ==> RecoveredSeq(crc, Base(ws[i + 1])) == ws[i + 1].seqNo
    ensures evs[i].Append? || evs[i].FailAppend? ==> ws[i + 1].seqNo == ws[i].seqNo + 1
    ensures evs[i].Checkpoint? ==>
              ws[i + 1].seqNo == ws[i].seqNo && SnapReads(crc, ws[i + 1].disk) && RecoveredSeq(crc, ws[i + 1].disk) == ws[i].seqNo
    ensures evs[i].Reopen? ==> ws[i + 1].seqNo == RecoveredSeq(crc, ws[i].disk)
  {
    RunsKeepInv(crc, ws, evs, i);
    RunStep(crc, ws, evs, i);
    if evs[i].Checkpoint? { CheckpointNumber(crc, ws[i], evs[i].payload, ws[i + 1]); }
    StepRaises(crc, ws[i], evs[i], ws[i + 1]);
    TornRecords(crc, ws[i]);
  }

  /** While no reopening has read torn bytes as records, those of the log rise. */
  lemma {:induction false} RecordsRise(crc: Checksum, ws: seq<System>, evs: seq<Event>, i: nat)
    requires Run(crc, ws, evs) && CleanSince(crc, ws, evs, 0, i)
    ensures Rising(Records(crc, Base(ws[i]).log))
  {
    if i > 0 {
      RecordsRise(crc, ws, evs, i - 1);
      RunsKeepInv(crc, ws, evs, i - 1);
      RunStep(crc, ws, evs, i - 1);
      StepRaises(crc, ws[i - 1], evs[i - 1], ws[i]);
    }
  }

  /******* A write that fails half-way without a crash *******/

  /** When torn bytes read: those that hold the header read as a frame exactly when as
      many bytes follow as the failed frame lacks, and the body so completed has the
      failed one's checksum. */
  lemma TornReadsExactly(crc: Checksum, failed: Record, n: nat, rest: Bytes)
    requires Fits(failed) && HEADER <= n < |Frame(crc, failed)|
    ensures var tail, end := Frame(crc, failed)[..n] + rest, |Frame(crc, failed)|;
            ReadFrame(crc, tail).Some? <==> |tail| >= end && crc(tail[HEADER..end]) == crc(Body(failed))
  {
    var f, tail := Frame(crc, failed), Frame(crc, failed)[..n] + rest;
    FrameStart(crc, failed, []);
    assert f + [] == f && tail[..4] == f[..4] && tail[4..8] == f[4..8];
  }

  /** Between the tear and now the process has gone on appending, and perhaps died. */
  ghost predicate OnlyAppends(evs: seq<Event>, i: nat, j: nat) {
    i < j <= |evs| && forall k :: i < k < j ==> Appends(evs[k]) || evs[k].Crash?
  }

  /** The log starts with the old one and the torn bytes. */
  ghost predicate TornAt(w: System, old': System, torn: Bytes) {
    && w.torn == Some(|old'.disk.log|) && old'.disk.log + torn <= w.disk.log
    && w.disk.snap == old'.disk.snap && w.spec == old'.spec
  }

  lemma TearsHere(crc: Checksum, w: System, ev: Event, w': System)
    requires Step(crc, w, ev, w') && w.torn.None? && Tears(ev)
    ensures TornAt(w', w, Frame(crc, Record(w'.seqNo, ev.payload))[..ev.written])
  {
  }

  lemma AppendStaysTorn(crc: Checksum, w: System, ev: Event, w': System, old': System, torn: Bytes)
    requires Step(crc, w, ev, w') && TornAt(w, old', torn) && (Appends(ev) || ev.Crash?)
    ensures TornAt(w', old', torn)
  {
    if Appends(ev) { AppendedBytes(crc, w, ev, w'); }
  }

  lemma {:induction false} LogOnlyGrows(crc: Checksum, ws: seq<System>, evs: seq<Event>, i: nat, j: nat)
    requires Run(crc, ws, evs) && OnlyAppends(evs, i, j) && ws[i].torn.None? && Tears(evs[i])
    ensures TornAt(ws[j], ws[i], Frame(crc, Record(ws[i + 1].seqNo, evs[i].payload))[..evs[i].written])
    decreases j
  {
    RunStep(crc, ws, evs, j - 1);
    if j == i + 1 {
      TearsHere(crc, ws[i], evs[i], ws[j]);
    } else {
      LogOnlyGrows(crc, ws, evs, i, j - 1);
      AppendStaysTorn(crc, ws[j - 1], evs[j - 1], ws[j], ws[i], Frame(crc, Record(ws[i + 1].seqNo, evs[i].payload))[..evs[i].written]);
    }
  }

  lemma SplitAt(log: Bytes, torn: Bytes, all: Bytes)
    requires log + torn <= all
    ensures |log| <= |all| && all[..|log|] == log && torn <= all[|log|..]
  {
    assert all[..|log|] == (log + torn)[..|log|] == log;
    assert all[|log|..][..|torn|] == all[..|log + torn|][|log|..] == torn;
  }

  /** After a write that failed half-way, everything appended since is lost to recovery
      exactly while the torn bytes and what follows them do not read as a frame; then
      recovery is what it was before the failed write, and so it is again after a
      reopening. */
  lemma LaterAppendsLost(crc: Checksum, ws: seq<System>, evs: seq<Event>, i: nat, j: nat)
    requires Run(crc, ws, evs) && OnlyAppends(evs, i, j) && ws[i].torn.None? && Tears(evs[i])
    ensures Frame(crc, Record(ws[i + 1].seqNo, evs[i].payload))[..evs[i].written] <= Tail(ws[j])
    ensures Records(crc, ws[j].disk.log) == Records(crc, ws[i].disk.log) <==> TailHidden(crc, ws[j])
    ensures SnapReads(crc, ws[i].disk) && SnapReads(crc, ws[j].disk)
    ensures TailHidden(crc, ws[j]) ==> Recovered(crc, ws[j].disk) == Recovered(crc, ws[i].disk)
    ensures TailHidden(crc, ws[j]) && j < |evs| && evs[j].Reopen? ==>
              && ws[j + 1].torn == None && Whole(crc, ws[j + 1].disk.log)
              && Exact(crc, ws[j + 1].disk, Recovered(crc, ws[i].disk))
  {
    LogOnlyGrows(crc, ws, evs, i, j);
    SplitAt(ws[i].disk.log, Frame(crc, Record(ws[i + 1].seqNo, evs[i].payload))[..evs[i].written], ws[j].disk.log);
    RunsKeepInv(crc, ws, evs, i);
    RunsKeepInv(crc, ws, evs, j);
    TornRecords(crc, ws[i]);
    TornRecords(crc, ws[j]);
    if j < |evs| && evs[j].Reopen? {
      RunStep(crc, ws, evs, j);
      ReopenKeeps(crc, ws[j].disk);
    }
  }

  /** So whatever the checksum, a later append short enough to end inside the torn
      frame is hidden although it completed. */
  lemma FailedAppendHidesLater(crc: Checksum, log: Bytes, failed: Record, n: nat, later: Record)
    requires Whole(crc, log) && Fits(failed) && HEADER <= n && n + |Frame(crc, later)| < |Frame(crc, failed)|
    ensures Records(crc, log + (Frame(crc, failed)[..n] + Frame(crc, later))) == Records(crc, log)
  {
    var tail := Frame(crc, failed)[..n] + Frame(crc, later);
    TornReadsExactly(crc, failed, n, Frame(crc, later));
    HiddenExactly(crc, log, tail);
  }
}
