/** The write-ahead log (internal/pipeline/checkpoint.go): recovery, append and
    checkpoint over a disk of byte files. */
module Wal {
  import opened Util
  import opened Framing

  /******* The log *******/

  /** The records of the intact frames at the start of data, and their length. */
  function Records(crc: Checksum, data: Bytes): seq<Record>
    decreases |data|
  {
    match ReadFrame(crc, data)
    case None => []
    case Some(f) => [f.record] + Records(crc, data[f.size..])
  }

  function Intact(crc: Checksum, data: Bytes): (n: nat)
    ensures n <= |data|
    decreases |data|
  {
    match ReadFrame(crc, data)
    case None => 0
    case Some(f) => f.size + Intact(crc, data[f.size..])
  }

  predicate Whole(crc: Checksum, data: Bytes) { Intact(crc, data) == |data| }

  /** More bytes after a whole log add the records those bytes hold. */
  lemma {:induction false} LogExtends(crc: Checksum, data: Bytes, rest: Bytes)
    requires Whole(crc, data)
    ensures Records(crc, data + rest) == Records(crc, data) + Records(crc, rest)
    ensures Intact(crc, data + rest) == |data| + Intact(crc, rest)
    decreases |data|
  {
    match ReadFrame(crc, data)
    case None => assert data + rest == rest;
    case Some(f) =>
      var more := data[f.size..];
      assert (data + rest)[..f.size] == data[..f.size];
      ReadIsLocal(crc, data, data + rest, f.size);
      assert (data + rest)[f.size..] == more + rest;
      LogExtends(crc, more, rest);
  }

  /** Cutting the torn tail off leaves a whole log with the same records. */
  lemma {:induction false} TrimWhole(crc: Checksum, data: Bytes)
    ensures var kept := data[..Intact(crc, data)];
            Whole(crc, kept) && Records(crc, kept) == Records(crc, data)
    decreases |data|
  {
    var n := Intact(crc, data);
    match ReadFrame(crc, data)
    case None => assert data[..0] == [];
    case Some(f) =>
      var more := data[f.size..];
      TrimWhole(crc, more);
      assert data[..n][..f.size] == data[..f.size];
      ReadIsLocal(crc, data, data[..n], f.size);
      SliceOfSlice(data, f.size, n);
  }

  lemma SliceOfSlice(data: Bytes, k: nat, n: nat)
    requires k <= n <= |data|
    ensures data[..n][k..] == data[k..][..n - k]
  {
  }

  /** A log cut anywhere holds some of its first records. */
  lemma {:induction false} CutLog(crc: Checksum, data: Bytes, n: nat)
    requires n <= |data|
    ensures Records(crc, data[..n]) <= Records(crc, data)
    decreases |data|
  {
    match ReadFrame(crc, data[..n])
    case None =>
    case Some(f) =>
      assert data[..n][..f.size] == data[..f.size];
      ReadIsLocal(crc, data[..n], data, f.size);
      CutLog(crc, data[f.size..], n - f.size);
      SliceOfSlice(data, f.size, n);
  }

  /******* Recovery *******/

  function MaxSeq(rs: seq<Record>): Long {
    if rs == [] then 0 else
      var before, last := MaxSeq(rs[..|rs| - 1]), rs[|rs| - 1].seqNo;
      if before < last then last else before
  }

  /** The payloads of the records newer than a snapshot. */
  function Newer(rs: seq<Record>, after: Long): seq<Bytes> {
    if rs == [] then [] else
      var before, last := Newer(rs[..|rs| - 1], after), rs[|rs| - 1];
      if last.seqNo > after then before + [last.payload] else before
  }

  lemma OneMore(rs: seq<Record>, r: Record, after: Long)
    ensures Newer(rs + [r], after) == if r.seqNo > after then Newer(rs, after) + [r.payload] else Newer(rs, after)
    ensures MaxSeq(rs + [r]) == if MaxSeq(rs) < r.seqNo then r.seqNo else MaxSeq(rs)
  {
    assert (rs + [r])[..|rs|] == rs;
  }

  /** The loop has read `seen` and stands at off. */
  ghost predicate Scanned(crc: Checksum, data: Bytes, seen: seq<Record>, off: nat) {
    && off <= |data|
    && seen + Records(crc, data[off..]) == Records(crc, data)
    && off + Intact(crc, data[off..]) == Intact(crc, data)
  }

  lemma ScanStart(crc: Checksum, data: Bytes)
    ensures Scanned(crc, data, [], 0)
  {
    assert data[0..] == data;
  }

  lemma ScanStep(crc: Checksum, data: Bytes, seen: seq<Record>, off: nat)
    requires Scanned(crc, data, seen, off)
    ensures match ReadFrame(crc, data[off..])
            case None => seen == Records(crc, data) && off == Intact(crc, data)
            case Some(f) => Scanned(crc, data, seen + [f.record], off + f.size)
  {
    match ReadFrame(crc, data[off..])
    case None =>
    case Some(f) =>
      assert data[off..][f.size..] == data[off + f.size..];
      var ahead := Records(crc, data[off + f.size..]);
      assert seen + ([f.record] + ahead) == (seen + [f.record]) + ahead;
  }

  method ReadNext(crc: Checksum, data: Bytes, off: nat, ghost seen: seq<Record>) returns (frame: Option<Framed>)
    requires Scanned(crc, data, seen, off)
    ensures frame.None? ==> seen == Records(crc, data) && off == Intact(crc, data)
    ensures frame.Some? ==> frame.value.size > 0 && Scanned(crc, data, seen + [frame.value.record], off + frame.value.size)
  {
    ScanStep(crc, data, seen, off);
    frame := ReadFrame(crc, data[off..]);
  }

  /** What the loop has gathered from the records it has seen. */
  ghost predicate Gathered(seen: seq<Record>, snapSeq: Long, records: seq<Bytes>, maxSeq: Long) {
    records == Newer(seen, snapSeq) && maxSeq == MaxSeq(seen)
  }

  method Gather(r: Record, snapSeq: Long, records: seq<Bytes>, maxSeq: Long, ghost seen: seq<Record>)
    returns (records': seq<Bytes>, maxSeq': Long)
    requires Gathered(seen, snapSeq, records, maxSeq)
    ensures Gathered(seen + [r], snapSeq, records', maxSeq')
  {
    OneMore(seen, r, snapSeq);
    records', maxSeq' := records, maxSeq;
    if r.seqNo > maxSeq { maxSeq' := r.seqNo; }
    if r.seqNo > snapSeq { records' := records + [r.payload]; }
  }

  method RecoverLog(crc: Checksum, data: Bytes, snapSeq: Long) returns (records: seq<Bytes>, maxSeq: Long, kept: nat)
    ensures records == Newer(Records(crc, data), snapSeq)
    ensures maxSeq == MaxSeq(Records(crc, data))
    ensures kept == Intact(crc, data)
  {
    records, maxSeq, kept := [], 0, 0;
    ghost var seen: seq<Record> := [];
    ScanStart(crc, data);
    while kept < |data|
      invariant Scanned(crc, data, seen, kept)
      invariant Gathered(seen, snapSeq, records, maxSeq)
    {
      var frame := ReadNext(crc, data, kept, seen);
      if frame.None? { return; }
      records, maxSeq := Gather(frame.value.record, snapSeq, records, maxSeq, seen);
      seen := seen + [frame.value.record];
      kept := kept + frame.value.size;
    }
    ScanStep(crc, data, seen, kept);
  }

  datatype Disk = Disk(snap: Option<Bytes>, log: Bytes, tmp: Bytes)

  datatype Recovery = Recovery(snapshot: Option<Bytes>, records: seq<Bytes>)

  /** The checkpoint on disk: none, a record, or a file that does not read. */
  predicate SnapReads(crc: Checksum, d: Disk) { d.snap.Some? ==> ReadFrame(crc, d.snap.value).Some? }

  function SnapSeq(crc: Checksum, d: Disk): Long
    requires SnapReads(crc, d)
  {
    if d.snap.None? then 0 else ReadFrame(crc, d.snap.value).value.record.seqNo
  }

  function Recovered(crc: Checksum, d: Disk): Recovery
    requires SnapReads(crc, d)
  {
    var snapshot := if d.snap.None? then None else Some(ReadFrame(crc, d.snap.value).value.record.payload);
    Recovery(snapshot, Newer(Records(crc, d.log), SnapSeq(crc, d)))
  }

  function Trimmed(crc: Checksum, d: Disk): Disk { d.(log := d.log[..Intact(crc, d.log)]) }

  function RecoveredSeq(crc: Checksum, d: Disk): Long
    requires SnapReads(crc, d)
  {
    var snap, log := SnapSeq(crc, d), MaxSeq(Records(crc, d.log));
    if snap < log then log else snap
  }

  /******* Appending and checkpointing, up to any byte or step *******/

  /** The uint64 counter wraps around. */
  function NextSeq(s: Long): Long { if s == LAST then 0 else s + 1 }

  const LAST: Long := 0xFFFF_FFFF_FFFF_FFFF

  /** The disk after the first n bytes of an append. */
  function AppendUpTo(crc: Checksum, d: Disk, r: Record, n: nat): Disk
    requires n <= |Frame(crc, r)|
  {
    d.(log := d.log + Frame(crc, r)[..n])
  }

  function Appended(crc: Checksum, d: Disk, r: Record): Disk {
    AppendUpTo(crc, d, r, |Frame(crc, r)|)
  }

  /** How far a checkpoint got: n bytes of the temporary file, the rename, or the
      truncation with n bytes of the log left. */
  datatype Reached = TempWritten(n: nat) | Renamed | Truncated(n: nat)

  function CheckpointUpTo(crc: Checksum, d: Disk, r: Record, reached: Reached): Disk
    requires reached.TempWritten? ==> reached.n <= |Frame(crc, r)|
    requires reached.Truncated? ==> reached.n <= |d.log|
  {
    var f := Frame(crc, r);
    match reached
    case TempWritten(n) => d.(tmp := f[..n])
    case Renamed => d.(snap := Some(f), tmp := [])
    case Truncated(n) => d.(snap := Some(f), tmp := [], log := d.log[..n])
  }

  class Log {
    const crc: Checksum
    var disk: Disk
    var seqNo: Long

    constructor (crc: Checksum, disk: Disk, seqNo: Long)
      ensures this.crc == crc && this.disk == disk && this.seqNo == seqNo
    {
      this.crc, this.disk, this.seqNo := crc, disk, seqNo;
    }

    method Append(payload: Bytes)
      modifies this
      ensures seqNo == NextSeq(old(seqNo))
      ensures disk == Appended(crc, old(disk), Record(seqNo, payload))
    {
      seqNo := NextSeq(seqNo);
      var frame := Frame(crc, Record(seqNo, payload));
      disk := disk.(log := disk.log + frame);
      assert frame[..|frame|] == frame;
    }

    method Checkpoint(snapshot: Bytes)
      modifies this
      ensures seqNo == old(seqNo)
      ensures disk == CheckpointUpTo(crc, old(disk), Record(seqNo, snapshot), Truncated(0))
    {
      var frame := Frame(crc, Record(seqNo, snapshot));
      disk := disk.(tmp := frame);
      disk := disk.(snap := Some(disk.tmp), tmp := []);
      disk := disk.(log := []);
      assert old(disk).log[..0] == [];
    }
  }

  /** Opening fails on a checkpoint file that does not read, and on nothing else. */
  method OpenWal(crc: Checksum, disk: Disk) returns (w: Option<Log>, recovery: Recovery)
    ensures w.Some? <==> SnapReads(crc, disk)
    ensures w.Some? ==> recovery == Recovered(crc, disk)
    ensures w.Some? ==> fresh(w.value) && w.value.crc == crc
                        && w.value.disk == Trimmed(crc, disk) && w.value.seqNo == RecoveredSeq(crc, disk)
  {
    var snapshot, snapSeq := None, 0;
    if disk.snap.Some? {
      var frame := ReadFrame(crc, disk.snap.value);
      if frame.None? { return None, Recovery(None, []); }
      snapshot, snapSeq := Some(frame.value.record.payload), frame.value.record.seqNo;
    }
    var records, maxSeq, kept := RecoverLog(crc, disk.log, snapSeq);
    var log := new Log(crc, disk.(log := disk.log[..kept]), if snapSeq < maxSeq then maxSeq else snapSeq);
    return Some(log), Recovery(snapshot, records);
  }
}
