/** Durability of the scheduler (internal/scheduler/persist.go and the checkpoint
    and restore calls of internal/coordinator/coordinator.go): every mutating call
    appends the full state to the write-ahead log, and a restart restores the last
    one. The JSON codec is a pair of functions that are assumed to round-trip. */
module Persist {
  import opened Util
  import opened Tasks
  import opened SchedulerSpec
  import opened JobBooks
  import opened Framing
  import opened Wal
  import WalRuns
  import Coordinating = Scheduler

  /** The part of the state that is saved. */
  datatype Core = Core(jobs: map<JobId, Job>, tasks: map<TaskId, Task>, pendingQ: seq<TaskId>)

  function CoreOf(s: State): Core { Core(s.jobs, s.tasks, s.pendingQ) }

  const EMPTY := Core(map[], map[], [])

  /** What goes to the codec: the maps as lists, in whatever order Go walks them. */
  datatype Image = Image(jobs: seq<Job>, tasks: seq<Task>, pending: seq<TaskId>)

  type Encoder = Image -> Bytes
  type Decoder = Bytes -> Option<Image>

  ghost predicate Faithful(enc: Encoder, dec: Decoder) {
    forall im :: dec(enc(im)) == Some(im)
  }

  /******* Lists and maps *******/

  function JobKey(j: Job): JobId { j.id }

  function TaskKey(t: Task): TaskId { t.id }

  /** The list holds the values of the map, each filed under its key. */
  ghost predicate Listed<K, V>(xs: seq<V>, key: V -> K, m: map<K, V>) {
    && (forall i :: 0 <= i < |xs| ==> key(xs[i]) in m && m[key(xs[i])] == xs[i])
    && (forall k <- m :: exists i :: 0 <= i < |xs| && key(xs[i]) == k)
  }

  function ById<K, V>(xs: seq<V>, key: V -> K): map<K, V> {
    if xs == [] then map[] else
      var last := xs[|xs| - 1];
      ById(xs[..|xs| - 1], key)[key(last) := last]
  }

  /** Rebuilding files every element under its key and nothing else. */
  lemma {:induction false} FiledByKey<K(!new), V>(xs: seq<V>, key: V -> K, m: map<K, V>)
    requires forall i :: 0 <= i < |xs| ==> key(xs[i]) in m && m[key(xs[i])] == xs[i]
    ensures forall k :: k in ById(xs, key) <==> exists i :: 0 <= i < |xs| && key(xs[i]) == k
    ensures forall k <- ById(xs, key) :: k in m && ById(xs, key)[k] == m[k]
  {
    if xs != [] {
      FiledByKey(xs[..|xs| - 1], key, m);
      assert xs == xs[..|xs| - 1] + [xs[|xs| - 1]];
    }
  }

  lemma ListRebuilds<K(!new), V>(xs: seq<V>, key: V -> K, m: map<K, V>)
    requires Listed(xs, key, m)
    ensures ById(xs, key) == m
  {
    FiledByKey(xs, key, m);
  }

  method ListValues<K(!new), V>(m: map<K, V>, key: V -> K) returns (xs: seq<V>)
    requires forall k <- m :: key(m[k]) == k
    ensures Listed(xs, key, m) && |xs| == |m|
  {
    xs := [];
    var unseen := m.Keys;
    while unseen != {}
      invariant unseen <= m.Keys && |xs| + |unseen| == |m.Keys|
      invariant forall i :: 0 <= i < |xs| ==> key(xs[i]) in m && m[key(xs[i])] == xs[i]
      invariant forall k <- m :: k !in unseen ==> exists i :: 0 <= i < |xs| && key(xs[i]) == k
    {
      var k :| k in unseen;
      ghost var before := xs;
      unseen, xs := unseen - {k}, xs + [m[k]];
      assert xs[..|before|] == before && key(xs[|before|]) == k;
    }
    assert |m.Keys| == |m|;
  }

  method FileValues<K, V>(xs: seq<V>, key: V -> K) returns (m: map<K, V>)
    ensures m == ById(xs, key)
  {
    m := map[];
    for i := 0 to |xs|
      invariant m == ById(xs[..i], key)
    {
      assert xs[..i + 1][..i] == xs[..i];
      m := m[key(xs[i]) := xs[i]];
    }
    assert xs[..|xs|] == xs;
  }

  /******* Images *******/

  ghost predicate ImageOf(im: Image, c: Core) {
    Listed(im.jobs, JobKey, c.jobs) && Listed(im.tasks, TaskKey, c.tasks) && im.pending == c.pendingQ
  }

  function Rebuilt(im: Image): Core { Core(ById(im.jobs, JobKey), ById(im.tasks, TaskKey), im.pending) }

  /** Restoring an image of a state gives that state, whatever order it lists. */
  lemma RebuildsImage(im: Image, c: Core)
    requires ImageOf(im, c)
    ensures Rebuilt(im) == c
  {
    ListRebuilds(im.jobs, JobKey, c.jobs);
    ListRebuilds(im.tasks, TaskKey, c.tasks);
  }

  /** Jobs and tasks carry the id they are filed under. */
  ghost predicate OwnIds(c: Core) {
    (forall j <- c.jobs :: c.jobs[j].id == j) && (forall t <- c.tasks :: c.tasks[t].id == t)
  }

  lemma {:induction false} FiledUnderOwn<K(!new), V>(xs: seq<V>, key: V -> K)
    ensures forall k <- ById(xs, key) :: key(ById(xs, key)[k]) == k
  {
    if xs != [] { FiledUnderOwn(xs[..|xs| - 1], key); }
  }

  /** Whatever an image holds, what is rebuilt from it is filed under its own ids. */
  lemma RebuiltOwnIds(im: Image)
    ensures OwnIds(Rebuilt(im))
  {
    FiledUnderOwn(im.jobs, JobKey);
    FiledUnderOwn(im.tasks, TaskKey);
  }

  method EncodeState(c: Core) returns (im: Image)
    requires OwnIds(c)
    ensures ImageOf(im, c)
  {
    var js := ListValues(c.jobs, JobKey);
    var ts := ListValues(c.tasks, TaskKey);
    im := Image(js, ts, c.pendingQ);
  }

  /******* Restore *******/

  /** The newest record wins over the snapshot. */
  function Blob(r: Recovery): Option<Bytes> {
    if r.records != [] then Some(r.records[|r.records| - 1]) else r.snapshot
  }

  /** What Restore makes of a recovery, None when it does not decode. */
  function Restored(dec: Decoder, r: Recovery): Option<Core> {
    match Blob(r)
    case None => Some(EMPTY)
    case Some(b) =>
      match dec(b)
      case None => None
      case Some(im) => Some(Rebuilt(im))
  }

  method Restore(s: Coordinating.Scheduler, dec: Decoder, snapshot: Option<Bytes>, records: seq<Bytes>) returns (ok: bool)
    modifies s
    ensures var b := Blob(Recovery(snapshot, records));
            && (ok <==> b.None? || dec(b.value).Some?)
            && (!ok || b.None? ==> s.Contents() == old(s.Contents()))
            && (ok && b.Some? ==>
                  s.Contents() == State(Rebuilt(dec(b.value).value).jobs, Rebuilt(dec(b.value).value).tasks,
                                        Rebuilt(dec(b.value).value).pendingQ, old(s.leaseChunk), old(s.doneCalls)))
  {
    var blob := snapshot;
    if |records| > 0 { blob := Some(records[|records| - 1]); }
    if blob.None? { return true; }
    var st := dec(blob.value);
    if st.None? { return false; }
    var jobs := FileValues(st.value.jobs, JobKey);
    var tasks := FileValues(st.value.tasks, TaskKey);
    s.jobs, s.tasks, s.pendingQ := jobs, tasks, st.value.pending;
    return true;
  }
}
