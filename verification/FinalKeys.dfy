/** In every run of the scheduler different tasks have different final keys
    (internal/scheduler/commit.go, FinalResultKey over the ranges
    internal/scheduler/scheduler.go, stealLocked makes). */
module FinalKeys {
  import opened Util
  import opened Tasks
  import opened SchedulerSpec
  import opened SchedulerRuns
  import opened Keys

  function RangeOf(k: Task): Range { Range(k.rangeStart, k.rangeEnd, k.split) }

  function KeyFor(k: Task, rng: Range): string { FinalResultKey(k.jobId.text, k.shard, rng) }

  /** The key a task's result goes to, were it to commit now. */
  function KeyOf(k: Task): string { KeyFor(k, RangeOf(k)) }

  predicate CleanTask(k: Task) { '/' !in k.jobId.text && '/' !in k.shard }

  /** What the caller of Submit has to see to: no '/' in names, no shard twice. */
  predicate Tidy(op: Op) {
    op.SubmitJob? ==>
      && '/' !in op.j.text
      && (forall i :: 0 <= i < |op.shards| ==> '/' !in op.shards[i])
      && (forall i, k :: 0 <= i < k < |op.shards| ==> op.shards[i] != op.shards[k])
  }

  ghost predicate Apart(h: History) {
    && (forall t <- h.s.tasks :: CleanTask(h.s.tasks[t]))
    && (forall r, q :: Member(h, r, r) && Member(h, q, q) && r != q ==>
          h.s.tasks[r].jobId != h.s.tasks[q].jobId || h.s.tasks[r].shard != h.s.tasks[q].shard)
    && (forall r, t, u :: Member(h, r, t) && Member(h, r, u) && t != u ==> h.s.tasks[t].split)
  }

  /** The step keeps job, shard and cut mark of every old task. */
  ghost predicate NamesKept(s: State, s': State) {
    && s.tasks.Keys <= s'.tasks.Keys
    && forall t <- s.tasks ::
         && s'.tasks[t].jobId == s.tasks[t].jobId && s'.tasks[t].shard == s.tasks[t].shard
         && (s.tasks[t].split ==> s'.tasks[t].split)
  }

  lemma ShapeKeepsNames(s: State, op: Op, s': State)
    requires Shape(s, op, s')
    ensures NamesKept(s, s')
  {
  }

  lemma SameTasksApart(h: History, h': History)
    requires Apart(h) && NamesKept(h.s, h'.s) && h'.s.tasks.Keys == h.s.tasks.Keys && h'.root == h.root
    ensures Apart(h')
  {
    assert forall r, t :: Member(h', r, t) <==> Member(h, r, t);
  }

  lemma StolenMembers(h: History, h': History, v: TaskId, piece: TaskId)
    requires CutOff(h, h', v, piece) && h.root.Keys == h.s.tasks.Keys
    ensures Member(h, h.root[v], v)
    ensures forall r, t :: Member(h', r, t) <==> Member(h, r, t) || (t == piece && r == h.root[v])
    ensures h'.s.tasks[v].split
  {
  }

  lemma StolenApart(h: History, h': History, v: TaskId, piece: TaskId, r0: TaskId)
    requires Apart(h) && NamesKept(h.s, h'.s) && Member(h, r0, v) && piece !in h.s.tasks && r0 in h.s.tasks
    requires forall r, t :: Member(h', r, t) <==> Member(h, r, t) || (t == piece && r == r0)
    requires h'.s.tasks.Keys == h.s.tasks.Keys + {piece} && h'.s.tasks[v].split && h'.s.tasks[piece].split
    requires CleanTask(h'.s.tasks[piece])
    ensures Apart(h')
  {
  }

  lemma StolenKeepsApart(h: History, h': History, v: TaskId, piece: TaskId)
    requires Known(h) && Apart(h) && NamesKept(h.s, h'.s) && CutOff(h, h', v, piece) && h'.s.tasks[piece].split
    ensures Apart(h')
  {
    assert KnownTask(h, v);
    StolenMembers(h, h', v, piece);
    StolenApart(h, h', v, piece, h.root[v]);
  }

  /** The tasks a submission adds lie in its job, one for each shard. */
  lemma AddedShard(s: State, op: Op, s': State, t: TaskId) returns (i: nat)
    requires Next(s, op, s') && op.SubmitJob? && t in s'.tasks && t !in s.tasks
    ensures i < |op.ids| == |op.shards| && op.ids[i] == t
    ensures s'.tasks[t].jobId == op.j && s'.tasks[t].shard == op.shards[i]
  {
    var job := Job(op.j, op.priority, JobRunning, op.shards, |op.shards|, 0, 0);
    AddedTask(s.(jobs := s.jobs[op.j := job]), op.j, op.priority, op.maxRetries, op.shards, op.ids, t);
    i :| 0 <= i < |op.ids| && op.ids[i] == t
         && s'.tasks[t] == FreshTask(t, op.j, op.shards[i], op.priority, op.maxRetries);
  }

  ghost predicate AddedApart(s: State, op: Op, s': State) {
    && op.SubmitJob?
    && (forall t <- s'.tasks :: t !in s.tasks ==> s'.tasks[t].jobId == op.j && CleanTask(s'.tasks[t]))
    && (forall t <- s'.tasks, u <- s'.tasks :: t !in s.tasks && u !in s.tasks && t != u ==> s'.tasks[t].shard != s'.tasks[u].shard)
  }

  lemma SubmissionApart(s: State, op: Op, s': State)
    requires Next(s, op, s') && op.SubmitJob? && Tidy(op)
    ensures AddedApart(s, op, s')
  {
    forall t <- s'.tasks | t !in s.tasks ensures s'.tasks[t].jobId == op.j && CleanTask(s'.tasks[t]) {
      var i := AddedShard(s, op, s', t);
    }
    forall t <- s'.tasks, u <- s'.tasks | t !in s.tasks && u !in s.tasks && t != u
      ensures s'.tasks[t].shard != s'.tasks[u].shard
    {
      var i := AddedShard(s, op, s', t);
      var k := AddedShard(s, op, s', u);
      assert if i < k then op.shards[i] != op.shards[k] else op.shards[k] != op.shards[i];
    }
  }

  /** A new task is a family of its own, an old one stays in an old family. */
  ghost predicate NewFamilies(h: History, h': History) {
    forall r, t :: Member(h', r, t) ==> if t in h.s.tasks then r in h.s.tasks && Member(h, r, t) else r == t
  }

  lemma SubmitFamilies(h: History, op: Op, h': History)
    requires Known(h) && Lineage(h, op, h') && op.SubmitJob?
    ensures NewFamilies(h, h')
  {
    assert forall t <- h.s.tasks :: KnownTask(h, t);
  }

  /** Old tasks belong to known jobs, the new ones to a job not seen before. */
  lemma SubmitApart(h: History, op: Op, h': History)
    requires Apart(h) && NewFamilies(h, h') && NamesKept(h.s, h'.s) && AddedApart(h.s, op, h'.s)
    requires forall t <- h.s.tasks :: h.s.tasks[t].jobId != op.j
    ensures Apart(h')
  {
  }

  lemma StepKeepsApart(h: History, op: Op, h': History)
    requires Tiled(h) && Apart(h) && Step(h, op, h') && Tidy(op)
    ensures Apart(h')
  {
    StepIsShaped(h, op, h');
    ShapedLineage(h, op, h');
    ShapeKeepsNames(h.s, op, h'.s);
    if op.SubmitJob? {
      SubmissionApart(h.s, op, h'.s);
      SubmitFamilies(h, op, h');
      assert forall t <- h.s.tasks :: KnownTask(h, t);
      SubmitApart(h, op, h');
    } else if Steals(op) {
      StealCutsOff(h, op, h');
      StolenKeepsApart(h, h', op.choice.victim, op.choice.newId);
    } else {
      SameRoots(h, op, h');
      SameTasksApart(h, h');
    }
  }

  lemma KeysDiffer(h: History, t: TaskId, u: TaskId)
    requires Tiled(h) && Apart(h) && t in h.s.tasks && u in h.s.tasks && t != u
    ensures KeyOf(h.s.tasks[t]) != KeyOf(h.s.tasks[u])
  {
    var k, l := h.s.tasks[t], h.s.tasks[u];
    assert KnownTask(h, t) && KnownTask(h, u);
    KeysAreInjective(k.jobId.text, k.shard, RangeOf(k), l.jobId.text, l.shard, RangeOf(l));
    var r, q := h.root[t], h.root[u];
    assert Member(h, r, r) && Member(h, q, q) && FamilyShape(h, r);
    assert Member(h, r, t) && Member(h, q, u);
  }

  /** Distinct tasks have distinct final keys, in every run whose submissions name
      each shard once and use no '/'. */
  lemma {:induction false} RunsKeepApart(hs: seq<History>, ops: seq<Op>, i: nat)
    requires Run(hs, ops) && i < |hs| && forall k :: 0 <= k < i ==> Tidy(ops[k])
    ensures Apart(hs[i]) && Tiled(hs[i])
  {
    RunsTile(hs, ops, i);
    if i > 0 {
      RunsKeepApart(hs, ops, i - 1);
      StepKeepsApart(hs[i - 1], ops[i - 1], hs[i]);
    }
  }

  lemma FinalKeysDistinct(hs: seq<History>, ops: seq<Op>, i: nat, t: TaskId, u: TaskId)
    requires Run(hs, ops) && i < |hs| && forall k :: 0 <= k < i ==> Tidy(ops[k])
    requires t in hs[i].s.tasks && u in hs[i].s.tasks && t != u
    ensures KeyOf(hs[i].s.tasks[t]) != KeyOf(hs[i].s.tasks[u])
  {
    RunsKeepApart(hs, ops, i);
    KeysDiffer(hs[i], t, u);
  }

  /** A shard named twice in one submission makes two tasks with one key. */
  lemma RepeatedShardCollides(s: State, op: Op, s': State, i: nat, k: nat)
    requires Next(s, op, s') && op.SubmitJob? && i < k < |op.shards| && op.shards[i] == op.shards[k]
    ensures op.ids[i] in s'.tasks && op.ids[k] in s'.tasks && op.ids[i] != op.ids[k]
    ensures KeyOf(s'.tasks[op.ids[i]]) == KeyOf(s'.tasks[op.ids[k]])
  {
    FreshShard(s, op, s', i);
    FreshShard(s, op, s', k);
  }

  lemma FreshShard(s: State, op: Op, s': State, i: nat)
    requires Next(s, op, s') && op.SubmitJob? && i < |op.shards|
    ensures op.ids[i] in s'.tasks && s'.tasks[op.ids[i]] == FreshTask(op.ids[i], op.j, op.shards[i], op.priority, op.maxRetries)
  {
    var job := Job(op.j, op.priority, JobRunning, op.shards, |op.shards|, 0, 0);
    AddedTask(s.(jobs := s.jobs[op.j := job]), op.j, op.priority, op.maxRetries, op.shards, op.ids, op.ids[i]);
  }
}
