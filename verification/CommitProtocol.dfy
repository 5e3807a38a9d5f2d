/** The four phases of ReportResult over every behaviour of the fleet
    (internal/scheduler/scheduler.go, ReportResult; internal/coordinator/effect.go):
    a task is done only when its output is copied, its decision agreed and its
    effect claimed, and however many reports a task gets, they leave one final
    object, one decision and at most one event. */
module CommitProtocol {
  import opened Util
  import opened Tasks
  import opened SchedulerSpec
  import opened SchedulerRuns
  import opened JobBooks
  import opened Keys
  import opened FinalKeys
  import opened CommitFsm
  import opened Attempts
  import opened Fleet

  /******* What the phases a report has been through leave behind *******/

  function Rank(s: Stage): nat {
    match s
    case Sent => 0
    case Checked => 1
    case Copied => 2
    case Decided => 3
    case Applied => 4
  }

  predicate Backed(t: TaskId, k: Task, x: Outside, rng: Range, gen: int, hasKey: bool, rank: nat) {
    && (rank >= 2 && hasKey && x.committer ==> KeyFor(k, rng) in x.objects)
    && (rank >= 3 && x.decider ==> t in x.records && gen <= x.records[t].generation)
    && (rank >= 4 && x.effect ==> KeyFor(k, rng) in x.claimed)
  }

  /** Unless the task was cut after a success report passed validation, that
      report names the range and generation the task still has. */
  predicate Current(k: Task, e: Entry, rng: Range, gen: int) {
    e.touched && (!e.tainted ==> KeyFor(k, rng) == KeyOf(k) && gen == k.generation)
  }

  predicate ReportOk(t: TaskId, k: Task, e: Entry, x: Outside, r: Report) {
    !r.failed && !r.stage.Sent? ==>
      Current(k, e, r.rng, r.gen) && Backed(t, k, x, r.rng, r.gen, r.hasKey, Rank(r.stage))
  }

  predicate CommitOk(t: TaskId, k: Task, e: Entry, x: Outside) {
    e.commit.Some? ==>
      var c := e.commit.value;
      Current(k, e, c.rng, c.gen) && Backed(t, k, x, c.rng, c.gen, c.hasKey, 4)
  }

  predicate RecordOk(t: TaskId, k: Task, e: Entry, x: Outside) {
    t in x.records ==>
      e.touched && (!e.tainted ==> x.records[t] == Command(t, k.jobId, k.generation, KeyOf(k)))
  }

  predicate PapersOk(t: TaskId, k: Task, e: Entry, x: Outside) {
    && (forall j :: 0 <= j < |e.reports| ==> ReportOk(t, k, e, x, e.reports[j]))
    && CommitOk(t, k, e, x) && RecordOk(t, k, e, x)
  }

  /******* Acts *******/

  /** The task keeps its name, and its key and generation unless it is tainted. */
  predicate KeyHeld(k: Task, e: Entry, k': Task, e': Entry) {
    && k'.jobId == k.jobId && k'.shard == k.shard
    && (e.touched ==> e'.touched) && (e.tainted ==> e'.tainted)
    && (e.touched && !e'.tainted ==> KeyOf(k') == KeyOf(k) && k'.generation == k.generation)
  }

  lemma HeldPapers(t: TaskId, k: Task, e: Entry, k': Task, e': Entry, x: Outside)
    requires PapersOk(t, k, e, x) && KeyHeld(k, e, k', e') && e'.commit == e.commit
    requires forall j :: 0 <= j < |e'.reports| ==> e'.reports[j] in e.reports || e'.reports[j].failed || e'.reports[j].stage.Sent?
    ensures PapersOk(t, k', e', x)
  {
    forall j | 0 <= j < |e'.reports| ensures ReportOk(t, k', e', x, e'.reports[j]) {
      if e'.reports[j] in e.reports {
        var i :| 0 <= i < |e.reports| && e.reports[i] == e'.reports[j];
        assert ReportOk(t, k, e, x, e.reports[i]);
      }
    }
  }

  /** What the phases of a success report leave outside, each as far as it is attached: its
      output under the key of its validation, a record of that key and generation unless
      one as new is there, and the claim of the key with its event, the first time. */
  lemma OutsideLaw(t: TaskId, k: Task, r: Report, x: Outside)
    requires !r.failed
    ensures AfterCopy(k, r, x) == if r.hasKey && x.committer then x.(objects := x.objects + {KeyFor(k, r.rng)}) else x
    ensures AfterDecision(t, k, r, x) ==
              if x.decider && (t !in x.records || x.records[t].generation < r.gen)
              then x.(records := x.records[t := Command(t, k.jobId, r.gen, KeyFor(k, r.rng))]) else x
    ensures AfterEffect(k, r, x) ==
              if x.effect && KeyFor(k, r.rng) !in x.claimed
              then x.(claimed := x.claimed + {KeyFor(k, r.rng)}, emits := x.emits + [KeyFor(k, r.rng)]) else x
  {
  }

  /** An error report leaves nothing there. */
  lemma ErrorsLeaveNothing(t: TaskId, k: Task, r: Report, lost: bool, x: Outside)
    requires r.failed
    ensures AfterCopy(k, r, x) == AfterDecision(t, k, r, x) == AfterEffect(k, r, x) == AfterDrop(k, r, lost, x) == x
  {
  }

  /** What the outside only ever gains. */
  predicate Grows(x: Outside, x': Outside) {
    && x'.committer == x.committer && x'.decider == x.decider && x'.effect == x.effect
    && x.objects <= x'.objects && x.claimed <= x'.claimed
    && x.records.Keys <= x'.records.Keys
  }

  lemma GrownPapers(t: TaskId, k: Task, e: Entry, x: Outside, x': Outside)
    requires PapersOk(t, k, e, x) && Grows(x, x')
    requires t in x'.records ==> t in x.records && x'.records[t] == x.records[t]
    ensures PapersOk(t, k, e, x')
  {
  }

  /** A task that only now learns its size is not split, so its key is unchanged. */
  lemma RenewalHoldsKey(k: Task, frontier: int, total: int, chunk: int)
    requires RangeShape(k)
    ensures var k' := Renewed(k, frontier, total, chunk);
            KeyOf(k') == KeyOf(k) && k'.generation == k.generation && k'.jobId == k.jobId && k'.shard == k.shard
  {
  }

  lemma ActHoldsKey(k: Task, e: Entry, act: Act, chunk: int)
    requires RangeShape(k) && Enabled(k, e, act)
    ensures KeyHeld(k, e, TaskAfter(k, e, act, chunk), EntryAfter(k, e, act, chunk))
  {
    if Renews(act) { RenewalHoldsKey(k, e.attempt.value.i, e.n, chunk); }
  }

  lemma OutsideGrows(t: TaskId, k: Task, e: Entry, act: Act, lost: bool, x: Outside, x': Outside)
    requires Enabled(k, e, act) && OutsideStep(t, k, e, act, lost, x, x')
    ensures Grows(x, x') && x'.records.Keys <= x.records.Keys + {t}
    ensures forall u <- x.records :: u != t ==> x'.records[u] == x.records[u]
  {
  }

  /** A report after the next phase. */
  lemma CheckPapers(t: TaskId, k: Task, e: Entry, j: nat, x: Outside)
    requires PapersOk(t, k, e, x) && At(e, j, Sent) && !k.status.TaskDone?
    ensures PapersOk(t, k, EntryAfter(k, e, Check(j), 1), x)
  {
    var e' := EntryAfter(k, e, Check(j), 1);
    assert e'.reports[j].stage == Checked;
    forall i | 0 <= i < |e'.reports| ensures ReportOk(t, k, e', x, e'.reports[i]) {
      if i != j { assert ReportOk(t, k, e, x, e.reports[i]); }
    }
  }

  lemma StagePapers(t: TaskId, k: Task, e: Entry, j: nat, stage: Stage, x: Outside)
    requires PapersOk(t, k, e, x) && j < |e.reports|
    requires ReportOk(t, k, e, x, e.reports[j].(stage := stage))
    ensures PapersOk(t, k, AtStage(e, j, stage), x)
  {
    var e' := AtStage(e, j, stage);
    forall i | 0 <= i < |e'.reports| ensures ReportOk(t, k, e', x, e'.reports[i]) {
      assert ReportOk(t, k, e, x, if i == j then e.reports[j].(stage := stage) else e.reports[i]);
    }
  }

  lemma CopyPapers(t: TaskId, k: Task, e: Entry, j: nat, x: Outside)
    requires PapersOk(t, k, e, x) && At(e, j, Checked)
    ensures PapersOk(t, k, AtStage(e, j, Copied), AfterCopy(k, e.reports[j], x))
  {
    var x' := AfterCopy(k, e.reports[j], x);
    GrownPapers(t, k, e, x, x');
    StagePapers(t, k, e, j, Copied, x');
  }

  /** The decision phase proposes at the generation the report was checked at. */
  lemma DecidePapers(t: TaskId, k: Task, e: Entry, j: nat, x: Outside)
    requires PapersOk(t, k, e, x) && At(e, j, Copied)
    ensures PapersOk(t, k, AtStage(e, j, Decided), AfterDecision(t, k, e.reports[j], x))
  {
    var x' := AfterDecision(t, k, e.reports[j], x);
    assert ReportOk(t, k, e, x, e.reports[j]);
    forall i | 0 <= i < |e.reports| ensures ReportOk(t, k, e, x', e.reports[i]) {
      assert ReportOk(t, k, e, x, e.reports[i]);
    }
    assert CommitOk(t, k, e, x') && RecordOk(t, k, e, x');
    StagePapers(t, k, e, j, Decided, x');
  }

  lemma EffectPapers(t: TaskId, k: Task, e: Entry, j: nat, x: Outside)
    requires PapersOk(t, k, e, x) && At(e, j, Decided)
    ensures PapersOk(t, k, AtStage(e, j, Applied), AfterEffect(k, e.reports[j], x))
  {
    var x' := AfterEffect(k, e.reports[j], x);
    GrownPapers(t, k, e, x, x');
    StagePapers(t, k, e, j, Applied, x');
  }

  lemma EndPapers(t: TaskId, k: Task, e: Entry, j: nat, w: WorkerId, x: Outside)
    requires PapersOk(t, k, e, x) && At(e, j, Applied)
    ensures PapersOk(t, TaskAfter(k, e, End(j, w), 1), EntryAfter(k, e, End(j, w), 1), x)
  {
    var k', e' := TaskAfter(k, e, End(j, w), 1), EntryAfter(k, e, End(j, w), 1);
    assert ReportOk(t, k, e, x, e.reports[j]);
    HeldPapers(t, k, e, k', e'.(commit := e.commit), x);
  }

  predicate Phased(k: Task, act: Act) {
    act.Copy? || act.Decide? || act.Effect? || act.End? || (act.Check? && !k.status.TaskDone?)
  }

  /** Acts that send, drop or leave alone the reports of the task. */
  lemma PlainReports(k: Task, e: Entry, act: Act, chunk: int)
    requires Enabled(k, e, act) && !Phased(k, act)
    ensures var e' := EntryAfter(k, e, act, chunk);
            && e'.commit == e.commit
            && forall j :: 0 <= j < |e'.reports| ==> e'.reports[j] in e.reports || e'.reports[j].failed || e'.reports[j].stage.Sent?
  {
  }

  lemma PlainPapers(t: TaskId, k: Task, e: Entry, act: Act, chunk: int, lost: bool, x: Outside, x': Outside)
    requires PapersOk(t, k, e, x) && TaskOk(k, e) && Enabled(k, e, act) && OutsideStep(t, k, e, act, lost, x, x')
    requires !Phased(k, act)
    ensures PapersOk(t, TaskAfter(k, e, act, chunk), EntryAfter(k, e, act, chunk), x')
  {
    var k', e' := TaskAfter(k, e, act, chunk), EntryAfter(k, e, act, chunk);
    ActHoldsKey(k, e, act, chunk);
    PlainReports(k, e, act, chunk);
    HeldPapers(t, k, e, k', e', x);
    GrownPapers(t, k', e', x, x');
  }

  lemma ActKeepsPapers(t: TaskId, k: Task, e: Entry, act: Act, chunk: int, lost: bool, x: Outside, x': Outside)
    requires PapersOk(t, k, e, x) && TaskOk(k, e) && Enabled(k, e, act) && OutsideStep(t, k, e, act, lost, x, x')
    ensures PapersOk(t, TaskAfter(k, e, act, chunk), EntryAfter(k, e, act, chunk), x')
  {
    if !Phased(k, act) {
      PlainPapers(t, k, e, act, chunk, lost, x, x');
    } else {
      match act
      case Check(j) => CheckPapers(t, k, e, j, x);
      case Copy(j) => CopyPapers(t, k, e, j, x);
      case Decide(j) => DecidePapers(t, k, e, j, x);
      case Effect(j) => EffectPapers(t, k, e, j, x);
      case End(j, w) => EndPapers(t, k, e, j, w, x);
    }
  }

  /******* The whole fleet *******/

  /** The key belongs to a task one of whose success reports was validated; only a
      tainted task can answer for a key that is not its current one. */
  predicate Answers(k: Task, e: Entry, key: string) {
    e.touched && (e.tainted || key == KeyOf(k))
  }

  ghost predicate Accounted(s: State, e: map<TaskId, Entry>, key: string) {
    exists t :: t in e && t in s.tasks && Answers(s.tasks[t], e[t], key)
  }

  ghost predicate AllPapers(s: State, e: map<TaskId, Entry>, x: Outside) {
    && e.Keys == s.tasks.Keys && x.records.Keys <= e.Keys
    && forall t <- e :: PapersOk(t, s.tasks[t], e[t], x)
  }

  ghost predicate AllAccounted(s: State, e: map<TaskId, Entry>, x: Outside) {
    && (forall key <- x.objects :: Accounted(s, e, key))
    && (forall key <- x.claimed :: Accounted(s, e, key))
  }

  /** Every claimed key stands for one event sent or one lost, never two. */
  ghost predicate ClaimsRight(x: Outside) {
    && (forall i, j :: 0 <= i < j < |x.emits| ==> x.emits[i] != x.emits[j])
    && (forall key :: key in x.claimed <==> key in x.emits || key in x.lost)
    && (forall key <- x.lost :: key !in x.emits)
  }

  ghost predicate Orderly(w: World) {
    AllPapers(w.h.s, w.e, w.x) && AllAccounted(w.h.s, w.e, w.x) && ClaimsRight(w.x)
  }

  ghost predicate AllHeld(s: State, e: map<TaskId, Entry>, s': State, e': map<TaskId, Entry>) {
    && e.Keys == s.tasks.Keys && e'.Keys == s'.tasks.Keys && e.Keys <= e'.Keys
    && forall t <- e :: KeyHeld(s.tasks[t], e[t], s'.tasks[t], e'[t])
  }

  lemma HeldAccounted(s: State, e: map<TaskId, Entry>, s': State, e': map<TaskId, Entry>, x: Outside)
    requires AllHeld(s, e, s', e') && AllAccounted(s, e, x)
    ensures AllAccounted(s', e', x)
  {
    forall key | Accounted(s, e, key) ensures Accounted(s', e', key) {
      var t :| t in e && t in s.tasks && Answers(s.tasks[t], e[t], key);
      assert Answers(s'.tasks[t], e'[t], key);
    }
  }

  /** A step of the scheduler that sends no report and touches nothing outside. */
  lemma HeldKeepsOrder(w: World, w': World)
    requires Orderly(w) && w'.x == w.x && AllHeld(w.h.s, w.e, w'.h.s, w'.e)
    requires forall t <- w.e :: w'.e[t].commit == w.e[t].commit && w'.e[t].reports == w.e[t].reports
    requires forall t <- w'.e :: t !in w.e ==> w'.e[t].commit == None && w'.e[t].reports == []
    ensures Orderly(w')
  {
    forall t <- w'.e ensures PapersOk(t, w'.h.s.tasks[t], w'.e[t], w'.x) {
      if t in w.e { HeldPapers(t, w.h.s.tasks[t], w.e[t], w'.h.s.tasks[t], w'.e[t], w.x); }
    }
    HeldAccounted(w.h.s, w.e, w'.h.s, w'.e, w.x);
  }

  lemma QuietHeld(k: Task, e: Entry, k': Task, e': Entry)
    requires QuietTask(k, k') && e'.touched == e.touched && e'.tainted == e.tainted
    ensures KeyHeld(k, e, k', e')
  {
  }

  lemma CutHeld(k: Task, e: Entry)
    ensures KeyHeld(k, e, Shrunk(k), e.(tainted := e.tainted || e.touched))
  {
  }

  /** Old tasks stay, each as quiet as QuietTask says. */
  ghost predicate QuietTasks(s: State, s': State) {
    s.tasks.Keys <= s'.tasks.Keys && forall t <- s.tasks :: QuietTask(s.tasks[t], s'.tasks[t])
  }

  lemma StepQuiet(h: History, op: Op, s': State)
    requires Known(h) && Next(h.s, op, s') && !Steals(op) && !op.RenewLease?
    ensures QuietTasks(h.s, s')
  {
    StepShape(h, op, s');
  }

  lemma AdminHeld(w: World, op: Op, w': World)
    requires w.e.Keys == w.h.s.tasks.Keys && QuietTasks(w.h.s, w'.h.s) && AdminStep(w, op, w')
    ensures AllHeld(w.h.s, w.e, w'.h.s, w'.e)
  {
    forall t <- w.e ensures t in w'.e && KeyHeld(w.h.s.tasks[t], w.e[t], w'.h.s.tasks[t], w'.e[t]) {
      QuietHeld(w.h.s.tasks[t], w.e[t], w'.h.s.tasks[t], w'.e[t]);
    }
  }

  lemma AdminKeepsOrder(w: World, op: Op, w': World)
    requires Known(w.h) && Orderly(w) && AdminStep(w, op, w')
    ensures Orderly(w')
  {
    StepQuiet(w.h, op, w'.h.s);
    AdminHeld(w, op, w');
    HeldKeepsOrder(w, w');
  }

  /** What a poll or a drain does to an entry: only a cut can taint it. */
  predicate Passed(e: Entry, e': Entry, cut: bool) {
    && e'.commit == e.commit && e'.reports == e.reports && e'.touched == e.touched
    && e'.tainted == (e.tainted || (cut && e.touched))
  }

  predicate Cut(w: World, op: Op, s': State, t: TaskId)
    requires t in s'.tasks
  {
    Steals(op) && t == op.choice.victim && !HandedOut(w.h.s, s', t)
  }

  lemma HandedPapers(w: World, op: Op, s': State, t: TaskId)
    requires t in s'.tasks
    ensures var e' := HandedEntry(w, op, s', t);
            if t in w.e then Passed(w.e[t], e', Cut(w, op, s', t)) else e'.commit == None && e'.reports == []
  {
  }

  ghost predicate HandedAll(w: World, op: Op, w': World) {
    && w.e.Keys <= w'.e.Keys == w'.h.s.tasks.Keys
    && (forall t <- w.e :: Passed(w.e[t], w'.e[t], Cut(w, op, w'.h.s, t)))
    && (forall t <- w'.e :: t !in w.e ==> w'.e[t].commit == None && w'.e[t].reports == [])
  }

  lemma HandEntries(w: World, op: Op, w': World)
    requires w.e.Keys <= w'.e.Keys == w'.h.s.tasks.Keys
    requires forall t <- w'.e :: w'.e[t] == HandedEntry(w, op, w'.h.s, t)
    ensures HandedAll(w, op, w')
  {
    forall t <- w'.e
      ensures if t in w.e then Passed(w.e[t], w'.e[t], Cut(w, op, w'.h.s, t)) else w'.e[t].commit == None && w'.e[t].reports == []
    {
      HandedPapers(w, op, w'.h.s, t);
    }
  }

  lemma QuietHandHeld(w: World, op: Op, w': World)
    requires Known(w.h) && w.e.Keys == w.h.s.tasks.Keys && HandStep(w, op, w') && !Steals(op)
    ensures HandedAll(w, op, w') && AllHeld(w.h.s, w.e, w'.h.s, w'.e)
  {
    StepQuiet(w.h, op, w'.h.s);
    HandEntries(w, op, w');
    forall t <- w.e ensures KeyHeld(w.h.s.tasks[t], w.e[t], w'.h.s.tasks[t], w'.e[t]) {
      QuietHeld(w.h.s.tasks[t], w.e[t], w'.h.s.tasks[t], w'.e[t]);
    }
  }

  lemma StealHeld(w: World, op: Op, w': World)
    requires w.e.Keys == w.h.s.tasks.Keys && Stolen(w.h.s, op, w'.h.s) && HandedAll(w, op, w')
    ensures AllHeld(w.h.s, w.e, w'.h.s, w'.e)
  {
    var v := op.choice.victim;
    CutHeld(w.h.s.tasks[v], w.e[v]);
    forall t <- w.e ensures KeyHeld(w.h.s.tasks[t], w.e[t], w'.h.s.tasks[t], w'.e[t]) {
    }
  }

  lemma HandHeld(w: World, op: Op, w': World)
    requires Known(w.h) && w.e.Keys == w.h.s.tasks.Keys && HandStep(w, op, w')
    ensures HandedAll(w, op, w') && AllHeld(w.h.s, w.e, w'.h.s, w'.e)
  {
    if Steals(op) {
      StepShape(w.h, op, w'.h.s);
      HandEntries(w, op, w');
      StealHeld(w, op, w');
    } else {
      QuietHandHeld(w, op, w');
    }
  }

  lemma HandKeepsOrder(w: World, op: Op, w': World)
    requires Known(w.h) && Orderly(w) && HandStep(w, op, w')
    ensures Orderly(w')
  {
    HandHeld(w, op, w');
    HeldKeepsOrder(w, w');
  }

  lemma RebalanceHeld(w: World, op: Op, w': World)
    requires Known(w.h) && w.e.Keys == w.h.s.tasks.Keys && RebalanceStep(w, op, w')
    ensures AllHeld(w.h.s, w.e, w'.h.s, w'.e)
  {
    StepQuiet(w.h, op, w'.h.s);
    ReclaimedQueue(w.h.s, op.order);
    forall t <- w.e ensures KeyHeld(w.h.s.tasks[t], w.e[t], w'.h.s.tasks[t], w'.e[t]) {
      QuietHeld(w.h.s.tasks[t], w.e[t], w'.h.s.tasks[t], w'.e[t]);
    }
  }

  lemma RebalanceKeepsOrder(w: World, op: Op, w': World)
    requires Known(w.h) && Orderly(w) && RebalanceStep(w, op, w')
    ensures Orderly(w')
  {
    RebalanceHeld(w, op, w');
    HeldKeepsOrder(w, w');
  }

  /** A key that appears outside is the acting task's to answer for. */
  lemma NewKeysAnswered(t: TaskId, k: Task, e: Entry, act: Act, lost: bool, x: Outside, x': Outside, key: string)
    requires PapersOk(t, k, e, x) && Enabled(k, e, act) && OutsideStep(t, k, e, act, lost, x, x')
    requires (key in x'.objects && key !in x.objects) || (key in x'.claimed && key !in x.claimed)
    ensures Answers(k, e, key)
  {
    assert ReportOk(t, k, e, x, e.reports[act.j]);
  }

  lemma ClaimsStayRight(t: TaskId, k: Task, e: Entry, act: Act, lost: bool, x: Outside, x': Outside)
    requires ClaimsRight(x) && Enabled(k, e, act) && OutsideStep(t, k, e, act, lost, x, x')
    ensures ClaimsRight(x')
  {
    if act.Effect? && x' != x {
      var key := KeyFor(k, e.reports[act.j].rng);
      assert x'.emits == x.emits + [key] && key !in x.emits && key !in x.lost;
      assert forall other :: other in x'.emits <==> other in x.emits || other == key;
    }
  }

  lemma ActAccounted(s: State, e: map<TaskId, Entry>, s': State, e': map<TaskId, Entry>, t: TaskId, x: Outside, x': Outside)
    requires AllHeld(s, e, s', e') && AllAccounted(s, e, x) && t in e
    requires forall key :: (key in x'.objects && key !in x.objects) || (key in x'.claimed && key !in x.claimed) ==> Answers(s.tasks[t], e[t], key)
    ensures AllAccounted(s', e', x')
  {
    HeldAccounted(s, e, s', e', x);
    forall key | Answers(s.tasks[t], e[t], key) ensures Accounted(s', e', key) {
      assert Answers(s'.tasks[t], e'[t], key);
    }
  }

  lemma ActPapers(s: State, e: map<TaskId, Entry>, s': State, e': map<TaskId, Entry>, t: TaskId, x: Outside, x': Outside)
    requires AllPapers(s, e, x) && t in e && t in s'.tasks && t in e' && s'.tasks == s.tasks[t := s'.tasks[t]] && e' == e[t := e'[t]]
    requires Grows(x, x') && x'.records.Keys <= x.records.Keys + {t}
    requires forall u <- x.records :: u != t ==> x'.records[u] == x.records[u]
    requires PapersOk(t, s'.tasks[t], e'[t], x')
    ensures AllPapers(s', e', x')
  {
    forall u <- e' ensures PapersOk(u, s'.tasks[u], e'[u], x') {
      if u != t { GrownPapers(u, s.tasks[u], e[u], x, x'); }
    }
  }

  lemma LocalKeepsOrder(w: World, t: TaskId, act: Act, lost: bool, w': World)
    requires AllOk(w.h.s, w.e) && Orderly(w) && LocalStep(w, t, act, lost, w')
    ensures Orderly(w')
  {
    var k, e, chunk := w.h.s.tasks[t], w.e[t], w.h.s.leaseChunk;
    LocalTasks(w, t, act, lost, w');
    ActHoldsKey(k, e, act, chunk);
    ActKeepsPapers(t, k, e, act, chunk, lost, w.x, w'.x);
    OutsideGrows(t, k, e, act, lost, w.x, w'.x);
    ActPapers(w.h.s, w.e, w'.h.s, w'.e, t, w.x, w'.x);
    forall key | (key in w'.x.objects && key !in w.x.objects) || (key in w'.x.claimed && key !in w.x.claimed)
      ensures Answers(k, e, key)
    {
      NewKeysAnswered(t, k, e, act, lost, w.x, w'.x, key);
    }
    HeldHere(w.h.s, w.e, w'.h.s, w'.e, t);
    ActAccounted(w.h.s, w.e, w'.h.s, w'.e, t, w.x, w'.x);
    ClaimsStayRight(t, k, e, act, lost, w.x, w'.x);
  }

  lemma HeldHere(s: State, e: map<TaskId, Entry>, s': State, e': map<TaskId, Entry>, t: TaskId)
    requires e.Keys == s.tasks.Keys && t in e && t in s'.tasks && t in e' && s'.tasks == s.tasks[t := s'.tasks[t]] && e' == e[t := e'[t]]
    requires KeyHeld(s.tasks[t], e[t], s'.tasks[t], e'[t])
    ensures AllHeld(s, e, s', e')
  {
  }

  lemma MoveKeepsOrder(w: World, ev: Event, w': World)
    requires Inv(w) && Orderly(w) && Move(w, ev, w')
    ensures Orderly(w')
  {
    match ev
    case Admin(op) => AdminKeepsOrder(w, op, w');
    case Hand(op) => HandKeepsOrder(w, op, w');
    case Rebalance(op) => RebalanceKeepsOrder(w, op, w');
    case Local(t, act, lost) => LocalKeepsOrder(w, t, act, lost, w');
    case Restart(chunk) => RestartKeepsOrder(w, chunk, w');
  }

  lemma RestartKeepsOrder(w: World, chunk: int, w': World)
    requires Orderly(w) && RestartStep(w, chunk, w')
    ensures Orderly(w')
  {
    forall key | Accounted(w.h.s, w.e, key) ensures Accounted(w'.h.s, w'.e, key) {
      var t :| t in w.e && t in w.h.s.tasks && Answers(w.h.s.tasks[t], w.e[t], key);
      assert Answers(w'.h.s.tasks[t], w'.e[t], key);
    }
  }

  lemma {:induction false} BehavioursKeepOrder(ws: seq<World>, evs: seq<Event>, i: nat)
    requires Behaviour(ws, evs) && i < |ws|
    ensures Orderly(ws[i])
  {
    if i > 0 {
      BehavioursKeepOrder(ws, evs, i - 1);
      BehavioursKeepInv(ws, evs, i - 1);
      MoveKeepsOrder(ws[i - 1], evs[i - 1], ws[i]);
    }
  }

  /******* What that gives *******/

  /** A done task has its output under the key its committing report was given, a
      decision at least as new as that report, and its effect claimed, each as far
      as it is attached; and unless it was cut meanwhile, that key is its own. */
  lemma DoneIsBacked(ws: seq<World>, evs: seq<Event>, i: nat, t: TaskId)
    requires Behaviour(ws, evs) && i < |ws| && t in ws[i].e && t in ws[i].h.s.tasks
    requires ws[i].h.s.tasks[t].status.TaskDone?
    ensures ws[i].e[t].commit.Some?
    ensures var k, c, x := ws[i].h.s.tasks[t], ws[i].e[t].commit.value, ws[i].x;
            && (x.committer && c.hasKey ==> KeyFor(k, c.rng) in x.objects)
            && (x.decider ==> t in x.records && c.gen <= x.records[t].generation)
            && (x.effect ==> KeyFor(k, c.rng) in x.emits || KeyFor(k, c.rng) in x.lost)
    ensures var k, c, x := ws[i].h.s.tasks[t], ws[i].e[t].commit.value, ws[i].x;
            !ws[i].e[t].tainted ==> KeyFor(k, c.rng) == KeyOf(k) && c.gen == k.generation
                                    && (x.decider ==> x.records[t] == Command(t, k.jobId, k.generation, KeyOf(k)))
  {
    BehavioursKeepInv(ws, evs, i);
    BehavioursKeepOrder(ws, evs, i);
    assert TaskOk(ws[i].h.s.tasks[t], ws[i].e[t]);
    assert PapersOk(t, ws[i].h.s.tasks[t], ws[i].e[t], ws[i].x);
  }

  /** No key is ever emitted twice, and a lost event is not emitted at all. */
  lemma OneEventPerKey(ws: seq<World>, evs: seq<Event>, i: nat, a: nat, b: nat)
    requires Behaviour(ws, evs) && i < |ws| && a < b < |ws[i].x.emits|
    ensures ws[i].x.emits[a] != ws[i].x.emits[b] && ws[i].x.emits[a] !in ws[i].x.lost
  {
    BehavioursKeepOrder(ws, evs, i);
  }

  /******* Counting *******/

  predicate TidyEvent(ev: Event) { ev.Admin? ==> Tidy(ev.op) }

  lemma MoveKeepsApart(w: World, ev: Event, w': World)
    requires Inv(w) && Apart(w.h) && Move(w, ev, w') && TidyEvent(ev)
    ensures Apart(w'.h)
  {
    match ev
    case Admin(op) => StepKeepsApart(w.h, op, w'.h);
    case Hand(op) => StepKeepsApart(w.h, op, w'.h);
    case Rebalance(op) => StepKeepsApart(w.h, op, w'.h);
    case Local(t, act, lost) =>
      if OpOf(w, t, act).Some? { StepKeepsApart(w.h, OpOf(w, t, act).value, w'.h); }
    case Restart(chunk) => SameTasksApart(w.h, w'.h);
  }

  lemma {:induction false} BehavioursKeepApart(ws: seq<World>, evs: seq<Event>, i: nat)
    requires Behaviour(ws, evs) && i < |ws| && forall k :: 0 <= k < i ==> TidyEvent(evs[k])
    ensures Apart(ws[i].h)
  {
    if i > 0 {
      BehavioursKeepApart(ws, evs, i - 1);
      BehavioursKeepInv(ws, evs, i - 1);
      MoveKeepsApart(ws[i - 1], evs[i - 1], ws[i]);
    }
  }

  /** Without a tainted task, an object or an event belongs to exactly one task,
      under the key that task has now. */
  lemma OneTaskPerKey(ws: seq<World>, evs: seq<Event>, i: nat, key: string)
    requires Behaviour(ws, evs) && i < |ws| && forall k :: 0 <= k < i ==> TidyEvent(evs[k])
    requires forall t <- ws[i].e :: !ws[i].e[t].tainted
    requires key in ws[i].x.objects || key in ws[i].x.claimed
    ensures exists t :: t in ws[i].e && t in ws[i].h.s.tasks && ws[i].e[t].touched && KeyOf(ws[i].h.s.tasks[t]) == key
    ensures forall t <- ws[i].h.s.tasks, u <- ws[i].h.s.tasks ::
              KeyOf(ws[i].h.s.tasks[t]) == key && KeyOf(ws[i].h.s.tasks[u]) == key ==> t == u
  {
    var w := ws[i];
    BehavioursKeepInv(ws, evs, i);
    BehavioursKeepOrder(ws, evs, i);
    BehavioursKeepApart(ws, evs, i);
    assert Accounted(w.h.s, w.e, key);
    var t :| t in w.e && t in w.h.s.tasks && Answers(w.h.s.tasks[t], w.e[t], key);
    assert w.e[t].touched && KeyOf(w.h.s.tasks[t]) == key;
    forall t, u | t in w.h.s.tasks && u in w.h.s.tasks && t != u ensures KeyOf(w.h.s.tasks[t]) != KeyOf(w.h.s.tasks[u]) {
      KeysDiffer(w.h, t, u);
    }
  }

  /** All tasks are settled, every failed one without a validated success report,
      every done one with an output key, and none was cut after validation. */
  ghost predicate CleanEnd(w: World) {
    && w.e.Keys == w.h.s.tasks.Keys
    && forall t <- w.e ::
         && !w.e[t].tainted
         && (if w.h.s.tasks[t].status.TaskDone? then w.e[t].commit.Some? && w.e[t].commit.value.hasKey
             else w.h.s.tasks[t].status.TaskFailed? && !w.e[t].touched)
  }

  function DoneIds(w: World): set<TaskId> {
    set t <- w.h.s.tasks | w.h.s.tasks[t].status.TaskDone?
  }

  /** The keys are exactly those of the done tasks, one for each. */
  ghost predicate DoneKeys(w: World, keys: set<string>) {
    && (forall t <- DoneIds(w) :: KeyOf(w.h.s.tasks[t]) in keys)
    && (forall key <- keys :: exists t :: t in DoneIds(w) && KeyOf(w.h.s.tasks[t]) == key)
    && |keys| == |DoneIds(w)|
  }

  ghost predicate NoneTainted(w: World) { forall t <- w.e :: !w.e[t].tainted }

  /** Every done task's key is there, and no other task's. */
  ghost predicate OnlyDone(w: World, keys: set<string>) {
    forall t <- w.h.s.tasks :: KeyOf(w.h.s.tasks[t]) in keys <==> w.h.s.tasks[t].status.TaskDone?
  }

  lemma OnlyDoneCounts(w: World, keys: set<string>)
    requires Inv(w) && Apart(w.h) && NoneTainted(w) && (forall key <- keys :: Accounted(w.h.s, w.e, key))
    requires OnlyDone(w, keys)
    ensures DoneKeys(w, keys)
  {
    var at := map t | t in DoneIds(w) :: KeyOf(w.h.s.tasks[t]);
    forall t <- DoneIds(w), u <- DoneIds(w) | t != u ensures at[t] != at[u] { KeysDiffer(w.h, t, u); }
    forall key <- keys ensures exists t :: t in DoneIds(w) && at[t] == key {
      var t :| t in w.e && t in w.h.s.tasks && Answers(w.h.s.tasks[t], w.e[t], key);
      assert t in DoneIds(w);
    }
    ImageSize(DoneIds(w), at, keys);
  }

  lemma DoneKeysAreOnly(w: World, keys: set<string>, t: TaskId)
    requires Tiled(w.h) && Apart(w.h) && DoneKeys(w, keys) && t in w.h.s.tasks && KeyOf(w.h.s.tasks[t]) in keys
    ensures w.h.s.tasks[t].status.TaskDone?
  {
    var u :| u in DoneIds(w) && KeyOf(w.h.s.tasks[u]) == KeyOf(w.h.s.tasks[t]);
    if u != t { KeysDiffer(w.h, t, u); }
  }

  /** Keys that answer to tasks are one for each done task if and only if every done
      task has its key there and no task that is not done has. */
  lemma KeysExactly(w: World, keys: set<string>)
    requires Inv(w) && Apart(w.h) && NoneTainted(w) && (forall key <- keys :: Accounted(w.h.s, w.e, key))
    ensures DoneKeys(w, keys) <==> OnlyDone(w, keys)
  {
    if OnlyDone(w, keys) { OnlyDoneCounts(w, keys); }
    if DoneKeys(w, keys) {
      forall t <- w.h.s.tasks | KeyOf(w.h.s.tasks[t]) in keys ensures w.h.s.tasks[t].status.TaskDone? {
        DoneKeysAreOnly(w, keys, t);
      }
    }
  }

  /** At a clean end only done tasks have been validated, so only they have keys. */
  lemma CleanEndOnlyDone(w: World, keys: set<string>)
    requires Inv(w) && Apart(w.h) && CleanEnd(w) && (forall key <- keys :: Accounted(w.h.s, w.e, key))
    requires forall t <- DoneIds(w) :: KeyOf(w.h.s.tasks[t]) in keys
    ensures OnlyDone(w, keys)
  {
    forall t <- w.h.s.tasks | KeyOf(w.h.s.tasks[t]) in keys ensures w.h.s.tasks[t].status.TaskDone? {
      var u :| u in w.e && u in w.h.s.tasks && Answers(w.h.s.tasks[u], w.e[u], KeyOf(w.h.s.tasks[t]));
      if u != t { KeysDiffer(w.h, t, u); }
    }
  }

  lemma KeysCount(w: World, keys: set<string>)
    requires Inv(w) && Apart(w.h) && CleanEnd(w) && (forall key <- keys :: Accounted(w.h.s, w.e, key))
    requires forall t <- DoneIds(w) :: KeyOf(w.h.s.tasks[t]) in keys
    ensures DoneKeys(w, keys)
  {
    CleanEndOnlyDone(w, keys);
    OnlyDoneCounts(w, keys);
  }

  /** The end of a run as the fault-injection suite counts it: as many final
      objects, decision records and events (sent or lost) as done tasks, each
      under its task's own key. */
  lemma CountsAgree(ws: seq<World>, evs: seq<Event>, i: nat)
    requires Behaviour(ws, evs) && i < |ws| && (forall k :: 0 <= k < i ==> TidyEvent(evs[k])) && CleanEnd(ws[i])
    ensures ws[i].x.committer ==> DoneKeys(ws[i], ws[i].x.objects)
    ensures ws[i].x.decider ==> ws[i].x.records.Keys == DoneIds(ws[i])
    ensures ws[i].x.effect ==> DoneKeys(ws[i], ws[i].x.claimed) && |ws[i].x.emits| + |ws[i].x.lost| == |DoneIds(ws[i])|
  {
    var w := ws[i];
    BehavioursKeepInv(ws, evs, i);
    BehavioursKeepOrder(ws, evs, i);
    BehavioursKeepApart(ws, evs, i);
    DonePapers(w);
    if w.x.committer { KeysCount(w, w.x.objects); }
    if w.x.effect {
      KeysCount(w, w.x.claimed);
      ClaimsCount(w.x);
    }
  }

  lemma DonePapers(w: World)
    requires Orderly(w) && CleanEnd(w)
    ensures w.x.committer ==> forall t <- DoneIds(w) :: KeyOf(w.h.s.tasks[t]) in w.x.objects
    ensures w.x.effect ==> forall t <- DoneIds(w) :: KeyOf(w.h.s.tasks[t]) in w.x.claimed
    ensures w.x.decider ==> w.x.records.Keys == DoneIds(w)
  {
    assert forall t <- w.e :: PapersOk(t, w.h.s.tasks[t], w.e[t], w.x);
  }

  lemma ClaimsCount(x: Outside)
    requires ClaimsRight(x)
    ensures |x.claimed| == |x.emits| + |x.lost|
  {
    DistinctMembers(x.emits);
    assert x.claimed == (set key | key in x.emits) + x.lost;
  }

  /** Nothing but a steal taints, and only a task whose success report had been
      validated; such a victim is being retried or broke off on a failed renewal. */
  lemma OnlyStealsTaint(w: World, ev: Event, w': World, t: TaskId)
    requires Inv(w) && Move(w, ev, w') && t in w.e && t in w'.e && !w.e[t].tainted
    ensures w'.e[t].tainted <==> ev.Hand? && Steals(ev.op) && t == ev.op.choice.victim && w.e[t].touched
    ensures w'.e[t].tainted && HasResult(w.e[t]) ==> w.e[t].short
  {
    match ev
    case Admin(op) =>
    case Hand(op) => StealTaints(w, op, w', t);
    case Rebalance(op) =>
    case Local(u, act, lost) => ActsDoNotTaint(w, u, act, lost, w', t);
    case Restart(chunk) =>
  }

  lemma ActsDoNotTaint(w: World, u: TaskId, act: Act, lost: bool, w': World, t: TaskId)
    requires LocalStep(w, u, act, lost, w') && t in w.e
    ensures t in w'.e && w'.e[t].tainted == w.e[t].tainted
  {
  }

  /** Why a cut after a copy matters: the key the victim had belongs to no task any
      more, so an object already copied there is an orphan. */
  lemma CutAbandonsKey(h: History, op: Op, h': History, t: TaskId)
    requires Tiled(h) && Apart(h) && Step(h, op, h') && Steals(op) && t in h'.s.tasks
    ensures op.choice.victim in h.s.tasks && KeyOf(h'.s.tasks[t]) != KeyOf(h.s.tasks[op.choice.victim])
  {
    StepShape(h, op, h'.s);
    assert KnownTask(h, op.choice.victim);
    if t == op.choice.victim || t == op.choice.newId {
      CutRenames(h.s, op, h'.s, t);
    } else {
      KeysDiffer(h, t, op.choice.victim);
    }
  }

  lemma CutRenames(s: State, op: Op, s': State, t: TaskId)
    requires Stolen(s, op, s') && (t == op.choice.victim || t == op.choice.newId)
    requires CleanTask(s.tasks[op.choice.victim]) && LeaseOrder(s.tasks[op.choice.victim])
    ensures KeyOf(s'.tasks[t]) != KeyOf(s.tasks[op.choice.victim])
  {
    OtherKey(s.tasks[op.choice.victim], s'.tasks[t]);
  }

  lemma OtherKey(k: Task, l: Task)
    requires l.jobId == k.jobId && l.shard == k.shard && CleanTask(k) && LeaseOrder(k) && LeaseOrder(l)
    requires k.SizeKnown() && l.SizeKnown() && l.split && (l.rangeStart != k.rangeStart || l.rangeEnd != k.rangeEnd)
    ensures KeyOf(k) != KeyOf(l)
  {
    KeysAreInjective(k.jobId.text, k.shard, RangeOf(k), l.jobId.text, l.shard, RangeOf(l));
  }

  lemma StealTaints(w: World, op: Op, w': World, t: TaskId)
    requires Inv(w) && HandStep(w, op, w') && t in w.e && t in w'.e && !w.e[t].tainted
    ensures w'.e[t].tainted <==> Steals(op) && t == op.choice.victim && w.e[t].touched
    ensures w'.e[t].tainted && HasResult(w.e[t]) ==> w.e[t].short
  {
    assert w'.e[t] == HandedEntry(w, op, w'.h.s, t);
    if Steals(op) && t == op.choice.victim {
      StepShape(w.h, op, w'.h.s);
      assert TaskOk(w.h.s.tasks[t], w.e[t]);
      ShrunkOk(w.h.s.tasks[t], w.e[t]);
    }
  }
}
