/** One task seen from both sides: the scheduler's record and the worker attempt
    and result reports that concern it (internal/worker/worker.go, runAlgorithm,
    and the phases of internal/scheduler/scheduler.go, ReportResult). Every act of
    a worker or a report is a small step here; what they all keep is TaskOk. */
module Attempts {
  import opened Util
  import opened Tasks
  import opened SchedulerSpec
  import opened SchedulerRuns
  import opened Keys

  /** Fresh: assigned, not started. Looping: in the lease loop. Finished: will
      report success. Reported: has reported success, and may do so again. Errored:
      will report an error. ErrorSent: that report is on its way. Stopped: the
      worker no longer acts on the task. */
  datatype Phase = Fresh | Looping | Finished | Reported | Errored | ErrorSent | Stopped

  /** The variables of the lease loop: the next item i, the leased bound, the end
      the worker knows, the lease generation it last saw. */
  datatype Attempt = Attempt(start: int, end: int, i: int, bound: int, gen: int, phase: Phase)

  /** How far ReportResult has got with a report. */
  datatype Stage = Sent | Checked | Copied | Decided | Applied

  /** The interval behind a result: [lo, hi), whether it stops short of the range its
      task had, and the task's generation when the result was sent. */
  datatype Span = Span(lo: int, hi: int, short: bool, made: int)

  datatype Report = Report(failed: bool, hasKey: bool, span: Span, stage: Stage, rng: Range, gen: int)

  datatype Commit = Commit(span: Span, hasKey: bool, rng: Range, gen: int)

  /** What surrounds a task: the number n of items every listing of its shard
      shows, the current attempt, the reports on their way, of this attempt and of
      earlier ones, the interval behind the result that settled it last; `short` tells that the
      finished attempt left its loop on a failed renewal with items of the range
      still ahead; `touched` that a success report has passed validation; `tainted`
      that the task lost its tail to a thief after that. */
  datatype Entry = Entry(
    n: nat,
    attempt: Option<Attempt>,
    reports: seq<Report>,
    commit: Option<Commit>,
    short: bool,
    touched: bool,
    tainted: bool)

  function NewEntry(n: nat): Entry { Entry(n, None, [], None, false, false, false) }

  /** The attempt a worker starts from an assignment of task k. */
  function NewAttempt(k: Task, n: nat): Attempt {
    var end := if 0 <= k.rangeEnd < n then k.rangeEnd else n;
    Attempt(k.rangeStart, end, k.rangeStart, k.granted, k.generation, Fresh)
  }

  /******* What holds of a task and its surroundings *******/

  /** In flight, or done while a worker may still be at it. */
  predicate Live(k: Task) { k.InFlight() || k.status.TaskDone? }

  /** hi is the end of the owned range, or of the shard while the size is unknown. */
  predicate Complete(k: Task, hi: int, n: nat) {
    hi == if k.SizeKnown() then k.rangeEnd else n
  }

  /** The lease loop's invariant: the worker never reaches past what the scheduler
      granted, and knows an end no smaller than the range's. */
  predicate Holds(k: Task, a: Attempt, n: nat) {
    && a.bound == k.granted && a.start <= a.i <= a.bound && k.frontier <= a.i
    && a.i <= a.end <= n
    && (if k.SizeKnown() then k.rangeEnd <= a.end else a.end == n)
  }

  predicate ResultOk(k: Task, short: bool, lo: int, hi: int, n: nat) {
    && lo == k.rangeStart <= hi <= k.granted && hi <= n
    && (short <==> !Complete(k, hi, n))
  }

  /** A result, however late: while its task has not been cut since it was sent it
      is short exactly when it misses the end of the range, and a complete one
      reaches past the range of a task that has. */
  predicate Fits(k: Task, n: nat, p: Span) {
    && p.lo == k.rangeStart <= p.hi <= n && p.made <= k.generation
    && (p.made == k.generation ==> (k.SizeKnown() ==> p.hi <= k.rangeEnd) && (p.short <==> !Complete(k, p.hi, n)))
    && (p.made < k.generation && !p.short ==> k.SizeKnown() && k.rangeEnd < p.hi)
  }

  predicate AllFit(k: Task, n: nat, reports: seq<Report>) {
    forall j :: 0 <= j < |reports| && !reports[j].failed ==> Fits(k, n, reports[j].span)
  }

  /** At most one error report is on its way. */
  predicate OneError(reports: seq<Report>, allowed: bool) {
    && (forall j :: 0 <= j < |reports| && reports[j].failed ==> allowed)
    && (forall i, j :: 0 <= i < j < |reports| ==> !(reports[i].failed && reports[j].failed))
  }

  predicate HasError(reports: seq<Report>) {
    exists j :: 0 <= j < |reports| && reports[j].failed
  }

  predicate AttemptOk(k: Task, e: Entry, a: Attempt) {
    match a.phase
    case Fresh => Holds(k, a, e.n) && !e.short
    case Looping => Holds(k, a, e.n) && !e.short
    case Finished => ResultOk(k, e.short, a.start, a.i, e.n)
    case Reported => ResultOk(k, e.short, a.start, a.i, e.n)
    case _ => true
  }

  predicate LeaseOk(k: Task, n: nat) {
    LeaseOrder(k) && RangeShape(k) && WithinEnd(k) && (k.SizeKnown() ==> k.rangeEnd <= n)
  }

  predicate ReportsOk(k: Task, e: Entry) {
    && AllFit(k, e.n, e.reports)
    && OneError(e.reports, Live(k) && Running(e, ErrorSent))
    && (k.InFlight() && Running(e, ErrorSent) ==> HasError(e.reports))
  }

  /** A done task has a committed result; so has one that a late start has reopened. */
  predicate CommitFits(k: Task, e: Entry) {
    && (k.status.TaskDone? ==> e.commit.Some?)
    && (e.commit.Some? ==> Fits(k, e.n, e.commit.value.span))
  }

  /** An in-flight task has an attempt in agreement with its lease; one that is
      queued or failed has none that acts. */
  predicate WorkOk(k: Task, e: Entry) {
    && (k.InFlight() ==> e.attempt.Some?)
    && (k.status.TaskPending? ==> k.frontier == k.granted == k.rangeStart)
    && (e.attempt.Some? ==> e.attempt.value.start == k.rangeStart)
    && (e.attempt.Some? && Live(k) ==> AttemptOk(k, e, e.attempt.value))
    && (e.attempt.Some? && !Live(k) ==> Running(e, ErrorSent) || Running(e, Stopped))
  }

  predicate TaskOk(k: Task, e: Entry) {
    LeaseOk(k, e.n) && ReportsOk(k, e) && CommitFits(k, e) && WorkOk(k, e)
  }

  /******* Acts *******/

  datatype Act =
    | Begin                          // StartTask, then the loop is entered; it reopens a done task
    | BeginUnseen                    // the start call fails, which the worker ignores
    | Work                           // item i is processed (or skipped on a read error)
    | RenewOk                        // the bound is reached and renewed
    | RenewLost                      // the renewal call fails: the loop is left
    | RenewUnheard                   // it is made, and its answer lost: the loop is left
    | Leave                          // i reached the end
    | Break                          // listing or staging failed
    | Die                            // the worker stops; its success reports may outlive it
    | SendOk(hasKey: bool)           // a success report goes out (again)
    | SendErr
    | Check(j: nat)                  // ReportResult, first locked section
    | Copy(j: nat)
    | Decide(j: nat)
    | Effect(j: nat)
    | End(j: nat, w: WorkerId)       // ReportResult, last locked section
    | Drop(j: nat)                   // the report is lost, or its call returned an error

  predicate Running(e: Entry, p: Phase) { e.attempt.Some? && e.attempt.value.phase == p }

  /** The attempt is over and has, or has sent, a result. */
  predicate HasResult(e: Entry) { Running(e, Finished) || Running(e, Reported) }

  predicate AtBound(e: Entry) {
    Running(e, Looping) && e.attempt.value.bound <= e.attempt.value.i < e.attempt.value.end
  }

  predicate At(e: Entry, j: nat, stage: Stage) { j < |e.reports| && e.reports[j].stage == stage }

  predicate Enabled(k: Task, e: Entry, act: Act) {
    match act
    case Begin => Live(k) && Running(e, Fresh)
    case BeginUnseen => Live(k) && Running(e, Fresh)
    case Work => Live(k) && Running(e, Looping) && e.attempt.value.i < Min(e.attempt.value.end, e.attempt.value.bound)
    case RenewOk => Live(k) && AtBound(e)
    case RenewLost => Live(k) && AtBound(e)
    case RenewUnheard => Live(k) && AtBound(e)
    case Leave => Live(k) && Running(e, Looping) && e.attempt.value.i >= e.attempt.value.end
    case Break => Live(k) && (Running(e, Looping) || Running(e, Finished))
    case Die => Live(k) && e.attempt.Some? && !Running(e, ErrorSent)
    case SendOk(_) => Live(k) && HasResult(e)
    case SendErr => Live(k) && Running(e, Errored)
    case Check(j) => At(e, j, Sent)
    case Copy(j) => At(e, j, Checked)
    case Decide(j) => At(e, j, Copied)
    case Effect(j) => At(e, j, Decided)
    case End(j, _) => At(e, j, Applied)
    case Drop(j) => j < |e.reports|
  }

  function Without<T>(s: seq<T>, j: nat): seq<T>
    requires j < |s|
  {
    s[..j] + s[j + 1..]
  }

  function InPhase(e: Entry, p: Phase): Entry
    requires e.attempt.Some?
  {
    e.(attempt := Some(e.attempt.value.(phase := p)))
  }

  function AtStage(e: Entry, j: nat, stage: Stage): Entry
    requires j < |e.reports|
  {
    e.(reports := e.reports[j := e.reports[j].(stage := stage)])
  }

  /** A report that has just been sent by attempt a. */
  function NewReport(k: Task, e: Entry, failed: bool, hasKey: bool): Report
    requires e.attempt.Some?
  {
    var a := e.attempt.value;
    Report(failed, hasKey, Span(a.start, a.i, e.short, k.generation), Sent, Range(0, 0, false), 0)
  }

  /** The task after a failed report's last phase. */
  function Retried(k: Task, w: WorkerId): Task {
    if k.retries < k.maxRetries then RequeuedTask(k) else k.(status := TaskFailed, workerId := w)
  }

  function TaskAfter(k: Task, e: Entry, act: Act, chunk: int): Task
    requires Enabled(k, e, act)
  {
    match act
    case Begin => k.(status := TaskRunning)
    case RenewOk => Renewed(k, e.attempt.value.i, e.n, chunk)
    case RenewUnheard => Renewed(k, e.attempt.value.i, e.n, chunk)
    case End(j, w) =>
      if k.status.TaskDone? then k
      else if e.reports[j].failed then Retried(k, w)
      else k.(status := TaskDone, workerId := w)
    case _ => k
  }

  function EntryAfter(k: Task, e: Entry, act: Act, chunk: int): Entry
    requires Enabled(k, e, act)
  {
    match act
    case Begin => InPhase(e, Looping)
    case BeginUnseen => InPhase(e, Looping)
    case Work => e.(attempt := Some(e.attempt.value.(i := e.attempt.value.i + 1)))
    case RenewOk =>
      var k', a := TaskAfter(k, e, act, chunk), e.attempt.value;
      var phase := if k'.granted <= a.i then Finished else Looping;
      e.(attempt := Some(a.(gen := k'.generation, bound := k'.granted, phase := phase)))
    case RenewLost => InPhase(e, Finished).(short := !Complete(k, e.attempt.value.i, e.n))
    case RenewUnheard => InPhase(e, Finished).(short := !Complete(TaskAfter(k, e, act, chunk), e.attempt.value.i, e.n))
    case Leave => InPhase(e, Finished)
    case Break => InPhase(e, Errored)
    case Die => InPhase(e, Stopped)
    case SendOk(hasKey) => InPhase(e, Reported).(reports := e.reports + [NewReport(k, e, false, hasKey)])
    case SendErr => InPhase(e, ErrorSent).(reports := e.reports + [NewReport(k, e, true, false)])
    case Check(j) =>
      if k.status.TaskDone? then e.(reports := Without(e.reports, j))
      else
        var r := e.reports[j].(stage := Checked, rng := Range(k.rangeStart, k.rangeEnd, k.split), gen := k.generation);
        e.(reports := e.reports[j := r], touched := e.touched || !r.failed)
    case Copy(j) => AtStage(e, j, Copied)
    case Decide(j) => AtStage(e, j, Decided)
    case Effect(j) => AtStage(e, j, Applied)
    case End(j, _) =>
      var r, rest := e.reports[j], e.(reports := Without(e.reports, j));
      if k.status.TaskDone? || r.failed then rest
      else rest.(commit := Some(Commit(r.span, r.hasKey, r.rng, r.gen)))
    case Drop(j) =>
      var rest := e.(reports := Without(e.reports, j));
      if e.reports[j].failed && e.attempt.Some? then InPhase(rest, Stopped) else rest
  }

  /** What a report carries from its sending to what it settles: the interval its attempt
      went through, the generation its task had, whether it names an output, and the range
      and generation its validation found. */
  lemma ReportLaw(k: Task, e: Entry, act: Act, chunk: int)
    requires Enabled(k, e, act)
    ensures act.SendOk? ==>
              var a, e' := e.attempt.value, EntryAfter(k, e, act, chunk);
              e'.reports == e.reports
                + [Report(false, act.hasKey, Span(a.start, a.i, e.short, k.generation), Sent, e'.reports[|e.reports|].rng, e'.reports[|e.reports|].gen)]
    ensures act.Check? && !k.status.TaskDone? ==>
              var r, r' := e.reports[act.j], EntryAfter(k, e, act, chunk).reports[act.j];
              r' == Report(r.failed, r.hasKey, r.span, Checked, Range(k.rangeStart, k.rangeEnd, k.split), k.generation)
    ensures act.End? && !k.status.TaskDone? && !e.reports[act.j].failed ==>
              var r := e.reports[act.j];
              && EntryAfter(k, e, act, chunk).commit == Some(Commit(r.span, r.hasKey, r.rng, r.gen))
              && TaskAfter(k, e, act, chunk) == k.(status := TaskDone, workerId := act.w)
    ensures act.End? && k.status.TaskDone? ==>
              EntryAfter(k, e, act, chunk).commit == e.commit && TaskAfter(k, e, act, chunk) == k
  {
  }

  /******* Every act keeps them *******/

  /** A renewal at the bound: the lease grows inside the range, and a bound that
      does not move means the whole range is spent. */
  lemma RenewalKeepsHold(k: Task, a: Attempt, n: nat, chunk: int)
    requires LeaseOk(k, n) && Holds(k, a, n) && a.bound <= a.i < a.end && chunk > 0
    ensures var k' := Renewed(k, a.i, n, chunk);
            && LeaseOk(k', n) && k'.SizeKnown()
            && k'.rangeStart == k.rangeStart && k'.status == k.status && k'.frontier == a.i
            && (k.SizeKnown() ==> k'.rangeEnd == k.rangeEnd) && (!k.SizeKnown() ==> k'.rangeEnd == n)
            && Holds(k', a.(bound := k'.granted, gen := k'.generation), n)
            && (k'.granted <= a.i ==> a.i == k'.rangeEnd)
  {
  }

  /** The task keeps its range, or learns a size that is the listing's. */
  predicate SameRange(k: Task, k': Task, n: nat) {
    && k'.rangeStart == k.rangeStart && k'.generation == k.generation
    && (k'.rangeEnd == k.rangeEnd || (!k.SizeKnown() && k'.rangeEnd == n))
  }

  lemma StillFits(k: Task, k': Task, n: nat, p: Span)
    requires Fits(k, n, p) && SameRange(k, k', n)
    ensures Fits(k', n, p)
  {
  }

  lemma AllStillFit(k: Task, k': Task, n: nat, reports: seq<Report>)
    requires AllFit(k, n, reports) && SameRange(k, k', n)
    ensures AllFit(k', n, reports)
  {
    forall j | 0 <= j < |reports| && !reports[j].failed ensures Fits(k', n, reports[j].span) {
      StillFits(k, k', n, reports[j].span);
    }
  }

  /** A cut makes every complete result on its way reach past the range. */
  lemma CutFits(k: Task, n: nat, p: Span)
    requires Fits(k, n, p) && k.SizeKnown() && SplitPoint(k) < k.rangeEnd && 0 <= SplitPoint(k)
    ensures Fits(Shrunk(k), n, p)
  {
  }

  predicate Renews(act: Act) { act.RenewOk? || act.RenewUnheard? }

  lemma RenewKeepsOk(k: Task, e: Entry, act: Act, chunk: int)
    requires TaskOk(k, e) && Enabled(k, e, act) && chunk > 0 && Renews(act)
    ensures TaskOk(TaskAfter(k, e, act, chunk), EntryAfter(k, e, act, chunk))
  {
    var k' := TaskAfter(k, e, act, chunk);
    RenewalKeepsHold(k, e.attempt.value, e.n, chunk);
    AllStillFit(k, k', e.n, e.reports);
    if e.commit.Some? { StillFits(k, k', e.n, e.commit.value.span); }
  }

  predicate Sends(act: Act) { act.SendOk? || act.SendErr? }

  /** What a worker sends is behind its attempt's own range. */
  lemma SendKeepsOk(k: Task, e: Entry, act: Act, chunk: int)
    requires TaskOk(k, e) && Enabled(k, e, act) && Sends(act)
    ensures TaskOk(k, EntryAfter(k, e, act, chunk))
  {
    var e' := EntryAfter(k, e, act, chunk);
    assert e'.reports[|e.reports|].failed == act.SendErr?;
  }

  predicate OfReport(act: Act) {
    act.Check? || act.Copy? || act.Decide? || act.Effect? || act.End? || act.Drop?
  }

  /** The turns of the loop and its ends. */
  lemma LoopKeepsOk(k: Task, e: Entry, act: Act, chunk: int)
    requires TaskOk(k, e) && Enabled(k, e, act) && !OfReport(act) && !Renews(act) && !Sends(act)
    ensures TaskOk(TaskAfter(k, e, act, chunk), EntryAfter(k, e, act, chunk))
  {
  }

  lemma WithoutFits(k: Task, n: nat, reports: seq<Report>, j: nat, allowed: bool)
    requires j < |reports| && AllFit(k, n, reports) && OneError(reports, allowed)
    ensures AllFit(k, n, Without(reports, j)) && OneError(Without(reports, j), allowed)
    ensures reports[j].failed ==> OneError(Without(reports, j), false)
    ensures !reports[j].failed && HasError(reports) ==> HasError(Without(reports, j))
  {
    if !reports[j].failed && HasError(reports) {
      var i :| 0 <= i < |reports| && reports[i].failed;
      assert Without(reports, j)[if i < j then i else i - 1].failed;
    }
  }

  /** A report that moves on without changing its outcome or its interval. */
  lemma StageKeepsOk(k: Task, e: Entry, j: nat, r: Report, touched: bool)
    requires TaskOk(k, e) && j < |e.reports|
    requires r.failed == e.reports[j].failed && r.span == e.reports[j].span
    ensures TaskOk(k, e.(reports := e.reports[j := r], touched := touched))
  {
    var reports' := e.reports[j := r];
    if HasError(e.reports) {
      var i :| 0 <= i < |e.reports| && e.reports[i].failed;
      assert reports'[i].failed;
    }
  }

  /** A report that is dropped; losing an error report, the worker has stopped. */
  lemma DropKeepsOk(k: Task, e: Entry, j: nat)
    requires TaskOk(k, e) && j < |e.reports|
    ensures TaskOk(k, EntryAfter(k, e, Drop(j), 1))
  {
    WithoutFits(k, e.n, e.reports, j, Live(k) && Running(e, ErrorSent));
  }

  /** A report for a task that is done changes nothing. */
  lemma IgnoreKeepsOk(k: Task, e: Entry, j: nat)
    requires TaskOk(k, e) && j < |e.reports| && k.status.TaskDone?
    ensures TaskOk(k, e.(reports := Without(e.reports, j)))
  {
    WithoutFits(k, e.n, e.reports, j, Live(k) && Running(e, ErrorSent));
  }

  /** The last phase of a success report, whenever it comes, settles the task. */
  lemma SuccessKeepsOk(k: Task, e: Entry, j: nat, w: WorkerId)
    requires TaskOk(k, e) && At(e, j, Applied) && !e.reports[j].failed && !k.status.TaskDone?
    ensures TaskOk(TaskAfter(k, e, End(j, w), 1), EntryAfter(k, e, End(j, w), 1))
  {
    var k' := TaskAfter(k, e, End(j, w), 1);
    WithoutFits(k, e.n, e.reports, j, Live(k) && Running(e, ErrorSent));
    AllStillFit(k, k', e.n, Without(e.reports, j));
    StillFits(k, k', e.n, e.reports[j].span);
  }

  lemma FailureKeepsOk(k: Task, e: Entry, j: nat, w: WorkerId)
    requires TaskOk(k, e) && At(e, j, Applied) && e.reports[j].failed && !k.status.TaskDone?
    ensures TaskOk(TaskAfter(k, e, End(j, w), 1), EntryAfter(k, e, End(j, w), 1))
  {
    var k' := TaskAfter(k, e, End(j, w), 1);
    WithoutFits(k, e.n, e.reports, j, Live(k) && Running(e, ErrorSent));
    AllStillFit(k, k', e.n, Without(e.reports, j));
  }

  lemma EndKeepsOk(k: Task, e: Entry, j: nat, w: WorkerId)
    requires TaskOk(k, e) && At(e, j, Applied)
    ensures TaskOk(TaskAfter(k, e, End(j, w), 1), EntryAfter(k, e, End(j, w), 1))
  {
    if k.status.TaskDone? {
      IgnoreKeepsOk(k, e, j);
    } else if e.reports[j].failed {
      FailureKeepsOk(k, e, j, w);
    } else {
      SuccessKeepsOk(k, e, j, w);
    }
  }

  lemma ReportActKeepsOk(k: Task, e: Entry, act: Act, chunk: int)
    requires TaskOk(k, e) && Enabled(k, e, act) && OfReport(act)
    ensures TaskOk(TaskAfter(k, e, act, chunk), EntryAfter(k, e, act, chunk))
  {
    if act.End? {
      EndKeepsOk(k, e, act.j, act.w);
    } else if act.Drop? {
      DropKeepsOk(k, e, act.j);
    } else if act.Check? && k.status.TaskDone? {
      IgnoreKeepsOk(k, e, act.j);
    } else {
      var e' := EntryAfter(k, e, act, chunk);
      StageKeepsOk(k, e, act.j, e'.reports[act.j], e'.touched);
    }
  }

  /** Every act of a worker or a report keeps TaskOk. */
  lemma ActKeepsOk(k: Task, e: Entry, act: Act, chunk: int)
    requires TaskOk(k, e) && Enabled(k, e, act) && chunk > 0
    ensures TaskOk(TaskAfter(k, e, act, chunk), EntryAfter(k, e, act, chunk))
  {
    if OfReport(act) {
      ReportActKeepsOk(k, e, act, chunk);
    } else if Renews(act) {
      RenewKeepsOk(k, e, act, chunk);
    } else if Sends(act) {
      SendKeepsOk(k, e, act, chunk);
    } else {
      LoopKeepsOk(k, e, act, chunk);
    }
  }

  /** Handing out a pending task starts a fresh attempt, whatever of earlier ones is
      still on its way. */
  lemma HandoutOk(k: Task, e: Entry, w: WorkerId, chunk: int)
    requires TaskOk(k, e) && k.status.TaskPending? && chunk > 0
    ensures var k' := Grant(k.(status := TaskAssigned, workerId := w), chunk);
            TaskOk(k', e.(attempt := Some(NewAttempt(k', e.n)), short := false))
  {
    AllStillFit(k, Grant(k.(status := TaskAssigned, workerId := w), chunk), e.n, e.reports);
  }

  /** Only a task with items left un-granted can lose its tail, and then a finished
      attempt on it is one that broke off early. */
  lemma ShrunkOk(k: Task, e: Entry)
    requires TaskOk(k, e) && k.InFlight() && k.SizeKnown() && k.granted < SplitPoint(k) < k.rangeEnd
    ensures TaskOk(Shrunk(k), e.(tainted := e.tainted || e.touched))
    ensures HasResult(e) ==> e.short
  {
    forall j | 0 <= j < |e.reports| && !e.reports[j].failed ensures Fits(Shrunk(k), e.n, e.reports[j].span) {
      CutFits(k, e.n, e.reports[j].span);
    }
  }

  /** A rebalance agrees with what is known of a task in flight if and only if its
      worker has stopped: no attempt goes on and no error report is still out. */
  lemma ReclaimOk(k: Task, e: Entry)
    requires TaskOk(k, e) && k.InFlight()
    ensures TaskOk(if k.retries < k.maxRetries then RequeuedTask(k) else k.(status := TaskFailed), e) <==> Running(e, Stopped)
  {
    AllStillFit(k, RequeuedTask(k), e.n, e.reports);
    AllStillFit(k, k.(status := TaskFailed), e.n, e.reports);
  }

  /** A complete result, however late, covers exactly its task's range if and only if
      the task has not been cut since the result was sent. */
  lemma LateResultExact(k: Task, n: nat, p: Span)
    requires Fits(k, n, p) && !p.short
    ensures Complete(k, p.hi, n) <==> p.made == k.generation
  {
  }
}
