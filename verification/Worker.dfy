/** The worker's lease loop (internal/worker/worker.go, runAlgorithm). The store's
    and the coordinator's answers are functions of the offset they are asked at;
    the loop asks at most once per offset, so that is no restriction. */
module Worker {
  import opened Util
  import opened Tasks
  import opened SchedulerSpec
  import opened Attempts

  /** The loop's variables on entry, for a shard of n items. */
  function Entered(a: Assignment, n: nat): Attempt {
    var end := if 0 <= a.rangeEnd < n then a.rangeEnd else n;
    Attempt(a.rangeStart, end, a.rangeStart, a.bound, a.generation, Looping)
  }

  /** One turn: an item below the leased bound is processed, or the bound is reached
      and renewed, or the loop is left. */
  predicate LoopStep(x: Attempt, renew: int -> Option<Renewal>, y: Attempt) {
    && x.phase.Looping?
    && if x.i >= x.end then y == x.(phase := Finished)
       else if x.i < x.bound then y == x.(i := x.i + 1)
       else match renew(x.i)
            case None => y == x.(phase := Finished)
            case Some(r) =>
              y == x.(gen := r.generation, bound := r.bound, phase := if r.bound <= x.i then Finished else Looping)
  }

  /** How the loop ends from x: at the end of the range, or where a renewal failed
      or did not move the bound past the worker; everything before was processed. */
  function Final(x: Attempt, renew: int -> Option<Renewal>): (r: Attempt)
    ensures r.phase.Finished? && r.start == x.start && r.end == x.end
    ensures x.i <= r.i <= Max(x.i, x.end)
    ensures r.i >= r.end || (match renew(r.i) case None => true case Some(answer) => answer.bound <= r.i)
    decreases Max(x.end - x.i, 0), if x.i >= x.bound then 1 else 0
  {
    if x.i >= x.end then x.(phase := Finished)
    else if x.i < x.bound then Final(x.(i := x.i + 1), renew)
    else match renew(x.i)
         case None => x.(phase := Finished)
         case Some(r) =>
           var y := x.(gen := r.generation, bound := r.bound);
           if r.bound <= x.i then y.(phase := Finished) else Final(y, renew)
  }

  predicate Trace(trace: seq<Attempt>, renew: int -> Option<Renewal>) {
    |trace| > 0 && forall k :: 0 <= k < |trace| - 1 ==> LoopStep(trace[k], renew, trace[k + 1])
  }

  /** The bytes of the items read in [lo, hi); an item that cannot be read counts
      nothing. */
  function BytesRead(get: int -> Option<nat>, lo: int, hi: int): nat
    decreases hi - lo
  {
    if hi <= lo then 0 else BytesRead(get, lo, hi - 1) + match get(hi - 1) case None => 0 case Some(size) => size
  }

  /** The loop has come from x0 to x, turn by turn. */
  predicate Reached(trace: seq<Attempt>, renew: int -> Option<Renewal>, x0: Attempt, x: Attempt) {
    Trace(trace, renew) && trace[0] == x0 && trace[|trace| - 1] == x
  }

  lemma Turn(trace: seq<Attempt>, renew: int -> Option<Renewal>, x0: Attempt, x: Attempt, y: Attempt)
    requires Reached(trace, renew, x0, x) && LoopStep(x, renew, y)
    ensures Reached(trace + [y], renew, x0, y)
  {
  }

  /** A finished trace has ended where its first state ends. */
  lemma {:induction false} TraceEnds(trace: seq<Attempt>, renew: int -> Option<Renewal>)
    requires Trace(trace, renew) && trace[0].phase.Looping? && trace[|trace| - 1].phase.Finished?
    ensures trace[|trace| - 1] == Final(trace[0], renew)
  {
    assert LoopStep(trace[0], renew, trace[1]);
    if |trace| > 2 {
      var rest := trace[1..];
      forall k | 0 <= k < |rest| - 1 ensures LoopStep(rest[k], renew, rest[k + 1]) {
        assert LoopStep(trace[k + 1], renew, trace[k + 1 + 1]);
      }
      assert LoopStep(trace[1], renew, trace[2]);
      TraceEnds(rest, renew);
    }
  }

  lemma OneMoreRead(get: int -> Option<nat>, lo: int, i: int)
    requires lo <= i
    ensures BytesRead(get, lo, i + 1) == BytesRead(get, lo, i) + match get(i) case None => 0 case Some(size) => size
  {
  }

  /** Runs the loop and reports how many items it went through and their bytes.
      Whatever the answers, it takes exactly the turns LoopStep allows. */
  method RunAlgorithm(a: Assignment, n: nat, renew: int -> Option<Renewal>, get: int -> Option<nat>)
    returns (processed: int, bytes: nat, ghost trace: seq<Attempt>)
    ensures Trace(trace, renew) && trace[0] == Entered(a, n) && trace[|trace| - 1] == Final(Entered(a, n), renew)
    ensures processed == Final(Entered(a, n), renew).i - a.rangeStart
    ensures bytes == BytesRead(get, a.rangeStart, Final(Entered(a, n), renew).i)
  {
    var start, end := a.rangeStart, n;
    if a.rangeEnd >= 0 && a.rangeEnd < end { end := a.rangeEnd; }
    var bound, gen := a.bound, a.generation;
    var i := start;
    bytes := 0;
    ghost var x0, x := Entered(a, n), Entered(a, n);
    trace := [x0];
    var over := false;
    while i < end && !over
      invariant start <= i && x == Attempt(start, end, i, bound, gen, if over then Finished else Looping)
      invariant Reached(trace, renew, x0, x)
      invariant bytes == BytesRead(get, start, i)
      decreases end - i, !over
    {
      if i >= bound {
        var answer := renew(i);
        if answer.Some? { gen, bound := answer.value.generation, answer.value.bound; }
        over := answer.None? || bound <= i;
        ghost var y := Attempt(start, end, i, bound, gen, if over then Finished else Looping);
        Turn(trace, renew, x0, x, y);
        x, trace := y, trace + [y];
      }
      if !over {
        var size := get(i);
        OneMoreRead(get, start, i);
        if size.Some? { bytes := bytes + size.value; }
        i := i + 1;
        ghost var y := Attempt(start, end, i, bound, gen, Looping);
        Turn(trace, renew, x0, x, y);
        x, trace := y, trace + [y];
      }
    }
    if !over {
      Turn(trace, renew, x0, x, x.(phase := Finished));
      trace := trace + [x.(phase := Finished)];
    }
    TraceEnds(trace, renew);
    processed := i - start;
  }

  /** The attempt the fleet starts from an assignment is the loop's entry state. */
  lemma EntersAsAssigned(k: Task, n: nat)
    ensures NewAttempt(k, n).(phase := Looping) == Entered(AssignmentFor(k), n)
    ensures var end := if k.SizeKnown() then Min(k.rangeEnd, n) else n;
            Entered(AssignmentFor(k), n) == Attempt(k.rangeStart, end, k.rangeStart, k.granted, k.generation, Looping)
  {
  }

  /** Every turn of the loop, when the coordinator answers as the scheduler renews,
      is an act of the fleet. */
  lemma TurnsAreActs(k: Task, e: Entry, renew: int -> Option<Renewal>, y: Attempt, chunk: int) returns (act: Act)
    requires Live(k) && Running(e, Looping) && LoopStep(e.attempt.value, renew, y)
    requires match renew(e.attempt.value.i)
             case None => true
             case Some(r) =>
               var k' := Renewed(k, e.attempt.value.i, e.n, chunk);
               r.generation == k'.generation && r.bound == k'.granted
    ensures act.Work? || act.RenewOk? || act.RenewLost? || act.Leave?
    ensures Enabled(k, e, act) && EntryAfter(k, e, act, chunk).attempt == Some(y)
  {
    var x := e.attempt.value;
    act := if x.i >= x.end then Leave
           else if x.i < x.bound then Work
           else if renew(x.i).None? then RenewLost
           else RenewOk;
  }

  /** Whatever it is answered, the worker goes through an item at a turn when its
      lease reaches past it and the item is below the end. */
  lemma {:induction false} NeverPastLease(trace: seq<Attempt>, renew: int -> Option<Renewal>, k: nat, x: int) returns (j: nat)
    requires Trace(trace, renew) && k < |trace| && trace[0].i == trace[0].start <= x < trace[k].i
    ensures j < k && trace[j].i == x && trace[j + 1].i == x + 1 && x < Min(trace[j].bound, trace[j].end)
  {
    assert k > 0 && LoopStep(trace[k - 1], renew, trace[k]);
    if x < trace[k - 1].i {
      j := NeverPastLease(trace, renew, k - 1, x);
    } else {
      j := k - 1;
    }
  }
}
