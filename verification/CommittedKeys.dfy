/** Which tasks the final objects and the claims belong to, told by the events that put
    them there: the copies and the effects of success reports, over every behaviour of
    the fleet (internal/scheduler/scheduler.go, ReportResult). */
module CommittedKeys {
  import opened Util
  import opened Tasks
  import opened SchedulerSpec
  import opened SchedulerRuns
  import opened JobBooks
  import opened Keys
  import opened FinalKeys
  import opened Attempts
  import opened Fleet
  import opened CommitProtocol
  import opened LateResults

  /******* The events *******/

  /** The report of the task the act is about. */
  predicate OfSuccess(w: World, t: TaskId, j: nat) {
    t in w.e && j < |w.e[t].reports| && !w.e[t].reports[j].failed
  }

  /** The output of a success report is copied: it names one and a committer is attached. */
  predicate Copies(w: World, ev: Event) {
    && ev.Local? && ev.act.Copy? && OfSuccess(w, ev.t, ev.act.j)
    && w.e[ev.t].reports[ev.act.j].hasKey && w.x.committer
  }

  /** The key of a success report is claimed: its effect runs, to its end or, in a
      report that is lost with it, up to the claim. */
  predicate Claims(w: World, ev: Event) {
    && ev.Local? && w.x.effect
    && match ev.act
       case Effect(j) => OfSuccess(w, ev.t, j)
       case Drop(j) => ev.lost && OfSuccess(w, ev.t, j) && w.e[ev.t].reports[j].stage.Decided?
       case _ => false
  }

  /** The tasks of which an output was copied before moment i. */
  function CopiedIds(ws: seq<World>, evs: seq<Event>, i: nat): set<TaskId>
    requires i <= |evs| && i <= |ws|
  {
    set m | 0 <= m < i && Copies(ws[m], evs[m]) :: evs[m].t
  }

  /** The tasks of which a key was claimed before moment i. */
  function ClaimedIds(ws: seq<World>, evs: seq<Event>, i: nat): set<TaskId>
    requires i <= |evs| && i <= |ws|
  {
    set m | 0 <= m < i && Claims(ws[m], evs[m]) :: evs[m].t
  }

  /******* Keys and the tasks they come from *******/

  /** A task one of whose keys was put there has its current one there, unless tainted. */
  predicate Delivered(k: Task, e: Entry, keys: set<string>) {
    e.touched && (!e.tainted ==> KeyOf(k) in keys)
  }

  ghost predicate AnswersOne(s: State, e: map<TaskId, Entry>, ids: set<TaskId>, key: string) {
    exists t :: t in ids && t in e && t in s.tasks && Answers(s.tasks[t], e[t], key)
  }

  ghost predicate Traced(s: State, e: map<TaskId, Entry>, ids: set<TaskId>, keys: set<string>) {
    && (forall t <- ids :: t in e && t in s.tasks && Delivered(s.tasks[t], e[t], keys))
    && (forall key <- keys :: AnswersOne(s, e, ids, key))
  }

  lemma HeldTraced(s: State, e: map<TaskId, Entry>, s': State, e': map<TaskId, Entry>, ids: set<TaskId>, keys: set<string>)
    requires AllHeld(s, e, s', e') && Traced(s, e, ids, keys)
    ensures Traced(s', e', ids, keys)
  {
    forall t <- ids ensures t in e' && t in s'.tasks && Delivered(s'.tasks[t], e'[t], keys) {
      assert KeyHeld(s.tasks[t], e[t], s'.tasks[t], e'[t]);
    }
    forall key <- keys ensures AnswersOne(s', e', ids, key) {
      var t :| t in ids && t in e && t in s.tasks && Answers(s.tasks[t], e[t], key);
      assert Answers(s'.tasks[t], e'[t], key);
    }
  }

  /** A key joins, and with it the task it comes from. */
  lemma JoinTraced(s: State, e: map<TaskId, Entry>, ids: set<TaskId>, keys: set<string>, t: TaskId, key: string)
    requires Traced(s, e, ids, keys) && t in e && t in s.tasks
    requires e[t].touched && (!e[t].tainted ==> key == KeyOf(s.tasks[t]))
    ensures Traced(s, e, ids + {t}, keys + {key})
  {
    forall other <- keys + {key} ensures AnswersOne(s, e, ids + {t}, other) {
      if other in keys {
        var u :| u in ids && u in e && u in s.tasks && Answers(s.tasks[u], e[u], other);
        assert u in ids + {t};
      } else {
        assert t in ids + {t} && Answers(s.tasks[t], e[t], other);
      }
    }
  }

  /** A report past its validation has the task's key, unless the task is tainted. */
  lemma CheckedKey(w: World, t: TaskId, j: nat)
    requires Orderly(w) && t in w.e && t in w.h.s.tasks && OfSuccess(w, t, j) && !w.e[t].reports[j].stage.Sent?
    ensures w.e[t].touched && (!w.e[t].tainted ==> KeyFor(w.h.s.tasks[t], w.e[t].reports[j].rng) == KeyOf(w.h.s.tasks[t]))
  {
    assert PapersOk(t, w.h.s.tasks[t], w.e[t], w.x);
    assert ReportOk(t, w.h.s.tasks[t], w.e[t], w.x, w.e[t].reports[j]);
  }

  /** Each of the two sets of keys with the tasks it comes from. */
  ghost predicate BothTraced(w: World, copied: set<TaskId>, claimed: set<TaskId>) {
    Traced(w.h.s, w.e, copied, w.x.objects) && Traced(w.h.s, w.e, claimed, w.x.claimed)
  }

  lemma ObjectsAfter(w: World, ev: Event, w': World)
    requires Move(w, ev, w') && (ev.Local? ==> ev.t in w.h.s.tasks)
    ensures if Copies(w, ev) then w'.x.objects == w.x.objects + {KeyFor(w.h.s.tasks[ev.t], w.e[ev.t].reports[ev.act.j].rng)}
            else w'.x.objects == w.x.objects
  {
  }

  lemma ClaimedAfter(w: World, ev: Event, w': World)
    requires Move(w, ev, w') && (ev.Local? ==> ev.t in w.h.s.tasks)
    ensures if Claims(w, ev) then w'.x.claimed == w.x.claimed + {KeyFor(w.h.s.tasks[ev.t], w.e[ev.t].reports[ev.act.j].rng)}
            else w'.x.claimed == w.x.claimed
  {
  }

  lemma MoveTouches(w: World, ev: Event, w': World)
    requires Move(w, ev, w') && ev.Local?
    ensures ev.t in w.e && ev.t in w.h.s.tasks && Enabled(w.h.s.tasks[ev.t], w.e[ev.t], ev.act)
  {
  }

  lemma CopyTraced(w: World, ev: Event, w': World, ids: set<TaskId>)
    requires Orderly(w) && Move(w, ev, w') && Traced(w.h.s, w.e, ids, w.x.objects)
    ensures Traced(w.h.s, w.e, ids + if Copies(w, ev) then {ev.t} else {}, w'.x.objects)
  {
    if ev.Local? { MoveTouches(w, ev, w'); }
    ObjectsAfter(w, ev, w');
    if Copies(w, ev) {
      CheckedKey(w, ev.t, ev.act.j);
      JoinTraced(w.h.s, w.e, ids, w.x.objects, ev.t, KeyFor(w.h.s.tasks[ev.t], w.e[ev.t].reports[ev.act.j].rng));
    } else {
      assert ids + {} == ids;
    }
  }

  lemma ClaimTraced(w: World, ev: Event, w': World, ids: set<TaskId>)
    requires Orderly(w) && Move(w, ev, w') && Traced(w.h.s, w.e, ids, w.x.claimed)
    ensures Traced(w.h.s, w.e, ids + if Claims(w, ev) then {ev.t} else {}, w'.x.claimed)
  {
    if ev.Local? { MoveTouches(w, ev, w'); }
    ClaimedAfter(w, ev, w');
    if Claims(w, ev) {
      CheckedKey(w, ev.t, ev.act.j);
      JoinTraced(w.h.s, w.e, ids, w.x.claimed, ev.t, KeyFor(w.h.s.tasks[ev.t], w.e[ev.t].reports[ev.act.j].rng));
    } else {
      assert ids + {} == ids;
    }
  }

  lemma LocalHeld(w: World, t: TaskId, act: Act, lost: bool, w': World)
    requires Inv(w) && LocalStep(w, t, act, lost, w')
    ensures AllHeld(w.h.s, w.e, w'.h.s, w'.e)
  {
    LocalTasks(w, t, act, lost, w');
    assert TaskOk(w.h.s.tasks[t], w.e[t]);
    ActHoldsKey(w.h.s.tasks[t], w.e[t], act, w.h.s.leaseChunk);
    HeldHere(w.h.s, w.e, w'.h.s, w'.e, t);
  }

  lemma MoveHeld(w: World, ev: Event, w': World)
    requires Inv(w) && Move(w, ev, w')
    ensures AllHeld(w.h.s, w.e, w'.h.s, w'.e)
  {
    match ev
    case Admin(op) =>
      StepQuiet(w.h, op, w'.h.s);
      AdminHeld(w, op, w');
    case Hand(op) => HandHeld(w, op, w');
    case Rebalance(op) => RebalanceHeld(w, op, w');
    case Local(t, act, lost) => LocalHeld(w, t, act, lost, w');
    case Restart(_) =>
  }

  lemma MoveTraces(w: World, ev: Event, w': World, copied: set<TaskId>, claimed: set<TaskId>)
    requires Inv(w) && Orderly(w) && Move(w, ev, w') && BothTraced(w, copied, claimed)
    ensures BothTraced(w', copied + if Copies(w, ev) then {ev.t} else {}, claimed + if Claims(w, ev) then {ev.t} else {})
  {
    CopyTraced(w, ev, w', copied);
    ClaimTraced(w, ev, w', claimed);
    MoveHeld(w, ev, w');
    HeldTraced(w.h.s, w.e, w'.h.s, w'.e, copied + if Copies(w, ev) then {ev.t} else {}, w'.x.objects);
    HeldTraced(w.h.s, w.e, w'.h.s, w'.e, claimed + if Claims(w, ev) then {ev.t} else {}, w'.x.claimed);
  }

  ghost predicate TracedAt(ws: seq<World>, evs: seq<Event>, i: nat)
    requires i <= |evs| && i < |ws|
  {
    BothTraced(ws[i], CopiedIds(ws, evs, i), ClaimedIds(ws, evs, i))
  }

  lemma IdsNext(ws: seq<World>, evs: seq<Event>, i: nat)
    requires i < |evs| && i < |ws|
    ensures CopiedIds(ws, evs, i + 1) == CopiedIds(ws, evs, i) + if Copies(ws[i], evs[i]) then {evs[i].t} else {}
    ensures ClaimedIds(ws, evs, i + 1) == ClaimedIds(ws, evs, i) + if Claims(ws[i], evs[i]) then {evs[i].t} else {}
  {
  }

  lemma TracedNext(ws: seq<World>, evs: seq<Event>, i: nat)
    requires i < |evs| && i + 1 < |ws| && Inv(ws[i]) && Orderly(ws[i]) && Move(ws[i], evs[i], ws[i + 1]) && TracedAt(ws, evs, i)
    ensures TracedAt(ws, evs, i + 1)
  {
    MoveTraces(ws[i], evs[i], ws[i + 1], CopiedIds(ws, evs, i), ClaimedIds(ws, evs, i));
    IdsNext(ws, evs, i);
  }

  lemma StartTraced(w: World)
    requires Start0(w)
    ensures BothTraced(w, {}, {})
  {
  }

  lemma BehaviourMoves(ws: seq<World>, evs: seq<Event>, i: nat)
    requires Behaviour(ws, evs) && i < |evs|
    ensures |ws| == |evs| + 1 && Move(ws[i], evs[i], ws[i + 1]) && Inv(ws[i]) && Orderly(ws[i])
  {
    BehavioursKeepInv(ws, evs, i);
    BehavioursKeepOrder(ws, evs, i);
  }

  lemma BehaviourTracesNext(ws: seq<World>, evs: seq<Event>, i: nat)
    requires Behaviour(ws, evs) && i + 1 < |ws| && TracedAt(ws, evs, i)
    ensures TracedAt(ws, evs, i + 1)
  {
    BehaviourMoves(ws, evs, i);
    TracedNext(ws, evs, i);
  }

  lemma BehaviourStarts(ws: seq<World>, evs: seq<Event>)
    requires Behaviour(ws, evs)
    ensures |ws| == |evs| + 1 && TracedAt(ws, evs, 0)
  {
    StartTraced(ws[0]);
  }

  lemma {:induction false} BehavioursTrace(ws: seq<World>, evs: seq<Event>, i: nat)
    requires Behaviour(ws, evs) && i < |ws|
    ensures TracedAt(ws, evs, i)
  {
    if i == 0 {
      BehaviourStarts(ws, evs);
    } else {
      BehavioursTrace(ws, evs, i - 1);
      BehaviourTracesNext(ws, evs, i - 1);
    }
  }

  /******* The exact condition *******/

  lemma TracedKey(w: World, ids: set<TaskId>, keys: set<string>, t: TaskId)
    requires Tiled(w.h) && Apart(w.h) && NoneTainted(w) && Traced(w.h.s, w.e, ids, keys) && t in w.h.s.tasks
    ensures KeyOf(w.h.s.tasks[t]) in keys <==> t in ids
  {
    if KeyOf(w.h.s.tasks[t]) in keys {
      assert AnswersOne(w.h.s, w.e, ids, KeyOf(w.h.s.tasks[t]));
      var u :| u in ids && u in w.e && u in w.h.s.tasks && Answers(w.h.s.tasks[u], w.e[u], KeyOf(w.h.s.tasks[t]));
      if u != t { KeysDiffer(w.h, t, u); }
    }
  }

  lemma TracedAccounted(w: World, ids: set<TaskId>, keys: set<string>, key: string)
    requires Traced(w.h.s, w.e, ids, keys) && key in keys
    ensures Accounted(w.h.s, w.e, key)
  {
    assert AnswersOne(w.h.s, w.e, ids, key);
    var t :| t in ids && t in w.e && t in w.h.s.tasks && Answers(w.h.s.tasks[t], w.e[t], key);
  }

  lemma OnlyDoneIds(w: World, ids: set<TaskId>, keys: set<string>)
    requires ids <= w.h.s.tasks.Keys && forall t <- w.h.s.tasks :: KeyOf(w.h.s.tasks[t]) in keys <==> t in ids
    ensures OnlyDone(w, keys) <==> ids == DoneIds(w)
  {
  }

  lemma TracedExactly(w: World, ids: set<TaskId>, keys: set<string>)
    requires Inv(w) && Apart(w.h) && NoneTainted(w) && Traced(w.h.s, w.e, ids, keys)
    ensures forall t <- w.h.s.tasks :: KeyOf(w.h.s.tasks[t]) in keys <==> t in ids
    ensures DoneKeys(w, keys) <==> ids == DoneIds(w)
  {
    forall t <- w.h.s.tasks ensures KeyOf(w.h.s.tasks[t]) in keys <==> t in ids { TracedKey(w, ids, keys, t); }
    forall key <- keys ensures Accounted(w.h.s, w.e, key) { TracedAccounted(w, ids, keys, key); }
    KeysExactly(w, keys);
    OnlyDoneIds(w, ids, keys);
  }

  /** Without a task cut after validation, the final objects belong to exactly the tasks
      of which a success report naming an output was copied, so they are one for each
      done task if and only if those are the done tasks. */
  lemma ObjectsExactly(ws: seq<World>, evs: seq<Event>, i: nat)
    requires Behaviour(ws, evs) && i < |ws| && (forall k :: 0 <= k < i ==> TidyEvent(evs[k])) && NoneTainted(ws[i])
    ensures forall t <- ws[i].h.s.tasks :: KeyOf(ws[i].h.s.tasks[t]) in ws[i].x.objects <==> t in CopiedIds(ws, evs, i)
    ensures DoneKeys(ws[i], ws[i].x.objects) <==> CopiedIds(ws, evs, i) == DoneIds(ws[i])
  {
    BehavioursKeepInv(ws, evs, i);
    BehavioursKeepApart(ws, evs, i);
    BehavioursTrace(ws, evs, i);
    TracedExactly(ws[i], CopiedIds(ws, evs, i), ws[i].x.objects);
  }

  /** And the claims belong to exactly the tasks of which a success report had its effect
      run, or lost its event half-way. */
  lemma ClaimsExactly(ws: seq<World>, evs: seq<Event>, i: nat)
    requires Behaviour(ws, evs) && i < |ws| && (forall k :: 0 <= k < i ==> TidyEvent(evs[k])) && NoneTainted(ws[i])
    ensures forall t <- ws[i].h.s.tasks :: KeyOf(ws[i].h.s.tasks[t]) in ws[i].x.claimed <==> t in ClaimedIds(ws, evs, i)
    ensures DoneKeys(ws[i], ws[i].x.claimed) <==> ClaimedIds(ws, evs, i) == DoneIds(ws[i])
  {
    BehavioursKeepInv(ws, evs, i);
    BehavioursKeepApart(ws, evs, i);
    BehavioursTrace(ws, evs, i);
    TracedExactly(ws[i], ClaimedIds(ws, evs, i), ws[i].x.claimed);
  }

  /******* A failed task that owns an object *******/

  /** A validated report is copied and then lost. */
  lemma CopiedAndLost(w: World, t: TaskId) returns (w': World)
    requires Reachable(w) && t in w.e && t in w.h.s.tasks && !w.h.s.tasks[t].status.TaskDone? && w.x.committer
    requires |w.e[t].reports| == 1 && OfSuccess(w, t, 0) && At(w.e[t], 0, Sent) && w.e[t].reports[0].hasKey
    ensures Reachable(w') && OnlyAt(w, t, w') && w'.h.s.tasks[t] == w.h.s.tasks[t]
    ensures w'.e[t].attempt == w.e[t].attempt && w'.e[t].tainted == w.e[t].tainted && KeyOf(w.h.s.tasks[t]) in w'.x.objects
  {
    var a := Act1(w, t, Check(0));
    var b := Act1(a, t, Copy(0));
    OnlyAtTwice(w, t, a, b);
    w' := Act1(b, t, Drop(0));
    OnlyAtTwice(w, t, b, w');
  }

  /** A task without retries is run to its end and reports. */
  lemma Reporting(j: JobId, shard: Shard, t: TaskId, worker: WorkerId) returns (w: World)
    ensures Reachable(w) && Alone(w, t, []) && w.x.committer && Running(w.e[t], Reported) && !w.e[t].tainted
    ensures w.h.s.tasks[t].InFlight() && w.h.s.tasks[t].retries == w.h.s.tasks[t].maxRetries == 0
    ensures |w.e[t].reports| == 1 && OfSuccess(w, t, 0) && At(w.e[t], 0, Sent) && w.e[t].reports[0].hasKey
  {
    var a := Submission(j, shard, t, 0);
    var b := TakeAlone(a, t, worker);
    w := RunAndSend(b, t);
    StillAlone(b, t, [], w);
  }

  /** Its output is copied, its report lost, and its worker gone. */
  lemma CopiedThenDead(j: JobId, shard: Shard, t: TaskId, worker: WorkerId) returns (w: World)
    ensures Reachable(w) && Alone(w, t, []) && Running(w.e[t], Stopped) && !w.e[t].tainted
    ensures w.h.s.tasks[t].InFlight() && w.h.s.tasks[t].retries == w.h.s.tasks[t].maxRetries == 0
    ensures KeyOf(w.h.s.tasks[t]) in w.x.objects
  {
    var a := Reporting(j, shard, t, worker);
    var b := CopiedAndLost(a, t);
    StillAlone(a, t, [], b);
    w := Act1(b, t, Die);
    StillAlone(b, t, [], w);
  }

  /** A behaviour that ends with the only task failed and its output among the objects:
      its success report is copied and then lost, the worker is gone, and the rebalance
      finds no retry left. */
  lemma FailedTaskOwnsObject(j: JobId, shard: Shard, t: TaskId, worker: WorkerId) returns (w: World)
    ensures Reachable(w) && w.e.Keys == {t} == w.h.s.tasks.Keys && NoneTainted(w)
    ensures w.h.s.tasks[t].status.TaskFailed? && KeyOf(w.h.s.tasks[t]) in w.x.objects && !DoneKeys(w, w.x.objects)
  {
    var a := CopiedThenDead(j, shard, t, worker);
    w := RebalanceAlone(a, t);
    assert DoneIds(w) == {};
  }
}
