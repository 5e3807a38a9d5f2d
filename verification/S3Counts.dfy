/** References in the S3-FIFO policy over any calls (internal/cache/s3fifo.go): how often
    an id has been requested during its stay decides whether it leaves the probationary
    queue for main or for the ghosts, and in main its references are those requests less
    the second chances it has used up. */
module S3Counts {
  import opened Util
  import opened Lists
  import opened S3Fifo

  predicate OfId(op: Op, id: Id) { op == AddOp(id) || op == AccessOp(id) }

  /** How often the id has been requested since it joined. */
  function Requests(ps: seq<S3>, ops: seq<Op>, i: nat, id: Id): nat
    requires i < |ps| && i <= |ops|
  {
    if i == 0 || id !in ps[i].nodes || id !in ps[i - 1].nodes then 0
    else Requests(ps, ops, i - 1, id) + if OfId(ops[i - 1], id) then 1 else 0
  }

  /** A request is one reference more, up to three, and changes nothing else. */
  lemma RequestLaw(p: S3, op: Op, id: Id)
    requires Valid(p) && OfId(op, id) && id in p.nodes
    ensures Requested(p, id, Apply(p, op))
  {
    BumpCounts(p, id);
  }

  /******* One pop *******/

  /** It is main's turn and the id's in it. */
  predicate AtMainFront(p: S3, id: Id) { |p.small| < Target(p) && p.main != [] && p.main[0] == id }

  lemma PopReferences(p: S3, id: Id)
    requires Valid(p) && p.nodes != map[] && id in Pop(p).policy.nodes
    ensures id in p.nodes
    ensures Pop(p).policy.nodes[id].freq == p.nodes[id].freq - if AtMainFront(p, id) then 1 else 0
    ensures id in Pop(p).policy.small ==> id in p.small
  {
    NotEmpty(p);
    if p.small != [] { Headless(p.small); }
    if p.main != [] { Headless(p.main); }
  }

  /** What becomes of an id that a pop takes out of small. */
  lemma PopFromSmall(p: S3, id: Id)
    requires Valid(p) && p.nodes != map[] && id in p.small && id !in Pop(p).policy.small
    ensures if p.nodes[id].freq > 0 then Pop(p).evicted.None? && id in Pop(p).policy.main
            else Pop(p).evicted == Some(id)
  {
    NotEmpty(p);
    if p.small != [] { Headless(p.small); }
  }

  /** The ghosts with one more, the oldest beyond the peak forgotten. */
  function Remembering(p: S3, id: Id): seq<Id> {
    var all := p.ghosts + [id];
    if |all| > p.cap then all[|all| - p.cap..] else all
  }

  lemma SmallGhosts(p: S3)
    requires Valid(p) && p.small != []
    ensures var r := EvictSmall(p);
            && r.policy.ghosts == (if r.evicted.Some? then Remembering(p, r.evicted.value) else p.ghosts)
            && r.policy.cap == p.cap && (r.evicted.Some? ==> r.evicted.value in p.small)
  {
    assert p.small[0] in p.nodes && p.small[0] !in p.ghosts;
  }

  lemma MainGhosts(p: S3)
    requires Valid(p) && p.main != []
    ensures var r := EvictMain(p);
            r.policy.ghosts == p.ghosts && r.policy.cap == p.cap && (r.evicted.Some? ==> r.evicted.value !in p.small)
  {
    assert p.main[0] in p.main;
  }

  lemma PopGhosts(p: S3)
    requires Valid(p) && p.nodes != map[]
    ensures Pop(p).policy.ghosts ==
              if Pop(p).evicted.Some? && Pop(p).evicted.value in p.small then Remembering(p, Pop(p).evicted.value) else p.ghosts
    ensures Pop(p).policy.cap == p.cap
  {
    NotEmpty(p);
    if FromSmall(p) { SmallGhosts(p); } else { MainGhosts(p); }
  }

  lemma PopKeepsMain(p: S3, id: Id)
    requires Valid(p) && p.nodes != map[] && id in p.main && Pop(p).evicted.None?
    ensures id in Pop(p).policy.main
  {
    NotEmpty(p);
    if p.main != [] { Headless(p.main); }
  }

  /******* One reclamation *******/

  /** How many second chances the id uses up before the reclamation evicts. */
  ghost function Chances(p: S3, id: Id): nat
    requires Valid(p) && p.nodes != map[]
    decreases Weight(p)
  {
    VictimStep(p);
    if Pop(p).evicted.Some? then 0
    else (if AtMainFront(p, id) then 1 else 0) + Chances(Pop(p).policy, id)
  }

  lemma {:induction false} VictimReferences(p: S3, id: Id)
    requires Valid(p) && p.nodes != map[] && id in Victim(p).policy.nodes
    ensures id in p.nodes && Victim(p).policy.nodes[id].freq == p.nodes[id].freq - Chances(p, id)
    ensures id in Victim(p).policy.small ==> id in p.small
    decreases Weight(p)
  {
    VictimStep(p);
    if Pop(p).evicted.None? { VictimReferences(Pop(p).policy, id); }
    PopReferences(p, id);
    if Pop(p).evicted.Some? { EvictionSpares(p, id); }
  }

  lemma EvictionSpares(p: S3, id: Id)
    requires Valid(p) && p.nodes != map[] && Pop(p).evicted.Some? && id in Pop(p).policy.nodes
    ensures !AtMainFront(p, id)
  {
    NotEmpty(p);
  }

  lemma {:induction false} SmallUsesNoChance(p: S3, id: Id)
    requires Valid(p) && p.nodes != map[] && id in Victim(p).policy.small
    ensures Chances(p, id) == 0
    decreases Weight(p)
  {
    VictimStep(p);
    if Pop(p).evicted.None? {
      SmallUsesNoChance(Pop(p).policy, id);
      VictimReferences(Pop(p).policy, id);
      PopReferences(p, id);
    }
  }

  lemma EvictionForgetsMain(p: S3, id: Id)
    requires Valid(p) && p.nodes != map[] && id in p.main && Pop(p).evicted.Some?
    ensures id !in Pop(p).policy.ghosts
  {
    PopGhosts(p);
    if Pop(p).evicted.value in p.small { NotRemembered(p, Pop(p).evicted.value, id); }
  }

  /** An id in main is never a ghost after a reclamation, evicted or not. */
  lemma {:induction false} MainLeavesNoGhost(p: S3, id: Id)
    requires Valid(p) && p.nodes != map[] && id in p.main
    ensures id !in Victim(p).policy.ghosts
    decreases Weight(p)
  {
    VictimStep(p);
    if Pop(p).evicted.None? {
      PopKeepsMain(p, id);
      MainLeavesNoGhost(Pop(p).policy, id);
    } else {
      EvictionForgetsMain(p, id);
    }
  }

  lemma NotRemembered(p: S3, x: Id, id: Id)
    requires id !in p.ghosts && id != x
    ensures id !in Remembering(p, x)
  {
  }

  lemma Remembered(p: S3, id: Id)
    requires p.cap > 0
    ensures id in Remembering(p, id)
  {
    var all := p.ghosts + [id];
    assert all[|all| - 1] == id;
    if |all| > p.cap { assert all[|all| - p.cap..][p.cap - 1] == id; }
  }

  /** An id that a reclamation takes out of small: referenced, it goes by way of main and
      is not a ghost; unreferenced, it is the victim and is one. */
  lemma {:induction false} LeavesSmall(p: S3, id: Id)
    requires Valid(p) && p.nodes != map[] && id in p.small && id !in Victim(p).policy.small
    ensures id in Victim(p).policy.ghosts <==> p.nodes[id].freq == 0
    ensures p.nodes[id].freq == 0 ==> Victim(p).evicted == Some(id)
    decreases Weight(p)
  {
    VictimStep(p);
    PopGhosts(p);
    if id in Pop(p).policy.small {
      StaysInSmall(p, id);
    } else {
      PopFromSmall(p, id);
      if p.nodes[id].freq > 0 {
        MainLeavesNoGhost(Pop(p).policy, id);
      } else {
        CapPositive(p, id);
        Remembered(p, id);
      }
    }
  }

  lemma {:induction false} StaysInSmall(p: S3, id: Id)
    requires Valid(p) && p.nodes != map[] && id in p.small && id !in Victim(p).policy.small && id in Pop(p).policy.small
    ensures id in Victim(p).policy.ghosts <==> p.nodes[id].freq == 0
    ensures p.nodes[id].freq == 0 ==> Victim(p).evicted == Some(id)
    decreases Weight(p), 0
  {
    VictimStep(p);
    assert Pop(p).evicted.None?;
    PopReferences(p, id);
    NotAtMainFront(p, id);
    LeavesSmall(Pop(p).policy, id);
  }

  lemma NotAtMainFront(p: S3, id: Id)
    requires Valid(p) && id in p.small
    ensures !AtMainFront(p, id)
  {
    if p.main != [] { assert p.main[0] in p.main; }
  }

  lemma CapPositive(p: S3, id: Id)
    requires Valid(p) && id in p.nodes
    ensures p.cap > 0
  {
    assert |p.nodes.Keys| == |p.nodes|;
  }

  /** In small, and never referenced there. */
  predicate Unrequested(p: S3, id: Id) { id in p.small && id in p.nodes && p.nodes[id].freq == 0 }

  /** And the ghosts after a reclamation: those before and, when the victim was in small
      unreferenced, it as the newest; the oldest beyond the peak are forgotten. */
  lemma {:induction false} GhostLaw(p: S3)
    requires Valid(p) && p.nodes != map[]
    ensures var id := Victim(p).evicted.value;
            Victim(p).policy.ghosts == if Unrequested(p, id) then Remembering(p, id) else p.ghosts
    decreases Weight(p)
  {
    VictimStep(p);
    if Pop(p).evicted.None? {
      GhostLaw(Pop(p).policy);
      GhostsOn(p, Victim(p).evicted.value);
    } else {
      EvictionGhosts(p);
    }
  }

  /** Looking on after a second chance asks for the same ghosts. */
  lemma GhostsOn(p: S3, id: Id)
    requires Valid(p) && p.nodes != map[] && Pop(p).evicted.None? && id in p.nodes
    ensures var q := Pop(p).policy;
            (if Unrequested(q, id) then Remembering(q, id) else q.ghosts) == if Unrequested(p, id) then Remembering(p, id) else p.ghosts
  {
    PromotedOrNot(p, id);
  }

  lemma EvictionGhosts(p: S3)
    requires Valid(p) && p.nodes != map[] && Pop(p).evicted.Some?
    ensures var id := Pop(p).evicted.value;
            Pop(p).policy.ghosts == if Unrequested(p, id) then Remembering(p, id) else p.ghosts
  {
    PopGhosts(p);
    ShedUnreferenced(p);
  }

  lemma ShedUnreferenced(p: S3)
    requires Valid(p) && p.nodes != map[] && Pop(p).evicted.Some?
    ensures Pop(p).evicted.value in p.nodes && p.nodes[Pop(p).evicted.value].freq == 0
  {
    NotEmpty(p);
  }

  lemma PromotedOrNot(p: S3, id: Id)
    requires Valid(p) && p.nodes != map[] && Pop(p).evicted.None? && id in p.nodes
    ensures var q := Pop(p).policy;
            q.cap == p.cap && q.ghosts == p.ghosts && (Unrequested(q, id) <==> Unrequested(p, id))
  {
    PopKeeps(p);
    PopGhosts(p);
    PopReferences(p, id);
    if id in p.small {
      NotAtMainFront(p, id);
      if id !in Pop(p).policy.small { PopFromSmall(p, id); }
    }
  }

  /******* Over runs *******/

  lemma StateStep(ps: seq<S3>, ops: seq<Op>, i: nat)
    requires States(ps, ops) && i < |ops|
    ensures ps[i + 1] == Apply(ps[i], ops[i]) && Valid(ps[i]) && Valid(ps[i + 1])
  {
    assert StateAt(ps, ops, i) && StateAt(ps, ops, i + 1);
    ReplayStep(ops, i + 1);
    ReplayValid(ops[..i]);
    ReplayValid(ops[..i + 1]);
  }

  /** What a call makes of the references of an id that is in small after it. */
  predicate CountedIn(p: S3, op: Op, id: Id, q: S3) {
    && id in q.nodes && (id in p.nodes ==> id in p.small)
    && q.nodes[id].freq == if id !in p.nodes then 0 else if OfId(op, id) then Min(3, p.nodes[id].freq + 1) else p.nodes[id].freq
  }

  lemma AddInSmall(p: S3, x: Id, id: Id)
    requires Valid(p) && id in Add(p, x).small
    ensures CountedIn(p, AddOp(x), id, Add(p, x))
  {
    AddValid(p, x);
    if x in p.nodes { BumpCounts(p, x); }
  }

  lemma AccessInSmall(p: S3, x: Id, id: Id)
    requires Valid(p) && id in Access(p, x).small
    ensures CountedIn(p, AccessOp(x), id, Access(p, x))
  {
    if x in p.nodes { BumpCounts(p, x); }
  }

  lemma VictimInSmall(p: S3, id: Id)
    requires Valid(p) && p.nodes != map[] && id in Victim(p).policy.small
    ensures CountedIn(p, VictimOp, id, Victim(p).policy)
  {
    VictimReferences(p, id);
    SmallUsesNoChance(p, id);
  }

  lemma RemoveInSmall(p: S3, x: Id, id: Id)
    requires Valid(p) && id in Remove(p, x).small
    ensures CountedIn(p, RemoveOp(x), id, Remove(p, x))
  {
    RemoveValid(p, x);
    Dropped(p.small, x);
  }

  lemma SmallStep(p: S3, op: Op, id: Id)
    requires Valid(p) && id in Apply(p, op).small
    ensures CountedIn(p, op, id, Apply(p, op))
  {
    match op
    case AddOp(x) => AddInSmall(p, x, id);
    case AccessOp(x) => AccessInSmall(p, x, id);
    case VictimOp => if p.nodes != map[] { VictimInSmall(p, id); }
    case RemoveOp(x) => RemoveInSmall(p, x, id);
  }

  /** While an id is in small it has as many references as it was requested since it
      joined, up to three. */
  lemma {:induction false} SmallCounts(ps: seq<S3>, ops: seq<Op>, i: nat, id: Id)
    requires States(ps, ops) && i <= |ops| && id in ps[i].small
    ensures id in ps[i].nodes && ps[i].nodes[id].freq == Min(3, Requests(ps, ops, i, id))
  {
    assert StateAt(ps, ops, i);
    ReplayValid(ops[..i]);
    if i > 0 {
      StateStep(ps, ops, i - 1);
      SmallStep(ps[i - 1], ops[i - 1], id);
      if id in ps[i - 1].nodes { SmallCounts(ps, ops, i - 1, id); }
    }
  }

  /** So an id leaves small for the ghosts exactly when no call of its stay requested it,
      and gets to main only when one did. */
  lemma FallsUnrequested(ps: seq<S3>, ops: seq<Op>, i: nat, id: Id)
    requires States(ps, ops) && i < |ops| && ops[i] == VictimOp && id in ps[i].small && id !in ps[i + 1].small
    ensures id in ps[i + 1].ghosts <==> Requests(ps, ops, i, id) == 0
    ensures id in ps[i + 1].main ==> Requests(ps, ops, i, id) > 0
  {
    StateStep(ps, ops, i);
    SmallCounts(ps, ops, i, id);
    assert ps[i].nodes != map[];
    LeavesSmall(ps[i], id);
  }

  /** The references an id should have: each request one more, up to three, each second
      chance one less, from nothing when it joined. */
  ghost function Tally(ps: seq<S3>, ops: seq<Op>, i: nat, id: Id): int
    requires i < |ps| && i <= |ops|
  {
    if i == 0 || id !in ps[i].nodes || id !in ps[i - 1].nodes then 0 else
      var before := Tally(ps, ops, i - 1, id);
      if OfId(ops[i - 1], id) then Min(3, before + 1)
      else if ops[i - 1].VictimOp? && Valid(ps[i - 1]) then before - Chances(ps[i - 1], id)
      else before
  }

  lemma CallReferences(p: S3, op: Op, id: Id)
    requires Valid(p) && id in Apply(p, op).nodes
    ensures Apply(p, op).nodes[id].freq ==
              if id !in p.nodes then 0
              else if OfId(op, id) then Min(3, p.nodes[id].freq + 1)
              else if op.VictimOp? then p.nodes[id].freq - Chances(p, id)
              else p.nodes[id].freq
  {
    if op.VictimOp? && p.nodes != map[] { VictimReferences(p, id); }
  }

  /** In every run a resident has exactly those references, wherever it is. */
  lemma {:induction false} ReferencesTallied(ps: seq<S3>, ops: seq<Op>, i: nat, id: Id)
    requires States(ps, ops) && i <= |ops| && id in ps[i].nodes
    ensures ps[i].nodes[id].freq == Tally(ps, ops, i, id)
  {
    assert StateAt(ps, ops, i);
    if i > 0 {
      StateStep(ps, ops, i - 1);
      CallReferences(ps[i - 1], ops[i - 1], id);
      if id in ps[i - 1].nodes { ReferencesTallied(ps, ops, i - 1, id); }
    }
  }
}
