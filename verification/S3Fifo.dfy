/** The S3-FIFO eviction policy (internal/cache/s3fifo.go): a probationary queue
    small, a protected queue main, and the ghosts of ids lately evicted from small. */
module S3Fifo {
  import opened Util
  import opened Lists

  datatype Node = Node(freq: nat, inMain: bool)

  datatype S3 = S3(small: seq<Id>, main: seq<Id>, nodes: map<Id, Node>, ghosts: seq<Id>, cap: nat)

  const FRESH := S3([], [], map[], [], 0)

  /** small and main partition the residents; no ghost is resident; there are never
      more ghosts or residents than the peak. */
  ghost predicate Valid(p: S3) {
    && Distinct(p.small) && Distinct(p.main) && Distinct(p.ghosts)
    && (forall id :: id in p.nodes <==> id in p.small || id in p.main)
    && (forall id <- p.small :: id !in p.main && !p.nodes[id].inMain)
    && (forall id <- p.main :: p.nodes[id].inMain)
    && (forall id <- p.ghosts :: id !in p.nodes)
    && (forall id <- p.nodes :: p.nodes[id].freq <= 3)
    && |p.ghosts| <= p.cap && |p.nodes| <= p.cap
  }

  /** The queues hold each resident once. */
  lemma Partition(p: S3)
    requires Valid(p)
    ensures |p.nodes| == |p.small| + |p.main|
  {
    MemberCount(p.small);
    MemberCount(p.main);
    assert p.nodes.Keys == Members(p.small) + Members(p.main);
    assert |p.nodes| == |p.nodes.Keys|;
  }

  /******* Operations *******/

  function Bump(p: S3, id: Id): S3
    requires id in p.nodes
  {
    var n := p.nodes[id];
    if n.freq < 3 then p.(nodes := p.nodes[id := n.(freq := n.freq + 1)]) else p
  }

  /** One reference more for the id, up to three, and nothing else. */
  predicate Requested(p: S3, id: Id, q: S3) {
    && id in p.nodes && id in q.nodes && q.nodes[id].freq == Min(3, p.nodes[id].freq + 1)
    && q == p.(nodes := p.nodes[id := p.nodes[id].(freq := q.nodes[id].freq)])
  }

  function Peak(p: S3): S3 { if |p.nodes| > p.cap then p.(cap := |p.nodes|) else p }

  function Add(p: S3, id: Id): S3 {
    if id in p.nodes then Bump(p, id)
    else if id in p.ghosts then
      Peak(p.(ghosts := Drop(p.ghosts, id), main := p.main + [id], nodes := p.nodes[id := Node(0, true)]))
    else Peak(p.(small := p.small + [id], nodes := p.nodes[id := Node(0, false)]))
  }

  function Access(p: S3, id: Id): S3 {
    if id in p.nodes then Bump(p, id) else p
  }

  function Trim(ghosts: seq<Id>, cap: nat): seq<Id> {
    if |ghosts| > cap then ghosts[|ghosts| - cap..] else ghosts
  }

  function PushGhost(p: S3, id: Id): S3 {
    if id in p.ghosts then p else p.(ghosts := Trim(p.ghosts + [id], p.cap))
  }

  /** The policy after one pop, and the id if it was evicted. */
  datatype Popped = Popped(policy: S3, evicted: Option<Id>)

  function EvictSmall(p: S3): Popped
    requires p.small != [] && p.small[0] in p.nodes
  {
    var id := p.small[0];
    var q := p.(small := p.small[1..]);
    if p.nodes[id].freq > 0
    then Popped(q.(main := p.main + [id], nodes := p.nodes[id := p.nodes[id].(inMain := true)]), None)
    else Popped(PushGhost(q.(nodes := p.nodes - {id}), id), Some(id))
  }

  function EvictMain(p: S3): Popped
    requires p.main != [] && p.main[0] in p.nodes
  {
    var id := p.main[0];
    var n := p.nodes[id];
    if n.freq > 0
    then Popped(p.(main := p.main[1..] + [id], nodes := p.nodes[id := n.(freq := n.freq - 1)]), None)
    else Popped(p.(main := p.main[1..], nodes := p.nodes - {id}), Some(id))
  }

  function Target(p: S3): nat {
    var t := (|p.small| + |p.main|) / 10;
    if t < 1 then 1 else t
  }

  /** Which queue is shed next: small when it has its share, or when main is empty
      (and then small always has its share). */
  predicate FromSmall(p: S3) { |p.small| >= Target(p) || p.main == [] }

  function Pop(p: S3): Popped
    requires Valid(p) && p.nodes != map[]
  {
    NotEmpty(p);
    if FromSmall(p) then EvictSmall(p) else EvictMain(p)
  }

  lemma NotEmpty(p: S3)
    requires Valid(p) && p.nodes != map[]
    ensures p.small != [] || p.main != []
  {
    assert p.nodes.Keys != {};
    var id :| id in p.nodes;
  }

  lemma BumpCounts(p: S3, id: Id)
    requires id in p.nodes && p.nodes[id].freq <= 3
    ensures Requested(p, id, Bump(p, id))
  {
  }

  /******* Each keeps the policy valid *******/

  lemma BumpValid(p: S3, id: Id)
    requires Valid(p) && id in p.nodes
    ensures Valid(Bump(p, id)) && Bump(p, id).nodes.Keys == p.nodes.Keys
  {
    var p' := Bump(p, id);
    assert p'.nodes.Keys == p.nodes.Keys;
    assert |p'.nodes.Keys| == |p'.nodes| && |p.nodes.Keys| == |p.nodes|;
  }

  lemma OneMoreKey(m: map<Id, Node>, id: Id, n: Node)
    requires id !in m
    ensures m[id := n].Keys == m.Keys + {id} && |m[id := n]| == |m| + 1
  {
    assert |m[id := n].Keys| == |m[id := n]| && |m.Keys| == |m|;
  }

  lemma AddGhostValid(p: S3, id: Id)
    requires Valid(p) && id in p.ghosts
    ensures Valid(Add(p, id))
  {
    Dropped(p.ghosts, id);
    Appended(p.main, id);
    OneMoreKey(p.nodes, id, Node(0, true));
  }

  lemma AddNewValid(p: S3, id: Id)
    requires Valid(p) && id !in p.nodes && id !in p.ghosts
    ensures Valid(Add(p, id))
  {
    Appended(p.small, id);
    OneMoreKey(p.nodes, id, Node(0, false));
  }

  lemma AddValid(p: S3, id: Id)
    requires Valid(p)
    ensures Valid(Add(p, id)) && Add(p, id).nodes.Keys == p.nodes.Keys + {id}
  {
    if id in p.nodes {
      BumpValid(p, id);
    } else if id in p.ghosts {
      AddGhostValid(p, id);
    } else {
      AddNewValid(p, id);
    }
  }

  lemma AccessValid(p: S3, id: Id)
    requires Valid(p)
    ensures Valid(Access(p, id)) && Access(p, id).nodes.Keys == p.nodes.Keys
  {
    if id in p.nodes { BumpValid(p, id); }
  }

  /** The references in a queue. */
  function Refs(s: seq<Id>, nodes: map<Id, Node>): nat {
    if s == [] then 0 else (if s[0] in nodes then nodes[s[0]].freq else 0) + Refs(s[1..], nodes)
  }

  lemma {:induction false} RefsAppend(s: seq<Id>, id: Id, nodes: map<Id, Node>)
    ensures Refs(s + [id], nodes) == Refs(s, nodes) + if id in nodes then nodes[id].freq else 0
  {
    if s != [] {
      RefsAppend(s[1..], id, nodes);
      assert (s + [id])[1..] == s[1..] + [id];
    }
  }

  lemma {:induction false} RefsElsewhere(s: seq<Id>, id: Id, nodes: map<Id, Node>, n: Node)
    requires id !in s
    ensures Refs(s, nodes[id := n]) == Refs(s, nodes)
  {
    if s != [] {
      assert s == [s[0]] + s[1..];
      RefsElsewhere(s[1..], id, nodes, n);
    }
  }

  /** How many pops can pass before one evicts. */
  function Weight(p: S3): nat { |p.small| + Refs(p.small, p.nodes) + Refs(p.main, p.nodes) }

  /** A pop evicts one resident, or makes the weight one less. */
  ghost predicate PopOk(p: S3, r: Popped) {
    && Valid(r.policy)
    && match r.evicted
       case None => r.policy.nodes.Keys == p.nodes.Keys && Weight(r.policy) < Weight(p)
       case Some(id) => id in p.nodes && r.policy.nodes.Keys == p.nodes.Keys - {id}
  }

  lemma PromoteOk(p: S3)
    requires Valid(p) && p.small != [] && p.nodes[p.small[0]].freq > 0
    ensures PopOk(p, EvictSmall(p))
  {
    var id := p.small[0];
    var n := p.nodes[id].(inMain := true);
    var p' := EvictSmall(p).policy;
    Headless(p.small);
    Appended(p.main, id);
    assert p'.nodes.Keys == p.nodes.Keys;
    assert |p'.nodes.Keys| == |p'.nodes| && |p.nodes.Keys| == |p.nodes|;
    RefsAppend(p.main, id, p'.nodes);
    RefsElsewhere(p.small[1..], id, p.nodes, n);
    RefsElsewhere(p.main, id, p.nodes, n);
  }

  lemma DecayOk(p: S3)
    requires Valid(p) && p.main != [] && p.nodes[p.main[0]].freq > 0
    ensures PopOk(p, EvictMain(p))
  {
    var id := p.main[0];
    var n := p.nodes[id].(freq := p.nodes[id].freq - 1);
    var p' := EvictMain(p).policy;
    Headless(p.main);
    Appended(p.main[1..], id);
    assert p'.nodes.Keys == p.nodes.Keys;
    assert |p'.nodes.Keys| == |p'.nodes| && |p.nodes.Keys| == |p.nodes|;
    RefsAppend(p.main[1..], id, p'.nodes);
    RefsElsewhere(p.main[1..], id, p.nodes, n);
    RefsElsewhere(p.small, id, p.nodes, n);
  }

  lemma OneKeyLess(m: map<Id, Node>, id: Id)
    requires id in m
    ensures (m - {id}).Keys == m.Keys - {id} && |m - {id}| == |m| - 1
  {
    assert |(m - {id}).Keys| == |m - {id}| && |m.Keys| == |m|;
  }

  lemma Trimmed(ghosts: seq<Id>, cap: nat)
    requires Distinct(ghosts)
    ensures Distinct(Trim(ghosts, cap)) && |Trim(ghosts, cap)| <= cap && forall x <- Trim(ghosts, cap) :: x in ghosts
  {
  }

  lemma ShedSmallOk(p: S3)
    requires Valid(p) && p.small != [] && p.nodes[p.small[0]].freq == 0
    ensures PopOk(p, EvictSmall(p))
  {
    var id := p.small[0];
    Headless(p.small);
    OneKeyLess(p.nodes, id);
    if id !in p.ghosts {
      Appended(p.ghosts, id);
      Trimmed(p.ghosts + [id], p.cap);
    }
  }

  lemma ShedMainOk(p: S3)
    requires Valid(p) && p.main != [] && p.nodes[p.main[0]].freq == 0
    ensures PopOk(p, EvictMain(p))
  {
    Headless(p.main);
    OneKeyLess(p.nodes, p.main[0]);
  }

  lemma PopKeeps(p: S3)
    requires Valid(p) && p.nodes != map[]
    ensures PopOk(p, Pop(p))
  {
    NotEmpty(p);
    if FromSmall(p) {
      if p.nodes[p.small[0]].freq > 0 { PromoteOk(p); } else { ShedSmallOk(p); }
    } else {
      if p.nodes[p.main[0]].freq > 0 { DecayOk(p); } else { ShedMainOk(p); }
    }
  }

  /** Pops until one evicts. */
  function Victim(p: S3): (r: Popped)
    requires Valid(p) && p.nodes != map[]
    ensures Valid(r.policy) && r.evicted.Some? && r.evicted.value in p.nodes
    ensures r.policy.nodes.Keys == p.nodes.Keys - {r.evicted.value}
    ensures r.policy.cap == p.cap
    decreases Weight(p)
  {
    var r := Pop(p);
    PopKeeps(p);
    if r.evicted.Some? then r else
      assert r.policy.nodes.Keys != {};
      Victim(r.policy)
  }

  function Remove(p: S3, id: Id): S3 {
    if id !in p.nodes then p
    else if p.nodes[id].inMain then p.(main := Drop(p.main, id), nodes := p.nodes - {id})
    else p.(small := Drop(p.small, id), nodes := p.nodes - {id})
  }

  lemma RemoveValid(p: S3, id: Id)
    requires Valid(p)
    ensures Valid(Remove(p, id)) && Remove(p, id).nodes.Keys == p.nodes.Keys - {id}
  {
    if id in p.nodes {
      OneKeyLess(p.nodes, id);
      Dropped(p.main, id);
      Dropped(p.small, id);
    }
  }

  /** Another pop before the victim changes nothing about who it is. */
  lemma VictimStep(p: S3)
    requires Valid(p) && p.nodes != map[]
    ensures PopOk(p, Pop(p))
    ensures Pop(p).evicted.Some? ==> Victim(p) == Pop(p)
    ensures Pop(p).evicted.None? ==> Pop(p).policy.nodes != map[] && Victim(p) == Victim(Pop(p).policy)
  {
    PopKeeps(p);
    if Pop(p).evicted.None? {
      assert p.nodes.Keys != {} && Pop(p).policy.nodes.Keys != {};
    }
  }

  lemma TailOfTail(s: seq<Id>, k: nat)
    requires k < |s|
    ensures s[k..][1..] == s[k + 1..]
  {
  }

  method TrimGhosts(all: seq<Id>, cap: nat) returns (ghosts: seq<Id>)
    ensures ghosts == Trim(all, cap)
  {
    ghosts := all;
    ghost var k := 0;
    while |ghosts| > cap
      invariant k <= |all| && ghosts == all[k..] && (k > 0 ==> |all| - k >= cap)
      decreases |all| - k
    {
      TailOfTail(all, k);
      ghosts, k := ghosts[1..], k + 1;
    }
  }

  /******* The policy object *******/

  class Policy {
    var small: seq<Id>
    var main: seq<Id>
    var nodes: map<Id, Node>
    var ghosts: seq<Id>
    var ghostCap: nat

    ghost function Contents(): S3
      reads this
    {
      S3(small, main, nodes, ghosts, ghostCap)
    }

    constructor ()
      ensures Valid(Contents()) && Contents() == FRESH
    {
      small, main, nodes, ghosts, ghostCap := [], [], map[], [], 0;
    }

    method AddId(id: Id)
      requires Valid(Contents())
      modifies this
      ensures Valid(Contents()) && Contents() == Add(old(Contents()), id)
    {
      AddValid(Contents(), id);
      if id in nodes {
        BumpNode(id);
        return;
      }
      if id in ghosts {
        ghosts, main, nodes := Drop(ghosts, id), main + [id], nodes[id := Node(0, true)];
      } else {
        small, nodes := small + [id], nodes[id := Node(0, false)];
      }
      ghostCap := if |nodes| > ghostCap then |nodes| else ghostCap;
    }

    method BumpNode(id: Id)
      requires id in nodes
      modifies this`nodes
      ensures Contents() == Bump(old(Contents()), id)
    {
      if nodes[id].freq < 3 { nodes := nodes[id := nodes[id].(freq := nodes[id].freq + 1)]; }
    }

    method AccessId(id: Id)
      requires Valid(Contents())
      modifies this`nodes
      ensures Valid(Contents()) && Contents() == Access(old(Contents()), id)
      ensures if id in old(nodes) then Requested(old(Contents()), id, Contents()) else Contents() == old(Contents())
    {
      AccessValid(Contents(), id);
      if id in nodes {
        BumpCounts(Contents(), id);
        BumpNode(id);
      }
    }

    /** One resident leaves, or none when there is none. */
    method NextVictim() returns (victim: Option<Id>)
      requires Valid(Contents())
      modifies this
      ensures Valid(Contents())
      ensures victim.None? <==> old(nodes) == map[]
      ensures victim.None? ==> Contents() == old(Contents())
      ensures victim.Some? ==> Popped(Contents(), victim) == Victim(old(Contents()))
    {
      if nodes == map[] { return None; }
      ghost var p := Contents();
      victim := PopOne();
      VictimStep(p);
      while victim.None?
        invariant Valid(Contents())
        invariant victim.None? ==> nodes != map[] && Victim(Contents()) == Victim(p)
        invariant victim.Some? ==> Popped(Contents(), victim) == Victim(p)
        decreases victim.None?, Weight(Contents())
      {
        VictimStep(Contents());
        victim := PopOne();
      }
    }

    /** One turn of the reclamation loop: which queue to pop, and the pop. */
    method PopOne() returns (evicted: Option<Id>)
      requires Valid(Contents()) && nodes != map[]
      modifies this
      ensures Popped(Contents(), evicted) == Pop(old(Contents()))
    {
      NotEmpty(Contents());
      var target := (|small| + |main|) / 10;
      if target < 1 { target := 1; }
      if |small| >= target || main == [] {
        evicted := PopSmall();
      } else {
        evicted := PopMain();
      }
    }

    method PopSmall() returns (evicted: Option<Id>)
      requires small != [] && small[0] in nodes
      modifies this
      ensures Popped(Contents(), evicted) == EvictSmall(old(Contents()))
    {
      var id := small[0];
      small := small[1..];
      if nodes[id].freq > 0 {
        main, nodes := main + [id], nodes[id := nodes[id].(inMain := true)];
        return None;
      }
      nodes := nodes - {id};
      if id !in ghosts { ghosts := TrimGhosts(ghosts + [id], ghostCap); }
      return Some(id);
    }

    method PopMain() returns (evicted: Option<Id>)
      requires main != [] && main[0] in nodes
      modifies this`main, this`nodes
      ensures Popped(Contents(), evicted) == EvictMain(old(Contents()))
    {
      var id := main[0];
      main := main[1..];
      if nodes[id].freq > 0 {
        main, nodes := main + [id], nodes[id := nodes[id].(freq := nodes[id].freq - 1)];
        return None;
      }
      nodes := nodes - {id};
      return Some(id);
    }

    method RemoveId(id: Id)
      requires Valid(Contents())
      modifies this`small, this`main, this`nodes
      ensures Valid(Contents()) && Contents() == Remove(old(Contents()), id)
    {
      RemoveValid(Contents(), id);
      if id !in nodes { return; }
      if nodes[id].inMain { main := Drop(main, id); } else { small := Drop(small, id); }
      nodes := nodes - {id};
    }
  }

  /******* Runs *******/

  datatype Op = AddOp(id: Id) | AccessOp(id: Id) | VictimOp | RemoveOp(id: Id)

  ghost function Apply(p: S3, op: Op): S3 {
    match op
    case AddOp(id) => Add(p, id)
    case AccessOp(id) => Access(p, id)
    case VictimOp => if Valid(p) && p.nodes != map[] then Victim(p).policy else p
    case RemoveOp(id) => Remove(p, id)
  }

  lemma ApplyValid(p: S3, op: Op)
    requires Valid(p)
    ensures Valid(Apply(p, op))
  {
    match op
    case AddOp(id) => AddValid(p, id);
    case AccessOp(id) => AccessValid(p, id);
    case VictimOp =>
    case RemoveOp(id) => RemoveValid(p, id);
  }

  /** The policy after a sequence of calls; it is always valid (ReplayValid). */
  ghost function Replay(ops: seq<Op>): S3 {
    if ops == [] then FRESH else Apply(Replay(ops[..|ops| - 1]), ops[|ops| - 1])
  }

  lemma {:induction false} ReplayValid(ops: seq<Op>)
    ensures Valid(Replay(ops))
  {
    if ops != [] {
      ReplayValid(ops[..|ops| - 1]);
      ApplyValid(Replay(ops[..|ops| - 1]), ops[|ops| - 1]);
    }
  }

  lemma ReplayStep(ops: seq<Op>, i: nat)
    requires 0 < i <= |ops|
    ensures Replay(ops[..i]) == Apply(Replay(ops[..i - 1]), ops[i - 1])
  {
    assert ops[..i][..i - 1] == ops[..i - 1];
  }

  /******* How an id gets into main *******/

  /** In main, or sure to get there when its turn comes. */
  predicate Hot(p: S3, id: Id) {
    id in p.main || (id in p.small && id in p.nodes && p.nodes[id].freq > 0)
  }

  /** A second request: in small, or remembered as a ghost. */
  predicate Earns(p: S3, op: Op, id: Id) {
    || (op == AccessOp(id) && id in p.small)
    || (op == AddOp(id) && (id in p.small || id in p.ghosts))
  }

  lemma PopHot(p: S3, id: Id)
    requires Valid(p) && p.nodes != map[] && Hot(Pop(p).policy, id)
    ensures Hot(p, id)
  {
    NotEmpty(p);
    if p.small != [] { Headless(p.small); }
    if p.main != [] { Headless(p.main); }
  }

  lemma {:induction false} VictimHot(p: S3, id: Id)
    requires Valid(p) && p.nodes != map[] && Hot(Victim(p).policy, id)
    ensures Hot(p, id)
    decreases Weight(p)
  {
    VictimStep(p);
    if Pop(p).evicted.None? { VictimHot(Pop(p).policy, id); }
    PopHot(p, id);
  }

  lemma AddHot(p: S3, id: Id, x: Id)
    requires Valid(p) && Hot(Add(p, x), id)
    ensures Hot(p, id) || Earns(p, AddOp(x), id)
  {
  }

  lemma ApplyHot(p: S3, op: Op, id: Id)
    requires Valid(p) && Hot(Apply(p, op), id)
    ensures Hot(p, id) || Earns(p, op, id)
  {
    match op
    case AddOp(x) => AddHot(p, id, x);
    case AccessOp(x) =>
    case VictimOp => if p.nodes != map[] { VictimHot(p, id); }
    case RemoveOp(x) =>
      Dropped(p.main, x);
      Dropped(p.small, x);
  }

  ghost predicate StateAt(ps: seq<S3>, ops: seq<Op>, i: nat) {
    i <= |ops| && i < |ps| && ps[i] == Replay(ops[..i])
  }

  /** ps are the states the policy goes through. */
  ghost predicate States(ps: seq<S3>, ops: seq<Op>) {
    |ps| == |ops| + 1 && forall i {:trigger StateAt(ps, ops, i)} :: 0 <= i <= |ops| ==> StateAt(ps, ops, i)
  }

  /** Since call j, which earned it, the id has been resident. */
  predicate EarnedAt(ps: seq<S3>, ops: seq<Op>, i: nat, id: Id, j: nat) {
    && j < i < |ps| && i <= |ops| && Earns(ps[j], ops[j], id)
    && forall k :: j < k <= i ==> id in ps[k].nodes
  }

  lemma HotStep(ps: seq<S3>, ops: seq<Op>, i: nat, id: Id)
    requires States(ps, ops) && i <= |ops| && Hot(ps[i], id)
    ensures i > 0 && id in ps[i].nodes && (Hot(ps[i - 1], id) || Earns(ps[i - 1], ops[i - 1], id))
  {
    assert StateAt(ps, ops, i);
    ReplayValid(ops[..i]);
    assert i > 0;
    assert StateAt(ps, ops, i - 1);
    ReplayStep(ops, i);
    ReplayValid(ops[..i - 1]);
    ApplyHot(Replay(ops[..i - 1]), ops[i - 1], id);
  }

  /** An id is in main only because, during its present stay, it was requested while
      in small, or came back while still remembered as a ghost. */
  lemma {:induction false} MainIsEarned(ps: seq<S3>, ops: seq<Op>, i: nat, id: Id) returns (j: nat)
    requires States(ps, ops) && i <= |ops| && Hot(ps[i], id)
    ensures EarnedAt(ps, ops, i, id, j)
  {
    HotStep(ps, ops, i, id);
    j := i - 1;
    if !Earns(ps[j], ops[j], id) { j := MainIsEarned(ps, ops, i - 1, id); }
  }

  /******* The bound on ghosts *******/

  /** The largest number of residents up to call i. */
  ghost function PeakOf(ops: seq<Op>, i: nat): nat
    requires i <= |ops|
  {
    var n := |Replay(ops[..i]).nodes|;
    if i == 0 then n else Max(PeakOf(ops, i - 1), n)
  }

  lemma ApplyCap(p: S3, op: Op)
    requires Valid(p)
    ensures Apply(p, op).cap == Max(p.cap, |Apply(p, op).nodes|)
  {
    ApplyValid(p, op);
    match op
    case AddOp(id) =>
    case AccessOp(id) =>
    case VictimOp =>
    case RemoveOp(id) =>
  }

  lemma {:induction false} CapIsPeak(ops: seq<Op>, i: nat)
    requires i <= |ops|
    ensures Replay(ops[..i]).cap == PeakOf(ops, i)
  {
    if i == 0 {
      assert ops[..0] == [];
    } else {
      CapIsPeak(ops, i - 1);
      ReplayStep(ops, i);
      ReplayValid(ops[..i - 1]);
      ApplyCap(Replay(ops[..i - 1]), ops[i - 1]);
    }
  }

  /** After any calls, small and main partition the residents, no ghost is resident,
      and there are at most as many ghosts as there ever were residents. */
  lemma QueuesPartition(ops: seq<Op>, i: nat, id: Id)
    requires i <= |ops|
    ensures var p := Replay(ops[..i]);
            && (id in p.nodes <==> (id in p.small) != (id in p.main))
            && !(id in p.nodes && id in p.ghosts)
            && |p.nodes| == |p.small| + |p.main|
            && |p.ghosts| <= PeakOf(ops, i)
  {
    ReplayValid(ops[..i]);
    Partition(Replay(ops[..i]));
    CapIsPeak(ops, i);
  }

  /******* Does a newcomer survive? *******/

  function Size(p: S3): nat { |p.small| + |p.main| }

  predicate Referenced(p: S3, ids: seq<Id>) {
    forall x <- ids :: x in p.nodes && p.nodes[x].freq > 0
  }

  /** With main empty, small always has its share: the third case of the source's
      switch is never reached. */
  lemma SmallHasItsShare(p: S3)
    requires p.main == [] && p.small != []
    ensures |p.small| >= Target(p)
  {
  }

  /** id is the newest of small and has not been referenced. */
  predicate Newest(p: S3, id: Id) {
    p.small != [] && p.small[|p.small| - 1] == id && id in p.nodes && p.nodes[id].freq == 0
  }

  /** q has p's ids at the front of small moved to the back of main. */
  predicate Promoted(p: S3, q: S3) {
    && p.small != [] && q.small == p.small[1..] && q.main == p.main + [p.small[0]]
    && q.nodes.Keys == p.nodes.Keys && (forall x <- p.nodes :: q.nodes[x].freq == p.nodes[x].freq)
    && p.small[0] in p.nodes && p.nodes[p.small[0]].freq > 0
  }

  /** q has the front of p's main at its back, with one reference less. */
  predicate Decayed(p: S3, q: S3) {
    && p.main != [] && q.small == p.small && q.main == p.main[1..] + [p.main[0]]
    && q.nodes.Keys == p.nodes.Keys && (forall x <- p.nodes :: x != p.main[0] ==> q.nodes[x].freq == p.nodes[x].freq)
    && p.main[0] in p.nodes && p.nodes[p.main[0]].freq > 0
  }

  lemma PopMoves(p: S3)
    requires Valid(p) && p.nodes != map[] && Pop(p).evicted.None?
    ensures if FromSmall(p) then Promoted(p, Pop(p).policy) else Decayed(p, Pop(p).policy)
  {
    NotEmpty(p);
  }

  lemma SameReferences(p: S3, q: S3, ids: seq<Id>)
    requires q.nodes.Keys == p.nodes.Keys && forall x <- ids :: x in p.nodes ==> q.nodes[x].freq == p.nodes[x].freq
    ensures Referenced(q, ids) <==> Referenced(p, ids)
  {
  }

  lemma OneMoreReferenced(p: S3, x: Id, ids: seq<Id>)
    ensures Referenced(p, [x] + ids) <==> x in p.nodes && p.nodes[x].freq > 0 && Referenced(p, ids)
  {
    assert ([x] + ids)[0] == x && forall y <- ids :: y in [x] + ids;
  }

  lemma PromotionKeepsNewest(p: S3, q: S3, id: Id)
    requires Promoted(p, q) && Newest(p, id)
    ensures Newest(q, id)
    ensures Referenced(q, q.small[..|q.small| - 1]) <==> Referenced(p, p.small[..|p.small| - 1])
  {
    var rest := p.small[1..|p.small| - 1];
    assert p.small[..|p.small| - 1] == [p.small[0]] + rest && q.small[..|q.small| - 1] == rest;
    OneMoreReferenced(p, p.small[0], rest);
    SameReferences(p, q, rest);
  }

  lemma DecayKeepsNewest(p: S3, q: S3, id: Id)
    requires Decayed(p, q) && Newest(p, id) && p.main[0] !in p.small
    ensures Newest(q, id)
    ensures Referenced(q, q.small[..|q.small| - 1]) <==> Referenced(p, p.small[..|p.small| - 1])
  {
    SameReferences(p, q, p.small[..|p.small| - 1]);
  }

  /** A pop that evicts nothing leaves the newest of small where it is, and what is
      before it in small as referenced as it was. */
  lemma PopKeepsNewest(p: S3, id: Id)
    requires Valid(p) && p.nodes != map[] && Newest(p, id) && Pop(p).evicted.None?
    ensures var q := Pop(p).policy;
            && Newest(q, id) && Size(q) == Size(p)
            && (Referenced(q, q.small[..|q.small| - 1]) <==> Referenced(p, p.small[..|p.small| - 1]))
  {
    PopMoves(p);
    if FromSmall(p) {
      PromotionKeepsNewest(p, Pop(p).policy, id);
    } else {
      DecayKeepsNewest(p, Pop(p).policy, id);
    }
  }

  /** A pop that evicts takes the newest of small exactly when it is alone there and
      small is the queue to shed. */
  lemma PopEvictsNewest(p: S3, id: Id)
    requires Valid(p) && p.nodes != map[] && Newest(p, id) && Pop(p).evicted.Some?
    ensures Pop(p).evicted == Some(id) <==> FromSmall(p) && |p.small| == 1
    ensures FromSmall(p) && |p.small| > 1 ==> !Referenced(p, p.small[..|p.small| - 1])
    ensures !FromSmall(p) ==> Size(p) >= 20
  {
    NotEmpty(p);
    var n := |p.small| - 1;
    if FromSmall(p) {
      if n > 0 { assert p.small[0] in p.small[..n] && p.small[0] != p.small[n]; }
    } else {
      assert p.main[0] !in p.small && id in p.small;
    }
  }

  lemma {:induction false} NewestFalls(p: S3, id: Id)
    requires Valid(p) && p.nodes != map[] && Newest(p, id)
    ensures Victim(p).evicted == Some(id) <==> Size(p) < 20 && Referenced(p, p.small[..|p.small| - 1])
    decreases Weight(p)
  {
    VictimStep(p);
    if Pop(p).evicted.None? {
      PopKeepsNewest(p, id);
      NewestFalls(Pop(p).policy, id);
    } else {
      PopEvictsNewest(p, id);
      if |p.small| == 1 && Size(p) < 20 { assert FromSmall(p); }
    }
  }

  /** An id new to the cache is its very next victim if and only if there are fewer
      than nineteen residents and every one in small has been referenced. */
  lemma NewcomerFalls(p: S3, id: Id)
    requires Valid(p) && id !in p.nodes && id !in p.ghosts
    ensures Valid(Add(p, id)) && Add(p, id).nodes != map[]
    ensures Victim(Add(p, id)).evicted == Some(id) <==> Size(p) < 19 && Referenced(p, p.small)
  {
    AddValid(p, id);
    NewcomerJoins(p, id);
    NewestFalls(Add(p, id), id);
  }

  lemma NewcomerJoins(p: S3, id: Id)
    requires Valid(p) && id !in p.nodes && id !in p.ghosts
    ensures var q := Add(p, id);
            && q.nodes != map[] && Newest(q, id) && Size(q) == Size(p) + 1
            && (Referenced(q, q.small[..|q.small| - 1]) <==> Referenced(p, p.small))
  {
    var q := Add(p, id);
    assert id in q.nodes && q.small[..|p.small|] == p.small;
    OldReferences(p, q, p.small);
  }

  /** How many of small are shed before main's turn comes. */
  function Excess(p: S3): nat {
    if |p.small| + 1 > Target(p) then |p.small| + 1 - Target(p) else 0
  }

  /** id stands at place m of main and has not been referenced. */
  predicate InMainAt(p: S3, id: Id, m: nat) {
    m < |p.main| && p.main[m] == id && id in p.nodes && p.nodes[id].freq == 0
  }

  /** Everything shed before id's turn has been referenced. */
  predicate AllBeforeReferenced(p: S3, m: nat)
    requires m <= |p.main| && Excess(p) <= |p.small|
  {
    Referenced(p, p.small[..Excess(p)]) && Referenced(p, p.main[..m])
  }

  /** After a promotion or a decay the same ids are still to be shed before id. */
  lemma PromotionKeepsPlace(p: S3, q: S3, id: Id, m: nat)
    requires Promoted(p, q) && InMainAt(p, id, m) && FromSmall(p)
    ensures InMainAt(q, id, m) && Excess(p) <= |p.small| && Excess(q) <= |q.small|
    ensures AllBeforeReferenced(q, m) <==> AllBeforeReferenced(p, m)
  {
    assert Excess(p) == Excess(q) + 1;
    var rest := q.small[..Excess(q)];
    assert p.small[..Excess(p)] == [p.small[0]] + rest && q.main[..m] == p.main[..m];
    OneMoreReferenced(p, p.small[0], rest);
    SameReferences(p, q, rest);
    SameReferences(p, q, p.main[..m]);
  }

  lemma DecayKeepsPlace(p: S3, q: S3, id: Id, m: nat)
    requires Decayed(p, q) && Distinct(p.main) && InMainAt(p, id, m) && !FromSmall(p)
    ensures m > 0 && InMainAt(q, id, m - 1) && Excess(p) == 0 && Excess(q) == 0
    ensures AllBeforeReferenced(q, m - 1) <==> AllBeforeReferenced(p, m)
  {
    Headless(p.main);
    var rest := p.main[1..m];
    assert p.main[..m] == [p.main[0]] + rest && q.main[..m - 1] == rest;
    NotInSlice(p.main[1..], m - 1, p.main[0]);
    assert p.main[1..][..m - 1] == rest;
    OneMoreReferenced(p, p.main[0], rest);
    SameReferences(p, q, rest);
  }

  lemma NotInSlice(s: seq<Id>, n: nat, x: Id)
    requires n <= |s| && x !in s
    ensures x !in s[..n]
  {
  }

  lemma EvictionAtPlace(p: S3, id: Id, m: nat)
    requires Valid(p) && p.nodes != map[] && InMainAt(p, id, m) && Pop(p).evicted.Some?
    ensures Excess(p) <= |p.small|
    ensures Pop(p).evicted == Some(id) <==> AllBeforeReferenced(p, m)
  {
    NotEmpty(p);
    if FromSmall(p) {
      assert Excess(p) > 0 && p.small[0] in p.small[..Excess(p)];
      assert p.small[0] !in p.main;
    } else if m > 0 {
      assert p.main[0] in p.main[..m] && p.main[0] != p.main[m];
    }
  }

  /** A pop that evicts nothing brings id's turn nearer and spares it no one. */
  lemma PlaceKept(p: S3, id: Id, m: nat) returns (m': nat)
    requires Valid(p) && p.nodes != map[] && InMainAt(p, id, m) && Pop(p).evicted.None?
    ensures Excess(p) <= |p.small| && InMainAt(Pop(p).policy, id, m') && Excess(Pop(p).policy) <= |Pop(p).policy.small|
    ensures AllBeforeReferenced(Pop(p).policy, m') <==> AllBeforeReferenced(p, m)
  {
    PopMoves(p);
    if FromSmall(p) {
      m' := m;
      PromotionKeepsPlace(p, Pop(p).policy, id, m);
    } else {
      DecayKeepsPlace(p, Pop(p).policy, id, m);
      m' := m - 1;
    }
  }

  lemma {:induction false} InMainFalls(p: S3, id: Id, m: nat)
    requires Valid(p) && p.nodes != map[] && InMainAt(p, id, m)
    ensures Excess(p) <= |p.small|
    ensures Victim(p).evicted == Some(id) <==> AllBeforeReferenced(p, m)
    decreases Weight(p)
  {
    VictimStep(p);
    if Pop(p).evicted.Some? {
      EvictionAtPlace(p, id, m);
    } else {
      var m' := PlaceKept(p, id, m);
      InMainFalls(Pop(p).policy, id, m');
    }
  }

  /** An id that comes back while still a ghost is the very next victim if and only if
      every id in main has been referenced, and so have those of small that exceed
      its share of all residents, the newcomer included. */
  lemma ReturningGhostFalls(p: S3, id: Id)
    requires Valid(p) && id in p.ghosts
    ensures Valid(Add(p, id)) && Add(p, id).nodes != map[]
    ensures var t := Max(1, (Size(p) + 1) / 10);
            var excess := Max(0, |p.small| - t + 1);
            excess <= |p.small|
            && (Victim(Add(p, id)).evicted == Some(id) <==> Referenced(p, p.small[..excess]) && Referenced(p, p.main))
  {
    AddValid(p, id);
    GhostJoins(p, id);
    InMainFalls(Add(p, id), id, |p.main|);
  }

  lemma GhostJoins(p: S3, id: Id)
    requires Valid(p) && id in p.ghosts
    ensures var q := Add(p, id);
            && q.nodes != map[] && InMainAt(q, id, |p.main|) && Excess(q) <= |q.small| && q.small == p.small
            && Excess(q) == Max(0, |p.small| - Max(1, (Size(p) + 1) / 10) + 1)
            && (AllBeforeReferenced(q, |p.main|) <==> Referenced(p, p.small[..Excess(q)]) && Referenced(p, p.main))
  {
    var q := Add(p, id);
    assert id in q.nodes && q.main[..|p.main|] == p.main;
    OldReferences(p, q, p.main);
    OldReferences(p, q, p.small[..Excess(q)]);
  }

  lemma OldReferences(p: S3, q: S3, ids: seq<Id>)
    requires forall x <- ids :: x in p.nodes && x in q.nodes && q.nodes[x] == p.nodes[x]
    ensures Referenced(q, ids) <==> Referenced(p, ids)
  {
  }
}
