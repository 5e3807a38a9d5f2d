/** The admission controller (internal/admission/controller.go): weighted shares of
    a global cap on work in flight, and tickets that give slots back. */
module Admission {
  import opened Util

  type Tenant = string

  datatype State = State(
    cap: int,
    weights: map<Tenant, nat>,
    totalWeight: int,
    inflight: map<Tenant, nat>,
    total: int)

  /** A tenant's reserved slice of the cap, at least one slot. */
  function Share(cap: int, weight: nat, totalWeight: int): int {
    if totalWeight == 0 then cap else
      var s := cap * weight / totalWeight;
      if s < 1 then 1 else s
  }

  datatype Verdict = Admitted | NoClass | AtShare | AtCap

  function Load(s: State, t: Tenant): nat { if t in s.inflight then s.inflight[t] else 0 }

  function Judge(s: State, t: Tenant): Verdict {
    if t !in s.weights then NoClass
    else if Load(s, t) + 1 > Share(s.cap, s.weights[t], s.totalWeight) then AtShare
    else if s.total + 1 > s.cap then AtCap
    else Admitted
  }

  function Admit(s: State, t: Tenant): State {
    if Judge(s, t).Admitted? then s.(inflight := s.inflight[t := Load(s, t) + 1], total := s.total + 1) else s
  }

  function Release(s: State, t: Tenant): State {
    if Load(s, t) > 0 then s.(inflight := s.inflight[t := (Load(s, t) - 1) as nat], total := s.total - 1) else s
  }

  function Clamped(weight: int): nat { if weight < 1 then 1 else weight }

  function SetClass(s: State, t: Tenant, weight: int): State {
    var w := Clamped(weight);
    s.(totalWeight := s.totalWeight - (if t in s.weights then s.weights[t] else 0) + w, weights := s.weights[t := w])
  }

  /** The counters add up, weights are positive and the cap is kept. */
  ghost predicate Valid(s: State) {
    && s.cap >= 1 && s.total == Total(s.inflight) <= s.cap
    && s.totalWeight == Total(s.weights) && forall t <- s.weights :: s.weights[t] >= 1
  }

  lemma AdmitValid(s: State, t: Tenant)
    requires Valid(s)
    ensures Valid(Admit(s, t))
  {
    TotalUpdate(s.inflight, t, Load(s, t) + 1);
  }

  lemma ReleaseValid(s: State, t: Tenant)
    requires Valid(s)
    ensures Valid(Release(s, t))
  {
    if Load(s, t) > 0 { TotalUpdate(s.inflight, t, Load(s, t) - 1); }
  }

  lemma SetClassValid(s: State, t: Tenant, weight: int)
    requires Valid(s)
    ensures Valid(SetClass(s, t, weight))
  {
    TotalUpdate(s.weights, t, Clamped(weight));
  }

  class Ticket {
    const tenant: Tenant
    var released: bool

    constructor (tenant: Tenant)
      ensures this.tenant == tenant && !released
    {
      this.tenant := tenant;
      released := false;
    }
  }

  class Controller {
    const maxInFlight: int
    var classes: map<Tenant, nat>
    var totalWeight: int
    var inflight: map<Tenant, nat>
    var total: int
    var admitted: nat
    var rejected: nat

    ghost function Contents(): State
      reads this
    {
      State(maxInFlight, classes, totalWeight, inflight, total)
    }

    constructor (maxInFlight: int)
      ensures Valid(Contents()) && Contents() == State(Max(1, maxInFlight), map[], 0, map[], 0)
      ensures admitted == 0 && rejected == 0
    {
      this.maxInFlight := if maxInFlight < 1 then 1 else maxInFlight;
      classes, totalWeight, inflight, total, admitted, rejected := map[], 0, map[], 0, 0, 0;
    }

    method SetClassOf(tenant: Tenant, weight: int)
      requires Valid(Contents())
      modifies this`classes, this`totalWeight
      ensures Valid(Contents()) && Contents() == SetClass(old(Contents()), tenant, weight)
      ensures classes == old(classes)[tenant := Max(1, weight)]
    {
      SetClassValid(Contents(), tenant, weight);
      var w := if weight < 1 then 1 else weight;
      if tenant in classes { totalWeight := totalWeight - classes[tenant]; }
      classes, totalWeight := classes[tenant := w], totalWeight + w;
    }

    method AdmitOne(tenant: Tenant) returns (ticket: Option<Ticket>)
      requires Valid(Contents())
      modifies this
      ensures Valid(Contents()) && Contents() == Admit(old(Contents()), tenant)
      ensures ticket.Some? <==> Judge(old(Contents()), tenant).Admitted?
      ensures ticket.Some? ==> fresh(ticket.value) && ticket.value.tenant == tenant && !ticket.value.released
      ensures admitted == old(admitted) + (if ticket.Some? then 1 else 0)
      ensures rejected == old(rejected) + (if ticket.Some? then 0 else 1)
    {
      AdmitValid(Contents(), tenant);
      if tenant !in classes {
        rejected := rejected + 1;
        return None;
      }
      var load := if tenant in inflight then inflight[tenant] else 0;
      if load + 1 > Share(maxInFlight, classes[tenant], totalWeight) || total + 1 > maxInFlight {
        rejected := rejected + 1;
        return None;
      }
      inflight, total, admitted := inflight[tenant := load + 1], total + 1, admitted + 1;
      var t := new Ticket(tenant);
      return Some(t);
    }

    /** Only the first release of a ticket counts. */
    method ReleaseTicket(ticket: Ticket)
      requires Valid(Contents())
      modifies this`inflight, this`total, ticket
      ensures Valid(Contents()) && ticket.released
      ensures Contents() == if old(ticket.released) then old(Contents()) else Release(old(Contents()), ticket.tenant)
    {
      if ticket.released { return; }
      ReleaseValid(Contents(), ticket.tenant);
      ticket.released := true;
      var load := if ticket.tenant in inflight then inflight[ticket.tenant] else 0;
      if load > 0 { inflight, total := inflight[ticket.tenant := load - 1], total - 1; }
    }
  }

  /******* Runs with tickets *******/

  datatype Held = Held(tenant: Tenant, released: bool)

  /** The controller and every ticket it has issued. */
  datatype World = World(s: State, tickets: seq<Held>)

  datatype Op = Configure(t: Tenant, weight: int) | Ask(t: Tenant) | GiveBack(k: nat)

  predicate Enabled(w: World, op: Op) { op.GiveBack? ==> op.k < |w.tickets| }

  function Apply(w: World, op: Op): World
    requires Enabled(w, op)
  {
    match op
    case Configure(t, weight) => w.(s := SetClass(w.s, t, weight))
    case Ask(t) =>
      World(Admit(w.s, t), if Judge(w.s, t).Admitted? then w.tickets + [Held(t, false)] else w.tickets)
    case GiveBack(k) =>
      if w.tickets[k].released then w
      else World(Release(w.s, w.tickets[k].tenant), w.tickets[k := w.tickets[k].(released := true)])
  }

  function Open(h: Held): nat { if h.released then 0 else 1 }

  function OpenOf(tickets: seq<Held>, t: Tenant): nat {
    if tickets == [] then 0 else
      var last := tickets[|tickets| - 1];
      OpenOf(tickets[..|tickets| - 1], t) + if last.tenant == t then Open(last) else 0
  }

  function OpenAll(tickets: seq<Held>): nat {
    if tickets == [] then 0 else OpenAll(tickets[..|tickets| - 1]) + Open(tickets[|tickets| - 1])
  }

  lemma {:induction false} ReleasedCounts(tickets: seq<Held>, k: nat, t: Tenant)
    requires k < |tickets| && !tickets[k].released
    ensures var after := tickets[k := tickets[k].(released := true)];
            && OpenAll(after) == OpenAll(tickets) - 1
            && OpenOf(after, t) == OpenOf(tickets, t) - if tickets[k].tenant == t then 1 else 0
  {
    var n := |tickets| - 1;
    var after := tickets[k := tickets[k].(released := true)];
    if k < n {
      ReleasedCounts(tickets[..n], k, t);
      assert after[..n] == tickets[..n][k := tickets[k].(released := true)];
    } else {
      assert after[..n] == tickets[..n];
    }
  }

  lemma IssuedCounts(tickets: seq<Held>, h: Held, t: Tenant)
    ensures OpenAll(tickets + [h]) == OpenAll(tickets) + Open(h)
    ensures OpenOf(tickets + [h], t) == OpenOf(tickets, t) + if h.tenant == t then Open(h) else 0
  {
    assert (tickets + [h])[..|tickets|] == tickets;
  }

  ghost predicate Balanced(w: World) {
    Valid(w.s) && w.s.total == OpenAll(w.tickets) && forall t {:trigger Load(w.s, t)} :: Load(w.s, t) == OpenOf(w.tickets, t)
  }

  lemma StepKeepsBalance(w: World, op: Op)
    requires Balanced(w) && Enabled(w, op)
    ensures Balanced(Apply(w, op))
  {
    var w' := Apply(w, op);
    match op
    case Configure(t, weight) =>
      SetClassValid(w.s, t, weight);
      forall u ensures Load(w'.s, u) == OpenOf(w'.tickets, u) { assert Load(w.s, u) == OpenOf(w.tickets, u); }
    case Ask(t) => AskKeepsBalance(w, t);
    case GiveBack(k) =>
      if !w.tickets[k].released { GiveBackKeepsBalance(w, k); }
  }

  lemma AskKeepsBalance(w: World, t: Tenant)
    requires Balanced(w)
    ensures Balanced(Apply(w, Ask(t)))
  {
    var w' := Apply(w, Ask(t));
    AdmitValid(w.s, t);
    forall u ensures Load(w'.s, u) == OpenOf(w'.tickets, u) {
      assert Load(w.s, u) == OpenOf(w.tickets, u);
      IssuedCounts(w.tickets, Held(t, false), u);
    }
    IssuedCounts(w.tickets, Held(t, false), t);
  }

  lemma GiveBackKeepsBalance(w: World, k: nat)
    requires Balanced(w) && k < |w.tickets| && !w.tickets[k].released
    ensures Balanced(Apply(w, GiveBack(k)))
  {
    var w', t := Apply(w, GiveBack(k)), w.tickets[k].tenant;
    ReleaseValid(w.s, t);
    OpenCounts(w.tickets, k);
    ReleasedCounts(w.tickets, k, t);
    assert Load(w.s, t) == OpenOf(w.tickets, t);
    forall u ensures Load(w'.s, u) == OpenOf(w'.tickets, u) {
      assert Load(w.s, u) == OpenOf(w.tickets, u);
      ReleasedCounts(w.tickets, k, u);
    }
  }

  lemma {:induction false} OpenCounts(tickets: seq<Held>, k: nat)
    requires k < |tickets| && !tickets[k].released
    ensures OpenOf(tickets, tickets[k].tenant) > 0
  {
    if k < |tickets| - 1 { OpenCounts(tickets[..|tickets| - 1], k); }
  }

  ghost predicate Run(ws: seq<World>, ops: seq<Op>, cap: int) {
    && |ws| == |ops| + 1 && ws[0] == World(State(Max(1, cap), map[], 0, map[], 0), [])
    && forall i :: 0 <= i < |ops| ==> Enabled(ws[i], ops[i]) && ws[i + 1] == Apply(ws[i], ops[i])
  }

  /** In every run the slots in use, in all and per tenant, are exactly the tickets
      not yet released, and never more than the cap. */
  lemma {:induction false} SlotsAreTickets(ws: seq<World>, ops: seq<Op>, cap: int, i: nat)
    requires Run(ws, ops, cap) && i < |ws|
    ensures Balanced(ws[i]) && ws[i].s.cap == Max(1, cap)
    ensures OpenAll(ws[i].tickets) == Total(ws[i].s.inflight) <= Max(1, cap)
  {
    if i > 0 {
      SlotsAreTickets(ws, ops, cap, i - 1);
      StepKeepsBalance(ws[i - 1], ops[i - 1]);
    }
  }

  /** The weight the tenant was given last. */
  function LastWeight(ops: seq<Op>, t: Tenant): Option<int> {
    if ops == [] then None else
      var last := ops[|ops| - 1];
      if last.Configure? && last.t == t then Some(last.weight) else LastWeight(ops[..|ops| - 1], t)
  }

  /** In every run a tenant has a class if and only if it was given one, with the weight
      it was given last, or one if that is less. */
  lemma {:induction false} WeightsAsSet(ws: seq<World>, ops: seq<Op>, cap: int, i: nat, t: Tenant)
    requires Run(ws, ops, cap) && i < |ws|
    ensures t in ws[i].s.weights <==> LastWeight(ops[..i], t).Some?
    ensures t in ws[i].s.weights ==> ws[i].s.weights[t] == Max(1, LastWeight(ops[..i], t).value)
  {
    if i > 0 {
      WeightsAsSet(ws, ops, cap, i - 1, t);
      assert ops[..i][..i - 1] == ops[..i - 1];
      assert Enabled(ws[i - 1], ops[i - 1]) && ws[i] == Apply(ws[i - 1], ops[i - 1]);
    }
  }

  /******* Do the shares fit under the cap? *******/

  function Shares(cap: int, weights: map<Tenant, nat>, w: int): map<Tenant, nat>
    requires cap >= 1
  {
    map t <- weights :: ShareNat(cap, weights[t], w)
  }

  function ShareNat(cap: int, weight: nat, w: int): nat
    requires cap >= 1
  {
    var s := Share(cap, weight, w);
    if s < 0 then 0 else s
  }

  /** What the division drops. */
  function Dropped(cap: int, weights: map<Tenant, nat>, w: int): map<Tenant, nat>
    requires cap >= 1 && w > 0
  {
    map t <- weights :: (cap * weights[t]) % w
  }

  /** Tenants whose proportional slice is less than one slot. */
  function Starved(cap: int, weights: map<Tenant, nat>, w: int): set<Tenant> {
    set t <- weights | cap * weights[t] < w
  }

  /** A tenant's slice in proportion to its weight, rounded down, or one slot where that
      is none. */
  lemma OneShare(cap: int, weight: nat, w: int)
    requires cap >= 1 && w > 0
    ensures w * ShareNat(cap, weight, w) + (cap * weight) % w == cap * weight + if cap * weight < w then w else 0
    ensures ShareNat(cap, weight, w) == Share(cap, weight, w) >= 1
  {
    var q := cap * weight / w;
    assert cap * weight == w * q + (cap * weight) % w;
    assert 0 <= cap * weight;
    assert q >= 1 ==> w * q >= w;
    assert q <= 0 ==> w * q <= 0;
    assert q <= -1 ==> w * q <= -w;
  }

  /** Shares and drops account for the cap, and for the slots given on top of it. */
  predicate AddsUp(cap: int, w: int, weights: int, shares: int, drops: int, starved: int) {
    w * shares + drops == cap * weights + w * starved
  }

  ghost predicate SharesAddUp(cap: int, weights: map<Tenant, nat>, w: int)
    requires cap >= 1 && w > 0
  {
    AddsUp(cap, w, Total(weights), Total(Shares(cap, weights, w)), Total(Dropped(cap, weights, w)),
           |Starved(cap, weights, w)|)
  }

  /** The exact sum of the shares, over any set of tenants. */
  lemma {:induction false} ShareSum(cap: int, weights: map<Tenant, nat>, w: int)
    requires cap >= 1 && w > 0
    ensures SharesAddUp(cap, weights, w)
    decreases weights
  {
    if weights == map[] {
      NoShares(cap, w);
    } else {
      var t :| t in weights;
      ShareSum(cap, weights - {t}, w);
      OneMoreShare(cap, weights, w, t);
    }
  }

  lemma NoShares(cap: int, w: int)
    requires cap >= 1 && w > 0
    ensures SharesAddUp(cap, map[], w)
  {
    assert Shares(cap, map[], w) == map[] && Dropped(cap, map[], w) == map[] && Starved(cap, map[], w) == {};
  }

  lemma OneMoreShare(cap: int, weights: map<Tenant, nat>, w: int, t: Tenant)
    requires cap >= 1 && w > 0 && t in weights && SharesAddUp(cap, weights - {t}, w)
    ensures SharesAddUp(cap, weights, w)
  {
    var rest := weights - {t};
    ShareParts(cap, weights, w, t);
    AddUp(cap, w, weights[t], Total(rest), Total(Shares(cap, rest, w)), Total(Dropped(cap, rest, w)), |Starved(cap, rest, w)|);
  }

  lemma ShareParts(cap: int, weights: map<Tenant, nat>, w: int, t: Tenant)
    requires cap >= 1 && w > 0 && t in weights
    ensures var rest := weights - {t};
            && Total(weights) == weights[t] + Total(rest)
            && Total(Shares(cap, weights, w)) == ShareNat(cap, weights[t], w) + Total(Shares(cap, rest, w))
            && Total(Dropped(cap, weights, w)) == (cap * weights[t]) % w + Total(Dropped(cap, rest, w))
            && |Starved(cap, weights, w)| == |Starved(cap, rest, w)| + if cap * weights[t] < w then 1 else 0
  {
    var rest := weights - {t};
    TotalWithout(weights, t);
    TotalWithout(Shares(cap, weights, w), t);
    TotalWithout(Dropped(cap, weights, w), t);
    assert Shares(cap, weights, w) - {t} == Shares(cap, rest, w);
    assert Dropped(cap, weights, w) - {t} == Dropped(cap, rest, w);
    StarvedOneMore(cap, weights, w, t);
  }

  lemma StarvedOneMore(cap: int, weights: map<Tenant, nat>, w: int, t: Tenant)
    requires t in weights
    ensures |Starved(cap, weights, w)| == |Starved(cap, weights - {t}, w)| + if cap * weights[t] < w then 1 else 0
  {
    var before := Starved(cap, weights - {t}, w);
    assert Starved(cap, weights, w) == if cap * weights[t] < w then before + {t} else before;
  }

  lemma AddUp(cap: int, w: int, weight: nat, weights: int, shares: int, drops: int, starved: int)
    requires cap >= 1 && w > 0 && AddsUp(cap, w, weights, shares, drops, starved)
    ensures AddsUp(cap, w, weight + weights, ShareNat(cap, weight, w) + shares, (cap * weight) % w + drops,
                   starved + if cap * weight < w then 1 else 0)
  {
    OneShare(cap, weight, w);
    var share, one := ShareNat(cap, weight, w), if cap * weight < w then 1 else 0;
    Distribute(cap, weight, weights);
    Distribute(w, share, shares);
    Distribute(w, starved, one);
  }

  lemma Distribute(a: int, b: int, c: int)
    ensures a * (b + c) == a * b + a * c
  {
  }

  /** The shares fit under the cap exactly when what the division drops makes up for
      the slots given to tenants below one slot; so always when there is none. */
  lemma SharesFit(s: State)
    requires Valid(s) && s.weights != map[]
    ensures s.totalWeight > 0
    ensures var fit := Total(Shares(s.cap, s.weights, s.totalWeight)) <= s.cap;
            && (fit <==> s.totalWeight * |Starved(s.cap, s.weights, s.totalWeight)|
                         <= Total(Dropped(s.cap, s.weights, s.totalWeight)))
            && (Starved(s.cap, s.weights, s.totalWeight) == {} ==> fit)
  {
    var t :| t in s.weights;
    TotalWithout(s.weights, t);
    var w := s.totalWeight;
    ShareSum(s.cap, s.weights, w);
    Compare(w, Total(Shares(s.cap, s.weights, w)), s.cap);
  }

  lemma Compare(w: int, a: int, b: int)
    requires w > 0
    ensures w * a <= b * w <==> a <= b
  {
    if a <= b { assert w * a <= w * b; } else { assert w * a >= w * (b + 1); }
  }

  /** Every tenant is within its share. */
  ghost predicate WithinShares(s: State) {
    && s.inflight.Keys <= s.weights.Keys
    && forall t <- s.weights :: Load(s, t) <= Share(s.cap, s.weights[t], s.totalWeight)
  }

  lemma {:induction false} TotalBelow(a: map<Tenant, nat>, b: map<Tenant, nat>, t: Tenant)
    requires a.Keys <= b.Keys && (forall u <- a :: a[u] <= b[u]) && t in b && (if t in a then a[t] else 0) < b[t]
    ensures Total(a) < Total(b)
    decreases b
  {
    TotalWithout(b, t);
    if t in a { TotalWithout(a, t); } else { assert a - {t} == a; }
    TotalAtMost(a - {t}, b - {t});
  }

  lemma {:induction false} TotalAtMost(a: map<Tenant, nat>, b: map<Tenant, nat>)
    requires a.Keys <= b.Keys && forall u <- a :: a[u] <= b[u]
    ensures Total(a) <= Total(b)
    decreases a
  {
    if a != map[] {
      var t :| t in a;
      TotalWithout(a, t);
      TotalWithout(b, t);
      TotalAtMost(a - {t}, b - {t});
    }
  }

  /** While everyone is within its share and the shares fit, the cap refuses nobody:
      a tenant is admitted exactly when it is below its own share. */
  lemma CapNeverBites(s: State, t: Tenant)
    requires Valid(s) && WithinShares(s) && t in s.weights
    requires s.totalWeight > 0 && Total(Shares(s.cap, s.weights, s.totalWeight)) <= s.cap
    ensures Judge(s, t).Admitted? <==> Load(s, t) < Share(s.cap, s.weights[t], s.totalWeight)
    ensures WithinShares(Admit(s, t)) && WithinShares(Release(s, t))
  {
    var shares := Shares(s.cap, s.weights, s.totalWeight);
    forall u <- s.weights ensures shares[u] == Share(s.cap, s.weights[u], s.totalWeight) {
      OneShare(s.cap, s.weights[u], s.totalWeight);
    }
    if Load(s, t) < shares[t] { TotalBelow(s.inflight, shares, t); }
  }

  /** A load within limits that adds up to n. */
  lemma {:induction false} FillUp(limits: map<Tenant, nat>, n: nat) returns (load: map<Tenant, nat>)
    requires n <= Total(limits)
    ensures load.Keys == limits.Keys && (forall t <- limits :: load[t] <= limits[t]) && Total(load) == n
    decreases limits
  {
    if limits == map[] {
      load := map[];
    } else {
      var t :| t in limits;
      TotalWithout(limits, t);
      var here := if limits[t] < n then limits[t] else n;
      load := FillUp(limits - {t}, n - here);
      TotalUpdate(load, t, here);
      load := load[t := here];
    }
  }

  /** When they do not fit, there is a load within all shares under which a tenant
      below its share is refused by the cap. */
  lemma CapBites(s: State) returns (full: State, t: Tenant)
    requires Valid(s) && s.totalWeight > 0 && Total(Shares(s.cap, s.weights, s.totalWeight)) > s.cap
    ensures full == s.(inflight := full.inflight, total := full.total) && Valid(full) && WithinShares(full)
    ensures Judge(full, t).AtCap?
  {
    var shares := Shares(s.cap, s.weights, s.totalWeight);
    forall u <- s.weights ensures shares[u] == Share(s.cap, s.weights[u], s.totalWeight) {
      OneShare(s.cap, s.weights[u], s.totalWeight);
    }
    var load := FillUp(shares, s.cap);
    full := s.(inflight := load, total := s.cap);
    if forall u <- shares :: load[u] >= shares[u] {
      TotalAtMost(shares, load);
    }
    t :| t in shares && load[t] < shares[t];
  }

  /******* The same over runs *******/

  /** The first m operations set classes, the later ones ask and give back. */
  ghost predicate Settled(ops: seq<Op>, m: nat) {
    m <= |ops| && forall i :: 0 <= i < |ops| ==> (ops[i].Configure? <==> i < m)
  }

  predicate SameClasses(s: State, s': State) {
    s'.cap == s.cap && s'.weights == s.weights && s'.totalWeight == s.totalWeight
  }

  lemma {:induction false} NothingInUse(ws: seq<World>, ops: seq<Op>, cap: int, m: nat, i: nat)
    requires Run(ws, ops, cap) && Settled(ops, m) && i <= m
    ensures ws[i].s.inflight == map[] && ws[i].s.total == 0 && ws[i].tickets == []
  {
    if i > 0 { NothingInUse(ws, ops, cap, m, i - 1); }
  }

  lemma {:induction false} ClassesStay(ws: seq<World>, ops: seq<Op>, cap: int, m: nat, i: nat)
    requires Run(ws, ops, cap) && Settled(ops, m) && m <= i < |ws|
    ensures SameClasses(ws[m].s, ws[i].s)
  {
    if i > m { ClassesStay(ws, ops, cap, m, i - 1); }
  }

  lemma AskKeepsShares(s: State, t: Tenant)
    requires WithinShares(s)
    ensures WithinShares(Admit(s, t))
  {
    var s' := Admit(s, t);
    forall u <- s'.weights ensures Load(s', u) <= Share(s'.cap, s'.weights[u], s'.totalWeight) {
      assert Load(s, u) <= Share(s.cap, s.weights[u], s.totalWeight);
    }
  }

  lemma ReleaseKeepsShares(s: State, t: Tenant)
    requires WithinShares(s)
    ensures WithinShares(Release(s, t))
  {
    var s' := Release(s, t);
    forall u <- s'.weights ensures Load(s', u) <= Share(s'.cap, s'.weights[u], s'.totalWeight) {
      assert Load(s, u) <= Share(s.cap, s.weights[u], s.totalWeight);
    }
  }

  lemma NobodyOverShare(s: State)
    requires Valid(s) && s.inflight == map[]
    ensures WithinShares(s)
  {
    forall t <- s.weights ensures Load(s, t) <= Share(s.cap, s.weights[t], s.totalWeight) {
      TotalWithout(s.weights, t);
      OneShare(s.cap, s.weights[t], s.totalWeight);
    }
  }

  /** Once classes are fixed everyone stays within its share, whether they fit or not. */
  lemma {:induction false} SharesAreKept(ws: seq<World>, ops: seq<Op>, cap: int, m: nat, i: nat)
    requires Run(ws, ops, cap) && Settled(ops, m) && m <= i < |ws|
    ensures WithinShares(ws[i].s)
  {
    if i == m {
      SlotsAreTickets(ws, ops, cap, m);
      NothingInUse(ws, ops, cap, m, m);
      NobodyOverShare(ws[m].s);
    } else {
      SharesAreKept(ws, ops, cap, m, i - 1);
      var w, op := ws[i - 1], ops[i - 1];
      if op.Ask? { AskKeepsShares(w.s, op.t); } else { ReleaseKeepsShares(w.s, w.tickets[op.k].tenant); }
    }
  }

  /** In every run after whose start the classes stay fixed, when their shares fit the
      cap refuses nobody: a tenant is admitted exactly when below its share. */
  lemma RunCapNeverBites(ws: seq<World>, ops: seq<Op>, cap: int, m: nat, i: nat, t: Tenant)
    requires Run(ws, ops, cap) && Settled(ops, m) && m <= i < |ws| && t in ws[m].s.weights
    requires ws[m].s.cap >= 1 && Total(Shares(ws[m].s.cap, ws[m].s.weights, ws[m].s.totalWeight)) <= ws[m].s.cap
    ensures t in ws[i].s.weights
    ensures Judge(ws[i].s, t).Admitted? <==> Load(ws[i].s, t) < Share(ws[i].s.cap, ws[i].s.weights[t], ws[i].s.totalWeight)
  {
    SlotsAreTickets(ws, ops, cap, i);
    ClassesStay(ws, ops, cap, m, i);
    SharesAreKept(ws, ops, cap, m, i);
    TotalWithout(ws[i].s.weights, t);
    CapNeverBites(ws[i].s, t);
  }

  /** How far a load is from the one wanted. */
  ghost predicate Towards(s: State, load: map<Tenant, nat>) {
    && s.weights.Keys == load.Keys && s.inflight.Keys <= load.Keys && Total(load) <= s.cap
    && forall t <- load :: Load(s, t) <= load[t] <= Share(s.cap, s.weights[t], s.totalWeight)
  }

  lemma AskAdmitted(s: State, load: map<Tenant, nat>, t: Tenant)
    requires Valid(s) && Towards(s, load) && t in load && Load(s, t) < load[t]
    ensures Judge(s, t).Admitted? && Towards(Admit(s, t), load) && Admit(s, t).total == s.total + 1
    ensures SameClasses(s, Admit(s, t))
  {
    forall u <- s.inflight ensures s.inflight[u] <= load[u] { assert Load(s, u) <= load[u]; }
    TotalBelow(s.inflight, load, t);
    var s' := Admit(s, t);
    forall u <- load ensures Load(s', u) <= load[u] <= Share(s'.cap, s'.weights[u], s'.totalWeight) {
      assert Load(s, u) <= load[u];
    }
  }

  lemma OneMoreOp(ws: seq<World>, ops: seq<Op>, cap: int, op: Op)
    requires Run(ws, ops, cap) && Enabled(ws[|ws| - 1], op)
    ensures Run(ws + [Apply(ws[|ws| - 1], op)], ops + [op], cap)
  {
  }

  /** Asking reaches every load within shares and cap. */
  lemma {:induction false} LoadReached(ws: seq<World>, ops: seq<Op>, cap: int, load: map<Tenant, nat>)
    returns (ws': seq<World>, ops': seq<Op>)
    requires Run(ws, ops, cap) && Towards(ws[|ws| - 1].s, load)
    ensures Run(ws', ops', cap) && Towards(ws'[|ws'| - 1].s, load) && SameClasses(ws[|ws| - 1].s, ws'[|ws'| - 1].s)
    ensures forall t <- load :: Load(ws'[|ws'| - 1].s, t) == load[t]
    decreases Max(1, cap) - ws[|ws| - 1].s.total
  {
    var w := ws[|ws| - 1];
    SlotsAreTickets(ws, ops, cap, |ws| - 1);
    if t :| t in load && Load(w.s, t) < load[t] {
      AskAdmitted(w.s, load, t);
      OneMoreOp(ws, ops, cap, Ask(t));
      var next := Apply(w, Ask(t));
      SlotsAreTickets(ws + [next], ops + [Ask(t)], cap, |ws|);
      ws', ops' := LoadReached(ws + [next], ops + [Ask(t)], cap, load);
    } else {
      ws', ops' := ws, ops;
    }
  }

  /** When the shares do not fit, every run that has set the classes goes on to a state
      in which everyone is within its share and the cap refuses a tenant below it. */
  lemma RunCapBites(ws: seq<World>, ops: seq<Op>, cap: int) returns (ws': seq<World>, ops': seq<Op>, t: Tenant)
    requires Run(ws, ops, cap) && Settled(ops, |ops|)
    requires ws[|ops|].s.totalWeight > 0 && ws[|ops|].s.cap >= 1
    requires Total(Shares(ws[|ops|].s.cap, ws[|ops|].s.weights, ws[|ops|].s.totalWeight)) > ws[|ops|].s.cap
    ensures Run(ws', ops', cap) && SameClasses(ws[|ops|].s, ws'[|ws'| - 1].s)
    ensures WithinShares(ws'[|ws'| - 1].s) && Judge(ws'[|ws'| - 1].s, t).AtCap?
  {
    var s := ws[|ops|].s;
    SlotsAreTickets(ws, ops, cap, |ops|);
    NothingInUse(ws, ops, cap, |ops|, |ops|);
    var shares := Shares(s.cap, s.weights, s.totalWeight);
    forall u <- s.weights ensures shares[u] == Share(s.cap, s.weights[u], s.totalWeight) {
      OneShare(s.cap, s.weights[u], s.totalWeight);
    }
    var load := FillUp(shares, s.cap);
    ws', ops' := LoadReached(ws, ops, cap, load);
    var end := ws'[|ws'| - 1].s;
    SlotsAreTickets(ws', ops', cap, |ws'| - 1);
    LoadedTotal(end, load);
    t := RoomLeft(shares, load);
  }

  lemma LoadedTotal(s: State, load: map<Tenant, nat>)
    requires Valid(s) && Towards(s, load) && forall t <- load :: Load(s, t) == load[t]
    ensures s.total == Total(load)
  {
    forall u <- s.inflight ensures s.inflight[u] <= load[u] { assert Load(s, u) == load[u]; }
    TotalAtMost(s.inflight, load);
    NonzeroTotal(load, s.inflight);
  }

  lemma {:induction false} NonzeroTotal(a: map<Tenant, nat>, b: map<Tenant, nat>)
    requires forall t <- a :: a[t] > 0 ==> t in b && a[t] <= b[t]
    ensures Total(a) <= Total(b)
    decreases a
  {
    if a != map[] {
      var t :| t in a;
      TotalWithout(a, t);
      if t in b {
        TotalWithout(b, t);
        NonzeroTotal(a - {t}, b - {t});
      } else {
        NonzeroTotal(a - {t}, b);
      }
    }
  }

  lemma RoomLeft(shares: map<Tenant, nat>, load: map<Tenant, nat>) returns (t: Tenant)
    requires load.Keys == shares.Keys && Total(load) < Total(shares)
    ensures t in shares && load[t] < shares[t]
  {
    if forall u <- shares :: load[u] >= shares[u] { TotalAtMost(shares, load); }
    t :| t in shares && load[t] < shares[t];
  }
}
