/** The cache's index (internal/cache/eviction.go) over any of its three eviction
    policies: admission, byte accounting and eviction down to the budget. */
module Cache {
  import opened Util
  import opened Lists
  import Lru
  import Clock
  import S3Fifo

  datatype Policy = LRU(order: seq<Id>) | CLOCK(clock: Clock.Clock) | S3FIFO(s3: S3Fifo.S3)

  ghost predicate Sane(p: Policy) {
    match p
    case LRU(order) => Distinct(order)
    case CLOCK(c) => Clock.Valid(c)
    case S3FIFO(s) => S3Fifo.Valid(s)
  }

  function Ids(p: Policy): set<Id> {
    match p
    case LRU(order) => Members(order)
    case CLOCK(c) => Clock.Ids(c)
    case S3FIFO(s) => s.nodes.Keys
  }

  function Len(p: Policy): nat {
    match p
    case LRU(order) => |order|
    case CLOCK(c) => |c.ring|
    case S3FIFO(s) => |s.nodes|
  }

  function Add(p: Policy, id: Id): Policy {
    match p
    case LRU(order) => LRU(Lru.Add(order, id))
    case CLOCK(c) => CLOCK(Clock.Add(c, id))
    case S3FIFO(s) => S3FIFO(S3Fifo.Add(s, id))
  }

  function Access(p: Policy, id: Id): Policy {
    match p
    case LRU(order) => LRU(Lru.Touch(order, id))
    case CLOCK(c) => CLOCK(Clock.Access(c, id))
    case S3FIFO(s) => S3FIFO(S3Fifo.Access(s, id))
  }

  datatype Choice = Choice(policy: Policy, id: Id)

  function Victim(p: Policy): Choice
    requires Sane(p) && Len(p) > 0
  {
    match p
    case LRU(order) => Choice(p, order[|order| - 1])
    case CLOCK(c) => var (c', id) := Clock.Victim(c); Choice(CLOCK(c'), id)
    case S3FIFO(s) => var r := S3Fifo.Victim(s); Choice(S3FIFO(r.policy), r.evicted.value)
  }

  function Remove(p: Policy, id: Id): Policy {
    match p
    case LRU(order) => LRU(Drop(order, id))
    case CLOCK(c) => CLOCK(Clock.Remove(c, id))
    case S3FIFO(s) => S3FIFO(S3Fifo.Remove(s, id))
  }

  /******* What the cache relies on, for each policy *******/

  lemma {:induction false} RingSize(ring: Clock.Ring)
    requires Clock.DistinctIds(ring)
    ensures |Clock.IdsOf(ring)| == |ring|
  {
    if ring != [] {
      var n := |ring| - 1;
      RingSize(ring[..n]);
      Clock.CutRing(ring, n);
      assert ring[..n] + ring[n + 1..] == ring[..n];
      assert ring[n] in ring;
    }
  }

  lemma LenIsCount(p: Policy)
    requires Sane(p)
    ensures Len(p) == |Ids(p)|
  {
    match p
    case LRU(order) => MemberCount(order);
    case CLOCK(c) => RingSize(c.ring);
    case S3FIFO(s) =>
  }

  lemma AddContract(p: Policy, id: Id)
    requires Sane(p)
    ensures Sane(Add(p, id)) && Ids(Add(p, id)) == Ids(p) + {id}
  {
    match p
    case LRU(order) => Lru.AddDistinct(order, id);
    case CLOCK(c) => Clock.AddValid(c, id);
    case S3FIFO(s) => S3Fifo.AddValid(s, id);
  }

  lemma AccessContract(p: Policy, id: Id)
    requires Sane(p)
    ensures Sane(Access(p, id)) && Ids(Access(p, id)) == Ids(p)
  {
    match p
    case LRU(order) => Lru.AddDistinct(order, id);
    case CLOCK(c) => Clock.AccessValid(c, id);
    case S3FIFO(s) => S3Fifo.AccessValid(s, id);
  }

  /** A request for a resident reaches its own policy: first in the recency list, marked in
      the ring, one reference more. */
  lemma RequestContract(p: Policy, id: Id)
    requires Sane(p) && id in Ids(p)
    ensures Add(p, id) == Access(p, id)
    ensures match p
            case LRU(order) => Access(p, id).LRU? && Access(p, id).order != [] && Access(p, id).order[0] == id
            case CLOCK(c) => Access(p, id).CLOCK? && Clock.MarkedIn(Access(p, id).clock, id) && Access(p, id).clock.hand == c.hand
            case S3FIFO(s) => Access(p, id).S3FIFO? && S3Fifo.Requested(s, id, Access(p, id).s3)
  {
    match p
    case LRU(order) =>
    case CLOCK(c) =>
      Clock.AccessFollows(c, id, id);
      Clock.EntryOf(c, id);
    case S3FIFO(s) => S3Fifo.BumpCounts(s, id);
  }

  lemma RemoveContract(p: Policy, id: Id)
    requires Sane(p)
    ensures Sane(Remove(p, id)) && Ids(Remove(p, id)) == Ids(p) - {id}
  {
    match p
    case LRU(order) => Lru.DropDistinct(order, id);
    case CLOCK(c) => Clock.RemoveValid(c, id);
    case S3FIFO(s) => S3Fifo.RemoveValid(s, id);
  }

  lemma VictimChosen(p: Policy)
    requires Sane(p) && Len(p) > 0
    ensures Sane(Victim(p).policy) && Victim(p).id in Ids(p)
    ensures Ids(Victim(p).policy) == if p.S3FIFO? then Ids(p) - {Victim(p).id} else Ids(p)
  {
    match p
    case LRU(order) =>
    case CLOCK(c) => Clock.VictimValid(c);
    case S3FIFO(s) =>
  }

  /** Each branch asks its own policy: the end of the recency list, the clock's sweep, the
      S3-FIFO reclamation. */
  lemma OwnVictim(p: Policy)
    requires Sane(p) && Len(p) > 0
    ensures match p
            case LRU(order) => Victim(p) == Choice(p, order[|order| - 1])
            case CLOCK(c) => Victim(p) == Choice(CLOCK(Clock.Victim(c).0), Clock.Victim(c).1)
            case S3FIFO(s) => S3Fifo.Victim(s) == S3Fifo.Popped(Victim(p).policy.s3, Some(Victim(p).id))
  {
  }

  /** The victim is a resident, and after it is removed exactly it is gone, whether
      the policy dropped it already (S3-FIFO) or not. */
  lemma VictimContract(p: Policy)
    requires Sane(p) && Len(p) > 0
    ensures Victim(p).id in Ids(p)
    ensures var q := Remove(Victim(p).policy, Victim(p).id);
            Sane(q) && Ids(q) == Ids(p) - {Victim(p).id}
  {
    VictimChosen(p);
    RemoveContract(Victim(p).policy, Victim(p).id);
  }

  /******* The index *******/

  datatype Index = Index(policy: Policy, objects: map<Id, nat>, used: int, budget: int)

  /** Policy and index name the same objects, and used is the sum of their sizes. */
  ghost predicate Valid(c: Index) {
    Sane(c.policy) && Ids(c.policy) == c.objects.Keys && c.used == Total(c.objects)
  }

  predicate Over(c: Index) { c.used > c.budget && Len(c.policy) > 1 }

  function EvictOne(c: Index): Index
    requires Sane(c.policy) && Len(c.policy) > 0 && Victim(c.policy).id in c.objects
  {
    var v := Victim(c.policy);
    Index(Remove(v.policy, v.id), c.objects - {v.id}, c.used - c.objects[v.id], c.budget)
  }

  lemma EvictOneValid(c: Index)
    requires Valid(c) && Len(c.policy) > 0
    ensures Victim(c.policy).id in c.objects && Valid(EvictOne(c))
    ensures |EvictOne(c).objects| == |c.objects| - 1
    ensures EvictOne(c).objects.Keys < c.objects.Keys
  {
    VictimContract(c.policy);
    var id := Victim(c.policy).id;
    TotalWithout(c.objects, id);
    assert |(c.objects - {id}).Keys| == |c.objects - {id}| && |c.objects.Keys| == |c.objects|;
    assert (c.objects - {id}).Keys == c.objects.Keys - {id};
  }

  function Evict(c: Index): (r: Index)
    requires Valid(c)
    ensures Valid(r) && r.budget == c.budget
    ensures r.used <= r.budget || |r.objects| <= 1
    ensures r.objects.Keys <= c.objects.Keys && forall id <- r.objects :: r.objects[id] == c.objects[id]
    ensures c.objects != map[] ==> r.objects != map[]
    decreases |c.objects|
  {
    LenIsCount(c.policy);
    assert |c.objects.Keys| == |c.objects|;
    if Over(c) then
      EvictOneValid(c);
      Evict(EvictOne(c))
    else c
  }

  lemma EvictStep(c: Index)
    requires Valid(c) && Over(c)
    ensures Victim(c.policy).id in c.objects && Valid(EvictOne(c)) && |EvictOne(c).objects| < |c.objects|
    ensures Evict(c) == Evict(EvictOne(c))
  {
    EvictOneValid(c);
  }

  /** A stored object joins the index, or its new size is reconciled. */
  function Joined(c: Index, id: Id, size: nat): Index {
    if id in c.objects
    then c.(used := c.used + size - c.objects[id], objects := c.objects[id := size], policy := Access(c.policy, id))
    else c.(objects := c.objects[id := size], policy := Add(c.policy, id), used := c.used + size)
  }

  lemma JoinedValid(c: Index, id: Id, size: nat)
    requires Valid(c)
    ensures Valid(Joined(c, id, size))
  {
    TotalUpdate(c.objects, id, size);
    AddContract(c.policy, id);
    AccessContract(c.policy, id);
  }

  function Admit(c: Index, id: Id, size: nat): (r: Index)
    requires Valid(c)
    ensures Valid(r) && (r.used <= r.budget || |r.objects| <= 1)
    ensures r.objects.Keys <= c.objects.Keys + {id}
  {
    JoinedValid(c, id, size);
    Evict(Joined(c, id, size))
  }

  /** The index over the objects found on disk, added oldest first. */
  function Adopted(p: Policy, budget: int, found: seq<(Id, nat)>): Index {
    if found == [] then Index(p, map[], 0, budget) else
      var last := found[|found| - 1];
      Joined(Adopted(p, budget, found[..|found| - 1]), last.0, last.1)
  }

  class Cache {
    var policy: Policy
    var objects: map<Id, nat>
    var curBytes: int
    const maxBytes: int

    ghost function Contents(): Index
      reads this
    {
      Index(policy, objects, curBytes, maxBytes)
    }

    /** Opens the cache over the objects left on disk, oldest first. */
    constructor (policy: Policy, maxBytes: int, found: seq<(Id, nat)>)
      requires maxBytes > 0 && Sane(policy) && Ids(policy) == {}
      requires forall i, j :: 0 <= i < j < |found| ==> found[i].0 != found[j].0
      ensures Valid(Adopted(policy, maxBytes, found)) && Contents() == Evict(Adopted(policy, maxBytes, found))
    {
      this.policy, this.objects, this.curBytes, this.maxBytes := policy, map[], 0, maxBytes;
      new;
      for i := 0 to |found|
        invariant Valid(Contents()) && this.maxBytes == maxBytes
        invariant Contents() == Adopted(policy, maxBytes, found[..i])
        invariant forall j :: i <= j < |found| ==> found[j].0 !in objects
      {
        assert found[..i + 1][..i] == found[..i];
        AdoptObject(found[i].0, found[i].1);
      }
      assert found[..|found|] == found;
      EvictLocked();
    }

    method AdoptObject(id: Id, size: nat)
      requires Valid(Contents()) && id !in objects
      modifies this
      ensures Valid(Contents()) && Contents() == Joined(old(Contents()), id, size)
      ensures objects.Keys == old(objects).Keys + {id}
    {
      JoinedValid(Contents(), id, size);
      objects, policy, curBytes := objects[id := size], Add(policy, id), curBytes + size;
    }

    method AdmitObject(id: Id, size: nat)
      requires Valid(Contents())
      modifies this
      ensures Valid(Contents()) && Contents() == Admit(old(Contents()), id, size)
    {
      JoinedValid(Contents(), id, size);
      if id in objects {
        curBytes := curBytes + size - objects[id];
        objects := objects[id := size];
        policy := Access(policy, id);
      } else {
        objects := objects[id := size];
        policy := Add(policy, id);
        curBytes := curBytes + size;
      }
      EvictLocked();
    }

    method EvictLocked()
      requires Valid(Contents())
      modifies this
      ensures Valid(Contents()) && Contents() == Evict(old(Contents()))
    {
      ghost var c := Contents();
      while curBytes > maxBytes && Len(policy) > 1
        invariant Valid(Contents()) && Evict(Contents()) == Evict(c)
        decreases |objects|
      {
        EvictStep(Contents());
        DropVictim();
      }
    }

    method DropVictim()
      requires Valid(Contents()) && Len(policy) > 0 && Victim(policy).id in objects
      modifies this
      ensures Contents() == EvictOne(old(Contents()))
    {
      var v := Victim(policy);
      var size := objects[v.id];
      policy, objects, curBytes := Remove(v.policy, v.id), objects - {v.id}, curBytes - size;
    }
  }

  /******* What LRU keeps *******/

  function Bytes(ids: seq<Id>, sizes: map<Id, nat>): nat {
    if ids == [] then 0 else
      var last := ids[|ids| - 1];
      Bytes(ids[..|ids| - 1], sizes) + if last in sizes then sizes[last] else 0
  }

  lemma {:induction false} BytesAreTotal(order: seq<Id>, m: map<Id, nat>)
    requires Distinct(order) && Members(order) == m.Keys
    ensures Bytes(order, m) == Total(m)
  {
    if order == [] {
      assert m == map[];
    } else {
      var n := |order| - 1;
      var rest := m - {order[n]};
      assert order == order[..n] + [order[n]];
      assert order[n] in Members(order);
      TotalWithout(m, order[n]);
      BytesAreTotal(order[..n], rest);
      BytesElsewhere(order[..n], m, order[n]);
    }
  }

  lemma {:induction false} BytesElsewhere(ids: seq<Id>, m: map<Id, nat>, id: Id)
    requires id !in ids
    ensures Bytes(ids, m - {id}) == Bytes(ids, m)
  {
    if ids != [] { BytesElsewhere(ids[..|ids| - 1], m, id); }
  }

  /** k is the longest prefix within the budget, or 1 if not even one fits. */
  predicate LongestFit(order: seq<Id>, sizes: map<Id, nat>, budget: int, k: nat) {
    && k <= |order| && (order != [] ==> k > 0)
    && (Bytes(order[..k], sizes) <= budget || k <= 1)
    && (k < |order| ==> Bytes(order[..k + 1], sizes) > budget)
  }

  /** Under LRU eviction keeps exactly the longest prefix of the recency order that
      fits the budget, or the newest object alone. */
  lemma {:induction false} LruKeepsLongestFit(c: Index)
    requires Valid(c) && c.policy.LRU?
    ensures Evict(c).policy.LRU? && LruFit(c, Evict(c).policy.order)
    decreases |c.objects|
  {
    if Over(c) {
      EvictStep(c);
      LruEvictsLast(c);
      LruKeepsLongestFit(EvictOne(c));
      LruFitCarries(c, Evict(EvictOne(c)).policy.order);
    } else {
      AllFits(c);
    }
  }

  /** What is left of the recency order is its longest prefix that fits. */
  ghost predicate LruFit(c: Index, left: seq<Id>)
    requires c.policy.LRU?
  {
    left <= c.policy.order && LongestFit(c.policy.order, c.objects, c.budget, |left|)
  }

  lemma LruEvictsLast(c: Index)
    requires Valid(c) && c.policy.LRU? && Over(c) && Victim(c.policy).id in c.objects
    ensures var n := |c.policy.order| - 1;
            EvictOne(c) == Index(LRU(c.policy.order[..n]), c.objects - {c.policy.order[n]},
                                 c.used - c.objects[c.policy.order[n]], c.budget)
  {
    Lru.DropLast(c.policy.order);
  }

  lemma LruFitCarries(c: Index, left: seq<Id>)
    requires Valid(c) && c.policy.LRU? && Over(c) && Victim(c.policy).id in c.objects && EvictOne(c).policy.LRU?
    requires LruFit(EvictOne(c), left)
    ensures LruFit(c, left)
  {
    LruEvictsLast(c);
    BytesAreTotal(c.policy.order, c.objects);
    SameFit(c.policy.order, c.objects, c.budget, |left|);
  }

  lemma AllFits(c: Index)
    requires Valid(c) && c.policy.LRU? && !Over(c)
    ensures LruFit(c, c.policy.order)
  {
    var order := c.policy.order;
    assert order[..|order|] == order;
    BytesAreTotal(order, c.objects);
  }

  /** A longest fit of all but the last object is one of the whole, over budget. */
  lemma SameFit(order: seq<Id>, m: map<Id, nat>, budget: int, k: nat)
    requires Distinct(order) && |order| > 1 && Bytes(order, m) > budget
    requires LongestFit(order[..|order| - 1], m - {order[|order| - 1]}, budget, k)
    ensures LongestFit(order, m, budget, k)
    ensures order[..|order| - 1][..k] == order[..k]
  {
    var n := |order| - 1;
    var last := order[n];
    assert order[..n][..k] == order[..k] && last !in order[..k];
    BytesElsewhere(order[..k], m, last);
    if k < n {
      assert order[..n][..k + 1] == order[..k + 1] && last !in order[..k + 1];
      BytesElsewhere(order[..k + 1], m, last);
    } else {
      assert order[..k + 1] == order;
    }
  }

  /** So an object survives its own admission under LRU, whatever its size. */
  lemma LruKeepsNewest(c: Index, id: Id, size: nat)
    requires Valid(c) && c.policy.LRU?
    ensures id in Admit(c, id, size).objects
  {
    var j := Joined(c, id, size);
    JoinedValid(c, id, size);
    LruKeepsLongestFit(j);
    var r := Evict(j);
    assert j.policy.order[0] == id;
    assert r.policy.order[0] == id && id in Members(r.policy.order);
  }

  /******* What the other two keep *******/

  /** Under S3-FIFO an object new to the cache that overfills it is the first to go if and
      only if there were fewer than nineteen others and all of small had been referenced. */
  lemma S3EvictsNewest(c: Index, id: Id, size: nat)
    requires Valid(c) && c.policy.S3FIFO? && id !in c.objects && id !in c.policy.s3.ghosts && Over(Joined(c, id, size))
    ensures Valid(Joined(c, id, size)) && Victim(Joined(c, id, size).policy).id in Joined(c, id, size).objects
    ensures id !in EvictOne(Joined(c, id, size)).objects <==>
              S3Fifo.Size(c.policy.s3) < 19 && S3Fifo.Referenced(c.policy.s3, c.policy.s3.small)
  {
    var j := Joined(c, id, size);
    JoinedValid(c, id, size);
    EvictOneValid(j);
    S3Fifo.NewcomerFalls(c.policy.s3, id);
  }

  /** Under CLOCK it is never the first to go. */
  lemma ClockSparesNewest(c: Index, id: Id, size: nat)
    requires Valid(c) && c.policy.CLOCK? && id !in c.objects && Over(Joined(c, id, size))
    ensures Valid(Joined(c, id, size)) && Victim(Joined(c, id, size).policy).id in Joined(c, id, size).objects
    ensures id in EvictOne(Joined(c, id, size)).objects
  {
    var j := Joined(c, id, size);
    JoinedValid(c, id, size);
    EvictOneValid(j);
    Clock.FirstVictimSpares(c.policy.clock, id);
  }

  /** Whatever the policy, an object that fits beside the others joins them and nobody
      goes. */
  lemma FittingJoins(c: Index, id: Id, size: nat)
    requires Valid(c) && id !in c.objects && c.used + size <= c.budget
    ensures Admit(c, id, size).objects == c.objects[id := size] && Admit(c, id, size).used == c.used + size
    ensures Admit(c, id, size).policy == Add(c.policy, id)
  {
    JoinedValid(c, id, size);
  }
}
