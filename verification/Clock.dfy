/** The CLOCK eviction policy (internal/cache/clock.go): a circular list of ids with
    reference bits and a hand that sweeps it. The hand is a position in the list. */
module Clock {
  import opened Util
  import opened Lists

  datatype Entry = Entry(id: Id, marked: bool)

  type Ring = seq<Entry>

  datatype Clock = Clock(ring: Ring, hand: Option<nat>)

  const FRESH := Clock([], None)

  function IdsOf(ring: Ring): set<Id> { set e <- ring :: e.id }

  function Ids(c: Clock): set<Id> { IdsOf(c.ring) }

  predicate DistinctIds(ring: Ring) { forall i, j :: 0 <= i < j < |ring| ==> ring[i].id != ring[j].id }

  ghost predicate Valid(c: Clock) {
    DistinctIds(c.ring) && (c.hand.Some? ==> c.hand.value < |c.ring|)
  }

  /** The place of id in the ring, or its length. */
  function IndexOf(ring: Ring, id: Id): (i: nat)
    ensures i <= |ring| && (i < |ring| ==> ring[i].id == id)
    ensures forall j :: 0 <= j < i ==> ring[j].id != id
  {
    if ring == [] then 0 else if ring[0].id == id then 0 else 1 + IndexOf(ring[1..], id)
  }

  /******* Positions on the circle *******/

  /** k places after h. */
  function Pos(h: nat, k: nat, n: nat): (i: nat)
    requires h < n && k <= n
    ensures i < n
  {
    if h + k < n then h + k else h + k - n
  }

  /** How many places i comes after h. */
  function Offset(h: nat, i: nat, n: nat): (k: nat)
    requires h < n && i < n
    ensures k < n && Pos(h, k, n) == i
  {
    if i >= h then i - h else i + n - h
  }

  /** The first offset from the hand with a clear mark, or n if there is none. */
  function FirstClear(ring: Ring, h: nat, k: nat): (r: nat)
    requires h < |ring| && k <= |ring|
    ensures k <= r <= |ring|
    ensures forall j :: k <= j < r ==> ring[Pos(h, j, |ring|)].marked
    ensures r < |ring| ==> !ring[Pos(h, r, |ring|)].marked
    decreases |ring| - k
  {
    if k == |ring| || !ring[Pos(h, k, |ring|)].marked then k else FirstClear(ring, h, k + 1)
  }

  /** The ring with the marks of the first k entries from h cleared. */
  function Swept(ring: Ring, h: nat, k: nat): (r: Ring)
    requires h < |ring| && k <= |ring|
    ensures |r| == |ring|
  {
    seq(|ring|, i requires 0 <= i < |ring| =>
      if Offset(h, i, |ring|) < k then ring[i].(marked := false) else ring[i])
  }

  /******* Operations *******/

  function Mark(ring: Ring, i: nat): Ring
    requires i < |ring|
  {
    ring[i := ring[i].(marked := true)]
  }

  function Add(c: Clock, id: Id): Clock {
    var i := IndexOf(c.ring, id);
    c.(ring := if i < |c.ring| then Mark(c.ring, i) else c.ring + [Entry(id, true)])
  }

  function Access(c: Clock, id: Id): Clock {
    var i := IndexOf(c.ring, id);
    if i < |c.ring| then c.(ring := Mark(c.ring, i)) else c
  }

  function HandOf(c: Clock): nat { if c.hand.Some? then c.hand.value else 0 }

  /** The rule: the first id from the hand with a clear mark or, if all are marked,
      the hand's own; every mark passed over is cleared. */
  function Victim(c: Clock): (Clock, Id)
    requires c.ring != [] && HandOf(c) < |c.ring|
  {
    var h, n := HandOf(c), |c.ring|;
    var k := FirstClear(c.ring, h, 0);
    (Clock(Swept(c.ring, h, k), Some(Pos(h, k, n))), c.ring[Pos(h, k, n)].id)
  }

  /** A hand on the removed entry steps to the next one, if there is another. */
  function Remove(c: Clock, id: Id): Clock {
    var i, n := IndexOf(c.ring, id), |c.ring|;
    if i == n then c else
      var hand :=
        if c.hand.None? then None
        else if c.hand.value == i then (if n == 1 then None else Some(if i == n - 1 then 0 else i))
        else if c.hand.value > i then Some(c.hand.value - 1)
        else c.hand;
      Clock(c.ring[..i] + c.ring[i + 1..], hand)
  }

  /******* Each keeps the clock valid *******/

  lemma AddValid(c: Clock, id: Id)
    requires Valid(c)
    ensures Valid(Add(c, id)) && Ids(Add(c, id)) == Ids(c) + {id}
  {
    var i := IndexOf(c.ring, id);
    if i < |c.ring| {
      MarkKeepsIds(c, i);
    } else {
      var c' := Add(c, id);
      assert forall x :: x in Ids(c') <==> x in Ids(c) || x == id;
    }
  }

  lemma MarkKeepsIds(c: Clock, i: nat)
    requires i < |c.ring|
    ensures Ids(c.(ring := Mark(c.ring, i))) == Ids(c)
  {
    SameIds(c.ring, Mark(c.ring, i));
  }

  lemma SameIds(a: Ring, b: Ring)
    requires |a| == |b| && forall i :: 0 <= i < |a| ==> a[i].id == b[i].id
    ensures IdsOf(a) == IdsOf(b)
  {
    forall x ensures x in IdsOf(a) <==> x in IdsOf(b) {
      if x in IdsOf(a) {
        var i :| 0 <= i < |a| && a[i].id == x;
        assert b[i] in b && b[i].id == x;
      }
      if x in IdsOf(b) {
        var i :| 0 <= i < |b| && b[i].id == x;
        assert a[i] in a && a[i].id == x;
      }
    }
  }

  lemma AccessValid(c: Clock, id: Id)
    requires Valid(c)
    ensures Valid(Access(c, id)) && Ids(Access(c, id)) == Ids(c)
  {
    var i := IndexOf(c.ring, id);
    if i < |c.ring| { MarkKeepsIds(c, i); }
  }

  lemma VictimValid(c: Clock)
    requires Valid(c) && c.ring != []
    ensures Valid(Victim(c).0) && Ids(Victim(c).0) == Ids(c) && Victim(c).1 in Ids(c)
    ensures Victim(c).0.hand.Some? && Victim(c).0.ring[Victim(c).0.hand.value] == Entry(Victim(c).1, false)
  {
    var h := HandOf(c);
    var k := FirstClear(c.ring, h, 0);
    SameIds(c.ring, Victim(c).0.ring);
    assert c.ring[Pos(h, k, |c.ring|)] in c.ring;
  }

  lemma CutRing(ring: Ring, i: nat)
    requires i < |ring| && DistinctIds(ring)
    ensures DistinctIds(ring[..i] + ring[i + 1..])
    ensures IdsOf(ring[..i] + ring[i + 1..]) == IdsOf(ring) - {ring[i].id}
  {
    var cut := ring[..i] + ring[i + 1..];
    forall x ensures x in IdsOf(cut) <==> x in IdsOf(ring) && x != ring[i].id {
      if x in IdsOf(ring) && x != ring[i].id {
        var j :| 0 <= j < |ring| && ring[j].id == x;
        assert cut[if j < i then j else j - 1] == ring[j];
      }
    }
  }

  lemma RemoveValid(c: Clock, id: Id)
    requires Valid(c)
    ensures Valid(Remove(c, id)) && Ids(Remove(c, id)) == Ids(c) - {id}
  {
    var i := IndexOf(c.ring, id);
    if i < |c.ring| { CutRing(c.ring, i); }
  }

  /** Removal leaves the hand on the entry it was on, or on that entry's successor
      when it is the one removed. */
  lemma RemoveKeepsHand(c: Clock, id: Id)
    requires Valid(c) && c.hand.Some? && |c.ring| > 1
    ensures var h, n := c.hand.value, |c.ring|;
            var next := if c.ring[h].id == id then Pos(h, 1, n) else h;
            && Remove(c, id).hand.Some?
            && Remove(c, id).hand.value < |Remove(c, id).ring|
            && Remove(c, id).ring[Remove(c, id).hand.value] == c.ring[next]
  {
  }

  /******* The policy object *******/

  class Policy {
    var ring: Ring
    var hand: Option<nat>

    ghost function Contents(): Clock
      reads this
    {
      Clock(ring, hand)
    }

    constructor ()
      ensures Valid(Contents()) && Contents() == FRESH
    {
      ring, hand := [], None;
    }

    method AddId(id: Id)
      requires Valid(Contents())
      modifies this`ring
      ensures Valid(Contents()) && Contents() == Add(old(Contents()), id)
    {
      AddValid(Contents(), id);
      var i := IndexOf(ring, id);
      if i < |ring| {
        ring := ring[i := ring[i].(marked := true)];
      } else {
        ring := ring + [Entry(id, true)];
      }
    }

    method AccessId(id: Id)
      requires Valid(Contents())
      modifies this`ring
      ensures Valid(Contents()) && Contents() == Access(old(Contents()), id)
    {
      AccessValid(Contents(), id);
      var i := IndexOf(ring, id);
      if i < |ring| { ring := ring[i := ring[i].(marked := true)]; }
    }

    /** Sweeps until it finds a clear mark, in at most one full turn and a step. */
    method NextVictim() returns (victim: Option<Id>, ghost turns: nat)
      requires Valid(Contents())
      modifies this
      ensures Valid(Contents())
      ensures victim.None? <==> old(ring) == []
      ensures victim.None? ==> Contents() == old(Contents())
      ensures victim.Some? ==> (Contents(), victim.value) == Victim(old(Contents()))
      ensures turns <= |ring|
    {
      turns := 0;
      if ring == [] { return None, turns; }
      VictimValid(Contents());
      var at: nat;
      ring, at, turns := Sweep(ring, if hand.Some? then hand.value else 0);
      hand := Some(at);
      return Some(ring[at].id), turns;
    }

    method RemoveId(id: Id)
      requires Valid(Contents())
      modifies this
      ensures Valid(Contents()) && Contents() == Remove(old(Contents()), id)
    {
      RemoveValid(Contents(), id);
      var i := IndexOf(ring, id);
      if i == |ring| { return; }
      if hand.Some? {
        if hand.value == i {
          hand := if |ring| == 1 then None else Some(if i == |ring| - 1 then 0 else i);
        } else if hand.value > i {
          hand := Some(hand.value - 1);
        }
      }
      ring := ring[..i] + ring[i + 1..];
    }
  }

  /** The sweep has passed k marked entries and stands at `at`. */
  ghost predicate Sweeping(ring: Ring, h: nat, k: nat, now: Ring, at: nat) {
    && h < |ring| && k <= |ring| && at == Pos(h, k, |ring|) && now == Swept(ring, h, k)
    && k <= FirstClear(ring, h, 0)
  }

  lemma SweepOne(ring: Ring, h: nat, k: nat, now: Ring, at: nat)
    requires Sweeping(ring, h, k, now, at) && at < |now| && now[at].marked
    ensures k < |ring|
    ensures Sweeping(ring, h, k + 1, now[at := now[at].(marked := false)], if at + 1 < |now| then at + 1 else 0)
  {
  }

  lemma SweepStarts(ring: Ring, h: nat)
    requires h < |ring|
    ensures Sweeping(ring, h, 0, ring, h)
  {
  }

  lemma SweepEnds(ring: Ring, h: nat, k: nat, now: Ring, at: nat)
    requires Sweeping(ring, h, k, now, at) && at < |now| && !now[at].marked
    ensures k == FirstClear(ring, h, 0) && now[at].id == ring[at].id
  {
  }

  method Sweep(ring: Ring, h: nat) returns (now: Ring, at: nat, ghost turns: nat)
    requires h < |ring|
    ensures turns == FirstClear(ring, h, 0) && at == Pos(h, turns, |ring|)
    ensures now == Swept(ring, h, turns) && now[at].id == ring[at].id
  {
    now, at, turns := ring, h, 0;
    SweepStarts(ring, h);
    while now[at].marked
      invariant Sweeping(ring, h, turns, now, at)
      decreases |ring| - turns
    {
      SweepOne(ring, h, turns, now, at);
      now := now[at := now[at].(marked := false)];
      at := if at + 1 < |now| then at + 1 else 0;
      turns := turns + 1;
    }
    SweepEnds(ring, h, turns, now, at);
  }

  /******* Runs *******/

  datatype Op = AddOp(id: Id) | AccessOp(id: Id) | VictimOp | RemoveOp(id: Id)

  ghost function Apply(c: Clock, op: Op): Clock {
    match op
    case AddOp(id) => Add(c, id)
    case AccessOp(id) => Access(c, id)
    case VictimOp => if Valid(c) && c.ring != [] then Victim(c).0 else c
    case RemoveOp(id) => Remove(c, id)
  }

  ghost function Replay(ops: seq<Op>): Clock {
    if ops == [] then FRESH else Apply(Replay(ops[..|ops| - 1]), ops[|ops| - 1])
  }

  /** After any calls the hand is a place in the ring and no id is there twice. */
  lemma {:induction false} ReplayValid(ops: seq<Op>)
    ensures Valid(Replay(ops))
  {
    if ops != [] {
      var c, op := Replay(ops[..|ops| - 1]), ops[|ops| - 1];
      ReplayValid(ops[..|ops| - 1]);
      match op
      case AddOp(id) => AddValid(c, id);
      case AccessOp(id) => AccessValid(c, id);
      case VictimOp => if c.ring != [] { VictimValid(c); }
      case RemoveOp(id) => RemoveValid(c, id);
    }
  }

  /******* Marks *******/

  predicate MarkedIn(c: Clock, id: Id) { Entry(id, true) in c.ring }

  lemma EntryOf(c: Clock, id: Id)
    requires id in Ids(c)
    ensures IndexOf(c.ring, id) < |c.ring|
  {
    var e :| e in c.ring && e.id == id;
    var i :| 0 <= i < |c.ring| && c.ring[i] == e;
  }

  lemma MarkAt(c: Clock, i: nat)
    requires DistinctIds(c.ring) && i < |c.ring|
    ensures MarkedIn(c, c.ring[i].id) <==> c.ring[i].marked
  {
    assert c.ring[i] in c.ring;
  }

  /** Between the hand and the id some entry is not marked, so the sweep stops there. */
  ghost predicate Shielded(c: Clock, id: Id)
    requires HandOf(c) < |c.ring| && IndexOf(c.ring, id) < |c.ring|
  {
    exists j :: 0 <= j < Offset(HandOf(c), IndexOf(c.ring, id), |c.ring|) && !c.ring[Pos(HandOf(c), j, |c.ring|)].marked
  }

  /** A request marks the id, a sweep clears it unless it stops before it, and nothing
      else touches its mark. */
  ghost predicate MarkFollows(c: Clock, op: Op, id: Id, d: Clock) {
    match op
    case AddOp(x) => if x == id then MarkedIn(d, id) else MarkedIn(d, id) == MarkedIn(c, id)
    case AccessOp(x) => if x == id && id in Ids(c) then MarkedIn(d, id) else MarkedIn(d, id) == MarkedIn(c, id)
    case VictimOp =>
      if id in Ids(c) && HandOf(c) < |c.ring| && IndexOf(c.ring, id) < |c.ring|
      then MarkedIn(d, id) == (MarkedIn(c, id) && Shielded(c, id))
      else MarkedIn(d, id) == MarkedIn(c, id)
    case RemoveOp(x) => if x == id then !MarkedIn(d, id) else MarkedIn(d, id) == MarkedIn(c, id)
  }

  lemma MarkedFollows(c: Clock, i: nat, id: Id)
    requires DistinctIds(c.ring) && i < |c.ring|
    ensures var d := c.(ring := Mark(c.ring, i));
            if c.ring[i].id == id then MarkedIn(d, id) else MarkedIn(d, id) == MarkedIn(c, id)
  {
    var r := Mark(c.ring, i);
    assert r[i] in r;
    if c.ring[i].id != id {
      if Entry(id, true) in c.ring {
        var j :| 0 <= j < |c.ring| && c.ring[j] == Entry(id, true);
        assert r[j] == Entry(id, true);
      }
      if Entry(id, true) in r {
        var j :| 0 <= j < |r| && r[j] == Entry(id, true);
        assert c.ring[j] == Entry(id, true);
      }
    }
  }

  lemma AddFollows(c: Clock, x: Id, id: Id)
    requires Valid(c)
    ensures MarkFollows(c, AddOp(x), id, Add(c, x))
  {
    var i := IndexOf(c.ring, x);
    if i < |c.ring| {
      MarkedFollows(c, i, id);
    } else {
      assert Entry(x, true) in c.ring + [Entry(x, true)];
    }
  }

  lemma AccessFollows(c: Clock, x: Id, id: Id)
    requires Valid(c)
    ensures MarkFollows(c, AccessOp(x), id, Access(c, x))
  {
    var i := IndexOf(c.ring, x);
    if i < |c.ring| { MarkedFollows(c, i, id); }
    if x in Ids(c) { EntryOf(c, x); }
  }

  lemma VictimFollows(c: Clock, id: Id)
    requires Valid(c) && c.ring != []
    ensures MarkFollows(c, VictimOp, id, Victim(c).0)
  {
    var d, h, n := Victim(c).0, HandOf(c), |c.ring|;
    var k := FirstClear(c.ring, h, 0);
    VictimValid(c);
    if id in Ids(c) {
      EntryOf(c, id);
      var i := IndexOf(c.ring, id);
      MarkAt(c, i);
      MarkAt(d, i);
      var o := Offset(h, i, n);
      if o < k {
        assert forall j :: 0 <= j < o ==> c.ring[Pos(h, j, n)].marked;
      } else if c.ring[i].marked {
        assert k < o && !c.ring[Pos(h, k, n)].marked;
      }
    } else {
      NotMarked(c, id);
      NotMarked(d, id);
    }
  }

  lemma NotMarked(c: Clock, id: Id)
    requires id !in Ids(c)
    ensures !MarkedIn(c, id)
  {
  }

  lemma RemoveFollows(c: Clock, x: Id, id: Id)
    requires Valid(c)
    ensures MarkFollows(c, RemoveOp(x), id, Remove(c, x))
  {
    RemoveValid(c, x);
    var i := IndexOf(c.ring, x);
    if x == id {
      NotMarked(Remove(c, x), id);
    } else if i < |c.ring| {
      var cut := c.ring[..i] + c.ring[i + 1..];
      if Entry(id, true) in c.ring {
        var j :| 0 <= j < |c.ring| && c.ring[j] == Entry(id, true);
        assert cut[if j < i then j else j - 1] == Entry(id, true);
      }
    }
  }

  /** In every run, call by call: a mark is set by a request for its id, cleared by a sweep
      that comes past it, and by nothing else. */
  lemma MarksFollow(ops: seq<Op>, id: Id)
    requires ops != []
    ensures MarkFollows(Replay(ops[..|ops| - 1]), ops[|ops| - 1], id, Replay(ops))
  {
    var c, op := Replay(ops[..|ops| - 1]), ops[|ops| - 1];
    ReplayValid(ops[..|ops| - 1]);
    match op
    case AddOp(x) => AddFollows(c, x, id);
    case AccessOp(x) => AccessFollows(c, x, id);
    case VictimOp => if c.ring != [] { VictimFollows(c, id); }
    case RemoveOp(x) => RemoveFollows(c, x, id);
  }

  /** The first victim after an admission is never the newcomer, unless it is alone. */
  lemma FirstVictimSpares(c: Clock, id: Id)
    requires Valid(c) && c.ring != [] && id !in Ids(c)
    ensures Valid(Add(c, id)) && Victim(Add(c, id)).1 != id
  {
    AddValid(c, id);
    assert forall j :: 0 <= j < |c.ring| ==> c.ring[j] in c.ring;
  }

  /******* When a newcomer goes *******/

  function Clears(l: Ring): nat {
    if l == [] then 0 else (if l[0].marked then 0 else 1) + Clears(l[1..])
  }

  function Marks(l: Ring): nat {
    if l == [] then 0 else (if l[0].marked then 1 else 0) + Marks(l[1..])
  }

  lemma {:induction false} CountsAppend(a: Ring, b: Ring)
    ensures Clears(a + b) == Clears(a) + Clears(b) && Marks(a + b) == Marks(a) + Marks(b)
  {
    if a == [] {
      assert a + b == b;
    } else {
      CountsAppend(a[1..], b);
      assert (a + b)[1..] == a[1..] + b;
    }
  }

  lemma CountsOne(e: Entry)
    ensures Clears([e]) == (if e.marked then 0 else 1) && Marks([e]) == if e.marked then 1 else 0
  {
    assert [e][1..] == [];
  }

  /** The ring as the hand meets it. */
  function Turned(c: Clock): (l: Ring)
    requires HandOf(c) <= |c.ring|
    ensures |l| == |c.ring|
  {
    c.ring[HandOf(c)..] + c.ring[..HandOf(c)]
  }

  /** A marked entry at the front is cleared and goes to the back. */
  function Passed(l: Ring): (r: Ring)
    requires l != []
    ensures |r| == |l|
  {
    l[1..] + [l[0].(marked := false)]
  }

  lemma PassedCounts(l: Ring)
    requires l != [] && l[0].marked
    ensures Marks(Passed(l)) == Marks(l) - 1 && Clears(Passed(l)) == Clears(l) + 1
  {
    CountsAppend(l[1..], [l[0].(marked := false)]);
    CountsOne(l[0].(marked := false));
  }

  /** The queue when the sweep has come to a clear entry: the victim is in front. */
  function SweptTo(l: Ring): (r: Ring)
    requires l != []
    ensures |r| == |l| && !r[0].marked
    decreases Marks(l)
  {
    if l[0].marked then
      PassedCounts(l);
      SweptTo(Passed(l))
    else l
  }

  /** The number of the eviction in which the entry at place m goes. */
  function Rank(l: Ring, m: nat): nat
    requires m < |l|
  {
    if l[m].marked then 1 + Clears(l) + Marks(l[..m]) else 1 + Clears(l[..m])
  }

  function PlaceAfterPass(l: Ring, m: nat): (m': nat)
    requires m < |l|
    ensures m' < |l|
  {
    if m > 0 then m - 1 else |l| - 1
  }

  lemma PassKeepsRank(l: Ring, m: nat)
    requires m < |l| && l[0].marked
    ensures Passed(l)[PlaceAfterPass(l, m)].id == l[m].id && Rank(Passed(l), PlaceAfterPass(l, m)) == Rank(l, m)
  {
    var r := Passed(l);
    PassedCounts(l);
    if m > 0 {
      assert l[..m] == [l[0]] + l[1..m] && r[..m - 1] == l[1..m];
      CountsAppend([l[0]], l[1..m]);
      CountsOne(l[0]);
    } else {
      assert r[..|l| - 1] == l[1..] && l[..0] == [];
    }
  }

  lemma {:induction false} SweepKeepsRank(l: Ring, m: nat) returns (m': nat)
    requires m < |l|
    ensures m' < |l| && SweptTo(l)[m'].id == l[m].id && Rank(SweptTo(l), m') == Rank(l, m)
    decreases Marks(l)
  {
    m' := m;
    if l[0].marked {
      PassedCounts(l);
      PassKeepsRank(l, m);
      m' := SweepKeepsRank(Passed(l), PlaceAfterPass(l, m));
    }
  }

  /** Once the front is clear it is first to go, and everyone else is one nearer. */
  lemma FrontGoes(l: Ring, m: nat)
    requires m < |l| && !l[0].marked
    ensures if m == 0 then Rank(l, m) == 1 else Rank(l[1..], m - 1) == Rank(l, m) - 1
  {
    if m > 0 {
      assert l[..m] == [l[0]] + l[1..m] && l[1..][..m - 1] == l[1..m];
      CountsAppend([l[0]], l[1..m]);
      CountsOne(l[0]);
    }
  }

  /** The queue after k evictions. */
  function QueueAfter(l: Ring, k: nat): Ring
    requires k <= |l|
    decreases k
  {
    if k == 0 then l else QueueAfter(SweptTo(l)[1..], k - 1)
  }

  lemma {:induction false} SweepKeepsIds(l: Ring)
    requires l != []
    ensures IdsOf(SweptTo(l)) == IdsOf(l) && (DistinctIds(l) ==> DistinctIds(SweptTo(l)))
    decreases Marks(l)
  {
    if l[0].marked {
      PassedCounts(l);
      PassKeepsIds(l);
      SweepKeepsIds(Passed(l));
    }
  }

  lemma PassKeepsIds(l: Ring)
    requires l != []
    ensures IdsOf(Passed(l)) == IdsOf(l) && (DistinctIds(l) ==> DistinctIds(Passed(l)))
  {
    var r := Passed(l);
    forall x ensures x in IdsOf(r) <==> x in IdsOf(l) {
      if x in IdsOf(l) {
        var i :| 0 <= i < |l| && l[i].id == x;
        assert r[if i == 0 then |l| - 1 else i - 1].id == x;
      }
      if x in IdsOf(r) {
        var i :| 0 <= i < |r| && r[i].id == x;
        assert l[if i == |l| - 1 then 0 else i + 1].id == x;
      }
    }
  }

  lemma {:induction false} QueueShrinks(l: Ring, k: nat)
    requires k <= |l|
    ensures IdsOf(QueueAfter(l, k)) <= IdsOf(l)
    decreases k
  {
    if k > 0 {
      SweepKeepsIds(l);
      QueueShrinks(SweptTo(l)[1..], k - 1);
    }
  }

  lemma FrontIsApart(l: Ring)
    requires l != [] && DistinctIds(l)
    ensures l[0].id !in IdsOf(l[1..]) && DistinctIds(l[1..])
  {
  }

  /** An entry survives k evictions if and only if k is less than its rank. */
  lemma {:induction false} RankDecides(l: Ring, m: nat, k: nat)
    requires m < |l| && k <= |l| && DistinctIds(l)
    ensures l[m].id in IdsOf(QueueAfter(l, k)) <==> k < Rank(l, m)
    decreases k
  {
    if k == 0 {
      assert l[m] in l;
    } else {
      var t := SweptTo(l);
      SweepKeepsIds(l);
      var m' := SweepKeepsRank(l, m);
      FrontGoes(t, m');
      FrontIsApart(t);
      if m' == 0 {
        QueueShrinks(t[1..], k - 1);
      } else {
        RankDecides(t[1..], m' - 1, k - 1);
      }
    }
  }

  /******* The sweep of the clock is the sweep of the queue *******/

  function Unmarked(l: Ring): (r: Ring)
    ensures |r| == |l|
  {
    seq(|l|, i requires 0 <= i < |l| => l[i].(marked := false))
  }

  /** The first k of the queue cleared and moved to the back. */
  function Moved(l: Ring, k: nat): (r: Ring)
    requires k <= |l|
    ensures |r| == |l|
  {
    l[k..] + Unmarked(l[..k])
  }

  lemma {:induction false} SweepsMoved(l: Ring, k: nat)
    requires l != [] && k <= |l| && (forall j :: 0 <= j < k ==> l[j].marked) && (k < |l| ==> !l[k].marked)
    ensures SweptTo(l) == Moved(l, k)
    decreases k
  {
    if k == 0 {
      assert Moved(l, 0) == l;
    } else {
      PassedCounts(l);
      PassThenMove(l, k);
      SweepsMoved(Passed(l), k - 1);
    }
  }

  lemma PassThenMove(l: Ring, k: nat)
    requires 0 < k <= |l|
    ensures Moved(Passed(l), k - 1) == Moved(l, k)
  {
  }

  lemma TurnedAt(c: Clock, j: nat)
    requires HandOf(c) < |c.ring| && j < |c.ring|
    ensures Turned(c)[j] == c.ring[Pos(HandOf(c), j, |c.ring|)]
  {
  }

  /** The places k + j after h, counted round the circle. */
  function Further(k: nat, j: nat, n: nat): nat
    requires k <= n && j < n
  {
    if j < n - k then k + j else k + j - n
  }

  lemma FurtherPlaces(h: nat, k: nat, j: nat, n: nat)
    requires h < n && k <= n && j < n
    ensures Further(k, j, n) < n && Pos(Pos(h, k, n), j, n) == Pos(h, Further(k, j, n), n)
    ensures Offset(h, Pos(h, Further(k, j, n), n), n) == Further(k, j, n)
  {
  }

  lemma MovedAt(l: Ring, k: nat, j: nat)
    requires k <= |l| && j < |l|
    ensures Moved(l, k)[j] == var e := l[Further(k, j, |l|)]; if j < |l| - k then e else e.(marked := false)
  {
  }

  lemma VictimTurnsAt(c: Clock, k: nat, j: nat)
    requires HandOf(c) < |c.ring| && k <= |c.ring| && j < |c.ring|
    ensures var d := Clock(Swept(c.ring, HandOf(c), k), Some(Pos(HandOf(c), k, |c.ring|)));
            Turned(d)[j] == Moved(Turned(c), k)[j]
  {
    var h, n := HandOf(c), |c.ring|;
    FurtherPlaces(h, k, j, n);
    TurnedAt(Clock(Swept(c.ring, h, k), Some(Pos(h, k, n))), j);
    TurnedAt(c, Further(k, j, n));
    MovedAt(Turned(c), k, j);
  }

  /** A victim and its removal, seen from the hand. */
  lemma VictimTurns(c: Clock)
    requires Valid(c) && c.ring != []
    ensures Turned(Victim(c).0) == SweptTo(Turned(c)) && Victim(c).1 == SweptTo(Turned(c))[0].id
  {
    var h, n := HandOf(c), |c.ring|;
    var k := FirstClear(c.ring, h, 0);
    forall j | 0 <= j < n ensures Turned(c)[j] == c.ring[Pos(h, j, n)] { TurnedAt(c, j); }
    SweepsMoved(Turned(c), k);
    forall j | 0 <= j < n ensures Turned(Victim(c).0)[j] == Moved(Turned(c), k)[j] { VictimTurnsAt(c, k, j); }
    assert Turned(Victim(c).0) == Moved(Turned(c), k);
    TurnedAt(Victim(c).0, 0);
  }

  function EvictOnce(c: Clock): Clock
    requires c.ring != [] && HandOf(c) < |c.ring|
  {
    Remove(Victim(c).0, Victim(c).1)
  }

  lemma RemovalTurns(c: Clock)
    requires Valid(c) && c.hand.Some?
    ensures Turned(Remove(c, c.ring[c.hand.value].id)) == Turned(c)[1..]
  {
    var h := c.hand.value;
    assert IndexOf(c.ring, c.ring[h].id) == h;
  }

  lemma EvictionTurns(c: Clock)
    requires Valid(c) && c.ring != []
    ensures Valid(EvictOnce(c)) && |EvictOnce(c).ring| == |c.ring| - 1
    ensures Turned(EvictOnce(c)) == SweptTo(Turned(c))[1..]
  {
    VictimValid(c);
    VictimTurns(c);
    RemoveValid(Victim(c).0, Victim(c).1);
    RemovalTurns(Victim(c).0);
  }

  /** l is the ring of a valid clock as its hand meets it. */
  ghost predicate Mirrors(c: Clock, l: Ring) { Valid(c) && Turned(c) == l }

  ghost predicate Evicts(c: Clock, d: Clock) { Valid(c) && c.ring != [] && d == EvictOnce(c) }

  /** One eviction after the other. */
  ghost predicate Evictions(cs: seq<Clock>) {
    |cs| > 0 && forall i :: 0 <= i < |cs| - 1 ==> Evicts(cs[i], cs[i + 1])
  }

  lemma OneEviction(c: Clock, d: Clock, l: Ring)
    requires Evicts(c, d) && Mirrors(c, l)
    ensures l != [] && Mirrors(d, SweptTo(l)[1..])
  {
    EvictionTurns(c);
  }

  lemma {:induction false} EvictionsTurn(cs: seq<Clock>, l: Ring)
    requires Evictions(cs) && Mirrors(cs[0], l)
    ensures |cs| - 1 <= |l| && Mirrors(cs[|cs| - 1], QueueAfter(l, |cs| - 1))
    decreases |cs|
  {
    if |cs| > 1 {
      assert Evicts(cs[0], cs[1]);
      OneEviction(cs[0], cs[1], l);
      RestEvicts(cs);
      EvictionsTurn(cs[1..], SweptTo(l)[1..]);
    }
  }

  lemma RestEvicts(cs: seq<Clock>)
    requires Evictions(cs) && |cs| > 1
    ensures Evictions(cs[1..])
  {
    forall i | 0 <= i < |cs| - 2 ensures Evicts(cs[1..][i], cs[1..][i + 1]) { assert Evicts(cs[i + 1], cs[i + 2]); }
  }

  /** As many evictions as there are ids can follow one another. */
  lemma {:induction false} EvictionsExist(c: Clock, k: nat) returns (cs: seq<Clock>)
    requires Valid(c) && k <= |c.ring|
    ensures Evictions(cs) && cs[0] == c && |cs| == k + 1
    decreases k
  {
    cs := [c];
    if k > 0 {
      EvictionTurns(c);
      var rest := EvictionsExist(EvictOnce(c), k - 1);
      cs := [c] + rest;
      forall i | 0 <= i < |cs| - 1 ensures Evicts(cs[i], cs[i + 1]) {
        if i > 0 { assert Evicts(rest[i - 1], rest[i]); } else { assert Evicts(c, rest[0]); }
      }
    }
  }

  lemma TurnedIds(c: Clock)
    requires Valid(c)
    ensures IdsOf(Turned(c)) == Ids(c) && DistinctIds(Turned(c))
  {
    var h := HandOf(c);
    assert c.ring == c.ring[..h] + c.ring[h..];
    forall x ensures x in IdsOf(Turned(c)) <==> x in Ids(c) {
      if x in Ids(c) {
        var e :| e in c.ring && e.id == x;
        assert e in Turned(c);
      }
    }
  }

  /** An admitted id goes in the eviction numbered one more than the clear marks in
      the ring and the marked entries from the hand to the ring's end together: it
      survives exactly as many evictions as those are. */
  lemma NewcomerRank(c: Clock, id: Id, cs: seq<Clock>)
    requires Valid(c) && id !in Ids(c) && Evictions(cs) && cs[0] == Add(c, id)
    ensures id in Ids(cs[|cs| - 1]) <==> |cs| - 1 <= Clears(c.ring) + Marks(c.ring[HandOf(c)..])
  {
    var d, k := Add(c, id), |cs| - 1;
    AddValid(c, id);
    NewcomerJoins(c, id);
    TurnedIds(d);
    EvictionsTurn(cs, Turned(d));
    TurnedIds(cs[k]);
    RankDecides(Turned(d), |c.ring| - HandOf(c), k);
  }

  lemma NewcomerIsLast(c: Clock, id: Id)
    requires id !in Ids(c)
    ensures IndexOf(c.ring, id) == |c.ring|
  {
    assert forall j :: 0 <= j < |c.ring| ==> c.ring[j] in c.ring;
  }

  lemma NewcomerCounts(front: Ring, back: Ring, e: Entry)
    ensures Clears(front + ([e] + back)) == Clears(front) + Clears([e]) + Clears(back)
    ensures Clears(back + front) == Clears(back) + Clears(front)
  {
    CountsAppend(front, [e] + back);
    CountsAppend([e], back);
    CountsAppend(back, front);
  }

  lemma NewcomerJoins(c: Clock, id: Id)
    requires Valid(c) && id !in Ids(c)
    ensures var d, m := Add(c, id), |c.ring| - HandOf(c);
            && d == c.(ring := c.ring + [Entry(id, true)]) && HandOf(d) <= |d.ring|
            && Turned(d)[m] == Entry(id, true)
            && Rank(Turned(d), m) == 1 + Clears(c.ring) + Marks(c.ring[HandOf(c)..])
  {
    var h := HandOf(c);
    NewcomerIsLast(c, id);
    var d := Add(c, id);
    var front, back := c.ring[h..], c.ring[..h];
    assert Turned(d) == front + ([Entry(id, true)] + back) && Turned(d)[..|c.ring| - h] == front;
    assert c.ring == back + front;
    NewcomerCounts(front, back, Entry(id, true));
    CountsOne(Entry(id, true));
  }

  /** So in a ring a, b of marked entries with the hand on b, the newcomer survives
      one eviction and not two. */
  lemma SecondVictimNeedNot(a: Id, b: Id, id: Id, cs: seq<Clock>)
    requires a != b && a != id && b != id && |cs| == 3 && Evictions(cs)
    requires cs[0] == Add(Clock([Entry(a, true), Entry(b, true)], Some(1)), id)
    ensures id in Ids(cs[1]) && id !in Ids(cs[2])
  {
    var c := Clock([Entry(a, true), Entry(b, true)], Some(1));
    CountsAppend([Entry(a, true)], [Entry(b, true)]);
    CountsOne(Entry(a, true));
    CountsOne(Entry(b, true));
    assert c.ring == [Entry(a, true)] + [Entry(b, true)] && c.ring[1..] == [Entry(b, true)];
    assert Evictions(cs[..2]) by { assert Evicts(cs[0], cs[1]); }
    NewcomerRank(c, id, cs[..2]);
    NewcomerRank(c, id, cs);
  }
}
