/** The consistent hash ring (internal/cluster/ring.go). The hash is a parameter;
    where virtual nodes must not collide, the statement says so. */
module Ring {
  import opened Util
  import opened Keys

  type Node = string
  type Hash = string -> nat

  datatype Point = Point(hash: nat, node: Node)

  function Label(id: Node, i: nat): string { id + "#" + Digits(i) }

  /** The virtual nodes of all nodes have different labels, whatever the nodes are called. */
  lemma LabelsDiffer(a: Node, i: nat, b: Node, j: nat)
    ensures Label(a, i) == Label(b, j) <==> a == b && i == j
  {
    DigitsReadBack(i);
    DigitsReadBack(j);
    if Label(a, i) == Label(b, j) {
      assert Label(a, i) == a + ['#'] + Digits(i) && Label(b, j) == b + ['#'] + Digits(j);
      SameLastCut(a, Digits(i), b, Digits(j), '#');
    }
  }

  /** The virtual nodes 0..n of a node. */
  function PointsOf(hash: Hash, id: Node, n: nat): seq<Point> {
    if n == 0 then [] else PointsOf(hash, id, n - 1) + [Point(hash(Label(id, n - 1)), id)]
  }

  predicate Ordered(ps: seq<Point>) { forall i, j :: 0 <= i < j < |ps| ==> ps[i].hash <= ps[j].hash }

  predicate Clash(p: Point, q: Point) { p.hash == q.hash && p.node != q.node }

  /** Points of different nodes share a hash. */
  ghost predicate CrossClash(ps: seq<Point>) { exists p, q :: p in ps && q in ps && Clash(p, q) }

  ghost predicate SameMembers(a: seq<Point>, b: seq<Point>) { forall p :: p in a <==> p in b }

  /******* Sorting *******/

  /** qs is ps in the order of the hashes. The sort is not stable: points of equal
      hash may come in any order. */
  predicate Arranged(ps: seq<Point>, qs: seq<Point>) { Ordered(qs) && multiset(qs) == multiset(ps) }

  function Insert(ps: seq<Point>, p: Point): seq<Point> {
    if ps == [] then [p]
    else if p.hash < ps[0].hash then [p] + ps
    else [ps[0]] + Insert(ps[1..], p)
  }

  lemma {:induction false} InsertedMembers(ps: seq<Point>, p: Point)
    ensures multiset(Insert(ps, p)) == multiset(ps) + multiset{p}
  {
    if ps != [] {
      assert ps == [ps[0]] + ps[1..];
      InsertedMembers(ps[1..], p);
    }
  }

  lemma Prepended(p: Point, ps: seq<Point>)
    requires Ordered(ps) && forall q <- ps :: p.hash <= q.hash
    ensures Ordered([p] + ps)
  {
    forall j | 0 <= j < |ps| ensures p.hash <= ps[j].hash { assert ps[j] in ps; }
  }

  lemma {:induction false} Inserted(ps: seq<Point>, p: Point)
    requires Ordered(ps)
    ensures Ordered(Insert(ps, p)) && multiset(Insert(ps, p)) == multiset(ps) + multiset{p}
  {
    InsertedMembers(ps, p);
    if ps != [] && p.hash < ps[0].hash {
      Prepended(p, ps);
    } else if ps != [] {
      Inserted(ps[1..], p);
      forall q <- Insert(ps[1..], p) ensures ps[0].hash <= q.hash {
        assert q in multiset(Insert(ps[1..], p));
        assert q == p || q in ps[1..];
      }
      Prepended(ps[0], Insert(ps[1..], p));
    }
  }

  /** One way to arrange points. */
  function Sorted(ps: seq<Point>): seq<Point> {
    if ps == [] then [] else Insert(Sorted(ps[..|ps| - 1]), ps[|ps| - 1])
  }

  lemma {:induction false} SortedArranges(ps: seq<Point>)
    ensures Arranged(ps, Sorted(ps))
  {
    if ps != [] {
      var n := |ps| - 1;
      SortedArranges(ps[..n]);
      assert ps == ps[..n] + [ps[n]];
      Inserted(Sorted(ps[..n]), ps[n]);
    }
  }

  method Sort(ps: seq<Point>) returns (qs: seq<Point>)
    ensures Arranged(ps, qs)
  {
    qs := [];
    for i := 0 to |ps|
      invariant qs == Sorted(ps[..i])
    {
      assert ps[..i + 1][..i] == ps[..i];
      qs := Insert(qs, ps[i]);
    }
    assert ps[..|ps|] == ps;
    SortedArranges(ps);
  }

  lemma ArrangedMembers(ps: seq<Point>, qs: seq<Point>)
    requires Arranged(ps, qs)
    ensures SameMembers(qs, ps) && |qs| == |ps|
  {
    forall p ensures p in qs <==> p in ps { assert p in multiset(qs) <==> p in multiset(ps); }
    assert |multiset(qs)| == |qs| && |multiset(ps)| == |ps|;
  }

  lemma LastIsGreatest(ps: seq<Point>, p: Point)
    requires Ordered(ps) && p in ps
    ensures p.hash <= ps[|ps| - 1].hash
  {
  }

  lemma SameLast(a: seq<Point>, b: seq<Point>)
    requires Ordered(a) && Ordered(b) && SameMembers(a, b) && a != [] && b != [] && !CrossClash(b)
    ensures a[|a| - 1] == b[|b| - 1]
  {
    var p, q := a[|a| - 1], b[|b| - 1];
    assert p in b && q in a;
    LastIsGreatest(a, q);
    LastIsGreatest(b, p);
    assert !Clash(p, q);
  }

  lemma PrefixUnclashed(ps: seq<Point>, n: nat)
    requires !CrossClash(ps) && n <= |ps|
    ensures !CrossClash(ps[..n])
  {
    forall p, q | p in ps[..n] && q in ps[..n] ensures !Clash(p, q) { assert p in ps && q in ps; }
  }

  lemma WithoutLast(ps: seq<Point>)
    requires ps != []
    ensures multiset(ps[..|ps| - 1]) == multiset(ps) - multiset{ps[|ps| - 1]}
  {
    assert ps == ps[..|ps| - 1] + [ps[|ps| - 1]];
  }

  /** Unless points of different nodes clash there is only one order. */
  lemma {:induction false} OrderedUnique(a: seq<Point>, b: seq<Point>)
    requires Ordered(a) && Arranged(a, b) && !CrossClash(b)
    ensures a == b
  {
    ArrangedMembers(a, b);
    if a != [] {
      var n := |a| - 1;
      SameLast(a, b);
      WithoutLast(a);
      WithoutLast(b);
      PrefixUnclashed(b, n);
      OrderedUnique(a[..n], b[..n]);
      assert a == a[..n] + [a[n]] && b == b[..n] + [b[n]];
    }
  }

  /******* The clockwise successor *******/

  /** p is the first point at or after h, or the first of all if none is. */
  ghost predicate Successor(ps: seq<Point>, h: nat, p: Point) {
    && p in ps
    && if p.hash >= h then forall q <- ps :: q.hash >= h ==> p.hash <= q.hash
       else forall q <- ps :: q.hash < h && p.hash <= q.hash
  }

  lemma SuccessorsTie(ps: seq<Point>, h: nat, p: Point, q: Point)
    requires !CrossClash(ps) && Successor(ps, h, p) && Successor(ps, h, q)
    ensures p == q
  {
    assert p.hash == q.hash;
    assert !Clash(p, q);
  }

  /** The first index whose hash is at least h, or the length. */
  predicate StartsAt(ps: seq<Point>, h: nat, idx: nat) {
    && idx <= |ps|
    && (forall i :: 0 <= i < idx ==> ps[i].hash < h)
    && (forall i :: idx <= i < |ps| ==> ps[i].hash >= h)
  }

  method Search(ps: seq<Point>, h: nat) returns (idx: nat)
    requires Ordered(ps)
    ensures StartsAt(ps, h, idx)
  {
    var lo, hi := 0, |ps|;
    while lo < hi
      invariant 0 <= lo <= hi <= |ps|
      invariant forall i :: 0 <= i < lo ==> ps[i].hash < h
      invariant forall i :: hi <= i < |ps| ==> ps[i].hash >= h
    {
      var mid := (lo + hi) / 2;
      if ps[mid].hash >= h { hi := mid; } else { lo := mid + 1; }
    }
    return lo;
  }

  lemma BeforeStart(ps: seq<Point>, h: nat, a: nat, i: nat)
    requires StartsAt(ps, h, a) && i < |ps|
    ensures i < a <==> ps[i].hash < h
  {
  }

  lemma StartUnique(ps: seq<Point>, h: nat, a: nat, b: nat)
    requires StartsAt(ps, h, a) && StartsAt(ps, h, b)
    ensures a == b
  {
    if a < |ps| {
      BeforeStart(ps, h, a, a);
      BeforeStart(ps, h, b, a);
    }
    if b < |ps| {
      BeforeStart(ps, h, a, b);
      BeforeStart(ps, h, b, b);
    }
  }

  function Chosen(ps: seq<Point>, idx: nat): Point
    requires ps != [] && idx <= |ps|
  {
    ps[if idx == |ps| then 0 else idx]
  }

  lemma SearchFindsSuccessor(ps: seq<Point>, h: nat, idx: nat)
    requires Ordered(ps) && ps != [] && StartsAt(ps, h, idx)
    ensures Successor(ps, h, Chosen(ps, idx))
  {
  }

  /******* The ring *******/

  function Without(ps: seq<Point>, id: Node): seq<Point> {
    if ps == [] then [] else
      var rest := Without(ps[..|ps| - 1], id);
      if ps[|ps| - 1].node == id then rest else rest + [ps[|ps| - 1]]
  }

  lemma {:induction false} FilteredMembers(ps: seq<Point>, id: Node)
    ensures forall p :: p in Without(ps, id) <==> p in ps && p.node != id
  {
    if ps != [] {
      FilteredMembers(ps[..|ps| - 1], id);
      assert ps == ps[..|ps| - 1] + [ps[|ps| - 1]];
    }
  }

  lemma {:induction false} FilteredOrdered(ps: seq<Point>, id: Node)
    requires Ordered(ps)
    ensures Ordered(Without(ps, id))
  {
    if ps != [] {
      var n := |ps| - 1;
      FilteredOrdered(ps[..n], id);
      FilteredMembers(ps[..n], id);
      var rest := Without(ps[..n], id);
      forall i | 0 <= i < |rest| ensures rest[i].hash <= ps[n].hash { assert rest[i] in ps[..n]; }
    }
  }

  /** The ring holds the points of exactly its nodes, in order. */
  ghost predicate Holds(hash: Hash, per: nat, ps: seq<Point>, nodes: set<Node>) {
    && per > 0 && Ordered(ps)
    && forall p :: p in ps <==> p.node in nodes && p in PointsOf(hash, p.node, per)
  }

  /** qs is ps with the node's points, sorted in. */
  ghost predicate Added(hash: Hash, per: nat, ps: seq<Point>, id: Node, qs: seq<Point>) {
    Arranged(ps + PointsOf(hash, id, per), qs)
  }

  lemma {:induction false} PointsAreOwn(hash: Hash, id: Node, n: nat)
    ensures |PointsOf(hash, id, n)| == n && forall p <- PointsOf(hash, id, n) :: p.node == id
  {
    if n > 0 { PointsAreOwn(hash, id, n - 1); }
  }

  lemma {:induction false} PointAt(hash: Hash, id: Node, n: nat, k: nat)
    requires k < n
    ensures |PointsOf(hash, id, n)| == n && PointsOf(hash, id, n)[k] == Point(hash(Label(id, k)), id)
  {
    PointsAreOwn(hash, id, n);
    PointsAreOwn(hash, id, n - 1);
    if k < n - 1 { PointAt(hash, id, n - 1, k); }
  }

  ghost predicate OneToOne(hash: Hash) { forall x, y :: hash(x) == hash(y) ==> x == y }

  /** With a hash that never repeats no two points of a ring clash. */
  lemma NoClashWhenOneToOne(hash: Hash, per: nat, ps: seq<Point>, nodes: set<Node>)
    requires OneToOne(hash) && Holds(hash, per, ps, nodes)
    ensures !CrossClash(ps)
  {
    forall p, q | p in ps && q in ps ensures !Clash(p, q) {
      PointsAreOwn(hash, p.node, per);
      PointsAreOwn(hash, q.node, per);
      var i :| 0 <= i < per && PointsOf(hash, p.node, per)[i] == p;
      var j :| 0 <= j < per && PointsOf(hash, q.node, per)[j] == q;
      PointAt(hash, p.node, per, i);
      PointAt(hash, q.node, per, j);
      LabelsDiffer(p.node, i, q.node, j);
    }
  }

  /** And a node as many different points as it is given. */
  lemma PointsDiffer(hash: Hash, per: nat, id: Node, i: nat, j: nat)
    requires OneToOne(hash) && i < j < per
    ensures |PointsOf(hash, id, per)| == per && PointsOf(hash, id, per)[i].hash != PointsOf(hash, id, per)[j].hash
  {
    PointAt(hash, id, per, i);
    PointAt(hash, id, per, j);
    LabelsDiffer(id, i, id, j);
  }

  lemma AddHolds(hash: Hash, per: nat, ps: seq<Point>, nodes: set<Node>, id: Node, qs: seq<Point>)
    requires Holds(hash, per, ps, nodes) && id !in nodes && Added(hash, per, ps, id, qs)
    ensures Holds(hash, per, qs, nodes + {id})
  {
    ArrangedMembers(ps + PointsOf(hash, id, per), qs);
    PointsAreOwn(hash, id, per);
  }

  lemma RemoveHolds(hash: Hash, per: nat, ps: seq<Point>, nodes: set<Node>, id: Node)
    requires Holds(hash, per, ps, nodes)
    ensures Holds(hash, per, Without(ps, id), nodes - {id})
  {
    FilteredMembers(ps, id);
    FilteredOrdered(ps, id);
  }

  class Ring {
    const hash: Hash
    const vnodesPer: nat
    var vnodes: seq<Point>
    var nodes: set<Node>

    ghost predicate Valid()
      reads this
    {
      Holds(hash, vnodesPer, vnodes, nodes)
    }

    constructor (hash: Hash, vnodesPerNode: int)
      ensures Valid() && nodes == {} && vnodes == []
      ensures this.hash == hash && vnodesPer == if vnodesPerNode <= 0 then 150 else vnodesPerNode
    {
      this.hash := hash;
      this.vnodesPer := if vnodesPerNode <= 0 then 150 else vnodesPerNode;
      vnodes, nodes := [], {};
    }

    method Add(id: Node)
      requires Valid()
      modifies this
      ensures Valid() && nodes == old(nodes) + {id}
      ensures if id in old(nodes) then vnodes == old(vnodes) else Added(hash, vnodesPer, old(vnodes), id, vnodes)
    {
      if id in nodes { return; }
      var ps := vnodes;
      for i := 0 to vnodesPer
        invariant ps == vnodes + PointsOf(hash, id, i)
      {
        ps := ps + [Point(hash(Label(id, i)), id)];
      }
      var sorted := Sort(ps);
      AddHolds(hash, vnodesPer, vnodes, nodes, id, sorted);
      nodes, vnodes := nodes + {id}, sorted;
    }

    method Remove(id: Node)
      requires Valid()
      modifies this
      ensures Valid() && nodes == old(nodes) - {id} && vnodes == Without(old(vnodes), id)
    {
      RemoveHolds(hash, vnodesPer, vnodes, nodes, id);
      var filtered: seq<Point> := [];
      for i := 0 to |vnodes|
        invariant filtered == Without(vnodes[..i], id)
      {
        assert vnodes[..i + 1][..i] == vnodes[..i];
        if vnodes[i].node != id { filtered := filtered + [vnodes[i]]; }
      }
      assert vnodes[..|vnodes|] == vnodes;
      nodes, vnodes := nodes - {id}, filtered;
    }

    /** The node of the key's clockwise successor; an error on an empty ring. */
    method Lookup(key: string) returns (node: Option<Node>)
      requires Valid()
      ensures node.None? <==> vnodes == []
      ensures node.Some? ==>
                exists idx :: StartsAt(vnodes, hash(key), idx) && node.value == Chosen(vnodes, idx).node
                              && Successor(vnodes, hash(key), Chosen(vnodes, idx))
    {
      if vnodes == [] { return None; }
      var idx := Search(vnodes, hash(key));
      SearchFindsSuccessor(vnodes, hash(key), idx);
      return Some(vnodes[if idx == |vnodes| then 0 else idx].node);
    }

    /** The first n distinct nodes clockwise from the key, or all of them. */
    method LookupN(key: string, n: int) returns (result: Option<seq<Node>>)
      requires Valid()
      ensures result.None? <==> vnodes == []
      ensures result.Some? ==>
                exists idx :: StartsAt(vnodes, hash(key), idx) && result.value == Taken(Firsts(Turned(vnodes, idx)), n)
      ensures result.Some? && n >= 1 ==> |result.value| == Min(n, |nodes|) && Distinct(result.value)
    {
      if vnodes == [] { return None; }
      var start := Search(vnodes, hash(key));
      var found := Collect(vnodes, start, n);
      AllNodesFound(hash, vnodesPer, vnodes, nodes, start);
      return Some(found);
    }
  }

  /******* Walking the circle *******/

  predicate Distinct(s: seq<Node>) { forall i, j :: 0 <= i < j < |s| ==> s[i] != s[j] }

  function Turned(ps: seq<Point>, start: nat): (r: seq<Point>)
    requires start <= |ps|
    ensures |r| == |ps|
  {
    ps[start..] + ps[..start]
  }

  /** The nodes of the points, each at its first appearance. */
  function Firsts(ps: seq<Point>): seq<Node> {
    if ps == [] then [] else
      var before, node := Firsts(ps[..|ps| - 1]), ps[|ps| - 1].node;
      if node in before then before else before + [node]
  }

  function Taken(s: seq<Node>, n: int): seq<Node> { s[..Min(|s|, Max(n, 0))] }

  lemma {:induction false} FirstsAre(ps: seq<Point>)
    ensures Distinct(Firsts(ps))
    ensures forall x :: x in Firsts(ps) <==> exists i :: 0 <= i < |ps| && ps[i].node == x
    ensures ps != [] ==> Firsts(ps) != [] && Firsts(ps)[0] == ps[0].node
  {
    if ps != [] {
      FirstsAre(ps[..|ps| - 1]);
      assert ps == ps[..|ps| - 1] + [ps[|ps| - 1]];
    }
  }

  /** The k-th node found is that of the first point whose node is not among those found
      before it. */
  lemma {:induction false} FirstsAt(ps: seq<Point>, k: nat) returns (i: nat)
    requires k < |Firsts(ps)|
    ensures i < |ps| && ps[i].node == Firsts(ps)[k] && forall j :: 0 <= j < i ==> ps[j].node in Firsts(ps)[..k]
  {
    var n := |ps| - 1;
    var before := Firsts(ps[..n]);
    assert forall j :: 0 <= j < n ==> ps[..n][j] == ps[j];
    if k < |before| {
      i := FirstsAt(ps[..n], k);
      assert Firsts(ps)[..k] == before[..k];
    } else {
      i := n;
      assert Firsts(ps)[..k] == before;
      FirstsAre(ps[..n]);
    }
  }

  lemma {:induction false} FirstsGrow(ps: seq<Point>, i: nat)
    requires i <= |ps|
    ensures Firsts(ps[..i]) <= Firsts(ps)
    decreases |ps| - i
  {
    if i < |ps| {
      FirstsGrow(ps, i + 1);
      assert ps[..i + 1][..i] == ps[..i];
    } else {
      assert ps[..i] == ps;
    }
  }

  method Collect(ps: seq<Point>, start: nat, n: int) returns (result: seq<Node>)
    requires ps != [] && start <= |ps|
    ensures result == Taken(Firsts(Turned(ps, start)), n)
  {
    ghost var turned := Turned(ps, start);
    var seen: set<Node> := {};
    result := [];
    var i := 0;
    while i < |ps| && |result| < n
      invariant 0 <= i <= |ps| && result == Firsts(turned[..i]) && |result| <= Max(n, 0)
      invariant forall x :: x in seen <==> x in result
    {
      assert turned[..i + 1][..i] == turned[..i];
      TurnedAt(ps, start, i);
      var id := ps[(start + i) % |ps|].node;
      if id !in seen {
        seen, result := seen + {id}, result + [id];
      }
      i := i + 1;
    }
    FirstsGrow(turned, i);
    if i == |ps| { assert turned[..i] == turned; }
  }

  lemma TurnedAt(ps: seq<Point>, start: nat, i: nat)
    requires start <= |ps| && i < |ps|
    ensures ps[(start + i) % |ps|] == Turned(ps, start)[i]
  {
    Wrap(start + i, |ps|);
  }

  lemma Wrap(k: nat, n: nat)
    requires k < 2 * n
    ensures k % n == if k < n then k else k - n
  {
    var q := k / n;
    assert k == q * n + k % n;
    assert q >= 2 ==> q * n >= 2 * n;
    assert q <= 0 ==> q * n <= 0;
  }

  lemma TurnedMembers(ps: seq<Point>, start: nat)
    requires start <= |ps|
    ensures SameMembers(Turned(ps, start), ps)
  {
    assert ps == ps[..start] + ps[start..];
  }

  lemma NodeHasPoint(hash: Hash, per: nat, ps: seq<Point>, nodes: set<Node>, x: Node)
    requires Holds(hash, per, ps, nodes)
    ensures x in nodes <==> exists p :: p in ps && p.node == x
  {
    if x in nodes {
      PointsAreOwn(hash, x, per);
      var p := PointsOf(hash, x, per)[per - 1];
      assert p in PointsOf(hash, x, per);
      assert p in ps;
    }
  }

  lemma AllNodesFound(hash: Hash, per: nat, ps: seq<Point>, nodes: set<Node>, start: nat)
    requires Holds(hash, per, ps, nodes) && start <= |ps|
    ensures |Firsts(Turned(ps, start))| == |nodes| && Distinct(Firsts(Turned(ps, start)))
  {
    var turned := Turned(ps, start);
    FirstsAre(turned);
    TurnedMembers(ps, start);
    forall x ensures x in nodes <==> x in Firsts(turned) { NodeFound(hash, per, ps, nodes, turned, x); }
    assert nodes == set x | x in Firsts(turned);
    DistinctMembers(Firsts(turned));
  }

  lemma NodeFound(hash: Hash, per: nat, ps: seq<Point>, nodes: set<Node>, turned: seq<Point>, x: Node)
    requires Holds(hash, per, ps, nodes) && SameMembers(turned, ps)
    ensures x in nodes <==> x in Firsts(turned)
  {
    FirstsAre(turned);
    NodeHasPoint(hash, per, ps, nodes, x);
    if x in nodes {
      var p :| p in ps && p.node == x;
      assert p in turned;
      var i :| 0 <= i < |turned| && turned[i] == p;
    }
    if x in Firsts(turned) {
      var i :| 0 <= i < |turned| && turned[i].node == x;
      assert turned[i] in ps;
    }
  }

  /** LookupN starts with Lookup's answer. */
  lemma LookupNStartsRight(ps: seq<Point>, h: nat, a: nat, b: nat, n: int)
    requires ps != [] && StartsAt(ps, h, a) && StartsAt(ps, h, b) && n >= 1
    ensures var result := Taken(Firsts(Turned(ps, a)), n);
            result != [] && result[0] == Chosen(ps, b).node
  {
    StartUnique(ps, h, a, b);
    FirstsAre(Turned(ps, a));
    assert Turned(ps, a)[0] == Chosen(ps, a);
  }

  /******* What moves when nodes come and go *******/

  lemma {:induction false} WithoutSplit(ps: seq<Point>, k: nat, id: Node)
    requires k <= |ps|
    ensures Without(ps, id) == Without(ps[..k], id) + Without(ps[k..], id)
    decreases |ps|
  {
    if k == |ps| {
      assert ps[..k] == ps;
    } else {
      var n := |ps| - 1;
      WithoutSplit(ps[..n], k, id);
      assert ps[..n][..k] == ps[..k] && ps[..n][k..] == ps[k..][..n - k] && ps[k..][n - k] == ps[n];
    }
  }

  lemma {:induction false} WithoutHead(ps: seq<Point>, id: Node)
    requires ps != [] && ps[0].node != id
    ensures Without(ps, id) != [] && Without(ps, id)[0] == ps[0]
  {
    if |ps| > 1 { WithoutHead(ps[..|ps| - 1], id); }
  }

  lemma WithoutStarts(ps: seq<Point>, id: Node, h: nat, b: nat)
    requires StartsAt(ps, h, b)
    ensures StartsAt(Without(ps, id), h, |Without(ps[..b], id)|)
  {
    var low, high := Without(ps[..b], id), Without(ps[b..], id);
    WithoutSplit(ps, b, id);
    FilteredMembers(ps[..b], id);
    FilteredMembers(ps[b..], id);
    forall i | 0 <= i < |low| ensures low[i].hash < h { assert low[i] in ps[..b]; }
    forall i | 0 <= i < |high| ensures high[i].hash >= h { assert high[i] in ps[b..]; }
  }

  /** Removing a node leaves Lookup's answer as it was for every key that was not
      that node's, clashes or not. */
  lemma RemoveMovesOnlyItsOwn(ps: seq<Point>, id: Node, h: nat, b: nat, a: nat)
    requires ps != [] && StartsAt(ps, h, b) && StartsAt(Without(ps, id), h, a) && Chosen(ps, b).node != id
    ensures Without(ps, id) != [] && Chosen(Without(ps, id), a) == Chosen(ps, b)
  {
    WithoutStarts(ps, id, h, b);
    StartUnique(Without(ps, id), h, a, |Without(ps[..b], id)|);
    WithoutSplit(ps, b, id);
    if b == |ps| {
      assert ps[..b] == ps;
      WithoutHead(ps, id);
    } else {
      WithoutHead(ps[b..], id);
    }
  }

  /** Every key's answer stays, or becomes the node. */
  ghost predicate MovesOnlyTo(ps: seq<Point>, qs: seq<Point>, id: Node)
    requires ps != [] && qs != []
  {
    forall h, a, b :: StartsAt(ps, h, a) && StartsAt(qs, h, b) ==>
      Chosen(qs, b).node == Chosen(ps, a).node || Chosen(qs, b).node == id
  }

  lemma AddedIsMore(hash: Hash, per: nat, ps: seq<Point>, id: Node, qs: seq<Point>)
    requires ps != [] && Added(hash, per, ps, id, qs)
    ensures qs != [] && (forall p <- ps :: p in qs) && forall p <- qs :: p in ps || p.node == id
  {
    ArrangedMembers(ps + PointsOf(hash, id, per), qs);
    PointsAreOwn(hash, id, per);
  }

  lemma NewOrSame(hash: Hash, per: nat, ps: seq<Point>, id: Node, qs: seq<Point>)
    requires ps != [] && Ordered(ps) && !CrossClash(ps) && Added(hash, per, ps, id, qs)
    ensures qs != [] && MovesOnlyTo(ps, qs, id)
  {
    AddedIsMore(hash, per, ps, id, qs);
    forall h, a, b | StartsAt(ps, h, a) && StartsAt(qs, h, b)
      ensures Chosen(qs, b).node == Chosen(ps, a).node || Chosen(qs, b).node == id
    {
      var before, after := Chosen(ps, a), Chosen(qs, b);
      SearchFindsSuccessor(ps, h, a);
      SearchFindsSuccessor(qs, h, b);
      if after.node != id {
        assert Successor(ps, h, after);
        SuccessorsTie(ps, h, before, after);
      }
    }
  }

  lemma {:induction false} StartExists(ps: seq<Point>, h: nat) returns (a: nat)
    requires Ordered(ps)
    ensures StartsAt(ps, h, a)
  {
    if ps == [] || ps[|ps| - 1].hash < h {
      a := |ps|;
    } else {
      a := StartExists(ps[..|ps| - 1], h);
    }
  }

  lemma PutAt(ps: seq<Point>, y: Point, b: nat)
    requires Ordered(ps) && StartsAt(ps, y.hash, b)
    ensures var qs := ps[..b] + [y] + ps[b..]; Ordered(qs) && StartsAt(qs, y.hash, b)
  {
  }

  lemma PutMembers(ps: seq<Point>, y: Point, b: nat)
    requires b <= |ps|
    ensures multiset(ps[..b] + [y] + ps[b..]) == multiset(ps) + multiset{y}
  {
    assert ps == ps[..b] + ps[b..];
  }

  /** Any point can be sorted in front of all of its hash. */
  lemma Pulled(all: seq<Point>, k: nat) returns (qs: seq<Point>, b: nat)
    requires k < |all|
    ensures Arranged(all, qs) && StartsAt(qs, all[k].hash, b) && b < |qs| && qs[b] == all[k]
  {
    var y, rest := all[k], all[..k] + all[k + 1..];
    PutMembers(rest, y, k);
    assert all == rest[..k] + [y] + rest[k..];
    SortedArranges(rest);
    b := StartExists(Sorted(rest), y.hash);
    PutAt(Sorted(rest), y, b);
    PutMembers(Sorted(rest), y, b);
    qs := Sorted(rest)[..b] + [y] + Sorted(rest)[b..];
  }

  /** A clash of two nodes can be sorted so that some key moves between them. */
  lemma ClashMovesOthers(hash: Hash, per: nat, ps: seq<Point>, id: Node) returns (qs: seq<Point>)
    requires Ordered(ps) && CrossClash(ps) && forall p <- ps :: p.node != id
    ensures Added(hash, per, ps, id, qs) && qs != [] && !MovesOnlyTo(ps, qs, id)
  {
    var p, q :| p in ps && q in ps && Clash(p, q);
    var a := StartExists(ps, p.hash);
    var other := if p.node != Chosen(ps, a).node then p else q;
    var k :| 0 <= k < |ps| && ps[k] == other;
    var all := ps + PointsOf(hash, id, per);
    assert all[k] == other;
    var b: nat;
    qs, b := Pulled(all, k);
    assert StartsAt(ps, p.hash, a) && StartsAt(qs, p.hash, b) && Chosen(qs, b) == other;
  }

  /** Adding a node moves keys only to it, however the sort arranges points of equal
      hash, if and only if no points of different old nodes share a hash. What the new
      node's own points hit does not matter. */
  lemma AddMovesOnlyToNew(hash: Hash, per: nat, ps: seq<Point>, id: Node)
    requires ps != [] && Ordered(ps) && forall p <- ps :: p.node != id
    ensures (forall qs :: Added(hash, per, ps, id, qs) ==> qs != [] && MovesOnlyTo(ps, qs, id)) <==> !CrossClash(ps)
  {
    if CrossClash(ps) {
      var qs := ClashMovesOthers(hash, per, ps, id);
    } else {
      forall qs | Added(hash, per, ps, id, qs) ensures qs != [] && MovesOnlyTo(ps, qs, id) {
        NewOrSame(hash, per, ps, id, qs);
      }
    }
  }

  lemma {:induction false} WithoutCounts(ps: seq<Point>, id: Node, p: Point)
    ensures multiset(Without(ps, id))[p] == if p.node == id then 0 else multiset(ps)[p]
  {
    if ps != [] {
      WithoutCounts(ps[..|ps| - 1], id, p);
      assert ps == ps[..|ps| - 1] + [ps[|ps| - 1]];
    }
  }

  lemma RestoredMembers(hash: Hash, per: nat, ps: seq<Point>, id: Node, qs: seq<Point>)
    requires Added(hash, per, ps, id, qs) && forall p <- ps :: p.node != id
    ensures multiset(Without(qs, id)) == multiset(ps)
  {
    var own := PointsOf(hash, id, per);
    PointsAreOwn(hash, id, per);
    forall p ensures multiset(Without(qs, id))[p] == multiset(ps)[p] {
      WithoutCounts(qs, id, p);
      assert p in multiset(own) <==> p in own;
      assert p in multiset(ps) <==> p in ps;
    }
  }

  /** A ring that comes back as it was has moved no key between two old nodes. */
  lemma RestoredMovesNone(ps: seq<Point>, id: Node, qs: seq<Point>)
    requires ps != [] && qs != [] && Without(qs, id) == ps
    ensures MovesOnlyTo(ps, qs, id)
  {
    forall h, a, b | StartsAt(ps, h, a) && StartsAt(qs, h, b)
      ensures Chosen(qs, b).node == Chosen(ps, a).node || Chosen(qs, b).node == id
    {
      if Chosen(qs, b).node != id { RemoveMovesOnlyItsOwn(qs, id, h, b, a); }
    }
  }

  /** Adding an absent node and removing it again restores the ring, and with it every
      lookup, however the sort arranges, under exactly the same condition. */
  lemma AddThenRemove(hash: Hash, per: nat, ps: seq<Point>, id: Node)
    requires ps != [] && Ordered(ps) && forall p <- ps :: p.node != id
    ensures (forall qs :: Added(hash, per, ps, id, qs) ==> Without(qs, id) == ps) <==> !CrossClash(ps)
  {
    if CrossClash(ps) {
      var qs := ClashMovesOthers(hash, per, ps, id);
      if Without(qs, id) == ps { RestoredMovesNone(ps, id, qs); }
    } else {
      forall qs | Added(hash, per, ps, id, qs) ensures Without(qs, id) == ps {
        RestoredMembers(hash, per, ps, id, qs);
        FilteredOrdered(qs, id);
        OrderedUnique(Without(qs, id), ps);
      }
    }
  }
}
