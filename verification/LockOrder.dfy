/** The lock-order graph (internal/diag/lock.go): which lock was taken while which
    other was held, the search that looks for a way back, and the warnings. */
module LockOrder {
  import opened Util

  type Name = string
  type Goroutine = int
  type Edges = map<Name, set<Name>>

  datatype Graph = Graph(held: map<Goroutine, seq<Name>>, edges: Edges, reported: set<string>)

  /******* Paths *******/

  predicate Edge(es: Edges, a: Name, b: Name) { a in es && b in es[a] }

  predicate Path(es: Edges, p: seq<Name>) {
    |p| > 0 && forall i :: 0 <= i < |p| - 1 ==> Edge(es, p[i], p[i + 1])
  }

  predicate Joins(es: Edges, p: seq<Name>, a: Name, b: Name) {
    Path(es, p) && p[0] == a && p[|p| - 1] == b
  }

  ghost predicate Reaches(es: Edges, a: Name, b: Name) { exists p :: Joins(es, p, a, b) }

  predicate Cycle(es: Edges, p: seq<Name>) { Path(es, p) && |p| > 1 && p[0] == p[|p| - 1] }

  ghost predicate Cyclic(es: Edges) { exists p :: Cycle(es, p) }

  lemma OneStepMore(es: Edges, a: Name, b: Name, c: Name)
    requires Reaches(es, a, b) && Edge(es, b, c)
    ensures Reaches(es, a, c)
  {
    var p :| Joins(es, p, a, b);
    assert Joins(es, p + [c], a, c);
  }

  /** A set of nodes no edge leaves holds everything reachable from it. */
  lemma {:induction false} ClosedHoldsPath(es: Edges, seen: set<Name>, p: seq<Name>)
    requires forall n <- seen :: forall next :: Edge(es, n, next) ==> next in seen
    requires Path(es, p) && p[0] in seen
    ensures p[|p| - 1] in seen
  {
    if |p| > 1 {
      assert Edge(es, p[0], p[1]);
      assert forall i :: 0 <= i < |p| - 2 ==> Edge(es, p[1..][i], p[1..][i + 1]);
      ClosedHoldsPath(es, seen, p[1..]);
    }
  }

  /******* New edges *******/

  function AddEdge(es: Edges, a: Name, b: Name): Edges {
    es[a := (if a in es then es[a] else {}) + {b}]
  }

  lemma PathKept(es: Edges, a: Name, b: Name, p: seq<Name>)
    requires Path(es, p)
    ensures Path(AddEdge(es, a, b), p)
  {
    forall i | 0 <= i < |p| - 1 ensures Edge(AddEdge(es, a, b), p[i], p[i + 1]) { assert Edge(es, p[i], p[i + 1]); }
  }

  /** A cycle through the new edge shows the way back. */
  lemma WayBack(es: Edges, p: seq<Name>, i: nat)
    requires Cycle(es, p) && i < |p| - 1
    ensures Reaches(es, p[i + 1], p[i])
  {
    var q := p[i + 1..] + p[1..i + 1];
    var n := |p| - 1 - i;
    forall k | 0 <= k < |q| - 1 ensures Edge(es, q[k], q[k + 1]) {
      if k < n - 1 {
        assert Edge(es, p[i + 1 + k], p[i + 2 + k]);
      } else {
        assert Edge(es, p[k - n + 1], p[k - n + 2]);
      }
    }
    assert Joins(es, q, p[i + 1], p[i]);
  }

  /** The new edge a -> b makes the graph cyclic exactly when it was, or when b
      leads back to a. */
  lemma NewEdge(es: Edges, a: Name, b: Name)
    ensures var es' := AddEdge(es, a, b);
            Cyclic(es') <==> Cyclic(es) || Reaches(es', b, a)
  {
    var es' := AddEdge(es, a, b);
    if Reaches(es', b, a) {
      var p :| Joins(es', p, b, a);
      assert Edge(es', a, b);
      assert Cycle(es', p + [b]);
    }
    if Cyclic(es) {
      var p :| Cycle(es, p);
      PathKept(es, a, b, p);
      assert Cycle(es', p);
    }
    if Cyclic(es') {
      var p :| Cycle(es', p);
      if i :| 0 <= i < |p| - 1 && p[i] == a && p[i + 1] == b {
        WayBack(es', p, i);
      } else {
        assert forall i :: 0 <= i < |p| - 1 ==> Edge(es', p[i], p[i + 1]);
        assert Cycle(es, p);
      }
    }
  }

  /******* What the hooks do *******/

  function HeldOf(g: Graph, who: Goroutine): seq<Name> {
    if who in g.held then g.held[who] else []
  }

  function Warned(reported: set<string>, a: Name, b: Name): set<string> {
    if a + "|" + b in reported || b + "|" + a in reported then reported else reported + {a + "|" + b}
  }

  ghost function EnterOne(g: Graph, h: Name, name: Name): Graph {
    if h == name then g else
      var es := AddEdge(g.edges, h, name);
      g.(edges := es, reported := if Reaches(es, name, h) then Warned(g.reported, h, name) else g.reported)
  }

  ghost function EnterAll(g: Graph, hs: seq<Name>, name: Name): Graph {
    if hs == [] then g else EnterOne(EnterAll(g, hs[..|hs| - 1], name), hs[|hs| - 1], name)
  }

  function Holding(g: Graph, who: Goroutine, name: Name): Graph {
    g.(held := g.held[who := HeldOf(g, who) + [name]])
  }

  /** The stack without the most recent occurrence of name. */
  function Released(s: seq<Name>, name: Name): seq<Name> {
    if s == [] then [] else
      var last := |s| - 1;
      if s[last] == name then s[..last] else Released(s[..last], name) + [s[last]]
  }

  function Releasing(g: Graph, who: Goroutine, name: Name): Graph {
    var s := Released(HeldOf(g, who), name);
    g.(held := if s == [] then g.held - {who} else g.held[who := s])
  }

  /******* The detector *******/

  class Detector {
    var held: map<Goroutine, seq<Name>>
    var edges: Edges
    var reported: set<string>

    ghost function Contents(): Graph
      reads this
    {
      Graph(held, edges, reported)
    }

    constructor ()
      ensures Contents() == Graph(map[], map[], {})
    {
      held, edges, reported := map[], map[], {};
    }

    method EnterAcquire(who: Goroutine, name: Name)
      modifies this`edges, this`reported
      ensures Contents() == EnterAll(old(Contents()), HeldOf(old(Contents()), who), name)
    {
      var hs := if who in held then held[who] else [];
      ghost var g := Contents();
      for i := 0 to |hs|
        invariant Contents() == EnterAll(g, hs[..i], name)
      {
        assert hs[..i + 1][..i] == hs[..i];
        if hs[i] != name {
          edges := AddEdge(edges, hs[i], name);
          var back := Reachable(edges, name, hs[i]);
          if back { reported := Warned(reported, hs[i], name); }
        }
      }
      assert hs[..|hs|] == hs;
    }

    method MarkHeld(who: Goroutine, name: Name)
      modifies this`held
      ensures Contents() == Holding(old(Contents()), who, name)
    {
      held := held[who := (if who in held then held[who] else []) + [name]];
    }

    method MarkReleased(who: Goroutine, name: Name)
      modifies this`held
      ensures Contents() == Releasing(old(Contents()), who, name)
      ensures LastCut(HeldOf(old(Contents()), who), name, HeldOf(Contents(), who))
      ensures forall other :: other != who ==> HeldOf(Contents(), other) == HeldOf(old(Contents()), other)
    {
      var s := RemoveLast(if who in held then held[who] else [], name);
      if s == [] { held := held - {who}; } else { held := held[who := s]; }
    }
  }

  predicate CutAt(s: seq<Name>, name: Name, i: nat, r: seq<Name>) {
    i < |s| && s[i] == name && name !in s[i + 1..] && r == s[..i] + s[i + 1..]
  }

  /** r is s with the last occurrence of name cut out, if there is one. */
  ghost predicate LastCut(s: seq<Name>, name: Name, r: seq<Name>) {
    if name in s then exists i: nat :: CutAt(s, name, i, r) else r == s
  }

  lemma CutBeneath(s: seq<Name>, name: Name, i: nat, r: seq<Name>, top: Name)
    requires CutAt(s, name, i, r) && top != name
    ensures CutAt(s + [top], name, i, r + [top])
  {
    assert (s + [top])[i + 1..] == s[i + 1..] + [top];
  }

  lemma CutTop(s: seq<Name>, name: Name)
    ensures CutAt(s + [name], name, |s|, s)
  {
    assert (s + [name])[|s| + 1..] == [] && (s + [name])[..|s|] == s;
  }

  /** A release takes away exactly the last occurrence. */
  lemma {:induction false} ReleasedLast(s: seq<Name>, name: Name)
    ensures LastCut(s, name, Released(s, name))
  {
    if s != [] {
      var n := |s| - 1;
      assert s == s[..n] + [s[n]];
      if s[n] == name {
        CutTop(s[..n], name);
      } else {
        ReleasedLast(s[..n], name);
        if name in s[..n] {
          var i: nat :| CutAt(s[..n], name, i, Released(s[..n], name));
          CutBeneath(s[..n], name, i, Released(s[..n], name), s[n]);
        }
      }
    }
  }

  method RemoveLast(s: seq<Name>, name: Name) returns (r: seq<Name>)
    ensures r == Released(s, name) && LastCut(s, name, r)
  {
    var i := |s| - 1;
    assert s[..i + 1] == s;
    ReleasedLast(s, name);
    while i >= 0
      invariant -1 <= i < |s|
      invariant Released(s, name) == Released(s[..i + 1], name) + s[i + 1..]
    {
      assert s[..i + 1][..i] == s[..i];
      if s[i] == name { return s[..i] + s[i + 1..]; }
      assert s[i..] == [s[i]] + s[i + 1..];
      i := i - 1;
    }
    return s;
  }

  /******* The search *******/

  /** Every node seen was reached, and every seen node already taken off the stack
      has all its successors seen, none of them the goal. */
  ghost predicate Searched(es: Edges, from: Name, to: Name, seen: set<Name>, open: set<Name>) {
    && from in seen && to !in seen && open <= seen
    && (forall n <- seen :: Reaches(es, from, n))
    && (forall n <- seen :: n !in open ==> forall next :: Edge(es, n, next) ==> next in seen)
  }

  ghost function Members(s: seq<Name>): set<Name> { set n | n in s }

  ghost function Nodes(es: Edges, from: Name): set<Name> {
    {from} + set a, b | a in es && b in es[a] :: b
  }

  lemma Push(es: Edges, from: Name, to: Name, seen: set<Name>, stack: seq<Name>, n: Name, next: Name)
    requires Searched(es, from, to, seen, Members(stack) + {n}) && Edge(es, n, next) && n in seen && next != to
    ensures Searched(es, from, to, seen + {next}, Members(stack + [next]) + {n})
    ensures next in Nodes(es, from)
  {
    OneStepMore(es, from, n, next);
    assert Members(stack + [next]) == Members(stack) + {next};
  }

  /** The successors of n, just taken off the stack, are marked and pushed. */
  method Expand(es: Edges, from: Name, to: Name, n: Name, seen0: set<Name>, stack0: seq<Name>)
    returns (hit: bool, seen: set<Name>, stack: seq<Name>)
    requires Searched(es, from, to, seen0, Members(stack0) + {n}) && seen0 <= Nodes(es, from)
    ensures hit ==> Reaches(es, from, to)
    ensures !hit ==> Searched(es, from, to, seen, Members(stack)) && seen <= Nodes(es, from)
    ensures !hit ==> seen0 <= seen && (seen == seen0 ==> stack == stack0)
  {
    hit, seen, stack := false, seen0, stack0;
    var left := if n in es then es[n] else {};
    while left != {}
      invariant Searched(es, from, to, seen, Members(stack) + {n})
      invariant seen0 <= seen <= Nodes(es, from) && (seen == seen0 ==> stack == stack0)
      invariant forall next :: next in left ==> Edge(es, n, next)
      invariant forall next :: Edge(es, n, next) ==> next in left || next in seen
    {
      var next :| next in left;
      left := left - {next};
      if next == to {
        OneStepMore(es, from, n, next);
        hit := true;
        return;
      }
      if next !in seen {
        Push(es, from, to, seen, stack, n, next);
        seen, stack := seen + {next}, stack + [next];
      }
    }
  }

  /** Depth-first search with an explicit stack: terminates, and answers true
      exactly when there is a path. */
  method Reachable(es: Edges, from: Name, to: Name) returns (yes: bool)
    ensures yes <==> Reaches(es, from, to)
  {
    assert Joins(es, [from], from, from);
    if from == to { return true; }
    var seen, stack := {from}, [from];
    while stack != []
      invariant Searched(es, from, to, seen, Members(stack))
      invariant seen <= Nodes(es, from)
      decreases Nodes(es, from) - seen, |stack|
    {
      var n := stack[|stack| - 1];
      assert Members(stack) == Members(stack[..|stack| - 1]) + {n};
      var hit: bool;
      hit, seen, stack := Expand(es, from, to, n, seen, stack[..|stack| - 1]);
      if hit { return true; }
    }
    if Reaches(es, from, to) {
      var p :| Joins(es, p, from, to);
      ClosedHoldsPath(es, seen, p);
    }
    return false;
  }

  /******* Warnings and cycles *******/

  /** There is a warning exactly when the graph has a cycle. */
  ghost predicate Sound(g: Graph) { g.reported != {} <==> Cyclic(g.edges) }

  lemma EnterOneSound(g: Graph, h: Name, name: Name)
    requires Sound(g)
    ensures Sound(EnterOne(g, h, name))
  {
    NewEdge(g.edges, h, name);
  }

  lemma {:induction false} EnterSound(g: Graph, hs: seq<Name>, name: Name)
    requires Sound(g)
    ensures Sound(EnterAll(g, hs, name))
  {
    if hs != [] {
      EnterSound(g, hs[..|hs| - 1], name);
      EnterOneSound(EnterAll(g, hs[..|hs| - 1], name), hs[|hs| - 1], name);
    }
  }

  /** Entering records an edge from every other held lock and forgets none. */
  lemma {:induction false} EnterEdges(g: Graph, hs: seq<Name>, name: Name)
    ensures var g' := EnterAll(g, hs, name);
            && g'.held == g.held
            && (forall a, b :: Edge(g.edges, a, b) ==> Edge(g'.edges, a, b))
            && (forall h <- hs :: h != name ==> Edge(g'.edges, h, name))
            && (forall a, b :: Edge(g'.edges, a, b) ==> Edge(g.edges, a, b) || (b == name && a in hs && a != name))
  {
    if hs != [] {
      EnterEdges(g, hs[..|hs| - 1], name);
      assert hs == hs[..|hs| - 1] + [hs[|hs| - 1]];
    }
  }

  /******* Runs *******/

  /** The graph and who is blocked on which lock. */
  datatype System = System(graph: Graph, waiting: map<Goroutine, Name>)

  datatype Event =
    | Enter(who: Goroutine, name: Name)
    | Got(who: Goroutine)
    | Release(who: Goroutine, name: Name)

  ghost predicate Step(s: System, ev: Event, s': System) {
    match ev
    case Enter(who, name) =>
      && who !in s.waiting
      && s' == System(EnterAll(s.graph, HeldOf(s.graph, who), name), s.waiting[who := name])
    case Got(who) =>
      && who in s.waiting
      && s' == System(Holding(s.graph, who, s.waiting[who]), s.waiting - {who})
    case Release(who, name) => s' == System(Releasing(s.graph, who, name), s.waiting)
  }

  ghost predicate Run(ss: seq<System>, evs: seq<Event>) {
    && |ss| == |evs| + 1 && ss[0] == System(Graph(map[], map[], {}), map[])
    && forall i :: 0 <= i < |evs| ==> Step(ss[i], evs[i], ss[i + 1])
  }

  /** Whoever waits has its order on record. */
  ghost predicate OnRecord(s: System) {
    forall who <- s.waiting :: forall h <- HeldOf(s.graph, who) :: h != s.waiting[who] ==> Edge(s.graph.edges, h, s.waiting[who])
  }

  lemma {:induction false} ReleasedSubset(s: seq<Name>, name: Name)
    ensures forall h <- Released(s, name) :: h in s
  {
    if s != [] { ReleasedSubset(s[..|s| - 1], name); }
  }

  lemma StepKeepsRecord(s: System, ev: Event, s': System)
    requires OnRecord(s) && Step(s, ev, s')
    ensures OnRecord(s')
  {
    match ev
    case Enter(who, name) => EnterEdges(s.graph, HeldOf(s.graph, who), name);
    case Got(who) =>
    case Release(who, name) => ReleasedSubset(HeldOf(s.graph, who), name);
  }

  lemma StepKeepsSound(s: System, ev: Event, s': System)
    requires Sound(s.graph) && Step(s, ev, s')
    ensures Sound(s'.graph)
  {
    if ev.Enter? { EnterSound(s.graph, HeldOf(s.graph, ev.who), ev.name); }
  }

  /** In every run there is a warning exactly when the recorded orders are cyclic. */
  lemma {:induction false} WarnedIffCyclic(ss: seq<System>, evs: seq<Event>, i: nat)
    requires Run(ss, evs) && i < |ss|
    ensures ss[i].graph.reported != {} <==> Cyclic(ss[i].graph.edges)
    ensures OnRecord(ss[i])
  {
    if i > 0 {
      WarnedIffCyclic(ss, evs, i - 1);
      StepKeepsSound(ss[i - 1], evs[i - 1], ss[i]);
      StepKeepsRecord(ss[i - 1], evs[i - 1], ss[i]);
    } else {
      assert forall p :: Cycle(map[], p) ==> Edge(map[], p[0], p[1]);
    }
  }

  function NextOf(n: nat, i: nat): nat
    requires i < n
  {
    if i + 1 < n then i + 1 else 0
  }

  /** The i-th of gs waits for a lock the next one holds. */
  predicate WaitsForNext(s: System, gs: seq<Goroutine>, i: nat)
    requires i < |gs|
  {
    gs[i] in s.waiting && s.waiting[gs[i]] in HeldOf(s.graph, gs[NextOf(|gs|, i)])
  }

  /** Each of gs waits for a lock the next one holds, the last for one the first
      holds. */
  predicate CircularWait(s: System, gs: seq<Goroutine>) {
    |gs| > 0 && forall i {:trigger WaitsForNext(s, gs, i)} :: 0 <= i < |gs| ==> WaitsForNext(s, gs, i)
  }

  /** The names of the locks waited for, in the order of the circle. */
  predicate Awaited(s: System, gs: seq<Goroutine>, ns: seq<Name>) {
    |ns| == |gs| && forall i :: 0 <= i < |gs| ==> gs[i] in s.waiting && s.waiting[gs[i]] == ns[i]
  }

  predicate AllSame(ns: seq<Name>) { forall i :: 0 <= i < |ns| ==> ns[i] == ns[0] }

  predicate StepAt(es: Edges, ns: seq<Name>, i: nat)
    requires i < |ns|
  {
    ns[i] == ns[NextOf(|ns|, i)] || Edge(es, ns[i], ns[NextOf(|ns|, i)])
  }

  /** Neighbours on the circle are equal or joined by an edge. */
  predicate Circle(es: Edges, ns: seq<Name>) {
    |ns| > 0 && forall i {:trigger StepAt(es, ns, i)} :: 0 <= i < |ns| ==> StepAt(es, ns, i)
  }

  lemma WaitingIsCircle(s: System, gs: seq<Goroutine>, ns: seq<Name>)
    requires OnRecord(s) && CircularWait(s, gs) && Awaited(s, gs, ns)
    ensures Circle(s.graph.edges, ns)
  {
    forall i | 0 <= i < |ns| ensures StepAt(s.graph.edges, ns, i) {
      assert WaitsForNext(s, gs, i);
    }
  }

  lemma SelfReached(es: Edges, a: Name)
    ensures Reaches(es, a, a)
  {
    assert Joins(es, [a], a, a);
  }

  /** The place k steps round from i. */
  function Round(n: nat, i: nat, k: nat): (j: nat)
    requires i < n && k < n
    ensures j < n
  {
    if i + k < n then i + k else i + k - n
  }

  /** Going round from i one gets to every other. */
  lemma {:induction false} RoundReaches(es: Edges, ns: seq<Name>, i: nat, k: nat)
    requires Circle(es, ns) && i < |ns| && k < |ns|
    ensures Reaches(es, ns[i], ns[Round(|ns|, i, k)])
    decreases k
  {
    SelfReached(es, ns[i]);
    if k > 0 {
      var before := Round(|ns|, i, k - 1);
      RoundReaches(es, ns, i, k - 1);
      assert StepAt(es, ns, before) && NextOf(|ns|, before) == Round(|ns|, i, k);
      if ns[before] != ns[Round(|ns|, i, k)] { OneStepMore(es, ns[i], ns[before], ns[Round(|ns|, i, k)]); }
    }
  }

  /** Somewhere neighbours differ, unless all are the same. */
  lemma {:induction false} NeighboursDiffer(ns: seq<Name>, j: nat) returns (k: nat)
    requires j < |ns| && ns[0] != ns[j]
    ensures k < j && ns[k] != ns[k + 1]
  {
    k := j - 1;
    if ns[k] == ns[j] { k := NeighboursDiffer(ns, j - 1); }
  }

  lemma CircleIsCyclic(es: Edges, ns: seq<Name>)
    requires Circle(es, ns) && !AllSame(ns)
    ensures Cyclic(es)
  {
    var j :| 0 <= j < |ns| && ns[j] != ns[0];
    var k := NeighboursDiffer(ns, j);
    assert StepAt(es, ns, k);
    RoundReaches(es, ns, k + 1, |ns| - 1);
    ClosesCycle(es, ns[k], ns[k + 1]);
  }

  /** While nothing is reported no goroutines wait for each other in a circle, but for
      circles over locks of a single name. */
  lemma QuietMeansNoDeadlock(ss: seq<System>, evs: seq<Event>, i: nat, gs: seq<Goroutine>, ns: seq<Name>)
    requires Run(ss, evs) && i < |ss| && CircularWait(ss[i], gs) && Awaited(ss[i], gs, ns) && !AllSame(ns)
    ensures ss[i].graph.reported != {}
  {
    WarnedIffCyclic(ss, evs, i);
    WaitingIsCircle(ss[i], gs, ns);
    CircleIsCyclic(ss[i].graph.edges, ns);
  }

  lemma ClosesCycle(es: Edges, a: Name, b: Name)
    requires Edge(es, a, b) && Reaches(es, b, a)
    ensures Cyclic(es)
  {
    var p :| Joins(es, p, b, a);
    assert Cycle(es, p + [b]);
  }

  /******* Circles over one name *******/

  /** Locks of the acquired name leave no edge. */
  lemma {:induction false} OneNameLeavesNoTrace(g: Graph, hs: seq<Name>, name: Name)
    requires forall i :: 0 <= i < |hs| ==> hs[i] == name
    ensures EnterAll(g, hs, name) == g
  {
    if hs != [] { OneNameLeavesNoTrace(g, hs[..|hs| - 1], name); }
  }

  /** The goroutines that hold one lock of the name, and those that also wait for one. */
  ghost predicate AllHold(s: System, gs: seq<Goroutine>, waiting: nat, name: Name) {
    && waiting <= |gs| && s.graph.edges == map[] && s.graph.reported == {}
    && (forall i :: 0 <= i < |gs| ==> HeldOf(s.graph, gs[i]) == [name])
    && (forall i :: 0 <= i < waiting ==> gs[i] in s.waiting && s.waiting[gs[i]] == name)
    && (forall g <- s.waiting :: g in gs[..waiting])
  }

  lemma Extended(ss: seq<System>, evs: seq<Event>, ev: Event, s': System)
    requires Run(ss, evs) && Step(ss[|ss| - 1], ev, s')
    ensures Run(ss + [s'], evs + [ev])
  {
  }

  lemma {:induction false} TakeOne(gs: seq<Goroutine>, name: Name) returns (ss: seq<System>, evs: seq<Event>)
    requires forall i, j :: 0 <= i < j < |gs| ==> gs[i] != gs[j]
    ensures Run(ss, evs) && AllHold(ss[|ss| - 1], gs, 0, name)
    ensures forall g :: g in ss[|ss| - 1].graph.held ==> g in gs
  {
    if gs == [] {
      ss, evs := [System(Graph(map[], map[], {}), map[])], [];
    } else {
      var n := |gs| - 1;
      ss, evs := TakeOne(gs[..n], name);
      var s := ss[|ss| - 1];
      assert gs == gs[..n] + [gs[n]] && gs[n] !in gs[..n];
      var s1 := System(s.graph, s.waiting[gs[n] := name]);
      Extended(ss, evs, Enter(gs[n], name), s1);
      var s2 := System(Holding(s.graph, gs[n], name), s1.waiting - {gs[n]});
      Extended(ss + [s1], evs + [Enter(gs[n], name)], Got(gs[n]), s2);
      ss, evs := ss + [s1] + [s2], evs + [Enter(gs[n], name)] + [Got(gs[n])];
      assert forall i :: 0 <= i < n ==> gs[i] == gs[..n][i] && HeldOf(s2.graph, gs[i]) == HeldOf(s.graph, gs[..n][i]);
      assert HeldOf(s.graph, gs[n]) == [];
    }
  }

  lemma {:induction false} WaitToo(gs: seq<Goroutine>, name: Name, m: nat) returns (ss: seq<System>, evs: seq<Event>)
    requires m <= |gs| && forall i, j :: 0 <= i < j < |gs| ==> gs[i] != gs[j]
    ensures Run(ss, evs) && AllHold(ss[|ss| - 1], gs, m, name)
    decreases m
  {
    if m == 0 {
      ss, evs := TakeOne(gs, name);
    } else {
      ss, evs := WaitToo(gs, name, m - 1);
      var s := ss[|ss| - 1];
      OneNameLeavesNoTrace(s.graph, [name], name);
      var s' := System(s.graph, s.waiting[gs[m - 1] := name]);
      assert gs[m - 1] !in gs[..m - 1];
      Extended(ss, evs, Enter(gs[m - 1], name), s');
      ss, evs := ss + [s'], evs + [Enter(gs[m - 1], name)];
      assert gs[..m] == gs[..m - 1] + [gs[m - 1]];
    }
  }

  /** And those circles do go unreported: any number of goroutines can come to wait in
      a circle over locks of one name with nothing on record. */
  lemma OneNameCircleUnseen(gs: seq<Goroutine>, name: Name) returns (ss: seq<System>, evs: seq<Event>)
    requires |gs| > 0 && forall i, j :: 0 <= i < j < |gs| ==> gs[i] != gs[j]
    ensures Run(ss, evs) && CircularWait(ss[|ss| - 1], gs) && ss[|ss| - 1].graph.reported == {}
    ensures forall i :: 0 <= i < |gs| ==> gs[i] in ss[|ss| - 1].waiting && ss[|ss| - 1].waiting[gs[i]] == name
  {
    ss, evs := WaitToo(gs, name, |gs|);
  }
}
