/** The lock-order detector read off the events alone (internal/diag/lock.go): which
    locks a goroutine holds, which edges are recorded, and which pairs are warned of. */
module LockHistory {
  import opened Util
  import opened Keys
  import opened LockOrder

  /******* What the events say *******/

  /** The lock who entered last. */
  function Wanted(evs: seq<Event>, who: Goroutine): Option<Name> {
    if evs == [] then None else
      var last := evs[|evs| - 1];
      if last.Enter? && last.who == who then Some(last.name) else Wanted(evs[..|evs| - 1], who)
  }

  /** How often who has got the lock and not released it since. */
  function Outstanding(evs: seq<Event>, who: Goroutine, name: Name): nat {
    if evs == [] then 0 else
      var before, ev := evs[..|evs| - 1], evs[|evs| - 1];
      var n := Outstanding(before, who, name);
      if ev == Got(who) && Wanted(before, who) == Some(name) then n + 1
      else if ev == Release(who, name) && n > 0 then n - 1
      else n
  }

  /** Call k enters b while its goroutine holds a. */
  predicate EntersHolding(evs: seq<Event>, k: nat, a: Name, b: Name)
    requires k < |evs|
  {
    evs[k].Enter? && evs[k].name == b && Outstanding(evs[..k], evs[k].who, a) > 0
  }

  ghost predicate OrderSeen(evs: seq<Event>, a: Name, b: Name) {
    a != b && exists k {:trigger EntersHolding(evs, k, a, b)} :: 0 <= k < |evs| && EntersHolding(evs, k, a, b)
  }

  /******* Stacks *******/

  lemma {:induction false} ReleasedCount(s: seq<Name>, name: Name, x: Name)
    ensures multiset(Released(s, name))[x] == multiset(s)[x] - if x == name && name in s then 1 else 0
  {
    if s != [] {
      var n := |s| - 1;
      assert s == s[..n] + [s[n]];
      ReleasedCount(s[..n], name, x);
      if s[n] != name { assert multiset(Released(s[..n], name) + [s[n]]) == multiset(Released(s[..n], name)) + multiset{s[n]}; }
    }
  }

  lemma Counted(s: seq<Name>, x: Name)
    ensures multiset(s)[x] > 0 <==> x in s
  {
    assert x in multiset(s) <==> x in s;
  }

  function Held(s: System, who: Goroutine, name: Name): nat { multiset(HeldOf(s.graph, who))[name] }

  lemma EntersKeepHeld(s: System, ev: Event, s': System)
    requires Step(s, ev, s') && ev.Enter?
    ensures s'.graph.held == s.graph.held
  {
    EnterEdges(s.graph, HeldOf(s.graph, ev.who), ev.name);
  }

  lemma PushedHeld(g: Graph, w: Goroutine, n: Name, who: Goroutine, name: Name)
    ensures multiset(HeldOf(Holding(g, w, n), who))[name] ==
              multiset(HeldOf(g, who))[name] + if w == who && n == name then 1 else 0
  {
  }

  lemma PoppedHeld(g: Graph, w: Goroutine, n: Name, who: Goroutine, name: Name)
    ensures multiset(HeldOf(Releasing(g, w, n), who))[name] ==
              multiset(HeldOf(g, who))[name] - if w == who && n == name && multiset(HeldOf(g, who))[name] > 0 then 1 else 0
  {
    ReleasedCount(HeldOf(g, w), n, name);
    Counted(HeldOf(g, w), n);
    assert HeldOf(Releasing(g, w, n), who) == if w == who then Released(HeldOf(g, w), n) else HeldOf(g, who);
  }

  /** One event and one goroutine's stack. */
  lemma StepHeld(s: System, ev: Event, s': System, who: Goroutine, name: Name)
    requires Step(s, ev, s')
    ensures Held(s', who, name) ==
              if ev == Got(who) && who in s.waiting && s.waiting[who] == name then Held(s, who, name) + 1
              else if ev == Release(who, name) && Held(s, who, name) > 0 then Held(s, who, name) - 1
              else Held(s, who, name)
  {
    match ev
    case Enter(_, _) => EntersKeepHeld(s, ev, s');
    case Got(w) => PushedHeld(s.graph, w, s.waiting[w], who, name);
    case Release(w, n) => PoppedHeld(s.graph, w, n, who, name);
  }

  /** Whoever waits waits for the lock it entered last. */
  lemma {:induction false} WaitsForWanted(ss: seq<System>, evs: seq<Event>, i: nat, who: Goroutine)
    requires Run(ss, evs) && i < |ss| && who in ss[i].waiting
    ensures Wanted(evs[..i], who) == Some(ss[i].waiting[who])
  {
    if i > 0 {
      assert evs[..i][..i - 1] == evs[..i - 1] && Step(ss[i - 1], evs[i - 1], ss[i]);
      if !(evs[i - 1].Enter? && evs[i - 1].who == who) { WaitsForWanted(ss, evs, i - 1, who); }
    }
  }

  lemma OutstandingNext(evs: seq<Event>, i: nat, who: Goroutine, name: Name)
    requires i < |evs|
    ensures Outstanding(evs[..i + 1], who, name) ==
              var n := Outstanding(evs[..i], who, name);
              if evs[i] == Got(who) && Wanted(evs[..i], who) == Some(name) then n + 1
              else if evs[i] == Release(who, name) && n > 0 then n - 1
              else n
  {
    assert evs[..i + 1][..i] == evs[..i];
  }

  lemma HeldNext(ss: seq<System>, evs: seq<Event>, i: nat, who: Goroutine, name: Name)
    requires Run(ss, evs) && i < |evs| && Held(ss[i], who, name) == Outstanding(evs[..i], who, name)
    ensures Held(ss[i + 1], who, name) == Outstanding(evs[..i + 1], who, name)
  {
    assert Step(ss[i], evs[i], ss[i + 1]);
    StepHeld(ss[i], evs[i], ss[i + 1], who, name);
    OutstandingNext(evs, i, who, name);
    if evs[i] == Got(who) { WaitsForWanted(ss, evs, i, who); }
  }

  /** In every run a goroutine's stack holds each name as often as it got the lock and has
      not released it since. */
  lemma {:induction false} HeldAsTaken(ss: seq<System>, evs: seq<Event>, i: nat, who: Goroutine, name: Name)
    requires Run(ss, evs) && i < |ss|
    ensures multiset(HeldOf(ss[i].graph, who))[name] == Outstanding(evs[..i], who, name)
  {
    if i > 0 {
      HeldAsTaken(ss, evs, i - 1, who, name);
      HeldNext(ss, evs, i - 1, who, name);
    }
  }

  /******* Edges *******/

  lemma StepEdges(s: System, ev: Event, s': System, a: Name, b: Name)
    requires Step(s, ev, s')
    ensures Edge(s'.graph.edges, a, b) <==>
              Edge(s.graph.edges, a, b) || (ev.Enter? && ev.name == b && a != b && a in HeldOf(s.graph, ev.who))
  {
    if ev.Enter? { EnterEdges(s.graph, HeldOf(s.graph, ev.who), ev.name); }
  }

  lemma OrderSeenNext(evs: seq<Event>, i: nat, a: Name, b: Name)
    requires 0 < i <= |evs|
    ensures OrderSeen(evs[..i], a, b) <==> OrderSeen(evs[..i - 1], a, b) || (a != b && EntersHolding(evs, i - 1, a, b))
  {
    assert forall k :: 0 <= k < i ==> evs[..i][k] == evs[k] && evs[..i][..k] == evs[..k];
    assert forall k :: 0 <= k < i - 1 ==> evs[..i - 1][k] == evs[k] && evs[..i - 1][..k] == evs[..k];
    assert forall k {:trigger EntersHolding(evs[..i], k, a, b)} :: 0 <= k < i ==>
      (EntersHolding(evs[..i], k, a, b) <==> EntersHolding(evs, k, a, b));
    assert forall k {:trigger EntersHolding(evs[..i - 1], k, a, b)} {:trigger EntersHolding(evs, k, a, b)} :: 0 <= k < i - 1 ==>
      (EntersHolding(evs[..i - 1], k, a, b) <==> EntersHolding(evs, k, a, b));
    assert EntersHolding(evs[..i], i - 1, a, b) <==> EntersHolding(evs, i - 1, a, b);
    if OrderSeen(evs[..i - 1], a, b) {
      var k :| 0 <= k < i - 1 && EntersHolding(evs[..i - 1], k, a, b);
      assert EntersHolding(evs[..i], k, a, b);
    }
  }

  /** In every run an edge is recorded if and only if some goroutine entered the one lock
      while it held the other, got and not released. */
  lemma {:induction false} EdgesAsEntered(ss: seq<System>, evs: seq<Event>, i: nat, a: Name, b: Name)
    requires Run(ss, evs) && i < |ss|
    ensures Edge(ss[i].graph.edges, a, b) <==> OrderSeen(evs[..i], a, b)
  {
    if i > 0 {
      EdgesAsEntered(ss, evs, i - 1, a, b);
      assert Step(ss[i - 1], evs[i - 1], ss[i]);
      StepEdges(ss[i - 1], evs[i - 1], ss[i], a, b);
      OrderSeenNext(evs, i, a, b);
      if evs[i - 1].Enter? {
        HeldAsTaken(ss, evs, i - 1, evs[i - 1].who, a);
        Counted(HeldOf(ss[i - 1].graph, evs[i - 1].who), a);
      }
    }
  }

  /******* Warnings *******/

  function Pair(a: Name, b: Name): string { a + ['|'] + b }

  lemma WarnedPairs(reported: set<string>, a: Name, b: Name)
    ensures Warned(reported, a, b) ==
              if Pair(a, b) in reported || Pair(b, a) in reported then reported else reported + {Pair(a, b)}
  {
  }

  predicate Reported(g: Graph, a: Name, b: Name) { Pair(a, b) in g.reported || Pair(b, a) in g.reported }

  /** A path that starts at name needs no edge back into it. */
  lemma {:induction false} NoWayThrough(es: Edges, h: Name, name: Name, p: seq<Name>)
    requires Path(AddEdge(es, h, name), p) && p[0] == name
    ensures Reaches(es, name, p[|p| - 1])
    decreases |p|
  {
    if i :| 0 <= i < |p| - 1 && p[i] == h && p[i + 1] == name {
      var q := p[i + 1..];
      forall k | 0 <= k < |q| - 1 ensures Edge(AddEdge(es, h, name), q[k], q[k + 1]) {
        assert Edge(AddEdge(es, h, name), p[i + 1 + k], p[i + 2 + k]);
      }
      NoWayThrough(es, h, name, q);
    } else {
      forall k | 0 <= k < |p| - 1 ensures Edge(es, p[k], p[k + 1]) { assert Edge(AddEdge(es, h, name), p[k], p[k + 1]); }
      assert Joins(es, p, name, p[|p| - 1]);
    }
  }

  lemma EnterOneWarns(g: Graph, h: Name, name: Name, x: Name)
    ensures var g' := EnterOne(g, h, name);
            && (Reaches(g'.edges, name, x) ==> Reaches(g.edges, name, x))
            && (Reported(g, x, name) ==> Reported(g', x, name))
            && (h != name && Reaches(g'.edges, name, h) ==> Reported(g', h, name))
  {
    var g' := EnterOne(g, h, name);
    WarnedPairs(g.reported, h, name);
    if h != name && Reaches(g'.edges, name, x) {
      var p :| Joins(g'.edges, p, name, x);
      NoWayThrough(g.edges, h, name, p);
    }
  }

  lemma {:induction false} EnterWarns(g: Graph, hs: seq<Name>, name: Name, h: Name)
    requires h in hs && h != name && Reaches(EnterAll(g, hs, name).edges, name, h)
    ensures Reported(EnterAll(g, hs, name), h, name)
  {
    var n := |hs| - 1;
    assert hs == hs[..n] + [hs[n]];
    EnterOneWarns(EnterAll(g, hs[..n], name), hs[n], name, h);
    if hs[n] != h { EnterWarns(g, hs[..n], name, h); }
  }

  /** Whoever enters a lock that leads back to one it holds has that pair on report. */
  lemma EnterReports(ss: seq<System>, evs: seq<Event>, i: nat, h: Name)
    requires Run(ss, evs) && i < |evs| && evs[i].Enter? && Outstanding(evs[..i], evs[i].who, h) > 0 && h != evs[i].name
    requires Reaches(ss[i + 1].graph.edges, evs[i].name, h)
    ensures Reported(ss[i + 1].graph, h, evs[i].name)
  {
    HeldAsTaken(ss, evs, i, evs[i].who, h);
    Counted(HeldOf(ss[i].graph, evs[i].who), h);
    assert Step(ss[i], evs[i], ss[i + 1]);
    EnterWarns(ss[i].graph, HeldOf(ss[i].graph, evs[i].who), evs[i].name, h);
  }

  /** The string stands for an edge whose head leads back to its tail. */
  ghost predicate Inconsistent(es: Edges, x: string) {
    exists a, b :: x == Pair(a, b) && a != b && Edge(es, a, b) && Reaches(es, b, a)
  }

  lemma ReachesKept(es: Edges, h: Name, name: Name, a: Name, b: Name)
    requires Reaches(es, a, b)
    ensures Reaches(AddEdge(es, h, name), a, b)
  {
    var p :| Joins(es, p, a, b);
    PathKept(es, h, name, p);
    assert Joins(AddEdge(es, h, name), p, a, b);
  }

  lemma InconsistentKept(es: Edges, h: Name, name: Name, x: string)
    requires Inconsistent(es, x)
    ensures Inconsistent(AddEdge(es, h, name), x)
  {
    var a, b :| x == Pair(a, b) && a != b && Edge(es, a, b) && Reaches(es, b, a);
    ReachesKept(es, h, name, b, a);
    assert Edge(AddEdge(es, h, name), a, b);
  }

  ghost predicate AllInconsistent(g: Graph) { forall x <- g.reported :: Inconsistent(g.edges, x) }

  lemma EnterOneInconsistent(g: Graph, h: Name, name: Name)
    requires AllInconsistent(g)
    ensures AllInconsistent(EnterOne(g, h, name))
  {
    var g' := EnterOne(g, h, name);
    WarnedPairs(g.reported, h, name);
    if h != name {
      forall x <- g'.reported ensures Inconsistent(g'.edges, x) {
        if x in g.reported {
          InconsistentKept(g.edges, h, name, x);
        } else {
          assert x == Pair(h, name) && Edge(g'.edges, h, name);
        }
      }
    }
  }

  lemma {:induction false} EnterInconsistent(g: Graph, hs: seq<Name>, name: Name)
    requires AllInconsistent(g)
    ensures AllInconsistent(EnterAll(g, hs, name))
  {
    if hs != [] {
      EnterInconsistent(g, hs[..|hs| - 1], name);
      EnterOneInconsistent(EnterAll(g, hs[..|hs| - 1], name), hs[|hs| - 1], name);
    }
  }

  /** And nothing else is on report: every warning names an order that was seen and whose
      reverse the recorded orders lead to. */
  lemma {:induction false} WarningsAreReal(ss: seq<System>, evs: seq<Event>, i: nat, x: string)
    requires Run(ss, evs) && i < |ss| && x in ss[i].graph.reported
    ensures AllInconsistent(ss[i].graph)
    ensures exists a, b :: x == Pair(a, b) && OrderSeen(evs[..i], a, b) && Reaches(ss[i].graph.edges, b, a)
  {
    RunsInconsistent(ss, evs, i);
    var a, b :| x == Pair(a, b) && a != b && Edge(ss[i].graph.edges, a, b) && Reaches(ss[i].graph.edges, b, a);
    EdgesAsEntered(ss, evs, i, a, b);
  }

  lemma {:induction false} RunsInconsistent(ss: seq<System>, evs: seq<Event>, i: nat)
    requires Run(ss, evs) && i < |ss|
    ensures AllInconsistent(ss[i].graph)
  {
    if i > 0 {
      RunsInconsistent(ss, evs, i - 1);
      assert Step(ss[i - 1], evs[i - 1], ss[i]);
      if evs[i - 1].Enter? { EnterInconsistent(ss[i - 1].graph, HeldOf(ss[i - 1].graph, evs[i - 1].who), evs[i - 1].name); }
    }
  }

  /******* Each pair once *******/

  predicate Clean(n: Name) { '|' !in n }

  /** Of a pair of locks one order at most is on report. */
  ghost predicate OncePerPair(g: Graph) {
    forall a, b :: Clean(a) && Clean(b) && a != b ==> !(Pair(a, b) in g.reported && Pair(b, a) in g.reported)
  }

  lemma SamePair(a: Name, b: Name, c: Name, d: Name)
    requires Clean(a) && Clean(c) && Pair(a, b) == Pair(c, d)
    ensures a == c && b == d
  {
    SameCut(a, b, c, d, '|');
  }

  lemma EnterOneOnce(g: Graph, h: Name, name: Name)
    requires OncePerPair(g) && Clean(h) && Clean(name)
    ensures OncePerPair(EnterOne(g, h, name))
  {
    var g' := EnterOne(g, h, name);
    WarnedPairs(g.reported, h, name);
    forall a, b | Clean(a) && Clean(b) && a != b ensures !(Pair(a, b) in g'.reported && Pair(b, a) in g'.reported) {
      if Pair(a, b) in g'.reported && Pair(b, a) in g'.reported {
        if Pair(a, b) !in g.reported {
          SamePair(a, b, h, name);
          if Pair(b, a) !in g.reported { SamePair(b, a, h, name); }
        } else {
          SamePair(b, a, h, name);
        }
      }
    }
  }

  lemma {:induction false} EnterOnce(g: Graph, hs: seq<Name>, name: Name)
    requires OncePerPair(g) && Clean(name) && forall h <- hs :: Clean(h)
    ensures OncePerPair(EnterAll(g, hs, name))
  {
    if hs != [] {
      assert hs == hs[..|hs| - 1] + [hs[|hs| - 1]];
      EnterOnce(g, hs[..|hs| - 1], name);
      EnterOneOnce(EnterAll(g, hs[..|hs| - 1], name), hs[|hs| - 1], name);
    }
  }

  ghost predicate CleanNames(evs: seq<Event>) { forall k :: 0 <= k < |evs| && evs[k].Enter? ==> Clean(evs[k].name) }

  lemma {:induction false} WantedClean(evs: seq<Event>, who: Goroutine)
    requires CleanNames(evs)
    ensures Wanted(evs, who).Some? ==> Clean(Wanted(evs, who).value)
  {
    if evs != [] { WantedClean(evs[..|evs| - 1], who); }
  }

  lemma {:induction false} TakenClean(evs: seq<Event>, who: Goroutine, name: Name)
    requires CleanNames(evs) && Outstanding(evs, who, name) > 0
    ensures Clean(name)
  {
    var before := evs[..|evs| - 1];
    WantedClean(before, who);
    if Outstanding(before, who, name) > 0 { TakenClean(before, who, name); }
  }

  /** When no name contains the separator, a pair is warned of in one order only. */
  lemma {:induction false} WarnedOnce(ss: seq<System>, evs: seq<Event>, i: nat)
    requires Run(ss, evs) && i < |ss| && CleanNames(evs)
    ensures OncePerPair(ss[i].graph)
  {
    if i > 0 {
      WarnedOnce(ss, evs, i - 1);
      assert Step(ss[i - 1], evs[i - 1], ss[i]);
      if evs[i - 1].Enter? {
        var hs := HeldOf(ss[i - 1].graph, evs[i - 1].who);
        forall h <- hs ensures Clean(h) {
          HeldAsTaken(ss, evs, i - 1, evs[i - 1].who, h);
          Counted(hs, h);
          TakenClean(evs[..i - 1], evs[i - 1].who, h);
        }
        EnterOnce(ss[i - 1].graph, hs, evs[i - 1].name);
      }
    }
  }
}
