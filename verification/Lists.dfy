/** Linked lists of distinct ids, as the cache's policies keep them. */
module Lists {

  type Id = string

  predicate Distinct(s: seq<Id>) { forall i, j :: 0 <= i < j < |s| ==> s[i] != s[j] }

  function Members(s: seq<Id>): set<Id> { set x | x in s }

  /** The list without the element id. */
  function Drop(s: seq<Id>, id: Id): seq<Id> {
    if s == [] then [] else if s[0] == id then s[1..] else [s[0]] + Drop(s[1..], id)
  }

  lemma {:induction false} Dropped(s: seq<Id>, id: Id)
    requires Distinct(s)
    ensures Distinct(Drop(s, id))
    ensures forall x :: x in Drop(s, id) <==> x in s && x != id
    ensures |Drop(s, id)| == |s| - if id in s then 1 else 0
  {
    if s != [] {
      assert s == [s[0]] + s[1..];
      Dropped(s[1..], id);
      if s[0] != id { Prepended(s[0], Drop(s[1..], id)); }
    }
  }

  predicate CutAt(s: seq<Id>, id: Id, i: nat, r: seq<Id>) {
    i < |s| && s[i] == id && r == s[..i] + s[i + 1..]
  }

  lemma CutBehind(x: Id, s: seq<Id>, id: Id, i: nat, r: seq<Id>)
    requires CutAt(s, id, i, r)
    ensures CutAt([x] + s, id, i + 1, [x] + r)
  {
    assert ([x] + s)[..i + 1] == [x] + s[..i] && ([x] + s)[i + 2..] == s[i + 1..];
  }

  /** Dropping an element cuts it out and leaves the others in their order. */
  lemma {:induction false} DropCuts(s: seq<Id>, id: Id) returns (i: nat)
    requires id in s
    ensures CutAt(s, id, i, Drop(s, id))
  {
    assert s == [s[0]] + s[1..];
    if s[0] == id {
      assert s[..0] + s[1..] == s[1..];
      i := 0;
    } else {
      i := DropCuts(s[1..], id);
      CutBehind(s[0], s[1..], id, i, Drop(s[1..], id));
      i := i + 1;
    }
  }

  lemma {:induction false} DropNothing(s: seq<Id>, id: Id)
    requires id !in s
    ensures Drop(s, id) == s
  {
    if s != [] { DropNothing(s[1..], id); }
  }

  lemma Prepended(id: Id, s: seq<Id>)
    requires Distinct(s) && id !in s
    ensures Distinct([id] + s) && forall x :: x in [id] + s <==> x in s || x == id
  {
  }

  lemma {:induction false} MemberCount(s: seq<Id>)
    requires Distinct(s)
    ensures |Members(s)| == |s|
  {
    if s != [] {
      MemberCount(s[1..]);
      assert s == [s[0]] + s[1..];
      assert Members(s) == {s[0]} + Members(s[1..]);
    }
  }

  lemma Appended(s: seq<Id>, id: Id)
    requires Distinct(s) && id !in s
    ensures Distinct(s + [id]) && forall x :: x in s + [id] <==> x in s || x == id
  {
  }

  lemma Headless(s: seq<Id>)
    requires Distinct(s) && s != []
    ensures Distinct(s[1..]) && s[0] !in s[1..] && forall x :: x in s <==> x == s[0] || x in s[1..]
  {
    assert s == [s[0]] + s[1..];
  }
}
