/** The LRU eviction policy (internal/cache/policy.go): a list, most recent first. */
module Lru {
  import opened Util
  import opened Lists

  function Touch(order: seq<Id>, id: Id): seq<Id> {
    if id in order then [id] + Drop(order, id) else order
  }

  function Add(order: seq<Id>, id: Id): seq<Id> {
    if id in order then Touch(order, id) else [id] + order
  }

  lemma AddDistinct(order: seq<Id>, id: Id)
    requires Distinct(order)
    ensures Distinct(Add(order, id)) && Members(Add(order, id)) == Members(order) + {id}
    ensures Distinct(Touch(order, id)) && Members(Touch(order, id)) == Members(order)
  {
    Dropped(order, id);
    Prepended(id, Drop(order, id));
    if id !in order { Prepended(id, order); }
  }

  lemma DropDistinct(order: seq<Id>, id: Id)
    requires Distinct(order)
    ensures Distinct(Drop(order, id)) && Members(Drop(order, id)) == Members(order) - {id}
  {
    Dropped(order, id);
  }

  /** Dropping the last element shortens the list by it. */
  lemma {:induction false} DropLast(order: seq<Id>)
    requires Distinct(order) && order != []
    ensures Drop(order, order[|order| - 1]) == order[..|order| - 1]
  {
    if |order| > 1 { DropLast(order[1..]); }
  }

  class Policy {
    var order: seq<Id>

    constructor ()
      ensures order == []
    {
      order := [];
    }

    method AddId(id: Id)
      requires Distinct(order)
      modifies this
      ensures Distinct(order) && order == Add(old(order), id) && order[0] == id
    {
      AddDistinct(order, id);
      order := if id in order then [id] + Drop(order, id) else [id] + order;
    }

    method AccessId(id: Id)
      requires Distinct(order)
      modifies this
      ensures Distinct(order) && order == Touch(old(order), id)
    {
      AddDistinct(order, id);
      if id in order { order := [id] + Drop(order, id); }
    }

    method Victim() returns (id: Option<Id>)
      ensures id == if order == [] then None else Some(order[|order| - 1])
    {
      return if order == [] then None else Some(order[|order| - 1]);
    }

    method RemoveId(id: Id)
      requires Distinct(order)
      modifies this
      ensures Distinct(order) && order == Drop(old(order), id)
    {
      DropDistinct(order, id);
      if id in order { order := Drop(order, id); } else { DropNothing(order, id); }
    }
  }

  /******* Runs *******/

  datatype Op = AddOp(id: Id) | AccessOp(id: Id) | RemoveOp(id: Id)

  function Replay(ops: seq<Op>): seq<Id> {
    if ops == [] then [] else
      var before := Replay(ops[..|ops| - 1]);
      match ops[|ops| - 1]
      case AddOp(id) => Add(before, id)
      case AccessOp(id) => Touch(before, id)
      case RemoveOp(id) => Drop(before, id)
  }

  /** The number of the last call that requested the id. */
  function LastUse(ops: seq<Op>, id: Id): (n: nat)
    ensures n <= |ops|
  {
    if ops == [] then 0 else
      var last := ops[|ops| - 1];
      if last == AddOp(id) || last == AccessOp(id) then |ops| else LastUse(ops[..|ops| - 1], id)
  }

  /** Added, and not removed since. */
  predicate Resident(ops: seq<Op>, id: Id) {
    if ops == [] then false else
      var last := ops[|ops| - 1];
      last == AddOp(id) || (last != RemoveOp(id) && Resident(ops[..|ops| - 1], id))
  }

  predicate RecentFirst(order: seq<Id>, ops: seq<Op>) {
    forall i, j :: 0 <= i < j < |order| ==> LastUse(ops, order[i]) > LastUse(ops, order[j])
  }

  lemma CutInOrder(order: seq<Id>, id: Id, ops: seq<Op>)
    requires RecentFirst(order, ops)
    ensures RecentFirst(Drop(order, id), ops)
  {
    if id in order {
      var i := DropCuts(order, id);
    } else {
      DropNothing(order, id);
    }
  }

  /** A call leaves the last uses of other ids as they were. */
  lemma OthersUse(ops: seq<Op>, order: seq<Id>)
    requires ops != [] && RecentFirst(order, ops[..|ops| - 1])
    requires ops[|ops| - 1].RemoveOp? || ops[|ops| - 1].id !in order
    ensures RecentFirst(order, ops)
  {
    forall i | 0 <= i < |order| ensures LastUse(ops, order[i]) == LastUse(ops[..|ops| - 1], order[i]) {
      assert order[i] in order;
    }
  }

  lemma NewestFirst(ops: seq<Op>, id: Id, rest: seq<Id>)
    requires ops != [] && RecentFirst(rest, ops) && id !in rest && (ops[|ops| - 1] == AddOp(id) || ops[|ops| - 1] == AccessOp(id))
    ensures RecentFirst([id] + rest, ops)
  {
    var order := [id] + rest;
    forall j | 0 < j < |order| ensures LastUse(ops, order[j]) < |ops| {
      assert order[j] == rest[j - 1] && order[j] in rest;
    }
  }

  lemma RequestInOrder(ops: seq<Op>, order: seq<Id>, id: Id)
    requires ops != [] && Distinct(order) && RecentFirst(order, ops[..|ops| - 1])
    requires ops[|ops| - 1] == AddOp(id) || ops[|ops| - 1] == AccessOp(id)
    ensures RecentFirst([id] + Drop(order, id), ops)
  {
    CutInOrder(order, id, ops[..|ops| - 1]);
    Dropped(order, id);
    OthersUse(ops, Drop(order, id));
    NewestFirst(ops, id, Drop(order, id));
  }

  /** After any calls the list holds exactly the residents, the most recently requested
      first. */
  lemma {:induction false} RecencyOrder(ops: seq<Op>)
    ensures Distinct(Replay(ops)) && RecentFirst(Replay(ops), ops)
    ensures forall id :: id in Replay(ops) <==> Resident(ops, id)
  {
    if ops != [] {
      var before, last := ops[..|ops| - 1], ops[|ops| - 1];
      var order := Replay(before);
      RecencyOrder(before);
      AddDistinct(order, last.id);
      Dropped(order, last.id);
      forall id ensures id in Replay(ops) <==> Resident(ops, id) {
        assert id in order <==> Resident(before, id);
        assert id in Members(Replay(ops)) <==> id in Replay(ops);
        assert id in Members(order) <==> id in order;
      }
      CallInOrder(ops, order);
      DropDistinct(order, last.id);
    }
  }

  lemma CallInOrder(ops: seq<Op>, order: seq<Id>)
    requires ops != [] && Distinct(order) && order == Replay(ops[..|ops| - 1]) && RecentFirst(order, ops[..|ops| - 1])
    ensures RecentFirst(Replay(ops), ops)
  {
    match ops[|ops| - 1]
    case AddOp(id) =>
      RequestInOrder(ops, order, id);
      if id !in order { DropNothing(order, id); }
    case AccessOp(id) => if id in order { RequestInOrder(ops, order, id); } else { OthersUse(ops, order); }
    case RemoveOp(id) =>
      CutInOrder(order, id, ops[..|ops| - 1]);
      OthersUse(ops, Drop(order, id));
  }
}
