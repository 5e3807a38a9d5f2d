/** The completion sink (internal/coordinator/effect.go): claims a key in the ledger
    and only then emits, so no key is emitted twice. */
module Effects {
  import opened Util

  class CompletionSink {
    var claimed: set<string>
    var emits: seq<string>

    /** Everything emitted was claimed first, and nothing was emitted twice. */
    predicate Valid()
      reads this
    {
      NoRepeats(emits) && forall key <- emits :: key in claimed
    }

    constructor ()
      ensures Valid() && claimed == {} && emits == []
    {
      claimed, emits := {}, [];
    }

    method Claim(key: string) returns (first: bool)
      modifies this`claimed
      ensures first <==> key !in old(claimed)
      ensures claimed == old(claimed) + {key}
    {
      first := key !in claimed;
      claimed := claimed + {key};
    }

    /** A lost claim is a success without an event; a failed emit keeps the claim,
        so its event is never sent. */
    method Apply(key: string, delivers: bool) returns (ok: bool)
      requires Valid()
      modifies this
      ensures Valid()
      ensures ok <==> key in old(claimed) || delivers
      ensures claimed == old(claimed) + {key}
      ensures emits == if key !in old(claimed) && delivers then old(emits) + [key] else old(emits)
    {
      var first := Claim(key);
      if !first { return true; }
      if delivers { emits := emits + [key]; }
      return delivers;
    }
  }
}
