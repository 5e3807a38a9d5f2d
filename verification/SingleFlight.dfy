/** Concurrent Get calls on the cache (internal/cache/local_cache.go): a first
    critical section that hits, joins a fetch under way or starts one, the fetch
    outside the lock, and a second critical section that admits the object. */
module SingleFlight {
  import opened Util
  import opened Lists
  import Cache

  type Caller = nat

  /** Where a Get call is. Missed: it owns the fetch and has not begun it.
      Fetched: it has woken its waiters and not yet taken the lock again. */
  datatype Phase =
    | Missed(id: Id)
    | Fetching(id: Id)
    | Fetched(id: Id, size: Option<nat>)
    | Waiting(id: Id, owner: Caller)
    | Returned

  datatype State = State(
    index: Cache.Index,
    inflight: map<Id, Caller>,
    calls: map<Caller, Phase>,
    hits: nat,
    misses: nat,
    shared: nat,
    fetches: nat)

  datatype Event =
    | Get(c: Caller, id: Id)
    | BeginFetch(c: Caller)
    | EndFetch(c: Caller, size: Option<nat>)   // None: the fetch failed
    | Finish(c: Caller)
    | WakeUp(c: Caller)

  predicate Owns(p: Phase) { p.Missed? || p.Fetching? || p.Fetched? }

  predicate Enabled(s: State, ev: Event) {
    match ev
    case Get(c, _) => c !in s.calls
    case BeginFetch(c) => c in s.calls && s.calls[c].Missed?
    case EndFetch(c, _) => c in s.calls && s.calls[c].Fetching?
    case Finish(c) => c in s.calls && s.calls[c].Fetched?
    case WakeUp(c) =>
      && c in s.calls && s.calls[c].Waiting?
      && s.calls[c].owner in s.calls && (s.calls[s.calls[c].owner].Fetched? || s.calls[s.calls[c].owner].Returned?)
  }

  function Lookup(s: State, c: Caller, id: Id): State {
    if id in s.index.objects then
      s.(index := s.index.(policy := Cache.Access(s.index.policy, id)), calls := s.calls[c := Returned], hits := s.hits + 1)
    else if id in s.inflight then
      s.(calls := s.calls[c := Waiting(id, s.inflight[id])], shared := s.shared + 1)
    else
      s.(calls := s.calls[c := Missed(id)], inflight := s.inflight[id := c], misses := s.misses + 1)
  }

  /** What admission does to the index; it is always valid (RunsKeepInv), which is
      what eviction needs to end. */
  ghost function Admitted(index: Cache.Index, id: Id, size: nat): Cache.Index {
    if Cache.Valid(index) then Cache.Admit(index, id, size) else index
  }

  ghost function After(s: State, ev: Event): State
    requires Enabled(s, ev)
  {
    match ev
    case Get(c, id) => Lookup(s, c, id)
    case BeginFetch(c) => s.(calls := s.calls[c := Fetching(s.calls[c].id)], fetches := s.fetches + 1)
    case EndFetch(c, size) => s.(calls := s.calls[c := Fetched(s.calls[c].id, size)])
    case Finish(c) =>
      var (id, size) := (s.calls[c].id, s.calls[c].size);
      s.(inflight := s.inflight - {id}, calls := s.calls[c := Returned],
         index := if size.Some? then Admitted(s.index, id, size.value) else s.index)
    case WakeUp(c) => s.(calls := s.calls[c := Returned])
  }

  /******* The invariant *******/

  type Calls = map<Caller, Phase>

  function MissedCalls(calls: Calls): set<Caller> { set c <- calls | calls[c].Missed? }

  /** A call that owns a fetch is registered under its id. */
  predicate CallOk(calls: Calls, inflight: map<Id, Caller>, c: Caller) {
    c in calls && Owns(calls[c]) ==> calls[c].id in inflight && inflight[calls[c].id] == c
  }

  /** A registered id has its owner. */
  predicate IdOk(calls: Calls, inflight: map<Id, Caller>, id: Id) {
    id in inflight ==> inflight[id] in calls && Owns(calls[inflight[id]]) && calls[inflight[id]].id == id
  }

  ghost predicate Registered(calls: Calls, inflight: map<Id, Caller>) {
    && (forall c {:trigger CallOk(calls, inflight, c)} :: CallOk(calls, inflight, c))
    && (forall id {:trigger IdOk(calls, inflight, id)} :: IdOk(calls, inflight, id))
  }

  /** Whoever waits waits for a call that fetches the same id or has done so. */
  ghost predicate Awaited(calls: Calls) {
    forall c <- calls :: calls[c].Waiting? ==>
      var o := calls[c].owner;
      o in calls && (calls[o].Returned? || (Owns(calls[o]) && calls[o].id == calls[c].id))
  }

  ghost predicate Counted(s: State) {
    s.misses == s.fetches + |MissedCalls(s.calls)| && |s.calls| == s.hits + s.misses + s.shared
  }

  ghost predicate Inv(s: State) {
    && Cache.Valid(s.index)
    && Registered(s.calls, s.inflight) && Awaited(s.calls) && Counted(s)
    && s.inflight.Keys !! s.index.objects.Keys
  }

  lemma CallsChange(calls: Calls, c: Caller, p: Phase)
    ensures MissedCalls(calls[c := p]) == if p.Missed? then MissedCalls(calls) + {c} else MissedCalls(calls) - {c}
  {
  }

  lemma CallsCount(calls: Calls, c: Caller, p: Phase)
    ensures |calls[c := p]| == |calls| + if c in calls then 0 else 1
  {
    assert |calls[c := p].Keys| == |calls[c := p]| && |calls.Keys| == |calls|;
    assert calls[c := p].Keys == calls.Keys + {c};
  }

  /** A new call that needs no fetch of its own. */
  lemma NewCall(calls: Calls, inflight: map<Id, Caller>, c: Caller, p: Phase)
    requires Registered(calls, inflight) && Awaited(calls) && c !in calls && (p.Returned? || p.Waiting?)
    requires p.Waiting? ==> p.owner in calls && Owns(calls[p.owner]) && calls[p.owner].id == p.id
    ensures Registered(calls[c := p], inflight) && Awaited(calls[c := p])
  {
    var calls' := calls[c := p];
    forall d ensures CallOk(calls', inflight, d) { assert CallOk(calls, inflight, d); }
    forall id ensures IdOk(calls', inflight, id) { assert IdOk(calls, inflight, id); }
  }

  lemma NewOwner(calls: Calls, inflight: map<Id, Caller>, c: Caller, id: Id)
    requires Registered(calls, inflight) && Awaited(calls) && c !in calls && id !in inflight
    ensures Registered(calls[c := Missed(id)], inflight[id := c]) && Awaited(calls[c := Missed(id)])
  {
    var calls', inflight' := calls[c := Missed(id)], inflight[id := c];
    forall d ensures CallOk(calls', inflight', d) { assert CallOk(calls, inflight, d); }
    forall x ensures IdOk(calls', inflight', x) { assert IdOk(calls, inflight, x); }
  }

  lemma HitKeepsIndex(index: Cache.Index, id: Id)
    requires Cache.Valid(index)
    ensures Cache.Valid(index.(policy := Cache.Access(index.policy, id)))
  {
    Cache.AccessContract(index.policy, id);
  }

  lemma HitKeepsInv(s: State, c: Caller, id: Id)
    requires Inv(s) && c !in s.calls && id in s.index.objects
    ensures Inv(Lookup(s, c, id))
  {
    CallsChange(s.calls, c, Returned);
    CallsCount(s.calls, c, Returned);
    NewCall(s.calls, s.inflight, c, Returned);
    HitKeepsIndex(s.index, id);
    assert MissedCalls(s.calls) - {c} == MissedCalls(s.calls);
  }

  lemma JoinKeepsInv(s: State, c: Caller, id: Id)
    requires Inv(s) && c !in s.calls && id !in s.index.objects && id in s.inflight
    ensures Inv(Lookup(s, c, id))
  {
    var p := Waiting(id, s.inflight[id]);
    assert IdOk(s.calls, s.inflight, id);
    CallsChange(s.calls, c, p);
    CallsCount(s.calls, c, p);
    NewCall(s.calls, s.inflight, c, p);
    assert MissedCalls(s.calls) - {c} == MissedCalls(s.calls);
  }

  lemma MissCounted(s: State, c: Caller, id: Id)
    requires Counted(s) && c !in s.calls && id !in s.index.objects && id !in s.inflight
    ensures Counted(Lookup(s, c, id))
  {
    CallsChange(s.calls, c, Missed(id));
    CallsCount(s.calls, c, Missed(id));
    assert c !in MissedCalls(s.calls);
  }

  lemma MissApart(inflight: map<Id, Caller>, objects: map<Id, nat>, c: Caller, id: Id)
    requires inflight.Keys !! objects.Keys && id !in objects
    ensures inflight[id := c].Keys !! objects.Keys
  {
    assert inflight[id := c].Keys == inflight.Keys + {id};
  }

  lemma MissKeepsInv(s: State, c: Caller, id: Id)
    requires Inv(s) && c !in s.calls && id !in s.index.objects && id !in s.inflight
    ensures Inv(Lookup(s, c, id))
  {
    MissCounted(s, c, id);
    NewOwner(s.calls, s.inflight, c, id);
    MissApart(s.inflight, s.index.objects, c, id);
  }

  lemma GetKeepsInv(s: State, c: Caller, id: Id)
    requires Inv(s) && c !in s.calls
    ensures Inv(Lookup(s, c, id))
  {
    if id in s.index.objects {
      HitKeepsInv(s, c, id);
    } else if id in s.inflight {
      JoinKeepsInv(s, c, id);
    } else {
      MissKeepsInv(s, c, id);
    }
  }

  /** An owner moves on with its fetch. */
  lemma OwnerKeepsRegister(calls: Calls, inflight: map<Id, Caller>, c: Caller, p: Phase)
    requires Registered(calls, inflight) && Awaited(calls) && c in calls && Owns(calls[c]) && Owns(p) && p.id == calls[c].id
    ensures Registered(calls[c := p], inflight) && Awaited(calls[c := p])
  {
    var calls' := calls[c := p];
    forall d ensures CallOk(calls', inflight, d) { assert CallOk(calls, inflight, d); }
    forall id ensures IdOk(calls', inflight, id) { assert IdOk(calls, inflight, id); }
  }

  lemma ReturnKeepsRegister(calls: Calls, inflight: map<Id, Caller>, c: Caller)
    requires Registered(calls, inflight) && Awaited(calls) && c in calls
    requires Owns(calls[c]) || calls[c].Waiting?
    ensures var inflight' := if Owns(calls[c]) then inflight - {calls[c].id} else inflight;
            Registered(calls[c := Returned], inflight') && Awaited(calls[c := Returned])
  {
    var calls' := calls[c := Returned];
    var inflight' := if Owns(calls[c]) then inflight - {calls[c].id} else inflight;
    assert CallOk(calls, inflight, c);
    forall d ensures CallOk(calls', inflight', d) { assert CallOk(calls, inflight, d); }
    forall id ensures IdOk(calls', inflight', id) { assert IdOk(calls, inflight, id); }
  }

  lemma StepKeepsInv(s: State, ev: Event)
    requires Inv(s) && Enabled(s, ev)
    ensures Inv(After(s, ev))
  {
    match ev
    case Get(c, id) => GetKeepsInv(s, c, id);
    case BeginFetch(c) => OwnedStep(s, c, Fetching(s.calls[c].id));
    case EndFetch(c, size) => OwnedStep(s, c, Fetched(s.calls[c].id, size));
    case Finish(c) => ReturnStep(s, c);
    case WakeUp(c) => ReturnStep(s, c);
  }

  lemma OwnedStep(s: State, c: Caller, p: Phase)
    requires Inv(s) && c in s.calls && Owns(s.calls[c]) && Owns(p) && !p.Missed? && p.id == s.calls[c].id
    ensures Inv(s.(calls := s.calls[c := p], fetches := s.fetches + if s.calls[c].Missed? then 1 else 0))
  {
    CallsChange(s.calls, c, p);
    CallsCount(s.calls, c, p);
    OwnerKeepsRegister(s.calls, s.inflight, c, p);
  }

  lemma ReturnStep(s: State, c: Caller)
    requires Inv(s) && c in s.calls && (s.calls[c].Fetched? || s.calls[c].Waiting?)
    ensures var calls := s.calls[c := Returned];
            if s.calls[c].Waiting? then Inv(s.(calls := calls))
            else if s.calls[c].size.Some?
            then Inv(s.(calls := calls, inflight := s.inflight - {s.calls[c].id},
                        index := Admitted(s.index, s.calls[c].id, s.calls[c].size.value)))
            else Inv(s.(calls := calls, inflight := s.inflight - {s.calls[c].id}))
  {
    CallsChange(s.calls, c, Returned);
    CallsCount(s.calls, c, Returned);
    ReturnKeepsRegister(s.calls, s.inflight, c);
    assert CallOk(s.calls, s.inflight, c);
    assert c !in MissedCalls(s.calls);
    assert MissedCalls(s.calls) - {c} == MissedCalls(s.calls);
  }

  /******* Runs *******/

  ghost predicate Initial(s: State) {
    && Cache.Valid(s.index) && s.inflight == map[] && s.calls == map[]
    && s.hits == 0 && s.misses == 0 && s.shared == 0 && s.fetches == 0
  }

  ghost predicate Run(ss: seq<State>, evs: seq<Event>) {
    && |ss| == |evs| + 1 && Initial(ss[0])
    && forall i :: 0 <= i < |evs| ==> Enabled(ss[i], evs[i]) && ss[i + 1] == After(ss[i], evs[i])
  }

  lemma {:induction false} RunsKeepInv(ss: seq<State>, evs: seq<Event>, i: nat)
    requires Run(ss, evs) && i < |ss|
    ensures Inv(ss[i])
  {
    if i > 0 {
      RunsKeepInv(ss, evs, i - 1);
      StepKeepsInv(ss[i - 1], evs[i - 1]);
    } else {
      assert MissedCalls(map[]) == {};
    }
  }

  /** In every interleaving one call at most fetches an id, an id being fetched is
      not in the index, and policy, index and byte count agree. */
  lemma OneFetchPerId(ss: seq<State>, evs: seq<Event>, i: nat, c: Caller, d: Caller)
    requires Run(ss, evs) && i < |ss| && c in ss[i].calls && d in ss[i].calls && c != d
    requires Owns(ss[i].calls[c]) && Owns(ss[i].calls[d])
    ensures ss[i].calls[c].id != ss[i].calls[d].id
    ensures ss[i].calls[c].id !in ss[i].index.objects && Cache.Valid(ss[i].index)
  {
    RunsKeepInv(ss, evs, i);
    assert CallOk(ss[i].calls, ss[i].inflight, c) && CallOk(ss[i].calls, ss[i].inflight, d);
  }

  /** Every miss fetches once: when no call is between its miss and its fetch, there
      have been as many fetches as misses, and every call hit, missed or shared. */
  lemma FetchesAreMisses(ss: seq<State>, evs: seq<Event>, i: nat)
    requires Run(ss, evs) && i < |ss|
    ensures ss[i].fetches <= ss[i].misses
    ensures (forall c <- ss[i].calls :: !ss[i].calls[c].Missed?) <==> ss[i].fetches == ss[i].misses
    ensures |ss[i].calls| == ss[i].hits + ss[i].misses + ss[i].shared
  {
    RunsKeepInv(ss, evs, i);
    if c :| c in ss[i].calls && ss[i].calls[c].Missed? {
      assert c in MissedCalls(ss[i].calls);
    } else {
      assert MissedCalls(ss[i].calls) == {};
    }
  }

  /** No call hangs: while one has not returned, some call can step. */
  lemma NeverStuck(ss: seq<State>, evs: seq<Event>, i: nat, c: Caller, size: Option<nat>) returns (ev: Event)
    requires Run(ss, evs) && i < |ss| && c in ss[i].calls && !ss[i].calls[c].Returned?
    ensures Enabled(ss[i], ev) && !ev.Get?
  {
    RunsKeepInv(ss, evs, i);
    var s := ss[i];
    var d := if s.calls[c].Waiting? then s.calls[c].owner else c;
    match s.calls[d]
    case Missed(_) => ev := BeginFetch(d);
    case Fetching(_) => ev := EndFetch(d, size);
    case Fetched(_, _) => ev := Finish(d);
    case Returned => ev := WakeUp(c);
  }

  /******* What a call does *******/

  /** A call is a hit exactly when its object is in the index, joins the fetch under way
      exactly when there is one, and else starts the fetch; a hit is a request to the
      policy and changes nothing else of the index. */
  lemma GetDecides(s: State, c: Caller, id: Id)
    requires Enabled(s, Get(c, id))
    ensures var s' := After(s, Get(c, id));
            && s'.calls == s.calls[c := s'.calls[c]]
            && (if id in s.index.objects then
                  && s'.calls[c] == Returned && s'.hits == s.hits + 1 && s'.misses == s.misses && s'.inflight == s.inflight
                  && s'.index == s.index.(policy := Cache.Access(s.index.policy, id))
                else if id in s.inflight then
                  s'.calls[c] == Waiting(id, s.inflight[id]) && s'.index == s.index && s'.inflight == s.inflight
                else s'.calls[c] == Missed(id) && s'.index == s.index && s'.inflight == s.inflight[id := c])
  {
  }

  /** In every run a fetch that succeeds brings its object into the index with its size,
      and, if that fits the budget, changes nothing else of it; one that fails leaves
      the index alone. Either way the id can be fetched again. */
  lemma FetchAdmits(ss: seq<State>, evs: seq<Event>, i: nat, c: Caller)
    requires Run(ss, evs) && i < |evs| && evs[i] == Finish(c)
    ensures c in ss[i].calls && ss[i].calls[c].Fetched? && c in ss[i + 1].calls && ss[i + 1].calls[c] == Returned
    ensures var id, size := ss[i].calls[c].id, ss[i].calls[c].size;
            && id !in ss[i + 1].inflight
            && (size.None? ==> ss[i + 1].index == ss[i].index)
            && (size.Some? && ss[i].index.used + size.value <= ss[i].index.budget ==>
                  ss[i + 1].index.objects == ss[i].index.objects[id := size.value])
            && (size.Some? && ss[i].index.policy.LRU? ==> id in ss[i + 1].index.objects)
  {
    RunsKeepInv(ss, evs, i);
    var s := ss[i];
    assert Enabled(s, evs[i]) && ss[i + 1] == After(s, evs[i]);
    assert CallOk(s.calls, s.inflight, c);
    if s.calls[c].size.Some? {
      var id, size := s.calls[c].id, s.calls[c].size.value;
      if s.index.used + size <= s.index.budget { Cache.FittingJoins(s.index, id, size); }
      if s.index.policy.LRU? { Cache.LruKeepsNewest(s.index, id, size); }
    }
  }
}
