/** The prefetcher's producer, fetchers and ordered emitter
    (internal/pipeline/prefetcher.go, Stream) as goroutines stepping over channels:
    a semaphore of depth tokens, a queue of at most depth futures, and the output. */
module Prefetcher {
  import opened Util

  type Key = string

  /** An object's bytes, or an error. */
  datatype Item<T> = Item(key: Key, data: Option<T>)

  /** One future and its fetcher: running, done with its token still held (live) or
      given back, before or after the emitter took the item out. */
  datatype Slot<T> = Fetching | Full(item: Item<T>, live: bool) | Taken(live: bool)

  datatype Producer = Free | HasToken | Returned

  datatype Emitter<T> = Receiving | Awaiting(future: nat) | Sending(item: Item<T>) | Closed

  datatype State<T> = State(
    keys: seq<Key>,
    depth: nat,
    next: nat,
    producer: Producer,
    sem: int,
    futures: seq<nat>,
    slots: seq<Slot<T>>,
    emitter: Emitter<T>,
    out: seq<Item<T>>,
    cancelled: bool)

  function Start<T>(keys: seq<Key>, depth: int): State<T> {
    State(keys, if depth < 1 then 1 else depth, 0, Free, 0, [], [], Receiving, [], false)
  }

  datatype Event<T> =
    | TakeToken
    | PushFuture                              // and start its fetcher
    | Finish                                  // no key left: close the queue
    | StopAtToken | StopAtPush                // the producer sees the cancellation
    | FetchReturns(i: nat, data: Option<T>)
    | GiveTokenBack(i: nat)
    | ReceiveFuture
    | CloseOut                                // the queue is closed and empty
    | TakeItem
    | Deliver                                 // the consumer reads
    | StopWaiting | StopSending               // the emitter sees the cancellation
    | Cancel

  predicate Live<T>(s: Slot<T>) { s.Fetching? || s.live }

  predicate Enabled<T>(s: State<T>, ev: Event<T>) {
    match ev
    case TakeToken => s.producer.Free? && s.next < |s.keys| && s.sem < s.depth
    case PushFuture => s.producer.HasToken? && |s.futures| < s.depth
    case Finish => s.producer.Free? && s.next >= |s.keys|
    case StopAtToken => s.producer.Free? && s.next < |s.keys| && s.cancelled
    case StopAtPush => s.producer.HasToken? && s.cancelled
    case FetchReturns(i, _) => i < |s.slots| && i < |s.keys| && s.slots[i].Fetching?
    case GiveTokenBack(i) => i < |s.slots| && !s.slots[i].Fetching? && s.slots[i].live
    case ReceiveFuture => s.emitter.Receiving? && s.futures != []
    case CloseOut => s.emitter.Receiving? && s.futures == [] && s.producer.Returned?
    case TakeItem => s.emitter.Awaiting? && s.emitter.future < |s.slots| && s.slots[s.emitter.future].Full?
    case Deliver => s.emitter.Sending?
    case StopWaiting => s.emitter.Awaiting? && s.cancelled
    case StopSending => s.emitter.Sending? && s.cancelled
    case Cancel => true
  }

  function After<T>(s: State<T>, ev: Event<T>): State<T>
    requires Enabled(s, ev)
  {
    match ev
    case TakeToken => s.(producer := HasToken, sem := s.sem + 1)
    case PushFuture => s.(producer := Free, next := s.next + 1, futures := s.futures + [s.next], slots := s.slots + [Fetching])
    case Finish => s.(producer := Returned)
    case StopAtToken => s.(producer := Returned)
    case StopAtPush => s.(producer := Returned, sem := s.sem - 1)
    case FetchReturns(i, data) => s.(slots := s.slots[i := Full(Item(s.keys[i], data), true)])
    case GiveTokenBack(i) => s.(slots := s.slots[i := s.slots[i].(live := false)], sem := s.sem - 1)
    case ReceiveFuture => s.(emitter := Awaiting(s.futures[0]), futures := s.futures[1..])
    case CloseOut => s.(emitter := Closed)
    case TakeItem =>
      var slot := s.slots[s.emitter.future];
      s.(emitter := Sending(slot.item), slots := s.slots[s.emitter.future := Taken(slot.live)])
    case Deliver => s.(emitter := Receiving, out := s.out + [s.emitter.item])
    case StopWaiting => s.(emitter := Closed)
    case StopSending => s.(emitter := Closed)
    case Cancel => s.(cancelled := true)
  }

  ghost predicate Run<T(!new)>(ss: seq<State<T>>, evs: seq<Event<T>>, keys: seq<Key>, depth: int) {
    && |ss| == |evs| + 1 && ss[0] == Start(keys, depth)
    && forall i :: 0 <= i < |evs| ==> Enabled(ss[i], evs[i]) && ss[i + 1] == After(ss[i], evs[i])
  }

  /******* Counting *******/

  function LiveCount<T>(slots: seq<Slot<T>>): nat {
    if slots == [] then 0 else LiveCount(slots[..|slots| - 1]) + if Live(slots[|slots| - 1]) then 1 else 0
  }

  /** Steps a fetcher still has to make. */
  function Effort<T>(s: Slot<T>): nat { if s.Fetching? then 2 else if s.live then 1 else 0 }

  function Efforts<T>(slots: seq<Slot<T>>): nat {
    if slots == [] then 0 else Efforts(slots[..|slots| - 1]) + Effort(slots[|slots| - 1])
  }

  lemma {:induction false} SlotChanges<T>(slots: seq<Slot<T>>, i: nat, slot: Slot<T>)
    requires i < |slots|
    ensures LiveCount(slots[i := slot]) == LiveCount(slots) - (if Live(slots[i]) then 1 else 0) + (if Live(slot) then 1 else 0)
    ensures Efforts(slots[i := slot]) == Efforts(slots) - Effort(slots[i]) + Effort(slot)
  {
    var n := |slots| - 1;
    if i < n {
      SlotChanges(slots[..n], i, slot);
      assert slots[i := slot][..n] == slots[..n][i := slot];
    } else {
      assert slots[i := slot][..n] == slots[..n];
    }
  }

  lemma SlotAdded<T>(slots: seq<Slot<T>>, slot: Slot<T>)
    ensures LiveCount(slots + [slot]) == LiveCount(slots) + if Live(slot) then 1 else 0
    ensures Efforts(slots + [slot]) == Efforts(slots) + Effort(slot)
  {
    assert (slots + [slot])[..|slots|] == slots;
  }

  lemma {:induction false} NoneLive<T>(slots: seq<Slot<T>>)
    ensures LiveCount(slots) == 0 <==> forall i :: 0 <= i < |slots| ==> !Live(slots[i])
  {
    if slots != [] {
      NoneLive(slots[..|slots| - 1]);
      assert slots == slots[..|slots| - 1] + [slots[|slots| - 1]];
    }
  }

  /******* The invariant *******/

  /** How many futures the emitter has received. */
  function Got<T>(s: State<T>): int { s.next - |s.futures| }

  /** Futures are numbered by key and queued in order. */
  predicate QueueOk<T>(s: State<T>) {
    && s.next <= |s.keys| && |s.slots| == s.next && |s.futures| <= s.depth && |s.futures| <= s.next
    && (forall k :: 0 <= k < |s.futures| ==> s.futures[k] == Got(s) + k)
    && (s.producer.HasToken? ==> s.next < |s.keys|)
  }

  predicate TokensOk<T>(s: State<T>) {
    s.depth > 0 && 0 <= s.sem <= s.depth && s.sem == LiveCount(s.slots) + if s.producer.HasToken? then 1 else 0
  }

  predicate SlotsOk<T>(s: State<T>) {
    && |s.slots| <= |s.keys|
    && (forall i :: 0 <= i < |s.slots| && s.slots[i].Full? ==> s.slots[i].item.key == s.keys[i])
    && (forall i :: 0 <= i < |s.slots| && i >= Got(s) ==> !s.slots[i].Taken?)
    && (forall i :: 0 <= i < |s.slots| && i < Got(s) - 1 ==> s.slots[i].Taken?)
  }

  /** Where the emitter stands: what is out are the first keys, in order. */
  predicate EmitterOk<T>(s: State<T>) {
    && |s.out| <= |s.keys| && (forall k :: 0 <= k < |s.out| ==> s.out[k].key == s.keys[k])
    && match s.emitter
       case Receiving => |s.out| == Got(s) && (Got(s) > 0 ==> Got(s) <= |s.slots| && s.slots[Got(s) - 1].Taken?)
       case Awaiting(i) => i == |s.out| == Got(s) - 1 && i < |s.slots| && !s.slots[i].Taken?
       case Sending(item) =>
         && |s.out| == Got(s) - 1 < |s.slots| && |s.out| < |s.keys|
         && s.slots[|s.out|].Taken? && item.key == s.keys[|s.out|]
       case Closed => |s.out| <= Got(s)
  }

  predicate EndOk<T>(s: State<T>) {
    !s.cancelled ==>
      && (s.producer.Returned? ==> s.next == |s.keys|)
      && (s.emitter.Closed? ==> s.producer.Returned? && s.futures == [] && |s.out| == s.next)
  }

  predicate Inv<T>(s: State<T>) { QueueOk(s) && TokensOk(s) && SlotsOk(s) && EmitterOk(s) && EndOk(s) }

  lemma StepKeepsQueue<T>(s: State<T>, ev: Event<T>)
    requires QueueOk(s) && Enabled(s, ev)
    ensures QueueOk(After(s, ev))
  {
  }

  lemma StepKeepsTokens<T>(s: State<T>, ev: Event<T>)
    requires TokensOk(s) && Enabled(s, ev)
    ensures TokensOk(After(s, ev))
  {
    match ev
    case PushFuture => SlotAdded(s.slots, Fetching);
    case FetchReturns(i, data) => SlotChanges(s.slots, i, Full(Item(s.keys[i], data), true));
    case GiveTokenBack(i) => SlotChanges(s.slots, i, s.slots[i].(live := false));
    case TakeItem => SlotChanges(s.slots, s.emitter.future, Taken(s.slots[s.emitter.future].live));
    case _ =>
  }

  predicate OfEmitter<T>(ev: Event<T>) {
    ev.ReceiveFuture? || ev.CloseOut? || ev.TakeItem? || ev.Deliver? || ev.StopWaiting? || ev.StopSending?
  }

  predicate OfFetcher<T>(ev: Event<T>) { ev.FetchReturns? || ev.GiveTokenBack? }

  /** A fetcher fills its own slot or gives its token back. */
  lemma FetcherKeepsOrder<T>(s: State<T>, ev: Event<T>)
    requires SlotsOk(s) && EmitterOk(s) && Enabled(s, ev) && OfFetcher(ev)
    ensures SlotsOk(After(s, ev)) && EmitterOk(After(s, ev))
  {
  }

  lemma PushKeepsOrder<T>(s: State<T>)
    requires QueueOk(s) && SlotsOk(s) && EmitterOk(s) && Enabled(s, PushFuture)
    ensures SlotsOk(After(s, PushFuture)) && EmitterOk(After(s, PushFuture))
  {
  }

  lemma ProducerKeepsOrder<T>(s: State<T>, ev: Event<T>)
    requires QueueOk(s) && SlotsOk(s) && EmitterOk(s) && Enabled(s, ev) && !OfEmitter(ev) && !OfFetcher(ev)
    ensures SlotsOk(After(s, ev)) && EmitterOk(After(s, ev))
  {
    if ev.PushFuture? { PushKeepsOrder(s); }
  }

  lemma EmitterKeepsSlots<T>(s: State<T>, ev: Event<T>)
    requires QueueOk(s) && SlotsOk(s) && EmitterOk(s) && Enabled(s, ev) && OfEmitter(ev)
    ensures SlotsOk(After(s, ev))
  {
  }

  lemma TakeKeepsEmitter<T>(s: State<T>)
    requires QueueOk(s) && SlotsOk(s) && EmitterOk(s) && Enabled(s, TakeItem)
    ensures EmitterOk(After(s, TakeItem))
  {
  }

  lemma ReceiveKeepsEmitter<T>(s: State<T>)
    requires QueueOk(s) && SlotsOk(s) && EmitterOk(s) && Enabled(s, ReceiveFuture)
    ensures EmitterOk(After(s, ReceiveFuture))
  {
  }

  lemma EmitterKeepsOrder<T>(s: State<T>, ev: Event<T>)
    requires QueueOk(s) && SlotsOk(s) && EmitterOk(s) && Enabled(s, ev) && OfEmitter(ev)
    ensures SlotsOk(After(s, ev)) && EmitterOk(After(s, ev))
  {
    EmitterKeepsSlots(s, ev);
    if ev.TakeItem? {
      TakeKeepsEmitter(s);
    } else if ev.ReceiveFuture? {
      ReceiveKeepsEmitter(s);
    }
  }

  lemma StepKeepsOrder<T>(s: State<T>, ev: Event<T>)
    requires QueueOk(s) && SlotsOk(s) && EmitterOk(s) && Enabled(s, ev)
    ensures SlotsOk(After(s, ev)) && EmitterOk(After(s, ev))
  {
    if OfEmitter(ev) {
      EmitterKeepsOrder(s, ev);
    } else if OfFetcher(ev) {
      FetcherKeepsOrder(s, ev);
    } else {
      ProducerKeepsOrder(s, ev);
    }
  }

  lemma StepKeepsInv<T>(s: State<T>, ev: Event<T>)
    requires Inv(s) && Enabled(s, ev)
    ensures Inv(After(s, ev))
  {
    StepKeepsQueue(s, ev);
    StepKeepsTokens(s, ev);
    StepKeepsOrder(s, ev);
  }

  lemma {:induction false} RunsKeepInv<T(!new)>(ss: seq<State<T>>, evs: seq<Event<T>>, keys: seq<Key>, depth: int, i: nat)
    requires Run(ss, evs, keys, depth) && i < |ss|
    ensures Inv(ss[i]) && ss[i].keys == keys && ss[i].depth == if depth < 1 then 1 else depth
  {
    if i > 0 {
      RunsKeepInv(ss, evs, keys, depth, i - 1);
      StepKeepsInv(ss[i - 1], evs[i - 1]);
      StepKeepsShape(ss[i - 1], evs[i - 1]);
    } else {
      StartOk<T>(keys, depth);
    }
  }

  lemma StartOk<T>(keys: seq<Key>, depth: int)
    ensures Inv<T>(Start(keys, depth))
  {
  }

  lemma StepKeepsShape<T>(s: State<T>, ev: Event<T>)
    requires Enabled(s, ev)
    ensures After(s, ev).keys == s.keys && After(s, ev).depth == s.depth
  {
  }

  /******* What every run promises *******/

  /** The output is always a prefix of the keys, in order. */
  lemma OutputInOrder<T(!new)>(ss: seq<State<T>>, evs: seq<Event<T>>, keys: seq<Key>, depth: int, i: nat)
    requires Run(ss, evs, keys, depth) && i < |ss|
    ensures |ss[i].out| <= |keys| && forall k :: 0 <= k < |ss[i].out| ==> ss[i].out[k].key == keys[k]
  {
    RunsKeepInv(ss, evs, keys, depth, i);
  }

  /******* What is delivered *******/

  /** Among the first m events the fetch for key i returned data. */
  ghost predicate Fetched<T(!new)>(evs: seq<Event<T>>, m: nat, i: nat, data: Option<T>) {
    m <= |evs| && exists j :: 0 <= j < m && evs[j] == FetchReturns(i, data)
  }

  /** Everything full, on its way to the consumer or with it is what its fetch returned,
      and a fetch that has returned is not under way. */
  ghost predicate SlotsFetched<T(!new)>(s: State<T>, evs: seq<Event<T>>, m: nat) {
    forall i :: 0 <= i < |s.slots| && s.slots[i].Full? ==> Fetched(evs, m, i, s.slots[i].item.data)
  }

  ghost predicate OutFetched<T(!new)>(s: State<T>, evs: seq<Event<T>>, m: nat) {
    && (forall k :: 0 <= k < |s.out| ==> Fetched(evs, m, k, s.out[k].data))
    && (s.emitter.Sending? ==> Fetched(evs, m, |s.out|, s.emitter.item.data))
  }

  ghost predicate NotAgain<T(!new)>(s: State<T>, evs: seq<Event<T>>, m: nat) {
    m <= |evs| && forall j :: 0 <= j < m && evs[j].FetchReturns? ==> evs[j].i < |s.slots| && !s.slots[evs[j].i].Fetching?
  }

  lemma FetchedLater<T(!new)>(evs: seq<Event<T>>, m: nat, i: nat, data: Option<T>)
    requires Fetched(evs, m, i, data) && m < |evs|
    ensures Fetched(evs, m + 1, i, data)
  {
  }

  lemma StepKeepsSlotsFetched<T(!new)>(s: State<T>, evs: seq<Event<T>>, m: nat)
    requires m < |evs| && Enabled(s, evs[m]) && SlotsFetched(s, evs, m)
    ensures SlotsFetched(After(s, evs[m]), evs, m + 1)
  {
    var s' := After(s, evs[m]);
    forall i | 0 <= i < |s'.slots| && s'.slots[i].Full? ensures Fetched(evs, m + 1, i, s'.slots[i].item.data) {
      if i < |s.slots| && s.slots[i].Full? { FetchedLater(evs, m, i, s.slots[i].item.data); }
    }
  }

  lemma StepKeepsOutFetched<T(!new)>(s: State<T>, evs: seq<Event<T>>, m: nat)
    requires m < |evs| && Enabled(s, evs[m]) && SlotsFetched(s, evs, m) && OutFetched(s, evs, m) && EmitterOk(s)
    ensures OutFetched(After(s, evs[m]), evs, m + 1)
  {
    var s' := After(s, evs[m]);
    forall k | 0 <= k < |s'.out| ensures Fetched(evs, m + 1, k, s'.out[k].data) {
      FetchedLater(evs, m, k, s'.out[k].data);
    }
    if s'.emitter.Sending? { FetchedLater(evs, m, |s'.out|, s'.emitter.item.data); }
  }

  lemma StepKeepsNotAgain<T(!new)>(s: State<T>, evs: seq<Event<T>>, m: nat)
    requires m < |evs| && Enabled(s, evs[m]) && NotAgain(s, evs, m)
    ensures NotAgain(After(s, evs[m]), evs, m + 1)
  {
  }

  lemma {:induction false} RunsFetch<T(!new)>(ss: seq<State<T>>, evs: seq<Event<T>>, keys: seq<Key>, depth: int, m: nat)
    requires Run(ss, evs, keys, depth) && m < |ss|
    ensures SlotsFetched(ss[m], evs, m) && OutFetched(ss[m], evs, m) && NotAgain(ss[m], evs, m)
  {
    if m > 0 {
      RunsFetch(ss, evs, keys, depth, m - 1);
      RunsKeepInv(ss, evs, keys, depth, m - 1);
      StepKeepsSlotsFetched(ss[m - 1], evs, m - 1);
      StepKeepsOutFetched(ss[m - 1], evs, m - 1);
      StepKeepsNotAgain(ss[m - 1], evs, m - 1);
    }
  }

  /** Each fetch returns once. */
  lemma FetchedOnce<T(!new)>(ss: seq<State<T>>, evs: seq<Event<T>>, keys: seq<Key>, depth: int, j: nat, k: nat)
    requires Run(ss, evs, keys, depth) && j < k < |evs| && evs[j].FetchReturns? && evs[k].FetchReturns?
    ensures evs[j].i != evs[k].i
  {
    RunsFetch(ss, evs, keys, depth, k);
  }

  /** Call j is the fetch for key k, and its only one up to moment m. */
  ghost predicate OnlyFetch<T(!new)>(evs: seq<Event<T>>, m: nat, k: nat, item: Item<T>, j: nat) {
    && j < m <= |evs| && evs[j] == FetchReturns(k, item.data)
    && forall l :: 0 <= l < m && evs[l].FetchReturns? && evs[l].i == k ==> l == j
  }

  /** What the consumer is given for a key is what the one fetch for that key returned. */
  lemma DeliversFetched<T(!new)>(ss: seq<State<T>>, evs: seq<Event<T>>, keys: seq<Key>, depth: int, m: nat, k: nat)
    requires Run(ss, evs, keys, depth) && m < |ss| && k < |ss[m].out|
    ensures k < |keys| && ss[m].out[k].key == keys[k]
    ensures exists j :: OnlyFetch(evs, m, k, ss[m].out[k], j)
  {
    OutputInOrder(ss, evs, keys, depth, m);
    RunsFetch(ss, evs, keys, depth, m);
    assert Fetched(evs, m, k, ss[m].out[k].data);
    var j :| 0 <= j < m && evs[j] == FetchReturns(k, ss[m].out[k].data);
    forall l | 0 <= l < m && evs[l].FetchReturns? && evs[l].i == k ensures l == j {
      if l < j { FetchedOnce(ss, evs, keys, depth, l, j); }
      if j < l { FetchedOnce(ss, evs, keys, depth, j, l); }
    }
    assert OnlyFetch(evs, m, k, ss[m].out[k], j);
  }

  function FetchingIds<T>(slots: seq<Slot<T>>): set<nat> { set i | 0 <= i < |slots| && slots[i].Fetching? }

  function FullIds<T>(s: State<T>): set<nat> { set i | 0 <= i < |s.slots| && s.slots[i].Full? }

  lemma {:induction false} FetchingAreLive<T>(slots: seq<Slot<T>>)
    ensures |FetchingIds(slots)| <= LiveCount(slots)
  {
    if slots == [] {
      assert FetchingIds(slots) == {};
    } else {
      var n := |slots| - 1;
      FetchingAreLive(slots[..n]);
      var before := FetchingIds(slots[..n]);
      assert FetchingIds(slots) == if slots[n].Fetching? then before + {n} else before;
    }
  }

  lemma {:induction false} IntervalSize(ids: set<nat>, lo: int, n: nat)
    requires forall i <- ids :: lo <= i < lo + n
    ensures |ids| <= n
  {
    if n == 0 {
      assert ids == {};
    } else if lo + n - 1 in ids {
      IntervalSize(ids - {lo + n - 1}, lo, n - 1);
    } else {
      IntervalSize(ids, lo, n - 1);
    }
  }

  /** At most depth fetches run at once, and at most depth + 1 objects are held that
      the consumer has not been given. */
  lemma LookAheadBounded<T(!new)>(ss: seq<State<T>>, evs: seq<Event<T>>, keys: seq<Key>, depth: int, i: nat)
    requires Run(ss, evs, keys, depth) && i < |ss|
    ensures |FetchingIds(ss[i].slots)| <= Max(1, depth)
    ensures |FullIds(ss[i])| + (if ss[i].emitter.Sending? then 1 else 0) <= Max(1, depth) + 1
  {
    var s := ss[i];
    RunsKeepInv(ss, evs, keys, depth, i);
    FetchingAreLive(s.slots);
    if s.emitter.Sending? {
      IntervalSize(FullIds(s), Got(s), |s.futures|);
    } else {
      IntervalSize(FullIds(s), Got(s) - 1, |s.futures| + 1);
    }
  }

  /** Every goroutine has ended. */
  predicate Ended<T>(s: State<T>) {
    s.producer.Returned? && s.emitter.Closed? && forall i :: 0 <= i < |s.slots| ==> !Live(s.slots[i])
  }

  /** An uncancelled stream that has ended has delivered, for every key, what its one
      fetch returned. */
  lemma EndedDelivers<T(!new)>(ss: seq<State<T>>, evs: seq<Event<T>>, keys: seq<Key>, depth: int, i: nat)
    requires Run(ss, evs, keys, depth) && i < |ss| && Ended(ss[i]) && !ss[i].cancelled
    ensures |ss[i].out| == |keys|
    ensures forall k :: 0 <= k < |keys| ==> ss[i].out[k].key == keys[k] && exists j :: OnlyFetch(evs, i, k, ss[i].out[k], j)
  {
    RunsKeepInv(ss, evs, keys, depth, i);
    forall k | 0 <= k < |keys| ensures ss[i].out[k].key == keys[k] && exists j :: OnlyFetch(evs, i, k, ss[i].out[k], j) {
      DeliversFetched(ss, evs, keys, depth, i, k);
    }
  }

  /** No state is stuck: until everything has ended some goroutine can step; once
      cancelled, without the consumer reading. */
  lemma NeverStuck<T(!new)>(s: State<T>, d: Option<T>) returns (ev: Event<T>)
    requires Inv(s) && !Ended(s)
    ensures Enabled(s, ev) && !ev.Cancel?
    ensures s.cancelled ==> !ev.Deliver?
  {
    if i: nat :| i < |s.slots| && Live(s.slots[i]) {
      ev := if s.slots[i].Fetching? then FetchReturns(i, d) else GiveTokenBack(i);
    } else if s.emitter.Receiving? && s.futures != [] {
      ev := ReceiveFuture;
    } else if s.emitter.Awaiting? {
      ev := TakeItem;
    } else if s.emitter.Sending? {
      ev := if s.cancelled then StopSending else Deliver;
    } else {
      NoneLive(s.slots);
      ev := ProducerMoves(s);
    }
  }

  lemma ProducerMoves<T(!new)>(s: State<T>) returns (ev: Event<T>)
    requires Inv(s) && LiveCount(s.slots) == 0
    requires s.emitter.Closed? || (s.emitter.Receiving? && s.futures == [])
    requires !(s.producer.Returned? && s.emitter.Closed?)
    ensures Enabled(s, ev) && !ev.Cancel? && !ev.Deliver?
  {
    if s.producer.Returned? {
      ev := CloseOut;
    } else if s.producer.Free? {
      ev := if s.next >= |s.keys| then Finish else TakeToken;
    } else {
      ev := if s.cancelled then StopAtPush else PushFuture;
    }
  }

  /** What is left to do. */
  function Remaining<T>(s: State<T>): int {
    (if s.producer.Returned? then 0 else 7 * (|s.keys| - s.next) + if s.producer.HasToken? then 0 else 1)
    + Efforts(s.slots)
    + match s.emitter
      case Receiving => 1 + 3 * |s.futures|
      case Awaiting(_) => 3 + 3 * |s.futures|
      case Sending(_) => 2 + 3 * |s.futures|
      case Closed => 0
  }

  lemma SlotStepProgresses<T>(s: State<T>, ev: Event<T>)
    requires Inv(s) && Enabled(s, ev) && (OfFetcher(ev) || ev.TakeItem?)
    ensures Remaining(After(s, ev)) < Remaining(s)
  {
    match ev
    case FetchReturns(i, data) => SlotChanges(s.slots, i, Full(Item(s.keys[i], data), true));
    case GiveTokenBack(i) => SlotChanges(s.slots, i, s.slots[i].(live := false));
    case TakeItem => SlotChanges(s.slots, s.emitter.future, Taken(s.slots[s.emitter.future].live));
  }

  lemma PushProgresses<T>(s: State<T>)
    requires Inv(s) && Enabled(s, PushFuture)
    ensures Remaining(After(s, PushFuture)) < Remaining(s)
  {
    SlotAdded(s.slots, Fetching);
  }

  lemma OtherStepProgresses<T>(s: State<T>, ev: Event<T>)
    requires QueueOk(s) && Enabled(s, ev) && !OfFetcher(ev) && !ev.TakeItem? && !ev.PushFuture? && !ev.Cancel?
    ensures Remaining(After(s, ev)) < Remaining(s)
  {
  }

  lemma RemainingIsNat<T>(s: State<T>)
    requires QueueOk(s)
    ensures Remaining(s) >= 0
  {
  }

  /** Every step but a cancellation brings the end nearer. */
  lemma StepProgresses<T>(s: State<T>, ev: Event<T>)
    requires Inv(s) && Enabled(s, ev) && !ev.Cancel?
    ensures 0 <= Remaining(After(s, ev)) < Remaining(s)
  {
    StepKeepsQueue(s, ev);
    RemainingIsNat(After(s, ev));
    if OfFetcher(ev) || ev.TakeItem? {
      SlotStepProgresses(s, ev);
    } else if ev.PushFuture? {
      PushProgresses(s);
    } else {
      OtherStepProgresses(s, ev);
    }
  }

  /** So a run that is never cancelled takes at most seven steps a key and two more,
      and cannot stop before every key is delivered. */
  lemma {:induction false} RunsEnd<T(!new)>(ss: seq<State<T>>, evs: seq<Event<T>>, keys: seq<Key>, depth: int, i: nat)
    requires Run(ss, evs, keys, depth) && i < |ss| && forall k :: 0 <= k < i ==> !evs[k].Cancel?
    ensures !ss[i].cancelled && i + Remaining(ss[i]) <= 7 * |keys| + 2 && Remaining(ss[i]) >= 0
  {
    if i > 0 {
      RunsEnd(ss, evs, keys, depth, i - 1);
      RunsKeepInv(ss, evs, keys, depth, i - 1);
      StepProgresses(ss[i - 1], evs[i - 1]);
    }
  }
}
