/**
 * What batching does to hot reload: reducing a batch to the last event per key and applying it in
 * hash-map order, compared with applying every event as it comes.
 */
module ReconcileBatches {
  import opened Prelude
  import opened Reconciler

  /** What is seen of a running flow from outside: its source, and whether it has finished. */
  datatype Running = Running(source: string, finished: bool)

  function SlotOf(s: State, flow: string): Option<Running> {
    if flow in s.registry then Some(Running(s.registry[flow].source, s.registry[flow].finished)) else None
  }

  ghost predicate SameFlows(s: State, t: State) {
    forall flow :: SlotOf(s, flow) == SlotOf(t, flow)
  }

  /** One event's effect on one flow it names. */
  function Effect(setup: Setup, flow: string, slot: Option<Running>, e: Event): Option<Running> {
    if flow in setup.filesystem then slot
    else
      match e
      case Delete(_) => None
      case Put(_, source) =>
        if slot == Some(Running(source, false)) then slot
        else
          match setup.verdict(flow, source)
          case Rejected => slot
          case StartFails => None
          case Runs => Some(Running(source, false))
  }

  function Effects(setup: Setup, flow: string, slot: Option<Running>, events: seq<Event>): Option<Running>
    decreases |events|
  {
    if events == [] then slot
    else Effect(setup, flow, Effects(setup, flow, slot, events[..|events| - 1]), events[|events| - 1])
  }

  predicate Names(setup: Setup, flow: string, e: Event) { FlowOf(setup.prefix, e.key) == Some(flow) }

  function EventsOf(setup: Setup, events: seq<Event>, flow: string): (r: seq<Event>)
    ensures forall e :: e in r <==> e in events && Names(setup, flow, e)
    decreases |events|
  {
    if events == [] then []
    else
      var last := events[|events| - 1];
      assert forall e :: e in events <==> e in events[..|events| - 1] || e == last;
      EventsOf(setup, events[..|events| - 1], flow) + if Names(setup, flow, last) then [last] else []
  }

  lemma ApplyMovesOneFlow(setup: Setup, s: State, e: Event, flow: string)
    ensures SlotOf(Apply(setup, s, e), flow) ==
      if Names(setup, flow, e) then Effect(setup, flow, SlotOf(s, flow), e) else SlotOf(s, flow)
  {
  }

  /** A flow only sees its own events. */
  lemma {:induction false} FlowsAreIndependent(setup: Setup, s: State, events: seq<Event>, flow: string)
    ensures SlotOf(ApplyAll(setup, s, events), flow) ==
      Effects(setup, flow, SlotOf(s, flow), EventsOf(setup, events, flow))
    decreases |events|
  {
    if events != [] {
      var before, last := events[..|events| - 1], events[|events| - 1];
      FlowsAreIndependent(setup, s, before, flow);
      ApplyMovesOneFlow(setup, ApplyAll(setup, s, before), last, flow);
      var own := EventsOf(setup, before, flow);
      assert (own + [last])[..|own|] == own;
      assert EventsOf(setup, events, flow) == if Names(setup, flow, last) then own + [last] else own;
    }
  }

  // ---- Reducing a batch ----

  lemma {:induction false} NoneNamed(setup: Setup, events: seq<Event>, flow: string)
    requires forall i | 0 <= i < |events| :: events[i].key != setup.prefix + "." + flow
    ensures EventsOf(setup, events, flow) == []
    decreases |events|
  {
    if events != [] {
      NoneNamed(setup, events[..|events| - 1], flow);
      KeyOfFlow(setup.prefix, events[|events| - 1].key, flow);
    }
  }

  /** Of a flow's events, the last is the one no later event shares the key with. */
  lemma {:induction false} LastOfOwn(setup: Setup, events: seq<Event>, flow: string, i: nat)
    requires i < |events| && events[i].key == setup.prefix + "." + flow
    requires forall j | i < j < |events| :: events[j].key != setup.prefix + "." + flow
    ensures var own := EventsOf(setup, events, flow); own != [] && own[|own| - 1] == events[i]
    decreases |events|
  {
    KeyOfFlow(setup.prefix, events[|events| - 1].key, flow);
    if i < |events| - 1 { LastOfOwn(setup, events[..|events| - 1], flow, i); }
  }

  lemma {:induction false} DistinctKeysMeetOnce(setup: Setup, order: seq<Event>, flow: string, i: nat)
    requires DistinctKeys(order) && i < |order| && order[i].key == setup.prefix + "." + flow
    ensures EventsOf(setup, order, flow) == [order[i]]
    decreases |order|
  {
    var before := order[..|order| - 1];
    KeyOfFlow(setup.prefix, order[|order| - 1].key, flow);
    if i == |order| - 1 {
      forall k | 0 <= k < |before| ensures before[k].key != setup.prefix + "." + flow {
        assert order[k].key != order[i].key;
      }
      NoneNamed(setup, before, flow);
    } else {
      assert order[i].key != order[|order| - 1].key;
      DistinctKeysMeetOnce(setup, before, flow, i);
    }
  }

  /** Whatever the order, a flow sees the last of its events and no other. */
  lemma OrderMeetsTheLast(setup: Setup, batch: seq<Event>, order: seq<Event>, flow: string)
    requires IsOrderOf(order, LastPerKey(batch))
    ensures var own := EventsOf(setup, batch, flow);
      EventsOf(setup, order, flow) == if own == [] then [] else [own[|own| - 1]]
  {
    var key, reduced := setup.prefix + "." + flow, LastPerKey(batch);
    if key in reduced {
      var i := LastPerKeyIsTheLast(batch, key);
      LastOfOwn(setup, batch, flow, i);
      assert reduced[key] in order;
      var k :| 0 <= k < |order| && order[k] == reduced[key];
      DistinctKeysMeetOnce(setup, order, flow, k);
    } else {
      forall k | 0 <= k < |order| ensures order[k].key != key { assert order[k] in order; }
      NoneNamed(setup, order, flow);
      forall k | 0 <= k < |batch| ensures batch[k].key != key { EveryKeyIsReduced(batch, k); }
      NoneNamed(setup, batch, flow);
    }
  }

  // ---- What can be running ----

  /** Outside the filesystem only a source that runs was ever started, so nothing else is registered. */
  ghost predicate OnlyStarted(setup: Setup, s: State) {
    forall flow :: flow in s.registry && flow !in setup.filesystem ==>
      setup.verdict(flow, s.registry[flow].source).Runs?
  }

  predicate StartedSlot(setup: Setup, flow: string, slot: Option<Running>) {
    flow in setup.filesystem || slot.None? || setup.verdict(flow, slot.value.source).Runs?
  }

  lemma {:induction false} EventsKeepOnlyStarted(setup: Setup, s: State, events: seq<Event>)
    requires OnlyStarted(setup, s)
    ensures OnlyStarted(setup, ApplyAll(setup, s, events))
    decreases |events|
  {
    if events != [] { EventsKeepOnlyStarted(setup, s, events[..|events| - 1]); }
  }

  lemma {:induction false} EffectsKeepStarted(setup: Setup, flow: string, slot: Option<Running>, own: seq<Event>)
    requires StartedSlot(setup, flow, slot)
    ensures StartedSlot(setup, flow, Effects(setup, flow, slot, own))
    decreases |own|
  {
    if own != [] { EffectsKeepStarted(setup, flow, slot, own[..|own| - 1]); }
  }

  // ---- When a reduced batch does what the whole batch does ----

  predicate Refused(setup: Setup, flow: string, e: Event) {
    e.Put? && setup.verdict(flow, e.value).Rejected?
  }

  /** After it the flow's state does not depend on what was there, started or not. */
  predicate Decisive(setup: Setup, flow: string, e: Event) {
    e.Delete? || setup.verdict(flow, e.value).Runs?
  }

  ghost predicate CanRun(setup: Setup, flow: string) {
    exists source :: setup.verdict(flow, source).Runs?
  }

  /** What an event that is not refused leaves of whatever was started before it. */
  function Settled(setup: Setup, flow: string, e: Event): Option<Running> {
    if e.Put? && setup.verdict(flow, e.value).Runs? then Some(Running(e.value, false)) else None
  }

  lemma NotRefusedSettles(setup: Setup, flow: string, slot: Option<Running>, e: Event)
    requires flow !in setup.filesystem && StartedSlot(setup, flow, slot) && !Refused(setup, flow, e)
    ensures Effect(setup, flow, slot, e) == Settled(setup, flow, e)
  {}

  lemma {:induction false} RefusedLeave(setup: Setup, flow: string, slot: Option<Running>, own: seq<Event>)
    requires forall i | 0 <= i < |own| :: Refused(setup, flow, own[i])
    ensures Effects(setup, flow, slot, own) == slot
    decreases |own|
  {
    if own != [] { RefusedLeave(setup, flow, slot, own[..|own| - 1]); }
  }

  lemma {:induction false} FilesystemFlowsStay(setup: Setup, flow: string, slot: Option<Running>, own: seq<Event>)
    requires flow in setup.filesystem
    ensures Effects(setup, flow, slot, own) == slot
    decreases |own|
  {
    if own != [] { FilesystemFlowsStay(setup, flow, slot, own[..|own| - 1]); }
  }

  lemma {:induction false} EffectsSplit(setup: Setup, flow: string, slot: Option<Running>, a: seq<Event>, b: seq<Event>)
    ensures Effects(setup, flow, slot, a + b) == Effects(setup, flow, Effects(setup, flow, slot, a), b)
    decreases |b|
  {
    if b == [] {
      assert a + b == a;
    } else {
      EffectsSplit(setup, flow, slot, a, b[..|b| - 1]);
      assert (a + b)[..|a + b| - 1] == a + b[..|b| - 1];
    }
  }

  /** The events settle to what the last one not refused settles to. */
  lemma {:induction false} LastNotRefused(setup: Setup, flow: string, own: seq<Event>) returns (e: Event)
    requires flow !in setup.filesystem
    requires exists i :: 0 <= i < |own| && !Refused(setup, flow, own[i])
    ensures !Refused(setup, flow, e)
    ensures forall slot | StartedSlot(setup, flow, slot) :: Effects(setup, flow, slot, own) == Settled(setup, flow, e)
    decreases |own|
  {
    var before, last := own[..|own| - 1], own[|own| - 1];
    if Refused(setup, flow, last) {
      var i :| 0 <= i < |own| && !Refused(setup, flow, own[i]);
      assert before[i] == own[i];
      e := LastNotRefused(setup, flow, before);
    } else {
      e := last;
      forall slot | StartedSlot(setup, flow, slot) ensures Effects(setup, flow, slot, own) == Settled(setup, flow, e) {
        EffectsKeepStarted(setup, flow, slot, before);
        NotRefusedSettles(setup, flow, Effects(setup, flow, slot, before), last);
      }
    }
  }

  /** The last of a flow's events is not refused, or all are; or nothing the flow was given could ever run. */
  ghost predicate LastSpeaksForAll(setup: Setup, flow: string, own: seq<Event>) {
    || own == []
    || flow in setup.filesystem
    || !Refused(setup, flow, own[|own| - 1])
    || (forall i | 0 <= i < |own| :: Refused(setup, flow, own[i]))
    || !CanRun(setup, flow)
  }

  /** From this state the last of the flow's events gives what all of them give. */
  predicate LastSuffices(setup: Setup, flow: string, slot: Option<Running>, own: seq<Event>) {
    own == [] || Effects(setup, flow, slot, own) == Effect(setup, flow, slot, own[|own| - 1])
  }

  lemma SpeakingLastSuffices(setup: Setup, flow: string, slot: Option<Running>, own: seq<Event>)
    requires LastSpeaksForAll(setup, flow, own) && StartedSlot(setup, flow, slot)
    ensures LastSuffices(setup, flow, slot, own)
  {
    if own == [] {
    } else if flow in setup.filesystem {
      FilesystemFlowsStay(setup, flow, slot, own);
    } else {
      var before, last := own[..|own| - 1], own[|own| - 1];
      EffectsKeepStarted(setup, flow, slot, before);
      EffectsKeepStarted(setup, flow, slot, own);
      if !Refused(setup, flow, last) {
        NotRefusedSettles(setup, flow, Effects(setup, flow, slot, before), last);
        NotRefusedSettles(setup, flow, slot, last);
      } else if forall i | 0 <= i < |own| :: Refused(setup, flow, own[i]) {
        RefusedLeave(setup, flow, slot, own);
      }
    }
  }

  lemma DecisiveLastSuffices(setup: Setup, flow: string, slot: Option<Running>, own: seq<Event>)
    requires own == [] || flow in setup.filesystem || Decisive(setup, flow, own[|own| - 1])
    ensures LastSuffices(setup, flow, slot, own)
  {
    if flow in setup.filesystem { FilesystemFlowsStay(setup, flow, slot, own); }
  }

  /** When it does not speak for all, it falls short from nothing or from any one source that runs. */
  lemma SilentLastFallsShort(setup: Setup, flow: string, own: seq<Event>, source: string)
    returns (slot: Option<Running>)
    requires !LastSpeaksForAll(setup, flow, own) && setup.verdict(flow, source).Runs?
    ensures slot in {None, Some(Running(source, false))} && !LastSuffices(setup, flow, slot, own)
  {
    var last := own[|own| - 1];
    var e := LastNotRefused(setup, flow, own);
    slot := if Settled(setup, flow, e).None? then Some(Running(source, false)) else None;
    assert Effect(setup, flow, slot, last) == slot;
  }

  ghost predicate Harmless(setup: Setup, batch: seq<Event>) {
    forall flow :: LastSpeaksForAll(setup, flow, EventsOf(setup, batch, flow))
  }

  /** What a reduced batch does to one flow. */
  lemma OrderEffect(setup: Setup, s: State, batch: seq<Event>, order: seq<Event>, flow: string)
    requires IsOrderOf(order, LastPerKey(batch))
    ensures var own := EventsOf(setup, batch, flow);
      SlotOf(ApplyAll(setup, s, order), flow) ==
        if own == [] then SlotOf(s, flow) else Effect(setup, flow, SlotOf(s, flow), own[|own| - 1])
  {
    var own := EventsOf(setup, batch, flow);
    FlowsAreIndependent(setup, s, order, flow);
    OrderMeetsTheLast(setup, batch, order, flow);
    if own != [] { assert [own[|own| - 1]][..0] == []; }
  }

  ghost predicate LastsSuffice(setup: Setup, s: State, batch: seq<Event>) {
    forall flow :: LastSuffices(setup, flow, SlotOf(s, flow), EventsOf(setup, batch, flow))
  }

  /** A reduced batch agrees from exactly the states where each flow's last event suffices. */
  lemma OrderAgreesWhereLastsSuffice(setup: Setup, s: State, t: State, batch: seq<Event>, order: seq<Event>)
    requires IsOrderOf(order, LastPerKey(batch)) && SameFlows(s, t)
    ensures SameFlows(ApplyAll(setup, s, order), ApplyAll(setup, t, batch)) <==> LastsSuffice(setup, t, batch)
  {
    forall flow
      ensures SlotOf(ApplyAll(setup, s, order), flow) == SlotOf(ApplyAll(setup, t, batch), flow) <==>
        LastSuffices(setup, flow, SlotOf(t, flow), EventsOf(setup, batch, flow))
    {
      assert SlotOf(s, flow) == SlotOf(t, flow);
      OrderEffect(setup, s, batch, order, flow);
      FlowsAreIndependent(setup, t, batch, flow);
    }
  }

  lemma HarmlessSuffices(setup: Setup, s: State, batch: seq<Event>)
    requires Harmless(setup, batch) && OnlyStarted(setup, s)
    ensures LastsSuffice(setup, s, batch)
  {
    forall flow ensures LastSuffices(setup, flow, SlotOf(s, flow), EventsOf(setup, batch, flow)) {
      assert LastSpeaksForAll(setup, flow, EventsOf(setup, batch, flow));
      SpeakingLastSuffices(setup, flow, SlotOf(s, flow), EventsOf(setup, batch, flow));
    }
  }

  /** A harmful batch shows after no event at all, or after one put that starts the flow. */
  lemma HarmfulBatchShows(setup: Setup, batch: seq<Event>, flow: string) returns (before: seq<Event>)
    requires !LastSpeaksForAll(setup, flow, EventsOf(setup, batch, flow))
    ensures !LastsSuffice(setup, ApplyAll(setup, State(map[], 0, []), before), batch)
  {
    var empty := State(map[], 0, []);
    var source :| setup.verdict(flow, source).Runs?;
    var own := EventsOf(setup, batch, flow);
    var slot := SilentLastFallsShort(setup, flow, own, source);
    if slot.None? {
      before := [];
    } else {
      var start := Put(setup.prefix + "." + flow, source);
      before := [start];
      KeyOfFlow(setup.prefix, start.key, flow);
      assert [start][..0] == [] && ApplyAll(setup, empty, before) == Apply(setup, empty, start);
    }
    assert SlotOf(ApplyAll(setup, empty, before), flow) == slot;
  }

  /**
   * A reduced batch, in any order, leaves the flows that event-by-event application leaves, from every
   * registry of started flows, if and only if each flow's last event speaks for its others. A batch
   * that is not harmless differs in a registry the loop itself reaches from an empty one.
   */
  lemma BatchAgreesExactlyWhenHarmless(setup: Setup, batch: seq<Event>, order: seq<Event>)
    requires IsOrderOf(order, LastPerKey(batch))
    ensures (forall s: State | OnlyStarted(setup, s) ::
               SameFlows(ApplyAll(setup, s, order), ApplyAll(setup, s, batch))) <==> Harmless(setup, batch)
    ensures !Harmless(setup, batch) ==> exists before ::
      var s := ApplyAll(setup, State(map[], 0, []), before);
      OnlyStarted(setup, s) && !SameFlows(ApplyAll(setup, s, order), ApplyAll(setup, s, batch))
  {
    if Harmless(setup, batch) {
      forall s: State | OnlyStarted(setup, s) ensures SameFlows(ApplyAll(setup, s, order), ApplyAll(setup, s, batch)) {
        HarmlessSuffices(setup, s, batch);
        OrderAgreesWhereLastsSuffice(setup, s, s, batch, order);
      }
    } else {
      var flow :| !LastSpeaksForAll(setup, flow, EventsOf(setup, batch, flow));
      var before := HarmfulBatchShows(setup, batch, flow);
      var s := ApplyAll(setup, State(map[], 0, []), before);
      EventsKeepOnlyStarted(setup, State(map[], 0, []), before);
      OrderAgreesWhereLastsSuffice(setup, s, s, batch, order);
    }
  }

  /** A source that runs, put and then replaced by a broken one within a batch, is never started. */
  lemma BrokenPutHidesAGoodOne()
    ensures exists setup, batch, order, s ::
      && IsOrderOf(order, LastPerKey(batch))
      && SlotOf(ApplyAll(setup, s, batch), "flow") == Some(Running("good", false))
      && SlotOf(ApplyAll(setup, s, order), "flow") == None
  {
    var setup := Setup("flows", {}, (flow, source) => if source == "good" then Runs else Rejected);
    var good, bad := Put("flows.flow", "good"), Put("flows.flow", "bad");
    var s := State(map[], 0, []);
    var batch := [good, bad];
    KeyOfFlow("flows", "flows.flow", "flow");
    assert batch[..1] == [good] && [good][..0] == [] && [bad][..0] == [];
    assert LastPerKey([good]) == map["flows.flow" := good];
    assert LastPerKey(batch) == map["flows.flow" := bad];
    assert ApplyAll(setup, s, [good]) == State(map["flow" := Handle(0, "good", false)], 1, []);
    assert ApplyAll(setup, s, [bad]) == s;
    assert IsOrderOf([bad], LastPerKey(batch));
  }

  // ---- Any stream in any batches ----

  function Concat(batches: seq<seq<Event>>): seq<Event> {
    if batches == [] then [] else batches[0] + Concat(batches[1..])
  }

  lemma {:induction false} ApplySplit(setup: Setup, s: State, a: seq<Event>, b: seq<Event>)
    ensures ApplyAll(setup, s, a + b) == ApplyAll(setup, ApplyAll(setup, s, a), b)
    decreases |b|
  {
    if b == [] {
      assert a + b == a;
    } else {
      ApplySplit(setup, s, a, b[..|b| - 1]);
      assert (a + b)[..|a + b| - 1] == a + b[..|b| - 1];
    }
  }

  /** Each flow's last event in the batch is a delete or a source that runs. */
  ghost predicate LastsDecide(setup: Setup, batch: seq<Event>) {
    forall flow :: var own := EventsOf(setup, batch, flow);
      own == [] || flow in setup.filesystem || Decisive(setup, flow, own[|own| - 1])
  }

  /** From started flows harmless batches agree; from any registry those whose last events decide do. */
  lemma {:induction false} BatchesAgree(setup: Setup, s: State, t: State, batches: seq<seq<Event>>, r: State)
    requires AppliesBatches(setup, s, batches, r) && SameFlows(s, t)
    requires
      || (OnlyStarted(setup, t) && forall i | 0 <= i < |batches| :: Harmless(setup, batches[i]))
      || (forall i | 0 <= i < |batches| :: LastsDecide(setup, batches[i]))
    ensures SameFlows(r, ApplyAll(setup, t, Concat(batches)))
    decreases |batches|
  {
    if batches != [] {
      var batch := batches[0];
      var order :| IsOrderOf(order, LastPerKey(batch)) &&
        AppliesBatches(setup, ApplyAll(setup, s, order), batches[1..], r);
      BatchSuffices(setup, t, batch);
      OrderAgreesWhereLastsSuffice(setup, s, t, batch, order);
      if OnlyStarted(setup, t) { EventsKeepOnlyStarted(setup, t, batch); }
      BatchesAgree(setup, ApplyAll(setup, s, order), ApplyAll(setup, t, batch), batches[1..], r);
      ApplySplit(setup, t, batch, Concat(batches[1..]));
    }
  }

  lemma BatchSuffices(setup: Setup, s: State, batch: seq<Event>)
    requires (OnlyStarted(setup, s) && Harmless(setup, batch)) || LastsDecide(setup, batch)
    ensures LastsSuffice(setup, s, batch)
  {
    if LastsDecide(setup, batch) {
      forall flow ensures LastSuffices(setup, flow, SlotOf(s, flow), EventsOf(setup, batch, flow)) {
        DecisiveLastSuffices(setup, flow, SlotOf(s, flow), EventsOf(setup, batch, flow));
      }
    } else {
      HarmlessSuffices(setup, s, batch);
    }
  }

  /** Every put of a flow that the cache owns builds, initialises and starts. */
  ghost predicate EveryPutRuns(setup: Setup, events: seq<Event>) {
    forall e, flow :: e in events && Names(setup, flow, e) && flow !in setup.filesystem ==> Decisive(setup, flow, e)
  }

  /**
   * When every put runs, applying a stream in any batches, each reduced and in any order, leaves the
   * flows that one event at a time leaves.
   */
  lemma BatchingIsInvisible(setup: Setup, s: State, batches: seq<seq<Event>>, r: State)
    requires AppliesBatches(setup, s, batches, r) && EveryPutRuns(setup, Concat(batches))
    ensures SameFlows(r, ApplyAll(setup, s, Concat(batches)))
  {
    forall i | 0 <= i < |batches| ensures LastsDecide(setup, batches[i]) {
      forall flow
        ensures var own := EventsOf(setup, batches[i], flow);
          own == [] || flow in setup.filesystem || Decisive(setup, flow, own[|own| - 1])
      {
        var own := EventsOf(setup, batches[i], flow);
        if own != [] {
          assert own[|own| - 1] in batches[i];
          InConcat(batches, i, own[|own| - 1]);
        }
      }
    }
    BatchesAgree(setup, s, s, batches, r);
  }

  lemma {:induction false} InConcat(batches: seq<seq<Event>>, i: nat, e: Event)
    requires i < |batches| && e in batches[i]
    ensures e in Concat(batches)
  {
    if i > 0 { InConcat(batches[1..], i - 1, e); }
  }

  // ---- What the last event of a flow leaves ----

  /** The flow's handle, if one was registered, is cancelled and gone. */
  ghost predicate TakenDown(s: State, t: State, flow: string) {
    && flow !in t.registry
    && t.started == s.started
    && t.stopped == if flow in s.registry then s.stopped + [s.registry[flow].id] else s.stopped
  }

  /**
   * What one event does to the flow it names: a delete takes it down; the source it runs already changes nothing,
   * nor does a refused one; a source that fails to start takes the old flow down; any other replaces it.
   */
  lemma OneEventOnItsFlow(setup: Setup, s: State, e: Event, flow: string)
    requires e.key == setup.prefix + "." + flow && flow !in setup.filesystem
    ensures var t := Apply(setup, s, e);
      && (forall other :: other != flow ==> SlotOf(t, other) == SlotOf(s, other))
      && match e
         case Delete(_) => TakenDown(s, t, flow)
         case Put(_, source) =>
           if flow in s.registry && s.registry[flow].source == source && !s.registry[flow].finished then t == s
           else
             match setup.verdict(flow, source)
             case Rejected => t == s
             case StartFails => TakenDown(s, t, flow)
             case Runs =>
               && flow in t.registry && t.registry[flow] == Handle(s.started, source, false)
               && t.started == s.started + 1
               && t.stopped == if flow in s.registry then s.stopped + [s.registry[flow].id] else s.stopped
  {
    KeyOfFlow(setup.prefix, e.key, flow);
  }

  /** An event of the filesystem's flows, or of a key that names no flow, changes nothing. */
  lemma OtherEventsDoNothing(setup: Setup, s: State, e: Event)
    requires forall flow :: e.key == setup.prefix + "." + flow ==> flow in setup.filesystem
    ensures Apply(setup, s, e) == s
  {
    if FlowOf(setup.prefix, e.key).Some? {
      KeyOfFlow(setup.prefix, e.key, FlowOf(setup.prefix, e.key).value);
    }
  }

  /** Whatever came before, the last event of a flow that is a delete, or puts a source that runs, decides. */
  lemma {:induction false} LastEventDecides(setup: Setup, s: State, events: seq<Event>, i: nat, flow: string)
    requires i < |events| && events[i].key == setup.prefix + "." + flow && flow !in setup.filesystem
    requires forall j | i < j < |events| :: events[j].key != events[i].key
    ensures events[i].Delete? ==> flow !in ApplyAll(setup, s, events).registry
    ensures events[i].Put? && setup.verdict(flow, events[i].value) == Runs ==>
      SlotOf(ApplyAll(setup, s, events), flow) == Some(Running(events[i].value, false))
    decreases |events|
  {
    var n := |events| - 1;
    var before := ApplyAll(setup, s, events[..n]);
    if i == n {
      OneEventOnItsFlow(setup, before, events[n], flow);
    } else {
      LastEventDecides(setup, s, events[..n], i, flow);
      KeyOfFlow(setup.prefix, events[n].key, flow);
      ApplyMovesOneFlow(setup, before, events[n], flow);
    }
  }

  // ---- What no event touches, and where handles go ----

  lemma {:induction false} FilesystemHandlesStay(setup: Setup, s: State, batches: seq<seq<Event>>, r: State,
                                                 flow: string)
    requires AppliesBatches(setup, s, batches, r) && flow in setup.filesystem
    ensures flow in r.registry <==> flow in s.registry
    ensures flow in s.registry ==> r.registry[flow] == s.registry[flow]
    decreases |batches|
  {
    if batches != [] {
      var order :| IsOrderOf(order, LastPerKey(batches[0])) &&
        AppliesBatches(setup, ApplyAll(setup, s, order), batches[1..], r);
      FilesystemHandlesStayOver(setup, s, order, flow);
      FilesystemHandlesStay(setup, ApplyAll(setup, s, order), batches[1..], r, flow);
    }
  }

  lemma {:induction false} FilesystemHandlesStayOver(setup: Setup, s: State, events: seq<Event>, flow: string)
    requires flow in setup.filesystem
    ensures var t := ApplyAll(setup, s, events);
      (flow in t.registry <==> flow in s.registry) && (flow in s.registry ==> t.registry[flow] == s.registry[flow])
    decreases |events|
  {
    if events != [] { FilesystemHandlesStayOver(setup, s, events[..|events| - 1], flow); }
  }

  predicate Registered(s: State, id: nat) {
    exists flow :: flow in s.registry && s.registry[flow].id == id
  }

  /** Every started flow is registered under one name or was cancelled once, and not both. */
  ghost predicate HandlesConserved(s: State) {
    && (forall id: nat :: Registered(s, id) || id in s.stopped <==> id < s.started)
    && (forall id: nat :: !(Registered(s, id) && id in s.stopped))
    && (forall f, g :: f in s.registry && g in s.registry && s.registry[f].id == s.registry[g].id ==> f == g)
    && (forall i, j :: 0 <= i < j < |s.stopped| ==> s.stopped[i] != s.stopped[j])
  }

  lemma StoppingConserves(s: State, flow: string)
    requires HandlesConserved(s)
    ensures HandlesConserved(Stopped(s, flow)) && flow !in Stopped(s, flow).registry
    ensures Stopped(s, flow).started == s.started
  {
    if flow in s.registry {
      var t, gone := Stopped(s, flow), s.registry[flow].id;
      assert Registered(s, gone);
      forall id: nat ensures Registered(t, id) <==> Registered(s, id) && id != gone {
        if Registered(s, id) && id != gone {
          var f :| f in s.registry && s.registry[f].id == id;
          assert f in t.registry && t.registry[f].id == id;
        }
        if Registered(t, id) {
          var f :| f in t.registry && t.registry[f].id == id;
          assert f in s.registry && s.registry[f].id == id;
        }
      }
    }
  }

  lemma StartingConserves(s: State, flow: string, source: string)
    requires HandlesConserved(s) && flow !in s.registry
    ensures HandlesConserved(Started(s, flow, source))
  {
    var t := Started(s, flow, source);
    forall id: nat ensures Registered(t, id) <==> Registered(s, id) || id == s.started {
      if Registered(s, id) {
        var f :| f in s.registry && s.registry[f].id == id;
        assert f in t.registry && t.registry[f].id == id;
      }
      if id == s.started { assert flow in t.registry && t.registry[flow].id == id; }
      if Registered(t, id) {
        var f :| f in t.registry && t.registry[f].id == id;
        assert f == flow || (f in s.registry && s.registry[f].id == id);
      }
    }
    forall f | f in s.registry ensures s.registry[f].id < s.started { assert Registered(s, s.registry[f].id); }
  }

  /** No event loses a running flow or lets two flows of one name run. */
  lemma {:induction false} EventsConserveHandles(setup: Setup, s: State, events: seq<Event>)
    requires HandlesConserved(s)
    ensures HandlesConserved(ApplyAll(setup, s, events))
    decreases |events|
  {
    if events != [] {
      EventsConserveHandles(setup, s, events[..|events| - 1]);
      var before, e := ApplyAll(setup, s, events[..|events| - 1]), events[|events| - 1];
      var name := FlowOf(setup.prefix, e.key);
      if name.Some? {
        StoppingConserves(before, name.value);
        if e.Put? { StartingConserves(Stopped(before, name.value), name.value, e.value); }
      }
    }
  }

  lemma {:induction false} BatchesConserveHandles(setup: Setup, s: State, batches: seq<seq<Event>>, r: State)
    requires HandlesConserved(s) && AppliesBatches(setup, s, batches, r)
    ensures HandlesConserved(r)
    decreases |batches|
  {
    if batches != [] {
      var order :| IsOrderOf(order, LastPerKey(batches[0])) &&
        AppliesBatches(setup, ApplyAll(setup, s, order), batches[1..], r);
      EventsConserveHandles(setup, s, order);
      BatchesConserveHandles(setup, ApplyAll(setup, s, order), batches[1..], r);
    }
  }
}
