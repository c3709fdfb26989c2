/**
 * Hot reload: watch events from the flow cache collected into batches and applied to the registry
 * of running flows.
 */
module Reconciler {
  import opened Prelude

  datatype Event = Put(key: string, value: string) | Delete(key: string)

  /** What would become of a flow's source now: refused before the old flow is touched, refused after, or run. */
  datatype Verdict = Rejected | StartFails | Runs

  datatype Handle = Handle(id: nat, source: string, finished: bool)

  /** `verdict` stands for parsing, validating, building, initialising and starting a flow from a source. */
  datatype Setup = Setup(prefix: string, filesystem: set<string>, verdict: (string, string) -> Verdict)

  /** The running flows, how many were started, and the handles that were cancelled, in order. */
  datatype State = State(registry: map<string, Handle>, started: nat, stopped: seq<nat>)

  /** `derive_flow_name`: the key without the configured prefix. */
  function FlowOf(prefix: string, key: string): Option<string> {
    var head := prefix + ".";
    if head <= key then Some(key[|head|..]) else None
  }

  lemma KeyOfFlow(prefix: string, key: string, flow: string)
    ensures FlowOf(prefix, key) == Some(flow) <==> key == prefix + "." + flow
  {}

  /** Still running from exactly `source`. */
  predicate RunsSource(s: State, flow: string, source: string) {
    flow in s.registry && s.registry[flow].source == source && !s.registry[flow].finished
  }

  function Stopped(s: State, flow: string): State {
    if flow in s.registry then s.(registry := s.registry - {flow}, stopped := s.stopped + [s.registry[flow].id]) else s
  }

  function Started(s: State, flow: string, source: string): State {
    s.(registry := s.registry[flow := Handle(s.started, source, false)], started := s.started + 1)
  }

  function Apply(setup: Setup, s: State, e: Event): State {
    match FlowOf(setup.prefix, e.key)
    case None => s
    case Some(flow) =>
      if flow in setup.filesystem then s
      else
        match e
        case Delete(_) => Stopped(s, flow)
        case Put(_, source) =>
          if RunsSource(s, flow, source) then s
          else
            match setup.verdict(flow, source)
            case Rejected => s
            case StartFails => Stopped(s, flow)
            case Runs => Started(Stopped(s, flow), flow, source)
  }

  function ApplyAll(setup: Setup, s: State, events: seq<Event>): State
    decreases |events|
  {
    if events == [] then s else Apply(setup, ApplyAll(setup, s, events[..|events| - 1]), events[|events| - 1])
  }

  /** The last event per key: what a batch is reduced to. */
  function LastPerKey(batch: seq<Event>): map<string, Event> {
    if batch == [] then map[] else LastPerKey(batch[..|batch| - 1])[batch[|batch| - 1].key := batch[|batch| - 1]]
  }

  /** No event after index `i` has its key. */
  ghost predicate IsLastOf(batch: seq<Event>, i: nat, key: string) {
    i < |batch| && batch[i].key == key && forall j :: i < j < |batch| ==> batch[j].key != key
  }

  lemma {:induction false} LastPerKeyIsTheLast(batch: seq<Event>, key: string) returns (i: nat)
    requires key in LastPerKey(batch)
    ensures IsLastOf(batch, i, key) && batch[i] == LastPerKey(batch)[key]
    decreases |batch|
  {
    var before, last := batch[..|batch| - 1], batch[|batch| - 1];
    if last.key == key { i := |batch| - 1; } else { i := LastPerKeyIsTheLast(before, key); }
  }

  lemma {:induction false} EveryKeyIsReduced(batch: seq<Event>, i: nat)
    requires i < |batch|
    ensures batch[i].key in LastPerKey(batch)
    decreases |batch|
  {
    if i < |batch| - 1 { EveryKeyIsReduced(batch[..|batch| - 1], i); }
  }

  predicate DistinctKeys(events: seq<Event>) {
    forall i, j | 0 <= i < j < |events| :: events[i].key != events[j].key
  }

  /** `order` goes through a reduced batch once, in some order. */
  ghost predicate IsOrderOf(order: seq<Event>, reduced: map<string, Event>) {
    DistinctKeys(order) && forall e :: e in order <==> e.key in reduced && reduced[e.key] == e
  }

  /**
   * What `select!` hears next: an event, one of the two timers, or the shutdown token. A feed that
   * ends is a closed channel.
   */
  datatype Signal = Arrived(event: Event) | TimerEnds | ShutDown

  /** The batch that `feed` yields first, if it is not cut short by a shutdown, and what is left of the feed. */
  function FirstBatch(feed: seq<Signal>, collected: seq<Event>): (r: (Option<seq<Event>>, seq<Signal>))
    ensures |r.1| <= |feed| && (r.0.Some? && collected == [] ==> |r.1| < |feed|)
    ensures r.0.Some? ==> r.0.value != []
    decreases |feed|
  {
    if feed == [] then (if collected == [] then None else Some(collected), [])
    else
      match feed[0]
      case ShutDown => (None, feed[1..])
      case Arrived(event) => FirstBatch(feed[1..], collected + [event])
      case TimerEnds => if collected == [] then FirstBatch(feed[1..], []) else (Some(collected), feed[1..])
  }

  /** All the batches the loop applies before it stops. */
  function Batches(feed: seq<Signal>): (r: seq<seq<Event>>)
    decreases |feed|
  {
    var (batch, rest) := FirstBatch(feed, []);
    if batch.None? then [] else [batch.value] + Batches(rest)
  }

  /** `s` becomes `t` by applying each batch, reduced, in an order of its own. */
  ghost predicate AppliesBatches(setup: Setup, s: State, batches: seq<seq<Event>>, t: State)
    decreases |batches|
  {
    if batches == [] then s == t
    else exists order ::
      IsOrderOf(order, LastPerKey(batches[0])) && AppliesBatches(setup, ApplyAll(setup, s, order), batches[1..], t)
  }

  class Reconciler {
    const setup: Setup
    var registry: map<string, Handle>
    var started: nat
    var stopped: seq<nat>

    constructor (setup: Setup, running: map<string, Handle>, started: nat)
      ensures this.setup == setup && Current() == State(running, started, [])
    {
      this.setup := setup;
      registry, this.started, stopped := running, started, [];
    }

    function Current(): State
      reads this
    {
      State(registry, started, stopped)
    }

    method StopAndDeregister(flow: string)
      modifies this
      ensures Current() == Stopped(old(Current()), flow)
    {
      if flow in registry {
        stopped := stopped + [registry[flow].id];
        registry := registry - {flow};
      }
    }

    /** A source that is refused before the old flow is stopped leaves the old flow running. */
    method ReconcilePut(key: string, source: string)
      modifies this
      ensures Current() == Apply(setup, old(Current()), Put(key, source))
    {
      var name := FlowOf(setup.prefix, key);
      if name.None? { return; }
      var flow := name.value;
      if flow in setup.filesystem { return; }
      if RunsSource(Current(), flow, source) { return; }
      var verdict := setup.verdict(flow, source);
      if verdict.Rejected? { return; }
      StopAndDeregister(flow);
      if verdict.StartFails? { return; }
      registry := registry[flow := Handle(started, source, false)];
      started := started + 1;
    }

    method ReconcileDelete(key: string)
      modifies this
      ensures Current() == Apply(setup, old(Current()), Delete(key))
    {
      var name := FlowOf(setup.prefix, key);
      if name.None? { return; }
      if name.value in setup.filesystem { return; }
      StopAndDeregister(name.value);
    }

    /** Removes duplicates, then applies what is left. */
    method ReconcileBatch(batch: seq<Event>) returns (ghost order: seq<Event>)
      modifies this
      ensures IsOrderOf(order, LastPerKey(batch))
      ensures Current() == ApplyAll(setup, old(Current()), order)
    {
      var byKey: map<string, Event> := map[];
      for i := 0 to |batch|
        invariant byKey == LastPerKey(batch[..i])
      {
        assert batch[..i + 1][..i] == batch[..i];
        byKey := byKey[batch[i].key := batch[i]];
      }
      assert batch[..|batch|] == batch;
      forall key | key in byKey ensures byKey[key].key == key { var i := LastPerKeyIsTheLast(batch, key); }
      order := ReconcileReduced(byKey);
    }

    /** Hash-map order is any order. */
    method ReconcileReduced(reduced: map<string, Event>) returns (ghost order: seq<Event>)
      requires forall key | key in reduced :: reduced[key].key == key
      modifies this
      ensures IsOrderOf(order, reduced)
      ensures Current() == ApplyAll(setup, old(Current()), order)
    {
      var byKey := reduced;
      order := [];
      while byKey.Keys != {}
        invariant byKey.Keys <= reduced.Keys && forall key :: key in byKey ==> byKey[key] == reduced[key]
        invariant DistinctKeys(order)
        invariant forall e :: e in order <==> e.key in reduced && e.key !in byKey && reduced[e.key] == e
        invariant Current() == ApplyAll(setup, old(Current()), order)
        decreases byKey.Keys
      {
        var key :| key in byKey.Keys;
        var event := byKey[key];
        byKey := byKey - {key};
        match event {
          case Put(_, source) => ReconcilePut(key, source);
          case Delete(_) => ReconcileDelete(key);
        }
        assert (order + [event])[..|order|] == order;
        order := order + [event];
      }
    }

    method CollectBatch(feed: seq<Signal>) returns (batch: Option<seq<Event>>, rest: seq<Signal>)
      ensures (batch, rest) == FirstBatch(feed, [])
    {
      var collected: seq<Event> := [];
      rest := feed;
      while rest != []
        invariant FirstBatch(feed, []) == FirstBatch(rest, collected)
        decreases |rest|
      {
        var signal := rest[0];
        rest := rest[1..];
        match signal {
          case ShutDown => return None, rest;
          case Arrived(event) => collected := collected + [event];
          case TimerEnds => if collected != [] { return Some(collected), rest; }
        }
      }
      batch := if collected == [] then None else Some(collected);
    }

    method Run(feed: seq<Signal>)
      modifies this
      ensures AppliesBatches(setup, old(Current()), Batches(feed), Current())
    {
      var batch, rest := CollectBatch(feed);
      while batch.Some?
        invariant forall t: State ::
          AppliesBatches(setup, Current(), if batch.Some? then [batch.value] + Batches(rest) else [], t) ==>
            AppliesBatches(setup, old(Current()), Batches(feed), t)
        decreases if batch.Some? then |rest| + 1 else 0
      {
        ghost var before, batches := Current(), [batch.value] + Batches(rest);
        ghost var order := ReconcileBatch(batch.value);
        assert batches[1..] == Batches(rest);
        assert forall t: State :: AppliesBatches(setup, Current(), Batches(rest), t) ==>
          AppliesBatches(setup, before, batches, t);
        batch, rest := CollectBatch(rest);
      }
    }
  }
}
