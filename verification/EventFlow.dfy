/** One event through a wired flow, when every task forwards what it receives once and channels stay open. */
module EventFlow {
  import opened Prelude
  import opened TaskGraph
  import opened DependencyPaths
  import opened Wiring

  /** The channels holding a copy of the event, and how often each task has received it. */
  datatype Flight = Flight(copies: seq<nat>, received: seq<nat>)

  /** The task receiving from `channel`. */
  function Receiver(tasks: seq<Descriptor>, channel: nat): (r: Option<nat>)
    ensures r.Some? ==> r.value < |tasks| && tasks[r.value].input == Some(channel)
    ensures r.None? ==> forall v | 0 <= v < |tasks| :: tasks[v].input != Some(channel)
  {
    if tasks == [] then None
    else
      var n := |tasks| - 1;
      if tasks[n].input == Some(channel) then Some(n)
      else
        var r := Receiver(tasks[..n], channel);
        assert r.None? ==> forall v | 0 <= v < n :: tasks[..n][v].input == tasks[v].input;
        r
  }

  /** The copy a task sends on. */
  function Sent(task: Descriptor): seq<nat> {
    match task.output
    case Some(channel) => [channel]
    case None => []
  }

  function Replace(s: seq<nat>, i: nat, into: seq<nat>): seq<nat>
    requires i < |s|
  {
    s[..i] + into + s[i + 1..]
  }

  /**
   * The copy at position `i` moves: a dispatcher clones it into its branches,
   * a task receives it and sends it on. Any position may be next.
   */
  function Deliver(registry: Registry, f: Flight, i: nat): Flight {
    if i >= |f.copies| then f
    else if f.copies[i] in registry.fanOuts then f.(copies := Replace(f.copies, i, registry.fanOuts[f.copies[i]]))
    else
      match Receiver(registry.tasks, f.copies[i])
      case None => f
      case Some(v) =>
        if v >= |f.received| then f
        else Flight(Replace(f.copies, i, Sent(registry.tasks[v])), f.received[v := f.received[v] + 1])
  }

  /** The event as task `u` emits it. */
  function Emit(registry: Registry, u: nat): Flight
    requires u < |registry.tasks|
  {
    Flight(Sent(registry.tasks[u]), seq(|registry.tasks|, i => 0))
  }

  function Run(registry: Registry, f: Flight, schedule: seq<nat>): Flight
    decreases |schedule|
  {
    if schedule == [] then f
    else Deliver(registry, Run(registry, f, schedule[..|schedule| - 1]), schedule[|schedule| - 1])
  }

  // ---- Weighing the copies in flight ----

  function SumOver(g: nat -> nat, tasks: seq<nat>): nat {
    if tasks == [] then 0 else g(tasks[0]) + SumOver(g, tasks[1..])
  }

  function InboundValue(registry: Registry, g: nat -> nat, channel: nat): nat {
    match Receiver(registry.tasks, channel)
    case Some(d) => g(d)
    case None => 0
  }

  function SumInbound(registry: Registry, g: nat -> nat, channels: seq<nat>): nat {
    if channels == [] then 0 else InboundValue(registry, g, channels[0]) + SumInbound(registry, g, channels[1..])
  }

  /** A copy is worth what its receiver makes of it; before a dispatcher, what all branches do, and `extra`. */
  function Value(registry: Registry, g: nat -> nat, extra: nat, channel: nat): nat {
    if channel in registry.fanOuts then extra + SumInbound(registry, g, registry.fanOuts[channel])
    else InboundValue(registry, g, channel)
  }

  function Total(registry: Registry, g: nat -> nat, extra: nat, channels: seq<nat>): nat {
    if channels == [] then 0 else Value(registry, g, extra, channels[0]) + Total(registry, g, extra, channels[1..])
  }

  lemma {:induction false} TotalConcat(registry: Registry, g: nat -> nat, extra: nat, a: seq<nat>, b: seq<nat>)
    ensures Total(registry, g, extra, a + b) == Total(registry, g, extra, a) + Total(registry, g, extra, b)
  {
    if a == [] {
      assert a + b == b;
    } else {
      assert (a + b)[1..] == a[1..] + b;
      TotalConcat(registry, g, extra, a[1..], b);
    }
  }

  lemma TotalReplace(registry: Registry, g: nat -> nat, extra: nat, s: seq<nat>, i: nat, into: seq<nat>)
    requires i < |s|
    ensures Total(registry, g, extra, Replace(s, i, into)) + Value(registry, g, extra, s[i]) ==
      Total(registry, g, extra, s) + Total(registry, g, extra, into)
  {
    TotalConcat(registry, g, extra, s[..i] + into, s[i + 1..]);
    TotalConcat(registry, g, extra, s[..i], into);
    assert s == s[..i] + ([s[i]] + s[i + 1..]);
    TotalConcat(registry, g, extra, s[..i], [s[i]] + s[i + 1..]);
    assert ([s[i]] + s[i + 1..])[1..] == s[i + 1..];
  }

  // ---- Wired channels ----

  /** The task that owns a dispatcher. */
  lemma DispatcherServes(tasks: seq<Task>, parents: Parents, registry: Registry, c: nat) returns (u: nat)
    requires Wired(tasks, parents, registry) && c in registry.fanOuts
    ensures c >= InboundCount(parents, |parents|)
    ensures u < |parents| && AreInbounds(parents, Children(parents, u), registry.fanOuts[c])
  {
    assert DispatchersOwned(parents, registry);
    u :| 0 <= u < |parents| && Branches(parents, u) && registry.tasks[u].output == Some(c);
    assert TaskWired(parents, u, tasks[u], registry.tasks[u], registry.fanOuts);
  }

  lemma InboundIsReceived(tasks: seq<Task>, parents: Parents, registry: Registry, v: nat)
    requires Wired(tasks, parents, registry) && v < |parents| && parents[v] != []
    ensures Receiver(registry.tasks, Inbound(parents, v).value) == Some(v)
    ensures Inbound(parents, v).value < InboundCount(parents, |parents|)
    ensures Inbound(parents, v).value !in registry.fanOuts
  {
    var c := Inbound(parents, v).value;
    InboundCountGrows(parents, v, |parents|);
    assert TaskWired(parents, v, tasks[v], registry.tasks[v], registry.fanOuts);
    var r := Receiver(registry.tasks, c);
    if r.value != v {
      assert TaskWired(parents, r.value, tasks[r.value], registry.tasks[r.value], registry.fanOuts);
      InboundsDiffer(parents, v, r.value);
    }
    if c in registry.fanOuts { var u := DispatcherServes(tasks, parents, registry, c); }
  }

  lemma {:induction false} InboundsOfChildren(tasks: seq<Task>, parents: Parents, registry: Registry, g: nat -> nat,
                                              extra: nat, cs: seq<nat>, channels: seq<nat>)
    requires Wired(tasks, parents, registry) && AreInbounds(parents, cs, channels)
    ensures SumInbound(registry, g, channels) == SumOver(g, cs)
    ensures Total(registry, g, extra, channels) == SumOver(g, cs)
  {
    if cs != [] {
      InboundIsReceived(tasks, parents, registry, cs[0]);
      assert AreInbounds(parents, cs[1..], channels[1..]) by {
        forall i | 0 <= i < |cs[1..]|
          ensures cs[1..][i] < |parents| && Inbound(parents, cs[1..][i]) == Some(channels[1..][i])
        {
          assert cs[1..][i] == cs[i + 1] && channels[1..][i] == channels[i + 1];
        }
      }
      InboundsOfChildren(tasks, parents, registry, g, extra, cs[1..], channels[1..]);
    }
  }

  /** What a task sends is worth what its children make of it. */
  lemma SentReachesChildren(tasks: seq<Task>, parents: Parents, registry: Registry, g: nat -> nat, extra: nat, u: nat)
    requires Wired(tasks, parents, registry) && u < |tasks|
    ensures Total(registry, g, extra, Sent(registry.tasks[u])) ==
      SumOver(g, Children(parents, u)) + (if Branches(parents, u) then extra else 0)
  {
    var cs := Children(parents, u);
    var output := registry.tasks[u].output;
    assert OutputReaches(parents, u, output, registry.fanOuts);
    if |cs| == 1 {
      ChildOf(parents, u, cs[0]);
      InboundIsReceived(tasks, parents, registry, cs[0]);
      assert Total(registry, g, extra, [output.value][1..]) == 0;
      assert SumOver(g, cs[1..]) == 0;
    } else if |cs| > 1 {
      InboundsOfChildren(tasks, parents, registry, g, extra, cs, registry.fanOuts[output.value]);
      assert Total(registry, g, extra, [output.value][1..]) == 0;
    }
  }

  // ---- Each delivery spends what the event was worth there ----

  /** `g` is worth `own` at a task itself and then whatever its children make of a copy each. */
  ghost predicate Decomposes(parents: Parents, g: nat -> nat, own: nat -> nat, extra: nat) {
    forall d: nat | d < |parents| ::
      g(d) == own(d) + SumOver(g, Children(parents, d)) + (if Branches(parents, d) then extra else 0)
  }

  /** The task that receives at position `i`, unless a dispatcher holds the copy. */
  function ReceiverAt(registry: Registry, f: Flight, i: nat): Option<nat> {
    if i < |f.copies| && f.copies[i] !in registry.fanOuts then Receiver(registry.tasks, f.copies[i]) else None
  }

  /** A channel is read by a dispatcher or by a task. */
  predicate IsRead(registry: Registry, channel: nat) {
    channel in registry.fanOuts || Receiver(registry.tasks, channel).Some?
  }

  ghost predicate AllRead(registry: Registry, channels: seq<nat>) {
    forall i | 0 <= i < |channels| :: IsRead(registry, channels[i])
  }

  /** Every copy is in a channel somebody reads. */
  ghost predicate Alive(registry: Registry, f: Flight) {
    |f.received| == |registry.tasks| && AllRead(registry, f.copies)
  }

  lemma ReplaceKeepsRead(registry: Registry, s: seq<nat>, i: nat, into: seq<nat>)
    requires i < |s| && AllRead(registry, s) && AllRead(registry, into)
    ensures AllRead(registry, Replace(s, i, into))
  {}

  lemma DeliverSpends(tasks: seq<Task>, parents: Parents, registry: Registry, g: nat -> nat, own: nat -> nat,
                      extra: nat, f: Flight, i: nat)
    requires Wired(tasks, parents, registry) && Alive(registry, f) && i < |f.copies|
    requires Decomposes(parents, g, own, extra)
    ensures var spent := match ReceiverAt(registry, f, i) case Some(d) => own(d) case None => extra;
      Total(registry, g, extra, Deliver(registry, f, i).copies) + spent == Total(registry, g, extra, f.copies)
  {
    var c := f.copies[i];
    if c in registry.fanOuts {
      TotalReplace(registry, g, extra, f.copies, i, registry.fanOuts[c]);
      var u := DispatcherServes(tasks, parents, registry, c);
      InboundsOfChildren(tasks, parents, registry, g, extra, Children(parents, u), registry.fanOuts[c]);
    } else {
      var d := Receiver(registry.tasks, c).value;
      TotalReplace(registry, g, extra, f.copies, i, Sent(registry.tasks[d]));
      SentReachesChildren(tasks, parents, registry, g, extra, d);
    }
  }

  lemma {:induction false} ChannelsAlive(tasks: seq<Task>, parents: Parents, registry: Registry, cs: seq<nat>,
                                         channels: seq<nat>)
    requires Wired(tasks, parents, registry) && AreInbounds(parents, cs, channels)
    ensures AllRead(registry, channels)
  {
    forall i | 0 <= i < |channels| ensures IsRead(registry, channels[i]) {
      InboundIsReceived(tasks, parents, registry, cs[i]);
    }
  }

  lemma SentIsAlive(tasks: seq<Task>, parents: Parents, registry: Registry, u: nat)
    requires Wired(tasks, parents, registry) && u < |tasks|
    ensures AllRead(registry, Sent(registry.tasks[u]))
  {
    var cs := Children(parents, u);
    assert OutputReaches(parents, u, registry.tasks[u].output, registry.fanOuts);
    if |cs| == 1 {
      ChildOf(parents, u, cs[0]);
      InboundIsReceived(tasks, parents, registry, cs[0]);
    }
  }

  lemma DeliverKeepsAlive(tasks: seq<Task>, parents: Parents, registry: Registry, f: Flight, i: nat)
    requires Wired(tasks, parents, registry) && Alive(registry, f)
    ensures Alive(registry, Deliver(registry, f, i))
  {
    if i < |f.copies| {
      var c := f.copies[i];
      if c in registry.fanOuts {
        var u := DispatcherServes(tasks, parents, registry, c);
        ChannelsAlive(tasks, parents, registry, Children(parents, u), registry.fanOuts[c]);
        ReplaceKeepsRead(registry, f.copies, i, registry.fanOuts[c]);
      } else {
        assert IsRead(registry, c);
        var v := Receiver(registry.tasks, c).value;
        SentIsAlive(tasks, parents, registry, v);
        ReplaceKeepsRead(registry, f.copies, i, Sent(registry.tasks[v]));
      }
    }
  }

  lemma {:induction false} RunKeepsAlive(tasks: seq<Task>, parents: Parents, registry: Registry, u: nat,
                                         schedule: seq<nat>)
    requires Wired(tasks, parents, registry) && u < |tasks|
    ensures Alive(registry, Run(registry, Emit(registry, u), schedule))
    decreases |schedule|
  {
    if schedule == [] {
      SentIsAlive(tasks, parents, registry, u);
    } else {
      var init := schedule[..|schedule| - 1];
      RunKeepsAlive(tasks, parents, registry, u, init);
      DeliverKeepsAlive(tasks, parents, registry, Run(registry, Emit(registry, u), init), schedule[|schedule| - 1]);
    }
  }

  // ---- Once per path ----

  ghost function ArriveAt(parents: Parents, v: nat): nat -> nat
    requires Topological(parents) && v < |parents|
  {
    d => Arrive(parents, d, v)
  }

  lemma {:induction false} SumOverArrive(parents: Parents, cs: seq<nat>, v: nat)
    requires Topological(parents) && v < |parents|
    ensures SumOver(ArriveAt(parents, v), cs) == ArriveFrom(parents, cs, v)
  {
    if cs != [] { SumOverArrive(parents, cs[1..], v); }
  }

  lemma ArriveDecomposes(parents: Parents, v: nat)
    requires Topological(parents) && v < |parents|
    ensures Decomposes(parents, ArriveAt(parents, v), d => if d == v then 1 else 0, 0)
  {
    forall d: nat | d < |parents|
      ensures ArriveAt(parents, v)(d) == (if d == v then 1 else 0) + SumOver(ArriveAt(parents, v), Children(parents, d))
    {
      PathsForward(parents, d, v);
      SumOverArrive(parents, Children(parents, d), v);
    }
  }

  /** What a task has received and what is still on its way to it is, at all times, the number of paths. */
  lemma {:induction false} PathsAreConserved(tasks: seq<Task>, parents: Parents, registry: Registry, u: nat,
                                             schedule: seq<nat>, v: nat)
    requires Wired(tasks, parents, registry) && u < |tasks| && v < |tasks|
    ensures var f := Run(registry, Emit(registry, u), schedule);
      && |f.received| == |tasks|
      && f.received[v] + Total(registry, ArriveAt(parents, v), 0, f.copies) == PathCount(parents, u, v)
    decreases |schedule|
  {
    var g := ArriveAt(parents, v);
    ArriveDecomposes(parents, v);
    RunKeepsAlive(tasks, parents, registry, u, schedule);
    if schedule == [] {
      SentReachesChildren(tasks, parents, registry, g, 0, u);
      SumOverArrive(parents, Children(parents, u), v);
      PathsForward(parents, u, v);
    } else {
      var init, i := schedule[..|schedule| - 1], schedule[|schedule| - 1];
      PathsAreConserved(tasks, parents, registry, u, init, v);
      RunKeepsAlive(tasks, parents, registry, u, init);
      var before := Run(registry, Emit(registry, u), init);
      if i < |before.copies| {
        DeliverSpends(tasks, parents, registry, g, d => if d == v then 1 else 0, 0, before, i);
      }
    }
  }

  // ---- Every schedule comes to rest ----

  lemma ChildrenComeLater(parents: Parents, u: nat)
    requires Topological(parents)
    ensures forall i | 0 <= i < |Children(parents, u)| :: u < Children(parents, u)[i]
  {
    forall i | 0 <= i < |Children(parents, u)| ensures u < Children(parents, u)[i] {
      ChildOf(parents, u, Children(parents, u)[i]);
    }
  }

  /** The deliveries a copy received by `d` causes, its own and those through dispatchers included. */
  ghost function Work(parents: Parents, d: nat): nat
    requires Topological(parents) && d < |parents|
    decreases |parents| - d, 1, 0
  {
    ChildrenComeLater(parents, d);
    1 + (if Branches(parents, d) then 1 else 0) + WorkOf(parents, d, Children(parents, d))
  }

  ghost function WorkOf(parents: Parents, above: nat, cs: seq<nat>): nat
    requires Topological(parents) && above < |parents| && forall i | 0 <= i < |cs| :: above < cs[i] < |parents|
    decreases |parents| - above, 0, |cs|
  {
    if cs == [] then 0 else Work(parents, cs[0]) + WorkOf(parents, above, cs[1..])
  }

  ghost function WorkAt(parents: Parents): nat -> nat
    requires Topological(parents)
  {
    (d: nat) => if d < |parents| then Work(parents, d) else 0
  }

  lemma {:induction false} SumOverWork(parents: Parents, above: nat, cs: seq<nat>)
    requires Topological(parents) && above < |parents| && forall i | 0 <= i < |cs| :: above < cs[i] < |parents|
    ensures SumOver(WorkAt(parents), cs) == WorkOf(parents, above, cs)
  {
    if cs != [] { SumOverWork(parents, above, cs[1..]); }
  }

  lemma WorkDecomposes(parents: Parents)
    requires Topological(parents)
    ensures Decomposes(parents, WorkAt(parents), d => 1, 1)
  {
    forall d: nat | d < |parents|
      ensures WorkAt(parents)(d) ==
        1 + SumOver(WorkAt(parents), Children(parents, d)) + (if Branches(parents, d) then 1 else 0)
    {
      ChildrenComeLater(parents, d);
      SumOverWork(parents, d, Children(parents, d));
    }
  }

  /** A schedule never stops short: each position names a copy in flight. */
  ghost predicate Busy(registry: Registry, f: Flight, schedule: seq<nat>)
    decreases |schedule|
  {
    schedule == [] ||
    (var init := schedule[..|schedule| - 1];
     Busy(registry, f, init) && schedule[|schedule| - 1] < |Run(registry, f, init).copies|)
  }

  lemma EmissionIsWork(tasks: seq<Task>, parents: Parents, registry: Registry, u: nat)
    requires Wired(tasks, parents, registry) && u < |tasks|
    ensures Total(registry, WorkAt(parents), 1, Sent(registry.tasks[u])) + 1 == Work(parents, u)
  {
    SentReachesChildren(tasks, parents, registry, WorkAt(parents), 1, u);
    ChildrenComeLater(parents, u);
    SumOverWork(parents, u, Children(parents, u));
  }

  lemma DeliveryIsProgress(tasks: seq<Task>, parents: Parents, registry: Registry, f: Flight, i: nat)
    requires Wired(tasks, parents, registry) && Alive(registry, f) && i < |f.copies|
    ensures Total(registry, WorkAt(parents), 1, Deliver(registry, f, i).copies) + 1 ==
      Total(registry, WorkAt(parents), 1, f.copies)
  {
    WorkDecomposes(parents);
    DeliverSpends(tasks, parents, registry, WorkAt(parents), d => 1, 1, f, i);
  }

  lemma {:induction false} EachDeliveryIsProgress(tasks: seq<Task>, parents: Parents, registry: Registry, u: nat,
                                                  schedule: seq<nat>)
    requires Wired(tasks, parents, registry) && u < |tasks| && Busy(registry, Emit(registry, u), schedule)
    ensures Work(parents, u) ==
      Total(registry, WorkAt(parents), 1, Run(registry, Emit(registry, u), schedule).copies) + |schedule| + 1
    decreases |schedule|
  {
    if schedule == [] {
      EmissionIsWork(tasks, parents, registry, u);
    } else {
      var init := schedule[..|schedule| - 1];
      EachDeliveryIsProgress(tasks, parents, registry, u, init);
      RunKeepsAlive(tasks, parents, registry, u, init);
      DeliveryIsProgress(tasks, parents, registry, Run(registry, Emit(registry, u), init), schedule[|schedule| - 1]);
    }
  }

  lemma {:induction false} CopiesAreWork(tasks: seq<Task>, parents: Parents, registry: Registry, copies: seq<nat>)
    requires Wired(tasks, parents, registry)
    requires forall i | 0 <= i < |copies| :: copies[i] in registry.fanOuts || Receiver(registry.tasks, copies[i]).Some?
    ensures |copies| <= Total(registry, WorkAt(parents), 1, copies)
  {
    if copies != [] {
      forall i | 0 <= i < |copies[1..]|
        ensures copies[1..][i] in registry.fanOuts || Receiver(registry.tasks, copies[1..][i]).Some?
      {
        assert copies[1..][i] == copies[i + 1];
      }
      CopiesAreWork(tasks, parents, registry, copies[1..]);
      if copies[0] !in registry.fanOuts {
        assert WorkAt(parents)(Receiver(registry.tasks, copies[0]).value) >= 1;
      }
    }
  }

  /**
   * An event emitted by `u` is delivered to `v` exactly once per dependency
   * path from `u` to `v`, whatever the order of deliveries: never more at any
   * time, and exactly that often once no copy is left, which every schedule
   * that goes on reaches after the same number of deliveries.
   */
  lemma DeliveredOncePerPath(tasks: seq<Task>, parents: Parents, registry: Registry, u: nat, schedule: seq<nat>, v: nat)
    requires Wired(tasks, parents, registry) && u < |tasks| && v < |tasks|
    ensures var f := Run(registry, Emit(registry, u), schedule);
      && |f.received| == |tasks|
      && f.received[v] <= |AllPaths(parents, u, v)|
      && (f.copies == [] ==> f.received[v] == |AllPaths(parents, u, v)|)
    ensures Busy(registry, Emit(registry, u), schedule) ==>
      && |schedule| < Work(parents, u)
      && (|schedule| == Work(parents, u) - 1 <==> Run(registry, Emit(registry, u), schedule).copies == [])
  {
    PathsAreConserved(tasks, parents, registry, u, schedule, v);
    PathCountCountsPaths(parents, u, v);
    if Busy(registry, Emit(registry, u), schedule) {
      EachDeliveryIsProgress(tasks, parents, registry, u, schedule);
      RunKeepsAlive(tasks, parents, registry, u, schedule);
      CopiesAreWork(tasks, parents, registry, Run(registry, Emit(registry, u), schedule).copies);
    }
  }
}
