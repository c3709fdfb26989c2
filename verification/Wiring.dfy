/** Building the task registry: channels, fan-out dispatchers and leaf counts. */
module Wiring {
  import opened Prelude
  import opened TaskGraph
  import opened DependencyPaths

  /** Channels are numbered as they are created; `input` is received from, `output` is sent to. */
  datatype Descriptor = Descriptor(
    id: nat, task: Task, input: Option<nat>, output: Option<nat>, blocking: bool, downstreamLeaves: nat)

  /** `fanOuts` holds the dispatchers: the channel each reads and the channels it clones every event into. */
  datatype Registry = Registry(tasks: seq<Descriptor>, fanOuts: map<nat, seq<nat>>)

  // ---- Leaves ----

  /** The tasks without children reachable from `u` along dependency edges, `u` itself included. */
  function LeavesOf(parents: Parents, u: nat): set<nat>
    requires Topological(parents)
  {
    set l: nat | l < |parents| && Children(parents, l) == [] && Arrive(parents, u, l) > 0
  }

  lemma {:induction false} ArriveFromPositive(parents: Parents, starts: seq<nat>, v: nat)
    requires Topological(parents) && v < |parents|
    ensures ArriveFrom(parents, starts, v) > 0 <==> exists d :: d in starts && Arrive(parents, d, v) > 0
  {
    if starts != [] {
      ArriveFromPositive(parents, starts[1..], v);
      assert starts == [starts[0]] + starts[1..];
      if d :| d in starts && Arrive(parents, d, v) > 0 {
        assert d == starts[0] || d in starts[1..];
      }
    }
  }

  function UnionOfLeaves(parents: Parents, starts: seq<nat>): set<nat>
    requires Topological(parents)
  {
    set l: nat | l < |parents| && Children(parents, l) == [] && ArriveFrom(parents, starts, l) > 0
  }

  /** A childless task reaches itself; any other reaches what its children reach. */
  lemma LeavesThroughChildren(parents: Parents, u: nat)
    requires Topological(parents) && u < |parents|
    ensures LeavesOf(parents, u) ==
      if Children(parents, u) == [] then {u} else UnionOfLeaves(parents, Children(parents, u))
  {
    forall l: nat | l < |parents| && Children(parents, l) == []
      ensures l in LeavesOf(parents, u) <==> l == u || ArriveFrom(parents, Children(parents, u), l) > 0
    {
      PathsForward(parents, u, l);
    }
  }

  /** Every task has a leaf downstream. */
  lemma {:induction false} LeavesExist(parents: Parents, u: nat)
    requires Topological(parents) && u < |parents|
    ensures LeavesOf(parents, u) != {}
    decreases |parents| - u
  {
    LeavesThroughChildren(parents, u);
    var cs := Children(parents, u);
    if cs != [] {
      ChildOf(parents, u, cs[0]);
      LeavesExist(parents, cs[0]);
      var l :| l in LeavesOf(parents, cs[0]);
      ArriveFromPositive(parents, cs, l);
      assert l in UnionOfLeaves(parents, cs);
    }
  }

  // ---- What a wired registry is ----

  /** How many of the first `k` tasks have parents, and so an inbound channel. */
  function InboundCount(parents: Parents, k: nat): nat
    requires k <= |parents|
  {
    if k == 0 then 0 else InboundCount(parents, k - 1) + (if parents[k - 1] == [] then 0 else 1)
  }

  function Inbound(parents: Parents, v: nat): Option<nat>
    requires v < |parents|
  {
    if parents[v] == [] then None else Some(InboundCount(parents, v))
  }

  lemma {:induction false} InboundCountGrows(parents: Parents, j: nat, k: nat)
    requires j <= k <= |parents|
    ensures InboundCount(parents, j) <= InboundCount(parents, k)
    ensures j < k && parents[j] != [] ==> InboundCount(parents, j) < InboundCount(parents, k)
  {
    if j < k { InboundCountGrows(parents, j, k - 1); }
  }

  lemma InboundsDiffer(parents: Parents, v: nat, w: nat)
    requires v < |parents| && w < |parents| && v != w && parents[v] != [] && parents[w] != []
    ensures Inbound(parents, v) != Inbound(parents, w)
  {
    if v < w { InboundCountGrows(parents, v, w); } else { InboundCountGrows(parents, w, v); }
  }

  /** The inbound channels of `cs`, in order. */
  ghost predicate AreInbounds(parents: Parents, cs: seq<nat>, channels: seq<nat>) {
    && |channels| == |cs|
    && forall i | 0 <= i < |cs| :: cs[i] < |parents| && Inbound(parents, cs[i]) == Some(channels[i])
  }

  /** `output` reaches the children of `u`: nobody, the only child, or a dispatcher over all of them. */
  ghost predicate OutputReaches(parents: Parents, u: nat, output: Option<nat>, fanOuts: map<nat, seq<nat>>)
    requires u < |parents|
  {
    var cs := Children(parents, u);
    if cs == [] then output == None
    else if |cs| == 1 then output == Inbound(parents, cs[0])
    else
      && output.Some?
      && output.value >= InboundCount(parents, |parents|)
      && output.value in fanOuts
      && AreInbounds(parents, cs, fanOuts[output.value])
  }

  predicate Branches(parents: Parents, u: nat) { |Children(parents, u)| > 1 }

  ghost predicate TaskWired(parents: Parents, v: nat, task: Task, d: Descriptor, fanOuts: map<nat, seq<nat>>)
    requires v < |parents| && Topological(parents)
  {
    && d.id == v && d.task == task && d.blocking == task.blocking
    && d.input == Inbound(parents, v)
    && OutputReaches(parents, v, d.output, fanOuts)
    && d.downstreamLeaves == |LeavesOf(parents, v)|
  }

  /** Every dispatcher serves exactly one task. */
  ghost predicate DispatchersOwned(parents: Parents, registry: Registry)
    requires |registry.tasks| == |parents|
  {
    && (forall u, w | 0 <= u < w < |parents| && Branches(parents, u) && Branches(parents, w) ::
          registry.tasks[u].output != registry.tasks[w].output)
    && (forall c :: c in registry.fanOuts ==>
          exists u :: 0 <= u < |parents| && Branches(parents, u) && registry.tasks[u].output == Some(c))
  }

  ghost predicate Wired(tasks: seq<Task>, parents: Parents, registry: Registry) {
    && |registry.tasks| == |tasks| == |parents|
    && Topological(parents)
    && (forall v | 0 <= v < |tasks| :: TaskWired(parents, v, tasks[v], registry.tasks[v], registry.fanOuts))
    && DispatchersOwned(parents, registry)
  }

  /** A registry has at least one leaf downstream of every task: a source waits for someone. */
  lemma EveryTaskAwaitsALeaf(tasks: seq<Task>, parents: Parents, registry: Registry, v: nat)
    requires Wired(tasks, parents, registry) && v < |tasks|
    ensures registry.tasks[v].downstreamLeaves >= 1
  {
    assert TaskWired(parents, v, tasks[v], registry.tasks[v], registry.fanOuts);
    LeavesExist(parents, v);
    var l :| l in LeavesOf(parents, v);
    assert LeavesOf(parents, v) == {l} + (LeavesOf(parents, v) - {l});
  }

  // ---- The linear chain ----

  function LinearRegistry(tasks: seq<Task>): Registry {
    Registry(seq(|tasks|, k requires 0 <= k < |tasks| =>
      Descriptor(k, tasks[k], if k > 0 then Some(k - 1) else None, if k < |tasks| - 1 then Some(k) else None,
                 tasks[k].blocking, 1)), map[])
  }

  /** `build_linear`: task `k` receives from task `k - 1`. */
  method BuildLinear(tasks: seq<Task>) returns (registry: Registry)
    ensures registry == LinearRegistry(tasks)
  {
    var channels := seq(if |tasks| > 0 then |tasks| - 1 else 0, i => i);
    var descriptors: seq<Descriptor> := [];
    for idx := 0 to |tasks|
      invariant descriptors == LinearRegistry(tasks).tasks[..idx]
    {
      var input := if idx > 0 then Some(channels[idx - 1]) else None;
      var output := if idx < |tasks| - 1 then Some(channels[idx]) else None;
      descriptors := descriptors + [Descriptor(idx, tasks[idx], input, output, tasks[idx].blocking, 1)];
      assert LinearRegistry(tasks).tasks[idx] == descriptors[idx];
    }
    return Registry(descriptors, map[]);
  }

  // ---- The general graph ----

  /** The children of `u` found so far: among the tasks before `k`, then once per entry of `ps` naming it. */
  function FoundChildren(parents: Parents, u: nat, k: nat, ps: seq<nat>): seq<nat>
    requires k <= |parents|
  {
    ChildrenUpTo(parents, u, k) + Repeat(k, Count(ps, u))
  }

  lemma FoundOneMore(parents: Parents, u: nat, k: nat, ps: seq<nat>, p: nat)
    requires k <= |parents|
    ensures FoundChildren(parents, u, k, ps + [p]) == FoundChildren(parents, u, k, ps) + (if p == u then [k] else [])
  {
    CountConcat(ps, [p], u);
    RepeatOneMore(k, Count(ps, u));
  }

  ghost predicate Groups(groups: map<nat, seq<nat>>, parents: Parents, k: nat, ps: seq<nat>)
    requires k <= |parents|
  {
    forall u: nat ::
      if u in groups then groups[u] == FoundChildren(parents, u, k, ps) && groups[u] != []
      else FoundChildren(parents, u, k, ps) == []
  }

  /** Every task's children, for the tasks that have any. */
  ghost predicate GroupsAll(groups: map<nat, seq<nat>>, parents: Parents) {
    forall u: nat ::
      if u in groups then groups[u] == Children(parents, u) && groups[u] != [] else Children(parents, u) == []
  }

  lemma GroupsNextTask(groups: map<nat, seq<nat>>, parents: Parents, k: nat)
    requires k < |parents| && Groups(groups, parents, k, parents[k])
    ensures Groups(groups, parents, k + 1, [])
  {}

  /** One more child under `p`. */
  function AddChild(groups: map<nat, seq<nat>>, p: nat, child: nat): map<nat, seq<nat>> {
    groups[p := (if p in groups then groups[p] else []) + [child]]
  }

  lemma GroupsOneMore(groups: map<nat, seq<nat>>, parents: Parents, k: nat, ps: seq<nat>, p: nat)
    requires k < |parents| && Groups(groups, parents, k, ps)
    ensures Groups(AddChild(groups, p, k), parents, k, ps + [p])
  {
    forall u: nat
      ensures FoundChildren(parents, u, k, ps + [p]) == FoundChildren(parents, u, k, ps) + (if p == u then [k] else [])
    {
      FoundOneMore(parents, u, k, ps, p);
    }
  }

  method GroupTask(before: map<nat, seq<nat>>, parents: Parents, k: nat) returns (groups: map<nat, seq<nat>>)
    requires k < |parents| && Groups(before, parents, k, [])
    ensures Groups(groups, parents, k, parents[k])
  {
    groups := before;
    assert parents[k][..0] == [];
    for j := 0 to |parents[k]|
      invariant Groups(groups, parents, k, parents[k][..j])
    {
      GroupsOneMore(groups, parents, k, parents[k][..j], parents[k][j]);
      assert parents[k][..j + 1] == parents[k][..j] + [parents[k][j]];
      groups := AddChild(groups, parents[k][j], k);
    }
    assert parents[k][..|parents[k]|] == parents[k];
  }

  /** `children_per_parent`: who depends on whom, with repeated names counted twice. */
  method GroupChildren(parents: Parents) returns (groups: map<nat, seq<nat>>)
    ensures GroupsAll(groups, parents)
  {
    groups := map[];
    for k := 0 to |parents|
      invariant Groups(groups, parents, k, [])
    {
      groups := GroupTask(groups, parents, k);
      GroupsNextTask(groups, parents, k);
    }
    forall u: nat ensures FoundChildren(parents, u, |parents|, []) == Children(parents, u) {}
  }

  /** Creates the inbound channels, in task order. */
  method CreateInbound(parents: Parents) returns (inbound: seq<Option<nat>>, next: nat)
    ensures |inbound| == |parents| && forall v | 0 <= v < |parents| :: inbound[v] == Inbound(parents, v)
    ensures next == InboundCount(parents, |parents|)
  {
    inbound := [];
    next := 0;
    for idx := 0 to |parents|
      invariant |inbound| == idx && forall v | 0 <= v < idx :: inbound[v] == Inbound(parents, v)
      invariant next == InboundCount(parents, idx)
    {
      if parents[idx] != [] {
        inbound := inbound + [Some(next)];
        next := next + 1;
      } else {
        inbound := inbound + [None];
      }
    }
  }

  /** The inbound channels of the children of one parent; each child has one. */
  method ChildSenders(parents: Parents, inbound: seq<Option<nat>>, u: nat, children: seq<nat>)
    returns (senders: seq<nat>)
    requires Topological(parents) && children == Children(parents, u)
    requires |inbound| == |parents| && forall v | 0 <= v < |parents| :: inbound[v] == Inbound(parents, v)
    ensures AreInbounds(parents, children, senders)
  {
    senders := [];
    for i := 0 to |children|
      invariant AreInbounds(parents, children[..i], senders)
    {
      var child := children[i];
      ChildOf(parents, u, child);
      assert parents[child] != [];
      senders := senders + [inbound[child].value];
    }
    assert children[..|children|] == children;
  }

  /** A wired parent sends into dispatcher `c`. */
  ghost predicate Owned(parents: Parents, todo: set<nat>, outputs: seq<Option<nat>>, c: nat)
    requires |outputs| == |parents|
  {
    exists u: nat :: u < |parents| && u !in todo && Branches(parents, u) && outputs[u] == Some(c)
  }

  lemma OwnedStays(parents: Parents, todo: set<nat>, outputs: seq<Option<nat>>, c: nat, p: nat, output: Option<nat>)
    requires |outputs| == |parents| && p in todo && p < |parents| && Owned(parents, todo, outputs, c)
    ensures Owned(parents, todo - {p}, outputs[p := output], c)
  {}

  /** No two wired parents send into one dispatcher. */
  ghost predicate DispatchersDiffer(parents: Parents, todo: set<nat>, outputs: seq<Option<nat>>)
    requires |outputs| == |parents|
  {
    forall u: nat, w: nat ::
      u < w < |parents| && u !in todo && w !in todo && Branches(parents, u) && Branches(parents, w) ==>
        outputs[u] != outputs[w]
  }

  ghost predicate AllReach(parents: Parents, todo: set<nat>, outputs: seq<Option<nat>>, fanOuts: map<nat, seq<nat>>)
    requires |outputs| == |parents|
  {
    forall u: nat :: u < |parents| && u !in todo ==> OutputReaches(parents, u, outputs[u], fanOuts)
  }

  /** The parents not in `todo` are wired, dispatchers being numbered below `next`. */
  ghost predicate WiredSoFar(parents: Parents, todo: set<nat>, outputs: seq<Option<nat>>, fanOuts: map<nat, seq<nat>>,
                             next: nat)
  {
    && |outputs| == |parents|
    && (forall c :: c in fanOuts ==> c < next)
    && AllReach(parents, todo, outputs, fanOuts)
    && DispatchersDiffer(parents, todo, outputs)
    && (forall c :: c in fanOuts ==> Owned(parents, todo, outputs, c))
  }

  /** Wiring one more parent with at most one child. */
  lemma WireDirect(parents: Parents, todo: set<nat>, outputs: seq<Option<nat>>, fanOuts: map<nat, seq<nat>>, next: nat,
                   p: nat, output: Option<nat>)
    requires WiredSoFar(parents, todo, outputs, fanOuts, next) && p in todo && p < |parents|
    requires !Branches(parents, p) && OutputReaches(parents, p, output, fanOuts)
    ensures WiredSoFar(parents, todo - {p}, outputs[p := output], fanOuts, next)
  {
    forall c | c in fanOuts ensures Owned(parents, todo - {p}, outputs[p := output], c) {
      OwnedStays(parents, todo, outputs, c, p, output);
    }
  }

  lemma ReachesStays(parents: Parents, u: nat, output: Option<nat>, fanOuts: map<nat, seq<nat>>, c: nat,
                     senders: seq<nat>)
    requires u < |parents| && OutputReaches(parents, u, output, fanOuts) && c !in fanOuts
    ensures OutputReaches(parents, u, output, fanOuts[c := senders])
  {}

  lemma OthersStillReach(parents: Parents, todo: set<nat>, outputs: seq<Option<nat>>, fanOuts: map<nat, seq<nat>>,
                         next: nat, p: nat, senders: seq<nat>)
    requires |outputs| == |parents| && AllReach(parents, todo, outputs, fanOuts) && next !in fanOuts
    requires next >= InboundCount(parents, |parents|) && p < |parents| && Branches(parents, p)
    requires AreInbounds(parents, Children(parents, p), senders)
    ensures AllReach(parents, todo - {p}, outputs[p := Some(next)], fanOuts[next := senders])
  {
    forall u: nat | u < |parents| && u !in todo - {p}
      ensures OutputReaches(parents, u, outputs[p := Some(next)][u], fanOuts[next := senders])
    {
      if u != p { ReachesStays(parents, u, outputs[u], fanOuts, next, senders); }
    }
  }

  /** A dispatcher that is not there yet is nobody's. */
  lemma NewDispatcherDiffers(parents: Parents, todo: set<nat>, outputs: seq<Option<nat>>, fanOuts: map<nat, seq<nat>>,
                             next: nat, p: nat)
    requires |outputs| == |parents| && p in todo && p < |parents|
    requires AllReach(parents, todo, outputs, fanOuts) && DispatchersDiffer(parents, todo, outputs) && next !in fanOuts
    ensures DispatchersDiffer(parents, todo - {p}, outputs[p := Some(next)])
  {
    forall u: nat | u < |parents| && u !in todo && Branches(parents, u) ensures outputs[u] != Some(next) {
      assert OutputReaches(parents, u, outputs[u], fanOuts);
    }
  }

  lemma DispatchersStayOwned(parents: Parents, todo: set<nat>, outputs: seq<Option<nat>>, fanOuts: map<nat, seq<nat>>,
                             next: nat, p: nat, senders: seq<nat>)
    requires |outputs| == |parents| && p in todo && p < |parents| && Branches(parents, p)
    requires forall c :: c in fanOuts ==> Owned(parents, todo, outputs, c)
    ensures var after, more := outputs[p := Some(next)], fanOuts[next := senders];
      forall c :: c in more ==> Owned(parents, todo - {p}, after, c)
  {
    var after, more := outputs[p := Some(next)], fanOuts[next := senders];
    forall c | c in more ensures Owned(parents, todo - {p}, after, c) {
      if c == next {
        assert after[p] == Some(c);
      } else {
        OwnedStays(parents, todo, outputs, c, p, Some(next));
      }
    }
  }

  /** Wiring one more parent with several children, through a new dispatcher. */
  lemma WireDispatcher(parents: Parents, todo: set<nat>, outputs: seq<Option<nat>>, fanOuts: map<nat, seq<nat>>,
                       next: nat, p: nat, senders: seq<nat>)
    requires WiredSoFar(parents, todo, outputs, fanOuts, next) && p in todo && p < |parents|
    requires Branches(parents, p) && AreInbounds(parents, Children(parents, p), senders)
    requires next >= InboundCount(parents, |parents|)
    ensures WiredSoFar(parents, todo - {p}, outputs[p := Some(next)], fanOuts[next := senders], next + 1)
  {
    OthersStillReach(parents, todo, outputs, fanOuts, next, p, senders);
    NewDispatcherDiffers(parents, todo, outputs, fanOuts, next, p);
    DispatchersStayOwned(parents, todo, outputs, fanOuts, next, p, senders);
  }

  /** Wires each parent to its children, visiting the parents in any order. */
  method WireOutputs(parents: Parents, groups: map<nat, seq<nat>>, inbound: seq<Option<nat>>, first: nat)
    returns (outputs: seq<Option<nat>>, fanOuts: map<nat, seq<nat>>, next: nat)
    requires Topological(parents) && GroupsAll(groups, parents)
    requires |inbound| == |parents| && forall v | 0 <= v < |parents| :: inbound[v] == Inbound(parents, v)
    requires first == InboundCount(parents, |parents|)
    ensures WiredSoFar(parents, {}, outputs, fanOuts, next)
  {
    outputs := seq(|parents|, i => None);
    fanOuts := map[];
    var free := first;
    var todo := groups.Keys;
    assert WiredSoFar(parents, todo, outputs, fanOuts, free);
    while todo != {}
      invariant todo <= groups.Keys && first <= free
      invariant WiredSoFar(parents, todo, outputs, fanOuts, free)
      decreases |todo|
    {
      var p :| p in todo;
      var children := groups[p];
      ParentsAreTasks(parents, p);
      if |children| == 1 {
        ChildOf(parents, p, children[0]);
        WireDirect(parents, todo, outputs, fanOuts, free, p, inbound[children[0]]);
        outputs := outputs[p := inbound[children[0]]];
      } else {
        var senders := ChildSenders(parents, inbound, p, children);
        WireDispatcher(parents, todo, outputs, fanOuts, free, p, senders);
        outputs := outputs[p := Some(free)];
        fanOuts := fanOuts[free := senders];
        free := free + 1;
      }
      todo := todo - {p};
    }
    next := free;
  }

  lemma ParentsAreTasks(parents: Parents, u: nat)
    requires Topological(parents) && Children(parents, u) != []
    ensures u < |parents|
  {
    ChildOf(parents, u, Children(parents, u)[0]);
  }

  lemma UnionGrows(parents: Parents, starts: seq<nat>, d: nat)
    requires Topological(parents) && d < |parents|
    ensures UnionOfLeaves(parents, starts + [d]) == UnionOfLeaves(parents, starts) + LeavesOf(parents, d)
  {
    forall l: nat | l < |parents|
      ensures ArriveFrom(parents, starts + [d], l) == ArriveFrom(parents, starts, l) + Arrive(parents, d, l)
    {
      ArriveFromConcat(parents, starts, [d], l);
      assert [d][1..] == [];
    }
  }

  method UnionOfChildren(parents: Parents, u: nat, children: seq<nat>, reachable: seq<set<nat>>)
    returns (found: set<nat>)
    requires Topological(parents) && u < |parents| == |reachable| && children == Children(parents, u)
    requires forall v | u < v < |parents| :: reachable[v] == LeavesOf(parents, v)
    ensures found == UnionOfLeaves(parents, children)
  {
    found := {};
    for i := 0 to |children|
      invariant found == UnionOfLeaves(parents, children[..i])
    {
      ChildOf(parents, u, children[i]);
      UnionGrows(parents, children[..i], children[i]);
      assert children[..i + 1] == children[..i] + [children[i]];
      found := found + reachable[children[i]];
    }
    assert children[..|children|] == children;
  }

  /** The reverse pass over the tasks: each set of leaves from the sets of the children. */
  method CountLeaves(parents: Parents, groups: map<nat, seq<nat>>) returns (leaves: seq<nat>)
    requires Topological(parents) && GroupsAll(groups, parents)
    ensures |leaves| == |parents| && forall u | 0 <= u < |parents| :: leaves[u] == |LeavesOf(parents, u)|
  {
    var reachable: seq<set<nat>> := seq(|parents|, i => {});
    var idx := |parents|;
    while idx > 0
      invariant 0 <= idx <= |parents| && |reachable| == |parents|
      invariant forall u | idx <= u < |parents| :: reachable[u] == LeavesOf(parents, u)
    {
      idx := idx - 1;
      LeavesThroughChildren(parents, idx);
      if idx !in groups {
        reachable := reachable[idx := {idx}];
      } else {
        var found := UnionOfChildren(parents, idx, groups[idx], reachable);
        reachable := reachable[idx := found];
      }
    }
    leaves := seq(|parents|, i requires 0 <= i < |parents| => |reachable[i]|);
  }

  /** The descriptors of all tasks, from what was found for each. */
  method Describe(tasks: seq<Task>, inbound: seq<Option<nat>>, outputs: seq<Option<nat>>, leaves: seq<nat>)
    returns (descriptors: seq<Descriptor>)
    requires |tasks| == |inbound| == |outputs| == |leaves|
    ensures |descriptors| == |tasks|
    ensures forall v | 0 <= v < |tasks| ::
      descriptors[v] == Descriptor(v, tasks[v], inbound[v], outputs[v], tasks[v].blocking, leaves[v])
  {
    descriptors := [];
    for idx := 0 to |tasks|
      invariant |descriptors| == idx
      invariant forall v | 0 <= v < idx ::
        descriptors[v] == Descriptor(v, tasks[v], inbound[v], outputs[v], tasks[v].blocking, leaves[v])
    {
      descriptors := descriptors
        + [Descriptor(idx, tasks[idx], inbound[idx], outputs[idx], tasks[idx].blocking, leaves[idx])];
    }
  }

  lemma DescribedIsOwned(parents: Parents, outputs: seq<Option<nat>>, next: nat, registry: Registry)
    requires WiredSoFar(parents, {}, outputs, registry.fanOuts, next) && |registry.tasks| == |parents|
    requires forall v | 0 <= v < |parents| :: registry.tasks[v].output == outputs[v]
    ensures DispatchersOwned(parents, registry)
  {}

  /** `build_dag`: accepts what `resolve_parents` accepts and wires it, whatever order the parents are visited in. */
  method BuildDag(tasks: seq<Task>) returns (r: Result<Registry, DagError>)
    ensures r.Ok? <==> Resolve(tasks).Ok?
    ensures r.Err? ==> r.error == Resolve(tasks).error
    ensures r.Ok? ==> Wired(tasks, Resolve(tasks).value, r.value)
  {
    var resolved := ResolveParents(tasks);
    if resolved.Err? { return Err(resolved.error); }
    var registry := WireDag(tasks, resolved.value);
    return Ok(registry);
  }

  method WireDag(tasks: seq<Task>, parents: Parents) returns (registry: Registry)
    requires Resolve(tasks) == Ok(parents)
    ensures Wired(tasks, parents, registry)
  {
    ResolvedIsTopological(tasks, parents);
    var groups := GroupChildren(parents);
    var inbound, first := CreateInbound(parents);
    var outputs, fanOuts, next := WireOutputs(parents, groups, inbound, first);
    var leaves := CountLeaves(parents, groups);
    var descriptors := Describe(tasks, inbound, outputs, leaves);
    registry := Registry(descriptors, fanOuts);
    DescribedIsOwned(parents, outputs, next, registry);
  }

  lemma ResolvedIsTopological(tasks: seq<Task>, parents: Parents)
    requires Resolve(tasks) == Ok(parents)
    ensures Topological(parents) && |parents| == |tasks|
  {
    ResolveIsCorrect(tasks);
    ResolutionsAreTopological(tasks, parents);
  }

  predicate NeedsDag(tasks: seq<Task>) {
    (exists i :: 0 <= i < |tasks| && tasks[i].dependsOn.Some?) || (exists i :: 0 <= i < |tasks| && !tasks[i].pipelineIo)
  }

  /** No task names its dependencies and every task is part of the pipeline. */
  ghost predicate Linear(tasks: seq<Task>) {
    forall t :: t in tasks ==> t.dependsOn.None? && t.pipelineIo
  }

  /** `build`: linear when nothing asks for a graph. */
  method Build(tasks: seq<Task>) returns (r: Result<Registry, DagError>)
    ensures tasks == [] ==> r == Ok(Registry([], map[]))
    ensures r.Err? ==> r.error == match Resolve(tasks) case Err(error) => error case Ok(_) => r.error
    ensures r.Ok? <==> Resolve(tasks).Ok? || Linear(tasks)
    ensures tasks != [] && Linear(tasks) ==> r == Ok(LinearRegistry(tasks))
    ensures Resolve(tasks).Ok? ==> Wired(tasks, Resolve(tasks).value, r.value)
  {
    assert NeedsDag(tasks) <==> !Linear(tasks) by {
      if t :| t in tasks && !(t.dependsOn.None? && t.pipelineIo) {
        var i :| 0 <= i < |tasks| && tasks[i] == t;
      }
    }
    if !NeedsDag(tasks) && Resolve(tasks).Ok? { LinearMeansTheSame(tasks); }
    if tasks == [] { return Ok(Registry([], map[])); }
    if NeedsDag(tasks) {
      r := BuildDag(tasks);
    } else {
      var registry := BuildLinear(tasks);
      r := Ok(registry);
    }
  }

  // ---- The linear chain is the graph of its implicit parents ----

  ghost predicate IsChain(parents: Parents) {
    forall v | 0 <= v < |parents| :: parents[v] == if v == 0 then [] else [v - 1]
  }

  lemma ChainResolves(tasks: seq<Task>)
    requires !NeedsDag(tasks) && DistinctNames(tasks)
    ensures Resolve(tasks).Ok? && IsChain(Resolve(tasks).value) && |Resolve(tasks).value| == |tasks|
  {
    var chain: Parents := seq(|tasks|, v requires 0 <= v < |tasks| => if v == 0 then [] else [v - 1]);
    forall v | 0 <= v < |tasks| ensures AreParents(tasks, v, chain[v]) {
      assert tasks[v].dependsOn.None? && tasks[v].pipelineIo;
      if v > 0 { assert tasks[v - 1].pipelineIo; }
    }
    ResolveIsCorrect(tasks);
    assert IsResolution(tasks, chain);
  }

  lemma {:induction false} ChainInbound(parents: Parents, k: nat)
    requires IsChain(parents) && k <= |parents|
    ensures InboundCount(parents, k) == if k == 0 then 0 else k - 1
  {
    if k > 0 { ChainInbound(parents, k - 1); }
  }

  /** What task `k` adds to the children of `u` along a chain. */
  lemma ChainLink(parents: Parents, u: nat, k: nat)
    requires IsChain(parents) && k < |parents|
    ensures Repeat(k, Count(parents[k], u)) == if k == u + 1 then [k] else []
  {
    if k > 0 { assert parents[k] == [k - 1] && parents[k][1..] == []; }
  }

  lemma ChainStep(parents: Parents, u: nat, k: nat, before: seq<nat>)
    requires IsChain(parents) && k < |parents|
    requires before == if u + 1 < k then [u + 1] else []
    ensures before + Repeat(k, Count(parents[k], u)) == if u + 1 < k + 1 then [u + 1] else []
  {
    ChainLink(parents, u, k);
  }

  lemma {:induction false} ChainChildren(parents: Parents, u: nat, k: nat)
    requires IsChain(parents) && k <= |parents|
    ensures ChildrenUpTo(parents, u, k) == if u + 1 < k then [u + 1] else []
  {
    if k > 0 {
      ChainChildren(parents, u, k - 1);
      ChainStep(parents, u, k - 1, ChildrenUpTo(parents, u, k - 1));
    }
  }

  lemma {:induction false} ChainLeaves(parents: Parents, u: nat)
    requires IsChain(parents) && Topological(parents) && u < |parents|
    ensures LeavesOf(parents, u) == {|parents| - 1}
    decreases |parents| - u
  {
    LeavesThroughChildren(parents, u);
    ChainChildren(parents, u, |parents|);
    if u + 1 < |parents| {
      ChainLeaves(parents, u + 1);
      UnionGrows(parents, [], u + 1);
      assert [] + [u + 1] == [u + 1];
      assert UnionOfLeaves(parents, []) == {};
    }
  }

  lemma ChainOutput(tasks: seq<Task>, parents: Parents, v: nat, output: Option<nat>, fanOuts: map<nat, seq<nat>>)
    requires IsChain(parents) && |parents| == |tasks| && v < |tasks|
    ensures OutputReaches(parents, v, output, fanOuts) <==> output == LinearRegistry(tasks).tasks[v].output
  {
    ChainChildren(parents, v, |parents|);
    assert Children(parents, v) == if v + 1 < |parents| then [v + 1] else [];
    if v + 1 < |parents| {
      ChainInbound(parents, v + 1);
      assert Inbound(parents, v + 1) == Some(v);
    }
  }

  lemma ChainInput(tasks: seq<Task>, parents: Parents, v: nat)
    requires IsChain(parents) && |parents| == |tasks| && v < |tasks|
    ensures Inbound(parents, v) == LinearRegistry(tasks).tasks[v].input
  {
    ChainInbound(parents, v);
  }

  lemma ChainLeafCount(parents: Parents, v: nat)
    requires IsChain(parents) && Topological(parents) && v < |parents|
    ensures |LeavesOf(parents, v)| == 1 && !Branches(parents, v)
  {
    ChainChildren(parents, v, |parents|);
    ChainLeaves(parents, v);
  }

  lemma ChainTaskIsLinear(tasks: seq<Task>, parents: Parents, v: nat, d: Descriptor, fanOuts: map<nat, seq<nat>>)
    requires IsChain(parents) && Topological(parents) && |parents| == |tasks| && v < |tasks|
    ensures TaskWired(parents, v, tasks[v], d, fanOuts) <==> d == LinearRegistry(tasks).tasks[v]
    ensures !Branches(parents, v)
  {
    ChainInput(tasks, parents, v);
    ChainLeafCount(parents, v);
    ChainOutput(tasks, parents, v, d.output, fanOuts);
  }

  /** A registry wired over the chain of implicit parents is the linear one, and that one is wired. */
  lemma ChainIsLinear(tasks: seq<Task>, parents: Parents, registry: Registry)
    requires IsChain(parents) && |parents| == |tasks|
    ensures Wired(tasks, parents, registry) <==> registry == LinearRegistry(tasks)
  {
    assert Topological(parents);
    var linear := LinearRegistry(tasks);
    if |registry.tasks| == |tasks| {
      forall v | 0 <= v < |tasks|
        ensures TaskWired(parents, v, tasks[v], registry.tasks[v], registry.fanOuts) <==>
          registry.tasks[v] == linear.tasks[v]
        ensures !Branches(parents, v)
      {
        ChainTaskIsLinear(tasks, parents, v, registry.tasks[v], registry.fanOuts);
      }
      if Wired(tasks, parents, registry) {
        assert registry.tasks == linear.tasks;
        assert registry.fanOuts == map[];
      }
    }
  }

  /**
   * For a list with distinct names, no `depends_on` and only pipeline tasks,
   * the two builders make the same registry, down to the channel numbers.
   */
  lemma LinearMeansTheSame(tasks: seq<Task>)
    requires !NeedsDag(tasks)
    ensures Resolve(tasks).Ok? <==> DistinctNames(tasks)
    ensures Resolve(tasks).Ok? ==>
      forall registry :: Wired(tasks, Resolve(tasks).value, registry) <==> registry == LinearRegistry(tasks)
  {
    ResolveIsCorrect(tasks);
    if DistinctNames(tasks) {
      ChainResolves(tasks);
      var parents := Resolve(tasks).value;
      forall registry ensures Wired(tasks, parents, registry) <==> registry == LinearRegistry(tasks) {
        ChainIsLinear(tasks, parents, registry);
      }
    }
  }
}
