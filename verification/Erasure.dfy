/** A registration-only task that nobody names plays no part in the graph of the others. */
module Erasure {
  import opened Prelude
  import opened TaskGraph
  import opened DependencyPaths
  import opened Wiring

  /** Task `k` only registers, names no dependency and is named by nobody. */
  ghost predicate Detached(tasks: seq<Task>, k: nat) {
    && k < |tasks|
    && !tasks[k].pipelineIo
    && tasks[k].dependsOn.None?
    && forall i | 0 <= i < |tasks| && tasks[i].dependsOn.Some? :: tasks[k].name !in tasks[i].dependsOn.value
  }

  function Erase(tasks: seq<Task>, k: nat): (r: seq<Task>)
    requires k < |tasks|
    ensures |r| == |tasks| - 1
    ensures forall j | 0 <= j < |r| :: r[j] == tasks[Restore(k, j)]
  {
    tasks[..k] + tasks[k + 1..]
  }

  /** The index of a task after `k` is gone, and back. */
  function Renumber(k: nat, i: nat): nat { if i <= k then i else i - 1 }

  function Restore(k: nat, j: nat): nat { if j < k then j else j + 1 }

  function RenumberAll(k: nat, s: seq<nat>): (r: seq<nat>)
    ensures |r| == |s| && forall i | 0 <= i < |r| :: r[i] == Renumber(k, s[i])
  {
    seq(|s|, i requires 0 <= i < |s| => Renumber(k, s[i]))
  }

  function RestoreAll(k: nat, s: seq<nat>): (r: seq<nat>)
    ensures |r| == |s| && forall i | 0 <= i < |r| :: r[i] == Restore(k, s[i])
  {
    seq(|s|, i requires 0 <= i < |s| => Restore(k, s[i]))
  }

  /** `smaller` is `parents` without `k`, renumbered; nobody has `k` as a parent and it has none. */
  ghost predicate ErasedFrom(parents: Parents, k: nat, smaller: Parents) {
    && k < |parents| && |smaller| == |parents| - 1
    && parents[k] == []
    && (forall i | 0 <= i < |parents| :: k !in parents[i])
    && (forall j | 0 <= j < |smaller| :: smaller[j] == RenumberAll(k, parents[Restore(k, j)]))
  }

  // ---- Parents ----

  ghost predicate IsNearest(tasks: seq<Task>, idx: nat, r: seq<nat>)
    requires idx <= |tasks|
  {
    if r == [] then forall i | 0 <= i < idx :: !tasks[i].pipelineIo
    else |r| == 1 && r[0] < idx && tasks[r[0]].pipelineIo && forall i | r[0] < i < idx :: !tasks[i].pipelineIo
  }

  lemma NearestIsUnique(tasks: seq<Task>, idx: nat, r: seq<nat>)
    requires idx <= |tasks|
    ensures IsNearest(tasks, idx, r) <==> r == NearestPipeline(tasks, idx)
  {}

  lemma IsNearestWithout(tasks: seq<Task>, k: nat, j: nat, r: seq<nat>)
    requires k < |tasks| && !tasks[k].pipelineIo && j < |tasks| - 1
    requires IsNearest(tasks, Restore(k, j), r)
    ensures IsNearest(Erase(tasks, k), j, RenumberAll(k, r)) && k !in r
  {}

  lemma RestoreUndoes(k: nat, s: seq<nat>)
    requires k !in s
    ensures RestoreAll(k, RenumberAll(k, s)) == s
  {}

  lemma NearestWithout(tasks: seq<Task>, k: nat, j: nat)
    requires k < |tasks| && !tasks[k].pipelineIo && j < |tasks| - 1
    ensures NearestPipeline(Erase(tasks, k), j) == RenumberAll(k, NearestPipeline(tasks, Restore(k, j)))
    ensures NearestPipeline(tasks, Restore(k, j)) == RestoreAll(k, NearestPipeline(Erase(tasks, k), j))
  {
    var r := NearestPipeline(tasks, Restore(k, j));
    NearestIsUnique(tasks, Restore(k, j), r);
    IsNearestWithout(tasks, k, j, r);
    NearestIsUnique(Erase(tasks, k), j, RenumberAll(k, r));
    RestoreUndoes(k, r);
  }

  lemma ParentsWithout(tasks: seq<Task>, k: nat, j: nat, parents: seq<nat>)
    requires Detached(tasks, k) && j < |tasks| - 1
    requires AreParents(tasks, Restore(k, j), parents)
    ensures AreParents(Erase(tasks, k), j, RenumberAll(k, parents))
    ensures k !in parents
  {
    var smaller := Erase(tasks, k);
    assert smaller[j] == tasks[Restore(k, j)];
    match smaller[j].dependsOn
    case None => NearestWithout(tasks, k, j);
    case Some(deps) =>
      forall m | 0 <= m < |deps|
        ensures Renumber(k, parents[m]) < j && smaller[Renumber(k, parents[m])].name == deps[m] && parents[m] != k
      {
        assert deps[m] in deps;
        assert parents[m] != k;
        assert Restore(k, Renumber(k, parents[m])) == parents[m];
      }
  }

  lemma ParentsWith(tasks: seq<Task>, k: nat, j: nat, parents: seq<nat>)
    requires Detached(tasks, k) && j < |tasks| - 1
    requires AreParents(Erase(tasks, k), j, parents)
    ensures AreParents(tasks, Restore(k, j), RestoreAll(k, parents))
  {
    var smaller := Erase(tasks, k);
    assert smaller[j] == tasks[Restore(k, j)];
    match smaller[j].dependsOn
    case None => NearestWithout(tasks, k, j);
    case Some(deps) =>
      forall m | 0 <= m < |deps|
        ensures Restore(k, parents[m]) < Restore(k, j) && tasks[Restore(k, parents[m])].name == deps[m]
      {
        assert smaller[parents[m]] == tasks[Restore(k, parents[m])];
      }
  }

  /**
   * Erasing a detached task, whose name is its own, keeps a flow accepted or
   * rejected and keeps every other task's parents, renumbered.
   */
  lemma ErasingKeepsParents(tasks: seq<Task>, k: nat)
    requires Detached(tasks, k)
    requires forall i | 0 <= i < |tasks| && i != k :: tasks[i].name != tasks[k].name
    ensures Resolve(Erase(tasks, k)).Ok? <==> Resolve(tasks).Ok?
    ensures Resolve(tasks).Ok? ==> ErasedFrom(Resolve(tasks).value, k, Resolve(Erase(tasks, k)).value)
  {
    var smaller := Erase(tasks, k);
    ResolveIsCorrect(tasks);
    ResolveIsCorrect(smaller);
    NamesWithout(tasks, k);
    if Resolve(tasks).Ok? {
      var parents := Resolve(tasks).value;
      assert IsResolution(tasks, parents);
      var fewer: Parents := seq(|smaller|, j requires 0 <= j < |smaller| => RenumberAll(k, parents[Restore(k, j)]));
      forall j | 0 <= j < |smaller| ensures AreParents(smaller, j, fewer[j]) && k !in parents[Restore(k, j)] {
        ParentsWithout(tasks, k, j, parents[Restore(k, j)]);
      }
      assert IsResolution(smaller, fewer);
      assert AreParents(tasks, k, parents[k]);
      forall i | 0 <= i < |parents| ensures k !in parents[i] {
        if i != k { assert Restore(k, Renumber(k, i)) == i; }
      }
    }
    if Resolve(smaller).Ok? {
      var fewer := Resolve(smaller).value;
      assert IsResolution(smaller, fewer);
      var parents: Parents := seq(|tasks|, i requires 0 <= i < |tasks| =>
        if i == k then [] else RestoreAll(k, fewer[Renumber(k, i)]));
      forall i | 0 <= i < |tasks| ensures AreParents(tasks, i, parents[i]) {
        if i != k {
          ParentsWith(tasks, k, Renumber(k, i), fewer[Renumber(k, i)]);
          assert Restore(k, Renumber(k, i)) == i;
        }
      }
      assert IsResolution(tasks, parents);
    }
  }

  lemma NamesWithout(tasks: seq<Task>, k: nat)
    requires k < |tasks|
    requires forall i | 0 <= i < |tasks| && i != k :: tasks[i].name != tasks[k].name
    ensures DistinctNames(tasks) <==> DistinctNames(Erase(tasks, k))
  {
    var smaller := Erase(tasks, k);
    if DistinctNames(tasks) {
      forall i, j | 0 <= i < j < |smaller| ensures smaller[i].name != smaller[j].name {
        assert smaller[i] == tasks[Restore(k, i)] && smaller[j] == tasks[Restore(k, j)];
      }
    }
    if DistinctNames(smaller) {
      forall i, j | 0 <= i < j < |tasks| ensures tasks[i].name != tasks[j].name {
        if i != k && j != k {
          assert smaller[Renumber(k, i)] == tasks[i] && smaller[Renumber(k, j)] == tasks[j];
        }
      }
    }
  }

  // ---- Leaves ----

  lemma {:induction false} SumArriveWithout(parents: Parents, k: nat, smaller: Parents, u: nat, ends: seq<nat>, v: nat)
    requires ErasedFrom(parents, k, smaller) && Topological(parents) && Topological(smaller)
    requires v < |parents| && v != k && u != k && k !in ends && forall i | 0 <= i < |ends| :: ends[i] < v
    ensures SumArrive(smaller, Renumber(k, u), RenumberAll(k, ends), Renumber(k, v)) == SumArrive(parents, u, ends, v)
    decreases v, |ends|
  {
    if ends != [] {
      var e := ends[0];
      assert e in ends;
      SumArriveWithout(parents, k, smaller, u, parents[e], e);
      assert Renumber(k, e) < Renumber(k, v) && (Renumber(k, u) == Renumber(k, e) <==> u == e);
      assert smaller[Renumber(k, e)] == RenumberAll(k, parents[e]) by {
        assert Restore(k, Renumber(k, e)) == e;
      }
      assert Arrive(smaller, Renumber(k, u), Renumber(k, e)) == Arrive(parents, u, e);
      SumArriveWithout(parents, k, smaller, u, ends[1..], v);
      var fewer := RenumberAll(k, ends);
      assert fewer[0] == Renumber(k, e) && fewer[1..] == RenumberAll(k, ends[1..]);
    }
  }

  /** Paths between other tasks stay as many. */
  lemma ArriveWithout(parents: Parents, k: nat, smaller: Parents, u: nat, v: nat)
    requires ErasedFrom(parents, k, smaller) && Topological(parents) && Topological(smaller)
    requires u < |parents| && v < |parents| && u != k && v != k
    ensures Arrive(smaller, Renumber(k, u), Renumber(k, v)) == Arrive(parents, u, v)
  {
    assert Restore(k, Renumber(k, v)) == v;
    SumArriveWithout(parents, k, smaller, u, parents[v], v);
  }

  lemma ChildlessWithout(parents: Parents, k: nat, smaller: Parents, u: nat)
    requires ErasedFrom(parents, k, smaller) && u < |parents| && u != k
    ensures Children(smaller, Renumber(k, u)) == [] <==> Children(parents, u) == []
  {
    if Children(parents, u) != [] {
      var v := Children(parents, u)[0];
      ChildOf(parents, u, v);
      var j :| 0 <= j < |parents[v]| && parents[v][j] == u;
      assert v != k && Restore(k, Renumber(k, v)) == v;
      assert smaller[Renumber(k, v)][j] == Renumber(k, u);
      ChildOf(smaller, Renumber(k, u), Renumber(k, v));
    }
    if Children(smaller, Renumber(k, u)) != [] {
      var v := Children(smaller, Renumber(k, u))[0];
      ChildOf(smaller, Renumber(k, u), v);
      var j :| 0 <= j < |smaller[v]| && smaller[v][j] == Renumber(k, u);
      assert parents[Restore(k, v)][j] in parents[Restore(k, v)];
      assert parents[Restore(k, v)][j] == u;
      ChildOf(parents, u, Restore(k, v));
    }
  }

  lemma {:induction false} RenumberedSetHasTheSameSize(k: nat, s: set<nat>, t: set<nat>)
    requires k !in s
    requires t == set i | i in s :: Renumber(k, i)
    ensures |t| == |s|
  {
    if s != {} {
      var x :| x in s;
      var y := Renumber(k, x);
      assert y in t;
      assert t - {y} == set i | i in s - {x} :: Renumber(k, i);
      RenumberedSetHasTheSameSize(k, s - {x}, t - {y});
    }
  }

  lemma LeavesWithout(parents: Parents, k: nat, smaller: Parents, u: nat)
    requires ErasedFrom(parents, k, smaller) && Topological(parents) && Topological(smaller)
    requires u < |parents| && u != k
    ensures k !in LeavesOf(parents, u)
    ensures forall l: nat | l < |parents| && l != k ::
      Renumber(k, l) in LeavesOf(smaller, Renumber(k, u)) <==> l in LeavesOf(parents, u)
  {
    assert PathCount(parents, u, k) == 0;
    forall l: nat | l < |parents| && l != k
      ensures Renumber(k, l) in LeavesOf(smaller, Renumber(k, u)) <==> l in LeavesOf(parents, u)
    {
      ArriveWithout(parents, k, smaller, u, l);
      ChildlessWithout(parents, k, smaller, l);
    }
  }

  /** Erasing a detached task leaves every other task its leaves, renumbered, and so its leaf count. */
  lemma ErasingKeepsLeaves(parents: Parents, k: nat, smaller: Parents, u: nat)
    requires ErasedFrom(parents, k, smaller) && Topological(parents) && Topological(smaller)
    requires u < |parents| && u != k
    ensures LeavesOf(smaller, Renumber(k, u)) == set l | l in LeavesOf(parents, u) :: Renumber(k, l)
    ensures |LeavesOf(smaller, Renumber(k, u))| == |LeavesOf(parents, u)|
  {
    LeavesWithout(parents, k, smaller, u);
    var before, after := LeavesOf(parents, u), LeavesOf(smaller, Renumber(k, u));
    forall m | m in after ensures Restore(k, m) in before && Renumber(k, Restore(k, m)) == m {
      assert Renumber(k, Restore(k, m)) == m;
    }
    assert after == set l | l in before :: Renumber(k, l);
    RenumberedSetHasTheSameSize(k, before, after);
  }

  lemma DetachedHasNoEnds(parents: Parents, k: nat, smaller: Parents, d: Descriptor, task: Task,
                          fanOuts: map<nat, seq<nat>>)
    requires ErasedFrom(parents, k, smaller) && Topological(parents) && k < |parents|
    requires TaskWired(parents, k, task, d, fanOuts)
    ensures d.input.None? && d.output.None?
  {
    if Children(parents, k) != [] { ChildOf(parents, k, Children(parents, k)[0]); }
  }

  /** In the registry without the detached task, every other task expects as many leaves as before. */
  lemma ErasingKeepsTheRegistry(tasks: seq<Task>, k: nat, registry: Registry, smaller: Registry, u: nat)
    requires Detached(tasks, k)
    requires Resolve(tasks).Ok? && Wired(tasks, Resolve(tasks).value, registry)
    requires Resolve(Erase(tasks, k)).Ok? && Wired(Erase(tasks, k), Resolve(Erase(tasks, k)).value, smaller)
    requires u < |tasks| && u != k
    ensures registry.tasks[k].input.None? && registry.tasks[k].output.None?
    ensures smaller.tasks[Renumber(k, u)].downstreamLeaves == registry.tasks[u].downstreamLeaves
  {
    var parents, fewer := Resolve(tasks).value, Resolve(Erase(tasks, k)).value;
    ErasedTasksResolve(tasks, k);
    ErasingKeepsLeaves(parents, k, fewer, u);
    assert TaskWired(parents, k, tasks[k], registry.tasks[k], registry.fanOuts);
    assert TaskWired(parents, u, tasks[u], registry.tasks[u], registry.fanOuts);
    var v := Renumber(k, u);
    assert TaskWired(fewer, v, Erase(tasks, k)[v], smaller.tasks[v], smaller.fanOuts);
    DetachedHasNoEnds(parents, k, fewer, registry.tasks[k], tasks[k], registry.fanOuts);
  }

  lemma ErasedTasksResolve(tasks: seq<Task>, k: nat)
    requires Detached(tasks, k) && Resolve(tasks).Ok? && Resolve(Erase(tasks, k)).Ok?
    ensures |Resolve(tasks).value| == |tasks| && ErasedFrom(Resolve(tasks).value, k, Resolve(Erase(tasks, k)).value)
  {
    ResolveIsCorrect(tasks);
    forall i | 0 <= i < |tasks| && i != k ensures tasks[i].name != tasks[k].name {}
    ErasingKeepsParents(tasks, k);
  }
}
