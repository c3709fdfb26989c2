/** Resolving each task's parents, and the dependency graph this gives. */
module TaskGraph {
  import opened Prelude

  datatype Task = Task(name: string, dependsOn: Option<seq<string>>, pipelineIo: bool, blocking: bool)

  datatype DagError =
    | DuplicateTask(name: string)
    | UnknownDependency(task: string, dependency: string)
    | LaterDependency(task: string, dependency: string)

  type Parents = seq<seq<nat>>

  // ---- What a resolution is ----

  ghost predicate DistinctNames(tasks: seq<Task>) {
    forall i, j | 0 <= i < j < |tasks| :: tasks[i].name != tasks[j].name
  }

  /** The nearest task before `idx` with pipeline I/O, if any. */
  function NearestPipeline(tasks: seq<Task>, idx: nat): (r: seq<nat>)
    requires idx <= |tasks|
    ensures r == [] ||
      (|r| == 1 && r[0] < idx && tasks[r[0]].pipelineIo && forall i | r[0] < i < idx :: !tasks[i].pipelineIo)
    ensures r == [] ==> forall i | 0 <= i < idx :: !tasks[i].pipelineIo
  {
    if idx == 0 then [] else if tasks[idx - 1].pipelineIo then [idx - 1] else NearestPipeline(tasks, idx - 1)
  }

  /** `parents` are the earlier tasks `depends_on` names, in its order, or the implicit parent. */
  ghost predicate AreParents(tasks: seq<Task>, idx: nat, parents: seq<nat>)
    requires idx < |tasks|
  {
    match tasks[idx].dependsOn
    case Some(deps) =>
      |parents| == |deps| && forall j | 0 <= j < |deps| :: parents[j] < idx && tasks[parents[j]].name == deps[j]
    case None => parents == if tasks[idx].pipelineIo then NearestPipeline(tasks, idx) else []
  }

  ghost predicate IsResolution(tasks: seq<Task>, parents: Parents) {
    |parents| == |tasks| && forall idx | 0 <= idx < |tasks| :: AreParents(tasks, idx, parents[idx])
  }

  // ---- resolve_parents ----

  /** The last task of this name, as the map of names to indices holds it. */
  function IndexOf(tasks: seq<Task>, name: string): (r: Option<nat>)
    ensures r.Some? ==> r.value < |tasks| && tasks[r.value].name == name
    ensures r.None? ==> forall i | 0 <= i < |tasks| :: tasks[i].name != name
  {
    if tasks == [] then None
    else
      var n := |tasks| - 1;
      if tasks[n].name == name then Some(n)
      else
        var r := IndexOf(tasks[..n], name);
        assert r.None? ==> forall i | 0 <= i < n :: tasks[..n][i].name == tasks[i].name;
        r
  }

  /** The first name, from task `k`, that an earlier task already has. */
  function DuplicateFrom(tasks: seq<Task>, k: nat): Option<string>
    requires k <= |tasks|
    decreases |tasks| - k
  {
    if k == |tasks| then None
    else if IndexOf(tasks[..k], tasks[k].name).Some? then Some(tasks[k].name)
    else DuplicateFrom(tasks, k + 1)
  }

  /** The indices of `deps[j..]`, or what is wrong with the first bad one. */
  function DependenciesFrom(tasks: seq<Task>, idx: nat, deps: seq<string>, j: nat): Result<seq<nat>, DagError>
    requires idx < |tasks| && j <= |deps|
    decreases |deps| - j
  {
    if j == |deps| then Ok([])
    else
      match IndexOf(tasks, deps[j])
      case None => Err(UnknownDependency(tasks[idx].name, deps[j]))
      case Some(parent) =>
        if parent >= idx then Err(LaterDependency(tasks[idx].name, deps[j]))
        else
          match DependenciesFrom(tasks, idx, deps, j + 1)
          case Err(error) => Err(error)
          case Ok(rest) => Ok([parent] + rest)
  }

  function ParentsOf(tasks: seq<Task>, idx: nat): Result<seq<nat>, DagError>
    requires idx < |tasks|
  {
    match tasks[idx].dependsOn
    case Some(deps) => DependenciesFrom(tasks, idx, deps, 0)
    case None => Ok(if tasks[idx].pipelineIo then NearestPipeline(tasks, idx) else [])
  }

  function ResolveFrom(tasks: seq<Task>, idx: nat): Result<Parents, DagError>
    requires idx <= |tasks|
    decreases |tasks| - idx
  {
    if idx == |tasks| then Ok([])
    else
      match ParentsOf(tasks, idx)
      case Err(error) => Err(error)
      case Ok(parents) =>
        match ResolveFrom(tasks, idx + 1)
        case Err(error) => Err(error)
        case Ok(rest) => Ok([parents] + rest)
  }

  function Resolve(tasks: seq<Task>): Result<Parents, DagError> {
    match DuplicateFrom(tasks, 0)
    case Some(name) => Err(DuplicateTask(name))
    case None => ResolveFrom(tasks, 0)
  }

  /** The map of names to indices, over the first `k` tasks. */
  ghost predicate NamesUpTo(names: map<string, nat>, tasks: seq<Task>, k: nat)
    requires k <= |tasks|
  {
    forall name :: match IndexOf(tasks[..k], name)
      case Some(i) => name in names && names[name] == i
      case None => name !in names
  }

  method NameIndices(tasks: seq<Task>) returns (r: Result<map<string, nat>, DagError>)
    ensures r.Err? <==> DuplicateFrom(tasks, 0).Some?
    ensures r.Err? ==> r.error == DuplicateTask(DuplicateFrom(tasks, 0).value)
    ensures r.Ok? ==> NamesUpTo(r.value, tasks, |tasks|)
  {
    var names: map<string, nat> := map[];
    for k := 0 to |tasks|
      invariant DuplicateFrom(tasks, 0) == DuplicateFrom(tasks, k)
      invariant NamesUpTo(names, tasks, k)
    {
      var name := tasks[k].name;
      if name in names { return Err(DuplicateTask(name)); }
      names := names[name := k];
      assert tasks[..k + 1][..k] == tasks[..k];
    }
    return Ok(names);
  }

  method Dependencies(tasks: seq<Task>, names: map<string, nat>, idx: nat, deps: seq<string>)
    returns (r: Result<seq<nat>, DagError>)
    requires idx < |tasks| && NamesUpTo(names, tasks, |tasks|)
    ensures r == DependenciesFrom(tasks, idx, deps, 0)
  {
    assert tasks[..|tasks|] == tasks;
    var indices: seq<nat> := [];
    assert forall rest: seq<nat> :: [] + rest == rest;
    for j := 0 to |deps|
      invariant DependenciesFrom(tasks, idx, deps, 0) == match DependenciesFrom(tasks, idx, deps, j)
        case Err(error) => Err(error)
        case Ok(rest) => Ok(indices + rest)
    {
      var dep := deps[j];
      assert IndexOf(tasks, dep) == if dep in names then Some(names[dep]) else None;
      if dep !in names { return Err(UnknownDependency(tasks[idx].name, dep)); }
      if names[dep] >= idx { return Err(LaterDependency(tasks[idx].name, dep)); }
      ghost var rest := DependenciesFrom(tasks, idx, deps, j + 1);
      assert rest.Ok? ==> indices + ([names[dep]] + rest.value) == (indices + [names[dep]]) + rest.value;
      indices := indices + [names[dep]];
    }
    assert indices + [] == indices;
    return Ok(indices);
  }

  method Nearest(tasks: seq<Task>, idx: nat) returns (r: seq<nat>)
    requires idx <= |tasks|
    ensures r == NearestPipeline(tasks, idx)
  {
    var i := idx;
    while i > 0 && !tasks[i - 1].pipelineIo
      invariant 0 <= i <= idx
      invariant NearestPipeline(tasks, idx) == NearestPipeline(tasks, i)
    {
      i := i - 1;
    }
    return if i > 0 then [i - 1] else [];
  }

  /** `resolve_parents`: one pass for the names, one for the parents. */
  method ResolveParents(tasks: seq<Task>) returns (r: Result<Parents, DagError>)
    ensures r == Resolve(tasks)
  {
    var names := NameIndices(tasks);
    if names.Err? { return Err(names.error); }
    var all: Parents := [];
    assert forall rest: Parents :: [] + rest == rest;
    for idx := 0 to |tasks|
      invariant ResolveFrom(tasks, 0) == match ResolveFrom(tasks, idx)
        case Err(error) => Err(error)
        case Ok(rest) => Ok(all + rest)
    {
      var parents: seq<nat> := [];
      match tasks[idx].dependsOn {
        case Some(deps) =>
          var found := Dependencies(tasks, names.value, idx, deps);
          if found.Err? { return Err(found.error); }
          parents := found.value;
        case None =>
          if tasks[idx].pipelineIo { parents := Nearest(tasks, idx); }
      }
      ghost var rest := ResolveFrom(tasks, idx + 1);
      assert rest.Ok? ==> all + ([parents] + rest.value) == (all + [parents]) + rest.value;
      all := all + [parents];
    }
    assert all + [] == all;
    return Ok(all);
  }

  // ---- It accepts exactly the resolvable lists ----

  lemma {:induction false} NoDuplicateMeansDistinct(tasks: seq<Task>, k: nat)
    requires k <= |tasks|
    ensures DuplicateFrom(tasks, k).None? <==>
      forall i, j | 0 <= i < j < |tasks| && k <= j :: tasks[i].name != tasks[j].name
    decreases |tasks| - k
  {
    if k < |tasks| {
      NoDuplicateMeansDistinct(tasks, k + 1);
      var earlier := IndexOf(tasks[..k], tasks[k].name);
      if earlier.Some? {
        assert tasks[earlier.value].name == tasks[k].name;
      } else {
        assert forall i | 0 <= i < k :: tasks[i].name == tasks[..k][i].name;
      }
    }
  }

  lemma {:induction false} DependenciesAreParents(tasks: seq<Task>, idx: nat, deps: seq<string>, j: nat)
    requires idx < |tasks| && j <= |deps| && DistinctNames(tasks)
    ensures var r := DependenciesFrom(tasks, idx, deps, j);
      && (r.Ok? <==> forall m | j <= m < |deps| :: exists i :: 0 <= i < idx && tasks[i].name == deps[m])
      && (r.Ok? ==> |r.value| == |deps| - j)
      && (r.Ok? ==> forall m | 0 <= m < |r.value| :: r.value[m] < idx && tasks[r.value[m]].name == deps[j + m])
    decreases |deps| - j
  {
    if j < |deps| {
      DependenciesAreParents(tasks, idx, deps, j + 1);
      var parent := IndexOf(tasks, deps[j]);
      if parent.Some? && parent.value < idx {
        var r, rest := DependenciesFrom(tasks, idx, deps, j), DependenciesFrom(tasks, idx, deps, j + 1);
        if rest.Ok? {
          forall m | 0 <= m < |r.value| ensures r.value[m] < idx && tasks[r.value[m]].name == deps[j + m] {
            if m > 0 {
              assert r.value[m] == rest.value[m - 1];
              assert tasks[rest.value[m - 1]].name == deps[j + 1 + (m - 1)];
            }
          }
        }
      } else if parent.Some? {
        forall i | 0 <= i < idx ensures tasks[i].name != deps[j] {}
      }
    }
  }

  /** Under distinct names a task has one list of parents at most. */
  lemma ParentsAreUnique(tasks: seq<Task>, idx: nat, a: seq<nat>, b: seq<nat>)
    requires DistinctNames(tasks) && idx < |tasks|
    requires AreParents(tasks, idx, a) && AreParents(tasks, idx, b)
    ensures a == b
  {}

  lemma ParentsOfAreParents(tasks: seq<Task>, idx: nat)
    requires idx < |tasks| && DistinctNames(tasks)
    ensures ParentsOf(tasks, idx).Ok? <==> exists parents :: AreParents(tasks, idx, parents)
    ensures ParentsOf(tasks, idx).Ok? ==> AreParents(tasks, idx, ParentsOf(tasks, idx).value)
  {
    match tasks[idx].dependsOn
    case None =>
      assert AreParents(tasks, idx, ParentsOf(tasks, idx).value);
    case Some(deps) =>
      DependenciesAreParents(tasks, idx, deps, 0);
      var found := ParentsOf(tasks, idx);
      if found.Ok? {
        forall j | 0 <= j < |deps| ensures found.value[j] < idx && tasks[found.value[j]].name == deps[j] {
          assert tasks[found.value[j]].name == deps[0 + j];
        }
        assert AreParents(tasks, idx, found.value);
      }
      if parents :| AreParents(tasks, idx, parents) {
        forall m | 0 <= m < |deps| ensures exists i :: 0 <= i < idx && tasks[i].name == deps[m] {
          assert tasks[parents[m]].name == deps[m];
        }
      }
  }

  lemma {:induction false} ResolveFromIsCorrect(tasks: seq<Task>, idx: nat)
    requires idx <= |tasks| && DistinctNames(tasks)
    ensures var r := ResolveFrom(tasks, idx);
      && (r.Ok? <==> forall i | idx <= i < |tasks| :: ParentsOf(tasks, i).Ok?)
      && (r.Ok? ==> |r.value| == |tasks| - idx)
      && (r.Ok? ==> forall m | 0 <= m < |r.value| :: Ok(r.value[m]) == ParentsOf(tasks, idx + m))
    decreases |tasks| - idx
  {
    if idx < |tasks| {
      ResolveFromIsCorrect(tasks, idx + 1);
      var r, rest := ResolveFrom(tasks, idx), ResolveFrom(tasks, idx + 1);
      if r.Ok? {
        forall m | 0 <= m < |r.value| ensures Ok(r.value[m]) == ParentsOf(tasks, idx + m) {
          if m > 0 {
            assert r.value[m] == rest.value[m - 1];
            assert Ok(rest.value[m - 1]) == ParentsOf(tasks, idx + 1 + (m - 1));
          }
        }
      }
    }
  }

  /**
   * A flow is accepted exactly when its names are distinct and every
   * `depends_on` names earlier tasks, and then the parents are the only ones
   * that fit.
   */
  lemma ResolveIsCorrect(tasks: seq<Task>)
    ensures Resolve(tasks).Ok? <==> DistinctNames(tasks) && exists parents :: IsResolution(tasks, parents)
    ensures Resolve(tasks).Ok? ==> forall parents :: IsResolution(tasks, parents) <==> parents == Resolve(tasks).value
    ensures Resolve(tasks).Err? && Resolve(tasks).error.DuplicateTask? <==> !DistinctNames(tasks)
  {
    NoDuplicateMeansDistinct(tasks, 0);
    if DistinctNames(tasks) {
      ResolveFromIsCorrect(tasks, 0);
      forall i | 0 <= i < |tasks|
        ensures ParentsOf(tasks, i).Ok? <==> exists parents :: AreParents(tasks, i, parents)
        ensures ParentsOf(tasks, i).Ok? ==> AreParents(tasks, i, ParentsOf(tasks, i).value)
      {
        ParentsOfAreParents(tasks, i);
      }
      ErrorsAreNotDuplicates(tasks, 0);
      if parents :| IsResolution(tasks, parents) {
        forall i | 0 <= i < |tasks| ensures ParentsOf(tasks, i).Ok? {
          assert AreParents(tasks, i, parents[i]);
        }
      }
      if Resolve(tasks).Ok? {
        var found := Resolve(tasks).value;
        forall i | 0 <= i < |tasks| ensures AreParents(tasks, i, found[i]) {
          assert Ok(found[i]) == ParentsOf(tasks, 0 + i);
        }
        assert IsResolution(tasks, found);
        forall parents | IsResolution(tasks, parents) ensures parents == found {
          forall i | 0 <= i < |tasks| ensures parents[i] == found[i] {
            ParentsAreUnique(tasks, i, parents[i], found[i]);
          }
        }
      }
    }
  }

  lemma {:induction false} DependencyErrorsAreNotDuplicates(tasks: seq<Task>, idx: nat, deps: seq<string>, j: nat)
    requires idx < |tasks| && j <= |deps|
    ensures var r := DependenciesFrom(tasks, idx, deps, j); r.Err? ==> !r.error.DuplicateTask?
    decreases |deps| - j
  {
    if j < |deps| { DependencyErrorsAreNotDuplicates(tasks, idx, deps, j + 1); }
  }

  lemma {:induction false} ErrorsAreNotDuplicates(tasks: seq<Task>, idx: nat)
    requires idx <= |tasks|
    ensures ResolveFrom(tasks, idx).Err? ==> !ResolveFrom(tasks, idx).error.DuplicateTask?
    decreases |tasks| - idx
  {
    if idx < |tasks| {
      ErrorsAreNotDuplicates(tasks, idx + 1);
      match tasks[idx].dependsOn
      case Some(deps) => DependencyErrorsAreNotDuplicates(tasks, idx, deps, 0);
      case None =>
    }
  }

  // ---- What a refusal says ----

  /** A task before `idx` has this name. */
  ghost predicate NamedBefore(tasks: seq<Task>, idx: nat, name: string)
    requires idx <= |tasks|
  {
    exists i :: 0 <= i < idx && tasks[i].name == name
  }

  /** The first `m` dependencies of task `idx` are names of earlier tasks. */
  ghost predicate DependenciesKnown(tasks: seq<Task>, idx: nat, deps: seq<string>, m: nat)
    requires idx <= |tasks| && m <= |deps|
  {
    forall j | 0 <= j < m :: NamedBefore(tasks, idx, deps[j])
  }

  ghost predicate AllKnown(tasks: seq<Task>, idx: nat)
    requires idx < |tasks|
  {
    tasks[idx].dependsOn.Some? ==>
      DependenciesKnown(tasks, idx, tasks[idx].dependsOn.value, |tasks[idx].dependsOn.value|)
  }

  lemma {:induction false} RefusedDependency(tasks: seq<Task>, idx: nat, deps: seq<string>, j: nat) returns (m: nat)
    requires idx < |tasks| && j <= |deps| && DistinctNames(tasks)
    requires DependenciesFrom(tasks, idx, deps, j).Err? && DependenciesKnown(tasks, idx, deps, j)
    ensures j <= m < |deps| && DependenciesKnown(tasks, idx, deps, m) && !NamedBefore(tasks, idx, deps[m])
    ensures DependenciesFrom(tasks, idx, deps, j).error ==
      if NamedBefore(tasks, |tasks|, deps[m]) then LaterDependency(tasks[idx].name, deps[m])
      else UnknownDependency(tasks[idx].name, deps[m])
    decreases |deps| - j
  {
    var named := IndexOf(tasks, deps[j]);
    if named.Some? && named.value < idx {
      assert NamedBefore(tasks, idx, deps[j]);
      m := RefusedDependency(tasks, idx, deps, j + 1);
    } else {
      m := j;
      if named.Some? { assert NamedBefore(tasks, |tasks|, deps[j]); }
    }
  }

  lemma {:induction false} RefusedTask(tasks: seq<Task>, k: nat) returns (idx: nat, m: nat)
    requires k <= |tasks| && DistinctNames(tasks) && ResolveFrom(tasks, k).Err?
    ensures k <= idx < |tasks| && tasks[idx].dependsOn.Some? && m < |tasks[idx].dependsOn.value|
    ensures forall i | k <= i < idx :: AllKnown(tasks, i)
    ensures var deps := tasks[idx].dependsOn.value;
      && DependenciesKnown(tasks, idx, deps, m) && !NamedBefore(tasks, idx, deps[m])
      && ResolveFrom(tasks, k).error ==
           if NamedBefore(tasks, |tasks|, deps[m]) then LaterDependency(tasks[idx].name, deps[m])
           else UnknownDependency(tasks[idx].name, deps[m])
    decreases |tasks| - k
  {
    if ParentsOf(tasks, k).Err? {
      idx := k;
      m := RefusedDependency(tasks, k, tasks[k].dependsOn.value, 0);
    } else {
      idx, m := RefusedTask(tasks, k + 1);
      if tasks[k].dependsOn.Some? { DependenciesAreParents(tasks, k, tasks[k].dependsOn.value, 0); }
    }
  }

  /**
   * A list with distinct names is refused for the first name, in the first task, that no earlier task has: it is
   * unknown exactly when no task has it, and otherwise named too early.
   */
  lemma RefusalNamesTheFirst(tasks: seq<Task>) returns (idx: nat, m: nat)
    requires DistinctNames(tasks) && Resolve(tasks).Err?
    ensures idx < |tasks| && tasks[idx].dependsOn.Some? && m < |tasks[idx].dependsOn.value|
    ensures forall i | 0 <= i < idx :: AllKnown(tasks, i)
    ensures var deps := tasks[idx].dependsOn.value;
      && DependenciesKnown(tasks, idx, deps, m) && !NamedBefore(tasks, idx, deps[m])
      && (NamedBefore(tasks, |tasks|, deps[m]) <==>
            Resolve(tasks).error == LaterDependency(tasks[idx].name, deps[m]))
      && (!NamedBefore(tasks, |tasks|, deps[m]) <==>
            Resolve(tasks).error == UnknownDependency(tasks[idx].name, deps[m]))
  {
    NoDuplicateMeansDistinct(tasks, 0);
    idx, m := RefusedTask(tasks, 0);
  }

  lemma {:induction false} DuplicateIsTheFirst(tasks: seq<Task>, k: nat) returns (d: nat)
    requires k <= |tasks| && DuplicateFrom(tasks, k).Some?
    ensures k <= d < |tasks| && DuplicateFrom(tasks, k) == Some(tasks[d].name)
    ensures NamedBefore(tasks, d, tasks[d].name)
    ensures forall i | k <= i < d :: !NamedBefore(tasks, i, tasks[i].name)
    decreases |tasks| - k
  {
    var earlier := IndexOf(tasks[..k], tasks[k].name);
    if earlier.Some? {
      d := k;
      assert tasks[earlier.value].name == tasks[k].name;
    } else {
      d := DuplicateIsTheFirst(tasks, k + 1);
      assert forall i | 0 <= i < k :: tasks[i] == tasks[..k][i];
    }
  }

  /** A list with a repeated name is refused for the first one that repeats an earlier task's. */
  lemma RefusalNamesTheDuplicate(tasks: seq<Task>) returns (d: nat)
    requires !DistinctNames(tasks)
    ensures d < |tasks| && Resolve(tasks) == Err(DuplicateTask(tasks[d].name))
    ensures NamedBefore(tasks, d, tasks[d].name)
    ensures forall i | 0 <= i < d :: !NamedBefore(tasks, i, tasks[i].name)
  {
    NoDuplicateMeansDistinct(tasks, 0);
    d := DuplicateIsTheFirst(tasks, 0);
  }

  /** Every parent comes before its child. */
  ghost predicate Topological(parents: Parents) {
    forall v, j | 0 <= v < |parents| && 0 <= j < |parents[v]| :: parents[v][j] < v
  }

  lemma ResolutionsAreTopological(tasks: seq<Task>, parents: Parents)
    requires IsResolution(tasks, parents)
    ensures Topological(parents)
  {}
}
