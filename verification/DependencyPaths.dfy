/** Counting dependency paths: backwards along parents, forwards along children, and one by one. */
module DependencyPaths {
  import opened Prelude
  import opened TaskGraph

  // ---- Paths backwards ----

  /** The dependency paths of at least one edge from `u` to `v`; each entry of a parent list is an edge. */
  function PathCount(parents: Parents, u: nat, v: nat): nat
    requires Topological(parents) && v < |parents|
    decreases v, 1, 0
  {
    SumArrive(parents, u, parents[v], v)
  }

  /** The paths from `u` to `v`, counting the empty one. */
  function Arrive(parents: Parents, u: nat, v: nat): nat
    requires Topological(parents) && v < |parents|
    decreases v, 2, 0
  {
    (if u == v then 1 else 0) + PathCount(parents, u, v)
  }

  /** The paths from `u` that arrive at one of `ends`, all before `bound`. */
  function SumArrive(parents: Parents, u: nat, ends: seq<nat>, bound: nat): nat
    requires Topological(parents) && bound <= |parents|
    requires forall i | 0 <= i < |ends| :: ends[i] < bound
    decreases bound, 0, |ends|
  {
    if ends == [] then 0 else Arrive(parents, u, ends[0]) + SumArrive(parents, u, ends[1..], bound)
  }

  lemma {:induction false} SumArriveAnyBound(parents: Parents, u: nat, ends: seq<nat>, a: nat, b: nat)
    requires Topological(parents) && a <= |parents| && b <= |parents|
    requires forall i | 0 <= i < |ends| :: ends[i] < a && ends[i] < b
    ensures SumArrive(parents, u, ends, a) == SumArrive(parents, u, ends, b)
  {
    if ends != [] { SumArriveAnyBound(parents, u, ends[1..], a, b); }
  }

  // ---- Children ----

  function Repeat(x: nat, n: nat): seq<nat> {
    seq(n, i => x)
  }

  lemma RepeatOneMore(x: nat, n: nat)
    ensures Repeat(x, n + 1) == [x] + Repeat(x, n)
    ensures Repeat(x, n + 1) == Repeat(x, n) + [x]
  {}

  lemma {:induction false} CountRepeat(x: nat, n: nat, y: nat)
    ensures Count(Repeat(x, n), y) == if x == y then n else 0
  {
    if n > 0 {
      CountRepeat(x, n - 1, y);
      RepeatOneMore(x, n - 1);
      CountConcat([x], Repeat(x, n - 1), y);
    }
  }

  /** The children of `u` among the first `k` tasks, once per edge. */
  function ChildrenUpTo(parents: Parents, u: nat, k: nat): seq<nat>
    requires k <= |parents|
  {
    if k == 0 then [] else ChildrenUpTo(parents, u, k - 1) + Repeat(k - 1, Count(parents[k - 1], u))
  }

  lemma {:induction false} ChildrenAreTasks(parents: Parents, u: nat, k: nat)
    requires k <= |parents|
    ensures forall i | 0 <= i < |ChildrenUpTo(parents, u, k)| :: ChildrenUpTo(parents, u, k)[i] < k
  {
    if k > 0 { ChildrenAreTasks(parents, u, k - 1); }
  }

  function Children(parents: Parents, u: nat): (r: seq<nat>)
    ensures forall i | 0 <= i < |r| :: r[i] < |parents|
  {
    ChildrenAreTasks(parents, u, |parents|);
    ChildrenUpTo(parents, u, |parents|)
  }

  lemma MirrorStep(parents: Parents, u: nat, k: nat, v: nat, before: seq<nat>)
    requires k < |parents| && v < |parents|
    requires Count(before, v) == if v < k then Count(parents[v], u) else 0
    ensures Count(before + Repeat(k, Count(parents[k], u)), v) == if v <= k then Count(parents[v], u) else 0
  {
    CountConcat(before, Repeat(k, Count(parents[k], u)), v);
    CountRepeat(k, Count(parents[k], u), v);
  }

  lemma {:induction false} ChildrenMirrorParents(parents: Parents, u: nat, k: nat, v: nat)
    requires k <= |parents| && v < |parents|
    ensures Count(ChildrenUpTo(parents, u, k), v) == if v < k then Count(parents[v], u) else 0
  {
    if k > 0 {
      ChildrenMirrorParents(parents, u, k - 1, v);
      MirrorStep(parents, u, k - 1, v, ChildrenUpTo(parents, u, k - 1));
    }
  }

  /** `v` is a child of `u` exactly when `u` is a parent of `v`. */
  lemma ChildOf(parents: Parents, u: nat, v: nat)
    requires v < |parents|
    ensures v in Children(parents, u) <==> u in parents[v]
    ensures Topological(parents) && v in Children(parents, u) ==> u < v
  {
    ChildrenMirrorParents(parents, u, |parents|, v);
    CountIsMembership(Children(parents, u), v);
    CountIsMembership(parents[v], u);
  }

  // ---- Paths forwards ----

  /** The paths that start at one of `starts` and end at `v`. */
  function ArriveFrom(parents: Parents, starts: seq<nat>, v: nat): nat
    requires Topological(parents) && v < |parents|
  {
    if starts == [] then 0 else Arrive(parents, starts[0], v) + ArriveFrom(parents, starts[1..], v)
  }

  lemma {:induction false} ArriveFromConcat(parents: Parents, a: seq<nat>, b: seq<nat>, v: nat)
    requires Topological(parents) && v < |parents|
    ensures ArriveFrom(parents, a + b, v) == ArriveFrom(parents, a, v) + ArriveFrom(parents, b, v)
  {
    if a == [] {
      assert a + b == b;
    } else {
      assert (a + b)[1..] == a[1..] + b;
      ArriveFromConcat(parents, a[1..], b, v);
    }
  }

  /** The paths from one of `starts` to one of `ends`. */
  function Between(parents: Parents, starts: seq<nat>, ends: seq<nat>): nat
    requires Topological(parents) && forall i | 0 <= i < |ends| :: ends[i] < |parents|
  {
    if ends == [] then 0 else ArriveFrom(parents, starts, ends[0]) + Between(parents, starts, ends[1..])
  }

  lemma {:induction false} BetweenByStart(parents: Parents, starts: seq<nat>, ends: seq<nat>)
    requires Topological(parents) && forall i | 0 <= i < |ends| :: ends[i] < |parents|
    ensures starts == [] ==> Between(parents, starts, ends) == 0
    ensures starts != [] ==>
      Between(parents, starts, ends) ==
      SumArrive(parents, starts[0], ends, |parents|) + Between(parents, starts[1..], ends)
  {
    if ends != [] { BetweenByStart(parents, starts, ends[1..]); }
  }

  /** Summed over starts, ending one edge before `v` or at `v` counts every path to `v`. */
  lemma {:induction false} ArriveFromSplits(parents: Parents, starts: seq<nat>, v: nat)
    requires Topological(parents) && v < |parents|
    ensures ArriveFrom(parents, starts, v) == Count(starts, v) + Between(parents, starts, parents[v])
  {
    BetweenByStart(parents, starts, parents[v]);
    if starts != [] {
      ArriveFromSplits(parents, starts[1..], v);
      SumArriveAnyBound(parents, starts[0], parents[v], v, |parents|);
      assert PathCount(parents, starts[0], v) == SumArrive(parents, starts[0], parents[v], v);
    }
  }

  lemma {:induction false} SumOverEnds(parents: Parents, u: nat, ends: seq<nat>, bound: nat)
    requires Topological(parents) && bound <= |parents|
    requires forall i | 0 <= i < |ends| :: ends[i] < bound
    requires forall p | 0 <= p < bound :: PathCount(parents, u, p) == ArriveFrom(parents, Children(parents, u), p)
    ensures SumArrive(parents, u, ends, bound) == Count(ends, u) + Between(parents, Children(parents, u), ends)
  {
    if ends != [] { SumOverEnds(parents, u, ends[1..], bound); }
  }

  /** Paths counted backwards from `v` are the paths counted forwards through the children of `u`. */
  lemma {:induction false} PathsForward(parents: Parents, u: nat, v: nat)
    requires Topological(parents) && v < |parents|
    ensures PathCount(parents, u, v) == ArriveFrom(parents, Children(parents, u), v)
    decreases v
  {
    forall p | 0 <= p < v ensures PathCount(parents, u, p) == ArriveFrom(parents, Children(parents, u), p) {
      PathsForward(parents, u, p);
    }
    SumOverEnds(parents, u, parents[v], v);
    ArriveFromSplits(parents, Children(parents, u), v);
    ChildrenMirrorParents(parents, u, |parents|, v);
  }

  // ---- Paths one by one ----

  /** An edge into `child` along entry `slot` of its parent list. */
  datatype Edge = Edge(child: nat, slot: nat)

  type Path = seq<Edge>

  predicate IsEdge(parents: Parents, e: Edge) {
    e.child < |parents| && e.slot < |parents[e.child]|
  }

  /** `path` leads from `u` to `v` along one edge or more, each starting where the one before ended. */
  ghost predicate IsPath(parents: Parents, path: Path, u: nat, v: nat)
    decreases |path|
  {
    && path != []
    && var last := path[|path| - 1];
       && IsEdge(parents, last) && last.child == v
       && var from := parents[v][last.slot];
          if |path| == 1 then from == u else IsPath(parents, path[..|path| - 1], u, from)
  }

  function AppendAll(paths: seq<Path>, e: Edge): (r: seq<Path>)
    ensures |r| == |paths| && forall i | 0 <= i < |r| :: r[i] == paths[i] + [e]
  {
    seq(|paths|, i requires 0 <= i < |paths| => paths[i] + [e])
  }

  function AllPaths(parents: Parents, u: nat, v: nat): seq<Path>
    requires Topological(parents) && v < |parents|
    decreases v, 1, 0
  {
    PathsThrough(parents, u, v, |parents[v]|)
  }

  /** The paths to `v` whose last edge uses one of the first `slots` entries. */
  function PathsThrough(parents: Parents, u: nat, v: nat, slots: nat): seq<Path>
    requires Topological(parents) && v < |parents| && slots <= |parents[v]|
    decreases v, 0, slots
  {
    if slots == 0 then []
    else
      var from := parents[v][slots - 1];
      var e := Edge(v, slots - 1);
      PathsThrough(parents, u, v, slots - 1)
        + (if from == u then [[e]] else [])
        + AppendAll(AllPaths(parents, u, from), e)
  }

  ghost predicate Enumerates(parents: Parents, paths: seq<Path>, u: nat, v: nat, slots: nat) {
    && (forall path: Path :: path in paths <==> IsPath(parents, path, u, v) && path[|path| - 1].slot < slots)
    && (forall i, j | 0 <= i < j < |paths| :: paths[i] != paths[j])
  }

  lemma {:induction false} SumArriveLast(parents: Parents, u: nat, ends: seq<nat>, bound: nat)
    requires Topological(parents) && bound <= |parents| && ends != []
    requires forall i | 0 <= i < |ends| :: ends[i] < bound
    ensures SumArrive(parents, u, ends, bound) ==
      SumArrive(parents, u, ends[..|ends| - 1], bound) + Arrive(parents, u, ends[|ends| - 1])
  {
    if |ends| > 1 {
      SumArriveLast(parents, u, ends[1..], bound);
      assert ends[1..][..|ends| - 2] == ends[..|ends| - 1][1..];
    } else {
      assert ends[..0] == [] && ends[1..] == [];
    }
  }

  /** The paths to `v` through `slot`, given the paths to the task that entry names. */
  function ThroughSlot(parents: Parents, u: nat, v: nat, slot: nat, inner: seq<Path>): seq<Path>
    requires v < |parents| && slot < |parents[v]|
  {
    (if parents[v][slot] == u then [[Edge(v, slot)]] else []) + AppendAll(inner, Edge(v, slot))
  }

  ghost predicate Lists(parents: Parents, paths: seq<Path>, u: nat, v: nat) {
    forall path: Path :: path in paths <==> IsPath(parents, path, u, v)
  }

  ghost predicate NoRepeats(paths: seq<Path>) {
    forall i, j | 0 <= i < j < |paths| :: paths[i] != paths[j]
  }

  lemma ThroughSlotIsAPath(parents: Parents, u: nat, v: nat, slot: nat, inner: seq<Path>, i: nat)
    requires v < |parents| && slot < |parents[v]| && Lists(parents, inner, u, parents[v][slot])
    requires i < |ThroughSlot(parents, u, v, slot, inner)|
    ensures var path := ThroughSlot(parents, u, v, slot, inner)[i];
      IsPath(parents, path, u, v) && path[|path| - 1] == Edge(v, slot)
  {
    var path := ThroughSlot(parents, u, v, slot, inner)[i];
    if !(parents[v][slot] == u && i == 0) {
      var k := if parents[v][slot] == u then i - 1 else i;
      assert inner[k] in inner;
      assert path[..|path| - 1] == inner[k];
    }
  }

  lemma APathIsThroughItsSlot(parents: Parents, u: nat, v: nat, slot: nat, inner: seq<Path>, path: Path)
    requires v < |parents| && slot < |parents[v]| && Lists(parents, inner, u, parents[v][slot])
    requires IsPath(parents, path, u, v) && path[|path| - 1].slot == slot
    ensures path in ThroughSlot(parents, u, v, slot, inner)
  {
    var e := Edge(v, slot);
    var longer := AppendAll(inner, e);
    assert path == path[..|path| - 1] + [e];
    if |path| > 1 {
      var k :| 0 <= k < |inner| && inner[k] == path[..|path| - 1];
      assert longer[k] == path;
      assert path in longer;
    } else {
      assert path == [e];
    }
  }

  lemma ThroughSlotHasNoRepeats(parents: Parents, u: nat, v: nat, slot: nat, inner: seq<Path>)
    requires v < |parents| && slot < |parents[v]| && Lists(parents, inner, u, parents[v][slot]) && NoRepeats(inner)
    ensures NoRepeats(ThroughSlot(parents, u, v, slot, inner))
  {
    var mine := ThroughSlot(parents, u, v, slot, inner);
    var n := if parents[v][slot] == u then 1 else 0;
    forall i, j | 0 <= i < j < |mine| ensures mine[i] != mine[j] {
      var b := inner[j - n];
      assert mine[j][..|b|] == b;
      if i >= n {
        var a := inner[i - n];
        assert mine[i][..|a|] == a;
      } else {
        assert b in inner;
        assert |mine[i]| == 1 && |mine[j]| > 1;
      }
    }
  }

  lemma MineEndInTheSlot(parents: Parents, u: nat, v: nat, slot: nat, inner: seq<Path>, path: Path)
    requires v < |parents| && slot < |parents[v]| && Lists(parents, inner, u, parents[v][slot])
    ensures path in ThroughSlot(parents, u, v, slot, inner) <==>
      IsPath(parents, path, u, v) && path[|path| - 1].slot == slot
  {
    var mine := ThroughSlot(parents, u, v, slot, inner);
    if path in mine {
      var i :| 0 <= i < |mine| && mine[i] == path;
      ThroughSlotIsAPath(parents, u, v, slot, inner, i);
    }
    if IsPath(parents, path, u, v) && path[|path| - 1].slot == slot {
      APathIsThroughItsSlot(parents, u, v, slot, inner, path);
    }
  }

  lemma EnumerationGrows(parents: Parents, u: nat, v: nat, slot: nat, before: seq<Path>, inner: seq<Path>)
    requires v < |parents| && slot < |parents[v]|
    requires Enumerates(parents, before, u, v, slot)
    requires Lists(parents, inner, u, parents[v][slot]) && NoRepeats(inner)
    ensures Enumerates(parents, before + ThroughSlot(parents, u, v, slot, inner), u, v, slot + 1)
  {
    var mine := ThroughSlot(parents, u, v, slot, inner);
    var all := before + mine;
    forall path: Path ensures path in all <==> IsPath(parents, path, u, v) && path[|path| - 1].slot < slot + 1 {
      MineEndInTheSlot(parents, u, v, slot, inner, path);
    }
    ThroughSlotHasNoRepeats(parents, u, v, slot, inner);
    forall i, j | 0 <= i < j < |all| ensures all[i] != all[j] {
      if i < |before| <= j {
        assert all[i] in before;
        ThroughSlotIsAPath(parents, u, v, slot, inner, j - |before|);
      }
    }
  }

  lemma EveryPathEndsInASlot(parents: Parents, paths: seq<Path>, u: nat, v: nat)
    requires v < |parents| && Enumerates(parents, paths, u, v, |parents[v]|)
    ensures Lists(parents, paths, u, v) && NoRepeats(paths)
  {}

  lemma NoSlotNoPath(parents: Parents, u: nat, v: nat)
    ensures Enumerates(parents, [], u, v, 0)
  {}

  lemma PathsThroughUnfolds(parents: Parents, u: nat, v: nat, slot: nat)
    requires Topological(parents) && v < |parents| && slot < |parents[v]|
    ensures PathsThrough(parents, u, v, slot + 1) ==
      PathsThrough(parents, u, v, slot) + ThroughSlot(parents, u, v, slot, AllPaths(parents, u, parents[v][slot]))
  {}

  lemma {:induction false} PathsThroughEnumerate(parents: Parents, u: nat, v: nat, slots: nat)
    requires Topological(parents) && v < |parents| && slots <= |parents[v]|
    ensures Enumerates(parents, PathsThrough(parents, u, v, slots), u, v, slots)
    decreases v, slots
  {
    if slots == 0 {
      NoSlotNoPath(parents, u, v);
    } else {
      var slot := slots - 1;
      var from := parents[v][slot];
      PathsThroughEnumerate(parents, u, v, slot);
      PathsThroughEnumerate(parents, u, from, |parents[from]|);
      EveryPathEndsInASlot(parents, AllPaths(parents, u, from), u, from);
      EnumerationGrows(parents, u, v, slot, PathsThrough(parents, u, v, slot), AllPaths(parents, u, from));
      PathsThroughUnfolds(parents, u, v, slot);
    }
  }

  lemma {:induction false} PathsThroughAreCounted(parents: Parents, u: nat, v: nat, slots: nat)
    requires Topological(parents) && v < |parents| && slots <= |parents[v]|
    ensures |PathsThrough(parents, u, v, slots)| == SumArrive(parents, u, parents[v][..slots], v)
    decreases v, slots
  {
    if slots > 0 {
      var slot := slots - 1;
      var from := parents[v][slot];
      PathsThroughAreCounted(parents, u, v, slot);
      PathsThroughAreCounted(parents, u, from, |parents[from]|);
      assert parents[from][..|parents[from]|] == parents[from];
      SumArriveLast(parents, u, parents[v][..slots], v);
      assert parents[v][..slots][..slot] == parents[v][..slot];
    }
  }

  /** The count is the number of different paths: the listing has them all, and none twice. */
  lemma PathCountCountsPaths(parents: Parents, u: nat, v: nat)
    requires Topological(parents) && v < |parents|
    ensures |AllPaths(parents, u, v)| == PathCount(parents, u, v)
    ensures forall path: Path :: path in AllPaths(parents, u, v) <==> IsPath(parents, path, u, v)
    ensures forall i, j | 0 <= i < j < |AllPaths(parents, u, v)| ::
      AllPaths(parents, u, v)[i] != AllPaths(parents, u, v)[j]
  {
    PathsThroughEnumerate(parents, u, v, |parents[v]|);
    EveryPathEndsInASlot(parents, AllPaths(parents, u, v), u, v);
    PathsThroughAreCounted(parents, u, v, |parents[v]|);
    assert parents[v][..|parents[v]|] == parents[v];
  }
}
