/** Published versions of a file replayed over what runs, and what is still waiting to be deployed. */
module PublishedHistory {
  import opened Prelude
  import opened Targets
  import opened Changes
  import StableSort

  datatype Version = Version(id: string, previous: Option<string>, content: Option<string>)

  /** Whether two versions of a file match, ignoring trailing whitespace. */
  predicate SameContent(a: Option<string>, b: Option<string>) {
    match (a, b)
    case (Some(x), Some(y)) => TrimEnd(x) == TrimEnd(y)
    case (None, None) => true
    case _ => false
  }

  /** Two versions match when neither has a file, or both do and differ in white space at the end alone. */
  lemma SameContentIgnoresTheTail(a: Option<string>, b: Option<string>)
    ensures SameContent(a, b) <==>
      || (a == None && b == None)
      || (a.Some? && b.Some? && exists common: string, x: string, y: string ::
            SplitsInto(a.value, common, x) && SplitsInto(b.value, common, y))
  {
    if a.Some? && b.Some? { SameButForTheTail(a.value, b.value); }
  }

  // ---- Replay ----

  /** The version after the newest one matching what runs, or the oldest. */
  function Start(running: Option<string>, versions: seq<Version>): (n: nat)
    ensures n <= |versions|
    ensures n > 0 ==> SameContent(running, versions[n - 1].content)
    ensures forall i | n <= i < |versions| :: !SameContent(running, versions[i].content)
  {
    if versions == [] then 0
    else
      var last := |versions| - 1;
      if SameContent(running, versions[last].content) then |versions|
      else
        var n := Start(running, versions[..last]);
        assert forall i | n <= i < last :: versions[..last][i] == versions[i];
        n
  }

  /** Applies each version based on the content so far. */
  function Replay(content: Option<string>, versions: seq<Version>): (Option<string>, seq<string>)
    decreases |versions|
  {
    if versions == [] then (content, [])
    else if SameContent(content, versions[0].previous) then
      var (base, pending) := Replay(versions[0].content, versions[1..]);
      (base, [versions[0].id] + pending)
    else Replay(content, versions[1..])
  }

  function Apply(running: Option<string>, versions: seq<Version>): (Option<string>, seq<string>) {
    Replay(running, versions[Start(running, versions)..])
  }

  method FindStart(running: Option<string>, versions: seq<Version>) returns (start: nat)
    ensures start == Start(running, versions)
  {
    start := |versions|;
    while start > 0 && !SameContent(running, versions[start - 1].content)
      invariant Start(running, versions) <= start <= |versions|
    {
      start := start - 1;
    }
  }

  /** `apply_published`: the search from the end, then the loop over the later versions. */
  method ApplyPublished(running: Option<string>, versions: seq<Version>)
    returns (content: Option<string>, pending: seq<string>)
    ensures (content, pending) == Apply(running, versions)
  {
    var start := FindStart(running, versions);
    content := running;
    pending := [];
    for k := start to |versions|
      invariant Apply(running, versions).0 == Replay(content, versions[k..]).0
      invariant Apply(running, versions).1 == pending + Replay(content, versions[k..]).1
    {
      var version := versions[k];
      assert versions[k..][0] == version && versions[k..][1..] == versions[k + 1..];
      if SameContent(content, version.previous) {
        content := version.content;
        pending := pending + [version.id];
      }
    }
    assert versions[|versions|..] == [] && pending + [] == pending;
  }

  // ---- Replay reaches a fixed point ----

  /** From version `k` on nothing is based on where a replay ends; before `k`, the end is a version's own content. */
  lemma {:induction false} ReplaySettles(content: Option<string>, versions: seq<Version>) returns (k: nat)
    ensures k <= |versions|
    ensures var (base, pending) := Replay(content, versions);
      && (k == 0 ==> base == content && pending == [])
      && (k > 0 ==> base == versions[k - 1].content)
      && forall i | k <= i < |versions| :: !SameContent(base, versions[i].previous)
    decreases |versions|
  {
    if versions == [] {
      k := 0;
    } else {
      var applies := SameContent(content, versions[0].previous);
      var j := ReplaySettles(if applies then versions[0].content else content, versions[1..]);
      k := if j == 0 && !applies then 0 else j + 1;
      var base := Replay(content, versions).0;
      forall i | k <= i < |versions| ensures !SameContent(base, versions[i].previous) {
        if i > 0 { assert versions[i] == versions[1..][i - 1]; }
      }
      assert j > 0 ==> versions[1..][j - 1] == versions[j];
    }
  }

  lemma {:induction false} NothingApplies(content: Option<string>, versions: seq<Version>)
    requires forall i | 0 <= i < |versions| :: !SameContent(content, versions[i].previous)
    ensures Replay(content, versions) == (content, [])
  {
    if versions != [] { NothingApplies(content, versions[1..]); }
  }

  /** Searching again from where a replay ended starts no earlier than the version it ended with. */
  lemma StartsAfterTheEnd(running: Option<string>, versions: seq<Version>) returns (k: nat)
    ensures Start(running, versions) <= k <= |versions| && k <= Start(Apply(running, versions).0, versions)
    ensures forall i | k <= i < |versions| :: !SameContent(Apply(running, versions).0, versions[i].previous)
  {
    var start, base := Start(running, versions), Apply(running, versions).0;
    var tail := versions[start..];
    var j := ReplaySettles(running, tail);
    k := start + j;
    if j > 0 { assert tail[j - 1] == versions[k - 1]; }
    forall i | k <= i < |versions| ensures !SameContent(base, versions[i].previous) {
      assert versions[i] == tail[i - start];
    }
  }

  /** Once what the branch holds runs, replaying the same versions changes nothing and leaves nothing pending. */
  lemma ApplyReachesAFixedPoint(running: Option<string>, versions: seq<Version>)
    ensures Apply(Apply(running, versions).0, versions) == (Apply(running, versions).0, [])
  {
    var k := StartsAfterTheEnd(running, versions);
    var base := Apply(running, versions).0;
    NothingApplies(base, versions[Start(base, versions)..]);
  }

  // ---- Histories in which each version is based on the one before ----

  ghost predicate Chained(versions: seq<Version>) {
    forall i | 0 < i < |versions| :: SameContent(versions[i - 1].content, versions[i].previous)
  }

  function Ids(versions: seq<Version>): seq<string> {
    if versions == [] then [] else [versions[0].id] + Ids(versions[1..])
  }

  lemma {:induction false} ChainReplaysWhole(content: Option<string>, versions: seq<Version>)
    requires Chained(versions)
    requires versions != [] ==> SameContent(content, versions[0].previous)
    ensures Replay(content, versions) ==
      (if versions == [] then content else versions[|versions| - 1].content, Ids(versions))
    decreases |versions|
  {
    if versions != [] {
      var rest := versions[1..];
      forall i | 0 < i < |rest| ensures SameContent(rest[i - 1].content, rest[i].previous) {
        assert SameContent(versions[i].content, versions[i + 1].previous);
      }
      ChainReplaysWhole(versions[0].content, rest);
    }
  }

  lemma NoChainLinkMatches(running: Option<string>, versions: seq<Version>)
    requires Chained(versions) && versions != []
    requires forall i | 0 <= i < |versions| :: !SameContent(running, versions[i].content)
    requires !SameContent(running, versions[0].previous)
    ensures forall i | 0 <= i < |versions| :: !SameContent(running, versions[i].previous)
  {
    forall i | 0 <= i < |versions| ensures !SameContent(running, versions[i].previous) {
      if i > 0 {
        assert SameContent(versions[i - 1].content, versions[i].previous);
        assert !SameContent(running, versions[i - 1].content);
      }
    }
  }

  /**
   * In a chained history, whatever version runs, or the file it started from,
   * the base is the newest version and what is pending is every version after
   * the newest match, in order; when something else runs, that is the base
   * and nothing is pending.
   */
  lemma ChainPendsEverythingNewer(running: Option<string>, versions: seq<Version>)
    requires Chained(versions) && versions != []
    ensures var start := Start(running, versions);
      var newest := versions[|versions| - 1].content;
      if start > 0 || SameContent(running, versions[0].previous)
      then SameContent(Apply(running, versions).0, newest) && Apply(running, versions).1 == Ids(versions[start..])
      else Apply(running, versions) == (running, [])
  {
    var start := Start(running, versions);
    var tail := versions[start..];
    if start > 0 || SameContent(running, versions[0].previous) {
      forall i | 0 < i < |tail| ensures SameContent(tail[i - 1].content, tail[i].previous) {
        assert SameContent(versions[start + i - 1].content, versions[start + i].previous);
      }
      if start > 0 && tail != [] {
        assert SameContent(versions[start - 1].content, versions[start].previous);
      }
      ChainReplaysWhole(running, tail);
    } else {
      NoChainLinkMatches(running, versions);
      NothingApplies(running, versions);
      assert tail == versions;
    }
  }

  // ---- index_published ----

  /** When a published change was decided; records without the field count from their creation. */
  function DecidedAt(change: Change): int {
    match change.decidedAt
    case Some(t) => t
    case None => change.createdAt
  }

  function OnlyPublished(changes: seq<Change>): seq<Change> {
    if changes == [] then []
    else
      var last := changes[|changes| - 1];
      OnlyPublished(changes[..|changes| - 1]) + (if last.status == Status.Published then [last] else [])
  }

  /** The published changes, oldest decision first. */
  function Decided(changes: seq<Change>): seq<Change> {
    StableSort.Sort(OnlyPublished(changes), DecidedAt)
  }

  function VersionOf(change: Change, file: ChangeFile): Version {
    Version(change.id, file.previous, file.content)
  }

  /** The versions of `path` among the first files of `change`. */
  function FilesAt(change: Change, files: seq<ChangeFile>, path: string): seq<Version> {
    if files == [] then []
    else
      var last := files[|files| - 1];
      FilesAt(change, files[..|files| - 1], path) + (if last.path == path then [VersionOf(change, last)] else [])
  }

  function VersionsOf(changes: seq<Change>, path: string): seq<Version> {
    if changes == [] then []
    else
      var last := changes[|changes| - 1];
      VersionsOf(changes[..|changes| - 1], path) + FilesAt(last, last.files, path)
  }

  type Published = map<string, seq<Version>>

  /** `published` holds for `path` its versions in `changes` and then those among `files` of `change`. */
  ghost predicate HoldsUpTo(published: Published, changes: seq<Change>, change: Change, files: seq<ChangeFile>,
                            path: string) {
    var versions := VersionsOf(changes, path) + FilesAt(change, files, path);
    if path in published then published[path] == versions && versions != [] else versions == []
  }

  ghost predicate IndexesUpTo(published: Published, changes: seq<Change>, change: Change, files: seq<ChangeFile>) {
    forall path :: HoldsUpTo(published, changes, change, files, path)
  }

  ghost predicate Holds(published: Published, changes: seq<Change>, path: string) {
    var versions := VersionsOf(changes, path);
    if path in published then published[path] == versions && versions != [] else versions == []
  }

  ghost predicate Indexes(published: Published, changes: seq<Change>) {
    forall path :: Holds(published, changes, path)
  }

  function Pushed(published: Published, path: string, version: Version): Published {
    published[path := (if path in published then published[path] else []) + [version]]
  }

  lemma PushIndexesOneMore(was: Published, changes: seq<Change>, change: Change, files: seq<ChangeFile>,
                           file: ChangeFile)
    requires IndexesUpTo(was, changes, change, files)
    ensures IndexesUpTo(Pushed(was, file.path, VersionOf(change, file)), changes, change, files + [file])
  {
    assert (files + [file])[..|files|] == files;
    var now := Pushed(was, file.path, VersionOf(change, file));
    forall path ensures HoldsUpTo(now, changes, change, files + [file], path) {
      assert HoldsUpTo(was, changes, change, files, path);
      assert FilesAt(change, files + [file], path) ==
        FilesAt(change, files, path) + if file.path == path then [VersionOf(change, file)] else [];
    }
  }

  /** The inner loop of `index_published`, over the files of one change. */
  method IndexFiles(before: Published, ghost changes: seq<Change>, change: Change) returns (published: Published)
    requires Indexes(before, changes)
    ensures Indexes(published, changes + [change])
  {
    published := before;
    forall path ensures HoldsUpTo(published, changes, change, change.files[..0], path) {
      assert Holds(before, changes, path) && FilesAt(change, change.files[..0], path) == [];
    }
    for j := 0 to |change.files|
      invariant IndexesUpTo(published, changes, change, change.files[..j])
    {
      var file := change.files[j];
      PushIndexesOneMore(published, changes, change, change.files[..j], file);
      assert change.files[..j + 1] == change.files[..j] + [file];
      published := Pushed(published, file.path, VersionOf(change, file));
    }
    assert change.files[..|change.files|] == change.files;
    assert (changes + [change])[..|changes|] == changes;
    forall path ensures Holds(published, changes + [change], path) {
      assert HoldsUpTo(published, changes, change, change.files, path);
    }
  }

  method KeepPublished(changes: seq<Change>) returns (kept: seq<Change>)
    ensures kept == OnlyPublished(changes)
  {
    kept := [];
    for i := 0 to |changes|
      invariant kept == OnlyPublished(changes[..i])
    {
      assert changes[..i + 1][..i] == changes[..i];
      if changes[i].status == Status.Published { kept := kept + [changes[i]]; }
    }
    assert changes[..|changes|] == changes;
  }

  /** `index_published`: filters, sorts, and pushes each file under its path. */
  method IndexPublished(changes: seq<Change>) returns (published: Published)
    ensures Indexes(published, Decided(changes))
  {
    var kept := KeepPublished(changes);
    var decided := StableSort.Sort(kept, DecidedAt);
    published := map[];
    for i := 0 to |decided|
      invariant Indexes(published, decided[..i])
    {
      published := IndexFiles(published, decided[..i], decided[i]);
      assert decided[..i + 1] == decided[..i] + [decided[i]];
    }
    assert decided[..|decided|] == decided;
  }

  lemma {:induction false} OnlyPublishedKeeps(changes: seq<Change>)
    ensures forall c :: c in OnlyPublished(changes) <==> c in changes && c.status == Published
  {
    if changes != [] {
      var n := |changes| - 1;
      OnlyPublishedKeeps(changes[..n]);
      assert changes == changes[..n] + [changes[n]];
    }
  }

  /** `c` was decided no later than `d`, counting a change without a date of decision from its creation. */
  ghost predicate NoLater(c: Change, d: Change) {
    && (c.decidedAt.Some? && d.decidedAt.Some? ==> c.decidedAt.value <= d.decidedAt.value)
    && (c.decidedAt.Some? && d.decidedAt.None? ==> c.decidedAt.value <= d.createdAt)
    && (c.decidedAt.None? && d.decidedAt.Some? ==> c.createdAt <= d.decidedAt.value)
    && (c.decidedAt.None? && d.decidedAt.None? ==> c.createdAt <= d.createdAt)
  }

  /** Decisions are in order, ties as listed, and no published change is lost. */
  lemma DecidedIsOldestFirst(changes: seq<Change>, t: int)
    ensures forall i, j | 0 <= i < j < |Decided(changes)| :: NoLater(Decided(changes)[i], Decided(changes)[j])
    ensures StableSort.Ordered(Decided(changes), DecidedAt)
    ensures StableSort.WithKey(Decided(changes), DecidedAt, t) ==
      StableSort.WithKey(OnlyPublished(changes), DecidedAt, t)
    ensures forall c :: c in Decided(changes) <==> c in changes && c.status == Published
  {
    StableSort.SortIsStable(OnlyPublished(changes), DecidedAt, t);
    OnlyPublishedKeeps(changes);
    forall c ensures c in Decided(changes) <==> c in OnlyPublished(changes) {
      assert c in Decided(changes) <==> c in multiset(Decided(changes));
      assert c in OnlyPublished(changes) <==> c in multiset(OnlyPublished(changes));
    }
  }

  /** `v` is what `c` published of `f`: its content, over the base it was written on. */
  ghost predicate IsVersionOf(v: Version, c: Change, f: ChangeFile) {
    v.id == c.id && v.previous == f.previous && v.content == f.content
  }

  lemma {:induction false} VersionsComeFromFiles(change: Change, files: seq<ChangeFile>, path: string)
    ensures forall v :: v in FilesAt(change, files, path) <==>
      exists f :: f in files && f.path == path && IsVersionOf(v, change, f)
  {
    if files != [] {
      var n := |files| - 1;
      VersionsComeFromFiles(change, files[..n], path);
      assert files == files[..n] + [files[n]];
    }
  }

  /** The versions of a path are exactly the files the listed changes hold there. */
  lemma {:induction false} VersionsComeFromChanges(changes: seq<Change>, path: string)
    ensures forall v :: v in VersionsOf(changes, path) <==>
      exists c, f :: c in changes && f in c.files && f.path == path && IsVersionOf(v, c, f)
  {
    if changes != [] {
      var n := |changes| - 1;
      var init, last := changes[..n], changes[n];
      VersionsComeFromChanges(init, path);
      VersionsComeFromFiles(last, last.files, path);
      assert changes == init + [last];
    }
  }

  lemma {:induction false} FilesAtInOrder(change: Change, files: seq<ChangeFile>, more: seq<ChangeFile>, path: string)
    ensures FilesAt(change, files + more, path) == FilesAt(change, files, path) + FilesAt(change, more, path)
    decreases |more|
  {
    if more == [] {
      assert files + more == files;
    } else {
      var n := |more| - 1;
      FilesAtInOrder(change, files, more[..n], path);
      assert (files + more)[..|files| + n] == files + more[..n];
    }
  }

  /** `list` of the changes is made by appending, for each change in turn, what `each` gives for it. */
  ghost predicate Appends<V>(list: seq<Change> -> seq<V>, each: Change -> seq<V>) {
    && list([]) == []
    && forall changes: seq<Change>, last: Change :: list(changes + [last]) == list(changes) + each(last)
  }

  /** Such a list of two lists of changes is one list after the other. */
  lemma {:induction false} AppendsInOrder<V>(list: seq<Change> -> seq<V>, each: Change -> seq<V>, changes: seq<Change>,
                                             more: seq<Change>)
    requires Appends(list, each)
    ensures list(changes + more) == list(changes) + list(more)
    decreases |more|
  {
    if more == [] {
      assert changes + more == changes;
    } else {
      var init, last := more[..|more| - 1], more[|more| - 1];
      AppendsInOrder(list, each, changes, init);
      assert more == init + [last];
      assert changes + more == (changes + init) + [last];
      assert (list(changes) + list(init)) + each(last) == list(changes) + (list(init) + each(last));
    }
  }

  /** Versions are in the order of the changes, and within a change in the order of its files. */
  lemma VersionsInOrder(changes: seq<Change>, more: seq<Change>, path: string)
    ensures VersionsOf(changes + more, path) == VersionsOf(changes, path) + VersionsOf(more, path)
  {
    var list := (all: seq<Change>) => VersionsOf(all, path);
    var each := (change: Change) => FilesAt(change, change.files, path);
    forall all: seq<Change>, last: Change ensures list(all + [last]) == list(all) + each(last) {
      assert (all + [last])[..|all|] == all;
    }
    AppendsInOrder(list, each, changes, more);
  }

  /** The published ones keep the order in which the changes were listed. */
  lemma PublishedInOrder(changes: seq<Change>, more: seq<Change>)
    ensures OnlyPublished(changes + more) == OnlyPublished(changes) + OnlyPublished(more)
  {
    var each := (change: Change) => if change.status == Status.Published then [change] else [];
    forall all: seq<Change>, last: Change ensures OnlyPublished(all + [last]) == OnlyPublished(all) + each(last) {
      assert (all + [last])[..|all|] == all;
    }
    AppendsInOrder(OnlyPublished, each, changes, more);
  }

  // ---- Waiting ----

  lemma {:induction false} PendingAreVersions(content: Option<string>, versions: seq<Version>)
    ensures forall id :: id in Replay(content, versions).1 ==> exists i :: 0 <= i < |versions| && versions[i].id == id
    decreases |versions|
  {
    if versions != [] {
      var rest := versions[1..];
      PendingAreVersions(versions[0].content, rest);
      PendingAreVersions(content, rest);
      forall id | id in Replay(content, versions).1
        ensures exists i :: 0 <= i < |versions| && versions[i].id == id
      {
        if id != versions[0].id {
          var i :| 0 <= i < |rest| && rest[i].id == id;
          assert versions[i + 1].id == id;
        }
      }
    }
  }

  /** A change whose versions of a path all match what runs there is not pending. */
  lemma RunningVersionIsNotPending(running: Option<string>, versions: seq<Version>, id: string)
    requires forall i | 0 <= i < |versions| && versions[i].id == id :: SameContent(running, versions[i].content)
    ensures id !in Apply(running, versions).1
  {
    var start := Start(running, versions);
    var tail := versions[start..];
    PendingAreVersions(running, tail);
    forall i | 0 <= i < |tail| ensures tail[i].id != id {
      assert tail[i] == versions[start + i];
    }
  }

  datatype Deployment = Waiting | Deployed

  /** What runs at a path, or a failure to read it, left uninterpreted. */
  type Running = string -> Result<Option<string>, Error>

  function VersionsAt(published: Published, path: string): seq<Version> {
    if path in published then published[path] else []
  }

  predicate Tracked(authoring: Option<Authoring>, change: Change) {
    change.status == Published && authoring.Some?
    && exists i :: 0 <= i < |authoring.value.targets|
         && authoring.value.targets[i].name == change.target && authoring.value.targets[i].trackDeployment
  }

  /** Some configured target of the published change's name is to be followed until it is deployed. */
  ghost predicate FollowsDeployment(authoring: Option<Authoring>, change: Change) {
    && change.status == Published && authoring.Some?
    && exists target :: target in authoring.value.targets && target.name == change.target && target.trackDeployment
  }

  /** `file` is applied over what runs there but does not run yet. */
  predicate FilePends(change: Change, file: ChangeFile, published: Published, running: Running) {
    running(file.path).Ok? && change.id in Apply(running(file.path).value, VersionsAt(published, file.path)).1
  }

  predicate Readable(file: ChangeFile, running: Running) {
    Locate(file.path).Ok? && running(file.path).Ok?
  }

  /** `deployment`: the first file that pends or cannot be read decides. */
  method DeploymentOf(authoring: Option<Authoring>, change: Change, published: Published, running: Running)
    returns (r: Option<Deployment>)
    ensures r == Some(Waiting) <==> FollowsDeployment(authoring, change) && exists i ::
      && 0 <= i < |change.files| && FilePends(change, change.files[i], published, running)
      && forall j | 0 <= j <= i :: Readable(change.files[j], running)
    ensures r == Some(Deployed) <==> FollowsDeployment(authoring, change) && forall i | 0 <= i < |change.files| ::
      Readable(change.files[i], running) && !FilePends(change, change.files[i], published, running)
  {
    if !Tracked(authoring, change) { return None; }
    for k := 0 to |change.files|
      invariant forall i | 0 <= i < k ::
        Readable(change.files[i], running) && !FilePends(change, change.files[i], published, running)
    {
      var file := change.files[k];
      if Locate(file.path).Err? { return None; }
      match running(file.path) {
        case Ok(content) =>
          var _, pending := ApplyPublished(content, VersionsAt(published, file.path));
          if change.id in pending { return Some(Waiting); }
        case Err(_) => return None;
      }
    }
    return Some(Deployed);
  }

  /** Published records of one id list the same files; `PublishedReads` gives it for records read from the store. */
  ghost predicate ConsistentWith(changes: seq<Change>, change: Change) {
    forall c :: c in changes && c.status == Published && c.id == change.id ==> c.files == change.files
  }

  predicate FileRuns(file: ChangeFile, running: Running) {
    running(file.path).Ok? && SameContent(running(file.path).value, file.content)
  }

  lemma OwnVersionIsOfItsFiles(changes: seq<Change>, change: Change, path: string, v: Version) returns (f: ChangeFile)
    requires ConsistentWith(changes, change) && v in VersionsOf(Decided(changes), path) && v.id == change.id
    ensures f in change.files && f.path == path && f.content == v.content
  {
    DecidedIsOldestFirst(changes, 0);
    VersionsComeFromChanges(Decided(changes), path);
    var c, g :| c in Decided(changes) && g in c.files && g.path == path && IsVersionOf(v, c, g);
    f := g;
  }

  lemma FileOfRunningPathIsNotPending(changes: seq<Change>, change: Change, published: Published, running: Running,
                                      i: nat)
    requires ConsistentWith(changes, change) && Indexes(published, Decided(changes))
    requires i < |change.files| && running(change.files[i].path).Ok?
    requires forall f :: f in change.files && f.path == change.files[i].path ==> FileRuns(f, running)
    ensures !FilePends(change, change.files[i], published, running)
  {
    var path := change.files[i].path;
    var versions, now := VersionsAt(published, path), running(path).value;
    assert Holds(published, Decided(changes), path);
    forall k | 0 <= k < |versions| && versions[k].id == change.id
      ensures SameContent(now, versions[k].content)
    {
      var f := OwnVersionIsOfItsFiles(changes, change, path, versions[k]);
      assert FileRuns(f, running);
    }
    RunningVersionIsNotPending(now, versions, change.id);
  }

  /**
   * In any published history, no file of a change whose files all match what
   * runs is pending, so the change is not reported waiting; it does not matter
   * whether it lists a path twice.
   */
  lemma RunningChangeIsNeverWaiting(changes: seq<Change>, change: Change, published: Published, running: Running)
    requires ConsistentWith(changes, change) && Indexes(published, Decided(changes))
    requires forall i | 0 <= i < |change.files| :: FileRuns(change.files[i], running)
    ensures forall i | 0 <= i < |change.files| :: !FilePends(change, change.files[i], published, running)
  {
    forall i | 0 <= i < |change.files| ensures !FilePends(change, change.files[i], published, running) {
      forall f | f in change.files ensures FileRuns(f, running) {
        var m :| 0 <= m < |change.files| && change.files[m] == f;
      }
      FileOfRunningPathIsNotPending(changes, change, published, running, i);
    }
  }

  /** When a change lists each path once, any single file of it that matches what runs is not pending. */
  lemma RunningFileIsNotPending(changes: seq<Change>, change: Change, published: Published, running: Running, i: nat)
    requires ConsistentWith(changes, change) && Indexes(published, Decided(changes))
    requires Distinct(FilePaths(change.files))
    requires i < |change.files| && FileRuns(change.files[i], running)
    ensures !FilePends(change, change.files[i], published, running)
  {
    forall f | f in change.files && f.path == change.files[i].path ensures f == change.files[i] {
      var m :| 0 <= m < |change.files| && change.files[m] == f;
      assert FilePaths(change.files)[m] == FilePaths(change.files)[i];
    }
    FileOfRunningPathIsNotPending(changes, change, published, running, i);
  }
}
