/** That a published change newer than what runs is reported waiting. */
module WaitingChanges {
  import opened Prelude
  import opened Targets
  import opened Changes
  import opened PublishedHistory

  /** What runs is a version of the file, or what its first version was based on. */
  ghost predicate RunsInHistory(now: Option<string>, versions: seq<Version>) {
    && versions != []
    && (|| SameContent(now, versions[0].previous)
        || exists i :: 0 <= i < |versions| && SameContent(now, versions[i].content))
  }

  /** No version from `k` on matches what runs. */
  ghost predicate NewerThanRunning(now: Option<string>, versions: seq<Version>, k: nat) {
    k < |versions| && forall j | k <= j < |versions| :: !SameContent(now, versions[j].content)
  }

  lemma {:induction false} IdsAreOfVersions(versions: seq<Version>, id: string)
    ensures id in Ids(versions) <==> exists i :: 0 <= i < |versions| && versions[i].id == id
  {
    if versions != [] {
      IdsAreOfVersions(versions[1..], id);
      assert forall i | 0 < i < |versions| :: versions[i] == versions[1..][i - 1];
    }
  }

  lemma NewerIsAfterTheStart(now: Option<string>, versions: seq<Version>, k: nat)
    requires k < |versions|
    ensures NewerThanRunning(now, versions, k) <==> Start(now, versions) <= k
  {}

  lemma PendingExactlyWhenNewer(now: Option<string>, versions: seq<Version>, id: string)
    requires Chained(versions) && RunsInHistory(now, versions)
    ensures id in Apply(now, versions).1 <==>
      exists k: nat :: NewerThanRunning(now, versions, k) && versions[k].id == id
  {
    var start := Start(now, versions);
    var tail := versions[start..];
    ChainPendsEverythingNewer(now, versions);
    IdsAreOfVersions(tail, id);
    if i :| 0 <= i < |tail| && tail[i].id == id {
      NewerIsAfterTheStart(now, versions, start + i);
      assert versions[start + i].id == id;
    }
    if k: nat :| NewerThanRunning(now, versions, k) && versions[k].id == id {
      NewerIsAfterTheStart(now, versions, k);
      assert tail[k - start].id == id;
    }
  }

  /**
   * Where each version is based on the one before, a file of a change pends exactly when what runs belongs to
   * the history and is older than a version the change made.
   */
  lemma FilePendsExactlyWhenNewer(change: Change, file: ChangeFile, published: Published, running: Running)
    requires Chained(VersionsAt(published, file.path)) && VersionsAt(published, file.path) != []
    ensures FilePends(change, file, published, running) <==>
      && running(file.path).Ok?
      && RunsInHistory(running(file.path).value, VersionsAt(published, file.path))
      && exists k: nat ::
           && NewerThanRunning(running(file.path).value, VersionsAt(published, file.path), k)
           && VersionsAt(published, file.path)[k].id == change.id
  {
    if running(file.path).Ok? {
      var now, versions := running(file.path).value, VersionsAt(published, file.path);
      if RunsInHistory(now, versions) {
        PendingExactlyWhenNewer(now, versions, change.id);
      } else {
        ChainPendsEverythingNewer(now, versions);
      }
    }
  }

  /**
   * A published change, each of whose versions of a path is newer than what runs there, pends at that path as
   * long as what runs belongs to its history.
   */
  lemma NewerChangeIsWaiting(changes: seq<Change>, change: Change, published: Published, running: Running, i: nat)
    requires change in changes && change.status == Published && Indexes(published, Decided(changes))
    requires i < |change.files| && running(change.files[i].path).Ok?
    requires var versions := VersionsAt(published, change.files[i].path);
      && Chained(versions) && RunsInHistory(running(change.files[i].path).value, versions)
      && forall k: nat | k < |versions| && versions[k].id == change.id ::
           NewerThanRunning(running(change.files[i].path).value, versions, k)
    ensures FilePends(change, change.files[i], published, running)
  {
    var file := change.files[i];
    var versions := VersionsAt(published, file.path);
    DecidedIsOldestFirst(changes, 0);
    VersionsComeFromChanges(Decided(changes), file.path);
    assert change in Decided(changes) && file in change.files;
    assert IsVersionOf(VersionOf(change, file), change, file);
    assert VersionOf(change, file) in VersionsOf(Decided(changes), file.path);
    assert Holds(published, Decided(changes), file.path);
    var k :| 0 <= k < |versions| && versions[k] == VersionOf(change, file);
    assert NewerThanRunning(running(file.path).value, versions, k);
    FilePendsExactlyWhenNewer(change, file, published, running);
  }
}
