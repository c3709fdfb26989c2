/**
 * Change proposals as values: the record, the checks of each handler, and the
 * record each handler writes.
 */
module Changes {
  import opened Prelude
  import opened Targets

  datatype WorkspaceFile = WorkspaceFile(path: string, content: Option<string>)

  datatype ChangeFile = ChangeFile(path: string, content: Option<string>, previous: Option<string>)

  datatype Issue = Issue(path: string, location: Option<string>, message: string)

  datatype Json = Object(fields: map<string, string>) | NotAnObject

  datatype Change = Change(
    id: string,
    target: string,
    title: string,
    description: Option<string>,
    status: Status,
    proposedBy: string,
    createdAt: int,
    updatedAt: Option<int>,
    decidedBy: Option<string>,
    decidedAt: Option<int>,
    files: seq<ChangeFile>,
    issues: seq<Issue>,
    result: map<string, string>,
    error: Option<string>)

  /** Flow and resource validation, left uninterpreted. */
  type Rules = seq<WorkspaceFile> -> seq<Issue>

  /** What a path holds on the branch when a handler looks it up, left uninterpreted. */
  type Base = string -> Option<string>

  // ---- Paths ----

  datatype Location = Flow(file: string) | Resource(key: string)

  /** Splits at the first `/`. */
  function SplitOnce(s: string): Option<(string, string)> {
    if s == "" then None
    else if s[0] == '/' then Some(("", s[1..]))
    else
      match SplitOnce(s[1..])
      case None => None
      case Some((head, tail)) => Some(([s[0]] + head, tail))
  }

  predicate IsNameChar(c: char) {
    'a' <= c <= 'z' || 'A' <= c <= 'Z' || '0' <= c <= '9' || c == '.' || c == '_' || c == '-'
  }

  /** The first problem of the `/`-separated segments of `rest`, reading `segment` so far. */
  function SegmentError(segment: string, rest: string): Option<PathError>
    decreases |rest|
  {
    if rest != "" && rest[0] != '/' then SegmentError(segment + [rest[0]], rest[1..])
    else if segment == "" then Some(EmptySegment)
    else if segment == "." || segment == ".." then Some(Relative)
    else if exists i :: 0 <= i < |segment| && !IsNameChar(segment[i]) then Some(Characters)
    else if rest == "" then None
    else SegmentError("", rest[1..])
  }

  function Locate(path: string): Result<Location, PathError> {
    match SplitOnce(path)
    case None => Err(Root)
    case Some((head, rest)) =>
      if head != "flows" && head != "resources" then Err(Root)
      else if rest == "" || rest[|rest| - 1] == '/' then Err(NoFileName)
      else if SegmentError("", rest).Some? then Err(SegmentError("", rest).value)
      else if head == "flows" then Ok(Flow(rest))
      else Ok(Resource(rest))
  }

  // ---- check_paths ----

  function Paths(files: seq<WorkspaceFile>): (r: seq<string>) {
    seq(|files|, i requires 0 <= i < |files| => files[i].path)
  }

  ghost predicate Distinct(s: seq<string>) {
    forall i, j | 0 <= i < j < |s| :: s[i] != s[j]
  }

  /** The first file, from index `k`, that cannot be located or repeats an earlier path. */
  function CheckFrom(files: seq<WorkspaceFile>, k: nat): Option<Error>
    requires k <= |files|
    decreases |files| - k
  {
    if k == |files| then None
    else
      match Locate(files[k].path)
      case Err(reason) => Some(InvalidPath(files[k].path, reason))
      case Ok(_) =>
        if files[k].path in Paths(files)[..k] then Some(DuplicatePath(files[k].path))
        else CheckFrom(files, k + 1)
  }

  lemma {:induction false} CheckFromFindsNothing(files: seq<WorkspaceFile>, k: nat)
    requires k <= |files|
    ensures CheckFrom(files, k).None? <==>
      forall i | k <= i < |files| :: Locate(files[i].path).Ok? && files[i].path !in Paths(files)[..i]
    decreases |files| - k
  {
    if k < |files| { CheckFromFindsNothing(files, k + 1); }
  }

  /** The list passes exactly when every path can be located and none repeats. */
  lemma CheckedPathsAreDistinct(files: seq<WorkspaceFile>)
    ensures CheckFrom(files, 0).None? <==>
      (forall i | 0 <= i < |files| :: Locate(files[i].path).Ok?) && Distinct(Paths(files))
  {
    CheckFromFindsNothing(files, 0);
    var ps := Paths(files);
    if Distinct(ps) {
      forall i | 0 <= i < |files| ensures files[i].path !in ps[..i] {
        forall j | 0 <= j < i ensures ps[..i][j] != files[i].path { assert ps[j] != ps[i]; }
      }
    }
    if forall i | 0 <= i < |files| :: files[i].path !in ps[..i] {
      forall i, j | 0 <= i < j < |ps| ensures ps[i] != ps[j] {
        assert ps[..j][i] == ps[i];
      }
    }
  }

  /** A refused list has a first file that cannot be located or repeats an earlier path; the error names it. */
  lemma {:induction false} CheckRefusal(files: seq<WorkspaceFile>, k: nat) returns (i: nat)
    requires k <= |files| && CheckFrom(files, k).Some?
    ensures k <= i < |files|
    ensures forall j | k <= j < i :: Locate(files[j].path).Ok? && files[j].path !in Paths(files)[..j]
    ensures match Locate(files[i].path)
      case Err(reason) => CheckFrom(files, k) == Some(InvalidPath(files[i].path, reason))
      case Ok(_) => files[i].path in Paths(files)[..i] && CheckFrom(files, k) == Some(DuplicatePath(files[i].path))
    decreases |files| - k
  {
    if Locate(files[k].path).Ok? && files[k].path !in Paths(files)[..k] {
      i := CheckRefusal(files, k + 1);
    } else {
      i := k;
    }
  }

  /** The loop of `check_paths`: the locations, or the first problem. */
  method CheckPaths(files: seq<WorkspaceFile>) returns (r: Result<seq<Location>, Error>)
    ensures r.Err? <==> CheckFrom(files, 0).Some?
    ensures r.Err? ==> r.error == CheckFrom(files, 0).value
    ensures r.Ok? ==> |r.value| == |files| && forall i | 0 <= i < |files| :: Locate(files[i].path) == Ok(r.value[i])
  {
    var seen: set<string> := {};
    var locations := [];
    for k := 0 to |files|
      invariant CheckFrom(files, 0) == CheckFrom(files, k)
      invariant seen == set p | p in Paths(files)[..k]
      invariant |locations| == k
      invariant forall i | 0 <= i < k :: Locate(files[i].path) == Ok(locations[i])
    {
      var path := files[k].path;
      match Locate(path) {
        case Err(reason) => return Err(InvalidPath(path, reason));
        case Ok(location) =>
          if path in seen { return Err(DuplicatePath(path)); }
          assert Paths(files)[..k + 1] == Paths(files)[..k] + [path];
          seen := seen + {path};
          locations := locations + [location];
      }
    }
    return Ok(locations);
  }

  // ---- Handlers ----

  function FilePaths(files: seq<ChangeFile>): (r: seq<string>) {
    seq(|files|, i requires 0 <= i < |files| => files[i].path)
  }

  function Contents(files: seq<ChangeFile>): seq<WorkspaceFile> {
    seq(|files|, i requires 0 <= i < |files| => WorkspaceFile(files[i].path, files[i].content))
  }

  datatype Proposal = Proposal(title: string, description: Option<string>, files: seq<WorkspaceFile>)

  function FromProposal(files: seq<WorkspaceFile>, base: Base): seq<ChangeFile> {
    seq(|files|, i requires 0 <= i < |files| =>
      ChangeFile(files[i].path, files[i].content, base(files[i].path)))
  }

  /** The record `propose_change` stores. */
  function ProposedRecord(rules: Rules, authoring: Authoring, caller: Option<Caller>, proposal: Proposal,
                          base: Base, id: string, now: int): Result<Change, Error> {
    if Trim(proposal.title) == "" then Err(MissingTitle)
    else if CheckFrom(proposal.files, 0).Some? then Err(CheckFrom(proposal.files, 0).value)
    else
      match TargetFor(authoring.targets, Paths(proposal.files))
      case Err(error) => Err(error)
      case Ok(target) =>
        Ok(Change(id, target.name, proposal.title, proposal.description, Pending, CallerLabel(caller), now, Some(now),
                  None, None, FromProposal(proposal.files, base), rules(proposal.files), map[], None))
  }

  /** When the change was last edited; records without the field count from their creation. */
  function LastEdit(change: Change): int {
    match change.updatedAt
    case Some(t) => t
    case None => change.createdAt
  }

  function Max(a: int, b: int): int { if a >= b then a else b }

  /** Marks the change edited, always later than its last edit. */
  function Touch(change: Change, now: int): Change {
    change.(updatedAt := Some(Max(now, LastEdit(change) + 1)))
  }

  function EditableError(caller: Option<Caller>, change: Change): Option<Error> {
    if change.status != Pending then Some(Error.NotPending(change.status))
    else if caller.Some? && Label(caller.value) != change.proposedBy then Some(NotProposer)
    else None
  }

  datatype Edit = Edit(title: Option<string>, description: Option<string>)

  function EditedRecord(caller: Option<Caller>, edit: Edit, now: int, change: Change): Result<Change, Error> {
    if EditableError(caller, change).Some? then Err(EditableError(caller, change).value)
    else if edit.title.Some? && Trim(edit.title.value) == "" then Err(MissingTitle)
    else
      var title := if edit.title.Some? then edit.title.value else change.title;
      var description :=
        if edit.description.None? then change.description
        else if Trim(edit.description.value) == "" then None
        else edit.description;
      Ok(Touch(change.(title := title, description := description), now))
  }

  /** Index of `path` in `files`, or `|files|`. */
  function Find(files: seq<ChangeFile>, path: string): (k: nat)
    ensures k <= |files|
    ensures k < |files| ==> files[k].path == path
    ensures forall i | 0 <= i < k :: files[i].path != path
  {
    if files == [] || files[0].path == path then 0 else 1 + Find(files[1..], path)
  }

  /** A known file gets the new content and keeps `previous`; a new one is appended with its base. */
  function Merge1(files: seq<ChangeFile>, file: WorkspaceFile, base: Base): seq<ChangeFile> {
    var k := Find(files, file.path);
    if k < |files| then files[k := files[k].(content := file.content)]
    else files + [ChangeFile(file.path, file.content, base(file.path))]
  }

  function Merge(files: seq<ChangeFile>, body: seq<WorkspaceFile>, base: Base): seq<ChangeFile> {
    if body == [] then files
    else Merge1(Merge(files, body[..|body| - 1], base), body[|body| - 1], base)
  }

  function FilesAddedRecord(rules: Rules, authoring: Authoring, caller: Option<Caller>, body: seq<WorkspaceFile>,
                            base: Base, now: int, change: Change): Result<Change, Error> {
    if EditableError(caller, change).Some? then Err(EditableError(caller, change).value)
    else if CheckFrom(body, 0).Some? then Err(CheckFrom(body, 0).value)
    else
      match TargetFor(authoring.targets, FilePaths(change.files) + Paths(body))
      case Err(error) => Err(error)
      case Ok(target) =>
        if target.name != change.target then Err(TargetChanged(change.target, target.name))
        else
          var files := Merge(change.files, body, base);
          Ok(Touch(change.(files := files, issues := rules(Contents(files))), now))
  }

  const I64_MAX: nat := 0x7FFF_FFFF_FFFF_FFFF

  /** Whether a change may be published at `now`, when publishing may take `timeout` milliseconds. */
  predicate CanPublish(change: Change, timeout: Option<nat>, now: int) {
    match change.status
    case Pending => true
    case Failed => true
    case Publishing =>
      change.decidedAt.None?
      || (timeout.Some? && timeout.value <= I64_MAX && now - change.decidedAt.value > timeout.value)
    case Rejected => false
    case Published => false
  }

  predicate Stalled(change: Change, timeout: Option<nat>, now: int) {
    change.status == Publishing && CanPublish(change, timeout, now)
  }

  /** The record `approve_change` writes; it reads the clock twice, at `now` and `decidedAt`. */
  function ApprovedRecord(authoring: Authoring, caller: Option<Caller>, reviewed: Option<int>, timeout: Option<nat>,
                          now: int, decidedAt: int, change: Change): Result<Change, Error> {
    match StoredTarget(authoring.targets, FilePaths(change.files), change.target)
    case Err(error) => Err(error)
    case Ok(target) =>
      match Decider(caller, authoring, target)
      case Err(error) => Err(error)
      case Ok(_) =>
        if !CanPublish(change, timeout, now) then Err(Error.NotPending(change.status))
        else if reviewed.Some? && change.updatedAt != reviewed then Err(EditedSinceReview)
        else if change.issues != [] then Err(Invalid)
        else Ok(change.(status := Publishing, decidedBy := Some(CallerLabel(caller)), decidedAt := Some(decidedAt),
                        error := None))
  }

  function RejectedRecord(authoring: Authoring, caller: Option<Caller>, now: int, change: Change)
    : Result<Change, Error>
  {
    match StoredTarget(authoring.targets, FilePaths(change.files), change.target)
    case Err(error) => Err(error)
    case Ok(target) =>
      match Decider(caller, authoring, target)
      case Err(error) => Err(error)
      case Ok(_) =>
        if change.status != Pending && change.status != Failed then Err(Error.NotPending(change.status))
        else Ok(change.(status := Rejected, decidedBy := Some(CallerLabel(caller)), decidedAt := Some(now)))
  }

  /** What the publish flow returned, or why it failed. */
  type FlowOutcome = Result<Option<Json>, string>

  function OutcomeRecord(change: Change, outcome: FlowOutcome): Change {
    match outcome
    case Ok(Some(Object(fields))) => change.(status := Published, result := fields)
    case Ok(_) => change.(status := Published, result := map[])
    case Err(reason) => change.(status := Failed, error := Some(reason))
  }

  /** What the publish flow is called with, apart from the author of the commit. */
  datatype PublishRequest = PublishRequest(id: string, target: string, title: string, files: seq<ChangeFile>)

  function RequestOf(change: Change): PublishRequest {
    PublishRequest(change.id, change.target, change.title, change.files)
  }

  // ---- What merging files means ----

  /** Index of the file carrying `path` in `body`, or `|body|`. */
  function FindLast(body: seq<WorkspaceFile>, path: string): (k: nat)
    ensures k <= |body|
    ensures k < |body| ==> body[k].path == path && forall i | k < i < |body| :: body[i].path != path
    ensures k == |body| ==> path !in Paths(body)
  {
    if body == [] then 0
    else
      var n := |body| - 1;
      if body[n].path == path then n
      else
        var k := FindLast(body[..n], path);
        if k == n
        then
          assert forall i | 0 <= i < n :: Paths(body)[i] == Paths(body[..n])[i];
          n + 1
        else
          assert forall i | k < i < n :: body[i] == body[..n][i];
          k
  }

  /** The file a merge leaves at `path`, given the one the change held there, if any. */
  function MergedFile(known: Option<ChangeFile>, body: seq<WorkspaceFile>, path: string, base: Base)
    : Option<ChangeFile>
  {
    var k := FindLast(body, path);
    if k == |body| then known
    else if known.Some? then Some(known.value.(content := body[k].content))
    else Some(ChangeFile(path, body[k].content, base(path)))
  }

  function FileAt(files: seq<ChangeFile>, path: string): Option<ChangeFile> {
    var k := Find(files, path);
    if k < |files| then Some(files[k]) else None
  }

  lemma FindIs(files: seq<ChangeFile>, path: string, k: nat)
    requires k < |files| && files[k].path == path
    requires forall i | 0 <= i < k :: files[i].path != path
    ensures Find(files, path) == k
  {}

  /** Merging one file changes what is held at its path and nowhere else. */
  lemma Merge1At(files: seq<ChangeFile>, file: WorkspaceFile, base: Base, path: string)
    ensures FileAt(Merge1(files, file, base), path) ==
      if path != file.path then FileAt(files, path)
      else match FileAt(files, path)
        case Some(known) => Some(known.(content := file.content))
        case None => Some(ChangeFile(path, file.content, base(path)))
  {
    var merged := Merge1(files, file, base);
    var k, m := Find(files, path), Find(merged, path);
    assert forall i | 0 <= i < |files| :: merged[i].path == files[i].path;
    if k < |files| {
      FindIs(merged, path, k);
    } else if path == file.path {
      FindIs(merged, path, |files|);
    } else {
      assert forall i | 0 <= i < |merged| :: merged[i].path != path;
    }
  }

  lemma Merge1KeepsPrefix(files: seq<ChangeFile>, file: WorkspaceFile, base: Base)
    ensures |Merge1(files, file, base)| >= |files|
    ensures forall i | 0 <= i < |files| ::
      Merge1(files, file, base)[i].path == files[i].path && Merge1(files, file, base)[i].previous == files[i].previous
    ensures Distinct(FilePaths(files)) ==> Distinct(FilePaths(Merge1(files, file, base)))
  {
    var merged := Merge1(files, file, base);
    if Distinct(FilePaths(files)) {
      var ps, qs := FilePaths(files), FilePaths(merged);
      forall i, j | 0 <= i < j < |qs| ensures qs[i] != qs[j] {
        if j < |files| { assert ps[i] != ps[j]; }
      }
    }
  }

  /**
   * Adding files keeps every known file in place with the base recorded when
   * it was first added, gives each named path its new content, records the
   * base of a path only when it is new, and never lists a path twice.
   */
  lemma {:induction false} MergeAt(files: seq<ChangeFile>, body: seq<WorkspaceFile>, base: Base, path: string)
    ensures |Merge(files, body, base)| >= |files|
    ensures forall i | 0 <= i < |files| ::
      && Merge(files, body, base)[i].path == files[i].path
      && Merge(files, body, base)[i].previous == files[i].previous
    ensures Distinct(FilePaths(files)) ==> Distinct(FilePaths(Merge(files, body, base)))
    ensures FileAt(Merge(files, body, base), path) == MergedFile(FileAt(files, path), body, path, base)
  {
    if body != [] {
      var n := |body| - 1;
      var init := body[..n];
      MergeAt(files, init, base, path);
      var before := Merge(files, init, base);
      Merge1At(before, body[n], base, path);
      Merge1KeepsPrefix(before, body[n], base);
    }
  }

  /** The loop of `add_change_files` over the posted files. */
  method AddFiles(files: seq<ChangeFile>, body: seq<WorkspaceFile>, base: Base) returns (merged: seq<ChangeFile>)
    ensures merged == Merge(files, body, base)
  {
    merged := files;
    for k := 0 to |body|
      invariant merged == Merge(files, body[..k], base)
    {
      var file := body[k];
      assert body[..k + 1][..k] == body[..k];
      var known := 0;
      while known < |merged| && merged[known].path != file.path
        invariant 0 <= known <= Find(merged, file.path)
      {
        known := known + 1;
      }
      if known < |merged| {
        merged := merged[known := merged[known].(content := file.content)];
      } else {
        merged := merged + [ChangeFile(file.path, file.content, base(file.path))];
      }
    }
    assert body[..|body|] == body;
  }

  // ---- What a publish outcome makes of a change ----

  /**
   * `settled` is `was` after its flow returned `outcome`: published with the fields of the object returned,
   * if it was one, or failed for the reason given.
   */
  ghost predicate Settles(was: Change, outcome: FlowOutcome, settled: Change) {
    && settled == was.(status := settled.status, result := settled.result, error := settled.error)
    && (settled.status == Published <==> outcome.Ok?)
    && (settled.status == Failed <==> outcome.Err?)
    && (forall reason :: outcome == Err(reason) ==> settled.error == Some(reason) && settled.result == was.result)
    && (outcome.Ok? ==>
         && settled.error == was.error
         && (forall fields :: outcome.value == Some(Object(fields)) ==> settled.result == fields)
         && (outcome.value.None? || outcome.value.value.NotAnObject? ==> settled.result == map[]))
  }

  /** What a publisher records settles the change, and nothing else does. */
  lemma OutcomeSettles(change: Change, outcome: FlowOutcome)
    ensures Settles(change, outcome, OutcomeRecord(change, outcome))
    ensures forall settled :: Settles(change, outcome, settled) ==> settled == OutcomeRecord(change, outcome)
  {}

  // ---- Who may decide, and when ----

  /** The change's own target owns every file now and the caller may decide there. */
  ghost predicate Entitled(authoring: Authoring, caller: Option<Caller>, change: Change) {
    var paths := FilePaths(change.files);
    && paths != []
    && OwnedBy(authoring.targets, paths, change.target)
    && MayDecide(caller, authoring.groupsClaim, TargetOf(authoring.targets, paths[|paths| - 1]).value.approverGroups)
  }

  /** Why someone is not entitled: the files have no owner, have another one, or the owner does not name them. */
  ghost predicate NotEntitled(authoring: Authoring, caller: Option<Caller>, change: Change, error: Error) {
    var paths := FilePaths(change.files);
    if paths == [] || forall name :: !OwnedBy(authoring.targets, paths, name) then error == TargetGone(change.target)
    else if !OwnedBy(authoring.targets, paths, change.target)
    then error.TargetChanged? && error.stored == change.target && OwnedBy(authoring.targets, paths, error.current)
    else
      && caller.Some?
      && error == if caller.value.Key? then UserRequired else NotApprover(caller.value.user.userId)
  }

  /** What both decisions check first comes down to being entitled, and says why not. */
  lemma EntitledMeansAccepted(authoring: Authoring, caller: Option<Caller>, change: Change)
    ensures var target := StoredTarget(authoring.targets, FilePaths(change.files), change.target);
      if Entitled(authoring, caller, change) then target.Ok? && Decider(caller, authoring, target.value).Ok?
      else NotEntitled(authoring, caller, change,
                       if target.Err? then target.error
                       else if Decider(caller, authoring, target.value).Err?
                       then Decider(caller, authoring, target.value).error else NoFiles)
  {
    var paths := FilePaths(change.files);
    var target := StoredTarget(authoring.targets, paths, change.target);
    StoredTargetStillOwnsTheFiles(authoring.targets, paths, change.target);
    TargetForIsTheLastOwner(authoring.targets, paths);
    if target.Ok? {
      DecidersAreNamed(caller, authoring, target.value);
    }
  }

  /** Whether an approval at `now` may start publishing: the status, the wait for a running publisher. */
  ghost predicate Publishable(change: Change, timeout: Option<nat>, now: int) {
    || change.status in {Pending, Failed}
    || (&& change.status == Publishing
        && (|| change.decidedAt == None
            || (timeout.Some? && timeout.value <= I64_MAX && change.decidedAt.value + timeout.value < now)))
  }

  /** A change is stalled exactly when it is in publishing and an approval may start it again. */
  lemma StalledMayBeRetried(change: Change, timeout: Option<nat>, now: int)
    ensures CanPublish(change, timeout, now) <==> Publishable(change, timeout, now)
    ensures Stalled(change, timeout, now) <==> change.status == Publishing && Publishable(change, timeout, now)
  {}

  /**
   * An approval is accepted exactly when the change's own target now owns
   * every file and names the caller, nobody else may still be publishing, it
   * is the version reviewed and it has no issue; it then puts the change in
   * publishing, says who decided when, clears the last failure and changes
   * nothing else.
   */
  lemma ApprovalNeedsOwnership(authoring: Authoring, caller: Option<Caller>, reviewed: Option<int>,
                               timeout: Option<nat>, now: int, decidedAt: int, change: Change)
    ensures ApprovedRecord(authoring, caller, reviewed, timeout, now, decidedAt, change).Ok? <==>
      && change.files != []
      && OwnedBy(authoring.targets, FilePaths(change.files), change.target)
      && Entitled(authoring, caller, change)
      && Publishable(change, timeout, now)
      && (reviewed.None? || change.updatedAt == reviewed)
      && change.issues == []
    ensures ApprovedRecord(authoring, caller, reviewed, timeout, now, decidedAt, change).Ok? ==>
      ApprovedRecord(authoring, caller, reviewed, timeout, now, decidedAt, change).value ==
        change.(status := Publishing, decidedBy := Some(CallerLabel(caller)), decidedAt := Some(decidedAt),
                error := None)
  {
    EntitledMeansAccepted(authoring, caller, change);
    assert change.files == [] <==> FilePaths(change.files) == [];
  }

  /** A refused approval says why: ownership and the right to decide first, then status, version and issues. */
  lemma ApprovalRefusal(authoring: Authoring, caller: Option<Caller>, reviewed: Option<int>,
                        timeout: Option<nat>, now: int, decidedAt: int, change: Change)
    requires ApprovedRecord(authoring, caller, reviewed, timeout, now, decidedAt, change).Err?
    ensures var error := ApprovedRecord(authoring, caller, reviewed, timeout, now, decidedAt, change).error;
      if !Entitled(authoring, caller, change) then NotEntitled(authoring, caller, change, error)
      else if !Publishable(change, timeout, now) then error == Error.NotPending(change.status)
      else if reviewed.Some? && change.updatedAt != reviewed then error == EditedSinceReview
      else change.issues != [] && error == Invalid
  {
    EntitledMeansAccepted(authoring, caller, change);
  }

  /** A rejection is accepted from whoever is entitled, on a pending or failed change, and is final. */
  lemma RejectionNeedsOwnership(authoring: Authoring, caller: Option<Caller>, now: int, change: Change)
    ensures RejectedRecord(authoring, caller, now, change).Ok? <==>
      && change.files != []
      && OwnedBy(authoring.targets, FilePaths(change.files), change.target)
      && Entitled(authoring, caller, change)
      && (change.status == Pending || change.status == Failed)
    ensures RejectedRecord(authoring, caller, now, change).Ok? ==>
      RejectedRecord(authoring, caller, now, change).value ==
        change.(status := Rejected, decidedBy := Some(CallerLabel(caller)), decidedAt := Some(now))
    ensures RejectedRecord(authoring, caller, now, change).Err? ==>
      var error := RejectedRecord(authoring, caller, now, change).error;
      if !Entitled(authoring, caller, change) then NotEntitled(authoring, caller, change, error)
      else error == Error.NotPending(change.status)
  {
    EntitledMeansAccepted(authoring, caller, change);
    assert change.files == [] <==> FilePaths(change.files) == [];
  }

  // ---- Who may propose and edit ----

  /**
   * A proposal is accepted exactly when it has a title, each of its paths can be
   * located and stands once, and one target name owns them all, at least one; it
   * is stored pending under that name, dated now, with each file's base and the
   * issues of exactly these files.
   */
  lemma ProposalNeedsOneOwner(rules: Rules, authoring: Authoring, caller: Option<Caller>, proposal: Proposal,
                              base: Base, id: string, now: int)
    ensures ProposedRecord(rules, authoring, caller, proposal, base, id, now).Ok? <==>
      && !IsBlank(proposal.title)
      && (forall i | 0 <= i < |proposal.files| :: Locate(proposal.files[i].path).Ok?)
      && Distinct(Paths(proposal.files))
      && proposal.files != []
      && exists name :: OwnedBy(authoring.targets, Paths(proposal.files), name)
    ensures ProposedRecord(rules, authoring, caller, proposal, base, id, now).Ok? ==>
      var change := ProposedRecord(rules, authoring, caller, proposal, base, id, now).value;
      && OwnedBy(authoring.targets, Paths(proposal.files), change.target)
      && change.id == id && change.title == proposal.title && change.description == proposal.description
      && change.status == Pending && change.proposedBy == CallerLabel(caller)
      && change.createdAt == now && change.updatedAt == Some(now)
      && change.decidedBy == None && change.decidedAt == None && change.result == map[] && change.error == None
      && change.issues == rules(proposal.files)
      && |change.files| == |proposal.files|
      && forall i | 0 <= i < |change.files| ::
           change.files[i] ==
             ChangeFile(proposal.files[i].path, proposal.files[i].content, base(proposal.files[i].path))
  {
    BlankIsTrimmedEmpty(proposal.title);
    CheckedPathsAreDistinct(proposal.files);
    TargetForOwnsEveryPath(authoring.targets, Paths(proposal.files));
    assert proposal.files == [] <==> Paths(proposal.files) == [];
  }

  /** A refused proposal is told of its blank title, else its first bad path, else the target it lacks. */
  lemma ProposalRefusal(rules: Rules, authoring: Authoring, caller: Option<Caller>, proposal: Proposal, base: Base,
                        id: string, now: int)
    requires ProposedRecord(rules, authoring, caller, proposal, base, id, now).Err?
    ensures var error := ProposedRecord(rules, authoring, caller, proposal, base, id, now).error;
      if IsBlank(proposal.title) then error == MissingTitle
      else if !(&& (forall i | 0 <= i < |proposal.files| :: Locate(proposal.files[i].path).Ok?)
                && Distinct(Paths(proposal.files)))
      then Some(error) == CheckFrom(proposal.files, 0)
      else Err(error) == TargetFor(authoring.targets, Paths(proposal.files))
  {
    BlankIsTrimmedEmpty(proposal.title);
    CheckedPathsAreDistinct(proposal.files);
  }

  /** The proposer, or anyone when nobody signs in, while the change is pending. */
  ghost predicate MayEdit(caller: Option<Caller>, change: Change) {
    change.status == Pending && (caller.None? || Label(caller.value) == change.proposedBy)
  }

  /** What an editor who may not edit is told. */
  ghost predicate NotEditable(change: Change, error: Error) {
    error == if change.status != Pending then Error.NotPending(change.status) else NotProposer
  }

  /** The version of an edit: the clock, or just after the last edit, whichever is later. */
  ghost predicate DatedAfter(before: Change, now: int, after: Change) {
    after.updatedAt == Some(if now > LastEdit(before) then now else LastEdit(before) + 1)
  }

  /**
   * An edit is accepted exactly from the proposer, or from anyone when nobody
   * signs in, on a pending change, unless it blanks the title; it then sets
   * what it names, a blank description clearing it, keeps what it does not
   * name, and is dated at the clock or just after the last edit.
   */
  lemma EditIsByTheProposerOfAPendingChange(caller: Option<Caller>, edit: Edit, now: int, change: Change)
    ensures EditedRecord(caller, edit, now, change).Ok? <==>
      && MayEdit(caller, change)
      && (edit.title.None? || !IsBlank(edit.title.value))
    ensures EditedRecord(caller, edit, now, change).Ok? ==>
      var edited := EditedRecord(caller, edit, now, change).value;
      && (!IsBlank(change.title) ==> !IsBlank(edited.title))
      && (edit.title.Some? ==> edited.title == edit.title.value)
      && (edit.title.None? ==> edited.title == change.title)
      && (edit.description.Some? && IsBlank(edit.description.value) ==> edited.description == None)
      && (edit.description.Some? && !IsBlank(edit.description.value) ==> edited.description == edit.description)
      && (edit.description.None? ==> edited.description == change.description)
      && DatedAfter(change, now, edited)
      && edited == change.(title := edited.title, description := edited.description, updatedAt := edited.updatedAt)
    ensures EditedRecord(caller, edit, now, change).Err? ==>
      if !MayEdit(caller, change) then NotEditable(change, EditedRecord(caller, edit, now, change).error)
      else EditedRecord(caller, edit, now, change).error == MissingTitle
  {
    if edit.title.Some? { BlankIsTrimmedEmpty(edit.title.value); }
    if edit.description.Some? { BlankIsTrimmedEmpty(edit.description.value); }
  }

  /** Every posted path can be located and stands once, and with the known ones belongs to the change's target. */
  ghost predicate MayHold(authoring: Authoring, change: Change, body: seq<WorkspaceFile>) {
    && (forall i | 0 <= i < |body| :: Locate(body[i].path).Ok?)
    && Distinct(Paths(body))
    && FilePaths(change.files) + Paths(body) != []
    && OwnedBy(authoring.targets, FilePaths(change.files) + Paths(body), change.target)
  }

  /** Files are added exactly by an editor, and only files that the change may hold. */
  lemma FilesAreAddedByAnEditor(rules: Rules, authoring: Authoring, caller: Option<Caller>, body: seq<WorkspaceFile>,
                                base: Base, now: int, change: Change)
    ensures FilesAddedRecord(rules, authoring, caller, body, base, now, change).Ok? <==>
      MayEdit(caller, change) && MayHold(authoring, change, body)
  {
    CheckedPathsAreDistinct(body);
    StoredTargetStillOwnsTheFiles(authoring.targets, FilePaths(change.files) + Paths(body), change.target);
  }

  /**
   * Adding files changes nothing else than the files, whose issues are computed
   * anew, and the version: known files stay in place with their bases, each
   * posted path has the content last posted, and every other path what it had.
   */
  lemma AddedFilesAreMerged(rules: Rules, authoring: Authoring, caller: Option<Caller>, body: seq<WorkspaceFile>,
                            base: Base, now: int, change: Change, path: string)
    requires FilesAddedRecord(rules, authoring, caller, body, base, now, change).Ok?
    ensures var added := FilesAddedRecord(rules, authoring, caller, body, base, now, change).value;
      && added == change.(files := added.files, issues := rules(Contents(added.files)), updatedAt := added.updatedAt)
      && DatedAfter(change, now, added)
      && |change.files| <= |added.files|
      && (forall i | 0 <= i < |change.files| ::
            && added.files[i].path == change.files[i].path
            && added.files[i].previous == change.files[i].previous)
      && (Distinct(FilePaths(change.files)) ==> Distinct(FilePaths(added.files)))
      && FileAt(added.files, path) == MergedFile(FileAt(change.files, path), body, path, base)
  {
    MergeAt(change.files, body, base, path);
  }

  /** Refused files get the first thing wrong with the editor, the paths or the target. */
  lemma FilesRefusal(rules: Rules, authoring: Authoring, caller: Option<Caller>, body: seq<WorkspaceFile>,
                     base: Base, now: int, change: Change)
    requires FilesAddedRecord(rules, authoring, caller, body, base, now, change).Err?
    ensures var error := FilesAddedRecord(rules, authoring, caller, body, base, now, change).error;
      if !MayEdit(caller, change) then NotEditable(change, error)
      else if CheckFrom(body, 0).Some? then error == CheckFrom(body, 0).value
      else if TargetFor(authoring.targets, FilePaths(change.files) + Paths(body)).Err?
      then error == TargetFor(authoring.targets, FilePaths(change.files) + Paths(body)).error
      else
        && error.TargetChanged? && error.stored == change.target && error.current != change.target
        && OwnedBy(authoring.targets, FilePaths(change.files) + Paths(body), error.current)
  {
    TargetForOwnsEveryPath(authoring.targets, FilePaths(change.files) + Paths(body));
  }

  /**
   * Once approved at `decidedAt`, a change can be approved again, on a pod that
   * knows the publish timeout, exactly when more than that has passed since;
   * on a pod that does not know it, never.
   */
  lemma PublishingIsRetriedOnlyAfterTheTimeout(authoring: Authoring, caller: Option<Caller>, reviewed: Option<int>,
                                               timeout: Option<nat>, now: int, decidedAt: int, change: Change,
                                               waited: Option<nat>, later: int)
    requires ApprovedRecord(authoring, caller, reviewed, timeout, now, decidedAt, change).Ok?
    ensures var approved := ApprovedRecord(authoring, caller, reviewed, timeout, now, decidedAt, change).value;
      && approved.decidedBy == Some(CallerLabel(caller))
      && (CanPublish(approved, waited, later) <==>
            waited.Some? && waited.value <= I64_MAX && later > decidedAt + waited.value)
      && (Stalled(approved, waited, later) <==> CanPublish(approved, waited, later))
  {}
}
