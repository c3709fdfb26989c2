/**
 * The handlers as they run: each loads a record, changes its own copy in place
 * and writes it back through the compare-and-swap store.
 */
module ChangeStore {
  import opened Prelude
  import opened Targets
  import opened Changes
  import opened Lifecycle

  datatype CacheError = RevisionMismatch | KeyNotFound | Unavailable

  /** A revisioned key-value store; `reply` says what becomes of an update and its answer. */
  class Store {
    var records: map<string, Stored>

    constructor ()
      ensures records == map[]
    {
      records := map[];
    }

    method GetWithRevision(id: string) returns (r: Option<Stored>)
      ensures r.Some? <==> id in records
      ensures r.Some? ==> r.value == records[id]
    {
      if id in records { r := Some(records[id]); } else { r := None; }
    }

    /** `update`: writes only over `expected`; a lost reply hides that it was applied. */
    method Update(id: string, change: Change, expected: nat, next: nat, reply: Reply)
      returns (r: Result<nat, CacheError>)
      modifies this
      ensures var taken := reply != FailedBeforeApplying && id in old(records) && old(records[id].revision) == expected;
        && records == (if taken then old(records)[id := Stored(change, next)] else old(records))
        && (r.Ok? <==> taken && reply == Delivered)
        && (r.Ok? ==> r.value == next)
      ensures r == Err(RevisionMismatch) <==>
        reply == Delivered && id in old(records) && old(records[id].revision) != expected
    {
      if reply == FailedBeforeApplying { return Err(Unavailable); }
      if id !in records { return Err(KeyNotFound); }
      if records[id].revision != expected {
        return if reply == Delivered then Err(RevisionMismatch) else Err(Unavailable);
      }
      records := records[id := Stored(change, next)];
      return if reply == Delivered then Ok(next) else Err(Unavailable);
    }
  }

  /** `transition`: a mismatch means someone wrote first, anything else is a store error. */
  method Transition(store: Store, id: string, change: Change, expected: nat, next: nat, reply: Reply)
    returns (r: Result<nat, Error>)
    modifies store
    ensures
      var taken :=
        reply != FailedBeforeApplying && id in old(store.records) && old(store.records[id].revision) == expected;
      && store.records == (if taken then old(store.records)[id := Stored(change, next)] else old(store.records))
      && (r.Ok? <==> taken && reply == Delivered)
      && (r.Ok? ==> r.value == next)
    ensures r == Err(Concurrent) <==>
      reply == Delivered && id in old(store.records) && old(store.records[id].revision) != expected
    ensures r.Err? ==> r.error in {Concurrent, Error.Store}
  {
    var updated := store.Update(id, change, expected, next, reply);
    match updated
    case Ok(revision) => return Ok(revision);
    case Err(RevisionMismatch) => return Err(Concurrent);
    case Err(_) => return Err(Error.Store);
  }

  method Load(store: Store, id: string) returns (r: Result<Stored, Error>)
    ensures r == if id in store.records then Ok(store.records[id]) else Err(NotFound(id))
  {
    var stored := store.GetWithRevision(id);
    match stored
    case Some(s) => return Ok(s);
    case None => return Err(NotFound(id));
  }

  /** The world after a handler's two steps. */
  function AfterHandler(rules: Rules, w: World, actor: nat, id: string, request: Request, next: nat, reply: Reply)
    : World
  {
    Next(rules, Next(rules, w, Step.Load(actor, id, request)), Step.Update(actor, next, reply))
  }

  /** What a handler run leaves in the store is what its two steps leave in a world holding the same records. */
  ghost predicate AsSteps(rules: Rules, w: World, actor: nat, id: string, request: Request, next: nat, reply: Reply,
                          records: map<string, Stored>)
  {
    records == AfterHandler(rules, w, actor, id, request, next, reply).records
  }

  /** The two steps write the request's record, unless there is none or the store fails first. */
  lemma StepsOfAHandler(rules: Rules, w: World, actor: nat, id: string, request: Request, next: nat, reply: Reply)
    requires actor !in w.sessions && (id in w.records ==> w.records[id].revision < next)
    ensures AfterHandler(rules, w, actor, id, request, next, reply).records ==
      if id in w.records && RecordFor(rules, request, w.records[id].change).Ok? && reply != FailedBeforeApplying
      then w.records[id := Stored(RecordFor(rules, request, w.records[id].change).value, next)] else w.records
  {}

  /** The answer of a handler that loaded a stored record and wrote `record`. */
  ghost predicate Answers(record: Result<Change, Error>, reply: Reply, r: Result<Change, Error>) {
    if record.Err? || reply == Delivered then r == record else r == Err(Error.Store)
  }

  /** The part of `edit_change` between loading the record and writing it. */
  method WithEdit(caller: Option<Caller>, edit: Edit, now: int, loaded: Change) returns (r: Result<Change, Error>)
    ensures r == EditedRecord(caller, edit, now, loaded)
  {
    var change := loaded;
    if change.status != Status.Pending { return Err(Error.NotPending(change.status)); }
    if caller.Some? && Label(caller.value) != change.proposedBy { return Err(NotProposer); }
    match edit.title {
      case Some(title) =>
        if Trim(title) == "" { return Err(MissingTitle); }
        change := change.(title := title);
      case None =>
    }
    match edit.description {
      case Some(description) =>
        change := change.(description := if Trim(description) == "" then None else Some(description));
      case None =>
    }
    change := Touch(change, now);
    return Ok(change);
  }

  /** `PATCH /api/changes/{id}`. */
  method EditChange(store: Store, rules: Rules, id: string, caller: Option<Caller>, edit: Edit, now: int,
                    next: nat, reply: Reply, ghost w: World, ghost actor: nat)
    returns (r: Result<Change, Error>)
    requires w.records == store.records && actor !in w.sessions
    requires id in store.records ==> store.records[id].revision < next
    modifies store
    ensures AsSteps(rules, w, actor, id, EditRequest(caller, edit, now), next, reply, store.records)
    ensures id !in w.records ==> r == Err(NotFound(id))
    ensures id in w.records ==> Answers(EditedRecord(caller, edit, now, w.records[id].change), reply, r)
  {
    StepsOfAHandler(rules, w, actor, id, EditRequest(caller, edit, now), next, reply);
    var loaded := Load(store, id);
    if loaded.Err? { return Err(loaded.error); }
    var change := WithEdit(caller, edit, now, loaded.value.change);
    if change.Err? { return change; }
    var written := Transition(store, id, change.value, loaded.value.revision, next, reply);
    return if written.Ok? then change else Err(written.error);
  }

  /** The part of `add_change_files` between loading the record and writing it. */
  method WithFiles(rules: Rules, authoring: Authoring, caller: Option<Caller>, loaded: Change, body: seq<WorkspaceFile>,
                   base: Base, now: int)
    returns (r: Result<Change, Error>)
    ensures r == FilesAddedRecord(rules, authoring, caller, body, base, now, loaded)
  {
    var change := loaded;
    if change.status != Status.Pending { return Err(Error.NotPending(change.status)); }
    if caller.Some? && Label(caller.value) != change.proposedBy { return Err(NotProposer); }
    var locations := CheckPaths(body);
    if locations.Err? { return Err(locations.error); }
    var target := FindTargetFor(authoring.targets, FilePaths(change.files) + Paths(body));
    if target.Err? { return Err(target.error); }
    if target.value.name != change.target { return Err(TargetChanged(change.target, target.value.name)); }
    var files := AddFiles(change.files, body, base);
    change := change.(files := files);
    change := change.(issues := rules(Contents(files)));
    change := Touch(change, now);
    return Ok(change);
  }

  /** `POST /api/changes/{id}/files`. */
  method AddChangeFiles(store: Store, rules: Rules, authoring: Authoring, id: string, caller: Option<Caller>,
                        body: seq<WorkspaceFile>, base: Base, now: int, next: nat, reply: Reply,
                        ghost w: World, ghost actor: nat)
    returns (r: Result<Change, Error>)
    requires w.records == store.records && actor !in w.sessions
    requires id in store.records ==> store.records[id].revision < next
    modifies store
    ensures AsSteps(rules, w, actor, id, FilesRequest(authoring, caller, body, base, now), next, reply, store.records)
    ensures id !in w.records ==> r == Err(NotFound(id))
    ensures id in w.records ==>
      Answers(FilesAddedRecord(rules, authoring, caller, body, base, now, w.records[id].change), reply, r)
  {
    StepsOfAHandler(rules, w, actor, id, FilesRequest(authoring, caller, body, base, now), next, reply);
    var loaded := Load(store, id);
    if loaded.Err? { return Err(loaded.error); }
    var change := WithFiles(rules, authoring, caller, loaded.value.change, body, base, now);
    if change.Err? { return change; }
    var written := Transition(store, id, change.value, loaded.value.revision, next, reply);
    return if written.Ok? then change else Err(written.error);
  }

  /** The part of `approve_change` between loading the record and writing it. */
  method Approve(authoring: Authoring, caller: Option<Caller>, reviewed: Option<int>, timeout: Option<nat>, now: int,
                 decidedAt: int, loaded: Change)
    returns (r: Result<Change, Error>)
    ensures r == ApprovedRecord(authoring, caller, reviewed, timeout, now, decidedAt, loaded)
  {
    var change := loaded;
    var target := StoredTarget(authoring.targets, FilePaths(change.files), change.target);
    if target.Err? { return Err(target.error); }
    var user := Decider(caller, authoring, target.value);
    if user.Err? { return Err(user.error); }
    if !CanPublish(change, timeout, now) { return Err(Error.NotPending(change.status)); }
    if reviewed.Some? && change.updatedAt != reviewed { return Err(EditedSinceReview); }
    if change.issues != [] { return Err(Invalid); }
    change := change.(status := Publishing);
    change := change.(decidedBy := Some(CallerLabel(caller)));
    change := change.(decidedAt := Some(decidedAt));
    change := change.(error := None);
    return Ok(change);
  }

  /**
   * `POST /api/changes/{id}/approve` up to spawning the publisher, which gets
   * the record and the revision it was written at.
   */
  method ApproveChange(store: Store, rules: Rules, authoring: Authoring, id: string, caller: Option<Caller>,
                       reviewed: Option<int>, timeout: Option<nat>, now: int, decidedAt: int, next: nat, reply: Reply,
                       ghost w: World, ghost actor: nat)
    returns (r: Result<Stored, Error>)
    requires w.records == store.records && actor !in w.sessions
    requires id in store.records ==> store.records[id].revision < next
    modifies store
    ensures AsSteps(rules, w, actor, id, ApproveRequest(authoring, caller, reviewed, timeout, now, decidedAt), next,
                    reply, store.records)
    ensures r.Ok? ==> id in store.records && store.records[id] == r.value && r.value.revision == next
    ensures id !in w.records ==> r == Err(NotFound(id))
    ensures id in w.records ==>
      Answers(ApprovedRecord(authoring, caller, reviewed, timeout, now, decidedAt, w.records[id].change), reply,
              if r.Ok? then Ok(r.value.change) else Err(r.error))
  {
    StepsOfAHandler(rules, w, actor, id, ApproveRequest(authoring, caller, reviewed, timeout, now, decidedAt), next,
                    reply);
    var loaded := Load(store, id);
    if loaded.Err? { return Err(loaded.error); }
    var change := Approve(authoring, caller, reviewed, timeout, now, decidedAt, loaded.value.change);
    if change.Err? { return Err(change.error); }
    var written := Transition(store, id, change.value, loaded.value.revision, next, reply);
    return if written.Ok? then Ok(Stored(change.value, written.value)) else Err(written.error);
  }

  /** The part of `reject_change` between loading the record and writing it. */
  method Reject(authoring: Authoring, caller: Option<Caller>, now: int, loaded: Change)
    returns (r: Result<Change, Error>)
    ensures r == RejectedRecord(authoring, caller, now, loaded)
  {
    var change := loaded;
    var target := StoredTarget(authoring.targets, FilePaths(change.files), change.target);
    if target.Err? { return Err(target.error); }
    var user := Decider(caller, authoring, target.value);
    if user.Err? { return Err(user.error); }
    if change.status != Status.Pending && change.status != Failed { return Err(Error.NotPending(change.status)); }
    change := change.(status := Rejected);
    change := change.(decidedBy := Some(CallerLabel(caller)));
    change := change.(decidedAt := Some(now));
    return Ok(change);
  }

  /** `POST /api/changes/{id}/reject`. */
  method RejectChange(store: Store, rules: Rules, authoring: Authoring, id: string, caller: Option<Caller>, now: int,
                      next: nat, reply: Reply, ghost w: World, ghost actor: nat)
    returns (r: Result<Change, Error>)
    requires w.records == store.records && actor !in w.sessions
    requires id in store.records ==> store.records[id].revision < next
    modifies store
    ensures AsSteps(rules, w, actor, id, RejectRequest(authoring, caller, now), next, reply, store.records)
    ensures id !in w.records ==> r == Err(NotFound(id))
    ensures id in w.records ==> Answers(RejectedRecord(authoring, caller, now, w.records[id].change), reply, r)
  {
    StepsOfAHandler(rules, w, actor, id, RejectRequest(authoring, caller, now), next, reply);
    var loaded := Load(store, id);
    if loaded.Err? { return Err(loaded.error); }
    var change := Reject(authoring, caller, now, loaded.value.change);
    if change.Err? { return change; }
    var written := Transition(store, id, change.value, loaded.value.revision, next, reply);
    return if written.Ok? then change else Err(written.error);
  }

  /**
   * One attempt of a publisher to record its outcome, in whatever state it finds the store: one `Update`
   * step of its `Recording` session, which goes on exactly when the attempt is to be repeated.
   */
  method RecordOnce(store: Store, id: string, outcome: Change, revision: nat, next: nat, reply: Reply,
                    ghost rules: Rules, ghost w: World, ghost actor: nat, ghost flow: FlowOutcome)
    returns (r: Result<nat, Error>)
    requires w.records == store.records && revision < next
    requires actor in w.sessions && w.sessions[actor] == Recording(id, outcome, revision, flow)
    modifies store
    ensures var taken := reply != FailedBeforeApplying && id in w.records && w.records[id].revision == revision;
      && store.records == (if taken then w.records[id := Stored(outcome, next)] else w.records)
      && (r.Ok? <==> taken && reply == Delivered)
    ensures r.Err? ==> r.error in {Concurrent, Error.Store}
    ensures r == Err(Concurrent) <==> reply == Delivered && id in w.records && w.records[id].revision != revision
    ensures var after := Next(rules, w, Step.Update(actor, next, reply));
      && store.records == after.records
      && (r == Err(Error.Store) <==> actor in after.sessions)
      && (r == Err(Error.Store) ==> after.sessions == w.sessions)
  {
    r := Transition(store, id, outcome, revision, next, reply);
    assert Recording(id, outcome, revision, flow) == w.sessions[actor];
  }

  /** The publisher's steps once its flow has returned. */
  function PublishSteps(actor: nat, outcome: FlowOutcome, attempts: seq<(nat, Reply)>): seq<Step> {
    if attempts == [] then [FlowReturns(actor, outcome)]
    else
      var last := attempts[|attempts| - 1];
      PublishSteps(actor, outcome, attempts[..|attempts| - 1]) + [Step.Update(actor, last.0, last.1)]
  }

  /** The world after the flow's return and the first `k` attempts. */
  function Attempted(rules: Rules, w: World, actor: nat, outcome: FlowOutcome, attempts: seq<(nat, Reply)>, k: nat)
    : World
    requires k <= |attempts|
  {
    Run(rules, w, PublishSteps(actor, outcome, attempts[..k]))
  }

  lemma NothingAttempted(rules: Rules, w: World, actor: nat, outcome: FlowOutcome, attempts: seq<(nat, Reply)>)
    requires actor in w.sessions && w.sessions[actor].Calling?
    ensures var now, s := Attempted(rules, w, actor, outcome, attempts, 0), w.sessions[actor];
      && now.records == w.records && actor in now.sessions
      && now.sessions[actor] == Recording(s.id, OutcomeRecord(s.approved, outcome), s.revision, outcome)
  {
    var steps := [FlowReturns(actor, outcome)];
    assert attempts[..0] == [] && steps[..0] == [];
    assert Run(rules, w, steps) == Next(rules, w, FlowReturns(actor, outcome));
  }

  lemma OneMoreAttempt(rules: Rules, w: World, actor: nat, outcome: FlowOutcome, attempts: seq<(nat, Reply)>, k: nat)
    requires k < |attempts|
    ensures Attempted(rules, w, actor, outcome, attempts, k + 1) ==
      Next(rules, Attempted(rules, w, actor, outcome, attempts, k), Step.Update(actor, attempts[k].0, attempts[k].1))
  {
    assert attempts[..k + 1][..k] == attempts[..k];
    var before, step := PublishSteps(actor, outcome, attempts[..k]), Step.Update(actor, attempts[k].0, attempts[k].1);
    assert PublishSteps(actor, outcome, attempts[..k + 1]) == before + [step];
    assert (before + [step])[..|before|] == before;
  }

  /** Attempts of a publisher that is through change nothing. */
  lemma {:induction false} AttemptsEnd(rules: Rules, w: World, actor: nat, outcome: FlowOutcome,
                                       attempts: seq<(nat, Reply)>, k: nat)
    requires k <= |attempts| && actor !in Attempted(rules, w, actor, outcome, attempts, k).sessions
    ensures Run(rules, w, PublishSteps(actor, outcome, attempts)) == Attempted(rules, w, actor, outcome, attempts, k)
    decreases |attempts| - k
  {
    if k == |attempts| {
      assert attempts[..k] == attempts;
    } else {
      OneMoreAttempt(rules, w, actor, outcome, attempts, k);
      AttemptsEnd(rules, w, actor, outcome, attempts, k + 1);
    }
  }

  /** Nothing was written, or one of the first `k` attempts wrote over the approval. */
  ghost predicate WrittenOnce(before: map<string, Stored>, after: map<string, Stored>, id: string, outcome: Change,
                              revision: nat, attempts: seq<(nat, Reply)>, k: nat)
    requires k <= |attempts|
  {
    || after == before
    || exists i ::
         && 0 <= i < k && attempts[i].1 != FailedBeforeApplying
         && id in before && before[id].revision == revision
         && after == before[id := Stored(outcome, attempts[i].0)]
  }

  /** The retry loop of `publish`. */
  method Record(store: Store, id: string, outcome: Change, revision: nat, attempts: seq<(nat, Reply)>,
                ghost rules: Rules, ghost w: World, ghost actor: nat, ghost returned: FlowOutcome)
    returns (r: Result<nat, Error>)
    requires forall i | 0 <= i < |attempts| :: revision < attempts[i].0
    requires var now := Attempted(rules, w, actor, returned, attempts, 0);
      && now.records == store.records && actor in now.sessions
      && now.sessions[actor] == Recording(id, outcome, revision, returned)
    modifies store
    ensures var after := Run(rules, w, PublishSteps(actor, returned, attempts));
      store.records == after.records && (r == Err(Error.Store) <==> actor in after.sessions)
    ensures r.Err? ==> r.error in {Concurrent, Error.Store}
    ensures WrittenOnce(old(store.records), store.records, id, outcome, revision, attempts, |attempts|)
    ensures store.records == old(store.records) && id in store.records && store.records[id].revision == revision ==>
      r == Err(Error.Store) && forall i | 0 <= i < |attempts| :: attempts[i].1 == FailedBeforeApplying
  {
    ghost var now := Attempted(rules, w, actor, returned, attempts, 0);
    for k := 0 to |attempts|
      invariant now == Attempted(rules, w, actor, returned, attempts, k) && store.records == now.records
      invariant actor in now.sessions && now.sessions[actor] == Recording(id, outcome, revision, returned)
      invariant WrittenOnce(old(store.records), store.records, id, outcome, revision, attempts, k)
      invariant store.records == old(store.records) && id in store.records && store.records[id].revision == revision ==>
        forall i | 0 <= i < k :: attempts[i].1 == FailedBeforeApplying
    {
      OneMoreAttempt(rules, w, actor, returned, attempts, k);
      r := RecordOnce(store, id, outcome, revision, attempts[k].0, attempts[k].1, rules, now, actor, returned);
      now := Attempted(rules, w, actor, returned, attempts, k + 1);
      if r != Err(Error.Store) {
        AttemptsEnd(rules, w, actor, returned, attempts, k + 1);
        return;
      }
    }
    assert attempts[..|attempts|] == attempts;
    r := Err(Error.Store);
  }

  /**
   * `publish` once the flow has returned: records the outcome over the
   * approval's record, retrying store errors while `attempts`, the revisions
   * and replies the store would give, last. It leaves what the steps of its
   * session leave. However the attempts go, the outcome is written at most
   * once, and only over that very revision.
   */
  method Publish(store: Store, id: string, approved: Change, revision: nat, outcome: FlowOutcome,
                 attempts: seq<(nat, Reply)>, ghost rules: Rules, ghost w: World, ghost actor: nat)
    returns (r: Result<Change, Error>)
    requires forall i | 0 <= i < |attempts| :: revision < attempts[i].0
    requires w.records == store.records
    requires actor in w.sessions && w.sessions[actor] == Calling(id, approved, revision)
    modifies store
    ensures store.records == Run(rules, w, PublishSteps(actor, outcome, attempts)).records
    ensures r.Ok? <==> actor !in Run(rules, w, PublishSteps(actor, outcome, attempts)).sessions
    ensures r.Ok? ==> Settles(approved, outcome, r.value)
    ensures r.Ok? ==>
      && (r.value.status == Published <==> outcome.Ok?)
      && (r.value.status == Failed <==> outcome.Err?)
    ensures r.Err? ==> r.error == Error.Store
    ensures exists settled ::
      && Settles(approved, outcome, settled)
      && WrittenOnce(old(store.records), store.records, id, settled, revision, attempts, |attempts|)
    ensures
      (&& id in old(store.records) && old(store.records[id].revision) == revision
       && (r.Ok? || exists i :: 0 <= i < |attempts| && attempts[i].1 != FailedBeforeApplying))
      ==> store.records != old(store.records)
  {
    var change := approved;
    match outcome {
      case Ok(result) =>
        change := change.(status := Published);
        change := change.(result := match result case Some(Object(fields)) => fields case _ => map[]);
      case Err(reason) =>
        change := change.(status := Failed);
        change := change.(error := Some(reason));
    }
    assert change == OutcomeRecord(approved, outcome);
    OutcomeSettles(approved, outcome);
    NothingAttempted(rules, w, actor, outcome, attempts);
    var recorded := Record(store, id, change, revision, attempts, rules, w, actor, outcome);
    match recorded {
      case Ok(_) => return Ok(change);
      case Err(Concurrent) => return Ok(change);
      case Err(error) => return Err(error);
    }
  }
}
