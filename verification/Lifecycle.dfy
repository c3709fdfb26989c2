/**
 * Every interleaving of proposers, editors, approvers, rejecters and publishers
 * over the compare-and-swap store that holds the changes.
 */
module Lifecycle {
  import opened Prelude
  import opened Targets
  import opened Changes

  // ---- The world ----

  datatype Stored = Stored(change: Change, revision: nat)

  /**
   * Why a record was written: an approval with the version reviewed, if named, an outcome with its
   * approval's revision and what the publish flow returned.
   */
  datatype Kind =
    | Existing
    | Proposed
    | Edited
    | FilesAdded
    | Approved(reviewed: Option<int>)
    | Rejecting
    | Outcome(approval: nat, flow: FlowOutcome)

  datatype Write = Write(kind: Kind, change: Change, revision: nat)

  /** What one handler or publisher is in the middle of. */
  datatype Session =
    | Writing(id: string, kind: Kind, change: Change, expected: nat)  // loaded, about to update
    | Calling(id: string, approved: Change, revision: nat)           // running the publish flow
    | Recording(id: string, outcome: Change, revision: nat, flow: FlowOutcome)  // writing the flow's outcome

  /** `history` lists every write of a key, oldest first; nothing in the code reads it. */
  datatype World = World(records: map<string, Stored>, sessions: map<nat, Session>, history: map<string, seq<Write>>)

  /** The part of a handler between loading a record and writing it. */
  datatype Request =
    | EditRequest(caller: Option<Caller>, edit: Edit, now: int)
    | FilesRequest(authoring: Authoring, caller: Option<Caller>, body: seq<WorkspaceFile>, base: Base, now: int)
    | ApproveRequest(authoring: Authoring, caller: Option<Caller>, reviewed: Option<int>, timeout: Option<nat>,
                     now: int, decidedAt: int)
    | RejectRequest(authoring: Authoring, caller: Option<Caller>, now: int)

  function KindOf(request: Request): Kind {
    match request
    case EditRequest(_, _, _) => Edited
    case FilesRequest(_, _, _, _, _) => FilesAdded
    case ApproveRequest(_, _, reviewed, _, _, _) => Approved(reviewed)
    case RejectRequest(_, _, _) => Rejecting
  }

  function RecordFor(rules: Rules, request: Request, change: Change): Result<Change, Error> {
    match request
    case EditRequest(caller, edit, now) => EditedRecord(caller, edit, now, change)
    case FilesRequest(authoring, caller, body, base, now) =>
      FilesAddedRecord(rules, authoring, caller, body, base, now, change)
    case ApproveRequest(authoring, caller, reviewed, timeout, now, decidedAt) =>
      ApprovedRecord(authoring, caller, reviewed, timeout, now, decidedAt, change)
    case RejectRequest(authoring, caller, now) => RejectedRecord(authoring, caller, now, change)
  }

  /** How the reply to an update arrives: an error may hide an update that was applied. */
  datatype Reply = Delivered | LostAfterApplying | FailedBeforeApplying

  datatype Step =
    | Propose(id: string, authoring: Authoring, caller: Option<Caller>, proposal: Proposal, base: Base, now: int,
              revision: nat)
    | Load(actor: nat, id: string, request: Request)
    | Update(actor: nat, next: nat, reply: Reply)
    | FlowReturns(actor: nat, outcome: FlowOutcome)
    | Stop(actor: nat)  // the client disconnects, the pod dies or the retries run out

  // ---- Steps ----

  function Append(history: map<string, seq<Write>>, id: string, write: Write): map<string, seq<Write>> {
    history[id := (if id in history then history[id] else []) + [write]]
  }

  function Put(w: World, id: string, write: Write): World {
    w.(records := w.records[id := Stored(write.change, write.revision)], history := Append(w.history, id, write))
  }

  function Leave(w: World, actor: nat): World {
    w.(sessions := w.sessions - {actor})
  }

  function Enter(w: World, actor: nat, session: Session): World {
    w.(sessions := w.sessions[actor := session])
  }

  /** The key, kind, record and expected revision a session is about to write. */
  function PendingWrite(session: Session): Option<(string, Kind, Change, nat)> {
    match session
    case Writing(id, kind, change, expected) => Some((id, kind, change, expected))
    case Calling(_, _, _) => None
    case Recording(id, outcome, revision, flow) => Some((id, Outcome(revision, flow), outcome, revision))
  }

  /**
   * Where a session goes after its update: an applied approval starts the publisher, a publisher
   * retries store errors.
   */
  function AfterUpdate(w: World, actor: nat, session: Session, applied: bool, next: nat, reply: Reply): World {
    match session
    case Writing(id, kind, change, _) =>
      if applied && reply == Delivered && kind.Approved? then Enter(w, actor, Calling(id, change, next))
      else Leave(w, actor)
    case Calling(_, _, _) => w
    case Recording(_, _, _, _) => if reply == Delivered then Leave(w, actor) else w
  }

  function UpdateStep(w: World, actor: nat, session: Session, next: nat, reply: Reply): World {
    match PendingWrite(session)
    case None => w
    case Some((id, kind, change, expected)) =>
      if reply == FailedBeforeApplying then AfterUpdate(w, actor, session, false, next, reply)
      else if id !in w.records then AfterUpdate(w, actor, session, false, next, LostAfterApplying)
      else if w.records[id].revision != expected then AfterUpdate(w, actor, session, false, next, reply)
      else if next <= expected then w  // not a revision the store could assign
      else AfterUpdate(Put(w, id, Write(kind, change, next)), actor, session, true, next, reply)
  }

  /** One atomic step; a step that is not enabled leaves the world as it is. */
  function Next(rules: Rules, w: World, step: Step): World {
    match step
    case Propose(id, authoring, caller, proposal, base, now, revision) =>
      if id in w.records then w  // ids are freshly generated
      else (
        match ProposedRecord(rules, authoring, caller, proposal, base, id, now)
        case Err(_) => w
        case Ok(change) => Put(w, id, Write(Proposed, change, revision)))
    case Load(actor, id, request) =>
      if actor in w.sessions || id !in w.records then w
      else (
        match RecordFor(rules, request, w.records[id].change)
        case Err(_) => w
        case Ok(change) => Enter(w, actor, Writing(id, KindOf(request), change, w.records[id].revision)))
    case Update(actor, next, reply) =>
      if actor in w.sessions then UpdateStep(w, actor, w.sessions[actor], next, reply) else w
    case FlowReturns(actor, outcome) =>
      if actor in w.sessions && w.sessions[actor].Calling?
      then
        var s := w.sessions[actor];
        Enter(w, actor, Recording(s.id, OutcomeRecord(s.approved, outcome), s.revision, outcome))
      else w
    case Stop(actor) => Leave(w, actor)
  }

  function Run(rules: Rules, w: World, steps: seq<Step>): World
    decreases |steps|
  {
    if steps == [] then w else Next(rules, Run(rules, w, steps[..|steps| - 1]), steps[|steps| - 1])
  }

  /** The store as it was found: records of earlier runs, which list each path once, and nobody at work. */
  ghost predicate Init(w: World) {
    && w.sessions == map[]
    && w.history.Keys == w.records.Keys
    && forall id | id in w.records ::
         && w.history[id] == [Write(Existing, w.records[id].change, w.records[id].revision)]
         && w.records[id].change.id == id
         && Distinct(FilePaths(w.records[id].change.files))
  }

  ghost predicate Reachable(rules: Rules, w: World) {
    exists start, steps :: Init(start) && w == Run(rules, start, steps)
  }

  // ---- What each write may do to the one before it ----

  /** The files and text a reviewer reads, the target deciding who reviews, and the proposer. */
  datatype Content = Content(target: string, title: string, description: Option<string>, files: seq<ChangeFile>,
                             issues: seq<Issue>, proposedBy: string)

  function ContentOf(c: Change): Content {
    Content(c.target, c.title, c.description, c.files, c.issues, c.proposedBy)
  }

  ghost predicate KeepsFiles(before: seq<ChangeFile>, after: seq<ChangeFile>) {
    && |before| <= |after|
    && forall i | 0 <= i < |before| :: after[i].path == before[i].path && after[i].previous == before[i].previous
  }

  /** `change` may be written as `kind` over the record `prev`. */
  ghost predicate Follows(rules: Rules, prev: Write, kind: Kind, change: Change) {
    var was := prev.change;
    && change.id == was.id
    && (Distinct(FilePaths(was.files)) ==> Distinct(FilePaths(change.files)))
    && match kind
       case Existing => false
       case Proposed => false
       case Edited =>
         && was.status == Pending
         && change.updatedAt.Some? && LastEdit(was) < change.updatedAt.value
         && change == was.(title := change.title, description := change.description, updatedAt := change.updatedAt)
       case FilesAdded =>
         && was.status == Pending
         && change.updatedAt.Some? && LastEdit(was) < change.updatedAt.value
         && change == was.(files := change.files, issues := rules(Contents(change.files)),
                          updatedAt := change.updatedAt)
         && KeepsFiles(was.files, change.files)
       case Approved(reviewed) =>
         && was.status in {Pending, Failed, Publishing}
         && (reviewed.None? || was.updatedAt == reviewed)
         && was.issues == []
         && change == was.(status := Publishing, decidedBy := change.decidedBy, decidedAt := change.decidedAt,
                          error := None)
       case Rejecting =>
         && was.status in {Pending, Failed}
         && change == was.(status := Rejected, decidedBy := change.decidedBy, decidedAt := change.decidedAt)
       case Outcome(approval, flow) =>
         && prev.kind.Approved? && prev.revision == approval && was.status == Publishing
         && Settles(was, flow, change)
  }

  ghost predicate GoodHistory(rules: Rules, h: seq<Write>) {
    && |h| > 0
    && h[0].kind in {Existing, Proposed}
    && Distinct(FilePaths(h[0].change.files))
    && (h[0].kind == Proposed ==>
      h[0].change.status == Pending && h[0].change.issues == rules(Contents(h[0].change.files)))
    && (h[0].kind == Existing || h[0].change.updatedAt.Some?)
    && forall k | 0 < k < |h| ::
         h[k - 1].revision < h[k].revision && Follows(rules, h[k - 1], h[k].kind, h[k].change)
  }

  /** Some write at `revision` is one that `change` may be written over. */
  ghost predicate Grounded(rules: Rules, h: seq<Write>, revision: nat, kind: Kind, change: Change) {
    exists k :: 0 <= k < |h| && h[k].revision == revision && Follows(rules, h[k], kind, change)
  }

  ghost predicate ApprovedAt(h: seq<Write>, approved: Change, revision: nat) {
    exists k :: 0 <= k < |h| && h[k].kind.Approved? && h[k].change == approved && h[k].revision == revision
  }

  ghost predicate GoodSession(rules: Rules, w: World, session: Session) {
    session.id in w.history &&
    match session
    case Writing(id, kind, change, expected) => !kind.Outcome? && Grounded(rules, w.history[id], expected, kind, change)
    case Calling(id, approved, revision) =>
      ApprovedAt(w.history[id], approved, revision) && approved.status == Publishing
    case Recording(id, outcome, revision, flow) =>
      Grounded(rules, w.history[id], revision, Outcome(revision, flow), outcome)
  }

  ghost predicate Inv(rules: Rules, w: World) {
    && w.history.Keys == w.records.Keys
    && (forall id | id in w.records ::
          && GoodHistory(rules, w.history[id])
          && w.history[id][0].change.id == id
          && var last := w.history[id][|w.history[id]| - 1];
             w.records[id] == Stored(last.change, last.revision))
    && (forall a | a in w.sessions :: GoodSession(rules, w, w.sessions[a]))
  }

  // ---- The handlers write what may follow ----

  lemma ContentsOfProposal(files: seq<WorkspaceFile>, base: Base)
    ensures Contents(FromProposal(files, base)) == files
    ensures FilePaths(FromProposal(files, base)) == Paths(files)
  {
    var made := FromProposal(files, base);
    assert forall i | 0 <= i < |files| :: Contents(made)[i] == files[i];
  }

  lemma ProposalStartsAHistory(rules: Rules, authoring: Authoring, caller: Option<Caller>, proposal: Proposal,
                               base: Base, id: string, now: int, revision: nat)
    requires ProposedRecord(rules, authoring, caller, proposal, base, id, now).Ok?
    ensures var change := ProposedRecord(rules, authoring, caller, proposal, base, id, now).value;
      GoodHistory(rules, [Write(Proposed, change, revision)]) && change.id == id
  {
    CheckedPathsAreDistinct(proposal.files);
    ContentsOfProposal(proposal.files, base);
  }

  lemma RequestFollows(rules: Rules, request: Request, prev: Write)
    requires RecordFor(rules, request, prev.change).Ok?
    ensures Follows(rules, prev, KindOf(request), RecordFor(rules, request, prev.change).value)
  {
    match request
    case EditRequest(caller, edit, now) =>
    case FilesRequest(authoring, caller, body, base, now) =>
      MergeAt(prev.change.files, body, base, "");
    case ApproveRequest(authoring, caller, reviewed, timeout, now, decidedAt) =>
    case RejectRequest(authoring, caller, now) =>
  }

  lemma OutcomeFollows(rules: Rules, prev: Write, outcome: FlowOutcome)
    requires prev.kind.Approved? && prev.change.status == Publishing
    ensures Follows(rules, prev, Outcome(prev.revision, outcome), OutcomeRecord(prev.change, outcome))
  {
    OutcomeSettles(prev.change, outcome);
  }

  // ---- Every step keeps the invariant ----

  lemma {:induction false} RevisionsIncrease(rules: Rules, h: seq<Write>, i: nat, j: nat)
    requires GoodHistory(rules, h) && i < j < |h|
    ensures h[i].revision < h[j].revision
    decreases j
  {
    if i < j - 1 { RevisionsIncrease(rules, h, i, j - 1); }
  }

  lemma GroundedInLonger(rules: Rules, h: seq<Write>, write: Write, revision: nat, kind: Kind, change: Change)
    requires Grounded(rules, h, revision, kind, change)
    ensures Grounded(rules, h + [write], revision, kind, change)
  {
    var k :| 0 <= k < |h| && h[k].revision == revision && Follows(rules, h[k], kind, change);
    assert (h + [write])[k] == h[k];
  }

  lemma ApprovedInLonger(h: seq<Write>, write: Write, approved: Change, revision: nat)
    requires ApprovedAt(h, approved, revision)
    ensures ApprovedAt(h + [write], approved, revision)
  {
    var k :| 0 <= k < |h| && h[k].kind.Approved? && h[k].change == approved && h[k].revision == revision;
    assert (h + [write])[k] == h[k];
  }

  /** Writing to one key keeps every session's ground. */
  lemma SessionsSurvivePut(rules: Rules, w: World, id: string, write: Write)
    requires forall a | a in w.sessions :: GoodSession(rules, w, w.sessions[a])
    ensures var after := Put(w, id, write);
      forall a | a in after.sessions :: GoodSession(rules, after, after.sessions[a])
  {
    var after := Put(w, id, write);
    forall a | a in after.sessions ensures GoodSession(rules, after, after.sessions[a]) {
      var s := w.sessions[a];
      assert GoodSession(rules, w, s);
      if s.id == id {
        match s
        case Writing(_, kind, change, expected) =>
          GroundedInLonger(rules, w.history[id], write, expected, kind, change);
        case Calling(_, approved, revision) =>
          ApprovedInLonger(w.history[id], write, approved, revision);
        case Recording(_, outcome, revision, flow) =>
          GroundedInLonger(rules, w.history[id], write, revision, Outcome(revision, flow), outcome);
      }
    }
  }

  /** An update at the current revision lands over the very write it was computed from. */
  lemma UpdateExtendsHistory(rules: Rules, h: seq<Write>, kind: Kind, change: Change, next: nat)
    requires GoodHistory(rules, h)
    requires Grounded(rules, h, h[|h| - 1].revision, kind, change)
    requires h[|h| - 1].revision < next
    ensures GoodHistory(rules, h + [Write(kind, change, next)])
    ensures Follows(rules, h[|h| - 1], kind, change)
  {
    var n := |h|;
    var k :| 0 <= k < n && h[k].revision == h[n - 1].revision && Follows(rules, h[k], kind, change);
    if k < n - 1 {
      RevisionsIncrease(rules, h, k, n - 1);
    }
    var longer := h + [Write(kind, change, next)];
    forall j | 0 < j < |longer|
      ensures longer[j - 1].revision < longer[j].revision &&
        Follows(rules, longer[j - 1], longer[j].kind, longer[j].change)
    {
      if j < n { assert longer[j] == h[j] && longer[j - 1] == h[j - 1]; }
    }
  }

  lemma EnterKeepsInv(rules: Rules, w: World, actor: nat, session: Session)
    requires Inv(rules, w) && GoodSession(rules, w, session)
    ensures Inv(rules, Enter(w, actor, session))
  {
    var after := Enter(w, actor, session);
    forall a | a in after.sessions ensures GoodSession(rules, after, after.sessions[a]) {
      if a != actor { assert GoodSession(rules, w, w.sessions[a]); }
    }
  }

  lemma LeaveKeepsInv(rules: Rules, w: World, actor: nat)
    requires Inv(rules, w)
    ensures Inv(rules, Leave(w, actor))
  {
    var after := Leave(w, actor);
    forall a | a in after.sessions ensures GoodSession(rules, after, after.sessions[a]) {
      assert GoodSession(rules, w, w.sessions[a]);
    }
  }

  lemma PutKeepsInv(rules: Rules, w: World, id: string, write: Write)
    requires Inv(rules, w)
    requires GoodHistory(rules, Append(w.history, id, write)[id])
    requires Append(w.history, id, write)[id][0].change.id == id
    ensures Inv(rules, Put(w, id, write))
  {
    var after := Put(w, id, write);
    SessionsSurvivePut(rules, w, id, write);
    forall other | other in after.records
      ensures GoodHistory(rules, after.history[other]) && after.history[other][0].change.id == other
      ensures var last := after.history[other][|after.history[other]| - 1];
        after.records[other] == Stored(last.change, last.revision)
    {
      if other != id { assert after.history[other] == w.history[other]; }
    }
  }

  lemma GroundOfSession(rules: Rules, w: World, session: Session)
    requires GoodSession(rules, w, session) && PendingWrite(session).Some?
    ensures var (id, kind, change, expected) := PendingWrite(session).value;
      id == session.id && Grounded(rules, w.history[id], expected, kind, change)
  {}

  lemma PutOverLastKeepsInv(rules: Rules, w: World, id: string, kind: Kind, change: Change, next: nat)
    requires Inv(rules, w) && id in w.records && w.records[id].revision < next
    requires Grounded(rules, w.history[id], w.records[id].revision, kind, change)
    ensures Inv(rules, Put(w, id, Write(kind, change, next)))
    ensures kind.Approved? ==> GoodSession(rules, Put(w, id, Write(kind, change, next)), Calling(id, change, next))
  {
    var h := w.history[id];
    var write := Write(kind, change, next);
    UpdateExtendsHistory(rules, h, kind, change, next);
    PutKeepsInv(rules, w, id, write);
    assert Put(w, id, write).history[id][|h|] == write;
  }

  lemma AfterLandingKeepsInv(rules: Rules, put: World, actor: nat, session: Session, next: nat, reply: Reply)
    requires Inv(rules, put)
    requires session.Writing? && session.kind.Approved? ==>
      GoodSession(rules, put, Calling(session.id, session.change, next))
    ensures Inv(rules, AfterUpdate(put, actor, session, true, next, reply))
  {
    LeaveKeepsInv(rules, put, actor);
    if session.Writing? && session.kind.Approved? {
      EnterKeepsInv(rules, put, actor, Calling(session.id, session.change, next));
    }
  }

  /** An update lands when the store takes it: the record is still at the expected revision. */
  predicate Lands(w: World, session: Session, next: nat, reply: Reply) {
    && PendingWrite(session).Some?
    && reply != FailedBeforeApplying
    && var (id, _, _, expected) := PendingWrite(session).value;
       id in w.records && w.records[id].revision == expected && expected < next
  }

  /** The world right after the store took the update. */
  function Landed(w: World, session: Session, next: nat): World
    requires PendingWrite(session).Some?
  {
    var (id, kind, change, _) := PendingWrite(session).value;
    Put(w, id, Write(kind, change, next))
  }

  lemma UpdateStepCases(w: World, actor: nat, session: Session, next: nat, reply: Reply)
    ensures if Lands(w, session, next, reply)
      then UpdateStep(w, actor, session, next, reply) ==
        AfterUpdate(Landed(w, session, next), actor, session, true, next, reply)
      else UpdateStep(w, actor, session, next, reply) in {w, Leave(w, actor)}
  {}

  lemma LandedKeepsInv(rules: Rules, w: World, session: Session, next: nat, reply: Reply)
    requires Inv(rules, w) && GoodSession(rules, w, session) && Lands(w, session, next, reply)
    ensures Inv(rules, Landed(w, session, next))
    ensures session.Writing? && session.kind.Approved? ==>
      GoodSession(rules, Landed(w, session, next), Calling(session.id, session.change, next))
  {
    GroundOfSession(rules, w, session);
    var (id, kind, change, _) := PendingWrite(session).value;
    PutOverLastKeepsInv(rules, w, id, kind, change, next);
  }

  lemma UpdateKeepsInv(rules: Rules, w: World, actor: nat, next: nat, reply: Reply)
    requires Inv(rules, w) && actor in w.sessions
    ensures Inv(rules, UpdateStep(w, actor, w.sessions[actor], next, reply))
  {
    var session := w.sessions[actor];
    UpdateStepCases(w, actor, session, next, reply);
    if Lands(w, session, next, reply) {
      LandedKeepsInv(rules, w, session, next, reply);
      AfterLandingKeepsInv(rules, Landed(w, session, next), actor, session, next, reply);
    } else {
      LeaveKeepsInv(rules, w, actor);
    }
  }

  lemma ProposeKeepsInv(rules: Rules, w: World, step: Step)
    requires Inv(rules, w) && step.Propose?
    ensures Inv(rules, Next(rules, w, step))
  {
    var record := ProposedRecord(rules, step.authoring, step.caller, step.proposal, step.base, step.id, step.now);
    if step.id !in w.records && record.Ok? {
      ProposalStartsAHistory(rules, step.authoring, step.caller, step.proposal, step.base, step.id, step.now,
                             step.revision);
      assert [] + [Write(Proposed, record.value, step.revision)] == [Write(Proposed, record.value, step.revision)];
      PutKeepsInv(rules, w, step.id, Write(Proposed, record.value, step.revision));
    }
  }

  lemma LoadKeepsInv(rules: Rules, w: World, step: Step)
    requires Inv(rules, w) && step.Load?
    ensures Inv(rules, Next(rules, w, step))
  {
    if step.actor !in w.sessions && step.id in w.records
       && RecordFor(rules, step.request, w.records[step.id].change).Ok?
    {
      var h := w.history[step.id];
      var last := h[|h| - 1];
      RequestFollows(rules, step.request, last);
      var change := RecordFor(rules, step.request, last.change).value;
      assert Grounded(rules, h, last.revision, KindOf(step.request), change);
      EnterKeepsInv(rules, w, step.actor, Writing(step.id, KindOf(step.request), change, last.revision));
    }
  }

  lemma FlowReturnsKeepsInv(rules: Rules, w: World, step: Step)
    requires Inv(rules, w) && step.FlowReturns?
    ensures Inv(rules, Next(rules, w, step))
  {
    if step.actor in w.sessions && w.sessions[step.actor].Calling? {
      var s := w.sessions[step.actor];
      assert GoodSession(rules, w, s);
      var h := w.history[s.id];
      var k :| 0 <= k < |h| && h[k].kind.Approved? && h[k].change == s.approved && h[k].revision == s.revision;
      OutcomeFollows(rules, h[k], step.outcome);
      var outcome := OutcomeRecord(s.approved, step.outcome);
      assert Grounded(rules, h, s.revision, Outcome(s.revision, step.outcome), outcome);
      EnterKeepsInv(rules, w, step.actor, Recording(s.id, outcome, s.revision, step.outcome));
    }
  }

  lemma NextKeepsInv(rules: Rules, w: World, step: Step)
    requires Inv(rules, w)
    ensures Inv(rules, Next(rules, w, step))
  {
    match step
    case Propose(_, _, _, _, _, _, _) => ProposeKeepsInv(rules, w, step);
    case Load(_, _, _) => LoadKeepsInv(rules, w, step);
    case Update(actor, next, reply) =>
      if actor in w.sessions { UpdateKeepsInv(rules, w, actor, next, reply); }
    case FlowReturns(_, _) => FlowReturnsKeepsInv(rules, w, step);
    case Stop(actor) => LeaveKeepsInv(rules, w, actor);
  }

  lemma {:induction false} RunKeepsInv(rules: Rules, w: World, steps: seq<Step>)
    requires Inv(rules, w)
    ensures Inv(rules, Run(rules, w, steps))
    decreases |steps|
  {
    if steps != [] {
      RunKeepsInv(rules, w, steps[..|steps| - 1]);
      NextKeepsInv(rules, Run(rules, w, steps[..|steps| - 1]), steps[|steps| - 1]);
    }
  }

  lemma ReachableInv(rules: Rules, w: World)
    requires Reachable(rules, w)
    ensures Inv(rules, w)
  {
    var start, steps :| Init(start) && w == Run(rules, start, steps);
    RunKeepsInv(rules, start, steps);
  }
}
