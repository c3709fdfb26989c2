/** Where the publish outcomes found in a history come from, and that publishing gets there. */
module PublishRuns {
  import opened Prelude
  import opened Targets
  import opened Changes
  import opened Lifecycle
  import opened LifecycleSafety
  import opened WorkspacePaths

  // ---- Every outcome is what a flow returned ----

  ghost predicate Holds(w: World, actor: nat, session: Session) {
    actor in w.sessions && w.sessions[actor] == session
  }

  /** Step `k` of the run returned `flow` to a publisher calling with `approved`, stored at `revision`. */
  ghost predicate FlowReturned(rules: Rules, start: World, steps: seq<Step>, k: nat, id: string, approved: Change,
                               revision: nat, flow: FlowOutcome)
  {
    && k < |steps| && steps[k].FlowReturns? && steps[k].outcome == flow
    && Holds(Run(rules, start, steps[..k]), steps[k].actor, Calling(id, approved, revision))
  }

  lemma FlowReturnedInLonger(rules: Rules, start: World, steps: seq<Step>, last: Step, k: nat, id: string,
                             approved: Change, revision: nat, flow: FlowOutcome)
    requires FlowReturned(rules, start, steps, k, id, approved, revision, flow)
    ensures FlowReturned(rules, start, steps + [last], k, id, approved, revision, flow)
  {
    assert (steps + [last])[..k] == steps[..k];
  }

  lemma FlowReturnedLast(rules: Rules, start: World, steps: seq<Step>, actor: nat, id: string, approved: Change,
                         revision: nat, flow: FlowOutcome)
    requires Holds(Run(rules, start, steps), actor, Calling(id, approved, revision))
    ensures FlowReturned(rules, start, steps + [FlowReturns(actor, flow)], |steps|, id, approved, revision, flow)
  {
    assert (steps + [FlowReturns(actor, flow)])[..|steps|] == steps;
  }

  lemma OneMoreStep(rules: Rules, w: World, steps: seq<Step>, last: Step)
    ensures Run(rules, w, steps + [last]) == Next(rules, Run(rules, w, steps), last)
  {
    assert (steps + [last])[..|steps|] == steps;
  }

  /** Only the return of its flow makes a publisher record. */
  lemma OnlyReturnsStartRecording(rules: Rules, w: World, step: Step, actor: nat, s: Session)
    returns (approved: Change)
    requires Holds(Next(rules, w, step), actor, s) && s.Recording?
    ensures
      || Holds(w, actor, s)
      || (&& step == FlowReturns(actor, s.flow) && Holds(w, actor, Calling(s.id, approved, s.revision))
          && s.outcome == OutcomeRecord(approved, s.flow))
  {
    approved := if actor in w.sessions && w.sessions[actor].Calling? then w.sessions[actor].approved else s.outcome;
    if step.Update? && step.actor in w.sessions {
      UpdateStepCases(w, step.actor, w.sessions[step.actor], step.next, step.reply);
    }
  }

  lemma {:induction false} RecordingsComeFromFlows(rules: Rules, start: World, steps: seq<Step>, actor: nat, s: Session)
    returns (k: nat, approved: Change)
    requires start.sessions == map[] && Holds(Run(rules, start, steps), actor, s) && s.Recording?
    ensures FlowReturned(rules, start, steps, k, s.id, approved, s.revision, s.flow)
    ensures s.outcome == OutcomeRecord(approved, s.flow)
    decreases |steps|
  {
    var n := |steps| - 1;
    var init, last := steps[..n], steps[n];
    assert steps == init + [last];
    OneMoreStep(rules, start, init, last);
    k := n;
    approved := OnlyReturnsStartRecording(rules, Run(rules, start, init), last, actor, s);
    if Holds(Run(rules, start, init), actor, s) {
      k, approved := RecordingsComeFromFlows(rules, start, init, actor, s);
      FlowReturnedInLonger(rules, start, init, last, k, s.id, approved, s.revision, s.flow);
    } else {
      FlowReturnedLast(rules, start, init, actor, s.id, approved, s.revision, s.flow);
    }
  }

  ghost predicate IsWritten(w: World, id: string, i: nat, write: Write) {
    id in w.history && i < |w.history[id]| && w.history[id][i] == write
  }

  lemma NewWritesWerePending(rules: Rules, w: World, step: Step, id: string, i: nat, write: Write)
    requires IsWritten(Next(rules, w, step), id, i, write) && write.kind.Outcome? && !IsWritten(w, id, i, write)
    ensures step.Update? && step.actor in w.sessions && PendingWrite(w.sessions[step.actor]).Some?
    ensures var (pending, kind, change, _) := PendingWrite(w.sessions[step.actor]).value;
      (pending, kind, change) == (id, write.kind, write.change)
  {
    if step.Update? && step.actor in w.sessions {
      UpdateStepCases(w, step.actor, w.sessions[step.actor], step.next, step.reply);
    }
  }

  lemma OnlyRecordersHoldOutcomes(rules: Rules, w: World, session: Session)
    requires GoodSession(rules, w, session) && PendingWrite(session).Some?
    ensures var (id, kind, change, _) := PendingWrite(session).value;
      kind.Outcome? ==> session == Recording(id, change, kind.approval, kind.flow)
  {}

  /** A new outcome in a history was written by the publisher that recorded it. */
  lemma OutcomesAreRecorded(rules: Rules, w: World, step: Step, id: string, i: nat, write: Write)
    requires Inv(rules, w) && write.kind.Outcome?
    requires IsWritten(Next(rules, w, step), id, i, write) && !IsWritten(w, id, i, write)
    ensures step.Update?
    ensures Holds(w, step.actor, Recording(id, write.change, write.kind.approval, write.kind.flow))
  {
    NewWritesWerePending(rules, w, step, id, i, write);
    assert GoodSession(rules, w, w.sessions[step.actor]);
    OnlyRecordersHoldOutcomes(rules, w, w.sessions[step.actor]);
  }

  lemma {:induction false} OutcomeComesFromAFlow(rules: Rules, start: World, steps: seq<Step>, id: string, i: nat,
                                                 write: Write)
    returns (k: nat, approved: Change)
    requires Init(start) && IsWritten(Run(rules, start, steps), id, i, write) && write.kind.Outcome?
    ensures FlowReturned(rules, start, steps, k, id, approved, write.kind.approval, write.kind.flow)
    ensures write.change == OutcomeRecord(approved, write.kind.flow)
    decreases |steps|
  {
    var n := |steps| - 1;
    var init, last := steps[..n], steps[n];
    assert steps == init + [last];
    if IsWritten(Run(rules, start, init), id, i, write) {
      k, approved := OutcomeComesFromAFlow(rules, start, init, id, i, write);
    } else {
      OneMoreStep(rules, start, init, last);
      RunKeepsInv(rules, start, init);
      OutcomesAreRecorded(rules, Run(rules, start, init), last, id, i, write);
      var s := Recording(id, write.change, write.kind.approval, write.kind.flow);
      k, approved := RecordingsComeFromFlows(rules, start, init, last.actor, s);
    }
    FlowReturnedInLonger(rules, start, init, last, k, id, approved, write.kind.approval, write.kind.flow);
  }

  /** A publisher at work calls with the record some approval wrote; no other write ever has that revision. */
  lemma CallersHoldTheirApproval(rules: Rules, w: World, actor: nat, id: string, approved: Change, revision: nat,
                                 later: World, i: nat)
    requires Inv(rules, w) && Holds(w, actor, Calling(id, approved, revision))
    requires Inv(rules, later) && Extends(w, later) && id in later.history && i < |later.history[id]|
    requires later.history[id][i].revision == revision
    ensures later.history[id][i].change == approved
  {
    assert GoodSession(rules, w, w.sessions[actor]);
    assert ApprovedAt(w.history[id], approved, revision);
    var j :| && 0 <= j < |w.history[id]| && w.history[id][j].kind.Approved?
             && w.history[id][j].change == approved && w.history[id][j].revision == revision;
    assert later.history[id][j] == w.history[id][j];
    RevisionsAreUnique(rules, later.history[id], i, j);
  }

  lemma OneMoreOfMore(rules: Rules, w: World, steps: seq<Step>, more: seq<Step>, last: Step)
    requires Run(rules, w, steps + more) == Run(rules, Run(rules, w, steps), more)
    ensures Run(rules, w, steps + (more + [last])) == Run(rules, Run(rules, w, steps), more + [last])
  {
    assert steps + (more + [last]) == (steps + more) + [last];
    OneMoreStep(rules, w, steps + more, last);
    OneMoreStep(rules, Run(rules, w, steps), more, last);
  }

  lemma {:induction false} RunConcat(rules: Rules, w: World, steps: seq<Step>, more: seq<Step>)
    ensures Run(rules, w, steps + more) == Run(rules, Run(rules, w, steps), more)
    decreases |more|
  {
    if more == [] {
      assert steps + more == steps;
    } else {
      var n := |more| - 1;
      assert more == more[..n] + [more[n]];
      RunConcat(rules, w, steps, more[..n]);
      OneMoreOfMore(rules, w, steps, more[..n], more[n]);
    }
  }

  lemma RunGoesOn(rules: Rules, w: World, steps: seq<Step>, k: nat)
    requires k <= |steps|
    ensures Run(rules, w, steps) == Run(rules, Run(rules, w, steps[..k]), steps[k..])
  {
    assert steps[..k] + steps[k..] == steps;
    RunConcat(rules, w, steps[..k], steps[k..]);
  }

  lemma GoodFromThenOn(rules: Rules, start: World, steps: seq<Step>, k: nat)
    requires Inv(rules, start) && k <= |steps|
    ensures Inv(rules, Run(rules, start, steps[..k]))
    ensures Extends(Run(rules, start, steps[..k]), Run(rules, start, steps))
  {
    RunKeepsInv(rules, start, steps[..k]);
    RunGoesOn(rules, start, steps, k);
    RunExtends(rules, Run(rules, start, steps[..k]), steps[k..]);
  }

  /**
   * Whatever anyone did in between, a stored outcome goes back to the moment a flow returned to a publisher that
   * called it with the very record its approval stored. The outcome is published exactly when that flow succeeded,
   * with the fields of what it returned, and failed for its reason when it did not.
   */
  lemma PublishedIsWhatAFlowReturned(rules: Rules, start: World, steps: seq<Step>, id: string, i: nat)
    returns (k: nat)
    requires Init(start)
    requires id in Run(rules, start, steps).history && i < |Run(rules, start, steps).history[id]|
    requires Run(rules, start, steps).history[id][i].kind.Outcome?
    ensures i > 0
    ensures var h := Run(rules, start, steps).history[id];
      && FlowReturned(rules, start, steps, k, id, h[i - 1].change, h[i - 1].revision, h[i].kind.flow)
      && Settles(h[i - 1].change, steps[k].outcome, h[i].change)
      && (h[i].change.status == Published <==> steps[k].outcome.Ok?)
  {
    var now := Run(rules, start, steps);
    var h := now.history[id];
    var approved;
    k, approved := OutcomeComesFromAFlow(rules, start, steps, id, i, h[i]);
    RunKeepsInv(rules, start, steps);
    OutcomeFollowsItsApproval(rules, h, i);
    GoodFromThenOn(rules, start, steps, k);
    CallersHoldTheirApproval(rules, Run(rules, start, steps[..k]), steps[k].actor, id, approved, h[i - 1].revision, now,
                             i - 1);
  }

  // ---- An approval that nobody disturbs is published ----

  /**
   * An approval written over the record it was computed from is stored; if the answer arrives, its handler
   * calls the flow with what it stored, and otherwise it is gone.
   */
  lemma StoredApprovalCallsItsFlow(rules: Rules, w: World, actor: nat, next: nat, reply: Reply)
    requires actor in w.sessions && w.sessions[actor].Writing? && w.sessions[actor].kind.Approved?
    requires var s := w.sessions[actor];
      s.id in w.records && w.records[s.id].revision == s.expected && s.expected < next
    requires reply != FailedBeforeApplying
    ensures var s, after := w.sessions[actor], Next(rules, w, Step.Update(actor, next, reply));
      && s.id in after.records && after.records[s.id] == Stored(s.change, next)
      && (reply == Delivered ==> after.sessions == w.sessions[actor := Calling(s.id, s.change, next)])
      && (reply != Delivered ==> after.sessions == w.sessions - {actor})
  {}

  /** The steps of one approver and its publisher, nobody else acting. */
  function ApproveAndPublish(actor: nat, id: string, request: Request, approval: nat, flow: FlowOutcome, outcome: nat)
    : seq<Step>
  {
    [Step.Load(actor, id, request), Step.Update(actor, approval, Delivered), FlowReturns(actor, flow),
     Step.Update(actor, outcome, Delivered)]
  }

  lemma TwoSteps(rules: Rules, w: World, a: Step, b: Step)
    ensures Run(rules, w, [a, b]) == Next(rules, Next(rules, w, a), b)
  {
    OneMoreStep(rules, w, [], a);
    OneMoreStep(rules, w, [a], b);
    assert [] + [a] == [a] && [a] + [b] == [a, b];
  }

  lemma FourSteps(rules: Rules, w: World, a: Step, b: Step, c: Step, d: Step)
    ensures Run(rules, w, [a, b, c, d]) == Next(rules, Next(rules, Next(rules, Next(rules, w, a), b), c), d)
  {
    TwoSteps(rules, w, a, b);
    TwoSteps(rules, Run(rules, w, [a, b]), c, d);
    RunConcat(rules, w, [a, b], [c, d]);
    assert [a, b] + [c, d] == [a, b, c, d];
  }

  lemma LoadedApproval(rules: Rules, w: World, actor: nat, id: string, request: Request)
    requires request.ApproveRequest? && actor !in w.sessions && id in w.records
    requires RecordFor(rules, request, w.records[id].change).Ok?
    ensures var approved := RecordFor(rules, request, w.records[id].change).value;
      Next(rules, w, Step.Load(actor, id, request)) ==
        w.(sessions := w.sessions[actor := Writing(id, Approved(request.reviewed), approved, w.records[id].revision)])
  {}

  lemma ReturnedFlow(rules: Rules, w: World, actor: nat, flow: FlowOutcome)
    requires actor in w.sessions && w.sessions[actor].Calling?
    ensures var s, after := w.sessions[actor], Next(rules, w, FlowReturns(actor, flow));
      && after.records == w.records && after.history == w.history
      && after.sessions.Keys == w.sessions.Keys && after.sessions - {actor} == w.sessions - {actor}
      && after.sessions[actor] == Recording(s.id, after.sessions[actor].outcome, s.revision, flow)
      && Settles(s.approved, flow, after.sessions[actor].outcome)
  {
    OutcomeSettles(w.sessions[actor].approved, flow);
  }

  lemma RecordedOutcome(rules: Rules, w: World, actor: nat, next: nat)
    requires actor in w.sessions && w.sessions[actor].Recording?
    requires var s := w.sessions[actor];
      s.id in w.records && w.records[s.id].revision == s.revision && s.revision < next
    ensures var s, after := w.sessions[actor], Next(rules, w, Step.Update(actor, next, Delivered));
      && s.id in after.records && after.records[s.id] == Stored(s.outcome, next)
      && after.sessions == w.sessions - {actor}
  {}

  /**
   * An accepted approval that nobody disturbs calls the flow with the record it stored, and what the flow returns
   * is stored over it: published exactly when it succeeded.
   */
  lemma UndisturbedApprovalIsPublished(rules: Rules, w: World, actor: nat, id: string, request: Request, approval: nat,
                                       flow: FlowOutcome, outcome: nat)
    requires request.ApproveRequest? && actor !in w.sessions && id in w.records
    requires RecordFor(rules, request, w.records[id].change).Ok?
    requires w.records[id].revision < approval < outcome
    ensures var after := Run(rules, w, ApproveAndPublish(actor, id, request, approval, flow, outcome));
      && id in after.records && after.records[id].revision == outcome && after.sessions == w.sessions
      && Settles(RecordFor(rules, request, w.records[id].change).value, flow, after.records[id].change)
      && (after.records[id].change.status == Published <==> flow.Ok?)
  {
    var steps := ApproveAndPublish(actor, id, request, approval, flow, outcome);
    FourSteps(rules, w, steps[0], steps[1], steps[2], steps[3]);
    LoadedApproval(rules, w, actor, id, request);
    var loaded := Next(rules, w, steps[0]);
    StoredApprovalCallsItsFlow(rules, loaded, actor, approval, Delivered);
    var stored := Next(rules, loaded, steps[1]);
    ReturnedFlow(rules, stored, actor, flow);
    var returned := Next(rules, stored, steps[2]);
    RecordedOutcome(rules, returned, actor, outcome);
    assert stored.sessions - {actor} == w.sessions;
  }

  /** The approver of a proposal nobody edited, naming the version proposed. */
  function Approval(authoring: Authoring, approver: Option<Caller>, proposedAt: int, at: int): Request {
    ApproveRequest(authoring, approver, Some(proposedAt), None, at, at)
  }

  /** The owner of the proposal's last file names the approver. */
  ghost predicate MayApprove(authoring: Authoring, approver: Option<Caller>, proposal: Proposal) {
    proposal.files != [] ==>
      match TargetOf(authoring.targets, proposal.files[|proposal.files| - 1].path)
      case Some(target) => MayDecide(approver, authoring.groupsClaim, target.approverGroups)
      case None => false
  }

  lemma ProposerNamesTheApprovers(rules: Rules, authoring: Authoring, caller: Option<Caller>, proposal: Proposal,
                                  base: Base, id: string, now: int, approver: Option<Caller>)
    requires ProposedRecord(rules, authoring, caller, proposal, base, id, now).Ok?
    requires MayApprove(authoring, approver, proposal)
    ensures var change := ProposedRecord(rules, authoring, caller, proposal, base, id, now).value;
      && Entitled(authoring, approver, change) && change.files != []
      && change.status == Status.Pending && change.updatedAt == Some(now) && change.issues == rules(proposal.files)
  {
    ProposalNeedsOneOwner(rules, authoring, caller, proposal, base, id, now);
    ContentsOfProposal(proposal.files, base);
    var paths := FilePaths(ProposedRecord(rules, authoring, caller, proposal, base, id, now).value.files);
    assert paths[|paths| - 1] == proposal.files[|proposal.files| - 1].path;
  }

  /** A proposal that is accepted and has no issue can be approved by whoever the owner of its last file names. */
  lemma AcceptedProposalCanBeApproved(rules: Rules, authoring: Authoring, caller: Option<Caller>, proposal: Proposal,
                                      base: Base, id: string, now: int, approver: Option<Caller>, at: int)
    requires ProposedRecord(rules, authoring, caller, proposal, base, id, now).Ok?
    requires rules(proposal.files) == []
    requires MayApprove(authoring, approver, proposal)
    ensures RecordFor(rules, Approval(authoring, approver, now, at),
                      ProposedRecord(rules, authoring, caller, proposal, base, id, now).value).Ok?
  {
    var change := ProposedRecord(rules, authoring, caller, proposal, base, id, now).value;
    ProposerNamesTheApprovers(rules, authoring, caller, proposal, base, id, now, approver);
    ApprovalNeedsOwnership(authoring, approver, Some(now), None, at, at, change);
  }

  lemma ProposalIsStored(rules: Rules, w: World, step: Step)
    requires step.Propose? && step.id !in w.records
    requires ProposedRecord(rules, step.authoring, step.caller, step.proposal, step.base, step.id, step.now).Ok?
    ensures var change :=
        ProposedRecord(rules, step.authoring, step.caller, step.proposal, step.base, step.id, step.now).value;
      && Run(rules, w, [step]).records == w.records[step.id := Stored(change, step.revision)]
      && Run(rules, w, [step]).sessions == w.sessions
      && change.title == step.proposal.title && Contents(change.files) == step.proposal.files
  {
    OneMoreStep(rules, w, [], step);
    assert [] + [step] == [step];
    ContentsOfProposal(step.proposal.files, step.base);
  }

  lemma SettledKeepsContent(rules: Rules, request: Request, change: Change, flow: FlowOutcome, settled: Change)
    requires request.ApproveRequest? && RecordFor(rules, request, change).Ok?
    requires Settles(RecordFor(rules, request, change).value, flow, settled)
    ensures settled.title == change.title && settled.files == change.files
  {}

  /**
   * From any moment on, a proposal that is accepted and has no issue is published by the run in which the owner's
   * approver reviews it, nobody disturbs them, and the flow succeeds.
   */
  lemma AcceptedProposalCanBePublished(rules: Rules, w: World, authoring: Authoring, caller: Option<Caller>,
                                       proposal: Proposal, base: Base, id: string, now: int, revision: nat,
                                       approver: Option<Caller>, at: int, actor: nat, returned: Option<Json>)
    returns (steps: seq<Step>)
    requires id !in w.records && actor !in w.sessions
    requires ProposedRecord(rules, authoring, caller, proposal, base, id, now).Ok?
    requires rules(proposal.files) == []
    requires MayApprove(authoring, approver, proposal)
    ensures steps != [] && steps[0] == Propose(id, authoring, caller, proposal, base, now, revision)
    ensures var after := Run(rules, w, steps);
      && id in after.records && after.records[id].change.status == Published
      && after.records[id].change.title == proposal.title
      && Contents(after.records[id].change.files) == proposal.files
  {
    var change := ProposedRecord(rules, authoring, caller, proposal, base, id, now).value;
    var proposed := Propose(id, authoring, caller, proposal, base, now, revision);
    var request := Approval(authoring, approver, now, at);
    var rest := ApproveAndPublish(actor, id, request, revision + 1, Ok(returned), revision + 2);
    AcceptedProposalCanBeApproved(rules, authoring, caller, proposal, base, id, now, approver, at);
    ProposalIsStored(rules, w, proposed);
    var stored := Run(rules, w, [proposed]);
    UndisturbedApprovalIsPublished(rules, stored, actor, id, request, revision + 1, Ok(returned), revision + 2);
    steps := [proposed] + rest;
    RunConcat(rules, w, [proposed], rest);
    SettledKeepsContent(rules, request, change, Ok(returned), Run(rules, stored, rest).records[id].change);
  }

  // ---- Lost answers and actors that stop ----

  /** A publisher repeats its write until it is answered, and then is through, whether it came first or not. */
  lemma PublishersRetryUntilAnswered(rules: Rules, w: World, actor: nat, next: nat, reply: Reply)
    requires actor in w.sessions && w.sessions[actor].Recording? && w.sessions[actor].revision < next
    requires w.sessions[actor].id in w.records
    ensures var after := Next(rules, w, Step.Update(actor, next, reply));
      after.sessions == if reply == Delivered then w.sessions - {actor} else w.sessions
  {}

  /** Whoever stops, the client, the pod or the retries, never writes again unless it starts anew. */
  lemma {:induction false} StoppedActorsAreGone(rules: Rules, w: World, actor: nat, steps: seq<Step>)
    requires forall i | 0 <= i < |steps| :: !(steps[i].Load? && steps[i].actor == actor)
    ensures Next(rules, w, Stop(actor)).records == w.records && Next(rules, w, Stop(actor)).history == w.history
    ensures Next(rules, w, Stop(actor)).sessions == w.sessions - {actor}
    ensures actor !in Run(rules, Next(rules, w, Stop(actor)), steps).sessions
    decreases |steps|
  {
    if steps != [] {
      var init, step := steps[..|steps| - 1], steps[|steps| - 1];
      StoppedActorsAreGone(rules, w, actor, init);
      OnlyLoadsStart(rules, Run(rules, Next(rules, w, Stop(actor)), init), step, actor);
    }
  }

  lemma OnlyLoadsStart(rules: Rules, w: World, step: Step, actor: nat)
    requires actor !in w.sessions && !(step.Load? && step.actor == actor)
    ensures actor !in Next(rules, w, step).sessions
  {
    if step.Update? && step.actor in w.sessions {
      UpdateStepCases(w, step.actor, w.sessions[step.actor], step.next, step.reply);
    }
  }

  // ---- Such a proposal exists ----

  const DESK := Target("desk", ["flows"], "publish", [], true)

  const ONE_FILE := Proposal("Add a flow", None, [WorkspaceFile("flows/a", Some("flow: a"))])

  lemma DeskOwnsFlows()
    ensures TargetOf([DESK], "flows/a") == Some(DESK)
  {
    var path, folder := "flows/a", "flows";
    assert TrimSlashes(folder) == folder;
    assert folder <= path && path[|folder|] == '/';
    assert MatchedLen(DESK.paths, path) == Some(5) by {
      assert DESK.paths[0] == folder && DESK.paths[1..] == [];
    }
    assert [DESK][..0] == [];
    assert OwnerIndex([DESK], path) == Some(0);
  }

  lemma FlowsALocated()
    ensures Locate("flows/a").Ok?
  {
    LocateSplits("flows", "a");
    assert "flows" + "/" + "a" == "flows/a";
    ReadSegment("", "", "a");
    ReadWholeSegment("a", "");
    assert "a" + "" == "a" && "" + "a" == "a";
  }

  lemma OneFileIsAccepted(rules: Rules, base: Base, authoring: Authoring)
    requires authoring.targets == [DESK]
    ensures ProposedRecord(rules, authoring, None, ONE_FILE, base, "1", 5).Ok?
  {
    var path := "flows/a";
    DeskOwnsFlows();
    FlowsALocated();
    assert !IsSpace(ONE_FILE.title[0]);
    OneLocatedFileIsAccepted(rules, base, authoring, ONE_FILE, path, DESK.name);
  }

  lemma OneLocatedFileIsAccepted(rules: Rules, base: Base, authoring: Authoring, proposal: Proposal, path: string,
                                 name: string)
    requires |proposal.files| == 1 && proposal.files[0].path == path && Locate(path).Ok? && !IsBlank(proposal.title)
    requires TargetOf(authoring.targets, path).Some? && TargetOf(authoring.targets, path).value.name == name
    ensures ProposedRecord(rules, authoring, None, proposal, base, "1", 5).Ok?
  {
    ProposalNeedsOneOwner(rules, authoring, None, proposal, base, "1", 5);
    assert OwnedBy(authoring.targets, Paths(proposal.files), name);
  }

  /** Some proposal runs from an empty store to published. */
  lemma SomeRunPublishes() returns (rules: Rules, start: World, steps: seq<Step>, id: string)
    ensures Init(start) && start.records == map[]
    ensures id in Run(rules, start, steps).records && Run(rules, start, steps).records[id].change.status == Published
  {
    rules := files => [];
    id := "1";
    start := World(map[], map[], map[]);
    var authoring, base: Base := Authoring([DESK], "groups"), path => None;
    OneFileIsAccepted(rules, base, authoring);
    DeskOwnsFlows();
    steps := AcceptedProposalCanBePublished(rules, start, authoring, None, ONE_FILE, base, id, 5, 0, None, 9, 0, None);
  }
}
