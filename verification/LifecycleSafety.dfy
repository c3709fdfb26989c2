/** What holds of a change over every run of the lifecycle. */
module LifecycleSafety {
  import opened Prelude
  import opened Targets
  import opened Changes
  import opened Lifecycle

  /** The facts about one change's records, without the rest of the world. */
  lemma ReachableHistory(rules: Rules, w: World, id: string)
    requires Reachable(rules, w) && (id in w.history || id in w.records)
    ensures id in w.history && id in w.records && GoodHistory(rules, w.history[id])
    ensures w.records[id].change == w.history[id][|w.history[id]| - 1].change
  {
    ReachableInv(rules, w);
  }

  // ---- Outcomes ----

  lemma OutcomeFollowsItsApproval(rules: Rules, h: seq<Write>, i: nat)
    requires GoodHistory(rules, h) && i < |h| && h[i].kind.Outcome?
    ensures i > 0 && h[i - 1].kind.Approved? && h[i - 1].revision == h[i].kind.approval
    ensures h[i - 1].change.status == Publishing && Settles(h[i - 1].change, h[i].kind.flow, h[i].change)
  {}

  /**
   * A publish outcome is stored only directly over the Publishing record its own
   * approval wrote. It changes nothing of it but status, result and error: the
   * change is published with the result of a flow that succeeded, or failed for
   * the reason of one that did not.
   */
  lemma OutcomeLandsOnItsOwnApproval(rules: Rules, w: World, id: string, i: nat)
    requires Reachable(rules, w) && id in w.history && i < |w.history[id]|
    requires w.history[id][i].kind.Outcome?
    ensures i > 0
    ensures var (approval, outcome) := (w.history[id][i - 1], w.history[id][i]);
      && approval.kind.Approved?
      && approval.revision == outcome.kind.approval
      && approval.change.status == Publishing
      && outcome.change == approval.change.(status := outcome.change.status, result := outcome.change.result,
                                            error := outcome.change.error)
      && outcome.change.status == (if outcome.kind.flow.Ok? then Published else Failed)
      && Settles(approval.change, outcome.kind.flow, outcome.change)
  {
    ReachableHistory(rules, w, id);
    OutcomeFollowsItsApproval(rules, w.history[id], i);
  }

  lemma RevisionsAreUnique(rules: Rules, h: seq<Write>, i: nat, j: nat)
    requires GoodHistory(rules, h) && i < |h| && j < |h| && h[i].revision == h[j].revision
    ensures i == j
  {
    if i < j { RevisionsIncrease(rules, h, i, j); }
    if j < i { RevisionsIncrease(rules, h, j, i); }
  }

  lemma OutcomeIsRightAfterApproval(rules: Rules, h: seq<Write>, k: nat, j: nat)
    requires GoodHistory(rules, h) && k < |h| && j < |h|
    requires h[j].kind.Outcome? && h[j].kind.approval == h[k].revision
    ensures j == k + 1
  {
    assert j > 0;
    assert Follows(rules, h[j - 1], h[j].kind, h[j].change);
    RevisionsAreUnique(rules, h, j - 1, k);
  }

  /** However often a publisher retries after lost replies, its approval gets at most one outcome. */
  lemma OneOutcomePerApproval(rules: Rules, w: World, id: string, i: nat, j: nat)
    requires Reachable(rules, w) && id in w.history && i < |w.history[id]| && j < |w.history[id]|
    requires w.history[id][i].kind.Outcome? && w.history[id][j].kind.Outcome?
    requires w.history[id][j].kind.approval == w.history[id][i].kind.approval
    ensures i == j
  {
    ReachableHistory(rules, w, id);
    OutcomeFollowsItsApproval(rules, w.history[id], i);
    OutcomeIsRightAfterApproval(rules, w.history[id], i - 1, j);
  }

  /** The write is the outcome of the approval stored at `revision`. */
  ghost predicate IsOutcomeOf(write: Write, revision: nat) {
    write.kind.Outcome? && write.kind.approval == revision
  }

  ghost predicate Extends(before: World, after: World) {
    forall id :: id in before.history ==> id in after.history && before.history[id] <= after.history[id]
  }

  lemma NextExtends(rules: Rules, w: World, step: Step)
    ensures Extends(w, Next(rules, w, step))
  {
    if step.Update? && step.actor in w.sessions {
      UpdateStepCases(w, step.actor, w.sessions[step.actor], step.next, step.reply);
    }
  }

  lemma {:induction false} RunExtends(rules: Rules, w: World, steps: seq<Step>)
    ensures Extends(w, Run(rules, w, steps))
    decreases |steps|
  {
    if steps != [] {
      var init := steps[..|steps| - 1];
      RunExtends(rules, w, init);
      NextExtends(rules, Run(rules, w, init), steps[|steps| - 1]);
    }
  }

  /**
   * Once anything else was written over an approval, its publisher's outcome is never stored,
   * whatever happens next.
   */
  lemma SupersededPublisherNeverLands(rules: Rules, w: World, id: string, k: nat, steps: seq<Step>)
    requires Reachable(rules, w) && id in w.history && k + 1 < |w.history[id]|
    requires !IsOutcomeOf(w.history[id][k + 1], w.history[id][k].revision)
    ensures var later := Run(rules, w, steps).history;
      id in later && forall j | 0 <= j < |later[id]| :: !IsOutcomeOf(later[id][j], w.history[id][k].revision)
  {
    ReachableInv(rules, w);
    RunKeepsInv(rules, w, steps);
    RunExtends(rules, w, steps);
    var h := w.history[id];
    var later := Run(rules, w, steps);
    assert id in later.history;
    ApprovalStaysSuperseded(rules, h, later.history[id], k);
  }

  lemma ApprovalStaysSuperseded(rules: Rules, h: seq<Write>, later: seq<Write>, k: nat)
    requires GoodHistory(rules, later) && h <= later && k + 1 < |h|
    requires !IsOutcomeOf(h[k + 1], h[k].revision)
    ensures forall j | 0 <= j < |later| :: !IsOutcomeOf(later[j], h[k].revision)
  {
    assert later[k] == h[k] && later[k + 1] == h[k + 1];
    forall j | 0 <= j < |later| && IsOutcomeOf(later[j], h[k].revision) ensures j == k + 1 {
      OutcomeIsRightAfterApproval(rules, later, k, j);
    }
  }

  // ---- Approved content ----

  lemma {:induction false} DecidedContentIsFrozen(rules: Rules, h: seq<Write>, i: nat, j: nat)
    requires GoodHistory(rules, h) && i <= j < |h| && h[i].change.status != Status.Pending
    ensures h[j].change.status != Status.Pending
    ensures ContentOf(h[j].change) == ContentOf(h[i].change)
    decreases j
  {
    if i < j {
      DecidedContentIsFrozen(rules, h, i, j - 1);
      assert Follows(rules, h[j - 1], h[j].kind, h[j].change);
    }
  }

  /**
   * From an approval on, every later record of the change, in every run, has
   * the approved title, description, files and target, and no issue.
   */
  lemma ApprovedContentNeverChanges(rules: Rules, w: World, id: string, i: nat, j: nat)
    requires Reachable(rules, w) && id in w.history && i <= j < |w.history[id]|
    requires w.history[id][i].kind.Approved?
    ensures ContentOf(w.history[id][j].change) == ContentOf(w.history[id][i].change)
    ensures w.history[id][j].change.issues == []
  {
    ReachableHistory(rules, w, id);
    var h := w.history[id];
    assert Follows(rules, h[i - 1], h[i].kind, h[i].change);
    DecidedContentIsFrozen(rules, h, i, j);
  }

  lemma {:induction false} IdsAgree(rules: Rules, h: seq<Write>, i: nat)
    requires GoodHistory(rules, h) && i < |h|
    ensures h[i].change.id == h[0].change.id
  {
    if i > 0 { IdsAgree(rules, h, i - 1); }
  }

  /** Every publisher at work on a change calls the flow with the request of each approval the change ever had. */
  lemma EveryAttemptPublishesTheApprovedContent(rules: Rules, w: World, actor: nat, i: nat)
    requires Reachable(rules, w) && actor in w.sessions && w.sessions[actor].Calling?
    requires w.sessions[actor].id in w.history && i < |w.history[w.sessions[actor].id]|
    requires w.history[w.sessions[actor].id][i].kind.Approved?
    ensures var approved := w.history[w.sessions[actor].id][i].change;
      RequestOf(w.sessions[actor].approved) ==
        PublishRequest(w.sessions[actor].id, approved.target, approved.title, approved.files)
  {
    ReachableInv(rules, w);
    var s := w.sessions[actor];
    assert GoodSession(rules, w, s);
    var h := w.history[s.id];
    var k :| 0 <= k < |h| && h[k].kind.Approved? && h[k].change == s.approved && h[k].revision == s.revision;
    IdsAgree(rules, h, i);
    IdsAgree(rules, h, k);
    if i <= k {
      ApprovedContentNeverChanges(rules, w, s.id, i, k);
    } else {
      ApprovedContentNeverChanges(rules, w, s.id, k, i);
    }
  }

  // ---- Terminal records ----

  lemma OnlyOpenRecordsAreFollowed(rules: Rules, h: seq<Write>)
    requires GoodHistory(rules, h)
    ensures forall i | 0 <= i < |h| - 1 :: h[i].change.status in {Status.Pending, Failed, Publishing}
  {
    forall i | 0 <= i < |h| - 1 ensures h[i].change.status in {Status.Pending, Failed, Publishing} {
      assert Follows(rules, h[i], h[i + 1].kind, h[i + 1].change);
    }
  }

  lemma TerminalIsLast(rules: Rules, h: seq<Write>, later: seq<Write>)
    requires GoodHistory(rules, later) && 0 < |h| && h <= later
    requires h[|h| - 1].change.status in {Published, Rejected}
    ensures later == h
  {
    OnlyOpenRecordsAreFollowed(rules, later);
    assert later[|h| - 1] == h[|h| - 1];
  }

  /** A Published or Rejected record is never written again, whoever was still at work on it. */
  lemma TerminalRecordsStay(rules: Rules, w: World, id: string, steps: seq<Step>)
    requires Reachable(rules, w) && id in w.records
    requires w.records[id].change.status in {Published, Rejected}
    ensures var later := Run(rules, w, steps);
      && id in w.history && id in later.history && later.history[id] == w.history[id]
      && id in later.records && later.records[id] == w.records[id]
  {
    ReachableInv(rules, w);
    RunKeepsInv(rules, w, steps);
    RunExtends(rules, w, steps);
    var later := Run(rules, w, steps);
    assert id in w.history && id in later.history;
    TerminalIsLast(rules, w.history[id], later.history[id]);
  }

  /** A record of a proposed change is Published only by the outcome of an approval. */
  lemma PublishedOnlyThroughApproval(rules: Rules, w: World, id: string, i: nat)
    requires Reachable(rules, w) && id in w.history && i < |w.history[id]|
    requires w.history[id][0].kind == Proposed && w.history[id][i].change.status == Published
    ensures i > 1 && w.history[id][i].kind.Outcome? && w.history[id][i - 1].kind.Approved?
  {
    ReachableHistory(rules, w, id);
    PublishedFollowsAnApproval(rules, w.history[id], i);
  }

  lemma PublishedFollowsAnApproval(rules: Rules, h: seq<Write>, i: nat)
    requires GoodHistory(rules, h) && i < |h| && h[0].kind == Proposed && h[i].change.status == Published
    ensures i > 1 && h[i].kind.Outcome? && h[i - 1].kind.Approved?
  {
    if i > 0 { assert Follows(rules, h[i - 1], h[i].kind, h[i].change); }
  }

  // ---- Versions ----

  /** Between two versions either nothing a reviewer reads changed, or the later one was edited strictly later. */
  lemma {:induction false} EditsMoveTheVersion(rules: Rules, h: seq<Write>, i: nat, j: nat)
    requires GoodHistory(rules, h) && i <= j < |h|
    ensures
      || (ContentOf(h[j].change) == ContentOf(h[i].change) && h[j].change.updatedAt == h[i].change.updatedAt
          && forall k | i < k <= j :: h[k].kind !in {Edited, FilesAdded})
      || (h[j].change.updatedAt.Some? && LastEdit(h[i].change) < h[j].change.updatedAt.value
          && exists k :: i < k <= j && h[k].kind in {Edited, FilesAdded})
    ensures h[j].change.createdAt == h[i].change.createdAt
    decreases j
  {
    if i < j {
      EditsMoveTheVersion(rules, h, i, j - 1);
      assert Follows(rules, h[j - 1], h[j].kind, h[j].change);
      if h[j].kind !in {Edited, FilesAdded} {
        assert ContentOf(h[j].change) == ContentOf(h[j - 1].change);
      }
    }
  }

  /**
   * Two records of one change carry the same `updated_at` exactly when nobody
   * edited between them, whatever the clock did; then a reviewer reads the
   * same in both.
   */
  lemma SameVersionSameContent(rules: Rules, w: World, id: string, i: nat, j: nat)
    requires Reachable(rules, w) && id in w.history && i <= j < |w.history[id]|
    ensures w.history[id][i].change.updatedAt == w.history[id][j].change.updatedAt <==>
      forall k | i < k <= j :: w.history[id][k].kind !in {Edited, FilesAdded}
    ensures w.history[id][i].change.updatedAt == w.history[id][j].change.updatedAt ==>
      ContentOf(w.history[id][i].change) == ContentOf(w.history[id][j].change)
  {
    ReachableHistory(rules, w, id);
    EditsMoveTheVersion(rules, w.history[id], i, j);
  }

  /**
   * Every stored approval that named the version it reviewed has exactly the content of that version,
   * in whichever record of the change the reviewer read it.
   */
  lemma ApprovalIsOfTheReviewedContent(rules: Rules, w: World, id: string, i: nat, j: nat)
    requires Reachable(rules, w) && id in w.history && i < |w.history[id]| && j < |w.history[id]|
    requires w.history[id][j].kind.Approved? && w.history[id][j].kind.reviewed.Some?
    requires w.history[id][i].change.updatedAt == w.history[id][j].kind.reviewed
    ensures ContentOf(w.history[id][j].change) == ContentOf(w.history[id][i].change)
  {
    ReachableHistory(rules, w, id);
    ApprovalKeepsTheReviewedVersion(rules, w.history[id], j);
    if i <= j {
      SameVersionSameContent(rules, w, id, i, j);
    } else {
      SameVersionSameContent(rules, w, id, j, i);
    }
  }

  lemma ApprovalKeepsTheReviewedVersion(rules: Rules, h: seq<Write>, j: nat)
    requires GoodHistory(rules, h) && j < |h| && h[j].kind.Approved? && h[j].kind.reviewed.Some?
    ensures h[j].change.updatedAt == h[j].kind.reviewed
  {
    assert j > 0;
    assert Follows(rules, h[j - 1], h[j].kind, h[j].change);
  }

  lemma AcceptedApprovalKeepsContent(rules: Rules, request: Request, change: Change, record: Change)
    requires request.ApproveRequest? && request.reviewed.Some? && RecordFor(rules, request, change) == Ok(record)
    ensures change.updatedAt == request.reviewed && ContentOf(record) == ContentOf(change)
  {}

  /** Already the record an accepted approval is about to write has the content of the version it names. */
  lemma AcceptedApprovalIsOfTheReviewedContent(rules: Rules, w: World, id: string, i: nat, request: Request,
                                               record: Change)
    requires Reachable(rules, w) && id in w.history && i < |w.history[id]|
    requires request.ApproveRequest? && request.reviewed.Some?
    requires w.history[id][i].change.updatedAt == request.reviewed
    requires id in w.records && RecordFor(rules, request, w.records[id].change) == Ok(record)
    ensures ContentOf(record) == ContentOf(w.history[id][i].change)
  {
    AcceptedApprovalKeepsContent(rules, request, w.records[id].change, record);
    RecordHasTheVersion(rules, w, id, i);
  }

  lemma RecordHasTheVersion(rules: Rules, w: World, id: string, i: nat)
    requires Reachable(rules, w) && id in w.history && i < |w.history[id]| && id in w.records
    requires w.history[id][i].change.updatedAt == w.records[id].change.updatedAt
    ensures ContentOf(w.records[id].change) == ContentOf(w.history[id][i].change)
  {
    ReachableHistory(rules, w, id);
    SameVersionSameContent(rules, w, id, i, |w.history[id]| - 1);
  }

  // ---- Files ----

  lemma {:induction false} PathsStayDistinct(rules: Rules, h: seq<Write>, i: nat)
    requires GoodHistory(rules, h) && i < |h|
    ensures Distinct(FilePaths(h[i].change.files))
  {
    if i > 0 {
      PathsStayDistinct(rules, h, i - 1);
      assert Follows(rules, h[i - 1], h[i].kind, h[i].change);
    }
  }

  lemma {:induction false} IssuesAreOfTheFiles(rules: Rules, h: seq<Write>, i: nat)
    requires GoodHistory(rules, h) && i < |h| && h[0].kind == Proposed
    ensures h[i].change.issues == rules(Contents(h[i].change.files))
  {
    if i > 0 {
      IssuesAreOfTheFiles(rules, h, i - 1);
      assert Follows(rules, h[i - 1], h[i].kind, h[i].change);
    }
  }

  /** Every stored record lists each path once; what is approved of a proposed change passes validation. */
  lemma ApprovedFilesAreValid(rules: Rules, w: World, id: string, i: nat)
    requires Reachable(rules, w) && id in w.history && i < |w.history[id]|
    ensures Distinct(FilePaths(w.history[id][i].change.files))
    ensures w.history[id][0].kind == Proposed && w.history[id][i].kind.Approved? ==>
      rules(Contents(w.history[id][i].change.files)) == []
  {
    ReachableHistory(rules, w, id);
    var h := w.history[id];
    PathsStayDistinct(rules, h, i);
    if h[0].kind == Proposed && h[i].kind.Approved? {
      IssuesAreOfTheFiles(rules, h, i);
      assert Follows(rules, h[i - 1], h[i].kind, h[i].change);
    }
  }

  /** The base recorded for a file when it was first added is kept in every later record. */
  lemma {:induction false} RecordedBasesStay(rules: Rules, h: seq<Write>, i: nat, j: nat)
    requires GoodHistory(rules, h) && i <= j < |h|
    ensures KeepsFiles(h[i].change.files, h[j].change.files)
    decreases j
  {
    if i < j {
      RecordedBasesStay(rules, h, i, j - 1);
      assert Follows(rules, h[j - 1], h[j].kind, h[j].change);
    }
  }
}
