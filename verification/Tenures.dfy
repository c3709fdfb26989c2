/** What the leadership monitor guarantees over every sequence of messages, pauses and completions. */
module Tenures {
  import opened Prelude
  import opened Leadership

  /** The tenure spawned at entry `i` was cancelled and every handle of it aborted before entry `k`. */
  ghost predicate StoppedBy(log: seq<Entry>, i: nat, k: nat)
    requires i < |log| && log[i].Spawned?
  {
    exists c ::
      && i < c && c + log[i].handles < k <= |log| && log[c] == Cancelled(log[i].tenure)
      && forall h | 0 <= h < log[i].handles :: log[c + 1 + h] == Aborted(log[i].tenure, h)
  }

  predicate Grants(e: Entry) { e == Heard(Leader) || e == Heard(NoElection) }

  /** And leadership was granted after that, before entry `k`. */
  ghost predicate HandedOver(log: seq<Entry>, i: nat, k: nat)
    requires i < |log| && log[i].Spawned?
  {
    exists m :: 0 <= m < k <= |log| && Grants(log[m]) && StoppedBy(log, i, m)
  }

  ghost predicate HandoversOk(log: seq<Entry>) {
    forall i, j :: 0 <= i < j < |log| && log[i].Spawned? && log[j].Spawned? ==> HandedOver(log, i, j)
  }

  ghost predicate AllStopped(log: seq<Entry>) {
    forall i :: 0 <= i < |log| && log[i].Spawned? ==> StoppedBy(log, i, |log|)
  }

  ghost predicate AllHandedOver(log: seq<Entry>) {
    forall i :: 0 <= i < |log| && log[i].Spawned? ==> HandedOver(log, i, |log|)
  }

  /** Entry `p` is the spawn of the running tenure: every earlier tenure was handed over to it. */
  ghost predicate RunsSince(log: seq<Entry>, p: nat, tenure: nat, handles: nat) {
    && p < |log| && log[p] == Spawned(tenure, handles)
    && (forall i :: 0 <= i < p && log[i].Spawned? ==> HandedOver(log, i, p))
    && (forall i :: p < i < |log| ==> log[i].Heard?)
  }

  ghost predicate RunsNow(log: seq<Entry>, tenure: nat, handles: nat) {
    exists p :: RunsSince(log, p, tenure, handles)
  }

  ghost predicate Numbered(log: seq<Entry>, tenures: nat) {
    && (forall i :: 0 <= i < |log| && log[i].Spawned? ==> log[i].tenure < tenures)
    && (forall i, j :: 0 <= i < j < |log| && log[i].Spawned? && log[j].Spawned? ==> log[i].tenure < log[j].tenure)
    && (forall i :: 0 <= i < |log| && log[i].Cancelled? ==> log[i].tenure < tenures)
  }

  ghost predicate PhaseOk(s: State) {
    match s.phase
    case Waiting => AllStopped(s.log)
    case Draining => AllHandedOver(s.log)
    case Running(handles) => s.tenures > 0 && RunsNow(s.log, s.tenures - 1, handles)
    case Exited(_) => true
  }

  ghost predicate Inv(s: State) { HandoversOk(s.log) && PhaseOk(s) && Numbered(s.log, s.tenures) }

  lemma StoppedStays(log: seq<Entry>, more: seq<Entry>, i: nat, k: nat)
    requires i < |log| && log[i].Spawned? && StoppedBy(log, i, k)
    ensures forall l :: k <= l <= |log + more| ==> StoppedBy(log + more, i, l)
  {
    var c :| i < c && c + log[i].handles < k <= |log| && log[c] == Cancelled(log[i].tenure)
             && forall h | 0 <= h < log[i].handles :: log[c + 1 + h] == Aborted(log[i].tenure, h);
    var longer := log + more;
    forall l | k <= l <= |longer| ensures StoppedBy(longer, i, l) {
      assert longer[c] == log[c];
      forall h | 0 <= h < longer[i].handles ensures longer[c + 1 + h] == Aborted(longer[i].tenure, h) {
        assert longer[c + 1 + h] == log[c + 1 + h];
      }
    }
  }

  lemma HandedOverStays(log: seq<Entry>, more: seq<Entry>, i: nat, k: nat)
    requires i < |log| && log[i].Spawned? && HandedOver(log, i, k)
    ensures forall l :: k <= l <= |log + more| ==> HandedOver(log + more, i, l)
    ensures forall l :: k <= l <= |log + more| ==> StoppedBy(log + more, i, l)
  {
    var m :| 0 <= m < k <= |log| && Grants(log[m]) && StoppedBy(log, i, m);
    StoppedStays(log, more, i, m);
    assert (log + more)[m] == log[m];
  }

  /** A message, a cancellation, aborts or a completion start no tenure. */
  lemma HandoversStay(log: seq<Entry>, more: seq<Entry>)
    requires HandoversOk(log) && forall x | 0 <= x < |more| :: !more[x].Spawned?
    ensures HandoversOk(log + more)
  {
    var longer := log + more;
    assert forall j | |log| <= j < |longer| :: longer[j] == more[j - |log|];
    forall i, j | 0 <= i < j < |log| && longer[i].Spawned? && longer[j].Spawned? ensures HandedOver(longer, i, j) {
      HandedOverStays(log, more, i, j);
    }
  }

  lemma HearingGrants(log: seq<Entry>, message: Message)
    requires AllStopped(log)
    ensures AllStopped(log + [Heard(message)])
    ensures !message.NotLeader? ==> AllHandedOver(log + [Heard(message)])
  {
    var longer := log + [Heard(message)];
    forall i | 0 <= i < |longer| && longer[i].Spawned?
      ensures StoppedBy(longer, i, |log|) && StoppedBy(longer, i, |longer|)
    {
      StoppedStays(log, [Heard(message)], i, |log|);
    }
  }

  lemma HearingKeepsHandedOver(log: seq<Entry>, message: Message)
    requires AllHandedOver(log)
    ensures AllHandedOver(log + [Heard(message)])
  {
    var longer := log + [Heard(message)];
    forall i | 0 <= i < |longer| && longer[i].Spawned? ensures HandedOver(longer, i, |longer|) {
      HandedOverStays(log, [Heard(message)], i, |log|);
    }
  }

  lemma SpawningIsSafe(setup: Setup, s: State)
    requires HandoversOk(s.log) && AllHandedOver(s.log) && Numbered(s.log, s.tenures)
    ensures Inv(Spawn(setup, s))
  {
    var t := Spawn(setup, s);
    if setup.spawns(s.tenures) {
      var spawned := [Spawned(s.tenures, HandleCount(setup, s.tenures))];
      forall i | 0 <= i < |s.log| && s.log[i].Spawned? ensures HandedOver(t.log, i, |s.log|) {
        HandedOverStays(s.log, spawned, i, |s.log|);
      }
      forall i, j | 0 <= i < j < |t.log| && t.log[i].Spawned? && t.log[j].Spawned? ensures HandedOver(t.log, i, j) {
        if j < |s.log| { HandedOverStays(s.log, spawned, i, j); }
      }
      assert RunsSince(t.log, |s.log|, s.tenures, HandleCount(setup, s.tenures));
    }
  }

  lemma LosingStopsAll(s: State, p: nat)
    requires s.phase.Running? && s.tenures > 0 && RunsSince(s.log, p, s.tenures - 1, s.phase.handles)
    ensures AllStopped(Lose(s).log)
  {
    var tenure, handles := s.tenures - 1, s.phase.handles;
    var more := [Cancelled(tenure)] + Aborts(tenure, handles);
    var longer := Lose(s).log;
    assert longer == s.log + more;
    forall i | 0 <= i < |longer| && longer[i].Spawned? ensures StoppedBy(longer, i, |longer|) {
      if i == p {
        var c := |s.log|;
        assert longer[c] == Cancelled(tenure);
        assert forall h | 0 <= h < handles :: longer[c + 1 + h] == Aborts(tenure, handles)[h];
      } else {
        assert i < p;
        HandedOverStays(s.log, more, i, p);
      }
    }
  }

  lemma HearingRunsOn(log: seq<Entry>, message: Message, p: nat, tenure: nat, handles: nat)
    requires RunsSince(log, p, tenure, handles)
    ensures RunsSince(log + [Heard(message)], p, tenure, handles)
  {
    var longer := log + [Heard(message)];
    forall i | 0 <= i < p && longer[i].Spawned? ensures HandedOver(longer, i, p) {
      HandedOverStays(log, [Heard(message)], i, p);
    }
  }

  lemma NumberedStays(log: seq<Entry>, more: seq<Entry>, tenures: nat)
    requires Numbered(log, tenures) && forall e | e in more :: !e.Spawned? && (e.Cancelled? ==> e.tenure < tenures)
    ensures Numbered(log + more, tenures)
  {}

  lemma HearingKeeps(s: State, message: Message)
    requires Inv(s)
    ensures var t := Hear(s, message); HandoversOk(t.log) && Numbered(t.log, t.tenures)
  {
    HandoversStay(s.log, [Heard(message)]);
    NumberedStays(s.log, [Heard(message)], s.tenures);
  }

  lemma WaitingStepKeepsInv(setup: Setup, s: State, message: Message)
    requires Inv(s) && s.phase.Waiting?
    ensures Inv(Step(setup, s, Message(message)))
  {
    HearingKeeps(s, message);
    HearingGrants(s.log, message);
    if message.NoElection? { SpawningIsSafe(setup, Hear(s, message)); }
  }

  lemma DrainingStepKeepsInv(setup: Setup, s: State, signal: Signal)
    requires Inv(s) && s.phase.Draining?
    ensures Inv(Step(setup, s, signal))
  {
    match signal
    case Message(message) =>
      HearingKeeps(s, message);
      HearingKeepsHandedOver(s.log, message);
      if !message.Leader? { SpawningIsSafe(setup, Hear(s, message)); }
    case Pause => SpawningIsSafe(setup, s);
    case TasksDone =>
  }

  lemma LossKeepsInv(s: State)
    requires Inv(s) && s.phase.Running?
    ensures Inv(Lose(Hear(s, NotLeader)))
  {
    var heard := Hear(s, NotLeader);
    var p :| RunsSince(s.log, p, s.tenures - 1, s.phase.handles);
    HearingKeeps(s, NotLeader);
    HearingRunsOn(s.log, NotLeader, p, s.tenures - 1, s.phase.handles);
    LosingStopsAll(heard, p);
    var more := [Cancelled(s.tenures - 1)] + Aborts(s.tenures - 1, s.phase.handles);
    assert Lose(heard).log == heard.log + more;
    HandoversStay(heard.log, more);
    NumberedStays(heard.log, more, s.tenures);
  }

  lemma CompletingKeepsInv(s: State)
    requires Inv(s) && s.phase.Running?
    ensures Inv(s.(phase := Exited(true), log := s.log + [Completed(s.tenures - 1)]))
  {
    HandoversStay(s.log, [Completed(s.tenures - 1)]);
    NumberedStays(s.log, [Completed(s.tenures - 1)], s.tenures);
  }

  lemma RunningStepKeepsInv(setup: Setup, s: State, signal: Signal)
    requires Inv(s) && s.phase.Running?
    ensures Inv(Step(setup, s, signal))
  {
    match signal
    case Message(NotLeader) => LossKeepsInv(s);
    case Message(message) =>
      var p :| RunsSince(s.log, p, s.tenures - 1, s.phase.handles);
      HearingKeeps(s, message);
      HearingRunsOn(s.log, message, p, s.tenures - 1, s.phase.handles);
      assert RunsNow(Hear(s, message).log, s.tenures - 1, s.phase.handles);
    case Pause =>
    case TasksDone => CompletingKeepsInv(s);
  }

  lemma {:induction false} RunKeepsInv(setup: Setup, feed: seq<Signal>)
    ensures Inv(Run(setup, feed))
    decreases |feed|
  {
    if feed != [] {
      var s, signal := Run(setup, feed[..|feed| - 1]), feed[|feed| - 1];
      RunKeepsInv(setup, feed[..|feed| - 1]);
      match s.phase
      case Waiting => if signal.Message? { WaitingStepKeepsInv(setup, s, signal.message); }
      case Draining => DrainingStepKeepsInv(setup, s, signal);
      case Running(_) => RunningStepKeepsInv(setup, s, signal);
      case Exited(_) =>
    }
  }

  lemma CloseKeepsInv(setup: Setup, s: State)
    requires Inv(s)
    ensures Inv(Close(setup, s))
  {
    var t := s;
    if s.phase.Draining? {
      SpawningIsSafe(setup, s);
      t := Spawn(setup, s);
    }
    if t.phase.Running? { CompletingKeepsInv(t); }
  }

  /**
   * Between any two spawns of a monitor's whole life, the earlier tenure was cancelled, all its
   * handles were aborted, and leadership was granted after that.
   */
  lemma RespawnsFollowAFullStop(setup: Setup, feed: seq<Signal>, i: nat, j: nat)
    requires var log := Close(setup, Run(setup, feed)).log; i < j < |log| && log[i].Spawned? && log[j].Spawned?
    ensures HandedOver(Close(setup, Run(setup, feed)).log, i, j)
  {
    RunKeepsInv(setup, feed);
    CloseKeepsInv(setup, Run(setup, feed));
  }

  /** Spawned and not cancelled within the first `k` entries. */
  ghost predicate Uncancelled(log: seq<Entry>, k: nat, tenure: nat) {
    && k <= |log|
    && (exists i :: 0 <= i < k && log[i].Spawned? && log[i].tenure == tenure)
    && forall c :: 0 <= c < k ==> log[c] != Cancelled(tenure)
  }

  /** At no moment are two tenures uncancelled. */
  lemma AtMostOneTenureRuns(setup: Setup, feed: seq<Signal>, k: nat, a: nat, b: nat)
    requires var log := Close(setup, Run(setup, feed)).log; Uncancelled(log, k, a) && Uncancelled(log, k, b)
    ensures a == b
  {
    var log := Close(setup, Run(setup, feed)).log;
    var i :| 0 <= i < k && log[i].Spawned? && log[i].tenure == a;
    var j :| 0 <= j < k && log[j].Spawned? && log[j].tenure == b;
    if i < j {
      RespawnsFollowAFullStop(setup, feed, i, j);
    } else if j < i {
      RespawnsFollowAFullStop(setup, feed, j, i);
    }
  }

  // ---- What the drains swallow ----

  function LastMessage(feed: seq<Signal>): Option<Message>
    decreases |feed|
  {
    if feed == [] then None
    else if feed[|feed| - 1].Message? then Some(feed[|feed| - 1].message)
    else LastMessage(feed[..|feed| - 1])
  }

  /** Signal `k` is a `NotLeader` that came while duplicates were drained, and no message came after it. */
  ghost predicate SwallowedAt(setup: Setup, feed: seq<Signal>, k: nat) {
    && k < |feed| && feed[k] == Message(NotLeader) && Run(setup, feed[..k]).phase.Draining?
    && forall j :: k < j < |feed| ==> !feed[j].Message?
  }

  ghost predicate SwallowedLoss(setup: Setup, feed: seq<Signal>) {
    exists k: nat :: SwallowedAt(setup, feed, k)
  }

  /** Spawning the tenure leaves tasks to monitor. */
  predicate TenureStarts(setup: Setup, tenure: nat) {
    setup.spawns(tenure) && (tenure == 0 ==> HandleCount(setup, tenure) > 0)
  }

  lemma SwallowedBefore(setup: Setup, feed: seq<Signal>, k: nat)
    requires feed != [] && k < |feed| - 1
    ensures SwallowedAt(setup, feed, k) <==>
      SwallowedAt(setup, feed[..|feed| - 1], k) && !feed[|feed| - 1].Message?
  {
    var before := feed[..|feed| - 1];
    assert before[..k] == feed[..k];
    assert forall j | 0 <= j < |before| :: before[j] == feed[j];
  }

  /** The message that ends a drain spawns the tasks whatever it says, and they run until they are done. */
  lemma {:induction false} SwallowedLossStartsTasks(setup: Setup, feed: seq<Signal>, k: nat)
    requires SwallowedAt(setup, feed, k)
    ensures var phase := Run(setup, feed).phase;
      if TenureStarts(setup, Run(setup, feed[..k]).tenures) && TasksDone !in feed[k + 1..]
      then phase.Running? else phase.Exited?
    ensures LastMessage(feed) == Some(NotLeader)
    decreases |feed|
  {
    var before, last := feed[..|feed| - 1], feed[|feed| - 1];
    if k == |feed| - 1 {
      assert feed[k + 1..] == [] && before == feed[..k];
    } else {
      SwallowedBefore(setup, feed, k);
      SwallowedLossStartsTasks(setup, before, k);
      RunKeepsInv(setup, before);
      assert before[..k] == feed[..k] && feed[k + 1..] == before[k + 1..] + [last];
    }
  }

  lemma {:induction false} RunningAfterALossSwallowedIt(setup: Setup, feed: seq<Signal>)
    ensures Run(setup, feed).phase.Running? && LastMessage(feed) == Some(NotLeader) ==> SwallowedLoss(setup, feed)
    decreases |feed|
  {
    if feed != [] && Run(setup, feed).phase.Running? && LastMessage(feed) == Some(NotLeader) {
      var before, last := feed[..|feed| - 1], feed[|feed| - 1];
      RunKeepsInv(setup, before);
      if last.Message? {
        assert SwallowedAt(setup, feed, |before|);
      } else {
        DrainsFollowAGrant(setup, before);
        RunningAfterALossSwallowedIt(setup, before);
        var k: nat :| SwallowedAt(setup, before, k);
        SwallowedBefore(setup, feed, k);
      }
    }
  }

  lemma {:induction false} DrainsFollowAGrant(setup: Setup, feed: seq<Signal>)
    ensures Run(setup, feed).phase.Draining? ==> LastMessage(feed) == Some(Leader)
    decreases |feed|
  {
    if feed != [] { DrainsFollowAGrant(setup, feed[..|feed| - 1]); }
  }

  /**
   * Tasks run although the last message said `NotLeader` if and only if that message ended a drain of
   * duplicate `Leader` messages, its tenure could be spawned with a task, and the tasks are not done;
   * that is, whenever the monitor is still there after such a message.
   */
  lemma RunsWithoutLeadershipExactlyWhenSwallowed(setup: Setup, feed: seq<Signal>)
    ensures (Run(setup, feed).phase.Running? && LastMessage(feed) == Some(NotLeader)) <==>
      exists k: nat ::
        && SwallowedAt(setup, feed, k)
        && TenureStarts(setup, Run(setup, feed[..k]).tenures) && TasksDone !in feed[k + 1..]
    ensures (Run(setup, feed).phase.Running? && LastMessage(feed) == Some(NotLeader)) <==>
      SwallowedLoss(setup, feed) && !Run(setup, feed).phase.Exited?
  {
    RunningAfterALossSwallowedIt(setup, feed);
    forall k: nat | SwallowedAt(setup, feed, k)
      ensures LastMessage(feed) == Some(NotLeader)
      ensures Run(setup, feed).phase.Running? <==>
        TenureStarts(setup, Run(setup, feed[..k]).tenures) && TasksDone !in feed[k + 1..]
      ensures Run(setup, feed).phase.Running? || Run(setup, feed).phase.Exited?
    {
      SwallowedLossStartsTasks(setup, feed, k);
    }
  }

  /** A `Leader` and a `NotLeader` already waiting behind it start the tasks. */
  lemma LossBehindAGrantStartsTasks(setup: Setup)
    requires setup.tasks > 0 && setup.spawns(0)
    ensures exists feed :: Run(setup, feed).phase.Running? && LastMessage(feed) == Some(NotLeader)
  {
    var feed := [Message(Leader), Message(NotLeader)];
    assert feed[..1] == [Message(Leader)] && [Message(Leader)][..0] == [];
    assert Run(setup, feed[..1]) == State(Draining, 0, [Heard(Leader)]);
    assert Run(setup, feed) == Spawn(setup, Hear(Run(setup, feed[..1]), NotLeader));
    assert HandleCount(setup, 0) > 0;
  }

  // ---- Nothing heard is made up ----

  function Messages(feed: seq<Signal>): seq<Message>
    decreases |feed|
  {
    if feed == [] then []
    else Messages(feed[..|feed| - 1]) + if feed[|feed| - 1].Message? then [feed[|feed| - 1].message] else []
  }

  function HeardOf(log: seq<Entry>): seq<Message>
    decreases |log|
  {
    if log == [] then []
    else HeardOf(log[..|log| - 1]) + if log[|log| - 1].Heard? then [log[|log| - 1].message] else []
  }

  lemma {:induction false} HeardOfMore(log: seq<Entry>, more: seq<Entry>)
    requires forall e | e in more :: !e.Heard?
    ensures HeardOf(log + more) == HeardOf(log)
    decreases |more|
  {
    if more == [] {
      assert log + more == log;
    } else {
      assert (log + more)[..|log + more| - 1] == log + more[..|more| - 1];
      HeardOfMore(log, more[..|more| - 1]);
    }
  }

  lemma HeardOfHear(log: seq<Entry>, message: Message)
    ensures HeardOf(log + [Heard(message)]) == HeardOf(log) + [message]
  {}

  /** The monitor hears every message in order, until it leaves. */
  lemma {:induction false} HeardIsTheFeed(setup: Setup, feed: seq<Signal>)
    ensures HeardOf(Run(setup, feed).log) <= Messages(feed)
    ensures !Run(setup, feed).phase.Exited? ==> HeardOf(Run(setup, feed).log) == Messages(feed)
    decreases |feed|
  {
    if feed != [] {
      var s, signal := Run(setup, feed[..|feed| - 1]), feed[|feed| - 1];
      HeardIsTheFeed(setup, feed[..|feed| - 1]);
      RunKeepsInv(setup, feed[..|feed| - 1]);
      StepHears(setup, s, signal);
    }
  }

  lemma StepHears(setup: Setup, s: State, signal: Signal)
    requires s.phase.Running? ==> s.tenures > 0
    ensures HeardOf(Step(setup, s, signal).log) ==
      HeardOf(s.log) + if signal.Message? && !s.phase.Exited? then [signal.message] else []
  {
    var heard := if signal.Message? then Hear(s, signal.message) else s;
    if signal.Message? { HeardOfHear(s.log, signal.message); }
    HeardOfMore(heard.log, [Spawned(s.tenures, HandleCount(setup, s.tenures))]);
    if s.phase.Running? {
      HeardOfMore(heard.log, [Completed(s.tenures - 1)]);
      var more := [Cancelled(s.tenures - 1)] + Aborts(s.tenures - 1, s.phase.handles);
      HeardOfMore(heard.log, more);
      assert heard.log + more == heard.log + [Cancelled(s.tenures - 1)] + Aborts(s.tenures - 1, s.phase.handles);
    }
  }
}
