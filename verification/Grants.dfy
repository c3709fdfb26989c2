/** That leadership starts a flow's tasks: what each grant, loss and end of the leadership stream leads to. */
module Grants {
  import opened Prelude
  import opened Leadership
  import opened Tenures

  /** What hearing the messages among `signals` adds to the log. */
  function HeardEntries(signals: seq<Signal>): seq<Entry>
    decreases |signals|
  {
    if signals == [] then []
    else
      var last := signals[|signals| - 1];
      HeardEntries(signals[..|signals| - 1]) + if last.Message? then [Heard(last.message)] else []
  }

  /**
   * Tenure `s.tenures` was started from `s`: its tasks are spawned, each `parallel_instances` times in the first
   * tenure and once in later ones, or the monitor fails because they cannot be.
   */
  ghost predicate Started(setup: Setup, s: State, heard: seq<Entry>, t: State) {
    var n := s.tenures;
    if !setup.spawns(n) then t == State(Exited(false), n, s.log + heard)
    else
      exists handles: nat ::
        && (n == 0 && setup.instances > 1 ==> handles == setup.tasks * setup.instances)
        && (n > 0 || setup.instances <= 1 ==> handles == setup.tasks)
        && t.log == s.log + heard + [Spawned(n, handles)]
        && t.tenures == n + 1
        && t.phase == if n == 0 && handles == 0 then Exited(true) else Running(handles)
  }

  /** Signals `i` to `j` grant leadership to a waiting monitor: at once, or once duplicates are drained. */
  ghost predicate GrantedAt(setup: Setup, feed: seq<Signal>, i: nat, j: nat) {
    && i <= j < |feed| && Run(setup, feed[..i]).phase.Waiting?
    && (|| (i == j && feed[i] == Message(NoElection))
        || (&& i < j && feed[i] == Message(Leader)
            && (forall k | i < k < j :: feed[k] in {Message(Leader), TasksDone})
            && feed[j] in {Pause, Message(NotLeader), Message(NoElection)}))
  }

  lemma HeardNext(signals: seq<Signal>, last: Signal)
    ensures HeardEntries(signals + [last]) ==
      HeardEntries(signals) + if last.Message? then [Heard(last.message)] else []
  {
    assert (signals + [last])[..|signals|] == signals;
  }

  lemma {:induction false} DuplicatesAreDrained(setup: Setup, feed: seq<Signal>, i: nat, k: nat)
    requires i < k <= |feed| && Run(setup, feed[..i]).phase.Waiting? && feed[i] == Message(Leader)
    requires forall l | i < l < k :: feed[l] in {Message(Leader), TasksDone}
    ensures var s := Run(setup, feed[..i]);
      Run(setup, feed[..k]) == State(Draining, s.tenures, s.log + HeardEntries(feed[i..k]))
    decreases k
  {
    var s, m := Run(setup, feed[..i]), k - 1;
    RunNext(setup, feed, m);
    assert feed[i..k] == feed[i..m] + [feed[m]];
    HeardNext(feed[i..m], feed[m]);
    if m == i {
      assert feed[i..m] == [];
      assert s.log + HeardEntries(feed[i..k]) == s.log + [Heard(Leader)];
    } else {
      DuplicatesAreDrained(setup, feed, i, m);
      var before := s.log + HeardEntries(feed[i..m]);
      if feed[m].Message? {
        assert before + [Heard(Leader)] == s.log + HeardEntries(feed[i..k]);
      } else {
        assert before == s.log + HeardEntries(feed[i..k]);
      }
    }
  }

  lemma SpawnStarts(setup: Setup, s: State, heard: seq<Entry>, phase: Phase)
    ensures Started(setup, s, heard, Spawn(setup, State(phase, s.tenures, s.log + heard)))
  {
    var handles := HandleCount(setup, s.tenures);
    assert Spawn(setup, State(phase, s.tenures, s.log + heard)).tenures == s.tenures ||
      Spawn(setup, State(phase, s.tenures, s.log + heard)).log == s.log + heard + [Spawned(s.tenures, handles)];
  }

  /**
   * A grant heard while waiting starts the next tenure, as soon as the drain of duplicates ends, whichever
   * signal ends it.
   */
  lemma {:induction false} GrantsStartTheTasks(setup: Setup, feed: seq<Signal>, i: nat, j: nat)
    requires GrantedAt(setup, feed, i, j)
    ensures Started(setup, Run(setup, feed[..i]), HeardEntries(feed[i..j + 1]), Run(setup, feed[..j + 1]))
  {
    var s := Run(setup, feed[..i]);
    var heard := HeardEntries(feed[i..j + 1]);
    RunNext(setup, feed, j);
    HeardNext(feed[i..j], feed[j]);
    assert feed[i..j + 1] == feed[i..j] + [feed[j]];
    if i == j {
      assert feed[i..j] == [];
      assert s.log + heard == s.log + [Heard(NoElection)];
      SpawnStarts(setup, s, heard, Waiting);
    } else {
      DuplicatesAreDrained(setup, feed, i, j);
      assert s.log + heard ==
        s.log + HeardEntries(feed[i..j]) + if feed[j].Message? then [Heard(feed[j].message)] else [];
      assert feed[j] == Pause ==> s.log + heard == s.log + HeardEntries(feed[i..j]);
      SpawnStarts(setup, s, heard, Draining);
    }
  }

  // ---- From one signal to the next ----

  /** Without a grant a waiting monitor goes on waiting. */
  lemma {:induction false} WaitsWithoutAGrant(setup: Setup, feed: seq<Signal>, i: nat)
    requires i < |feed| && Run(setup, feed[..i]).phase.Waiting?
    requires feed[i] !in {Message(Leader), Message(NoElection)}
    ensures var s := Run(setup, feed[..i]);
      Run(setup, feed[..i + 1]) ==
        State(Waiting, s.tenures, if feed[i] == Message(NotLeader) then s.log + [Heard(NotLeader)] else s.log)
  {
    RunNext(setup, feed, i);
  }

  /**
   * Running tasks go on under every signal but two: a loss cancels the tenure's token and aborts its handles,
   * in order, and the completion of all tasks ends the monitor.
   */
  lemma {:induction false} RunningUntilLostOrDone(setup: Setup, feed: seq<Signal>, i: nat)
    requires i < |feed| && Run(setup, feed[..i]).phase.Running?
    ensures var s, t := Run(setup, feed[..i]), Run(setup, feed[..i + 1]);
      && s.tenures > 0 && t.tenures == s.tenures
      && match feed[i]
         case Message(NotLeader) =>
           && t.phase == Waiting
           && |t.log| == |s.log| + 2 + s.phase.handles
           && s.log + [Heard(NotLeader), Cancelled(s.tenures - 1)] <= t.log
           && forall x | |s.log| + 2 <= x < |t.log| :: t.log[x] == Aborted(s.tenures - 1, x - |s.log| - 2)
         case Message(message) => t == s.(log := s.log + [Heard(message)])
         case Pause => t == s
         case TasksDone => t.phase == Exited(true) && t.log == s.log + [Completed(s.tenures - 1)]
  {
    RunNext(setup, feed, i);
    RunKeepsInv(setup, feed[..i]);
  }

  // ---- A granted monitor runs ----

  /** The last message heard, if any, was a grant. */
  predicate Granted(last: Option<Message>) {
    last.Some? && !last.value.NotLeader?
  }

  lemma {:induction false} WaitsOnlyWithoutLeadership(setup: Setup, feed: seq<Signal>)
    ensures Run(setup, feed).phase.Waiting? ==> !Granted(LastMessage(feed))
    decreases |feed|
  {
    if feed != [] {
      WaitsOnlyWithoutLeadership(setup, feed[..|feed| - 1]);
      RunKeepsInv(setup, feed[..|feed| - 1]);
    }
  }

  /** Once the channel was found empty, a monitor that was last granted leadership runs its tasks or has left. */
  lemma {:induction false} PauseLeavesNoDrain(setup: Setup, feed: seq<Signal>)
    requires feed != [] && feed[|feed| - 1] == Pause
    ensures !Run(setup, feed).phase.Draining?
    ensures Granted(LastMessage(feed)) ==>
      Run(setup, feed).phase.Running? || Run(setup, feed).phase.Exited?
  {
    WaitsOnlyWithoutLeadership(setup, feed);
  }

  /** Every tenure can be spawned, and there is a task to run. */
  ghost predicate AlwaysSpawns(setup: Setup) {
    setup.tasks > 0 && forall n :: setup.spawns(n)
  }

  lemma {:induction false} NeverLeavesUndone(setup: Setup, feed: seq<Signal>)
    requires AlwaysSpawns(setup) && TasksDone !in feed
    ensures !Run(setup, feed).phase.Exited?
    decreases |feed|
  {
    if feed != [] {
      NeverLeavesUndone(setup, feed[..|feed| - 1]);
      assert setup.instances > 1 ==> setup.tasks * setup.instances > 0;
    }
  }

  /**
   * Of a flow whose tasks can be spawned and do not complete, once the channel was found empty: the tasks run
   * exactly while it was last granted leadership, or the loss was swallowed by a drain; otherwise it waits.
   */
  lemma {:induction false} LeadershipDecides(setup: Setup, feed: seq<Signal>)
    requires AlwaysSpawns(setup) && TasksDone !in feed
    requires feed != [] && feed[|feed| - 1] == Pause
    ensures Run(setup, feed).phase.Running? <==>
      Granted(LastMessage(feed)) || SwallowedLoss(setup, feed)
    ensures !Run(setup, feed).phase.Running? ==> Run(setup, feed).phase.Waiting?
  {
    PauseLeavesNoDrain(setup, feed);
    NeverLeavesUndone(setup, feed);
    RunsWithoutLeadershipExactlyWhenSwallowed(setup, feed);
    RunningWasGranted(setup, feed);
  }

  lemma {:induction false} RunningWasGranted(setup: Setup, feed: seq<Signal>)
    ensures Run(setup, feed).phase.Running? ==> LastMessage(feed).Some?
    decreases |feed|
  {
    if feed != [] {
      RunningWasGranted(setup, feed[..|feed| - 1]);
      DrainsFollowAGrant(setup, feed[..|feed| - 1]);
      RunKeepsInv(setup, feed[..|feed| - 1]);
    }
  }

  // ---- Every tenure ends ----

  /** Entry `i` spawned a tenure that is cancelled or completed afterwards, or had no task from the start. */
  ghost predicate Ended(log: seq<Entry>, i: nat)
    requires i < |log| && log[i].Spawned?
  {
    || (exists c :: i < c < |log| && log[c] in {Cancelled(log[i].tenure), Completed(log[i].tenure)})
    || (log[i].tenure == 0 && log[i].handles == 0)
  }

  ghost predicate AllEnded(log: seq<Entry>) {
    forall i: nat :: i < |log| && log[i].Spawned? ==> Ended(log, i)
  }

  /** All tenures ended, except the one that runs. */
  ghost predicate OthersEnded(s: State) {
    && forall i: nat :: i < |s.log| && s.log[i].Spawned? ==>
         Ended(s.log, i) || (s.phase.Running? && s.tenures > 0 && s.log[i].tenure == s.tenures - 1)
  }

  lemma EndedStays(log: seq<Entry>, more: seq<Entry>, i: nat)
    requires i < |log| && log[i].Spawned? && Ended(log, i)
    ensures Ended(log + more, i)
  {
    if c :| i < c < |log| && log[c] in {Cancelled(log[i].tenure), Completed(log[i].tenure)} {
      assert (log + more)[c] == log[c];
    }
  }

  lemma OthersEndedStays(s: State, t: State, more: seq<Entry>)
    requires OthersEnded(s) && t.log == s.log + more && (forall e | e in more :: !e.Spawned?)
    requires s.phase.Running? && s.tenures > 0 ==>
      || (t.phase.Running? && t.tenures == s.tenures)
      || Cancelled(s.tenures - 1) in more || Completed(s.tenures - 1) in more
    ensures OthersEnded(t)
  {
    assert forall x | |s.log| <= x < |t.log| :: t.log[x] == more[x - |s.log|] && t.log[x] in more;
    forall i: nat | i < |t.log| && t.log[i].Spawned?
      ensures Ended(t.log, i) || (t.phase.Running? && t.tenures > 0 && t.log[i].tenure == t.tenures - 1)
    {
      if Ended(s.log, i) {
        EndedStays(s.log, more, i);
      } else if !(t.phase.Running? && t.tenures == s.tenures) {
        var x :| 0 <= x < |more| && more[x] in {Cancelled(s.tenures - 1), Completed(s.tenures - 1)};
        assert t.log[|s.log| + x] == more[x];
      }
    }
  }

  lemma SpawnOthersEnded(setup: Setup, s: State)
    requires OthersEnded(s) && !s.phase.Running?
    ensures OthersEnded(Spawn(setup, s))
  {
    var t := Spawn(setup, s);
    if setup.spawns(s.tenures) {
      var entry := Spawned(s.tenures, HandleCount(setup, s.tenures));
      forall i: nat | i < |t.log| && t.log[i].Spawned?
        ensures Ended(t.log, i) || (t.phase.Running? && t.log[i].tenure == t.tenures - 1)
      {
        if i < |s.log| { EndedStays(s.log, [entry], i); }
      }
    }
  }

  lemma HearOthersEnded(s: State, message: Message)
    requires OthersEnded(s)
    ensures OthersEnded(Hear(s, message))
  {
    OthersEndedStays(s, Hear(s, message), [Heard(message)]);
  }

  lemma LoseOthersEnded(s: State)
    requires OthersEnded(s) && s.phase.Running? && s.tenures > 0
    ensures OthersEnded(Lose(s))
  {
    var more := [Cancelled(s.tenures - 1)] + Aborts(s.tenures - 1, s.phase.handles);
    assert Lose(s).log == s.log + more;
    assert more[0] == Cancelled(s.tenures - 1);
    OthersEndedStays(s, Lose(s), more);
  }

  lemma StepOthersEnded(setup: Setup, s: State, signal: Signal)
    requires OthersEnded(s) && (s.phase.Running? ==> s.tenures > 0)
    ensures OthersEnded(Step(setup, s, signal))
  {
    if signal.Message? { HearOthersEnded(s, signal.message); }
    match s.phase
    case Waiting => if signal.Message? { SpawnOthersEnded(setup, Hear(s, signal.message)); }
    case Draining => SpawnOthersEnded(setup, if signal.Message? then Hear(s, signal.message) else s);
    case Running(_) =>
      if signal == Message(NotLeader) { LoseOthersEnded(Hear(s, NotLeader)); }
      if signal == TasksDone {
        OthersEndedStays(s, Step(setup, s, TasksDone), [Completed(s.tenures - 1)]);
      }
    case Exited(_) =>
  }

  lemma {:induction false} RunOthersEnded(setup: Setup, feed: seq<Signal>)
    ensures OthersEnded(Run(setup, feed))
    decreases |feed|
  {
    if feed != [] {
      var before := feed[..|feed| - 1];
      RunOthersEnded(setup, before);
      RunKeepsInv(setup, before);
      StepOthersEnded(setup, Run(setup, before), feed[|feed| - 1]);
    }
  }

  /** When the channel closes the monitor leaves, and every tenure it ever spawned was cancelled or completed. */
  lemma {:induction false} EveryTenureEnds(setup: Setup, feed: seq<Signal>)
    ensures Close(setup, Run(setup, feed)).phase.Exited?
    ensures AllEnded(Close(setup, Run(setup, feed)).log)
  {
    var s := Run(setup, feed);
    RunOthersEnded(setup, feed);
    RunKeepsInv(setup, feed);
    var t := if s.phase.Draining? then Spawn(setup, s) else s;
    if s.phase.Draining? { SpawnOthersEnded(setup, s); }
    var u := Close(setup, s);
    if t.phase.Running? { OthersEndedStays(t, u, [Completed(t.tenures - 1)]); }
    assert OthersEnded(u) && u.phase.Exited?;
  }

  lemma {:induction false} EarlierTenuresSpawned(setup: Setup, feed: seq<Signal>)
    ensures forall n: nat | n < Run(setup, feed).tenures :: setup.spawns(n)
    ensures Run(setup, feed).phase == Exited(false) ==> !setup.spawns(Run(setup, feed).tenures)
    decreases |feed|
  {
    if feed != [] { EarlierTenuresSpawned(setup, feed[..|feed| - 1]); }
  }

  /** The monitor fails only because a tenure could not be spawned; all tenures before it were. */
  lemma FailsOnlyToSpawn(setup: Setup, feed: seq<Signal>)
    ensures var t := Close(setup, Run(setup, feed));
      && (forall n: nat | n < t.tenures :: setup.spawns(n))
      && (t.phase != Exited(true) ==> t.phase == Exited(false) && !setup.spawns(t.tenures))
  {
    EarlierTenuresSpawned(setup, feed);
    EveryTenureEnds(setup, feed);
  }

  /** A grant that a closing channel cuts short starts its tasks too, and they are waited for. */
  lemma {:induction false} ClosingEndsADrain(setup: Setup, feed: seq<Signal>, i: nat)
    requires i < |feed| && Run(setup, feed[..i]).phase.Waiting? && feed[i] == Message(Leader)
    requires forall k | i < k < |feed| :: feed[k] in {Message(Leader), TasksDone}
    requires setup.spawns(Run(setup, feed[..i]).tenures)
    ensures exists handles :: Spawned(Run(setup, feed[..i]).tenures, handles) in Close(setup, Run(setup, feed)).log
    ensures Close(setup, Run(setup, feed)).phase == Exited(true)
  {
    DuplicatesAreDrained(setup, feed, i, |feed|);
    assert feed[..|feed|] == feed;
    var s := Run(setup, feed);
    var t := Spawn(setup, s);
    assert t.log[|s.log|].Spawned?;
    assert t.log[|s.log|] in t.log;
    assert t.log <= Close(setup, s).log;
  }
}
