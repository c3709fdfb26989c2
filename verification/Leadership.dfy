/**
 * The tenures of a leader-elected flow: tasks spawned on gaining leadership, cancelled and aborted on
 * losing it, until they all complete or the leadership channel closes.
 */
module Leadership {
  datatype Message = Leader | NotLeader | NoElection

  /** What reaches the monitor next: a message, an empty channel, or the completion of all running tasks. */
  datatype Signal = Message(message: Message) | Pause | TasksDone

  /** What the monitor does, in order. Each tenure has its own cancellation token. */
  datatype Entry =
    | Heard(message: Message)
    | Spawned(tenure: nat, handles: nat)
    | Cancelled(tenure: nat)
    | Aborted(tenure: nat, handle: nat)
    | Completed(tenure: nat)

  datatype Phase = Waiting | Draining | Running(handles: nat) | Exited(ok: bool)

  datatype State = State(phase: Phase, tenures: nat, log: seq<Entry>)

  /** The flow's task count and `parallel_instances`, and whether its n-th spawn succeeds. */
  datatype Setup = Setup(tasks: nat, instances: nat, spawns: nat -> bool)

  function Aborts(tenure: nat, handles: nat): (r: seq<Entry>)
    ensures |r| == handles && forall h | 0 <= h < handles :: r[h] == Aborted(tenure, h)
  {
    seq(handles, h requires 0 <= h < handles => Aborted(tenure, h))
  }

  /** Only the first tenure runs parallel instances; a flow without tasks ends there. */
  function HandleCount(setup: Setup, tenure: nat): nat {
    if tenure == 0 && setup.instances > 1 then setup.tasks * setup.instances else setup.tasks
  }

  function Spawn(setup: Setup, s: State): State {
    var tenure, handles := s.tenures, HandleCount(setup, s.tenures);
    if !setup.spawns(tenure) then s.(phase := Exited(false))
    else
      State(if tenure == 0 && handles == 0 then Exited(true) else Running(handles),
            tenure + 1, s.log + [Spawned(tenure, handles)])
  }

  function Hear(s: State, message: Message): State { s.(log := s.log + [Heard(message)]) }

  function Lose(s: State): State
    requires s.phase.Running? && s.tenures > 0
  {
    State(Waiting, s.tenures, s.log + [Cancelled(s.tenures - 1)] + Aborts(s.tenures - 1, s.phase.handles))
  }

  function Step(setup: Setup, s: State, signal: Signal): State {
    match s.phase
    case Waiting =>
      if !signal.Message? then s
      else
        var heard := Hear(s, signal.message);
        if signal.message.Leader? then heard.(phase := Draining)
        else if signal.message.NoElection? then Spawn(setup, heard)
        else heard
    case Draining => (
      match signal
      case Message(Leader) => Hear(s, Leader)
      case Message(message) => Spawn(setup, Hear(s, message))
      case Pause => Spawn(setup, s)
      case TasksDone => s)
    case Running(_) =>
      if s.tenures == 0 then s
      else (
        match signal
        case Message(NotLeader) => Lose(Hear(s, NotLeader))
        case Message(message) => Hear(s, message)
        case Pause => s
        case TasksDone => s.(phase := Exited(true), log := s.log + [Completed(s.tenures - 1)]))
    case Exited(_) => s
  }

  function Run(setup: Setup, feed: seq<Signal>): State
    decreases |feed|
  {
    if feed == [] then State(Waiting, 0, []) else Step(setup, Run(setup, feed[..|feed| - 1]), feed[|feed| - 1])
  }

  /** The channel closes: a waiting monitor leaves, one with tasks waits for them to complete. */
  function Close(setup: Setup, s: State): State {
    var t := if s.phase.Draining? then Spawn(setup, s) else s;
    if t.phase.Waiting? then t.(phase := Exited(true))
    else if t.phase.Running? && t.tenures > 0 then t.(phase := Exited(true), log := t.log + [Completed(t.tenures - 1)])
    else t
  }

  // ---- The loops of monitor_tasks ----

  lemma RunNext(setup: Setup, feed: seq<Signal>, i: nat)
    requires i < |feed|
    ensures Run(setup, feed[..i + 1]) == Step(setup, Run(setup, feed[..i]), feed[i])
  {
    assert feed[..i + 1][..i] == feed[..i];
  }

  lemma {:induction false} ExitedStays(setup: Setup, feed: seq<Signal>, i: nat)
    requires i <= |feed| && Run(setup, feed[..i]).phase.Exited?
    ensures Run(setup, feed) == Run(setup, feed[..i])
    decreases |feed| - i
  {
    if i == |feed| {
      assert feed[..i] == feed;
    } else {
      RunNext(setup, feed, i);
      ExitedStays(setup, feed, i + 1);
    }
  }

  /** `s` is where the monitor stands after the first `i` signals, or in the end once the channel is closed. */
  ghost predicate Stands(setup: Setup, feed: seq<Signal>, i: nat, s: State) {
    && i <= |feed|
    && (Run(setup, feed[..i]) == s || (i == |feed| && Close(setup, Run(setup, feed)) == Close(setup, s)))
  }

  lemma StandsNext(setup: Setup, feed: seq<Signal>, i: nat, s: State)
    requires i < |feed| && Stands(setup, feed, i, s)
    ensures Stands(setup, feed, i + 1, Step(setup, s, feed[i]))
    ensures Run(setup, feed[..i + 1]) == Step(setup, s, feed[i])
  {
    RunNext(setup, feed, i);
  }

  lemma StandsInTheEnd(setup: Setup, feed: seq<Signal>, i: nat, s: State)
    requires Stands(setup, feed, i, s) && (i == |feed| || s.phase.Exited?)
    ensures Close(setup, Run(setup, feed)) == Close(setup, s)
  {
    if i == |feed| { assert feed[..i] == feed; } else { ExitedStays(setup, feed, i); }
  }

  /** The drain of duplicate `Leader` messages: whichever other message ends it is consumed too. */
  method Drain(setup: Setup, feed: seq<Signal>, start: nat, log: seq<Entry>, tenures: nat)
    returns (i: nat, heard: seq<Entry>)
    requires start <= |feed| && Run(setup, feed[..start]) == State(Draining, tenures, log)
    ensures start <= i && Stands(setup, feed, i, Spawn(setup, State(Draining, tenures, heard)))
  {
    i, heard := start, log;
    while i < |feed|
      invariant start <= i <= |feed| && Run(setup, feed[..i]) == State(Draining, tenures, heard)
    {
      RunNext(setup, feed, i);
      var signal := feed[i];
      i := i + 1;
      match signal {
        case Message(message) =>
          heard := heard + [Heard(message)];
          if !message.Leader? { return; }
        case Pause => return;
        case TasksDone =>
      }
    }
    assert feed[..i] == feed;
  }

  /** The wait for leadership, first and again after each loss. */
  method AwaitLeadership(setup: Setup, feed: seq<Signal>, start: nat, log: seq<Entry>, tenures: nat)
    returns (i: nat, heard: seq<Entry>, acquired: bool)
    requires start <= |feed| && Run(setup, feed[..start]) == State(Waiting, tenures, log)
    ensures start <= i <= |feed|
    ensures !acquired ==> Run(setup, feed) == State(Waiting, tenures, heard)
    ensures acquired ==> Stands(setup, feed, i, Spawn(setup, State(Draining, tenures, heard)))
  {
    i, heard, acquired := start, log, false;
    while i < |feed|
      invariant start <= i <= |feed| && Run(setup, feed[..i]) == State(Waiting, tenures, heard)
    {
      RunNext(setup, feed, i);
      var signal := feed[i];
      i := i + 1;
      if signal.Message? {
        heard := heard + [Heard(signal.message)];
        match signal.message {
          case Leader =>
            i, heard := Drain(setup, feed, i, heard, tenures);
            return i, heard, true;
          case NoElection => return i, heard, true;
          case NotLeader =>
        }
      }
    }
    assert feed[..i] == feed;
  }

  /** Cancels the tenure's token and aborts every one of its handles. */
  method StopTenure(log: seq<Entry>, tenure: nat, handles: nat) returns (stopped: seq<Entry>)
    ensures stopped == log + [Cancelled(tenure)] + Aborts(tenure, handles)
  {
    stopped := log + [Cancelled(tenure)];
    for h := 0 to handles
      invariant stopped == log + [Cancelled(tenure)] + Aborts(tenure, h)
    {
      stopped := stopped + [Aborted(tenure, h)];
    }
  }

  /** The select over messages and task completion; false when leadership was lost. */
  method AwaitTasks(setup: Setup, feed: seq<Signal>, start: nat, log: seq<Entry>, tenures: nat, handles: nat)
    returns (i: nat, heard: seq<Entry>, completed: bool)
    requires tenures > 0 && Stands(setup, feed, start, State(Running(handles), tenures, log))
    ensures start <= i <= |feed|
    ensures completed ==> Close(setup, Run(setup, feed)) == State(Exited(true), tenures, heard)
    ensures !completed ==> start < i && Run(setup, feed[..i]) == State(Waiting, tenures, heard)
  {
    i, heard := start, log;
    while i < |feed|
      invariant start <= i && Stands(setup, feed, i, State(Running(handles), tenures, heard))
    {
      StandsNext(setup, feed, i, State(Running(handles), tenures, heard));
      var signal := feed[i];
      i := i + 1;
      match signal {
        case Message(NotLeader) =>
          heard := heard + [Heard(NotLeader)];
          heard := StopTenure(heard, tenures - 1, handles);
          return i, heard, false;
        case Message(message) => heard := heard + [Heard(message)];
        case TasksDone =>
          heard := heard + [Completed(tenures - 1)];
          StandsInTheEnd(setup, feed, i, State(Exited(true), tenures, heard));
          return i, heard, true;
        case Pause =>
      }
    }
    StandsInTheEnd(setup, feed, i, State(Running(handles), tenures, heard));
    heard := heard + [Completed(tenures - 1)];
    completed := true;
  }

  /** `monitor_tasks` of a leader-elected flow. */
  method MonitorTasks(setup: Setup, feed: seq<Signal>) returns (ok: bool, log: seq<Entry>)
    ensures Close(setup, Run(setup, feed)).phase == Exited(ok) && Close(setup, Run(setup, feed)).log == log
  {
    var tenures := 0;
    var i, heard, acquired := AwaitLeadership(setup, feed, 0, [], 0);
    log := heard;
    while acquired
      invariant if acquired then Stands(setup, feed, i, Spawn(setup, State(Draining, tenures, log)))
                else Run(setup, feed) == State(Waiting, tenures, log)
      decreases |feed| - i, acquired
    {
      if !setup.spawns(tenures) {
        if Run(setup, feed[..i]).phase.Exited? { ExitedStays(setup, feed, i); }
        return false, log;
      }
      var handles := if tenures == 0 && setup.instances > 1 then setup.tasks * setup.instances else setup.tasks;
      log := log + [Spawned(tenures, handles)];
      tenures := tenures + 1;
      if tenures == 1 && handles == 0 {
        if Run(setup, feed[..i]).phase.Exited? { ExitedStays(setup, feed, i); }
        return true, log;
      }
      var completed;
      i, log, completed := AwaitTasks(setup, feed, i, log, tenures, handles);
      if completed { return true, log; }
      i, log, acquired := AwaitLeadership(setup, feed, i, log, tenures);
    }
    return true, log;
  }
}
