/**
 * Any number of callers, of any number of users, asking for toolsets at once, in any interleaving of
 * their reads, locks, connects and stores, with idle sweeps and dropped callers in between.
 */
module ToolsetSharing {
  import opened Prelude
  import opened Toolsets

  /** Where a caller stands in `UserToolsets::current` and `ToolsetSlot::current`. */
  datatype Pc =
    | Arriving
    | Reading(slot: nat)
    | Blocked(slot: nat)
    | Rechecking(slot: nat)
    | Connecting(slot: nat)
    | Storing(slot: nat, toolset: Toolset)
    | Finished(slot: nat, toolset: Toolset)
    | Failed

  datatype Caller = Caller(user: string, token: string, pc: Pc)

  datatype Slot = Slot(owner: string, toolset: Option<Toolset>)

  /** A user's event brought a token to a slot. */
  datatype Visit = Visit(slot: nat, user: string, token: string)

  /**
   * `locks` gives each slot's `connecting` holder. Three histories: `entered`, the tokens brought to
   * each slot; `succeeded`, the slot of each successful connect; `lost`, the slot of each of those
   * whose caller was dropped before it stored the toolset.
   */
  datatype State = State(
    users: map<string, Entry>,
    slots: seq<Slot>,
    locks: map<nat, nat>,
    callers: map<nat, Caller>,
    entered: set<Visit>,
    succeeded: seq<nat>,
    lost: seq<nat>)

  datatype Step =
    | Arrive(id: nat, user: string, token: Option<string>)
    | Enter(id: nat, now: int)
    | FirstRead(id: nat, credentials: Credentials)
    | LockConnecting(id: nat)
    | SecondRead(id: nat, credentials: Credentials)
    | ConnectReturns(id: nat, answer: Option<seq<Connection>>)
    | Store(id: nat)
    | Abandon(id: nat)
    | Sweep(now: int)

  function At(s: State, id: nat, pc: Pc): State
    requires id in s.callers
  {
    s.(callers := s.callers[id := s.callers[id].(pc := pc)])
  }

  predicate Holds(pc: Pc) { pc.Rechecking? || pc.Connecting? || pc.Storing? }

  predicate InSlot(pc: Pc) { !pc.Arriving? && !pc.Failed? }

  function Unlock(s: State, slot: nat): State { s.(locks := s.locks - {slot}) }

  function EnterSlot(s: State, id: nat, c: Caller, now: int): State
    requires id in s.callers
  {
    if !c.pc.Arriving? then s
    else
    var known := c.user in s.users;
    var slot := if known then s.users[c.user].slot else |s.slots|;
    At(s.(users := s.users[c.user := Entry(slot, now)],
          slots := if known then s.slots else s.slots + [Slot(c.user, None)],
          entered := s.entered + {Visit(slot, c.user, c.token)}), id, Reading(slot))
  }

  function FirstRead(s: State, id: nat, c: Caller, credentials: Credentials): State
    requires id in s.callers
  {
    if !c.pc.Reading? || c.pc.slot >= |s.slots| then s
    else
      match FreshIn(s.slots[c.pc.slot].toolset, Some(c.token), credentials)
      case Err(_) => At(s, id, Failed)
      case Ok(Some(toolset)) => At(s, id, Finished(c.pc.slot, toolset))
      case Ok(None) => At(s, id, Blocked(c.pc.slot))
  }

  function LockConnecting(s: State, id: nat, c: Caller): State
    requires id in s.callers
  {
    if !c.pc.Blocked? || c.pc.slot in s.locks then s
    else At(s.(locks := s.locks[c.pc.slot := id]), id, Rechecking(c.pc.slot))
  }

  function SecondRead(s: State, id: nat, c: Caller, credentials: Credentials): State
    requires id in s.callers
  {
    if !c.pc.Rechecking? || c.pc.slot >= |s.slots| then s
    else
      match FreshIn(s.slots[c.pc.slot].toolset, Some(c.token), credentials)
      case Err(_) => At(Unlock(s, c.pc.slot), id, Failed)
      case Ok(Some(toolset)) => At(Unlock(s, c.pc.slot), id, Finished(c.pc.slot, toolset))
      case Ok(None) => At(s, id, Connecting(c.pc.slot))
  }

  function ConnectReturns(servers: seq<Server>, s: State, id: nat, c: Caller, answer: Option<seq<Connection>>): State
    requires id in s.callers
  {
    if !c.pc.Connecting? then s
    else
      match answer
      case None => At(Unlock(s, c.pc.slot), id, Failed)
      case Some(connections) =>
        if !OpenedBy(servers, connections, c.token) then s
        else
          At(s.(succeeded := s.succeeded + [c.pc.slot]), id, Storing(c.pc.slot, Toolset(|s.succeeded|, connections)))
  }

  function Store(s: State, id: nat, c: Caller): State
    requires id in s.callers
  {
    if !c.pc.Storing? || c.pc.slot >= |s.slots| then s
    else
      At(Unlock(s.(slots := s.slots[c.pc.slot := s.slots[c.pc.slot].(toolset := Some(c.pc.toolset))]), c.pc.slot),
         id, Finished(c.pc.slot, c.pc.toolset))
  }

  /** Dropping a caller's future gives back the lock it held and forgets what it had not stored. */
  function Abandon(s: State, id: nat, c: Caller): State {
    if c.pc.Finished? || c.pc.Failed? then s
    else
      var left := s.(callers := s.callers - {id}, lost := if c.pc.Storing? then s.lost + [c.pc.slot] else s.lost);
      if Holds(c.pc) then Unlock(left, c.pc.slot) else left
  }

  /** A step taken by nobody in a position to take it changes nothing. */
  function Next(servers: seq<Server>, s: State, step: Step): State {
    match step
    case Arrive(id, user, token) =>
      if id in s.callers then s
      else
        var c := if token.Some? then Caller(user, token.value, Arriving) else Caller(user, "", Failed);
        s.(callers := s.callers[id := c])
    case Sweep(now) => s.(users := StillUsed(s.users, now))
    case _ => if step.id in s.callers then Advance(servers, s, step, s.callers[step.id]) else s
  }

  function Advance(servers: seq<Server>, s: State, step: Step, c: Caller): State
    requires !step.Arrive? && !step.Sweep? && step.id in s.callers
  {
    match step
    case Enter(id, now) => EnterSlot(s, id, c, now)
    case FirstRead(id, credentials) => FirstRead(s, id, c, credentials)
    case LockConnecting(id) => LockConnecting(s, id, c)
    case SecondRead(id, credentials) => SecondRead(s, id, c, credentials)
    case ConnectReturns(id, answer) => ConnectReturns(servers, s, id, c, answer)
    case Store(id) => Store(s, id, c)
    case Abandon(id) => Abandon(s, id, c)
  }

  function Run(servers: seq<Server>, steps: seq<Step>): State
    decreases |steps|
  {
    if steps == [] then State(map[], [], map[], map[], {}, [], [])
    else Next(servers, Run(servers, steps[..|steps| - 1]), steps[|steps| - 1])
  }

  // ---- Own tokens only ----

  /** `toolset` was opened with a token that an event brought to this slot. */
  ghost predicate OpenedHere(servers: seq<Server>, entered: set<Visit>, slot: nat, toolset: Toolset) {
    exists v :: v in entered && v.slot == slot && OpenedBy(servers, toolset.connections, v.token)
  }

  ghost predicate SlotsOk(servers: seq<Server>, slots: seq<Slot>, entered: set<Visit>) {
    && (forall slot :: 0 <= slot < |slots| && slots[slot].toolset.Some? ==>
          OpenedHere(servers, entered, slot, slots[slot].toolset.value))
    && (forall v :: v in entered ==> v.slot < |slots| && slots[v.slot].owner == v.user)
  }

  ghost predicate UsersOk(users: map<string, Entry>, slots: seq<Slot>) {
    forall u :: u in users ==> users[u].slot < |slots| && slots[users[u].slot].owner == u
  }

  /** A caller is in a slot of its own user, with its own token. */
  ghost predicate Placed(servers: seq<Server>, slots: seq<Slot>, entered: set<Visit>, c: Caller) {
    && (InSlot(c.pc) ==>
          && c.pc.slot < |slots| && slots[c.pc.slot].owner == c.user
          && Visit(c.pc.slot, c.user, c.token) in entered)
    && (c.pc.Storing? || c.pc.Finished? ==> OpenedBy(servers, c.pc.toolset.connections, c.token))
  }

  ghost predicate CallersOk(servers: seq<Server>, slots: seq<Slot>, entered: set<Visit>, callers: map<nat, Caller>) {
    forall id :: id in callers ==> Placed(servers, slots, entered, callers[id])
  }

  predicate HasLock(locks: map<nat, nat>, id: nat, c: Caller) {
    Holds(c.pc) ==> c.pc.slot in locks && locks[c.pc.slot] == id
  }

  predicate LockHeld(locks: map<nat, nat>, callers: map<nat, Caller>, slot: nat)
    requires slot in locks
  {
    locks[slot] in callers && Holds(callers[locks[slot]].pc) && callers[locks[slot]].pc.slot == slot
  }

  ghost predicate LocksOk(locks: map<nat, nat>, callers: map<nat, Caller>) {
    && (forall id :: id in callers ==> HasLock(locks, id, callers[id]))
    && (forall slot :: slot in locks ==> LockHeld(locks, callers, slot))
  }

  ghost predicate Inv(servers: seq<Server>, s: State) {
    && SlotsOk(servers, s.slots, s.entered)
    && UsersOk(s.users, s.slots)
    && CallersOk(servers, s.slots, s.entered, s.callers)
    && LocksOk(s.locks, s.callers)
  }

  lemma ReadGivesOwnToken(
    servers: seq<Server>, slots: seq<Slot>, entered: set<Visit>, slot: nat, token: string, credentials: Credentials)
    requires ActsForUser(servers) && SlotsOk(servers, slots, entered) && slot < |slots|
    ensures var read := FreshIn(slots[slot].toolset, Some(token), credentials);
      read.Ok? && read.value.Some? ==>
        slots[slot].toolset == read.value && OpenedBy(servers, read.value.value.connections, token)
  {
    if slots[slot].toolset.Some? {
      var toolset := slots[slot].toolset.value;
      assert OpenedHere(servers, entered, slot, toolset);
      var v :| v in entered && v.slot == slot && OpenedBy(servers, toolset.connections, v.token);
      if IsCurrent(toolset.connections, Some(token), credentials) == Ok(true) {
        NeverCurrentForAnotherToken(servers, toolset.connections, v.token, token, credentials);
      }
    }
  }

  /** New users, tokens and empty slots take nothing away. */
  lemma GrowingKeepsOk(servers: seq<Server>, s: State, t: State)
    requires Inv(servers, s)
    requires s.slots <= t.slots && s.entered <= t.entered && t.callers == s.callers && t.locks == s.locks
    requires forall slot :: |s.slots| <= slot < |t.slots| ==> t.slots[slot].toolset == None
    requires forall v :: v in t.entered ==> v.slot < |t.slots| && t.slots[v.slot].owner == v.user
    ensures SlotsOk(servers, t.slots, t.entered) && CallersOk(servers, t.slots, t.entered, t.callers)
  {
    forall slot | 0 <= slot < |t.slots| && t.slots[slot].toolset.Some?
      ensures OpenedHere(servers, t.entered, slot, t.slots[slot].toolset.value)
    {
      assert OpenedHere(servers, s.entered, slot, s.slots[slot].toolset.value);
    }
    forall id | id in t.callers ensures Placed(servers, t.slots, t.entered, t.callers[id]) {
      assert Placed(servers, s.slots, s.entered, s.callers[id]);
    }
  }

  /** A caller moves without a lock changing hands. */
  lemma MovingKeepsOk(servers: seq<Server>, s: State, id: nat, pc: Pc)
    requires Inv(servers, s) && id in s.callers
    requires Placed(servers, s.slots, s.entered, s.callers[id].(pc := pc))
    requires Holds(pc) <==> Holds(s.callers[id].pc)
    requires Holds(pc) ==> pc.slot == s.callers[id].pc.slot
    ensures Inv(servers, At(s, id, pc))
  {
    forall slot | slot in s.locks ensures LockHeld(s.locks, At(s, id, pc).callers, slot) {
      assert LockHeld(s.locks, s.callers, slot);
    }
    assert HasLock(s.locks, id, s.callers[id]);
  }

  /** The holder of a slot's lock gives it back. */
  lemma UnlockingKeepsOk(servers: seq<Server>, s: State, id: nat, pc: Pc)
    requires Inv(servers, s) && id in s.callers && Holds(s.callers[id].pc) && !Holds(pc)
    requires Placed(servers, s.slots, s.entered, s.callers[id].(pc := pc))
    ensures Inv(servers, At(Unlock(s, s.callers[id].pc.slot), id, pc))
  {
    var slot := s.callers[id].pc.slot;
    var t := At(Unlock(s, slot), id, pc);
    assert HasLock(s.locks, id, s.callers[id]);
    forall other | other in t.callers ensures HasLock(t.locks, other, t.callers[other]) {
      assert HasLock(s.locks, other, s.callers[other]);
    }
    forall other | other in t.locks ensures LockHeld(t.locks, t.callers, other) {
      assert LockHeld(s.locks, s.callers, other);
    }
  }

  lemma EnterKeepsInv(servers: seq<Server>, s: State, id: nat, now: int)
    requires Inv(servers, s) && id in s.callers
    ensures Inv(servers, EnterSlot(s, id, s.callers[id], now))
  {
    var c := s.callers[id];
    var known := c.user in s.users;
    var slot := if known then s.users[c.user].slot else |s.slots|;
    var t := s.(users := s.users[c.user := Entry(slot, now)],
                slots := if known then s.slots else s.slots + [Slot(c.user, None)],
                entered := s.entered + {Visit(slot, c.user, c.token)});
    GrowingKeepsOk(servers, s, t);
    assert Inv(servers, t);
    if c.pc.Arriving? { MovingKeepsOk(servers, t, id, Reading(slot)); }
  }

  lemma FirstReadKeepsInv(servers: seq<Server>, s: State, id: nat, credentials: Credentials)
    requires ActsForUser(servers) && Inv(servers, s) && id in s.callers
    ensures Inv(servers, FirstRead(s, id, s.callers[id], credentials))
  {
    var c := s.callers[id];
    if c.pc.Reading? && c.pc.slot < |s.slots| {
      ReadGivesOwnToken(servers, s.slots, s.entered, c.pc.slot, c.token, credentials);
      MovingKeepsOk(servers, s, id, FirstRead(s, id, c, credentials).callers[id].pc);
    }
  }

  lemma LockKeepsInv(servers: seq<Server>, s: State, id: nat)
    requires Inv(servers, s) && id in s.callers
    ensures Inv(servers, LockConnecting(s, id, s.callers[id]))
  {
    var t := LockConnecting(s, id, s.callers[id]);
    forall other | other in t.callers ensures HasLock(t.locks, other, t.callers[other]) {
      assert HasLock(s.locks, other, s.callers[other]);
    }
    forall slot | slot in t.locks ensures LockHeld(t.locks, t.callers, slot) {
      if slot in s.locks { assert LockHeld(s.locks, s.callers, slot); }
    }
  }

  lemma SecondReadKeepsInv(servers: seq<Server>, s: State, id: nat, credentials: Credentials)
    requires ActsForUser(servers) && Inv(servers, s) && id in s.callers
    ensures Inv(servers, SecondRead(s, id, s.callers[id], credentials))
  {
    var c := s.callers[id];
    if c.pc.Rechecking? && c.pc.slot < |s.slots| {
      ReadGivesOwnToken(servers, s.slots, s.entered, c.pc.slot, c.token, credentials);
      var pc := SecondRead(s, id, c, credentials).callers[id].pc;
      if pc.Connecting? { MovingKeepsOk(servers, s, id, pc); } else { UnlockingKeepsOk(servers, s, id, pc); }
    }
  }

  lemma ConnectKeepsInv(servers: seq<Server>, s: State, id: nat, answer: Option<seq<Connection>>)
    requires Inv(servers, s) && id in s.callers
    ensures Inv(servers, ConnectReturns(servers, s, id, s.callers[id], answer))
  {
    var c := s.callers[id];
    if c.pc.Connecting? {
      assert Placed(servers, s.slots, s.entered, c);
      if answer.None? {
        UnlockingKeepsOk(servers, s, id, Failed);
      } else if OpenedBy(servers, answer.value, c.token) {
        MovingKeepsOk(servers, s, id, Storing(c.pc.slot, Toolset(|s.succeeded|, answer.value)));
      }
    }
  }

  lemma StoreKeepsInv(servers: seq<Server>, s: State, id: nat)
    requires Inv(servers, s) && id in s.callers
    ensures Inv(servers, Store(s, id, s.callers[id]))
  {
    var c := s.callers[id];
    assert Placed(servers, s.slots, s.entered, c);
    if c.pc.Storing? {
      var t := s.(slots := s.slots[c.pc.slot := s.slots[c.pc.slot].(toolset := Some(c.pc.toolset))]);
      forall slot | 0 <= slot < |t.slots| && t.slots[slot].toolset.Some?
        ensures OpenedHere(servers, t.entered, slot, t.slots[slot].toolset.value)
      {
        if slot != c.pc.slot { assert OpenedHere(servers, s.entered, slot, s.slots[slot].toolset.value); }
      }
      forall other | other in t.callers ensures Placed(servers, t.slots, t.entered, t.callers[other]) {
        assert Placed(servers, s.slots, s.entered, s.callers[other]);
      }
      UnlockingKeepsOk(servers, t, id, Finished(c.pc.slot, c.pc.toolset));
    }
  }

  lemma AbandonKeepsInv(servers: seq<Server>, s: State, id: nat)
    requires Inv(servers, s) && id in s.callers
    ensures Inv(servers, Abandon(s, id, s.callers[id]))
  {
    var c := s.callers[id];
    var t := Abandon(s, id, c);
    assert HasLock(s.locks, id, c);
    forall other | other in t.callers ensures HasLock(t.locks, other, t.callers[other]) {
      assert HasLock(s.locks, other, s.callers[other]);
    }
    forall slot | slot in t.locks ensures LockHeld(t.locks, t.callers, slot) {
      assert LockHeld(s.locks, s.callers, slot);
    }
  }

  lemma NextKeepsInv(servers: seq<Server>, s: State, step: Step)
    requires ActsForUser(servers) && Inv(servers, s)
    ensures Inv(servers, Next(servers, s, step))
  {
    if !step.Arrive? && !step.Sweep? && step.id in s.callers {
      match step
      case Enter(id, now) => EnterKeepsInv(servers, s, id, now);
      case FirstRead(id, credentials) => FirstReadKeepsInv(servers, s, id, credentials);
      case LockConnecting(id) => LockKeepsInv(servers, s, id);
      case SecondRead(id, credentials) => SecondReadKeepsInv(servers, s, id, credentials);
      case ConnectReturns(id, answer) => ConnectKeepsInv(servers, s, id, answer);
      case Store(id) => StoreKeepsInv(servers, s, id);
      case Abandon(id) => AbandonKeepsInv(servers, s, id);
    } else if step.Arrive? && step.id !in s.callers {
      forall slot | slot in s.locks ensures LockHeld(s.locks, Next(servers, s, step).callers, slot) {
        assert LockHeld(s.locks, s.callers, slot);
      }
    }
  }

  lemma {:induction false} RunKeepsInv(servers: seq<Server>, steps: seq<Step>)
    requires ActsForUser(servers)
    ensures Inv(servers, Run(servers, steps))
    decreases |steps|
  {
    if steps != [] {
      RunKeepsInv(servers, steps[..|steps| - 1]);
      NextKeepsInv(servers, Run(servers, steps[..|steps| - 1]), steps[|steps| - 1]);
    }
  }

  ghost predicate Brought(steps: seq<Step>, user: string, token: string) {
    exists i :: 0 <= i < |steps| && steps[i].Arrive? && steps[i].user == user && steps[i].token == Some(token)
  }

  ghost predicate CallerBrought(steps: seq<Step>, c: Caller) {
    c.pc.Failed? || Brought(steps, c.user, c.token)
  }

  lemma BroughtBefore(steps: seq<Step>, user: string, token: string)
    requires steps != [] && Brought(steps[..|steps| - 1], user, token)
    ensures Brought(steps, user, token)
  {}

  /** Nobody makes up a user or a token: every caller and every visit goes back to an event of that user. */
  lemma {:induction false} TokensComeFromEvents(servers: seq<Server>, steps: seq<Step>)
    ensures forall id :: id in Run(servers, steps).callers ==> CallerBrought(steps, Run(servers, steps).callers[id])
    ensures forall v :: v in Run(servers, steps).entered ==> Brought(steps, v.user, v.token)
    decreases |steps|
  {
    if steps != [] {
      var before, step := steps[..|steps| - 1], steps[|steps| - 1];
      var s, t := Run(servers, before), Run(servers, steps);
      TokensComeFromEvents(servers, before);
      forall id | id in t.callers && !t.callers[id].pc.Failed? ensures CallerBrought(steps, t.callers[id]) {
        CallersStay(servers, s, step, id);
        if id in s.callers {
          assert CallerBrought(before, s.callers[id]);
          BroughtBefore(steps, s.callers[id].user, s.callers[id].token);
        } else {
          assert steps[|steps| - 1] == Arrive(id, t.callers[id].user, Some(t.callers[id].token));
        }
      }
      forall v | v in t.entered ensures Brought(steps, v.user, v.token) {
        NewVisitsAreCallers(servers, s, step, v);
        if v !in s.entered {
          var id :| id in s.callers && !s.callers[id].pc.Failed?
            && s.callers[id].user == v.user && s.callers[id].token == v.token;
          assert CallerBrought(before, s.callers[id]);
        }
        BroughtBefore(steps, v.user, v.token);
      }
    }
  }

  lemma OnlyTheActorMoves(servers: seq<Server>, s: State, step: Step, id: nat)
    requires step.Sweep? || step.id != id
    ensures id in Next(servers, s, step).callers <==> id in s.callers
    ensures id in s.callers ==> Next(servers, s, step).callers[id] == s.callers[id]
  {}

  /** The actor keeps its user and token, and does not come back from failing. */
  lemma TheActorStaysItself(servers: seq<Server>, s: State, step: Step, c: Caller)
    requires !step.Arrive? && !step.Sweep? && step.id in s.callers && c == s.callers[step.id]
    ensures var t := Advance(servers, s, step, c);
      step.id in t.callers ==>
        && t.callers[step.id].user == c.user && t.callers[step.id].token == c.token
        && (c.pc.Failed? ==> t.callers[step.id].pc.Failed?)
  {}

  lemma CallersStay(servers: seq<Server>, s: State, step: Step, id: nat)
    requires id in Next(servers, s, step).callers && !Next(servers, s, step).callers[id].pc.Failed?
    ensures var c := Next(servers, s, step).callers[id];
      if id in s.callers
      then !s.callers[id].pc.Failed? && s.callers[id].user == c.user && s.callers[id].token == c.token
      else step == Arrive(id, c.user, Some(c.token))
  {
    if step.Sweep? || step.id != id {
      OnlyTheActorMoves(servers, s, step, id);
    } else if !step.Arrive? && id in s.callers {
      TheActorStaysItself(servers, s, step, s.callers[id]);
    }
  }

  lemma NewVisitsAreCallers(servers: seq<Server>, s: State, step: Step, v: Visit)
    requires v in Next(servers, s, step).entered
    ensures v in s.entered || exists id ::
      id in s.callers && !s.callers[id].pc.Failed? && s.callers[id].user == v.user && s.callers[id].token == v.token
  {}

  /**
   * In every run, whatever the other credentials answer and whenever sweeps run: a served caller's
   * toolset carries its own token, and a user's slot only ever holds a toolset opened with a token
   * that an event of that very user brought.
   */
  lemma UsersNeverShareToolsets(servers: seq<Server>, steps: seq<Step>)
    requires ActsForUser(servers)
    ensures var s := Run(servers, steps);
      && (forall id :: id in s.callers && s.callers[id].pc.Finished? ==>
            var c := s.callers[id];
            && OpenedBy(servers, c.pc.toolset.connections, c.token)
            && c.pc.slot < |s.slots| && s.slots[c.pc.slot].owner == c.user)
      && (forall slot :: 0 <= slot < |s.slots| && s.slots[slot].toolset.Some? ==>
            OpenedForOwner(servers, steps, s.slots[slot].owner, s.slots[slot].toolset.value))
  {
    RunKeepsInv(servers, steps);
    TokensComeFromEvents(servers, steps);
    var s := Run(servers, steps);
    forall id | id in s.callers && s.callers[id].pc.Finished?
      ensures Placed(servers, s.slots, s.entered, s.callers[id]) {}
    forall slot | 0 <= slot < |s.slots| && s.slots[slot].toolset.Some?
      ensures OpenedForOwner(servers, steps, s.slots[slot].owner, s.slots[slot].toolset.value)
    {
      assert OpenedHere(servers, s.entered, slot, s.slots[slot].toolset.value);
      var v :| v in s.entered && v.slot == slot && OpenedBy(servers, s.slots[slot].toolset.value.connections, v.token);
      assert Brought(steps, v.user, v.token);
    }
  }

  ghost predicate OpenedForOwner(servers: seq<Server>, steps: seq<Step>, owner: string, toolset: Toolset) {
    exists token :: Brought(steps, owner, token) && OpenedBy(servers, toolset.connections, token)
  }

  // ---- Opened once per token ----

  /** Only `token` was ever brought to `slot`. */
  ghost predicate OneToken(entered: set<Visit>, slot: nat, token: string) {
    forall v :: v in entered && v.slot == slot ==> v.token == token
  }

  /** Where the holder of the slot's lock stands. */
  function HolderPc(s: State, slot: nat): Option<Pc> {
    if slot in s.locks && s.locks[slot] in s.callers then Some(s.callers[s.locks[slot]].pc) else None
  }

  predicate StoringIn(s: State, slot: nat) { HolderPc(s, slot).Some? && HolderPc(s, slot).value.Storing? }

  predicate ConnectingIn(s: State, slot: nat) { HolderPc(s, slot).Some? && HolderPc(s, slot).value.Connecting? }

  /** Everybody served in the slot got the toolset it holds. */
  ghost predicate ServedAlike(s: State, slot: nat)
    requires slot < |s.slots|
  {
    forall id :: id in s.callers && s.callers[id].pc.Finished? && s.callers[id].pc.slot == slot ==>
      s.slots[slot].toolset == Some(s.callers[id].pc.toolset)
  }

  /** Every successful connect is in the slot, about to be stored, or lost. */
  ghost predicate Accounted(s: State, slot: nat) {
    && slot < |s.slots|
    && Count(s.succeeded, slot) == One(s.slots[slot].toolset.Some?) + One(StoringIn(s, slot)) + Count(s.lost, slot)
    && (StoringIn(s, slot) || ConnectingIn(s, slot) ==> s.slots[slot].toolset.None?)
    && ServedAlike(s, slot)
  }

  /** Before a slot exists nothing is counted for it. */
  predicate Unused(s: State, slot: nat) {
    slot >= |s.slots| && Count(s.succeeded, slot) == 0 && Count(s.lost, slot) == 0
  }

  lemma ReadWithTheOnlyToken(
    servers: seq<Server>, slots: seq<Slot>, entered: set<Visit>, slot: nat, token: string, credentials: Credentials)
    requires ActsForUser(servers) && OnlyUserTokenRotates(servers) && SlotsOk(servers, slots, entered) && slot < |slots|
    requires OneToken(entered, slot, token)
    ensures FreshIn(slots[slot].toolset, Some(token), credentials) == Ok(slots[slot].toolset)
  {
    if slots[slot].toolset.Some? {
      var toolset := slots[slot].toolset.value;
      assert OpenedHere(servers, entered, slot, toolset);
      var v :| v in entered && v.slot == slot && OpenedBy(servers, toolset.connections, v.token);
      CurrentForExactlyItsToken(servers, toolset.connections, v.token, token, credentials);
    }
  }

  /** Who holds the slot's lock, if anybody. */
  lemma HolderIsInTheSlot(s: State, slot: nat)
    requires LocksOk(s.locks, s.callers)
    ensures slot in s.locks ==>
      HolderPc(s, slot).Some? && Holds(HolderPc(s, slot).value) && HolderPc(s, slot).value.slot == slot
  {}

  /** A move of a caller in another slot, or between pcs that neither hold the lock nor finish. */
  lemma ElsewhereKeepsAccounted(s: State, t: State, id: nat, slot: nat)
    requires LocksOk(s.locks, s.callers) && Accounted(s, slot) && id in s.callers
    requires slot < |t.slots| && t.slots[slot].toolset == s.slots[slot].toolset
    requires Count(t.succeeded, slot) == Count(s.succeeded, slot) && Count(t.lost, slot) == Count(s.lost, slot)
    requires slot in t.locks <==> slot in s.locks
    requires slot in s.locks ==> t.locks[slot] == s.locks[slot] && s.locks[slot] != id
    requires t.callers - {id} == s.callers - {id}
    requires id in t.callers && t.callers[id].pc.Finished? ==>
      t.callers[id].pc.slot != slot || t.callers[id] == s.callers[id]
    ensures Accounted(t, slot)
  {
    HolderIsInTheSlot(s, slot);
    forall other | other != id && other in s.callers
      ensures other in t.callers && t.callers[other] == s.callers[other]
    {
      assert other in s.callers - {id} && (t.callers - {id})[other] == (s.callers - {id})[other];
    }
    assert HolderPc(t, slot) == HolderPc(s, slot);
    forall other | other in t.callers && t.callers[other].pc.Finished? && t.callers[other].pc.slot == slot
      ensures t.slots[slot].toolset == Some(t.callers[other].pc.toolset)
    {
      if other != id { assert other in t.callers - {id}; }
    }
  }

  lemma ServingKeepsAccounted(s: State, id: nat, slot: nat)
    requires LocksOk(s.locks, s.callers) && Accounted(s, slot) && id in s.callers && !Holds(s.callers[id].pc)
    requires s.slots[slot].toolset.Some?
    ensures Accounted(At(s, id, Finished(slot, s.slots[slot].toolset.value)), slot)
  {}

  lemma EnterKeepsAccounted(s: State, id: nat, now: int, slot: nat)
    requires LocksOk(s.locks, s.callers) && Accounted(s, slot) && id in s.callers
    ensures Accounted(EnterSlot(s, id, s.callers[id], now), slot)
  {}

  /** A read only moves its caller, and serves it nowhere but in its slot. */
  lemma FirstReadMoves(s: State, id: nat, c: Caller, credentials: Credentials) returns (pc: Pc)
    requires id in s.callers && s.callers[id] == c && c.pc.Reading?
    ensures FirstRead(s, id, c, credentials) == At(s, id, pc)
    ensures pc.Finished? ==> pc.slot == c.pc.slot
  {
    pc := FirstRead(s, id, c, credentials).callers[id].pc;
    assert s.callers == s.callers[id := c];
  }

  lemma SecondReadMoves(s: State, id: nat, c: Caller, credentials: Credentials) returns (pc: Pc)
    requires id in s.callers && s.callers[id] == c && c.pc.Rechecking?
    ensures SecondRead(s, id, c, credentials) in {At(s, id, pc), At(Unlock(s, c.pc.slot), id, pc)}
    ensures pc.Finished? ==> pc.slot == c.pc.slot
  {
    pc := SecondRead(s, id, c, credentials).callers[id].pc;
    assert s.callers == s.callers[id := c];
  }

  lemma ReadElsewhereKeepsAccounted(s: State, id: nat, credentials: Credentials, slot: nat)
    requires LocksOk(s.locks, s.callers) && Accounted(s, slot) && id in s.callers
    requires s.callers[id].pc.Reading? && s.callers[id].pc.slot != slot
    ensures Accounted(FirstRead(s, id, s.callers[id], credentials), slot)
  {
    HolderIsInTheSlot(s, slot);
    var pc := FirstReadMoves(s, id, s.callers[id], credentials);
    ElsewhereKeepsAccounted(s, At(s, id, pc), id, slot);
  }

  lemma FirstReadKeepsAccounted(
    servers: seq<Server>, s: State, id: nat, credentials: Credentials, slot: nat, token: string)
    requires ActsForUser(servers) && OnlyUserTokenRotates(servers) && id in s.callers
    requires Inv(servers, s) && Accounted(s, slot) && OneToken(s.entered, slot, token)
    ensures Accounted(FirstRead(s, id, s.callers[id], credentials), slot)
  {
    var c := s.callers[id];
    assert Placed(servers, s.slots, s.entered, c);
    HolderIsInTheSlot(s, slot);
    if c.pc.Reading? && c.pc.slot == slot {
      assert Visit(slot, c.user, c.token) in s.entered;
      ReadWithTheOnlyToken(servers, s.slots, s.entered, slot, token, credentials);
      if s.slots[slot].toolset.None? {
        ElsewhereKeepsAccounted(s, At(s, id, Blocked(slot)), id, slot);
      } else {
        ServingKeepsAccounted(s, id, slot);
      }
    } else if c.pc.Reading? {
      ReadElsewhereKeepsAccounted(s, id, credentials, slot);
    }
  }

  lemma LockKeepsAccounted(s: State, id: nat, slot: nat)
    requires LocksOk(s.locks, s.callers) && Accounted(s, slot) && id in s.callers
    ensures Accounted(LockConnecting(s, id, s.callers[id]), slot)
  {}

  /** The holder of the lock rechecks: it is served what is there, or goes on to connect to an empty slot. */
  lemma RecheckKeepsAccounted(s: State, id: nat, slot: nat)
    requires LocksOk(s.locks, s.callers) && Accounted(s, slot) && id in s.callers
    requires s.callers[id].pc == Rechecking(slot)
    ensures s.slots[slot].toolset.Some? ==>
      Accounted(At(Unlock(s, slot), id, Finished(slot, s.slots[slot].toolset.value)), slot)
    ensures s.slots[slot].toolset.None? ==> Accounted(At(s, id, Connecting(slot)), slot)
  {}

  lemma RecheckElsewhereKeepsAccounted(s: State, id: nat, credentials: Credentials, slot: nat)
    requires LocksOk(s.locks, s.callers) && Accounted(s, slot) && id in s.callers
    requires s.callers[id].pc.Rechecking? && s.callers[id].pc.slot != slot
    ensures Accounted(SecondRead(s, id, s.callers[id], credentials), slot)
  {
    HolderIsInTheSlot(s, slot);
    var pc := SecondReadMoves(s, id, s.callers[id], credentials);
    ElsewhereKeepsAccounted(s, At(s, id, pc), id, slot);
    ElsewhereKeepsAccounted(s, At(Unlock(s, s.callers[id].pc.slot), id, pc), id, slot);
  }

  lemma SecondReadKeepsAccounted(
    servers: seq<Server>, s: State, id: nat, credentials: Credentials, slot: nat, token: string)
    requires ActsForUser(servers) && OnlyUserTokenRotates(servers) && id in s.callers
    requires Inv(servers, s) && Accounted(s, slot) && OneToken(s.entered, slot, token)
    ensures Accounted(SecondRead(s, id, s.callers[id], credentials), slot)
  {
    var c := s.callers[id];
    assert Placed(servers, s.slots, s.entered, c);
    if c.pc.Rechecking? && c.pc.slot == slot {
      assert Visit(slot, c.user, c.token) in s.entered;
      ReadWithTheOnlyToken(servers, s.slots, s.entered, slot, token, credentials);
      RecheckKeepsAccounted(s, id, slot);
    } else if c.pc.Rechecking? {
      RecheckElsewhereKeepsAccounted(s, id, credentials, slot);
    }
  }

  lemma ConnectKeepsAccounted(servers: seq<Server>, s: State, id: nat, answer: Option<seq<Connection>>, slot: nat)
    requires Inv(servers, s) && Accounted(s, slot) && id in s.callers
    ensures Accounted(ConnectReturns(servers, s, id, s.callers[id], answer), slot)
  {
    var c := s.callers[id];
    var t := ConnectReturns(servers, s, id, c, answer);
    assert HasLock(s.locks, id, c);
    HolderIsInTheSlot(s, slot);
    if c.pc.Connecting? {
      CountAppend(s.succeeded, c.pc.slot, slot);
      if c.pc.slot != slot && t != s { ElsewhereKeepsAccounted(s, t, id, slot); }
    }
  }

  lemma StoreKeepsAccounted(servers: seq<Server>, s: State, id: nat, slot: nat)
    requires Inv(servers, s) && Accounted(s, slot) && id in s.callers
    ensures Accounted(Store(s, id, s.callers[id]), slot)
  {
    var c := s.callers[id];
    assert HasLock(s.locks, id, c);
    HolderIsInTheSlot(s, slot);
    if c.pc.Storing? && c.pc.slot != slot { ElsewhereKeepsAccounted(s, Store(s, id, c), id, slot); }
  }

  lemma AbandonElsewhereKeepsAccounted(s: State, id: nat, slot: nat)
    requires LocksOk(s.locks, s.callers) && Accounted(s, slot) && id in s.callers
    requires !Holds(s.callers[id].pc) || s.callers[id].pc.slot != slot
    ensures Accounted(Abandon(s, id, s.callers[id]), slot)
  {
    var c := s.callers[id];
    var t := Abandon(s, id, c);
    HolderIsInTheSlot(s, slot);
    if c.pc.Storing? { CountAppend(s.lost, c.pc.slot, slot); }
    assert t.callers - {id} == s.callers - {id};
    ElsewhereKeepsAccounted(s, t, id, slot);
  }

  lemma AbandonKeepsAccounted(servers: seq<Server>, s: State, id: nat, slot: nat)
    requires Inv(servers, s) && Accounted(s, slot) && id in s.callers
    ensures Accounted(Abandon(s, id, s.callers[id]), slot)
  {
    var c := s.callers[id];
    if c.pc.Storing? { CountAppend(s.lost, c.pc.slot, slot); }
    if Holds(c.pc) && c.pc.slot == slot {
      assert HasLock(s.locks, id, c);
    } else {
      AbandonElsewhereKeepsAccounted(s, id, slot);
    }
  }

  lemma NextKeepsAccounted(servers: seq<Server>, s: State, step: Step, slot: nat, token: string)
    requires ActsForUser(servers) && OnlyUserTokenRotates(servers)
    requires Inv(servers, s) && Accounted(s, slot) && OneToken(s.entered, slot, token)
    ensures Accounted(Next(servers, s, step), slot)
  {
    if !step.Arrive? && !step.Sweep? && step.id in s.callers {
      match step
      case Enter(id, now) => EnterKeepsAccounted(s, id, now, slot);
      case FirstRead(id, credentials) => FirstReadKeepsAccounted(servers, s, id, credentials, slot, token);
      case LockConnecting(id) => LockKeepsAccounted(s, id, slot);
      case SecondRead(id, credentials) => SecondReadKeepsAccounted(servers, s, id, credentials, slot, token);
      case ConnectReturns(id, answer) => ConnectKeepsAccounted(servers, s, id, answer, slot);
      case Store(id) => StoreKeepsAccounted(servers, s, id, slot);
      case Abandon(id) => AbandonKeepsAccounted(servers, s, id, slot);
    } else if step.Arrive? {
      HolderIsInTheSlot(s, slot);
    }
  }

  lemma ConnectLeavesUnused(servers: seq<Server>, s: State, id: nat, answer: Option<seq<Connection>>, slot: nat)
    requires Unused(s, slot) && id in s.callers && Placed(servers, s.slots, s.entered, s.callers[id])
    ensures Unused(ConnectReturns(servers, s, id, s.callers[id], answer), slot)
  {
    if s.callers[id].pc.Connecting? { CountAppend(s.succeeded, s.callers[id].pc.slot, slot); }
  }

  /** Nobody is in a slot that does not exist yet. */
  lemma UnusedUntilEntered(servers: seq<Server>, s: State, step: Step, slot: nat)
    requires Inv(servers, s) && Unused(s, slot)
    ensures var t := Next(servers, s, step); Unused(t, slot) || Accounted(t, slot)
  {
    if !step.Arrive? && !step.Sweep? && step.id in s.callers {
      var id, c := step.id, s.callers[step.id];
      assert Placed(servers, s.slots, s.entered, c);
      match step
      case Enter(id, now) => CreationIsAccounted(servers, s, id, now, slot);
      case ConnectReturns(id, answer) => ConnectLeavesUnused(servers, s, id, answer, slot);
      case Abandon(id) => if c.pc.Storing? { CountAppend(s.lost, c.pc.slot, slot); }
      case _ =>
    }
  }

  lemma CreationIsAccounted(servers: seq<Server>, s: State, id: nat, now: int, slot: nat)
    requires Inv(servers, s) && Unused(s, slot) && id in s.callers
    ensures var t := EnterSlot(s, id, s.callers[id], now); Unused(t, slot) || Accounted(t, slot)
  {}

  lemma {:induction false} RunIsAccounted(servers: seq<Server>, steps: seq<Step>, slot: nat, token: string)
    requires ActsForUser(servers) && OnlyUserTokenRotates(servers)
    requires OneToken(Run(servers, steps).entered, slot, token)
    ensures Unused(Run(servers, steps), slot) || Accounted(Run(servers, steps), slot)
    decreases |steps|
  {
    if steps != [] {
      var s, step := Run(servers, steps[..|steps| - 1]), steps[|steps| - 1];
      assert s.entered <= Next(servers, s, step).entered;
      RunKeepsInv(servers, steps[..|steps| - 1]);
      RunIsAccounted(servers, steps[..|steps| - 1], slot, token);
      if Accounted(s, slot) {
        NextKeepsAccounted(servers, s, step, slot, token);
      } else {
        UnusedUntilEntered(servers, s, step, slot);
      }
    }
  }

  /**
   * When a slot is only asked with one token and no other header rotates, the connects that succeeded
   * are the one whose toolset the slot holds or is about to, if any, and those whose caller was dropped
   * before storing; and everybody served there got the one toolset the slot holds.
   */
  lemma OneTokenOpensOnce(servers: seq<Server>, steps: seq<Step>, slot: nat, token: string)
    requires ActsForUser(servers) && OnlyUserTokenRotates(servers)
    requires OneToken(Run(servers, steps).entered, slot, token)
    ensures var s := Run(servers, steps);
      var held := slot < |s.slots| && s.slots[slot].toolset.Some?;
      && Count(s.succeeded, slot) == One(held || StoringIn(s, slot)) + Count(s.lost, slot)
      && (held ==> !StoringIn(s, slot))
      && (slot < |s.slots| ==> ServedAlike(s, slot))
  {
    RunIsAccounted(servers, steps, slot, token);
    RunKeepsInv(servers, steps);
    NobodyStoresBeyond(servers, Run(servers, steps), slot);
  }

  lemma NobodyStoresBeyond(servers: seq<Server>, s: State, slot: nat)
    requires Inv(servers, s)
    ensures StoringIn(s, slot) ==> slot < |s.slots|
  {
    HolderIsInTheSlot(s, slot);
    if slot in s.locks && s.locks[slot] in s.callers {
      assert Placed(servers, s.slots, s.entered, s.callers[s.locks[slot]]);
    }
  }

  // ---- A dropped caller ----

  function Then(servers: seq<Server>, steps: seq<Step>, step: Step): (r: seq<Step>)
    ensures Run(servers, r) == Next(servers, Run(servers, steps), step)
  {
    var r := steps + [step];
    assert r[..|r| - 1] == steps;
    r
  }

  lemma AskAlone(servers: seq<Server>, steps: seq<Step>, s: State, id: nat, user: string, token: string)
    returns (r: seq<Step>)
    requires Run(servers, steps) == s && s.callers == map[]
    requires if user in s.users then s.users[user].slot == 0 && |s.slots| == 1 else s.slots == []
    ensures Run(servers, r) == s.(users := s.users[user := Entry(0, 0)],
                                  slots := if user in s.users then s.slots else [Slot(user, None)],
                                  callers := map[id := Caller(user, token, Reading(0))],
                                  entered := s.entered + {Visit(0, user, token)})
  {
    r := Then(servers, steps, Arrive(id, user, Some(token)));
    assert Run(servers, r) == s.(callers := map[id := Caller(user, token, Arriving)]);
    r := Then(servers, r, Enter(id, 0));
  }

  lemma LockEmpty(servers: seq<Server>, steps: seq<Step>, s: State, id: nat, c: Credentials) returns (r: seq<Step>)
    requires Run(servers, steps) == s && id in s.callers && s.callers[id].pc == Reading(0) && s.locks == map[]
    requires |s.slots| == 1 && s.slots[0].toolset.None?
    ensures Run(servers, r) == At(s, id, Rechecking(0)).(locks := map[0 := id])
  {
    r := Then(servers, steps, Step.FirstRead(id, c));
    var s1 := At(s, id, Blocked(0));
    assert Run(servers, r) == s1;
    r := Then(servers, r, Step.LockConnecting(id));
    assert LockConnecting(s1, id, s1.callers[id]).callers == At(s, id, Rechecking(0)).callers;
  }

  lemma ConnectEmpty(servers: seq<Server>, steps: seq<Step>, s: State, id: nat, connections: seq<Connection>,
                     c: Credentials)
    returns (r: seq<Step>)
    requires Run(servers, steps) == s && id in s.callers && s.callers[id].pc == Rechecking(0)
    requires |s.slots| == 1 && s.slots[0].toolset.None? && OpenedBy(servers, connections, s.callers[id].token)
    ensures Run(servers, r) ==
      At(s.(succeeded := s.succeeded + [0]), id, Storing(0, Toolset(|s.succeeded|, connections)))
  {
    r := Then(servers, steps, Step.SecondRead(id, c));
    var s1 := At(s, id, Connecting(0));
    assert Run(servers, r) == s1;
    r := Then(servers, r, Step.ConnectReturns(id, Some(connections)));
    var t := ConnectReturns(servers, s1, id, s1.callers[id], Some(connections));
    assert t.callers == s.callers[id := s.callers[id].(pc := Storing(0, Toolset(|s.succeeded|, connections)))];
  }

  /** A caller dropped between its connect and its store leaves the next one with the same token to open again. */
  lemma DroppedConnectIsOpenedAgain(servers: seq<Server>, connections: seq<Connection>, user: string, token: string,
                                    c: Credentials)
    requires OpenedBy(servers, connections, token)
    ensures exists steps ::
      OneToken(Run(servers, steps).entered, 0, token) && Count(Run(servers, steps).succeeded, 0) == 2
  {
    var users, slots, entered := map[user := Entry(0, 0)], [Slot(user, None)], {Visit(0, user, token)};
    var steps := AskAlone(servers, [], State(map[], [], map[], map[], {}, [], []), 0, user, token);
    var s := State(users, slots, map[], map[0 := Caller(user, token, Reading(0))], entered, [], []);
    assert Run(servers, steps) == s;
    steps := LockEmpty(servers, steps, s, 0, c);
    steps := ConnectEmpty(servers, steps, At(s, 0, Rechecking(0)).(locks := map[0 := 0]), 0, connections, c);
    var storing := Caller(user, token, Storing(0, Toolset(0, connections)));
    steps := DropStoring(servers, steps, users, slots, entered, storing);
    SecondCallerOpensAgain(servers, steps, connections, user, token, c);
  }

  lemma DropStoring(servers: seq<Server>, steps: seq<Step>, users: map<string, Entry>, slots: seq<Slot>,
                    entered: set<Visit>, c: Caller) returns (r: seq<Step>)
    requires c.pc.Storing? && c.pc.slot == 0
    requires Run(servers, steps) == State(users, slots, map[0 := 0], map[0 := c], entered, [0], [])
    ensures Run(servers, r) == State(users, slots, map[], map[], entered, [0], [0])
  {
    r := Then(servers, steps, Step.Abandon(0));
    assert Run(servers, r) == Abandon(Run(servers, steps), 0, c);
  }

  lemma SecondCallerOpensAgain(servers: seq<Server>, before: seq<Step>, connections: seq<Connection>, user: string,
                               token: string, c: Credentials)
    requires OpenedBy(servers, connections, token)
    requires Run(servers, before) ==
      State(map[user := Entry(0, 0)], [Slot(user, None)], map[], map[], {Visit(0, user, token)}, [0], [0])
    ensures exists steps ::
      OneToken(Run(servers, steps).entered, 0, token) && Count(Run(servers, steps).succeeded, 0) == 2
  {
    var steps := AskAlone(servers, before, Run(servers, before), 1, user, token);
    var s := State(map[user := Entry(0, 0)], [Slot(user, None)], map[], map[1 := Caller(user, token, Reading(0))],
                   {Visit(0, user, token)}, [0], [0]);
    assert Run(servers, steps) == s;
    steps := LockEmpty(servers, steps, s, 1, c);
    steps := ConnectEmpty(servers, steps, At(s, 1, Rechecking(0)).(locks := map[0 := 1]), 1, connections, c);
    assert Run(servers, steps).succeeded == [0, 0] && Run(servers, steps).entered == {Visit(0, user, token)};
    assert OneToken(Run(servers, steps).entered, 0, token) && Count(Run(servers, steps).succeeded, 0) == 2;
  }
}
