/** What single callers come to: alone, waiting for another's connect, dropped, or swept. */
module ToolsetCalls {
  import opened Prelude
  import opened Toolsets
  import opened ToolsetSharing

  /** Where a caller of this user goes, and what that slot holds. */
  function SlotFor(s: State, user: string): nat {
    if user in s.users then s.users[user].slot else |s.slots|
  }

  function Held(s: State, user: string): Option<Toolset> {
    if user in s.users && s.users[user].slot < |s.slots| then s.slots[s.users[user].slot].toolset else None
  }

  /** The state once the caller is in its slot, at `pc`. */
  function Entered(s: State, id: nat, user: string, token: string, now: int, pc: Pc): State {
    var slot := SlotFor(s, user);
    s.(users := s.users[user := Entry(slot, now)],
       slots := if user in s.users then s.slots else s.slots + [Slot(user, None)],
       entered := s.entered + {Visit(slot, user, token)},
       callers := s.callers[id := Caller(user, token, pc)])
  }

  lemma Comes(servers: seq<Server>, steps: seq<Step>, id: nat, user: string, token: string, now: int)
    returns (r: seq<Step>)
    requires id !in Run(servers, steps).callers
    ensures Run(servers, r) ==
      Entered(Run(servers, steps), id, user, token, now, Reading(SlotFor(Run(servers, steps), user)))
  {
    var s := Run(servers, steps);
    r := Then(servers, steps, Arrive(id, user, Some(token)));
    assert Run(servers, r) == s.(callers := s.callers[id := Caller(user, token, Arriving)]);
    r := Then(servers, r, Enter(id, now));
  }

  /** Reading finds an error, a toolset that may be used, or nothing. */
  lemma Reads(servers: seq<Server>, steps: seq<Step>, s: State, id: nat, c: Caller, credentials: Credentials)
    returns (r: seq<Step>, pc: Pc)
    requires Run(servers, steps) == s && id in s.callers && s.callers[id] == c
    requires c.pc.Reading? && c.pc.slot < |s.slots|
    ensures Run(servers, r) == s.(callers := s.callers[id := c.(pc := pc)])
    ensures pc == match FreshIn(s.slots[c.pc.slot].toolset, Some(c.token), credentials)
      case Err(_) => Failed
      case Ok(Some(toolset)) => Finished(c.pc.slot, toolset)
      case Ok(None) => Blocked(c.pc.slot)
  {
    r := Then(servers, steps, Step.FirstRead(id, credentials));
    pc := Run(servers, r).callers[id].pc;
  }

  lemma Locks(servers: seq<Server>, steps: seq<Step>, s: State, id: nat, c: Caller) returns (r: seq<Step>)
    requires Run(servers, steps) == s && id in s.callers && s.callers[id] == c
    requires c.pc.Blocked? && c.pc.slot !in s.locks
    ensures Run(servers, r) ==
      s.(locks := s.locks[c.pc.slot := id], callers := s.callers[id := c.(pc := Rechecking(c.pc.slot))])
  {
    r := Then(servers, steps, Step.LockConnecting(id));
  }

  /** Under the lock it reads again: what another caller stored meanwhile is used, and the lock given back. */
  lemma Rechecks(servers: seq<Server>, steps: seq<Step>, s: State, id: nat, c: Caller, credentials: Credentials)
    returns (r: seq<Step>, pc: Pc)
    requires Run(servers, steps) == s && id in s.callers && s.callers[id] == c
    requires c.pc.Rechecking? && c.pc.slot < |s.slots|
    ensures Run(servers, r) ==
      s.(callers := s.callers[id := c.(pc := pc)], locks := if pc.Connecting? then s.locks else s.locks - {c.pc.slot})
    ensures pc == match FreshIn(s.slots[c.pc.slot].toolset, Some(c.token), credentials)
      case Err(_) => Failed
      case Ok(Some(toolset)) => Finished(c.pc.slot, toolset)
      case Ok(None) => Connecting(c.pc.slot)
  {
    r := Then(servers, steps, Step.SecondRead(id, credentials));
    pc := Run(servers, r).callers[id].pc;
  }

  /** A caller waiting for the lock is served what was stored while it waited, as long as that is up to date. */
  lemma WaitingCallerIsServed(servers: seq<Server>, steps: seq<Step>, id: nat, credentials: Credentials)
    returns (r: seq<Step>)
    requires var s := Run(servers, steps);
      && id in s.callers && s.callers[id].pc.Blocked? && s.callers[id].pc.slot < |s.slots|
      && s.callers[id].pc.slot !in s.locks
      && s.slots[s.callers[id].pc.slot].toolset.Some?
      && AllUpToDate(s.slots[s.callers[id].pc.slot].toolset.value.connections, Some(s.callers[id].token), credentials)
    ensures var s, t := Run(servers, steps), Run(servers, r);
      var slot := s.callers[id].pc.slot;
      && t.callers == s.callers[id := s.callers[id].(pc := Finished(slot, s.slots[slot].toolset.value))]
      && t.slots == s.slots && t.locks == s.locks && t.succeeded == s.succeeded
  {
    var s := Run(servers, steps);
    var c := s.callers[id];
    FreshExactlyWhenUpToDate(s.slots[c.pc.slot].toolset, Some(c.token), credentials);
    r := Locks(servers, steps, s, id, c);
    var locked := Run(servers, r);
    var pc;
    r, pc := Rechecks(servers, r, locked, id, locked.callers[id], credentials);
    assert locked.locks - {c.pc.slot} == s.locks;
    assert Run(servers, r).callers == s.callers[id := c.(pc := pc)];
  }

  /** What a connect answers: nothing, or connections that are stored under the lock, which is given back. */
  lemma Connects(servers: seq<Server>, steps: seq<Step>, s: State, id: nat, c: Caller,
                 answer: Option<seq<Connection>>)
    returns (r: seq<Step>, pc: Pc)
    requires Run(servers, steps) == s && id in s.callers && s.callers[id] == c
    requires c.pc.Connecting? && c.pc.slot < |s.slots|
    requires answer.Some? ==> OpenedBy(servers, answer.value, c.token)
    ensures answer.None? ==> pc == Failed && Run(servers, r).slots == s.slots
    ensures answer.Some? ==>
      var stored := Toolset(|s.succeeded|, answer.value);
      && pc == Finished(c.pc.slot, stored)
      && Run(servers, r).slots == s.slots[c.pc.slot := s.slots[c.pc.slot].(toolset := Some(stored))]
    ensures var t := Run(servers, r);
      t.callers == s.callers[id := c.(pc := pc)] && t.locks == s.locks - {c.pc.slot} && t.users == s.users
  {
    r := Then(servers, steps, Step.ConnectReturns(id, answer));
    match answer
    case None =>
      pc := Failed;
    case Some(connections) =>
      var toolset := Toolset(|s.succeeded|, connections);
      var storing := s.(succeeded := s.succeeded + [c.pc.slot],
                        callers := s.callers[id := c.(pc := Storing(c.pc.slot, toolset))]);
      assert Run(servers, r) == storing;
      r := Then(servers, r, Step.Store(id));
      pc := Finished(c.pc.slot, toolset);
      assert Run(servers, r).callers == s.callers[id := c.(pc := pc)];
  }

  /**
   * A caller nobody disturbs is marked as its user's latest, gets the toolset its slot holds while that may be
   * used, and otherwise what its own connect opens, which the slot then holds; it fails when a header cannot be
   * had or the connect fails, and leaves no lock behind.
   */
  lemma UndisturbedCallerIsServed(servers: seq<Server>, steps: seq<Step>, id: nat, user: string, token: string,
                                  now: int, credentials: Credentials, answer: Option<seq<Connection>>)
    returns (r: seq<Step>, pc: Pc)
    requires var s := Run(servers, steps);
      && id !in s.callers && SlotFor(s, user) !in s.locks
      && (user in s.users ==> s.users[user].slot < |s.slots|)
    requires answer.Some? ==> OpenedBy(servers, answer.value, token)
    ensures var s, t := Run(servers, steps), Run(servers, r);
      && t.callers == s.callers[id := Caller(user, token, pc)] && t.locks == s.locks
      && t.users == s.users[user := Entry(SlotFor(s, user), now)]
      && SlotFor(s, user) < |t.slots|
      && match FreshIn(Held(s, user), Some(token), credentials)
         case Err(_) => pc == Failed && t.slots[SlotFor(s, user)].toolset == Held(s, user)
         case Ok(Some(toolset)) =>
           pc == Finished(SlotFor(s, user), toolset) && t.slots[SlotFor(s, user)].toolset == Held(s, user)
         case Ok(None) =>
           if answer.None? then pc == Failed && t.slots[SlotFor(s, user)].toolset == Held(s, user)
           else
             && pc == Finished(SlotFor(s, user), Toolset(|s.succeeded|, answer.value))
             && t.slots[SlotFor(s, user)].toolset == Some(pc.toolset)
  {
    var s := Run(servers, steps);
    var slot := SlotFor(s, user);
    r := Comes(servers, steps, id, user, token, now);
    var came := Run(servers, r);
    r, pc := Reads(servers, r, came, id, came.callers[id], credentials);
    if pc == Blocked(slot) {
      var waiting := Run(servers, r);
      r, pc := ConnectsAlone(servers, r, waiting, id, waiting.callers[id], credentials, answer);
      assert Run(servers, r).callers == s.callers[id := Caller(user, token, pc)];
    } else {
      assert Run(servers, r).callers == s.callers[id := Caller(user, token, pc)];
    }
  }

  lemma ConnectsAlone(servers: seq<Server>, steps: seq<Step>, s: State, id: nat, c: Caller, credentials: Credentials,
                      answer: Option<seq<Connection>>)
    returns (r: seq<Step>, pc: Pc)
    requires Run(servers, steps) == s && id in s.callers && s.callers[id] == c
    requires c.pc.Blocked? && c.pc.slot < |s.slots| && c.pc.slot !in s.locks
    requires FreshIn(s.slots[c.pc.slot].toolset, Some(c.token), credentials) == Ok(None)
    requires answer.Some? ==> OpenedBy(servers, answer.value, c.token)
    ensures var t := Run(servers, r);
      && t.callers == s.callers[id := c.(pc := pc)] && t.locks == s.locks && t.users == s.users
      && if answer.None? then pc == Failed && t.slots == s.slots
         else
           && pc == Finished(c.pc.slot, Toolset(|s.succeeded|, answer.value))
           && t.slots == s.slots[c.pc.slot := s.slots[c.pc.slot].(toolset := Some(pc.toolset))]
  {
    r := Locks(servers, steps, s, id, c);
    var locked := Run(servers, r);
    r, pc := Rechecks(servers, r, locked, id, locked.callers[id], credentials);
    var connecting := Run(servers, r);
    r, pc := Connects(servers, r, connecting, id, connecting.callers[id], answer);
    assert connecting.locks - {c.pc.slot} == s.locks;
    assert Run(servers, r).callers == s.callers[id := c.(pc := pc)];
  }

  // ---- Leaving ----

  /** A dropped caller leaves no lock behind, wherever it was, and takes nothing away from anyone. */
  lemma DroppedCallersLetGo(servers: seq<Server>, s: State, id: nat)
    requires Inv(servers, s) && id in s.callers && !s.callers[id].pc.Finished? && !s.callers[id].pc.Failed?
    ensures var t := Next(servers, s, Step.Abandon(id));
      && t.callers == s.callers - {id} && t.slots == s.slots && t.users == s.users
      && (forall slot :: slot in t.locks <==> slot in s.locks && s.locks[slot] != id)
      && (forall slot :: slot in t.locks ==> t.locks[slot] == s.locks[slot])
  {
    var c := s.callers[id];
    assert HasLock(s.locks, id, c);
    forall slot | slot in s.locks && s.locks[slot] == id ensures Holds(c.pc) && c.pc.slot == slot {
      assert LockHeld(s.locks, s.callers, slot);
    }
  }

  /** A sweep forgets exactly the users not seen for half an hour; their callers and slots go on. */
  lemma SweptUsersStartAnew(servers: seq<Server>, s: State, now: int, user: string)
    ensures var t := Next(servers, s, Sweep(now));
      && (user in t.users <==> user in s.users && now < s.users[user].lastUsed + 30 * 60)
      && (user in t.users ==> t.users[user] == s.users[user])
      && (user !in t.users ==> SlotFor(t, user) == |s.slots| && Held(t, user) == None)
      && t.slots == s.slots && t.callers == s.callers && t.locks == s.locks
  {
    SeenLatelyStays(s.users, now, user);
  }
}
