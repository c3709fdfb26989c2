/**
 * One client per key: the double-checked, guarded initialisation of shared
 * clients, with guards that are created and removed while others wait on them.
 */
module ClientRegistry {
  import opened Prelude

  type Key = nat

  /** A client of some concrete type. */
  datatype Client = Client(kind: nat, value: nat)

  datatype Outcome = Got(client: Client) | TypeMismatch | InitFailed

  /** The stored client, if it has the type the caller asks for. */
  function Downcast(client: Client, kind: nat): Outcome {
    if client.kind == kind then Got(client) else TypeMismatch
  }

  /** A caller that asks for `kind` is given the stored client if it has that type, and told otherwise. */
  ghost predicate Serves(client: Client, kind: nat, r: Outcome) {
    && (client.kind == kind ==> r == Got(client))
    && (client.kind != kind ==> r == TypeMismatch)
  }

  /**
   * What one undisturbed `get_or_init` answers and leaves: a stored client is served and nothing changes, a
   * failed init leaves only its guard, a new client is stored and its guard dropped.
   */
  ghost predicate InitOnce(clients: map<Key, Client>, guards: map<Key, nat>, unused: nat, key: Key, kind: nat,
                           init: Option<nat>, r: Outcome, clientsAfter: map<Key, Client>, guardsAfter: map<Key, nat>)
  {
    if key in clients then Serves(clients[key], kind, r) && clientsAfter == clients && guardsAfter == guards
    else
      match init
      case None =>
        && r == InitFailed && clientsAfter == clients
        && guardsAfter == if key in guards then guards else guards[key := unused]
      case Some(value) =>
        && r == Got(Client(kind, value)) && clientsAfter == clients[key := Client(kind, value)]
        && guardsAfter == guards - {key}
  }

  // ---- The registry object ----

  class Registry {
    var clients: map<Key, Client>
    var initGuards: map<Key, nat>
    var nextGuard: nat

    constructor ()
      ensures clients == map[] && initGuards == map[] && nextGuard == 0
    {
      clients := map[];
      initGuards := map[];
      nextGuard := 0;
    }

    method Lookup(key: Key, kind: nat) returns (r: Option<Outcome>)
      ensures r.Some? <==> key in clients
      ensures r.Some? ==> Serves(clients[key], kind, r.value)
    {
      if key in clients { r := Some(Downcast(clients[key], kind)); } else { r := None; }
    }

    /** `entry(key).or_default()`. */
    method GuardFor(key: Key) returns (guard: nat)
      modifies this`initGuards, this`nextGuard
      ensures initGuards == EnsureGuard(old(initGuards), key, old(nextGuard))
      ensures guard == initGuards[key]
      ensures nextGuard == if key in old(initGuards) then old(nextGuard) else old(nextGuard) + 1
    {
      if key !in initGuards {
        initGuards := initGuards[key := nextGuard];
        nextGuard := nextGuard + 1;
      }
      guard := initGuards[key];
    }

    /** What `get_or_init` does once it holds the guard; `init` is what the closure would return. */
    method InitUnderGuard(key: Key, kind: nat, init: Option<nat>) returns (r: Outcome)
      modifies this`clients, this`initGuards
      ensures key in old(clients) ==>
        Serves(old(clients)[key], kind, r) && clients == old(clients) && initGuards == old(initGuards)
      ensures key !in old(clients) && init.None? ==>
        r == InitFailed && clients == old(clients) && initGuards == old(initGuards)
      ensures key !in old(clients) && init.Some? ==>
        && r == Got(Client(kind, init.value))
        && clients == old(clients)[key := Client(kind, init.value)]
        && initGuards == old(initGuards) - {key}
    {
      var known := Lookup(key, kind);
      if known.Some? { return known.value; }
      match init {
        case None => return InitFailed;
        case Some(value) =>
          clients := clients[key := Client(kind, value)];
          initGuards := initGuards - {key};
          return Got(Client(kind, value));
      }
    }

    /** `get_or_init` undisturbed: a known client is reused, a new one stored, and a failure leaves only its guard. */
    method GetOrInit(key: Key, kind: nat, init: Option<nat>) returns (r: Outcome)
      modifies this
      ensures InitOnce(old(clients), old(initGuards), old(nextGuard), key, kind, init, r, clients, initGuards)
      ensures r.Got? ==> r.client.kind == kind && key in clients && clients[key] == r.client
    {
      var known := Lookup(key, kind);
      if known.Some? { return known.value; }
      var _ := GuardFor(key);
      r := InitUnderGuard(key, kind, init);
    }

    method Remove(key: Key) returns (removed: bool)
      modifies this`clients, this`initGuards
      ensures clients == old(clients) - {key} && initGuards == old(initGuards) - {key}
      ensures removed <==> key in old(clients)
    {
      removed := key in clients;
      clients := clients - {key};
      initGuards := initGuards - {key};
    }
  }

  function EnsureGuard(guards: map<Key, nat>, key: Key, unused: nat): map<Key, nat> {
    if key in guards then guards else guards[key := unused]
  }

  // ---- Callers in any interleaving ----

  /** Where a caller is between the lock scopes of `get_or_init`. */
  datatype Pc =
    | Starting
    | Missed
    | Waiting(guard: nat)
    | Checking(guard: nat)
    | Initing(guard: nat)
    | Storing(guard: nat, client: Client)
    | Cleaning(guard: nat, client: Client)
    | Finished(outcome: Outcome)

  datatype Caller = Caller(key: Key, kind: nat, pc: Pc)

  /**
   * `succeeded` lists the clients init closures returned, `lost` those whose caller was dropped
   * before storing them.
   */
  datatype State = State(
    clients: map<Key, Client>,
    guards: map<Key, nat>,
    nextGuard: nat,
    locks: map<nat, nat>,
    callers: map<nat, Caller>,
    succeeded: seq<Key>,
    lost: seq<Key>)

  datatype Step =
    | Call(id: nat, key: Key, kind: nat)
    | FastRead(id: nat)
    | TakeGuard(id: nat)
    | Lock(id: nat)
    | Recheck(id: nat)
    | InitReturns(id: nat, value: Option<nat>)
    | StoreClient(id: nat)
    | DropGuard(id: nat)
    | Abandon(id: nat)        // the caller's future is dropped
    | RemoveClient(key: Key)  // the two lock scopes of `remove`
    | RemoveGuard(key: Key)

  function At(s: State, id: nat, pc: Pc): State
    requires id in s.callers
  {
    s.(callers := s.callers[id := s.callers[id].(pc := pc)])
  }

  function Unlock(s: State, guard: nat): State {
    s.(locks := s.locks - {guard})
  }

  predicate Holds(pc: Pc) {
    pc.Checking? || pc.Initing? || pc.Storing? || pc.Cleaning?
  }

  function Next(s: State, step: Step): State {
    match step
    case Call(id, key, kind) =>
      if id in s.callers then s else s.(callers := s.callers[id := Caller(key, kind, Starting)])
    case RemoveClient(key) => s.(clients := s.clients - {key})
    case RemoveGuard(key) => s.(guards := s.guards - {key})
    case _ => if step.id in s.callers then Advance(s, step, s.callers[step.id]) else s
  }

  function AfterFastRead(s: State, id: nat, c: Caller): State
    requires id in s.callers
  {
    if !c.pc.Starting? then s
    else At(s, id, if c.key in s.clients then Finished(Downcast(s.clients[c.key], c.kind)) else Missed)
  }

  function AfterTakeGuard(s: State, id: nat, c: Caller): State
    requires id in s.callers
  {
    if !c.pc.Missed? then s
    else
      var guards := EnsureGuard(s.guards, c.key, s.nextGuard);
      At(s.(guards := guards, nextGuard := if c.key in s.guards then s.nextGuard else s.nextGuard + 1), id,
         Waiting(guards[c.key]))
  }

  function AfterLock(s: State, id: nat, c: Caller): State
    requires id in s.callers
  {
    if !c.pc.Waiting? || c.pc.guard in s.locks then s
    else At(s.(locks := s.locks[c.pc.guard := id]), id, Checking(c.pc.guard))
  }

  function AfterRecheck(s: State, id: nat, c: Caller): State
    requires id in s.callers
  {
    if !c.pc.Checking? then s
    else if c.key in s.clients then At(Unlock(s, c.pc.guard), id, Finished(Downcast(s.clients[c.key], c.kind)))
    else At(s, id, Initing(c.pc.guard))
  }

  function AfterInit(s: State, id: nat, c: Caller, value: Option<nat>): State
    requires id in s.callers
  {
    if !c.pc.Initing? then s
    else
      match value
      case None => At(Unlock(s, c.pc.guard), id, Finished(InitFailed))
      case Some(v) => At(s.(succeeded := s.succeeded + [c.key]), id, Storing(c.pc.guard, Client(c.kind, v)))
  }

  function AfterStore(s: State, id: nat, c: Caller): State
    requires id in s.callers
  {
    if !c.pc.Storing? then s
    else At(s.(clients := s.clients[c.key := c.pc.client]), id, Cleaning(c.pc.guard, c.pc.client))
  }

  function AfterDropGuard(s: State, id: nat, c: Caller): State
    requires id in s.callers
  {
    if !c.pc.Cleaning? then s
    else At(Unlock(s, c.pc.guard).(guards := s.guards - {c.key}), id, Finished(Got(c.pc.client)))
  }

  function AfterAbandon(s: State, id: nat, c: Caller): State {
    if c.pc.Finished? then s
    else
      var left := s.(callers := s.callers - {id}, lost := if c.pc.Storing? then s.lost + [c.key] else s.lost);
      if Holds(c.pc) then Unlock(left, c.pc.guard) else left
  }

  function Advance(s: State, step: Step, c: Caller): State
    requires !step.Call? && !Removes(step) && step.id in s.callers
  {
    match step
    case FastRead(id) => AfterFastRead(s, id, c)
    case TakeGuard(id) => AfterTakeGuard(s, id, c)
    case Lock(id) => AfterLock(s, id, c)
    case Recheck(id) => AfterRecheck(s, id, c)
    case InitReturns(id, value) => AfterInit(s, id, c, value)
    case StoreClient(id) => AfterStore(s, id, c)
    case DropGuard(id) => AfterDropGuard(s, id, c)
    case Abandon(id) => AfterAbandon(s, id, c)
  }

  function Run(s: State, steps: seq<Step>): State
    decreases |steps|
  {
    if steps == [] then s else Next(Run(s, steps[..|steps| - 1]), steps[|steps| - 1])
  }

  const Empty := State(map[], map[], 0, map[], map[], [], [])

  predicate Removes(step: Step) { step.RemoveClient? || step.RemoveGuard? }

  ghost predicate NoRemove(steps: seq<Step>) {
    forall i | 0 <= i < |steps| :: !Removes(steps[i])
  }

  // ---- The invariant of runs without `remove` ----

  predicate HasGuard(pc: Pc) { pc.Waiting? || Holds(pc) }

  ghost predicate Inv(s: State) {
    // Until a client is stored, everyone with a guard for its key has the current one.
    && (forall id :: id in s.callers && HasGuard(s.callers[id].pc) && s.callers[id].key !in s.clients ==>
          s.callers[id].key in s.guards && s.guards[s.callers[id].key] == s.callers[id].pc.guard)
    // A guard is locked exactly by the caller inside it.
    && (forall id :: id in s.callers && Holds(s.callers[id].pc) ==>
          s.callers[id].pc.guard in s.locks && s.locks[s.callers[id].pc.guard] == id)
    && (forall g :: g in s.locks ==>
          s.locks[g] in s.callers && Holds(s.callers[s.locks[g]].pc) && s.callers[s.locks[g]].pc.guard == g)
    // Nobody initialises a key that has its client.
    && (forall id :: id in s.callers && (s.callers[id].pc.Initing? || s.callers[id].pc.Storing?) ==>
          s.callers[id].key !in s.clients)
    // Whoever got a client got the stored one.
    && (forall id :: id in s.callers && s.callers[id].pc.Cleaning? ==>
          s.callers[id].key in s.clients && s.clients[s.callers[id].key] == s.callers[id].pc.client)
    && (forall id :: id in s.callers && s.callers[id].pc.Finished? && s.callers[id].pc.outcome.Got? ==>
          s.callers[id].key in s.clients && s.clients[s.callers[id].key] == s.callers[id].pc.outcome.client)
  }

  lemma FastReadKeepsInv(s: State, id: nat)
    requires Inv(s) && id in s.callers
    ensures Inv(AfterFastRead(s, id, s.callers[id]))
  {}

  lemma TakeGuardKeepsInv(s: State, id: nat)
    requires Inv(s) && id in s.callers
    ensures Inv(AfterTakeGuard(s, id, s.callers[id]))
  {}

  lemma LockKeepsInv(s: State, id: nat)
    requires Inv(s) && id in s.callers
    ensures Inv(AfterLock(s, id, s.callers[id]))
  {}

  lemma RecheckKeepsInv(s: State, id: nat)
    requires Inv(s) && id in s.callers
    ensures Inv(AfterRecheck(s, id, s.callers[id]))
  {}

  lemma InitKeepsInv(s: State, id: nat, value: Option<nat>)
    requires Inv(s) && id in s.callers
    ensures Inv(AfterInit(s, id, s.callers[id], value))
  {}

  lemma StoreClientKeepsInv(s: State, id: nat)
    requires Inv(s) && id in s.callers
    ensures Inv(AfterStore(s, id, s.callers[id]))
  {}

  lemma DropGuardKeepsInv(s: State, id: nat)
    requires Inv(s) && id in s.callers
    ensures Inv(AfterDropGuard(s, id, s.callers[id]))
  {}

  lemma AbandonKeepsInv(s: State, id: nat)
    requires Inv(s) && id in s.callers
    ensures Inv(AfterAbandon(s, id, s.callers[id]))
  {}

  lemma AdvanceKeepsInv(s: State, step: Step)
    requires Inv(s) && !step.Call? && !Removes(step) && step.id in s.callers
    ensures Inv(Advance(s, step, s.callers[step.id]))
  {
    match step
    case FastRead(id) => FastReadKeepsInv(s, id);
    case TakeGuard(id) => TakeGuardKeepsInv(s, id);
    case Lock(id) => LockKeepsInv(s, id);
    case Recheck(id) => RecheckKeepsInv(s, id);
    case InitReturns(id, value) => InitKeepsInv(s, id, value);
    case StoreClient(id) => StoreClientKeepsInv(s, id);
    case DropGuard(id) => DropGuardKeepsInv(s, id);
    case Abandon(id) => AbandonKeepsInv(s, id);
  }

  lemma {:induction false} RunKeepsInv(s: State, steps: seq<Step>)
    requires Inv(s) && NoRemove(steps)
    ensures Inv(Run(s, steps))
    decreases |steps|
  {
    if steps != [] {
      var init, step := steps[..|steps| - 1], steps[|steps| - 1];
      RunKeepsInv(s, init);
      if !step.Call? && step.id in Run(s, init).callers { AdvanceKeepsInv(Run(s, init), step); }
    }
  }

  // ---- What this gives ----

  ghost predicate Reachable(s: State) {
    exists steps :: NoRemove(steps) && s == Run(Empty, steps)
  }

  lemma ReachableInv(s: State)
    requires Reachable(s)
    ensures Inv(s)
  {
    var steps :| NoRemove(steps) && s == Run(Empty, steps);
    RunKeepsInv(Empty, steps);
  }

  predicate Initialising(s: State, id: nat, key: Key) {
    id in s.callers && s.callers[id].key == key && (s.callers[id].pc.Initing? || s.callers[id].pc.Storing?)
  }

  /** For each key at most one caller runs its init closure or holds an unstored client, and none once there is one. */
  lemma OneInitAtATime(s: State, key: Key, a: nat, b: nat)
    requires Reachable(s) && Initialising(s, a, key) && Initialising(s, b, key)
    ensures a == b && key !in s.clients
  {
    ReachableInv(s);
  }

  /** Every caller that succeeds for a key gets the one client stored for it. */
  lemma EveryoneGetsTheStoredClient(s: State, id: nat)
    requires Reachable(s) && id in s.callers
    requires s.callers[id].pc.Finished? && s.callers[id].pc.outcome.Got?
    ensures s.callers[id].key in s.clients && s.callers[id].pc.outcome.client == s.clients[s.callers[id].key]
  {
    ReachableInv(s);
  }

  lemma NextKeepsClient(s: State, step: Step, key: Key)
    requires !Removes(step) && key in s.clients
    requires forall id :: id in s.callers && s.callers[id].pc.Storing? ==> s.callers[id].key !in s.clients
    ensures key in Next(s, step).clients && Next(s, step).clients[key] == s.clients[key]
  {
  }

  /** Without `remove` a stored client stays, in every continuation. */
  lemma {:induction false} StoredClientStays(s: State, steps: seq<Step>, key: Key)
    requires Inv(s) && NoRemove(steps) && key in s.clients
    ensures key in Run(s, steps).clients && Run(s, steps).clients[key] == s.clients[key]
    decreases |steps|
  {
    if steps != [] {
      var init := steps[..|steps| - 1];
      StoredClientStays(s, init, key);
      RunKeepsInv(s, init);
      NextKeepsClient(Run(s, init), steps[|steps| - 1], key);
    }
  }

  /** A caller waiting on a guard waits for a caller that can itself take a step: nobody holds a guard forever. */
  lemma NoOrphanedGuard(s: State, id: nat)
    requires Reachable(s) && id in s.callers && s.callers[id].pc.Waiting? && s.callers[id].pc.guard in s.locks
    ensures var holder := s.locks[s.callers[id].pc.guard];
      && holder in s.callers && holder != id
      && exists step :: !Removes(step) && !step.Call? && !step.Abandon? && step.id == holder && Next(s, step) != s
  {
    ReachableInv(s);
    var holder := s.locks[s.callers[id].pc.guard];
    var step := match s.callers[holder].pc
      case Checking(_) => Recheck(holder)
      case Initing(_) => InitReturns(holder, None)
      case Storing(_, _) => StoreClient(holder)
      case _ => DropGuard(holder);
    assert Next(s, step).callers[holder].pc != s.callers[holder].pc;
  }

  /** A dropped caller leaves no guard locked, wherever it was, and takes nothing else away. */
  lemma DroppedCallersLetGo(s: State, id: nat)
    requires Inv(s) && id in s.callers && !s.callers[id].pc.Finished?
    ensures var t := Next(s, Abandon(id));
      && t.callers == s.callers - {id} && t.clients == s.clients && t.guards == s.guards
      && (forall g :: g in t.locks <==> g in s.locks && s.locks[g] != id)
      && (forall g :: g in t.locks ==> t.locks[g] == s.locks[g])
  {}

  // ---- What each caller is answered ----

  /** Clients that callers hold or got have the type they asked for. */
  ghost predicate Kinded(s: State) {
    forall id :: id in s.callers ==>
      var c := s.callers[id];
      && (c.pc.Storing? || c.pc.Cleaning? ==> c.pc.client.kind == c.kind)
      && (c.pc.Finished? && c.pc.outcome.Got? ==> c.pc.outcome.client.kind == c.kind)
  }

  lemma AdvanceKeepsKinds(s: State, step: Step)
    requires Kinded(s) && !step.Call? && !Removes(step) && step.id in s.callers
    ensures Kinded(Advance(s, step, s.callers[step.id]))
  {}

  /** In every run, `remove` included, whoever succeeds got a client of the type it asked for. */
  lemma {:induction false} GotTheTypeAskedFor(steps: seq<Step>)
    ensures Kinded(Run(Empty, steps))
    decreases |steps|
  {
    if steps != [] {
      var before, step := Run(Empty, steps[..|steps| - 1]), steps[|steps| - 1];
      GotTheTypeAskedFor(steps[..|steps| - 1]);
      if !step.Call? && !Removes(step) && step.id in before.callers { AdvanceKeepsKinds(before, step); }
    }
  }

  /** A caller told of another type was told of the client that is still stored. */
  ghost predicate MismatchesAreStored(s: State) {
    forall id :: id in s.callers && s.callers[id].pc == Finished(TypeMismatch) ==>
      s.callers[id].key in s.clients && s.clients[s.callers[id].key].kind != s.callers[id].kind
  }

  lemma {:induction false} MismatchesStayStored(steps: seq<Step>)
    requires NoRemove(steps)
    ensures MismatchesAreStored(Run(Empty, steps))
    decreases |steps|
  {
    if steps != [] {
      var init, step := steps[..|steps| - 1], steps[|steps| - 1];
      MismatchesStayStored(init);
      RunKeepsInv(Empty, init);
      NextKeepsMismatches(Run(Empty, init), step);
    }
  }

  lemma NextKeepsMismatches(s: State, step: Step)
    requires Inv(s) && MismatchesAreStored(s) && !Removes(step)
    ensures MismatchesAreStored(Next(s, step))
  {
    var t := Next(s, step);
    forall id | id in t.callers && t.callers[id].pc == Finished(TypeMismatch)
      ensures t.callers[id].key in t.clients && t.clients[t.callers[id].key].kind != t.callers[id].kind
    {
      if id in s.callers && s.callers[id] == t.callers[id] {
        NextKeepsClient(s, step, s.callers[id].key);
      }
    }
  }

  /**
   * Without `remove`, a caller that finishes for a key was served the client stored for it, which it got exactly
   * when it has the type it asked for, or its own closure failed.
   */
  lemma FinishedCallersAreServed(steps: seq<Step>, id: nat)
    requires NoRemove(steps) && id in Run(Empty, steps).callers && Run(Empty, steps).callers[id].pc.Finished?
    ensures var s := Run(Empty, steps);
      var c := s.callers[id];
      c.pc.outcome != InitFailed ==> c.key in s.clients && Serves(s.clients[c.key], c.kind, c.pc.outcome)
  {
    RunKeepsInv(Empty, steps);
    GotTheTypeAskedFor(steps);
    MismatchesStayStored(steps);
  }

  /** A caller of a stored key, on its way to being served. */
  ghost predicate OnItsWay(c: Caller, key: Key, kind: nat, client: Client) {
    && c.key == key && c.kind == kind
    && !c.pc.Initing? && !c.pc.Storing? && !c.pc.Cleaning?
    && (c.pc.Finished? ==> Serves(client, kind, c.pc.outcome))
  }

  lemma AdvanceStaysOnItsWay(s: State, step: Step, id: nat, key: Key, kind: nat)
    requires id in s.callers && key in s.clients && OnItsWay(s.callers[id], key, kind, s.clients[key])
    requires !Removes(step) && step != Abandon(id)
    ensures id in Next(s, step).callers && OnItsWay(Next(s, step).callers[id], key, kind, s.clients[key])
  {}

  /**
   * A caller that starts while a client is stored for its key never runs its closure: whatever the others do, it
   * finishes with that client, or, exactly when the types differ, with a mismatch.
   */
  lemma {:induction false} StoredKeysAreServed(s: State, id: nat, key: Key, kind: nat, steps: seq<Step>)
    requires Inv(s) && key in s.clients && id in s.callers && s.callers[id] == Caller(key, kind, Starting)
    requires NoRemove(steps) && Abandon(id) !in steps
    ensures var t := Run(s, steps);
      id in t.callers && OnItsWay(t.callers[id], key, kind, s.clients[key])
    decreases |steps|
  {
    if steps != [] {
      var init, step := steps[..|steps| - 1], steps[|steps| - 1];
      StoredKeysAreServed(s, id, key, kind, init);
      StoredClientStays(s, init, key);
      AdvanceStaysOnItsWay(Run(s, init), step, id, key, kind);
    }
  }

  // ---- How often init succeeds ----

  ghost predicate Unstored(s: State, key: Key) {
    exists id :: id in s.callers && s.callers[id].key == key && s.callers[id].pc.Storing?
  }

  /** Every client that was opened is stored, on its way to be stored, or was lost. */
  ghost predicate Accounted(s: State, key: Key) {
    Count(s.succeeded, key) ==
      One(key in s.clients) + One(Unstored(s, key)) + Count(s.lost, key)
  }

  lemma UnstoredAfter(s: State, t: State, id: nat, key: Key)
    requires id in s.callers
    requires forall other :: other != id ==> (other in s.callers <==> other in t.callers)
    requires forall other :: other != id && other in s.callers ==> s.callers[other] == t.callers[other]
    requires id in t.callers ==> t.callers[id].key == s.callers[id].key
    ensures s.callers[id].key != key ==> (Unstored(s, key) <==> Unstored(t, key))
    ensures !s.callers[id].pc.Storing? && !(id in t.callers && t.callers[id].pc.Storing?) ==>
      (Unstored(s, key) <==> Unstored(t, key))
  {}

  /** While one caller is initialising a key, no other holds an unstored client for it. */
  lemma OnlyOneUnstored(s: State, id: nat, other: nat)
    requires Inv(s) && Initialising(s, id, if id in s.callers then s.callers[id].key else 0)
    requires other in s.callers && other != id && s.callers[other].key == s.callers[id].key
    ensures !s.callers[other].pc.Initing? && !s.callers[other].pc.Storing?
  {}

  lemma InitKeepsAccounts(s: State, id: nat, value: nat, key: Key)
    requires Inv(s) && Accounted(s, key) && id in s.callers && s.callers[id].pc.Initing?
    ensures Accounted(AfterInit(s, id, s.callers[id], Some(value)), key)
  {
    var c := s.callers[id];
    var t := AfterInit(s, id, c, Some(value));
    CountAppend(s.succeeded, c.key, key);
    UnstoredAfter(s, t, id, key);
    if c.key == key {
      forall other | other in s.callers && s.callers[other].key == key ensures !s.callers[other].pc.Storing? {
        if other != id { OnlyOneUnstored(s, id, other); }
      }
      assert t.callers[id].pc.Storing?;
    }
  }

  lemma StoreKeepsAccounts(s: State, id: nat, key: Key)
    requires Inv(s) && Accounted(s, key) && id in s.callers && s.callers[id].pc.Storing?
    ensures Accounted(AfterStore(s, id, s.callers[id]), key)
  {
    var c := s.callers[id];
    var t := AfterStore(s, id, c);
    UnstoredAfter(s, t, id, key);
    if c.key == key {
      assert Unstored(s, key);
      forall other | other in t.callers && t.callers[other].key == key ensures !t.callers[other].pc.Storing? {
        if other != id { OnlyOneUnstored(s, id, other); }
      }
    }
  }

  lemma AbandonKeepsAccounts(s: State, id: nat, key: Key)
    requires Inv(s) && Accounted(s, key) && id in s.callers && s.callers[id].pc.Storing?
    ensures Accounted(AfterAbandon(s, id, s.callers[id]), key)
  {
    var c := s.callers[id];
    var t := AfterAbandon(s, id, c);
    CountAppend(s.lost, c.key, key);
    UnstoredAfter(s, t, id, key);
    if c.key == key {
      assert Unstored(s, key);
      forall other | other in t.callers && t.callers[other].key == key ensures !t.callers[other].pc.Storing? {
        OnlyOneUnstored(s, id, other);
      }
    }
  }

  /** The steps that neither make, store nor drop a client. */
  predicate Idle(step: Step, pc: Pc) {
    !pc.Storing? && !(step.InitReturns? && step.value.Some? && pc.Initing?)
  }

  /** What an idle step leaves alone. */
  ghost predicate KeepsClients(s: State, t: State, id: nat) {
    && t.clients == s.clients && t.succeeded == s.succeeded && t.lost == s.lost
    && t.callers - {id} == s.callers - {id}
    && (id in t.callers && id in s.callers ==> t.callers[id].key == s.callers[id].key && !t.callers[id].pc.Storing?)
  }

  lemma IdleKeepsClients(s: State, step: Step)
    requires !step.Call? && !Removes(step) && step.id in s.callers && Idle(step, s.callers[step.id].pc)
    ensures KeepsClients(s, Advance(s, step, s.callers[step.id]), step.id)
  {
  }

  lemma KeptClientsKeepAccounts(s: State, t: State, id: nat, key: Key)
    requires Accounted(s, key) && id in s.callers && !s.callers[id].pc.Storing? && KeepsClients(s, t, id)
    ensures Accounted(t, key)
  {
    forall other | other != id
      ensures other in s.callers <==> other in t.callers
      ensures other in s.callers ==> s.callers[other] == t.callers[other]
    {
      assert other in s.callers - {id} <==> other in t.callers - {id};
      assert other in s.callers - {id} ==> (s.callers - {id})[other] == (t.callers - {id})[other];
    }
    UnstoredAfter(s, t, id, key);
  }

  lemma AdvanceKeepsAccounts(s: State, step: Step, key: Key)
    requires Inv(s) && Accounted(s, key) && !step.Call? && !Removes(step) && step.id in s.callers
    ensures Accounted(Advance(s, step, s.callers[step.id]), key)
  {
    var id := step.id;
    if s.callers[id].pc.Storing? {
      if step.StoreClient? { StoreKeepsAccounts(s, id, key); }
      if step.Abandon? { AbandonKeepsAccounts(s, id, key); }
    } else if step.InitReturns? && step.value.Some? && s.callers[id].pc.Initing? {
      InitKeepsAccounts(s, id, step.value.value, key);
    } else {
      IdleKeepsClients(s, step);
      KeptClientsKeepAccounts(s, Advance(s, step, s.callers[id]), id, key);
    }
  }

  lemma {:induction false} RunKeepsAccounts(steps: seq<Step>, key: Key)
    requires NoRemove(steps)
    ensures Inv(Run(Empty, steps)) && Accounted(Run(Empty, steps), key)
    decreases |steps|
  {
    RunKeepsInv(Empty, steps);
    if steps != [] {
      var init, step := steps[..|steps| - 1], steps[|steps| - 1];
      RunKeepsAccounts(init, key);
      var s := Run(Empty, init);
      if step.Call? {
        var t := Next(s, step);
        forall id | id in t.callers && t.callers[id].pc.Storing?
          ensures id in s.callers && s.callers[id] == t.callers[id] {}
        forall id | id in s.callers ensures id in t.callers && s.callers[id] == t.callers[id] {}
        assert Unstored(s, key) <==> Unstored(t, key);
      } else if step.id in s.callers {
        AdvanceKeepsAccounts(s, step, key);
      }
    }
  }

  /**
   * For each key init succeeds at most once, and once more for each caller
   * dropped between its closure returning and its client being stored.
   */
  lemma InitSucceedsOnce(steps: seq<Step>, key: Key)
    requires NoRemove(steps)
    ensures var s := Run(Empty, steps); Count(s.succeeded, key) <= 1 + Count(s.lost, key)
    ensures var s := Run(Empty, steps); key in s.clients ==> Count(s.succeeded, key) == 1 + Count(s.lost, key)
  {
    RunKeepsAccounts(steps, key);
    var s := Run(Empty, steps);
    if Unstored(s, key) {
      var id :| id in s.callers && s.callers[id].key == key && s.callers[id].pc.Storing?;
    }
  }

  // ---- Undisturbed calls, and where the guarantees end ----

  lemma {:induction false} Then(steps: seq<Step>, step: Step) returns (longer: seq<Step>)
    ensures longer == steps + [step]
    ensures Run(Empty, longer) == Next(Run(Empty, steps), step)
  {
    longer := steps + [step];
    assert longer[..|steps|] == steps;
  }

  function GuardOf(s: State, key: Key): nat { if key in s.guards then s.guards[key] else s.nextGuard }

  lemma ReachMissed(steps: seq<Step>, id: nat, key: Key, kind: nat) returns (longer: seq<Step>)
    requires var s := Run(Empty, steps); id !in s.callers && key !in s.clients
    ensures NoRemove(steps) ==> NoRemove(longer)
    ensures Run(Empty, longer) ==
      Run(Empty, steps).(callers := Run(Empty, steps).callers[id := Caller(key, kind, Missed)])
  {
    var s := Run(Empty, steps);
    longer := Then(steps, Call(id, key, kind));
    assert Run(Empty, longer) == s.(callers := s.callers[id := Caller(key, kind, Starting)]);
    longer := Then(longer, FastRead(id));
  }

  lemma ReachWaiting(steps: seq<Step>, id: nat, key: Key, kind: nat) returns (longer: seq<Step>)
    requires var s := Run(Empty, steps); id !in s.callers && key !in s.clients
    ensures NoRemove(steps) ==> NoRemove(longer)
    ensures var s := Run(Empty, steps);
      Run(Empty, longer) == s.(callers := s.callers[id := Caller(key, kind, Waiting(GuardOf(s, key)))],
                               guards := EnsureGuard(s.guards, key, s.nextGuard),
                               nextGuard := if key in s.guards then s.nextGuard else s.nextGuard + 1)
  {
    var s := Run(Empty, steps);
    longer := ReachMissed(steps, id, key, kind);
    longer := Then(longer, TakeGuard(id));
    assert s.callers[id := Caller(key, kind, Missed)][id := Caller(key, kind, Waiting(GuardOf(s, key)))] ==
      s.callers[id := Caller(key, kind, Waiting(GuardOf(s, key)))];
  }

  lemma ReachLocked(steps: seq<Step>, w: State, id: nat, key: Key, kind: nat, guard: nat) returns (longer: seq<Step>)
    requires Run(Empty, steps) == w && guard !in w.locks
    requires id in w.callers && w.callers[id] == Caller(key, kind, Waiting(guard))
    ensures NoRemove(steps) ==> NoRemove(longer)
    ensures Run(Empty, longer) ==
      w.(callers := w.callers[id := Caller(key, kind, Checking(guard))], locks := w.locks[guard := id])
  {
    longer := Then(steps, Lock(id));
  }

  lemma RecheckMisses(steps: seq<Step>, w: State, id: nat, key: Key, kind: nat, guard: nat) returns (longer: seq<Step>)
    requires Run(Empty, steps) == w && key !in w.clients
    requires id in w.callers && w.callers[id] == Caller(key, kind, Checking(guard))
    ensures NoRemove(steps) ==> NoRemove(longer)
    ensures Run(Empty, longer) == w.(callers := w.callers[id := Caller(key, kind, Initing(guard))])
  {
    longer := Then(steps, Recheck(id));
  }

  /** Undisturbed, a new caller of a key without client or guard gets as far as its init closure. */
  lemma ReachInit(steps: seq<Step>, id: nat, key: Key, kind: nat) returns (longer: seq<Step>)
    requires var s := Run(Empty, steps); id !in s.callers && key !in s.clients && GuardOf(s, key) !in s.locks
    ensures NoRemove(steps) ==> NoRemove(longer)
    ensures var s := Run(Empty, steps);
      Run(Empty, longer) == s.(callers := s.callers[id := Caller(key, kind, Initing(GuardOf(s, key)))],
                               locks := s.locks[GuardOf(s, key) := id],
                               guards := EnsureGuard(s.guards, key, s.nextGuard),
                               nextGuard := if key in s.guards then s.nextGuard else s.nextGuard + 1)
  {
    var s := Run(Empty, steps);
    var guard := GuardOf(s, key);
    longer := ReachWaiting(steps, id, key, kind);
    var w := Run(Empty, longer);
    longer := ReachLocked(longer, w, id, key, kind, guard);
    var locked := Run(Empty, longer);
    longer := RecheckMisses(longer, locked, id, key, kind, guard);
    assert Run(Empty, longer).callers == s.callers[id := Caller(key, kind, Initing(guard))];
  }

  function InitOutcome(kind: nat, init: Option<nat>): Outcome {
    if init.None? then InitFailed else Got(Client(kind, init.value))
  }

  /** From its closure on, an undisturbed caller ends as the object does. */
  lemma FinishInit(steps: seq<Step>, w: State, id: nat, key: Key, kind: nat, guard: nat, init: Option<nat>)
    returns (longer: seq<Step>)
    requires Run(Empty, steps) == w && id in w.callers && w.callers[id] == Caller(key, kind, Initing(guard))
    ensures NoRemove(steps) ==> NoRemove(longer)
    ensures var t := Run(Empty, longer);
      && t.callers == w.callers[id := Caller(key, kind, Finished(InitOutcome(kind, init)))]
      && t.clients == (if init.None? then w.clients else w.clients[key := Client(kind, init.value)])
      && t.guards == (if init.None? then w.guards else w.guards - {key})
      && t.locks == w.locks - {guard}
  {
    longer := Then(steps, InitReturns(id, init));
    if init.Some? {
      var client := Client(kind, init.value);
      var unstored :=
        w.(succeeded := w.succeeded + [key], callers := w.callers[id := Caller(key, kind, Storing(guard, client))]);
      assert Run(Empty, longer) == unstored;
      longer := StoreAndClean(longer, unstored, id, key, kind, guard, client);
    }
  }

  lemma StoreAndClean(steps: seq<Step>, w: State, id: nat, key: Key, kind: nat, guard: nat, client: Client)
    returns (longer: seq<Step>)
    requires Run(Empty, steps) == w && id in w.callers && w.callers[id] == Caller(key, kind, Storing(guard, client))
    ensures NoRemove(steps) ==> NoRemove(longer)
    ensures Run(Empty, longer) == w.(callers := w.callers[id := Caller(key, kind, Finished(Got(client)))],
                                     clients := w.clients[key := client], guards := w.guards - {key},
                                     locks := w.locks - {guard})
  {
    longer := Then(steps, StoreClient(id));
    var stored :=
      w.(clients := w.clients[key := client], callers := w.callers[id := Caller(key, kind, Cleaning(guard, client))]);
    assert Run(Empty, longer) == stored;
    longer := Then(longer, DropGuard(id));
    assert AfterDropGuard(stored, id, stored.callers[id]).callers ==
      w.callers[id := Caller(key, kind, Finished(Got(client)))];
  }

  lemma InitAlone(steps: seq<Step>, id: nat, key: Key, kind: nat, init: Option<nat>) returns (longer: seq<Step>)
    requires var s := Run(Empty, steps); id !in s.callers && key !in s.clients && GuardOf(s, key) !in s.locks
    ensures NoRemove(steps) ==> NoRemove(longer)
    ensures var s, t := Run(Empty, steps), Run(Empty, longer);
      && t.callers == s.callers[id := Caller(key, kind, Finished(InitOutcome(kind, init)))]
      && t.clients == (if init.None? then s.clients else s.clients[key := Client(kind, init.value)])
      && t.guards == (if init.None? then EnsureGuard(s.guards, key, s.nextGuard) else s.guards - {key})
      && t.locks == s.locks
  {
    var s := Run(Empty, steps);
    longer := ReachInit(steps, id, key, kind);
    var w := Run(Empty, longer);
    longer := FinishInit(longer, w, id, key, kind, GuardOf(s, key), init);
    assert w.locks - {GuardOf(s, key)} == s.locks;
    assert w.guards - {key} == s.guards - {key};
  }

  /** A caller nobody disturbs leaves clients and guards, and ends, exactly as `GetOrInit` on the object does. */
  lemma UndisturbedCallIsGetOrInit(steps: seq<Step>, id: nat, key: Key, kind: nat, init: Option<nat>)
    returns (longer: seq<Step>, r: Outcome)
    requires var s := Run(Empty, steps); id !in s.callers && GuardOf(s, key) !in s.locks
    ensures NoRemove(steps) ==> NoRemove(longer)
    ensures var s, t := Run(Empty, steps), Run(Empty, longer);
      && t.callers == s.callers[id := Caller(key, kind, Finished(r))]
      && InitOnce(s.clients, s.guards, s.nextGuard, key, kind, init, r, t.clients, t.guards)
      && t.locks == s.locks
  {
    var s := Run(Empty, steps);
    if key in s.clients {
      longer := FindStored(steps, id, key, kind);
      r := Downcast(s.clients[key], kind);
    } else {
      longer := InitAlone(steps, id, key, kind, init);
      r := InitOutcome(kind, init);
    }
  }

  lemma FindStored(steps: seq<Step>, id: nat, key: Key, kind: nat) returns (longer: seq<Step>)
    requires var s := Run(Empty, steps); id !in s.callers && key in s.clients
    ensures NoRemove(steps) ==> NoRemove(longer)
    ensures var s := Run(Empty, steps);
      Run(Empty, longer) == s.(callers := s.callers[id := Caller(key, kind, Finished(Downcast(s.clients[key], kind)))])
  {
    var s := Run(Empty, steps);
    longer := Then(steps, Call(id, key, kind));
    assert Run(Empty, longer) == s.(callers := s.callers[id := Caller(key, kind, Starting)]);
    longer := Then(longer, FastRead(id));
  }

  /** Dropping a caller between its closure returning and its client being stored lets init succeed again. */
  lemma DroppedClientIsOpenedAgain()
    ensures exists steps :: NoRemove(steps) && Count(Run(Empty, steps).succeeded, 0) == 2
  {
    var steps := ReachInit([], 0, 0, 0);
    var s := Run(Empty, steps);
    steps := Then(steps, InitReturns(0, Some(1)));
    var unstored := s.(callers := map[0 := Caller(0, 0, Storing(0, Client(0, 1)))], succeeded := [0]);
    assert Run(Empty, steps) == unstored;
    steps := Then(steps, Abandon(0));
    assert Run(Empty, steps) == AfterAbandon(unstored, 0, unstored.callers[0]);
    SecondCallerOpensAgain(steps);
  }

  lemma SecondCallerOpensAgain(before: seq<Step>)
    requires NoRemove(before) && Run(Empty, before) == State(map[], map[0 := 0], 1, map[], map[], [0], [0])
    ensures exists steps :: NoRemove(steps) && Count(Run(Empty, steps).succeeded, 0) == 2
  {
    var steps := ReachInit(before, 1, 0, 0);
    var s := Run(Empty, steps);
    steps := Then(steps, InitReturns(1, Some(2)));
    assert Run(Empty, steps).succeeded == [0] + [0];
    CountAppend([0], 0, 0);
  }

  /** `remove` drops the guard under whoever holds it, so two callers can run init for one key at once. */
  lemma RemoveAllowsTwoInitsAtATime()
    ensures exists steps, a, b ::
      a != b && Initialising(Run(Empty, steps), a, 0) && Initialising(Run(Empty, steps), b, 0)
  {
    var steps := ReachInit([], 0, 0, 0);
    steps := Then(steps, RemoveClient(0));
    steps := Then(steps, RemoveGuard(0));
    steps := ReachInit(steps, 1, 0, 0);
    assert Initialising(Run(Empty, steps), 0, 0) && Initialising(Run(Empty, steps), 1, 0);
  }
}
