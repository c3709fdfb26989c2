/**
 * The key that encrypts the session cookie: pods that start together settle on one stored key
 * through an atomic create.
 */
module CookieKey {
  import opened Prelude

  type Byte = b: nat | b < 256

  type Bytes = seq<Byte>

  /** Shortest `cookie_secret` the key can be derived from. */
  const MIN_COOKIE_SECRET_BYTES: nat := 32

  /** A key's length; reading one back takes this many bytes and ignores the rest. */
  const KEY_BYTES: nat := 64

  type Key = k: Bytes | |k| == KEY_BYTES witness seq(KEY_BYTES, i => 0)

  datatype Error = SecretTooShort(bytes: nat) | Cache | Random | InvalidStoredKey(bytes: nat) | Vanished

  function Decode(stored: Bytes): Result<Key, Error> {
    if |stored| < KEY_BYTES then Err(InvalidStoredKey(|stored|)) else Ok(stored[..KEY_BYTES])
  }

  lemma DecodesToItself(key: Key)
    ensures Decode(key) == Ok(key)
  {
    assert key[..KEY_BYTES] == key;
  }

  /** Reading a stored key takes its first bytes, whatever follows, and is refused when there are too few. */
  lemma DecodeTakesTheFirst(key: Key, rest: Bytes, short: Bytes)
    requires |short| < KEY_BYTES
    ensures Decode(key + rest) == Ok(key)
    ensures Decode(short) == Err(InvalidStoredKey(|short|))
  {
    assert (key + rest)[..KEY_BYTES] == key;
  }

  // ---- One pod on its own ----

  class KeyCache {
    var stored: Option<Bytes>

    constructor (content: Option<Bytes>)
      ensures stored == content
    {
      stored := content;
    }

    method StoredCookieKey() returns (r: Result<Option<Key>, Error>)
      ensures stored.None? ==> r == Ok(None)
      ensures stored.Some? && Decode(stored.value).Ok? ==> r == Ok(Some(Decode(stored.value).value))
      ensures stored.Some? && Decode(stored.value).Err? ==> r == Err(Decode(stored.value).error)
    {
      match stored {
        case None => return Ok(None);
        case Some(bytes) =>
          match Decode(bytes) {
            case Ok(key) => return Ok(Some(key));
            case Err(error) => return Err(error);
          }
      }
    }

    method Create(value: Bytes) returns (created: bool)
      modifies this
      ensures created == old(stored).None?
      ensures stored == if created then Some(value) else old(stored)
    {
      created := stored.None?;
      if created { stored := Some(value); }
    }

    /** With no pod in between, what is stored decodes to what is returned, and a stored key is never replaced. */
    method SharedCookieKey(random: Option<Key>) returns (r: Result<Key, Error>)
      modifies this
      ensures old(stored).Some? ==> stored == old(stored) && r == Decode(stored.value)
      ensures old(stored).None? && random.None? ==> stored == None && r == Err(Random)
      ensures old(stored).None? && random.Some? ==>
        stored == Some(random.value) && r == Ok(random.value) == Decode(stored.value)
    {
      var known := StoredCookieKey();
      match known {
        case Err(error) => return Err(error);
        case Ok(Some(key)) => return Ok(key);
        case Ok(None) =>
      }
      if random.None? { return Err(Random); }
      var key := random.value;
      DecodesToItself(key);
      var created := Create(key);
      return Ok(key);
    }
  }

  /** A configured secret wins over the cache, the cache over a key of this process alone. */
  method Setup(secret: Option<Bytes>, cache: Option<KeyCache>, derive: Bytes -> Key, random: Option<Key>)
    returns (r: Result<Key, Error>)
    modifies if cache.Some? then {cache.value} else {}
    ensures r.Ok? <==>
      if secret.Some? then |secret.value| >= MIN_COOKIE_SECRET_BYTES
      else if cache.Some? && old(cache.value.stored).Some? then |old(cache.value.stored).value| >= KEY_BYTES
      else random.Some?
    ensures secret.Some? && r.Ok? ==> r.value == derive(secret.value)
    ensures secret.Some? && cache.Some? ==> cache.value.stored == old(cache.value.stored)
    ensures secret.None? && cache.Some? && r.Ok? ==> cache.value.stored.Some? && Decode(cache.value.stored.value) == r
  {
    match secret {
      case Some(bytes) =>
        if |bytes| < MIN_COOKIE_SECRET_BYTES { return Err(SecretTooShort(|bytes|)); }
        return Ok(derive(bytes));
      case None =>
        match cache {
          case Some(shared) => r := shared.SharedCookieKey(random);
          case None => return if random.Some? then Ok(random.value) else Err(Random);
        }
    }
  }

  // ---- Any number of pods ----

  datatype Pc =
    | Starting
    | Generating
    | Creating(key: Key)
    | Rereading
    | Done(outcome: Result<Key, Error>)

  datatype State = State(stored: Option<Bytes>, pods: map<nat, Pc>)

  /** What a pod hears of its create: the store's answer, or an error, after a write that may have applied. */
  datatype Reply = Answered | LostAfterWrite | Failed

  datatype Step =
    | Boot(pod: nat)
    | Get(pod: nat, ok: bool)
    | Generate(pod: nat, random: Option<Key>)
    | Create(pod: nat, reply: Reply)
    | Reread(pod: nat, ok: bool)
    | Delete

  function At(s: State, pod: nat, pc: Pc): State { s.(pods := s.pods[pod := pc]) }

  function Next(s: State, step: Step): State {
    match step
    case Delete => s.(stored := None)
    case Boot(pod) => if pod in s.pods then s else At(s, pod, Starting)
    case _ => if step.pod in s.pods then Advance(s, step, step.pod, s.pods[step.pod]) else s
  }

  function Advance(s: State, step: Step, pod: nat, pc: Pc): State {
    match (step, pc)
    case (Get(_, ok), Starting) =>
      At(s, pod, if !ok then Done(Err(Cache)) else if s.stored.None? then Generating else Done(Decode(s.stored.value)))
    case (Generate(_, random), Generating) =>
      At(s, pod, if random.None? then Done(Err(Random)) else Creating(random.value))
    case (Create(_, reply), Creating(key)) =>
      var applied := if s.stored.None? && !reply.Failed? then s.(stored := Some(key)) else s;
      At(applied, pod,
         if !reply.Answered? then Done(Err(Cache)) else if s.stored.None? then Done(Ok(key)) else Rereading)
    case (Reread(_, ok), Rereading) =>
      At(s, pod, Done(if !ok then Err(Cache) else if s.stored.None? then Err(Vanished) else Decode(s.stored.value)))
    case _ => s
  }

  function Run(stored: Option<Bytes>, steps: seq<Step>): State
    decreases |steps|
  {
    if steps == [] then State(stored, map[]) else Next(Run(stored, steps[..|steps| - 1]), steps[|steps| - 1])
  }

  predicate NoDelete(steps: seq<Step>) {
    forall i | 0 <= i < |steps| :: !steps[i].Delete?
  }

  /** The pod holds the stored key, or failed for a reason of its own, or what was there at first is too short. */
  predicate Agrees(stored: Option<Bytes>, initial: Option<Bytes>, pc: Pc) {
    match pc
    case Done(Ok(key)) => stored.Some? && Decode(stored.value) == Ok(key)
    case Done(Err(error)) =>
      error.Cache? || error.Random? || (initial.Some? && Decode(initial.value) == Err(error))
    case Rereading => stored.Some?
    case _ => true
  }

  ghost predicate Inv(s: State, initial: Option<Bytes>) {
    && (initial.Some? ==> s.stored == initial)
    && (initial.None? && s.stored.Some? ==> Decode(s.stored.value).Ok?)
    && forall pod :: pod in s.pods ==> Agrees(s.stored, initial, s.pods[pod])
  }

  lemma NextKeepsInv(s: State, step: Step, initial: Option<Bytes>)
    requires Inv(s, initial) && !step.Delete?
    ensures Inv(Next(s, step), initial)
    ensures s.stored.Some? ==> Next(s, step).stored == s.stored
  {
    if step.Create? && step.pod in s.pods && s.pods[step.pod].Creating? { DecodesToItself(s.pods[step.pod].key); }
    forall pod | pod in Next(s, step).pods ensures Agrees(Next(s, step).stored, initial, Next(s, step).pods[pod]) {
      if pod in s.pods { assert Agrees(s.stored, initial, s.pods[pod]); }
    }
  }

  lemma {:induction false} RunKeepsInv(initial: Option<Bytes>, steps: seq<Step>)
    requires NoDelete(steps)
    ensures Inv(Run(initial, steps), initial)
    decreases |steps|
  {
    if steps != [] {
      RunKeepsInv(initial, steps[..|steps| - 1]);
      NextKeepsInv(Run(initial, steps[..|steps| - 1]), steps[|steps| - 1], initial);
    }
  }

  /**
   * However the gets, creates and re-reads of any number of pods interleave, and whichever replies
   * are lost: every pod that got a key got the one that is stored, and none found it vanished.
   */
  lemma PodsAgreeOnTheStoredKey(initial: Option<Bytes>, steps: seq<Step>, pod: nat)
    requires NoDelete(steps) && pod in Run(initial, steps).pods && Run(initial, steps).pods[pod].Done?
    ensures var s := Run(initial, steps);
      match s.pods[pod].outcome
      case Ok(key) => s.stored.Some? && Decode(s.stored.value) == Ok(key)
      case Err(error) =>
        && !error.Vanished?
        && (error.InvalidStoredKey? ==> initial.Some? && |initial.value| == error.bytes < KEY_BYTES)
  {
    RunKeepsInv(initial, steps);
    assert Agrees(Run(initial, steps).stored, initial, Run(initial, steps).pods[pod]);
  }

  lemma Extend(initial: Option<Bytes>, steps: seq<Step>, step: Step)
    ensures Run(initial, steps + [step]) == Next(Run(initial, steps), step)
  {}

  /** One pod's whole start on an empty or readable store, every call answered. */
  lemma {:induction false} BootAlone(initial: Option<Bytes>, steps: seq<Step>, pod: nat, key: Key)
    returns (r: seq<Step>)
    requires Run(initial, steps).stored.None? && pod !in Run(initial, steps).pods
    ensures Run(initial, r) == At(Run(initial, steps), pod, Done(Ok(key))).(stored := Some(key))
  {
    var s := Run(initial, steps);
    Extend(initial, steps, Boot(pod));
    r := steps + [Boot(pod)];
    Extend(initial, r, Get(pod, true));
    r := r + [Get(pod, true)];
    assert Run(initial, r) == At(s, pod, Generating);
    Extend(initial, r, Generate(pod, Some(key)));
    r := r + [Generate(pod, Some(key))];
    assert Run(initial, r) == At(s, pod, Creating(key));
    Extend(initial, r, Create(pod, Answered));
    r := r + [Create(pod, Answered)];
  }

  /** A pod that starts on a stored key takes it as it is, readable or not, and leaves it alone. */
  lemma {:induction false} BootOnStoredKey(initial: Option<Bytes>, steps: seq<Step>, pod: nat) returns (r: seq<Step>)
    requires Run(initial, steps).stored.Some? && pod !in Run(initial, steps).pods
    ensures var s := Run(initial, steps); Run(initial, r) == At(s, pod, Done(Decode(s.stored.value)))
  {
    Extend(initial, steps, Boot(pod));
    Extend(initial, steps + [Boot(pod)], Get(pod, true));
    r := steps + [Boot(pod)] + [Get(pod, true)];
  }

  /** Two pods that both find no key: the first create wins, and the other reads that key back. */
  lemma {:induction false} RacingPodsAgree(initial: Option<Bytes>, steps: seq<Step>, first: nat, second: nat, a: Key,
                                           b: Key)
    returns (r: seq<Step>)
    requires var s := Run(initial, steps);
      && s.stored.None? && first in s.pods && second in s.pods && first != second
      && s.pods[first] == Generating && s.pods[second] == Generating
    ensures var s := Run(initial, steps);
      Run(initial, r) == State(Some(a), s.pods[first := Done(Ok(a))][second := Done(Ok(a))])
  {
    var s := Run(initial, steps);
    Extend(initial, steps, Generate(first, Some(a)));
    r := steps + [Generate(first, Some(a))];
    Extend(initial, r, Generate(second, Some(b)));
    r := r + [Generate(second, Some(b))];
    assert Run(initial, r) == State(None, s.pods[first := Creating(a)][second := Creating(b)]);
    Extend(initial, r, Create(first, Answered));
    r := r + [Create(first, Answered)];
    assert Run(initial, r) == State(Some(a), s.pods[first := Done(Ok(a))][second := Creating(b)]);
    Extend(initial, r, Create(second, Answered));
    r := r + [Create(second, Answered)];
    assert Run(initial, r) == State(Some(a), s.pods[first := Done(Ok(a))][second := Rereading]);
    Extend(initial, r, Reread(second, true));
    r := r + [Reread(second, true)];
    DecodesToItself(a);
  }

  /** Where a pod fails for a reason of its own, the reason is told; a create whose answer is lost still counts. */
  lemma FailuresOfOnePod(s: State, pod: nat, key: Key)
    requires pod in s.pods
    ensures s.pods[pod] == Starting ==> Next(s, Get(pod, false)) == At(s, pod, Done(Err(Cache)))
    ensures s.pods[pod] == Generating ==> Next(s, Generate(pod, None)) == At(s, pod, Done(Err(Random)))
    ensures s.pods[pod] == Creating(key) && s.stored.None? ==>
      && Next(s, Create(pod, LostAfterWrite)) == At(s, pod, Done(Err(Cache))).(stored := Some(key))
      && Next(s, Create(pod, Failed)) == At(s, pod, Done(Err(Cache)))
    ensures s.pods[pod] == Rereading && s.stored.None? ==> Next(s, Reread(pod, true)) == At(s, pod, Done(Err(Vanished)))
  {}

  /** A delete between two starts is enough for two pods to encrypt with different keys. */
  lemma DeletingSplitsPods(a: Key, b: Key)
    requires a != b
    ensures exists steps ::
      && Run(None, steps).pods.Keys == {0, 1}
      && Run(None, steps).pods[0] == Done(Ok(a)) && Run(None, steps).pods[1] == Done(Ok(b))
  {
    var steps := BootAlone(None, [], 0, a);
    Extend(None, steps, Delete);
    steps := BootAlone(None, steps + [Delete], 1, b);
    assert Run(None, steps).pods == map[0 := Done(Ok(a)), 1 := Done(Ok(b))];
  }
}
