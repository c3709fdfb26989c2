/**
 * The MCP toolsets of a task and of its users: when an open toolset may still be used, and the
 * objects that hold the open ones. `ToolsetSharing` runs many callers against these.
 */
module Toolsets {
  import opened Prelude

  datatype Error = UserRequired(url: string) | CredentialsFailed(url: string) | ConnectionFailed(url: string)

  /** A configured server; `oauth` marks OAuth client credentials, the only ones whose header rotates by itself. */
  datatype Server = Server(url: string, onBehalfOfUser: bool, oauth: bool)

  /** An open connection with the `Authorization` value it was opened with. */
  datatype Connection = Connection(url: string, onBehalfOfUser: bool, oauth: bool, activeHeader: Option<string>)

  /** An open toolset, told apart by the number of the connect that made it. */
  datatype Toolset = Toolset(number: nat, connections: seq<Connection>)

  /** What a server's own credentials give at one moment, by url. */
  type Credentials = string -> Result<Option<string>, Error>

  function UserBearer(url: string, token: Option<string>): Result<string, Error> {
    match token
    case Some(t) => Ok("Bearer " + t)
    case None => Err(UserRequired(url))
  }

  /** The header a connection would get now. */
  function HeaderNow(c: Connection, token: Option<string>, credentials: Credentials): Result<Option<string>, Error> {
    if c.onBehalfOfUser then
      match UserBearer(c.url, token)
      case Ok(bearer) => Ok(Some(bearer))
      case Err(error) => Err(error)
    else if c.oauth then credentials(c.url)
    else Ok(c.activeHeader)
  }

  /**
   * The connection was opened with the header it would get now: the user's bearer token, what its own OAuth
   * credentials give, or, when nothing rotates, whatever it has.
   */
  ghost predicate UpToDate(c: Connection, token: Option<string>, credentials: Credentials) {
    && (c.onBehalfOfUser ==> token.Some? && c.activeHeader == Some("Bearer " + token.value))
    && (!c.onBehalfOfUser && c.oauth ==> credentials(c.url) == Ok(c.activeHeader))
  }

  ghost predicate AllUpToDate(connections: seq<Connection>, token: Option<string>, credentials: Credentials) {
    forall i | 0 <= i < |connections| :: UpToDate(connections[i], token, credentials)
  }

  /** Nobody signed in for the connection, or its own credentials fail. */
  ghost predicate NoHeader(c: Connection, token: Option<string>, credentials: Credentials, error: Error) {
    || (c.onBehalfOfUser && token.None? && error == UserRequired(c.url))
    || (!c.onBehalfOfUser && c.oauth && credentials(c.url) == Err(error))
  }

  /** Connection `i` is the first that is not up to date. */
  ghost predicate FirstStale(connections: seq<Connection>, token: Option<string>, credentials: Credentials, i: nat) {
    && i < |connections| && !UpToDate(connections[i], token, credentials)
    && forall j | 0 <= j < i :: UpToDate(connections[j], token, credentials)
  }

  /** The first connection whose header cannot be had, or differs, decides for an error or `false`. */
  function IsCurrent(connections: seq<Connection>, token: Option<string>, credentials: Credentials)
    : Result<bool, Error>
  {
    if connections == [] then Ok(true)
    else
      match HeaderNow(connections[0], token, credentials)
      case Err(error) => Err(error)
      case Ok(header) =>
        if header != connections[0].activeHeader then Ok(false) else IsCurrent(connections[1..], token, credentials)
  }

  /** `McpTools::is_current`: a connection with static headers is never asked. */
  method CheckCurrent(connections: seq<Connection>, token: Option<string>, credentials: Credentials)
    returns (r: Result<bool, Error>)
    ensures r == IsCurrent(connections, token, credentials)
    ensures r == Ok(true) <==> AllUpToDate(connections, token, credentials)
  {
    for k := 0 to |connections|
      invariant IsCurrent(connections, token, credentials) == IsCurrent(connections[k..], token, credentials)
      invariant forall i | 0 <= i < k :: UpToDate(connections[i], token, credentials)
    {
      var c := connections[k];
      assert connections[k..][0] == c && connections[k..][1..] == connections[k + 1..];
      var header: Option<string>;
      if c.onBehalfOfUser {
        var bearer := UserBearer(c.url, token);
        if bearer.Err? { return Err(bearer.error); }
        header := Some(bearer.value);
      } else if c.oauth {
        var current := credentials(c.url);
        if current.Err? { return Err(current.error); }
        header := current.value;
      } else {
        continue;
      }
      if header != c.activeHeader { return Ok(false); }
    }
    return Ok(true);
  }

  /** `connections` are to `servers`, those acting for the user carrying `token`, the others any header of their own. */
  predicate OpenedBy(servers: seq<Server>, connections: seq<Connection>, token: string) {
    && |connections| == |servers|
    && forall i | 0 <= i < |servers| ::
      && connections[i].url == servers[i].url
      && connections[i].onBehalfOfUser == servers[i].onBehalfOfUser
      && connections[i].oauth == (servers[i].oauth && !servers[i].onBehalfOfUser)
      && (servers[i].onBehalfOfUser ==> connections[i].activeHeader == Some("Bearer " + token))
  }

  /** `user_mcp_server` finds a server, so toolsets are kept per user. */
  predicate ActsForUser(servers: seq<Server>) {
    exists i :: 0 <= i < |servers| && servers[i].onBehalfOfUser
  }

  predicate OnlyUserTokenRotates(servers: seq<Server>) {
    forall i | 0 <= i < |servers| :: servers[i].oauth ==> servers[i].onBehalfOfUser
  }

  lemma {:induction false} CurrentMeansEveryHeader(connections: seq<Connection>, token: Option<string>,
                                                   credentials: Credentials)
    ensures IsCurrent(connections, token, credentials) == Ok(true) <==>
      forall i | 0 <= i < |connections| ::
        HeaderNow(connections[i], token, credentials) == Ok(connections[i].activeHeader)
    ensures (forall i | 0 <= i < |connections| :: HeaderNow(connections[i], token, credentials).Ok?) ==>
      IsCurrent(connections, token, credentials).Ok?
  {
    if connections != [] {
      CurrentMeansEveryHeader(connections[1..], token, credentials);
      forall i | 0 <= i < |connections| ensures i == 0 || connections[i] == connections[1..][i - 1] {}
      assert forall i | 0 <= i < |connections[1..]| :: connections[1..][i] == connections[i + 1];
    }
  }

  /**
   * A toolset is current exactly when every connection is up to date: a rotated OAuth header makes it stale. The
   * first connection that is not decides whether the check fails or says no.
   */
  lemma {:induction false} CurrentExactly(connections: seq<Connection>, token: Option<string>, credentials: Credentials)
    ensures IsCurrent(connections, token, credentials) == Ok(true) <==> AllUpToDate(connections, token, credentials)
    ensures forall i: nat | FirstStale(connections, token, credentials, i) ::
      if exists error :: NoHeader(connections[i], token, credentials, error)
      then
        && IsCurrent(connections, token, credentials).Err?
        && NoHeader(connections[i], token, credentials, IsCurrent(connections, token, credentials).error)
      else IsCurrent(connections, token, credentials) == Ok(false)
  {
    if connections != [] {
      var rest := connections[1..];
      CurrentExactly(rest, token, credentials);
      assert forall i | 0 <= i < |rest| :: rest[i] == connections[i + 1];
      forall i: nat | FirstStale(connections, token, credentials, i)
        ensures if exists error :: NoHeader(connections[i], token, credentials, error)
          then
            && IsCurrent(connections, token, credentials).Err?
            && NoHeader(connections[i], token, credentials, IsCurrent(connections, token, credentials).error)
          else IsCurrent(connections, token, credentials) == Ok(false)
      {
        if i > 0 {
          assert UpToDate(connections[0], token, credentials);
          assert FirstStale(rest, token, credentials, i - 1);
        } else {
          StaleHeader(connections[0], token, credentials);
        }
      }
      if forall i | 0 <= i < |connections| :: UpToDate(connections[i], token, credentials) {
        assert forall i | 0 <= i < |rest| :: UpToDate(rest[i], token, credentials);
      }
      if IsCurrent(connections, token, credentials) == Ok(true) {
        forall i | 0 <= i < |connections| ensures UpToDate(connections[i], token, credentials) {
          if i > 0 { assert UpToDate(rest[i - 1], token, credentials); }
        }
      }
    }
  }

  lemma StaleHeader(c: Connection, token: Option<string>, credentials: Credentials)
    requires !UpToDate(c, token, credentials)
    ensures if exists error :: NoHeader(c, token, credentials, error)
      then
        && HeaderNow(c, token, credentials).Err?
        && NoHeader(c, token, credentials, HeaderNow(c, token, credentials).error)
      else HeaderNow(c, token, credentials).Ok? && HeaderNow(c, token, credentials).value != c.activeHeader
  {
    if HeaderNow(c, token, credentials).Err? {
      assert NoHeader(c, token, credentials, HeaderNow(c, token, credentials).error);
    }
  }

  lemma BearerIsInjective(a: string, b: string)
    ensures "Bearer " + a == "Bearer " + b <==> a == b
  {
    assert ("Bearer " + a)[7..] == a && ("Bearer " + b)[7..] == b;
  }

  /** Whatever the other credentials say, a toolset is never current for a token it was not opened with. */
  lemma NeverCurrentForAnotherToken(
    servers: seq<Server>, connections: seq<Connection>, openedWith: string, token: string, credentials: Credentials)
    requires ActsForUser(servers) && OpenedBy(servers, connections, openedWith)
    requires IsCurrent(connections, Some(token), credentials) == Ok(true)
    ensures openedWith == token
  {
    CurrentMeansEveryHeader(connections, Some(token), credentials);
    var i :| 0 <= i < |servers| && servers[i].onBehalfOfUser;
    assert HeaderNow(connections[i], Some(token), credentials) == Ok(Some("Bearer " + token));
    BearerIsInjective(openedWith, token);
  }

  /** With no other rotating header, it is current for exactly that token. */
  lemma CurrentForExactlyItsToken(
    servers: seq<Server>, connections: seq<Connection>, openedWith: string, token: string, credentials: Credentials)
    requires ActsForUser(servers) && OnlyUserTokenRotates(servers) && OpenedBy(servers, connections, openedWith)
    ensures IsCurrent(connections, Some(token), credentials) == Ok(openedWith == token)
  {
    CurrentMeansEveryHeader(connections, Some(token), credentials);
    forall i | 0 <= i < |connections|
      ensures HeaderNow(connections[i], Some(token), credentials).Ok?
      ensures openedWith == token ==>
        HeaderNow(connections[i], Some(token), credentials) == Ok(connections[i].activeHeader)
    {
    }
    var current := IsCurrent(connections, Some(token), credentials);
    assert current.Ok?;
    if openedWith == token {
      assert current == Ok(true);
    } else if current == Ok(true) {
      NeverCurrentForAnotherToken(servers, connections, openedWith, token, credentials);
    } else {
      assert current.value == false;
    }
  }

  // ---- The objects that hold open toolsets ----

  /** `fresh`: the toolset a slot holds, if it may still be used. */
  function FreshIn(toolset: Option<Toolset>, token: Option<string>, credentials: Credentials)
    : Result<Option<Toolset>, Error>
  {
    match toolset
    case None => Ok(None)
    case Some(t) =>
      match IsCurrent(t.connections, token, credentials)
      case Err(error) => Err(error)
      case Ok(current) => Ok(if current then Some(t) else None)
  }

  class ToolsetSlot {
    var toolset: Option<Toolset>

    constructor ()
      ensures toolset == None
    {
      toolset := None;
    }

    method Fresh(token: Option<string>, credentials: Credentials) returns (r: Result<Option<Toolset>, Error>)
      ensures r == FreshIn(toolset, token, credentials)
      ensures r.Ok? && r.value.Some? <==> toolset.Some? && AllUpToDate(toolset.value.connections, token, credentials)
      ensures r.Ok? && r.value.Some? ==> r.value == toolset
    {
      match toolset {
        case None => return Ok(None);
        case Some(t) =>
          var current := CheckCurrent(t.connections, token, credentials);
          match current {
            case Err(error) => return Err(error);
            case Ok(true) => return Ok(Some(t));
            case Ok(false) => return Ok(None);
          }
      }
    }

    /** What `current` does holding `connecting`; `connect` is what opening new connections would give. */
    method Reopen(token: Option<string>, credentials: Credentials, connect: Result<Toolset, Error>)
      returns (r: Result<Toolset, Error>)
      modifies this
      ensures var known := FreshIn(old(toolset), token, credentials);
        && (known.Err? ==> r == Err(known.error) && toolset == old(toolset))
        && (known.Ok? && known.value.Some? ==> r == Ok(known.value.value) && toolset == old(toolset))
        && (known == Ok(None) ==> r == connect && toolset == if connect.Ok? then Some(connect.value) else old(toolset))
    {
      var known := Fresh(token, credentials);
      if known.Err? { return Err(known.error); }
      if known.value.Some? { return Ok(known.value.value); }
      if connect.Err? { return connect; }
      toolset := Some(connect.value);
      return connect;
    }
  }

  /** A user's slot, by number, and when it was last asked for. */
  datatype Entry = Entry(slot: nat, lastUsed: int)

  /** A slot gives the toolset it holds exactly when each connection of it is up to date. */
  lemma FreshExactlyWhenUpToDate(toolset: Option<Toolset>, token: Option<string>, credentials: Credentials)
    ensures toolset == None ==> FreshIn(toolset, token, credentials) == Ok(None)
    ensures toolset.Some? ==>
      (FreshIn(toolset, token, credentials) == Ok(toolset) <==>
         AllUpToDate(toolset.value.connections, token, credentials))
    ensures FreshIn(toolset, token, credentials) in {Ok(None), Ok(toolset)} || FreshIn(toolset, token, credentials).Err?
  {
    if toolset.Some? { CurrentExactly(toolset.value.connections, token, credentials); }
  }

  /** How long a user's connections stay open without a request, in seconds. */
  const USER_MCP_IDLE: int := 30 * 60

  function StillUsed(users: map<string, Entry>, now: int): map<string, Entry> {
    map u | u in users && now - users[u].lastUsed < USER_MCP_IDLE :: users[u]
  }

  /** A sweep keeps exactly the users seen within half an hour, each with the slot it had. */
  lemma SeenLatelyStays(users: map<string, Entry>, now: int, user: string)
    ensures user in StillUsed(users, now) <==> user in users && now < users[user].lastUsed + 30 * 60
    ensures user in StillUsed(users, now) ==> StillUsed(users, now)[user] == users[user]
  {}

  class UserToolsets {
    var users: map<string, Entry>

    constructor ()
      ensures users == map[]
    {
      users := map[];
    }

    /** The user's slot, the new one `unused` when there is none. */
    method SlotOf(user: string, now: int, unused: nat) returns (slot: nat)
      modifies this
      ensures slot == if user in old(users) then old(users)[user].slot else unused
      ensures users == old(users)[user := Entry(slot, now)]
    {
      if user !in users { users := users[user := Entry(unused, now)]; }
      users := users[user := users[user].(lastUsed := now)];
      slot := users[user].slot;
    }

    method CloseIdle(now: int)
      modifies this
      ensures users == StillUsed(old(users), now)
      ensures forall u :: u in users <==> u in old(users) && now < old(users)[u].lastUsed + 30 * 60
      ensures forall u :: u in users ==> users[u] == old(users)[u]
    {
      var unseen := users.Keys;
      while unseen != {}
        invariant unseen <= old(users).Keys && users.Keys <= old(users).Keys
        invariant forall u | u in unseen :: u in users
        invariant forall u | u in users :: users[u] == old(users)[u]
        invariant forall u | u in old(users).Keys - unseen ::
          u in users <==> now - old(users)[u].lastUsed < USER_MCP_IDLE
      {
        var user :| user in unseen;
        if now - users[user].lastUsed >= USER_MCP_IDLE { users := users - {user}; }
        unseen := unseen - {user};
      }
      assert users.Keys == StillUsed(old(users), now).Keys;
    }
  }
}
