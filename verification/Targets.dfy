/** Which authoring target owns a workspace path, and who may decide there. */
module Targets {
  import opened Prelude

  datatype Target = Target(
    name: string,
    paths: seq<string>,
    publishFlow: string,
    approverGroups: seq<string>,
    trackDeployment: bool)

  datatype Authoring = Authoring(targets: seq<Target>, groupsClaim: string)

  datatype Error =
    | NotFound(id: string)
    | InvalidPath(path: string, reason: PathError)
    | DuplicatePath(path: string)
    | MissingTitle
    | NotPending(status: Status)
    | Invalid
    | NoFiles
    | NoTarget(path: string)
    | MixedTargets(first: string, second: string)
    | TargetGone(target: string)
    | TargetChanged(stored: string, current: string)
    | UserRequired
    | NotProposer
    | EditedSinceReview
    | NotApprover(user: string)
    | Concurrent
    | Store

  datatype PathError = Root | NoFileName | EmptySegment | Relative | Characters

  datatype Status = Pending | Publishing | Published | Failed | Rejected

  // ---- Folder containment ----

  /** `trim_end_matches('/')`. */
  function TrimSlashes(s: string): (r: string)
    ensures r <= s && (r == "" || r[|r| - 1] != '/')
    ensures forall i | |r| <= i < |s| :: s[i] == '/'
  {
    if s != "" && s[|s| - 1] == '/' then TrimSlashes(s[..|s| - 1]) else s
  }

  /** Whether `path` is `folder` or lies under it, on whole segments. */
  predicate Within(path: string, folder: string) {
    var f := TrimSlashes(folder);
    f <= path && (f == "" || |f| == |path| || path[|f|] == '/')
  }

  /** Length of the longest of `folders` that contains `path`. */
  function MatchedLen(folders: seq<string>, path: string): Option<nat> {
    if folders == [] then None
    else
      var folder := TrimSlashes(folders[0]);
      var rest := MatchedLen(folders[1..], path);
      if !Within(path, folder) then rest
      else if rest.Some? && rest.value > |folder| then rest
      else Some(|folder|)
  }

  /**
   * Index of the target owning `path`: the longest match, the last one on a
   * tie, as `max_by_key` keeps the last of equal elements.
   */
  function OwnerIndex(targets: seq<Target>, path: string): (r: Option<nat>)
    ensures r.Some? ==> r.value < |targets| && MatchedLen(targets[r.value].paths, path).Some?
  {
    if targets == [] then None
    else
      var n := |targets| - 1;
      var best := OwnerIndex(targets[..n], path);
      var len := MatchedLen(targets[n].paths, path);
      if len.None? then best
      else if best.Some? && MatchedLen(targets[best.value].paths, path).value > len.value then best
      else Some(n)
  }

  function TargetOf(targets: seq<Target>, path: string): (r: Option<Target>)
    ensures r.Some? ==> r.value in targets
  {
    match OwnerIndex(targets, path)
    case None => None
    case Some(i) => Some(targets[i])
  }

  // ---- The most specific folder wins ----

  /** `folder`, without its trailing slashes, is listed by `target` and contains `path`. */
  ghost predicate Lists(target: Target, folder: string, path: string) {
    Within(path, folder) && exists i :: 0 <= i < |target.paths| && TrimSlashes(target.paths[i]) == folder
  }

  /** No folder listed by any target that contains `path` is longer than `folder`. */
  ghost predicate MostSpecific(targets: seq<Target>, folder: string, path: string) {
    forall t, f :: t in targets && Lists(t, f, path) ==> |f| <= |folder|
  }

  /** Two folders of one length that contain the same path are the same folder. */
  lemma CoveringFoldersOfOneLengthAgree(path: string, f: string, g: string)
    requires Within(path, f) && TrimSlashes(f) == f
    requires Within(path, g) && TrimSlashes(g) == g
    requires |f| == |g|
    ensures f == g
  {}

  lemma {:induction false} MatchedLenBounds(folders: seq<string>, path: string, i: nat)
    requires i < |folders| && Within(path, TrimSlashes(folders[i]))
    ensures MatchedLen(folders, path).Some? && |TrimSlashes(folders[i])| <= MatchedLen(folders, path).value
  {
    if i > 0 { MatchedLenBounds(folders[1..], path, i - 1); }
  }

  lemma {:induction false} MatchedLenIsReached(folders: seq<string>, path: string) returns (i: nat)
    requires MatchedLen(folders, path).Some?
    ensures i < |folders| && Within(path, TrimSlashes(folders[i]))
    ensures |TrimSlashes(folders[i])| == MatchedLen(folders, path).value
  {
    var rest := MatchedLen(folders[1..], path);
    if rest == MatchedLen(folders, path) {
      i := MatchedLenIsReached(folders[1..], path);
      i := i + 1;
    } else {
      i := 0;
    }
  }

  /** Target `j` does not match the path better than target `i` does, or as well from further back. */
  predicate NoBetter(targets: seq<Target>, i: nat, j: nat, path: string)
    requires i < |targets| && j < |targets|
  {
    var best, len := MatchedLen(targets[i].paths, path), MatchedLen(targets[j].paths, path);
    best.Some? && (len.Some? ==> if j <= i then len.value <= best.value else len.value < best.value)
  }

  /** Target `i` matches the path at least as long as each before it and longer than each after. */
  ghost predicate LastLongest(targets: seq<Target>, i: nat, path: string)
    requires i < |targets|
  {
    forall j :: 0 <= j < |targets| ==> NoBetter(targets, i, j, path)
  }

  /** One more target at the end takes over, or leaves the best where it is. */
  lemma LastLongestGrows(init: seq<Target>, t: Target, i: nat, path: string)
    requires i < |init| && LastLongest(init, i, path)
    ensures var best, len := MatchedLen(init[i].paths, path), MatchedLen(t.paths, path);
      && best.Some?
      && LastLongest(init + [t], if len.Some? && best.value <= len.value then |init| else i, path)
  {
    assert NoBetter(init, i, i, path);
    var best, len := MatchedLen(init[i].paths, path), MatchedLen(t.paths, path);
    var winner := if len.Some? && best.value <= len.value then |init| else i;
    forall j | 0 <= j < |init + [t]| ensures NoBetter(init + [t], winner, j, path) {
      if j < |init| { assert NoBetter(init, i, j, path); }
    }
  }

  lemma {:induction false} OwnerIndexIsTheLastLongest(targets: seq<Target>, path: string)
    ensures OwnerIndex(targets, path).None? ==>
      forall j | 0 <= j < |targets| :: MatchedLen(targets[j].paths, path).None?
    ensures OwnerIndex(targets, path).Some? ==> LastLongest(targets, OwnerIndex(targets, path).value, path)
  {
    if targets != [] {
      var n := |targets| - 1;
      var init := targets[..n];
      OwnerIndexIsTheLastLongest(init, path);
      var best := OwnerIndex(init, path);
      if best.Some? {
        LastLongestGrows(init, targets[n], best.value, path);
        assert targets == init + [targets[n]];
      } else {
        forall j | 0 <= j < n ensures MatchedLen(targets[j].paths, path).None? { assert targets[j] == init[j]; }
        if MatchedLen(targets[n].paths, path).Some? {
          forall j | 0 <= j < |targets| ensures NoBetter(targets, n, j, path) {}
        }
      }
    }
  }

  /** A listed folder that contains the path has an owner that matches at least as long. */
  lemma OwnerBeats(targets: seq<Target>, path: string, t: Target, g: string)
    requires t in targets && Lists(t, g, path)
    ensures OwnerIndex(targets, path).Some?
    ensures var best := MatchedLen(targets[OwnerIndex(targets, path).value].paths, path);
      best.Some? && |g| <= best.value
  {
    var j :| 0 <= j < |targets| && targets[j] == t;
    var m :| 0 <= m < |t.paths| && TrimSlashes(t.paths[m]) == g;
    MatchedLenBounds(t.paths, path, m);
    OwnerIndexIsTheLastLongest(targets, path);
    assert NoBetter(targets, OwnerIndex(targets, path).value, j, path);
  }

  /** The folder the owner matches with. */
  lemma OwnersFolder(targets: seq<Target>, path: string) returns (f: string)
    requires OwnerIndex(targets, path).Some?
    ensures var owner := targets[OwnerIndex(targets, path).value];
      Lists(owner, f, path) && MatchedLen(owner.paths, path) == Some(|f|)
  {
    var i := OwnerIndex(targets, path).value;
    OwnerIndexIsTheLastLongest(targets, path);
    assert NoBetter(targets, i, i, path);
    var k := MatchedLenIsReached(targets[i].paths, path);
    f := TrimSlashes(targets[i].paths[k]);
  }

  lemma ListedFoldersOfOneLengthAgree(t: Target, f: string, u: Target, g: string, path: string)
    requires Lists(t, f, path) && Lists(u, g, path) && |f| == |g|
    ensures f == g
  {}

  /**
   * `target_of` finds a target exactly when one covers the path, and then a
   * folder of it is at least as specific as every covering folder; a covering
   * folder just as long is that very folder.
   */
  lemma OwnerIsMostSpecific(targets: seq<Target>, path: string)
    ensures TargetOf(targets, path).None? <==> !exists t, f :: t in targets && Lists(t, f, path)
    ensures TargetOf(targets, path).Some? ==>
      exists f :: && Lists(TargetOf(targets, path).value, f, path)
                  && MostSpecific(targets, f, path)
                  && (forall t, g :: t in targets && Lists(t, g, path) && |g| == |f| ==> g == f)
  {
    forall t, g | t in targets && Lists(t, g, path) ensures OwnerIndex(targets, path).Some? {
      OwnerBeats(targets, path, t, g);
    }
    if OwnerIndex(targets, path).Some? {
      var f := OwnersFolder(targets, path);
      forall t, g | t in targets && Lists(t, g, path) ensures |g| <= |f| && (|g| == |f| ==> g == f) {
        OwnerBeats(targets, path, t, g);
        if |g| == |f| { ListedFoldersOfOneLengthAgree(t, g, TargetOf(targets, path).value, f, path); }
      }
    }
  }

  // ---- Ambiguity ----

  /** Two different targets both list the folder that decides who owns `path`. */
  ghost predicate Contested(targets: seq<Target>, path: string) {
    exists t, u, f ::
      && t in targets && u in targets && t != u
      && Lists(t, f, path) && Lists(u, f, path) && MostSpecific(targets, f, path)
  }

  lemma {:induction false} LastBestWins(targets: seq<Target>, t: Target, f: string, path: string)
    requires Lists(t, f, path) && MostSpecific(targets + [t], f, path)
    ensures TargetOf(targets + [t], path) == Some(t)
  {
    var all := targets + [t];
    var n := |targets|;
    assert all[..n] == targets && all[n] == t;
    var k :| 0 <= k < |t.paths| && TrimSlashes(t.paths[k]) == f;
    MatchedLenBounds(t.paths, path, k);
    if OwnerIndex(targets, path).Some? {
      var g := OwnersFolder(targets, path);
      assert TargetOf(targets, path).value in all && |g| <= |f|;
    }
  }

  lemma MoveToEnd(targets: seq<Target>, t: Target) returns (rest: seq<Target>)
    requires t in targets
    ensures multiset(rest + [t]) == multiset(targets)
  {
    var i :| 0 <= i < |targets| && targets[i] == t;
    rest := targets[..i] + targets[i + 1..];
    assert targets == targets[..i] + [t] + targets[i + 1..];
  }

  lemma SameElements(a: seq<Target>, b: seq<Target>)
    requires multiset(a) == multiset(b)
    ensures forall t :: t in a <==> t in b
  {
    forall t ensures t in a <==> t in b {
      assert t in a <==> t in multiset(a);
      assert t in b <==> t in multiset(b);
    }
  }

  lemma ContestedFlips(targets: seq<Target>, path: string) returns (other: seq<Target>)
    requires Contested(targets, path)
    ensures multiset(other) == multiset(targets) && TargetOf(other, path) != TargetOf(targets, path)
  {
    var t, u, f :|
      && t in targets && u in targets && t != u
      && Lists(t, f, path) && Lists(u, f, path) && MostSpecific(targets, f, path);
    var w := if TargetOf(targets, path) == Some(t) then u else t;
    var rest := MoveToEnd(targets, w);
    SameElements(rest + [w], targets);
    LastBestWins(rest, w, f, path);
    other := rest + [w];
  }

  lemma FlippedIsContested(targets: seq<Target>, other: seq<Target>, path: string)
    requires multiset(other) == multiset(targets) && TargetOf(other, path) != TargetOf(targets, path)
    ensures Contested(targets, path)
  {
    SameElements(other, targets);
    OwnerIsMostSpecific(targets, path);
    OwnerIsMostSpecific(other, path);
    var a, b := TargetOf(targets, path), TargetOf(other, path);
    assert a.Some? && b.Some?;
    var f :| Lists(a.value, f, path) && MostSpecific(targets, f, path)
      && (forall t, g :: t in targets && Lists(t, g, path) && |g| == |f| ==> g == f);
    var g :| Lists(b.value, g, path) && MostSpecific(other, g, path);
    assert |f| == |g|;
    assert f == g;
  }

  /**
   * Reordering the configured targets can change who owns a path exactly when
   * two different targets list the deciding folder.
   */
  lemma OwnershipDependsOnOrderOnlyWhenContested(targets: seq<Target>, path: string)
    ensures Contested(targets, path) <==>
      exists other :: multiset(other) == multiset(targets) && TargetOf(other, path) != TargetOf(targets, path)
  {
    if Contested(targets, path) { var other := ContestedFlips(targets, path); }
    if other :| multiset(other) == multiset(targets) && TargetOf(other, path) != TargetOf(targets, path) {
      FlippedIsContested(targets, other, path);
    }
  }

  // ---- One target per change ----

  /** The one target every path falls in, given the target found so far. */
  function TargetForFrom(targets: seq<Target>, paths: seq<string>, found: Option<Target>): Result<Target, Error> {
    if paths == [] then
      match found
      case Some(target) => Ok(target)
      case None => Err(NoFiles)
    else
      match TargetOf(targets, paths[0])
      case None => Err(NoTarget(paths[0]))
      case Some(target) =>
        if found.Some? && found.value.name != target.name
        then Err(MixedTargets(found.value.name, target.name))
        else TargetForFrom(targets, paths[1..], Some(target))
  }

  function TargetFor(targets: seq<Target>, paths: seq<string>): Result<Target, Error> {
    TargetForFrom(targets, paths, None)
  }

  /** The loop of `target_for`. */
  method FindTargetFor(targets: seq<Target>, paths: seq<string>) returns (r: Result<Target, Error>)
    ensures r == TargetFor(targets, paths)
  {
    var found: Option<Target> := None;
    for k := 0 to |paths|
      invariant TargetFor(targets, paths) == TargetForFrom(targets, paths[k..], found)
    {
      var target := TargetOf(targets, paths[k]);
      assert paths[k..][0] == paths[k] && paths[k..][1..] == paths[k + 1..];
      match target {
        case None => return Err(NoTarget(paths[k]));
        case Some(t) =>
          if found.Some? && found.value.name != t.name {
            return Err(MixedTargets(found.value.name, t.name));
          }
          found := Some(t);
      }
    }
    match found
    case Some(t) => return Ok(t);
    case None => return Err(NoFiles);
  }

  ghost predicate OwnedBy(targets: seq<Target>, paths: seq<string>, name: string) {
    forall i | 0 <= i < |paths| ::
      TargetOf(targets, paths[i]).Some? && TargetOf(targets, paths[i]).value.name == name
  }

  lemma {:induction false} TargetForFromOwns(targets: seq<Target>, paths: seq<string>, found: Option<Target>)
    requires found.Some? ==> found.value in targets
    ensures TargetForFrom(targets, paths, found).Ok? <==>
      && (found.Some? || paths != [])
      && exists name :: OwnedBy(targets, paths, name) && (found.Some? ==> found.value.name == name)
    ensures TargetForFrom(targets, paths, found).Ok? ==>
      var t := TargetForFrom(targets, paths, found).value;
      && OwnedBy(targets, paths, t.name)
      && (found.Some? ==> found.value.name == t.name)
      && t in targets
  {
    if paths == [] {
      assert found.Some? ==> OwnedBy(targets, paths, found.value.name);
    } else {
      var rest := paths[1..];
      match TargetOf(targets, paths[0])
      case None =>
        assert forall name :: !OwnedBy(targets, paths, name);
      case Some(t) =>
        forall name ensures OwnedBy(targets, paths, name) <==> t.name == name && OwnedBy(targets, rest, name) {
          if t.name == name && OwnedBy(targets, rest, name) {
            forall i | 0 <= i < |paths|
              ensures TargetOf(targets, paths[i]).Some? && TargetOf(targets, paths[i]).value.name == name
            {
              if i > 0 { assert paths[i] == rest[i - 1]; }
            }
          }
          if OwnedBy(targets, paths, name) {
            forall i | 0 <= i < |rest|
              ensures TargetOf(targets, rest[i]).Some? && TargetOf(targets, rest[i]).value.name == name
            {
              assert rest[i] == paths[i + 1];
            }
          }
        }
        if found.None? || found.value.name == t.name {
          TargetForFromOwns(targets, rest, Some(t));
        } else {
          assert forall name | OwnedBy(targets, paths, name) :: name == t.name;
        }
    }
  }

  /** A list of paths has a target exactly when it is not empty and one target name owns all of it. */
  lemma TargetForOwnsEveryPath(targets: seq<Target>, paths: seq<string>)
    ensures TargetFor(targets, paths).Ok? <==> paths != [] && exists name :: OwnedBy(targets, paths, name)
    ensures TargetFor(targets, paths).Ok? ==>
      TargetFor(targets, paths).value in targets && OwnedBy(targets, paths, TargetFor(targets, paths).value.name)
  {
    TargetForFromOwns(targets, paths, None);
  }

  /** The target given is the one that owns the last path, which matters where two share a name. */
  lemma {:induction false} TargetForIsTheLastOwner(targets: seq<Target>, paths: seq<string>)
    ensures TargetFor(targets, paths).Ok? ==>
      paths != [] && TargetOf(targets, paths[|paths| - 1]) == Some(TargetFor(targets, paths).value)
  {
    LastOwnerFrom(targets, paths, None);
  }

  lemma {:induction false} LastOwnerFrom(targets: seq<Target>, paths: seq<string>, found: Option<Target>)
    ensures TargetForFrom(targets, paths, found).Ok? ==>
      Some(TargetForFrom(targets, paths, found).value) ==
        if paths == [] then found else TargetOf(targets, paths[|paths| - 1])
  {
    if paths != [] { LastOwnerFrom(targets, paths[1..], TargetOf(targets, paths[0])); }
  }

  /**
   * A refused list has a first path that ends it: nobody owns it, or another target than the one that
   * owns every path before it. The error names that path, or the two targets in the order met.
   */
  lemma {:induction false} TargetForRefusal(targets: seq<Target>, paths: seq<string>, found: Option<Target>)
    returns (k: nat)
    requires TargetForFrom(targets, paths, found).Err? && (found.Some? || paths != [])
    ensures k < |paths| && (found.Some? || k == 0 || TargetOf(targets, paths[0]).Some?)
    ensures k > 0 || found.Some? ==>
      OwnedBy(targets, paths[..k], if found.Some? then found.value.name else TargetOf(targets, paths[0]).value.name)
    ensures TargetForFrom(targets, paths, found).error ==
      match TargetOf(targets, paths[k])
      case None => NoTarget(paths[k])
      case Some(t) =>
        MixedTargets(if found.Some? then found.value.name
                     else if k > 0 then TargetOf(targets, paths[0]).value.name else t.name,
                     t.name)
    ensures TargetOf(targets, paths[k]).Some? ==>
      && (found.Some? || k > 0)
      && TargetOf(targets, paths[k]).value.name !=
           (if found.Some? then found.value.name else TargetOf(targets, paths[0]).value.name)
  {
    var first := TargetOf(targets, paths[0]);
    if first.None? || (found.Some? && found.value.name != first.value.name) {
      k := 0;
    } else {
      k := TargetForRefusal(targets, paths[1..], first);
      var rest := paths[1..][..k];
      k := k + 1;
      forall i | 0 <= i < k
        ensures TargetOf(targets, paths[i]).Some? && TargetOf(targets, paths[i]).value.name == first.value.name
      {
        if i > 0 { assert paths[i] == rest[i - 1]; }
      }
    }
  }

  /** The target a stored change still belongs to under the current configuration. */
  function StoredTarget(targets: seq<Target>, paths: seq<string>, stored: string): Result<Target, Error> {
    match TargetFor(targets, paths)
    case Ok(current) => if current.name == stored then Ok(current) else Err(TargetChanged(stored, current.name))
    case Err(_) => Err(TargetGone(stored))
  }

  /** A stored change keeps its target exactly while that target owns every one of its files. */
  lemma StoredTargetStillOwnsTheFiles(targets: seq<Target>, paths: seq<string>, stored: string)
    ensures StoredTarget(targets, paths, stored).Ok? <==> paths != [] && OwnedBy(targets, paths, stored)
    ensures StoredTarget(targets, paths, stored).Ok? ==>
      StoredTarget(targets, paths, stored).value in targets && StoredTarget(targets, paths, stored).value.name == stored
    ensures forall name ::
      StoredTarget(targets, paths, stored) == Err(TargetChanged(stored, name)) <==>
        paths != [] && name != stored && OwnedBy(targets, paths, name)
    ensures StoredTarget(targets, paths, stored) == Err(TargetGone(stored)) <==>
      paths == [] || forall name :: !OwnedBy(targets, paths, name)
  {
    TargetForOwnsEveryPath(targets, paths);
    forall name ensures paths != [] && OwnedBy(targets, paths, name) ==>
      TargetFor(targets, paths).Ok? && TargetFor(targets, paths).value.name == name
    {
      if paths != [] && OwnedBy(targets, paths, name) {
        assert TargetOf(targets, paths[0]).value.name == name;
      }
    }
    if paths != [] && OwnedBy(targets, paths, stored) {
      assert TargetFor(targets, paths).Ok?;
      assert TargetOf(targets, paths[0]).value.name == stored;
    }
  }

  // ---- Deciders ----

  datatype Claim = Groups(groups: seq<Option<string>>) | Text(text: string) | Other

  datatype User = User(userId: string, claims: map<string, Claim>)

  datatype Caller = SignedIn(user: User) | Key(name: string)

  /** How a caller appears in audit fields: email claim, else user id, or `key:<name>`. */
  function Label(caller: Caller): string {
    match caller
    case SignedIn(user) =>
      if "email" in user.claims && user.claims["email"].Text? && Trim(user.claims["email"].text) != ""
      then Trim(user.claims["email"].text)
      else user.userId
    case Key(name) => "key:" + name
  }

  function CallerLabel(caller: Option<Caller>): string {
    match caller
    case Some(c) => Label(c)
    case None => "anonymous"
  }

  predicate InGroup(user: User, claim: string, group: string) {
    claim in user.claims &&
    match user.claims[claim]
    case Groups(groups) => Some(group) in groups
    case Text(text) => text == group
    case Other => false
  }

  function Decider(caller: Option<Caller>, authoring: Authoring, target: Target): Result<Option<User>, Error> {
    match caller
    case None => Ok(None)
    case Some(Key(_)) => Err(UserRequired)
    case Some(SignedIn(user)) =>
      if target.approverGroups == []
         || exists i :: 0 <= i < |target.approverGroups| &&
              InGroup(user, authoring.groupsClaim, target.approverGroups[i])
      then Ok(Some(user))
      else Err(NotApprover(user.userId))
  }

  /** The user's claim names `group`, as its one value or in its list. */
  ghost predicate Names(user: User, claim: string, group: string) {
    && claim in user.claims
    && (|| user.claims[claim] == Text(group)
        || (user.claims[claim].Groups? && Some(group) in user.claims[claim].groups))
  }

  /** Nobody signs in, or a person does and `groups` is empty or has a group that their claim names. */
  ghost predicate MayDecide(caller: Option<Caller>, claim: string, groups: seq<string>) {
    caller.Some? ==>
      && caller.value.SignedIn?
      && (groups == [] || exists group :: group in groups && Names(caller.value.user, claim, group))
  }

  /** A key is told that a person must decide, and a person outside every group that they may not. */
  lemma DecidersAreNamed(caller: Option<Caller>, authoring: Authoring, target: Target)
    ensures MayDecide(caller, authoring.groupsClaim, target.approverGroups) <==>
      Decider(caller, authoring, target) ==
        Ok(if caller.None? then None else if caller.value.SignedIn? then Some(caller.value.user) else None)
    ensures !MayDecide(caller, authoring.groupsClaim, target.approverGroups) ==>
      Decider(caller, authoring, target) ==
        Err(if caller.value.Key? then UserRequired else NotApprover(caller.value.user.userId))
  {
    if caller.Some? && caller.value.SignedIn? {
      var user, groups := caller.value.user, target.approverGroups;
      forall group ensures InGroup(user, authoring.groupsClaim, group) <==> Names(user, authoring.groupsClaim, group) {}
      if i :| 0 <= i < |groups| && InGroup(user, authoring.groupsClaim, groups[i]) {
        assert groups[i] in groups;
      }
    }
  }

  /**
   * Audit fields name a person by their email, without the white space around it, or by their id when they
   * have none, a key by its name behind a prefix, and nobody as anonymous.
   */
  lemma AuditLabel(caller: Option<Caller>) returns (a: string, b: string)
    ensures caller == None ==> CallerLabel(caller) == "anonymous"
    ensures caller.Some? && caller.value.Key? ==> CallerLabel(caller) == "key:" + caller.value.name
    ensures caller.Some? && caller.value.SignedIn? ==>
      var user := caller.value.user;
      if "email" in user.claims && user.claims["email"].Text? && !IsBlank(user.claims["email"].text)
      then
        && user.claims["email"].text == a + CallerLabel(caller) + b && IsBlank(a) && IsBlank(b)
        && CallerLabel(caller) != ""
        && !IsSpace(CallerLabel(caller)[0]) && !IsSpace(CallerLabel(caller)[|CallerLabel(caller)| - 1])
      else CallerLabel(caller) == user.userId
  {
    a, b := "", "";
    if caller.Some? && caller.value.SignedIn? {
      var user := caller.value.user;
      if "email" in user.claims && user.claims["email"].Text? {
        BlankIsTrimmedEmpty(user.claims["email"].text);
        a, b := TrimDropsTheEnds(user.claims["email"].text);
      }
    }
  }
}
