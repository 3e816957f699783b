/** Refresh tokens (`AuthService.login`, `refresh`, `logout`): single use, and revoked
    by a logout. */
module Auth {
  import opened Nums

  datatype User = User(active: bool, version: nat)

  type Users = map<nat, User>

  /** What a token says once its signature is checked; None if it is not valid or
      has expired. */
  datatype Claims = Claims(user: nat, version: nat)

  datatype Event =
    | Login(user: nat, passwordMatches: bool)
    | Refresh(claims: Option<Claims>)
    | Logout(user: nat)
    | SetActive(user: nat, active: bool)
    | Register(user: nat)

  function Bumped(u: Users, id: nat): Users
    requires id in u
  {
    u[id := u[id].(version := u[id].version + 1)]
  }

  predicate LoginSucceeds(u: Users, id: nat, passwordMatches: bool) {
    id in u && passwordMatches && u[id].active
  }

  predicate RefreshSucceeds(u: Users, claims: Option<Claims>) {
    claims.Some? && claims.value.user in u && u[claims.value.user].active
    && u[claims.value.user].version == claims.value.version
  }

  function Step(u: Users, e: Event): Users {
    match e
    case Login(_, _) => u
    case Refresh(claims) => if RefreshSucceeds(u, claims) then Bumped(u, claims.value.user) else u
    case Logout(id) => if id in u then Bumped(u, id) else u
    case SetActive(id, active) => if id in u then u[id := u[id].(active := active)] else u
    case Register(id) => if id in u then u else u[id := User(true, 0)]
  }

  /** The refresh token an event hands out. */
  function Issued(u: Users, e: Event): Option<Claims> {
    match e
    case Login(id, matches) => if LoginSucceeds(u, id, matches) then Some(Claims(id, u[id].version)) else None
    case Refresh(claims) =>
      if RefreshSucceeds(u, claims) then Some(Claims(claims.value.user, Step(u, e)[claims.value.user].version))
      else None
    case _ => None
  }

  function Run(u: Users, es: seq<Event>): Users {
    if es == [] then u else Step(Run(u, es[..|es| - 1]), es[|es| - 1])
  }

  /** A user's version never goes back. */
  lemma {:induction false} VersionsGrow(u: Users, es: seq<Event>, i: nat, j: nat, id: nat)
    requires i <= j <= |es| && id in Run(u, es[..i])
    ensures id in Run(u, es[..j]) && Run(u, es[..j])[id].version >= Run(u, es[..i])[id].version
  {
    if i < j {
      VersionsGrow(u, es, i, j - 1, id);
      assert es[..j][..j - 1] == es[..j - 1];
    }
  }

  lemma RunNext(u: Users, es: seq<Event>, i: nat)
    requires i < |es|
    ensures Run(u, es[..i + 1]) == Step(Run(u, es[..i]), es[i])
  {
    assert es[..i + 1][..i] == es[..i];
  }

  /** Of two refreshes with the same claims at most one succeeds, whatever happens
      in between. */
  lemma RefreshIsSingleUse(u: Users, es: seq<Event>, i: nat, j: nat, claims: Claims)
    requires i < j < |es| && es[i] == Refresh(Some(claims)) && es[j] == Refresh(Some(claims))
    requires RefreshSucceeds(Run(u, es[..i]), Some(claims))
    ensures !RefreshSucceeds(Run(u, es[..j]), Some(claims))
  {
    RunNext(u, es, i);
    VersionsGrow(u, es, i + 1, j, claims.user);
  }

  /** A token handed out before a logout is refused after it. */
  lemma LogoutRevokes(u: Users, es: seq<Event>, i: nat, j: nat, k: nat, claims: Claims)
    requires i < j < k <= |es| && Issued(Run(u, es[..i]), es[i]) == Some(claims) && es[j] == Logout(claims.user)
    ensures !RefreshSucceeds(Run(u, es[..k]), Some(claims))
  {
    RunNext(u, es, i);
    VersionsGrow(u, es, i + 1, j, claims.user);
    RunNext(u, es, j);
    VersionsGrow(u, es, j + 1, k, claims.user);
  }

  /** A refresh revokes every other token of the user too: two sessions share one
      version, so logging in elsewhere does not, but refreshing does. */
  lemma RefreshRevokesOthers(u: Users, claims: Claims, other: Claims)
    requires RefreshSucceeds(u, Some(claims)) && RefreshSucceeds(u, Some(other)) && claims.user == other.user
    ensures claims == other
    ensures !RefreshSucceeds(Step(u, Refresh(Some(claims))), Some(other))
  {
  }

  // ------------------------------------------------------------ what succeeds

  /** Whether a user is known, and active, by what was said of him last. */
  function Standing(u: Users, es: seq<Event>, id: nat): Option<bool> {
    if es == [] then if id in u then Some(u[id].active) else None
    else
      var before := Standing(u, es[..|es| - 1], id);
      match es[|es| - 1]
      case SetActive(other, active) => if other == id && before.Some? then Some(active) else before
      case Register(other) => if other == id && before.None? then Some(true) else before
      case _ => before
  }

  lemma {:induction false} StandingIs(u: Users, es: seq<Event>, id: nat)
    ensures Standing(u, es, id) == if id in Run(u, es) then Some(Run(u, es)[id].active) else None
  {
    if es != [] {
      StandingIs(u, es[..|es| - 1], id);
    }
  }

  /** Event `k` ends every token of the user: a logout, or a refresh that handed out a
      new one. */
  predicate Revokes(u: Users, es: seq<Event>, k: nat, id: nat)
    requires k < |es|
  {
    es[k] == Logout(id)
    || (es[k].Refresh? && Issued(Run(u, es[..k]), es[k]).Some? && Issued(Run(u, es[..k]), es[k]).value.user == id)
  }

  /** The version moves exactly when tokens are revoked. */
  lemma {:induction false} VersionMovesIff(u: Users, es: seq<Event>, i: nat, j: nat, id: nat)
    requires i <= j <= |es| && id in Run(u, es[..i])
    ensures id in Run(u, es[..j]) && Run(u, es[..j])[id].version >= Run(u, es[..i])[id].version
    ensures Run(u, es[..j])[id].version == Run(u, es[..i])[id].version
       <==> forall k :: i <= k < j ==> !Revokes(u, es, k, id)
  {
    if i < j {
      VersionMovesIff(u, es, i, j - 1, id);
      RunNext(u, es, j - 1);
      hide Run;
      var before := Run(u, es[..j - 1]);
      assert Step(before, es[j - 1])[id].version
          == before[id].version + if Revokes(u, es, j - 1, id) then 1 else 0;
    }
  }

  /** The main result: a token that was handed out is accepted exactly as long as its user
      is active and nothing has revoked it. */
  lemma AcceptedIff(u: Users, es: seq<Event>, i: nat, j: nat, claims: Claims)
    requires i < j <= |es| && Issued(Run(u, es[..i]), es[i]) == Some(claims)
    ensures RefreshSucceeds(Run(u, es[..j]), Some(claims))
       <==> Standing(u, es[..j], claims.user) == Some(true)
            && forall k :: i < k < j ==> !Revokes(u, es, k, claims.user)
  {
    RunNext(u, es, i);
    VersionMovesIff(u, es, i + 1, j, claims.user);
    StandingIs(u, es[..j], claims.user);
    hide Run, Standing;
  }

  /** A login hands out a token exactly for the right password of an active user. */
  lemma LoginIff(u: Users, es: seq<Event>, id: nat, passwordMatches: bool)
    ensures var token := Issued(Run(u, es), Login(id, passwordMatches));
            && (token.Some? <==> passwordMatches && Standing(u, es, id) == Some(true))
            && (token.Some? ==> token.value.user == id)
  {
    StandingIs(u, es, id);
    hide Run, Standing;
  }

  // ------------------------------------------------------------ the service

  class AuthService {
    var users: Users

    constructor ()
      ensures users == map[]
    {
      users := map[];
    }

    method Login(id: nat, passwordMatches: bool) returns (token: Option<Claims>)
      ensures token == Issued(users, Event.Login(id, passwordMatches))
    {
      if id !in users || !passwordMatches || !users[id].active {
        return None;
      }
      token := Some(Claims(id, users[id].version));
    }

    method Refresh(claims: Option<Claims>) returns (token: Option<Claims>)
      modifies this
      ensures users == Step(old(users), Event.Refresh(claims))
      ensures token == Issued(old(users), Event.Refresh(claims))
    {
      if claims.None? {
        return None;
      }
      var id := claims.value.user;
      if id !in users || !users[id].active || users[id].version != claims.value.version {
        return None;
      }
      users := users[id := users[id].(version := users[id].version + 1)];
      token := Some(Claims(id, users[id].version));
    }

    method Logout(id: nat)
      requires id in users
      modifies this
      ensures users == Step(old(users), Event.Logout(id))
    {
      users := users[id := users[id].(version := users[id].version + 1)];
    }
  }
}
