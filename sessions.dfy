/** The user and session tables behind sign-in (backend/app/services/auth_service.py):
    `create_or_update_user`, `create_session`, `verify_token` and `logout_user`. Users
    get consecutive ids from 1 in creation order (the table's autoincrement key), and a
    session is keyed by its token, which the table keeps unique. The token text (a
    signed JWT) and what decoding it yields are inputs; times are whole seconds. */
module Sessions {
  import opened Common

  /** What the Steam profile lookup answers for a user. */
  datatype Profile = Profile(username: string, avatarUrl: Option<string>, profileUrl: Option<string>)

  datatype UserRow = UserRow(id: int, steamId: string, username: string, avatarUrl: Option<string>, profileUrl: Option<string>)

  datatype SessionRow = SessionRow(userId: int, expiresAt: int, isActive: bool)

  /** `expires_in_days` defaults to 30. */
  const SESSION_SECONDS := 30 * 24 * 60 * 60

  /** The position of the user with this Steam id, if there is one. */
  function FindBySteamId(users: seq<UserRow>, steamId: string): (r: Option<nat>)
    ensures r.Some? ==> r.value < |users| && users[r.value].steamId == steamId
    ensures r.None? ==> forall i :: 0 <= i < |users| ==> users[i].steamId != steamId
  {
    if users == [] then None
    else if users[|users| - 1].steamId == steamId then Some(|users| - 1)
    else FindBySteamId(users[..|users| - 1], steamId)
  }

  class AuthStore {
    var users: seq<UserRow>
    var sessions: map<string, SessionRow>

    /** Ids are positions plus one, and no two users share a Steam id. */
    ghost predicate Valid()
      reads this
    {
      (forall i :: 0 <= i < |users| ==> users[i].id == i + 1)
      && (forall i, j :: 0 <= i < j < |users| ==> users[i].steamId != users[j].steamId)
    }

    constructor ()
      ensures Valid() && users == [] && sessions == map[]
    {
      users, sessions := [], map[];
    }

    /** The user row with this id (`db.query(User).filter(User.id == user_id).first()`). */
    function UserById(id: int): (r: Option<UserRow>)
      reads this
      requires Valid()
      ensures r.Some? <==> 1 <= id <= |users|
      ensures r.Some? ==> r.value in users && r.value.id == id
    {
      if 1 <= id <= |users| then Some(users[id - 1]) else None
    }

    /** `create_or_update_user`: the user with that Steam id gets the profile's fields,
        or a new user is added with the next id. */
    method CreateOrUpdateUser(steamId: string, profile: Profile) returns (user: UserRow)
      requires Valid()
      modifies this`users
      ensures Valid()
      ensures user.steamId == steamId && user.username == profile.username
      ensures user.avatarUrl == profile.avatarUrl && user.profileUrl == profile.profileUrl
      ensures 1 <= user.id <= |users| && users[user.id - 1] == user
      ensures FindBySteamId(old(users), steamId).Some? ==>
                user.id == FindBySteamId(old(users), steamId).value + 1 && users == old(users)[user.id - 1 := user]
      ensures FindBySteamId(old(users), steamId).None? ==> user.id == |old(users)| + 1 && users == old(users) + [user]
    {
      var found := FindBySteamId(users, steamId);
      match found
      case Some(i) =>
        user := UserRow(i + 1, steamId, profile.username, profile.avatarUrl, profile.profileUrl);
        users := users[i := user];
      case None =>
        user := UserRow(|users| + 1, steamId, profile.username, profile.avatarUrl, profile.profileUrl);
        users := users + [user];
    }

    /** `create_session`: a session for the user that expires 30 days after `now`. The
        table's unique token column rejects a token that is already stored, and then the
        commit fails and nothing is added. */
    method CreateSession(user: UserRow, token: string, now: int) returns (ok: bool)
      modifies this`sessions
      ensures ok <==> token !in old(sessions)
      ensures ok ==> sessions == old(sessions)[token := SessionRow(user.id, now + SESSION_SECONDS, true)]
      ensures !ok ==> sessions == old(sessions)
    {
      if token in sessions {
        return false;
      }
      sessions := sessions[token := SessionRow(user.id, now + SESSION_SECONDS, true)];
      ok := true;
    }

    /** `verify_token`: `claims` is the `user_id` the token decodes to, or `None` when
        decoding rejects it (bad signature, past its `exp`). The token must name an active
        session that has not expired, and the answer is the user the claims name. */
    function VerifyToken(token: string, now: int, claims: Option<int>): (r: Option<UserRow>)
      reads this
      requires Valid()
      ensures r.Some? <==> claims.Some? && token in sessions && sessions[token].isActive
                           && now <= sessions[token].expiresAt && 1 <= claims.value <= |users|
      ensures r.Some? ==> r.value.id == claims.value && r.value in users
    {
      if claims.None? then None
      else if token !in sessions || !sessions[token].isActive || sessions[token].expiresAt < now then None
      else UserById(claims.value)
    }

    /** `logout_user`: deactivates the token's session; false when there is none. After
        a logout the token no longer verifies, whatever the time or claims. */
    method LogoutUser(token: string) returns (ok: bool)
      requires Valid()
      modifies this`sessions
      ensures Valid()
      ensures ok <==> token in old(sessions)
      ensures ok ==> sessions == old(sessions)[token := old(sessions)[token].(isActive := false)]
      ensures !ok ==> sessions == old(sessions)
      ensures ok ==> forall now, claims :: VerifyToken(token, now, claims).None?
    {
      if token !in sessions {
        return false;
      }
      sessions := sessions[token := sessions[token].(isActive := false)];
      ok := true;
    }
  }

  /** A session created at sign-in lets its token verify, for the claims the token
      carries, until it expires. */
  method SignInThenVerify(store: AuthStore, steamId: string, profile: Profile, token: string, now: int, later: int)
    returns (user: UserRow, verified: Option<UserRow>)
    requires store.Valid() && token !in store.sessions
    requires now <= later <= now + SESSION_SECONDS
    modifies store
    ensures verified == Some(user) && user.steamId == steamId
  {
    user := store.CreateOrUpdateUser(steamId, profile);
    var ok := store.CreateSession(user, token, now);
    verified := store.VerifyToken(token, later, Some(user.id));
  }
}
