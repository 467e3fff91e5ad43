/** The authentication routes (backend/app/routes/auth.py): reading the bearer token out
    of the `Authorization` header, `/auth/user`, `/auth/logout` and the sign-in callback.
    What the OpenID check, the profile lookup and the token decoding answer are inputs. */
module AuthRoutes {
  import opened Common
  import opened Sessions

  const NOT_AUTHENTICATED := HttpError(401, "Not authenticated")
  const BAD_HEADER := HttpError(401, "Invalid authorization header")
  const BAD_TOKEN := HttpError(401, "Invalid or expired token")
  const LOGOUT_FAILED := HttpError(400, "Logout failed")
  /** An exception the route does not catch. */
  const INTERNAL_ERROR := HttpError(500, "Internal Server Error")

  /** `authorization.split(" ")[1]`, after the missing or empty header is refused. */
  function BearerToken(authorization: Option<string>): (r: Result<string, HttpError>)
    ensures authorization.None? || authorization.value == "" ==> r == Err(NOT_AUTHENTICATED)
    ensures authorization.Some? && authorization.value != "" && ' ' !in authorization.value ==> r == Err(BAD_HEADER)
    ensures r.Ok? <==> authorization.Some? && ' ' in authorization.value
    ensures r.Ok? ==> ' ' !in r.value && |r.value| < |authorization.value|
  {
    match authorization
    case None => Err(NOT_AUTHENTICATED)
    case Some(header) =>
      if header == "" then Err(NOT_AUTHENTICATED)
      else
        var fields := Split(header, ' ');
        if |fields| < 2 then Err(BAD_HEADER)
        else
          SplitFieldIsShorter(header, 1);
          Ok(fields[1])
  }

  lemma {:induction false} SplitFieldIsShorter(s: string, k: nat)
    requires ' ' in s && k < |Split(s, ' ')|
    ensures |Split(s, ' ')[k]| < |s|
    decreases |s|
  {
    if s[0] == ' ' {
      if k > 0 && ' ' in s[1..] {
        SplitFieldIsShorter(s[1..], k - 1);
      }
    } else {
      assert ' ' in s[1..] by { assert s == [s[0]] + s[1..]; }
      SplitFieldIsShorter(s[1..], k);
    }
  }

  /** The token is the second space-separated field: the scheme word is never looked at
      and any fields after the token are ignored. */
  lemma SecondFieldIsTheToken(fields: seq<string>)
    requires |fields| >= 2
    requires forall i :: 0 <= i < |fields| ==> ' ' !in fields[i]
    ensures BearerToken(Some(Join(fields, ' '))) == Ok(fields[1])
  {
    SplitJoin(fields, ' ');
  }

  /** `GET /auth/user`. `claims` is what decoding the header's token yields. */
  function GetCurrentUser(store: AuthStore, authorization: Option<string>, now: int, claims: Option<int>): (r: Result<UserRow, HttpError>)
    reads store
    requires store.Valid()
    ensures BearerToken(authorization).Err? ==> r == Err(BearerToken(authorization).error)
    ensures BearerToken(authorization).Ok? ==>
      r == (match store.VerifyToken(BearerToken(authorization).value, now, claims)
            case None => Err(BAD_TOKEN)
            case Some(u) => Ok(u))
  {
    match BearerToken(authorization)
    case Err(e) => Err(e)
    case Ok(token) =>
      match store.VerifyToken(token, now, claims)
      case None => Err(BAD_TOKEN)
      case Some(user) => Ok(user)
  }

  /** `POST /auth/logout`: after it succeeds, the same header is refused by
      `/auth/user` whatever the time and the claims. */
  method Logout(store: AuthStore, authorization: Option<string>) returns (r: Result<string, HttpError>)
    requires store.Valid()
    modifies store`sessions
    ensures store.Valid()
    ensures BearerToken(authorization).Err? ==> r == Err(BearerToken(authorization).error) && store.sessions == old(store.sessions)
    ensures BearerToken(authorization).Ok? && BearerToken(authorization).value !in old(store.sessions) ==>
              r == Err(LOGOUT_FAILED) && store.sessions == old(store.sessions)
    ensures BearerToken(authorization).Ok? && BearerToken(authorization).value in old(store.sessions) ==>
              var token := BearerToken(authorization).value;
              r == Ok("Logged out successfully")
              && store.sessions == old(store.sessions)[token := old(store.sessions)[token].(isActive := false)]
    ensures r.Ok? ==> forall now, claims :: GetCurrentUser(store, authorization, now, claims) == Err(BAD_TOKEN)
  {
    match BearerToken(authorization)
    case Err(e) =>
      r := Err(e);
    case Ok(token) =>
      var ok := store.LogoutUser(token);
      if !ok {
        r := Err(LOGOUT_FAILED);
      } else {
        r := Ok("Logged out successfully");
      }
  }

  /** `GET /auth/callback`: the verified Steam id and the fetched profile decide where
      the browser is sent; on success the user is created or updated, a session is
      stored under `token`, and the token is handed to the front end. */
  method AuthCallback(store: AuthStore, steamId: Option<string>, profile: Option<Profile>, appUrl: string, token: string, now: int)
    returns (r: Result<string, HttpError>)
    requires store.Valid()
    modifies store
    ensures store.Valid()
    ensures steamId.None? || steamId.value == "" ==>
              r == Ok(appUrl + "?error=steam_auth_failed") && store.users == old(store.users) && store.sessions == old(store.sessions)
    ensures steamId.Some? && steamId.value != "" && profile.None? ==>
              r == Ok(appUrl + "?error=profile_fetch_failed") && store.users == old(store.users) && store.sessions == old(store.sessions)
    ensures steamId.Some? && steamId.value != "" && profile.Some? ==>
              FindBySteamId(store.users, steamId.value).Some?
    ensures steamId.Some? && steamId.value != "" && profile.Some? && token !in old(store.sessions) ==>
              r == Ok(appUrl + "?token=" + token)
              && store.VerifyToken(token, now, Some(FindBySteamId(store.users, steamId.value).value + 1)).Some?
    ensures steamId.Some? && steamId.value != "" && profile.Some? && token in old(store.sessions) ==>
              r == Err(INTERNAL_ERROR) && store.sessions == old(store.sessions)
  {
    if steamId.None? || steamId.value == "" {
      return Ok(appUrl + "?error=steam_auth_failed");
    }
    if profile.None? {
      return Ok(appUrl + "?error=profile_fetch_failed");
    }
    var user := store.CreateOrUpdateUser(steamId.value, profile.value);
    ghost var u := FindBySteamId(store.users, steamId.value);
    assert store.users[user.id - 1].steamId == steamId.value;
    assert u.Some? && u.value == user.id - 1;
    var ok := store.CreateSession(user, token, now);
    if !ok {
      return Err(INTERNAL_ERROR);
    }
    r := Ok(appUrl + "?token=" + token);
  }
}
