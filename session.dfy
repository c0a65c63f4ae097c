/**
 * Sessions: logging in (`AuthService.authenticate` and `create_session` of
 * src/services/auth_service.py), refresh-token rotation (`Auth.refresh_token`
 * and `AuthService.refresh`) and logging out (`Auth.erase_credentials` and
 * `AuthService.logout`). The only state these operations change is the
 * revocation set `blacklist_jti` and `request.state.user`; the cookie they
 * set or delete on the response is returned as a `CookieAction`.
 *
 * Times are parameters: `now` is the instant at which PyJWT checks `exp`,
 * `later` the instant of the code's own clock readings after decoding
 * (`time.time()` and `datetime.now()`). Fresh `jti` values (`uuid4()`) are
 * parameters too.
 */
module Session {
  import opened Wrappers
  import opened Http
  import opened Jwt
  import opened Roles
  import opened Hashing
  import opened Middleware
  import CurrentUser

  datatype Cookie = Cookie(key: string, value: string, httpOnly: bool, secure: bool, sameSite: string, maxAge: int, path: string)

  /** What an operation does to the client's cookies. */
  datatype CookieAction = KeepCookies | SetCookie(cookie: Cookie) | DeleteCookie(key: string)

  const REFRESH_COOKIE := "refresh_token"
  const SESSION_MAX_AGE := 7 * 24 * 3600

  const INVALID_CREDENTIALS_DETAIL := "Invalid credentials"
  const NOT_AUTHENTICATED_DETAIL := "Not authenticated"
  const REFRESH_EXPIRED_DETAIL := "Refresh token expired"
  const INVALID_REFRESH_DETAIL := "Invalid refresh token"
  const REVOKED_DETAIL := "No Token found. Token must be revoked"
  const LATE_DETAIL := "No Token found. Token must be expired"

  /** The cookie `set_cookie(key="refresh_token", ...)` writes, in login and in rotation alike. */
  function SessionCookie(token: string): (c: Cookie)
    ensures c.key == REFRESH_COOKIE && c.value == token
    ensures c.httpOnly && c.secure && c.sameSite == "strict" && c.path == "/"
  {
    Cookie(REFRESH_COOKIE, token, true, true, "strict", SESSION_MAX_AGE, "/")
  }

  /** The session cookie is kept six days longer than the refresh token it carries stays valid. */
  lemma CookieOutlivesToken(token: string)
    ensures SessionCookie(token).maxAge == REFRESH_TTL + 6 * 24 * 3600
  {
  }

  // ---------------------------------------------------------------- login

  /** What `UserRepository.get_user_by_username` returns: the fields the login reads. */
  datatype UserRecord = UserRecord(id: int, passwordHash: StoredHash, roles: seq<Role>)

  datatype Reply = Reply(result: Result<string, Failure>, cookie: CookieAction)

  /** `[role.name.value for role in user.roles]`, as the `roles` claim. */
  function RolesOf(u: UserRecord): Claim {
    StrList(Names(u.roles))
  }

  /** `AuthService.create_session`: a refresh token for the user, in the session cookie. */
  function CreateSession(k: Codec, u: UserRecord, now: int, refreshJti: string): (a: CookieAction)
    ensures a.SetCookie? && a.cookie.key == REFRESH_COOKIE
    ensures Sound(k) ==> Decode(k, a.cookie.value, now) == Success(RefreshPayload(Int(u.id), RolesOf(u), now, refreshJti))
  {
    SetCookie(SessionCookie(CreateRefreshToken(k, Int(u.id), RolesOf(u), now, refreshJti)))
  }

  /** `AuthService.authenticate`: the access token in the body, the refresh token in the cookie. */
  function Authenticate(users: map<string, UserRecord>, h: Hasher, k: Codec, username: string, password: string,
                        now: int, accessJti: string, refreshJti: string): (r: Reply)
    ensures r.result.Success? <==>
              && username in users
              && VerifyPassword(h, password, users[username].passwordHash) == Success(true)
              && CreateAccessToken(k, Int(users[username].id), RolesOf(users[username]), now, accessJti) != ""
    ensures r.result.Success? ==>
              var p := IssuePair(k, Int(users[username].id), RolesOf(users[username]), now, accessJti, refreshJti);
              r.result.value == p.access && r.cookie == SetCookie(SessionCookie(p.refresh))
    ensures r.result.Failure? ==> r.cookie == KeepCookies
    ensures username !in users ==> r.result == Failure(Http(UNAUTHORIZED, INVALID_CREDENTIALS_DETAIL))
    ensures username in users && users[username].passwordHash.Unparseable? ==> r.result.Failure? && r.result.error.Crash?
  {
    if username !in users then Reply(Failure(Http(UNAUTHORIZED, INVALID_CREDENTIALS_DETAIL)), KeepCookies)
    else
      var u := users[username];
      match VerifyPassword(h, password, u.passwordHash)
      case Failure(_) => Reply(Failure(Crash("argon2.exceptions.InvalidHashError")), KeepCookies)
      case Success(ok) =>
        if !ok then Reply(Failure(Http(UNAUTHORIZED, INVALID_CREDENTIALS_DETAIL)), KeepCookies)
        else
          var token := CreateAccessToken(k, Int(u.id), RolesOf(u), now, accessJti);
          if token == "" then Reply(Failure(Http(UNAUTHORIZED, NOT_AUTHENTICATED_DETAIL)), KeepCookies)
          else Reply(Success(token), CreateSession(k, u, now, refreshJti))
  }

  /** An unknown user name and a wrong password get the same answer. */
  lemma SameAnswerForUnknownUserAndWrongPassword(users: map<string, UserRecord>, h: Hasher, k: Codec,
                                                 known: string, unknown: string, password: string,
                                                 now: int, accessJti: string, refreshJti: string)
    requires unknown !in users
    requires known in users && VerifyPassword(h, password, users[known].passwordHash) == Success(false)
    ensures Authenticate(users, h, k, known, password, now, accessJti, refreshJti)
         == Authenticate(users, h, k, unknown, password, now, accessJti, refreshJti)
  {
  }

  /** A user whose stored hash was made from the password logs in, under a sound codec. */
  lemma {:induction false} CorrectPasswordLogsIn(users: map<string, UserRecord>, h: Hasher, k: Codec, username: string,
                                                 password: string, salt: string, now: int, accessJti: string, refreshJti: string)
    requires Sound(k)
    requires username in users && users[username].passwordHash == PasswordHash(h, password, salt)
    ensures Authenticate(users, h, k, username, password, now, accessJti, refreshJti).result.Success?
  {
    VerifyHashed(h, password, salt);
    var u := users[username];
    assert k.encode(AccessPayload(Int(u.id), RolesOf(u), now, accessJti)) != "";
  }

  /**
   * A login is a working session: while the access token lives, the token in
   * the body as bearer and the cookie pass the middleware, and
   * `get_current_user` resolves the user's id and exactly the user's roles.
   */
  lemma {:induction false} LoginSessionResolves(users: map<string, UserRecord>, h: Hasher, k: Codec, username: string,
                                                password: string, issuedAt: int, accessJti: string, refreshJti: string,
                                                revoked: set<TokenId>, now: int)
    requires Sound(k)
    requires Authenticate(users, h, k, username, password, issuedAt, accessJti, refreshJti).result.Success?
    requires now < issuedAt + ACCESS_TTL
    requires Some(Str(refreshJti)) !in revoked
    ensures var r := Authenticate(users, h, k, username, password, issuedAt, accessJti, refreshJti);
            var u := users[username];
            var d := Validate(Some(BEARER + r.result.value), Some(r.cookie.cookie.value), k, revoked, now);
            && d.Attach?
            && var id := CurrentUser.Resolve(Some(d.user), Some(r.cookie.cookie.value), k, now);
            && id.Success?
            && id.value.id == Some(Str(Render(Int(u.id))))
            && forall x :: x in id.value.roles <==> x in u.roles
  {
    var u := users[username];
    CurrentUser.IssuedPairIdentity(k, Int(u.id), u.roles, issuedAt, accessJti, refreshJti, revoked, now);
  }

  // ---------------------------------------------------------------- rotation

  /** The result of `Auth.refresh_token`, with the revocation set after it. */
  datatype Rotation = Rotation(result: Result<string, Failure>, cookie: CookieAction, revoked: set<TokenId>)

  function DecodeFailure(e: DecodeError): Failure {
    match e
    case Expired => Http(UNAUTHORIZED, REFRESH_EXPIRED_DETAIL)
    case Invalid => Http(UNAUTHORIZED, INVALID_REFRESH_DETAIL)
  }

  /**
   * `Auth.refresh_token`. A missing `exp` fails the comparison with the clock;
   * a missing `jti`, `sub` or `roles` fails the subscripts; the `jti` is revoked
   * before `sub` and `roles` are read.
   */
  function Rotate(k: Codec, token: string, revoked: set<TokenId>, now: int, later: int,
                  accessJti: string, refreshJti: string): (r: Rotation)
    ensures r.result.Failure? ==> r.cookie == KeepCookies
    ensures r.revoked == revoked || (Decode(k, token, now).Success? && r.revoked == revoked + {Get(Decode(k, token, now).value, "jti")})
    ensures r.result.Success? ==>
              && Decode(k, token, now).Success?
              && var p := Decode(k, token, now).value;
              && Get(p, "type") == Some(Str(REFRESH_TAG))
              && Get(p, "jti") !in revoked
              && p.Keys >= {"exp", "jti", "sub", "roles"}
              && later <= p["exp"].n
              && r.revoked == revoked + {Some(p["jti"])}
              && var pair := IssuePair(k, p["sub"], p["roles"], later, accessJti, refreshJti);
              && r.result.value == pair.access
              && r.cookie == SetCookie(SessionCookie(pair.refresh))
    ensures Decode(k, token, now).Failure? ==> r == Rotation(Failure(DecodeFailure(Decode(k, token, now).error)), KeepCookies, revoked)
    ensures Decode(k, token, now).Success? && Get(Decode(k, token, now).value, "type") != Some(Str(REFRESH_TAG)) ==>
              r == Rotation(Failure(Http(UNAUTHORIZED, INVALID_CREDENTIALS_DETAIL)), KeepCookies, revoked)
    ensures Decode(k, token, now).Success? && Get(Decode(k, token, now).value, "type") == Some(Str(REFRESH_TAG))
              && Get(Decode(k, token, now).value, "jti") in revoked ==>
              r == Rotation(Failure(Http(UNAUTHORIZED, REVOKED_DETAIL)), KeepCookies, revoked)
  {
    match Decode(k, token, now)
    case Failure(e) => Rotation(Failure(DecodeFailure(e)), KeepCookies, revoked)
    case Success(p) =>
      if Get(p, "type") != Some(Str(REFRESH_TAG)) then
        Rotation(Failure(Http(UNAUTHORIZED, INVALID_CREDENTIALS_DETAIL)), KeepCookies, revoked)
      else if Get(p, "jti") in revoked then
        Rotation(Failure(Http(UNAUTHORIZED, REVOKED_DETAIL)), KeepCookies, revoked)
      else
        match Get(p, "exp")
        case None => Rotation(Failure(Crash("TypeError")), KeepCookies, revoked)
        case Some(exp) =>
          if !exp.Int? then Rotation(Failure(Crash("TypeError")), KeepCookies, revoked)
          else if exp.n < later then Rotation(Failure(Http(UNAUTHORIZED, LATE_DETAIL)), KeepCookies, revoked)
          else if "jti" !in p then Rotation(Failure(Crash("KeyError")), KeepCookies, revoked)
          else
            var revoked' := revoked + {Some(p["jti"])};
            if "sub" !in p || "roles" !in p then Rotation(Failure(Crash("KeyError")), KeepCookies, revoked')
            else
              var pair := IssuePair(k, p["sub"], p["roles"], later, accessJti, refreshJti);
              Rotation(Success(pair.access), SetCookie(SessionCookie(pair.refresh)), revoked')
  }

  /** `Auth.refresh_token`, adding the rotated token's `jti` to `blacklist_jti`. */
  method RefreshToken(blacklist: Blacklist, k: Codec, token: string, now: int, later: int,
                      accessJti: string, refreshJti: string) returns (result: Result<string, Failure>, cookie: CookieAction)
    modifies blacklist
    ensures var r := Rotate(k, token, old(blacklist.jtis), now, later, accessJti, refreshJti);
            result == r.result && cookie == r.cookie && blacklist.jtis == r.revoked
  {
    var decoded := Decode(k, token, now);
    if decoded.Failure? {
      return Failure(DecodeFailure(decoded.error)), KeepCookies;
    }
    var payload := decoded.value;
    if Get(payload, "type") != Some(Str(REFRESH_TAG)) {
      return Failure(Http(UNAUTHORIZED, INVALID_CREDENTIALS_DETAIL)), KeepCookies;
    }
    if Get(payload, "jti") in blacklist.jtis {
      return Failure(Http(UNAUTHORIZED, REVOKED_DETAIL)), KeepCookies;
    }
    var exp := Get(payload, "exp");
    if exp.None? || !exp.value.Int? {
      return Failure(Crash("TypeError")), KeepCookies;
    }
    if exp.value.n < later {
      return Failure(Http(UNAUTHORIZED, LATE_DETAIL)), KeepCookies;
    }
    if "jti" !in payload {
      return Failure(Crash("KeyError")), KeepCookies;
    }
    blacklist.jtis := blacklist.jtis + {Some(payload["jti"])};
    if "sub" !in payload || "roles" !in payload {
      return Failure(Crash("KeyError")), KeepCookies;
    }
    var userId := payload["sub"];
    var roles := payload["roles"];
    var accessToken := CreateAccessToken(k, userId, roles, later, accessJti);
    var newRefreshToken := CreateRefreshToken(k, userId, roles, later, refreshJti);
    cookie := SetCookie(SessionCookie(newRefreshToken));
    result := Success(accessToken);
  }

  /** `AuthService.refresh`: an absent or empty cookie is refused before any decoding. */
  method Refresh(blacklist: Blacklist, k: Codec, token: Option<string>, now: int, later: int,
                 accessJti: string, refreshJti: string) returns (result: Result<string, Failure>, cookie: CookieAction)
    modifies blacklist
    ensures token.None? || token == Some("") ==>
              result == Failure(Http(UNAUTHORIZED, NOT_AUTHENTICATED_DETAIL)) && cookie == KeepCookies && blacklist.jtis == old(blacklist.jtis)
    ensures token.Some? && token.value != "" ==>
              var r := Rotate(k, token.value, old(blacklist.jtis), now, later, accessJti, refreshJti);
              result == r.result && cookie == r.cookie && blacklist.jtis == r.revoked
  {
    if token.None? || token.value == "" {
      return Failure(Http(UNAUTHORIZED, NOT_AUTHENTICATED_DETAIL)), KeepCookies;
    }
    result, cookie := RefreshToken(blacklist, k, token.value, now, later, accessJti, refreshJti);
  }

  /** Single use: once a refresh token has been rotated, presenting it again fails, at any time. */
  lemma {:induction false} RotationSingleUse(k: Codec, token: string, revoked: set<TokenId>, now: int, later: int,
                                             accessJti: string, refreshJti: string,
                                             now2: int, later2: int, accessJti2: string, refreshJti2: string)
    requires Rotate(k, token, revoked, now, later, accessJti, refreshJti).result.Success?
    ensures var again := Rotate(k, token, Rotate(k, token, revoked, now, later, accessJti, refreshJti).revoked,
                                now2, later2, accessJti2, refreshJti2);
            again.result.Failure? && again.result.error.Http? && again.result.error.status == UNAUTHORIZED
  {
    var p := Decode(k, token, now).value;
    var revoked' := Rotate(k, token, revoked, now, later, accessJti, refreshJti).revoked;
    match Decode(k, token, now2)
    case Failure(e) =>
    case Success(p2) =>
      assert k.decode(token) == Some(p) == Some(p2);
      assert Get(p2, "jti") in revoked';
  }

  /** An access token cannot be used to refresh: its `type` is not `refresh_token`. */
  lemma AccessTokenCannotRotate(k: Codec, userId: Claim, roles: Claim, issuedAt: int, jti: string, revoked: set<TokenId>,
                                now: int, later: int, accessJti: string, refreshJti: string)
    requires Sound(k)
    requires now < issuedAt + ACCESS_TTL
    ensures Rotate(k, CreateAccessToken(k, userId, roles, issuedAt, jti), revoked, now, later, accessJti, refreshJti)
         == Rotation(Failure(Http(UNAUTHORIZED, INVALID_CREDENTIALS_DETAIL)), KeepCookies, revoked)
  {
    CreatedTokenLifetime(k, AccessPayload(userId, roles, issuedAt, jti), issuedAt + ACCESS_TTL, now);
  }

  /**
   * Rotation of a live, unrevoked refresh token of an issued pair succeeds and
   * revokes exactly that token's `jti`; the new pair carries the same subject
   * and roles.
   */
  lemma {:induction false} IssuedRefreshRotates(k: Codec, userId: Claim, roles: Claim, issuedAt: int, jtiA: string, jtiR: string,
                                                revoked: set<TokenId>, now: int, later: int, accessJti: string, refreshJti: string)
    requires Sound(k)
    requires now <= later < issuedAt + REFRESH_TTL
    requires Some(Str(jtiR)) !in revoked
    ensures var r := Rotate(k, IssuePair(k, userId, roles, issuedAt, jtiA, jtiR).refresh, revoked, now, later, accessJti, refreshJti);
            && r.result.Success?
            && r.revoked == revoked + {Some(Str(jtiR))}
            && var pair := IssuePair(k, Str(Render(userId)), roles, later, accessJti, refreshJti);
            && r.result.value == pair.access && r.cookie == SetCookie(SessionCookie(pair.refresh))
  {
    var pr := RefreshPayload(userId, roles, issuedAt, jtiR);
    CreatedTokenLifetime(k, pr, issuedAt + REFRESH_TTL, now);
  }

  /**
   * After the rotation of an issued pair's refresh token the middleware
   * rejects that pair, and the rotated pair passes it while its access token
   * lives and its own refresh token is not revoked.
   */
  lemma {:induction false} RotationReplacesPair(k: Codec, userId: Claim, roles: Claim, issuedAt: int, jtiA: string, jtiR: string,
                                                revoked: set<TokenId>, now: int, later: int, accessJti: string, refreshJti: string, now2: int)
    requires Sound(k)
    requires jtiA != "" && jtiR != refreshJti
    requires now <= later < issuedAt + REFRESH_TTL
    requires later <= now2 < later + ACCESS_TTL
    requires Some(Str(jtiR)) !in revoked && Some(Str(refreshJti)) !in revoked
    ensures var old_ := IssuePair(k, userId, roles, issuedAt, jtiA, jtiR);
            var r := Rotate(k, old_.refresh, revoked, now, later, accessJti, refreshJti);
            && Validate(Some(BEARER + old_.access), Some(old_.refresh), k, r.revoked, now2).Reject?
            && Validate(Some(BEARER + r.result.value), Some(r.cookie.cookie.value), k, r.revoked, now2).Attach?
  {
    IssuedRefreshRotates(k, userId, roles, issuedAt, jtiA, jtiR, revoked, now, later, accessJti, refreshJti);
    var r := Rotate(k, IssuePair(k, userId, roles, issuedAt, jtiA, jtiR).refresh, revoked, now, later, accessJti, refreshJti);
    RevokedPairRejected(k, userId, roles, issuedAt, jtiA, jtiR, r.revoked, now2);
    IssuedPairAccepted(k, Str(Render(userId)), roles, later, accessJti, refreshJti, r.revoked, now2);
  }

  // ---------------------------------------------------------------- logout

  /** `request.state`: the user the middleware attached, if any. */
  class RequestState {
    var user: Option<RequestUser>

    constructor (user: Option<RequestUser>)
      ensures this.user == user
    {
      this.user := user;
    }
  }

  /** The result of `Auth.erase_credentials`, with the revocation set after it. */
  datatype Erasure = Erasure(result: Result<(), Failure>, cookie: CookieAction, revoked: set<TokenId>)

  /**
   * `Auth.erase_credentials`. Decoding errors are not caught: an absent, invalid
   * or expired refresh cookie fails the request. When either `jti` is truthy,
   * both are revoked, `None` included.
   */
  function Erase(user: Option<RequestUser>, cookie: Option<string>, k: Codec, revoked: set<TokenId>, now: int): (r: Erasure)
    ensures r.result.Success? <==> cookie.Some? && Decode(k, cookie.value, now).Success?
    ensures r.result.Failure? ==> r.result.error.Crash? && r.cookie == KeepCookies && r.revoked == revoked
    ensures r.result.Success? ==>
              var accessJti := if user.Some? then user.value.jti else None;
              var refreshJti := Get(Decode(k, cookie.value, now).value, "jti");
              && r.cookie == DeleteCookie(REFRESH_COOKIE)
              && (Truthy(accessJti) || Truthy(refreshJti) ==> r.revoked == revoked + {accessJti, refreshJti})
              && (!Truthy(accessJti) && !Truthy(refreshJti) ==> r.revoked == revoked)
  {
    if cookie.None? then Erasure(Failure(Crash("jwt.DecodeError")), KeepCookies, revoked)
    else
      match Decode(k, cookie.value, now)
      case Failure(Expired) => Erasure(Failure(Crash("jwt.ExpiredSignatureError")), KeepCookies, revoked)
      case Failure(Invalid) => Erasure(Failure(Crash("jwt.InvalidTokenError")), KeepCookies, revoked)
      case Success(refresh) =>
        var jti := if user.Some? then user.value.jti else None;
        var jtiRefresh := Get(refresh, "jti");
        var revoked' := if Truthy(jti) || Truthy(jtiRefresh) then revoked + {jti, jtiRefresh} else revoked;
        Erasure(Success(()), DeleteCookie(REFRESH_COOKIE), revoked')
  }

  /** `Auth.erase_credentials`: revokes, deletes the cookie and detaches the user. */
  method EraseCredentials(blacklist: Blacklist, request: RequestState, cookie: Option<string>, k: Codec, now: int)
    returns (result: Result<(), Failure>, action: CookieAction)
    modifies blacklist, request
    ensures var r := Erase(old(request.user), cookie, k, old(blacklist.jtis), now);
            result == r.result && action == r.cookie && blacklist.jtis == r.revoked
    ensures result.Success? ==> request.user == None
    ensures result.Failure? ==> request.user == old(request.user)
  {
    var userPayload := request.user;
    if cookie.None? {
      return Failure(Crash("jwt.DecodeError")), KeepCookies;
    }
    var decoded := Decode(k, cookie.value, now);
    if decoded.Failure? {
      if decoded.error.Expired? {
        return Failure(Crash("jwt.ExpiredSignatureError")), KeepCookies;
      }
      return Failure(Crash("jwt.InvalidTokenError")), KeepCookies;
    }
    var refreshToken := decoded.value;
    var jti := if userPayload.Some? then userPayload.value.jti else None;
    var jtiRefresh := Get(refreshToken, "jti");
    if Truthy(jti) || Truthy(jtiRefresh) {
      blacklist.jtis := blacklist.jtis + {jti};
      blacklist.jtis := blacklist.jtis + {jtiRefresh};
    }
    request.user := None;
    result, action := Success(()), DeleteCookie(REFRESH_COOKIE);
  }

  /** `AuthService.logout`: an absent or empty cookie is refused before anything else. */
  method Logout(blacklist: Blacklist, request: RequestState, cookie: Option<string>, k: Codec, now: int)
    returns (result: Result<(), Failure>, action: CookieAction)
    modifies blacklist, request
    ensures cookie.None? || cookie == Some("") ==>
              result == Failure(Http(UNAUTHORIZED, NOT_AUTHENTICATED_DETAIL)) && action == KeepCookies
              && blacklist.jtis == old(blacklist.jtis) && request.user == old(request.user)
    ensures cookie.Some? && cookie.value != "" ==>
              var r := Erase(old(request.user), cookie, k, old(blacklist.jtis), now);
              result == r.result && action == r.cookie && blacklist.jtis == r.revoked
              && (result.Success? ==> request.user == None)
              && (result.Failure? ==> request.user == old(request.user))
  {
    if cookie.None? || cookie.value == "" {
      return Failure(Http(UNAUTHORIZED, NOT_AUTHENTICATED_DETAIL)), KeepCookies;
    }
    result, action := EraseCredentials(blacklist, request, cookie, k, now);
  }

  /**
   * After logging out with a live issued pair, neither the pair nor its
   * refresh token is of any further use: the middleware rejects the pair and
   * rotation refuses the refresh token as revoked.
   */
  lemma {:induction false} LogoutRevokesSession(k: Codec, userId: Claim, roles: Claim, issuedAt: int, jtiA: string, jtiR: string,
                                                revoked: set<TokenId>, now: int, now2: int, later2: int, accessJti: string, refreshJti: string)
    requires Sound(k)
    requires jtiA != "" && jtiR != ""
    requires now < issuedAt + ACCESS_TTL
    requires Some(Str(jtiR)) !in revoked
    requires now <= now2 < issuedAt + REFRESH_TTL
    ensures var p := IssuePair(k, userId, roles, issuedAt, jtiA, jtiR);
            var d := Validate(Some(BEARER + p.access), Some(p.refresh), k, revoked, now);
            && d.Attach?
            && var e := Erase(Some(d.user), Some(p.refresh), k, revoked, now);
            && e.result.Success?
            && e.revoked == revoked + {Some(Str(jtiA)), Some(Str(jtiR))}
            && Validate(Some(BEARER + p.access), Some(p.refresh), k, e.revoked, now2).Reject?
            && Rotate(k, p.refresh, e.revoked, now2, later2, accessJti, refreshJti).result
               == Failure(Http(UNAUTHORIZED, REVOKED_DETAIL))
  {
    var p := IssuePair(k, userId, roles, issuedAt, jtiA, jtiR);
    IssuedPairAccepted(k, userId, roles, issuedAt, jtiA, jtiR, revoked, now);
    var pa := AccessPayload(userId, roles, issuedAt, jtiA);
    var pr := RefreshPayload(userId, roles, issuedAt, jtiR);
    CreatedTokenLifetime(k, pa, issuedAt + ACCESS_TTL, now);
    CreatedTokenLifetime(k, pr, issuedAt + REFRESH_TTL, now);
    CreatedTokenLifetime(k, pr, issuedAt + REFRESH_TTL, now2);
    var e := Erase(Some(Validate(Some(BEARER + p.access), Some(p.refresh), k, revoked, now).user), Some(p.refresh), k, revoked, now);
    assert Some(Str(jtiR)) in e.revoked;
    RevokedPairRejected(k, userId, roles, issuedAt, jtiA, jtiR, e.revoked, now2);
  }
}
