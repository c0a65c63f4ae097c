/**
 * `get_current_user` of src/security/auth.py: the dependency that turns the
 * user attached by the middleware and the `refresh_token` cookie into the
 * identity a protected operation receives.
 */
module CurrentUser {
  import opened Wrappers
  import opened Http
  import opened Jwt
  import opened Roles
  import Text
  import opened Middleware

  /** `current_user`: the refresh token's `sub` and a set of roles. */
  datatype Identity = Identity(id: Option<Claim>, roles: set<Role>)

  const NOT_AUTHENTICATED := "Non authentifié"

  /** What `for role in refresh_decoded.get("roles", [])` iterates over: a string yields its characters; an integer cannot be iterated. */
  function Iterated(roles: Claim): Option<seq<string>> {
    match roles
    case StrList(items) => Some(items)
    case Str(s) => Some(seq(|s|, i requires 0 <= i < |s| => [s[i]]))
    case Int(_) => None
  }

  /** `user_roles`: the upper-cased names, duplicates merged. */
  function UpperNames(names: seq<string>): set<string> {
    set i | 0 <= i < |names| :: Text.Upper(names[i])
  }

  /** `[RoleEnum[role] for role in user_roles]`: a `KeyError` on a name that is not a role. */
  function ToRoles(names: set<string>): (r: Result<set<Role>, Failure>)
    ensures r.Success? <==> forall n :: n in names ==> Parse(n).Some?
    ensures r.Success? ==> forall x :: x in r.value <==> Name(x) in names
  {
    if forall n :: n in names ==> Parse(n).Some? then
      Success(set x | x in {Admin, OpColis, OpStock} && Name(x) in names)
    else
      Failure(Crash("KeyError"))
  }

  /** `get_current_user`. */
  function Resolve(user: Option<RequestUser>, cookie: Option<string>, k: Codec, now: int): (r: Result<Identity, Failure>)
    ensures user.None? || cookie.None? || cookie == Some("") ==> r == Failure(Http(UNAUTHORIZED, NOT_AUTHENTICATED))
    ensures user.Some? && cookie.Some? && cookie.value != "" && Decode(k, cookie.value, now).Success? ==>
              var refresh := Decode(k, cookie.value, now).value;
              (user.value.id != Get(refresh, "sub") || Some(user.value.roles) != Get(refresh, "roles")) ==>
                r == Failure(Http(UNAUTHORIZED, NOT_AUTHENTICATED))
    ensures r.Success? ==>
              && user.Some? && cookie.Some? && Decode(k, cookie.value, now).Success?
              && var refresh := Decode(k, cookie.value, now).value;
              && r.value.id == Get(refresh, "sub") == user.value.id
              && Get(refresh, "roles") == Some(user.value.roles)
              && Iterated(user.value.roles).Some?
              && forall x :: x in r.value.roles <==> Name(x) in UpperNames(Iterated(user.value.roles).value)
    ensures r.Success? <==>
              && user.Some? && cookie.Some? && cookie.value != "" && Decode(k, cookie.value, now).Success?
              && var refresh := Decode(k, cookie.value, now).value;
              && user.value.id == Get(refresh, "sub")
              && Some(user.value.roles) == Get(refresh, "roles")
              && Iterated(user.value.roles).Some?
              && forall n :: n in UpperNames(Iterated(user.value.roles).value) ==> Parse(n).Some?
    ensures user.Some? && cookie.Some? && cookie.value != "" && Decode(k, cookie.value, now).Failure? ==>
              r.Failure? && r.error.Crash?
    ensures user.Some? && cookie.Some? && cookie.value != "" && Decode(k, cookie.value, now).Success? ==>
              var refresh := Decode(k, cookie.value, now).value;
              user.value.id == Get(refresh, "sub") && Some(user.value.roles) == Get(refresh, "roles") ==>
                && (Iterated(user.value.roles).None? ==> r == Failure(Crash("TypeError")))
                && (Iterated(user.value.roles).Some? &&
                    (exists n :: n in UpperNames(Iterated(user.value.roles).value) && Parse(n).None?) ==>
                      r == Failure(Crash("KeyError")))
  {
    if user.None? || cookie.None? || cookie.value == "" then Failure(Http(UNAUTHORIZED, NOT_AUTHENTICATED))
    else
      match JwtDecode(k, cookie.value, now)
      case Failure(_) => Failure(Crash("jwt.InvalidTokenError"))
      case Success(refresh) =>
        if user.value.id != Get(refresh, "sub") then Failure(Http(UNAUTHORIZED, NOT_AUTHENTICATED))
        else if Some(user.value.roles) != Get(refresh, "roles") then Failure(Http(UNAUTHORIZED, NOT_AUTHENTICATED))
        else
          match Iterated(Get(refresh, "roles").GetOr(StrList([])))
          case None => Failure(Crash("TypeError"))
          case Some(names) =>
            match ToRoles(UpperNames(names))
            case Failure(e) => Failure(e)
            case Success(roles) => Success(Identity(Get(refresh, "sub"), roles))
  }

  /** `get_current_user`, with the loop that collects the upper-cased role names. */
  method GetCurrentUser(user: Option<RequestUser>, cookie: Option<string>, k: Codec, now: int) returns (r: Result<Identity, Failure>)
    ensures r == Resolve(user, cookie, k, now)
  {
    if user.None? || cookie.None? || cookie.value == "" {
      return Failure(Http(UNAUTHORIZED, NOT_AUTHENTICATED));
    }
    var decoded := JwtDecode(k, cookie.value, now);
    if decoded.Failure? {
      return Failure(Crash("jwt.InvalidTokenError"));
    }
    var refresh := decoded.value;
    var sub := user.value.id;
    var subRefresh := Get(refresh, "sub");
    if sub != subRefresh {
      return Failure(Http(UNAUTHORIZED, NOT_AUTHENTICATED));
    }
    if Some(user.value.roles) != Get(refresh, "roles") {
      return Failure(Http(UNAUTHORIZED, NOT_AUTHENTICATED));
    }
    var listed := Iterated(Get(refresh, "roles").GetOr(StrList([])));
    if listed.None? {
      return Failure(Crash("TypeError"));
    }
    var names := listed.value;
    var userRoles: set<string> := {};
    var i := 0;
    while i < |names|
      invariant 0 <= i <= |names|
      invariant userRoles == UpperNames(names[..i])
    {
      assert names[..i + 1] == names[..i] + [names[i]];
      userRoles := userRoles + {Text.Upper(names[i])};
      i := i + 1;
    }
    assert names[..|names|] == names;
    var roles := ToRoles(userRoles);
    if roles.Failure? {
      return Failure(roles.error);
    }
    r := Success(Identity(subRefresh, roles.value));
  }

  lemma {:induction false} UpperNamesOfRoles(rs: seq<Role>)
    ensures forall x :: x in rs <==> Name(x) in UpperNames(Names(rs))
    ensures forall n :: n in UpperNames(Names(rs)) ==> Parse(n).Some?
  {
    forall x ensures x in rs <==> Name(x) in UpperNames(Names(rs)) {
      if x in rs {
        var i :| 0 <= i < |rs| && rs[i] == x;
        UpperName(x);
        assert Text.Upper(Names(rs)[i]) == Name(x);
      }
      if Name(x) in UpperNames(Names(rs)) {
        var i :| 0 <= i < |rs| && Text.Upper(Names(rs)[i]) == Name(x);
        UpperName(rs[i]);
        NameInjective(rs[i], x);
      }
    }
    forall n | n in UpperNames(Names(rs)) ensures Parse(n).Some? {
      var i :| 0 <= i < |rs| && Text.Upper(Names(rs)[i]) == n;
      UpperName(rs[i]);
      ParseName(rs[i]);
    }
  }

  /**
   * From issued pair to identity: a live pair issued for `userId` with the names of
   * `rs` as its roles claim passes the middleware, and `get_current_user` then
   * resolves the identity whose id is the token subject and whose roles are
   * exactly the roles of `rs`.
   */
  lemma {:induction false} IssuedPairIdentity(k: Codec, userId: Claim, rs: seq<Role>, issuedAt: int, jtiA: string, jtiR: string, revoked: set<TokenId>, now: int)
    requires Sound(k)
    requires now < issuedAt + ACCESS_TTL
    requires Some(Str(jtiR)) !in revoked
    ensures var p := IssuePair(k, userId, StrList(Names(rs)), issuedAt, jtiA, jtiR);
            var d := Validate(Some(BEARER + p.access), Some(p.refresh), k, revoked, now);
            && d.Attach?
            && var id := Resolve(Some(d.user), Some(p.refresh), k, now);
            && id.Success?
            && id.value.id == Some(Str(Render(userId)))
            && forall x :: x in id.value.roles <==> x in rs
  {
    var roles := StrList(Names(rs));
    var p := IssuePair(k, userId, roles, issuedAt, jtiA, jtiR);
    IssuedPairAccepted(k, userId, roles, issuedAt, jtiA, jtiR, revoked, now);
    var pr := RefreshPayload(userId, roles, issuedAt, jtiR);
    CreatedTokenLifetime(k, pr, issuedAt + REFRESH_TTL, now);
    assert Decode(k, p.refresh, now) == Success(pr);
    UpperNamesOfRoles(rs);
  }
}
