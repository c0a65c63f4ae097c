/**
 * The per-request validation of src/security/middleware.py: the module-level
 * revocation set `blacklist_jti` and the decision `jwt_validation_middleware`
 * takes from the `Authorization` header (a bearer token, section 2.1 of
 * RFC 6750), the `refresh_token` cookie and that set. The decision is a pure
 * function; the effect of `Attach` is to set `request.state.user` before the
 * handler runs.
 */
module Middleware {
  import opened Wrappers
  import opened Jwt

  /** What `blacklist_jti` holds: the value of a `jti` claim, or `None` when there was none. */
  type TokenId = Option<Claim>

  /** The process-wide revocation registry `blacklist_jti`. Entries are never removed. */
  class Blacklist {
    var jtis: set<TokenId>

    constructor ()
      ensures jtis == {}
    {
      jtis := {};
    }
  }

  /** The dictionary stored in `request.state.user`. */
  datatype RequestUser = RequestUser(id: Option<Claim>, roles: Claim, jti: Option<Claim>)

  /**
   * `PassThrough`: the handler runs with no user attached; `Reject`:
   * a 401 response (the handler does not run); `Attach`: the handler runs with `user` attached.
   */
  datatype Decision = PassThrough | Reject(detail: string) | Attach(user: RequestUser)

  const BEARER := "Bearer "
  const EXPIRED_DETAIL := "No token found. Token must be expired"
  const INVALID_TOKEN_DETAIL := "Invalid crédentials"
  const INVALID_CREDENTIALS := "Invalid credentials"

  predicate StartsWith(s: string, prefix: string) {
    |prefix| <= |s| && s[..|prefix|] == prefix
  }

  /** The index of the first occurrence of `c` in `s`. */
  function IndexOf(s: string, c: char): (i: nat)
    requires c in s
    ensures i < |s| && s[i] == c && c !in s[..i]
  {
    if s[0] == c then 0
    else
      assert c in s[1..] by { var j :| 0 <= j < |s| && s[j] == c; assert s[1..][j - 1] == c; }
      var i := 1 + IndexOf(s[1..], c);
      assert s[..i] == [s[0]] + s[1..][..i - 1];
      i
  }

  /** `auth.split(" ", 1)[1]` on a header that has a space: everything after the first one. */
  function BearerToken(header: string): string
    requires ' ' in header
  {
    header[IndexOf(header, ' ') + 1..]
  }

  /** On a header that starts with `Bearer `, the token is everything after that prefix. */
  lemma {:induction false} BearerTokenAfterPrefix(header: string)
    requires StartsWith(header, BEARER)
    ensures ' ' in header
    ensures BearerToken(header) == header[|BEARER|..]
  {
    assert header[6] == ' ';
    var i := IndexOf(header, ' ');
    assert header[..6] == "Bearer";
  }

  /** `roles = payload.get("roles", [])`. */
  function RolesClaim(c: ClaimSet): Claim {
    Get(c, "roles").GetOr(StrList([]))
  }

  /** `if isinstance(roles, str): roles = [roles]`. */
  function WrapString(roles: Claim): (r: Claim)
    ensures !r.Str?
    ensures r.StrList? && roles.Str? ==> r.items == [roles.s]
    ensures !roles.Str? ==> r == roles
  {
    if roles.Str? then StrList([roles.s]) else roles
  }

  /** The revocation test of line 26: it consults only the refresh token's `jti`. */
  predicate RevokedPair(access: ClaimSet, refresh: ClaimSet, revoked: set<TokenId>) {
    Truthy(Get(access, "jti")) && Get(refresh, "jti") in revoked
  }

  /** The pair-mismatch test of line 31, with its `"sud"` key. */
  predicate MismatchedPair(access: ClaimSet, refresh: ClaimSet) {
    RolesClaim(access) != RolesClaim(refresh) && Get(access, "sud") != Get(refresh, "sub")
  }

  function RejectFor(e: DecodeError): Decision {
    match e
    case Expired => Reject(EXPIRED_DETAIL)
    case Invalid => Reject(INVALID_TOKEN_DETAIL)
  }

  /** `jwt_validation_middleware`, without the call to the next handler. */
  function Validate(header: Option<string>, cookie: Option<string>, k: Codec, revoked: set<TokenId>, now: int): (d: Decision)
    ensures cookie.None? || cookie == Some("") ==> d == PassThrough
    ensures header.None? || !StartsWith(header.value, BEARER) ==> d == PassThrough
    ensures !d.PassThrough? ==> cookie.Some? && cookie.value != "" && header.Some? && StartsWith(header.value, BEARER)
    ensures d.Attach? ==>
              var access := Decode(k, header.value[|BEARER|..], now);
              var refresh := Decode(k, cookie.value, now);
              && access.Success? && refresh.Success?
              && !RevokedPair(access.value, refresh.value, revoked)
              && !MismatchedPair(access.value, refresh.value)
              && d.user == RequestUser(Get(access.value, "sub"), WrapString(RolesClaim(access.value)), Get(access.value, "jti"))
    ensures cookie.Some? && cookie.value != "" && header.Some? && StartsWith(header.value, BEARER) ==>
              var access := Decode(k, header.value[|BEARER|..], now);
              var refresh := Decode(k, cookie.value, now);
              && !d.PassThrough?
              && (d.Attach? <==>
                    access.Success? && refresh.Success?
                    && !RevokedPair(access.value, refresh.value, revoked)
                    && !MismatchedPair(access.value, refresh.value))
              && (access.Failure? ==> d == RejectFor(access.error))
              && (access.Success? && refresh.Failure? ==> d == RejectFor(refresh.error))
              && (access.Success? && refresh.Success? && !d.Attach? ==> d == Reject(INVALID_CREDENTIALS))
  {
    if cookie.None? || cookie.value == "" then PassThrough
    else if header.None? || header.value == "" || !StartsWith(header.value, BEARER) then PassThrough
    else
      BearerTokenAfterPrefix(header.value);
      var token := BearerToken(header.value);
      match Decode(k, token, now)
      case Failure(e) => RejectFor(e)
      case Success(payload) =>
        match Decode(k, cookie.value, now)
        case Failure(e) => RejectFor(e)
        case Success(refreshPayload) =>
          if RevokedPair(payload, refreshPayload, revoked) then Reject(INVALID_CREDENTIALS)
          else if MismatchedPair(payload, refreshPayload) then Reject(INVALID_CREDENTIALS)
          else Attach(RequestUser(Get(payload, "sub"), WrapString(RolesClaim(payload)), Get(payload, "jti")))
  }

  /** Either token failing to decode rejects the request; the handler never runs. */
  lemma DecodeFailureRejects(header: string, cookie: string, k: Codec, revoked: set<TokenId>, now: int)
    requires StartsWith(header, BEARER) && cookie != ""
    requires Decode(k, header[|BEARER|..], now).Failure? || Decode(k, cookie, now).Failure?
    ensures Validate(Some(header), Some(cookie), k, revoked, now).Reject?
  {
    BearerTokenAfterPrefix(header);
  }

  /**
   * Revocation looks only at the refresh token's `jti`, and only when the access
   * token has a truthy `jti`.
   */
  lemma RevocationTest(header: string, cookie: string, k: Codec, revoked: set<TokenId>, now: int)
    requires StartsWith(header, BEARER) && cookie != ""
    requires Decode(k, header[|BEARER|..], now).Success? && Decode(k, cookie, now).Success?
    ensures var access := Decode(k, header[|BEARER|..], now).value;
            var refresh := Decode(k, cookie, now).value;
            Validate(Some(header), Some(cookie), k, revoked, now) ==
              if Truthy(Get(access, "jti")) && Get(refresh, "jti") in revoked then Reject(INVALID_CREDENTIALS)
              else Validate(Some(header), Some(cookie), k, {}, now)
  {
    BearerTokenAfterPrefix(header);
  }

  /**
   * The `"sud"` quirk: on an access payload without a `sud` claim (no created token
   * has one) and a refresh payload with a `sub`, the mismatch test is "the roles
   * differ"; subjects are not compared.
   */
  lemma {:induction false} SudQuirk(access: ClaimSet, refresh: ClaimSet)
    requires "sud" !in access && "sub" in refresh
    ensures MismatchedPair(access, refresh) <==> RolesClaim(access) != RolesClaim(refresh)
  {
    assert Get(access, "sud") == None;
    assert Get(refresh, "sub") != None;
  }

  /**
   * Consequence of the quirk: two tokens with the same roles but different
   * subjects are accepted, and the attached user carries the access token's subject.
   */
  lemma {:induction false} SubjectMismatchAccepted(k: Codec, a: Claim, b: Claim, roles: Claim, issuedAt: int, jtiA: string, jtiR: string, revoked: set<TokenId>, now: int)
    requires Sound(k)
    requires now < issuedAt + ACCESS_TTL
    requires Some(Str(jtiR)) !in revoked
    ensures var header := BEARER + CreateAccessToken(k, a, roles, issuedAt, jtiA);
            var cookie := CreateRefreshToken(k, b, roles, issuedAt, jtiR);
            Validate(Some(header), Some(cookie), k, revoked, now) ==
              Attach(RequestUser(Some(Str(Render(a))), WrapString(roles), Some(Str(jtiA))))
  {
    var header := BEARER + CreateAccessToken(k, a, roles, issuedAt, jtiA);
    assert StartsWith(header, BEARER);
    assert header[|BEARER|..] == CreateAccessToken(k, a, roles, issuedAt, jtiA);
    var pa := AccessPayload(a, roles, issuedAt, jtiA);
    var pr := RefreshPayload(b, roles, issuedAt, jtiR);
    CreatedTokenLifetime(k, pa, issuedAt + ACCESS_TTL, now);
    CreatedTokenLifetime(k, pr, issuedAt + REFRESH_TTL, now);
    assert k.encode(pr) != "";
    BearerTokenAfterPrefix(header);
    assert RolesClaim(pa) == RolesClaim(pr) == roles;
    assert !MismatchedPair(pa, pr);
    assert !RevokedPair(pa, pr, revoked);
  }

  /** A live pair issued together, whose refresh `jti` is not revoked, resolves a user. */
  lemma IssuedPairAccepted(k: Codec, userId: Claim, roles: Claim, issuedAt: int, jtiA: string, jtiR: string, revoked: set<TokenId>, now: int)
    requires Sound(k)
    requires now < issuedAt + ACCESS_TTL
    requires Some(Str(jtiR)) !in revoked
    ensures var p := IssuePair(k, userId, roles, issuedAt, jtiA, jtiR);
            Validate(Some(BEARER + p.access), Some(p.refresh), k, revoked, now) ==
              Attach(RequestUser(Some(Str(Render(userId))), WrapString(roles), Some(Str(jtiA))))
  {
    SubjectMismatchAccepted(k, userId, userId, roles, issuedAt, jtiA, jtiR, revoked, now);
  }

  /** Once a pair's refresh `jti` is revoked, every request presenting that pair is rejected. */
  lemma {:induction false} RevokedPairRejected(k: Codec, userId: Claim, roles: Claim, issuedAt: int, jtiA: string, jtiR: string, revoked: set<TokenId>, now: int)
    requires Sound(k)
    requires jtiA != ""
    requires Some(Str(jtiR)) in revoked
    ensures var p := IssuePair(k, userId, roles, issuedAt, jtiA, jtiR);
            Validate(Some(BEARER + p.access), Some(p.refresh), k, revoked, now).Reject?
  {
    var p := IssuePair(k, userId, roles, issuedAt, jtiA, jtiR);
    var header := BEARER + p.access;
    assert StartsWith(header, BEARER);
    assert header[|BEARER|..] == p.access;
    var pa := AccessPayload(userId, roles, issuedAt, jtiA);
    var pr := RefreshPayload(userId, roles, issuedAt, jtiR);
    CreatedTokenLifetime(k, pa, issuedAt + ACCESS_TTL, now);
    CreatedTokenLifetime(k, pr, issuedAt + REFRESH_TTL, now);
    if now < issuedAt + ACCESS_TTL {
      assert RevokedPair(pa, pr, revoked);
    }
    BearerTokenAfterPrefix(header);
  }
}
