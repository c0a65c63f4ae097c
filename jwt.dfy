/**
 * The session-token codec of src/security/auth.py: the claims a token carries,
 * how access and refresh tokens are created, and how a presented token is
 * decoded. The RS256 signature (section 3.3 of RFC 7518) is not modelled: the
 * codec is a pair of functions of which `Sound` demands only that decoding
 * undoes encoding. Time is a parameter `now`, in seconds; token ids (`jti`,
 * section 4.1.7 of RFC 7519) are parameters too, standing for `uuid4()`.
 */
module Jwt {
  import opened Wrappers
  import Text

  /** A claim value as JSON gives it back: a string, a list of strings or an integer. */
  datatype Claim = Str(s: string) | StrList(items: seq<string>) | Int(n: int)

  /** A decoded payload: claim name to value. */
  type ClaimSet = map<string, Claim>

  /** `payload.get(key)`. */
  function Get(c: ClaimSet, key: string): (v: Option<Claim>)
    ensures v.Some? <==> key in c
    ensures v.Some? ==> v.value == c[key]
  {
    if key in c then Some(c[key]) else None
  }

  /** Python truthiness of `payload.get(key)`: `None`, `""`, `[]` and `0` are false. */
  predicate Truthy(v: Option<Claim>) {
    match v
    case None => false
    case Some(Str(s)) => s != ""
    case Some(StrList(l)) => l != []
    case Some(Int(n)) => n != 0
  }

  function QuotedList(items: seq<string>): string {
    if items == [] then ""
    else if |items| == 1 then "'" + items[0] + "'"
    else "'" + items[0] + "', " + QuotedList(items[1..])
  }

  /** `str(value)`, used for the `sub` claim (`"sub": str(user_id)`). */
  function Render(v: Claim): (s: string)
    ensures v.Str? ==> s == v.s
  {
    match v
    case Str(s) => s
    case Int(n) => Text.IntText(n)
    case StrList(items) => "[" + QuotedList(items) + "]"
  }

  const ALGORITHM := "RS256"
  const ACCESS_TOKEN_EXPIRE_MINUTES := 60
  const REFRESH_TOKEN_EXPIRE_DAYS := 1
  /** Lifetimes in seconds. */
  const ACCESS_TTL := ACCESS_TOKEN_EXPIRE_MINUTES * 60
  const REFRESH_TTL := REFRESH_TOKEN_EXPIRE_DAYS * 24 * 3600

  const ACCESS_TAG := "access_token"
  const REFRESH_TAG := "refresh_token"

  /** `jwt.encode` with the private key and `jwt.decode` with the public key. */
  datatype Codec = Codec(encode: ClaimSet -> string, decode: string -> Option<ClaimSet>)

  /**
   * Decoding a token the codec produced gives back exactly its claims, and a
   * produced token is never empty (a compact JWS always holds two `.` separators).
   */
  ghost predicate Sound(k: Codec) {
    forall c :: k.decode(k.encode(c)) == Some(c) && k.encode(c) != ""
  }

  lemma {:induction false} EncodeInjective(k: Codec, a: ClaimSet, b: ClaimSet)
    requires Sound(k)
    requires k.encode(a) == k.encode(b)
    ensures a == b
  {
    assert k.decode(k.encode(a)) == Some(a);
    assert k.decode(k.encode(b)) == Some(b);
  }

  /** `jwt.ExpiredSignatureError` and `jwt.InvalidTokenError`. */
  datatype DecodeError = Expired | Invalid

  /**
   * `jwt.decode(token, PUBLIC_KEY, algorithms=[ALGORITHM])`: a token that does not
   * verify is invalid; an `exp` claim must be an integer, and the token is expired
   * once `exp <= now`.
   */
  function Decode(k: Codec, token: string, now: int): (r: Result<ClaimSet, DecodeError>)
    ensures r.Success? ==> k.decode(token) == Some(r.value)
    ensures r.Success? ==> "exp" !in r.value || (r.value["exp"].Int? && now < r.value["exp"].n)
    ensures r == Failure(Expired) ==> k.decode(token).Some?
  {
    match k.decode(token)
    case None => Failure(Invalid)
    case Some(c) =>
      if "exp" !in c then Success(c)
      else if !c["exp"].Int? then Failure(Invalid)
      else if c["exp"].n <= now then Failure(Expired)
      else Success(c)
  }

  /** The payload every created token carries: exactly `sub`, `roles`, `exp`, `jti` and `type`. */
  function Payload(userId: Claim, roles: Claim, exp: int, jti: string, tag: string): (c: ClaimSet)
    ensures c.Keys == {"sub", "roles", "exp", "jti", "type"}
    ensures c["sub"] == Str(Render(userId)) && c["roles"] == roles && c["exp"] == Int(exp)
    ensures c["jti"] == Str(jti) && c["type"] == Str(tag)
  {
    map["sub" := Str(Render(userId)), "roles" := roles, "exp" := Int(exp), "jti" := Str(jti), "type" := Str(tag)]
  }

  function AccessPayload(userId: Claim, roles: Claim, now: int, jti: string): ClaimSet {
    Payload(userId, roles, now + ACCESS_TTL, jti, ACCESS_TAG)
  }

  function RefreshPayload(userId: Claim, roles: Claim, now: int, jti: string): ClaimSet {
    Payload(userId, roles, now + REFRESH_TTL, jti, REFRESH_TAG)
  }

  /** `Auth.create_access_token`: expires `ACCESS_TTL` seconds after `now`. */
  function CreateAccessToken(k: Codec, userId: Claim, roles: Claim, now: int, jti: string): (t: string)
    ensures Sound(k) ==> Decode(k, t, now) == Success(AccessPayload(userId, roles, now, jti))
  {
    k.encode(AccessPayload(userId, roles, now, jti))
  }

  /** `Auth.create_refresh_token`: expires `REFRESH_TTL` seconds after `now`. */
  function CreateRefreshToken(k: Codec, userId: Claim, roles: Claim, now: int, jti: string): (t: string)
    ensures Sound(k) ==> Decode(k, t, now) == Success(RefreshPayload(userId, roles, now, jti))
  {
    k.encode(RefreshPayload(userId, roles, now, jti))
  }

  /** `Auth.jwt_encode`: the same token as `create_access_token`. */
  function JwtEncode(k: Codec, userId: Claim, roles: Claim, now: int, jti: string): (t: string)
    ensures t == CreateAccessToken(k, userId, roles, now, jti)
  {
    k.encode(Payload(userId, roles, now + ACCESS_TOKEN_EXPIRE_MINUTES * 60, jti, "access_token"))
  }

  /** `Auth.jwt_decode`. */
  function JwtDecode(k: Codec, token: string, now: int): Result<ClaimSet, DecodeError> {
    Decode(k, token, now)
  }

  /** An access token and a refresh token issued together. */
  datatype TokenPair = TokenPair(access: string, refresh: string)

  function IssuePair(k: Codec, userId: Claim, roles: Claim, now: int, accessJti: string, refreshJti: string): TokenPair {
    TokenPair(CreateAccessToken(k, userId, roles, now, accessJti),
              CreateRefreshToken(k, userId, roles, now, refreshJti))
  }

  /** A created token decodes to its payload until it expires, and is expired from then on. */
  lemma {:induction false} CreatedTokenLifetime(k: Codec, c: ClaimSet, exp: int, now: int)
    requires Sound(k)
    requires "exp" in c && c["exp"] == Int(exp)
    ensures now < exp ==> Decode(k, k.encode(c), now) == Success(c)
    ensures exp <= now ==> Decode(k, k.encode(c), now) == Failure(Expired)
  {
    assert k.decode(k.encode(c)) == Some(c);
  }

  /**
   * Pair invariant: while both are live, the two tokens of a pair decode to the
   * same `sub` and the same `roles`, with the tags `access_token` and
   * `refresh_token`, and the refresh token outlives the access token.
   */
  lemma {:induction false} PairInvariant(k: Codec, userId: Claim, roles: Claim, issuedAt: int, accessJti: string, refreshJti: string, now: int)
    requires Sound(k)
    requires now < issuedAt + ACCESS_TTL
    ensures var p := IssuePair(k, userId, roles, issuedAt, accessJti, refreshJti);
            var a := Decode(k, p.access, now);
            var r := Decode(k, p.refresh, now);
            && a.Success? && r.Success?
            && Get(a.value, "sub") == Get(r.value, "sub") == Some(Str(Render(userId)))
            && Get(a.value, "roles") == Get(r.value, "roles") == Some(roles)
            && Get(a.value, "type") == Some(Str(ACCESS_TAG))
            && Get(r.value, "type") == Some(Str(REFRESH_TAG))
            && a.value["exp"].n < r.value["exp"].n
  {
    var pa := AccessPayload(userId, roles, issuedAt, accessJti);
    var pr := RefreshPayload(userId, roles, issuedAt, refreshJti);
    CreatedTokenLifetime(k, pa, issuedAt + ACCESS_TTL, now);
    CreatedTokenLifetime(k, pr, issuedAt + REFRESH_TTL, now);
  }

  /** No created token carries the claim `sud`. */
  lemma NoSudClaim(userId: Claim, roles: Claim, exp: int, jti: string, tag: string)
    ensures Get(Payload(userId, roles, exp, jti, tag), "sud") == None
  {
  }
}
