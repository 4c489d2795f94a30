/**
 * The gateway admin API: token issuance with the claims {uid, exp, admin},
 * where `exp` is a NumericDate (seconds since the epoch, section 4.1.4 of
 * RFC 7519), and the request validation of the token endpoint.
 */
module GatewayAdmin {
  import opened Wrappers
  import opened Gin

  /** The settings `NewGatewayAdminAPI` fixes for every token it issues. */
  datatype AdminConfig = AdminConfig(jwtSecret: string, tokenExpiryMinutes: int)

  /** An instant as Go's `time.Time` holds it: Unix seconds and a nanosecond part. */
  datatype Instant = Instant(unixSec: int, nsec: int)

  predicate ValidInstant(t: Instant) {
    0 <= t.nsec < NanosPerSecond
  }

  const NanosPerSecond: int := 1_000_000_000
  const NanosPerMinute: int := 60_000_000_000
  const TwoTo63: int := 0x8000_0000_0000_0000
  const TwoTo64: int := 0x1_0000_0000_0000_0000

  predicate IsInt64(x: int) {
    -TwoTo63 <= x < TwoTo63
  }

  /** Two's complement wrap-around of Go's `int64` arithmetic. */
  function WrapInt64(x: int): (r: int)
    ensures IsInt64(r)
    ensures IsInt64(x) ==> r == x
    ensures (r - x) % TwoTo64 == 0
  {
    var m := (x + TwoTo63) % TwoTo64;
    m - TwoTo63
  }

  /** Go's `/` on integers: the quotient truncated toward zero. */
  function TruncDiv(a: int, b: int): (q: int)
    requires b > 0
  {
    if a >= 0 then a / b else -((-a) / b)
  }

  /** `time.Duration(tokenExpiryMinutes) * time.Minute`, in nanoseconds. */
  function ExpiryDuration(minutes: int): (d: int)
    requires IsInt64(minutes)
    ensures IsInt64(d)
    ensures (d - minutes * NanosPerMinute) % TwoTo64 == 0
    ensures IsInt64(minutes * NanosPerMinute) ==> d == minutes * NanosPerMinute
  {
    WrapInt64(minutes * NanosPerMinute)
  }

  /** `t.Add(d).Unix()`: seconds of the instant `d` nanoseconds after `t`. */
  function AddUnix(t: Instant, d: int): (sec: int)
    requires ValidInstant(t)
    ensures sec * NanosPerSecond <= t.unixSec * NanosPerSecond + t.nsec + d < (sec + 1) * NanosPerSecond
  {
    var dsec := TruncDiv(d, NanosPerSecond);
    var nsec := t.nsec + (d - dsec * NanosPerSecond);
    if nsec >= NanosPerSecond then t.unixSec + dsec + 1
    else if nsec < 0 then t.unixSec + dsec - 1
    else t.unixSec + dsec
  }

  /** The claims of a token issued at `now`. */
  function TokenClaims(cfg: AdminConfig, uid: string, admin: bool, now: Instant): (claims: Json)
    requires IsInt64(cfg.tokenExpiryMinutes) && ValidInstant(now)
    ensures claims.Keys == {"uid", "exp", "admin"}
    ensures claims["uid"] == JStr(uid) && claims["admin"] == JBool(admin)
    ensures claims["exp"].JInt?
  {
    map["uid" := JStr(uid),
        "exp" := JInt(AddUnix(now, ExpiryDuration(cfg.tokenExpiryMinutes))),
        "admin" := JBool(admin)]
  }

  /** Largest expiry, in minutes, whose duration fits in an `int64` nanosecond count. */
  const MaxExpiryMinutes: int := (TwoTo63 - 1) / NanosPerMinute

  /** Within the representable range, `exp` is `now` plus the expiry in seconds. */
  lemma ExpiryIsMinutesLater(cfg: AdminConfig, uid: string, admin: bool, now: Instant)
    requires ValidInstant(now)
    requires -MaxExpiryMinutes <= cfg.tokenExpiryMinutes <= MaxExpiryMinutes
    ensures TokenClaims(cfg, uid, admin, now)["exp"] == JInt(now.unixSec + 60 * cfg.tokenExpiryMinutes)
  {
    var m := cfg.tokenExpiryMinutes;
    var d := m * NanosPerMinute;
    assert IsInt64(d);
    assert ExpiryDuration(m) == d;
    var sec := AddUnix(now, d);
    assert d == (60 * m) * NanosPerSecond;
    assert sec == now.unixSec + 60 * m by {
      assert sec * NanosPerSecond <= (now.unixSec + 60 * m) * NanosPerSecond + now.nsec < (sec + 1) * NanosPerSecond;
      UniqueSecond(sec, now.unixSec + 60 * m, now.nsec);
    }
  }

  lemma UniqueSecond(sec: int, base: int, nsec: int)
    requires 0 <= nsec < NanosPerSecond
    requires sec * NanosPerSecond <= base * NanosPerSecond + nsec < (sec + 1) * NanosPerSecond
    ensures sec == base
  {
    var x := sec - base;
    assert x * NanosPerSecond <= nsec < (x + 1) * NanosPerSecond;
    assert x <= 0 || x * NanosPerSecond >= NanosPerSecond;
    assert x >= 0 || (x + 1) * NanosPerSecond <= 0;
  }

  /**
   * An expiry a minute beyond that range wraps to a negative duration:
   * the token expires before it is issued.
   */
  lemma ExpiryWrapsBeyondRange(cfg: AdminConfig, uid: string, admin: bool, now: Instant)
    requires ValidInstant(now)
    requires cfg.tokenExpiryMinutes == MaxExpiryMinutes + 1
    ensures TokenClaims(cfg, uid, admin, now)["exp"].n < now.unixSec
  {
    var m := cfg.tokenExpiryMinutes;
    assert m * NanosPerMinute - TwoTo64 == ExpiryDuration(m);
    assert ExpiryDuration(m) < -NanosPerSecond;
  }

  /**
   * The signing primitive: HS256 over the claims with the secret, as an
   * uninterpreted function that may fail.
   */
  type Signer = (Json, string) -> Result<string, string>

  /**
   * `generateJWToken`: the claims of a token issued at `now`, signed with
   * the configured secret.
   */
  function GenerateJwToken(cfg: AdminConfig, uid: string, admin: bool, now: Instant, sign: Signer): (r: Result<string, string>)
    requires IsInt64(cfg.tokenExpiryMinutes) && ValidInstant(now)
    ensures exists exp: int {:trigger JInt(exp)} ::
      r == sign(map["uid" := JStr(uid), "exp" := JInt(exp), "admin" := JBool(admin)], cfg.jwtSecret)
  {
    var claims := TokenClaims(cfg, uid, admin, now);
    assert claims == map["uid" := JStr(uid), "exp" := JInt(claims["exp"].n), "admin" := JBool(admin)];
    sign(claims, cfg.jwtSecret)
  }

  /**
   * Within the representable expiry range, the signer is handed exactly
   * `{uid, exp: now + 60 * minutes, admin}` and the shared secret.
   */
  lemma GenerateJwTokenClaims(cfg: AdminConfig, uid: string, admin: bool, now: Instant, sign: Signer)
    requires ValidInstant(now)
    requires -MaxExpiryMinutes <= cfg.tokenExpiryMinutes <= MaxExpiryMinutes
    ensures GenerateJwToken(cfg, uid, admin, now, sign) ==
      sign(map["uid" := JStr(uid), "exp" := JInt(now.unixSec + 60 * cfg.tokenExpiryMinutes), "admin" := JBool(admin)],
           cfg.jwtSecret)
  {
    ExpiryIsMinutesLater(cfg, uid, admin, now);
    var claims := TokenClaims(cfg, uid, admin, now);
    assert claims == map["uid" := JStr(uid), "exp" := JInt(now.unixSec + 60 * cfg.tokenExpiryMinutes), "admin" := JBool(admin)];
  }

  /**
   * Tokens for the same user, flag and secret whose expiries fall in the
   * same second are identical: the issue time enters only through `exp`.
   */
  lemma SameExpirySameToken(cfg: AdminConfig, uid: string, admin: bool, t1: Instant, t2: Instant, sign: Signer)
    requires IsInt64(cfg.tokenExpiryMinutes) && ValidInstant(t1) && ValidInstant(t2)
    requires AddUnix(t1, ExpiryDuration(cfg.tokenExpiryMinutes)) == AddUnix(t2, ExpiryDuration(cfg.tokenExpiryMinutes))
    ensures GenerateJwToken(cfg, uid, admin, t1, sign) == GenerateJwToken(cfg, uid, admin, t2, sign)
  {
  }

  /**
   * The bound body of a token request: `Malformed` when decoding fails,
   * otherwise `uid` (the empty string when absent) and `admin` (absent
   * unless the JSON names it, since the field is a `*bool`).
   */
  datatype TokenRequest = Malformed | TokenRequest(uid: string, admin: Option<bool>)

  /** The `binding:"required"` checks: a non-empty uid and an admin flag present. */
  predicate Binds(body: TokenRequest) {
    body.TokenRequest? && body.uid != "" && body.admin.Some?
  }

  /** `getTokenHandler`: the single response written. */
  function GetTokenHandler(cfg: AdminConfig, body: TokenRequest, now: Instant, sign: Signer): (resp: Response)
    requires IsInt64(cfg.tokenExpiryMinutes) && ValidInstant(now)
    ensures resp.status == StatusBadRequest <==> !Binds(body)
    ensures resp.status == StatusBadRequest ==> resp.body.Some? && "success" !in resp.body.value
    ensures resp.status == StatusOK <==>
      Binds(body) && sign(TokenClaims(cfg, body.uid, body.admin.value, now), cfg.jwtSecret).Success?
    ensures resp.status == StatusOK ==>
      resp.body == Some(map["http_code" := JInt(StatusOK), "success" := JBool(true),
        "token" := JStr(sign(TokenClaims(cfg, body.uid, body.admin.value, now), cfg.jwtSecret).value)])
    ensures resp.status in {StatusBadRequest, StatusOK, StatusInternalServerError}
    ensures resp.status == StatusInternalServerError ==>
      resp.body == Some(ErrorBody(StatusInternalServerError, "Internal server error"))
  {
    if !Binds(body) then
      Response(StatusBadRequest, Some(map["http_code" := JInt(StatusBadRequest),
                                          "message" := JStr("Invalid request body")]))
    else
      match GenerateJwToken(cfg, body.uid, body.admin.value, now, sign)
      case Failure(_) =>
        Response(StatusInternalServerError, Some(ErrorBody(StatusInternalServerError, "Internal server error")))
      case Success(token) =>
        Response(StatusOK, Some(map["http_code" := JInt(StatusOK), "success" := JBool(true),
                                    "token" := JStr(token)]))
  }

  /** An explicit `admin: false` is accepted; only a missing flag is rejected. */
  lemma ExplicitFalseAdminAccepted(cfg: AdminConfig, uid: string, now: Instant, sign: Signer)
    requires IsInt64(cfg.tokenExpiryMinutes) && ValidInstant(now)
    requires uid != ""
    ensures GetTokenHandler(cfg, TokenRequest(uid, Some(false)), now, sign).status != StatusBadRequest
    ensures GetTokenHandler(cfg, TokenRequest(uid, None), now, sign).status == StatusBadRequest
  {
  }
}
