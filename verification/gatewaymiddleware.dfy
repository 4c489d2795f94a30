/** The gateway's token gate, installed in front of every proxied route. */
module GatewayMiddleware {
  import opened Wrappers
  import opened Gin

  /** The verified claims the gate reads. */
  datatype Claims = Claims(uid: string, admin: bool)

  /**
   * The collaborators the gate calls but which are not part of this model:
   * CORS header computation and token verification with the shared secret.
   */
  datatype GateDeps = GateDeps(
    setCorsHeaders: (Headers, Request) -> Headers,
    authenticateUser: (Request, string) -> Result<Claims, string>)

  /** `JWTMiddleware(jwtSecret, adminOnly)` applied to one request. */
  function JwtMiddleware(jwtSecret: string, adminOnly: bool, deps: GateDeps, c: Context): (r: Context)
    ensures r.request == c.request
    ensures r.writerHeader == deps.setCorsHeaders(c.writerHeader, c.request)
    ensures c.request.httpMethod == MethodOptions ==>
      r.written == c.written + [Response(StatusOK, None)] && r.aborted && r.keys == c.keys && r.nextCalled == c.nextCalled
    ensures c.request.httpMethod != MethodOptions && deps.authenticateUser(c.request, jwtSecret).Failure? ==>
      r.written == c.written + [Response(StatusUnauthorized, Some(ErrorBody(StatusUnauthorized, "Unauthorized")))]
      && r.aborted && r.keys == c.keys && r.nextCalled == c.nextCalled
    ensures c.request.httpMethod != MethodOptions && deps.authenticateUser(c.request, jwtSecret).Success? ==>
      var claims := deps.authenticateUser(c.request, jwtSecret).value;
      if adminOnly && !claims.admin then
        r.written == c.written + [Response(StatusForbidden, Some(ErrorBody(StatusForbidden, "Forbidden")))]
        && r.aborted && r.keys == c.keys && r.nextCalled == c.nextCalled
      else
        r.written == c.written && r.aborted == c.aborted && r.nextCalled
        && r.keys == c.keys["uid" := claims.uid]
  {
    var c1 := c.(writerHeader := deps.setCorsHeaders(c.writerHeader, c.request));
    if c1.request.httpMethod == MethodOptions then AbortWithStatus(c1, StatusOK)
    else
      match deps.authenticateUser(c1.request, jwtSecret)
      case Failure(_) =>
        AbortWithStatusJson(c1, StatusUnauthorized, ErrorBody(StatusUnauthorized, "Unauthorized"))
      case Success(claims) =>
        if adminOnly && !claims.admin then
          AbortWithStatusJson(c1, StatusForbidden, ErrorBody(StatusForbidden, "Forbidden"))
        else
          CallNext(SetKey(c1, "uid", claims.uid))
  }

  /** The four ways a request can leave the gate. */
  datatype GateOutcome = Preflight | Unauthorized | Forbidden | Passed(uid: string)

  /** The outcome read off the context the gate returns. */
  function Classify(r: Context): Option<GateOutcome> {
    if r.nextCalled && r.written == [] && "uid" in r.keys then Some(Passed(r.keys["uid"]))
    else if r.written == [Response(StatusOK, None)] && r.aborted then Some(Preflight)
    else if |r.written| == 1 && r.written[0].status == StatusUnauthorized && r.aborted then Some(Unauthorized)
    else if |r.written| == 1 && r.written[0].status == StatusForbidden && r.aborted then Some(Forbidden)
    else None
  }

  /**
   * On a fresh context exactly one outcome happens: the gate never both
   * writes a response and continues, writes at most one response, and
   * stores the uid only when it continues.
   */
  lemma {:induction false} GateExactlyOneOutcome(jwtSecret: string, adminOnly: bool, deps: GateDeps, c: Context)
    requires Fresh(c)
    ensures var r := JwtMiddleware(jwtSecret, adminOnly, deps, c);
      && Classify(r).Some?
      && (r.nextCalled <==> !r.aborted)
      && (r.nextCalled <==> |r.written| == 0)
      && |r.written| <= 1
      && ("uid" in r.keys <==> r.nextCalled)
  {
  }

  /** A preflight request never consults token verification. */
  lemma PreflightIgnoresAuthentication(jwtSecret: string, adminOnly: bool, deps1: GateDeps, deps2: GateDeps, c: Context)
    requires c.request.httpMethod == MethodOptions
    requires deps1.setCorsHeaders == deps2.setCorsHeaders
    ensures JwtMiddleware(jwtSecret, adminOnly, deps1, c) == JwtMiddleware(jwtSecret, adminOnly, deps2, c)
  {
  }

  /** A failed verification yields 401 whatever the admin flag. */
  lemma UnauthorizedRegardlessOfAdminFlag(jwtSecret: string, deps: GateDeps, c: Context)
    requires c.request.httpMethod != MethodOptions
    requires deps.authenticateUser(c.request, jwtSecret).Failure?
    ensures JwtMiddleware(jwtSecret, true, deps, c) == JwtMiddleware(jwtSecret, false, deps, c)
    ensures JwtMiddleware(jwtSecret, true, deps, c).written == c.written + [Response(StatusUnauthorized, Some(ErrorBody(StatusUnauthorized, "Unauthorized")))]
  {
  }

  /** Without the admin restriction, every verified request passes with its uid. */
  lemma NonAdminRoutePassesVerified(jwtSecret: string, deps: GateDeps, c: Context)
    requires c.request.httpMethod != MethodOptions
    requires deps.authenticateUser(c.request, jwtSecret).Success?
    ensures var r := JwtMiddleware(jwtSecret, false, deps, c);
      r.nextCalled && r.written == c.written && r.keys["uid"] == deps.authenticateUser(c.request, jwtSecret).value.uid
  {
  }
}
