/**
 * The gateway's proxy route: module lookup with its error mapping, the
 * caller-identity header, the redirect target (with the optional removal
 * of the module name) and the rewrite of the outgoing request.
 */
module Gateway {
  import opened Wrappers
  import opened GoStrings
  import opened Gin
  import opened GatewayMiddleware

  /** A routing registry entry. */
  datatype Module = Module(
    moduleName: string,
    moduleRedirect: string,
    trimAppName: bool,
    moduleDescription: string)

  /** What `GetModuleDetails` can report for an application name. */
  datatype ModuleLookup = ModuleFound(entry: Module) | InvalidModule | LookupFailed(err: string)

  /** The segment removed from the redirect when `trimAppName` is set. */
  function TrimPattern(app: Module): (pat: string)
    ensures |pat| == |app.moduleName| + 1 && pat[0] == '/'
  {
    "/" + app.moduleName
  }

  /**
   * The redirect target of `proxyRequest`: the configured redirect, with
   * every occurrence of "/" + name removed anywhere in it (host included)
   * when `trimAppName` is set.
   */
  function RedirectUrl(app: Module): (target: string)
    ensures !app.trimAppName ==> target == app.moduleRedirect
    ensures app.trimAppName ==> target == Join(Split(app.moduleRedirect, TrimPattern(app)), "")
    ensures app.trimAppName ==>
      |target| == |app.moduleRedirect| - Count(app.moduleRedirect, TrimPattern(app)) * (|app.moduleName| + 1)
  {
    if app.trimAppName then
      var pat := TrimPattern(app);
      ReplaceAllIsJoinOfSplit(app.moduleRedirect, pat, "");
      ReplaceAllLength(app.moduleRedirect, pat, "");
      ReplaceAll(app.moduleRedirect, pat, "")
    else app.moduleRedirect
  }

  /** A redirect without the pattern is left as configured. */
  lemma RedirectUrlWithoutPattern(app: Module)
    requires forall j :: !OccursAt(app.moduleRedirect, TrimPattern(app), j)
    ensures RedirectUrl(app) == app.moduleRedirect
  {
    ReplaceAllAbsent(app.moduleRedirect, TrimPattern(app), "");
  }

  /** The removal reaches into the host name, not only the path. */
  lemma RedirectUrlTrimsHost(app: Module)
    requires app == Module("billing", "http://billing.internal/billing", true, "")
    ensures RedirectUrl(app) == "http:/.internal"
  {
    assert TrimPattern(app) == "/billing";
    TrimExample(app.moduleRedirect);
  }

  lemma TrimExample(s: string)
    requires s == "http://billing.internal/billing"
    ensures ReplaceAll(s, "/billing", "") == "http:/.internal"
  {
    TrimExampleFirst(s);
    var rest := ExampleSlices(s);
    TrimExampleJoin(s, rest);
  }

  lemma ExampleSlices(s: string) returns (rest: string)
    requires s == "http://billing.internal/billing"
    ensures |s| >= 14 && rest == s[14..] && rest == ".internal/billing" && s[..6] == "http:/"
  {
    rest := s[14..];
  }

  lemma TrimExampleFirst(s: string)
    requires s == "http://billing.internal/billing"
    ensures ReplaceAll(s, "/billing", "") == s[..6] + ReplaceAll(s[14..], "/billing", "")
  {
    ExampleFirstOccurrence(s);
    ReplaceAllAtFirst(s, "/billing", "", 6);
  }

  lemma TrimExampleJoin(s: string, rest: string)
    requires ReplaceAll(s, "/billing", "") == "http:/" + ReplaceAll(rest, "/billing", "")
    requires rest == ".internal/billing"
    ensures ReplaceAll(s, "/billing", "") == "http:/.internal"
  {
    TrimExampleRest(rest);
  }

  lemma TrimExampleRest(rest: string)
    requires rest == ".internal/billing"
    ensures ReplaceAll(rest, "/billing", "") == ".internal"
  {
    var pat := "/billing";
    ExampleSecondOccurrence(rest);
    ReplaceAllAtFirst(rest, pat, "", 9);
    assert rest[17..] == "";
    ReplaceAllEmpty(pat, "");
    assert rest[..9] == ".internal";
  }

  lemma ExampleFirstOccurrence(s: string)
    requires s == "http://billing.internal/billing"
    ensures Index(s, "/billing") == Some(6)
  {
    var pat := "/billing";
    assert OccursAt(s, pat, 6) by {
      assert forall k :: 0 <= k < 8 ==> s[6 + k] == pat[k];
      assert s[6..14] == pat;
    }
    forall j | 0 <= j < 6 ensures !OccursAt(s, pat, j) {
      assert s[j..j + 8][1] == s[j + 1] != 'b' == pat[1];
    }
  }

  lemma ExampleSecondOccurrence(s: string)
    requires s == ".internal/billing"
    ensures Index(s, "/billing") == Some(9)
  {
    var pat := "/billing";
    assert OccursAt(s, pat, 9) by {
      assert forall k :: 0 <= k < 8 ==> s[9 + k] == pat[k];
      assert s[9..17] == pat;
    }
    forall j | 0 <= j < 9 ensures !OccursAt(s, pat, j) {
      assert s[j..j + 8][0] == s[j] != '/' == pat[0];
    }
  }

  /**
   * `SetProxyHeaders`: the URL host and scheme and the Host field take the
   * target's; X-Forwarded-Host takes the inbound "Host" header value.
   */
  function SetProxyHeaders(request: Request, target: Url): (r: Request)
    ensures r.httpMethod == request.httpMethod
    ensures r.url.path == request.url.path
    ensures r.url.host == target.host && r.url.scheme == target.scheme && r.host == target.host
    ensures r.header.Keys == request.header.Keys + {"X-Forwarded-Host"}
    ensures r.header["X-Forwarded-Host"] == HeaderGet(request.header, "Host")
    ensures forall k :: k in request.header && k != "X-Forwarded-Host" ==> r.header[k] == request.header[k]
  {
    var url := request.url.(host := target.host, scheme := target.scheme);
    var header := request.header["X-Forwarded-Host" := HeaderGet(request.header, "Host")];
    request.(url := url, header := header, host := target.host)
  }

  /**
   * On a request as the server delivers it there is no Host header, so
   * X-Forwarded-Host is always sent empty, and the inbound host, kept only
   * in the `host` field, is overwritten with the target's.
   */
  lemma ForwardedHostAlwaysEmpty(request: Request, target: Url)
    requires ServerRequest(request)
    ensures SetProxyHeaders(request, target).header["X-Forwarded-Host"] == ""
    ensures SetProxyHeaders(request, target).host == target.host
  {
  }

  /**
   * `SetProxyHeaders` with X-Forwarded-Host taken from the inbound host,
   * read before the host is replaced by the target's.
   */
  function SetProxyHeadersIntended(request: Request, target: Url): (r: Request)
    ensures "X-Forwarded-Host" in r.header && r.header["X-Forwarded-Host"] == request.host
    ensures var written := SetProxyHeaders(request, target);
      && r.httpMethod == written.httpMethod && r.url == written.url && r.host == written.host
      && r.header.Keys == written.header.Keys
      && (forall k :: k in written.header && k != "X-Forwarded-Host" ==> r.header[k] == written.header[k])
  {
    var url := request.url.(host := target.host, scheme := target.scheme);
    var header := request.header["X-Forwarded-Host" := request.host];
    request.(url := url, header := header, host := target.host)
  }

  /** `url.Parse` as the gateway calls it: `None` when it reports an error. */
  type UrlParser = string -> Option<Url>

  /** A request handed to the reverse proxy, with the URL it is sent to. */
  datatype Forward = Forward(target: Url, outbound: Request)

  /**
   * `proxyRequest` up to the reverse proxy: the redirect is parsed and the
   * request rewritten for it. When parsing fails, the ignored error leaves
   * a nil URL that `SetProxyHeaders` dereferences, so the handler panics:
   * that is `None`.
   */
  function ProxyRequest(app: Module, request: Request, parseUrl: UrlParser): (f: Option<Forward>)
    ensures f.None? <==> parseUrl(RedirectUrl(app)).None?
    ensures f.Some? ==> f.value.target == parseUrl(RedirectUrl(app)).value
    ensures f.Some? && !app.trimAppName ==> f.value.target == parseUrl(app.moduleRedirect).value
    ensures f.Some? && app.trimAppName ==>
      f.value.target == parseUrl(Join(Split(app.moduleRedirect, TrimPattern(app)), "")).value
    ensures f.Some? ==>
      var target, out := f.value.target, f.value.outbound;
      && out.url.host == target.host && out.url.scheme == target.scheme && out.host == target.host
      && out.httpMethod == request.httpMethod && out.url.path == request.url.path
      && HeaderGet(out.header, UserIdHeader) == HeaderGet(request.header, UserIdHeader)
      && (forall k :: k in request.header && k != "X-Forwarded-Host" ==>
            k in out.header && out.header[k] == request.header[k])
      && "X-Forwarded-Host" in out.header && out.header["X-Forwarded-Host"] == HeaderGet(request.header, "Host")
  {
    match parseUrl(RedirectUrl(app))
    case None => None
    case Some(redirect) => Some(Forward(redirect, SetProxyHeaders(request, redirect)))
  }

  /** The context after a handler, and the proxied request if there is one. */
  datatype ProxyResult = ProxyResult(ctx: Context, forwarded: Option<Forward>)

  /**
   * `proxyHandler`: the caller identity from the context overwrites the
   * header before the lookup; a failed lookup writes 502 or 500; a redirect
   * that does not parse ends in the panic that gin's recovery answers with
   * a bare 500.
   */
  function ProxyHandler(c: Context, application: string, registry: string -> ModuleLookup,
                        parseUrl: UrlParser): (r: ProxyResult)
    requires "uid" in c.keys
    ensures HeaderGet(r.ctx.request.header, UserIdHeader) == c.keys["uid"]
    ensures registry(application) == InvalidModule ==>
      r.forwarded.None? && r.ctx.aborted
      && r.ctx.written == c.written + [Response(StatusBadGateway, Some(ErrorBody(StatusBadGateway, "Bad Gateway")))]
    ensures registry(application).LookupFailed? ==>
      r.forwarded.None? && r.ctx.aborted
      && r.ctx.written == c.written + [Response(StatusInternalServerError,
           Some(ErrorBody(StatusInternalServerError, "Internal server error")))]
    ensures registry(application).ModuleFound? && parseUrl(RedirectUrl(registry(application).entry)).None? ==>
      r.forwarded.None? && r.ctx.aborted
      && r.ctx.written == c.written + [Response(StatusInternalServerError, None)]
    ensures r.forwarded.Some? <==>
      registry(application).ModuleFound? && parseUrl(RedirectUrl(registry(application).entry)).Some?
    ensures r.forwarded.Some? ==>
      r.ctx.written == c.written && r.ctx.aborted == c.aborted
      && r.forwarded.value.target == parseUrl(RedirectUrl(registry(application).entry)).value
      && HeaderGet(r.forwarded.value.outbound.header, UserIdHeader) == c.keys["uid"]
  {
    var uid := c.keys["uid"];
    var c1 := c.(request := c.request.(header := c.request.header[UserIdHeader := uid]));
    match registry(application)
    case InvalidModule =>
      ProxyResult(AbortWithStatusJson(c1, StatusBadGateway, ErrorBody(StatusBadGateway, "Bad Gateway")), None)
    case LookupFailed(_) =>
      ProxyResult(AbortWithStatusJson(c1, StatusInternalServerError,
                                      ErrorBody(StatusInternalServerError, "Internal server error")), None)
    case ModuleFound(m) =>
      match ProxyRequest(m, c1.request, parseUrl)
      case None => ProxyResult(Recovered(c1), None)
      case Some(f) => ProxyResult(c1, Some(f))
  }

  /** The wiring of `NewAPIGateway`: the token gate without admin restriction, then the proxy. */
  function ServeProxyRoute(jwtSecret: string, deps: GateDeps, c: Context, application: string,
                           registry: string -> ModuleLookup, parseUrl: UrlParser): (r: ProxyResult)
    requires Fresh(c)
    ensures r.forwarded.Some? <==>
      && c.request.httpMethod != MethodOptions
      && deps.authenticateUser(c.request, jwtSecret).Success?
      && registry(application).ModuleFound?
      && parseUrl(RedirectUrl(registry(application).entry)).Some?
    ensures r.forwarded.Some? ==> r.ctx.written == [] && !r.ctx.aborted
  {
    var gated := JwtMiddleware(jwtSecret, false, deps, c);
    if gated.nextCalled then ProxyHandler(gated, application, registry, parseUrl)
    else ProxyResult(gated, None)
  }

  /** A proxied route never answers 403: the gate runs with `adminOnly` false. */
  lemma ProxyRouteNeverForbidden(jwtSecret: string, deps: GateDeps, c: Context, application: string,
                                 registry: string -> ModuleLookup, parseUrl: UrlParser)
    requires Fresh(c)
    ensures forall i :: 0 <= i < |ServeProxyRoute(jwtSecret, deps, c, application, registry, parseUrl).ctx.written| ==>
      ServeProxyRoute(jwtSecret, deps, c, application, registry, parseUrl).ctx.written[i].status != StatusForbidden
  {
  }

  /**
   * Every forwarded request carries the uid of the verified token in
   * X-Authenticated-Userid, whatever the client sent in that header.
   */
  lemma ForwardedIdentityIsVerified(jwtSecret: string, deps: GateDeps, c: Context, application: string,
                                    registry: string -> ModuleLookup, parseUrl: UrlParser)
    requires Fresh(c)
    ensures var r := ServeProxyRoute(jwtSecret, deps, c, application, registry, parseUrl);
      r.forwarded.Some? ==>
        HeaderGet(r.forwarded.value.outbound.header, UserIdHeader) == deps.authenticateUser(c.request, jwtSecret).value.uid
  {
  }

  /**
   * On the running gateway every forwarded request has an empty
   * X-Forwarded-Host: the Host header the code reads is never present.
   */
  lemma RouteForwardsEmptyHost(jwtSecret: string, deps: GateDeps, c: Context, application: string,
                               registry: string -> ModuleLookup, parseUrl: UrlParser)
    requires Fresh(c) && ServerRequest(c.request)
    ensures var r := ServeProxyRoute(jwtSecret, deps, c, application, registry, parseUrl);
      r.forwarded.Some? ==> HeaderGet(r.forwarded.value.outbound.header, "X-Forwarded-Host") == ""
  {
  }
}
