/**
 * The slice of net/http and gin the middlewares and handlers touch: a
 * request with its URL and header map, JSON bodies, and a per-request
 * context that records every response written, whether the chain was
 * aborted, whether `Next` was called, and the values stored with `Set`.
 */
module Gin {
  import opened Wrappers

  const StatusOK: int := 200
  const StatusBadRequest: int := 400
  const StatusUnauthorized: int := 401
  const StatusForbidden: int := 403
  const StatusInternalServerError: int := 500
  const StatusBadGateway: int := 502

  const MethodOptions: string := "OPTIONS"

  /** Header name of the caller identity handed to the backends. */
  const UserIdHeader: string := "X-Authenticated-Userid"

  /** Canonical header names to their first value. */
  type Headers = map<string, string>

  /** `Header.Get`: the value, or "" when the header is absent. */
  function HeaderGet(h: Headers, key: string): (v: string)
    ensures key !in h ==> v == ""
    ensures key in h ==> v == h[key]
  {
    if key in h then h[key] else ""
  }

  datatype Url = Url(scheme: string, host: string, path: string)

  datatype Request = Request(httpMethod: string, url: Url, host: string, header: Headers)

  /**
   * A request as net/http's server hands it to a handler: the Host header
   * has been moved into the `host` field and deleted from the header map.
   */
  predicate ServerRequest(r: Request) {
    "Host" !in r.header
  }

  datatype JsonValue = JInt(n: int) | JBool(b: bool) | JStr(s: string)

  /** A `gin.H` body. */
  type Json = map<string, JsonValue>

  /** One response written to the client: a status and, for JSON writes, a body. */
  datatype Response = Response(status: int, body: Option<Json>)

  datatype Context = Context(
    request: Request,
    writerHeader: Headers,
    keys: map<string, string>,
    written: seq<Response>,
    aborted: bool,
    nextCalled: bool)

  /** The error body the services send: `{http_code, success: false, message}`. */
  function ErrorBody(code: int, message: string): (body: Json)
    ensures body.Keys == {"http_code", "success", "message"}
    ensures body["http_code"] == JInt(code) && body["success"] == JBool(false)
  {
    map["http_code" := JInt(code), "success" := JBool(false), "message" := JStr(message)]
  }

  /** `ctx.AbortWithStatus(code)`. */
  function AbortWithStatus(c: Context, code: int): Context {
    c.(written := c.written + [Response(code, None)], aborted := true)
  }

  /** `ctx.AbortWithStatusJSON(code, body)`. */
  function AbortWithStatusJson(c: Context, code: int, body: Json): Context {
    c.(written := c.written + [Response(code, Some(body))], aborted := true)
  }

  /** gin's `Recovery` middleware answering a handler that panicked. */
  function Recovered(c: Context): Context {
    AbortWithStatus(c, StatusInternalServerError)
  }

  /** `ctx.Set(key, value)`. */
  function SetKey(c: Context, key: string, value: string): Context {
    c.(keys := c.keys[key := value])
  }

  /** `ctx.Next()`: the rest of the handler chain runs. */
  function CallNext(c: Context): Context {
    c.(nextCalled := true)
  }

  /**
   * The status the client sees: the first one written, since net/http
   * ignores later `WriteHeader` calls.
   */
  function SentStatus(c: Context): Option<int> {
    if |c.written| == 0 then None else Some(c.written[0].status)
  }

  /** A context as it enters the first middleware. */
  predicate Fresh(c: Context) {
    c.written == [] && !c.aborted && !c.nextCalled && "uid" !in c.keys
  }
}
