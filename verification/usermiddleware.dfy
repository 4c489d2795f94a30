/** The backend services' gate: the caller identity comes from the gateway's header. */
module UtilsMiddleware {
  import opened Wrappers
  import opened Gin

  /** `UserInjectionMiddleware` applied to one request. */
  function UserInjectionMiddleware(c: Context): (r: Context)
    ensures r.request == c.request && r.writerHeader == c.writerHeader
    ensures HeaderGet(c.request.header, UserIdHeader) != "" ==>
      r.nextCalled && r.written == c.written && r.aborted == c.aborted
      && r.keys == c.keys["uid" := c.request.header[UserIdHeader]]
    ensures HeaderGet(c.request.header, UserIdHeader) == "" ==>
      r.aborted && r.keys == c.keys && r.nextCalled == c.nextCalled
      && r.written == c.written + [Response(StatusUnauthorized, Some(ErrorBody(StatusUnauthorized, "Unauthorized")))]
  {
    var uid := HeaderGet(c.request.header, UserIdHeader);
    if |uid| > 0 then CallNext(SetKey(c, "uid", uid))
    else AbortWithStatusJson(c, StatusUnauthorized, ErrorBody(StatusUnauthorized, "Unauthorized"))
  }

  /** On a fresh context, exactly one of "continue with the header's uid" and "401" happens. */
  lemma InjectionPassesOrRejects(c: Context)
    requires Fresh(c)
    ensures var r := UserInjectionMiddleware(c);
      && (r.nextCalled <==> !r.aborted)
      && (r.nextCalled <==> UserIdHeader in c.request.header && c.request.header[UserIdHeader] != "")
      && (r.nextCalled ==> r.keys["uid"] == c.request.header[UserIdHeader] && r.written == [])
      && (!r.nextCalled ==> "uid" !in r.keys && SentStatus(r) == Some(StatusUnauthorized))
  {
  }

  /** No trimming or validation: a whitespace-only identity is passed on. */
  lemma WhitespaceUidPasses(c: Context)
    requires HeaderGet(c.request.header, UserIdHeader) == " "
    ensures UserInjectionMiddleware(c).nextCalled && UserInjectionMiddleware(c).keys["uid"] == " "
  {
  }
}
