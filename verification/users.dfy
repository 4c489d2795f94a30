/** The users service's admin gate: a store lookup of the caller named in the header. */
module Users {
  import opened Wrappers
  import opened Gin

  datatype UserDetails = UserDetails(uid: string, email: string, admin: bool)

  /** What `GetUserDetails` can report for a uid. */
  datatype UserLookup = UserFound(details: UserDetails) | UserDoesNotExist | StoreError(err: string)

  /** The `(bool, error)` pair `isAdminUser` returns. */
  datatype AdminCheck = AdminCheck(admin: bool, err: Option<string>)

  /** `isAdminUser`: a missing user is "not admin" without an error. */
  function IsAdminUser(user: string, store: string -> UserLookup): (r: AdminCheck)
    ensures r.admin ==> r.err.None?
    ensures r.err.Some? <==> store(user).StoreError?
    ensures store(user).StoreError? ==> r == AdminCheck(false, Some(store(user).err))
    ensures store(user) == UserDoesNotExist ==> r == AdminCheck(false, None)
    ensures r.admin <==> store(user).UserFound? && store(user).details.admin
  {
    match store(user)
    case UserDoesNotExist => AdminCheck(false, None)
    case StoreError(err) => AdminCheck(false, Some(err))
    case UserFound(details) => AdminCheck(details.admin, None)
  }

  const ForbiddenResponse: Response := Response(StatusForbidden, Some(ErrorBody(StatusForbidden, "Forbidden")))
  const InternalErrorResponse: Response :=
    Response(StatusInternalServerError, Some(ErrorBody(StatusInternalServerError, "Internal server error")))

  /**
   * `AdminProtected` applied to one request. The error branch has no
   * `return`, so after its 500 the 403 branch runs as well.
   */
  function AdminProtected(c: Context, store: string -> UserLookup): (r: Context)
    ensures r.request == c.request && r.keys == c.keys
    ensures r.nextCalled <==> c.nextCalled || IsAdminUser(HeaderGet(c.request.header, UserIdHeader), store) == AdminCheck(true, None)
    ensures store(HeaderGet(c.request.header, UserIdHeader)).StoreError? ==>
      r.written == c.written + [InternalErrorResponse, ForbiddenResponse] && r.aborted
    ensures (!store(HeaderGet(c.request.header, UserIdHeader)).StoreError?
             && !IsAdminUser(HeaderGet(c.request.header, UserIdHeader), store).admin) ==>
      r.written == c.written + [ForbiddenResponse] && r.aborted
    ensures IsAdminUser(HeaderGet(c.request.header, UserIdHeader), store).admin ==>
      r.written == c.written && r.aborted == c.aborted
  {
    var uid := HeaderGet(c.request.header, UserIdHeader);
    var check := IsAdminUser(uid, store);
    var c1 := if check.err.Some? then AbortWithStatusJson(c, StatusInternalServerError,
                                        ErrorBody(StatusInternalServerError, "Internal server error"))
              else c;
    if !check.admin then AbortWithStatusJson(c1, StatusForbidden, ErrorBody(StatusForbidden, "Forbidden"))
    else CallNext(c1)
  }

  /**
   * On a fresh context the handler after the gate runs exactly for admins;
   * aborting and continuing never both happen; a store error is answered
   * with status 500 followed by a second, 403 write.
   */
  lemma AdminGateOutcomes(c: Context, store: string -> UserLookup)
    requires Fresh(c)
    ensures var r := AdminProtected(c, store);
      var lookup := store(HeaderGet(c.request.header, UserIdHeader));
      && (r.nextCalled <==> lookup.UserFound? && lookup.details.admin)
      && !(r.nextCalled && r.aborted)
      && (r.nextCalled || r.aborted)
      && (lookup.StoreError? ==> |r.written| == 2 && SentStatus(r) == Some(StatusInternalServerError))
      && (!lookup.StoreError? && !r.nextCalled ==> |r.written| == 1 && SentStatus(r) == Some(StatusForbidden))
  {
  }

  /** The gate's decision depends on the store only at the uid named in the header. */
  lemma AdminGateReadsHeaderUser(c: Context, store1: string -> UserLookup, store2: string -> UserLookup)
    requires store1(HeaderGet(c.request.header, UserIdHeader)) == store2(HeaderGet(c.request.header, UserIdHeader))
    ensures AdminProtected(c, store1) == AdminProtected(c, store2)
  {
  }

  /**
   * The gate with the `return` the error branch lacks: a store error is
   * answered with one 500 response and nothing else.
   */
  function AdminProtectedWithReturn(c: Context, store: string -> UserLookup): (r: Context)
    ensures r.request == c.request && r.keys == c.keys
    ensures store(HeaderGet(c.request.header, UserIdHeader)).StoreError? ==>
      r.written == c.written + [InternalErrorResponse] && r.aborted && r.nextCalled == c.nextCalled
    ensures !store(HeaderGet(c.request.header, UserIdHeader)).StoreError? ==> r == AdminProtected(c, store)
  {
    var uid := HeaderGet(c.request.header, UserIdHeader);
    var check := IsAdminUser(uid, store);
    if check.err.Some? then
      AbortWithStatusJson(c, StatusInternalServerError, ErrorBody(StatusInternalServerError, "Internal server error"))
    else if !check.admin then AbortWithStatusJson(c, StatusForbidden, ErrorBody(StatusForbidden, "Forbidden"))
    else CallNext(c)
  }

  /** With the `return`, every request gets at most one response, and a store error exactly one 500. */
  lemma AdminGateWithReturnWritesOnce(c: Context, store: string -> UserLookup)
    requires Fresh(c)
    ensures var r := AdminProtectedWithReturn(c, store);
      && |r.written| <= 1
      && (r.nextCalled <==> |r.written| == 0)
      && (store(HeaderGet(c.request.header, UserIdHeader)).StoreError? ==>
            r.written == [InternalErrorResponse])
  {
  }

  /** As written, a store error produces two responses: 500, then 403. */
  lemma AdminGateStoreErrorWritesTwice(c: Context, store: string -> UserLookup)
    requires Fresh(c)
    requires store(HeaderGet(c.request.header, UserIdHeader)).StoreError?
    ensures AdminProtected(c, store).written == [InternalErrorResponse, ForbiddenResponse]
    ensures AdminProtectedWithReturn(c, store).written == [InternalErrorResponse]
  {
  }
}
