# lifelink core in Dafny

lifelink is a set of Go microservices behind one API gateway. This project
models four parts of it:

- **Habit cycle strings** (`pkg/habits/utils.go`). A habit's cycle is a
  comma-separated list of weekday names such as `"mon,wed"`.
  - `isValidCycle` checks every piece, case-insensitively, against
    `mon … sun`.
  - `orderCyclesSlice` and `orderCyclesString` rewrite a cycle into the
    canonical lower-case, week-ordered, duplicate-free form. The habits
    store writes that form (`pkg/habits/persistence.go:170`, `:286`).
- **Habit scheduling** (`pkg/habits/analysis.go`).
  - `getHabitDueDate` finds the midnight that ends the first cycle day on
    or after the day following the last completion.
  - `habitDueToday` and `habitOverdue` compare that midnight with the
    clock.
  - `completeHabit` picks the `(onTarget, streak)` flags recorded with a
    completion.
- **Gateway dispatch** (`pkg/gateway/gateway.go`).
  - Every `/api/:application/*` route goes through the token gate with
    `adminOnly` off.
  - The caller's verified uid overwrites `X-Authenticated-Userid`.
  - The module registry lookup maps "invalid module" to 502 and any other
    error to 500.
  - The redirect URL optionally has every `/<moduleName>` removed before
    the request's URL, host and `X-Forwarded-Host` are rewritten.
- **Request gates and token claims.**
  - `JWTMiddleware`: CORS headers, then preflight 200, 401 on a bad token,
    403 on a non-admin token for admin-only routes, otherwise the uid is
    stored and the chain continues.
  - The token endpoint `getTokenHandler` and `generateJWToken`: request
    binding, the claims `uid`, `exp` and `admin`, and the `exp`
    arithmetic, including Go's `int64` duration wrap-around.
  - The backend gates: `UserInjectionMiddleware` (401 without the
    identity header) and `AdminProtected` with `isAdminUser`.

Encodings:

- A calendar day is an integer day number counted from 1970-01-01, which
  was a Thursday (Go weekday 4).
- An instant is a count of Unix nanoseconds. Its UTC day is the floor of
  the instant divided by one day of nanoseconds.
- A gin request context is an immutable record. It holds:
  - the request;
  - the response headers;
  - the key/value store;
  - the sequence of responses written;
  - the aborted flag;
  - whether the next handler ran.

  The status a client sees is the first response written.
- Collaborators outside the model are parameters of the functions that
  call them:
  - `SetCorsHeaders`, `authenticateUser`, HS256 signing;
  - `url.Parse`, as a function that may fail;
  - the module registry and the user store;
  - the clock.
- Go's `strings.Split`, `Join`, `Replace(…, -1)` and `ToLower` are defined
  on `seq<char>` in `GoStrings`, with the laws the model relies on:
  `Join(Split(s, sep), sep) == s`, and the length of a replacement.

Where the code and its comments disagree, the model follows the code.
Some behaviours of the code are easy to miss; the model states them as
they are:

- **Streak flag.** `completeHabit`'s comments say the overdue branches
  add the completion "without streak". The code passes `streak = true`
  there and `onTarget = false`. The model records what the code passes.
- **Redirect trimming.** `strings.Replace(redirect, "/"+name, "", -1)`
  acts on the whole redirect URL. It removes every `/<name>`, including
  one inside `//host`. `Gateway.RedirectUrlTrimsHost` shows
  `http://billing.internal/billing` becoming `http:/.internal`.
- **Unknown module.** The not-found case is the error `ErrInvalidModule`.
  It becomes `InvalidModule` here.
- **Unparsable redirect.** The error of `url.Parse` is discarded, so a
  redirect that does not parse leaves a nil URL. `SetProxyHeaders` then
  dereferences it, and gin's `Recovery` middleware answers the panic with
  a bare 500.
- **X-Forwarded-Host.** `SetProxyHeaders` copies the "Host" header. On a
  request received by Go's `net/http` server that header is never in the
  header map: the server moves it into `Request.Host`. So the forwarded
  value is always empty (see Findings). `Gateway.ProxyRequest` keeps the
  code's behaviour; `Gateway.SetProxyHeadersIntended` is the corrected
  rewrite.
- **Validation versus normalisation.** `isValidCycle` lowers each piece
  before the check, but `getHabitDueDate` matches pieces exactly.
  - A raw `"MON"` is valid but matches no weekday
    (`Schedule.ValidButUnschedulable`).
  - Only the normalised stored form is guaranteed schedulable
    (`Schedule.NormalisedValidCycleIsSchedulable`).
  - The scheduling functions require a schedulable cycle, because on any
    other cycle the source loop never ends.

## Model

| member | source | states |
|---|---|---|
| Cycles.DayRankIndexesValidCycles | pkg/habits/utils.go:11 | the seven valid day names are distinct, comma-free, lower-case, and each is indexed by its position in the week |
| Cycles.SliceContains | pkg/habits/utils.go:16-23 | true exactly when some element equals the one sought |
| Cycles.SliceToLower | pkg/habits/utils.go:27-33 | same length, and each element is the lower-case form of the element at the same index |
| Cycles.AllPiecesValid | pkg/habits/utils.go:40-45 | the loop's verdict holds exactly when every lowered piece is a valid day name |
| Cycles.IsValidCycle | pkg/habits/utils.go:36-47 | valid exactly when every comma-separated piece, lowered, is a valid day name |
| Cycles.EmptyCycleRejectedByLoop | pkg/habits/utils.go:40-46 | the empty cycle splits into one empty piece, which the loop already rejects, so the final length test never decides |
| Cycles.ValidCycleIgnoresCase | pkg/habits/utils.go:41 | upper-case day names are accepted |
| Cycles.ValidCycleAllowsRepeats | pkg/habits/utils.go:40-46 | repeated days are accepted |
| Cycles.ValidCycleDoesNotTrim | pkg/habits/utils.go:40-44 | a space after a comma makes the cycle invalid |
| Cycles.PiecesOfJoin | pkg/habits/utils.go:40 | splitting a comma-join of comma-free parts gives back the parts |
| Cycles.FilterDays | pkg/habits/utils.go:57-61 | the loop over the week from a given day keeps exactly the days present, in week order, at most one per day |
| Cycles.OrderCyclesSlice | pkg/habits/utils.go:51-63 | at most seven days, strictly in week order with no duplicates, containing exactly the valid days that occur among the lowered pieces |
| Cycles.FilterDaysCongruent | pkg/habits/utils.go:57-61 | the ordering loop depends only on which days are present, not on the multiplicity or order of the pieces |
| Cycles.OrderCyclesSliceOfValidNonEmpty | pkg/habits/utils.go:51-63 | a valid cycle orders to a non-empty list |
| Cycles.JoinCanonical | pkg/habits/utils.go:69 | a comma-join of days in week order is empty only for no days, and splits back into the same days |
| Cycles.OrderCyclesString | pkg/habits/utils.go:67-70 | the stored string is empty exactly when no valid day occurs; otherwise splitting it at commas gives the ordered days |
| Cycles.OrderCyclesStringPieces | pkg/habits/utils.go:67-70 | every piece of the stored string is a valid lower-case day that the original cycle names |
| Cycles.OrderCyclesSliceIdempotent | pkg/habits/utils.go:51-70 | ordering the ordered string yields the same list |
| Cycles.OrderCyclesStringIdempotent | pkg/habits/utils.go:67-70 | normalising a normalised cycle changes nothing |
| Cycles.OrderCyclesStringOfValid | pkg/habits/utils.go:36-70 | a valid cycle normalises to a non-empty valid cycle whose pieces are the ordered days |
| Cycles.OrderCyclesStringDropsUnknown | pkg/habits/utils.go:51-70 | unknown pieces are dropped, case and duplicates are folded, and days come out in week order (`"Sun,xyz,MON,sun"` gives `"mon,sun"`) |
| Schedule.CycleMappingsInverse | pkg/habits/analysis.go:14-34 | the two day maps are mutually inverse bijections between the valid day names and 0..6 |
| Schedule.Weekday | pkg/habits/analysis.go:52 | a day's weekday number lies in 0..6, and day 0, 1970-01-01, is a Thursday (4) |
| Schedule.WeekdayLaws | pkg/habits/analysis.go:52-58 | 1970-01-01 is a Thursday; each 24-hour step of the loop advances the weekday by one modulo seven; the week repeats every seven days |
| Schedule.DayName | pkg/habits/analysis.go:52 | every day maps to a valid day name, and that name's number in the forward table is the day's weekday |
| Schedule.WeekCovers | pkg/habits/analysis.go:51-59 | a schedulable cycle has a cycle day within any seven consecutive days, so the search loop ends |
| Schedule.FirstCycleDay | pkg/habits/analysis.go:51-59 | the loop stops at the first day on the cycle, within a week of the start |
| Schedule.DueDate | pkg/habits/analysis.go:38-61 | the due midnight ends a day on the cycle, lies one to seven days after the start, and no earlier day from the start is on the cycle |
| Schedule.DueDateUnique | pkg/habits/analysis.go:38-61 | any day meeting those conditions is the due date |
| Schedule.DueDateMonotone | pkg/habits/analysis.go:40-60 | a later local date never gives an earlier due date |
| Schedule.DayBounds | pkg/habits/analysis.go:71-72 | an instant's UTC day is d exactly when the instant lies between d's midnight and the next |
| Schedule.HabitDueToday | pkg/habits/analysis.go:65-75 | due today exactly when the instant falls inside the day that ends at the due midnight |
| Schedule.HabitOverdue | pkg/habits/analysis.go:79-84 | overdue only on or after the due day, always after it, and on it exactly when past its first instant |
| Schedule.DueTodayNotOverdue | pkg/habits/analysis.go:65-84 | at one instant a habit is never both due today and overdue |
| Schedule.NormalisedValidCycleIsSchedulable | pkg/habits/analysis.go:50-59 | a valid cycle in its stored, normalised form always has a due date |
| Schedule.ValidButUnschedulable | pkg/habits/analysis.go:50-55 | the raw cycle `"MON"` is valid but matches no weekday |
| Schedule.CompleteHabit | pkg/habits/analysis.go:88-117 | a lookup error is returned unchanged; otherwise the completion is off target exactly when the overdue test, with its own local date and instant, holds, and without streak exactly when neither the due-today test, with its own local date and instant, nor the overdue test holds, so never both |
| Schedule.CompleteHabitOneInstant | pkg/habits/analysis.go:97-116 | with one clock reading: due today gives (on target, streak); overdue gives (off target, streak); otherwise (on target, no streak) |
| Schedule.OverdueAfterDueTodayNeedsNextDay | pkg/habits/analysis.go:97-107 | when the local date does not go backwards between the two tests, the "due today yet overdue" branch is reached only if the overdue test's instant is past the midnight after the due-today test's UTC day |
| GatewayMiddleware.JwtMiddleware | pkg/gateway/middleware.go:13-46 | CORS headers are always set; OPTIONS aborts with 200; a failed authentication aborts with 401; a non-admin token on an admin-only route aborts with 403; otherwise the verified uid is stored and the chain continues |
| GatewayMiddleware.GateExactlyOneOutcome | pkg/gateway/middleware.go:13-46 | on a fresh request exactly one of preflight, 401, 403 or pass happens, with at most one response, and the uid is stored only on pass |
| GatewayMiddleware.PreflightIgnoresAuthentication | pkg/gateway/middleware.go:16-21 | a preflight's outcome does not depend on the token verifier |
| GatewayMiddleware.UnauthorizedRegardlessOfAdminFlag | pkg/gateway/middleware.go:25-32 | a failed authentication gives the same 401 whether or not the route is admin-only |
| GatewayMiddleware.NonAdminRoutePassesVerified | pkg/gateway/middleware.go:34-45 | with `adminOnly` off, every verified non-preflight request passes with the token's uid |
| Gateway.TrimPattern | pkg/gateway/gateway.go:82 | the pattern is a slash followed by the module name |
| Gateway.RedirectUrl | pkg/gateway/gateway.go:77-86 | untrimmed, the redirect is verbatim; trimmed, it is the redirect with every occurrence of the pattern removed, shorter by the pattern length per occurrence |
| Gateway.RedirectUrlWithoutPattern | pkg/gateway/gateway.go:79-86 | a redirect not containing the pattern is unchanged by trimming |
| Gateway.RedirectUrlTrimsHost | pkg/gateway/gateway.go:82-83 | trimming also cuts the pattern out of the host (`http://billing.internal/billing` gives `http:/.internal`) |
| Gateway.SetProxyHeaders | pkg/gateway/gateway.go:68-73 | the URL host and scheme and the request host become the target's; X-Forwarded-Host takes the old Host header; method, path and every other header are unchanged |
| Gateway.ForwardedHostAlwaysEmpty | pkg/gateway/gateway.go:68-73 | as written: on a request as the server delivers it, without a Host header, X-Forwarded-Host is sent empty and the inbound host is replaced by the target's |
| Gateway.SetProxyHeadersIntended | pkg/gateway/gateway.go:68-73 | corrected: X-Forwarded-Host carries the inbound host; the URL, host, method and every other header are as written |
| Gateway.ProxyRequest | pkg/gateway/gateway.go:76-91 | nothing is forwarded exactly when the redirect does not parse; otherwise the target is the parse of the redirect, verbatim or with every `/<name>` cut out, and the outbound request goes to the target's host and scheme with the same method, path, caller identity and other headers, X-Forwarded-Host set from the Host header |
| Gateway.ProxyHandler | pkg/gateway/gateway.go:40-65 | the caller's uid overwrites X-Authenticated-Userid; an invalid module aborts with 502 and any other lookup error with 500; a redirect that does not parse ends in a bare 500; a request is forwarded exactly when the module is found and its redirect parses, and then no response is written |
| Gateway.ServeProxyRoute | pkg/gateway/gateway.go:31-37 | a request is forwarded exactly when it is not a preflight, its token verifies, the module is found and its redirect parses; a forwarded request has no response written and is not aborted |
| Gateway.ProxyRouteNeverForbidden | pkg/gateway/gateway.go:34 | proxied routes never answer 403 |
| Gateway.ForwardedIdentityIsVerified | pkg/gateway/gateway.go:34-44 | every forwarded request carries the verified token's uid as X-Authenticated-Userid, whatever the client sent |
| Gateway.RouteForwardsEmptyHost | pkg/gateway/gateway.go:64-73 | as written: on the running gateway every forwarded request has an empty X-Forwarded-Host |
| GatewayAdmin.WrapInt64 | pkg/gateway/admin.go:33 | the result is an int64 congruent to the input modulo 2^64, and equal to it when it already fits |
| GatewayAdmin.ExpiryDuration | pkg/gateway/admin.go:33 | the expiry duration is the int64 that `minutes × time.Minute` wraps to: congruent to minutes × 60·10^9 modulo 2^64, and equal to it when that fits |
| GatewayAdmin.AddUnix | pkg/gateway/admin.go:33-37 | `exp` is the whole second containing the instant plus the duration (floor, as `Time.Unix`) |
| GatewayAdmin.TokenClaims | pkg/gateway/admin.go:35-39 | a token carries exactly the claims uid, exp and admin, with uid and admin as requested |
| GatewayAdmin.GenerateJwToken | pkg/gateway/admin.go:30-41 | the token is the signer's answer, under the configured secret, for exactly the claims uid, exp and admin, with the requested uid and admin flag |
| GatewayAdmin.GenerateJwTokenClaims | pkg/gateway/admin.go:32-40 | within the representable range, the signer receives exp equal to the issue second plus 60 times the configured minutes |
| GatewayAdmin.SameExpirySameToken | pkg/gateway/admin.go:32-40 | two requests whose expiries fall in the same second get the same token |
| GatewayAdmin.ExpiryIsMinutesLater | pkg/gateway/admin.go:32-37 | within the representable range, exp is the issue second plus 60 times the configured minutes |
| GatewayAdmin.UniqueSecond | pkg/gateway/admin.go:37 | only one whole second brackets an instant |
| GatewayAdmin.ExpiryWrapsBeyondRange | pkg/gateway/admin.go:33 | one minute beyond the range, the duration wraps negative and the token expires before it is issued |
| GatewayAdmin.GetTokenHandler | pkg/gateway/admin.go:53-75 | 400 exactly when binding fails (missing body, empty uid or absent admin flag), with no "success" field; 200 with the signed token exactly when binding succeeds and signing succeeds; 500 otherwise |
| GatewayAdmin.ExplicitFalseAdminAccepted | pkg/gateway/admin.go:55-65 | an explicit `admin: false` binds, and only an absent flag is rejected |
| UtilsMiddleware.UserInjectionMiddleware | pkg/utils/middleware.go:12-24 | a non-empty identity header is stored as uid and the chain continues; an empty or missing one aborts with 401 |
| UtilsMiddleware.InjectionPassesOrRejects | pkg/utils/middleware.go:12-24 | on a fresh request exactly one of pass and 401 happens, and the uid is present only on pass |
| UtilsMiddleware.WhitespaceUidPasses | pkg/utils/middleware.go:15 | the identity is not trimmed or validated |
| Users.IsAdminUser | pkg/users/utils.go:9-21 | admin exactly when the user exists with the admin flag; a missing user is "not admin" with no error; only a store error is reported |
| Users.AdminProtected | pkg/users/middleware.go:13-34 | the next handler runs exactly for an admin; a non-admin gets 403; a store error writes 500 and then 403 |
| Users.AdminGateOutcomes | pkg/users/middleware.go:13-34 | on a fresh request the gate either continues or aborts, never both; a store error leaves two responses with 500 first |
| Users.AdminGateReadsHeaderUser | pkg/users/middleware.go:16-17 | the decision depends on the store only at the uid named in X-Authenticated-Userid |
| Users.AdminGateStoreErrorWritesTwice | pkg/users/middleware.go:18-30 | as written, a store error produces the responses 500 then 403; with the missing `return`, only the 500 |
| Users.AdminProtectedWithReturn | pkg/users/middleware.go:18-23 | corrected gate: a store error aborts with one 500; every other case is as written |
| Users.AdminGateWithReturnWritesOnce | pkg/users/middleware.go:13-34 | corrected gate: at most one response, none exactly when the chain continues |
| GoStrings.JoinSplit | pkg/habits/utils.go:67-70 | joining the pieces of a split with the same separator gives back the original string |
| GoStrings.SplitJoin | pkg/habits/utils.go:69 | splitting a join over a single-character separator that no part contains gives back the parts |
| GoStrings.ReplaceAllIsJoinOfSplit | pkg/gateway/gateway.go:83 | replacing every occurrence equals splitting at the pattern and joining with the replacement |
| GoStrings.ReplaceAllLength | pkg/gateway/gateway.go:83 | replacing every occurrence changes the length by the per-occurrence difference times the number of occurrences |

## Left out

- Persistence (Neo4j graph access and the CRUD handlers of the habits, todo, users and identity services) is not part of this model. The habit lookup, module registry and user store are parameters.
- `CompleteUserHabit`: the model returns the flags `completeHabit` passes to it. The write and its own error are not modelled.
- Time zones: each local date `time.Now().Date()` is a parameter, one per clock reading, and `LastCompleted.Date()` is a day number. Nothing converts between zones.
- The clock, HS256 signing, `url.Parse`, `SetCorsHeaders` and `authenticateUser`'s token parsing are uninterpreted function parameters. Which strings `url.Parse` rejects is not modelled; a rejection is the nil-URL panic described above.
- The reverse proxy's streaming of the response (`httputil.NewSingleHostReverseProxy`) is not modelled. The model stops at the request handed to it.
- gin's routing, `Logger` middleware, the health check handler, and every log call are not modelled. Of `Recovery`, only the bare 500 it writes after a panic is modelled.
- HTTP header canonicalisation is not modelled. Header names are compared exactly as written in the code.
- `GoStrings.ToLower`: only ASCII and the two non-ASCII runes whose lower case is ASCII (U+0130, U+212A) are lowered. Other runes are left unchanged. This cannot change a comparison with the ASCII day names.
- `Schedule.CompleteHabit`, `Schedule.DueDate`, `Schedule.HabitDueToday`, `Schedule.HabitOverdue`: these require a schedulable cycle. On any other cycle the source's search loop does not terminate.
- `Gateway.ProxyHandler`: requires a uid in the context, because `MustGet` panics without one. Behind the gate the uid is always present.
- Concurrency between requests and the package-level globals of the admin service are not modelled. `NewGatewayAdminAPI`'s settings become the `AdminConfig` record.

## Findings

| source | as written | input that shows it | evidently intended | confidence | as-written member | corrected member |
|---|---|---|---|---|---|---|
| pkg/gateway/gateway.go:71 | X-Forwarded-Host is set from `request.Header.Get("Host")`, which Go's server never fills, since it moves Host into `Request.Host` | any proxied request, for example one sent to `gateway.example` | X-Forwarded-Host carries the inbound host `request.Host`, read before line 72 overwrites it | high (not executed) | Gateway.RouteForwardsEmptyHost | Gateway.SetProxyHeadersIntended |
| pkg/users/middleware.go:18-23 | the store-error branch aborts with 500 but does not return, so the `!admin` branch also aborts with 403 | any request whose `X-Authenticated-Userid` lookup fails with a store error | a single 500 response | high (not executed) | Users.AdminGateStoreErrorWritesTwice | Users.AdminGateWithReturnWritesOnce |
