# API gateway: token caches, JWT check and prediction history

A Dafny model of the stateful and decision-making core of a Go API gateway
that sits in front of an identity service and an ML prediction service. The
repository holds two gateway builds, and the model covers the core of both:

- **Token verdict cache** (`TokenVerdictCache`, internal/cache/token_cache.go):
  a map from bearer token to `(valid, expiresAt)` with a fixed 15-minute TTL,
  with `Get`, `Set` and `Cleanup` as a class over that map. The removal that
  `Get` starts on a goroutine for a stale entry is a queue of pending removals
  that `RunRemoval` carries out later. A pure `Step`/`Run` semantics of the
  operations supports the lemmas over sequences of operations.
- **Bearer header format** (`BearerHeader`): Go's `strings.Split` on a single
  space, reimplemented and proved against `strings.Join`. It is shared by both
  middlewares and is characterised exactly: a header passes iff it is
  `"Bearer " + token` with no space in `token`.
- **Cache-first remote token check** (`RemoteAuth`, internal/middlewares/auth.go):
  the header check, then the verdict cache, then on a miss the auth service,
  whose verdict (true or false, not an error) is cached.
- **Local JWT check** (`JwtAuth`, middleware/auth.go): the ordered rejection
  chain, the HMAC-only key function, the whole-second explicit expiry check,
  and the context writes on success, together with `GetUserID`.
- **Prediction history cache** (`PredictionCache`, repository/cache_repository.go):
  per-user newest-first lists with the zero-result skip on save, the zero-result
  filter on read, and wholesale replacement by `PopulateFromMap`.
- **Service read-through and write fan-out** (`PredictionService`,
  service/service.go): `GetUserStatistics` falls back from the cache to the
  store. `Predict` and `PredictMinimal` build the history record and, only for
  a non-zero result, issue one durable write and one cache write into a log.

Time is a parameter in nanoseconds (`Model.Instant`). Go's `time.Time.After`
is strict, so a cached verdict is still served at exactly `expiresAt`.
`time.Time.Unix()` is floor division by 10^9, which is Dafny's `/` for a
positive divisor. Prediction results are `real`, and the only test the code
applies to them is "both values are exactly zero" (`Model.IsZero`).

Some behaviour of the code is worth stating plainly:
- The JWT middleware answers "invalid token" both for a non-HMAC signing
  method and for a bad signature.
- Expiry is checked twice. golang-jwt v5 checks it first: it holds `exp`
  to whole seconds and passes a token only while the clock is strictly
  before it. The explicit check then compares whole seconds with `>`. By
  itself it would let a token through until the end of its expiry second
  (`ExpiryInWholeSeconds`), but the library has already refused the token
  from the start of that second. So the explicit check never rejects
  anything (`LibraryExpiryDecides`); its only effect is the nil dereference
  listed under Findings.
- In the history cache, `found` is false only when the user has no key.
  A user that `PopulateFromMap` dropped is a miss again.
- The removal that `Get` schedules deletes its token unconditionally. If the
  token was `Set` again before the removal runs, the fresh verdict is lost
  (`StaleRemovalDropsFreshVerdict`). This costs only a second call to the
  auth service, never a wrong verdict.

## Model

| member | source | states |
|---|---|---|
| `TokenVerdictCache.TokenCache.constructor` | internal/cache/token_cache.go:19-24 | a new cache is empty, has no pending removals, and its TTL is 15 minutes |
| `TokenVerdictCache.TokenCache.Get` | internal/cache/token_cache.go:26-48 | answers (verdict, true) for a present entry not past its expiry, (false, false) otherwise; it never changes the map, and it queues a removal for a stale entry only |
| `TokenVerdictCache.TokenCache.RunRemoval` | internal/cache/token_cache.go:39-43 | a scheduled removal deletes its token whatever the entry holds by then, and leaves the queue without it |
| `TokenVerdictCache.TokenCache.Set` | internal/cache/token_cache.go:50-58 | overwrites the entry for the token with the given verdict (true or false) and expiry now + TTL; no other entry changes |
| `TokenVerdictCache.TokenCache.Cleanup` | internal/cache/token_cache.go:61-71 | the map afterwards is exactly the entries not stale at `now`, with their values unchanged |
| `TokenVerdictCache.NeverSetMisses` | internal/cache/token_cache.go:30-33 | a token that is not in the map answers (false, false) |
| `TokenVerdictCache.SetThenLookup` | internal/cache/token_cache.go:36-56 | after Set(t, v) at T, a lookup at any instant in [T, T+TTL] answers (v, true), the instant T+TTL included; after T+TTL it answers (false, false) |
| `TokenVerdictCache.SetLeavesOthers` | internal/cache/token_cache.go:50-58 | Set changes no other token's lookup and schedules no removal |
| `TokenVerdictCache.GetOnlySchedules` | internal/cache/token_cache.go:36-44 | Get leaves the map as it was; a hit or an absent token queues nothing, and a stale entry queues exactly its own removal |
| `TokenVerdictCache.CleanupExact` | internal/cache/token_cache.go:61-71 | Cleanup keeps an entry iff it is not stale at `now`, with its value unchanged |
| `TokenVerdictCache.CleanupIdempotent` | internal/cache/token_cache.go:65-70 | after Cleanup no entry is stale at `now`, so a second Cleanup at `now` is a no-op |
| `TokenVerdictCache.CleanupPreservesLookups` | internal/cache/token_cache.go:61-71 | Cleanup at T does not change the answer of any lookup at T or later |
| `TokenVerdictCache.EntrySurvives` | internal/cache/token_cache.go:26-71 | an entry with no removal pending stays unchanged, with no removal scheduled, through any operations that do not re-Set it and do not look at it or clean up after its expiry |
| `TokenVerdictCache.SetServesForTTL` | internal/cache/token_cache.go:36-58 | after Set(t, v), with no removal of t pending, lookups of t up to T+TTL answer (v, true) across any harmless operations |
| `TokenVerdictCache.StaleRemovalDropsFreshVerdict` | internal/cache/token_cache.go:39-43 | a removal scheduled by a stale Get and run after a fresh Set deletes the fresh verdict, so a lookup within the new TTL misses |
| `BearerHeader.Split` | internal/middlewares/auth.go:22 | strings.Split on one character gives at least one part, no part holds the separator, and joining the parts with the separator gives the input back |
| `BearerHeader.SplitLength` | middleware/auth.go:41 | Split gives one more part than there are separators in the input |
| `BearerHeader.SplitJoin` | middleware/auth.go:41 | splitting a join of separator-free parts gives those parts back |
| `BearerHeader.ParseBearer` | internal/middlewares/auth.go:22-27 | a token is yielded only from a header that is "Bearer " followed by that token, which has no space |
| `BearerHeader.ParseBearerExact` | internal/middlewares/auth.go:22-27 | the format check yields token t iff the header is "Bearer " followed by t and t has no space, in both directions |
| `BearerHeader.RejectsOtherForms` | middleware/auth.go:41-46 | a header that is not "Bearer " plus a space-free remainder is refused |
| `BearerHeader.RejectsEmpty` | internal/middlewares/auth.go:22-26 | the empty header has no bearer token |
| `BearerHeader.RejectsBareScheme` | internal/middlewares/auth.go:22-26 | "Bearer" alone is refused |
| `BearerHeader.RejectsOtherScheme` | internal/middlewares/auth.go:22-26 | "Token abc" is refused |
| `BearerHeader.RejectsThreeParts` | internal/middlewares/auth.go:22-26 | "Bearer a b" is refused |
| `BearerHeader.RejectsDoubleSpace` | internal/middlewares/auth.go:22-26 | "Bearer  abc" (two spaces) is refused |
| `BearerHeader.AcceptedExamples` | internal/middlewares/auth.go:22-27 | "Bearer abc" yields "abc", and "Bearer " yields the empty token |
| `RemoteAuth.AuthMiddleware` | internal/middlewares/auth.go:13-57 | an empty header gives 401 "Authorization header required" and a malformed one 401 "Invalid Authorization header format", neither touching the cache or the auth service; a cache hit decides (proceed iff true, else 401 "Invalid token") without the auth service; on a miss a validator error gives 500 and caches nothing, and a verdict v is Set and the request proceeds iff v |
| `RemoteAuth.RepeatedRequest` | internal/middlewares/auth.go:29-48 | a token validated once is judged from the cache when presented again within the TTL: no second call to the auth service, same outcome |
| `JwtAuth.KeyFunc` | middleware/auth.go:51-58 | the key function yields the configured secret iff the signing method is HMAC |
| `JwtAuth.ParseWithClaims` | middleware/auth.go:51-58 | an undecodable token, or one the key function refuses, is an error other than expiry; on success the method is HMAC, the claims are the decoded ones and the library passed the token under the configured secret; an expiry error is the library's own |
| `JwtAuth.CheckAsWritten` | middleware/auth.go:33-92 | an empty header is "authorization header is required"; whenever the chain gets past the library, the header is "Bearer <token>" and the library passed the token with the decoded claims, and the chain crashes iff exp is absent; an accepted token has exp in or after now's second and a parseable user_id, and the identity comes from the claims |
| `JwtAuth.CheckAcceptsExactly` | middleware/auth.go:33-100 | the chain accepts with identity id iff the header is "Bearer <token>", the token is HMAC-signed and verified, verified under the configured secret at now, its exp is present and its second is not before now's, its user_id parses to id's user ID, and email and role come from the claims |
| `JwtAuth.EmptyHeaderFirst` | middleware/auth.go:33-38 | an empty header is "authorization header is required" whatever the token oracles say |
| `JwtAuth.MalformedHeaderBeforeToken` | middleware/auth.go:41-46 | a non-empty header not of the form "Bearer <space-free token>" is "invalid authorization header format", never a token error |
| `JwtAuth.NonHmacIsInvalid` | middleware/auth.go:51-69 | a token whose signing method is not HMAC is "invalid token", even when the library would report it expired |
| `JwtAuth.ParseErrorsClassified` | middleware/auth.go:61-77 | ErrTokenExpired is reported as "token has expired"; any other parse error, and a parsed token that is not valid, as "invalid token" |
| `JwtAuth.ExpiryInWholeSeconds` | middleware/auth.go:80-84 | the explicit check alone: past a library verdict that passed the token, it is accepted iff now is before the end of exp's second |
| `JwtAuth.LibraryExpiryDecides` | middleware/auth.go:51-84 | with a library that follows its `exp` rule, acceptance of a token with exp and a parseable user_id is exactly the library passing it, and an accepted token's clock is before the start of exp's second, so the explicit check never rejects |
| `JwtAuth.BadUserIdLast` | middleware/auth.go:87-92 | a token that passes every earlier check but whose user_id is not a UUID is "invalid user ID" |
| `JwtAuth.MissingExpiryDereferencesNil` | middleware/auth.go:80 | as written, a verified HMAC token with no exp claim reaches the explicit expiry check and dereferences a nil expiry |
| `JwtAuth.Check` | middleware/auth.go:33-92 | accepts only what the code as written accepts, and rejects as expired the verified tokens without `exp` on which the code crashes |
| `JwtAuth.CorrectedCheckAgrees` | middleware/auth.go:33-100 | the corrected chain answers what the code answers wherever the code does not crash, and rejects as expired where it would |
| `JwtAuth.AuthMiddleware` | middleware/auth.go:26-102 | on success userID, email and role are written to the context, the request proceeds, and GetUserID then returns the user ID; on any failure the request is aborted with 401 and that failure's message, and the context is untouched |
| `JwtAuth.GetUserID` | middleware/auth.go:105-113 | an error exactly when no userID is in the context, otherwise the stored UUID |
| `PredictionCache.CacheRepository.constructor` | repository/cache_repository.go:33-37 | a new repository has no users and no index additions |
| `PredictionCache.CacheRepository.SavePrediction` | repository/cache_repository.go:41-64 | a zero result changes nothing; any other result becomes its user's list [p] + old list (empty if the user was absent), no other user changes, and p is added to the index by ID |
| `PredictionCache.CacheRepository.GetUserPredictions` | repository/cache_repository.go:67-85 | found is false exactly when the user has no key; when found, the stored list without zero entries in the same order, also for an empty list; the state is not changed |
| `PredictionCache.CacheRepository.PopulateFromMap` | repository/cache_repository.go:88-104 | the per-user map becomes exactly the given map, unfiltered; earlier index additions are kept and the new ones are exactly the listed predictions |
| `PredictionCache.NonZeroMembers` | repository/cache_repository.go:77-84 | the filtered list holds exactly the meaningful entries of the stored one |
| `PredictionCache.NonZeroPrepend` | repository/cache_repository.go:77-84 | filtering keeps order: filtering [p] + xs is p (if meaningful) followed by filtering xs |
| `PredictionCache.NonZeroKeepsMeaningful` | repository/cache_repository.go:77-84 | a list without zero entries is returned unchanged |
| `PredictionCache.NonZeroIdempotent` | repository/cache_repository.go:77-84 | filtering twice is filtering once |
| `PredictionCache.ZeroSaveChangesNothing` | repository/cache_repository.go:42-45 | saving a zero result leaves every user's list unchanged |
| `PredictionCache.SaveLeavesOthers` | repository/cache_repository.go:50-58 | saving for one user leaves every other user's key, list and lookup as they were |
| `PredictionCache.SaveThenLookup` | repository/cache_repository.go:51-84 | after a non-zero save of p the user is found, with p first, followed by what the lookup answered before |
| `PredictionCache.ColdMissThenSave` | repository/cache_repository.go:51-84 | a user without a key is a miss; after one non-zero save the lookup answers exactly [p] |
| `PredictionCache.SavesNewestFirst` | repository/cache_repository.go:56-58 | saving r1 then r2 lists r2, r1 before the older entries |
| `PredictionCache.LookupNeverZero` | repository/cache_repository.go:76-84 | a lookup never answers a zero result, even from lists populated without filtering |
| `PredictionService.Service.constructor` | service/service.go:43-51 | a new service has issued no writes |
| `PredictionService.Service.PredictWith` | service/service.go:198-242 | returns the decoded result or the error, and appends exactly the writes of the specification; no zero result is ever issued |
| `PredictionService.Service.Predict` | service/service.go:158-243 | the full endpoint: the result or error of the ML reply, and the writes specified for a "predict" record that keeps the request |
| `PredictionService.Service.PredictMinimal` | service/service.go:246-313 | the minimal endpoint: the result or error of the ML reply, and the writes specified for a "predict/minimal" record with the zero request |
| `PredictionService.Service.GetUserStatistics` | service/service.go:386-413 | a cached user (even with an empty list) is answered from the cache without a store query; otherwise the store's list, or its error; the statistics always carry the requested user |
| `PredictionService.DecodeReply` | service/service.go:172-203 | the call succeeds iff the ML service answered 200 with a body that decodes as a result, which is then returned; a transport failure is returned as such; a non-OK status gives the error object's message, or "ml service error: <status>" when the body is not one (lines 256-281 do the same for the minimal endpoint) |
| `PredictionService.Record` | service/service.go:206-214 | the history record carries the fresh ID, the caller, the result and the clock; it is "predict" with the request for the full endpoint and "predict/minimal", minimal, with the zero request for the minimal one; it counts as meaningful iff the result is non-zero (lines 284-291 build the minimal record) |
| `PredictionService.FailureIssuesNothing` | service/service.go:163-203 | any failure before the result is decoded is returned and issues no write |
| `PredictionService.NonOkStatusFails` | service/service.go:188-196 | a non-OK status is always an error, "ml service error: <status>" when the body is not an error object |
| `PredictionService.ResultIndependentOfWrites` | service/service.go:216-242 | the caller gets the decoded result whether or not writes are issued, and writes are issued iff that result is non-zero |
| `PredictionService.NonZeroIssuesOneOfEach` | service/service.go:205-236 | a non-zero result issues exactly one durable write and one cache write; the record has the caller's ID, the fresh ID, the result, the endpoint type, the minimal flag and the request (zero for minimal) |
| `PredictionService.PredictionReachesHistory` | service/service.go:228-236 | once the issued cache write completes, the new record is the newest entry of the caller's history lookup |
| `PredictionService.HistoryScenario` | service/service.go:216-239 | a (19.99, 42.0) prediction then a (0, 0) one, for a user new to the cache, leave exactly the first record in the history |

## Left out

- Concurrency: the read/write mutexes of both caches are not modelled, and operations run one at a time. The goroutine that `TokenCache.Get` starts is the `pending` queue and `RunRemoval`. The two fan-out goroutines of `Predict` and `PredictMinimal` are the `issued` log. When those writes complete is not modelled; `ApplyCacheWrites` applies cache writes in issue order.
- The 5-minute ticker that calls `Cleanup` (cmd/main.go) is wiring. `Cleanup` is modelled as an operation that can run at any point.
- The hashicorp LRU index by prediction ID: only the calls to its `Add` are recorded (`indexAdds`). Its capacity, eviction and contents are not modelled because nothing in the code reads it. For the same reason, `NewCacheRepository`'s error for a non-positive size is not modelled.
- PredictionCache.CacheRepository.SavePrediction: the returned error is always nil and is not modelled.
- golang-jwt's decoding, signature verification and registered-claims validation are oracles (`JwtAuth.Oracles`), and so is `uuid.Parse`. The verdict oracle receives the token, the key the key function returned and the clock. The key function and the order in which the library calls it are modelled.
- The library's rule for `exp` (optional, whole seconds, passed only strictly before it) is not built into the verdict oracle. It is stated as the predicate `JwtAuth.HonoursExp` and assumed by the lemmas that need it (`LibraryExpiryDecides`); the other lemmas hold for any verdict oracle.
- The library and the explicit expiry check each read the clock; the model uses one reading `now` for both.
- JwtAuth.GetUserID requires that any `userID` in the context is a UUID. The source's type assertion would panic otherwise, and the middleware only ever stores a UUID there.
- JwtAuth.AuthMiddleware uses the corrected check (see Findings). For a verified token without `exp`, it rejects where the code dereferences a nil pointer.
- The gRPC `ValidateToken` call (internal/grpc/client.go) is an oracle `string -> Validation`.
- The ML service's HTTP exchange is an oracle (`MlReply`), including JSON decoding of its body. Marshalling the request is left out; in Go it can fail only for NaN or infinite floats.
- The durable store (repository/db_repository.go) is an oracle. Its query's zero filter and newest-first ordering are not modelled. Its own zero skip on insert is never reached, because the service issues no zero writes.
- `uuid.New()` and `time.Now()` are parameters (`id`, `now`, `getNow`, `setNow`).
- Logging, HTTP routing and response shaping are not modelled. This includes the controller, server, handlers, the analytics stub, configuration lookup and `main` wiring.
- `RegisterUser`, `LoginUser`, `TrainModels` and `GetModelStatus` are plain HTTP forwarding with no state or decision beyond status checks, and are not modelled.
- Floating-point subtleties (NaN, infinities) are not modelled. Results are `real`, and only the test against zero matters; -0.0 compares equal to 0 in Go as it does here.

## Findings

| source | as written | input that shows it | evidently intended | confidence | as-written member | corrected member |
|---|---|---|---|---|---|---|
| middleware/auth.go:80 | `claims.ExpiresAt.Unix()` is called with no nil check on `ExpiresAt` | an HMAC token with a valid signature and a valid `user_id` but no `exp` claim: golang-jwt v5 treats `exp` as optional, so parsing succeeds and `token.Valid` holds, and the nil dereference panics (gin's recovery then answers 500) | a token without an expiry is rejected with 401 like an expired one | medium, not executed | `JwtAuth.MissingExpiryDereferencesNil` | `JwtAuth.Check` |
