# Verified model of the auth service

A Dafny model of the stateful parts of a small Go authentication service: the Redis token bucket and
the middleware that charges it, the account lockout, refresh-token rotation, the authenticated request
pipeline with its response cache, the admin bootstrap, and the threat summary. They share one clock,
one Redis keyspace and the tables `users`, `login_attempts` and `refresh_tokens`.

`dafny verify dfyconfig.toml` checks everything.

## What is here

| file | models |
|---|---|
| `TokenBucket.dfy` | the Lua script as real arithmetic: min-plus closed form, exact admission criterion, virtual clock |
| `BucketFaults.dfy` | eviction coupling, transparency of key expiry, erasing denied calls |
| `ScaledBucket.dfy` | a mutable bucket in exact integers that simulates the script |
| `Keyspace.dfy` | the four families of Redis keys and their unique decoding |
| `RedisStore.dfy` | Redis with expiry, outages and lost replies; the script, `Get`, `Set` and the fail-open limiter |
| `Quotas.dfy` | every bucket of the shared store at once, with an account of what each has let through |
| `RolePolicies.dfy` | what each role's policy and the login policy come to, in numbers |
| `Domain.dfy`, `AdminGate.dfy` | users, roles, access tokens; who can hold the admin role and what an admin request proves |
| `Pipeline.dfy` | the middleware chains the router builds, and the limiter middlewares |
| `Gateway.dfy` | the whole request pipeline as one interleaved state machine |
| `GatewayQuota.dfy`, `GatewayCache.dfy` | the end-to-end quota and the staleness of cached responses over its runs |
| `QuotaInNumbers.dfy` | the end-to-end quota role by role, in terms of the run's own events |
| `GatewayHandlers.dfy` | what the cached routes answer, row by row, in every run |
| `GatewayOrigins.dfy` | where in the run a cached reply comes from |
| `GatewayFaults.dfy` | cache faults never change a request's answer; a filled cache is hit |
| `AdminPipeline.dfy` | the accounts machine and the pipeline together: admin routes end to end |
| `ResponseCacheMiddleware.dfy` | the response cache and its capturing writer, statement by statement |
| `Lockout.dfy` | interleaved logins on one attempt table |
| `Rotation.dfy`, `SingleUse.dfy`, `Lineage.dfy` | interleaved refreshes and logouts on one token table; when a token is used more than once; families, lifetimes, conservation |
| `AuthService.dfy` | the service and its repositories as classes, tied to the machines above |
| `ThreatWindow.dfy`, `ThreatService.dfy` | the newest-first queries, the reported window, and the cached summary |

Interleaving lives in the state machines (`AdminGate`, `Lockout`, `Rotation`, `Gateway`): one event is
one SQL statement or Redis command, events of different requests mix freely, and faults are events or
arguments of events. The classes in `AuthService` run one request at a time; ghost histories and
contracts over all runs tie their tables to runs of those machines, so what is proved of all runs holds
of the states they reach.

## What the code does not guarantee

- `docs/swagger.yaml` says that a refresh invalidates the previous token. `Revoke` is unconditional, so
  from every state in which two refreshes have read a row and neither has revoked it, both can succeed
  and leave two live tokens of one login (`SingleUse.OverlapForksFamily`). Two successors of a token
  always come from two overlapping refreshes, a token mints at most as many successors as refreshes of
  it overlap, some run mints that many, and so a token is single-use in all runs with at most `k`
  overlaps exactly when `k <= 1` (`SingleUse.SingleUseExactly`).
- The configured lockout maximum holds for sequential logins. With up to `k` logins between their check
  and their record, `max - 1 + k` failures fit in a window, and some run reaches that number
  (`Lockout.LockoutBoundIsReached`).
- The limiter stores whatever timestamp the last pod sent. A denied call stamped in the past rewinds the
  bucket and mints a token (`BucketFaults.RewoundDenialMintsToken`); `DenialInvisibleExactly` says when
  exactly a denied call leaves no trace.
- An eviction can later deny a call that would have been admitted, although in total it only adds
  admissions: `BucketFaults.EvictionCanDenyLater` is such a run, and `BucketFaults.EvictionDeniesExactly`
  says exactly when it happens.
- A cache TTL that is not positive means entries without expiry, and then no bound on staleness
  (`GatewayCache.StalenessUnbounded`).
- The role `analyst` has a quota, but no operation of the service ever assigns it
  (`AdminGate.OnlySeededAdmins`).

## Assumptions

- SHA-256 is injective on the tokens in play, so a row is keyed by the token itself; bcrypt matches
  exactly the password that was hashed.
- JWT signatures are ideal: only issued tokens verify, and a token is accepted only before its expiry
  (section 4.1.4 of RFC 7519), which `jwt.NewNumericDate` truncates to whole seconds.
- Bucket arithmetic is over reals, and over exact integers in `ScaledBucket`.
- Each Redis script or command and each SQL statement is one atomic step; the database is written only
  through this code; the primary keys and the UNIQUE constraints on `users.email` and
  `refresh_tokens.token_hash` hold.
- Times are integer milliseconds. In `Lockout` pods' clocks may disagree; only within one login does the
  clock not run backwards between its check and its record. Timestamps of `Gateway` requests are
  arbitrary, while Redis keeps its own clock.
- Redis serves a key up to and including the millisecond it expires. A TTL that is not positive sets no expiry. A
  negative SQL limit is no limit. A UUID prints as 36 characters.

## Model

| member | source | states |
|---|---|---|
| TokenBucket.ClosedForm | pkg/ratelimit/redis_limiter.go:31-47 | for every sequence of calls on a key, backward timestamps included, the tokens call n finds are the minimum over i <= n of burst + rate·(V_n − V_i)/1000 − (admissions in i..n−1) |
| TokenBucket.AdmissionCriterion | pkg/ratelimit/redis_limiter.go:38-45 | call n is admitted if and only if, for every i <= n, admitting it keeps the admissions in i..n within burst plus the refill since call i |
| TokenBucket.VirtualIsElapsed | pkg/ratelimit/redis_limiter.go:38 | the virtual clock never runs slower than the timestamps and equals elapsed time when they are ordered |
| TokenBucket.ClockStep | pkg/ratelimit/redis_limiter.go:38 | one more call advances the virtual clock by exactly what the clamped difference credits |
| TokenBucket.TokensInRange | pkg/ratelimit/redis_limiter.go:33-47 | every hash any run leaves holds between 0 and burst tokens, and the last caller's timestamp even if it is earlier |
| TokenBucket.WriteInRange | pkg/ratelimit/redis_limiter.go:33-47 | one call keeps the stored tokens in range; an absent key is a full bucket |
| TokenBucket.AtOnce | pkg/ratelimit/redis_limiter.go:38-45 | of n calls at one moment a bucket admits as many as it has whole tokens |
| TokenBucket.BurstAtOnce | pkg/ratelimit/redis_limiter.go:31-47 | on a key that starts absent, calls at one stamp are admitted up to the burst, emptying the bucket one token each |
| BucketFaults.EvictionCoupling | k8s/production/redis-deployment.yaml:30-33 | at every prefix of every run, admissions with k evictions minus admissions without lie between 0 and k·burst |
| BucketFaults.EvictionsAreCounted | k8s/production/redis-deployment.yaml:30-33 | k is the number of evictions in the run |
| BucketFaults.AdmissionsAreCounted | pkg/ratelimit/redis_limiter.go:41-45 | the admissions it is compared with are those of the plain run of all calls |
| BucketFaults.EvictionCanDenyLater | pkg/ratelimit/redis_limiter.go:33-47 | a run in which the evicted bucket later denies a call the other admits |
| BucketFaults.EvictionForgets | pkg/ratelimit/redis_limiter.go:33-36 | the evicted bucket stands where the calls since its last eviction alone would have left it |
| BucketFaults.EvictedAdmitsExactly | pkg/ratelimit/redis_limiter.go:33-47 | under evictions a call is admitted if and only if every stretch beginning after the last eviction fits |
| BucketFaults.EvictionDeniesExactly | pkg/ratelimit/redis_limiter.go:33-47 | evictions deny a call that would have been admitted if and only if every stretch of all calls fits and one since the last eviction does not, and only when they had added an admission before |
| BucketFaults.ExpiryFindsFullBucket | pkg/ratelimit/redis_limiter.go:33-39 | a key idle for a full refill would have been full, so finding it gone changes neither decision nor hash |
| BucketFaults.ExpiryTransparency | pkg/ratelimit/redis_limiter.go:48-51 | a store that drops keys after their TTL decides and stores as one that never does, on every run in which Redis's idle gaps exceed the pods' by at most 1001 ms: the added second and the last millisecond Redis still serves |
| BucketFaults.LastingIsPlain | pkg/ratelimit/redis_limiter.go:31-47 | the store that never drops a key is the plain run of its calls |
| BucketFaults.FullRefillIsLeast | pkg/ratelimit/redis_limiter.go:50 | the refill time in the TTL is the least number of milliseconds that fills an empty bucket |
| BucketFaults.SlackIsTight | pkg/ratelimit/redis_limiter.go:50 | with one millisecond of disagreement more an expiry hands out a token too early |
| BucketFaults.SlackIsTightForAll | pkg/ratelimit/redis_limiter.go:50 | for every quota, after one burst, a disagreement one millisecond beyond the slack admits a second whole burst where the kept key admits less |
| BucketFaults.ErasingDenied | pkg/ratelimit/redis_limiter.go:38-47 | on ordered timestamps, deleting any set of denied calls leaves every remaining decision unchanged |
| BucketFaults.RewoundDenialMintsToken | pkg/ratelimit/redis_limiter.go:38-47 | a denied call stamped in the past makes a later call pass that would otherwise be denied |
| BucketFaults.DenialInvisibleExactly | pkg/ratelimit/redis_limiter.go:38-47 | a denied call leaves the next call's tokens unchanged if and only if its stamp lies between its neighbours', both gaps run backwards, or the bucket is full either way |
| ScaledBucket.GainInParts | internal/middleware/ratelimit.go:53 | at rate perMinute/60, a token cut into 60000 parts earns exactly perMinute parts per millisecond |
| ScaledBucket.RefillInParts | pkg/ratelimit/redis_limiter.go:38-45 | the integer refill, cap and decision are the script's on the hash the parts stand for, within 0..burst |
| ScaledBucket.Bucket.Allow | pkg/ratelimit/redis_limiter.go:31-47 | the mutable integer bucket gives the script's decision on every trace and stays in its state |
| RolePolicies.RoleObtains | internal/middleware/ratelimit.go:25-36 | any number of calls at one moment on an unused key are admitted up to 30, 20 and 10 for admin, analyst and viewer, the next exactly from 500, 1000 and 2000 ms later; no other role has a policy |
| RolePolicies.LoginObtains | internal/router/router.go:89-92 | a client address gets the configured maximum at once and that many a minute, and nothing if the maximum is not positive |
| Keyspace.KeyRoundTrip | internal/middleware/ratelimit.go:52 | every key the program builds decodes to exactly the family and parameters it was built from |
| Keyspace.StringRoundTrip | internal/middleware/response_cache.go:47 | a string decodes to a family and parameters if and only if it is the key built from them |
| Keyspace.KeysAreDistinct | internal/middleware/brute_force.go:18 | two keys are the same string if and only if family and parameters agree, whatever separators the parts contain |
| RedisStore.Redis.RunTokenBucket | pkg/ratelimit/redis_limiter.go:26-53 | the script's statements decide, store tokens, timestamp and TTL as the real-valued model does, and fail on a key of the wrong type |
| RedisStore.Redis.Get | pkg/cache/cache.go:46-56 | an unreachable server is an error; otherwise a miss exactly when the key is absent or expired, a type error exactly on a live hash, and else the stored payload |
| RedisStore.GetAfterSet | pkg/cache/cache.go:46-64 | what was set is what is read until its TTL runs out, or for good without one, and other keys read as before |
| RedisStore.Redis.Set | pkg/cache/cache.go:58-64 | replaces the key with its expiry, also when only the reply is lost |
| RedisStore.RedisLimiter.Allow | pkg/ratelimit/redis_limiter.go:70-81 | an unusable quota is refused without touching Redis; any error fails open; a lost reply still spends |
| Quotas.ChargeKeepsSound | pkg/ratelimit/redis_limiter.go:70-81 | a limiter call keeps every key of the store sound: bucket keys hold hashes in range under their own quota, with the timestamps and TTL of their last call, the others bytes |
| Quotas.EvictKeepsSound | k8s/production/redis-deployment.yaml:30-33 | so does the eviction of any key |
| Quotas.SaveKeepsSound | pkg/cache/cache.go:58-64 | so does storing any cached response or threat summary |
| Quotas.NoTypeErrors | pkg/ratelimit/redis_limiter.go:31-47 | in a sound store neither the script nor a cache read meets a value of the wrong type |
| Quotas.ChargeCountsOnce | pkg/ratelimit/redis_limiter.go:70-81 | a call enters its bucket's account once if it passes and not at all if it is refused |
| Quotas.ChargeSparesOthers | internal/middleware/ratelimit.go:52 | a call never touches another bucket's account |
| Quotas.RunExtendsTrace | pkg/ratelimit/redis_limiter.go:31-51 | unless its key was lost, a bucket on the shared store steps like one called alone that never expires |
| Quotas.BudgetStarts | pkg/ratelimit/redis_limiter.go:33-47 | at any moment a sound bucket holds no more than one burst, so a budget can start there |
| Quotas.ChargeKeepsBudget | pkg/ratelimit/redis_limiter.go:31-51 | a limiter call on any key keeps every bucket within the budget it has had since any earlier moment |
| Quotas.EvictKeepsBudget | k8s/production/redis-deployment.yaml:30-33 | so does the eviction of any key, at the price of one burst |
| Quotas.BudgetHolds | pkg/ratelimit/redis_limiter.go:31-51 | between two moments a bucket's passes are within one burst, its losses, its refill and its outages; its virtual time is that of its calls' timestamps |
| Quotas.LiveDecision | pkg/ratelimit/redis_limiter.go:31-51 | on the shared store a bucket whose key was not lost admits exactly by the admission criterion on its own calls |
| Quotas.EarlyOnlyBeyondSlack | pkg/ratelimit/redis_limiter.go:50-51 | an expiry grants nothing unless Redis measured more idle time than the timestamps show plus the slack |
| Domain.FindByEmail | internal/repository/user_repository.go:29-39 | finds a row with the email, and none only when there is none |
| Domain.FindByID | internal/repository/user_repository.go:41-51 | finds a row with the id, and none only when there is none |
| Domain.TokenLives | internal/service/jwt_service.go:44-55 | an access token carries its user's id and role, is accepted until less than a second before its configured lifetime ends, and never from then on |
| AdminGate.ReachableGuarded | internal/bootstrap/bootstrap.go:37-70 | in every interleaving of registrations, bootstraps, logins and refreshes: unique ids and emails, and whoever holds, is about to write or has signed an admin role is entitled to it |
| AdminGate.AdminIsForGood | internal/bootstrap/bootstrap.go:43-51 | over any continuation rows stay in place and a role changes only to admin, never from it |
| AdminGate.OnlySeededAdmins | internal/service/auth_service.go:60-64 | only emails given to the bootstrap ever hold admin; everyone else is a viewer |
| AdminGate.SeededExactly | internal/bootstrap/bootstrap.go:37-40 | the seeded emails are those some bootstrap call named with a password |
| AdminGate.RequireRole | internal/middleware/rbac.go:13-23 | the scan lets a request through if and only if its role is among the allowed ones |
| AdminGate.AdminGateHolds | internal/middleware/rbac.go:13-23 | a request that authenticates and passes the admin gate is for a user whose stored role is admin at that moment |
| AdminGate.RoleFreshness | internal/service/auth_service.go:144-148 | an accepted token's role was read from the user row less than the access lifetime plus the issuing request's duration ago |
| AdminGate.IssuedTokenAuthenticates | internal/service/auth_service.go:144-148 | a login or refresh that has read its user and signs issues a token that authenticates in every continuation for the whole lifetime and no longer |
| AdminGate.GrantsLive | internal/service/jwt_service.go:58-70 | every grant of every run authenticates for the configured lifetime from its signing, to the second, and not after |
| AdminGate.LoginReads | internal/repository/user_repository.go:29-39 | any stored user can be read for a login |
| AdminGate.RegisterRuns | internal/service/auth_service.go:47-69 | an undisturbed registration is the machine's lookup and write, and leaves nothing in flight |
| AdminGate.EnsureRuns | internal/bootstrap/bootstrap.go:37-70 | an undisturbed bootstrap is the machine's lookup and write: insert, promotion or nothing |
| AdminGate.EnsuredIsAdmin | internal/bootstrap/bootstrap.go:42-65 | once its write takes effect the email is an admin's, unless the constraints reject the row |
| AdminGate.EnsureIsIdempotent | internal/bootstrap/bootstrap.go:34-36 | where it has taken effect, doing it again changes nothing |
| Pipeline.New | internal/router/router.go:84-129 | the successive registrations give exactly four protected paths, each with its chain in order: authentication, on /admin the gate for admin, the limiter, on /auth/me and /admin/users the cache, the handler |
| Pipeline.FrontChargesOnce | internal/router/router.go:99-129 | 401 and 403 rejections spend nothing; otherwise the caller's own bucket is charged once, before cache and handler |
| Pipeline.FreshTokenGetsThrough | internal/router/router.go:99-129 | an unexpired token of any role, on an admin route of the admin role, reaches the cache or the handler as its own user when its bucket is unused |
| Pipeline.LimitByRole | internal/middleware/ratelimit.go:41-61 | 403 for a role without policy and Redis untouched; otherwise the bucket of role and user decides between 429 and onward |
| Pipeline.LimitLogin | internal/middleware/brute_force.go:15-26 | one bucket per client address, rate and burst both the configured maximum, decides between 429 and onward |
| Gateway.ReachableStore | internal/router/router.go:84-129 | the shared store is sound after every run of the pipeline |
| Gateway.KeyspacePartition | internal/middleware/response_cache.go:47 | in every reachable store each key decodes to one family and holds that family's values: bucket keys a hash under their one rate and burst, cache keys bytes |
| GatewayQuota.EverythingCharged | internal/router/router.go:95-103 | every response, hit or miss, and every request past the limiter was let through by the caller's bucket |
| GatewayQuota.QuotaEndToEnd | internal/middleware/ratelimit.go:41-61 | between any two moments of any run a caller's responses on all protected routes are at most those of its requests already let through + burst + perMinute·ΔV/60000, plus calls that failed open, plus one burst per eviction or early expiry; V is elapsed time on ordered stamps, no expiry is early within the slack, and at the start nothing is let through yet |
| GatewayQuota.RepliesAreExact | internal/router/router.go:99-129 | the responses it speaks of are all those written to the caller |
| QuotaInNumbers.CountersAreEvents | pkg/ratelimit/redis_limiter.go:75-80 | the account of a caller's bucket counts no more evictions and failed-open calls than the run had evictions of its key and calls of its own that Redis did not answer |
| QuotaInNumbers.QuotaByRole | internal/middleware/ratelimit.go:25-36 | within the slack an admin obtains at most 30 responses and 120 a minute, an analyst 20 and 60, a viewer 10 and 30, plus a burst per eviction and one per unanswered call; any other role none |
| GatewayQuota.NoPolicyNoReply | internal/middleware/ratelimit.go:46-50 | a caller whose role has no policy never gets a response past the limiter |
| GatewayQuota.NoEarlyExpiry | pkg/ratelimit/redis_limiter.go:48-51 | from any moment on, while Redis and the stamps differ by at most the slack per gap, expiries add nothing to the quota |
| GatewayCache.Reachable | internal/middleware/response_cache.go:39-89 | in every run each cache entry is spoiled or is the handler's 200 for its route and user on a committed table, with the expiry its `SET` gave it |
| GatewayCache.StalenessBound | internal/middleware/response_cache.go:39-89 | with a positive TTL every 200 on a cached route is the handler's for that route and user on a table current no longer ago than TTL plus the filling request's duration; a miss is current |
| GatewayHandlers.RespondMeans | internal/handler/auth_handler.go:141-173 | /auth/me answers 200 exactly for a user the table knows, with that user's own id, email and role, and 404 otherwise; /admin/users always with one body per row, newest first |
| GatewayHandlers.RepliesShowTheTable | internal/middleware/response_cache.go:39-89 | in every run each reply on a cached route, hit or miss, internal errors apart, shows on the table it names the caller's own row, 200 exactly if there is one, or all rows newest first |
| GatewayOrigins.HitOrigin | internal/middleware/response_cache.go:58-77 | every reply read from the cache goes back to one earlier request of the same user and route whose arrival, handler's read and fill happened at the times the bound speaks of |
| GatewayCache.StalenessUnbounded | internal/middleware/response_cache.go:77 | without a positive TTL an answer the handler stopped giving is replayed after any delay |
| GatewayFaults.MissesExactly | internal/middleware/response_cache.go:49-56 | in every reachable state a lookup misses exactly when the server does not answer, nothing live is stored, or what is stored does not decode |
| GatewayFaults.FaultsAreInvisible | internal/middleware/response_cache.go:49-77 | from every state, a request whose lookup does not hit gets, after whatever others do, exactly the reply of a request that never went to the cache; whatever happens until and to its fill adds no reply and takes none back |
| GatewayFaults.FillMakesHits | internal/middleware/response_cache.go:49-89 | while a stored entry is left alone and its TTL has not run out, the user's next lookup on the route is answered with exactly the stored response |
| AdminPipeline.HalvesAreRuns | internal/router/router.go:117-129 | accounts and pipeline, run together, are each a run of their own machine |
| AdminPipeline.AdminsOnlyEndToEnd | internal/router/router.go:117-129 | after every prefix of every run, each reply on an admin route and each request past its limiter is for a user whose stored role is admin, and handlers read the accounts' own table |
| AdminPipeline.RoleIsFreshOnArrival | internal/middleware/auth.go:16-40 | the role a request is let in under was read from its user's row less than the access lifetime plus the issuing request's duration before |
| ResponseCacheMiddleware.CaptureWriter.Write | internal/middleware/response_cache.go:99-102 | the client and the buffer receive the same bytes |
| ResponseCacheMiddleware.HandleCaptured | internal/middleware/response_cache.go:58-62 | after the handler the buffer is exactly the body the client was sent |
| ResponseCacheMiddleware.JoinKeepsWrites | internal/middleware/response_cache.go:94-107 | a captured body tells exactly which writes left it |
| ResponseCacheMiddleware.Replay | internal/middleware/response_cache.go:81-89 | the client receives the stored status, content type and body |
| ResponseCacheMiddleware.ServeCached | internal/middleware/response_cache.go:39-79 | no identity bypasses the cache; a hit replays what was stored; anything else answers as the handler does and stores it only for an unaborted 200 |
| Lockout.StepKeepsCap | internal/service/auth_service.go:73-97 | every step keeps failures in a window plus logins in flight that may still land there within max − 1 + k |
| Lockout.CountIsExact | internal/repository/login_attempt_repository.go:29-36 | the count is the number of the email's unsuccessful rows stamped since then |
| Lockout.FailuresAreExact | internal/repository/login_attempt_repository.go:29-36 | the failures of a closed window are those since its start less those after its end |
| Lockout.LockoutBound | internal/service/auth_service.go:72-97 | in every interleaving with at most k logins in flight on an email, a closed window of the configured length holds at most max − 1 + k recorded failures |
| Lockout.LockoutBoundIsReached | internal/service/auth_service.go:72-97 | for every policy and k > 0 some run with k in flight reaches that number |
| Lockout.WindowsForIsCeiling | internal/service/auth_service.go:73 | an interval of length L takes L/window windows rounded up, at most the floor plus one |
| Lockout.GuessBudget | internal/service/auth_service.go:73-96 | an interval of any length holds at most that cap per window needed to cover it, successful logins notwithstanding |
| Lockout.SequentialStep | internal/service/auth_service.go:72-97 | a sequential login leaves the log alone when locked and otherwise adds exactly its row |
| Lockout.SequentialCap | internal/service/auth_service.go:73-96 | sequential logins record at most max failures per window and max·(floor(L/window) + 1) in any interval of length L |
| Lockout.SequentialLogIsSorted | internal/repository/login_attempt_repository.go:22-27 | the recorded failures of an email are in time order |
| Lockout.LockTest | internal/repository/login_attempt_repository.go:29-36 | filter-and-count equals looking only at the max-th most recent failure |
| Lockout.ExactUnlock | internal/service/auth_service.go:73-80 | once locked, whatever attempts are made until f + window, nothing more is recorded and the account is locked at t if and only if t <= f + window |
| Rotation.Reachable | internal/service/auth_service.go:100-120 | in every interleaving with faults: unique ids and tokens, successors after their parents, and a row that has a successor is revoked |
| Rotation.RevocationIsPermanent | internal/repository/token_repository.go:42-48 | over any continuation no row changes identity or loses its revocation |
| Rotation.NoUseAfterRevoke | internal/service/auth_service.go:105-110 | after any run a refresh of a token is refused as revoked if and only if some refresh or logout has revoked its row, and otherwise as expired exactly when it is |
| Rotation.ReadsPrecedeRevokes | internal/service/auth_service.go:100-118 | whoever passes the checks on a row read it before every revoke of it |
| SingleUse.SuccessesOverlap | internal/service/auth_service.go:100-120 | two successors of one token come from two different refreshes, each of which read the row before the other's revoke |
| SingleUse.UseOf | internal/service/auth_service.go:100-120 | every successor was minted by one refresh that read and then revoked its parent, and its family's lifetime is reckoned with the times of that read and insert |
| Rotation.SuccessorsBounded | internal/service/auth_service.go:100-120 | a token mints at most as many successors as refreshes of it ever overlap |
| SingleUse.SuccessorsBoundIsReached | internal/service/auth_service.go:100-120 | for every k some run with at most k overlaps mints k successors, all live |
| SingleUse.SingleUseExactly | internal/repository/token_repository.go:42-48 | a token mints at most one successor in all runs with at most k overlaps if and only if k <= 1 |
| SingleUse.OverlapForksFamily | internal/service/auth_service.go:105-119 | from every state in which two refreshes have read one row and neither has revoked it, both can succeed and leave two live tokens of one login and user |
| Lineage.Lifetime | internal/service/auth_service.go:144-162 | every token descends by finitely many rotations from one login, has its user, and expires within one lifetime per generation of it plus the rotations' own processing time |
| Lineage.LifetimeWithin | internal/service/auth_service.go:144-162 | n rotations after its login a token expires within n + 1 lifetimes, plus n times the longest a rotation took from check to stamp |
| Lineage.NoUseAfterLifetime | internal/service/auth_service.go:108-110 | no refresh passes its checks later than that |
| Lineage.FamilyIsALine | internal/service/auth_service.go:112-119 | without branching, any two rows of one login are ancestor and descendant |
| Lineage.OneLivePerLogin | internal/service/auth_service.go:99-120 | when refreshes of one token never overlap, a login has at most one unrevoked token in every interleaving |
| Lineage.Conservation | internal/service/auth_service.go:99-132 | on every interleaving with faults anywhere: unrevoked rows + rows in hand = login rows − logouts that hit − refreshes that lost theirs + refreshes that revoked a revoked row |
| Lineage.LoginRowsAreCounted | internal/service/auth_service.go:95-96 | the rows the balance starts from are those inserted by logins |
| Lineage.SequentialConservation | internal/service/auth_service.go:99-132 | in sequential runs with faults: unrevoked rows = login rows − logouts that hit an unrevoked row − refreshes that revoked and then failed to issue |
| Lineage.SequentialOneLivePerLogin | internal/service/auth_service.go:99-120 | in sequential runs with faults a login has at most one unrevoked token |
| Lineage.RowsAfterIsRun | internal/service/auth_service.go:99-132 | the table after a sequence of whole requests is the one their statements reach in the machine |
| Lineage.LogoutIsFinal | internal/service/auth_service.go:123-132 | after a logout took effect, and any operations after it, the token is refused as revoked |
| AuthService.UserRepository.Create | internal/repository/user_repository.go:22-27 | inserts unless the constraints reject the row or the statement fails; a lost reply reports an error on an inserted row |
| AuthService.UserRepository.UpdateRole | internal/repository/user_repository.go:59-64 | changes the role of the one id and nothing else, also when only the reply is lost |
| AuthService.UserRepository.Inherits | internal/bootstrap/bootstrap.go:37-70 | in every table that registrations and bootstraps reach: unique users, viewers, and admins only under seeded emails |
| AuthService.TokenRepository.Create | internal/repository/token_repository.go:23-28 | inserts unless rejected; a lost reply reports an error on an inserted row |
| AuthService.TokenRepository.Revoke | internal/repository/token_repository.go:42-48 | stamps the row of the id whether or not it was revoked, and no other |
| AuthService.LoginAttemptRepository.Create | internal/repository/login_attempt_repository.go:22-27 | appends the row or nothing |
| AuthService.EnsureAdmin | internal/bootstrap/bootstrap.go:37-70 | each outcome says exactly what happened to the table, also when only a reply is lost; success leaves the email an admin's, and with a new id and no fault it succeeds; the call extends any run of the accounts machine by its own statements |
| AuthService.Service.Inherits | internal/service/auth_service.go:72-132 | every state of the service has the lockout cap in every window and the conservation of its live tokens |
| AuthService.Service.Register | internal/service/auth_service.go:47-69 | a new viewer, always when email and id are new and nothing fails; the email is taken if and only if some row has it; an error leaves the table alone unless only the reply was lost; the call extends any run of the accounts machine by its own statements |
| AuthService.Service.JudgeMeans | internal/service/auth_service.go:78-93 | locked exactly by the count; right only for a row with both the email and the password; wrong only if no such row exists |
| AuthService.Service.Login | internal/service/auth_service.go:72-97 | locked: untouched; no row with the email and password: invalid credentials and exactly one failed attempt; such a row: one successful attempt, and without faults a pair; a pair only for such a row, good for its user |
| AuthService.Service.RecordAttempt | internal/service/auth_service.go:164-171 | adds the attempt or, on error, nothing, and keeps the attempt table a run of the lockout machine |
| AuthService.Service.IssuedIsGood | internal/service/auth_service.go:144-162 | a pair's access token has the user's id and role and lives its lifetime, and its refresh token is redeemable for that user until its own expiry and expired after it |
| AuthService.Service.IssueTokens | internal/service/auth_service.go:144-162 | hands out a good pair exactly when its row is in the table and the insert reported no error |
| AuthService.Service.Refresh | internal/service/auth_service.go:100-120 | unknown, revoked, expired, orphaned: the error, and no change; success only on an unrevoked, unexpired row of the token, with a good pair for that row's user, and the old token is told to be revoked from then on; without faults a usable token always succeeds; every fault's effect on the table |
| AuthService.Service.RevokeAndIssue | internal/service/auth_service.go:116-119 | a failed revoke mints nothing; a failed insert leaves the row revoked |
| AuthService.Service.Logout | internal/service/auth_service.go:123-132 | an unknown token is no error; a known one is revoked unless an error is reported before the update; without an error the token is unknown or revoked afterwards |
| ThreatWindow.Earliest | internal/service/threat_service.go:109-128 | looking only at the two last elements gives the least timestamp over all records of both lists |
| ThreatWindow.OmittedAreOlder | internal/repository/audit_event_repository.go:28-36 | no row left out of a truncated list is newer than any row kept, and kept rows are the owner's |
| ThreatWindow.OwnedAreAll | internal/repository/login_attempt_repository.go:40-41 | the owner's rows are selected with all their copies, and no others |
| ThreatWindow.ListRecent | internal/repository/login_attempt_repository.go:38-46 | the owner's rows newest first, as many as the table has up to the limit; a row of the owner is missing only because the limit is reached, and is then no newer than any kept |
| ThreatService.Generate | internal/service/threat_service.go:143-187 | a fresh summary names the user, counts the user's rows of each table up to its limit and dates them from the oldest of the newest so many; each failure has its error |
| ThreatService.SummarizeUser | internal/service/threat_service.go:132-192 | a hit is returned as stored; a failure stores nothing; a fresh summary is stored as it is returned |
| ThreatService.SummaryIsReplayed | internal/service/threat_service.go:135-139 | a stored summary is what a second request within the TTL is answered with |

## Left out

- Gin, Gorm, go-redis, Viper, the HTTP server and its shutdown: library behaviour; only the table and Redis steps they perform are modelled.
- The internals of bcrypt, SHA-256, HMAC and `crypto/rand`: taken as ideal, as stated above.
- JSON and base64 encoding of cache entries: an abstract round trip that may fail to decode; a write error of the client's connection while a response is captured is not modelled.
- IEEE rounding in the Lua script: the arithmetic is over reals and exact scaled integers.
- The Ollama client and its timeout, the prompt text, logging, audit middleware, request ids, health checks and Swagger: presentation or I/O.
- DTOs, the mapping of errors to status codes beyond those of the middlewares, and configuration loading: single-branch facts.
- The public routes in the router's table: `Pipeline.New` builds the protected routes; of the public ones the pipeline machine keeps only the login limiter's calls on Redis.
- Kubernetes manifests, migrations tooling and load tests: only the UNIQUE constraints and the LRU policy appear, as facts about the environment.
- AuthService.Service.RecordAttempt: an attempt insert whose reply is lost counts as inserted, since its error is ignored.
- AuthService.Service.Login: as a method it runs alone on its tables; logins that interleave are the runs of `Lockout`, refreshes and logouts that interleave those of `Rotation`.
- AuthService.Service.Refresh: the access token's claims are not tied to `AdminGate`'s grants; there any login or refresh that reads a user row may sign.
- ThreatWindow.ListRecent: rows with equal timestamps come in one particular order; the lemmas about the query hold for any.
- Threat summaries inside `Gateway`: their steps are merged into one `SET` with arbitrary contents at an arbitrary moment, and the response of that route is arbitrary.
- IP addresses in the attempt table, and ids and actors of audit events beyond their owner and time.
