# Tinyauth, modelled and proved

Tinyauth is an authentication server: it signs users in, keeps their cookie sessions, rate-limits
password guessing, is an OpenID Connect provider for other applications, and decides for a reverse
proxy whether a request may pass. This project models the stateful parts of it and proves what they
promise over whole runs.

`dafny verify dfyconfig.toml` checks everything.

## How it is built

Every component comes in the same three layers.

* A specification: the state as a datatype, each operation as a function of state, clock and arguments.
  What the program draws from outside (Go's map iteration order, `GenerateString`, UUIDs, the clock, the
  answers of LDAP, Tailscale, bcrypt and TOTP) is an argument, constrained by an `Enabled` predicate.
* An imperative class with the program's own fields, loops and order of checks, whose methods are proved
  to do to the state exactly what the specification says.
* Theorems about the specification: what each answer takes and tells, exactly and in terms of request and
  stored data alone; invariants of every reachable state; statements about any two points of any run.

| files | part of the program |
|---|---|
| `CacheSpec`, `CacheStore`, `CacheRefinement`, `CacheSweep` | the timed, bounded cache under tickets, codes and login attempts |
| `OidcModel`, `OidcStore`, `OidcProtocol`, `OidcService` | the OpenID Connect provider: authorize, complete, token, userinfo, cleanup |
| `OidcAnswers` | what a request must show to be answered, and what it is told |
| `OidcProvenance`, `OidcRotation`, `OidcReplay`, `OidcCleanup`, `OidcCleanupExact` | what holds over its runs |
| `OidcInterleaving`, `OidcContinuation`, `OidcRevocation`, `OidcEarlyReplay`, `OidcRefreshes` | what holds when token requests run concurrently |
| `OidcTickets` | what holds when completions of authorization requests run concurrently |
| `LoginSpec`, `LoginTheorems`, `Lockdown` | failed-login counting and the global lockdown |
| `Contexts`, `AuthModel`, `AuthProtocol`, `AuthService` | cookie sessions, the context middleware, the sign-in handlers |
| `AuthAnswers` | what a request must show to be somebody, to get a session or to lose one |
| `AuthSessions`, `AuthExpiry`, `AuthSecondFactor`, `AuthLockout` | what holds over runs of sign-in |
| `KubernetesSpec`, `KubernetesService`, `KubernetesTheorems` | the label index of Kubernetes ingresses |
| `Acls`, `Access`, `ProxyService`, `AccessRequests`, `AccessRuns` | access rules, policy engine, proxy decision, a whole request through middleware and proxy, and the policy over runs |
| `UserFormat` | the one-line user format, its parser and its printers |
| `Base`, `Strings` | options, time, the needed parts of Go's `strings` |

Time instants are nanoseconds since the epoch; where the program stores whole seconds the model does, too.

## Assumptions

* The digests do not collide and are never empty (`OidcModel.ValidConfig`); drawn tokens and ids are new
  and not empty (`Enabled`); the clock does not run backwards. The replay window alone needs a clock that
  moves between two steps (`OidcReplay.ClockAdvances`), because at equal expiry times the cache may evict
  either entry.
* A locked section of the program is one atomic step, and reads the clock once. In `OidcProtocol` and
  `AuthProtocol` a step is a whole request: what `OidcProvenance`, `OidcRotation`, `OidcReplay`, `OidcCleanup` and the
  theorems about sign-in say is said of requests that do not overlap. `OidcInterleaving` splits token requests
  into their locked sections, with refreshes as a read and a write: that a code is redeemed once, exchanged at most
  once and by its own client, that tokens stay unique, and what a replay revokes, is proved there under every
  interleaving. `OidcTickets` does the same for the completion of authorization requests. Requests that overlap
  differ from requests that do not on three points, each proved exactly: a replay leaves no session behind
  (`OidcReplay.ReplayRevokes`, against `OidcRevocation.RevokedForGoodExactly`), a refresh token works once
  (`OidcRotation.RefreshTokenWorksOnce`, against `OidcRefreshes.WorksAgainExactly`), and a ticket yields one code
  (`OidcReplay.CompletedOnce`, against `OidcTickets.CompletesAgainExactly`).
  Lockdown has its two critical sections as separate steps.

## Where the code goes its own way

* A cache entry under the empty key is passed over when the soonest-expiring entry is evicted;
  `CacheSpec.EvictsSoonestIff` says when that shows.
* The access lists for paths are described as comma-separated in `internal/model/config.go` but are used as
  one regular expression each; the model follows the code. An app that has access lists but an empty OAuth
  whitelist refuses every OAuth user under both policies (`Access.UserVerdict`).
* A filter that consists of a single slash makes the program slice out of bounds, which ends the request
  without a grant; the model treats it as a broken filter.
* A cookie session can come to reach further than now plus the configured expiry, for expiries strictly between one
  and two hours: `AuthExpiry.NeverBeyondExactly`.
* A replay of a code deletes the session of its sub at that moment. If the request that redeemed the code has
  marked it but not yet issued its tokens, the session is stored afterwards: `OidcEarlyReplay.ReplayTooEarly`. A
  refresh that had read the session before can also write it back, over a newer session of that sub:
  `OidcRevocation.RevokedForGoodExactly`.
* Two refreshes with one token are both answered when both read its row before either writes:
  `OidcRefreshes.TokenWorksTwice`. Two completions of one ticket both yield a code when both look it up before
  either deletes it: `OidcTickets.TicketYieldsTwoCodes`.
* The policy also decides about an OAuth email that no whitelist mentions, and so about who makes a request that
  carries credentials as well. For whole requests the deny policy is therefore not always the stricter one:
  `AccessRequests.DenyIsStricterExactly`, and `AccessRuns.AllowCanRefuse` for a run that ends in such a request. A
  server that always ran under the deny policy stores no such session: `AccessRuns.DenyRunsAreStricter`.
* Where entries may lack a lifetime, as login attempts do, a sweep can decide which live entry is evicted later:
  `CacheSweep.SweepInvisibleExactly`. Login attempts never expire, so nothing of it shows there.
* One resync does not always repair the label index, two do: `KubernetesTheorems.OnePassExactly`,
  `KubernetesTheorems.OnePassIsNotEnough`, `KubernetesTheorems.ResyncHeals`.
* A user name with two dollar signs in a row does not survive printing and parsing: `UserFormat.DockerLineExactly`.

## Model

| member | source | states |
|---|---|---|
| CacheStores.CacheStore.Get | internal/service/cache_store.go:111-131 | a lookup finds a stored entry that has not expired and changes nothing |
| CacheStores.CacheStore.Update | internal/service/cache_store.go:51-79 | only a live entry is replaced; lifetime zero keeps its deadline; order and the other entries stay |
| CacheStores.CacheStore.Set | internal/service/cache_store.go:81-109 | the new state is the old one plus the entry, less one entry that the eviction rule allows if a full cache got a new key |
| CacheStores.CacheStore.Delete | internal/service/cache_store.go:133-145 | the entry leaves map and order, the order of the others stays |
| CacheStores.CacheStore.Sweep | internal/service/cache_store.go:147-155 | in whatever order the map is visited, exactly the expired entries leave map and order |
| CacheStores.CacheStore.EvictOne | internal/service/cache_store.go:157-184 | for every iteration order the removed entry is an expired one if any is, else a soonest-expiring one, else the earliest inserted |
| CacheStores.CacheStore.Size | internal/service/cache_store.go:186-190 | the number of stored entries, expired ones included |
| CacheStores.CacheStore.Clear | internal/service/cache_store.go:192-197 | empties map and order |
| CacheSpec.WithoutByIndex | internal/service/cache_store.go:133-139 | cutting the first occurrence out of a duplicate-free order removes the key and nothing else |
| CacheSpec.SetValid | internal/service/cache_store.go:81-103 | after an insertion order still lists exactly the stored keys once each, the bound holds, and no entry but the evicted one is lost or changed |
| CacheSpec.DeleteValid | internal/service/cache_store.go:133-139 | the same after a deletion, which takes one entry |
| CacheSpec.UpdateValid | internal/service/cache_store.go:51-73 | the same after an update |
| CacheSpec.SweepValid | internal/service/cache_store.go:147-155 | the same after a sweep |
| CacheSpec.SetOrigin | internal/service/cache_store.go:81-103 | every entry after an insertion is the new one or was there before |
| CacheSpec.EvictsEarliest | internal/service/cache_store.go:157-184 | when no entry has a lifetime the evicted one is the earliest inserted, for every iteration order |
| CacheSpec.EvictsSoonestIff | internal/service/cache_store.go:157-184 | with lifetimes in use and nothing expired, what is evicted expires soonest, exactly unless the empty key does and the earliest inserted entry does not |
| CacheRefinement.CacheRefinesTimedMap | internal/service/cache_store.go:51-184 | with positive lifetimes and non-empty keys the answers a cache can give to any calls are exactly those of a timed map of live entries with the capacity counted on live entries |
| CacheRefinement.SweepUnobservable | internal/service/cache_store.go:147-155 | caches with the same live entries can give the same answers to any run, with or without the sweeps in it |
| CacheSweep.SweepInvisibleExactly | internal/service/cache_store.go:81-184 | when lifetimes may be missing, no run of calls from the empty cache shows whether it is swept, exactly when the cache is unbounded or has room for one entry only |
| OidcStores.OidcStore.CreateOIDCSession | internal/repository/memory/oidc_queries.go:10-27 | a session is stored exactly when no row shares its sub, access or refresh hash; the table stays unique |
| OidcStores.OidcStore.GetOIDCSessionByAccessTokenHash | internal/repository/memory/oidc_queries.go:39-48 | finds the row with that access hash, whatever the iteration order |
| OidcStores.OidcStore.GetOIDCSessionByRefreshTokenHash | internal/repository/memory/oidc_queries.go:50-59 | finds the row with that refresh hash, whatever the iteration order |
| OidcStores.OidcStore.UpdateOIDCSession | internal/repository/memory/oidc_queries.go:61-78 | overwrites the row of the sub if there is one, and no other |
| OidcStores.OidcStore.DeleteOIDCSessionBySub | internal/repository/memory/oidc_queries.go:80-85 | removes the row of the sub and no other |
| OidcStores.OidcStore.DeleteExpiredOIDCSessions | internal/repository/memory/oidc_queries.go:87-96 | removes exactly the rows both of whose expiries have passed |
| OidcServices.OidcService.CreateCode | internal/service/oidc_service.go:428-455 | files under its hash a code bound to client, redirect URI, filtered scope, nonce, challenge and user, for one minute |
| OidcServices.OidcService.GetCodeEntry | internal/service/oidc_service.go:502-527 | only the owner of a live code gets its entry, and the entry is gone then; anybody else leaves it in place |
| OidcServices.OidcService.MarkCodeAsUsed | internal/service/oidc_service.go:889-894 | records the code as used by its sub for two minutes |
| OidcServices.OidcService.GenerateAccessToken | internal/service/oidc_service.go:599-648 | stores the session of a code entry under new token hashes, or refuses and changes nothing |
| OidcServices.OidcService.RefreshAccessToken | internal/service/oidc_service.go:650-720 | a live refresh token of that client gets new tokens and times and keeps sub, scope, client, nonce and userinfo |
| OidcServices.OidcService.Authorize | internal/controller/oidc_controller.go:117-262 | an authorization request is the protocol's Authorize step and keeps the state well formed |
| OidcServices.OidcService.AuthorizeComplete | internal/controller/oidc_controller.go:264-368 | completing a ticket is the protocol's Complete step: ticket and old session go, a code comes |
| OidcServices.OidcService.ExchangeCode | internal/controller/oidc_controller.go:446-504 | redeem, record as used, compare redirect URI, check the verifier, create the session, in this order; a miss on a used code deletes the session it was used for |
| OidcServices.OidcService.Token | internal/controller/oidc_controller.go:370-539 | a token request is the protocol's Token step and keeps the state well formed |
| OidcServices.OidcService.Userinfo | internal/controller/oidc_controller.go:541-636 | a userinfo request is the protocol's GetUserinfo step, its lazy deletion included |
| OidcServices.OidcService.Cleanup | internal/service/oidc_service.go:808-836 | one tick of the cleanup routine is the protocol's CleanSessions step |
| OidcServices.OidcService.SweepAll | internal/service/oidc_service.go:342-366 | one tick of the sweeper is the protocol's SweepCaches step |
| OidcModel.GrantedScopeExact | internal/service/oidc_service.go:422-455 | the stored scope, split again, names exactly the supported scopes that were requested |
| OidcModel.ClaimsFollowRequestedScopes | internal/service/oidc_service.go:749-792 | claim by claim, what is released by the stored scope is what the requested scope asks for, and nothing else (OpenID Connect Core 1.0 section 5.4) |
| OidcModel.PkceExact | internal/service/oidc_service.go:428-455 | a verifier is accepted exactly when it answers the challenge, hashed or plain, of the authorization request (RFC 7636 section 4.6) |
| OidcModel.ValidatedExactly | internal/service/oidc_service.go:380-420 | validation passes exactly when the client exists and trusts the redirect URI, no scope word is blank, the response type is code, and a challenge has a known method |
| OidcProtocol.ClientExactly | internal/controller/oidc_controller.go:390-442 | a client is accepted exactly for a known grant type and with its own secret, from the form if both values are there, else from basic credentials |
| OidcAnswers.TicketExactly | internal/controller/oidc_controller.go:117-262 | over every run, a ticket for ten minutes comes exactly for an acceptable request whose prompts fit; max_age and prompt decide whether it is handed out and whether to log in again |
| OidcAnswers.CompletionExactly | internal/controller/oidc_controller.go:264-368 | a code for a minute comes exactly for a logged-in user with a live ticket; ticket and session of that user go, no other session does, and the code is bound to request, trusted redirect URI and user |
| OidcAnswers.StrangersGetNothing | internal/controller/oidc_controller.go:390-442 | a token request without the secret of a configured client is refused and changes nothing stored |
| OidcAnswers.ExchangeExactly | internal/controller/oidc_controller.go:446-504 | a client with its secret gets tokens exactly for a live code of its own with the right redirect URI and verifier while the user has no session; tokens and row are what the code is bound to |
| OidcAnswers.RefreshExactly | internal/service/oidc_service.go:650-720 | a client with its secret gets new tokens exactly for a refresh token of its own within two lifetimes; the row keeps what it grants |
| OidcAnswers.UserinfoExactly | internal/controller/oidc_controller.go:600-636 | claims are released exactly for an access token within its lifetime whose session has openid, each by its scope; a session found past both lifetimes is deleted, and no other |
| OidcAnswers.ClaimsExactly | internal/service/oidc_service.go:749-792 | in every run each claim is what the context of the user who completed the authorization request says, if that request asked for it, and empty otherwise |
| OidcProtocol.RunWellFormed | internal/service/oidc_service.go:428-720 | in every reachable state the caches are well formed, codes lie under the hash of a drawn code, and all token hashes in the table are unique and of drawn tokens |
| OidcProvenance.CodesTraced | internal/service/oidc_service.go:428-455 | every stored code stems from a request whose client trusts the redirect URI, completed in time by an authenticated user, and is bound to them |
| OidcProvenance.PresentedCode | internal/service/oidc_service.go:502-527 | what is found for a presented code is the entry of that very code, at most a minute old |
| OidcProvenance.Provenance | internal/controller/oidc_controller.go:117-539 | every session ever stored, refreshed or not, stems from one acceptable authorization request of its client to a redirect URI the client trusts, completed by an authenticated user and exchanged in time by that client with its secret, matching redirect URI and verifier; sub, scope, nonce and each piece of userinfo are those of that request and user (RFC 6749 sections 4.1.3 and 6) |
| OidcRotation.LastPairStored | internal/service/oidc_service.go:599-720 | a stored session holds the token pair last handed out for its sub, for one lifetime and for two |
| OidcRotation.AcceptedAccessIsLast | internal/service/oidc_service.go:722-747 | an access token that opens userinfo is the last one handed out for its sub, at most one lifetime ago |
| OidcRotation.AcceptedRefreshIsLast | internal/service/oidc_service.go:650-720 | an accepted refresh token is the last one handed out for its sub, at most two lifetimes ago |
| OidcRotation.RefreshTokenWorksOnce | internal/service/oidc_service.go:650-720 | no refresh token is accepted twice in a run |
| OidcRotation.TokensUnique | internal/repository/memory/oidc_queries.go:10-78 | in every reachable state no two sessions share an access or a refresh hash, although updates do not check |
| OidcReplay.RedeemedOnce | internal/service/oidc_service.go:502-527 | each code is redeemed at most once in a run |
| OidcReplay.CompletedOnce | internal/controller/oidc_controller.go:264-368 | each ticket is completed at most once in a run, so one authorization request yields one code; requests that do not overlap |
| OidcReplay.RecordKept | internal/service/oidc_service.go:879-894 | a redeemed code stays on record for 120 seconds as long as fewer than 256 codes are redeemed after it, sweeps and evictions included |
| OidcReplay.ReplayRevokes | internal/controller/oidc_controller.go:448-474 | presented again in that window by any client with its secret it is refused, and that request leaves no session for its sub (RFC 6749 section 4.1.2); requests that do not overlap |
| OidcReplay.LateReplay | internal/service/oidc_service.go:879-894 | presented again later than 120 seconds after it was redeemed, a code is refused and revokes nothing |
| OidcReplay.CachesBounded | internal/service/oidc_service.go:342-366 | no more than 256 tickets, codes and records of used codes are ever stored |
| OidcInterleaving.ExchangedOnce | internal/controller/oidc_controller.go:446-504 | under every interleaving of the locked sections two successful requests never presented the same code |
| OidcRevocation.ReplayHitsItsSub | internal/controller/oidc_controller.go:448-474 | under every interleaving a replay deletes the session of the sub for which exactly one request, another one, redeemed that code, and that request had the code on record by then |
| OidcRevocation.RevocationExactly | internal/controller/oidc_controller.go:448-504 | after the deletion a session that stems from the code is stored exactly when its request issued tokens later, or a refresh that had read the session wrote it back later, and nothing cleared it since |
| OidcRevocation.RevokedForGoodExactly | internal/controller/oidc_controller.go:448-504 | a replay revokes any request with a code of its sub for good, however the run goes on, exactly when that request does not have its code in hand with the right redirect URI and verifier at that moment, and no refresh that has read its session is still to write it back |
| OidcEarlyReplay.ReplayTooEarly | internal/controller/oidc_controller.go:448-504 | for every code, a run in which the replay deletes the session of the sub before it is stored |
| OidcRefreshes.TokensUnique | internal/repository/memory/oidc_queries.go:10-78 | under every interleaving no two sessions share an access or a refresh hash, although updates do not check |
| OidcRefreshes.WorksAgainExactly | internal/service/oidc_service.go:650-720 | a refresh token that was accepted is accepted once more in some continuation exactly when another refresh had read its row before it was overwritten and was still to write |
| OidcRefreshes.TokenWorksTwice | internal/service/oidc_service.go:650-720 | every run that ends with a live session can go on so that two refreshes with its token are both answered |
| OidcTickets.CompletesAgainExactly | internal/controller/oidc_controller.go:310-345 | a ticket that was completed is completed once more in some continuation exactly when another request had looked it up before it was deleted and was still to delete it |
| OidcTickets.TicketYieldsTwoCodes | internal/controller/oidc_controller.go:310-345 | every run that ends with a live ticket can go on so that two requests both complete it |
| OidcInterleaving.OwnerCanRedeem | internal/service/oidc_service.go:502-527 | whatever other clients present, however interleaved, a code that is neither expired nor evicted stays redeemable by its owner |
| OidcCleanup.SeenAsIfNeverCleaned | internal/service/oidc_service.go:722-836 | with long enough sessions requesters see what a provider that never deletes a session for its age would show |
| OidcCleanup.CleanupUnobservable | internal/service/oidc_service.go:808-828 | two runs with the same requests accept and refuse alike, wherever cleanup ran |
| OidcCleanup.CleanupObservable | internal/service/oidc_service.go:609-612 | a live code for the sub of a dead row is refused before a cleanup and accepted after it |
| OidcCleanupExact.CleanupUnobservableExactly | internal/service/oidc_service.go:808-828 | cleanup is unobservable in all runs exactly when twice the session expiry is at least the sixty seconds a code lives |
| LoginSpec.LockdownLimit | internal/service/auth_service.go:679-706 | the limit is users times retries plus jitter, and never below 256 |
| LoginSpec.RecordValid | internal/service/auth_service.go:269-317 | recording an attempt keeps the login cache well formed, within its bound and free of lifetimes |
| LoginTheorems.EntrySummarizesTrail | internal/service/auth_service.go:282-316 | after any events a record holds the number of failures at the end of its trail of attempts and the lock they imply |
| LoginTheorems.LimitsOff | internal/service/auth_service.go:247-281 | without retries or without a timeout nothing is recorded, and only a lockdown locks |
| LoginTheorems.LockoutExact | internal/service/auth_service.go:247-317 | outside a lockdown an account is locked exactly when the trailing failures since its record began reach the limit and the timeout after the last one runs |
| LoginTheorems.QueuePosition | internal/service/auth_service.go:282-316 | the place of a record in the queue is the number of records created after it, however often existing ones are renewed |
| LoginTheorems.RecordEvictedExactly | internal/service/auth_service.go:117-128 | with lockdown off, a record leaves exactly when the limit-th further absent identifier is recorded |
| LoginTheorems.FailuresBounded | internal/service/auth_service.go:269-317 | with lockdown enabled never more identifiers than the limit have a failure on record |
| LoginTheorems.LockdownKeepsRecords | internal/service/auth_service.go:269-317 | with lockdown enabled a failure is counted exactly while fewer records than the limit are stored, and records go only when a lockdown clears them all |
| Lockdown.ActiveIffOneInside | internal/service/auth_service.go:619-662 | for any number of goroutines, interleaved in any way, a lockdown is on exactly when one of them is between its critical sections |
| Lockdown.UntilFixed | internal/service/auth_service.go:619-662 | the announced end does not move while a lockdown lasts |
| Lockdown.ClearedBeforeEndIsSeen | internal/service/auth_service.go:644-673 | between a yes and a later no of IsInLockdown the login cache was cleared, and not early unless the service shuts down |
| AuthStores.SessionStore.CreateSession | internal/repository/memory/session_queries.go:9-15 | files the session under its id |
| AuthStores.SessionStore.UpdateSession | internal/repository/memory/session_queries.go:27-45 | overwrites an existing row, except for its id and creation time |
| AuthStores.SessionStore.DeleteSession | internal/repository/memory/session_queries.go:47-52 | removes the row and no other |
| AuthStores.SessionStore.DeleteExpiredSessions | internal/repository/memory/session_queries.go:54-63 | removes exactly the rows whose expiry has passed, in any iteration order |
| AuthServices.AuthService.CalculateLockdownLimit | internal/service/auth_service.go:679-706 | computes the limit of LockdownLimit from user counts, retries and jitter |
| AuthServices.AuthService.GetLocalUser | internal/service/auth_service.go:207-217 | the loop finds the first user of that name |
| AuthServices.AuthService.IsAccountLocked | internal/service/auth_service.go:247-267 | lockdown, then limits, then the record decide |
| AuthServices.AuthService.RecordLoginAttempt | internal/service/auth_service.go:269-317 | the login cache becomes Record of the old one; a lockdown is started exactly when a failure floods a limited cache outside one |
| AuthServices.AuthService.StoreAttempt | internal/service/auth_service.go:282-316 | reading and writing a record under one lock amounts to Record |
| AuthServices.AuthService.EnterLockdown | internal/service/auth_service.go:619-642 | the first critical section is the Enter step of the lockdown protocol: only one goroutine stays, and only it sets the end |
| AuthServices.AuthService.LeaveLockdown | internal/service/auth_service.go:653-662 | the second critical section is its Wake and Leave steps: cleared cache, reset fields |
| AuthServices.AuthService.CreateSession | internal/service/auth_service.go:342-394 | stores a session that starts now with its lifetime, or refuses a tailscale one without tailscale |
| AuthServices.AuthService.RefreshSession | internal/service/auth_service.go:396-448 | moves the expiry of a session near its end by one threshold and changes nothing else |
| AuthServices.AuthService.GetSession | internal/service/auth_service.go:470-501 | returns a session that is neither past its maximum lifetime nor expired; deletes one that is |
| AuthServices.AuthService.CookieAuth | internal/middleware/context_middleware.go:134-226 | state and context after a cookie are those of the model: pending ones untouched, refused ones not refreshed, banned emails deleted |
| AuthServices.AuthService.BasicAuth | internal/middleware/context_middleware.go:228-300 | a locked name is not looked up; attempts are recorded; users with a TOTP secret get no context |
| AuthServices.AuthService.Middleware | internal/middleware/context_middleware.go:67-132 | an accepted cookie wins, credentials come next and are final, tailscale comes last |
| AuthServices.AuthService.LoginHandler | internal/controller/user_controller.go:60-230 | creates a pending session for a user with a TOTP secret, a full one and a recorded success otherwise |
| AuthServices.AuthService.TotpHandler | internal/controller/user_controller.go:282-410 | only a pending context with a right code turns its session into a full one |
| AuthServices.AuthService.TailscaleHandler | internal/controller/user_controller.go:412-468 | creates a session for the node of the context |
| AuthServices.AuthService.OAuthHandler | internal/controller/oauth_controller.go:184-265 | a user with a whitelisted email at a configured provider gets a session of that provider |
| AuthServices.AuthService.LogoutHandler | internal/controller/user_controller.go:232-280 | deletes the session of the cookie |
| AuthServices.AuthService.Serve | internal/middleware/context_middleware.go:67-132 | a request with its middleware, or a background task, is one step of the sign-in protocol |
| AuthProtocol.StepSessions | internal/service/auth_service.go:342-501 | after any step a stored session is unchanged, extended by one due refresh, or just created with a new id |
| AuthAnswers.CredentialsExactly | internal/middleware/context_middleware.go:228-300 | in every run, where no cookie is accepted, the request is somebody exactly with the right password of a user who is not locked out and has no second factor, or of a directory user not shadowed by a local one; then it is that user; without credentials a tailnet node is recognized but not authenticated |
| AuthAnswers.AcceptsExactly | internal/middleware/context_middleware.go:134-226 | a cookie is accepted exactly when its session is stored, within expiry and maximum lifetime, and its user can still sign in that way or it waits for its second factor |
| AuthAnswers.VisitExactly | internal/service/auth_service.go:396-501 | a visit ends the session of its cookie when that is out of date or its email banned, extends it by half its lifetime, an hour at most, when it is accepted that close to its end, and touches no other |
| AuthAnswers.LoginExactly | internal/controller/user_controller.go:60-230 | a login makes a session exactly with the right password of a known user who is not locked out, waiting for a code exactly if the user has a secret |
| AuthAnswers.CodeExactly | internal/controller/user_controller.go:282-410 | a code makes a full session exactly when it is right and its cookie waits for it, for a user who exists and is not locked out; the waiting session is gone |
| AuthAnswers.CallbackExactly | internal/controller/oauth_controller.go:184-265 | the callback makes a session exactly for a non-empty, allowed email at a configured provider |
| AuthAnswers.NodeExactly | internal/controller/user_controller.go:412-468 | a tailnet node gets a session in its own name exactly while tailscale is on |
| AuthAnswers.LogoutExactly | internal/controller/user_controller.go:232-280 | a logout removes the session of its cookie and no other |
| AuthAnswers.CleanupExactly | internal/repository/memory/session_queries.go:54-63 | cleanup removes exactly the sessions past their expiry, none that a cookie could still open |
| AuthAnswers.EndedStaysOut | internal/service/auth_service.go:450-501 | a cookie shown out of date, with a banned email, to log out or with the code it waits for is never accepted again |
| AuthSessions.StoredWasCreated | internal/service/auth_service.go:342-501 | a stored session is, but for its expiry, one an earlier request created |
| AuthSessions.SlidingExpiry | internal/service/auth_service.go:396-448 | expiry is creation plus lifetime plus a threshold per refresh, at most now plus the longer of lifetime and two thresholds; pending sessions never move |
| AuthExpiry.NeverBeyondExactly | internal/service/auth_service.go:396-448 | under every configuration that starts, over all runs no full session reaches past now plus the configured expiry exactly when that does not lie strictly between one and two hours; the failing run signs in by whatever is configured |
| AuthSessions.AcceptedWithinLifetime | internal/service/auth_service.go:470-501 | with a maximum lifetime no cookie is accepted later than its creation plus it, refreshed or not |
| AuthSessions.AcceptedSpeaksFor | internal/middleware/context_middleware.go:134-226 | in every run the context of an accepted cookie has the user, provider, name, email, groups and sign-in time that session and directory say, that user may still sign in that way, and the earlier request that created the session was given the password, code, tailnet node or whitelisted email it takes |
| AuthSessions.RejectedStaysRejected | internal/service/auth_service.go:470-501 | a cookie once turned away as too old is never accepted again |
| AuthSecondFactor.BothFactors | internal/controller/user_controller.go:60-410 | every request that runs as an authenticated local user with a TOTP secret shows a session created on a right code, by a request that showed a pending session created on a right password |
| AuthSecondFactor.SecondFactorExactly | internal/bootstrap/app_bootstrap.go:134-137 | this holds over all runs exactly when no OAuth provider is called local, which the start-up check on reserved names ensures, or the session expiry is negative, so that nobody stays signed in |
| AuthLockout.LoginsFollowHistory | internal/service/auth_service.go:269-317 | in every run the login cache is what the attempts recorded by the requests so far make it |
| AuthLockout.LockedOutIsLocked | internal/service/auth_service.go:247-267 | in every run a name is locked exactly in a lockdown or when its recorded failures lock it out |
| AuthLockout.NoSignInWhileLockedOut | internal/controller/user_controller.go:60-410 | while a name is locked out no login, code or basic authentication under it succeeds, with or without a refused cookie beside it, and none of them changes what is on record |
| KubernetesServices.KubernetesService.AddIngressApps | internal/service/kubernetes_service.go:106-125 | the loops take the labels of the old apps off both indexes, store the apps and write their labels |
| KubernetesServices.KubernetesService.RemoveIngress | internal/service/kubernetes_service.go:127-139 | the same without new apps |
| KubernetesServices.KubernetesService.GetByDomain | internal/service/kubernetes_service.go:141-156 | follows the domain entry to the first stored app with that domain and name |
| KubernetesServices.KubernetesService.GetByAppName | internal/service/kubernetes_service.go:158-173 | follows the name entry to the first stored app with that name |
| KubernetesServices.KubernetesService.AcceptedApps | internal/service/kubernetes_service.go:255-271 | lists exactly the labelled apps with a domain that is among the hosts if there are any, each once, in any iteration order |
| KubernetesServices.KubernetesService.UpdateFromItem | internal/service/kubernetes_service.go:237-276 | an object becomes the update to its accepted apps; an unreadable one or one without apps a removal |
| KubernetesServices.KubernetesService.ResyncGVR | internal/service/kubernetes_service.go:278-292 | applies the updates of the listed objects in order, or nothing when the list cannot be fetched |
| KubernetesServices.KubernetesService.GetLabels | internal/service/kubernetes_service.go:365-386 | by domain first, then by the first label as a name; nothing before the start |
| KubernetesTheorems.ResolvesNext | internal/service/kubernetes_service.go:106-173 | in any state, broken or not, a label resolves after an update exactly when the update claims it, or it did and the update does not drop it |
| KubernetesTheorems.LookupNext | internal/service/kubernetes_service.go:106-173 | in any state, a label that an update claims leads to the last app of the update that has it, one that it only drops leads nowhere, any other leads where it led |
| KubernetesTheorems.ItemResolvesExactly | internal/service/kubernetes_service.go:237-276 | after an object was read, a label resolves exactly when it is name or domain of a labelled app whose domain the object routes, or it did and the earlier apps of the object do not have it |
| KubernetesTheorems.NothingDangles | internal/service/kubernetes_service.go:106-173 | in every reachable state each entry of either index leads to a stored app with that domain or name |
| KubernetesTheorems.LookupIsScan | internal/service/kubernetes_service.go:141-173 | if no two stored ingresses ever share a label, a lookup succeeds exactly when a scan of the stored apps does |
| KubernetesTheorems.GetLabelsIsScan | internal/service/kubernetes_service.go:365-386 | then the labels found are those of an app with the domain, and failing that of the app named like its first label; nothing before the start |
| KubernetesSpec.FirstLabelExactly | internal/service/kubernetes_service.go:375-380 | the first label is what stands before the first dot |
| KubernetesTheorems.OnePassExactly | internal/service/kubernetes_service.go:278-292 | after one pass over distinct ingresses, from any state, a label resolves exactly when its claim is not followed by an ingress that had it before, or nobody touched it |
| KubernetesTheorems.ResyncHeals | internal/service/kubernetes_service.go:237-292 | after two passes, from any state, every label that a listed ingress claims resolves to a stored app that has it, shared labels included |
| KubernetesTheorems.ResyncHealsItems | internal/service/kubernetes_service.go:237-292 | the same for the objects of the cluster, whatever the two iteration orders |
| KubernetesTheorems.OnePassIsNotEnough | internal/service/kubernetes_service.go:106-125 | a reachable state and two ingress objects for which one pass loses a domain that one of them claims |
| ProxyServices.PolicyEngine.NewPolicyEngine | internal/service/policy_engine.go:51-69 | only the policies allow and deny are accepted |
| ProxyServices.PolicyEngine.RegisterStandardRules | internal/bootstrap/service_bootstrap.go:149-171 | start-up registers the six rules under their names |
| ProxyServices.PolicyEngine.Evaluate | internal/service/policy_engine.go:76-110 | a missing rule denies, an abstention falls back to the policy |
| ProxyServices.PolicyEngine.ProxyHandler | internal/controller/proxy_controller.go:89-304 | the handler's order of checks gives the model's verdict |
| Access.FilterIsList | internal/utils/security_utils.go:84-107 | a filter printed from a list of items matches exactly what some item is, spaces around it aside |
| Access.FilterIsRegex | internal/utils/security_utils.go:84-107 | a filter between slashes matches what its regular expression matches, and its own text |
| Access.FilterFails | internal/utils/security_utils.go:84-99 | a filter is empty exactly when blank, and broken exactly when a lone slash or an expression between slashes that does not compile |
| Access.AnyRangeIsCover | internal/service/access_controls_rules.go:217-258 | the loop over an address list finds a match exactly when some entry covers the address, malformed entries aside |
| Access.AnyGroupIsMatch | internal/service/access_controls_rules.go:95-172 | the loop over groups allows exactly when the filter is usable and some trimmed group matches |
| Access.GrantedExactly | internal/controller/proxy_controller.go:111-279 | a request is granted exactly when a bypass entry, global or of the app, covers its address, its path is open, or no block entry and, if there are any, some allow entry of either covers it and an authenticated user fits user and group lists |
| Access.RefusedExactly | internal/controller/proxy_controller.go:111-279 | a request that is not granted is turned away for its address, for want of a user, for the user or for the groups, each exactly when it is the first of them to fail |
| Access.DenyIsStricter | internal/service/policy_engine.go:76-110 | for every set of rules whatever and a given user, what the deny policy grants the allow policy grants |
| AccessRequests.EmailExactly | internal/service/auth_service.go:319-340 | an OAuth email is allowed exactly when the list of its provider names it, or the global one if the provider has none; a blank list says nothing |
| AccessRequests.DenyIsStricterExactly | internal/service/auth_service.go:319-340 | for a whole request, middleware included, the same holds exactly unless its cookie is of an OAuth user whose email no whitelist mentions and whom the app refuses, next to credentials of a user whom the app names |
| AccessRuns.DenyRunsAreStricter | internal/service/auth_service.go:319-340 | in every run of a server that answers by the deny policy, no stored OAuth session has an email that no whitelist mentions, and what the deny policy grants the allow policy grants |
| AccessRuns.AllowCanRefuse | internal/middleware/context_middleware.go:67-226 | for any plain name and any provider that is not reserved, a server without whitelists and a run of it under the allow policy after which a request is refused that the deny policy would grant |
| Access.PoliciesDifferExactly | internal/service/access_controls_rules.go:33-89 | the policies differ exactly on authenticated users about whom the app says nothing |
| Access.TighterRefusesMore | internal/service/access_controls_rules.go:212-286 | growing a block list or shrinking a bypass list, global or of the app, never turns a refusal into a grant |
| Access.ListsAreSets | internal/service/access_controls_rules.go:212-286 | the whole verdict depends on the global lists and those of the app only through the sets of their entries together |
| Access.AllowListGrows | internal/service/access_controls_rules.go:240-258 | growing a non-empty allow list only welcomes more addresses, the first entry of an empty one only fewer |
| UserFormat.ReadUser | internal/utils/user_utils.go:45-74 | the loop over the parts gives the user of ParseUser, and none when a part is blank or there are not two or three |
| UserFormat.ParsedExactly | internal/utils/user_utils.go:45-74 | a line reads as a user exactly when it has two or three parts and none is blank, and the user is the trimmed parts |
| UserFormat.CreateUser | cmd/tinyauth/create_user.go:76-99 | the two lines printed for a new user, and the inputs that are turned away |
| UserFormat.GenerateTotp | cmd/tinyauth/generate_totp.go:71-116 | the line printed with a new secret, and the lines that are turned away |
| UserFormat.CollapseEscape | cmd/tinyauth/create_user.go:90-92 | undoing the doubling of dollar signs gives the text back |
| UserFormat.DockerLineExactly | cmd/tinyauth/create_user.go:86-99 | the escaped line reads as the user exactly when name and hash are trimmed and the name has no two dollar signs in a row |
| UserFormat.RawLineExactly | cmd/tinyauth/create_user.go:86-99 | the plain line does exactly when, besides, the hash has no two dollar signs in a row |
| UserFormat.ParsedFields | internal/utils/user_utils.go:45-74 | name and hash of a parsed user are trimmed, non-empty and free of colons |
| UserFormat.NewSecretExactly | cmd/tinyauth/generate_totp.go:71-116 | the line with a secret reads as the user it was made from plus the secret, exactly when the name that was read has no two dollar signs in a row |

## Left out

- `CacheStore.WithLock`: a caller that works on the cache under its lock is modelled by the calls it makes, in one atomic step.
- HTTP: request decoding, redirects, cookie attributes, headers and the wording of most errors; a handler is its decision and its change of state.
- Signed request objects, ID tokens, keys and the discovery documents of the OpenID Connect provider.
- The effect of `max_age` and `prompt` on the login page; the model keeps the refusals they cause and the prompt that is passed on.
- The seconds that remain of a lock or a lockdown, which are only displayed.
- bcrypt, TOTP, SHA-256, UUID derivation, regular expressions, CIDR parsing and label decoding: answers or function parameters.
- OidcServices.OidcService.GenerateAccessToken: does not make the ID token; that signing can fail, before anything is stored, is left out.
- OidcServices.OidcService.RefreshAccessToken: the same, and the stored userinfo is kept decoded.
- AuthServices.AuthService.IsAccountLocked: says whether an account is locked, not for how many seconds more.
- LDAP, Tailscale, Docker and upstream OAuth: answers that come with a request. The cache of LDAP groups and the pending OAuth sessions are not modelled; both are plain uses of the timed cache.
- The upstream OAuth flow before its callback; the callback is modelled from the point where the provider's user is known.
- Errors of the session store, and the SQL stores.
- How proxy headers become host, path and address, and how static access lists are searched; both come before the modelled decision.
- Paths of ingress rules, which only cause warnings, and the restarts of the Kubernetes watcher.
- `ParseUsers` and user attributes, which are read from a separate setting.
- Lower-casing and invalid UTF-8: strings are sequences of characters.
- AuthServices.AuthService.RecordLoginAttempt: the size check and the locked section after it are one step, so a flood of concurrent failures may in the program add a few more records than the limit.
- AuthServices.AuthService.Serve: a request runs to its end as one step; two concurrent refreshes of one session, which may add one threshold instead of two, are not distinguished.
- OidcRotation.RefreshTokenWorksOnce: said of refreshes that do not overlap; what overlapping ones can do is said by OidcRefreshes.WorksAgainExactly.
- OidcReplay.CompletedOnce: said of completions that do not overlap; what overlapping ones can do is said by OidcTickets.CompletesAgainExactly.
- OidcReplay.ReplayRevokes: said of requests that do not overlap; what overlapping ones can do is said by RevocationExactly and RevokedForGoodExactly.
- OidcReplay.RecordKept: needs timestamps that grow from step to step, for the reason given above.
