# Verified model of the CLIProxyNew business layer

CLIProxyNew wraps an external relay SDK with authentication, usage analytics, credential storage and a
management API. This project models the parts of it that keep state or transform data, and proves what
they promise. Every operation is a function or a method with a contract; every protocol is a transition
system; the main results are statements about all inputs, all interleavings or all reachable states.

| module | part of the system |
|---|---|
| `HiddenState` | depth-first search for data that a JSON encoding would lose, over a shared and cyclic object graph |
| `TtlCache` | the generic TTL cache, as a class and as a specification over histories |
| `ApiKeys`, `ApiKeyRuns`, `ApiKeyCluster`, `ApiKeyRevocation` | API-key authentication behind two caches: the operations, one replica with its tables, many replicas with calls in flight, and when a revocation or a block takes effect |
| `Sessions` | session cookies behind a cache, with block and logout, and requests in flight |
| `UsageBuffer` | the bounded queue and batching worker of the usage plugin |
| `LeaderElection` | the advisory-lock leader loop over many replicas |
| `Revisions` | transactional saves with a revision counter, and the pollers that follow it |
| `OpenApiNormalize`, `OpenApiMeaning`, `OpenApiKeywords` | the OpenAPI 3.1 to 3.0 projection, its effect on what a schema accepts, and what the evaluation used there says about each keyword |
| `Keyrings`, `Credentials` | versioned master keys, and the encrypted credential store under key rotation |
| `AuditReplay` | audited model overrides |
| `Principals`, `Text`, `Options` | the principal codec, string helpers, the option type |

Code that updates state in place is modelled by classes and loops (`TTL`, `APIKeyRepository`,
`SessionAuthenticator`, `VisitedSet`, `AdminModelRepository`, `NormalizeUnionType`, `NewKeyring`, `List`,
`PollerRun`); each such method is proved equal to a step function, and the theorems are about runs of these
functions. Concurrent code is a transition system in which one action is one step of one participant.

Everything outside the repository is a parameter with the laws it
needs: bcrypt is `Crypto.verify`, SHA-256 is an injective function, AES-GCM is `Aead` with "open undoes
seal" (sections 7.1 and 7.2 of NIST SP 800-38D), JSON marshalling is a pair of inverse functions, base64 is
`decode`. Clocks, database answers, failures, map iteration order and nonces are parameters or actions.

## What does not hold

Some properties one would expect are false of the code. Each has a lemma that shows a whole family of
inputs, beside the statement of when the property does hold.

- The hidden-state search misses a field if a slice that it meets first is shorter than a later reference to
  the same array, because the visited key has no length (`ShorterSliceFirstHidesLonger`,
  `EmptySliceHidesSecret`). Nothing else makes it miss one (`MissedIsOverlooked`), and what it reports is
  always reachable (`FoundIsReachable`).
- A cached authentication can serve a key after its expiry date (`ExpiredKeyStillServed`). On one replica it
  differs from the uncached scan if and only if the caches name an expired key before the call
  (`CachedEqualsUncached`).
- A call in flight can store a list or a principal after a revocation has cleared the caches
  (`InFlightCallOutlivesRevoke`). A revocation holds if and only if no such call carries the key or has put it
  back (`RevocationHoldsExactly`, `RevocationHolds`), a block likewise (`BlockHoldsExactly`); staleness stays bounded in any case
  (`ReturnedPrincipalIsFresh`).
- A request in flight can store a session after a block or a logout (`InFlightRequestOutlivesBlock`); the
  removal holds if and only if there is none (`BlockEndsSessions`, `LogoutEndsSession`).
- `cmd/cliproxy/main.go:119-126` starts the revision poller in its own goroutine, so the baseline may be read
  after the accounts were loaded; then a change in between is never noticed (`LateBaselineMissesChange`). A
  quiet poll means a current snapshot if and only if there was no such change (`QuietPollMeansCurrent`).
- Two replicas can be inside the leader job if the connection of a lease is lost
  (`LostLeaseAdmitsSecondLeader`), and only then (`AtMostOneLeader`).
- The OpenAPI projection changes the meaning of some nodes (`CoveredPropertyBecomesAdditional`,
  `CoveredElementFallsUnderItems`, `OwnOneOfIsLost`) and lets null in where another keyword refused it
  (`RefusedNullIsLetIn`); `NodePreservedExactly` says of which nodes, exactly, and `SafeTreeKeepsMeaning` gives
  conditions that can be read off a tree. Mappings with a non-string key are not entered at all
  (`IntegerKeysAreNotEntered`).
- The audit log does not determine whether a model override is enabled (`EnabledIsNotAudited`).
- A logout whose database delete failed leaves the session valid (`FailedLogoutChangesNothing`).

## Model

| member | source | states |
|---|---|---|
| `HiddenState.VisitedSet.ReflectionValueVisited` | internal/store/coreauth_store.go:418-425 | reports whether the (type, pointer) was seen before and marks it, changing nothing else |
| `HiddenState.JsonValueHasHiddenState` | internal/store/coreauth_store.go:337-396 | the recursive walk with its shared mutable visited set computes `Search`, result and visited set alike, and ends on every heap by (references not visited, size of the value) |
| `HiddenState.AnyHasHiddenState` | internal/store/coreauth_store.go:373-394 | the loops over map values and over slice and array elements compute `SearchAll` |
| `HiddenState.FoundIsReachable` | internal/store/coreauth_store.go:337-396 | on every heap, a reported hidden field is reachable: a path of JSON-visible edges that crosses no marshaler ends in a struct with a non-zero ignored field |
| `HiddenState.SearchDecidesReachability` | internal/store/coreauth_store.go:337-425 | for every finite heap, cyclic or shared, and every storage in which no slice stops short of something hidden that another reference to the same array shows, the search reports true if and only if such a path exists |
| `HiddenState.WholeSlicesOverlookNothing` | internal/store/coreauth_store.go:383-425 | that is so, in particular, wherever equal (type, pointer) means equal contents |
| `HiddenState.MissedIsOverlooked` | internal/store/coreauth_store.go:383-425 | on every heap, whatever the search misses lies behind a reachable slice that is shorter than another reachable reference to the same array |
| `HiddenState.TokenStorageHasHiddenState` | internal/store/coreauth_store.go:328-330 | the entry point, from an empty visited set, decides reachability under either condition; a positive answer is right on any heap |
| `HiddenState.ShorterSliceFirstHidesLonger` | internal/store/coreauth_store.go:383-394 | for every heap, every array behind slices of a type that does not marshal itself, and two lengths with nothing hidden behind the shorter slice: a storage with the shorter slice first is reported clean, which is wrong if and only if an element between the lengths leads to something hidden |
| `HiddenState.RightForEveryStorageExactly` | internal/store/coreauth_store.go:337-425 | the search is right for every well-typed storage over a heap if and only if no array behind such slices leads to anything hidden; what lies behind pointers and maps only is never missed |
| `HiddenState.EmptySliceHidesSecret` | internal/store/coreauth_store.go:383-394 | the smallest such storage: an empty slice before a slice with one secret |
| `HiddenState.OneFieldExactly` | internal/store/coreauth_store.go:357-372 | a struct of one field that is unexported, or tagged "-" alone or with options, is reported if and only if something in the field is not zero, down through structs and arrays; with any other tag if and only if the field's own value is reported |
| `HiddenState.ScalarFieldExactly` | internal/store/coreauth_store.go:362-368 | so a non-zero scalar is reported if and only if its field is unexported, or its tag is "-" or starts with "-," |
| `HiddenState.SecretIsFound` | internal/store/coreauth_store.go:352-394 | a secret behind a pointer, in a map, a slice, an interface or an array is found |
| `HiddenState.LeavesAreClean` | internal/store/coreauth_store.go:337-351 | nil references, invalid values, scalars and values that marshal themselves are never reported |
| `TtlCache.TTL.Get` | internal/cache/ttl.go:43-65 | a Get takes exactly the step `GetStep`: answer, removal of an expired entry, one counter, wrapping at 2^64 |
| `TtlCache.TTL.Set` | internal/cache/ttl.go:78-90 | stores value and expiry under the key and nothing else; nothing at all for a non-positive TTL |
| `TtlCache.TTL.Delete` | internal/cache/ttl.go:93-102 | removes exactly this key |
| `TtlCache.TTL.DeleteWhere` | internal/cache/ttl.go:105-118 | the deleting loop, in any iteration order, removes exactly the entries that match |
| `TtlCache.TTL.Clear` | internal/cache/ttl.go:121-130 | removes every entry and keeps the counters |
| `TtlCache.TTL.Stats` | internal/cache/ttl.go:68-75 | whatever operations led to this state, hits plus misses is the number of Gets among them, modulo 2^64; nothing was counted with a non-positive TTL |
| `TtlCache.EntriesFollowHistory` | internal/cache/ttl.go:43-130 | after every history with a non-decreasing clock, an entry is the key's latest unremoved Set, and is missing only if removed or expired |
| `TtlCache.GetAnswersHistory` | internal/cache/ttl.go:43-130 | Get hits if and only if the key's latest Set has not been removed since and is younger than the TTL, and returns that value |
| `TtlCache.EveryGetIsCounted` | internal/cache/ttl.go:43-75 | hits plus misses equals the number of Gets, modulo 2^64 |
| `TtlCache.HitsCountAnswers` | internal/cache/ttl.go:43-65 | hits is the number of Gets that were answered, modulo 2^64 |
| `TtlCache.NonPositiveTtlStoresNothing` | internal/cache/ttl.go:29-45 | with a non-positive TTL no history leaves an entry or a count |
| `ApiKeys.APIKeyRepository.constructor` | internal/store/api_keys.go:43-49 | two empty caches of ten seconds |
| `ApiKeys.APIKeyRepository.FindCandidates` | internal/store/api_keys.go:141-173 | cache, else query, store and return; a failed query stores nothing |
| `ApiKeys.APIKeyRepository.Authenticate` | internal/store/api_keys.go:86-91 | refuses short keys, else authenticates for any source |
| `ApiKeys.APIKeyRepository.AuthenticateForSource` | internal/store/api_keys.go:94-99 | refuses short keys and unknown sources, the empty one included, without touching the caches |
| `ApiKeys.APIKeyRepository.AuthenticateFor` | internal/store/api_keys.go:101-129 | the worker with its loop over candidates takes exactly the step `AuthenticateStep` on both caches |
| `ApiKeys.APIKeyRepository.InvalidateUser` | internal/store/api_keys.go:132-139 | removes exactly the verified principals of this user; ids below one change nothing |
| `ApiKeys.APIKeyRepository.InvalidateCandidates` | internal/store/api_keys.go:175-179 | removes the candidate lists of this prefix for all three sources |
| `ApiKeys.APIKeyRepository.Create` | internal/store/api_keys.go:60-83 | refuses and fails in the order of the code, and invalidates the lists of the new key's prefix if and only if the row was inserted |
| `ApiKeys.APIKeyRepository.Revoke` | internal/store/api_keys.go:216-227 | clears both caches if and only if a row was revoked |
| `ApiKeys.ScanFinds` | internal/store/api_keys.go:114-128 | a scan that accepts names a listed candidate that verifies and whose user is active; one that refuses means every verifying candidate has an inactive user |
| `ApiKeyRuns.StepKeepsInv` | internal/store/api_keys.go:60-227 | every Create, Revoke, status change, provisioning, clock step and authentication keeps: a cached list is still the query's answer for some date not after today, and a cached principal is still entitled |
| `ApiKeyRuns.CachedAnswerIsRight` | internal/store/api_keys.go:101-173 | after any run of one replica, a refusal means that no key is acceptable by the tables today, and an accepted principal is acceptable today if and only if, before the call, the caches did not name an expired key |
| `ApiKeyRuns.UncachedAnswerIsRight` | internal/store/dbgen/api_keys.sql.go:72-137 | the scan without caches, in whatever row order, answers by the tables |
| `ApiKeyRuns.CachedEqualsUncached` | internal/store/api_keys.go:101-173 | where at most one key verifies the plaintext, cached and uncached results are equal if and only if, before the call, the caches do not name an expired key (`ServesExpired`) |
| `ApiKeyRuns.UnexpiredKeysAgree` | internal/store/api_keys.go:101-173 | so they are equal whenever every stored key that verifies the plaintext is unexpired |
| `ApiKeyRuns.AnswerByRows` | internal/store/api_keys.go:86-173 | after any run, the answer read off the rows: a returned key is active, has the prefix, verifies, and belongs to an active user of the source asked for; a refusal means that no unexpired row is like this |
| `ApiKeyRuns.RevokedKeyNeverReturns` | internal/store/api_keys.go:216-227 | once an active key has been revoked, no call in any later state of the run returns it |
| `ApiKeyRuns.BlockedUserNeverReturns` | internal/httpapi/admin_users.go:98-112 | once a user has been blocked, no call returns the user until the user is set active again |
| `ApiKeyRuns.CreatedKeyIsAccepted` | internal/store/api_keys.go:60-83 | a new unexpired key of an active user is accepted by the next call, cached or not, for any source and for the user's own |
| `ApiKeyRuns.EffectOnAcceptance` | internal/store/api_keys.go:60-227 | what each operation changes about who is acceptable, and that it changes nothing else |
| `ApiKeyRuns.UnblockedUserIsAccepted` | internal/httpapi/admin_users.go:98-112 | a user who is set active again is acceptable as before |
| `ApiKeyRuns.ProvisionedUserCanHaveKeys` | internal/store/api_keys.go:60-83 | a provisioned user's new key is acceptable for any source and for the user's own, and for no other |
| `ApiKeyRuns.TenSecondsForget` | internal/store/api_keys.go:43-49 | ten seconds after any run every call is answered as without caches |
| `ApiKeyRuns.ScanIsFirstMatch` | internal/store/api_keys.go:114-128 | a scan that no query fails returns the first candidate that verifies and whose owner is active, or refuses if there is none |
| `ApiKeyRuns.ExpiredKeyStillServed` | internal/store/dbgen/api_keys.sql.go:82-84 | for every key with an expiry date and every pair of times less than ten seconds apart around midnight, the expired key is accepted, whatever the database would answer then |
| `ApiKeyCluster.UndisturbedCall` | internal/store/api_keys.go:101-173 | the call split into its single cache accesses and queries, left undisturbed, ends with the result and the caches of `AuthenticateStep` |
| `ApiKeyCluster.StepKeepsInv` | internal/store/api_keys.go:101-227 | every step of every call, every local invalidation and every change of the database keeps the recorded ages of cached lists and principals |
| `ApiKeyCluster.ReturnedPrincipalIsFresh` | internal/store/api_keys.go:101-173 | in every interleaving over any number of replicas, with calls of duration at most d, a principal returned at t names a key that the query selected for this plaintext in (t-20s-2d, t] and a user that was active in (t-10s-d, t] |
| `ApiKeyRevocation.StepKeepsForgotten` | internal/store/api_keys.go:101-227 | once a key is inactive and neither the caches of a replica nor a call on it have it, every step of every interleaving that leaves it inactive keeps that, and no call returns it |
| `ApiKeyRevocation.ForgottenForGood` | internal/store/api_keys.go:101-227 | the same over whole runs: no call on that replica returns the key any more |
| `ApiKeyRevocation.RevocationHoldsExactly` | internal/store/api_keys.go:216-227 | in every reachable state with the key revoked, when a replica clears its second cache: a call that has not started yet can return with the key if and only if, at that moment, a call in flight on that replica carries the key or its first cache has it again |
| `ApiKeyRevocation.RevocationHolds` | internal/store/api_keys.go:216-227 | key revoked, first cache cleared, then anything, then the second cache cleared: if no call on the replica carried the key at the first clearing, no new call returns with it |
| `ApiKeyRevocation.InFlightCallOutlivesRevoke` | internal/store/api_keys.go:122-126 | such a state is reachable for every key that authenticates: the key is revoked and the caches cleared while a call has its candidates in hand, and the revoked key authenticates a later call |
| `ApiKeyRevocation.BlockHoldsExactly` | internal/store/api_keys.go:132-139 | in every reachable state with the user blocked, when a replica drops the user's principals: a call that has not started yet can return for the user if and only if a call in flight there has already matched a key of the user |
| `Sessions.CacheKeySeparates` | internal/auth/identity/session.go:109-112 | equal cache keys mean equal source and equal token, for all sources without NUL |
| `Sessions.SessionAuthenticator.constructor` | internal/auth/identity/session.go:46-56 | an empty cache with the given TTL; no cache at all behaves like a TTL that is not positive |
| `Sessions.SessionAuthenticator.AuthenticateRequest` | internal/auth/identity/session.go:82-107 | cookie, cache, lookup, store: exactly the step `AuthenticateStep`, with a missing cookie and an invalid session told apart |
| `Sessions.SessionAuthenticator.InvalidateUser` | internal/auth/identity/session.go:66-71 | removes exactly the cached sessions of this user |
| `Sessions.SessionAuthenticator.InvalidateToken` | internal/auth/identity/session.go:74-79 | removes exactly the entry of this token and source |
| `Sessions.UndisturbedCall` | internal/auth/identity/session.go:82-107 | the request split into cache access, query and store, left undisturbed, ends with the result and the cache of `AuthenticateStep` |
| `Sessions.StepKeepsInv` | internal/auth/identity/session.go:66-107 | every step of every request, every invalidation and every change of the database keeps the recorded ages and owners of cached sessions |
| `Sessions.PrincipalIsFresh` | internal/auth/identity/session.go:82-107 | in every interleaving of requests of duration at most d, a session returned at t is what the lookup gave for this token at some time in (t-ttl-d, t]; with d = 0 and the configured ten seconds, in (t-10s, t] |
| `Sessions.ServedByRows` | db/queries/sessions.sql:27-41 | by the rows: at some time in that window the token had an unexpired row of an active user of this source, with this role |
| `Sessions.UncachedRequestByRows` | db/queries/sessions.sql:27-41 | a request that nobody disturbs and the cache does not know is served if and only if there is such a row |
| `Sessions.RemovalHoldsExactly` | internal/auth/identity/session.go:66-107 | in every reachable state in which the row and the cache entry of a session are gone: a request that has not started yet can authenticate with the token if and only if the cache keeps entries and a request in flight has read the session and not yet stored it |
| `Sessions.ForgottenForGood` | internal/auth/identity/session.go:66-107 | without such a request, no request authenticates with the token in any later state |
| `Sessions.BlockEndsSessions` | internal/httpapi/admin_users.go:98-112 | block in the database, then anything, then InvalidateUser: from there on no new request authenticates with a session the user had, except if and only if a request in flight carries that session into a cache that keeps it |
| `Sessions.BlockedByRows` | internal/httpapi/admin_users.go:98-112 | blocking removes the user's sessions and no other's, and no later session of the user authenticates while the status stays |
| `Sessions.LogoutEndsSession` | internal/httpapi/logout.go:25-34 | the same for a logout whose delete found the row, then anything, then InvalidateToken |
| `Sessions.LogoutFindsSession` | db/queries/sessions.sql:47-52 | every session that authenticates is found by a logout, which removes no other |
| `Sessions.InFlightRequestOutlivesBlock` | internal/auth/identity/session.go:97-106 | for every session that the lookup finds there is a run in which a request carries it past the block, and a later request authenticates |
| `Sessions.FailedLogoutChangesNothing` | internal/httpapi/logout.go:27-33 | from every state there is a run of the invalidation alone and a request that follows it, and that request authenticates if and only if the database finds the session, with the session it finds |
| `UsageBuffer.StepKeepsInv` | internal/usage/buffered_plugin.go:61-148 | every step of every producer, Close call and the worker keeps lock exclusion, the meaning of the close flags and the conservation of events |
| `UsageBuffer.Conservation` | internal/usage/buffered_plugin.go:71-148 | in every interleaving, the accepted events in send order are the flushed batches, then the batch, then the queue; once done is closed they are the flushed batches alone |
| `UsageBuffer.EventIsAcceptedOrTurnedAway` | internal/usage/buffered_plugin.go:71-82 | in every interleaving, an event whose HandleUsage call has ended is among the accepted ones, unless that call found the plugin closed when it checked or the queue full when it sent |
| `UsageBuffer.OpenCheckThenRoomAccepts` | internal/usage/buffered_plugin.go:71-82 | a call that checked while the plugin was open appends exactly its event if there is room when it sends, whatever others do in between |
| `UsageBuffer.UndisturbedOffer` | internal/usage/buffered_plugin.go:71-82 | a call that nobody disturbs adds its event if the plugin is open and there is room, and nothing otherwise |
| `UsageBuffer.TickFlushes` | internal/usage/buffered_plugin.go:110-148 | a tick that the worker picks hands over what it has collected |
| `UsageBuffer.FullBatchIsFlushed` | internal/usage/buffered_plugin.go:110-148 | a batch of 100 is handed over before anything else is received |
| `UsageBuffer.CloseSafety` | internal/usage/buffered_plugin.go:71-148 | in every interleaving, no send on a closed queue and no second close of a channel happens or is about to, at most 1024 queued, every batch between 1 and 100 events |
| `UsageBuffer.ClosedMeansFlushed` | internal/usage/buffered_plugin.go:84-100 | once a Close has returned without error, everything ever accepted is with the writer, and nothing is accepted or flushed afterwards |
| `UsageBuffer.UndisturbedClose` | internal/usage/buffered_plugin.go:84-100 | a first Close that nobody disturbs closes the queue, leaves what is queued to the worker and waits |
| `UsageBuffer.WaitingCloseReturns` | internal/usage/buffered_plugin.go:84-100 | a waiting Close returns without an error exactly once the worker is done; before that only if its context ends |
| `UsageBuffer.CloseLeadsToDone` | internal/usage/buffered_plugin.go:110-148 | from every reachable state with the queue closed, the worker alone reaches done within 2 steps per queued event plus 4 |
| `UsageBuffer.WorkerStepsAreBounded` | internal/usage/buffered_plugin.go:110-148 | in every interleaving after the queue was closed, the worker takes at most 2 steps per queued event, plus 4, plus one for every tick it picks |
| `UsageBuffer.WorkerCanStep` | internal/usage/buffered_plugin.go:110-148 | until done is closed, the worker always has such a step to take |
| `LeaderElection.StepKeepsInv` | internal/watcher/leader.go:40-141 | every step of every runner, the server and the network keeps: one lock holder, count at most one, no lock on a pooled connection, every borrowed connection with its runner |
| `LeaderElection.AtMostOneLeader` | internal/watcher/leader.go:40-73 | over any number of replicas, two are inside the job only if one has lost the connection of its lease |
| `LeaderElection.LockNeverHides` | internal/watcher/leader.go:98-141 | whoever holds the lock holds it once, alone, never as an idle pooled connection, and is a lease in use or a discarded connection the server has not noticed; so a runner that tries again has released its lease |
| `LeaderElection.LockCanBeTakenAgain` | internal/watcher/leader.go:98-141 | with no lease out and discarded connections noticed, any connected runner gets the lock |
| `LeaderElection.PausedRunnerTriesAgain` | internal/watcher/leader.go:40-73 | from every reachable state a paused runner tries again, and leads if no other session holds the lock |
| `LeaderElection.JoinedRunnerTries` | internal/watcher/leader.go:40-73 | so does a replica that joins |
| `LeaderElection.LeaderGivesLockBack` | internal/watcher/leader.go:63-73 | a leader whose job returns gives the lock back: nobody holds it, and the connection is pooled |
| `LeaderElection.LeaderCanLeadAgain` | internal/watcher/leader.go:98-116 | a pooled connection can be taken and locked again |
| `LeaderElection.FailuresEndInPause` | internal/watcher/leader.go:40-73 | whatever fails in a round, the runner pauses, from where it tries again |
| `LeaderElection.LockStaysUntilNoticed` | internal/watcher/leader.go:106-141 | a lock that a failed try took, or a failed unlock kept, blocks everybody until the server notices the closed connection, and then nobody |
| `LeaderElection.LostAnswerFreesLock` | internal/watcher/leader.go:123-141 | an unlock that was executed and whose answer was lost frees the lock at once |
| `LeaderElection.UnlockFindsLock` | internal/watcher/leader.go:127-141 | an unlock never finds the lock not held, so that error branch is not reached |
| `LeaderElection.StoppedForGood` | internal/watcher/leader.go:40-73 | a stopped runner never leads again |
| `LeaderElection.LostLeaseAdmitsSecondLeader` | internal/watcher/leader.go:63-68 | from every such state, losing the leader's connection lets a second replica into the job |
| `Revisions.StepKeepsInv` | internal/store/coreauth_store.go:142-203 | every step of overlapping transactions and of the replicas keeps: the revision is the number of commits, its row has one holder, and every snapshot is the table at its revision |
| `Revisions.RevisionCountsCommits` | internal/store/coreauth_store.go:142-203 | however transactions overlap and fail, the revision grows by one per committed Save or Delete |
| `Revisions.CommitChangesOneRow` | internal/store/coreauth_store.go:142-203 | a commit changes the row of its id, to the saved row or to none, and no other; nothing else changes any row |
| `Revisions.ChangeIsKept` | internal/store/coreauth_store.go:142-203 | what is committed is what the transaction began with |
| `Revisions.UndisturbedTransaction` | internal/store/coreauth_store.go:142-203 | a transaction that nobody disturbs commits its change and moves the revision by one; with an audit entry to write, not before that |
| `Revisions.RollbackLeavesNothing` | internal/store/coreauth_store.go:142-203 | a transaction can be rolled back at any step, changes nothing and frees the revision row |
| `Revisions.QuietPollMeansCurrent` | internal/watcher/revision_poller.go:33-52 | load and baseline in either order, then a quiet poll: the snapshot misses no commit if and only if nothing was committed after the load and before the baseline, and then it equals the table |
| `Revisions.PollShutsDownExactly` | internal/watcher/revision_poller.go:33-61 | in every run, a successful poll starts the shutdown if and only if some transaction has committed since the baseline was read |
| `Revisions.ChangeAfterLoadShutsDown` | internal/watcher/revision_poller.go:33-61 | in every run: baseline, load, a commit, a successful poll, in this order and with anything in between, end in the shutdown path |
| `Revisions.BaselineFirstCoversLoad` | internal/watcher/revision_poller.go:33-37 | a replica that read its baseline before loading is in that case for good |
| `Revisions.LateBaselineMissesChange` | cmd/cliproxy/main.go:119-126 | for every table and every effective change there is a run that loads, changes, reads the baseline and then polls quietly over a stale snapshot |
| `Revisions.PollerRun` | internal/watcher/revision_poller.go:29-64 | the loop shuts down if and only if the first wake-up that is neither a failed read nor the baseline is another value, and the context survives the jitter |
| `Revisions.LoopFollowsReplica` | internal/watcher/revision_poller.go:29-64 | in every run, the loop, given what the poller of a replica has read, starts the shutdown if and only if that replica of the run has |
| `OpenApiNormalize.NormalizeUnionType` | cmd/openapiogen/main.go:57-99 | the loop over the types and the edits of the mapping compute `UnionType` |
| `OpenApiNormalize.NormalizeForOgen` | cmd/openapiogen/main.go:38-55 | the recursion over lists and mappings, in any key order, computes `Normalize` |
| `OpenApiNormalize.NormalizeIsIdempotent` | cmd/openapiogen/main.go:38-99 | for every document, normalizing twice is normalizing once |
| `OpenApiNormalize.NormalizeTidies` | cmd/openapiogen/main.go:38-99 | the result has no rewritable mapping anywhere if and only if no surviving mapping with a non-string key contains one |
| `OpenApiNormalize.StringKeyedBecomesTidy` | cmd/openapiogen/main.go:38-99 | in every document with string keys only, no list-valued type with "null" and one other name, and no object/array/null union, is left anywhere |
| `OpenApiNormalize.IntegerKeysAreNotEntered` | cmd/openapiogen/main.go:52-54 | every mapping with a non-string key is returned as it is, so anything below it that should be rewritten is left |
| `OpenApiNormalize.UnionTypeIsUntidy` | cmd/openapiogen/main.go:76-82 | a union of any type name with "null" is such a thing |
| `OpenApiMeaning.NormalizePreservesMeaning` | cmd/openapiogen/main.go:38-99 | for every schema tree that is convertible at every node, the projection accepts exactly the instances that the schema accepts |
| `OpenApiMeaning.SafeTreeKeepsMeaning` | cmd/openapiogen/main.go:38-99 | the same under conditions read off the tree: object/array/null nodes have no sibling properties, patternProperties, prefixItems or oneOf that a moved keyword depends on, nodes that end up nullable accept null, and what unlisted keywords hold is left alone |
| `OpenApiMeaning.NodePreservedExactly` | cmd/openapiogen/main.go:57-99 | over children that keep their meaning, every node keeps its meaning if and only if it is convertible: a node that ends up nullable accepted null before; and in an object/array/null node, additionalProperties also accepts what the schema accepts at covered properties, items what it accepts at prefix elements, and a oneOf of its own refuses nothing that the rest accepts |
| `OpenApiMeaning.SingleTypeOnNonNull` | cmd/openapiogen/main.go:78-82 | on every instance but null, the single type means what the union meant |
| `OpenApiMeaning.UnionNodeBecomes` | cmd/openapiogen/main.go:83-97 | an object/array/null node is rewritten to: null, or an object or array on whose every property and element the moved keywords hold, together with all other keywords |
| `OpenApiMeaning.UnionNodeCompared` | cmd/openapiogen/main.go:83-97 | an instance accepted before is accepted after if and only if the moved keywords accept what they newly speak about, and the reverse if and only if the overwritten oneOf accepted it |
| `OpenApiMeaning.SafeSiblingsAreHarmless` | cmd/openapiogen/main.go:83-97 | a node without the siblings properties, patternProperties, prefixItems and oneOf is convertible in this respect |
| `OpenApiMeaning.CoveredPropertyBecomesAdditional` | cmd/openapiogen/main.go:84-88 | for every covered property: beside properties or patternProperties the moved additionalProperties refuses it |
| `OpenApiMeaning.CoveredElementFallsUnderItems` | cmd/openapiogen/main.go:89-93 | for every tuple schema: beside prefixItems the moved items refuses a covered element |
| `OpenApiMeaning.OwnOneOfIsLost` | cmd/openapiogen/main.go:95 | a oneOf that refuses everything is overwritten and every object accepted |
| `OpenApiMeaning.RefusedNullIsLetIn` | cmd/openapiogen/main.go:78-82 | for every type name and every other keyword that refuses null, such as an enum: null was refused and is accepted |
| `Keyrings.NewKeyring` | internal/security/keyring.go:42-59 | succeeds if and only if the active version is present and every version is positive with a 32-byte key, and then holds exactly the given keys; which error otherwise |
| `Keyrings.NewKeyringFromEntries` | internal/security/keyring.go:74-107 | in whatever order the entries come, success if and only if versions are readable, distinct and not the active one and all keys are readable; then exactly those keys |
| `Keyrings.NewKeyringFromBase64` | internal/security/keyring.go:62-107 | said of the texts: built if and only if every entry is a decimal from 1 to 2^31-1, perhaps signed and with spaces around it, all different and none the active one, and every trimmed key decodes to 32 bytes; then the key of each entry stands under the number its text says, and nothing else does |
| `Keyrings.PrintedVersionIsText` | internal/security/keyring.go:90-94 | every printed number, with any spaces around it, is such a text |
| `Keyrings.OrderDoesNotMatter` | internal/security/keyring.go:90-103 | the entries determine the keys, so iteration order cannot show |
| `Keyrings.DecryptEncrypt` | internal/security/keyring.go:110-143 | a reader gets the plaintext back if and only if it has the writer's key version, whatever its own active version |
| `Keyrings.CiphertextLength` | internal/security/keyring.go:110-143 | a ciphertext is its nonce of 12 bytes, the text and 16 bytes; shorter values are refused, and so are unknown versions |
| `Keyrings.AADIsBigEndian` | internal/security/keyring.go:161-165 | the additional data is the version in eight bytes, most significant first |
| `Keyrings.AADSeparatesVersions` | internal/security/keyring.go:161-165 | different versions have different additional data |
| `Credentials.NormalFormIsStable` | internal/store/coreauth_store.go:90-106 | the record that Save marshals is its own normal form, so saving a listed account again stores the same plaintext |
| `Credentials.NormalFormMeans` | internal/store/coreauth_store.go:85-106 | what Save makes of an account, field by field and key by key: refused exactly for a blank id or provider or a storage with hidden state, no readable object or a broken one; the account's own metadata over the storage's, raw before encoded; the type, the disabled flag; everything else untouched |
| `Credentials.StoredFormIsUnique` | internal/store/coreauth_store.go:281-300 | that leaves no choice |
| `Credentials.SaveSucceedsExactly` | internal/store/coreauth_store.go:85-125 | when a Save that the database does not fail writes a row, under which id, provider and key version |
| `Credentials.List` | internal/store/coreauth_store.go:48-82 | the loop computes `ListAll`: every record in row order, or nothing as a whole if one row cannot be read |
| `Credentials.StepKeepsInv` | internal/store/coreauth_store.go:85-203 | every save, delete and redeployment keeps: each row seals the normal form of the account as last saved |
| `Credentials.RowReadsBack` | internal/store/coreauth_store.go:59-79 | a sound row reads back as the saved record if and only if the keyring has its version |
| `Credentials.ListReturnsLastSaved` | internal/store/coreauth_store.go:48-203 | in every run, on every replica and in every row order, List returns for each id the normal form of the last saved account if the keyring has all versions in use, and fails otherwise |
| `Credentials.LastOperationDecides` | internal/store/coreauth_store.go:85-203 | what is listed under an id is decided by the last operation about it: the stored form of the account after a Save, nothing after a Delete; refused and failed operations do not count |
| `Credentials.LastDeployDecides` | docs/runbooks/encryption-key-rotation.md:22-43 | a replica works with the keyring it was last deployed with |
| `Credentials.RollingRotationIsSafe` | docs/runbooks/encryption-key-rotation.md:22-43 | if every redeployment keeps the versions in use and all active versions known everywhere, every replica lists what was last saved at every moment of the rollout |
| `AuditReplay.AdminModelRepository.UpsertWithAudit` | internal/store/admin_models.go:26-51 | with a failure at any step the transaction writes row and audit entry or neither, and reports accordingly |
| `AuditReplay.AdminModelRepository.DeleteWithAudit` | internal/store/admin_models.go:54-77 | the same for a delete; a missing alias writes nothing |
| `AuditReplay.AuditLogReplaysTable` | internal/store/admin_models.go:26-77 | in every run with failures anywhere, and commits that lie, the table as alias to provider and upstream model equals the replay of the audit log |
| `AuditReplay.BothOrNone` | internal/store/dbgen/model_overrides.sql.go:12-101 | a reported success means that row and audit entry were written and no other row changed; a refusal that nothing was; a reported failure that both were if the commit lied and nothing otherwise |
| `AuditReplay.RefusedExactly` | internal/store/admin_models.go:26-77 | exactly which inputs are refused, and when a delete reports a missing alias |
| `AuditReplay.UpsertedRow` | internal/store/dbgen/model_overrides.sql.go:58-101 | the whole row after an upsert: the id survives, everything else is as given |
| `AuditReplay.LogIsKept` | internal/store/admin_models.go:26-77 | nothing is taken out of the log |
| `AuditReplay.EnabledIsNotAudited` | internal/store/admin_models.go:43-44 | for every upsert there are two tables with the same log |
| `Principals.DecodeEncode` | internal/access/principal.go:18-45 | for all 64-bit ids, decoding the encoded principal gives both back if both are positive and refuses otherwise |
| `Principals.DecodePlainDecimal` | internal/access/principal.go:40-44 | every positive 64-bit decimal decodes to a user without a key |
| `Principals.DecodedStrings` | internal/access/principal.go:23-53 | a string decodes to a principal if and only if it is the prefix and two positive 64-bit decimals with a colon, or one such decimal |
| `Principals.DecodedIdsAreValid` | internal/access/principal.go:47-53 | every decoded id lies between 1 and 2^63-1 |
| `Text.ParseFormat` | internal/access/principal.go:18-20 | parsing a printed 64-bit number gives it back |
| `Text.TrimSpaceDrops` | internal/security/keyring.go:63-92 | trimming drops the spaces around a text |
| `Text.TrimSpaceKeeps` | internal/security/keyring.go:63-92 | and nothing else |

## Left out

- HTTP handlers, generated bindings, LDAP, configuration, metrics, tracing, logging and redaction: no state worth proving.
- The selector and its snapshot cache, `apiKeyIDs`, `InsertBatch` and `usageEventParams`: they would only add easy members. `Conservation` therefore ends at the call of InsertBatch; a batch with an invalid event or a failed insert is lost by the writer.
- SDK behaviour (`Manager`, `FillFirstSelector`, `Clone`, auth kinds): not in the repository; the auth kind is a parameter.
- The non-transactional branches of Save and Delete: the production pool supports transactions.
- Columns of upstream_accounts other than id, provider, ciphertext and key version: List does not read them. The unique constraint on provider and email is one way in which a save fails.
- HiddenState.SearchDecidesReachability: that nothing is overlooked is sufficient for a given storage; it is not necessary, since a storage that meets the longer reference first, or the hidden field on another way, is answered rightly all the same. Whether a value supports JSON is a flag of the value: a type with a marshalling method of its own forces it, addressability may add it.
- ApiKeyRuns.CachedAnswerIsRight: steps are atomic and a failed statement changed nothing; a write that is applied and reports an error behaves like a change by another replica, which ApiKeyCluster covers.
- ApiKeyCluster.ReturnedPrincipalIsFresh: all replicas read one clock.
- Sessions.BlockEndsSessions: tokens are never reused and a session row never changes. Other replicas appear as changes of the database; their own caches are like this one.
- UsageBuffer.WorkerStepsAreBounded: that the worker is scheduled, and picks the ticker only finitely often in a row, is not assumed; that the writer does not keep the batch slice, which is reused, is.
- LeaderElection.AtMostOneLeader: a failed try-lock query took no lock or left the connection closed.
- Revisions.RevisionCountsCommits: the revision does not wrap at 2^63. Row locks on accounts are not modelled, which only allows more interleavings.
- OpenApiMeaning.NormalizePreservesMeaning: exact node by node (NodePreservedExactly); for a whole tree the condition is sufficient, since a node may ignore what changed below it. Every keyword that is not listed, a reference among them, is taken to mean the same before and after. A table of properties must not itself look like a union type.
- Keyrings.DecryptEncrypt: says nothing about forged or relabelled ciphertexts.
- Ignored fields are those that the code takes for skipped by encoding/json, which differ from the real ones in two cases: a tag `json:"-,"` is encoded under the name "-", and an embedded struct of an unexported type has its exported fields promoted. A report of such a field need not mean lost data.
