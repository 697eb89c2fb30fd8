# GoShort, modelled and verified

GoShort shortens URLs. Its Go code looks small, but four parts of it are concurrent protocols over
PostgreSQL, Redis and goroutines, and two rest on real arithmetic. This project models them in Dafny
and proves what they promise, or exactly when they do not.

`dafny verify dfyconfig.toml` checks everything.

## How the model is built

Every table, cache and channel is a value, and every SQL statement, Redis command, channel operation or
lock section is one function from the old value to the new one. These functions are used twice:

* **Classes** have the shape of the Go types: the repositories, the cache, the services, the limiter, the
  worker pool and the create handler. Their methods follow the Go control flow, change fields and loop
  where the source does, and are proved against the functions.
* **Machines** have a state, an `Enabled` predicate and a `Do` function with one action per atomic
  operation, so that a run is any interleaving of any number of callers. A database call may fail before or
  after its commit, and a process may crash between any two steps. Fields that no code reads (owners,
  versions, tickets, chain depths) record history so that the theorems can speak about it.

| file | what it covers |
|---|---|
| `Arithmetic.dfy`, `Wrappers.dfy` | shared arithmetic, results, durations, statement fates |
| `UrlStore.dfy`, `UrlCache.dfy`, `CachedService.dfy` | urls table, Redis cache, plain and cached service one call at a time |
| `CacheRaces.dfy`, `CacheTraces.dfy` | the cached service with interleaved readers and writers; what a run's own steps say about its entries, and the calls one at a time as runs |
| `ShortCodes.dfy` | the rejection sampler and both ways to create a URL |
| `IdempotencyStore.dfy`, `CreateProtocol.dfy`, `CreateSteps.dfy`, `CreateOutcomes.dfy`, `CreateProgress.dfy`, `CreateHandler.dfy` | idempotent creation: the statements, the machine, what its steps do, what clients can rely on, how requests come to their replies, and the handler's control flow run inside the machine |
| `ClickStore.dfy`, `ClickWorker.dfy`, `PoolProtocol.dfy`, `TimedDrain.dfy`, `DrainReached.dfy`, `DrainProjection.dfy` | click rows and analytics, one worker's retry loop, the whole pool, the time it needs to drain and that it can need all of it, and why timed drains are drains of the pool |
| `TokenStore.dfy`, `TokenRotation.dfy` | refresh tokens: the calls one at a time, and concurrent with row locks and open transactions |
| `RateLimiter.dfy` | the fixed-window limiter |

`CreateHandler.Server.CreateURL` ties the two forms together for the hardest protocol: the Go control flow
runs on the machine's state while other requests take arbitrary steps in between, and returns the reply
that the machine records.

### Where the code does less than its documentation says

The line numbers are those of GoShort's own `README.md`.

* Line 446 says that repeating a request with its `Idempotency-Key` returns the stored response. The
  reservation comes before the checks, so a first request whose body they refuse leaves its key pending for
  good, without any failure (`CreateOutcomes.RefusalOrphansTheKey`, `CreateOutcomes.OrphansOccur`); so does
  an owner that fails or crashes (`CreateOutcomes.OrphanedForever`).
  `CreateOutcomes.PendingKeyCompletesIff` says exactly which pending keys can still be completed, and
  `CreateOutcomes.SingleProcessReplies` when every repeat does get the stored body.
* Line 523 says that Redis entries are invalidated when URL data changes. A reader's SET can land after
  the invalidation (`CacheRaces.InvalidationCanLoseTheRace`), and a failed invalidation is only logged
  (`CachedService.LostInvalidationShows`). `CacheRaces.StaleEntriesAreExplained` and
  `CacheTraces.StaleEntriesHaveACause` say exactly when an entry is outdated and why, and
  `CacheRaces.HitsAreRecent` how old it can be.
* Line 521 says that the backoff is capped at five seconds. The cap is applied after an int64
  product, so the schedule is the doubled, capped one exactly while that product fits
  (`ClickWorker.ScheduleIsDoubledIff`). Every configuration the application uses is far inside.
* Line 518 says that global rate limiting allows up to 60 requests per client IP per minute. The windows are
  fixed, so a sliding minute can see 119 (`RateLimiting.BoundIsReached`, `RateLimiting.WindowBound`).
* A client that waits for its `Retry-After` may be rejected again, because the value is truncated to whole
  seconds (`RateLimiting.EarlyRetryIsRejected`; `RateLimiting.WaitingRetryAfter` says exactly when).
* An entry can outlive its row's `expires_at`, because `cacheTTL` answers one second for an expired row and is
  evaluated before the SET reaches Redis (`CacheRaces.EntriesOutliveRows`;
  `CacheRaces.EntryOutlivesRowIff` says exactly when, `CacheRaces.LateHitsAreBrief` for how long).

## Model

| member | source | states |
|---|---|---|
| `CreateProtocol.AtMostOneCreation` | handler/url_handler.go:293-408 | In every reachable state, with any processes, crashes and lost replies, a (user, key) without record has created nothing, a pending one at most one URL, and a completed one exactly one, which the stored 201 body names: its id, its code, and the code behind the base URL, and that URL has the destination, alias and user of the request that created it |
| `CreateProtocol.StepKeepsInv` | handler/url_handler.go:231-410 | No single step of any request, editor or crash breaks the relation between requests, records and URL rows |
| `CreateProtocol.RunKeepsInv` | handler/url_handler.go:231-410 | That relation holds along every run |
| `CreateProtocol.RepliesAgree` | handler/url_handler.go:216-228 | Any two JSON replies for one (user, key), on any instances, fresh or replayed, are the same JSON value with status 201, and equal the completed record |
| `CreateProtocol.CompletedStays` | repository/idempotency_repository.go:132-140 | No step of anybody alters a completed record |
| `CreateProtocol.CompletedIsFinal` | repository/idempotency_repository.go:132-140 | A completed record is the same after every further run |
| `CreateProtocol.RecordsTouched` | repository/idempotency_repository.go:87-163 | Only reservations and completions can touch the idempotency table |
| `CreateProtocol.StoredCodesAreSound` | migration/001_init.sql:14-22 | In every interleaving of random and alias creates, stored codes are pairwise distinct and 3 to 32 characters of the alias class, and each stored row was made by exactly one request |
| `CreateProtocol.CallsInsertAtMostOnce` | service/url_service.go:45-94 | A call makes at most ten INSERTs of which at most one adds a row, and none unless the body, user and alias pass the checks; without a key a JSON reply is a 201 whose id, code and URL are those of that row, and exhaustion is reported only after ten collisions |
| `CreateProtocol.ReplyNamesURL` | handler/url_handler.go:486-497 | Every JSON reply, fresh or replayed, with or without a key, is a 201 that names a URL created by this request or by another one for the same pair |
| `CreateProtocol.RecordNamesURL` | handler/url_handler.go:391-397 | A completed record holds status 201 and names the URL that the owner of the reservation created |
| `CreateProtocol.OthersLeaveAlone` | handler/url_handler.go:129-141 | A step that is not a request's own nor the end of its process changes neither that request nor the mutex it holds |
| `CreateSteps.ArrivalStands` | handler/url_handler.go:231-291 | An arriving request with a key waits for its mutex, one without goes on to create, and no table changes |
| `CreateSteps.MutexExcludes` | handler/url_handler.go:282-291 | A waiting request can take its mutex if and only if nobody holds it, and a finished holder frees exactly that one |
| `CreateSteps.LookupDecides` | handler/url_handler.go:292-372 | A lookup changes nothing; its reply leads to a 500, a 409, the stored reply or the reservation, and after a lost reservation a missing record is a 500 |
| `CreateSteps.ReservationDecides` | repository/idempotency_repository.go:87-122 | A reservation stores the empty pending record if and only if there is none and the statement ran; its reply decides between creating, looking again and a 500 |
| `CreateSteps.InsertDecides` | service/url_service.go:58-94 | An INSERT adds the row of the requested destination, alias and user under its code if and only if the code is free and the statement ran; a collision leads to the next of ten attempts, or for an alias to the refusal |
| `CreateSteps.InsertSucceeds` | handler/url_handler.go:448-497 | After a reported INSERT the request holds, or without a key replies with 201, a body that names the new row |
| `CreateSteps.CompletionDecides` | handler/url_handler.go:391-410 | A completion that runs stores the body with 201, and the owner replies it exactly when it was told so |
| `CreateSteps.RefusalWritesNothing` | service/url_service.go:50-65 | A request about to create can be refused without an INSERT if and only if a check fails or the random source does, and nothing is written |
| `CreateSteps.CrashEndsRequests` | handler/url_handler.go:129-141 | A crash ends the unfinished requests of its process and no others, and loses no row |
| `CreateOutcomes.PendingKeyCompletesIff` | handler/url_handler.go:374-408 | A pending key can still become completed in some run if and only if its owner is completing, or is creating with a body, user and alias that pass the checks made after the reservation |
| `CreateOutcomes.RefusalOrphansTheKey` | handler/url_handler.go:321-388 | A first request that those checks refuse orphans its key in a run without any failure or crash |
| `CreateOutcomes.OrphansOccur` | handler/url_handler.go:321-388 | For every user and key some reachable state has the key orphaned, beyond completion |
| `CreateOutcomes.OrphanedForever` | handler/url_handler.go:381-388 | Once a key's owner cannot finish, the key stays pending in every run, nothing further is created for it, and every other request with it that ends gets 409 or 500 |
| `CreateOutcomes.OrphanStays` | handler/url_handler.go:381-388 | No step, by the owner or by others, revives an orphaned key |
| `CreateOutcomes.CreatorIsOwner` | handler/url_handler.go:321-332 | Only the request that won the reservation can ever have created a URL for the key |
| `CreateOutcomes.PendingMeansLocked` | handler/url_handler.go:282-290 | In one process whose owners do not fail, the owner of a pending key holds the key's mutex and no other request with the key is inside the guarded section |
| `CreateOutcomes.SmoothStepKept` | handler/url_handler.go:282-410 | Each step of such a process keeps that picture |
| `CreateOutcomes.SmoothRunKeeps` | handler/url_handler.go:282-410 | So does every run of it |
| `CreateOutcomes.SingleProcessReplies` | handler/url_handler.go:282-410 | In such a process nobody gets 409, the branch after a lost reservation is never entered, and every request that met no failure of its own gets 201 with the one stored body |
| `CreateProgress.ProgressIff` | handler/url_handler.go:282-410 | In such a process an unfinished request with a key, or the holder of its mutex, can take a step in which no owner fails, if and only if the one that is next is not creating with a refused body, user or alias, or without a free name for its last attempt |
| `CreateProgress.RequestsCanFinish` | handler/url_handler.go:282-410 | A request that is accepted and has a free name if it needs one, behind a holder of which the same is true, can be brought to its 201 with the stored body by such steps |
| `CreateProgress.FirstRequestIsAnswered` | handler/url_handler.go:282-410 | From the start every accepted first request has a run to its 201 |
| `CreateHandler.Server.CreateURL` | handler/url_handler.go:231-410 | Whatever the others do in between, the returned reply is the one the protocol records for this request, the mutex is released, a key of more than 255 bytes changes nothing, and a refused body creates nothing; a JSON reply is a 201 that names the URL created for this call or its pair, with the destination asked for, and with a key it equals the completed record; no reply is returned only while another holds the mutex |
| `CreateHandler.Server.CreateKeyed` | handler/url_handler.go:282-410 | From the mutex to the deferred unlock: a reply that the protocol records, with the mutex released |
| `CreateHandler.Server.CreateUnkeyed` | handler/url_handler.go:413-441 | Without a key the reply is the protocol's, and a body that the checks refuse is told so |
| `CreateHandler.Server.Guarded` | handler/url_handler.go:292-410 | The guarded section ends with a reply while still holding the mutex, and the protocol records the same reply |
| `CreateHandler.Server.CreateResponse` | handler/url_handler.go:442-498 | A request the checks refuse is answered so; any other ends with the returned reason or ready to complete with the returned body |
| `CreateHandler.Server.CreateDrawn` | service/url_service.go:58-94 | The retry loop over codes drawn by the sampler ends within ten attempts in the state its answer says |
| `CreateHandler.Server.CreateNamed` | service/url_service.go:108-137 | The one INSERT of an alias likewise |
| `CreateHandler.Server.Get` | repository/idempotency_repository.go:50-85 | The lookup returns the current record, changes none, and decides the request's next step |
| `CreateHandler.Server.Reserve` | repository/idempotency_repository.go:87-122 | A reservation moves the request to creating exactly when it won, under whatever other requests have done |
| `CreateHandler.Server.InsertRow` | service/url_service.go:73-90 | The INSERT's outcome decides between success, another attempt and failure; without a failing statement it is never unknown |
| `CreateHandler.Server.CompleteRecord` | repository/idempotency_repository.go:124-163 | For the owner the UPDATE always finds the record pending: only a failing statement makes it fail |
| `CreateHandler.Server.Others` | handler/url_handler.go:129-141 | Any steps of other requests leave this request and its mutex as they are |
| `CreateHandler.Server.Lock` | handler/url_handler.go:289-290 | Takes the mutex as soon as it is found free while the others go on; ends without it only while somebody holds it |
| `CreateHandler.Server.Unlock` | handler/url_handler.go:291 | Leaving frees the mutex and keeps the reply |
| `IdempotencyStore.FirstReservationAndCompletionWin` | repository/idempotency_repository.go:87-163 | A second reservation loses and changes nothing, a second completion touches no row |
| `IdempotencyStore.CompletionReadsBack` | repository/idempotency_repository.go:50-163 | Once a reservation has been completed, Get returns that body and status after any further statements for any keys |
| `IdempotencyStore.IdempotencyRepository.Reserve` | repository/idempotency_repository.go:87-122 | True exactly for the caller that inserted the row; a lost reply may leave it inserted |
| `IdempotencyStore.IdempotencyRepository.Complete` | repository/idempotency_repository.go:124-163 | Succeeds exactly when the record was pending and the reply arrived, and then stores body and status as completed |
| `IdempotencyStore.LockKeyInjective` | handler/url_handler.go:282-288 | Two requests use one mutex name if and only if they share user and key, even when keys contain colons and digits |
| `IdempotencyStore.LockTable.GetIdempotencyLock` | handler/url_handler.go:129-141 | One mutex per name for good: a known name gives its old mutex and changes nothing, a new name a fresh one that no other name has |
| `CacheRaces.StaleEntriesAreExplained` | service/cached_url_service.go:73-177 | When committed writes are reported and invalidations succeed, an entry is outdated if and only if a write its reader did not see committed before that reader's SET or belongs to a writer that has yet to invalidate; an entry that is not outdated is the stored row; also across delete and re-create of an alias |
| `CacheRaces.InvalidationCanLoseTheRace` | service/cached_url_service.go:93-139 | A run without any failure after which a live entry disagrees with the stored row although no reader or writer is left |
| `CacheRaces.HitsAreRecent` | service/cached_url_service.go:73-112 | In every run, with every failure, a hit returns a row the database would have resolved less than one hour plus that reader's own delay ago |
| `CacheRaces.EntryOutlivesRowIff` | cache/redis.go:182-198 | An entry lives past its row's expiry x if and only if its TTL was evaluated at or after x, or the SET came later than the evaluation and x lies within an hour of the SET |
| `CacheRaces.EntriesOutliveRows` | cache/redis.go:152-198 | Two runs without any failure that end with a live entry for an expired row, one for each reason |
| `CacheRaces.LateHitsAreBrief` | cache/redis.go:182-198 | A hit past the row's expiry happens only within the delay between evaluating the TTL and SET, or within one second of a SET priced after expiry |
| `CacheRaces.RunKeepsInv` | service/cached_url_service.go:73-177 | In every reachable state an unchanged version means an unchanged row, for readers and for cache entries alike |
| `CacheRaces.HealthyRunKeepsExcuses` | service/cached_url_service.go:114-177 | Along every run without lost writes or invalidations each outdated entry has one of the two excuses |
| `CacheRaces.EverythingIsSourced` | repository/url_repository.go:164-202 | Everything readers hold and the cache stores was resolvable in the database at the instant it was read |
| `CacheTraces.StaleEntriesHaveACause` | service/cached_url_service.go:73-177 | In terms of the run alone: if no invalidation fails and a cached row differs from the stored one, then the steps of one reader that made the entry can be named, some step after its read wrote the code, and either that write came before the SET or its writer has not invalidated since |
| `CacheTraces.EntriesAreTraced` | service/cached_url_service.go:73-112 | Every cached entry was made by a read, a TTL evaluation and a SET of one reader in this order, which determine its row and deadline; its history fields give their times and the number of writes before them |
| `CacheTraces.WritersAreTraced` | service/cached_url_service.go:114-177 | Every writer that has yet to invalidate made a write of its code and has neither invalidated nor given up since |
| `CacheTraces.VersionsCountWrites` | service/cached_url_service.go:28-177 | The version of a code is the number of inserts, updates and deletes of its row so far |
| `CacheTraces.CallsAreRuns` | service/cached_url_service.go:73-177 | Each call of the cached service, made while nothing else happens, is a run of interleaved steps that ends with the same table, cache and clock |
| `CacheTraces.CallSequencesAreRuns` | service/cached_url_service.go:73-177 | So is every sequence of calls |
| `CacheTraces.UpdateIsRun` | service/cached_url_service.go:114-142 | The same for one update, its invalidation lost or not |
| `CacheTraces.DeleteIsRun` | service/cached_url_service.go:144-177 | The same for one delete |
| `CacheTraces.UnreportedWritesAreNotFollowed` | service/cached_url_service.go:114-177 | A write that commits although an error is reported changes the row and leaves the entry, with nobody to invalidate it |
| `CachedService.CachedServiceIsTransparent` | service/cached_url_service.go:73-177 | For every sequence of calls, evictions, cache failures and passing time with successful invalidations, the cached service gives exactly the plain service's answers |
| `CachedService.StepAgrees` | service/cached_url_service.go:28-177 | One call gives the same answer and table with and without the cache, and leaves the cache coherent |
| `CachedService.HitsAnswerLikeTheStore` | service/cached_url_service.go:77-82 | In a coherent state a hit is what the database query would return at that instant |
| `CachedService.ResolveAgrees` | service/cached_url_service.go:73-112 | Resolving gives the database's answer and keeps the cache coherent, whether Redis reads or writes fail |
| `CachedService.UpdateAgrees` | service/cached_url_service.go:114-142 | Updating has the plain effect and result; if its invalidation succeeds the cache stays coherent |
| `CachedService.DeleteAgrees` | service/cached_url_service.go:144-177 | Likewise for deleting |
| `CachedService.LostInvalidationShows` | service/cached_url_service.go:128-139 | After an update with a failed invalidation some later hit is wrong if and only if a live entry existed and the update changed the row |
| `CachedService.LostInvalidationShowsDeletion` | service/cached_url_service.go:163-174 | After a delete with a failed invalidation some later hit is wrong if and only if a live entry existed |
| `CachedService.CreateKeepsCoherence` | service/cached_url_service.go:28-56 | Creating a URL needs no invalidation: no live entry can carry its code |
| `CachedService.ResolveFillsCache` | service/cached_url_service.go:73-112 | After a miss the found row is cached until its lifetime is over; a hit, a failure and other codes leave the cache as it was |
| `CachedService.WritesKeepOtherEntries` | service/cached_url_service.go:114-177 | A successful update or delete removes the entry of that row's code and no other |
| `CachedService.WritesAreResolved` | service/cached_url_service.go:114-177 | After an update whose invalidation succeeds a following GetOriginalURL answers the new destination exactly while the row is active and unexpired, and after a delete nothing |
| `CachedService.AnswersFollowWrites` | service/url_service.go:163-197 | A created row is found under its code, a change decides where the code leads, a removed or expired row leads nowhere; by transparency also through the cache |
| `CachedService.CachedURLService.GetOriginalURL` | service/cached_url_service.go:73-112 | Returns what the database query would, with or without a cache, and fills the cache as specified |
| `CachedService.CachedURLService.UpdateURL` | service/cached_url_service.go:114-142 | After success the stored and returned row has the requested destination, expiry and activity and all other columns as before, no other row changes, and the outcome is the plain service's; only a lost invalidation can leave the cache incoherent |
| `CachedService.CachedURLService.DeleteURL` | service/cached_url_service.go:144-177 | Same table and result as the plain delete, missing rows included |
| `CachedService.URLService.GetOriginalURL` | service/url_service.go:163-171 | The active, unexpired row for the code, or none |
| `CachedService.URLService.UpdateURL` | service/url_service.go:174-187 | An invalid destination is refused before the database is touched; otherwise an existing row gets the requested destination, expiry and activity and keeps id, codes, user and creation time, and a missing row is an error without a change |
| `CachedService.URLService.DeleteURL` | service/url_service.go:189-197 | The row is gone, or was missing |
| `UrlCache.CacheTTL` | cache/redis.go:182-198 | The cache's full TTL without an expiry or before a distant one, else exactly the time to a future expiry; one second for an expired row |
| `UrlCache.WritesReadBack` | cache/redis.go:104-180 | After SetURL the row is found until its TTL has passed, never past an expiry that lay ahead, after DeleteURL not at all, and other codes are unaffected |
| `UrlCache.RedisCache.SetURL` | cache/redis.go:137-162 | From then on the row is found exactly until its TTL has passed |
| `UrlCache.RedisCache.DeleteURL` | cache/redis.go:164-180 | From then on the code misses at every time; a failure changes nothing |
| `UrlStore.LookupIsComplete` | repository/url_repository.go:164-202 | The lookup by code finds a row exactly when there is an active, unexpired one with the code, and that row |
| `UrlStore.StatementsKeepConsistency` | repository/url_repository.go:86-279 | Every INSERT, UPDATE and DELETE keeps rows, unique index and sequence consistent |
| `UrlStore.CodesAreUnique` | migration/001_init.sql:16 | Stored short codes are pairwise distinct |
| `UrlStore.AliasIndexIsRedundant` | migration/006_custom_alias.sql:4-6 | The second unique index, on custom_alias, never refuses a row that the index on short_code would accept |
| `UrlStore.URLRepository.Create` | repository/url_repository.go:86-122 | Succeeds exactly for a free code, and then the row can be found by id and, if resolvable, by code |
| `UrlStore.WritesReadBack` | repository/url_repository.go:125-279 | FindByID returns what the statements returned, nothing after DELETE, and every other row as before |
| `UrlStore.StatementsStore` | repository/url_repository.go:86-279 | INSERT stores the given columns under a new id, UPDATE exactly destination, expiry and activity of an existing row, DELETE removes one row; every other row stays, and refused statements change nothing |
| `UrlStore.URLRepository.FindActiveRow` | repository/url_repository.go:164-202 | A found row has the code and is active and unexpired; otherwise no such row exists |
| `UrlStore.URLRepository.UpdateRow` | repository/url_repository.go:205-252 | Destination, expiry and activity of one row become the given ones; id, codes, user and creation time of it and all other rows stay; a missing row is reported |
| `UrlStore.URLRepository.DeleteRow` | repository/url_repository.go:255-279 | Removes this row and no other, and reports a missing one |
| `ShortCodes.SamplerIsUniform` | service/url_service.go:333-353 | For every n each of the 62^n codes has exactly 4^n accepted byte sequences, and together these are all 248^n |
| `ShortCodes.PreimagesAreSamples` | service/url_service.go:333-353 | The counted sequences are exactly those the sampler keeps whole and turns into the code |
| `ShortCodes.FourBytesEach` | service/url_service.go:340-346 | Each of the 62 characters is selected by exactly four accepted bytes |
| `ShortCodes.AlphabetCount` | service/url_service.go:20 | The alphabet has 62 different characters |
| `ShortCodes.AcceptedIsPrefix` | service/url_service.go:333-351 | What has been accepted is never revised by reading on |
| `ShortCodes.AcceptedJoins` | service/url_service.go:340-346 | The sampler decides byte by byte: those below 248 stay in order, the others go |
| `ShortCodes.ByteLengthMeans` | service/url_service.go:111-114 | The length checked is one to four bytes a character, and the number of characters exactly for ASCII |
| `Strings.TrimSpaceMeans` | service/url_service.go:69 | The trimmed string is the given one without white space at its ends: only white space is removed, and none is left there |
| `ShortCodes.GenerateShortCode` | service/url_service.go:326-354 | The code is the first n bytes below 248 mapped to the alphabet, and not a byte more is read; an exhausted source and a non-positive length are errors |
| `ShortCodes.DrawnCodesAreShaped` | service/url_service.go:21-27 | Every drawn code is six alphabet characters and satisfies the alias rules |
| `ShortCodes.CreateShortURL` | service/url_service.go:45-94 | At most ten attempts, each but the last a collision; success adds one row and no more, with the trimmed destination, the user, no expiry and active, which the lookup of its code answers at every time; each error has exactly one cause, and a failure changes the table only if the last commit's reply was lost |
| `ShortCodes.CreateShortURLWithAlias` | service/url_service.go:98-137 | Success, a taken alias, a bad length and a failed statement are told apart exactly; success adds one row under the trimmed alias of 3 to 32 characters, with the trimmed destination, the user, no expiry and active, which the lookup answers at every time |
| `PoolProtocol.EachEventInOnePlace` | worker/click_worker.go:66-95 | In every reachable state an accepted event is in exactly one of the queue, one worker's hands or the finished ones, in FIFO order |
| `PoolProtocol.RowsMatchEvents` | repository/click_event_repository.go:121-132 | The queue is within capacity, no key has two rows, every row was accepted, and an event has its row exactly when some attempt committed, in particular whenever process returned nil |
| `PoolProtocol.ShutdownDrains` | worker/click_worker.go:132-135 | When Shutdown returns, nothing is queued or held, events were taken in order, and each succeeded with its row stored or failed exactly maxRetries times |
| `PoolProtocol.ClosedStepsDescend` | worker/click_worker.go:82-130 | After close every possible step lowers a measure of attempts, sleeps and live workers |
| `PoolProtocol.DrainIsBounded` | worker/click_worker.go:132-135 | So a run after close has at most that many steps |
| `PoolProtocol.OnlyShutdownStops` | worker/click_worker.go:132-135 | After close a step is possible if and only if some worker has not exited |
| `PoolProtocol.StepKeepsInv` | worker/click_worker.go:66-130 | Every channel operation, INSERT, sleep and exit keeps queue, workers, tickets and rows in agreement |
| `PoolProtocol.RunKeepsInv` | worker/click_worker.go:66-130 | So does every run |
| `PoolProtocol.AcceptQueues` | worker/click_worker.go:66-80 | An open pool can accept an event if and only if the queue has room, and puts it last |
| `PoolProtocol.TakeIsFirst` | worker/click_worker.go:82-95 | An idle worker takes the event that waited longest, and can leave if and only if the queue is closed and empty |
| `PoolProtocol.AttemptDecides` | worker/click_worker.go:97-130 | An attempt that replies nil ends its event with the row stored; an error leads to a pause and the next attempt, and after maxRetries to giving up; an attempt that failed before its commit stores nothing, and after any other the row is stored |
| `TimedDrain.DrainDeadlines` | worker/click_worker.go:82-135 | With Q events queued at close, w workers and T = maxRetries*5 s plus the sleeps between them, the queue is non-empty only until ceil(Q/w)*T and some worker remains only until (ceil(Q/w)+1)*T |
| `DrainReached.DeadlinesAreReached` | worker/click_worker.go:82-135 | Both deadlines are reached exactly: for every configuration, number of events and number of workers some drain still has an event queued at ceil(Q/w)*T and a worker at (ceil(Q/w)+1)*T |
| `TimedDrain.DrainNeverStalls` | worker/click_worker.go:82-135 | Until every worker has left, a worker's step or a positive wait is possible, and afterwards any wait |
| `TimedDrain.CloseFindsWorkersInTime` | worker/click_worker.go:58-95 | Whenever a started pool is closed, each worker is idle or within the time of the attempts it has begun, as the deadlines assume |
| `DrainProjection.RunProjects` | worker/click_worker.go:82-135 | Every timed run, with its clock forgotten, is a run of the pool in the same states |
| `DrainProjection.DrainedInTime` | worker/click_worker.go:82-135 | In a run in which more than (ceil(Q/w)+1)*T have passed since close, the pool has shut down, and each accepted event has its row and succeeded, or failed exactly maxRetries times |
| `DrainProjection.DeadlineComes` | worker/click_worker.go:82-135 | Such runs exist for every pool, whatever it was doing when it was closed |
| `DrainProjection.OpenPoolsClose` | worker/click_worker.go:132-135 | Every state of an open pool can be closed, and no worker has exited then |
| `TimedDrain.RunKeepsSchedule` | worker/click_worker.go:82-127 | After k*w + r events have been taken, w - r workers are free by (k+1)*T and all by (k+2)*T, in every run of attempts and pauses |
| `TimedDrain.EndsInTime` | worker/click_worker.go:97-127 | Every attempt and pause of an event ends within T of the moment it was taken |
| `TimedDrain.ReplyWithinTime` | worker/click_worker.go:106-126 | At attempt n an event has made its first n - 1 pauses in full, and n attempts and these pauses take at most n*5 s plus the sleeps |
| `ClickWorker.ScheduleIsDoubledIff` | worker/click_worker.go:120-124 | All sleeps of n attempts are min(b*2^(k-1), 5 s) if and only if b*2^(n-2) fits int64 |
| `ClickWorker.FirstOverflowIsNegative` | worker/click_worker.go:120-126 | The first product that does not fit comes out negative, so that attempt is followed by no sleep at all |
| `ClickWorker.DoubledGrows` | worker/click_worker.go:120-124 | The intended sleeps are positive, non-decreasing and never above five seconds |
| `ClickWorker.UncappedTotal` | worker/click_worker.go:98-127 | While the cap is not reached, n attempts sleep b*(2^(n-1) - 1) in all |
| `ClickWorker.TotalSleepBound` | worker/click_worker.go:98-127 | In every case, overflow included, n attempts sleep at most 5 s between each two |
| `ClickWorker.ConfiguredSleep` | worker/click_worker.go:41-47 | The default five attempts from 100 ms sleep 1.5 s in all |
| `ClickWorker.ConfiguredEventTime` | worker/click_worker.go:97-130 | Under that configuration the time within which process returns is 26.5 s |
| `ClickWorker.BackoffIsDoubled` | worker/click_worker.go:120-124 | One int64 computation gives min(b*2^(k-1), 5 s) whenever that product fits |
| `ClickWorker.ScheduleLists` | worker/click_worker.go:120-126 | The schedule of n attempts has the n - 1 sleeps after attempts 1 to n - 1 |
| `ClickWorker.ScheduleAmounts` | worker/click_worker.go:120-126 | Sleeping them takes the sum that the time limits are stated with |
| `ClickWorker.Process` | worker/click_worker.go:97-130 | Attempts end at the first success or after maxRetries, the table is as these attempts leave it, sleeps follow the schedule, and the time taken is at least these sleeps, within that of its attempts, 5 s each plus the sleeps, and so within T |
| `ClickWorker.AttemptsInsertOnce` | worker/click_worker.go:97-130 | However many attempts committed, the event has one row, and it has it whenever the last attempt succeeded |
| `ClickWorker.ClickWorkerPool.constructor` | worker/click_worker.go:26-56 | Non-positive settings become 4 workers, 1000 places, 5 attempts and 100 ms |
| `ClickWorker.ClickWorkerPool.Enqueue` | worker/click_worker.go:66-80 | Appends exactly on success, never beyond capacity; with room a live context always succeeds and a cancelled one by the coin of select; a full queue with a live context is reported as such, and errors change nothing |
| `ClickWorker.ClickWorkerPool.RunWorker` | worker/click_worker.go:82-95 | While other workers take from the same closed queue, a worker takes its events in queue order until none is left, stores a row for each it reports done, gives up only after maxRetries attempts, and no foreign row appears |
| `ClickStore.InsertOnceIsIdempotent` | repository/click_event_repository.go:121-132 | An insert adds exactly its row or nothing, repeating it changes nothing, keys stay distinct and no row is lost |
| `ClickStore.ClickEventRepository.Create` | repository/click_event_repository.go:117-153 | A conflicting key is success without a change; an error may hide a commit |
| `ClickStore.GroupingCountsEveryRow` | repository/click_event_repository.go:34-100 | The counts of any GROUP BY result add up to the number of rows it ranges over |
| `ClickStore.GroupsMean` | repository/click_event_repository.go:34-67 | Each device or referrer group counts the clicks with that value, and those without one as "unknown" or "direct"; no group has an empty name |
| `ClickStore.ForURLFilters` | repository/click_event_repository.go:25-38 | The clicks of a URL are the rows with its number, each as often as it is stored |
| `ClickStore.SnapshotsGrow` | repository/click_event_repository.go:25-100 | A table that extends another has at least its clicks of a URL |
| `ClickStore.QueriesSeeMore` | repository/click_event_repository.go:25-100 | Whatever clicks are inserted between them, each of the four queries sees at least the clicks of the one before |
| `ClickStore.ReadGroups` | repository/click_event_repository.go:34-59 | All groups in order, or an error exactly when the query cannot start, a Scan fails or the cursor does |
| `ClickStore.GetAnalytics` | repository/click_event_repository.go:19-103 | Under any inserts between its queries total <= devices <= referrers <= days, with equality when they add no row; an error exactly when one of the four queries fails, and no partial result |
| `TokenRotation.ChainsAreLinear` | repository/refresh_token_repository.go:139-208 | In every reachable state a row has one successor at most and shares its user with it, a login has one root, and at most the end of its chain is unrevoked |
| `TokenRotation.ChainsAreConnected` | repository/refresh_token_repository.go:139-208 | Of two rows of one login the later is reached from the earlier by rotations only, so each chain is one line from its root, without cycles, of one user |
| `TokenRotation.LoginsHaveChains` | auth/auth_service.go:103-139 | Every login's first row is stored for good, whatever is revoked or rotated |
| `TokenRotation.LiveTokensAreFew` | auth/auth_service.go:143-196 | Unrevoked rows never outnumber logins |
| `TokenRotation.TokensAreSingleUse` | auth/auth_service.go:155-223 | Of all concurrent refreshes and logouts presenting one token at most one succeeds; `RefreshSucceeds` and `LogoutDecides` say when one does |
| `TokenRotation.RefreshSucceeds` | repository/refresh_token_repository.go:139-208 | A refresh that found an unrevoked row which no other transaction holds succeeds when its statements follow with a new hash and its commit is reported: the old row is revoked, and exactly one unrevoked row is new, with that hash, the same user and the old row as parent |
| `TokenRotation.UpdateDecides` | repository/refresh_token_repository.go:153-176 | The UPDATE of a rotation can run if and only if no other transaction holds the row, and then goes on if and only if the row is unrevoked; nothing is visible yet |
| `TokenRotation.InsertDecides` | repository/refresh_token_repository.go:178-201 | The INSERT of a rotation can run if and only if no row and no open transaction has the hash, and changes no visible row |
| `TokenRotation.CommitDecides` | repository/refresh_token_repository.go:203-207 | COMMIT makes both changes visible at once, whether it is reported or not |
| `TokenRotation.LogoutDecides` | repository/refresh_token_repository.go:105-135 | A logout's UPDATE waits for a lock likewise, wins if and only if the row is unrevoked and its reply arrives, and revokes this row only |
| `TokenRotation.AbortChangesNothing` | repository/refresh_token_repository.go:149-151 | A rollback, and a call that gives up, change no row and do not succeed |
| `TokenRotation.FindFindsActive` | repository/refresh_token_repository.go:65-103 | A token can be found if and only if its row is unrevoked and unexpired |
| `TokenRotation.LoginStarts` | auth/auth_service.go:130-136 | A login with a new hash adds one unrevoked row without a parent for its user |
| `TokenRotation.TokensCanBeUsed` | auth/auth_service.go:143-223 | Whatever token a login issues can be refreshed, and can be logged out, in some run |
| `TokenRotation.LogoutEndsTheChain` | auth/auth_service.go:199-223 | After a successful logout no refresh or logout on any token of its chain succeeds any more, not even one that had already found its row |
| `TokenRotation.NothingAfterDeath` | repository/refresh_token_repository.go:153-176 | A login all of whose rows are revoked gains no success and no live row in any run |
| `TokenRotation.StepKeepsInv` | repository/refresh_token_repository.go:105-208 | Every statement of every open transaction keeps chains, locks and calls in agreement |
| `TokenRotation.RunKeepsInv` | repository/refresh_token_repository.go:105-208 | So does every run |
| `TokenStore.StatementsKeepConsistency` | repository/refresh_token_repository.go:33-208 | Revoking and inserting keep rows and the unique hash index consistent |
| `TokenStore.RefreshTokenRepository.Create` | repository/refresh_token_repository.go:33-63 | Adds exactly the new row, or fails on a taken hash or a failing statement |
| `TokenStore.RefreshTokenRepository.FindActiveByHash` | repository/refresh_token_repository.go:65-103 | Finds the unrevoked, unexpired row with the hash; reports that there is none only when there is none, and a failing query as such |
| `TokenStore.RefreshTokenRepository.Revoke` | repository/refresh_token_repository.go:105-135 | Succeeds exactly for a stored unrevoked row and changes nothing but its revocation |
| `TokenStore.RefreshTokenRepository.Rotate` | repository/refresh_token_repository.go:139-208 | All or nothing: the old row revoked and the new one stored, or no row changed; a COMMIT whose reply is lost reports an error for the former, and nothing else does |
| `TokenStore.AuthService.CreateRefreshToken` | auth/auth_service.go:252-297 | Success adds one session of the user, unrevoked, for seven days, under the hash of the returned token and usable at once, and keeps every other; a failing random source and a failing INSERT are told apart and add none unless a reply was lost |
| `TokenStore.AuthService.Login` | auth/auth_service.go:103-139 | Bad credentials, a failing signature, a failing random source and a failing INSERT are told apart; success starts exactly one new seven-day session of the verified user |
| `TokenStore.AuthService.Refresh` | auth/auth_service.go:143-196 | Succeeds exactly for a usable token when nothing fails; then its row is revoked and can no longer be found, and one new seven-day session of the same user is found under the returned token; signing and random failures are told apart and change nothing |
| `TokenStore.AuthService.Exchange` | auth/auth_service.go:171-196 | From a found token on: signature, draw and rotation, with the outcomes just named |
| `TokenStore.AuthService.PresentedIsUsable` | auth/auth_service.go:147-161 | A presented token refers to a row if and only if, trimmed, it is not empty and the row has its hash, is unrevoked and unexpired |
| `TokenStore.AuthService.Logout` | auth/auth_service.go:199-223 | Success revokes the presented row and changes no other, and the token is never found again, at any time |
| `RateLimiting.SlidingBound` | security/rate_limiter.go:37-57 | When the clock is read at most D before the lock, any interval of length L >= 1 of lock times admits at most max(max*ceil((L+D)/W), max*(ceil((L+D-1)/W)+1) - 1) requests of a client, whatever the order of their stamps |
| `RateLimiting.BoundIsReached` | security/rate_limiter.go:37-64 | That is the maximum: for every L and D some run within the delay reaches it |
| `RateLimiting.SimpleBound` | security/rate_limiter.go:37-64 | It is below the simpler max*(ceil((L+D)/W)+1) |
| `RateLimiting.WindowBound` | security/rate_limiter.go:44-64 | For L = W and D = 0 it is 2*max - 1 |
| `RateLimiting.OpeningsAreApart` | security/rate_limiter.go:44-49 | Windows that a client opens in a run start at least W apart, even with out-of-order stamps |
| `RateLimiting.WindowsInInterval` | security/rate_limiter.go:44-64 | The admissions of an interval are bounded by the windows opened in it and by what a window opened before leaves over, and these windows fit the interval's stamps |
| `RateLimiting.EntryByPosition` | security/rate_limiter.go:42-52 | In any run the client's window starts at the stamp of its last opening request and counts its requests from that one on, rejected ones too |
| `RateLimiting.AdmittedByPosition` | security/rate_limiter.go:42-64 | With max >= 1 a request stamped a window or more after its client's last opening passes, whatever was rejected in between, and any other passes if and only if fewer than max of the client's requests came before it in the window |
| `RateLimiting.RejectionsLeaveNoTrace` | security/rate_limiter.go:42-64 | Had a rejected request not been made, every later request of any client would be decided the same |
| `RateLimiting.RetryAfter` | security/rate_limiter.go:65-71 | The header is the whole seconds left of the window, rounded down, and one when less than a second is left |
| `RateLimiting.NothingPassesWithoutQuota` | security/rate_limiter.go:64 | With a non-positive maximum nobody is let through |
| `RateLimiting.ClientsAreIndependent` | security/rate_limiter.go:42-52 | A client's window and admissions depend on its own requests only |
| `RateLimiting.WaitingRetryAfter` | security/rate_limiter.go:64-75 | A rejected client that comes back exactly after Retry-After is admitted if and only if at most one second or whole seconds were left |
| `RateLimiting.EarlyRetryIsRejected` | security/rate_limiter.go:64-75 | With 1.5 s left the header says one second and the client is rejected again |
| `RateLimiting.RateLimiter.Handle` | security/rate_limiter.go:35-84 | Rejects a request if and only if its client's last opening request was stamped less than a window before it and at least max of the client's requests came since then, that one included, or nobody may pass; touches no other client, and says the whole seconds left of the window, at least one |

## Left out

- HTTP plumbing: request decoding, headers, routing, configuration, connection setup and the dashboard.
- JWT, bcrypt, SHA-256 and crypto/rand: hashes and tokens are opaque values, `hash` is an arbitrary function, random bytes are an input sequence whose end is the failing read.
- validateURL and isPublicIP: their verdict is a parameter.
- validatePassword, detectDeviceCategory, getClientIP, parseURLID, ownership checks, Register and the listing of a user's URLs: each is one branch or one loop.
- IdempotencyRepository.Create: no handler calls it.
- Method, authentication and missing-repository checks of CreateURL: each refuses before any state is touched.
- JSONB text: bodies are JSON values, so nothing is claimed about the bytes of a replay.
- Deletion of a user, which cascades to keys and tokens: no code deletes users.
- Deletion of a URL, which cascades to its clicks: `PoolProtocol` and `ClickStore.GetAnalytics` have no such step.
- Database, driver and clock internals: one database clock for each model, READ COMMITTED statements as atomic steps; time moves only between actions.
- The Redis key prefix, the decode failure of a corrupt entry and go-redis' rounding of TTLs below one millisecond.
- The order of analytics groups: GROUP BY results enter `ClickStore.GetAnalytics` as any sequence that groups its snapshot.
- Floating-point rounding in `Seconds()` of the Retry-After value: the remaining nanoseconds are divided exactly.
- Enqueue after close, which panics in Go: a precondition, as are one Start and one Shutdown.
- Cancellation of a request's context as such: it shows as a statement that fails before or after its commit.
- `CreateHandler.Server.CreateURL`: a wait for a mutex that is never freed has no end in Go; here the observation ends after a chosen number of looks, and the contract says that the mutex is still held.
- `CreateHandler.Server.CreateKeyed`: the same.
- `CreateHandler.Server.Lock`: the same.
- The clock of `RateLimiting` and `TimedDrain` counts whole nanoseconds; their bounds are stated in them.
- `ClickWorker.ClickWorkerPool.RunWorker`: the others act between its events, not within one; every interleaving is `PoolProtocol`.
- The classes of `TokenStore`, `CachedService` and `ShortCodes` run one call at a time; interleaving them is `TokenRotation`, `CacheRaces` and `CreateProtocol`.
- Failing lookups in the urls table: they answer an error and change nothing.
