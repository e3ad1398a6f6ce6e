# plugshub-common: a verified model

This project models the parts of `plugshub_common` that other services rely on when something fails, and proves what
they guarantee. Each Dafny file is one component:

| file | component |
|---|---|
| `Basics.dfy` | the few definitions that components share |
| `Sequences.dfy` | first occurrences and gap-free sequences, shared by the messaging modules |
| `Outbox.dfy` | the in-memory outbox and one relay pass, as imperative code (`messaging.py`) |
| `RelayProtocol.dfy` | any number of interleaved, crashing relays over one outbox and a broker that may be late or repeat itself |
| `Consumer.dfy` | the idempotent consumer with its dead-letter queue: one call, and any number of overlapping calls |
| `EndToEnd.dfy` | outbox, relays, broker and consumer together |
| `Breaker.dfy` | the circuit breaker under any interleaving of calls (`resilience.py`) |
| `Retry.dfy` | the retry loop with breaker and backoff |
| `TenantCache.dfy` | the cached tenant set under interleaved refreshes (`db.py`) |
| `Tenants.dfy` | the tenant validator and the resolver (`tenant.py`, `db.py`) |
| `QueryProtocol.dfy` | a pooled query: acquire, bind, ping, USE, run, release, under retry (`db.py`) |
| `PoolSharing.dfy` | any number of interleaved queries sharing the connections of one pool |
| `TenantIsolation.dfy` | resolver, query protocol and shared pool together |
| `ServiceClient.dfy` | the HTTP client over retry loop and breaker (`clients.py`) |
| `Masking.dfy` | recursive masking and event scrubbing (`logging.py`, `observability.py`) |
| `Preauth.dfy` | the pre-authorisation key and its positional store (`preauth.py`) |

Conventions. Code that changes fields in place is a class whose methods are proved equal to a pure function of the old
field values; theorems are lemmas about those functions. Code between two awaits is one atomic step; where awaits
matter, a component is also a step system, a run is a sequence of states and actions, and the theorems hold in every
state of every run. Exceptions are result values, and an exception carries the names of all types it is an instance of.
Clock readings, random draws, generated ids, the network, the broker and the database driver are parameters. Time and
delays are reals.

Where the code and its documentation differ, the model follows the code:

- The breaker documents "a limited number of trial calls" while half-open; the code admits all of them
  (`Breaker.TrialsUnlimited`). The number is limited by the calls outstanding at a time
  (`Breaker.OutstandingLimitsTrials`, `Breaker.TrialsLimited`).
- The resolver documents that a schema comes from the discovered set; that needs a condition on the discovered names
  (`Tenants.SoundIffHarmless`).
- `_scrub_event` documents masking across the whole event; `mask_mapping` recurses into mappings only, so what a list
  exposes stays exposed, and nothing else does (`Masking.MaskExposesIff`). A scrubbed event may besides expose what
  scrubbing itself adds under a key listed as sensitive (`Masking.ScrubExposesIff`).
- `_scrub_event` adds the correlation ids after masking, so they stay readable even under a key that is listed as
  sensitive (`Masking.ScrubIdempotentIff`).
- The consumer documents idempotence. An event with an id takes effect twice exactly when a call on it begins while the
  handler of another one is running and none has succeeded yet; events without an id are not remembered, so they take
  effect each time, overlapping or not (`Consumer.RunsTwiceIff`).
- The outbox accepts a record whose flag is already set. Such a record is never relayed, and order and no loss hold on
  exactly the runs that add none (`RelayProtocol.OrderAndNoLossIff`).
- The time of the last load can move backwards; exactly when is `TenantCache.LoadTimeDecreasesIff`.
- The pre-authorisation key is documented to name one tenant, charger and connector; that needs parts without a colon
  (`Preauth.KeyIsUniqueIff`).
- Thresholds below one act like one; the breaker theorems need no assumption on them.

## Model

| member | source | states |
|---|---|---|
| Outbox.PendingMeans | plugshub_common/messaging.py:100-101 | the pending list holds every unflagged record, each once, oldest first |
| Outbox.InMemoryOutbox.ListUnpublished | plugshub_common/messaging.py:100-101 | returns the first `limit` pending records, with Python's slice for a negative limit |
| Outbox.InMemoryOutbox.MarkPublished | plugshub_common/messaging.py:103-107 | flags the first record with the id, and nothing if there is none |
| Outbox.MarkFirstHitsItsRecord | plugshub_common/messaging.py:103-107 | marking by id flags the very record meant iff no earlier record has its id; otherwise that record stays pending |
| Outbox.RelayOnce | plugshub_common/messaging.py:126-133 | a pass whose publish raises after j successes flags exactly those j records, leaves exactly the others pending, returns the count only if none raised, and hands the broker each record once in insertion order |
| Outbox.DrainTakesCeiling | plugshub_common/messaging.py:126-133 | without failures pass number k returns min(limit, remaining), and the outbox is drained after ceil(n/limit) passes and not before |
| Outbox.RelayLoop | plugshub_common/messaging.py:110-133 | `relay_once` called on a loop, without failures: pass number k returns min(limit, remaining), the broker gets each pending record once in insertion order, and the outbox is drained iff there were ceil(n/limit) passes |
| RelayProtocol.StepKeepsInv | plugshub_common/messaging.py:97-107 | every add, snapshot, publish, arrival, late arrival, acknowledgement, failure or crash of any relay keeps the protocol invariant |
| RelayProtocol.OrderAndNoLoss | plugshub_common/messaging.py:110-133 | in every state of every run to which records are added unflagged, the flagged records are a prefix of the outbox, each is in the broker log, and the first occurrences in the log are the first m records in insertion order |
| RelayProtocol.OrderAndNoLossIff | plugshub_common/messaging.py:97-107 | that holds in all states of a run iff no record was added with its flag already set |
| RelayProtocol.FlagsNeverRevert | plugshub_common/messaging.py:97-107 | along every run flags never revert, records keep id and envelope, and nothing received is forgotten |
| RelayProtocol.OnlyAckFlags | plugshub_common/messaging.py:126-133 | a record becomes flagged only when the publish of that very record returned, its message being in the log |
| RelayProtocol.SingleRelayStutters | plugshub_common/messaging.py:126-133 | with one relay and no late message the log repeats the last record or moves to the next: a stuttering copy of an outbox prefix |
| RelayProtocol.PassIsPath | plugshub_common/messaging.py:126-133 | a whole imperative pass, wherever it stops and whether or not the failing publish arrived, is a path of the interleaved protocol from idle to idle with the same flags and the same log |
| Consumer.IdempotentConsumer.Handle | plugshub_common/messaging.py:197-209 | one call skips a processed id, parks a failing envelope, or takes effect and marks a non-empty id; it reports whether the handler ran to its end |
| Consumer.SequentialLedger | plugshub_common/messaging.py:179-209 | without overlap the processed ids are the non-empty ids that succeeded, each succeeds at most once, and every delivery took effect, is parked, or carries a processed id |
| Consumer.EffectsAreFirstDeliveries | plugshub_common/messaging.py:179-209 | with a handler that never raises the effects are the first deliveries of each event, in order |
| Consumer.LedgerIsHistory | plugshub_common/messaging.py:197-209 | in every interleaving the dead-letter queue is exactly the envelopes whose handlers raised, in order, whatever else happened to their events, and the effects are those whose handlers returned |
| Consumer.SkippedIffReturned | plugshub_common/messaging.py:199-201 | in every interleaving a call is skipped iff its event has an id and a handler run on it has returned before; any other call runs the handler, also on a parked or running event |
| Consumer.Conservation | plugshub_common/messaging.py:148-209 | over every interleaving of calls: calls = running + succeeded + skipped + dead-lettered, and the processed set is exactly the non-empty ids that succeeded |
| Consumer.TwiceOnlyIfOverlapping | plugshub_common/messaging.py:197-209 | over every interleaving two calls on one id both succeed only if the later began while the earlier was running |
| Consumer.AtMostOnceWithoutOverlap | plugshub_common/messaging.py:197-209 | the handler succeeds at most once on an id whose calls do not overlap |
| Consumer.BothSucceed | plugshub_common/messaging.py:197-209 | in every state, two calls running on one event both take effect if both handlers return |
| Consumer.RunsTwiceIff | plugshub_common/messaging.py:197-209 | in every reachable state a call beginning now on the event of another call can succeed besides it iff: with an event id, the handler of that one is running and no call on the event has succeeded yet; without one, that one is running or has succeeded |
| Consumer.NeverRunsAgain | plugshub_common/messaging.py:199-201 | in every interleaving, once an event has succeeded every call on it that begins later is skipped; its handler never runs again |
| Consumer.SequentialIsRun | plugshub_common/messaging.py:197-209 | calls of `Handle` one after the other are a run of the interleaved system in which no call has a rival |
| EndToEnd.ExactlyOnceInOrder | plugshub_common/messaging.py:91-133 | for any relays, crashes and republishing, once drained and delivered in log order, the handler effects are the outbox in insertion order, each event exactly once |
| EndToEnd.NothingDropped | plugshub_common/messaging.py:179-209 | whatever the handler does, every event then took effect exactly once or is in the dead-letter queue, and none took effect twice |
| Breaker.CircuitBreaker.CurrentState | plugshub_common/resilience.py:83-89 | reading the state turns an open breaker half-open once its window has elapsed |
| Breaker.CircuitBreaker.Allow | plugshub_common/resilience.py:91-93 | admits unless the observed state is open |
| Breaker.CircuitBreaker.RecordSuccess | plugshub_common/resilience.py:95-102 | counts trial successes and closes at the threshold, else clears the failure count |
| Breaker.CircuitBreaker.RecordFailure | plugshub_common/resilience.py:104-121 | re-opens from half-open, else counts and trips at the threshold, also while open |
| Breaker.FieldsMeanHistory | plugshub_common/resilience.py:83-121 | in every interleaving: closed means `failures` is the number of trailing failures of the whole history, below the threshold; half-open means `successes` counts the successes since it became half-open, no failure among them; else it is zero |
| Breaker.NextState | plugshub_common/resilience.py:83-121 | the state after every event, from the history alone: asking makes an open breaker half-open iff the window of every earlier trip is over; a failure opens it iff it trips; a success closes it iff it is the last of the required trial successes; nothing else changes it |
| Breaker.AdmittedIffWindowsElapsed | plugshub_common/resilience.py:83-93 | on every run with a monotone clock a call is admitted iff the recovery timeout has passed since every earlier trip |
| Breaker.TripsIff | plugshub_common/resilience.py:104-116 | a failure trips the breaker, from that time on, iff it is that of a trial call or the failures that count reach the threshold |
| Breaker.FailuresAreCounted | plugshub_common/resilience.py:95-121 | the failure count is that of the history in every state: late results while open count and clear too, failed trials do not count |
| Breaker.NoAdmissionInWindow | plugshub_common/resilience.py:83-93 | on every run with a monotone clock no call is admitted within the recovery timeout of any earlier trip |
| Breaker.ClosesOnlyAfterTrial | plugshub_common/resilience.py:95-121 | an open breaker is closed again only after becoming half-open and recording exactly the required successes with no failure in between |
| Breaker.TrialsUnlimited | plugshub_common/resilience.py:91-93 | from any half-open moment, any number of calls asked for in a row are all admitted, and the breaker stays as it is |
| Breaker.TrialsLimited | plugshub_common/resilience.py:91-111 | if every admitted call has its outcome recorded before the next is asked for, a half-open phase admits at most `success_threshold` calls |
| Breaker.TrialsAccounted | plugshub_common/resilience.py:91-111 | over any stretch of a half-open phase the admitted calls are exactly the recorded successes plus the growth of the calls outstanding |
| Breaker.OutstandingLimitsTrials | plugshub_common/resilience.py:91-111 | with at most L calls outstanding at a time, every outcome being that of an admitted call, a half-open phase admits at most `success_threshold` - 1 + L calls |
| Breaker.TrialsLimitReached | plugshub_common/resilience.py:91-111 | that limit is reached for every configuration and every L, and the one of `TrialsLimited` for L = 1 |
| Breaker.LoadBound | plugshub_common/resilience.py:83-121 | in every history of failing attempts, one after the other from t0 to t on a fresh breaker: at most threshold + floor((t - t0) / recovery timeout) are admitted |
| Breaker.LoadBoundReached | plugshub_common/resilience.py:83-121 | that bound is reached, for every t |
| Retry.RetryAsync | plugshub_common/resilience.py:133-168 | makes the attempts that `Describes` prescribes: all admitted, all but the last retryable, never more than `max_attempts`; the breaker ends as the fold of what it saw, other callers included; sleeps are the prescribed backoffs |
| Retry.DescribesOne | plugshub_common/resilience.py:147-168 | the prescription determines the result and the number of calls for every outcome script |
| Retry.RetriedIffListed | plugshub_common/resilience.py:150-168 | an attempt is followed by another `allow` iff it raised an instance of a listed type and attempts are left; the last attempt decides the result |
| Retry.AloneCallSeen | plugshub_common/resilience.py:150-165 | what a call that is alone shows to the breaker, event by event: asked and failed for each attempt but the last; then asked, and the success, the failure if its type is listed, or nothing |
| Retry.OthersAreSeen | plugshub_common/resilience.py:150-165 | whatever other callers do to the breaker before and during the attempts is part of what it sees |
| Retry.AloneOnClosedBreaker | plugshub_common/resilience.py:150-168 | alone, always failing, on a closed breaker with f failures: exactly min(max_attempts, threshold - f) calls, refused iff threshold - f < max_attempts |
| Retry.BreakerAfterCall | plugshub_common/resilience.py:147-168 | after what any number of attempts show to a breaker with any past, other callers included, the breaker's fields mean the whole history: trailing failures while closed, successes of the phase while half-open |
| Retry.SleepIs | plugshub_common/resilience.py:124-130 | each sleep is min(base_delay * multiplier^(k+1), max_delay), times the random number if there is jitter |
| Retry.OneSleepPerRetry | plugshub_common/resilience.py:154-161 | a call sleeps after an attempt iff that raised a listed error and attempts are left |
| Retry.SleepsOfOneCall | plugshub_common/resilience.py:150-161 | the sleeps of one call with n = `max_attempts`, whatever the jitter, sum to at most the n - 1 caps, to at most (n - 1) * max_delay, and for a multiplier m > 1 to at most base_delay * m * (m^(n-1) - 1) / (m - 1) |
| Retry.CapsAtMostLinear | plugshub_common/resilience.py:124-130 | the caps of n retries sum to at most n * max_delay |
| Retry.CapsAtMostGeometric | plugshub_common/resilience.py:124-130 | and to at most the geometric series of the raw delays |
| Retry.GeometricSeries | plugshub_common/resilience.py:126-127 | that series is base_delay * m * (m^n - 1) / (m - 1) |
| Retry.CapNeverDecreases | plugshub_common/resilience.py:124-130 | with base_delay >= 0 and multiplier >= 1 the cap never decreases with the attempt |
| TenantCache.TenantResolver.Begin | plugshub_common/db.py:387-391 | serves the cache at once iff not forced, loaded and younger than the interval |
| TenantCache.TenantResolver.Land | plugshub_common/db.py:392-395 | stores the discovered set with the time at which this call read the clock, and serves it |
| TenantCache.ServedIffRecent | plugshub_common/db.py:387-395 | on every run a call is served at once iff it is not forced and the discovery that landed last was begun later than now - interval, and then gets what that found; else it discovers |
| TenantCache.NeverServesExpired | plugshub_common/db.py:387-395 | under any interleaving a served set comes from a discovery begun later than now - interval, or from the call's own |
| TenantCache.FailureNeverRevives | plugshub_common/db.py:387-395 | failed discoveries leave cache, time and loaded flag as they were, so an expired set is not served however many calls follow |
| TenantCache.Replay | plugshub_common/db.py:387-395 | the resolver's methods, called in the order of any run, serve and cache what that run does |
| TenantCache.LoadTimeNeverDecreases | plugshub_common/db.py:387-395 | with a monotone clock, on every run in which no call starts a discovery while another is in flight, the load time never decreases |
| TenantCache.LoadTimeDecreasesIff | plugshub_common/db.py:392-395 | in every state, the discoveries in flight can land so that the load time moves backwards iff one of them has an older clock reading than another one or than the cache |
| Tenants.DiscoverDefault | plugshub_common/db.py:377-385 | the live ids are the rows without their prefix |
| Tenants.LayersExactly | plugshub_common/tenant.py:67-90 | beyond the whitelist, and but for one final newline, exactly two kinds of id are accepted: five dashed runs of hexadecimal digits, and prefixed names of legal length without double dash or keyword in any case; no other listed pattern ever decides |
| Tenants.ValidateExactly | plugshub_common/tenant.py:43-90 | an id is accepted iff it is not empty, known bare or prefixed (or nothing was discovered yet), and of those kinds; a rejection gives the first reason that applies |
| Tenants.UuidPassesEitherWay | plugshub_common/tenant.py:18-40 | a UUID passes every layer, bare and prefixed: prefixing creates no listed pattern and stays within the length |
| Tenants.ResolveClosed | plugshub_common/db.py:403-407 | what resolves is accepted again and resolves to itself |
| Tenants.SameSchemaSameBare | plugshub_common/db.py:403-407 | two accepted ids share a schema iff their bare forms are equal |
| Tenants.RowResolvesToItself | plugshub_common/db.py:397-407 | a discovered row that passes the other layers resolves to itself |
| Tenants.UuidResolvesToItsRow | plugshub_common/db.py:397-407 | the bare UUID of a live tenant resolves to its row |
| Tenants.SoundIffHarmless | plugshub_common/db.py:377-407 | everything that resolves is a discovered row iff every row is harmless: it carries the prefix exactly once, or what it would let through is refused by the other layers or live anyway |
| Tenants.SoundForSinglePrefix | plugshub_common/db.py:377-407 | in particular when every row carries the prefix exactly once |
| Tenants.DoublePrefixUnsound | plugshub_common/db.py:384-407 | a row with the prefix twice lets an id resolve to a schema that is not a row |
| Tenants.ResolvedCharacters | plugshub_common/tenant.py:67-90 | a resolved name has only letters, digits and dashes, but for one final newline, which Python's `$` lets through |
| QueryProtocol.UseSelectsExactly | plugshub_common/db.py:300-301 | the quoted USE statement selects exactly the schema it is built from iff that has no backtick |
| QueryProtocol.DBPool.constructor | plugshub_common/db.py:217-221 | the pool's transient errors replace whatever the caller's policy would retry; an empty tuple means the default |
| QueryProtocol.DBPool.CheckLiveness | plugshub_common/db.py:272-283 | pings, if configured, before any statement, possibly reconnecting |
| QueryProtocol.OutcomeIsFirstError | plugshub_common/db.py:295-303 | an attempt ends with the error of acquiring, else that of leaving, else the first among ping, cursor, USE, query and reading, else the rows |
| QueryProtocol.AttemptDoes | plugshub_common/db.py:295-303 | which events an attempt consists of: it binds and releases what it acquired, pings iff configured, sends USE iff there is a schema and nothing failed before, and runs the query iff nothing failed before |
| QueryProtocol.AttemptIsLegal | plugshub_common/db.py:295-303 | those events are in the legal order, ask for one connection and hold none at the end, however the attempt ends |
| QueryProtocol.DBPool.RunAttempt | plugshub_common/db.py:295-303 | one attempt performs exactly those events, the query running in the schema that its USE selected, and ends as stated |
| QueryProtocol.DBPool.RunQuery | plugshub_common/db.py:293-305 | a query performs the events of as many attempts as it makes calls, which are those of the retry loop with the pool's policy, in the legal order; on a non-empty schema each time it runs in the schema that USE selects for it, right after a successful USE on the same connection, whatever happens to the other sessions meanwhile |
| QueryProtocol.OnlyTransientRetried | plugshub_common/db.py:217-221 | between one and `max_attempts` attempts; all but the last raised an instance of a transient type; the last decides the result, and is transient only if no attempt was left |
| QueryProtocol.DefaultTransient | plugshub_common/db.py:217-221 | with the default types a rejected USE ends the query after one attempt, a lost connection does not |
| QueryProtocol.StatementsFollowBoundAndPing | plugshub_common/db.py:295-301 | in every legal run the first statement comes right after a successful ping, if the pool pings, that right after bounding the socket, that right after acquiring, all on one connection |
| QueryProtocol.AllOnTheSameConnection | plugshub_common/db.py:317-327 | in every legal run everything, the release included, is done on the connection acquired last |
| QueryProtocol.ReleasedExactlyOnce | plugshub_common/db.py:317-327 | in every legal run each connection obtained has been given back exactly once, but for the one still held |
| PoolSharing.EveryQueryIsIsolated | plugshub_common/db.py:295-305 | in every run of any number of queries over shared connections, each doing its own events in the legal order, each query only ever runs in its own schema |
| PoolSharing.SchemaIsolation | plugshub_common/db.py:295-305 | in every such run, whatever earlier and concurrent queries did to the sessions, a query on a non-empty schema runs in the schema which a USE for it selects |
| PoolSharing.RunQueryIsPath | plugshub_common/db.py:295-305 | every trace that a query can leave is a path of the shared pool, from any system, on connections nobody holds |
| TenantIsolation.ResolvedNameIsSelected | plugshub_common/db.py:397-407 | USE selects exactly the resolved name |
| TenantIsolation.ResolvedIsRecentRow | plugshub_common/db.py:387-407 | under any interleaving of calls on the cache, a resolved schema is a row of a discovery begun later than now - interval, or of the call's own, when that discovery's rows are harmless |
| TenantIsolation.QueryForTenant | plugshub_common/db.py:387-407 | get the tenants from the cache or a discovery, resolve, run: a failed discovery or an id that does not resolve raises, asking for no connection and, if the discovery failed, leaving the cache; else the query only ever runs in the resolved schema, a row of the discovery behind the served set if its rows are harmless |
| TenantIsolation.TenantsShareThePool | plugshub_common/db.py:397-407 | on a shared pool a query for a resolved tenant runs in the row of its own name, which is another tenant's schema iff the two ids have the same bare form |
| ServiceClient.BuildInternalHeaders | plugshub_common/clients.py:52-75 | caller's headers win; else the request id (given, else of the context, else generated) and the token are present, the tenant iff known, and nothing more |
| ServiceClient.Client.DoRequest | plugshub_common/clients.py:127-144 | without a session raises and sends nothing; else sends the request, and raises on a transport error or, with `trip_on_5xx`, on a status >= 500 |
| ServiceClient.Client.Request | plugshub_common/clients.py:146-166 | the wire sees, attempt by attempt, copies of one request: same method, address, body, parameters, headers and request id, those of the logging context at the time of the call, though that changes during every await; with `trip_on_5xx` no returned response has status >= 500; calls and breaker are those of the retry loop |
| ServiceClient.AnsweredRequest | plugshub_common/clients.py:127-166 | on a closed breaker a response (with `trip_on_5xx` one with status < 500, without it any) is returned after one attempt, and the breaker is closed with zero failures |
| ServiceClient.AnsweredClientNeverTrips | plugshub_common/clients.py:141-166 | and so over every sequence of such requests |
| ServiceClient.ServerErrorsTrip | plugshub_common/clients.py:141-166 | with `trip_on_5xx`, meeting only statuses >= 500 while alone on a closed breaker with f failures: exactly min(max_attempts, threshold - f) attempts, then refused or the transient error |
| ServiceClient.UrlIs | plugshub_common/clients.py:97-158 | base and path are joined by exactly one slash however many they had; a path that starts with "http" is the address |
| Masking.MaskMapping | plugshub_common/logging.py:113-130 | the loop masks exactly the values under keys that are sensitive in lower case, at every depth reached through mappings |
| Masking.MaskedIffListed | plugshub_common/logging.py:120-129 | a value is masked iff its key equals an extra key in any case, or its lowered key is one of the fixed ones; any other scalar or list stays |
| Masking.EqualMaskedIffSameButSecrets | plugshub_common/logging.py:113-130 | outputs are equal iff the inputs differ only in values under sensitive keys |
| Masking.MaskTwice | plugshub_common/logging.py:113-130 | masking with k1 then k2 is masking once with both; so it is idempotent |
| Masking.MaskedAt | plugshub_common/logging.py:113-130 | what stands at any path after masking |
| Masking.MaskExposesIff | plugshub_common/logging.py:113-130 | masking leaves something exposed under a sensitive key, at any depth, iff a list reached through other keys does |
| Masking.ListsAreNotReached | plugshub_common/logging.py:123-129 | a list of mappings under a harmless key is returned as it is, secrets included |
| Masking.ScrubExposesIff | plugshub_common/observability.py:62-85 | a scrubbed event exposes something iff a list in what is kept of it does, "tags" is listed as sensitive, or a correlation id is added under a key that is |
| Masking.ScrubEvent | plugshub_common/observability.py:62-85 | fields other than the tags are masked; the tags keep their masked entries and have besides exactly the known correlation ids that were not there, in clear |
| Masking.ScrubHidesSecrets | plugshub_common/observability.py:62-85 | events that differ only in sensitive values are reported equally |
| Masking.ScrubIdempotentIff | plugshub_common/observability.py:74-85 | scrubbing twice is scrubbing once iff no correlation id is added under a key that is itself sensitive |
| Preauth.KeyReads | plugshub_common/preauth.py:34-45 | how a key reads: after the marker the tenant up to the first colon, the connector after the last, the charger between |
| Preauth.DifferentPlacesDifferentKeys | plugshub_common/preauth.py:34-45 | for tenants and connectors without a colon, keys are equal iff the places are |
| Preauth.KeyIsUniqueIff | plugshub_common/preauth.py:34-45 | among all places a key belongs to one only iff none of its parts has a colon |
| Preauth.ReadsLatestParkOfThatPlace | plugshub_common/preauth.py:14-26 | the positional store returns the amount last parked for exactly that tenant, charger and connector, else nothing |
| Preauth.LatestMeans | plugshub_common/preauth.py:17-21 | the last one is the park for the place with no later one for it |

## Left out

- Outbox.InMemoryOutbox.MarkPublished: records are values in the list, so adding one record object twice, and a caller changing a record it has added, are not captured.
- RelayProtocol.OrderAndNoLoss: record ids are assumed unique, since marking goes by id; `Outbox.MarkFirstHitsItsRecord` says what happens otherwise.
- EndToEnd.ExactlyOnceInOrder: event ids are assumed present and distinct and `handle` calls not to overlap; `Consumer` covers overlap.
- QueryProtocol.DBPool.RunQuery: while it awaits, every session but its own may change arbitrarily; another session dropping the selected database is not modelled.
- PoolSharing.EveryQueryIsIsolated: the driver lending a connection to one query at a time is assumed (a guard on `Acquired`), and so is each query's own order of events, which `QueryProtocol.DBPool.RunQuery` proves; what is proved is that sessions cannot be confused.
- QueryProtocol.DBPool.CheckLiveness: whether a connection offers `ping` at all is folded into the pool's setting.
- Retry.RetryAsync: delays are exact reals, so float rounding and overflow are not modelled.
- Masking.MaskMapping: keys are texts; a key of another type, on which the code raises, is not modelled, nor is a one-shot iterator of extra keys.
- Preauth.ReadsLatestParkOfThatPlace: connectors are taken as formatted text, so the formatting of numbers is not modelled.
- `execute`, `fetch_all` and `fetch_one` share one model, as they differ only in what they read from the cursor.
- Cancellation inside handlers and queries; sockets and `setsockopt`; the `BoundPool` wrapper; opening and closing pools and sessions.
- `event_envelope`, `canonical.py`, log formatting, context variables, `authz.py`, `audit.py`, `errors.py`, `health.py`, `service_auth.py`, `featureflags.py`, `config.py`, `validation.py`, `http_middleware.py`: lookups, wrappers and short branches that would add only easy members.
