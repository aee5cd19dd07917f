# Postbox delivery core: a Dafny model

Postbox is a mail server for people, agents and services. This project models the parts of it that decide
whether a message arrives, once, at the right place and on the right authority, and proves what those
parts promise over every input and every interleaving:

* **The outbound relay queue** (`Backoff`, `RelayQueueModel`, `RelayQueueSafety`, `RelayQueueTheorems`,
  `RelayQueueTermination`, `RelayQueue`): a bounded channel, N workers that put failed jobs back into the
  same channel, a stop signal with a drain, and a late cancel. An event is one atomic action of one
  goroutine, with the choice of a `select`, the backend's answer or the time passed as its argument; a
  sequence of events is an interleaving. Each job has a ghost history of the Sends made for it. The class
  `RelayQueue.Queue` performs the same actions on its own fields and is proved to make exactly those
  transitions.
* **Webhook delivery** (`MemStore`, `WebhookRetry`, `WebhookModel`, `WebhookSafety`, `WebhookTheorems`,
  `WebhookOutcomes`, `WebhookSingleCopy`, `WebhookSpacing`, `WebhookFinality`, `WebhookDuplicates`,
  `WebhookPostBound`, `WebhookStarvation`, `WebhookSteering`, `WebhookCrowd`, `WebhookExcess`,
  `WebhookUnbuildable`, `Dispatcher`): persisted delivery records, and by-value copies of them in event
  handlers, the channel, the sweeper's list and the workers. Copies may be stale or duplicated, events may
  repeat, and a crash wipes everything but the store. A ghost log holds the HTTP POSTs really made for
  each key.
* **Routing and forwarding** (`Registries`, `RegistryTheorems`, `PrivateStores`, `RacingClaims`,
  `RelayServer`, `Forwarder`, `RoutingTheorems`, `ClusterHops`): the local and the Redis registry, the
  RPCs that write them, the interceptor that splits a request's recipients by owner, the relay fallback
  and the relay node in front of its queue.
* **The AUTH lockout and the SMTP session** (`Lockout`, `LockoutTheorems`, `RedisLockout`, `RedisFaults`,
  `RedisRateLimit`, `SmtpSecurity`, `AuthTraffic`, `SmtpSession`): a timed failure counter with background
  eviction on whole seconds, its second implementation on expiring Redis keys, AUTH attempts of many
  connections that overlap, and the command-driven session of one connection.

Time is a monotone integer clock in nanoseconds. A select takes `default` only when no other case is ready
and any ready case otherwise. Backend results, HTTP results, lookups, jitter draws and map orders are
inputs that every statement quantifies over.

## Where the code does less than its documentation says

* `Enqueue` does not look at the stop signal, so a job accepted after all workers have returned is never
  sent (`LateEnqueueIsLost`); the shutdown promise holds exactly for the jobs accepted earlier
  (`DrainLeavesOnlyOrphans`).
* The relay's shift may wrap below the cap for unusual base delays (`WrappedDelayCanBeTiny`);
  `DelaySaturatesIff` says exactly when the intended delay comes out, `AlwaysSaturatesIff` that the first
  64 failures decide it, and with the defaults it always does.
* `UpdateDeliveryJob` overwrites, and the sweeper may list a job that is still queued: `delivered` is then
  not absorbing and MaxAttempts is no bound on the POSTs (`DuplicateOverwritesDelivered`). A terminal
  record is final exactly when no copy of it, or no worker, is left (`TerminalIsFinalIff`); every open job
  can be posted more often than MaxAttempts (`MorePostsThanAllowed`), and the POSTs are bounded by the
  copies made (`PostsAtMostCopies`). With one live copy per key MaxAttempts bounds them too.
* An attempt whose message cannot be fetched writes nothing, so workers * 10 such jobs keep every later
  one from being swept (`StarvesIff`, reached in `StarvationIsReached`); an attempt whose request cannot
  be built is not counted, so such a job never dies (`UnpostedNeverDies`, `RetriedForEver`).
* `RegisterDomain` is documented to refuse a domain that another node owns, but it asks only the node's
  own store. Where every node has a store of its own, no claim is ever refused and the last newcomer gets
  the route (`ClaimsAreNeverRefused`, `FirstClaimantKeepsRouteIff`). On a shared store two overlapping
  claims both win (`BothClaimantsWin`, `RaceAgreesIff`).
* A `RegisterDomain` whose default-domain write fails leaves a Redis route the store does not know
  (`FaultyRunAgreesIff`, `RetryRepairs`); `RemapDomain` writes the store alone (`RemapAgreesIff`).
* `deliver_to` is documented to keep a receiver from delivering to the other recipients, but the
  interceptor splits `RecipientIds` again and does not read it: a request whose recipients have their
  homes at two nodes is passed on without end (`SettlesIffOneOwner`), and an external recipient is mailed
  by every node that handles the request, so exactly once only if no recipient lives at another node
  (`MailedOnceIff`).
* The background eviction looks like housekeeping, but it decides locks: the same failures lock an IP or
  not depending on whether the evictor ran in between (`EvictorDecides`, exactly when in
  `EvictionMattersIff`).
* The failure counter of the lockout is an int32 and wraps (`FailureLocksIff`, `EveryCountIsReached`); the
  in-memory window slides, the Redis window does not (`SlidingVersusFixedWindow`).
* The lock is asked when AUTH starts and failures are recorded after the SASL exchange, so n connections
  that ask first get n guesses, whatever the maximum is (`OverlappingGuesses`); `BurstIsBounded` is the
  limit that holds.
* The Redis counter gets its expiry from the first increment only: it is forgotten after its window if and
  only if that one EXPIRE did not fail (`ForgottenIff`, `LostExpiryNeverForgets`). Even without faults two
  windows may meet, so it takes 2 * max - 1 failures to span the lockout or window time
  (`RedisGuessingIsRateLimited`, attained in `TwoWindowsMeet`).
* The session handlers rely on the protocol layer for the order of commands: on their own they would
  accept a second AUTH inside a transaction (`ReauthenticationWouldSpoof`).

## Model

| member | source | states |
|---|---|---|
| `Backoff.Delay` | internal/relay/queue.go:175-179 | For positive settings every retry delay is positive and at most MaxDelay, wrap-around included |
| `Backoff.DelayFits` | internal/relay/queue.go:175-179 | While BaseDelay * 2^(attempts-1) fits in an int64, the delay is min(that product, MaxDelay) |
| `Backoff.DelayMonotone` | internal/relay/queue.go:175-179 | In that range the delay never shrinks from one failure to a later one |
| `Backoff.WrapSkipsLowRange` | internal/relay/queue.go:175-179 | A multiple of a power of two above the cap never wraps into 1..cap |
| `Backoff.DelaySaturatesForSmallOddPart` | internal/relay/queue.go:175-179 | For every base odd * 2^t with odd * cap < 2^63 the delay is the saturated one for every number of failures, past overflow too |
| `Backoff.DefaultDelaySaturates` | internal/relay/queue.go:56-61 | With the default 5 s and 4 h the delay is min(5 s * 2^(attempts-1), 4 h) for every attempts >= 1 |
| `Backoff.WrappedDelayCanBeTiny` | internal/relay/queue.go:175-179 | A base for which the wrapped shift yields 4 ns instead of the 4 h cap |
| `Backoff.DelaySaturatesIff` | internal/relay/queue.go:175-179 | The delay is the saturated one if and only if the product fits or its wrapped value meets the code's own guard |
| `Backoff.AlwaysSaturatesIff` | internal/relay/queue.go:175-179 | The delay is the saturated one for every number of failures if and only if it is for the first 64 |
| `RelayQueueModel.Normalize` | internal/relay/queue.go:49-83 | Every setting that is not positive becomes its default (4 workers, 7 tries, 5 s, 4 h), every other one is kept |
| `RelayQueueSafety.StepKeepsInv` | internal/relay/queue.go:88-195 | Every atomic action of Enqueue, Stop, worker and process keeps the accounting of jobs, attempts, Sends and fates |
| `RelayQueueSafety.RunKeepsInv` | internal/relay/queue.go:88-195 | ... and so does every interleaving of them |
| `RelayQueueTheorems.EveryJobInOnePlace` | internal/relay/queue.go:88-195 | In every reachable state each accepted job is in exactly one buffer slot, worker or final fate |
| `RelayQueueTheorems.LiveCopiesAreFaithful` | internal/relay/queue.go:128-195 | A live job carries the accepted message, and its attempts are its failed Sends, below MaxRetries |
| `RelayQueueTheorems.RetryTimesAreExact` | internal/relay/queue.go:167-187 | In every reachable state a live job may be sent at once if it never was, and otherwise exactly the wrapped and capped backoff after the end of its last Send |
| `RelayQueueTheorems.DefaultRetryTimesAreExact` | internal/relay/queue.go:56-61 | With the delays left to NewRelayQueue that is exactly min(5 s * 2^(n-1), 4 h) after the n-th Send |
| `RelayQueueTheorems.TimerIsExact` | internal/relay/queue.go:148-158 | A waiting worker can send from exactly that instant on |
| `RelayQueueTheorems.SelectChoices` | internal/relay/queue.go:128-194 | Each select takes any ready case, and its default only when none is ready; the channel has max(8 * workers, 64) slots |
| `RelayQueueTheorems.FatesAreEarned` | internal/relay/queue.go:148-195 | Delivered iff a Send succeeded; exhausted iff exactly MaxRetries Sends failed; dropped-full only from a buffer at capacity with stop not signalled; dropped-on-stop only after stop; abandoned only after Stop's deadline; every ended job had a Send |
| `RelayQueueTheorems.SendsAreSpaced` | internal/relay/queue.go:148-195 | Any two Sends of one job are at least the earlier one's backoff apart |
| `RelayQueueTheorems.DefaultSendsAreSpaced` | internal/relay/queue.go:49-61 | A queue whose delays were left to NewRelayQueue spaces its Sends by min(5 s * 2^i, 4 h), past overflow too |
| `RelayQueueTheorems.RunExtends` | internal/relay/queue.go:128-195 | Nothing recorded of a job is taken back in any later state, and a final fate stays |
| `RelayQueueTheorems.DrainLeavesOnlyOrphans` | internal/relay/queue.go:109-146 | When all workers have returned, what is left in the buffer is exactly what was accepted after they had, none of it ever sent; every other job ended and was sent |
| `RelayQueueTheorems.DrainIsComplete` | internal/relay/queue.go:109-146 | With no Enqueue after Stop the buffer is empty once all workers have returned, and every accepted job had a Send |
| `RelayQueueTheorems.LateEnqueueIsLost` | internal/relay/queue.go:88-104 | A run in which a job accepted after Stop is never sent |
| `RelayQueueTermination.StepDecreases` | internal/relay/queue.go:128-195 | Every action but a clock tick and an Enqueue decreases a measure built on MaxRetries - attempts of the live jobs |
| `RelayQueueTermination.SchedulesAreFinite` | internal/relay/queue.go:128-195 | From every reachable state the number of actions is bounded by that measure plus a constant per newly accepted job |
| `RelayQueueTermination.DrainIsFinite` | internal/relay/queue.go:109-195 | Without Enqueues a schedule has at most as many actions as the measure says, despite workers re-enqueueing |
| `RelayQueueTermination.NeverStuck` | internal/relay/queue.go:128-195 | After Stop every worker that has not returned has an enabled action, at the latest when its timer is due |
| `RelayQueueTermination.DrainCompletes` | internal/relay/queue.go:109-146 | From every stopped state some schedule without Enqueues lets all workers return |
| `RelayQueue.Queue.constructor` | internal/relay/queue.go:49-83 | A new queue is the initial state under the normalized configuration |
| `RelayQueue.Queue.Enqueue` | internal/relay/queue.go:88-104 | Accepted, context error or queue-full, each under its exact condition on slots and context; only acceptance changes the queue, by one fresh job at its end |
| `RelayQueue.Queue.CloseStop` | internal/relay/queue.go:109-114 | The stop signal is raised and nothing else changes |
| `RelayQueue.Queue.CancelContext` | internal/relay/queue.go:116-124 | After Stop's deadline the workers' context is cancelled |
| `RelayQueue.Queue.ReceiveJob` | internal/relay/queue.go:128-158 | Either worker loop takes the oldest job, and waits if its time has not come, or sends at once |
| `RelayQueue.Queue.ObserveStop` | internal/relay/queue.go:130-134 | The main select takes the stop case |
| `RelayQueue.Queue.ReturnFromDrain` | internal/relay/queue.go:136-143 | The drain returns only when nothing is buffered |
| `RelayQueue.Queue.EndWait` | internal/relay/queue.go:148-158 | The wait ends with the timer at the retry time, or with cancellation, which abandons the job |
| `RelayQueue.Queue.FinishSend` | internal/relay/queue.go:160-179 | Success ends the job; a failure is counted and, below MaxRetries, scheduled for now plus the backoff of that count, otherwise the job is exhausted; the Send is logged |
| `RelayQueue.Queue.PutBack` | internal/relay/queue.go:186-194 | The re-enqueue select: dropped on stop, at the end of the buffer if there is a slot, or dropped because it is full |
| `RelayQueue.Queue.Shutdown` | internal/relay/queue.go:109-124 | Stop under any scheduler ends, with an empty buffer, every accepted job ended and sent at least once, and no history lost |
| `MemStore.Store.SaveDomain` | internal/store/memstore/memstore.go:71-87 | A nameless domain is refused; saving a default takes the flag from all others |
| `MemStore.WithDomainKeepsOneDefault` | internal/store/store.go:23-29 | At most one domain is ever the default |
| `MemStore.ClearDefaults` | internal/store/memstore/memstore.go:77-84 | The clearing loop takes the flag from every domain but the named one, for any map order |
| `MemStore.Store.GetDomain` | internal/store/memstore/memstore.go:89-97 | The stored domain, or not found |
| `MemStore.Store.GetDefaultDomain` | internal/store/memstore/memstore.go:99-108 | The one default domain if there is one, for any map order |
| `MemStore.Store.SaveUser` | internal/store/memstore/memstore.go:129-140 | The user is stored, the first creation time survives later saves, other users are untouched |
| `MemStore.Store.SaveDeliveryJob` | internal/store/memstore/memstore.go:184-202 | The first save of a message and recipient wins, field by field, with zero times and limit filled in; a later one changes nothing |
| `MemStore.Store.UpdateDeliveryJob` | internal/store/memstore/memstore.go:204-221 | Field by field: progress is overwritten, the update time is now, identity, endpoint, limit and creation time are kept; a missing key is reported |
| `MemStore.FirstSaveWins` | internal/store/memstore/memstore.go:184-202 | A second save of a key does nothing, whatever it carries, and a complete job is stored as it is |
| `MemStore.LastUpdateWins` | internal/store/memstore/memstore.go:204-221 | Of two updates of a key only the last leaves a trace, however stale its copy |
| `MemStore.Store.ListPendingDeliveryJobs` | internal/store/memstore/memstore.go:233-248 | A correct top-k: sorted by retry time, only due open jobs, each once, min(limit, due) of them (all for limit 0), none omitted that is earlier than a returned one, for any map order |
| `MemStore.DueIsListed` | internal/store/store.go:114-117 | A due job is listed, or the listing is full of jobs due no later |
| `MemStore.ListingIsComplete` | internal/store/memstore/memstore.go:233-248 | The same field by field: status pending or failed, time come, no two of one message and recipient, sorted, at most limit, none omitted that is earlier than a listed one |
| `MemStore.CollectDue` | internal/store/memstore/memstore.go:236-242 | The collecting loop yields every due open job once, for any map order |
| `MemStore.SortByRetry` | internal/store/memstore/memstore.go:243-243 | Sorted by retry time, and a permutation |
| `WebhookRetry.JitterStaysWithinBand` | internal/webhook/retry.go:19-26 | For every n and draw the delay lies within 20 % of min(10 s * 2^n, 1 h) |
| `WebhookRetry.RetryIsLater` | internal/webhook/retry.go:9-26 | A retry is at least 8 s and at most 72 minutes away |
| `WebhookRetry.BandsSeparateIff` | internal/webhook/retry.go:9-26 | Every delay at n is below every delay at n + 1 if and only if n <= 7 |
| `WebhookSafety.AfterPostIsHonest` | internal/webhook/dispatcher.go:202-244 | What a worker holds after a POST is borne out by the POSTs made: count, delivered, dead |
| `WebhookSafety.StepKeepsInv` | internal/webhook/dispatcher.go:97-244 | Every action of handlers, sweeper and workers, and every crash, keeps all records and copies honest and all copies' keys stored |
| `WebhookSafety.RunKeepsInv` | internal/webhook/dispatcher.go:97-244 | ... and so does every run |
| `WebhookTheorems.NeverGivesUpEarly` | internal/webhook/dispatcher.go:97-244 | In every run a record's attempts are at most MaxAttempts and at most its POSTs; dead without a permanent response means at least MaxAttempts POSTs; delivered means a 2xx was seen, iff DeliveredAt is set, and an empty LastError |
| `WebhookOutcomes.ClosedForAReason` | internal/webhook/dispatcher.go:97-244 | In every run a dead record with fewer than MaxAttempts POSTs had one answered with a status in 400..499 other than 429, and a delivered one had one answered with 200..299 |
| `WebhookOutcomes.AttemptConcludes` | internal/webhook/dispatcher.go:190-244 | What every attempt leaves in the store, in numbers: count, status, error, delivery time, update time and a retry 80 to 120 % of min(10 s * 2^n, 1 h) later; everything else is untouched |
| `WebhookOutcomes.OneAttemptDecides` | internal/webhook/retry.go:28-32 | Below the limit one attempt ends dead if and only if the status is in 400..499 and not 429, delivered if and only if it is in 200..299, failed otherwise |
| `WebhookOutcomes.UnbuiltConcludes` | internal/webhook/dispatcher.go:193-197 | A request that cannot be built leaves a failed record with the count as it was and a retry at least 8 s later |
| `WebhookOutcomes.ArrivalIsStored` | internal/webhook/dispatcher.go:105-123 | An event stores a pending record of its key with endpoint, limit and times, or leaves a known one, and hands a copy on |
| `WebhookTheorems.CopiesNeverOverclaim` | internal/webhook/dispatcher.go:110-244 | The same of every live copy wherever it waits, and its key is in the store |
| `WebhookTheorems.PostsAreOnSchedule` | internal/webhook/dispatcher.go:136-190 | No copy is posted before its own retry time or in a terminal state |
| `WebhookTheorems.RecordsPersist` | internal/store/memstore/memstore.go:204-221 | An accepted key's record outlives crashes and never changes endpoint, limit or creation time |
| `WebhookTheorems.OpenEndsWithEvidence` | internal/webhook/dispatcher.go:175-244 | A record leaves pending/failed only by the write of an attempt after a 2xx, a permanent status or MaxAttempts POSTs |
| `WebhookTheorems.SweeperRecoversAfterCrash` | internal/webhook/dispatcher.go:150-172 | After a crash every open record is in the first sweep once due, unless that sweep is full of jobs due no later |
| `WebhookTheorems.QuietTerminalIsFinal` | internal/webhook/dispatcher.go:150-244 | A terminal record without live copies and repeat events never changes and is never posted again, crashes included |
| `WebhookFinality.TerminalIsFinalIff` | internal/webhook/dispatcher.go:136-244 | In every reachable state a terminal record is never changed or posted again, by any crash-free run without a repeat event, if and only if no live copy of it or no worker is left |
| `WebhookSingleCopy.StepExact` | internal/webhook/dispatcher.go:136-244 | With one event per key, no crash and never two copies of a key, every step keeps each copy up to date and the POST count exact |
| `WebhookSingleCopy.StepProgresses` | internal/webhook/dispatcher.go:136-244 | A step from such a state never lowers Attempts and never changes a terminal record |
| `WebhookSingleCopy.DisciplinedRunIsExact` | internal/webhook/dispatcher.go:136-244 | Over whole such runs: copies up to date, Attempts nondecreasing, delivered and dead absorbing |
| `WebhookSingleCopy.PostsMatchAttempts` | internal/webhook/dispatcher.go:136-244 | There the POSTs are the stored Attempts, plus one between call and write, and never exceed MaxAttempts |
| `WebhookSpacing.DisciplinedRunIsSpaced` | internal/webhook/dispatcher.go:228-244 | Over such runs every failed record and copy is scheduled at least the shortest jittered delay after the key's last POST |
| `WebhookSpacing.PostsAreSpaced` | internal/webhook/dispatcher.go:228-244 | The POST that follows n earlier ones comes at least 80 % of min(10 s * 2^n, 1 h) after the last |
| `WebhookDuplicates.QueueTwo` | internal/webhook/dispatcher.go:150-172 | One event and one sweep put two copies of a record into the channel |
| `WebhookDuplicates.FirstWorkerDelivers` | internal/webhook/dispatcher.go:175-225 | From there one worker delivers, without crash or further event |
| `WebhookDuplicates.DuplicateOverwritesDelivered` | internal/store/memstore/memstore.go:213-219 | One run from start-up, with one event and no crash, in which a delivered record is overwritten as dead, after two POSTs with MaxAttempts 1 |
| `WebhookPostBound.PostsAtMostCopies` | internal/webhook/dispatcher.go:97-225 | In every run, crashes and duplicates included, a job is posted at most once per arrival of its event and per sweep that listed it |
| `WebhookExcess.MorePostsThanAllowed` | internal/webhook/dispatcher.go:136-244 | From every reachable state with an open record and a worker that is neither gone nor about to close it, some crash-free run without any event posts it more than MaxAttempts times |
| `WebhookStarvation.CanBeListedIff` | internal/store/memstore/memstore.go:233-248 | A due job can be in a listing if and only if fewer than limit due jobs come strictly before it |
| `WebhookStarvation.LaterJobStarves` | internal/webhook/dispatcher.go:150-188 | While the messages of workers * 10 earlier jobs cannot be fetched, a later job without a live copy is never posted, in runs of any length |
| `WebhookSteering.StarvesIff` | internal/webhook/dispatcher.go:150-225 | Some run in which the messages of a set of jobs cannot be fetched posts a job without a live copy if and only if fewer than workers * 10 open ones of the set come strictly before it |
| `WebhookCrowd.StarvationIsReached` | internal/webhook/dispatcher.go:97-172 | For every configuration with workers a run from start-up leads to such a state, with the starving job due |
| `WebhookUnbuildable.UnpostedNeverDies` | internal/webhook/dispatcher.go:193-197 | A job that is never posted stays pending or failed, in runs of any length, with copies and crashes as they may be |
| `WebhookUnbuildable.RestingIsReached` | internal/webhook/dispatcher.go:97-188 | From start-up one event leads to a state with one open job and nothing under way |
| `WebhookUnbuildable.RetriedForEver` | internal/webhook/dispatcher.go:150-244 | From there a job whose request cannot be built is tried n times, for every n, with no attempt counted |
| `Dispatcher.OfferAllFills` | internal/webhook/dispatcher.go:164-169 | Offering a list one by one to the channel fills it in order up to its capacity and drops the rest |
| `Dispatcher.Dispatcher.constructor` | internal/webhook/dispatcher.go:50-74 | A dispatcher starts with idle workers and an empty channel over whatever store earlier processes left |
| `Dispatcher.Dispatcher.OnMessageReceived` | internal/webhook/dispatcher.go:97-123 | A job is saved for a user with an endpoint; only a failed lookup is an error |
| `Dispatcher.Dispatcher.HandlerOffer` | internal/webhook/dispatcher.go:125-131 | The handler's non-blocking send |
| `Dispatcher.Dispatcher.SweepTick` | internal/webhook/dispatcher.go:150-163 | The sweeper holds the earliest workers * 10 due jobs, in order |
| `Dispatcher.Dispatcher.SweepOffer` | internal/webhook/dispatcher.go:164-169 | One non-blocking send of the sweeper |
| `Dispatcher.Dispatcher.SweepAll` | internal/webhook/dispatcher.go:150-172 | Undisturbed, the sweep fills the channel in due order up to its capacity |
| `Dispatcher.Dispatcher.TakeJob` | internal/webhook/dispatcher.go:136-146 | A worker takes the oldest copy |
| `Dispatcher.Dispatcher.DropAttempt` | internal/webhook/dispatcher.go:175-188 | An unfetchable message ends the attempt without a write |
| `Dispatcher.Dispatcher.FailToBuild` | internal/webhook/dispatcher.go:193-197 | A request that cannot be built is a failure that is not counted as an attempt |
| `Dispatcher.Dispatcher.RecordFailure` | internal/webhook/dispatcher.go:228-240 | Dead when permanent or out of attempts, else failed with a jittered retry time |
| `Dispatcher.Dispatcher.ApplyOutcome` | internal/webhook/dispatcher.go:202-224 | The attempt counts whatever came back; 200..299 delivers, 400..499 other than 429 is final, everything else is retried below the limit |
| `Dispatcher.Dispatcher.FinishPost` | internal/webhook/dispatcher.go:202-225 | The POST is made and its outcome waits with the worker |
| `Dispatcher.Dispatcher.WriteBack` | internal/webhook/dispatcher.go:211-244 | The outcome is written, and the update always finds its record |
| `SmtpSecurity.Plugin.constructor` | internal/plugin/smtp_security.go:125-149 | Defaults of 15 minutes and 1 hour, an empty map, and the lockout store if one is configured |
| `SmtpSecurity.Plugin.RecordAuthFailure` | internal/plugin/smtp_security.go:172-215 | Over the plugin's own history: on the map the failure locks exactly when the host's failures since its last eviction, as an int32, reach the maximum; on a store exactly when no command it needs fails and its counter does |
| `SmtpSecurity.Plugin.IsLockedOut` | internal/plugin/smtp_security.go:218-246 | Over the plugin's own history: on the map locked if and only if some failure since the host's last eviction locked it less than LockoutDuration ago; on a store if and only if it can be read and the end of the last lock is still to come |
| `SmtpSecurity.Plugin.Evict` | internal/plugin/smtp_security.go:320-329 | Exactly the stale entries go, for any map order |
| `Lockout.MapMatchesEpochs` | internal/plugin/smtp_security.go:172-215 | For every history of any length an entry is the failures since its last eviction, counted as an int32, and the next failure is answered with a lock exactly when that count, one higher, reaches the maximum |
| `Lockout.LockoutMeansHistory` | internal/plugin/smtp_security.go:172-246 | For every history, locked at t if and only if a failure since the last eviction locked less than LockoutDuration before t; while fewer than 2^31 were counted, if and only if they reach the maximum and t is before the last one plus LockoutDuration |
| `Lockout.EvictionIsInvisible` | internal/plugin/smtp_security.go:320-329 | An eviction changes no answer while the IP does not fail again |
| `Lockout.EpochsAreTails` | internal/plugin/smtp_security.go:320-329 | What evictions leave is a tail of all failures; what they cut was idle longer than the TTL, and any lock it earned is over |
| `LockoutTheorems.OnlyOwnFailuresMatter` | internal/plugin/smtp_security.go:172-246 | While the IP itself does not fail again, evictions and other IPs' failures change no answer about it, in runs of any length |
| `LockoutTheorems.EvictionMattersIff` | internal/plugin/smtp_security.go:172-246 | After an eviction and further failures g of the IP, its lock differs from the one without the eviction if and only if the entry p was dropped, 1 <= g < max <= p + g, and the lockout time since the last failure has not passed |
| `LockoutTheorems.EvictionChangesAnswerIff` | internal/plugin/smtp_security.go:172-215 | The answer to the next failure differs if and only if the entry was dropped and that failure needs it to reach the maximum |
| `LockoutTheorems.EvictorDecides` | internal/plugin/smtp_security.go:320-329 | Two failures that lock an IP, and do not when the evictor runs in between |
| `LockoutTheorems.EvictionOnlyUnlocks` | internal/plugin/smtp_security.go:172-246 | Whatever follows, further evictions included, an IP locked with an eviction is locked without it |
| `LockoutTheorems.LockHoldsInFull` | internal/plugin/smtp_security.go:172-246 | If each of the last max failures came within IPLookupTTL of the one before, the lock holds for the full duration despite second-truncated evictions |
| `AuthTraffic.GuessingIsRateLimited` | internal/smtp/server.go:399-449 | Attempts of an IP that do not overlap: max + 1 failures span at least the shorter of lockout time and idle time |
| `AuthTraffic.TrafficIsRateLimited` | internal/smtp/server.go:399-449 | In all AUTH traffic, overlapping or not, a failure lies at least that long after an earlier one if max failures from the earlier one on had been recorded when its lock was asked for |
| `AuthTraffic.BurstIsBounded` | internal/smtp/server.go:399-449 | A shorter span holds at most max failures of an IP plus the attempts that were pending, with an older lock check, when the max-th was recorded |
| `AuthTraffic.OverlappingGuesses` | internal/smtp/server.go:406-431 | n connections that ask for the lock first all fail at one instant, for every n; they are spread if and only if n <= max, and the bound on a burst is attained |
| `LockoutTheorems.FailureLocksIff` | internal/plugin/smtp_security.go:193-215 | For every history a failure locks if and only if the failures since the last eviction, with it, are between the maximum and 2^31 modulo 2^32 |
| `LockoutTheorems.EveryCountIsReached` | internal/plugin/smtp_security.go:193-215 | Every count is reached by some history; the failure after 2^31 - 1 others does not lock |
| `RedisLockout.Store.RecordFailure` | internal/plugin/redis_lockout.go:45-66 | Increment, expiry on the first one, marker from the maximum on; each command may fail and ends the call |
| `RedisLockout.Store.IsLockedOut` | internal/plugin/redis_lockout.go:70-77 | Locked exactly while the marker key lives; a failing read is reported |
| `RedisLockout.RedisMeansHistory` | internal/plugin/redis_lockout.go:45-77 | For every history the counter is the size of the current window, the marker the end of the last lock, and the next failure locks exactly when its window then holds the maximum |
| `RedisLockout.RedisMatches` | internal/plugin/redis_lockout.go:45-66 | Failures within one window: the counter is their number, the marker runs from the last, from the maximum on |
| `RedisLockout.EpochIsAllOrOver` | internal/plugin/smtp_security.go:320-329 | Within one window the map holds all failures, or was evicted after window and lock were over |
| `RedisLockout.RedisLocksNoMore` | internal/plugin/redis_lockout.go:45-77 | For every history with evictions anywhere, whatever Redis locks the map locks |
| `RedisLockout.StoresAgreeIff` | internal/plugin/redis_lockout.go:45-77 | For every history the exact condition on epoch and window under which lock and next result are the same |
| `RedisLockout.LocksDifferIff` | internal/plugin/redis_lockout.go:45-77 | For every history the two locks differ if and only if the failures since the last eviction reach the maximum, the lockout time since the last has not passed, and no failure within it found max in its window |
| `RedisLockout.StoresAgree` | internal/plugin/redis_lockout.go:45-77 | Both stores give the same RecordFailure result and the same lock at every time, for every history of the IP within one window, with evictions anywhere |
| `RedisLockout.SlidingVersusFixedWindow` | internal/plugin/redis_lockout.go:53-66 | A guesser who spaces failures so that max of them never fit into one window is never locked by Redis, and by the map from the max-th on, for every such spacing |
| `RedisLockout.SpacedFailuresNeverLock` | internal/plugin/redis_lockout.go:45-66 | Without faults, failures a window apart or more never lock, for any number of them |
| `RedisFaults.CounterMeansRun` | internal/plugin/redis_lockout.go:45-66 | For every sequence of calls for any IPs and Redis faults the counter counts the increments since its birth, expires one window after it if and only if the EXPIRE of that one call did not fail, and the marker is the end of the last lock |
| `RedisFaults.AnswersMeanRun` | internal/plugin/redis_lockout.go:45-77 | For every sequence of calls and faults RecordFailure is an error, a lock or neither exactly as the calls since the counter's birth say, and the lock holds until the end of the last one |
| `RedisFaults.ForgottenIff` | internal/plugin/redis_lockout.go:53-58 | A counter is forgotten after its window if and only if the EXPIRE of its first call did not fail |
| `RedisFaults.LostExpiryNeverForgets` | internal/plugin/redis_lockout.go:53-66 | After a lost EXPIRE, whatever else follows and fails, the counter never expires and every later call from the max-th on that is counted and written locks, however far apart they are |
| `RedisRateLimit.RedisGuessingIsRateLimited` | internal/plugin/redis_lockout.go:45-77 | Attempts that do not overlap: 2 * max - 1 failures of an IP (two if max is 1) span at least the shorter of lockout time and window |
| `RedisRateLimit.TwoWindowsMeet` | internal/plugin/redis_lockout.go:53-66 | For every max >= 2 there is such a run with 2 * max - 2 failures in one nanosecond |
| `Registries.DomainOfAddress` | internal/registry/local/registry.go:32-61 | The domain of user@domain is the text after the first '@'; a bare domain is its own |
| `Registries.FallbackLookup` | internal/relay/registry.go:27-33 | Not-found becomes the relay node, every other answer stays |
| `Registries.StaticResolve` | internal/relay/registry.go:55-63 | Static entries go before the base resolver; without a base unknown nodes are not found |
| `Registries.LocalRegistry.Lookup` | internal/registry/local/registry.go:32-61 | The three tiers equal the two-tier reference for every target: the user tier never changes the answer |
| `Registries.RedisRegistry.Lookup` | internal/registry/redis/registry.go:60-79 | Route of the domain, else of the default domain, else not found, where a key that cannot be read counts as missing |
| `Registries.RedisRegistry.RegisterDomainEntity` | internal/registry/redis/registry.go:82-109 | Route, default and store are written in this order, each failure ending the call |
| `Registries.RedisRegistry.Announce` | internal/registry/redis/registry.go:131-133 | The announcement becomes the last heartbeat of the node, and every node key stays that node's last heartbeat |
| `Registries.RedisRegistry.ResolveNode` | internal/registry/redis/registry.go:115-127 | The own address always; of another node an address if and only if its last heartbeat carried it less than 30 s ago |
| `Registries.HeartbeatLasts` | internal/registry/redis/registry.go:111-133 | After a heartbeat at t, until the node's next, its address and no other is announced exactly before t + 30 s, whatever others announce |
| `Registries.Server.RegisterDomain` | internal/server/server.go:69-103 | Each result under its exact condition, and what is then written to route, default and store; idempotent for the owner, refused for others |
| `Registries.Server.RemapDomain` | internal/server/server.go:227-251 | Each result under its exact condition; the owner changes in the store alone |
| `RegistryTheorems.LookupsAgree` | internal/registry/redis/registry.go:60-79 | When store and Redis hold the same directory, Redis Lookup is the two-tier reference for every target |
| `RegistryTheorems.RunKeepsAgree` | internal/server/server.go:69-103 | Every sequence of RegisterDomain RPCs by any nodes keeps store and Redis the same directory |
| `RegistryTheorems.RegistriesAgree` | internal/registry/redis/registry.go:60-109 | After any such sequence both Lookups give one answer for every target, and at most one domain is default |
| `RegistryTheorems.FaultyRunKeepsAgreeOnStored` | internal/registry/redis/registry.go:82-109 | With Redis writes failing anywhere, the two still agree on every stored domain and on the default |
| `RegistryTheorems.FaultyRunAgreesIff` | internal/registry/redis/registry.go:82-109 | After any such run they answer alike if and only if every domain whose default write failed was claimed without a fault or last tried by the default domain's node |
| `RegistryTheorems.RetryRepairs` | internal/server/server.go:69-103 | A later faultless claim of the domain leaves nothing of a failed RPC behind |
| `RegistryTheorems.ClaimsAreExclusive` | internal/server/server.go:69-103 | Over one shared store a claimed domain never changes its owner, and other nodes are refused |
| `PrivateStores.ClaimsAreNeverRefused` | internal/server/server.go:69-103 | With one store per node no claim is ever refused, in any run |
| `PrivateStores.LastNewcomerOwnsRoute` | internal/server/server.go:69-103 | There Redis routes a name to the node whose first claim of it came last |
| `PrivateStores.FirstClaimantKeepsRouteIff` | internal/server/server.go:69-103 | The first claimant keeps the route if and only if no other node ever claims the name |
| `RacingClaims.RaceAgreesIff` | internal/server/server.go:69-103 | After any interleaving of the steps of RPCs on one store, the registries answer alike if and only if last route write and last store write of every domain, and the defaults, are of one node |
| `RacingClaims.BothClaimantsWin` | internal/server/server.go:75-103 | Two overlapping claims of a name are both accepted; Redis then names one node and the store the other |
| `RegistryTheorems.RemapAgreesIff` | internal/server/server.go:227-251 | After RemapDomain the registries answer alike if and only if it named the current owner |
| `RegistryTheorems.DirectRegisterAgreesIff` | internal/registry/redis/registry.go:82-109 | After a direct Register they answer alike if and only if it does not clear the current default |
| `RelayServer.Server.SendMessage` | internal/relay/relay.go:178-210 | Bodies over 25 MiB are refused, no recipients is a success; an accepted job goes to deliver_to if set and to recipient_ids otherwise, with sender, subject, body and headers of the request; without a queue the backend's result counts |
| `RelayServer.CopyHeaders` | internal/relay/relay.go:191-195 | The copying loop yields the same headers |
| `Forwarder.Interceptor.Classify` | internal/forwarder/forwarder.go:81-97 | The first loop splits the recipients, in order, into local ones and one group per resolved address |
| `Forwarder.Interceptor.ForwardTo` | internal/forwarder/forwarder.go:121-165 | One forward and its effect on the relay queue and the pool: an unavailable peer is evicted, any other reached peer stays pooled |
| `Forwarder.Interceptor.Handle` | internal/forwarder/forwarder.go:76-116 | Each group is forwarded once, failed groups return to the local request, and every queue change is accounted for by a forward, for any address order |
| `RoutingTheorems.RecipientsAreConserved` | internal/forwarder/forwarder.go:76-116 | Local recipients plus successfully forwarded ones are the request, as multisets, for all registry, resolver and RPC outcomes |
| `RoutingTheorems.ForwardedToTheirOwner` | internal/forwarder/forwarder.go:81-97 | Every forwarded recipient's owner is another node and resolved to the address it went to |
| `RoutingTheorems.GroupKeepsOrder` | internal/forwarder/forwarder.go:81-97 | A group keeps the order of the request |
| `RoutingTheorems.OnlyTheRelayIsRemote` | internal/relay/registry.go:27-63 | On a single node with a relay only the relay's address is ever a target |
| `RoutingTheorems.OnlyUnknownsAreRelayed` | internal/relay/registry.go:27-33 | A recipient goes to the relay only if the inner lookup said not-found or named the relay node |
| `RoutingTheorems.EndToEnd` | internal/forwarder/forwarder.go:76-141 | Every recipient occurrence lands in the local request or in the `to` list of the one accepted relay job; an oversized body or full queue sends the whole group to the local handler and leaves the queue untouched |
| `RoutingTheorems.SendOnSingleNode` | internal/server/node.go:157-170 | The same of the interceptor, relay server and queue objects together |
| `ClusterHops.OwnerKeepsAll` | internal/forwarder/forwarder.go:81-97 | The home of all recipients forwards to no other node, and classifies local all that is not bound for its relay |
| `ClusterHops.OneOwnerOneHop` | internal/forwarder/forwarder.go:76-141 | With agreeing registries, relays or not, and one home for all recipients that have one, a request is at rest after at most one hop between nodes, wherever it enters |
| `ClusterHops.TwoOwnersNeverSettle` | internal/forwarder/forwarder.go:81-131 | With homes at two nodes no number of hops is enough |
| `ClusterHops.SettlesIffOneOwner` | internal/forwarder/forwarder.go:76-141 | Forwarding comes to rest if and only if all recipients that have a home node have the same, and then within one hop; a relay passes nothing on |
| `ClusterHops.OneOwnerMailings` | internal/server/node.go:157-173 | With one home an external recipient is mailed once per node that handles the request: by the entry node, and by the home if that is another node |
| `ClusterHops.TwoOwnersMailAgain` | internal/server/node.go:157-173 | With homes at two nodes it is mailed again on every hop |
| `ClusterHops.MailedOnceIff` | internal/server/node.go:157-173 | An external recipient is mailed exactly once if and only if no recipient of the request has its home at another node |
| `SmtpSession.Connection.StartAuth` | internal/smtp/server.go:399-413 | When AUTH starts: unknown mechanism, no users, or locked out by the history of the lockout plugin, each under its exact condition; otherwise the exchange begins |
| `SmtpSession.Connection.CheckCredentials` | internal/smtp/server.go:414-432 | Later, resolver and validator decide: only a passing check sets the identity, only a failing one is counted and recorded, and it is answered 421 from the limit on |
| `SmtpSession.Connection.AuthFailed` | internal/smtp/server.go:436-449 | The failure is counted for connection and IP, and answered 421 from the limit on |
| `SmtpSession.Connection.MailFrom` | internal/smtp/server.go:454-485 | With an identity MAIL is accepted if and only if the sender's address equals it character by character up to case; without one it is refused when users are configured |
| `SmtpSession.Connection.RcptTo` | internal/smtp/server.go:489-505 | RCPT adds resolved recipients only, unless relaying is on |
| `SmtpSession.Connection.ReadData` | internal/smtp/server.go:518-611 | What the mailbox is handed: client, recipients and envelope header |
| `SmtpSession.Connection.ResetSession` | internal/smtp/server.go:613-616 | Reset clears the transaction and keeps the identity |
| `SmtpSession.LegalKeepsInv` | internal/smtp/server.go:399-505 | Over every legal trace the session's identity was authenticated, its sender matches and its recipients were resolved since the last Reset |
| `SmtpSession.HandedMessagesAreAuthorised` | internal/smtp/server.go:575-616 | With users and without relaying every message handed over carries an identity some AUTH resolved and validated, an envelope sender equal to it character by character up to case, and only recipients resolved since the last Reset |
| `SmtpSession.OpenServerUsesEnvelope` | internal/smtp/server.go:575-600 | Without users every message is filed under the sender its own transaction's MAIL named, and under the From header only when that is empty |
| `SmtpSession.ReauthenticationWouldSpoof` | internal/smtp/server.go:399-432 | Without the protocol layer's order a second AUTH would send as b what a opened, for any two identities |
| `SmtpSession.FailuresAreCounted` | internal/smtp/server.go:436-449 | The connection's counter is the number of failed credential checks in the trace |
| `SmtpSession.LimitReplies` | internal/smtp/server.go:436-449 | A failing check is answered 421 if and only if it is at least the limit-th of the connection |

## Left out

- CLI and configuration plumbing, generated protobuf code, listeners, gRPC serving, metrics, logging and LMTP: no logic of the kind stated here.
- SQLite and PostgreSQL stores: their behaviour lives in SQL engines; memstore is the reference.
- Ed25519, DKIM, SPF and node keys: foreign cryptography and DNS.
- SendGrid and SMTP senders, CrowdSec, DNSBL, spam checks, antivirus and the token-bucket limiters: network clients and an unseen library.
- Attachment, address and e-mail authentication filters, and the BeforeSend checks other than the lockout: one-pass policy branches that would only add easy members.
- RPCs other than SendMessage, RegisterDomain and RemapDomain; registering a user changes no routing answer (`LocalRegistry.Lookup`).
- Wire-level mail and MIME parsing: `extractAddr` is an arbitrary function, and headers, body and SPF result of a DATA command are not modelled beyond the sender and recipients.
- The local registry's Register: it saves the domain in the store, as the second half of `RegisterDomainEntity` does.
- Goroutine locals are kept as program points in fields of the queue and dispatcher classes; true parallelism within one atomic action is not modelled.
- Clock overflow in `time.Now().Add` and overflow of the channel capacity.
- RegistryTheorems.RegistriesAgree: RPCs are served one after the other; overlapping ones are `RacingClaims`.
- RacingClaims.RaceAgreesIff: no Redis write fails; failing writes are `FaultyRunAgreesIff`.
- SmtpSecurity.Plugin.RecordAuthFailure: counting and locking are one atomic action, while the source releases its mutex between them.
- LockoutTheorems.LockHoldsInFull: fewer than 2^31 failures of the IP, because its int32 counter wraps (`FailureLocksIff`); a failure is recorded in one step, while two overlapping calls of the source can write their lock ends in the reverse order of their clock readings, and the lock then ends with the earlier one.
- LockoutTheorems.EvictionMattersIff: fewer than 2^31 failures of the IP, for the same reason, and no further eviction; with further ones `EvictionOnlyUnlocks` gives one direction.
- LockoutTheorems.EvictionChangesAnswerIff: likewise.
- LockoutTheorems.EvictionOnlyUnlocks: fewer than 2^31 failures of the IP.
- AuthTraffic.GuessingIsRateLimited: at most 2^31 failures of the IP, for the same reason.
- AuthTraffic.TrafficIsRateLimited: fewer than 2^31 failures of the IP at the lock check, for the same reason.
- AuthTraffic.BurstIsBounded: fewer than 2^31 failures of the IP, for the same reason.
- RedisLockout.RedisLocksNoMore: fewer than 2^31 failures of the IP, for the same reason.
- RedisLockout.LocksDifferIff: fewer than 2^31 failures of the IP, for the same reason.
- RedisLockout.StoresAgree: fewer than 2^31 failures of the IP, for the same reason; Redis expiries are exact instants, and no Redis command fails.
- WebhookRetry.JitterStaysWithinBand: over real numbers; float64 rounding is not modelled.
- Dispatcher.Dispatcher.WriteBack: the store itself never fails, as memstore does not.
- Dispatcher.Dispatcher.SweepTick: the sweeper may still tick after Stop; its own exit is not modelled.
- Dispatcher.Dispatcher.SweepAll: the channel is not read during the loop; the interleaved case is `SweepOffer`.
- RelayServer.Server.SendMessage: the body length counts characters, each taken as one byte.
- ClusterHops.SettlesIffOneOwner: every forward succeeds, and no node has the name of a relay.
- ClusterHops.MailedOnceIff: every forward succeeds, every relay accepts, and every node has a relay.
- WebhookExcess.MorePostsThanAllowed: a worker about to close the record does not count; if it is the only one left and the job is crowded out, no further copy can be made.
- SmtpSession.Connection.MailFrom: case folding maps each character to one; bytes that are not valid UTF-8 are not modelled.
