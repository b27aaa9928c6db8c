# Coordination kernel: a model in Dafny

This project models the in-memory coordination kernel of the OpenClaw enterprise plugin: the
components that keep state over time while asynchronous calls overlap. Each component is a
module: a class that updates its fields the way the source does, functions on values that say
what each operation does to the state (every method's contract ties the new state to them),
and, in the same or a `...Runs` module, a world that is driven by events (calls start, calls
complete, timers fire, time passes) with theorems about every run of it.

| file | what it holds |
|---|---|
| `CircuitBreaker.dfy` | the breaker, with calls in flight and half-open episodes |
| `Sorting.dfy`, `Queue.dfy`, `QueueRuns.dfy` | the priority queue: delivery accounting, order, idempotency, draining |
| `Lock.dfy`, `Election.dfy` | leases with tokens, and leader election on top of them |
| `WindowLog.dfy`, `RateLimiter.dfy` | the fixed-window rate limiter and its bound over any interval |
| `Keys.dfy`, `Cache.dfy`, `Quota.dfy`, `QuotaRuns.dfy`, `QuotaAnswers.dfy`, `LateFills.dfy` | token quotas over storage and a cache, what their answers mean, and the cache under overlapping calls |
| `Storage.dfy`, `SplitUpdates.dfy` | the storage backend, paging, and `atomicUpdate` in its two steps |
| `ApiKeys.dfy`, `ApiKeyRuns.dfy`, `Revocations.dfy` | API keys: rows, hash index, life cycle, and revocation under overlapping calls |
| `Checkpoints.dfy`, `Knowledge.dfy`, `Overwrites.dfy` | the two stores with composite string keys, and overlapping `set` calls |
| `Glob.dfy`, `EventBus.dfy` | glob patterns as regular expressions, and the event bus |
| `Workflow.dfy`, `WorkflowRuns.dfy` | workflow instances that suspend and resume by signal |
| `Cascade.dfy` | signal, abort, kill with timers, cancellation and restart |

`dafny verify dfyconfig.toml` checks everything.

## How the source is read

- In the breaker, the queue's subscriber rounds, elections, workflows and cascades the code between
  two awaits that can wait for something is one step. In the theorems about runs of the quota
  manager, the API keys, the checkpoints and the knowledge store one call is one step; what
  overlapping calls do there is the subject of `SplitUpdates`, `LateFills`, `Revocations` and
  `Overwrites`, where a call's read and its write are steps of their own.
- The clock is an argument; where the source reads it several times and the difference matters
  (`execute`, `acquire`, the quota's cache expiry) there is one argument per reading. In runs the
  clock never goes back.
- UUIDs, tokens and raw API keys are values never used before. A JavaScript Map is a map, or,
  where insertion order matters (storage), a sequence of entries without repeated keys.
- A run is a list of events, and every theorem about runs holds for all lists that meet the
  conditions its row states.

Where a natural promise fails, the code is kept, the exact condition is proved, and a run or an
input shows the failure:

- A breaker with halfOpenMaxCalls below successThreshold (or below 1) can refuse every call
  until it is reset by hand (`WedgeFreeExactly`, `WedgeReached`, `WedgedForever`).
- A nack of a completed message, or a replay, can put a second active message under an
  idempotency key (`KeysStayUniqueExactly`, `UniqueThroughoutExactly`, `KeysCanClash`).
- A resignation before the election's acquisition has settled is forgotten
  (`ResignationCountsExactly`, `ResignationForgotten`). docs/tech-desigh.md:968 says that election
  in one process always yields a leader; src/kernel-impl/memory/lock.ts runs a real election,
  which is what is modelled.
- Rate limits bound a window, not every interval: 2 * limit - 1 can be reached
  (`RateBoundIsTight`, `LimitHoldsEverywhereExactly`). `retryAfterMs` is also reported for a need
  that can never be met (`OverLimitNeverAllowed`).
- `atomicUpdate` is not atomic: overlapping quota updates can grant any multiple of the limit,
  although no stored counter exceeds it (`OvergrantUnbounded`, `StoredWithinLimit`). Grants and
  counter agree exactly while no granted update has its row written between its two steps
  (`GrantsMatchExactly`).
- A quota call that writes to the cache what it saw before another call's grant leaves the cache
  behind the counter (`BehindExactly`, `LateFillLeavesOld`).
- Two overlapping `set` calls of the knowledge store can give a new entry two ids, one after the
  other (`IdentityKeptExactly`, `OverlappingSetsReplaceId`).
- Colons in identifiers, scope ids, target ids or namespaces make composite keys collide;
  `CompositeKeysClashExactly` (rate limits, knowledge), `RecordKeysClashExactly` (quotas) and
  `PrefixMatchesExactly` (checkpoints) say which.
- A revocation is undone exactly by a validation of the key that read it before and writes after
  (`RevocationSurvivesExactly`, `OverlappingRevocationIsLost`).
- `loadLatest` returns the one saved first of several checkpoints created and stored in the
  same millisecond (`LatestInRun`, `LatestIsFirstSaved`).
- A `?` in a subscription pattern reaches the regular expression unescaped
  (`TranslatesExactlyWithoutQuestionMark`), and the in-process and Redis buses differ on
  `name.*` (`BusesDifferOnDepth`).
- A signal that arrives after an instance is stored as waiting but before it subscribes is
  lost (`ResumesExactly`, `SignalCanBeLost`, `SignalLostInRun`).
- A kill removes whatever registration the task has by then (`RegistrationSurvivesExactly`,
  `NewerRegistrationLost`).

## Model

| member | source | states |
|---|---|---|
| `CircuitBreakers.WedgeFreeExactly` | src/reliability/circuit-breaker/circuit-breaker.ts:70-141 | The breaker can never end half-open with no probe left and every call refused, over all runs with overlapping calls and late results, if and only if it may start at least one probe and at least as many as close it (halfOpenMaxCalls at least 1 and at least successThreshold) |
| `CircuitBreakers.NoWedge` | src/reliability/circuit-breaker/circuit-breaker.ts:78-84 | Under that condition, in every reachable half-open state without a probe of the current episode in flight, the next call is admitted at any time |
| `CircuitBreakers.WedgeReached` | src/reliability/circuit-breaker/circuit-breaker.ts:115-141 | Without it some run ends half-open, idle and out of probes |
| `CircuitBreakers.WedgedForever` | src/reliability/circuit-breaker/circuit-breaker.ts:78-84 | and no later event but a reset ever starts a call again |
| `CircuitBreakers.EveryRunKeepsInv` | src/reliability/circuit-breaker/circuit-breaker.ts:70-148 | In every reachable state: the counters are the counts and trailing runs of the completions since the last reset; closed means fewer than failureThreshold trailing failures; halfOpenCalls is 0 outside half-open and otherwise counts the episode's completed and running probes; each episode starts at most halfOpenMaxCalls calls; no call starts within resetTimeMs of an opening unless a reset came between |
| `CircuitBreakers.OpensExactly` | src/reliability/circuit-breaker/circuit-breaker.ts:127-141 | A closed breaker opens on a completion if and only if the last failureThreshold completions since it closed have all failed |
| `CircuitBreakers.OpenAdmitsExactly` | src/reliability/circuit-breaker/circuit-breaker.ts:70-85 | From any reachable open state, with a probe allowed at all, a call starts if and only if the reset time has passed since the opening that the run observed last; otherwise it leaves no trace |
| `CircuitBreakers.HalfOpenAdmitsExactly` | src/reliability/circuit-breaker/circuit-breaker.ts:81-85 | From any reachable half-open state a call starts if and only if the run has started fewer calls in this episode than it may |
| `CircuitBreakers.ClosedAdmitsAlways` | src/reliability/circuit-breaker/circuit-breaker.ts:70-85 | A closed breaker starts every call |
| `CircuitBreakers.RefusalIsExact` | src/reliability/circuit-breaker/circuit-breaker.ts:70-82 | A refusal gives the breaker's own state and, while open, a positive delay after which, and not before, the same call starts |
| `CircuitBreakers.HalfOpenReopensExactly` | src/reliability/circuit-breaker/circuit-breaker.ts:127-141 | In half-open a failure, and nothing else, opens the breaker, at that moment |
| `CircuitBreakers.HalfOpenClosesExactly` | src/reliability/circuit-breaker/circuit-breaker.ts:115-125 | In half-open a completion closes the breaker if and only if the last successThreshold completions have all succeeded |
| `CircuitBreakers.LateResultsOnlyCount` | src/reliability/circuit-breaker/circuit-breaker.ts:115-141 | A late result neither closes an open breaker nor moves the moment it opened; each result is stamped with its time |
| `CircuitBreakers.ResetForgets` | src/reliability/circuit-breaker/circuit-breaker.ts:97-105 | A reset closes the breaker and forgets everything but the two outcome times |
| `CircuitBreakers.FreshSays` | src/reliability/circuit-breaker/circuit-breaker.ts:41-49 | A new breaker is closed and has seen nothing |
| `CircuitBreakers.TrailingIsSuffix` | src/reliability/circuit-breaker/circuit-breaker.ts:115-131 | What the consecutive counters mean: the longest suffix of the completion log with one outcome |
| `CircuitBreakers.TrailingReaches` | src/reliability/circuit-breaker/circuit-breaker.ts:127-134 | A trailing run of n failures is the same as the last n completions having failed |
| `CircuitBreakers.CircuitBreaker.CheckState` | src/reliability/circuit-breaker/circuit-breaker.ts:107-113 | Open becomes half-open exactly when the reset time has passed |
| `CircuitBreakers.CircuitBreaker.Enter` | src/reliability/circuit-breaker/circuit-breaker.ts:70-85 | The synchronous part of execute: whether the call is admitted, the retry delay and the stats of a refusal, and the whole new state, which depends only on the later of the two clock readings |
| `CircuitBreakers.CircuitBreaker.OnSuccess` | src/reliability/circuit-breaker/circuit-breaker.ts:115-125 | The whole new state after a success, in the function the run theorems are about |
| `CircuitBreakers.CircuitBreaker.OnFailure` | src/reliability/circuit-breaker/circuit-breaker.ts:127-141 | The whole new state after a failure |
| `CircuitBreakers.CircuitBreaker.Reset` | src/reliability/circuit-breaker/circuit-breaker.ts:97-105 | Reset clears everything but the two outcome times |
| `Sorting.SortIsStable` | src/kernel-impl/memory/queue.ts:106-111 | Sorting orders by key, keeps equal keys in their original order and is a permutation |
| `Sorting.StableSortIsUnique` | src/kernel-impl/memory/queue.ts:106-111 | Any stable sort, whatever the algorithm, gives that same result |
| `Sorting.SortedHead` | src/kernel-impl/memory/queue.ts:97-112 | Filter, sort, take the head: the least kept position, or nothing if and only if nothing is kept |
| `Sorting.SortKeepsPositions` | src/kernel-impl/memory/storage.ts:85-89 | Sorting neither loses nor invents nor repeats an entry |
| `Queues.NextIsLeast` | src/kernel-impl/memory/queue.ts:97-119 | What dequeue picks is visible and precedes every other visible message: high before normal before low, then by age, then by position; it picks nothing only when nothing is visible |
| `Queues.LeastIsUnique` | src/kernel-impl/memory/queue.ts:97-119 | Conversely a message with that property is the one picked |
| `Queues.NewMessageSays` | src/kernel-impl/memory/queue.ts:72-90 | A new message carries what the caller gave, the options before the message before the defaults, and is visible from the delay on |
| `Queues.TakenSays` | src/kernel-impl/memory/queue.ts:113-118 | The message taken is marked, its attempt counted and its deadline set; the rest of it and all others stay, and the caller sees its fields |
| `Queues.AckSays` | src/kernel-impl/memory/queue.ts:147-151 | The first message with the id is completed, or none has the id and nothing changes |
| `Queues.NackSays` | src/kernel-impl/memory/queue.ts:153-165 | The first message with the id is dead-lettered if its attempts are used up, otherwise pending again and visible after the delay, one second by default |
| `Queues.ReplaySays` | src/kernel-impl/memory/queue.ts:195-202 | The first dead letter with the id is pending again, visible at once, with no attempts |
| `Queues.RoundEndSays` | src/kernel-impl/memory/queue.ts:233-239 | What was handled is acknowledged, what was not is rejected for one second |
| `Queues.DepthOfFront` | src/kernel-impl/memory/queue.ts:167-169 | The depth grows by one with a pending message and not otherwise |
| `Queues.PurgeOfFront` | src/kernel-impl/memory/queue.ts:171-177 | Purging keeps just the messages that are not pending, in order |
| `Queues.MemoryQueueBackend.EnqueueMessage` | src/kernel-impl/memory/queue.ts:56-95 | Finds an active duplicate or appends; other queues are untouched |
| `Queues.MemoryQueueBackend.DequeueMessage` | src/kernel-impl/memory/queue.ts:97-119 | Takes the least visible message, counts the attempt, and changes nothing else; while a high one is visible it takes a high one, and it takes a low one only when all visible ones are low |
| `Queues.MemoryQueueBackend.AckMessage` | src/kernel-impl/memory/queue.ts:147-151 | Completes the first message with the id, whatever its state |
| `Queues.MemoryQueueBackend.NackMessage` | src/kernel-impl/memory/queue.ts:153-165 | Dead-letters a message out of attempts, otherwise puts it back after the delay; a later completed message is put back too |
| `Queues.MemoryQueueBackend.GetQueueDepth` | src/kernel-impl/memory/queue.ts:167-169 | The number of pending messages |
| `Queues.MemoryQueueBackend.PurgeQueue` | src/kernel-impl/memory/queue.ts:171-177 | Removes the pending messages, keeps the others in order, and returns by how many messages the queue got shorter |
| `Queues.MemoryQueueBackend.ReplayDeadLetter` | src/kernel-impl/memory/queue.ts:195-202 | Puts a dead letter back with no attempts |
| `Queues.MemoryQueueBackend.Subscribe` | src/kernel-impl/memory/queue.ts:121-133 | Adds an active subscriber |
| `Queues.MemoryQueueBackend.Unsubscribe` | src/kernel-impl/memory/queue.ts:134-145 | Deactivates that subscriber only |
| `Queues.MemoryQueueBackend.BeginRound` | src/kernel-impl/memory/queue.ts:225-232 | A subscriber round takes one message, or none without an active subscriber |
| `Queues.MemoryQueueBackend.EndRound` | src/kernel-impl/memory/queue.ts:233-239 | The round acknowledges when the handler resolved and rejects with the default delay when it threw |
| `QueueRuns.DeliveriesAccounted` | src/kernel-impl/memory/queue.ts:97-202 | For every message that allows an attempt, after any mix of operations on any ids: deliveries = attempts + maxAttempts * replays, attempts never exceed maxAttempts, pending means attempts are left, dead letter means none are |
| `QueueRuns.AccountingNeedsAnAttempt` | src/kernel-impl/memory/queue.ts:79-91 | The accounting starts out right if and only if maxAttempts is at least 1 |
| `QueueRuns.EveryRunKeepsInv` | src/kernel-impl/memory/queue.ts:56-202 | In every run ids stay unique and messages stay in order of creation, with the accounting above |
| `QueueRuns.NeverOvertaken` | src/kernel-impl/memory/queue.ts:97-119 | In every run, what is delivered next is high if anything visible is high, low only if everything visible is low, and was enqueued before all other visible messages of its own priority |
| `QueueRuns.KeysStayUniqueExactly` | src/kernel-impl/memory/queue.ts:56-202 | An operation breaks the uniqueness of idempotency keys if and only if it revives (a nack of a completed message, or a replay) a message whose key another active message has |
| `QueueRuns.UniqueThroughoutExactly` | src/kernel-impl/memory/queue.ts:56-202 | A run never has two active messages with one key, at any of its moments, if and only if it has no such step |
| `QueueRuns.DisciplinedRunsKeepKeysUnique` | src/kernel-impl/memory/queue.ts:65-73 | In particular its last state has none |
| `QueueRuns.KeysCanClash` | src/kernel-impl/memory/queue.ts:153-165 | Enqueue under a key, acknowledge, enqueue again, reject the first: a run that has two |
| `QueueRuns.RepeatedEnqueue` | src/kernel-impl/memory/queue.ts:65-95 | Enqueueing under a key in use returns that message's id and changes nothing; otherwise one pending message is appended |
| `QueueRuns.DrainBound` | src/kernel-impl/memory/queue.ts:225-239 | From any reachable queue whose messages allow an attempt, subscriber rounds, however they overlap and whatever handlers do, make at most the sum over pending messages of maxAttempts - attempts deliveries |
| `QueueRuns.DrainSettles` | src/kernel-impl/memory/queue.ts:225-239 | However rounds overlap and whatever handlers do, once all delays have passed, no handler is running and a poll finds nothing, every message that was pending, or with a handler, at the start is completed or dead-lettered, and no other message was touched |
| `QueueRuns.EnoughPollsDrain` | src/kernel-impl/memory/queue.ts:225-239 | As many polls as deliveries are left, each finding a message or nothing more to do, bring that about once no handler is running, at any pace and with any overlap |
| `QueueRuns.PollDeliversExactly` | src/kernel-impl/memory/queue.ts:97-119 | A poll delivers if and only if a pending message is visible, and otherwise changes nothing |
| `QueueRuns.DeliveriesBounded` | src/kernel-impl/memory/queue.ts:225-239 | Each delivery uses up one of the deliveries left, for any interleaving of rounds |
| `Locks.MutualExclusion` | src/kernel-impl/memory/lock.ts:36-68 | In every reachable state an unreleased, unexpired handle is the one recorded for its key with its token and expiry, so no two live handles share a key |
| `Locks.StaleHandleIsHarmless` | src/kernel-impl/memory/lock.ts:55-68 | Releasing or extending a handle that lost its key changes no lease and no other handle |
| `Locks.LostForever` | src/kernel-impl/memory/lock.ts:36-68 | A handle that lost its key never holds it again |
| `Locks.ExtensionRevives` | src/kernel-impl/memory/lock.ts:62-68 | An extension succeeds if and only if the lease is still recorded, even past its expiry, and then makes the handle live for the whole extension |
| `Locks.GrantedExactlyWhenFree` | src/kernel-impl/memory/lock.ts:36-53 | A key is granted if and only if no recorded lease on it outlasts the clock |
| `Locks.OtherHandlesKept` | src/kernel-impl/memory/lock.ts:36-68 | No step changes a handle other than the one it is about |
| `Locks.GrantLasts` | src/kernel-impl/memory/lock.ts:47-52 | A granted lease is recorded and runs for exactly its time to live from that moment |
| `Locks.ReleaseFrees` | src/kernel-impl/memory/lock.ts:55-60 | Releasing the recorded handle frees its key at once |
| `Locks.SweepTakesExpired` | src/kernel-impl/memory/lock.ts:140-147 | A sweep takes a lease away if and only if it has expired |
| `Locks.RunKeepsInv` | src/kernel-impl/memory/lock.ts:36-68 | The agreement of the table with all handles ever issued is kept by every run |
| `Locks.InProcessLockBackend.EvictExpired` | src/kernel-impl/memory/lock.ts:140-147 | Removes exactly the expired leases |
| `Locks.InProcessLockBackend.TryAcquire` | src/kernel-impl/memory/lock.ts:42-53 | A free key is leased under the fresh token; a held one gives null and changes nothing but evictions |
| `Locks.InProcessLockBackend.Acquire` | src/kernel-impl/memory/lock.ts:36-53 | Waits if and only if the key is held and a wait was asked for, and what it then returns |
| `Locks.InProcessLockBackend.AcquireWithRetry` | src/kernel-impl/memory/lock.ts:126-138 | Polls until the first moment past the deadline or with the key free, whatever others do to the table between polls, and succeeds if and only if the latter |
| `Locks.InProcessLockBackend.ReleaseLock` | src/kernel-impl/memory/lock.ts:55-60 | Removes the lease only when the token matches |
| `Locks.InProcessLockBackend.ExtendLock` | src/kernel-impl/memory/lock.ts:62-68 | Renews lease and handle only when the token matches |
| `Elections.OneLeasedLeader` | src/kernel-impl/memory/lock.ts:70-124 | At any time a group has at most one leader with an unexpired lease, also when other clients use the same lock backend |
| `Elections.OneFlaggedLeader` | src/kernel-impl/memory/lock.ts:70-124 | While every leader has renewed within its time to live, the isLeader flags alone are unique |
| `Elections.TickDeposesExactly` | src/kernel-impl/memory/lock.ts:90-99 | A renewal tick deposes a leader if and only if its lease is no longer the recorded one, and otherwise extends it by the full time to live |
| `Elections.TakeoverIsFinal` | src/kernel-impl/memory/lock.ts:81-124 | A candidate that lost the lease never holds it again, so its next tick deposes it |
| `Elections.NeverElectedTwice` | src/kernel-impl/memory/lock.ts:81-124 | A candidate that is not leader once its acquisition has settled never becomes one |
| `Elections.ResignationCountsExactly` | src/kernel-impl/memory/lock.ts:115-122 | A resignation keeps the candidate from ever leading if and only if the acquisition had already settled or had failed: one that comes before the continuation is forgotten |
| `Elections.LeasesApart` | src/kernel-impl/memory/lock.ts:82 | Each group has a lease of its own |
| `Elections.TickTouchesOnly` | src/kernel-impl/memory/lock.ts:90-99 | A renewal tick does nothing to a candidate that does not renew, and nothing to any other |
| `Elections.AskObtainsExactly` | src/kernel-impl/memory/lock.ts:70-104 | Asking obtains the lease if and only if no unexpired recorded lease belongs to a candidate of the same group or to another client under the group's key; the lease is then recorded under that key for its time to live |
| `Elections.BothGroupsLead` | src/kernel-impl/memory/lock.ts:70-104 | Two groups that elect at the same time both get their leader |
| `Elections.ResignationForgotten` | src/kernel-impl/memory/lock.ts:81-122 | Ask, resign, settle: a run whose candidate leads after it has resigned |
| `Elections.LeaderElection.constructor` | src/kernel-impl/memory/lock.ts:70-104 | The acquisition runs at once, its outcome is not looked at yet |
| `Elections.LeaderElection.Settle` | src/kernel-impl/memory/lock.ts:82-90 | The continuation: leader exactly when the lease was obtained |
| `Elections.LeaderElection.RenewTick` | src/kernel-impl/memory/lock.ts:90-99 | One renewal: extends the lease or deposes and stops renewing |
| `Elections.LeaderElection.Resign` | src/kernel-impl/memory/lock.ts:115-122 | Stops renewing; releases and steps down only when a handle is there |
| `Keys.SplitFirst` | src/governance/quota/impl/token-quota.ts:133-140 | Joined parts with colon-free first parts can be read back |
| `Keys.SplitLast` | src/governance/quota/impl/token-quota.ts:138-140 | Joined parts whose last parts have equally many colons can be read back |
| `Keys.JoinsClashExactly` | src/collaboration/knowledge/impl/storage-knowledge.ts:18-20 | Two pairs joined with a colon read the same if and only if they are equal or one first part continues the other after a colon and the second parts make up for it |
| `Keys.DecimalReadsBack` | src/governance/quota/impl/token-quota.ts:133-136 | Window starts are written in decimal: reading the digits gives the number back |
| `Keys.DecimalInjective` | src/governance/quota/impl/token-quota.ts:133-136 | Different window starts are written differently |
| `WindowLog.IntervalBound` | src/governance/quota/impl/token-quota.ts:71-131 | If no window grants more than a limit, no interval of a window's length grants more than twice the limit |
| `WindowLog.OpenedIntervalBound` | src/embedding/rate-limiter/impl/memory-limiter.ts:44-77 | If windows open with their first positive grant, the bound improves by one |
| `WindowLog.TwoWindows` | src/embedding/rate-limiter/impl/memory-limiter.ts:44-60 | An interval as long as a window meets at most two windows |
| `RateLimiters.RateBound` | src/embedding/rate-limiter/impl/memory-limiter.ts:44-77 | For positive amounts and no reset, a key gets at most limit tokens in a stored window and at most 2 * limit - 1 in any half-open interval of length windowMs |
| `RateLimiters.RateBoundIsTight` | src/embedding/rate-limiter/impl/memory-limiter.ts:44-77 | and 2 * limit - 1 is attained |
| `RateLimiters.LimitHoldsEverywhereExactly` | src/embedding/rate-limiter/impl/memory-limiter.ts:44-77 | For positive windows: every such run keeps every interval of a window's length within the limit if and only if the limit or the window is at most 1 |
| `RateLimiters.CleanupInvisible` | src/embedding/rate-limiter/impl/memory-limiter.ts:79-86 | Cleanups anywhere in a run change no answer and no grant |
| `RateLimiters.RetryAfterIsExact` | src/embedding/rate-limiter/impl/memory-limiter.ts:56-76 | A denied request with an attainable need is denied before now + retryAfterMs and allowed from exactly then on, if nothing else uses the key |
| `RateLimiters.RemainingIsExact` | src/embedding/rate-limiter/impl/memory-limiter.ts:62-76 | After a granted request exactly the amounts up to remaining would be granted at once; a check tells what would remain after one token |
| `RateLimiters.AnswerTells` | src/embedding/rate-limiter/impl/memory-limiter.ts:62-76 | A denial changes nothing and tells the amounts that would still be granted; every answer tells limit and window, and a retry delay if and only if it denies |
| `RateLimiters.SweepsExactly` | src/embedding/rate-limiter/impl/memory-limiter.ts:79-86 | A sweep takes away exactly the windows that are over |
| `RateLimiters.OverLimitNeverAllowed` | src/embedding/rate-limiter/impl/memory-limiter.ts:56-76 | A need beyond the limit is never met although retryAfterMs is reported |
| `RateLimiters.CompositeKeysClashExactly` | src/embedding/rate-limiter/impl/memory-limiter.ts:40-42 | Two keys share a window if and only if their scopes are equal and identifier and resource are equal, or one identifier continues the other after a colon and the resources make up for it |
| `RateLimiters.KeyText` | src/embedding/rate-limiter/impl/memory-limiter.ts:40-42 | How a key is written |
| `RateLimiters.CompositeKeyInjective` | src/embedding/rate-limiter/impl/memory-limiter.ts:40-42 | With colon-free identifiers different keys have different windows |
| `RateLimiters.CompositeKeyClash` | src/embedding/rate-limiter/impl/memory-limiter.ts:40-42 | An instance of such a clash |
| `RateLimiters.MemoryRateLimiter.EvaluateRequest` | src/embedding/rate-limiter/impl/memory-limiter.ts:44-77 | The answer and the whole new store, in the function the run theorems are about |
| `RateLimiters.MemoryRateLimiter.Check` | src/embedding/rate-limiter/impl/memory-limiter.ts:28-30 | Evaluates one token and changes nothing |
| `RateLimiters.MemoryRateLimiter.Consume` | src/embedding/rate-limiter/impl/memory-limiter.ts:32-34 | Evaluates the given number of tokens, one by default, and records them |
| `RateLimiters.MemoryRateLimiter.Reset` | src/embedding/rate-limiter/impl/memory-limiter.ts:36-38 | Forgets exactly that key |
| `RateLimiters.MemoryRateLimiter.CleanupExpired` | src/embedding/rate-limiter/impl/memory-limiter.ts:79-86 | Removes exactly the expired windows |
| `Caches.ExpiryInvisible` | src/kernel-impl/memory/cache.ts:27-77 | Dropping expired entries, lazily or by a sweep, changes no later lookup |
| `Caches.SetThenGet` | src/kernel-impl/memory/cache.ts:27-40 | What was set is found until its time to live has passed, for good without one, and other keys are as before |
| `Caches.SweepsExactly` | src/kernel-impl/memory/cache.ts:69-77 | A sweep takes away exactly what can no longer be found |
| `Caches.MemoryCacheBackend.Get` | src/kernel-impl/memory/cache.ts:27-35 | Returns the unexpired value and drops an expired one |
| `Caches.MemoryCacheBackend.Set` | src/kernel-impl/memory/cache.ts:37-40 | Stores with an expiry only when a positive time to live is given |
| `Caches.MemoryCacheBackend.EvictExpired` | src/kernel-impl/memory/cache.ts:73-77 | Removes exactly the expired entries |
| `Quotas.RecordKeyText` | src/governance/quota/impl/token-quota.ts:133-136 | How a row's key is written |
| `Quotas.TokenQuotaManager.WriteCacheUsedTo` | src/governance/quota/impl/token-quota.ts:166-177 | Caches until the window ends, without expiry if it has ended already, and does nothing without a cache |
| `Quotas.TokenQuotaManager.ReadUsedFrom` | src/governance/quota/impl/token-quota.ts:152-164 | The cached value, else the stored one, which is then cached |
| `Quotas.TokenQuotaManager.CheckQuota` | src/governance/quota/impl/token-quota.ts:63-69 | The answer and the new cache |
| `Quotas.TokenQuotaManager.ConsumeQuota` | src/governance/quota/impl/token-quota.ts:71-108 | The answer and the new counters for non-positive amounts, a zero limit, an exceeded quota and a grant |
| `Quotas.TokenQuotaManager.GetQuotaUsage` | src/governance/quota/impl/token-quota.ts:110-121 | The usage and the new cache |
| `QuotaRuns.CountersMatch` | src/governance/quota/impl/token-quota.ts:71-108 | In every run of calls that do not overlap the stored counter of a quota and window is the sum of what was granted and at most the largest limit it was held to |
| `QuotaRuns.QuotaBound` | src/governance/quota/impl/token-quota.ts:71-131 | While calls do not overlap and limits stay at or below a value, any interval of length windowMs grants at most twice that value |
| `QuotaRuns.CacheTransparent` | src/governance/quota/impl/token-quota.ts:63-177 | In every run of calls that do not overlap a manager with a cache gives the same answers and leaves the same counters as one without, and every cache entry equals the stored value |
| `QuotaRuns.ServeAgrees` | src/governance/quota/impl/token-quota.ts:63-177 | The same for a single call from any agreeing state |
| `QuotaRuns.ReadIsStored` | src/governance/quota/impl/token-quota.ts:152-164 | Reading gives the stored value while cache and storage agree, and keeps them so |
| `QuotaRuns.CheckPredictsConsume` | src/governance/quota/impl/token-quota.ts:63-108 | In every state reached by calls that do not overlap check allows if and only if consuming one token would |
| `QuotaRuns.RecordKeysClashExactly` | src/governance/quota/impl/token-quota.ts:133-136 | Two quotas share a row if and only if scope type and window are equal and scope id and resource type are equal, or one scope id continues the other after a colon and the resource types make up for it |
| `QuotaRuns.RecordKeyInjective` | src/governance/quota/impl/token-quota.ts:133-136 | With colon-free scope ids and resource types different quotas and windows have different rows |
| `QuotaRuns.RecordKeyClash` | src/governance/quota/impl/token-quota.ts:133-136 | A family of such clashes |
| `QuotaRuns.CacheKeyInjective` | src/governance/quota/impl/token-quota.ts:138-140 | Cache keys of rows differ whatever the tenants are called |
| `QuotaAnswers.ResolvedIsInForce` | src/governance/quota/impl/token-quota.ts:142-150 | The limit is the whole part of a usable (finite, not negative) resolver's answer, and otherwise of the default, at least 0 |
| `QuotaAnswers.ConsumeGrantsExactly` | src/governance/quota/impl/token-quota.ts:71-108 | In every state reached by calls that do not overlap, a positive amount is granted if and only if the earlier grants of the window and the amount stay within the limit in force; the answer tells limit, remainder, reset time and percentage as they are after the call |
| `QuotaAnswers.ConsumeNothing` | src/governance/quota/impl/token-quota.ts:76-79 | Consuming nothing, or less, is always allowed and grants nothing |
| `QuotaAnswers.CheckTells` | src/governance/quota/impl/token-quota.ts:63-69 | A check allows if and only if something is left of the limit in force, with the same meaning of its answer, and grants nothing |
| `QuotaAnswers.UsageTells` | src/governance/quota/impl/token-quota.ts:110-121 | The usage is what was granted in the window, under the limit in force, with the window's bounds |
| `QuotaAnswers.GrantsWithinAnswers` | src/governance/quota/impl/token-quota.ts:71-108 | No window is granted more than the largest answer of the resolver in the run, or the default where it had no usable answer |
| `QuotaAnswers.WindowStartIsWindow` | src/governance/quota/impl/token-quota.ts:123-131 | Windows are counted from time 0 and each moment lies in its own |
| `QuotaAnswers.ResultTells` | src/governance/quota/impl/token-quota.ts:179-195 | What the fields of an answer mean |
| `QuotaAnswers.CachedForTheWindow` | src/governance/quota/impl/token-quota.ts:166-177 | What is cached before its window ends is found until then and not after |
| `QuotaAnswers.ConsumeIsUpdate` | src/governance/quota/impl/token-quota.ts:86-98 | Uninterrupted, a consumption is the update that overlaps in SplitUpdates |
| `SplitUpdates.IsolatedIsSerial` | src/kernel-impl/memory/storage.ts:102-112 | With atomicUpdate as its read step and its write step, any interleaving in which no write to a row falls between the two steps of another update of it has the rows and outcomes of the serial run in the order of the write steps |
| `SplitUpdates.StaleOnlyIfOverwritten` | src/kernel-impl/memory/storage.ts:102-112 | What an update has read is still stored unless the row was written since |
| `SplitUpdates.StoredWithinLimit` | src/governance/quota/impl/token-quota.ts:86-98 | However quota updates interleave, no stored counter exceeds the limit |
| `SplitUpdates.GrantsMatchExactly` | src/governance/quota/impl/token-quota.ts:86-98 | For any interleaving of consumptions of positive amounts under any limits: the counter of a row equals the sum of what was granted on it at every moment if and only if no granted update had its row written between its two steps |
| `SplitUpdates.GrantIsAmount` | src/governance/quota/impl/token-quota.ts:86-98 | What a granted consumption is counted for there is the amount it asked for |
| `SplitUpdates.IsolatedGrantsWithinLimit` | src/governance/quota/impl/token-quota.ts:86-98 | So isolated consumptions under one limit are together granted exactly what is stored, and at most the limit |
| `SplitUpdates.OvergrantUnbounded` | src/governance/quota/impl/token-quota.ts:86-98 | Without isolation n overlapping callers can each be granted the whole limit |
| `LateFills.BehindExactly` | src/governance/quota/impl/token-quota.ts:71-177 | With overlapping calls, atomicUpdate as one step and every cache write a step of its own: the cached value is never above the counter, and it is below it if and only if something was granted after the cached value had been seen |
| `LateFills.CounterGrows` | src/governance/quota/impl/token-quota.ts:86-98 | Between two moments the counter grows if and only if something was granted between them |
| `LateFills.LateFillLeavesOld` | src/governance/quota/impl/token-quota.ts:152-177 | A run that ends with an old value in the cache and no call left to correct it |
| `Storage.ListingIsExact` | src/kernel-impl/memory/storage.ts:70-100 | The listing holds every entry with the prefix exactly once, ordered by update time, equal times in Map order |
| `Storage.ListsMatchingKeys` | src/kernel-impl/memory/storage.ts:70-100 | A value is listed if and only if it is stored under a key with the prefix |
| `Storage.PageSplits` | src/kernel-impl/memory/storage.ts:70-100 | What is left from an offset on is the page at that offset and what is left after it; hasMore says whether that is anything |
| `Storage.ListingGoesByUpdate` | src/kernel-impl/memory/storage.ts:84-89 | From the latest update to the earliest, ascending the other way, equal times in Map order |
| `Storage.PageTells` | src/kernel-impl/memory/storage.ts:91-99 | The total counts the keys with the prefix, the page holds as many as fit, and there is more if and only if it ends before the last |
| `Storage.PutStamps` | src/kernel-impl/memory/storage.ts:54-63 | A new key goes to the end, an old one keeps place and creation time, and both are updated now |
| `Storage.LastPairCounts` | src/kernel-impl/memory/storage.ts:128-136 | Of several pairs of a batch with one key the last counts |
| `Storage.PutIsUpdate` | src/kernel-impl/memory/storage.ts:54-63 | Setting a key updates the map from keys to values and nothing else |
| `Storage.RemoveIsDeletion` | src/kernel-impl/memory/storage.ts:65-68 | Deleting a key takes it out of that map and nothing else |
| `Storage.MemoryStorageBackend.GetCollection` | src/kernel-impl/memory/storage.ts:29-46 | The nested Maps are created on demand, without visible change |
| `Storage.MemoryStorageBackend.Get` | src/kernel-impl/memory/storage.ts:48-52 | The value under the key, and no visible change |
| `Storage.MemoryStorageBackend.Set` | src/kernel-impl/memory/storage.ts:54-63 | Updates the key, keeping its creation time and its place; other tenants and collections are unchanged |
| `Storage.MemoryStorageBackend.Delete` | src/kernel-impl/memory/storage.ts:65-68 | Removes the key and says whether it was there |
| `Storage.MemoryStorageBackend.SelectPage` | src/kernel-impl/memory/storage.ts:78-99 | Filter, sort and slice give the page of the exact listing |
| `Storage.MemoryStorageBackend.List` | src/kernel-impl/memory/storage.ts:70-100 | The page, its total and hasMore, and no visible change |
| `Storage.MemoryStorageBackend.AtomicUpdate` | src/kernel-impl/memory/storage.ts:102-112 | Uninterrupted: stores what the updater makes of the current value, and nothing when it throws |
| `Storage.MemoryStorageBackend.BatchGet` | src/kernel-impl/memory/storage.ts:114-126 | Exactly the requested keys that are present |
| `Storage.MemoryStorageBackend.SelectKeys` | src/kernel-impl/memory/storage.ts:119-125 | The loop over the requested keys finds exactly those present, with their values |
| `Storage.MemoryStorageBackend.BatchSet` | src/kernel-impl/memory/storage.ts:128-136 | Sets all pairs, later ones over earlier ones |
| `Storage.MemoryStorageBackend.ReadAllPages` | src/embedding/api-key/impl/storage-api-key.ts:145-157 | The paging loop of the managers ends and collects the whole listing, each entry once and in order, for any positive page size |
| `ApiKeys.ListedAreShown` | src/embedding/api-key/impl/storage-api-key.ts:158-163 | What is listed before paging: the key rows that are not revoked, or all of them when asked for |
| `ApiKeys.StorageApiKeyManager.CreateKey` | src/embedding/api-key/impl/storage-api-key.ts:72-99 | Writes the row and its index entry and returns the raw key |
| `ApiKeys.StorageApiKeyManager.Validate` | src/embedding/api-key/impl/storage-api-key.ts:101-128 | Unknown, revoked, expired or valid, checked in that order; a valid key is stamped |
| `ApiKeys.StorageApiKeyManager.RevokeKey` | src/embedding/api-key/impl/storage-api-key.ts:130-138 | Revokes once; says whether the key exists |
| `ApiKeys.StorageApiKeyManager.RotateKey` | src/embedding/api-key/impl/storage-api-key.ts:171-184 | Revokes and creates with the old key's name, scopes and expiry; fails without change for an unknown id |
| `ApiKeys.StorageApiKeyManager.ListKeys` | src/embedding/api-key/impl/storage-api-key.ts:140-169 | The page of the shown keys, newest first |
| `ApiKeyRuns.ValidateExactly` | src/embedding/api-key/impl/storage-api-key.ts:101-128 | After any run, a raw key is valid in a tenant if and only if it was created there, is not revoked and its expiry is still to come; revoked, expired and unknown each have their own exact condition, in that order, and the answer carries the id and scopes it was created with |
| `ApiKeyRuns.NeverValidAgain` | src/embedding/api-key/impl/storage-api-key.ts:101-138 | An issued key that is invalid is never valid again |
| `ApiKeyRuns.RotateReplaces` | src/embedding/api-key/impl/storage-api-key.ts:171-184 | Rotation ends the old key at once and issues one with the same name, scopes and expiry that is valid exactly until that expiry |
| `ApiKeyRuns.CreatedRowSays` | src/embedding/api-key/impl/storage-api-key.ts:72-88 | A created key's row holds its input, hash, prefix and time, and nothing has happened to it |
| `ApiKeyRuns.ValidationStamps` | src/embedding/api-key/impl/storage-api-key.ts:117-121 | A validation stamps the row of a key it accepts and changes nothing else |
| `ApiKeyRuns.RevocationStamps` | src/embedding/api-key/impl/storage-api-key.ts:130-138 | A revocation stamps the row with its time, once |
| `ApiKeyRuns.IndexMatchesRows` | src/embedding/api-key/impl/storage-api-key.ts:72-138 | In every reachable state an index entry h:hash names an id if and only if that id's row carries that hash |
| `ApiKeyRuns.ListsOnce` | src/embedding/api-key/impl/storage-api-key.ts:140-169 | and each of them once, from the newest to the oldest |
| `ApiKeyRuns.RunKeepsInv` | src/embedding/api-key/impl/storage-api-key.ts:72-184 | Rows and index entries stay in bijection in every run, as long as the hash tells the issued keys apart |
| `ApiKeyRuns.ListsExactly` | src/embedding/api-key/impl/storage-api-key.ts:140-169 | The listing shows exactly the tenant's keys, without revoked ones unless asked for |
| `Revocations.RevocationSurvivesExactly` | src/embedding/api-key/impl/storage-api-key.ts:117-138 | With atomicUpdate in its two steps and only validations acting on the row afterwards: a revocation holds at every later moment if and only if no validation that began before it, and had not seen the row revoked, writes after it |
| `Revocations.StaysRevoked` | src/embedding/api-key/impl/storage-api-key.ts:117-138 | Without such a validation the row is revoked at each later moment |
| `Revocations.OverlappingRevocationIsLost` | src/embedding/api-key/impl/storage-api-key.ts:117-138 | The shortest run that loses a revocation, so one manager call at a time is a real condition |
| `Checkpoints.ListsExactly` | src/reliability/checkpoint/impl/storage-checkpoint.ts:86-108 | Listing a target gives exactly the saved checkpoints of its type whose target id is the same or continues it after a colon; without colons in target ids, exactly the target's |
| `Checkpoints.ListsOnce` | src/reliability/checkpoint/impl/storage-checkpoint.ts:86-108 | Each of them once, from the newest to the oldest |
| `Checkpoints.ListInOrder` | src/reliability/checkpoint/impl/storage-checkpoint.ts:86-108 | Every match of the prefix is listed exactly once, by creation time, then time of storing, then place in the Map |
| `Checkpoints.LatestInRun` | src/reliability/checkpoint/impl/storage-checkpoint.ts:70-77 | After any run the first of the list was created later than every other, or stored later in the same millisecond, or, if both times agree, saved earlier |
| `Checkpoints.LatestIsFirstSaved` | src/reliability/checkpoint/impl/storage-checkpoint.ts:70-77 | Two checkpoints of a target saved in one millisecond: the first of them is the latest |
| `Checkpoints.SaveOrderKept` | src/reliability/checkpoint/impl/storage-checkpoint.ts:35-84 | In every run the order of the Map is the order in which its checkpoints were saved |
| `Checkpoints.LoadIsLookup` | src/reliability/checkpoint/impl/storage-checkpoint.ts:54-68 | Loading by id finds exactly the checkpoint saved under it, which is therefore the only one deleted |
| `Checkpoints.PrefixMatchesExactly` | src/reliability/checkpoint/impl/storage-checkpoint.ts:12-14 | Which stored keys a target's prefix picks out, in both directions |
| `Checkpoints.ColonsMixTargets` | src/reliability/checkpoint/impl/storage-checkpoint.ts:12-14 | With a colon in a target id another target's checkpoints are picked out too |
| `Checkpoints.RunKeepsInv` | src/reliability/checkpoint/impl/storage-checkpoint.ts:35-84 | In every run each saved checkpoint has exactly one row, under its own key |
| `Checkpoints.SavedSays` | src/reliability/checkpoint/impl/storage-checkpoint.ts:35-51 | A saved checkpoint holds what it was saved with; lists left out are empty; its key names type, target and id |
| `Checkpoints.StorageCheckpointManager.Save` | src/reliability/checkpoint/impl/storage-checkpoint.ts:35-52 | Stores the checkpoint under its key and nothing else |
| `Checkpoints.StorageCheckpointManager.ScanPage` | src/reliability/checkpoint/impl/storage-checkpoint.ts:60-62 | The first checkpoint with the id in one page |
| `Checkpoints.StorageCheckpointManager.LoadPage` | src/reliability/checkpoint/impl/storage-checkpoint.ts:57-66 | One page settles the search, or leaves it to the entries after the page |
| `Checkpoints.StorageCheckpointManager.Load` | src/reliability/checkpoint/impl/storage-checkpoint.ts:54-68 | The paging loop finds the first one with the id in the whole listing |
| `Checkpoints.StorageCheckpointManager.List` | src/reliability/checkpoint/impl/storage-checkpoint.ts:86-108 | The prefix listing, newest first |
| `Checkpoints.StorageCheckpointManager.LoadLatest` | src/reliability/checkpoint/impl/storage-checkpoint.ts:70-77 | Its first element |
| `Checkpoints.StorageCheckpointManager.Delete` | src/reliability/checkpoint/impl/storage-checkpoint.ts:79-84 | Removes the row of the checkpoint found by id and no other |
| `Knowledge.RunRefines` | src/collaboration/knowledge/impl/storage-knowledge.ts:59-113 | With colon-free namespaces and calls that do not overlap, in every run the store is a map from (namespace, key) and ids are unique |
| `Knowledge.SetKeepsIdentity` | src/collaboration/knowledge/impl/storage-knowledge.ts:69-95 | A call that is not overlapped by another keeps an existing entry's id, creation time and creator and touches no other entry; a new entry gets the new id |
| `Knowledge.DeleteRemovesOne` | src/collaboration/knowledge/impl/storage-knowledge.ts:97-113 | With calls that do not overlap, deleting by id removes exactly the one entry that has it |
| `Knowledge.SearchFindsExactly` | src/collaboration/knowledge/impl/storage-knowledge.ts:115-134 | Before paging, a search has found exactly the stored entries that the query selects |
| `Knowledge.SavedSays` | src/collaboration/knowledge/impl/storage-knowledge.ts:69-92 | The entry saved takes each field from the input, else from the entry that was there, else from the defaults |
| `Knowledge.SelectsSays` | src/collaboration/knowledge/impl/storage-knowledge.ts:126-132 | A query selects by its namespace if it names one, by all of its tags, and by its text |
| `Knowledge.FilterConcat` | src/collaboration/knowledge/impl/storage-knowledge.ts:126-136 | A search finds entries in the order of the listing |
| `Knowledge.CompositeKeysClashExactly` | src/collaboration/knowledge/impl/storage-knowledge.ts:18-20 | Two entries share a row if and only if they are the same or one namespace continues the other after a colon and the keys make up for it |
| `Knowledge.PlainNamespacesNeverClash` | src/collaboration/knowledge/impl/storage-knowledge.ts:18-20 | Colon-free namespaces never clash |
| `Knowledge.ColonsMixNamespaces` | src/collaboration/knowledge/impl/storage-knowledge.ts:69-95 | With a colon in a namespace one entry can overwrite another and take over its id |
| `Knowledge.StorageKnowledgeStore.Get` | src/collaboration/knowledge/impl/storage-knowledge.ts:59-67 | The entry under the composite key |
| `Knowledge.StorageKnowledgeStore.Set` | src/collaboration/knowledge/impl/storage-knowledge.ts:69-95 | Stores and returns the merged entry under the composite key |
| `Knowledge.StorageKnowledgeStore.ScanPage` | src/collaboration/knowledge/impl/storage-knowledge.ts:99-109 | The first entry with the id in one page |
| `Knowledge.StorageKnowledgeStore.Delete` | src/collaboration/knowledge/impl/storage-knowledge.ts:97-113 | The paging loop removes the row of the first entry with the id |
| `Knowledge.StorageKnowledgeStore.Search` | src/collaboration/knowledge/impl/storage-knowledge.ts:115-142 | The page of all matching entries, with total and hasMore |
| `Overwrites.IdentityKeptExactly` | src/collaboration/knowledge/impl/storage-knowledge.ts:69-95 | Overlapping calls of set, each reading in one step and writing in another, none drawing an id that is stored when it writes: once there is an entry its id never changes, if and only if no call that saw no entry writes over one |
| `Overwrites.IdStays` | src/collaboration/knowledge/impl/storage-knowledge.ts:69-95 | Without such a call the id at any moment is the id at every later one |
| `Overwrites.TakeoverChangesId` | src/collaboration/knowledge/impl/storage-knowledge.ts:69-95 | and such a call changes it |
| `Overwrites.OverlappingSetsReplaceId` | src/collaboration/knowledge/impl/storage-knowledge.ts:69-95 | Two callers that set a new key at once: the second write replaces the first caller's id |
| `Globs.TranslatesExactlyWithoutQuestionMark` | src/kernel-impl/memory/event-bus.ts:67-73 | The translated text is a well-formed regular expression that accepts exactly the strings of the glob (a star is any dot-free run) if and only if the pattern has no question mark |
| `Globs.TranslationPreservesMeaning` | src/kernel-impl/memory/event-bus.ts:67-73 | The same for one string: parsing and matching the produced text is matching the glob |
| `Globs.TranslationIsPiecewise` | src/kernel-impl/memory/event-bus.ts:69-71 | The two replacements in sequence amount to translating character by character |
| `Globs.ParseOfPieces` | src/kernel-impl/memory/event-bus.ts:69-72 | Parsing the produced text gives the terms read off the pattern, question marks included |
| `Globs.ManyTakesRun` | src/kernel-impl/memory/event-bus.ts:71 | A starred term accepts any dot-free run, of any length |
| `Globs.ShortestAccepted` | src/kernel-impl/memory/event-bus.ts:69-72 | A question mark makes the expression accept a string shorter than the glob's literal text, so meaning is lost |
| `Globs.LoneStar` | src/kernel-impl/memory/event-bus.ts:68 | The lone star accepts every non-empty string on a single line |
| `Globs.RedisMatchesExactly` | src/kernel-impl/redis/event-bus.ts:116-122 | The Redis bus matches everything with a lone star, whatever starts with the name and a dot with name.*, and itself with any other pattern |
| `Globs.BusesAgreeOnNames` | src/kernel-impl/redis/event-bus.ts:116-122 | On plain names both buses compare for equality |
| `Globs.BusesDifferOnDepth` | src/kernel-impl/redis/event-bus.ts:116-122 | On name.* the in-process bus accepts exactly those strings of the Redis bus whose last part has no further dot |
| `EventBuses.CalledExactly` | src/kernel-impl/memory/event-bus.ts:26-29 | A publish calls exactly the subscribers whose pattern accepts the event type |
| `EventBuses.KeptExactly` | src/kernel-impl/memory/event-bus.ts:50-63 | and removes exactly the one-shot subscriptions it called |
| `EventBuses.OnceIsOnce` | src/kernel-impl/memory/event-bus.ts:50-63 | A one-shot subscription that was called is never called again |
| `EventBuses.InProcessEventBus.Subscribe` | src/kernel-impl/memory/event-bus.ts:37-42 | Adds a subscriber at the end |
| `EventBuses.InProcessEventBus.Once` | src/kernel-impl/memory/event-bus.ts:50-63 | Adds a one-shot subscriber |
| `EventBuses.InProcessEventBus.Expire` | src/kernel-impl/memory/event-bus.ts:52-55 | The wait is rejected if and only if the event has not come first, and then its subscription alone ends |
| `EventBuses.InProcessEventBus.Unsubscribe` | src/kernel-impl/memory/event-bus.ts:43-46 | The subscribers left are exactly those with another id, still in order of subscription |
| `EventBuses.InProcessEventBus.Publish` | src/kernel-impl/memory/event-bus.ts:26-29 | Each handler whose pattern accepts the event is called once, in order of subscription, and exactly the one-shot subscribers among them are gone afterwards, although they unsubscribe while the handlers run |
| `EventBuses.InOrderUnique` | src/kernel-impl/memory/event-bus.ts:37-48 | Order of subscription and members determine the list, so membership says it all |
| `EventBuses.WithoutExactly` | src/kernel-impl/memory/event-bus.ts:43-46 | Taking out an id leaves exactly the subscribers with another id, in order |
| `Workflows.SimpleWorkflowEngine.RegisterWorkflow` | src/collaboration/workflow/impl/simple-workflow.ts:58-62 | Replaces and stores the definition under its id |
| `Workflows.SimpleWorkflowEngine.StartWorkflow` | src/collaboration/workflow/impl/simple-workflow.ts:64-95 | Stores a new instance, or fails without change for an unknown workflow |
| `Workflows.SimpleWorkflowEngine.Signal` | src/collaboration/workflow/impl/simple-workflow.ts:101-113 | Publishes the instance's own event type on the bus, or fails without change for an unknown instance |
| `Workflows.SimpleWorkflowEngine.AwaitSignal` | src/collaboration/workflow/impl/simple-workflow.ts:152-155 | A waiting instance subscribes once, to its own event type |
| `Workflows.SimpleWorkflowEngine.EnterStep` | src/collaboration/workflow/impl/simple-workflow.ts:120-139 | Past the last step completes, stores and publishes the completion; otherwise notes the step and stores |
| `Workflows.SimpleWorkflowEngine.PerformStep` | src/collaboration/workflow/impl/simple-workflow.ts:141-174 | Suspends and stores at a waiting step, otherwise records the result, moves on and stores |
| `Workflows.SimpleWorkflowEngine.ResumeStep` | src/collaboration/workflow/impl/simple-workflow.ts:152-174 | Records the signal's data, moves on and stores |
| `Workflows.SimpleWorkflowEngine.FailInstance` | src/collaboration/workflow/impl/simple-workflow.ts:178-183 | Stores the failure |
| `WorkflowRuns.EveryStoredStateSound` | src/collaboration/workflow/impl/simple-workflow.ts:64-183 | In every interleaving of many instances, every state ever stored has exactly one result per finished step, in order: id, kind and configuration of an agent task or condition, the note for a parallel step, the answer for a waiting one; completed means all steps; suspended and failed mean at a waiting step |
| `WorkflowRuns.EveryStoredStateTells` | src/collaboration/workflow/impl/simple-workflow.ts:64-183 | Every state ever stored keeps what the instance was started with, has an error if and only if it failed and a completion time if and only if it completed, and names the step it waits at |
| `WorkflowRuns.StartStores` | src/collaboration/workflow/impl/simple-workflow.ts:70-87 | A start stores a running instance at its first step, without results |
| `WorkflowRuns.StepsAreStamped` | src/collaboration/workflow/impl/simple-workflow.ts:105-183 | Finished steps, completion and failure are stamped, and a resumed step records the signal's data |
| `WorkflowRuns.FinalStays` | src/collaboration/workflow/impl/simple-workflow.ts:120-135 | A completed or failed instance is never stored or changed again |
| `WorkflowRuns.ResumesExactly` | src/collaboration/workflow/impl/simple-workflow.ts:101-159 | An event changes an instance if and only if the instance has subscribed and the event is its own signal |
| `WorkflowRuns.AnswersAreOwnSignals` | src/collaboration/workflow/impl/simple-workflow.ts:152-159 | Every recorded answer is the data of an event published for that very instance |
| `WorkflowRuns.SignalCanBeLost` | src/collaboration/workflow/impl/simple-workflow.ts:149-155 | A signal between the storing of the waiting state and the subscription has no effect |
| `WorkflowRuns.SignalLostInRun` | src/collaboration/workflow/impl/simple-workflow.ts:149-155 | A run from the start that ends waiting although the signal was published |
| `WorkflowRuns.EveryChangeDecreases` | src/collaboration/workflow/impl/simple-workflow.ts:115-183 | Every change of an instance lowers a measure built from the steps that are left |
| `WorkflowRuns.ChangesBounded` | src/collaboration/workflow/impl/simple-workflow.ts:115-183 | so an instance of n steps changes at most 5n + 5 times in any run |
| `WorkflowRuns.StandsStillExactly` | src/collaboration/workflow/impl/simple-workflow.ts:115-183 | Its continuation has nothing to do if and only if it waits for a signal or has ended |
| `Cascades.OneTimerPerTask` | src/reliability/timeout/cascade-kill.ts:27-73 | In every run a task has at most one timer pending, re-registration included |
| `Cascades.CallsArePrefix` | src/reliability/timeout/cascade-kill.ts:54-73 | The callbacks of each trigger are signal, abort, kill or a shorter start of that, of the registration the task had when triggered, each no earlier than the sum of the delays up to it |
| `Cascades.CancelOrRetriggerStops` | src/reliability/timeout/cascade-kill.ts:45-58 | A cancel, or another trigger of the registered task, ends the callbacks of every earlier trigger for good |
| `Cascades.DueExactly` | src/reliability/timeout/cascade-kill.ts:59-70 | In every run a pending timer is due exactly its stage's delay after the previous callback, or after the trigger |
| `Cascades.TriggerStarts` | src/reliability/timeout/cascade-kill.ts:54-73 | Triggering a registered task starts a chain at that moment, and triggering any other does nothing |
| `Cascades.FiringCalls` | src/reliability/timeout/cascade-kill.ts:59-67 | A due timer calls its stage's callback of the registration its trigger found |
| `Cascades.RegistersOnly` | src/reliability/timeout/cascade-kill.ts:39-51 | Registering and cancelling change the registration of that task alone |
| `Cascades.StoppedStays` | src/reliability/timeout/cascade-kill.ts:54-73 | A trigger without a pending timer never calls anything again |
| `Cascades.RunsToTheKill` | src/reliability/timeout/cascade-kill.ts:54-73 | A trigger whose task is neither cancelled nor triggered again always has a timer pending until all three callbacks were called |
| `Cascades.OneKillPerRegistration` | src/reliability/timeout/cascade-kill.ts:64-70 | In every run the kill of one registration is called at most once |
| `Cascades.RegistrationSurvivesExactly` | src/reliability/timeout/cascade-kill.ts:39-70 | While nobody registers, cancels or triggers the task, the registration it has, also one made after the trigger, is still there if and only if the chain has not come to its kill |
| `Cascades.NewerRegistrationLost` | src/reliability/timeout/cascade-kill.ts:39-70 | Register, trigger, signal, abort, register again, kill: a run in which the older registration's kill takes the newer one away |
| `Cascades.KillDropsNewerRegistration` | src/reliability/timeout/cascade-kill.ts:64-68 | After a kill the task is unregistered, and triggering it does nothing until it is registered again |
| `Cascades.ClearedExactly` | src/reliability/timeout/cascade-kill.ts:27-37 | Clearing removes every pending timer of the task and no other |
| `Cascades.RunKeepsInv` | src/reliability/timeout/cascade-kill.ts:22-73 | In every run each pending timer is the one its Map knows, for a registered task |
| `Cascades.RunKeepsChains` | src/reliability/timeout/cascade-kill.ts:54-73 | In every run a pending timer is for the next callback of its trigger and due one delay after the previous one |
| `Cascades.CascadeKillManager.ClearTimers` | src/reliability/timeout/cascade-kill.ts:27-37 | Clears the three known timers and forgets them |
| `Cascades.CascadeKillManager.Register` | src/reliability/timeout/cascade-kill.ts:39-45 | Replaces the callbacks, touches no timer |
| `Cascades.CascadeKillManager.Cancel` | src/reliability/timeout/cascade-kill.ts:46-51 | Clears the timers and unregisters whatever is registered |
| `Cascades.CascadeKillManager.TriggerTask` | src/reliability/timeout/cascade-kill.ts:54-73 | Nothing for an unknown task; otherwise clears the old timers and arms the signal |
| `Cascades.CascadeKillManager.Fire` | src/reliability/timeout/cascade-kill.ts:59-70 | One timer callback: calls, then arms the next stage or, after the kill, clears and unregisters |

## Left out

Parts of the repository:

- Redis, BullMQ, Redlock, Postgres and SQL back ends: their behaviour lives in libraries and a database; only `matchPattern` of the Redis bus is modelled.
- REST routes, OIDC, container runtimes, metrics, log and webhook sinks, plugin wiring: input and output.
- Role-based access control and the regex classifier: they rest on an external library and on general regular expressions.
- Task and handoff state machines, scope policy, network allowlist, health checks, middleware, audit buffering, retry delays: they decide one request at a time from tables or configuration, or buffer and report, and coordinate no overlapping calls.
- `initialize` and `shutdown` of every component, and the intervals that call the sweeps: sweeps are events that may happen at any time.
- Cache `increment`, `has`, `delete` and `setIfAbsent`; storage `transaction`; the queue's paging over dead letters: not used by the behaviour modelled.

Parts of the components:

- SHA-256, JSON and Date conversion, random raw keys: an arbitrary hash that tells the issued keys apart, integer times, fresh values.
- Throwing or re-entrant callbacks (`onStateChange`, event handlers, cascade callbacks, election handlers): only the outcome of a protected call, a queue handler or an update function is modelled.
- The breaker's call timeout: a timed-out call is a failed completion; the late result of its function reaches nothing.
- The queue's visibility timeout: the source records a deadline and never acts on it.
- Awaits on calls that have already settled are not separate steps, except in an election's acquisition, in workflows, and in `SplitUpdates`, `LateFills`, `Revocations` and `Overwrites`. So overlapping rotations of one API key, a deletion by id that overlaps other writes of the same entry, and paging over a collection that changes meanwhile are not modelled.
- Storage ordering by key (`localeCompare`), and negative offsets or limits: the managers use none of them.
- Matching of free text in knowledge search: a predicate given by the query, because it rests on case folding.
- In workflow runs, the handlers of other subscribers (of `workflow.completed`, say), and a second registration of a definition while instances run: nothing in the engine reads them.
- Workflow instances whose ids hold `*` or `?`: ids are UUIDs.

Contracts that say less than the whole operation:

- Locks.InProcessLockBackend.AcquireWithRetry: what others do to the table between polls is an argument (one table and one clock reading per poll), because it is not decided by the caller; in runs a waiting call appears as its attempts.
- Locks.InProcessLockBackend.Acquire: the same.
- Elections.LeaderElection.RenewTick: the await between the extension and the change of the flag is not a step of its own.
- Elections.LeaderElection.Resign: nor is the one between the release and the change of the flag.
- Queues.MemoryQueueBackend.EnqueueMessage: the timer that makes subscribers look at once is not part of the state; a poll may happen at any time in the drain theorems.
- Queues.MemoryQueueBackend.Subscribe: nor is the polling interval.
- Storage.MemoryStorageBackend.List: ordering by key and negative offsets are not modelled, as said above.
- Storage.MemoryStorageBackend.SelectPage: the same.
- ApiKeys.StorageApiKeyManager.ListKeys: gives whole rows; `toInfo` only leaves out the hash and the metadata.
- Knowledge.StorageKnowledgeStore.Search: the free-text match is a predicate of the query, as said above.
- Knowledge.SearchFindsExactly: the same.
- QuotaRuns.CountersMatch: one call is one step; overlapping updates are the subject of `SplitUpdates`.
- QuotaRuns.QuotaBound: the same.
- QuotaAnswers.ConsumeGrantsExactly: the same, as for the other theorems of that module; windows have positive length and key parts no colon.
- QuotaRuns.CacheTransparent: one call is one step; overlapping cache writes are the subject of `LateFills`.
- QuotaRuns.CheckPredictsConsume: the same.
- Quotas.TokenQuotaManager.CheckQuota: stated for windows of positive length, with the awaits of the call merged.
- Quotas.TokenQuotaManager.GetQuotaUsage: the same.
- Knowledge.RunRefines: one call is one step; overlapping calls of `set` are the subject of `Overwrites`.
- Knowledge.SetKeepsIdentity: the same.
- Knowledge.DeleteRemovesOne: one call is one step.
- Knowledge.StorageKnowledgeStore.Set: the await between reading and storing is merged here and a step of its own in `Overwrites`.
- Quotas.UsageStorage: the usage collection is a plain map from tenant and row key to the counter, because creation and update times of its rows are never read.
- Workflows.InstanceStore.Set: stores a snapshot; the source stores the object itself, which changes only in the synchronous stretch before the next `set`.
- RateLimiters.RateBound: says nothing of runs with resets or non-positive amounts, because both take back what a window has counted.
- Quotas.TokenQuotaManager.ConsumeQuota: like the manager's other calls it is stated for windows of positive length, because the source divides by it and a zero length makes every window NaN; amounts are integers, and the update is one step here and two in `SplitUpdates`.
- ApiKeyRuns.RunKeepsInv: one manager call is one step, as in the other theorems of that module; `Revocations` has overlapping ones.
- Checkpoints.RunKeepsInv: one manager call is one step, as in the other theorems of that module.
