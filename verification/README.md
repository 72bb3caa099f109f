# Proofs about the LLM gateway's shared-state protocols

The gateway runs as many stateless processes over one Redis and one Postgres. These modules model its
protocols as state machines whose single steps are one Redis command, one WATCH/EXEC commit, one SQL
statement, one clock reading, one key expiry or the death of a process, taken by any number of clients
in any order. What is proved holds of every run of those machines. Beside each machine stands the code
in its own shape: classes whose methods are the source's loops, with everybody else free to take any
steps before each of their commands, proved against the machine.

| file | models |
|---|---|
| `CircuitBreaker.dfy` | four keys, four optimistic transactions, the plain INCR path, opaque trial tokens |
| `TokenBucket.dfy` | lazy refill, the eager bucket it stands for, the optimistic transaction, expiry, retry hints |
| `Budget.dfy` | reserve, true-up, and the two-step reconciliation against an append-only ledger |
| `JobScheduler.dfy` | leases, lock tokens, attempts, the sweep, the poll loop |
| `BatchPipeline.dfy` | queue, drain loop, job re-claims, the handler's idempotency guard, the tracking row |
| `RequestScheduler.dfy` | INCR/DECR admission; two sorted-set queues drained in strict priority |
| `ConfigCache.dfy` | cache-aside reads, publish invalidation, cache keys and invalidation messages |
| `Utf8.dfy`, `Json.dfy`, `Sse.dfy` | the event stream's printer and its two clients, byte by byte |
| `Routing.dfy`, `Streaming.dfy` | candidate loops, retry policy, streaming fail-over, the Groq adapter's stream |
| `Pagination.dfy` | keyset pagination of a growing log |
| `Wrappers.dfy` | an option type |

## Where the code and its promises part

- A rate-limit bucket recreated after expiry starts its refill grid anew, so it can admit a sequence the
  old bucket would have refused. It never does exactly if it is recreated on the old grid
  (`ExpiryIsInvisibleExactlyOnTheGrid`).
- The breaker dates an opening with a clock reading taken before EXEC. The cooldown runs from that
  reading; after the commit nothing is guaranteed (`CooldownFromCommit`, `GrantCanFollowOpeningAtOnce`).
- Not open to open is meant to happen by the threshold only. A failing trial can do it too, exactly if
  `state` expired while the trial held the lock and no threshold commit has opened it since
  (`LateTrialMeetsLapsedState`, `LateTrialCanOpen`); otherwise the threshold is the only way
  (`ThresholdAloneOpens`).
- The rate limit's bound on a window holds for clock readings. Counted at the instants tokens are taken,
  the first call of the window comes on top exactly if it read the clock before the window
  (`AdmissionBoundAtCommits`, `StragglerComesOnTop`).
- The Python client raises on a stream cut inside a multi-byte character; the Node client does not.
- A job enqueued with maxAttempts below one is never claimed and never swept (`HopelessJobIsStuck`).
- A ticket can be drained and its job finished before its tracking row exists, which leaves an accepted
  batch pending for ever (`EarlyDrainStrandsBatch`); a batch whose only claimer dies stays processing
  (`CrashedClaimStaysProcessing`).
- A batch whose tracking row could not be created is said to execute all the same
  (`packages/api/src/routes/batches.routes.ts:112-113`). Its handler's guard matches no row, so it is not
  routed unless a markProcessing call throws (`RoutingRunsBounded`); with such throws it can be routed
  more than once.
- A cache fill that straddles a write and its invalidation leaves the old value cached until its TTL
  (`StraddlingFillGoesStale`, `StalenessBound`).
- A limit of zero makes the audit log listing stop at once with an empty page (`ZeroLimitShowsNothing`).

## Assumptions

One monotone clock and a fixed policy. Each SQL statement is atomic; WATCH/EXEC, SET NX, INCR and
ZPOPMIN have their documented effect, an EXEC committing only if no watched key was written or expired
since WATCH. Random identifiers are fresh. The breaker's clock starts more than one cooldown after the
epoch, and its `state` and `openedAt`, always set together with one TTL, expire in one step. Budget
results hold until the end of the period, which every TTL reaches. Whatever a port, a peer or the
network may do is an arbitrary input.

## Model

| member | source | states |
|---|---|---|
| `CircuitBreaker.NextKeepsInv` | packages/adapters-redis/src/circuit-breaker/redis-circuit-breaker.ts:86-285 | Every command, EXEC, expiry and crash of any client keeps: `state` is open exactly when `openedAt` is set, it is never dated in the future, and a client whose watched version is current has read the current values. |
| `CircuitBreaker.CounterCountsFailures` | packages/adapters-redis/src/circuit-breaker/redis-circuit-breaker.ts:126-128 | Along every run the counter equals the failures INCRed since a success last closed the breaker or the counter's TTL ran out, counted off the steps. |
| `CircuitBreaker.OnlyThreeTransitions` | packages/adapters-redis/src/circuit-breaker/redis-circuit-breaker.ts:105-132 | The breaker opens only by a threshold commit with at least failureThreshold failures since the last reset or by a failing trial holding the lock, closes only by a succeeding trial holding it or by expiry, and is re-dated only by a failing trial holding it. |
| `CircuitBreaker.NormalReportsLeaveOpenBreakerAlone` | packages/adapters-redis/src/circuit-breaker/redis-circuit-breaker.ts:226-285 | No step of a report without a token, however stale, closes or re-dates an open breaker or touches its trial lock. |
| `CircuitBreaker.LockStep` | packages/adapters-redis/src/circuit-breaker/redis-circuit-breaker.ts:156-171 | The trial lock changes only by a grant on an open, cooled breaker, by the report of the token in it, or by its expiry. |
| `CircuitBreaker.GrantsWaitForCooldown` | packages/adapters-redis/src/circuit-breaker/redis-circuit-breaker.ts:150-160 | No trial is granted unless the breaker is open and cooldownMs has passed since the opening in force; the token is fresh and the opening is not changed. |
| `CircuitBreaker.LockLastsUntilSpent` | packages/adapters-redis/src/circuit-breaker/redis-circuit-breaker.ts:156-224 | From a grant on, the lock keeps that token until it is reported or trialLockTtlMs has passed. |
| `CircuitBreaker.GrantsAreSeparated` | packages/adapters-redis/src/circuit-breaker/redis-circuit-breaker.ts:136-224 | Between two half-open grants the first token was reported or trialLockTtlMs passed. |
| `CircuitBreaker.TokensNeverReturn` | packages/adapters-redis/src/circuit-breaker/redis-circuit-breaker.ts:156 | A token that is no longer in the lock is never in it again. |
| `CircuitBreaker.TokenSpentOnce` | packages/adapters-redis/src/circuit-breaker/redis-circuit-breaker.ts:183-224 | Each trial token drives at most one transition. |
| `CircuitBreaker.SupersededReportChangesNothing` | packages/adapters-redis/src/circuit-breaker/redis-circuit-breaker.ts:194-198 | A report whose token is not in the lock leaves all four keys as they are. |
| `CircuitBreaker.LiveLockPinsOpening` | packages/adapters-redis/src/circuit-breaker/redis-circuit-breaker.ts:136-224 | While the lock holds a token, the breaker is open with the openedAt the token was issued for, unless `state` expired meanwhile; before the instant `state` was due to expire at the grant it cannot have. |
| `CircuitBreaker.LateTrialMeetsLapsedState` | packages/adapters-redis/src/circuit-breaker/redis-circuit-breaker.ts:200-207 | A trial reports on a breaker that is not open if and only if `state` expired while the trial held the lock and no threshold commit has opened it since; a report before the instant `state` was due to expire at the grant meets the opening it was granted for. |
| `CircuitBreaker.ThresholdAloneOpens` | packages/adapters-redis/src/circuit-breaker/redis-circuit-breaker.ts:183-285 | Unless an open `state` has expired, only a commit with at least failureThreshold failures since the last reset opens, only a succeeding trial closes, and only a failing trial re-dates. |
| `CircuitBreaker.LateTrialCanOpen` | packages/adapters-redis/src/circuit-breaker/redis-circuit-breaker.ts:203-207 | A run in which that happens: a failing trial opens a breaker that was not open, below the failure threshold. |
| `CircuitBreaker.AnswersAreTrueInsideTheCall` | packages/adapters-redis/src/circuit-breaker/redis-circuit-breaker.ts:86-178 | Every answer of checkAndReserve but the retry-exhausted one is true of the breaker at some instant inside the call, in spite of its separate reads. |
| `CircuitBreaker.AttemptsAreAborts` | packages/adapters-redis/src/circuit-breaker/redis-circuit-breaker.ts:138-175 | A call makes one attempt per aborted EXEC, at most five, and gives the retry-exhausted answer only after five. |
| `CircuitBreaker.UndisturbedNeverAborts` | packages/adapters-redis/src/circuit-breaker/redis-circuit-breaker.ts:140-165 | No EXEC of a call is aborted unless somebody else writes a key, or one expires, during it. |
| `CircuitBreaker.ReportsConclude` | packages/adapters-redis/src/circuit-breaker/redis-circuit-breaker.ts:105-285 | Every report either takes effect in one commit, stated field by field and dated inside the call, or met at some instant a breaker that gave it nothing to do (for a failure, after it was counted), or was aborted five times. |
| `CircuitBreaker.FailuresAreCounted` | packages/adapters-redis/src/circuit-breaker/redis-circuit-breaker.ts:126-129 | A failure reported without a token is counted exactly one up and the counter's TTL renewed after that, before anything else is decided. |
| `CircuitBreaker.OpenExactlyWhenDated` | packages/adapters-redis/src/circuit-breaker/redis-circuit-breaker.ts:200-207 | In every reachable state `state` is open exactly when `openedAt` is present, and not in the future. |
| `CircuitBreaker.CooldownFromCommit` | packages/adapters-redis/src/circuit-breaker/redis-circuit-breaker.ts:268-273 | A grant comes at least cooldownMs after the clock reading that dates the opening, hence cooldownMs less that reading's age after the commit. |
| `CircuitBreaker.GrantCanFollowOpeningAtOnce` | packages/adapters-redis/src/circuit-breaker/redis-circuit-breaker.ts:268-273 | For every cooldown, a run in which a trial is granted at the very millisecond of the opening's commit: the bound above is tight. |
| `CircuitBreaker.RedisCircuitBreaker.TryClaimTrial` | packages/adapters-redis/src/circuit-breaker/redis-circuit-breaker.ts:136-178 | The retry loop as written, under any interference: a grant takes the free lock of an open, cooled breaker and changes nothing else; every other answer changes nothing. |
| `CircuitBreaker.RedisCircuitBreaker.CheckAndReserve` | packages/adapters-redis/src/circuit-breaker/redis-circuit-breaker.ts:86-103 | The call as written: its answer is true of the breaker at some instant inside the call, or five of its transactions were aborted. |
| `CircuitBreaker.RedisCircuitBreaker.ResolveTrial` | packages/adapters-redis/src/circuit-breaker/redis-circuit-breaker.ts:183-224 | As written: one commit that meets the token in the lock frees it and closes the breaker, forgetting failures and opening, or opens it anew, dated by a clock reading; otherwise nothing changes. |
| `CircuitBreaker.RedisCircuitBreaker.CloseIfNotOpen` | packages/adapters-redis/src/circuit-breaker/redis-circuit-breaker.ts:228-252 | As written: one commit that meets the breaker not open closes it and forgets its failures, leaving the lock; otherwise nothing changes. |
| `CircuitBreaker.RedisCircuitBreaker.OpenIfThresholdStillCrossed` | packages/adapters-redis/src/circuit-breaker/redis-circuit-breaker.ts:257-285 | As written: the breaker is opened in one commit that meets it not open and the counter at or above the threshold, or nothing changes. |
| `CircuitBreaker.RedisCircuitBreaker.RecordSuccess` | packages/adapters-redis/src/circuit-breaker/redis-circuit-breaker.ts:105-116 | With a token only that trial is resolved; without one only a breaker that is not open is closed, its failures forgotten; the report concludes. |
| `CircuitBreaker.RedisCircuitBreaker.RecordFailure` | packages/adapters-redis/src/circuit-breaker/redis-circuit-breaker.ts:118-132 | With a token only that trial is resolved; without one the failure is counted and the breaker opened if the threshold is still crossed; the report concludes. |
| `TokenBucket.RefillCatchesUp` | packages/adapters-redis/src/rate-limiting/redis-token-bucket-algorithm.ts:30-37 | A refill leaves the next boundary ahead of the clock and the tokens between zero and the capacity. |
| `TokenBucket.LazyIsEager` | packages/adapters-redis/src/rate-limiting/redis-token-bucket-algorithm.ts:26-37 | The floor arithmetic equals firing a timer, min(capacity, tokens + refillTokens), at every interval boundary up to now. |
| `TokenBucket.LazyRefinesEager` | packages/adapters-redis/src/rate-limiting/redis-token-bucket-algorithm.ts:22-58 | For every sequence of calls the lazy bucket gives the eager bucket's answers, remainders and retry hints. |
| `TokenBucket.LazyRefinesEagerFromCreation` | packages/adapters-redis/src/rate-limiting/redis-token-bucket-algorithm.ts:27-28 | The same from an absent key: a bucket created full at its first call. |
| `TokenBucket.RetryHintIsSufficientAndTight` | packages/adapters-redis/src/rate-limiting/redis-token-bucket-algorithm.ts:57-74 | With no other traffic a refused cost is affordable at any time from now + retryAfterMs on, and not at any time a refill interval or more earlier. |
| `TokenBucket.RetryHintFallsDueBeforeExpiry` | packages/adapters-redis/src/rate-limiting/redis-token-bucket-algorithm.ts:67-84 | The hint is positive and at most half the idle TTL. |
| `TokenBucket.AnswerSays` | packages/adapters-redis/src/rate-limiting/redis-token-bucket-algorithm.ts:39-58 | A call is admitted if and only if the tokens found cover the cost, and takes exactly that; otherwise it takes nothing and is told the fewest whole intervals whose refills cover what is missing. |
| `TokenBucket.FullAfterIdleTtl` | packages/adapters-redis/src/rate-limiting/redis-token-bucket-algorithm.ts:78-84 | A bucket idle for its TTL has refilled completely. |
| `TokenBucket.ExpiryIsInvisibleExactlyOnTheGrid` | packages/adapters-redis/src/rate-limiting/redis-token-bucket-algorithm.ts:27-36 | A bucket recreated after its TTL admits no request sequence the old bucket would refuse if and only if it is recreated on the old bucket's refill grid. |
| `TokenBucket.CommitsAreAtomic` | packages/adapters-redis/src/rate-limiting/redis-token-bucket-algorithm.ts:22-58 | A call whose EXEC commits has decided on the very bucket stored at that instant; an aborted one changed nothing; clock readings commit in nondecreasing order. |
| `TokenBucket.ConcurrentRunsRefineEagerBucket` | packages/adapters-redis/src/rate-limiting/redis-token-bucket-algorithm.ts:22-58 | Short of expiry, the committed answers of any number of racing clients are those of one eager bucket asked in commit order. |
| `TokenBucket.AdmissionBound` | packages/adapters-redis/src/rate-limiting/redis-token-bucket-algorithm.ts:18-84 | In every run, with aborts, crashes and expiry, calls whose clock reading lies in a window of length W are admitted for at most capacity + (floor(W / interval) + 1) * refillTokens. |
| `TokenBucket.AdmissionBoundAtCommits` | packages/adapters-redis/src/rate-limiting/redis-token-bucket-algorithm.ts:18-65 | Measured at the instants of the commits, only the window's first commit can come on top, costing at most the capacity, and it does exactly if an admitted call read the clock before the window and committed in it. |
| `TokenBucket.StragglerComesOnTop` | packages/adapters-redis/src/rate-limiting/redis-token-bucket-algorithm.ts:29-58 | A run in which it does: twenty tokens at one instant where the bound without it gives eleven. |
| `TokenBucket.RedisTokenBucketAlgorithm.RefillLocals` | packages/adapters-redis/src/rate-limiting/redis-token-bucket-algorithm.ts:26-37 | The refill on its two locals, as written, computes the bucket the specification finds. |
| `TokenBucket.RedisTokenBucketAlgorithm.TryOnce` | packages/adapters-redis/src/rate-limiting/redis-token-bucket-algorithm.ts:23-57 | One WATCH to EXEC attempt: committed with what the eager bucket it meets says, leaving that bucket for the idle TTL, or aborted without effect; never aborted if nobody else steps. |
| `TokenBucket.RedisTokenBucketAlgorithm.CheckAndConsume` | packages/adapters-redis/src/rate-limiting/redis-token-bucket-algorithm.ts:18-65 | The retry loop under any interference: decision, remainder and hint are those of the eager bucket met at EXEC, or five of its EXECs were aborted and nothing was consumed; undisturbed, the former. |
| `Budget.NextKeepsInv` | packages/adapters-redis/src/budget/redis-budget-counter-store.ts:21-82 | Until the period ends, the counter is the hard limit less what each request has taken since the last reconciliation, whatever interleaves. |
| `Budget.Conservation` | packages/adapters-redis/src/budget/redis-budget-counter-store.ts:21-78 | Without reconciliation the counter is exactly the hard limit less the debited costs less one reservation per granted, undebited request. |
| `Budget.AdmissionWithinLimit` | packages/adapters-redis/src/budget/redis-budget-counter-store.ts:31-45 | At each admission the debited spend and all outstanding reservations, the new one included, are within the hard limit. |
| `Budget.FinalSpendBound` | packages/application/src/budget/default-budget-enforcer.ts:51-130 | Spend exceeds the hard limit by at most the sum of cost - reservation over requests outstanding at the latest admission that cost more than they reserved. |
| `Budget.DriftIsBounded` | packages/application/src/budget/default-budget-enforcer.ts:134-170 | With the ledger sum and the overwrite as two steps, the settled counter differs from hard limit less true spend by at most max(cost, reservation) per request overlapping the last reconciliation. |
| `Budget.QuietReconcileIsExact` | packages/application/src/budget/default-budget-enforcer.ts:154-169 | A reconciliation overlapping no request leaves exactly the hard limit less the whole ledger, whatever true-ups were lost before. |
| `Budget.RedisBudgetCounterStore.Reserve` | packages/adapters-redis/src/budget/redis-budget-counter-store.ts:21-52 | The reserve loop under any interference: an admission takes exactly the reservation from a counter that covers it; a refusal writes nothing, and met a counter short of it or had five EXECs aborted; undisturbed, it admits exactly if the counter, or the limit of an absent one, covers it. |
| `Budget.RedisBudgetCounterStore.Adjust` | packages/adapters-redis/src/budget/redis-budget-counter-store.ts:54-78 | The true-up loop: it moves the counter by exactly cost - reservation at one instant, or is lost without a write because there was no counter or five EXECs were aborted; undisturbed, only for want of a counter. |
| `Budget.RefusalsAreExplained` | packages/adapters-redis/src/budget/redis-budget-counter-store.ts:28-78 | Along every run, a request makes one attempt per aborted EXEC; it is refused only after meeting a counter short of the reservation, and its true-up lost only after meeting none, or after five aborts. |
| `Budget.RedisBudgetCounterStore.Reconcile` | packages/application/src/budget/default-budget-enforcer.ts:134-170 | The counter is overwritten with the hard limit less exactly what the ledger held when it was summed, at an earlier step. |
| `JobScheduler.NextKeepsInv` | packages/adapters-postgres/src/job-scheduler/postgres-job-scheduler.ts:126-216 | Enqueue, sweep, claim, handler start and report of any number of workers keep every row and claim sound; each claim of a job used an attempt number of its own. |
| `JobScheduler.RowsAreSound` | packages/adapters-postgres/src/job-scheduler/postgres-job-scheduler.ts:126-216 | RUNNING holds exactly when lock token and lease are set; attempts never exceed maxAttempts; FAILED means all attempts were used. |
| `JobScheduler.ClaimAndSweepPartitionDueRows` | packages/adapters-postgres/src/job-scheduler/postgres-job-scheduler.ts:126-157 | Claim and sweep never apply to the same row; every due PENDING and every lease-expired RUNNING row is due for one of them if and only if it is running or was enqueued with maxAttempts of at least one. |
| `JobScheduler.HopelessJobIsStuck` | packages/adapters-postgres/src/job-scheduler/postgres-job-scheduler.ts:145-146 | A PENDING row with maxAttempts below one is never acted on again. |
| `JobScheduler.RowStep` | packages/adapters-postgres/src/job-scheduler/postgres-job-scheduler.ts:126-216 | The only changes of a row: a claim of a claimable row, a sweep of an exhausted one, a report carrying the token in the row. |
| `JobScheduler.RowChanges` | packages/adapters-postgres/src/job-scheduler/postgres-job-scheduler.ts:126-216 | Each change stated column by column: only a due row or one whose lease has run out is claimed, with an attempt left; only one without is swept; and a report takes over its outcome, retrying while attempts are left. |
| `JobScheduler.ClaimStep` | packages/adapters-postgres/src/job-scheduler/postgres-job-scheduler.ts:139-157 | New claims arise only from claimable rows; a claim never changes job. |
| `JobScheduler.TerminalForever` | packages/adapters-postgres/src/job-scheduler/postgres-job-scheduler.ts:182-208 | SUCCEEDED and FAILED rows never change. |
| `JobScheduler.SupersededReportChangesNoRow` | packages/adapters-postgres/src/job-scheduler/postgres-job-scheduler.ts:178-188 | A report whose token is in no row changes no row. |
| `JobScheduler.SupersededForever` | packages/adapters-postgres/src/job-scheduler/postgres-job-scheduler.ts:150-153 | A token that is in no row never enters one again. |
| `JobScheduler.OneOutcomePerClaim` | packages/adapters-postgres/src/job-scheduler/postgres-job-scheduler.ts:180-216 | Once a report has changed a row, no later report of the same claim changes any row. |
| `JobScheduler.HandlerStartsBounded` | packages/adapters-postgres/src/job-scheduler/postgres-job-scheduler.ts:159-170 | A job's handler is started at most maxAttempts times, for any number of workers, crashes and lease expiries. |
| `JobScheduler.RankFalls` | packages/adapters-postgres/src/job-scheduler/postgres-job-scheduler.ts:126-157 | 2 * (maxAttempts - attempts) + (1 if RUNNING) strictly falls on every change that leaves the row unsettled. |
| `JobScheduler.JobSettles` | packages/adapters-postgres/src/job-scheduler/postgres-job-scheduler.ts:126-216 | In any run a row changes at most 2 * maxAttempts times, and changes so far plus rank stay within that until it is settled. |
| `JobScheduler.SelectDue` | packages/adapters-postgres/src/job-scheduler/postgres-job-scheduler.ts:142-149 | The claim's sub-select: the first batchSize claimable, unlocked rows by runAt. |
| `JobScheduler.PostgresJobScheduler.FailExhaustedExpiredJobs` | packages/adapters-postgres/src/job-scheduler/postgres-job-scheduler.ts:126-137 | Unless the database rejects it, the sweep fails exactly the exhausted rows whose lease ran out. |
| `JobScheduler.PostgresJobScheduler.ClaimBatch` | packages/adapters-postgres/src/job-scheduler/postgres-job-scheduler.ts:139-157 | A claim hands this process one fresh token per leased row, in order; rejected it leases nothing, and with its reply lost nobody runs the rows. |
| `JobScheduler.PostgresJobScheduler.RunClaimedJob` | packages/adapters-postgres/src/job-scheduler/postgres-job-scheduler.ts:159-176 | The handler is started once if registered; then one report: success if it is registered and returns normally, failure otherwise. |
| `JobScheduler.PostgresJobScheduler.MarkSucceeded` | packages/adapters-postgres/src/job-scheduler/postgres-job-scheduler.ts:180-192 | Unless the database rejects it, the row that carries the token becomes SUCCEEDED without token and lease; no other row changes. |
| `JobScheduler.PostgresJobScheduler.MarkFailed` | packages/adapters-postgres/src/job-scheduler/postgres-job-scheduler.ts:196-216 | Unless the database rejects it, the row that carries the token becomes FAILED if its attempts are used up, else PENDING and due after the backoff; no other row changes. |
| `JobScheduler.PostgresJobScheduler.PollOnce` | packages/adapters-postgres/src/job-scheduler/postgres-job-scheduler.ts:108-122 | Sweep, claim, then every leased row in order has its handler started once if it has one and is reported, unless the database rejects that; nothing is run if the claim is not answered. |
| `BatchPipeline.RoutingRunsBounded` | packages/worker/src/jobs/process-scheduled-request.handler.ts:140-157 | Routing runs for a batch are at most one more than its markProcessing calls that threw, and none more while its row is pending or missing. |
| `BatchPipeline.SoleOwnerAlways` | packages/adapters-postgres/src/repositories/prisma-batch-request.repository.ts:91-97 | With no throwing markProcessing call, one execution owns the row: it alone has routed, and a settled row holds its outcome. |
| `BatchPipeline.StatusPath` | packages/adapters-postgres/src/repositories/prisma-batch-request.repository.ts:91-120 | With no such throw the status moves only pending, processing, one outcome, both moves made by the single execution that claimed it. |
| `BatchPipeline.OutcomeIsFinal` | packages/adapters-postgres/src/repositories/prisma-batch-request.repository.ts:99-120 | A terminal status so set never changes. |
| `BatchPipeline.CrashedClaimStaysProcessing` | packages/worker/src/jobs/process-scheduled-request.handler.ts:150-153 | If that execution dies before recording, the batch stays processing however often its job is re-claimed. |
| `BatchPipeline.TicketsAreConserved` | packages/worker/src/scheduling/drain-loop.ts:56-95 | A submitted ticket is in the queue, in a drainer's hand or in a job, unless a named loss step of the run dropped it. |
| `BatchPipeline.TrackedStep` | packages/adapters-redis/src/scheduling/redis-request-scheduler.ts:129-152 | No step but the named losses loses a ticket. |
| `BatchPipeline.AbandonedForever` | packages/worker/src/jobs/process-scheduled-request.handler.ts:145-153 | A batch whose ticket is gone and whose jobs and executions have ended is never routed and its row never changes. |
| `BatchPipeline.EarlyDrainStrandsBatch` | packages/api/src/routes/batches.routes.ts:93-110 | A run without any failure in which the job is processed before the row exists: the accepted batch stays pending for ever, unrouted. |
| `BatchPipeline.ProcessScheduledRequest.RetryWithBackoff` | packages/worker/src/jobs/process-scheduled-request.handler.ts:98-113 | At most three attempts, ended early only by one that succeeds; true means the row holds the outcome, false that all three threw. |
| `BatchPipeline.ProcessScheduledRequest.Handle` | packages/worker/src/jobs/process-scheduled-request.handler.ts:131-183 | The handler as written, under any interference: it routes unless the guard was answered and matched no pending row, and then records the outcome route() gave, or has had three attempts to do so throw. |
| `BatchPipeline.DrainLoop.ScheduleProcessing` | packages/worker/src/scheduling/drain-loop.ts:70-95 | The ticket ends in a job exactly if the insert is answered under an unused id, otherwise in the queue if the requeue is answered, and is reported lost exactly if both threw. |
| `BatchPipeline.DrainLoop.DequeueNext` | packages/adapters-redis/src/scheduling/redis-request-scheduler.ts:129-154 | Two ZPOPMINs that pop as many as there are up to the batch size, the second for what the first left over, to be handed over in that order; if one throws nothing is, and what the first popped is lost. |
| `BatchPipeline.DrainLoop.Tick` | packages/worker/src/scheduling/drain-loop.ts:56-68 | Exactly the dequeued tickets are handed over, in turn; each one reported as handed over is in a job when the tick ends. |
| `RequestScheduler.AdmittedWithinLimit` | packages/adapters-redis/src/scheduling/redis-request-scheduler.ts:51-76 | In every run the counter is admitted plus uncorrected plus leaked, so the admitted never exceed the limit. |
| `RequestScheduler.AdmissionLeavesRoom` | packages/adapters-redis/src/scheduling/redis-request-scheduler.ts:56-75 | A caller is admitted if and only if admitted, uncorrected and leaked leave room. |
| `RequestScheduler.LeaksLowerTheCeiling` | packages/adapters-redis/src/scheduling/redis-request-scheduler.ts:34-37 | Leaks are permanent: whoever is admitted after one, admitted and leaked together fit the limit. |
| `RequestScheduler.ReleaseNeverClamps` | packages/adapters-redis/src/scheduling/redis-request-scheduler.ts:78-95 | Released once per admission, the counter never goes negative. |
| `RequestScheduler.InflightCounter.Admit` | packages/adapters-redis/src/scheduling/redis-request-scheduler.ts:51-76 | admit as written, under any interference: admitted exactly if there was room at the increment; a rejected caller's increment is taken back unless that command fails. |
| `RequestScheduler.InflightCounter.Free` | packages/adapters-redis/src/scheduling/redis-request-scheduler.ts:78-95 | release as written: the slot is given back unless the command fails; the corrective INCR is never needed. |
| `RequestScheduler.ZAddKeepsSorted` | packages/adapters-redis/src/scheduling/redis-request-scheduler.ts:124 | A sorted set stays one and holds what it held, the added member at its new score. |
| `RequestScheduler.DequeuesInPriorityOrder` | packages/adapters-redis/src/scheduling/redis-request-scheduler.ts:127-154 | When every member parses, dequeueNext(n) is the first n of the batch queue followed by the background queue. |
| `RequestScheduler.RequestQueues.InsertIntoQueue` | packages/adapters-redis/src/scheduling/redis-request-scheduler.ts:114-125 | With others inserting and popping between INCR and ZADD, the queue holds exactly what they left and the new member, behind only what was queued when it took its number; other classes are refused. |
| `RequestScheduler.RequestQueues.DequeueNext` | packages/adapters-redis/src/scheduling/redis-request-scheduler.ts:129-154 | The loop over the two queues: exactly what is returned is removed, with the members in between that do not parse. |
| `ConfigCache.CacheKeyIsInjective` | packages/application/src/configuration/configuration-cache-keys.ts:6-8 | Distinct entries never share a cache key, though scope ids may contain colons. |
| `ConfigCache.ColonsInKeysWouldCollide` | packages/application/src/configuration/configuration-cache-keys.ts:6-8 | They could if configuration keys were allowed colons. |
| `ConfigCache.DecodesExactly` | packages/application/src/configuration/configuration-cache-keys.ts:24-49 | A message decodes exactly if it is an object with a known scope by name and a scope id and a key that are texts and not empty. |
| `ConfigCache.InvalidationRoundTrip` | packages/application/src/configuration/configuration-cache-keys.ts:16-49 | A published invalidation decodes to the entry it names if and only if its scope id and key are not empty, and is rejected otherwise. |
| `ConfigCache.NextKeepsInv` | packages/application/src/configuration/postgres-configuration.service.ts:92-121 | Every step of readers, writers and subscribers keeps a cached value current unless a later write of the entry is unhandled, if the step is no straddling fill. |
| `ConfigCache.CachedIsCurrentOrOutstanding` | packages/application/src/configuration/postgres-configuration.service.ts:92-121 | In a run in which no fill of an entry straddles a write of it, a cached value is the repository's or a write of that entry is outstanding. |
| `ConfigCache.StraddlingFillGoesStale` | packages/application/src/configuration/postgres-configuration.service.ts:97-107 | Without that premise, a run that ends with the old value cached and nothing outstanding. |
| `ConfigCache.StalenessBound` | packages/application/src/configuration/postgres-configuration.service.ts:98-107 | In every run at all, an unexpired cached value was the repository's less than the 60 s TTL plus the slowest fill's read-to-set delay ago. |
| `ConfigCache.PostgresConfigurationService.TryResolve` | packages/application/src/configuration/postgres-configuration.service.ts:92-108 | With no write of the entry outstanding during the call the answer is the repository's; in any run it was so less than the TTL plus the slowest fill's delay ago. What the cache holds is answered at once, and anything else found is put there. |
| `ConfigCache.PostgresConfigurationService.GetWithFallback` | packages/application/src/configuration/postgres-configuration.service.ts:57-71 | With none of the three entries' writes outstanding during the call the answer is the project, organization, global lookup on the repository; in any run at all it is a value one of the three had within the same bound. |
| `ConfigCache.PostgresConfigurationService.Subscribe` | packages/application/src/configuration/postgres-configuration.service.ts:73-80 | However often it subscribes, a handler is registered once per key, behind those already there; registrations for other keys stay as they are. |
| `ConfigCache.PostgresConfigurationService.HandleInvalidation` | packages/application/src/configuration/postgres-configuration.service.ts:110-137 | A malformed message changes nothing; a valid one evicts its entry, settles its write, and tells every subscriber of the key the value read, which is the repository's global value if no write of that is outstanding. |
| `ConfigCache.ConfigurationWriterService.Set` | packages/application/src/configuration/configuration-writer.service.ts:19-25 | The upsert takes effect first, and the write is outstanding until it is published and its invalidation handled. |
| `Utf8.PrefixRoundTrip` | packages/sdk-node/src/streaming.ts:20 | Any prefix of an encoded text decodes to the characters that arrived whole, without error; the decoder waits inside a character exactly if the cut is inside one. |
| `Utf8.DecodeAppend` | packages/sdk-node/src/streaming.ts:20 | Decoding chunk by chunk is decoding the whole. |
| `Utf8.RoundTrip` | packages/sdk-node/src/streaming.ts:20 | Encoding and then decoding gives back the text. |
| `Json.ParsePrint` | packages/api/src/streaming/sse-stream-transport.ts:25 | JSON.parse undoes JSON.stringify, for every value with well-formed numbers. |
| `Json.StringRoundTrip` | packages/api/src/streaming/sse-stream-transport.ts:25 | An escaped string reads back as itself, whatever follows its closing quotation mark. |
| `Json.PrintPrintable` | packages/api/src/streaming/sse-stream-transport.ts:25 | Printed JSON contains no control character, so no line break. |
| `Sse.PayloadRoundTrip` | packages/sdk-python/src/llm_gateway_sdk/streaming.py:25-26 | Decoding an event's payload by its type field gives back the event. |
| `Sse.LinesOfFrame` | packages/api/src/streaming/sse-stream-transport.ts:24-25 | The two lines of a frame contain no line break, and the data line is the printed payload. |
| `Sse.StartFrame` | packages/api/src/streaming/sse-stream-transport.ts:24-25 | The frame of a start event, to the letter. |
| `Sse.DeltaFrame` | packages/api/src/streaming/sse-stream-transport.ts:24-25 | The frame of a delta, to the letter. |
| `Sse.DoneFrame` | packages/api/src/streaming/sse-stream-transport.ts:24-25 | The frame of a done event, to the letter. |
| `Sse.ErrorFrame` | packages/api/src/streaming/sse-stream-transport.ts:45-50 | The frame of a failure, to the letter: of all the server knows only the code and the message are printed. |
| `Sse.NodeReadsForeignFrame` | packages/sdk-node/src/streaming.ts:38-51 | A frame nobody printed: without data it is passed over, data that is no JSON raises, JSON null and other falsy values are passed over. |
| `Sse.SplitAppend` | packages/sdk-node/src/streaming.ts:22-31 | More text only adds frames: those already complete stay and the rest is cut on. |
| `Sse.NodeReadsArrivedFrames` | packages/sdk-node/src/streaming.ts:6-51 | However much of a printed stream arrives, the Node client yields exactly the payloads of the frames that arrived whole, and does not throw. |
| `Sse.PythonReadsArrivedFrames` | packages/sdk-python/src/llm_gateway_sdk/streaming.py:14-29 | The Python client yields exactly the events of the frames that arrived whole, and raises if and only if the stream was cut inside a character. |
| `Sse.ClientsAgree` | packages/sdk-python/src/llm_gateway_sdk/streaming.py:14-29 | What the Node client yields is, payload by payload, what the Python client yields. |
| `Sse.WholeStreamRoundTrip` | packages/api/src/streaming/sse-stream-transport.ts:18-26 | A stream that arrives whole gives back exactly the printed events, from both clients. |
| `Sse.ArrivedFramesAreWhole` | packages/api/src/streaming/sse-stream-transport.ts:18-26 | A frame counts as arrived if and only if its last byte has. |
| `Sse.SseStreamTransport.Send` | packages/api/src/streaming/sse-stream-transport.ts:18-26 | A live response gains exactly the frame of the client-safe payload; a dead one nothing. |
| `Sse.SseStreamTransport.Close` | packages/api/src/streaming/sse-stream-transport.ts:28-37 | After close the response is dead. |
| `Sse.ParseFrameLines` | packages/sdk-node/src/streaming.ts:38-51 | The line loop of parseFrame: the last data line counts. |
| `Sse.TakeFrames` | packages/sdk-node/src/streaming.ts:22-31 | The inner loop cuts off and parses every complete frame until one throws. |
| `Sse.ParseChatCompletionStream` | packages/sdk-node/src/streaming.ts:6-36 | The result depends on the bytes alone, however they are cut into chunks. |
| `Sse.ParseLines` | packages/sdk-python/src/llm_gateway_sdk/streaming.py:14-29 | The Python line loop computes the client's specification. |
| `Routing.RankIsStableSort` | packages/application/src/routing/default-routing-engine.ts:77-79 | Every candidate is ranked once, by descending score, and candidates of equal score in the order they were listed. |
| `Routing.Execute` | packages/application/src/routing/exponential-backoff-retry-policy.ts:41-57 | The answer is that of the first call that succeeds, is not worth retrying, or is the last allowed; exactly the calls up to it are made. |
| `Routing.CallsAreBounded` | packages/application/src/routing/default-routing-engine.ts:109-121 | No call unless admitted, one for a half-open trial, otherwise between one and maxAttempts, all but the last retryable failures. |
| `Routing.NotCalled` | packages/application/src/routing/default-routing-engine.ts:84-108 | A candidate that does not resolve or is denied is passed over without a call, with the registry's error or PROVIDER_CIRCUIT_OPEN as its cause; an exception of the check ends the routing. |
| `Routing.LastCallDecides` | packages/application/src/routing/default-routing-engine.ts:112-128 | Over the provider's answers alone: the calls go on up to the first that succeeds, is not worth retrying or is the last allowed; its response is returned, or its error is the cause. |
| `Routing.WorksExactlyIf` | packages/application/src/routing/exponential-backoff-retry-policy.ts:41-57 | A closed candidate works exactly if one of its first maxAttempts calls succeeds after nothing but retryable failures, a half-open one exactly if its first call does, with that call's response. |
| `Routing.OneReportPerAdmitted` | packages/application/src/routing/default-routing-engine.ts:119-128 | Among the first n ranked candidates each admitted one is reported on exactly once and no other is; each is called as often as the policy says. |
| `Routing.LogIsTruthful` | packages/application/src/routing/default-routing-engine.ts:119-126 | Each report follows a call of the same candidate, states whether the last call made succeeded, and carries the token the breaker handed out. |
| `Routing.RouteInner` | packages/application/src/routing/default-routing-engine.ts:56-132 | Returns the response of the candidate that resolves, is admitted and succeeds with none of higher score, or of equal score and listed earlier, that does; otherwise throws with one cause per candidate in that order; a breaker exception propagates. Of the calls and reports recorded as they happen, exactly the admitted candidates up to the deciding one have one report each; the providers named as attempted are those reported on, in order. |
| `Streaming.RouteStream` | packages/application/src/routing/default-routing-engine.ts:149-228 | The same with a single first-event pull per candidate; all events shown are those of the deciding candidate, cut where the caller stops; over Groq they are its model's start delta* (done or error), or a prefix of it. |
| `Streaming.Relay` | packages/application/src/routing/default-routing-engine.ts:216-227 | A committed stream is passed on, and a failure becomes one final error event. |
| `Streaming.Stream` | packages/adapters-provider-groq/src/groq-provider.adapter.ts:128-198 | The frame loop yields the specified stream: a start, one delta per well-formed chunk with content up to [DONE], then done if a finish reason was seen and the connection held, else a failure. |
| `Streaming.GroqStreamsAreComplete` | packages/adapters-provider-groq/src/groq-provider.adapter.ts:128-198 | Whatever the response, what is shown of a Groq stream is start delta* (done or error) of the model asked for; done exactly if a finish reason was seen and the connection held until [DONE] or the end. |
| `Streaming.StreamSaysWhatChunksSay` | packages/adapters-provider-groq/src/groq-provider.adapter.ts:161-198 | Of chunks given by their contents, reasons and usages, with junk frames between, exactly the non-empty contents are shown in order, then done with the last reason, mapped by name, and the last usage; or the error of the broken connection, or of a missing finish reason. |
| `Streaming.ShownIsTheRun` | packages/application/src/routing/default-routing-engine.ts:28-32 | A failing run is shown as its events and one error at the end: the provider's own, or the fixed one for an unexpected failure. |
| `Pagination.OrderedIsTheQuery` | packages/adapters-postgres/src/repositories/prisma-audit-log.repository.ts:95-108 | The query returns exactly the matching rows, each once, in descending (createdAt, id) order. |
| `Pagination.PageSplitsTheMatches` | packages/adapters-postgres/src/repositories/prisma-audit-log.repository.ts:90-120 | A page holds the newest matches; everything else that matches lies behind its cursor; without a cursor nothing is left out. |
| `Pagination.PageIsFilled` | packages/adapters-postgres/src/repositories/prisma-audit-log.repository.ts:108-113 | A page holds as many matching entries as there are up to the limit, and has a cursor exactly if there are more. |
| `Pagination.ZeroLimitShowsNothing` | packages/adapters-postgres/src/repositories/prisma-audit-log.repository.ts:110-113 | A limit of zero ends the listing at once. |
| `Pagination.EveryEntryOnce` | packages/adapters-postgres/src/repositories/prisma-audit-log.repository.ts:90-120 | Following nextCursor shows no entry twice and keeps descending order, with appends between pages; at the end each entry present at the start was shown exactly once. |
| `Pagination.ListingEnds` | packages/adapters-postgres/src/repositories/prisma-audit-log.repository.ts:90-120 | If everything appended meanwhile is newer than the cursor, the listing ends within one page more than the initial entries fill. |
| `Pagination.AuditLogRepository.ListByOrganization` | packages/adapters-postgres/src/repositories/prisma-audit-log.repository.ts:90-120 | Asking for one row more than the limit and dropping it gives the page and cursor of the specification the listing results are about. |
| `Pagination.AuditLogRepository.Create` | packages/adapters-postgres/src/repositories/prisma-audit-log.repository.ts:71-85 | A row is appended; keys stay distinct. |

## Left out

- Express routes, middleware, schemas, admin web, CLI, tracing, metrics, logging and alert publishing: plumbing that guards no transition.
- Prisma, ioredis, Postgres and Redis internals; argon2, JWT, HMAC and webhook address checks.
- Back-off delays, jitter and sleeping: waiting is any number of steps of the others.
- Policy changes in mid-period and clock skew between processes.
- Zero refill rate in the admission bound, the retry hint and the expiry results, because expiry refills such a bucket.
- CircuitBreaker.AnswersAreTrueInsideTheCall: the answer after five aborted transactions, which the source reports as an open breaker, asserts nothing of the breaker (`AttemptsAreAborts` says when it is given).
- getState of the breaker and tryArmOnce and soft-limit warnings of the budget: single reads or writes that guard nothing here.
- Job types, payload contents and lastError texts; a handler is registered for a job or not.
- Webhook delivery jobs, and the shape of the recorded result or error of a batch; only which outcome is recorded is modelled.
- The order in which ZPOPMIN takes members is in RequestScheduler; BatchPipeline takes any members.
- Which inflight counter a request uses; one counter is modelled, with one limit.
- Writes of a configuration entry whose scope id is empty are never invalidated, since their message is rejected (`InvalidationRoundTrip`); they stay outstanding.
- Lone surrogates in strings, a byte order mark at the start of a stream, and a number too small to be told from zero.
- The Python codec on payloads that are not wire events: JSON null, which it passes on, and fields of other types, which it does not check.
- Token counts that are not non-negative integers.
- The strategies, scorers, shadow traffic and span wrappers of the routing engine; a list of scored candidates is the input. The two bookkeeping calls of an outcome are one report.
- The byte-level frame splitting and the request and error translation of the Groq adapter; its parsed frames are the input. Gemini, which may emit several done events.
- Streaming.Stream: a refused request stands for every failure before the body is read.
- The text form of the pagination cursor (base64url of an ISO time and id); the cursor is the pair it encodes.
