# Kopiochi, modelled and proved

This project models the parts of the Kopiochi service whose correctness rests
on state that several actors share, and proves what those parts promise.

**The notification outbox.** Rows wait in one table. Workers claim batches,
deliver them and save the outcome; a sweeper takes over rows whose worker never
came back; any of them can crash, panic, or lose the answer of a statement.
`Outbox` is the table and its statements, `NotificationDomain` the entity and
its state changes, `OutboxProtocol` the transition system over table, private
copies and clock, and `Dispatch` the dispatch cycle, the sweep and the drain
loop written as the code has them, with the rest of the world acting between
any two statements; each records itself as a run of the protocol. Two kinds of
fact are kept apart. Some survive every interleaving (`OutboxProtocol`). The
others need time, because a save filters on the id alone and nothing in the
database fences a stale copy: `OutboxTiming` derives exclusive ownership from
the batch size, the time one row takes and the latency of a claim,
`OutboxSchedule` follows a row up its retry schedule, and `OutboxSafety` shows
the condition to be exact. With a batch that does not fit
the stall window there is a run, within every time limit, in which a sent row
is reopened.

**Refresh tokens.** A refresh is a sequence of separate statements that other
refreshes, logins and logouts interleave with. `RefreshTokens` is the store,
`RefreshProtocol` the interleavings, `RefreshService` the call itself.

**The rate limiter** (`RateLimiter`), **login lockout** (`Lockout`) and the way
a lock becomes outbox rows (`Enqueuer`, `LockoutNotices`), **preferences**
(`Preferences`), **the mailbox** and its keyset cursor (`Mailbox`,
`MailboxRuns`), **templates** (`TemplateNames`, `TemplateRenderer`,
`MessageText`), and **the coverage ratchet** (`CoverageRatchet`,
`CoveragePatterns`), with the kernels they use (`Backoff`, `Utf8`, `GoStrings`).

Conventions. Instants and durations are integers; durations are bounded to 64
bits where the code's arithmetic depends on it. Floating-point numbers are
reals. A statement or transaction is one atomic step. An object whose methods
change its fields is a class; its methods are proved against functions of the
old state, and the theorems are about those functions and about runs. What such
a function means is also stated without it, by fields, columns and amounts:
in the contract of the method, or in a lemma named after the function.

## Where the code and its own words differ

- Rotate is documented as repeating the predicates of FindValid. It repeats all
  but the expiry. A token is exchanged before its expiry plus the longest time
  from lookup to exchange, and an expired token is never exchanged exactly when
  that time is zero (`RefreshProtocol.ExpiryIsEnforcedExactlyWithoutDelay`).
- The status machine calls sent and dead terminal. In the database they are so
  exactly when claim latency plus a full batch fits in StalledAfter
  (`OutboxSafety.FinalExactlyWhenBatchFits`).
- A rejected key that waits for retryAfter is let in exactly when the burst
  holds a whole token and the key is still tracked or can be tracked again
  (`RateLimiter.RetryAfterIsHonest`).
- truncateReason repairs only what it shortens: a short reason that is not
  valid UTF-8 is stored as it is (`Utf8.ClippedIsValidExactlyWhen`).
- The ratchet's tolerance protects recorded values exactly when they are
  multiples of 0.1 (`CoverageRatchet.ToleranceMatchesRounding`).

## Model

| member | source | states |
|---|---|---|
| Utf8.TruncateReason | modules/notification/domain/notification.go:385-398 | the byte-dropping loop returns the longest valid prefix of at most 512 bytes, and a short reason unchanged |
| Utf8.ClippingValidText | modules/notification/domain/notification.go:389-398 | for every valid UTF-8 string over the cap: the result is valid, at most 3 bytes below the cap, and no valid prefix within the cap is longer |
| Utf8.ClippedIsValidExactlyWhen | modules/notification/domain/notification.go:389-398 | the stored reason is valid if and only if the reason was valid or over the cap |
| Utf8.EncodedIsValid | modules/notification/domain/notification.go:389-398 | what encodes scalar values by the bit distribution of RFC 3629 is valid |
| Utf8.ValidIsEncoded | modules/notification/domain/notification.go:389-398 | and only that: every valid string is the encoding of some scalar values |
| Backoff.ScaleBaseSaturates | modules/notification/domain/notification.go:423-447 | with 64-bit wrap-around shifts, scaling is max(0, min(base * 2^max(attempt, 0), MaxInt64)) over the integers, for every input |
| Backoff.DelayIsClampedPower | modules/notification/domain/notification.go:400-421 | the delay is max(0, min(base * 2^max(attempt, 0), cap)) for every 64-bit attempt, base and cap |
| Backoff.JitterRange | modules/notification/domain/notification.go:468-502 | with a source, whatever it returns, a positive delay d becomes one in [d/2, d); without one it is d; never above the cap |
| Backoff.JitteredIsOnRung | modules/notification/domain/notification.go:468-502 | with a source the delay is in the upper half of min(base * 2^failures, cap) and strictly below it, without one it is that rung |
| Backoff.JitterReachesEveryDelay | modules/notification/domain/notification.go:485-502 | every delay of that half comes up for some draw in [0, 1) |
| Backoff.JitterIsMonotone | modules/notification/domain/notification.go:485-502 | a higher draw never gives a shorter delay |
| Backoff.ScheduleShape | modules/notification/domain/notification.go:400-447 | successive delays double until the cap and never shorten |
| NotificationDomain.NewNotification | modules/notification/domain/notification.go:207-248 | accepts exactly the non-nil ids, known channels and categories and non-empty template keys; what it builds is the request created now, unread, pending, unattempted and due now |
| NotificationDomain.Notification.TransitionTo | modules/notification/domain/notification.go:110-118 | pending goes to sending; sending to sent, failed, dead or pending; failed to pending or dead; nothing else changes anything |
| NotificationDomain.Notification.MarkSent | modules/notification/domain/notification.go:275-286 | from sending only: sent, stamped now, no error; else an error and no change |
| NotificationDomain.Notification.MarkDead | modules/notification/domain/notification.go:288-299 | from sending or failed only: dead, with the longest valid prefix of a reason over 512 bytes or all of a shorter one; else an error and no change |
| NotificationDomain.Notification.RecordFailure | modules/notification/domain/notification.go:301-338 | from sending only: one more attempt and the reason kept, then dead at the budget or pending and due retryAfter later; else an error and no change |
| NotificationDomain.Notification.RecoverStalled | modules/notification/domain/notification.go:340-383 | from sending only: one more attempt and the stall text, then dead at the budget or pending and due retryAfter later; else an error and no change |
| NotificationDomain.SettleSpends | modules/notification/domain/notification.go:275-383 | settling a consistent claimed delivery always succeeds, keeps it consistent, ends it or spends exactly one attempt, and is dead by failure exactly at the budget |
| NotificationDomain.SettleNeedsClaim | modules/notification/domain/notification.go:110-118 | of the stored states, only sending can be settled |
| NotificationDomain.LadderRungs | modules/notification/application/dispatch.go:132-143 | k retryable failures or stalls in a row, in any mix: attempts is min(k, budget), dead exactly from the budget on, and the k-th wait is the k-th rung from base * 2^(k-1): at least half of it, strictly below it with a jitter source, exactly it without |
| Outbox.RowRoundTrip | modules/notification/infrastructure/persistence/repository/notification_repo.go:393-464 | storing an entity and reading it back loses nothing |
| Outbox.RowColumns | modules/notification/infrastructure/persistence/repository/notification_repo.go:393-417 | each column is the field of its name, an empty text is NULL, and a row inserted has no claim stamp |
| Outbox.NotificationRepo.Enqueue | modules/notification/infrastructure/persistence/repository/notification_repo.go:66-87 | old rows stay; the row added holds the entity column by column; a duplicate exactly for a non-empty key that some row carries; for a statement that runs, never arrives, or commits unacknowledged |
| Outbox.NotificationRepo.ClaimBatch | modules/notification/infrastructure/persistence/repository/notification_repo.go:128-161 | every row taken was pending, unlocked and had next_attempt_at <= now; an unlocked one of that kind is left only by a full batch of rows due no later; exactly the rows taken become sending under the stamp, and each is returned as stored |
| Outbox.NotificationRepo.ClaimStalled | modules/notification/infrastructure/persistence/repository/notification_repo.go:185-218 | every row taken was sending, unlocked and claimed before the bound; an unlocked one of that kind is left only by a full batch claimed no later; exactly those are re-stamped, with their status left alone, and each is returned as stored |
| Outbox.NotificationRepo.ReadBack | modules/notification/infrastructure/persistence/repository/notification_repo.go:154-160 | the returned entities are distinct objects, in order, equal to their rows |
| Outbox.PickExists | modules/notification/infrastructure/persistence/repository/notification_repo.go:128-161 | whatever is locked and whatever the limit, some such pick exists |
| Outbox.PicksDueByColumns | modules/notification/infrastructure/persistence/repository/notification_repo.go:128-161 | the claim relation by columns: pending rows with next_attempt_at <= now, and one left out unlocked is due no earlier than each of a full batch |
| Outbox.PicksStuckByColumns | modules/notification/infrastructure/persistence/repository/notification_repo.go:185-218 | the sweep relation by columns: sending rows with claimed_at before the bound, and one left out unlocked was claimed no earlier than each of a full batch |
| Outbox.NotificationRepo.Save | modules/notification/infrastructure/persistence/repository/notification_repo.go:230-256 | writes status, attempts, next_attempt_at, last_error and sent_at of the row with that id, whatever its current status, and nothing else; not found exactly without one |
| Outbox.SaveWritesTheDelivery | modules/notification/infrastructure/persistence/repository/notification_repo.go:220-256 | a later read sees exactly the saved delivery; identity, key, read mark, claim stamp and all other rows stay |
| Outbox.NotificationRepo.MarkRead | modules/notification/infrastructure/persistence/repository/notification_repo.go:344-364 | stamps the first read only, and only the recipient's own in-app row |
| OutboxProtocol.StepCarries | modules/notification/infrastructure/persistence/repository/notification_repo.go:230-256 | no step deletes a row or changes what it is |
| OutboxProtocol.SaveKeepsRows | modules/notification/infrastructure/persistence/repository/notification_repo.go:230-256 | a save by any holder of any copy, however old, leaves the row well formed |
| OutboxProtocol.SettledCopyIsSettled | modules/notification/application/dispatch.go:116-154 | what a settle makes of a claimed copy, field by field for each outcome; a failure or stall short of the budget is due again on the rung of the failures before it |
| OutboxProtocol.StepKeepsRows | modules/notification/infrastructure/persistence/repository/notification_repo.go:66-256 | every step keeps: ids not nil, attempts at most the budget and below it while pending or sending, sent exactly when sent_at is set, failed never stored, sending implies claimed_at |
| OutboxProtocol.StepKeepsKeys | modules/notification/infrastructure/persistence/repository/notification_repo.go:43-87 | every step keeps non-null idempotency keys unique |
| OutboxProtocol.StepKeepsCopies | modules/notification/application/dispatch.go:47-154 | every copy in any hand stays a claimed delivery of a row that exists; nothing says it is current |
| OutboxProtocol.EveryRunKeepsInv | modules/notification/infrastructure/persistence/repository/notification_repo.go:66-256 | all of that in every run, with stale overwriting saves, lost answers and crashes |
| OutboxProtocol.StuckRowsAreSweepable | modules/notification/infrastructure/persistence/repository/notification_repo.go:163-218 | in every run a sending row is stamped, and a sweep past its window takes it if unlocked, or a full batch of rows claimed no later |
| OutboxProtocol.NothingSettlesUnearned | modules/notification/application/dispatch.go:116-154 | in every run a row is sent only if a delivery of it succeeded, and dead only if refused for good or out of budget |
| OutboxTiming.LiveIsInWindow | modules/notification/infrastructure/dispatcher/dispatcher.go:57-84 | derived from batch size, settle time and claim latency: no copy can still be settled once its row counts as stalled |
| OutboxTiming.TimelyStepKeepsInv | modules/notification/infrastructure/persistence/repository/notification_repo.go:89-256 | every timely step keeps exclusive ownership when the batch fits |
| OutboxTiming.EveryTimelyRunIsExclusive | modules/notification/infrastructure/dispatcher/dispatcher.go:310-369 | in every timely run a sending row has at most one holder that can still settle it, and that copy is the row |
| OutboxTiming.TimelyStepIsLegal | modules/notification/domain/notification.go:92-118 | the stored status moves only pending, sending, then sent, dead or pending, and coming back to pending costs exactly one attempt |
| OutboxTiming.StatusChangeLowersMeasure | modules/notification/domain/notification.go:301-383 | every change of stored status lowers 3 * (budget - attempts) + rank, which stays non-negative; sent and dead do not move |
| OutboxTiming.ClaimsAreBudgeted | modules/notification/application/dispatch.go:47-67 | along any timely run, the claims of a row plus the claims it has left never exceed what it had left before |
| OutboxTiming.DeliveredAtMostMaxAttempts | modules/notification/domain/notification.go:301-338 | from an empty outbox a row is claimed for delivery at most MaxAttempts times |
| OutboxTiming.FinalStaysFinal | modules/notification/domain/notification.go:92-118 | in timely runs with a fitting batch, a sent or dead delivery never changes again |
| OutboxSchedule.ChargeWaitsItsRung | modules/notification/application/dispatch.go:132-143 | in every reachable state, by worker or sweeper and on a copy however old: a failure spends one attempt of the copy, and short of the budget leaves the row pending, due min(base * 2^a, cap) later for a attempts before, in the upper half of that with a source |
| OutboxSchedule.AttemptsAreCharges | modules/notification/domain/notification.go:301-383 | under timing a row has as many attempts as it had failures and stalls |
| OutboxSchedule.KthFailureWaitsTheKthRung | modules/notification/infrastructure/dispatcher/dispatcher.go:343-351 | from an empty outbox with batches that fit: the k-th failure of a row, reported or swept, waits min(base * 2^(k-1), cap), in the upper half of that with a source; the MaxAttempts-th leaves it dead and there is none after it |
| OutboxSchedule.NoClaimBeforeItIsDue | modules/notification/infrastructure/persistence/repository/notification_repo.go:136-146 | in every interleaving no claim of a row is stamped before the next attempt its last settle, or its enqueue, wrote |
| OutboxSchedule.NoClaimWithinTheBackoff | modules/notification/infrastructure/persistence/repository/notification_repo.go:136-146 | so no claim takes a row that failed before half its rung is over, or the whole of it without a jitter source |
| OutboxSafety.TwoHolders | modules/notification/infrastructure/persistence/repository/notification_repo.go:220-243 | if the batch does not fit, a timely run from an empty outbox puts one row in the hands of a worker and a sweeper at once |
| OutboxSafety.StaleSaveReopens | modules/notification/infrastructure/persistence/repository/notification_repo.go:235-243 | from there, two timely saves take the row to sent and back out of it |
| OutboxSafety.FinalExactlyWhenBatchFits | modules/notification/infrastructure/dispatcher/dispatcher.go:57-84 | sent and dead are final in every timely run if and only if claim latency + batch size * settle time <= StalledAfter |
| OutboxDrain.StepSpendsBudget | modules/notification/infrastructure/dispatcher/dispatcher.go:266-290 | a timely step that enqueues nothing lowers the claims left in the whole table by at least the rows it claims |
| OutboxDrain.ClaimsSpendTheBudget | modules/notification/infrastructure/dispatcher/dispatcher.go:266-290 | in any timely run without enqueues, all claims of all workers together take no more rows than the claims left at its start |
| Dispatch.HoldersArePrivate | modules/notification/application/dispatch.go:47-67 | whatever others do, a batch's copies stay as they are |
| Dispatch.World.Others | modules/notification/infrastructure/dispatcher/dispatcher.go:248-308 | any timely run of everyone else, between two statements, leaves this batch alone |
| Dispatch.World.Store | modules/notification/infrastructure/persistence/repository/notification_repo.go:230-256 | a save is one protocol step, settled or given up as the statement arrives or not; it reports success exactly when it works, and then the row holds the copy |
| Dispatch.World.TakeDue | modules/notification/infrastructure/persistence/repository/notification_repo.go:128-161 | succeeds exactly when the statement works; then it is one recorded claim of as many rows as objects are returned, which are the batch in hand; on error nothing is held |
| Dispatch.World.TakeStalled | modules/notification/infrastructure/persistence/repository/notification_repo.go:185-218 | the same for the sweep, under its own earlier clock reading |
| Dispatch.RecordedPicks | modules/notification/infrastructure/persistence/repository/notification_repo.go:128-218 | a recorded claim or sweep took a pick of what was due, or stalled, in the table it found |
| Dispatch.Service.AttemptDelivery | modules/notification/application/dispatch.go:172-200 | delivered exactly when there is a sender and it succeeds; retryable exactly for a panic or a send refused as retryable; not retryable exactly without a sender, without a rendering, or for a send refused for good |
| Dispatch.Service.Transition | modules/notification/application/dispatch.go:121-144 | the copy becomes what the outcome makes of it, field by field; a retryable failure after a attempts short of the budget is due min(base * 2^a, cap) after the settle, in the upper half of that with a draw |
| Dispatch.Service.Settle | modules/notification/application/dispatch.go:77-154 | the copy leaves the batch by one step whatever happens: given up, or settled as the verdict on its own attempt has it, at an instant of the settle and with the jitter drawn for it, and then the object became exactly that; it reports success exactly when nothing below panics and the save works, and then the row holds it |
| Dispatch.Service.SettleAll | modules/notification/application/dispatch.go:53-66 | each row is answered for by the step of its own turn, in order, and it fails exactly when one does not land |
| Dispatch.Service.DispatchBatch | modules/notification/application/dispatch.go:47-67 | a working claim is recorded under the clock reading of the start and reported by its size; the i-th row claimed is given up or settled by the verdict on the i-th attempt on its own channel, within the cycle and with its own jitter; it fails exactly when the claim or one of the rows does, and none is left in hand |
| Dispatch.Dispatcher.Recover | modules/notification/infrastructure/dispatcher/dispatcher.go:343-354 | a stalled copy spends one attempt; short of the budget after a attempts it is due min(base * 2^a, cap) after the sweep's clock reading, in the upper half of that with a draw; it reports success exactly when the save works, and then the row holds that |
| Dispatch.Dispatcher.Sweep | modules/notification/infrastructure/dispatcher/dispatcher.go:325-369 | a working claim is recorded; each of its rows, in order, is given up or charged at the sweep's own clock reading with its own jitter; what is reported is exactly the number of recoveries that were saved, it fails exactly when the claim or a save does, and nothing is left in hand |
| Dispatch.Dispatcher.Drain | modules/notification/infrastructure/dispatcher/dispatcher.go:266-290 | stops exactly at the first cycle that is short or meets the shutdown; the size of every cycle is that of a recorded claim, or none for a claim that fails; it terminates with nothing enqueued and batches that fit, whatever other workers do, however short the delays and whichever saves fail |
| Dispatch.CycleSpends | modules/notification/infrastructure/dispatcher/dispatcher.go:272-290 | any stretch of a recorded quiet history spends from the table's budget at least what it claimed |
| RefreshTokens.RefreshTokenStore.Store | modules/identity/infrastructure/persistence/repository/refresh_token_store.go:25-32 | one more row, with its own owner, expiry and family, neither used nor revoked; or a clash and no change |
| RefreshTokens.RefreshTokenStore.FindValid | modules/identity/infrastructure/persistence/repository/refresh_token_store.go:39-55 | finds exactly the token that is stored, not revoked, not used and expires later than now, as it is stored; the domain's Usable agrees both ways |
| RefreshTokens.RefreshTokenStore.FindAny | modules/identity/infrastructure/persistence/repository/refresh_token_store.go:64-77 | finds a stored token in any state, and what it returns is usable at exactly the instants at which FindValid would find it, and spent exactly when Rotate would turn it away |
| RefreshTokens.RefreshTokenStore.Rotate | modules/identity/infrastructure/persistence/repository/refresh_token_store.go:79-118 | lands exactly for a stored token neither used nor revoked and an unused new hash; then the old row is used and revoked, the new one is stored under its own owner, family and expiry and valid at exactly the instants before that, and every other row is as it was; already-used exactly for a token not unspent; else nothing changes |
| RefreshTokens.RefreshTokenStore.RevokeFamily | modules/identity/infrastructure/persistence/repository/refresh_token_store.go:120-148 | nothing of the family is unrevoked afterwards; exactly the rows that were are changed, stamped with the instant and counted; nothing but the revocation and its stamp changes |
| RefreshTokens.RefreshTokenStore.RevokeAllForUser | modules/identity/infrastructure/persistence/repository/refresh_token_store.go:150-161 | no token of the user is valid at any instant afterwards, their rows change in nothing else, and no other row changes |
| RefreshProtocol.StepKeepsTable | modules/identity/infrastructure/persistence/repository/refresh_token_store.go:25-161 | every step keeps used implies revoked, one unrevoked token and one owner per family, and revives nothing |
| RefreshProtocol.StepKeepsCalls | modules/identity/application/refresh.go:24-125 | every step keeps what each call remembers true, and at most one winner per presented token |
| RefreshProtocol.EveryRunKeepsInv | modules/identity/application/refresh.go:24-125 | all of that in every interleaving of logins, logouts and refreshes |
| RefreshProtocol.EveryRunInherits | modules/identity/infrastructure/persistence/repository/refresh_token_store.go:86-161 | in every run rows are never deleted, never change family, owner or expiry, and never come back to life |
| RefreshProtocol.OneWinnerPerToken | modules/identity/application/refresh.go:52-64 | however many concurrent calls present one token, at most one returns new tokens |
| RefreshProtocol.AtMostOneLive | modules/identity/infrastructure/persistence/repository/refresh_token_store.go:120-148 | the count RevokeFamily returns is 0 or 1 in every reachable state |
| RefreshProtocol.NewTokenIsGood | modules/identity/infrastructure/persistence/repository/refresh_token_store.go:86-118 | an exchange leaves the new token unspent under its own expiry; however the run goes on, until it is exchanged, its family revoked or its user logged out, it is valid at exactly the instants before that expiry |
| RefreshProtocol.DeadStaysDead | modules/identity/infrastructure/persistence/repository/refresh_token_store.go:86-148 | a family with no unrevoked token never gets one again, in any continuation |
| RefreshProtocol.ReuseEndsTheFamily | modules/identity/application/refresh.go:84-125 | once a call with evidence has revoked, no token of that family is unspent or valid at any later state and instant, whatever was in flight |
| RefreshProtocol.SpentTokenIsEvidence | modules/identity/application/refresh.go:32-36 | once a call has presented a spent token, in every continuation and with every fault it is still to be looked up, missed, evidence against the token's own family, or refused; from each of the first two a working statement takes it on to evidence |
| RefreshProtocol.OnlySpentTokensAreEvidence | modules/identity/application/refresh.go:92-106 | in every run a call that stands as evidence presented a revoked token of the family it is to revoke; a merely expired token is none |
| RefreshProtocol.LostRaceIsEvidence | modules/identity/application/refresh.go:56-64 | the loser of a race for one token is sent to revoke the family, and changes nothing itself |
| RefreshProtocol.RotateIgnoresExpiry | modules/identity/infrastructure/persistence/repository/refresh_token_store.go:79-104 | one exchange succeeds if and only if the token is unspent and the new hash unused, expired or not, and is stamped with its own instant; the lookup it relies on found the token unexpired |
| RefreshProtocol.ExchangedBeforeExpiryPlusLimit | modules/identity/infrastructure/persistence/repository/refresh_token_store.go:79-104 | if every exchange of a run comes within L of its lookup, every token is exchanged before its expiry plus L |
| RefreshProtocol.ExpiryIsEnforcedExactlyWithoutDelay | modules/identity/infrastructure/persistence/repository/refresh_token_store.go:79-104 | no run within the limit L exchanges an expired token if and only if L is zero |
| RefreshProtocol.ExpiredTokenCanBeExchanged | modules/identity/infrastructure/persistence/repository/refresh_token_store.go:79-104 | for every positive limit a run within it in which a token is exchanged at or after its expiry |
| RefreshService.CallsArePrivate | modules/identity/application/refresh.go:24-82 | no other call moves this one |
| RefreshService.Service.Refresh | modules/identity/application/refresh.go:24-82 | a new token is stored for the presented one's user and family under its own new expiry, and the presented one is used and revoked; a token that was spent when presented is detected and its family dead whenever the trace and the revocation work; with nothing failing, a stored token is refused without an audit event only for its expiry or a clash of the new hash |
| RefreshService.Service.Exchange | modules/identity/application/refresh.go:38-82 | with nothing failing, a token found usable is exchanged, reported as reused, or meets a clash of the new hash |
| RefreshService.Service.HandleUnusable | modules/identity/application/refresh.go:92-106 | a token that was spent is always audited under its own family if the trace works; one that is stored and not audited is unspent |
| RefreshService.Service.RevokeForReuse | modules/identity/application/refresh.go:108-125 | always audits, right about family, user and count, as failed exactly when the revocation was; otherwise the family is dead |
| RateLimiter.NewRateLimiter | internal/httpx/ratelimit.go:69-96 | refuses exactly the non-positive settings; the rate is per minute over sixty |
| RateLimiter.AllowedIsAnswered | internal/httpx/ratelimit.go:163-203 | one request in amounts: a new key gets the whole burst or is turned away from a full table for a second; a known one has earned rate * nanoseconds / 1e9, up to the burst; a whole token is spent, less is refused for the time the rest takes and a millisecond |
| RateLimiter.Limiter.Allow | internal/httpx/ratelimit.go:163-203 | the buckets after the call and the three answers, in those amounts |
| RateLimiter.Limiter.EvictExpired | internal/httpx/ratelimit.go:139-161 | forgets exactly the buckets idle for longer than the TTL that have earned back the whole burst, and changes none it keeps |
| RateLimiter.PassedWithinCredit | internal/httpx/ratelimit.go:145-203 | from any table: what passes for a key in a window plus the credit left is at most the credit before plus rate * window / 1e9, whatever other keys and sweeps do |
| RateLimiter.RateIsBounded | internal/httpx/ratelimit.go:145-203 | after any history, at most burst + rate * window / 1e9 requests of one key pass in a window of so many nanoseconds, and the table stays within maxKeys |
| RateLimiter.EarnedTokenIsHonoured | internal/httpx/ratelimit.go:183-202 | and no less: a quiet key that stays tracked is let through exactly when the burst holds a whole token and what it had plus rate * waited / 1e9 is one |
| RateLimiter.EvictionIsInvisible | internal/httpx/ratelimit.go:139-161 | sweeps at arbitrary times change no answer of any run whose keys all fit in the table |
| RateLimiter.OthersLeaveTheBucket | internal/httpx/ratelimit.go:166-203 | other keys never change a tracked bucket; it can only be forgotten, and then it was full |
| RateLimiter.TrackedKeyIsAlone | internal/httpx/ratelimit.go:166-203 | while a key stays tracked, its answers and its bucket are those of its own requests alone, whatever other keys and sweeps do |
| RateLimiter.HintIsEnough | internal/httpx/ratelimit.go:196-202 | waiting the hint earns the missing fraction of a token; a millisecond less than the hint does not |
| RateLimiter.RetryAfterIsHonest | internal/httpx/ratelimit.go:166-203 | a rejected tracked key that stays quiet for retryAfter is allowed if and only if burst >= 1 and it is still tracked or there is room |
| RateLimiter.ForgottenKeyCanBeTurnedAway | internal/httpx/ratelimit.go:166-181 | a concrete run in which it is forgotten, the table fills, and it is turned away |
| Lockout.User.RecordFailedLogin | modules/identity/domain/user.go:34-40 | counts one, and from the limit on locks until now plus the duration |
| Lockout.User.ResetFailedLogins | modules/identity/domain/user.go:42-45 | clears both |
| Lockout.LoginService.Login | modules/identity/application/login.go:12-45 | authenticated exactly for a known, unlocked account with the right password whose save lands, and then no failures and no lock are stored; bad password exactly for a known, unlocked account with a wrong one, and then the failure, and from the limit the lock, are stored if the save lands; the lock announced is that lock; nothing else changes |
| Lockout.GuessesWithinAllowance | modules/identity/application/login.go:20-45 | sequential guessing never exceeds what the account's counter and lock still allow |
| Lockout.GuessRateIsBounded | modules/identity/domain/user.go:27-40 | in any window of length T, from any account state, at most MaxFailedAttempts + floor(T / LockDuration) passwords are compared |
| Lockout.NoDurationNoLock | internal/config/config.go:553-555 | why the process configuration refuses a LockDuration that is not positive: with one, every password would be compared |
| Lockout.AnnouncesItsOwnLock | modules/identity/application/login.go:30-45 | a lock is announced exactly when this failure reaches the limit and its lock has not already run out, and it is the stored one |
| Lockout.EpisodesAreDistinct | modules/identity/application/login.go:30-45 | over any sequence of logins, announced locks are strictly increasing |
| Enqueuer.Service.Enqueue | modules/notification/application/service.go:126-181 | old rows stay; the row added is the request's, due at once, on a channel with a sender that the user has not switched off; a deliverable request that nothing hinders has its row, exactly one for a key; success with a key on an open pair leaves exactly one row with it |
| Enqueuer.EnqueuedAddsItsRow | modules/notification/application/service.go:126-181 | one call keeps keys unique and every row as it is, and adds at most the row it asks for |
| Enqueuer.EnqueuesAreIdempotent | modules/notification/infrastructure/persistence/repository/notification_repo.go:43-87 | after any sequence of enqueues with repeats: old rows are as they were, every added row was written for one of the calls, and the key of every unhindered call has exactly one row |
| Enqueuer.InsertedKeepsKeys | modules/notification/infrastructure/persistence/repository/notification_repo.go:43-87 | an insert keeps keys unique and every row in place |
| Enqueuer.UnkeyedNeverCollides | modules/notification/infrastructure/persistence/repository/notification_repo.go:444-456 | a row without a key always lands under a fresh id |
| Enqueuer.NoticeKeysAreInjective | cmd/api/notifier_adapter.go:100-124 | event, user, time and channel can all be recovered from a key, though the time is full of colons |
| Enqueuer.SecurityNotifier.Notify | cmd/api/notifier_adapter.go:92-124 | exactly the enqueues of the report, one per channel under its own key, whatever becomes of each; a malformed user id writes nothing |
| Enqueuer.SecurityNotifier.NotifyAll | cmd/api/notifier_adapter.go:59-124 | exactly the enqueues of all reports told, repeats included |
| Enqueuer.RowsTellEpisodesApart | cmd/api/notifier_adapter.go:100-133 | two reports share a key only if they agree on event, user, instant and channel |
| Enqueuer.StaysExactlyOne | modules/notification/infrastructure/persistence/repository/notification_repo.go:43-87 | a key that has exactly one row keeps exactly one |
| LockoutNotices.EpisodesAreToldApart | cmd/api/notifier_adapter.go:59-124 | the keys of two lock episodes of one account are equal if and only if it is the same episode and channel |
| LockoutNotices.EveryEpisodeHasItsRows | cmd/api/notifier_adapter.go:59-124 | for sequential saved logins whose lock episodes are told, each with its own end in the payload, repeats included and each unhindered at least once: every episode has exactly one row per channel, email and in-app, that is routable and wanted; each row added tells this user of one of these episodes under its own key, and no other row changes |
| Preferences.Preference.SetEnabled | modules/notification/domain/preference.go:80-87 | refused exactly when it would switch off the protected pair, and then nothing changes |
| Preferences.NewPreference | modules/notification/domain/preference.go:51-72 | accepts exactly known pairs of a user, less the protected pair switched off |
| Preferences.GateReadsTheTable | modules/notification/domain/preference.go:89-115 | the scan answers what the table holds, in whatever order the rows are listed: open for security mail, without a row, or with an enabled one |
| Preferences.PreferenceRepo.ListForUser | modules/notification/infrastructure/persistence/repository/preference_repo.go:35-56 | lists the user's rows as stored, timestamps included: all of them, each once, and no others |
| Preferences.PreferenceRepo.Upsert | modules/notification/infrastructure/persistence/repository/preference_repo.go:79-102 | every named pair holds what was named and every other key what it held, or nothing changes at all; it succeeds exactly when there is nothing to write, or no pair repeats and the statement works |
| Preferences.Service.GetPreferences | modules/notification/application/service.go:239-259 | the nine pairs in order, each with that answer |
| Preferences.Service.UpdatePreferences | modules/notification/application/service.go:272-308 | succeeds exactly when every entry is valid, no pair repeats, and the write, if there is one, and the re-read work; landed, each pair named holds what was said and every other key what it held; refused or not arrived changes nothing; the answer is the new matrix |
| Preferences.UpsertSays | modules/notification/infrastructure/persistence/repository/preference_repo.go:79-102 | after an accepted request each pair holds what it named, and the others what they held |
| Preferences.HistoryHolds | modules/notification/application/service.go:272-308 | after any sequence of requests, refused and lost ones included, the table holds the last word that landed on every pair |
| Preferences.MatrixAndGateAgree | modules/notification/application/service.go:239-308 | matrix and gate agree on every pair: on if protected, else as last landed, else on |
| Mailbox.Normalize | modules/notification/domain/repository.go:96-104 | defaults a missing limit, clamps a large one, changes nothing else |
| Mailbox.PageByColumns | modules/notification/infrastructure/persistence/repository/notification_repo.go:283-312 | a page by columns: the recipient's in-app rows, unread if asked, before the cursor by (created_at, id); newest first; none left out that is newer than one listed |
| Mailbox.ListForRecipient | modules/notification/infrastructure/persistence/repository/notification_repo.go:283-312 | exactly those rows, up to the limit, which is 20 if missing and 100 at most |
| Mailbox.Handler.CursorRoundTrip | modules/notification/transport/dto.go:183-212 | a cursor decodes to itself if and only if its time and id are not zero; stored rows have neither (`MailboxRuns.IssuedCursorsAreAccepted`) |
| Mailbox.Handler.ParseListFilter | modules/notification/transport/dto.go:233-271 | refuses exactly an unread flag or a limit that cannot be read, a limit below one, and a token that is no cursor; otherwise the filter is the one asked for |
| Mailbox.Handler.List | modules/notification/transport/handler.go:90-122 | one page, and a next cursor, its last row's, exactly when the page is full |
| Mailbox.WalkIsOrdered | modules/notification/transport/handler.go:98-118 | pages read one after another are strictly newest first across page boundaries |
| Mailbox.WalkMissesNothing | modules/notification/infrastructure/persistence/repository/notification_repo.go:283-312 | a row present and matching at every request is listed |
| Mailbox.PagingIsExact | modules/notification/transport/handler.go:98-118 | for every limit, with rows coming and going in between: no row twice, none missed that was there throughout, none listed that was not there, in order |
| Mailbox.PagingAStillMailbox | modules/notification/transport/handler.go:98-118 | over an unchanging mailbox the pages are exactly the matching in-app rows in order |
| Mailbox.PageShrinksTheRest | modules/notification/transport/handler.go:98-118 | a full page leaves strictly fewer rows to list |
| Mailbox.Reader.ReadFrom | modules/notification/transport/handler.go:98-118 | a client that repeats its request with each next cursor, over a mailbox that changes in between, comes to an end as long as nothing new appears behind what was there, and what it read is such a walk |
| MailboxRuns.RunsAreSteady | modules/notification/infrastructure/persistence/repository/notification_repo.go:283-312 | along any run of the outbox a row never changes its place in the order |
| MailboxRuns.PagingDuringARun | modules/notification/transport/handler.go:98-118 | paging while the outbox runs in between is exact in the same sense |
| MailboxRuns.NothingIsMissedMidRun | modules/notification/transport/handler.go:98-118 | a matching row that is there at the first request is listed, whatever runs in between |
| MailboxRuns.StoredRowsAreAddressable | modules/notification/domain/notification.go:207-248 | in every run no stored row has the nil id, and none the zero time unless an enqueue was stamped with it |
| MailboxRuns.IssuedCursorsAreAccepted | modules/notification/transport/dto.go:183-212 | the cursor of every row stored in such a run decodes to itself: every next cursor issued is accepted |
| TemplateNames.NameRoundTrip | modules/notification/infrastructure/template/renderer.go:275-303 | parseName inverts the file name if and only if the key is not empty, the channel is known and the part has no dot; keys may contain dots |
| TemplateNames.NameInFull | modules/notification/infrastructure/template/renderer.go:275-303 | the same for <key>.<channel>.<part>.tmpl written out |
| TemplateNames.NameIsRebuilt | modules/notification/infrastructure/template/renderer.go:275-303 | every accepted name is the name of what was read from it |
| TemplateNames.SlotsAreNotShared | modules/notification/infrastructure/template/renderer.go:180-200 | two files never supply the same part of the same family |
| TemplateRenderer.Family.Parse | modules/notification/infrastructure/template/renderer.go:211-249 | subject and text are compiled by the plain engine, html by the one that escapes, each into its own slot; a part that fails or is unknown fills none |
| TemplateRenderer.OneFileOneSlot | modules/notification/infrastructure/template/renderer.go:180-200 | a further file of a listing fills one part, until then empty, of one family |
| TemplateRenderer.Renderer.Add | modules/notification/infrastructure/template/renderer.go:180-200 | one turn of the loop: succeeds exactly for a usable file, and keeps the families those of the files so far |
| TemplateRenderer.Renderer.Validate | modules/notification/infrastructure/template/renderer.go:202-206 | passes exactly when every family has its subject and its text |
| TemplateRenderer.NewFromFS | modules/notification/infrastructure/template/renderer.go:168-209 | builds exactly when every file is usable and every family named has subject and text; each part is its own file's, and every family is complete |
| TemplateRenderer.PartsInFull | modules/notification/infrastructure/template/renderer.go:168-249 | each part of a built family is compiled from its own file, <key>.<channel>.<part>.tmpl, by its own engine; html exactly if it has a file |
| TemplateRenderer.OrderDoesNotMatter | modules/notification/infrastructure/template/renderer.go:174-209 | listings of the same files in any order build or fail alike, with the same families and parts |
| TemplateRenderer.Renderer.Render | modules/notification/infrastructure/template/renderer.go:309-347 | not found exactly for a missing family; otherwise a message exactly when every part executes and the subject is not empty |
| TemplateRenderer.RenderedSubject | modules/notification/infrastructure/template/renderer.go:315-347 | a family renders exactly when its parts execute and its subject has a word in it; the subject has no line break and every word; the bodies are their own parts, trimmed |
| MessageText.FieldsOfJoin | modules/notification/infrastructure/template/renderer.go:358-370 | joining words with single spaces and splitting again gives the words |
| MessageText.OneLineKeepsTheWords | modules/notification/infrastructure/template/renderer.go:358-370 | oneLine yields one line with the same words, changes exactly what was not one line already, and is empty only for white space |
| MessageText.TrimSpaceTrims | modules/notification/infrastructure/template/renderer.go:325-337 | only white space is cut from a body, and none is left at its ends |
| CoverageRatchet.ParseProfile | tools/coverage/main.go:325-390 | blank lines are skipped; it fails exactly when the read does, the first line is no mode line or a later one does not parse; otherwise one entry per package that reports, with the coverage of its own blocks' statements |
| CoverageRatchet.TalliesAdd | tools/coverage/main.go:360-376 | the counts of two stretches of a profile add up, so each block counts once whatever the order |
| CoverageRatchet.OneBlock | tools/coverage/main.go:360-376 | a block counts for its own package, as covered exactly if it ran |
| CoverageRatchet.PercentInFull | tools/coverage/main.go:378-389 | covered statements out of a hundred, and a hundred for none |
| CoverageRatchet.PercentInRange | tools/coverage/main.go:378-389 | with non-negative statement counts every percentage is within 0 and 100 |
| CoverageRatchet.RoundingFitsTheTolerance | tools/coverage/main.go:429-431 | rounding lands on a tenth, less than the tolerance below and at most the tolerance above |
| CoverageRatchet.ToleranceMatchesRounding | tools/coverage/main.go:208-229 | every percentage that passes is recorded no lower than the old value if and only if the old value is a multiple of 0.1 |
| CoverageRatchet.Policy.UpdateBaseline | tools/coverage/main.go:208-248 | package by package: a measured number is written down rounded unless it is more than 0.05 below the recorded one and that is not allowed, every other stays; the file changes exactly on success, and success is nothing refused and a working write |
| CoverageRatchet.Policy.CheckCoverage | tools/coverage/main.go:117-188 | package by package: below its floor or the baseline by more than 0.05, gone, or not checked; passes exactly when the first three are empty |
| CoverageRatchet.NoDropAfterUpdate | tools/coverage/main.go:120-145 | after an update a check of the same profile finds no drop, or only those the update refused |
| CoverageRatchet.UpdateKeepsTheRatchet | tools/coverage/main.go:208-229 | an update without permission lowers nothing and writes tenths again |
| CoverageRatchet.TheRatchetOnlyMovesUp | tools/coverage/main.go:208-248 | over any sequence of updates, refused or not, no recorded number goes down and none disappears |
| CoveragePatterns.MatchPattern | tools/coverage/main.go:292-322 | segment by segment, and against the leading segments for a recursive pattern |
| CoveragePatterns.RecursiveCoversTheTree | tools/coverage/main.go:292-322 | for any globs, "p/..." matches exactly the packages at or under one that p matches |
| CoveragePatterns.LiteralPatterns | tools/coverage/main.go:292-322 | without globs this is text up to a segment boundary |
| CoveragePatterns.FloorFor | tools/coverage/main.go:281-290 | the first matching floor |
| CoveragePatterns.MatchesAny | tools/coverage/main.go:263-279 | some pattern of the list matches |
| CoveragePatterns.FirstFloorCoversTheTree | tools/coverage/main.go:281-322 | a recursive floor placed first binds its whole tree and leaves every other package to the rest |
| CoveragePatterns.ExemptTreeIsLeftAlone | tools/coverage/main.go:120-229 | a package in the tree of an exempt "p/..." is in no finding, and no update touches its recorded number |
| CoveragePatterns.FirstTreeIsHeldToItsFloor | tools/coverage/main.go:120-139 | a measured package in the tree of the first floor is reported exactly when it is below that floor by more than the tolerance |

## Left out

- SQL itself: each statement or transaction is one atomic step; isolation levels, SKIP LOCKED beyond "some rows may be skipped", indexes other than the partial unique one, and rows from before the claimed_at migration are not part of this model.
- Goroutines, tickers, Start, Stop and context cancellation: only the steps they trigger; shutdown is a choice the drain loop can observe between cycles.
- SMTP, MIME, HTTP routing and problem documents, JSON, base64, template compilation and execution, bcrypt, TOTP, JWT: library calls, taken as parameters or arbitrary results.
- Ids, tokens and timestamps as text: ids are numbers, hashing is injective, the time format is an injective parameter where keys are told apart, and the user id in a key has no colon.
- The cursor's codec: a lossless pair of functions; only the checks around it are modelled.
- Nil entries in a claimed batch: the repository does not produce them.
- Observers, audit back ends, logging and metrics: only the reuse audit of a refresh is modelled.
- MarkAllRead (marks every unread in-app row of a recipient at once) and the user module (its own records, which no modelled part reads).
- Preferences.PreferenceRepo.ListForUser: leaves the order by channel and category open, as map iteration is; nothing proved depends on it.
- The text of the coverage report, and path.Match inside one segment: a parameter of the pattern match.
- RateLimiter.Limiter.Allow: does not model the mutex, the reset in Close, float64 rounding, or the conversion of a very large hint to int64; buckets are values in a map rather than pointers.
- Backoff.JitterRange: takes the jitter draw as a real, so float64 rounding of the product is not modelled.
- CoverageRatchet.ToleranceMatchesRounding: states the arithmetic over the reals, so the float64 rounding that the tolerance also absorbs is not modelled.
- Lockout.GuessRateIsBounded: is about attempts one after another on one account; concurrent logins read and write the account without a lock, and are not modelled.
- Lockout.GuessesWithinAllowance: needs a positive LockDuration, which the process configuration insists on and this model does not read.
- Lockout.LoginService.Login: ends where tokens are issued, and looks users up by exact name; the first token of a family is the Login step of the refresh protocol.
- Dispatch.World.Others: other workers keep the time limits too; a holder that falls behind settles nothing more, which is the assumption the timing results are stated under.
- Mailbox.Reader.ReadFrom: ends only if rows do not keep appearing behind the cursor; a producer whose clock lags could make that happen.
- Dispatch.Dispatcher.Drain: termination is claimed only with nothing enqueued meanwhile and batches that fit the stall window.
- TemplateRenderer.NewFromFS: the first error met is reported without its text, so which of several errors comes first is not stated.
