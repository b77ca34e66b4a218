# Mosaid: verified models of the durable state machines

Mosaid is a personal agent that keeps its work in SQLite tables: scheduled jobs with runs and lease
locks, an inbox and an outbox for Telegram, Instagram drafts with single-use approvals, and a hash
chained audit log. Every `BeginTx … Commit` body is one atomic step, and the process can stop between
any two steps. This project models those tables, the code that moves them, and four pieces of pure or
in-memory logic around them, and proves what holds over every run.

Check the whole project with `dafny verify dfyconfig.toml` (Dafny 4.11).

## How it is built

Each table is a field of a class and each transaction a method that updates the fields. The method's
postcondition ties the new tables to a function of the old ones; lemmas about these functions carry
the protocol-level results, so they speak about every interleaving of all transactions, by any owners,
at any clock readings. Loops of the program (drain loops, the poll loop, the token scanner, the schema
checks, the audit walk) are loops here, with their invariants.

| module | what it models |
|---|---|
| `TimeText` | the stored time text (RFC 3339 with nanoseconds, UTC) and the order SQLite gives to it |
| `Recurrence` | the recurrence grid and the retry backoff in 64-bit arithmetic |
| `SchedulerModel` | jobs, runs, locks and the effect of each scheduler transaction |
| `SchedulerSafety` | what every transaction keeps, attempt conservation, absorbing states, cancellation |
| `SchedulerLease` | which run a claim picks, and leases over whole runs |
| `SchedulerSlots` | which times runs are for, idempotency keys, firing windows |
| `SchedulerRows` | what transactions do to jobs, rows and locks column by column, and first hand-outs |
| `SchedulerStore` | the store class, and the worker that ends its attempt |
| `TelegramQueue`, `TelegramGateway` | inbox and outbox tables; the gateway process, crashes, drain loops |
| `Approvals` | approval requests, resolution, single use |
| `InstagramStore`, `InstagramPublish` | drafts; the publish protocol over drafts, approvals and provider |
| `Audit` | the hash chain |
| `JsonTokens` | the scanner that refuses repeated member names |
| `SkillSchema` | the check of an input schema, the check of a value against it, and input validation |
| `MessageGuard` | the token bucket |

## What the proofs found

- Stored times drop the trailing zeros of the fraction, so their text does not always sort like the
  instants. `TimeText.TextOrder` names the exact exception: one whole second, one trimmed fraction a
  proper prefix of the other. The tests `expires_at<=?`, `available_at<=?` and `next_run<=?` can be
  wrong by less than a second; the extra second that `acquireLock` adds to the timeout is what keeps a
  lease over the whole execution (`SchedulerLease.LeaseCoversExecution`).
- The slots of recurring jobs rise and stay below the next run all along a run exactly when every
  claim that fires a recurring job does so at or after its time and without overflow
  (`SchedulerSlots.SlotsAscendExactly`). Under the text order this can fail from the empty store: a
  job due at 15 ns is fired at 10 ns, stays due for the same slot, and its next firing is ignored by
  the unique key (`SchedulerSlots.EarlyFireHappens`, `SchedulerSlots.EarlyFireRepeats`).
- `NextRecurring` is the least grid point after now exactly when nothing overflows 64 bits; after an
  overflow it moves backward (`Recurrence.NextRecurringExact`, `Recurrence.AnchorMovesForward`).
- `Claim` on an Instagram draft that has been published in the meantime returns it without an error
  and without counting an attempt, so publish calls can exceed the attempts; the shortest such run
  is given from the empty start (`InstagramPublish.LateClaimPublishesAgain`). A publish call belongs
  to a counted attempt exactly if the claim behind it found the draft unpublished
  (`InstagramPublish.CountedIffUnpublished`), and the calls of a run stay within the attempts if no
  claim of the draft finds it published, and only then once every claim has made its call
  (`InstagramPublish.PublishCallsAccounted`). One media item per draft still follows from the
  provider's idempotency key.
- `Claim` puts a stale run of a cancelled job back to pending while `RecoverStale` cancels it; both
  are modelled as they are, and neither lets the run be handed out again
  (`SchedulerSafety.CancelledForGood`).
- `Verify` accepts every prefix of a log; only the head hash shows a truncation
  (`Audit.TruncationNeedsTheHead`).
- The bound on accepted messages over a window needs readings that do not go back. For readings in
  any order the bound is the burst plus the rate times the distance the clock moves forward along the
  user's own calls (`MessageGuard.BoundForAllReadings`), and it is attained
  (`MessageGuard.ClockMustNotGoBack`).
- Without the duplicate check, decoding would hide a member from the schema check
  (`SkillSchema.DuplicatesWouldHide`).

## Model

| member | source | states |
|---|---|---|
| TimeText.TextOrder | internal/scheduler/store.go:607-609 | stored text sorts like the instants for years 0000–9999, except that exactly the inverted pairs sort the other way; different instants have different text |
| TimeText.ReadsBack | internal/scheduler/store.go:603-609 | reading the stored text of an instant gives the instant back, through calendar, clock and trimmed fraction |
| TimeText.MonthTable | internal/scheduler/store.go:607-609 | the calendar the text is written with has the months at their lengths |
| TimeText.TextLeqExact | internal/scheduler/store.go:222 | the SQL test on two stored times agrees with the instants if and only if they are not inverted (or equal) |
| TimeText.TextLeqWithinSecond | internal/scheduler/store.go:277 | a time the SQL test accepts as reached lies less than a second ahead, and never in a later second |
| TimeText.WholeSecondsCompare | internal/scheduler/store.go:607-609 | times without a fraction always compare correctly |
| TimeText.EightDigitsSortLate | internal/scheduler/store.go:607-609 | every instant with exactly eight fractional digits sorts after each of the nine nanoseconds that follow it |
| Recurrence.NextRecurringExact | internal/scheduler/store.go:457-465 | the result is the least grid point after now if and only if the 64-bit arithmetic does not overflow; otherwise it is not after now |
| Recurrence.CatchUpFits | internal/scheduler/store.go:463-464 | no overflow when the lag plus one interval fits in 64 bits |
| Recurrence.AnchorMovesForward | internal/scheduler/store.go:460-464 | the anchor moves forward exactly when it is not after now and nothing overflows |
| Recurrence.CatchUpComposes | internal/scheduler/store.go:457-465 | catching up in two steps equals catching up once, when catching up once does not overflow |
| Recurrence.BackoffIsCappedDoubling | internal/scheduler/store.go:471-487 | for a base of at most 24 hours the delay is base · 2^min(max(attempts−1, 0), 10), capped at 24 hours, without overflow |
| Recurrence.BackoffDoubles | internal/scheduler/store.go:471-487 | the first wait is the base, each of the next ten doubles it up to 24 hours, later ones stay |
| Recurrence.BackoffMonotone | internal/scheduler/store.go:471-487 | the delay never shrinks with more attempts and never exceeds 24 hours |
| Recurrence.BackoffWrapsForHugeBase | internal/scheduler/store.go:482-486 | beyond the bound that job creation enforces, the delay can wrap to zero |
| SchedulerSafety.PurgeKeeps | internal/scheduler/store.go:222-230 | the housekeeping of a claim keeps the store invariant and leaves a running run only where its job is locked |
| SchedulerSafety.ClaimKeeps | internal/scheduler/store.go:211-326 | both claim paths keep the store invariant |
| SchedulerSafety.ExecKeeps | internal/scheduler/store.go:172-437 | every sequence of transactions keeps the store invariant |
| SchedulerSafety.SafeInEveryRun | internal/scheduler/store.go:172-437 | over every interleaving each job has at most one running run, no slot is used twice, attempts stay within the job's limit of at most 20 and are at least one while running |
| SchedulerSafety.OneTimeFiresOnce | internal/scheduler/store.go:306-319 | a one-time job has at most one run row ever, even when enabled again |
| SchedulerSafety.StepEffect | internal/scheduler/store.go:228-419 | one transaction never loses or reorders rows and changes attempts only by a hand-out or an effective requeue |
| SchedulerSafety.AttemptConservation | internal/scheduler/store.go:261-419 | a run row has been handed out exactly as often as its attempts plus its effective requeues |
| SchedulerSafety.FinalStatesAbsorb | internal/scheduler/store.go:353-437 | a completed, dead, denied, cancelled or skipped row is never written again |
| SchedulerSafety.CancelTakesEffect | internal/scheduler/store.go:184-203 | cancelling disables the job, leaves it no pending run and touches no other job's runs |
| SchedulerSafety.CancelledForGood | internal/scheduler/store.go:184-326 | after a cancellation no continuation hands out or creates a run of the job |
| SchedulerLease.TextIsTotalPreorder | internal/scheduler/store.go:250 | the text order that ORDER BY uses is total and transitive |
| SchedulerLease.PickPendingIsFirst | internal/scheduler/store.go:249-251 | the retried run is the first claimable one by available time, then id |
| SchedulerLease.PickDueIsFirst | internal/scheduler/store.go:276-278 | the fired job has the first next run among the due jobs, and the first id among equals |
| SchedulerLease.ClaimFindsWork | internal/scheduler/store.go:232-246 | a claim returns nothing only if nothing can be retried and no job is due, or the due job's window was missed or its slot taken |
| SchedulerLease.ClaimTakesLease | internal/scheduler/store.go:328-339 | a handed-out run's job is locked for its owner for at least the lock TTL and at least a second more than the timeout |
| SchedulerLease.LeaseExcludesOthers | internal/scheduler/store.go:222-419 | until a reading reaches the expiry or the owner ends or requeues a run of the job, no continuation hands out or creates a run of it |
| SchedulerLease.TextLeaseLasts | internal/scheduler/store.go:222 | with text comparison a lock is never purged a full second before its expiry |
| SchedulerLease.LeaseCoversExecution | internal/scheduler/store.go:328-339 | from a claim until one second before its lock expires, so at least until the timeout has passed, no interleaving hands out another run of the job, in spite of the text order |
| SchedulerLease.PurgeExactly | internal/scheduler/store.go:222 | any lock of the table is purged exactly at its expiry if and only if expiry and reading are not inverted |
| SchedulerSlots.RunKeyInjective | internal/scheduler/store.go:467-469 | two runs share an idempotency key exactly when job and instant agree |
| SchedulerSlots.NoInsertIgnored | internal/scheduler/store.go:311-319 | while slots ascend, the next slot of a recurring job is free, so its insert is never ignored |
| SchedulerSlots.FireAscendsExactly | internal/scheduler/store.go:288-319 | firing a recurring job keeps slots rising and below the next run if and only if the job is really due and nothing overflows |
| SchedulerSlots.StepAscendsExactly | internal/scheduler/store.go:211-326 | a transaction keeps the slots ascending if and only if the recurring job it fires, if any, is really due without overflow |
| SchedulerSlots.SlotsAscendExactly | internal/scheduler/store.go:172-437 | over every run from the empty store the slots of recurring jobs strictly rise, lie on the grid and stay below the next run throughout if and only if every firing is on time; then no insert is ignored |
| SchedulerSlots.FireMovesOn | internal/scheduler/store.go:294-305 | firing moves the next run past the slot if and only if the job was really due and nothing overflowed |
| SchedulerSlots.EarlyFireRepeats | internal/scheduler/store.go:301-319 | a job fired early stays due for the same slot, and the repeated firing hands out nothing |
| SchedulerSlots.EarlyFireHappens | internal/scheduler/store.go:277-319 | from the empty store, under the text order, a claim fires a job 5 ns early, the slots stop ascending, and a later claim on time finds the slot taken |
| SchedulerSlots.FirstHandOutWindow | internal/scheduler/store.go:276-326 | a claim that adds and hands out a row does so less than a second early, early exactly on inverted pairs, and under Skip always before the next slot |
| SchedulerSlots.RequeueUndoesClaim | internal/scheduler/store.go:405-419 | requeueing what a claim handed out restores its attempts and the locks and leaves it claimable |
| SchedulerRows.PurgeInColumns | internal/scheduler/store.go:222-230 | a stale running run goes to pending, or to dead without attempts left; a spent pending run dies; every other row stays; locks go exactly when expired |
| SchedulerRows.RetriedRun | internal/scheduler/store.go:249-273 | a run handed out again was pending with its pause over, or running under a lost lock; its job is not cancelled and unlocked, and it has attempts left |
| SchedulerRows.AddedRun | internal/scheduler/store.go:276-326 | a claim adds a row only for an enabled, due, unlocked job: a skipped one exactly when a Skip job has missed its whole window, otherwise a running one with its first attempt |
| SchedulerRows.FiringLocks | internal/scheduler/store.go:285-339 | firing locks the job until the larger of TTL and timeout plus a second; a missed or taken slot leaves the locks alone |
| SchedulerRows.WaitingRunIsFound | internal/scheduler/store.go:232-238 | if any run waits, a valid claim hands out a run |
| SchedulerRows.DueJobIsServed | internal/scheduler/store.go:239-325 | if any job is due, a valid claim hands out a run or moves a due job past a missed or taken slot |
| SchedulerRows.JobInColumns | internal/scheduler/store.go:172-326 | enabling, cancelling and firing are the only changes to a job, each with its exact effect |
| SchedulerRows.RowInColumns | internal/scheduler/store.go:184-437 | what every call but a claim does to a row, column by column |
| SchedulerRows.LockInColumns | internal/scheduler/store.go:353-437 | recovery drops expired locks, ending a running run and requeueing any run drop its job's lock for the owner, nothing else drops one |
| SchedulerRows.KeysUniqueInEveryRun | internal/scheduler/store.go:43-57 | in every run no two jobs share a creation key |
| SchedulerRows.CreatedDefaults | internal/scheduler/store.go:88-156 | the defaults and bounds of every created job |
| SchedulerRows.AcceptedExactly | internal/scheduler/store.go:61-156 | a submission is accepted if and only if ids, time, interval and bounds are in order |
| SchedulerRows.NeverHandedExactly | internal/scheduler/store.go:290-319 | in every run a row is never handed out if and only if it is a skipped one |
| SchedulerRows.FirstHandOutCreates | internal/scheduler/store.go:249-326 | the first hand-out of a run is the call that creates its row |
| SchedulerRows.FirstHandOutInWindow | internal/scheduler/store.go:276-326 | in every run a run is first handed out at its time up to the text order and, under Skip, before the next slot |
| SchedulerStore.Store.CreateJob | internal/scheduler/store.go:33-59 | stores the normalized job unless its id or creation key is taken, and says which |
| SchedulerStore.Store.SetJobEnabled | internal/scheduler/store.go:172-182 | switches a job that is not cancelled and reports others as not found |
| SchedulerStore.Store.CancelJobRuns | internal/scheduler/store.go:184-203 | cancels the job and its pending runs, keeps the first cancellation time |
| SchedulerStore.Store.AcquireLock | internal/scheduler/store.go:328-339 | takes a free lock until now plus the larger of TTL and timeout plus a second, and never replaces one |
| SchedulerStore.Store.ClaimPendingRun | internal/scheduler/store.go:249-274 | hands out the first claimable run and locks its job, or changes nothing |
| SchedulerStore.Store.ClaimDueJob | internal/scheduler/store.go:276-326 | fires the first due job: nothing new for a taken slot, a skipped row for a missed window of a Skip job, else a running row that is handed out |
| SchedulerStore.Store.ClaimRun | internal/scheduler/store.go:211-247 | performs purge and both paths in place, keeps the invariant, and a run it returns is running under the caller's lock |
| SchedulerStore.Store.ReleaseLock | internal/scheduler/store.go:368-370 | drops the job's lock only if the owner holds it |
| SchedulerStore.Store.FinishRun | internal/scheduler/store.go:353-372 | ends a running run, whoever asks, and fails on any other |
| SchedulerStore.Store.FailRun | internal/scheduler/store.go:374-403 | sends a running run back with its backoff, or to dead when its attempts are used up |
| SchedulerStore.Store.RequeueRun | internal/scheduler/store.go:405-419 | gives a running run back with its attempt, and releases the owner's lock even if the run is not running |
| SchedulerStore.Store.RecoverStaleRuns | internal/scheduler/store.go:421-437 | frees expired locks and puts unlocked running runs to pending, or to cancelled for a cancelled job |
| SchedulerStore.HeldRunStays | internal/scheduler/store.go:225 | a running run with an unexpired lock is changed only by a call that names it |
| SchedulerStore.WorkerFindsItsRun | internal/scheduler/scheduler.go:61-106 | until the lease expires the worker's run stays as it was handed out through every interleaving, so its own ending applies |
| SchedulerStore.EndingSettlesRun | internal/scheduler/scheduler.go:84-105 | each executor outcome leads to its own final state, frees the job and uses an attempt unless it was an interruption |
| TelegramQueue.Queue.Open | internal/storage/db.go:147-174 | puts running inbox rows and sending outbox rows back to pending, leaves none in flight and keeps the tables sound |
| TelegramQueue.Queue.IngestUpdate | internal/storage/db.go:178-199 | stores a new update as a last row that is pending, unattempted and ready at once, and reports a redelivery as not inserted |
| TelegramQueue.Queue.ClaimNext | internal/storage/db.go:207-234 | takes the first ready inbox row by id and counts the attempt |
| TelegramQueue.Queue.Complete | internal/storage/db.go:235-250 | completes the row and stores its reply, pending and ready at once, unless the key has one; keeps the tables sound even when repeated |
| TelegramQueue.Queue.Fail | internal/storage/db.go:251-261 | sends the row back with a doubling pause, or to dead at the limit |
| TelegramQueue.Queue.ClaimReply | internal/storage/db.go:270-297 | takes the first ready reply by id and counts the attempt |
| TelegramQueue.Queue.MarkSent | internal/storage/db.go:298-301 | marks the reply sent and keeps the tables sound |
| TelegramQueue.Queue.MarkFailed | internal/storage/db.go:302-312 | sends the reply back with a doubling pause, or to dead at the limit |
| TelegramQueue.DelayDoubles | internal/storage/db.go:258-259 | the pause after a failure is one second doubled per attempt, 64 seconds from the sixth on |
| TelegramGateway.NextKeeps | internal/telegram/gateway.go:92-155 | every step of the process, crash and reopen included, keeps the queue invariant |
| TelegramGateway.ReceiveOutcome | internal/telegram/gateway.go:92-100 | a poll that comes through stores the update once, as a last pending row |
| TelegramGateway.RestartOutcome | internal/storage/db.go:169 | after a crash and a restart nothing is in flight: it is pending again with its attempts, and all else is as it was |
| TelegramGateway.EveryUpdateAccountedFor | internal/storage/db.go:178-262 | through any run each ingested update has exactly one row, at most one reply, a reply exactly if completed, and the four state counts add up to the updates |
| TelegramGateway.BoundedEffects | internal/telegram/gateway.go:108-155 | over any run, counted in its own steps: a handler sees an update at most MaxAttempts times plus the restarts that found it in flight; a reply is sent at most once and tried at most MaxAttempts times plus such restarts; neither is given up before MaxAttempts attempts |
| TelegramGateway.HistoriesCount | internal/telegram/gateway.go:108-155 | the histories record exactly the handler calls, sends and interrupting restarts of the run |
| TelegramGateway.NothingLost | internal/storage/db.go:207-312 | rows and replies are never lost, and completed, dead and sent ones never change |
| TelegramGateway.TurnLightens | internal/telegram/gateway.go:108-137 | a turn of the inbox loop lowers the weight of the pending rows whatever clock, handler and store do |
| TelegramGateway.SendLightens | internal/telegram/gateway.go:148-153 | a successful send leaves one pending reply fewer |
| TelegramGateway.DrainsKeepSound | internal/telegram/gateway.go:108-155 | any number of turns of either loop keeps one row per update and replies matching completed rows |
| TelegramGateway.TurnIsThreeSteps | internal/telegram/gateway.go:108-137 | a turn of the loop is three steps of the process in a row |
| TelegramGateway.SendIsProcessSteps | internal/telegram/gateway.go:138-155 | a turn of the outbox loop is a claim, a send and its record in a row |
| TelegramGateway.Gateway.SettleRow | internal/telegram/gateway.go:118-135 | answers and budget errors complete the row, other errors and refused completions fail it |
| TelegramGateway.Gateway.HandleNext | internal/telegram/gateway.go:110-135 | claims the first ready row, calls the handler and settles the row, keeping the tables sound |
| TelegramGateway.Gateway.DrainInbox | internal/telegram/gateway.go:108-137 | stops within the initial weight of the inbox and, unless a claim failed, leaves no ready row |
| TelegramGateway.Gateway.SendNext | internal/telegram/gateway.go:140-152 | claims the first ready reply and leaves it sent after a success, pending or at the limit dead after a failure, and in flight if the store refuses |
| TelegramGateway.Gateway.DrainOutbox | internal/telegram/gateway.go:138-155 | sends until nothing is ready, a claim fails or a send fails, and the failed send is put back |
| TelegramGateway.Gateway.IngestBatch | internal/telegram/gateway.go:66-101 | the offset passes every update of the batch, and exactly the accepted updates are stored |
| Approvals.VouchedForGood | internal/approval/approval.go:66-93 | what a receipt states stays on record |
| Approvals.SingleUse | internal/approval/approval.go:66-93 | in any sequence of operations an approval yields at most one receipt, and none once used |
| Approvals.DecisionExactly | internal/approval/approval.go:94-135 | a binding never changes, and a request is approved, denied or expired exactly by an operation that says so |
| Approvals.ApprovedByDecision | internal/approval/approval.go:94-135 | whatever is approved was approved by a decision in time, by the user it names and for its binding |
| Approvals.IssuesExactly | internal/approval/approval.go:66-93 | a receipt is issued exactly for an approved, unexpired, unused request and its own binding |
| Approvals.DenialIsFinal | internal/approval/approval.go:94-135 | after a denial no sequence of operations issues a receipt for the request |
| Approvals.Manager.AskFor | internal/approval/approval.go:34-48 | records a waiting request under a new token |
| Approvals.Manager.Decide | internal/approval/approval.go:94-135 | approves or denies as asked a waiting, unexpired request with the same binding, expires a late one, and changes nothing else |
| Approvals.Manager.DecideByToken | internal/approval/approval.go:49-60 | records the decision as given, exactly for a waiting, unexpired request of that user |
| Approvals.Manager.AuthorizeReceipt | internal/approval/approval.go:66-93 | consumes an approved, unexpired request with the same binding once, and the receipt says what the row says |
| InstagramStore.Store.CreateDraft | internal/instagram/store.go:28-61 | adds a prepared draft under a new id and creation key; returns the existing draft for the same request, reports a conflict for another request under its key, and keeps creation keys unique |
| InstagramStore.Store.Authorize | internal/instagram/store.go:67-77 | sets the authorization of a prepared or failed draft only |
| InstagramStore.Store.ClaimDraft | internal/instagram/store.go:79-120 | starts an attempt exactly for a prepared or failed draft with attempts left, authorized, and past its publish time and pause; returns a published draft as it is |
| InstagramStore.Store.SaveStagedMedia | internal/instagram/store.go:122-136 | records staging only during an attempt; content, attempts and published media stay |
| InstagramStore.Store.SaveContainerId | internal/instagram/store.go:138-151 | records the container only during an attempt; content, attempts and published media stay |
| InstagramStore.Store.CompleteDraft | internal/instagram/store.go:153-171 | publishes a draft in an attempt and fails on any other |
| InstagramStore.Store.FailDraft | internal/instagram/store.go:173-192 | ends an attempt with a doubling pause and fails on any other draft |
| InstagramStore.Store.RecoverDrafts | internal/instagram/store.go:194-201 | leaves no draft in an attempt; content, attempts and published media stay |
| InstagramStore.DelayDoubles | internal/instagram/store.go:183 | the pause after a failed attempt is one second doubled per earlier attempt, at most 64 seconds |
| InstagramPublish.ApprovalsKept | internal/instagram/service.go:109-248 | every step keeps each authorization, cleared call and made call backed by a consumed approval |
| InstagramPublish.EveryPublishIsApproved | internal/instagram/service.go:109-247 | every publish call of any run had an approval of the owner, approved by an approving step of the run, consumed exactly once, bound to the draft's account, hashes and time, and unexpired when it was checked |
| InstagramPublish.ApprovalPinsContent | internal/instagram/service.go:298-300 | with an injective hash one approval backs one draft with one content only |
| InstagramPublish.IssuedOnce | internal/approval/approval.go:66-93 | over any run of the workflow an approval issues exactly as many receipts as its recorded use, so at most one |
| InstagramPublish.ClaimGuard | internal/instagram/store.go:86-120 | a claim that goes through is late exactly if it finds the draft published, counts an attempt exactly if not, and goes on with the saved container and staging |
| InstagramPublish.PublishCallsAccounted | internal/instagram/service.go:150-269 | in every run each publish call was made under a fresh claim, within attempts and limit, or under a late one; calls and claims still without one equal attempts and late claims; no late claim means calls within attempts, and only then once every claim has made its call |
| InstagramPublish.CountedIffUnpublished | internal/instagram/store.go:89-111 | in every run the claim behind a publish call is a step of the run, and it counted an attempt if and only if it found the draft unpublished, then past its publish time and pause |
| InstagramPublish.NothingGoesOutEarly | internal/instagram/store.go:102-104 | in every run whose claim and check readings do not go back, no publish call is cleared before the publish time of its draft |
| InstagramPublish.StagingOutcome | internal/instagram/service.go:173-192 | good media is used again, new media must have an id and last more than a minute, and a container is only asked for with good media |
| InstagramPublish.ContainerOutcome | internal/instagram/service.go:193-207 | a saved container is used again, a new one must have an id and is saved before it is polled |
| InstagramPublish.CheckOutcome | internal/instagram/service.go:238-246 | the publish call goes ahead exactly if the draft, read again, is authorized beyond the reading |
| InstagramPublish.BeginOutcome | internal/instagram/service.go:154-160 | a Resume call starts work exactly on a draft it reads as not published |
| InstagramPublish.AuthorizeOutcome | internal/instagram/service.go:127-143 | a receipt authorizes a prepared or failed draft until it expires exactly if it is genuine, unexpired, the owner's and bound to what the draft is now |
| InstagramPublish.PublishOutcome | internal/instagram/service.go:247-255 | the publish call is made for the worker's own container, the provider keeps the first item per draft, and an answer without an item ends the attempt as failed |
| InstagramPublish.FinishOutcome | internal/instagram/service.go:256-259 | a success is recorded exactly while the draft is in an attempt, else a failure is |
| InstagramPublish.FailOutcome | internal/instagram/service.go:166-171 | a failure ends the attempt the draft is in, with its pause |
| InstagramPublish.RecoverOutcome | internal/instagram/service.go:271-273 | recovery ends every attempt and makes the drafts claimable from the reading on |
| InstagramPublish.LateClaimPublishesAgain | internal/instagram/store.go:90-92 | for any draft content a run from the empty start makes two publish calls with one attempt |
| InstagramPublish.EveryPublishFollowsFinished | internal/instagram/service.go:208-247 | every publish call comes from its own Resume call after that call saw the same container finished |
| InstagramPublish.PublishedForGood | internal/instagram/service.go:247-256 | a published draft names the provider's one media item for its key and keeps it in every continuation |
| InstagramPublish.AttemptIsCounted | internal/instagram/store.go:173-183 | a draft that Fail can touch has at least one attempt and at most its limit, so the shift count is never negative |
| InstagramPublish.PollContainer | internal/instagram/service.go:208-237 | goes on exactly if one of the allowed polls is finished and all before it were in progress |
| Audit.Logger.Append | internal/audit/audit.go:26-57 | adds one row with the given columns and keeps the chain, or changes nothing on a clash |
| Audit.Logger.Verify | internal/audit/audit.go:58-88 | accepts exactly the chains |
| Audit.AppendNeverClashes | internal/audit/audit.go:41-55 | on a chain with an injective hash the next row never clashes |
| Audit.SameHeadSameLog | internal/audit/audit.go:58-88 | two verified logs with the same head hash are equal row by row |
| Audit.TamperingShows | internal/audit/audit.go:58-88 | a changed log fails verification or ends in another head hash |
| Audit.TruncationNeedsTheHead | internal/audit/audit.go:58-88 | every proper prefix of a log verifies and has another head hash |
| JsonTokens.ConsumeDocument | internal/skills/loader.go:120-167 | on a document's tokens followed by anything the scan stops exactly at the document's end, if and only if no object repeats a name; otherwise it reports a name that repeats |
| JsonTokens.ConsumedIsDocument | internal/skills/loader.go:120-167 | whatever the scan consumes is the tokens of some document |
| JsonTokens.ScanExact | internal/skills/loader.go:111-118 | a text passes if and only if it is one document with unique names and nothing after it |
| JsonTokens.Decoder.ConsumeValue | internal/skills/loader.go:120-167 | moves the cursor exactly past the value, or reports the first problem |
| JsonTokens.Decoder.RejectDuplicateKeys | internal/skills/loader.go:111-118 | scans one value and then demands the end of the text |
| SkillSchema.ValidateSchemaNode | internal/skills/manifest.go:321-377 | accepts exactly the well-formed schemas nested at most 16 deep, in whatever order keys are visited |
| SkillSchema.AcceptedNodes | internal/skills/manifest.go:321-340 | an accepted node has known keywords and a known type |
| SkillSchema.AcceptedObjects | internal/skills/manifest.go:339-370 | an accepted object node is closed and names its properties properly |
| SkillSchema.AcceptedRequired | internal/skills/manifest.go:355-369 | an accepted object node requires only properties it declares |
| SkillSchema.CheckIntegerBound | internal/skills/schema.go:151-167 | a numeric size keyword accepts exactly the sizes on its side of a usable bound; an unusable one accepts none |
| SkillSchema.AtoiReadsBack | internal/skills/schema.go:156 | reading a written integer gives it back, with either sign, if and only if 64 bits hold it |
| SkillSchema.ObjectNode | internal/skills/schema.go:47-71 | an object node takes exactly objects with only declared members, every required one, and each conforming to its node |
| SkillSchema.ArrayNode | internal/skills/schema.go:72-88 | an array node with both sizes written out takes exactly arrays between them with conforming items |
| SkillSchema.StringNode | internal/skills/schema.go:89-100 | a string node with both lengths written out takes exactly the strings between them |
| SkillSchema.NumberNode | internal/skills/schema.go:101-124 | a number or integer node with finite bounds takes exactly the finite, for integer whole, numbers between them |
| SkillSchema.Trunc | internal/skills/schema.go:110 | rounding toward zero leaves exactly the whole numbers as they are |
| SkillSchema.MatchesEnum | internal/skills/schema.go:134-147 | finds the value among the candidates if there is an enum array |
| SkillSchema.ValidateValue | internal/skills/schema.go:41-149 | on an accepted schema accepts exactly the conforming values, in whatever order keys are visited, with no failing type assertion and without reaching the depth guard |
| SkillSchema.ValidateInput | internal/skills/schema.go:14-39 | accepts exactly a bounded schema that is accepted with a bounded input that repeats no name and conforms |
| SkillSchema.PartsConform | internal/skills/schema.go:66-89 | every part of a conforming value has a schema node it conforms to and lies at most 16 deep |
| SkillSchema.NothingUnchecked | internal/skills/schema.go:21-37 | every part of the text of an accepted input, as written, conforms to the schema node at its path |
| SkillSchema.DuplicatesWouldHide | internal/skills/schema.go:21-23 | with a repeated name decoding can hide a member that does not conform |
| SkillSchema.ScalarsDecode | internal/skills/schema.go:24-34 | scalars decode to their own kind and different ones differently |
| MessageGuard.Guard.AllowMessage | internal/security/limits.go:132-156 | lets a well-formed message through exactly if the sender has a token, after perMinute tokens for every minute forward up to the burst, and spends it; leaves other users alone |
| MessageGuard.TokensStayInBounds | internal/security/limits.go:147-154 | over any calls tokens stay between zero and burst |
| MessageGuard.BoundForAllReadings | internal/security/limits.go:139-154 | for readings in any order the accepted calls of a user number at most burst plus rate times the distance the clock moves forward along its own calls |
| MessageGuard.RateLimit | internal/security/limits.go:125-156 | with readings that do not go back, the calls accepted for a user in any window number at most burst plus rate times window |
| MessageGuard.WaitingIsEnough | internal/security/limits.go:139-154 | after any earlier calls a user's first well-formed call is let through, and so is one that comes at least the time of one token after its last |
| MessageGuard.ClockMustNotGoBack | internal/security/limits.go:143-148 | readings that go back and forth let more calls through than burst plus rate times window, as many as the bound for all readings allows |
| MessageGuard.UsersAreIndependent | internal/security/limits.go:139-154 | what a user is let through depends on that user's calls alone |

## Left out

- MessageGuard.RateLimit: exact reals instead of float64, so rounding of the refill is not modelled; calls are serialised with the readings in call order.
- SkillSchema.ValidateValue: which float a literal denotes is a parameter; comparing enum candidates by their encoding is equality of decoded values with number literals compared as text.
- SkillSchema.ValidateInput: lexing is not modelled; a text is its size and, if it is valid JSON, the document it holds. The decoder's own nesting limit is not modelled.
- JsonTokens.ScanExact: commas and colons are not tokens; a syntax error ends the stream.
- TelegramGateway.BoundedEffects: FailInbox and OutboxFailed read the attempts and write the row in two statements; a read that fails alone, which the code ignores, is not modelled.
- InstagramPublish.EveryPublishIsApproved: the approval is unexpired at the clock reading taken just before the publish call, as in the code; time that passes during the call is not bounded.
- InstagramPublish.PublishedForGood: that the provider treats equal idempotency keys as one request is an assumption about the provider.
- TimeText.TextOrder: years outside 0000–9999 are excluded, RFC 3339 cannot write them.
- SQLite itself, WAL, migrations, backup and restore: each transaction is taken as atomic and durable, a failing one as no step.
- SHA-256, JSON encoding and random tokens: injective functions, parameters or keys. Requests are keyed by their token, replies by the update id, runs by job and slot.
- Concurrency inside Go (mutexes, contexts, goroutines), the scheduler's map of active runs and the polling loop around RunOnce: interleaving is a free choice of the next transaction.
- Columns that no modelled decision reads (last_error, created_at, updated_at, timezone, class, risk, input) and their validation in normalizeJob.
- Publish events, staging URLs and CleanupExpired; clearing the staging columns is a step that can happen at any time.
- Handlers, clients, the model provider, MCP, subprocesses, git, file stores, scripts: I/O around the tables.
- policy.Evaluate, PolicyGate, config bounds, Budget.consume, limitedBuffer, version comparison and the other manifest checks: each is settled by one reading of its body.
