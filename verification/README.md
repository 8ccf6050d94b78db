# Histae backend: verified protocols

A Dafny model of the transactional core of a dating backend that keeps its state in PostgreSQL, and proofs about it.
Each `database.transaction` or single statement of the backend is one atomic step; the tables are maps; instants are
parameters. For the parts that change rows there is a class with the tables as fields, whose methods do the statements
one after the other and are tied to a transition function; the claims about whole runs are lemmas over that function,
for every sequence of enabled steps by any number of actors. Lemmas whose names end in `Columns` say by the columns of
the rows alone when a transition does something, and what it writes.

| file | what it holds |
|---|---|
| `Sql.dfy` | what ORDER BY, LIMIT, keyset pages and unions of limited branches select |
| `Outbox.dfy` | events under leases: claims, renewals, completion, retries, dead letters, retention, the worker |
| `AccountActivity.dfy` | the shared and exclusive account locks |
| `Erasure.dfy`, `ErasureSaga.dfy`, `ErasureProgress.dfy` | the transactions of account erasure, their interleaving with workers, writers and maintenance, and that they get to the end |
| `Otp.dfy` | deliveries of one-time passwords |
| `Matches.dfy`, `MatchMaintenance.dfy` | the life of a match, the continuation quota, and the batched maintenance |
| `RefreshSessions.dfy` | refresh-token families and devices |
| `Subscriptions.dfy` | the projection of Stripe subscriptions |
| `Json.dfy`, `Utf8.dfy`, `ExportWriter.dfy`, `ExportPages.dfy` | the streaming data export |
| `Feed.dfy`, `Swipes.dfy` | the discovery feed and the swipe store |
| `SwipePlans.dfy` | the plan of the development seed |
| `RateLimit.dfy` | the in-memory limiter |
| `Photos.dfy` | photos across database, storage and outbox |
| `Consents.dfy` | the consent log and the data stored under it |

Throughout: identifiers given to new rows are new (they are UUIDs), `attempt_number` and `event_sequence` grow with
insertion, and the unique keys of the schema hold. The clock goes forward where a property needs it
(`RefreshSessions`, `Swipes`, the bounds of `RateLimit`); elsewhere instants are arbitrary.

What the model found:
- That a short batch of deleted swipes was the last rests on a CHECK constraint: with a self-swipe in the table the
  union would count a row twice. `ErasureDatabase.ShortBatchMayLeaveRows` says exactly when rows would be left.
- A send receipt or a timeout and an `sms_sent` callback may leave a code usable in one order and used up in the other,
  exactly if the code expires between the two clock readings and, of a receipt and a callback, just one has an effect
  (`Otp.SentCommutesWithReceipt`, `Otp.SentCommutesWithUnknown`).
- An export writer that was never used passes `assertComplete`, and its empty file is not JSON; with one call or more
  completeness does mean one JSON text (`ExportTree.CompleteRun`).
- A window of the limiter begins with an admitted request, so an interval as long as a window admits at most
  `2 * max - 1`, not `2 * max`, and at most `max` if the window is one millisecond; every policy reaches its bound
  (`RateLimit.NeverMore`, `RateLimit.BoundIsReached`).
- A sweep of the limiter shows exactly if a call reads a clock before the expiry of an entry of its key that was
  already swept (`RateLimit.SweepShowsExactly`).
- `work_remaining` of the match maintenance says nothing when `maxBatches` is 0: no batch has run.

## Model

| member | source | states |
|---|---|---|
| Sql.LimitThenMerge | src/outbox/outbox.repository.ts:135-157 | Limiting each branch of a UNION ALL, merging and limiting again selects exactly the rows that one limit over the whole union selects |
| Sql.LimitedUnique | src/outbox/outbox.repository.ts:145-153 | An ORDER BY ending in a unique key leaves a LIMIT one possible answer |
| Sql.ShortMeansAll | src/privacy/erasure.repository.ts:95 | Fewer rows than the limit means that the query returned every row |
| Sql.PageOfLimitedBranches | src/matches/matches.repository.ts:18-65 | With each branch cut to limit + offset, the page of the merged branches is the page of the full sorted union, for every limit and offset |
| Sql.PrefixIsLimited | src/outbox/outbox.repository.ts:74-76 | The first k rows of the sorted listing are what LIMIT k selects |
| Sql.ListingUnique | src/outbox/outbox.repository.ts:74-76 | A strict order lists a set of rows in one way only |
| Sql.Limit | src/outbox/outbox.repository.ts:74-76 | ORDER BY and LIMIT, computed by taking the first remaining row again and again |
| Sql.KeysetPage | src/privacy/data-export.repository.ts:94-101 | One keyset page: the first rows beyond the cursor, sorted, each once |
| Outbox.Repository.Enqueue | src/outbox/outbox.repository.ts:25-40 | Inserts at most one event for a type and aggregate, and leaves an existing one as it is |
| Outbox.Repository.Requeue | src/outbox/outbox.repository.ts:42-60 | Inserts the event or restarts the existing one with no attempts |
| Outbox.Repository.ClaimBatch | src/outbox/outbox.repository.ts:62-87 | Claims exactly the first claimable rows in order that nobody else has locked, each with one more attempt and a fresh lease |
| Outbox.Repository.RenewClaim | src/outbox/outbox.repository.ts:89-94 | Extends the lease of its owner and nobody else's |
| Outbox.Repository.Complete | src/outbox/outbox.repository.ts:96-109 | Completes an event only for the worker that holds its lease |
| Outbox.Repository.Reschedule | src/outbox/outbox.repository.ts:111-133 | Returns the event to pending or, with its attempts used up, to the dead letters, only for the lease holder |
| Outbox.Repository.PurgeCompleted | src/outbox/outbox.repository.ts:135-157 | Deletes exactly the oldest finished events, up to the limit, completed and discarded together |
| Outbox.Repository.RetryDeadLetter | src/outbox/outbox.repository.ts:220-262 | Restarts a dead letter and no other event |
| Outbox.Repository.DiscardDeadLetter | src/outbox/outbox.repository.ts:237-271 | Discards a dead notification, or the deletion of a photo whose row is gone; never an erasure |
| Outbox.ApplyKeepsWellformed | src/outbox/outbox.repository.ts:42-133 | Every statement keeps one event per type and aggregate, locked_by set exactly while processing, processed_at exactly when completed, dead_lettered_at exactly when dead or discarded |
| Outbox.RunKeepsWellformed | src/outbox/outbox.repository.ts:25-157 | ... in every state of every run |
| Outbox.StatementsNeedTheLease | src/outbox/outbox.repository.ts:89-133 | Renewals, completions, reschedulings, checkpoints and deferrals by a worker without the lease change nothing |
| Outbox.LostLeaseStaysLost | src/outbox/outbox.repository.ts:62-133 | Once a lease was taken over, the old worker changes its event only after claiming it again, over any run |
| Outbox.LiveEventStays | src/outbox/outbox.repository.ts:89-157 | An event that is pending, processing or dead leaves the table only by being completed or discarded first |
| Outbox.RetryBudget | src/outbox/outbox.repository.ts:118-127 | Between two resets an event returns to pending at most maxAttempts - 1 times, whatever takeovers and deferrals happen in between |
| Outbox.Process | src/outbox/outbox-worker.service.ts:99-131 | One event of a batch: written only under a lease that still holds after the handler, counted once, retried after the delay, dead after its budget |
| Outbox.RetryDelayGrows | src/outbox/outbox-worker.service.ts:188-190 | The retry delay never shrinks, doubles until the sixth attempt and is a minute from the seventh on |
| Outbox.PurgeCompleted | src/outbox/outbox-worker.service.ts:166-185 | The retention sweep deletes purgeable events only, exactly as many as it reports, and says that no work remains only when none does |
| Outbox.PurgeBatch | src/outbox/outbox-worker.service.ts:176-179 | One batch of the sweep; a short one leaves nothing purgeable |
| Outbox.LiveLeaseIsKept | src/outbox/outbox.repository.ts:62-94 | A live lease is not taken over: from a claim or renewal on, while no claim thinks leases of that time stale, the event stays with its worker until it releases it or the event is requeued or removed |
| Outbox.ClaimColumns | src/outbox/outbox.repository.ts:69-77 | Claimed rows were due and pending or under a stale lease, and with room to spare every such unlocked row is claimed |
| Outbox.ClaimIsOldestFirst | src/outbox/outbox.repository.ts:74 | By due time, then creation, then id |
| Outbox.PurgeColumns | src/outbox/outbox.repository.ts:135-157 | Purged rows were completed or discarded by then, and with room to spare every such row is purged |
| Outbox.PurgeIsOldestFirst | src/outbox/outbox.repository.ts:140-154 | By the time they were finished |
| ErasureDatabase.Repository.EnqueueAccountErasure | src/privacy/erasure-enqueue.ts:7-32 | Accepts an erasure once per account, under the supplied request or one just opened, with its event, and marks the account deleted; a second call changes nothing, and is a conflict exactly when it supplies another request |
| ErasureDatabase.Repository.Advance | src/privacy/erasure.repository.ts:20-65 | Moves the step only for the lease holder whose read step is still stored, with the final checks and deletions of the last step |
| ErasureDatabase.Repository.CheckpointUpdate | src/privacy/erasure.repository.ts:60-62 | Puts the event back as pending with no attempts, for its lease holder |
| ErasureDatabase.Repository.DeleteSwipeBatch | src/privacy/erasure.repository.ts:67-103 | Deletes one limited batch of the account's swipes, made or received, and decides the next step from its size |
| ErasureDatabase.Repository.Defer | src/privacy/erasure.repository.ts:105-109 | Gives the attempt back and leaves the event pending |
| ErasureDatabase.ShortSwipeBatchIsLast | src/privacy/erasure.repository.ts:81-95 | Since no row is a self-swipe (the CHECK at db/017_postgres_discovery.sql:11), a short batch was the last: no swipe of the account, as actor or target, is left |
| ErasureDatabase.ShortBatchMayLeaveRows | db/017_postgres_discovery.sql:11 | What that CHECK is for: without it a short batch could leave rows exactly if there is a self-swipe, among the first rows of both branches, and at least as many rows as the limit, which is two or more |
| ErasureDatabase.SelectSwipes | src/privacy/erasure.repository.ts:83-92 | The inner query: two limited branches under one more limit, in no particular order |
| ErasureDatabase.ClaimedColumns | src/privacy/erasure.repository.ts:11-18 | A handler begins exactly with the event of an erasure that its worker holds, at the stored step |
| ErasureSaga.StepKeepsInv | src/privacy/erasure.service.ts:22-58 | Every atomic step of workers, writers, maintenance and the outbox, in any interleaving, keeps the saga's invariant |
| ErasureSaga.RunKeepsInv | src/privacy/erasure.service.ts:22-58 | ... so it holds in every state of every run |
| ErasureSaga.ErasedStaysErased | src/privacy/erasure.service.ts:22-58 | Once an erasure is past a step, in that and every later state the account has none of that step's data, and none ever appears |
| ErasureSaga.StepMovesForward | src/privacy/erasure.repository.ts:20-103 | A step moves only forward, by at most one, and only the holder of the lease on the erasure's event moves it |
| ErasureSaga.RunNeverMovesBack | src/privacy/erasure.repository.ts:57-59 | Over any run the step never moves backwards |
| ErasureSaga.NoErasureIsLost | src/outbox/outbox-event.dispatcher.ts:26-29 | Until an erasure is completed its request is open and its event is pending, processing or a dead letter: never completed, discarded or purged |
| ErasureSaga.FinalChecksNeverFire | src/privacy/erasure.repository.ts:37-42 | erasure_invalid_state, erasure_photos_remaining and erasure_swipes_remaining are never thrown in any run |
| ErasureSaga.CheckedWritersAreAlone | src/database/account-activity.service.ts:35-87 | While a writer that passed its account check works, no erasure handler holds the lock of any of its accounts |
| ErasureSaga.WriterChecks | src/database/account-activity.service.ts:41-49 | A writer whose check finds no deleted account has none with an erasure under way |
| ErasureSaga.WriterWorks | src/discovery/discovery.store.ts:15-31 | What a checked writer adds never belongs to an account past the step that erases it |
| ErasureSaga.EraserErasesCreation | src/billing/billing.service.ts:152-170 | Erasing one started customer creation at a time, then the step, leaves none |
| ErasureSaga.EraserMarksPhotos | src/photos/photos.repository.ts:226-233 | Marking a batch of photos under the exclusive lock |
| ErasureSaga.EraserRemovesPhoto | src/photos/photos.service.ts:192-214 | Removing marked photos one by one; a failed one keeps the step |
| ErasureSaga.EraserDeletesSwipes | src/privacy/erasure.repository.ts:67-103 | The swipe batch inside the interleaving: short means clean, because nobody can swipe on themselves or on the account |
| ErasureSaga.AdvanceIsNeverRefused | src/privacy/erasure.repository.ts:25-42 | Under lock and lease the step read is the step stored and the last step finds nothing left |
| ErasureSaga.ErasureAccepted | src/privacy/erasure-enqueue.ts:7-32 | Accepting an erasure at any moment, with writers at work, keeps the invariant |
| ErasureSaga.StorageFailureStops | src/photos/photos.service.ts:192-214 | A photo that the storage did not remove keeps its row, and its call has failed |
| ErasureSaga.FailedCallStoresNothing | src/photos/photos.service.ts:206-213 | A failed call stores no step, whatever it does next |
| ErasureSaga.WritersWrite | src/database/account-activity.service.ts:35-52 | A writer is let through exactly if it should be, and then it writes |
| ErasureProgress.CallProgresses | src/privacy/erasure.service.ts:22-58 | Every handler call by the lease holder, with nobody else on the account and providers that succeed, stores the next step if less than a batch of that step's data was left, and otherwise removes a whole batch; nothing else changes |
| ErasureProgress.CallExists | src/privacy/erasure.service.ts:22-58 | ... and there is such a call from every state in which the lease is held and the account is free |
| ErasureProgress.UndisturbedCalls | src/privacy/erasure.service.ts:22-58 | After k claims and calls an accepted erasure has exactly k fewer to go |
| ErasureProgress.UndisturbedCallsComplete | src/privacy/erasure.service.ts:22-58 | So after one call for each batch and one for each step the erasure, its request and its event are completed, and none of the data is left |
| ErasureProgress.AcceptedErasureCompletes | src/privacy/erasure.service.ts:22-58 | From acceptance any worker carries an erasure to completion, in open creations / 50 + photos / 50 + swipes / 1000 + 4 calls |
| AccountActivity.AccountActivityService.Lock | src/database/account-activity.service.ts:54-86 | All the named accounts are locked or none: refused exactly when one is not free, and then everything taken is given back |
| AccountActivity.AccountActivityService.CanonicalIds | src/database/account-activity.service.ts:89-93 | Each account once, in ascending order, in whatever spelling it was named |
| AccountActivity.SpellingDoesNotMatter | src/database/account-activity.service.ts:89-93 | Spellings of a UUID that differ in case are one account to the locks |
| AccountActivity.AccountActivityService.RunShared | src/database/account-activity.service.ts:35-52 | Work starts exactly when no account is exclusively locked, deleted or, for ordinary work, banned; otherwise nothing stays held |
| AccountActivity.AccountActivityService.TryExclusive | src/database/account-activity.service.ts:31-33 | Acquired exactly when nobody holds the account at all |
| AccountActivity.AccountActivityService.Release | src/database/account-activity.service.ts:78-81 | Gives back every lock of the session and no other |
| AccountActivity.GivenBack | src/database/account-activity.service.ts:70-81 | A session that gives everything back leaves the others' locks as they were |
| Otp.StepKeepsInv | src/auth/otp.repository.ts:20-114 | Every OTP transaction keeps unique attempts and keys, and below every usable code all earlier attempts of the phone used up |
| Otp.RunKeepsInv | src/auth/otp.repository.ts:20-114 | ... in every state of every run |
| Otp.OneUsableCodePerPhone | src/auth/otp.repository.ts:44-60 | In every reachable state each phone has at most one delivery that is accepted or sent and not used |
| Otp.SupersededForGood | src/auth/otp.repository.ts:160-174 | Once an attempt has been usable no lower attempt of its phone is ever usable again, even after it is consumed, fails or is purged |
| Otp.StepIsForward | src/auth/otp.repository.ts:44-101 | Delivery status only climbs pending, unknown, accepted, sent, failed, and `used` is never taken back |
| Otp.RunIsForward | src/auth/otp.repository.ts:44-101 | ... over any stretch of a run in which the delivery is in the table |
| Otp.SentCommutesWithReceipt | src/auth/otp.repository.ts:44-101 | An sms_sent callback and an agreeing send receipt give the same rows in either order, up to time stamps, if and only if not: just one of the two has an effect, and the unused, unsuperseded code expires between the two clock readings |
| Otp.SentCommutesWithUnknown | src/auth/otp.repository.ts:62-101 | An sms_sent callback and an unknown outcome give the same rows in either order, up to time stamps, if and only if not: the callback has an effect, and the unused, unsuperseded code expires between the two clock readings |
| Otp.ReceiptOrderMayShow | src/auth/otp.repository.ts:44-101 | For every phone and ids: a sent code, used or not after the same receipt and repeated callback, depending on their order |
| Otp.UnknownOrderMayShow | src/auth/otp.repository.ts:62-101 | For every phone and ids: a pending code, used or not after the same timeout and callback, depending on their order |
| Otp.CallbackReadsClock | src/auth/otp.repository.ts:76-101 | One callback at two clock readings leaves the same rows, up to time stamps, exactly if it has no effect or the reading does not decide |
| Otp.Repository.BeginOtpDelivery | src/auth/otp.repository.ts:20-42 | One key names one delivery: created, reported again, or a conflict for another phone; only an overdue pending one becomes unknown |
| Otp.Repository.Activate | src/auth/otp.repository.ts:160-174 | Uses up a superseded or expired delivery, otherwise its ancestors |
| Otp.Repository.MarkOtpAccepted | src/auth/otp.repository.ts:44-60 | A matching receipt activates and accepts, never downgrading sent or failed, and reports whether the code is still valid |
| Otp.Repository.MarkOtpOutcome | src/auth/otp.repository.ts:62-74 | An outcome settles only a pending or unknown delivery |
| Otp.Repository.ApplySmsEvent | src/auth/otp.repository.ts:76-101 | A callback applies, is ignored or conflicts |
| Otp.Repository.ConsumeOtp | src/auth/otp.repository.ts:103-114 | Uses the one matching code, or returns false and changes nothing |
| Otp.ConsumeTouchesOne | src/auth/otp.repository.ts:106-112 | The consuming statement matches at most one row |
| Otp.ConsumedWasBegun | src/auth/otp.repository.ts:103-114 | In every run a code that verification uses up was begun for exactly that phone with exactly that hash, and its lifetime has not passed |
| Otp.ConsumedColumns | src/auth/otp.repository.ts:103-114 | Used up are the rows of this phone with this hash, accepted or sent, unexpired, and no other |
| Otp.DeliveryWasBegun | src/auth/otp.repository.ts:20-42 | Every delivery in the table has the phone, hash and lifetime it was begun with |
| Otp.ActivationColumns | src/auth/otp.repository.ts:155-174 | Activation uses up the delivery if it has expired or a later one was sent, and otherwise its ancestors |
| Otp.ReceiptColumns | src/auth/otp.repository.ts:44-60 | When a send receipt has an effect, and every column that it writes |
| Otp.CallbackColumns | src/auth/otp.repository.ts:76-101 | When a callback has an effect, and every column that it writes |
| Matches.StartOfUtcWeek | src/matches/matches.repository.ts:389-393 | The Monday midnight UTC on or before an instant |
| Matches.WeekIsUnique | src/matches/matches.repository.ts:389-393 | No other Monday midnight has the instant in its week |
| Matches.StepKeepsInv | src/matches/matches.repository.ts:71-379 | Every transaction on matches keeps participants and states in order, initiators continued, terminal matches of erased users, and the quota |
| Matches.RunKeepsInv | src/matches/matches.repository.ts:71-379 | ... in every state of every run |
| Matches.ConfirmedMeansBothContinued | src/matches/matches.repository.ts:372-376 | A confirmed match has exactly two different participants and both continued |
| Matches.InvalidOnlyOutsideTheWindow | src/matches/matches.repository.ts:335-377 | The final invalid_state is unreachable: the answer is given exactly for confirmed, expired or ended matches, and changes nothing |
| Matches.SecondRequestConfirms | src/matches/matches.repository.ts:371-376 | At the second request the confirming statement finds both participants, whoever asked first |
| Matches.UsageIsConfirmations | src/matches/matches.repository.ts:360-370 | used_count of a user and week is the number of confirmations that week, under a limited plan, of matches that user initiated |
| Matches.ChargesWithinLimit | src/matches/matches.repository.ts:362-370 | Every charge was within the limit in force when it was made |
| Matches.ConfirmationsBounded | src/matches/matches.repository.ts:362-370 | In every run: if no limit a user was charged under in a week exceeded some number, neither do the confirmations nor the count of that week |
| Matches.ConfirmedOnce | src/matches/matches.repository.ts:371-377 | A match is confirmed, and charged, at most once |
| Matches.ConsentMeaning | src/matches/matches.repository.ts:308-379 | What each answer means: throws and refusals change nothing, only a confirmation is charged, the first request makes its initiator the only one continued |
| Matches.StepIsForward | src/matches/match-access.ts:24-43 | No transaction moves a match back, takes back a reveal or a continuation, or changes who asked first |
| Matches.RunIsForward | src/matches/matches.repository.ts:308-379 | ... over any stretch of a run |
| Matches.MatchPage | src/matches/matches.repository.ts:18-65 | A page read from two limited branches is the page of the user's whole sorted list of visible matches |
| Matches.BlockMeaning | src/privacy/privacy.repository.ts:118-136 | A block that goes through leaves no running match of the pair; any other changes nothing |
| Matches.AnonymizeIsSound | db/schema_postgres.sql:1047-1065 | Removing a user's match states leaves only ended or expired matches without them |
| Matches.MatchesRepository.CreateFromMutualLike | src/matches/matches.repository.ts:71-110 | One match per pair, for two accounts in order that may match; otherwise the existing one, or why not |
| Matches.MatchesRepository.LockMessagingMatch | src/matches/match-access.ts:7-44 | Opens or expires an overdue match first, then answers whether messaging is available |
| Matches.MatchesRepository.RecordReveal | src/matches/matches.repository.ts:218-238 | Records a reveal for good and tells whether both participants have revealed |
| Matches.MatchesRepository.PlanLimit | src/matches/matches.repository.ts:274-295 | The weekly limit of the plan in force |
| Matches.MatchesRepository.RecordContinuationConsent | src/matches/matches.repository.ts:308-379 | The whole request, statement by statement, with the rollbacks, does what the transition function says |
| Matches.MatchesRepository.Charge | src/matches/matches.repository.ts:363-369 | Charges exactly when the week's count is below the limit |
| Matches.MatchesRepository.Conclude | src/matches/matches.repository.ts:371-377 | Confirms exactly when the answer makes two |
| Matches.MatchesRepository.BlockUser | src/privacy/privacy.repository.ts:118-136 | The block and the end of the pair's running matches |
| Matches.AnswersGiven | src/matches/matches.repository.ts:308-379 | When a request to continue is answered pending, confirmed, quota reached, unavailable or without a plan, by the rows alone and both ways |
| Matches.RefusalsGiven | src/matches/matches.repository.ts:323-353 | When it is refused as missing, too early, too late, over or already recorded, by the rows alone and both ways |
| Matches.AnswersStored | src/matches/matches.repository.ts:340-378 | What the answers that change the match store, column by column |
| Matches.TwoRequestsConfirm | src/matches/matches.repository.ts:308-379 | Two requests inside the window, by the two participants, under an open quota confirm the match |
| Matches.AccessColumns | src/matches/match-access.ts:7-44 | When a match may be used for messaging, and what locking it changes |
| Matches.MessageColumns | src/matches/matches.repository.ts:218-238 | A message or a reveal writes its own column, and only on a match that may be used |
| Matches.CreateColumns | src/matches/matches.repository.ts:71-110 | A match is made exactly for two different, usable, unblocked users who have none, with all its columns |
| Matches.BlockColumns | src/privacy/privacy.repository.ts:118-136 | A block ends the running matches of the two and no other |
| Matches.AnonymizeColumns | db/schema_postgres.sql:1047-1065 | What anonymising a user does to matches, states, usage and subscriptions |
| Matches.WindowColumns | src/matches/match-maintenance.repository.ts:56-77 | What opening, expiring and purging ask of a row, and what they write |
| Matches.ShownColumns | src/matches/matches.repository.ts:18-65 | Which matches a user's pages show |
| Matches.NewerColumns | src/matches/matches.repository.ts:18-65 | Latest activity first, then the greater id |
| MatchMaintenance.OpenProgress | src/matches/match-maintenance.repository.ts:51-124 | Opening due matches lowers the work by exactly their number: they are due again only a day later |
| MatchMaintenance.ExpireProgress | src/matches/match-maintenance.repository.ts:51-124 | Expiring due matches lowers the work by exactly their number: they are due for purging only after their retention |
| MatchMaintenance.DeleteProgress | src/matches/match-maintenance.repository.ts:51-124 | Deleting messages of due matches lowers the work by exactly their number |
| MatchMaintenance.DetachProgress | src/matches/match-maintenance.repository.ts:51-124 | Detaching reports of due matches lowers the work by exactly their number |
| MatchMaintenance.RemoveProgress | src/matches/match-maintenance.repository.ts:103-115 | Removing due matches that nothing mentions lowers the work by their number and leaves every message and report its match |
| MatchMaintenance.NothingMentionsDueMatches | src/matches/match-maintenance.repository.ts:108-109 | With no due message or report left, every due match may go |
| MatchMaintenance.BatchIsSteps | src/matches/match-maintenance.repository.ts:56-115 | A statement that opens, expires or removes many due matches does what the single-row transitions of the match machine do one after the other, in any order |
| MatchMaintenance.StatementKeepsMachine | src/matches/match-maintenance.repository.ts:56-115 | So each of these statements keeps every invariant of matches and quota, whatever the other tables hold |
| MatchMaintenance.MatchMaintenanceRepository.OpenDue | src/matches/match-maintenance.repository.ts:56-66 | Opens exactly the first due rows that nobody has locked |
| MatchMaintenance.MatchMaintenanceRepository.ExpireDue | src/matches/match-maintenance.repository.ts:67-77 | Expires exactly the first due rows that nobody has locked |
| MatchMaintenance.MatchMaintenanceRepository.DeleteDueMessages | src/matches/match-maintenance.repository.ts:78-89 | Deletes exactly the first due messages that nobody has locked |
| MatchMaintenance.MatchMaintenanceRepository.DetachDueReports | src/matches/match-maintenance.repository.ts:90-102 | Detaches exactly the first due reports that nobody has locked |
| MatchMaintenance.MatchMaintenanceRepository.PurgeDueMatches | src/matches/match-maintenance.repository.ts:103-115 | Deletes only due matches that no message and no report refers to |
| MatchMaintenance.MatchMaintenanceRepository.RunMaintenance | src/matches/match-maintenance.repository.ts:51-123 | One batch lowers the work by exactly its reported counts and keeps the invariants of matches; one that is not full, with nothing locked, leaves no work |
| MatchMaintenance.MatchMaintenanceRepository.RunMaintenanceAsLeader | src/matches/match-maintenance.repository.ts:14-49 | The totals are the work done, whatever rows others lock in each batch. With at least one batch, and nothing locked during the last, work_remaining is false only when no work is left; with nothing locked, work below maxBatches times batchSize is always finished |
| MatchMaintenance.DueColumns | src/matches/match-maintenance.repository.ts:51-124 | What is due for each of the five statements, by the columns |
| MatchMaintenance.StatementColumns | src/matches/match-maintenance.repository.ts:51-124 | What each of the five statements writes, and that it leaves other rows alone |
| MatchMaintenance.OrderColumns | src/matches/match-maintenance.repository.ts:51-124 | In which order they choose |
| MatchMaintenance.CountsAdd | src/matches/match-maintenance.repository.ts:138-144 | Each reported count is the number of rows that went that way, over any number of batches |
| RefreshSessions.StepKeepsInv | src/auth/refresh-session.repository.ts:14-142 | Every session, device, account and retention transaction keeps the family invariant |
| RefreshSessions.RunKeepsInv | src/auth/refresh-session.repository.ts:14-142 | ... in every state of every run |
| RefreshSessions.LiveFamilyHasOneToken | src/auth/refresh-session.repository.ts:27-47 | A family neither revoked nor expired has exactly one unrevoked token, which expires with it |
| RefreshSessions.RevokedFamilyIsBare | src/auth/refresh-session.repository.ts:128-142 | A revoked family has no unrevoked token and no device; a banned or deleted account has only revoked families |
| RefreshSessions.ExchangedOnce | src/auth/refresh-session.repository.ts:33-41 | No token is ever exchanged twice |
| RefreshSessions.RefreshOutcome | src/auth/refresh-session.repository.ts:27-47 | Exchange exactly for the unrevoked token of a live family with its secret, revocation exactly for an authentic exchanged one, and otherwise, a wrong secret above all, nothing |
| RefreshSessions.ReplayRevokes | src/auth/refresh-session.repository.ts:33-36 | A replay leaves the family revoked, without unrevoked tokens or devices |
| RefreshSessions.RevokedForGood | src/auth/refresh-session.repository.ts:128-133 | A revoked family stays revoked, for its first reason |
| RefreshSessions.RevokedIsNeverExchanged | src/auth/refresh-session.repository.ts:30-36 | After a family was revoked none of its tokens is ever exchanged again |
| RefreshSessions.RefreshSessionRepository.Create | src/auth/refresh-session.repository.ts:14-25 | A new family with its first token, for an active account |
| RefreshSessions.RefreshSessionRepository.LockToken | src/auth/refresh-session.repository.ts:92-104 | Finds a token by identifier and secret, of an active account, before it expires |
| RefreshSessions.RefreshSessionRepository.Rotate | src/auth/refresh-session.repository.ts:27-47 | The whole exchange, or the revocation, or nothing |
| RefreshSessions.RefreshSessionRepository.Logout | src/auth/refresh-session.repository.ts:49-58 | Revokes the session of an authentic token, or changes nothing |
| RefreshSessions.RefreshSessionRepository.Revoke | src/auth/refresh-session.repository.ts:71-81 | Revokes one session of the user or all, and counts those newly revoked |
| RefreshSessions.RefreshSessionRepository.RevokeFamilies | src/auth/refresh-session.repository.ts:128-142 | Families, tokens and devices together |
| RefreshSessions.RefreshSessionRepository.RegisterDevice | src/mobile/mobile.repository.ts:10-30 | Ties a push token to a live session, or changes nothing |
| RefreshSessions.TokenPurgeKeepsInv | src/privacy/privacy.repository.ts:197-199 | Purging expired tokens never takes the unrevoked token of a family that has not expired |
| RefreshSessions.FamilyPurgeKeepsInv | src/privacy/privacy.repository.ts:279-284 | Purging expired families takes only empty ones |
| RefreshSessions.BanKeepsInv | src/admin/admin.repository.ts:175-182 | A ban revokes every family of the account in its own transaction |
| RefreshSessions.DeletionKeepsInv | db/schema_postgres.sql:1108-1115 | Marking an account deleted takes its families, their tokens and their devices |
| RefreshSessions.ExchangePresentsIssuedHash | src/auth/refresh-session.repository.ts:27-47 | In every run an exchange presents the very hash that its token was issued with, by the creation of the session or by the exchange before it |
| RefreshSessions.TokenWasIssued | src/auth/refresh-session.repository.ts:27-47 | Every token in the table has the hash that it was issued with |
| RefreshSessions.RotateColumns | src/auth/refresh-session.repository.ts:27-47 | When a presented token is exchanged, revokes its family or does nothing, by the rows, and all that is written |
| RefreshSessions.RevocationColumns | src/auth/refresh-session.repository.ts:128-142 | Which families, tokens and devices a revocation reaches, row by row |
| RefreshSessions.LogoutColumns | src/auth/refresh-session.repository.ts:49-58 | When a logout is done, by the rows, and all that is written |
| RefreshSessions.RevokeColumns | src/auth/refresh-session.repository.ts:71-81 | Only one's own sessions, and only from a live one |
| RefreshSessions.RegisterColumns | src/mobile/mobile.repository.ts:10-30 | A device is tied exactly to a live session of an active account |
| RefreshSessions.CreateColumns | src/auth/refresh-session.repository.ts:14-25 | A session is created exactly for an active account, with all its columns |
| RefreshSessions.BanColumns | src/admin/admin.repository.ts:175-182 | A ban or a deletion reaches every session of the user at once and of nobody else |
| Subscriptions.StepIsForward | src/billing/billing.repository.ts:301-362 | Every write to a row raises its version by one and never takes its snapshot time back |
| Subscriptions.RunIsForward | src/billing/billing.repository.ts:317-318 | Over any run the snapshot time never decreases, and equal versions mean an unchanged row |
| Subscriptions.AppliedMeansUntouched | src/billing/billing-reconciliation.repository.ts:181-185 | A reconciliation is applied only if no writer touched the row since its context was read |
| Subscriptions.OlderNewsIsIgnored | src/billing/billing.repository.ts:336-339 | Webhooks, deletions and reconciliations of before the row's snapshot leave it as it is |
| Subscriptions.OlderNewsNeverReturns | src/billing/billing.repository.ts:336-339 | After news of an instant was written, older news never shows again in any run |
| Subscriptions.WebhooksConverge | src/billing/billing.repository.ts:320-339 | In a run where the webhooks of one subscription come in any order and with repeats, between any steps of other users, from any older row, the row ends as the newest says |
| Subscriptions.OrderDoesNotMatter | src/billing/billing.repository.ts:320-339 | Two such runs that bring the same news leave the same row up to its version |
| Subscriptions.RowsStay | src/billing/billing-reconciliation.repository.ts:161-168 | A row stays as long as its account is not deleted |
| Subscriptions.BillingRepository.UpsertSubscription | src/billing/billing.repository.ts:248-369 | The guarded upsert with its event record: projected, outdated, duplicate or rejected, the last two changing nothing |
| Subscriptions.BillingRepository.MarkCustomerDeleted | src/billing/billing.repository.ts:424-452 | Cancels the row unless a newer snapshot says otherwise, and marks the customer |
| Subscriptions.BillingRepository.SubscriptionContext | src/billing/billing-reconciliation.repository.ts:102-120 | The mapped customer of an account that is not deleted, with the version to compare later |
| Subscriptions.BillingRepository.ApplySubscription | src/billing/billing-reconciliation.repository.ts:152-257 | Applied, stale, not found or in conflict; only the first changes anything |
| Subscriptions.AcceptsColumns | src/billing/billing.repository.ts:320-339 | The guard of the upsert for a row with a status, by the columns |
| Subscriptions.AcceptsWithoutStatus | src/billing/billing.repository.ts:320-339 | The guard for a row without one, where SQL's NOT IN is not true |
| Subscriptions.WebhookColumns | src/billing/billing.repository.ts:301-362 | When a webhook is projected, outdated or a duplicate, and all that is written |
| Subscriptions.CustomerDeletedColumns | src/billing/billing.repository.ts:424-452 | What the deletion of a customer cancels and marks |
| Subscriptions.ReconcileColumns | src/billing/billing-reconciliation.repository.ts:161-187 | When a reconciliation is applied, stale or not found, by the rows |
| Subscriptions.ReconciledColumns | src/billing/billing-reconciliation.repository.ts:189-244 | All that an applied reconciliation writes |
| Json.RoundTrip | src/privacy/json-export.writer.ts:49 | Parsing the printed text of a value, by the grammar of RFC 8259, gives the value back |
| Json.StringRoundTrip | src/privacy/json-export.writer.ts:49 | Reading a quoted string gives its characters back, whatever had to be escaped |
| Json.ValueRoundTrip | src/privacy/json-export.writer.ts:49 | A printed value is read back and what follows it is left, in any context |
| Json.NumberRoundTrip | src/privacy/json-export.writer.ts:49 | A number is read to its last character and no further |
| Utf8.RoundTrip | src/privacy/json-export.writer.ts:81 | The bytes of a text decode to the text |
| Utf8.DecodedIsEncoded | src/privacy/json-export.writer.ts:81 | Only encodings decode: the bytes that decode to a text are the ones that encode it |
| Utf8.EncodeConcat | src/privacy/json-export.writer.ts:81 | The bytes of two texts in a row are the bytes of their concatenation |
| ExportTree.StreamedValue | src/privacy/json-export.writer.ts:25-55 | Streaming any value call by call adds exactly that value to the tree |
| ExportTree.CallKeepsWellFormed | src/privacy/json-export.writer.ts:61-77 | No accepted call breaks the tree |
| ExportTree.PutText | src/privacy/json-export.writer.ts:61-72 | Adding a value appends its separator, its name and its text, and nothing else |
| ExportTree.OpenText | src/privacy/json-export.writer.ts:25-40 | Opening a container appends its lead and its bracket |
| ExportTree.CloseText | src/privacy/json-export.writer.ts:31-45 | Closing a container appends its other bracket |
| ExportTree.CompleteRun | src/privacy/json-export.writer.ts:57-59 | A run of calls that throws nothing and closes everything leaves one JSON text whose parse is the tree of the calls, exactly if it made a call |
| ExportTree.RefusalsOf | src/privacy/json-export.writer.ts:61-77 | Which calls are refused, and with which error |
| ExportWriter.JsonExportWriter.Write | src/privacy/json-export.writer.ts:79-95 | Writes the whole piece in any number of short writes, refuses it exactly when it would not fit, and never exceeds the limit |
| ExportWriter.JsonExportWriter.BeforeValue | src/privacy/json-export.writer.ts:61-72 | Refuses a value exactly as the context demands, otherwise writes its separator and name |
| ExportWriter.JsonExportWriter.StartObject | src/privacy/json-export.writer.ts:25-29 | Opens an object in file, contexts and tree alike, or throws the error that the tree explains |
| ExportWriter.JsonExportWriter.EndObject | src/privacy/json-export.writer.ts:31-34 | Closes the innermost object, or throws |
| ExportWriter.JsonExportWriter.StartArray | src/privacy/json-export.writer.ts:36-40 | Opens a named array, or throws |
| ExportWriter.JsonExportWriter.EndArray | src/privacy/json-export.writer.ts:42-45 | Closes the innermost array, or throws |
| ExportWriter.JsonExportWriter.Property | src/privacy/json-export.writer.ts:47-50 | Adds a named value, or throws, as for undefined |
| ExportWriter.JsonExportWriter.Item | src/privacy/json-export.writer.ts:52-55 | Adds an unnamed value, or throws, as for undefined |
| ExportWriter.JsonExportWriter.CloseContext | src/privacy/json-export.writer.ts:74-77 | Pops the innermost context and accepts only the expected kind |
| ExportWriter.JsonExportWriter.AssertComplete | src/privacy/json-export.writer.ts:57-59 | Completeness means that the file decodes and parses to the tree, or that it was never written to |
| ExportWriter.Perform | src/privacy/json-export.writer.ts:25-55 | Any calls one after the other leave the writer with the tree of all of them, or stop at the call that explains the error |
| ExportWriter.Prepare | src/privacy/data-export.service.ts:36-70 | A new writer, its calls and assertComplete: the file is the UTF-8 of one JSON text, whose parse is the tree of the calls, within the limit |
| ExportWriter.JsonExportWriter.Bytes | src/privacy/json-export.writer.ts:21-23 | The announced length is the length of the file and within the limit |
| ExportPages.PageOfListing | src/privacy/data-export.repository.ts:337-342 | The page after the first k rows is the next run of the sorted table |
| ExportPages.WritePages | src/privacy/data-export.repository.ts:327-344 | For every page size the array holds every row of the table once, in key order |
| ExportPages.WriteDiscoveryActions | src/privacy/data-export.repository.ts:80-110 | The same for the discovery actions, with the number of rows |
| ExportPages.NextPage | src/privacy/data-export.repository.ts:338 | One load of the loop, as the run of rows that it is |
| Feed.PageSplits | src/discovery/discovery.service.ts:43-88 | One page and its cursor split what was left without loss or repetition, and the rest is strictly smaller |
| Feed.FollowingShowsAll | src/discovery/discovery.service.ts:43-88 | Following the cursor to its end shows every remaining unswiped candidate once |
| Feed.WholeFeed | src/discovery/discovery.service.ts:43-88 | From the first page on: exactly the unswiped candidates, each once, by distance and id |
| Feed.ShortPageReadAllBatches | src/discovery/discovery.service.ts:51-74 | A page that is short, or empty, and still has a cursor has read all twenty batches in full |
| Feed.RestIsListing | src/discovery/discovery.repository.ts:166-172 | What the cursor comparison leaves is a suffix of the ordered candidates |
| Feed.DiscoveryService.CandidateBatch | src/discovery/discovery.repository.ts:166-172 | The first candidates beyond the cursor, in order |
| Feed.DiscoveryService.Visible | src/discovery/discovery.service.ts:64-65 | A batch without what the viewer has swiped |
| Feed.DiscoveryService.Scan | src/discovery/discovery.service.ts:51-74 | The batch loop: how far it reads, what of it is visible, whether the table ended |
| Feed.DiscoveryService.Feed | src/discovery/discovery.service.ts:43-88 | The page function, with its errors |
| Feed.OrderColumns | src/discovery/discovery.repository.ts:166-172 | Nearest first, then by id, and a cursor leaves exactly what comes after it |
| Swipes.DecisionStands | src/discovery/discovery.store.ts:25-66 | A decision in force stays what it is until it expires, whatever is recorded or purged |
| Swipes.RecordedIsInForce | src/discovery/discovery.store.ts:25-66 | Recording leaves the new decision in force, or the one that was, and touches no other |
| Swipes.MutualLikeIsSeen | src/discovery/discovery.service.ts:107-115 | However two mutual likes interleave, at least one of the two users finds the other's like |
| Swipes.DiscoveryStore.RecordSwipe | src/discovery/discovery.store.ts:25-66 | Inserts, reports the decision in force, or replaces an expired one |
| Swipes.DiscoveryStore.SwipedTargetIds | src/discovery/discovery.store.ts:86-98 | The targets with a decision in force |
| Swipes.RecordColumns | src/discovery/discovery.store.ts:25-66 | A decision counts for 365 days, and a swipe writes one exactly where none counts |
| SwipePlans.GenerateSwipePlans | scripts/seed-fake-swipe.ts:218-245 | With more than twenty users in every group the plan is what the validation asks for, so it never throws; a small group is refused |
| SwipePlans.GoodIsAccepted | scripts/seed-fake-swipe.ts:254-275 | Twenty distinct targets for each actor and one like and one pass for each pair |
| SwipePlans.CirculantIsGood | scripts/seed-fake-swipe.ts:233-241 | The circle of ten neighbours on either side: no self-swipe, none twice, each answered by its opposite |
| SwipePlans.TargetsDiffer | scripts/seed-fake-swipe.ts:235-240 | The twenty offsets of one user reach twenty different users |
| SwipePlans.MirrorSwipe | scripts/seed-fake-swipe.ts:235-240 | Every planned swipe has its mirror in the plan of the other user |
| SwipePlans.OneLikes | scripts/seed-fake-swipe.ts:247-252 | Of two users exactly one is the designated liker |
| SwipePlans.PairIsTwo | scripts/seed-fake-swipe.ts:272-274 | Each planned pair has exactly two plans, one like and one pass |
| SwipePlans.TwentyTargets | scripts/seed-fake-swipe.ts:269-271 | Each actor has exactly twenty distinct targets |
| SwipePlans.GroupUsers | scripts/seed-fake-swipe.ts:219-225 | Users by city and compatibility |
| SwipePlans.SortBySeed | scripts/seed-fake-swipe.ts:229 | A group in the order of its seed numbers |
| SwipePlans.PlanGroup | scripts/seed-fake-swipe.ts:233-241 | The nested loops over actors and distances |
| SwipePlans.ValidateSwipePlans | scripts/seed-fake-swipe.ts:254-275 | Complains exactly when the plan is not acceptable |
| SwipePlans.KeyColumns | scripts/seed-fake-swipe.ts:218-232 | Who may meet whom |
| SwipePlans.DecisionColumns | scripts/seed-fake-swipe.ts:245-252 | Which of two users likes the other |
| RateLimit.SweepingIsInvisible | src/ratelimit/rate-limit.service.ts:31-48 | While the clock does not go back, the limiter with its sweeps answers like one that never sweeps |
| RateLimit.CallSeesTheSame | src/ratelimit/rate-limit.service.ts:31-48 | One call counts on the same entry with and without sweeps exactly if it does not find the entry gone at a time when it still counted |
| RateLimit.SweepShowsExactly | src/ratelimit/rate-limit.service.ts:31-48 | From the start, all calls count on the same entries with and without sweeps exactly if no call reads a clock before the expiry of an entry of its key that was already swept |
| RateLimit.ReadingBackCanBeTold | src/ratelimit/rate-limit.service.ts:31-48 | When a call does read back, asking max times tells the two apart: one refuses what the other admits |
| RateLimit.SweepingShowsWhenTheClockGoesBack | src/ratelimit/rate-limit.service.ts:31-48 | For every policy, a whole history from the empty limiter in which a clock that goes back by a millisecond makes a sweep change an answer |
| RateLimit.WindowAdmits | src/ratelimit/rate-limit.service.ts:34-38 | A window admits its first max requests, all of them and no more |
| RateLimit.LessThanTwiceMax | src/ratelimit/rate-limit.service.ts:34-38 | Any interval as long as a window admits at most 2 * max - 1, or none if max is 0 |
| RateLimit.NeverMore | src/ratelimit/rate-limit.service.ts:34-38 | ... and at most max if the window is one millisecond |
| RateLimit.BoundIsReached | src/ratelimit/rate-limit.service.ts:34-38 | For every policy some history reaches that bound, so no smaller one holds |
| RateLimit.KeysAreIndependent | src/ratelimit/rate-limit.service.ts:31-39 | Each key is limited by its own requests alone |
| RateLimit.RateLimitService.MemoryAllow | src/ratelimit/rate-limit.service.ts:31-39 | Answers like the limiter without sweeps, unless the clock has gone back behind a sweep; a refusal names the rest of the window, which is positive |
| RateLimit.RateLimitService.SweepExpiredMemoryEntries | src/ratelimit/rate-limit.service.ts:41-48 | Every 256 operations drops exactly the expired entries |
| RateLimit.HitColumns | src/ratelimit/rate-limit.service.ts:34-38 | A live window counts on, a finished one begins anew, and only a count above the maximum is refused |
| Photos.StepKeepsInv | src/photos/photos.repository.ts:62-303 | Every step of uploads, deletions, cleanup, workers and operators keeps the photo invariant |
| Photos.RunKeepsInv | src/photos/photos.repository.ts:62-303 | ... in every state of every run |
| Photos.OnePhotoPerPlace | src/photos/photos.repository.ts:91-101 | A user has at most one ready photo and at most one in flight |
| Photos.ReadyPhotoIsStored | src/photos/photos.service.ts:157-169 | A photo that is shown has its object in the storage |
| Photos.FinishedEventMeansGone | src/outbox/outbox-event.dispatcher.ts:47-53 | A completed or discarded deletion event means that the photo row is gone |
| Photos.DeletingIsForGood | src/photos/photos.repository.ts:235-248 | deleting is left only by the removal of the row, and a removed photo never comes back |
| Photos.KeyIsIdempotent | src/photos/photos.repository.ts:330-357 | While its record lasts a key never starts a second upload, and a replay is the ready photo of that request |
| Photos.NotFoundMeansGone | src/photos/photos.repository.ts:263-269 | For a photo with a deletion event, not finding it as deleting means that it is gone |
| Photos.RequeueKeepsInv | src/admin/admin-photo.repository.ts:96-104 | An operator's or a moderator's renewed deletion |
| Photos.PhotosRepository.CreateProcessing | src/photos/photos.repository.ts:62-117 | Starts an upload, or says why not |
| Photos.PhotosRepository.RecordProcessed | src/photos/photos.repository.ts:119-134 | Records the metadata of a photo still processing |
| Photos.PhotosRepository.ActivatePhoto | src/photos/photos.repository.ts:136-206 | Hides the old photo, shows the new one and completes its request, or changes nothing |
| Photos.PhotosRepository.BeginDeletion | src/photos/photos.repository.ts:208-224 | Leaves no ready photo, with its deletion enqueued |
| Photos.PhotosRepository.Complete | src/photos/photos.repository.ts:235-248 | The row is gone and its request consumed |
| Photos.PhotosRepository.Discard | src/photos/photos.repository.ts:250-261 | Takes back an upload that failed |
| Photos.PhotosRepository.DeletePhoto | src/outbox/outbox-event.dispatcher.ts:47-53 | Answers completed only when the row is gone; a storage failure changes nothing |
| Photos.PhotosRepository.UploadWhileActive | src/photos/photos.service.ts:57-184 | An upload with nothing else in between: shown exactly when it could be processed and stored |
| Photos.CreationColumns | src/photos/photos.repository.ts:62-117 | What an upload request is answered, by the rows and both ways |
| Photos.CreatedColumns | src/photos/photos.repository.ts:62-117 | All that it writes |
| Photos.ActivationColumns | src/photos/photos.repository.ts:136-206 | When a photo is shown, what becomes of the one before, and that no other is touched |
| Photos.ActivatedRequests | src/photos/photos.repository.ts:196-203 | The request of an activated photo is completed, and no other |
| Photos.DeletionColumns | src/photos/photos.repository.ts:208-224 | The ready photo of the user goes, with its deletion enqueued, and nothing else |
| Photos.CompletionColumns | src/photos/photos.repository.ts:235-248 | Only a deleting row is removed, and the request unbound |
| Photos.DiscardColumns | src/photos/photos.repository.ts:250-261 | An upload that failed is taken back with its running request, and nothing else |
| Photos.StaleColumns | src/photos/photos.repository.ts:282-303 | What the cleanup may claim, by status and age |
| Consents.StepKeepsInv | src/users/users.repository.ts:49-213 | Every consent, profile, preference and presence transaction keeps the log and the data under it consistent |
| Consents.RunKeepsInv | src/users/users.repository.ts:49-213 | ... in every state of every run |
| Consents.LatestIffActive | src/users/users.repository.ts:144-158 | The latest event grants a version if and only if exactly one active row exists and has that version |
| Consents.ReadersAgree | src/auth/auth.guard.ts:63-83 | getConsents and the guard agree on onboarding for every ordinary user who is not deleted |
| Consents.StoredDataHasConsent | src/users/users.repository.ts:203-209 | A stored sex, stored preferences or a stored presence imply an active matching consent |
| Consents.AppendedChoice | src/users/users.repository.ts:194-201 | After a change the active rows follow it |
| Consents.AppendedOther | src/users/users.repository.ts:194-201 | Other users and other choices are not concerned |
| Consents.ChangesShow | src/users/users.repository.ts:183-210 | After a request without repeated choices every change is what the log says |
| Consents.UsersRepository.RecordChanges | src/users/users.repository.ts:171-213 | The loop over the changes |
| Consents.UsersRepository.RecordChange | src/users/users.repository.ts:184-209 | One change: nothing, or the withdrawal, the new event and the data it takes |
| Consents.UsersRepository.LatestEvent | src/users/users.repository.ts:184-190 | The newest event of a user and a choice |
| Consents.UsersRepository.LockLegalChoices | src/users/users.repository.ts:160-169 | Whether every required consent is active in its required version |
| Consents.UsersRepository.UpsertProfileRow | src/users/users.repository.ts:49-79 | Stores a profile only under the consents, a sex only under the sensitive one |
| Consents.UsersRepository.UpsertPreferencesRow | src/users/users.repository.ts:91-102 | Stores preferences only under the consents |
| Consents.UsersRepository.UpsertPresenceRow | src/users/users.repository.ts:104-115 | Stores a presence only under the consents |
| Consents.UsersRepository.RequiredActions | src/users/users.service.ts:135-141 | What onboarding still requires |
| Consents.LogColumns | src/users/users.repository.ts:144-158 | The latest event and the active rows of a choice, by the columns |
| Consents.ChangeColumns | src/users/users.repository.ts:171-213 | What one change writes: nothing when it repeats the latest event, otherwise its event, the withdrawal and the data it ends |
| Consents.CoveredColumns | src/users/users.repository.ts:160-169 | Terms and privacy notice always, and the sensitive or location consent where asked for |
| Consents.DataColumns | src/users/users.repository.ts:49-115 | What profile, preferences and presence write, and for whom |

## Left out

- ErasureSaga.StepKeepsInv: maintenance and moderation may drop or mark any photo or swipe at any moment, which is more than they do; the triggers trg_live_* that also refuse writes for deleted accounts are not needed and not modelled.
- ErasureSaga.ErasedStaysErased: covers the data of the Stripe, photo and swipe steps; the deletions of `fct_anonymize_user` in the last transaction are only modelled where matches, consents and subscriptions meet them.
- ErasureProgress.CallProgresses: a call in which a provider or the storage fails is retried by the outbox; that it succeeds in the end is not claimed. The deletion of the mapped Stripe customer is one of the provider calls and leaves no row.
- ErasureSaga.NoErasureIsLost: the purge of data subject requests five years after their completion is not a step of the model.
- AccountActivity.AccountActivityService.Lock: the loss of the lock connection (`failed`, `assertHeld`) is not modelled, held locks stay held; hash collisions of lock keys do not appear.
- Outbox.RetryBudget: the bound is on retries, not on `attempts`, which stale takeovers of crashed workers can raise above it; the CHECK constraint on `attempts` is not modelled.
- Outbox.Process: the concurrency of five handlers per group and the poll loop of the worker are not modelled; what other actors do during a handler is an arbitrary table.
- Otp.SentCommutesWithReceipt: equal up to time stamps; the callback is `sms_sent`, and nothing of the kind is claimed of `sms_undelivered`.
- Matches.UsageIsConfirmations: for users who are not anonymised, whose usage rows are deleted; notifications written in the same transactions are left out.
- Matches.MatchPage: the joins that add profile data to a page are left out.
- MatchMaintenance.MatchMaintenanceRepository.RunMaintenanceAsLeader: other transactions lock rows during its batches, but change none of its tables between them; a database error, which rolls back one batch and throws, is left out.
- RefreshSessions.RefreshOutcome: secrets are compared as values; hashing, timing and the access tokens are left out.
- Subscriptions.BillingRepository.UpsertSubscription: the first mapping of a customer to its owner is a step of its own, the invoices and checkout rows are left out, and any rejection is `Rejected`.
- Subscriptions.BillingRepository.MarkCustomerDeleted: open checkout sessions, which it marks failed, are left out.
- ExportWriter.JsonExportWriter.StartObject: after a method threw, nothing more is promised, as the service drops the file then.
- Json.RoundTrip: strings are sequences of Unicode scalar values, so the lone surrogates that a JavaScript string may hold, and JSON.stringify escapes, do not appear; a number is its spelling.
- Feed.WholeFeed: over fixed candidates and swipes; the distance is a given key, not the haversine formula, and the base64 form of the cursor is left out.
- Swipes.MutualLikeIsSeen: without an erasure of one of the two in between, and with one clock for both statements.
- RateLimit.RateLimitService.MemoryAllow: the Redis path and the digest of the storage key are left out.
- Photos.ReadyPhotoIsStored: says nothing about orphan objects, which an upload slower than the cleanup can leave.
- Photos.PhotosRepository.UploadWhileActive: sequential; the interleavings, with their conflict answers, are in `Photos.StepKeepsInv`. Image processing and moderation scores are left out.
- Consents.LatestIffActive: the deletion of withdrawn consents after five years is left out, and so are ip addresses, user agents and time stamps.
- Admin listings whose cursor is a JavaScript Date, which truncates the microseconds of the database.
- HTTP controllers, DTO validation, JWT and WebAuthn checks, configuration parsing, metrics, S3, FCM, Sweego and Stripe clients: input and output.
- Encryption, HMAC and password hashing: values compared for equality where the model needs them.
- Payload columns, audit and operator log rows, notification rows: written, never read by the logic modelled here.
