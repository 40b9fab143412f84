# delivery-api and person-service: verified models

This project models the durable state machines of delivery-api and the password-reset limiter of
person-service, and proves what they promise over whole runs. A row table is a map field of a class
and each SQL transaction a method on it, proved against a function of the tables before it; where
the code relies on locks, a second model splits the transaction into its statements and lets every
other transaction commit in between.

- **Message queue** (`MessageTables`, `MessageEffects`, `MessageCounts`, `MessageStore`, `MessageRuns`,
  `MessageRefinement`, `Ordered`): immediate, scheduled and held inserts under caps, replace, cancel,
  release, claim, record, replay and batched retention, each told row by row and by what a message then
  reads as; every interleaving of their steps under the two advisory locks and the row locks; and that
  the steps of one transaction nobody disturbs are the transaction.
- **Delivery workers** (`Policy`, `Lease`, `LeaseBounds`): outcome classes, backoff arithmetic in int64, and any
  number of workers on one clock whose leases, timeouts, record retries and operator replays interleave;
  then exactly which configurations keep the two promises made of them, and what bounds the others.
- **Submitting** (`Decimal`, `JsonEquality`, `Submission`): when a submit is a duplicate, a replace, a hold or
  an insert, with other transactions committing between its store calls.
- **Heartbeats** (`HeartbeatMachine`, `HeartbeatRuns`, `HeartbeatStore`, `HeartbeatOutbox`, `HeartbeatAlerts`):
  the pure machine, what holds over every run of one check, the store that applies it under row locks,
  the prober's slots, the alert outbox with its separate list, submit and clear steps, and why a
  repeated flush is answered as a duplicate.
- **App identity** (`AppIdentityTables`, `AppIdentityStore`, `AppIdentityRuns`, `AppIdentityRefinement`):
  requests, bindings, keys and the replay ledger, per transaction, in every interleaving, and that the
  second runs the first.
- **Key rotation** (`KeyRotation`), **reset limiter** (`ResetLimiter`) and **app teardown** (`AppTeardown`).

## Reading the models

Times are nanoseconds since the zero time (milliseconds in the limiter) on one shared clock; the
zero time is 0. READ COMMITTED is modelled as each statement seeing committed rows plus its own
transaction's. I/O outcomes, the resolver, the hash, jitter, network answers, lost replies and
crashes are parameters or nondeterministic actions. The seal is ideal: a value opens under exactly
the key and context it was sealed with.

Some promises hold only under a condition, and the models say exactly which:

- *Two attempts never overlap.* In every run of a configuration if and only if replies to
  `RecordAttempt` are not lost, or operators do not replay, or there is at most one worker
  (`LeaseBounds.OverlapFreedomIsExact`).
- *The retry budget is 12.* A `RecordAttempt` that commits while its reply is lost is retried and
  charged again, so the budget bounds every run if and only if no reply is lost, or there is no worker
  (`LeaseBounds.BudgetBoundIsExact`). With lost replies it is 14, and 13 while pending, and both are
  reached (`Lease.LostAcksCostAtMostTwo`, `LeaseBounds.BudgetIsReached`); with replays as well, N
  workers charge at most 11 + 3N (`LeaseBounds.ThreeChargesAWorker`).
- *Five resets an hour.* Deleting a person deletes the reset history, so over all admissions the
  limit is five times one more than the person's deletions in the run, and that is reached
  (`ResetLimiter.FiveADeletion`, `ResetLimiter.DeletionsReopenTheHour`).
- *A resubmitted alert is the same message.* Its content may have changed by then
  (`HeartbeatAlerts.RepeatsMayDiffer`); it is a duplicate all the same, because a message sent at once
  is never scheduled afterwards (`HeartbeatAlerts.RepeatIsDuplicate`).

One comment is looser than its code: `ApplyPause` documents
that pausing a paused check is a no-op; the code also clears a pending alert then, which changes
nothing because a paused check never has one (`HeartbeatRuns.OutboxMatchesState`).

## Model

| member | source | states |
|---|---|---|
| MessageStore.DeriveStatus | delivery-api/internal/message/types.go:354-395 | Counting states delivery by delivery gives the status fixed by the message marks first and then by which states occur at all. |
| MessageEffects.StatusMeans | delivery-api/internal/message/types.go:354-395 | An unmarked message reads scheduled, cancelled, delivered or dead exactly when it has deliveries and all of them are, partial exactly on a mix of delivered and dead; marks win, cancelled first. |
| MessageTables.ScheduledIsWhole | delivery-api/internal/message/pgstore_scheduled.go:109-165 | In a valid state "some delivery is scheduled" and "the message is scheduled" are the same thing, and every delivery is then due at the deliver_at of its message. |
| MessageTables.HeldHasNoDeliveries | delivery-api/internal/message/pgstore_held.go:91-155 | A held message has no delivery at all. |
| MessageTables.InsertedValid | delivery-api/internal/message/pgstore.go:187-260 | An insert under a free key keeps every table invariant. |
| MessageTables.ReplacedValid | delivery-api/internal/message/pgstore_scheduled.go:94-175 | A replace keeps every table invariant: the message stays whole, scheduled or pending. |
| MessageTables.CancelScheduledValid | delivery-api/internal/message/pgstore_scheduled.go:272-291 | A cancel moves all deliveries and the mark together. |
| MessageTables.ReleasedValid | delivery-api/internal/message/pgstore_scheduled.go:311-340 | The rechecking release update leaves no message half released. |
| MessageTables.DueTogether | delivery-api/internal/message/pgstore_scheduled.go:324-331 | Two deliveries of one message are scheduled together and due together. |
| MessageTables.RemovedValid | delivery-api/internal/message/pgstore.go:36-51 | A retention delete cascades and leaves the rest valid. |
| MessageTables.RowUpdateValid | delivery-api/internal/message/pgstore.go:299-395 | Claims, records and replays rewrite one row and keep the tables valid. |
| MessageTables.RowFunctionsKeepRowOk | delivery-api/internal/message/pgstore.go:344-395 | Leasing, recording and replaying each keep attempt numbers 1..attempt_count and a dead reason exactly on dead rows. |
| MessageTables.LogOnlyGrows | delivery-api/internal/message/pgstore.go:354-390 | A record appends exactly one numbered entry and never rewrites the log; a replay keeps the log and count and grants a fresh budget. |
| MessageEffects.RecordWrites | delivery-api/internal/message/pgstore.go:365-390 | A record sets state, dead reason and last status to those of the result, the delivery time exactly on delivery and the due time exactly on a retry, and counts one attempt; target and budget start stay. |
| MessageEffects.ReplayRestarts | delivery-api/internal/message/pgstore.go:465-497 | A replay makes the row pending now with an empty budget that starts now; target, log, last status and delivery time stay. |
| MessageEffects.RemoveTakes | delivery-api/internal/message/pgstore.go:36-55 | A delete takes exactly the named messages and exactly their deliveries. |
| MessageEffects.InsertStores | delivery-api/internal/message/pgstore.go:187-260 | A stored message carries the submitted content, its creation time and no mark but held, one untried delivery per target in order and due as scheduled, and reads scheduled, pending or held accordingly; every other row stays. |
| MessageCounts.InsertedCounts | delivery-api/internal/message/pgstore.go:214-250 | What the counts inside the transaction read after an insert: one more exactly if the message joins the family and the app. |
| MessageStore.PGStore.InsertOnce | delivery-api/internal/message/pgstore.go:187-260 | One row per (app, key): an existing key is a duplicate that changes nothing; otherwise the app cap is refused first, then the total, and only a row within both is stored. |
| MessageStore.RefusalIsExact | delivery-api/internal/message/pgstore.go:214-250 | A cap refuses a row exactly when storing it would take the app or all apps past it; the refusal names the cap of the app first. |
| MessageStore.PGStore.InsertMessage | delivery-api/internal/message/pgstore.go:126-183 | Immediate insert: no cap, pending at once, duplicate on a taken key, refused without targets. |
| MessageStore.PGStore.InsertScheduledMessage | delivery-api/internal/message/pgstore.go:141-183 | Scheduled insert: each argument error exactly when its argument is bad; then a taken key is a duplicate, a full cap the refusal, and any other key is stored, scheduled at its deliver_at. Errors and duplicates change nothing. |
| MessageStore.PGStore.InsertHeldMessage | delivery-api/internal/message/pgstore_held.go:56-155 | Held insert: the same, against the held caps, stored without deliveries and with the held mark. |
| MessageStore.PGStore.LoadStates | delivery-api/internal/message/pgstore_scheduled.go:253-270 | The states read row by row are the states of the message. |
| MessageStore.PGStore.ReplaceScheduledMessage | delivery-api/internal/message/pgstore_scheduled.go:94-175 | Replaces exactly when the locked message still reads scheduled: for an instant ahead it stays scheduled, stored and due at that instant, otherwise it is pending and due now; else it is returned untouched; a missing key is reported as missing. |
| MessageEffects.ReplaceSwaps | delivery-api/internal/message/pgstore_scheduled.go:110-170 | For any targets the message reads scheduled afterwards if and only if the new deliver_at lies after now, with that instant stored and every delivery due then; otherwise every delivery is pending and due now. |
| MessageStore.ReplaceRenewsDeliveries | delivery-api/internal/message/pgstore_scheduled.go:126-170 | After a replace the message has exactly one fresh delivery per target, in order; deliveries of other messages are untouched. |
| MessageStore.ReplaceKeepsTheRest | delivery-api/internal/message/pgstore_scheduled.go:110-125 | A replace keeps the creation time and other messages, and restarts the retention age when it sends at once. |
| MessageStore.PGStore.CancelFound | delivery-api/internal/message/pgstore_scheduled.go:211-291 | The cancel of a locked message, from the state before: reported cancelled exactly when it read cancelled, held or scheduled and no release had failed; it moves exactly in the last two cases, and then message and deliveries are cancelled now. |
| MessageStore.PGStore.CancelMessage | delivery-api/internal/message/pgstore_scheduled.go:181-291 | Finds by id within the app, as admin or by app and key, and then cancels as above; an unset time and a message not found that way change nothing. |
| MessageStore.CancelDoes | delivery-api/internal/message/pgstore_scheduled.go:234-291 | From every state before, the answer, the status reported, whether it moved and every row afterwards. |
| MessageStore.CancelIsWholeAndIdempotent | delivery-api/internal/message/pgstore_scheduled.go:234-291 | Reported cancelled if and only if the message reads cancelled afterwards, with every delivery cancelled; a second cancel changes nothing. |
| MessageStore.PGStore.DistinctMessages | delivery-api/internal/message/pgstore_scheduled.go:324-336 | Each released message counts once however many of its rows moved. |
| MessageStore.PGStore.ReleaseDue | delivery-api/internal/message/pgstore_scheduled.go:303-340 | Releases the limit oldest due messages except those somebody else holds: each was scheduled with its deliver_at come, and exactly its deliveries become pending, due now with a budget from now; returns how many messages moved. |
| MessageStore.ProbeIsExact | delivery-api/internal/message/pgstore_scheduled.go:303-322 | The probe sees exactly the messages that read scheduled and whose deliver_at has come. |
| MessageStore.PGStore.ClaimDue | delivery-api/internal/message/pgstore.go:299-339 | Leases the pending, due, unlocked delivery that is first by (next_attempt_at, id), until now plus the lease and changing nothing else, or none exactly when there is none; a non-positive lease is refused. |
| MessageStore.PGStore.RecordAttempt | delivery-api/internal/message/pgstore.go:344-395 | Accepts exactly a delivered success, a failure to retry at a set time and a final failure with a reason; then a pending row is recorded once and any other is left as it is; otherwise nothing changes. |
| MessageStore.PGStore.Replay | delivery-api/internal/message/pgstore.go:465-497 | Only a dead delivery is replayed. |
| Ordered.Oldest | delivery-api/internal/message/pgstore.go:36-43 | ORDER BY time, id LIMIT n: the rows picked are exactly the first n in order. |
| Ordered.PrefixExtends | delivery-api/internal/message/pgstore.go:534-548 | The oldest of what an oldest batch left over extends it to a longer oldest run. |
| Ordered.PrefixUnique | delivery-api/internal/message/pgstore.go:36-43 | Which rows a bounded, ordered select picks is determined by their number. |
| MessageStore.PGStore.DeleteBatch | delivery-api/internal/message/pgstore.go:36-55 | One delete statement removes exactly the oldest rows it may. |
| MessageStore.PGStore.DeleteExpiredInBatches | delivery-api/internal/message/pgstore.go:528-581 | Exactly the oldest rows go, in (time, id) order, and their number is returned: the oldest min(n, 200 x batch) of n expired rows, or min(n, i x batch) when the run stops before batch i, which it does exactly at the first batch whose context is done while rows may remain. |
| MessageStore.QuotaIsProduct | delivery-api/internal/message/pgstore.go:28-31 | The quota of k batches is k times the batch size. |
| MessageStore.RetentionSparesLiveMessages | delivery-api/internal/message/pgstore.go:36-43 | Retention never removes a held message or one with a pending or scheduled delivery, nor any delivery of it. |
| MessageStore.ExpiryMeans | delivery-api/internal/message/pgstore.go:36-51 | Settled messages expire exactly when every instant they carry is past the cutoff (creation and cancel alone for a cancelled one) and no delivery is pending or scheduled; held ones exactly when held before it. |
| MessageRuns.CapsNeverExceeded | delivery-api/internal/message/pgstore.go:187-260 | For every interleaving of inserts (lock global, lock app, insert, count, count, commit) with releases, cancels, replaces, claims and sweeps, committed scheduled and held counts stay within the app and total caps. |
| MessageRuns.NoWaitCycle | delivery-api/internal/message/pgstore_scheduled.go:44-65 | In every reachable state no set of inserts waits on the cap locks or on the keys of each other in a cycle. |
| MessageRuns.SomeInsertProceeds | delivery-api/internal/message/pgstore_held.go:91-115 | While an insert is open, some insert transaction can take its next step. |
| MessageRuns.MessagesWaitWhole | delivery-api/internal/message/pgstore.go:690-713 | In every reachable state the deliveries of a message are all scheduled at its deliver_at, or none is scheduled. |
| MessageRuns.ReleaseIsDueWholeAndOnce | delivery-api/internal/message/pgstore_scheduled.go:303-340 | With the release split into unlocked probe, skip-locked lock and rechecking update, a message released is due at the deliver_at it has at that moment, moves whole, and was never released or cancelled before. |
| MessageRuns.ReleasedOrCancelled | delivery-api/internal/message/pgstore_scheduled.go:253-340 | Over a whole run no message is both released and cancelled. |
| MessageRuns.CancelledIsNeverClaimed | delivery-api/internal/message/pgstore.go:299-339 | Once a cancel committed, no claim ever returns a delivery of that message. |
| MessageRuns.RunInv | delivery-api/internal/message/pgstore_scheduled.go:94-340 | Every state of every run satisfies the table invariants, the caps and what each open transaction relies on. |
| MessageRuns.StepKeeps | delivery-api/internal/message/pgstore_scheduled.go:94-340 | Each single step of each transaction keeps that invariant. |
| MessageRefinement.CancelAlone | delivery-api/internal/message/pgstore_scheduled.go:211-291 | Lock, decide and write, undisturbed, are the cancel of the store, answer included. |
| MessageRefinement.ReplaceAlone | delivery-api/internal/message/pgstore_scheduled.go:94-175 | Lock, decide and write, undisturbed, swap the message exactly while it reads scheduled. |
| MessageRefinement.ReleaseAlone | delivery-api/internal/message/pgstore_scheduled.go:303-340 | Locking the candidates and updating, undisturbed, is the release of all of them. |
| MessageRefinement.InsertAlone | delivery-api/internal/message/pgstore.go:187-260 | Both locks, the row and both counts, undisturbed, store the row exactly when its key is free and neither cap refuses it. |
| Policy.BackoffCeiling | delivery-api/internal/dispatch/policy.go:76-84 | The doubling loop stops at min(30 s x 2^(n-1), 1 h) without leaving int64, for every attempt count. |
| Policy.Backoff | delivery-api/internal/dispatch/policy.go:76-94 | The delay computed in int64 is half the ceiling plus the jittered share, raised to the capped Retry-After. |
| Policy.CeilingBounds | delivery-api/internal/dispatch/policy.go:76-84 | The ceiling lies in [30 s, 1 h]. |
| Policy.DelayBounds | delivery-api/internal/dispatch/policy.go:66-94 | The delay lies in [ceiling/2, 1 h], within the ceiling when no Retry-After is given, and honours Retry-After up to an hour. |
| Policy.CeilingDoubles | delivery-api/internal/dispatch/policy.go:76-84 | 30 s for the first attempt, then twice the ceiling before, up to an hour. |
| Policy.JitterSpans | delivery-api/internal/dispatch/policy.go:76-110 | The jitter adds the random share of half the ceiling: none at 0 or without a source, all of it at 1, values outside clamped. |
| Policy.RetryAfterRaises | delivery-api/internal/dispatch/policy.go:66-94 | A Retry-After longer than the jittered delay replaces it, up to an hour; a shorter one changes nothing. |
| Policy.ClassesMean | delivery-api/internal/dispatch/policy.go:44-64 | Retryable is exactly no answer, 408, 429 or a 5xx that does not say gone; success exactly 2xx; gone exactly 410 or a failure that says so; everything else terminal. |
| Policy.ClaimBackoff | delivery-api/internal/dispatch/worker.go:259-268 | For every failure count, int64 wrap included, the wait equals min(poll x 2^min(max(f-1,0),5), max(30 s, poll)) and never overflows. |
| Policy.DecisionsAreRecordable | delivery-api/internal/dispatch/policy.go:123-147 | Every decision passes validateAttemptResult except, exactly, a retry due at the zero time, which no real clock gives. |
| Policy.RetryExactlyWithinBudget | delivery-api/internal/dispatch/policy.go:123-147 | A retry is given if and only if the answer is a transport error, 408, 429 or 5xx, fewer than 11 attempts are charged and the budget is younger than 24 h; it lies the backoff delay ahead, 15 s to 1 h; success exactly on 2xx without an error. |
| Policy.DecisionsSayWhy | delivery-api/internal/dispatch/policy.go:123-147 | A decision records the class, the positive status code and the start; a dead one has exactly one reason: gone, blocked address, exhausted budget or terminal status. |
| Lease.NewWorker | delivery-api/internal/dispatch/worker.go:157-192 | Defaults of 120 s and 9 s, then the lease is the configured one, or the attempt timeout plus 37 s where that is longer; a sufficient configuration is left as it is. |
| Lease.HeldIsNotDue | delivery-api/internal/dispatch/worker.go:296-367 | While a worker holds a delivery its lease, or the backoff already recorded, outlasts the deadline of that worker. |
| Lease.StepKeepsSafe | delivery-api/internal/dispatch/worker.go:225-367 | Every timed step of any worker, a replay, an enqueue or a drop keeps the lease invariant. |
| Lease.AttemptsNeverOverlap | delivery-api/internal/dispatch/worker.go:296-367 | Two workers never hold one delivery between claim and end of record, on any number of workers with any configuration, if acknowledgements are not lost or nobody replays. |
| LeaseBounds.LostAcksAndReplaysOverlap | delivery-api/internal/dispatch/worker.go:508-535 | With both, any two workers have a run in which they send one delivery at once. |
| LeaseBounds.OverlapFreedomIsExact | delivery-api/internal/dispatch/worker.go:296-367 | No run of a configuration ever overlaps if and only if acknowledgements are not lost, or nobody replays, or there is at most one worker. |
| Lease.BudgetNeverExceeded | delivery-api/internal/dispatch/worker.go:508-535 | While no acknowledgement is lost, budget_attempts is at most 12, and at most 11 while pending. |
| Lease.LostAcksCostAtMostTwo | delivery-api/internal/dispatch/worker.go:508-535 | A lost acknowledgement charges an attempt again: at most 14, and 13 while pending, when nobody replays. |
| LeaseBounds.BudgetIsReached | delivery-api/internal/dispatch/worker.go:508-535 | Every configuration with a worker has a run that reaches those bounds: pending at 11 and dead at 12, or, with lost acknowledgements, pending at 13 and dead at 14. |
| LeaseBounds.BudgetBoundIsExact | delivery-api/internal/dispatch/worker.go:508-535 | The budget of 12, never pending once spent, holds in every run of a configuration if and only if no acknowledgement is lost (or there is no worker). |
| LeaseBounds.ThreeChargesAWorker | delivery-api/internal/dispatch/worker.go:508-535 | With lost acknowledgements and replays together, on N workers: at most 11 + 3N, and 10 + 3N while pending. |
| Lease.LogIsGapFree | delivery-api/internal/message/pgstore.go:344-395 | In every run attempt numbers are exactly 1..attempt_count across replays and every result written is valid. |
| Lease.StepsUseSettings | delivery-api/internal/dispatch/worker.go:296-320 | A claim leases for the lease its worker is configured with and an attempt runs for its timeout. |
| Lease.FailedRecordRetries | delivery-api/internal/dispatch/worker.go:508-535 | A failed record is tried again with the same result and deadline, up to three times. |
| Lease.GoneDisables | delivery-api/internal/dispatch/worker.go:335-367 | Leaving a record, a worker disables its destination exactly when that one reported gone and is a named one. |
| JsonEquality.SameJsonReflexive | delivery-api/internal/message/equality.go:64-99 | Structural equality is reflexive on every decoded value. |
| JsonEquality.SameJsonSymmetric | delivery-api/internal/message/equality.go:64-99 | It is symmetric: equal sizes and a one-way key lookup suffice. |
| JsonEquality.SameJsonTransitive | delivery-api/internal/message/equality.go:64-99 | It is transitive, exact rational numbers and unparseable literals included. |
| JsonEquality.SameJsonIsCanonical | delivery-api/internal/message/equality.go:64-108 | Two documents are equal exactly when they agree once every number is replaced by its exact value, or by its literal where it has none. |
| JsonEquality.TextReads | delivery-api/internal/message/equality.go:101-108 | Every number literal, with any sign, fraction and exponent, reads as its exact value, or not at all exactly when its exponent leaves int64 or, unless it is zero, its scale leaves the cap. |
| JsonEquality.SameNumberIsExact | delivery-api/internal/message/equality.go:101-108 | Two literals that can be read are one number exactly when their values are equal; one that cannot equals only itself. |
| JsonEquality.TrailingZero | delivery-api/internal/message/equality.go:101-108 | A zero appended to the fraction changes nothing: 100 and 100.0. |
| JsonEquality.PointMoves | delivery-api/internal/message/equality.go:101-108 | Moving the point right with the exponent one less changes nothing: 1.25e3 and 12.5E+2. |
| JsonEquality.FractionAsPower | delivery-api/internal/message/equality.go:101-108 | A pure fraction is its digits with a negative exponent: 0.01 and 1E-2. |
| JsonEquality.ZeroIsZero | delivery-api/internal/message/equality.go:101-108 | A zero, signed or not and at any scale, is the same number as exactly the zeros. |
| Submission.SameContentIsEquivalence | delivery-api/internal/message/equality.go:17-62 | Content equality is symmetric and transitive, and reflexive exactly on payloads that decode. |
| Submission.SameContentIsExact | delivery-api/internal/message/equality.go:17-62 | Same content means: channel, both ways to address, urgency, deliver_at to the microsecond, payload in canonical form and display with an absent one empty, and nothing else. |
| Submission.StoredContent | delivery-api/internal/message/equality.go:27-34 | What the store keeps of an envelope is the same content, microsecond truncation included. |
| Submission.HashedTwice | delivery-api/internal/message/service.go:289-293 | Hashing an already hashed recipient changes nothing. |
| Submission.RecipientIsHashed | delivery-api/internal/message/service.go:289-293 | A recipient is stored as a hash, its own if it already is one; nothing else of the envelope changes. |
| Submission.VerdictMeans | delivery-api/internal/message/service.go:300-345 | A new submit is held exactly when nothing matched, it asked, the route allows, it is unaddressed, the clock is set and both held caps have room; stored exactly when it resolves and, if ahead, both scheduled caps have room. |
| Submission.AnsweredForSameContent | delivery-api/internal/message/service.go:366-371 | If one spelling of a submission would be answered as a duplicate, so would every other spelling of the same content. |
| Submission.InsertAnswers | delivery-api/internal/message/service.go:322-345 | A fresh insert answers its own content from then on. |
| Submission.ReplaceAnswers | delivery-api/internal/message/service.go:377-403 | So does a replace: it reads scheduled if and only if its deliver_at lies ahead, and answers its content either way. |
| Submission.Service.SubmitExisting | delivery-api/internal/message/service.go:366-404 | An existing key is a duplicate, an error, vanished, or one replace of the row as it is then, whatever commits between its store calls; the answer names the row with the key and says whether it reads scheduled. |
| Submission.Service.SubmitNew | delivery-api/internal/message/service.go:310-363 | A new key is held only if unaddressed and allowed to be, scheduled exactly for a future instant, else pending; every refusal is exact (unresolved, bad clock, app cap, total cap), and any other free key is stored and answers its content. |
| Submission.Service.Submit | delivery-api/internal/message/service.go:284-346 | Invalid exactly when the payload is not one JSON object, two ways to address are given, deliver_at is out of range or a field breaks its rule. A valid submit makes at most one row change of its own; the answer names the row with the key, and a replace or new row is scheduled exactly for an instant ahead; duplicates and errors change nothing; with nobody else writing the outcome is exact. |
| Submission.Service.SubmitTwice | delivery-api/internal/message/service.go:256-283 | Retrying the same content at any later time, with any resolver answer, after a success is a duplicate that changes no row; the first submit of a free key succeeds exactly when its verdict does. |
| HeartbeatMachine.TickFilterIsExact | delivery-api/internal/heartbeat/pgstore.go:47-50 | The WHERE clause of the tick selects exactly the checks the tick takes down, besides unknown states it leaves alone. |
| HeartbeatMachine.PatchRestartsOnChange | delivery-api/internal/heartbeat/pgstore.go:180-209 | A patch restarts a probe if and only if it touches the token or the effective configuration differs, statuses compared as multisets; otherwise the schedule, counter, token and version stay. |
| HeartbeatMachine.PatchSetsNamed | delivery-api/internal/heartbeat/pgstore.go:158-217 | A patch that fits sets exactly the fields it names and keeps the others; a probe has its interval as period and four intervals as grace. |
| HeartbeatMachine.PingMoves | delivery-api/internal/heartbeat/machine.go:50-103 | A known push check is up after a success ping and down after a fail ping, from now and for that reason if it was not down; the alert is the crossing; a probe check, an unknown state and an unknown kind change nothing. |
| HeartbeatMachine.TickMoves | delivery-api/internal/heartbeat/machine.go:105-128 | A tick takes exactly the unpaused new or up checks past their deadline down, from now and for the reason missed, with its alert and without a detail; every other is left as it is. |
| HeartbeatMachine.PausePauses | delivery-api/internal/heartbeat/machine.go:132-143 | A pause marks the check paused, drops its pending alert and voids results in flight if it was running; nothing else changes. |
| HeartbeatMachine.ResumeResumes | delivery-api/internal/heartbeat/machine.go:146-181 | A resume of a paused check runs it from now in the state it had, its probe starting over one interval on; any other is left as it is. |
| HeartbeatMachine.ResultMoves | delivery-api/internal/heartbeat/machine.go:184-243 | An applied success leaves the check up; an applied failure takes a check that is not down down exactly at three in a row outside the hold-off, from now and for its reason, and on a down check only replaces the reason missed. |
| HeartbeatRuns.OutboxMatchesState | delivery-api/internal/heartbeat/machine.go:50-157 | In every run a pending alert announces the current state, never coexists with paused, and down_reason is set exactly when down. |
| HeartbeatRuns.AlertSeqCountsCrossings | delivery-api/internal/heartbeat/machine.go:290-296 | alert_seq equals the number of unpaused transitions into or out of down. |
| HeartbeatRuns.AlertsAlternate | delivery-api/internal/heartbeat/machine.go:50-157 | On pause-free runs alerts alternate: alert_seq is odd exactly when down. |
| HeartbeatRuns.StepAnnouncesCrossings | delivery-api/internal/heartbeat/machine.go:86-105 | A step announces exactly when it crosses, and says which way. |
| HeartbeatRuns.CounterIsFailingSuffix | delivery-api/internal/heartbeat/machine.go:164-243 | consecutive_failures is the length of the failing suffix of accepted results since the last reset. |
| HeartbeatRuns.DownNeedsThreeFailures | delivery-api/internal/heartbeat/machine.go:184-243 | A result takes a check down only as the third failure in a row or later and never inside the hold-off, with the reason of that result. |
| HeartbeatRuns.ThirdFailureTakesDown | delivery-api/internal/heartbeat/machine.go:226-243 | Over every run an applied failing result takes a check that was not down down, announced, if and only if the last three accepted results or more failed and the hold-off is over; otherwise it announces nothing and the state stays. |
| HeartbeatRuns.SuccessBringsUp | delivery-api/internal/heartbeat/machine.go:206-223 | Over every run an applied success leaves the check up without a reason and announces a recovery exactly if it was down. |
| HeartbeatRuns.VersionCountsFences | delivery-api/internal/heartbeat/machine.go:132-180 | The config version stands still exactly while nothing fences. |
| HeartbeatRuns.NoFenceMeansNone | delivery-api/internal/heartbeat/machine.go:132-180 | The recursive form used in the proofs says that no single event of the run fenced. |
| HeartbeatRuns.ResultsAreFenced | delivery-api/internal/heartbeat/probe_store.go:243-276 | A result is applied if and only if no pause, resume or effective change committed since its claim and its reason is a probe reason. |
| HeartbeatRuns.ClaimIsLast | delivery-api/internal/heartbeat/probe_store.go:198-238 | Over every run a claim that finds the probe due and unpaused is the last claim from then on, until the next. |
| HeartbeatRuns.NextProbeWaits | delivery-api/internal/heartbeat/probe_store.go:198-238 | After a claim the next probe is due no sooner than the interval then in force. |
| HeartbeatRuns.ClaimsAreSpaced | delivery-api/internal/heartbeat/probe_store.go:198-238 | Successive claims are at least the current interval apart across patches, pauses and resumes. |
| HeartbeatRuns.AnchorIsLastSign | delivery-api/internal/heartbeat/machine.go:19-21 | The deadline clock runs from the last sign of life or restart. |
| HeartbeatRuns.TickMeansSilence | delivery-api/internal/heartbeat/machine.go:105-128 | A tick takes a check down if and only if it is unpaused, not down and silent for strictly longer than period plus grace; the reason is missed. |
| HeartbeatRuns.DownSinceIsLastFall | delivery-api/internal/heartbeat/machine.go:36-45 | down_since is the time of the last fall, kept through a recovery. |
| HeartbeatRuns.LastSeenIsLatest | delivery-api/internal/heartbeat/machine.go:80-86 | The stored last ping and last result are the latest accepted ones of the run, the result since the last reset; ping time and kind are set together. |
| HeartbeatStore.CheckStore.Create | delivery-api/internal/heartbeat/pgstore.go:70-122 | A new check under a free name, starting now with nothing seen; a probe first runs one interval on with a grace of four; errors change nothing. |
| HeartbeatStore.CheckStore.SaveCheck | delivery-api/internal/heartbeat/probe_store.go:114-147 | Writing next_probe_at only when it differs from the locked value still leaves the row as computed. |
| HeartbeatStore.CheckStore.RecordPing | delivery-api/internal/heartbeat/pgstore.go:324-352 | A ping steps exactly the named push check; each error is exact: bad kind, no such check, a probe check. |
| HeartbeatStore.TickingDueIsTickingAll | delivery-api/internal/heartbeat/pgstore.go:358-391 | Ticking the filtered rows is ticking every row. |
| HeartbeatStore.CheckStore.AdvanceDue | delivery-api/internal/heartbeat/pgstore.go:358-391 | The loop over the due rows equals every check ticking once, and returns exactly those that changed. |
| HeartbeatStore.CheckStore.Pause | delivery-api/internal/heartbeat/pgstore.go:288-293 | A pause marks one check paused and drops its alert, in the state it had, and touches no other. |
| HeartbeatStore.CheckStore.Resume | delivery-api/internal/heartbeat/pgstore.go:304-311 | A resume runs one check again in the state it had, its clock restarted if it was paused, and touches no other. |
| HeartbeatStore.CheckStore.PatchCheck | delivery-api/internal/heartbeat/pgstore.go:158-217 | Succeeds exactly when the merged update validates and the patch fits: no period or grace for a probe, no probe part or token for a push check; then it steps one check, otherwise nothing changes. |
| HeartbeatStore.CheckStore.ClaimDueProbes | delivery-api/internal/heartbeat/probe_store.go:198-238 | Claims limit due, unpaused, unlocked probes, or all of them, none sooner left out, makes each due exactly one interval on and changes nothing else. |
| HeartbeatStore.CheckStore.RecordProbeResult | delivery-api/internal/heartbeat/probe_store.go:243-276 | Applied if and only if the version and the machine accept; then a success leaves the check up and a failure takes it down exactly as the third in a row outside the hold-off; otherwise nothing is written. |
| HeartbeatStore.CheckStore.ClearPendingAlert | delivery-api/internal/heartbeat/pgstore.go:399-407 | Clears the pending alert exactly when its sequence is the one named, reports that, and changes nothing else. |
| HeartbeatStore.Prober.NewProber | delivery-api/internal/heartbeat/prober.go:75-90 | A prober exists exactly for a concurrency of at least 1, with nothing in flight. |
| HeartbeatStore.Prober.Scan | delivery-api/internal/heartbeat/prober.go:94-123 | Claims at most the free slots; every claim is running afterwards unless it ended meanwhile, and holds a slot while it runs: in flight is what it was plus the claims less those ended, and never exceeds the concurrency over any sequence of passes and ends. |
| HeartbeatOutbox.AlertKeyInjective | delivery-api/internal/heartbeat/service.go:302-310 | One idempotency key names one check, one alert and one destination, colons in names included. |
| HeartbeatOutbox.AlertsLeaveOnlyWhenHandled | delivery-api/internal/heartbeat/service.go:177-242 | In every interleaving a pending alert of a remaining check leaves only for a later alert, by a pause, or by a flush of that very alert that sent to or was refused by every enabled destination of its snapshot. |
| HeartbeatOutbox.StaleClearKeepsAlert | delivery-api/internal/heartbeat/pgstore.go:399-407 | A flush of an older alert clears nothing. |
| HeartbeatOutbox.FinishClears | delivery-api/internal/heartbeat/service.go:233-240 | A flush that finished without a failure clears the alert it flushed if that is still the current one; a failed one leaves every check. |
| HeartbeatOutbox.FlushProceeds | delivery-api/internal/heartbeat/service.go:204-242 | Over every run an open flush can submit to its next destination or finish, never both and never neither. |
| HeartbeatOutbox.RoundSays | delivery-api/internal/heartbeat/service.go:211-232 | Only an accepted submit or a lost reply sends, and the first content under a key stays; only a refusal skips, only a failure or a lost reply fails the flush, and a disabled destination does none. |
| HeartbeatAlerts.AlertSays | delivery-api/internal/heartbeat/service.go:256-315 | A down alert is critical and high, says heartbeat.down and the reason; a recovery says heartbeat.recovered; both name app and check, go to one destination at once and are never held. |
| HeartbeatOutbox.RepeatsAgree | delivery-api/internal/heartbeat/service.go:200-201 | In every run a submit under a key sent before announces the same: kind, app, check and start of the outage. |
| HeartbeatAlerts.RepeatedEnvelopes | delivery-api/internal/heartbeat/service.go:256-315 | Envelopes of one alert to one destination agree on key, urgency and title and on every payload field but reason, last ping, period and grace; if those and the body agree they are equal. |
| HeartbeatAlerts.RepeatsMayDiffer | delivery-api/internal/heartbeat/machine.go:226-231 | They may differ: every probe check has a run in which a second flush submits other content under the key of the first, a result having named the reason after the tick said missed. |
| HeartbeatAlerts.RepeatIsDuplicate | delivery-api/internal/heartbeat/service.go:200-201 | Still, once an alert is stored, any later submit of it is answered as a duplicate as long as the message is kept, over every run of the message store. |
| MessageRuns.NeverScheduledAgain | delivery-api/internal/message/pgstore_scheduled.go:94-340 | Over every run a message that is not scheduled never is again, and keeps its key, as long as it exists. |
| HeartbeatOutbox.StepKeeps | delivery-api/internal/heartbeat/service.go:177-242 | Every step of flushes, moves, creates and deletes keeps the outbox invariant. |
| AppIdentityTables.GuardIsValidity | delivery-api/internal/appidentity/pgstore_admin.go:331-357 | The revocation guard holds exactly when the key is valid; an invalid key is invalid at every later time. |
| AppIdentityTables.OneOwnerPerName | delivery-api/internal/appidentity/pgstore_admin.go:130-152 | A destination name starts with "<app>_" for at most one bound app. |
| AppIdentityTables.OverlapIsSharedName | delivery-api/internal/appidentity/pgstore_admin.go:130-152 | Two app ids overlap exactly when some destination name would start with both and an underscore. |
| AppIdentityTables.MatchIsFiveParts | delivery-api/internal/appidentity/service.go:207-235 | Claims match a binding on repository, workflow, ref, environment and owner, and on nothing else. |
| AppIdentityTables.FiledValid | delivery-api/internal/appidentity/pgstore.go:177-200 | Filing below the cap for an unbound app keeps the registry valid. |
| AppIdentityTables.ApprovedValid | delivery-api/internal/appidentity/pgstore_admin.go:154-197 | An approval that passes the overlap and uniqueness checks keeps the registry valid and frees the slots of its siblings. |
| AppIdentityTables.IssueRotates | delivery-api/internal/appidentity/pgstore.go:203-225 | The new key is the one active key of the app; the one it replaces works for exactly 24 hours more; other apps are untouched. |
| AppIdentityTables.UnboundValid | delivery-api/internal/appidentity/pgstore_admin.go:359-368 | Unbinding takes the keys of the app with it and keeps the registry valid. |
| AppIdentityStore.IdentityStore.FilePendingRequest | delivery-api/internal/appidentity/pgstore.go:143-200 | Refuses exactly when bound or when a new request would pass 20; otherwise refreshes the request with this app and workflow, keeping its age, or files one; every other request, all keys and bindings stay. |
| AppIdentityStore.IdentityStore.DecideClaims | delivery-api/internal/appidentity/service.go:207-235 | Issues exactly on a binding with the five parts of the claims in the state acted on, and then the app has one new key and its active one is superseded now, every other key kept; a mismatch, a vanished look and a full queue are each exact; a binding that appears meanwhile gets exactly one more look; errors change nothing of their own. |
| AppIdentityStore.IdentityStore.Exchange | delivery-api/internal/appidentity/service.go:156-193 | Token record, key and request commit together or not at all; refused at the door exactly for the reserved app or a recorded token id; a fresh token earns a key exactly when its claims match the binding acted on, and otherwise a request or the exact error. |
| AppIdentityStore.IdentityStore.ApproveRequest | delivery-api/internal/appidentity/pgstore_admin.go:111-212 | Succeeds if and only if the request is pending, still names the registered app, and neither app id nor workflow is bound or overlapping, each error exact; the app is then bound as requested, and exactly that request and the pending ones for the app or the workflow are gone. |
| AppIdentityStore.IdentityStore.RejectRequest | delivery-api/internal/appidentity/pgstore_admin.go:228-253 | A pending request is rejected now and leaves the pending set; repeating changes nothing; every other row stays. |
| AppIdentityStore.IdentityStore.RevokeKey | delivery-api/internal/appidentity/pgstore_admin.go:331-357 | Afterwards the key does not work: one that worked is revoked now, one that did not keeps its row, and every other key stays. |
| AppIdentityStore.IdentityStore.Unbind | delivery-api/internal/appidentity/pgstore_admin.go:359-368 | Deletes the binding of the app and exactly its keys; every other binding and key, the requests and the ledger stay. |
| AppIdentityStore.IdentityStore.ResolveKey | delivery-api/internal/appidentity/pgstore.go:50-78 | Resolves if and only if the row exists and is valid now. |
| AppIdentityStore.IdentityStore.DeleteStalePendingRequests | delivery-api/internal/appidentity/pgstore_admin.go:96-107 | Removes exactly the pending requests not refreshed within the ttl. |
| AppIdentityStore.IdentityStore.DeleteExpiredRejectedRequests | delivery-api/internal/appidentity/pgstore_admin.go:77-89 | Removes exactly the rejections older than the window and no pending request. |
| AppIdentityRuns.StepKeeps | delivery-api/internal/appidentity/pgstore.go:143-200 | Every statement, commit, abort, rejection, sweep, revocation and unbind keeps the registry invariant under READ COMMITTED. |
| AppIdentityRuns.PendingStaysBounded | delivery-api/internal/appidentity/pgstore.go:143-200 | In every interleaving at most 20 requests are pending and none is for a bound app. |
| AppIdentityRuns.NamesHaveOneOwner | delivery-api/internal/appidentity/pgstore_admin.go:130-166 | In every interleaving bound app ids stay free of underscore extensions and one workflow is bound to one app. |
| AppIdentityRuns.OneActiveKeyPerApp | delivery-api/internal/appidentity/pgstore.go:203-225 | In every interleaving an app has at most one unsuperseded, unrevoked key, and only while bound. |
| AppIdentityRuns.DeadKeysStayDead | delivery-api/internal/appidentity/key.go:87-109 | Once a key does not work, no later step and no later time makes it work. |
| AppIdentityRuns.KeysAreEarned | delivery-api/internal/appidentity/service.go:207-235 | A key appears only at the commit of an exchange with a fresh token id whose claims match the binding at that commit. |
| AppIdentityRefinement.ExchangeAlone | delivery-api/internal/appidentity/service.go:156-235 | The statements of an exchange, undisturbed, issue, refresh, file or change nothing exactly as the exchange on its own. |
| AppIdentityRefinement.ApproveAlone | delivery-api/internal/appidentity/pgstore_admin.go:111-212 | The statements of an approval, undisturbed, bind the app exactly when the approval on its own succeeds. |
| KeyRotation.WriteSays | delivery-api/internal/keyrotation/rotation.go:206-282 | What a live writer does to the rows and to what is remembered of them: a seal with a key it holds, a clear or a delete of its own row and of no other. |
| KeyRotation.WriteKeepsIntact | delivery-api/internal/keyrotation/rotation.go:206-282 | A seal, clear or delete by a live writer keeps every remembered row openable to what was last written. |
| KeyRotation.ResealKeepsIntact | delivery-api/internal/keyrotation/rotation.go:132-148 | The compare-and-swap keeps it too, matched or not. |
| KeyRotation.ResealSettles | delivery-api/internal/keyrotation/rotation.go:132-148 | Matched or lost, the row looked at is current or changed since it was read. |
| KeyRotation.CurrentMeans | delivery-api/internal/keyrotation/rotation.go:287-343 | A value needs nothing more exactly when it is null or sealed with the primary key for its own row. |
| KeyRotation.Rotation.RotateRow | delivery-api/internal/keyrotation/rotation.go:230-269 | A row is null, current, re-sealed or reported exactly by what its value is, with the reason; it aborts exactly on a fault at its swap, and reports a concurrent change only when the value had changed; no outcome loses a secret. |
| KeyRotation.Rotation.RotateTable | delivery-api/internal/keyrotation/rotation.go:221-272 | Per table, scanned = rotated + already current + null + failed, and the failures are the issues. |
| KeyRotation.Rotation.Rotate | delivery-api/internal/keyrotation/rotation.go:206-282 | However it ends, every row still opens to the plaintext last written; a run without faults never aborts, and undisturbed it re-keys exactly the rows that open under the previous key alone, counts each table exactly and names exactly the unreadable rows with their reasons; a complete run makes Verify succeed under primary writers; over such tables a run rotates nothing. |
| KeyRotation.Rotation.Verify | delivery-api/internal/keyrotation/rotation.go:287-343 | Complete if and only if every value is null or opens under the primary key alone; the issues name exactly the other rows, each with its reason; it changes nothing. |
| ResetLimiter.ResetStore.ClaimResetSlot | person-service/src/index.ts:323-351 | Admitted if and only if fewer than five rows are in the window (and the random id is free); the new row is dated now, only rows of that person outside the window go, and a refusal carries the wait computed from the oldest row. |
| ResetLimiter.ResetStore.ReleaseResetSlot | person-service/src/index.ts:353-370 | Frees exactly the named slot of that person. |
| ResetLimiter.StepsFree | person-service/src/index.ts:353-370 | In the runs a release frees exactly the named slot of the person, a deletion exactly the rows of the person. |
| ResetLimiter.AtMostFiveAnHour | person-service/src/index.ts:320-351 | With a non-decreasing clock no half-open hour holds more than five admitted, unreleased resets of a person since the person was last deleted. |
| ResetLimiter.FiveADeletion | person-service/src/index.ts:320-351 | Over everything ever admitted and not released, an hour holds at most 5 x (1 + deletions of the person in the run). |
| ResetLimiter.DeletionsReopenTheHour | person-service/src/index.ts:162-180 | For any number of deletions some run reaches that bound within one hour. |
| ResetLimiter.RefusalCountsFive | person-service/src/index.ts:328-341 | A refusal counted exactly five rows. |
| ResetLimiter.RetryAfterIsExact | person-service/src/index.ts:343-351 | The advertised wait suffices if nobody else claims, and one second less does not if nothing is released. |
| AppTeardown.TornDownIsClean | delivery-api/internal/appteardown/store.go:59-108 | No check, route, destination or held message of the app and no dangling link is left. |
| AppTeardown.OthersAreIntact | delivery-api/internal/appteardown/store.go:59-108 | Every row of every other owner survives unchanged, and exactly the links between survivors. |
| AppTeardown.TornDownTwice | delivery-api/internal/appteardown/store.go:59-108 | A second teardown removes nothing. |
| AppTeardown.GoneMeans | delivery-api/internal/appteardown/service.go:104-170 | After all phases the app has no binding, publisher or upstream credential and owns no row; every other app keeps all three, and every other row stays. |
| AppTeardown.CountsAreLosses | delivery-api/internal/appteardown/store.go:59-108 | The report counts what the tables lost. |
| AppTeardown.Teardown.DeleteLinksCountOrphans | delivery-api/internal/appteardown/store.go:118-142 | The count is exactly the operator rows that lost their last link. |
| AppTeardown.Teardown.DeleteOwnedObjects | delivery-api/internal/appteardown/store.go:59-108 | Fails, changing nothing, exactly when a link to a destination of the app is committed meanwhile; otherwise tears down and reports exactly what went. |
| AppTeardown.PhaseThenAll | delivery-api/internal/appteardown/service.go:104-170 | Having done any phase already changes nothing of where a full run ends. |
| AppTeardown.Teardown.Deprovision | delivery-api/internal/appteardown/service.go:104-170 | Any run, interrupted anywhere, leaves a state a full run takes to the same end; for each way the phases can end, exactly which parts are gone; an upstream failure touches no delivery data. |
| AppTeardown.Teardown.DeprovisionRepeatedly | delivery-api/internal/appteardown/service.go:84-103 | Any interrupted runs followed by a full one end where one uninterrupted run does. |

## Left out

- `delivery-api/internal/httpapi`, wiring, environment parsing and log lines are not modelled.
- Submission.Service.Submit: the patterns and size limits of single envelope fields are one predicate of the envelope, a parameter.
- Sinks, transport, JWT and JWKS checks, AES and SHA-256: any outcome, an ideal seal and an injective hash stand for them.
- Destination routing and publisher minting: the resolver's answer is a parameter of each call; the supported-type and display checks are part of that answer.
- `UNIQUE (message_id, destination_name)`, `updated_at`, latency, error text and response snippets of attempts are not modelled.
- `released_at` and `release_failed_at` are columns the modelled code reads but never sets; the models read them too.
- Microseconds: only `deliver_at` and the heartbeat and identity times are truncated as stored; `next_attempt_at` and `budget_started_at` keep nanoseconds, which the lease margin covers.
- Advisory locks are one per app and family: two app ids whose lock keys hash alike, which only adds waiting, are not modelled.
- MessageRuns.StepKeeps: a retention sweep may remove any message whose row nobody holds, and a claim may take any due row rather than the oldest; both allow more than the code does.
- The accepted race in which a sweep removes a message whose delivery is being replayed is among those runs.
- HeartbeatStore.CheckStore.PatchCheck: the bounds on merged fields, and resolving destination names to rows, are a parameter.
- HeartbeatMachine.PatchRestartsOnChange: statuses are compared as multisets, which is what comparing sorted copies means; the sort itself is not modelled.
- HeartbeatOutbox.AlertsLeaveOnlyWhenHandled: an alert kind this build does not know, which the table constraint excludes, is not modelled; alert titles, bodies and time formats are parameters.
- HeartbeatRuns.ClaimsAreSpaced: step times are taken as non-decreasing; the code reads the clock before waiting for the row lock, so a late writer can bring an older time.
- `DerivedState`, `ActiveDownSince` and the listing methods of the stores are not modelled.
- HeartbeatStore.Prober.NewProber: the checks on the scan interval and on missing collaborators are not modelled.
- HeartbeatStore.CheckStore.ClaimDueProbes: rows due at the same time come in any order, as in the statement.
- HeartbeatAlerts.RepeatIsDuplicate: once retention has removed the message, a resubmit is a new message.
- LeaseBounds.OverlapFreedomIsExact: each step is taken to respect its own timeout and `ClaimDue` to return within the lease margin, on one clock; a statement that commits after its worker gave up on it is not modelled.
- JsonEquality.TextReads: the exponent bounds of `math/big` are constants of the model; JSON text decoding is not modelled, and a document that does not decode is a missing payload.
- AppIdentityRuns.StepKeeps: the replay ledger never shrinks; the effects of a transaction appear at its commit, with the locks it holds until then.
- AppIdentityStore.IdentityStore.ResolveKey: a presented key is the row its hash names, or none; `TouchKey` is left out.
- The registrar call of `ApproveRequest` happens before the modelled transaction and changes none of its tables.
- KeyRotation.Rotation.RotateTable: rows are taken in any order, which includes key order; AAD functions are a parameter.
- ResetLimiter.AtMostFiveAnHour: resets of a deleted person count only from the deletion on; random ids are taken as never reused.
- AppTeardown.Teardown.Deprovision: the provisioning service is one set of apps; what an app re-creates while the upstream phase runs is cleared by repeating the call and is not modelled.
- The watchdog, web UI, setup pages and proxies are not modelled.
