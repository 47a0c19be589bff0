# Verified model of outbound delivery, accounts, retention and ingest

A Dafny model of the parts of a temporary-mail service whose correctness depends on many actors working on the same
rows at once, together with proofs of what holds on every run. `dafny verify dfyconfig.toml` checks it.

## What is modelled

**Outbound messages.** One `outbound_messages` row is driven by any number of delivery workers, its user, the schedule
dispatcher, an administrator, provider events, stale-sending reconciliation, the detector of impossible states, the
retention and repair of its delivery-attempt rows and the operator's reconciliation of usage.

- `Lifecycle.dfy` holds the state table and the transport-result table.
- `MessageRow.dfy` specifies, for each action, the row it leaves, the reply it gives and the usage call it makes.
- `OutboundMessages.dfy` is the mutable row; each method is one locked transaction or conditional update, proved to
  leave exactly the specified row and to keep what every action keeps. `Handle` is the whole delivery job, specified
  from the lifecycle tables. `RowLaws.dfy` relates the actions to one another, and `RowEffects.dfy` reads them the other
  way round: for each change, exactly which action makes it and when.
- `DeliveryProtocol.dfy` interleaves everything. A worker claims, marks, calls the transport and records the outcome in
  separate steps and may die between any two; every other actor acts in one locked step, but a provider retry may die
  between its submission and its commit; time passes, but not past the job timeout of a live worker, which the queue
  would kill. A ledger counts what ever happened.
- `DeliveryAccounting.dfy` has the invariant and its preservation; `DeliveryTheorems.dfy`, `DeliveryTermination.dfy`,
  `AttemptBudget.dfy`, `AttemptRows.dfy`, `UsageDiscipline.dfy`, `ScheduleToken.dfy`, `ScheduleTimes.dfy` and
  `ProviderRetry.dfy` have the theorems; `DeliveryLedger.dfy` proves that the ledger counts the events of the run, and
  `JobRefinement.dfy` ties the uninterrupted job to its worker steps.
- `ScheduleDispatcher.dfy` and `OldestFirst.dfy` are the dispatcher's batch, with arbitrary activity of others between
  its locks. `IdempotentCreation.dfy` is message creation under a key, with lookup and insert as separate steps and
  the created messages living on in between until they are deleted for good; `CreationAnswers.dfy` says which answer
  each call gets.

**Accounts.** `Accounts.dfy` specifies role changes, status changes, key creation, update and revocation, and inbox
creation when they run alone; `AccountActions.dfy` runs them on mutable tables. `AccountLocking.dfy` splits each into
begin, lock, check, lock keys, write and commit steps of concurrent transactions, and `AccountTheorems.dfy` proves that
every commit has the effect of the action run alone, lifts the sequential guarantees, and proves deadlock freedom;
`AccountCompletion.dfy` proves that without new transactions every run ends. `AccountEffects.dfy` lists the scopes by
the role that may hold them, and says exactly which request of whom gives or takes a role, a status, a key or a scope.

**Smaller algorithms.** `LogRetention.dfy` (batched deletion with holds), `InboundIngest.dfy` (database and disk
together or not at all, up to the commit) and `ReplyQuote.dfy` (quoting, and reading a quotation back). `Sequences.dfy` and
`Sums.dfy` hold what is shared.

## Where the code does not do what it is documented to do

The model follows the code. Each point has a concrete run or value that shows it, and the exact condition under which
the promise does hold.

- *A message is never blindly resent* (`config/outbound.php:193-197`,
  `app/Services/Outbound/OutboundStaleSendingReconciliationService.php:17-24`). Reconciliation judges a worker dead by
  the clock, and the job sends even when its marker update matched no row. As long as no provider retry dies after an
  acceptance, a provider accepts a message at most once per bounce on every run if and only if the job timeout is below
  the stale threshold (`AtMostOnceIffTimeoutBeforeStale`); one worker in flight and no transport call after a cancel have
  the same condition (`OneWorkerIffTimeoutBeforeStale`, `CancelStopsDeliveryIffTimeoutBeforeStale`), and so has the
  attempt budget unless a single attempt is configured (`BudgetHoldsIff`). The defaults, 60 and 900 seconds, satisfy it; the
  configuration validator does not check it (`app/Services/Outbound/OutboundWorkerConfigValidator.php:29-39`).
- *The audited provider retry is safe against duplicates* (`docs/OUTBOUND_PROVIDER_PORTABILITY.md:11-13`). It calls the
  transport inside its transaction, so if it dies after an acceptance the message is as failed and as eligible as before,
  and the next retry is accepted again (`LostRetryIsSentAgain`), under every configuration (`SomeRunSendsTwice`). The
  failed messages from which this can happen are exactly the ones the eligibility check admits, on the row and on the
  latest delivery-attempt row (`DuplicateFollowsIffEligible`).
- *A later provider event or admin action resolves an ambiguous message*
  (`app/Services/Outbound/OutboundStaleSendingReconciliationService.php:23`). No modelled step takes a marked message
  whose worker is lost out of `Sending` (`MarkedWorkerIsLost`, `LostAttemptStaysForever`). Some run takes a message out
  of it if and only if a worker is live or neither marker nor flag is set (`SendingCanEndIff`), which the row alone
  tells once the job timeout has passed (`OverdueIsStuckIffMarkedOrFlagged`).
- *`schedule_version` guards a schedule against stale calls* (`docs/OUTBOUND_EMAIL_CONTRACT.md:135`). Leaving the
  schedule resets the version to 0 (`app/Services/Outbound/OutboundScheduleFieldHelper.php:21`), so the same version
  works again after unscheduling and scheduling (`VersionOneWorksTwice`). It is a one-shot token within one stay in
  `Scheduled` (`OneUsePerSchedule`), and can be used again exactly while the message can still be scheduled,
  or, with scheduling disabled, while it is the current one (`ReusableIffStillSchedulable`).
- *A provider retry resends only failures that precede any contact with the provider*
  (`app/Services/Outbound/OutboundFailoverEligibility.php:24-28`). The check runs outside the transaction, which re-reads
  the state alone, so a bounced message can be resent (`CheckedThenBounced`). The failure found under the lock is the
  one that was checked if and only if the attempt count is the same (`SameFailureIffSameAttempt`).
- *A sent message is committed* (`docs/OUTBOUND_USAGE_ACCOUNTING.md:93`). A message refused before transport and then
  retried is sent uncharged (`SentWithoutCharge`). A queued message that a job sends before a refusal, a cancel or an
  expiry by the operator takes effect ends charged if and only if its reservation is reserved or committed
  (`SentIsChargedIffReserved`), and a message is charged at all if and only if a job sent it, or the operator repaired
  its commit, before the first of these (`ChargedIffChargedFirst`).
- *A queued message never had its transport called, so a cancel returns unspent usage*
  (`docs/OUTBOUND_USAGE_ACCOUNTING.md:88`). A cancel after a retry returns usage an attempt has spent
  (`CancelReturnsSpentUsage`), and the marker does not even show it once a later claimant is lost
  (`EarlierCallLeavesNoMarker`). With a job timeout below the stale threshold, and as long as every attempt still has the
  delivery-attempt row written when it began, some attempt spent it if and only if one of these rows has an outcome
  (`CancelReturnsSpentUsageIffOutcomeRecorded`); the calls of a provider retry that died leave no row. The rows tell it on
  every run if and only if the timeout is below the threshold or usage is not metered
  (`RowsTellSpendingIffTimeoutBeforeStale`). Retention can hide a call (`PrunedRowHidesTheCall`), and the repair of
  missing rows can show one that never was (`BackfilledRowInventsAnOutcome`).
- *Every stored attachment is scanned or skipped* (`app/Actions/Inbound/IngestInboundEmailAction.php:85-94`). The
  hand-over comes after the commit, outside the handler that compensates. A step that throws leaves tables, disk and
  queue as before if and only if it comes before the commit; after it, exactly the attachments before the failing one are
  handed over, and a later ingest of the message id answers that it is known and hands over none (`Mailroom.Execute`,
  `RestStaysPending`).
- A rolled-back dispatch is retried without the one-second floor other deferrals have
  (`app/Actions/Outbound/DispatchDueOutboundMessagesAction.php:314-319`): `ReleasedClaimWaitsIffConfigured`.
- The accepted provider retry goes from `Failed` to `Sent`, which is not in the transition table; exactly that
  step leaves it (`StepsFollowTheTable`).

## Model

| member | source | states |
|---|---|---|
| MessageLifecycle.WalksNeverTurnBack | app/Enums/OutboundMessageState.php:105-121 | No walk of any length through the transition table leads from a queued message back to draft or scheduled, or out of cancelled or delivered. |
| OutboundMessages.OutboundMessage.Handle | app/Jobs/DeliverOutboundMessageJob.php:73-323 | The uninterrupted job takes a queued message through one attempt and ends where its refusal, or the transport-result table with the remaining attempts, says; it calls the transport exactly when the message was queued, no emergency stop is on and no check refuses. |
| OutboundMessages.OutboundMessage.DispatchOne | app/Actions/Outbound/DispatchDueOutboundMessagesAction.php:92-207 | Takes a message out of its schedule only at or after its time, and answers dispatched exactly when it takes the row from scheduled to queued; a row that is not due is left alone unless there is an exception, which is rolled back and compensated; the row stays on the transition table. |
| RowLaws.ActionsAreLawful | app/Enums/OutboundMessageState.php:105-121 | Every action but an accepted provider retry follows the transition table; every refusal leaves the row and the usage service alone; content once queued, finality, attempts, flags and a user's delete are kept. |
| RowLaws.ActionsTakeEffectOnce | app/Actions/Outbound/SendScheduledMessageNowAction.php:44-58 | An action repeated at once takes effect again if and only if it is the dispatcher's compensation or a provider retry that was not accepted. |
| RowLaws.RepeatedCallsAreAnswered | app/Services/Outbound/OutboundDraftService.php:87-92 | A repeated submit, schedule or send-now is answered as done before; a repeated reschedule, unschedule, cancel, delete or retry is refused with its own code. |
| RowLaws.SchedulingIsUndone | app/Actions/Outbound/UnscheduleOutboundMessageAction.php:34-52 | Unscheduling what was just scheduled gives the draft back, its content revalidated and nothing of the schedule left. |
| RowLaws.WaysToQueueAgree | app/Actions/Outbound/SendScheduledMessageNowAction.php:60-84 | Sending now, dispatch when due, and unscheduling then submitting leave the same row and make the same usage call. |
| RowLaws.DeleteIsCancelThenHide | app/Actions/Outbound/DeleteOutboundMessageAction.php:54-69 | Deleting a queued or scheduled message is cancelling and then hiding it, with the cancellation's usage call. |
| RowLaws.FirstSettlementStands | app/Services/Outbound/OutboundUsageService.php:157-368 | Over any history of usage calls a reserved reservation ends committed, released or expired as the first of these calls says; nothing changes it afterwards. |
| RowLaws.RetryLeavesItsAnswer | app/Actions/Outbound/RetryOutboundMessageWithProviderAction.php:255-308 | A provider retry takes effect on exactly a failed row that passed its checks; accepted, it leaves no failure; otherwise the failure is the transport's answer, and the row is eligible again if and only if that is one of the five codes that precede contact with a provider and the row is unflagged. |
| RowEffects.QueuedIff | app/Services/Outbound/OutboundDraftService.php:80-131 | Of all actions exactly a submission of the current draft version, an immediate send of the current schedule version, or the dispatcher at or after the scheduled time queues an unsent message, each with revalidated content and its usage granted, and that content is what is queued. |
| RowEffects.ScheduledIff | app/Actions/Outbound/RescheduleOutboundMessageAction.php:50-85 | A message is scheduled or rescheduled exactly under its current version, for a time ahead and with revalidated content; the time asked for is the one stored. |
| RowEffects.CancelledIff | app/Actions/Outbound/CancelOutboundMessageAction.php:37-73 | Of all actions exactly a cancel or a first delete, of a queued or scheduled message, cancels it. |
| RowEffects.RetriedIff | app/Actions/Outbound/RetryOutboundMessageAction.php:40-75 | Of all actions exactly an authorized retry queues a failed message again, unless its failure is one of nine. |
| RowEffects.ReconciledIff | app/Services/Outbound/OutboundStaleSendingReconciliationService.php:72-101 | Of all actions exactly the reconciliation of a stale claim without marker and flag takes a message out of sending: back to the queue while attempts are left, failed as exhausted otherwise. |
| RowEffects.FlaggedIff | app/Services/Outbound/OutboundStaleSendingReconciliationService.php:157-191 | A flag is set, once, exactly by the reconciliation of a stale marked message or by the conflict detector. |
| RowEffects.EveryEdgeIsTaken | app/Enums/OutboundMessageState.php:105-121 | Every edge of the transition table is taken by some step of some message. |
| RowEffects.RefusalsAreTrue | app/Actions/Outbound/SendScheduledMessageNowAction.php:44-58 | Every refusal of every action names a reason that is true of the message or the call. |
| OutboundMessages.OutboundMessage.RetryWithProvider | app/Actions/Outbound/RetryOutboundMessageWithProviderAction.php:67-326 | An eligible failed row takes one attempt and commits as sent without a failure, or as failed with the transport's own answer, never as sending. |
| JobRefinement.UninterruptedJobIsHandle | app/Jobs/DeliverOutboundMessageJob.php:103-323 | The worker's separate steps, taken without interruption, leave the row the job leaves and call the transport once unless a check refuses. |
| DeliveryAccounting.SendingIsUndisturbed | app/Actions/Outbound/CancelOutboundMessageAction.php:37-67 | While a message is being sent, every other actor leaves the row alone except for hiding it and for reconciling it once stale. |
| DeliveryAccounting.RunKeepsSafe | app/Jobs/DeliverOutboundMessageJob.php:103-135 | Every run keeps the accounting and ownership invariant, given a job timeout below the stale threshold. |
| DeliveryTheorems.AcceptedSubmissionsAreAccounted | app/Jobs/DeliverOutboundMessageJob.php:225-250 | With a job timeout below the stale threshold, in every reachable state the accepted submissions equal the ones that are over, one more once sent or delivered, and lie between the two only while a marked attempt is open. |
| DeliveryTheorems.OneWorkerInFlight | app/Jobs/DeliverOutboundMessageJob.php:117-128 | With a job timeout below the stale threshold, at most one worker is between claim and outcome; the row is then being sent under that worker's attempt number, and unmarked exactly before its marker. |
| DeliveryTheorems.OneWorkerIffTimeoutBeforeStale | app/Jobs/DeliverOutboundMessageJob.php:103-135 | No run ever has two workers in flight if and only if the job timeout is below the stale threshold. |
| DeliveryTheorems.ReconciliationNeedsADeadClaimant | app/Services/Outbound/OutboundStaleSendingReconciliationService.php:17-24 | Requeueing or failing an unmarked stale message keeps the invariant if and only if no worker is live. |
| DeliveryTheorems.StalledClaimantSendsTwice | app/Jobs/DeliverOutboundMessageJob.php:225-230 | A claimant that is still live when its message is queued again can have a second submission accepted. |
| DeliveryTheorems.SlowClaimantIsRequeued | app/Services/Outbound/OutboundStaleSendingReconciliationService.php:80-99 | With a job timeout at or beyond the stale threshold a merely slow claimant loses its message to the queue. |
| DeliveryTheorems.AtMostOnceIffTimeoutBeforeStale | app/Services/Outbound/OutboundWorkerConfigValidator.php:23-58 | Without a provider retry that dies after its acceptance, every reachable state has at most one acceptance more than bounces if and only if the job timeout is below the stale threshold. |
| DeliveryTheorems.AttemptNumbersAreDistinct | database/migrations/2026_07_25_210000_create_outbound_delivery_attempts_table.php:32 | No two attempts of a message share a number, for any timeouts and any number of workers. |
| DeliveryTheorems.AttemptsAreBounded | app/Jobs/DeliverOutboundMessageJob.php:238-250 | With a job timeout below the stale threshold, attempts never exceed the maximum plus the manual retries, one fewer while queued. |
| AttemptBudget.BudgetHoldsIff | app/Services/Outbound/OutboundStaleSendingReconciliationService.php:94-99 | No run exceeds that bound if and only if the job timeout is below the stale threshold or a single attempt is configured. |
| DeliveryLedger.LedgerCountsTheRun | app/Jobs/DeliverOutboundMessageJob.php:225-250 | On every run each figure of the ledger (transport calls, acceptances, bounces, lost and manual retries, attempts) grows by exactly the number of events of its kind. |
| DeliveryLedger.RunsAreAtMostOnceIffTimeoutBeforeStale | config/outbound.php:193-197 | Counted in events of the run: no run has more than one acceptance beyond its bounces and lost retries if and only if the job timeout is below max(1, stale threshold). |
| DeliveryTermination.StepSpendsWork | app/Jobs/DeliverOutboundMessageJob.php:238-250 | From any state, for any timeouts and any number of live workers, every delivery step lowers the remaining work and no event raises it but a manual retry, by at most five. |
| DeliveryTermination.DeliveryTerminates | app/Jobs/DeliverOutboundMessageJob.php:238-322 | On every continuation of any state, delivery steps taken plus work remaining never exceed the work there was and five per manual retry. |
| DeliveryTermination.DeliveryStepsAreBounded | app/Jobs/DeliverOutboundMessageJob.php:103-322 | For any timeouts, the whole life of a message has at most ten delivery steps per configured attempt, less four, and five per manual retry. |
| DeliveryTermination.FewerStepsWithTimeout | app/Jobs/DeliverOutboundMessageJob.php:238-307 | With a job timeout below the stale threshold, a continuation without a manual retry has at most five delivery steps per attempt still allowed, plus four. |
| DeliveryTermination.OnlyAdvancesDeliver | app/Jobs/DeliverOutboundMessageJob.php:103-135 | No other event than the counted delivery steps starts, moves or stops a worker, or moves a message into or out of sending. |
| DeliveryTheorems.StepsFollowTheTable | app/Enums/OutboundMessageState.php:118-121 | A step leaves the transition table if and only if it is an accepted provider retry of a failed message that passed its checks, and then the message is sent. |
| DeliveryTheorems.JobFollowsTheTransportTable | app/Enums/OutboundTransportResult.php:51-60 | The state a worker records is the one the transport-result table names for its attempt number, or nothing if the message is no longer being sent, which a job timeout below the stale threshold excludes. |
| DeliveryTheorems.NoWayBack | app/Actions/Outbound/DispatchDueOutboundMessagesAction.php:272-275 | On every continuation a message once queued is never a draft or scheduled again and keeps its fingerprint; cancelled and delivered are final; attempts only grow; a flag and a user's delete are never undone. |
| DeliveryTheorems.CancelAndClaimExclude | app/Actions/Outbound/CancelOutboundMessageAction.php:60-67 | Of a cancel and a claim racing for a queued message exactly the first one takes effect. |
| DeliveryTheorems.CancelIsFinal | app/Jobs/DeliverOutboundMessageJob.php:113-132 | From a cancelled state without a live worker no continuation calls the transport or leaves the state. |
| DeliveryTheorems.CancelStopsDelivery | app/Actions/Outbound/DeleteOutboundMessageAction.php:54-69 | With a job timeout below the stale threshold, after a successful cancel, or a delete of a queued or scheduled message, nothing is in flight and no continuation calls the transport. |
| DeliveryTheorems.CancelStopsDeliveryIffTimeoutBeforeStale | app/Actions/Outbound/CancelOutboundMessageAction.php:37-67 | No run calls the transport after a cancel if and only if the job timeout is below the stale threshold. |
| DeliveryTheorems.LostAttemptStaysForever | app/Services/Outbound/OutboundStaleSendingReconciliationService.php:84-92 | A marked or flagged message without a live worker stays in sending on every continuation, and is never resent. |
| DeliveryTheorems.SendingCanEndIff | app/Services/Outbound/OutboundStaleSendingReconciliationService.php:72-101 | For any timeouts, some continuation takes a message out of sending if and only if a worker is live, or neither marker nor flag is set. |
| DeliveryTheorems.OverdueIsStuckIffMarkedOrFlagged | app/Services/Outbound/OutboundStaleSendingReconciliationService.php:17-24 | Once the job timeout has passed since the claim, the row alone decides: a way out exists if and only if it is neither marked nor flagged. |
| DeliveryTheorems.MarkedWorkerIsLost | app/Jobs/DeliverOutboundMessageJob.php:225-230 | A concrete run reaches a message that no continuation takes out of sending. |
| ProviderRetry.SameFailureIffSameAttempt | app/Actions/Outbound/RetryOutboundMessageWithProviderAction.php:101-198 | The failure a provider retry finds under its lock is the one it checked if and only if the attempt count is unchanged, and then its row is still eligible unless flagged since. |
| ProviderRetry.RetryMayFollowABounce | app/Services/Outbound/OutboundFailoverEligibility.php:85-110 | From every failed message its user may retry, a run leads to an ineligible, bounced message that the retry's transaction still sends. |
| ProviderRetry.CheckedThenBounced | app/Services/Outbound/OutboundFailoverEligibility.php:24-28 | One run passes the eligibility check and is resent after the provider accepted and bounced the message. |
| ProviderRetry.LostRetryIsSentAgain | app/Actions/Outbound/RetryOutboundMessageWithProviderAction.php:101-325 | A provider retry of an eligible message that dies after its acceptance leaves the row as it was, so the next one passes its check and is accepted again. |
| ProviderRetry.DuplicateFollowsIffEligible | app/Services/Outbound/OutboundFailoverEligibility.php:85-110 | Two provider retries of a failed message, each checked on the row it finds, can both be accepted if and only if the row is eligible and its latest delivery-attempt row exists and has an outcome. |
| ProviderRetry.SomeRunSendsTwice | docs/OUTBOUND_PROVIDER_PORTABILITY.md:11-13 | Under every configuration some run, in which every retry passes its check, has a message accepted twice without a bounce. |
| ProviderRetry.RetriedAgainIffAnswerIsSafe | app/Services/Outbound/OutboundFailoverEligibility.php:65-110 | In every reachable state a provider retry that is not accepted leaves the message eligible if and only if it is unflagged and the transport answered one of the five safe codes. |
| ProviderRetry.UnsafeAnswerEndsRetries | app/Actions/Outbound/RetryOutboundMessageWithProviderAction.php:291-308 | After any other answer, or none, no continuation finds the message eligible before another attempt was made. |
| AttemptRows.RowsLastTheirDays | app/Services/Outbound/OutboundPruneService.php:295-330 | On every continuation a delivery-attempt row stays until its days of retention have passed. |
| AttemptRows.RowInFlightIsItsOwn | app/Services/Outbound/OutboundEventReconciliationService.php:107-154 | For any timeouts, the row of an attempt in flight is never one the repair wrote. |
| UsageDiscipline.ReservedOnceIffEverQueued | app/Actions/Outbound/CreateOutboundSendAction.php:141-169 | Over a whole run, whatever the timeouts, usage is reserved exactly once if the message was ever queued, and never otherwise. |
| UsageDiscipline.CommitsAreJobSends | app/Jobs/DeliverOutboundMessageJob.php:346-350 | Whatever the timeouts, commits are exactly the job's moves to sent and the operator's repairs, and the former are never more than the acceptances. |
| UsageDiscipline.ReleasesAreDueIffTimeoutBeforeStale | app/Jobs/DeliverOutboundMessageJob.php:401-415 | Usage is released only while every accepted submission is over, on every run, if and only if the job timeout is below the stale threshold. |
| UsageDiscipline.CancelReturnsSpentUsageIffOutcomeRecorded | docs/OUTBOUND_USAGE_ACCOUNTING.md:88 | Cancelling a queued message with a reserved reservation returns usage that some attempt spent on the transport if and only if one of its delivery-attempt rows has an outcome, given a job timeout below the stale threshold and provided every attempt still has its own row; the marker tells of the latest attempt alone. |
| UsageDiscipline.RowsTellSpendingIffTimeoutBeforeStale | docs/OUTBOUND_USAGE_ACCOUNTING.md:88 | That the attempts' own rows tell whether a cancel returns spent usage holds on every run if and only if the job timeout is below the stale threshold or usage is not metered. |
| UsageDiscipline.PrunedRowHidesTheCall | app/Services/Outbound/OutboundPruneService.php:295-330 | A concrete run to a queued, reserved message whose transport was called and none of whose rows has an outcome, retention having deleted it. |
| UsageDiscipline.BackfilledRowInventsAnOutcome | app/Services/Outbound/OutboundEventReconciliationService.php:107-154 | A concrete run to a queued, reserved message whose transport was never called and whose rewritten row has an outcome. |
| UsageDiscipline.CancelReturnsSpentUsage | app/Actions/Outbound/CancelOutboundMessageAction.php:71-73 | A concrete run in which usage is released after a transport call. |
| UsageDiscipline.EarlierCallLeavesNoMarker | app/Services/Outbound/OutboundStaleSendingReconciliationService.php:103-111 | A concrete run, for every configuration, to a queued message without marker whose transport was called by an earlier attempt. |
| UsageDiscipline.ChargedIffChargedFirst | app/Services/Outbound/OutboundUsageService.php:157-368 | On every run a message ends up charged if and only if it was already, or its usage was reserved and a job sent it or an operator repaired its commit before any refusal, cancel or expiry; bounces make no difference. |
| UsageDiscipline.SentIsChargedIffReserved | app/Services/Outbound/OutboundUsageService.php:169-171 | A queued message that a job sends before any refusal, cancel or expiry ends charged if and only if its reservation is reserved or committed. |
| UsageDiscipline.SentWithoutCharge | docs/OUTBOUND_USAGE_ACCOUNTING.md:93 | A concrete run in which a job sends a message whose reservation stays released. |
| ScheduleToken.RunKeepsWellScheduled | app/Actions/Outbound/DispatchDueOutboundMessagesAction.php:118-173 | Every committed scheduled row has a time, a positive version, no claim and an undeleted draft; every draft has its schedule cleared. |
| ScheduleToken.OneUsePerSchedule | app/Actions/Outbound/RescheduleOutboundMessageAction.php:50-85 | Two calls with one version take effect only if the message became a draft between them. |
| ScheduleToken.ReusableIffStillSchedulable | app/Services/Outbound/OutboundScheduleFieldHelper.php:15-26 | A version takes effect on some continuation if and only if it is positive and the message is an undeleted draft or scheduled; with scheduling disabled, if and only if it is the current one of a scheduled message. |
| ScheduleToken.VersionOneWorksTwice | app/Actions/Outbound/UnscheduleOutboundMessageAction.php:34-52 | A run of four steps, scheduling for a future time, in which version 1 is spent twice. |
| ScheduleTimes.DispatchWaitsForTheTimeAsked | app/Actions/Outbound/DispatchDueOutboundMessagesAction.php:208-221 | On every run the dispatcher takes a message out of its schedule only when the time of the last request that took effect has come; that request lay before, and its time ahead of it. |
| OldestFirst.PickOldest | app/Actions/Outbound/DispatchDueOutboundMessagesAction.php:66-76 | The ordered, limited query returns distinct rows, oldest first, none newer than a row it leaves out, and as many as limit and selection allow. |
| ScheduleDispatcher.SelectionIsDue | app/Actions/Outbound/DispatchDueOutboundMessagesAction.php:66-76 | Every selected message is scheduled for a time that has come, in order of these times; below the limit a waiting message is left out if and only if its time or next attempt lies ahead, or it is claimed. |
| ScheduleDispatcher.MessageTable.Execute | app/Actions/Outbound/DispatchDueOutboundMessagesAction.php:59-87 | The run selects the oldest rows whose scheduled time has come once, treats each under its lock whatever others did meanwhile, compensates each rollback, and its statistics are the tallies of what it did, at most max(1, batch). |
| ScheduleDispatcher.BatchActsOnWhatItLocks | app/Actions/Outbound/DispatchDueOutboundMessagesAction.php:80-103 | Each message's entry is its dispatch on the table its own lock found, and the batch ends with the table its turns produce, compensations included. |
| ScheduleDispatcher.NeverActsOnStaleSelections | app/Actions/Outbound/DispatchDueOutboundMessagesAction.php:98-200 | In the table the k-th lock finds, the k-th transaction queues a scheduled message if and only if it is the k-th selected, sendable, and its scheduled time and next attempt have come by the clock of that lock; no other row changes, nor one no longer due. |
| ScheduleDispatcher.GoneMessagesFail | app/Actions/Outbound/DispatchDueOutboundMessagesAction.php:98-103 | A selected message that is gone when its lock is taken counts as failed, and nothing is written. |
| ScheduleDispatcher.DeferralsAreBounded | app/Actions/Outbound/DispatchDueOutboundMessagesAction.php:230-241 | A deferred message is retried between 1 and max(1, configured) seconds after the lock. |
| ScheduleDispatcher.ReleasedClaimWaitsIffConfigured | app/Actions/Outbound/DispatchDueOutboundMessagesAction.php:306-322 | After a rollback the next attempt lies in the future if and only if both configured delays are positive. |
| ScheduleDispatcher.BatchKeepsUnclaimed | app/Actions/Outbound/DispatchDueOutboundMessagesAction.php:118-130 | At every turn of a batch and at its end, whatever happens in between, every scheduled row is unclaimed. |
| ScheduleDispatcher.OutcomesCountEntries | app/Actions/Outbound/DispatchDueOutboundMessagesAction.php:78-87 | The tally of an outcome is the number of messages of the batch that have it. |
| IdempotentCreation.CreationIsIdempotent | app/Actions/Outbound/CreateOutboundSendAction.php:103-164 | However creations race, a user has one message per key, all successful calls with the key whose message has not been deleted for good return it, and for a message created this way they carried equal fingerprints. |
| CreationAnswers.LookupDecides | app/Actions/Outbound/CreateOutboundSendAction.php:118-128 | On every run a call whose lookup finds a message under its user and key is answered with that message if and only if the fingerprints are equal, and with a conflict otherwise, for good. |
| CreationAnswers.InsertDecides | app/Actions/Outbound/CreateOutboundSendAction.php:141-169 | An insert creates a queued message with the content of the call and its usage reserved if and only if the key is still free and the usage is granted, and the call fails otherwise. |
| CreationAnswers.ReplayIsAnswered | app/Actions/Outbound/CreateOutboundReplyAction.php:88-102 | Once a call has created a message, every later lookup under its user and key finds that message until it is deleted for good: calls with the same content get it, all others conflict. |
| CreationAnswers.ConflictHasACause | app/Actions/Outbound/CreateOutboundForwardAction.php:92-102 | A conflict is answered only after a lookup found a message under the key with another fingerprint. |
| CreationAnswers.GoneWasHidden | app/Services/Outbound/OutboundPruneService.php:381-420 | A message is deleted for good, and its key freed, only after its user hid it and it was at rest. |
| IdempotentCreation.RunKeepsConsistent | database/migrations/2026_07_25_160000_create_outbound_messages_table.php:60 | Every run keeps keys unique and every answered call consistent with the message it returned. |
| IdempotentCreation.Outbox.Create | app/Actions/Outbound/CreateOutboundForwardAction.php:79-164 | The existing message exactly for an equal fingerprint, a conflict for another, a rollback or one new queued message with its usage reserved; nothing else changes. |
| Accounts.Normalize | app/Services/ApiKey/ApiKeyScopeRegistry.php:41-74 | Fails exactly when an entry is unknown; otherwise keeps exactly the given scopes. |
| Accounts.Authorize | app/Services/ApiKey/ApiKeyScopeRegistry.php:112-131 | A key is only ever stored with scopes its owner is allowed. |
| Accounts.PerformKeepsAnAdmin | app/Actions/User/ChangePlatformRoleAction.php:45-91 | No account action removes the last active platform admin. |
| Accounts.PerformKeepsKeysAllowed | app/Actions/User/ChangePlatformRoleAction.php:166-194 | Every account action leaves each unrevoked key with scopes its owner's role and status allow. |
| Accounts.PerformKeepsQuota | app/Actions/Inbox/CreateInboxAction.php:130-143 | No account action takes a user's keys or inboxes above a limit they were within. |
| Accounts.RepeatingChangesNothing | app/Actions/ApiKey/RevokeApiKeyAction.php:51-61 | Repeating any account action leaves the database as the first time left it. |
| AccountActions.AccountStore.RevokeBulk | app/Repositories/Eloquent/EloquentApiKeyRepository.php:84-121 | Revokes exactly the owner's unrevoked keys that qualify and counts them. |
| AccountActions.AccountStore.ChangePlatformRole | app/Actions/User/ChangePlatformRoleAction.php:42-120 | The new role and the revoked keys, or one refusal and no change; an active admin and the key invariant are kept. |
| AccountActions.AccountStore.ChangeUserStatus | app/Actions/User/ChangeUserStatusAction.php:42-119 | The new status, with every key revoked on leaving active, or one refusal and no change; an active admin and the key invariant are kept. |
| AccountLocking.RespectKeepsTx | app/Actions/ApiKey/CreateApiKeyAction.php:90-131 | What a transaction checked under its user locks stays true whatever another transaction commits. |
| AccountLocking.RunKeepsSafe | app/Actions/User/ChangePlatformRoleAction.php:133-148 | In every interleaving locks are exclusive and each open transaction's checks and planned revocations still hold. |
| AccountTheorems.CommitsAreSerial | app/Actions/User/ChangeUserStatusAction.php:44-119 | Each commit leaves what its action, run alone on the database of that moment, would leave; no other event changes the database. |
| AccountTheorems.AnAdminSurvives | app/Actions/User/ChangeUserStatusAction.php:45-57 | From a state with a user whose role is admin and whose status is active no interleaving reaches a state without one. |
| AccountTheorems.KeysStayAllowed | app/Actions/User/ChangeUserStatusAction.php:169-182 | In every interleaving no unrevoked key holds a scope its owner may not hold. |
| AccountEffects.GrantedIffHoldable | app/Services/ApiKey/ApiKeyScopeRegistry.php:112-131 | A payload is granted if and only if the owner may hold each of its scopes, listed by role, and then exactly these are stored, each once in the order of the enumeration. |
| AccountEffects.LostIsWhatTheNewRoleMayNotHold | app/Actions/User/ChangePlatformRoleAction.php:166-194 | A demotion revokes by every scope the new role may not hold; of those the old role may hold, exactly the difference. |
| AccountEffects.KeysAlwaysFit | app/Enums/ApiKeyScope.php:56-65 | In every interleaving no unrevoked key has a scope unless its owner is active, none but an admin's administers mail servers, and a plain user's holds inbox and outbound scopes only. |
| AccountEffects.RoleChangesIff | app/Actions/User/ChangePlatformRoleAction.php:42-91 | A role changes if and only if an active admin asks for another one for somebody else. |
| AccountEffects.StatusChangesIff | app/Actions/User/ChangeUserStatusAction.php:42-90 | A status changes if and only if an active admin asks for another one for somebody else. |
| AccountEffects.KeyAppearsIff | app/Actions/ApiKey/CreateApiKeyAction.php:90-156 | A key appears if and only if its owner may hold every scope asked for and is below the limit on unrevoked keys; it holds exactly these scopes. |
| AccountEffects.ScopesChangeIff | app/Actions/ApiKey/UpdateApiKeyAction.php:48-75 | The scopes of a key change only by an update with scopes its owner may hold, and to exactly these. |
| AccountEffects.RevokedIff | app/Actions/ApiKey/RevokeApiKeyAction.php:40-125 | A key is revoked if and only if an admin revokes it, an update asks for it, its owner loses the right to one of its scopes by a demotion, or its owner is deactivated. |
| AccountEffects.VerdictsAreTrue | app/Actions/User/ChangePlatformRoleAction.php:42-91 | Nothing changes unless the request was performed; a no-op found its goal reached, and every refusal names a reason that is true. |
| AccountEffects.PrivilegesComeFromAdmins | app/Actions/User/ChangeUserStatusAction.php:44-119 | In every interleaving a role or status changes only by a commit whose actor is an active admin at that moment and not the one concerned. |
| AccountEffects.KeysAreRevokedByTheRules | app/Actions/User/ChangePlatformRoleAction.php:166-194 | In every interleaving a key is revoked by a commit if and only if its request takes it away by these rules on the database of that moment. |
| AccountTheorems.QuotasHold | app/Actions/ApiKey/CreateApiKeyAction.php:143-156 | Although counting and inserting are separate steps, no interleaving exceeds a limit started within. |
| AccountTheorems.RevokedStaysRevoked | app/Repositories/Eloquent/EloquentApiKeyRepository.php:84-121 | In every interleaving a revoked key stays revoked, and keys keep their owner. |
| AccountTheorems.WaitingRaisesRank | app/Actions/ApiKey/RevokeApiKeyAction.php:104-118 | A transaction waits only for one that is further along the order of user rows before key rows. |
| AccountTheorems.NoWaitCycles | app/Actions/ApiKey/UpdateApiKeyAction.php:55-63 | The wait-for graph of every reachable state is acyclic. |
| AccountTheorems.SomeTransactionCanMove | app/Actions/User/ChangeUserStatusAction.php:132-147 | While a transaction is open, some transaction can take its next step forward. |
| AccountCompletion.RunsWithoutNewOnesEnd | app/Actions/User/ChangePlatformRoleAction.php:42-120 | Without new transactions no more events can follow than a measure of the open ones, rollbacks included. |
| AccountCompletion.StoppedRunsAreComplete | app/Actions/User/ChangePlatformRoleAction.php:133-148 | A run that cannot go forward has closed every transaction. |
| AccountCompletion.AllCanFinish | app/Actions/ApiKey/RevokeApiKeyAction.php:40-125 | From every reachable state all open transactions can be finished by forward steps alone. |
| LogRetention.LogTable.DeleteInBatches | app/Services/LogRetentionService.php:43-49 | For every batch size the loop ends; without a failing batch the result is one unbounded deletion, and with one exactly the batches before it are gone, oldest first. |
| LogRetention.LogTable.CleanupApiRequestLogs | app/Services/LogRetentionService.php:15-30 | Deletes exactly the expired rows, reports them, and changes nothing on a dry run or invalid settings. |
| LogRetention.LogTable.CleanupAuditLogs | app/Services/LogRetentionService.php:33-51 | Deletes exactly the expired rows not under hold; deleted plus held is eligible; unconfirmed or unsupported runs change nothing. |
| LogRetention.RemoveBatch | app/Services/LogRetentionService.php:45-47 | One batch keeps that nothing fresh or held is gone and that deleted rows are no newer than deletable ones that remain. |
| LogRetention.DrainedIsOneShot | app/Services/LogRetentionService.php:46 | When no deletable row is left, the batches did what one statement would have done. |
| LogRetention.OneShotLeavesFreshAndHeld | app/Models/AuditLogHold.php:15 | What remains is exactly the rows that are fresh or, where holds are respected, under a hold that was not released and has no end or a later one. |
| InboundIngest.Mailroom.Execute | app/Actions/Inbound/IngestInboundEmailAction.php:34-97 | Tables, disk and scan queue are as before if and only if the email is not stored; if it is, they gain exactly its rows and files, and exactly the attachments before a failure of the hand-over are scanned or skipped by the setting; a known message id changes nothing. |
| InboundIngest.Mailroom.Store | app/Actions/Inbound/IngestInboundEmailAction.php:40-83 | The transaction and its handler leave tables and disk as before whichever step throws, or store everything. |
| InboundIngest.RestStaysPending | app/Actions/Inbound/IngestInboundEmailAction.php:85-94 | Of all new attachments exactly those handed over without a scanner are skipped; the others stay pending. |
| InboundIngest.PartsAreStored | app/Actions/Inbound/IngestInboundEmailAction.php:60-70 | After a successful ingest each part has a row of the new email with its own path and size, its own content lies under that path, and no other file or row was added or changed. |
| InboundIngest.EmailIsStored | app/Actions/Inbound/IngestInboundEmailAction.php:57-59 | The email is added under its message id with its body, and no other email changes. |
| InboundIngest.LimitsBoundWhatIsStored | app/Actions/Inbound/IngestInboundEmailAction.php:51-56 | An email is refused for its attachments if and only if the rows it would add were too many, one of them too large, or all of them together. |
| InboundIngest.Mailroom.StoreParts | app/Actions/Inbound/IngestInboundEmailAction.php:60-70 | After a failure at any step the recorded paths are exactly the files written; without one each part's own content lies under its own path. |
| InboundIngest.Mailroom.DeleteFiles | app/Actions/Inbound/IngestInboundEmailAction.php:78-80 | Removes exactly the recorded paths. |
| InboundIngest.FilesMatchRows | app/Actions/Inbound/IngestInboundEmailAction.php:61-64 | The new files are exactly the paths of the new attachment rows, one each. |
| InboundIngest.FilesRemoved | app/Actions/Inbound/IngestInboundEmailAction.php:77-80 | Removing what a failed run wrote restores the disk. |
| ReplyQuote.QuoteIsInvertible | app/Actions/Outbound/CreateOutboundReplyAction.php:167-169 | Every quoted line starts with "> ", lines correspond one to one, and stripping the prefix gives back the first 5000 characters of the original with LF line breaks. |
| ReplyQuote.QuotesAgreeIffTextsDo | app/Actions/Outbound/CreateOutboundReplyAction.php:167-172 | Two originals have one quotation if and only if they agree in their first 5000 characters up to line breaks, a CRLF counting as one. |
| ReplyQuote.ReplyKeepsBothTexts | app/Actions/Outbound/CreateOutboundReplyAction.php:160-179 | The user's body up to trailing blanks is a prefix and introduction and quotation a suffix; a blank original changes nothing. |

## Left out

- The claim of a delivery job and the start of its delivery-attempt row are one step, and so are the outcome in the
  message and in that row.
- `markSent` and `markFailed` write the state and call the usage service in one step; the code has no transaction
  around the two.
- When a reservation counts as past its time to live, and that the operator's reconciliation looked at the state of the
  message shortly before; it may act on any message at any time. The arithmetic of usage counters and allowances.
- Audit log, notifications, metrics, heartbeats and mail content.
- Authorization, entitlement, suppression, rate-limit, rollout and content checks: each is a parameter that passes or
  refuses. The codes on which a dispatch defers rather than fails are one parameter too.
- Queue timing: backoff, release delays and unique locks. The job may run at any time and any number of times.
- Correlation and reordering of provider events; they enter as the two changes of a sent message.
- What outcome a delivery-attempt row has, as opposed to whether it has one, and the mark of an ambiguous attempt, which
  is set together with the flag.
- MessageRow.FlagConflict: the detector may flag any message not being sent; the timestamps whose conflict it looks for
  (`app/Services/Outbound/OutboundEventReconciliationService.php:252-266`) are not columns of the model.
- Delivery steps among the interruptions of a dispatcher batch; they touch no scheduled message.
- The 16-bit width of the attempt count.
- Pruning of drafts; permanent deletion of messages inside `DeliveryProtocol`, where the row would simply be gone; and
  retention holds on messages and their delivery-attempt rows.
- IdempotentCreation.CreationIsIdempotent: equal fingerprints are stated for messages created queued; a draft's
  fingerprint is rewritten when it is submitted, and its generated key is not one a caller chooses.
- Hashes are numbers taken to be equal only for equal content; fresh ids and random paths are parameters.
- Accounts: soft deletion of users, change of a key's owner, deletion and expiry of keys, anonymous inboxes, and the
  mail-server row lock taken when an inbox is created. User ids are numbers ordered as the strings are.
- Isolation of plain reads: a count made after a lock is taken to see what was committed before that lock.
- Holds placed or released while a cleanup runs, and rows inserted meanwhile.
- Ingest: a storage write that fails silently, a compensation that fails, two ingests of one message id at once, and
  what becomes of an attachment after it is handed to the scanner.
