/**
 One row of `outbound_messages` together with its usage reservation, and for each action the
 row it leaves behind. These functions specify the methods of `OutboundMessages.OutboundMessage`
 and are the atomic steps of `DeliveryProtocol`.
 */
module MessageRow {
  import opened Options
  import opened MessageLifecycle

  datatype Config = Config(
    sendMaxAttempts: int,
    staleThresholdSeconds: int,
    workerTimeoutSeconds: nat,
    deferSeconds: int,
    maxDeferSeconds: int,
    attemptDays: int,
    scheduleEnabled: bool,
    metering: bool)

  function MaxAttempts(c: Config): (m: int)
    ensures 1 <= m
  {
    Max(1, c.sendMaxAttempts)
  }

  function StaleThreshold(c: Config): (t: int)
    ensures 1 <= t
  {
    Max(1, c.staleThresholdSeconds)
  }

  datatype FailureCode =
    | AttachmentUnsafe | AttachmentNotFound | AttachmentDeleted | AttachmentUnavailable
    | UserInactive | InboxInactive | DomainOutboundDisabled | EntitlementDenied
    | InvalidConfig | InvalidMailer | InvalidTransport | TransportUnavailable | DnsFailure
    | TransportError | StaleSendingAttemptsExhausted
    | ProviderBounce | ProviderRejected | ProviderPermanentFailure
    | OtherFailure(code: nat)

  /** Failure categories a user may not retry. */
  predicate NonRetryable(f: FailureCode) {
    f in {AttachmentUnsafe, AttachmentNotFound, AttachmentDeleted, AttachmentUnavailable, UserInactive,
          InboxInactive, DomainOutboundDisabled, EntitlementDenied, InvalidConfig}
  }

  /** Failures known to precede any contact with the provider. */
  predicate SafePreAcceptance(f: FailureCode) {
    f in {InvalidConfig, InvalidMailer, InvalidTransport, TransportUnavailable, DnsFailure}
  }

  datatype Reservation = Unreserved | Reserved | Committed | Released | Expired

  datatype Schedule = Schedule(at: Option<int>, version: int, claimedAt: Option<int>, nextAttemptAt: Option<int>)

  /** What every exit from scheduling writes: the version goes back to 0 with the rest. */
  const CLEARED := Schedule(None, 0, None, None)

  datatype Row = Row(
    state: State,
    attemptCount: nat,
    sendingAt: Option<int>,
    transportAttemptedAt: Option<int>,
    flaggedAt: Option<int>,
    failureCode: Option<FailureCode>,
    draftVersion: int,
    draftDeletedAt: Option<int>,
    fingerprint: nat,
    schedule: Schedule,
    userDeletedAt: Option<int>,
    reservation: Reservation)

  datatype Refusal =
    | CancelNotAllowed | RetryNotAllowed | AlreadyDeleted | ScheduleConflict | MessageNotScheduled
    | ScheduleAlreadyDispatched | MessageNotSchedulable | ScheduleTimeInvalid | DraftNotFound | DraftConflict
    | AlreadySubmitted | ContentRefused | QuotaExceeded | AuthorizationFailed | MessageNotFailed
    | FailoverNotEligible

  datatype Reply = Done | NoChange | Denied(reason: Refusal)

  /** The call a step makes on the usage service, besides changing the row. */
  datatype UsageCall = NoCall | Reserve | Commit | Release | Expire

  datatype Outcome = Outcome(row: Row, reply: Reply, usage: UsageCall)

  function Refuse(row: Row, reason: Refusal): Outcome { Outcome(row, Denied(reason), NoCall) }

  function Unchanged(row: Row): Outcome { Outcome(row, NoChange, NoCall) }

  // ----- usage reservation -----

  function Settle(c: Config, r: Reservation, call: UsageCall): Reservation {
    if !c.metering then r else
      match call
      case NoCall => r
      case Reserve => if r == Unreserved then Reserved else r
      case Commit => if r == Reserved then Committed else r
      case Release => if r == Reserved then Released else r
      case Expire => if r == Reserved then Expired else r
  }

  function Finish(c: Config, row: Row, call: UsageCall): Outcome {
    Outcome(row.(reservation := Settle(c, row.reservation, call)), Done, call)
  }

  // ----- drafts and schedules -----

  /** A draft as the composer stores it. */
  function NewDraft(fingerprint: nat): Row {
    Row(Draft, 0, None, None, None, None, 1, None, fingerprint, CLEARED, None, Unreserved)
  }

  /** A message as send, reply and forward insert it: queued, and reserved in the same transaction. */
  function NewQueued(c: Config, fingerprint: nat): Row {
    Row(Queued, 0, None, None, None, None, 0, None, fingerprint, CLEARED, None, Settle(c, Unreserved, Reserve))
  }

  function UpdateDraft(c: Config, row: Row, version: int): Outcome {
    if row.state != Draft || row.draftDeletedAt.Some? then Refuse(row, DraftNotFound)
    else if row.draftVersion != version then Refuse(row, DraftConflict)
    else Finish(c, row.(draftVersion := row.draftVersion + 1), NoCall)
  }

  function DeleteDraft(c: Config, row: Row, version: Option<int>, now: int): Outcome {
    if row.state != Draft || row.draftDeletedAt.Some? then Unchanged(row)
    else if version.Some? && row.draftVersion != version.value then Refuse(row, DraftConflict)
    else Finish(c, row.(draftDeletedAt := Some(now)), NoCall)
  }

  /** `prepared` is the fingerprint of the re-validated content, `None` when validation, authorization or
      the rate limiter throws; `quotaOk` is whether the usage service grants the reservation. */
  function SubmitDraft(c: Config, row: Row, version: int, prepared: Option<nat>, quotaOk: bool): Outcome {
    if row.draftDeletedAt.Some? then Refuse(row, DraftNotFound)
    else if row.state == Queued then Unchanged(row)
    else if row.state != Draft then Refuse(row, AlreadySubmitted)
    else if row.draftVersion != version then Refuse(row, DraftConflict)
    else if prepared.None? then Refuse(row, ContentRefused)
    else if !quotaOk then Refuse(row, QuotaExceeded)
    else Finish(c, row.(state := Queued, fingerprint := prepared.value), Reserve)
  }

  function ScheduleDraft(c: Config, row: Row, now: int, version: int, at: int, prepared: Option<nat>): Outcome {
    if !c.scheduleEnabled then Refuse(row, MessageNotSchedulable)
    else if at <= now then Refuse(row, ScheduleTimeInvalid)
    else if row.draftDeletedAt.Some? then Refuse(row, DraftNotFound)
    else if row.state == Scheduled then Unchanged(row)
    else if row.state != Draft then Refuse(row, MessageNotSchedulable)
    else if row.draftVersion != version then Refuse(row, DraftConflict)
    else if prepared.None? then Refuse(row, ContentRefused)
    else
      var schedule := Schedule(Some(at), row.schedule.version + 1, None, None);
      Finish(c, row.(state := Scheduled, fingerprint := prepared.value, schedule := schedule), NoCall)
  }

  /** The three checks shared by every action that spends a schedule version. */
  function CheckSchedule(row: Row, version: int): Option<Refusal> {
    if row.state != Scheduled then Some(MessageNotScheduled)
    else if row.schedule.version != version then Some(ScheduleConflict)
    else if row.schedule.claimedAt.Some? then Some(ScheduleAlreadyDispatched)
    else None
  }

  function Reschedule(c: Config, row: Row, now: int, version: int, at: int, prepared: Option<nat>): Outcome {
    var check := CheckSchedule(row, version);
    if !c.scheduleEnabled then Refuse(row, MessageNotScheduled)
    else if at <= now then Refuse(row, ScheduleTimeInvalid)
    else if check.Some? then Refuse(row, check.value)
    else if prepared.None? then Refuse(row, ContentRefused)
    else
      var schedule := Schedule(Some(at), row.schedule.version + 1, None, None);
      Finish(c, row.(fingerprint := prepared.value, schedule := schedule), NoCall)
  }

  function Unschedule(c: Config, row: Row, version: int): Outcome {
    var check := CheckSchedule(row, version);
    if check.Some? then Refuse(row, check.value)
    else Finish(c, row.(state := Draft, schedule := CLEARED), NoCall)
  }

  function SendNow(c: Config, row: Row, version: int, prepared: Option<nat>, quotaOk: bool): Outcome {
    var check := CheckSchedule(row, version);
    if row.state == Queued then Unchanged(row)
    else if check.Some? then Refuse(row, check.value)
    else if prepared.None? then Refuse(row, ContentRefused)
    else if !quotaOk then Refuse(row, QuotaExceeded)
    else Finish(c, row.(state := Queued, fingerprint := prepared.value, schedule := CLEARED), Reserve)
  }

  // ----- the schedule dispatcher -----

  /** What content preparation and the usage service answer for one message. `Throws` is any exception
      that is not a send refusal, a refused reservation included: the transaction rolls back. */
  datatype Verdict = OwnerMissing | Sendable(fingerprint: nat) | TemporarilyRefused | PermanentlyRefused | Throws

  datatype DispatchOutcome = Dispatched | Deferred | DispatchFailed

  predicate IsDue(row: Row, now: int) {
    && row.state == Scheduled
    && row.schedule.at.Some? && row.schedule.at.value <= now
    && row.schedule.claimedAt.None?
    && (row.schedule.nextAttemptAt.Some? ==> row.schedule.nextAttemptAt.value <= now)
  }

  function DeferSeconds(c: Config): int { Min(c.deferSeconds, c.maxDeferSeconds) }

  function Dispatch(c: Config, row: Row, now: int, verdict: Verdict): Outcome {
    if verdict == Throws || verdict == OwnerMissing || !IsDue(row, now) then Unchanged(row)
    else
      match verdict
      case Sendable(fp) => Finish(c, row.(state := Queued, fingerprint := fp, schedule := CLEARED), Reserve)
      case TemporarilyRefused =>
        var next := now + Max(1, DeferSeconds(c));
        Finish(c, row.(schedule := row.schedule.(claimedAt := None, nextAttemptAt := Some(next))), NoCall)
      case PermanentlyRefused => Finish(c, row.(state := Draft, schedule := CLEARED), NoCall)
  }

  function DispatchResult(row: Row, now: int, verdict: Verdict): DispatchOutcome {
    if verdict == Throws then Deferred
    else if verdict == OwnerMissing || !IsDue(row, now) then DispatchFailed
    else
      match verdict
      case Sendable(_) => Dispatched
      case TemporarilyRefused => Deferred
      case PermanentlyRefused => DispatchFailed
  }

  /** The compensation after a rolled-back dispatch. It runs outside that transaction, so it may
      meet a row that other actors have changed since. */
  function ReleaseClaim(c: Config, row: Row, now: int): Outcome {
    if row.state != Scheduled then Unchanged(row)
    else
      var schedule := row.schedule.(claimedAt := None, nextAttemptAt := Some(now + DeferSeconds(c)));
      Finish(c, row.(schedule := schedule), NoCall)
  }

  // ----- the delivery job -----

  function Claim(c: Config, row: Row, now: int): Outcome {
    if row.state != Queued then Unchanged(row)
    else
      Finish(c, row.(state := Sending, sendingAt := Some(now), transportAttemptedAt := None,
                     attemptCount := row.attemptCount + 1), NoCall)
  }

  function MarkAttempted(c: Config, row: Row, now: int): Outcome {
    if row.state != Sending then Unchanged(row)
    else Finish(c, row.(transportAttemptedAt := Some(now)), NoCall)
  }

  function MarkSent(c: Config, row: Row): Outcome {
    if row.state != Sending then Unchanged(row)
    else Finish(c, row.(state := Sent, failureCode := None), Commit)
  }

  function MarkFailed(c: Config, row: Row, code: FailureCode, transportAttempted: bool): Outcome {
    if row.state != Sending then Unchanged(row)
    else Finish(c, row.(state := Failed, failureCode := Some(code)), if transportAttempted then NoCall else Release)
  }

  function Requeue(c: Config, row: Row, code: Option<FailureCode>): Outcome {
    if row.state != Sending then Unchanged(row)
    else Finish(c, row.(state := Queued, failureCode := code), NoCall)
  }

  /** `attempt` is the attempt number the worker holds from its own claim. */
  function RecordResult(c: Config, row: Row, attempt: int, result: TransportResult,
                        code: Option<FailureCode>): Outcome
  {
    match result
    case Accepted => MarkSent(c, row)
    case TemporaryFailure =>
      if attempt < MaxAttempts(c) then Requeue(c, row, code)
      else MarkFailed(c, row, if code.Some? then code.value else TransportError, true)
    case _ => MarkFailed(c, row, if code.Some? then code.value else TransportError, true)
  }

  // ----- users, admins, provider events, reconciliation -----

  function Cancel(c: Config, row: Row): Outcome {
    if row.state == Queued then Finish(c, row.(state := Cancelled), Release)
    else if row.state == Scheduled then Finish(c, row.(state := Cancelled, schedule := CLEARED), NoCall)
    else Refuse(row, CancelNotAllowed)
  }

  function Delete(c: Config, row: Row, now: int): Outcome {
    if row.userDeletedAt.Some? then Refuse(row, AlreadyDeleted)
    else if row.state == Queued || row.state == Scheduled then
      var cancelled := Cancel(c, row);
      Outcome(cancelled.row.(userDeletedAt := Some(now)), Done, cancelled.usage)
    else Finish(c, row.(userDeletedAt := Some(now)), NoCall)
  }

  function RetryByUser(c: Config, row: Row, authorized: bool): Outcome {
    if row.state != Failed then Refuse(row, RetryNotAllowed)
    else if row.failureCode.Some? && NonRetryable(row.failureCode.value) then Refuse(row, RetryNotAllowed)
    else if !authorized then Refuse(row, AuthorizationFailed)
    else Finish(c, row.(state := Queued, failureCode := None), NoCall)
  }

  predicate FailoverEligible(row: Row) {
    && row.state == Failed
    && row.flaggedAt.None?
    && row.failureCode.Some? && SafePreAcceptance(row.failureCode.value)
  }

  /** The transaction of a provider retry, which holds the row lock from claim to outcome. It re-reads
      only the state: `checked` is the answer of all other checks, `FailoverEligible` among them, made
      before the transaction on the row as it was then. */
  function RetryWithProvider(c: Config, row: Row, now: int, checked: bool,
                             result: TransportResult, code: Option<FailureCode>): Outcome {
    if row.state != Failed then Refuse(row, MessageNotFailed)
    else if !checked then Refuse(row, FailoverNotEligible)
    else
      var attempted := row.(attemptCount := row.attemptCount + 1, sendingAt := Some(now),
          transportAttemptedAt := Some(now));
      Finish(c, if result == Accepted then attempted.(state := Sent, failureCode := None)
                else attempted.(failureCode := code), NoCall)
  }

  function ConfirmDelivery(c: Config, row: Row): Outcome {
    if row.state != Sent then Unchanged(row) else Finish(c, row.(state := Delivered), NoCall)
  }

  function ReportFailure(c: Config, row: Row, code: FailureCode): Outcome {
    if row.state != Sent then Unchanged(row)
    else Finish(c, row.(state := Failed, failureCode := Some(code)), NoCall)
  }

  predicate IsStale(c: Config, row: Row, now: int) {
    row.state == Sending && row.sendingAt.Some? && row.sendingAt.value <= now - StaleThreshold(c)
  }

  /** Stale-sending reconciliation of one row. It cannot see the worker, only the clock and the marker. */
  function Reconcile(c: Config, row: Row, now: int): Outcome {
    if !IsStale(c, row, now) || row.flaggedAt.Some? then Unchanged(row)
    else if row.transportAttemptedAt.Some? then Finish(c, row.(flaggedAt := Some(now)), NoCall)
    else if row.attemptCount >= MaxAttempts(c) then
      Finish(c, row.(state := Failed, failureCode := Some(StaleSendingAttemptsExhausted)), NoCall)
    else Finish(c, row.(state := Queued), NoCall)
  }

  /** The detector of impossible states flags a message whose state and timestamps conflict, as those of
      a bounced message that was queued again do. None of its conflicts concerns a message being sent. */
  function FlagConflict(c: Config, row: Row, now: int): Outcome {
    if row.flaggedAt.Some? || row.state == Sending then Unchanged(row)
    else Finish(c, row.(flaggedAt := Some(now)), NoCall)
  }

  // ----- what every action keeps -----

  /** What nothing undoes: leaving the drafting states, finality, attempts, a flag, a user's delete. */
  predicate Onward(r: Row, t: Row) {
    && (!Unsent(r.state) ==> !Unsent(t.state) && t.fingerprint == r.fingerprint)
    && (r.state == Cancelled || r.state == Delivered ==> t.state == r.state)
    && r.attemptCount <= t.attemptCount
    && (r.flaggedAt.Some? ==> t.flaggedAt == r.flaggedAt)
    && (r.userDeletedAt.Some? ==> t.userDeletedAt == r.userDeletedAt)
  }

  /** A scheduled row has a time, a positive version, no claim and an undeleted draft; a draft row has
      its schedule cleared. */
  predicate WellScheduled(row: Row) {
    && (row.state == Scheduled ==>
          row.schedule.version >= 1 && row.schedule.claimedAt.None? && row.draftDeletedAt.None?
              && row.schedule.at.Some?)
    && (row.state == Draft ==> row.schedule == CLEARED)
  }

  /** A step from `r` to `t` with this reply: a refusal changes nothing, the state moves along the
      lifecycle table if at all, and nothing above is lost. */
  predicate Lawful(r: Row, t: Row, reply: Reply) {
    && (reply != Done ==> t == r)
    && (t.state == r.state || CanTransitionTo(r.state, t.state))
    && Onward(r, t)
    && (WellScheduled(r) ==> WellScheduled(t))
  }
}
