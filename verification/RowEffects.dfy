/**
 The row actions by what they change: for each way a message can move and each column, exactly which
 action, under which conditions, and what is written. Each law ranges over all seventeen actions.
 */
module RowEffects {
  import opened Options
  import opened MessageLifecycle
  import opened MR = MessageRow
  import opened DeliveryProtocol

  // ----- drafts, schedules and the queue -----

  /** The revalidated content an action carries, if it has any and the action may write it. */
  function Content(a: Action): Option<nat> {
    match a
    case SubmitsDraft(_, prepared, quotaOk) => if quotaOk then prepared else None
    case Schedules(_, _, prepared) => prepared
    case Reschedules(_, _, prepared) => prepared
    case SendsNow(_, prepared, quotaOk) => if quotaOk then prepared else None
    case DispatcherActs(Sendable(fingerprint)) => Some(fingerprint)
    case _ => None
  }

  /** A scheduled message that nobody has claimed, called upon under its current version. */
  predicate Holds(row: Row, version: int) {
    row.state == Scheduled && row.schedule.version == version && row.schedule.claimedAt.None?
  }

  predicate Editable(row: Row, version: int) {
    row.state == Draft && row.draftDeletedAt.None? && row.draftVersion == version
  }

  /** A message is queued for its first attempt exactly by submitting the current version of a draft, by sending
      the current version of a schedule at once, or by the dispatcher when its time has come: each with
      content that was revalidated, and with its usage granted. That content is what is queued. */
  lemma QueuedIff(c: Config, row: Row, now: int, a: Action)
    ensures var o := Perform(c, row, now, a);
      && (Unsent(row.state) && o.row.state == Queued <==>
            && Content(a).Some?
            && match a
               case SubmitsDraft(version, _, _) => Editable(row, version)
               case SendsNow(version, _, _) => Holds(row, version)
               case DispatcherActs(_) =>
                 && row.state == Scheduled && row.schedule.claimedAt.None?
                 && row.schedule.at.Some? && now >= row.schedule.at.value
                 && (row.schedule.nextAttemptAt.Some? ==> now >= row.schedule.nextAttemptAt.value)
               case _ => false)
      && (Unsent(row.state) && o.row.state == Queued ==>
            && o.row.schedule == (if row.state == Scheduled then CLEARED else row.schedule)
            && o.row == row.(state := Queued, fingerprint := Content(a).value, schedule := o.row.schedule,
                             reservation := o.row.reservation))
  {
  }

  /** A message is scheduled exactly as the current version of a draft, or again under its current schedule
      version, for a time ahead and with revalidated content; the version goes up by one. */
  lemma ScheduledIff(c: Config, row: Row, now: int, a: Action)
    requires a.Schedules? || a.Reschedules?
    ensures var o := Perform(c, row, now, a);
      && (o.reply == Done <==>
            && c.scheduleEnabled && a.at > now && Content(a).Some?
            && if a.Schedules? then Editable(row, a.draftVersion) else Holds(row, a.version))
      && (o.reply == Done ==>
            o.row == row.(state := Scheduled, fingerprint := Content(a).value,
                          schedule := Schedule(Some(a.at), row.schedule.version + 1, None, None)))
  {
  }

  /** A scheduled message becomes a draft again exactly by unscheduling it under its current version, or when the
      dispatcher finds it refused for good once its time has come; only the schedule goes. */
  lemma ReturnedIff(c: Config, row: Row, now: int, a: Action)
    requires row.state == Scheduled
    ensures var o := Perform(c, row, now, a);
      && (o.row.state == Draft <==>
            || (a.Unschedules? && Holds(row, a.version))
            || (a == DispatcherActs(PermanentlyRefused) && IsDue(row, now)))
      && (o.row.state == Draft ==> o.row == row.(state := Draft, schedule := CLEARED))
  {
  }

  /** A waiting message changes otherwise only by being rescheduled, by being deferred when its time has come, by
      the compensation of a rolled-back dispatch, or by being flagged. */
  lemma WaitingChangesIff(c: Config, row: Row, now: int, a: Action)
    requires row.state == Scheduled && Perform(c, row, now, a).row.state == Scheduled && !a.Reschedules?
    ensures var o, delay := Perform(c, row, now, a), Min(c.deferSeconds, c.maxDeferSeconds);
      && (o.row.schedule != row.schedule ==>
            a == DispatcherReleases || (a == DispatcherActs(TemporarilyRefused) && IsDue(row, now)))
      && (a == DispatcherReleases ==> o.row == row.(
            schedule := row.schedule.(claimedAt := None, nextAttemptAt := Some(now + delay))))
      && (a == DispatcherActs(TemporarilyRefused) && IsDue(row, now) ==> o.row == row.(
            schedule := row.schedule.(claimedAt := None, nextAttemptAt := Some(now + Max(1, delay)))))
      && o.row == row.(schedule := o.row.schedule, flaggedAt := o.row.flaggedAt)
  {
  }

  /** What the dispatcher answers tells what it did: dispatched, if the message is queued now; deferred, if it was
      due and put off, or the transaction was rolled back; failed otherwise. */
  lemma AnswerTellsDispatch(c: Config, row: Row, now: int, verdict: Verdict)
    ensures var o, answer := Dispatch(c, row, now, verdict), DispatchResult(row, now, verdict);
      && (answer == Dispatched <==> row.state == Scheduled && o.row.state == Queued)
      && (answer == Deferred <==>
            verdict == Throws || (verdict == TemporarilyRefused && IsDue(row, now)))
      && (verdict == Throws || verdict == OwnerMissing ==> o.row == row)
  {
  }

  /** An unsent draft changes its version exactly by an edit under the current one, by one, and is deleted exactly
      by a delete that names the current version or none. */
  lemma DraftChangesIff(c: Config, row: Row, now: int, a: Action)
    ensures var o := Perform(c, row, now, a);
      && (o.row.draftVersion != row.draftVersion <==> a.UpdatesDraft? && Editable(row, a.draftVersion))
      && (o.row.draftVersion != row.draftVersion ==> o.row == row.(draftVersion := row.draftVersion + 1))
      && (o.row.draftDeletedAt != row.draftDeletedAt <==>
            && a.DeletesDraft? && row.state == Draft && row.draftDeletedAt.None?
            && (a.expected.Some? ==> a.expected.value == row.draftVersion))
      && (o.row.draftDeletedAt != row.draftDeletedAt ==> o.row == row.(draftDeletedAt := Some(now)))
      && (o.row.fingerprint != row.fingerprint ==> Unsent(row.state) && Content(a) == Some(o.row.fingerprint))
  {
  }

  // ----- after the queue -----

  /** A message is cancelled exactly by its user, cancelling it or deleting it for the first time, and while it
      still waits in the queue or in its schedule, which goes. */
  lemma CancelledIff(c: Config, row: Row, now: int, a: Action)
    requires row.state != Cancelled
    ensures var o := Perform(c, row, now, a);
      && (o.row.state == Cancelled <==>
            && (row.state == Queued || row.state == Scheduled)
            && (a == Cancels || (a == Deletes && row.userDeletedAt.None?)))
      && (o.row.state == Cancelled && row.state == Scheduled ==> o.row.schedule == CLEARED)
  {
  }

  /** A message is hidden exactly by its user's first delete. */
  lemma HiddenIff(c: Config, row: Row, now: int, a: Action)
    ensures var o := Perform(c, row, now, a);
      && (o.row.userDeletedAt != row.userDeletedAt <==> a == Deletes && row.userDeletedAt.None?)
      && (o.row.userDeletedAt != row.userDeletedAt ==> o.row.userDeletedAt == Some(now))
  {
  }

  /** A failed message returns to the queue exactly by an authorized retry of its user, unless it failed in one of
      nine ways that another attempt would not cure; the failure is forgotten then. */
  lemma RetriedIff(c: Config, row: Row, now: int, a: Action)
    requires row.state == Failed
    ensures var o := Perform(c, row, now, a);
      && (o.row.state == Queued <==>
            && a == Retries(true)
            && row.failureCode !in {Some(AttachmentUnsafe), Some(AttachmentNotFound), Some(AttachmentDeleted),
                                    Some(AttachmentUnavailable), Some(UserInactive), Some(InboxInactive),
                                    Some(DomainOutboundDisabled), Some(EntitlementDenied), Some(InvalidConfig)})
      && (o.row.state == Queued ==> o.row == row.(state := Queued, failureCode := None))
  {
  }

  /** Reconciliation has an unmarked, unflagged claim that is stale queued again while attempts are left, and
      failed as exhausted otherwise; a marked one it flags. Nothing else takes a message out of `Sending`. */
  lemma ReconciledIff(c: Config, row: Row, now: int, a: Action)
    requires row.state == Sending
    ensures var o := Perform(c, row, now, a);
      var stale := a == Reconciles && row.flaggedAt.None? && row.sendingAt.Some?
          && now - row.sendingAt.value >= Max(1, c.staleThresholdSeconds);
      && (o.row.state != Sending <==> stale && row.transportAttemptedAt.None?)
      && (o.row.state != Sending ==>
            o.row == if row.attemptCount < Max(1, c.sendMaxAttempts) then row.(state := Queued)
                     else row.(state := Failed, failureCode := Some(StaleSendingAttemptsExhausted)))
      && (stale && row.transportAttemptedAt.Some? ==> o.row == row.(flaggedAt := Some(now)))
  {
  }

  /** A flag is set exactly by reconciliation of a stale marked message, or by the detector of conflicts on a
      message not being sent, and only once. */
  lemma FlaggedIff(c: Config, row: Row, now: int, a: Action)
    ensures var o := Perform(c, row, now, a);
      && (o.row.flaggedAt != row.flaggedAt <==>
            && row.flaggedAt.None?
            && ((a == FlagsConflict && row.state != Sending)
                || (a == Reconciles && row.state == Sending && row.transportAttemptedAt.Some? && row.sendingAt.Some?
                    && now - row.sendingAt.value >= Max(1, c.staleThresholdSeconds))))
      && (o.row.flaggedAt != row.flaggedAt ==> o.row == row.(flaggedAt := Some(now)))
  {
  }

  /** A sent message is delivered or bounced exactly by an event of its provider, whose reason it keeps. */
  lemma ReportedIff(c: Config, row: Row, now: int, a: Action)
    requires row.state == Sent
    ensures var o := Perform(c, row, now, a);
      && (o.row.state == Delivered <==> a == ProviderDelivers)
      && (o.row.state == Delivered ==> o.row == row.(state := Delivered))
      && (o.row.state == Failed <==> a.ProviderFails?)
      && (o.row.state == Failed ==> o.row == row.(state := Failed, failureCode := Some(a.failure)))
  {
  }

  /** The delivery columns belong to the worker: of all other actions only a provider retry that takes effect
      writes the attempt count, the claim time or the marker. */
  lemma DeliveryColumnsChangeIff(c: Config, row: Row, now: int, a: Action)
    ensures var o := Perform(c, row, now, a);
      && (o.row.attemptCount != row.attemptCount <==> a.RetriesWithProvider? && a.checked && row.state == Failed)
      && (o.row.attemptCount == row.attemptCount ==>
            o.row.sendingAt == row.sendingAt && o.row.transportAttemptedAt == row.transportAttemptedAt)
  {
  }

  /** A claim takes exactly a queued message, counts the attempt, notes the time and clears the marker. */
  lemma ClaimedIff(c: Config, row: Row, now: int)
    ensures var o := Claim(c, row, now);
      && (o.row.state == Sending && row.state != Sending <==> row.state == Queued)
      && (row.state == Queued ==> o.row == row.(state := Sending, attemptCount := row.attemptCount + 1,
                                                sendingAt := Some(now), transportAttemptedAt := None))
      && (row.state != Queued ==> o.row == row)
  {
  }

  /** What a job leaves of a message being sent: the state of the transport-result table for its own attempt number,
      no failure if accepted, and otherwise the transport's own code, or `transport_error` if it fails for good
      without one. It leaves any other message alone. */
  lemma RecordedIff(c: Config, row: Row, attempt: int, result: TransportResult, code: Option<FailureCode>)
    ensures var t := RecordResult(c, row, attempt, result, code).row;
      var end := ToMessageState(result, attempt < Max(1, c.sendMaxAttempts));
      && (row.state != Sending ==> t == row)
      && (row.state == Sending ==>
            && t == row.(state := end, failureCode := t.failureCode, reservation := t.reservation)
            && t.failureCode == if end == Sent then None
                                else if end == Failed && code.None? then Some(TransportError) else code)
  {
  }

  // ----- the lifecycle table -----

  /** No edge of the table is idle: each is taken by some step of some message. Together with the law that steps
      stay on the table, an accepted provider retry apart, this makes the table exact. */
  lemma EveryEdgeIsTaken(from: State, to: State) returns (c: Config, s: Sys, e: Event)
    requires CanTransitionTo(from, to)
    ensures s.row.state == from && Enabled(c, s, e) && Apply(c, s, e).row.state == to && Apply(c, s, e).row != s.row
  {
    c := Config(1, 1, 1, 1, 1, 1, true, true);
    if from == Sending {
      s, e := EdgeOutOfSending(c, to);
    } else if from == Queued && to == Sending {
      s, e := Sys(NewQueued(c, 0), 1, map[], EMPTY_LEDGER), JobClaims(0);
    } else {
      var row, a := EdgeOfAnAction(c, from, to);
      s, e := Sys(row, 1, map[], EMPTY_LEDGER), Acts(a);
    }
  }

  lemma EdgeOutOfSending(c: Config, to: State) returns (s: Sys, e: Event)
    requires CanTransitionTo(Sending, to)
    ensures s.row.state == Sending && Enabled(c, s, e) && Apply(c, s, e).row.state == to
  {
    var answer := match to case Sent => Accepted case Queued => TemporaryFailure case _ => Rejected;
    var row := NewQueued(c, 0).(state := Sending, attemptCount := 1, sendingAt := Some(0));
    s := Sys(row, 1, map[0 := Worker(0, 0, Submitted(answer))], EMPTY_LEDGER);
    e := JobRecords(0, None);
  }

  lemma EdgeOfAnAction(c: Config, from: State, to: State) returns (row: Row, a: Action)
    requires CanTransitionTo(from, to) && from != Sending && to != Sending && c.scheduleEnabled
    ensures row.state == from && Perform(c, row, 1, a).reply == Done
    ensures Perform(c, row, 1, a).row.state == to && Perform(c, row, 1, a).row != row
  {
    row := NewDraft(0).(state := from, schedule := Schedule(Some(0), 1, None, None));
    match from
    case Draft => a := if to == Queued then SubmitsDraft(1, Some(0), true) else Schedules(1, 2, Some(0));
    case Scheduled =>
      a := match to
           case Scheduled => Reschedules(1, 2, Some(0))
           case Draft => Unschedules(1)
           case Queued => SendsNow(1, Some(0), true)
           case _ => Cancels;
    case Queued => a := Cancels;
    case Sent => a := if to == Delivered then ProviderDelivers else ProviderFails(ProviderBounce);
    case Failed => a := Retries(true);
  }

  // ----- refusals -----

  /** The version of the draft or of the schedule that the caller names. */
  function Named(a: Action): Option<int> {
    match a
    case SubmitsDraft(version, _, _) => Some(version)
    case UpdatesDraft(version) => Some(version)
    case DeletesDraft(expected) => expected
    case Schedules(version, _, _) => Some(version)
    case Reschedules(version, _, _) => Some(version)
    case Unschedules(version) => Some(version)
    case SendsNow(version, _, _) => Some(version)
    case _ => None
  }

  /** A refusal names a reason that is true of the message or of the call. */
  lemma RefusalsAreTrue(c: Config, row: Row, now: int, a: Action, reason: Refusal)
    requires Perform(c, row, now, a).reply == Denied(reason)
    ensures match reason
      case CancelNotAllowed => row.state != Queued && row.state != Scheduled
      case RetryNotAllowed => row.state != Failed || row.failureCode.Some?
      case AlreadyDeleted => row.userDeletedAt.Some?
      case ScheduleConflict => row.state == Scheduled && Named(a).Some? && Named(a).value != row.schedule.version
      case MessageNotScheduled => row.state != Scheduled || !c.scheduleEnabled
      case ScheduleAlreadyDispatched => row.state == Scheduled && row.schedule.claimedAt.Some?
      case MessageNotSchedulable => !Unsent(row.state) || !c.scheduleEnabled
      case ScheduleTimeInvalid => (a.Schedules? || a.Reschedules?) && a.at <= now
      case DraftNotFound => row.draftDeletedAt.Some? || (a.UpdatesDraft? && row.state != Draft)
      case DraftConflict => row.state == Draft && Named(a).Some? && Named(a).value != row.draftVersion
      case AlreadySubmitted => row.state != Draft && row.state != Queued
      case ContentRefused => (a.SubmitsDraft? || a.Schedules? || a.Reschedules? || a.SendsNow?) && a.prepared.None?
      case QuotaExceeded => (a.SubmitsDraft? || a.SendsNow?) && !a.quotaOk
      case AuthorizationFailed => row.state == Failed && a == Retries(false)
      case MessageNotFailed => row.state != Failed
      case FailoverNotEligible => row.state == Failed && a.RetriesWithProvider? && !a.checked
  {
  }
}
