/**
 The stored outbound message, updated in place. Each method is one locked transaction or one
 conditional update of the application, proved to leave exactly the row `MessageRow` specifies.
 */
module OutboundMessages {
  import opened Options
  import opened MessageLifecycle
  import opened MR = MessageRow

  class OutboundMessage {
    var state: State
    var attemptCount: nat
    var sendingAt: Option<int>
    var transportAttemptedAt: Option<int>
    var flaggedAt: Option<int>
    var failureCode: Option<FailureCode>
    var draftVersion: int
    var draftDeletedAt: Option<int>
    var fingerprint: nat
    var schedule: Schedule
    var userDeletedAt: Option<int>
    var reservation: Reservation

    /** The row as a value. */
    function Snapshot(): Row
      reads this
    {
      Row(state, attemptCount, sendingAt, transportAttemptedAt, flaggedAt, failureCode, draftVersion,
          draftDeletedAt, fingerprint, schedule, userDeletedAt, reservation)
    }

    /** The call left the row and gave the answer of this outcome. */
    predicate Performed(reply: Reply, o: Outcome)
      reads this
    {
      Snapshot() == o.row && reply == o.reply
    }

    /** The call followed the rules every action follows. */
    twostate predicate Abides(reply: Reply)
      reads this
    {
      Lawful(old(Snapshot()), Snapshot(), reply)
    }

    constructor Queue(c: Config, fingerprint: nat)
      ensures Snapshot() == NewQueued(c, fingerprint)
    {
      state, attemptCount, draftVersion, this.fingerprint := Queued, 0, 0, fingerprint;
      sendingAt, transportAttemptedAt, flaggedAt, failureCode := None, None, None, None;
      draftDeletedAt, userDeletedAt, schedule := None, None, CLEARED;
      reservation := if c.metering then Reserved else Unreserved;
    }

    constructor Compose(fingerprint: nat)
      ensures Snapshot() == NewDraft(fingerprint)
    {
      state, attemptCount, draftVersion, this.fingerprint := Draft, 0, 1, fingerprint;
      sendingAt, transportAttemptedAt, flaggedAt, failureCode := None, None, None, None;
      draftDeletedAt, userDeletedAt, schedule, reservation := None, None, CLEARED, Unreserved;
    }

    // ----- usage service -----

    method ReserveUsage(c: Config)
      modifies this`reservation
      ensures reservation == Settle(c, old(reservation), Reserve)
    {
      if c.metering && reservation == Unreserved { reservation := Reserved; }
    }

    method CommitUsage(c: Config)
      modifies this`reservation
      ensures reservation == Settle(c, old(reservation), Commit)
    {
      if c.metering && reservation == Reserved { reservation := Committed; }
    }

    method ReleaseUsage(c: Config)
      modifies this`reservation
      ensures reservation == Settle(c, old(reservation), Release)
    {
      if c.metering && reservation == Reserved { reservation := Released; }
    }

    // ----- drafts and schedules -----

    method ScheduleDraft(c: Config, now: int, version: int, at: int, prepared: Option<nat>) returns (reply: Reply)
      modifies this
      ensures Performed(reply, MR.ScheduleDraft(c, old(Snapshot()), now, version, at, prepared))
      ensures Abides(reply)
    {
      if !c.scheduleEnabled { return Denied(MessageNotSchedulable); }
      if at <= now { return Denied(ScheduleTimeInvalid); }
      if draftDeletedAt.Some? { return Denied(DraftNotFound); }
      if state == Scheduled { return NoChange; }
      if state != Draft { return Denied(MessageNotSchedulable); }
      if draftVersion != version { return Denied(DraftConflict); }
      if prepared.None? { return Denied(ContentRefused); }
      state, fingerprint := Scheduled, prepared.value;
      schedule := Schedule(Some(at), schedule.version + 1, None, None);
      return Done;
    }

    method Reschedule(c: Config, now: int, version: int, at: int, prepared: Option<nat>) returns (reply: Reply)
      modifies this
      ensures Performed(reply, MR.Reschedule(c, old(Snapshot()), now, version, at, prepared))
      ensures Abides(reply)
    {
      if !c.scheduleEnabled { return Denied(MessageNotScheduled); }
      if at <= now { return Denied(ScheduleTimeInvalid); }
      if state != Scheduled { return Denied(MessageNotScheduled); }
      if schedule.version != version { return Denied(ScheduleConflict); }
      if schedule.claimedAt.Some? { return Denied(ScheduleAlreadyDispatched); }
      if prepared.None? { return Denied(ContentRefused); }
      fingerprint := prepared.value;
      schedule := Schedule(Some(at), schedule.version + 1, None, None);
      return Done;
    }

    method Unschedule(c: Config, version: int) returns (reply: Reply)
      modifies this
      ensures Performed(reply, MR.Unschedule(c, old(Snapshot()), version))
      ensures Abides(reply)
    {
      if state != Scheduled { return Denied(MessageNotScheduled); }
      if schedule.version != version { return Denied(ScheduleConflict); }
      if schedule.claimedAt.Some? { return Denied(ScheduleAlreadyDispatched); }
      state, schedule := Draft, CLEARED;
      return Done;
    }

    method SendNow(c: Config, version: int, prepared: Option<nat>, quotaOk: bool) returns (reply: Reply)
      modifies this
      ensures Performed(reply, MR.SendNow(c, old(Snapshot()), version, prepared, quotaOk))
      ensures Abides(reply)
    {
      if state == Queued { return NoChange; }
      if state != Scheduled { return Denied(MessageNotScheduled); }
      if schedule.version != version { return Denied(ScheduleConflict); }
      if schedule.claimedAt.Some? { return Denied(ScheduleAlreadyDispatched); }
      if prepared.None? { return Denied(ContentRefused); }
      if !quotaOk { return Denied(QuotaExceeded); }
      state, fingerprint, schedule := Queued, prepared.value, CLEARED;
      ReserveUsage(c);
      return Done;
    }

    method SubmitDraft(c: Config, version: int, prepared: Option<nat>, quotaOk: bool) returns (reply: Reply)
      modifies this
      ensures Performed(reply, MR.SubmitDraft(c, old(Snapshot()), version, prepared, quotaOk))
      ensures Abides(reply)
    {
      if draftDeletedAt.Some? { return Denied(DraftNotFound); }
      if state == Queued { return NoChange; }
      if state != Draft { return Denied(AlreadySubmitted); }
      if draftVersion != version { return Denied(DraftConflict); }
      if prepared.None? { return Denied(ContentRefused); }
      if !quotaOk { return Denied(QuotaExceeded); }
      state, fingerprint := Queued, prepared.value;
      ReserveUsage(c);
      return Done;
    }

    /** One dispatch: in a transaction, claim the due schedule, then queue, defer or fail it. `now` may
        have moved on since the dispatcher picked this message. An exception rolls the row back and is
        compensated at time `later`. */
    method DispatchOne(c: Config, now: int, verdict: Verdict, later: int) returns (outcome: DispatchOutcome)
      modifies this
      ensures Snapshot() == if verdict == Throws then ReleaseClaim(c, old(Snapshot()), later).row
                            else Dispatch(c, old(Snapshot()), now, verdict).row
      ensures outcome == DispatchResult(old(Snapshot()), now, verdict)
      ensures outcome == Dispatched <==> old(state) == Scheduled && state == Queued
      ensures old(state) == Scheduled && state != Scheduled ==> old(schedule.at).Some? && old(schedule.at).value <= now
      ensures verdict.Sendable? && old(state) == Scheduled && old(schedule.claimedAt).None?
              && old(schedule.at).Some? && old(schedule.at).value <= now
              && (old(schedule.nextAttemptAt).Some? ==> old(schedule.nextAttemptAt).value <= now)
              ==> outcome == Dispatched
      ensures Abides(Done)
    {
      if verdict != Throws && (verdict == OwnerMissing || !IsDue(Snapshot(), now)) { return DispatchFailed; }
      var savepoint := schedule;
      schedule := schedule.(claimedAt := Some(now));
      if verdict == Throws {
        schedule := savepoint;
        ReleaseClaimSafely(c, later);
        return Deferred;
      }
      match verdict {
        case Sendable(fp) =>
          state, fingerprint, schedule := Queued, fp, CLEARED;
          ReserveUsage(c);
          outcome := Dispatched;
        case TemporarilyRefused =>
          var seconds := Max(1, Min(c.deferSeconds, c.maxDeferSeconds));
          schedule := schedule.(claimedAt := None, nextAttemptAt := Some(now + seconds));
          outcome := Deferred;
        case PermanentlyRefused =>
          state, schedule := Draft, CLEARED;
          outcome := DispatchFailed;
      }
    }

    method ReleaseClaimSafely(c: Config, now: int)
      modifies this`schedule
      ensures Snapshot() == ReleaseClaim(c, old(Snapshot()), now).row
    {
      if state == Scheduled {
        var next := now + Min(c.deferSeconds, c.maxDeferSeconds);
        schedule := schedule.(claimedAt := None, nextAttemptAt := Some(next));
      }
    }

    // ----- delivery -----

    method ClaimForDelivery(c: Config, now: int) returns (reply: Reply)
      modifies this
      ensures Performed(reply, MR.Claim(c, old(Snapshot()), now))
      ensures Abides(reply)
    {
      if state != Queued { return NoChange; }
      state, sendingAt, transportAttemptedAt := Sending, Some(now), None;
      attemptCount := attemptCount + 1;
      return Done;
    }

    method MarkAttempted(c: Config, now: int)
      modifies this
      ensures Snapshot() == MR.MarkAttempted(c, old(Snapshot()), now).row
    {
      if state == Sending { transportAttemptedAt := Some(now); }
    }

    method MarkSent(c: Config)
      modifies this
      ensures Snapshot() == MR.MarkSent(c, old(Snapshot())).row
    {
      if state != Sending { return; }
      state, failureCode := Sent, None;
      CommitUsage(c);
    }

    method MarkFailed(c: Config, code: FailureCode, transportAttempted: bool)
      modifies this
      ensures Snapshot() == MR.MarkFailed(c, old(Snapshot()), code, transportAttempted).row
    {
      if state != Sending { return; }
      state, failureCode := Failed, Some(code);
      if !transportAttempted { ReleaseUsage(c); }
    }

    /** The whole delivery job, run without interruption. `refusal` is the failure of a check made
        before the transport call; `result` and `code` are what the transport answers. */
    method Handle(c: Config, now: int, emergencyStop: bool, refusal: Option<FailureCode>,
                  result: TransportResult, code: Option<FailureCode>)
      returns (submitted: bool)
      modifies this
      ensures Snapshot() == HandledRow(c, old(Snapshot()), now, emergencyStop, refusal, result, code)
      ensures submitted <==> !emergencyStop && old(state) == Queued && refusal.None?
    {
      submitted := false;
      if emergencyStop { return; }
      var claimed := ClaimForDelivery(c, now);
      if claimed != Done { return; }
      var attempt := attemptCount;
      if refusal.Some? {
        MarkFailed(c, refusal.value, false);
        return;
      }
      MarkAttempted(c, now);
      submitted := true;
      if result == Accepted {
        MarkSent(c);
        return;
      }
      if result == TemporaryFailure && attempt < Max(1, c.sendMaxAttempts) {
        if state == Sending { state, failureCode := Queued, code; }
        return;
      }
      MarkFailed(c, if code.Some? then code.value else TransportError, true);
    }

    // ----- users, admins, reconciliation -----

    method Cancel(c: Config) returns (reply: Reply)
      modifies this
      ensures Performed(reply, MR.Cancel(c, old(Snapshot())))
      ensures Abides(reply)
    {
      if state != Queued && state != Scheduled { return Denied(CancelNotAllowed); }
      var previous := state;
      state := Cancelled;
      if previous == Scheduled { schedule := CLEARED; }
      if previous == Queued { ReleaseUsage(c); }
      return Done;
    }

    method Delete(c: Config, now: int) returns (reply: Reply)
      modifies this
      ensures Performed(reply, MR.Delete(c, old(Snapshot()), now))
      ensures Abides(reply)
    {
      if userDeletedAt.Some? { return Denied(AlreadyDeleted); }
      if state == Queued || state == Scheduled {
        var cancelled := Cancel(c);
      }
      userDeletedAt := Some(now);
      return Done;
    }

    method RetryByUser(c: Config, authorized: bool) returns (reply: Reply)
      modifies this
      ensures Performed(reply, MR.RetryByUser(c, old(Snapshot()), authorized))
      ensures Abides(reply)
    {
      if state != Failed { return Denied(RetryNotAllowed); }
      if failureCode.Some? && NonRetryable(failureCode.value) { return Denied(RetryNotAllowed); }
      if !authorized { return Denied(AuthorizationFailed); }
      state, failureCode := Queued, None;
      return Done;
    }

    /** The provider retry with nothing between its checks and its transaction. It goes through
        `Sending`, which no other actor sees before the transaction commits. */
    method RetryWithProvider(c: Config, now: int, permitted: bool, result: TransportResult, code: Option<FailureCode>)
      returns (reply: Reply)
      modifies this
      ensures Performed(reply,
          MR.RetryWithProvider(c, old(Snapshot()), now, FailoverEligible(old(Snapshot())) && permitted, result, code))
      ensures reply == Done && result == Accepted ==> state == Sent && failureCode.None?
      ensures reply == Done && result != Accepted ==> state == Failed && failureCode == code
    {
      if state != Failed { return Denied(MessageNotFailed); }
      if flaggedAt.Some? || failureCode.None? || !SafePreAcceptance(failureCode.value) || !permitted {
        return Denied(FailoverNotEligible);
      }
      state, sendingAt, transportAttemptedAt, attemptCount := Sending, Some(now), None, attemptCount + 1;
      transportAttemptedAt := Some(now);
      if result == Accepted {
        state, failureCode := Sent, None;
      } else {
        state, failureCode := Failed, code;
      }
      return Done;
    }

    method ReconcileStale(c: Config, now: int) returns (reply: Reply)
      modifies this
      ensures Performed(reply, MR.Reconcile(c, old(Snapshot()), now))
      ensures Abides(reply)
    {
      if state != Sending || sendingAt.None? || sendingAt.value > now - Max(1, c.staleThresholdSeconds) {
        return NoChange;
      }
      if flaggedAt.Some? { return NoChange; }
      if transportAttemptedAt.Some? {
        flaggedAt := Some(now);
      } else if attemptCount >= Max(1, c.sendMaxAttempts) {
        state, failureCode := Failed, Some(StaleSendingAttemptsExhausted);
      } else {
        state := Queued;
      }
      return Done;
    }
  }

  /** The row the uninterrupted job leaves, read off the lifecycle tables instead of the job:
      a queued message takes one attempt and ends where its refusal or transport result says. */
  function HandledRow(c: Config, row: Row, now: int, emergencyStop: bool, refusal: Option<FailureCode>,
                      result: TransportResult, code: Option<FailureCode>): Row
  {
    if emergencyStop || row.state != Queued then row
    else
      var attempted := row.(attemptCount := row.attemptCount + 1, sendingAt := Some(now), transportAttemptedAt := None);
      if refusal.Some? then
        attempted.(state := Failed, failureCode := refusal, reservation := Settle(c, row.reservation, Release))
      else
        var end := ToMessageState(result, row.attemptCount + 1 < Max(1, c.sendMaxAttempts));
        attempted.(
          state := end,
          transportAttemptedAt := Some(now),
          failureCode := if end == Sent then None
                         else if end == Failed && code.None? then Some(TransportError) else code,
          reservation := if end == Sent then Settle(c, row.reservation, Commit) else row.reservation)
  }
}
