/** Laws that relate the row actions to one another, for every row, caller and configuration. */
module RowLaws {
  import opened Options
  import opened MessageLifecycle
  import opened MR = MessageRow
  import opened DeliveryProtocol

  /** Every action but an accepted provider retry is lawful: a refusal changes nothing, the state moves
      along the lifecycle table, and attempts, flags, finality, the content of a message once queued and a
      user's delete are kept. The exception keeps all but the table. */
  lemma ActionsAreLawful(c: Config, row: Row, now: int, a: Action)
    ensures var o := Perform(c, row, now, a);
      && (Lawful(row, o.row, o.reply) <==> !(a.RetriesWithProvider? && a.result == Accepted && o.reply == Done))
      && (o.reply != Done ==> o.row == row && o.usage == NoCall)
      && Onward(row, o.row)
  {
  }

  /** Repeating an action that took effect, at once and with the same arguments, has no effect: submitting,
      scheduling, cancelling, deleting twice does it once. The exceptions are exactly the dispatcher's
      compensation and a provider retry that was not accepted. */
  lemma ActionsTakeEffectOnce(c: Config, row: Row, now: int, a: Action)
    requires Perform(c, row, now, a).reply == Done
    ensures Perform(c, Perform(c, row, now, a).row, now, a).reply == Done <==>
              a == DispatcherReleases || (a.RetriesWithProvider? && a.result != Accepted)
  {
  }

  /** A repeated call is told apart from a refused one: creating actions answer it as done before, actions
      that spend a version or a delete refuse it. */
  lemma RepeatedCallsAreAnswered(c: Config, row: Row, now: int, a: Action)
    requires Perform(c, row, now, a).reply == Done
    ensures var again := Perform(c, Perform(c, row, now, a).row, now, a).reply;
      && (a.SubmitsDraft? || a.Schedules? || a.SendsNow? ==> again == NoChange)
      && (a.Reschedules? ==> again == Denied(ScheduleConflict))
      && (a.Unschedules? ==> again == Denied(MessageNotScheduled))
      && (a == Cancels ==> again == Denied(CancelNotAllowed))
      && (a == Deletes ==> again == Denied(AlreadyDeleted))
      && (a.Retries? ==> again == Denied(RetryNotAllowed))
  {
  }

  /** Scheduling a draft and unscheduling it gives the draft back with its content revalidated, and leaves
      nothing of the schedule behind. */
  lemma SchedulingIsUndone(c: Config, row: Row, now: int, version: int, at: int, prepared: Option<nat>)
    requires WellScheduled(row) && ScheduleDraft(c, row, now, version, at, prepared).reply == Done
    ensures var scheduled := ScheduleDraft(c, row, now, version, at, prepared).row;
      && Unschedule(c, scheduled, scheduled.schedule.version).reply == Done
      && Unschedule(c, scheduled, scheduled.schedule.version).row == row.(fingerprint := prepared.value)
  {
  }

  /** A scheduled message can be queued in three ways: by its user at once, by the dispatcher when due, or by
      unscheduling and submitting the draft. With one content all three leave the same row and make the
      same call on the usage service. */
  lemma WaysToQueueAgree(c: Config, row: Row, now: int, fp: nat)
    requires row.state == Scheduled && WellScheduled(row)
    ensures var sent := SendNow(c, row, row.schedule.version, Some(fp), true);
      && sent.reply == Done && sent.row.state == Queued && sent.usage == Reserve
      && (row.schedule.at.value <= now
          && (row.schedule.nextAttemptAt.Some? ==> row.schedule.nextAttemptAt.value <= now) <==>
          Dispatch(c, row, now, Sendable(fp)) == sent)
      && (var draft := Unschedule(c, row, row.schedule.version).row;
          SubmitDraft(c, draft, draft.draftVersion, Some(fp), true) == sent)
  {
  }

  /** Deleting a queued or scheduled message is cancelling it and then hiding it; the usage call is the
      cancellation's. */
  lemma DeleteIsCancelThenHide(c: Config, row: Row, now: int)
    requires row.userDeletedAt.None? && (row.state == Queued || row.state == Scheduled)
    ensures var cancelled := Cancel(c, row);
      && cancelled.reply == Done
      && Delete(c, row, now).row == Delete(c, cancelled.row, now).row
      && Delete(c, row, now).usage == cancelled.usage && Delete(c, cancelled.row, now).usage == NoCall
  {
  }

  /** What a provider retry leaves behind: accepted, a sent message without a failure; otherwise a failed one
      whose failure is the transport's answer, so that it is eligible for another retry exactly if that answer
      itself precedes any contact with the provider. What failed before does not count any more. */
  lemma RetryLeavesItsAnswer(c: Config, row: Row, now: int, checked: bool, result: TransportResult,
                             code: Option<FailureCode>)
    ensures var o := RetryWithProvider(c, row, now, checked, result, code);
      && (o.reply == Done <==> row.state == Failed && checked)
      && (o.reply == Done && result == Accepted ==> o.row.state == Sent && o.row.failureCode.None?)
      && (o.reply == Done && result != Accepted ==>
            && o.row.state == Failed && o.row.failureCode == code
            && (FailoverEligible(o.row) <==>
                  && row.flaggedAt.None?
                  && code in {Some(InvalidConfig), Some(InvalidMailer), Some(InvalidTransport),
                              Some(TransportUnavailable), Some(DnsFailure)}))
      && (o.reply == Done ==>
            && o.row.attemptCount == row.attemptCount + 1
            && o.row.sendingAt == o.row.transportAttemptedAt == Some(now))
  {
  }

  // ----- the reservation over a history of usage calls -----

  /** The reservation a history of calls leaves. */
  function SettleAll(c: Config, r: Reservation, calls: seq<UsageCall>): Reservation {
    if calls == [] then r else Settle(c, SettleAll(c, r, calls[..|calls| - 1]), calls[|calls| - 1])
  }

  predicate Settles(call: UsageCall) {
    call == Commit || call == Release || call == Expire
  }

  function Settlement(call: UsageCall): Reservation
    requires Settles(call)
  {
    match call
    case Commit => Committed
    case Release => Released
    case Expire => Expired
  }

  /** The call at `i` is the first that settles a reservation. */
  predicate DecidesAt(calls: seq<UsageCall>, i: nat) {
    i < |calls| && Settles(calls[i]) && forall k | 0 <= k < i :: !Settles(calls[k])
  }

  lemma {:induction false} FirstSettlement(calls: seq<UsageCall>, i: nat) returns (j: nat)
    requires i < |calls| && Settles(calls[i])
    ensures j <= i && DecidesAt(calls, j)
    decreases i
  {
    if k :| 0 <= k < i && Settles(calls[k]) {
      j := FirstSettlement(calls, k);
    } else {
      j := i;
    }
  }

  lemma {:induction false} SettledStays(c: Config, r: Reservation, calls: seq<UsageCall>)
    requires r != Unreserved && (r == Reserved ==> forall k | 0 <= k < |calls| :: !Settles(calls[k]))
    ensures SettleAll(c, r, calls) == r
    decreases |calls|
  {
    if calls != [] {
      SettledStays(c, r, calls[..|calls| - 1]);
    }
  }

  lemma {:induction false} DecisionStands(c: Config, calls: seq<UsageCall>, i: nat)
    requires c.metering && DecidesAt(calls, i)
    ensures SettleAll(c, Reserved, calls) == Settlement(calls[i])
    decreases |calls|
  {
    var front := calls[..|calls| - 1];
    if i < |front| {
      DecisionStands(c, front, i);
    } else {
      SettledStays(c, Reserved, front);
    }
  }

  /** Over any history of calls a reserved reservation ends as the first commit, release or expiry says; one
      that is settled stays so, and reserving again does nothing. */
  lemma FirstSettlementStands(c: Config, r: Reservation, calls: seq<UsageCall>, call: UsageCall)
    requires c.metering && r != Unreserved && Settles(call)
    ensures SettleAll(c, r, calls) == Settlement(call) <==>
              r == Settlement(call) || (r == Reserved && exists i: nat :: DecidesAt(calls, i) && calls[i] == call)
    ensures SettleAll(c, r, calls) == Reserved <==> r == Reserved && forall k | 0 <= k < |calls| :: !Settles(calls[k])
  {
    if r == Reserved && exists k :: 0 <= k < |calls| && Settles(calls[k]) {
      var k: nat :| k < |calls| && Settles(calls[k]);
      var j := FirstSettlement(calls, k);
      DecisionStands(c, calls, j);
      assert forall i: nat :: DecidesAt(calls, i) ==> i == j;
    } else {
      SettledStays(c, r, calls);
    }
  }
}
