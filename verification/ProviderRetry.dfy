/**
 The gap in a provider retry between its eligibility check and its transaction. The check promises
 that only a failure known to precede any contact with the provider is resent elsewhere; the
 transaction re-reads the state alone.
 */
module ProviderRetry {
  import opened Options
  import opened MessageLifecycle
  import opened MR = MessageRow
  import opened DeliveryProtocol
  import opened JobRefinement
  import opened OutboundMessages
  import opened AttemptRows
  import opened RowLaws

  /** Where a row that failed as `r` can have got to: it is still that failure, waits for or gave up
      its next attempt, or has taken another attempt. */
  predicate Since(r: Row, t: Row) {
    || t.attemptCount > r.attemptCount
    || (t.attemptCount == r.attemptCount && (t.state == Queued || t.state == Cancelled))
    || SameFailure(r, t)
  }

  /** Nothing has happened to the failed row, except that it may be hidden, flagged or settled in usage. */
  predicate SameFailure(r: Row, t: Row) {
    && t == r.(userDeletedAt := t.userDeletedAt, flaggedAt := t.flaggedAt, reservation := t.reservation)
    && (r.flaggedAt.Some? ==> t.flaggedAt == r.flaggedAt)
  }

  lemma StepKeepsSince(c: Config, s: Sys, e: Event, r: Row)
    requires r.state == Failed && Since(r, s.row) && Enabled(c, s, e)
    ensures Since(r, Apply(c, s, e).row)
  {
    match e
    case Acts(a) => ActionKeepsSince(c, s.row, s.now, a, r);
    case _ =>
  }

  lemma ActionKeepsSince(c: Config, row: Row, now: int, a: Action, r: Row)
    requires r.state == Failed && Since(r, row)
    ensures Since(r, Perform(c, row, now, a).row)
  {
  }

  lemma {:induction false} RunKeepsSince(c: Config, s: Sys, ev: seq<Event>)
    requires s.row.state == Failed && Runs(c, s, ev)
    ensures Since(s.row, After(c, s, ev).row)
    decreases |ev|
  {
    if ev != [] {
      RunKeepsSince(c, s, ev[..|ev| - 1]);
      StepKeepsSince(c, After(c, s, ev[..|ev| - 1]), ev[|ev| - 1], s.row);
    }
  }

  /** When the transaction of a retry finds the message failed, it is the failure the check looked at
      exactly if no attempt was made in between, and then an eligible one is still eligible unless flagged
      since: re-reading the attempt count and the flag under the lock would tell. */
  lemma SameFailureIffSameAttempt(c: Config, s: Sys, ev: seq<Event>)
    requires s.row.state == Failed && Runs(c, s, ev) && After(c, s, ev).row.state == Failed
    ensures var t := After(c, s, ev).row;
      && (SameFailure(s.row, t) <==> t.attemptCount == s.row.attemptCount)
      && (t.attemptCount == s.row.attemptCount ==>
          (FailoverEligible(t) <==> FailoverEligible(s.row) && t.flaggedAt.None?))
  {
    RunKeepsSince(c, s, ev);
  }

  /** The provider accepted the message and bounced it, and a check passed earlier lets the retry send it. */
  predicate BouncedYetRetried(c: Config, s: Sys) {
    && s.row.failureCode == Some(ProviderBounce) && !FailoverEligible(s.row)
    && Perform(c, s.row, s.now, RetriesWithProvider(true, Accepted, None)).row.state == Sent
  }

  lemma RetriedIsSent(c: Config, s: Sys, w: nat) returns (ev: seq<Event>)
    requires s.row.state == Failed && w !in s.workers
    requires s.row.failureCode.Some? ==> !NonRetryable(s.row.failureCode.value)
    ensures Runs(c, s, ev) && After(c, s, ev).row.state == Sent
    ensures After(c, s, ev).ledger.bounced == s.ledger.bounced && After(c, s, ev).ledger.lost == s.ledger.lost
  {
    var t := s;
    ev, t := Next(c, s, [], t, Acts(Retries(true)));
    var job := JobEnds(c, t, w, None, Accepted, None);
    Continue(c, s, ev, job);
    ev := ev + job;
  }

  /** Without that guard the promise fails. From every failed message its user may retry, checked or not,
      a run leads to the same message accepted by the provider, bounced, and open to the retry. */
  lemma RetryMayFollowABounce(c: Config, s: Sys, w: nat) returns (ev: seq<Event>)
    requires s.row.state == Failed && w !in s.workers
    requires s.row.failureCode.Some? ==> !NonRetryable(s.row.failureCode.value)
    ensures Runs(c, s, ev) && BouncedYetRetried(c, After(c, s, ev))
  {
    ev := RetriedIsSent(c, s, w);
    var t := After(c, s, ev);
    SentCanBounce(c, t);
    ev, t := Next(c, s, ev, t, Acts(ProviderFails(ProviderBounce)));
  }

  lemma SentCanBounce(c: Config, s: Sys)
    requires s.row.state == Sent
    ensures BouncedYetRetried(c, StepAct(c, s, ProviderFails(ProviderBounce)))
  {
  }

  /** The latest delivery-attempt row that is still there has an outcome. */
  ghost predicate LatestCompleted(l: Ledger) {
    exists k :: k in l.records && l.records[k].completed && forall j | j in l.records :: j <= k
  }

  /** All that the eligibility check looks at: the row, and the latest delivery-attempt row. A row marked
      ambiguous needs no check of its own, since the flag is set with the mark and never cleared. */
  ghost predicate Eligible(s: Sys) {
    FailoverEligible(s.row) && LatestCompleted(s.ledger)
  }

  /** The job of a new message meets a transport that is declared unavailable. */
  lemma FailsUnavailable(c: Config, s: Sys) returns (ev: seq<Event>)
    requires s.row == NewQueued(c, 0) && s.workers == map[] && s.ledger == EMPTY_LEDGER.(reserves := 1)
    ensures Runs(c, s, ev)
    ensures var t := After(c, s, ev);
      && Eligible(t) && 1 !in t.workers && t.row.failureCode == Some(TransportUnavailable)
      && t.ledger.bounced == 0
  {
    ev := JobEnds(c, s, 0, None, PermanentFailure, Some(TransportUnavailable));
    assert After(c, s, ev).ledger.records[1].completed;
  }

  /** A message that passed the check and is resent after bouncing does occur. */
  lemma CheckedThenBounced(c: Config) returns (s0: Sys, before: seq<Event>, between: seq<Event>)
    ensures Init(c, s0) && Runs(c, s0, before) && Runs(c, After(c, s0, before), between)
    ensures Eligible(After(c, s0, before))
    ensures BouncedYetRetried(c, After(c, After(c, s0, before), between))
  {
    s0 := Sys(NewQueued(c, 0), 0, map[], EMPTY_LEDGER.(reserves := 1));
    before := FailsUnavailable(c, s0);
    between := RetryMayFollowABounce(c, After(c, s0, before), 1);
  }

  // ----- what a retry leaves behind -----

  lemma RetryCompletesTheLatest(c: Config, s: Sys, result: TransportResult, code: Option<FailureCode>)
    requires s.row.state == Failed && OwnRowInFlight(s.row, s.ledger)
    ensures LatestCompleted(StepAct(c, s, RetriesWithProvider(true, result, code)).ledger)
  {
    var t := StepAct(c, s, RetriesWithProvider(true, result, code));
    assert t.ledger.records[t.row.attemptCount].completed;
  }

  /** In every reachable state a provider retry that is not accepted leaves the message open to another one
      exactly if the transport's own answer is one of the five that precede any contact with the provider. */
  lemma RetriedAgainIffAnswerIsSafe(c: Config, s: Sys, result: TransportResult, code: Option<FailureCode>)
    requires Reachable(c, s) && s.row.state == Failed && result != Accepted
    ensures var t := StepAct(c, s, RetriesWithProvider(true, result, code));
      && t.row.state == Failed
      && (Eligible(t) <==>
            && s.row.flaggedAt.None?
            && code in {Some(InvalidConfig), Some(InvalidMailer), Some(InvalidTransport),
                        Some(TransportUnavailable), Some(DnsFailure)})
  {
    var s0, ev :| Init(c, s0) && Runs(c, s0, ev) && After(c, s0, ev) == s;
    RowInFlightIsItsOwn(c, s0, ev);
    RetryCompletesTheLatest(c, s, result, code);
    RetryLeavesItsAnswer(c, s.row, s.now, true, result, code);
  }

  lemma UnsafeFailureBlocksRetries(c: Config, t: Sys, ev: seq<Event>)
    requires t.row.state == Failed && !FailoverEligible(t.row.(flaggedAt := None)) && Runs(c, t, ev)
    ensures Eligible(After(c, t, ev)) ==> After(c, t, ev).row.attemptCount > t.row.attemptCount
  {
    RunKeepsSince(c, t, ev);
  }

  /** After any other answer no continuation finds the message eligible until another attempt was made. */
  lemma UnsafeAnswerEndsRetries(c: Config, s: Sys, result: TransportResult, code: Option<FailureCode>, ev: seq<Event>)
    requires s.row.state == Failed && result != Accepted
    requires code !in {Some(InvalidConfig), Some(InvalidMailer), Some(InvalidTransport),
                       Some(TransportUnavailable), Some(DnsFailure)}
    requires Runs(c, StepAct(c, s, RetriesWithProvider(true, result, code)), ev)
    ensures var t := StepAct(c, s, RetriesWithProvider(true, result, code));
      Eligible(After(c, t, ev)) ==> After(c, t, ev).row.attemptCount > t.row.attemptCount
  {
    RetryLeavesItsAnswer(c, s.row, s.now, true, result, code);
    UnsafeFailureBlocksRetries(c, StepAct(c, s, RetriesWithProvider(true, result, code)), ev);
  }

  // ----- a retry that dies before its commit -----

  /** The events of a retry whose check is made now: it passes only an eligible message. */
  ghost predicate CheckedNow(s: Sys, e: Event) {
    && (e.RetryDies? ==> e.passed == Eligible(s))
    && (e.Acts? && e.action.RetriesWithProvider? ==> e.action.checked ==> Eligible(s))
  }

  /** A retry that checked an eligible message and died after its submission was accepted leaves the message
      as it was, so the next retry passes its check and is accepted again. */
  lemma LostRetryIsSentAgain(c: Config, s: Sys)
    requires Eligible(s)
    ensures var lost, again := RetryDies(true, Accepted), Acts(RetriesWithProvider(true, Accepted, None));
      && CheckedNow(s, lost) && Enabled(c, s, lost) && Apply(c, s, lost).row == s.row
      && CheckedNow(Apply(c, s, lost), again) && Enabled(c, Apply(c, s, lost), again)
      && (var t := Apply(c, Apply(c, s, lost), again);
          t.row.state == Sent && t.ledger.accepted == s.ledger.accepted + 2 && t.ledger.bounced == s.ledger.bounced)
  {
  }

  /** Two provider retries of a failed message, each checked on the row it finds, are both accepted. */
  ghost predicate SentTwice(c: Config, s: Sys, first: Event, second: Event) {
    && (first.RetryDies? || (first.Acts? && first.action.RetriesWithProvider?))
    && (second.RetryDies? || (second.Acts? && second.action.RetriesWithProvider?))
    && Enabled(c, s, first) && CheckedNow(s, first)
    && Enabled(c, Apply(c, s, first), second) && CheckedNow(Apply(c, s, first), second)
    && Apply(c, Apply(c, s, first), second).ledger.accepted == s.ledger.accepted + 2
  }

  /** The eligibility guard decides from which failed messages a provider retry can go out twice: exactly the
      eligible ones, although it was meant to exclude duplicates. */
  lemma DuplicateFollowsIffEligible(c: Config, s: Sys)
    requires s.row.state == Failed
    ensures (exists first, second :: SentTwice(c, s, first, second)) <==> Eligible(s)
  {
    if Eligible(s) {
      LostRetryIsSentAgain(c, s);
      assert SentTwice(c, s, RetryDies(true, Accepted), Acts(RetriesWithProvider(true, Accepted, None)));
    } else {
      forall first, second ensures !SentTwice(c, s, first, second) {
        if Enabled(c, s, first) && first.Acts? && first.action.RetriesWithProvider? && CheckedNow(s, first) {
          assert Apply(c, s, first) == s;
        }
      }
    }
  }

  /** Whatever the configuration, some run has a message accepted twice without a bounce, every provider retry
      in it having passed its check. */
  lemma SomeRunSendsTwice(c: Config) returns (s0: Sys, failed: seq<Event>, ev: seq<Event>)
    ensures Init(c, s0) && Runs(c, s0, failed) && Runs(c, s0, ev)
    ensures Eligible(After(c, s0, failed))
    ensures ev == failed + [RetryDies(true, Accepted), Acts(RetriesWithProvider(true, Accepted, None))]
    ensures After(c, s0, ev).ledger.accepted >= 2 && After(c, s0, ev).ledger.bounced == 0
  {
    s0 := Sys(NewQueued(c, 0), 0, map[], EMPTY_LEDGER.(reserves := 1));
    failed := FailsUnavailable(c, s0);
    var s := After(c, s0, failed);
    LostRetryIsSentAgain(c, s);
    Extend(c, s0, failed, RetryDies(true, Accepted));
    var lost := failed + [RetryDies(true, Accepted)];
    Extend(c, s0, lost, Acts(RetriesWithProvider(true, Accepted, None)));
    ev := lost + [Acts(RetriesWithProvider(true, Accepted, None))];
    assert ev == failed + [RetryDies(true, Accepted), Acts(RetriesWithProvider(true, Accepted, None))];
  }
}
