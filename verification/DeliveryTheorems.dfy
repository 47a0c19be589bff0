/** Safety of outbound delivery over whole runs. */
module DeliveryTheorems {
  import opened Options
  import opened MessageLifecycle
  import opened MR = MessageRow
  import opened DeliveryProtocol
  import opened DeliveryAccounting

  // ----- accounting and mutual exclusion -----

  lemma BooksTell(row: Row, l: Ledger)
    requires Books(row, l)
    ensures row.state in {Draft, Scheduled, Queued, Cancelled, Failed} ==> l.accepted == Past(l)
    ensures row.state in {Sent, Delivered} ==> l.accepted == Past(l) + 1
    ensures row.state == Sending && row.transportAttemptedAt.None? ==> l.accepted == Past(l) && l.callsThisAttempt == 0
    ensures Past(l) <= l.accepted <= Past(l) + 1
  {
  }

  /** In every reachable state the accepted submissions are known exactly from the row and the ones that
      are over, except while a marked attempt is in flight or its worker is lost. */
  lemma AcceptedSubmissionsAreAccounted(c: Config, s: Sys)
    requires Reachable(c, s) && TimeoutBeforeStale(c)
    ensures s.row.state in {Draft, Scheduled, Queued, Cancelled, Failed} ==> s.ledger.accepted == Past(s.ledger)
    ensures s.row.state in {Sent, Delivered} ==> s.ledger.accepted == Past(s.ledger) + 1
    ensures s.row.state == Sending && s.row.transportAttemptedAt.None? ==>
              s.ledger.accepted == Past(s.ledger) && s.ledger.callsThisAttempt == 0
    ensures Past(s.ledger) <= s.ledger.accepted <= Past(s.ledger) + 1
  {
    ReachableIsSafe(c, s);
    BooksTell(s.row, s.ledger);
  }

  /** At most one worker is between its claim and its outcome; the row is `Sending` under its own
      attempt number meanwhile, and is marked before the transport is called. */
  lemma OneWorkerInFlight(c: Config, s: Sys, v: nat, w: nat)
    requires Reachable(c, s) && TimeoutBeforeStale(c) && Live(s, v) && Live(s, w)
    ensures v == w && s.row.state == Sending && s.workers[w].attempt == s.row.attemptCount
    ensures s.workers[w].phase == Claimed <==> s.row.transportAttemptedAt.None?
  {
    ReachableIsSafe(c, s);
  }

  // ----- exactly when reconciliation is safe -----

  /** Requeueing or failing an unmarked stale message is right exactly when its claimant is dead. */
  lemma ReconciliationNeedsADeadClaimant(c: Config, s: Sys)
    requires Safe(c, s) && Perform(c, s.row, s.now, Reconciles).reply == Done && s.row.transportAttemptedAt.None?
    ensures Safe(c, StepAct(c, s, Reconciles)) <==> forall w :: !Live(s, w)
  {
    var t := StepAct(c, s, Reconciles);
    assert forall w :: Live(t, w) == Live(s, w);
    ActionKeepsBooks(c, s, Reconciles);
    if w :| Live(s, w) {
      assert !Owns(c, t.row, t.now, t.ledger, t.workers[w]);
    }
  }

  /** If a claimant is still live when its message is queued again, both submissions can be accepted. */
  lemma StalledClaimantSendsTwice(c: Config, s: Sys, v: nat, w: nat) returns (ev: seq<Event>)
    requires s.row.state == Queued && InPhase(s, v, Claimed) && w !in s.workers
    ensures Runs(c, s, ev)
    ensures After(c, s, ev).ledger.accepted == s.ledger.accepted + 2
    ensures After(c, s, ev).ledger.bounced == s.ledger.bounced && After(c, s, ev).ledger.lost == s.ledger.lost
  {
    var first, m := Three(c, s, JobClaims(w), JobMarks(w), JobSubmits(w, Accepted));
    var second, t := Three(c, m, JobRecords(w, None), JobMarks(v), JobSubmits(v, Accepted));
    Continue(c, s, first, second);
    ev := first + second;
  }

  /** A claimant that does nothing until its message counts as stale, and is still within its job timeout. */
  lemma ClaimantStalls(c: Config) returns (s0: Sys, ev: seq<Event>, t: Sys)
    requires !TimeoutBeforeStale(c)
    ensures Init(c, s0) && Runs(c, s0, ev) && After(c, s0, ev) == t
    ensures t.row == Claim(c, NewQueued(c, 0), 0).row && t.now == StaleThreshold(c)
    ensures t.workers == map[0 := Worker(1, 0, Claimed)]
    ensures t.ledger == Start(EMPTY_LEDGER.(reserves := 1), 1, 0)
  {
    s0 := Sys(NewQueued(c, 0), 0, map[], EMPTY_LEDGER.(reserves := 1));
    assert StepClaim(c, s0, 0).workers == map[0 := Worker(1, 0, Claimed)];
    ev, t := Two(c, s0, JobClaims(0), TimePasses(StaleThreshold(c)));
  }

  lemma StalledIsRequeued(c: Config, t: Sys)
    requires t.row == Claim(c, NewQueued(c, 0), 0).row && t.now == StaleThreshold(c)
    requires t.ledger == Start(EMPTY_LEDGER.(reserves := 1), 1, 0)
    ensures var u := StepAct(c, t, Reconciles);
      var v := if MaxAttempts(c) == 1 then StepAct(c, u, Retries(true)) else u;
      && v.row.state == Queued && v.row.attemptCount == 1 && v.workers == t.workers
      && v.row.reservation == NewQueued(c, 0).reservation
      && v.ledger == t.ledger.(manualRetries := if MaxAttempts(c) == 1 then 1 else 0)
  {
    assert IsStale(c, t.row, t.now);
  }

  /** With a job timeout at or beyond the stale threshold, reconciliation can requeue (or fail, and a
      user retry) a message whose first claimant is merely slow. */
  lemma SlowClaimantIsRequeued(c: Config) returns (s0: Sys, ev: seq<Event>)
    requires !TimeoutBeforeStale(c)
    ensures Init(c, s0) && Runs(c, s0, ev)
    ensures var s := After(c, s0, ev);
      && s.row.state == Queued && s.row.attemptCount == 1 && s.row.reservation == NewQueued(c, 0).reservation
      && s.workers == map[0 := Worker(1, 0, Claimed)]
      && s.ledger == Start(EMPTY_LEDGER.(reserves := 1), 1, 0).(manualRetries := if MaxAttempts(c) == 1 then 1 else 0)
  {
    var t;
    s0, ev, t := ClaimantStalls(c);
    StalledIsRequeued(c, t);
    ev, t := Next(c, s0, ev, t, Acts(Reconciles));
    if MaxAttempts(c) == 1 {
      ev, t := Next(c, s0, ev, t, Acts(Retries(true)));
    }
  }

  lemma SlowClaimantIsReachable(c: Config) returns (t: Sys)
    requires !TimeoutBeforeStale(c)
    ensures Reachable(c, t) && t.row.state == Queued && t.workers == map[0 := Worker(1, 0, Claimed)]
  {
    var s0, ev := SlowClaimantIsRequeued(c);
    t := After(c, s0, ev);
  }

  /** At most one worker is in flight on every run exactly when the job timeout is below the stale
      threshold. */
  lemma OneWorkerIffTimeoutBeforeStale(c: Config)
    ensures (forall s :: Reachable(c, s) ==> Exclusive(s)) <==> TimeoutBeforeStale(c)
  {
    if TimeoutBeforeStale(c) {
      forall s | Reachable(c, s) ensures Exclusive(s) {
        ReachableIsSafe(c, s);
      }
    } else {
      var t := SlowClaimantIsReachable(c);
      ReachableStep(c, t, JobClaims(1));
      var s := StepClaim(c, t, 1);
      assert Live(s, 0) && Live(s, 1);
    }
  }

  /** Unless a provider retry dies after its submission was accepted, no configuration but a job timeout
      below the stale threshold makes duplicate acceptance impossible on every run, and that one does.
      `ProviderRetry` says what happens if one does. */
  lemma AtMostOnceIffTimeoutBeforeStale(c: Config)
    ensures (forall s :: Reachable(c, s) && s.ledger.lost == 0 ==> s.ledger.accepted <= s.ledger.bounced + 1)
            <==> TimeoutBeforeStale(c)
  {
    if TimeoutBeforeStale(c) {
      forall s | Reachable(c, s) && s.ledger.lost == 0 ensures s.ledger.accepted <= s.ledger.bounced + 1 {
        AcceptedSubmissionsAreAccounted(c, s);
      }
    } else {
      var s0, ev := SlowClaimantIsRequeued(c);
      var more := StalledClaimantSendsTwice(c, After(c, s0, ev), 0, 1);
      Continue(c, s0, ev, more);
      var s := After(c, s0, ev + more);
      assert Reachable(c, s) && s.ledger.accepted == 2 && s.ledger.bounced == 0 && s.ledger.lost == 0;
    }
  }

  // ----- attempts -----

  ghost predicate Increasing(a: seq<nat>) {
    forall i, j | 0 <= i < j < |a| :: a[i] < a[j]
  }

  ghost predicate Numbered(row: Row, l: Ledger) {
    Increasing(l.attempts) && forall i | 0 <= i < |l.attempts| :: 1 <= l.attempts[i] <= row.attemptCount
  }

  lemma StepKeepsNumbered(c: Config, s: Sys, e: Event)
    requires Numbered(s.row, s.ledger) && Enabled(c, s, e)
    ensures Numbered(Apply(c, s, e).row, Apply(c, s, e).ledger)
  {
    StepNumbers(c, s, e);
  }

  lemma StepNumbers(c: Config, s: Sys, e: Event)
    requires Enabled(c, s, e)
    ensures var t := Apply(c, s, e);
      || (t.ledger.attempts == s.ledger.attempts && t.row.attemptCount == s.row.attemptCount)
      || (t.ledger.attempts == s.ledger.attempts + [s.row.attemptCount + 1]
          && t.row.attemptCount == s.row.attemptCount + 1)
  {
    match e
    case Acts(a) => ActionNumbers(c, s, a);
    case _ =>
  }

  lemma ActionNumbers(c: Config, s: Sys, a: Action)
    ensures var t := StepAct(c, s, a);
      || (t.ledger.attempts == s.ledger.attempts && t.row.attemptCount == s.row.attemptCount)
      || (t.ledger.attempts == s.ledger.attempts + [s.row.attemptCount + 1]
          && t.row.attemptCount == s.row.attemptCount + 1)
  {
  }

  lemma {:induction false} RunKeepsNumbered(c: Config, s: Sys, ev: seq<Event>)
    requires Numbered(s.row, s.ledger) && Runs(c, s, ev)
    ensures Numbered(After(c, s, ev).row, After(c, s, ev).ledger)
    decreases |ev|
  {
    if ev != [] {
      RunKeepsNumbered(c, s, ev[..|ev| - 1]);
      StepKeepsNumbered(c, After(c, s, ev[..|ev| - 1]), ev[|ev| - 1]);
    }
  }

  /** No two attempts of a message share a number, however many workers run and whatever the timeouts,
      so the unique delivery-attempt row is never violated. */
  lemma AttemptNumbersAreDistinct(c: Config, s: Sys)
    requires Reachable(c, s)
    ensures forall i, j | 0 <= i < j < |s.ledger.attempts| :: s.ledger.attempts[i] != s.ledger.attempts[j]
    ensures forall i | 0 <= i < |s.ledger.attempts| :: 1 <= s.ledger.attempts[i] <= s.row.attemptCount
  {
    var s0, ev :| Init(c, s0) && Runs(c, s0, ev) && After(c, s0, ev) == s;
    RunKeepsNumbered(c, s0, ev);
  }

  /** The attempt budget: one more attempt than the configured maximum per manual retry. */
  predicate Budgeted(c: Config, s: Sys) {
    && s.row.attemptCount <= MaxAttempts(c) + s.ledger.manualRetries
    && (s.row.state == Queued ==> s.row.attemptCount < MaxAttempts(c) + s.ledger.manualRetries)
    && (Unsent(s.row.state) ==> s.row.attemptCount == 0)
  }

  lemma StepKeepsBudget(c: Config, s: Sys, e: Event)
    requires Safe(c, s) && Budgeted(c, s) && Enabled(c, s, e)
    ensures Budgeted(c, Apply(c, s, e))
  {
    match e
    case Acts(a) => ActionKeepsBudget(c, s, a);
    case JobRecords(w, _) => assert Live(s, w);
    case _ =>
  }

  lemma ActionKeepsBudget(c: Config, s: Sys, a: Action)
    requires Budgeted(c, s)
    ensures Budgeted(c, StepAct(c, s, a))
  {
  }

  lemma {:induction false} RunKeepsBudget(c: Config, s: Sys, ev: seq<Event>)
    requires Safe(c, s) && TimeoutBeforeStale(c) && Budgeted(c, s) && Runs(c, s, ev)
    ensures Budgeted(c, After(c, s, ev))
    decreases |ev|
  {
    if ev != [] {
      var front := ev[..|ev| - 1];
      RunKeepsBudget(c, s, front);
      RunKeepsSafe(c, s, front);
      StepKeepsBudget(c, After(c, s, front), ev[|ev| - 1]);
    }
  }

  lemma ReachableIsBudgeted(c: Config, s: Sys)
    requires Reachable(c, s) && TimeoutBeforeStale(c)
    ensures Safe(c, s) && Budgeted(c, s)
  {
    ReachableIsSafe(c, s);
    var s0, ev :| Init(c, s0) && Runs(c, s0, ev) && After(c, s0, ev) == s;
    InitIsSafe(c, s0);
    RunKeepsBudget(c, s0, ev);
  }

  /** The attempt count never exceeds the maximum plus the manual retries, and is below it while another
      attempt is still to come. */
  lemma AttemptsAreBounded(c: Config, s: Sys)
    requires Reachable(c, s) && TimeoutBeforeStale(c)
    ensures s.row.attemptCount <= Max(1, c.sendMaxAttempts) + s.ledger.manualRetries
    ensures s.row.state == Queued ==> s.row.attemptCount <= Max(1, c.sendMaxAttempts) - 1 + s.ledger.manualRetries
  {
    ReachableIsBudgeted(c, s);
  }

  // ----- phase order -----

  /** The step is an accepted provider retry of a failed message that passed its checks. */
  predicate RetrySucceeds(s: Sys, e: Event) {
    s.row.state == Failed && e.Acts? && e.action.RetriesWithProvider? && e.action.checked && e.action.result == Accepted
  }

  /** A committed change of state leaves the lifecycle table exactly when it is an accepted provider
      retry, which takes a failed message straight to sent. */
  lemma StepsFollowTheTable(c: Config, s: Sys, e: Event)
    requires Enabled(c, s, e)
    ensures var t := Apply(c, s, e).row.state;
      t != s.row.state && !CanTransitionTo(s.row.state, t) <==> RetrySucceeds(s, e)
    ensures RetrySucceeds(s, e) ==> Apply(c, s, e).row.state == Sent
  {
  }

  /** The job's outcome is the one the transport-result table names for its own attempt number, if the
      message is still being sent; with the job timeout below the stale threshold it always is, and the
      number is the row's. */
  lemma JobFollowsTheTransportTable(c: Config, s: Sys, w: nat, code: Option<FailureCode>)
    requires Enabled(c, s, JobRecords(w, code))
    ensures var t := Apply(c, s, JobRecords(w, code)).row;
      if s.row.state == Sending
      then t.state == ToMessageState(s.workers[w].phase.result, s.workers[w].attempt < Max(1, c.sendMaxAttempts))
      else t == s.row
    ensures var attempt, done := s.workers[w].attempt, Apply(c, s, JobRecords(w, code)).ledger.completed;
      attempt in done <==>
        attempt in s.ledger.completed || s.row.state == Sending || s.workers[w].phase.result == TemporaryFailure
    ensures Reachable(c, s) && TimeoutBeforeStale(c) ==>
              s.row.state == Sending && s.workers[w].attempt == s.row.attemptCount
  {
    if Reachable(c, s) && TimeoutBeforeStale(c) {
      OneWorkerInFlight(c, s, w, w);
    }
  }

  lemma ActionGoesOnward(c: Config, row: Row, now: int, a: Action)
    ensures Onward(row, Perform(c, row, now, a).row)
  {
  }

  lemma StepGoesOnward(c: Config, s: Sys, e: Event)
    requires Enabled(c, s, e)
    ensures Onward(s.row, Apply(c, s, e).row)
  {
    match e
    case Acts(a) => ActionGoesOnward(c, s.row, s.now, a);
    case _ =>
  }

  /** Once queued, a message is never a draft or scheduled again, and its content fingerprint is
      fixed; cancelled and delivered are final. On every continuation of any state. */
  lemma {:induction false} NoWayBack(c: Config, s: Sys, ev: seq<Event>)
    requires Runs(c, s, ev)
    ensures Onward(s.row, After(c, s, ev).row)
    decreases |ev|
  {
    if ev != [] {
      var front := ev[..|ev| - 1];
      NoWayBack(c, s, front);
      StepGoesOnward(c, After(c, s, front), ev[|ev| - 1]);
    }
  }

  // ----- cancel versus claim -----

  /** Of a cancel and a claim that both find the message queued, exactly the first one wins. */
  lemma CancelAndClaimExclude(c: Config, s: Sys, w: nat)
    requires s.row.state == Queued && w !in s.workers
    ensures var cancelled := StepAct(c, s, Cancels);
      cancelled.row.state == Cancelled && StepClaim(c, cancelled, w).row == cancelled.row
      && !Live(StepClaim(c, cancelled, w), w)
    ensures var claimed := StepClaim(c, s, w);
      claimed.row.state == Sending && Live(claimed, w)
      && Perform(c, claimed.row, claimed.now, Cancels) == Refuse(claimed.row, CancelNotAllowed)
  {
  }

  lemma OnlySendingHasWorkers(c: Config, s: Sys)
    requires Safe(c, s) && s.row.state != Sending
    ensures forall w :: !Live(s, w)
  {
  }

  lemma CancelledStepIsInert(c: Config, s: Sys, e: Event)
    requires s.row.state == Cancelled && (forall w :: !Live(s, w)) && Enabled(c, s, e)
    ensures var t := Apply(c, s, e);
      && t.row.state == Cancelled && (forall w :: !Live(t, w))
      && t.ledger.transportCalls == s.ledger.transportCalls && t.ledger.accepted == s.ledger.accepted
  {
    assert e.JobRefuses? || e.JobMarks? || e.JobSubmits? || e.JobRecords? || e.JobDies? ==> Live(s, e.worker);
    var t := Apply(c, s, e);
    assert forall w :: Live(t, w) ==> Live(s, w);
  }

  /** A cancelled message without a live worker stays cancelled, and the transport is never called for it
      again. */
  lemma {:induction false} CancelIsFinal(c: Config, s: Sys, ev: seq<Event>)
    requires s.row.state == Cancelled && (forall w :: !Live(s, w)) && Runs(c, s, ev)
    ensures var t := After(c, s, ev);
      && t.row.state == Cancelled
      && t.ledger.transportCalls == s.ledger.transportCalls && t.ledger.accepted == s.ledger.accepted
      && forall w :: !Live(t, w)
    decreases |ev|
  {
    if ev != [] {
      var front, e := ev[..|ev| - 1], ev[|ev| - 1];
      CancelIsFinal(c, s, front);
      CancelledStepIsInert(c, After(c, s, front), e);
    }
  }

  /** A successful cancel, or a user's delete of a queued or scheduled message, stops delivery for
      good: nothing is in flight, no continuation calls the transport, and a delete stays visible. */
  lemma CancelStopsDelivery(c: Config, s: Sys, a: Action, ev: seq<Event>)
    requires Reachable(c, s) && TimeoutBeforeStale(c)
    requires a == Cancels || (a == Deletes && s.row.state in {Queued, Scheduled})
    requires Perform(c, s.row, s.now, a).reply == Done
    requires Runs(c, StepAct(c, s, a), ev)
    ensures var t := After(c, StepAct(c, s, a), ev);
      && t.row.state == Cancelled && (forall w :: !Live(t, w))
      && t.ledger.transportCalls == s.ledger.transportCalls
      && (a == Deletes ==> t.row.userDeletedAt == Some(s.now))
  {
    ReachableIsSafe(c, s);
    ActionKeepsSafe(c, s, a);
    OnlySendingHasWorkers(c, StepAct(c, s, a));
    CancelIsFinal(c, StepAct(c, s, a), ev);
    NoWayBack(c, StepAct(c, s, a), ev);
  }

  /** That no transport call follows a cancel on any run holds exactly when the job timeout is below the
      stale threshold: a claimant that lost its message to the queue calls it even if cancelled since. */
  lemma CancelStopsDeliveryIffTimeoutBeforeStale(c: Config)
    ensures (forall s, ev :: Reachable(c, s) && s.row.state == Cancelled && Runs(c, s, ev) ==>
               After(c, s, ev).ledger.transportCalls == s.ledger.transportCalls)
            <==> TimeoutBeforeStale(c)
  {
    if TimeoutBeforeStale(c) {
      forall s, ev | Reachable(c, s) && s.row.state == Cancelled && Runs(c, s, ev)
        ensures After(c, s, ev).ledger.transportCalls == s.ledger.transportCalls
      {
        ReachableIsSafe(c, s);
        OnlySendingHasWorkers(c, s);
        CancelIsFinal(c, s, ev);
      }
    } else {
      var s := CancelledBehindASlowClaimant(c);
      var more := ClaimantSubmits(c, s, 0);
    }
  }

  lemma CancelledBehindASlowClaimant(c: Config) returns (s: Sys)
    requires !TimeoutBeforeStale(c)
    ensures Reachable(c, s) && s.row.state == Cancelled && InPhase(s, 0, Claimed)
  {
    var t := SlowClaimantIsReachable(c);
    ReachableStep(c, t, Acts(Cancels));
    s := StepAct(c, t, Cancels);
  }

  lemma ClaimantSubmits(c: Config, s: Sys, w: nat) returns (ev: seq<Event>)
    requires InPhase(s, w, Claimed)
    ensures Runs(c, s, ev) && After(c, s, ev).ledger.transportCalls == s.ledger.transportCalls + 1
  {
    var t;
    ev, t := Two(c, s, JobMarks(w), JobSubmits(w, Accepted));
  }

  // ----- lost workers -----

  /** Nobody works on the message, and its marker or a flag keeps reconciliation away from it. */
  ghost predicate Abandoned(s: Sys) {
    && s.row.state == Sending && (s.row.transportAttemptedAt.Some? || s.row.flaggedAt.Some?)
    && forall w :: !Live(s, w)
  }

  /** A marked or flagged attempt whose worker is lost is never resent, failed or settled by anyone: no
      event takes the message out of `Sending`, on any continuation. */
  lemma {:induction false} LostAttemptStaysForever(c: Config, s: Sys, ev: seq<Event>)
    requires Abandoned(s) && Runs(c, s, ev)
    ensures Abandoned(After(c, s, ev)) && After(c, s, ev).ledger.transportCalls == s.ledger.transportCalls
    decreases |ev|
  {
    if ev != [] {
      var front, e := ev[..|ev| - 1], ev[|ev| - 1];
      LostAttemptStaysForever(c, s, front);
      AbandonedStepIsInert(c, After(c, s, front), e);
    }
  }

  lemma AbandonedStepIsInert(c: Config, s: Sys, e: Event)
    requires Abandoned(s) && Enabled(c, s, e)
    ensures Abandoned(Apply(c, s, e)) && Apply(c, s, e).ledger.transportCalls == s.ledger.transportCalls
  {
    var t := Apply(c, s, e);
    if e.Acts? {
      SendingIsUndisturbed(c, s.row, s.now, e.action);
    }
    assert e.JobRefuses? || e.JobMarks? || e.JobSubmits? || e.JobRecords? || e.JobDies? ==> Live(s, e.worker);
    assert forall w :: Live(t, w) ==> Live(s, w);
  }

  /** What the clock says of the workers, for any timeouts: a live one has not passed its own deadline, and
      the row was last claimed no earlier than by it. */
  ghost predicate Timely(c: Config, s: Sys) {
    && (s.row.state == Sending ==> s.row.sendingAt.Some?)
    && forall w :: Live(s, w) ==> WithinDeadline(c, s.row, s.now, s.workers[w])
  }

  predicate WithinDeadline(c: Config, row: Row, now: int, w: Worker) {
    && row.sendingAt.Some?
    && w.claimedAt <= row.sendingAt.value <= now <= w.claimedAt + c.workerTimeoutSeconds
  }

  lemma ActionKeepsTimely(c: Config, s: Sys, a: Action)
    requires Timely(c, s)
    ensures Timely(c, StepAct(c, s, a))
  {
    ActionKeepsClaimTime(c, s.row, s.now, a);
    assert forall w :: Live(StepAct(c, s, a), w) == Live(s, w);
  }

  lemma ActionKeepsClaimTime(c: Config, row: Row, now: int, a: Action)
    ensures var t := Perform(c, row, now, a).row;
      && (t.sendingAt == row.sendingAt || t.sendingAt == Some(now))
      && (t.state == Sending ==> row.state == Sending)
  {
  }

  lemma StepKeepsTimely(c: Config, s: Sys, e: Event)
    requires Timely(c, s) && Enabled(c, s, e)
    ensures Timely(c, Apply(c, s, e))
  {
    if e.Acts? {
      ActionKeepsTimely(c, s, e.action);
    } else {
      var t := Apply(c, s, e);
      forall w | Live(t, w) ensures WithinDeadline(c, t.row, t.now, t.workers[w]) {
        if !e.JobClaims? || w != e.worker {
          assert Live(s, w);
        }
      }
    }
  }

  lemma {:induction false} RunKeepsTimely(c: Config, s: Sys, ev: seq<Event>)
    requires Timely(c, s) && Runs(c, s, ev)
    ensures Timely(c, After(c, s, ev))
    decreases |ev|
  {
    if ev != [] {
      RunKeepsTimely(c, s, ev[..|ev| - 1]);
      StepKeepsTimely(c, After(c, s, ev[..|ev| - 1]), ev[|ev| - 1]);
    }
  }

  lemma ReachableIsTimely(c: Config, s: Sys)
    requires Reachable(c, s)
    ensures Timely(c, s)
  {
    var s0, ev :| Init(c, s0) && Runs(c, s0, ev) && After(c, s0, ev) == s;
    assert forall w :: !Live(s0, w);
    RunKeepsTimely(c, s0, ev);
  }

  ghost predicate CanLeaveSending(c: Config, s: Sys) {
    exists ev :: Runs(c, s, ev) && After(c, s, ev).row.state != Sending
  }

  lemma LiveWorkerCanFinish(c: Config, s: Sys, w: nat) returns (ev: seq<Event>)
    requires s.row.state == Sending && Live(s, w)
    ensures Runs(c, s, ev) && After(c, s, ev).row.state != Sending
  {
    var t;
    match s.workers[w].phase
    case Claimed => ev, t := Next(c, s, [], s, JobRefuses(w, TransportError));
    case Marked => ev, t := Two(c, s, JobSubmits(w, Rejected), JobRecords(w, None));
    case Submitted(_) => ev, t := Next(c, s, [], s, JobRecords(w, None));
  }

  lemma DeadClaimIsReconciled(c: Config, s: Sys) returns (ev: seq<Event>)
    requires s.row.state == Sending && s.row.sendingAt.Some? && (forall w :: !Live(s, w))
    requires s.row.transportAttemptedAt.None? && s.row.flaggedAt.None?
    ensures Runs(c, s, ev) && After(c, s, ev).row.state != Sending
  {
    var wait := Max(0, s.row.sendingAt.value + StaleThreshold(c) - s.now);
    assert IsStale(c, s.row, s.now + wait);
    var t;
    ev, t := Two(c, s, TimePasses(wait), Acts(Reconciles));
  }

  /** Exactly when a message being sent still has a way out, for any timeouts: a worker lives, or
      reconciliation may act because neither marker nor flag is set. */
  lemma SendingCanEndIff(c: Config, s: Sys)
    requires Reachable(c, s) && s.row.state == Sending
    ensures CanLeaveSending(c, s) <==>
              (exists w :: Live(s, w)) || (s.row.transportAttemptedAt.None? && s.row.flaggedAt.None?)
  {
    if w :| Live(s, w) {
      var ev := LiveWorkerCanFinish(c, s, w);
    } else if s.row.transportAttemptedAt.None? && s.row.flaggedAt.None? {
      ReachableIsTimely(c, s);
      var ev := DeadClaimIsReconciled(c, s);
    } else {
      forall ev | Runs(c, s, ev) ensures After(c, s, ev).row.state == Sending {
        LostAttemptStaysForever(c, s, ev);
      }
    }
  }

  /** Once the job timeout has passed since the claim, the row alone decides: the message has a way out
      exactly if it is neither marked nor flagged. */
  lemma OverdueIsStuckIffMarkedOrFlagged(c: Config, s: Sys)
    requires Reachable(c, s) && s.row.state == Sending
    requires s.row.sendingAt.Some? ==> s.now > s.row.sendingAt.value + c.workerTimeoutSeconds
    ensures CanLeaveSending(c, s) <==> s.row.transportAttemptedAt.None? && s.row.flaggedAt.None?
  {
    ReachableIsTimely(c, s);
    SendingCanEndIff(c, s);
  }

  /** Such a message does occur: its worker dies between marker and transport call, or after the call. */
  lemma MarkedWorkerIsLost(c: Config) returns (s0: Sys, ev: seq<Event>)
    ensures Init(c, s0) && Runs(c, s0, ev) && Abandoned(After(c, s0, ev))
        && After(c, s0, ev).row.transportAttemptedAt.Some?
    ensures !CanLeaveSending(c, After(c, s0, ev))
  {
    s0 := Sys(NewQueued(c, 0), 0, map[], EMPTY_LEDGER.(reserves := 1));
    var t;
    ev, t := Three(c, s0, JobClaims(0), JobMarks(0), JobDies(0));
    forall more | Runs(c, t, more) ensures After(c, t, more).row.state == Sending {
      LostAttemptStaysForever(c, t, more);
    }
  }
}
