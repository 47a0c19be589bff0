/** When the usage service is asked to reserve, commit and release over a whole run, and what that
    leaves the sender charged for. */
module UsageDiscipline {
  import opened Options
  import opened MessageLifecycle
  import opened MR = MessageRow
  import opened DeliveryProtocol
  import opened DeliveryAccounting
  import opened DeliveryTheorems
  import opened JobRefinement
  import opened RowLaws

  // ----- the calls along a run -----

  function CallOf(c: Config, s: Sys, e: Event): UsageCall
    requires Enabled(c, s, e)
  {
    match e
    case JobRefuses(_, code) => MarkFailed(c, s.row, code, false).usage
    case JobRecords(w, code) => RecordResult(c, s.row, s.workers[w].attempt, s.workers[w].phase.result, code).usage
    case Acts(a) => Perform(c, s.row, s.now, a).usage
    case ReconcilesUsage(repair) => if repair then Commit else Expire
    case _ => NoCall
  }

  /** A job moves the message to sent. */
  predicate SentByJob(c: Config, s: Sys, e: Event)
    requires Enabled(c, s, e)
  {
    e.JobRecords? && s.row.state == Sending && Apply(c, s, e).row.state == Sent
  }

  /** A job gives up before its transport call, or a queued message is cancelled. */
  predicate GivenUp(c: Config, s: Sys, e: Event)
    requires Enabled(c, s, e)
  {
    || (e.JobRefuses? && s.row.state == Sending)
    || (e.Acts? && s.row.state == Queued && Apply(c, s, e).row.state == Cancelled)
  }

  /** The message is charged: a job sends it, or an operator repairs a commit that was missed. */
  predicate Charges(c: Config, s: Sys, e: Event)
    requires Enabled(c, s, e)
  {
    SentByJob(c, s, e) || e == ReconcilesUsage(true)
  }

  /** Its usage is taken back: it is given up, or an operator expires its reservation. */
  predicate TakesBack(c: Config, s: Sys, e: Event)
    requires Enabled(c, s, e)
  {
    GivenUp(c, s, e) || e == ReconcilesUsage(false)
  }

  predicate EntersQueue(c: Config, s: Sys, e: Event)
    requires Enabled(c, s, e)
  {
    Unsent(s.row.state) && Apply(c, s, e).row.state == Queued
  }

  lemma CallsMean(c: Config, s: Sys, e: Event)
    requires Enabled(c, s, e)
    ensures CallOf(c, s, e) == Commit <==> Charges(c, s, e)
    ensures CallOf(c, s, e) == Release <==> GivenUp(c, s, e)
    ensures CallOf(c, s, e) == Expire <==> e == ReconcilesUsage(false)
    ensures CallOf(c, s, e) == Reserve <==> EntersQueue(c, s, e)
  {
    match e
    case Acts(a) => ActionCallsMean(c, s, a);
    case _ =>
  }

  lemma ActionCallsMean(c: Config, s: Sys, a: Action)
    ensures var call := Perform(c, s.row, s.now, a).usage;
      && call != Commit && call != Expire
      && (call == Release <==> GivenUp(c, s, Acts(a)))
      && (call == Reserve <==> EntersQueue(c, s, Acts(a)))
  {
  }

  lemma StepSettles(c: Config, s: Sys, e: Event)
    requires Enabled(c, s, e)
    ensures Apply(c, s, e).row.reservation == Settle(c, s.row.reservation, CallOf(c, s, e))
  {
    match e
    case Acts(a) => ActionSettles(c, s, a);
    case _ =>
  }

  lemma ActionSettles(c: Config, s: Sys, a: Action)
    ensures StepAct(c, s, a).row.reservation == Settle(c, s.row.reservation, Perform(c, s.row, s.now, a).usage)
  {
  }

  ghost function CallsOf(c: Config, s: Sys, ev: seq<Event>): (calls: seq<UsageCall>)
    requires Runs(c, s, ev)
    ensures |calls| == |ev|
    decreases |ev|
  {
    if ev == [] then [] else
      CallsOf(c, s, ev[..|ev| - 1]) + [CallOf(c, After(c, s, ev[..|ev| - 1]), ev[|ev| - 1])]
  }

  lemma {:induction false} RunSettles(c: Config, s: Sys, ev: seq<Event>)
    requires Runs(c, s, ev)
    ensures After(c, s, ev).row.reservation == SettleAll(c, s.row.reservation, CallsOf(c, s, ev))
    decreases |ev|
  {
    if ev != [] {
      RunSettles(c, s, ev[..|ev| - 1]);
      StepSettles(c, After(c, s, ev[..|ev| - 1]), ev[|ev| - 1]);
      assert CallsOf(c, s, ev)[..|ev| - 1] == CallsOf(c, s, ev[..|ev| - 1]);
    }
  }

  lemma {:induction false} CallAt(c: Config, s: Sys, ev: seq<Event>, i: nat)
    requires Runs(c, s, ev) && i < |ev|
    ensures CallsOf(c, s, ev)[i] == CallOf(c, StateAt(c, s, ev, i), ev[i])
    decreases |ev|
  {
    var front := ev[..|ev| - 1];
    if i < |front| {
      CallAt(c, s, front, i);
      assert front[..i] == ev[..i];
    } else {
      assert ev[..i] == front;
    }
  }

  // ----- charged or not -----

  /** Event `i` charges the message, and it was neither charged nor its usage taken back before. */
  ghost predicate ChargedFirst(c: Config, s: Sys, ev: seq<Event>, i: nat)
    requires Runs(c, s, ev)
  {
    && i < |ev| && Charges(c, StateAt(c, s, ev, i), ev[i])
    && forall k | 0 <= k < i :: !Charges(c, StateAt(c, s, ev, k), ev[k]) && !TakesBack(c, StateAt(c, s, ev, k), ev[k])
  }

  lemma CallsMeanAlong(c: Config, s: Sys, ev: seq<Event>)
    requires Runs(c, s, ev)
    ensures forall k | 0 <= k < |ev| ::
              && (CallsOf(c, s, ev)[k] == Commit <==> Charges(c, StateAt(c, s, ev, k), ev[k]))
              && (Settles(CallsOf(c, s, ev)[k]) <==>
                    Charges(c, StateAt(c, s, ev, k), ev[k]) || TakesBack(c, StateAt(c, s, ev, k), ev[k]))
  {
    forall k | 0 <= k < |ev|
      ensures CallsOf(c, s, ev)[k] == Commit <==> Charges(c, StateAt(c, s, ev, k), ev[k])
      ensures Settles(CallsOf(c, s, ev)[k]) <==>
                Charges(c, StateAt(c, s, ev, k), ev[k]) || TakesBack(c, StateAt(c, s, ev, k), ev[k])
    {
      CallAt(c, s, ev, k);
      CallsMean(c, StateAt(c, s, ev, k), ev[k]);
    }
  }

  lemma CommitDecidesIffChargedFirst(c: Config, s: Sys, ev: seq<Event>, i: nat)
    requires Runs(c, s, ev)
    ensures DecidesAt(CallsOf(c, s, ev), i) && CallsOf(c, s, ev)[i] == Commit <==> ChargedFirst(c, s, ev, i)
  {
    CallsMeanAlong(c, s, ev);
  }

  /** On every run a message ends up charged exactly when it was already, or its usage was still reserved and
      it was charged before any refusal, cancel or expiry; bounces, retries and lost workers make no difference. */
  lemma ChargedIffChargedFirst(c: Config, s: Sys, ev: seq<Event>)
    requires c.metering && s.row.reservation != Unreserved && Runs(c, s, ev)
    ensures After(c, s, ev).row.reservation == Committed <==>
              s.row.reservation == Committed
                  || (s.row.reservation == Reserved && exists i: nat :: ChargedFirst(c, s, ev, i))
  {
    RunSettles(c, s, ev);
    FirstSettlementStands(c, s.row.reservation, CallsOf(c, s, ev), Commit);
    forall i: nat
      ensures DecidesAt(CallsOf(c, s, ev), i) && CallsOf(c, s, ev)[i] == Commit <==> ChargedFirst(c, s, ev, i)
    {
      CommitDecidesIffChargedFirst(c, s, ev, i);
    }
  }

  /** So the reservation of a queued row tells whether sending it will be charged: along every run on which a
      job sends it and its usage is not taken back before, exactly if it is reserved or committed. */
  lemma SentIsChargedIffReserved(c: Config, s: Sys, ev: seq<Event>, i: nat)
    requires c.metering && Reachable(c, s) && s.row.state == Queued
    requires Runs(c, s, ev) && i < |ev| && SentByJob(c, StateAt(c, s, ev, i), ev[i])
    requires forall k | 0 <= k < i :: !TakesBack(c, StateAt(c, s, ev, k), ev[k])
    ensures After(c, s, ev).row.reservation == Committed <==> s.row.reservation in {Reserved, Committed}
  {
    ReachableTallies(c, s);
    CallsMeanAlong(c, s, ev);
    var j := FirstSettlement(CallsOf(c, s, ev), i);
    assert Charges(c, StateAt(c, s, ev, j), ev[j]);
    CommitDecidesIffChargedFirst(c, s, ev, j);
    ChargedIffChargedFirst(c, s, ev);
  }

  /** A failed message whose reservation was released is retried and sent, and stays uncharged. */
  lemma ReleasedIsSent(c: Config, s: Sys, w: nat) returns (ev: seq<Event>)
    requires s.row.state == Failed && s.row.reservation == Released && w !in s.workers
    requires s.row.failureCode.Some? ==> !NonRetryable(s.row.failureCode.value)
    ensures Runs(c, s, ev)
    ensures var t := After(c, s, ev);
      t.row.state == Sent && t.ledger.jobSent == s.ledger.jobSent + 1 && t.row.reservation == Released
  {
    var t;
    ev, t := Next(c, s, [], s, Acts(Retries(true)));
    var job := JobEnds(c, t, w, None, Accepted, None);
    Continue(c, s, ev, job);
    ev := ev + job;
  }

  /** The uncharged case does occur: a failed pre-transport check releases, a retry then sends. */
  lemma SentWithoutCharge(c: Config) returns (s0: Sys, ev: seq<Event>)
    requires c.metering
    ensures Init(c, s0) && Runs(c, s0, ev)
    ensures var s := After(c, s0, ev); s.row.state == Sent && s.ledger.jobSent == 1 && s.row.reservation == Released
  {
    s0 := Sys(NewQueued(c, 0), 0, map[], EMPTY_LEDGER.(reserves := 1));
    var refused := JobEnds(c, s0, 0, Some(OtherFailure(0)), Accepted, None);
    var sent := ReleasedIsSent(c, After(c, s0, refused), 1);
    Continue(c, s0, refused, sent);
    ev := refused + sent;
  }

  // ----- counts, whatever the timeouts -----

  predicate Tally(c: Config, row: Row, l: Ledger) {
    && l.reserves <= 1
    && (Unsent(row.state) ==> l.reserves == 0)
    && (l.reserves == 0 ==> Unsent(row.state) || row.state == Cancelled)
    && (row.reservation == Unreserved <==> l.reserves == 0 || !c.metering)
    && l.commits == l.jobSent + l.repairs
  }

  lemma ActionKeepsTally(c: Config, s: Sys, a: Action)
    requires Tally(c, s.row, s.ledger)
    ensures Tally(c, StepAct(c, s, a).row, StepAct(c, s, a).ledger)
  {
  }

  lemma StepKeepsTally(c: Config, s: Sys, e: Event)
    requires Tally(c, s.row, s.ledger) && Enabled(c, s, e)
    ensures Tally(c, Apply(c, s, e).row, Apply(c, s, e).ledger)
  {
    match e
    case Acts(a) => ActionKeepsTally(c, s, a);
    case _ =>
  }

  lemma {:induction false} RunKeepsTally(c: Config, s: Sys, ev: seq<Event>)
    requires Tally(c, s.row, s.ledger) && Runs(c, s, ev)
    ensures Tally(c, After(c, s, ev).row, After(c, s, ev).ledger)
    decreases |ev|
  {
    if ev != [] {
      RunKeepsTally(c, s, ev[..|ev| - 1]);
      StepKeepsTally(c, After(c, s, ev[..|ev| - 1]), ev[|ev| - 1]);
    }
  }

  lemma ReachableTallies(c: Config, s: Sys)
    requires Reachable(c, s)
    ensures Tally(c, s.row, s.ledger)
  {
    var s0, ev :| Init(c, s0) && Runs(c, s0, ev) && After(c, s0, ev) == s;
    RunKeepsTally(c, s0, ev);
  }

  ghost predicate EverQueued(c: Config, s: Sys, ev: seq<Event>)
    requires Runs(c, s, ev)
  {
    exists i :: 0 <= i <= |ev| && QueuedAt(c, s, ev, i)
  }

  ghost predicate QueuedAt(c: Config, s: Sys, ev: seq<Event>, i: nat)
    requires Runs(c, s, ev) && i <= |ev|
  {
    RunPrefix(c, s, ev, i);
    After(c, s, ev[..i]).row.state == Queued
  }

  lemma EverQueuedGrows(c: Config, s0: Sys, ev: seq<Event>)
    requires Runs(c, s0, ev) && ev != []
    ensures EverQueued(c, s0, ev) <==> EverQueued(c, s0, ev[..|ev| - 1]) || After(c, s0, ev).row.state == Queued
  {
    var front := ev[..|ev| - 1];
    assert forall i | 0 <= i <= |front| :: ev[..i] == front[..i];
    assert forall i | 0 <= i <= |front| :: QueuedAt(c, s0, ev, i) == QueuedAt(c, s0, front, i);
    assert ev[..|ev|] == ev;
    assert QueuedAt(c, s0, ev, |ev|) <==> After(c, s0, ev).row.state == Queued;
  }

  lemma StepReservesToQueue(c: Config, s: Sys, e: Event)
    requires Enabled(c, s, e)
    ensures Apply(c, s, e).ledger.reserves == s.ledger.reserves + (if EntersQueue(c, s, e) then 1 else 0)
  {
    match e
    case Acts(a) => ActionReservesToQueue(c, s, a);
    case _ =>
  }

  lemma ActionReservesToQueue(c: Config, s: Sys, a: Action)
    ensures StepAct(c, s, a).ledger.reserves == s.ledger.reserves + (if EntersQueue(c, s, Acts(a)) then 1 else 0)
  {
  }

  /** Usage is reserved exactly once for every message that was ever queued, and never for another,
      whatever workers and reconciliation do. */
  lemma {:induction false} ReservedOnceIffEverQueued(c: Config, s0: Sys, ev: seq<Event>)
    requires Init(c, s0) && Runs(c, s0, ev)
    ensures After(c, s0, ev).ledger.reserves == if EverQueued(c, s0, ev) then 1 else 0
    decreases |ev|
  {
    if ev == [] {
      assert ev[..0] == ev;
      assert QueuedAt(c, s0, ev, 0) <==> s0.row.state == Queued;
    } else {
      var front, e := ev[..|ev| - 1], ev[|ev| - 1];
      ReservedOnceIffEverQueued(c, s0, front);
      EverQueuedGrows(c, s0, ev);
      StepReservesToQueue(c, After(c, s0, front), e);
      RunKeepsTally(c, s0, front);
      RunKeepsTally(c, s0, ev);
    }
  }

  /** Workers holding an accepted submission they have not recorded. */
  ghost function Unrecorded(s: Sys): set<nat> {
    set w | w in s.workers && s.workers[w].phase == Submitted(Accepted)
  }

  lemma SubmissionIsCounted(s: Sys, w: nat, result: TransportResult)
    requires s.ledger.jobSent + |Unrecorded(s)| <= s.ledger.accepted && InPhase(s, w, Marked)
    ensures var t := StepSubmit(s, w, result); t.ledger.jobSent + |Unrecorded(t)| <= t.ledger.accepted
  {
    var t := StepSubmit(s, w, result);
    assert Unrecorded(t) == if result == Accepted then Unrecorded(s) + {w} else Unrecorded(s);
  }

  lemma RecordIsCounted(c: Config, s: Sys, e: Event)
    requires s.ledger.jobSent + |Unrecorded(s)| <= s.ledger.accepted && Enabled(c, s, e)
        && (e.JobRecords? || e.JobDies?)
    ensures Apply(c, s, e).ledger.jobSent + |Unrecorded(Apply(c, s, e))| <= Apply(c, s, e).ledger.accepted
  {
    assert Unrecorded(Apply(c, s, e)) == Unrecorded(s) - {e.worker};
  }

  lemma OtherStepKeepsUnrecorded(c: Config, s: Sys, e: Event)
    requires Enabled(c, s, e) && !(e.JobSubmits? || e.JobRecords? || e.JobDies?)
    ensures Unrecorded(Apply(c, s, e)) == Unrecorded(s)
    ensures Apply(c, s, e).ledger.jobSent == s.ledger.jobSent && Apply(c, s, e).ledger.accepted >= s.ledger.accepted
  {
  }

  lemma StepKeepsSentBelowAccepted(c: Config, s: Sys, e: Event)
    requires s.ledger.jobSent + |Unrecorded(s)| <= s.ledger.accepted && Enabled(c, s, e)
    ensures Apply(c, s, e).ledger.jobSent + |Unrecorded(Apply(c, s, e))| <= Apply(c, s, e).ledger.accepted
  {
    match e
    case JobSubmits(w, r) => SubmissionIsCounted(s, w, r);
    case JobRecords(_, _) => RecordIsCounted(c, s, e);
    case JobDies(_) => RecordIsCounted(c, s, e);
    case _ => OtherStepKeepsUnrecorded(c, s, e);
  }

  lemma {:induction false} RunKeepsSentBelowAccepted(c: Config, s: Sys, ev: seq<Event>)
    requires s.ledger.jobSent + |Unrecorded(s)| <= s.ledger.accepted && Runs(c, s, ev)
    ensures After(c, s, ev).ledger.jobSent + |Unrecorded(After(c, s, ev))| <= After(c, s, ev).ledger.accepted
    decreases |ev|
  {
    if ev != [] {
      RunKeepsSentBelowAccepted(c, s, ev[..|ev| - 1]);
      StepKeepsSentBelowAccepted(c, After(c, s, ev[..|ev| - 1]), ev[|ev| - 1]);
    }
  }

  /** Commits are exactly the job's moves to sent and the operator's repairs, and the former are never more
      than the accepted submissions. */
  lemma CommitsAreJobSends(c: Config, s: Sys)
    requires Reachable(c, s)
    ensures s.ledger.commits == s.ledger.jobSent + s.ledger.repairs && s.ledger.jobSent <= s.ledger.accepted
  {
    ReachableTallies(c, s);
    var s0, ev :| Init(c, s0) && Runs(c, s0, ev) && After(c, s0, ev) == s;
    assert Unrecorded(s0) == {};
    RunKeepsSentBelowAccepted(c, s0, ev);
  }

  // ----- released while a submission stands -----

  lemma GivenUpWhileNothingStands(c: Config, s: Sys, e: Event)
    requires Safe(c, s) && Enabled(c, s, e) && GivenUp(c, s, e)
    ensures s.ledger.accepted == Past(s.ledger)
  {
    if e.JobRefuses? {
      assert Live(s, e.worker);
    }
  }

  /** Usage is released only while every accepted submission is over, on every run, exactly when the job
      timeout is below the stale threshold. */
  lemma ReleasesAreDueIffTimeoutBeforeStale(c: Config)
    ensures (forall s, e :: Reachable(c, s) && Enabled(c, s, e) && GivenUp(c, s, e) ==>
        s.ledger.accepted == Past(s.ledger))
            <==> TimeoutBeforeStale(c)
  {
    if TimeoutBeforeStale(c) {
      forall s, e | Reachable(c, s) && Enabled(c, s, e) && GivenUp(c, s, e)
        ensures s.ledger.accepted == Past(s.ledger)
      {
        ReachableIsSafe(c, s);
        GivenUpWhileNothingStands(c, s, e);
      }
    } else {
      var s := AcceptedBehindASlowClaimant(c);
      assert Enabled(c, s, JobRefuses(0, TransportError)) && GivenUp(c, s, JobRefuses(0, TransportError));
    }
  }

  /** The message requeued from a slow claimant is accepted for a second worker while the first still has
      its checks to make. */
  lemma AcceptedBehindASlowClaimant(c: Config) returns (s: Sys)
    requires !TimeoutBeforeStale(c)
    ensures Reachable(c, s) && s.row.state == Sending && InPhase(s, 0, Claimed) && s.ledger.accepted > Past(s.ledger)
  {
    var s0, slow := SlowClaimantIsRequeued(c);
    var second;
    second, s := Three(c, After(c, s0, slow), JobClaims(1), JobMarks(1), JobSubmits(1, Accepted));
    Continue(c, s0, slow, second);
    assert Reachable(c, s);
  }

  // ----- released although the transport was called -----

  /** What the row's marker says about the calls of the latest attempt. */
  predicate MarkerTells(row: Row, l: Ledger) {
    && l.callsThisAttempt + l.lostCalls <= l.transportCalls
    && (Unsent(row.state) ==> l.transportCalls == 0)
    && (row.state == Sending ==> row.attemptCount >= 1)
    && (row.state != Sending ==> (row.transportAttemptedAt.Some? <==> l.callsThisAttempt > 0))
  }

  /** What the outcomes reported so far say about past transport calls, while usage is reserved. */
  predicate OutcomesTell(c: Config, row: Row, l: Ledger) {
    && (Unsent(row.state) ==> l.completed == {})
    && (c.metering && row.reservation == Reserved ==>
          (l.completed != {} <==>
             l.transportCalls - l.lostCalls > (if row.state == Sending then l.callsThisAttempt else 0)))
  }

  predicate HistoryTells(c: Config, row: Row, l: Ledger) {
    MarkerTells(row, l) && OutcomesTell(c, row, l)
  }

  /** What the delivery-attempt rows say about those outcomes: unless backfilled, a row has one exactly if
      it was reported. */
  predicate RecordsTell(row: Row, l: Ledger) {
    && (forall k | k in l.completed :: 1 <= k <= row.attemptCount)
    && (forall k | k in l.records ::
          1 <= k <= row.attemptCount && (!l.records[k].backfilled ==> (l.records[k].completed <==> k in l.completed)))
  }

  lemma ActionKeepsMarker(c: Config, s: Sys, a: Action)
    requires Books(s.row, s.ledger) && MarkerTells(s.row, s.ledger)
    ensures MarkerTells(StepAct(c, s, a).row, StepAct(c, s, a).ledger)
  {
  }

  lemma ActionKeepsOutcomes(c: Config, s: Sys, a: Action)
    requires Books(s.row, s.ledger) && HistoryTells(c, s.row, s.ledger) && Tally(c, s.row, s.ledger)
    ensures OutcomesTell(c, StepAct(c, s, a).row, StepAct(c, s, a).ledger)
  {
  }

  lemma WorkerStepKeepsMarker(c: Config, s: Sys, e: Event)
    requires Safe(c, s) && MarkerTells(s.row, s.ledger) && Enabled(c, s, e)
    requires e.JobRefuses? || e.JobMarks? || e.JobSubmits? || e.JobRecords? || e.JobDies?
    ensures MarkerTells(Apply(c, s, e).row, Apply(c, s, e).ledger)
  {
    assert Live(s, e.worker);
  }

  lemma WorkerStepKeepsOutcomes(c: Config, s: Sys, e: Event)
    requires Safe(c, s) && HistoryTells(c, s.row, s.ledger) && Enabled(c, s, e)
    requires e.JobRefuses? || e.JobMarks? || e.JobSubmits? || e.JobRecords? || e.JobDies?
    ensures OutcomesTell(c, Apply(c, s, e).row, Apply(c, s, e).ledger)
  {
    assert Live(s, e.worker);
  }

  lemma OtherStepKeepsHistory(c: Config, s: Sys, e: Event)
    requires Safe(c, s) && HistoryTells(c, s.row, s.ledger) && Enabled(c, s, e)
    requires e.JobClaims? || e.TimePasses? || e.RetryDies? || e.PrunesAttempts? || e.BackfillsAttempt?
             || e.ReconcilesUsage?
    ensures HistoryTells(c, Apply(c, s, e).row, Apply(c, s, e).ledger)
  {
  }

  lemma StepKeepsHistory(c: Config, s: Sys, e: Event)
    requires Safe(c, s) && HistoryTells(c, s.row, s.ledger) && Tally(c, s.row, s.ledger) && Enabled(c, s, e)
    ensures HistoryTells(c, Apply(c, s, e).row, Apply(c, s, e).ledger)
  {
    if e.Acts? {
      ActionKeepsMarker(c, s, e.action);
      ActionKeepsOutcomes(c, s, e.action);
    } else if e.JobRefuses? || e.JobMarks? || e.JobSubmits? || e.JobRecords? || e.JobDies? {
      WorkerStepKeepsMarker(c, s, e);
      WorkerStepKeepsOutcomes(c, s, e);
    } else {
      OtherStepKeepsHistory(c, s, e);
    }
  }

  lemma StartKeepsRecords(row: Row, l: Ledger, now: int, row': Row)
    requires RecordsTell(row, l) && row'.attemptCount == row.attemptCount + 1
    ensures RecordsTell(row', Start(l, row'.attemptCount, now))
  {
  }

  lemma CompleteKeepsRecords(row: Row, l: Ledger, attempt: nat)
    requires RecordsTell(row, l) && 1 <= attempt <= row.attemptCount
    ensures RecordsTell(row, Complete(l, attempt))
  {
  }

  lemma StepKeepsRecords(c: Config, s: Sys, e: Event)
    requires Safe(c, s) && HistoryTells(c, s.row, s.ledger) && RecordsTell(s.row, s.ledger) && Enabled(c, s, e)
    ensures RecordsTell(Apply(c, s, e).row, Apply(c, s, e).ledger)
  {
    match e
    case Acts(a) => ActionKeepsRecords(c, s, a);
    case JobClaims(_) =>
      if s.row.state == Queued {
        StartKeepsRecords(s.row, s.ledger, s.now, Claim(c, s.row, s.now).row);
      }
    case JobRefuses(w, _) =>
      assert Live(s, w);
      CompleteKeepsRecords(s.row, s.ledger, s.workers[w].attempt);
    case JobRecords(w, _) =>
      assert Live(s, w);
      CompleteKeepsRecords(s.row, s.ledger, s.workers[w].attempt);
    case _ =>
  }

  lemma ActionKeepsRecords(c: Config, s: Sys, a: Action)
    requires RecordsTell(s.row, s.ledger)
    ensures RecordsTell(StepAct(c, s, a).row, StepAct(c, s, a).ledger)
  {
    var o := Perform(c, s.row, s.now, a);
    if a.RetriesWithProvider? && o.reply == Done {
      StartKeepsRecords(s.row, s.ledger, s.now, o.row);
      CompleteKeepsRecords(o.row, CountSubmission(Start(s.ledger, o.row.attemptCount, s.now), a.result),
          o.row.attemptCount);
    }
  }

  lemma InitTells(c: Config, s: Sys)
    requires Init(c, s)
    ensures HistoryTells(c, s.row, s.ledger) && RecordsTell(s.row, s.ledger)
  {
  }

  lemma {:induction false} RunKeepsHistory(c: Config, s0: Sys, ev: seq<Event>)
    requires Init(c, s0) && TimeoutBeforeStale(c) && Runs(c, s0, ev)
    ensures HistoryTells(c, After(c, s0, ev).row, After(c, s0, ev).ledger)
    ensures RecordsTell(After(c, s0, ev).row, After(c, s0, ev).ledger)
    decreases |ev|
  {
    if ev == [] {
      InitTells(c, s0);
    } else {
      var front := ev[..|ev| - 1];
      RunKeepsHistory(c, s0, front);
      assert Reachable(c, After(c, s0, front));
      ReachableIsSafe(c, After(c, s0, front));
      ReachableTallies(c, After(c, s0, front));
      StepKeepsHistory(c, After(c, s0, front), ev[|ev| - 1]);
      StepKeepsRecords(c, After(c, s0, front), ev[|ev| - 1]);
    }
  }

  /** Every attempt of the message still has the row written when it began. */
  predicate KeepsOwnRows(row: Row, l: Ledger) {
    forall k | 1 <= k <= row.attemptCount :: k in l.records && !l.records[k].backfilled
  }

  predicate SomeOutcome(l: Ledger) {
    exists k :: k in l.records && l.records[k].completed
  }

  lemma RowsTellOutcomes(row: Row, l: Ledger)
    requires RecordsTell(row, l) && KeepsOwnRows(row, l)
    ensures SomeOutcome(l) <==> l.completed != {}
  {
    if l.completed != {} {
      var k :| k in l.completed;
      assert k in l.records && l.records[k].completed;
    }
  }

  /** A cancel returns the usage of a queued message with a reserved reservation, although some attempt may
      have spent it. With the job timeout below the stale threshold and as long as every attempt keeps its own
      row, an attempt called the transport exactly if some delivery-attempt row has an outcome (calls of
      provider retries that died leave no row). The marker speaks of the latest attempt alone. */
  lemma CancelReturnsSpentUsageIffOutcomeRecorded(c: Config, s: Sys)
    requires Reachable(c, s) && TimeoutBeforeStale(c)
    requires c.metering && s.row.state == Queued && s.row.reservation == Reserved
    ensures StepAct(c, s, Cancels).row.reservation == Released
    ensures KeepsOwnRows(s.row, s.ledger) ==> (s.ledger.transportCalls > s.ledger.lostCalls <==> SomeOutcome(s.ledger))
    ensures s.ledger.callsThisAttempt > 0 <==> s.row.transportAttemptedAt.Some?
  {
    var s0, ev :| Init(c, s0) && Runs(c, s0, ev) && After(c, s0, ev) == s;
    RunKeepsHistory(c, s0, ev);
    if KeepsOwnRows(s.row, s.ledger) {
      RowsTellOutcomes(s.row, s.ledger);
    }
  }

  lemma OpenRowTellsNothing(row: Row, l: Ledger)
    requires row.attemptCount == 1 && l.records == Start(EMPTY_LEDGER, 1, 0).records
    ensures KeepsOwnRows(row, l) && !SomeOutcome(l)
  {
  }

  lemma SlowClaimantHasAnOpenRow(c: Config) returns (t: Sys)
    requires !TimeoutBeforeStale(c) && c.metering
    ensures Reachable(c, t) && t.row.state == Queued && t.row.reservation == Reserved && InPhase(t, 0, Claimed)
    ensures KeepsOwnRows(t.row, t.ledger) && !SomeOutcome(t.ledger)
    ensures t.ledger.transportCalls == 0 && t.ledger.lostCalls == 0
  {
    var s0, ev := SlowClaimantIsRequeued(c);
    t := After(c, s0, ev);
    OpenRowTellsNothing(t.row, t.ledger);
  }

  /** The marker update of a claimant that lost its message to the queue matches no row; it submits all the same. */
  lemma LateClaimantSubmits(c: Config, s: Sys) returns (t: Sys)
    requires Reachable(c, s) && s.row.state == Queued && InPhase(s, 0, Claimed)
    ensures Reachable(c, t) && t.row == s.row && t.ledger == CountSubmission(s.ledger, Accepted)
  {
    ReachableStep(c, s, JobMarks(0));
    var m := StepMark(c, s, 0);
    ReachableStep(c, m, JobSubmits(0, Accepted));
    t := StepSubmit(m, 0, Accepted);
  }

  /** With a longer job timeout the rows do not tell either: that of such a claimant has no outcome yet. */
  lemma SlowClaimantSpendsUnseen(c: Config) returns (s: Sys)
    requires !TimeoutBeforeStale(c) && c.metering
    ensures Reachable(c, s) && s.row.state == Queued && s.row.reservation == Reserved && KeepsOwnRows(s.row, s.ledger)
    ensures s.ledger.transportCalls == 1 && s.ledger.lostCalls == 0 && !SomeOutcome(s.ledger)
  {
    var t := SlowClaimantHasAnOpenRow(c);
    s := LateClaimantSubmits(c, t);
  }

  /** That the attempts' own rows tell what a cancel returns holds on every run exactly when the job timeout
      is below the stale threshold, or usage is not metered and nothing is ever reserved. */
  lemma RowsTellSpendingIffTimeoutBeforeStale(c: Config)
    ensures (forall s | Reachable(c, s) && s.row.state == Queued && s.row.reservation == Reserved
                        && KeepsOwnRows(s.row, s.ledger) ::
               s.ledger.transportCalls > s.ledger.lostCalls <==> SomeOutcome(s.ledger))
            <==> TimeoutBeforeStale(c) || !c.metering
  {
    if !c.metering {
      forall s | Reachable(c, s) ensures s.row.reservation == Unreserved {
        ReachableTallies(c, s);
      }
    } else if TimeoutBeforeStale(c) {
      forall s | Reachable(c, s) && s.row.state == Queued && s.row.reservation == Reserved
                 && KeepsOwnRows(s.row, s.ledger)
        ensures s.ledger.transportCalls > s.ledger.lostCalls <==> SomeOutcome(s.ledger)
      {
        CancelReturnsSpentUsageIffOutcomeRecorded(c, s);
      }
    } else {
      var s := SlowClaimantSpendsUnseen(c);
    }
  }

  /** Without its own row an attempt is not seen: the message fails after its submission, retention deletes
      the row, and the user retries. */
  lemma PrunedRowHidesTheCall(c: Config) returns (s0: Sys, ev: seq<Event>)
    requires c.attemptDays >= 1
    ensures Init(c, s0) && Runs(c, s0, ev)
    ensures var s := After(c, s0, ev);
      && s.row.state == Queued && s.row.reservation == s0.row.reservation
      && s.ledger.transportCalls == 1 && !SomeOutcome(s.ledger)
  {
    s0 := Sys(NewQueued(c, 0), 0, map[], EMPTY_LEDGER.(reserves := 1));
    var failed := FailedAfterSubmission(c, s0);
    var pruned := PruneThenRetry(c, After(c, s0, failed));
    Continue(c, s0, failed, pruned);
    ev := failed + pruned;
  }

  lemma FailedAfterSubmission(c: Config, s: Sys) returns (ev: seq<Event>)
    requires s.row == NewQueued(c, 0) && s.workers == map[] && s.ledger.records == map[]
    ensures Runs(c, s, ev)
    ensures var t := After(c, s, ev);
      && t.row.state == Failed && t.row.flaggedAt.None? && t.row.failureCode == Some(TransportError)
      && t.row.reservation == s.row.reservation && t.now == s.now
      && t.ledger.transportCalls == s.ledger.transportCalls + 1
      && t.ledger.records == map[1 := AttemptRow(s.now, true, false)]
      && t.workers.Keys == {0} && (forall w :: !Live(t, w))
  {
    ev := JobEnds(c, s, 0, None, PermanentFailure, None);
  }

  lemma PruneThenRetry(c: Config, s: Sys) returns (ev: seq<Event>)
    requires c.attemptDays >= 1 && s.row.state == Failed && s.row.failureCode == Some(TransportError)
    requires s.ledger.records == map[1 := AttemptRow(s.now, true, false)] && forall w :: !Live(s, w)
    ensures Runs(c, s, ev)
    ensures var t := After(c, s, ev);
      && t.row.state == Queued && t.row.reservation == s.row.reservation
      && t.ledger.transportCalls == s.ledger.transportCalls && !SomeOutcome(t.ledger)
  {
    ev := WaitThenPrune(c, s);
    var t := After(c, s, ev);
    ev, t := Next(c, s, ev, t, Acts(Retries(true)));
  }

  lemma WaitThenPrune(c: Config, s: Sys) returns (ev: seq<Event>)
    requires c.attemptDays >= 1 && s.ledger.records.Keys == {1} && s.ledger.records[1].createdAt <= s.now
    requires forall w :: !Live(s, w)
    ensures Runs(c, s, ev)
    ensures var t := After(c, s, ev);
      && t.row == s.row && t.workers == s.workers && t.ledger == s.ledger.(records := map[])
  {
    assert s.ledger.records - {1} == map[];
    var t;
    ev, t := Two(c, s, TimePasses(c.attemptDays * DAY + 1), PrunesAttempts({1}));
  }

  /** And a backfilled row shows an outcome nobody reported: the only claimant dies before its marker, its row
      is deleted by retention, and the repair of missing rows writes one with an outcome. */
  lemma BackfilledRowInventsAnOutcome(c: Config) returns (s0: Sys, ev: seq<Event>)
    requires c.attemptDays >= 1 && MaxAttempts(c) == 1
    ensures Init(c, s0) && Runs(c, s0, ev)
    ensures var s := After(c, s0, ev);
      && s.row.state == Queued && s.row.reservation == s0.row.reservation
      && s.ledger.transportCalls == 0 && SomeOutcome(s.ledger)
  {
    s0 := Sys(NewQueued(c, 0), 0, map[], EMPTY_LEDGER.(reserves := 1));
    var claimed := ClaimThenDie(c, s0, 0);
    var waited := WaitThenReconcile(c, After(c, s0, claimed));
    Continue(c, s0, claimed, waited);
    var rewritten := BackfillThenRetry(c, After(c, s0, claimed + waited));
    Continue(c, s0, claimed + waited, rewritten);
    ev := claimed + waited + rewritten;
  }

  lemma BackfillThenRetry(c: Config, s: Sys) returns (ev: seq<Event>)
    requires c.attemptDays >= 1 && s.row.state == Failed && s.row.attemptCount == 1
    requires s.row.failureCode == Some(StaleSendingAttemptsExhausted)
    requires s.ledger.records.Keys == {1} && s.ledger.records[1].createdAt <= s.now && forall w :: !Live(s, w)
    ensures Runs(c, s, ev)
    ensures var t := After(c, s, ev);
      && t.row.state == Queued && t.row.reservation == s.row.reservation
      && t.ledger.transportCalls == s.ledger.transportCalls && SomeOutcome(t.ledger)
  {
    var pruned := WaitThenPrune(c, s);
    var rewritten, t := Two(c, After(c, s, pruned), BackfillsAttempt, Acts(Retries(true)));
    assert t.ledger.records[1].completed;
    Continue(c, s, pruned, rewritten);
    ev := pruned + rewritten;
  }

  /** The spent case does occur: a failed submission, a retry by the user, then a cancel. */
  lemma CancelReturnsSpentUsage(c: Config) returns (s0: Sys, ev: seq<Event>)
    requires c.metering
    ensures Init(c, s0) && Runs(c, s0, ev)
    ensures var s := After(c, s0, ev);
      s.row.state == Cancelled && s.row.reservation == Released && s.ledger.transportCalls == 1
  {
    s0 := Sys(NewQueued(c, 0), 0, map[], EMPTY_LEDGER.(reserves := 1));
    ev := RetriedAfterSubmission(c, s0);
    var t := After(c, s0, ev);
    ev, t := Next(c, s0, ev, t, Acts(Cancels));
  }

  lemma RetriedAfterSubmission(c: Config, s: Sys) returns (ev: seq<Event>)
    requires s.row == NewQueued(c, 0) && s.workers == map[] && s.ledger.records == map[]
    ensures Runs(c, s, ev)
    ensures var t := After(c, s, ev);
      && t.row.state == Queued && t.row.flaggedAt.None? && t.row.reservation == s.row.reservation
      && t.ledger.transportCalls == s.ledger.transportCalls + 1 && t.workers.Keys == {0} && (forall w :: !Live(t, w))
  {
    ev := FailedAfterSubmission(c, s);
    var failed := After(c, s, ev);
    var t := failed;
    ev, t := Next(c, s, ev, t, Acts(Retries(true)));
    assert forall w :: Live(t, w) == Live(failed, w);
  }

  /** The marker does not tell of earlier attempts: after the next claimant is lost and the message requeued,
      the marker is gone and the call still counts. */
  lemma EarlierCallLeavesNoMarker(c: Config) returns (s0: Sys, ev: seq<Event>)
    ensures Init(c, s0) && Runs(c, s0, ev)
    ensures var s := After(c, s0, ev);
      s.row.state == Queued && s.row.transportAttemptedAt.None? && s.ledger.transportCalls == 1
      && s.row.reservation == s0.row.reservation
  {
    s0 := Sys(NewQueued(c, 0), 0, map[], EMPTY_LEDGER.(reserves := 1));
    var first := RetriedAfterSubmission(c, s0);
    var second := ClaimantIsLost(c, After(c, s0, first), 1);
    Continue(c, s0, first, second);
    ev := first + second;
  }

  lemma ClaimThenDie(c: Config, s: Sys, w: nat) returns (ev: seq<Event>)
    requires s.row.state == Queued && w !in s.workers && forall v :: !Live(s, v)
    ensures Runs(c, s, ev)
    ensures var t := After(c, s, ev);
      && t.row == Claim(c, s.row, s.now).row && t.now == s.now && t.ledger.transportCalls == s.ledger.transportCalls
      && t.ledger.records == Start(s.ledger, s.row.attemptCount + 1, s.now).records
      && forall v :: !Live(t, v)
  {
    var t;
    ev, t := Two(c, s, JobClaims(w), JobDies(w));
    assert forall v :: v != w ==> Live(t, v) == Live(s, v);
  }

  lemma WaitThenReconcile(c: Config, s: Sys) returns (ev: seq<Event>)
    requires s.row.state == Sending && s.row.sendingAt == Some(s.now) && (forall v :: !Live(s, v))
    requires s.row.transportAttemptedAt.None? && s.row.flaggedAt.None?
    ensures Runs(c, s, ev)
    ensures After(c, s, ev).row == Reconcile(c, s.row, s.now + StaleThreshold(c)).row
    ensures After(c, s, ev).ledger == s.ledger && After(c, s, ev).now == s.now + StaleThreshold(c)
    ensures forall v :: !Live(After(c, s, ev), v)
  {
    var t;
    ev, t := Two(c, s, TimePasses(StaleThreshold(c)), Acts(Reconciles));
    assert forall v :: Live(t, v) == Live(s, v);
  }

  lemma ClaimantIsLost(c: Config, s: Sys, w: nat) returns (ev: seq<Event>)
    requires s.row.state == Queued && s.row.flaggedAt.None? && w !in s.workers && forall v :: !Live(s, v)
    ensures Runs(c, s, ev)
    ensures var t := After(c, s, ev);
      && t.row.state == Queued && t.row.transportAttemptedAt.None? && t.row.reservation == s.row.reservation
      && t.ledger.transportCalls == s.ledger.transportCalls
  {
    var claimed := ClaimThenDie(c, s, w);
    var waited := WaitThenReconcile(c, After(c, s, claimed));
    Continue(c, s, claimed, waited);
    ev := claimed + waited;
    var back := BackInQueue(c, After(c, s, ev));
    Continue(c, s, ev, back);
    ev := ev + back;
  }

  lemma BackInQueue(c: Config, s: Sys) returns (ev: seq<Event>)
    requires s.row.state == Queued
             || (s.row.state == Failed && s.row.failureCode == Some(StaleSendingAttemptsExhausted))
    ensures Runs(c, s, ev)
    ensures var t := After(c, s, ev);
      && t.row.state == Queued && t.row.transportAttemptedAt == s.row.transportAttemptedAt
      && t.row.reservation == s.row.reservation && t.ledger.transportCalls == s.ledger.transportCalls
  {
    ev := [];
    if s.row.state == Failed {
      var t;
      ev, t := Next(c, s, [], s, Acts(Retries(true)));
    }
  }
}
