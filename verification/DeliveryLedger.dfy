/** The ledger counts what happened: its figures are numbers of events of the run, and so is what the
    theorems say about them. */
module DeliveryLedger {
  import opened Options
  import opened MessageLifecycle
  import opened MR = MessageRow
  import opened DeliveryProtocol
  import opened DeliveryAccounting
  import opened DeliveryTheorems

  /** What a transport answers in this event, if it is called. */
  function Submission(s: Sys, e: Event): Option<TransportResult> {
    match e
    case JobSubmits(_, answer) => Some(answer)
    case RetryDies(_, answer) => Some(answer)
    case Acts(RetriesWithProvider(checked, answer, _)) =>
      if s.row.state == Failed && checked then Some(answer) else None
    case _ => None
  }

  datatype Kind = Call | Acceptance | Bounce | Loss | ManualRetry | Attempt

  /** The event, happening in this state, is of this kind. */
  predicate Is(c: Config, s: Sys, e: Event, kind: Kind)
    requires Enabled(c, s, e)
  {
    var t := Apply(c, s, e).row;
    match kind
    case Call => Submission(s, e).Some?
    case Acceptance => Submission(s, e) == Some(Accepted)
    case Bounce => s.row.state == Sent && t.state == Failed
    case Loss => e.RetryDies? && e.sent == Accepted
    case ManualRetry => s.row.state == Failed && e.Acts? && (t.state == Queued || t.attemptCount > s.row.attemptCount)
    case Attempt => t.attemptCount > s.row.attemptCount
  }

  ghost function Number(c: Config, s: Sys, ev: seq<Event>, kind: Kind): nat
    requires Runs(c, s, ev)
    decreases |ev|
  {
    if ev == [] then 0
    else
      var front := ev[..|ev| - 1];
      Number(c, s, front, kind) + if Is(c, After(c, s, front), ev[|ev| - 1], kind) then 1 else 0
  }

  /** The figure of the ledger that stands for a kind of events. */
  function Figure(l: Ledger, kind: Kind): nat {
    match kind
    case Call => l.transportCalls
    case Acceptance => l.accepted
    case Bounce => l.bounced
    case Loss => l.lost
    case ManualRetry => l.manualRetries
    case Attempt => |l.attempts|
  }

  /** Retries and bounces apart, an action is none of these events and moves no figure. */
  lemma OtherActionsCountNothing(c: Config, s: Sys, a: Action, kind: Kind)
    requires !a.Retries? && !a.RetriesWithProvider? && !a.ProviderFails?
    ensures Figure(StepAct(c, s, a).ledger, kind) == Figure(s.ledger, kind) && !Is(c, s, Acts(a), kind)
  {
  }

  lemma RetryIsCounted(c: Config, s: Sys, a: Action, kind: Kind)
    requires a.RetriesWithProvider?
    ensures Figure(StepAct(c, s, a).ledger, kind)
         == Figure(s.ledger, kind) + if Is(c, s, Acts(a), kind) then 1 else 0
  {
  }

  lemma ActionIsCounted(c: Config, s: Sys, a: Action, kind: Kind)
    ensures Figure(StepAct(c, s, a).ledger, kind)
         == Figure(s.ledger, kind) + if Is(c, s, Acts(a), kind) then 1 else 0
  {
    if a.RetriesWithProvider? {
      RetryIsCounted(c, s, a, kind);
    } else if !a.Retries? && !a.ProviderFails? {
      OtherActionsCountNothing(c, s, a, kind);
    }
  }

  lemma StepIsCounted(c: Config, s: Sys, e: Event, kind: Kind)
    requires Enabled(c, s, e)
    ensures Figure(Apply(c, s, e).ledger, kind) == Figure(s.ledger, kind) + if Is(c, s, e, kind) then 1 else 0
  {
    if e.Acts? {
      ActionIsCounted(c, s, e.action, kind);
    }
  }

  /** On every run each figure grows by exactly the number of events of its kind. */
  lemma {:induction false} LedgerCountsTheRun(c: Config, s: Sys, ev: seq<Event>, kind: Kind)
    requires Runs(c, s, ev)
    ensures Figure(After(c, s, ev).ledger, kind) == Figure(s.ledger, kind) + Number(c, s, ev, kind)
    decreases |ev|
  {
    if ev != [] {
      var front := ev[..|ev| - 1];
      LedgerCountsTheRun(c, s, front, kind);
      StepIsCounted(c, After(c, s, front), ev[|ev| - 1], kind);
    }
  }

  /** A run has at most one acceptance more than bounces, leaving aside those of retries that died. */
  ghost predicate AtMostOnce(c: Config, s0: Sys, ev: seq<Event>)
    requires Runs(c, s0, ev)
  {
    Number(c, s0, ev, Acceptance) <= Number(c, s0, ev, Bounce) + Number(c, s0, ev, Loss) + 1
  }

  lemma FreshLedger(c: Config, s0: Sys, ev: seq<Event>)
    requires Init(c, s0) && Runs(c, s0, ev)
    ensures var l := After(c, s0, ev).ledger;
      && l.accepted == Number(c, s0, ev, Acceptance) && l.bounced == Number(c, s0, ev, Bounce)
      && l.lost == Number(c, s0, ev, Loss)
  {
    LedgerCountsTheRun(c, s0, ev, Acceptance);
    LedgerCountsTheRun(c, s0, ev, Bounce);
    LedgerCountsTheRun(c, s0, ev, Loss);
  }

  /** Counted in events: no run from a fresh message is accepted more than once per bounce and lost retry if and
      only if the job timeout is below the stale threshold. */
  lemma RunsAreAtMostOnceIffTimeoutBeforeStale(c: Config)
    ensures (forall s0, ev | Init(c, s0) && Runs(c, s0, ev) :: AtMostOnce(c, s0, ev))
            <==> c.workerTimeoutSeconds < Max(1, c.staleThresholdSeconds)
  {
    if TimeoutBeforeStale(c) {
      forall s0, ev | Init(c, s0) && Runs(c, s0, ev) ensures AtMostOnce(c, s0, ev) {
        FreshLedger(c, s0, ev);
        assert Reachable(c, After(c, s0, ev));
        AcceptedSubmissionsAreAccounted(c, After(c, s0, ev));
      }
    } else {
      var s0, slow := SlowClaimantIsRequeued(c);
      var more := StalledClaimantSendsTwice(c, After(c, s0, slow), 0, 1);
      Continue(c, s0, slow, more);
      FreshLedger(c, s0, slow + more);
      assert !AtMostOnce(c, s0, slow + more);
    }
  }
}
