/** Delivery of a message ends, on every run: only manual retries, each by a bounded amount, prolong it. */
module DeliveryTermination {
  import opened Options
  import opened MessageLifecycle
  import opened MR = MessageRow
  import opened DeliveryProtocol
  import opened DeliveryAccounting
  import opened DeliveryTheorems
  import opened Sums

  // ----- delivery steps -----

  /** Events that advance a delivery: a claim that wins, any later step of a worker, and a
      reconciliation that acts. */
  predicate Advances(c: Config, s: Sys, e: Event) {
    match e
    case JobClaims(_) => s.row.state == Queued
    case Acts(a) => a == Reconciles && Perform(c, s.row, s.now, a).reply == Done
    case JobRefuses(_, _) => true
    case JobMarks(_) => true
    case JobSubmits(_, _) => true
    case JobRecords(_, _) => true
    case JobDies(_) => true
    case _ => false
  }

  /** Nothing else delivers: without such an event no worker starts, moves or stops, and the message neither
      enters nor leaves `Sending`. */
  lemma OnlyAdvancesDeliver(c: Config, s: Sys, e: Event)
    requires Enabled(c, s, e) && !Advances(c, s, e)
    ensures var t := Apply(c, s, e);
      && (t.row.state == Sending <==> s.row.state == Sending)
      && (forall w | w in s.workers :: w in t.workers && t.workers[w] == s.workers[w])
      && forall w | Live(t, w) :: w in s.workers
  {
    if e.Acts? && s.row.state == Sending {
      SendingIsUndisturbed(c, s.row, s.now, e.action);
    }
  }

  ghost function Advancing(c: Config, s: Sys, ev: seq<Event>): nat
    requires Runs(c, s, ev)
    decreases |ev|
  {
    if ev == [] then 0
    else
      var front := ev[..|ev| - 1];
      Advancing(c, s, front) + if Advances(c, After(c, s, front), ev[|ev| - 1]) then 1 else 0
  }

  lemma RetriesOnlyGrow(c: Config, s: Sys, e: Event)
    requires Enabled(c, s, e)
    ensures Apply(c, s, e).ledger.manualRetries >= s.ledger.manualRetries
  {
  }

  // ----- the work that is left, for any timeouts and any number of live workers -----

  /** What a worker still has to do; one whose attempt is not the last can also put the message back into the
      queue, for another attempt. */
  function Effort(c: Config, w: Worker): nat {
    var steps := match w.phase
      case Claimed => 3
      case Marked => 2
      case Submitted(_) => 1
      case Stopped => 0;
    steps + if w.phase != Stopped && w.attempt < MaxAttempts(c) then 5 else 0
  }

  function Efforts(c: Config, workers: map<nat, Worker>): map<nat, nat> {
    map w | w in workers :: Effort(c, workers[w])
  }

  /** What the row still allows: a claim now or after reconciliation, two for each attempt that is not the
      last, one move of reconciliation out of `Sending`, and one flag. */
  function RowWork(c: Config, row: Row): nat {
    (if Unsent(row.state) || row.state == Queued || (row.state == Sending && row.attemptCount < MaxAttempts(c))
     then 5 else 0)
    + 10 * Max(0, MaxAttempts(c) - 1 - row.attemptCount)
    + (if row.state == Sending then 1 else 0)
    + (if row.flaggedAt.None? then 1 else 0)
  }

  ghost function Work(c: Config, s: Sys): nat {
    RowWork(c, s.row) + Sum(Efforts(c, s.workers))
  }

  // ----- every step spends some -----

  lemma WorkOfMove(c: Config, s: Sys, t: Sys, w: nat)
    requires w in t.workers && t.workers == s.workers[w := t.workers[w]]
    ensures Work(c, t) - RowWork(c, t.row)
            == Work(c, s) - RowWork(c, s.row) - (if w in s.workers then Effort(c, s.workers[w]) else 0)
               + Effort(c, t.workers[w])
  {
    SumOfUpdate(Efforts(c, s.workers), w, Effort(c, t.workers[w]));
    assert Efforts(c, t.workers) == Efforts(c, s.workers)[w := Effort(c, t.workers[w])];
  }

  lemma ClaimSpendsWork(c: Config, s: Sys, w: nat)
    requires w !in s.workers
    ensures StepClaim(c, s, w).ledger.manualRetries == s.ledger.manualRetries
    ensures Work(c, StepClaim(c, s, w)) + (if s.row.state == Queued then 1 else 0) <= Work(c, s)
  {
    WorkOfMove(c, s, StepClaim(c, s, w), w);
  }

  /** A worker may put the message back into the queue, but then has that much less to do itself. */
  lemma WorkerSpendsItsEffort(c: Config, s: Sys, e: Event)
    requires Enabled(c, s, e)
    requires e.JobRefuses? || e.JobMarks? || e.JobSubmits? || e.JobRecords? || e.JobDies?
    ensures var t, w := Apply(c, s, e), e.worker;
      && w in s.workers && w in t.workers && t.workers == s.workers[w := t.workers[w]]
      && t.ledger.manualRetries == s.ledger.manualRetries
      && RowWork(c, t.row) + Effort(c, t.workers[w]) < RowWork(c, s.row) + Effort(c, s.workers[w])
  {
  }

  lemma WorkerStepSpendsWork(c: Config, s: Sys, e: Event)
    requires Enabled(c, s, e)
    requires e.JobRefuses? || e.JobMarks? || e.JobSubmits? || e.JobRecords? || e.JobDies?
    ensures Apply(c, s, e).ledger.manualRetries == s.ledger.manualRetries
    ensures Work(c, Apply(c, s, e)) < Work(c, s)
  {
    var t := Apply(c, s, e);
    WorkerSpendsItsEffort(c, s, e);
    WorkOfMove(c, s, t, e.worker);
  }

  lemma BystanderLeavesWork(c: Config, s: Sys, e: Event)
    requires Enabled(c, s, e)
    requires e.TimePasses? || e.RetryDies? || e.PrunesAttempts? || e.BackfillsAttempt? || e.ReconcilesUsage?
    ensures Apply(c, s, e).ledger.manualRetries == s.ledger.manualRetries && !Advances(c, s, e)
    ensures Work(c, Apply(c, s, e)) == Work(c, s)
  {
  }

  lemma ActionSpendsWork(c: Config, s: Sys, a: Action)
    ensures var t := StepAct(c, s, a);
      && t.workers == s.workers && t.ledger.manualRetries >= s.ledger.manualRetries
      && RowWork(c, t.row) + (if Advances(c, s, Acts(a)) then 1 else 0)
         <= RowWork(c, s.row) + 5 * (t.ledger.manualRetries - s.ledger.manualRetries)
  {
  }

  /** No step raises the work left but a manual retry, by at most 5, and every delivery step lowers it:
      from any state, however many workers are live. */
  lemma StepSpendsWork(c: Config, s: Sys, e: Event)
    requires Enabled(c, s, e)
    ensures var t := Apply(c, s, e);
      Work(c, t) + (if Advances(c, s, e) then 1 else 0)
      <= Work(c, s) + 5 * (t.ledger.manualRetries - s.ledger.manualRetries)
  {
    if e.Acts? {
      ActionSpendsWork(c, s, e.action);
    } else if e.JobClaims? {
      ClaimSpendsWork(c, s, e.worker);
    } else if e.JobRefuses? || e.JobMarks? || e.JobSubmits? || e.JobRecords? || e.JobDies? {
      WorkerStepSpendsWork(c, s, e);
    } else {
      BystanderLeavesWork(c, s, e);
    }
  }

  /** From any state, whatever its workers, users, the dispatcher, provider events and the clock do, and for
      any timeouts: on every continuation the delivery steps taken, with the work then left, never exceed
      the work there was and 5 for each manual retry. */
  lemma {:induction false} DeliveryTerminates(c: Config, s: Sys, ev: seq<Event>)
    requires Runs(c, s, ev)
    ensures var t := After(c, s, ev);
      && t.ledger.manualRetries >= s.ledger.manualRetries
      && Advancing(c, s, ev) + Work(c, t) <= Work(c, s) + 5 * (t.ledger.manualRetries - s.ledger.manualRetries)
    decreases |ev|
  {
    if ev != [] {
      var front, e := ev[..|ev| - 1], ev[|ev| - 1];
      DeliveryTerminates(c, s, front);
      RetriesOnlyGrow(c, After(c, s, front), e);
      StepSpendsWork(c, After(c, s, front), e);
    }
  }

  lemma WorkAtFirst(c: Config, s: Sys)
    requires Init(c, s)
    ensures Work(c, s) == 10 * MaxAttempts(c) - 4
  {
    assert Efforts(c, s.workers) == map[];
  }

  /** So the whole life of a message has at most ten delivery steps per configured attempt, less four, and
      five more for each manual retry. */
  lemma DeliveryStepsAreBounded(c: Config, s0: Sys, ev: seq<Event>)
    requires Init(c, s0) && Runs(c, s0, ev)
    ensures Advancing(c, s0, ev) <= 10 * Max(1, c.sendMaxAttempts) - 4 + 5 * After(c, s0, ev).ledger.manualRetries
  {
    WorkAtFirst(c, s0);
    DeliveryTerminates(c, s0, ev);
  }

  // ----- fewer steps when one worker at a time is in flight -----

  /** How much delivery work one message can still cause when at most one worker is in flight. */
  ghost function Remaining(c: Config, s: Sys): int {
    var attemptsLeft := 5 * (MaxAttempts(c) + s.ledger.manualRetries - s.row.attemptCount);
    match s.row.state
    case Sending =>
      attemptsLeft +
      (if exists w :: InPhase(s, w, Claimed) then 4
       else if exists w :: InPhase(s, w, Marked) then 3
       else if exists w :: Live(s, w) then 2
       else if s.row.flaggedAt.None? then 1 else 0)
    case Sent => 0
    case Delivered => 0
    case Failed => 0
    case Cancelled => 0
    case _ => attemptsLeft
  }

  lemma OnlyOneInPhase(s: Sys, w: nat)
    requires Exclusive(s) && Live(s, w)
    ensures forall v :: InPhase(s, v, Claimed) ==> v == w
    ensures forall v :: InPhase(s, v, Marked) ==> v == w
    ensures s.workers[w].phase == Claimed ==> InPhase(s, w, Claimed)
    ensures s.workers[w].phase == Marked ==> InPhase(s, w, Marked)
  {
    assert forall v :: InPhase(s, v, Claimed) || InPhase(s, v, Marked) ==> Live(s, v);
  }

  lemma WorkerStepSpendsRemaining(c: Config, s: Sys, e: Event)
    requires Safe(c, s) && Enabled(c, s, e)
    requires e.JobRefuses? || e.JobMarks? || e.JobSubmits? || e.JobRecords? || e.JobDies?
    requires Budgeted(c, s)
    ensures Remaining(c, Apply(c, s, e)) < Remaining(c, s)
  {
    var w, t := e.worker, Apply(c, s, e);
    assert Live(s, w);
    OnlyOneInPhase(s, w);
    assert forall v :: v != w ==> Live(t, v) == Live(s, v);
    assert Exclusive(t);
    if Live(t, w) { OnlyOneInPhase(t, w); }
    assert forall v :: InPhase(t, v, Claimed) ==> Live(t, v);
    assert forall v :: InPhase(t, v, Marked) ==> Live(t, v);
  }

  lemma ClaimSpendsRemaining(c: Config, s: Sys, w: nat)
    requires Safe(c, s) && Budgeted(c, s) && w !in s.workers
    ensures Remaining(c, StepClaim(c, s, w)) <= Remaining(c, s)
    ensures s.row.state == Queued ==> Remaining(c, StepClaim(c, s, w)) < Remaining(c, s)
  {
    var t := StepClaim(c, s, w);
    assert forall v :: v != w ==> Live(t, v) == Live(s, v);
    assert forall v, p :: v != w ==> InPhase(t, v, p) == InPhase(s, v, p);
    if s.row.state == Queued {
      assert InPhase(t, w, Claimed);
    }
  }

  lemma ActionAtRestSpendsRemaining(c: Config, s: Sys, a: Action)
    requires Budgeted(c, s) && s.row.state != Sending
    requires StepAct(c, s, a).ledger.manualRetries == s.ledger.manualRetries
    ensures Remaining(c, StepAct(c, s, a)) <= Remaining(c, s) && !Advances(c, s, Acts(a))
  {
  }

  lemma SameWorkersSameRemaining(c: Config, s: Sys, t: Sys)
    requires t.row == s.row.(reservation := t.row.reservation, userDeletedAt := t.row.userDeletedAt)
    requires t.workers == s.workers && t.ledger.manualRetries == s.ledger.manualRetries
    ensures Remaining(c, t) == Remaining(c, s)
  {
    assert forall v :: Live(t, v) == Live(s, v);
    assert forall v, p :: InPhase(t, v, p) == InPhase(s, v, p);
  }

  lemma ReconciliationSpendsRemaining(c: Config, s: Sys)
    requires Safe(c, s) && Budgeted(c, s) && TimeoutBeforeStale(c) && s.row.state == Sending
    requires Perform(c, s.row, s.now, Reconciles).reply == Done
    ensures Remaining(c, StepAct(c, s, Reconciles)) < Remaining(c, s)
  {
    SendingIsUndisturbed(c, s.row, s.now, Reconciles);
    assert IsStale(c, s.row, s.now);
    assert forall v :: !Live(s, v);
    assert forall v, p :: InPhase(StepAct(c, s, Reconciles), v, p) == InPhase(s, v, p);
    assert forall v :: !Live(StepAct(c, s, Reconciles), v);
  }

  lemma ActionInFlightSpendsRemaining(c: Config, s: Sys, a: Action)
    requires Safe(c, s) && Budgeted(c, s) && TimeoutBeforeStale(c) && s.row.state == Sending
    requires StepAct(c, s, a).ledger.manualRetries == s.ledger.manualRetries
    ensures Remaining(c, StepAct(c, s, a)) <= Remaining(c, s)
    ensures Advances(c, s, Acts(a)) ==> Remaining(c, StepAct(c, s, a)) < Remaining(c, s)
  {
    SendingIsUndisturbed(c, s.row, s.now, a);
    if a != Reconciles {
      SameWorkersSameRemaining(c, s, StepAct(c, s, a));
    } else if Perform(c, s.row, s.now, a).reply == Done {
      ReconciliationSpendsRemaining(c, s);
    }
  }

  lemma ActionSpendsRemaining(c: Config, s: Sys, a: Action)
    requires Safe(c, s) && Budgeted(c, s) && TimeoutBeforeStale(c)
    requires StepAct(c, s, a).ledger.manualRetries == s.ledger.manualRetries
    ensures Remaining(c, StepAct(c, s, a)) <= Remaining(c, s)
    ensures Advances(c, s, Acts(a)) ==> Remaining(c, StepAct(c, s, a)) < Remaining(c, s)
  {
    if s.row.state == Sending {
      ActionInFlightSpendsRemaining(c, s, a);
    } else {
      ActionAtRestSpendsRemaining(c, s, a);
    }
  }

  lemma StepSpendsRemaining(c: Config, s: Sys, e: Event)
    requires Safe(c, s) && Budgeted(c, s) && TimeoutBeforeStale(c) && Enabled(c, s, e)
    requires Apply(c, s, e).ledger.manualRetries == s.ledger.manualRetries
    ensures Remaining(c, Apply(c, s, e)) <= Remaining(c, s)
    ensures Advances(c, s, e) ==> Remaining(c, Apply(c, s, e)) < Remaining(c, s)
  {
    match e
    case JobClaims(w) => ClaimSpendsRemaining(c, s, w);
    case Acts(a) => ActionSpendsRemaining(c, s, a);
    case JobRefuses(_, _) => WorkerStepSpendsRemaining(c, s, e);
    case JobMarks(_) => WorkerStepSpendsRemaining(c, s, e);
    case JobSubmits(_, _) => WorkerStepSpendsRemaining(c, s, e);
    case JobRecords(_, _) => WorkerStepSpendsRemaining(c, s, e);
    case JobDies(_) => WorkerStepSpendsRemaining(c, s, e);
    case _ => SameWorkersSameRemaining(c, s, Apply(c, s, e));
  }

  lemma {:induction false} DeliveryFitsRemaining(c: Config, s: Sys, ev: seq<Event>)
    requires Safe(c, s) && Budgeted(c, s) && TimeoutBeforeStale(c) && Runs(c, s, ev)
    ensures After(c, s, ev).ledger.manualRetries >= s.ledger.manualRetries
    ensures After(c, s, ev).ledger.manualRetries == s.ledger.manualRetries ==>
              Advancing(c, s, ev) + Remaining(c, After(c, s, ev)) <= Remaining(c, s)
    decreases |ev|
  {
    if ev != [] {
      var front, e := ev[..|ev| - 1], ev[|ev| - 1];
      DeliveryFitsRemaining(c, s, front);
      var m := After(c, s, front);
      RunKeepsSafe(c, s, front);
      RunKeepsBudget(c, s, front);
      RetriesOnlyGrow(c, m, e);
      if After(c, s, ev).ledger.manualRetries == s.ledger.manualRetries {
        StepSpendsRemaining(c, m, e);
      }
    }
  }

  lemma RemainingIsBounded(c: Config, s: Sys)
    requires Budgeted(c, s)
    ensures 0 <= Remaining(c, s) <= 5 * (MaxAttempts(c) + s.ledger.manualRetries - s.row.attemptCount) + 4
  {
  }

  /** With the job timeout below the stale threshold five steps per attempt still allowed, and four for one
      in flight, are enough. */
  lemma FewerStepsWithTimeout(c: Config, s: Sys, ev: seq<Event>)
    requires Reachable(c, s) && TimeoutBeforeStale(c) && Runs(c, s, ev)
    requires After(c, s, ev).ledger.manualRetries == s.ledger.manualRetries
    ensures Advancing(c, s, ev) <= 5 * (Max(1, c.sendMaxAttempts) + s.ledger.manualRetries - s.row.attemptCount) + 4
  {
    ReachableIsBudgeted(c, s);
    ReachableExtends(c, s, ev);
    ReachableIsBudgeted(c, After(c, s, ev));
    RemainingIsBounded(c, s);
    RemainingIsBounded(c, After(c, s, ev));
    DeliveryFitsRemaining(c, s, ev);
  }
}
