/**
 What every run of the delivery protocol keeps when a worker's job timeout ends before the
 stale-sending threshold: one live worker at a time, the write-ahead marker, and the exact number
 of accepted submissions in every state.
 */
module DeliveryAccounting {
  import opened Options
  import opened MessageLifecycle
  import opened MR = MessageRow
  import opened DeliveryProtocol

  // ----- the invariant -----

  /** Accepted submissions that are over: bounced, or made by a provider retry that died. */
  function Past(l: Ledger): nat { l.bounced + l.lost }

  /** The exact count of accepted submissions: every one before the current one is over. */
  predicate Books(row: Row, l: Ledger) {
    match row.state
    case Sending =>
      && row.sendingAt.Some?
      && l.callsThisAttempt <= 1
      && Past(l) <= l.accepted <= Past(l) + 1
      && (row.transportAttemptedAt.None? ==> l.accepted == Past(l) && l.callsThisAttempt == 0)
    case Sent => l.accepted == Past(l) + 1
    case Delivered => l.accepted == Past(l) + 1
    case _ => l.accepted == Past(l)
  }

  /** A live worker owns the `Sending` row, and the marker is written before its transport call. */
  predicate Owns(c: Config, row: Row, now: int, l: Ledger, w: Worker) {
    && row.state == Sending
    && w.attempt == row.attemptCount
    && row.sendingAt == Some(w.claimedAt)
    && now <= w.claimedAt + c.workerTimeoutSeconds
    && match w.phase
       case Claimed => row.transportAttemptedAt.None?
       case Marked => row.transportAttemptedAt.Some? && l.callsThisAttempt == 0 && l.accepted == Past(l)
       case Submitted(r) =>
         && row.transportAttemptedAt.Some? && l.callsThisAttempt == 1
         && l.accepted == if r == Accepted then Past(l) + 1 else Past(l)
       case Stopped => true
  }

  ghost predicate Exclusive(s: Sys) {
    forall v, w :: Live(s, v) && Live(s, w) ==> v == w
  }

  ghost predicate Safe(c: Config, s: Sys) {
    && Books(s.row, s.ledger)
    && Exclusive(s)
    && (forall w :: Live(s, w) ==> Owns(c, s.row, s.now, s.ledger, s.workers[w]))
  }

  /** The deployment condition: a worker is killed before the reconciler may judge it dead. */
  predicate TimeoutBeforeStale(c: Config) {
    c.workerTimeoutSeconds < Max(1, c.staleThresholdSeconds)
  }

  // ----- preservation, one event at a time -----

  lemma ClaimKeepsSafe(c: Config, s: Sys, w: nat)
    requires Safe(c, s) && w !in s.workers
    ensures Safe(c, StepClaim(c, s, w))
  {
    var t := StepClaim(c, s, w);
    assert forall v :: v != w ==> Live(t, v) == Live(s, v);
  }

  lemma OwnerKeepsSafe(c: Config, s: Sys, w: nat, t: Sys)
    requires Safe(c, s) && Live(s, w) && t.workers.Keys == s.workers.Keys
    requires forall v | v in s.workers && v != w :: t.workers[v] == s.workers[v]
    requires Books(t.row, t.ledger)
    requires Live(t, w) ==> Owns(c, t.row, t.now, t.ledger, t.workers[w])
    ensures Safe(c, t)
  {
    assert forall v :: v != w ==> !Live(s, v) && !Live(t, v);
  }

  lemma WorkerStepKeepsSafe(c: Config, s: Sys, e: Event)
    requires Safe(c, s) && Enabled(c, s, e)
    requires e.JobRefuses? || e.JobMarks? || e.JobSubmits? || e.JobRecords? || e.JobDies?
    ensures Safe(c, Apply(c, s, e))
  {
    assert Live(s, e.worker);
    OwnerKeepsSafe(c, s, e.worker, Apply(c, s, e));
  }

  /** While a message is being sent, no other actor touches what the sender relies on. */
  lemma SendingIsUndisturbed(c: Config, row: Row, now: int, a: Action)
    requires row.state == Sending
    ensures var t := Perform(c, row, now, a).row;
      a != Reconciles ==> t == row.(userDeletedAt := t.userDeletedAt)
    ensures a == Reconciles && !IsStale(c, row, now) ==> Perform(c, row, now, a) == Unchanged(row)
  {
  }

  lemma ActionKeepsBooks(c: Config, s: Sys, a: Action)
    requires Books(s.row, s.ledger)
    ensures Books(StepAct(c, s, a).row, StepAct(c, s, a).ledger)
  {
  }

  lemma ActionKeepsSafe(c: Config, s: Sys, a: Action)
    requires Safe(c, s) && TimeoutBeforeStale(c)
    ensures Safe(c, StepAct(c, s, a))
  {
    var t := StepAct(c, s, a);
    ActionKeepsBooks(c, s, a);
    assert forall w :: Live(t, w) == Live(s, w);
    forall w | Live(t, w) ensures Owns(c, t.row, t.now, t.ledger, t.workers[w]) {
      assert Owns(c, s.row, s.now, s.ledger, s.workers[w]);
      SendingIsUndisturbed(c, s.row, s.now, a);
    }
  }

  /** The clock, retention, the operator and a dying provider retry leave the row's delivery columns alone. */
  lemma BystanderKeepsSafe(c: Config, s: Sys, e: Event)
    requires Safe(c, s) && Enabled(c, s, e)
    requires e.TimePasses? || e.RetryDies? || e.PrunesAttempts? || e.BackfillsAttempt? || e.ReconcilesUsage?
    ensures Safe(c, Apply(c, s, e))
  {
    assert forall w :: Live(Apply(c, s, e), w) == Live(s, w);
  }

  lemma StepKeepsSafe(c: Config, s: Sys, e: Event)
    requires Safe(c, s) && TimeoutBeforeStale(c) && Enabled(c, s, e)
    ensures Safe(c, Apply(c, s, e))
  {
    match e
    case JobClaims(w) => ClaimKeepsSafe(c, s, w);
    case Acts(a) => ActionKeepsSafe(c, s, a);
    case JobRefuses(_, _) => WorkerStepKeepsSafe(c, s, e);
    case JobMarks(_) => WorkerStepKeepsSafe(c, s, e);
    case JobSubmits(_, _) => WorkerStepKeepsSafe(c, s, e);
    case JobRecords(_, _) => WorkerStepKeepsSafe(c, s, e);
    case JobDies(_) => WorkerStepKeepsSafe(c, s, e);
    case _ => BystanderKeepsSafe(c, s, e);
  }

  lemma {:induction false} RunKeepsSafe(c: Config, s: Sys, ev: seq<Event>)
    requires Safe(c, s) && TimeoutBeforeStale(c) && Runs(c, s, ev)
    ensures Safe(c, After(c, s, ev))
    decreases |ev|
  {
    if ev != [] {
      RunKeepsSafe(c, s, ev[..|ev| - 1]);
      StepKeepsSafe(c, After(c, s, ev[..|ev| - 1]), ev[|ev| - 1]);
    }
  }

  lemma NobodyIsSafe(c: Config, s: Sys)
    requires Books(s.row, s.ledger) && s.workers == map[]
    ensures Safe(c, s)
  {
    assert forall w :: !Live(s, w);
  }

  lemma InitIsSafe(c: Config, s: Sys)
    requires Init(c, s)
    ensures Safe(c, s)
  {
    NobodyIsSafe(c, s);
  }

  lemma ReachableIsSafe(c: Config, s: Sys)
    requires Reachable(c, s) && TimeoutBeforeStale(c)
    ensures Safe(c, s)
  {
    var s0, ev :| Init(c, s0) && Runs(c, s0, ev) && After(c, s0, ev) == s;
    InitIsSafe(c, s0);
    RunKeepsSafe(c, s0, ev);
  }
}
