/** Exactly which deployments keep a message within its attempt budget on every run. */
module AttemptBudget {
  import opened Options
  import opened MessageLifecycle
  import opened MR = MessageRow
  import opened DeliveryProtocol
  import opened DeliveryAccounting
  import opened DeliveryTheorems
  import opened JobRefinement
  import opened OutboundMessages

  // ----- a single attempt per retry needs no timeout -----

  ghost predicate SingleAttempts(c: Config, s: Sys) {
    && Budgeted(c, s)
    && forall w :: Live(s, w) ==> s.workers[w].attempt >= 1
  }

  lemma StepKeepsSmallBudget(c: Config, s: Sys, e: Event)
    requires MaxAttempts(c) == 1 && SingleAttempts(c, s) && Enabled(c, s, e)
    ensures Budgeted(c, Apply(c, s, e))
  {
    match e
    case Acts(a) => ActionKeepsBudget(c, s, a);
    case JobRecords(w, _) => assert Live(s, w);
    case _ =>
  }

  lemma StepKeepsNumbersPositive(c: Config, s: Sys, e: Event, w: nat)
    requires SingleAttempts(c, s) && Enabled(c, s, e) && Live(Apply(c, s, e), w)
    ensures Apply(c, s, e).workers[w].attempt >= 1
  {
    if Live(s, w) {
      assert s.workers[w].attempt >= 1;
    }
  }

  lemma StepKeepsSingleAttempts(c: Config, s: Sys, e: Event)
    requires MaxAttempts(c) == 1 && SingleAttempts(c, s) && Enabled(c, s, e)
    ensures SingleAttempts(c, Apply(c, s, e))
  {
    StepKeepsSmallBudget(c, s, e);
    forall w | Live(Apply(c, s, e), w) ensures Apply(c, s, e).workers[w].attempt >= 1 {
      StepKeepsNumbersPositive(c, s, e, w);
    }
  }

  lemma {:induction false} RunKeepsSingleAttempts(c: Config, s: Sys, ev: seq<Event>)
    requires MaxAttempts(c) == 1 && SingleAttempts(c, s) && Runs(c, s, ev)
    ensures SingleAttempts(c, After(c, s, ev))
    decreases |ev|
  {
    if ev != [] {
      RunKeepsSingleAttempts(c, s, ev[..|ev| - 1]);
      StepKeepsSingleAttempts(c, After(c, s, ev[..|ev| - 1]), ev[|ev| - 1]);
    }
  }

  lemma SingleAttemptsAreBounded(c: Config, s: Sys)
    requires Reachable(c, s) && MaxAttempts(c) == 1
    ensures s.row.attemptCount <= MaxAttempts(c) + s.ledger.manualRetries
  {
    var s0, ev :| Init(c, s0) && Runs(c, s0, ev) && After(c, s0, ev) == s;
    assert Budgeted(c, s0);
    RunKeepsSingleAttempts(c, s0, ev);
  }

  // ----- otherwise a slow claimant breaks the budget -----

  /** Worker 0 still holds its claim of attempt 1 while the message waits for another attempt. */
  ghost predicate Overtaken(c: Config, s: Sys, n: nat) {
    && s.row.state == Queued && s.row.attemptCount < MaxAttempts(c) && s.ledger.manualRetries == 0
    && 0 in s.workers && s.workers[0].phase == Claimed && s.workers[0].attempt == 1
    && n > 0 && forall w | w in s.workers :: w < n
  }

  lemma SlowClaimantIsOvertaken(c: Config) returns (s0: Sys, ev: seq<Event>)
    requires !TimeoutBeforeStale(c) && MaxAttempts(c) > 1
    ensures Init(c, s0) && Runs(c, s0, ev) && Overtaken(c, After(c, s0, ev), 1)
  {
    s0, ev := SlowClaimantIsRequeued(c);
  }

  /** Temporary failures use up the attempts but one, behind the slow claimant's back. */
  lemma {:induction false} AttemptsRunOut(c: Config, s: Sys, n: nat) returns (ev: seq<Event>, m: nat)
    requires Overtaken(c, s, n)
    ensures Runs(c, s, ev) && Overtaken(c, After(c, s, ev), m) && After(c, s, ev).row.attemptCount == MaxAttempts(c) - 1
    decreases MaxAttempts(c) - s.row.attemptCount
  {
    ev, m := [], n;
    if s.row.attemptCount < MaxAttempts(c) - 1 {
      var job := JobEnds(c, s, n, None, TemporaryFailure, None);
      var rest, last := AttemptsRunOut(c, After(c, s, job), n + 1);
      Continue(c, s, job, rest);
      ev, m := job + rest, last;
    }
  }

  /** The slow claimant records its own temporary failure under its old attempt number, although another
      worker is at the last attempt. */
  lemma OldFailureRequeues(c: Config, s: Sys, n: nat) returns (ev: seq<Event>, t: Sys)
    requires Overtaken(c, s, n) && s.row.attemptCount == MaxAttempts(c) - 1 && MaxAttempts(c) > 1
    ensures Runs(c, s, ev) && After(c, s, ev) == t
    ensures t.row.state == Queued && t.row.attemptCount == MaxAttempts(c) && t.ledger.manualRetries == 0
    ensures n + 1 !in t.workers
  {
    var first, m := Two(c, s, JobClaims(n), JobMarks(0));
    var second;
    second, t := Two(c, m, JobSubmits(0, TemporaryFailure), JobRecords(0, None));
    Continue(c, s, first, second);
    ev := first + second;
  }

  /** So the message gets one attempt too many. */
  lemma OneAttemptTooMany(c: Config, s: Sys, n: nat) returns (ev: seq<Event>)
    requires Overtaken(c, s, n) && s.row.attemptCount == MaxAttempts(c) - 1 && MaxAttempts(c) > 1
    ensures Runs(c, s, ev)
    ensures After(c, s, ev).row.attemptCount > MaxAttempts(c) + After(c, s, ev).ledger.manualRetries
  {
    var t;
    ev, t := OldFailureRequeues(c, s, n);
    ev, t := Next(c, s, ev, t, JobClaims(n + 1));
  }

  /** No run exceeds the configured attempts plus the manual retries exactly when the job timeout is below
      the stale threshold, or a single attempt is configured. */
  lemma BudgetHoldsIff(c: Config)
    ensures (forall s :: Reachable(c, s) ==> s.row.attemptCount <= Max(1, c.sendMaxAttempts) + s.ledger.manualRetries)
            <==> TimeoutBeforeStale(c) || c.sendMaxAttempts <= 1
  {
    if TimeoutBeforeStale(c) {
      forall s | Reachable(c, s) ensures s.row.attemptCount <= Max(1, c.sendMaxAttempts) + s.ledger.manualRetries {
        AttemptsAreBounded(c, s);
      }
    } else if MaxAttempts(c) == 1 {
      forall s | Reachable(c, s) ensures s.row.attemptCount <= Max(1, c.sendMaxAttempts) + s.ledger.manualRetries {
        SingleAttemptsAreBounded(c, s);
      }
    } else {
      var s0, slow := SlowClaimantIsOvertaken(c);
      var more, n := AttemptsRunOut(c, After(c, s0, slow), 1);
      Continue(c, s0, slow, more);
      var last := OneAttemptTooMany(c, After(c, s0, slow + more), n);
      Continue(c, s0, slow + more, last);
      assert Reachable(c, After(c, s0, slow + more + last));
    }
  }
}
