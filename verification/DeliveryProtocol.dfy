/**
 One outbound message driven by any number of delivery workers at once, by its user, the schedule
 dispatcher, an admin, provider events and reconciliation.

 A delivery worker runs in separate steps (claim, marker, transport call, outcome) and may die
 between any two of them; every other actor changes the row in one locked step. A worker that the
 queue's job timeout has overtaken is killed, so time cannot pass beyond a live worker's deadline.
 */
module DeliveryProtocol {
  import opened Options
  import opened MessageLifecycle
  import opened MR = MessageRow

  datatype Phase = Claimed | Marked | Submitted(result: TransportResult) | Stopped

  /** A run of the delivery job: what it remembers of its own claim, and how far it got. */
  datatype Worker = Worker(attempt: nat, claimedAt: int, phase: Phase)

  /** A row of the delivery-attempt table. A backfilled row was written long after its attempt, for a row
      that was missing. */
  datatype AttemptRow = AttemptRow(createdAt: int, completed: bool, backfilled: bool)

  /** Counts of everything that ever happened to the message, and its delivery-attempt rows. */
  datatype Ledger = Ledger(
    transportCalls: nat,
    accepted: nat,           // submissions the transport accepted
    bounced: nat,            // Sent -> Failed provider events
    lost: nat,               // accepted submissions of provider retries that died before committing
    lostCalls: nat,          // all submissions of such retries
    manualRetries: nat,      // user retries and provider retries that took effect
    attempts: seq<nat>,      // numbers of the attempts started and committed, oldest first
    completed: set<nat>,     // numbers of those whose outcome was reported
    records: map<nat, AttemptRow>,
    callsThisAttempt: nat,
    jobSent: nat,            // times a job moved the message to Sent
    reserves: nat,
    commits: nat,
    repairs: nat,            // commits made by the reconciliation of usage
    releases: nat)

  const EMPTY_LEDGER := Ledger(0, 0, 0, 0, 0, 0, [], {}, map[], 0, 0, 0, 0, 0, 0)

  const DAY := 86400

  datatype Sys = Sys(row: Row, now: int, workers: map<nat, Worker>, ledger: Ledger)

  /** One atomic step of an actor other than a delivery worker. */
  datatype Action =
    | SubmitsDraft(draftVersion: int, prepared: Option<nat>, quotaOk: bool)
    | UpdatesDraft(draftVersion: int)
    | DeletesDraft(expected: Option<int>)
    | Schedules(draftVersion: int, at: int, prepared: Option<nat>)
    | Reschedules(version: int, at: int, prepared: Option<nat>)
    | Unschedules(version: int)
    | SendsNow(version: int, prepared: Option<nat>, quotaOk: bool)
    | DispatcherActs(verdict: Verdict)
    | DispatcherReleases
    | Cancels
    | Deletes
    | Retries(authorized: bool)
    | RetriesWithProvider(checked: bool, result: TransportResult, code: Option<FailureCode>)
    | ProviderDelivers
    | ProviderFails(failure: FailureCode)
    | Reconciles
    | FlagsConflict

  datatype Event =
    | JobClaims(worker: nat)
    | JobRefuses(worker: nat, refusal: FailureCode)
    | JobMarks(worker: nat)
    | JobSubmits(worker: nat, answer: TransportResult)
    | JobRecords(worker: nat, reason: Option<FailureCode>)
    | JobDies(worker: nat)
    | Acts(action: Action)
    | RetryDies(passed: bool, sent: TransportResult)  // a provider retry dies between its submission and its commit
    | PrunesAttempts(gone: set<nat>)                  // retention deletes old delivery-attempt rows
    | BackfillsAttempt                                // the row of the latest attempt is missing and rewritten
    | ReconcilesUsage(repair: bool)                   // an operator commits or expires a reservation left over
    | TimePasses(seconds: nat)

  predicate Live(s: Sys, w: nat) {
    w in s.workers && s.workers[w].phase != Stopped
  }

  predicate InPhase(s: Sys, w: nat, p: Phase) {
    w in s.workers && s.workers[w].phase == p
  }

  predicate Enabled(c: Config, s: Sys, e: Event) {
    match e
    case JobClaims(w) => w !in s.workers
    case JobRefuses(w, _) => InPhase(s, w, Claimed)
    case JobMarks(w) => InPhase(s, w, Claimed)
    case JobSubmits(w, _) => InPhase(s, w, Marked)
    case JobRecords(w, _) => w in s.workers && s.workers[w].phase.Submitted?
    case JobDies(w) => Live(s, w)
    case Acts(_) => true
    case RetryDies(passed, _) => s.row.state == Failed && passed
    case PrunesAttempts(gone) =>
      c.attemptDays >= 1
      && forall k | k in gone :: k in s.ledger.records && s.ledger.records[k].createdAt < s.now - c.attemptDays * DAY
    case BackfillsAttempt =>
      s.row.state in {Sent, Delivered, Failed} && s.row.attemptCount >= 1 && s.row.attemptCount !in s.ledger.records
    case ReconcilesUsage(_) => true
    case TimePasses(d) =>
      forall w | w in s.workers && Live(s, w) :: s.now + d <= s.workers[w].claimedAt + c.workerTimeoutSeconds
  }

  // ----- steps -----

  function MoveWorker(s: Sys, w: nat, p: Phase): Sys
    requires w in s.workers
  {
    s.(workers := s.workers[w := s.workers[w].(phase := p)])
  }

  function CountUsage(l: Ledger, call: UsageCall): Ledger {
    match call
    case NoCall => l
    case Reserve => l.(reserves := l.reserves + 1)
    case Commit => l.(commits := l.commits + 1)
    case Release => l.(releases := l.releases + 1)
    case Expire => l
  }

  /** An attempt begins, with its delivery-attempt row. */
  function Start(l: Ledger, attempt: nat, now: int): Ledger {
    l.(attempts := l.attempts + [attempt], callsThisAttempt := 0,
       records := if attempt in l.records then l.records else l.records[attempt := AttemptRow(now, false, false)])
  }

  /** The outcome of an attempt is recorded in its row, if that is still there. */
  function Complete(l: Ledger, attempt: nat): Ledger {
    l.(completed := l.completed + {attempt},
       records := if attempt in l.records then l.records[attempt := l.records[attempt].(completed := true)]
           else l.records)
  }

  function StepClaim(c: Config, s: Sys, w: nat): Sys {
    var o := Claim(c, s.row, s.now);
    if o.reply == Done then
      s.(row := o.row,
         workers := s.workers[w := Worker(o.row.attemptCount, s.now, Claimed)],
         ledger := Start(s.ledger, o.row.attemptCount, s.now))
    else
      s.(workers := s.workers[w := Worker(0, s.now, Stopped)])
  }

  function StepRefuse(c: Config, s: Sys, w: nat, code: FailureCode): Sys
    requires w in s.workers
  {
    var o := MarkFailed(c, s.row, code, false);
    var l := CountUsage(s.ledger, o.usage);
    MoveWorker(s.(row := o.row, ledger := if o.reply == Done then Complete(l, s.workers[w].attempt) else l), w, Stopped)
  }

  /** The marker update is conditional on `Sending`, but the job goes on whether or not it matched. */
  function StepMark(c: Config, s: Sys, w: nat): Sys
    requires w in s.workers
  {
    MoveWorker(s.(row := MarkAttempted(c, s.row, s.now).row), w, Marked)
  }

  function CountSubmission(l: Ledger, result: TransportResult): Ledger {
    l.(transportCalls := l.transportCalls + 1,
       callsThisAttempt := l.callsThisAttempt + 1,
       accepted := if result == Accepted then l.accepted + 1 else l.accepted)
  }

  function StepSubmit(s: Sys, w: nat, result: TransportResult): Sys
    requires w in s.workers
  {
    MoveWorker(s.(ledger := CountSubmission(s.ledger, result)), w, Submitted(result))
  }

  function StepRecord(c: Config, s: Sys, w: nat, code: Option<FailureCode>): Sys
    requires w in s.workers && s.workers[w].phase.Submitted?
  {
    var o := RecordResult(c, s.row, s.workers[w].attempt, s.workers[w].phase.result, code);
    var l := CountUsage(s.ledger, o.usage);
    var l' := if o.row.state == Sent && s.row.state != Sent then l.(jobSent := l.jobSent + 1) else l;
    // a temporary failure is recorded whether or not the message was still being sent
    var recorded := o.reply == Done || s.workers[w].phase.result == TemporaryFailure;
    MoveWorker(s.(row := o.row, ledger := if recorded then Complete(l', s.workers[w].attempt) else l'), w, Stopped)
  }

  /** The row and the attempt of the retry are rolled back; its submission is not. */
  function StepRetryDies(s: Sys, result: TransportResult): Sys {
    s.(ledger := s.ledger.(
         transportCalls := s.ledger.transportCalls + 1,
         lostCalls := s.ledger.lostCalls + 1,
         accepted := if result == Accepted then s.ledger.accepted + 1 else s.ledger.accepted,
         lost := if result == Accepted then s.ledger.lost + 1 else s.ledger.lost))
  }

  function StepPrune(s: Sys, gone: set<nat>): Sys {
    s.(ledger := s.ledger.(records := s.ledger.records - gone))
  }

  /** The repair derives the row from the settled message, with an outcome in any case. */
  function StepBackfill(s: Sys): Sys {
    s.(ledger := s.ledger.(records := s.ledger.records[s.row.attemptCount := AttemptRow(s.now, true, true)]))
  }

  /** The state of the message was looked at before, without its lock, so it may be any by now. */
  function StepReconcileUsage(c: Config, s: Sys, repair: bool): Sys {
    var row := s.row.(reservation := Settle(c, s.row.reservation, if repair then Commit else Expire));
    s.(row := row,
       ledger := if repair then s.ledger.(commits := s.ledger.commits + 1, repairs := s.ledger.repairs + 1)
           else s.ledger)
  }

  function Perform(c: Config, row: Row, now: int, a: Action): Outcome {
    match a
    case SubmitsDraft(v, p, q) => SubmitDraft(c, row, v, p, q)
    case UpdatesDraft(v) => UpdateDraft(c, row, v)
    case DeletesDraft(v) => DeleteDraft(c, row, v, now)
    case Schedules(v, at, p) => ScheduleDraft(c, row, now, v, at, p)
    case Reschedules(v, at, p) => Reschedule(c, row, now, v, at, p)
    case Unschedules(v) => Unschedule(c, row, v)
    case SendsNow(v, p, q) => SendNow(c, row, v, p, q)
    case DispatcherActs(v) => Dispatch(c, row, now, v)
    case DispatcherReleases => ReleaseClaim(c, row, now)
    case Cancels => Cancel(c, row)
    case Deletes => Delete(c, row, now)
    case Retries(ok) => RetryByUser(c, row, ok)
    case RetriesWithProvider(ok, r, code) => RetryWithProvider(c, row, now, ok, r, code)
    case ProviderDelivers => ConfirmDelivery(c, row)
    case ProviderFails(code) => ReportFailure(c, row, code)
    case Reconciles => Reconcile(c, row, now)
    case FlagsConflict => FlagConflict(c, row, now)
  }

  /** The counters an action moves, given that it took effect. */
  function CountAction(l: Ledger, a: Action, row': Row, now: int): Ledger {
    match a
    case Retries(_) => l.(manualRetries := l.manualRetries + 1)
    case RetriesWithProvider(_, r, _) =>
      Complete(CountSubmission(Start(l, row'.attemptCount, now), r), row'.attemptCount)
        .(manualRetries := l.manualRetries + 1)
    case ProviderFails(_) => l.(bounced := l.bounced + 1)
    case _ => l
  }

  function StepAct(c: Config, s: Sys, a: Action): Sys {
    var o := Perform(c, s.row, s.now, a);
    if o.reply != Done then s
    else s.(row := o.row, ledger := CountAction(CountUsage(s.ledger, o.usage), a, o.row, s.now))
  }

  function Apply(c: Config, s: Sys, e: Event): Sys
    requires Enabled(c, s, e)
  {
    match e
    case JobClaims(w) => StepClaim(c, s, w)
    case JobRefuses(w, code) => StepRefuse(c, s, w, code)
    case JobMarks(w) => StepMark(c, s, w)
    case JobSubmits(w, r) => StepSubmit(s, w, r)
    case JobRecords(w, code) => StepRecord(c, s, w, code)
    case JobDies(w) => MoveWorker(s, w, Stopped)
    case Acts(a) => StepAct(c, s, a)
    case RetryDies(_, r) => StepRetryDies(s, r)
    case PrunesAttempts(gone) => StepPrune(s, gone)
    case BackfillsAttempt => StepBackfill(s)
    case ReconcilesUsage(repair) => StepReconcileUsage(c, s, repair)
    case TimePasses(d) => s.(now := s.now + d)
  }

  // ----- runs -----

  /** A message just created: queued with its reservation made, or a fresh draft. */
  predicate Init(c: Config, s: Sys) {
    && s.workers == map[]
    && ((s.row == NewQueued(c, s.row.fingerprint) && s.ledger == EMPTY_LEDGER.(reserves := 1))
        || (s.row == NewDraft(s.row.fingerprint) && s.ledger == EMPTY_LEDGER))
  }

  /** Every event of the run was possible when it happened. */
  ghost predicate Runs(c: Config, s: Sys, ev: seq<Event>)
    decreases |ev|, 0
  {
    ev == [] || (Runs(c, s, ev[..|ev| - 1]) && Enabled(c, After(c, s, ev[..|ev| - 1]), ev[|ev| - 1]))
  }

  ghost function After(c: Config, s: Sys, ev: seq<Event>): Sys
    requires Runs(c, s, ev)
    decreases |ev|, 1
  {
    if ev == [] then s else Apply(c, After(c, s, ev[..|ev| - 1]), ev[|ev| - 1])
  }

  /** States some run from a fresh message leads to. */
  ghost predicate Reachable(c: Config, s: Sys) {
    exists s0, ev :: Init(c, s0) && Runs(c, s0, ev) && After(c, s0, ev) == s
  }

  lemma RunPrefix(c: Config, s: Sys, ev: seq<Event>, i: nat)
    requires Runs(c, s, ev) && i <= |ev|
    ensures Runs(c, s, ev[..i])
    ensures i < |ev| ==> Enabled(c, After(c, s, ev[..i]), ev[i]) && Runs(c, s, ev[..i + 1])
                         && After(c, s, ev[..i + 1]) == Apply(c, After(c, s, ev[..i]), ev[i])
    decreases |ev|
  {
    if i == |ev| {
      assert ev[..i] == ev;
    } else {
      var front := ev[..|ev| - 1];
      if i < |front| {
        RunPrefix(c, s, front, i);
        assert front[..i] == ev[..i] && front[..i + 1] == ev[..i + 1];
      } else {
        assert ev[..i] == front && ev[..i + 1] == ev;
      }
    }
  }

  /** The state in which event `i` of the run happens. */
  ghost function StateAt(c: Config, s: Sys, ev: seq<Event>, i: nat): (t: Sys)
    requires Runs(c, s, ev) && i < |ev|
    ensures Enabled(c, t, ev[i])
  {
    RunPrefix(c, s, ev, i);
    After(c, s, ev[..i])
  }

  lemma Extend(c: Config, s: Sys, ev: seq<Event>, e: Event)
    requires Runs(c, s, ev) && Enabled(c, After(c, s, ev), e)
    ensures Runs(c, s, ev + [e]) && After(c, s, ev + [e]) == Apply(c, After(c, s, ev), e)
  {
    assert (ev + [e])[..|ev|] == ev;
  }

  /** Extends a run that has led to `t` by one event, to `t'`. */
  lemma Next(c: Config, s: Sys, ev: seq<Event>, t: Sys, e: Event) returns (ev': seq<Event>, t': Sys)
    requires Runs(c, s, ev) && After(c, s, ev) == t && Enabled(c, t, e)
    ensures Runs(c, s, ev') && After(c, s, ev') == t' && t' == Apply(c, t, e)
  {
    Extend(c, s, ev, e);
    ev', t' := ev + [e], Apply(c, t, e);
  }

  /** Short runs, event by event. */
  lemma Two(c: Config, s: Sys, e1: Event, e2: Event) returns (ev: seq<Event>, t: Sys)
    requires Enabled(c, s, e1) && Enabled(c, Apply(c, s, e1), e2)
    ensures Runs(c, s, ev) && After(c, s, ev) == t && t == Apply(c, Apply(c, s, e1), e2)
  {
    ev, t := Next(c, s, [], s, e1);
    ev, t := Next(c, s, ev, t, e2);
  }

  lemma Three(c: Config, s: Sys, e1: Event, e2: Event, e3: Event) returns (ev: seq<Event>, t: Sys)
    requires Enabled(c, s, e1) && Enabled(c, Apply(c, s, e1), e2) && Enabled(c, Apply(c, Apply(c, s, e1), e2), e3)
    ensures Runs(c, s, ev) && After(c, s, ev) == t && t == Apply(c, Apply(c, Apply(c, s, e1), e2), e3)
  {
    ev, t := Two(c, s, e1, e2);
    ev, t := Next(c, s, ev, t, e3);
  }

  /** A run followed by a run from where it ended is a run. */
  lemma {:induction false} Continue(c: Config, s: Sys, ev: seq<Event>, more: seq<Event>)
    requires Runs(c, s, ev) && Runs(c, After(c, s, ev), more)
    ensures Runs(c, s, ev + more) && After(c, s, ev + more) == After(c, After(c, s, ev), more)
    decreases |more|
  {
    if more == [] {
      assert ev + more == ev;
    } else {
      var front := more[..|more| - 1];
      Continue(c, s, ev, front);
      Extend(c, s, ev + front, more[|more| - 1]);
      assert ev + more == (ev + front) + [more[|more| - 1]];
    }
  }

  lemma ReachableStep(c: Config, t: Sys, e: Event)
    requires Reachable(c, t) && Enabled(c, t, e)
    ensures Reachable(c, Apply(c, t, e))
  {
    var s0, ev :| Init(c, s0) && Runs(c, s0, ev) && After(c, s0, ev) == t;
    var ev', t' := Next(c, s0, ev, t, e);
  }

  lemma ReachableExtends(c: Config, s: Sys, ev: seq<Event>)
    requires Reachable(c, s) && Runs(c, s, ev)
    ensures Reachable(c, After(c, s, ev))
  {
    var s0, ev0 :| Init(c, s0) && Runs(c, s0, ev0) && After(c, s0, ev0) == s;
    Continue(c, s0, ev0, ev);
  }
}
