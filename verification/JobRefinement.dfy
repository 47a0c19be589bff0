/** The delivery job run without interruption is one particular run of the protocol. */
module JobRefinement {
  import opened Options
  import opened MessageLifecycle
  import opened MR = MessageRow
  import opened DeliveryProtocol
  import opened OutboundMessages

  /** The worker steps of one job run that nothing interrupts. */
  function JobEvents(w: nat, refusal: Option<FailureCode>, result: TransportResult,
                     code: Option<FailureCode>): seq<Event>
  {
    if refusal.Some? then [JobClaims(w), JobRefuses(w, refusal.value)]
    else [JobClaims(w), JobMarks(w), JobSubmits(w, result), JobRecords(w, code)]
  }

  lemma RecordedRow(c: Config, row: Row, now: int, result: TransportResult, code: Option<FailureCode>)
    requires row.state == Queued
    ensures RecordResult(c, MarkAttempted(c, Claim(c, row, now).row, now).row, row.attemptCount + 1, result, code).row
              == HandledRow(c, row, now, false, None, result, code)
  {
  }

  lemma RefusedRow(c: Config, row: Row, now: int, refusal: FailureCode, result: TransportResult,
      code: Option<FailureCode>)
    requires row.state == Queued
    ensures MarkFailed(c, Claim(c, row, now).row, refusal, false).row
              == HandledRow(c, row, now, false, Some(refusal), result, code)
  {
  }

  /** What the uninterrupted job makes of the whole system: exactly the row `OutboundMessage.Handle` leaves,
      one transport call unless a check refuses first, and one delivery-attempt row with its outcome. */
  ghost predicate Handled(c: Config, s: Sys, w: nat, refusal: Option<FailureCode>, result: TransportResult,
                          code: Option<FailureCode>, t: Sys)
  {
    && t.row == HandledRow(c, s.row, s.now, false, refusal, result, code) && t.now == s.now
    && t.ledger.transportCalls == s.ledger.transportCalls + (if refusal.Some? then 0 else 1)
    && t.ledger.jobSent == s.ledger.jobSent + (if t.row.state == Sent then 1 else 0)
    && t.ledger.bounced == s.ledger.bounced && t.ledger.lost == s.ledger.lost
    && t.ledger.manualRetries == s.ledger.manualRetries
    && t.ledger.records == Complete(Start(s.ledger, t.row.attemptCount, s.now), t.row.attemptCount).records
    && w in t.workers && t.workers == s.workers[w := t.workers[w]] && !Live(t, w)
  }

  /** Taken one after the other, the worker's steps do what the whole job does. */
  lemma UninterruptedJobIsHandle(c: Config, s: Sys, w: nat, refusal: Option<FailureCode>,
                                 result: TransportResult, code: Option<FailureCode>)
    requires s.row.state == Queued && w !in s.workers
    ensures Runs(c, s, JobEvents(w, refusal, result, code))
    ensures Handled(c, s, w, refusal, result, code, After(c, s, JobEvents(w, refusal, result, code)))
  {
    if refusal.Some? {
      RefusedJob(c, s, w, refusal.value, result, code);
    } else {
      SubmittedJob(c, s, w, result, code);
    }
  }

  lemma RefusedJob(c: Config, s: Sys, w: nat, refusal: FailureCode, result: TransportResult, code: Option<FailureCode>)
    requires s.row.state == Queued && w !in s.workers
    ensures Runs(c, s, JobEvents(w, Some(refusal), result, code))
    ensures Handled(c, s, w, Some(refusal), result, code, After(c, s, JobEvents(w, Some(refusal), result, code)))
  {
    Extend(c, s, [], JobClaims(w));
    var e1 := [] + [JobClaims(w)];
    Extend(c, s, e1, JobRefuses(w, refusal));
    assert e1 + [JobRefuses(w, refusal)] == JobEvents(w, Some(refusal), result, code);
    RefusedState(c, s, w, refusal, result, code);
  }

  lemma SubmittedJob(c: Config, s: Sys, w: nat, result: TransportResult, code: Option<FailureCode>)
    requires s.row.state == Queued && w !in s.workers
    ensures Runs(c, s, JobEvents(w, None, result, code))
    ensures Handled(c, s, w, None, result, code, After(c, s, JobEvents(w, None, result, code)))
  {
    var e3 := SubmittedEvents(c, s, w, result);
    Extend(c, s, e3, JobRecords(w, code));
    assert e3 + [JobRecords(w, code)] == JobEvents(w, None, result, code);
    RecordedState(c, s, w, result, code);
  }

  lemma SubmittedEvents(c: Config, s: Sys, w: nat, result: TransportResult) returns (ev: seq<Event>)
    requires s.row.state == Queued && w !in s.workers
    ensures ev == [JobClaims(w), JobMarks(w), JobSubmits(w, result)] && Runs(c, s, ev)
    ensures After(c, s, ev) == StepSubmit(StepMark(c, StepClaim(c, s, w), w), w, result)
  {
    Extend(c, s, [], JobClaims(w));
    ev := [] + [JobClaims(w)];
    Extend(c, s, ev, JobMarks(w));
    ev := ev + [JobMarks(w)];
    Extend(c, s, ev, JobSubmits(w, result));
    ev := ev + [JobSubmits(w, result)];
  }

  lemma RefusedState(c: Config, s: Sys, w: nat, refusal: FailureCode, result: TransportResult,
                     code: Option<FailureCode>)
    requires s.row.state == Queued && w !in s.workers
    ensures Handled(c, s, w, Some(refusal), result, code, StepRefuse(c, StepClaim(c, s, w), w, refusal))
  {
    RefusedRow(c, s.row, s.now, refusal, result, code);
  }

  lemma RecordedState(c: Config, s: Sys, w: nat, result: TransportResult, code: Option<FailureCode>)
    requires s.row.state == Queued && w !in s.workers
    ensures var submitted := StepSubmit(StepMark(c, StepClaim(c, s, w), w), w, result);
      Handled(c, s, w, None, result, code, StepRecord(c, submitted, w, code))
  {
    RecordedRow(c, s.row, s.now, result, code);
  }

  /** The same with the steps left unnamed. */
  lemma JobEnds(c: Config, s: Sys, w: nat, refusal: Option<FailureCode>, result: TransportResult,
                code: Option<FailureCode>) returns (ev: seq<Event>)
    requires s.row.state == Queued && w !in s.workers
    ensures Runs(c, s, ev) && Handled(c, s, w, refusal, result, code, After(c, s, ev))
  {
    ev := JobEvents(w, refusal, result, code);
    UninterruptedJobIsHandle(c, s, w, refusal, result, code);
  }
}
