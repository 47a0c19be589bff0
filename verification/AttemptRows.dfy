/** How far the delivery-attempt rows can be relied on, although retention deletes and the repair rewrites them. */
module AttemptRows {
  import opened Options
  import opened MessageLifecycle
  import opened MR = MessageRow
  import opened DeliveryProtocol

  lemma StepKeepsRecentRow(c: Config, s: Sys, e: Event, k: nat)
    requires Enabled(c, s, e) && k in s.ledger.records
    requires s.now - c.attemptDays * 86400 <= s.ledger.records[k].createdAt
    ensures var t := Apply(c, s, e);
      && k in t.ledger.records && t.ledger.records[k].createdAt == s.ledger.records[k].createdAt
  {
    if e.Acts? {
      ActionKeepsRow(c, s, e.action, k);
    }
  }

  lemma ActionKeepsRow(c: Config, s: Sys, a: Action, k: nat)
    requires k in s.ledger.records
    ensures k in StepAct(c, s, a).ledger.records
    ensures StepAct(c, s, a).ledger.records[k].createdAt == s.ledger.records[k].createdAt
  {
  }

  lemma TimeGoesOn(c: Config, s: Sys, e: Event)
    requires Enabled(c, s, e)
    ensures Apply(c, s, e).now >= s.now
  {
  }

  /** On every continuation a delivery-attempt row outlasts its days of retention. */
  lemma {:induction false} RowsLastTheirDays(c: Config, s: Sys, ev: seq<Event>, k: nat)
    requires Runs(c, s, ev) && k in s.ledger.records
    requires After(c, s, ev).now <= s.ledger.records[k].createdAt + c.attemptDays * 86400
    ensures k in After(c, s, ev).ledger.records
    ensures After(c, s, ev).ledger.records[k].createdAt == s.ledger.records[k].createdAt
    decreases |ev|
  {
    if ev != [] {
      var front, e := ev[..|ev| - 1], ev[|ev| - 1];
      TimeGoesOn(c, After(c, s, front), e);
      RowsLastTheirDays(c, s, front, k);
      StepKeepsRecentRow(c, After(c, s, front), e, k);
    }
  }

  /** While a message is being sent the row of its attempt is the one written when the attempt began. */
  predicate OwnRowInFlight(row: Row, l: Ledger) {
    && (forall k | k in l.records :: k <= row.attemptCount)
    && (row.state == Sending && row.attemptCount in l.records ==> !l.records[row.attemptCount].backfilled)
  }

  lemma ActionKeepsOwnRow(c: Config, s: Sys, a: Action)
    requires OwnRowInFlight(s.row, s.ledger)
    ensures OwnRowInFlight(StepAct(c, s, a).row, StepAct(c, s, a).ledger)
  {
  }

  lemma StepKeepsOwnRow(c: Config, s: Sys, e: Event)
    requires OwnRowInFlight(s.row, s.ledger) && Enabled(c, s, e)
    ensures OwnRowInFlight(Apply(c, s, e).row, Apply(c, s, e).ledger)
  {
    if e.Acts? {
      ActionKeepsOwnRow(c, s, e.action);
    }
  }

  /** For any timeouts: the repair of missing rows never invents the outcome of an attempt in flight. */
  lemma {:induction false} RowInFlightIsItsOwn(c: Config, s0: Sys, ev: seq<Event>)
    requires Init(c, s0) && Runs(c, s0, ev)
    ensures OwnRowInFlight(After(c, s0, ev).row, After(c, s0, ev).ledger)
    decreases |ev|
  {
    if ev != [] {
      RowInFlightIsItsOwn(c, s0, ev[..|ev| - 1]);
      StepKeepsOwnRow(c, After(c, s0, ev[..|ev| - 1]), ev[|ev| - 1]);
    }
  }
}
