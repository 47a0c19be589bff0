/** Concurrent account transactions not only never deadlock: without new ones, every run of them ends. */
module AccountCompletion {
  import opened Options
  import opened Sequences
  import opened Sums
  import opened Accounts
  import opened AccountLocking
  import opened AccountTheorems

  // ----- the work that is left -----

  function OpenIds(txs: map<nat, Tx>): set<nat> {
    set t | t in txs && txs[t].stage != Closed
  }

  /** At most so many keys exist while the open transactions finish: each creates at most one. */
  function KeyBound(s: Sys): nat {
    |s.db.keys| + |OpenIds(s.txs)|
  }

  /** Steps a transaction has before it, given a bound on the keys it may lock. */
  function Weight(tx: Tx, bound: nat): nat {
    match tx.stage
    case LockingUsers(todo) => |todo| + bound + 4
    case LockingKeys(todo) => |todo| + 2
    case Ready => 1
    case Closed => 0
  }

  function Weights(txs: map<nat, Tx>, bound: nat): map<nat, nat> {
    map t | t in txs :: Weight(txs[t], bound)
  }

  ghost function Work(s: Sys): nat {
    Sum(Weights(s.txs, KeyBound(s)))
  }

  // ----- every step spends some -----

  lemma WriteAddsAtMostOneKey(db: Db, tx: Tx)
    ensures |Write(db, tx).keys| <= |db.keys| + 1
  {
    var keys := Write(db, tx).keys;
    if tx.request.CreateKey? {
      FewerAtMost(keys.Keys, db.keys.Keys + {tx.request.key});
    } else {
      assert keys.Keys == db.keys.Keys;
    }
  }

  lemma PlansAreShort(db: Db, tx: Tx, order: seq<nat>)
    requires ValidOrder(db, tx, order)
    ensures |order| <= |db.keys| || |order| <= 1
  {
    if Bulk(tx.request) {
      SetOfSize(order);
      FewerAtMost(SetOf(order), db.keys.Keys);
    }
  }

  /** The step changes one open transaction, which gets lighter, and does not raise the bound on keys. */
  lemma StepLightensOne(l: Limits, s: Sys, e: Event)
    requires Enabled(s, e) && !e.Begins?
    ensures var s' := Apply(l, s, e);
      && e.tx in s.txs && e.tx in s'.txs && s'.txs == s.txs[e.tx := s'.txs[e.tx]]
      && Weight(s'.txs[e.tx], KeyBound(s)) < Weight(s.txs[e.tx], KeyBound(s))
      && KeyBound(s') <= KeyBound(s)
  {
    var s' := Apply(l, s, e);
    var tx := s.txs[e.tx];
    if e.Plans? {
      PlansAreShort(s.db, tx, e.order);
    }
    if e.Commits? {
      WriteAddsAtMostOneKey(s.db, tx);
      assert OpenIds(s'.txs) == OpenIds(s.txs) - {e.tx};
    } else {
      FewerAtMost(OpenIds(s'.txs), OpenIds(s.txs));
    }
  }

  lemma LighterTxsWeighLess(before: map<nat, Tx>, after: map<nat, Tx>, t: nat, high: nat, low: nat)
    requires t in before && t in after && after == before[t := after[t]]
    requires Weight(after[t], high) < Weight(before[t], high) && low <= high
    ensures Sum(Weights(after, low)) < Sum(Weights(before, high))
  {
    SumOfUpdate(Weights(before, high), t, Weight(after[t], high));
    assert Weights(after, high) == Weights(before, high)[t := Weight(after[t], high)];
    SumGrows(Weights(after, low), Weights(after, high));
  }

  lemma StepSpends(l: Limits, s: Sys, e: Event)
    requires Enabled(s, e) && !e.Begins?
    ensures Work(Apply(l, s, e)) < Work(s)
  {
    var s' := Apply(l, s, e);
    StepLightensOne(l, s, e);
    LighterTxsWeighLess(s.txs, s'.txs, e.tx, KeyBound(s), KeyBound(s'));
  }

  // ----- completion -----

  ghost predicate AllClosed(s: Sys) {
    forall t :: !Open(s, t)
  }

  /** Once no new transaction begins, only as many events can follow as there was work, rollbacks included. */
  lemma {:induction false} RunsWithoutNewOnesEnd(l: Limits, db: Db, ev: seq<Event>, more: seq<Event>)
    requires Runs(l, db, ev + more) && forall i | 0 <= i < |more| :: !more[i].Begins?
    ensures Runs(l, db, ev) && |more| + Work(After(l, db, ev + more)) <= Work(After(l, db, ev))
    decreases |more|
  {
    if more == [] {
      assert ev + more == ev;
    } else {
      var front, last := more[..|more| - 1], more[|more| - 1];
      assert (ev + more)[..|ev + more| - 1] == ev + front && (ev + more)[|ev + more| - 1] == last;
      RunsWithoutNewOnesEnd(l, db, ev, front);
      StepSpends(l, After(l, db, ev + front), last);
    }
  }

  /** And a run that cannot go forward any more has closed every transaction. */
  lemma StoppedRunsAreComplete(l: Limits, db: Db, ev: seq<Event>)
    requires Runs(l, db, ev)
    requires forall e :: MovesForward(e) ==> !Enabled(After(l, db, ev), e)
    ensures AllClosed(After(l, db, ev))
  {
    if t :| Open(After(l, db, ev), t) {
      var e := SomeTransactionCanMove(l, db, ev);
    }
  }

  /** One step forward, if a transaction is open. */
  lemma OneStepOn(l: Limits, db: Db, ev: seq<Event>) returns (e: Event, on: seq<Event>)
    requires Runs(l, db, ev) && !AllClosed(After(l, db, ev))
    ensures MovesForward(e) && on == ev + [e] && Runs(l, db, on)
    ensures Work(After(l, db, on)) < Work(After(l, db, ev))
  {
    var t :| Open(After(l, db, ev), t);
    e := SomeTransactionCanMove(l, db, ev);
    on := ev + [e];
    assert on[..|ev|] == ev;
    StepSpends(l, After(l, db, ev), e);
  }

  /** The run `all` continues `ev` by forward steps until every transaction is closed. */
  ghost predicate Completes(l: Limits, db: Db, ev: seq<Event>, all: seq<Event>) {
    && ev <= all && (forall i | |ev| <= i < |all| :: MovesForward(all[i]))
    && Runs(l, db, all) && AllClosed(After(l, db, all))
  }

  lemma {:induction false} SomeRunCompletes(l: Limits, db: Db, ev: seq<Event>) returns (all: seq<Event>)
    requires Runs(l, db, ev)
    ensures Completes(l, db, ev, all)
    decreases Work(After(l, db, ev))
  {
    if AllClosed(After(l, db, ev)) {
      all := ev;
    } else {
      var e, on := OneStepOn(l, db, ev);
      all := SomeRunCompletes(l, db, on);
      assert all[|ev|] == on[|ev|] == e;
    }
  }

  /** From every reachable state all open transactions can be finished by forward steps alone. */
  lemma AllCanFinish(l: Limits, db: Db, ev: seq<Event>) returns (more: seq<Event>)
    requires Runs(l, db, ev)
    ensures Runs(l, db, ev + more) && AllClosed(After(l, db, ev + more))
    ensures forall i | 0 <= i < |more| :: MovesForward(more[i])
  {
    var all := SomeRunCompletes(l, db, ev);
    more := all[|ev|..];
    assert ev + more == all;
  }
}
