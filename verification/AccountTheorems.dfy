/** What holds of account transactions in every interleaving: serializability, deadlock freedom, and
    the guarantees of the single actions lifted to concurrent ones. */
module AccountTheorems {
  import opened Options
  import opened Accounts
  import opened AccountLocking

  // ----- serializability -----

  lemma PlannedRevocationIsExact(l: Limits, db: Db, tx: Tx)
    requires PlannedKeys(db, tx) && Bulk(tx.request)
    ensures RevokeIds(db.keys, tx.planned) == RevokeAffected(db.keys, tx.request.target, Lost(tx))
  {
    var a, b := RevokeIds(db.keys, tx.planned), RevokeAffected(db.keys, tx.request.target, Lost(tx));
    forall k | k in db.keys ensures a[k] == b[k] {
    }
    assert a.Keys == db.keys.Keys == b.Keys;
  }

  lemma BulkWriteIsPerform(l: Limits, db: Db, tx: Tx)
    requires TxOk(l, db, tx) && tx.stage == Ready && Bulk(tx.request)
    ensures Write(db, tx) == Perform(l, db, tx.request).db
  {
    PlannedRevocationIsExact(l, db, tx);
    if Lost(tx) == Some({}) {
      assert AffectedKeys(db.keys, tx.request.target, Some({})) == {};
      assert RevokeIds(db.keys, {}) == db.keys;
    }
  }

  lemma WriteIsPerform(l: Limits, db: Db, tx: Tx)
    requires TxOk(l, db, tx) && tx.stage == Ready
    ensures Write(db, tx) == Perform(l, db, tx.request).db
  {
    if Bulk(tx.request) {
      BulkWriteIsPerform(l, db, tx);
    } else if tx.request.RevokeKey? && tx.request.key in db.keys && db.keys[tx.request.key].revoked {
      var k := tx.request.key;
      assert db.keys[k := db.keys[k].(revoked := true)] == db.keys;
    }
  }

  /** A commit leaves exactly what its action, run alone on the database it commits to, would leave,
      however long ago its checks were made; no other event changes the database. */
  lemma CommitsAreSerial(l: Limits, db: Db, ev: seq<Event>, e: Event)
    requires Runs(l, db, ev) && Enabled(After(l, db, ev), e)
    ensures var s := After(l, db, ev);
      Apply(l, s, e).db == if e.Commits? then Perform(l, s.db, s.txs[e.tx].request).db else s.db
  {
    RunKeepsSafe(l, db, ev);
    var s := After(l, db, ev);
    if e.Commits? {
      assert TxOk(l, s.db, s.txs[e.tx]);
      WriteIsPerform(l, s.db, s.txs[e.tx]);
    }
  }

  // ----- the lifted guarantees -----

  /** Starting with an active platform admin, no interleaving of role and status changes ends
      without one, two admins demoting each other included. */
  lemma {:induction false} AnAdminSurvives(l: Limits, db: Db, ev: seq<Event>)
    requires SomeAdmin(db) && Runs(l, db, ev)
    ensures SomeAdmin(After(l, db, ev).db)
    decreases |ev|
  {
    if ev != [] {
      var front, e := ev[..|ev| - 1], ev[|ev| - 1];
      AnAdminSurvives(l, db, front);
      CommitsAreSerial(l, db, front, e);
      if e.Commits? {
        PerformKeepsAnAdmin(l, After(l, db, front).db, After(l, db, front).txs[e.tx].request);
      }
    }
  }

  /** Starting without violations, no unrevoked key ever holds a scope its owner may not hold. */
  lemma {:induction false} KeysStayAllowed(l: Limits, db: Db, ev: seq<Event>)
    requires KeysAllowed(db) && Runs(l, db, ev)
    ensures KeysAllowed(After(l, db, ev).db)
    decreases |ev|
  {
    if ev != [] {
      var front, e := ev[..|ev| - 1], ev[|ev| - 1];
      KeysStayAllowed(l, db, front);
      CommitsAreSerial(l, db, front, e);
      if e.Commits? {
        PerformKeepsKeysAllowed(l, After(l, db, front).db, After(l, db, front).txs[e.tx].request);
      }
    }
  }

  /** A user's unrevoked keys and inboxes never rise above limits they started at or below, although
      counting and inserting are separate steps of each creation. */
  lemma {:induction false} QuotasHold(l: Limits, db: Db, ev: seq<Event>, u: nat)
    requires WithinQuota(l, db, u) && Runs(l, db, ev)
    ensures WithinQuota(l, After(l, db, ev).db, u)
    decreases |ev|
  {
    if ev != [] {
      var front, e := ev[..|ev| - 1], ev[|ev| - 1];
      QuotasHold(l, db, front, u);
      CommitsAreSerial(l, db, front, e);
      if e.Commits? {
        PerformKeepsQuota(l, After(l, db, front).db, After(l, db, front).txs[e.tx].request, u);
      }
    }
  }

  /** Revocation is final: in every interleaving a revoked key stays revoked, and keys never change owner. */
  lemma {:induction false} RevokedStaysRevoked(l: Limits, db: Db, ev: seq<Event>, k: nat)
    requires Runs(l, db, ev) && k in db.keys
    ensures var t := After(l, db, ev).db;
      && k in t.keys && t.keys[k].owner == db.keys[k].owner && (db.keys[k].revoked ==> t.keys[k].revoked)
    decreases |ev|
  {
    if ev != [] {
      var front, e := ev[..|ev| - 1], ev[|ev| - 1];
      RevokedStaysRevoked(l, db, front, k);
      CommitsAreSerial(l, db, front, e);
      if e.Commits? {
        PerformKeepsRevoked(l, After(l, db, front).db, After(l, db, front).txs[e.tx].request, k);
      }
    }
  }

  // ----- deadlock freedom -----

  predicate Open(s: Sys, t: nat) {
    t in s.txs && s.txs[t].stage != Closed
  }

  /** Transaction `t` cannot take its next lock because `t'` holds it. */
  predicate WaitsFor(s: Sys, t: nat, t': nat) {
    && t in s.txs && t' in s.txs && t != t'
    && (match s.txs[t].stage
        case LockingUsers(todo) => todo != [] && todo[0] in s.db.users && todo[0] in s.txs[t'].seen
        case LockingKeys(todo) => todo != [] && todo[0] in s.db.keys && todo[0] in s.txs[t'].keysHeld
        case _ => false)
  }

  /** How far along the lock order a transaction is: user locks by id, then a first key, then more keys. */
  datatype Rank = Rank(phase: nat, user: nat)

  predicate Before(a: Rank, b: Rank) {
    a.phase < b.phase || (a.phase == b.phase && a.user < b.user)
  }

  function RankOf(tx: Tx): Rank {
    match tx.stage
    case LockingUsers(todo) => if todo == [] then Rank(3, 0) else Rank(0, todo[0])
    case LockingKeys(_) => if tx.keysHeld == {} then Rank(1, 0) else Rank(2, 0)
    case _ => Rank(3, 0)
  }

  lemma WaitingRaisesRank(l: Limits, s: Sys, t: nat, t': nat)
    requires Safe(l, s) && WaitsFor(s, t, t')
    ensures Open(s, t') && Before(RankOf(s.txs[t]), RankOf(s.txs[t']))
  {
    var tx, tx' := s.txs[t], s.txs[t'];
    assert TxOk(l, s.db, tx) && TxOk(l, s.db, tx');
    assert tx.seen.Keys !! tx'.seen.Keys;
  }

  ghost predicate WaitCycle(s: Sys, cycle: seq<nat>) {
    && cycle != []
    && (forall i | 0 <= i < |cycle| - 1 :: WaitsFor(s, cycle[i], cycle[i + 1]))
    && WaitsFor(s, cycle[|cycle| - 1], cycle[0])
  }

  lemma {:induction false} RanksRiseAlong(l: Limits, s: Sys, chain: seq<nat>, i: nat)
    requires Safe(l, s) && 0 < i < |chain|
    requires forall j | 0 <= j < |chain| - 1 :: WaitsFor(s, chain[j], chain[j + 1])
    ensures chain[0] in s.txs && chain[i] in s.txs && Before(RankOf(s.txs[chain[0]]), RankOf(s.txs[chain[i]]))
  {
    assert WaitsFor(s, chain[i - 1], chain[i - 1 + 1]);
    WaitingRaisesRank(l, s, chain[i - 1], chain[i]);
    if i > 1 {
      RanksRiseAlong(l, s, chain, i - 1);
    }
  }

  /** The wait-for graph of every reachable state is acyclic. */
  lemma NoWaitCycles(l: Limits, db: Db, ev: seq<Event>, cycle: seq<nat>)
    requires Runs(l, db, ev)
    ensures !WaitCycle(After(l, db, ev), cycle)
  {
    RunKeepsSafe(l, db, ev);
    var s := After(l, db, ev);
    if WaitCycle(s, cycle) {
      CycleRaisesItsOwnRank(l, s, cycle);
    }
  }

  lemma CycleRaisesItsOwnRank(l: Limits, s: Sys, cycle: seq<nat>)
    requires Safe(l, s)
    ensures !WaitCycle(s, cycle)
  {
    if WaitCycle(s, cycle) {
      var n := |cycle|;
      WaitingRaisesRank(l, s, cycle[n - 1], cycle[0]);
      if n > 1 {
        RanksRiseAlong(l, s, cycle, n - 1);
      }
    }
  }

  /** Some open transaction is furthest along. */
  lemma {:induction false} FurthestAlong(s: Sys, among: set<nat>) returns (t: nat)
    requires among != {} && forall x | x in among :: x in s.txs
    ensures t in among && forall x | x in among :: !Before(RankOf(s.txs[t]), RankOf(s.txs[x]))
    decreases among
  {
    var x :| x in among;
    if among == {x} {
      t := x;
    } else {
      var rest := among - {x};
      assert among == rest + {x};
      var best := FurthestAlong(s, rest);
      t := if Before(RankOf(s.txs[best]), RankOf(s.txs[x])) then x else best;
    }
  }

  lemma {:induction false} Enumerate(ids: set<nat>) returns (order: seq<nat>)
    ensures forall k :: k in order <==> k in ids
    ensures forall i, j | 0 <= i < j < |order| :: order[i] != order[j]
    decreases ids
  {
    if ids == {} {
      order := [];
    } else {
      var k :| k in ids;
      var rest := Enumerate(ids - {k});
      order := rest + [k];
    }
  }

  /** The event moves a transaction forward, other than by rolling it back or starting a new one. */
  predicate MovesForward(e: Event) {
    e.LocksUser? || e.Plans? || e.LocksKey? || e.Commits?
  }

  lemma UnblockedCanMove(l: Limits, s: Sys, t: nat) returns (e: Event)
    requires Safe(l, s) && Open(s, t) && forall t' :: !WaitsFor(s, t, t')
    ensures Enabled(s, e) && MovesForward(e) && e.tx == t
  {
    var tx := s.txs[t];
    assert TxOk(l, s.db, tx);
    match tx.stage {
      case LockingUsers(todo) =>
        if todo == [] {
          var order := [];
          if Bulk(tx.request) {
            order := Enumerate(Plan(s.db, tx));
          } else if tx.request.UpdateKey? || tx.request.RevokeKey? {
            order := [tx.request.key];
          }
          e := Plans(t, order);
        } else {
          assert todo[0] in s.db.users ==> forall t' | t' in s.txs && t' != t :: !WaitsFor(s, t, t');
          e := LocksUser(t);
        }
      case LockingKeys(todo) =>
        assert todo[0] in s.db.keys ==> forall t' | t' in s.txs && t' != t :: !WaitsFor(s, t, t');
        e := LocksKey(t);
      case Ready =>
        e := Commits(t);
    }
  }

  /** While any transaction is unfinished, some transaction can take its next step: no deadlock, for
      any number of concurrent role changes, status changes, key and inbox actions. */
  lemma SomeTransactionCanMove(l: Limits, db: Db, ev: seq<Event>) returns (e: Event)
    requires Runs(l, db, ev) && exists t :: Open(After(l, db, ev), t)
    ensures Enabled(After(l, db, ev), e) && MovesForward(e)
  {
    RunKeepsSafe(l, db, ev);
    var s := After(l, db, ev);
    var open := set t | t in s.txs && Open(s, t);
    assert open != {} by {
      var t :| Open(s, t);
      assert t in open;
    }
    var t := FurthestAlong(s, open);
    forall t' | WaitsFor(s, t, t') ensures t' in open && Before(RankOf(s.txs[t]), RankOf(s.txs[t'])) {
      WaitingRaisesRank(l, s, t, t');
    }
    assert forall t' :: !WaitsFor(s, t, t');
    e := UnblockedCanMove(l, s, t);
  }
}
