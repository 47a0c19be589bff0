/**
 The account actions as concurrent transactions. Each locks user rows in ascending order, reads each
 row as it locks it, checks, locks key rows, writes and commits; any number of them interleave, and
 any of them may be rolled back at any moment.
 */
module AccountLocking {
  import opened Options
  import opened Sequences
  import opened Accounts

  datatype Stage = LockingUsers(users: seq<nat>) | LockingKeys(keys: seq<nat>) | Ready | Closed

  /** `seen` holds the user rows as read under their locks; `planned` the keys a bulk revocation chose. */
  datatype Tx = Tx(request: Request, stage: Stage, seen: map<nat, UserRow>, keysHeld: set<nat>, planned: set<nat>)

  datatype Sys = Sys(db: Db, txs: map<nat, Tx>)

  datatype Event =
    | Begins(tx: nat, request: Request)
    | LocksUser(tx: nat)
    | Plans(tx: nat, order: seq<nat>)
    | LocksKey(tx: nat)
    | Commits(tx: nat)
    | RollsBack(tx: nat)

  predicate Bulk(r: Request) {
    r.ChangeRole? || r.ChangeStatus?
  }

  function UserLocks(db: Db, r: Request): seq<nat> {
    match r
    case ChangeRole(a, t, _) => if a == t then [a] else [Min(a, t), Max(a, t)]
    case ChangeStatus(a, t, _) => if a == t then [a] else [Min(a, t), Max(a, t)]
    case CreateKey(o, _, _) => [o]
    case UpdateKey(k, p, _) => if p.Some? && k in db.keys then [db.keys[k].owner] else []
    case RevokeKey(a, _) => [a]
    case CreateInbox(o, _) => [o]
  }

  predicate UserFree(s: Sys, t: nat, u: nat) {
    forall t' | t' in s.txs && t' != t :: u !in s.txs[t'].seen
  }

  predicate KeyFree(s: Sys, t: nat, k: nat) {
    forall t' | t' in s.txs && t' != t :: k !in s.txs[t'].keysHeld
  }

  // ----- decisions of one transaction -----

  /** The checks made once the user rows are locked, on the rows as read then. */
  predicate Passes(l: Limits, db: Db, tx: Tx) {
    match tx.request
    case ChangeRole(a, t, role) =>
      && a in tx.seen && t in tx.seen && IsPlatformAdmin(tx.seen[a]) && a != t
      && tx.seen[t].role.Some? && tx.seen[t].role.value != role
    case ChangeStatus(a, t, status) =>
      && a in tx.seen && t in tx.seen && IsPlatformAdmin(tx.seen[a]) && a != t
      && tx.seen[t].status.Some? && tx.seen[t].status.value != status
    case CreateKey(o, _, p) => o in tx.seen && Authorize(tx.seen[o], p).Some? && KeyQuotaAllows(l, db, o)
    case UpdateKey(k, p, _) => p.Some? ==> k in db.keys && db.keys[k].owner in tx.seen
    case RevokeKey(a, _) => a in tx.seen
    case CreateInbox(o, _) => o in tx.seen && InboxQuotaAllows(l, db, o)
  }

  /** What a bulk revocation looks for; `None` revokes every key of the target. */
  function Lost(tx: Tx): Option<set<Scope>> {
    match tx.request
    case ChangeRole(_, t, role) =>
      if t in tx.seen && tx.seen[t].role.Some? then Some(LostScopes(tx.seen[t].role.value, role)) else Some({})
    case ChangeStatus(_, _, status) => if status == Active then Some({}) else None
    case _ => Some({})
  }

  function Plan(db: Db, tx: Tx): set<nat> {
    if Bulk(tx.request) then AffectedKeys(db.keys, tx.request.target, Lost(tx)) else {}
  }

  /** The key rows the transaction will lock, in whatever order the database finds them: at least the
      ones it updates, and for a bulk revocation at most those of its target. */
  predicate ValidOrder(db: Db, tx: Tx, order: seq<nat>) {
    if Bulk(tx.request) then
      && (forall k | k in Plan(db, tx) :: k in order)
      && (forall k | k in order :: k in db.keys && db.keys[k].owner == tx.request.target)
      && (forall i, j | 0 <= i < j < |order| :: order[i] != order[j])
    else if tx.request.UpdateKey? || tx.request.RevokeKey? then order == [tx.request.key]
    else order == []
  }

  function KeyStage(order: seq<nat>): Stage {
    if order == [] then Ready else LockingKeys(order)
  }

  function Close(tx: Tx): Tx {
    Tx(tx.request, Closed, map[], {}, {})
  }

  /** The transaction's writes. Its decisions rest on the user rows it read, not on the current ones. */
  function Write(db: Db, tx: Tx): Db {
    match tx.request
    case ChangeRole(_, t, role) =>
      if t !in db.users then db
      else db.(keys := RevokeIds(db.keys, tx.planned), users := db.users[t := db.users[t].(role := Some(role))])
    case ChangeStatus(_, t, status) =>
      if t !in db.users then db
      else db.(keys := RevokeIds(db.keys, tx.planned), users := db.users[t := db.users[t].(status := Some(status))])
    case CreateKey(o, k, p) =>
      if o !in tx.seen || Authorize(tx.seen[o], p).None? || k in db.keys then db
      else db.(keys := db.keys[k := KeyRow(o, Authorize(tx.seen[o], p).value, false)])
    case UpdateKey(k, p, revoke) =>
      if k !in db.keys then db
      else if p.None? then db.(keys := db.keys[k := db.keys[k].(revoked := db.keys[k].revoked || revoke)])
      else
        var o := db.keys[k].owner;
        if o !in tx.seen || Authorize(tx.seen[o], p).None? then db
        else db.(keys := db.keys[k := KeyRow(o, Authorize(tx.seen[o], p).value, db.keys[k].revoked || revoke)])
    case RevokeKey(a, k) =>
      if a !in tx.seen || k !in db.keys || !IsPlatformAdmin(tx.seen[a]) then db
      else db.(keys := db.keys[k := db.keys[k].(revoked := true)])
    case CreateInbox(o, i) =>
      if i in db.inboxes then db else db.(inboxes := db.inboxes[i := o])
  }

  // ----- steps -----

  predicate Enabled(s: Sys, e: Event) {
    match e
    case Begins(t, r) => t !in s.txs && (r.UpdateKey? ==> r.key in s.db.keys)
    case LocksUser(t) =>
      && t in s.txs && s.txs[t].stage.LockingUsers? && s.txs[t].stage.users != []
      && (s.txs[t].stage.users[0] in s.db.users ==> UserFree(s, t, s.txs[t].stage.users[0]))
    case Plans(t, order) => t in s.txs && s.txs[t].stage == LockingUsers([]) && ValidOrder(s.db, s.txs[t], order)
    case LocksKey(t) =>
      && t in s.txs && s.txs[t].stage.LockingKeys? && s.txs[t].stage.keys != []
      && (s.txs[t].stage.keys[0] in s.db.keys ==> KeyFree(s, t, s.txs[t].stage.keys[0]))
    case Commits(t) => t in s.txs && s.txs[t].stage == Ready
    case RollsBack(t) => t in s.txs && s.txs[t].stage != Closed
  }

  function StepLockUser(s: Sys, t: nat): Tx
    requires Enabled(s, LocksUser(t))
  {
    var tx := s.txs[t];
    var u := tx.stage.users[0];
    var next := LockingUsers(tx.stage.users[1..]);
    if u in s.db.users then tx.(stage := next, seen := tx.seen[u := s.db.users[u]]) else tx.(stage := next)
  }

  function StepPlan(l: Limits, s: Sys, t: nat, order: seq<nat>): Tx
    requires Enabled(s, Plans(t, order))
  {
    var tx := s.txs[t];
    if Passes(l, s.db, tx) then tx.(stage := KeyStage(order), planned := Plan(s.db, tx)) else Close(tx)
  }

  function StepLockKey(s: Sys, t: nat): Tx
    requires Enabled(s, LocksKey(t))
  {
    var tx := s.txs[t];
    var k := tx.stage.keys[0];
    var next := KeyStage(tx.stage.keys[1..]);
    if k in s.db.keys then tx.(stage := next, keysHeld := tx.keysHeld + {k}) else tx.(stage := next)
  }

  function Apply(l: Limits, s: Sys, e: Event): Sys
    requires Enabled(s, e)
  {
    match e
    case Begins(t, r) => s.(txs := s.txs[t := Tx(r, LockingUsers(UserLocks(s.db, r)), map[], {}, {})])
    case LocksUser(t) => s.(txs := s.txs[t := StepLockUser(s, t)])
    case Plans(t, order) => s.(txs := s.txs[t := StepPlan(l, s, t, order)])
    case LocksKey(t) => s.(txs := s.txs[t := StepLockKey(s, t)])
    case Commits(t) => Sys(Write(s.db, s.txs[t]), s.txs[t := Close(s.txs[t])])
    case RollsBack(t) => s.(txs := s.txs[t := Close(s.txs[t])])
  }

  ghost predicate Runs(l: Limits, db: Db, ev: seq<Event>)
    decreases |ev|, 0
  {
    ev == [] || (Runs(l, db, ev[..|ev| - 1]) && Enabled(After(l, db, ev[..|ev| - 1]), ev[|ev| - 1]))
  }

  /** Where a run of transactions leads, from a database nobody is working on. */
  ghost function After(l: Limits, db: Db, ev: seq<Event>): Sys
    requires Runs(l, db, ev)
    decreases |ev|, 1
  {
    if ev == [] then Sys(db, map[]) else Apply(l, After(l, db, ev[..|ev| - 1]), ev[|ev| - 1])
  }

  // ----- invariant -----

  predicate Ascending(a: seq<nat>) {
    forall i, j | 0 <= i < j < |a| :: a[i] < a[j]
  }

  predicate PlannedKeys(db: Db, tx: Tx) {
    Bulk(tx.request) ==>
      && Plan(db, tx) <= tx.planned
      && (forall k | k in tx.planned :: k in db.keys && (k in Plan(db, tx) || db.keys[k].revoked))
  }

  /** The key rows held or awaited: a bulk revocation's belong to its target, others lock one key last. */
  predicate KeyLocksFit(db: Db, tx: Tx) {
    if Bulk(tx.request) then
      && (forall k | k in tx.keysHeld :: k in db.keys && db.keys[k].owner == tx.request.target)
      && (tx.stage.LockingKeys? ==> forall k | k in tx.stage.keys ::
          k in db.keys && db.keys[k].owner == tx.request.target)
    else
      tx.stage.LockingKeys? ==> tx.keysHeld == {} && |tx.stage.keys| == 1
  }

  predicate Reads(db: Db, tx: Tx) {
    forall u | u in tx.seen :: u in db.users && tx.seen[u] == db.users[u]
  }

  predicate TxOk(l: Limits, db: Db, tx: Tx) {
    && Reads(db, tx)
    && match tx.stage
       case Closed => tx.seen == map[] && tx.keysHeld == {}
       case LockingUsers(todo) =>
         tx.keysHeld == {} && Ascending(todo) && forall u, i | u in tx.seen && 0 <= i < |todo| :: u < todo[i]
       case LockingKeys(todo) => todo != [] && Passes(l, db, tx) && PlannedKeys(db, tx) && KeyLocksFit(db, tx)
       case Ready => Passes(l, db, tx) && PlannedKeys(db, tx) && KeyLocksFit(db, tx)
  }

  ghost predicate Exclusive(txs: map<nat, Tx>) {
    forall t, t' | t in txs && t' in txs && t != t' ::
        txs[t].seen.Keys !! txs[t'].seen.Keys && txs[t].keysHeld !! txs[t'].keysHeld
  }

  ghost predicate Safe(l: Limits, s: Sys) {
    Exclusive(s.txs) && forall t | t in s.txs :: TxOk(l, s.db, s.txs[t])
  }

  // ----- what another transaction's commit may do to rows somebody holds -----

  ghost predicate Respects(db: Db, db': Db, mine: set<nat>) {
    && db'.users.Keys == db.users.Keys && (forall u | u in mine && u in db.users :: db'.users[u] == db.users[u])
    && db.keys.Keys <= db'.keys.Keys
    && (forall k | k in db.keys ::
          db'.keys[k].owner == db.keys[k].owner && (db.keys[k].revoked ==> db'.keys[k].revoked)
          && (db.keys[k].owner in mine ==> db'.keys[k].scopes == db.keys[k].scopes))
    && (forall k | k in db'.keys && k !in db.keys :: db'.keys[k].owner !in mine)
    && (forall i | i in db.inboxes :: i in db'.inboxes && db'.inboxes[i] == db.inboxes[i])
    && (forall i | i in db'.inboxes && i !in db.inboxes :: db'.inboxes[i] !in mine)
  }

  lemma BulkWriteRespects(l: Limits, db: Db, tx: Tx, mine: set<nat>)
    requires Reads(db, tx) && Passes(l, db, tx) && tx.seen.Keys !! mine && Bulk(tx.request)
    ensures Respects(db, Write(db, tx), mine)
  {
    assert tx.request.target !in mine;
  }

  lemma KeyWriteRespects(l: Limits, db: Db, tx: Tx, mine: set<nat>)
    requires Reads(db, tx) && Passes(l, db, tx) && tx.seen.Keys !! mine
    requires tx.request.CreateKey? || tx.request.UpdateKey? || tx.request.RevokeKey?
    ensures Respects(db, Write(db, tx), mine)
  {
    var db' := Write(db, tx);
    assert db' == db.(keys := db'.keys);
    forall k | k in db.keys && k != tx.request.key ensures k in db'.keys && db'.keys[k] == db.keys[k] {
    }
  }

  lemma WriteRespects(l: Limits, db: Db, tx: Tx, mine: set<nat>)
    requires TxOk(l, db, tx) && tx.stage == Ready && tx.seen.Keys !! mine
    ensures Respects(db, Write(db, tx), mine)
  {
    if Bulk(tx.request) {
      BulkWriteRespects(l, db, tx, mine);
    } else if !tx.request.CreateInbox? {
      KeyWriteRespects(l, db, tx, mine);
    }
  }

  lemma RespectKeepsPasses(l: Limits, db: Db, db': Db, tx: Tx)
    requires Passes(l, db, tx) && Respects(db, db', tx.seen.Keys)
    ensures Passes(l, db', tx)
  {
    match tx.request
    case CreateKey(o, _, _) =>
      assert ActiveKeys(db', o) <= ActiveKeys(db, o);
      FewerAtMost(ActiveKeys(db', o), ActiveKeys(db, o));
    case CreateInbox(o, _) => assert InboxesOf(db', o) == InboxesOf(db, o);
    case _ =>
  }

  lemma RespectKeepsPlan(l: Limits, db: Db, db': Db, tx: Tx)
    requires Passes(l, db, tx) && PlannedKeys(db, tx) && Respects(db, db', tx.seen.Keys)
    ensures PlannedKeys(db', tx)
  {
    if Bulk(tx.request) {
      var t := tx.request.target;
      forall k | k in db'.keys && Affected(db'.keys[k], t, Lost(tx)) ensures k in Plan(db, tx) {
        assert k in db.keys && Affected(db.keys[k], t, Lost(tx));
      }
      forall k | k in tx.planned ensures k in db'.keys && (k in Plan(db', tx) || db'.keys[k].revoked) {
        assert k in Plan(db, tx) ==> Affected(db.keys[k], t, Lost(tx));
        assert k in Plan(db, tx) && !db'.keys[k].revoked ==> Affected(db'.keys[k], t, Lost(tx));
      }
    }
  }

  lemma RespectKeepsTx(l: Limits, db: Db, db': Db, tx: Tx)
    requires TxOk(l, db, tx) && Respects(db, db', tx.seen.Keys)
    ensures TxOk(l, db', tx)
  {
    if tx.stage.LockingKeys? || tx.stage == Ready {
      RespectKeepsPasses(l, db, db', tx);
      RespectKeepsPlan(l, db, db', tx);
    }
  }

  // ----- preservation -----

  lemma OneTxKeepsSafe(l: Limits, s: Sys, t: nat, tx: Tx)
    requires Safe(l, s) && TxOk(l, s.db, tx)
    requires forall t' | t' in s.txs && t' != t ::
               tx.seen.Keys !! s.txs[t'].seen.Keys && tx.keysHeld !! s.txs[t'].keysHeld
    ensures Safe(l, s.(txs := s.txs[t := tx]))
  {
  }

  lemma LockUserKeepsTx(l: Limits, s: Sys, t: nat)
    requires Safe(l, s) && Enabled(s, LocksUser(t))
    ensures TxOk(l, s.db, StepLockUser(s, t))
    ensures forall t' | t' in s.txs && t' != t :: StepLockUser(s, t).seen.Keys !! s.txs[t'].seen.Keys
  {
    var tx, todo := s.txs[t], s.txs[t].stage.users;
    assert TxOk(l, s.db, tx);
    assert forall i | 0 <= i < |todo[1..]| :: todo[1..][i] == todo[i + 1];
    forall t' | t' in s.txs && t' != t ensures StepLockUser(s, t).seen.Keys !! s.txs[t'].seen.Keys {
      assert tx.seen.Keys !! s.txs[t'].seen.Keys;
    }
  }

  lemma PlanKeepsTx(l: Limits, s: Sys, t: nat, order: seq<nat>)
    requires Safe(l, s) && Enabled(s, Plans(t, order))
    ensures TxOk(l, s.db, StepPlan(l, s, t, order))
  {
    assert TxOk(l, s.db, s.txs[t]);
  }

  lemma LockKeyKeepsTx(l: Limits, s: Sys, t: nat)
    requires Safe(l, s) && Enabled(s, LocksKey(t))
    ensures TxOk(l, s.db, StepLockKey(s, t))
    ensures forall t' | t' in s.txs && t' != t :: StepLockKey(s, t).keysHeld !! s.txs[t'].keysHeld
  {
    var tx := s.txs[t];
    assert TxOk(l, s.db, tx);
    forall t' | t' in s.txs && t' != t ensures StepLockKey(s, t).keysHeld !! s.txs[t'].keysHeld {
      assert tx.keysHeld !! s.txs[t'].keysHeld;
    }
  }

  lemma CommitKeepsSafe(l: Limits, s: Sys, t: nat)
    requires Safe(l, s) && Enabled(s, Commits(t))
    ensures Safe(l, Apply(l, s, Commits(t)))
  {
    var s' := Apply(l, s, Commits(t));
    forall t' | t' in s'.txs ensures TxOk(l, s'.db, s'.txs[t']) {
      if t' != t {
        WriteRespects(l, s.db, s.txs[t], s.txs[t'].seen.Keys);
        RespectKeepsTx(l, s.db, s'.db, s.txs[t']);
      }
    }
  }

  lemma StepKeepsSafe(l: Limits, s: Sys, e: Event)
    requires Safe(l, s) && Enabled(s, e)
    ensures Safe(l, Apply(l, s, e))
  {
    match e
    case Begins(t, r) => OneTxKeepsSafe(l, s, t, Tx(r, LockingUsers(UserLocks(s.db, r)), map[], {}, {}));
    case LocksUser(t) => LockUserKeepsTx(l, s, t); OneTxKeepsSafe(l, s, t, StepLockUser(s, t));
    case Plans(t, order) => PlanKeepsTx(l, s, t, order); OneTxKeepsSafe(l, s, t, StepPlan(l, s, t, order));
    case LocksKey(t) => LockKeyKeepsTx(l, s, t); OneTxKeepsSafe(l, s, t, StepLockKey(s, t));
    case Commits(t) => CommitKeepsSafe(l, s, t);
    case RollsBack(t) => OneTxKeepsSafe(l, s, t, Close(s.txs[t]));
  }

  lemma {:induction false} RunKeepsSafe(l: Limits, db: Db, ev: seq<Event>)
    requires Runs(l, db, ev)
    ensures Safe(l, After(l, db, ev))
    decreases |ev|
  {
    if ev != [] {
      RunKeepsSafe(l, db, ev[..|ev| - 1]);
      StepKeepsSafe(l, After(l, db, ev[..|ev| - 1]), ev[|ev| - 1]);
    }
  }
}
