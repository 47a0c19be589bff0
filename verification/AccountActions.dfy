/** The account actions as they run: rows locked and re-read, then updated in place. */
module AccountActions {
  import opened Options
  import opened Accounts
  import opened AccountLocking

  class AccountStore {
    var users: map<nat, UserRow>
    var keys: map<nat, KeyRow>
    var inboxes: map<nat, nat>

    function Snapshot(): Db
      reads this
    {
      Db(users, keys, inboxes)
    }

    constructor (db: Db)
      ensures Snapshot() == db
    {
      users, keys, inboxes := db.users, db.keys, db.inboxes;
    }

    /** Reads the rows of actor and target that exist, each once and in strictly ascending order of id, which
        is the order in which `AccountLocking` takes their locks. */
    method LockActorAndTarget(actor: nat, target: nat) returns (locked: map<nat, UserRow>, order: seq<nat>)
      ensures forall u :: u in locked <==> u in users && (u == actor || u == target)
      ensures forall u | u in locked :: locked[u] == users[u]
      ensures Ascending(order) && forall u :: u in order <==> u == actor || u == target
      ensures forall role :: order == UserLocks(Snapshot(), ChangeRole(actor, target, role))
    {
      locked := map[];
      order := if actor == target then [actor] else if actor < target then [actor, target] else [target, actor];
      assert forall u :: u in order <==> u == actor || u == target;
      for i := 0 to |order|
        invariant forall u :: u in locked <==> u in users && u in order[..i]
        invariant forall u | u in locked :: locked[u] == users[u]
      {
        if order[i] in users {
          locked := locked[order[i] := users[order[i]]];
        }
      }
      assert order[..|order|] == order;
    }

    method RevokeBulk(owner: nat, lost: Option<set<Scope>>) returns (count: nat)
      modifies this`keys
      ensures keys == RevokeAffected(old(keys), owner, lost)
      ensures count == |AffectedKeys(old(keys), owner, lost)|
    {
      count := 0;
      var todo := keys.Keys;
      ghost var before, affected := keys, AffectedKeys(keys, owner, lost);
      assert RevokeIds(before, affected - todo) == before;
      while todo != {}
        invariant todo <= before.Keys && keys == RevokeIds(before, affected - todo)
        invariant count == |affected - todo|
        decreases todo
      {
        var k :| k in todo;
        RevokeOneMore(before, affected, todo, k);
        if Affected(keys[k], owner, lost) {
          keys := keys[k := keys[k].(revoked := true)];
          count := count + 1;
        }
        todo := todo - {k};
      }
      assert affected - {} == affected;
    }

    method ChangePlatformRole(actorId: nat, targetId: nat, newRole: Role) returns (verdict: Verdict, revoked: nat)
      modifies this
      ensures Effect(Snapshot(), verdict) == ChangeRoleEffect(old(Snapshot()), actorId, targetId, newRole)
      ensures verdict == Performed ==>
        && revoked == |AffectedKeys(old(keys), targetId, Some(LostScopes(old(users)[targetId].role.value, newRole)))|
        && users == old(users)[targetId := old(users)[targetId].(role := Some(newRole))]
      ensures (SomeAdmin(old(Snapshot())) ==> SomeAdmin(Snapshot()))
          && (KeysAllowed(old(Snapshot())) ==> KeysAllowed(Snapshot()))
    {
      KeepsGuarantees(Limits(map[], map[]), Snapshot(), ChangeRole(actorId, targetId, newRole));
      var locked, order := LockActorAndTarget(actorId, targetId);
      revoked := 0;
      if actorId !in locked { return ActorUnavailable, 0; }
      if targetId !in locked { return TargetUnavailable, 0; }
      if !IsPlatformAdmin(locked[actorId]) { return NotAllowed, 0; }
      if actorId == targetId { return NotAllowed, 0; }
      if locked[targetId].role.None? { return TargetUnavailable, 0; }
      var oldRole := locked[targetId].role.value;
      if oldRole == newRole { return NoOp, 0; }
      revoked := RevokeBulk(targetId, Some(LostScopes(oldRole, newRole)));
      users := users[targetId := locked[targetId].(role := Some(newRole))];
      verdict := Performed;
    }

    method ChangeUserStatus(actorId: nat, targetId: nat, newStatus: Status) returns (verdict: Verdict, revoked: nat)
      modifies this
      ensures Effect(Snapshot(), verdict) == ChangeStatusEffect(old(Snapshot()), actorId, targetId, newStatus)
      ensures verdict == Performed && newStatus != Active ==> revoked == |AffectedKeys(old(keys), targetId, None)|
      ensures verdict == Performed ==>
          users == old(users)[targetId := old(users)[targetId].(status := Some(newStatus))]
      ensures (SomeAdmin(old(Snapshot())) ==> SomeAdmin(Snapshot()))
          && (KeysAllowed(old(Snapshot())) ==> KeysAllowed(Snapshot()))
    {
      KeepsGuarantees(Limits(map[], map[]), Snapshot(), ChangeStatus(actorId, targetId, newStatus));
      var locked, order := LockActorAndTarget(actorId, targetId);
      revoked := 0;
      if actorId !in locked { return ActorUnavailable, 0; }
      if targetId !in locked { return TargetUnavailable, 0; }
      if !IsPlatformAdmin(locked[actorId]) { return NotAllowed, 0; }
      if actorId == targetId { return NotAllowed, 0; }
      if locked[targetId].status.None? { return TargetUnavailable, 0; }
      if locked[targetId].status.value == newStatus { return NoOp, 0; }
      if newStatus != Active {
        revoked := RevokeBulk(targetId, None);
      }
      users := users[targetId := locked[targetId].(status := Some(newStatus))];
      verdict := Performed;
    }

    method CreateApiKey(l: Limits, owner: nat, key: nat, permissions: Option<seq<RawScope>>) returns (verdict: Verdict)
      modifies this
      ensures Effect(Snapshot(), verdict) == CreateKeyEffect(l, old(Snapshot()), owner, key, permissions)
      ensures KeysAllowed(old(Snapshot())) ==> KeysAllowed(Snapshot())
      ensures forall u :: WithinQuota(l, old(Snapshot()), u) ==> WithinQuota(l, Snapshot(), u)
    {
      KeepsGuarantees(l, Snapshot(), CreateKey(owner, key, permissions));
      if owner !in users { return TargetUnavailable; }
      var scopes := Authorize(users[owner], permissions);
      if scopes.None? { return ScopeNotAllowed; }
      if owner in l.keys && |ActiveKeys(Snapshot(), owner)| >= l.keys[owner] { return QuotaExceeded; }
      if key in keys { return IdTaken; }
      keys := keys[key := KeyRow(owner, scopes.value, false)];
      return Performed;
    }

    method UpdateApiKey(key: nat, permissions: Option<seq<RawScope>>, revoke: bool) returns (verdict: Verdict)
      modifies this
      ensures Effect(Snapshot(), verdict) == UpdateKeyEffect(old(Snapshot()), key, permissions, revoke)
      ensures KeysAllowed(old(Snapshot())) ==> KeysAllowed(Snapshot())
    {
      KeepsGuarantees(Limits(map[], map[]), Snapshot(), UpdateKey(key, permissions, revoke));
      if key !in keys { return TargetUnavailable; }
      var row := keys[key];
      if permissions.Some? {
        if row.owner !in users { return TargetUnavailable; }
        var scopes := Authorize(users[row.owner], permissions);
        if scopes.None? { return ScopeNotAllowed; }
        row := row.(scopes := scopes.value);
      }
      if revoke { row := row.(revoked := true); }
      keys := keys[key := row];
      return Performed;
    }

    method RevokeApiKey(actorId: nat, key: nat) returns (verdict: Verdict)
      modifies this
      ensures Effect(Snapshot(), verdict) == RevokeKeyEffect(old(Snapshot()), actorId, key)
      ensures KeysAllowed(old(Snapshot())) ==> KeysAllowed(Snapshot())
    {
      KeepsGuarantees(Limits(map[], map[]), Snapshot(), RevokeKey(actorId, key));
      if actorId !in users { return ActorUnavailable; }
      if key !in keys { return TargetUnavailable; }
      if !IsPlatformAdmin(users[actorId]) { return NotAllowed; }
      if keys[key].revoked { return NoOp; }
      keys := keys[key := keys[key].(revoked := true)];
      return Performed;
    }

    method CreateInbox(l: Limits, owner: nat, inbox: nat) returns (verdict: Verdict)
      modifies this
      ensures Effect(Snapshot(), verdict) == CreateInboxEffect(l, old(Snapshot()), owner, inbox)
      ensures forall u :: WithinQuota(l, old(Snapshot()), u) ==> WithinQuota(l, Snapshot(), u)
    {
      KeepsGuarantees(l, Snapshot(), Request.CreateInbox(owner, inbox));
      if owner !in users { return TargetUnavailable; }
      if owner in l.inboxes && |InboxesOf(Snapshot(), owner)| >= l.inboxes[owner] { return QuotaExceeded; }
      if inbox in inboxes { return IdTaken; }
      inboxes := inboxes[inbox := owner];
      return Performed;
    }
  }

  /** What every account action keeps, gathered for the methods. */
  lemma KeepsGuarantees(l: Limits, db: Db, r: Request)
    ensures var t := Perform(l, db, r).db;
      && (SomeAdmin(db) ==> SomeAdmin(t)) && (KeysAllowed(db) ==> KeysAllowed(t))
      && forall u :: WithinQuota(l, db, u) ==> WithinQuota(l, t, u)
  {
    if SomeAdmin(db) { PerformKeepsAnAdmin(l, db, r); }
    if KeysAllowed(db) { PerformKeepsKeysAllowed(l, db, r); }
    forall u | WithinQuota(l, db, u) ensures WithinQuota(l, Perform(l, db, r).db, u) {
      PerformKeepsQuota(l, db, r, u);
    }
  }

  /** One iteration of the bulk revocation: key `k` leaves the rows still to be looked at. */
  lemma RevokeOneMore(keys: map<nat, KeyRow>, affected: set<nat>, todo: set<nat>, k: nat)
    requires k in todo && todo <= keys.Keys
    ensures RevokeIds(keys, affected - todo)[k] == keys[k]
    ensures k in affected ==>
              && RevokeIds(keys, affected - (todo - {k}))
                  == RevokeIds(keys, affected - todo)[k := keys[k].(revoked := true)]
              && |affected - (todo - {k})| == |affected - todo| + 1
    ensures k !in affected ==> affected - (todo - {k}) == affected - todo
  {
    if k in affected {
      assert affected - (todo - {k}) == (affected - todo) + {k};
    }
  }
}
