/** Account actions by what they change: which scopes each role may hold, and exactly which request of
    whom gives or takes a role, a status, a key, a scope or an inbox, alone and in every interleaving. */
module AccountEffects {
  import opened Options
  import opened Accounts
  import opened AccountLocking
  import opened AccountTheorems

  // ----- scopes by role -----

  /** The scopes by the role that may hold them, where the code lists the role each scope needs. */
  function Holdable(owner: UserRow): set<Scope> {
    if owner.status != Some(Active) then {}
    else if owner.role == Some(Admin) then
      {MailServersRead, MailServersWrite, MailServersAdmin,
       InboxesRead, InboxesWrite, OutboundMessagesRead, OutboundMessagesWrite}
    else if owner.role == Some(Operator) then
      {MailServersRead, MailServersWrite, InboxesRead, InboxesWrite, OutboundMessagesRead, OutboundMessagesWrite}
    else {InboxesRead, InboxesWrite, OutboundMessagesRead, OutboundMessagesWrite}
  }

  lemma AllowedIffHoldable(owner: UserRow, s: Scope)
    ensures OwnerAllows(owner, s) <==> s in Holdable(owner)
  {
  }

  /** Every scope of the payload is known and the owner may hold it. */
  predicate Grantable(owner: UserRow, payload: Option<seq<RawScope>>) {
    payload.Some? ==> forall r | r in payload.value :: r.Known? && r.scope in Holdable(owner)
  }

  /** A payload is granted exactly if the owner may hold each of its scopes, and then these scopes are
      stored, each once in the order of the enumeration, and no other; without a payload none are. */
  lemma GrantedIffHoldable(owner: UserRow, payload: Option<seq<RawScope>>)
    ensures var granted := Authorize(owner, payload);
      && (granted.Some? <==> Grantable(owner, payload))
      && (granted.Some? && payload.None? ==> granted.value == [])
      && (granted.Some? && payload.Some? ==>
            && (forall s :: s in granted.value <==> Known(s) in payload.value) && Declared(granted.value))
  {
    forall s ensures OwnerAllows(owner, s) <==> s in Holdable(owner) {
      AllowedIffHoldable(owner, s);
    }
    if payload.Some? {
      if Unknown in payload.value {
        assert !Unknown.Known?;
      } else {
        EveryScopeIsACase();
        var n := Normalize(payload.value).value;
        assert forall s :: s in n <==> Known(s) in payload.value;
        InOrderOfDeclaration(CASES, Wanted(payload.value));
        if Grantable(owner, payload) {
          assert forall s | s in n :: Known(s).scope in Holdable(owner);
        } else {
          var r :| r in payload.value && !(r.Known? && r.scope in Holdable(owner));
          assert r == Known(r.scope) && r.scope in n;
        }
      }
    }
  }

  /** The place of a scope in the enumeration. */
  function Place(s: Scope): nat {
    match s
    case MailServersRead => 0
    case MailServersWrite => 1
    case MailServersAdmin => 2
    case InboxesRead => 3
    case InboxesWrite => 4
    case OutboundMessagesRead => 5
    case OutboundMessagesWrite => 6
  }

  ghost predicate Declared(scopes: seq<Scope>) {
    forall i, j | 0 <= i < j < |scopes| :: Place(scopes[i]) < Place(scopes[j])
  }

  lemma {:induction false} InOrderOfDeclaration(cases: seq<Scope>, wanted: set<Scope>)
    requires Declared(cases)
    ensures Declared(InOrder(cases, wanted))
    decreases |cases|
  {
    if cases != [] {
      var rest := InOrder(cases[1..], wanted);
      InOrderOfDeclaration(cases[1..], wanted);
      forall s | s in rest ensures Place(cases[0]) < Place(s) {
        var i :| 1 <= i < |cases| && cases[i] == s;
      }
    }
  }

  /** A change of role revokes by every scope the new role may not hold, unless the old one is that of a plain
      user: of the scopes the old role may hold exactly those the new one may not, and none of the new one's. */
  lemma LostIsWhatTheNewRoleMayNotHold(before: Role, after: Role)
    requires before != after
    ensures var had, has := Holdable(UserRow(Some(before), Some(Active))), Holdable(UserRow(Some(after), Some(Active)));
      && (forall s :: s in LostScopes(before, after) <==> before != User && s !in has)
      && LostScopes(before, after) * had == had - has
  {
    forall s: Scope
      ensures s in LostScopes(before, after) <==>
                before != User && s !in Holdable(UserRow(Some(after), Some(Active)))
    {
      EveryScopeIsACase();
      assert s in CASES;
    }
  }

  /** Unrevoked keys by the owner: none with a scope unless the owner is active, no administration of mail
      servers but for admins, and only inboxes and outbound messages for plain users. */
  ghost predicate KeysFit(db: Db) {
    forall k, s | k in db.keys && !db.keys[k].revoked && s in db.keys[k].scopes ::
      && db.keys[k].owner in db.users
      && var u := db.users[db.keys[k].owner];
      && u.status == Some(Active)
      && (s == MailServersAdmin ==> u.role == Some(Admin))
      && (u.role != Some(Admin) && u.role != Some(Operator) ==>
            s in {InboxesRead, InboxesWrite, OutboundMessagesRead, OutboundMessagesWrite})
  }

  ghost predicate OwnersExist(db: Db) {
    forall k | k in db.keys && !db.keys[k].revoked :: db.keys[k].owner in db.users
  }

  lemma AllowedIffFit(db: Db)
    ensures KeysAllowed(db) <==> OwnersExist(db) && KeysFit(db)
  {
    if OwnersExist(db) && KeysFit(db) {
      forall k, s | k in db.keys && !db.keys[k].revoked && s in db.keys[k].scopes
        ensures OwnerAllows(db.users[db.keys[k].owner], s)
      {
        AllowedIffHoldable(db.users[db.keys[k].owner], s);
      }
    }
  }

  /** In every interleaving, from a state where it holds, each unrevoked key fits its owner's role and status. */
  lemma KeysAlwaysFit(l: Limits, db: Db, ev: seq<Event>)
    requires OwnersExist(db) && KeysFit(db) && Runs(l, db, ev)
    ensures OwnersExist(After(l, db, ev).db) && KeysFit(After(l, db, ev).db)
  {
    AllowedIffFit(db);
    KeysStayAllowed(l, db, ev);
    AllowedIffFit(After(l, db, ev).db);
  }

  // ----- who changes what -----

  /** An active platform admin. */
  predicate ActiveAdmin(db: Db, u: nat) {
    u in db.users && db.users[u].role == Some(Admin) && db.users[u].status == Some(Active)
  }

  /** A role changes exactly when an active admin asks for another one for somebody else. */
  lemma RoleChangesIff(l: Limits, db: Db, r: Request, u: nat)
    requires u in db.users
    ensures var t := Perform(l, db, r).db;
      && u in t.users
      && (t.users[u].role != db.users[u].role <==>
            && r.ChangeRole? && r.target == u && r.actor != u && ActiveAdmin(db, r.actor)
            && db.users[u].role.Some? && db.users[u].role != Some(r.role))
      && (t.users[u].role != db.users[u].role ==> t.users[u] == db.users[u].(role := Some(r.role)))
  {
  }

  lemma StatusChangesIff(l: Limits, db: Db, r: Request, u: nat)
    requires u in db.users
    ensures var t := Perform(l, db, r).db;
      && u in t.users
      && (t.users[u].status != db.users[u].status <==>
            && r.ChangeStatus? && r.target == u && r.actor != u && ActiveAdmin(db, r.actor)
            && db.users[u].status.Some? && db.users[u].status != Some(r.status))
      && (t.users[u].status != db.users[u].status ==> t.users[u] == db.users[u].(status := Some(r.status)))
  {
  }

  /** A key appears exactly when its owner asks for scopes it may hold within its limit, and holds these. */
  lemma KeyAppearsIff(l: Limits, db: Db, r: Request, k: nat)
    requires k !in db.keys
    ensures var t := Perform(l, db, r).db;
      && (k in t.keys <==>
            && r.CreateKey? && r.key == k && r.owner in db.users && Grantable(db.users[r.owner], r.permissions)
            && (r.owner in l.keys ==>
                  |set x | x in db.keys && db.keys[x].owner == r.owner && !db.keys[x].revoked| < l.keys[r.owner]))
      && (k in t.keys ==>
            && t.keys[k].owner == r.owner && !t.keys[k].revoked
            && forall s :: s in t.keys[k].scopes <==> r.permissions.Some? && Known(s) in r.permissions.value)
  {
    if r.CreateKey? && r.owner in db.users {
      GrantedIffHoldable(db.users[r.owner], r.permissions);
      assert ActiveKeys(db, r.owner) == set x | x in db.keys && db.keys[x].owner == r.owner && !db.keys[x].revoked;
    }
  }

  /** A bulk revocation counts the keys it takes away, not those that were revoked before. */
  lemma AffectedAreTheKeysTaken(keys: map<nat, KeyRow>, owner: nat, lost: Option<set<Scope>>)
    ensures var after := RevokeAffected(keys, owner, lost);
      AffectedKeys(keys, owner, lost) == set k | k in keys && !keys[k].revoked && after[k].revoked
  {
  }

  /** The owner was more than a plain user, and the key holds a scope the new role may not hold. */
  predicate LosesAScope(k: KeyRow, before: Role, after: Role) {
    before != User && exists s :: s in k.scopes && s !in Holdable(UserRow(Some(after), Some(Active)))
  }

  /** The request takes key `k` away from its owner. */
  predicate Revokes(db: Db, r: Request, k: nat)
    requires k in db.keys
  {
    var owner := db.keys[k].owner;
    match r
    case RevokeKey(actor, key) => key == k && ActiveAdmin(db, actor)
    case UpdateKey(key, payload, revoke) =>
      key == k && revoke && (payload.Some? ==> owner in db.users && Grantable(db.users[owner], payload))
    case ChangeRole(actor, target, role) =>
      && target == owner && actor != target && ActiveAdmin(db, actor) && owner in db.users
      && db.users[owner].role.Some? && db.users[owner].role != Some(role)
      && LosesAScope(db.keys[k], db.users[owner].role.value, role)
    case ChangeStatus(actor, target, status) =>
      && target == owner && actor != target && ActiveAdmin(db, actor) && owner in db.users
      && db.users[owner].status.Some? && db.users[owner].status != Some(status) && status != Active
    case _ => false
  }

  /** A key is revoked exactly by an admin, by an update that asks for it, by a change of its owner's role that
      costs one of its scopes, or when its owner is deactivated. */
  lemma RevokedIff(l: Limits, db: Db, r: Request, k: nat)
    requires k in db.keys && !db.keys[k].revoked
    ensures var t := Perform(l, db, r).db; k in t.keys && (t.keys[k].revoked <==> Revokes(db, r, k))
  {
    var owner := db.keys[k].owner;
    match r
    case UpdateKey(_, payload, _) =>
      if owner in db.users { GrantedIffHoldable(db.users[owner], payload); }
    case ChangeRole(_, target, role) =>
      if target in db.users && db.users[target].role.Some? {
        var before := db.users[target].role.value;
        if before != role {
          LostIsWhatTheNewRoleMayNotHold(before, role);
          assert Affected(db.keys[k], target, Some(LostScopes(before, role))) <==>
              owner == target && LosesAScope(db.keys[k], before, role);
        }
      }
    case _ =>
  }

  /** The scopes of a key change only by an update with scopes its owner may hold, and to exactly these. */
  lemma ScopesChangeIff(l: Limits, db: Db, r: Request, k: nat)
    requires k in db.keys
    ensures var t := Perform(l, db, r).db;
      && k in t.keys && t.keys[k].owner == db.keys[k].owner
      && (r.UpdateKey? && r.key == k && r.permissions.Some?
          && db.keys[k].owner in db.users && Grantable(db.users[db.keys[k].owner], r.permissions) ==>
            forall s :: s in t.keys[k].scopes <==> Known(s) in r.permissions.value)
      && (!(r.UpdateKey? && r.key == k && r.permissions.Some?
            && db.keys[k].owner in db.users && Grantable(db.users[db.keys[k].owner], r.permissions)) ==>
            t.keys[k].scopes == db.keys[k].scopes)
  {
    if r.UpdateKey? && r.key == k && db.keys[k].owner in db.users {
      GrantedIffHoldable(db.users[db.keys[k].owner], r.permissions);
    }
  }

  lemma InboxAppearsIff(l: Limits, db: Db, r: Request, i: nat)
    requires i !in db.inboxes
    ensures var t := Perform(l, db, r).db;
      && (i in t.inboxes <==>
            && r.CreateInbox? && r.inbox == i && r.owner in db.users
            && (r.owner in l.inboxes ==> |set x | x in db.inboxes && db.inboxes[x] == r.owner| < l.inboxes[r.owner]))
      && (i in t.inboxes ==> t.inboxes[i] == r.owner)
  {
    if r.CreateInbox? {
      assert InboxesOf(db, r.owner) == set x | x in db.inboxes && db.inboxes[x] == r.owner;
    }
  }

  /** The answer tells what happened and why: nothing changes unless the request was performed; a request that
      finds its goal reached is a no-op; and a refusal names a reason that is true. */
  lemma VerdictsAreTrue(l: Limits, db: Db, r: Request)
    ensures var e := Perform(l, db, r);
      && (e.verdict != Performed ==> e.db == db)
      && (Bulk(r) ==> (e.verdict == Performed <==> e.db.users != db.users))
      && match e.verdict
         case Performed => true
         case NoOp =>
           || (r.ChangeRole? && r.target in db.users && db.users[r.target].role == Some(r.role))
           || (r.ChangeStatus? && r.target in db.users && db.users[r.target].status == Some(r.status))
           || (r.RevokeKey? && r.key in db.keys && db.keys[r.key].revoked)
         case ActorUnavailable => (Bulk(r) || r.RevokeKey?) && r.actor !in db.users
         case TargetUnavailable =>
           || (r.ChangeRole? && (r.target !in db.users || db.users[r.target].role.None?))
           || (r.ChangeStatus? && (r.target !in db.users || db.users[r.target].status.None?))
           || (r.UpdateKey? && (r.key !in db.keys || db.keys[r.key].owner !in db.users))
           || (r.RevokeKey? && r.key !in db.keys)
           || ((r.CreateKey? || r.CreateInbox?) && r.owner !in db.users)
         case NotAllowed => (Bulk(r) || r.RevokeKey?) && (!ActiveAdmin(db, r.actor) || (Bulk(r) && r.actor == r.target))
         case ScopeNotAllowed =>
           || (r.CreateKey? && r.owner in db.users && !Grantable(db.users[r.owner], r.permissions))
           || (r.UpdateKey? && r.key in db.keys && db.keys[r.key].owner in db.users
               && !Grantable(db.users[db.keys[r.key].owner], r.permissions))
         case QuotaExceeded =>
           || (r.CreateKey? && r.owner in l.keys && |ActiveKeys(db, r.owner)| >= l.keys[r.owner])
           || (r.CreateInbox? && r.owner in l.inboxes && |InboxesOf(db, r.owner)| >= l.inboxes[r.owner])
         case IdTaken => (r.CreateKey? && r.key in db.keys) || (r.CreateInbox? && r.inbox in db.inboxes)
  {
    if r.CreateKey? && r.owner in db.users {
      GrantedIffHoldable(db.users[r.owner], r.permissions);
    } else if r.UpdateKey? && r.key in db.keys && db.keys[r.key].owner in db.users {
      GrantedIffHoldable(db.users[db.keys[r.key].owner], r.permissions);
    } else if Bulk(r) && r.target in db.users {
      assert Perform(l, db, r).verdict == Performed ==>
          Perform(l, db, r).db.users[r.target] != db.users[r.target];
    }
  }

  // ----- in every interleaving -----

  /** Whatever transactions interleave, a role or a status changes only by the commit of a request whose actor
      is an active admin at that very moment, and not the one concerned. */
  lemma PrivilegesComeFromAdmins(l: Limits, db: Db, ev: seq<Event>, e: Event, u: nat)
    requires Runs(l, db, ev) && Enabled(After(l, db, ev), e) && u in After(l, db, ev).db.users
    ensures var s := After(l, db, ev);
      var t := Apply(l, s, e);
      && u in t.db.users
      && (t.db.users[u] != s.db.users[u] ==>
            && e.Commits? && e.tx in s.txs && Bulk(s.txs[e.tx].request) && s.txs[e.tx].request.target == u
            && s.txs[e.tx].request.actor != u && ActiveAdmin(s.db, s.txs[e.tx].request.actor))
  {
    CommitsAreSerial(l, db, ev, e);
    var s := After(l, db, ev);
    if e.Commits? {
      RoleChangesIff(l, s.db, s.txs[e.tx].request, u);
      StatusChangesIff(l, s.db, s.txs[e.tx].request, u);
    }
  }

  /** And a key is revoked only by the commit of a request that takes it away by the rules above, judged on the
      database of that moment. */
  lemma KeysAreRevokedByTheRules(l: Limits, db: Db, ev: seq<Event>, e: Event, k: nat)
    requires Runs(l, db, ev) && Enabled(After(l, db, ev), e)
    requires k in After(l, db, ev).db.keys && !After(l, db, ev).db.keys[k].revoked
    ensures var s := After(l, db, ev);
      var t := Apply(l, s, e);
      k in t.db.keys && (t.db.keys[k].revoked <==> e.Commits? && Revokes(s.db, s.txs[e.tx].request, k))
  {
    CommitsAreSerial(l, db, ev, e);
    var s := After(l, db, ev);
    if e.Commits? {
      RevokedIff(l, s.db, s.txs[e.tx].request, k);
    }
  }
}
