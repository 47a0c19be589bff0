/** Users, API keys and inboxes, and what each account action does to them when it runs alone. */
module Accounts {
  import opened Options
  import opened Sequences

  datatype Role = User | Operator | Admin

  datatype Status = Active | Pending | Suspended | Banned

  datatype Scope =
    | MailServersRead | MailServersWrite | MailServersAdmin
    | InboxesRead | InboxesWrite | OutboundMessagesRead | OutboundMessagesWrite

  function RequiredCapability(s: Scope): Role {
    match s
    case MailServersRead => Operator
    case MailServersWrite => Operator
    case MailServersAdmin => Admin
    case _ => User
  }

  /** `None` stands for a stored value outside the enumeration. */
  datatype UserRow = UserRow(role: Option<Role>, status: Option<Status>)

  predicate IsPlatformOperator(u: UserRow) {
    u.status == Some(Active) && (u.role == Some(Operator) || u.role == Some(Admin))
  }

  predicate IsPlatformAdmin(u: UserRow) {
    IsPlatformOperator(u) && u.role == Some(Admin)
  }

  predicate OwnerAllows(owner: UserRow, s: Scope) {
    && owner.status == Some(Active)
    && match RequiredCapability(s)
       case User => true
       case Operator => IsPlatformOperator(owner)
       case Admin => IsPlatformAdmin(owner)
  }

  // ----- scope normalization -----

  const CASES := [MailServersRead, MailServersWrite, MailServersAdmin, InboxesRead, InboxesWrite,
                  OutboundMessagesRead, OutboundMessagesWrite]

  datatype RawScope = Known(scope: Scope) | Unknown

  /** The members of `wanted` in the order of `cases`. */
  function InOrder(cases: seq<Scope>, wanted: set<Scope>): (r: seq<Scope>)
    ensures forall s :: s in r <==> s in cases && s in wanted
  {
    if cases == [] then []
    else if cases[0] in wanted then [cases[0]] + InOrder(cases[1..], wanted)
    else InOrder(cases[1..], wanted)
  }

  function Wanted(raw: seq<RawScope>): set<Scope> {
    set r | r in raw && r.Known? :: r.scope
  }

  /** Unique scopes in declaration order; `None` when any entry is not a known scope. */
  function Normalize(raw: seq<RawScope>): (r: Option<seq<Scope>>)
    ensures r.None? <==> Unknown in raw
    ensures r.Some? ==> forall s :: s in r.value <==> Known(s) in raw
  {
    if Unknown in raw then None
    else
      EveryScopeIsACase();
      Some(InOrder(CASES, Wanted(raw)))
  }

  lemma EveryScopeIsACase()
    ensures forall s: Scope :: s in CASES
  {
    forall s: Scope ensures s in CASES {
      match s
      case MailServersRead => assert CASES[0] == s;
      case MailServersWrite => assert CASES[1] == s;
      case MailServersAdmin => assert CASES[2] == s;
      case InboxesRead => assert CASES[3] == s;
      case InboxesWrite => assert CASES[4] == s;
      case OutboundMessagesRead => assert CASES[5] == s;
      case OutboundMessagesWrite => assert CASES[6] == s;
    }
  }

  /** The scopes a key of `owner` may be stored with; no payload means no scopes. */
  function Authorize(owner: UserRow, raw: Option<seq<RawScope>>): (r: Option<seq<Scope>>)
    ensures r.Some? ==> forall s | s in r.value :: OwnerAllows(owner, s)
  {
    if raw.None? then Some([])
    else
      var n := Normalize(raw.value);
      if n.None? || exists s :: s in n.value && !OwnerAllows(owner, s) then None else n
  }

  // ----- the tables -----

  datatype KeyRow = KeyRow(owner: nat, scopes: seq<Scope>, revoked: bool)

  datatype Db = Db(users: map<nat, UserRow>, keys: map<nat, KeyRow>, inboxes: map<nat, nat>)

  /** Plan limits; a user without an entry is unlimited. */
  datatype Limits = Limits(keys: map<nat, int>, inboxes: map<nat, int>)

  function ActiveKeys(db: Db, owner: nat): set<nat> {
    set k | k in db.keys && db.keys[k].owner == owner && !db.keys[k].revoked
  }

  function InboxesOf(db: Db, owner: nat): set<nat> {
    set i | i in db.inboxes && db.inboxes[i] == owner
  }

  predicate KeyQuotaAllows(l: Limits, db: Db, owner: nat) {
    owner in l.keys ==> |ActiveKeys(db, owner)| < l.keys[owner]
  }

  predicate InboxQuotaAllows(l: Limits, db: Db, owner: nat) {
    owner in l.inboxes ==> |InboxesOf(db, owner)| < l.inboxes[owner]
  }

  // ----- bulk revocation -----

  /** Scopes a key must not keep when its owner's role changes. */
  function LostScopes(before: Role, after: Role): set<Scope> {
    if before == Admin && after == Operator then {MailServersAdmin}
    else if before != User && after == User then {MailServersRead, MailServersWrite, MailServersAdmin}
    else {}
  }

  /** Which keys a bulk revocation updates: the owner's unrevoked ones, all of them or those with a lost scope. */
  predicate Affected(k: KeyRow, owner: nat, lost: Option<set<Scope>>) {
    k.owner == owner && !k.revoked && (lost.Some? ==> exists s :: s in k.scopes && s in lost.value)
  }

  function AffectedKeys(keys: map<nat, KeyRow>, owner: nat, lost: Option<set<Scope>>): set<nat> {
    set k | k in keys && Affected(keys[k], owner, lost)
  }

  function RevokeIds(keys: map<nat, KeyRow>, ids: set<nat>): map<nat, KeyRow> {
    map k | k in keys :: if k in ids then keys[k].(revoked := true) else keys[k]
  }

  function RevokeAffected(keys: map<nat, KeyRow>, owner: nat, lost: Option<set<Scope>>): map<nat, KeyRow> {
    RevokeIds(keys, AffectedKeys(keys, owner, lost))
  }

  // ----- the actions -----

  datatype Request =
    | ChangeRole(actor: nat, target: nat, role: Role)
    | ChangeStatus(actor: nat, target: nat, status: Status)
    | CreateKey(owner: nat, key: nat, permissions: Option<seq<RawScope>>)
    | UpdateKey(key: nat, permissions: Option<seq<RawScope>>, revoke: bool)
    | RevokeKey(actor: nat, key: nat)
    | CreateInbox(owner: nat, inbox: nat)

  datatype Verdict = Performed | NoOp | ActorUnavailable | TargetUnavailable | NotAllowed | ScopeNotAllowed
      | QuotaExceeded | IdTaken

  datatype Effect = Effect(db: Db, verdict: Verdict)

  function ChangeRoleEffect(db: Db, actor: nat, target: nat, role: Role): Effect {
    if actor !in db.users then Effect(db, ActorUnavailable)
    else if target !in db.users then Effect(db, TargetUnavailable)
    else if !IsPlatformAdmin(db.users[actor]) || actor == target then Effect(db, NotAllowed)
    else if db.users[target].role.None? then Effect(db, TargetUnavailable)
    else if db.users[target].role.value == role then Effect(db, NoOp)
    else
      var lost := LostScopes(db.users[target].role.value, role);
      Effect(db.(keys := RevokeAffected(db.keys, target, Some(lost)),
                 users := db.users[target := db.users[target].(role := Some(role))]), Performed)
  }

  function ChangeStatusEffect(db: Db, actor: nat, target: nat, status: Status): Effect {
    if actor !in db.users then Effect(db, ActorUnavailable)
    else if target !in db.users then Effect(db, TargetUnavailable)
    else if !IsPlatformAdmin(db.users[actor]) || actor == target then Effect(db, NotAllowed)
    else if db.users[target].status.None? then Effect(db, TargetUnavailable)
    else if db.users[target].status.value == status then Effect(db, NoOp)
    else
      Effect(db.(keys := if status == Active then db.keys else RevokeAffected(db.keys, target, None),
                 users := db.users[target := db.users[target].(status := Some(status))]), Performed)
  }

  function CreateKeyEffect(l: Limits, db: Db, owner: nat, key: nat, permissions: Option<seq<RawScope>>): Effect {
    if owner !in db.users then Effect(db, TargetUnavailable)
    else
      var scopes := Authorize(db.users[owner], permissions);
      if scopes.None? then Effect(db, ScopeNotAllowed)
      else if !KeyQuotaAllows(l, db, owner) then Effect(db, QuotaExceeded)
      else if key in db.keys then Effect(db, IdTaken)
      else Effect(db.(keys := db.keys[key := KeyRow(owner, scopes.value, false)]), Performed)
  }

  /** A payload without permissions locks no owner and changes no scopes. */
  function UpdateKeyEffect(db: Db, key: nat, permissions: Option<seq<RawScope>>, revoke: bool): Effect {
    if key !in db.keys then Effect(db, TargetUnavailable)
    else
      var row := db.keys[key];
      if permissions.None? then Effect(db.(keys := db.keys[key := row.(revoked := row.revoked || revoke)]), Performed)
      else if row.owner !in db.users then Effect(db, TargetUnavailable)
      else
        var scopes := Authorize(db.users[row.owner], permissions);
        if scopes.None? then Effect(db, ScopeNotAllowed)
        else Effect(db.(keys := db.keys[key := KeyRow(row.owner, scopes.value, row.revoked || revoke)]), Performed)
  }

  function RevokeKeyEffect(db: Db, actor: nat, key: nat): Effect {
    if actor !in db.users then Effect(db, ActorUnavailable)
    else if key !in db.keys then Effect(db, TargetUnavailable)
    else if !IsPlatformAdmin(db.users[actor]) then Effect(db, NotAllowed)
    else if db.keys[key].revoked then Effect(db, NoOp)
    else Effect(db.(keys := db.keys[key := db.keys[key].(revoked := true)]), Performed)
  }

  function CreateInboxEffect(l: Limits, db: Db, owner: nat, inbox: nat): Effect {
    if owner !in db.users then Effect(db, TargetUnavailable)
    else if !InboxQuotaAllows(l, db, owner) then Effect(db, QuotaExceeded)
    else if inbox in db.inboxes then Effect(db, IdTaken)
    else Effect(db.(inboxes := db.inboxes[inbox := owner]), Performed)
  }

  function Perform(l: Limits, db: Db, r: Request): Effect {
    match r
    case ChangeRole(a, t, role) => ChangeRoleEffect(db, a, t, role)
    case ChangeStatus(a, t, status) => ChangeStatusEffect(db, a, t, status)
    case CreateKey(o, k, p) => CreateKeyEffect(l, db, o, k, p)
    case UpdateKey(k, p, revoke) => UpdateKeyEffect(db, k, p, revoke)
    case RevokeKey(a, k) => RevokeKeyEffect(db, a, k)
    case CreateInbox(o, i) => CreateInboxEffect(l, db, o, i)
  }

  // ----- what each action keeps -----

  ghost predicate SomeAdmin(db: Db) {
    exists u :: u in db.users && db.users[u].role == Some(Admin) && db.users[u].status == Some(Active)
  }

  /** No unrevoked key holds a scope its owner's role and status do not allow: the check made on every
      API request would pass for all of them. */
  ghost predicate KeysAllowed(db: Db) {
    forall k | k in db.keys && !db.keys[k].revoked ::
      db.keys[k].owner in db.users && forall s | s in db.keys[k].scopes :: OwnerAllows(db.users[db.keys[k].owner], s)
  }

  lemma PerformKeepsAnAdmin(l: Limits, db: Db, r: Request)
    requires SomeAdmin(db)
    ensures SomeAdmin(Perform(l, db, r).db)
  {
    var u :| u in db.users && db.users[u].role == Some(Admin) && db.users[u].status == Some(Active);
    var t := Perform(l, db, r);
    if t.verdict == Performed && (r.ChangeRole? || r.ChangeStatus?) {
      assert r.actor in t.db.users && t.db.users[r.actor].role == Some(Admin);
    } else {
      assert u in t.db.users && t.db.users[u].role == Some(Admin);
    }
  }

  lemma DemotionKeepsKeysAllowed(db: Db, actor: nat, target: nat, role: Role)
    requires KeysAllowed(db)
    ensures KeysAllowed(ChangeRoleEffect(db, actor, target, role).db)
  {
    var t := ChangeRoleEffect(db, actor, target, role).db;
    forall k | k in t.keys && !t.keys[k].revoked
      ensures t.keys[k].owner in t.users && forall s | s in t.keys[k].scopes :: OwnerAllows(t.users[t.keys[k].owner], s)
    {
      assert t.keys[k] == db.keys[k];
      if t != db && t.keys[k].owner == target {
        assert !Affected(db.keys[k], target, Some(LostScopes(db.users[target].role.value, role)));
      }
    }
  }

  lemma StatusChangeKeepsKeysAllowed(db: Db, actor: nat, target: nat, status: Status)
    requires KeysAllowed(db)
    ensures KeysAllowed(ChangeStatusEffect(db, actor, target, status).db)
  {
    var t := ChangeStatusEffect(db, actor, target, status).db;
    forall k | k in t.keys && !t.keys[k].revoked
      ensures t.keys[k].owner in t.users && forall s | s in t.keys[k].scopes :: OwnerAllows(t.users[t.keys[k].owner], s)
    {
      assert t.keys[k] == db.keys[k];
    }
  }

  lemma PerformKeepsKeysAllowed(l: Limits, db: Db, r: Request)
    requires KeysAllowed(db)
    ensures KeysAllowed(Perform(l, db, r).db)
  {
    match r
    case ChangeRole(a, t, role) => DemotionKeepsKeysAllowed(db, a, t, role);
    case ChangeStatus(a, t, status) => StatusChangeKeepsKeysAllowed(db, a, t, status);
    case _ =>
  }

  /** A user's counts stay within the plan limits. */
  predicate WithinQuota(l: Limits, db: Db, u: nat) {
    && (u in l.keys ==> |ActiveKeys(db, u)| <= l.keys[u])
    && (u in l.inboxes ==> |InboxesOf(db, u)| <= l.inboxes[u])
  }

  lemma PerformChangesKeyCounts(l: Limits, db: Db, r: Request, u: nat)
    ensures var t := Perform(l, db, r).db;
      if r.CreateKey? && r.owner == u && t != db
      then KeyQuotaAllows(l, db, u) && r.key !in ActiveKeys(db, u) && ActiveKeys(t, u) == ActiveKeys(db, u) + {r.key}
      else ActiveKeys(t, u) <= ActiveKeys(db, u)
  {
  }

  lemma PerformChangesInboxCounts(l: Limits, db: Db, r: Request, u: nat)
    ensures var t := Perform(l, db, r).db;
      if r.CreateInbox? && r.owner == u && t != db
      then InboxQuotaAllows(l, db, u) && r.inbox !in InboxesOf(db, u) && InboxesOf(t, u) == InboxesOf(db, u) + {r.inbox}
      else InboxesOf(t, u) == InboxesOf(db, u)
  {
  }

  lemma PerformKeepsQuota(l: Limits, db: Db, r: Request, u: nat)
    requires WithinQuota(l, db, u)
    ensures WithinQuota(l, Perform(l, db, r).db, u)
  {
    var t := Perform(l, db, r).db;
    PerformChangesKeyCounts(l, db, r, u);
    PerformChangesInboxCounts(l, db, r, u);
    if ActiveKeys(t, u) <= ActiveKeys(db, u) {
      FewerAtMost(ActiveKeys(t, u), ActiveKeys(db, u));
    }
  }

  // ----- what repeating or going on never undoes -----

  /** Repeating an account action, with nothing in between, leaves the database as the first time left it. */
  lemma RepeatingChangesNothing(l: Limits, db: Db, r: Request)
    ensures Perform(l, Perform(l, db, r).db, r).db == Perform(l, db, r).db
  {
    match r
    case ChangeRole(a, t, role) =>
    case ChangeStatus(a, t, status) =>
    case UpdateKey(k, p, revoke) =>
      var once := UpdateKeyEffect(db, k, p, revoke).db;
      assert UpdateKeyEffect(once, k, p, revoke).db.keys == once.keys;
    case _ =>
  }

  /** A revoked key stays revoked under its owner, whatever action follows. */
  lemma PerformKeepsRevoked(l: Limits, db: Db, r: Request, k: nat)
    requires k in db.keys
    ensures var t := Perform(l, db, r).db;
      && k in t.keys && t.keys[k].owner == db.keys[k].owner && (db.keys[k].revoked ==> t.keys[k].revoked)
  {
  }
}
