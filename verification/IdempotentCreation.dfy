/**
 Creating outbound messages under an idempotency key. Send, reply and forward share one scheme:
 look the key up, compare fingerprints, insert under the unique (user, key) index. Lookup and insert
 are separate steps, and the messages already created go on living in between, until retention deletes them
 for good and frees their keys.
 */
module IdempotentCreation {
  import opened Options
  import opened MessageLifecycle
  import opened MR = MessageRow
  import DeliveryProtocol
  import DeliveryTheorems

  datatype Message = Message(user: nat, key: string, bornQueued: bool, sys: DeliveryProtocol.Sys)

  datatype Stage = Arrived | Missed | Returned(id: nat) | Conflicted | Errored

  datatype Call = Call(user: nat, key: string, fingerprint: nat, stage: Stage)

  /** `gone` holds the ids of messages deleted for good; ids are never given out again. */
  datatype World = World(messages: map<nat, Message>, calls: map<nat, Call>, gone: set<nat>)

  datatype Event =
    | CallArrives(call: nat, user: nat, key: string, fingerprint: nat)
    | CallLooksUp(call: nat, found: Option<nat>)
    | CallIsRefused(call: nat)                                  // rate limit or any other exception
    | CallInserts(call: nat, id: nat, now: int, quotaOk: bool)
    | DraftAppears(id: nat, user: nat, key: string, fingerprint: nat, now: int)
    | MessageLives(id: nat, event: DeliveryProtocol.Event)
    | MessageIsPurged(id: nat)

  predicate Has(m: map<nat, Message>, id: nat, user: nat, key: string) {
    id in m && m[id].user == user && m[id].key == key
  }

  predicate Taken(m: map<nat, Message>, user: nat, key: string) {
    exists id :: id in m && Has(m, id, user, key)
  }

  /** The row the insert makes, with its usage reserved in the same transaction. */
  function Born(c: Config, fingerprint: nat, now: int): DeliveryProtocol.Sys {
    DeliveryProtocol.Sys(NewQueued(c, fingerprint), now, map[], DeliveryProtocol.EMPTY_LEDGER.(reserves := 1))
  }

  function Drafted(fingerprint: nat, now: int): DeliveryProtocol.Sys {
    DeliveryProtocol.Sys(NewDraft(fingerprint), now, map[], DeliveryProtocol.EMPTY_LEDGER)
  }

  predicate IsNew(w: World, id: nat) {
    id !in w.messages && id !in w.gone
  }

  /** Hidden by its user and at rest; that its content is redacted and its other rows are gone is left open. */
  predicate Purgeable(row: Row) {
    row.userDeletedAt.Some? && row.state in {Delivered, Cancelled, Failed}
  }

  predicate Enabled(c: Config, w: World, e: Event) {
    match e
    case CallArrives(k, _, _, _) => k !in w.calls
    case CallLooksUp(k, found) =>
      k in w.calls && w.calls[k].stage == Arrived
      && (found.Some? ==> Has(w.messages, found.value, w.calls[k].user, w.calls[k].key))
      && (found.None? ==> !Taken(w.messages, w.calls[k].user, w.calls[k].key))
    case CallIsRefused(k) => k in w.calls && (w.calls[k].stage == Arrived || w.calls[k].stage == Missed)
    case CallInserts(k, id, _, _) => k in w.calls && w.calls[k].stage == Missed && IsNew(w, id)
    case DraftAppears(id, user, key, _, _) => IsNew(w, id) && !Taken(w.messages, user, key)
    case MessageLives(id, e') => id in w.messages && DeliveryProtocol.Enabled(c, w.messages[id].sys, e')
    case MessageIsPurged(id) => id in w.messages && Purgeable(w.messages[id].sys.row)
  }

  function Move(w: World, k: nat, stage: Stage): World
    requires k in w.calls
  {
    w.(calls := w.calls[k := w.calls[k].(stage := stage)])
  }

  /** The answer to a call whose lookup found message `id`. */
  function Compare(m: Message, id: nat, fingerprint: nat): Stage {
    if m.sys.row.fingerprint != fingerprint then Conflicted else Returned(id)
  }

  function Apply(c: Config, w: World, e: Event): World
    requires Enabled(c, w, e)
  {
    match e
    case CallArrives(k, user, key, fp) => w.(calls := w.calls[k := Call(user, key, fp, Arrived)])
    case CallLooksUp(k, found) =>
      Move(w, k, if found.None? then Missed else Compare(w.messages[found.value], found.value, w.calls[k].fingerprint))
    case CallIsRefused(k) => Move(w, k, Errored)
    case CallInserts(k, id, now, quotaOk) =>
      var call := w.calls[k];
      if Taken(w.messages, call.user, call.key) || !quotaOk then Move(w, k, Errored)
      else
        var m := Message(call.user, call.key, true, Born(c, call.fingerprint, now));
        Move(w.(messages := w.messages[id := m]), k, Returned(id))
    case DraftAppears(id, user, key, fp, now) =>
      w.(messages := w.messages[id := Message(user, key, false, Drafted(fp, now))])
    case MessageLives(id, e') =>
      var m := w.messages[id];
      w.(messages := w.messages[id := m.(sys := DeliveryProtocol.Apply(c, m.sys, e'))])
    case MessageIsPurged(id) => w.(messages := w.messages - {id}, gone := w.gone + {id})
  }

  ghost predicate Runs(c: Config, ev: seq<Event>)
    decreases |ev|, 0
  {
    ev == [] || (Runs(c, ev[..|ev| - 1]) && Enabled(c, After(c, ev[..|ev| - 1]), ev[|ev| - 1]))
  }

  /** The world a run of creations and message events leads to, from no messages at all. */
  ghost function After(c: Config, ev: seq<Event>): World
    requires Runs(c, ev)
    decreases |ev|, 1
  {
    if ev == [] then World(map[], map[], {}) else Apply(c, After(c, ev[..|ev| - 1]), ev[|ev| - 1])
  }

  // ----- invariant -----

  ghost predicate UniqueKeys(m: map<nat, Message>) {
    forall a, b | a in m && b in m && m[a].user == m[b].user && m[a].key == m[b].key :: a == b
  }

  predicate Honoured(m: map<nat, Message>, gone: set<nat>, call: Call) {
    call.stage.Returned? && call.stage.id !in gone ==>
      && Has(m, call.stage.id, call.user, call.key)
      && (m[call.stage.id].bornQueued ==> m[call.stage.id].sys.row.fingerprint == call.fingerprint)
  }

  ghost predicate Consistent(w: World) {
    && UniqueKeys(w.messages)
    && (forall id | id in w.messages :: id !in w.gone)
    && (forall id | id in w.messages && w.messages[id].bornQueued :: !Unsent(w.messages[id].sys.row.state))
    && (forall k | k in w.calls :: Honoured(w.messages, w.gone, w.calls[k]))
  }

  lemma InsertKeepsConsistent(c: Config, w: World, id: nat, m: Message)
    requires Consistent(w) && IsNew(w, id) && !Taken(w.messages, m.user, m.key)
    requires m.bornQueued ==> !Unsent(m.sys.row.state)
    ensures Consistent(w.(messages := w.messages[id := m]))
  {
    forall a | a in w.messages && m.user == w.messages[a].user && m.key == w.messages[a].key ensures false {
      assert Has(w.messages, a, m.user, m.key);
    }
  }

  lemma LifeKeepsConsistent(c: Config, w: World, id: nat, e: DeliveryProtocol.Event)
    requires Consistent(w) && Enabled(c, w, MessageLives(id, e))
    ensures Consistent(Apply(c, w, MessageLives(id, e)))
  {
    var m, w' := w.messages[id], Apply(c, w, MessageLives(id, e));
    DeliveryTheorems.StepGoesOnward(c, m.sys, e);
    forall k | k in w'.calls ensures Honoured(w'.messages, w'.gone, w'.calls[k]) {
      assert Honoured(w.messages, w.gone, w.calls[k]);
    }
  }

  lemma PurgeKeepsConsistent(c: Config, w: World, id: nat)
    requires Consistent(w) && Enabled(c, w, MessageIsPurged(id))
    ensures Consistent(Apply(c, w, MessageIsPurged(id)))
  {
    var w' := Apply(c, w, MessageIsPurged(id));
    forall k | k in w'.calls ensures Honoured(w'.messages, w'.gone, w'.calls[k]) {
      assert Honoured(w.messages, w.gone, w.calls[k]);
    }
  }

  lemma StepKeepsConsistent(c: Config, w: World, e: Event)
    requires Consistent(w) && Enabled(c, w, e)
    ensures Consistent(Apply(c, w, e))
  {
    match e
    case CallInserts(k, id, now, quotaOk) =>
      var call := w.calls[k];
      if !Taken(w.messages, call.user, call.key) && quotaOk {
        InsertKeepsConsistent(c, w, id, Message(call.user, call.key, true, Born(c, call.fingerprint, now)));
      }
    case DraftAppears(id, user, key, fp, now) => InsertKeepsConsistent(c, w, id,
        Message(user, key, false, Drafted(fp, now)));
    case MessageLives(id, e') => LifeKeepsConsistent(c, w, id, e');
    case MessageIsPurged(id) => PurgeKeepsConsistent(c, w, id);
    case _ =>
  }

  lemma {:induction false} RunKeepsConsistent(c: Config, ev: seq<Event>)
    requires Runs(c, ev)
    ensures Consistent(After(c, ev))
    decreases |ev|
  {
    if ev != [] {
      RunKeepsConsistent(c, ev[..|ev| - 1]);
      StepKeepsConsistent(c, After(c, ev[..|ev| - 1]), ev[|ev| - 1]);
    }
  }

  /** The call was answered with a message, and that message has not been deleted for good. */
  predicate Answered(w: World, k: nat) {
    k in w.calls && w.calls[k].stage.Returned? && w.calls[k].stage.id !in w.gone
  }

  /** However calls race with each other and with the life of the messages: one message per user and
      key, every successful call with that key returns it as long as it exists, and for a message these
      actions created, all these calls carried the fingerprint it still has. */
  lemma CreationIsIdempotent(c: Config, ev: seq<Event>, j: nat, k: nat)
    requires Runs(c, ev) && Answered(After(c, ev), j) && Answered(After(c, ev), k)
    requires var w := After(c, ev); w.calls[j].user == w.calls[k].user && w.calls[j].key == w.calls[k].key
    ensures var w := After(c, ev);
      && w.calls[j].stage == w.calls[k].stage && w.calls[j].stage.id in w.messages
      && (w.messages[w.calls[j].stage.id].bornQueued ==> w.calls[j].fingerprint == w.calls[k].fingerprint)
      && forall a | Has(w.messages, a, w.calls[j].user, w.calls[j].key) :: a == w.calls[j].stage.id
  {
    RunKeepsConsistent(c, ev);
    var w := After(c, ev);
    assert Honoured(w.messages, w.gone, w.calls[j]) && Honoured(w.messages, w.gone, w.calls[k]);
  }

  // ----- the action itself -----

  class Outbox {
    var messages: map<nat, Message>

    constructor ()
      ensures messages == map[]
    {
      messages := map[];
    }

    /** Send, reply or forward without a competing call: replay, conflict, rollback or one new message. */
    method Create(c: Config, user: nat, key: string, fingerprint: nat, id: nat, now: int, quotaOk: bool)
      returns (stage: Stage, isNew: bool)
      requires id !in messages
      modifies this
      ensures isNew <==> !Taken(old(messages), user, key) && quotaOk
      ensures isNew ==>
        && stage == Returned(id)
        && messages == old(messages)[id := Message(user, key, true, Born(c, fingerprint, now))]
      ensures !isNew ==> messages == old(messages)
      ensures Taken(old(messages), user, key) ==>
                exists found :: Has(old(messages), found, user, key)
                    && stage == if old(messages)[found].sys.row.fingerprint == fingerprint then Returned(found)
                                else Conflicted
      ensures !isNew && !Taken(old(messages), user, key) ==> stage == Errored
    {
      isNew := false;
      if Taken(messages, user, key) {
        var found :| found in messages && Has(messages, found, user, key);
        if messages[found].sys.row.fingerprint != fingerprint { return Conflicted, false; }
        return Returned(found), false;
      }
      if !quotaOk { return Errored, false; }
      messages := messages[id := Message(user, key, true, Born(c, fingerprint, now))];
      return Returned(id), true;
    }
  }
}
