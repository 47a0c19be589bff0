/** Which answer each creating call gets, on every run: replays return the message, other content conflicts. */
module CreationAnswers {
  import opened Options
  import opened MessageLifecycle
  import opened MR = MessageRow
  import opened IdempotentCreation

  lemma {:induction false} RunPrefix(c: Config, ev: seq<Event>, i: nat)
    requires Runs(c, ev) && i <= |ev|
    ensures Runs(c, ev[..i])
    ensures i < |ev| ==> Enabled(c, After(c, ev[..i]), ev[i]) && Runs(c, ev[..i + 1])
                         && After(c, ev[..i + 1]) == Apply(c, After(c, ev[..i]), ev[i])
    decreases |ev|
  {
    if i == |ev| {
      assert ev[..i] == ev;
    } else {
      var front := ev[..|ev| - 1];
      if i < |front| {
        RunPrefix(c, front, i);
        assert front[..i] == ev[..i] && front[..i + 1] == ev[..i + 1];
      } else {
        assert ev[..i] == front && ev[..i + 1] == ev;
      }
    }
  }

  /** The world in which event `i` of the run happens. */
  ghost function WorldAt(c: Config, ev: seq<Event>, i: nat): (w: World)
    requires Runs(c, ev) && i < |ev|
    ensures Enabled(c, w, ev[i])
  {
    RunPrefix(c, ev, i);
    After(c, ev[..i])
  }

  // ----- answers are final -----

  predicate Decided(s: Stage) {
    s != Arrived && s != Missed
  }

  /** The call is still the same, and so is its answer if it has one. */
  predicate Same(a: Call, b: Call) {
    a.user == b.user && a.key == b.key && a.fingerprint == b.fingerprint && (Decided(a.stage) ==> a == b)
  }

  lemma StepKeepsCall(c: Config, w: World, e: Event, k: nat)
    requires Enabled(c, w, e) && k in w.calls
    ensures var t := Apply(c, w, e); k in t.calls && Same(w.calls[k], t.calls[k])
  {
  }

  lemma {:induction false} RunKeepsCall(c: Config, ev: seq<Event>, i: nat, k: nat)
    requires Runs(c, ev) && i <= |ev| && Runs(c, ev[..i]) && k in After(c, ev[..i]).calls
    ensures k in After(c, ev).calls && Same(After(c, ev[..i]).calls[k], After(c, ev).calls[k])
    decreases |ev|
  {
    if i == |ev| {
      assert ev[..i] == ev;
    } else {
      var front := ev[..|ev| - 1];
      assert front[..i] == ev[..i];
      RunKeepsCall(c, front, i, k);
      StepKeepsCall(c, After(c, front), ev[|ev| - 1], k);
    }
  }

  // ----- what decides them -----

  /** A lookup that finds a message under the call's user and key decides the call for good: it returns that
      message exactly if the fingerprints are equal then, and conflicts otherwise. */
  lemma LookupDecides(c: Config, ev: seq<Event>, i: nat, k: nat, id: nat)
    requires Runs(c, ev) && i < |ev| && ev[i] == CallLooksUp(k, Some(id))
    ensures var w := WorldAt(c, ev, i);
      && id in w.messages && k in w.calls && k in After(c, ev).calls
      && w.messages[id].user == w.calls[k].user && w.messages[id].key == w.calls[k].key
      && After(c, ev).calls[k].stage
         == if w.messages[id].sys.row.fingerprint == w.calls[k].fingerprint then Returned(id) else Conflicted
  {
    RunPrefix(c, ev, i);
    RunKeepsCall(c, ev, i + 1, k);
  }

  /** An insert decides its call as well: a new message exactly if the key is still free and the usage is
      granted, an error otherwise. */
  lemma InsertDecides(c: Config, ev: seq<Event>, i: nat, k: nat, id: nat, now: int, quotaOk: bool)
    requires Runs(c, ev) && i < |ev| && ev[i] == CallInserts(k, id, now, quotaOk)
    ensures var w := WorldAt(c, ev, i);
      && k in w.calls && k in After(c, ev).calls
      && After(c, ev).calls[k].stage
         == (if quotaOk && !Taken(w.messages, w.calls[k].user, w.calls[k].key) then Returned(id) else Errored)
      && (quotaOk && !Taken(w.messages, w.calls[k].user, w.calls[k].key) ==>
            && id in Apply(c, w, ev[i]).messages
            && var m := Apply(c, w, ev[i]).messages[id];
            && m.user == w.calls[k].user && m.key == w.calls[k].key && m.bornQueued
            && m.sys.row.state == Queued && m.sys.row.fingerprint == w.calls[k].fingerprint
            && m.sys.now == now && m.sys.workers == map[] && m.sys.ledger.reserves == 1)
  {
    RunPrefix(c, ev, i);
    RunKeepsCall(c, ev, i + 1, k);
  }

  lemma ConflictStartsAtLookup(c: Config, w: World, e: Event, k: nat)
    requires Enabled(c, w, e) && k in Apply(c, w, e).calls && Apply(c, w, e).calls[k].stage == Conflicted
    requires k in w.calls ==> w.calls[k].stage != Conflicted
    ensures e.CallLooksUp? && e.call == k && e.found.Some? && e.found.value in w.messages && k in w.calls
    ensures w.messages[e.found.value].sys.row.fingerprint != w.calls[k].fingerprint
  {
  }

  /** A conflict is never answered without cause: a lookup of that call found a message under its user and key
      with another fingerprint. */
  lemma {:induction false} ConflictHasACause(c: Config, ev: seq<Event>, k: nat) returns (i: nat, id: nat)
    requires Runs(c, ev) && k in After(c, ev).calls && After(c, ev).calls[k].stage == Conflicted
    ensures i < |ev| && ev[i] == CallLooksUp(k, Some(id))
    ensures var w, call := WorldAt(c, ev, i), After(c, ev).calls[k];
      && Has(w.messages, id, call.user, call.key) && w.messages[id].sys.row.fingerprint != call.fingerprint
    decreases |ev|
  {
    var last := |ev| - 1;
    var front, e := ev[..last], ev[last];
    var w := After(c, front);
    if k in w.calls && w.calls[k].stage == Conflicted {
      i, id := ConflictHasACause(c, front, k);
      StepKeepsCall(c, w, e, k);
      assert front[..i] == ev[..i];
    } else {
      ConflictStartsAtLookup(c, w, e, k);
      StepKeepsCall(c, w, e, k);
      i, id := last, e.found.value;
    }
  }

  /** A message is deleted for good only after its user hid it, and at rest: its key is not freed before. */
  lemma {:induction false} GoneWasHidden(c: Config, ev: seq<Event>, id: nat) returns (i: nat)
    requires Runs(c, ev) && id in After(c, ev).gone
    ensures i < |ev| && ev[i] == MessageIsPurged(id)
    ensures var w := WorldAt(c, ev, i);
      && id in w.messages && w.messages[id].sys.row.userDeletedAt.Some?
      && w.messages[id].sys.row.state in {Delivered, Cancelled, Failed}
    decreases |ev|
  {
    var last := |ev| - 1;
    if id in After(c, ev[..last]).gone {
      i := GoneWasHidden(c, ev[..last], id);
      assert ev[..last][..i] == ev[..i];
    } else {
      i := last;
    }
  }

  // ----- replays of a creation -----

  /** The message was created queued, and still is that message unless it was deleted for good. */
  predicate StillBorn(w: World, id: nat) {
    id in w.gone || (id in w.messages && w.messages[id].bornQueued)
  }

  lemma {:induction false} BornStays(c: Config, ev: seq<Event>, i: nat, id: nat)
    requires Runs(c, ev) && i <= |ev| && Runs(c, ev[..i]) && StillBorn(After(c, ev[..i]), id)
    ensures StillBorn(After(c, ev), id)
    decreases |ev|
  {
    if i == |ev| {
      assert ev[..i] == ev;
    } else {
      var front := ev[..|ev| - 1];
      assert front[..i] == ev[..i];
      BornStays(c, front, i, id);
    }
  }

  /** Event `i` is the insert of call `k` that created message `id`. */
  ghost predicate CreatesAt(c: Config, ev: seq<Event>, i: nat, k: nat, id: nat)
    requires Runs(c, ev)
  {
    && i < |ev| && ev[i].CallInserts? && ev[i].call == k && ev[i].id == id && ev[i].quotaOk
    && var w := WorldAt(c, ev, i);
    !Taken(w.messages, w.calls[k].user, w.calls[k].key)
  }

  lemma CreatedIsFound(c: Config, ev: seq<Event>, i: nat, k: nat, id: nat)
    requires Runs(c, ev) && CreatesAt(c, ev, i, k, id) && id in After(c, ev).messages
    ensures k in After(c, ev).calls
    ensures var w := After(c, ev);
      && Has(w.messages, id, w.calls[k].user, w.calls[k].key)
      && w.messages[id].sys.row.fingerprint == w.calls[k].fingerprint
      && forall a | Has(w.messages, a, w.calls[k].user, w.calls[k].key) :: a == id
  {
    RunPrefix(c, ev, i);
    RunKeepsCall(c, ev, i + 1, k);
    BornStays(c, ev, i + 1, id);
    RunKeepsConsistent(c, ev);
    var w := After(c, ev);
    assert Honoured(w.messages, w.gone, w.calls[k]);
  }

  /** Once a call has created a message, every later lookup under its user and key finds exactly that message,
      until it is deleted for good: it is returned to calls with the creating call's content, and every other
      call conflicts. */
  lemma ReplayIsAnswered(c: Config, ev: seq<Event>, i: nat, k: nat, id: nat, j: nat, k': nat, found: Option<nat>)
    requires Runs(c, ev) && CreatesAt(c, ev, i, k, id) && i < j < |ev| && ev[j] == CallLooksUp(k', found)
    requires var w := WorldAt(c, ev, j);
      && id in w.messages && k in w.calls
      && w.calls[k'].user == w.calls[k].user && w.calls[k'].key == w.calls[k].key
    ensures found == Some(id) && k' in After(c, ev).calls
    ensures After(c, ev).calls[k'].stage
         == if WorldAt(c, ev, j).calls[k'].fingerprint == WorldAt(c, ev, j).calls[k].fingerprint then Returned(id)
            else Conflicted
  {
    RunPrefix(c, ev, j);
    var before := ev[..j];
    assert before[..i] == ev[..i];
    CreatedIsFound(c, before, i, k, id);
    assert Has(WorldAt(c, ev, j).messages, id, WorldAt(c, ev, j).calls[k'].user, WorldAt(c, ev, j).calls[k'].key);
    LookupDecides(c, ev, j, k', id);
  }
}
