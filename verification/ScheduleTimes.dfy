/** A scheduled message is dispatched no earlier than its user asked last, whatever happens in between. */
module ScheduleTimes {
  import opened Options
  import opened MessageLifecycle
  import opened MR = MessageRow
  import opened DeliveryProtocol

  /** The time an event asks for, if it schedules or reschedules the message. */
  function Asked(c: Config, s: Sys, e: Event): Option<int> {
    if !e.Acts? || Perform(c, s.row, s.now, e.action).reply != Done then None
    else
      match e.action
      case Schedules(_, at, _) => Some(at)
      case Reschedules(_, at, _) => Some(at)
      case _ => None
  }

  ghost function AskedAt(c: Config, s: Sys, ev: seq<Event>, j: nat): Option<int>
    requires Runs(c, s, ev) && j < |ev|
  {
    Asked(c, StateAt(c, s, ev, j), ev[j])
  }

  /** A request is for the future and is stored as it is; nothing else sets the time of a waiting message. */
  lemma StepKeepsTime(c: Config, s: Sys, e: Event)
    requires Enabled(c, s, e) && Apply(c, s, e).row.state == Scheduled
    ensures var t, asked := Apply(c, s, e), Asked(c, s, e);
      if asked.Some? then t.row.schedule.at == asked && asked.value > s.now
      else s.row.state == Scheduled && t.row.schedule.at == s.row.schedule.at
  {
    if e.Acts? {
      ActionKeepsTime(c, s, e.action);
    }
  }

  lemma ActionKeepsTime(c: Config, s: Sys, a: Action)
    requires Perform(c, s.row, s.now, a).row.state == Scheduled
    ensures var t, asked := Perform(c, s.row, s.now, a).row, Asked(c, s, Acts(a));
      if asked.Some? then t.schedule.at == asked && asked.value > s.now
      else s.row.state == Scheduled && t.schedule.at == s.row.schedule.at
  {
  }

  /** Event `j` is the last request of the run. */
  ghost predicate AskedLast(c: Config, s: Sys, ev: seq<Event>, j: nat)
    requires Runs(c, s, ev)
  {
    j < |ev| && AskedAt(c, s, ev, j).Some? && forall k | j < k < |ev| :: AskedAt(c, s, ev, k).None?
  }

  lemma AskedInPrefix(c: Config, s: Sys, ev: seq<Event>, n: nat, k: nat)
    requires Runs(c, s, ev) && k < n <= |ev|
    ensures Runs(c, s, ev[..n])
    ensures AskedAt(c, s, ev[..n], k) == AskedAt(c, s, ev, k)
    ensures StateAt(c, s, ev[..n], k) == StateAt(c, s, ev, k)
  {
    RunPrefix(c, s, ev, n);
    assert ev[..n][..k] == ev[..k];
  }

  /** If event `j` is the last request among the first `n` events, and none follows, it is the last of all. */
  lemma StillAskedLast(c: Config, s: Sys, ev: seq<Event>, n: nat, j: nat)
    requires Runs(c, s, ev) && n <= |ev| && Runs(c, s, ev[..n]) && AskedLast(c, s, ev[..n], j)
    requires forall k | n <= k < |ev| :: AskedAt(c, s, ev, k).None?
    ensures AskedLast(c, s, ev, j)
    ensures AskedAt(c, s, ev, j) == AskedAt(c, s, ev[..n], j) && StateAt(c, s, ev, j) == StateAt(c, s, ev[..n], j)
  {
    AskedInPrefix(c, s, ev, n, j);
    forall k | j < k < |ev| ensures AskedAt(c, s, ev, k).None? {
      if k < n {
        AskedInPrefix(c, s, ev, n, k);
      }
    }
  }

  /** A waiting message waits for the time of the last request. */
  lemma {:induction false} LastAsked(c: Config, s0: Sys, ev: seq<Event>) returns (j: nat)
    requires Init(c, s0) && Runs(c, s0, ev) && After(c, s0, ev).row.state == Scheduled
    ensures AskedLast(c, s0, ev, j) && After(c, s0, ev).row.schedule.at == AskedAt(c, s0, ev, j)
    ensures StateAt(c, s0, ev, j).now < AskedAt(c, s0, ev, j).value
    decreases |ev|
  {
    var last := |ev| - 1;
    var front, e := ev[..last], ev[last];
    StepKeepsTime(c, After(c, s0, front), e);
    if Asked(c, After(c, s0, front), e).Some? {
      j := last;
    } else {
      j := LastAsked(c, s0, front);
      StillAskedLast(c, s0, ev, last, j);
    }
  }

  /** The dispatcher takes the message out of its schedule. */
  predicate Dispatches(c: Config, s: Sys, e: Event)
    requires Enabled(c, s, e)
  {
    e.Acts? && e.action.DispatcherActs? && s.row.state == Scheduled && Apply(c, s, e).row.state != Scheduled
  }

  lemma DispatchIsDue(c: Config, s: Sys, e: Event)
    requires Enabled(c, s, e) && Dispatches(c, s, e)
    ensures s.row.schedule.at.Some? && s.row.schedule.at.value <= s.now
  {
  }

  /** On every run the dispatcher queues or returns a message only when the time its user asked for last has
      come. That request came before, was for a time ahead of it then, and no later one took effect. */
  lemma DispatchWaitsForTheTimeAsked(c: Config, s0: Sys, ev: seq<Event>, i: nat) returns (j: nat)
    requires Init(c, s0) && Runs(c, s0, ev) && i < |ev| && Dispatches(c, StateAt(c, s0, ev, i), ev[i])
    ensures j < i && AskedAt(c, s0, ev, j).Some? && forall k | j < k < i :: AskedAt(c, s0, ev, k).None?
    ensures StateAt(c, s0, ev, j).now < AskedAt(c, s0, ev, j).value <= StateAt(c, s0, ev, i).now
  {
    RunPrefix(c, s0, ev, i);
    j := LastAsked(c, s0, ev[..i]);
    DispatchIsDue(c, StateAt(c, s0, ev, i), ev[i]);
    AskedInPrefix(c, s0, ev, i, j);
    forall k | j < k < i ensures AskedAt(c, s0, ev, k).None? {
      AskedInPrefix(c, s0, ev, i, k);
    }
  }
}
