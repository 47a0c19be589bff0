/**
 How far `schedule_version` protects a schedule from stale calls. Leaving the schedule resets the
 version to 0, so a version is spent once within one stay in `Scheduled`, not once for ever.
 */
module ScheduleToken {
  import opened Options
  import opened MessageLifecycle
  import opened MR = MessageRow
  import opened DeliveryProtocol
  import opened DeliveryTheorems

  /** The event is a reschedule, unschedule or send-now with version `v`, and it takes effect. */
  predicate Spends(c: Config, s: Sys, e: Event, v: int) {
    && e.Acts?
    && (match e.action
        case Reschedules(version, _, _) => version == v
        case Unschedules(version) => version == v
        case SendsNow(version, _, _) => version == v
        case _ => false)
    && Perform(c, s.row, s.now, e.action).reply == Done
  }

  lemma StepKeepsWellScheduled(c: Config, s: Sys, e: Event)
    requires WellScheduled(s.row) && Enabled(c, s, e)
    ensures WellScheduled(Apply(c, s, e).row)
  {
    match e
    case Acts(a) => ActionKeepsWellScheduled(c, s.row, s.now, a);
    case _ =>
  }

  lemma ActionKeepsWellScheduled(c: Config, row: Row, now: int, a: Action)
    requires WellScheduled(row)
    ensures WellScheduled(Perform(c, row, now, a).row)
  {
  }

  /** Every committed scheduled row has a null claim. */
  lemma {:induction false} RunKeepsWellScheduled(c: Config, s: Sys, ev: seq<Event>)
    requires WellScheduled(s.row) && Runs(c, s, ev)
    ensures WellScheduled(After(c, s, ev).row)
    decreases |ev|
  {
    if ev != [] {
      RunKeepsWellScheduled(c, s, ev[..|ev| - 1]);
      StepKeepsWellScheduled(c, After(c, s, ev[..|ev| - 1]), ev[|ev| - 1]);
    }
  }

  // ----- one use per stay in the schedule -----

  /** Version `v` lies behind: no call with it can take effect before the message is a draft again. */
  predicate Behind(row: Row, v: int) {
    row.state != Draft && (row.state == Scheduled ==> row.schedule.version > v)
  }

  lemma SpendingLeavesBehind(c: Config, s: Sys, e: Event, v: int)
    requires Enabled(c, s, e)
    ensures Spends(c, s, e, v) && Apply(c, s, e).row.state != Draft ==> Behind(Apply(c, s, e).row, v)
    ensures Behind(s.row, v) ==> !Spends(c, s, e, v)
    ensures Behind(s.row, v) && Apply(c, s, e).row.state != Draft ==> Behind(Apply(c, s, e).row, v)
  {
  }

  ghost predicate DraftAt(c: Config, s: Sys, ev: seq<Event>, k: nat)
    requires Runs(c, s, ev) && k <= |ev|
  {
    RunPrefix(c, s, ev, k);
    After(c, s, ev[..k]).row.state == Draft
  }

  ghost predicate SpendsAt(c: Config, s: Sys, ev: seq<Event>, i: nat, v: int)
    requires Runs(c, s, ev) && i < |ev|
  {
    RunPrefix(c, s, ev, i);
    Spends(c, After(c, s, ev[..i]), ev[i], v)
  }

  lemma {:induction false} BehindUntilDraft(c: Config, s: Sys, ev: seq<Event>, i: nat, j: nat, v: int)
    requires Runs(c, s, ev) && i < j <= |ev| && SpendsAt(c, s, ev, i, v)
    requires forall k | i < k <= j :: !DraftAt(c, s, ev, k)
    ensures Runs(c, s, ev[..j]) && Behind(After(c, s, ev[..j]).row, v)
  {
    RunPrefix(c, s, ev, j - 1);
    var m := After(c, s, ev[..j - 1]);
    assert !DraftAt(c, s, ev, j);
    if i < j - 1 {
      BehindUntilDraft(c, s, ev, i, j - 1, v);
    }
    SpendingLeavesBehind(c, m, ev[j - 1], v);
  }

  /** Two calls with one version can both take effect only if the message became a draft between
      them: while it stays scheduled, each version is a one-shot token, in any interleaving. */
  lemma OneUsePerSchedule(c: Config, s: Sys, ev: seq<Event>, i: nat, j: nat, v: int)
    requires Runs(c, s, ev) && i < j < |ev| && SpendsAt(c, s, ev, i, v) && SpendsAt(c, s, ev, j, v)
    ensures exists k :: i < k <= j && DraftAt(c, s, ev, k)
  {
    if forall k | i < k <= j :: !DraftAt(c, s, ev, k) {
      BehindUntilDraft(c, s, ev, i, j, v);
      RunPrefix(c, s, ev, j);
      SpendingLeavesBehind(c, After(c, s, ev[..j]), ev[j], v);
    }
  }

  // ----- exactly when a version can be used again -----

  ghost predicate CanBeSpent(c: Config, s: Sys, v: int) {
    exists ev, e :: Runs(c, s, ev) && Spends(c, After(c, s, ev), e, v)
  }

  /** Reschedules until the version reaches `v`. */
  lemma {:induction false} ClimbTo(c: Config, s: Sys, v: int) returns (ev: seq<Event>)
    requires c.scheduleEnabled && s.row.state == Scheduled && WellScheduled(s.row) && s.row.schedule.version <= v
    ensures Runs(c, s, ev)
    ensures var t := After(c, s, ev).row; t.state == Scheduled && t.schedule.version == v && WellScheduled(t)
    decreases v - s.row.schedule.version
  {
    ev := [];
    if s.row.schedule.version < v {
      var t := s;
      ev, t := Next(c, s, ev, t, Acts(Reschedules(s.row.schedule.version, s.now + 1, Some(0))));
      var rest := ClimbTo(c, t, v);
      Continue(c, s, ev, rest);
      ev := ev + rest;
    }
  }

  /** The version can be spent: while scheduling is enabled any positive one, as long as the message can
      still be scheduled; while it is disabled exactly the current one of a scheduled message. */
  predicate Spendable(c: Config, row: Row, v: int) {
    if c.scheduleEnabled then v >= 1 && Unsent(row.state) && row.draftDeletedAt.None?
    else row.state == Scheduled && row.schedule.version == v
  }

  /** A spent, guessed or remembered version takes effect on some continuation exactly when it is spendable:
      only queueing the message, cancelling it or deleting the draft ends that. */
  lemma ReusableIffStillSchedulable(c: Config, s: Sys, v: int)
    requires WellScheduled(s.row)
    ensures CanBeSpent(c, s, v) <==> Spendable(c, s.row, v)
  {
    if CanBeSpent(c, s, v) {
      var ev, e :| Runs(c, s, ev) && Spends(c, After(c, s, ev), e, v);
      RunKeepsWellScheduled(c, s, ev);
      NoWayBack(c, s, ev);
      DeletedDraftStays(c, s, ev);
      if !c.scheduleEnabled {
        DisabledKeepsVersion(c, s, ev);
      }
    }
    if Spendable(c, s.row, v) {
      if c.scheduleEnabled {
        var ev := ReachVersion(c, s, v);
        assert Spends(c, After(c, s, ev), Acts(Unschedules(v)), v);
      } else {
        assert Runs(c, s, []) && Spends(c, After(c, s, []), Acts(Unschedules(v)), v);
      }
    }
  }

  lemma ReachVersion(c: Config, s: Sys, v: int) returns (ev: seq<Event>)
    requires c.scheduleEnabled && WellScheduled(s.row) && Spendable(c, s.row, v)
    ensures Runs(c, s, ev)
    ensures var t := After(c, s, ev).row; t.state == Scheduled && t.schedule.version == v && WellScheduled(t)
  {
    ev := ReturnToDraft(c, s);
    var t := After(c, s, ev);
    ev, t := Next(c, s, ev, t, Acts(Schedules(t.row.draftVersion, t.now + 1, Some(0))));
    var rest := ClimbTo(c, t, v);
    Continue(c, s, ev, rest);
    ev := ev + rest;
  }

  lemma DisabledStepKeepsVersion(c: Config, s: Sys, e: Event)
    requires !c.scheduleEnabled && Enabled(c, s, e) && Apply(c, s, e).row.state == Scheduled
    ensures s.row.state == Scheduled && Apply(c, s, e).row.schedule.version == s.row.schedule.version
  {
  }

  lemma {:induction false} DisabledKeepsVersion(c: Config, s: Sys, ev: seq<Event>)
    requires !c.scheduleEnabled && Runs(c, s, ev) && After(c, s, ev).row.state == Scheduled
    ensures s.row.state == Scheduled && After(c, s, ev).row.schedule.version == s.row.schedule.version
    decreases |ev|
  {
    if ev != [] {
      DisabledStepKeepsVersion(c, After(c, s, ev[..|ev| - 1]), ev[|ev| - 1]);
      DisabledKeepsVersion(c, s, ev[..|ev| - 1]);
    }
  }

  lemma ReturnToDraft(c: Config, s: Sys) returns (ev: seq<Event>)
    requires WellScheduled(s.row) && Unsent(s.row.state) && s.row.draftDeletedAt.None?
    ensures Runs(c, s, ev)
    ensures var t := After(c, s, ev).row; t.state == Draft && t.draftDeletedAt.None? && t.schedule == CLEARED
  {
    ev := [];
    var t := s;
    if s.row.state == Scheduled {
      ev, t := Next(c, s, ev, t, Acts(Unschedules(s.row.schedule.version)));
    }
  }

  lemma StepKeepsDeletedDraft(c: Config, s: Sys, e: Event)
    requires WellScheduled(s.row) && s.row.draftDeletedAt.Some? && s.row.state != Scheduled && Enabled(c, s, e)
    ensures var t := Apply(c, s, e).row; t.draftDeletedAt.Some? && t.state != Scheduled
  {
  }

  lemma {:induction false} DeletedDraftStays(c: Config, s: Sys, ev: seq<Event>)
    requires WellScheduled(s.row) && Runs(c, s, ev)
    ensures s.row.draftDeletedAt.Some? ==>
        After(c, s, ev).row.draftDeletedAt.Some? && After(c, s, ev).row.state != Scheduled
    decreases |ev|
  {
    if ev != [] && s.row.draftDeletedAt.Some? {
      var front := ev[..|ev| - 1];
      DeletedDraftStays(c, s, front);
      RunKeepsWellScheduled(c, s, front);
      StepKeepsDeletedDraft(c, After(c, s, front), ev[|ev| - 1]);
    }
  }

  /** The double use, concretely: schedule, unschedule, schedule again, and version 1 works twice. */
  lemma VersionOneWorksTwice(c: Config) returns (s0: Sys, ev: seq<Event>)
    requires c.scheduleEnabled
    ensures Init(c, s0) && Runs(c, s0, ev) && |ev| == 4
    ensures SpendsAt(c, s0, ev, 1, 1) && SpendsAt(c, s0, ev, 3, 1)
  {
    s0 := Sys(NewDraft(0), 0, map[], EMPTY_LEDGER);
    var schedule, unschedule := Acts(Schedules(1, 1, Some(0))), Acts(Unschedules(1));
    Extend(c, s0, [], schedule);
    var e1 := [] + [schedule];
    Extend(c, s0, e1, unschedule);
    var e2 := e1 + [unschedule];
    Extend(c, s0, e2, schedule);
    var e3 := e2 + [schedule];
    Extend(c, s0, e3, unschedule);
    ev := e3 + [unschedule];
    assert ev[..1] == e1 && ev[..3] == e3;
  }
}
