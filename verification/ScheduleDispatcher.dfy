/**
 The dispatcher's batch: it selects due ids once, then locks and dispatches them one by one while
 users, other dispatchers and the clock go on between its locks.
 */
module ScheduleDispatcher {
  import opened Options
  import opened MessageLifecycle
  import opened MR = MessageRow
  import opened DeliveryProtocol
  import opened OldestFirst
  import opened Sequences

  /** What happens elsewhere between two locks of the dispatcher. */
  datatype Interruption = Elapses(seconds: nat) | Touches(id: nat, action: Action) | Removes(id: nat)

  datatype Table = Table(rows: map<nat, Row>, now: int)

  function Interrupt(c: Config, t: Table, i: Interruption): Table {
    match i
    case Elapses(d) => t.(now := t.now + d)
    case Touches(id, a) =>
      if id in t.rows then t.(rows := t.rows[id := Perform(c, t.rows[id], t.now, a).row]) else t
    case Removes(id) => t.(rows := t.rows - {id})
  }

  function InterruptAll(c: Config, t: Table, others: seq<Interruption>): Table
    decreases |others|
  {
    if others == [] then t else InterruptAll(c, Interrupt(c, t, others[0]), others[1..])
  }

  /** One message of the batch: the row as the lock found it, and what was done with it. */
  datatype Entry = Entry(id: nat, now: int, locked: Option<Row>, verdict: Verdict, outcome: DispatchOutcome,
      left: Option<Row>)

  function DispatchEntry(c: Config, t: Table, id: nat, verdict: Verdict): Entry {
    if id !in t.rows then Entry(id, t.now, None, verdict, if verdict == Throws then Deferred else DispatchFailed, None)
    else
      var row := t.rows[id];
      Entry(id, t.now, Some(row), verdict, DispatchResult(row, t.now, verdict),
          Some(Dispatch(c, row, t.now, verdict).row))
  }

  function Write(t: Table, e: Entry): Table {
    if e.left.Some? then t.(rows := t.rows[e.id := e.left.value]) else t
  }

  /** What happens to the `i`-th message of a batch besides its dispatch: `before(i)` precedes its lock,
      `verdict(i)` is what its checks answer, and `after(i)` follows a rollback before its compensation. */
  datatype Outside = Outside(before: nat -> seq<Interruption>, verdict: nat -> Verdict, after: nat -> seq<Interruption>)

  /** The compensation of a rolled-back dispatch, on whatever the row has become. */
  function Compensate(c: Config, t: Table, id: nat): Table {
    if id in t.rows then t.(rows := t.rows[id := ReleaseClaim(c, t.rows[id], t.now).row]) else t
  }

  /** What the rest of a dispatch makes of the table its transaction left. */
  function Settled(c: Config, t: Table, e: Entry, after: seq<Interruption>): Table {
    if e.verdict == Throws then Compensate(c, InterruptAll(c, t, after), e.id) else t
  }

  /** The whole turn of the `i`-th message, with everything around it. */
  function Turn(c: Config, t: Table, id: nat, i: nat, o: Outside): Table {
    var locked := InterruptAll(c, t, o.before(i));
    var e := DispatchEntry(c, locked, id, o.verdict(i));
    Settled(c, Write(locked, e), e, o.after(i))
  }

  /** The batch from its `i`-th message on: the table it ends with, and its log. */
  function Batch(c: Config, t: Table, ids: seq<nat>, i: nat, o: Outside): (Table, seq<Entry>)
    requires i <= |ids|
    decreases |ids| - i
  {
    if i == |ids| then (t, [])
    else
      var e := DispatchEntry(c, InterruptAll(c, t, o.before(i)), ids[i], o.verdict(i));
      var (end, rest) := Batch(c, Turn(c, t, ids[i], i, o), ids, i + 1, o);
      (end, [e] + rest)
  }

  datatype Stats = Stats(processed: nat, dispatched: nat, deferred: nat, failed: nat)

  function Count(s: Stats, o: DispatchOutcome): Stats {
    match o
    case Dispatched => s.(processed := s.processed + 1, dispatched := s.dispatched + 1)
    case Deferred => s.(processed := s.processed + 1, deferred := s.deferred + 1)
    case DispatchFailed => s.(processed := s.processed + 1, failed := s.failed + 1)
  }

  function Outcomes(log: seq<Entry>, o: DispatchOutcome): (n: nat)
    ensures n <= |log|
  {
    if log == [] then 0 else Outcomes(log[..|log| - 1], o) + (if log[|log| - 1].outcome == o then 1 else 0)
  }

  /** Due times of the rows the selection query matches. */
  function DueTimes(t: Table): map<nat, int> {
    map id | id in t.rows && IsDue(t.rows[id], t.now) :: t.rows[id].schedule.at.value
  }

  /** The statistics are the tallies of the log. */
  predicate Tallies(s: Stats, log: seq<Entry>) {
    && s.processed == |log| == s.dispatched + s.deferred + s.failed
    && s.dispatched == Outcomes(log, Dispatched)
    && s.deferred == Outcomes(log, Deferred)
    && s.failed == Outcomes(log, DispatchFailed)
  }

  lemma CountTallies(s: Stats, log: seq<Entry>, e: Entry)
    requires Tallies(s, log)
    ensures Tallies(Count(s, e.outcome), log + [e])
  {
    assert (log + [e])[..|log|] == log;
  }

  /** What the run selects: waiting messages whose time has come, oldest first, and below the limit all of
      them. A message is passed over exactly because it waits for a later time or attempt, or is claimed. */
  lemma SelectionIsDue(t: Table, limit: nat, ids: seq<nat>)
    requires IsOldest(DueTimes(t), limit, ids)
    ensures |ids| <= limit
    ensures forall i | 0 <= i < |ids| ::
              && ids[i] in t.rows && t.rows[ids[i]].state == Scheduled && t.rows[ids[i]].schedule.at.Some?
              && t.rows[ids[i]].schedule.at.value <= t.now
    ensures forall i, j | 0 <= i < j < |ids| ::
              && ids[i] != ids[j]
              && t.rows[ids[i]].schedule.at.value <= t.rows[ids[j]].schedule.at.value
    ensures |ids| < limit ==>
              forall id | id in t.rows && t.rows[id].state == Scheduled && t.rows[id].schedule.at.Some? ::
                id in ids <==>
                  var schedule := t.rows[id].schedule;
                  && schedule.at.value <= t.now && schedule.claimedAt.None?
                  && (schedule.nextAttemptAt.Some? ==> schedule.nextAttemptAt.value <= t.now)
  {
    var stamps := DueTimes(t);
    forall i | 0 <= i < |ids| ensures ids[i] in t.rows && IsDue(t.rows[ids[i]], t.now) {
      assert ids[i] in stamps;
    }
    if |ids| < limit {
      SetOfSize(ids);
      assert SetOf(ids) <= stamps.Keys;
      AllOfThem(SetOf(ids), stamps.Keys);
      forall id | id in t.rows && IsDue(t.rows[id], t.now) ensures id in ids {
        assert id in stamps && id in SetOf(ids);
      }
    }
  }

  /** The entries of the log that have this outcome. */
  function Having(log: seq<Entry>, o: DispatchOutcome): set<nat> {
    set i | 0 <= i < |log| && log[i].outcome == o
  }

  lemma HavingGrows(front: seq<Entry>, e: Entry, o: DispatchOutcome)
    ensures Having(front + [e], o) == if e.outcome == o then Having(front, o) + {|front|} else Having(front, o)
  {
  }

  /** The tally of an outcome is the number of entries that have it. */
  lemma {:induction false} OutcomesCountEntries(log: seq<Entry>, o: DispatchOutcome)
    ensures Outcomes(log, o) == |Having(log, o)|
    decreases |log|
  {
    if log == [] {
      assert Having(log, o) == {};
    } else {
      var front, e := log[..|log| - 1], log[|log| - 1];
      OutcomesCountEntries(front, o);
      HavingGrows(front, e, o);
      assert front + [e] == log;
      assert |front| !in Having(front, o);
    }
  }

  class MessageTable {
    var table: Table

    constructor (t: Table)
      ensures table == t
    {
      table := t;
    }

    /** One dispatcher run. `ids` is what it selected, `log` what its locks found and its transactions did. */
    method Execute(c: Config, batchSize: int, o: Outside) returns (stats: Stats, ids: seq<nat>, log: seq<Entry>)
      modifies this
      ensures c.scheduleEnabled ==> IsOldest(DueTimes(old(table)), Max(1, batchSize), ids)
      ensures !c.scheduleEnabled ==> ids == []
      ensures forall i | 0 <= i < |ids| ::
                && ids[i] in old(table).rows && old(table).rows[ids[i]].state == Scheduled
                && old(table).rows[ids[i]].schedule.at.Some?
                && old(table).rows[ids[i]].schedule.at.value <= old(table).now
      ensures (table, log) == Batch(c, old(table), ids, 0, o)
      ensures Tallies(stats, log) && stats.processed == |ids| <= Max(1, batchSize)
    {
      stats, ids, log := Stats(0, 0, 0, 0), [], [];
      if !c.scheduleEnabled { return; }
      ids := PickOldest(DueTimes(table), Max(1, batchSize));
      SelectionIsDue(table, Max(1, batchSize), ids);
      ghost var whole := Batch(c, table, ids, 0, o);
      assert [] + whole.1 == whole.1;
      var i := 0;
      while i < |ids|
        invariant 0 <= i <= |ids| && |log| == i
        invariant whole.0 == Batch(c, table, ids, i, o).0
        invariant whole.1 == log + Batch(c, table, ids, i, o).1
        invariant Tallies(stats, log)
      {
        UnfoldBatch(c, table, ids, i, o, log);
        table := InterruptAll(c, table, o.before(i));
        var e := DispatchEntry(c, table, ids[i], o.verdict(i));
        table := Write(table, e);
        if e.verdict == Throws {
          table := InterruptAll(c, table, o.after(i));
          table := Compensate(c, table, ids[i]);
        }
        CountTallies(stats, log, e);
        stats := Count(stats, e.outcome);
        log := log + [e];
        i := i + 1;
      }
      assert log + [] == log;
    }
  }

  lemma UnfoldBatch(c: Config, t: Table, ids: seq<nat>, i: nat, o: Outside, log: seq<Entry>)
    requires i < |ids|
    ensures var e := DispatchEntry(c, InterruptAll(c, t, o.before(i)), ids[i], o.verdict(i));
      var now, next := Batch(c, t, ids, i, o), Batch(c, Turn(c, t, ids[i], i, o), ids, i + 1, o);
      now.0 == next.0 && log + now.1 == (log + [e]) + next.1
  {
  }

  // ----- the table at every lock -----

  /** The table before the `k`-th message's turn: the turns before it, one after the other. */
  function Reached(c: Config, t: Table, ids: seq<nat>, o: Outside, k: nat): Table
    requires k <= |ids|
  {
    if k == 0 then t else Turn(c, Reached(c, t, ids, o, k - 1), ids[k - 1], k - 1, o)
  }

  /** The table the `k`-th lock finds: the turns so far, and everything that happened before the lock. */
  function Found(c: Config, t: Table, ids: seq<nat>, o: Outside, k: nat): Table
    requires k < |ids|
  {
    InterruptAll(c, Reached(c, t, ids, o, k), o.before(k))
  }

  /** The dispatch of the `k`-th message on what its lock found. */
  function EntryAt(c: Config, t: Table, ids: seq<nat>, o: Outside, k: nat): Entry
    requires k < |ids|
  {
    DispatchEntry(c, Found(c, t, ids, o, k), ids[k], o.verdict(k))
  }

  /** The table the `k`-th transaction commits. */
  function Committed(c: Config, t: Table, ids: seq<nat>, o: Outside, k: nat): Table
    requires k < |ids|
  {
    Write(Found(c, t, ids, o, k), EntryAt(c, t, ids, o, k))
  }

  lemma {:induction false} BatchFromHere(c: Config, t: Table, ids: seq<nat>, o: Outside, i: nat)
    requires i <= |ids|
    ensures var (end, log) := Batch(c, Reached(c, t, ids, o, i), ids, i, o);
      && end == Reached(c, t, ids, o, |ids|) && |log| == |ids| - i
      && forall k | i <= k < |ids| :: log[k - i] == EntryAt(c, t, ids, o, k)
    decreases |ids| - i
  {
    if i < |ids| {
      BatchFromHere(c, t, ids, o, i + 1);
    }
  }

  /** The log entry of each message is its dispatch on the table its own lock found, whatever was selected
      before, and the batch ends with the table its last turn reached. */
  lemma BatchActsOnWhatItLocks(c: Config, t: Table, ids: seq<nat>, o: Outside)
    ensures var (end, log) := Batch(c, t, ids, 0, o);
      && end == Reached(c, t, ids, o, |ids|) && |log| == |ids|
      && forall k | 0 <= k < |ids| :: log[k] == EntryAt(c, t, ids, o, k)
  {
    BatchFromHere(c, t, ids, o, 0);
    var log := Batch(c, Reached(c, t, ids, o, 0), ids, 0, o).1;
    assert forall k | 0 <= k < |ids| :: log[k] == log[k - 0];
  }

  /** Whatever happened since the selection, the batch acts on what its locks find: the k-th transaction
      queues a scheduled message exactly if it is the k-th one selected, is due under the schedule it has at
      that moment, and is sendable. No other row changes, and a selected row that is no longer due is left as
      it is. */
  lemma NeverActsOnStaleSelections(c: Config, t: Table, ids: seq<nat>, o: Outside, k: nat, id: nat)
    requires k < |ids|
    requires var found := Found(c, t, ids, o, k); id in found.rows
    ensures var (end, log) := Batch(c, t, ids, 0, o);
      && |log| == |ids| && log[k] == EntryAt(c, t, ids, o, k) && end == Reached(c, t, ids, o, |ids|)
    ensures var found, committed := Found(c, t, ids, o, k), Committed(c, t, ids, o, k);
      && committed.now == found.now && committed.rows.Keys == found.rows.Keys
      && (found.rows[id].state == Scheduled && committed.rows[id].state == Queued <==>
            var schedule := found.rows[id].schedule;
            && id == ids[k] && o.verdict(k).Sendable?
            && found.rows[id].state == Scheduled && schedule.at.Some? && schedule.at.value <= found.now
            && schedule.claimedAt.None?
            && (schedule.nextAttemptAt.Some? ==> schedule.nextAttemptAt.value <= found.now))
      && (committed.rows[id].state == Queued && found.rows[id].state == Scheduled ==>
            committed.rows[id].fingerprint == o.verdict(k).fingerprint)
      && (committed.rows[id] != found.rows[id] ==>
            var schedule := found.rows[id].schedule;
            && id == ids[k] && found.rows[id].state == Scheduled
            && schedule.at.Some? && schedule.at.value <= found.now
            && (schedule.nextAttemptAt.Some? ==> schedule.nextAttemptAt.value <= found.now))
  {
    BatchActsOnWhatItLocks(c, t, ids, o);
  }

  /** A selected message that is gone by the time of its lock counts as failed, unless the attempt throws, and
      nothing else is touched. */
  lemma GoneMessagesFail(c: Config, t: Table, ids: seq<nat>, o: Outside, k: nat)
    requires k < |ids| && ids[k] !in Found(c, t, ids, o, k).rows
    ensures |Batch(c, t, ids, 0, o).1| == |ids|
    ensures Batch(c, t, ids, 0, o).1[k].outcome == if o.verdict(k) == Throws then Deferred else DispatchFailed
    ensures Committed(c, t, ids, o, k) == Found(c, t, ids, o, k)
  {
    BatchActsOnWhatItLocks(c, t, ids, o);
  }

  /** A deferred message is retried between 1 and max(1, configured) seconds after the lock. */
  lemma DeferralsAreBounded(c: Config, t: Table, ids: seq<nat>, o: Outside, k: nat)
    requires k < |ids| && o.verdict(k) == TemporarilyRefused
    requires var found := Found(c, t, ids, o, k);
      && ids[k] in found.rows && found.rows[ids[k]].state == Scheduled
      && (var schedule := found.rows[ids[k]].schedule;
          && schedule.at.Some? && schedule.at.value <= found.now && schedule.claimedAt.None?
          && (schedule.nextAttemptAt.Some? ==> schedule.nextAttemptAt.value <= found.now))
    ensures var found, committed := Found(c, t, ids, o, k), Committed(c, t, ids, o, k);
      var next := committed.rows[ids[k]].schedule.nextAttemptAt;
      next.Some? && found.now + 1 <= next.value <= found.now + Max(1, Min(c.deferSeconds, c.maxDeferSeconds))
  {
  }

  /** The compensation of a rolled-back dispatch has no such floor: its retry lies ahead exactly when both
      configured delays are positive. It also reaches a message rescheduled since the rollback. */
  lemma ReleasedClaimWaitsIffConfigured(c: Config, t: Table, id: nat)
    requires id in t.rows && t.rows[id].state == Scheduled
    ensures var next := Compensate(c, t, id).rows[id].schedule.nextAttemptAt;
      next.Some? && (next.value > t.now <==> c.deferSeconds > 0 && c.maxDeferSeconds > 0)
  {
  }

  // ----- no dangling claims -----

  /** Every committed scheduled row has a null claim. */
  ghost predicate Unclaimed(t: Table) {
    forall id | id in t.rows :: t.rows[id].state == Scheduled ==> t.rows[id].schedule.claimedAt.None?
  }

  lemma ActionKeepsUnclaimed(c: Config, row: Row, now: int, a: Action)
    requires row.state == Scheduled ==> row.schedule.claimedAt.None?
    ensures var r := Perform(c, row, now, a).row; r.state == Scheduled ==> r.schedule.claimedAt.None?
  {
  }

  lemma {:induction false} InterruptionsKeepUnclaimed(c: Config, t: Table, others: seq<Interruption>)
    requires Unclaimed(t)
    ensures Unclaimed(InterruptAll(c, t, others))
    decreases |others|
  {
    if others != [] {
      if others[0].Touches? && others[0].id in t.rows {
        ActionKeepsUnclaimed(c, t.rows[others[0].id], t.now, others[0].action);
      }
      InterruptionsKeepUnclaimed(c, Interrupt(c, t, others[0]), others[1..]);
    }
  }

  lemma DispatchKeepsUnclaimed(c: Config, t: Table, id: nat, verdict: Verdict)
    requires Unclaimed(t)
    ensures Unclaimed(Write(t, DispatchEntry(c, t, id, verdict)))
  {
  }

  /** At every turn of a batch, and so at its end, every scheduled row has a null claim. */
  lemma {:induction false} BatchKeepsUnclaimed(c: Config, t: Table, ids: seq<nat>, o: Outside, k: nat)
    requires Unclaimed(t) && k <= |ids|
    ensures Unclaimed(Reached(c, t, ids, o, k))
    decreases k
  {
    if k > 0 {
      BatchKeepsUnclaimed(c, t, ids, o, k - 1);
      InterruptionsKeepUnclaimed(c, Reached(c, t, ids, o, k - 1), o.before(k - 1));
      DispatchKeepsUnclaimed(c, Found(c, t, ids, o, k - 1), ids[k - 1], o.verdict(k - 1));
      InterruptionsKeepUnclaimed(c, Committed(c, t, ids, o, k - 1), o.after(k - 1));
    }
  }
}
