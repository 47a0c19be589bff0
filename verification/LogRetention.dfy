/** Batched deletion of expired log rows, and the one-shot deletion it refines. */
module LogRetention {
  import opened Options
  import opened OldestFirst
  import opened Sequences

  datatype Hold = Hold(releasedAt: Option<int>, heldUntil: Option<int>)

  datatype LogRow = LogRow(createdAt: int, holds: seq<Hold>)

  type Rows = map<nat, LogRow>

  const SECONDS_PER_DAY := 86400

  predicate IsActive(h: Hold, now: int) {
    h.releasedAt.None? && (h.heldUntil.Some? ==> h.heldUntil.value > now)
  }

  predicate Held(r: LogRow, now: int) {
    exists h :: h in r.holds && IsActive(h, now)
  }

  /** Which rows a cleanup may delete: those older than the cutoff, and for audit logs not held.
      Held rows are judged by the clock at the moment the query was built. */
  datatype Rule = Rule(cutoff: int, now: int, respectHolds: bool)

  predicate Deletable(r: LogRow, rule: Rule) {
    r.createdAt < rule.cutoff && (rule.respectHolds ==> !Held(r, rule.now))
  }

  function Eligible(rows: Rows, cutoff: int): set<nat> {
    set id | id in rows && rows[id].createdAt < cutoff
  }

  function DeletableIds(rows: Rows, rule: Rule): set<nat> {
    set id | id in rows && Deletable(rows[id], rule)
  }

  function DeletableStamps(rows: Rows, rule: Rule): map<nat, int> {
    map id | id in rows && Deletable(rows[id], rule) :: rows[id].createdAt
  }

  /** What one unbounded DELETE statement would leave. */
  function OneShot(rows: Rows, rule: Rule): Rows {
    rows - DeletableIds(rows, rule)
  }

  datatype Report = Report(eligible: nat, deleted: nat, held: nat, failedBatches: nat) | InvalidConfiguration

  /** What an interrupted cleanup still guarantees: nothing fresh or held is gone, the count is right,
      and deletion went from old to new. */
  ghost predicate OldestPrefixDeleted(before: Rows, after: Rows, rule: Rule, deleted: nat) {
    && after.Keys <= before.Keys && (forall id | id in after :: after[id] == before[id])
    && (forall id | id in before && !Deletable(before[id], rule) :: id in after)
    && |before| == |after| + deleted
    && (forall gone, kept | gone in before && gone !in after && kept in after && Deletable(after[kept], rule) ::
          before[gone].createdAt <= after[kept].createdAt)
  }

  lemma RemoveBatch(before: Rows, rows: Rows, rule: Rule, deleted: nat, limit: nat, ids: seq<nat>)
    requires OldestPrefixDeleted(before, rows, rule, deleted)
    requires IsOldest(DeletableStamps(rows, rule), limit, ids)
    ensures OldestPrefixDeleted(before, rows - SetOf(ids), rule, deleted + |ids|)
    ensures |DeletableIds(rows - SetOf(ids), rule)| == |DeletableIds(rows, rule)| - |ids|
  {
    var stamps, after := DeletableStamps(rows, rule), rows - SetOf(ids);
    SetOfSize(ids);
    assert stamps.Keys == DeletableIds(rows, rule);
    assert forall id :: id in SetOf(ids) ==> id in rows && id in stamps;
    assert after.Keys == rows.Keys - SetOf(ids);
    assert DeletableIds(after, rule) == DeletableIds(rows, rule) - SetOf(ids);
    forall gone, kept | gone in before && gone !in after && kept in after && Deletable(after[kept], rule)
      ensures before[gone].createdAt <= after[kept].createdAt
    {
      assert kept in stamps && kept !in ids;
      if gone in rows {
        assert gone in SetOf(ids);
        var i :| 0 <= i < |ids| && ids[i] == gone;
        assert stamps[ids[i]] <= stamps[kept];
      }
    }
  }

  /** When nothing deletable is left, the batches did what one statement would have done. */
  lemma DrainedIsOneShot(before: Rows, after: Rows, rule: Rule, deleted: nat)
    requires OldestPrefixDeleted(before, after, rule, deleted)
    requires DeletableIds(after, rule) == {}
    ensures after == OneShot(before, rule) && deleted == |DeletableIds(before, rule)|
  {
    forall id | id in before ensures id in after <==> !Deletable(before[id], rule) {
      assert id in after && Deletable(after[id], rule) ==> id in DeletableIds(after, rule);
    }
    assert after.Keys == before.Keys - DeletableIds(before, rule);
    assert |before.Keys - DeletableIds(before, rule)| == |before.Keys| - |DeletableIds(before, rule)|;
  }

  /** `failAt` is the number of the first batch whose transaction throws, if any. */
  predicate BatchFails(failAt: Option<nat>, batchSize: nat, deletable: nat) {
    failAt.Some? && failAt.value * batchSize < deletable
  }

  class LogTable {
    var rows: Rows

    constructor (rows: Rows)
      ensures this.rows == rows
    {
      this.rows := rows;
    }

    method DeleteInBatches(rule: Rule, batchSize: nat, failAt: Option<nat>) returns (deleted: nat, failed: nat)
      requires batchSize >= 1
      modifies this
      ensures OldestPrefixDeleted(old(rows), rows, rule, deleted)
      ensures failed == if BatchFails(failAt, batchSize, |DeletableIds(old(rows), rule)|) then 1 else 0
      ensures failed == 1 ==> deleted == failAt.value * batchSize
      ensures failed == 0 ==> rows == OneShot(old(rows), rule) && deleted == |DeletableIds(old(rows), rule)|
    {
      deleted, failed := 0, 0;
      var batch := 0;
      ghost var total := |DeletableIds(rows, rule)|;
      while true
        invariant OldestPrefixDeleted(old(rows), rows, rule, deleted)
        invariant |DeletableIds(rows, rule)| == total - deleted
        invariant deleted == Min(batch * batchSize, total)
        invariant failed == 0 && (failAt.Some? ==> failAt.value >= batch)
        decreases |DeletableIds(rows, rule)|
      {
        assert DeletableStamps(rows, rule).Keys == DeletableIds(rows, rule);
        var ids := PickOldest(DeletableStamps(rows, rule), batchSize);
        if ids == [] {
          assert DeletableIds(rows, rule) == {};
          DrainedIsOneShot(old(rows), rows, rule, deleted);
          FailuresComeTooLate(failAt, batch, batchSize, total);
          break;
        }
        NextBatch(batch, batchSize, total, deleted, |ids|);
        if failAt.Some? && failAt.value == batch {
          failed := 1;
          break;
        }
        RemoveBatch(old(rows), rows, rule, deleted, batchSize, ids);
        rows := rows - SetOf(ids);
        deleted := deleted + |ids|;
        batch := batch + 1;
      }
    }

    method CleanupApiRequestLogs(days: int, minDays: int, maxDays: int, batchSize: int, dryRun: bool, now: int,
        failAt: Option<nat>)
      returns (report: Report)
      modifies this
      ensures report == InvalidConfiguration <==> days < minDays || days > maxDays || batchSize < 1
      ensures report == InvalidConfiguration || dryRun ==> rows == old(rows)
      ensures var rule := Rule(now - days * 86400, now, false);
        report.Report? ==>
          && report.eligible == |Eligible(old(rows), rule.cutoff)| && report.held == 0
          && OldestPrefixDeleted(old(rows), rows, rule, report.deleted)
          && report.failedBatches == (if !dryRun && BatchFails(failAt, batchSize, report.eligible) then 1 else 0)
          && (!dryRun && report.failedBatches == 0 ==>
              rows == OneShot(old(rows), rule) && report.deleted == report.eligible)
    {
      if days < minDays || days > maxDays || batchSize < 1 { return InvalidConfiguration; }
      var rule := Rule(now - days * SECONDS_PER_DAY, now, false);
      var eligible := |Eligible(rows, rule.cutoff)|;
      assert Eligible(rows, rule.cutoff) == DeletableIds(rows, rule);
      if dryRun { return Report(eligible, 0, 0, 0); }
      var deleted, failed := DeleteInBatches(rule, batchSize, failAt);
      return Report(eligible, deleted, 0, failed);
    }

    method CleanupAuditLogs(days: int, minDays: int, maxDays: int, batchSize: int, dryRun: bool, confirm: bool,
                            holdsSupported: bool, now: int, failAt: Option<nat>)
      returns (report: Report)
      modifies this
      ensures report == InvalidConfiguration <==> days < minDays || days > maxDays || batchSize < 1
      ensures report == InvalidConfiguration || dryRun || !confirm || !holdsSupported ==> rows == old(rows)
      ensures var rule := Rule(now - days * 86400, now, true);
        report.Report? ==>
          && report.eligible == |Eligible(old(rows), rule.cutoff)|
          && OldestPrefixDeleted(old(rows), rows, rule, report.deleted)
          && (!holdsSupported ==> report.held == report.eligible)
          && (holdsSupported ==> report.held == |Eligible(old(rows), rule.cutoff) - DeletableIds(old(rows), rule)|)
          && (report.failedBatches == if holdsSupported && !dryRun && confirm
                                         && BatchFails(failAt, batchSize, |DeletableIds(old(rows), rule)|)
                                      then 1 else 0)
          && (holdsSupported && !dryRun && confirm && report.failedBatches == 0 ==>
                rows == OneShot(old(rows), rule) && report.deleted + report.held == report.eligible)
    {
      if days < minDays || days > maxDays || batchSize < 1 { return InvalidConfiguration; }
      var rule := Rule(now - days * SECONDS_PER_DAY, now, true);
      var eligible := |Eligible(rows, rule.cutoff)|;
      if !holdsSupported { return Report(eligible, 0, eligible, 0); }
      assert DeletableIds(rows, rule) <= Eligible(rows, rule.cutoff);
      SubsetSizes(DeletableIds(rows, rule), Eligible(rows, rule.cutoff));
      var held := eligible - |DeletableIds(rows, rule)|;
      if dryRun || !confirm { return Report(eligible, 0, held, 0); }
      var deleted, failed := DeleteInBatches(rule, batchSize, failAt);
      return Report(eligible, deleted, held, failed);
    }
  }

  lemma SubsetSizes(small: set<nat>, big: set<nat>)
    requires small <= big
    ensures |big - small| == |big| - |small|
  {
    assert small + (big - small) == big;
  }

  lemma NextBatch(batch: nat, batchSize: nat, total: nat, deleted: nat, size: nat)
    requires deleted == Min(batch * batchSize, total)
    requires 0 < size == Min(batchSize, total - deleted)
    ensures deleted == batch * batchSize < total
    ensures deleted + size == Min((batch + 1) * batchSize, total)
  {
  }

  lemma FailuresComeTooLate(failAt: Option<nat>, batch: nat, batchSize: nat, total: nat)
    requires batch * batchSize >= total
    requires failAt.Some? ==> failAt.value >= batch
    ensures !BatchFails(failAt, batchSize, total)
  {
    if failAt.Some? {
      assert failAt.value * batchSize == batch * batchSize + (failAt.value - batch) * batchSize;
    }
  }

  /** The one-shot deletion leaves exactly the rows that are fresh or, where holds are respected, under a hold that
      was not released and has no end, or a later one. */
  lemma OneShotLeavesFreshAndHeld(rows: Rows, rule: Rule)
    ensures forall id :: id in OneShot(rows, rule) <==>
              && id in rows
              && (rows[id].createdAt >= rule.cutoff
                  || (rule.respectHolds
                      && exists i :: 0 <= i < |rows[id].holds| && rows[id].holds[i].releasedAt.None?
                           && (rows[id].holds[i].heldUntil.None? || rows[id].holds[i].heldUntil.value > rule.now)))
  {
    forall id | id in rows
      ensures Held(rows[id], rule.now) <==>
                exists i :: 0 <= i < |rows[id].holds| && rows[id].holds[i].releasedAt.None?
                    && (rows[id].holds[i].heldUntil.None? || rows[id].holds[i].heldUntil.value > rule.now)
    {
      HeldMeans(rows[id], rule.now);
    }
  }

  lemma HeldMeans(r: LogRow, now: int)
    ensures Held(r, now) <==>
              exists i :: 0 <= i < |r.holds| && r.holds[i].releasedAt.None?
                  && (r.holds[i].heldUntil.None? || r.holds[i].heldUntil.value > now)
  {
    if i :| 0 <= i < |r.holds| && r.holds[i].releasedAt.None?
            && (r.holds[i].heldUntil.None? || r.holds[i].heldUntil.value > now) {
      assert r.holds[i] in r.holds && IsActive(r.holds[i], now);
    }
  }
}
