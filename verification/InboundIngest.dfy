/**
 Ingest of a parsed inbound email: database rows and quarantine files together, or neither. Inside the
 transaction the database rolls itself back when a step throws, and the action's own handler removes the
 files. The hand-over of the attachments to the scanner comes after the commit, outside that handler.
 */
module InboundIngest {
  import opened Options
  import opened Sequences
  import opened Sums

  datatype ScanStatus = Pending | Skipped

  datatype AttachmentRow = AttachmentRow(emailId: nat, path: nat, sizeBytes: nat, status: ScanStatus)

  datatype Part = Part(content: nat, sizeBytes: nat)

  datatype Parsed = Parsed(messageId: string, body: string, parts: seq<Part>)

  /** The tables the ingest transaction writes. */
  datatype Tables = Tables(
    emails: map<nat, string>,       // email id -> provider message id
    bodies: map<nat, string>,
    attachments: map<nat, AttachmentRow>,
    events: map<nat, nat>)          // received-event and processing-log rows per email

  datatype Limits = Limits(maxCount: int, maxBytes: int, maxTotalBytes: int)

  function TotalBytes(parts: seq<Part>): nat {
    if parts == [] then 0 else TotalBytes(parts[..|parts| - 1]) + parts[|parts| - 1].sizeBytes
  }

  predicate WithinLimits(parts: seq<Part>, l: Limits) {
    |parts| <= l.maxCount && TotalBytes(parts) <= l.maxTotalBytes && forall p | p in parts :: p.sizeBytes <= l.maxBytes
  }

  /** Fresh names the run draws: the new email's id, and per part an attachment id and a random path. */
  datatype Names = Names(emailId: nat, attachmentIds: seq<nat>, paths: seq<nat>)

  ghost predicate Distinct(s: seq<nat>) {
    forall i, j | 0 <= i < j < |s| :: s[i] != s[j]
  }

  ghost predicate Fresh(n: Names, t: Tables, disk: map<nat, nat>, count: nat) {
    && n.emailId !in t.emails && n.emailId !in t.bodies && n.emailId !in t.events
    && count <= |n.attachmentIds| && count <= |n.paths|
    && Distinct(n.attachmentIds) && Distinct(n.paths)
    && Drawn(n.attachmentIds, count) !! t.attachments.Keys && Drawn(n.paths, count) !! disk.Keys
  }

  function Drawn(names: seq<nat>, count: nat): set<nat>
    requires count <= |names|
  {
    set i | 0 <= i < count :: names[i]
  }

  /** `HandOverFailed` stands for the exception a caller sees although the email is stored. */
  datatype Result =
    | Stored(emailId: nat) | Duplicate(emailId: nat) | Unresolved | LimitsExceeded | StepFailed
    | HandOverFailed(emailId: nat)

  /** The rows the first `k` parts add, with the scan status they end up with. */
  function NewAttachments(n: Names, parts: seq<Part>, k: nat, status: ScanStatus): map<nat, AttachmentRow>
    requires k <= |parts| && k <= |n.attachmentIds| && k <= |n.paths|
  {
    if k == 0 then map[]
    else NewAttachments(n, parts, k - 1, status)
           [n.attachmentIds[k - 1] := AttachmentRow(n.emailId, n.paths[k - 1], parts[k - 1].sizeBytes, status)]
  }

  function NewFiles(n: Names, parts: seq<Part>, k: nat): map<nat, nat>
    requires k <= |parts| && k <= |n.paths|
  {
    if k == 0 then map[] else NewFiles(n, parts, k - 1)[n.paths[k - 1] := parts[k - 1].content]
  }

  lemma {:induction false} NewKeys(n: Names, parts: seq<Part>, k: nat, status: ScanStatus)
    requires k <= |parts| && k <= |n.attachmentIds| && k <= |n.paths|
    ensures NewAttachments(n, parts, k, status).Keys == Drawn(n.attachmentIds, k)
    ensures NewFiles(n, parts, k).Keys == Drawn(n.paths, k)
  {
    if k > 0 {
      NewKeys(n, parts, k - 1, status);
    }
  }

  lemma {:induction false} StoredRow(n: Names, parts: seq<Part>, k: nat, i: nat, status: ScanStatus)
    requires i < k <= |parts| && k <= |n.attachmentIds| && k <= |n.paths| && Distinct(n.attachmentIds)
    ensures n.attachmentIds[i] in NewAttachments(n, parts, k, status)
    ensures NewAttachments(n, parts, k, status)[n.attachmentIds[i]]
         == AttachmentRow(n.emailId, n.paths[i], parts[i].sizeBytes, status)
  {
    if i < k - 1 {
      StoredRow(n, parts, k - 1, i, status);
    }
  }

  lemma {:induction false} StoredFile(n: Names, parts: seq<Part>, k: nat, i: nat)
    requires i < k <= |parts| && k <= |n.attachmentIds| && k <= |n.paths| && Distinct(n.paths)
    ensures n.paths[i] in NewFiles(n, parts, k) && NewFiles(n, parts, k)[n.paths[i]] == parts[i].content
    decreases k
  {
    if i < k - 1 {
      StoredFile(n, parts, k - 1, i);
    }
  }

  lemma {:induction false} DrawnOnce(names: seq<nat>, k: nat)
    requires k <= |names| && Distinct(names)
    ensures |Drawn(names, k)| == k
    decreases k
  {
    if k == 0 {
      assert Drawn(names, 0) == {};
    } else {
      DrawnOnce(names, k - 1);
      assert Drawn(names, k) == Drawn(names, k - 1) + {names[k - 1]};
    }
  }

  lemma RowsNameFiles(n: Names, parts: seq<Part>, k: nat, status: ScanStatus)
    requires k <= |parts| && k <= |n.attachmentIds| && k <= |n.paths| && Distinct(n.attachmentIds) && Distinct(n.paths)
    ensures |NewAttachments(n, parts, k, status)| == |NewFiles(n, parts, k)| == k
    ensures forall id | id in NewAttachments(n, parts, k, status) ::
              var row := NewAttachments(n, parts, k, status)[id];
              row.path in NewFiles(n, parts, k) && row.emailId == n.emailId && row.status == status
  {
    NewKeys(n, parts, k, status);
    DrawnOnce(n.attachmentIds, k);
    DrawnOnce(n.paths, k);
    assert |NewAttachments(n, parts, k, status).Keys| == |NewFiles(n, parts, k).Keys| == k;
    forall id | id in NewAttachments(n, parts, k, status)
      ensures var row := NewAttachments(n, parts, k, status)[id];
        row.path in NewFiles(n, parts, k) && row.emailId == n.emailId && row.status == status
    {
      var i: nat :| i < k && n.attachmentIds[i] == id;
      StoredRow(n, parts, k, i, status);
      StoredFile(n, parts, k, i);
    }
  }

  /** The new files are exactly the paths of the new attachment rows, one file per row. */
  lemma FilesMatchRows(n: Names, parts: seq<Part>, k: nat, status: ScanStatus)
    requires k <= |parts| && k <= |n.attachmentIds| && k <= |n.paths| && Distinct(n.attachmentIds) && Distinct(n.paths)
    ensures |NewAttachments(n, parts, k, status)| == |NewFiles(n, parts, k)| == k
    ensures forall id | id in NewAttachments(n, parts, k, status) ::
              NewAttachments(n, parts, k, status)[id].path in NewFiles(n, parts, k)
    ensures forall path | path in NewFiles(n, parts, k) ::
              exists id :: id in NewAttachments(n, parts, k, status)
                  && NewAttachments(n, parts, k, status)[id].path == path
  {
    RowsNameFiles(n, parts, k, status);
    NewKeys(n, parts, k, status);
    var rows := NewAttachments(n, parts, k, status);
    forall path | path in NewFiles(n, parts, k) ensures exists id :: id in rows && rows[id].path == path {
      var i :| 0 <= i < k && n.paths[i] == path;
      StoredRow(n, parts, k, i, status);
      assert rows[n.attachmentIds[i]].path == path;
    }
  }

  /** Each part has its own file, with its own content; no other file was added or changed. */
  ghost predicate FilesStored(n: Names, parts: seq<Part>, disk: map<nat, nat>, disk': map<nat, nat>)
    requires |parts| <= |n.paths|
  {
    && (forall i | 0 <= i < |parts| :: n.paths[i] in disk' && disk'[n.paths[i]] == parts[i].content)
    && (forall p | p in disk :: p in disk' && disk'[p] == disk[p])
    && disk'.Keys == disk.Keys + Drawn(n.paths, |parts|)
  }

  /** Each part has its own row, which names its file and its size; no other row was added or changed. */
  ghost predicate RowsStored(n: Names, parts: seq<Part>, rows: map<nat, AttachmentRow>, rows': map<nat, AttachmentRow>)
    requires |parts| <= |n.attachmentIds| && |parts| <= |n.paths|
  {
    && (forall i | 0 <= i < |parts| ::
          && n.attachmentIds[i] in rows'
          && rows'[n.attachmentIds[i]].(status := Pending)
             == AttachmentRow(n.emailId, n.paths[i], parts[i].sizeBytes, Pending))
    && (forall id | id in rows :: id in rows' && rows'[id] == rows[id])
    && rows'.Keys == rows.Keys + Drawn(n.attachmentIds, |parts|)
  }

  lemma FilesAreStored(n: Names, parts: seq<Part>, disk: map<nat, nat>)
    requires |parts| <= |n.attachmentIds| && |parts| <= |n.paths| && Distinct(n.paths)
    requires Drawn(n.paths, |parts|) !! disk.Keys
    ensures FilesStored(n, parts, disk, disk + NewFiles(n, parts, |parts|))
  {
    NewKeys(n, parts, |parts|, Pending);
    forall i | 0 <= i < |parts|
      ensures n.paths[i] in NewFiles(n, parts, |parts|) && NewFiles(n, parts, |parts|)[n.paths[i]] == parts[i].content
    {
      StoredFile(n, parts, |parts|, i);
    }
  }

  lemma HandedOverRow(n: Names, parts: seq<Part>, handed: nat, scanner: bool, i: nat)
    requires i < |parts| && handed <= |parts| && |parts| <= |n.attachmentIds| && |parts| <= |n.paths|
    requires Distinct(n.attachmentIds)
    ensures n.attachmentIds[i] in HandedOver(n, parts, handed, scanner)
    ensures HandedOver(n, parts, handed, scanner)[n.attachmentIds[i]]
         == AttachmentRow(n.emailId, n.paths[i], parts[i].sizeBytes,
                          if !scanner && i < handed then Skipped else Pending)
  {
    StoredRow(n, parts, |parts|, i, Pending);
    NewKeys(n, parts, handed, Skipped);
    if i < handed {
      StoredRow(n, parts, handed, i, Skipped);
    } else {
      assert n.attachmentIds[i] !in NewAttachments(n, parts, handed, Skipped);
    }
  }

  lemma HandedOverKeys(n: Names, parts: seq<Part>, handed: nat, scanner: bool)
    requires handed <= |parts| && |parts| <= |n.attachmentIds| && |parts| <= |n.paths|
    ensures HandedOver(n, parts, handed, scanner).Keys == Drawn(n.attachmentIds, |parts|)
  {
    NewKeys(n, parts, |parts|, Pending);
    NewKeys(n, parts, handed, Skipped);
  }

  lemma RowsAreStored(n: Names, parts: seq<Part>, rows: map<nat, AttachmentRow>, handed: nat, scanner: bool)
    requires handed <= |parts| && |parts| <= |n.attachmentIds| && |parts| <= |n.paths| && Distinct(n.attachmentIds)
    requires Drawn(n.attachmentIds, |parts|) !! rows.Keys
    ensures RowsStored(n, parts, rows, rows + HandedOver(n, parts, handed, scanner))
  {
    HandedOverKeys(n, parts, handed, scanner);
    forall i | 0 <= i < |parts|
      ensures n.attachmentIds[i] in HandedOver(n, parts, handed, scanner)
           && HandedOver(n, parts, handed, scanner)[n.attachmentIds[i]].(status := Pending)
              == AttachmentRow(n.emailId, n.paths[i], parts[i].sizeBytes, Pending)
    {
      HandedOverRow(n, parts, handed, scanner, i);
    }
  }

  function Sizes(rows: map<nat, AttachmentRow>): map<nat, nat> {
    map id | id in rows :: rows[id].sizeBytes
  }

  lemma SizesOfUpdate(rows: map<nat, AttachmentRow>, id: nat, row: AttachmentRow)
    requires id !in rows
    ensures Sum(Sizes(rows[id := row])) == Sum(Sizes(rows)) + row.sizeBytes
  {
    SumOfUpdate(Sizes(rows), id, row.sizeBytes);
    assert Sizes(rows[id := row]) == Sizes(rows)[id := row.sizeBytes];
  }

  lemma {:induction false} SizesAddUp(n: Names, parts: seq<Part>, k: nat, status: ScanStatus)
    requires k <= |parts| && k <= |n.attachmentIds| && k <= |n.paths| && Distinct(n.attachmentIds)
    ensures Sum(Sizes(NewAttachments(n, parts, k, status))) == TotalBytes(parts[..k])
    decreases k
  {
    if k == 0 {
      assert Sizes(map[]) == map[];
    } else {
      var before, id := NewAttachments(n, parts, k - 1, status), n.attachmentIds[k - 1];
      SizesAddUp(n, parts, k - 1, status);
      assert id !in before by { NewKeys(n, parts, k - 1, status); }
      SizesOfUpdate(before, id, AttachmentRow(n.emailId, n.paths[k - 1], parts[k - 1].sizeBytes, status));
      assert parts[..k][..k - 1] == parts[..k - 1];
    }
  }

  lemma RowsHaveSizes(n: Names, parts: seq<Part>, status: ScanStatus, most: int)
    requires |parts| <= |n.attachmentIds| && |parts| <= |n.paths| && Distinct(n.attachmentIds)
    ensures (forall id | id in NewAttachments(n, parts, |parts|, status) ::
               NewAttachments(n, parts, |parts|, status)[id].sizeBytes <= most)
            <==> forall p | p in parts :: p.sizeBytes <= most
  {
    var rows := NewAttachments(n, parts, |parts|, status);
    NewKeys(n, parts, |parts|, status);
    forall i | 0 <= i < |parts|
      ensures n.attachmentIds[i] in rows && rows[n.attachmentIds[i]].sizeBytes == parts[i].sizeBytes
    {
      StoredRow(n, parts, |parts|, i, status);
    }
    if p :| p in parts && p.sizeBytes > most {
      var i :| 0 <= i < |parts| && parts[i] == p;
      assert rows[n.attachmentIds[i]].sizeBytes > most;
    } else {
      forall id | id in rows ensures rows[id].sizeBytes <= most {
        var i: nat :| i < |parts| && n.attachmentIds[i] == id;
        assert parts[i] in parts;
      }
    }
  }

  /** An email is refused for its attachments exactly if the rows it would add were too many, or one of them too
      large, or all of them together. */
  lemma LimitsBoundWhatIsStored(n: Names, parts: seq<Part>, l: Limits)
    requires |parts| <= |n.attachmentIds| && |parts| <= |n.paths| && Distinct(n.attachmentIds) && Distinct(n.paths)
    ensures var rows := NewAttachments(n, parts, |parts|, Pending);
      WithinLimits(parts, l) <==>
        && |rows| <= l.maxCount && Sum(Sizes(rows)) <= l.maxTotalBytes
        && forall id | id in rows :: rows[id].sizeBytes <= l.maxBytes
  {
    RowsNameFiles(n, parts, |parts|, Pending);
    SizesAddUp(n, parts, |parts|, Pending);
    assert parts[..|parts|] == parts;
    RowsHaveSizes(n, parts, Pending, l.maxBytes);
  }

  class Mailroom {
    var tables: Tables
    var disk: map<nat, nat>       // quarantine path -> content
    var scanQueue: seq<nat>       // attachment ids handed to the scan job

    constructor (t: Tables)
      ensures tables == t && disk == map[] && scanQueue == []
    {
      tables, disk, scanQueue := t, map[], [];
    }

    /** Compensation: delete the files written so far. */
    method DeleteFiles(paths: seq<nat>)
      modifies this`disk
      ensures disk == old(disk) - SetOf(paths)
    {
      var i := 0;
      while i < |paths|
        invariant 0 <= i <= |paths|
        invariant disk == old(disk) - SetOf(paths[..i])
      {
        disk := disk - {paths[i]};
        assert SetOf(paths[..i + 1]) == SetOf(paths[..i]) + {paths[i]};
        i := i + 1;
      }
      assert paths[..i] == paths;
    }

    /** Stores the parts one by one. `failAt` counts steps; a file write that throws leaves no file. */
    method StoreParts(parsed: Parsed, n: Names, failAt: Option<nat>)
      returns (stored: nat, files: seq<nat>, failed: bool)
      requires |parsed.parts| <= |n.attachmentIds| && |parsed.parts| <= |n.paths|
      modifies this`tables, this`disk
      ensures stored <= |parsed.parts| && files <= n.paths && stored <= |files| <= stored + 1
          && |files| <= |parsed.parts|
      ensures failed <==> failAt.Some? && failAt.value < 2 * |parsed.parts|
      ensures disk == old(disk) + NewFiles(n, parsed.parts, |files|)
      ensures !failed ==> stored == |files| == |parsed.parts|
      ensures !failed && Distinct(n.paths) && Drawn(n.paths, |parsed.parts|) !! old(disk).Keys ==>
          FilesStored(n, parsed.parts, old(disk), disk)
      ensures tables == old(tables).(attachments :=
          old(tables).attachments + NewAttachments(n, parsed.parts, stored, Pending))
    {
      stored, files, failed := 0, [], false;
      while stored < |parsed.parts|
        invariant 0 <= stored <= |parsed.parts| && files == n.paths[..stored] && !failed
        invariant failAt.Some? ==> failAt.value >= 2 * stored
        invariant disk == old(disk) + NewFiles(n, parsed.parts, stored)
        invariant tables == old(tables).(attachments :=
            old(tables).attachments + NewAttachments(n, parsed.parts, stored, Pending))
      {
        var part, path := parsed.parts[stored], n.paths[stored];
        if failAt.Some? && failAt.value == 2 * stored { failed := true; return; }
        AddLast(old(disk), NewFiles(n, parsed.parts, stored), path, part.content);
        disk := disk[path := part.content];
        files := files + [path];
        assert files == n.paths[..stored + 1];
        if failAt.Some? && failAt.value == 2 * stored + 1 { failed := true; return; }
        var row := AttachmentRow(n.emailId, path, part.sizeBytes, Pending);
        AddLast(old(tables).attachments, NewAttachments(n, parsed.parts, stored, Pending), n.attachmentIds[stored],
            row);
        tables := tables.(attachments := tables.attachments[n.attachmentIds[stored] := row]);
        stored := stored + 1;
      }
      if Distinct(n.paths) && Drawn(n.paths, |parsed.parts|) !! old(disk).Keys {
        FilesAreStored(n, parsed.parts, old(disk));
      }
    }

    /** Marks the first `count` new attachments as skipped when no scanner is configured. */
    method MarkSkipped(parsed: Parsed, n: Names, count: nat, ghost before: map<nat, AttachmentRow>)
      requires count <= |parsed.parts| <= |n.attachmentIds| && |parsed.parts| <= |n.paths| && Distinct(n.attachmentIds)
      requires tables.attachments == before + NewAttachments(n, parsed.parts, |parsed.parts|, Pending)
      modifies this`tables
      ensures tables == old(tables).(attachments := before + HandedOver(n, parsed.parts, count, false))
    {
      var i := 0;
      assert forall m: map<nat, AttachmentRow> :: m + map[] == m;
      while i < count
        invariant 0 <= i <= count
        invariant tables == old(tables).(attachments := tables.attachments)
        invariant tables.attachments == (before + NewAttachments(n, parsed.parts, |parsed.parts|, Pending))
                                      + NewAttachments(n, parsed.parts, i, Skipped)
      {
        SkipOne(n, parsed.parts, i, before);
        var id := n.attachmentIds[i];
        tables := tables.(attachments := tables.attachments[id := tables.attachments[id].(status := Skipped)]);
        i := i + 1;
      }
      AddAssociates(before, NewAttachments(n, parsed.parts, |parsed.parts|, Pending),
                    NewAttachments(n, parsed.parts, count, Skipped));
    }

    /** The transaction with its handler: everything stored, attachments still pending, or nothing. */
    method Store(parsed: Parsed, resolved: bool, limits: Limits, n: Names, failAt: Option<nat>) returns (r: Result)
      requires Fresh(n, tables, disk, |parsed.parts|)
      modifies this`tables, this`disk
      ensures r.Duplicate? <==> Known(old(tables), parsed.messageId)
      ensures r.Duplicate? ==> r.emailId in tables.emails && tables.emails[r.emailId] == parsed.messageId
      ensures (r.Stored? || r.StepFailed?) <==>
                !Known(old(tables), parsed.messageId) && resolved && WithinLimits(parsed.parts, limits)
      ensures r.StepFailed? ==> failAt.Some? && failAt.value < StepCount(parsed)
      ensures r.Stored? ==> failAt.None? || failAt.value >= StepCount(parsed)
      ensures !r.HandOverFailed? && (!r.Stored? ==> tables == old(tables) && disk == old(disk))
      ensures r.Stored? ==>
        && r.emailId == n.emailId
        && tables == WithEmail(old(tables), parsed, n, NewAttachments(n, parsed.parts, |parsed.parts|, Pending))
        && disk == old(disk) + NewFiles(n, parsed.parts, |parsed.parts|)
    {
      var savepoint := tables;
      if Known(tables, parsed.messageId) {
        var id :| id in tables.emails && tables.emails[id] == parsed.messageId;
        return Duplicate(id);
      }
      if !resolved { return Unresolved; }
      if !WithinLimits(parsed.parts, limits) { return LimitsExceeded; }
      if failAt.Some? && failAt.value == 0 { return StepFailed; }
      tables := tables.(emails := tables.emails[n.emailId := parsed.messageId]);
      if failAt.Some? && failAt.value == 1 { tables := savepoint; return StepFailed; }
      tables := tables.(bodies := tables.bodies[n.emailId := parsed.body]);
      var inner := if failAt.Some? then Some(failAt.value - 2) else None;
      ghost var before := disk;
      var stored, files, failed := StoreParts(parsed, n, inner);
      if failed || (failAt.Some? && failAt.value < StepCount(parsed)) {
        tables := savepoint;
        DeleteFiles(files);
        FilesRemoved(n, parsed.parts, files, before);
        return StepFailed;
      }
      tables := tables.(events := tables.events[n.emailId := 2]);
      return Stored(n.emailId);
    }

    /** After the commit the first `handed` attachments are skipped or queued for the scanner, in order. */
    method HandOver(parsed: Parsed, n: Names, handed: nat, scannerEnabled: bool, ghost before: Tables)
      requires handed <= |parsed.parts| <= |n.attachmentIds| && |parsed.parts| <= |n.paths| && Distinct(n.attachmentIds)
      requires tables == WithEmail(before, parsed, n, NewAttachments(n, parsed.parts, |parsed.parts|, Pending))
      modifies this`tables, this`scanQueue
      ensures tables == WithEmail(before, parsed, n, HandedOver(n, parsed.parts, handed, scannerEnabled))
      ensures scanQueue == old(scanQueue) + (if scannerEnabled then n.attachmentIds[..handed] else [])
    {
      if scannerEnabled {
        scanQueue := scanQueue + n.attachmentIds[..handed];
        assert NewAttachments(n, parsed.parts, |parsed.parts|, Pending) + map[]
            == NewAttachments(n, parsed.parts, |parsed.parts|, Pending);
      } else {
        MarkSkipped(parsed, n, handed, before.attachments);
      }
    }

    /** The whole ingest. `failAt` numbers the step that throws, if any: those of the transaction first, then
        one per attachment handed over after the commit. */
    method Execute(parsed: Parsed, resolved: bool, limits: Limits, scannerEnabled: bool, n: Names, failAt: Option<nat>)
      returns (r: Result)
      requires Fresh(n, tables, disk, |parsed.parts|)
      modifies this
      // which outcome
      ensures r.Duplicate? <==> Known(old(tables), parsed.messageId)
      ensures (r.Stored? || r.StepFailed? || r.HandOverFailed?) <==>
                !Known(old(tables), parsed.messageId) && resolved && WithinLimits(parsed.parts, limits)
      ensures r.StepFailed? ==> failAt.Some? && failAt.value < StepCount(parsed)
      ensures r.HandOverFailed? ==>
          failAt.Some? && StepCount(parsed) <= failAt.value < StepCount(parsed) + |parsed.parts|
      ensures r.Stored? ==> failAt.None? || failAt.value >= StepCount(parsed) + |parsed.parts|
      // all or nothing, exactly up to the commit
      ensures tables == old(tables) <==> !r.Stored? && !r.HandOverFailed?
      ensures !r.Stored? && !r.HandOverFailed? ==> disk == old(disk) && scanQueue == old(scanQueue)
      ensures r.Duplicate? ==> r.emailId in tables.emails && tables.emails[r.emailId] == parsed.messageId
      ensures r.Stored? || r.HandOverFailed? ==>
        var handed := if r.Stored? then |parsed.parts| else failAt.value - StepCount(parsed);
        && r.emailId == n.emailId && Known(tables, parsed.messageId)
        && tables == WithEmail(old(tables), parsed, n, HandedOver(n, parsed.parts, handed, scannerEnabled))
        && disk == old(disk) + NewFiles(n, parsed.parts, |parsed.parts|)
        && scanQueue == old(scanQueue) + (if scannerEnabled then n.attachmentIds[..handed] else [])
    {
      ghost var before := tables;
      r := Store(parsed, resolved, limits, n, failAt);
      if !r.Stored? { return; }
      var handed := |parsed.parts|;
      if failAt.Some? && failAt.value < StepCount(parsed) + |parsed.parts| {
        handed := failAt.value - StepCount(parsed);
        r := HandOverFailed(n.emailId);
      }
      HandOver(parsed, n, handed, scannerEnabled, before);
      EmailIsNew(before, parsed, n, HandedOver(n, parsed.parts, handed, scannerEnabled));
    }
  }

  /** The new attachment rows once the first `count` of them are handed over: skipped at once without a
      scanner; with one they stay pending for the scan job. */
  function HandedOver(n: Names, parts: seq<Part>, count: nat, scannerEnabled: bool): map<nat, AttachmentRow>
    requires count <= |parts| && |parts| <= |n.attachmentIds| && |parts| <= |n.paths|
  {
    NewAttachments(n, parts, |parts|, Pending)
    + if scannerEnabled then map[] else NewAttachments(n, parts, count, Skipped)
  }

  /** Exactly the first `count` attachments are handed over; without a scanner the rest stay pending, and as a
      later ingest of the same message id answers `Duplicate` and changes nothing, nothing hands them over. */
  lemma RestStaysPending(n: Names, parts: seq<Part>, count: nat, scannerEnabled: bool, i: nat)
    requires i < |parts| && count <= |parts| && |parts| <= |n.attachmentIds| && |parts| <= |n.paths|
    requires Distinct(n.attachmentIds) && Distinct(n.paths)
    ensures var rows := HandedOver(n, parts, count, scannerEnabled);
      && n.attachmentIds[i] in rows && |rows| == |parts|
      && rows[n.attachmentIds[i]].status == if !scannerEnabled && i < count then Skipped else Pending
  {
    HandedOverRow(n, parts, count, scannerEnabled, i);
    HandedOverKeys(n, parts, count, scannerEnabled);
    NewKeys(n, parts, |parts|, Pending);
    RowsNameFiles(n, parts, |parts|, Pending);
    SameKeysSameSize(HandedOver(n, parts, count, scannerEnabled), NewAttachments(n, parts, |parts|, Pending));
  }

  lemma SameKeysSameSize<V>(a: map<nat, V>, b: map<nat, V>)
    requires a.Keys == b.Keys
    ensures |a| == |b|
  {
    assert |a| == |a.Keys| && |b| == |b.Keys|;
  }

  lemma AddAssociates<V>(a: map<nat, V>, b: map<nat, V>, d: map<nat, V>)
    ensures (a + b) + d == a + (b + d)
  {
  }

  /** Steps before the commit that may throw: the email and body rows, a file and a row per part, the
      event row, the processing-log row and the metrics record. */
  function StepCount(parsed: Parsed): nat {
    2 + 2 * |parsed.parts| + 3
  }

  lemma AddLast<V>(a: map<nat, V>, b: map<nat, V>, k: nat, v: V)
    ensures (a + b)[k := v] == a + b[k := v]
  {
  }

  lemma SkipOne(n: Names, parts: seq<Part>, i: nat, before: map<nat, AttachmentRow>)
    requires i < |parts| <= |n.attachmentIds| && |parts| <= |n.paths| && Distinct(n.attachmentIds)
    ensures var mixed := (before + NewAttachments(n, parts, |parts|, Pending)) + NewAttachments(n, parts, i, Skipped);
      && n.attachmentIds[i] in mixed
      && mixed[n.attachmentIds[i] := mixed[n.attachmentIds[i]].(status := Skipped)]
         == (before + NewAttachments(n, parts, |parts|, Pending)) + NewAttachments(n, parts, i + 1, Skipped)
  {
    NewKeys(n, parts, i, Skipped);
    StoredRow(n, parts, |parts|, i, Pending);
    var row := AttachmentRow(n.emailId, n.paths[i], parts[i].sizeBytes, Skipped);
    AddLast(before + NewAttachments(n, parts, |parts|, Pending), NewAttachments(n, parts, i, Skipped),
        n.attachmentIds[i], row);
  }

  /** The tables with the email, its body, its two log rows and these attachment rows. */
  function WithEmail(t: Tables, parsed: Parsed, n: Names, rows: map<nat, AttachmentRow>): Tables {
    Tables(t.emails[n.emailId := parsed.messageId], t.bodies[n.emailId := parsed.body], t.attachments + rows,
           t.events[n.emailId := 2])
  }

  lemma EmailIsNew(t: Tables, parsed: Parsed, n: Names, rows: map<nat, AttachmentRow>)
    requires n.emailId !in t.emails
    ensures WithEmail(t, parsed, n, rows) != t && Known(WithEmail(t, parsed, n, rows), parsed.messageId)
  {
    assert n.emailId in WithEmail(t, parsed, n, rows).emails;
  }

  /** A successful ingest adds the email under its message id, its body, and two log rows, and nothing else to these
      tables. */
  lemma EmailIsStored(t: Tables, parsed: Parsed, n: Names, rows: map<nat, AttachmentRow>)
    requires n.emailId !in t.emails && n.emailId !in t.bodies && n.emailId !in t.events
    ensures var t' := WithEmail(t, parsed, n, rows);
      && t'.emails[n.emailId] == parsed.messageId && t'.bodies[n.emailId] == parsed.body && t'.events[n.emailId] == 2
      && t'.emails - {n.emailId} == t.emails && t'.bodies - {n.emailId} == t.bodies
      && t'.events - {n.emailId} == t.events
  {
  }

  /** What a successful ingest leaves of the parts, read off tables and disk alone: each part has a row of the
      new email with its size, under which its own content lies on disk; nothing else was added or changed. */
  lemma PartsAreStored(t: Tables, disk: map<nat, nat>, parsed: Parsed, n: Names, handed: nat, scanner: bool)
    requires Fresh(n, t, disk, |parsed.parts|) && handed <= |parsed.parts|
    ensures FilesStored(n, parsed.parts, disk, disk + NewFiles(n, parsed.parts, |parsed.parts|))
    ensures RowsStored(n, parsed.parts, t.attachments,
                       WithEmail(t, parsed, n, HandedOver(n, parsed.parts, handed, scanner)).attachments)
  {
    FilesAreStored(n, parsed.parts, disk);
    RowsAreStored(n, parsed.parts, t.attachments, handed, scanner);
  }

  predicate Known(t: Tables, messageId: string) {
    exists id :: id in t.emails && t.emails[id] == messageId
  }

  /** Removing the files a failed run wrote restores the disk it started from. */
  lemma FilesRemoved(n: Names, parts: seq<Part>, files: seq<nat>, before: map<nat, nat>)
    requires |files| <= |parts| && |parts| <= |n.paths| && |parts| <= |n.attachmentIds| && files <= n.paths
    requires Drawn(n.paths, |parts|) !! before.Keys
    ensures (before + NewFiles(n, parts, |files|)) - SetOf(files) == before
  {
    NewKeys(n, parts, |files|, Pending);
    assert NewFiles(n, parts, |files|).Keys == SetOf(files);
  }
}
