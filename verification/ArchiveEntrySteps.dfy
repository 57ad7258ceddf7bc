/** The transactions that create and delete rows keep the invariant, and so do
    the steps the rest of the system takes. */
module ArchiveEntrySteps {
  import opened Counting
  import opened ArchiveDb
  import opened ArchiveTransactions
  import opened ArchiveInvariant
  import opened ArchiveImportSteps

  // ---------------------------------------------------------------- Ensure

  lemma EmptyImport(d: Db, id: ImportId)
    requires Inv(d) && id !in d.imports
    ensures forall e | e in d.entries :: d.entries[e].archive != id
    ensures forall b | b in d.batches :: d.batches[b].archive != id
  {
    forall e | e in d.entries ensures d.entries[e].archive != id {
      assert EntryOk(d.entries[e], d.imports);
    }
    forall b | b in d.batches ensures d.batches[b].archive != id {
      assert BatchOk(d.batches[b], d.imports);
    }
  }

  ghost predicate FreshImport(d: Db, id: ImportId, row: Import) {
    && id !in d.imports && ImportOk(row) && row.status == Queued
    && row.createdTasks == row.scanned == row.total == row.eligible == row.skipped == 0
    && forall i | i in d.imports :: d.imports[i].upload != row.upload
  }

  lemma FreshKeepsImports(d: Db, id: ImportId, row: Import)
    requires Inv(d) && FreshImport(d, id, row)
    ensures ImportsOk(d.imports[id := row])
  {
    CountWrite(d.imports, id, row, IsRunning());
  }

  lemma FreshKeepsEntries(d: Db, id: ImportId, row: Import)
    requires Inv(d) && FreshImport(d, id, row)
    ensures EntriesOk(d.imports[id := row], d.entries)
  {
    forall e | e in d.entries ensures EntryOk(d.entries[e], d.imports[id := row]) {
      assert EntryOk(d.entries[e], d.imports);
    }
  }

  lemma FreshKeepsCounters(d: Db, id: ImportId, row: Import)
    requires Inv(d) && FreshImport(d, id, row)
    ensures CountersOk(d.imports[id := row], d.entries)
  {
    EmptyImport(d, id);
    CountNone(d.entries, CreatedIn(id));
    CountNone(d.entries, InImport(id));
    CountNone(d.entries, CandidateIn(id));
    FreshKeepsOtherCounters(d.imports, d.entries, id, row);
  }

  lemma FreshKeepsOtherCounters(imports: Imports, entries: Entries, id: ImportId, row: Import)
    requires CountersOk(imports, entries) && CounterOk(id, row, entries)
    ensures CountersOk(imports[id := row], entries)
  {
    var rows := imports[id := row];
    forall i | i in rows && rows[i].status != Erased ensures CounterOk(i, rows[i], entries) {
      if i != id { assert CounterOk(i, imports[i], entries); }
    }
  }

  lemma FreshKeepsBatches(d: Db, id: ImportId, row: Import)
    requires Inv(d) && FreshImport(d, id, row)
    ensures BatchesOk(d.imports[id := row], d.batches)
  {
    EmptyImport(d, id);
    CountNone(d.batches, ProcessingIn(id));
    forall b | b in d.batches ensures BatchOk(d.batches[b], d.imports[id := row]) {
      assert BatchOk(d.batches[b], d.imports);
    }
  }

  lemma FreshKeepsTickets(d: Db, id: ImportId, row: Import)
    requires Inv(d) && FreshImport(d, id, row)
    ensures TicketsOk(d.imports[id := row], d.leases, d.works)
    ensures FactsOk(d.imports[id := row], d.derived)
  {
    var after := d.imports[id := row];
    forall l | l in d.leases ensures LeaseOk(l, after) { assert LeaseOk(l, d.imports); }
    forall w | w in d.works ensures WorkOk(w, after) { assert WorkOk(w, d.imports); }
    forall u | u in d.derived ensures FactOk(d.derived[u], after) {
      assert FactOk(d.derived[u], d.imports);
      var j :| j in d.imports && d.imports[j].upload == d.derived[u].origin.parent &&
               Settled(d.imports[j].status);
      assert after[j] == d.imports[j];
    }
  }

  lemma FreshKeepsBlobs(d: Db, id: ImportId, row: Import)
    requires Inv(d) && FreshImport(d, id, row)
    requires IsAvailable(d.blobs, row.sourceBlob) && !row.sourceReleased
    ensures var b := row.sourceBlob;
      BlobsOk(d.blobs[b := d.blobs[b].(refs := d.blobs[b].refs + 1)], d.imports[id := row],
              d.entries, d.holders)
  {
    SourceRetainKeepsBlobs(d.blobs, d.imports, d.entries, d.holders, id, row);
  }

  /** Nothing in the invariant looks at upload rows, the resource slot or the clock. */
  lemma UploadsFree(d: Db, uploads: map<UploadId, Upload>)
    requires Inv(d)
    ensures Inv(d.(uploads := uploads))
  {
    Assemble(d.(uploads := uploads));
  }

  lemma EnsureIsFresh(d: Db, id: ImportId, input: EnsureInput)
    requires EnsureError(d, id, input).None? && FindImport(d, input.upload).None?
    ensures var b := d.uploads[input.upload].blob.value;
      && IsAvailable(d.blobs, b)
      && FreshImport(d, id, NewImport(input, b, d.blobs[b].key, d.now))
  {}

  lemma EnsureKeeps(d: Db, id: ImportId, input: EnsureInput)
    requires Inv(d)
    ensures Inv(Ensure(d, id, input))
  {
    hide Inv;
    if EnsureError(d, id, input).None? {
      var u := d.uploads[input.upload];
      var found := FindImport(d, input.upload);
      if found.Some? {
        UploadsFree(d, d.uploads[input.upload := u.(archiveImport := found)]);
      } else {
        var b := u.blob.value;
        EnsureIsFresh(d, id, input);
        FreshKeeps(d, id, NewImport(input, b, d.blobs[b].key, d.now),
                   d.uploads[input.upload := u.(archiveImport := Some(id))]);
      }
    }
  }

  lemma FreshKeeps(d: Db, id: ImportId, row: Import, uploads: map<UploadId, Upload>)
    requires Inv(d) && FreshImport(d, id, row)
    requires IsAvailable(d.blobs, row.sourceBlob) && !row.sourceReleased
    ensures var b := row.sourceBlob;
      Inv(d.(blobs := d.blobs[b := d.blobs[b].(refs := d.blobs[b].refs + 1)],
             imports := d.imports[id := row], uploads := uploads))
  {
    var b := row.sourceBlob;
    FreshKeepsBlobs(d, id, row);
    FreshKeepsImports(d, id, row);
    FreshKeepsEntries(d, id, row);
    FreshKeepsCounters(d, id, row);
    FreshKeepsBatches(d, id, row);
    FreshKeepsTickets(d, id, row);
    Assemble(d.(blobs := d.blobs[b := d.blobs[b].(refs := d.blobs[b].refs + 1)],
                imports := d.imports[id := row], uploads := uploads));
  }

  // ---------------------------------------------------------------- deleting entries

  lemma DeletedKeepsItems(
    entries: Entries, batches: map<BatchId, Batch>, items: map<ItemKey, Item>,
    unlinked: set<EntryId>, gone: set<EntryId>, over: set<BatchId>, lost: set<ItemKey>)
    requires ItemsOk(entries, batches, items, unlinked)
    requires forall k | k in items && (k.0 in over || k.1 in gone) :: k in lost
    ensures ItemsOk(entries - gone, batches - over, items - lost, unlinked)
  {
    forall k | k in items - lost
      ensures ItemLinked(k, items[k], entries - gone, batches - over, unlinked)
    {
      assert ItemLinked(k, items[k], entries, batches, unlinked);
    }
  }

  lemma DeletedKeepsEntries(imports: Imports, entries: Entries, gone: set<EntryId>)
    requires EntriesOk(imports, entries)
    ensures EntriesOk(imports, entries - gone)
  {}

  /** The counters of other imports do not see the deleted entries. */
  lemma DeletedKeepsCounter(entries: Entries, gone: set<EntryId>, a: ImportId, j: ImportId, row: Import)
    requires CounterOk(j, row, entries) && j != a
    requires forall e | e in gone && e in entries :: entries[e].archive == a
    ensures CounterOk(j, row, entries - gone)
  {
    DeletedElsewhere(entries, gone, CreatedIn(j));
    DeletedElsewhere(entries, gone, InImport(j));
    DeletedElsewhere(entries, gone, CandidateIn(j));
  }

  lemma DeletedElsewhere(entries: Entries, gone: set<EntryId>, p: Entry -> bool)
    requires forall e | e in gone && e in entries :: !p(entries[e])
    ensures Count(entries - gone, p) == Count(entries, p)
  {
    CountSplit(entries, gone, p);
    CountNone(Only(entries, gone), p);
  }

  lemma NothingLeft(d: Db, a: ImportId)
    ensures Count(d.entries - EntriesOf(d, a), CreatedIn(a)) == 0
    ensures Count(d.entries - EntriesOf(d, a), InImport(a)) == 0
    ensures Count(d.entries - EntriesOf(d, a), CandidateIn(a)) == 0
  {
    var kept := d.entries - EntriesOf(d, a);
    CountNone(kept, CreatedIn(a));
    CountNone(kept, InImport(a));
    CountNone(kept, CandidateIn(a));
  }

  lemma DeletedKeepsCounters(d: Db, a: ImportId, row: Import)
    requires CountersOk(d.imports, d.entries) && a in d.imports
    requires row.status == Erased || CounterOk(a, row, d.entries - EntriesOf(d, a))
    ensures CountersOk(d.imports[a := row], d.entries - EntriesOf(d, a))
  {
    var rows, kept := d.imports[a := row], d.entries - EntriesOf(d, a);
    forall j | j in rows && rows[j].status != Erased ensures CounterOk(j, rows[j], kept) {
      if j != a {
        assert CounterOk(j, d.imports[j], d.entries);
        DeletedKeepsCounter(d.entries, EntriesOf(d, a), a, j, d.imports[j]);
      }
    }
  }

  // ---------------------------------------------------------------- Reset

  ghost function ResetRow(i: Import): Import {
    i.(scanned := 0, total := 0, eligible := 0, skipped := 0)
  }

  lemma ResetKeepsBlobs(d: Db, a: ImportId)
    requires Inv(d) && a in d.imports
    ensures BlobsOk(ReleaseEntries(d.blobs, Only(d.entries, EntriesOf(d, a))),
                    d.imports[a := ResetRow(d.imports[a])], d.entries - EntriesOf(d, a), d.holders)
  {
    EntriesReleaseKeepsBlobs(d.blobs, d.imports, d.entries, d.holders, EntriesOf(d, a));
    QuietWriteKeepsBlobs(
      ReleaseEntries(d.blobs, Only(d.entries, EntriesOf(d, a))), d.imports,
      d.entries - EntriesOf(d, a), d.holders, a, ResetRow(d.imports[a]));
  }

  lemma QuietWriteKeepsBlobs(
    blobs: Blobs, imports: Imports, entries: Entries, holders: Holders, i: ImportId, row: Import)
    requires BlobsOk(blobs, imports, entries, holders)
    requires i in imports && SameSourceRef(row, imports[i])
    ensures BlobsOk(blobs, imports[i := row], entries, holders)
  {
    ImportWriteKeepsBlobs(blobs, imports, entries, holders, i, row);
  }

  lemma ResetKeepsCounters(d: Db, a: ImportId)
    requires Inv(d) && a in d.imports && d.imports[a].status == Running
    ensures CountersOk(d.imports[a := ResetRow(d.imports[a])], d.entries - EntriesOf(d, a))
  {
    NothingLeft(d, a);
    NoneCreatedYet(d, a);
    DeletedKeepsCounters(d, a, ResetRow(d.imports[a]));
  }

  /** While an import is being processed, none of its entries has a task yet. */
  lemma NoneCreatedYet(d: Db, a: ImportId)
    requires Inv(d) && a in d.imports && d.imports[a].status == Running
    ensures d.imports[a].createdTasks == 0
    ensures forall e | e in d.entries && d.entries[e].archive == a :: d.entries[e].status != Created
  {
    forall e | e in d.entries && d.entries[e].archive == a
      ensures d.entries[e].status != Created
    {
      assert EntryOk(d.entries[e], d.imports);
    }
    CountNone(d.entries, CreatedIn(a));
    assert CounterOk(a, d.imports[a], d.entries);
  }

  ghost function ResetItems(d: Db, a: ImportId): map<ItemKey, Item> {
    d.items - (set k | k in d.items && k.1 in EntriesOf(d, a))
  }

  lemma ResetKeepsItems(d: Db, a: ImportId)
    requires Inv(d)
    ensures ItemsOk(d.entries - EntriesOf(d, a), d.batches, ResetItems(d, a), d.unlinked)
  {
    hide ItemsOk, EntriesOf;
    DeletedKeepsItems(d.entries, d.batches, d.items, d.unlinked, EntriesOf(d, a), {},
                      set k | k in d.items && k.1 in EntriesOf(d, a));
    assert d.batches - {} == d.batches;
  }

  lemma ResetKeepsEntries(d: Db, a: ImportId)
    requires Inv(d) && a in d.imports
    ensures EntriesOk(d.imports[a := ResetRow(d.imports[a])], d.entries - EntriesOf(d, a))
  {
    ImportWriteKeepsEntries(d.imports, d.entries, a, ResetRow(d.imports[a]));
    DeletedKeepsEntries(d.imports[a := ResetRow(d.imports[a])], d.entries, EntriesOf(d, a));
  }

  lemma ResetKeepsImports(d: Db, a: ImportId)
    requires Inv(d) && a in d.imports
    ensures ImportsOk(d.imports[a := ResetRow(d.imports[a])])
  {
    ImportWriteKeepsImports(d.imports, a, ResetRow(d.imports[a]));
  }

  lemma ResetKeepsBatches(d: Db, a: ImportId)
    requires Inv(d) && a in d.imports && d.imports[a].status == Running
    ensures BatchesOk(d.imports[a := ResetRow(d.imports[a])], d.batches)
  {
    ImportWriteKeepsBatches(d.imports, d.batches, a, ResetRow(d.imports[a]));
  }

  lemma ResetKeepsTickets(d: Db, a: ImportId)
    requires Inv(d) && a in d.imports
    ensures TicketsOk(d.imports[a := ResetRow(d.imports[a])], d.leases, d.works)
    ensures FactsOk(d.imports[a := ResetRow(d.imports[a])], d.derived)
  {
    ImportWriteKeepsTickets(d.imports, d.leases, d.works, d.derived, a, ResetRow(d.imports[a]));
  }

  lemma NamesOf(d: Db)
    requires Inv(d)
    ensures NamesOk(d.blobs, d.nextBlob, d.entries, d.nextEntry, d.batches, d.mintedBatches)
  {}

  lemma ResetKeeps(d: Db, l: Lease)
    requires Inv(d)
    ensures Inv(Reset(d, l))
  {
    hide Inv;
    if Live(d, l) {
      ResetKeepsBlobs(d, l.id);
      ResetKeepsImports(d, l.id);
      ResetKeepsEntries(d, l.id);
      ResetKeepsCounters(d, l.id);
      ResetKeepsBatches(d, l.id);
      ResetKeepsItems(d, l.id);
      ResetKeepsTickets(d, l.id);
      NamesOf(d);
      Assemble(Reset(d, l));
    }
  }

  // ---------------------------------------------------------------- Persist

  ghost function PersistedRow(i: Import, eligible: bool): Import {
    i.(scanned := i.scanned + 1, total := i.total + 1,
       eligible := i.eligible + One(eligible), skipped := i.skipped + One(!eligible))
  }

  /** An entry row that a running import may add. */
  ghost predicate Insertable(d: Db, a: ImportId, row: Entry) {
    && a in d.imports && d.imports[a].status == Running && row.archive == a
    && row.status in {Eligible, Skipped} && (row.status == Skipped <==> row.blob.None?)
    && !row.released && row.task.None?
    && forall e | e in d.entries :: !SameKey(d.entries[e], row)
  }

  lemma InsertKeepsEntries(d: Db, a: ImportId, row: Entry)
    requires Inv(d) && Insertable(d, a, row)
    ensures EntriesOk(d.imports[a := PersistedRow(d.imports[a], row.status == Eligible)],
                      d.entries[d.nextEntry := row])
  {
    var i := PersistedRow(d.imports[a], row.status == Eligible);
    ImportWriteKeepsEntries(d.imports, d.entries, a, i);
    InsertOneEntry(d.imports[a := i], d.entries, d.nextEntry, row);
  }

  lemma InsertOneEntry(imports: Imports, entries: Entries, e: EntryId, row: Entry)
    requires EntriesOk(imports, entries) && EntryOk(row, imports)
    requires forall f | f in entries :: !SameKey(entries[f], row)
    ensures EntriesOk(imports, entries[e := row])
  {
    forall f | f in entries ensures !SameKey(row, entries[f]) {
      assert !SameKey(entries[f], row);
    }
  }

  lemma InsertKeepsCounters(d: Db, a: ImportId, row: Entry)
    requires Inv(d) && Insertable(d, a, row)
    ensures CountersOk(d.imports[a := PersistedRow(d.imports[a], row.status == Eligible)],
                       d.entries[d.nextEntry := row])
  {
    NamesOf(d);
    var rows := d.imports[a := PersistedRow(d.imports[a], row.status == Eligible)];
    forall j | j in rows && rows[j].status != Erased
      ensures CounterOk(j, rows[j], d.entries[d.nextEntry := row])
    {
      assert CounterOk(j, d.imports[j], d.entries);
      InsertCounts(d.entries, d.nextEntry, row, j);
    }
  }

  lemma InsertCounts(entries: Entries, e: EntryId, row: Entry, j: ImportId)
    requires e !in entries && row.status != Created
    ensures Count(entries[e := row], CreatedIn(j)) == Count(entries, CreatedIn(j))
    ensures Count(entries[e := row], InImport(j)) ==
            Count(entries, InImport(j)) + One(row.archive == j)
    ensures Count(entries[e := row], CandidateIn(j)) ==
            Count(entries, CandidateIn(j)) + One(row.archive == j && row.status != Skipped)
  {
    CountWrite(entries, e, row, CreatedIn(j));
    CountWrite(entries, e, row, InImport(j));
    CountWrite(entries, e, row, CandidateIn(j));
  }

  lemma InsertKeepsItems(d: Db, row: Entry)
    requires Inv(d) && row.status != Created
    ensures ItemsOk(d.entries[d.nextEntry := row], d.batches, d.items, d.unlinked)
  {
    NamesOf(d);
    NewEntryKeepsItems(d.entries, d.batches, d.items, d.unlinked, d.nextEntry, row);
  }

  lemma NewEntryKeepsItems(
    entries: Entries, batches: map<BatchId, Batch>, items: map<ItemKey, Item>,
    unlinked: set<EntryId>, e: EntryId, row: Entry)
    requires ItemsOk(entries, batches, items, unlinked) && e !in entries && row.status != Created
    ensures ItemsOk(entries[e := row], batches, items, unlinked)
  {
    forall k | k in items ensures ItemLinked(k, items[k], entries[e := row], batches, unlinked) {
      assert ItemLinked(k, items[k], entries, batches, unlinked);
    }
  }

  lemma InsertKeepsImports(d: Db, a: ImportId, eligible: bool)
    requires Inv(d) && a in d.imports && d.imports[a].status == Running
    ensures var rows := d.imports[a := PersistedRow(d.imports[a], eligible)];
      && ImportsOk(rows) && BatchesOk(rows, d.batches)
      && TicketsOk(rows, d.leases, d.works) && FactsOk(rows, d.derived)
  {
    var row := PersistedRow(d.imports[a], eligible);
    ImportWriteKeepsImports(d.imports, a, row);
    ImportWriteKeepsBatches(d.imports, d.batches, a, row);
    ImportWriteKeepsTickets(d.imports, d.leases, d.works, d.derived, a, row);
  }

  lemma PersistKeepsBlobs(d: Db, l: Lease, m: NewEntry)
    requires Inv(d) && PersistError(d, l, m).None?
    ensures BlobsOk(Persist(d, l, m).blobs, Persist(d, l, m).imports, Persist(d, l, m).entries,
                    Persist(d, l, m).holders)
  {
    hide Inv, BlobsOk, RetainError, Retain;
    var b := RetainedBlob(d, m);
    var entries := d.entries[d.nextEntry := m.Row(l.id, b)];
    var row := PersistedRow(d.imports[l.id], m.eligible);
    FreshNames(d);
    BlobsOf(d);
    if m.eligible {
      RetainKeepsBlobs(d, m, l.id);
      QuietWriteKeepsBlobs(Retain(d, m), d.imports, entries, Persist(d, l, m).holders, l.id, row);
    } else {
      SkippedKeepsBlobs(d.blobs, d.imports, d.entries, d.holders, d.nextEntry, m.Row(l.id, b));
      QuietWriteKeepsBlobs(d.blobs, d.imports, entries, d.holders, l.id, row);
    }
  }

  lemma FreshNames(d: Db)
    requires Inv(d)
    ensures d.nextBlob !in d.blobs && d.nextEntry !in d.entries
  {
    NamesOf(d);
  }

  lemma BlobsOf(d: Db)
    requires Inv(d)
    ensures BlobsOk(d.blobs, d.imports, d.entries, d.holders)
  {}

  lemma PersistInserts(d: Db, l: Lease, m: NewEntry)
    requires PersistError(d, l, m).None?
    ensures Insertable(d, l.id, m.Row(l.id, RetainedBlob(d, m)))
  {
    forall e | e in d.entries ensures !SameKey(d.entries[e], m.Row(l.id, RetainedBlob(d, m))) {
      assert !SameKey(d.entries[e], m.Row(l.id, 0));
    }
  }

  lemma PersistKeepsNames(d: Db, l: Lease, m: NewEntry)
    requires NamesOk(d.blobs, d.nextBlob, d.entries, d.nextEntry, d.batches, d.mintedBatches)
    requires PersistError(d, l, m).None?
    ensures var n := Persist(d, l, m);
      NamesOk(n.blobs, n.nextBlob, n.entries, n.nextEntry, n.batches, n.mintedBatches)
  {}

  lemma PersistKeeps(d: Db, l: Lease, m: NewEntry)
    requires Inv(d)
    ensures Inv(Persist(d, l, m))
  {
    hide Inv, BlobsOk, ImportsOk, EntriesOk, CountersOk, BatchesOk, ItemsOk, NamesOk, TicketsOk,
         FactsOk, RetainError, Retain;
    if PersistError(d, l, m).None? {
      var row := m.Row(l.id, RetainedBlob(d, m));
      PersistInserts(d, l, m);
      PersistKeepsBlobs(d, l, m);
      InsertKeepsImports(d, l.id, m.eligible);
      InsertKeepsEntries(d, l.id, row);
      InsertKeepsCounters(d, l.id, row);
      InsertKeepsItems(d, row);
      NamesOf(d);
      PersistKeepsNames(d, l, m);
      Assemble(Persist(d, l, m));
    }
  }

  // ---------------------------------------------------------------- FinalizeDelete

  ghost predicate Deletable(d: Db, a: ImportId) {
    a in d.imports && d.imports[a].status == Tombstoned
  }

  ghost function ErasedRow(i: Import): Import { i.(sourceReleased := true, status := Erased) }

  ghost function EraseItems(d: Db, a: ImportId): map<ItemKey, Item> {
    d.items - (set k | k in d.items && (k.0 in BatchesOf(d, a) || k.1 in EntriesOf(d, a)))
  }

  lemma EraseKeepsBlobs(d: Db, a: ImportId)
    requires Inv(d) && Deletable(d, a)
    ensures BlobsOk(
      ReleaseSource(ReleaseEntries(d.blobs, Only(d.entries, EntriesOf(d, a))), d.imports[a]),
      d.imports[a := ErasedRow(d.imports[a])], d.entries - EntriesOf(d, a), d.holders)
  {
    EntriesReleaseKeepsBlobs(d.blobs, d.imports, d.entries, d.holders, EntriesOf(d, a));
    EraseSource(ReleaseEntries(d.blobs, Only(d.entries, EntriesOf(d, a))), d.imports,
                d.entries - EntriesOf(d, a), d.holders, a);
  }

  lemma EraseSource(blobs: Blobs, imports: Imports, entries: Entries, holders: Holders, a: ImportId)
    requires BlobsOk(blobs, imports, entries, holders) && a in imports
    ensures BlobsOk(ReleaseSource(blobs, imports[a]), imports[a := ErasedRow(imports[a])],
                    entries, holders)
  {
    SourceReleaseKeepsBlobs(blobs, imports, entries, holders, a, ErasedRow(imports[a]));
  }

  lemma EraseKeepsImports(d: Db, a: ImportId)
    requires Inv(d) && Deletable(d, a)
    ensures ImportsOk(d.imports[a := ErasedRow(d.imports[a])])
  {
    RowOk(d, a);
    ImportWriteKeepsImports(d.imports, a, ErasedRow(d.imports[a]));
  }

  lemma EraseKeepsEntries(d: Db, a: ImportId)
    requires Inv(d) && Deletable(d, a)
    ensures EntriesOk(d.imports[a := ErasedRow(d.imports[a])], d.entries - EntriesOf(d, a))
  {
    DeletedKeepsEntries(d.imports, d.entries, EntriesOf(d, a));
    ImportWriteKeepsEntries(d.imports, d.entries - EntriesOf(d, a), a, ErasedRow(d.imports[a]));
  }

  lemma EraseKeepsCounters(d: Db, a: ImportId)
    requires Inv(d) && Deletable(d, a)
    ensures CountersOk(d.imports[a := ErasedRow(d.imports[a])], d.entries - EntriesOf(d, a))
  {
    DeletedKeepsCounters(d, a, ErasedRow(d.imports[a]));
  }

  lemma EraseKeepsBatches(d: Db, a: ImportId)
    requires Inv(d) && Deletable(d, a)
    ensures BatchesOk(d.imports[a := ErasedRow(d.imports[a])], d.batches - BatchesOf(d, a))
  {
    FewerBatches(d.imports, d.batches, BatchesOf(d, a));
    ImportWriteKeepsBatches(d.imports, d.batches - BatchesOf(d, a), a, ErasedRow(d.imports[a]));
  }

  lemma FewerBatches(imports: Imports, batches: map<BatchId, Batch>, gone: set<BatchId>)
    requires BatchesOk(imports, batches)
    ensures BatchesOk(imports, batches - gone)
  {
    forall b | b in batches - gone ensures BatchOk(batches[b], imports) {
      assert BatchOk(batches[b], imports);
    }
    forall i | i in imports ensures Count(batches - gone, ProcessingIn(i)) <= 1 {
      CountSplit(batches, gone, ProcessingIn(i));
    }
  }

  lemma EraseKeepsItems(d: Db, a: ImportId)
    requires Inv(d)
    ensures ItemsOk(d.entries - EntriesOf(d, a), d.batches - BatchesOf(d, a), EraseItems(d, a),
                    d.unlinked)
  {
    DeletedKeepsItems(d.entries, d.batches, d.items, d.unlinked, EntriesOf(d, a), BatchesOf(d, a),
      set k | k in d.items && (k.0 in BatchesOf(d, a) || k.1 in EntriesOf(d, a)));
  }

  lemma EraseKeepsTickets(d: Db, a: ImportId)
    requires Inv(d) && Deletable(d, a)
    ensures TicketsOk(d.imports[a := ErasedRow(d.imports[a])], d.leases, d.works)
    ensures FactsOk(d.imports[a := ErasedRow(d.imports[a])], d.derived)
  {
    ImportWriteKeepsTickets(d.imports, d.leases, d.works, d.derived, a, ErasedRow(d.imports[a]));
  }

  lemma EraseKeepsNames(d: Db, a: ImportId)
    requires Inv(d) && a in d.imports
    ensures NamesOk(
      ReleaseSource(ReleaseEntries(d.blobs, Only(d.entries, EntriesOf(d, a))), d.imports[a]),
      d.nextBlob, d.entries - EntriesOf(d, a), d.nextEntry, d.batches - BatchesOf(d, a),
      d.mintedBatches)
  {
    hide Inv;
    NamesOf(d);
  }

  lemma FinalizeDeleteKeeps(d: Db, u: UploadId)
    requires Inv(d)
    ensures Inv(FinalizeDelete(d, u))
  {
    hide Inv, BlobsOk, ImportsOk, EntriesOk, CountersOk, BatchesOk, ItemsOk, NamesOk, TicketsOk,
         FactsOk;
    var found := FindImport(d, u);
    if FinalizeDeleteError(d, u).None? && found.Some? && d.imports[found.value].status != Erased {
      var a := found.value;
      FoundImport(d, u);
      EraseKeepsBlobs(d, a);
      EraseKeepsImports(d, a);
      EraseKeepsEntries(d, a);
      EraseKeepsCounters(d, a);
      EraseKeepsBatches(d, a);
      EraseKeepsItems(d, a);
      EraseKeepsTickets(d, a);
      EraseKeepsNames(d, a);
      Assemble(FinalizeDelete(d, u));
    }
  }

  // ---------------------------------------------------------------- blobs alone

  lemma BlobWriteKeeps(d: Db, blobs: Blobs, holders: Holders, nextBlob: BlobId)
    requires Inv(d) && BlobsOk(blobs, d.imports, d.entries, holders)
    requires forall b | b in blobs :: b < nextBlob
    ensures Inv(d.(blobs := blobs, holders := holders, nextBlob := nextBlob))
  {
    Assemble(d.(blobs := blobs, holders := holders, nextBlob := nextBlob));
  }

  /** One blob row moves together with the holders outside the archive tables. */
  lemma OtherMoveKeepsBlobs(
    blobs: Blobs, imports: Imports, entries: Entries, holders: Holders, b: BlobId, row: Blob,
    others: nat)
    requires BlobsOk(blobs, imports, entries, holders) && b in blobs
    requires row.digest == blobs[b].digest
    requires row.refs - blobs[b].refs == others - holders[b]
    requires row.refs > 0 <==> Referenced(row.state)
    requires blobs[b].state == Available && row.refs > 0 ==> row.state == Available
    ensures BlobsOk(blobs[b := row], imports, entries, holders[b := others])
  {
    assert blobs[b].refs == References(b, imports, entries, holders[b]);
    var after, rest := blobs[b := row], holders[b := others];
    forall c | c in after ensures after[c].refs == References(c, imports, entries, rest[c]) {
      assert blobs[c].refs == References(c, imports, entries, holders[c]);
    }
    forall i | i in imports && !imports[i].sourceReleased
      ensures IsAvailable(after, imports[i].sourceBlob)
    {
      assert IsAvailable(blobs, imports[i].sourceBlob);
      if imports[i].sourceBlob == b { CountPositive(imports, i, SourceHolds(b)); }
    }
    forall e | e in entries && entries[e].blob.Some? && !entries[e].released
      ensures IsAvailable(after, entries[e].blob.value)
    {
      assert IsAvailable(blobs, entries[e].blob.value);
      if entries[e].blob.value == b { CountPositive(entries, e, EntryHolds(b)); }
    }
  }

  lemma OtherMoveKeeps(d: Db, b: BlobId, row: Blob, others: nat)
    requires Inv(d) && b in d.blobs && b in d.holders
    requires row.digest == d.blobs[b].digest
    requires row.refs - d.blobs[b].refs == others - d.holders[b]
    requires row.refs > 0 <==> Referenced(row.state)
    requires d.blobs[b].state == Available && row.refs > 0 ==> row.state == Available
    ensures Inv(d.(blobs := d.blobs[b := row], holders := d.holders[b := others]))
  {
    hide Inv;
    BlobsOf(d);
    NamesOf(d);
    OtherMoveKeepsBlobs(d.blobs, d.imports, d.entries, d.holders, b, row, others);
    BlobWriteKeeps(d, d.blobs[b := row], d.holders[b := others], d.nextBlob);
  }

  /** What one row of the blob table satisfies. */
  lemma BlobRow(d: Db, b: BlobId)
    requires Inv(d) && b in d.blobs
    ensures b in d.holders && d.holders[b] <= d.blobs[b].refs && b < d.nextBlob
    ensures d.blobs[b].refs > 0 <==> Referenced(d.blobs[b].state)
  {
    assert d.blobs[b].refs == References(b, d.imports, d.entries, d.holders[b]);
  }

  lemma MarkBlobDeletedKeeps(d: Db, b: BlobId)
    requires Inv(d)
    ensures Inv(MarkBlobDeleted(d, b))
  {
    hide Inv;
    if b in d.blobs && d.blobs[b].state == Deleting && d.blobs[b].refs == 0 {
      BlobRow(d, b);
      OtherMoveKeeps(d, b, d.blobs[b].(state := Deleted), d.holders[b]);
      assert d.holders[b := d.holders[b]] == d.holders;
    }
  }

  lemma OtherRetainKeeps(d: Db, b: BlobId)
    requires Inv(d)
    ensures Inv(OtherRetain(d, b))
  {
    hide Inv;
    if b in d.blobs && Referenced(d.blobs[b].state) {
      BlobRow(d, b);
      OtherMoveKeeps(d, b, d.blobs[b].(refs := d.blobs[b].refs + 1), d.holders[b] + 1);
    }
  }

  lemma OtherReleaseKeeps(d: Db, b: BlobId)
    requires Inv(d)
    ensures Inv(OtherRelease(d, b))
  {
    hide Inv;
    if b in d.blobs && b in d.holders && d.holders[b] > 0 {
      BlobRow(d, b);
      OtherMoveKeeps(d, b, Drop(d.blobs[b], 1), d.holders[b] - 1);
    }
  }

  lemma OtherPublishKeeps(d: Db, b: BlobId)
    requires Inv(d)
    ensures Inv(OtherPublish(d, b))
  {
    hide Inv;
    if b in d.blobs && d.blobs[b].state == Staging {
      BlobRow(d, b);
      OtherMoveKeeps(d, b, d.blobs[b].(state := Available), d.holders[b]);
      assert d.holders[b := d.holders[b]] == d.holders;
    }
  }

  lemma NewBlobKeepsBlobs(
    blobs: Blobs, imports: Imports, entries: Entries, holders: Holders, b: BlobId, row: Blob)
    requires BlobsOk(blobs, imports, entries, holders) && b !in blobs
    requires row.refs == 1 && row.state == Staging
    requires forall c | c in blobs :: blobs[c].digest != row.digest
    ensures BlobsOk(blobs[b := row], imports, entries, holders[b := 1])
  {
    NobodyHolds(blobs, imports, entries, b);
    var after, rest := blobs[b := row], holders[b := 1];
    forall c | c in after ensures after[c].refs == References(c, imports, entries, rest[c]) {
      if c != b { assert blobs[c].refs == References(c, imports, entries, holders[c]); }
    }
    forall i | i in imports && !imports[i].sourceReleased
      ensures IsAvailable(after, imports[i].sourceBlob)
    {
      assert IsAvailable(blobs, imports[i].sourceBlob);
    }
    forall e | e in entries && entries[e].blob.Some? && !entries[e].released
      ensures IsAvailable(after, entries[e].blob.value)
    {
      assert IsAvailable(blobs, entries[e].blob.value);
    }
  }

  lemma OtherStageKeeps(d: Db, digest: Digest, size: int, key: StorageKey)
    requires Inv(d)
    ensures Inv(OtherStage(d, digest, size, key))
  {
    hide Inv, BlobsOk;
    NamesOf(d);
    BlobsOf(d);
    match FindBlob(d.blobs, digest)
    case None =>
      var row := Blob(digest, size, key, 1, Staging);
      NewBlobKeepsBlobs(d.blobs, d.imports, d.entries, d.holders, d.nextBlob, row);
      BlobWriteKeeps(d, d.blobs[d.nextBlob := row], d.holders[d.nextBlob := 1], d.nextBlob + 1);
    case Some(b) =>
      if d.blobs[b].state == Deleted && d.blobs[b].refs == 0 && b in d.holders {
        OtherMoveKeeps(d, b, d.blobs[b].(refs := 1, state := Staging), d.holders[b] + 1);
      }
  }
}
