/** Each transaction keeps the invariant. */
module ArchiveInvariant {
  import opened Counting
  import opened ArchiveDb
  import opened ArchiveTransactions

  type Blobs = map<BlobId, Blob>
  type Imports = map<ImportId, Import>
  type Entries = map<EntryId, Entry>
  type Holders = map<BlobId, nat>

  // ---------------------------------------------------------------- blobs

  /** How the tables of one step may move the references of blob `b`. */
  lemma ConservedWriteImport(
    blobs: Blobs, imports: Imports, entries: Entries, holders: Holders, i: ImportId, row: Import,
    b: BlobId)
    requires Conserved(blobs, imports, entries, holders) && b in blobs
    ensures References(b, imports[i := row], entries, holders[b]) ==
            blobs[b].refs + One(SourceHolds(b)(row)) -
            One(i in imports && SourceHolds(b)(imports[i]))
  {
    CountWrite(imports, i, row, SourceHolds(b));
  }

  lemma ConservedWriteEntry(
    blobs: Blobs, imports: Imports, entries: Entries, holders: Holders, e: EntryId, row: Entry,
    b: BlobId)
    requires Conserved(blobs, imports, entries, holders) && b in blobs
    ensures References(b, imports, entries[e := row], holders[b]) ==
            blobs[b].refs + One(EntryHolds(b)(row)) -
            One(e in entries && EntryHolds(b)(entries[e]))
  {
    CountWrite(entries, e, row, EntryHolds(b));
  }

  predicate SameSourceRef(i: Import, j: Import) {
    i.sourceReleased == j.sourceReleased && i.sourceBlob == j.sourceBlob
  }

  /** Writing an import without touching its source reference. */
  lemma ImportWriteKeepsBlobs(
    blobs: Blobs, imports: Imports, entries: Entries, holders: Holders, i: ImportId, row: Import)
    requires Conserved(blobs, imports, entries, holders)
    requires HoldersServed(blobs, imports, entries)
    requires i in imports && SameSourceRef(row, imports[i])
    ensures Conserved(blobs, imports[i := row], entries, holders)
    ensures HoldersServed(blobs, imports[i := row], entries)
  {
    forall b | b in blobs
      ensures blobs[b].refs == References(b, imports[i := row], entries, holders[b])
    {
      ConservedWriteImport(blobs, imports, entries, holders, i, row, b);
    }
  }

  predicate SameBlobRef(e: Entry, f: Entry) { e.blob == f.blob && e.released == f.released }

  /** Rewriting entries without touching their blob references. */
  lemma EntriesRewriteKeepsBlobs(
    blobs: Blobs, imports: Imports, entries: Entries, holders: Holders, rows: Entries)
    requires Conserved(blobs, imports, entries, holders)
    requires HoldersServed(blobs, imports, entries)
    requires rows.Keys == entries.Keys
    requires forall e | e in rows :: SameBlobRef(rows[e], entries[e])
    ensures Conserved(blobs, imports, rows, holders)
    ensures HoldersServed(blobs, imports, rows)
  {
    forall b | b in blobs
      ensures blobs[b].refs == References(b, imports, rows, holders[b])
    {
      CountSame(entries, rows, EntryHolds(b));
    }
  }

  /** When the counts match again after references were dropped, whoever still
      holds a reference holds an available blob. */
  lemma StillServed(before: Blobs, after: Blobs, imports: Imports, entries: Entries, holders: Holders)
    requires StatesOk(before) && HoldersServed(before, imports, entries)
    requires after.Keys == before.Keys
    requires forall b | b in after :: Dropped(before[b], after[b])
    requires Conserved(after, imports, entries, holders)
    ensures StatesOk(after) && HoldersServed(after, imports, entries)
  {
    forall i | i in imports && !imports[i].sourceReleased
      ensures IsAvailable(after, imports[i].sourceBlob)
    {
      var b := imports[i].sourceBlob;
      assert IsAvailable(before, b);
      CountPositive(imports, i, SourceHolds(b));
    }
    forall e | e in entries && entries[e].blob.Some? && !entries[e].released
      ensures IsAvailable(after, entries[e].blob.value)
    {
      var b := entries[e].blob.value;
      assert IsAvailable(before, b);
      CountPositive(entries, e, EntryHolds(b));
    }
  }

  /** `b` after some of its references were dropped. */
  predicate Dropped(a: Blob, b: Blob) {
    && b.digest == a.digest && b.size == a.size && b.key == a.key
    && 0 <= b.refs <= a.refs
    && b.state == (if b.refs == a.refs || b.refs > 0 then a.state else Deleting)
  }

  lemma SameDigests(before: Blobs, after: Blobs)
    requires DigestsUnique(before) && after.Keys == before.Keys
    requires forall b | b in after :: after[b].digest == before[b].digest
    ensures DigestsUnique(after)
  {}

  /** Dropping references until the counts match again. */
  lemma DropKeepsBlobs(
    before: Blobs, after: Blobs, imports: Imports, entries: Entries, holders: Holders)
    requires StatesOk(before) && DigestsUnique(before) && HoldersServed(before, imports, entries)
    requires after.Keys == before.Keys && Conserved(after, imports, entries, holders)
    requires forall b | b in after :: Dropped(before[b], after[b])
    ensures BlobsOk(after, imports, entries, holders)
  {
    SameDigests(before, after);
    StillServed(before, after, imports, entries, holders);
  }

  lemma ReleaseOneConserves(
    blobs: Blobs, b: BlobId, imports: Imports, entries: Entries, holders: Holders)
    requires holders.Keys == blobs.Keys && StatesOk(blobs) && IsAvailable(blobs, b)
    requires forall c | c in blobs ::
               References(c, imports, entries, holders[c]) == blobs[c].refs - One(b == c)
    ensures var after := ReleaseOne(blobs, b);
      && after.Keys == blobs.Keys && Conserved(after, imports, entries, holders)
      && forall c | c in after :: Dropped(blobs[c], after[c])
  {
    var after := ReleaseOne(blobs, b);
    assert after.Keys == blobs.Keys;
    forall c | c in after
      ensures after[c].refs == References(c, imports, entries, holders[c])
      ensures Dropped(blobs[c], after[c])
    {
      assert References(c, imports, entries, holders[c]) == blobs[c].refs - One(b == c);
    }
  }

  /** Giving back the source reference of an import. */
  lemma SourceReleaseKeepsBlobs(
    blobs: Blobs, imports: Imports, entries: Entries, holders: Holders, i: ImportId, row: Import)
    requires BlobsOk(blobs, imports, entries, holders) && i in imports
    requires row.sourceReleased && row.sourceBlob == imports[i].sourceBlob
    ensures BlobsOk(ReleaseSource(blobs, imports[i]), imports[i := row], entries, holders)
  {
    var was, after := imports[i], imports[i := row];
    if was.sourceReleased {
      ImportWriteKeepsBlobs(blobs, imports, entries, holders, i, row);
    } else {
      assert IsAvailable(blobs, was.sourceBlob);
      forall c | c in blobs
        ensures References(c, after, entries, holders[c]) ==
                blobs[c].refs - One(was.sourceBlob == c)
      {
        ConservedWriteImport(blobs, imports, entries, holders, i, row, c);
      }
      ReleaseOneConserves(blobs, was.sourceBlob, after, entries, holders);
      DropKeepsBlobs(blobs, ReleaseOne(blobs, was.sourceBlob), after, entries, holders);
    }
  }

  lemma EntriesReleaseConserves(
    blobs: Blobs, imports: Imports, entries: Entries, holders: Holders, gone: set<EntryId>)
    requires Conserved(blobs, imports, entries, holders)
    ensures var after := ReleaseEntries(blobs, Only(entries, gone));
      && Conserved(after, imports, entries - gone, holders)
      && forall b | b in after :: 0 <= after[b].refs <= blobs[b].refs
  {
    var after := ReleaseEntries(blobs, Only(entries, gone));
    forall b | b in after
      ensures after[b].refs == References(b, imports, entries - gone, holders[b])
      ensures 0 <= after[b].refs <= blobs[b].refs
    {
      CountSplit(entries, gone, EntryHolds(b));
    }
  }

  /** Giving back the references of a set of entries that are then deleted. */
  lemma EntriesReleaseKeepsBlobs(
    blobs: Blobs, imports: Imports, entries: Entries, holders: Holders, gone: set<EntryId>)
    requires BlobsOk(blobs, imports, entries, holders)
    ensures BlobsOk(ReleaseEntries(blobs, Only(entries, gone)), imports, entries - gone, holders)
  {
    hide Count, Only, References;
    var after := ReleaseEntries(blobs, Only(entries, gone));
    EntriesReleaseConserves(blobs, imports, entries, holders, gone);
    forall b | b in after ensures Dropped(blobs[b], after[b]) {
      assert blobs[b].refs == References(b, imports, entries, holders[b]);
      assert after[b] == Drop(blobs[b], Count(Only(entries, gone), EntryHolds(b)));
    }
    DropKeepsBlobs(blobs, after, imports, entries - gone, holders);
  }

  /** Binding an entry: its reference goes, if it still had one. */
  lemma BindKeepsBlobs(
    blobs: Blobs, imports: Imports, entries: Entries, holders: Holders, e: EntryId, row: Entry)
    requires BlobsOk(blobs, imports, entries, holders)
    requires e in entries && entries[e].blob.Some?
    requires row.blob == entries[e].blob && row.released
    ensures BlobsOk(if entries[e].released then blobs else ReleaseOne(blobs, entries[e].blob.value),
                    imports, entries[e := row], holders)
  {
    var was, after := entries[e], entries[e := row];
    var b := was.blob.value;
    if was.released {
      EntriesRewriteKeepsBlobs(blobs, imports, entries, holders, after);
    } else {
      assert IsAvailable(blobs, b);
      forall c | c in blobs
        ensures References(c, imports, after, holders[c]) == blobs[c].refs - One(b == c)
      {
        ConservedWriteEntry(blobs, imports, entries, holders, e, row, c);
      }
      ReleaseOneConserves(blobs, b, imports, after, holders);
      DropKeepsBlobs(blobs, ReleaseOne(blobs, b), imports, after, holders);
    }
  }

  /** One more reference on a blob, held by a new row. */
  predicate Gains(before: Blobs, after: Blobs, b: BlobId) {
    && after.Keys == before.Keys + {b}
    && (forall c | c in before && c != b :: after[c] == before[c])
    && after[b].state == Available
    && after[b].refs == (if b in before then before[b].refs else 0) + 1 > 0
    && (b in before ==> after[b].digest == before[b].digest)
    && (b !in before ==> forall c | c in before :: before[c].digest != after[b].digest)
  }

  lemma GainKeepsBlobs(
    before: Blobs, after: Blobs, b: BlobId, imports: Imports, entries: Entries, holders: Holders)
    requires StatesOk(before) && DigestsUnique(before) && Gains(before, after, b)
    requires Conserved(after, imports, entries, holders)
    requires HoldersServed(before[b := after[b]], imports, entries)
    ensures BlobsOk(after, imports, entries, holders)
  {
    hide Conserved, HoldersServed;
    assert after == before[b := after[b]];
  }

  lemma RetainGains(d: Db, m: NewEntry)
    requires BlobsOk(d.blobs, d.imports, d.entries, d.holders) && RetainError(d, m).None?
    requires d.nextBlob !in d.blobs
    ensures Gains(d.blobs, Retain(d, m), RetainedBlob(d, m))
  {
    hide Conserved, HoldersServed, DigestsUnique;
  }

  /** Taking a reference on published content for a new entry. */
  lemma RetainKeepsBlobs(d: Db, m: NewEntry, a: ImportId)
    requires BlobsOk(d.blobs, d.imports, d.entries, d.holders)
    requires m.eligible && RetainError(d, m).None?
    requires d.nextBlob !in d.blobs && d.nextEntry !in d.entries
    ensures var b := RetainedBlob(d, m);
      BlobsOk(Retain(d, m), d.imports, d.entries[d.nextEntry := m.Row(a, b)],
              if b !in d.blobs then d.holders[b := 0] else d.holders)
  {
    RetainGains(d, m);
    var b := RetainedBlob(d, m);
    NewEntryKeepsBlobs(d.blobs, Retain(d, m), b, d.imports, d.entries, d.holders, d.nextEntry,
                       m.Row(a, b));
  }

  lemma NewEntryKeepsBlobs(
    before: Blobs, after: Blobs, b: BlobId, imports: Imports, was: Entries, holders: Holders,
    e: EntryId, row: Entry)
    requires BlobsOk(before, imports, was, holders) && Gains(before, after, b)
    requires e !in was && row.blob == Some(b) && !row.released
    ensures BlobsOk(after, imports, was[e := row], if b !in before then holders[b := 0] else holders)
  {
    var entries, others := was[e := row], if b !in before then holders[b := 0] else holders;
    NewReferenceServed(before, after, imports, entries, was, e, b);
    if b !in before { NobodyHolds(before, imports, was, b); }
    NewEntryConserves(before, after, b, imports, was, holders, e, row);
    GainKeepsBlobs(before, after, b, imports, entries, others);
  }

  lemma NewEntryConserves(
    before: Blobs, after: Blobs, b: BlobId, imports: Imports, was: Entries, holders: Holders,
    e: EntryId, row: Entry)
    requires Conserved(before, imports, was, holders)
    requires after.Keys == before.Keys + {b}
    requires forall c | c in before && c != b :: after[c] == before[c]
    requires after[b].refs == (if b in before then before[b].refs else 0) + 1
    requires b !in before ==> References(b, imports, was, 0) == 0
    requires e !in was && row.blob == Some(b) && !row.released
    ensures Conserved(after, imports, was[e := row], if b !in before then holders[b := 0] else holders)
  {
    var others := if b !in before then holders[b := 0] else holders;
    assert others.Keys == after.Keys;
    forall c | c in after ensures after[c].refs == References(c, imports, was[e := row], others[c]) {
      OneMoreReference(imports, was, e, row, c, others[c]);
      assert c in before ==> before[c].refs == References(c, imports, was, holders[c]);
    }
  }

  lemma OneMoreReference(
    imports: Imports, was: Entries, e: EntryId, row: Entry, c: BlobId, others: nat)
    requires e !in was
    ensures References(c, imports, was[e := row], others) ==
            References(c, imports, was, others) + One(row.blob == Some(c) && !row.released)
  {
    CountWrite(was, e, row, EntryHolds(c));
  }

  lemma NobodyHolds(blobs: Blobs, imports: Imports, entries: Entries, b: BlobId)
    requires HoldersServed(blobs, imports, entries) && b !in blobs
    ensures Count(imports, SourceHolds(b)) == 0 && Count(entries, EntryHolds(b)) == 0
  {
    CountNone(imports, SourceHolds(b));
    CountNone(entries, EntryHolds(b));
  }

  lemma NewReferenceServed(
    before: Blobs, after: Blobs, imports: Imports, entries: Entries, was: Entries, e: EntryId,
    b: BlobId)
    requires HoldersServed(before, imports, was) && Gains(before, after, b)
    requires e in entries && entries[e].blob == Some(b) && entries == was[e := entries[e]]
    ensures HoldersServed(before[b := after[b]], imports, entries)
  {
    forall i | i in imports && !imports[i].sourceReleased
      ensures IsAvailable(before[b := after[b]], imports[i].sourceBlob)
    {
      assert IsAvailable(before, imports[i].sourceBlob);
    }
    forall f | f in entries && entries[f].blob.Some? && !entries[f].released
      ensures IsAvailable(before[b := after[b]], entries[f].blob.value)
    {
      if f != e { assert IsAvailable(before, was[f].blob.value); }
    }
  }

  /** An entry without a blob needs no reference. */
  lemma SkippedKeepsBlobs(
    blobs: Blobs, imports: Imports, entries: Entries, holders: Holders, e: EntryId, row: Entry)
    requires BlobsOk(blobs, imports, entries, holders)
    requires row.blob.None? && e !in entries
    ensures BlobsOk(blobs, imports, entries[e := row], holders)
  {
    forall b | b in blobs
      ensures blobs[b].refs == References(b, imports, entries[e := row], holders[b])
    {
      ConservedWriteEntry(blobs, imports, entries, holders, e, row, b);
    }
  }

  /** Taking a reference on an available source for a new import. */
  lemma SourceRetainKeepsBlobs(
    blobs: Blobs, imports: Imports, entries: Entries, holders: Holders,
    i: ImportId, row: Import)
    requires BlobsOk(blobs, imports, entries, holders)
    requires i !in imports && !row.sourceReleased && IsAvailable(blobs, row.sourceBlob)
    ensures var b := row.sourceBlob;
      BlobsOk(blobs[b := blobs[b].(refs := blobs[b].refs + 1)], imports[i := row], entries, holders)
  {
    var b := row.sourceBlob;
    var after, rows := blobs[b := blobs[b].(refs := blobs[b].refs + 1)], imports[i := row];
    assert blobs[b].refs > 0;
    assert Gains(blobs, after, b);
    forall c | c in after ensures after[c].refs == References(c, rows, entries, holders[c]) {
      ConservedWriteImport(blobs, imports, entries, holders, i, row, c);
    }
    forall j | j in rows && !rows[j].sourceReleased
      ensures IsAvailable(blobs[b := after[b]], rows[j].sourceBlob)
    {
      if j != i { assert IsAvailable(blobs, imports[j].sourceBlob); }
    }
    forall f | f in entries && entries[f].blob.Some? && !entries[f].released
      ensures IsAvailable(blobs[b := after[b]], entries[f].blob.value)
    {
      assert IsAvailable(blobs, entries[f].blob.value);
    }
    GainKeepsBlobs(blobs, after, b, rows, entries, holders);
  }

  // ---------------------------------------------------------------- imports

  /** What every write to an existing import row respects. */
  predicate ImportEdge(was: Import, row: Import) {
    && row.upload == was.upload && row.maxAttempts == was.maxAttempts && was.fence <= row.fence
    && (row.status == was.status
        || (was.status == Queued && row.status == Running)
        || (was.status == Running && row.status in {Ready, Failed, Queued})
        || (was.status in {Queued, Ready, Failed} && row.status == Tombstoned)
        || (was.status == Tombstoned && row.status == Erased))
  }

  lemma ImportWriteKeepsImports(imports: Imports, i: ImportId, row: Import)
    requires ImportsOk(imports) && i in imports && ImportEdge(imports[i], row) && ImportOk(row)
    requires row.status == Running && imports[i].status != Running ==>
               forall j | j in imports :: imports[j].status != Running
    ensures ImportsOk(imports[i := row])
  {
    CountWrite(imports, i, row, IsRunning());
    if row.status == Running && imports[i].status != Running {
      CountNone(imports, IsRunning());
    }
  }

  lemma ImportWriteKeepsEntries(imports: Imports, entries: Entries, i: ImportId, row: Import)
    requires EntriesOk(imports, entries) && i in imports && ImportEdge(imports[i], row)
    requires row.status == Erased ==> forall e | e in entries :: entries[e].archive != i
    ensures EntriesOk(imports[i := row], entries)
  {
    forall e | e in entries ensures EntryOk(entries[e], imports[i := row]) {
      assert EntryOk(entries[e], imports);
    }
  }

  predicate SameCounters(a: Import, b: Import) {
    a.createdTasks == b.createdTasks && a.scanned == b.scanned && a.total == b.total &&
    a.eligible == b.eligible && a.skipped == b.skipped
  }

  lemma ImportWriteKeepsCounters(imports: Imports, entries: Entries, i: ImportId, row: Import)
    requires CountersOk(imports, entries) && i in imports && ImportEdge(imports[i], row)
    requires SameCounters(row, imports[i])
    ensures CountersOk(imports[i := row], entries)
  {
    var rows := imports[i := row];
    forall j | j in rows && rows[j].status != Erased ensures CounterOk(j, rows[j], entries) {
      assert CounterOk(j, imports[j], entries);
    }
  }

  lemma ImportWriteKeepsBatches(
    imports: Imports, batches: map<BatchId, Batch>, i: ImportId, row: Import)
    requires BatchesOk(imports, batches) && i in imports && ImportEdge(imports[i], row)
    requires row.status == Tombstoned ==> Count(batches, ProcessingIn(i)) == 0
    requires row.status == Erased ==> forall b | b in batches :: batches[b].archive != i
    ensures BatchesOk(imports[i := row], batches)
  {
    forall b | b in batches
      ensures BatchOk(batches[b], imports[i := row])
    {
      assert BatchOk(batches[b], imports);
      if batches[b].archive == i && !batches[b].completed && row.status == Tombstoned {
        CountPositive(batches, b, ProcessingIn(i));
      }
    }
  }

  lemma ImportWriteKeepsTickets(
    imports: Imports, leases: set<Lease>, works: set<Work>, derived: map<UploadId, Derived>,
    i: ImportId, row: Import)
    requires TicketsOk(imports, leases, works) && FactsOk(imports, derived)
    requires i in imports && ImportEdge(imports[i], row)
    ensures TicketsOk(imports[i := row], leases, works)
    ensures FactsOk(imports[i := row], derived)
  {
    var after := imports[i := row];
    forall l | l in leases ensures LeaseOk(l, after) { assert LeaseOk(l, imports); }
    forall w | w in works ensures WorkOk(w, after) { assert WorkOk(w, imports); }
    forall u | u in derived ensures FactOk(derived[u], after) {
      assert FactOk(derived[u], imports);
      var j :| j in imports && imports[j].upload == derived[u].origin.parent &&
               Settled(imports[j].status);
      assert after[j].upload == derived[u].origin.parent && Settled(after[j].status);
    }
  }
}
