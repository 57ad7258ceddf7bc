/** The batch transactions, reconciliation and the fate of derived uploads and
    tasks keep the invariant. */
module ArchiveBatchSteps {
  import opened Counting
  import opened ArchiveDb
  import opened ArchiveTransactions
  import opened ArchiveInvariant
  import opened ArchiveImportSteps

  type Batches = map<BatchId, Batch>
  type Items = map<ItemKey, Item>

  // ---------------------------------------------------------------- rewriting rows

  /** A change of an entry that neither binds nor unbinds it. */
  predicate MildChange(e: Entry, f: Entry) {
    && f.publicId == e.publicId && f.archive == e.archive && f.ordinal == e.ordinal
    && f.member == e.member && f.blob == e.blob && f.released == e.released && f.task == e.task
    && (f.status == e.status ||
        (e.status in {Eligible, EntryFailed} && f.status in {Eligible, EntryFailed}))
  }

  ghost predicate Mild(entries: Entries, rows: Entries) {
    rows.Keys == entries.Keys && forall e | e in rows :: MildChange(entries[e], rows[e])
  }

  lemma MildKeepsEntries(imports: Imports, entries: Entries, rows: Entries)
    requires EntriesOk(imports, entries) && Mild(entries, rows)
    ensures EntriesOk(imports, rows)
  {
    forall e | e in rows ensures EntryOk(rows[e], imports) {
      assert EntryOk(entries[e], imports);
    }
    forall e, f | e in rows && f in rows && SameKey(rows[e], rows[f]) ensures e == f {
      assert SameKey(entries[e], entries[f]);
    }
  }

  lemma MildKeepsCounters(imports: Imports, entries: Entries, rows: Entries)
    requires CountersOk(imports, entries) && Mild(entries, rows)
    ensures CountersOk(imports, rows)
  {
    forall i | i in imports && imports[i].status != Erased ensures CounterOk(i, imports[i], rows) {
      assert CounterOk(i, imports[i], entries);
      CountSame(entries, rows, CreatedIn(i));
      CountSame(entries, rows, InImport(i));
      CountSame(entries, rows, CandidateIn(i));
    }
  }

  lemma MildKeepsItems(
    entries: Entries, batches: Batches, items: Items, unlinked: set<EntryId>, rows: Entries)
    requires ItemsOk(entries, batches, items, unlinked) && Mild(entries, rows)
    ensures ItemsOk(rows, batches, items, unlinked)
  {
    forall k | k in items ensures ItemLinked(k, items[k], rows, batches, unlinked) {
      assert ItemLinked(k, items[k], entries, batches, unlinked);
    }
  }

  lemma MildKeepsBlobs(
    blobs: Blobs, imports: Imports, entries: Entries, holders: Holders, rows: Entries)
    requires BlobsOk(blobs, imports, entries, holders) && Mild(entries, rows)
    ensures BlobsOk(blobs, imports, rows, holders)
  {
    EntriesRewriteKeepsBlobs(blobs, imports, entries, holders, rows);
  }

  lemma Parts(d: Db)
    requires Inv(d)
    ensures BlobsOk(d.blobs, d.imports, d.entries, d.holders)
    ensures ImportsOk(d.imports) && EntriesOk(d.imports, d.entries)
    ensures CountersOk(d.imports, d.entries) && BatchesOk(d.imports, d.batches)
    ensures ItemsOk(d.entries, d.batches, d.items, d.unlinked)
    ensures NamesOk(d.blobs, d.nextBlob, d.entries, d.nextEntry, d.batches, d.mintedBatches)
    ensures TicketsOk(d.imports, d.leases, d.works)
    ensures FactsOk(d.imports, d.derived)
  {}

  lemma MildKeeps(d: Db, rows: Entries)
    requires Inv(d) && Mild(d.entries, rows)
    ensures Inv(d.(entries := rows))
  {
    hide Inv, BlobsOk, ImportsOk, EntriesOk, CountersOk, BatchesOk, ItemsOk, TicketsOk, FactsOk;
    Parts(d);
    MildKeepsBlobs(d.blobs, d.imports, d.entries, d.holders, rows);
    MildKeepsEntries(d.imports, d.entries, rows);
    MildKeepsCounters(d.imports, d.entries, rows);
    MildKeepsItems(d.entries, d.batches, d.items, d.unlinked, rows);
    Assemble(d.(entries := rows));
  }

  /** Rewriting items in place. */
  lemma ItemsWriteKeeps(d: Db, items: Items)
    requires Inv(d) && ItemsOk(d.entries, d.batches, items, d.unlinked)
    ensures Inv(d.(items := items))
  {
    hide Inv, BlobsOk, ImportsOk, EntriesOk, CountersOk, BatchesOk, ItemsOk, NamesOk, TicketsOk,
         FactsOk;
    Parts(d);
    Assemble(d.(items := items));
  }

  /** One item at a time: an item that is in order by itself and with its links. */
  lemma ItemWriteKeeps(d: Db, k: ItemKey, row: Item)
    requires Inv(d) && ItemOk(row)
    requires ItemLinked(k, row, d.entries, d.batches, d.unlinked)
    ensures Inv(d.(items := d.items[k := row]))
  {
    hide Inv, BlobsOk, ImportsOk, EntriesOk, CountersOk, BatchesOk, NamesOk, TicketsOk, FactsOk;
    Parts(d);
    ItemsWriteKeeps(d, d.items[k := row]);
  }

  /** What one item of a valid database satisfies. */
  lemma ItemRow(d: Db, k: ItemKey)
    requires Inv(d) && k in d.items
    ensures ItemOk(d.items[k]) && ItemLinked(k, d.items[k], d.entries, d.batches, d.unlinked)
  {
    hide Inv, BlobsOk, ImportsOk, EntriesOk, CountersOk, BatchesOk, NamesOk, TicketsOk, FactsOk;
    Parts(d);
  }

  lemma EntryRow(d: Db, e: EntryId)
    requires Inv(d) && e in d.entries
    ensures EntryOk(d.entries[e], d.imports)
  {}

  lemma BatchRow(d: Db, b: BatchId)
    requires Inv(d) && b in d.batches
    ensures BatchOk(d.batches[b], d.imports)
  {}

  // ---------------------------------------------------------------- single-item transactions

  lemma SaveDerivedKeeps(d: Db, w: Work, upload: UploadId)
    requires Inv(d)
    ensures Inv(SaveDerived(d, w, upload))
  {
    hide Inv;
    if SaveError(d, w, upload).None? {
      MildKeeps(d, d.entries[w.entry := d.entries[w.entry].(derived := Some(upload))]);
    }
  }

  lemma EntryFailKeeps(d: Db, e: EntryId)
    requires Inv(d) && e in d.entries && d.entries[e].status in {Eligible, EntryFailed}
    ensures Inv(d.(entries := d.entries[e := d.entries[e].(status := EntryFailed)]))
  {
    hide Inv;
    MildKeeps(d, d.entries[e := d.entries[e].(status := EntryFailed)]);
  }

  lemma FailItemKeeps(d: Db, w: Work, retry: bool)
    requires Inv(d)
    ensures Inv(FailItem(d, w, retry))
  {
    hide Inv;
    if WorkLive(d, w) {
      var k := (w.batch, w.entry);
      ItemRow(d, k);
      EntryFailKeeps(d, w.entry);
      var again := retry && d.items[k].attempt < d.items[k].maxAttempts;
      ItemWriteKeeps(d.(entries := d.entries[w.entry := d.entries[w.entry].(status := EntryFailed)]),
        k, d.items[k].(outcome := if again then Pending else ItemFailed, hold := None));
    }
  }

  // ---------------------------------------------------------------- ClaimBatchItem

  lemma SweptEntriesMild(d: Db, batch: BatchId)
    requires Inv(d)
    ensures Mild(d.entries, FailExhausted(d, batch).entries)
  {
    hide Inv;
    forall e | e in d.entries
      ensures MildChange(d.entries[e], FailExhausted(d, batch).entries[e])
    {
      if Exhausted(d, (batch, e)) { ItemRow(d, (batch, e)); }
    }
  }

  lemma FailExhaustedKeeps(d: Db, batch: BatchId)
    requires Inv(d)
    ensures Inv(FailExhausted(d, batch))
  {
    hide Inv, Mild;
    var swept := FailExhausted(d, batch);
    SweptEntriesMild(d, batch);
    MildKeeps(d, swept.entries);
    var m := d.(entries := swept.entries);
    forall k | k in swept.items
      ensures ItemOk(swept.items[k])
      ensures ItemLinked(k, swept.items[k], m.entries, m.batches, m.unlinked)
    {
      ItemRow(m, k);
    }
    CreatedLinked(m);
    ItemsWriteKeeps(m, swept.items);
  }

  lemma CreatedLinked(d: Db)
    requires Inv(d)
    ensures forall e | e in d.entries && d.entries[e].status == Created && e !in d.unlinked ::
              d.entries[e].task.Some?
  {}

  lemma WorkIssueKeepsTickets(d: Db, w: Work)
    requires TicketsOk(d.imports, d.leases, d.works) && WorkOk(w, d.imports)
    ensures TicketsOk(d.imports, d.leases, d.works + {w})
  {}

  lemma WorkIssueKeeps(d: Db, w: Work)
    requires Inv(d) && WorkOk(w, d.imports)
    ensures Inv(d.(works := d.works + {w}))
  {
    hide Inv, BlobsOk, ImportsOk, EntriesOk, CountersOk, BatchesOk, ItemsOk, NamesOk, FactsOk;
    Parts(d);
    WorkIssueKeepsTickets(d, w);
    Assemble(d.(works := d.works + {w}));
  }

  lemma ClaimItemKeeps(
    d: Db, batch: BatchId, choice: Option<EntryId>, owner: Owner, duration: nat)
    requires Inv(d)
    ensures Inv(ClaimItem(d, batch, choice, owner, duration))
  {
    hide Inv, FailExhausted;
    FailExhaustedKeeps(d, batch);
    var swept := FailExhausted(d, batch);
    if choice.Some? && ItemClaimable(swept, (batch, choice.value)) &&
       Readable(swept, (batch, choice.value)) {
      var k := (batch, choice.value);
      ItemRow(swept, k);
      BatchRow(swept, batch);
      ItemWriteKeeps(swept, k, ClaimedItem(swept.items[k], owner, d.now + duration));
      WorkIssueKeeps(
        swept.(items := swept.items[k := ClaimedItem(swept.items[k], owner, d.now + duration)]),
        WorkOf(swept, k, owner));
    }
  }

  // ---------------------------------------------------------------- BeginBatch, CompleteBatch

  lemma BatchWriteKeepsBatches(imports: Imports, batches: Batches, b: BatchId, row: Batch)
    requires BatchesOk(imports, batches) && BatchOk(row, imports)
    requires forall c | c in batches && c != b :: !SameRequest(batches[c], row)
    requires !row.completed && (b !in batches || batches[b].completed) ==>
               Count(batches, ProcessingIn(row.archive)) == 0
    requires b in batches ==> batches[b].archive == row.archive
    ensures BatchesOk(imports, batches[b := row])
  {
    forall i | i in imports ensures Count(batches[b := row], ProcessingIn(i)) <= 1 {
      CountWrite(batches, b, row, ProcessingIn(i));
    }
    forall c | c in batches ensures BatchOk(batches[c], imports) {}
  }

  lemma {:induction false} InsertItemsElsewhere(
    items: Items, batch: BatchId, chosen: seq<EntryId>, entries: Entries)
    requires forall e | e in chosen :: e in entries
    ensures var after := InsertItems(items, batch, chosen, entries);
      && (forall k | k in items && k.0 != batch :: k in after && after[k] == items[k])
      && (forall k | k in after && k.0 != batch :: k in items)
      && (forall k | k in after && k.0 == batch && k !in items :: k.1 in chosen)
  {
    if chosen != [] { InsertItemsElsewhere(items, batch, chosen[..|chosen| - 1], entries); }
  }

  /** Each chosen entry has an item, in the place where it was chosen. */
  lemma {:induction false} InsertItemsChosen(
    items: Items, batch: BatchId, chosen: seq<EntryId>, entries: Entries)
    requires forall e | e in chosen :: e in entries
    ensures var after := InsertItems(items, batch, chosen, entries);
      forall n | 0 <= n < |chosen| ::
        (batch, chosen[n]) in after &&
        exists m :: 0 <= m < |chosen| && chosen[m] == chosen[n] &&
          after[(batch, chosen[n])] == NewItem(m, entries[chosen[n]])
  {
    if chosen != [] {
      var last := |chosen| - 1;
      InsertItemsChosen(items, batch, chosen[..last], entries);
      var before := InsertItems(items, batch, chosen[..last], entries);
      var after := InsertItems(items, batch, chosen, entries);
      forall n | 0 <= n < |chosen|
        ensures (batch, chosen[n]) in after &&
          exists m :: 0 <= m < |chosen| && chosen[m] == chosen[n] &&
            after[(batch, chosen[n])] == NewItem(m, entries[chosen[n]])
      {
        if chosen[n] == chosen[last] {
          assert after[(batch, chosen[n])] == NewItem(last, entries[chosen[n]]);
        } else {
          assert chosen[..last][n] == chosen[n];
          var m :| 0 <= m < last && chosen[..last][m] == chosen[..last][n] &&
            before[(batch, chosen[n])] == NewItem(m, entries[chosen[n]]);
          assert after[(batch, chosen[n])] == NewItem(m, entries[chosen[n]]);
        }
      }
    }
  }

  /** A new batch and its items, against the tables they link to. */
  lemma BeginKeepsItems(
    entries: Entries, batches: Batches, items: Items, unlinked: set<EntryId>, b: BatchId,
    row: Batch, chosen: seq<EntryId>)
    requires ItemsOk(entries, batches, items, unlinked) && b !in batches
    requires forall e | e in chosen ::
               e in entries && entries[e].archive == row.archive && entries[e].status != Skipped
    requires row.completed <==> forall e | e in chosen :: entries[e].status == Created
    ensures ItemsOk(entries, batches[b := row], InsertItems(items, b, chosen, entries), unlinked)
  {
    hide InsertItems, ItemLinked, ItemOk, NewItem;
    InsertItemsElsewhere(items, b, chosen, entries);
    var after := InsertItems(items, b, chosen, entries);
    forall k | k in items ensures k.0 != b {
      assert ItemLinked(k, items[k], entries, batches, unlinked);
      LinkedHere(k, items[k], entries, batches, unlinked);
    }
    forall k | k in after
      ensures ItemOk(after[k]) && ItemLinked(k, after[k], entries, batches[b := row], unlinked)
    {
      if k.0 == b {
        var m := InsertedItem(items, b, chosen, entries, k.1);
        assert k == (b, k.1);
        NewItemLinked(entries, batches, unlinked, b, row, k.1, m);
      } else {
        assert k in items && ItemOk(items[k]);
        assert ItemLinked(k, items[k], entries, batches, unlinked);
        LinkedStill(k, items[k], entries, batches, unlinked, b, row);
      }
    }
  }

  lemma InsertedItem(items: Items, batch: BatchId, chosen: seq<EntryId>, entries: Entries, e: EntryId) returns (m: nat)
    requires (forall f | f in chosen :: f in entries) && e in chosen
    ensures var after := InsertItems(items, batch, chosen, entries);
      (batch, e) in after && after[(batch, e)] == NewItem(m, entries[e])
  {
    hide InsertItems;
    InsertItemsChosen(items, batch, chosen, entries);
    var n :| 0 <= n < |chosen| && chosen[n] == e;
    m :| 0 <= m < |chosen| && chosen[m] == chosen[n] &&
         InsertItems(items, batch, chosen, entries)[(batch, chosen[n])] == NewItem(m, entries[chosen[n]]);
  }

  lemma LinkedHere(k: ItemKey, i: Item, entries: Entries, batches: Batches, unlinked: set<EntryId>)
    requires ItemLinked(k, i, entries, batches, unlinked)
    ensures k.0 in batches
  {}

  lemma LinkedStill(
    k: ItemKey, i: Item, entries: Entries, batches: Batches, unlinked: set<EntryId>, b: BatchId, row: Batch)
    requires ItemLinked(k, i, entries, batches, unlinked) && k.0 != b
    ensures ItemLinked(k, i, entries, batches[b := row], unlinked)
  {}

  lemma NewItemLinked(
    entries: Entries, batches: Batches, unlinked: set<EntryId>, b: BatchId, row: Batch, e: EntryId, n: nat)
    requires e in entries && entries[e].archive == row.archive && entries[e].status != Skipped
    requires entries[e].status == Created || !row.completed
    requires entries[e].status == Created && e !in unlinked ==> entries[e].task.Some?
    ensures ItemOk(NewItem(n, entries[e]))
    ensures ItemLinked((b, e), NewItem(n, entries[e]), entries, batches[b := row], unlinked)
  {}

  lemma BeginRow(d: Db, batch: BatchId, input: BatchInput, fingerprint: string)
    requires BeginError(d, batch, input, fingerprint).None? && FindBatch(d, input).None?
    ensures input.archive in d.imports && d.imports[input.archive].status == Ready
    ensures Count(d.batches, ProcessingIn(input.archive)) == 0
    ensures batch !in d.batches
    ensures forall n | 0 <= n < |input.publicIds| ::
              Selectable(d, input.archive, input.publicIds[n])
    ensures forall c | c in d.batches :: !Requested(d.batches[c], input)
  {}

  lemma BeginCommits(d: Db, batch: BatchId, row: Batch, chosen: seq<EntryId>)
    requires Inv(d) && batch !in d.batches
    requires BatchOk(row, d.imports) && Count(d.batches, ProcessingIn(row.archive)) == 0
    requires forall c | c in d.batches :: !SameRequest(d.batches[c], row)
    requires forall e | e in chosen ::
               e in d.entries && d.entries[e].archive == row.archive &&
               d.entries[e].status != Skipped
    requires row.completed <==> forall e | e in chosen :: d.entries[e].status == Created
    ensures Inv(d.(batches := d.batches[batch := row],
                   items := InsertItems(d.items, batch, chosen, d.entries),
                   mintedBatches := d.mintedBatches + {batch}))
  {
    hide Inv, BlobsOk, ImportsOk, EntriesOk, CountersOk, BatchesOk, ItemsOk, TicketsOk, FactsOk;
    Parts(d);
    BatchWriteKeepsBatches(d.imports, d.batches, batch, row);
    BeginKeepsItems(d.entries, d.batches, d.items, d.unlinked, batch, row, chosen);
    Assemble(d.(batches := d.batches[batch := row],
                items := InsertItems(d.items, batch, chosen, d.entries),
                mintedBatches := d.mintedBatches + {batch}));
  }

  lemma BeginBatchKeeps(d: Db, batch: BatchId, input: BatchInput, fingerprint: string)
    requires Inv(d)
    ensures Inv(BeginBatch(d, batch, input, fingerprint))
  {
    hide Inv, Selectable;
    if BeginError(d, batch, input, fingerprint).None? && FindBatch(d, input).None? {
      BeginRow(d, batch, input, fingerprint);
      ChosenAt(d, input.archive, input.publicIds);
      var chosen := Chosen(d, input.archive, input.publicIds);
      BeginCommits(d, batch, BeginBatch(d, batch, input, fingerprint).batches[batch], chosen);
    }
  }

  lemma CompletedKeepsItems(
    entries: Entries, batches: Batches, items: Items, unlinked: set<EntryId>, b: BatchId)
    requires ItemsOk(entries, batches, items, unlinked) && b in batches
    requires forall k | k in items && k.0 == b :: !Open(items[k].outcome)
    ensures ItemsOk(entries, batches[b := batches[b].(completed := true)], items, unlinked)
  {
    forall k | k in items
      ensures ItemLinked(k, items[k], entries, batches[b := batches[b].(completed := true)], unlinked)
    {
      assert ItemLinked(k, items[k], entries, batches, unlinked);
    }
  }

  lemma CompletedKeepsBatches(imports: Imports, batches: Batches, b: BatchId)
    requires BatchesOk(imports, batches) && b in batches
    ensures BatchesOk(imports, batches[b := batches[b].(completed := true)])
  {
    assert BatchOk(batches[b], imports);
    forall c | c in batches && c != b
      ensures !SameRequest(batches[c], batches[b].(completed := true))
    {
      assert !SameRequest(batches[c], batches[b]);
    }
    BatchWriteKeepsBatches(imports, batches, b, batches[b].(completed := true));
  }

  lemma CompleteBatchKeeps(d: Db, batch: BatchId)
    requires Inv(d)
    ensures Inv(CompleteBatch(d, batch))
  {
    hide Inv, BlobsOk, ImportsOk, EntriesOk, CountersOk, BatchesOk, ItemsOk, TicketsOk, FactsOk;
    if Finished(d, batch) {
      Parts(d);
      CompletedKeepsBatches(d.imports, d.batches, batch);
      CompletedKeepsItems(d.entries, d.batches, d.items, d.unlinked, batch);
      Assemble(CompleteBatch(d, batch));
    }
  }
}
