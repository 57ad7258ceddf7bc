/** Binding an entry to its task, by a batch worker or by reconciliation, and the
    later fate of tasks and derived uploads, keep the invariant. */
module ArchiveBindSteps {
  import opened Counting
  import opened ArchiveDb
  import opened ArchiveTransactions
  import opened ArchiveInvariant
  import opened ArchiveImportSteps
  import opened ArchiveEntrySteps
  import opened ArchiveBatchSteps

  ghost function BoundEntry(e: Entry, upload: UploadId, task: TaskId): Entry {
    e.(status := Created, derived := Some(upload), task := Some(task), released := true)
  }

  /** When an entry may be bound to a task. */
  ghost predicate Bindable(d: Db, e: EntryId, upload: UploadId, task: TaskId) {
    && e in d.entries && BindError(d, e, upload, task).None?
    && d.entries[e].archive in d.imports
    && d.imports[d.entries[e].archive].status in {Ready, Tombstoned}
  }

  ghost function BoundImports(d: Db, e: EntryId): Imports
    requires e in d.entries && d.entries[e].archive in d.imports
  {
    var a := d.entries[e].archive;
    if d.entries[e].status == Created then d.imports
    else d.imports[a := d.imports[a].(createdTasks := d.imports[a].createdTasks + 1)]
  }

  lemma BindKeepsEntries(
    imports: Imports, entries: Entries, e: EntryId, upload: UploadId, task: TaskId)
    requires EntriesOk(imports, entries) && e in entries && entries[e].blob.Some?
    requires entries[e].archive in imports
    requires imports[entries[e].archive].status in {Ready, Tombstoned}
    requires forall f | f in entries && f != e :: entries[f].task != Some(task)
    ensures EntriesOk(imports, entries[e := BoundEntry(entries[e], upload, task)])
  {
    var rows := entries[e := BoundEntry(entries[e], upload, task)];
    assert EntryOk(entries[e], imports);
    forall f | f in rows ensures EntryOk(rows[f], imports) {
      if f != e { assert EntryOk(entries[f], imports); }
    }
    forall f, g | f in rows && g in rows && SameKey(rows[f], rows[g]) ensures f == g {
      assert SameKey(entries[f], entries[g]) || f == g;
    }
  }

  lemma BindCounts(entries: Entries, e: EntryId, row: Entry, i: ImportId)
    requires e in entries && row.archive == entries[e].archive
    requires row.status == Created && entries[e].status != Skipped
    ensures Count(entries[e := row], CreatedIn(i)) ==
            Count(entries, CreatedIn(i)) +
            One(row.archive == i && entries[e].status != Created)
    ensures Count(entries[e := row], InImport(i)) == Count(entries, InImport(i))
    ensures Count(entries[e := row], CandidateIn(i)) == Count(entries, CandidateIn(i))
  {
    CountWrite(entries, e, row, CreatedIn(i));
    CountWrite(entries, e, row, InImport(i));
    CountWrite(entries, e, row, CandidateIn(i));
  }

  lemma BindKeepsCounters(d: Db, e: EntryId, row: Entry)
    requires CountersOk(d.imports, d.entries) && e in d.entries
    requires d.entries[e].archive in d.imports && row.archive == d.entries[e].archive
    requires row.status == Created && d.entries[e].status != Skipped
    ensures CountersOk(BoundImports(d, e), d.entries[e := row])
  {
    var rows := BoundImports(d, e);
    forall i | i in rows && rows[i].status != Erased ensures CounterOk(i, rows[i], d.entries[e := row]) {
      assert CounterOk(i, d.imports[i], d.entries);
      BindCounts(d.entries, e, row, i);
    }
  }

  lemma BindKeepsImports(d: Db, e: EntryId)
    requires ImportsOk(d.imports) && BatchesOk(d.imports, d.batches)
    requires TicketsOk(d.imports, d.leases, d.works) && FactsOk(d.imports, d.derived)
    requires e in d.entries && d.entries[e].archive in d.imports
    ensures ImportsOk(BoundImports(d, e)) && BatchesOk(BoundImports(d, e), d.batches)
    ensures TicketsOk(BoundImports(d, e), d.leases, d.works) && FactsOk(BoundImports(d, e), d.derived)
  {
    hide ImportsOk, BatchesOk, TicketsOk, FactsOk;
    var a := d.entries[e].archive;
    var row := d.imports[a].(createdTasks := d.imports[a].createdTasks + 1);
    ImportRowOk(d.imports, a);
    ImportWriteKeepsImports(d.imports, a, row);
    ImportWriteKeepsBatchesQuietly(d.imports, d.batches, a, row);
    ImportWriteKeepsTickets(d.imports, d.leases, d.works, d.derived, a, row);
  }

  lemma ImportRowOk(imports: Imports, a: ImportId)
    requires ImportsOk(imports) && a in imports
    ensures ImportOk(imports[a])
  {}

  lemma ImportWriteKeepsBatchesQuietly(imports: Imports, batches: Batches, i: ImportId, row: Import)
    requires BatchesOk(imports, batches) && i in imports && row.status == imports[i].status
    ensures BatchesOk(imports[i := row], batches)
  {
    forall b | b in batches ensures BatchOk(batches[b], imports[i := row]) {
      assert BatchOk(batches[b], imports);
    }
  }

  lemma BindKeepsAllBlobs(d: Db, e: EntryId, upload: UploadId, task: TaskId)
    requires BlobsOk(d.blobs, d.imports, d.entries, d.holders)
    requires e in d.entries && d.entries[e].archive in d.imports && d.entries[e].blob.Some?
    ensures var n := BindEntry(d, e, upload, task); BlobsOk(n.blobs, n.imports, n.entries, n.holders)
  {
    hide BlobsOk;
    var row := BoundEntry(d.entries[e], upload, task);
    var a := d.entries[e].archive;
    BindKeepsBlobs(d.blobs, d.imports, d.entries, d.holders, e, row);
    QuietWriteKeepsBlobs(
      if d.entries[e].released then d.blobs else ReleaseOne(d.blobs, d.entries[e].blob.value),
      d.imports, d.entries[e := row], d.holders, a,
      d.imports[a].(createdTasks := d.imports[a].createdTasks + 1));
  }

  lemma BindKeepsAllEntries(d: Db, e: EntryId, upload: UploadId, task: TaskId)
    requires EntriesOk(d.imports, d.entries) && Bindable(d, e, upload, task)
    ensures var n := BindEntry(d, e, upload, task); EntriesOk(n.imports, n.entries)
  {
    hide EntriesOk;
    BindKeepsEntries(d.imports, d.entries, e, upload, task);
    BoundKeepsEntries(d, e, d.entries[e := BoundEntry(d.entries[e], upload, task)]);
  }

  lemma BoundKeepsEntries(d: Db, e: EntryId, rows: Entries)
    requires e in d.entries && d.entries[e].archive in d.imports && EntriesOk(d.imports, rows)
    ensures EntriesOk(BoundImports(d, e), rows)
  {
    forall f | f in rows ensures EntryOk(rows[f], BoundImports(d, e)) {
      assert EntryOk(rows[f], d.imports);
    }
  }

  lemma BindKeepsAllCounters(d: Db, e: EntryId, upload: UploadId, task: TaskId)
    requires CountersOk(d.imports, d.entries) && Bindable(d, e, upload, task)
    requires d.entries[e].status != Skipped
    ensures var n := BindEntry(d, e, upload, task); CountersOk(n.imports, n.entries)
  {
    BindKeepsCounters(d, e, BoundEntry(d.entries[e], upload, task));
  }

  lemma BindKeepsAllImports(d: Db, e: EntryId, upload: UploadId, task: TaskId)
    requires ImportsOk(d.imports) && BatchesOk(d.imports, d.batches)
    requires TicketsOk(d.imports, d.leases, d.works) && FactsOk(d.imports, d.derived)
    requires e in d.entries && d.entries[e].archive in d.imports && d.entries[e].blob.Some?
    ensures var n := BindEntry(d, e, upload, task);
      && ImportsOk(n.imports) && BatchesOk(n.imports, n.batches)
      && TicketsOk(n.imports, n.leases, n.works) && FactsOk(n.imports, n.derived)
  {
    hide ImportsOk, BatchesOk, TicketsOk, FactsOk;
    BindKeepsImports(d, e);
  }

  lemma BindKeepsNames(d: Db, e: EntryId, upload: UploadId, task: TaskId)
    requires NamesOk(d.blobs, d.nextBlob, d.entries, d.nextEntry, d.batches, d.mintedBatches)
    requires e in d.entries && d.entries[e].blob.Some?
    ensures var n := BindEntry(d, e, upload, task);
      && NamesOk(n.blobs, n.nextBlob, n.entries, n.nextEntry, n.batches, n.mintedBatches)
      && n.batches == d.batches && n.unlinked == d.unlinked
      && n.entries == d.entries[e := BoundEntry(d.entries[e], upload, task)]
  {}

  /** Binding keeps the invariant once the items have been brought into line. */
  lemma BindKeeps(d: Db, e: EntryId, upload: UploadId, task: TaskId, items: Items)
    requires Inv(d) && Bindable(d, e, upload, task) && d.entries[e].blob.Some?
    requires ItemsOk(d.entries[e := BoundEntry(d.entries[e], upload, task)], d.batches, items,
                     d.unlinked)
    ensures Inv(BindEntry(d, e, upload, task).(items := items))
  {
    hide Inv, BlobsOk, ImportsOk, EntriesOk, CountersOk, BatchesOk, ItemsOk, NamesOk, TicketsOk,
         FactsOk, BindEntry, BindError;
    Parts(d);
    EntryRow(d, e);
    BindKeepsAllBlobs(d, e, upload, task);
    BindKeepsAllEntries(d, e, upload, task);
    BindKeepsAllCounters(d, e, upload, task);
    BindKeepsAllImports(d, e, upload, task);
    BindKeepsNames(d, e, upload, task);
    Assemble(BindEntry(d, e, upload, task).(items := items));
  }

  // ---------------------------------------------------------------- FinalizeBatchItem

  /** One open item per entry: two would sit in two processing batches of one import. */
  lemma OpenItemUnique(d: Db, k: ItemKey, l: ItemKey)
    requires Inv(d) && k in d.items && l in d.items && k.1 == l.1
    requires Open(d.items[k].outcome) && Open(d.items[l].outcome)
    ensures k == l
  {
    hide Inv;
    ItemRow(d, k);
    ItemRow(d, l);
    var a := d.batches[k.0].archive;
    BatchRow(d, k.0);
    OneProcessing(d, a);
    CountAtMostOne(d.batches, ProcessingIn(a), k.0, l.0);
  }

  lemma OneProcessing(d: Db, a: ImportId)
    requires Inv(d) && a in d.imports
    ensures Count(d.batches, ProcessingIn(a)) <= 1
  {}

  lemma FinalizeKeepsItems(
    d: Db, k: ItemKey, upload: UploadId, task: TaskId, row: Item)
    requires Inv(d) && k in d.items && d.items[k].outcome == Processing
    requires ItemOk(row) && row.outcome in {CreatedTask, Existing} && row.task == Some(task)
    ensures k.1 in d.entries
    ensures ItemsOk(d.entries[k.1 := BoundEntry(d.entries[k.1], upload, task)], d.batches,
                    d.items[k := row], d.unlinked)
  {
    hide Inv;
    ItemRow(d, k);
    var rows := d.entries[k.1 := BoundEntry(d.entries[k.1], upload, task)];
    var items := d.items[k := row];
    forall l | l in items
      ensures ItemOk(items[l]) && ItemLinked(l, items[l], rows, d.batches, d.unlinked)
    {
      if l != k {
        ItemRow(d, l);
        if l.1 == k.1 && Open(d.items[l].outcome) { OpenItemUnique(d, k, l); }
      }
    }
    CreatedLinked(d);
  }

  lemma FinalizeItemKeeps(d: Db, w: Work, upload: UploadId, task: TaskId, created: bool)
    requires Inv(d)
    ensures Inv(FinalizeItem(d, w, upload, task, created))
  {
    hide Inv, BindError, BindEntry;
    if FinalizeError(d, w, upload, task).None? {
      var k := (w.batch, w.entry);
      ItemRow(d, k);
      BatchRow(d, w.batch);
      BindNeedsBlob(d, w.entry, upload, task);
      var row := d.items[k].(outcome := if created then CreatedTask else Existing,
                             task := Some(task), hold := None);
      FinalizeKeepsItems(d, k, upload, task, row);
      BindKeeps(d, w.entry, upload, task, d.items[k := row]);
    }
  }

  lemma BindNeedsBlob(d: Db, e: EntryId, upload: UploadId, task: TaskId)
    requires e in d.entries && BindError(d, e, upload, task).None?
    ensures d.entries[e].blob.Some?
    ensures d.entries[e].task.Some? ==> d.entries[e].task == Some(task)
  {}

  // ---------------------------------------------------------------- ReconcileEntryFact

  /** A fact about an entry speaks for an import that has been ready. */
  lemma FactSettles(d: Db, e: EntryId, u: UploadId)
    requires Inv(d) && Joined(d, e) && d.entries[e].blob.Some? && u in Candidates(d, e)
    ensures d.imports[d.entries[e].archive].status in {Ready, Tombstoned}
  {
    hide Inv, BlobsOk, CountersOk, BatchesOk, ItemsOk, NamesOk, TicketsOk;
    Parts(d);
    EntryRow(d, e);
    assert FactOk(d.derived[u], d.imports);
  }

  lemma AdoptKeepsItems(d: Db, e: EntryId, upload: UploadId, task: TaskId)
    requires Inv(d) && e in d.entries && d.entries[e].status != Skipped
    requires d.entries[e].task.Some? ==> d.entries[e].task == Some(task)
    ensures ItemsOk(d.entries[e := BoundEntry(d.entries[e], upload, task)], d.batches,
                    AdoptItems(d.items, e, task), d.unlinked)
  {
    hide Inv;
    var rows := d.entries[e := BoundEntry(d.entries[e], upload, task)];
    var items := AdoptItems(d.items, e, task);
    forall l | l in items
      ensures ItemOk(items[l]) && ItemLinked(l, items[l], rows, d.batches, d.unlinked)
    {
      ItemRow(d, l);
      if l.1 == e { CreatedLinked(d); }
    }
    CreatedLinked(d);
  }

  lemma ReconcileKeeps(d: Db, e: EntryId)
    requires Inv(d)
    ensures Inv(Reconcile(d, e))
  {
    hide Inv, BindError, BindEntry, AdoptItems, Reconcile;
    var task, upload := ReconcileOutcome(d, e);
    if task.Some? {
      var t := task.value;
      FactSettles(d, e, d.tasks[t]);
      BindNeedsBlob(d, e, d.tasks[t], t);
      EntryRow(d, e);
      AdoptKeepsItems(d, e, d.tasks[t], t);
      BindKeeps(d, e, d.tasks[t], t, AdoptItems(d.items, e, t));
    } else if upload.Some? {
      MildKeeps(d, LinkFact(d, e, upload.value).entries);
    }
  }

  // ---------------------------------------------------------------- tasks and derived uploads

  lemma FactsWriteKeeps(d: Db, derived: map<UploadId, Derived>, tasks: map<TaskId, UploadId>)
    requires Inv(d) && FactsOk(d.imports, derived)
    ensures Inv(d.(derived := derived, tasks := tasks))
  {
    hide Inv, BlobsOk, ImportsOk, EntriesOk, CountersOk, BatchesOk, ItemsOk, NamesOk, TicketsOk,
         FactsOk;
    Parts(d);
    Assemble(d.(derived := derived, tasks := tasks));
  }

  lemma FactRow(d: Db, u: UploadId)
    requires Inv(d) && u in d.derived
    ensures FactOk(d.derived[u], d.imports)
  {}

  lemma AllFacts(d: Db)
    requires Inv(d)
    ensures FactsOk(d.imports, d.derived)
  {}

  lemma FactWriteKeepsFacts(
    imports: Imports, derived: map<UploadId, Derived>, u: UploadId, row: Derived)
    requires FactsOk(imports, derived) && FactOk(row, imports)
    ensures FactsOk(imports, derived[u := row])
  {}

  lemma DeriveKeeps(d: Db, w: Work, u: UploadId, completed: bool)
    requires Inv(d)
    ensures Inv(Derive(d, w, u, completed))
  {
    hide Inv, FactsOk;
    if w in d.works && u !in d.derived {
      WorkRow(d, w);
      AllFacts(d);
      FactWriteKeepsFacts(d.imports, d.derived, u, Derived(w.origin, completed, false));
      FactsWriteKeeps(d, d.derived[u := Derived(w.origin, completed, false)], d.tasks);
    }
  }

  lemma WorkRow(d: Db, w: Work)
    requires Inv(d) && w in d.works
    ensures WorkOk(w, d.imports)
  {}

  lemma DeriveStatusKeeps(d: Db, u: UploadId, completed: bool, cancelled: bool)
    requires Inv(d)
    ensures Inv(DeriveStatus(d, u, completed, cancelled))
  {
    hide Inv, FactsOk;
    if u in d.derived {
      FactRow(d, u);
      AllFacts(d);
      var row := Derived(d.derived[u].origin, completed, cancelled);
      FactWriteKeepsFacts(d.imports, d.derived, u, row);
      FactsWriteKeeps(d, d.derived[u := row], d.tasks);
    }
  }

  lemma DeriveTaskKeeps(d: Db, u: UploadId, t: TaskId)
    requires Inv(d)
    ensures Inv(DeriveTask(d, u, t))
  {
    hide Inv, FactsOk;
    AllFacts(d);
    if u in d.derived && t !in d.tasks { FactsWriteKeeps(d, d.derived, d.tasks[t := u]); }
  }

  lemma DerivedGoneKeeps(d: Db, u: UploadId)
    requires Inv(d)
    ensures Inv(DerivedGone(d, u))
  {
    hide Inv;
    if !exists t :: t in d.tasks && d.tasks[t] == u {
      MildKeeps(d, UnlinkUpload(d.entries, u));
      AllFacts(d);
      FactsWriteKeeps(d.(entries := UnlinkUpload(d.entries, u)), d.derived - {u}, d.tasks);
    }
  }

  lemma UnlinkKeepsEntries(d: Db, t: TaskId)
    requires EntriesOk(d.imports, d.entries)
    ensures EntriesOk(d.imports, TaskGone(d, t).entries)
  {
    var rows := TaskGone(d, t).entries;
    forall e | e in rows ensures EntryOk(rows[e], d.imports) {
      assert EntryOk(d.entries[e], d.imports);
    }
    forall e, f | e in rows && f in rows && SameKey(rows[e], rows[f]) ensures e == f {
      assert SameKey(d.entries[e], d.entries[f]);
    }
  }

  lemma UnlinkKeepsCounters(d: Db, t: TaskId)
    requires CountersOk(d.imports, d.entries)
    ensures CountersOk(d.imports, TaskGone(d, t).entries)
  {
    var rows := TaskGone(d, t).entries;
    forall i | i in d.imports && d.imports[i].status != Erased
      ensures CounterOk(i, d.imports[i], rows)
    {
      assert CounterOk(i, d.imports[i], d.entries);
      CountSame(d.entries, rows, CreatedIn(i));
      CountSame(d.entries, rows, InImport(i));
      CountSame(d.entries, rows, CandidateIn(i));
    }
  }

  lemma UnlinkKeepsItems(d: Db, t: TaskId)
    requires ItemsOk(d.entries, d.batches, d.items, d.unlinked)
    ensures var n := TaskGone(d, t); ItemsOk(n.entries, n.batches, n.items, n.unlinked)
  {
    var n := TaskGone(d, t);
    forall k | k in n.items
      ensures ItemOk(n.items[k]) && ItemLinked(k, n.items[k], n.entries, n.batches, n.unlinked)
    {
      assert ItemLinked(k, d.items[k], d.entries, d.batches, d.unlinked);
    }
  }

  lemma UnlinkKeepsBlobs(d: Db, t: TaskId)
    requires BlobsOk(d.blobs, d.imports, d.entries, d.holders)
    ensures BlobsOk(d.blobs, d.imports, TaskGone(d, t).entries, d.holders)
  {
    EntriesRewriteKeepsBlobs(d.blobs, d.imports, d.entries, d.holders, TaskGone(d, t).entries);
  }

  lemma TaskGoneKeeps(d: Db, t: TaskId)
    requires Inv(d)
    ensures Inv(TaskGone(d, t))
  {
    hide Inv, BlobsOk, ImportsOk, EntriesOk, CountersOk, BatchesOk, ItemsOk, TicketsOk, FactsOk;
    Parts(d);
    UnlinkKeepsBlobs(d, t);
    UnlinkKeepsEntries(d, t);
    UnlinkKeepsCounters(d, t);
    UnlinkKeepsItems(d, t);
    Assemble(TaskGone(d, t));
  }
}
