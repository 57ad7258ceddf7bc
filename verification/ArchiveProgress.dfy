/** Batch processing makes progress and ends: while a batch is open and nobody holds
    one of its items, a worker can either claim an item or complete the batch; and all
    workers together claim no more often than the items' attempts allow. */
module ArchiveProgress {
  import opened Counting
  import opened ArchiveDb
  import opened ArchiveTransactions
  import opened ArchiveBatchSteps
  import opened ArchiveBindSteps
  import opened ArchiveRuns
  import opened ArchiveLifecycle

  // ---------------------------------------------------------------- uploads of imports

  /** The upload of every import is on file. */
  ghost predicate UploadsOnFile(d: Db) {
    forall i | i in d.imports :: d.imports[i].upload in d.uploads
  }

  lemma UploadsStep(d: Db, ev: Event)
    requires UploadsOnFile(d)
    ensures UploadsOnFile(Next(d, ev))
  {
    hide Ensure;
    if ev.EnsureImport? {
      EnsureOnFile(d, ev.id, ev.input);
    } else {
      OthersOnFile(d, ev);
    }
  }

  lemma UploadsKept(d: Db, ev: Event)
    requires !ev.EnsureImport?
    ensures d.uploads.Keys <= Next(d, ev).uploads.Keys
  {
    hide Ensure, Claim, Heartbeat, Reset, Persist, Complete, FailLease, RecoverExpired,
         MarkBlobDeleted, BeginBatch, ClaimItem, SaveDerived, FinalizeItem, FailItem,
         CompleteBatch, Reconcile, PrepareDelete, FinalizeDelete, Derive, DeriveStatus,
         DeriveTask, TaskGone, DerivedGone, OtherRetain, OtherRelease, OtherStage, OtherPublish, KeepsImports, KeepsEntries;
  }

  lemma NoImportAppears(d: Db, ev: Event)
    requires !ev.EnsureImport?
    ensures Next(d, ev).imports.Keys == d.imports.Keys
  {
    hide Next;
    if TouchesImports(ev) { SameImportIds(d, ev); } else { ImportsKept(d, ev); }
  }

  lemma SameImportIds(d: Db, ev: Event)
    requires TouchesImports(ev) && !ev.EnsureImport?
    ensures Next(d, ev).imports.Keys == d.imports.Keys
  {
    hide KeepsImports, KeepsEntries, Ensure, Claim, Heartbeat, Reset, Persist, Complete, FailLease, RecoverExpired,
         MarkBlobDeleted, BeginBatch, ClaimItem, SaveDerived, FinalizeItem, FailItem,
         CompleteBatch, Reconcile, PrepareDelete, FinalizeDelete, Derive, DeriveStatus,
         DeriveTask, TaskGone, DerivedGone, OtherRetain, OtherRelease, OtherStage, OtherPublish;
  }

  lemma OthersOnFile(d: Db, ev: Event)
    requires UploadsOnFile(d) && !ev.EnsureImport?
    ensures UploadsOnFile(Next(d, ev))
  {
    hide Next, Moves;
    UploadsKept(d, ev);
    NoImportAppears(d, ev);
    forall i | i in Next(d, ev).imports
      ensures Next(d, ev).imports[i].upload in Next(d, ev).uploads
    {
      ImportMoves(d, ev, i);
      SameUpload(d, Next(d, ev), i);
    }
  }

  lemma SameUpload(d: Db, n: Db, i: ImportId)
    requires Moves(d, n, i)
    ensures n.imports[i].upload == d.imports[i].upload
  {}

  lemma EnsureOnFile(d: Db, id: ImportId, input: EnsureInput)
    requires UploadsOnFile(d)
    ensures UploadsOnFile(Ensure(d, id, input))
  {
    hide UploadsOnFile, EnsureError, FindImport, LinkUpload, AddImport;
    if EnsureError(d, id, input).None? {
      EnsureAddsOnly(d, id, input);
      match FindImport(d, input.upload)
      case Some(i) => LinkOnFile(d, input.upload, i);
      case None =>
        var blob := d.uploads[input.upload].blob.value;
        AddOnFile(d, id, input, blob);
        LinkOnFile(AddImport(d, id, input, blob), input.upload, id);
    }
  }

  lemma LinkOnFile(d: Db, u: UploadId, id: ImportId)
    requires UploadsOnFile(d) && u in d.uploads
    ensures UploadsOnFile(LinkUpload(d, u, id))
  {}

  lemma AddOnFile(d: Db, id: ImportId, input: EnsureInput, blob: BlobId)
    requires UploadsOnFile(d) && blob in d.blobs && input.upload in d.uploads
    ensures UploadsOnFile(AddImport(d, id, input, blob))
    ensures input.upload in AddImport(d, id, input, blob).uploads
  {}

  lemma StartOnFile() ensures UploadsOnFile(Start()) {}

  lemma {:induction false} UploadsStay(d: Db, evs: seq<Event>)
    requires UploadsOnFile(d)
    ensures UploadsOnFile(Run(d, evs))
  {
    if evs != [] {
      UploadsStay(d, evs[..|evs| - 1]);
      UploadsStep(Run(d, evs[..|evs| - 1]), evs[|evs| - 1]);
    }
  }

  // ---------------------------------------------------------------- progress

  /** No worker holds an unexpired lease on an item of the batch. */
  predicate NobodyWorks(d: Db, b: BatchId) {
    forall k | k in d.items && k.0 == b && d.items[k].outcome == Processing ::
      Expired(d, d.items[k].hold)
  }

  /** An item still open once the batch has been swept can be claimed. */
  lemma OpenIsClaimable(d: Db, b: BatchId, k: ItemKey)
    requires Inv(d) && UploadsOnFile(d) && NobodyWorks(d, b)
    requires k in d.items && k.0 == b && Open(FailExhausted(d, b).items[k].outcome)
    ensures ItemClaimable(FailExhausted(d, b), k) && Readable(FailExhausted(d, b), k)
  {
    hide Inv;
    ItemRow(d, k);
    EntryRow(d, k.1);
  }

  /** ClaimBatchItem finds an item that CompleteBatch would trip over, and the other
      way round: a quiet open batch always moves. */
  lemma BatchMoves(evs: seq<Event>, b: BatchId, owner: Owner, duration: nat)
    requires var d := Run(Start(), evs);
      b in d.batches && !d.batches[b].completed && NobodyWorks(d, b)
    ensures var d := Run(Start(), evs);
      || (b in CompleteBatch(FailExhausted(d, b), b).batches &&
          CompleteBatch(FailExhausted(d, b), b).batches[b].completed)
      || (exists k | k in d.items :: k.0 == b &&
            var n := ClaimItem(d, b, Some(k.1), owner, duration);
            k in n.items && n.items[k].outcome == Processing &&
            n.items[k].hold == Some(Hold(owner, d.now + duration)) &&
            n.items[k].attempt == d.items[k].attempt + 1)
  {
    hide Inv, Run, Start, UploadsOnFile, FailExhausted, Readable, ItemClaimable, ClaimItem;
    StartOk();
    RunKeeps(Start(), evs);
    StartOnFile();
    UploadsStay(Start(), evs);
    var d := Run(Start(), evs);
    var swept := FailExhausted(d, b);
    if !Finished(swept, b) {
      SweptKeys(d, b);
      var k :| k in swept.items && k.0 == b && Open(swept.items[k].outcome);
      OpenIsClaimable(d, b, k);
      ClaimSucceeds(d, b, k, owner, duration);
    }
  }

  lemma SweptKeys(d: Db, b: BatchId)
    ensures FailExhausted(d, b).items.Keys == d.items.Keys
    ensures FailExhausted(d, b).batches == d.batches
  {}

  lemma ClaimSucceeds(d: Db, b: BatchId, k: ItemKey, owner: Owner, duration: nat)
    requires k in d.items && k.0 == b
    requires ItemClaimable(FailExhausted(d, b), k) && Readable(FailExhausted(d, b), k)
    ensures var n := ClaimItem(d, b, Some(k.1), owner, duration);
      k in n.items && n.items[k].outcome == Processing &&
      n.items[k].hold == Some(Hold(owner, d.now + duration)) &&
      n.items[k].attempt == d.items[k].attempt + 1
  {
    hide Readable, WorkOf;
    assert k == (b, k.1);
  }

  // ---------------------------------------------------------------- termination

  ghost function BatchItems(items: map<ItemKey, Item>, b: BatchId): map<ItemKey, Item> {
    map k | k in items && k.0 == b :: items[k]
  }

  ghost function Left(): Item -> nat {
    (i: Item) => if i.attempt < i.maxAttempts then i.maxAttempts - i.attempt else 0
  }

  /** The claims that the items of a batch still allow. */
  ghost function Budget(d: Db, b: BatchId): nat { Sum(BatchItems(d.items, b), Left()) }

  /** No item of batch `b` appears, gets more attempts or loses one. */
  ghost predicate Spends(d: Db, n: Db, b: BatchId) {
    forall k | k in n.items && k.0 == b :: k in d.items && ItemSpends(d.items[k], n.items[k])
  }

  predicate ItemSpends(was: Item, row: Item) {
    row.maxAttempts == was.maxAttempts && row.attempt >= was.attempt
  }

  /** Some item of the batch was claimed: its attempt count went up, within its limit. */
  ghost predicate Claimed(d: Db, n: Db, b: BatchId) {
    exists k | k in d.items && k in n.items ::
      k.0 == b && d.items[k].attempt < n.items[k].attempt <= d.items[k].maxAttempts
  }

  lemma ResetSpends(d: Db, l: Lease, b: BatchId) ensures Spends(d, Reset(d, l), b) {
    hide ReleaseEntries, EntriesOf, Live;
    LeaseRow(d, l);
  }

  lemma LeaseRow(d: Db, l: Lease) ensures Live(d, l) ==> l.id in d.imports {}

  lemma EraseSpends(d: Db, u: UploadId, b: BatchId) ensures Spends(d, FinalizeDelete(d, u), b) {
    hide ReleaseEntries, EntriesOf, BatchesOf, FinalizeDeleteError, FindImport, ReleaseSource;
    if FinalizeDeleteError(d, u).None? && FindImport(d, u).Some? { ErasedStatus(d, u); }
  }

  lemma BeginSpends(d: Db, c: BatchId, request: BatchInput, fingerprint: string, b: BatchId)
    requires b != c
    ensures Spends(d, BeginBatch(d, c, request, fingerprint), b)
  {
    hide BeginError, FindBatch, Chosen, InsertItems, Selectable;
    if BeginError(d, c, request, fingerprint).None? && FindBatch(d, request).None? {
      BeginRow(d, c, request, fingerprint);
      ChosenAt(d, request.archive, request.publicIds);
      InsertElsewhere(d.items, c, Chosen(d, request.archive, request.publicIds), d.entries);
    }
  }

  lemma {:induction false} InsertElsewhere(
    items: map<ItemKey, Item>, c: BatchId, chosen: seq<EntryId>, entries: map<EntryId, Entry>)
    requires forall e | e in chosen :: e in entries
    ensures forall k | k in InsertItems(items, c, chosen, entries) && k.0 != c ::
              k in items && InsertItems(items, c, chosen, entries)[k] == items[k]
  {
    if chosen != [] { InsertElsewhere(items, c, chosen[..|chosen| - 1], entries); }
  }

  lemma SweepSpends(d: Db, c: BatchId, b: BatchId) ensures Spends(d, FailExhausted(d, c), b) {
    hide Exhausted;
  }

  lemma ClaimSpends(
    d: Db, c: BatchId, choice: Option<EntryId>, owner: Owner, duration: nat, b: BatchId)
    ensures Spends(d, ClaimItem(d, c, choice, owner, duration), b)
  {
    hide FailExhausted, Readable, WorkOf;
    SweepSpends(d, c, b);
  }

  lemma FailWorkSpends(d: Db, w: Work, retry: bool, b: BatchId)
    ensures Spends(d, FailItem(d, w, retry), b)
  {
    hide WorkLive;
    WorkItem(d, w);
  }

  lemma WorkItem(d: Db, w: Work)
    ensures WorkLive(d, w) ==> (w.batch, w.entry) in d.items
  {}

  lemma FinalizeSpends(d: Db, w: Work, u: UploadId, t: TaskId, created: bool, b: BatchId)
    ensures Spends(d, FinalizeItem(d, w, u, t, created), b)
  {
    hide WorkLive, BindEntry, BindError;
    WorkItem(d, w);
    if FinalizeError(d, w, u, t).None? { BindNeedsBlob(d, w.entry, u, t); }
  }

  lemma ReconcileSpends(d: Db, e: EntryId, b: BatchId)
    ensures Spends(d, Reconcile(d, e), b)
  {
    hide Reconcile, BindEntry, BindError, TaskFacts;
    var task, upload := ReconcileOutcome(d, e);
    AdoptedSpend(d, e, b);
  }

  lemma AdoptedSpend(d: Db, e: EntryId, b: BatchId)
    ensures forall t: TaskId, k | k in d.items ::
              ItemSpends(d.items[k], AdoptItems(d.items, e, t)[k])
  {}

  lemma UnlinkSpends(d: Db, t: TaskId, b: BatchId) ensures Spends(d, TaskGone(d, t), b) {}

  lemma SameItems(d: Db, n: Db, b: BatchId)
    requires n.items == d.items
    ensures Spends(d, n, b)
  {}

  lemma SpendsStep(d: Db, ev: Event, b: BatchId)
    requires b in d.mintedBatches
    ensures Spends(d, Next(d, ev), b)
  {
    hide Spends, KeepsImports, KeepsUploads, KeepsEntries,
         Ensure, Claim, Heartbeat, Reset, Persist, Complete, FailLease, RecoverExpired,
         MarkBlobDeleted, BeginBatch, ClaimItem, SaveDerived, FinalizeItem, FailItem,
         CompleteBatch, Reconcile, PrepareDelete, FinalizeDelete, Derive, DeriveStatus,
         DeriveTask, TaskGone, DerivedGone, OtherRetain, OtherRelease, OtherStage, OtherPublish;
    SameItems(d, d, b);
    if !Enabled(d, ev) { return; }
    if !TouchesItems(ev) {
      ItemsKept(d, ev);
      SameItems(d, Next(d, ev), b);
      return;
    }
    match ev
    case ResetImport(l) => ResetSpends(d, l, b);
    case Begin(c, request, fingerprint) => BeginSpends(d, c, request, fingerprint, b);
    case ClaimWork(c, choice, owner, duration) => ClaimSpends(d, c, choice, owner, duration, b);
    case FailWork(w, retry) => FailWorkSpends(d, w, retry, b);
    case Finalize(w, u, t, created) => FinalizeSpends(d, w, u, t, created, b);
    case ReconcileEntry(e) => ReconcileSpends(d, e, b);
    case Erase(u) => EraseSpends(d, u, b);
    case TaskRowGone(t) => UnlinkSpends(d, t, b);
  }

  /** A step spends at least one unit of the budget of a batch it claims an item of,
      and never adds to it. */
  lemma BudgetStep(d: Db, n: Db, b: BatchId)
    requires Spends(d, n, b)
    ensures Budget(n, b) + One(Claimed(d, n, b)) <= Budget(d, b)
  {
    var was, rows := BatchItems(d.items, b), BatchItems(n.items, b);
    assert forall k | k in rows :: ItemSpends(was[k], rows[k]);
    SumShrinks(was, rows, Left());
    if Claimed(d, n, b) {
      var k :| k in d.items && k in n.items && k.0 == b &&
        d.items[k].attempt < n.items[k].attempt <= d.items[k].maxAttempts;
      assert k in rows && rows[k] == n.items[k] && was[k] == d.items[k];
      SumShrinksAt(was, rows, Left(), k);
    }
  }

  /** The claims of items of batch `b`, by any worker, during a run. */
  ghost function Takes(d: Db, evs: seq<Event>, b: BatchId): nat {
    if evs == [] then 0 else
    var before := Run(d, evs[..|evs| - 1]);
    Takes(d, evs[..|evs| - 1], b) + One(Claimed(before, Next(before, evs[|evs| - 1]), b))
  }

  /** Ids once handed out stay so. */
  lemma MintedStay(d: Db, ev: Event, b: BatchId)
    requires b in d.mintedBatches
    ensures b in Next(d, ev).mintedBatches
  {
    hide Ensure, Claim, Heartbeat, Reset, Persist, Complete, FailLease, RecoverExpired,
         MarkBlobDeleted, BeginBatch, ClaimItem, SaveDerived, FinalizeItem, FailItem,
         CompleteBatch, Reconcile, PrepareDelete, FinalizeDelete, Derive, DeriveStatus,
         DeriveTask, TaskGone, DerivedGone, OtherRetain, OtherRelease, OtherStage, OtherPublish;
  }

  /** Over any run, all claims of a batch together spend at most its budget: the loop
      of processBatch runs out of items, whatever the other workers do. */
  lemma {:induction false} TakesBounded(d: Db, evs: seq<Event>, b: BatchId)
    requires b in d.mintedBatches
    ensures b in Run(d, evs).mintedBatches
    ensures Takes(d, evs, b) + Budget(Run(d, evs), b) <= Budget(d, b)
  {
    hide Next, Claimed, Spends, Budget;
    if evs != [] {
      var before := Run(d, evs[..|evs| - 1]);
      TakesBounded(d, evs[..|evs| - 1], b);
      MintedStay(before, evs[|evs| - 1], b);
      SpendsStep(before, evs[|evs| - 1], b);
      BudgetStep(before, Next(before, evs[|evs| - 1]), b);
    }
  }

  /** ClaimBatchItem really is such a claim. */
  lemma ClaimIsTake(d: Db, b: BatchId, k: ItemKey, owner: Owner, duration: nat)
    requires k in d.items && k.0 == b
    requires ItemClaimable(FailExhausted(d, b), k) && Readable(FailExhausted(d, b), k)
    ensures Claimed(d, ClaimItem(d, b, Some(k.1), owner, duration), b)
  {
    hide Readable, WorkOf, ClaimItem;
    ClaimSucceeds(d, b, k, owner, duration);
  }

  /** A new batch allows three claims for each selected entry. */
  lemma {:induction false} InsertedBudget(
    items: map<ItemKey, Item>, b: BatchId, chosen: seq<EntryId>, entries: map<EntryId, Entry>)
    requires forall e | e in chosen :: e in entries
    requires forall k | k in items :: k.0 != b
    ensures Sum(BatchItems(InsertItems(items, b, chosen, entries), b), Left()) <= 3 * |chosen|
  {
    if chosen == [] {
      assert BatchItems(items, b) == map[];
    } else {
      var last := |chosen| - 1;
      var row := NewItem(last, entries[chosen[last]]);
      InsertedBudget(items, b, chosen[..last], entries);
      var before := BatchItems(InsertItems(items, b, chosen[..last], entries), b);
      assert BatchItems(InsertItems(items, b, chosen, entries), b) == before[(b, chosen[last]) := row];
      SumWrite(before, (b, chosen[last]), row, Left());
    }
  }

  /** So at most 60 claims are ever made on a batch, however many workers there are
      and however often their leases expire. */
  lemma BatchTakesBounded(
    d: Db, b: BatchId, request: BatchInput, fingerprint: string, evs: seq<Event>)
    requires Inv(d) && b !in d.mintedBatches
    requires BeginError(d, b, request, fingerprint).None? && FindBatch(d, request).None?
    ensures Takes(BeginBatch(d, b, request, fingerprint), evs, b) <= 3 * |request.publicIds| <= 60
  {
    hide BlobsOk, ImportsOk, EntriesOk, CountersOk, BatchesOk, TicketsOk, FactsOk, FindBatch,
         Takes, Run, Selectable;
    BeginRow(d, b, request, fingerprint);
    ChosenAt(d, request.archive, request.publicIds);
    forall k | k in d.items ensures k.0 != b { ItemRow(d, k); }
    InsertedBudget(d.items, b, Chosen(d, request.archive, request.publicIds), d.entries);
    TakesBounded(BeginBatch(d, b, request, fingerprint), evs, b);
  }
}
