/** Whole runs of the system: any number of API handlers, workers, recovery passes
    and other services, interleaved transaction by transaction. A crash needs no
    step of its own: the worker's remaining steps just never come. */
module ArchiveRuns {
  import opened Counting
  import opened ArchiveDb
  import opened ArchiveTransactions
  import opened ArchiveImportSteps
  import opened ArchiveEntrySteps
  import opened ArchiveBatchSteps
  import opened ArchiveBindSteps

  datatype Event =
    | EnsureImport(id: ImportId, input: EnsureInput)
    | ClaimImport(id: ImportId, owner: Owner, duration: nat)
    | HeartbeatLease(lease: Lease, duration: nat)
    | ResetImport(lease: Lease)
    | PersistMember(lease: Lease, member: NewEntry)
    | CompleteImport(lease: Lease)
    | FailImport(lease: Lease, retry: bool, delay: nat)
    | RecoverImport(id: ImportId, delay: nat)
    | BlobRemoved(blob: BlobId)
    | Begin(batch: BatchId, request: BatchInput, fingerprint: string)
    | ClaimWork(batch: BatchId, choice: Option<EntryId>, owner: Owner, duration: nat)
    | Save(work: Work, upload: UploadId)
    | Finalize(work: Work, upload: UploadId, task: TaskId, created: bool)
    | FailWork(work: Work, retry: bool)
    | Finish(batch: BatchId)
    | ReconcileEntry(entry: EntryId)
    | Prepare(upload: UploadId, actor: Actor)
    | Erase(upload: UploadId)
    | CreateDerived(work: Work, upload: UploadId, completed: bool)
    | ChangeDerived(upload: UploadId, completed: bool, cancelled: bool)
    | CreateTask(upload: UploadId, task: TaskId)
    | TaskRowGone(task: TaskId)
    | DerivedRowGone(upload: UploadId)
    | RetainElsewhere(blob: BlobId)
    | ReleaseElsewhere(blob: BlobId)
    | StageElsewhere(digest: Digest, size: int, key: StorageKey)
    | PublishElsewhere(blob: BlobId)
    | ChangeUpload(upload: UploadId, row: Upload)
    | ChangeSlot(busy: bool)
    | Tick(elapsed: nat)

  /** Leases come from Claim, and batch ids from a generator that never repeats one. */
  predicate Enabled(d: Db, ev: Event) {
    match ev
    case FailImport(l, _, _) => l in d.leases
    case Begin(b, _, _) => b !in d.mintedBatches
    case _ => true
  }

  ghost function Effect(d: Db, ev: Event): Db {
    match ev
    case EnsureImport(id, input) => Ensure(d, id, input)
    case ClaimImport(id, owner, duration) => Claim(d, id, owner, duration)
    case HeartbeatLease(l, duration) => Heartbeat(d, l, duration)
    case ResetImport(l) => Reset(d, l)
    case PersistMember(l, m) => Persist(d, l, m)
    case CompleteImport(l) => Complete(d, l)
    case FailImport(l, retry, delay) => FailLease(d, l, retry, delay)
    case RecoverImport(id, delay) => RecoverExpired(d, id, delay)
    case BlobRemoved(b) => MarkBlobDeleted(d, b)
    case Begin(b, request, fingerprint) => BeginBatch(d, b, request, fingerprint)
    case ClaimWork(b, choice, owner, duration) => ClaimItem(d, b, choice, owner, duration)
    case Save(w, u) => SaveDerived(d, w, u)
    case Finalize(w, u, t, created) => FinalizeItem(d, w, u, t, created)
    case FailWork(w, retry) => FailItem(d, w, retry)
    case Finish(b) => CompleteBatch(d, b)
    case ReconcileEntry(e) => Reconcile(d, e)
    case Prepare(u, actor) => PrepareDelete(d, u, actor)
    case Erase(u) => FinalizeDelete(d, u)
    case CreateDerived(w, u, completed) => Derive(d, w, u, completed)
    case ChangeDerived(u, completed, cancelled) => DeriveStatus(d, u, completed, cancelled)
    case CreateTask(u, t) => DeriveTask(d, u, t)
    case TaskRowGone(t) => TaskGone(d, t)
    case DerivedRowGone(u) => DerivedGone(d, u)
    case RetainElsewhere(b) => OtherRetain(d, b)
    case ReleaseElsewhere(b) => OtherRelease(d, b)
    case StageElsewhere(digest, size, key) => OtherStage(d, digest, size, key)
    case PublishElsewhere(b) => OtherPublish(d, b)
    case ChangeUpload(u, row) => d.(uploads := d.uploads[u := row])
    case ChangeSlot(busy) => d.(slotBusy := busy)
    case Tick(elapsed) => d.(now := d.now + elapsed)
  }

  ghost function Next(d: Db, ev: Event): Db {
    if Enabled(d, ev) then Effect(d, ev) else d
  }

  ghost function Run(d: Db, evs: seq<Event>): Db {
    if evs == [] then d else Next(Run(d, evs[..|evs| - 1]), evs[|evs| - 1])
  }

  function Start(): Db {
    Db(0, map[], map[], map[], map[], map[], map[], map[], map[], map[], false, 0, 0, {}, {}, {}, {})
  }

  lemma StartOk() ensures Inv(Start()) {
    assert Count(Start().imports, IsRunning()) == 0 by { CountNone(Start().imports, IsRunning()); }
  }

  lemma ClockFree(d: Db, slotBusy: bool, elapsed: nat)
    requires Inv(d)
    ensures Inv(d.(slotBusy := slotBusy)) && Inv(d.(now := d.now + elapsed))
  {
    hide BlobsOk, ImportsOk, EntriesOk, CountersOk, BatchesOk, ItemsOk, NamesOk, TicketsOk, FactsOk;
    Assemble(d.(slotBusy := slotBusy));
    Assemble(d.(now := d.now + elapsed));
  }

  // ---------------------------------------------------------------- which step touches what

  predicate TouchesImports(ev: Event) {
    ev.EnsureImport? || ev.ClaimImport? || ev.HeartbeatLease? || ev.ResetImport? ||
    ev.PersistMember? || ev.CompleteImport? || ev.FailImport? || ev.RecoverImport? ||
    ev.Finalize? || ev.ReconcileEntry? || ev.Prepare? || ev.Erase? || ev.Tick?
  }

  predicate TouchesEntries(ev: Event) {
    ev.ResetImport? || ev.PersistMember? || ev.ClaimWork? || ev.Save? || ev.Finalize? ||
    ev.FailWork? || ev.ReconcileEntry? || ev.Erase? || ev.TaskRowGone? || ev.DerivedRowGone?
  }

  predicate TouchesItems(ev: Event) {
    ev.ResetImport? || ev.Begin? || ev.ClaimWork? || ev.Finalize? || ev.FailWork? ||
    ev.ReconcileEntry? || ev.Erase? || ev.TaskRowGone?
  }

  predicate TouchesBlobs(ev: Event) {
    ev.EnsureImport? || ev.ResetImport? || ev.PersistMember? || ev.CompleteImport? ||
    ev.FailImport? || ev.RecoverImport? || ev.Finalize? || ev.ReconcileEntry? || ev.Erase? ||
    ev.RetainElsewhere? || ev.ReleaseElsewhere? || ev.StageElsewhere? || ev.BlobRemoved? ||
    ev.PublishElsewhere?
  }

  lemma ImportsKept(d: Db, ev: Event)
    requires !TouchesImports(ev)
    ensures KeepsImports(d, Next(d, ev))
  {
    hide Ensure, Claim, Heartbeat, Reset, Persist, Complete, FailLease, RecoverExpired,
         MarkBlobDeleted, BeginBatch, ClaimItem, SaveDerived, FinalizeItem, FailItem,
         CompleteBatch, Reconcile, PrepareDelete, FinalizeDelete, Derive, DeriveStatus,
         DeriveTask, TaskGone, DerivedGone, OtherRetain, OtherRelease, OtherStage, OtherPublish;
  }

  lemma EntriesKept(d: Db, ev: Event)
    requires !TouchesEntries(ev)
    ensures Next(d, ev).entries == d.entries && Next(d, ev).nextEntry == d.nextEntry
  {
    hide Ensure, Claim, Heartbeat, Reset, Persist, Complete, FailLease, RecoverExpired,
         MarkBlobDeleted, BeginBatch, ClaimItem, SaveDerived, FinalizeItem, FailItem,
         CompleteBatch, Reconcile, PrepareDelete, FinalizeDelete, Derive, DeriveStatus,
         DeriveTask, TaskGone, DerivedGone, OtherRetain, OtherRelease, OtherStage, OtherPublish;
  }

  lemma ItemsKept(d: Db, ev: Event)
    requires !TouchesItems(ev)
    ensures Next(d, ev).items == d.items
  {
    hide Ensure, Claim, Heartbeat, Reset, Persist, Complete, FailLease, RecoverExpired,
         MarkBlobDeleted, BeginBatch, ClaimItem, SaveDerived, FinalizeItem, FailItem,
         CompleteBatch, Reconcile, PrepareDelete, FinalizeDelete, Derive, DeriveStatus,
         DeriveTask, TaskGone, DerivedGone, OtherRetain, OtherRelease, OtherStage, OtherPublish;
  }

  lemma BlobsKept(d: Db, ev: Event)
    requires !TouchesBlobs(ev)
    ensures Next(d, ev).blobs == d.blobs
  {
    hide Ensure, Claim, Heartbeat, Reset, Persist, Complete, FailLease, RecoverExpired,
         MarkBlobDeleted, BeginBatch, ClaimItem, SaveDerived, FinalizeItem, FailItem,
         CompleteBatch, Reconcile, PrepareDelete, FinalizeDelete, Derive, DeriveStatus,
         DeriveTask, TaskGone, DerivedGone, OtherRetain, OtherRelease, OtherStage, OtherPublish;
  }

  // ---------------------------------------------------------------- the invariant

  /** Every step keeps the invariant. */
  lemma NextKeeps(d: Db, ev: Event)
    requires Inv(d)
    ensures Inv(Next(d, ev))
  {
    hide Inv, Next;
    if !Enabled(d, ev) {
      SkippedKeeps(d, ev);
    } else if TouchesImports(ev) {
      ImportStepKeeps(d, ev);
    } else {
      OtherStepKeeps(d, ev);
    }
  }

  lemma SkippedKeeps(d: Db, ev: Event)
    requires Inv(d) && !Enabled(d, ev)
    ensures Inv(Next(d, ev))
  {
    hide Inv;
  }

  lemma ImportStepKeeps(d: Db, ev: Event)
    requires Inv(d) && Enabled(d, ev) && TouchesImports(ev)
    ensures Inv(Next(d, ev))
  {
    hide Inv, Ensure, Claim, Heartbeat, Reset, Persist, Complete, FailLease, RecoverExpired,
         MarkBlobDeleted, BeginBatch, ClaimItem, SaveDerived, FinalizeItem, FailItem,
         CompleteBatch, Reconcile, PrepareDelete, FinalizeDelete, Derive, DeriveStatus,
         DeriveTask, TaskGone, DerivedGone, OtherRetain, OtherRelease, OtherStage, OtherPublish;
    match ev
    case EnsureImport(id, input) => EnsureKeeps(d, id, input);
    case ClaimImport(id, owner, duration) => ClaimKeeps(d, id, owner, duration);
    case HeartbeatLease(l, duration) => HeartbeatKeeps(d, l, duration);
    case ResetImport(l) => ResetKeeps(d, l);
    case PersistMember(l, m) => PersistKeeps(d, l, m);
    case CompleteImport(l) => CompleteKeeps(d, l);
    case FailImport(l, retry, delay) => FailLeaseKeeps(d, l, retry, delay);
    case RecoverImport(id, delay) => RecoverExpiredKeeps(d, id, delay);
    case Finalize(w, u, t, created) => FinalizeItemKeeps(d, w, u, t, created);
    case ReconcileEntry(e) => ReconcileKeeps(d, e);
    case Prepare(u, actor) => PrepareDeleteKeeps(d, u, actor);
    case Erase(u) => FinalizeDeleteKeeps(d, u);
    case Tick(elapsed) => ClockFree(d, false, elapsed);
  }

  lemma OtherStepKeeps(d: Db, ev: Event)
    requires Inv(d) && Enabled(d, ev) && !TouchesImports(ev)
    ensures Inv(Next(d, ev))
  {
    hide Inv, KeepsImports, KeepsUploads, KeepsEntries, Ensure, Claim, Heartbeat, Reset, Persist, Complete, FailLease, RecoverExpired,
         MarkBlobDeleted, BeginBatch, ClaimItem, SaveDerived, FinalizeItem, FailItem,
         CompleteBatch, Reconcile, PrepareDelete, FinalizeDelete, Derive, DeriveStatus,
         DeriveTask, TaskGone, DerivedGone, OtherRetain, OtherRelease, OtherStage, OtherPublish;
    match ev
    case BlobRemoved(b) => MarkBlobDeletedKeeps(d, b);
    case Begin(b, request, fingerprint) => BeginBatchKeeps(d, b, request, fingerprint);
    case ClaimWork(b, choice, owner, duration) => ClaimItemKeeps(d, b, choice, owner, duration);
    case Save(w, u) => SaveDerivedKeeps(d, w, u);
    case FailWork(w, retry) => FailItemKeeps(d, w, retry);
    case Finish(b) => CompleteBatchKeeps(d, b);
    case CreateDerived(w, u, completed) => DeriveKeeps(d, w, u, completed);
    case ChangeDerived(u, completed, cancelled) => DeriveStatusKeeps(d, u, completed, cancelled);
    case CreateTask(u, t) => DeriveTaskKeeps(d, u, t);
    case TaskRowGone(t) => TaskGoneKeeps(d, t);
    case DerivedRowGone(u) => DerivedGoneKeeps(d, u);
    case RetainElsewhere(b) => OtherRetainKeeps(d, b);
    case ReleaseElsewhere(b) => OtherReleaseKeeps(d, b);
    case StageElsewhere(digest, size, key) => OtherStageKeeps(d, digest, size, key);
    case PublishElsewhere(b) => OtherPublishKeeps(d, b);
    case ChangeUpload(u, row) => UploadsFree(d, d.uploads[u := row]);
    case ChangeSlot(busy) => ClockFree(d, busy, 0);
  }

  /** The invariant holds after any run from a database in which it holds. */
  lemma {:induction false} RunKeeps(d: Db, evs: seq<Event>)
    requires Inv(d)
    ensures Inv(Run(d, evs))
  {
    hide Inv;
    if evs != [] {
      RunKeeps(d, evs[..|evs| - 1]);
      NextKeeps(Run(d, evs[..|evs| - 1]), evs[|evs| - 1]);
    }
  }
}
