/** A run that ends with a created entry, and a created item, without a task. */
module ArchiveLostTask {
  import opened Counting
  import opened ArchiveDb
  import opened ArchiveTransactions
  import opened ArchiveRuns

  const UPLOAD := Upload(1, "a.zip", 1, Some("d"), true, Some(0), "archive", "archive", "zip", true, true, None)
  const MEMBER := Member("x", 1, Some("d"), "jar", "archive")
  const INPUT := EnsureInput(0, 1, "a.zip", 1, "d", "zip")
  const NEW_ENTRY := NewEntry(0, 0, MEMBER, true, Canonical("d"))
  const LEASE := Lease(0, 0, 1, 1, 3)
  const REQUEST := BatchInput(0, 1, "k", [0])
  const WORK := Work(0, 0, 0, Provenance(0, "a.zip", 1, MEMBER, 0), 0, 1)

  /** An archive is uploaded and imported; its member is selected, becomes a derived upload
      and a task; then the row of the task is deleted. */
  const LOST_TASK := [
    ChangeUpload(0, UPLOAD), StageElsewhere("d", 1, Canonical("d")), PublishElsewhere(0),
    EnsureImport(0, INPUT), ClaimImport(0, 0, 9), PersistMember(LEASE, NEW_ENTRY), CompleteImport(LEASE),
    Begin(0, REQUEST, "f"), ClaimWork(0, Some(0), 0, 9), CreateDerived(WORK, 5, true), CreateTask(5, 7),
    Finalize(WORK, 5, 7, true), TaskRowGone(7)]

  function BlobRow(refs: int, state: BlobState): Blob { Blob("d", 1, Canonical("d"), refs, state) }

  function EntryRow(status: EntryStatus, derived: Option<UploadId>, task: Option<TaskId>): Entry {
    Entry(0, 0, 0, MEMBER, status, Some(0), status == Created, derived, task)
  }

  function ImportRow(status: ImportStatus, hold: Option<Hold>, total: nat): Import {
    Import(0, 1, "zip", 0, Canonical("d"), "d", 1, status == Ready, status,
           if status == Queued then 0 else 1, 3, if status == Queued then 0 else 1, 0, hold,
           total, total, total, 0, 0)
  }

  // ---------------------------------------------------------------- the upload

  lemma Staged(d: Db)
    requires d.blobs == map[]
    ensures OtherStage(d, "d", 1, Canonical("d")) ==
      d.(blobs := map[d.nextBlob := BlobRow(1, Staging)], holders := d.holders[d.nextBlob := 1],
         nextBlob := d.nextBlob + 1)
  {}

  lemma Published(d: Db)
    requires d.blobs == map[0 := BlobRow(1, Staging)]
    ensures OtherPublish(d, 0) == d.(blobs := map[0 := BlobRow(1, Available)])
  {
    assert map[0 := BlobRow(1, Staging)][0 := BlobRow(1, Available)] == map[0 := BlobRow(1, Available)];
  }

  // ---------------------------------------------------------------- the import

  lemma Ensured(d: Db)
    requires d.uploads == map[0 := UPLOAD] && d.blobs == map[0 := BlobRow(1, Available)]
    requires d.imports == map[] && d.now == 0
    ensures Ensure(d, 0, INPUT) ==
      d.(uploads := map[0 := UPLOAD.(archiveImport := Some(0))], blobs := map[0 := BlobRow(2, Available)],
         imports := map[0 := ImportRow(Queued, None, 0)])
  {
    assert FindImport(d, 0).None?;
    assert map[0 := BlobRow(1, Available)][0 := BlobRow(2, Available)] == map[0 := BlobRow(2, Available)];
    assert map[0 := UPLOAD][0 := UPLOAD.(archiveImport := Some(0))] ==
           map[0 := UPLOAD.(archiveImport := Some(0))];
  }

  lemma Claimed(d: Db)
    requires d.uploads == map[0 := UPLOAD.(archiveImport := Some(0))]
    requires d.blobs == map[0 := BlobRow(2, Available)]
    requires d.imports == map[0 := ImportRow(Queued, None, 0)] && d.now == 0 && !d.slotBusy
    ensures Claim(d, 0, 0, 9) ==
      d.(imports := map[0 := ImportRow(Running, Some(Hold(0, 9)), 0)], leases := d.leases + {LEASE})
  {
    assert Claimable(d, 0) && !GateBusy(d);
    assert d.imports[0 := ImportRow(Running, Some(Hold(0, 9)), 0)] ==
           map[0 := ImportRow(Running, Some(Hold(0, 9)), 0)];
  }

  lemma Persisted(d: Db)
    requires d.blobs == map[0 := BlobRow(2, Available)] && d.entries == map[] && d.nextEntry == 0
    requires d.imports == map[0 := ImportRow(Running, Some(Hold(0, 9)), 0)] && d.now == 0
    ensures Persist(d, LEASE, NEW_ENTRY) ==
      d.(blobs := map[0 := BlobRow(3, Available)], entries := map[0 := EntryRow(Eligible, None, None)],
         nextEntry := 1, imports := map[0 := ImportRow(Running, Some(Hold(0, 9)), 1)])
  {
    assert Live(d, LEASE);
    assert FindBlob(d.blobs, "d") == Some(0) by { assert 0 in d.blobs && d.blobs[0].digest == "d"; }
    assert PersistError(d, LEASE, NEW_ENTRY).None?;
    assert d.blobs[0 := BlobRow(3, Available)] == map[0 := BlobRow(3, Available)];
    assert d.imports[0 := ImportRow(Running, Some(Hold(0, 9)), 1)] ==
           map[0 := ImportRow(Running, Some(Hold(0, 9)), 1)];
  }

  lemma Completed(d: Db)
    requires d.blobs == map[0 := BlobRow(3, Available)] && d.now == 0
    requires d.imports == map[0 := ImportRow(Running, Some(Hold(0, 9)), 1)]
    ensures Complete(d, LEASE) ==
      d.(blobs := map[0 := BlobRow(2, Available)], imports := map[0 := ImportRow(Ready, None, 1)])
  {
    assert Live(d, LEASE);
    assert d.blobs[0 := BlobRow(2, Available)] == map[0 := BlobRow(2, Available)];
    assert d.imports[0 := ImportRow(Ready, None, 1)] == map[0 := ImportRow(Ready, None, 1)];
  }

  // ---------------------------------------------------------------- the batch

  const BATCH := Batch(0, 1, "k", "f", false)

  function ItemRow(outcome: Outcome, attempt: nat, hold: Option<Hold>, task: Option<TaskId>): Item {
    Item(0, outcome, attempt, 3, attempt, hold, task)
  }

  lemma Begun(d: Db)
    requires d.batches == map[] && d.items == map[] && d.mintedBatches == {}
    requires d.imports == map[0 := ImportRow(Ready, None, 1)]
    requires d.entries == map[0 := EntryRow(Eligible, None, None)]
    ensures BeginBatch(d, 0, REQUEST, "f") ==
      d.(batches := map[0 := BATCH], items := map[(0, 0) := ItemRow(Pending, 0, None, None)],
         mintedBatches := {0})
  {
    assert FindBatch(d, REQUEST).None?;
    CountNone(d.batches, ProcessingIn(0));
    assert FindEntry(d, 0, 0) == Some(0) by { assert d.entries[0].publicId == 0; }
    assert BeginError(d, 0, REQUEST, "f").None?;
    assert Chosen(d, 0, REQUEST.publicIds[..0]) == [];
    assert Chosen(d, 0, REQUEST.publicIds) == [0];
    assert [0][..0] == [];
    assert InsertItems(map[], 0, [0], d.entries) == map[(0, 0) := ItemRow(Pending, 0, None, None)];
  }

  lemma NothingExhausted(d: Db)
    requires d.items == map[(0, 0) := ItemRow(Pending, 0, None, None)]
    ensures FailExhausted(d, 0) == d
  {
    var n := FailExhausted(d, 0);
    assert forall k | k in d.items :: !Exhausted(d, k);
    assert n.entries == d.entries && n.items == d.items;
  }

  lemma WorkClaimed(d: Db)
    requires d.items == map[(0, 0) := ItemRow(Pending, 0, None, None)] && d.batches == map[0 := BATCH]
    requires d.entries == map[0 := EntryRow(Eligible, None, None)] && d.now == 0
    requires d.imports == map[0 := ImportRow(Ready, None, 1)]
    requires d.uploads == map[0 := UPLOAD.(archiveImport := Some(0))]
    ensures ClaimItem(d, 0, Some(0), 0, 9) ==
      d.(items := map[(0, 0) := ItemRow(Processing, 1, Some(Hold(0, 9)), None)], works := d.works + {WORK})
  {
    hide FailExhausted;
    NothingExhausted(d);
    var k: ItemKey := (0, 0);
    assert ItemClaimable(d, k) && Readable(d, k) && WorkOf(d, k, 0) == WORK;
    assert ClaimedItem(d.items[k], 0, 9) == ItemRow(Processing, 1, Some(Hold(0, 9)), None);
    assert d.items[k := ItemRow(Processing, 1, Some(Hold(0, 9)), None)] ==
           map[k := ItemRow(Processing, 1, Some(Hold(0, 9)), None)];
  }

  lemma Finalized(d: Db)
    requires d.items == map[(0, 0) := ItemRow(Processing, 1, Some(Hold(0, 9)), None)] && d.now == 0
    requires d.entries == map[0 := EntryRow(Eligible, None, None)]
    requires 5 in d.derived && 7 in d.tasks
    ensures var n := FinalizeItem(d, WORK, 5, 7, true);
      && n.entries == map[0 := EntryRow(Created, Some(5), Some(7))]
      && n.items == map[(0, 0) := ItemRow(CreatedTask, 1, None, Some(7))]
  {
    hide ReleaseOne, CountCreated;
    assert WorkLive(d, WORK);
    assert !TaskTaken(d, 0, 7);
    assert FinalizeError(d, WORK, 5, 7).None?;
    assert d.entries[0 := EntryRow(Created, Some(5), Some(7))] ==
           map[0 := EntryRow(Created, Some(5), Some(7))];
  }

  lemma TaskLost(d: Db)
    requires d.entries == map[0 := EntryRow(Created, Some(5), Some(7))]
    requires d.items == map[(0, 0) := ItemRow(CreatedTask, 1, None, Some(7))]
    ensures var n := TaskGone(d, 7);
      && n.entries == map[0 := EntryRow(Created, Some(5), None)]
      && n.items == map[(0, 0) := ItemRow(CreatedTask, 1, None, None)]
  {}

  // ---------------------------------------------------------------- the run

  /** The tables before any batch is begun. */
  ghost predicate Tables(
    d: Db, uploads: map<UploadId, Upload>, blobs: map<BlobId, Blob>, imports: map<ImportId, Import>,
    entries: map<EntryId, Entry>)
  {
    && d.now == 0 && !d.slotBusy && d.uploads == uploads && d.blobs == blobs && d.imports == imports
    && d.entries == entries && (0 !in blobs ==> d.nextBlob == 0) && (0 !in entries ==> d.nextEntry == 0)
    && d.batches == map[] && d.items == map[] && d.mintedBatches == {} && d.derived == map[] && d.tasks == map[]
  }

  lemma UploadStep(d: Db)
    requires d == Start()
    ensures Tables(Next(d, ChangeUpload(0, UPLOAD)), map[0 := UPLOAD], map[], map[], map[])
  {}

  lemma StageStep(d: Db)
    requires Tables(d, map[0 := UPLOAD], map[], map[], map[])
    ensures Tables(Next(d, StageElsewhere("d", 1, Canonical("d"))), map[0 := UPLOAD],
                   map[0 := BlobRow(1, Staging)], map[], map[])
  {
    hide OtherStage, BlobRow;
    Staged(d);
  }

  lemma PublishStep(d: Db)
    requires Tables(d, map[0 := UPLOAD], map[0 := BlobRow(1, Staging)], map[], map[])
    ensures Tables(Next(d, PublishElsewhere(0)), map[0 := UPLOAD], map[0 := BlobRow(1, Available)], map[], map[])
  {
    hide OtherPublish, BlobRow;
    Published(d);
  }

  lemma ImportsStep(d: Db)
    requires Tables(d, map[0 := UPLOAD], map[0 := BlobRow(1, Available)], map[], map[])
    ensures Tables(Next(d, EnsureImport(0, INPUT)), map[0 := UPLOAD.(archiveImport := Some(0))],
                   map[0 := BlobRow(2, Available)], map[0 := ImportRow(Queued, None, 0)], map[])
  {
    hide Ensure, BlobRow, ImportRow;
    Ensured(d);
  }

  lemma ClaimsStep(d: Db)
    requires Tables(d, map[0 := UPLOAD.(archiveImport := Some(0))],
                    map[0 := BlobRow(2, Available)], map[0 := ImportRow(Queued, None, 0)], map[])
    ensures Tables(Next(d, ClaimImport(0, 0, 9)), map[0 := UPLOAD.(archiveImport := Some(0))],
                   map[0 := BlobRow(2, Available)], map[0 := ImportRow(Running, Some(Hold(0, 9)), 0)], map[])
  {
    hide Claim, BlobRow, ImportRow;
    Claimed(d);
  }

  lemma PersistsStep(d: Db)
    requires Tables(d, map[0 := UPLOAD.(archiveImport := Some(0))],
                    map[0 := BlobRow(2, Available)], map[0 := ImportRow(Running, Some(Hold(0, 9)), 0)], map[])
    ensures Tables(Next(d, PersistMember(LEASE, NEW_ENTRY)), map[0 := UPLOAD.(archiveImport := Some(0))],
                   map[0 := BlobRow(3, Available)], map[0 := ImportRow(Running, Some(Hold(0, 9)), 1)],
                   map[0 := EntryRow(Eligible, None, None)])
  {
    hide Persist, BlobRow, ImportRow, EntryRow;
    Persisted(d);
  }

  lemma CompletesStep(d: Db)
    requires Tables(d, map[0 := UPLOAD.(archiveImport := Some(0))],
                    map[0 := BlobRow(3, Available)], map[0 := ImportRow(Running, Some(Hold(0, 9)), 1)],
                    map[0 := EntryRow(Eligible, None, None)])
    ensures Tables(Next(d, CompleteImport(LEASE)), map[0 := UPLOAD.(archiveImport := Some(0))],
                   map[0 := BlobRow(2, Available)], map[0 := ImportRow(Ready, None, 1)],
                   map[0 := EntryRow(Eligible, None, None)])
  {
    hide Complete, BlobRow, ImportRow, EntryRow;
    Completed(d);
  }

  lemma OneStep(evs: seq<Event>, ev: Event)
    ensures Run(Start(), evs + [ev]) == Next(Run(Start(), evs), ev)
  {
    hide Next, Start;
    assert (evs + [ev])[..|evs|] == evs;
  }

  /** When the import is complete. */
  ghost predicate Imported(d: Db) {
    Tables(d, map[0 := UPLOAD.(archiveImport := Some(0))], map[0 := BlobRow(2, Available)],
           map[0 := ImportRow(Ready, None, 1)], map[0 := EntryRow(Eligible, None, None)])
  }

  lemma ImportRun() returns (evs: seq<Event>)
    ensures evs == [
      ChangeUpload(0, UPLOAD), StageElsewhere("d", 1, Canonical("d")), PublishElsewhere(0),
      EnsureImport(0, INPUT), ClaimImport(0, 0, 9), PersistMember(LEASE, NEW_ENTRY), CompleteImport(LEASE)]
    ensures Imported(Run(Start(), evs))
  {
    hide Run, Start, Tables, Next, BlobRow, ImportRow, EntryRow;
    evs := [];
    StartRun();
    OneStep(evs, ChangeUpload(0, UPLOAD));
    UploadStep(Run(Start(), evs));
    evs := evs + [ChangeUpload(0, UPLOAD)];
    OneStep(evs, StageElsewhere("d", 1, Canonical("d")));
    StageStep(Run(Start(), evs));
    evs := evs + [StageElsewhere("d", 1, Canonical("d"))];
    OneStep(evs, PublishElsewhere(0));
    PublishStep(Run(Start(), evs));
    evs := evs + [PublishElsewhere(0)];
    OneStep(evs, EnsureImport(0, INPUT));
    ImportsStep(Run(Start(), evs));
    evs := evs + [EnsureImport(0, INPUT)];
    OneStep(evs, ClaimImport(0, 0, 9));
    ClaimsStep(Run(Start(), evs));
    evs := evs + [ClaimImport(0, 0, 9)];
    OneStep(evs, PersistMember(LEASE, NEW_ENTRY));
    PersistsStep(Run(Start(), evs));
    evs := evs + [PersistMember(LEASE, NEW_ENTRY)];
    OneStep(evs, CompleteImport(LEASE));
    CompletesStep(Run(Start(), evs));
    evs := evs + [CompleteImport(LEASE)];
  }

  lemma StartRun()
    ensures Run(Start(), []) == Start()
  {}

  /** While the batch works on the entry. */
  ghost predicate Working(d: Db) {
    && d.now == 0 && d.items == map[(0, 0) := ItemRow(Processing, 1, Some(Hold(0, 9)), None)]
    && d.entries == map[0 := EntryRow(Eligible, None, None)] && WORK in d.works
  }

  /** The entry, and its item, are created. */
  ghost predicate Bound(d: Db, task: Option<TaskId>) {
    && d.entries == map[0 := EntryRow(Created, Some(5), task)]
    && d.items == map[(0, 0) := ItemRow(CreatedTask, 1, None, task)]
  }

  /** From the begin of the batch to the claimed item. */
  lemma WorkStep(d: Db)
    requires Imported(d)
    ensures var n := Next(Next(d, Begin(0, REQUEST, "f")), ClaimWork(0, Some(0), 0, 9));
      Working(n) && n.derived == map[] && n.tasks == map[]
  {
    hide BeginBatch, ClaimItem, BlobRow, ImportRow, EntryRow, ItemRow;
    Begun(d);
    WorkClaimed(Next(d, Begin(0, REQUEST, "f")));
  }

  /** The derived upload and the task. */
  lemma DeriveStep(d: Db)
    requires Working(d) && d.derived == map[] && d.tasks == map[]
    ensures var n := Next(Next(d, CreateDerived(WORK, 5, true)), CreateTask(5, 7));
      Working(n) && 5 in n.derived && 7 in n.tasks
  {
    hide ItemRow, EntryRow;
  }

  lemma BindStep(d: Db)
    requires Working(d) && 5 in d.derived && 7 in d.tasks
    ensures Bound(Next(d, Finalize(WORK, 5, 7, true)), Some(7))
  {
    hide FinalizeItem, ItemRow, EntryRow;
    Finalized(d);
  }

  lemma LoseStep(d: Db)
    requires Bound(d, Some(7))
    ensures Bound(Next(d, TaskRowGone(7)), None)
  {
    hide TaskGone, ItemRow, EntryRow;
    TaskLost(d);
  }

  /** The run ends with a created entry, and a created item, that have no task. */
  lemma CreatedWithoutTask()
    ensures Bound(Run(Start(), LOST_TASK), None)
  {
    hide Run, Start, Next, Imported, Working, Bound;
    var evs := ImportRun();
    var d := Run(Start(), evs);
    WorkStep(d);
    OneStep(evs, Begin(0, REQUEST, "f"));
    evs := evs + [Begin(0, REQUEST, "f")];
    OneStep(evs, ClaimWork(0, Some(0), 0, 9));
    evs := evs + [ClaimWork(0, Some(0), 0, 9)];
    DeriveStep(Run(Start(), evs));
    OneStep(evs, CreateDerived(WORK, 5, true));
    evs := evs + [CreateDerived(WORK, 5, true)];
    OneStep(evs, CreateTask(5, 7));
    evs := evs + [CreateTask(5, 7)];
    BindStep(Run(Start(), evs));
    OneStep(evs, Finalize(WORK, 5, 7, true));
    evs := evs + [Finalize(WORK, 5, 7, true)];
    LoseStep(Run(Start(), evs));
    OneStep(evs, TaskRowGone(7));
    evs := evs + [TaskRowGone(7)];
    assert evs == LOST_TASK;
  }
}
