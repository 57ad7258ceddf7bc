/** Every step treats every import, batch and upload as its rule says. */
module ArchiveImportRule {
  import opened Counting
  import opened ArchiveDb
  import opened ArchiveTransactions
  import opened ArchiveBatchSteps
  import opened ArchiveRuns
  import opened ArchiveRules
  import opened ArchiveItemRule
  import opened ArchiveEntryRule

  // ---------------------------------------------------------------- conditions

  lemma NamedIff(d: Db, l: Lease)
    ensures Named(d, l) <==> Held(d, l)
  {}

  lemma FitsIff(d: Db, input: EnsureInput)
    ensures Fits(d, input) <==>
      && input.upload in d.uploads
      && var u := d.uploads[input.upload];
         u.blob.Some? && u.blob.value in d.blobs && UploadMatches(u, d.blobs[u.blob.value], input)
  {}

  lemma FitsDigest(d: Db, input: EnsureInput)
    requires Fits(d, input)
    ensures input.upload in d.uploads
    ensures var u := d.uploads[input.upload];
      && u.actualDigest.Some? && u.blob.Some? && u.blob.value in d.blobs
      && var b := d.blobs[u.blob.value]; b.key == Canonical(input.digest) && b.digest == input.digest && b.size == input.size
  {}

  lemma CreatesIff(d: Db, id: ImportId, input: EnsureInput)
    ensures Creates(d, id, input) <==> EnsureError(d, id, input).None? && FindImport(d, input.upload).None?
  {
    hide UploadMatches, Fits, SameSource;
    FitsIff(d, input);
    if Fits(d, input) { FitsDigest(d, input); }
  }

  lemma FindsIff(d: Db, id: ImportId, input: EnsureInput, i: ImportId)
    requires Inv(d)
    ensures Finds(d, input, i) <==> EnsureError(d, id, input).None? && FindImport(d, input.upload) == Some(i)
  {
    hide BlobsOk, EntriesOk, CountersOk, BatchesOk, ItemsOk, NamesOk, TicketsOk, FactsOk, UploadMatches, Fits;
    FitsIff(d, input);
    if Fits(d, input) {
      FitsDigest(d, input);
      if i in d.imports && d.imports[i].upload == input.upload { OnlyImport(d, input.upload, i); }
    }
  }

  lemma DueIff(d: Db, id: ImportId)
    ensures Due(d, id) <==> Claimable(d, id)
  {}

  // ---------------------------------------------------------------- the steps

  lemma EnsureRule(d: Db, id: ImportId, input: EnsureInput, i: ImportId)
    ensures Look(Ensure(d, id, input).imports, i) == AfterEnsure(d, id, input, i)
  {
    hide Creates, EnsureError, FindImport, LinkUpload, AddImport, Look, NewImport;
    CreatesIff(d, id, input);
    if EnsureError(d, id, input).None? {
      EnsuredUpload(d, id, input);
      var blob := d.uploads[input.upload].blob.value;
      if FindImport(d, input.upload).None? {
        CreatedBlob(d, id, input);
        AddedImport(d, id, input, blob, i);
        LinkKeepsImports(AddImport(d, id, input, blob), input.upload, id);
      } else {
        LinkKeepsImports(d, input.upload, FindImport(d, input.upload).value);
      }
    }
  }

  lemma LinkKeepsImports(d: Db, u: UploadId, id: ImportId)
    requires u in d.uploads
    ensures LinkUpload(d, u, id).imports == d.imports
  {}

  lemma AddedImport(d: Db, id: ImportId, input: EnsureInput, blob: BlobId, i: ImportId)
    requires blob in d.blobs && d.blobs[blob].key == Canonical(input.digest)
    ensures AddImport(d, id, input, blob).uploads == d.uploads
    ensures Look(AddImport(d, id, input, blob).imports, i) ==
      if i == id
      then Some(Import(input.upload, input.createdBy, input.format, blob, Canonical(input.digest), input.digest,
                       input.size, false, Queued, 0, 3, 0, d.now, None, 0, 0, 0, 0, 0))
      else Look(d.imports, i)
  {
    hide Look;
    LookWritten(d.imports, id, NewImport(input, blob, d.blobs[blob].key, d.now), i);
  }

  lemma EnsuredUpload(d: Db, id: ImportId, input: EnsureInput)
    requires EnsureError(d, id, input).None?
    ensures input.upload in d.uploads && d.uploads[input.upload].blob.Some? && d.uploads[input.upload].blob.value in d.blobs
  {
    hide UploadMatches, SameSource, FindImport;
  }

  lemma CreatedBlob(d: Db, id: ImportId, input: EnsureInput)
    requires Creates(d, id, input)
    ensures Fits(d, input)
    ensures input.upload in d.uploads && d.uploads[input.upload].blob.Some? && d.uploads[input.upload].blob.value in d.blobs
    ensures d.blobs[d.uploads[input.upload].blob.value].key == Canonical(input.digest)
  {}

  lemma EnsureUploadRule(d: Db, id: ImportId, input: EnsureInput, u: UploadId)
    requires Inv(d)
    ensures UploadRule(d, EnsureImport(id, input), u, Look(Ensure(d, id, input).uploads, u))
  {
    hide Inv, Creates, Finds, EnsureError, FindImport, Fits, LinkUpload, AddImport, Look;
    CreatesIff(d, id, input);
    forall i: ImportId ensures Finds(d, input, i) <==> EnsureError(d, id, input).None? && FindImport(d, input.upload) == Some(i) {
      FindsIff(d, id, input, i);
    }
    if EnsureError(d, id, input).None? {
      EnsuredUpload(d, id, input);
      var blob := d.uploads[input.upload].blob.value;
      var found := FindImport(d, input.upload);
      if found.None? {
        AddKeepsUploads(d, id, input, blob);
        LinkedUpload(AddImport(d, id, input, blob), input.upload, id, u);
      } else {
        assert Finds(d, input, found.value);
        LinkedUpload(d, input.upload, found.value, u);
      }
    }
  }

  lemma AddKeepsUploads(d: Db, id: ImportId, input: EnsureInput, blob: BlobId)
    requires blob in d.blobs
    ensures AddImport(d, id, input, blob).uploads == d.uploads
  {}

  lemma LinkedUpload(d: Db, u: UploadId, id: ImportId, v: UploadId)
    requires u in d.uploads
    ensures Look(LinkUpload(d, u, id).uploads, v) ==
      if u == v then Some(Look(d.uploads, v).value.(archiveImport := Some(id))) else Look(d.uploads, v)
  {}

  lemma ClaimRule(d: Db, id: ImportId, owner: Owner, duration: nat, i: ImportId)
    ensures Look(Claim(d, id, owner, duration).imports, i) == AfterClaim(d, id, owner, duration, i)
  {
    hide Due, Claimable, Look, GateBusy, Idle;
    DueIff(d, id);
    IdleIff(d);
    if Due(d, id) {
      DueRow(d, id);
      LookWritten(d.imports, id,
                  d.imports[id].(status := Running, attempt := d.imports[id].attempt + 1, fence := d.imports[id].fence + 1,
                                 hold := Some(Hold(owner, d.now + duration))), i);
    }
  }

  lemma IdleIff(d: Db)
    ensures Idle(d) <==> !GateBusy(d)
  {}

  lemma DueRow(d: Db, id: ImportId)
    requires Due(d, id)
    ensures id in d.imports
  {}

  lemma LeaseRules(d: Db, l: Lease, duration: nat, i: ImportId)
    ensures Look(Heartbeat(d, l, duration).imports, i) == AfterHeartbeat(d, l, duration, i)
    ensures Look(Reset(d, l).imports, i) == AfterReset(d, l, i)
    ensures Look(Complete(d, l).imports, i) == AfterComplete(d, l, i)
  {
    hide ReleaseSource, ReleaseEntries, DeleteEntries, EntriesOf, Leased, Live;
    LeasedIff(d, l);
    LeaseNames(d, l);
  }

  lemma FailureRule(d: Db, l: Lease, retry: bool, delay: nat, i: ImportId)
    ensures Look(FailLease(d, l, retry, delay).imports, i) == AfterFailure(d, l, retry, delay, i)
  {
    hide Requeue, GiveUp, Look, Leased, Live, Held, Named;
    LeasedIff(d, l);
    NamedIff(d, l);
    LeaseNames(d, l);
    NamesImport(d, l);
    if l.id in d.imports {
      Requeued(d, l.id, delay, i);
      GivenUp(d, l.id, i);
    }
  }

  lemma NamesImport(d: Db, l: Lease)
    ensures Named(d, l) ==> l.id in d.imports
  {}

  lemma PersistRule(d: Db, l: Lease, m: NewEntry, i: ImportId)
    requires Inv(d)
    ensures Look(Persist(d, l, m).imports, i) == AfterPersist(d, l, m, i)
  {
    hide Inv, Persists, PersistError, Retain, RetainedBlob;
    PersistsIff(d, l, m);
    if Persists(d, l, m) { PersistLease(d, l, m); }
  }

  lemma Requeued(d: Db, id: ImportId, delay: nat, i: ImportId)
    requires id in d.imports
    ensures Look(Requeue(d, id, delay).imports, i) ==
      if i == id then Some(d.imports[id].(status := Queued, hold := None, availableAt := d.now + delay)) else Look(d.imports, i)
  {}

  lemma GivenUp(d: Db, id: ImportId, i: ImportId)
    requires id in d.imports
    ensures Look(GiveUp(d, id).imports, i) ==
      if i == id then Some(d.imports[id].(status := Failed, hold := None, sourceReleased := true)) else Look(d.imports, i)
  {
    hide ReleaseSource;
  }

  lemma RecoverRule(d: Db, id: ImportId, delay: nat, i: ImportId)
    ensures Look(RecoverExpired(d, id, delay).imports, i) == AfterRecovery(d, id, delay, i)
  {
    hide Requeue, GiveUp, Look;
    if id in d.imports {
      Requeued(d, id, delay, i);
      GivenUp(d, id, i);
    }
  }

  lemma BoundImport(d: Db, e: EntryId, u: UploadId, t: TaskId, i: ImportId)
    requires e in d.entries && d.entries[e].blob.Some?
    ensures Look(BindEntry(d, e, u, t).imports, i) == WithTask(d, e, i)
  {
    hide ReleaseOne;
  }

  lemma FinalizeImportRule(d: Db, w: Work, u: UploadId, t: TaskId, created: bool, i: ImportId)
    requires Inv(d)
    ensures Look(FinalizeItem(d, w, u, t, created).imports, i) == AfterFinalize(d, w, u, t, i)
  {
    hide Inv, WithTask, AtWork, WorkLive, BindError, Bindable, BindEntry;
    AtWorkIff(d, w);
    if AtWork(d, w) {
      WorkEntry(d, w);
      BindableIff(d, w.entry, u, t);
      WorkedItem(d, w);
      if Bindable(d, w.entry, u, t) {
        BindableBlob(d, w.entry, u, t);
        BoundImport(d, w.entry, u, t, i);
      }
    }
  }

  lemma ReconcileImportRule(d: Db, e: EntryId, i: ImportId)
    ensures Look(Reconcile(d, e).imports, i) == AfterReconcile(d, e, i)
  {
    hide Adoptable, Linkable, Reconcile, BindEntry, WithTask, LinkFact;
    if t :| Adoptable(d, e, t) {
      Adopted(d, e, t);
      OneTask(d, e, t);
      BoundImport(d, e, d.tasks[t], t, i);
    } else {
      ReconciledOrNot(d, e);
      if u :| Linkable(d, e, u) { LinkedImports(d, e, u); }
    }
  }

  lemma LinkedImports(d: Db, e: EntryId, u: UploadId)
    requires Linkable(d, e, u)
    ensures Reconcile(d, e).imports == d.imports
  {
    hide Linkable, Reconcile;
    Linked(d, e, u);
  }

  lemma PrepareRule(d: Db, u: UploadId, actor: Actor, i: ImportId)
    requires Inv(d)
    ensures Look(PrepareDelete(d, u, actor).imports, i) == AfterPrepare(d, u, actor, i)
  {
    hide Inv, Quiet, FindImport, MayDelete, PrepareDelete;
    if i in d.imports && d.imports[i].upload == u { FoundOnly(d, u, i); }
    var found := FindImport(d, u);
    if found.Some? {
      FoundIs(d, u);
      Prepared(d, u, actor, found.value);
    } else {
      NothingPrepared(d, u, actor);
    }
  }

  lemma NothingPrepared(d: Db, u: UploadId, actor: Actor)
    requires FindImport(d, u).None?
    ensures PrepareDelete(d, u, actor) == d
  {}

  lemma Prepared(d: Db, u: UploadId, actor: Actor, a: ImportId)
    requires FindImport(d, u) == Some(a) && a in d.imports
    ensures PrepareDelete(d, u, actor).imports ==
      if d.imports[a].status in {Queued, Ready, Failed} && MayDelete(actor, d.imports[a]) && Quiet(d, a)
      then d.imports[a := d.imports[a].(status := Tombstoned, hold := None)] else d.imports
  {
    hide Quiet, FindImport, MayDelete, PrepareError;
    PrepareIff(d, u, actor, a);
  }

  lemma PrepareIff(d: Db, u: UploadId, actor: Actor, a: ImportId)
    requires FindImport(d, u) == Some(a) && a in d.imports
    ensures PrepareError(d, u, actor).None? && d.imports[a].status !in {Erased, Tombstoned} <==>
            MayDelete(actor, d.imports[a]) && Quiet(d, a) && d.imports[a].status in {Queued, Ready, Failed}
  {
    hide FindImport, Count;
    NobodyOpen(d, a);
  }

  lemma FoundOnly(d: Db, u: UploadId, i: ImportId)
    requires Inv(d) && i in d.imports && d.imports[i].upload == u
    ensures FindImport(d, u) == Some(i)
  {
    hide BlobsOk, EntriesOk, CountersOk, BatchesOk, ItemsOk, NamesOk, TicketsOk, FactsOk;
    OnlyImport(d, u, i);
  }

  lemma FoundIs(d: Db, u: UploadId)
    requires FindImport(d, u).Some?
    ensures FindImport(d, u).value in d.imports && d.imports[FindImport(d, u).value].upload == u
  {}

  lemma EraseRule(d: Db, u: UploadId, i: ImportId)
    requires Inv(d)
    ensures Look(FinalizeDelete(d, u).imports, i) == AfterErase(d, u, i)
  {
    hide Inv, Erasable, FinalizeDeleteError, FindImport, ReleaseEntries, ReleaseSource, EntriesOf, BatchesOf;
    if a :| Erasable(d, u, a) {
      ErasedIff(d, u, a);
      OneErased(d, u, a);
    } else {
      NotErased(d, u);
    }
  }

  /** Every step treats every import as its rule says. */
  lemma ImportsFollow(d: Db, ev: Event, i: ImportId)
    requires Inv(d)
    ensures if Enabled(d, ev) then Look(Next(d, ev).imports, i) == ImportAfter(d, ev, i) else Next(d, ev) == d
  {
    hide Inv, ImportAfter, Effect;
    if !Enabled(d, ev) { return; }
    if !TouchesImports(ev) {
      ImportsKept(d, ev);
      UntouchedImport(d, ev, i);
    } else if ev.Finalize? || ev.ReconcileEntry? || ev.Prepare? || ev.Erase? || ev.Tick? {
      ReadyImport(d, ev, i);
    } else {
      WorkedImport(d, ev, i);
    }
  }

  lemma UntouchedImport(d: Db, ev: Event, i: ImportId)
    requires !TouchesImports(ev)
    ensures ImportAfter(d, ev, i) == Look(d.imports, i)
  {}

  lemma ReadyImport(d: Db, ev: Event, i: ImportId)
    requires Inv(d) && (ev.Finalize? || ev.ReconcileEntry? || ev.Prepare? || ev.Erase? || ev.Tick?)
    ensures Look(Effect(d, ev).imports, i) == ImportAfter(d, ev, i)
  {
    hide Inv, Look, AfterEnsure, AfterClaim, AfterHeartbeat, AfterReset, AfterPersist, AfterComplete, AfterFailure,
         AfterRecovery, AfterFinalize, AfterReconcile, AfterPrepare, AfterErase,
         Ensure, Claim, Heartbeat, Reset, Persist, Complete, FailLease, RecoverExpired,
         MarkBlobDeleted, BeginBatch, ClaimItem, SaveDerived, FinalizeItem, FailItem,
         CompleteBatch, Reconcile, PrepareDelete, FinalizeDelete, Derive, DeriveStatus,
         DeriveTask, TaskGone, DerivedGone, OtherRetain, OtherRelease, OtherStage, OtherPublish;
    match ev
    case Finalize(w, u, t, created) => FinalizeImportRule(d, w, u, t, created, i);
    case ReconcileEntry(e) => ReconcileImportRule(d, e, i);
    case Prepare(u, actor) => PrepareRule(d, u, actor, i);
    case Erase(u) => EraseRule(d, u, i);
    case Tick(_) =>
  }

  lemma WorkedImport(d: Db, ev: Event, i: ImportId)
    requires Inv(d) && TouchesImports(ev)
    requires !(ev.Finalize? || ev.ReconcileEntry? || ev.Prepare? || ev.Erase? || ev.Tick?)
    ensures Look(Effect(d, ev).imports, i) == ImportAfter(d, ev, i)
  {
    hide Inv, Look, AfterEnsure, AfterClaim, AfterHeartbeat, AfterReset, AfterPersist, AfterComplete, AfterFailure,
         AfterRecovery, AfterFinalize, AfterReconcile, AfterPrepare, AfterErase,
         Ensure, Claim, Heartbeat, Reset, Persist, Complete, FailLease, RecoverExpired,
         MarkBlobDeleted, BeginBatch, ClaimItem, SaveDerived, FinalizeItem, FailItem,
         CompleteBatch, Reconcile, PrepareDelete, FinalizeDelete, Derive, DeriveStatus,
         DeriveTask, TaskGone, DerivedGone, OtherRetain, OtherRelease, OtherStage, OtherPublish;
    match ev
    case EnsureImport(id, input) => EnsureRule(d, id, input, i);
    case ClaimImport(id, owner, duration) => ClaimRule(d, id, owner, duration, i);
    case HeartbeatLease(l, duration) => LeaseRules(d, l, duration, i);
    case ResetImport(l) => LeaseRules(d, l, 0, i);
    case PersistMember(l, m) => PersistRule(d, l, m, i);
    case CompleteImport(l) => LeaseRules(d, l, 0, i);
    case FailImport(l, retry, delay) => FailureRule(d, l, retry, delay, i);
    case RecoverImport(id, delay) => RecoverRule(d, id, delay, i);
  }

  // ---------------------------------------------------------------- batches and uploads

  lemma BegunBatch(d: Db, c: BatchId, request: BatchInput, fingerprint: string, b: BatchId)
    requires Inv(d) && c !in d.mintedBatches
    ensures BatchRule(d, Begin(c, request, fingerprint), b, Look(BeginBatch(d, c, request, fingerprint).batches, b))
  {
    hide Inv, Opens, BeginError, FindBatch, Chosen, Selectable, InsertItems, Wanted;
    OpensIff(d, c, request, fingerprint);
    if Opens(d, c, request) {
      BeginRow(d, c, request, fingerprint);
      ChosenAt(d, request.archive, request.publicIds);
      ChosenCreated(d, request);
    }
  }

  /** All chosen entries are created exactly if all wanted ones are. */
  lemma ChosenCreated(d: Db, request: BatchInput)
    requires Inv(d)
    requires forall n | 0 <= n < |request.publicIds| :: Selectable(d, request.archive, request.publicIds[n])
    requires forall e | e in Chosen(d, request.archive, request.publicIds) :: e in d.entries
    ensures (forall e | e in Chosen(d, request.archive, request.publicIds) :: d.entries[e].status == Created) <==>
            forall n, e | 0 <= n < |request.publicIds| && Wanted(d, request.archive, request.publicIds[n], e) ::
              d.entries[e].status == Created
  {
    hide Inv, Chosen, Selectable, Wanted;
    var chosen := Chosen(d, request.archive, request.publicIds);
    ChosenAt(d, request.archive, request.publicIds);
    forall n | 0 <= n < |chosen|
      ensures forall e: EntryId :: Wanted(d, request.archive, request.publicIds[n], e) <==> e == chosen[n]
    {
      WantedIs(d, request.archive, request.publicIds[n]);
      IsWanted(d, request.archive, request.publicIds[n], chosen[n]);
    }
    forall n, e: EntryId | 0 <= n < |request.publicIds| && Wanted(d, request.archive, request.publicIds[n], e)
      ensures e in chosen
    {
      assert e == chosen[n];
    }
    forall e | e in chosen ensures exists n | 0 <= n < |request.publicIds| :: Wanted(d, request.archive,
        request.publicIds[n], e) {
      var n :| 0 <= n < |chosen| && chosen[n] == e;
      assert Wanted(d, request.archive, request.publicIds[n], e);
    }
  }

  lemma IsWanted(d: Db, a: ImportId, publicId: nat, e: EntryId)
    requires Inv(d) && e in d.entries && d.entries[e].archive == a && d.entries[e].publicId == publicId
    requires d.entries[e].status != Skipped
    ensures Wanted(d, a, publicId, e)
    ensures forall f: EntryId | Wanted(d, a, publicId, f) :: f == e
  {
    hide BlobsOk, ImportsOk, CountersOk, BatchesOk, ItemsOk, NamesOk, TicketsOk, FactsOk, EntryOk;
    forall f: EntryId | Wanted(d, a, publicId, f) ensures f == e {
      assert SameKey(d.entries[e], d.entries[f]);
    }
  }

  lemma FinishedBatch(d: Db, c: BatchId, b: BatchId)
    ensures Look(CompleteBatch(d, c).batches, b) == AfterFinish(d, c, b)
  {
    hide AllDone, Finished;
    DoneIff(d, c);
  }

  lemma DoneIff(d: Db, c: BatchId)
    ensures Finished(d, c) <==> c in d.batches && !d.batches[c].completed && AllDone(d, c)
  {}

  lemma ErasedBatch(d: Db, u: UploadId, b: BatchId)
    requires Inv(d)
    ensures BatchRule(d, Erase(u), b, Look(FinalizeDelete(d, u).batches, b))
  {
    hide Inv, Erasable, FinalizeDeleteError, FindImport, ReleaseEntries, ReleaseSource, EntriesOf;
    if a :| Erasable(d, u, a) {
      ErasedIff(d, u, a);
      OneErased(d, u, a);
    } else {
      NotErased(d, u);
    }
  }

  predicate TouchesBatches(ev: Event) { ev.Begin? || ev.Finish? || ev.Erase? }

  lemma BatchesKept(d: Db, ev: Event)
    requires !TouchesBatches(ev)
    ensures Effect(d, ev).batches == d.batches
  {
    hide KeepsImports, KeepsEntries, KeepsUploads,
         Ensure, Claim, Heartbeat, Reset, Persist, Complete, FailLease, RecoverExpired,
         MarkBlobDeleted, BeginBatch, ClaimItem, SaveDerived, FinalizeItem, FailItem,
         CompleteBatch, Reconcile, PrepareDelete, FinalizeDelete, Derive, DeriveStatus,
         DeriveTask, TaskGone, DerivedGone, OtherRetain, OtherRelease, OtherStage, OtherPublish;
  }

  /** Every step treats every batch as its rule says. */
  lemma BatchesFollow(d: Db, ev: Event, b: BatchId)
    requires Inv(d)
    ensures if Enabled(d, ev) then BatchRule(d, ev, b, Look(Next(d, ev).batches, b)) else Next(d, ev) == d
  {
    hide Inv, Effect, BatchRule;
    if !Enabled(d, ev) { return; }
    if TouchesBatches(ev) {
      TouchedBatch(d, ev, b);
    } else {
      BatchesKept(d, ev);
      UntouchedBatch(d, ev, b);
    }
  }

  lemma UntouchedBatch(d: Db, ev: Event, b: BatchId)
    requires !TouchesBatches(ev)
    ensures BatchRule(d, ev, b, Look(d.batches, b))
  {}

  lemma TouchedBatch(d: Db, ev: Event, b: BatchId)
    requires Inv(d) && Enabled(d, ev) && TouchesBatches(ev)
    ensures BatchRule(d, ev, b, Look(Effect(d, ev).batches, b))
  {
    hide Inv, BatchRule, BeginBatch, CompleteBatch, FinalizeDelete;
    match ev
    case Begin(c, request, fingerprint) => BegunBatch(d, c, request, fingerprint, b);
    case Finish(c) =>
      FinishedBatch(d, c, b);
      RuleOfFinish(d, c, b);
    case Erase(u) => ErasedBatch(d, u, b);
  }

  lemma RuleOfFinish(d: Db, c: BatchId, b: BatchId)
    ensures BatchRule(d, Finish(c), b, AfterFinish(d, c, b))
  {
    hide AfterFinish;
  }

  lemma UploadsKept(d: Db, ev: Event)
    requires !ev.EnsureImport? && !ev.ChangeUpload?
    ensures Effect(d, ev).uploads == d.uploads
  {
    hide KeepsImports, KeepsEntries,
         Ensure, Claim, Heartbeat, Reset, Persist, Complete, FailLease, RecoverExpired,
         MarkBlobDeleted, BeginBatch, ClaimItem, SaveDerived, FinalizeItem, FailItem,
         CompleteBatch, Reconcile, PrepareDelete, FinalizeDelete, Derive, DeriveStatus,
         DeriveTask, TaskGone, DerivedGone, OtherRetain, OtherRelease, OtherStage, OtherPublish;
  }

  /** Every step treats every upload as its rule says. */
  lemma UploadsFollow(d: Db, ev: Event, u: UploadId)
    requires Inv(d)
    ensures UploadRule(d, ev, u, Look(Next(d, ev).uploads, u))
  {
    hide Inv, Ensure, Creates, Finds;
    if !Enabled(d, ev) {
      return;
    } else if ev.EnsureImport? {
      EnsureUploadRule(d, ev.id, ev.input, u);
    } else if !ev.ChangeUpload? {
      UploadsKept(d, ev);
    }
  }
}
