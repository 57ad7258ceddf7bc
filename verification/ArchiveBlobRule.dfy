/** Every step treats every blob as its rule says. */
module ArchiveBlobRule {
  import opened Counting
  import opened ArchiveDb
  import opened ArchiveTransactions
  import opened ArchiveBindSteps
  import opened ArchiveRuns
  import opened ArchiveRules
  import opened ArchiveEntryRule
  import opened ArchiveImportRule

  // ---------------------------------------------------------------- references given back

  /** References are given back, and the last one leaves the blob to deletion. */
  predicate Falls(was: Blob, next: Blob) {
    && next == was.(refs := next.refs, state := next.state) && 0 <= next.refs <= was.refs
    && next.state == if next.refs == 0 && was.refs > 0 then Deleting else was.state
  }

  ghost predicate AllFall(blobs: map<BlobId, Blob>, after: map<BlobId, Blob>) {
    after.Keys == blobs.Keys && forall b | b in blobs :: Falls(blobs[b], after[b])
  }

  lemma FallsRule(d: Db, ev: Event, b: BlobId, after: map<BlobId, Blob>)
    requires AllFall(d.blobs, after) && (b in d.blobs ==> d.blobs[b].refs >= 0)
    requires !ev.BlobRemoved? && !ev.PublishElsewhere?
    ensures BlobRule(d, ev, b, Look(after, b))
  {
    hide Persists;
  }

  lemma FallsTwice(a: map<BlobId, Blob>, b: map<BlobId, Blob>, c: map<BlobId, Blob>)
    requires AllFall(a, b) && AllFall(b, c)
    ensures AllFall(a, c)
  {
    forall x | x in a ensures Falls(a[x], c[x]) { assert Falls(a[x], b[x]) && Falls(b[x], c[x]); }
  }

  lemma NothingFalls(blobs: map<BlobId, Blob>)
    requires forall b | b in blobs :: blobs[b].refs >= 0
    ensures AllFall(blobs, blobs)
  {}

  lemma RefsCounted(d: Db)
    requires Inv(d)
    ensures forall b | b in d.blobs :: d.blobs[b].refs >= 0
    ensures forall e | e in d.entries && d.entries[e].blob.Some? && !d.entries[e].released ::
      d.entries[e].blob.value in d.blobs && d.blobs[d.entries[e].blob.value].refs > 0
    ensures forall i | i in d.imports && !d.imports[i].sourceReleased ::
      d.imports[i].sourceBlob in d.blobs && d.blobs[d.imports[i].sourceBlob].refs > 0
  {
    hide ImportsOk, EntriesOk, CountersOk, BatchesOk, ItemsOk, NamesOk, TicketsOk, FactsOk;
    forall b | b in d.blobs ensures d.blobs[b].refs >= 0 {
      assert d.blobs[b].refs == References(b, d.imports, d.entries, d.holders[b]);
    }
  }

  lemma OneFalls(blobs: map<BlobId, Blob>, b: BlobId)
    requires forall c | c in blobs :: blobs[c].refs >= 0
    requires b in blobs ==> blobs[b].refs > 0
    ensures AllFall(blobs, ReleaseOne(blobs, b))
  {}

  lemma SourceFalls(d: Db, i: ImportId)
    requires Inv(d) && i in d.imports
    ensures AllFall(d.blobs, ReleaseSource(d.blobs, d.imports[i]))
  {
    hide Inv, ReleaseOne, AllFall;
    RefsCounted(d);
    NothingFalls(d.blobs);
    if !d.imports[i].sourceReleased { OneFalls(d.blobs, d.imports[i].sourceBlob); }
  }

  lemma EntriesFall(d: Db, gone: set<EntryId>)
    requires Inv(d)
    ensures AllFall(d.blobs, ReleaseEntries(d.blobs, Only(d.entries, gone)))
  {
    hide ImportsOk, EntriesOk, CountersOk, BatchesOk, ItemsOk, NamesOk, TicketsOk, FactsOk, Count, StatesOk, HoldersServed;
    forall b | b in d.blobs
      ensures Falls(d.blobs[b], Drop(d.blobs[b], Count(Only(d.entries, gone), EntryHolds(b))))
    {
      assert d.blobs[b].refs == References(b, d.imports, d.entries, d.holders[b]);
      CountSplit(d.entries, gone, EntryHolds(b));
    }
  }

  /** A source that is still held keeps its blob while the entries give theirs back. */
  lemma SourceAfterEntries(d: Db, gone: set<EntryId>, i: ImportId)
    requires Inv(d) && i in d.imports
    ensures AllFall(d.blobs, ReleaseSource(ReleaseEntries(d.blobs, Only(d.entries, gone)), d.imports[i]))
  {
    hide Inv, AllFall, ReleaseEntries, ReleaseOne;
    var after := ReleaseEntries(d.blobs, Only(d.entries, gone));
    EntriesFall(d, gone);
    if !d.imports[i].sourceReleased {
      SourceLeft(d, gone, i);
      FallenRefs(d.blobs, after);
      OneFalls(after, d.imports[i].sourceBlob);
      FallsTwice(d.blobs, after, ReleaseOne(after, d.imports[i].sourceBlob));
    }
  }

  lemma FallenRefs(a: map<BlobId, Blob>, b: map<BlobId, Blob>)
    requires AllFall(a, b)
    ensures forall c | c in b :: b[c].refs >= 0
  {}

  lemma SourceLeft(d: Db, gone: set<EntryId>, i: ImportId)
    requires Inv(d) && i in d.imports && !d.imports[i].sourceReleased
    ensures var after := ReleaseEntries(d.blobs, Only(d.entries, gone));
      d.imports[i].sourceBlob in after ==> after[d.imports[i].sourceBlob].refs > 0
  {
    hide ImportsOk, EntriesOk, CountersOk, BatchesOk, ItemsOk, NamesOk, TicketsOk, FactsOk, Count, StatesOk;
    var b := d.imports[i].sourceBlob;
    assert d.blobs[b].refs == References(b, d.imports, d.entries, d.holders[b]);
    CountSplit(d.entries, gone, EntryHolds(b));
    CountPositive(d.imports, i, SourceHolds(b));
  }

  // ---------------------------------------------------------------- the steps

  /** A blob that a step leaves alone. */
  lemma LeftAlone(d: Db, ev: Event, b: BlobId)
    requires b in d.blobs ==> d.blobs[b].refs >= 0
    requires b in d.blobs && ev == PublishElsewhere(b) ==> d.blobs[b].state != Staging
    requires b in d.blobs && ev == BlobRemoved(b) ==> d.blobs[b].state != Deleting || d.blobs[b].refs != 0
    ensures BlobRule(d, ev, b, Look(d.blobs, b))
  {
    hide Persists;
  }

  lemma EnsureBlob(d: Db, id: ImportId, input: EnsureInput, b: BlobId)
    requires Inv(d)
    ensures BlobRule(d, EnsureImport(id, input), b, Look(Ensure(d, id, input).blobs, b))
  {
    hide Inv, EnsureError, FindImport, BlobRule, Creates, LinkUpload, AddImport;
    RefsCounted(d);
    LeftAlone(d, EnsureImport(id, input), b);
    if EnsureError(d, id, input).None? {
      EnsuredUpload(d, id, input);
      CreatesIff(d, id, input);
      if FindImport(d, input.upload).None? {
        StoredSource(d, id, input);
        AddedBlob(d, id, input, d.uploads[input.upload].blob.value, b);
      }
    }
  }

  lemma AddedBlob(d: Db, id: ImportId, input: EnsureInput, blob: BlobId, b: BlobId)
    requires blob in d.blobs && d.blobs[blob].refs > 0
    requires BlobRule(d, EnsureImport(id, input), b, Look(d.blobs, b))
    ensures AddImport(d, id, input, blob).uploads == d.uploads
    ensures BlobRule(d, EnsureImport(id, input), b, Look(AddImport(d, id, input, blob).blobs, b))
  {
    hide NewImport, Persists;
  }

  lemma StoredSource(d: Db, id: ImportId, input: EnsureInput)
    requires Inv(d) && Creates(d, id, input)
    ensures d.blobs[d.uploads[input.upload].blob.value].refs > 0
  {
    hide ImportsOk, EntriesOk, CountersOk, BatchesOk, ItemsOk, NamesOk, TicketsOk, FactsOk, Conserved;
  }

  lemma PersistBlob(d: Db, l: Lease, m: NewEntry, b: BlobId)
    requires Inv(d)
    ensures BlobRule(d, PersistMember(l, m), b, Look(Persist(d, l, m).blobs, b))
  {
    hide Inv, Persists, PersistError, RetainError, FindBlob;
    PersistsIff(d, l, m);
    RefsCounted(d);
    if Persists(d, l, m) {
      PersistLease(d, l, m);
      if m.eligible {
        Retainable(d, l, m);
        StatesFollow(d);
        NewBlob(d);
      }
    }
  }

  lemma NewBlob(d: Db)
    requires Inv(d)
    ensures d.nextBlob !in d.blobs
  {
    hide BlobsOk, ImportsOk, EntriesOk, CountersOk, BatchesOk, ItemsOk, TicketsOk, FactsOk;
  }

  lemma StatesFollow(d: Db)
    requires Inv(d)
    ensures forall b | b in d.blobs :: d.blobs[b].refs > 0 <==> d.blobs[b].state in {Available, Staging}
  {
    hide ImportsOk, EntriesOk, CountersOk, BatchesOk, ItemsOk, NamesOk, TicketsOk, FactsOk, Conserved, HoldersServed;
  }

  lemma Retainable(d: Db, l: Lease, m: NewEntry)
    requires Inv(d) && Persists(d, l, m) && m.eligible
    ensures FindBlob(d.blobs, m.digest()).Some? ==>
      var b := FindBlob(d.blobs, m.digest()).value;
      && b in d.blobs && d.blobs[b].digest == DigestOf(m)
      && (d.blobs[b].state == Available || (d.blobs[b].state in {Deleting, Deleted} && d.blobs[b].refs == 0))
  {
    hide Inv;
  }

  lemma BoundBlobs(d: Db, e: EntryId, u: UploadId, t: TaskId)
    requires Inv(d) && e in d.entries && d.entries[e].blob.Some?
    ensures AllFall(d.blobs, BindEntry(d, e, u, t).blobs)
  {
    hide Inv, AllFall, ReleaseOne, CountCreated;
    RefsCounted(d);
    NothingFalls(d.blobs);
    if !d.entries[e].released { OneFalls(d.blobs, d.entries[e].blob.value); }
  }

  lemma FinalizeBlobs(d: Db, w: Work, u: UploadId, t: TaskId, created: bool)
    requires Inv(d)
    ensures AllFall(d.blobs, FinalizeItem(d, w, u, t, created).blobs)
  {
    hide Inv, AllFall, BindEntry, BindError, WorkLive;
    RefsCounted(d);
    NothingFalls(d.blobs);
    WorkThere(d, w);
    if FinalizeError(d, w, u, t).None? {
      BindNeedsBlob(d, w.entry, u, t);
      BoundBlobs(d, w.entry, u, t);
    }
  }

  lemma WorkThere(d: Db, w: Work)
    ensures WorkLive(d, w) ==> (w.batch, w.entry) in d.items
  {}

  lemma ReconcileBlobs(d: Db, e: EntryId)
    requires Inv(d)
    ensures AllFall(d.blobs, Reconcile(d, e).blobs)
  {
    hide Inv, AllFall, Reconcile, BindEntry, BindError, Candidates;
    RefsCounted(d);
    NothingFalls(d.blobs);
    var t, u := ReconcileOutcome(d, e);
    if t.Some? { BoundBlobs(d, e, d.tasks[t.value], t.value); }
  }

  lemma GiveUpBlobs(d: Db, id: ImportId)
    requires Inv(d) && id in d.imports
    ensures AllFall(d.blobs, GiveUp(d, id).blobs)
  {
    hide Inv, AllFall, ReleaseSource;
    SourceFalls(d, id);
  }

  lemma LeaseBlobs(d: Db, l: Lease, retry: bool, delay: nat)
    requires Inv(d)
    ensures AllFall(d.blobs, Reset(d, l).blobs) && AllFall(d.blobs, Complete(d, l).blobs)
    ensures AllFall(d.blobs, FailLease(d, l, retry, delay).blobs)
  {
    hide Inv, AllFall, ReleaseSource, ReleaseEntries, EntriesOf, Live, Held, GiveUp, Requeue;
    RefsCounted(d);
    NothingFalls(d.blobs);
    LiveNames(d, l);
    if Live(d, l) {
      SourceFalls(d, l.id);
      EntriesFall(d, EntriesOf(d, l.id));
      GiveUpBlobs(d, l.id);
    }
  }

  lemma LiveNames(d: Db, l: Lease)
    ensures Live(d, l) || Held(d, l) ==> l.id in d.imports
  {}

  lemma RecoverBlobs(d: Db, id: ImportId, delay: nat)
    requires Inv(d)
    ensures AllFall(d.blobs, RecoverExpired(d, id, delay).blobs)
  {
    hide Inv, AllFall, GiveUp, Requeue;
    RefsCounted(d);
    NothingFalls(d.blobs);
    if id in d.imports { GiveUpBlobs(d, id); }
  }

  lemma EraseBlobs(d: Db, u: UploadId)
    requires Inv(d)
    ensures AllFall(d.blobs, FinalizeDelete(d, u).blobs)
  {
    hide Inv, AllFall, FinalizeDeleteError, ReleaseSource, ReleaseEntries, EntriesOf, BatchesOf;
    RefsCounted(d);
    NothingFalls(d.blobs);
    if FindImport(d, u).Some? { SourceAfterEntries(d, EntriesOf(d, FindImport(d, u).value), FindImport(d, u).value); }
  }

  lemma RemovedBlob(d: Db, c: BlobId, b: BlobId)
    requires Inv(d)
    ensures BlobRule(d, BlobRemoved(c), b, Look(MarkBlobDeleted(d, c).blobs, b))
  {
    hide Inv, BlobRule, MarkBlobDeleted, Look;
    RefsCounted(d);
    RemovedLook(d, c, b);
    if b != c || b !in d.blobs || d.blobs[b].state != Deleting || d.blobs[b].refs != 0 {
      LeftAlone(d, BlobRemoved(c), b);
    } else {
      RemovedRow(d, b);
    }
  }

  lemma RemovedLook(d: Db, c: BlobId, b: BlobId)
    ensures Look(MarkBlobDeleted(d, c).blobs, b) ==
      if b == c && b in d.blobs && d.blobs[b].state == Deleting && d.blobs[b].refs == 0
      then Some(d.blobs[b].(state := Deleted)) else Look(d.blobs, b)
  {}

  lemma RemovedRow(d: Db, b: BlobId)
    requires b in d.blobs && d.blobs[b].state == Deleting && d.blobs[b].refs == 0
    ensures BlobRule(d, BlobRemoved(b), b, Some(d.blobs[b].(state := Deleted)))
  {
    hide Persists;
  }

  lemma RetainedElsewhere(d: Db, c: BlobId, b: BlobId)
    requires Inv(d)
    ensures BlobRule(d, RetainElsewhere(c), b, Look(OtherRetain(d, c).blobs, b))
  {
    hide Inv, BlobRule, OtherRetain, Look;
    RefsCounted(d);
    StatesFollow(d);
    RetainedLook(d, c, b);
    LeftAlone(d, RetainElsewhere(c), b);
    if b == c && b in d.blobs && d.blobs[b].refs > 0 { RetainedRow(d, b); }
  }

  lemma RetainedLook(d: Db, c: BlobId, b: BlobId)
    ensures Look(OtherRetain(d, c).blobs, b) ==
      if b == c && b in d.blobs && d.blobs[b].state in {Available, Staging}
      then Some(d.blobs[b].(refs := d.blobs[b].refs + 1)) else Look(d.blobs, b)
  {}

  lemma RetainedRow(d: Db, b: BlobId)
    requires b in d.blobs && d.blobs[b].refs > 0
    ensures BlobRule(d, RetainElsewhere(b), b, Some(d.blobs[b].(refs := d.blobs[b].refs + 1)))
  {
    hide Persists;
  }

  lemma ReleasedElsewhere(d: Db, c: BlobId, b: BlobId)
    requires Inv(d)
    ensures BlobRule(d, ReleaseElsewhere(c), b, Look(OtherRelease(d, c).blobs, b))
  {
    hide Inv, BlobRule, AllFall;
    RefsCounted(d);
    HoldersCounted(d);
    NothingFalls(d.blobs);
    if c in d.blobs && c in d.holders && d.holders[c] > 0 {
      OneFalls(d.blobs, c);
      FallsRule(d, ReleaseElsewhere(c), b, ReleaseOne(d.blobs, c));
    } else {
      FallsRule(d, ReleaseElsewhere(c), b, d.blobs);
    }
  }

  lemma PublishedBlob(d: Db, c: BlobId, b: BlobId)
    requires Inv(d)
    ensures BlobRule(d, PublishElsewhere(c), b, Look(OtherPublish(d, c).blobs, b))
  {
    hide Inv, BlobRule, OtherPublish, Look;
    RefsCounted(d);
    StatesFollow(d);
    PublishedLook(d, c, b);
    if b != c || b !in d.blobs || d.blobs[b].state != Staging {
      LeftAlone(d, PublishElsewhere(c), b);
    } else {
      PublishedRow(d, b);
    }
  }

  lemma PublishedLook(d: Db, c: BlobId, b: BlobId)
    ensures Look(OtherPublish(d, c).blobs, b) ==
      if b == c && b in d.blobs && d.blobs[b].state == Staging
      then Some(d.blobs[b].(state := Available)) else Look(d.blobs, b)
  {}

  lemma PublishedRow(d: Db, b: BlobId)
    requires b in d.blobs && d.blobs[b].state == Staging && d.blobs[b].refs > 0
    ensures BlobRule(d, PublishElsewhere(b), b, Some(d.blobs[b].(state := Available)))
  {
    hide Persists;
  }

  lemma HoldersCounted(d: Db)
    requires Inv(d)
    ensures forall b | b in d.blobs :: b in d.holders && d.holders[b] <= d.blobs[b].refs
  {
    hide ImportsOk, EntriesOk, CountersOk, BatchesOk, ItemsOk, NamesOk, TicketsOk, FactsOk, StatesOk, HoldersServed;
    forall b | b in d.blobs ensures d.holders[b] <= d.blobs[b].refs {
      assert d.blobs[b].refs == References(b, d.imports, d.entries, d.holders[b]);
    }
  }

  lemma StageBlob(d: Db, digest: Digest, size: int, key: StorageKey, b: BlobId)
    requires Inv(d)
    ensures BlobRule(d, StageElsewhere(digest, size, key), b, Look(OtherStage(d, digest, size, key).blobs, b))
  {
    hide Inv, BlobRule, FindBlob, OtherStage, Look;
    RefsCounted(d);
    NewBlob(d);
    LeftAlone(d, StageElsewhere(digest, size, key), b);
    StagedLook(d, digest, size, key, b);
    match FindBlob(d.blobs, digest)
    case None => StagedNew(d, digest, size, key);
    case Some(c) =>
      FoundDigest(d, digest);
      if d.blobs[c].state == Deleted && d.blobs[c].refs == 0 { StagedAgain(d, digest, size, key, c); }
  }

  lemma StagedLook(d: Db, digest: Digest, size: int, key: StorageKey, b: BlobId)
    ensures var next := Look(OtherStage(d, digest, size, key).blobs, b); var found := FindBlob(d.blobs, digest);
      || next == Look(d.blobs, b)
      || (found.None? && b == d.nextBlob && next == Some(Blob(digest, size, key, 1, Staging)))
      || (found == Some(b) && b in d.blobs && d.blobs[b].state == Deleted && d.blobs[b].refs == 0 &&
          next == Some(d.blobs[b].(refs := 1, state := Staging)))
  {
    if FindBlob(d.blobs, digest).Some? { FoundDigest(d, digest); }
    hide FindBlob;
  }

  lemma FoundDigest(d: Db, digest: Digest)
    requires FindBlob(d.blobs, digest).Some?
    ensures FindBlob(d.blobs, digest).value in d.blobs && d.blobs[FindBlob(d.blobs, digest).value].digest == digest
  {}

  lemma StagedNew(d: Db, digest: Digest, size: int, key: StorageKey)
    requires d.nextBlob !in d.blobs
    ensures BlobRule(d, StageElsewhere(digest, size, key), d.nextBlob, Some(Blob(digest, size, key, 1, Staging)))
  {
    hide Persists;
  }

  lemma StagedAgain(d: Db, digest: Digest, size: int, key: StorageKey, c: BlobId)
    requires c in d.blobs && d.blobs[c].state == Deleted && d.blobs[c].refs == 0 && d.blobs[c].digest == digest
    ensures BlobRule(d, StageElsewhere(digest, size, key), c, Some(d.blobs[c].(refs := 1, state := Staging)))
  {
    hide Persists;
  }

  predicate OnlyFalls(ev: Event) {
    ev.ResetImport? || ev.CompleteImport? || ev.FailImport? || ev.RecoverImport? || ev.Finalize? ||
        ev.ReconcileEntry? || ev.Erase?
  }

  lemma FallenBlobs(d: Db, ev: Event)
    requires Inv(d) && OnlyFalls(ev)
    ensures AllFall(d.blobs, Effect(d, ev).blobs)
  {
    hide Inv, AllFall, Ensure, Claim, Heartbeat, Reset, Persist, Complete, FailLease, RecoverExpired,
         MarkBlobDeleted, BeginBatch, ClaimItem, SaveDerived, FinalizeItem, FailItem,
         CompleteBatch, Reconcile, PrepareDelete, FinalizeDelete, Derive, DeriveStatus,
         DeriveTask, TaskGone, DerivedGone, OtherRetain, OtherRelease, OtherStage, OtherPublish;
    match ev
    case ResetImport(l) => LeaseBlobs(d, l, false, 0);
    case CompleteImport(l) => LeaseBlobs(d, l, false, 0);
    case FailImport(l, retry, delay) => LeaseBlobs(d, l, retry, delay);
    case RecoverImport(id, delay) => RecoverBlobs(d, id, delay);
    case Finalize(w, u, t, created) => FinalizeBlobs(d, w, u, t, created);
    case ReconcileEntry(e) => ReconcileBlobs(d, e);
    case Erase(u) => EraseBlobs(d, u);
  }

  /** Every step treats every blob as its rule says. */
  lemma BlobsFollow(d: Db, ev: Event, b: BlobId)
    requires Inv(d)
    ensures if Enabled(d, ev) then BlobRule(d, ev, b, Look(Next(d, ev).blobs, b)) else Next(d, ev) == d
  {
    hide Inv, Effect, BlobRule, AllFall;
    if !Enabled(d, ev) { return; }
    RefsCounted(d);
    if !TouchesBlobs(ev) {
      BlobsKept(d, ev);
      NothingFalls(d.blobs);
      FallsRule(d, ev, b, d.blobs);
    } else if OnlyFalls(ev) {
      FallenBlobs(d, ev);
      FallsRule(d, ev, b, Effect(d, ev).blobs);
    } else {
      ChangedBlob(d, ev, b);
    }
  }

  lemma ChangedBlob(d: Db, ev: Event, b: BlobId)
    requires Inv(d) && TouchesBlobs(ev) && !OnlyFalls(ev)
    ensures BlobRule(d, ev, b, Look(Effect(d, ev).blobs, b))
  {
    hide Inv, BlobRule, Look, Ensure, Claim, Heartbeat, Reset, Persist, Complete, FailLease, RecoverExpired,
         MarkBlobDeleted, BeginBatch, ClaimItem, SaveDerived, FinalizeItem, FailItem,
         CompleteBatch, Reconcile, PrepareDelete, FinalizeDelete, Derive, DeriveStatus,
         DeriveTask, TaskGone, DerivedGone, OtherRetain, OtherRelease, OtherStage, OtherPublish;
    match ev
    case EnsureImport(id, input) => EnsureBlob(d, id, input, b);
    case PersistMember(l, m) => PersistBlob(d, l, m, b);
    case StageElsewhere(digest, size, key) => StageBlob(d, digest, size, key, b);
    case BlobRemoved(c) => RemovedBlob(d, c, b);
    case RetainElsewhere(c) => RetainedElsewhere(d, c, b);
    case ReleaseElsewhere(c) => ReleasedElsewhere(d, c, b);
    case PublishElsewhere(c) => PublishedBlob(d, c, b);
  }
}
