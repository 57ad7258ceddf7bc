/** Exactly-once binding: what any run does to one entry, and what entries, items,
    tasks and counters agree on at every moment. */
module ArchiveBinding {
  import opened Counting
  import opened ArchiveDb
  import opened ArchiveTransactions
  import opened ArchiveBatchSteps
  import opened ArchiveRuns
  import opened ArchiveLifecycle

  // ---------------------------------------------------------------- one step

  /** How a row may change: what it is never changes, `created` and `released` are
      final, and a task link only goes away with the task row `unlink`. */
  predicate EntryEdge(was: Entry, row: Entry, unlink: Option<TaskId>) {
    && row.archive == was.archive && row.publicId == was.publicId
    && row.ordinal == was.ordinal && row.member == was.member && row.blob == was.blob
    && (was.status == Created ==> row.status == Created)
    && (was.released ==> row.released)
    && (was.task.Some? ==> row.task == was.task || was.task == unlink)
  }

  ghost predicate EntryMoves(d: Db, n: Db, e: EntryId, unlink: Option<TaskId>) {
    && (e in d.entries && e in n.entries ==> EntryEdge(d.entries[e], n.entries[e], unlink))
    && (e !in d.entries && e < d.nextEntry ==> e !in n.entries)
    && d.nextEntry <= n.nextEntry
  }

  lemma SameEntry(row: Entry) ensures EntryEdge(row, row, None) {}

  lemma ResetEntry(d: Db, l: Lease, e: EntryId)
    ensures EntryMoves(d, Reset(d, l), e, None)
  {
    hide EntryEdge, Live, ReleaseEntries, EntriesOf;
    if e in d.entries { SameEntry(d.entries[e]); }
    assert Live(d, l) ==> l.id in d.imports by { LeaseRow(d, l); }
  }

  lemma LeaseRow(d: Db, l: Lease) ensures Live(d, l) ==> l.id in d.imports {}

  lemma PersistEntry(d: Db, l: Lease, m: NewEntry, e: EntryId)
    requires forall f | f in d.entries :: f < d.nextEntry
    ensures EntryMoves(d, Persist(d, l, m), e, None)
  {
    hide EntryEdge, PersistError, Retain, RetainedBlob;
    if e in d.entries { SameEntry(d.entries[e]); }
    LiveIfPersisted(d, l, m);
  }

  lemma SweptEntry(d: Db, b: BatchId, e: EntryId)
    ensures EntryMoves(d, FailExhausted(d, b), e, None)
  {
    hide Exhausted;
  }

  lemma ClaimWorkEntry(
    d: Db, b: BatchId, choice: Option<EntryId>, owner: Owner, duration: nat, e: EntryId)
    ensures EntryMoves(d, ClaimItem(d, b, choice, owner, duration), e, None)
  {
    hide FailExhausted, ItemClaimable, Readable, EntryEdge, WorkOf;
    SweptEntry(d, b, e);
    if e in d.entries { SameEntry(d.entries[e]); }
    ClaimableRow(FailExhausted(d, b), b, choice);
  }

  lemma ClaimableRow(d: Db, b: BatchId, choice: Option<EntryId>)
    ensures choice.Some? && ItemClaimable(d, (b, choice.value)) ==>
              (b, choice.value) in d.items
  {}

  lemma SaveEntry(d: Db, w: Work, u: UploadId, e: EntryId)
    ensures EntryMoves(d, SaveDerived(d, w, u), e, None)
  {
    hide WorkLive, SaveError;
    SavedEntry(d, w, u);
  }

  lemma SavedEntry(d: Db, w: Work, u: UploadId)
    ensures SaveError(d, w, u).None? ==> w.entry in d.entries
  {}

  lemma FailWorkEntry(d: Db, w: Work, retry: bool, e: EntryId)
    ensures EntryMoves(d, FailItem(d, w, retry), e, None)
  {
    hide WorkLive;
    WorkItem(d, w);
  }

  lemma WorkItem(d: Db, w: Work)
    ensures WorkLive(d, w) ==> (w.batch, w.entry) in d.items
  {}

  lemma BoundEntryMoves(d: Db, f: EntryId, u: UploadId, t: TaskId, e: EntryId)
    requires f in d.entries && BindError(d, f, u, t).None?
    ensures d.entries[f].blob.Some? && EntryMoves(d, BindEntry(d, f, u, t), e, None)
  {
    hide TaskTaken, ReleaseOne, CountCreated;
    assert d.entries[f].task.Some? ==> d.entries[f].task == Some(t);
  }

  lemma FinalizeEntry(d: Db, w: Work, u: UploadId, t: TaskId, created: bool, e: EntryId)
    ensures EntryMoves(d, FinalizeItem(d, w, u, t, created), e, None)
  {
    hide BindEntry, BindError, EntryEdge, WorkLive;
    if e in d.entries { SameEntry(d.entries[e]); }
    WorkItem(d, w);
    if FinalizeError(d, w, u, t).None? {
      BoundEntryMoves(d, w.entry, u, t, e);
    }
  }

  lemma ReconciledEntry(d: Db, f: EntryId, e: EntryId)
    ensures EntryMoves(d, Reconcile(d, f), e, None)
  {
    hide Reconcile, BindEntry, BindError, EntryMoves;
    StillMoves(d, d, e);
    var task, upload := ReconcileOutcome(d, f);
    if task.Some? {
      BoundEntryMoves(d, f, d.tasks[task.value], task.value, e);
      ItemsDoNotMatter(d, BindEntry(d, f, d.tasks[task.value], task.value), e,
                       AdoptItems(d.items, f, task.value));
    } else if upload.Some? {
      LinkedEntry(d, f, upload.value, e);
    }
  }

  lemma ItemsDoNotMatter(d: Db, n: Db, e: EntryId, items: map<ItemKey, Item>)
    requires EntryMoves(d, n, e, None)
    ensures EntryMoves(d, n.(items := items), e, None)
  {}

  lemma LinkedEntry(d: Db, f: EntryId, u: UploadId, e: EntryId)
    requires f in d.entries
    ensures EntryMoves(d, LinkFact(d, f, u), e, None)
  {}

  lemma ErasedEntry(d: Db, u: UploadId, e: EntryId)
    ensures EntryMoves(d, FinalizeDelete(d, u), e, None)
  {
    hide EntryEdge, FinalizeDeleteError, FindImport;
    if e in d.entries { SameEntry(d.entries[e]); }
    if FinalizeDeleteError(d, u).None? && FindImport(d, u).Some? { ErasedStatus(d, u); }
  }

  lemma UnlinkedEntry(d: Db, t: TaskId, e: EntryId)
    ensures EntryMoves(d, TaskGone(d, t), e, Some(t))
  {}

  lemma DerivedGoneEntry(d: Db, u: UploadId, e: EntryId)
    ensures EntryMoves(d, DerivedGone(d, u), e, None)
  {
    hide UnlinkUpload, EntryEdge;
    ClearedEntry(d.entries, u, e);
    if e in d.entries { SameEntry(d.entries[e]); }
  }

  lemma ClearedEntry(entries: map<EntryId, Entry>, u: UploadId, e: EntryId)
    ensures e in UnlinkUpload(entries, u) <==> e in entries
    ensures e in entries ==> EntryEdge(entries[e], UnlinkUpload(entries, u)[e], None)
  {}

  lemma StillMoves(d: Db, n: Db, e: EntryId)
    ensures n.entries == d.entries && n.nextEntry == d.nextEntry ==> EntryMoves(d, n, e, None)
  {
    hide EntryEdge;
    if e in d.entries { SameEntry(d.entries[e]); }
  }

  /** The task row that a step deletes. */
  function Unlinks(ev: Event): Option<TaskId> {
    if ev.TaskRowGone? then Some(ev.task) else None
  }

  lemma EntrySteps(d: Db, ev: Event, e: EntryId)
    requires forall f | f in d.entries :: f < d.nextEntry
    ensures EntryMoves(d, Next(d, ev), e, Unlinks(ev))
  {
    hide Next, EntryMoves;
    if TouchesEntries(ev) {
      TouchedEntry(d, ev, e);
    } else {
      EntriesKept(d, ev);
      StillMoves(d, Next(d, ev), e);
    }
  }

  lemma TouchedEntry(d: Db, ev: Event, e: EntryId)
    requires TouchesEntries(ev) && forall f | f in d.entries :: f < d.nextEntry
    ensures EntryMoves(d, Next(d, ev), e, Unlinks(ev))
  {
    hide KeepsImports, KeepsUploads, KeepsEntries, Ensure, Claim, Heartbeat, Reset, Persist, Complete, FailLease, RecoverExpired,
         MarkBlobDeleted, BeginBatch, ClaimItem, SaveDerived, FinalizeItem, FailItem,
         CompleteBatch, Reconcile, PrepareDelete, FinalizeDelete, Derive, DeriveStatus,
         DeriveTask, TaskGone, DerivedGone, OtherRetain, OtherRelease, OtherStage, OtherPublish,
         EntryMoves;
    match ev
    case ResetImport(l) => ResetEntry(d, l, e);
    case PersistMember(l, m) => PersistEntry(d, l, m, e);
    case ClaimWork(b, choice, owner, duration) => ClaimWorkEntry(d, b, choice, owner, duration, e);
    case Save(w, u) => SaveEntry(d, w, u, e);
    case FailWork(w, retry) => FailWorkEntry(d, w, retry, e);
    case Finalize(w, u, t, created) => FinalizeEntry(d, w, u, t, created, e);
    case ReconcileEntry(f) => ReconciledEntry(d, f, e);
    case Erase(u) => ErasedEntry(d, u, e);
    case TaskRowGone(t) => UnlinkedEntry(d, t, e);
    case DerivedRowGone(u) => DerivedGoneEntry(d, u, e);
  }

  // ---------------------------------------------------------------- over runs

  lemma NamesBelow(d: Db)
    requires Inv(d)
    ensures forall f | f in d.entries :: f < d.nextEntry
  {
    hide BlobsOk, ImportsOk, EntriesOk, CountersOk, BatchesOk, ItemsOk, TicketsOk, FactsOk;
  }

  /** A row that is gone is never seen again: its id is not handed out twice. */
  lemma {:induction false} GoneStays(d: Db, evs: seq<Event>, e: EntryId)
    requires Inv(d) && e !in d.entries && e < d.nextEntry
    ensures e !in Run(d, evs).entries && e < Run(d, evs).nextEntry
  {
    hide Inv, Next;
    if evs != [] {
      var before := Run(d, evs[..|evs| - 1]);
      GoneStays(d, evs[..|evs| - 1], e);
      RunKeeps(d, evs[..|evs| - 1]);
      NamesBelow(before);
      EntrySteps(before, evs[|evs| - 1], e);
    }
  }

  /** The row of an entry, at the end of a run that still has it. */
  lemma {:induction false} EntryFate(d: Db, evs: seq<Event>, e: EntryId)
    requires Inv(d) && e in d.entries && e in Run(d, evs).entries
    ensures EntryEdge(d.entries[e], Run(d, evs).entries[e].(task := d.entries[e].task), None)
    ensures d.entries[e].task.Some? && TaskRowGone(d.entries[e].task.value) !in evs ==>
              Run(d, evs).entries[e].task == d.entries[e].task
  {
    hide Inv, Next;
    if evs != [] {
      var before := Run(d, evs[..|evs| - 1]);
      RunKeeps(d, evs[..|evs| - 1]);
      NamesBelow(before);
      EntrySteps(before, evs[|evs| - 1], e);
      EntryNamed(d, evs[..|evs| - 1], e);
      EntryFate(d, evs[..|evs| - 1], e);
    }
  }

  /** An id that is in use was handed out, and stays handed out. */
  lemma {:induction false} EntryNamed(d: Db, evs: seq<Event>, e: EntryId)
    requires Inv(d) && e in d.entries
    ensures e < Run(d, evs).nextEntry
  {
    hide Inv, Next;
    if evs == [] {
      NamesBelow(d);
    } else {
      var before := Run(d, evs[..|evs| - 1]);
      EntryNamed(d, evs[..|evs| - 1], e);
      RunKeeps(d, evs[..|evs| - 1]);
      NamesBelow(before);
      EntrySteps(before, evs[|evs| - 1], e);
    }
  }

  /** How often entry `e` gave its blob back during a run. */
  ghost function Releases(d: Db, evs: seq<Event>, e: EntryId): nat {
    if evs == [] then 0 else
    var before := Run(d, evs[..|evs| - 1]);
    var after := Next(before, evs[|evs| - 1]);
    Releases(d, evs[..|evs| - 1], e) +
      One(e in before.entries && e in after.entries && !before.entries[e].released &&
          after.entries[e].released)
  }

  /** An entry gives its blob back at most once, and has done so exactly when its row
      says `released`: whatever batches, retries and reconciliations the run holds. */
  lemma {:induction false} ReleasedOnce(d: Db, evs: seq<Event>, e: EntryId)
    requires Inv(d) && e in d.entries && e in Run(d, evs).entries
    ensures One(d.entries[e].released) + Releases(d, evs, e) == One(Run(d, evs).entries[e].released)
  {
    hide Inv, Next;
    if evs != [] {
      var before := Run(d, evs[..|evs| - 1]);
      RunKeeps(d, evs[..|evs| - 1]);
      NamesBelow(before);
      EntrySteps(before, evs[|evs| - 1], e);
      EntryNamed(d, evs[..|evs| - 1], e);
      ReleasedOnce(d, evs[..|evs| - 1], e);
    }
  }

  // ---------------------------------------------------------------- created is final

  /** Only the deletion of the whole import takes a created entry away. */
  lemma CreatedStep(d: Db, ev: Event, e: EntryId)
    requires Inv(d) && e in d.entries && d.entries[e].status == Created
    ensures e in Next(d, ev).entries ||
            (d.entries[e].archive in Next(d, ev).imports &&
             Next(d, ev).imports[d.entries[e].archive].status == Erased)
  {
    hide Inv;
    EntryRow(d, e);
    match ev
    case ResetImport(l) => ResetSparesCreated(d, l, e);
    case Erase(u) => EraseTakesAll(d, u, e);
    case _ => OthersSpare(d, ev);
  }

  /** No other step deletes entries. */
  lemma OthersSpare(d: Db, ev: Event)
    requires !ev.ResetImport? && !ev.Erase?
    ensures d.entries.Keys <= Next(d, ev).entries.Keys
  {
    hide KeepsImports, KeepsUploads, Ensure, Claim, Heartbeat, Reset, Persist, Complete, FailLease, RecoverExpired,
         MarkBlobDeleted, BeginBatch, ClaimItem, SaveDerived, FinalizeItem, FailItem,
         CompleteBatch, Reconcile, PrepareDelete, FinalizeDelete, Derive, DeriveStatus,
         DeriveTask, TaskGone, DerivedGone, OtherRetain, OtherRelease, OtherStage, OtherPublish;
  }

  lemma ResetSparesCreated(d: Db, l: Lease, e: EntryId)
    requires e in d.entries && EntryOk(d.entries[e], d.imports) && d.entries[e].status == Created
    ensures e in Reset(d, l).entries
  {
    hide ReleaseEntries;
  }

  lemma EraseTakesAll(d: Db, u: UploadId, e: EntryId)
    requires e in d.entries && d.entries[e].archive in d.imports
    ensures e in FinalizeDelete(d, u).entries ||
            (d.entries[e].archive in FinalizeDelete(d, u).imports &&
             FinalizeDelete(d, u).imports[d.entries[e].archive].status == Erased)
  {
    hide FinalizeDeleteError, FindImport, ReleaseEntries, ReleaseSource, BatchesOf;
    if FinalizeDeleteError(d, u).None? && FindImport(d, u).Some? { ErasedStatus(d, u); }
  }

  /** Once created, an entry stays created, keeps its blob released and its task, until
      its import is erased; only deleting the task row itself clears the link. */
  lemma {:induction false} CreatedForGood(d: Db, evs: seq<Event>, e: EntryId)
    requires Inv(d) && e in d.entries && d.entries[e].status == Created
    ensures var n := Run(d, evs);
      || (d.entries[e].archive in n.imports && n.imports[d.entries[e].archive].status == Erased)
      || (e in n.entries && n.entries[e].status == Created && n.entries[e].released &&
          n.entries[e].blob == d.entries[e].blob &&
          (d.entries[e].task.Some? && TaskRowGone(d.entries[e].task.value) !in evs ==>
             n.entries[e].task == d.entries[e].task))
  {
    hide Inv, Next;
    EntryRow(d, e);
    if evs != [] {
      var before := Run(d, evs[..|evs| - 1]);
      CreatedForGood(d, evs[..|evs| - 1], e);
      if e in before.entries && before.entries[e].status == Created {
        RunKeeps(d, evs[..|evs| - 1]);
        EntryFate(d, evs[..|evs| - 1], e);
        CreatedStep(before, evs[|evs| - 1], e);
        if e in Next(before, evs[|evs| - 1]).entries { EntryFate(d, evs, e); }
      } else {
        ImportMoves(before, evs[|evs| - 1], d.entries[e].archive);
      }
    }
  }

  // ---------------------------------------------------------------- agreement

  /** At every moment: an entry is released exactly when it is created, no two entries
      share a task, and the counter of an import that is not erased counts its created
      entries. */
  lemma CountersAgree(evs: seq<Event>)
    ensures var d := Run(Start(), evs);
      && (forall e | e in d.entries :: d.entries[e].released <==> d.entries[e].status == Created)
      && (forall e, f | e in d.entries && f in d.entries && d.entries[e].task.Some? &&
            d.entries[e].task == d.entries[f].task :: e == f)
      && (forall i | i in d.imports && d.imports[i].status != Erased ::
            d.imports[i].createdTasks == Count(d.entries, CreatedIn(i)))
  {
    hide Run, Start, BlobsOk, ImportsOk, BatchesOk, ItemsOk, NamesOk, TicketsOk, FactsOk;
    StartOk();
    RunKeeps(Start(), evs);
    var d := Run(Start(), evs);
    forall e | e in d.entries
      ensures d.entries[e].released <==> d.entries[e].status == Created
    {
      assert EntryOk(d.entries[e], d.imports);
    }
    forall e, f | e in d.entries && f in d.entries && d.entries[e].task.Some? &&
                  d.entries[e].task == d.entries[f].task
      ensures e == f
    {
      assert SameKey(d.entries[e], d.entries[f]);
    }
    forall i | i in d.imports && d.imports[i].status != Erased
      ensures d.imports[i].createdTasks == Count(d.entries, CreatedIn(i))
    {
      assert CounterOk(i, d.imports[i], d.entries);
    }
  }
}
