/** Every step treats every entry as its rule says. */
module ArchiveEntryRule {
  import opened Counting
  import opened ArchiveDb
  import opened ArchiveTransactions
  import opened ArchiveRuns
  import opened ArchiveRules
  import opened ArchiveItemRule

  lemma ResetEntry(d: Db, l: Lease, e: EntryId)
    ensures EntryRule(d, ResetImport(l), e, Look(Reset(d, l).entries, e))
  {
    hide ReleaseEntries, Live, Leased;
    LeasedIff(d, l);
    LeaseNames(d, l);
  }

  // ---------------------------------------------------------------- a new entry

  /** With unique digests, the blob of a digest is the one that is found. */
  lemma BlobFound(d: Db, m: NewEntry)
    requires Inv(d)
    ensures Storable(d, m) <==> RetainError(d, m).None?
    ensures Stores(d, m, RetainedBlob(d, m))
    ensures forall b | b in d.blobs && d.blobs[b].digest == DigestOf(m) :: FindBlob(d.blobs, m.digest()) == Some(b)
  {
    hide ImportsOk, EntriesOk, CountersOk, BatchesOk, ItemsOk, NamesOk, TicketsOk, FactsOk, Conserved, StatesOk, HoldersServed;
  }

  lemma RowIs(l: Lease, m: NewEntry, b: BlobId)
    ensures m.Row(l.id, b) ==
      if m.eligible then Entry(m.publicId, l.id, m.ordinal, m.member, Eligible, Some(b), false, None, None)
      else Entry(m.publicId, l.id, m.ordinal, m.member, Skipped, None, false, None, None)
  {}

  lemma PersistsIff(d: Db, l: Lease, m: NewEntry)
    requires Inv(d)
    ensures Persists(d, l, m) <==> PersistError(d, l, m).None?
  {
    hide Inv, RetainError, Storable, Live, Leased;
    LeasedIff(d, l);
    if m.eligible { BlobFound(d, m); }
    RowIs(l, m, 0);
  }

  lemma PersistEntryRule(d: Db, l: Lease, m: NewEntry, e: EntryId)
    requires Inv(d)
    ensures EntryRule(d, PersistMember(l, m), e, Look(Persist(d, l, m).entries, e))
  {
    hide Inv, Persists, PersistError, Stores, Retain, RetainedBlob;
    PersistsIff(d, l, m);
    if Persists(d, l, m) {
      PersistLease(d, l, m);
      BlobFound(d, m);
      RowIs(l, m, RetainedBlob(d, m));
    }
  }

  lemma PersistLease(d: Db, l: Lease, m: NewEntry)
    requires Persists(d, l, m)
    ensures l.id in d.imports
  {}

  // ---------------------------------------------------------------- work on an entry

  lemma ClaimEntryRule(d: Db, b: BatchId, choice: Option<EntryId>, owner: Owner, duration: nat, e: EntryId)
    ensures EntryRule(d, ClaimWork(b, choice, owner, duration), e, Look(ClaimItem(d, b, choice, owner, duration).entries, e))
  {
    hide Takeable, ItemClaimable, Readable, WorkOf, Exhausted, Spent;
    SpentIff(d, b, e);
    if choice.Some? { TakeableIff(d, (b, choice.value)); }
  }

  lemma SaveEntryRule(d: Db, w: Work, u: UploadId, e: EntryId)
    ensures EntryRule(d, Save(w, u), e, Look(SaveDerived(d, w, u).entries, e))
  {
    hide AtWork, WorkLive;
    AtWorkIff(d, w);
  }

  lemma FailEntryRule(d: Db, w: Work, retry: bool, e: EntryId)
    ensures EntryRule(d, FailWork(w, retry), e, Look(FailItem(d, w, retry).entries, e))
  {
    hide AtWork;
    AtWorkIff(d, w);
  }

  lemma BoundEntry(d: Db, e: EntryId, u: UploadId, t: TaskId, f: EntryId)
    requires e in d.entries && d.entries[e].blob.Some?
    ensures Look(BindEntry(d, e, u, t).entries, f) ==
      if f == e then Some(d.entries[e].(status := Created, derived := Some(u), task := Some(t), released := true))
      else Look(d.entries, f)
  {
    hide ReleaseOne, CountCreated;
  }

  lemma FinalizeEntryRule(d: Db, w: Work, u: UploadId, t: TaskId, created: bool, e: EntryId)
    requires Inv(d)
    ensures EntryRule(d, Finalize(w, u, t, created), e, Look(FinalizeItem(d, w, u, t, created).entries, e))
  {
    hide Inv, AtWork, WorkLive, BindError, Bindable, BindEntry;
    AtWorkIff(d, w);
    if AtWork(d, w) {
      WorkEntry(d, w);
      BindableIff(d, w.entry, u, t);
      WorkedItem(d, w);
      if Bindable(d, w.entry, u, t) {
        BindableBlob(d, w.entry, u, t);
        BoundEntry(d, w.entry, u, t, e);
      }
    }
  }

  // ---------------------------------------------------------------- reconciling, erasing, lost links

  lemma ReconcileEntryRule(d: Db, f: EntryId, e: EntryId)
    ensures EntryRule(d, ReconcileEntry(f), e, Look(Reconcile(d, f).entries, e))
  {
    hide Adoptable, Linkable, Reconcile, AdoptFact, LinkFact, EntryRule;
    if t :| Adoptable(d, f, t) {
      AdoptedEntry(d, f, t, e);
    } else if u :| Linkable(d, f, u) {
      LinkedEntry(d, f, u, e);
    } else {
      ReconciledOrNot(d, f);
      SameEntry(d, f, e);
    }
  }

  lemma AdoptedEntry(d: Db, f: EntryId, t: TaskId, e: EntryId)
    requires Adoptable(d, f, t)
    ensures EntryRule(d, ReconcileEntry(f), e, Look(Reconcile(d, f).entries, e))
  {
    hide Adoptable, Linkable, Reconcile, BindEntry;
    Adopted(d, f, t);
    OneTask(d, f, t);
    BoundEntry(d, f, d.tasks[t], t, e);
    NothingToLink(d, f, t);
  }

  lemma NothingToLink(d: Db, e: EntryId, t: TaskId)
    requires Adoptable(d, e, t)
    ensures forall u :: !Linkable(d, e, u)
  {
    hide MadeFrom, Bindable;
  }

  lemma LinkedEntry(d: Db, f: EntryId, u: UploadId, e: EntryId)
    requires Linkable(d, f, u)
    ensures EntryRule(d, ReconcileEntry(f), e, Look(Reconcile(d, f).entries, e))
  {
    hide Adoptable, Linkable, Reconcile;
    Linked(d, f, u);
    OneUpload(d, f, u);
  }

  lemma OneUpload(d: Db, e: EntryId, u: UploadId)
    requires Linkable(d, e, u)
    ensures (forall v | Linkable(d, e, v) :: v == u) && forall t :: !Adoptable(d, e, t)
  {
    hide Bindable;
  }

  lemma SameEntry(d: Db, f: EntryId, e: EntryId)
    requires (forall t :: !Adoptable(d, f, t)) && forall u :: !Linkable(d, f, u)
    ensures EntryRule(d, ReconcileEntry(f), e, Look(d.entries, e))
  {
    hide Adoptable, Linkable;
  }

  lemma EraseEntry(d: Db, u: UploadId, e: EntryId)
    requires Inv(d)
    ensures EntryRule(d, Erase(u), e, Look(FinalizeDelete(d, u).entries, e))
  {
    hide Inv, Erasable, FinalizeDeleteError, FindImport, ReleaseEntries, ReleaseSource;
    if a :| Erasable(d, u, a) {
      ErasedIff(d, u, a);
      OneErased(d, u, a);
    } else {
      NotErased(d, u);
    }
  }

  lemma GoneEntry(d: Db, t: TaskId, e: EntryId)
    ensures EntryRule(d, TaskRowGone(t), e, Look(TaskGone(d, t).entries, e))
  {}

  lemma DerivedEntry(d: Db, u: UploadId, e: EntryId)
    ensures EntryRule(d, DerivedRowGone(u), e, Look(DerivedGone(d, u).entries, e))
  {}

  lemma UntouchedEntry(d: Db, ev: Event, e: EntryId)
    requires !TouchesEntries(ev)
    ensures EntryRule(d, ev, e, Look(d.entries, e))
  {}

  /** Every step treats every entry as its rule says. */
  lemma EntriesFollow(d: Db, ev: Event, e: EntryId)
    requires Inv(d)
    ensures if Enabled(d, ev) then EntryRule(d, ev, e, Look(Next(d, ev).entries, e)) else Next(d, ev) == d
  {
    hide Inv, EntryRule, Effect;
    if !Enabled(d, ev) { return; }
    if !TouchesEntries(ev) {
      EntriesKept(d, ev);
      UntouchedEntry(d, ev, e);
    } else if ev.ResetImport? || ev.PersistMember? || ev.ClaimWork? || ev.Save? || ev.FailWork? {
      WaitingEntry(d, ev, e);
    } else {
      FinishedEntry(d, ev, e);
    }
  }

  lemma WaitingEntry(d: Db, ev: Event, e: EntryId)
    requires Inv(d) && (ev.ResetImport? || ev.PersistMember? || ev.ClaimWork? || ev.Save? || ev.FailWork?)
    ensures EntryRule(d, ev, e, Look(Effect(d, ev).entries, e))
  {
    hide Inv, EntryRule, Ensure, Claim, Heartbeat, Reset, Persist, Complete, FailLease, RecoverExpired,
         MarkBlobDeleted, BeginBatch, ClaimItem, SaveDerived, FinalizeItem, FailItem,
         CompleteBatch, Reconcile, PrepareDelete, FinalizeDelete, Derive, DeriveStatus,
         DeriveTask, TaskGone, DerivedGone, OtherRetain, OtherRelease, OtherStage, OtherPublish;
    match ev
    case ResetImport(l) => ResetEntry(d, l, e);
    case PersistMember(l, m) => PersistEntryRule(d, l, m, e);
    case ClaimWork(b, choice, owner, duration) => ClaimEntryRule(d, b, choice, owner, duration, e);
    case Save(w, u) => SaveEntryRule(d, w, u, e);
    case FailWork(w, retry) => FailEntryRule(d, w, retry, e);
  }

  lemma FinishedEntry(d: Db, ev: Event, e: EntryId)
    requires Inv(d)
    requires ev.Finalize? || ev.ReconcileEntry? || ev.Erase? || ev.TaskRowGone? || ev.DerivedRowGone?
    ensures EntryRule(d, ev, e, Look(Effect(d, ev).entries, e))
  {
    hide Inv, EntryRule, Ensure, Claim, Heartbeat, Reset, Persist, Complete, FailLease, RecoverExpired,
         MarkBlobDeleted, BeginBatch, ClaimItem, SaveDerived, FinalizeItem, FailItem,
         CompleteBatch, Reconcile, PrepareDelete, FinalizeDelete, Derive, DeriveStatus,
         DeriveTask, TaskGone, DerivedGone, OtherRetain, OtherRelease, OtherStage, OtherPublish;
    match ev
    case Finalize(w, u, t, created) => FinalizeEntryRule(d, w, u, t, created, e);
    case ReconcileEntry(f) => ReconcileEntryRule(d, f, e);
    case Erase(u) => EraseEntry(d, u, e);
    case TaskRowGone(t) => GoneEntry(d, t, e);
    case DerivedRowGone(u) => DerivedEntry(d, u, e);
  }
}
