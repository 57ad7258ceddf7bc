/** Every step treats every batch item as its rule says. */
module ArchiveItemRule {
  import opened Counting
  import opened ArchiveDb
  import opened ArchiveTransactions
  import opened ArchiveBatchSteps
  import opened ArchiveRuns
  import opened ArchiveRules

  // ---------------------------------------------------------------- conditions

  lemma LeasedIff(d: Db, l: Lease)
    ensures Leased(d, l) <==> Live(d, l)
  {}

  lemma AtWorkIff(d: Db, w: Work)
    ensures AtWork(d, w) <==> WorkLive(d, w)
  {}

  lemma BindableIff(d: Db, e: EntryId, u: UploadId, t: TaskId)
    requires e in d.entries
    ensures Bindable(d, e, u, t) <==> BindError(d, e, u, t).None?
  {}

  /** Work that holds its item is work on an entry of the batch's import. */
  lemma WorkEntry(d: Db, w: Work)
    requires Inv(d) && AtWork(d, w)
    ensures w.entry in d.entries
  {
    hide Inv;
    ItemRow(d, (w.batch, w.entry));
  }

  lemma MadeFromIff(d: Db, e: EntryId, u: UploadId)
    requires Joined(d, e) && d.entries[e].blob.Some?
    ensures MadeFrom(d, e, u) <==> u in Candidates(d, e)
  {}

  lemma TaskOfIff(d: Db, e: EntryId, t: TaskId)
    requires Joined(d, e) && d.entries[e].blob.Some?
    ensures TaskOf(d, e, t) <==> t in TaskFacts(d, e)
  {
    hide MadeFrom, Candidates;
    if t in d.tasks { MadeFromIff(d, e, d.tasks[t]); }
  }

  lemma MadeWholeIff(d: Db, e: EntryId, u: UploadId)
    requires Joined(d, e) && d.entries[e].blob.Some?
    ensures MadeWhole(d, e, u) <==> u in Completed(d, e)
  {
    hide Candidates, MadeFrom;
    MadeFromIff(d, e, u);
  }

  lemma FactsIff(d: Db, e: EntryId)
    requires Joined(d, e) && d.entries[e].blob.Some?
    ensures forall t :: TaskOf(d, e, t) <==> t in TaskFacts(d, e)
    ensures forall u :: MadeWhole(d, e, u) <==> u in Completed(d, e)
    ensures forall u, t :: Bindable(d, e, u, t) <==> BindError(d, e, u, t).None?
  {
    hide BindError, Candidates, MadeWhole, Bindable, TaskFacts, Completed, TaskOf;
    forall t ensures TaskOf(d, e, t) <==> t in TaskFacts(d, e) { TaskOfIff(d, e, t); }
    forall u ensures MadeWhole(d, e, u) <==> u in Completed(d, e) { MadeWholeIff(d, e, u); }
    forall u, t ensures Bindable(d, e, u, t) <==> BindError(d, e, u, t).None? { BindableIff(d, e, u, t); }
  }

  lemma Adopted(d: Db, e: EntryId, t: TaskId)
    requires Adoptable(d, e, t)
    ensures Reconcile(d, e) == AdoptFact(d, e, t) && Joined(d, e) && d.entries[e].blob.Some?
  {
    hide AdoptFact, LinkFact, BindError, Candidates, Bindable, TaskFacts, Completed;
    assert Joined(d, e);
    FactsIff(d, e);
    assert t in TaskFacts(d, e);
    assert forall s | s in TaskFacts(d, e) :: TaskOf(d, e, s) && s in d.tasks;
    assert forall s | s in TaskFacts(d, e) :: s == t;
    assert BindError(d, e, d.tasks[t], t).None?;
    assert ReconcileError(d, e).None?;
  }

  lemma Linked(d: Db, e: EntryId, u: UploadId)
    requires Linkable(d, e, u)
    ensures Reconcile(d, e) == LinkFact(d, e, u) && e in d.entries && d.entries[e].derived.None?
  {
    hide AdoptFact, LinkFact, BindError, Candidates, Bindable, TaskFacts, Completed;
    assert Joined(d, e);
    FactsIff(d, e);
    assert u in Completed(d, e);
    assert forall v | v in Completed(d, e) :: MadeWhole(d, e, v);
    assert forall t | t in TaskFacts(d, e) :: TaskOf(d, e, t);
  }

  lemma ReconciledOrNot(d: Db, e: EntryId)
    ensures (exists t :: Adoptable(d, e, t)) || (exists u :: Linkable(d, e, u)) || Reconcile(d, e) == d
  {
    hide AdoptFact, LinkFact, BindError, Candidates, MadeFrom, Bindable, TaskFacts, Completed, MadeWhole;
    if ReconcileError(d, e).None? {
      FactsIff(d, e);
      assert forall s | s in d.tasks && TaskOf(d, e, s) :: s in TaskFacts(d, e);
      if exists t :: t in TaskFacts(d, e) {
        var t :| t in TaskFacts(d, e) && ReconcileError(d, e) == BindError(d, e, d.tasks[t], t);
        assert forall s | s in TaskFacts(d, e) :: s == t;
        assert Adoptable(d, e, t);
      } else if d.entries[e].derived.None? && exists u :: u in Completed(d, e) {
        var u :| u in Completed(d, e);
        assert forall t | t in d.tasks :: !TaskOf(d, e, t);
        assert forall v | MadeWhole(d, e, v) :: v in Completed(d, e);
        assert Linkable(d, e, u);
      }
    }
  }

  // ---------------------------------------------------------------- when an import is erased, a batch opens

  lemma ErasedIff(d: Db, u: UploadId, a: ImportId)
    requires Inv(d) && Erasable(d, u, a)
    ensures FindImport(d, u) == Some(a) && FinalizeDeleteError(d, u).None? && d.imports[a].status == Tombstoned
  {
    hide BlobsOk, EntriesOk, CountersOk, BatchesOk, ItemsOk, NamesOk, TicketsOk, FactsOk;
    OnlyImport(d, u, a);
  }

  lemma IsErasable(d: Db, u: UploadId, a: ImportId)
    requires FindImport(d, u) == Some(a) && FinalizeDeleteError(d, u).None?
    requires a in d.imports && d.imports[a].status != Erased
    ensures Erasable(d, u, a)
  {
    forall v | v in d.derived && d.derived[v].origin.parent == u
      ensures || d.derived[v].cancelled || (exists t | t in d.tasks :: d.tasks[t] == v)
              || (exists e | e in d.entries :: d.entries[e].archive == a && d.entries[e].status == Created &&
                    d.entries[e].member.path == d.derived[v].origin.member.path)
    {
      assert !Orphan(d, a, v);
    }
  }

  lemma NotErased(d: Db, u: UploadId)
    requires forall a :: !Erasable(d, u, a)
    ensures FinalizeDelete(d, u) == d
  {
    hide ReleaseSource, ReleaseEntries, EntriesOf, BatchesOf, FinalizeDeleteError, Erasable;
    var found := FindImport(d, u);
    if FinalizeDeleteError(d, u).None? && found.Some? && d.imports[found.value].status != Erased {
      IsErasable(d, u, found.value);
    }
  }

  lemma NobodyOpen(d: Db, a: ImportId)
    ensures Count(d.batches, ProcessingIn(a)) == 0 <==>
            forall c | c in d.batches && d.batches[c].archive == a :: d.batches[c].completed
  {
    if forall c | c in d.batches && d.batches[c].archive == a :: d.batches[c].completed {
      CountNone(d.batches, ProcessingIn(a));
    } else {
      var c :| c in d.batches && d.batches[c].archive == a && !d.batches[c].completed;
      CountPositive(d.batches, c, ProcessingIn(a));
    }
  }

  lemma WantedIs(d: Db, a: ImportId, publicId: nat)
    requires Inv(d)
    ensures Selectable(d, a, publicId) <==> Offered(d, a, publicId)
    ensures forall e: EntryId | Wanted(d, a, publicId, e) :: FindEntry(d, a, publicId) == Some(e)
  {
    hide BlobsOk, ImportsOk, CountersOk, BatchesOk, ItemsOk, NamesOk, TicketsOk, FactsOk, EntryOk;
    forall e: EntryId | Wanted(d, a, publicId, e) ensures FindEntry(d, a, publicId) == Some(e) {
      var f := FindEntry(d, a, publicId).value;
      assert SameKey(d.entries[e], d.entries[f]);
    }
    if Selectable(d, a, publicId) { assert Wanted(d, a, publicId, FindEntry(d, a, publicId).value); }
  }

  lemma RepeatedIff(d: Db, request: BatchInput)
    ensures (forall c :: !Repeated(d, c, request)) <==> FindBatch(d, request).None?
  {
    if c: BatchId :| Repeated(d, c, request) { assert Requested(d.batches[c], request); }
    if FindBatch(d, request).Some? { assert Repeated(d, FindBatch(d, request).value, request); }
  }

  lemma OpensIff(d: Db, b: BatchId, request: BatchInput, fingerprint: string)
    requires Inv(d) && b !in d.mintedBatches
    ensures Opens(d, b, request) <==>
            BeginError(d, b, request, fingerprint).None? && FindBatch(d, request).None?
  {
    hide BlobsOk, ImportsOk, EntriesOk, CountersOk, BatchesOk, ItemsOk, TicketsOk, FactsOk, Selectable, Offered;
    NobodyOpen(d, request.archive);
    forall n | 0 <= n < |request.publicIds|
      ensures Selectable(d, request.archive, request.publicIds[n]) <==> Offered(d, request.archive, request.publicIds[n])
    {
      WantedIs(d, request.archive, request.publicIds[n]);
    }
    RepeatedIff(d, request);
    assert b !in d.batches;
    hide FindBatch, Count, Repeated;
  }

  // ---------------------------------------------------------------- the steps

  lemma ResetItem(d: Db, l: Lease, k: ItemKey)
    ensures ItemRule(d, ResetImport(l), k, Look(Reset(d, l).items, k))
  {
    hide ReleaseEntries, Live, Leased;
    LeasedIff(d, l);
    LeaseNames(d, l);
  }

  lemma LeaseNames(d: Db, l: Lease)
    ensures Leased(d, l) ==> l.id in d.imports
  {}

  lemma BeginItem(d: Db, b: BatchId, request: BatchInput, fingerprint: string, k: ItemKey)
    requires Inv(d) && b !in d.mintedBatches
    ensures ItemRule(d, Begin(b, request, fingerprint), k, Look(BeginBatch(d, b, request, fingerprint).items, k))
  {
    hide Inv, Opens, BeginError, FindBatch, Chosen, Selectable, InsertItems, Listed;
    OpensIff(d, b, request, fingerprint);
    if Opens(d, b, request) {
      BeginRow(d, b, request, fingerprint);
      ChosenAt(d, request.archive, request.publicIds);
      ListedItem(d, b, request, k);
    }
  }

  lemma ListedItem(d: Db, b: BatchId, request: BatchInput, k: ItemKey)
    requires Inv(d) && b !in d.mintedBatches
    requires forall n | 0 <= n < |request.publicIds| :: Selectable(d, request.archive, request.publicIds[n])
    requires forall e | e in Chosen(d, request.archive, request.publicIds) :: e in d.entries
    ensures var items := InsertItems(d.items, b, Chosen(d, request.archive, request.publicIds), d.entries);
      if k.0 == b then Listed(d, request, k.1, Look(items, k)) else Look(items, k) == Look(d.items, k)
  {
    hide Inv, Chosen, Selectable, InsertItems, Listed;
    var chosen := Chosen(d, request.archive, request.publicIds);
    ChosenAt(d, request.archive, request.publicIds);
    InsertItemsElsewhere(d.items, b, chosen, d.entries);
    InsertItemsChosen(d.items, b, chosen, d.entries);
    if k.0 == b {
      FreshBatch(d, b, k);
      forall n | 0 <= n < |chosen| ensures Wanted(d, request.archive, request.publicIds[n], chosen[n]) {
        assert chosen[n] == Chosen(d, request.archive, request.publicIds)[n];
      }
      ChosenItem(d, b, request, chosen, k);
    }
  }

  lemma FreshBatch(d: Db, b: BatchId, k: ItemKey)
    requires Inv(d) && b !in d.mintedBatches && k.0 == b
    ensures k !in d.items
  {
    hide BlobsOk, ImportsOk, EntriesOk, CountersOk, TicketsOk, FactsOk;
    if k in d.items { ItemRow(d, k); }
  }

  /** The item of a chosen entry, and none for any other. */
  lemma ChosenItem(d: Db, b: BatchId, request: BatchInput, chosen: seq<EntryId>, k: ItemKey)
    requires Inv(d) && k.0 == b && k !in d.items && |chosen| == |request.publicIds|
    requires forall n | 0 <= n < |chosen| :: Wanted(d, request.archive, request.publicIds[n], chosen[n])
    requires forall e | e in chosen :: e in d.entries
    ensures Listed(d, request, k.1, Look(InsertItems(d.items, b, chosen, d.entries), k))
  {
    hide Inv, InsertItems, Wanted;
    if k.1 in chosen {
      var m := InsertedAt(d.items, b, chosen, d.entries, k.1);
      assert Wanted(d, request.archive, request.publicIds[m], k.1) && k == (b, k.1);
    } else {
      InsertItemsElsewhere(d.items, b, chosen, d.entries);
      forall n | 0 <= n < |request.publicIds| ensures !Wanted(d, request.archive, request.publicIds[n], k.1) {
        WantedIs(d, request.archive, request.publicIds[n]);
        assert Wanted(d, request.archive, request.publicIds[n], chosen[n]);
      }
    }
  }

  lemma {:induction false} InsertedAt(
    items: map<ItemKey, Item>, b: BatchId, chosen: seq<EntryId>, entries: map<EntryId, Entry>, e: EntryId)
    returns (m: nat)
    requires e in chosen && forall f | f in chosen :: f in entries
    ensures m < |chosen| && chosen[m] == e && Look(InsertItems(items, b, chosen, entries), (b, e)) == Some(NewItem(m, entries[e]))
  {
    hide NewItem;
    var last := |chosen| - 1;
    if chosen[last] == e { m := last; } else { m := InsertedAt(items, b, chosen[..last], entries, e); }
  }

  /** What a claim does before it takes an item. */
  lemma SpentIff(d: Db, b: BatchId, e: EntryId)
    ensures Spent(d, (b, e)) <==> Exhausted(d, (b, e))
  {}

  lemma TakeableIff(d: Db, k: ItemKey)
    ensures Takeable(d, k) <==> ItemClaimable(FailExhausted(d, k.0), k) && Readable(FailExhausted(d, k.0), k)
  {}

  lemma ClaimItemRule(d: Db, b: BatchId, choice: Option<EntryId>, owner: Owner, duration: nat, k: ItemKey)
    ensures ItemRule(d, ClaimWork(b, choice, owner, duration), k, Look(ClaimItem(d, b, choice, owner, duration).items, k))
  {
    hide Takeable, ItemClaimable, Readable, WorkOf, Exhausted, Spent;
    if k.0 == b { SpentIff(d, b, k.1); }
    assert k == (k.0, k.1);
    if choice.Some? {
      TakeableIff(d, (b, choice.value));
      TakenItem(d, (b, choice.value));
    }
  }

  lemma TakenItem(d: Db, k: ItemKey)
    ensures Takeable(d, k) ==> k in d.items && !Spent(d, k) && d.items[k].outcome in {Pending, Processing}
  {}

  lemma FailWorkRule(d: Db, w: Work, retry: bool, k: ItemKey)
    ensures ItemRule(d, FailWork(w, retry), k, Look(FailItem(d, w, retry).items, k))
  {
    hide AtWork;
    AtWorkIff(d, w);
  }

  lemma FinalizeRule(d: Db, w: Work, u: UploadId, t: TaskId, created: bool, k: ItemKey)
    requires Inv(d)
    ensures ItemRule(d, Finalize(w, u, t, created), k, Look(FinalizeItem(d, w, u, t, created).items, k))
  {
    hide Inv, AtWork, WorkLive, BindError, Bindable, BindEntry;
    AtWorkIff(d, w);
    if AtWork(d, w) {
      WorkEntry(d, w);
      BindableIff(d, w.entry, u, t);
      if Bindable(d, w.entry, u, t) { BindableBlob(d, w.entry, u, t); }
      WorkedItem(d, w);
    }
  }

  lemma BindableBlob(d: Db, e: EntryId, u: UploadId, t: TaskId)
    requires Bindable(d, e, u, t)
    ensures e in d.entries && d.entries[e].blob.Some? && t in d.tasks && u in d.derived
  {}

  lemma WorkedItem(d: Db, w: Work)
    requires AtWork(d, w)
    ensures (w.batch, w.entry) in d.items
  {}

  lemma ReconcileItem(d: Db, e: EntryId, k: ItemKey)
    ensures ItemRule(d, ReconcileEntry(e), k, Look(Reconcile(d, e).items, k))
  {
    hide Adoptable, Linkable, Reconcile, AdoptFact, ItemRule;
    if t :| Adoptable(d, e, t) {
      Adopted(d, e, t);
      OneTask(d, e, t);
      AdoptedItem(d, e, t, k);
    } else {
      ReconciledOrNot(d, e);
      NoneAdopted(d, e, k);
      if u :| Linkable(d, e, u) { LinkedItems(d, e, u); }
    }
  }

  lemma LinkedItems(d: Db, e: EntryId, u: UploadId)
    requires Linkable(d, e, u)
    ensures Reconcile(d, e).items == d.items
  {
    hide Linkable, Reconcile;
    Linked(d, e, u);
  }

  lemma NoneAdopted(d: Db, e: EntryId, k: ItemKey)
    requires forall t :: !Adoptable(d, e, t)
    ensures ItemRule(d, ReconcileEntry(e), k, Look(d.items, k))
  {
    hide Adoptable;
  }

  lemma AdoptedItem(d: Db, e: EntryId, t: TaskId, k: ItemKey)
    requires Adoptable(d, e, t) && e in d.entries && d.entries[e].blob.Some? && t in d.tasks
    requires forall s | Adoptable(d, e, s) :: s == t
    ensures ItemRule(d, ReconcileEntry(e), k, Look(AdoptFact(d, e, t).items, k))
  {
    hide BindEntry, Adoptable;
  }

  lemma OneTask(d: Db, e: EntryId, t: TaskId)
    requires Adoptable(d, e, t)
    ensures t in d.tasks && e in d.entries && forall s | Adoptable(d, e, s) :: s == t
  {}

  lemma EraseItem(d: Db, u: UploadId, k: ItemKey)
    requires Inv(d)
    ensures ItemRule(d, Erase(u), k, Look(FinalizeDelete(d, u).items, k))
  {
    hide Inv, Erasable, FinalizeDeleteError, FindImport, ReleaseEntries, ReleaseSource;
    if a :| Erasable(d, u, a) {
      ErasedIff(d, u, a);
      OneErased(d, u, a);
    } else {
      NotErased(d, u);
    }
  }

  lemma OneErased(d: Db, u: UploadId, a: ImportId)
    requires Inv(d) && Erasable(d, u, a)
    ensures a in d.imports && forall c | Erasable(d, u, c) :: c == a
  {
    hide BlobsOk, EntriesOk, CountersOk, BatchesOk, ItemsOk, NamesOk, TicketsOk, FactsOk;
  }

  /** Every step treats every batch item as its rule says. */
  lemma ItemsFollow(d: Db, ev: Event, k: ItemKey)
    requires Inv(d)
    ensures if Enabled(d, ev) then ItemRule(d, ev, k, Look(Next(d, ev).items, k)) else Next(d, ev) == d
  {
    hide Inv, ItemRule, Effect;
    if !Enabled(d, ev) { return; }
    if !TouchesItems(ev) {
      ItemsKept(d, ev);
      UntouchedItem(d, ev, k);
    } else if ev.ResetImport? || ev.Begin? || ev.ClaimWork? || ev.FailWork? {
      WaitingItem(d, ev, k);
    } else {
      FinishedItem(d, ev, k);
    }
  }

  lemma WaitingItem(d: Db, ev: Event, k: ItemKey)
    requires Inv(d) && Enabled(d, ev) && (ev.ResetImport? || ev.Begin? || ev.ClaimWork? || ev.FailWork?)
    ensures ItemRule(d, ev, k, Look(Effect(d, ev).items, k))
  {
    hide Inv, ItemRule, Ensure, Claim, Heartbeat, Reset, Persist, Complete, FailLease, RecoverExpired,
         MarkBlobDeleted, BeginBatch, ClaimItem, SaveDerived, FinalizeItem, FailItem,
         CompleteBatch, Reconcile, PrepareDelete, FinalizeDelete, Derive, DeriveStatus,
         DeriveTask, TaskGone, DerivedGone, OtherRetain, OtherRelease, OtherStage, OtherPublish;
    match ev
    case ResetImport(l) => ResetItem(d, l, k);
    case Begin(b, request, fingerprint) => BeginItem(d, b, request, fingerprint, k);
    case ClaimWork(b, choice, owner, duration) => ClaimItemRule(d, b, choice, owner, duration, k);
    case FailWork(w, retry) => FailWorkRule(d, w, retry, k);
  }

  lemma FinishedItem(d: Db, ev: Event, k: ItemKey)
    requires Inv(d) && (ev.Finalize? || ev.ReconcileEntry? || ev.Erase? || ev.TaskRowGone?)
    ensures ItemRule(d, ev, k, Look(Effect(d, ev).items, k))
  {
    hide Inv, ItemRule, Ensure, Claim, Heartbeat, Reset, Persist, Complete, FailLease, RecoverExpired,
         MarkBlobDeleted, BeginBatch, ClaimItem, SaveDerived, FinalizeItem, FailItem,
         CompleteBatch, Reconcile, PrepareDelete, FinalizeDelete, Derive, DeriveStatus,
         DeriveTask, TaskGone, DerivedGone, OtherRetain, OtherRelease, OtherStage, OtherPublish;
    match ev
    case Finalize(w, u, t, created) => FinalizeRule(d, w, u, t, created, k);
    case ReconcileEntry(e) => ReconcileItem(d, e, k);
    case Erase(u) => EraseItem(d, u, k);
    case TaskRowGone(t) => GoneItem(d, t, k);
  }

  lemma UntouchedItem(d: Db, ev: Event, k: ItemKey)
    requires !TouchesItems(ev)
    ensures ItemRule(d, ev, k, Look(d.items, k))
  {}

  lemma GoneItem(d: Db, t: TaskId, k: ItemKey)
    ensures ItemRule(d, TaskRowGone(t), k, Look(TaskGone(d, t).items, k))
  {}
}
