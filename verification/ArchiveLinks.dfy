/** Which created entries, and which finished items, have no task: the foreign keys clear a
    link when the task row goes, and only a reconciliation gives an entry another task. */
module ArchiveLinks {
  import opened Counting
  import opened ArchiveDb
  import opened ArchiveTransactions
  import opened ArchiveBatchSteps
  import opened ArchiveRuns
  import opened ArchiveLifecycle
  import opened ArchiveBinding

  // ---------------------------------------------------------------- entries

  /** The row of the entry's task is deleted. */
  predicate TakesLink(d: Db, ev: Event, e: EntryId) {
    ev.TaskRowGone? && e in d.entries && d.entries[e].task == Some(ev.task)
  }

  /** The entry is reconciled, and a derived upload of it has a task. */
  ghost predicate Adopts(d: Db, ev: Event, e: EntryId) {
    ev == ReconcileEntry(e) && ReconcileError(d, e).None? && exists t :: t in TaskFacts(d, e)
  }

  /** The last change to the link of entry `e` in this run was the deletion of its task. */
  ghost predicate LinkLost(evs: seq<Event>, e: EntryId) {
    exists j | 0 <= j < |evs| ::
      && TakesLink(Run(Start(), evs[..j]), evs[j], e)
      && forall i | j < i < |evs| :: !Adopts(Run(Start(), evs[..i]), evs[i], e)
  }

  /** Work that is still held is no work on a created entry. */
  lemma NoWorkOnCreated(d: Db, w: Work)
    requires Inv(d) && WorkLive(d, w) && w.entry in d.entries
    ensures d.entries[w.entry].status != Created
  {
    hide Inv;
    ItemRow(d, (w.batch, w.entry));
  }

  /** One step and the link of a created entry. */
  lemma LinkStep(d: Db, ev: Event, e: EntryId)
    requires Inv(d) && e in d.entries && d.entries[e].status == Created && e in Next(d, ev).entries
    ensures TakesLink(d, ev, e) ==> Next(d, ev).entries[e].task.None?
    ensures Adopts(d, ev, e) ==> Next(d, ev).entries[e].task.Some?
    ensures !TakesLink(d, ev, e) && !Adopts(d, ev, e) ==> Next(d, ev).entries[e].task == d.entries[e].task
  {
    hide Inv, Reconcile, TaskGone, Adopts;
    if ev.ReconcileEntry? {
      ReconcileLink(d, ev.entry, e);
    } else {
      OnlyReconciling(d, ev, e);
      if ev.TaskRowGone? { GoneLink(d, ev.task, e); } else { OtherLinkStep(d, ev, e); }
    }
  }

  lemma OnlyReconciling(d: Db, ev: Event, e: EntryId)
    ensures Adopts(d, ev, e) ==> ev.ReconcileEntry?
  {}

  /** No other step touches it. */
  lemma OtherLinkStep(d: Db, ev: Event, e: EntryId)
    requires Inv(d) && e in d.entries && d.entries[e].status == Created
    requires !ev.ReconcileEntry? && !ev.TaskRowGone?
    ensures SameLink(d, Next(d, ev), e)
  {
    hide Inv, FinalizeItem, Persist;
    if ev.Finalize? {
      FinalizeLink(d, ev.work, ev.upload, ev.task, ev.created, e);
    } else if ev.PersistMember? {
      PersistLink(d, ev.lease, ev.member, e);
    } else if TouchesEntries(ev) {
      PlainLinkStep(d, ev, e);
    } else {
      EntriesKept(d, ev);
    }
  }

  lemma PlainLinkStep(d: Db, ev: Event, e: EntryId)
    requires e in d.entries && TouchesEntries(ev)
    requires !ev.ReconcileEntry? && !ev.TaskRowGone? && !ev.Finalize? && !ev.PersistMember?
    ensures SameLink(d, Next(d, ev), e)
  {
    hide Ensure, Claim, Heartbeat, Reset, Persist, Complete, FailLease, RecoverExpired,
         MarkBlobDeleted, BeginBatch, ClaimItem, SaveDerived, FinalizeItem, FailItem,
         CompleteBatch, Reconcile, PrepareDelete, FinalizeDelete, Derive, DeriveStatus,
         DeriveTask, TaskGone, DerivedGone, OtherRetain, OtherRelease, OtherStage, OtherPublish;
    match ev
    case ResetImport(l) => ResetLink(d, l, e);
    case ClaimWork(b, choice, owner, duration) => ClaimLink(d, b, choice, owner, duration, e);
    case Save(w, u) => SaveLink(d, w, u, e);
    case FailWork(w, retry) => FailLink(d, w, retry, e);
    case Erase(u) => EraseLink(d, u, e);
    case DerivedRowGone(u) => DerivedLink(d, u, e);
  }

  predicate SameLink(d: Db, n: Db, e: EntryId)
    requires e in d.entries
  {
    e in n.entries ==> n.entries[e].task == d.entries[e].task
  }

  lemma ResetLink(d: Db, l: Lease, e: EntryId)
    requires e in d.entries
    ensures SameLink(d, Reset(d, l), e)
  {
    hide Live, ReleaseEntries, EntriesOf;
    LeaseRow(d, l);
  }

  lemma PersistLink(d: Db, l: Lease, m: NewEntry, e: EntryId)
    requires Inv(d) && e in d.entries
    ensures SameLink(d, Persist(d, l, m), e)
  {
    hide Inv, PersistError, Retain, RetainedBlob;
    NamesBelow(d);
    LiveIfPersisted(d, l, m);
  }

  lemma ClaimLink(d: Db, b: BatchId, choice: Option<EntryId>, owner: Owner, duration: nat, e: EntryId)
    requires e in d.entries
    ensures SameLink(d, ClaimItem(d, b, choice, owner, duration), e)
  {
    hide FailExhausted, ItemClaimable, Readable, WorkOf;
    SweptLink(d, b, e);
    ClaimableRow(FailExhausted(d, b), b, choice);
  }

  lemma SweptLink(d: Db, b: BatchId, e: EntryId)
    requires e in d.entries
    ensures e in FailExhausted(d, b).entries && SameLink(d, FailExhausted(d, b), e)
  {
    hide Exhausted;
  }

  lemma SaveLink(d: Db, w: Work, u: UploadId, e: EntryId)
    requires e in d.entries
    ensures SameLink(d, SaveDerived(d, w, u), e)
  {
    hide WorkLive, SaveError;
    SavedEntry(d, w, u);
  }

  lemma FailLink(d: Db, w: Work, retry: bool, e: EntryId)
    requires e in d.entries
    ensures SameLink(d, FailItem(d, w, retry), e)
  {
    hide WorkLive;
    WorkItem(d, w);
  }

  lemma FinalizeLink(d: Db, w: Work, u: UploadId, t: TaskId, created: bool, e: EntryId)
    requires Inv(d) && e in d.entries && d.entries[e].status == Created
    ensures SameLink(d, FinalizeItem(d, w, u, t, created), e)
  {
    hide Inv, BindError, WorkLive, ReleaseOne, CountCreated;
    if FinalizeError(d, w, u, t).None? {
      WorkItem(d, w);
      NoWorkOnCreated(d, w);
      BoundBlob(d, w.entry, u, t);
    }
  }

  lemma BoundBlob(d: Db, e: EntryId, u: UploadId, t: TaskId)
    requires e in d.entries && BindError(d, e, u, t).None?
    ensures d.entries[e].blob.Some?
  {
    hide TaskTaken;
  }

  lemma ReconcileLink(d: Db, f: EntryId, e: EntryId)
    requires e in d.entries
    ensures !Adopts(d, ReconcileEntry(f), e) ==> SameLink(d, Reconcile(d, f), e)
    ensures Adopts(d, ReconcileEntry(f), e) ==>
      e in Reconcile(d, f).entries && Reconcile(d, f).entries[e].task.Some?
  {
    hide Reconcile, AdoptFact, LinkFact, BindError, Adopts;
    if f == e { ReconciledLink(d, e); } else { OtherReconciled(d, f, e); }
  }

  lemma ReconciledLink(d: Db, e: EntryId)
    requires e in d.entries
    ensures !Adopts(d, ReconcileEntry(e), e) ==> SameLink(d, Reconcile(d, e), e)
    ensures Adopts(d, ReconcileEntry(e), e) ==>
      e in Reconcile(d, e).entries && Reconcile(d, e).entries[e].task.Some?
  {
    hide BindError, ReleaseOne, CountCreated, AdoptItems, Candidates, Completed;
  }

  lemma OtherReconciled(d: Db, f: EntryId, e: EntryId)
    requires e in d.entries && e != f
    ensures SameLink(d, Reconcile(d, f), e) && !Adopts(d, ReconcileEntry(f), e)
  {
    hide Reconcile, AdoptFact, LinkFact, BindError, Candidates;
    var task, upload := ReconcileOutcome(d, f);
    if task.Some? { AdoptedLink(d, f, task.value, e); }
    if upload.Some? && task.None? { LinkedLink(d, f, upload.value, e); }
  }

  lemma AdoptedLink(d: Db, f: EntryId, t: TaskId, e: EntryId)
    requires e in d.entries && e != f && f in d.entries && d.entries[f].blob.Some? && t in d.tasks
    ensures SameLink(d, AdoptFact(d, f, t), e)
  {
    hide ReleaseOne, CountCreated, AdoptItems;
  }

  lemma LinkedLink(d: Db, f: EntryId, u: UploadId, e: EntryId)
    requires e in d.entries && f in d.entries
    ensures SameLink(d, LinkFact(d, f, u), e)
  {}

  lemma EraseLink(d: Db, u: UploadId, e: EntryId)
    requires e in d.entries
    ensures SameLink(d, FinalizeDelete(d, u), e)
  {
    hide FinalizeDeleteError, FindImport, ReleaseEntries, ReleaseSource, BatchesOf, EntriesOf;
    if FinalizeDeleteError(d, u).None? && FindImport(d, u).Some? { ErasedStatus(d, u); }
  }

  lemma GoneLink(d: Db, t: TaskId, e: EntryId)
    requires e in d.entries
    ensures e in TaskGone(d, t).entries
    ensures TaskGone(d, t).entries[e].task == (if d.entries[e].task == Some(t) then None else d.entries[e].task)
  {}

  lemma DerivedLink(d: Db, u: UploadId, e: EntryId)
    requires e in d.entries
    ensures SameLink(d, DerivedGone(d, u), e)
  {}

  /** An entry that a step makes created has a task. */
  lemma NewlyCreated(d: Db, ev: Event, e: EntryId)
    ensures CreatedWithTask(d, Next(d, ev), e)
    ensures ev.TaskRowGone? ==> NoneCreated(d, Next(d, ev), e)
  {
    hide FinalizeItem, Reconcile;
    if ev.Finalize? {
      FinalizeCreates(d, ev.work, ev.upload, ev.task, ev.created, e);
    } else if ev.ReconcileEntry? {
      ReconcileCreates(d, ev.entry, e);
    } else if TouchesEntries(ev) {
      NothingCreated(d, ev, e);
    } else {
      EntriesKept(d, ev);
    }
  }

  lemma NothingCreated(d: Db, ev: Event, e: EntryId)
    requires TouchesEntries(ev) && !ev.ReconcileEntry? && !ev.Finalize?
    ensures NoneCreated(d, Next(d, ev), e)
  {
    hide NoneCreated, KeepsImports, KeepsUploads, KeepsEntries, Ensure, Claim, Heartbeat, Reset, Persist, Complete, FailLease, RecoverExpired,
         MarkBlobDeleted, BeginBatch, ClaimItem, SaveDerived, FinalizeItem, FailItem,
         CompleteBatch, Reconcile, PrepareDelete, FinalizeDelete, Derive, DeriveStatus,
         DeriveTask, TaskGone, DerivedGone, OtherRetain, OtherRelease, OtherStage, OtherPublish;
    match ev
    case ResetImport(l) => ResetCreates(d, l, e);
    case PersistMember(l, m) => PersistCreates(d, l, m, e);
    case ClaimWork(b, choice, owner, duration) => ClaimCreates(d, b, choice, owner, duration, e);
    case Save(w, u) => SaveCreates(d, w, u, e);
    case FailWork(w, retry) => FailCreates(d, w, retry, e);
    case Erase(u) => EraseCreates(d, u, e);
    case TaskRowGone(t) => GoneCreates(d, t, e);
    case DerivedRowGone(u) => DerivedCreates(d, u, e);
  }

  /** Whoever is created afterwards was so before. */
  predicate NoneCreated(d: Db, n: Db, e: EntryId) {
    e in n.entries && n.entries[e].status == Created ==> e in d.entries && d.entries[e].status == Created
  }

  lemma ResetCreates(d: Db, l: Lease, e: EntryId)
    ensures NoneCreated(d, Reset(d, l), e)
  {
    hide Live, ReleaseEntries, EntriesOf;
    LeaseRow(d, l);
  }

  lemma PersistCreates(d: Db, l: Lease, m: NewEntry, e: EntryId)
    ensures NoneCreated(d, Persist(d, l, m), e)
  {
    hide PersistError, Retain, RetainedBlob;
    LiveIfPersisted(d, l, m);
  }

  lemma ClaimCreates(d: Db, b: BatchId, choice: Option<EntryId>, owner: Owner, duration: nat, e: EntryId)
    ensures NoneCreated(d, ClaimItem(d, b, choice, owner, duration), e)
  {
    hide FailExhausted, ItemClaimable, Readable, WorkOf;
    SweptCreates(d, b, e);
    ClaimableRow(FailExhausted(d, b), b, choice);
  }

  lemma SweptCreates(d: Db, b: BatchId, e: EntryId)
    ensures NoneCreated(d, FailExhausted(d, b), e)
  {
    hide Exhausted;
  }

  lemma SaveCreates(d: Db, w: Work, u: UploadId, e: EntryId)
    ensures NoneCreated(d, SaveDerived(d, w, u), e)
  {
    hide WorkLive, SaveError;
    SavedEntry(d, w, u);
  }

  lemma FailCreates(d: Db, w: Work, retry: bool, e: EntryId)
    ensures NoneCreated(d, FailItem(d, w, retry), e)
  {
    hide WorkLive;
    WorkItem(d, w);
  }

  /** Nobody else, and this one with a task. */
  predicate CreatedWithTask(d: Db, n: Db, e: EntryId) {
    e in n.entries && n.entries[e].status == Created && !(e in d.entries && d.entries[e].status == Created) ==>
      e in d.entries && n.entries[e].task.Some?
  }

  lemma FinalizeCreates(d: Db, w: Work, u: UploadId, t: TaskId, created: bool, e: EntryId)
    ensures CreatedWithTask(d, FinalizeItem(d, w, u, t, created), e)
  {
    hide BindError, WorkLive, ReleaseOne, CountCreated;
    WorkItem(d, w);
    if FinalizeError(d, w, u, t).None? { BoundBlob(d, w.entry, u, t); }
  }

  lemma ReconcileCreates(d: Db, f: EntryId, e: EntryId)
    ensures CreatedWithTask(d, Reconcile(d, f), e)
  {
    hide Reconcile, AdoptFact, LinkFact, BindError, Candidates;
    var task, upload := ReconcileOutcome(d, f);
    if task.Some? { AdoptCreates(d, f, task.value, e); }
    if upload.Some? && task.None? { LinkCreates(d, f, upload.value, e); }
  }

  lemma AdoptCreates(d: Db, f: EntryId, t: TaskId, e: EntryId)
    requires f in d.entries && d.entries[f].blob.Some? && t in d.tasks
    ensures CreatedWithTask(d, AdoptFact(d, f, t), e)
  {
    hide ReleaseOne, CountCreated, AdoptItems;
  }

  lemma LinkCreates(d: Db, f: EntryId, u: UploadId, e: EntryId)
    requires f in d.entries
    ensures CreatedWithTask(d, LinkFact(d, f, u), e)
  {}

  lemma EraseCreates(d: Db, u: UploadId, e: EntryId)
    ensures NoneCreated(d, FinalizeDelete(d, u), e)
  {
    hide FinalizeDeleteError, FindImport, ReleaseEntries, ReleaseSource, BatchesOf, EntriesOf;
    if FinalizeDeleteError(d, u).None? && FindImport(d, u).Some? { ErasedStatus(d, u); }
  }

  lemma GoneCreates(d: Db, t: TaskId, e: EntryId)
    ensures NoneCreated(d, TaskGone(d, t), e)
  {}

  lemma DerivedCreates(d: Db, u: UploadId, e: EntryId)
    ensures NoneCreated(d, DerivedGone(d, u), e)
  {}

  /** An entry that is not created never was, and never had a task to lose. */
  lemma {:induction false} NeverLinked(d: Db, evs: seq<Event>, e: EntryId, j: nat)
    requires Inv(d) && j <= |evs| && e in Run(d, evs).entries && Run(d, evs).entries[e].status != Created
    ensures e in Run(d, evs[..j]).entries ==>
      Run(d, evs[..j]).entries[e].status != Created && Run(d, evs[..j]).entries[e].task.None?
    decreases |evs| - j
  {
    hide Inv, Next, Run;
    RunKeeps(d, evs[..j]);
    var m := Run(d, evs[..j]);
    if e in m.entries {
      EntryRow(m, e);
      RunInTwo(d, evs, j);
      EntryFate(m, evs[j..], e);
    }
  }

  lemma {:induction false} RunInTwo(d: Db, evs: seq<Event>, j: nat)
    requires j <= |evs|
    ensures Run(d, evs) == Run(Run(d, evs[..j]), evs[j..])
    decreases |evs|
  {
    hide Next;
    if j == |evs| {
      assert evs[..j] == evs && evs[j..] == [];
    } else {
      var most := evs[..|evs| - 1];
      RunInTwo(d, most, j);
      assert most[..j] == evs[..j] && evs[j..][..|evs[j..]| - 1] == most[j..];
    }
  }

  /** At the end of any run, a created entry has no task exactly if the row of the task it
      was bound to last has been deleted. */
  lemma {:induction false} NoTaskIff(evs: seq<Event>, e: EntryId)
    requires e in Run(Start(), evs).entries && Run(Start(), evs).entries[e].status == Created
    ensures Run(Start(), evs).entries[e].task.None? <==> LinkLost(evs, e)
    decreases |evs|
  {
    hide Inv, Next, Start, TakesLink, Adopts, LinkLost;
    if evs == [] {
      NothingAtStart(e);
    } else {
      var most, ev := evs[..|evs| - 1], evs[|evs| - 1];
      var d := Run(Start(), most);
      StartOk();
      RunKeeps(Start(), most);
      if e in d.entries && d.entries[e].status == Created {
        LinkStep(d, ev, e);
        NoTaskIff(most, e);
        LostStep(evs, e);
      } else {
        NewlyCreated(d, ev, e);
        NeverLost(most, e);
        NothingTaken(d, ev, e);
        LostStep(evs, e);
      }
    }
  }

  lemma NothingAtStart(e: EntryId) ensures e !in Run(Start(), []).entries {}

  lemma NothingTaken(d: Db, ev: Event, e: EntryId)
    requires !ev.TaskRowGone?
    ensures !TakesLink(d, ev, e)
  {}

  lemma NeverLost(evs: seq<Event>, e: EntryId)
    requires e in Run(Start(), evs).entries && Run(Start(), evs).entries[e].status != Created
    ensures !LinkLost(evs, e)
  {
    hide Inv, Next, Start, Adopts, Run;
    StartOk();
    forall j | 0 <= j < |evs| ensures !TakesLink(Run(Start(), evs[..j]), evs[j], e) {
      NeverLinked(Start(), evs, e, j);
    }
  }

  /** What one more event does to the history of a link. */
  lemma LostStep(evs: seq<Event>, e: EntryId)
    requires evs != []
    ensures var most, ev := evs[..|evs| - 1], evs[|evs| - 1];
      var d := Run(Start(), most);
      LinkLost(evs, e) <==> TakesLink(d, ev, e) || (LinkLost(most, e) && !Adopts(d, ev, e))
  {
    hide Next, Start, TakesLink, Adopts, Run;
    var n := |evs| - 1;
    var most := evs[..n];
    assert forall j | 0 <= j < n :: most[..j] == evs[..j] && most[j] == evs[j];
    if LinkLost(most, e) && !Adopts(Run(Start(), most), evs[n], e) {
      var j :| 0 <= j < n && TakesLink(Run(Start(), most[..j]), most[j], e) &&
               forall i | j < i < n :: !Adopts(Run(Start(), most[..i]), most[i], e);
      assert TakesLink(Run(Start(), evs[..j]), evs[j], e);
    }
    if TakesLink(Run(Start(), most), evs[n], e) {
      assert TakesLink(Run(Start(), evs[..n]), evs[n], e);
    }
    if LinkLost(evs, e) && !TakesLink(Run(Start(), most), evs[n], e) {
      var j :| 0 <= j < |evs| && TakesLink(Run(Start(), evs[..j]), evs[j], e) &&
               forall i | j < i < |evs| :: !Adopts(Run(Start(), evs[..i]), evs[i], e);
      assert j < n;
      assert TakesLink(Run(Start(), most[..j]), most[j], e);
    }
  }

  /** Without a reconciliation that adopts a task, only the deletion of task `t` matters to
      an entry that had this one. */
  lemma BoundStep(d: Db, ev: Event, e: EntryId, t: TaskId)
    requires Inv(d) && e in d.entries && d.entries[e].status == Created && e in Next(d, ev).entries
    requires (d.entries[e].task.Some? ==> d.entries[e].task == Some(t)) && !Adopts(d, ev, e)
    ensures Next(d, ev).entries[e].task == (if ev == TaskRowGone(t) then None else d.entries[e].task)
    ensures Next(d, ev).entries[e].status == Created
  {
    hide Inv, Next, Adopts;
    LinkStep(d, ev, e);
    NamesBelow(d);
    EntrySteps(d, ev, e);
  }

  /** Entry `e`, bound to task `t`, is only ever reconciled to no effect on its link. */
  ghost predicate NeverAdopts(d: Db, evs: seq<Event>, e: EntryId) {
    forall i | 0 <= i < |evs| :: !Adopts(Run(d, evs[..i]), evs[i], e)
  }

  lemma NeverAdoptsBefore(d: Db, evs: seq<Event>, e: EntryId)
    requires evs != [] && NeverAdopts(d, evs, e)
    ensures NeverAdopts(d, evs[..|evs| - 1], e)
    ensures !Adopts(Run(d, evs[..|evs| - 1]), evs[|evs| - 1], e)
  {
    hide Run, Adopts;
    var most := evs[..|evs| - 1];
    forall i | 0 <= i < |most| ensures !Adopts(Run(d, most[..i]), most[i], e) {
      assert most[..i] == evs[..i];
    }
  }

  /** An entry bound to task `t`, as long as no reconciliation adopts another task: it keeps
      `t` until the row of `t` is deleted, and has none from then on. */
  lemma {:induction false} BoundUntilGone(d: Db, evs: seq<Event>, e: EntryId, t: TaskId)
    requires Inv(d) && e in d.entries && d.entries[e].task == Some(t) && e in Run(d, evs).entries
    requires NeverAdopts(d, evs, e)
    ensures Run(d, evs).entries[e].task == (if TaskRowGone(t) in evs then None else Some(t))
    ensures Run(d, evs).entries[e].status == Created
    decreases |evs|
  {
    hide Inv, Next, NeverAdopts;
    if evs == [] {
      EntryRow(d, e);
    } else {
      var most, last := evs[..|evs| - 1], evs[|evs| - 1];
      StillThere(d, evs, e);
      RunKeeps(d, most);
      NeverAdoptsBefore(d, evs, e);
      BoundUntilGone(d, most, e, t);
      assert evs == most + [last];
      BoundStep(Run(d, most), last, e, t);
    }
  }

  /** An entry that is there before and after a run is there all the time. */
  lemma StillThere(d: Db, evs: seq<Event>, e: EntryId)
    requires Inv(d) && e in d.entries && evs != [] && e in Run(d, evs).entries
    ensures e in Run(d, evs[..|evs| - 1]).entries
  {
    hide Inv, Next;
    var most := evs[..|evs| - 1];
    RunKeeps(d, most);
    EntryNamed(d, most, e);
    NamesBelow(Run(d, most));
    EntrySteps(Run(d, most), evs[|evs| - 1], e);
  }

  // ---------------------------------------------------------------- items

  predicate Done(o: Outcome) { o == CreatedTask || o == Existing }

  /** The row of the item's task is deleted, or the item is listed as existing for an entry
      that has no task at that moment. */
  ghost predicate TakesItemLink(d: Db, ev: Event, k: ItemKey) {
    || (ev.TaskRowGone? && k in d.items && d.items[k].task == Some(ev.task))
    || (ev.Begin? && k !in d.items && k in Next(d, ev).items && k.1 in d.entries &&
        d.entries[k.1].status == Created && d.entries[k.1].task.None?)
  }

  ghost predicate ItemLost(evs: seq<Event>, k: ItemKey) {
    exists j | 0 <= j < |evs| :: TakesItemLink(Run(Start(), evs[..j]), evs[j], k)
  }

  /** How an item may change: once done it stays so, and only loses its task; before that it
      has none. */
  predicate ItemEdge(was: Item, row: Item, unlink: Option<TaskId>) {
    && (Done(was.outcome) ==>
          row.outcome == was.outcome && row.task == (if was.task.Some? && was.task == unlink then None else was.task))
    && (!Done(was.outcome) && was.task.None? ==> (Done(row.outcome) <==> row.task.Some?))
  }

  predicate ItemMoves(d: Db, n: Db, k: ItemKey, unlink: Option<TaskId>) {
    && (k in d.items && k in n.items ==> ItemEdge(d.items[k], n.items[k], unlink))
    && (k in n.items ==> k in d.items)
  }

  /** One step and an item that exists. */
  lemma ItemStep(d: Db, ev: Event, k: ItemKey)
    requires !ev.Begin?
    ensures ItemMoves(d, Next(d, ev), k, Unlinks(ev))
  {
    hide Ensure, Claim, Heartbeat, Reset, Persist, Complete, FailLease, RecoverExpired,
         MarkBlobDeleted, BeginBatch, ClaimItem, SaveDerived, FinalizeItem, FailItem,
         CompleteBatch, Reconcile, PrepareDelete, FinalizeDelete, Derive, DeriveStatus,
         DeriveTask, TaskGone, DerivedGone, OtherRetain, OtherRelease, OtherStage, OtherPublish;
    if !TouchesItems(ev) {
      ItemsKept(d, ev);
      return;
    }
    match ev
    case ResetImport(l) => ResetItem(d, l, k);
    case ClaimWork(b, choice, owner, duration) => ClaimsItem(d, b, choice, owner, duration, k);
    case Finalize(w, u, t, created) => FinalizesItem(d, w, u, t, created, k);
    case FailWork(w, retry) => FailsItem(d, w, retry, k);
    case ReconcileEntry(f) => ReconcilesItem(d, f, k);
    case Erase(u) => ErasesItem(d, u, k);
    case TaskRowGone(t) => UnlinksItem(d, t, k);
  }

  lemma ResetItem(d: Db, l: Lease, k: ItemKey)
    ensures ItemMoves(d, Reset(d, l), k, None)
  {
    hide Live, ReleaseEntries, EntriesOf;
    LeaseRow(d, l);
  }

  lemma ClaimsItem(d: Db, b: BatchId, choice: Option<EntryId>, owner: Owner, duration: nat, k: ItemKey)
    ensures ItemMoves(d, ClaimItem(d, b, choice, owner, duration), k, None)
  {
    hide Readable, WorkOf, Expired;
    ClaimableRow(FailExhausted(d, b), b, choice);
  }

  lemma FinalizesItem(d: Db, w: Work, u: UploadId, t: TaskId, created: bool, k: ItemKey)
    ensures ItemMoves(d, FinalizeItem(d, w, u, t, created), k, None)
  {
    hide BindError, ReleaseOne, CountCreated;
    WorkItem(d, w);
    if FinalizeError(d, w, u, t).None? { BoundBlob(d, w.entry, u, t); }
  }

  lemma FailsItem(d: Db, w: Work, retry: bool, k: ItemKey)
    ensures ItemMoves(d, FailItem(d, w, retry), k, None)
  {
    WorkItem(d, w);
  }

  lemma ReconcilesItem(d: Db, f: EntryId, k: ItemKey)
    ensures ItemMoves(d, Reconcile(d, f), k, None)
  {
    hide Reconcile, BindError, LinkFact, Candidates, BindEntry;
    var task, upload := ReconcileOutcome(d, f);
  }

  lemma ErasesItem(d: Db, u: UploadId, k: ItemKey)
    ensures ItemMoves(d, FinalizeDelete(d, u), k, None)
  {
    hide FinalizeDeleteError, FindImport, ReleaseEntries, ReleaseSource, BatchesOf, EntriesOf;
    if FinalizeDeleteError(d, u).None? && FindImport(d, u).Some? { ErasedStatus(d, u); }
  }

  lemma UnlinksItem(d: Db, t: TaskId, k: ItemKey)
    ensures ItemMoves(d, TaskGone(d, t), k, Some(t))
  {}

  /** The item is listed for an entry, in a batch whose id is new. */
  ghost predicate Listed(d: Db, n: Db, k: ItemKey) {
    && k.0 !in d.mintedBatches && k.0 in n.mintedBatches && k in n.items && k.1 in d.entries
    && exists i :: n.items[k] == NewItem(i, d.entries[k.1])
  }

  /** Beginning a batch lists entries, and changes no item. */
  lemma BeginStep(d: Db, ev: Event, k: ItemKey)
    requires ev.Begin? && (k in d.items ==> k.0 in d.mintedBatches)
    ensures k in d.items ==> k in Next(d, ev).items && Next(d, ev).items[k] == d.items[k]
    ensures k !in d.items && k in Next(d, ev).items ==> Listed(d, Next(d, ev), k)
  {
    hide BeginBatch, Listed;
    if Enabled(d, ev) { BatchLists(d, ev.batch, ev.request, ev.fingerprint, k); }
  }

  lemma BatchLists(d: Db, b: BatchId, request: BatchInput, fingerprint: string, k: ItemKey)
    requires b !in d.mintedBatches && (k in d.items ==> k.0 in d.mintedBatches)
    ensures var n := BeginBatch(d, b, request, fingerprint);
      && (k in d.items ==> k in n.items && n.items[k] == d.items[k])
      && (k !in d.items && k in n.items ==> Listed(d, n, k))
  {
    hide BeginError, FindBatch, Chosen, InsertItems, NewItem;
    if BeginError(d, b, request, fingerprint).None? && FindBatch(d, request).None? {
      AllSelectable(d, b, request, fingerprint);
      var chosen := Chosen(d, request.archive, request.publicIds);
      ChosenAt(d, request.archive, request.publicIds);
      Inserted(d.items, b, chosen, d.entries, k);
    }
  }

  lemma AllSelectable(d: Db, b: BatchId, request: BatchInput, fingerprint: string)
    requires BeginError(d, b, request, fingerprint).None? && FindBatch(d, request).None?
    ensures forall n | 0 <= n < |request.publicIds| :: Selectable(d, request.archive, request.publicIds[n])
  {}

  lemma {:induction false} Inserted(
    items: map<ItemKey, Item>, b: BatchId, chosen: seq<EntryId>, entries: map<EntryId, Entry>, k: ItemKey)
    requires forall e | e in chosen :: e in entries
    ensures var n := InsertItems(items, b, chosen, entries);
      && (k in items ==> k in n)
      && (k.0 != b ==> (k in n <==> k in items) && (k in items ==> n[k] == items[k]))
      && (k !in items && k in n ==>
            k.0 == b && k.1 in entries && exists i :: n[k] == NewItem(i, entries[k.1]))
  {
    hide NewItem;
    if chosen != [] { Inserted(items, b, chosen[..|chosen| - 1], entries, k); }
  }

  lemma MintedGrow(d: Db, ev: Event)
    ensures d.mintedBatches <= Next(d, ev).mintedBatches
  {
    hide Ensure, Claim, Heartbeat, Reset, Persist, Complete, FailLease, RecoverExpired,
         MarkBlobDeleted, BeginBatch, ClaimItem, SaveDerived, FinalizeItem, FailItem,
         CompleteBatch, Reconcile, PrepareDelete, FinalizeDelete, Derive, DeriveStatus,
         DeriveTask, TaskGone, DerivedGone, OtherRetain, OtherRelease, OtherStage, OtherPublish;
  }

  lemma ItemsMinted(d: Db, k: ItemKey)
    requires Inv(d) && k in d.items
    ensures k.0 in d.mintedBatches
  {
    hide BlobsOk, ImportsOk, EntriesOk, CountersOk, TicketsOk, FactsOk;
    ItemRow(d, k);
  }

  /** What one more event does to the history of an item's link. */
  lemma ItemLostStep(evs: seq<Event>, k: ItemKey)
    requires evs != []
    ensures var most, ev := evs[..|evs| - 1], evs[|evs| - 1];
      ItemLost(evs, k) <==> ItemLost(most, k) || TakesItemLink(Run(Start(), most), ev, k)
  {
    hide Start, Run, TakesItemLink;
    var n := |evs| - 1;
    var most := evs[..n];
    assert forall j | 0 <= j < n :: most[..j] == evs[..j] && most[j] == evs[j];
    if ItemLost(most, k) {
      var j :| 0 <= j < n && TakesItemLink(Run(Start(), most[..j]), most[j], k);
      assert TakesItemLink(Run(Start(), evs[..j]), evs[j], k);
    }
    if ItemLost(evs, k) && !TakesItemLink(Run(Start(), most), evs[n], k) {
      var j :| 0 <= j < |evs| && TakesItemLink(Run(Start(), evs[..j]), evs[j], k);
      assert TakesItemLink(Run(Start(), most[..j]), most[j], k);
    }
  }

  /** Only items of batches that were begun have a history. */
  lemma {:induction false} LostWasListed(evs: seq<Event>, k: ItemKey)
    requires ItemLost(evs, k)
    ensures k.0 in Run(Start(), evs).mintedBatches
    decreases |evs|
  {
    hide Inv, Next, Start, ItemLost, Listed;
    if evs == [] {
      NoHistory(k);
    } else {
      var most, ev := evs[..|evs| - 1], evs[|evs| - 1];
      var d := Run(Start(), most);
      StartOk();
      RunKeeps(Start(), most);
      MintedGrow(d, ev);
      ItemLostStep(evs, k);
      if ItemLost(most, k) { LostWasListed(most, k); } else { TakenIsListed(d, ev, k); }
    }
  }

  lemma NoHistory(k: ItemKey) ensures !ItemLost([], k) {}

  lemma TakenIsListed(d: Db, ev: Event, k: ItemKey)
    requires Inv(d) && TakesItemLink(d, ev, k)
    ensures k.0 in Next(d, ev).mintedBatches
  {
    hide Inv, Next;
    MintedGrow(d, ev);
    if k in d.items { ItemsMinted(d, k); } else { BeginStep(d, ev, k); }
  }

  /** An item that is not done has no task and has lost none; a done one has lost its task
      exactly if it has none. */
  predicate ItemFate(row: Item, lost: bool) {
    if Done(row.outcome) then row.task.None? <==> lost else row.task.None? && !lost
  }

  lemma {:induction false} ItemHistory(evs: seq<Event>, k: ItemKey)
    requires k in Run(Start(), evs).items
    ensures ItemFate(Run(Start(), evs).items[k], ItemLost(evs, k))
    decreases |evs|
  {
    hide Inv, Next, Start, ItemLost, TakesItemLink, ItemFate, Listed, ItemEdge;
    if evs == [] {
      NoItemAtStart(k);
    } else {
      var most, ev := evs[..|evs| - 1], evs[|evs| - 1];
      var d := Run(Start(), most);
      StartOk();
      RunKeeps(Start(), most);
      ItemLostStep(evs, k);
      if k in d.items { ItemsMinted(d, k); }
      if ev.Begin? { BeginStep(d, ev, k); } else { ItemStep(d, ev, k); }
      if k in d.items {
        ItemHistory(most, k);
        FateStep(d, ev, k, ItemLost(most, k));
      } else {
        if ItemLost(most, k) { LostWasListed(most, k); }
        ListedFate(d, ev, k, ItemLost(most, k));
      }
    }
  }

  lemma NoItemAtStart(k: ItemKey) ensures k !in Run(Start(), []).items {}

  lemma FateStep(d: Db, ev: Event, k: ItemKey, lost: bool)
    requires k in d.items && k in Next(d, ev).items && ItemFate(d.items[k], lost)
    requires if ev.Begin? then Next(d, ev).items[k] == d.items[k]
             else ItemEdge(d.items[k], Next(d, ev).items[k], Unlinks(ev))
    ensures ItemFate(Next(d, ev).items[k], lost || TakesItemLink(d, ev, k))
  {
    hide Next;
  }

  lemma ListedFate(d: Db, ev: Event, k: ItemKey, lost: bool)
    requires ev.Begin? && k !in d.items && Listed(d, Next(d, ev), k)
    requires lost ==> k.0 in d.mintedBatches
    ensures ItemFate(Next(d, ev).items[k], lost || TakesItemLink(d, ev, k))
  {
    hide Next;
  }

  /** At the end of any run, an item that is `created` or `existing` has no task exactly if
      the row of its task has been deleted since, or its entry had none when the item was
      listed. No reconciliation gives it another one. */
  lemma ItemNoTaskIff(evs: seq<Event>, k: ItemKey)
    requires k in Run(Start(), evs).items && Done(Run(Start(), evs).items[k].outcome)
    ensures Run(Start(), evs).items[k].task.None? <==> ItemLost(evs, k)
  {
    hide ItemLost, Run, Start;
    ItemHistory(evs, k);
  }

  /** Such an item names the task of its entry, unless it has lost its own. */
  lemma ItemsAgree(evs: seq<Event>, k: ItemKey)
    requires k in Run(Start(), evs).items && Done(Run(Start(), evs).items[k].outcome)
    ensures var d := Run(Start(), evs);
      && k.1 in d.entries && d.entries[k.1].status == Created
      && (if ItemLost(evs, k) then d.items[k].task.None?
          else d.items[k].task.Some? && d.items[k].task == d.entries[k.1].task)
  {
    hide Inv, Run, Start, ItemLost;
    StartOk();
    RunKeeps(Start(), evs);
    ItemRow(Run(Start(), evs), k);
    ItemNoTaskIff(evs, k);
  }
}
