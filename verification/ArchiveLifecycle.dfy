/** What holds over every run of the archive-import saga: reference counts, the life
    of an import, and leases that have died. */
module ArchiveLifecycle {
  import opened Counting
  import opened ArchiveDb
  import opened ArchiveTransactions
  import opened ArchiveInvariant
  import opened ArchiveImportSteps
  import opened ArchiveEntrySteps
  import opened ArchiveBatchSteps
  import opened ArchiveBindSteps
  import opened ArchiveRuns

  // ---------------------------------------------------------------- conservation

  /** In every reachable state a blob's count is the number of unreleased import
      sources, unreleased entries and other holders, and the blob can be read
      exactly while that number is positive. */
  lemma ReferencesConserved(evs: seq<Event>, b: BlobId)
    requires b in Run(Start(), evs).blobs
    ensures var d := Run(Start(), evs);
      && b in d.holders
      && d.blobs[b].refs ==
         Count(d.imports, SourceHolds(b)) + Count(d.entries, EntryHolds(b)) + d.holders[b]
      && (d.blobs[b].refs > 0 <==> Referenced(d.blobs[b].state))
  {
    hide Inv;
    StartOk();
    RunKeeps(Start(), evs);
    BlobsOf(Run(Start(), evs));
  }

  /** Whoever still holds a reference can give it back: the row exists, is
      available and counts at least one, so releaseBlob never reports a conflict. */
  lemma ReleaseNeverConflicts(evs: seq<Event>, i: ImportId, e: EntryId)
    ensures var d := Run(Start(), evs);
      && (i in d.imports && !d.imports[i].sourceReleased ==>
            var b := d.imports[i].sourceBlob;
            b in d.blobs && d.blobs[b].state == Available && d.blobs[b].refs > 0)
      && (e in d.entries && d.entries[e].blob.Some? && !d.entries[e].released ==>
            var b := d.entries[e].blob.value;
            b in d.blobs && d.blobs[b].state == Available && d.blobs[b].refs > 0)
  {
    hide Inv;
    StartOk();
    RunKeeps(Start(), evs);
    var d := Run(Start(), evs);
    BlobsOf(d);
    if i in d.imports && !d.imports[i].sourceReleased {
      assert IsAvailable(d.blobs, d.imports[i].sourceBlob);
    }
    if e in d.entries && d.entries[e].blob.Some? && !d.entries[e].released {
      assert IsAvailable(d.blobs, d.entries[e].blob.value);
    }
  }

  // ---------------------------------------------------------------- import lifecycle

  /** A running import keeps its holder, and an expired lease is not extended. */
  predicate HoldKept(now: Time, was: Import, row: Import) {
    was.status == Running && row.status == Running && was.hold.Some? ==>
      && row.hold.Some? && row.hold.value.owner == was.hold.value.owner
      && (was.hold.value.until <= now ==> row.hold == was.hold)
  }

  /** How one step may change import `i`: along the edges of the lifecycle, with a
      new fence exactly when it is claimed; a released source stays released. */
  ghost predicate Moves(d: Db, n: Db, i: ImportId) {
    && i in d.imports && i in n.imports && ImportEdge(d.imports[i], n.imports[i])
    && n.imports[i].fence == d.imports[i].fence +
         One(d.imports[i].status == Queued && n.imports[i].status == Running)
    && (d.imports[i].sourceReleased ==> n.imports[i].sourceReleased)
    && HoldKept(d.now, d.imports[i], n.imports[i])
    && n.now >= d.now && n.leases >= d.leases
  }

  lemma UntouchedMoves(d: Db, n: Db, i: ImportId)
    requires i in d.imports && KeepsImports(d, n)
    ensures Moves(d, n, i)
  {}

  lemma AddMoves(d: Db, id: ImportId, input: EnsureInput, blob: BlobId, i: ImportId)
    requires i in d.imports && id !in d.imports && blob in d.blobs && input.upload in d.uploads
    ensures Moves(d, LinkUpload(AddImport(d, id, input, blob), input.upload, id), i)
  {
    hide NewImport;
  }

  lemma LinkMoves(d: Db, u: UploadId, id: ImportId, i: ImportId)
    requires i in d.imports && u in d.uploads
    ensures Moves(d, LinkUpload(d, u, id), i)
  {}

  lemma EnsureMoves(d: Db, id: ImportId, input: EnsureInput, i: ImportId)
    requires i in d.imports
    ensures Moves(d, Ensure(d, id, input), i)
  {
    hide Moves, EnsureError, FindImport, LinkUpload, AddImport;
    TickMoves(d, 0, i);
    if EnsureError(d, id, input).None? {
      EnsureAddsOnly(d, id, input);
      match FindImport(d, input.upload)
      case Some(found) => LinkMoves(d, input.upload, found, i);
      case None => AddMoves(d, id, input, d.uploads[input.upload].blob.value, i);
    }
  }

  lemma EnsureAddsOnly(d: Db, id: ImportId, input: EnsureInput)
    requires EnsureError(d, id, input).None?
    ensures input.upload in d.uploads && d.uploads[input.upload].blob.Some? &&
            d.uploads[input.upload].blob.value in d.blobs
    ensures FindImport(d, input.upload).None? ==> id !in d.imports
  {
    hide FindImport, UploadMatches, SameSource;
  }

  lemma ClaimMoves(d: Db, id: ImportId, owner: Owner, duration: nat, i: ImportId)
    requires i in d.imports
    ensures Moves(d, Claim(d, id, owner, duration), i)
  {}

  /** One import row is rewritten, along an edge of the lifecycle. */
  ghost predicate Rewrites(d: Db, n: Db, k: ImportId, row: Import) {
    && n.now == d.now && n.leases == d.leases && k in d.imports
    && n.imports == d.imports[k := row]
  }

  lemma RewriteMoves(d: Db, n: Db, k: ImportId, row: Import, i: ImportId)
    requires i in d.imports && Rewrites(d, n, k, row)
    requires ImportEdge(d.imports[k], row)
    requires row.fence == d.imports[k].fence +
               One(d.imports[k].status == Queued && row.status == Running)
    requires d.imports[k].sourceReleased ==> row.sourceReleased
    requires HoldKept(d.now, d.imports[k], row)
    ensures Moves(d, n, i)
  {}

  lemma HeartbeatMoves(d: Db, l: Lease, duration: nat, i: ImportId)
    requires i in d.imports
    ensures Moves(d, Heartbeat(d, l, duration), i)
  {
    hide Moves;
    TickMoves(d, 0, i);
    if Live(d, l) {
      var row := d.imports[l.id].(hold := Some(Hold(l.owner, d.now + duration)));
      RewriteMoves(d, Heartbeat(d, l, duration), l.id, row, i);
    }
  }

  lemma CompleteMoves(d: Db, l: Lease, i: ImportId)
    requires i in d.imports
    ensures Moves(d, Complete(d, l), i)
  {
    hide Moves, ReleaseSource;
    TickMoves(d, 0, i);
    if Live(d, l) {
      var row := d.imports[l.id].(sourceReleased := true, status := Ready, hold := None);
      RewriteMoves(d, Complete(d, l), l.id, row, i);
    }
  }

  lemma RequeueMoves(d: Db, k: ImportId, delay: nat, i: ImportId)
    requires i in d.imports && k in d.imports && d.imports[k].status == Running
    ensures Moves(d, Requeue(d, k, delay), i)
  {
    hide Moves;
    var row := d.imports[k].(status := Queued, hold := None, availableAt := d.now + delay);
    RewriteMoves(d, Requeue(d, k, delay), k, row, i);
  }

  lemma GiveUpMoves(d: Db, k: ImportId, i: ImportId)
    requires i in d.imports && k in d.imports && d.imports[k].status == Running
    ensures Moves(d, GiveUp(d, k), i)
  {
    hide Moves, ReleaseSource;
    var row := d.imports[k].(sourceReleased := true, status := Failed, hold := None);
    RewriteMoves(d, GiveUp(d, k), k, row, i);
  }

  lemma FailLeaseMoves(d: Db, l: Lease, retry: bool, delay: nat, i: ImportId)
    requires i in d.imports
    ensures Moves(d, FailLease(d, l, retry, delay), i)
  {
    hide Moves, GiveUp, Requeue;
    TickMoves(d, 0, i);
    if Held(d, l) {
      RequeueMoves(d, l.id, delay, i);
      GiveUpMoves(d, l.id, i);
    }
  }

  lemma RecoverMoves(d: Db, id: ImportId, delay: nat, i: ImportId)
    requires i in d.imports
    ensures Moves(d, RecoverExpired(d, id, delay), i)
  {
    hide Moves, GiveUp, Requeue;
    TickMoves(d, 0, i);
    if id in d.imports && d.imports[id].status == Running {
      RequeueMoves(d, id, delay, i);
      GiveUpMoves(d, id, i);
    }
  }

  lemma ResetMoves(d: Db, l: Lease, i: ImportId)
    requires i in d.imports
    ensures Moves(d, Reset(d, l), i)
  {
    hide Moves, ReleaseEntries, EntriesOf;
    TickMoves(d, 0, i);
    if Live(d, l) {
      var row := d.imports[l.id].(scanned := 0, total := 0, eligible := 0, skipped := 0);
      RewriteMoves(d, Reset(d, l), l.id, row, i);
    }
  }

  lemma PersistMoves(d: Db, l: Lease, m: NewEntry, i: ImportId)
    requires i in d.imports
    ensures Moves(d, Persist(d, l, m), i)
  {
    hide PersistError, Retain, RetainedBlob;
    LiveIfPersisted(d, l, m);
  }

  lemma LiveIfPersisted(d: Db, l: Lease, m: NewEntry)
    ensures PersistError(d, l, m).None? ==> l.id in d.imports
  {}

  lemma PrepareMoves(d: Db, u: UploadId, actor: Actor, i: ImportId)
    requires i in d.imports
    ensures Moves(d, PrepareDelete(d, u, actor), i)
  {
    hide Moves, PrepareError, FindImport;
    TickMoves(d, 0, i);
    var found := FindImport(d, u);
    if PrepareError(d, u, actor).None? && found.Some? {
      PreparedStatus(d, u, actor);
      if d.imports[found.value].status !in {Erased, Tombstoned} {
        var row := d.imports[found.value].(status := Tombstoned, hold := None);
        RewriteMoves(d, PrepareDelete(d, u, actor), found.value, row, i);
      }
    }
  }

  lemma PreparedStatus(d: Db, u: UploadId, actor: Actor)
    requires PrepareError(d, u, actor).None? && FindImport(d, u).Some?
    ensures FindImport(d, u).value in d.imports &&
            d.imports[FindImport(d, u).value].status != Running
  {}

  lemma FoundIsUpload(d: Db, u: UploadId)
    ensures FindImport(d, u).Some? ==> FindImport(d, u).value in d.imports
  {}

  lemma EraseMoves(d: Db, u: UploadId, i: ImportId)
    requires i in d.imports
    ensures Moves(d, FinalizeDelete(d, u), i)
  {
    hide FinalizeDeleteError, ReleaseSource, ReleaseEntries;
    FoundIsUpload(d, u);
    var found := FindImport(d, u);
    if FinalizeDeleteError(d, u).None? && found.Some? {
      ErasedStatus(d, u);
    }
  }

  lemma ErasedStatus(d: Db, u: UploadId)
    requires FinalizeDeleteError(d, u).None? && FindImport(d, u).Some?
    ensures FindImport(d, u).value in d.imports &&
            d.imports[FindImport(d, u).value].status in {Erased, Tombstoned}
  {
    hide Orphan;
  }

  lemma BindMoves(d: Db, e: EntryId, u: UploadId, t: TaskId, i: ImportId)
    requires i in d.imports && e in d.entries && d.entries[e].blob.Some?
    ensures Moves(d, BindEntry(d, e, u, t), i)
  {}

  lemma FinalizeMoves(d: Db, w: Work, u: UploadId, t: TaskId, created: bool, i: ImportId)
    requires i in d.imports
    ensures Moves(d, FinalizeItem(d, w, u, t, created), i)
  {
    hide BindEntry, BindError;
    if FinalizeError(d, w, u, t).None? {
      BindNeedsBlob(d, w.entry, u, t);
      BindMoves(d, w.entry, u, t, i);
    }
  }

  lemma ReconcileMoves(d: Db, e: EntryId, i: ImportId)
    requires i in d.imports
    ensures Moves(d, Reconcile(d, e), i)
  {
    hide Reconcile, BindEntry, BindError, AdoptItems, Moves;
    TickMoves(d, 0, i);
    var task, upload := ReconcileOutcome(d, e);
    if task.Some? {
      BindMoves(d, e, d.tasks[task.value], task.value, i);
      SameImportsMove(d, BindEntry(d, e, d.tasks[task.value], task.value), Reconcile(d, e), i);
    } else if upload.Some? {
      UntouchedMoves(d, Reconcile(d, e), i);
    }
  }

  lemma SameImportsMove(d: Db, m: Db, n: Db, i: ImportId)
    requires i in d.imports && Moves(d, m, i) && KeepsImports(m, n)
    ensures Moves(d, n, i)
  {}

  predicate OfLease(ev: Event) {
    ev.EnsureImport? || ev.ClaimImport? || ev.HeartbeatLease? || ev.ResetImport? || ev.PersistMember? || ev.CompleteImport?
  }

  /** The steps of a leased import. */
  lemma LeasedMoves(d: Db, ev: Event, i: ImportId)
    requires i in d.imports && Enabled(d, ev) && OfLease(ev)
    ensures Moves(d, Effect(d, ev), i)
  {
    hide KeepsUploads, KeepsEntries, Ensure, Claim, Heartbeat, Reset, Persist, Complete, FailLease, RecoverExpired,
         MarkBlobDeleted, BeginBatch, ClaimItem, SaveDerived, FinalizeItem, FailItem,
         CompleteBatch, Reconcile, PrepareDelete, FinalizeDelete, Derive, DeriveStatus,
         DeriveTask, TaskGone, DerivedGone, OtherRetain, OtherRelease, OtherStage, OtherPublish,
         Moves, KeepsImports;
    match ev
    case EnsureImport(id, input) => EnsureMoves(d, id, input, i);
    case ClaimImport(id, owner, duration) => ClaimMoves(d, id, owner, duration, i);
    case HeartbeatLease(l, duration) => HeartbeatMoves(d, l, duration, i);
    case ResetImport(l) => ResetMoves(d, l, i);
    case PersistMember(l, m) => PersistMoves(d, l, m, i);
    case CompleteImport(l) => CompleteMoves(d, l, i);
  }

  /** The steps that end a lease, bind a task or delete. */
  lemma OtherMoves(d: Db, ev: Event, i: ImportId)
    requires i in d.imports && Enabled(d, ev) && TouchesImports(ev) && !OfLease(ev)
    ensures Moves(d, Effect(d, ev), i)
  {
    hide KeepsUploads, KeepsEntries, Ensure, Claim, Heartbeat, Reset, Persist, Complete, FailLease, RecoverExpired,
         MarkBlobDeleted, BeginBatch, ClaimItem, SaveDerived, FinalizeItem, FailItem,
         CompleteBatch, Reconcile, PrepareDelete, FinalizeDelete, Derive, DeriveStatus,
         DeriveTask, TaskGone, DerivedGone, OtherRetain, OtherRelease, OtherStage, OtherPublish,
         Moves, KeepsImports;
    match ev
    case FailImport(l, retry, delay) => FailLeaseMoves(d, l, retry, delay, i);
    case RecoverImport(id, delay) => RecoverMoves(d, id, delay, i);
    case Finalize(w, u, t, created) => FinalizeMoves(d, w, u, t, created, i);
    case ReconcileEntry(e) => ReconcileMoves(d, e, i);
    case Prepare(u, actor) => PrepareMoves(d, u, actor, i);
    case Erase(u) => EraseMoves(d, u, i);
    case Tick(elapsed) => TickMoves(d, elapsed, i);
  }

  /** Import rows are never deleted, and every step moves them along the lifecycle. */
  lemma ImportMoves(d: Db, ev: Event, i: ImportId)
    requires i in d.imports
    ensures Moves(d, Next(d, ev), i)
  {
    hide Effect, Enabled, Moves, KeepsImports;
    TickMoves(d, 0, i);
    if !Enabled(d, ev) { return; }
    if !TouchesImports(ev) {
      ImportsKept(d, ev);
      UntouchedMoves(d, Next(d, ev), i);
    } else if OfLease(ev) {
      LeasedMoves(d, ev, i);
    } else {
      OtherMoves(d, ev, i);
    }
  }

  lemma TickMoves(d: Db, elapsed: nat, i: ImportId)
    requires i in d.imports
    ensures Moves(d, d.(now := d.now + elapsed), i)
  {}

  /** How far a run may take an import row. */
  ghost predicate Later(was: Import, row: Import) {
    && row.upload == was.upload && row.maxAttempts == was.maxAttempts && row.fence >= was.fence
    && (was.sourceReleased ==> row.sourceReleased)
    && (was.status == Erased ==> row.status == Erased)
    && (was.status == Tombstoned ==> row.status in {Tombstoned, Erased})
    && (was.status == Ready ==> row.status in {Ready, Tombstoned, Erased})
    && (was.status == Failed ==> row.status in {Failed, Tombstoned, Erased})
  }

  /** The claims of import `i` during a run. */
  ghost function Claims(d: Db, evs: seq<Event>, i: ImportId): nat {
    if evs == [] then 0 else
    var before := Run(d, evs[..|evs| - 1]);
    var after := Next(before, evs[|evs| - 1]);
    Claims(d, evs[..|evs| - 1], i) +
      One(i in before.imports && i in after.imports && before.imports[i].status == Queued &&
          after.imports[i].status == Running)
  }

  /** Over any run an import row stays, never leaves a final status but towards
      deletion, never gets its source back, and its fence counts its claims. */
  lemma {:induction false} ImportFate(d: Db, evs: seq<Event>, i: ImportId)
    requires i in d.imports
    ensures var n := Run(d, evs);
      i in n.imports && Later(d.imports[i], n.imports[i]) &&
      n.imports[i].fence == d.imports[i].fence + Claims(d, evs, i)
  {
    hide Next;
    if evs != [] {
      ImportFate(d, evs[..|evs| - 1], i);
      ImportMoves(Run(d, evs[..|evs| - 1]), evs[|evs| - 1], i);
    }
  }

  /** However often it is retried or recovered, an import is claimed at most
      max_attempts times. */
  lemma ClaimsBounded(d: Db, evs: seq<Event>, i: ImportId)
    requires Inv(d) && i in d.imports
    ensures Claims(d, evs, i) <= d.imports[i].maxAttempts - d.imports[i].attempt
  {
    hide Inv, Run, Claims;
    ImportFate(d, evs, i);
    RunKeeps(d, evs);
    RowOk(Run(d, evs), i);
    RowOk(d, i);
  }

  // ---------------------------------------------------------------- dead leases

  /** No step revives a lease that is superseded, given up or expired. */
  lemma DeadStep(d: Db, ev: Event, l: Lease)
    requires Inv(d) && l in d.leases && !Live(d, l)
    ensures l in Next(d, ev).leases && !Live(Next(d, ev), l)
  {
    hide Inv, Next;
    LeaseIsOk(d, l);
    RowOk(d, l.id);
    ImportMoves(d, ev, l.id);
  }

  lemma {:induction false} DeadStays(d: Db, evs: seq<Event>, l: Lease)
    requires Inv(d) && l in d.leases && !Live(d, l)
    ensures l in Run(d, evs).leases && !Live(Run(d, evs), l)
  {
    hide Inv, Live, Next;
    if evs != [] {
      DeadStays(d, evs[..|evs| - 1], l);
      RunKeeps(d, evs[..|evs| - 1]);
      DeadStep(Run(d, evs[..|evs| - 1]), evs[|evs| - 1], l);
    }
  }

  /** A lease that once was dead changes nothing ever after: not the import, its
      entries or its counters, nor a blob. The one exception is FailLease asking for
      a retry, which does not look at the expiry. */
  lemma DeadLeaseIsInert(
    d: Db, evs: seq<Event>, l: Lease, m: NewEntry, retry: bool, delay: nat, duration: nat)
    requires Inv(d) && l in d.leases && !Live(d, l)
    ensures var n := Run(d, evs);
      && Heartbeat(n, l, duration) == Reset(n, l) == Persist(n, l, m) == Complete(n, l) == n
      && (FailLease(n, l, retry, delay) == n <==> !(Retries(l, retry) && Held(n, l)))
  {
    hide Inv, Run, Live, RetainError;
    DeadStays(d, evs, l);
    if Held(Run(d, evs), l) { RequeueChanges(Run(d, evs), l, delay); }
  }

  lemma RequeueChanges(d: Db, l: Lease, delay: nat)
    requires Held(d, l)
    ensures Requeue(d, l.id, delay) != d
  {
    assert Requeue(d, l.id, delay).imports[l.id].status == Queued;
  }

  /** The exception does happen: a lease left to expire still puts its import back
      into the queue, as long as nobody has claimed or recovered it meanwhile. */
  lemma ExpiredLeaseRequeues(d: Db, l: Lease, elapsed: nat, delay: nat)
    requires Live(d, l) && l.attempt < l.maxAttempts
    requires d.now + elapsed >= d.imports[l.id].hold.value.until
    ensures var n := Next(d, Tick(elapsed));
      && !Live(n, l)
      && l.id in FailLease(n, l, true, delay).imports
      && FailLease(n, l, true, delay).imports[l.id].status == Queued
  {
  }

  // ---------------------------------------------------------------- status at any time

  /** What the tables agree on at every moment of every run. */
  ghost predicate WellKept(d: Db) {
    && (forall i, j | i in d.imports && j in d.imports && d.imports[i].status == Running &&
          d.imports[j].status == Running :: i == j)
    && (forall i | i in d.imports ::
          d.imports[i].attempt == d.imports[i].fence <= d.imports[i].maxAttempts)
    && (forall b, c | b in d.batches && c in d.batches && !d.batches[b].completed &&
          !d.batches[c].completed && d.batches[b].archive == d.batches[c].archive :: b == c)
    && (forall b | b in d.batches && !d.batches[b].completed ::
          d.batches[b].archive in d.imports && d.imports[d.batches[b].archive].status == Ready)
    && (forall k | k in d.items && Open(d.items[k].outcome) ::
          k.0 in d.batches && !d.batches[k.0].completed)
    && (forall i | i in d.imports && d.imports[i].status == Erased ::
          d.imports[i].sourceReleased && EntriesOf(d, i) == {} && BatchesOf(d, i) == {})
  }

  lemma RunningAlone(d: Db, i: ImportId, j: ImportId)
    requires Inv(d) && i in d.imports && j in d.imports
    requires d.imports[i].status == Running && d.imports[j].status == Running
    ensures i == j
  {
    hide BlobsOk, EntriesOk, CountersOk, BatchesOk, ItemsOk, NamesOk, TicketsOk, FactsOk;
    CountAtMostOne(d.imports, IsRunning(), i, j);
  }

  lemma ProcessingAlone(d: Db, b: BatchId, c: BatchId)
    requires Inv(d) && b in d.batches && c in d.batches
    requires !d.batches[b].completed && !d.batches[c].completed
    requires d.batches[b].archive == d.batches[c].archive
    ensures b == c
  {
    hide BlobsOk, EntriesOk, CountersOk, ItemsOk, NamesOk, TicketsOk, FactsOk, ImportsOk;
    assert BatchOk(d.batches[b], d.imports);
    CountAtMostOne(d.batches, ProcessingIn(d.batches[b].archive), b, c);
  }

  lemma ErasedBare(d: Db, i: ImportId)
    requires Inv(d) && i in d.imports && d.imports[i].status == Erased
    ensures EntriesOf(d, i) == {} && BatchesOf(d, i) == {}
  {
    hide BlobsOk, CountersOk, ItemsOk, NamesOk, TicketsOk, FactsOk, ImportsOk;
    forall e | e in d.entries ensures d.entries[e].archive != i {
      assert EntryOk(d.entries[e], d.imports);
    }
    forall b | b in d.batches ensures d.batches[b].archive != i {
      assert BatchOk(d.batches[b], d.imports);
    }
  }

  lemma AlwaysWellKept(evs: seq<Event>)
    ensures WellKept(Run(Start(), evs))
  {
    hide Inv, Run, Start, EntriesOf, BatchesOf;
    StartOk();
    RunKeeps(Start(), evs);
    var d := Run(Start(), evs);
    forall i | i in d.imports ensures ImportOk(d.imports[i]) { RowOk(d, i); }
    forall i, j | i in d.imports && j in d.imports && d.imports[i].status == Running &&
                  d.imports[j].status == Running
      ensures i == j { RunningAlone(d, i, j); }
    forall b, c | b in d.batches && c in d.batches && !d.batches[b].completed &&
          !d.batches[c].completed && d.batches[b].archive == d.batches[c].archive
      ensures b == c { ProcessingAlone(d, b, c); }
    forall b | b in d.batches ensures BatchOk(d.batches[b], d.imports) { BatchRow(d, b); }
    forall k | k in d.items
      ensures ItemLinked(k, d.items[k], d.entries, d.batches, d.unlinked) { ItemRow(d, k); }
    forall i | i in d.imports && d.imports[i].status == Erased
      ensures EntriesOf(d, i) == {} && BatchesOf(d, i) == {} { ErasedBare(d, i); }
  }
}
