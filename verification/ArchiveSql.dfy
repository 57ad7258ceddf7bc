/** The transactions of the import side, statement by statement. */
module ArchiveSql {
  import opened Counting
  import opened ArchiveDb
  import opened ArchiveTransactions
  import opened ArchiveInvariant
  import opened ArchiveImportSteps
  import opened ArchiveEntrySteps
  import opened ArchiveBatchSteps
  import opened ArchiveBindSteps
  import opened ArchiveProgress
  import opened ArchiveRepository

  /** No row of the import can be claimed, or this one comes first in the queue. */
  ghost predicate FirstInLine(d: Db, id: ImportId, locked: set<ImportId>) {
    && id !in locked && Claimable(d, id)
    && forall j | j in d.imports && j !in locked && Claimable(d, j) ::
         d.imports[id].availableAt < d.imports[j].availableAt ||
         (d.imports[id].availableAt == d.imports[j].availableAt && id <= j)
  }

  class MySQLRepository {
    var db: Db

    constructor ()
      ensures db == Db(0, map[], map[], map[], map[], map[], map[], map[], map[], map[], false,
                       0, 0, {}, {}, {}, {})
    {
      db := Db(0, map[], map[], map[], map[], map[], map[], map[], map[], map[], false,
               0, 0, {}, {}, {}, {});
    }

    /** Ensure: find the import of an upload, or retain its blob and create one. */
    method Ensure(id: ImportId, input: EnsureInput)
      returns (found: Option<ImportId>, created: bool, error: Option<Error>)
      requires Inv(db)
      modifies this
      ensures Inv(db)
      ensures db == ArchiveTransactions.Ensure(old(db), id, input)
      ensures error == EnsureError(old(db), id, input)
      ensures error.None? ==>
        && found.Some? && found.value in db.imports
        && db.imports[found.value].upload == input.upload
        && input.upload in db.uploads && db.uploads[input.upload].archiveImport == found
        && (created <==> found.value !in old(db).imports)
    {
      hide Inv, UploadMatches, NewImport;
      EnsureKeeps(db, id, input);
      FindImportFinds(db, input.upload);
      found, created, error := None, false, None;
      if input.upload !in db.uploads { return None, false, Some(NotFound); }
      var u := db.uploads[input.upload];
      if u.blob.None? || u.blob.value !in db.blobs || u.actualDigest.None? {
        return None, false, Some(Database);
      }
      var b := db.blobs[u.blob.value];
      if !UploadMatches(u, b, input) { return None, false, Some(Conflict); }
      var tx := new Tx(db);
      if exists i :: i in tx.db.imports && tx.db.imports[i].upload == input.upload {
        var i :| i in tx.db.imports && tx.db.imports[i].upload == input.upload;
        var row := tx.db.imports[i];
        if row.createdBy != input.createdBy || row.rootFormat != input.format {
          return None, false, Some(Conflict);
        }
        if u.archiveImport.Some? && u.archiveImport.value != i { return None, false, Some(Conflict); }
        if row.sourceBlob != u.blob.value || row.sourceKey != b.key || row.sourceDigest != b.digest ||
           row.sourceSize != b.size { return None, false, Some(Conflict); }
        QueuedHasSource(db, i);
        if row.status == Queued && row.sourceReleased { return None, false, Some(Conflict); }
        if u.archiveImport.None? {
          tx.db := tx.db.(uploads := tx.db.uploads[input.upload := u.(archiveImport := Some(i))]);
        } else {
          assert tx.db.uploads[input.upload := u] == tx.db.uploads;
        }
        db := tx.db;
        return Some(i), false, None;
      }
      found, created, error := Insert(tx, id, input);
      if error.None? { db := tx.db; }
    }

    /** The part of Ensure that retains the blob and inserts the import and its link. */
    method Insert(tx: Tx, id: ImportId, input: EnsureInput)
      returns (found: Option<ImportId>, created: bool, error: Option<Error>)
      requires input.upload in tx.db.uploads && FindImport(tx.db, input.upload).None?
      requires var u := tx.db.uploads[input.upload];
        u.blob.Some? && u.blob.value in tx.db.blobs && u.actualDigest.Some? && UploadMatches(u, tx.db.blobs[u.blob.value], input)
      modifies tx
      ensures error == EnsureError(old(tx.db), id, input)
      ensures error.None? ==> tx.db == ArchiveTransactions.Ensure(old(tx.db), id, input)
      ensures error.None? ==>
        && found == Some(id) && created && id in tx.db.imports && id !in old(tx.db).imports
        && tx.db.imports[id].upload == input.upload
        && input.upload in tx.db.uploads && tx.db.uploads[input.upload].archiveImport == found
    {
      hide UploadMatches, NewImport;
      var u := tx.db.uploads[input.upload];
      var b := tx.db.blobs[u.blob.value];
      if u.archiveImport.Some? { return None, false, Some(Conflict); }
      tx.db := tx.db.(blobs := tx.db.blobs[u.blob.value := b.(refs := b.refs + 1)]);
      if id in tx.db.imports { return None, false, Some(Conflict); }
      UploadedInput(u, b, input);
      tx.db := tx.db.(imports := tx.db.imports[id := NewImport(input, u.blob.value, b.key, tx.db.now)]);
      NewImportRow(input, u.blob.value, b.key, tx.db.now);
      tx.db := tx.db.(uploads := tx.db.uploads[input.upload := u.(archiveImport := Some(id))]);
      return Some(id), true, None;
    }

    /** MarkBlobDeleted: one guarded UPDATE. */
    method MarkBlobDeleted(b: BlobId)
      requires Inv(db)
      modifies this
      ensures Inv(db)
      ensures db == ArchiveTransactions.MarkBlobDeleted(old(db), b)
    {
      hide Inv;
      MarkBlobDeletedKeeps(db, b);
      if b in db.blobs && db.blobs[b].state == Deleting && db.blobs[b].refs == 0 {
        db := db.(blobs := db.blobs[b := db.blobs[b].(state := Deleted)]);
      }
    }

    /** The row that Claim's SELECT returns: the first claimable import that no other
        transaction has locked. */
    method SelectQueued(locked: set<ImportId>) returns (found: Option<ImportId>)
      ensures found.Some? ==> FirstInLine(db, found.value, locked)
      ensures found.None? ==> forall j | j in db.imports && j !in locked :: !Claimable(db, j)
    {
      var rest := db.imports.Keys;
      found := None;
      while rest != {}
        invariant rest <= db.imports.Keys
        invariant found.Some? ==>
          && found.value !in locked && Claimable(db, found.value)
          && forall j | j in db.imports && j !in rest && j !in locked && Claimable(db, j) ::
               db.imports[found.value].availableAt < db.imports[j].availableAt ||
               (db.imports[found.value].availableAt == db.imports[j].availableAt &&
                found.value <= j)
        invariant found.None? ==>
          forall j | j in db.imports && j !in rest && j !in locked :: !Claimable(db, j)
        decreases |rest|
      {
        hide Claimable;
        var j :| j in rest;
        rest := rest - {j};
        if j !in locked && Claimable(db, j) {
          ClaimableRow(db, j);
          if found.None? {
            found := Some(j);
          } else {
            ClaimableRow(db, found.value);
            var row, best := db.imports[j], db.imports[found.value];
            if row.availableAt < best.availableAt ||
               (row.availableAt == best.availableAt && j < found.value) {
              found := Some(j);
            }
          }
        }
      }
    }

    /** Claim. `locked` are the import rows other transactions hold right now. */
    method Claim(owner: Owner, duration: nat, locked: set<ImportId>) returns (lease: Option<Lease>)
      requires Inv(db)
      modifies this
      ensures Inv(db)
      ensures lease.Some? <==>
        (exists j | j in old(db).imports :: j !in locked && Claimable(old(db), j)) &&
        !GateBusy(old(db))
      ensures lease.None? ==> db == old(db)
      ensures lease.Some? ==>
        && FirstInLine(old(db), lease.value.id, locked)
        && db == ArchiveTransactions.Claim(old(db), lease.value.id, owner, duration)
        && lease.value == LeaseOf(lease.value.id, old(db).imports[lease.value.id], owner)
    {
      hide Inv;
      var found := SelectQueued(locked);
      if found.None? { return None; }
      var id := found.value;
      ClaimableRow(db, id);
      if db.slotBusy || exists i :: i in db.imports && db.imports[i].status == Running {
        return None;
      }
      ClaimKeeps(db, id, owner, duration);
      var i := db.imports[id];
      var row := i.(status := Running, attempt := i.attempt + 1, fence := i.fence + 1,
                    hold := Some(Hold(owner, db.now + duration)));
      var issued := Lease(id, owner, row.fence, row.attempt, row.maxAttempts);
      db := db.(imports := db.imports[id := row], leases := db.leases + {issued});
      return Some(issued);
    }

    /** Heartbeat: one UPDATE with the whole condition. */
    method Heartbeat(l: Lease, duration: nat) returns (error: Option<Error>)
      requires Inv(db)
      modifies this
      ensures Inv(db)
      ensures db == ArchiveTransactions.Heartbeat(old(db), l, duration)
      ensures error == if Live(old(db), l) then None else Some(LeaseLost)
    {
      hide Inv;
      HeartbeatKeeps(db, l, duration);
      var tx := new Tx(db);
      error := tx.LockLease(l);
      if error.Some? { return; }
      var row := db.imports[l.id];
      db := db.(imports := db.imports[l.id := row.(hold := Some(Hold(l.owner, db.now + duration)))]);
    }

    /** ResetForProcessing: give every entry's blob back, delete the entries, clear the
        counters. */
    method ResetForProcessing(l: Lease)
      returns (released: seq<ReleasedBlob>, error: Option<Error>)
      requires Inv(db)
      modifies this
      ensures Inv(db)
      ensures db == Reset(old(db), l)
      ensures error == if Live(old(db), l) then None else Some(LeaseLost)
      ensures Lists(released, old(db).blobs, db.blobs)
    {
      hide Inv, BlobsOk, Lists, ReleaseEntries, MarkReleased, Unreleased;
      ResetKeeps(db, l);
      NothingYet(db);
      released := [];
      var tx := new Tx(db);
      error := tx.LockLease(l);
      if error.Some? { return; }
      BlobsOf(db);
      released, error := tx.ReleaseEntryBlobs(l.id);
      if error.Some? { return; }
      MarkedGone(db, l.id);
      tx.db := DeleteEntries(tx.db, l.id);
      var row := tx.db.imports[l.id];
      tx.db := tx.db.(imports := tx.db.imports[l.id := row.(scanned := 0, total := 0, eligible := 0,
                                                            skipped := 0)]);
      db := tx.db;
    }

    /** PersistEntry: retain or create the blob, insert the row, count it. */
    method PersistEntry(l: Lease, m: NewEntry) returns (error: Option<Error>)
      requires Inv(db)
      modifies this
      ensures Inv(db)
      ensures db == Persist(old(db), l, m)
      ensures error == PersistError(old(db), l, m)
    {
      hide Inv, BlobsOk, RetainError, Retain, RetainedBlob, SameKey;
      PersistKeeps(db, l, m);
      var tx := new Tx(db);
      error := tx.LockLease(l);
      if error.Some? { return; }
      BlobsOf(db);
      FreshNames(db);
      var blob: Option<BlobId> := None;
      if m.eligible {
        var id;
        id, error := tx.RetainPublishedBlob(m);
        if error.Some? { return; }
        blob := Some(id);
      }
      var row := Entry(m.publicId, l.id, m.ordinal, m.member,
                       if m.eligible then Eligible else Skipped, blob, false, None, None);
      SameKeyAnyBlob(db, l, m, blob);
      if exists e :: e in tx.db.entries && SameKey(tx.db.entries[e], row) {
        return Some(Database);
      }
      tx.db := tx.db.(entries := tx.db.entries[tx.db.nextEntry := row],
                      nextEntry := tx.db.nextEntry + 1);
      var i := tx.db.imports[l.id];
      var eligible, skipped := if m.eligible then 1 else 0, if m.eligible then 0 else 1;
      tx.db := tx.db.(imports := tx.db.imports[l.id :=
        i.(scanned := i.scanned + 1, total := i.total + 1, eligible := i.eligible + eligible,
           skipped := i.skipped + skipped)]);
      db := tx.db;
    }

    /** CompleteLease */
    method CompleteLease(l: Lease) returns (error: Option<Error>)
      requires Inv(db)
      modifies this
      ensures Inv(db)
      ensures db == Complete(old(db), l)
      ensures error == if Live(old(db), l) then None else Some(LeaseLost)
    {
      hide Inv, BlobsOk, Lists, ReleaseSource;
      CompleteKeeps(db, l);
      var tx := new Tx(db);
      error := tx.LockLease(l);
      if error.Some? { return; }
      BlobsOf(db);
      var candidate, deleting;
      candidate, deleting, error := tx.ReleaseImportSource(l.id);
      if error.Some? { return; }
      var row := tx.db.imports[l.id];
      WrittenTwice(db.imports, l.id, row, row.(status := Ready, hold := None));
      tx.db := tx.db.(imports := tx.db.imports[l.id := row.(status := Ready, hold := None)]);
      db := tx.db;
    }

    /** FailLease: back to the queue by a single UPDATE, or failed for good. */
    method FailLease(l: Lease, retry: bool, delay: nat) returns (error: Option<Error>)
      requires Inv(db) && l in db.leases
      modifies this
      ensures Inv(db)
      ensures db == ArchiveTransactions.FailLease(old(db), l, retry, delay)
      ensures error ==
        if (if Retries(l, retry) then Held(old(db), l) else Live(old(db), l))
        then None else Some(LeaseLost)
    {
      hide Inv, Held, Live, GiveUp, Requeue;
      FailLeaseKeeps(db, l, retry, delay);
      if retry && l.attempt < l.maxAttempts {
        error := RequeueLease(l, delay);
      } else {
        error := FailForGood(l);
      }
    }

    /** The UPDATE of a retry: it names the holder and the fence, not the expiry. */
    method RequeueLease(l: Lease, delay: nat) returns (error: Option<Error>)
      modifies this
      ensures db == if Held(old(db), l) then Requeue(old(db), l.id, delay) else old(db)
      ensures error == if Held(old(db), l) then None else Some(LeaseLost)
    {
      if l.id !in db.imports { return Some(LeaseLost); }
      var row := db.imports[l.id];
      if row.status != Running || row.hold.None? || row.hold.value.owner != l.owner ||
         row.fence != l.fence { return Some(LeaseLost); }
      db := db.(imports := db.imports[l.id := row.(status := Queued, hold := None,
                                                   availableAt := db.now + delay)]);
      return None;
    }

    method FailForGood(l: Lease) returns (error: Option<Error>)
      requires Inv(db)
      modifies this
      ensures db == if Live(old(db), l) then GiveUp(old(db), l.id) else old(db)
      ensures error == if Live(old(db), l) then None else Some(LeaseLost)
    {
      hide Inv, BlobsOk, Lists, ReleaseSource;
      var tx := new Tx(db);
      error := tx.LockLease(l);
      if error.Some? { return; }
      BlobsOf(db);
      var candidate, deleting;
      candidate, deleting, error := tx.ReleaseImportSource(l.id);
      if error.Some? { return; }
      var row := tx.db.imports[l.id];
      WrittenTwice(db.imports, l.id, row, row.(status := Failed, hold := None));
      tx.db := tx.db.(imports := tx.db.imports[l.id := row.(status := Failed, hold := None)]);
      db := tx.db;
    }

    /** recoverExpiredLease */
    method RecoverExpiredLease(id: ImportId, delay: nat) returns (recovered: bool, error: Option<Error>)
      requires Inv(db)
      modifies this
      ensures Inv(db) && error.None?
      ensures db == RecoverExpired(old(db), id, delay)
      ensures recovered <==> id in old(db).imports && old(db).imports[id].status == Running &&
                             Expired(old(db), old(db).imports[id].hold)
    {
      hide Inv, BlobsOk, Lists, ReleaseSource;
      RecoverExpiredKeeps(db, id, delay);
      recovered, error := false, None;
      if id !in db.imports || db.imports[id].status != Running || db.imports[id].hold.None? ||
         db.imports[id].hold.value.until > db.now { return; }
      var tx := new Tx(db);
      if tx.db.imports[id].attempt >= tx.db.imports[id].maxAttempts {
        BlobsOf(db);
        var candidate, deleting;
        candidate, deleting, error := tx.ReleaseImportSource(id);
        if error.Some? { return; }
        var row := tx.db.imports[id];
        WrittenTwice(db.imports, id, row, row.(status := Failed, hold := None));
        tx.db := tx.db.(imports := tx.db.imports[id := row.(status := Failed, hold := None)]);
      } else {
        var row := tx.db.imports[id];
        tx.db := tx.db.(imports := tx.db.imports[id :=
          row.(status := Queued, hold := None, availableAt := tx.db.now + delay)]);
      }
      db := tx.db;
      recovered := true;
    }

    // -------------------------------------------------------------- batches

    /** The SELECT loop of BeginBatch: the entry of every requested public id, in the
        order of the request, or the first refusal. */
    method SelectEntries(a: ImportId, ids: seq<nat>)
      returns (selected: seq<EntryId>, error: Option<Error>)
      requires Inv(db)
      ensures error.None? ==>
        (forall n | 0 <= n < |ids| :: Selectable(db, a, ids[n])) && selected == Chosen(db, a, ids)
      ensures error.Some? ==>
        error == Some(InvalidInput) &&
        exists n | 0 <= n < |ids| :: !Selectable(db, a, ids[n])
    {
      hide Inv, Selectable, Chosen;
      selected := [];
      ChosenNone(db, a);
      var n := 0;
      while n < |ids|
        invariant 0 <= n <= |ids|
        invariant forall m | 0 <= m < n :: Selectable(db, a, ids[m])
        invariant selected == Chosen(db, a, ids[..n])
      {
        PublicIdUnique(db, a, ids[n]);
        if !exists e :: e in db.entries && db.entries[e].archive == a &&
                        db.entries[e].publicId == ids[n] {
          return [], Some(InvalidInput);
        }
        var e :| e in db.entries && db.entries[e].archive == a && db.entries[e].publicId == ids[n];
        if db.entries[e].status != Eligible && db.entries[e].status != EntryFailed &&
           db.entries[e].status != Created {
          return [], Some(InvalidInput);
        }
        ChosenNext(db, a, ids[..n + 1]);
        assert ids[..n + 1][..n] == ids[..n];
        selected := selected + [e];
        n := n + 1;
      }
      assert ids[..n] == ids;
      error := None;
    }

    /** The INSERT loop of BeginBatch, with the count of pending items. */
    method InsertBatchItems(tx: Tx, batch: BatchId, selected: seq<EntryId>)
      returns (pending: nat, error: Option<Error>)
      requires forall e | e in selected :: e in tx.db.entries
      requires forall k | k in tx.db.items :: k.0 != batch
      modifies tx
      ensures error == if |selected| <= 20 && Distinct(selected) then None else Some(Database)
      ensures error.None? ==>
        && tx.db == old(tx.db).(items := InsertItems(old(tx.db).items, batch, selected,
                                                     old(tx.db).entries))
        && (pending == 0 <==> AllCreated(old(tx.db).entries, selected))
    {
      hide InsertItems, Distinct, AllCreated;
      ghost var was := tx.db;
      NothingInserted(was.items, batch, was.entries);
      pending := 0;
      var n := 0;
      while n < |selected|
        invariant 0 <= n <= |selected| && n <= 20 && Distinct(selected[..n])
        invariant tx.db == was.(items := InsertItems(was.items, batch, selected[..n], was.entries))
        invariant pending == 0 <==> AllCreated(was.entries, selected[..n])
      {
        var e := selected[n];
        InsertedKeys(was.items, batch, selected[..n], was.entries, e);
        NotDistinct(selected, n);
        if n >= 20 || (batch, e) in tx.db.items { return pending, Some(Database); }
        AllCreatedNext(was.entries, selected, n);
        var outcome, task := Pending, None;
        if tx.db.entries[e].status == Created {
          outcome, task := Existing, tx.db.entries[e].task;
        } else {
          pending := pending + 1;
        }
        InsertNext(was.items, batch, selected[..n + 1], was.entries);
        assert selected[..n + 1][..n] == selected[..n];
        tx.db := tx.db.(items := tx.db.items[(batch, e) := Item(n, outcome, 0, 3, 0, None, task)]);
        n := n + 1;
      }
      assert selected[..n] == selected;
      error := None;
    }

    /** BeginBatch */
    method BeginBatch(batch: BatchId, input: BatchInput, fingerprint: string)
      returns (id: BatchId, created: bool, error: Option<Error>)
      requires Inv(db)
      modifies this
      ensures Inv(db)
      ensures db == ArchiveTransactions.BeginBatch(old(db), batch, input, fingerprint)
      ensures error == BeginError(old(db), batch, input, fingerprint)
      ensures error.None? ==>
        && id in db.batches && Requested(db.batches[id], input)
        && db.batches[id].fingerprint == fingerprint
        && (created <==> FindBatch(old(db), input).None?)
    {
      hide Inv, Selectable, Chosen, InsertItems;
      BeginBatchKeeps(db, batch, input, fingerprint);
      FindBatchFinds(db, input);
      id, created := batch, false;
      if exists b :: b in db.batches && Requested(db.batches[b], input) {
        var b :| b in db.batches && Requested(db.batches[b], input);
        if db.batches[b].fingerprint != fingerprint { return b, false, Some(IdempotencyConflict); }
        return b, false, None;
      }
      if input.archive !in db.imports { return id, false, Some(NotFound); }
      if db.imports[input.archive].status != Ready { return id, false, Some(Conflict); }
      NoneProcessing(db, input.archive);
      if exists b :: b in db.batches && db.batches[b].archive == input.archive &&
                     !db.batches[b].completed { return id, false, Some(Conflict); }
      var selected;
      selected, error := SelectEntries(input.archive, input.publicIds);
      if error.Some? { return; }
      var tx := new Tx(db);
      if batch in tx.db.batches { return id, false, Some(Conflict); }
      tx.db := tx.db.(batches := tx.db.batches[batch := Batch(input.archive, input.createdBy,
                                                              input.key, fingerprint, false)]);
      ChosenAt(db, input.archive, input.publicIds);
      ChosenDistinct(db, input.archive, input.publicIds);
      NoItemsYet(db, batch);
      var pending;
      pending, error := InsertBatchItems(tx, batch, selected);
      if error.Some? { return; }
      if pending == 0 {
        tx.db := tx.db.(batches := tx.db.batches[batch := tx.db.batches[batch].(completed := true)]);
      }
      Rebatched(db.batches, batch, tx.db.batches[batch]);
      db := tx.db.(mintedBatches := db.mintedBatches + {batch});
      created, error := true, None;
    }

    /** lockBatchItem */
    method LockBatchItem(w: Work) returns (error: Option<Error>)
      ensures error == if WorkLive(db, w) then None else Some(LeaseLost)
    {
      var k := (w.batch, w.entry);
      if k !in db.items { return Some(LeaseLost); }
      var i := db.items[k];
      if i.outcome == Processing && i.hold.Some? && i.hold.value.owner == w.owner &&
         i.fence == w.fence && i.hold.value.until > db.now { return None; }
      return Some(LeaseLost);
    }

    /** The two bulk UPDATEs of ClaimBatchItem. */
    method FailExhaustedItems(tx: Tx, batch: BatchId)
      modifies tx
      ensures tx.db == FailExhausted(old(tx.db), batch)
    {
      ghost var d := tx.db;
      tx.db := tx.db.(entries := map e | e in tx.db.entries ::
        if Exhausted(tx.db, (batch, e)) && tx.db.entries[e].status != Created
        then tx.db.entries[e].(status := EntryFailed) else tx.db.entries[e]);
      assert tx.db.entries == FailExhausted(d, batch).entries;
      assert forall k | k in d.items :: Exhausted(tx.db, k) == Exhausted(d, k);
      hide Exhausted;
      tx.db := tx.db.(items := map k | k in tx.db.items ::
        if k.0 == batch && Exhausted(tx.db, k)
        then tx.db.items[k].(outcome := ItemFailed, hold := None) else tx.db.items[k]);
    }

    /** The SELECT of ClaimBatchItem: the claimable item with the lowest ordinal that no
        other transaction has locked. */
    method SelectItem(tx: Tx, batch: BatchId, locked: set<ItemKey>)
      returns (found: Option<EntryId>)
      ensures found.Some? ==> FirstItem(tx.db, (batch, found.value), locked)
      ensures found.None? ==> forall k | k in tx.db.items && k.0 == batch && k !in locked ::
                                !ItemClaimable(tx.db, k)
    {
      var rest := tx.db.items.Keys;
      found := None;
      while rest != {}
        invariant rest <= tx.db.items.Keys
        invariant found.Some? ==>
          && (batch, found.value) !in locked && ItemClaimable(tx.db, (batch, found.value))
          && forall k | k in tx.db.items && k !in rest && k.0 == batch && k !in locked &&
                        ItemClaimable(tx.db, k) ::
               tx.db.items[(batch, found.value)].ordinal <= tx.db.items[k].ordinal
        invariant found.None? ==>
          forall k | k in tx.db.items && k !in rest && k.0 == batch && k !in locked ::
            !ItemClaimable(tx.db, k)
        decreases |rest|
      {
        hide ItemClaimable;
        var k :| k in rest;
        rest := rest - {k};
        if k.0 == batch && k !in locked && ItemClaimable(tx.db, k) {
          assert k == (batch, k.1);
          if found.None? {
            found := Some(k.1);
          } else {
            ClaimableItemRow(tx.db, (batch, found.value));
            if tx.db.items[k].ordinal < tx.db.items[(batch, found.value)].ordinal {
              found := Some(k.1);
            }
          }
        }
      }
    }

    /** ClaimBatchItem. `locked` are the item rows other transactions hold right now. */
    method ClaimBatchItem(batch: BatchId, owner: Owner, duration: nat, locked: set<ItemKey>)
      returns (work: Option<Work>, error: Option<Error>)
      requires Inv(db)
      modifies this
      ensures Inv(db)
      ensures error.Some? ==> work.None? && db == old(db) && !UploadsOnFile(old(db))
      ensures error.None? && work.None? ==>
        && db == FailExhausted(old(db), batch)
        && forall k | k in db.items && k.0 == batch && k !in locked :: !ItemClaimable(db, k)
      ensures error.None? && work.Some? ==>
        var swept, k := FailExhausted(old(db), batch), (batch, work.value.entry);
        && FirstItem(swept, k, locked) && Readable(swept, k)
        && work.value == WorkOf(swept, k, owner)
        && db == ClaimItem(old(db), batch, Some(k.1), owner, duration)
    {
      hide Inv, ItemClaimable, FailExhausted, Readable, UploadsOnFile;
      ClaimItemKeeps(db, batch, None, owner, duration);
      var tx := new Tx(db);
      FailExhaustedItems(tx, batch);
      ghost var swept := tx.db;
      var found := SelectItem(tx, batch, locked);
      if found.None? {
        db := tx.db;
        return None, None;
      }
      var k := (batch, found.value);
      ClaimItemKeeps(db, batch, found, owner, duration);
      ClaimableItemRow(swept, k);
      var row := tx.db.items[k];
      if !(k.0 in tx.db.batches && k.1 in tx.db.entries &&
           tx.db.entries[k.1].archive in tx.db.imports &&
           tx.db.batches[k.0].archive == tx.db.entries[k.1].archive &&
           tx.db.entries[k.1].blob.Some? &&
           tx.db.imports[tx.db.entries[k.1].archive].upload in tx.db.uploads) {
        SweptReadable(db, batch, k);
        return None, Some(Database);
      }
      ReadableRow(swept, k);
      tx.db := tx.db.(items := tx.db.items[k :=
        row.(outcome := Processing, attempt := row.attempt + 1, fence := row.fence + 1,
             hold := Some(Hold(owner, tx.db.now + duration)))]);
      var issued := Work(batch, found.value, tx.db.entries[found.value].archive,
                         ProvenanceOf(tx.db, found.value), owner, row.fence + 1);
      SweptClock(db, batch);
      db := tx.db.(works := tx.db.works + {issued});
      return Some(issued), None;
    }

    /** SaveDerivedUpload */
    method SaveDerivedUpload(w: Work, upload: UploadId) returns (error: Option<Error>)
      requires Inv(db)
      modifies this
      ensures Inv(db)
      ensures db == SaveDerived(old(db), w, upload)
      ensures error == SaveError(old(db), w, upload)
    {
      hide Inv, WorkLive;
      SaveDerivedKeeps(db, w, upload);
      error := LockBatchItem(w);
      if error.Some? { return; }
      if w.entry !in db.entries { return Some(Database); }
      var row := db.entries[w.entry];
      if row.derived.Some? && row.derived.value != upload { return Some(Conflict); }
      if upload !in db.derived { return Some(Database); }
      if row.derived.None? {
        db := db.(entries := db.entries[w.entry := row.(derived := Some(upload))]);
      } else {
        assert db.entries[w.entry := row] == db.entries;
      }
    }

    /** The statements that FinalizeBatchItem and ReconcileEntryFact share: give the blob
        back if it still is held, then mark the entry created. */
    method MarkCreated(tx: Tx, e: EntryId, upload: UploadId, task: TaskId)
      returns (released: seq<ReleasedBlob>, error: Option<Error>)
      requires e in tx.db.entries && tx.db.entries[e].blob.Some?
      requires BlobsOk(tx.db.blobs, tx.db.imports, tx.db.entries, tx.db.holders)
      modifies tx
      ensures error == if upload !in old(tx.db).derived || task !in old(tx.db).tasks ||
                          TaskTaken(old(tx.db), e, task)
                       then Some(Database) else None
      ensures error.None? ==>
        && tx.db == BindEntry(old(tx.db), e, upload, task).(imports := old(tx.db).imports)
        && Lists(released, old(tx.db).blobs, tx.db.blobs)
    {
      hide BlobsOk, Lists, ReleaseOne;
      ghost var was := tx.db;
      released, error := [], None;
      NothingYet(was);
      var row := tx.db.entries[e];
      if !row.released {
        EntryHeld(was, e);
        ListsOneMore([], was.blobs, was.blobs, row.blob.value);
        var candidate, deleting;
        candidate, deleting, error := tx.ReleaseBlob(row.blob.value);
        if error.Some? { return; }
        if deleting { released := released + [candidate.value]; }
      }
      if upload !in tx.db.derived || task !in tx.db.tasks ||
         exists f :: f in tx.db.entries && f != e && tx.db.entries[f].task == Some(task) {
        return released, Some(Database);
      }
      tx.db := tx.db.(entries := tx.db.entries[e :=
        row.(status := Created, derived := Some(upload), task := Some(task), released := true)]);
    }

    /** The UPDATE that counts a task, for an entry that was not created before. */
    method IncrementCreated(tx: Tx, row: Entry)
      modifies tx
      ensures tx.db == old(tx.db).(imports := CountCreated(old(tx.db).imports, row))
    {
      if row.status != Created && row.archive in tx.db.imports {
        var i := tx.db.imports[row.archive];
        tx.db := tx.db.(imports := tx.db.imports[row.archive := i.(createdTasks := i.createdTasks + 1)]);
      }
    }

    /** FinalizeBatchItem */
    method FinalizeBatchItem(w: Work, upload: UploadId, task: TaskId, created: bool)
      returns (released: seq<ReleasedBlob>, error: Option<Error>)
      requires Inv(db)
      modifies this
      ensures Inv(db)
      ensures db == FinalizeItem(old(db), w, upload, task, created)
      ensures error == FinalizeError(old(db), w, upload, task)
      ensures error.None? ==> Lists(released, old(db).blobs, db.blobs)
    {
      hide Inv, BlobsOk, Lists, ReleaseOne, WorkLive, TaskTaken;
      FinalizeItemKeeps(db, w, upload, task, created);
      released := [];
      var tx := new Tx(db);
      error := LockBatchItem(w);
      if error.Some? { return; }
      WorkRowOf(db, w);
      if w.entry !in tx.db.entries || tx.db.entries[w.entry].archive != w.archive ||
         tx.db.entries[w.entry].blob.None? { return [], Some(Database); }
      var row := tx.db.entries[w.entry];
      if row.derived.Some? && row.derived.value != upload { return [], Some(Conflict); }
      if row.task.Some? && row.task.value != task { return [], Some(Conflict); }
      BlobsOf(db);
      released, error := MarkCreated(tx, w.entry, upload, task);
      if error.Some? { return; }
      var k := (w.batch, w.entry);
      tx.db := tx.db.(items := tx.db.items[k := tx.db.items[k].(
        outcome := if created then CreatedTask else Existing, task := Some(task), hold := None)]);
      IncrementCreated(tx, row);
      db := tx.db;
    }

    /** FailBatchItem without `retry`; RetryOrFailBatchItem with it, where the result says
        whether the item went back to pending. */
    method FailBatchItem(w: Work, retry: bool) returns (again: bool, error: Option<Error>)
      requires Inv(db)
      modifies this
      ensures Inv(db)
      ensures db == FailItem(old(db), w, retry)
      ensures error == if WorkLive(old(db), w) then None else Some(LeaseLost)
      ensures error.None? ==>
        && (w.batch, w.entry) in old(db).items
        && (again <==> retry && old(db).items[(w.batch, w.entry)].attempt <
                                old(db).items[(w.batch, w.entry)].maxAttempts)
        && (w.batch, w.entry) in db.items && db.items[(w.batch, w.entry)].hold.None?
        && db.items[(w.batch, w.entry)].attempt == old(db).items[(w.batch, w.entry)].attempt
        && db.items[(w.batch, w.entry)].outcome == if again then Pending else ItemFailed
    {
      hide Inv, WorkLive;
      FailItemKeeps(db, w, retry);
      again := false;
      var tx := new Tx(db);
      error := LockBatchItem(w);
      if error.Some? { return; }
      WorkRowOf(db, w);
      var k := (w.batch, w.entry);
      if retry { again := tx.db.items[k].attempt < tx.db.items[k].maxAttempts; }
      if w.entry in tx.db.entries && tx.db.entries[w.entry].status != Created {
        tx.db := tx.db.(entries := tx.db.entries[w.entry :=
          tx.db.entries[w.entry].(status := EntryFailed)]);
      }
      tx.db := tx.db.(items := tx.db.items[k :=
        tx.db.items[k].(outcome := if again then Pending else ItemFailed, hold := None)]);
      db := tx.db;
    }

    /** CompleteBatch: one UPDATE guarded by NOT EXISTS. */
    method CompleteBatch(batch: BatchId) returns (completed: bool)
      requires Inv(db)
      modifies this
      ensures Inv(db)
      ensures db == ArchiveTransactions.CompleteBatch(old(db), batch)
      ensures completed <==> Finished(old(db), batch)
    {
      hide Inv;
      CompleteBatchKeeps(db, batch);
      completed := false;
      if batch in db.batches && !db.batches[batch].completed &&
         !exists k :: k in db.items && k.0 == batch &&
                      (db.items[k].outcome == Pending || db.items[k].outcome == Processing) {
        db := db.(batches := db.batches[batch := db.batches[batch].(completed := true)]);
        completed := true;
      }
    }

    // -------------------------------------------------------------- deletion

    /** orphanDerivedUploadsSQL, ordered by id. */
    method ListOrphans(a: ImportId) returns (plan: seq<UploadId>)
      ensures forall v :: v in plan <==> Orphan(db, a, v)
      ensures forall n, m | 0 <= n < m < |plan| :: plan[n] < plan[m]
    {
      plan := [];
      if a !in db.imports { return; }
      plan := InOrder(set v | v in db.derived && IsOrphan(db, a, v));
    }

    /** LoadDeletingPlan: for an import that is being deleted. */
    method LoadDeletingPlan(u: UploadId) returns (already: bool, plan: seq<UploadId>)
      requires Inv(db)
      ensures already <==> forall i | i in db.imports && db.imports[i].upload == u :: db.imports[i].status != Tombstoned
      ensures !already ==> forall i | i in db.imports && db.imports[i].upload == u ::
        forall v :: v in plan <==> Orphan(db, i, v)
      ensures already ==> plan == []
    {
      hide Inv, Orphan;
      FindImportFinds(db, u);
      already, plan := true, [];
      if a :| a in db.imports && db.imports[a].upload == u && db.imports[a].status == Tombstoned {
        already := false;
        plan := ListOrphans(a);
      }
    }

    /** PrepareDeleteForUpload: tombstone the import unless it is at work, and list the derived
        uploads that have to go before it can be erased. */
    method PrepareDeleteForUpload(u: UploadId, actor: Actor)
      returns (already: bool, plan: seq<UploadId>, error: Option<Error>)
      requires Inv(db)
      modifies this
      ensures Inv(db)
      ensures db == PrepareDelete(old(db), u, actor)
      ensures error == PrepareError(old(db), u, actor)
      ensures error.None? ==> (already <==> forall i | i in db.imports && db.imports[i].upload == u ::
                                              db.imports[i].status == Erased)
      ensures error.None? && !already ==>
        forall i | i in db.imports && db.imports[i].upload == u ::
          db.imports[i].status == Tombstoned && forall v :: v in plan <==> Orphan(db, i, v)
      ensures forall n, m | 0 <= n < m < |plan| :: plan[n] < plan[m]
    {
      hide Inv, Orphan;
      PrepareDeleteKeeps(db, u, actor);
      FindImportFinds(db, u);
      already, plan, error := true, [], None;
      if !exists i :: i in db.imports && db.imports[i].upload == u { return; }
      var a :| a in db.imports && db.imports[a].upload == u;
      var row := db.imports[a];
      if actor.user == 0 || (actor.role != Administrator && actor.role != Operator) {
        return true, [], Some(Forbidden);
      }
      if actor.role != Administrator && actor.user != row.createdBy { return true, [], Some(NotFound); }
      if row.status == Erased { return; }
      if row.status == Running { return true, [], Some(Conflict); }
      NoneProcessing(db, a);
      if exists b :: b in db.batches && db.batches[b].archive == a && !db.batches[b].completed {
        return true, [], Some(Conflict);
      }
      if row.status != Tombstoned {
        db := db.(imports := db.imports[a := row.(status := Tombstoned, hold := None)]);
      }
      plan := ListOrphans(a);
      return false, plan, None;
    }

    /** FinalizeDeleteForUpload */
    method FinalizeDeleteForUpload(u: UploadId)
      returns (released: seq<ReleasedBlob>, error: Option<Error>)
      requires Inv(db)
      modifies this
      ensures Inv(db)
      ensures db == FinalizeDelete(old(db), u)
      ensures error == FinalizeDeleteError(old(db), u)
      ensures error.None? ==> Lists(released, old(db).blobs, db.blobs)
    {
      hide Inv, BlobsOk, Conserved, Lists, Falls, ReleaseEntries, ReleaseSource, MarkReleased,
           Unreleased, Orphan, OrphanRow;
      FinalizeDeleteKeeps(db, u);
      FindImportFinds(db, u);
      released, error := [], None;
      NothingYet(db);
      if !exists i :: i in db.imports && db.imports[i].upload == u { return; }
      var a :| a in db.imports && db.imports[a].upload == u;
      if db.imports[a].status == Erased { return; }
      if db.imports[a].status != Tombstoned { return [], Some(Conflict); }
      OrphansListed(db, a);
      if exists v :: v in db.derived && OrphanRow(db, a, v) { return [], Some(Conflict); }
      var tx := new Tx(db);
      BlobsOf(db);
      released, error := tx.ReleaseEntryBlobs(a);
      if error.Some? { return; }
      MarkedGone(db, a);
      HalfErased(db, a);
      ghost var middle := tx.db.blobs;
      var source, deleting;
      source, deleting, error := tx.ReleaseImportSource(a);
      if error.Some? { return; }
      ConservedIn(db);
      EntriesFall(db, a);
      SourceFalls(middle, db.imports, tx.db.entries, db.holders, a);
      ListsJoin(released, if deleting && source.Some? then [source.value] else [],
                db.blobs, middle, tx.db.blobs);
      if deleting && source.Some? {
        released := released + [source.value];
      } else {
        assert released + [] == released;
      }
      ErasedItems(db, a);
      tx.db := tx.db.(batches := tx.db.batches - BatchesOf(tx.db, a),
                      items := tx.db.items - (set k | k in tx.db.items && k.0 in BatchesOf(tx.db, a)));
      tx.db := DeleteEntries(tx.db, a);
      var row := tx.db.imports[a];
      WrittenTwice(db.imports, a, row, row.(status := Erased));
      tx.db := tx.db.(imports := tx.db.imports[a := row.(status := Erased)]);
      db := tx.db;
    }

    // -------------------------------------------------------------- reconciliation

    /** The SELECT over derived uploads of an entry, joined with their tasks. */
    method SelectCandidates(e: EntryId) returns (rows: seq<Candidate>)
      requires Joined(db, e) && db.entries[e].blob.Some?
      ensures forall c :: c in rows <==> IsCandidate(db, e, c)
    {
      var origin := ProvenanceOf(db, e);
      var uploads := db.derived.Keys;
      rows := [];
      while uploads != {}
        invariant uploads <= db.derived.Keys
        invariant forall c | c in rows :: IsCandidate(db, e, c) && c.derived !in uploads
        invariant forall c | IsCandidate(db, e, c) && c.derived !in uploads :: c in rows
        decreases |uploads|
      {
        var u :| u in uploads;
        if db.derived[u].origin == origin {
          var more := JoinTasks(e, u);
          ghost var before := rows;
          rows := rows + more;
          assert forall c :: c in rows <==> c in before || c in more;
        }
        uploads := uploads - {u};
      }
    }

    /** The LEFT JOIN for one derived upload: a row for each task, or one without. */
    method JoinTasks(e: EntryId, u: UploadId) returns (rows: seq<Candidate>)
      requires Joined(db, e) && db.entries[e].blob.Some? && u in Candidates(db, e)
      ensures forall c :: c in rows <==> IsCandidate(db, e, c) && c.derived == u
    {
      var completed := db.derived[u].completed;
      if !exists t :: t in db.tasks && db.tasks[t] == u {
        return [Candidate(u, None, completed)];
      }
      var mine := set t | t in db.tasks && db.tasks[t] == u;
      var ids := InOrder(mine);
      rows := [];
      var n := 0;
      while n < |ids|
        invariant 0 <= n <= |ids|
        invariant forall c :: c in rows <==>
          c.derived == u && c.completed == completed && c.task.Some? && c.task.value in ids[..n]
      {
        ghost var before := rows;
        rows := rows + [Candidate(u, Some(ids[n]), completed)];
        assert forall c :: c in rows <==> c in before || c == Candidate(u, Some(ids[n]), completed);
        assert forall t :: t in ids[..n + 1] <==> t in ids[..n] || t == ids[n];
        n := n + 1;
      }
      assert ids[..n] == ids;
    }

    /** The scan for a task among the candidates. */
    static method ScanTasks(rows: seq<Candidate>)
      returns (fact: Option<Candidate>, error: Option<Error>)
      ensures error.Some? ==>
        && error == Some(Conflict)
        && exists c, f | c in rows && f in rows :: c.task.Some? && f.task.Some? && !SameFact(c, f)
      ensures error.None? ==>
        forall c, f | c in rows && f in rows && c.task.Some? && f.task.Some? :: SameFact(c, f)
      ensures error.None? && fact.Some? ==> fact.value in rows && fact.value.task.Some?
      ensures error.None? && fact.None? ==> forall c | c in rows :: c.task.None?
    {
      fact, error := None, None;
      var n := 0;
      while n < |rows|
        invariant 0 <= n <= |rows|
        invariant fact.None? ==> forall m | 0 <= m < n :: rows[m].task.None?
        invariant fact.Some? ==> fact.value in rows && fact.value.task.Some?
        invariant fact.Some? ==> forall m | 0 <= m < n && rows[m].task.Some? ::
                    SameFact(rows[m], fact.value)
      {
        if rows[n].task.Some? {
          if fact.Some? && !SameFact(fact.value, rows[n]) { return fact, Some(Conflict); }
          fact := Some(rows[n]);
        }
        n := n + 1;
      }
    }

    /** The scan that checks, or else chooses, the derived upload of an entry without a
        task. */
    static method ScanUploads(rows: seq<Candidate>, existing: Option<UploadId>)
      returns (selected: Option<UploadId>, error: Option<Error>)
      requires forall c, f | c in rows && f in rows && c.derived == f.derived ::
                 c.completed == f.completed
      ensures existing.Some? ==>
        && (error.None? <==> Fit(rows, existing.value))
        && (error.None? ==> selected == existing)
      ensures existing.None? ==>
        && (error.None? <==> forall u, v | Fit(rows, u) && Fit(rows, v) :: u == v)
        && (error.None? && selected.Some? ==> Fit(rows, selected.value))
        && (error.None? && selected.None? ==> forall u :: !Fit(rows, u))
      ensures error.Some? ==> error == Some(Conflict)
    {
      selected, error := existing, None;
      if selected.Some? {
        var matched := false;
        var n := 0;
        while n < |rows|
          invariant 0 <= n <= |rows|
          invariant matched <==> exists m | 0 <= m < n :: rows[m].derived == existing.value
          invariant matched ==> Fit(rows, existing.value)
        {
          if rows[n].derived == selected.value {
            matched := true;
            if !rows[n].completed {
              return selected, Some(Conflict);
            }
            assert rows[n] in rows;
          }
          n := n + 1;
        }
        if !matched { return selected, Some(Conflict); }
        return;
      }
      var n := 0;
      while n < |rows|
        invariant 0 <= n <= |rows|
        invariant selected.Some? ==> Fit(rows, selected.value)
        invariant forall m | 0 <= m < n && rows[m].completed :: selected == Some(rows[m].derived)
      {
        if rows[n].completed {
          assert rows[n] in rows;
          assert Fit(rows, rows[n].derived);
          if selected.Some? && selected.value != rows[n].derived {
            return selected, Some(Conflict);
          }
          selected := Some(rows[n].derived);
        }
        n := n + 1;
      }
    }

    /** The UPDATE over every batch that turns unfinished items of the entry to `existing`. */
    method AdoptOutcomes(tx: Tx, e: EntryId, task: TaskId)
      modifies tx
      ensures tx.db == old(tx.db).(items := AdoptItems(old(tx.db).items, e, task))
    {
      tx.db := tx.db.(items := map k | k in tx.db.items ::
        if k.1 == e && tx.db.items[k].outcome in {Pending, Processing, ItemFailed}
        then tx.db.items[k].(outcome := Existing, task := Some(task), hold := None)
        else tx.db.items[k]);
    }

    /** The part of ReconcileEntryFact for an entry whose task exists. */
    method AdoptTask(e: EntryId, upload: UploadId, task: TaskId) returns (error: Option<Error>)
      requires Inv(db) && e in db.entries && db.entries[e].blob.Some?
      modifies this
      ensures error == BindError(old(db), e, upload, task)
      ensures error.Some? ==> db == old(db)
      ensures error.None? ==>
        db == BindEntry(old(db), e, upload, task).(items := AdoptItems(old(db).items, e, task))
    {
      hide Inv, BlobsOk, Lists, ReleaseOne, TaskTaken, AdoptItems, CountCreated, BindError, BindEntry;
      BindErrorIs(db, e, upload, task);
      BindInSteps(db, e, upload, task, AdoptItems(db.items, e, task));
      var row := db.entries[e];
      if row.derived.Some? && row.derived.value != upload { return Some(Conflict); }
      if row.task.Some? && row.task.value != task { return Some(Conflict); }
      BlobsOf(db);
      var tx := new Tx(db);
      var released;
      released, error := MarkCreated(tx, e, upload, task);
      if error.Some? { return; }
      AdoptOutcomes(tx, e, task);
      IncrementCreated(tx, row);
      db := tx.db;
    }

    /** ReconcileEntryFact: repair an entry from the uploads and tasks that really exist. */
    method ReconcileEntryFact(e: EntryId)
      returns (derived: Option<UploadId>, task: Option<TaskId>, error: Option<Error>)
      requires Inv(db)
      modifies this
      ensures Inv(db)
      ensures db == Reconcile(old(db), e)
      ensures error == ReconcileError(old(db), e)
      ensures error.None? ==>
        e in db.entries && derived == db.entries[e].derived &&
        (task.Some? ==> task == db.entries[e].task)
    {
      hide Inv, BindError, AdoptItems, CountCreated;
      ReconcileKeeps(db, e);
      derived, task := None, None;
      if !(e in db.entries && db.entries[e].archive in db.imports &&
           db.imports[db.entries[e].archive].upload in db.uploads) {
        return None, None, Some(NotFound);
      }
      var row := db.entries[e];
      if row.blob.None? { return None, None, Some(Database); }
      var rows := SelectCandidates(e);
      var fact;
      fact, error := ScanTasks(rows);
      TaskRows(db, e, rows);
      if error.Some? { return; }
      if fact.Some? {
        var upload, t := fact.value.derived, fact.value.task.value;
        error := AdoptTask(e, upload, t);
        if error.Some? { return; }
        return Some(upload), Some(t), None;
      }
      var selected;
      selected, error := ScanUploads(rows, row.derived);
      UploadRows(db, e, rows);
      if error.Some? { return; }
      if selected.Some? {
        if row.derived.None? {
          db := db.(entries := db.entries[e := row.(derived := selected)]);
        }
      }
      return selected, None, None;
    }
  }

  /** Writing a row twice is writing it once. */
  lemma WrittenTwice(imports: Imports, i: ImportId, first: Import, row: Import)
    ensures imports[i := first][i := row] == imports[i := row]
  {}

  lemma ClaimableRow(d: Db, id: ImportId)
    requires Claimable(d, id)
    ensures id in d.imports
  {}

  /** Deleting rows does not see that they were marked before. */
  lemma MarkedGone(d: Db, a: ImportId)
    ensures var marked := MarkReleased(d.entries, Unreleased(d, a));
      && marked - EntriesOf(d, a) == d.entries - EntriesOf(d, a)
      && forall blobs :: EntriesOf(d.(entries := marked, blobs := blobs), a) == EntriesOf(d, a)
  {}

  lemma SameKeyAnyBlob(d: Db, l: Lease, m: NewEntry, blob: Option<BlobId>)
    ensures forall e | e in d.entries ::
      SameKey(d.entries[e], m.Row(l.id, 0)) <==>
      SameKey(d.entries[e], Entry(m.publicId, l.id, m.ordinal, m.member,
                                  if m.eligible then Eligible else Skipped, blob, false, None, None))
  {}

  // ---------------------------------------------------------------- lookups

  lemma ChosenNone(d: Db, a: ImportId) ensures Chosen(d, a, []) == [] {}

  lemma ChosenNext(d: Db, a: ImportId, ids: seq<nat>)
    requires ids != [] && forall n | 0 <= n < |ids| :: Selectable(d, a, ids[n])
    ensures Chosen(d, a, ids) ==
            Chosen(d, a, ids[..|ids| - 1]) + [FindEntry(d, a, ids[|ids| - 1]).value]
  {
    hide Selectable;
  }

  /** A public id names at most one entry, so any lookup finds the same row. */
  lemma PublicIdUnique(d: Db, a: ImportId, publicId: nat)
    requires Inv(d)
    ensures forall e | e in d.entries && d.entries[e].archive == a &&
                       d.entries[e].publicId == publicId ::
              FindEntry(d, a, publicId) == Some(e) &&
              (Selectable(d, a, publicId) <==>
                 d.entries[e].status in {Eligible, EntryFailed, Created})
    ensures (forall e | e in d.entries && d.entries[e].archive == a ::
               d.entries[e].publicId != publicId) ==> !Selectable(d, a, publicId)
  {
    hide BlobsOk, ImportsOk, CountersOk, BatchesOk, ItemsOk, NamesOk, TicketsOk, FactsOk, EntryOk;
    forall e | e in d.entries && d.entries[e].archive == a && d.entries[e].publicId == publicId
      ensures FindEntry(d, a, publicId) == Some(e)
    {
      var f := FindEntry(d, a, publicId).value;
      assert SameKey(d.entries[e], d.entries[f]);
    }
  }

  predicate Distinct(s: seq<EntryId>) { forall n, m | 0 <= n < m < |s| :: s[n] != s[m] }

  predicate AllCreated(entries: Entries, s: seq<EntryId>)
    requires forall e | e in s :: e in entries
  {
    forall e | e in s :: entries[e].status == Created
  }

  lemma AllCreatedNext(entries: Entries, s: seq<EntryId>, n: nat)
    requires n < |s| && forall e | e in s :: e in entries
    ensures AllCreated(entries, s[..n + 1]) <==>
              AllCreated(entries, s[..n]) && entries[s[n]].status == Created
  {
    assert forall e :: e in s[..n + 1] <==> e in s[..n] || e == s[n];
  }

  lemma NothingInserted(items: Items, batch: BatchId, entries: Entries)
    ensures InsertItems(items, batch, [], entries) == items
    ensures Distinct([]) && AllCreated(entries, [])
  {}

  lemma NotDistinct(s: seq<EntryId>, n: nat)
    requires n < |s| && Distinct(s[..n])
    ensures s[n] in s[..n] ==> !Distinct(s)
    ensures s[n] !in s[..n] ==> Distinct(s[..n + 1])
  {
    if s[n] in s[..n] {
      var m :| 0 <= m < n && s[..n][m] == s[n];
      assert s[m] == s[n];
    }
  }

  lemma InsertedKeys(
    items: Items, batch: BatchId, chosen: seq<EntryId>, entries: Entries, e: EntryId)
    requires forall f | f in chosen :: f in entries
    requires forall k | k in items :: k.0 != batch
    ensures (batch, e) in InsertItems(items, batch, chosen, entries) <==> e in chosen
  {
    hide InsertItems;
    InsertItemsElsewhere(items, batch, chosen, entries);
    InsertItemsChosen(items, batch, chosen, entries);
    if e in chosen {
      var n :| 0 <= n < |chosen| && chosen[n] == e;
    }
  }

  lemma InsertNext(items: Items, batch: BatchId, chosen: seq<EntryId>, entries: Entries)
    requires chosen != [] && forall f | f in chosen :: f in entries
    ensures InsertItems(items, batch, chosen, entries) ==
            InsertItems(items, batch, chosen[..|chosen| - 1], entries)
              [(batch, chosen[|chosen| - 1]) :=
                 NewItem(|chosen| - 1, entries[chosen[|chosen| - 1]])]
  {}

  lemma FindBatchFinds(d: Db, input: BatchInput)
    requires Inv(d)
    ensures forall b | b in d.batches && Requested(d.batches[b], input) ::
              FindBatch(d, input) == Some(b)
    ensures (forall b | b in d.batches :: !Requested(d.batches[b], input)) ==>
              FindBatch(d, input).None?
  {
    hide BlobsOk, ImportsOk, EntriesOk, CountersOk, ItemsOk, NamesOk, TicketsOk, FactsOk, BatchOk;
    forall b | b in d.batches && Requested(d.batches[b], input)
      ensures FindBatch(d, input) == Some(b)
    {
      var c := FindBatch(d, input).value;
      assert SameRequest(d.batches[b], d.batches[c]);
    }
  }

  lemma NoneProcessing(d: Db, a: ImportId)
    ensures Count(d.batches, ProcessingIn(a)) == 0 <==>
            !exists b :: b in d.batches && d.batches[b].archive == a && !d.batches[b].completed
  {
    if b :| b in d.batches && d.batches[b].archive == a && !d.batches[b].completed {
      CountPositive(d.batches, b, ProcessingIn(a));
    } else {
      CountNone(d.batches, ProcessingIn(a));
    }
  }

  lemma ChosenDistinct(d: Db, a: ImportId, ids: seq<nat>)
    requires forall n | 0 <= n < |ids| :: Selectable(d, a, ids[n])
    ensures |Chosen(d, a, ids)| == |ids|
    ensures Distinct(Chosen(d, a, ids)) <==>
            !exists n, m | 0 <= n < m < |ids| :: ids[n] == ids[m]
  {
    hide Chosen, Selectable;
    ChosenAt(d, a, ids);
    ChosenIs(d, a, ids);
  }

  lemma {:induction false} ChosenIs(d: Db, a: ImportId, ids: seq<nat>)
    requires forall n | 0 <= n < |ids| :: Selectable(d, a, ids[n])
    ensures |Chosen(d, a, ids)| == |ids|
    ensures forall n | 0 <= n < |ids| :: Some(Chosen(d, a, ids)[n]) == FindEntry(d, a, ids[n])
  {
    hide FindEntry;
    if ids != [] {
      var last := |ids| - 1;
      assert forall n | 0 <= n < last :: Selectable(d, a, ids[..last][n]);
      ChosenIs(d, a, ids[..last]);
      assert Selectable(d, a, ids[last]);
    }
  }

  lemma NoItemsYet(d: Db, batch: BatchId)
    requires Inv(d) && batch !in d.batches
    ensures forall k | k in d.items :: k.0 != batch
  {
    hide Inv;
    forall k | k in d.items ensures k.0 != batch { ItemRow(d, k); }
  }

  lemma Rebatched(batches: Batches, b: BatchId, row: Batch)
    ensures forall first: Batch {:trigger batches[b := first]} ::
              batches[b := first][b := row] == batches[b := row]
  {}

  /** The item that ClaimBatchItem's SELECT may return. */
  ghost predicate FirstItem(d: Db, k: ItemKey, locked: set<ItemKey>) {
    && k !in locked && ItemClaimable(d, k)
    && forall l | l in d.items && l.0 == k.0 && l !in locked && ItemClaimable(d, l) ::
         d.items[k].ordinal <= d.items[l].ordinal
  }

  lemma ClaimableItemRow(d: Db, k: ItemKey)
    requires ItemClaimable(d, k)
    ensures k in d.items
  {}

  lemma ReadableRow(d: Db, k: ItemKey)
    requires
      && k.0 in d.batches && k.1 in d.entries && d.entries[k.1].archive in d.imports
      && d.batches[k.0].archive == d.entries[k.1].archive
      && d.entries[k.1].blob.Some? && d.imports[d.entries[k.1].archive].upload in d.uploads
    ensures Readable(d, k)
  {}

  /** The join finds every item of a valid database whose upload is on file. */
  lemma SweptReadable(d: Db, batch: BatchId, k: ItemKey)
    requires Inv(d) && k in FailExhausted(d, batch).items
    ensures UploadsOnFile(d) ==>
      var n := FailExhausted(d, batch);
      && k.0 in n.batches && k.1 in n.entries && n.entries[k.1].archive in n.imports
      && n.batches[k.0].archive == n.entries[k.1].archive
      && n.entries[k.1].blob.Some? && n.imports[n.entries[k.1].archive].upload in n.uploads
  {
    hide Inv, Exhausted;
    ItemRow(d, k);
    EntryRow(d, k.1);
  }

  lemma SweptClock(d: Db, batch: BatchId)
    ensures FailExhausted(d, batch).now == d.now && FailExhausted(d, batch).works == d.works
  {}

  lemma EntryHeld(d: Db, e: EntryId)
    requires BlobsOk(d.blobs, d.imports, d.entries, d.holders)
    requires e in d.entries && d.entries[e].blob.Some? && !d.entries[e].released
    ensures var b := d.entries[e].blob.value;
      b in d.blobs && d.blobs[b].state == Available && d.blobs[b].refs > 0
  {
    assert IsAvailable(d.blobs, d.entries[e].blob.value);
  }

  lemma WorkRowOf(d: Db, w: Work)
    requires WorkLive(d, w)
    ensures (w.batch, w.entry) in d.items
  {}

  lemma FindImportFinds(d: Db, u: UploadId)
    requires Inv(d)
    ensures forall i | i in d.imports && d.imports[i].upload == u :: FindImport(d, u) == Some(i)
  {
    hide BlobsOk, EntriesOk, CountersOk, BatchesOk, ItemsOk, NamesOk, TicketsOk, FactsOk;
  }

  /** The row condition of the orphan query. */
  predicate OrphanRow(d: Db, a: ImportId, u: UploadId)
    requires a in d.imports && u in d.derived
  {
    && d.derived[u].origin.parent == d.imports[a].upload
    && (forall t | t in d.tasks :: d.tasks[t] != u)
    && !(exists e :: e in d.entries && d.entries[e].archive == a &&
           d.entries[e].member.path == d.derived[u].origin.member.path &&
           d.entries[e].status == Created)
    && !d.derived[u].cancelled
  }

  lemma OrphansListed(d: Db, a: ImportId)
    requires a in d.imports
    ensures (exists v :: v in d.derived && OrphanRow(d, a, v)) <==> (exists v :: Orphan(d, a, v))
  {
    if v :| v in d.derived && OrphanRow(d, a, v) { assert Orphan(d, a, v); }
    if v :| Orphan(d, a, v) { assert OrphanRow(d, a, v); }
  }

  /** With the entries' blobs given back and the rows marked, the blob table is still in
      order: the source of the import can be released next. */
  lemma HalfErased(d: Db, a: ImportId)
    requires BlobsOk(d.blobs, d.imports, d.entries, d.holders)
    ensures BlobsOk(ReleaseEntries(d.blobs, Only(d.entries, EntriesOf(d, a))), d.imports,
                    MarkReleased(d.entries, Unreleased(d, a)), d.holders)
  {
    hide BlobsOk, ReleaseEntries;
    EntriesReleaseKeepsBlobs(d.blobs, d.imports, d.entries, d.holders, EntriesOf(d, a));
    MarkedKeepsBlobs(ReleaseEntries(d.blobs, Only(d.entries, EntriesOf(d, a))), d, a);
  }

  lemma MarkedKeepsBlobs(blobs: Blobs, d: Db, a: ImportId)
    requires BlobsOk(blobs, d.imports, d.entries - EntriesOf(d, a), d.holders)
    ensures BlobsOk(blobs, d.imports, MarkReleased(d.entries, Unreleased(d, a)), d.holders)
  {
    var rows, rest := MarkReleased(d.entries, Unreleased(d, a)), d.entries - EntriesOf(d, a);
    forall b | b in blobs
      ensures blobs[b].refs == References(b, d.imports, rows, d.holders[b])
    {
      assert Rows(rows, EntryHolds(b)) == Rows(rest, EntryHolds(b));
    }
    forall e | e in rows && rows[e].blob.Some? && !rows[e].released
      ensures IsAvailable(blobs, rows[e].blob.value)
    {
      assert e in rest;
    }
  }

  /** The cascades of the two DELETE statements, together. */
  lemma ErasedItems(d: Db, a: ImportId)
    ensures d.items - (set k | k in d.items && k.0 in BatchesOf(d, a)) -
            (set k | k in d.items - (set k | k in d.items && k.0 in BatchesOf(d, a)) &&
                     k.1 in EntriesOf(d, a)) ==
            d.items - (set k | k in d.items && (k.0 in BatchesOf(d, a) || k.1 in EntriesOf(d, a)))
  {}

  lemma EntriesFall(d: Db, a: ImportId)
    requires Conserved(d.blobs, d.imports, d.entries, d.holders)
    ensures Falls(d.blobs, ReleaseEntries(d.blobs, Only(d.entries, EntriesOf(d, a))))
  {
    hide Conserved;
    EntriesReleaseConserves(d.blobs, d.imports, d.entries, d.holders, EntriesOf(d, a));
    forall b | b in d.blobs
      ensures Drop(d.blobs[b], Count(Only(d.entries, EntriesOf(d, a)), EntryHolds(b))).key == d.blobs[b].key
    {}
  }

  lemma SourceFalls(blobs: Blobs, imports: Imports, entries: Entries, holders: Holders, a: ImportId)
    requires BlobsOk(blobs, imports, entries, holders) && a in imports
    ensures Falls(blobs, ReleaseSource(blobs, imports[a]))
  {
    assert !imports[a].sourceReleased ==> IsAvailable(blobs, imports[a].sourceBlob);
  }

  lemma ConservedIn(d: Db)
    requires BlobsOk(d.blobs, d.imports, d.entries, d.holders)
    ensures Conserved(d.blobs, d.imports, d.entries, d.holders)
  {}

  // ---------------------------------------------------------------- candidates

  /** A row of the join that ReconcileEntryFact scans. */
  datatype Candidate = Candidate(derived: UploadId, task: Option<TaskId>, completed: bool)

  predicate SameFact(c: Candidate, f: Candidate) { c.task == f.task && c.derived == f.derived }

  /** The upload `u` is among the rows, and completed. */
  predicate Fit(rows: seq<Candidate>, u: UploadId) {
    exists c :: c in rows && c.derived == u && c.completed
  }

  ghost predicate IsCandidate(d: Db, e: EntryId, c: Candidate)
    requires Joined(d, e) && d.entries[e].blob.Some?
  {
    && c.derived in Candidates(d, e) && c.completed == d.derived[c.derived].completed
    && match c.task
       case Some(t) => t in d.tasks && d.tasks[t] == c.derived
       case None => forall t | t in d.tasks :: d.tasks[t] != c.derived
  }

  ghost function RowOf(d: Db, t: TaskId): Candidate
    requires t in d.tasks && d.tasks[t] in d.derived
  {
    Candidate(d.tasks[t], Some(t), d.derived[d.tasks[t]].completed)
  }

  /** The tasks among the rows are the task facts of the entry. */
  lemma TaskRows(d: Db, e: EntryId, rows: seq<Candidate>)
    requires Joined(d, e) && d.entries[e].blob.Some?
    requires forall c :: c in rows <==> IsCandidate(d, e, c)
    ensures forall t | t in TaskFacts(d, e) :: RowOf(d, t) in rows
    ensures forall c | c in rows && c.task.Some? ::
              c.task.value in TaskFacts(d, e) && d.tasks[c.task.value] == c.derived
  {
    forall t | t in TaskFacts(d, e) ensures RowOf(d, t) in rows {
      assert IsCandidate(d, e, RowOf(d, t));
    }
  }

  /** Without tasks, the completed rows are the completed candidates. */
  lemma UploadRows(d: Db, e: EntryId, rows: seq<Candidate>)
    requires Joined(d, e) && d.entries[e].blob.Some?
    requires forall c :: c in rows <==> IsCandidate(d, e, c)
    requires forall c | c in rows :: c.task.None?
    ensures forall u :: Fit(rows, u) <==> u in Completed(d, e)
  {
    forall u | u in Completed(d, e) ensures Fit(rows, u) {
      var c := Candidate(u, None, true);
      if t :| t in d.tasks && d.tasks[t] == u {
        assert IsCandidate(d, e, Candidate(u, Some(t), true));
        assert false;
      }
      assert IsCandidate(d, e, c);
    }
  }

  lemma BindErrorIs(d: Db, e: EntryId, upload: UploadId, task: TaskId)
    requires e in d.entries && d.entries[e].blob.Some?
    ensures BindError(d, e, upload, task) ==
      var row := d.entries[e];
      if row.derived.Some? && row.derived.value != upload then Some(Conflict)
      else if row.task.Some? && row.task.value != task then Some(Conflict)
      else if upload !in d.derived || task !in d.tasks || TaskTaken(d, e, task) then Some(Database)
      else None
  {}

  lemma BindInSteps(
    d: Db, e: EntryId, upload: UploadId, task: TaskId, items: map<ItemKey, Item>)
    requires e in d.entries && d.entries[e].blob.Some?
    ensures BindEntry(d, e, upload, task).(imports := d.imports).items == d.items
    ensures BindEntry(d, e, upload, task).(imports := d.imports)
              .(items := items).(imports := CountCreated(d.imports, d.entries[e])) ==
            BindEntry(d, e, upload, task).(items := items)
  {
    hide CountCreated, ReleaseOne;
  }

  lemma QueuedHasSource(d: Db, i: ImportId)
    requires Inv(d) && i in d.imports
    ensures d.imports[i].status == Queued ==> !d.imports[i].sourceReleased
  {
    hide Inv;
    RowOk(d, i);
  }

  lemma UploadedInput(u: Upload, b: Blob, input: EnsureInput)
    requires UploadMatches(u, b, input)
    ensures b.digest == input.digest && b.size == input.size
  {}

  lemma NewImportRow(input: EnsureInput, blob: BlobId, key: StorageKey, now: Time)
    ensures NewImport(input, blob, key, now).upload == input.upload
  {}
}
