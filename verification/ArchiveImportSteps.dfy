/** Every import transaction keeps the invariant. */
module ArchiveImportSteps {
  import opened Counting
  import opened ArchiveDb
  import opened ArchiveTransactions
  import opened ArchiveInvariant

  lemma Assemble(d: Db)
    requires BlobsOk(d.blobs, d.imports, d.entries, d.holders)
    requires ImportsOk(d.imports) && EntriesOk(d.imports, d.entries)
    requires CountersOk(d.imports, d.entries) && BatchesOk(d.imports, d.batches)
    requires ItemsOk(d.entries, d.batches, d.items, d.unlinked)
    requires NamesOk(d.blobs, d.nextBlob, d.entries, d.nextEntry, d.batches, d.mintedBatches)
    requires TicketsOk(d.imports, d.leases, d.works)
    requires FactsOk(d.imports, d.derived)
    ensures Inv(d)
  {}

  // ---------------------------------------------------------------- one import row

  /** What a transaction that rewrites one import row, keeping its counters, respects. */
  ghost predicate ImportMove(d: Db, i: ImportId, row: Import) {
    && i in d.imports && ImportEdge(d.imports[i], row) && ImportOk(row)
    && SameCounters(row, d.imports[i])
    && (row.status == Running && d.imports[i].status != Running ==> !GateBusy(d))
    && (row.status == Tombstoned && d.imports[i].status != Tombstoned ==>
          Count(d.batches, ProcessingIn(i)) == 0)
    && row.status != Erased
  }

  lemma MoveKeepsImports(d: Db, i: ImportId, row: Import)
    requires Inv(d) && ImportMove(d, i, row)
    ensures ImportsOk(d.imports[i := row])
  {
    ImportWriteKeepsImports(d.imports, i, row);
  }

  lemma MoveKeepsEntries(d: Db, i: ImportId, row: Import)
    requires Inv(d) && ImportMove(d, i, row)
    ensures EntriesOk(d.imports[i := row], d.entries)
  {
    ImportWriteKeepsEntries(d.imports, d.entries, i, row);
  }

  lemma MoveKeepsCounters(d: Db, i: ImportId, row: Import)
    requires Inv(d) && ImportMove(d, i, row)
    ensures CountersOk(d.imports[i := row], d.entries)
  {
    ImportWriteKeepsCounters(d.imports, d.entries, i, row);
  }

  lemma MoveKeepsBatches(d: Db, i: ImportId, row: Import)
    requires Inv(d) && ImportMove(d, i, row)
    ensures BatchesOk(d.imports[i := row], d.batches)
  {
    ImportWriteKeepsBatches(d.imports, d.batches, i, row);
  }

  lemma MoveKeepsTickets(d: Db, i: ImportId, row: Import)
    requires Inv(d) && ImportMove(d, i, row)
    ensures TicketsOk(d.imports[i := row], d.leases, d.works)
    ensures FactsOk(d.imports[i := row], d.derived)
  {
    ImportWriteKeepsTickets(d.imports, d.leases, d.works, d.derived, i, row);
  }

  /** A write to one import row, and to the blob table beside it. */
  lemma MoveKeeps(d: Db, i: ImportId, row: Import, blobs: Blobs)
    requires Inv(d) && ImportMove(d, i, row)
    requires BlobsOk(blobs, d.imports[i := row], d.entries, d.holders)
    requires blobs.Keys == d.blobs.Keys
    ensures Inv(d.(imports := d.imports[i := row], blobs := blobs))
  {
    MoveKeepsImports(d, i, row);
    MoveKeepsEntries(d, i, row);
    MoveKeepsCounters(d, i, row);
    MoveKeepsBatches(d, i, row);
    MoveKeepsTickets(d, i, row);
    Assemble(d.(imports := d.imports[i := row], blobs := blobs));
  }

  /** A move that leaves the source reference alone. */
  lemma QuietMoveKeeps(d: Db, i: ImportId, row: Import)
    requires Inv(d) && ImportMove(d, i, row) && SameSourceRef(row, d.imports[i])
    ensures Inv(d.(imports := d.imports[i := row]))
  {
    ImportWriteKeepsBlobs(d.blobs, d.imports, d.entries, d.holders, i, row);
    MoveKeeps(d, i, row, d.blobs);
  }

  /** A move that gives the source reference back. */
  lemma ReleasingMoveKeeps(d: Db, i: ImportId, row: Import)
    requires Inv(d) && ImportMove(d, i, row)
    requires row.sourceReleased && row.sourceBlob == d.imports[i].sourceBlob
    ensures Inv(d.(imports := d.imports[i := row], blobs := ReleaseSource(d.blobs, d.imports[i])))
  {
    SourceReleaseKeepsBlobs(d.blobs, d.imports, d.entries, d.holders, i, row);
    MoveKeeps(d, i, row, ReleaseSource(d.blobs, d.imports[i]));
  }

  lemma RowOk(d: Db, i: ImportId)
    requires Inv(d) && i in d.imports
    ensures ImportOk(d.imports[i])
  {}

  lemma LeaseIsOk(d: Db, l: Lease)
    requires Inv(d) && l in d.leases
    ensures LeaseOk(l, d.imports)
  {}

  lemma ClaimKeeps(d: Db, id: ImportId, owner: Owner, duration: nat)
    requires Inv(d)
    ensures Inv(Claim(d, id, owner, duration))
  {
    hide Inv;
    if Claimable(d, id) && !GateBusy(d) {
      RowOk(d, id);
      var i := d.imports[id];
      var row := i.(status := Running, attempt := i.attempt + 1, fence := i.fence + 1,
                    hold := Some(Hold(owner, d.now + duration)));
      QuietMoveKeeps(d, id, row);
      LeaseIssueKeeps(d.(imports := d.imports[id := row]), LeaseOf(id, i, owner));
    }
  }

  lemma LeaseIssueKeeps(d: Db, l: Lease)
    requires Inv(d) && LeaseOk(l, d.imports)
    ensures Inv(d.(leases := d.leases + {l}))
  {
    LeaseIssueKeepsTickets(d, l);
    Assemble(d.(leases := d.leases + {l}));
  }

  lemma LeaseIssueKeepsTickets(d: Db, l: Lease)
    requires TicketsOk(d.imports, d.leases, d.works) && LeaseOk(l, d.imports)
    ensures TicketsOk(d.imports, d.leases + {l}, d.works)
  {}

  lemma HeartbeatKeeps(d: Db, l: Lease, duration: nat)
    requires Inv(d)
    ensures Inv(Heartbeat(d, l, duration))
  {
    hide Inv;
    if Live(d, l) {
      RowOk(d, l.id);
      QuietMoveKeeps(d, l.id, d.imports[l.id].(hold := Some(Hold(l.owner, d.now + duration))));
    }
  }

  lemma CompleteKeeps(d: Db, l: Lease)
    requires Inv(d)
    ensures Inv(Complete(d, l))
  {
    hide Inv;
    if Live(d, l) {
      RowOk(d, l.id);
      ReleasingMoveKeeps(d, l.id,
        d.imports[l.id].(sourceReleased := true, status := Ready, hold := None));
    }
  }

  lemma FailLeaseKeeps(d: Db, l: Lease, retry: bool, delay: nat)
    requires Inv(d) && l in d.leases
    ensures Inv(FailLease(d, l, retry, delay))
  {
    hide Inv;
    if Retries(l, retry) {
      if Held(d, l) {
        RowOk(d, l.id);
        LeaseIsOk(d, l);
        QuietMoveKeeps(d, l.id, d.imports[l.id].(status := Queued, hold := None,
                                                 availableAt := d.now + delay));
      }
    } else if Live(d, l) {
      RowOk(d, l.id);
      ReleasingMoveKeeps(d, l.id,
        d.imports[l.id].(sourceReleased := true, status := Failed, hold := None));
    }
  }

  lemma RecoverExpiredKeeps(d: Db, id: ImportId, delay: nat)
    requires Inv(d)
    ensures Inv(RecoverExpired(d, id, delay))
  {
    hide Inv;
    if id in d.imports && d.imports[id].status == Running && Expired(d, d.imports[id].hold) {
      RowOk(d, id);
      var i := d.imports[id];
      if i.attempt >= i.maxAttempts {
        ReleasingMoveKeeps(d, id, i.(sourceReleased := true, status := Failed, hold := None));
      } else {
        QuietMoveKeeps(d, id, i.(status := Queued, hold := None, availableAt := d.now + delay));
      }
    }
  }

  lemma FoundImport(d: Db, u: UploadId)
    requires FindImport(d, u).Some?
    ensures FindImport(d, u).value in d.imports && d.imports[FindImport(d, u).value].upload == u
  {}

  lemma PrepareDeleteKeeps(d: Db, u: UploadId, actor: Actor)
    requires Inv(d)
    ensures Inv(PrepareDelete(d, u, actor))
  {
    hide Inv;
    var found := FindImport(d, u);
    if PrepareError(d, u, actor).None? && found.Some? {
      FoundImport(d, u);
      RowOk(d, found.value);
      var i := d.imports[found.value];
      if i.status != Erased && i.status != Tombstoned {
        QuietMoveKeeps(d, found.value, i.(status := Tombstoned, hold := None));
      }
    }
  }
}
