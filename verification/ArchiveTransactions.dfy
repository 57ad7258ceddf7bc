/** Every transaction of the saga as a function from database to database: the
    reason it rolls back, if any, and the tables it commits otherwise. The bulk
    statements appear in closed form; class MySQLRepository executes them row by
    row and is proved to commit the same tables. */
module ArchiveTransactions {
  import opened Counting
  import opened ArchiveDb

  // ---------------------------------------------------------------- frames

  /** The import table, the clock and the leases stay as they are. */
  predicate KeepsImports(d: Db, n: Db) {
    n.imports == d.imports && n.now == d.now && n.leases == d.leases
  }

  /** No upload row changes, no import row comes or goes, no batch id becomes free. */
  predicate KeepsUploads(d: Db, n: Db) {
    && n.uploads == d.uploads && n.imports.Keys == d.imports.Keys
    && d.mintedBatches <= n.mintedBatches
  }

  /** The entry and item tables stay as they are. */
  predicate KeepsEntries(d: Db, n: Db) {
    && n.entries == d.entries && n.nextEntry == d.nextEntry && n.unlinked == d.unlinked
    && n.items == d.items
  }

  // ---------------------------------------------------------------- blobs

  /** `n` references fewer; the last one turns the blob over to deletion. */
  function Drop(b: Blob, n: nat): Blob {
    if n == 0 then b
    else if b.refs == n then b.(refs := 0, state := Deleting)
    else b.(refs := b.refs - n)
  }

  /** Every unreleased reference of the rows in `gone` is given back. */
  ghost function ReleaseEntries(blobs: map<BlobId, Blob>, gone: map<EntryId, Entry>)
    : map<BlobId, Blob>
  {
    map b | b in blobs :: Drop(blobs[b], Count(gone, EntryHolds(b)))
  }

  ghost function ReleaseOne(blobs: map<BlobId, Blob>, b: BlobId): map<BlobId, Blob> {
    if b in blobs then blobs[b := Drop(blobs[b], 1)] else blobs
  }

  ghost function ReleaseSource(blobs: map<BlobId, Blob>, i: Import): map<BlobId, Blob> {
    if i.sourceReleased then blobs else ReleaseOne(blobs, i.sourceBlob)
  }

  ghost function FindBlob(blobs: map<BlobId, Blob>, digest: Digest): Option<BlobId> {
    if exists b :: b in blobs && blobs[b].digest == digest
    then var b :| b in blobs && blobs[b].digest == digest; Some(b)
    else None
  }

  /** retainPublishedBlob: why the reference cannot be taken. */
  ghost function RetainError(d: Db, m: NewEntry): Option<Error> {
    match FindBlob(d.blobs, m.digest())
    case None => None
    case Some(b) =>
      var row := d.blobs[b];
      if row.size != m.member.size || row.key != m.key then Some(Conflict)
      else match row.state
        case Available => None
        case Staging => Some(Conflict)
        case Deleting => if row.refs != 0 then Some(Conflict) else None
        case Deleted => if row.refs != 0 then Some(Conflict) else None
  }

  ghost function RetainedBlob(d: Db, m: NewEntry): BlobId {
    var found := FindBlob(d.blobs, m.digest());
    if found.Some? then found.value else d.nextBlob
  }

  /** The blob table after one more reference, created or resurrected if needed. */
  ghost function Retain(d: Db, m: NewEntry): map<BlobId, Blob> {
    match FindBlob(d.blobs, m.digest())
    case None => d.blobs[d.nextBlob := Blob(m.digest(), m.member.size, m.key, 1, Available)]
    case Some(b) =>
      if d.blobs[b].state == Available
      then d.blobs[b := d.blobs[b].(refs := d.blobs[b].refs + 1)]
      else d.blobs[b := d.blobs[b].(refs := 1, state := Available)]
  }

  // ---------------------------------------------------------------- imports

  datatype EnsureInput = EnsureInput(
    upload: UploadId, createdBy: UserId, filename: string, size: int,
    digest: Digest, format: string)

  predicate UploadMatches(u: Upload, b: Blob, input: EnsureInput) {
    && u.owner == input.createdBy && u.completed
    && b.state == Available
    && u.declaredSize == input.size && u.actualDigest == Some(input.digest)
    && b.size == input.size && b.digest == input.digest
    && b.key == Canonical(input.digest)
    && u.displayName == input.filename
    && u.inputCategory == "archive" && u.detectedCategory == "archive"
    && u.detectedFormat == input.format && u.valid && u.direct
  }

  ghost function FindImport(d: Db, u: UploadId): Option<ImportId> {
    if exists i :: i in d.imports && d.imports[i].upload == u
    then var i :| i in d.imports && d.imports[i].upload == u; Some(i)
    else None
  }

  predicate SameSource(i: Import, blob: BlobId, b: Blob) {
    i.sourceBlob == blob && i.sourceKey == b.key && i.sourceDigest == b.digest &&
    i.sourceSize == b.size
  }

  ghost function EnsureError(d: Db, id: ImportId, input: EnsureInput): Option<Error> {
    if input.upload !in d.uploads then Some(NotFound) else
    var u := d.uploads[input.upload];
    if u.blob.None? || u.blob.value !in d.blobs || u.actualDigest.None? then Some(Database) else
    var b := d.blobs[u.blob.value];
    if !UploadMatches(u, b, input) then Some(Conflict) else
    match FindImport(d, input.upload)
    case Some(i) =>
      var row := d.imports[i];
      if row.createdBy != input.createdBy || row.rootFormat != input.format then Some(Conflict)
      else if u.archiveImport.Some? && u.archiveImport != Some(i) then Some(Conflict)
      else if !SameSource(row, u.blob.value, b) then Some(Conflict)
      else None
    case None =>
      if u.archiveImport.Some? || id in d.imports then Some(Conflict) else None
  }

  function NewImport(input: EnsureInput, blob: BlobId, key: StorageKey, now: Time): Import {
    Import(input.upload, input.createdBy, input.format, blob, key, input.digest,
           input.size, false, Queued, 0, 3, 0, now, None, 0, 0, 0, 0, 0)
  }

  function LinkUpload(d: Db, u: UploadId, id: ImportId): (n: Db)
    requires u in d.uploads
    ensures KeepsEntries(d, n)
    ensures n.mintedBatches == d.mintedBatches
    ensures n.blobs == d.blobs
    ensures n.batches == d.batches
  {
    d.(uploads := d.uploads[u := d.uploads[u].(archiveImport := Some(id))])
  }

  function AddImport(d: Db, id: ImportId, input: EnsureInput, blob: BlobId): (n: Db)
    requires blob in d.blobs
    ensures KeepsEntries(d, n)
    ensures n.mintedBatches == d.mintedBatches
    ensures n.batches == d.batches
  {
    d.(blobs := d.blobs[blob := d.blobs[blob].(refs := d.blobs[blob].refs + 1)],
       imports := d.imports[id := NewImport(input, blob, d.blobs[blob].key, d.now)])
  }

  ghost function Ensure(d: Db, id: ImportId, input: EnsureInput): (n: Db)
    ensures KeepsEntries(d, n)
    ensures n.mintedBatches == d.mintedBatches
    ensures n.batches == d.batches
  {
    if EnsureError(d, id, input).Some? then d
    else match FindImport(d, input.upload)
      case Some(i) => LinkUpload(d, input.upload, i)
      case None =>
        LinkUpload(AddImport(d, id, input, d.uploads[input.upload].blob.value), input.upload, id)
  }

  /** The joined row is fit to be claimed, apart from the status of the import. */
  predicate SourceIntact(d: Db, id: ImportId) {
    id in d.imports && var i := d.imports[id];
    i.upload in d.uploads && i.sourceBlob in d.blobs &&
    var u, b := d.uploads[i.upload], d.blobs[i.sourceBlob];
    && u.completed && !i.sourceReleased && b.state == Available
    && b.key == i.sourceKey && b.digest == i.sourceDigest && b.size == i.sourceSize
    && u.inputCategory == "archive" && u.detectedCategory == "archive"
    && u.valid && u.direct && u.detectedFormat == i.rootFormat
    && u.archiveImport == Some(id)
  }

  predicate Claimable(d: Db, id: ImportId) {
    && SourceIntact(d, id)
    && d.imports[id].status == Queued && d.imports[id].availableAt <= d.now
    && d.imports[id].attempt < d.imports[id].maxAttempts
  }

  predicate GateBusy(d: Db) {
    d.slotBusy || exists i | i in d.imports :: d.imports[i].status == Running
  }

  function LeaseOf(id: ImportId, i: Import, owner: Owner): Lease {
    Lease(id, owner, i.fence + 1, i.attempt + 1, i.maxAttempts)
  }

  ghost function Claim(d: Db, id: ImportId, owner: Owner, duration: nat): (n: Db)
    ensures KeepsEntries(d, n)
    ensures KeepsUploads(d, n)
    ensures n.blobs == d.blobs
    ensures n.batches == d.batches
  {
    if !Claimable(d, id) || GateBusy(d) then d else
    var i := d.imports[id];
    d.(imports := d.imports[id := i.(status := Running, attempt := i.attempt + 1,
                                     fence := i.fence + 1,
                                     hold := Some(Hold(owner, d.now + duration)))],
       leases := d.leases + {LeaseOf(id, i, owner)})
  }

  ghost function Heartbeat(d: Db, l: Lease, duration: nat): (n: Db)
    ensures KeepsEntries(d, n)
    ensures KeepsUploads(d, n)
    ensures n.blobs == d.blobs
    ensures n.batches == d.batches
  {
    if !Live(d, l) then d else
    d.(imports := d.imports[l.id := d.imports[l.id].(hold := Some(Hold(l.owner, d.now + duration)))])
  }

  function EntriesOf(d: Db, a: ImportId): set<EntryId> {
    set e | e in d.entries && d.entries[e].archive == a
  }

  /** `DELETE FROM archive_import_entries WHERE archive_import_id = ?`, with the
      cascade to batch items. */
  function DeleteEntries(d: Db, a: ImportId): (n: Db)
    ensures KeepsUploads(d, n)
    ensures n.unlinked == d.unlinked
    ensures n.blobs == d.blobs
    ensures n.batches == d.batches
  {
    d.(entries := d.entries - EntriesOf(d, a),
       items := d.items - (set k | k in d.items && k.1 in EntriesOf(d, a)))
  }

  ghost function Reset(d: Db, l: Lease): (n: Db)
    ensures KeepsUploads(d, n)
    ensures n.unlinked == d.unlinked
    ensures n.batches == d.batches
  {
    if !Live(d, l) then d else
    var gone := Only(d.entries, EntriesOf(d, l.id));
    DeleteEntries(d, l.id).(
      blobs := ReleaseEntries(d.blobs, gone),
      imports := d.imports[l.id := d.imports[l.id].(scanned := 0, total := 0, eligible := 0,
                                                    skipped := 0)])
  }

  datatype NewEntry = NewEntry(
    publicId: nat, ordinal: nat, member: Member, eligible: bool, key: StorageKey)
  {
    function digest(): Digest { if member.digest.Some? then member.digest.value else "" }

    function Row(a: ImportId, blob: BlobId): Entry {
      Entry(publicId, a, ordinal, member, if eligible then Eligible else Skipped,
            if eligible then Some(blob) else None, false, None, None)
    }
  }

  ghost function PersistError(d: Db, l: Lease, m: NewEntry): Option<Error> {
    if !Live(d, l) then Some(LeaseLost)
    else if m.eligible && RetainError(d, m).Some? then RetainError(d, m)
    else if exists e :: e in d.entries && SameKey(d.entries[e], m.Row(l.id, 0))
    then Some(Database)
    else None
  }

  ghost function Persist(d: Db, l: Lease, m: NewEntry): (n: Db)
    ensures KeepsUploads(d, n)
    ensures n.unlinked == d.unlinked
    ensures d.entries.Keys <= n.entries.Keys
    ensures n.items == d.items
    ensures n.batches == d.batches
  {
    if PersistError(d, l, m).Some? then d else
    var i := d.imports[l.id];
    d.(blobs := if m.eligible then Retain(d, m) else d.blobs,
       holders := if m.eligible && RetainedBlob(d, m) !in d.blobs
                  then d.holders[RetainedBlob(d, m) := 0] else d.holders,
       nextBlob := if m.eligible && RetainedBlob(d, m) !in d.blobs
                   then d.nextBlob + 1 else d.nextBlob,
       entries := d.entries[d.nextEntry := m.Row(l.id, RetainedBlob(d, m))],
       nextEntry := d.nextEntry + 1,
       imports := d.imports[l.id := i.(scanned := i.scanned + 1, total := i.total + 1,
                                       eligible := i.eligible + One(m.eligible),
                                       skipped := i.skipped + One(!m.eligible))])
  }

  ghost function Complete(d: Db, l: Lease): (n: Db)
    ensures KeepsEntries(d, n)
    ensures KeepsUploads(d, n)
    ensures n.batches == d.batches
  {
    if !Live(d, l) then d else
    var i := d.imports[l.id];
    d.(blobs := ReleaseSource(d.blobs, i),
       imports := d.imports[l.id := i.(sourceReleased := true, status := Ready, hold := None)])
  }

  predicate Retries(l: Lease, retry: bool) { retry && l.attempt < l.maxAttempts }

  /** Back in the queue, for another claim after `delay`. */
  function Requeue(d: Db, id: ImportId, delay: nat): (n: Db)
    requires id in d.imports
    ensures KeepsEntries(d, n)
    ensures KeepsUploads(d, n)
    ensures n.blobs == d.blobs
    ensures n.batches == d.batches
  {
    d.(imports := d.imports[id := d.imports[id].(status := Queued, hold := None,
                                                 availableAt := d.now + delay)])
  }

  /** No attempt left: the source goes back and the import has failed. */
  ghost function GiveUp(d: Db, id: ImportId): (n: Db)
    requires id in d.imports
    ensures KeepsEntries(d, n)
    ensures KeepsUploads(d, n)
    ensures n.batches == d.batches
  {
    d.(blobs := ReleaseSource(d.blobs, d.imports[id]),
       imports := d.imports[id := d.imports[id].(sourceReleased := true, status := Failed,
                                                 hold := None)])
  }

  ghost function FailLease(d: Db, l: Lease, retry: bool, delay: nat): (n: Db)
    ensures KeepsEntries(d, n)
    ensures KeepsUploads(d, n)
    ensures n.batches == d.batches
  {
    if Retries(l, retry) then (if Held(d, l) then Requeue(d, l.id, delay) else d)
    else (if Live(d, l) then GiveUp(d, l.id) else d)
  }

  ghost function RecoverExpired(d: Db, id: ImportId, delay: nat): (n: Db)
    ensures KeepsEntries(d, n)
    ensures KeepsUploads(d, n)
    ensures n.batches == d.batches
  {
    if id !in d.imports || d.imports[id].status != Running || !Expired(d, d.imports[id].hold)
    then d
    else if d.imports[id].attempt >= d.imports[id].maxAttempts then GiveUp(d, id)
    else Requeue(d, id, delay)
  }

  ghost function MarkBlobDeleted(d: Db, b: BlobId): (n: Db)
    ensures KeepsEntries(d, n)
    ensures KeepsImports(d, n)
    ensures KeepsUploads(d, n)
    ensures n.batches == d.batches
  {
    if b in d.blobs && d.blobs[b].state == Deleting && d.blobs[b].refs == 0
    then d.(blobs := d.blobs[b := d.blobs[b].(state := Deleted)])
    else d
  }

  // ---------------------------------------------------------------- batches

  datatype BatchInput = BatchInput(
    archive: ImportId, createdBy: UserId, key: string, publicIds: seq<nat>)

  ghost function FindBatch(d: Db, input: BatchInput): Option<BatchId> {
    if exists b :: b in d.batches && Requested(d.batches[b], input)
    then var b :| b in d.batches && Requested(d.batches[b], input); Some(b)
    else None
  }

  predicate Requested(b: Batch, input: BatchInput) {
    b.archive == input.archive && b.createdBy == input.createdBy && b.key == input.key
  }

  ghost function FindEntry(d: Db, a: ImportId, publicId: nat): Option<EntryId> {
    if exists e :: e in d.entries && d.entries[e].archive == a && d.entries[e].publicId == publicId
    then var e :| e in d.entries && d.entries[e].archive == a && d.entries[e].publicId == publicId;
         Some(e)
    else None
  }

  ghost predicate Selectable(d: Db, a: ImportId, publicId: nat) {
    var e := FindEntry(d, a, publicId);
    e.Some? && d.entries[e.value].status in {Eligible, EntryFailed, Created}
  }

  ghost function BeginError(d: Db, batch: BatchId, input: BatchInput, fingerprint: string)
    : Option<Error>
  {
    var found := FindBatch(d, input);
    if found.Some? then
      if d.batches[found.value].fingerprint != fingerprint then Some(IdempotencyConflict) else None
    else if input.archive !in d.imports then Some(NotFound)
    else if d.imports[input.archive].status != Ready then Some(Conflict)
    else if Count(d.batches, ProcessingIn(input.archive)) != 0 then Some(Conflict)
    else if exists n | 0 <= n < |input.publicIds| ::
              !Selectable(d, input.archive, input.publicIds[n]) then Some(InvalidInput)
    else if batch in d.batches then Some(Conflict)
    else if |input.publicIds| > 20 ||
            (exists n, m | 0 <= n < m < |input.publicIds| ::
               input.publicIds[n] == input.publicIds[m]) then Some(Database)
    else None
  }

  function NewItem(ordinal: nat, e: Entry): Item {
    Item(ordinal, if e.status == Created then Existing else Pending, 0, 3, 0, None,
         if e.status == Created then e.task else None)
  }

  /** The entries that public ids name, in the same order. */
  ghost function Chosen(d: Db, a: ImportId, ids: seq<nat>): seq<EntryId>
    requires forall n | 0 <= n < |ids| :: Selectable(d, a, ids[n])
  {
    if ids == [] then [] else
    var last := |ids| - 1;
    assert Selectable(d, a, ids[last]);
    Chosen(d, a, ids[..last]) + [FindEntry(d, a, ids[last]).value]
  }

  lemma {:induction false} ChosenAt(d: Db, a: ImportId, ids: seq<nat>)
    requires forall n | 0 <= n < |ids| :: Selectable(d, a, ids[n])
    ensures |Chosen(d, a, ids)| == |ids|
    ensures forall n | 0 <= n < |ids| ::
              Chosen(d, a, ids)[n] in d.entries &&
              d.entries[Chosen(d, a, ids)[n]].archive == a &&
              d.entries[Chosen(d, a, ids)[n]].publicId == ids[n] &&
              d.entries[Chosen(d, a, ids)[n]].status != Skipped
  {
    if ids != [] {
      var last := |ids| - 1;
      assert forall n | 0 <= n < last :: Selectable(d, a, ids[..last][n]);
      ChosenAt(d, a, ids[..last]);
      assert Selectable(d, a, ids[last]);
    }
  }

  function InsertItems(
    items: map<ItemKey, Item>, batch: BatchId, chosen: seq<EntryId>,
    entries: map<EntryId, Entry>): map<ItemKey, Item>
    requires forall e | e in chosen :: e in entries
  {
    if chosen == [] then items else
    var last := |chosen| - 1;
    InsertItems(items, batch, chosen[..last], entries)
      [(batch, chosen[last]) := NewItem(last, entries[chosen[last]])]
  }

  ghost function BeginBatch(d: Db, batch: BatchId, input: BatchInput, fingerprint: string): (n: Db)
    ensures KeepsImports(d, n)
    ensures KeepsUploads(d, n)
    ensures n.unlinked == d.unlinked
    ensures n.entries == d.entries && n.nextEntry == d.nextEntry
    ensures n.blobs == d.blobs
  {
    if BeginError(d, batch, input, fingerprint).Some? || FindBatch(d, input).Some? then d else
    var chosen := Chosen(d, input.archive, input.publicIds);
    ChosenAt(d, input.archive, input.publicIds);
    var replayOnly := forall e | e in chosen :: d.entries[e].status == Created;
    d.(batches := d.batches[batch := Batch(input.archive, input.createdBy, input.key,
                                           fingerprint, replayOnly)],
       items := InsertItems(d.items, batch, chosen, d.entries),
       mintedBatches := d.mintedBatches + {batch})
  }

  predicate Exhausted(d: Db, k: ItemKey) {
    k in d.items && d.items[k].outcome == Processing && Expired(d, d.items[k].hold) &&
    d.items[k].attempt >= d.items[k].maxAttempts
  }

  /** The two bulk UPDATEs at the start of ClaimBatchItem. */
  function FailExhausted(d: Db, batch: BatchId): Db {
    d.(entries := map e | e in d.entries ::
         if Exhausted(d, (batch, e)) && d.entries[e].status != Created
         then d.entries[e].(status := EntryFailed) else d.entries[e],
       items := map k | k in d.items ::
         if k.0 == batch && Exhausted(d, k)
         then d.items[k].(outcome := ItemFailed, hold := None) else d.items[k])
  }

  predicate ItemClaimable(d: Db, k: ItemKey) {
    && k in d.items && k.0 in d.batches && !d.batches[k.0].completed
    && (d.items[k].outcome == Pending ||
        (d.items[k].outcome == Processing && Expired(d, d.items[k].hold)))
    && d.items[k].attempt < d.items[k].maxAttempts
  }

  function ProvenanceOf(d: Db, e: EntryId): Provenance
    requires e in d.entries && d.entries[e].archive in d.imports && d.entries[e].blob.Some?
    requires d.imports[d.entries[e].archive].upload in d.uploads
  {
    var entry := d.entries[e];
    var i := d.imports[entry.archive];
    Provenance(i.upload, d.uploads[i.upload].displayName, i.createdBy, entry.member,
               entry.blob.value)
  }

  /** The five-table join that reads a claimed item back finds a complete row. */
  predicate Readable(d: Db, k: ItemKey) {
    && k.0 in d.batches && k.1 in d.entries && d.entries[k.1].archive in d.imports
    && d.batches[k.0].archive == d.entries[k.1].archive
    && d.entries[k.1].blob.Some? && d.imports[d.entries[k.1].archive].upload in d.uploads
  }

  function ClaimedItem(i: Item, owner: Owner, until: Time): Item {
    i.(outcome := Processing, attempt := i.attempt + 1, fence := i.fence + 1,
       hold := Some(Hold(owner, until)))
  }

  function WorkOf(d: Db, k: ItemKey, owner: Owner): Work
    requires k in d.items && Readable(d, k)
  {
    Work(k.0, k.1, d.entries[k.1].archive, ProvenanceOf(d, k.1), owner, d.items[k].fence + 1)
  }

  /** ClaimBatchItem when the SELECT returned item `choice` of the batch, or no row. */
  ghost function ClaimItem(
    d: Db, batch: BatchId, choice: Option<EntryId>, owner: Owner, duration: nat): (n: Db)

    ensures KeepsImports(d, n)
    ensures KeepsUploads(d, n)
    ensures n.unlinked == d.unlinked
    ensures d.entries.Keys <= n.entries.Keys
    ensures n.blobs == d.blobs
    ensures n.batches == d.batches
  {
    var swept := FailExhausted(d, batch);
    if choice.None? then swept else
    var k := (batch, choice.value);
    if !ItemClaimable(swept, k) || !Readable(swept, k) then d else
    swept.(items := swept.items[k := ClaimedItem(swept.items[k], owner, d.now + duration)],
           works := swept.works + {WorkOf(swept, k, owner)})
  }

  ghost function SaveError(d: Db, w: Work, upload: UploadId): Option<Error> {
    if !WorkLive(d, w) then Some(LeaseLost)
    else if w.entry !in d.entries then Some(Database)
    else if d.entries[w.entry].derived.Some? && d.entries[w.entry].derived != Some(upload)
    then Some(Conflict)
    else if upload !in d.derived then Some(Database)
    else None
  }

  ghost function SaveDerived(d: Db, w: Work, upload: UploadId): (n: Db)
    ensures KeepsImports(d, n)
    ensures KeepsUploads(d, n)
    ensures n.unlinked == d.unlinked
    ensures d.entries.Keys <= n.entries.Keys
    ensures n.items == d.items
    ensures n.blobs == d.blobs
    ensures n.batches == d.batches
  {
    if SaveError(d, w, upload).Some? then d else
    d.(entries := d.entries[w.entry := d.entries[w.entry].(derived := Some(upload))])
  }

  /** A task id that another entry already carries: the unique key refuses it. */
  ghost predicate TaskTaken(d: Db, e: EntryId, task: TaskId) {
    exists f :: f in d.entries && f != e && d.entries[f].task == Some(task)
  }

  ghost function BindError(d: Db, e: EntryId, upload: UploadId, task: TaskId): Option<Error>
    requires e in d.entries
  {
    var row := d.entries[e];
    if row.blob.None? then Some(Database)
    else if row.derived.Some? && row.derived != Some(upload) then Some(Conflict)
    else if row.task.Some? && row.task != Some(task) then Some(Conflict)
    else if upload !in d.derived || task !in d.tasks || TaskTaken(d, e, task)
    then Some(Database)
    else None
  }

  /** One more created task for an entry that had none. */
  function CountCreated(imports: map<ImportId, Import>, row: Entry): (n: map<ImportId, Import>)
    ensures n.Keys == imports.Keys
  {
    if row.status == Created || row.archive !in imports then imports
    else imports[row.archive := imports[row.archive].(
           createdTasks := imports[row.archive].createdTasks + 1)]
  }

  /** The entry side of binding a task: release the blob once, mark it created. */
  ghost function BindEntry(d: Db, e: EntryId, upload: UploadId, task: TaskId): (n: Db)
    requires e in d.entries && d.entries[e].blob.Some?
    ensures KeepsUploads(d, n)
    ensures n.unlinked == d.unlinked
    ensures d.entries.Keys <= n.entries.Keys
    ensures n.batches == d.batches
  {
    var row := d.entries[e];
    d.(blobs := if row.released then d.blobs else ReleaseOne(d.blobs, row.blob.value),
       entries := d.entries[e := row.(status := Created, derived := Some(upload),
                                      task := Some(task), released := true)],
       imports := CountCreated(d.imports, row))
  }

  ghost function FinalizeError(d: Db, w: Work, upload: UploadId, task: TaskId): Option<Error> {
    if !WorkLive(d, w) then Some(LeaseLost)
    else if w.entry !in d.entries || d.entries[w.entry].archive != w.archive
    then Some(Database)
    else BindError(d, w.entry, upload, task)
  }

  ghost function FinalizeItem(d: Db, w: Work, upload: UploadId, task: TaskId, created: bool): (n: Db)
    ensures KeepsUploads(d, n)
    ensures n.unlinked == d.unlinked
    ensures d.entries.Keys <= n.entries.Keys
    ensures n.batches == d.batches
  {
    if FinalizeError(d, w, upload, task).Some? then d else
    var k := (w.batch, w.entry);
    BindEntry(d, w.entry, upload, task).(
      items := d.items[k := d.items[k].(outcome := if created then CreatedTask else Existing,
                                        task := Some(task), hold := None)])
  }

  /** FailBatchItem (`retry` false) and RetryOrFailBatchItem (`retry` true). */
  ghost function FailItem(d: Db, w: Work, retry: bool): (n: Db)
    ensures KeepsImports(d, n)
    ensures KeepsUploads(d, n)
    ensures n.unlinked == d.unlinked
    ensures d.entries.Keys <= n.entries.Keys
    ensures n.blobs == d.blobs
    ensures n.batches == d.batches
  {
    if !WorkLive(d, w) then d else
    var k := (w.batch, w.entry);
    var again := retry && d.items[k].attempt < d.items[k].maxAttempts;
    d.(entries := if w.entry in d.entries && d.entries[w.entry].status != Created
                  then d.entries[w.entry := d.entries[w.entry].(status := EntryFailed)]
                  else d.entries,
       items := d.items[k := d.items[k].(outcome := if again then Pending else ItemFailed,
                                         hold := None)])
  }

  predicate Finished(d: Db, batch: BatchId) {
    && batch in d.batches && !d.batches[batch].completed
    && forall k | k in d.items && k.0 == batch :: !Open(d.items[k].outcome)
  }

  ghost function CompleteBatch(d: Db, batch: BatchId): (n: Db)
    ensures KeepsEntries(d, n)
    ensures KeepsImports(d, n)
    ensures KeepsUploads(d, n)
    ensures n.blobs == d.blobs
  {
    if !Finished(d, batch) then d
    else d.(batches := d.batches[batch := d.batches[batch].(completed := true)])
  }

  // ---------------------------------------------------------------- reconciliation

  /** The durable facts about an entry: derived uploads made from it, with their tasks. */
  ghost function Candidates(d: Db, e: EntryId): set<UploadId>
    requires e in d.entries && d.entries[e].archive in d.imports && d.entries[e].blob.Some?
    requires d.imports[d.entries[e].archive].upload in d.uploads
  {
    set u | u in d.derived && d.derived[u].origin == ProvenanceOf(d, e)
  }

  ghost function TaskFacts(d: Db, e: EntryId): set<TaskId>
    requires e in d.entries && d.entries[e].archive in d.imports && d.entries[e].blob.Some?
    requires d.imports[d.entries[e].archive].upload in d.uploads
  {
    set t | t in d.tasks && d.tasks[t] in Candidates(d, e)
  }

  predicate Joined(d: Db, e: EntryId) {
    e in d.entries && d.entries[e].archive in d.imports &&
    d.imports[d.entries[e].archive].upload in d.uploads
  }

  ghost function Completed(d: Db, e: EntryId): set<UploadId>
    requires Joined(d, e) && d.entries[e].blob.Some?
  {
    set u | u in Candidates(d, e) && d.derived[u].completed
  }

  ghost function ReconcileError(d: Db, e: EntryId): Option<Error> {
    if !Joined(d, e) then Some(NotFound)
    else if d.entries[e].blob.None? then Some(Database)
    else if exists t, s :: t in TaskFacts(d, e) && s in TaskFacts(d, e) && t != s
    then Some(Conflict)
    else if exists t :: t in TaskFacts(d, e) then
      var t :| t in TaskFacts(d, e);
      BindError(d, e, d.tasks[t], t)
    else match d.entries[e].derived
      case Some(u) => if u in Completed(d, e) then None else Some(Conflict)
      case None =>
        if exists u, v :: u in Completed(d, e) && v in Completed(d, e) && u != v
        then Some(Conflict) else None
  }

  /** Every open or failed item of the entry, in any batch, becomes `existing`. */
  function AdoptItems(items: map<ItemKey, Item>, e: EntryId, task: TaskId): map<ItemKey, Item> {
    map k | k in items ::
      if k.1 == e && items[k].outcome in {Pending, Processing, ItemFailed}
      then items[k].(outcome := Existing, task := Some(task), hold := None)
      else items[k]
  }

  /** The entry takes over the task that exists, and so do its unfinished items. */
  ghost function AdoptFact(d: Db, e: EntryId, t: TaskId): (n: Db)
    requires e in d.entries && d.entries[e].blob.Some? && t in d.tasks
    ensures KeepsUploads(d, n)
    ensures n.unlinked == d.unlinked
    ensures d.entries.Keys <= n.entries.Keys
    ensures n.batches == d.batches
  {
    BindEntry(d, e, d.tasks[t], t).(items := AdoptItems(d.items, e, t))
  }

  /** The entry takes over the derived upload that exists. */
  function LinkFact(d: Db, e: EntryId, u: UploadId): (n: Db)
    requires e in d.entries
    ensures KeepsImports(d, n) && KeepsUploads(d, n)
    ensures n.unlinked == d.unlinked
    ensures d.entries.Keys <= n.entries.Keys
    ensures n.items == d.items && n.blobs == d.blobs
    ensures n.batches == d.batches
  {
    d.(entries := d.entries[e := d.entries[e].(derived := Some(u))])
  }

  ghost function Reconcile(d: Db, e: EntryId): (n: Db)
    ensures KeepsUploads(d, n)
    ensures n.unlinked == d.unlinked
    ensures d.entries.Keys <= n.entries.Keys
    ensures n.batches == d.batches
  {
    if ReconcileError(d, e).Some? then d
    else if exists t :: t in TaskFacts(d, e) then
      var t :| t in TaskFacts(d, e);
      AdoptFact(d, e, t)
    else if d.entries[e].derived.None? && (exists u :: u in Completed(d, e)) then
      var u :| u in Completed(d, e);
      LinkFact(d, e, u)
    else d
  }

  /** What reconciling an entry comes to. */
  lemma ReconcileOutcome(d: Db, e: EntryId) returns (t: Option<TaskId>, u: Option<UploadId>)
    ensures t.Some? ==>
      && Joined(d, e) && d.entries[e].blob.Some? && t.value in TaskFacts(d, e)
      && BindError(d, e, d.tasks[t.value], t.value).None?
      && Reconcile(d, e) == AdoptFact(d, e, t.value)
    ensures t.None? && u.Some? ==>
      e in d.entries && d.entries[e].derived.None? && Reconcile(d, e) == LinkFact(d, e, u.value)
    ensures t.None? && u.None? ==> Reconcile(d, e) == d
  {
    hide AdoptFact, LinkFact, BindError;
    t, u := None, None;
    if ReconcileError(d, e).None? {
      if exists s :: s in TaskFacts(d, e) {
        var s :| s in TaskFacts(d, e) && Reconcile(d, e) == AdoptFact(d, e, s);
        t := Some(s);
      } else if d.entries[e].derived.None? && exists v :: v in Completed(d, e) {
        var v :| v in Completed(d, e) && Reconcile(d, e) == LinkFact(d, e, v);
        u := Some(v);
      }
    }
  }

  // ---------------------------------------------------------------- deletion

  datatype Role = Administrator | Operator | Reader

  datatype Actor = Actor(user: UserId, role: Role)

  ghost function PrepareError(d: Db, u: UploadId, actor: Actor): Option<Error> {
    var found := FindImport(d, u);
    if found.None? then None else
    var i := d.imports[found.value];
    if actor.user == 0 || actor.role == Reader then Some(Forbidden)
    else if actor.role != Administrator && actor.user != i.createdBy then Some(NotFound)
    else if i.status == Erased then None
    else if i.status == Running then Some(Conflict)
    else if Count(d.batches, ProcessingIn(found.value)) != 0 then Some(Conflict)
    else None
  }

  ghost function PrepareDelete(d: Db, u: UploadId, actor: Actor): (n: Db)
    ensures KeepsEntries(d, n)
    ensures KeepsUploads(d, n)
    ensures n.blobs == d.blobs
    ensures n.batches == d.batches
  {
    var found := FindImport(d, u);
    if PrepareError(d, u, actor).Some? || found.None? then d else
    var i := d.imports[found.value];
    if i.status in {Erased, Tombstoned} then d
    else d.(imports := d.imports[found.value := i.(status := Tombstoned, hold := None)])
  }

  /** A derived upload of the import that no task keeps and no created entry covers. */
  ghost predicate Orphan(d: Db, a: ImportId, u: UploadId) {
    && a in d.imports && u in d.derived && d.derived[u].origin.parent == d.imports[a].upload
    && (forall t | t in d.tasks :: d.tasks[t] != u)
    && !(exists e :: e in d.entries && d.entries[e].archive == a &&
           d.entries[e].member.path == d.derived[u].origin.member.path &&
           d.entries[e].status == Created)
    && !d.derived[u].cancelled
  }

  /** The same, as the query tests it. */
  predicate IsOrphan(d: Db, a: ImportId, u: UploadId)
    requires a in d.imports && u in d.derived
  {
    && d.derived[u].origin.parent == d.imports[a].upload
    && (forall t | t in d.tasks :: d.tasks[t] != u)
    && (forall e | e in d.entries :: !(d.entries[e].archive == a &&
          d.entries[e].member.path == d.derived[u].origin.member.path && d.entries[e].status == Created))
    && !d.derived[u].cancelled
  }

  /** The deletion service cancels derived uploads one after the other. */
  ghost function Cancel(d: Db, plan: seq<UploadId>): Db {
    if plan == [] then d else DeriveStatus(Cancel(d, plan[..|plan| - 1]), plan[|plan| - 1], false, true)
  }

  ghost function FinalizeDeleteError(d: Db, u: UploadId): Option<Error> {
    var found := FindImport(d, u);
    if found.None? || d.imports[found.value].status == Erased then None
    else if d.imports[found.value].status != Tombstoned then Some(Conflict)
    else if exists v :: Orphan(d, found.value, v) then Some(Conflict)
    else None
  }

  /** Cancelling takes from the orphans what is cancelled, and touches nothing else. */
  lemma {:induction false} CancelledOrphans(d: Db, plan: seq<UploadId>, a: ImportId, v: UploadId)
    ensures Cancel(d, plan) == d.(derived := Cancel(d, plan).derived)
    ensures Orphan(Cancel(d, plan), a, v) <==> Orphan(d, a, v) && v !in plan
  {
    if plan != [] {
      var most, last := plan[..|plan| - 1], plan[|plan| - 1];
      assert plan == most + [last];
      CancelledOrphans(d, most, a, v);
      if v != last { OtherStays(Cancel(d, most), last, a, v); }
    }
  }

  lemma OtherStays(d: Db, u: UploadId, a: ImportId, v: UploadId)
    requires v != u
    ensures Orphan(DeriveStatus(d, u, false, true), a, v) <==> Orphan(d, a, v)
  {}

  /** A tombstoned import can be erased exactly when every derived upload that the plan lists
      has been cancelled. */
  lemma PlanClears(d: Db, u: UploadId, a: ImportId, done: seq<UploadId>)
    requires ImportsOk(d.imports) && a in d.imports && d.imports[a].upload == u && d.imports[a].status == Tombstoned
    ensures FinalizeDeleteError(Cancel(d, done), u).None? <==> forall v | Orphan(d, a, v) :: v in done
  {
    hide Orphan, Cancel;
    var n := Cancel(d, done);
    CancelledOrphans(d, done, a, 0);
    forall v ensures Orphan(n, a, v) <==> Orphan(d, a, v) && v !in done { CancelledOrphans(d, done, a, v); }
    OnlyImport(n, u, a);
  }

  lemma OnlyImport(d: Db, u: UploadId, a: ImportId)
    requires ImportsOk(d.imports) && a in d.imports && d.imports[a].upload == u
    ensures FindImport(d, u) == Some(a)
  {}

  function BatchesOf(d: Db, a: ImportId): set<BatchId> {
    set b | b in d.batches && d.batches[b].archive == a
  }

  ghost function FinalizeDelete(d: Db, u: UploadId): (n: Db)
    ensures KeepsUploads(d, n)
    ensures n.unlinked == d.unlinked
  {
    var found := FindImport(d, u);
    if FinalizeDeleteError(d, u).Some? || found.None? ||
       d.imports[found.value].status == Erased then d else
    var a := found.value;
    var gone := Only(d.entries, EntriesOf(d, a));
    d.(blobs := ReleaseSource(ReleaseEntries(d.blobs, gone), d.imports[a]),
       imports := d.imports[a := d.imports[a].(sourceReleased := true, status := Erased)],
       entries := d.entries - EntriesOf(d, a),
       batches := d.batches - BatchesOf(d, a),
       items := d.items - (set k | k in d.items &&
                             (k.0 in BatchesOf(d, a) || k.1 in EntriesOf(d, a))))
  }

  // ---------------------------------------------------------------- the rest of the system

  /** A worker that holds, or once held, batch work asks the upload service for a
      derived upload. */
  ghost function Derive(d: Db, w: Work, u: UploadId, completed: bool): (n: Db)
    ensures KeepsEntries(d, n)
    ensures KeepsImports(d, n)
    ensures KeepsUploads(d, n)
    ensures n.blobs == d.blobs
    ensures n.batches == d.batches
  {
    if w !in d.works || u in d.derived then d
    else d.(derived := d.derived[u := Derived(w.origin, completed, false)])
  }

  ghost function DeriveStatus(d: Db, u: UploadId, completed: bool, cancelled: bool): (n: Db)
    ensures KeepsEntries(d, n)
    ensures KeepsImports(d, n)
    ensures KeepsUploads(d, n)
    ensures n.blobs == d.blobs
    ensures n.batches == d.batches
  {
    if u !in d.derived then d
    else d.(derived := d.derived[u := Derived(d.derived[u].origin, completed, cancelled)])
  }

  ghost function DeriveTask(d: Db, u: UploadId, t: TaskId): (n: Db)
    ensures KeepsEntries(d, n)
    ensures KeepsImports(d, n)
    ensures KeepsUploads(d, n)
    ensures n.blobs == d.blobs
    ensures n.batches == d.batches
  {
    if u !in d.derived || t in d.tasks then d else d.(tasks := d.tasks[t := u])
  }

  function UnlinkTask(entries: map<EntryId, Entry>, t: TaskId): map<EntryId, Entry> {
    map e | e in entries ::
      if entries[e].task == Some(t) then entries[e].(task := None) else entries[e]
  }

  function UnlinkItems(items: map<ItemKey, Item>, t: TaskId): map<ItemKey, Item> {
    map k | k in items ::
      if items[k].task == Some(t) then items[k].(task := None) else items[k]
  }

  /** Deleting a task row: the foreign keys set the links to NULL. */
  ghost function TaskGone(d: Db, t: TaskId): (n: Db)
    ensures KeepsImports(d, n)
    ensures KeepsUploads(d, n)
    ensures d.entries.Keys <= n.entries.Keys
    ensures n.blobs == d.blobs
    ensures n.batches == d.batches
  {
    d.(tasks := d.tasks - {t},
       entries := UnlinkTask(d.entries, t),
       items := UnlinkItems(d.items, t),
       unlinked := d.unlinked + set e | e in d.entries && d.entries[e].task == Some(t))
  }

  function UnlinkUpload(entries: map<EntryId, Entry>, u: UploadId): map<EntryId, Entry> {
    map e | e in entries ::
      if entries[e].derived == Some(u) then entries[e].(derived := None) else entries[e]
  }

  ghost function DerivedGone(d: Db, u: UploadId): (n: Db)
    ensures KeepsImports(d, n)
    ensures KeepsUploads(d, n)
    ensures n.unlinked == d.unlinked
    ensures d.entries.Keys <= n.entries.Keys
    ensures n.items == d.items
    ensures n.blobs == d.blobs
    ensures n.batches == d.batches
  {
    if exists t :: t in d.tasks && d.tasks[t] == u then d
    else d.(derived := d.derived - {u}, entries := UnlinkUpload(d.entries, u))
  }

  /** Other tables take and give back references under the same rules. */
  ghost function OtherRetain(d: Db, b: BlobId): (n: Db)
    ensures KeepsEntries(d, n)
    ensures KeepsImports(d, n)
    ensures KeepsUploads(d, n)
    ensures n.batches == d.batches
  {
    if b !in d.blobs || !Referenced(d.blobs[b].state) then d
    else d.(blobs := d.blobs[b := d.blobs[b].(refs := d.blobs[b].refs + 1)],
            holders := d.holders[b := if b in d.holders then d.holders[b] + 1 else 1])
  }

  ghost function OtherRelease(d: Db, b: BlobId): (n: Db)
    ensures KeepsEntries(d, n)
    ensures KeepsImports(d, n)
    ensures KeepsUploads(d, n)
    ensures n.batches == d.batches
  {
    if b !in d.blobs || b !in d.holders || d.holders[b] == 0 then d
    else d.(blobs := d.blobs[b := Drop(d.blobs[b], 1)],
            holders := d.holders[b := d.holders[b] - 1])
  }

  /** An upload announces content: a new row, or a deleted one used again. */
  ghost function OtherStage(d: Db, digest: Digest, size: int, key: StorageKey): (n: Db)
    ensures KeepsEntries(d, n)
    ensures KeepsImports(d, n)
    ensures KeepsUploads(d, n)
    ensures n.batches == d.batches
  {
    match FindBlob(d.blobs, digest)
    case None =>
      d.(blobs := d.blobs[d.nextBlob := Blob(digest, size, key, 1, Staging)],
         holders := d.holders[d.nextBlob := 1], nextBlob := d.nextBlob + 1)
    case Some(b) =>
      if d.blobs[b].state != Deleted || d.blobs[b].refs != 0 || b !in d.holders then d
      else d.(blobs := d.blobs[b := d.blobs[b].(refs := 1, state := Staging)],
              holders := d.holders[b := d.holders[b] + 1])
  }

  /** The upload's content is on disk: its row becomes available. */
  ghost function OtherPublish(d: Db, b: BlobId): (n: Db)
    ensures KeepsEntries(d, n)
    ensures KeepsImports(d, n)
    ensures KeepsUploads(d, n)
    ensures n.batches == d.batches
  {
    if b !in d.blobs || d.blobs[b].state != Staging then d
    else d.(blobs := d.blobs[b := d.blobs[b].(state := Available)])
  }
}
