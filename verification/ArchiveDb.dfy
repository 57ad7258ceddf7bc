/** The tables of the archive-import saga, as rows in finite maps.
    Identifiers, texts and clock readings are abstract names; what the SQL
    compares, increments or orders is kept as it is. */
module ArchiveDb {
  import opened Counting

  type ImportId = nat
  type EntryId = nat
  type BlobId = nat
  type UploadId = nat
  type TaskId = nat
  type BatchId = nat
  type UserId = nat
  type Owner = nat        // the text that names a lease holder
  type Time = int         // database microseconds
  type Digest = string    // 64 lower-case hexadecimal digits

  datatype Error =
    | NotFound | Conflict | InvalidInput | Forbidden
    | LeaseLost | IdempotencyConflict
    | Database  // a constraint of the schema, or a NULL read into a plain variable

  /** Where a blob lives: `blobs/sha256/<2 digits>/<64 digits>`, or any other text. */
  datatype StorageKey = Canonical(digest: Digest) | OtherKey(text: string)

  datatype BlobState = Staging | Available | Deleting | Deleted

  datatype Blob = Blob(
    digest: Digest, size: int, key: StorageKey, refs: int, state: BlobState)

  datatype ReleasedBlob = ReleasedBlob(id: BlobId, key: StorageKey)

  /** An upload joined with its intake profile. */
  datatype Upload = Upload(
    owner: UserId, displayName: string, declaredSize: int, actualDigest: Option<Digest>,
    completed: bool, blob: Option<BlobId>, inputCategory: string,
    detectedCategory: string, detectedFormat: string, valid: bool, direct: bool,
    archiveImport: Option<ImportId>)

  /** A lease column group: owner and expiry are set and cleared together. */
  datatype Hold = Hold(owner: Owner, until: Time)

  datatype ImportStatus = Queued | Running | Ready | Failed | Tombstoned | Erased

  datatype Import = Import(
    upload: UploadId, createdBy: UserId, rootFormat: string,
    sourceBlob: BlobId, sourceKey: StorageKey, sourceDigest: Digest, sourceSize: int,
    sourceReleased: bool, status: ImportStatus, attempt: nat, maxAttempts: nat,
    fence: nat, availableAt: Time, hold: Option<Hold>,
    scanned: nat, total: nat, eligible: nat, skipped: nat, createdTasks: nat)

  datatype EntryStatus = Eligible | Skipped | Created | EntryFailed

  /** What the archive said about a member; the saga only compares it. */
  datatype Member = Member(
    path: string, size: int, digest: Option<Digest>, format: string, category: string)

  datatype Entry = Entry(
    publicId: nat, archive: ImportId, ordinal: nat, member: Member, status: EntryStatus,
    blob: Option<BlobId>, released: bool, derived: Option<UploadId>, task: Option<TaskId>)

  datatype Batch = Batch(
    archive: ImportId, createdBy: UserId, key: string, fingerprint: string, completed: bool)

  datatype Outcome = Pending | Processing | CreatedTask | Existing | ItemFailed

  datatype Item = Item(
    ordinal: nat, outcome: Outcome, attempt: nat, maxAttempts: nat, fence: nat,
    hold: Option<Hold>, task: Option<TaskId>)

  type ItemKey = (BatchId, EntryId)

  /** What identifies the archive member a derived upload was made from. */
  datatype Provenance = Provenance(
    parent: UploadId, archiveName: string, owner: UserId, member: Member, blob: BlobId)

  datatype Derived = Derived(origin: Provenance, completed: bool, cancelled: bool)

  /** What a worker remembers of a claimed import, and of a claimed batch item. */
  datatype Lease = Lease(
    id: ImportId, owner: Owner, fence: nat, attempt: nat, maxAttempts: nat)

  datatype Work = Work(
    batch: BatchId, entry: EntryId, archive: ImportId, origin: Provenance,
    owner: Owner, fence: nat)

  /** The database. The last group is history that no table keeps: names ever
      handed out, leases and work ever issued, and the entries whose task link was
      set to NULL because the task row went away. */
  datatype Db = Db(
    now: Time,
    blobs: map<BlobId, Blob>,
    uploads: map<UploadId, Upload>,
    imports: map<ImportId, Import>,
    entries: map<EntryId, Entry>,
    batches: map<BatchId, Batch>,
    items: map<ItemKey, Item>,
    derived: map<UploadId, Derived>,
    tasks: map<TaskId, UploadId>,
    holders: map<BlobId, nat>,
    slotBusy: bool,
    nextBlob: BlobId,
    nextEntry: EntryId,
    mintedBatches: set<BatchId>,
    leases: set<Lease>,
    works: set<Work>,
    unlinked: set<EntryId>)

  // ---------------------------------------------------------------- conditions

  ghost function SourceHolds(b: BlobId): Import -> bool {
    (i: Import) => !i.sourceReleased && i.sourceBlob == b
  }

  ghost function EntryHolds(b: BlobId): Entry -> bool {
    (e: Entry) => e.blob == Some(b) && !e.released
  }

  ghost function IsRunning(): Import -> bool { (i: Import) => i.status == Running }

  ghost function InImport(a: ImportId): Entry -> bool { (e: Entry) => e.archive == a }

  ghost function CandidateIn(a: ImportId): Entry -> bool {
    (e: Entry) => e.archive == a && e.status != Skipped
  }

  ghost function CreatedIn(a: ImportId): Entry -> bool {
    (e: Entry) => e.archive == a && e.status == Created
  }

  ghost function ProcessingIn(a: ImportId): Batch -> bool {
    (b: Batch) => b.archive == a && !b.completed
  }

  predicate Open(o: Outcome) { o == Pending || o == Processing }

  predicate Referenced(s: BlobState) { s == Available || s == Staging }

  /** `status = 'running' AND lease_owner = ? AND fencing_token = ?` */
  predicate Held(d: Db, l: Lease) {
    l.id in d.imports && var i := d.imports[l.id];
    i.status == Running && i.hold.Some? && i.hold.value.owner == l.owner && i.fence == l.fence
  }

  /** lockLease: the lease is held and has not expired. */
  predicate Live(d: Db, l: Lease) {
    Held(d, l) && d.imports[l.id].hold.value.until > d.now
  }

  /** lockBatchItem. */
  predicate WorkLive(d: Db, w: Work) {
    (w.batch, w.entry) in d.items && var i := d.items[(w.batch, w.entry)];
    i.outcome == Processing && i.hold.Some? && i.hold.value.owner == w.owner &&
    i.fence == w.fence && i.hold.value.until > d.now
  }

  predicate Expired(d: Db, h: Option<Hold>) { h.Some? && h.value.until <= d.now }

  // ---------------------------------------------------------------- invariant

  /** Reference counts are exactly the unreleased import sources, the unreleased
      entries and the holders in other tables. */
  ghost predicate Conserved(
    blobs: map<BlobId, Blob>, imports: map<ImportId, Import>,
    entries: map<EntryId, Entry>, holders: map<BlobId, nat>)
  {
    && holders.Keys == blobs.Keys
    && forall b | b in blobs :: blobs[b].refs == References(b, imports, entries, holders[b])
  }

  ghost function References(
    b: BlobId, imports: map<ImportId, Import>, entries: map<EntryId, Entry>, others: nat): nat
  {
    Count(imports, SourceHolds(b)) + Count(entries, EntryHolds(b)) + others
  }

  /** The state of a blob follows its reference count. */
  ghost predicate StatesOk(blobs: map<BlobId, Blob>) {
    forall b | b in blobs :: blobs[b].refs > 0 <==> Referenced(blobs[b].state)
  }

  predicate IsAvailable(blobs: map<BlobId, Blob>, b: BlobId) {
    b in blobs && blobs[b].state == Available
  }

  /** Whoever holds an archive reference holds a blob that is available. */
  ghost predicate HoldersServed(
    blobs: map<BlobId, Blob>, imports: map<ImportId, Import>, entries: map<EntryId, Entry>)
  {
    && (forall i | i in imports && !imports[i].sourceReleased ::
          IsAvailable(blobs, imports[i].sourceBlob))
    && (forall e | e in entries && entries[e].blob.Some? && !entries[e].released ::
          IsAvailable(blobs, entries[e].blob.value))
  }

  ghost predicate DigestsUnique(blobs: map<BlobId, Blob>) {
    forall b, c | b in blobs && c in blobs && blobs[b].digest == blobs[c].digest :: b == c
  }

  predicate ImportOk(i: Import) {
    && i.attempt == i.fence <= i.maxAttempts
    && (i.status == Running <==> i.hold.Some?)
    && (i.status == Queued ==> i.attempt < i.maxAttempts)
    && (i.status in {Queued, Running} ==> !i.sourceReleased)
    && (i.status in {Ready, Failed, Erased} ==> i.sourceReleased)
  }

  ghost predicate ImportsOk(imports: map<ImportId, Import>) {
    && (forall i | i in imports :: ImportOk(imports[i]))
    && Count(imports, IsRunning()) <= 1
    && (forall i, j | i in imports && j in imports && imports[i].upload == imports[j].upload ::
          i == j)
  }

  predicate EntryOk(e: Entry, imports: map<ImportId, Import>) {
    && e.archive in imports && imports[e.archive].status != Erased
    && (e.status == Skipped <==> e.blob.None?)
    && (e.status == Created ==> imports[e.archive].status in {Ready, Tombstoned})
    && (e.released <==> e.status == Created)
    && (e.task.Some? ==> e.status == Created)
  }

  ghost predicate EntriesOk(imports: map<ImportId, Import>, entries: map<EntryId, Entry>) {
    && (forall e | e in entries :: EntryOk(entries[e], imports))
    && (forall e, f | e in entries && f in entries && SameKey(entries[e], entries[f]) :: e == f)
  }

  /** Two entry rows that one of the unique keys forbids. */
  predicate SameKey(e: Entry, f: Entry) {
    || e.publicId == f.publicId
    || (e.archive == f.archive && (e.ordinal == f.ordinal || e.member.path == f.member.path))
    || (e.task.Some? && e.task == f.task)
  }

  ghost predicate CountersOk(imports: map<ImportId, Import>, entries: map<EntryId, Entry>) {
    forall i | i in imports && imports[i].status != Erased :: CounterOk(i, imports[i], entries)
  }

  ghost predicate CounterOk(i: ImportId, row: Import, entries: map<EntryId, Entry>) {
    && row.createdTasks == Count(entries, CreatedIn(i))
    && row.scanned == row.total == Count(entries, InImport(i))
    && row.eligible == Count(entries, CandidateIn(i))
    && row.skipped == row.total - row.eligible
  }

  ghost predicate BatchesOk(imports: map<ImportId, Import>, batches: map<BatchId, Batch>) {
    && (forall b | b in batches :: BatchOk(batches[b], imports))
    && (forall b, c | b in batches && c in batches && SameRequest(batches[b], batches[c]) :: b == c)
    && (forall i | i in imports :: Count(batches, ProcessingIn(i)) <= 1)
  }

  predicate BatchOk(b: Batch, imports: map<ImportId, Import>) {
    && b.archive in imports
    && imports[b.archive].status in {Ready, Tombstoned}
    && (!b.completed ==> imports[b.archive].status == Ready)
  }

  predicate SameRequest(b: Batch, c: Batch) {
    b.archive == c.archive && b.createdBy == c.createdBy && b.key == c.key
  }

  /** An item by itself: leases, attempts and the budget of pending work. */
  predicate ItemOk(i: Item) {
    && i.attempt == i.fence <= i.maxAttempts
    && i.maxAttempts >= 1
    && (i.outcome == Processing <==> i.hold.Some?)
    && (i.outcome == Pending ==> i.attempt < i.maxAttempts)
    && (Open(i.outcome) ==> i.task.None?)
  }

  /** An item together with its batch and its entry. */
  predicate ItemLinked(
    k: ItemKey, i: Item, entries: map<EntryId, Entry>, batches: map<BatchId, Batch>,
    unlinked: set<EntryId>)
  {
    && k.0 in batches && k.1 in entries
    && entries[k.1].archive == batches[k.0].archive
    && entries[k.1].status != Skipped
    && (Open(i.outcome) ==> !batches[k.0].completed && entries[k.1].status != Created)
    && (i.outcome in {CreatedTask, Existing} ==>
          && entries[k.1].status == Created
          && (i.task == entries[k.1].task || (i.task.None? && k.1 in unlinked)))
  }

  ghost predicate ItemsOk(
    entries: map<EntryId, Entry>, batches: map<BatchId, Batch>,
    items: map<ItemKey, Item>, unlinked: set<EntryId>)
  {
    && (forall k | k in items :: ItemOk(items[k]))
    && (forall k | k in items :: ItemLinked(k, items[k], entries, batches, unlinked))
    && (forall e | e in entries && entries[e].status == Created && e !in unlinked ::
          entries[e].task.Some?)
  }

  /** Names are handed out once. */
  ghost predicate NamesOk(
    blobs: map<BlobId, Blob>, nextBlob: BlobId, entries: map<EntryId, Entry>,
    nextEntry: EntryId, batches: map<BatchId, Batch>, minted: set<BatchId>)
  {
    && (forall b | b in blobs :: b < nextBlob)
    && (forall e | e in entries :: e < nextEntry)
    && batches.Keys <= minted
  }

  predicate Settled(s: ImportStatus) { s == Ready || s == Tombstoned || s == Erased }

  /** A lease names a fence its import has reached; work was only ever handed out
      for an import that had been ready. */
  predicate LeaseOk(l: Lease, imports: map<ImportId, Import>) {
    && l.id in imports && l.attempt == l.fence <= imports[l.id].fence
    && l.maxAttempts == imports[l.id].maxAttempts
  }

  predicate WorkOk(w: Work, imports: map<ImportId, Import>) {
    && w.archive in imports && imports[w.archive].upload == w.origin.parent
    && Settled(imports[w.archive].status)
  }

  ghost predicate TicketsOk(imports: map<ImportId, Import>, leases: set<Lease>, works: set<Work>) {
    && (forall l | l in leases :: LeaseOk(l, imports))
    && (forall w | w in works :: WorkOk(w, imports))
  }

  /** A derived upload was made from an import that had been ready. */
  ghost predicate FactOk(u: Derived, imports: map<ImportId, Import>) {
    exists i ::
      i in imports && imports[i].upload == u.origin.parent && Settled(imports[i].status)
  }

  ghost predicate FactsOk(imports: map<ImportId, Import>, derived: map<UploadId, Derived>) {
    forall u | u in derived :: FactOk(derived[u], imports)
  }

  ghost predicate BlobsOk(
    blobs: map<BlobId, Blob>, imports: map<ImportId, Import>,
    entries: map<EntryId, Entry>, holders: map<BlobId, nat>)
  {
    && Conserved(blobs, imports, entries, holders)
    && StatesOk(blobs)
    && HoldersServed(blobs, imports, entries)
    && DigestsUnique(blobs)
  }

  ghost predicate Inv(d: Db) {
    && BlobsOk(d.blobs, d.imports, d.entries, d.holders)
    && ImportsOk(d.imports)
    && EntriesOk(d.imports, d.entries)
    && CountersOk(d.imports, d.entries)
    && BatchesOk(d.imports, d.batches)
    && ItemsOk(d.entries, d.batches, d.items, d.unlinked)
    && NamesOk(d.blobs, d.nextBlob, d.entries, d.nextEntry, d.batches, d.mintedBatches)
    && TicketsOk(d.imports, d.leases, d.works)
    && FactsOk(d.imports, d.derived)
  }
}
