/** The saga as seen from one row: for every event, what becomes of one batch item, one
    entry, one import, one batch, one upload or one blob. The rules are written on the rows
    alone, in the terms of the SQL statements, and use none of the functions that say what a
    whole transaction makes of the tables. */
module ArchiveRules {
  import opened Counting
  import opened ArchiveDb
  import opened ArchiveTransactions
  import opened ArchiveRuns

  /** The row under a key, if there is one. */
  function Look<K, V>(m: map<K, V>, k: K): Option<V> { if k in m then Some(m[k]) else None }

  lemma LookWritten<K, V>(m: map<K, V>, k: K, v: V, i: K)
    ensures Look(m[k := v], i) == if i == k then Some(v) else Look(m, i)
  {}

  // ---------------------------------------------------------------- who may act

  /** The import is running under this owner and fence. */
  predicate Named(d: Db, l: Lease) {
    && l.id in d.imports && d.imports[l.id].status == Running && d.imports[l.id].fence == l.fence
    && d.imports[l.id].hold.Some? && d.imports[l.id].hold.value.owner == l.owner
  }

  /** And its lease has not run out. */
  predicate Leased(d: Db, l: Lease) { Named(d, l) && d.now < d.imports[l.id].hold.value.until }

  /** The item is processed under this owner and fence, and its lease has not run out. */
  predicate AtWork(d: Db, w: Work) {
    && (w.batch, w.entry) in d.items
    && var i := d.items[(w.batch, w.entry)];
       i.outcome == Processing && i.fence == w.fence && i.hold.Some? && i.hold.value.owner == w.owner &&
       d.now < i.hold.value.until
  }

  predicate RunOut(d: Db, h: Option<Hold>) { h.Some? && h.value.until <= d.now }

  // ---------------------------------------------------------------- when a batch opens, an item is taken

  /** Entry `e` of import `a` goes by this public id and can be turned into a task. */
  predicate Wanted(d: Db, a: ImportId, publicId: nat, e: EntryId) {
    && e in d.entries && d.entries[e].archive == a && d.entries[e].publicId == publicId
    && d.entries[e].status != Skipped
  }

  ghost predicate Offered(d: Db, a: ImportId, publicId: nat) { exists e :: Wanted(d, a, publicId, e) }

  /** This request has been made before. */
  predicate Repeated(d: Db, b: BatchId, request: BatchInput) {
    && b in d.batches && d.batches[b].archive == request.archive
    && d.batches[b].createdBy == request.createdBy && d.batches[b].key == request.key
  }

  ghost predicate Opens(d: Db, b: BatchId, request: BatchInput) {
    && b !in d.mintedBatches && (forall c :: !Repeated(d, c, request))
    && request.archive in d.imports && d.imports[request.archive].status == Ready
    && (forall c | c in d.batches && d.batches[c].archive == request.archive :: d.batches[c].completed)
    && (forall n | 0 <= n < |request.publicIds| :: Offered(d, request.archive, request.publicIds[n]))
    && |request.publicIds| <= 20
    && (forall n, m | 0 <= n < m < |request.publicIds| :: request.publicIds[n] != request.publicIds[m])
  }

  /** What a new batch holds for entry `e`: an item with its place in the request, if the entry
      was asked for. */
  ghost predicate Listed(d: Db, request: BatchInput, e: EntryId, next: Option<Item>) {
    if exists n | 0 <= n < |request.publicIds| :: Wanted(d, request.archive, request.publicIds[n], e) then
      exists n | 0 <= n < |request.publicIds| && Wanted(d, request.archive, request.publicIds[n], e) ::
        next == if d.entries[e].status == Created then Some(Item(n, Existing, 0, 3, 0, None, d.entries[e].task))
                else Some(Item(n, Pending, 0, 3, 0, None, None))
    else next == None
  }

  /** The last attempt ran out before it came to an end. */
  predicate Spent(d: Db, k: ItemKey) {
    && k in d.items && d.items[k].outcome == Processing && RunOut(d, d.items[k].hold)
    && d.items[k].attempt >= d.items[k].maxAttempts
  }

  /** The item waits, or its attempt ran out, and it has attempts left; all that its worker has
      to know is on file. */
  predicate Takeable(d: Db, k: ItemKey) {
    && k in d.items && k.0 in d.batches && !d.batches[k.0].completed
    && (d.items[k].outcome == Pending || (d.items[k].outcome == Processing && RunOut(d, d.items[k].hold)))
    && d.items[k].attempt < d.items[k].maxAttempts
    && k.1 in d.entries && d.entries[k.1].archive == d.batches[k.0].archive && d.entries[k.1].blob.Some?
    && d.entries[k.1].archive in d.imports && d.imports[d.entries[k.1].archive].upload in d.uploads
  }

  /** A claim that names an item fails altogether if that item cannot be taken. */
  predicate ClaimRuns(d: Db, b: BatchId, choice: Option<EntryId>) {
    choice.Some? ==> Takeable(d, (b, choice.value))
  }

  // ---------------------------------------------------------------- what binds an entry to a task

  predicate Bindable(d: Db, e: EntryId, u: UploadId, t: TaskId) {
    && e in d.entries && d.entries[e].blob.Some?
    && (d.entries[e].derived.None? || d.entries[e].derived == Some(u))
    && (d.entries[e].task.None? || d.entries[e].task == Some(t))
    && u in d.derived && t in d.tasks
    && (forall f | f in d.entries && f != e :: d.entries[f].task != Some(t))
  }

  /** Upload `u` was made from this entry. */
  predicate MadeFrom(d: Db, e: EntryId, u: UploadId) {
    && e in d.entries && d.entries[e].blob.Some? && u in d.derived
    && d.entries[e].archive in d.imports
    && var i := d.imports[d.entries[e].archive];
       && i.upload in d.uploads
       && d.derived[u].origin.parent == i.upload && d.derived[u].origin.owner == i.createdBy
       && d.derived[u].origin.archiveName == d.uploads[i.upload].displayName
       && d.derived[u].origin.member == d.entries[e].member
       && d.derived[u].origin.blob == d.entries[e].blob.value
  }

  predicate MadeWhole(d: Db, e: EntryId, u: UploadId) { MadeFrom(d, e, u) && d.derived[u].completed }

  predicate TaskOf(d: Db, e: EntryId, t: TaskId) { t in d.tasks && MadeFrom(d, e, d.tasks[t]) }

  /** There is one task of this entry, and nothing keeps the entry from taking it over. */
  predicate Adoptable(d: Db, e: EntryId, t: TaskId) {
    TaskOf(d, e, t) && (forall s | s in d.tasks && TaskOf(d, e, s) :: s == t) && Bindable(d, e, d.tasks[t], t)
  }

  /** There is no task of this entry, and one completed upload. */
  predicate Linkable(d: Db, e: EntryId, u: UploadId) {
    && (forall t | t in d.tasks :: !TaskOf(d, e, t))
    && MadeWhole(d, e, u) && d.entries[e].derived.None?
    && (forall v | v in d.derived && MadeWhole(d, e, v) :: v == u)
  }

  /** The import of upload `u` is about to be erased: it is marked for deletion, and every
      upload derived from it has a task, is cancelled, or belongs to a created entry. */
  predicate Erasable(d: Db, u: UploadId, a: ImportId) {
    && a in d.imports && d.imports[a].upload == u && d.imports[a].status == Tombstoned
    && forall v | v in d.derived && d.derived[v].origin.parent == u ::
         || d.derived[v].cancelled || (exists t | t in d.tasks :: d.tasks[t] == v)
         || (exists e | e in d.entries :: d.entries[e].archive == a && d.entries[e].status == Created &&
               d.entries[e].member.path == d.derived[v].origin.member.path)
  }

  // ---------------------------------------------------------------- one item

  /** What becomes of item `k`. */
  ghost predicate ItemRule(d: Db, ev: Event, k: ItemKey, next: Option<Item>) {
    var was := Look(d.items, k);
    match ev
    case ResetImport(l) =>
      next == if Leased(d, l) && k.1 in d.entries && d.entries[k.1].archive == l.id then None else was
    case Begin(b, request, _) =>
      if k.0 == b && Opens(d, b, request) then Listed(d, request, k.1, next) else next == was
    case ClaimWork(b, choice, owner, duration) =>
      next ==
        if k.0 != b || was.None? || !ClaimRuns(d, b, choice) then was
        else if choice == Some(k.1) then
          Some(Item(was.value.ordinal, Processing, was.value.attempt + 1, was.value.maxAttempts, was.value.fence + 1,
                    Some(Hold(owner, d.now + duration)), was.value.task))
        else if Spent(d, k) then Some(was.value.(outcome := ItemFailed, hold := None))
        else was
    case FailWork(w, retry) =>
      next ==
        if k != (w.batch, w.entry) || !AtWork(d, w) then was
        else if retry && was.value.attempt < was.value.maxAttempts then Some(was.value.(outcome := Pending, hold := None))
        else Some(was.value.(outcome := ItemFailed, hold := None))
    case Finalize(w, u, t, created) =>
      next ==
        if k == (w.batch, w.entry) && AtWork(d, w) && Bindable(d, w.entry, u, t) && d.entries[w.entry].archive == w.archive
        then Some(was.value.(outcome := if created then CreatedTask else Existing, task := Some(t), hold := None))
        else was
    case ReconcileEntry(e) =>
      && (forall t | Adoptable(d, e, t) ::
            next == if k.1 == e && was.Some? && was.value.outcome in {Pending, Processing, ItemFailed}
                     then Some(was.value.(outcome := Existing, task := Some(t), hold := None)) else was)
      && ((forall t :: !Adoptable(d, e, t)) ==> next == was)
    case Erase(u) =>
      && (forall a | Erasable(d, u, a) ::
            next == if (k.0 in d.batches && d.batches[k.0].archive == a) ||
                        (k.1 in d.entries && d.entries[k.1].archive == a) then None else was)
      && ((forall a :: !Erasable(d, u, a)) ==> next == was)
    case TaskRowGone(t) =>
      next == if was.Some? && was.value.task == Some(t) then Some(was.value.(task := None)) else was
    case _ => next == was
  }

  // ---------------------------------------------------------------- one entry

  function DigestOf(m: NewEntry): Digest { if m.member.digest.Some? then m.member.digest.value else "" }

  /** The stored content of a member can be taken over: same size and place, and held by
      someone, or given back by everyone. */
  predicate Storable(d: Db, m: NewEntry) {
    forall b | b in d.blobs && d.blobs[b].digest == DigestOf(m) ::
      && d.blobs[b].size == m.member.size && d.blobs[b].key == m.key
      && (d.blobs[b].state == Available || (d.blobs[b].state in {Deleting, Deleted} && d.blobs[b].refs == 0))
  }

  predicate Persists(d: Db, l: Lease, m: NewEntry) {
    && Leased(d, l) && (m.eligible ==> Storable(d, m))
    && forall e | e in d.entries ::
         && d.entries[e].publicId != m.publicId
         && (d.entries[e].archive == l.id ==> d.entries[e].ordinal != m.ordinal && d.entries[e].member.path != m.member.path)
  }

  /** The blob that holds the content of a member: the one of its digest, or a new one. */
  ghost predicate Stores(d: Db, m: NewEntry, b: BlobId) {
    if exists c :: c in d.blobs && d.blobs[c].digest == DigestOf(m) then b in d.blobs && d.blobs[b].digest == DigestOf(m)
    else b == d.nextBlob
  }

  /** What becomes of entry `e`. */
  ghost predicate EntryRule(d: Db, ev: Event, e: EntryId, next: Option<Entry>) {
    var was := Look(d.entries, e);
    match ev
    case ResetImport(l) => next == if Leased(d, l) && was.Some? && was.value.archive == l.id then None else was
    case PersistMember(l, m) =>
      if e == d.nextEntry && Persists(d, l, m) then
        if m.eligible
        then exists b :: Stores(d, m, b) &&
               next == Some(Entry(m.publicId, l.id, m.ordinal, m.member, Eligible, Some(b), false, None, None))
        else next == Some(Entry(m.publicId, l.id, m.ordinal, m.member, Skipped, None, false, None, None))
      else next == was
    case ClaimWork(b, choice, _, _) =>
      next == if was.Some? && ClaimRuns(d, b, choice) && Spent(d, (b, e)) && was.value.status != Created
              then Some(was.value.(status := EntryFailed)) else was
    case Save(w, u) =>
      next == if e == w.entry && was.Some? && AtWork(d, w) && u in d.derived &&
                 (was.value.derived.None? || was.value.derived == Some(u))
              then Some(was.value.(derived := Some(u))) else was
    case Finalize(w, u, t, _) =>
      next == if e == w.entry && AtWork(d, w) && Bindable(d, e, u, t) && was.value.archive == w.archive
              then Some(was.value.(status := Created, derived := Some(u), task := Some(t), released := true)) else was
    case FailWork(w, _) =>
      next == if e == w.entry && was.Some? && AtWork(d, w) && was.value.status != Created
              then Some(was.value.(status := EntryFailed)) else was
    case ReconcileEntry(f) =>
      && (forall t | e == f && Adoptable(d, e, t) ::
            next == Some(was.value.(status := Created, derived := Some(d.tasks[t]), task := Some(t), released := true)))
      && (forall u | e == f && Linkable(d, e, u) :: next == Some(was.value.(derived := Some(u))))
      && ((e == f && ((exists t :: Adoptable(d, e, t)) || (exists u :: Linkable(d, e, u)))) || next == was)
    case Erase(u) =>
      && (forall a | Erasable(d, u, a) :: next == if was.Some? && was.value.archive == a then None else was)
      && ((forall a :: !Erasable(d, u, a)) ==> next == was)
    case TaskRowGone(t) =>
      next == if was.Some? && was.value.task == Some(t) then Some(was.value.(task := None)) else was
    case DerivedRowGone(u) =>
      next == if was.Some? && was.value.derived == Some(u) && (forall t | t in d.tasks :: d.tasks[t] != u)
              then Some(was.value.(derived := None)) else was
    case _ => next == was
  }

  // ---------------------------------------------------------------- one import

  /** The upload is a finished archive of this owner, with this content, in store. */
  predicate Fits(d: Db, input: EnsureInput) {
    && input.upload in d.uploads
    && var u := d.uploads[input.upload];
       && u.completed && u.valid && u.direct && u.owner == input.createdBy && u.displayName == input.filename
       && u.inputCategory == "archive" && u.detectedCategory == "archive" && u.detectedFormat == input.format
       && u.declaredSize == input.size && u.actualDigest == Some(input.digest)
       && u.blob.Some? && u.blob.value in d.blobs
       && var b := d.blobs[u.blob.value];
          && b.state == Available && b.size == input.size && b.digest == input.digest && b.key == Canonical(input.digest)
  }

  /** There is no import of the upload yet, and the id is free. */
  predicate Creates(d: Db, id: ImportId, input: EnsureInput) {
    && Fits(d, input) && d.uploads[input.upload].archiveImport.None? && id !in d.imports
    && forall i | i in d.imports :: d.imports[i].upload != input.upload
  }

  /** Import `i` is the one of the upload, by the same owner and from the same content. */
  predicate Finds(d: Db, input: EnsureInput, i: ImportId) {
    && Fits(d, input) && i in d.imports && d.imports[i].upload == input.upload
    && d.imports[i].createdBy == input.createdBy && d.imports[i].rootFormat == input.format
    && (d.uploads[input.upload].archiveImport.None? || d.uploads[input.upload].archiveImport == Some(i))
    && d.imports[i].sourceBlob == d.uploads[input.upload].blob.value && d.imports[i].sourceKey == Canonical(input.digest)
    && d.imports[i].sourceDigest == input.digest && d.imports[i].sourceSize == input.size
  }

  /** The import waits and its time has come, it has attempts left, and its source is as it was
      when the import was made. */
  predicate Due(d: Db, id: ImportId) {
    && id in d.imports
    && var i := d.imports[id];
       && i.status == Queued && i.availableAt <= d.now && i.attempt < i.maxAttempts && !i.sourceReleased
       && i.upload in d.uploads && i.sourceBlob in d.blobs
       && var u, b := d.uploads[i.upload], d.blobs[i.sourceBlob];
          && u.completed && u.valid && u.direct && u.archiveImport == Some(id)
          && u.inputCategory == "archive" && u.detectedCategory == "archive" && u.detectedFormat == i.rootFormat
          && b.state == Available && b.key == i.sourceKey && b.digest == i.sourceDigest && b.size == i.sourceSize
  }

  /** Nobody processes an archive. */
  predicate Idle(d: Db) { !d.slotBusy && forall i | i in d.imports :: d.imports[i].status != Running }

  /** This user may delete the import. */
  predicate MayDelete(actor: Actor, i: Import) {
    actor.user != 0 && (actor.role == Administrator || (actor.role == Operator && actor.user == i.createdBy))
  }

  predicate Quiet(d: Db, i: ImportId) { forall b | b in d.batches && d.batches[b].archive == i :: d.batches[b].completed }

  /** An import that is made for an upload. */
  function AfterEnsure(d: Db, id: ImportId, input: EnsureInput, i: ImportId): Option<Import> {
    if i == id && Creates(d, id, input)
    then Some(Import(input.upload, input.createdBy, input.format, d.uploads[input.upload].blob.value,
                     Canonical(input.digest), input.digest, input.size, false, Queued, 0, 3, 0, d.now, None, 0, 0, 0, 0, 0))
    else Look(d.imports, i)
  }

  function AfterClaim(d: Db, id: ImportId, owner: Owner, duration: nat, i: ImportId): Option<Import> {
    if i == id && Due(d, id) && Idle(d)
    then Some(d.imports[i].(status := Running, attempt := d.imports[i].attempt + 1, fence := d.imports[i].fence + 1,
                            hold := Some(Hold(owner, d.now + duration))))
    else Look(d.imports, i)
  }

  function AfterHeartbeat(d: Db, l: Lease, duration: nat, i: ImportId): Option<Import> {
    if i == l.id && Leased(d, l) then Some(d.imports[i].(hold := Some(Hold(l.owner, d.now + duration))))
    else Look(d.imports, i)
  }

  function AfterReset(d: Db, l: Lease, i: ImportId): Option<Import> {
    if i == l.id && Leased(d, l) then Some(d.imports[i].(scanned := 0, total := 0, eligible := 0, skipped := 0))
    else Look(d.imports, i)
  }

  function AfterPersist(d: Db, l: Lease, m: NewEntry, i: ImportId): Option<Import> {
    if i != l.id || !Persists(d, l, m) then Look(d.imports, i)
    else
      var was := d.imports[i];
      if m.eligible then Some(was.(scanned := was.scanned + 1, total := was.total + 1, eligible := was.eligible + 1))
      else Some(was.(scanned := was.scanned + 1, total := was.total + 1, skipped := was.skipped + 1))
  }

  function AfterComplete(d: Db, l: Lease, i: ImportId): Option<Import> {
    if i == l.id && Leased(d, l) then Some(d.imports[i].(status := Ready, hold := None, sourceReleased := true))
    else Look(d.imports, i)
  }

  /** With attempts left a failure that asks for a retry looks at holder and fence, any other
      failure at the expiry too. */
  function AfterFailure(d: Db, l: Lease, retry: bool, delay: nat, i: ImportId): Option<Import> {
    if i == l.id && retry && l.attempt < l.maxAttempts && Named(d, l)
    then Some(d.imports[i].(status := Queued, hold := None, availableAt := d.now + delay))
    else if i == l.id && !(retry && l.attempt < l.maxAttempts) && Leased(d, l)
    then Some(d.imports[i].(status := Failed, hold := None, sourceReleased := true))
    else Look(d.imports, i)
  }

  function AfterRecovery(d: Db, id: ImportId, delay: nat, i: ImportId): Option<Import> {
    if i != id || i !in d.imports || d.imports[i].status != Running || !RunOut(d, d.imports[i].hold) then Look(d.imports, i)
    else if d.imports[i].attempt < d.imports[i].maxAttempts
    then Some(d.imports[i].(status := Queued, hold := None, availableAt := d.now + delay))
    else Some(d.imports[i].(status := Failed, hold := None, sourceReleased := true))
  }

  /** One created task more, for an entry that had none so far. */
  function WithTask(d: Db, e: EntryId, i: ImportId): Option<Import> {
    if e in d.entries && d.entries[e].archive == i && d.entries[e].status != Created && i in d.imports
    then Some(d.imports[i].(createdTasks := d.imports[i].createdTasks + 1))
    else Look(d.imports, i)
  }

  function AfterFinalize(d: Db, w: Work, u: UploadId, t: TaskId, i: ImportId): Option<Import> {
    if AtWork(d, w) && Bindable(d, w.entry, u, t) && d.entries[w.entry].archive == w.archive then WithTask(d, w.entry, i)
    else Look(d.imports, i)
  }

  ghost function AfterReconcile(d: Db, e: EntryId, i: ImportId): Option<Import> {
    if exists t :: Adoptable(d, e, t) then WithTask(d, e, i) else Look(d.imports, i)
  }

  function AfterPrepare(d: Db, u: UploadId, actor: Actor, i: ImportId): Option<Import> {
    if i in d.imports && d.imports[i].upload == u && d.imports[i].status in {Queued, Ready, Failed} &&
       MayDelete(actor, d.imports[i]) && Quiet(d, i)
    then Some(d.imports[i].(status := Tombstoned, hold := None))
    else Look(d.imports, i)
  }

  function AfterErase(d: Db, u: UploadId, i: ImportId): Option<Import> {
    if Erasable(d, u, i) then Some(d.imports[i].(status := Erased, sourceReleased := true)) else Look(d.imports, i)
  }

  /** What becomes of import `i`. */
  ghost function ImportAfter(d: Db, ev: Event, i: ImportId): Option<Import> {
    match ev
    case EnsureImport(id, input) => AfterEnsure(d, id, input, i)
    case ClaimImport(id, owner, duration) => AfterClaim(d, id, owner, duration, i)
    case HeartbeatLease(l, duration) => AfterHeartbeat(d, l, duration, i)
    case ResetImport(l) => AfterReset(d, l, i)
    case PersistMember(l, m) => AfterPersist(d, l, m, i)
    case CompleteImport(l) => AfterComplete(d, l, i)
    case FailImport(l, retry, delay) => AfterFailure(d, l, retry, delay, i)
    case RecoverImport(id, delay) => AfterRecovery(d, id, delay, i)
    case Finalize(w, u, t, _) => AfterFinalize(d, w, u, t, i)
    case ReconcileEntry(e) => AfterReconcile(d, e, i)
    case Prepare(u, actor) => AfterPrepare(d, u, actor, i)
    case Erase(u) => AfterErase(d, u, i)
    case _ => Look(d.imports, i)
  }

  // ---------------------------------------------------------------- one batch, one upload

  /** No item of the batch is still to be done. */
  predicate AllDone(d: Db, b: BatchId) {
    forall k | k in d.items && k.0 == b :: d.items[k].outcome != Pending && d.items[k].outcome != Processing
  }

  function AfterFinish(d: Db, c: BatchId, b: BatchId): Option<Batch> {
    if b == c && b in d.batches && AllDone(d, b) then Some(d.batches[b].(completed := true)) else Look(d.batches, b)
  }

  /** What becomes of batch `b`. */
  ghost predicate BatchRule(d: Db, ev: Event, b: BatchId, next: Option<Batch>) {
    var was := Look(d.batches, b);
    match ev
    case Begin(c, request, fingerprint) =>
      if b == c && Opens(d, b, request) then
        && next.Some? && next.value == Batch(request.archive, request.createdBy, request.key, fingerprint, next.value.completed)
        && (next.value.completed <==>
              forall n, e | 0 <= n < |request.publicIds| && Wanted(d, request.archive, request.publicIds[n], e) ::
                d.entries[e].status == Created)
      else next == was
    case Finish(c) => next == AfterFinish(d, c, b)
    case Erase(u) => next == if was.Some? && Erasable(d, u, was.value.archive) then None else was
    case _ => next == was
  }

  /** What becomes of upload `u`. */
  ghost predicate UploadRule(d: Db, ev: Event, u: UploadId, next: Option<Upload>) {
    var was := Look(d.uploads, u);
    match ev
    case EnsureImport(id, input) =>
      && (u == input.upload && Creates(d, id, input) ==> next == Some(was.value.(archiveImport := Some(id))))
      && (forall i | u == input.upload && Finds(d, input, i) :: next == Some(was.value.(archiveImport := Some(i))))
      && ((u == input.upload && (Creates(d, id, input) || exists i :: Finds(d, input, i))) || next == was)
    case ChangeUpload(v, row) => next == if u == v then Some(row) else was
    case _ => next == was
  }

  // ---------------------------------------------------------------- one blob

  /** How blob `b` may change its state. What its count is, is the conservation of references. */
  ghost predicate BlobRule(d: Db, ev: Event, b: BlobId, next: Option<Blob>) {
    match Look(d.blobs, b)
    case None =>
      next.Some? ==>
        && b == d.nextBlob && next.value.refs == 1
        && ((exists l, m :: ev == PersistMember(l, m) && m.eligible && Persists(d, l, m) &&
               next.value == Blob(DigestOf(m), m.member.size, m.key, 1, Available)) ||
            (ev.StageElsewhere? && next.value == Blob(ev.digest, ev.size, ev.key, 1, Staging)))
    case Some(was) =>
      && next.Some? && next.value == was.(refs := next.value.refs, state := next.value.state)
      && (was.refs > 0 ==>
            next.value.state == if next.value.refs == 0 then Deleting
                                else if ev == PublishElsewhere(b) && was.state == Staging then Available else was.state)
      && (was.refs == 0 ==>
            || (next.value.refs == 0 && next.value.state == if ev == BlobRemoved(b) &&
                was.state == Deleting then Deleted else was.state)
            || (next.value.refs == 1 && next.value.state == Available && ev.PersistMember? && ev.member.eligible &&
                Persists(d, ev.lease, ev.member) && was.digest == DigestOf(ev.member))
            || (next.value.refs == 1 && next.value.state == Staging && was.state == Deleted && ev.StageElsewhere? &&
                was.digest == ev.digest))
  }
}
