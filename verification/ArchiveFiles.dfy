/** Blob rows and blob files together. A publisher puts a file in place and then takes a
    reference; a deleter checks the row, removes the file and then marks the row. Both
    hold the fence of the digest, may crash between any two steps, and interleave with
    every other transaction of the saga. */
module ArchiveFiles {
  import opened Counting
  import opened ArchiveDb
  import opened ArchiveTransactions
  import opened ArchiveEntrySteps
  import opened ArchiveBindSteps
  import opened ArchiveRuns
  import opened ArchiveLifecycle

  type Bytes = seq<bv8>
  type Pid = nat

  /** The name of the database lock that fences a digest. */
  function LockName(sha256: Digest): string {
    if |sha256| < 40 then "" else "binaryscan_blob_sha256_" + sha256[..40]
  }

  /** What a process inside the fence has done so far. */
  datatype Phase =
    | Publishing(lease: Lease, member: NewEntry, bytes: Bytes)  // bytes staged and verified
    | Linked(lease: Lease, member: NewEntry)                    // file linked, staging name left
    | Published(lease: Lease, member: NewEntry)                 // file in place
    | Uploading(blob: BlobId, digest: Digest, bytes: Bytes)     // another service publishes
    | Uploaded(blob: BlobId, digest: Digest, size: int)
    | Deleting(value: ReleasedBlob, digest: Digest)
    | Checked(value: ReleasedBlob, digest: Digest)              // BlobIsReleased said yes
    | Removed(value: ReleasedBlob, digest: Digest)              // file is gone

  function Fenced(p: Phase): Digest {
    match p
    case Publishing(_, m, _) => m.digest()
    case Linked(_, m) => m.digest()
    case Published(_, m) => m.digest()
    case Uploading(_, digest, _) => digest
    case Uploaded(_, digest, _) => digest
    case Deleting(_, digest) => digest
    case Checked(_, digest) => digest
    case Removed(_, digest) => digest
  }

  datatype System = System(
    sha: Bytes -> Digest, db: Db, files: map<Digest, Bytes>, processes: map<Pid, Phase>)

  datatype Step =
    | Transaction(event: Event)
    | BeginPublish(pid: Pid, lease: Lease, member: NewEntry, bytes: Bytes)
    | LinkFile(pid: Pid)
    | DropStaging(pid: Pid, removed: bool)
    | PersistPublished(pid: Pid)
    | BeginUpload(pid: Pid, blob: BlobId, digest: Digest, bytes: Bytes)
    | PublishUpload(pid: Pid)
    | BeginDelete(pid: Pid, value: ReleasedBlob)
    | CheckReleased(pid: Pid)
    | RemoveFile(pid: Pid)
    | MarkDeleted(pid: Pid)
    | Crash(pid: Pid)

  /** GET_LOCK succeeds: nobody holds the lock of that name. */
  ghost predicate FenceFree(s: System, digest: Digest) {
    |digest| == 64 &&
    forall q | q in s.processes :: LockName(Fenced(s.processes[q])) != LockName(digest)
  }

  /** Transactions that run outside the fence. The three that make a blob available or
      mark it deleted only run inside; canonical storage keys are built from the digest. */
  predicate Outside(ev: Event) {
    match ev
    case PersistMember(_, m) => !m.eligible
    case BlobRemoved(_) => false
    case PublishElsewhere(_) => false
    case StageElsewhere(digest, _, key) => key.Canonical? ==> key.digest == digest
    case _ => true
  }

  /** verifyBlobFile */
  predicate Verified(s: System, digest: Digest, size: int) {
    digest in s.files && s.sha(s.files[digest]) == digest && |s.files[digest]| == size
  }

  function Enter(s: System, p: Pid, phase: Phase): System {
    s.(processes := s.processes[p := phase])
  }

  function Leave(s: System, p: Pid): System { s.(processes := s.processes - {p}) }

  /** One step of the whole system; a step that is not enabled changes nothing. */
  ghost function Move(s: System, step: Step): System {
    match step
    case Transaction(ev) => if Outside(ev) then s.(db := Next(s.db, ev)) else s
    case BeginPublish(p, l, m, bytes) =>
      if p in s.processes || !m.eligible || !FenceFree(s, m.digest()) then s
      else if s.sha(bytes) != m.digest() || |bytes| != m.member.size then s
      else Enter(s, p, Publishing(l, m.(key := Canonical(m.digest())), bytes))
    case LinkFile(p) =>
      if p !in s.processes then s
      else (match s.processes[p]
        case Publishing(l, m, bytes) =>
          if m.digest() !in s.files
          then Enter(s.(files := s.files[m.digest() := bytes]), p, Linked(l, m))
          else if Verified(s, m.digest(), |bytes|) then Enter(s, p, Published(l, m))
          else Leave(s, p)
        case Uploading(b, digest, bytes) =>
          if digest !in s.files
          then Enter(s.(files := s.files[digest := bytes]), p, Uploaded(b, digest, |bytes|))
          else if Verified(s, digest, |bytes|) then Enter(s, p, Uploaded(b, digest, |bytes|))
          else Leave(s, p)
        case _ => s)
    case DropStaging(p, removed) =>
      if p !in s.processes || !s.processes[p].Linked? then s
      else if removed then Enter(s, p, Published(s.processes[p].lease, s.processes[p].member))
      else Leave(s.(files := s.files - {Fenced(s.processes[p])}), p)
    case PersistPublished(p) =>
      if p !in s.processes || !s.processes[p].Published? then s
      else Leave(s.(db := Persist(s.db, s.processes[p].lease, s.processes[p].member)), p)
    case BeginUpload(p, b, digest, bytes) =>
      if p in s.processes || !FenceFree(s, digest) || s.sha(bytes) != digest then s
      else Enter(s, p, Uploading(b, digest, bytes))
    case PublishUpload(p) =>
      if p !in s.processes || !s.processes[p].Uploaded? then s
      else
        var phase := s.processes[p];
        if phase.blob in s.db.blobs && s.db.blobs[phase.blob].digest == phase.digest &&
           s.db.blobs[phase.blob].size == phase.size
        then Leave(s.(db := OtherPublish(s.db, phase.blob)), p)
        else Leave(s, p)
    case BeginDelete(p, value) =>
      if p in s.processes || !value.key.Canonical? || !FenceFree(s, value.key.digest) then s
      else Enter(s, p, Phase.Deleting(value, value.key.digest))
    case CheckReleased(p) =>
      if p !in s.processes || !s.processes[p].Deleting? then s
      else
        var value := s.processes[p].value;
        if value.id in s.db.blobs && s.db.blobs[value.id].key == value.key &&
           s.db.blobs[value.id].refs == 0 && s.db.blobs[value.id].state == BlobState.Deleting
        then Enter(s, p, Checked(value, s.processes[p].digest))
        else Leave(s, p)
    case RemoveFile(p) =>
      if p !in s.processes || !s.processes[p].Checked? then s
      else Enter(s.(files := s.files - {s.processes[p].digest}), p,
                 Removed(s.processes[p].value, s.processes[p].digest))
    case MarkDeleted(p) =>
      if p !in s.processes || !s.processes[p].Removed? then s
      else Leave(s.(db := MarkBlobDeleted(s.db, s.processes[p].value.id)), p)
    case Crash(p) => Leave(s, p)
  }

  ghost function Moves(s: System, steps: seq<Step>): System {
    if steps == [] then s else Move(Moves(s, steps[..|steps| - 1]), steps[|steps| - 1])
  }

  // ---------------------------------------------------------------- invariant

  /** The row says the content can be read, and it can. */
  predicate OnDisk(s: System, b: Blob) {
    b.state == Available ==> Verified(s, b.digest, b.size)
  }

  /** No row with this digest is available. */
  ghost predicate Withdrawn(blobs: map<BlobId, Blob>, digest: Digest) {
    forall b | b in blobs && blobs[b].digest == digest :: blobs[b].state != Available
  }

  /** What a process inside the fence may rely on. */
  ghost predicate PhaseOk(s: System, p: Phase) {
    && |Fenced(p)| == 64
    && match p
       case Publishing(_, m, bytes) =>
         m.eligible && m.key == Canonical(m.digest()) && s.sha(bytes) == m.digest() &&
         |bytes| == m.member.size
       case Linked(_, m) =>
         m.eligible && m.key == Canonical(m.digest()) && Verified(s, m.digest(), m.member.size) &&
         Withdrawn(s.db.blobs, m.digest())
       case Published(_, m) =>
         m.eligible && m.key == Canonical(m.digest()) && Verified(s, m.digest(), m.member.size)
       case Uploading(_, digest, bytes) => s.sha(bytes) == digest
       case Uploaded(_, digest, size) => Verified(s, digest, size)
       case Deleting(value, digest) => value.key == Canonical(digest)
       case Checked(_, digest) => Withdrawn(s.db.blobs, digest)
       case Removed(_, digest) => Withdrawn(s.db.blobs, digest) && digest !in s.files
  }

  ghost predicate Exclusive(processes: map<Pid, Phase>) {
    forall p, q | p in processes && q in processes &&
                  LockName(Fenced(processes[p])) == LockName(Fenced(processes[q])) :: p == q
  }

  ghost predicate KeysOk(blobs: map<BlobId, Blob>) {
    forall b | b in blobs && blobs[b].key.Canonical? :: blobs[b].key.digest == blobs[b].digest
  }

  ghost predicate Sound(s: System) {
    && Inv(s.db)
    && KeysOk(s.db.blobs)
    && (forall b | b in s.db.blobs :: OnDisk(s, s.db.blobs[b]))
    && Exclusive(s.processes)
    && (forall p | p in s.processes :: PhaseOk(s, s.processes[p]))
  }

  // ---------------------------------------------------------------- the blob table of one step

  /** A row that a step did not make available. */
  predicate QuietRow(before: map<BlobId, Blob>, after: map<BlobId, Blob>, b: BlobId)
    requires b in after
  {
    if b in before then
      && after[b].digest == before[b].digest && after[b].size == before[b].size
      && after[b].key == before[b].key
      && (after[b].state == Available ==> before[b].state == Available)
    else
      && after[b].state != Available
      && (after[b].key.Canonical? ==> after[b].key.digest == after[b].digest)
  }

  ghost predicate Quiet(before: map<BlobId, Blob>, after: map<BlobId, Blob>) {
    forall b | b in after :: QuietRow(before, after, b)
  }

  lemma SameQuiet(blobs: map<BlobId, Blob>) ensures Quiet(blobs, blobs) {}

  lemma QuietTwice(a: map<BlobId, Blob>, b: map<BlobId, Blob>, c: map<BlobId, Blob>)
    requires Quiet(a, b) && Quiet(b, c) && b.Keys <= c.Keys
    requires a.Keys == b.Keys
    ensures Quiet(a, c)
  {
    forall x | x in c ensures QuietRow(a, c, x) {
      assert QuietRow(b, c, x);
      if x in b { assert QuietRow(a, b, x); }
    }
  }

  lemma ReleaseOneQuiet(blobs: map<BlobId, Blob>, b: BlobId)
    ensures Quiet(blobs, ReleaseOne(blobs, b)) && ReleaseOne(blobs, b).Keys == blobs.Keys
  {}

  lemma ReleaseSourceQuiet(blobs: map<BlobId, Blob>, i: Import)
    ensures Quiet(blobs, ReleaseSource(blobs, i)) && ReleaseSource(blobs, i).Keys == blobs.Keys
  {
    ReleaseOneQuiet(blobs, i.sourceBlob);
  }

  lemma ReleaseEntriesQuiet(blobs: map<BlobId, Blob>, gone: map<EntryId, Entry>)
    ensures Quiet(blobs, ReleaseEntries(blobs, gone)) && ReleaseEntries(blobs, gone).Keys == blobs.Keys
  {}

  lemma EnsureQuiet(d: Db, id: ImportId, input: EnsureInput)
    ensures Quiet(d.blobs, Ensure(d, id, input).blobs)
  {
    hide Quiet, EnsureError, FindImport, AddImport, LinkUpload;
    SameQuiet(d.blobs);
    if EnsureError(d, id, input).None? {
      EnsureAddsOnly(d, id, input);
      AddQuiet(d, id, input, d.uploads[input.upload].blob.value);
    }
  }

  lemma AddQuiet(d: Db, id: ImportId, input: EnsureInput, blob: BlobId)
    requires blob in d.blobs
    ensures Quiet(d.blobs, AddImport(d, id, input, blob).blobs)
  {
    hide NewImport;
  }

  lemma ResetQuiet(d: Db, l: Lease) ensures Quiet(d.blobs, Reset(d, l).blobs) {
    hide Quiet, ReleaseEntries, Live;
    SameQuiet(d.blobs);
    ReleaseEntriesQuiet(d.blobs, Only(d.entries, EntriesOf(d, l.id)));
    LeaseRow(d, l);
  }

  lemma LeaseRow(d: Db, l: Lease) ensures Live(d, l) ==> l.id in d.imports {}

  lemma CompleteQuiet(d: Db, l: Lease) ensures Quiet(d.blobs, Complete(d, l).blobs) {
    hide Quiet, ReleaseSource, Live;
    LeaseRow(d, l);
    SameQuiet(d.blobs);
    if Live(d, l) { ReleaseSourceQuiet(d.blobs, d.imports[l.id]); }
  }

  lemma GiveUpQuiet(d: Db, id: ImportId)
    requires id in d.imports
    ensures Quiet(d.blobs, GiveUp(d, id).blobs)
  {
    hide Quiet, ReleaseSource;
    ReleaseSourceQuiet(d.blobs, d.imports[id]);
  }

  lemma FailLeaseQuiet(d: Db, l: Lease, retry: bool, delay: nat)
    ensures Quiet(d.blobs, ArchiveTransactions.FailLease(d, l, retry, delay).blobs)
  {
    hide Quiet, GiveUp, Requeue, Live;
    LeaseRow(d, l);
    SameQuiet(d.blobs);
    if Live(d, l) { GiveUpQuiet(d, l.id); }
  }

  lemma RecoverQuiet(d: Db, id: ImportId, delay: nat)
    ensures Quiet(d.blobs, RecoverExpired(d, id, delay).blobs)
  {
    hide Quiet, GiveUp, Requeue;
    SameQuiet(d.blobs);
    if id in d.imports { GiveUpQuiet(d, id); }
  }

  lemma BindQuiet(d: Db, e: EntryId, u: UploadId, t: TaskId)
    requires e in d.entries && d.entries[e].blob.Some?
    ensures Quiet(d.blobs, BindEntry(d, e, u, t).blobs)
  {
    hide Quiet, ReleaseOne, CountCreated;
    SameQuiet(d.blobs);
    ReleaseOneQuiet(d.blobs, d.entries[e].blob.value);
  }

  lemma FinalizeQuiet(d: Db, w: Work, u: UploadId, t: TaskId, created: bool)
    ensures Quiet(d.blobs, FinalizeItem(d, w, u, t, created).blobs)
  {
    hide Quiet, BindEntry, BindError, WorkLive;
    SameQuiet(d.blobs);
    WorkItem(d, w);
    if FinalizeError(d, w, u, t).None? {
      BindNeedsBlob(d, w.entry, u, t);
      BindQuiet(d, w.entry, u, t);
    }
  }

  lemma WorkItem(d: Db, w: Work)
    ensures WorkLive(d, w) ==> (w.batch, w.entry) in d.items
  {}

  lemma ReconcileQuiet(d: Db, e: EntryId) ensures Quiet(d.blobs, Reconcile(d, e).blobs) {
    hide Quiet, Reconcile, BindEntry, BindError, AdoptItems;
    SameQuiet(d.blobs);
    var task, upload := ReconcileOutcome(d, e);
    if task.Some? { BindQuiet(d, e, d.tasks[task.value], task.value); }
  }

  lemma EraseQuiet(d: Db, u: UploadId) ensures Quiet(d.blobs, FinalizeDelete(d, u).blobs) {
    hide Quiet, FinalizeDeleteError, FindImport, ReleaseSource, ReleaseEntries, EntriesOf, BatchesOf;
    SameQuiet(d.blobs);
    if FinalizeDeleteError(d, u).None? && FindImport(d, u).Some? {
      ErasedStatus(d, u);
      var a := FindImport(d, u).value;
      var middle := ReleaseEntries(d.blobs, Only(d.entries, EntriesOf(d, a)));
      ReleaseEntriesQuiet(d.blobs, Only(d.entries, EntriesOf(d, a)));
      ReleaseSourceQuiet(middle, d.imports[a]);
      QuietTwice(d.blobs, middle, ReleaseSource(middle, d.imports[a]));
    }
  }

  lemma MarkQuiet(d: Db, b: BlobId) ensures Quiet(d.blobs, MarkBlobDeleted(d, b).blobs) {}

  lemma RetainQuiet(d: Db, b: BlobId) ensures Quiet(d.blobs, OtherRetain(d, b).blobs) {}

  lemma ReleaseQuiet(d: Db, b: BlobId) ensures Quiet(d.blobs, OtherRelease(d, b).blobs) {}

  lemma StageQuiet(d: Db, digest: Digest, size: int, key: StorageKey)
    requires key.Canonical? ==> key.digest == digest
    requires d.nextBlob !in d.blobs
    ensures Quiet(d.blobs, OtherStage(d, digest, size, key).blobs)
  {
    hide FindBlob;
    FoundBlob(d.blobs, digest);
  }

  lemma FoundBlob(blobs: map<BlobId, Blob>, digest: Digest)
    ensures FindBlob(blobs, digest).Some? ==> FindBlob(blobs, digest).value in blobs
  {}

  lemma SkippedQuiet(d: Db, l: Lease, m: NewEntry)
    requires !m.eligible
    ensures Persist(d, l, m).blobs == d.blobs
  {
    hide PersistError, RetainedBlob, Retain;
    LiveIfPersisted(d, l, m);
  }

  /** Outside the fence no step makes a blob available. */
  lemma OutsideQuiet(d: Db, ev: Event)
    requires Inv(d) && Outside(ev)
    ensures Quiet(d.blobs, Next(d, ev).blobs)
  {
    hide Inv, Quiet, Ensure, Claim, Heartbeat, Reset, Persist, Complete, FailLease, RecoverExpired,
         MarkBlobDeleted, BeginBatch, ClaimItem, SaveDerived, FinalizeItem, FailItem,
         CompleteBatch, Reconcile, PrepareDelete, FinalizeDelete, Derive, DeriveStatus,
         DeriveTask, TaskGone, DerivedGone, OtherRetain, OtherRelease, OtherStage, OtherPublish;
    SameQuiet(d.blobs);
    if !TouchesBlobs(ev) {
      BlobsKept(d, ev);
    } else if Enabled(d, ev) {
      EnabledQuiet(d, ev);
    }
  }

  lemma EnabledQuiet(d: Db, ev: Event)
    requires Inv(d) && Outside(ev) && TouchesBlobs(ev) && Enabled(d, ev)
    ensures Quiet(d.blobs, Next(d, ev).blobs)
  {
    hide Inv, Quiet, Enabled, Next;
    if ev.RetainElsewhere? || ev.ReleaseElsewhere? || ev.StageElsewhere? {
      ElsewhereQuiet(d, ev);
    } else if ev.Finalize? || ev.ReconcileEntry? || ev.Erase? {
      EntriesQuiet(d, ev);
    } else {
      ImportsQuiet(d, ev);
    }
  }

  lemma EntriesQuiet(d: Db, ev: Event)
    requires Inv(d) && Enabled(d, ev) && (ev.Finalize? || ev.ReconcileEntry? || ev.Erase?)
    ensures Quiet(d.blobs, Next(d, ev).blobs)
  {
    hide Inv, Quiet, KeepsImports, KeepsUploads, KeepsEntries, Ensure, Claim, Heartbeat, Reset, Persist, Complete, FailLease, RecoverExpired,
         MarkBlobDeleted, BeginBatch, ClaimItem, SaveDerived, FinalizeItem, FailItem,
         CompleteBatch, Reconcile, PrepareDelete, FinalizeDelete, Derive, DeriveStatus,
         DeriveTask, TaskGone, DerivedGone, OtherRetain, OtherRelease, OtherStage, OtherPublish;
    match ev
    case Finalize(w, u, t, created) => FinalizeQuiet(d, w, u, t, created);
    case ReconcileEntry(e) => ReconcileQuiet(d, e);
    case Erase(u) => EraseQuiet(d, u);
  }

  lemma ImportsQuiet(d: Db, ev: Event)
    requires Inv(d) && Outside(ev) && Enabled(d, ev)
    requires ev.EnsureImport? || ev.ResetImport? || ev.PersistMember? || ev.CompleteImport? || ev.FailImport? ||
             ev.RecoverImport?
    ensures Quiet(d.blobs, Next(d, ev).blobs)
  {
    hide Inv, Quiet, KeepsImports, KeepsUploads, KeepsEntries, Ensure, Claim, Heartbeat, Reset, Persist, Complete, FailLease, RecoverExpired,
         MarkBlobDeleted, BeginBatch, ClaimItem, SaveDerived, FinalizeItem, FailItem,
         CompleteBatch, Reconcile, PrepareDelete, FinalizeDelete, Derive, DeriveStatus,
         DeriveTask, TaskGone, DerivedGone, OtherRetain, OtherRelease, OtherStage, OtherPublish;
    match ev
    case EnsureImport(id, input) => EnsureQuiet(d, id, input);
    case ResetImport(l) => ResetQuiet(d, l);
    case PersistMember(l, m) =>
      SkippedQuiet(d, l, m);
      SameQuiet(d.blobs);
    case CompleteImport(l) => CompleteQuiet(d, l);
    case FailImport(l, retry, delay) => FailLeaseQuiet(d, l, retry, delay);
    case RecoverImport(id, delay) => RecoverQuiet(d, id, delay);
  }

  lemma ElsewhereQuiet(d: Db, ev: Event)
    requires Inv(d) && Outside(ev)
    requires ev.RetainElsewhere? || ev.ReleaseElsewhere? || ev.StageElsewhere?
    ensures Quiet(d.blobs, Next(d, ev).blobs)
  {
    hide Inv, Quiet, KeepsImports, KeepsUploads, KeepsEntries, Ensure, Claim, Heartbeat, Reset, Persist, Complete, FailLease, RecoverExpired,
         MarkBlobDeleted, BeginBatch, ClaimItem, SaveDerived, FinalizeItem, FailItem,
         CompleteBatch, Reconcile, PrepareDelete, FinalizeDelete, Derive, DeriveStatus,
         DeriveTask, TaskGone, DerivedGone, OtherRetain, OtherRelease, OtherStage, OtherPublish;
    FreshNames(d);
    match ev
    case RetainElsewhere(b) => RetainQuiet(d, b);
    case ReleaseElsewhere(b) => ReleaseQuiet(d, b);
    case StageElsewhere(digest, size, key) => StageQuiet(d, digest, size, key);
  }

  // ---------------------------------------------------------------- steps

  /** A transaction that makes nothing available keeps files and rows in agreement. */
  lemma QuietKeeps(s: System, n: Db)
    requires Sound(s) && Inv(n) && Quiet(s.db.blobs, n.blobs)
    ensures Sound(s.(db := n))
  {
    hide Inv, Exclusive, Quiet;
    var t := s.(db := n);
    QuietRows(s.db.blobs, n.blobs);
    forall b | b in n.blobs ensures OnDisk(t, n.blobs[b]) {
      if b in s.db.blobs { assert OnDisk(s, s.db.blobs[b]); }
    }
    forall p | p in t.processes ensures PhaseOk(t, t.processes[p]) {
      assert PhaseOk(s, s.processes[p]);
      QuietPhase(s, n, t.processes[p]);
    }
  }

  lemma QuietRows(before: map<BlobId, Blob>, after: map<BlobId, Blob>)
    requires Quiet(before, after) && KeysOk(before)
    ensures KeysOk(after)
    ensures forall b | b in after :: QuietRow(before, after, b)
  {
    forall b | b in after && after[b].key.Canonical? ensures after[b].key.digest == after[b].digest {
      assert QuietRow(before, after, b);
    }
  }

  lemma QuietWithdrawn(before: map<BlobId, Blob>, after: map<BlobId, Blob>, digest: Digest)
    requires Quiet(before, after) && Withdrawn(before, digest)
    ensures Withdrawn(after, digest)
  {
    forall b | b in after && after[b].digest == digest ensures after[b].state != Available {
      assert QuietRow(before, after, b);
    }
  }

  lemma QuietPhase(s: System, n: Db, p: Phase)
    requires PhaseOk(s, p) && Quiet(s.db.blobs, n.blobs)
    ensures PhaseOk(s.(db := n), p)
  {
    hide Quiet, Withdrawn;
    if Withdrawn(s.db.blobs, Fenced(p)) { QuietWithdrawn(s.db.blobs, n.blobs, Fenced(p)); }
  }

  lemma EnterKeeps(s: System, p: Pid, phase: Phase)
    requires Sound(s) && PhaseOk(s, phase)
    requires if p in s.processes then Fenced(s.processes[p]) == Fenced(phase)
             else FenceFree(s, Fenced(phase))
    ensures Sound(Enter(s, p, phase))
  {
    hide Inv, KeysOk, LockName;
    var t := Enter(s, p, phase);
    forall q | q in t.processes ensures PhaseOk(t, t.processes[q]) {
      if q == p { SamePhase(s, t, phase); }
      else { SamePhase(s, t, s.processes[q]); }
    }
    forall b | b in t.db.blobs ensures OnDisk(t, t.db.blobs[b]) {
      assert OnDisk(s, s.db.blobs[b]);
    }
  }

  /** What a phase relies on is not who else is at work. */
  lemma SamePhase(s: System, t: System, phase: Phase)
    requires PhaseOk(s, phase) && t.db == s.db && t.files == s.files && t.sha == s.sha
    ensures PhaseOk(t, phase)
  {}

  lemma LeaveKeeps(s: System, p: Pid)
    requires Sound(s)
    ensures Sound(Leave(s, p))
  {
    hide Inv, KeysOk;
    var t := Leave(s, p);
    forall q | q in t.processes ensures PhaseOk(t, t.processes[q]) {
      assert q in s.processes;
      SamePhase(s, t, s.processes[q]);
    }
    forall b | b in t.db.blobs ensures OnDisk(t, t.db.blobs[b]) {
      assert OnDisk(s, s.db.blobs[b]);
    }
  }

  /** A new file takes nothing away, and nobody else counts on its absence. */
  lemma AddFileKeeps(s: System, p: Pid, digest: Digest, bytes: Bytes)
    requires Sound(s) && digest !in s.files
    requires p in s.processes && Fenced(s.processes[p]) == digest && !s.processes[p].Removed?
    ensures Sound(s.(files := s.files[digest := bytes]))
    ensures Withdrawn(s.db.blobs, digest)
  {
    hide Inv, KeysOk, Exclusive, Fenced;
    var t := s.(files := s.files[digest := bytes]);
    forall b | b in s.db.blobs ensures OnDisk(t, t.db.blobs[b]) {
      assert OnDisk(s, s.db.blobs[b]);
    }
    forall b | b in s.db.blobs && s.db.blobs[b].digest == digest
      ensures s.db.blobs[b].state != Available
    {
      assert OnDisk(s, s.db.blobs[b]);
    }
    forall q | q in t.processes ensures PhaseOk(t, t.processes[q]) {
      if q != p { OtherDigest(s, p, q); }
      MoreFiles(s, digest, bytes, s.processes[q]);
    }
  }

  lemma MoreFiles(s: System, digest: Digest, bytes: Bytes, phase: Phase)
    requires PhaseOk(s, phase) && digest !in s.files && (phase.Removed? ==> Fenced(phase) != digest)
    ensures PhaseOk(s.(files := s.files[digest := bytes]), phase)
  {
    hide Withdrawn;
  }

  /** The fence keeps the digests of two processes apart. */
  lemma OtherDigest(s: System, p: Pid, q: Pid)
    requires Exclusive(s.processes) && p in s.processes && q in s.processes && q != p
    ensures Fenced(s.processes[q]) != Fenced(s.processes[p])
  {}

  lemma FewerFiles(s: System, digest: Digest, phase: Phase)
    requires PhaseOk(s, phase) && Fenced(phase) != digest
    ensures PhaseOk(s.(files := s.files - {digest}), phase)
  {}

  lemma StillOnDisk(s: System, digest: Digest)
    requires Withdrawn(s.db.blobs, digest)
    requires forall b | b in s.db.blobs :: OnDisk(s, s.db.blobs[b])
    ensures forall b | b in s.db.blobs ::
              OnDisk(s.(files := s.files - {digest}), s.db.blobs[b])
  {
    forall b | b in s.db.blobs ensures OnDisk(s.(files := s.files - {digest}), s.db.blobs[b]) {
      assert OnDisk(s, s.db.blobs[b]);
    }
  }

  lemma SameOnDisk(s: System, t: System)
    requires t.files == s.files && t.db == s.db && t.sha == s.sha
    requires forall b | b in s.db.blobs :: OnDisk(s, s.db.blobs[b])
    ensures forall b | b in t.db.blobs :: OnDisk(t, t.db.blobs[b])
  {
    forall b | b in t.db.blobs ensures OnDisk(t, t.db.blobs[b]) { assert OnDisk(s, s.db.blobs[b]); }
  }

  lemma FewerProcesses(processes: map<Pid, Phase>, p: Pid)
    requires Exclusive(processes)
    ensures Exclusive(processes - {p})
  {}

  /** A process that knows its digest withdrawn may remove the file. */
  lemma RemoveFileKeeps(s: System, p: Pid)
    requires Sound(s) && p in s.processes && Withdrawn(s.db.blobs, Fenced(s.processes[p]))
    ensures Sound(Leave(s.(files := s.files - {Fenced(s.processes[p])}), p))
  {
    hide Inv, KeysOk, Exclusive, PhaseOk, OnDisk, Withdrawn, Fenced;
    var digest := Fenced(s.processes[p]);
    var u := s.(files := s.files - {digest});
    var t := Leave(u, p);
    StillOnDisk(s, digest);
    SameOnDisk(u, t);
    FewerProcesses(s.processes, p);
    forall q | q in t.processes ensures PhaseOk(t, t.processes[q]) {
      OtherDigest(s, p, q);
      FewerFiles(s, digest, s.processes[q]);
      SamePhase(u, t, s.processes[q]);
    }
  }

  /** A transaction inside the fence makes rows of its own digest available, which it
      knows to be on disk. */
  predicate PublishedRow(before: map<BlobId, Blob>, after: map<BlobId, Blob>, digest: Digest,
                         size: int, b: BlobId)
    requires b in after
  {
    || QuietRow(before, after, b)
    || (after[b].digest == digest && after[b].size == size &&
        (after[b].key.Canonical? ==> after[b].key.digest == digest))
  }

  lemma PublishKeeps(s: System, p: Pid, n: Db, size: int)
    requires Sound(s) && p in s.processes && Inv(n)
    requires Verified(s, Fenced(s.processes[p]), size)
    requires forall b | b in n.blobs ::
               PublishedRow(s.db.blobs, n.blobs, Fenced(s.processes[p]), size, b)
    ensures Sound(Leave(s.(db := n), p))
  {
    hide Inv, Exclusive, PhaseOk, OnDisk, Verified, Fenced, PublishedRow;
    var digest := Fenced(s.processes[p]);
    var t := Leave(s.(db := n), p);
    forall b | b in n.blobs
      ensures OnDisk(t, n.blobs[b])
      ensures n.blobs[b].key.Canonical? ==> n.blobs[b].key.digest == n.blobs[b].digest
    {
      PublishedOnDisk(s, n, digest, size, b);
    }
    FewerProcesses(s.processes, p);
    forall q | q in t.processes ensures PhaseOk(t, t.processes[q]) {
      OtherDigest(s, p, q);
      OthersWithdrawn(s.db.blobs, n.blobs, digest, size, Fenced(s.processes[q]));
      OtherPhase(s, t, s.processes[q]);
    }
  }

  lemma PublishedOnDisk(s: System, n: Db, digest: Digest, size: int, b: BlobId)
    requires b in n.blobs && PublishedRow(s.db.blobs, n.blobs, digest, size, b)
    requires Verified(s, digest, size)
    requires b in s.db.blobs ==> OnDisk(s, s.db.blobs[b])
    requires KeysOk(s.db.blobs)
    ensures forall p: Pid :: OnDisk(Leave(s.(db := n), p), n.blobs[b])
    ensures n.blobs[b].key.Canonical? ==> n.blobs[b].key.digest == n.blobs[b].digest
  {}

  lemma OtherPhase(s: System, t: System, phase: Phase)
    requires PhaseOk(s, phase) && t.files == s.files && t.sha == s.sha
    requires Withdrawn(s.db.blobs, Fenced(phase)) ==> Withdrawn(t.db.blobs, Fenced(phase))
    ensures PhaseOk(t, phase)
  {
    hide Withdrawn;
  }

  lemma OthersWithdrawn(before: map<BlobId, Blob>, after: map<BlobId, Blob>, digest: Digest,
                        size: int, other: Digest)
    requires other != digest
    requires forall b | b in after :: PublishedRow(before, after, digest, size, b)
    ensures Withdrawn(before, other) ==> Withdrawn(after, other)
  {
    if Withdrawn(before, other) {
      forall b | b in after && after[b].digest == other ensures after[b].state != Available {
        assert PublishedRow(before, after, digest, size, b);
      }
    }
  }

  lemma PersistRows(d: Db, l: Lease, m: NewEntry)
    requires m.eligible && m.key == Canonical(m.digest()) && d.nextBlob !in d.blobs
    ensures forall b | b in Persist(d, l, m).blobs ::
              PublishedRow(d.blobs, Persist(d, l, m).blobs, m.digest(), m.member.size, b)
  {
    hide Live;
    if PersistError(d, l, m).None? {
      LiveIfPersisted(d, l, m);
      RetainRows(d, m);
      assert Persist(d, l, m).blobs == Retain(d, m);
    }
  }

  lemma RetainRows(d: Db, m: NewEntry)
    requires RetainError(d, m).None? && m.key == Canonical(m.digest()) && d.nextBlob !in d.blobs
    ensures forall b | b in Retain(d, m) ::
              PublishedRow(d.blobs, Retain(d, m), m.digest(), m.member.size, b)
  {}

  lemma LinkKeeps(s: System, p: Pid)
    requires Sound(s)
    ensures Sound(Move(s, LinkFile(p)))
  {
    hide Inv, Sound;
    if p in s.processes {
      PhaseOf(s, p);
      match s.processes[p]
      case Publishing(l, m, bytes) =>
        if m.digest() !in s.files {
          AddFileKeeps(s, p, m.digest(), bytes);
          EnterKeeps(s.(files := s.files[m.digest() := bytes]), p, Linked(l, m));
        } else if Verified(s, m.digest(), |bytes|) {
          EnterKeeps(s, p, Published(l, m));
        } else {
          LeaveKeeps(s, p);
        }
      case Uploading(b, digest, bytes) =>
        if digest !in s.files {
          AddFileKeeps(s, p, digest, bytes);
          EnterKeeps(s.(files := s.files[digest := bytes]), p, Uploaded(b, digest, |bytes|));
        } else if Verified(s, digest, |bytes|) {
          EnterKeeps(s, p, Uploaded(b, digest, |bytes|));
        } else {
          LeaveKeeps(s, p);
        }
      case _ =>
    }
  }

  lemma PhaseOf(s: System, p: Pid)
    requires Sound(s) && p in s.processes
    ensures PhaseOk(s, s.processes[p])
  {}

  lemma DropStagingKeeps(s: System, p: Pid, removed: bool)
    requires Sound(s)
    ensures Sound(Move(s, DropStaging(p, removed)))
  {
    hide Inv, Sound, Withdrawn;
    if p in s.processes && s.processes[p].Linked? {
      PhaseOf(s, p);
      if removed {
        EnterKeeps(s, p, Published(s.processes[p].lease, s.processes[p].member));
      } else {
        RemoveFileKeeps(s, p);
      }
    }
  }

  lemma PersistPublishedKeeps(s: System, p: Pid)
    requires Sound(s)
    ensures Sound(Move(s, PersistPublished(p)))
  {
    hide Inv, Sound, Persist, PublishedRow;
    if p in s.processes && s.processes[p].Published? {
      var l, m := s.processes[p].lease, s.processes[p].member;
      PhaseOf(s, p);
      SoundDb(s);
      FreshNames(s.db);
      PersistRows(s.db, l, m);
      PersistKeeps(s.db, l, m);
      PublishKeeps(s, p, Persist(s.db, l, m), m.member.size);
    }
  }

  lemma SoundDb(s: System)
    requires Sound(s)
    ensures Inv(s.db) && KeysOk(s.db.blobs)
  {
    hide Inv;
  }

  lemma PublishUploadKeeps(s: System, p: Pid)
    requires Sound(s)
    ensures Sound(Move(s, PublishUpload(p)))
  {
    hide Inv, Sound, OtherPublish, PublishedRow;
    if p in s.processes && s.processes[p].Uploaded? {
      var phase := s.processes[p];
      PhaseOf(s, p);
      SoundDb(s);
      if phase.blob in s.db.blobs && s.db.blobs[phase.blob].digest == phase.digest &&
         s.db.blobs[phase.blob].size == phase.size {
        OtherPublishKeeps(s.db, phase.blob);
        UploadRows(s.db, phase.blob);
        PublishKeeps(s, p, OtherPublish(s.db, phase.blob), phase.size);
      } else {
        LeaveKeeps(s, p);
      }
    }
  }

  lemma UploadRows(d: Db, b: BlobId)
    requires b in d.blobs && KeysOk(d.blobs)
    ensures forall c | c in OtherPublish(d, b).blobs ::
              PublishedRow(d.blobs, OtherPublish(d, b).blobs, d.blobs[b].digest, d.blobs[b].size, c)
  {}

  /** The check and the digest of the key rule out every row of that digest. */
  lemma CheckedWithdrawn(d: Db, value: ReleasedBlob, digest: Digest)
    requires Inv(d) && KeysOk(d.blobs) && value.key == Canonical(digest)
    requires value.id in d.blobs && d.blobs[value.id].key == value.key
    requires d.blobs[value.id].state == BlobState.Deleting
    ensures Withdrawn(d.blobs, digest)
  {
    hide ImportsOk, EntriesOk, CountersOk, BatchesOk, ItemsOk, NamesOk, TicketsOk, FactsOk;
  }

  lemma DeleterKeeps(s: System, step: Step)
    requires Sound(s)
    requires step.BeginDelete? || step.CheckReleased? || step.RemoveFile? || step.MarkDeleted?
    ensures Sound(Move(s, step))
  {
    hide Inv, Sound, Withdrawn, FenceFree, MarkBlobDeleted, Quiet, KeysOk;
    SoundDb(s);
    if step.pid in s.processes { PhaseOf(s, step.pid); }
    match step
    case BeginDelete(p, value) =>
      if p !in s.processes && value.key.Canonical? && FenceFree(s, value.key.digest) {
        FenceLength(s, value.key.digest);
        EnterKeeps(s, p, Phase.Deleting(value, value.key.digest));
      }
    case CheckReleased(p) =>
      if p in s.processes && s.processes[p].Deleting? {
        var value, digest := s.processes[p].value, s.processes[p].digest;
        if value.id in s.db.blobs && s.db.blobs[value.id].key == value.key &&
           s.db.blobs[value.id].refs == 0 && s.db.blobs[value.id].state == BlobState.Deleting {
          CheckedWithdrawn(s.db, value, digest);
          EnterKeeps(s, p, Checked(value, digest));
        } else {
          LeaveKeeps(s, p);
        }
      }
    case RemoveFile(p) =>
      if p in s.processes && s.processes[p].Checked? { RemoveKeeps(s, p); }
    case MarkDeleted(p) =>
      if p in s.processes && s.processes[p].Removed? {
        var n := MarkBlobDeleted(s.db, s.processes[p].value.id);
        MarkBlobDeletedKeeps(s.db, s.processes[p].value.id);
        MarkQuiet(s.db, s.processes[p].value.id);
        QuietKeeps(s, n);
        LeaveKeeps(s.(db := n), p);
      }
  }

  lemma FenceLength(s: System, digest: Digest)
    requires FenceFree(s, digest)
    ensures |digest| == 64
  {}

  lemma RemoveKeeps(s: System, p: Pid)
    requires Sound(s) && p in s.processes && s.processes[p].Checked?
    ensures Sound(Move(s, RemoveFile(p)))
  {
    hide Inv, Sound, Withdrawn, PhaseOk, FenceFree;
    var digest := s.processes[p].digest;
    var t := Leave(s.(files := s.files - {digest}), p);
    PhaseOf(s, p);
    CheckedPhase(s, p);
    RemoveFileKeeps(s, p);
    FenceFreed(s, p);
    EnterKeeps(t, p, Removed(s.processes[p].value, digest));
    assert s.processes[p := Removed(s.processes[p].value, digest)] ==
           t.processes[p := Removed(s.processes[p].value, digest)];
  }

  /** Leaving the fence frees it. */
  lemma FenceFreed(s: System, p: Pid)
    requires Sound(s) && p in s.processes
    ensures forall files :: FenceFree(Leave(s.(files := files), p), Fenced(s.processes[p]))
  {
    hide Inv, KeysOk, OnDisk, LockName, Fenced;
    PhaseOf(s, p);
  }

  lemma CheckedPhase(s: System, p: Pid)
    requires p in s.processes && s.processes[p].Checked? && PhaseOk(s, s.processes[p])
    ensures Withdrawn(s.db.blobs, s.processes[p].digest) && |s.processes[p].digest| == 64
    ensures forall t: System | t.db == s.db && s.processes[p].digest !in t.files ::
              PhaseOk(t, Removed(s.processes[p].value, s.processes[p].digest))
  {}

  lemma BeginKeeps(s: System, step: Step)
    requires Sound(s) && (step.BeginPublish? || step.BeginUpload?)
    ensures Sound(Move(s, step))
  {
    hide Inv, Sound, FenceFree;
    match step
    case BeginPublish(p, l, m, bytes) =>
      if p !in s.processes && m.eligible && FenceFree(s, m.digest()) &&
         s.sha(bytes) == m.digest() && |bytes| == m.member.size {
        FenceLength(s, m.digest());
        EnterKeeps(s, p, Publishing(l, m.(key := Canonical(m.digest())), bytes));
      }
    case BeginUpload(p, b, digest, bytes) =>
      if p !in s.processes && FenceFree(s, digest) && s.sha(bytes) == digest {
        FenceLength(s, digest);
        EnterKeeps(s, p, Uploading(b, digest, bytes));
      }
  }

  /** Every step keeps rows and files in agreement. */
  lemma MoveKeeps(s: System, step: Step)
    requires Sound(s)
    ensures Sound(Move(s, step))
  {
    hide Inv, Sound, Next, Outside;
    match step
    case Transaction(ev) =>
      if Outside(ev) {
        SoundDb(s);
        NextKeeps(s.db, ev);
        OutsideQuiet(s.db, ev);
        QuietKeeps(s, Next(s.db, ev));
      }
    case BeginPublish(_, _, _, _) => BeginKeeps(s, step);
    case BeginUpload(_, _, _, _) => BeginKeeps(s, step);
    case LinkFile(p) => LinkKeeps(s, p);
    case DropStaging(p, removed) => DropStagingKeeps(s, p, removed);
    case PersistPublished(p) => PersistPublishedKeeps(s, p);
    case PublishUpload(p) => PublishUploadKeeps(s, p);
    case BeginDelete(_, _) => DeleterKeeps(s, step);
    case CheckReleased(_) => DeleterKeeps(s, step);
    case RemoveFile(_) => DeleterKeeps(s, step);
    case MarkDeleted(_) => DeleterKeeps(s, step);
    case Crash(p) => LeaveKeeps(s, p);
  }

  /** Nothing in the tables, on disk or inside a fence. */
  function Fresh(sha: Bytes -> Digest): System { System(sha, Start(), map[], map[]) }

  lemma {:induction false} MovesKeep(sha: Bytes -> Digest, steps: seq<Step>)
    ensures Sound(Moves(Fresh(sha), steps)) && Moves(Fresh(sha), steps).sha == sha
  {
    hide Inv, Sound;
    if steps == [] {
      FreshSound(sha);
    } else {
      MovesKeep(sha, steps[..|steps| - 1]);
      MoveKeeps(Moves(Fresh(sha), steps[..|steps| - 1]), steps[|steps| - 1]);
    }
  }

  lemma FreshSound(sha: Bytes -> Digest) ensures Sound(Fresh(sha)) {
    hide Inv;
    StartOk();
  }

  /** Whatever publishers, deleters, crashes and other transactions do: a blob whose row
      says `available` has its file on disk, with that digest and that size. */
  lemma AvailableIsOnDisk(sha: Bytes -> Digest, steps: seq<Step>, b: BlobId)
    requires b in Moves(Fresh(sha), steps).db.blobs
    requires Moves(Fresh(sha), steps).db.blobs[b].state == Available
    ensures var s := Moves(Fresh(sha), steps); var row := s.db.blobs[b];
      row.digest in s.files && sha(s.files[row.digest]) == row.digest &&
      |s.files[row.digest]| == row.size
  {
    hide Inv, Moves, Fresh, PhaseOk, Exclusive, KeysOk;
    MovesKeep(sha, steps);
    assert OnDisk(Moves(Fresh(sha), steps), Moves(Fresh(sha), steps).db.blobs[b]);
  }

  /** The files that archive references point at are there as well. */
  lemma HeldIsOnDisk(sha: Bytes -> Digest, steps: seq<Step>, e: EntryId)
    requires var d := Moves(Fresh(sha), steps).db;
      e in d.entries && d.entries[e].blob.Some? && !d.entries[e].released
    ensures var s := Moves(Fresh(sha), steps);
      && s.db.entries[e].blob.value in s.db.blobs
      && s.db.blobs[s.db.entries[e].blob.value].digest in s.files
  {
    hide Inv, Moves, Fresh, PhaseOk, Exclusive, KeysOk;
    MovesKeep(sha, steps);
    var s := Moves(Fresh(sha), steps);
    BlobsOf(s.db);
    assert IsAvailable(s.db.blobs, s.db.entries[e].blob.value);
    AvailableIsOnDisk(sha, steps, s.db.entries[e].blob.value);
  }

  /** What each step does to the files: a publisher links its verified bytes where there is no
      file, and takes the file away again when its staging name cannot be removed; a deleter takes
      the file of its digest away; nothing else touches a file. */
  lemma FilesFollow(s: System, step: Step, digest: Digest)
    ensures var before, after := s.files, Move(s, step).files;
      match step
      case LinkFile(p) =>
        if p in s.processes && digest !in before && Links(s.processes[p], digest)
        then digest in after && after[digest] == s.processes[p].bytes
        else SameFile(before, after, digest)
      case DropStaging(p, removed) =>
        if !removed && p in s.processes && s.processes[p].Linked? && digest == s.processes[p].member.digest()
        then digest !in after
        else SameFile(before, after, digest)
      case RemoveFile(p) =>
        if p in s.processes && s.processes[p].Checked? && digest == s.processes[p].digest
        then digest !in after
        else SameFile(before, after, digest)
      case _ => SameFile(before, after, digest)
  {
    hide Next, Outside, FenceFree, Verified, Persist, OtherPublish, MarkBlobDeleted;
  }

  /** The process has staged bytes for this digest. */
  predicate Links(p: Phase, digest: Digest) {
    (p.Publishing? && p.member.digest() == digest) || (p.Uploading? && p.digest == digest)
  }

  predicate SameFile(before: map<Digest, Bytes>, after: map<Digest, Bytes>, digest: Digest) {
    (digest in before <==> digest in after) && (digest in before ==> after[digest] == before[digest])
  }

  /** When a deleter marks its blob deleted, the file is gone. */
  lemma DeletedIsGone(sha: Bytes -> Digest, steps: seq<Step>, p: Pid)
    requires var s := Moves(Fresh(sha), steps); p in s.processes && s.processes[p].Removed?
    ensures var s := Moves(Fresh(sha), steps);
      && s.processes[p].digest !in s.files && s.processes[p].digest !in Move(s, MarkDeleted(p)).files
      && forall b | b in s.db.blobs && s.db.blobs[b].digest == s.processes[p].digest :: s.db.blobs[b].state != Available
  {
    hide Moves, Sound, MarkBlobDeleted, Fresh;
    MovesKeep(sha, steps);
    PhaseOf(Moves(Fresh(sha), steps), p);
  }
}
