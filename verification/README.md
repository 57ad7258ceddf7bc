# Proofs about BinaryScan

BinaryScan takes uploaded archives and binaries apart. This project models four of its
parts in Dafny and proves what they are for. `dafny verify dfyconfig.toml` checks all of
it; `--manual-lemma-induction` can be given as well, because every induction is written
out.

## What is modelled

**The archive-import saga.** Imports are claimed under leases and fencing tokens, list
their members, become ready, are split into task batches and are deleted again, while
content-addressed blobs carry reference counts and their files are published and removed
under a fence per digest.

- `ArchiveDb` holds the tables as one value and the invariant over them;
  `ArchiveTransactions` says what each transaction makes of them.
- `ArchiveRepository` and `ArchiveSql` run the transactions: a class with the database as
  its field and one method per SQL transaction, statement by statement on a copy that is
  written back at the commit. Each method is proved to have exactly the effect and the
  error that the specification states. Rows that another transaction has locked are a
  parameter (`SKIP LOCKED`).
- `ArchiveRuns` lets all actors interleave: a run is any sequence of transactions of
  workers, recovery, reconciliation and deletion, of steps of the services beside them
  (creating uploads and tasks, deleting task rows, other holders of blobs), and of ticks
  of the clock. A crash is a worker that takes no further step.
- The invariant is kept by every step (`ArchiveInvariant`, `ArchiveImportSteps`,
  `ArchiveEntrySteps`, `ArchiveBatchSteps`, `ArchiveBindSteps`). On it rest the results
  over whole runs: conservation of references and the lifecycle (`ArchiveLifecycle`),
  exactly-once binding of tasks (`ArchiveBinding`), when a link to a task is lost
  (`ArchiveLinks`, with an example in `ArchiveLostTask`), and progress of batches
  (`ArchiveProgress`).
- `ArchiveRules` says what every event makes of one item, entry, import, batch, upload or
  blob, on the row alone and without the functions of `ArchiveTransactions`;
  `ArchiveItemRule`, `ArchiveEntryRule`, `ArchiveImportRule` and `ArchiveBlobRule` prove that
  every step does exactly that. `ArchiveOutcomes` draws from it what a failure comes to: when
  an item waits again, when it is given up, and what is handed out by a claim.
- `ArchiveFiles` adds the repository directory and processes that hold the fence of a
  digest and may stop between any two of their steps.

**The bytecode parsers.** `JvmClassParser` is the class-file reader with its nested
readers, proved against a layout of class files (`JvmClassFormat`, `JvmClassLayout`) that
can also be written; `ModifiedUtf8` and `JvmDescriptors` are its decoder and its
descriptor grammar. `PycMarshal` is the reader of Python marshal data: `PycRecords` is the
syntax of records with flags and references and the graph each of them builds, `PycGraph`
ties the budgets to that graph, `PycReading` says piece by piece when bytes are a record,
`PycMeaning` what acceptance means for the finished graph, and `PycCircular` builds the
payload that is accepted and yet not valid. The reader's methods return the record they
have read as a ghost, and take the record that is there, if any, as another: so acceptance
is exact in both directions. `ZipPreflight` is the check of a ZIP directory before it is
opened; `JvmArchiveEntries` and `JvmArchiveWalk` choose the classes of an archive and walk
the archives inside it under one budget.

**The result contract and its producer.** `BytecodeContract` says what an engine's output
must satisfy and `BytecodeValidator` is the validation as it runs, over maps, sets and
counters. `BytecodeNormalization` and `BytecodeRearrangement` show that the order in which
an engine lists things does not matter. `JvmIndex` and `JvmEngine` are the fallback engine;
its output is proved to keep the contract, through the parser, the archive walk, the keys
and the normalisation.

**Reservations and agreement.** `LoginLimiter` is the login rate limiter, `CapacityGuard`
the storage guard, `SandboxPreflight` the comparison of an unpacked tree with its listing.

**References to compare with.** A specification that a method is proved against could be
wrong in the same way as the method. So, besides `ArchiveRules`, there are second definitions
that use none of the functions of the first and have positions, numbers and names written out,
each with a proof that both say the same of every input:

- `JvmClassRules` is chapter 4 of the Java Virtual Machine Specification on the constants and
  attributes themselves (`JvmClassReference`: the parser accepts exactly what it allows), and
  `JvmListing` says what the output of the engine tells of the bytes of each candidate.
- `PycLayout` writes marshalled records byte by byte, `PycPreorder` tells at one go which
  graph they are, `PycMoments` what is demanded of them, `PycAcceptance` joins the three, and
  `PycPlaces` says where in an accepted payload the fields of a code object stand.
- `ZipLayout` has the records of a ZIP directory by the positions of their fields,
  `JvmArchiveRules` the names, choices and reasons of the archive walk, `PathNames` what
  `path.Clean` does, `Utf8Text` what UTF-8 is, and `ContractRules` the clauses and the order
  of the result contract.
- `LoginRules` and `CapacityRules` have the limiter and the guard case by case in plain
  numbers, `SandboxRules` and `Splitting` the listing line by line.

`Counting`, `Words` and `Texts` hold what the others share: counting and adding over
tables, machine words and byte strings, and strings as keys.

## Where the code differs from what one would expect

- `FailLease` with a retry looks at the holder and the fence but not at the expiry, so a
  lease that has run out still puts its import back into the queue as long as nobody has
  recovered it (`ArchiveLifecycle.ExpiredLeaseRequeues`). Everything else a dead lease
  tries has no effect (`DeadLeaseIsInert`, which says exactly when).
- A created entry, or an item that says created or existing, can have no task: deleting
  the row of a task clears the links to it (`ArchiveLostTask.CreatedWithoutTask`). An entry
  gets one back only from a reconciliation that finds one (`ArchiveLinks.NoTaskIff`), an item
  never, and an item can be inserted without one (`ArchiveLinks.ItemNoTaskIff`).
- `readJVMZIPEnd` compares the 32-bit directory size with the 16-bit maximum. A plain
  archive whose directory takes exactly 65535 bytes is therefore read as ZIP64 and, without
  a locator, refused (`ZipPreflight.DirectoryOf65535`); so is one with 65535 records or a
  directory at offset 2^32-1, where the format leaves no choice, and no other sound one
  (`PlainAccepted`). A ZIP64 archive that saturates only the size, to 2^32-1, is read as a
  plain one with a directory of 4 GiB and refused (`SizeOnlyRefused`); `Zip64Accepted` says
  exactly which ZIP64 archives are read as such.
- `parseJVMVersionedPath` reads the release with `strconv.Atoi`, which takes a sign, and
  tests only the first character for a leading zero. `META-INF/versions/+9/` and
  `META-INF/versions/+09/`, with any number of zeros, count as release 9
  (`JvmArchiveEntries.SignedNine`); a release is written canonically exactly when it has no
  sign (`CanonicalRelease`), and `ReleasePathIff` lists every accepted name.
- The marshal reader enters a flagged object into the reference table before it has read
  its contents, and validates a code object as soon as its fields are read. A code object
  inside a tuple that it refers to as its names is validated while that tuple is still
  empty, and is accepted with names that are no strings (`PycCircular.CircularAccepted`).
  Every other accepted code object is valid in the finished graph
  (`PycMeaning.ValidInTheEnd`, with the condition).
- The `allowVoid` parameter of `parseJVMFieldType` is false in every call; the last loop
  of `validJVMInternalName`, the `Clean` tests of `validateJVMZIPEntry` and of the listing
  parser, and the first output validation can refuse nothing that is not refused anyway.

## Model

| member | source | states |
|---|---|---|
| ArchiveLifecycle.ReferencesConserved | internal/archiveimport/repository.go:763-1103 | in every state reachable by any interleaving of steps a blob counts exactly its unreleased import sources, unreleased entries and other holders, and can be read exactly while that number is positive |
| ArchiveLifecycle.ReleaseNeverConflicts | internal/archiveimport/repository.go:1067-1103 | a reference that is still held names a blob that is available with a positive count, so the conflict branch of releaseBlob is never taken |
| ArchiveRuns.NextKeeps | internal/archiveimport/batch_repository.go:13-643 | every step of every actor, enabled or refused, keeps the invariant over all tables |
| ArchiveRuns.RunKeeps | internal/archiveimport/repository.go:43-1226 | the invariant holds after any run from a database in which it holds |
| ArchiveRuns.StartOk | internal/archiveimport/repository.go:36-41 | the empty database satisfies the invariant |
| ArchiveItemRule.ItemsFollow | internal/archiveimport/batch_repository.go:83-594 | for every step and every batch item: the row afterwards, written on the row alone - inserted, claimed, swept as exhausted, sent back or failed by its worker, created, adopted, unlinked, deleted, or the same |
| ArchiveEntryRule.EntriesFollow | internal/archiveimport/batch_repository.go:400-485 | the same for every entry |
| ArchiveImportRule.ImportsFollow | internal/archiveimport/repository.go:432-1226 | the same for every import, with status, hold, fence, attempt and counters |
| ArchiveImportRule.BatchesFollow | internal/archiveimport/batch_repository.go:13-163 | the same for every batch |
| ArchiveImportRule.UploadsFollow | internal/archiveimport/deletion_repository.go:133-165 | the same for every upload |
| ArchiveBlobRule.BlobsFollow | internal/archiveimport/repository.go:763-1103 | the same for every blob: who may bring it in, and the state that its count leaves it in; the count is ReferencesConserved |
| ArchiveLifecycle.ImportMoves | internal/archiveimport/repository.go:432-1226 | import rows are never deleted; each step follows an edge of the lifecycle, raises the fence exactly when it claims, and never gives a released source back |
| ArchiveLifecycle.ImportFate | internal/archiveimport/repository.go:432-595 | over any run the fence grows by the number of claims, ready and failed lead only to deletion, deleted is final |
| ArchiveLifecycle.ClaimsBounded | internal/archiveimport/repository.go:432-595 | however often it is retried or recovered, an import is claimed at most max_attempts times |
| ArchiveLifecycle.DeadStays | internal/archiveimport/repository.go:613-630 | a lease that is superseded, given up or expired never becomes live again |
| ArchiveLifecycle.DeadLeaseIsInert | internal/archiveimport/repository.go:613-975 | after any run a dead lease changes nothing: Heartbeat, Reset, Persist and Complete leave the database as it is, and FailLease does exactly unless it asks for a retry while still the holder |
| ArchiveLifecycle.ExpiredLeaseRequeues | internal/archiveimport/repository.go:901-931 | the exception is real: an expired lease that nobody recovered still puts its import back into the queue |
| ArchiveLifecycle.AlwaysWellKept | internal/archiveimport/batch_repository.go:42-81 | in every reachable state: at most one running import, attempt equals fence and stays within max_attempts, at most one open batch per import and only while it is ready, no open item in a completed batch, nothing left of a deleted import |
| ArchiveBinding.EntryFate | internal/archiveimport/batch_repository.go:400-485 | over any run an entry keeps its identity and content, only moves forward, and keeps a task once set unless that task row is deleted |
| ArchiveBinding.ReleasedOnce | internal/archiveimport/batch_repository.go:435-444 | whatever batches, retries and reconciliations a run holds, an entry gives its blob back at most once, and has done so exactly when its row says released |
| ArchiveBinding.CreatedForGood | internal/archiveimport/batch_repository.go:429-452 | created is absorbing: until the whole import is deleted the entry keeps its status, its blob and its release, and its task as long as the row of that task is there |
| ArchiveBinding.CountersAgree | internal/archiveimport/batch_repository.go:445-480 | in every reachable state released means created, no two entries share a task, and created_tasks is the number of created entries |
| ArchiveBinding.GoneStays | internal/archiveimport/repository.go:632-670 | the id of a deleted entry is never handed out again |
| ArchiveLinks.NoTaskIff | internal/archiveimport/reconciliation_repository.go:95-152 | in any run a created entry has no task if and only if the row of the task it was bound to was deleted and no reconciliation adopted one since |
| ArchiveLinks.ItemNoTaskIff | internal/archiveimport/batch_repository.go:126-148 | a created or existing item has no task if and only if the row of its task was deleted, or it was inserted as existing for an entry that had none at that moment |
| ArchiveLinks.BoundUntilGone | db/migrations/00035_archive_imports.sql:115 | without a reconciliation that adopts one, an entry bound to task t keeps exactly t until the deletion of the row of t, and has none after it |
| ArchiveLinks.ItemsAgree | internal/archiveimport/batch_repository.go:452-472 | a finished item belongs to a created entry, and has the task of that entry or, exactly when it has lost it, none |
| ArchiveLostTask.CreatedWithoutTask | db/migrations/00035_archive_imports.sql:115-176 | thirteen events from the empty database, from an upload to the deletion of the task row, after which a created entry and its created item have no task |
| ArchiveProgress.BatchMoves | internal/archiveimport/batch_repository.go:248-359 | an open batch on which nobody works always moves: either CompleteBatch succeeds or some item can be claimed, with its attempt counted |
| ArchiveProgress.OpenIsClaimable | internal/archiveimport/batch_repository.go:284-304 | an item still open after the sweep of exhausted items is claimable and readable |
| ArchiveProgress.TakesBounded | internal/archiveimport/service.go:246-313 | all claims on a batch, by all workers of any run, together with the budget that is left stay within the budget at the start: the claiming loop of processBatch is well founded |
| ArchiveProgress.BatchTakesBounded | internal/archiveimport/batch_repository.go:13-163 | a new batch is claimed from at most three times per selected entry, so at most 60 times |
| ArchiveProgress.ClaimIsTake | internal/archiveimport/batch_repository.go:305-323 | a successful ClaimBatchItem spends one unit of that budget |
| ArchiveProgress.UploadsStay | internal/archiveimport/repository.go:43-198 | the upload of every import stays in the table of uploads, over any run |
| ArchiveTransactions.ReconcileOutcome | internal/archiveimport/reconciliation_repository.go:15-195 | reconciling an entry adopts the one task that exists, or else the one derived upload that fits, or else changes nothing |
| ArchiveSql.MySQLRepository.Ensure | internal/archiveimport/repository.go:43-198 | finds the import of an upload or creates the only one, retaining its source blob; refuses exactly the inputs EnsureError names |
| ArchiveSql.MySQLRepository.Claim | internal/archiveimport/repository.go:432-595 | claims the first import in the queue that is due and not locked, unless the resource gate is busy; the lease carries the new fence |
| ArchiveSql.MySQLRepository.SelectQueued | internal/archiveimport/repository.go:447-480 | the row chosen is the first claimable one by queue order, and there is none exactly when none is claimable |
| ArchiveSql.MySQLRepository.Heartbeat | internal/archiveimport/repository.go:613-630 | extends a live lease and nothing else |
| ArchiveSql.MySQLRepository.ResetForProcessing | internal/archiveimport/repository.go:632-670 | gives every entry blob back once, deletes the entries and clears the counters, and lists exactly the blobs that reached zero |
| ArchiveSql.MySQLRepository.PersistEntry | internal/archiveimport/repository.go:672-761 | inserts one entry with its retained or new blob and counts it, or changes nothing |
| ArchiveSql.MySQLRepository.CompleteLease | internal/archiveimport/repository.go:864-899 | a live lease makes its import ready and releases the source |
| ArchiveSql.MySQLRepository.FailLease | internal/archiveimport/repository.go:901-958 | back into the queue with attempts left, failed for good otherwise; the retry looks at holder and fence but not at the expiry |
| ArchiveSql.MySQLRepository.RecoverExpiredLease | internal/archiveimport/repository.go:1164-1226 | acts on an expired running import only: queued again if attempts are left, failed with its source released otherwise |
| ArchiveSql.MySQLRepository.MarkBlobDeleted | internal/archiveimport/repository.go:1105-1117 | marks the row deleted only while it still is at zero and deleting |
| ArchiveSql.MySQLRepository.BeginBatch | internal/archiveimport/batch_repository.go:13-163 | repeats a known request or opens one batch with an item for every selected entry, in order; completed at once when all are created |
| ArchiveSql.MySQLRepository.ClaimBatchItem | internal/archiveimport/batch_repository.go:248-359 | fails exhausted items, then claims the claimable item with the lowest ordinal that nobody holds |
| ArchiveSql.MySQLRepository.SelectItem | internal/archiveimport/batch_repository.go:284-304 | the item returned is first by ordinal, and none is returned exactly when none is claimable |
| ArchiveSql.MySQLRepository.SaveDerivedUpload | internal/archiveimport/batch_repository.go:361-398 | records the derived upload of live work |
| ArchiveSql.MySQLRepository.FinalizeBatchItem | internal/archiveimport/batch_repository.go:400-485 | binds the task to item and entry, with the blob released once and the counter raised once |
| ArchiveSql.MySQLRepository.FailBatchItem | internal/archiveimport/batch_repository.go:487-594 | live work that asks for a retry with attempts left puts the item back to pending, any other failure makes it failed; the hold ends, the attempt stays, and the answer says which it was |
| ArchiveOutcomes.RetryComesBack | internal/archiveimport/batch_repository.go:546-594 | in any run: live work that fails with a retry and attempts left leaves the item pending, without a hold, its attempts as they were; its batch cannot be completed, and the next claim gets it |
| ArchiveOutcomes.FailureEnds | internal/archiveimport/batch_repository.go:546-594 | any other failure of live work makes the item failed |
| ArchiveOutcomes.GivenUpOnRefusal | internal/archiveimport/batch_repository.go:284-594 | in any run an item that has failed with attempts left was failed by a worker that asked for no retry |
| ArchiveOutcomes.WorkHandedOut | internal/archiveimport/batch_repository.go:305-359 | the work of a claimed item carries the new fence and the data of its entry and upload |
| ArchiveOutcomes.LeaseHandedOut | internal/archiveimport/repository.go:481-595 | the lease of a claimed import carries the new fence and the attempt that its row has then |
| ArchiveOutcomes.FirstItemIff | internal/archiveimport/batch_repository.go:284-304 | the item that is claimed is the waiting one with the lowest ordinal that nobody else looks at |
| ArchiveOutcomes.FirstImportIff | internal/archiveimport/repository.go:447-480 | the import that is claimed is the one due first, by time and then by number |
| ArchiveSql.MySQLRepository.CompleteBatch | internal/archiveimport/batch_repository.go:620-643 | completes a batch exactly when no item is pending or processing |
| ArchiveSql.MySQLRepository.ReconcileEntryFact | internal/archiveimport/reconciliation_repository.go:15-195 | repairs an entry from the uploads and tasks that exist, or reports a conflict and changes nothing |
| ArchiveSql.MySQLRepository.SelectCandidates | internal/archiveimport/reconciliation_repository.go:55-94 | the rows of the join: every derived upload of the entry with each of its tasks, or once without |
| ArchiveSql.MySQLRepository.ScanTasks | internal/archiveimport/reconciliation_repository.go:95-105 | finds the task among the rows; two different ones are a conflict |
| ArchiveSql.MySQLRepository.ScanUploads | internal/archiveimport/reconciliation_repository.go:154-180 | checks or chooses the derived upload of an entry without a task; two that fit are a conflict |
| ArchiveSql.MySQLRepository.AdoptTask | internal/archiveimport/reconciliation_repository.go:106-152 | the entry takes over an existing task, with its unfinished items |
| ArchiveSql.MySQLRepository.PrepareDeleteForUpload | internal/archiveimport/deletion_repository.go:18-98 | tombstones an import that is not at work; says whether there was nothing left to do, and otherwise plans exactly the orphaned derived uploads, each once |
| ArchiveSql.MySQLRepository.LoadDeletingPlan | internal/archiveimport/deletion_repository.go:100-131 | the same plan of a tombstoned import, read again after an interruption |
| ArchiveSql.MySQLRepository.FinalizeDeleteForUpload | internal/archiveimport/deletion_repository.go:133-213 | releases what is still held, deletes entries and batches, and marks the import deleted |
| ArchiveTransactions.PlanClears | internal/archiveimport/deletion_repository.go:133-165 | the final deletion succeeds if and only if every derived upload of the plan has been cancelled |
| ArchiveRepository.Tx.ReleaseBlob | internal/archiveimport/repository.go:1067-1103 | one reference fewer and deleting at zero; a conflict without references or when the blob is not available |
| ArchiveRepository.Tx.ReleaseEntryBlobs | internal/archiveimport/repository.go:977-1026 | the loop releases each reference once and never meets a conflict; the list holds exactly the blobs that fell to zero |
| ArchiveRepository.Tx.RetainPublishedBlob | internal/archiveimport/repository.go:763-830 | one reference more on the blob of a digest, creating or reviving its row; refuses a row of another size or key |
| ArchiveFiles.AvailableIsOnDisk | internal/archiveimport/storage.go:72-176 | over every interleaving of publishers, deleters, crashes and transactions, an available blob has its file on disk with that digest and size |
| ArchiveFiles.HeldIsOnDisk | internal/archiveimport/processor.go:220-231 | the file behind every unreleased entry is there |
| ArchiveFiles.MoveKeeps | internal/archiveimport/storage.go:282-358 | each step under the fence, and each transaction outside it, keeps rows and files in agreement |
| ArchiveFiles.MovesKeep | internal/blobfence/mysql.go:22-57 | so does any run of such steps from an empty system; one process at a time holds the fence of a digest |
| ArchiveFiles.OutsideQuiet | internal/archiveimport/repository.go:804-862 | no transaction outside the fence makes a blob available that was not |
| ArchiveFiles.FilesFollow | internal/archiveimport/storage.go:72-358 | what each step does to the file of each digest: linked, taken away, or left |
| ArchiveFiles.DeletedIsGone | internal/archiveimport/storage.go:309-358 | when a deleter marks its blob deleted the file is gone, and no blob of that digest is available |
| LoginLimiter.Limiter.BeginLoginAttempt | internal/auth/rate_limit_repository.go:22-197 | the whole effect of a begin: cleanup, window change, refusal or reservation |
| LoginLimiter.Limiter.Prune | internal/auth/rate_limit_repository.go:32-44 | deletes up to 64 stale rows, the longest unused first, and no other |
| LoginLimiter.Limiter.FinishLoginAttempt | internal/auth/rate_limit_repository.go:199-314 | the whole effect of a finish, and when it is an error |
| LoginLimiter.RetryAfter | internal/auth/rate_limit.go:99-105 | the wait is rounded up to whole seconds and is at least one |
| LoginLimiter.WindowsAccounted | internal/auth/rate_limit_repository.go:22-314 | in_flight_count is the number of outstanding attempts of the window, failures and in-flight stay within the threshold, and at the threshold nothing is in flight and the client is blocked |
| LoginLimiter.FailuresBounded | internal/auth/rate_limit_repository.go:199-314 | under any concurrency a window records at most Threshold failures |
| LoginLimiter.BlockEnds | internal/auth/rate_limit_repository.go:225-314 | a client is blocked if and only if its window has reached the threshold, and then for exactly the block duration from the failure that reached it |
| LoginRules.PolicyIff | internal/auth/rate_limit.go:25-33 | which policies are valid, in numbers |
| LoginRules.StaleIff | internal/auth/rate_limit_repository.go:32-44 | a row is stale when it was not updated for twice the longer of window and block |
| LoginRules.BeginFollows | internal/auth/rate_limit_repository.go:46-197 | begin, case by case in numbers of microseconds: which window counts, whether the attempt is refused or reserved, and the row it leaves |
| LoginRules.FinishFollows | internal/auth/rate_limit_repository.go:225-314 | finish, case by case: the same |
| LoginLimiter.WindowsIncrease | internal/auth/rate_limit_repository.go:352-374 | a window that replaces another begins strictly later, even across a cleanup |
| LoginLimiter.StaleFinishIsHarmless | internal/auth/rate_limit_repository.go:225-314 | a finish for an old window changes nothing of the current one |
| LoginLimiter.AdmittedIff | internal/auth/rate_limit_repository.go:46-197 | an attempt is admitted exactly when the client is not blocked and the window has room; the retry time is right |
| LoginLimiter.RunOk | internal/auth/rate_limit_repository.go:22-374 | the accounting holds along every possible run |
| CapacityGuard.CheckedArchiveBytes | internal/archiveimport/processor.go:283-288 | the overflow test by division agrees with the product over the integers |
| CapacityGuard.ArchiveStoragePlan | internal/archiveimport/processor.go:259-281 | the planned expansion is exactly min(MaxExpandedBytes, size*ratio) over the integers, refused exactly when it does not fit |
| CapacityGuard.Guard.ReservePlan | internal/archiveimport/capacity.go:48-122 | refused exactly when a probe fails, a charge overflows or a device would fall below its low-water mark; a refusal changes nothing, a grant adds its charges |
| CapacityGuard.Guard.Release | internal/archiveimport/capacity.go:112-121 | the first call gives everything back, later calls do nothing |
| CapacityGuard.ChargesAddUp | internal/archiveimport/capacity.go:79-98 | whatever devices the roots share, the charges of one plan add up to 3(S+E) |
| CapacityRules.ChargedApart | internal/archiveimport/capacity.go:63-98 | on five devices of their own the charges are S, E, S, E and S+E |
| CapacityRules.GrantedIff | internal/archiveimport/capacity.go:63-108 | granted if and only if all roots answer and on the device of each the free space covers the low-water mark, what is reserved and the sum of what its roots need |
| ModifiedUtf8.DecodeModifiedUTF8 | internal/bytecode/jvm_class.go:759-804 | the loop computes the decoding function, and refuses what it refuses |
| ModifiedUtf8.DecodeEncode | internal/bytecode/jvm_class.go:759-818 | every string of Unicode scalar values survives encoding and decoding |
| ModifiedUtf8.EncodeDecode | internal/bytecode/jvm_class.go:759-818 | an accepted byte string is the encoding of what it decodes to |
| ModifiedUtf8.AcceptedIff | internal/bytecode/jvm_class.go:759-818 | accepted are exactly the encodings |
| ModifiedUtf8.DecodedAsSpecified | internal/bytecode/jvm_class.go:759-818 | the decoder gives a string for exactly the bytes that spell it by section 4.4.7 of the Java Virtual Machine Specification, written out by character number |
| JvmDescriptors.ValidJVMInternalName | internal/bytecode/jvm_class.go:659-671 | accepts exactly the slash-separated names |
| JvmDescriptors.ParseJVMFieldType | internal/bytecode/jvm_class.go:718-757 | the position moves past exactly one type of at most 255 dimensions |
| JvmDescriptors.ValidJVMFieldDescriptor | internal/bytecode/jvm_class.go:692-695 | accepts exactly the printings of field types |
| JvmDescriptors.ValidJVMMethodDescriptor | internal/bytecode/jvm_class.go:697-716 | accepts exactly the printings of method types of at most 4096 bytes |
| JvmDescriptors.ParsePrint | internal/bytecode/jvm_class.go:718-757 | parsing the print of a type gives it back, whatever follows |
| JvmDescriptors.PrintParse | internal/bytecode/jvm_class.go:718-757 | what was parsed prints to what was read |
| JvmDescriptors.FieldTreeUnique | internal/bytecode/jvm_class.go:692-695 | a field descriptor has one tree |
| JvmDescriptors.MethodTreeUnique | internal/bytecode/jvm_class.go:697-716 | a method descriptor has one tree |
| JvmDescriptors.FieldAcceptedIff | internal/bytecode/jvm_class.go:692-757 | the field parser ends at the end of exactly the printed types |
| JvmDescriptors.MethodAcceptedIff | internal/bytecode/jvm_class.go:697-757 | and so for methods |
| JvmClassParser.ParseJVMClass | internal/bytecode/jvm_class.go:52-153 | accepts exactly the class files that obey the rules of chapter 4, written as it lays them out, to the last byte, and reports each Code range inside the payload, with the very bytes there, increasing and disjoint |
| JvmClassLayout.ParseSerialize | internal/bytecode/jvm_class.go:52-153 | serialising an abstract class file in the layout of section 4.1 of the Java Virtual Machine Specification and parsing it gives it back |
| JvmClassLayout.SerializeParse | internal/bytecode/jvm_class.go:52-153 | a byte string that parses is the serialisation of what it parses to |
| JvmClassParser.AcceptedIff | internal/bytecode/jvm_class.go:52-153 | a byte string is accepted exactly when it serialises a well-formed class file, by the layout down to the exception tables, and it does so for one only |
| JvmClassLayout.CodeIff | internal/bytecode/jvm_class.go:442-509 | the bytes of a Code attribute parse exactly when they are the layout of a code whose handlers and attributes are in order |
| JvmClassParser.ReadConstants | internal/bytecode/jvm_class.go:155-225 | the constant pool, with two slots for long and double |
| JvmClassParser.ValidatePool | internal/bytecode/jvm_class.go:227-298 | the pass over all entries agrees with the condition on the table of slots; PoolIff says what that is |
| JvmClassReference.PoolIff | internal/bytecode/jvm_class.go:227-352 | a pool passes if and only if each constant meets the condition of its own tag, on the constants themselves: what its indices lead to, and for a method handle version 51 and the reference that its kind asks for |
| JvmClassReference.ObeysIff | internal/bytecode/jvm_class.go:52-153 | the rules of chapter 4 and the conditions of the parser allow the same class files |
| JvmClassReference.WrittenIs | internal/bytecode/jvm_class.go:52-580 | and they are written byte for byte alike |
| JvmClassReference.ParsedByTheRules | internal/bytecode/jvm_class.go:52-153 | bytes parse to a class file if and only if the rules allow it and write it so |
| JvmClassParser.ReadAttribute | internal/bytecode/jvm_class.go:559-580 | an attribute and a reader nested in this one whose positions count from the start of the file |
| JvmClassParser.ParseCodeAttribute | internal/bytecode/jvm_class.go:442-509 | a Code attribute is consumed whole; its range lies in the file and holds the bytes that are hashed |
| JvmClassParser.ReadMethodAttributes | internal/bytecode/jvm_class.go:411-434 | at most one Code attribute |
| JvmClassParser.ParseMethodAt | internal/bytecode/jvm_class.go:381-440 | a method lacks Code exactly when it is abstract or native |
| JvmClassParser.ReadMethods | internal/bytecode/jvm_class.go:118-135 | ranges of successive methods are in order and no signature comes twice |
| JvmClassParser.ReadClassAttributes | internal/bytecode/jvm_class.go:511-544 | at most one SourceFile, and what it says |
| JvmClassParser.SignatureSplits | internal/bytecode/jvm_class.go:129-133 | the map key of a method tells name and descriptor apart |
| ZipPreflight.PreflightZIP | internal/bytecode/jvm_archive.go:753-802 | accepted exactly when the last end record can be read, places the directory, and the directory splits into the declared number of records within the limit |
| ZipLayout.AcceptedIff | internal/bytecode/jvm_archive.go:753-1001 | the same by the positions of the fields of the end record, the ZIP64 record, its locator and the directory headers |
| ZipPreflight.ScanDirectory | internal/bytecode/jvm_archive.go:934-979 | the scan of the region, by record, with its three outcomes |
| ZipPreflight.ScanCounts | internal/bytecode/jvm_archive.go:934-979 | the scan counts n exactly when the region splits into n well-formed records (section 4.3.12 of the PKWARE APPNOTE) within the limit |
| ZipPreflight.SplitUnique | internal/bytecode/jvm_archive.go:934-979 | there is at most one such split |
| ZipPreflight.FindEnd | internal/bytecode/jvm_archive.go:809-836 | the search from the end finds the last record (section 4.3.16) whose comment reaches the end of the file |
| ZipPreflight.ReadZIPEnd | internal/bytecode/jvm_archive.go:804-865 | what the last end record says, or refers to, and a refusal if there is none |
| ZipPreflight.ReadZIP64End | internal/bytecode/jvm_archive.go:867-932 | the ZIP64 record before its locator (sections 4.3.14 and 4.3.15), agreeing with the plain record where that is not saturated |
| ZipPreflight.DirectoryPlaced | internal/bytecode/jvm_archive.go:769-779 | acceptance gives base + offset + size = directory end, without a 64-bit wrap |
| ZipPreflight.PlainAccepted | internal/bytecode/jvm_archive.go:753-865 | without a ZIP64 locator a file is accepted if and only if its plain record is sound and its directory size is not 65535, its records are not 65535 and its offset is not 2^32-1 |
| ZipPreflight.LocatorAccepted | internal/bytecode/jvm_archive.go:838-932 | with a locator: accepted if and only if the ZIP64 record is sound and agrees with the plain one, where a size of 65535 counts as saturated; or, when none of the three fields is read as saturated, the plain record is sound |
| ZipPreflight.Zip64Accepted | internal/bytecode/jvm_archive.go:848-932 | a sound ZIP64 file whose plain record agrees where it is not saturated is accepted if and only if the code notices the saturation: by the records, by the offset, or by a size of 65535 |
| ZipPreflight.PlainFileAccepted | internal/bytecode/jvm_archive.go:753-865 | of the plain files with nothing before their directory, all sound, those with a directory of 65535 bytes are refused and all others accepted |
| ZipPreflight.DirectoryOf65535 | internal/bytecode/jvm_archive.go:848-864 | one of them: a sound file with one record of 65535 bytes, refused |
| ZipPreflight.SizeOnlyRefused | internal/bytecode/jvm_archive.go:848-864 | a sound ZIP64 file that saturates nothing but the size, to 2^32-1, is refused, whatever its directory |
| JvmArchiveEntries.ExceedsProduct | internal/bytecode/jvm_archive.go:655-665 | the ratio test by quotient and remainder compares with the product over the integers |
| JvmArchiveEntries.ReleasePathIff | internal/bytecode/jvm_archive.go:667-691 | a name is read as release r of a path if and only if r lies in 9 to 999, the path is a clean class name, and the text between is the decimal r or a plus sign, any zeros and the decimal r |
| JvmArchiveEntries.CanonicalRelease | internal/bytecode/jvm_archive.go:667-691 | such a name is the canonical one for r if and only if the text has no sign |
| JvmArchiveEntries.SignedNine | internal/bytecode/jvm_archive.go:667-691 | three names of release 9: 9, +9 and +09 |
| JvmArchiveRules.EntryAllowedIff | internal/bytecode/jvm_archive.go:617-653 | the entry names that are accepted: relative, with ordinary characters, no empty component, dot or double dot, no drive, and nothing encrypted, linked or special |
| JvmArchiveRules.ArchiveNameIff | internal/bytecode/jvm_archive.go:408-413 | a nested archive is a name that ends in .jar, .war or .ear in any case |
| PathNames.CleanIff | internal/bytecode/jvm_archive.go:633-646 | the shape that is checked for is that of a path that path.Clean leaves as it is |
| JvmArchiveRules.JoinIff | internal/bytecode/jvm_archive.go:432-446 | a joined path is its components, exclamation marks doubled, with !/ between them, of 1 to 8192 bytes |
| JvmArchiveEntries.JoinedInjective | internal/bytecode/jvm_archive.go:432-446 | the join with doubled exclamation marks names one list of components |
| Texts.PrefixedInjective | internal/bytecode/jvm_archive.go:422-430 | the length-prefixed encoding names one list of segments |
| JvmArchiveWalk.Select | internal/bytecode/jvm_archive.go:354-387 | the loop keeps, for each path, the first entry with the highest admissible release; it gives up on a class that is too large; the nested archives are listed in order |
| JvmArchiveRules.PickedIff | internal/bytecode/jvm_archive.go:352-387 | an entry is chosen for a path if and only if it is the first of those with the highest release that counts: r for a name of release r of that path, 9 <= r <= target, in a multi-release archive; 0 for the path itself, if it ends in .class and is no versioned name |
| JvmArchiveRules.CondemnedIff | internal/bytecode/jvm_archive.go:259-351 | an archive is condemned if and only if it is no ZIP file, has a name that is not allowed or twice, or a manifest that cannot be read |
| JvmArchiveRules.TooLargeIff | internal/bytecode/jvm_archive.go:259-387 | too large: by entries, bytes, the ratio to the root, a file, a manifest or a class |
| JvmArchiveRules.ReasonIff | internal/bytecode/jvm_archive.go:168-246 | what is said of an archive that was not visited: too deep, unreadable or condemned, with code and message |
| JvmArchiveWalk.SelectionIsPicked | internal/bytecode/jvm_archive.go:352-387 | the map holds exactly the chosen classes |
| JvmArchiveWalk.ScanEntries | internal/bytecode/jvm_archive.go:294-326 | names, duplicates, sizes and ratios against the budget that is left |
| JvmArchiveWalk.Walker.Pay | internal/bytecode/jvm_archive.go:268-335 | records and bytes are taken from the one budget, which is never overdrawn |
| JvmArchiveWalk.Walker.Inspect | internal/bytecode/jvm_archive.go:259-406 | condemned, too large, or exactly the chosen classes and the nested archives; a broken archive is charged for its records if the ZIP reader is the one to refuse it |
| JvmArchiveWalk.Walker.ListPicks | internal/bytecode/jvm_archive.go:161-198 | every chosen class becomes one candidate behind its ancestry |
| JvmArchiveWalk.Walker.Walk | internal/bytecode/jvm_archive.go:147-250 | the walk terminates within MaxArchiveDepth; all it lists lies behind its ancestry; every chosen class of every visited archive is listed, every nested archive is visited or a failure; a condemned archive lists nothing; the limit is reached only if what was spent and all the archives inside hold exceed the budget, or one of them breaks a limit of its own or has too long a path |
| JvmArchiveWalk.Walker.WalkNested | internal/bytecode/jvm_archive.go:199-249 | why a nested archive was not visited: depth, bytes, or condemned; and why the whole walk is given up in it |
| JvmArchiveWalk.IdentitiesApart | internal/bytecode/jvm_archive.go:172-205 | all candidate and failure identities of a walk are pairwise distinct |
| JvmArchiveWalk.EnumerateNested | internal/bytecode/jvm_archive.go:113-145 | entries and bytes of all visited archives stay within the budget and the root ratio; only the root and archives inside visited ones are visited, and each failure has its cause in one; the identities are distinct after sorting, and it gives up only where the archives it holds give the reason |
| JvmArchiveWalk.EnumerateOne | internal/bytecode/jvm_archive.go:92-111 | a JAR alone: exactly its chosen classes, with distinct identities; refused only if condemned, and given up only where it is too large |
| BytecodeValidator.ValidateOutput | internal/bytecode/contract.go:389-511 | accepts exactly the outputs that keep the contract: unique keys, symmetric links, complete chunk sets, bounded bytes, status consistent with classes and errors |
| ContractRules.ContractIff | internal/bytecode/contract.go:389-828 | the contract clause by clause over the positions of classes, methods, artifacts and errors |
| BytecodeValidator.ValidateArtifactMetadata | internal/bytecode/contract.go:513-582 | accepts exactly when IDs and paths are unique, the bytes add up without overflow within the limit, and every chunk set has exactly the indices 0 to count-1 |
| BytecodeValidator.AllFull | internal/bytecode/contract.go:576-580 | counting the seen indices decides completeness |
| BytecodeContract.ValidateClasses | internal/bytecode/contract.go:416-436 | shapes, unique class keys, unique method keys across classes and the method limit |
| BytecodeContract.ContainsSorted | internal/bytecode/contract.go:830-833 | binary search finds exactly the members |
| BytecodeValidator.ValidateClassErrors | internal/bytecode/contract.go:616-636 | known classes, well-formed codes and messages, no error twice; the counts say which classes have one |
| BytecodeValidator.LinkClasses | internal/bytecode/contract.go:437-463 | every artifact a class names names it back, and source and bytecode classes have their evidence |
| BytecodeValidator.LinkArtifacts | internal/bytecode/contract.go:464-471 | every class an artifact names names it back |
| BytecodeNormalization.Normalize | internal/bytecode/contract.go:675-753 | sorts every list and changes nothing else |
| ContractRules.OrderIff | internal/bytecode/contract.go:694-745 | the order of each list of a normal form, character by character |
| BytecodeNormalization.OneNormalForm | internal/bytecode/contract.go:675-753 | two sorted outputs with the same contents and distinct keys are equal, whatever sort was used |
| BytecodeNormalization.OrderIsForgotten | internal/bytecode/contract.go:75-189 | permuting an output changes neither the verdict nor the accepted result |
| BytecodeNormalization.NormalizeTwice | internal/bytecode/contract.go:675-753 | normalising an accepted output again changes nothing |
| BytecodeNormalization.PrevalidationIsImplied | internal/bytecode/contract.go:335-387 | the first validation refuses nothing that the second accepts |
| BytecodeNormalization.Accept | internal/bytecode/contract.go:134-182 | a result is given exactly when a normal form of the output keeps the contract, and is that form |
| BytecodeRearrangement.ContractStays | internal/bytecode/contract.go:389-511 | the contract is kept in any order of classes, methods, artifacts, errors and warnings |
| BytecodeRearrangement.NormalFormKeepsContract | internal/bytecode/contract.go:675-753 | an output that keeps the contract as listed keeps it in every normal form |
| JvmEngine.Run | internal/bytecode/jvm_engine.go:109-288 | the engine always meets its contract: for every input on which it returns an output, with normalised limits, accepted index artifacts and no hash collision among the strings hashed in the run, the output passes validateOutput, as listed and in every normal form; it returns none only if the input is rejected or what it offers exceeds a limit |
| JvmEngine.Decompile | internal/bytecode/jvm_engine.go:143-254 | every failure and every candidate becomes one class, in order, with its error or its index artifact; no output only for an empty input or when what was listed so far is over a limit |
| JvmEngine.OutputKeepsContract | internal/bytecode/jvm_engine.go:143-254 | the same for any list of units that are apart, within the limits |
| JvmEngine.Candidates | internal/bytecode/jvm_engine.go:256-288 | exactly the candidates of a class file, a JAR, or a WAR or EAR, with distinct identities; refused only for a class that is too large or an archive that is condemned or too much |
| JvmEngine.Listing.AppendIndexed | internal/bytecode/jvm_engine.go:198-240 | a parsed class and its index artifact, or one of three limits |
| JvmEngine.BuildClassIndex | internal/bytecode/jvm_engine.go:394-445 | the class entry with a key, range and qualified name for each method; OutputTells says what they are |
| JvmListing.OutputTells | internal/bytecode/jvm_engine.go:109-445 | for every output: each candidate is one class, in order; if its payload is a class file, it has that name, source file and methods, a method has a range if and only if it has code, the payload holds that code there, and the ranges increase and are disjoint; if not, it has the error and a name by its path; each failure of an archive has its code and message |
| JvmListing.NamedByPath | internal/bytecode/jvm_engine.go:457-471 | that name is the path without the directory of a web application, with periods for slashes |
| JvmListing.MessageKept | internal/bytecode/jvm_engine.go:473-479 | a message that is text is reported as it is |
| JvmEngine.MethodKeysTell | internal/bytecode/jvm_engine.go:417-420 | method keys tell methods apart, in one class and across classes |
| JvmEngine.ArtifactsFit | internal/bytecode/jvm_engine.go:590-671 | the index artifacts have distinct IDs and paths, singleton chunk sets and honest sizes |
| JvmIndex.KeysApart | internal/bytecode/jvm_engine.go:447-455 | class and module keys tell units apart, unless hashed strings collide |
| JvmIndex.ParsedFits | internal/bytecode/jvm_engine.go:394-445 | whatever the class-file parser accepts has names, descriptors, source file and signatures that fit the contract |
| JvmIndex.ClassForShape | internal/bytecode/jvm_engine.go:340-445 | every listed class has the shape the contract asks for |
| PycMarshal.ParseMarshal | internal/bytecode/pyc_marshal.go:89-110 | accepted if and only if the payload keeps the rules of PycAcceptance, which is if and only if the bytes after the header are one code record, with nothing behind it, that keeps every limit; the result is the graph of that record, whose references lead to objects in it, whose objects, code objects, string bytes and bytecode stay within the budgets, and whose code objects are valid unless a name tuple encloses them |
| PycAcceptance.AcceptsIff | internal/bytecode/pyc_marshal.go:89-110 | reading step by step accepts exactly the payloads that are one code record whose depth, lengths, references and code objects keep the rules, told at one go, and gives that graph |
| PycPlaces.CodePositions | internal/bytecode/pyc_marshal.go:215-298 | by positions in the payload: behind the kind of a code record stand args, positional-only, keyword-only, locals, stack size and flags, four bytes each; the number of locals is the length of the tuple of variable names |
| PycLayout.WrittenIs | internal/bytecode/pyc_marshal.go:112-263 | the bytes of every kind of record with each place written out: sizes, counts and the order of fields |
| PycLayout.AllowedIff | internal/bytecode/pyc_marshal.go:112-213 | which contents each kind of record can have |
| PycLayout.CodeRuleIff | internal/bytecode/pyc_marshal.go:265-298 | what a code object has to satisfy, by the places of its fields |
| PycPreorder.Graphed | internal/bytecode/pyc_marshal.go:112-213 | the objects of the graph are the records in the order in which they begin, the table of references the flagged ones in that order, and each object leads to the objects of its children |
| PycMoments.SoundIff | internal/bytecode/pyc_marshal.go:112-298 | what reading demands of a record step by step is a bound on its depth, lengths and references, and the rule for each code object in the graph as it was at its moment |
| Utf8Text.ValidIff | internal/bytecode/pyc_marshal.go:478-481 | the check of text accepts exactly UTF-8 (section 3 of RFC 3629) |
| PycMeaning.OneReading | internal/bytecode/pyc_marshal.go:112-213 | no byte string begins with two different records |
| PycMeaning.AcceptedMeans | internal/bytecode/pyc_marshal.go:89-110 | an accepted payload has one reading; in its graph a code object meets the validation if and only if no name tuple of it encloses it |
| PycMeaning.ValidInTheEnd | internal/bytecode/pyc_marshal.go:265-298 | the same for any graph whose code objects were validated in the state in which they were read |
| PycCircular.AcceptedAndInvalid | internal/bytecode/pyc_marshal.go:148-152 | every payload of this form, a code object inside the tuple of its own names, is accepted, while that code object fails the validation in the finished graph |
| PycCircular.CircularAccepted | internal/bytecode/pyc_marshal.go:148-152 | the exhibited payload: accepted under any limits that leave room for it, and object 4 of its graph is a code object that fails the validation |
| PycMarshal.Parser.ReadObject | internal/bytecode/pyc_marshal.go:112-213 | reads exactly one record that is good at this state, to its last byte, and leaves position, budgets, references and graph as that record makes them; accepts every good record; terminates by depth |
| PycMarshal.Parser.ReadReference | internal/bytecode/pyc_marshal.go:129-141 | a reference gives the object that the table holds under an index within it |
| PycMarshal.Parser.ReadRecord | internal/bytecode/pyc_marshal.go:141-213 | the object is entered, and flagged for reference, before its contents are read |
| PycMarshal.Parser.ReadLeaf | internal/bytecode/pyc_marshal.go:154-185 | numbers and strings: the bytes taken, the text kept with its offset, ASCII where the kind says so, and the charge to the scalar budget |
| PycMarshal.Parser.ReadContainer | internal/bytecode/pyc_marshal.go:186-197 | a count within the limit and as many items, none of them null |
| PycMarshal.Parser.ReadItems | internal/bytecode/pyc_marshal.go:300-320 | the items are good records one after the other, none of them null, within the limits |
| PycMarshal.Parser.ReadTrees | internal/bytecode/pyc_marshal.go:305-318 | any number of records one after the other, each good in the state that the last one left |
| PycMarshal.Parser.ReadDictionary | internal/bytecode/pyc_marshal.go:322-346 | pairs of keys and values, none of them null, up to the null record that ends it |
| PycMarshal.Parser.ReadCodeObject | internal/bytecode/pyc_marshal.go:215-263 | the record of a code object, its validation in the graph read so far, and the charge for its bytecode |
| PycMarshal.Parser.ReadCodeFields | internal/bytecode/pyc_marshal.go:215-254 | six numbers, eight objects, a line, a table, in this order; CodePositions says where |
| PycMarshal.Parser.ReadLongBlob | internal/bytecode/pyc_marshal.go:359-368 | succeeds exactly for a length that is not negative, within the budget and within the payload; gives those bytes and charges them |
| PycMarshal.Parser.ReadShortBlob | internal/bytecode/pyc_marshal.go:370-376 | the same for a length of one byte |
| PycMarshal.Parser.SkipLongInteger | internal/bytecode/pyc_marshal.go:401-416 | succeeds exactly for at most MaxContainerItems digits of either sign that fit the budget and the payload; two bytes each |
| SandboxPreflight.ParseListing | internal/archivesandbox/server.go:515-592 | a listing is accepted exactly when it can be split, every block describes a member, paths are unique and the limits hold; the manifest is those members in order |
| SandboxRules.ListingIff | internal/archivesandbox/server.go:515-592 | the same by lines: which blocks there are, and that every one makes a member within the limits |
| SandboxRules.ReadIff | internal/archivesandbox/server.go:535-582 | which lines of a block make a member, and which one |
| Splitting.SplitIff | internal/archivesandbox/server.go:515-540 | splitting cuts at each next first occurrence of the separator |
| SandboxPreflight.ValidateOutput | internal/archivesandbox/server.go:610-657 | accepts exactly the trees whose files are the listed ones with their sizes and whose directories are accounted for |
| SandboxRules.TreeIff | internal/archivesandbox/server.go:610-657 | the same by paths: every file is a listed one with its size, every listed one is there, and every directory is listed or above a listed member |
| SandboxPreflight.OutputWithinLimits | internal/archivesandbox/server.go:515-657 | after both checks the files on disk are exactly the listed non-directory members with the same sizes, every directory is listed or leads to a listed member, and number, each size and the total respect the request |
| SandboxPreflight.DirectoriesAccounted | internal/archivesandbox/server.go:614-647 | a directory is accepted exactly when it is listed or leads to a listed file |
| SandboxPreflight.AncestorsArePrefixes | internal/archivesandbox/server.go:622-624 | a directory leads to a path if and only if it is one of its beginnings before a slash |
| SandboxPreflight.ListedBounds | internal/archivesandbox/server.go:583-589 | the listed files are no more and no larger than the members |

## Left out

- SHA-256 is never computed. In the archive walk and the class parser the bytes stand for
  their hash; for the engine it is a function of which only the form of its values is
  assumed, and no collision among the strings hashed in the run; for files it is a function
  from bytes to digests.
- The JSON text of an index record is a function of the record; assumed is only that it is
  not empty and tells class keys apart. The message of the class parser for bytes it
  refuses is a function too.
- Strings are sequences of Unicode scalar values, so text that is not valid UTF-8 does not
  arise and the tests for it are not modelled, except in the marshal reader, which works on
  bytes.
- I/O errors, contexts, deadlines and temporary files of the engine and of the archive
  walk; a run that such an error ends returns no output. The spool is modelled by the bytes
  it holds.
- The ZIP library: an archive is the list of entries it reports, an entry the bytes that
  reading it gives; that the library and the preflight count the same records is checked by
  the code and part of what the list stands for.
- In the archive walk an archive is its list of entries, or it is broken and only the number
  of its records is known and whether they were counted. A central directory
  over 64 MB, which ends the whole run, is part of `ZipPreflight` only.
- jvmManifestIsMultiRelease: what a manifest says is a field of its entry.
- Sorting: the library's sorts are not modelled; results are stated for every way to sort.
- Map iteration order is arbitrary wherever the code ranges over a map.
- Uploads, intake profiles, derived uploads and tasks of the saga are reduced to the columns
  its queries read; the services that create them are steps that keep their unique keys.
- Other holders of blobs are counted per blob and follow the same rules of retaining and
  releasing, under the same fence.
- The isolation level: a transaction is one step.
- A fence lasts until the operation ends; a dropped connection that frees the named lock
  while its holder goes on is not modelled.
- Error codes, messages, snapshots of limits, actors' roles and time stamps that nothing
  reads.
- CompleteTerminalBatches, ListRecoverableBatches, RecoverDeleting, deferExpiredRecovery and
  the two loops over entries to reconcile: repetitions of the modelled transactions, or
  updates of `updated_at` only.
- The two passes of validateOutput over the classes are one loop in the source.
- ArchiveSql.MySQLRepository.Ensure: does not model the read of the stored row that follows
  the insert, because it returns what was written.
- LoginLimiter.Limiter.FinishLoginAttempt: a second finish of one attempt is excluded from
  runs, because the login service finishes each attempt once.
- PycMarshal.ParseMarshal: does not say which of its two errors, malformed or over a limit,
  a refused payload gets; the bytes of a number are kept in its record but not as a value,
  because the reader skips them.
- JvmArchiveWalk.EnumerateOne: entry paths of a JAR are its own names; only nested archives
  join paths, so the limit on joined paths is not part of it.
- SandboxPreflight.ParseListing: lines and fields are split by functions on strings; the
  round trip from members to a listing is not stated, because the listing is written by
  another program.
- Landlock, seccomp, rlimits, process groups, sockets, inode and symlink checks.
- HTTP handlers, sessions, cookies, audit records, pagination and the analysis services.
