/** What the rules come to for work that fails: a retry within the budget puts the item back
    and leaves it claimable, and nothing but a refusal to retry gives an item up early. */
module ArchiveOutcomes {
  import opened Counting
  import opened ArchiveDb
  import opened ArchiveTransactions
  import opened ArchiveBatchSteps
  import opened ArchiveRuns
  import opened ArchiveProgress
  import opened ArchiveRules
  import opened ArchiveItemRule
  import opened ArchiveImportRule
  import Sql = ArchiveSql

  /** A failure that asks for a retry while attempts are left: the item waits again, without a
      holder and with its attempts as they were; its batch cannot be completed, and whoever
      claims it next gets it. */
  lemma RetryComesBack(evs: seq<Event>, w: Work, owner: Owner, duration: nat)
    requires var d := Run(Start(), evs); var k := (w.batch, w.entry);
      AtWork(d, w) && d.items[k].attempt < d.items[k].maxAttempts
    ensures var d := Run(Start(), evs); var k := (w.batch, w.entry); var n := Next(d, FailWork(w, true));
      && Look(n.items, k) == Some(d.items[k].(outcome := Pending, hold := None))
      && w.batch in d.batches && !d.batches[w.batch].completed
      && Look(Next(n, Finish(w.batch)).batches, w.batch) == Look(d.batches, w.batch)
      && var m := Next(n, ClaimWork(w.batch, Some(w.entry), owner, duration));
         Look(m.items, k) ==
           Some(d.items[k].(outcome := Processing, attempt := d.items[k].attempt + 1, fence := d.items[k].fence + 1,
                            hold := Some(Hold(owner, d.now + duration))))
  {
    hide Inv, Run, Start, Next, AtWork, UploadsOnFile;
    StartOk();
    RunKeeps(Start(), evs);
    StartOnFile();
    UploadsStay(Start(), evs);
    RetriedStep(Run(Start(), evs), w, owner, duration);
  }

  lemma RetriedStep(d: Db, w: Work, owner: Owner, duration: nat)
    requires Inv(d) && UploadsOnFile(d) && AtWork(d, w)
    requires d.items[(w.batch, w.entry)].attempt < d.items[(w.batch, w.entry)].maxAttempts
    ensures var k := (w.batch, w.entry); var n := Next(d, FailWork(w, true));
      && Look(n.items, k) == Some(d.items[k].(outcome := Pending, hold := None))
      && w.batch in d.batches && !d.batches[w.batch].completed
      && Look(Next(n, Finish(w.batch)).batches, w.batch) == Look(d.batches, w.batch)
      && var m := Next(n, ClaimWork(w.batch, Some(w.entry), owner, duration));
         Look(m.items, k) ==
           Some(d.items[k].(outcome := Processing, attempt := d.items[k].attempt + 1, fence := d.items[k].fence + 1,
                            hold := Some(Hold(owner, d.now + duration))))
  {
    hide Inv, UploadsOnFile, AtWork, Next, BatchRule, ItemRule, Takeable;
    var k, n := (w.batch, w.entry), Next(d, FailWork(w, true));
    ItemsFollow(d, FailWork(w, true), k);
    RetriedItem(d, w, Look(n.items, k));
    OnFile(d, w, n);
    NextKeeps(d, FailWork(w, true));
    BatchesFollow(n, Finish(w.batch), w.batch);
    StaysOpen(n, w.batch, k, Look(Next(n, Finish(w.batch)).batches, w.batch));
    var claim := ClaimWork(w.batch, Some(w.entry), owner, duration);
    ItemsFollow(n, claim, k);
    TakenNow(n, k, owner, duration, Look(Next(n, claim).items, k));
  }

  lemma RetriedItem(d: Db, w: Work, next: Option<Item>)
    requires AtWork(d, w) && d.items[(w.batch, w.entry)].attempt < d.items[(w.batch, w.entry)].maxAttempts
    requires ItemRule(d, FailWork(w, true), (w.batch, w.entry), next)
    ensures next == Some(d.items[(w.batch, w.entry)].(outcome := Pending, hold := None))
  {}

  /** Failing an item touches neither its batch nor what a worker has to know. */
  lemma OnFile(d: Db, w: Work, n: Db)
    requires Inv(d) && UploadsOnFile(d) && AtWork(d, w) && n == Next(d, FailWork(w, true))
    requires d.items[(w.batch, w.entry)].attempt < d.items[(w.batch, w.entry)].maxAttempts
    requires Look(n.items, (w.batch, w.entry)) == Some(d.items[(w.batch, w.entry)].(outcome := Pending, hold := None))
    ensures n.batches == d.batches && w.batch in d.batches && !d.batches[w.batch].completed && n.now == d.now
    ensures Takeable(n, (w.batch, w.entry))
  {
    hide Inv;
    ItemRow(d, (w.batch, w.entry));
    EntryRow(d, w.entry);
  }

  lemma StaysOpen(n: Db, b: BatchId, k: ItemKey, next: Option<Batch>)
    requires k.0 == b && k in n.items && n.items[k].outcome == Pending && BatchRule(n, Finish(b), b, next)
    ensures next == Look(n.batches, b)
  {}

  lemma TakenNow(n: Db, k: ItemKey, owner: Owner, duration: nat, next: Option<Item>)
    requires Takeable(n, k) && ItemRule(n, ClaimWork(k.0, Some(k.1), owner, duration), k, next)
    ensures next == Some(Item(n.items[k].ordinal, Processing, n.items[k].attempt + 1, n.items[k].maxAttempts,
                              n.items[k].fence + 1, Some(Hold(owner, n.now + duration)), n.items[k].task))
  {}

  /** Any other failure of live work ends the item. */
  lemma FailureEnds(evs: seq<Event>, w: Work, retry: bool)
    requires var d := Run(Start(), evs); var k := (w.batch, w.entry);
      AtWork(d, w) && (!retry || d.items[k].attempt >= d.items[k].maxAttempts)
    ensures var d := Run(Start(), evs); var k := (w.batch, w.entry);
      Look(Next(d, FailWork(w, retry)).items, k) == Some(d.items[k].(outcome := ItemFailed, hold := None))
  {
    hide Inv, Run, Start, Next;
    StartOk();
    RunKeeps(Start(), evs);
    ItemsFollow(Run(Start(), evs), FailWork(w, retry), (w.batch, w.entry));
  }

  // ---------------------------------------------------------------- giving up early

  /** At this point of the run a worker that held the item failed it without asking for a retry. */
  ghost predicate RefusedAt(evs: seq<Event>, j: nat, k: ItemKey)
    requires j < |evs|
  {
    evs[j].FailWork? && !evs[j].retry && (evs[j].work.batch, evs[j].work.entry) == k &&
    AtWork(Run(Start(), evs[..j]), evs[j].work)
  }

  /** In any run, an item that has failed with attempts left was failed by a worker that asked
      for no retry: neither a retry, nor an expired lease, nor a crash gives it up. */
  lemma {:induction false} GivenUpOnRefusal(evs: seq<Event>, k: ItemKey)
    requires var d := Run(Start(), evs);
      k in d.items && d.items[k].outcome == ItemFailed && d.items[k].attempt < d.items[k].maxAttempts
    ensures exists j | 0 <= j < |evs| :: RefusedAt(evs, j, k)
    decreases |evs|
  {
    hide Inv, Next, ItemRule, AtWork;
    if evs == [] { NothingAtStart(k); return; }
    var front, ev := evs[..|evs| - 1], evs[|evs| - 1];
    var d := Run(Start(), front);
    StartOk();
    RunKeeps(Start(), front);
    ItemsFollow(d, ev, k);
    if Enabled(d, ev) { FailedBefore(d, ev, k, Look(Next(d, ev).items, k)); }
    if k in d.items && d.items[k].outcome == ItemFailed && d.items[k].attempt < d.items[k].maxAttempts {
      GivenUpOnRefusal(front, k);
      var j :| 0 <= j < |front| && RefusedAt(front, j, k);
      assert evs[..j] == front[..j] && evs[j] == front[j];
      assert RefusedAt(evs, j, k);
    } else {
      assert evs[..|evs| - 1] == front;
      assert RefusedAt(evs, |evs| - 1, k);
    }
  }

  lemma NothingAtStart(k: ItemKey) ensures k !in Run(Start(), []).items {}

  lemma FailedBefore(d: Db, ev: Event, k: ItemKey, next: Option<Item>)
    requires ItemRule(d, ev, k, next)
    requires next.Some? && next.value.outcome == ItemFailed && next.value.attempt < next.value.maxAttempts
    ensures
      || (k in d.items && d.items[k].outcome == ItemFailed && d.items[k].attempt < d.items[k].maxAttempts)
      || (ev.FailWork? && !ev.retry && (ev.work.batch, ev.work.entry) == k && AtWork(d, ev.work))
  {
    hide Adoptable, Bindable, Erasable, Opens, Leased, Takeable;
  }

  // ---------------------------------------------------------------- what a claim hands out

  /** The lease of a claimed import names the fence and the attempt that its row has now. */
  lemma LeaseHandedOut(d: Db, id: ImportId, owner: Owner, duration: nat)
    ensures Next(d, ClaimImport(id, owner, duration)).leases ==
      if Due(d, id) && Idle(d)
      then d.leases + {Lease(id, owner, d.imports[id].fence + 1, d.imports[id].attempt + 1, d.imports[id].maxAttempts)}
      else d.leases
  {
    hide Due, Claimable, Idle, GateBusy;
    DueIff(d, id);
    IdleIff(d);
    if Due(d, id) { DueRow(d, id); }
  }

  /** And the work of a claimed item its new fence, with all that identifies the member. */
  lemma WorkHandedOut(d: Db, b: BatchId, e: EntryId, owner: Owner, duration: nat)
    requires Takeable(d, (b, e))
    ensures Next(d, ClaimWork(b, Some(e), owner, duration)).works ==
      var a := d.entries[e].archive; var i := d.imports[a];
      d.works + {Work(b, e, a, Provenance(i.upload, d.uploads[i.upload].displayName, i.createdBy, d.entries[e].member,
                                          d.entries[e].blob.value), owner, d.items[(b, e)].fence + 1)}
  {
    hide Exhausted, ItemClaimable;
    TakeableIff(d, (b, e));
    Unswept(d, b, e);
  }

  lemma Unswept(d: Db, b: BatchId, e: EntryId)
    requires Takeable(d, (b, e))
    ensures var s := FailExhausted(d, b);
      && (b, e) in s.items && s.items[(b, e)] == d.items[(b, e)] && e in s.entries
      && s.entries[e].archive == d.entries[e].archive && s.entries[e].member == d.entries[e].member
      && s.entries[e].blob == d.entries[e].blob && s.imports == d.imports && s.uploads == d.uploads && s.works == d.works
  {}

  /** The import that is claimed is the one that was due first, by time and then by its number,
      of those that nobody else is looking at. */
  lemma FirstImportIff(d: Db, id: ImportId, locked: set<ImportId>)
    ensures Sql.FirstInLine(d, id, locked) <==>
      && id !in locked && Due(d, id)
      && forall j | j !in locked && Due(d, j) ::
           || d.imports[id].availableAt < d.imports[j].availableAt
           || (d.imports[id].availableAt == d.imports[j].availableAt && id <= j)
  {
    hide Due, Claimable;
    forall j ensures Due(d, j) <==> Claimable(d, j) { DueIff(d, j); }
    forall j | Due(d, j) ensures j in d.imports { DueRow(d, j); }
  }

  /** An item of an open batch that waits, or whose attempt ran out, with attempts left. */
  predicate Waits(d: Db, k: ItemKey) {
    && k in d.items && k.0 in d.batches && !d.batches[k.0].completed
    && (d.items[k].outcome == Pending || (d.items[k].outcome == Processing && RunOut(d, d.items[k].hold)))
    && d.items[k].attempt < d.items[k].maxAttempts
  }

  lemma WaitsIff(d: Db, k: ItemKey)
    ensures ItemClaimable(FailExhausted(d, k.0), k) <==> Waits(d, k)
    ensures k in FailExhausted(d, k.0).items <==> k in d.items
    ensures k in d.items ==> FailExhausted(d, k.0).items[k].ordinal == d.items[k].ordinal
  {}

  /** The item that is claimed is the first of its batch, by its place in the request, of those
      that wait and that nobody else is looking at. */
  lemma FirstItemIff(d: Db, k: ItemKey, locked: set<ItemKey>)
    ensures Sql.FirstItem(FailExhausted(d, k.0), k, locked) <==>
      && k !in locked && Waits(d, k)
      && forall l: ItemKey | l.0 == k.0 && l !in locked && Waits(d, l) :: d.items[k].ordinal <= d.items[l].ordinal
  {
    hide Waits, ItemClaimable, FailExhausted;
    forall l: ItemKey | l.0 == k.0
      ensures ItemClaimable(FailExhausted(d, k.0), l) <==> Waits(d, l)
      ensures l in FailExhausted(d, k.0).items <==> l in d.items
      ensures l in d.items ==> FailExhausted(d, k.0).items[l].ordinal == d.items[l].ordinal
    {
      WaitsIff(d, l);
    }
    forall l | Waits(d, l) ensures l in d.items { WaitsRow(d, l); }
  }

  lemma WaitsRow(d: Db, k: ItemKey)
    requires Waits(d, k)
    ensures k in d.items
  {}
}
