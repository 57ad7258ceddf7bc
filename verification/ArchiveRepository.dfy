/** The repository itself: transactions that read and write rows one statement at a
    time, with the loops and early returns of the code. Each is proved to commit
    exactly what its specification function says, to report exactly its error, and to
    leave the database as it was when it rolls back. */
module ArchiveRepository {
  import opened Counting
  import opened ArchiveDb
  import opened ArchiveTransactions
  import opened ArchiveInvariant

  // ---------------------------------------------------------------- released blobs

  /** The last reference to `b` went between two states of the blob table. */
  ghost predicate Freed(before: Blobs, after: Blobs, b: BlobId) {
    b in before && b in after && before[b].refs > 0 && after[b].refs == 0
  }

  /** The list names every freed blob once, with its storage key, and nothing else. */
  ghost predicate Lists(released: seq<ReleasedBlob>, before: Blobs, after: Blobs) {
    && (forall n | 0 <= n < |released| ::
          Freed(before, after, released[n].id) && released[n].key == before[released[n].id].key)
    && (forall b | Freed(before, after, b) :: ReleasedBlob(b, before[b].key) in released)
    && (forall n, m | 0 <= n < m < |released| :: released[n].id != released[m].id)
  }

  lemma ListsOneMore(released: seq<ReleasedBlob>, before: Blobs, after: Blobs, b: BlobId)
    requires Lists(released, before, after) && after.Keys == before.Keys
    requires b in before && 0 < after[b].refs <= before[b].refs && after[b].key == before[b].key
    ensures Lists(if after[b].refs == 1 then released + [ReleasedBlob(b, before[b].key)] else released,
                  before, ReleaseOne(after, b))
  {
    hide Drop;
    LastDrops(after[b]);
    var next := if after[b].refs == 1 then released + [ReleasedBlob(b, before[b].key)] else released;
    forall c | Freed(before, ReleaseOne(after, b), c)
      ensures ReleasedBlob(c, before[c].key) in next
    {
      if c == b { assert after[b].refs == 1; assert next[|released|] == ReleasedBlob(b, before[b].key); }
      else { assert Freed(before, after, c); }
    }
  }

  /** References only go, and keys stay, between two states of the table. */
  ghost predicate Falls(before: Blobs, after: Blobs) {
    && after.Keys == before.Keys
    && forall b | b in before ::
         0 <= after[b].refs <= before[b].refs && after[b].key == before[b].key
  }

  lemma FreedJoin(before: Blobs, middle: Blobs, after: Blobs, b: BlobId)
    requires Falls(before, middle) && Falls(middle, after)
    ensures Freed(before, after, b) <==> Freed(before, middle, b) || Freed(middle, after, b)
    ensures !(Freed(before, middle, b) && Freed(middle, after, b))
    ensures b in before ==> middle[b].key == before[b].key
  {}

  lemma ListsJoin(
    first: seq<ReleasedBlob>, second: seq<ReleasedBlob>, before: Blobs, middle: Blobs, after: Blobs)
    requires Lists(first, before, middle) && Lists(second, middle, after)
    requires Falls(before, middle) && Falls(middle, after)
    ensures Lists(first + second, before, after)
  {
    hide Freed, Falls;
    var all := first + second;
    forall b ensures Freed(before, after, b) <==> Freed(before, middle, b) || Freed(middle, after, b)
      ensures !(Freed(before, middle, b) && Freed(middle, after, b))
      ensures Freed(before, after, b) ==> b in before && b in middle && middle[b].key == before[b].key
    {
      FreedJoin(before, middle, after, b);
      FreedIn(before, middle, after, b);
    }
    forall n | 0 <= n < |all|
      ensures Freed(before, after, all[n].id) && all[n].key == before[all[n].id].key
    {
      if n < |first| { assert all[n] == first[n]; } else { assert all[n] == second[n - |first|]; }
    }
    forall n, m | 0 <= n < m < |all| ensures all[n].id != all[m].id {
      if n < |first| <= m {
        assert Freed(before, middle, all[n].id) && Freed(middle, after, all[m].id);
      }
    }
    forall b | Freed(before, after, b) ensures ReleasedBlob(b, before[b].key) in all {
      assert forall r :: r in all <==> r in first || r in second;
    }
  }

  lemma FreedIn(before: Blobs, middle: Blobs, after: Blobs, b: BlobId)
    requires Falls(before, middle)
    ensures Freed(before, after, b) ==> b in before && b in middle
  {}

  lemma LastDrops(row: Blob)
    requires row.refs > 0
    ensures Drop(row, 1).refs == row.refs - 1
  {}

  // ---------------------------------------------------------------- one entry at a time

  ghost function Unreleased(d: Db, a: ImportId): set<EntryId> {
    set e | e in d.entries && d.entries[e].archive == a && d.entries[e].blob.Some? &&
            !d.entries[e].released
  }

  ghost function MarkReleased(entries: Entries, done: set<EntryId>): Entries {
    map e | e in entries :: if e in done then entries[e].(released := true) else entries[e]
  }

  /** What the entries released so far leave of every blob. */
  ghost function After(d: Db, done: set<EntryId>): Blobs {
    ReleaseEntries(d.blobs, Only(d.entries, done))
  }

  /** An unreleased entry's own reference is still counted while others are given
      back: its blob is available. */
  lemma StillHeld(d: Db, done: set<EntryId>, e: EntryId)
    requires BlobsOk(d.blobs, d.imports, d.entries, d.holders)
    requires e in d.entries && e !in done && d.entries[e].blob.Some? && !d.entries[e].released
    ensures var b := d.entries[e].blob.value;
      && b in d.blobs && b in After(d, done)
      && Count(Only(d.entries, done), EntryHolds(b)) < d.blobs[b].refs
      && After(d, done)[b].state == Available
      && 0 < After(d, done)[b].refs <= d.blobs[b].refs
      && After(d, done)[b].key == d.blobs[b].key
  {
    var b := d.entries[e].blob.value;
    assert IsAvailable(d.blobs, b);
    assert d.blobs[b].refs == References(b, d.imports, d.entries, d.holders[b]);
    CountSplit(d.entries, done, EntryHolds(b));
    CountPositive(d.entries - done, e, EntryHolds(b));
  }

  lemma DropOneMore(row: Blob, n: nat)
    requires n < row.refs
    ensures Drop(row, n + 1) == Drop(Drop(row, n), 1)
  {}

  lemma OneMoreReleased(d: Db, done: set<EntryId>, e: EntryId)
    requires BlobsOk(d.blobs, d.imports, d.entries, d.holders)
    requires e in d.entries && e !in done && d.entries[e].blob.Some? && !d.entries[e].released
    ensures After(d, done + {e}) == ReleaseOne(After(d, done), d.entries[e].blob.value)
  {
    hide BlobsOk, Drop, EntryHolds;
    var b := d.entries[e].blob.value;
    StillHeld(d, done, e);
    DropOneMore(d.blobs[b], Count(Only(d.entries, done), EntryHolds(b)));
    forall c | c in d.blobs
      ensures After(d, done + {e})[c] == ReleaseOne(After(d, done), b)[c]
    {
      OneMoreCounted(d.entries, done, e, c);
      HoldsOne(d.entries[e], c);
    }
  }

  lemma HoldsOne(row: Entry, c: BlobId)
    requires row.blob.Some? && !row.released
    ensures EntryHolds(c)(row) <==> c == row.blob.value
  {}

  lemma OneMoreCounted(entries: Entries, done: set<EntryId>, e: EntryId, b: BlobId)
    requires e in entries && e !in done
    ensures Count(Only(entries, done + {e}), EntryHolds(b)) ==
            Count(Only(entries, done), EntryHolds(b)) + One(EntryHolds(b)(entries[e]))
  {
    assert Only(entries, done + {e}) == Only(entries, done)[e := entries[e]];
    CountWrite(Only(entries, done), e, entries[e], EntryHolds(b));
  }

  /** Entries without an unreleased blob do not matter to the blob table. */
  lemma OnlyHoldersMatter(d: Db, a: ImportId)
    ensures After(d, Unreleased(d, a)) == ReleaseEntries(d.blobs, Only(d.entries, EntriesOf(d, a)))
  {
    forall b | b in d.blobs
      ensures Count(Only(d.entries, Unreleased(d, a)), EntryHolds(b)) ==
              Count(Only(d.entries, EntriesOf(d, a)), EntryHolds(b))
    {
      assert Rows(Only(d.entries, Unreleased(d, a)), EntryHolds(b)) ==
             Rows(Only(d.entries, EntriesOf(d, a)), EntryHolds(b));
    }
  }

  predicate Least(e: nat, s: set<nat>) { e in s && forall f | f in s :: e <= f }

  lemma {:induction false} Smallest(s: set<nat>)
    requires s != {}
    ensures exists e :: Least(e, s)
    decreases |s|
  {
    var e :| e in s;
    if s == {e} {
      assert Least(e, s);
    } else {
      assert s - {e} != {};
      Smallest(s - {e});
      var m :| Least(m, s - {e});
      assert forall f | f in s :: f == e || f in s - {e};
      assert Least(if e <= m then e else m, s);
    }
  }

  /** ORDER BY id ASC */
  method InOrder(s: set<nat>) returns (ids: seq<nat>)
    ensures forall e :: e in ids <==> e in s
    ensures forall n, m | 0 <= n < m < |ids| :: ids[n] < ids[m]
  {
    var rest := s;
    ids := [];
    while rest != {}
      invariant rest <= s
      invariant forall n | 0 <= n < |ids| :: ids[n] in s && ids[n] !in rest
      invariant forall e | e in s :: e in ids || e in rest
      invariant forall n, f | 0 <= n < |ids| && f in rest :: ids[n] < f
      invariant forall n, m | 0 <= n < m < |ids| :: ids[n] < ids[m]
      decreases |rest|
    {
      Smallest(rest);
      var e :| e in rest && forall f | f in rest :: e <= f;
      ghost var before := ids;
      ids := ids + [e];
      assert forall f | f in before :: f in ids;
      assert ids[|before|] == e;
      rest := rest - {e};
    }
  }

  // ---------------------------------------------------------------- an open transaction

  class Tx {
    var db: Db

    constructor (start: Db)
      ensures db == start
    {
      db := start;
    }

    /** lockLease */
    method LockLease(l: Lease) returns (error: Option<Error>)
      ensures error == if Live(db, l) then None else Some(LeaseLost)
    {
      if l.id !in db.imports { return Some(LeaseLost); }
      var i := db.imports[l.id];
      if i.status == Running && i.hold.Some? && i.hold.value.owner == l.owner &&
         i.fence == l.fence && i.hold.value.until > db.now {
        return None;
      }
      return Some(LeaseLost);
    }

    /** releaseBlob: one reference fewer, and whether it was the last. */
    method ReleaseBlob(b: BlobId)
      returns (candidate: Option<ReleasedBlob>, deleting: bool, error: Option<Error>)
      modifies this
      ensures var was := old(db);
        if b !in was.blobs then error == Some(Database) && db == was
        else if was.blobs[b].refs == 0 || was.blobs[b].state != Available
        then error == Some(Conflict) && db == was
        else error.None? && db == was.(blobs := ReleaseOne(was.blobs, b)) &&
             candidate == Some(ReleasedBlob(b, was.blobs[b].key)) &&
             (deleting <==> was.blobs[b].refs == 1)
    {
      candidate, deleting := None, false;
      if b !in db.blobs { return None, false, Some(Database); }
      var row := db.blobs[b];
      if row.refs == 0 || row.state != Available { return None, false, Some(Conflict); }
      var next := Available;
      deleting := row.refs == 1;
      if deleting { next := Deleting; }
      db := db.(blobs := db.blobs[b := row.(refs := row.refs - 1, state := next)]);
      return Some(ReleasedBlob(b, row.key)), deleting, None;
    }

    /** The SELECT of releaseEntryBlobs, ordered by id. */
    method SelectUnreleased(a: ImportId) returns (ids: seq<EntryId>)
      ensures forall e :: e in ids <==> e in Unreleased(db, a)
      ensures forall n, m | 0 <= n < m < |ids| :: ids[n] < ids[m]
    {
      ids := InOrder(set e | e in db.entries && db.entries[e].archive == a &&
                             db.entries[e].blob.Some? && !db.entries[e].released);
    }

    /** releaseEntryBlobs: the conflict branch of releaseBlob is never taken, so the
        whole list is worked off. */
    method ReleaseEntryBlobs(a: ImportId)
      returns (released: seq<ReleasedBlob>, error: Option<Error>)
      requires BlobsOk(db.blobs, db.imports, db.entries, db.holders)
      modifies this
      ensures error.None?
      ensures db == old(db).(
                blobs := ReleaseEntries(old(db).blobs, Only(old(db).entries, EntriesOf(old(db), a))),
                entries := MarkReleased(old(db).entries, Unreleased(old(db), a)))
      ensures Lists(released, old(db).blobs, db.blobs)
    {
      hide BlobsOk, Lists, ReleaseEntries, ReleaseOne, After, Unreleased, MarkReleased;
      ghost var was := db;
      var ids := SelectUnreleased(a);
      released := [];
      ghost var done: set<EntryId> := {};
      NothingYet(was);
      var n := 0;
      while n < |ids|
        invariant 0 <= n <= |ids|
        invariant done == set m | 0 <= m < n :: ids[m]
        invariant db == was.(blobs := After(was, done), entries := MarkReleased(was.entries, done))
        invariant Lists(released, was.blobs, db.blobs)
      {
        var e := ids[n];
        assert e in ids && e !in done;
        UnreleasedRow(was, a, done, e);
        StillHeld(was, done, e);
        OneMoreReleased(was, done, e);
        AfterKeys(was, done);
        ListsOneMore(released, was.blobs, After(was, done), was.entries[e].blob.value);
        var candidate, deleting, failed := ReleaseBlob(db.entries[e].blob.value);
        if failed.Some? { return [], failed; }
        if deleting { released := released + [candidate.value]; }
        db := db.(entries := db.entries[e := db.entries[e].(released := true)]);
        done := done + {e};
        n := n + 1;
      }
      assert done == Unreleased(was, a);
      OnlyHoldersMatter(was, a);
      error := None;
    }

    /** releaseImportSource */
    method ReleaseImportSource(id: ImportId)
      returns (candidate: Option<ReleasedBlob>, deleting: bool, error: Option<Error>)
      requires BlobsOk(db.blobs, db.imports, db.entries, db.holders)
      modifies this
      ensures error == if id in old(db).imports then None else Some(NotFound)
      ensures error.Some? ==> db == old(db)
      ensures error.None? ==>
        && db == old(db).(
             blobs := ReleaseSource(old(db).blobs, old(db).imports[id]),
             imports := old(db).imports[id := old(db).imports[id].(sourceReleased := true)])
        && Lists(if deleting && candidate.Some? then [candidate.value] else [],
                 old(db).blobs, db.blobs)
    {
      hide BlobsOk, Lists, ReleaseOne;
      candidate, deleting := None, false;
      if id !in db.imports { return None, false, Some(NotFound); }
      NothingYet(db);
      if db.imports[id].sourceReleased {
        assert db.imports[id := db.imports[id].(sourceReleased := true)] == db.imports;
        return None, false, None;
      }
      SourceAvailable(db, id);
      ListsOneMore([], db.blobs, db.blobs, db.imports[id].sourceBlob);
      candidate, deleting, error := ReleaseBlob(db.imports[id].sourceBlob);
      if error.Some? { return; }
      assert [] + [candidate.value] == [candidate.value];
      db := db.(imports := db.imports[id := db.imports[id].(sourceReleased := true)]);
    }

    /** retainPublishedBlob */
    method RetainPublishedBlob(m: NewEntry) returns (id: BlobId, error: Option<Error>)
      requires db.nextBlob !in db.blobs
      requires BlobsOk(db.blobs, db.imports, db.entries, db.holders)
      modifies this
      ensures error == RetainError(old(db), m)
      ensures error.Some? ==> db == old(db)
      ensures error.None? ==> id == RetainedBlob(old(db), m) && db == Retained(old(db), m)
    {
      hide BlobsOk;
      FindBlobFinds(db, m.digest());
      id := 0;
      if !exists b :: b in db.blobs && db.blobs[b].digest == m.digest() {
        id := db.nextBlob;
        db := db.(blobs := db.blobs[id := Blob(m.digest(), m.member.size, m.key, 1, Available)],
                  holders := db.holders[id := 0], nextBlob := id + 1);
        return id, None;
      }
      var b :| b in db.blobs && db.blobs[b].digest == m.digest();
      var row := db.blobs[b];
      if row.size != m.member.size || row.key != m.key { return 0, Some(Conflict); }
      match row.state {
        case Available =>
          db := db.(blobs := db.blobs[b := row.(refs := row.refs + 1)]);
        case Staging =>
          return 0, Some(Conflict);
        case _ =>
          if row.refs != 0 { return 0, Some(Conflict); }
          db := db.(blobs := db.blobs[b := row.(refs := 1, state := Available)]);
      }
      return b, None;
    }
  }

  lemma SourceAvailable(d: Db, id: ImportId)
    requires BlobsOk(d.blobs, d.imports, d.entries, d.holders)
    requires id in d.imports && !d.imports[id].sourceReleased
    ensures var b := d.imports[id].sourceBlob;
      b in d.blobs && d.blobs[b].state == Available && d.blobs[b].refs > 0
  {
    assert IsAvailable(d.blobs, d.imports[id].sourceBlob);
  }

  /** The blob side of PersistEntry. */
  ghost function Retained(d: Db, m: NewEntry): Db {
    d.(blobs := Retain(d, m),
       holders := if RetainedBlob(d, m) !in d.blobs then d.holders[RetainedBlob(d, m) := 0]
                  else d.holders,
       nextBlob := if RetainedBlob(d, m) !in d.blobs then d.nextBlob + 1 else d.nextBlob)
  }

  /** A digest names at most one blob, so any lookup finds the same row. */
  lemma FindBlobFinds(d: Db, digest: Digest)
    requires BlobsOk(d.blobs, d.imports, d.entries, d.holders)
    ensures forall b | b in d.blobs && d.blobs[b].digest == digest ::
              FindBlob(d.blobs, digest) == Some(b)
  {}

  lemma NothingYet(d: Db)
    ensures After(d, {}) == d.blobs && Lists([], d.blobs, d.blobs)
    ensures MarkReleased(d.entries, {}) == d.entries
  {
    forall b | b in d.blobs ensures After(d, {})[b] == d.blobs[b] {
      CountNone(Only(d.entries, {}), EntryHolds(b));
    }
  }

  lemma UnreleasedRow(d: Db, a: ImportId, done: set<EntryId>, e: EntryId)
    requires e in Unreleased(d, a) && e !in done
    ensures e in d.entries && d.entries[e].blob.Some? && !d.entries[e].released
    ensures e in MarkReleased(d.entries, done) && MarkReleased(d.entries, done)[e] == d.entries[e]
    ensures MarkReleased(d.entries, done + {e}) ==
            MarkReleased(d.entries, done)[e := d.entries[e].(released := true)]
  {}

  lemma AfterKeys(d: Db, done: set<EntryId>) ensures After(d, done).Keys == d.blobs.Keys {}
}
