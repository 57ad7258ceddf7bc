/** Which ZIP files the preflight accepts, byte by byte: a header of the central directory
    (section 4.3.12 of the PKWARE APPNOTE), the end record (4.3.16), the ZIP64 end record
    (4.3.14) and its locator (4.3.15), by the positions of their fields. Nothing here uses the
    functions that the preflight is proved against; that they agree is proved below. */
module ZipLayout {
  import opened Words
  import opened ZipPreflight

  // ---------------------------------------------------------------- numbers

  /** Numbers of two, four and eight bytes, the low byte first. */
  function U2(b: Bytes, p: nat): (v: nat)
    requires p + 2 <= |b|
    ensures v <= 65535
  {
    var low: int, high: int := b[p], b[p + 1];
    low + 256 * high
  }

  function U4(b: Bytes, p: nat): (v: nat)
    requires p + 4 <= |b|
    ensures v <= 4294967295
  {
    U2(b, p) + 65536 * U2(b, p + 2)
  }

  function U8(b: Bytes, p: nat): (v: nat)
    requires p + 8 <= |b|
    ensures v <= 18446744073709551615
  {
    U4(b, p) + 4294967296 * U4(b, p + 4)
  }

  lemma Times(p: nat, q: nat)
    ensures 256 * (p * q) == (256 * p) * q
  {}

  lemma {:induction false} Join(a: Bytes, b: Bytes)
    ensures Little(a + b) == Little(a) + Power256(|a|) * Little(b)
    decreases |a|
  {
    if a == [] {
      assert a + b == b;
    } else {
      Join(a[1..], b);
      assert (a + b)[1..] == a[1..] + b;
      Times(Power256(|a| - 1), Little(b));
    }
  }

  lemma Two(b: Bytes, p: nat)
    requires p + 2 <= |b|
    ensures At(b, p, 2) == U2(b, p)
  {
    var s := b[p..p + 2];
    assert s[0] == b[p] && s[1] == b[p + 1];
    assert Little(s) == s[0] + 256 * Little(s[1..]);
    assert Little(s[1..]) == s[1] + 256 * Little(s[1..][1..]);
  }

  lemma Four(b: Bytes, p: nat)
    requires p + 4 <= |b|
    ensures At(b, p, 4) == U4(b, p)
  {
    hide Little, U2;
    Powers();
    Two(b, p);
    Two(b, p + 2);
    assert b[p..p + 4] == b[p..p + 2] + b[p + 2..p + 4];
    Join(b[p..p + 2], b[p + 2..p + 4]);
  }

  lemma Eight(b: Bytes, p: nat)
    requires p + 8 <= |b|
    ensures At(b, p, 8) == U8(b, p)
  {
    hide Little, U4;
    Powers();
    Four(b, p);
    Four(b, p + 4);
    assert b[p..p + 8] == b[p..p + 4] + b[p + 4..p + 8];
    Join(b[p..p + 4], b[p + 4..p + 8]);
  }

  /** The four bytes of a signature. */
  predicate Signed(b: Bytes, p: nat, third: Byte, fourth: Byte) {
    p + 4 <= |b| && b[p] == 0x50 && b[p + 1] == 0x4B && b[p + 2] == third && b[p + 3] == fourth
  }

  lemma LowByte(a: Byte, b: int, c: Byte, d: int)
    ensures a as int + 256 * b == c as int + 256 * d <==> a == c && b == d
  {}

  lemma SignedIff(b: Bytes, p: nat, third: Byte, fourth: Byte)
    requires p + 4 <= |b|
    ensures Signed(b, p, third, fourth) <==> At(b, p, 4) == 0x4B50 + 65536 * third as int + 16777216 * fourth as int
  {
    hide At;
    Four(b, p);
    var x: int, y: int := b[p + 2], b[p + 3];
    LowByte(b[p + 2], y, third, fourth);
    LowByte(b[p + 1], x + 256 * y, 0x4B, third as int + 256 * fourth as int);
    LowByte(b[p], b[p + 1] as int + 256 * (x + 256 * y), 0x50, 0x4B + 256 * (third as int + 256 * fourth as int));
  }

  // ---------------------------------------------------------------- the central directory

  /** A record of `n` bytes comes first: a header of 46 bytes, whose name, extra field and
      comment have the lengths at 28, 30 and 32. */
  predicate RecordFirst(b: Bytes, n: nat) {
    && |b| >= 46 && Signed(b, 0, 1, 2) && n == 46 + U2(b, 28) + U2(b, 30) + U2(b, 32) && n <= |b|
  }

  /** The region is `k` records, one after the other. */
  ghost predicate IsRecords(region: Bytes, k: nat)
    decreases k
  {
    if k == 0 then region == [] else exists n: nat :: RecordFirst(region, n) && IsRecords(region[n..], k - 1)
  }

  lemma RecordIff(b: Bytes, n: nat)
    ensures RecordFirst(b, n) <==> StartsRecord(b) && RecordLength(b) == n
  {
    hide At, U2, Signed;
    if |b| >= 46 {
      SignedIff(b, 0, 1, 2);
      Two(b, 28);
      Two(b, 30);
      Two(b, 32);
    } else {
      TooShort(b, n);
    }
  }

  lemma TooShort(b: Bytes, n: nat)
    requires |b| < 46
    ensures !RecordFirst(b, n) && !StartsRecord(b)
  {}

  lemma RecordsIff(region: Bytes, k: nat)
    ensures IsRecords(region, k) <==> exists lengths :: Splits(region, lengths) && |lengths| == k
  {
    hide RecordFirst, Splits, IsRecords;
    if IsRecords(region, k) { var lengths := SplitOf(region, k); }
    if lengths :| Splits(region, lengths) && |lengths| == k { RecordsOf(region, lengths); }
  }

  lemma {:induction false} SplitOf(region: Bytes, k: nat) returns (lengths: seq<nat>)
    requires IsRecords(region, k)
    ensures Splits(region, lengths) && |lengths| == k
    decreases k
  {
    hide U2, Signed, At, RecordLength;
    lengths := [];
    if k > 0 {
      var n: nat :| RecordFirst(region, n) && IsRecords(region[n..], k - 1);
      RecordIff(region, n);
      var rest := SplitOf(region[n..], k - 1);
      lengths := [n] + rest;
      assert lengths[1..] == rest;
    }
  }

  lemma {:induction false} RecordsOf(region: Bytes, lengths: seq<nat>)
    requires Splits(region, lengths)
    ensures IsRecords(region, |lengths|)
    decreases |lengths|
  {
    hide U2, Signed, At, RecordLength;
    if lengths != [] {
      RecordIff(region, lengths[0]);
      RecordsOf(region[lengths[0]..], lengths[1..]);
    }
  }

  // ---------------------------------------------------------------- the end of the file

  /** An end record of 22 bytes and a comment that reaches the end of the file. */
  predicate EndAt(file: Bytes, at: nat) {
    at + 22 <= |file| && Signed(file, at, 5, 6) && at + 22 + U2(file, at + 20) == |file|
  }

  ghost predicate LastEndAt(file: Bytes, at: nat) { EndAt(file, at) && forall c: nat | at < c :: !EndAt(file, c) }

  lemma EndIff(file: Bytes, at: nat)
    ensures EndAt(file, at) <==> IsEnd(file, at)
  {
    hide At, U2, Signed;
    if at + 22 <= |file| {
      SignedIff(file, at, 5, 6);
      Two(file, at + 20);
    }
  }

  lemma LastEndIff(file: Bytes, at: nat)
    ensures LastEndAt(file, at) <==> LastEnd(file, at)
  {
    hide EndAt, IsEnd;
    forall c: nat ensures EndAt(file, c) <==> IsEnd(file, c) { EndIff(file, c); }
  }

  /** Both disk numbers of the end record are zero. */
  predicate OneDisk(file: Bytes, at: nat)
    requires at + 22 <= |file|
  {
    U2(file, at + 4) == 0 && U2(file, at + 6) == 0
  }

  /** The record count or the size, read as 16 bits, or the offset is full. */
  predicate Asks64(file: Bytes, at: nat)
    requires at + 22 <= |file|
  {
    U2(file, at + 10) == 65535 || U4(file, at + 12) == 65535 || U4(file, at + 16) == 4294967295
  }

  /** Right before the end record a locator of 20 bytes, on the one disk there is, and right
      before the locator the ZIP64 end record at `record`, of at least 56 bytes. */
  predicate End64At(file: Bytes, at: nat, record: nat)
    requires at + 22 <= |file|
  {
    && at >= 20 && Signed(file, at - 20, 6, 7) && U4(file, at - 16) == 0 && U4(file, at - 4) == 1
    && U8(file, at - 12) == record && record + 56 <= at - 20
    && Signed(file, record, 6, 6) && U8(file, record + 4) >= 44 && record + 12 + U8(file, record + 4) == at - 20
    && U4(file, record + 16) == 0 && U4(file, record + 20) == 0 && U8(file, record + 24) == U8(file, record + 32)
  }

  /** The end record says the same as the ZIP64 one, where it is not full. */
  predicate SameAs64(file: Bytes, at: nat, record: nat)
    requires at + 22 <= |file| && record + 56 <= |file|
  {
    && (U2(file, at + 8) == 65535 || U2(file, at + 8) == U8(file, record + 24))
    && (U2(file, at + 10) == 65535 || U2(file, at + 10) == U8(file, record + 32))
    && (U4(file, at + 12) == 65535 || U4(file, at + 12) == 4294967295 || U4(file, at + 12) == U8(file, record + 40))
    && (U4(file, at + 16) == 4294967295 || U4(file, at + 16) == U8(file, record + 48))
  }

  /** The directory ends at `end`, has at most 64 MiB and as many records as declared, and no
      second one begins where the offset points if the archive has something before it. */
  ghost predicate DirectoryAt(file: Bytes, end: nat, size: nat, offset: nat, records: nat, maxEntries: nat)
    requires end <= |file|
  {
    && size <= 67108864 && offset + size <= end && records <= maxEntries
    && (offset + size < end ==> offset + 4 <= |file| && !Signed(file, offset, 1, 2))
    && IsRecords(file[end - size..end], records)
  }

  /** The last end record, with or without a ZIP64 one, places a sound directory. */
  ghost predicate FileRule(file: Bytes, at: nat, maxEntries: nat)
    requires at + 22 <= |file|
  {
    && OneDisk(file, at)
    && if Asks64(file, at) then
         exists record: nat :: End64At(file, at, record) && SameAs64(file, at, record) &&
           DirectoryAt(file, record, U8(file, record + 40), U8(file, record + 48), U8(file, record + 32), maxEntries)
       else
         && U2(file, at + 8) == U2(file, at + 10)
         && DirectoryAt(file, at, U4(file, at + 12), U4(file, at + 16), U2(file, at + 10), maxEntries)
  }

  lemma FieldsAre(file: Bytes, at: nat)
    requires at + 22 <= |file|
    ensures FieldsOf(file, at) == Fields(U2(file, at + 8), U2(file, at + 10), U4(file, at + 12), U4(file, at + 16))
    ensures OneDisk(file, at) <==> At(file, at + 4, 2) == 0 && At(file, at + 6, 2) == 0
    ensures Asks64(file, at) <==> UsesZIP64(FieldsOf(file, at))
  {
    hide At, U2, U4;
    Two(file, at + 4);
    Two(file, at + 6);
    Two(file, at + 8);
    Two(file, at + 10);
    Four(file, at + 12);
    Four(file, at + 16);
  }

  lemma DirectoryIff(file: Bytes, e: End, maxEntries: uint64)
    requires 0 <= e.end as int <= |file|
    ensures Sound(file, e, maxEntries) <==>
            DirectoryAt(file, e.end as nat, e.size as nat, e.offset as nat, e.records as nat, maxEntries as nat)
  {
    hide At, Splits, IsRecords, Signed;
    var offset := e.offset as int;
    if offset + 4 <= |file| { SignedIff(file, offset, 1, 2); }
    if Placed(file, e) { RecordsIff(Directory(file, e), e.records as nat); }
  }

  lemma LocatorIs(file: Bytes, at: nat)
    requires 20 <= at && at + 22 <= |file|
    ensures At(file, at - 20, 4) == LOCATOR_SIGNATURE <==> Signed(file, at - 20, 6, 7)
    ensures At(file, at - 16, 4) == U4(file, at - 16) && At(file, at - 4, 4) == U4(file, at - 4)
    ensures At(file, at - 12, 8) == U8(file, at - 12)
  {
    hide At, U4, U8, Signed;
    SignedIff(file, at - 20, 6, 7);
    Four(file, at - 16);
    Four(file, at - 4);
    Eight(file, at - 12);
  }

  lemma RecordIs(file: Bytes, record: nat)
    requires record + 56 <= |file|
    ensures At(file, record, 4) == END64_SIGNATURE <==> Signed(file, record, 6, 6)
    ensures At(file, record + 4, 8) == U8(file, record + 4)
    ensures At(file, record + 16, 4) == U4(file, record + 16) && At(file, record + 20, 4) == U4(file, record + 20)
    ensures At(file, record + 24, 8) == U8(file, record + 24) && At(file, record + 32, 8) == U8(file, record + 32)
    ensures At(file, record + 40, 8) == U8(file, record + 40) && At(file, record + 48, 8) == U8(file, record + 48)
  {
    hide At, U4, U8, Signed;
    SignedIff(file, record, 6, 6);
    Eight(file, record + 4);
    Four(file, record + 16);
    Four(file, record + 20);
    Eight(file, record + 24);
    Eight(file, record + 32);
    Eight(file, record + 40);
    Eight(file, record + 48);
  }

  /** What is read of the ZIP64 record, if it is there and agrees. */
  lemma End64Iff(file: Bytes, at: nat)
    requires |file| <= MAX_INT64 && at + 22 <= |file|
    ensures var r := ReadEnd64(file, at, FieldsOf(file, at));
      match r
      case Ok(e) =>
        var record := e.end as int;
        && 0 <= record && record + 56 <= |file| && End64At(file, at, record) && SameAs64(file, at, record)
        && e.size as int == U8(file, record + 40) && e.offset as int == U8(file, record + 48)
        && e.records as int == U8(file, record + 32)
      case _ => forall record: nat | End64At(file, at, record) :: !SameAs64(file, at, record)
  {
    hide At, U2, U4, U8, Signed;
    FieldsAre(file, at);
    if at >= 20 {
      LocatorIs(file, at);
      var record := U8(file, at - 12);
      if record + 56 <= at - 20 { RecordIs(file, record); }
    }
  }

  /** The preflight accepts a file exactly if its last end record is of this kind. */
  lemma AcceptedIff(file: Bytes, maxEntries: uint64)
    requires |file| <= MAX_INT64
    ensures Accepted(file, maxEntries) <==> exists at: nat :: LastEndAt(file, at) && FileRule(file, at, maxEntries as nat)
  {
    hide At, FileRule, AcceptedAt, U2, Signed;
    if Accepted(file, maxEntries) {
      var at: nat :| LastEnd(file, at) && AcceptedAt(file, maxEntries, at);
      LastEndIff(file, at);
      FileIff(file, maxEntries, at);
      assert LastEndAt(file, at) && FileRule(file, at, maxEntries as nat);
    }
    if at: nat :| LastEndAt(file, at) && FileRule(file, at, maxEntries as nat) {
      LastEndIff(file, at);
      FileIff(file, maxEntries, at);
      assert AcceptedAt(file, maxEntries, at);
    }
  }

  lemma FileIff(file: Bytes, maxEntries: uint64, at: nat)
    requires |file| <= MAX_INT64 && LastEnd(file, at)
    ensures AcceptedAt(file, maxEntries, at) <==> FileRule(file, at, maxEntries as nat)
  {
    hide At, U2, U4, U8, ReadEnd64, Sound, DirectoryAt, End64At, SameAs64;
    FieldsAre(file, at);
    var f := FieldsOf(file, at);
    var r := ReadEnd(file, at);
    if r.Ok? {
      EndInside(file, at);
      DirectoryIff(file, r.value, maxEntries);
    }
    if UsesZIP64(f) {
      End64Iff(file, at);
      forall a: nat, b: nat | End64At(file, at, a) && End64At(file, at, b) ensures a == b { OneRecord(file, at, a, b); }
    }
  }

  lemma OneRecord(file: Bytes, at: nat, a: nat, b: nat)
    requires at + 22 <= |file| && End64At(file, at, a) && End64At(file, at, b)
    ensures a == b
  {}
}
