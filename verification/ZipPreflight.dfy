/** The preflight of ZIP archives (sections 4.3.12 and 4.3.14 to 4.3.16 of the PKWARE
    APPNOTE): it finds the end record, locates the central directory, and counts its
    records before any library opens the file. */
module ZipPreflight {
  import opened Counting
  import opened Words

  datatype Result<+T> = Ok(value: T) | Unsafe | Limit

  const HEADER_SIGNATURE := 0x02014b50
  const END_SIGNATURE := 0x06054b50
  const END64_SIGNATURE := 0x06064b50
  const LOCATOR_SIGNATURE := 0x07064b50
  const HEADER_LENGTH := 46
  const END_LENGTH := 22
  const END64_LENGTH := 56
  const LOCATOR_LENGTH := 20
  const MAX_COMMENT := 0xFFFF
  const MAX_DIRECTORY := 0x400_0000
  const MAX_UINT16 := 0xFFFF
  const MAX_UINT32 := 0xFFFF_FFFF

  /** The number in `n` bytes of `b` from `at` on. */
  function At(b: Bytes, at: nat, n: nat): (r: nat)
    requires at + n <= |b|
    ensures r < Power256(n)
  {
    Little(b[at..at + n])
  }

  // ---------------------------------------------------------------- directory records

  /** The length of a record: its header, name, extra field and comment. */
  function RecordLength(b: Bytes): (n: nat)
    requires |b| >= HEADER_LENGTH
    ensures HEADER_LENGTH <= n < 0x4_0000
  {
    Powers();
    HEADER_LENGTH + At(b, 28, 2) + At(b, 30, 2) + At(b, 32, 2)
  }

  predicate StartsRecord(b: Bytes) {
    |b| >= HEADER_LENGTH && At(b, 0, 4) == HEADER_SIGNATURE && RecordLength(b) <= |b|
  }

  /** The region is made of records of these lengths, one after the other. */
  predicate Splits(region: Bytes, lengths: seq<nat>) {
    if lengths == [] then region == []
    else
      && StartsRecord(region) && RecordLength(region) == lengths[0]
      && Splits(region[lengths[0]..], lengths[1..])
  }

  /** There is at most one way to split a region. */
  lemma {:induction false} SplitUnique(region: Bytes, a: seq<nat>, b: seq<nat>)
    requires Splits(region, a) && Splits(region, b)
    ensures a == b
  {
    if a != [] && b != [] {
      SplitUnique(region[a[0]..], a[1..], b[1..]);
      assert a == [a[0]] + a[1..] && b == [b[0]] + b[1..];
    }
  }

  /** Counting records from the front, at most `budget` of them. */
  function Scan(region: Bytes, budget: nat): Result<nat> {
    if region == [] then Ok(0)
    else if !StartsRecord(region) then Unsafe
    else if budget == 0 then Limit
    else
      match Scan(region[RecordLength(region)..], budget - 1)
      case Ok(n) => Ok(n + 1)
      case Unsafe => Unsafe
      case Limit => Limit
  }

  /** The scan counts n exactly when the region splits into n records within the limit. */
  lemma {:induction false} ScanCounts(region: Bytes, budget: nat, n: nat)
    ensures Scan(region, budget) == Ok(n) <==>
            n <= budget && exists lengths :: Splits(region, lengths) && |lengths| == n
  {
    hide RecordLength;
    if region == [] {
      assert Splits(region, []);
      forall lengths | Splits(region, lengths) ensures lengths == [] {
        SplitUnique(region, lengths, []);
      }
    } else if StartsRecord(region) {
      var first := RecordLength(region);
      if n > 0 && budget > 0 { ScanCounts(region[first..], budget - 1, n - 1); }
      if Scan(region, budget) == Ok(n) {
        var rest :| Splits(region[first..], rest) && |rest| == n - 1;
        assert ([first] + rest)[1..] == rest;
        assert Splits(region, [first] + rest);
      }
      if lengths :| Splits(region, lengths) && |lengths| == n && n <= budget {
        assert Splits(region[first..], lengths[1..]);
      }
    }
  }

  /** scanJVMZIPDirectory */
  method ScanDirectory(file: Bytes, offset: int64, size: uint64, maxEntries: uint64)
    returns (r: Result<uint64>)
    requires |file| <= MAX_INT64 && 0 <= offset as int && offset as int + size as int <= |file|
    ensures var region := file[offset as int..offset as int + size as int];
      match Scan(region, maxEntries as nat)
      case Ok(n) => r.Ok? && r.value as int == n
      case Unsafe => r.Unsafe?
      case Limit => r.Limit?
  {
    hide StartsRecord, RecordLength;
    if offset < 0 || size as int > MAX_INT64 || offset as int > MAX_INT64 - size as int { return Unsafe; }
    var remaining := size;
    var position := offset;
    var records: uint64 := 0;
    ghost var region := file[offset as int..offset as int + size as int];
    ghost var end := offset as int + size as int;
    while remaining > 0
      invariant 0 <= position as int && position as int + remaining as int == end
      invariant records <= maxEntries
      invariant match Scan(file[position as int..end], (maxEntries - records) as nat)
                case Ok(n) => Scan(region, maxEntries as nat) == Ok(n + records as int)
                case Unsafe => Scan(region, maxEntries as nat).Unsafe?
                case Limit => Scan(region, maxEntries as nat).Limit?
      decreases remaining
    {
      ghost var here := file[position as int..end];
      RecordHere(here);
      if remaining < HEADER_LENGTH as uint64 { return Unsafe; }
      var header := file[position as int..position as int + HEADER_LENGTH];
      assert |here| == remaining as int && header == here[..HEADER_LENGTH];
      HeaderFields(here, header);
      if At(header, 0, 4) != HEADER_SIGNATURE { return Unsafe; }
      var nameLength := At(header, 28, 2) as uint64;
      var extraLength := At(header, 30, 2) as uint64;
      var commentLength := At(header, 32, 2) as uint64;
      var recordLength := HEADER_LENGTH as uint64 + nameLength + extraLength + commentLength;
      if recordLength > remaining || recordLength as int > MAX_INT64 { return Unsafe; }
      if records == maxEntries { return Limit; }
      records := records + 1;
      assert here[recordLength as int..] == file[position as int + recordLength as int..end];
      position := position + recordLength as int64;
      remaining := remaining - recordLength;
    }
    assert file[position as int..end] == [];
    return Ok(records);
  }

  lemma RecordHere(here: Bytes)
    ensures |here| < HEADER_LENGTH ==> !StartsRecord(here)
    ensures |here| >= HEADER_LENGTH ==>
      (StartsRecord(here) <==> At(here, 0, 4) == HEADER_SIGNATURE && RecordLength(here) <= |here|)
    ensures |here| >= HEADER_LENGTH ==> RecordLength(here) >= HEADER_LENGTH
  {}

  lemma HeaderFields(here: Bytes, header: Bytes)
    requires |here| >= HEADER_LENGTH && header == here[..HEADER_LENGTH]
    ensures At(header, 0, 4) == At(here, 0, 4)
    ensures At(header, 28, 2) < 0x1_0000 && At(header, 30, 2) < 0x1_0000 && At(header, 32, 2) < 0x1_0000
    ensures RecordLength(here) == HEADER_LENGTH + At(header, 28, 2) + At(header, 30, 2) + At(header, 32, 2)
  {
    Powers();
    assert header[0..4] == here[0..4] && header[28..30] == here[28..30];
    assert header[30..32] == here[30..32] && header[32..34] == here[32..34];
  }

  // ---------------------------------------------------------------- end records

  datatype End = End(end: int64, size: uint64, offset: uint64, records: uint64)

  /** An end record whose comment reaches the end of the file. */
  predicate IsEnd(file: Bytes, at: nat) {
    && at + END_LENGTH <= |file| && At(file, at, 4) == END_SIGNATURE
    && at + END_LENGTH + At(file, at + 20, 2) == |file|
  }

  ghost predicate LastEnd(file: Bytes, at: nat) {
    IsEnd(file, at) && forall c | at < c :: !IsEnd(file, c)
  }

  /** The fields of a plain end record. */
  datatype Fields = Fields(onDisk: nat, records: nat, size: nat, offset: nat)

  function FieldsOf(file: Bytes, at: nat): Fields
    requires at + END_LENGTH <= |file|
  {
    Fields(At(file, at + 8, 2), At(file, at + 10, 2), At(file, at + 12, 4), At(file, at + 16, 4))
  }

  /** The directory size is compared with the 16-bit maximum, as the code has it. */
  predicate UsesZIP64(f: Fields) {
    f.records == MAX_UINT16 || f.size == MAX_UINT16 || f.offset == MAX_UINT32
  }

  function ReadEnd(file: Bytes, at: nat): Result<End>
    requires |file| <= MAX_INT64 && at + END_LENGTH <= |file|
  {
    var f := FieldsOf(file, at);
    if At(file, at + 4, 2) != 0 || At(file, at + 6, 2) != 0 then Unsafe
    else if UsesZIP64(f) then ReadEnd64(file, at, f)
    else if f.onDisk != f.records then Unsafe
    else
      Powers();
      Ok(End(at as int64, f.size as uint64, f.offset as uint64, f.records as uint64))
  }

  /** The ZIP64 end record sits right before its locator, and the locator right before the
      plain end record; fields of the plain record that are not saturated must agree. */
  function ReadEnd64(file: Bytes, at: nat, f: Fields): Result<End>
    requires |file| <= MAX_INT64 && at + END_LENGTH <= |file|
  {
    var locator := at - LOCATOR_LENGTH;
    if locator < 0 then Unsafe
    else if At(file, locator, 4) != LOCATOR_SIGNATURE || At(file, locator + 4, 4) != 0 ||
            At(file, locator + 16, 4) != 1 then Unsafe
    else
      var record := At(file, locator + 8, 8);
      if record > locator - END64_LENGTH then Unsafe
      else if At(file, record, 4) != END64_SIGNATURE then Unsafe
      else if At(file, record + 4, 8) < END64_LENGTH - 12 ||
              record + At(file, record + 4, 8) + 12 != locator then Unsafe
      else
        var onDisk, records := At(file, record + 24, 8), At(file, record + 32, 8);
        var size, offset := At(file, record + 40, 8), At(file, record + 48, 8);
        if At(file, record + 16, 4) != 0 || At(file, record + 20, 4) != 0 || onDisk != records
        then Unsafe
        else if (f.records != MAX_UINT16 && f.records != records) ||
                (f.onDisk != MAX_UINT16 && f.onDisk != onDisk) ||
                (f.size != MAX_UINT16 && f.size != MAX_UINT32 && f.size != size) ||
                (f.offset != MAX_UINT32 && f.offset != offset)
        then Unsafe
        else
          Powers();
          Ok(End(record as int64, size as uint64, offset as uint64, records as uint64))
  }

  /** The end record, if it can be read, is inside the file. */
  lemma EndInside(file: Bytes, at: nat)
    requires |file| <= MAX_INT64 && at + END_LENGTH <= |file| && ReadEnd(file, at).Ok?
    ensures 0 <= ReadEnd(file, at).value.end as int <= at
  {}

  /** The backward search of readJVMZIPEnd, over the last 65557 bytes: no end record can
      begin earlier, because its comment is at most 65535 bytes long. */
  method FindEnd(file: Bytes) returns (found: Option<int>)
    requires |file| <= MAX_INT64
    ensures found.Some? ==> found.value >= 0 && LastEnd(file, found.value)
    ensures found.None? ==> forall c: nat :: !IsEnd(file, c)
  {
    hide At;
    var tailLength := END_LENGTH + MAX_COMMENT;
    if tailLength > |file| { tailLength := |file|; }
    var tail := file[|file| - tailLength..];
    var candidate := |tail| - END_LENGTH;
    while candidate >= 0
      invariant -1 <= candidate || |tail| < END_LENGTH
      invariant candidate <= |tail| - END_LENGTH
      invariant forall c: nat | c > |file| - tailLength + candidate :: !IsEnd(file, c)
    {
      var at := |file| - tailLength + candidate;
      TailBytes(file, tailLength, candidate);
      if At(tail, candidate, 4) == END_SIGNATURE &&
         candidate + END_LENGTH + At(tail, candidate + 20, 2) == |tail| {
        return Some(at);
      }
      candidate := candidate - 1;
    }
    forall c: nat | c < |file| - tailLength ensures !IsEnd(file, c) { CommentFits(file, c); }
    return None;
  }

  lemma TailBytes(file: Bytes, tailLength: nat, candidate: nat)
    requires tailLength <= |file| && candidate + END_LENGTH <= tailLength
    ensures var tail, at := file[|file| - tailLength..], |file| - tailLength + candidate;
      && |tail| == tailLength
      && At(tail, candidate, 4) == At(file, at, 4)
      && At(tail, candidate + 20, 2) == At(file, at + 20, 2)
  {
    var tail, at := file[|file| - tailLength..], |file| - tailLength + candidate;
    assert tail[candidate..candidate + 4] == file[at..at + 4];
    assert tail[candidate + 20..candidate + 22] == file[at + 20..at + 22];
  }

  lemma CommentFits(file: Bytes, c: nat)
    ensures IsEnd(file, c) ==> c + END_LENGTH + MAX_COMMENT >= |file|
  {
    Powers();
  }

  /** readJVMZIP64End */
  method ReadZIP64End(file: Bytes, eocdOffset: int64, f: Fields) returns (r: Result<End>)
    requires |file| <= MAX_INT64 && 0 <= eocdOffset as int && eocdOffset as int + END_LENGTH <= |file|
    ensures r == ReadEnd64(file, eocdOffset as int, f)
  {
    hide At, Power256;
    Powers();
    var locatorOffset := eocdOffset - LOCATOR_LENGTH as int64;
    if locatorOffset < 0 { return Unsafe; }
    var l := locatorOffset as int;
    if At(file, l, 4) != LOCATOR_SIGNATURE || At(file, l + 4, 4) != 0 || At(file, l + 16, 4) != 1 {
      return Unsafe;
    }
    var recordOffset64 := At(file, l + 8, 8) as uint64;
    if recordOffset64 as int > MAX_INT64 { return Unsafe; }
    var recordOffset := recordOffset64 as int64;
    if recordOffset < 0 || recordOffset > locatorOffset - END64_LENGTH as int64 { return Unsafe; }
    var at := recordOffset as int;
    if At(file, at, 4) != END64_SIGNATURE { return Unsafe; }
    var payloadSize := At(file, at + 4, 8) as uint64;
    if payloadSize < (END64_LENGTH - 12) as uint64 || payloadSize as int > MAX_INT64 - 12 ||
       recordOffset as int > MAX_INT64 - payloadSize as int - 12 ||
       recordOffset + payloadSize as int64 + 12 != locatorOffset { return Unsafe; }
    var onDisk, records := At(file, at + 24, 8), At(file, at + 32, 8);
    var size, offset := At(file, at + 40, 8), At(file, at + 48, 8);
    if At(file, at + 16, 4) != 0 || At(file, at + 20, 4) != 0 || onDisk != records { return Unsafe; }
    if (f.records != MAX_UINT16 && f.records != records) ||
       (f.onDisk != MAX_UINT16 && f.onDisk != onDisk) ||
       (f.size != MAX_UINT16 && f.size != MAX_UINT32 && f.size != size) ||
       (f.offset != MAX_UINT32 && f.offset != offset) { return Unsafe; }
    return Ok(End(recordOffset, size as uint64, offset as uint64, records as uint64));
  }

  /** readJVMZIPEnd */
  method ReadZIPEnd(file: Bytes) returns (r: Result<End>)
    requires |file| <= MAX_INT64
    ensures forall at | LastEnd(file, at) :: r == ReadEnd(file, at)
    ensures (forall c: nat :: !IsEnd(file, c)) ==> r == Unsafe
  {
    hide At, ReadEnd64;
    var found := FindEnd(file);
    if found.None? { return Unsafe; }
    var at := found.value;
    OneLast(file, at);
    if At(file, at + 4, 2) != 0 || At(file, at + 6, 2) != 0 { return Unsafe; }
    var f := Fields(At(file, at + 8, 2), At(file, at + 10, 2), At(file, at + 12, 4), At(file, at + 16, 4));
    Powers();
    if !(f.records == MAX_UINT16 || f.size == MAX_UINT16 || f.offset == MAX_UINT32) {
      if f.onDisk != f.records { return Unsafe; }
      return Ok(End(at as int64, f.size as uint64, f.offset as uint64, f.records as uint64));
    }
    r := ReadZIP64End(file, at as int64, f);
  }

  lemma OneLast(file: Bytes, at: nat)
    requires LastEnd(file, at)
    ensures forall c | LastEnd(file, c) :: c == at
  {}

  // ---------------------------------------------------------------- the preflight

  /** What an end record must say about the file for the directory to be scanned. */
  predicate Placed(file: Bytes, e: End)
    requires 0 <= e.end as int <= |file|
  {
    && e.size as int <= MAX_DIRECTORY
    && e.offset as int + e.size as int <= e.end as int
    && (e.offset as int + e.size as int < e.end as int ==>
          e.offset as int + 4 <= |file| && At(file, e.offset as int, 4) != HEADER_SIGNATURE)
  }

  /** The central directory region of an end record. */
  function Directory(file: Bytes, e: End): Bytes
    requires 0 <= e.end as int <= |file| && e.size as int <= e.end as int
  {
    file[e.end as int - e.size as int..e.end as int]
  }

  /** End record `e` places a directory that splits into as many records as it declares,
      within the limit. */
  ghost predicate Sound(file: Bytes, e: End, maxEntries: uint64)
    requires 0 <= e.end as int <= |file|
  {
    && Placed(file, e)
    && exists lengths :: Splits(Directory(file, e), lengths) && |lengths| == e.records as int <= maxEntries as int
  }

  /** preflightJVMZIP: accepted exactly when the last end record can be read, places the
      directory without ambiguity, and the directory splits into as many records as it
      declares, within the limit. */
  method PreflightZIP(file: Bytes, maxEntries: uint64) returns (r: Result<uint64>)
    requires |file| <= MAX_INT64
    ensures r.Ok? <==> Accepted(file, maxEntries)
    ensures r.Ok? ==> forall at | LastEnd(file, at) ::
              ReadEnd(file, at).Ok? && r.value == ReadEnd(file, at).value.records
  {
    hide At, Scan, StartsRecord, ReadEnd;
    if |file| < END_LENGTH { return Unsafe; }
    var found := ReadZIPEnd(file);
    if found.Limit? { NeverLimit(file); return Limit; }
    if found.Unsafe? { NothingAccepted(file, maxEntries, found); return Unsafe; }
    var e := found.value;
    var at := TheEnd(file, e);
    EndInside(file, at);
    AcceptedIs(file, maxEntries, at, e);
    OneLast(file, at);
    if e.size as int > MAX_DIRECTORY { return Limit; }
    if e.size as int > e.end as int { return Unsafe; }
    var directoryStart := e.end as int as uint64 - e.size;
    if e.offset > directoryStart { return Unsafe; }
    var base := directoryStart - e.offset;
    if base as int > MAX_INT64 { return Unsafe; }
    if base > 0 {
      if e.offset as int + 4 > |file| { return Unsafe; }
      if At(file, e.offset as int, 4) == HEADER_SIGNATURE { return Unsafe; }
    }
    var actual := ScanDirectory(file, directoryStart as int64, e.size, maxEntries);
    ScanCounts(Directory(file, e), maxEntries as nat, e.records as nat);
    if !actual.Ok? {
      if actual.Limit? { return Limit; }
      return Unsafe;
    }
    if actual.value != e.records { return Unsafe; }
    return Ok(actual.value);
  }

  ghost predicate Accepted(file: Bytes, maxEntries: uint64)
    requires |file| <= MAX_INT64
  {
    exists at :: LastEnd(file, at) && AcceptedAt(file, maxEntries, at)
  }

  ghost predicate AcceptedAt(file: Bytes, maxEntries: uint64, at: nat)
    requires |file| <= MAX_INT64 && LastEnd(file, at)
  {
    ReadEnd(file, at).Ok? && (EndInside(file, at); Sound(file, ReadEnd(file, at).value, maxEntries))
  }

  lemma AcceptedIs(file: Bytes, maxEntries: uint64, at: nat, e: End)
    requires |file| <= MAX_INT64 && LastEnd(file, at) && ReadEnd(file, at) == Ok(e)
    ensures 0 <= e.end as int <= at
    ensures Accepted(file, maxEntries) <==> Sound(file, e, maxEntries)
  {
    EndInside(file, at);
    OneLast(file, at);
    assert Accepted(file, maxEntries) <==> AcceptedAt(file, maxEntries, at);
  }

  lemma TheEnd(file: Bytes, e: End) returns (at: nat)
    requires |file| <= MAX_INT64
    requires exists c: nat :: IsEnd(file, c)
    requires forall c | LastEnd(file, c) :: ReadEnd(file, c) == Ok(e)
    ensures LastEnd(file, at) && ReadEnd(file, at) == Ok(e)
  {
    at := LastOf(file, |file|);
  }

  lemma LastOf(file: Bytes, below: nat) returns (at: nat)
    requires exists c: nat :: c < below && IsEnd(file, c)
    requires forall c: nat | c >= below :: !IsEnd(file, c)
    ensures LastEnd(file, at)
  {
    var c: nat :| c < below && IsEnd(file, c);
    if IsEnd(file, below - 1) {
      at := below - 1;
    } else {
      at := LastOf(file, below - 1);
    }
  }

  lemma NeverLimit(file: Bytes)
    requires |file| <= MAX_INT64
    ensures forall at: nat | at + END_LENGTH <= |file| :: !ReadEnd(file, at).Limit?
  {}

  lemma NothingAccepted(file: Bytes, maxEntries: uint64, r: Result<End>)
    requires |file| <= MAX_INT64 && !r.Ok?
    requires forall at | LastEnd(file, at) :: ReadEnd(file, at) == r
    ensures !Accepted(file, maxEntries)
  {}

  /** In an accepted archive the prefix before the archive proper, the directory offset and
      the directory size meet at the directory end: nothing wraps. */
  lemma DirectoryPlaced(file: Bytes, maxEntries: uint64, at: nat)
    requires |file| <= MAX_INT64 && Accepted(file, maxEntries) && LastEnd(file, at)
    ensures ReadEnd(file, at).Ok?
    ensures var e := ReadEnd(file, at).value;
      var base := e.end as int - e.size as int - e.offset as int;
      0 <= base <= base + e.offset as int <= e.end as int <= at < |file|
  {
    OneLast(file, at);
    assert AcceptedAt(file, maxEntries, at);
    EndInside(file, at);
  }

  // ---------------------------------------------------------------- which archives are accepted

  predicate HasLocator(file: Bytes, at: nat)
    requires at + END_LENGTH <= |file|
  {
    at >= LOCATOR_LENGTH && At(file, at - LOCATOR_LENGTH, 4) == LOCATOR_SIGNATURE
  }

  function PlainEnd(file: Bytes, at: nat): End
    requires |file| <= MAX_INT64 && at + END_LENGTH <= |file|
  {
    Powers();
    var f := FieldsOf(file, at);
    End(at as int64, f.size as uint64, f.offset as uint64, f.records as uint64)
  }

  /** What section 4.3.16 asks of the end record of an archive without ZIP64 fields. */
  ghost predicate PlainSound(file: Bytes, at: nat, maxEntries: uint64)
    requires |file| <= MAX_INT64 && at + END_LENGTH <= |file|
  {
    && At(file, at + 4, 2) == 0 && At(file, at + 6, 2) == 0
    && FieldsOf(file, at).onDisk == FieldsOf(file, at).records
    && Sound(file, PlainEnd(file, at), maxEntries)
  }

  /** A sound archive without ZIP64 fields is accepted unless one of three fields has a value
      that the code takes for a saturated one: 65535 is such a value of the directory size
      too, which has 32 bits. */
  lemma PlainAccepted(file: Bytes, maxEntries: uint64, at: nat)
    requires |file| <= MAX_INT64 && LastEnd(file, at) && !HasLocator(file, at)
    ensures var f := FieldsOf(file, at);
      Accepted(file, maxEntries) <==>
        && PlainSound(file, at, maxEntries)
        && f.size != MAX_UINT16 && f.records != MAX_UINT16 && f.offset != MAX_UINT32
  {
    hide At, Splits, Placed, StartsRecord;
    OneLast(file, at);
    AcceptedOnlyAt(file, maxEntries, at);
    if UsesZIP64(FieldsOf(file, at)) { assert ReadEnd64(file, at, FieldsOf(file, at)) == Unsafe; }
  }

  lemma AcceptedOnlyAt(file: Bytes, maxEntries: uint64, at: nat)
    requires |file| <= MAX_INT64 && LastEnd(file, at)
    ensures Accepted(file, maxEntries) <==> AcceptedAt(file, maxEntries, at)
  {
    hide At, Sound, ReadEnd;
    OneLast(file, at);
  }

  // ---------------------------------------------------------------- archives with a locator

  /** Before the plain end record there is a locator (section 4.3.15), and before that the
      ZIP64 end record (section 4.3.14) it points to, all on one disk. */
  predicate HasEnd64(file: Bytes, at: nat)
    requires at + END_LENGTH <= |file|
  {
    && HasLocator(file, at)
    && var l := at - LOCATOR_LENGTH;
       var record := At(file, l + 8, 8);
       && At(file, l + 4, 4) == 0 && At(file, l + 16, 4) == 1 && record + END64_LENGTH <= l
       && At(file, record, 4) == END64_SIGNATURE && record + At(file, record + 4, 8) + 12 == l
       && At(file, record + 16, 4) == 0 && At(file, record + 20, 4) == 0
       && At(file, record + 24, 8) == At(file, record + 32, 8)
  }

  function End64(file: Bytes, at: nat): End
    requires |file| <= MAX_INT64 && at + END_LENGTH <= |file| && HasEnd64(file, at)
  {
    Powers();
    var record := At(file, at - LOCATOR_LENGTH + 8, 8);
    End(record as int64, At(file, record + 40, 8) as uint64, At(file, record + 48, 8) as uint64,
        At(file, record + 32, 8) as uint64)
  }

  /** A field of the plain end record is saturated, or says the same. */
  predicate Agrees(f: Fields, e: End) {
    && (f.records == MAX_UINT16 || f.records == e.records as int)
    && (f.onDisk == MAX_UINT16 || f.onDisk == e.records as int)
    && (f.size == MAX_UINT32 || f.size == e.size as int)
    && (f.offset == MAX_UINT32 || f.offset == e.offset as int)
  }

  /** What the standard asks of an archive with ZIP64 fields, on one disk. */
  ghost predicate Sound64(file: Bytes, at: nat, maxEntries: uint64)
    requires |file| <= MAX_INT64 && at + END_LENGTH <= |file|
  {
    && At(file, at + 4, 2) == 0 && At(file, at + 6, 2) == 0
    && HasEnd64(file, at) && Agrees(FieldsOf(file, at), End64(file, at))
    && Sound(file, End64(file, at), maxEntries)
  }

  /** The plain end record asks for the ZIP64 one. */
  predicate Saturated(f: Fields) {
    f.records == MAX_UINT16 || f.onDisk == MAX_UINT16 || f.size == MAX_UINT32 || f.offset == MAX_UINT32
  }

  /** The ZIP64 record is read exactly when it is there and agrees, where the code also lets
      65535 pass for a saturated size. */
  lemma End64Read(file: Bytes, at: nat)
    requires |file| <= MAX_INT64 && at + END_LENGTH <= |file|
    ensures var f := FieldsOf(file, at);
      ReadEnd64(file, at, f).Ok? <==>
        HasEnd64(file, at) && (Agrees(f, End64(file, at)) ||
          (f.size == MAX_UINT16 && Agrees(f.(size := MAX_UINT32), End64(file, at))))
    ensures ReadEnd64(file, at, FieldsOf(file, at)).Ok? ==>
      ReadEnd64(file, at, FieldsOf(file, at)).value == End64(file, at)
  {
    hide At;
  }

  /** A sound archive with ZIP64 fields is accepted exactly when the count or the offset is
      saturated, or its size field reads 65535. If the size alone is saturated, the plain
      record is believed, and 4 GiB of directory are too many. */
  lemma Zip64Accepted(file: Bytes, maxEntries: uint64, at: nat)
    requires |file| <= MAX_INT64 && LastEnd(file, at)
    requires Saturated(FieldsOf(file, at)) && Sound64(file, at, maxEntries)
    ensures var f := FieldsOf(file, at);
      Accepted(file, maxEntries) <==>
        f.records == MAX_UINT16 || f.offset == MAX_UINT32 || f.size == MAX_UINT16
  {
    hide At, Splits, HasEnd64, End64, ReadEnd64;
    AcceptedOnlyAt(file, maxEntries, at);
    End64Read(file, at);
  }

  /** With a locator the plain record decides which of the two is read. */
  lemma LocatorAccepted(file: Bytes, maxEntries: uint64, at: nat)
    requires |file| <= MAX_INT64 && LastEnd(file, at) && HasLocator(file, at)
    ensures var f := FieldsOf(file, at);
      Accepted(file, maxEntries) <==>
        && At(file, at + 4, 2) == 0 && At(file, at + 6, 2) == 0
        && if UsesZIP64(f) then
             && HasEnd64(file, at) && Sound(file, End64(file, at), maxEntries)
             && (Agrees(f, End64(file, at)) ||
                 (f.size == MAX_UINT16 && Agrees(f.(size := MAX_UINT32), End64(file, at))))
           else PlainSound(file, at, maxEntries)
  {
    hide At, Splits, HasEnd64, End64, ReadEnd64, Placed;
    AcceptedOnlyAt(file, maxEntries, at);
    End64Read(file, at);
  }

  // ---------------------------------------------------------------- archives built from a directory

  lemma AtShift(p: Bytes, rest: Bytes, k: nat, n: nat)
    requires k + n <= |rest|
    ensures At(p + rest, |p| + k, n) == At(rest, k, n)
  {
    assert (p + rest)[|p| + k..|p| + k + n] == rest[k..k + n];
  }

  lemma AtFirst(p: Bytes, rest: Bytes)
    ensures At(p + rest, 0, |p|) == Little(p)
  {
    assert (p + rest)[0..|p|] == p;
  }

  /** A number in `n` bytes, then the rest. */
  lemma NumberFirst(v: nat, n: nat, rest: Bytes)
    requires v < Power256(n)
    ensures At(LittleBytes(v, n) + rest, 0, n) == v
  {
    LittleBack(v, n);
    AtFirst(LittleBytes(v, n), rest);
  }

  function Zeros(n: nat): (b: Bytes)
    ensures |b| == n && forall i | 0 <= i < n :: b[i] == 0
  {
    seq(n, i => 0)
  }

  lemma ZerosFirst(n: nat, k: nat, m: nat, rest: Bytes)
    requires k + m <= n
    ensures At(Zeros(n) + rest, k, m) == 0
  {
    LittleZeros((Zeros(n) + rest)[k..k + m]);
  }

  lemma {:induction false} LittleZeros(b: Bytes)
    requires forall i | 0 <= i < |b| :: b[i] == 0
    ensures Little(b) == 0
  {
    if b != [] { LittleZeros(b[1..]); }
  }

  /** The end record of an archive on one disk, without comment. */
  function EndRecord(records: nat, size: nat, offset: nat): (b: Bytes)
    ensures |b| == END_LENGTH
  {
    LittleBytes(END_SIGNATURE, 4) + (Zeros(4) + Counts(records, size, offset))
  }

  function Counts(records: nat, size: nat, offset: nat): (b: Bytes)
    ensures |b| == 14
  {
    LittleBytes(records, 2) + (LittleBytes(records, 2) +
      (LittleBytes(size, 4) + (LittleBytes(offset, 4) + (Zeros(2) + []))))
  }

  lemma CountsRead(records: nat, size: nat, offset: nat)
    requires records < 0x1_0000 && size < 0x1_0000_0000 && offset < 0x1_0000_0000
    ensures var b := Counts(records, size, offset);
      && At(b, 0, 2) == records && At(b, 2, 2) == records && At(b, 4, 4) == size && At(b, 8, 4) == offset
      && At(b, 12, 2) == 0
  {
    hide At, LittleBytes, Zeros;
    Powers();
    var e := Zeros(2) + [];
    var d := LittleBytes(offset, 4) + e;
    var c := LittleBytes(size, 4) + d;
    var b := LittleBytes(records, 2) + c;
    NumberFirst(records, 2, b);
    NumberFirst(records, 2, c);
    NumberFirst(size, 4, d);
    NumberFirst(offset, 4, e);
    ZerosFirst(2, 0, 2, []);
    AtShift(LittleBytes(offset, 4), e, 0, 2);
    AtShift(LittleBytes(size, 4), d, 0, 4);
    AtShift(LittleBytes(size, 4), d, 4, 2);
    AtShift(LittleBytes(records, 2), c, 0, 4);
    AtShift(LittleBytes(records, 2), c, 4, 4);
    AtShift(LittleBytes(records, 2), c, 8, 2);
    AtShift(LittleBytes(records, 2), b, 0, 2);
    AtShift(LittleBytes(records, 2), b, 2, 4);
    AtShift(LittleBytes(records, 2), b, 6, 4);
    AtShift(LittleBytes(records, 2), b, 10, 2);
  }

  /** The end record behind anything is the last one, and is read as it was written. */
  lemma EndRecordRead(front: Bytes, records: nat, size: nat, offset: nat)
    requires records < 0x1_0000 && size < 0x1_0000_0000 && offset < 0x1_0000_0000
    ensures var file, at := front + EndRecord(records, size, offset), |front|;
      && LastEnd(file, at) && At(file, at + 4, 2) == 0 && At(file, at + 6, 2) == 0
      && FieldsOf(file, at) == Fields(records, records, size, offset)
  {
    hide At, LittleBytes, Zeros, Counts;
    Powers();
    var counts, e := Counts(records, size, offset), EndRecord(records, size, offset);
    var tail := Zeros(4) + counts;
    CountsRead(records, size, offset);
    NumberFirst(END_SIGNATURE, 4, tail);
    AtShift(front, e, 0, 4);
    ZerosFirst(4, 0, 2, counts);
    ZerosFirst(4, 2, 2, counts);
    Field(front, e, tail, counts, 0, 2);
    Field(front, e, tail, counts, 2, 2);
    Field(front, e, tail, counts, 4, 4);
    Field(front, e, tail, counts, 8, 4);
    Field(front, e, tail, counts, 12, 2);
    AtShift(LittleBytes(END_SIGNATURE, 4), tail, 0, 2);
    AtShift(LittleBytes(END_SIGNATURE, 4), tail, 2, 2);
    AtShift(front, e, 4, 2);
    AtShift(front, e, 6, 2);
  }

  lemma Field(front: Bytes, e: Bytes, tail: Bytes, counts: Bytes, k: nat, n: nat)
    requires |counts| == 14 && k + n <= 14 && tail == Zeros(4) + counts
    requires e == LittleBytes(END_SIGNATURE, 4) + tail
    ensures At(front + e, |front| + 8 + k, n) == At(counts, k, n)
  {
    hide At, LittleBytes, Zeros;
    AtShift(Zeros(4), counts, k, n);
    AtShift(LittleBytes(END_SIGNATURE, 4), tail, 4 + k, n);
    AtShift(front, e, 8 + k, n);
  }

  /** No locator before the place where the region ends. */
  predicate NoLocator(region: Bytes) {
    |region| < LOCATOR_LENGTH || At(region, |region| - LOCATOR_LENGTH, 4) != LOCATOR_SIGNATURE
  }

  function PlainFile(region: Bytes, records: nat): Bytes { region + EndRecord(records, |region|, 0) }

  /** From any directory: the archive that consists of it and its end record is sound, and
      is accepted unless the directory takes exactly 65535 bytes. */
  lemma PlainFileAccepted(region: Bytes, lengths: seq<nat>, maxEntries: uint64)
    requires Splits(region, lengths) && |lengths| <= maxEntries as int && |lengths| < MAX_UINT16
    requires |region| <= MAX_DIRECTORY && NoLocator(region)
    ensures var file := PlainFile(region, |lengths|);
      && PlainSound(file, |region|, maxEntries)
      && (Accepted(file, maxEntries) <==> |region| != 0xFFFF)
  {
    hide At, Splits, EndRecord;
    var file, at := PlainFile(region, |lengths|), |region|;
    EndRecordRead(region, |lengths|, |region|, 0);
    assert Directory(file, PlainEnd(file, at)) == region;
    LocatorOf(file, region);
    PlainAccepted(file, maxEntries, at);
  }

  lemma LocatorOf(file: Bytes, region: Bytes)
    requires region <= file && |region| + END_LENGTH <= |file|
    ensures HasLocator(file, |region|) <==> !NoLocator(region)
  {
    if |region| >= LOCATOR_LENGTH {
      var at := |region| - LOCATOR_LENGTH;
      assert file[at..at + 4] == region[at..at + 4];
    }
  }

  /** A directory of one record whose name takes 65489 bytes. */
  function WideRecord(): (b: Bytes)
    ensures |b| == 0xFFFF
  {
    LittleBytes(HEADER_SIGNATURE, 4) + (Zeros(24) + (LittleBytes(65489, 2) + (Zeros(65505) + [])))
  }

  lemma WideRecordSplits()
    ensures Splits(WideRecord(), [0xFFFF]) && NoLocator(WideRecord())
  {
    hide At, LittleBytes, Zeros;
    Powers();
    var d := Zeros(65505) + [];
    var c := LittleBytes(65489, 2) + d;
    var b := Zeros(24) + c;
    var w := LittleBytes(HEADER_SIGNATURE, 4) + b;
    assert w == WideRecord();
    NumberFirst(HEADER_SIGNATURE, 4, b);
    NumberFirst(65489, 2, d);
    AtShift(Zeros(24), c, 0, 2);
    AtShift(LittleBytes(HEADER_SIGNATURE, 4), b, 24, 2);
    WideZeros(w, b, c, d, 30, 2);
    WideZeros(w, b, c, d, 32, 2);
    WideZeros(w, b, c, d, 0xFFFF - 20, 4);
    assert w[0xFFFF..] == [];
    assert [0xFFFF][1..] == [];
    assert Splits([], []);
  }

  lemma WideZeros(w: Bytes, b: Bytes, c: Bytes, d: Bytes, at: nat, n: nat)
    requires d == Zeros(65505) + [] && c == LittleBytes(65489, 2) + d && b == Zeros(24) + c
    requires w == LittleBytes(HEADER_SIGNATURE, 4) + b && 30 <= at && at + n <= 0xFFFF
    ensures At(w, at, n) == 0
  {
    hide At, LittleBytes, Zeros;
    ZerosFirst(65505, at - 30, n, []);
    AtShift(LittleBytes(65489, 2), d, at - 30, n);
    AtShift(Zeros(24), c, at - 28, n);
    AtShift(LittleBytes(HEADER_SIGNATURE, 4), b, at - 4, n);
  }

  /** An archive that is sound and refused. */
  lemma DirectoryOf65535(maxEntries: uint64)
    requires maxEntries > 0
    ensures var file := PlainFile(WideRecord(), 1);
      PlainSound(file, 0xFFFF, maxEntries) && !Accepted(file, maxEntries)
  {
    hide Splits, WideRecord, PlainFile;
    WideRecordSplits();
    PlainFileAccepted(WideRecord(), [0xFFFF], maxEntries);
  }

  /** A ZIP64 end record without extensions, and the locator that points to it. */
  function End64Record(records: nat, size: nat): (b: Bytes)
    ensures |b| == END64_LENGTH
  {
    LittleBytes(END64_SIGNATURE, 4) + (LittleBytes(44, 8) + (Zeros(12) + (LittleBytes(records, 8) +
      (LittleBytes(records, 8) + (LittleBytes(size, 8) + (Zeros(8) + []))))))
  }

  function Locator(record: nat): (b: Bytes)
    ensures |b| == LOCATOR_LENGTH
  {
    LittleBytes(LOCATOR_SIGNATURE, 4) + (Zeros(4) + (LittleBytes(record, 8) + (LittleBytes(1, 4) + [])))
  }

  lemma End64RecordRead(records: nat, size: nat)
    requires records < 0x1_0000_0000 && size < 0x1_0000_0000
    ensures var b := End64Record(records, size);
      && At(b, 0, 4) == END64_SIGNATURE && At(b, 4, 8) == 44 && At(b, 16, 4) == 0 && At(b, 20, 4) == 0
      && At(b, 24, 8) == records && At(b, 32, 8) == records && At(b, 40, 8) == size && At(b, 48, 8) == 0
  {
    hide At, LittleBytes, Zeros;
    Powers();
    var f := Zeros(8) + [];
    var e := LittleBytes(size, 8) + f;
    var d := LittleBytes(records, 8) + e;
    var c := LittleBytes(records, 8) + d;
    var z := Zeros(12) + c;
    var l := LittleBytes(44, 8) + z;
    NumberFirst(END64_SIGNATURE, 4, l);
    NumberFirst(44, 8, z);
    NumberFirst(records, 8, d);
    NumberFirst(records, 8, e);
    NumberFirst(size, 8, f);
    ZerosFirst(8, 0, 8, []);
    ZerosFirst(12, 4, 4, c);
    ZerosFirst(12, 8, 4, c);
    AtShift(LittleBytes(records, 8), d, 0, 8);
    AtShift(LittleBytes(records, 8), e, 0, 8);
    AtShift(LittleBytes(records, 8), e, 8, 8);
    AtShift(LittleBytes(size, 8), f, 0, 8);
    AtShift(LittleBytes(records, 8), d, 8, 8);
    AtShift(LittleBytes(records, 8), d, 16, 8);
    forall k, n | 0 <= k && 0 <= n && k + n <= 44 ensures At(End64Record(records, size), 12 + k, n) == At(z, k, n) {
      AtShift(LittleBytes(44, 8), z, k, n);
      AtShift(LittleBytes(END64_SIGNATURE, 4), l, 8 + k, n);
    }
    forall k, n | 0 <= k && 0 <= n && k + n <= 32 ensures At(z, 12 + k, n) == At(c, k, n) {
      AtShift(Zeros(12), c, k, n);
    }
    AtShift(LittleBytes(END64_SIGNATURE, 4), l, 0, 8);
  }

  lemma LocatorRead(record: nat)
    requires record < 0x1_0000_0000
    ensures var b := Locator(record);
      && At(b, 0, 4) == LOCATOR_SIGNATURE && At(b, 4, 4) == 0 && At(b, 8, 8) == record && At(b, 16, 4) == 1
  {
    hide At, LittleBytes, Zeros;
    Powers();
    var d := LittleBytes(1, 4) + [];
    var c := LittleBytes(record, 8) + d;
    var z := Zeros(4) + c;
    NumberFirst(LOCATOR_SIGNATURE, 4, z);
    ZerosFirst(4, 0, 4, c);
    NumberFirst(record, 8, d);
    NumberFirst(1, 4, []);
    AtShift(LittleBytes(LOCATOR_SIGNATURE, 4), z, 0, 4);
    AtShift(Zeros(4), c, 0, 8);
    AtShift(LittleBytes(LOCATOR_SIGNATURE, 4), z, 4, 8);
    AtShift(LittleBytes(record, 8), d, 0, 4);
    AtShift(Zeros(4), c, 8, 4);
    AtShift(LittleBytes(LOCATOR_SIGNATURE, 4), z, 12, 4);
  }

  /** An archive with ZIP64 fields whose plain record saturates the size only. */
  function SizeOnlyFile(region: Bytes, records: nat): Bytes {
    region + (End64Record(records, |region|) + (Locator(|region|) + EndRecord(records, MAX_UINT32, 0)))
  }

  lemma SizeOnlyEnd(region: Bytes, records: nat)
    requires records < MAX_UINT16 && |region| <= MAX_DIRECTORY
    ensures var file, at := SizeOnlyFile(region, records), |region| + 76;
      && LastEnd(file, at) && At(file, at + 4, 2) == 0 && At(file, at + 6, 2) == 0
      && FieldsOf(file, at) == Fields(records, records, MAX_UINT32, 0)
  {
    hide At, LittleBytes, EndRecord, End64Record, Locator, FieldsOf, LastEnd;
    var front := region + (End64Record(records, |region|) + Locator(|region|));
    EndRecordRead(front, records, MAX_UINT32, 0);
    assert front + EndRecord(records, MAX_UINT32, 0) == SizeOnlyFile(region, records);
  }

  lemma SizeOnlyEnd64(region: Bytes, records: nat)
    requires records < MAX_UINT16 && |region| <= MAX_DIRECTORY
    ensures var file, at := SizeOnlyFile(region, records), |region| + 76;
      && HasEnd64(file, at) && End64(file, at) == End(|region| as int64, |region| as uint64, 0, records as uint64)
  {
    hide At, LittleBytes, EndRecord, End64Record, Locator;
    var e64, rest := End64Record(records, |region|), Locator(|region|) + EndRecord(records, MAX_UINT32, 0);
    End64RecordRead(records, |region|);
    LocatorRead(|region|);
    forall k, n | 0 <= k && 0 <= n && k + n <= 56
      ensures At(SizeOnlyFile(region, records), |region| + k, n) == At(e64, k, n)
    {
      AtShift(region, e64 + rest, k, n);
      AtFront(e64, rest, k, n);
    }
    forall k, n | 0 <= k && 0 <= n && k + n <= 20
      ensures At(SizeOnlyFile(region, records), |region| + 56 + k, n) == At(Locator(|region|), k, n)
    {
      AtShift(region, e64 + rest, 56 + k, n);
      AtShift(e64, rest, k, n);
      AtFront(Locator(|region|), EndRecord(records, MAX_UINT32, 0), k, n);
    }
    LocatorFields(SizeOnlyFile(region, records), |region|, records);
  }

  lemma AtFront(p: Bytes, rest: Bytes, k: nat, n: nat)
    requires k + n <= |p|
    ensures At(p + rest, k, n) == At(p, k, n)
  {
    assert (p + rest)[k..k + n] == p[k..k + n];
  }

  /** The bytes of `b` are read from `at` on. */
  ghost predicate Shows(file: Bytes, at: nat, b: Bytes) {
    at + |b| <= |file| && forall k, n | 0 <= k && 0 <= n && k + n <= |b| :: At(file, at + k, n) == At(b, k, n)
  }

  lemma LocatorFields(file: Bytes, record: nat, records: nat)
    requires record <= MAX_DIRECTORY && record + 76 + END_LENGTH <= |file| <= MAX_INT64 && records < MAX_UINT16
    requires Shows(file, record, End64Record(records, record)) && Shows(file, record + 56, Locator(record))
    ensures HasEnd64(file, record + 76)
    ensures End64(file, record + 76) == End(record as int64, record as uint64, 0, records as uint64)
  {
    hide At, End64Record, Locator;
    End64RecordRead(records, record);
    LocatorRead(record);
    var l := record + 56;
    assert At(file, l + 0, 4) == LOCATOR_SIGNATURE && At(file, l + 4, 4) == 0;
    assert At(file, l + 8, 8) == record && At(file, l + 16, 4) == 1;
    assert At(file, record + 0, 4) == END64_SIGNATURE && At(file, record + 4, 8) == 44;
    assert At(file, record + 16, 4) == 0 && At(file, record + 20, 4) == 0;
    assert At(file, record + 24, 8) == records && At(file, record + 32, 8) == records;
    assert At(file, record + 40, 8) == record && At(file, record + 48, 8) == 0;
  }

  /** From any directory: such an archive is sound, and refused. */
  lemma SizeOnlyRefused(region: Bytes, lengths: seq<nat>, maxEntries: uint64)
    requires Splits(region, lengths) && |lengths| <= maxEntries as int && |lengths| < MAX_UINT16
    requires |region| <= MAX_DIRECTORY
    ensures var file, at := SizeOnlyFile(region, |lengths|), |region| + 76;
      && LastEnd(file, at) && Saturated(FieldsOf(file, at)) && Sound64(file, at, maxEntries)
      && !Accepted(file, maxEntries)
  {
    hide At, Splits, EndRecord, End64Record, Locator, HasEnd64, End64;
    var file, at := SizeOnlyFile(region, |lengths|), |region| + 76;
    SizeOnlyEnd(region, |lengths|);
    SizeOnlyEnd64(region, |lengths|);
    assert Directory(file, End64(file, at)) == region;
    Zip64Accepted(file, maxEntries, at);
  }
}
