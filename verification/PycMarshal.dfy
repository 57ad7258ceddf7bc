/** The reader of Python marshal data: a parser whose position, object count, reference table
    and byte budgets move with every record. Where a method takes `want`, that is a record
    known to be next; what it has read is returned as `got`. */
module PycMarshal {
  import opened Counting
  import opened Words
  import opened PycRecords
  import opened PycGraph
  import opened PycMeaning
  import opened PycReading
  import Acceptance = PycAcceptance

  datatype Result<+T> = Ok(value: T) | Malformed | Limit

  /** Record `t` has been read from `start`, up to its object being put in place. */
  ghost predicate Completed(
    payload: Bytes, c: Config, start: State, now: State, o: Object, t: Record, k: char, flag: bool, depth: int)
  {
    && !t.Reference? && KindOf(t) == k && FlagOf(t) == flag && Good(payload, c, start, t, depth)
    && now == Filled(start, t) && o == Finished(start, t)
  }

  /** Putting the object in place keeps the accounts. */
  ghost predicate Placeable(c: Config, start: State, now: State, o: Object) {
    && start.heap + [Blank(o.kind)] <= now.heap
    && Steady(Placed(now, |start.heap|, o), c) && Advanced(start, Placed(now, |start.heap|, o))
  }

  /** The kind of a record has been read, and its object entered. */
  ghost predicate Opening(payload: Bytes, c: Config, start: State, k: char, flag: bool, depth: int) {
    && Steady(start, c) && start.used.objects < c.maxObjects && depth <= c.maxDepth
    && Starts(payload, start, k, flag) && k as int < 128 && k != 'r' && (k == '0' ==> !flag)
  }

  /** Record `t` of this kind is next, if anything is known. */
  ghost predicate Wanted(
    payload: Bytes, c: Config, start: State, want: Option<Record>, k: char, flag: bool, depth: int)
  {
    want.Some? ==> KindOf(want.value) == k && FlagOf(want.value) == flag && Good(payload, c, start, want.value, depth)
  }

  class Parser {
    const payload: Bytes
    const config: Config
    var position: nat
    var objects: int
    var codeObjectCount: int
    var scalarBytes: int
    var bytecodeBytes: int
    var references: seq<Id>
    var heap: seq<Object>

    /** The budgets hold for what is used and for what is in the heap, and references name
        objects that exist. */
    predicate Valid()
      reads this
    {
      Steady(Now(), config)
    }

    function Now(): State
      reads this
    {
      State(position, Usage(objects, codeObjectCount, scalarBytes, bytecodeBytes), references, heap)
    }

    function Rest(): Bytes
      reads this
    {
      RestAt(payload, position)
    }

    constructor (payload: Bytes, headerSize: nat, config: Config)
      ensures Valid() && this.payload == payload && this.config == config
      ensures Now() == Start(headerSize)
    {
      this.payload := payload;
      this.config := config;
      position := headerSize;
      objects, codeObjectCount, scalarBytes, bytecodeBytes := 0, 0, 0, 0;
      references, heap := [], [];
    }

    /** take */
    method Take(count: int) returns (r: Result<Bytes>)
      requires count >= 0
      modifies this`position
      ensures r.Ok? <==> count <= |old(Rest())| && old(position) <= |payload|
      ensures r.Ok? ==> r.value == old(Rest())[..count] && position == old(position) + count &&
                        Rest() == old(Rest())[count..]
      ensures !r.Ok? ==> r == Malformed && position == old(position)
    {
      if position > |payload| || count > |payload| - position { return Malformed; }
      var start := position;
      position := position + count;
      return Ok(payload[start..position]);
    }

    method ReadByte() returns (r: Result<Byte>)
      modifies this`position
      ensures r.Ok? <==> |old(Rest())| >= 1
      ensures r.Ok? ==> r.value == old(Rest())[0] && position == old(position) + 1 &&
                        Rest() == old(Rest())[1..]
      ensures !r.Ok? ==> r == Malformed && position == old(position)
    {
      var b := Take(1);
      if !b.Ok? { return Malformed; }
      return Ok(b.value[0]);
    }

    method ReadInt32() returns (r: Result<int>)
      modifies this`position
      ensures r.Ok? <==> |old(Rest())| >= 4
      ensures r.Ok? ==>
        && r.value == Signed(old(Rest())[..4]) && SignedBytes(r.value) <= old(Rest())
        && position == old(position) + 4 && Rest() == old(Rest())[4..]
      ensures !r.Ok? ==> r == Malformed && position == old(position)
    {
      hide Signed, SignedBytes;
      var b := Take(4);
      if !b.Ok? { return Malformed; }
      BytesOfSigned(b.value);
      return Ok(Signed(b.value));
    }

    /** readBlob */
    method ReadBlob(length: int) returns (r: Result<(Bytes, nat)>)
      requires length >= 0
      modifies this`position, this`scalarBytes
      ensures r.Ok? <==> length <= config.maxScalar - old(scalarBytes) && length <= |old(Rest())| &&
                         old(position) <= |payload|
      ensures r.Ok? ==>
        && r.value == (old(Rest())[..length], old(position))
        && scalarBytes == old(scalarBytes) + length && position == old(position) + length
        && Rest() == old(Rest())[length..]
      ensures !r.Ok? ==> position == old(position) && scalarBytes == old(scalarBytes) &&
                         (r == Limit <==> length > config.maxScalar - scalarBytes)
    {
      if length < 0 || length > config.maxScalar - scalarBytes { return Limit; }
      var offset := position;
      var b := Take(length);
      if !b.Ok? { return Malformed; }
      scalarBytes := scalarBytes + length;
      return Ok((b.value, offset));
    }

    /** readShortBlob, and skipShortScalar where the bytes are dropped. */
    method ReadShortBlob() returns (r: Result<(Bytes, nat)>)
      modifies this`position, this`scalarBytes
      ensures r.Ok? <==> var rest := old(Rest());
        |rest| >= 1 && var length: int := rest[0];
        length <= |rest| - 1 && length <= config.maxScalar - old(scalarBytes)
      ensures r.Ok? ==> var rest := old(Rest()); var length: int := rest[0];
        && r.value == (rest[1..][..length], old(position) + 1)
        && scalarBytes == old(scalarBytes) + length && position == old(position) + 1 + length
        && Rest() == rest[1..][length..]
      ensures !r.Ok? ==> position >= old(position) && scalarBytes == old(scalarBytes)
    {
      var length := ReadByte();
      if !length.Ok? { return Malformed; }
      r := ReadBlob(length.value);
    }

    /** readLongBlob */
    method ReadLongBlob() returns (r: Result<(Bytes, nat)>)
      modifies this`position, this`scalarBytes
      ensures r.Ok? <==> var rest := old(Rest());
        && |rest| >= 4 && 0 <= Signed(rest[..4]) <= |rest| - 4
        && Signed(rest[..4]) <= config.maxScalar - old(scalarBytes)
      ensures r.Ok? ==> var rest := old(Rest()); var length := Signed(rest[..4]);
        && r.value == (rest[4..][..length], old(position) + 4)
        && scalarBytes == old(scalarBytes) + length && position == old(position) + 4 + length
      ensures !r.Ok? ==> position >= old(position) && scalarBytes == old(scalarBytes)
    {
      hide Signed, SignedBytes;
      var length := ReadInt32();
      if !length.Ok? { return Malformed; }
      if length.value < 0 { return Malformed; }
      r := ReadBlob(length.value);
    }

    /** skipLongInteger */
    method SkipLongInteger() returns (r: Result<(Bytes, nat)>)
      modifies this`position, this`scalarBytes
      ensures r.Ok? <==> var rest := old(Rest());
        && |rest| >= 4 && Abs(Signed(rest[..4])) <= config.maxItems
        && 2 * Abs(Signed(rest[..4])) <= |rest| - 4
        && 2 * Abs(Signed(rest[..4])) <= config.maxScalar - old(scalarBytes)
      ensures r.Ok? ==> var rest := old(Rest()); var length := 2 * Abs(Signed(rest[..4]));
        && r.value == (rest[4..][..length], old(position) + 4)
        && scalarBytes == old(scalarBytes) + length && position == old(position) + 4 + length
      ensures !r.Ok? ==> position >= old(position) && scalarBytes == old(scalarBytes)
    {
      hide Signed, SignedBytes;
      var digits := ReadInt32();
      if !digits.Ok? { return Malformed; }
      var absDigits := digits.value;
      if absDigits < 0 { absDigits := -absDigits; }
      if absDigits > config.maxItems || absDigits > MAX_INT64 / 2 { return Limit; }
      r := ReadBlob(absDigits * 2);
    }

    /** The content is next, and there is room for it. */
    predicate ContentExpected(kind: char, content: Content)
      reads this
    {
      && Writable(kind, content) && ContentBytes(content) <= Rest()
      && Charge(content) <= config.maxScalar - scalarBytes
      && (content.Digits? ==> Abs(content.digits) <= config.maxItems)
    }

    /** A complex number as text: two short scalars. */
    method SkipComplex() returns (r: Result<(Bytes, Bytes)>)
      modifies this`position, this`scalarBytes
      ensures r.Ok? <==> var rest := old(Rest());
        |rest| >= 1 && var n: int := rest[0];
        n <= |rest| - 1 && n <= config.maxScalar - old(scalarBytes) &&
        var later := rest[1..][n..];
        |later| >= 1 && var m: int := later[0];
        m <= |later| - 1 && m <= config.maxScalar - old(scalarBytes) - n
      ensures r.Ok? ==>
        var rest := old(Rest()); var n: int := rest[0]; var later := rest[1..][n..]; var m: int := later[0];
        && r.value == (rest[1..][..n], later[1..][..m])
        && scalarBytes == old(scalarBytes) + n + m && position == old(position) + 2 + n + m
      ensures !r.Ok? ==> position >= old(position) && scalarBytes >= old(scalarBytes) &&
                         (old(scalarBytes) <= config.maxScalar ==> scalarBytes <= config.maxScalar)
    {
      var re := ReadShortBlob();
      if !re.Ok? { return if re.Limit? then Limit else Malformed; }
      var im := ReadShortBlob();
      if !im.Ok? { return if im.Limit? then Limit else Malformed; }
      return Ok((re.value.0, im.value.0));
    }

    /** Scalars: their bytes are skipped. */
    method ReadScalar(kind: char, ghost want: Option<Content>) returns (r: Result<()>, ghost got: Content)
      requires Valid() && !IsPlain(kind) && !IsLongText(kind) && !IsShortText(kind)
      requires want.Some? ==> ContentExpected(kind, want.value)
      modifies this`position, this`scalarBytes
      ensures Valid() && position >= old(position) && scalarBytes >= old(scalarBytes)
      ensures r.Ok? ==> Taken(config, kind, old(Rest()), got, position - old(position), scalarBytes - old(scalarBytes))
      ensures r.Ok? ==> TextOf(kind, got) == [] && TextOffset(kind, got, old(position)) == 0
      ensures want.Some? ==> r.Ok? && got == want.value
    {
      hide Signed, SignedBytes, Ascii, Little, LittleBytes, ContentBytes, Writable, Steady, Taken, FixedSize,
           IsPlain, IsLongText, IsShortText, Abs;
      ghost var rest, start := Rest(), Now();
      SteadyScalar(start, config);
      got := Fixed([]);
      if want.Some? { ContentTells(kind, want.value, rest); }
      if FixedSize(kind) > 0 {
        var skipped := Take(FixedSize(kind));
        Charged(start, Now(), config);
        if !skipped.Ok? { return Malformed, got; }
        got := Fixed(skipped.value);
        FixedRead(config, kind, rest, skipped.value);
        return Ok(()), got;
      }
      if kind == 'f' {
        var text := ReadShortBlob();
        Charged(start, Now(), config);
        if !text.Ok? { return if text.Limit? then Limit else Malformed, got; }
        got := Short(text.value.0);
        ShortRead(config, kind, rest, text.value.0);
        return Ok(()), got;
      }
      if kind == 'x' {
        var pair := SkipComplex();
        Charged(start, Now(), config);
        if !pair.Ok? { return if pair.Limit? then Limit else Malformed, got; }
        got := Pair(pair.value.0, pair.value.1);
        PairRead(config, kind, rest, pair.value.0, pair.value.1);
        return Ok(()), got;
      }
      if kind == 'l' {
        var digits := SkipLongInteger();
        Charged(start, Now(), config);
        if !digits.Ok? { return if digits.Limit? then Limit else Malformed, got; }
        got := Digits(Signed(rest[..4]), digits.value.0);
        DigitsRead(config, kind, rest, got.digits, digits.value.0);
        return Ok(()), got;
      }
      return Malformed, got;
    }

    /** The records without children, after their kind. The result is the text of a string and
        where it begins. */
    method ReadLeaf(kind: char, ghost want: Option<Content>) returns (r: Result<(Bytes, nat)>, ghost got: Content)
      requires Valid()
      requires want.Some? ==> ContentExpected(kind, want.value)
      modifies this`position, this`scalarBytes
      ensures Valid() && position >= old(position) && scalarBytes >= old(scalarBytes)
      ensures r.Ok? ==> Taken(config, kind, old(Rest()), got, position - old(position), scalarBytes - old(scalarBytes))
      ensures r.Ok? ==> r.value == (TextOf(kind, got), TextOffset(kind, got, old(position)))
      ensures want.Some? ==> r.Ok? && got == want.value
    {
      hide Signed, SignedBytes, Ascii, Little, LittleBytes, ContentBytes, Writable, Steady, Taken;
      ghost var rest, start := Rest(), Now();
      SteadyScalar(start, config);
      got := Empty;
      if want.Some? { ContentTells(kind, want.value, rest); }
      if IsPlain(kind) {
        EmptyRead(config, kind, rest);
        return Ok(([], 0)), got;
      }
      if IsLongText(kind) {
        r := ReadLongBlob();
        Charged(start, Now(), config);
        if !r.Ok? { return; }
        if (kind == 'a' || kind == 'A') && !Ascii(r.value.0) { return Malformed, got; }
        got := Long(r.value.0);
        LongRead(config, kind, rest, r.value.0);
        return;
      }
      if IsShortText(kind) {
        r := ReadShortBlob();
        Charged(start, Now(), config);
        if !r.Ok? { return; }
        if !Ascii(r.value.0) { return Malformed, got; }
        got := Short(r.value.0);
        ShortRead(config, kind, rest, r.value.0);
        return;
      }
      var scalar;
      scalar, got := ReadScalar(kind, want);
      if !scalar.Ok? { return if scalar.Limit? then Limit else Malformed, got; }
      return Ok(([], 0)), got;
    }

    /** readObject */
    method ReadObject(depth: int, ghost want: Option<Record>) returns (r: Result<Id>, ghost got: Record)
      requires Valid()
      requires want.Some? ==> Good(payload, config, Now(), want.value, depth)
      modifies this
      ensures Valid() && Advanced(old(Now()), Now())
      ensures r.Ok? ==>
        && Good(payload, config, old(Now()), got, depth) && Now() == After(old(Now()), got)
        && r.value == Value(old(Now()), got)
      ensures want.Some? ==> r.Ok? && got == want.value
      decreases config.maxDepth - depth, 7
    {
      hide Good, After, Value, Signed, SignedBytes, Held, Closed;
      ghost var start := Now();
      got := NULL_RECORD;
      if want.Some? { GoodTells(payload, config, start, want.value, depth); }
      if depth > config.maxDepth { return Limit, got; }
      if objects >= config.maxObjects { return Limit, got; }
      var raw := ReadByte();
      if !raw.Ok? { return Malformed, got; }
      objects := objects + 1;
      var kind := (raw.value % 128) as char;
      var flagged := raw.value >= 128;
      assert KindByte(kind, flagged) == raw.value;
      if kind == 'r' {
        if flagged { return Malformed, got; }
        r, got := ReadReference(depth, start, want);
        return;
      }
      if kind == '0' && flagged { return Malformed, got; }
      r, got := ReadRecord(kind, flagged, depth, start, want);
    }

    /** A record that refers to an earlier object. */
    method ReadReference(depth: int, ghost start: State, ghost want: Option<Record>)
      returns (r: Result<Id>, ghost got: Record)
      requires Steady(start, config) && start.used.objects < config.maxObjects && depth <= config.maxDepth
      requires Starts(payload, start, 'r', false) && Now() == Spend(Skip(start, 1), ONE_OBJECT)
      requires want.Some? ==> want.value.Reference? && Good(payload, config, start, want.value, depth)
      modifies this`position
      ensures Valid() && Advanced(start, Now())
      ensures r.Ok? ==>
        && Good(payload, config, start, got, depth) && Now() == After(start, got)
        && r.value == Value(start, got)
      ensures want.Some? ==> r.Ok? && got == want.value
    {
      hide Good, After, Value, Signed, SignedBytes, Held, Closed, Starts;
      got := NULL_RECORD;
      if want.Some? { ReferenceTells(payload, config, start, want.value.index, depth); }
      var index := ReadInt32();
      if !index.Ok? { return Malformed, got; }
      if index.value < 0 || index.value >= |references| { return Malformed, got; }
      got := Reference(index.value);
      ReferenceGood(payload, config, start, index.value, depth);
      ReferenceRead(start, index.value);
      return Ok(references[index.value]), got;
    }

    /** A record that is no reference: the object is entered into the heap, and into the
        reference table if it is flagged, before its contents are read. */
    method ReadRecord(kind: char, flagged: bool, depth: int, ghost start: State, ghost want: Option<Record>)
      returns (r: Result<Id>, ghost got: Record)
      requires Opening(payload, config, start, kind, flagged, depth)
      requires Now() == Spend(Skip(start, 1), ONE_OBJECT)
      requires Wanted(payload, config, start, want, kind, flagged, depth)
      modifies this
      ensures Valid() && Advanced(start, Now())
      ensures r.Ok? ==>
        && Good(payload, config, start, got, depth) && Now() == After(start, got)
        && r.value == Value(start, got)
      ensures want.Some? ==> r.Ok? && got == want.value
      decreases config.maxDepth - depth, 6
    {
      hide Good, Held, Closed, Filled, Finished;
      got := NULL_RECORD;
      Entering(start, config, kind, flagged);
      var id := |heap|;
      heap := heap + [Blank(kind)];
      if flagged {
        if |references| >= config.maxObjects { assert false; return Limit, got; }
        references := references + [id];
      }
      assert Now() == Entered(start, kind, flagged);
      var filled;
      filled, got := ReadInside(kind, flagged, depth, start, want);
      if !filled.Ok? { return if filled.Limit? then Limit else Malformed, got; }
      heap := heap[id := filled.value];
      return Ok(id), got;
    }

    /** What follows the kind of a record, as the object it describes. */
    method ReadInside(kind: char, flagged: bool, depth: int, ghost start: State, ghost want: Option<Record>)
      returns (r: Result<Object>, ghost got: Record)
      requires Valid() && Opening(payload, config, start, kind, flagged, depth)
      requires Now() == Entered(start, kind, flagged)
      requires Wanted(payload, config, start, want, kind, flagged, depth)
      modifies this
      ensures Valid() && Advanced(start, Now())
      ensures r.Ok? ==>
        && Completed(payload, config, start, Now(), r.value, got, kind, flagged, depth)
        && Placeable(config, start, Now(), r.value)
      ensures want.Some? ==> r.Ok? && got == want.value
      decreases config.maxDepth - depth, 5
    {
      hide Good, Held, Closed, Filled, Finished, Completed, Placeable, Steady, Starts;
      if want.Some? { GoodTells(payload, config, start, want.value, depth); }
      if IsContainer(kind) || kind == ')' {
        r, got := ReadContainer(kind, flagged, depth, start, want);
      } else if kind == '{' {
        r, got := ReadDictionaryRecord(flagged, depth, start, want);
      } else if kind == 'c' {
        r, got := ReadCodeRecord(flagged, depth, start, want);
      } else {
        r, got := ReadLeafRecord(kind, flagged, depth, start, want);
      }
    }

    method ReadLeafRecord(kind: char, flagged: bool, depth: int, ghost start: State, ghost want: Option<Record>)
      returns (r: Result<Object>, ghost got: Record)
      requires Valid() && Opening(payload, config, start, kind, flagged, depth)
      requires Now() == Entered(start, kind, flagged) && (want.Some? ==> want.value.Leaf?)
      requires Wanted(payload, config, start, want, kind, flagged, depth)
      modifies this
      ensures Valid() && Advanced(start, Now())
      ensures r.Ok? ==>
        && Completed(payload, config, start, Now(), r.value, got, kind, flagged, depth)
        && Placeable(config, start, Now(), r.value)
      ensures want.Some? ==> r.Ok? && got == want.value
      decreases config.maxDepth - depth, 4
    {
      hide Good, Held, Closed, Writable, ContentBytes, Charge, TextOf, TextOffset, Filled, Finished;
      ghost var entered := Now();
      got := NULL_RECORD;
      Entering(start, config, kind, flagged);
      if want.Some? { LeafGood(payload, config, start, flagged, kind, want.value.content, depth); }
      var text;
      ghost var content;
      text, content := ReadLeaf(kind, if want.Some? then Some(want.value.content) else None);
      Further(start, entered, Now());
      if !text.Ok? { return if text.Limit? then Limit else Malformed, got; }
      got := Leaf(flagged, kind, content);
      r := Ok(Object(kind, text.value.0, text.value.1, [], None));
      LeafGood(payload, config, start, flagged, kind, content, depth);
      LeafFilled(start, flagged, kind, content);
      PlacingLeaf(start, Now(), config, r.value);
    }

    method ReadContainer(kind: char, flagged: bool, depth: int, ghost start: State, ghost want: Option<Record>)
      returns (r: Result<Object>, ghost got: Record)
      requires Valid() && Opening(payload, config, start, kind, flagged, depth)
      requires IsContainer(kind) || kind == ')'
      requires Now() == Entered(start, kind, flagged) && (want.Some? ==> want.value.Container?)
      requires Wanted(payload, config, start, want, kind, flagged, depth)
      modifies this
      ensures Valid() && Advanced(start, Now())
      ensures r.Ok? ==>
        && Completed(payload, config, start, Now(), r.value, got, kind, flagged, depth)
        && Placeable(config, start, Now(), r.value)
      ensures want.Some? ==> r.Ok? && got == want.value
      decreases config.maxDepth - depth, 4
    {
      hide Good, AllGood, Held, Filled, Finished, Signed, SignedBytes, CountBytes, LittleBytes, AfterAll, Values, Steady;
      ghost var entered := Now();
      got := NULL_RECORD;
      Entering(start, config, kind, flagged);
      if want.Some? {
        ContainerGood(payload, config, start, flagged, kind, want.value.items, depth);
        CountTells(kind, |want.value.items|, Rest());
      }
      ghost var rest := Rest();
      var count;
      if kind == ')' {
        var short := ReadByte();
        Skipped(entered, Now(), config);
        if !short.Ok? { return Malformed, got; }
        count := short.value;
      } else {
        var long := ReadInt32();
        Skipped(entered, Now(), config);
        if !long.Ok? { return Malformed, got; }
        count := long.value;
        if count < 0 || count > config.maxItems { return Limit, got; }
      }
      CountRead(kind, count, rest);
      ghost var inner := Now();
      assert inner == Opened(start, kind, flagged);
      Further(start, entered, inner);
      var items;
      ghost var records;
      items, records := ReadItems(depth, count, if want.Some? then Some(want.value.items) else None);
      Further(start, inner, Now());
      if !items.Ok? { return if items.Limit? then Limit else Malformed, got; }
      got := Container(flagged, kind, records);
      ContainerGood(payload, config, start, flagged, kind, records, depth);
      ContainerFilled(start, flagged, kind, records);
      r := Ok(Object(kind, [], 0, items.value, None));
      Placing(start, Now(), config, r.value);
    }

    method ReadDictionaryRecord(flagged: bool, depth: int, ghost start: State, ghost want: Option<Record>)
      returns (r: Result<Object>, ghost got: Record)
      requires Valid() && Opening(payload, config, start, '{', flagged, depth)
      requires Now() == Entered(start, '{', flagged) && (want.Some? ==> want.value.Dictionary?)
      requires Wanted(payload, config, start, want, '{', flagged, depth)
      modifies this
      ensures Valid() && Advanced(start, Now())
      ensures r.Ok? ==>
        && Completed(payload, config, start, Now(), r.value, got, '{', flagged, depth)
        && Placeable(config, start, Now(), r.value)
      ensures want.Some? ==> r.Ok? && got == want.value
      decreases config.maxDepth - depth, 4
    {
      hide Good, AllGood, Held, Filled, Finished, AfterAll, Values, Steady, Starts;
      ghost var entered := Now();
      got := NULL_RECORD;
      Entering(start, config, '{', flagged);
      if want.Some? { DictionaryGood(payload, config, start, flagged, want.value.items, depth); }
      assert entered == Opened(start, '{', flagged);
      var items;
      ghost var records;
      items, records := ReadDictionary(depth, if want.Some? then Some(want.value.items) else None);
      Further(start, entered, Now());
      if !items.Ok? { return if items.Limit? then Limit else Malformed, got; }
      got := Dictionary(flagged, records);
      DictionaryGood(payload, config, start, flagged, records, depth);
      DictionaryFilled(start, flagged, records);
      r := Ok(Object('{', [], 0, items.value, None));
      Placing(start, Now(), config, r.value);
    }

    method ReadCodeRecord(flagged: bool, depth: int, ghost start: State, ghost want: Option<Record>)
      returns (r: Result<Object>, ghost got: Record)
      requires Valid() && Opening(payload, config, start, 'c', flagged, depth)
      requires Now() == Entered(start, 'c', flagged) && (want.Some? ==> want.value.Code?)
      requires Wanted(payload, config, start, want, 'c', flagged, depth)
      modifies this
      ensures Valid() && Advanced(start, Now())
      ensures r.Ok? ==>
        && Completed(payload, config, start, Now(), r.value, got, 'c', flagged, depth)
        && Placeable(config, start, Now(), r.value)
      ensures want.Some? ==> r.Ok? && got == want.value
      decreases config.maxDepth - depth, 4
    {
      hide Good, AllGood, Held, Filled, Finished, AfterAll, Values, Steady, Starts, CodeOf, CodeOk, CodeParts;
      ghost var entered := Now();
      got := NULL_RECORD;
      Entering(start, config, 'c', flagged);
      if want.Some? { CodeSpends(payload, config, start, want.value, depth); }
      if codeObjectCount >= config.maxCodes { return Limit, got; }
      codeObjectCount := codeObjectCount + 1;
      ghost var counted := Now();
      CodeCounted(start, entered, config);
      var code;
      code, got := ReadCodeObject(flagged, depth, start, want);
      Further(start, counted, Now());
      if !code.Ok? { return if code.Limit? then Limit else Malformed, got; }
      CodeFilled(start, got);
      r := Ok(Object('c', [], 0, [], Some(code.value)));
      PlacingCode(start, counted, Now(), config, code.value, flagged);
    }

    /** Records one after the other: the items of a container, or fields of a code object. In
        a container no item may be a null record. */
    method ReadTrees(depth: int, count: int, inContainer: bool, ghost want: Option<seq<Record>>)
      returns (r: Result<seq<Id>>, ghost got: seq<Record>)
      requires Valid() && depth <= config.maxDepth && count >= 0
      requires want.Some? ==>
        && |want.value| == count && AllGood(payload, config, Now(), want.value, depth + 1)
        && (inContainer ==> NULL_RECORD !in want.value)
      modifies this
      ensures Valid() && Advanced(old(Now()), Now())
      ensures r.Ok? ==>
        && |got| == count && AllGood(payload, config, old(Now()), got, depth + 1)
        && (inContainer ==> NULL_RECORD !in got)
        && Now() == AfterAll(old(Now()), got) && r.value == Values(old(Now()), got)
        && Inside(r.value, |heap|)
      ensures want.Some? ==> r.Ok? && got == want.value
      decreases config.maxDepth - depth, 1
    {
      hide Good, AllGood, Held, After, AfterAll, Value, Values, Closed, Within;
      ghost var start := Now();
      got := [];
      NothingYet(payload, config, start, depth + 1);
      var items: seq<Id> := [];
      var index := 0;
      while index < count
        invariant 0 <= index <= count && |items| == index == |got|
        invariant Valid() && Advanced(start, Now()) && Inside(items, |heap|)
        invariant AllGood(payload, config, start, got, depth + 1) && (inContainer ==> NULL_RECORD !in got)
        invariant Now() == AfterAll(start, got) && items == Values(start, got)
        invariant want.Some? ==> got == want.value[..index]
      {
        ghost var before := Now();
        if want.Some? { Earlier(payload, config, start, want.value, index, depth + 1); }
        var item;
        ghost var record;
        item, record := ReadObject(depth + 1, if want.Some? then Some(want.value[index]) else None);
        Further(start, before, Now());
        if !item.Ok? { return if item.Limit? then Limit else Malformed, got; }
        GoodValue(payload, config, before, record, depth + 1);
        if inContainer && heap[item.value].kind == '0' { return Malformed, got; }
        Longer(payload, config, start, got, record, depth + 1);
        items := items + [item.value];
        got := got + [record];
        index := index + 1;
      }
      if want.Some? { assert want.value[..count] == want.value; }
      return Ok(items), got;
    }

    /** readItems */
    method ReadItems(depth: int, count: int, ghost want: Option<seq<Record>>)
      returns (r: Result<seq<Id>>, ghost got: seq<Record>)
      requires Valid() && depth <= config.maxDepth && count >= 0
      requires want.Some? ==>
        && |want.value| == count <= config.maxItems && NULL_RECORD !in want.value
        && AllGood(payload, config, Now(), want.value, depth + 1)
      modifies this
      ensures Valid() && Advanced(old(Now()), Now())
      ensures r.Ok? ==>
        && |got| == count <= config.maxItems && NULL_RECORD !in got
        && AllGood(payload, config, old(Now()), got, depth + 1)
        && Now() == AfterAll(old(Now()), got) && r.value == Values(old(Now()), got)
        && Inside(r.value, |heap|)
      ensures want.Some? ==> r.Ok? && got == want.value
      decreases config.maxDepth - depth, 3
    {
      hide AllShaped, AllSound, EncodeAll, Values, Steady, Held;
      if count < 0 || count > config.maxItems || count > config.maxObjects - objects { return Limit, []; }
      r, got := ReadTrees(depth, count, true, want);
    }

    /** readDictionary: keys and values until a null record. */
    method ReadDictionary(depth: int, ghost want: Option<seq<Record>>)
      returns (r: Result<seq<Id>>, ghost got: seq<Record>)
      requires Valid() && depth <= config.maxDepth
      requires want.Some? ==> DictionaryItems(payload, config, Now(), want.value, depth)
      modifies this
      ensures Valid() && Advanced(old(Now()), Now())
      ensures r.Ok? ==>
        && DictionaryItems(payload, config, old(Now()), got, depth)
        && Now() == Terminated(AfterAll(old(Now()), got)) && r.value == Values(old(Now()), got)
        && Inside(r.value, |heap|)
      ensures want.Some? ==> r.Ok? && got == want.value
      decreases config.maxDepth - depth, 2
    {
      hide Good, AllGood, Held, After, AfterAll, Value, Values, Closed, Within, Terminated, Steady;
      ghost var start := Now();
      got := [];
      StartsWithin(start, config);
      NothingYet(payload, config, start, depth + 1);
      var items: seq<Id> := [];
      var pairs := 0;
      while true
        invariant 0 <= pairs <= config.maxItems && |items| == 2 * pairs == |got|
        invariant Valid() && Advanced(start, Now()) && Inside(items, |heap|)
        invariant AllGood(payload, config, start, got, depth + 1) && NULL_RECORD !in got
        invariant Now() == AfterAll(start, got) && items == Values(start, got)
        invariant want.Some? ==> |got| <= |want.value| && got == want.value[..|got|]
        decreases config.maxItems - pairs
      {
        if pairs >= config.maxItems { return Limit, got; }
        ghost var before := Now();
        ghost var n := |got|;
        ghost var next := if want.Some? && n < |want.value| then want.value[n] else NULL_RECORD;
        if want.Some? {
          if n == |want.value| { assert want.value[..n] == want.value; }
          else { TwoEarlier(payload, config, start, want.value, n, depth + 1); }
        }
        var key;
        ghost var first;
        key, first := ReadObject(depth + 1, if want.Some? then Some(next) else None);
        Further(start, before, Now());
        if !key.Ok? { return if key.Limit? then Limit else Malformed, got; }
        GoodValue(payload, config, before, first, depth + 1);
        if heap[key.value].kind == '0' {
          NullRead(before);
          return Ok(items), got;
        }
        ghost var middle := Now();
        var value;
        ghost var second;
        value, second := ReadObject(depth + 1, if want.Some? then Some(want.value[n + 1]) else None);
        Further(start, middle, Now());
        if !value.Ok? { return if value.Limit? then Limit else Malformed, got; }
        GoodValue(payload, config, middle, second, depth + 1);
        if heap[value.value].kind == '0' { return Malformed, got; }
        TwoLonger(payload, config, start, got, first, second, depth + 1);
        items := items + [key.value, value.value];
        got := got + [first, second];
        pairs := pairs + 1;
      }
    }

    /** The six numbers of a code object. */
    method ReadNumbers(ghost want: Option<Numbers>) returns (r: Result<Numbers>)
      requires want.Some? ==> NumbersShaped(want.value) && IntBytes(NumberList(want.value)) <= Rest()
      modifies this`position
      ensures position >= old(position)
      ensures r.Ok? ==>
        && NumbersShaped(r.value) && IntBytes(NumberList(r.value)) <= old(Rest()) && position == old(position) + 24
      ensures want.Some? ==> r == Ok(want.value)
    {
      hide Signed, SignedBytes, IntBytes;
      ghost var start := position;
      ghost var vs := if want.Some? then NumberList(want.value) else [];
      var values: seq<int> := [];
      NoNumberYet(payload, position);
      while |values| < 6
        invariant |values| <= 6 && position == start + 4 * |values|
        invariant forall i | 0 <= i < |values| :: Natural32(values[i])
        invariant IntBytes(values) <= RestAt(payload, start)
        invariant want.Some? ==> values == vs[..|values|]
        decreases 6 - |values|
      {
        if want.Some? { NumberTells(payload, start, vs, |values|); }
        ghost var rest := Rest();
        var value := ReadInt32();
        if !value.Ok? { return Malformed; }
        if value.value < 0 { return Malformed; }
        NumberRead(payload, start, values, value.value);
        values := values + [value.value];
      }
      if want.Some? { assert vs[..6] == vs; }
      r := Ok(Numbers(values[0], values[1], values[2], values[3], values[4], values[5]));
      assert NumberList(r.value) == values;
    }

    /** The fields of a code object, as they come: six numbers, eight objects, the first line,
        and the line table. */
    method ReadCodeFields(flagged: bool, depth: int, ghost start: State, ghost want: Option<Record>)
      returns (r: Result<CodeObject>, ghost got: Record)
      requires Valid() && depth <= config.maxDepth && Starts(payload, start, 'c', flagged)
      requires Now() == Spend(Entered(start, 'c', flagged), ONE_CODE)
      requires want.Some? ==>
        want.value.Code? && want.value.flag == flagged && CodeParts(payload, config, start, want.value, depth)
      modifies this
      ensures Valid() && Advanced(old(Now()), Now())
      ensures r.Ok? ==>
        && got.Code? && got.flag == flagged && CodeParts(payload, config, start, got, depth)
        && Now() == CodeRead(start, got) && r.value == CodeOf(start, got) && Inside(r.value.fields, |heap|)
      ensures want.Some? ==> r.Ok? && got == want.value
      decreases config.maxDepth - depth, 2
    {
      hide Good, AllGood, Held, After, AfterAll, Value, Values, Closed, Within, Steady, Starts, IntBytes,
           Signed, SignedBytes, NumberList, NumbersShaped;
      ghost var counted := Now();
      got := NULL_RECORD;
      var numbers := ReadNumbers(if want.Some? then Some(want.value.numbers) else None);
      Skipped(counted, Now(), config);
      if !numbers.Ok? { return Malformed, got; }
      ghost var inner := Now();
      assert inner == Opened(start, 'c', flagged);
      var fields;
      ghost var records;
      fields, records := ReadTrees(depth, 8, false, if want.Some? then Some(want.value.fields) else None);
      Further(counted, inner, Now());
      if !fields.Ok? { return if fields.Limit? then Limit else Malformed, got; }
      ghost var middle := Now();
      if want.Some? { SignedNext(want.value.firstLine, Rest()); }
      var firstLine := ReadInt32();
      Skipped(middle, Now(), config);
      if !firstLine.Ok? { return Malformed, got; }
      if firstLine.value < 0 { return Malformed, got; }
      ghost var before := Now();
      var lineTable;
      ghost var table;
      lineTable, table := ReadObject(depth + 1, if want.Some? then Some(want.value.lineTable) else None);
      Further(counted, before, Now());
      if !lineTable.Ok? { return if lineTable.Limit? then Limit else Malformed, got; }
      GoodValue(payload, config, before, table, depth + 1);
      got := Code(flagged, numbers.value, records, firstLine.value, table);
      return Ok(CodeObject(numbers.value, fields.value + [lineTable.value], firstLine.value)), got;
    }

    /** readCodeObject: the fields are read, then validated, then the bytecode is charged. */
    method ReadCodeObject(flagged: bool, depth: int, ghost start: State, ghost want: Option<Record>)
      returns (r: Result<CodeObject>, ghost got: Record)
      requires Valid() && depth <= config.maxDepth && Starts(payload, start, 'c', flagged)
      requires Now() == Spend(Entered(start, 'c', flagged), ONE_CODE)
      requires want.Some? ==>
        want.value.Code? && want.value.flag == flagged && Good(payload, config, start, want.value, depth)
      modifies this
      ensures Valid() && Advanced(old(Now()), Now())
      ensures r.Ok? ==>
        && got.Code? && got.flag == flagged && Good(payload, config, start, got, depth)
        && Now() == Filled(start, got) && r.value == CodeOf(start, got) && CodeOk(heap, r.value, config)
        && Inside(r.value.fields, |heap|)
        && Paid(old(Now()), Now(), r.value)
      ensures want.Some? ==> r.Ok? && got == want.value
      decreases config.maxDepth - depth, 3
    {
      hide Good, CodeParts, CodeOk, CodeOf, CodeRead, Held, Closed, Starts, Filled;
      ghost var counted := Now();
      if want.Some? {
        CodeGood(payload, config, start, want.value, depth);
        CodeUses(start, want.value);
      }
      var code;
      code, got := ReadCodeFields(flagged, depth, start, want);
      if !code.Ok? { return if code.Limit? then Limit else Malformed, got; }
      if !CodeOk(heap, code.value, config) { return Malformed, got; }
      HasBytecode(heap, code.value, config);
      ghost var read := Now();
      var length := |heap[code.value.fields[0]].bytes|;
      if length > config.maxBytecode - bytecodeBytes { return Limit, got; }
      bytecodeBytes := bytecodeBytes + length;
      CodeGood(payload, config, start, got, depth);
      CodeUses(start, got);
      CodeFilled(start, got);
      return code, got;
    }
  }

  /** The items of a dictionary are next, and a null record. */
  ghost predicate DictionaryItems(payload: Bytes, c: Config, s: State, items: seq<Record>, depth: int) {
    && |items| % 2 == 0 && |items| / 2 < c.maxItems && NULL_RECORD !in items
    && AllGood(payload, c, s, items, depth + 1) && Good(payload, c, AfterAll(s, items), NULL_RECORD, depth + 1)
  }

  /** The bytecode of a code object is paid for on top of what is in the heap. */
  ghost predicate Paid(a: State, b: State, code: CodeObject) {
    AtMost(Plus(Plus(a.used, Held(b.heap)), Usage(0, 0, 0, BytecodeSize(b.heap, code.fields))),
           Plus(b.used, Held(a.heap)))
  }

  lemma HasBytecode(heap: seq<Object>, code: CodeObject, c: Config)
    requires CodeOk(heap, code, c)
    ensures |code.fields| == 9 && code.fields[0] < |heap|
  {}

  lemma StartsWithin(s: State, c: Config)
    requires Steady(s, c)
    ensures Within(s.used, c)
  {}

  lemma CodeSpends(payload: Bytes, c: Config, s: State, t: Record, depth: int)
    requires t.Code? && Good(payload, c, s, t, depth)
    ensures s.used.codes < c.maxCodes
  {
    hide CodeParts, CodeOk, CodeOf;
    CodeGood(payload, c, s, t, depth);
    CodeUses(s, t);
  }

  lemma CodeCounted(start: State, entered: State, c: Config)
    requires Steady(entered, c) && Advanced(start, entered) && entered.used.codes < c.maxCodes
    ensures Steady(Spend(entered, ONE_CODE), c) && Advanced(start, Spend(entered, ONE_CODE))
  {
    hide Held;
  }

  lemma PlacingCode(start: State, counted: State, now: State, c: Config, code: CodeObject, flag: bool)
    requires Steady(start, c) && Steady(now, c) && counted == Spend(Entered(start, 'c', flag), ONE_CODE)
    requires Advanced(counted, now) && Paid(counted, now, code) && Inside(code.fields, |now.heap|)
    ensures Placeable(c, start, now, Object('c', [], 0, [], Some(code)))
  {
    hide Held;
    Appended(start.heap, Blank('c'));
    var o := Object('c', [], 0, [], Some(code));
    assert forall i | 0 <= i < |Below(o)| :: Below(o)[i] == code.fields[i];
    Placing(start, now, c, o);
  }


  lemma MarshalIsGood(payload: Bytes, headerSize: nat, c: Config, t: Record)
    requires IsMarshal(payload, headerSize, c, t)
    ensures Good(payload, c, Start(headerSize), t, 1)
  {
    hide Encode, Shaped, Sound, After;
  }

  /** The root is what its record says. */
  lemma RootTells(s: State, t: Record)
    requires !t.Reference? && Shaped(t) && s.heap == []
    ensures Value(s, t) == 0 < |After(s, t).heap|
    ensures After(s, t).heap[0].kind == 'c' <==> t.Code?
    ensures t.Code? ==> After(s, t).heap[0].code.Some?
  {
    hide Shaped, After, Finished, KindByte;
    FinishedKind(s, t);
    KindTells(t);
  }

  /** Nothing can be referred to yet. */
  lemma NoReferenceYet(payload: Bytes, c: Config, headerSize: nat, t: Record)
    requires Good(payload, c, Start(headerSize), t, 1)
    ensures Shaped(t) && !t.Reference?
  {
    hide AllShaped, AllSound, CodeOk, CodeOf, AfterAll, After, Encode, Within;
  }

  lemma WholeIsMarshal(payload: Bytes, headerSize: nat, c: Config, t: Record)
    requires Good(payload, c, Start(headerSize), t, 1) && t.Code?
    ensures After(Start(headerSize), t).position == |payload| <==> IsMarshal(payload, headerSize, c, t)
  {
    hide Encode, Shaped, Sound, After;
    Position(Start(headerSize), t);
  }

  /** parsePYCMarshal: a payload is accepted exactly when what follows its header is one code
      record that is sound and within the budgets, and nothing else. The result is the graph
      of objects that record describes, which holds no more than the budgets allow, and in
      which a code object is valid unless a name tuple encloses it. */
  method ParseMarshal(payload: Bytes, headerSize: nat, config: Config)
    returns (r: Result<(Id, seq<Object>)>, ghost got: Record)
    ensures r.Ok? <==> exists t :: IsMarshal(payload, headerSize, config, t)
    ensures r.Ok? ==>
      && IsMarshal(payload, headerSize, config, got)
      && r.value == (0, After(Start(headerSize), got).heap)
    ensures r.Ok? ==> Closed(r.value.1) && Within(Held(r.value.1), config)
    ensures r.Ok? ==> ValidButForNames(r.value.1, config)
    ensures r.Ok? <==> Acceptance.Acceptable(payload, headerSize, config)
    ensures r.Ok? ==> Acceptance.Accepts(payload, headerSize, config, got, r.value.1)
  {
    hide Acceptance.Accepts, Good, Encode, Shaped, Sound, After, ValidButForNames, Held, Closed;
    ghost var start := Start(headerSize);
    ghost var want: Option<Record> := None;
    if Acceptance.Acceptable(payload, headerSize, config) {
      ghost var u := Acceptance.AcceptableIsMarshal(payload, headerSize, config);
    }
    if t :| IsMarshal(payload, headerSize, config, t) {
      want := Some(t);
      MarshalIsGood(payload, headerSize, config, t);
    }
    var parser := new Parser(payload, headerSize, config);
    var root;
    root, got := parser.ReadObject(1, want);
    if !root.Ok? { return if root.Limit? then Limit else Malformed, got; }
    NoReferenceYet(payload, config, headerSize, got);
    RootTells(start, got);
    if got.Code? { WholeIsMarshal(payload, headerSize, config, got); }
    if parser.heap[root.value].kind != 'c' || parser.heap[root.value].code.None? { return Malformed, got; }
    if parser.position != |payload| { return Malformed, got; }
    AcceptedMeans(payload, headerSize, config, got);
    Acceptance.AcceptsIff(payload, headerSize, config, got, parser.heap);
    return Ok((root.value, parser.heap)), got;
  }
}
