/** The class-file parser as it runs: a reader with a position that every call moves,
    readers nested inside readers for attributes, and offsets counted from the start of
    the file. Every call is proved to do what the parser on byte strings does. */
module JvmClassParser {
  import opened Counting
  import opened Words
  import opened JvmClassFormat
  import opened JvmClassLayout
  import Rules = JvmClassRules
  import Reference = JvmClassReference

  // ---------------------------------------------------------------- results

  /** The bytes that are hashed and printed, and where they begin in the file. */
  datatype ParsedCode = ParsedCode(offset: nat, bytes: Bytes)

  datatype ParsedMethod = ParsedMethod(
    name: string, descriptor: string, access: nat, code: Option<ParsedCode>)

  datatype ParsedClass = ParsedClass(
    binaryName: string, sourceFile: string, minor: nat, major: nat, access: nat,
    methods: seq<ParsedMethod>)

  // ---------------------------------------------------------------- reader

  class Reader {
    const payload: Bytes
    const base: nat
    var position: nat

    predicate Valid()
      reads this
    {
      position <= |payload|
    }

    function Rest(): Bytes
      requires Valid()
      reads this
    {
      payload[position..]
    }

    constructor (payload: Bytes, base: nat)
      ensures Valid() && this.payload == payload && this.base == base && position == 0
    {
      this.payload := payload;
      this.base := base;
      position := 0;
    }

    method TakeAt(length: nat) returns (ok: bool, bytes: Bytes, absolute: nat)
      requires Valid()
      modifies this`position
      ensures Valid()
      ensures ok <==> Take(old(Rest()), length).Got?
      ensures !ok ==> position == old(position)
      ensures ok ==>
        && bytes == Take(old(Rest()), length).value && Rest() == Take(old(Rest()), length).rest
        && position == old(position) + length && absolute == base + old(position)
    {
      if length > |payload| - position { return false, [], 0; }
      var start := position;
      position := position + length;
      return true, payload[start..position], base + start;
    }

    /** u1, u2 and u4, by their width. */
    method Unsigned(width: nat) returns (ok: bool, v: nat)
      requires Valid()
      modifies this`position
      ensures Valid()
      ensures ok <==> Number(old(Rest()), width).Got?
      ensures !ok ==> position == old(position)
      ensures ok ==>
        && v == Number(old(Rest()), width).value && Rest() == Number(old(Rest()), width).rest
        && position == old(position) + width
    {
      var bytes, absolute;
      ok, bytes, absolute := TakeAt(width);
      v := 0;
      if ok { v := Big(bytes); }
    }
  }

  // ---------------------------------------------------------------- constant pool

  /** One constant, as parseJVMConstantPool reads it: the slot it keeps, and whether it is
      a wide one. */
  method ReadConstant(reader: Reader) returns (ok: bool, slot: Slot, wide: bool, ghost c: Constant)
    requires reader.Valid()
    modifies reader`position
    ensures reader.Valid()
    ensures ok <==> ParseConstant(old(reader.Rest())).Got?
    ensures ok ==>
      && Got(c, reader.Rest()) == ParseConstant(old(reader.Rest()))
      && slot == SlotOf(c) && (wide <==> IsWide(c))
  {
    hide Number, Take;
    slot, wide, c := EMPTY_SLOT, false, Fixed(3, []);
    var tag;
    ok, tag := reader.Unsigned(1);
    if !ok { return; }
    if tag == 1 {
      var length, encoded, at;
      ok, length := reader.Unsigned(2);
      if !ok { return; }
      ok, encoded, at := reader.TakeAt(length);
      if !ok { return; }
      var text := ModifiedUtf8.DecodeModifiedUTF8(encoded);
      if text.None? { return false, slot, wide, c; }
      return true, Slot(1, text.value, 0, 0), false, Utf8(text.value);
    }
    if tag == 3 || tag == 4 || tag == 5 || tag == 6 {
      var bytes, at;
      ok, bytes, at := reader.TakeAt(if tag == 5 || tag == 6 then 8 else 4);
      if !ok { return; }
      return true, Slot(tag, "", 0, 0), tag == 5 || tag == 6, Fixed(tag, bytes);
    }
    if tag in {7, 8, 16, 19, 20} {
      var i;
      ok, i := reader.Unsigned(2);
      if !ok { return; }
      return true, Slot(tag, "", i, 0), false, One(tag, i);
    }
    if tag in {9, 10, 11, 12, 17, 18} {
      var i, j;
      ok, i := reader.Unsigned(2);
      if !ok { return; }
      ok, j := reader.Unsigned(2);
      if !ok { return; }
      return true, Slot(tag, "", i, j), false, Two(tag, i, j);
    }
    if tag == 15 {
      var kind, i;
      ok, kind := reader.Unsigned(1);
      if !ok || kind < 1 || kind > 9 { return false, slot, wide, c; }
      ok, i := reader.Unsigned(2);
      if !ok { return; }
      return true, Slot(15, "", kind, i), false, Handle(kind, i);
    }
    return false, slot, wide, c;
  }

  /** parseJVMConstantPool after its count: the table is filled slot by slot. */
  method ReadConstants(reader: Reader, count: nat)
    returns (ok: bool, slots: seq<Slot>, ghost cs: seq<Constant>)
    requires reader.Valid() && count > 0
    modifies reader`position
    ensures reader.Valid()
    ensures ok <==> ParseConstants(old(reader.Rest()), count - 1).Got?
    ensures ok ==>
      && Got(cs, reader.Rest()) == ParseConstants(old(reader.Rest()), count - 1)
      && slots == Table(cs)
  {
    hide ParseConstant, SlotOf, ParseConstants, Table, GoesOn;
    ghost var start := reader.Rest();
    ghost var whole := ParseConstants(start, count - 1);
    slots := seq(count, i => EMPTY_SLOT);
    cs := [];
    ok := true;
    var index := 1;
    FirstConstant(start, count - 1);
    while index < count
      invariant reader.Valid() && 1 <= index <= count == |slots|
      invariant slots[..index] == Table(cs)
      invariant forall i | index <= i < count :: slots[i] == EMPTY_SLOT
      invariant GoesOn(whole, cs, ParseConstants(reader.Rest(), count - index))
    {
      var slot, wide;
      ghost var c;
      ghost var here := reader.Rest();
      ok, slot, wide, c := ReadConstant(reader);
      if !ok {
        NoConstant(here, count - index, whole, cs);
        return;
      }
      NextConstant(here, count - index, whole, cs, c, reader.Rest());
      if wide && index + 1 >= count { return false, slots, cs; }
      TableGrows(cs, c);
      slots := slots[index := slot];
      cs := cs + [c];
      index := index + (if wide then 2 else 1);
    }
    assert slots[..index] == slots;
    LastConstant(reader.Rest(), whole, cs);
  }

  /** All the constants are those read so far and those still to be read. */
  predicate GoesOn(whole: Parsed<seq<Constant>>, cs: seq<Constant>, part: Parsed<seq<Constant>>) {
    match part
    case Fail => whole.Fail?
    case Got(more, rest) => whole == Got(cs + more, rest)
  }

  lemma FirstConstant(b: Bytes, left: nat)
    ensures GoesOn(ParseConstants(b, left), [], ParseConstants(b, left))
    ensures Table([]) == [EMPTY_SLOT]
  {
    hide ParseConstants;
    var whole := ParseConstants(b, left);
    if whole.Got? { assert [] + whole.value == whole.value; }
  }

  lemma NoConstant(b: Bytes, left: nat, whole: Parsed<seq<Constant>>, cs: seq<Constant>)
    requires left > 0 && ParseConstant(b).Fail? && GoesOn(whole, cs, ParseConstants(b, left))
    ensures whole.Fail?
  {
    hide ParseConstant;
  }

  lemma NextConstant(b: Bytes, left: nat, whole: Parsed<seq<Constant>>, cs: seq<Constant>, c: Constant, rest: Bytes)
    requires left > 0 && ParseConstant(b) == Got(c, rest) && GoesOn(whole, cs, ParseConstants(b, left))
    ensures if Span(c) > left then whole.Fail? else GoesOn(whole, cs + [c], ParseConstants(rest, left - Span(c)))
  {
    hide ParseConstant, Span;
    if Span(c) <= left {
      var part := ParseConstants(rest, left - Span(c));
      if part.Got? { assert cs + ([c] + part.value) == cs + [c] + part.value; }
    }
  }

  lemma LastConstant(b: Bytes, whole: Parsed<seq<Constant>>, cs: seq<Constant>)
    requires GoesOn(whole, cs, ParseConstants(b, 0))
    ensures whole == Got(cs, b)
  {
    assert cs + [] == cs;
  }

  lemma {:induction false} SlotsJoin(a: seq<Constant>, b: seq<Constant>)
    ensures SlotsOf(a + b) == SlotsOf(a) + SlotsOf(b)
  {
    if a == [] {
      assert a + b == b;
    } else {
      assert (a + b)[1..] == a[1..] + b;
      SlotsJoin(a[1..], b);
    }
  }

  lemma TableGrows(cs: seq<Constant>, c: Constant)
    ensures Table(cs + [c]) == Table(cs) + (if IsWide(c) then [SlotOf(c), EMPTY_SLOT] else [SlotOf(c)])
  {
    SlotsJoin(cs, [c]);
    assert SlotsOf([c]) == (if IsWide(c) then [SlotOf(c), EMPTY_SLOT] else [SlotOf(c)]) + SlotsOf([]);
  }

  /** validateJVMConstantPool */
  method ValidatePool(slots: seq<Slot>, major: nat) returns (ok: bool)
    ensures ok <==> PoolOk(slots, major)
  {
    hide SlotOk;
    var index := 1;
    while index < |slots|
      invariant forall i | 0 < i < index && i < |slots| :: SlotOk(slots, i, major)
      invariant index >= 1
    {
      if !SlotOk(slots, index, major) { return false; }
      index := index + 1;
    }
    return true;
  }

  // ---------------------------------------------------------------- attributes

  /** readJVMAttribute: the name, and a reader nested at the place of the payload. */
  method ReadAttribute(reader: Reader, slots: seq<Slot>)
    returns (ok: bool, name: string, sub: Reader, ghost a: Attribute)
    requires reader.Valid()
    modifies reader`position
    ensures reader.Valid() && fresh(sub) && sub.Valid() && reader.position >= old(reader.position)
    ensures ok <==> ParseAttribute(slots, old(reader.Rest())).Got?
    ensures ok ==>
      && Got(a, reader.Rest()) == ParseAttribute(slots, old(reader.Rest()))
      && TextAt(slots, a.name) == Some(name)
      && sub.payload == a.payload && sub.position == 0
      && Nested(reader, sub, old(reader.position)) && reader.position > old(reader.position)
  {
    hide Number, Take;
    name, a := "", Attribute(0, []);
    sub := new Reader([], 0);
    var index, length, payload, absolute;
    ok, index := reader.Unsigned(2);
    if !ok { return; }
    var text := TextAt(slots, index);
    if text.None? || !AttributeName(text.value) { return false, "", sub, a; }
    ok, length := reader.Unsigned(4);
    if !ok { return; }
    TakesSlice(reader.payload, reader.position, length);
    ok, payload, absolute := reader.TakeAt(length);
    if !ok { return; }
    sub := new Reader(payload, absolute);
    return true, text.value, sub, Attribute(index, payload);
  }

  lemma TakesSlice(payload: Bytes, position: nat, n: nat)
    requires position <= |payload|
    ensures Take(payload[position..], n).Got? ==>
      position + n <= |payload| && Take(payload[position..], n).value == payload[position..position + n]
  {}

  /** `sub` reads a slice of what `reader` reads, from `start` up to its position. */
  predicate Nested(reader: Reader, sub: Reader, start: nat)
    reads reader
  {
    && reader.base + start <= sub.base
    && sub.base + |sub.payload| <= reader.base + reader.position <= reader.base + |reader.payload|
    && sub.payload == reader.payload[sub.base - reader.base..sub.base - reader.base + |sub.payload|]
  }

  /** skipJVMAttributes */
  method SkipAttributes(reader: Reader, slots: seq<Slot>, count: nat)
    returns (ok: bool, ghost attributes: seq<Attribute>)
    requires reader.Valid()
    modifies reader`position
    ensures reader.Valid() && reader.position >= old(reader.position)
    ensures ok <==> Many(Attributes(slots), count, old(reader.Rest())).Got?
    ensures ok ==> Got(attributes, reader.Rest()) == Many(Attributes(slots), count, old(reader.Rest()))
  {
    hide ParseAttribute;
    ghost var f, start := Attributes(slots), reader.Rest();
    attributes, ok := [], true;
    NothingDone(f, count, start);
    var n := 0;
    while n < count
      invariant reader.Valid() && 0 <= n <= count && reader.position >= old(reader.position)
      invariant Continues(f, count, start, attributes, count - n, reader.Rest())
    {
      var name, sub;
      ghost var a;
      ghost var here := reader.Rest();
      ok, name, sub, a := ReadAttribute(reader, slots);
      if !ok {
        Stops(f, count, start, attributes, count - n, here);
        return;
      }
      OneMore(f, count, start, attributes, count - n, here, a, reader.Rest());
      attributes := attributes + [a];
      n := n + 1;
    }
    AllDone(f, count, start, attributes, reader.Rest());
  }

  /** After the items in `done`, `left` of the `n` items are still to come at `here`. */
  ghost predicate Continues<T>(
    f: Format<T>, n: nat, start: Bytes, done: seq<T>, left: nat, here: Bytes)
  {
    match Many(f, left, here)
    case Fail => Many(f, n, start).Fail?
    case Got(more, r) => Many(f, n, start) == Got(done + more, r)
  }

  lemma NothingDone<T>(f: Format<T>, n: nat, start: Bytes)
    ensures Continues(f, n, start, [], n, start)
  {
    if Many(f, n, start).Got? { assert [] + Many(f, n, start).value == Many(f, n, start).value; }
  }

  lemma AllDone<T>(f: Format<T>, n: nat, start: Bytes, done: seq<T>, here: Bytes)
    requires Continues(f, n, start, done, 0, here)
    ensures Many(f, n, start) == Got(done, here)
  {
    assert done + [] == done;
  }

  lemma Stops<T>(f: Format<T>, n: nat, start: Bytes, done: seq<T>, left: nat, here: Bytes)
    requires Continues(f, n, start, done, left, here) && left > 0 && f.parse(here).Fail?
    ensures Many(f, n, start).Fail?
  {}

  lemma OneMore<T>(
    f: Format<T>, n: nat, start: Bytes, done: seq<T>, left: nat, here: Bytes, x: T, rest: Bytes)
    requires Continues(f, n, start, done, left, here) && left > 0
    requires f.parse(here) == Got(x, rest)
    ensures Continues(f, n, start, done + [x], left - 1, rest)
  {
    var more := Many(f, left - 1, rest);
    if more.Got? { assert done + ([x] + more.value) == done + [x] + more.value; }
  }

  // ---------------------------------------------------------------- code

  /** One row of the exception table. */
  method ReadHandler(reader: Reader, slots: seq<Slot>, codeLength: nat)
    returns (ok: bool, ghost h: Handler)
    requires reader.Valid()
    modifies reader`position
    ensures reader.Valid() && reader.position >= old(reader.position)
    ensures ok <==> ParseHandler(slots, codeLength, old(reader.Rest())).Got?
    ensures ok ==> Got(h, reader.Rest()) == ParseHandler(slots, codeLength, old(reader.Rest()))
  {
    hide Number, ClassNameAt;
    h := Handler(0, 0, 0, 0);
    var start, end, handler, catchType;
    ok, start := reader.Unsigned(2);
    if !ok { return; }
    ok, end := reader.Unsigned(2);
    if !ok { return; }
    ok, handler := reader.Unsigned(2);
    if !ok { return; }
    ok, catchType := reader.Unsigned(2);
    if !ok { return; }
    if start >= end || end > codeLength || handler >= codeLength { return false, h; }
    if catchType != 0 && ClassNameAt(slots, catchType).None? { return false, h; }
    return true, Handler(start, end, handler, catchType);
  }

  /** The exception table after its count. */
  method ReadHandlers(reader: Reader, slots: seq<Slot>, codeLength: nat, count: nat)
    returns (ok: bool, ghost handlers: seq<Handler>)
    requires reader.Valid()
    modifies reader`position
    ensures reader.Valid() && reader.position >= old(reader.position)
    ensures ok <==> Many(Handlers(slots, codeLength), count, old(reader.Rest())).Got?
    ensures ok ==>
      Got(handlers, reader.Rest()) == Many(Handlers(slots, codeLength), count, old(reader.Rest()))
  {
    hide ParseHandler;
    ghost var f, start := Handlers(slots, codeLength), reader.Rest();
    handlers, ok := [], true;
    NothingDone(f, count, start);
    var n := 0;
    while n < count
      invariant reader.Valid() && 0 <= n <= count && reader.position >= old(reader.position)
      invariant Continues(f, count, start, handlers, count - n, reader.Rest())
    {
      ghost var h;
      ghost var here := reader.Rest();
      ok, h := ReadHandler(reader, slots, codeLength);
      if !ok {
        Stops(f, count, start, handlers, count - n, here);
        return;
      }
      OneMore(f, count, start, handlers, count - n, here, h, reader.Rest());
      handlers := handlers + [h];
      n := n + 1;
    }
    AllDone(f, count, start, handlers, reader.Rest());
  }

  /** parseJVMCodeAttribute on a reader that stands at the start of its payload. The code
      begins eight bytes in, and the offset counts from the start of the file. */
  method ParseCodeAttribute(reader: Reader, slots: seq<Slot>)
    returns (ok: bool, code: ParsedCode, ghost c: Code)
    requires reader.Valid() && reader.position == 0
    modifies reader`position
    ensures reader.Valid()
    ensures ok <==> ParsesAsCode(slots, reader.payload)
    ensures ok ==>
      && c == ParseCode(slots, reader.payload).value
      && code.bytes == c.code && code.offset == reader.base + 8
      && 0 < |code.bytes| <= 65535 && 8 + |code.bytes| <= |reader.payload|
      && code.bytes == reader.payload[8..8 + |code.bytes|]
  {
    hide Number, Take, Many, Handlers, Attributes;
    code, c := ParsedCode(0, []), Code(0, 0, [], [], []);
    assert reader.payload[0..] == reader.payload;
    var maxStack, maxLocals, codeLength, bytes, at, count;
    ok, maxStack := reader.Unsigned(2);
    if !ok { return; }
    ok, maxLocals := reader.Unsigned(2);
    if !ok { return; }
    ok, codeLength := reader.Unsigned(4);
    if !ok { return; }
    if codeLength == 0 || codeLength > 65535 { return false, code, c; }
    var codeOffset := reader.base + reader.position;
    TakesSlice(reader.payload, 8, codeLength);
    ok, bytes, at := reader.TakeAt(codeLength);
    if !ok { return; }
    ok, count := reader.Unsigned(2);
    if !ok { return; }
    ghost var handlers, attributes;
    ok, handlers := ReadHandlers(reader, slots, codeLength, count);
    if !ok { return; }
    ok, count := reader.Unsigned(2);
    if !ok { return; }
    ok, attributes := SkipAttributes(reader, slots, count);
    if !ok { return; }
    if |reader.payload| - reader.position != 0 { return false, code, c; }
    return true, ParsedCode(codeOffset, bytes), Code(maxStack, maxLocals, bytes, handlers, attributes);
  }

  // ---------------------------------------------------------------- members

  /** parseJVMField */
  method ParseFieldAt(reader: Reader, slots: seq<Slot>) returns (ok: bool, ghost m: Member)
    requires reader.Valid()
    modifies reader`position
    ensures reader.Valid() && reader.position >= old(reader.position)
    ensures ok <==> ParseField(slots, old(reader.Rest())).Got?
    ensures ok ==> Got(m, reader.Rest()) == ParseField(slots, old(reader.Rest()))
  {
    hide Number, Many, Attributes, MemberName, FieldDescriptor, TextAt, MemberShape;
    ghost var start := reader.Rest();
    m := Member(0, 0, 0, []);
    var access, name, descriptor, count;
    ok, access := reader.Unsigned(2);
    if !ok { return; }
    ok, name := reader.Unsigned(2);
    if !ok { return; }
    ok, descriptor := reader.Unsigned(2);
    if !ok { return; }
    var nameText, descriptorText := TextAt(slots, name), TextAt(slots, descriptor);
    if nameText.None? || !MemberName(nameText.value, false) { return false, m; }
    if descriptorText.None? || !FieldDescriptor(descriptorText.value) { return false, m; }
    ok, count := reader.Unsigned(2);
    if !ok { return; }
    ghost var attributes;
    ok, attributes := SkipAttributes(reader, slots, count);
    if !ok { return; }
    m := Member(access, name, descriptor, attributes);
    MemberForth(slots, start);
  }

  lemma {:induction false} CodesJoin(slots: seq<Slot>, a: seq<Attribute>, b: seq<Attribute>)
    ensures CodePayloads(slots, a + b) == CodePayloads(slots, a) + CodePayloads(slots, b)
  {
    if b == [] {
      assert a + b == a;
    } else {
      var last := |b| - 1;
      assert (a + b)[..|a| + last] == a + b[..last];
      CodesJoin(slots, a, b[..last]);
    }
  }

  /** What the parser reports about the code of a method, against its attributes so far:
      one Code attribute at most, sound, and at its place in what the reader reads. */
  ghost predicate CodeReported(
    slots: seq<Slot>, reader: Reader, start: nat, attributes: seq<Attribute>, code: Option<ParsedCode>)
    reads reader
  {
    CodeWithin(slots, reader.base, reader.payload, start, reader.position, CodePayloads(slots, attributes), code)
  }

  ghost predicate CodeWithin(
    slots: seq<Slot>, base: nat, payload: Bytes, start: nat, position: nat, codes: seq<Bytes>,
    code: Option<ParsedCode>)
  {
    match code
    case None => codes == []
    case Some(p) =>
      && |codes| == 1 && ParsesAsCode(slots, codes[0])
      && p.bytes == ParseCode(slots, codes[0]).value.code && 0 < |p.bytes|
      && base + start < p.offset
      && p.offset + |p.bytes| <= base + position <= base + |payload|
      && p.bytes == payload[p.offset - base..p.offset - base + |p.bytes|]
  }

  /** An attribute that is no Code only moves the position. */
  lemma CodeStays(
    slots: seq<Slot>, base: nat, payload: Bytes, start: nat, was: nat, position: nat, codes: seq<Bytes>,
    code: Option<ParsedCode>)
    requires CodeWithin(slots, base, payload, start, was, codes, code) && was <= position <= |payload|
    ensures CodeWithin(slots, base, payload, start, position, codes, code)
  {}

  /** The first Code attribute, at `at` in what the reader reads. */
  lemma CodeFound(
    slots: seq<Slot>, base: nat, payload: Bytes, start: nat, position: nat, at: nat, body: Bytes, code: ParsedCode)
    requires start <= at && at + |body| <= position <= |payload| && body == payload[at..at + |body|]
    requires ParsesAsCode(slots, body) && code.bytes == ParseCode(slots, body).value.code
    requires code.offset == base + at + 8 && 0 < |code.bytes| && 8 + |code.bytes| <= |body|
    requires code.bytes == body[8..8 + |code.bytes|]
    ensures CodeWithin(slots, base, payload, start, position, [body], Some(code))
  {
    hide ParsesAsCode, ParseCode;
    SliceOfSlice(payload, at, |body|, 8, |code.bytes|);
  }

  /** The reasons to refuse the codes of a method. */
  ghost predicate Refused(slots: seq<Slot>, codes: seq<Bytes>) {
    |codes| > 1 || exists p | p in codes :: !ParsesAsCode(slots, p)
  }

  lemma SecondCode(
    slots: seq<Slot>, base: nat, payload: Bytes, start: nat, position: nat, codes: seq<Bytes>,
    code: ParsedCode, body: Bytes)
    requires CodeWithin(slots, base, payload, start, position, codes, Some(code))
    ensures Refused(slots, codes + [body])
  {}

  /** A first Code attribute is refused only if it is malformed. */
  lemma NoCode(
    slots: seq<Slot>, base: nat, payload: Bytes, start: nat, position: nat, codes: seq<Bytes>)
    requires CodeWithin(slots, base, payload, start, position, codes, None)
    ensures codes == []
    ensures forall body | !ParsesAsCode(slots, body) :: Refused(slots, codes + [body])
    ensures forall body: Bytes :: codes + [body] == [body]
  {
    hide ParsesAsCode;
    forall body | !ParsesAsCode(slots, body) ensures Refused(slots, codes + [body]) {
      assert body in codes + [body];
    }
  }

  /** More attributes do not help. */
  lemma StaysRefused(
    slots: seq<Slot>, f: Format<Attribute>, n: nat, start: Bytes, done: seq<Attribute>, left: nat, here: Bytes)
    requires Continues(f, n, start, done, left, here) && Refused(slots, CodePayloads(slots, done))
    ensures var all := Many(f, n, start); all.Got? ==> Refused(slots, CodePayloads(slots, all.value))
  {
    hide Many, Continues, CodePayloads, ParsesAsCode;
    CodesCarryOver(slots, f, n, start, done, left, here);
    var all := Many(f, n, start);
    if all.Got? {
      var some, codes := CodePayloads(slots, done), CodePayloads(slots, all.value);
      if |some| <= 1 {
        var p :| p in some && !ParsesAsCode(slots, p);
        assert codes[0] == p;
      }
    }
  }

  /** The attributes of a method, after their count. A second Code attribute, or one that
      is malformed, is refused on the spot. */
  method ReadMethodAttributes(reader: Reader, slots: seq<Slot>, count: nat)
    returns (ok: bool, code: Option<ParsedCode>, ghost attributes: seq<Attribute>)
    requires reader.Valid()
    modifies reader`position
    ensures reader.Valid() && reader.position >= old(reader.position)
    ensures ok ==>
      && Got(attributes, reader.Rest()) == Many(Attributes(slots), count, old(reader.Rest()))
      && CodeReported(slots, reader, old(reader.position), attributes, code)
    ensures !ok ==>
      var all := Many(Attributes(slots), count, old(reader.Rest()));
      all.Got? ==> Refused(slots, CodePayloads(slots, all.value))
  {
    hide ParseAttribute, ParsesAsCode, ParseCode, Many, Continues, Refused;
    ghost var f, start := Attributes(slots), reader.Rest();
    ghost var from := reader.position;
    code, attributes, ok := None, [], true;
    NothingDone(f, count, start);
    assert CodeReported(slots, reader, from, [], None);
    hide CodePayloads, CodeWithin, TextAt;
    var n := 0;
    while n < count
      invariant reader.Valid() && 0 <= n <= count && reader.position >= from
      invariant Continues(f, count, start, attributes, count - n, reader.Rest())
      invariant CodeReported(slots, reader, from, attributes, code)
    {
      var name, sub;
      ghost var a;
      ghost var here, was := reader.Rest(), reader.position;
      ok, name, sub, a := ReadAttribute(reader, slots);
      if !ok {
        Stops(f, count, start, attributes, count - n, here);
        return;
      }
      OneMore(f, count, start, attributes, count - n, here, a, reader.Rest());
      ghost var codes, position := CodePayloads(slots, attributes), reader.position;
      CodesNext(slots, attributes, a);
      if name == "Code" {
        if code.Some? {
          SecondCode(slots, reader.base, reader.payload, from, was, codes, code.value, a.payload);
          StaysRefused(slots, f, count, start, attributes + [a], count - n - 1, reader.Rest());
          return false, code, attributes;
        }
        NoCode(slots, reader.base, reader.payload, from, was, codes);
        var parsed;
        ghost var c;
        ok, parsed, c := ParseCodeAttribute(sub, slots);
        if !ok {
          StaysRefused(slots, f, count, start, attributes + [a], count - n - 1, reader.Rest());
          return false, code, attributes;
        }
        CodeFound(slots, reader.base, reader.payload, from, position, sub.base - reader.base, a.payload, parsed);
        code := Some(parsed);
      } else {
        CodeStays(slots, reader.base, reader.payload, from, was, position, codes, code);
      }
      attributes := attributes + [a];
      n := n + 1;
    }
    AllDone(f, count, start, attributes, reader.Rest());
    ok := true;
  }

  predicate Starts(a: seq<Bytes>, b: seq<Bytes>) {
    |a| <= |b| && forall i | 0 <= i < |a| :: b[i] == a[i]
  }

  lemma CodesNext(slots: seq<Slot>, attributes: seq<Attribute>, a: Attribute)
    ensures CodePayloads(slots, attributes + [a]) ==
      CodePayloads(slots, attributes) + (if TextAt(slots, a.name) == Some("Code") then [a.payload] else [])
  {
    assert (attributes + [a])[..|attributes|] == attributes;
  }

  lemma SliceOfSlice(b: Bytes, from: nat, size: nat, at: nat, n: nat)
    requires from + size <= |b| && at + n <= size
    ensures b[from..from + size][at..at + n] == b[from + at..from + at + n]
  {
    assert b == b[..from] + b[from..from + size] + b[from + size..];
    var left, right := b[from..from + size][at..at + n], b[from + at..from + at + n];
    assert forall i | 0 <= i < n :: left[i] == right[i];
  }

  /** The codes among the attributes read so far are among all of them. */
  lemma CodesCarryOver(
    slots: seq<Slot>, f: Format<Attribute>, n: nat, start: Bytes, done: seq<Attribute>, left: nat,
    here: Bytes)
    requires Continues(f, n, start, done, left, here)
    ensures var all := Many(f, n, start);
      all.Got? ==> Starts(CodePayloads(slots, done), CodePayloads(slots, all.value))
  {
    var more := Many(f, left, here);
    if more.Got? {
      CodesJoin(slots, done, more.value);
      assert Many(f, n, start).value == done + more.value;
    }
  }

  // ---------------------------------------------------------------- methods

  /** What the parser reports about a method, against the method it read. */
  ghost predicate Reported(slots: seq<Slot>, m: Member, r: ParsedMethod) {
    && TextAt(slots, m.name) == Some(r.name) && TextAt(slots, m.descriptor) == Some(r.descriptor)
    && r.access == m.access
    && var codes := CodePayloads(slots, m.attributes);
       match r.code
       case None => codes == []
       case Some(p) => |codes| == 1 && ParsesAsCode(slots, codes[0]) &&
                       p.bytes == ParseCode(slots, codes[0]).value.code
  }

  /** The reported code lies between two positions of the file, and is what is there. */
  predicate InRange(file: Bytes, from: nat, to: nat, r: ParsedMethod) {
    r.code.Some? ==>
      && from < r.code.value.offset && r.code.value.offset + |r.code.value.bytes| <= to <= |file|
      && 0 < |r.code.value.bytes|
      && r.code.value.bytes == file[r.code.value.offset..r.code.value.offset + |r.code.value.bytes|]
  }

  /** parseJVMMethod, on the reader of the whole file. */
  method ParseMethodAt(reader: Reader, slots: seq<Slot>)
    returns (ok: bool, r: ParsedMethod, ghost m: Member)
    requires reader.Valid() && reader.base == 0
    modifies reader`position
    ensures reader.Valid() && reader.position >= old(reader.position)
    ensures ok <==> ParseMethod(slots, old(reader.Rest())).Got?
    ensures ok ==>
      && Got(m, reader.Rest()) == ParseMethod(slots, old(reader.Rest()))
      && Reported(slots, m, r)
      && InRange(reader.payload, old(reader.position), reader.position, r)
  {
    hide Number, Many, Attributes, MemberName, MethodDescriptor, TextAt, MemberShape, CodePayloads,
         ParsesAsCode, ParseCode, EndsVoid;
    ghost var start := reader.Rest();
    r, m := ParsedMethod("", "", 0, None), Member(0, 0, 0, []);
    var access, name, descriptor, count, code;
    ok, access := reader.Unsigned(2);
    if !ok { return; }
    ok, name := reader.Unsigned(2);
    if !ok { return; }
    ok, descriptor := reader.Unsigned(2);
    if !ok { return; }
    var nameText, descriptorText := TextAt(slots, name), TextAt(slots, descriptor);
    if nameText.None? || !MemberName(nameText.value, true) { return false, r, m; }
    if descriptorText.None? || !MethodDescriptor(descriptorText.value) { return false, r, m; }
    if nameText.value == "<init>" && !EndsVoid(descriptorText.value) { return false, r, m; }
    if nameText.value == "<clinit>" && descriptorText.value != "()V" { return false, r, m; }
    ok, count := reader.Unsigned(2);
    if !ok { return; }
    ghost var attributes;
    ok, code, attributes := ReadMethodAttributes(reader, slots, count);
    if !ok { return; }
    if AbstractOrNative(access) == code.Some? { return false, r, m; }
    m := Member(access, name, descriptor, attributes);
    MemberForth(slots, start);
    return true, ParsedMethod(nameText.value, descriptorText.value, access, code), m;
  }

  /** The signature of a method, as the map key is built. */
  function Signature(r: ParsedMethod): string { r.name + ['\0'] + r.descriptor }

  /** Names hold no NUL, so the key tells name and descriptor apart. */
  lemma SignatureSplits(a: ParsedMethod, b: ParsedMethod)
    requires MemberName(a.name, true) && MemberName(b.name, true) && Signature(a) == Signature(b)
    ensures a.name == b.name && a.descriptor == b.descriptor
  {
    var s := Signature(a);
    assert forall i | 0 <= i < |a.name| :: s[i] == a.name[i] != '\0';
    assert forall i | 0 <= i < |b.name| :: s[i] == b.name[i] != '\0';
    assert s[|a.name|] == '\0' && s[|b.name|] == '\0';
    assert |a.name| == |b.name|;
    assert s[..|a.name|] == a.name && s[..|b.name|] == b.name;
    assert s[|a.name| + 1..] == a.descriptor && s[|b.name| + 1..] == b.descriptor;
  }

  /** Reported codes follow one another, each where the file has it. */
  ghost predicate InOrder(file: Bytes, from: nat, to: nat, rs: seq<ParsedMethod>) {
    && from <= to
    && (forall i | 0 <= i < |rs| :: InRange(file, from, to, rs[i]))
    && (forall i, j | 0 <= i < j < |rs| && rs[i].code.Some? && rs[j].code.Some? ::
          rs[i].code.value.offset + |rs[i].code.value.bytes| <= rs[j].code.value.offset)
  }

  lemma OneMoreInOrder(file: Bytes, from: nat, middle: nat, to: nat, rs: seq<ParsedMethod>, r: ParsedMethod)
    requires InOrder(file, from, middle, rs) && InRange(file, middle, to, r) && middle <= to <= |file|
    ensures InOrder(file, from, to, rs + [r])
  {
    var all := rs + [r];
    forall i | 0 <= i < |all| ensures InRange(file, from, to, all[i]) {
      if i < |rs| { assert InRange(file, from, middle, rs[i]); }
    }
    forall i, j | 0 <= i < j < |all| && all[i].code.Some? && all[j].code.Some?
      ensures all[i].code.value.offset + |all[i].code.value.bytes| <= all[j].code.value.offset
    {
      if j == |rs| { assert InRange(file, from, middle, rs[i]); }
    }
  }

  /** The methods of a class, after their count: a repeated signature is refused. */
  method ReadMethods(reader: Reader, slots: seq<Slot>, count: nat)
    returns (ok: bool, rs: seq<ParsedMethod>, ghost ms: seq<Member>)
    requires reader.Valid() && reader.base == 0
    modifies reader`position
    ensures reader.Valid() && reader.position >= old(reader.position)
    ensures ok ==>
      && Got(ms, reader.Rest()) == Many(Methods(slots), count, old(reader.Rest()))
      && SignaturesDistinct(slots, ms) && |rs| == |ms|
      && (forall i | 0 <= i < |rs| :: Reported(slots, ms[i], rs[i]))
      && InOrder(reader.payload, old(reader.position), reader.position, rs)
    ensures !ok ==>
      var all := Many(Methods(slots), count, old(reader.Rest()));
      all.Got? ==> !SignaturesDistinct(slots, all.value)
  {
    hide ParseMethod, Reported, InRange, MethodOk;
    ghost var f, start, from := Methods(slots), reader.Rest(), reader.position;
    ok, rs, ms := true, [], [];
    var seen: set<string> := {};
    NothingDone(f, count, start);
    var n := 0;
    while n < count
      invariant reader.Valid() && 0 <= n <= count && reader.position >= from && |rs| == |ms|
      invariant Continues(f, count, start, ms, count - n, reader.Rest())
      invariant forall i | 0 <= i < |rs| :: Reported(slots, ms[i], rs[i]) && MethodOk(slots, ms[i])
      invariant forall s :: s in seen <==> Seen(rs, s)
      invariant SignaturesDistinct(slots, ms)
      invariant InOrder(reader.payload, from, reader.position, rs)
    {
      var r;
      ghost var m;
      ghost var here, middle := reader.Rest(), reader.position;
      ok, r, m := ParseMethodAt(reader, slots);
      if !ok {
        Stops(f, count, start, ms, count - n, here);
        return;
      }
      OneMore(f, count, start, ms, count - n, here, m, reader.Rest());
      ParsedIsOk(slots, here);
      Resemble(slots, ms, rs, m, r);
      if Signature(r) in seen {
        StaysRepeated(slots, f, count, start, ms + [m], count - n - 1, reader.Rest());
        return false, rs, ms;
      }
      OneMoreInOrder(reader.payload, from, middle, reader.position, rs, r);
      SeenGrows(rs, r);
      seen := seen + {Signature(r)};
      rs, ms := rs + [r], ms + [m];
      n := n + 1;
    }
    AllDone(f, count, start, ms, reader.Rest());
    ok := true;
  }

  predicate Seen(rs: seq<ParsedMethod>, s: string) {
    exists i | 0 <= i < |rs| :: Signature(rs[i]) == s
  }

  lemma SeenGrows(rs: seq<ParsedMethod>, r: ParsedMethod)
    ensures forall s :: Seen(rs + [r], s) <==> Seen(rs, s) || s == Signature(r)
  {
    hide Signature;
    forall s ensures Seen(rs + [r], s) <==> Seen(rs, s) || s == Signature(r) {
      if Seen(rs, s) {
        var i :| 0 <= i < |rs| && Signature(rs[i]) == s;
        assert (rs + [r])[i] == rs[i];
      }
      assert (rs + [r])[|rs|] == r;
    }
  }

  lemma ParsedIsOk(slots: seq<Slot>, here: Bytes)
    requires ParseMethod(slots, here).Got?
    ensures MethodOk(slots, ParseMethod(slots, here).value)
  {}

  /** Keys repeat exactly when name and descriptor do. */
  lemma Resemble(slots: seq<Slot>, ms: seq<Member>, rs: seq<ParsedMethod>, m: Member, r: ParsedMethod)
    requires |rs| == |ms| && SignaturesDistinct(slots, ms)
    requires forall i | 0 <= i < |rs| :: Reported(slots, ms[i], rs[i]) && MethodOk(slots, ms[i])
    requires Reported(slots, m, r) && MethodOk(slots, m)
    ensures Seen(rs, Signature(r)) <==> !SignaturesDistinct(slots, ms + [m])
  {
    hide CodePayloads, ParsesAsCode, ParseCode, Signature, MemberName, MethodDescriptor;
    var all := ms + [m];
    if i :| 0 <= i < |rs| && Signature(rs[i]) == Signature(r) {
      SignatureSplits(rs[i], r);
      assert all[i] == ms[i] && all[|ms|] == m;
    } else {
      forall i | 0 <= i < |ms|
        ensures !(TextAt(slots, ms[i].name) == TextAt(slots, m.name) &&
                  TextAt(slots, ms[i].descriptor) == TextAt(slots, m.descriptor))
      {
        assert Signature(rs[i]) != Signature(r);
        SameSignature(rs[i], r);
      }
    }
  }

  lemma SameSignature(a: ParsedMethod, b: ParsedMethod)
    ensures a.name == b.name && a.descriptor == b.descriptor ==> Signature(a) == Signature(b)
  {}

  lemma StaysRepeated(
    slots: seq<Slot>, f: Format<Member>, n: nat, start: Bytes, done: seq<Member>, left: nat, here: Bytes)
    requires Continues(f, n, start, done, left, here) && !SignaturesDistinct(slots, done)
    ensures Many(f, n, start).Got? ==> !SignaturesDistinct(slots, Many(f, n, start).value)
  {
    var more := Many(f, left, here);
    if more.Got? {
      var i, j :| 0 <= i < j < |done| &&
        TextAt(slots, done[i].name) == TextAt(slots, done[j].name) &&
        TextAt(slots, done[i].descriptor) == TextAt(slots, done[j].descriptor);
      assert (done + more.value)[i] == done[i] && (done + more.value)[j] == done[j];
    }
  }

  // ---------------------------------------------------------------- class files

  method ReadInterfaces(reader: Reader, slots: seq<Slot>, count: nat)
    returns (ok: bool, ghost interfaces: seq<nat>)
    requires reader.Valid()
    modifies reader`position
    ensures reader.Valid() && reader.position >= old(reader.position)
    ensures ok <==> Many(Interfaces(slots), count, old(reader.Rest())).Got?
    ensures ok ==> Got(interfaces, reader.Rest()) == Many(Interfaces(slots), count, old(reader.Rest()))
  {
    hide Number, NamesClass;
    ghost var f, start := Interfaces(slots), reader.Rest();
    interfaces, ok := [], true;
    NothingDone(f, count, start);
    var n := 0;
    while n < count
      invariant reader.Valid() && 0 <= n <= count && reader.position >= old(reader.position)
      invariant Continues(f, count, start, interfaces, count - n, reader.Rest())
    {
      var index;
      ghost var here := reader.Rest();
      ok, index := reader.Unsigned(2);
      if !ok || !NamesClass(slots, index) {
        Stops(f, count, start, interfaces, count - n, here);
        return false, interfaces;
      }
      OneMore(f, count, start, interfaces, count - n, here, index, reader.Rest());
      interfaces := interfaces + [index];
      n := n + 1;
    }
    AllDone(f, count, start, interfaces, reader.Rest());
    ok := true;
  }

  method ReadFields(reader: Reader, slots: seq<Slot>, count: nat)
    returns (ok: bool, ghost fields: seq<Member>)
    requires reader.Valid()
    modifies reader`position
    ensures reader.Valid() && reader.position >= old(reader.position)
    ensures ok <==> Many(Fields(slots), count, old(reader.Rest())).Got?
    ensures ok ==> Got(fields, reader.Rest()) == Many(Fields(slots), count, old(reader.Rest()))
  {
    hide ParseField;
    ghost var f, start := Fields(slots), reader.Rest();
    fields, ok := [], true;
    NothingDone(f, count, start);
    var n := 0;
    while n < count
      invariant reader.Valid() && 0 <= n <= count && reader.position >= old(reader.position)
      invariant Continues(f, count, start, fields, count - n, reader.Rest())
    {
      ghost var m;
      ghost var here := reader.Rest();
      ok, m := ParseFieldAt(reader, slots);
      if !ok {
        Stops(f, count, start, fields, count - n, here);
        return;
      }
      OneMore(f, count, start, fields, count - n, here, m, reader.Rest());
      fields := fields + [m];
      n := n + 1;
    }
    AllDone(f, count, start, fields, reader.Rest());
    ok := true;
  }

  /** The SourceFile that the attributes name, if any. */
  ghost predicate SourceReported(slots: seq<Slot>, attributes: seq<Attribute>, source: string, seen: bool) {
    var sources := SourcePayloads(slots, attributes);
    if seen then |sources| == 1 && SourceOk(slots, sources[0]) && TextAt(slots, Big(sources[0])) == Some(source)
    else sources == [] && source == ""
  }

  /** parseJVMClassAttributes after its count. */
  method ReadClassAttributes(reader: Reader, slots: seq<Slot>, count: nat)
    returns (ok: bool, source: string, ghost attributes: seq<Attribute>)
    requires reader.Valid()
    modifies reader`position
    ensures reader.Valid() && reader.position >= old(reader.position)
    ensures ok ==>
      && Got(attributes, reader.Rest()) == Many(Attributes(slots), count, old(reader.Rest()))
      && SourcesOk(slots, attributes)
      && exists seen :: SourceReported(slots, attributes, source, seen)
    ensures !ok ==>
      var all := Many(Attributes(slots), count, old(reader.Rest()));
      all.Got? ==> !SourcesOk(slots, all.value)
  {
    hide ParseAttribute, SourceOk, Number, SourceName, Many;
    ghost var f, start, from := Attributes(slots), reader.Rest(), reader.position;
    ok, source, attributes := true, "", [];
    var seen := false;
    NothingDone(f, count, start);
    var n := 0;
    while n < count
      invariant reader.Valid() && 0 <= n <= count && reader.position >= from
      invariant Continues(f, count, start, attributes, count - n, reader.Rest())
      invariant SourceReported(slots, attributes, source, seen)
    {
      var name, sub;
      ghost var a;
      ghost var here := reader.Rest();
      ok, name, sub, a := ReadAttribute(reader, slots);
      if !ok {
        Stops(f, count, start, attributes, count - n, here);
        return;
      }
      OneMore(f, count, start, attributes, count - n, here, a, reader.Rest());
      SourcesCarryOver(slots, f, count, start, attributes + [a], count - n - 1, reader.Rest());
      SourcesNext(slots, attributes, a);
      if name == "SourceFile" {
        ghost var sources := SourcePayloads(slots, attributes + [a]);
        assert sources[|sources| - 1] == a.payload;
        SourceShape(slots, a.payload);
        if seen || |sub.payload| - sub.position != 2 { return false, source, attributes; }
        seen := true;
        assert sub.Rest() == a.payload;
        var index;
        ok, index := sub.Unsigned(2);
        if !ok { return false, source, attributes; }
        var candidate := TextAt(slots, index);
        if candidate.None? || !SourceName(candidate.value) { return false, source, attributes; }
        source := candidate.value;
      }
      attributes := attributes + [a];
      n := n + 1;
    }
    AllDone(f, count, start, attributes, reader.Rest());
    ok := true;
  }

  lemma SourceShape(slots: seq<Slot>, payload: Bytes)
    ensures |payload| != 2 ==> !SourceOk(slots, payload)
    ensures |payload| == 2 ==>
      && Number(payload, 2).Got? && Number(payload, 2).value == Big(payload)
      && (SourceOk(slots, payload) <==> TextAt(slots, Big(payload)).Some? &&
                                        SourceName(TextAt(slots, Big(payload)).value))
  {
    if |payload| == 2 { assert payload[..2] == payload; }
  }

  lemma SourcesNext(slots: seq<Slot>, attributes: seq<Attribute>, a: Attribute)
    ensures SourcePayloads(slots, attributes + [a]) ==
      SourcePayloads(slots, attributes) +
      (if TextAt(slots, a.name) == Some("SourceFile") then [a.payload] else [])
  {
    assert (attributes + [a])[..|attributes|] == attributes;
  }

  lemma {:induction false} SourcesJoin(slots: seq<Slot>, a: seq<Attribute>, b: seq<Attribute>)
    ensures SourcePayloads(slots, a + b) == SourcePayloads(slots, a) + SourcePayloads(slots, b)
  {
    if b == [] {
      assert a + b == a;
    } else {
      var last := |b| - 1;
      assert (a + b)[..|a| + last] == a + b[..last];
      SourcesJoin(slots, a, b[..last]);
    }
  }

  lemma SourcesCarryOver(
    slots: seq<Slot>, f: Format<Attribute>, n: nat, start: Bytes, done: seq<Attribute>, left: nat,
    here: Bytes)
    requires Continues(f, n, start, done, left, here)
    ensures var all := Many(f, n, start);
      all.Got? ==> Starts(SourcePayloads(slots, done), SourcePayloads(slots, all.value))
  {
    var more := Many(f, left, here);
    if more.Got? {
      SourcesJoin(slots, done, more.value);
      assert Many(f, n, start).value == done + more.value;
    }
  }

  /** strings.ReplaceAll(name, "/", ".") */
  function Dotted(s: string): string { seq(|s|, i requires 0 <= i < |s| => if s[i] == '/' then '.' else s[i]) }

  /** Magic, version and constant pool. */
  method ReadHead(reader: Reader)
    returns (ok: bool, minor: nat, major: nat, slots: seq<Slot>, ghost constants: seq<Constant>)
    requires reader.Valid()
    modifies reader`position
    ensures reader.Valid()
    ensures ok <==> ParsePool(old(reader.Rest())).Got?
    ensures ok ==>
      && Got((minor, major, constants), reader.Rest()) == ParsePool(old(reader.Rest()))
      && slots == Table(constants)
  {
    hide Number, PoolOk, ParseConstants, Table;
    minor, major, slots, constants := 0, 0, [], [];
    var magic, count;
    ok, magic := reader.Unsigned(4);
    if !ok || magic != 0xCAFEBABE { return false, minor, major, slots, constants; }
    ok, minor := reader.Unsigned(2);
    if !ok { return; }
    ok, major := reader.Unsigned(2);
    if !ok || major < 45 || major > 1000 { return false, minor, major, slots, constants; }
    ok, count := reader.Unsigned(2);
    if !ok || count == 0 { return false, minor, major, slots, constants; }
    ok, slots, constants := ReadConstants(reader, count);
    if !ok { return; }
    ok := ValidatePool(slots, major);
  }

  /** What is reported of a class file. */
  ghost predicate ClassReported(file: Bytes, c: ClassFile, r: ParsedClass) {
    var slots := Table(c.constants);
    && ClassNameAt(slots, c.thisClass).Some?
    && r.binaryName == Dotted(ClassNameAt(slots, c.thisClass).value)
    && r.minor == c.minor && r.major == c.major && r.access == c.access
    && (exists seen :: SourceReported(slots, c.attributes, r.sourceFile, seen))
    && |r.methods| == |c.methods|
    && (forall i | 0 <= i < |r.methods| :: Reported(slots, c.methods[i], r.methods[i]))
    && InOrder(file, 0, |file|, r.methods)
  }

  /** Access flags, names, interfaces and fields. */
  method ReadClassHead(reader: Reader, slots: seq<Slot>)
    returns (ok: bool, access: nat, name: string, ghost c: ClassFile, ghost rest: Bytes)
    requires reader.Valid()
    modifies reader`position
    ensures reader.Valid() && reader.position >= old(reader.position)
    ensures forall head ::
      !ok ==> ParseBodyOf(slots, old(reader.Rest()), head).Fail?
    ensures ok ==>
      && ClassNameAt(slots, c.thisClass) == Some(name) && access == c.access
      && forall head ::
           ParseBodyOf(slots, old(reader.Rest()), head) == ParseTail(slots, reader.Rest(), head, c)
  {
    hide Number, NamesClass, Many, Interfaces, Fields, Methods, Attributes, ParseTail;
    ghost var start := reader.Rest();
    TailIs(slots, start);
    access, name, c, rest := 0, "", ClassFile(0, 0, [], 0, 0, 0, [], [], [], []), [];
    var thisClass, superClass, count;
    ok, access := reader.Unsigned(2);
    if !ok { return; }
    ok, thisClass := reader.Unsigned(2);
    if !ok { return; }
    ok, superClass := reader.Unsigned(2);
    if !ok { return; }
    if !NamesClass(slots, thisClass) { return false, access, name, c, rest; }
    if superClass != 0 && !NamesClass(slots, superClass) { return false, access, name, c, rest; }
    NamedClass(slots, thisClass);
    ghost var interfaces, fields;
    ok, count := reader.Unsigned(2);
    if !ok { return; }
    ok, interfaces := ReadInterfaces(reader, slots, count);
    if !ok { return; }
    ok, count := reader.Unsigned(2);
    if !ok { return; }
    ok, fields := ReadFields(reader, slots, count);
    if !ok { return; }
    c := ClassFile(0, 0, [], access, thisClass, superClass, interfaces, fields, [], []);
    return true, access, ClassNameAt(slots, thisClass).value, c, rest;
  }

  lemma NamedClass(slots: seq<Slot>, i: nat)
    ensures NamesClass(slots, i) ==> ClassNameAt(slots, i).Some?
  {}

  /** The body of a class file from the methods on. */
  function ParseTail(slots: seq<Slot>, b: Bytes, head: (nat, nat, seq<Constant>), c: ClassFile): Parsed<ClassFile> {
    var (methods, w) :- Counted(Methods(slots), b);
    if !SignaturesDistinct(slots, methods) then Fail
    else
      var (attributes, x) :- Counted(Attributes(slots), w);
      if !SourcesOk(slots, attributes) then Fail
      else Got(ClassFile(head.0, head.1, head.2, c.access, c.thisClass, c.superClass, c.interfaces,
                         c.fields, methods, attributes), x)
  }

  /** The body read in two parts. */
  function ParseTwice(slots: seq<Slot>, b: Bytes, head: (nat, nat, seq<Constant>)): Parsed<ClassFile> {
    var (access, r) :- Number(b, 2);
    var (thisClass, s) :- Number(r, 2);
    var (superClass, t) :- Number(s, 2);
    if !NamesClass(slots, thisClass) || (superClass != 0 && !NamesClass(slots, superClass)) then Fail
    else
      var (interfaces, u) :- Counted(Interfaces(slots), t);
      var (fields, v) :- Counted(Fields(slots), u);
      ParseTail(slots, v, head,
                ClassFile(0, 0, [], access, thisClass, superClass, interfaces, fields, [], []))
  }

  lemma TailIs(slots: seq<Slot>, b: Bytes)
    ensures forall head :: ParseBodyOf(slots, b, head) == ParseTwice(slots, b, head)
  {
    hide Counted, NamesClass;
  }

  /** parseJVMClass: accepts exactly the serialisations of well-formed class files, and
      reports each method's code at its place: inside the file, in order, without overlap,
      and with the very bytes that are there. */
  method ParseJVMClass(payload: Bytes) returns (r: Option<ParsedClass>)
    ensures r.Some? <==> exists c :: WellFormedClass(c) && Serialize(c) == payload
    ensures r.Some? <==> exists c :: Rules.Obeys(c) && Rules.Written(c) == payload
    ensures r.Some? ==>
      && ParseClass(payload).Some? && ClassReported(payload, ParseClass(payload).value, r.value)
  {
    hide ParsePool, ParseBodyOf, WellFormedClass, Serialize, Table, Reported, InOrder, SourceReported,
         SourcesOk, SignaturesDistinct, Many, Methods, Attributes, Number, Rules.Obeys, Rules.Written;
    AcceptedIff(payload);
    ByTheRules(payload);
    var reader := new Reader(payload, 0);
    assert reader.Rest() == payload;
    var ok, minor, major, slots;
    ghost var constants;
    ok, minor, major, slots, constants := ReadHead(reader);
    if !ok { return None; }
    ghost var head := (minor, major, constants);
    var access, name;
    ghost var c, rest;
    ok, access, name, c, rest := ReadClassHead(reader, slots);
    if !ok { return None; }
    var count, methods;
    ghost var ms;
    ok, count := reader.Unsigned(2);
    if !ok { return None; }
    ghost var before := reader.position;
    ok, methods, ms := ReadMethods(reader, slots, count);
    if !ok { return None; }
    ghost var after := reader.position;
    var source;
    ghost var attributes;
    ok, count := reader.Unsigned(2);
    if !ok { return None; }
    ok, source, attributes := ReadClassAttributes(reader, slots, count);
    if !ok { return None; }
    if |reader.payload| - reader.position != 0 { return None; }
    WidenOrder(payload, before, after, methods);
    return Some(ParsedClass(Dotted(name), source, minor, major, access, methods));
  }

  lemma WidenOrder(file: Bytes, from: nat, to: nat, rs: seq<ParsedMethod>)
    requires InOrder(file, from, to, rs) && to <= |file|
    ensures InOrder(file, 0, |file|, rs)
  {
    forall i | 0 <= i < |rs| ensures InRange(file, 0, |file|, rs[i]) {
      assert InRange(file, from, to, rs[i]);
    }
  }

  /** A byte string is accepted exactly when it serialises a well-formed class file, and
      it does so for one only. */
  lemma AcceptedIff(b: Bytes)
    ensures ParseClass(b).Some? <==> exists c :: WellFormedClass(c) && Serialize(c) == b
    ensures forall c | WellFormedClass(c) && Serialize(c) == b :: ParseClass(b) == Some(c)
  {
    hide ParseClass, WellFormedClass, Serialize;
    if ParseClass(b).Some? { SerializeParse(b); }
    forall c | WellFormedClass(c) && SerializesTo(c, b) ensures ParseClass(b) == Some(c) { ParseSerialize(c); }
  }

  lemma ByTheRules(b: Bytes)
    ensures ParseClass(b).Some? <==> exists c :: Rules.Obeys(c) && Rules.Written(c) == b
  {
    hide ParseClass, Rules.Obeys, Rules.Written;
    forall c: ClassFile ensures ParseClass(b) == Some(c) <==> Rules.Obeys(c) && Rules.Written(c) == b {
      Reference.ParsedByTheRules(b, c);
    }
    if ParseClass(b).Some? { assert Rules.Obeys(ParseClass(b).value) && Rules.Written(ParseClass(b).value) == b; }
  }

  ghost predicate SerializesTo(c: ClassFile, b: Bytes)
    requires WellFormedClass(c)
  {
    Serialize(c) == b
  }
}
