/** The layout of class files (section 4.1 of the Java Virtual Machine Specification): an
    abstract class file, its bytes, and a parser on byte strings. The parser accepts
    exactly the bytes of well-formed abstract class files and gives them back. */
module JvmClassFormat {
  import opened Counting
  import opened Words
  import opened JvmDescriptors
  import ModifiedUtf8

  /** What a parser finds at the start of a byte string, and what it leaves. */
  datatype Parsed<+T> = Fail | Got(value: T, rest: Bytes) {
    predicate IsFailure() { Fail? }

    function PropagateFailure<U>(): Parsed<U>
      requires Fail?
    {
      Fail
    }

    function Extract(): (T, Bytes)
      requires Got?
    {
      (value, rest)
    }
  }

  function Take(b: Bytes, n: nat): Parsed<Bytes> {
    if n > |b| then Fail else Got(b[..n], b[n..])
  }

  /** An n-byte number, most significant byte first. */
  function Number(b: Bytes, n: nat): Parsed<nat> {
    if n > |b| then Fail else Got(Big(b[..n]), b[n..])
  }

  lemma NumberBack(v: nat, n: nat, rest: Bytes)
    requires v < Power256(n)
    ensures Number(BigBytes(v, n) + rest, n) == Got(v, rest)
  {
    BigOfBytes(v, n);
    assert (BigBytes(v, n) + rest)[..n] == BigBytes(v, n);
    assert (BigBytes(v, n) + rest)[n..] == rest;
  }

  lemma NumberForth(b: Bytes, n: nat)
    requires Number(b, n).Got?
    ensures Number(b, n).value < Power256(n)
    ensures BigBytes(Number(b, n).value, n) + Number(b, n).rest == b
  {
    hide Big, BigBytes;
    BytesOfBig(b[..n]);
    assert b[..n] + b[n..] == b;
  }

  lemma TakeBack(a: Bytes, rest: Bytes)
    ensures Take(a + rest, |a|) == Got(a, rest)
  {
    assert (a + rest)[..|a|] == a && (a + rest)[|a|..] == rest;
  }

  // ---------------------------------------------------------------- constants

  datatype Constant =
    | Utf8(text: string)
    | Fixed(tag: nat, bytes: Bytes)
    | One(tag: nat, index: nat)
    | Two(tag: nat, first: nat, second: nat)
    | Handle(kind: nat, index: nat)

  predicate Short(v: nat) { v < 0x1_0000 }

  /** Bytes of a numeric constant. */
  function FixedSize(tag: nat): nat { if tag in {5, 6} then 8 else 4 }

  predicate ConstantOk(c: Constant) {
    match c
    case Utf8(text) => Short(|ModifiedUtf8.Encode(text)|)
    case Fixed(tag, bytes) => tag in {3, 4, 5, 6} && |bytes| == FixedSize(tag)
    case One(tag, i) => tag in {7, 8, 16, 19, 20} && Short(i)
    case Two(tag, i, j) => tag in {9, 10, 11, 12, 17, 18} && Short(i) && Short(j)
    case Handle(kind, i) => 1 <= kind <= 9 && Short(i)
  }

  function TagOf(c: Constant): nat {
    match c
    case Utf8(_) => 1
    case Handle(_, _) => 15
    case _ => c.tag
  }

  /** Long and double constants take two slots of the pool. */
  predicate IsWide(c: Constant) { c.Fixed? && c.tag in {5, 6} }

  function BodyBytes(c: Constant): Bytes
    requires ConstantOk(c)
  {
    match c
    case Utf8(text) =>
      BigBytes(|ModifiedUtf8.Encode(text)|, 2) + ModifiedUtf8.Encode(text)
    case Fixed(_, bytes) => bytes
    case One(_, i) => BigBytes(i, 2)
    case Two(_, i, j) => BigBytes(i, 2) + BigBytes(j, 2)
    case Handle(kind, i) => [kind] + BigBytes(i, 2)
  }

  function ConstantBytes(c: Constant): Bytes
    requires ConstantOk(c)
  {
    [TagOf(c)] + BodyBytes(c)
  }

  function ParseUtf8(b: Bytes): Parsed<Constant> {
    var (length, r) :- Number(b, 2);
    var (encoded, s) :- Take(r, length);
    match ModifiedUtf8.Decode(encoded)
    case None => Fail
    case Some(text) => Got(Utf8(text), s)
  }

  function ParseTwo(tag: nat, b: Bytes): Parsed<Constant> {
    var (i, r) :- Number(b, 2);
    var (j, s) :- Number(r, 2);
    Got(Two(tag, i, j), s)
  }

  function ParseHandle(b: Bytes): Parsed<Constant> {
    var (kind, r) :- Number(b, 1);
    if !(1 <= kind <= 9) then Fail
    else
      var (i, s) :- Number(r, 2);
      Got(Handle(kind, i), s)
  }

  function ParseBody(tag: nat, b: Bytes): Parsed<Constant> {
    if tag == 1 then ParseUtf8(b)
    else if tag in {3, 4, 5, 6} then
      var (bytes, r) :- Take(b, FixedSize(tag));
      Got(Fixed(tag, bytes), r)
    else if tag in {7, 8, 16, 19, 20} then
      var (i, r) :- Number(b, 2);
      Got(One(tag, i), r)
    else if tag in {9, 10, 11, 12, 17, 18} then ParseTwo(tag, b)
    else if tag == 15 then ParseHandle(b)
    else Fail
  }

  function ParseConstant(b: Bytes): Parsed<Constant> {
    var (tag, r) :- Number(b, 1);
    ParseBody(tag, r)
  }

  lemma OneByte(v: nat, rest: Bytes)
    requires v < 256
    ensures BigBytes(v, 1) == [v] && Number([v] + rest, 1) == Got(v, rest)
  {
    Powers();
    assert BigBytes(v, 1) == [v];
    NumberBack(v, 1, rest);
  }

  lemma OneByteForth(b: Bytes)
    requires Number(b, 1).Got?
    ensures Number(b, 1).value < 256 && [Number(b, 1).value] + Number(b, 1).rest == b
  {
    Powers();
    NumberForth(b, 1);
    OneByte(Number(b, 1).value, Number(b, 1).rest);
  }

  lemma ShortBack(v: nat, rest: Bytes)
    requires Short(v)
    ensures Number(BigBytes(v, 2) + rest, 2) == Got(v, rest)
  {
    Powers();
    NumberBack(v, 2, rest);
  }

  lemma ShortForth(b: Bytes)
    requires Number(b, 2).Got?
    ensures Short(Number(b, 2).value) && BigBytes(Number(b, 2).value, 2) + Number(b, 2).rest == b
  {
    Powers();
    NumberForth(b, 2);
  }

  lemma Utf8Back(text: string, rest: Bytes)
    requires ConstantOk(Utf8(text))
    ensures ParseUtf8(BodyBytes(Utf8(text)) + rest) == Got(Utf8(text), rest)
  {
    hide Number, Take, BigBytes;
    var encoded := ModifiedUtf8.Encode(text);
    assert BodyBytes(Utf8(text)) + rest == BigBytes(|encoded|, 2) + (encoded + rest);
    ShortBack(|encoded|, encoded + rest);
    TakeBack(encoded, rest);
    ModifiedUtf8.DecodeEncode(text);
  }

  lemma TwoBack(tag: nat, i: nat, j: nat, rest: Bytes)
    requires ConstantOk(Two(tag, i, j))
    ensures ParseTwo(tag, BodyBytes(Two(tag, i, j)) + rest) == Got(Two(tag, i, j), rest)
  {
    hide Number, BigBytes;
    assert BodyBytes(Two(tag, i, j)) + rest == BigBytes(i, 2) + (BigBytes(j, 2) + rest);
    ShortBack(i, BigBytes(j, 2) + rest);
    ShortBack(j, rest);
  }

  lemma HandleBack(kind: nat, i: nat, rest: Bytes)
    requires ConstantOk(Handle(kind, i))
    ensures ParseHandle(BodyBytes(Handle(kind, i)) + rest) == Got(Handle(kind, i), rest)
  {
    hide Number, BigBytes;
    assert BodyBytes(Handle(kind, i)) + rest == [kind] + (BigBytes(i, 2) + rest);
    OneByte(kind, BigBytes(i, 2) + rest);
    ShortBack(i, rest);
  }

  lemma BodyBack(c: Constant, rest: Bytes)
    requires ConstantOk(c)
    ensures ParseBody(TagOf(c), BodyBytes(c) + rest) == Got(c, rest)
  {
    hide Number, Take, BigBytes, ParseUtf8, ParseTwo, ParseHandle;
    match c
    case Utf8(text) => Utf8Back(text, rest);
    case Fixed(_, bytes) => TakeBack(bytes, rest);
    case One(_, i) => ShortBack(i, rest);
    case Two(tag, i, j) => TwoBack(tag, i, j, rest);
    case Handle(kind, i) => HandleBack(kind, i, rest);
  }

  lemma ConstantBack(c: Constant, rest: Bytes)
    requires ConstantOk(c)
    ensures ParseConstant(ConstantBytes(c) + rest) == Got(c, rest)
  {
    hide Number, ParseBody, BodyBytes;
    assert ConstantBytes(c) + rest == [TagOf(c)] + (BodyBytes(c) + rest);
    OneByte(TagOf(c), BodyBytes(c) + rest);
    BodyBack(c, rest);
  }

  lemma Utf8Forth(b: Bytes)
    requires ParseUtf8(b).Got?
    ensures var p := ParseUtf8(b); ConstantOk(p.value) && BodyBytes(p.value) + p.rest == b
  {
    hide BigBytes;
    ShortForth(b);
    var r := Number(b, 2).rest;
    ModifiedUtf8.EncodeDecode(Take(r, Number(b, 2).value).value);
  }

  lemma TwoForth(tag: nat, b: Bytes)
    requires tag in {9, 10, 11, 12, 17, 18} && ParseTwo(tag, b).Got?
    ensures var p := ParseTwo(tag, b); ConstantOk(p.value) && BodyBytes(p.value) + p.rest == b
  {
    hide BigBytes, Number;
    ShortForth(b);
    ShortForth(Number(b, 2).rest);
  }

  lemma HandleForth(b: Bytes)
    requires ParseHandle(b).Got?
    ensures var p := ParseHandle(b); ConstantOk(p.value) && BodyBytes(p.value) + p.rest == b
  {
    hide BigBytes, Number;
    OneByteForth(b);
    ShortForth(Number(b, 1).rest);
  }

  lemma BodyForth(tag: nat, b: Bytes)
    requires ParseBody(tag, b).Got?
    ensures var p := ParseBody(tag, b);
      ConstantOk(p.value) && TagOf(p.value) == tag && BodyBytes(p.value) + p.rest == b
  {
    hide BigBytes, Number;
    if tag == 1 {
      Utf8Forth(b);
    } else if tag in {7, 8, 16, 19, 20} {
      ShortForth(b);
    } else if tag in {9, 10, 11, 12, 17, 18} {
      TwoForth(tag, b);
    } else if tag == 15 {
      HandleForth(b);
    }
  }

  lemma ConstantForth(b: Bytes)
    requires ParseConstant(b).Got?
    ensures ConstantOk(ParseConstant(b).value)
    ensures ConstantBytes(ParseConstant(b).value) + ParseConstant(b).rest == b
  {
    hide Number, ParseBody, BodyBytes;
    OneByteForth(b);
    BodyForth(Number(b, 1).value, Number(b, 1).rest);
  }

  // ---------------------------------------------------------------- the pool

  /** A slot of the pool, as the parser keeps it. */
  datatype Slot = Slot(tag: nat, text: string, index1: nat, index2: nat)

  const EMPTY_SLOT := Slot(0, "", 0, 0)

  function SlotOf(c: Constant): Slot {
    match c
    case Utf8(text) => Slot(1, text, 0, 0)
    case Fixed(tag, _) => Slot(tag, "", 0, 0)
    case One(tag, i) => Slot(tag, "", i, 0)
    case Two(tag, i, j) => Slot(tag, "", i, j)
    case Handle(kind, i) => Slot(15, "", kind, i)
  }

  function Span(c: Constant): nat { if IsWide(c) then 2 else 1 }

  function SpanOf(cs: seq<Constant>): nat {
    if cs == [] then 0 else Span(cs[0]) + SpanOf(cs[1..])
  }

  /** The slots after the constants of `cs`. */
  function SlotsOf(cs: seq<Constant>): seq<Slot> {
    if cs == [] then []
    else (if IsWide(cs[0]) then [SlotOf(cs[0]), EMPTY_SLOT] else [SlotOf(cs[0])]) + SlotsOf(cs[1..])
  }

  /** The whole table: slot 0 is never used. */
  function Table(cs: seq<Constant>): seq<Slot> { [EMPTY_SLOT] + SlotsOf(cs) }

  predicate AllOk(cs: seq<Constant>) { forall i | 0 <= i < |cs| :: ConstantOk(cs[i]) }

  function ConstantsBytes(cs: seq<Constant>): Bytes
    requires AllOk(cs)
  {
    if cs == [] then [] else ConstantBytes(cs[0]) + ConstantsBytes(cs[1..])
  }

  /** Constants until `left` slots are filled; a wide one does not fit the last slot. */
  function ParseConstants(b: Bytes, left: nat): Parsed<seq<Constant>>
    decreases left
  {
    if left == 0 then Got([], b)
    else
      var (c, r) :- ParseConstant(b);
      if Span(c) > left then Fail
      else
        var (cs, s) :- ParseConstants(r, left - Span(c));
        Got([c] + cs, s)
  }

  lemma {:induction false} ConstantsBack(cs: seq<Constant>, rest: Bytes)
    requires AllOk(cs)
    ensures ParseConstants(ConstantsBytes(cs) + rest, SpanOf(cs)) == Got(cs, rest)
  {
    hide ParseConstant, ConstantBytes;
    if cs == [] {
      assert ConstantsBytes(cs) + rest == rest;
    } else {
      assert ConstantsBytes(cs) + rest == ConstantBytes(cs[0]) + (ConstantsBytes(cs[1..]) + rest);
      ConstantBack(cs[0], ConstantsBytes(cs[1..]) + rest);
      ConstantsBack(cs[1..], rest);
      assert [cs[0]] + cs[1..] == cs;
    }
  }

  lemma ConsConstants(c: Constant, cs: seq<Constant>)
    requires ConstantOk(c) && AllOk(cs)
    ensures AllOk([c] + cs) && SpanOf([c] + cs) == Span(c) + SpanOf(cs)
    ensures ConstantsBytes([c] + cs) == ConstantBytes(c) + ConstantsBytes(cs)
  {
    hide ConstantBytes, ConstantOk;
    assert ([c] + cs)[1..] == cs;
  }

  lemma {:induction false} ConstantsForth(b: Bytes, left: nat)
    requires ParseConstants(b, left).Got?
    ensures var p := ParseConstants(b, left);
      AllOk(p.value) && SpanOf(p.value) == left && ConstantsBytes(p.value) + p.rest == b
    decreases left
  {
    hide ParseConstant, ConstantBytes, ConstantOk, AllOk, Span;
    if left > 0 {
      SpanPositive();
      ConstantForth(b);
      var c, r := ParseConstant(b).value, ParseConstant(b).rest;
      ConstantsForth(r, left - Span(c));
      var cs := ParseConstants(r, left - Span(c)).value;
      ConsConstants(c, cs);
    } else {
      NoConstants();
    }
  }

  lemma SpanPositive() ensures forall c :: Span(c) > 0 {}

  lemma NoConstants() ensures AllOk([]) && ConstantsBytes([]) == [] {}

  // ---------------------------------------------------------------- looking constants up

  /** jvmUTF8 */
  function TextAt(slots: seq<Slot>, i: nat): Option<string> {
    if i == 0 || i >= |slots| || slots[i].tag != 1 then None else Some(slots[i].text)
  }

  /** jvmClassName */
  function ClassNameAt(slots: seq<Slot>, i: nat): Option<string> {
    if i == 0 || i >= |slots| || slots[i].tag != 7 then None else TextAt(slots, slots[i].index1)
  }

  /** jvmNameAndType */
  function NameAndType(slots: seq<Slot>, i: nat): Option<(string, string)> {
    if i == 0 || i >= |slots| || slots[i].tag != 12 then None
    else
      match (TextAt(slots, slots[i].index1), TextAt(slots, slots[i].index2))
      case (Some(name), Some(descriptor)) => Some((name, descriptor))
      case _ => None
  }

  predicate Lacks(s: string, cs: string) { forall c | c in cs :: c !in s }

  predicate MemberName(s: string, ofMethod: bool) {
    && PlainText(s, 1024) && Lacks(s, ".;[/")
    && (Lacks(s, "<>") || (ofMethod && s in {"<init>", "<clinit>"}))
  }

  predicate AttributeName(s: string) { PlainText(s, 1024) && Lacks(s, ".;[/<>") }

  predicate SourceName(s: string) {
    PlainText(s, 2048) && s != "." && s != ".." && Lacks(s, "/\\")
  }

  predicate FieldDescriptor(s: string) { Parse(s, 0).Some? && Parse(s, 0).value.1 == "" }

  predicate MethodDescriptor(s: string) { MethodParses(s) && Length(s) <= 4096 }

  predicate NamesClass(slots: seq<Slot>, i: nat) {
    ClassNameAt(slots, i).Some? && InternalName(ClassNameAt(slots, i).value)
  }

  /** validJVMMethodHandle */
  predicate HandleOk(slots: seq<Slot>, kind: nat, i: nat) {
    && 0 < i < |slots|
    && var tag := slots[i].tag;
       if kind in {1, 2, 3, 4} then tag == 9
       else if kind in {5, 8} then tag == 10
       else if kind in {6, 7} then tag == 10 || tag == 11
       else kind == 9 && tag == 11
  }

  /** validateJVMReference */
  predicate ReferenceOk(slots: seq<Slot>, entry: Slot) {
    0 < entry.index1 < |slots| && slots[entry.index1].tag == 7 && NameAndType(slots, entry.index2).Some?
  }

  /** What validateJVMConstantPool asks of one slot. */
  predicate SlotOk(slots: seq<Slot>, i: nat, major: nat)
    requires 0 < i < |slots|
  {
    var entry := slots[i];
    var named := NameAndType(slots, if entry.tag in {17, 18} then entry.index2 else i);
    var text := TextAt(slots, entry.index1);
    match entry.tag
    case 0 => i > 1 && slots[i - 1].tag in {5, 6}
    case 1 => true
    case 3 => true
    case 4 => true
    case 5 => true
    case 6 => true
    case 7 => text.Some? &&
      (if text.value != "" && text.value[0] == '[' then FieldDescriptor(text.value)
       else InternalName(text.value))
    case 8 => text.Some?
    case 9 => ReferenceOk(slots, entry) &&
      var pair := NameAndType(slots, entry.index2).value;
      MemberName(pair.0, false) && FieldDescriptor(pair.1)
    case 10 => MethodReferenceOk(slots, entry)
    case 11 => MethodReferenceOk(slots, entry)
    case 12 => named.Some? && MemberName(named.value.0, true) &&
      (FieldDescriptor(named.value.1) || MethodDescriptor(named.value.1))
    case 15 => major >= 51 && HandleOk(slots, entry.index1, entry.index2)
    case 16 => major >= 51 && text.Some? && MethodDescriptor(text.value)
    case 17 => major >= 55 && named.Some? && MemberName(named.value.0, false) &&
      FieldDescriptor(named.value.1)
    case 18 => major >= 51 && named.Some? && MemberName(named.value.0, true) &&
      Lacks(named.value.0, "<>") && MethodDescriptor(named.value.1)
    case 19 => major >= 53 && text.Some? && PlainText(text.value, 2048)
    case 20 => major >= 53 && text.Some? && PlainText(text.value, 2048)
    case _ => false
  }

  predicate MethodReferenceOk(slots: seq<Slot>, entry: Slot) {
    && ReferenceOk(slots, entry)
    && var pair := NameAndType(slots, entry.index2).value;
       MemberName(pair.0, true) && pair.0 != "<clinit>" &&
       !(entry.tag == 11 && pair.0 == "<init>") && MethodDescriptor(pair.1)
  }

  predicate PoolOk(slots: seq<Slot>, major: nat) {
    forall i | 0 < i < |slots| :: SlotOk(slots, i, major)
  }

  // ---------------------------------------------------------------- formats

  /** A well-formedness condition with a layout and a parser for it. */
  datatype Format<!T> = Format(ok: T -> bool, bytes: T -> Bytes, parse: Bytes -> Parsed<T>)

  /** Parsing gives back what was laid out, and accepts nothing else. */
  ghost predicate Exact<T(!new)>(f: Format<T>) {
    && (forall x, rest :: f.ok(x) ==> f.parse(f.bytes(x) + rest) == Got(x, rest))
    && (forall b :: f.parse(b).Got? ==>
          f.ok(f.parse(b).value) && f.bytes(f.parse(b).value) + f.parse(b).rest == b)
  }

  function ManyBytes<T>(f: Format<T>, xs: seq<T>): Bytes {
    if xs == [] then [] else f.bytes(xs[0]) + ManyBytes(f, xs[1..])
  }

  /** `n` items, one after the other. */
  function Many<T>(f: Format<T>, n: nat, b: Bytes): Parsed<seq<T>> {
    if n == 0 then Got([], b)
    else
      var (x, r) :- f.parse(b);
      var (xs, s) :- Many(f, n - 1, r);
      Got([x] + xs, s)
  }

  predicate AllSatisfy<T>(f: Format<T>, xs: seq<T>) { forall i | 0 <= i < |xs| :: f.ok(xs[i]) }

  lemma {:induction false} ManyBack<T(!new)>(f: Format<T>, xs: seq<T>, rest: Bytes)
    requires Exact(f) && AllSatisfy(f, xs)
    ensures Many(f, |xs|, ManyBytes(f, xs) + rest) == Got(xs, rest)
  {
    if xs == [] {
      assert ManyBytes(f, xs) + rest == rest;
    } else {
      var tail := ManyBytes(f, xs[1..]) + rest;
      assert ManyBytes(f, xs) + rest == f.bytes(xs[0]) + tail;
      assert f.parse(f.bytes(xs[0]) + tail) == Got(xs[0], tail);
      ManyBack(f, xs[1..], rest);
      assert [xs[0]] + xs[1..] == xs;
    }
  }

  lemma {:induction false} ManyForth<T(!new)>(f: Format<T>, n: nat, b: Bytes)
    requires Exact(f) && Many(f, n, b).Got?
    ensures var p := Many(f, n, b);
      |p.value| == n && AllSatisfy(f, p.value) && ManyBytes(f, p.value) + p.rest == b
  {
    if n > 0 {
      var x, r := f.parse(b).value, f.parse(b).rest;
      assert f.ok(x) && f.bytes(x) + r == b;
      ManyForth(f, n - 1, r);
      var xs := Many(f, n - 1, r).value;
      assert ([x] + xs)[1..] == xs;
      assert f.bytes(x) + (ManyBytes(f, xs) + Many(f, n - 1, r).rest) == b;
    }
  }

  /** A counted table: its length in two bytes, then its items. */
  function CountedBytes<T>(f: Format<T>, xs: seq<T>): Bytes { BigBytes(|xs|, 2) + ManyBytes(f, xs) }

  function Counted<T>(f: Format<T>, b: Bytes): Parsed<seq<T>> {
    var (n, r) :- Number(b, 2);
    Many(f, n, r)
  }

  predicate CountedOk<T>(f: Format<T>, xs: seq<T>) { Short(|xs|) && AllSatisfy(f, xs) }

  lemma CountedBack<T(!new)>(f: Format<T>, xs: seq<T>, rest: Bytes)
    requires Exact(f) && CountedOk(f, xs)
    ensures Counted(f, CountedBytes(f, xs) + rest) == Got(xs, rest)
  {
    hide Number, BigBytes, Many, ManyBytes;
    assert CountedBytes(f, xs) + rest == BigBytes(|xs|, 2) + (ManyBytes(f, xs) + rest);
    ShortBack(|xs|, ManyBytes(f, xs) + rest);
    ManyBack(f, xs, rest);
  }

  lemma CountedForth<T(!new)>(f: Format<T>, b: Bytes)
    requires Exact(f) && Counted(f, b).Got?
    ensures CountedOk(f, Counted(f, b).value)
    ensures CountedBytes(f, Counted(f, b).value) + Counted(f, b).rest == b
  {
    hide Number, BigBytes, Many, ManyBytes;
    ShortForth(b);
    ManyForth(f, Number(b, 2).value, Number(b, 2).rest);
  }
}
