/** Marshalled records once more, byte by byte and with every place written out: what each kind
    of record holds and in which order, which records there are, and what a code object has to
    satisfy. Nothing here uses the encoding and the conditions that the reader is proved
    against; that they agree is proved below. */
module PycLayout {
  import opened Words
  import opened PycRecords
  import opened Utf8Text

  // ---------------------------------------------------------------- numbers

  /** A byte, or the low byte of a number. */
  function U1(v: int): Byte { v % 256 }

  /** 32 bits in two's complement, the low byte first. */
  function S4(v: int): Bytes { [v % 256, v / 256 % 256, v / 0x1_0000 % 256, v / 0x100_0000 % 256] }

  lemma S4Is(v: int)
    requires -0x8000_0000 <= v < 0x8000_0000
    ensures SignedBytes(v) == S4(v)
  {
    var w := v % 0x1_0000_0000;
    Bytes4(w);
    Residues(v, w);
  }

  lemma Residues(v: int, w: int)
    requires w == v % 0x1_0000_0000 && -0x8000_0000 <= v < 0x8000_0000
    ensures w % 256 == v % 256 && w / 256 % 256 == v / 256 % 256
    ensures w / 0x1_0000 % 256 == v / 0x1_0000 % 256 && w / 0x100_0000 % 256 == v / 0x100_0000 % 256
  {
    if v < 0 {
      assert w == v + 0x1_0000_0000;
      assert w / 256 == v / 256 + 0x100_0000;
      assert w / 0x1_0000 == v / 0x1_0000 + 0x1_0000;
      assert w / 0x100_0000 == v / 0x100_0000 + 256;
    } else {
      assert w == v;
    }
  }

  lemma Bytes4(w: nat)
    requires w < 0x1_0000_0000
    ensures LittleBytes(w, 4) == [w % 256, w / 256 % 256, w / 0x1_0000 % 256, w / 0x100_0000 % 256]
  {
    assert w / 256 / 256 == w / 0x1_0000 && w / 256 / 256 / 256 == w / 0x100_0000;
    assert LittleBytes(w, 4) == [w % 256] + LittleBytes(w / 256, 3);
    assert LittleBytes(w / 256, 3) == [w / 256 % 256] + LittleBytes(w / 256 / 256, 2);
    assert LittleBytes(w / 256 / 256, 2) == [w / 256 / 256 % 256] + LittleBytes(w / 256 / 256 / 256, 1);
    assert LittleBytes(w / 256 / 256 / 256, 1) == [w / 256 / 256 / 256 % 256] + LittleBytes(w / 256 / 256 / 256 / 256, 0);
  }

  lemma U1Is(v: nat)
    requires v < 256
    ensures LittleBytes(v, 1) == [v]
  {
    assert LittleBytes(v, 1) == [v % 256] + LittleBytes(v / 256, 0);
  }

  // ---------------------------------------------------------------- records

  /** The kind with the flag in its top bit. */
  function Kind(k: char, flag: bool): Byte { if flag then k as int % 128 + 128 else k as int % 128 }

  predicate OneOf(k: char, a: char, b: char, c: char, d: char) { k == a || k == b || k == c || k == d }

  /** Numbers and texts by kind: nothing; 4, 8 or 16 bytes; a text behind one or four bytes of
      length; two texts; two bytes for each digit. */
  predicate LeafAllowed(k: char, content: Content) {
    match content
    case Empty => OneOf(k, 'N', 'F', 'T', '0') || k == 'S' || k == '.'
    case Fixed(b) => (k == 'i' && |b| == 4) || ((k == 'I' || k == 'g') && |b| == 8) || (k == 'y' && |b| == 16)
    case Short(b) => |b| <= 255 && (k == 'f' || ((k == 'z' || k == 'Z') && forall i | 0 <= i < |b| :: b[i] <= 127))
    case Pair(re, im) => k == 'x' && |re| <= 255 && |im| <= 255
    case Long(b) =>
      |b| <= 0x7FFF_FFFF && (k == 's' || k == 't' || k == 'u' || ((k == 'a' || k == 'A') &&
          forall i | 0 <= i < |b| :: b[i] <= 127))
    case Digits(d, b) => k == 'l' && -0x8000_0000 <= d <= 0x7FFF_FFFF && |b| == (if d < 0 then -2 * d else 2 * d)
  }

  function LeafWritten(content: Content): Bytes {
    match content
    case Empty => []
    case Fixed(b) => b
    case Short(b) => [U1(|b|)] + b
    case Pair(re, im) => [U1(|re|)] + re + [U1(|im|)] + im
    case Long(b) => S4(|b|) + b
    case Digits(d, b) => S4(d) + b
  }

  predicate In31(v: int) { 0 <= v <= 0x7FFF_FFFF }

  /** Tuples, lists and sets; small tuples; dictionaries of keys and values; and code: six
      numbers, eight fields, the first line and the line table. */
  predicate Allowed(t: Record)
    decreases t, 1
  {
    match t
    case Reference(i) => In31(i)
    case Leaf(flag, k, content) => LeafAllowed(k, content) && !(flag && k == '0')
    case Container(_, k, items) =>
      && ((OneOf(k, '(', '[', '<', '>') && |items| <= 0x7FFF_FFFF) || (k == ')' && |items| <= 255))
      && AllAllowed(items) && NoneNull(items)
    case Dictionary(_, items) => |items| % 2 == 0 && AllAllowed(items) && NoneNull(items)
    case Code(_, n, fields, line, table) =>
      && In31(n.args) && In31(n.posOnly) && In31(n.kwOnly) && In31(n.locals) && In31(n.stack) && In31(n.flags)
      && |fields| == 8 && AllAllowed(fields) && In31(line) && Allowed(table)
  }

  predicate AllAllowed(ts: seq<Record>)
    decreases ts, 0
  {
    forall i | 0 <= i < |ts| :: Allowed(ts[i])
  }

  predicate NoneNull(ts: seq<Record>) { forall i | 0 <= i < |ts| :: !(ts[i].Leaf? && ts[i].kind == '0') }

  /** How many items: in one byte for small tuples, in four otherwise. */
  function Length(k: char, n: nat): Bytes { if k == ')' then [U1(n)] else S4(n) }

  /** The six numbers of a code object, in their order. */
  function Six(n: Numbers): Bytes {
    S4(n.args) + S4(n.posOnly) + S4(n.kwOnly) + S4(n.locals) + S4(n.stack) + S4(n.flags)
  }

  /** The bytes of a record. */
  function Written(t: Record): Bytes
    decreases t, 1
  {
    match t
    case Reference(i) => ['r' as int] + S4(i)
    case Leaf(flag, k, content) => [Kind(k, flag)] + LeafWritten(content)
    case Container(flag, k, items) =>
      [Kind(k, flag)] + Length(k, |items|) + AllWritten(items)
    case Dictionary(flag, items) => [Kind('{', flag)] + AllWritten(items) + ['0' as int]
    case Code(flag, n, fields, line, table) =>
      [Kind('c', flag)] + Six(n) + AllWritten(fields) + S4(line) + Written(table)
  }

  function AllWritten(ts: seq<Record>): Bytes
    decreases ts, 0
  {
    if ts == [] then [] else AllWritten(ts[..|ts| - 1]) + Written(ts[|ts| - 1])
  }

  // ---------------------------------------------------------------- the same records

  lemma LeafIff(k: char, content: Content)
    ensures LeafAllowed(k, content) <==> Writable(k, content)
  {}

  lemma LeafIs(k: char, content: Content)
    requires LeafAllowed(k, content)
    ensures ContentBytes(content) == LeafWritten(content)
  {
    hide LittleBytes, SignedBytes;
    match content
    case Empty =>
    case Fixed(_) =>
    case Short(b) => U1Is(|b|);
    case Pair(re, im) =>
      U1Is(|re|);
      U1Is(|im|);
    case Long(b) => S4Is(|b|);
    case Digits(d, _) => S4Is(d);
  }

  /** A null record is the one record of kind '0'. */
  lemma NullIs(t: Record)
    requires Allowed(t)
    ensures t.Leaf? && t.kind == '0' <==> t == NULL_RECORD
  {}

  lemma {:induction false} AllowedIff(t: Record)
    ensures Allowed(t) <==> Shaped(t)
    decreases t
  {
    hide LeafAllowed, Writable;
    match t
    case Reference(_) =>
    case Leaf(_, k, content) => LeafIff(k, content);
    case Container(_, _, items) => AllAllowedIff(items);
    case Dictionary(_, items) => AllAllowedIff(items);
    case Code(_, _, fields, _, table) =>
      AllAllowedIff(fields);
      AllowedIff(table);
  }

  lemma {:induction false} AllAllowedIff(ts: seq<Record>)
    ensures AllAllowed(ts) <==> AllShaped(ts)
    ensures AllAllowed(ts) ==> (NoneNull(ts) <==> NULL_RECORD !in ts)
    decreases ts
  {
    hide Allowed, Shaped;
    forall i | 0 <= i < |ts| ensures Allowed(ts[i]) <==> Shaped(ts[i]) { AllowedIff(ts[i]); }
    if AllAllowed(ts) {
      forall i | 0 <= i < |ts| ensures ts[i].Leaf? && ts[i].kind == '0' <==> ts[i] == NULL_RECORD { NullIs(ts[i]); }
    }
  }

  lemma {:induction false} WrittenIs(t: Record)
    requires Allowed(t)
    ensures Encode(t) == Written(t)
    decreases t
  {
    hide SignedBytes, LittleBytes, S4, LeafAllowed, ContentBytes, LeafWritten, EncodeAll, AllWritten, AllAllowed;
    match t
    case Reference(i) => S4Is(i);
    case Leaf(_, k, content) => LeafIs(k, content);
    case Container(_, k, items) =>
      AllWrittenAre(items);
      CountIs(k, |items|);
    case Dictionary(_, items) => AllWrittenAre(items);
    case Code(flag, n, fields, line, table) =>
      AllWrittenAre(fields);
      WrittenIs(table);
      CodeIs(t);
  }

  lemma CountIs(k: char, n: nat)
    requires if k == ')' then n <= 255 else n <= 0x7FFF_FFFF
    ensures CountBytes(k, n) == Length(k, n)
  {
    hide SignedBytes, S4;
    if k == ')' { U1Is(n); } else { S4Is(n); }
  }

  lemma CodeIs(t: Record)
    requires t.Code? && Allowed(t) && EncodeAll(t.fields) == AllWritten(t.fields)
    requires Encode(t.lineTable) == Written(t.lineTable)
    ensures Encode(t) == Written(t)
  {
    hide SignedBytes, IntBytes, NumberList, S4, Six, EncodeAll, AllWritten, AllAllowed, ContentBytes, LeafWritten;
    NumbersAre(t.numbers);
    S4Is(t.firstLine);
    var head, six, fields, line, table :=
      [Kind('c', t.flag)], Six(t.numbers), AllWritten(t.fields), S4(t.firstLine), Written(t.lineTable);
    assert Encode(t) == head + (six + (fields + (line + table)));
    assert head + (six + (fields + (line + table))) == head + six + fields + line + table;
  }

  lemma NumbersAre(n: Numbers)
    requires In31(n.args) && In31(n.posOnly) && In31(n.kwOnly) && In31(n.locals) && In31(n.stack) && In31(n.flags)
    ensures IntBytes(NumberList(n)) == Six(n)
  {
    hide SignedBytes, S4;
    S4Is(n.args);
    S4Is(n.posOnly);
    S4Is(n.kwOnly);
    S4Is(n.locals);
    S4Is(n.stack);
    S4Is(n.flags);
    var vs := NumberList(n);
    assert vs[..5][..4] == vs[..4] && vs[..4][..3] == vs[..3] && vs[..3][..2] == vs[..2] &&
        vs[..2][..1] == vs[..1] && vs[..1][..0] == [];
    assert IntBytes(vs) == IntBytes(vs[..5]) + SignedBytes(vs[5]);
    assert IntBytes(vs[..5]) == IntBytes(vs[..4]) + SignedBytes(vs[4]);
    assert IntBytes(vs[..4]) == IntBytes(vs[..3]) + SignedBytes(vs[3]);
    assert IntBytes(vs[..3]) == IntBytes(vs[..2]) + SignedBytes(vs[2]);
    assert IntBytes(vs[..2]) == IntBytes(vs[..1]) + SignedBytes(vs[1]);
    assert IntBytes(vs[..1]) == IntBytes([]) + SignedBytes(vs[0]);
  }

  lemma {:induction false} AllWrittenAre(ts: seq<Record>)
    requires AllAllowed(ts)
    ensures EncodeAll(ts) == AllWritten(ts)
    decreases ts
  {
    hide Encode, Written, Allowed;
    if ts != [] {
      WrittenIs(ts[|ts| - 1]);
      AllWrittenAre(ts[..|ts| - 1]);
    }
  }

  // ---------------------------------------------------------------- code objects

  predicate TextKind(k: char) { OneOf(k, 't', 'u', 'a', 'A') || k == 'z' || k == 'Z' }

  /** One to 4096 bytes of UTF-8, none of them zero. */
  ghost predicate NameText(b: Bytes) {
    1 <= |b| <= 4096 && (forall i | 0 <= i < |b| :: b[i] != 0) && IsUtf8(b)
  }

  ghost predicate Named(h: seq<Object>, id: Id) { id < |h| && TextKind(h[id].kind) && NameText(h[id].bytes) }

  predicate Tuple(h: seq<Object>, id: Id) { id < |h| && (h[id].kind == '(' || h[id].kind == ')') }

  ghost predicate NameTuple(h: seq<Object>, id: Id) {
    Tuple(h, id) && forall i | 0 <= i < |h[id].items| :: Named(h, h[id].items[i])
  }

  predicate ByteString(h: seq<Object>, id: Id) { id < |h| && h[id].kind == 's' }

  /** Positional and keyword-only arguments, one local for *args (flag 4), one for **kwargs
      (flag 8). */
  predicate Counters(n: Numbers, maxItems: nat) {
    && n.posOnly <= n.args && n.args <= n.locals && n.stack <= maxItems
    && var required := n.args + n.kwOnly + (n.flags / 4 % 2) + (n.flags / 8 % 2);
       required <= n.locals && required <= maxItems
  }

  /** The fields in their order: bytecode, constants, names, variable names, free variables,
      cell variables, filename, name, line table; and as many variable names as locals. */
  ghost predicate CodeRule(h: seq<Object>, code: CodeObject, c: Config) {
    && Counters(code.numbers, c.maxItems) && |code.fields| == 9
    && ByteString(h, code.fields[0]) && Tuple(h, code.fields[1])
    && NameTuple(h, code.fields[2]) && NameTuple(h, code.fields[3])
    && NameTuple(h, code.fields[4]) && NameTuple(h, code.fields[5])
    && Named(h, code.fields[6]) && Named(h, code.fields[7]) && ByteString(h, code.fields[8])
    && |h[code.fields[3]].items| == code.numbers.locals
  }

  lemma NameIff(b: Bytes)
    ensures NameText(b) <==> NameBytes(b)
  {
    hide Utf8, IsUtf8;
    ValidIff(b);
  }

  lemma NamedIff(h: seq<Object>, id: Id)
    ensures Named(h, id) <==> NameObject(h, id)
  {
    hide NameText, NameBytes;
    if id < |h| { NameIff(h[id].bytes); }
  }

  lemma NameTupleIff(h: seq<Object>, id: Id)
    ensures NameTuple(h, id) <==> StringTuple(h, id)
  {
    hide Named, NameObject;
    if id < |h| {
      forall i | 0 <= i < |h[id].items| ensures Named(h, h[id].items[i]) <==> NameObject(h, h[id].items[i]) {
        NamedIff(h, h[id].items[i]);
      }
    }
  }

  lemma CountersIff(n: Numbers, c: Config)
    ensures Counters(n, c.maxItems) <==> NumbersOk(n, c)
  {
    assert n.flags / 4 % 2 == 0 || n.flags / 4 % 2 == 1;
    assert n.flags / 8 % 2 == 0 || n.flags / 8 % 2 == 1;
  }

  lemma CodeRuleIff(h: seq<Object>, code: CodeObject, c: Config)
    ensures CodeRule(h, code, c) <==> CodeOk(h, code, c)
  {
    hide Counters, NumbersOk, NameTuple, StringTuple, Named, NameBytes, RequiredLocals;
    CountersIff(code.numbers, c);
    Needed(code.numbers, c);
    if |code.fields| == 9 {
      NameTupleIff(h, code.fields[2]);
      NameTupleIff(h, code.fields[3]);
      NameTupleIff(h, code.fields[4]);
      NameTupleIff(h, code.fields[5]);
      NamedIff(h, code.fields[6]);
      NamedIff(h, code.fields[7]);
      TupleIs(h, code.fields[3]);
    }
  }

  lemma Needed(n: Numbers, c: Config)
    ensures NumbersOk(n, c) ==> RequiredLocals(n) <= n.locals
  {}

  lemma TupleIs(h: seq<Object>, id: Id)
    ensures StringTuple(h, id) ==> TupleObject(h, id)
  {}
}
