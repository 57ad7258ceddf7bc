/** Python's marshal format as this repository reads it: records that may be flagged for
    reference or refer back, the bytes of a record, the objects that reading it leaves
    behind, and the limits it has to meet. Objects live in a heap and are named by their
    place in it, because a record may refer to one that is still being read. */
module PycRecords {
  import opened Counting
  import opened Words

  datatype Config = Config(
    maxDepth: nat, maxObjects: nat, maxCodes: nat, maxItems: nat, maxScalar: nat, maxBytecode: nat)

  type Id = nat

  datatype Numbers = Numbers(
    args: int, posOnly: int, kwOnly: int, locals: int, stack: int, flags: int)

  /** A marshalled object; only code objects have `code`. Only texts keep their bytes. */
  datatype Object = Object(kind: char, bytes: Bytes, offset: nat, items: seq<Id>, code: Option<CodeObject>)

  /** The nine fields are bytecode, constants, names, variable names, free variables, cell
      variables, filename, name and line table. */
  datatype CodeObject = CodeObject(numbers: Numbers, fields: seq<Id>, firstLine: int)

  /** An object as it is entered, before its contents are read. */
  function Blank(kind: char): Object { Object(kind, [], 0, [], None) }

  predicate IsPlain(k: char) { k in "NFTS.0" }

  predicate IsLongText(k: char) { k in "stuaA" }

  predicate IsShortText(k: char) { k in "zZ" }

  predicate IsContainer(k: char) { k in "([<>" }

  /** Bytes of a scalar that is skipped whole. */
  function FixedSize(k: char): nat {
    if k == 'i' then 4 else if k == 'I' || k == 'g' then 8 else if k == 'y' then 16 else 0
  }

  predicate Ascii(b: Bytes) { forall i | 0 <= i < |b| :: b[i] <= 0x7F }

  /** pycTextObject */
  predicate IsText(k: char) { k in "tuaAzZ" }

  predicate IsTuple(k: char) { k == '(' || k == ')' }

  // ---------------------------------------------------------------- text

  predicate Continues(b: Bytes, i: nat) { i < |b| && b[i] / 64 == 2 }

  /** utf8.Valid: no overlong form, no surrogate, nothing past 10FFFF. */
  predicate Utf8(b: Bytes)
    decreases |b|
  {
    if b == [] then true
    else if b[0] < 0x80 then Utf8(b[1..])
    else if 0xC2 <= b[0] <= 0xDF then Continues(b, 1) && Utf8(b[2..])
    else if 0xE0 <= b[0] <= 0xEF then
      && Continues(b, 1) && Continues(b, 2)
      && (b[0] == 0xE0 ==> b[1] >= 0xA0) && (b[0] == 0xED ==> b[1] <= 0x9F)
      && Utf8(b[3..])
    else if 0xF0 <= b[0] <= 0xF4 then
      && Continues(b, 1) && Continues(b, 2) && Continues(b, 3)
      && (b[0] == 0xF0 ==> b[1] >= 0x90) && (b[0] == 0xF4 ==> b[1] <= 0x8F)
      && Utf8(b[4..])
    else false
  }

  /** validPYCTextBytes with its maximum of 4096 */
  predicate NameBytes(b: Bytes) { 0 < |b| <= 4096 && Utf8(b) && forall i | 0 <= i < |b| :: b[i] != 0 }

  // ---------------------------------------------------------------- numbers

  /** The 32-bit two's complement of four little-endian bytes. */
  function Signed(b: Bytes): (v: int)
    requires |b| == 4
    ensures -0x8000_0000 <= v < 0x8000_0000
  {
    Powers();
    var v := Little(b);
    if v < 0x8000_0000 then v else v - 0x1_0000_0000
  }

  function SignedBytes(v: int): (b: Bytes)
    ensures |b| == 4
  {
    LittleBytes(v % 0x1_0000_0000, 4)
  }

  lemma SignedBack(v: int)
    requires -0x8000_0000 <= v < 0x8000_0000
    ensures Signed(SignedBytes(v)) == v
  {
    Powers();
    LittleBack(v % 0x1_0000_0000, 4);
  }

  lemma BytesOfSigned(b: Bytes)
    requires |b| == 4
    ensures SignedBytes(Signed(b)) == b
  {
    hide Little, LittleBytes, Power256;
    Powers();
    BytesOfLittle(b);
    assert Signed(b) % 0x1_0000_0000 == Little(b);
  }

  predicate Natural32(v: int) { 0 <= v < 0x8000_0000 }

  function Abs(v: int): nat { if v < 0 then -v else v }

  // ---------------------------------------------------------------- records

  /** What follows the kind of a record without children. */
  datatype Content =
    | Empty
    | Fixed(bytes: Bytes)
    | Short(bytes: Bytes)
    | Pair(re: Bytes, im: Bytes)
    | Long(bytes: Bytes)
    | Digits(digits: int, bytes: Bytes)

  datatype Record =
    | Reference(index: int)
    | Leaf(flag: bool, kind: char, content: Content)
    | Container(flag: bool, kind: char, items: seq<Record>)
    | Dictionary(flag: bool, items: seq<Record>)
    | Code(flag: bool, numbers: Numbers, fields: seq<Record>, firstLine: int, lineTable: Record)

  /** The record that ends a dictionary. */
  const NULL_RECORD := Leaf(false, '0', Empty)

  function KindOf(t: Record): char {
    match t
    case Reference(_) => 'r'
    case Dictionary(_, _) => '{'
    case Code(_, _, _, _, _) => 'c'
    case _ => t.kind
  }

  function FlagOf(t: Record): bool { !t.Reference? && t.flag }

  predicate NumbersShaped(n: Numbers) {
    && Natural32(n.args) && Natural32(n.posOnly) && Natural32(n.kwOnly)
    && Natural32(n.locals) && Natural32(n.stack) && Natural32(n.flags)
  }

  /** Content that a record of kind `k` can have. */
  predicate Writable(k: char, content: Content) {
    match content
    case Empty => IsPlain(k)
    case Fixed(b) => FixedSize(k) > 0 && |b| == FixedSize(k)
    case Short(b) => (k == 'f' || IsShortText(k)) && |b| < 256 && (IsShortText(k) ==> Ascii(b))
    case Pair(re, im) => k == 'x' && |re| < 256 && |im| < 256
    case Long(b) => IsLongText(k) && Natural32(|b|) && (k == 'a' || k == 'A' ==> Ascii(b))
    case Digits(d, b) => k == 'l' && -0x8000_0000 <= d < 0x8000_0000 && |b| == 2 * Abs(d)
  }

  /** A record that can be written down. Null records are not flagged, and stand neither in
      containers nor in dictionaries. */
  predicate Shaped(t: Record)
    decreases t, 1
  {
    match t
    case Reference(i) => Natural32(i)
    case Leaf(flag, k, content) => Writable(k, content) && (k == '0' ==> !flag)
    case Container(_, k, items) =>
      && (if k == ')' then |items| < 256 else IsContainer(k) && Natural32(|items|))
      && AllShaped(items) && NULL_RECORD !in items
    case Dictionary(_, items) => |items| % 2 == 0 && AllShaped(items) && NULL_RECORD !in items
    case Code(_, n, fields, line, table) =>
      |fields| == 8 && Natural32(line) && NumbersShaped(n) && AllShaped(fields) && Shaped(table)
  }

  predicate AllShaped(ts: seq<Record>)
    decreases ts, 0
  {
    forall i | 0 <= i < |ts| :: Shaped(ts[i])
  }

  // ---------------------------------------------------------------- bytes

  function ContentBytes(content: Content): Bytes {
    match content
    case Empty => []
    case Fixed(b) => b
    case Short(b) => LittleBytes(|b|, 1) + b
    case Pair(re, im) => LittleBytes(|re|, 1) + re + (LittleBytes(|im|, 1) + im)
    case Long(b) => SignedBytes(|b|) + b
    case Digits(d, b) => SignedBytes(d) + b
  }

  function NumberList(n: Numbers): seq<int> { [n.args, n.posOnly, n.kwOnly, n.locals, n.stack, n.flags] }

  function IntBytes(vs: seq<int>): (b: Bytes)
    ensures |b| == 4 * |vs|
  {
    if vs == [] then [] else IntBytes(vs[..|vs| - 1]) + SignedBytes(vs[|vs| - 1])
  }

  function CountBytes(k: char, n: nat): (b: Bytes)
    ensures |b| == HeaderSize(k) || k in "c{"
  {
    if k == ')' then LittleBytes(n, 1) else SignedBytes(n)
  }

  /** Bytes between the kind of a record and its children. */
  function HeaderSize(k: char): nat {
    if k == ')' then 1 else if k == 'c' then 24 else if k == '{' then 0 else 4
  }

  function KindByte(k: char, flag: bool): Byte { (if flag then 128 else 0) + k as int % 128 }

  /** The bytes of a record. */
  function Encode(t: Record): (b: Bytes)
    ensures b != []
    decreases t, 1
  {
    [KindByte(KindOf(t), FlagOf(t))] + Body(t)
  }

  function Body(t: Record): Bytes
    decreases t, 0
  {
    match t
    case Reference(i) => SignedBytes(i)
    case Leaf(_, _, content) => ContentBytes(content)
    case Container(_, k, items) => CountBytes(k, |items|) + EncodeAll(items)
    case Dictionary(_, items) => EncodeAll(items) + ['0' as int]
    case Code(_, n, fields, line, table) =>
      IntBytes(NumberList(n)) + (EncodeAll(fields) + (SignedBytes(line) + Encode(table)))
  }

  function EncodeAll(ts: seq<Record>): (b: Bytes)
    ensures |b| >= |ts|
    decreases ts, 2
  {
    if ts == [] then [] else EncodeAll(ts[..|ts| - 1]) + Encode(ts[|ts| - 1])
  }

  function RestAt(payload: Bytes, position: nat): Bytes {
    if position <= |payload| then payload[position..] else []
  }

  /** Two pieces stand one after the other exactly when their concatenation does. */
  lemma Joined(payload: Bytes, p: nat, a: Bytes, b: Bytes)
    ensures a + b <= RestAt(payload, p) <==> a <= RestAt(payload, p) && b <= RestAt(payload, p + |a|)
  {
    var rest := RestAt(payload, p);
    if a + b <= rest {
      assert rest[..|a| + |b|] == a + b;
      assert rest[..|a|] == a && RestAt(payload, p + |a|) == rest[|a|..];
      assert rest[|a|..][..|b|] == rest[..|a| + |b|][|a|..];
    }
    if a <= rest && b <= RestAt(payload, p + |a|) {
      assert RestAt(payload, p + |a|) == rest[|a|..];
      assert rest[..|a|] == a && rest[|a|..][..|b|] == b;
      assert rest == a + rest[|a|..];
    }
  }

  // ---------------------------------------------------------------- what reading a record does

  /** What the reader has used up. */
  datatype Usage = Usage(objects: int, codes: int, scalar: int, bytecode: int)

  function Plus(a: Usage, b: Usage): Usage {
    Usage(a.objects + b.objects, a.codes + b.codes, a.scalar + b.scalar, a.bytecode + b.bytecode)
  }

  predicate AtMost(a: Usage, b: Usage) {
    a.objects <= b.objects && a.codes <= b.codes && a.scalar <= b.scalar && a.bytecode <= b.bytecode
  }

  const ONE_OBJECT := Usage(1, 0, 0, 0)
  const ONE_CODE := Usage(0, 1, 0, 0)

  predicate Within(u: Usage, c: Config) {
    AtMost(u, Usage(c.maxObjects, c.maxCodes, c.maxScalar, c.maxBytecode))
  }

  /** The reader at one moment. */
  datatype State = State(position: nat, used: Usage, references: seq<Id>, heap: seq<Object>)

  function Skip(s: State, n: nat): State { s.(position := s.position + n) }

  function Spend(s: State, u: Usage): State { s.(used := Plus(s.used, u)) }

  /** The object is entered, and flagged for reference, before its contents are read. */
  function Entered(s: State, k: char, flag: bool): State {
    State(s.position + 1, Plus(s.used, ONE_OBJECT),
          if flag then s.references + [|s.heap|] else s.references, s.heap + [Blank(k)])
  }

  /** Before the first child. */
  function Opened(s: State, k: char, flag: bool): State {
    var e := Skip(Entered(s, k, flag), HeaderSize(k));
    if k == 'c' then Spend(e, ONE_CODE) else e
  }

  /** Bytes of content that are charged to the scalar budget. */
  function Charge(content: Content): nat {
    match content
    case Empty => 0
    case Fixed(_) => 0
    case Pair(re, im) => |re| + |im|
    case _ => |content.bytes|
  }

  /** What a text keeps of its content. */
  function TextOf(k: char, content: Content): Bytes {
    match content
    case Short(b) => if IsShortText(k) then b else []
    case Long(b) => b
    case _ => []
  }

  function TextOffset(k: char, content: Content, position: nat): nat {
    match content
    case Short(_) => if IsShortText(k) then position + 1 else 0
    case Long(_) => position + 4
    case _ => 0
  }

  /** A null record has been read. */
  function Terminated(s: State): State { Entered(s, '0', false) }

  /** What a record stands for. */
  function Value(s: State, t: Record): Id {
    if !t.Reference? then |s.heap| else if 0 <= t.index < |s.references| then s.references[t.index] else 0
  }

  function BytecodeSize(heap: seq<Object>, fields: seq<Id>): nat {
    if |fields| > 0 && fields[0] < |heap| then |heap[fields[0]].bytes| else 0
  }

  /** The state after record `t` has been read from state `s`. */
  function After(s: State, t: Record): (r: State)
    ensures s.heap <= r.heap && AtMost(Plus(s.used, ONE_OBJECT), r.used)
    decreases t, 3
  {
    if t.Reference? then Spend(Skip(s, 5), ONE_OBJECT)
    else
      var f := Filled(s, t);
      f.(heap := f.heap[|s.heap| := Finished(s, t)])
  }

  /** The same, with the object itself still blank. */
  function Filled(s: State, t: Record): (r: State)
    requires !t.Reference?
    ensures s.heap + [Blank(KindOf(t))] <= r.heap && AtMost(Plus(s.used, ONE_OBJECT), r.used)
    decreases t, 2
  {
    var e := Opened(s, KindOf(t), t.flag);
    match t
    case Leaf(_, k, content) =>
      Spend(Skip(Entered(s, k, t.flag), |ContentBytes(content)|), Usage(0, 0, Charge(content), 0))
    case Container(_, _, items) => AfterAll(e, items)
    case Dictionary(_, items) => Terminated(AfterAll(e, items))
    case Code(_, _, fields, _, table) =>
      var g := After(Skip(AfterAll(e, fields), 4), table);
      Spend(g, Usage(0, 0, 0, BytecodeSize(g.heap, CodeOf(s, t).fields)))
  }

  /** The object that is put in place once its contents are read. */
  function Finished(s: State, t: Record): Object
    requires !t.Reference?
    decreases t, 1
  {
    match t
    case Leaf(_, k, content) =>
      Object(k, TextOf(k, content), TextOffset(k, content, s.position + 1), [], None)
    case Container(_, k, items) => Object(k, [], 0, Values(Opened(s, k, t.flag), items), None)
    case Dictionary(_, items) => Object('{', [], 0, Values(Opened(s, '{', t.flag), items), None)
    case Code(_, _, _, _, _) => Object('c', [], 0, [], Some(CodeOf(s, t)))
  }

  function CodeOf(s: State, t: Record): CodeObject
    requires t.Code?
    decreases t, 0
  {
    var e := Opened(s, 'c', t.flag);
    CodeObject(t.numbers, Values(e, t.fields) + [Value(Skip(AfterAll(e, t.fields), 4), t.lineTable)], t.firstLine)
  }

  function AfterAll(s: State, ts: seq<Record>): (r: State)
    ensures s.heap <= r.heap && AtMost(Plus(s.used, Usage(|ts|, 0, 0, 0)), r.used)
    decreases ts, 4
  {
    if ts == [] then s else After(AfterAll(s, ts[..|ts| - 1]), ts[|ts| - 1])
  }

  function Values(s: State, ts: seq<Record>): (ids: seq<Id>)
    ensures |ids| == |ts|
    decreases ts, 5
  {
    if ts == [] then []
    else Values(s, ts[..|ts| - 1]) + [Value(AfterAll(s, ts[..|ts| - 1]), ts[|ts| - 1])]
  }

  // ---------------------------------------------------------------- code objects

  predicate TextObject(heap: seq<Object>, id: Id) { id < |heap| && IsText(heap[id].kind) }

  predicate TupleObject(heap: seq<Object>, id: Id) { id < |heap| && IsTuple(heap[id].kind) }

  predicate BytesObject(heap: seq<Object>, id: Id) { id < |heap| && heap[id].kind == 's' }

  predicate NameObject(heap: seq<Object>, id: Id) { TextObject(heap, id) && NameBytes(heap[id].bytes) }

  /** pycStringTuple */
  predicate StringTuple(heap: seq<Object>, id: Id) {
    TupleObject(heap, id) && forall i | 0 <= i < |heap[id].items| :: NameObject(heap, heap[id].items[i])
  }

  function RequiredLocals(n: Numbers): int {
    n.args + n.kwOnly + (if n.flags / 4 % 2 == 1 then 1 else 0) + (if n.flags / 8 % 2 == 1 then 1 else 0)
  }

  predicate NumbersOk(n: Numbers, c: Config) {
    && n.posOnly <= n.args <= n.locals && n.stack <= c.maxItems
    && RequiredLocals(n) <= n.locals && RequiredLocals(n) <= c.maxItems
  }

  /** validateCodeObject */
  predicate CodeOk(heap: seq<Object>, code: CodeObject, c: Config) {
    && |code.fields| == 9 && NumbersOk(code.numbers, c)
    && BytesObject(heap, code.fields[0]) && TupleObject(heap, code.fields[1])
    && StringTuple(heap, code.fields[2]) && StringTuple(heap, code.fields[3])
    && StringTuple(heap, code.fields[4]) && StringTuple(heap, code.fields[5])
    && TextObject(heap, code.fields[6]) && TextObject(heap, code.fields[7])
    && BytesObject(heap, code.fields[8])
    && code.numbers.locals == |heap[code.fields[3]].items|
    && RequiredLocals(code.numbers) <= |heap[code.fields[3]].items|
    && NameBytes(heap[code.fields[6]].bytes) && NameBytes(heap[code.fields[7]].bytes)
  }

  // ---------------------------------------------------------------- which records are accepted

  /** Depth, item counts, references and code objects are as the reader demands. */
  predicate Sound(c: Config, s: State, t: Record, depth: int)
    decreases t, 1
  {
    && depth <= c.maxDepth
    && match t
       case Reference(i) => i < |s.references|
       case Leaf(_, _, content) => content.Digits? ==> Abs(content.digits) <= c.maxItems
       case Container(flag, k, items) =>
         |items| <= c.maxItems && AllSound(c, Opened(s, k, flag), items, depth + 1)
       case Dictionary(flag, items) =>
         && |items| / 2 < c.maxItems && depth + 1 <= c.maxDepth
         && AllSound(c, Opened(s, '{', flag), items, depth + 1)
       case Code(flag, _, fields, _, table) =>
         var f := Skip(AfterAll(Opened(s, 'c', flag), fields), 4);
         && AllSound(c, Opened(s, 'c', flag), fields, depth + 1) && Sound(c, f, table, depth + 1)
         && CodeOk(After(f, table).heap, CodeOf(s, t), c)
  }

  predicate AllSound(c: Config, s: State, ts: seq<Record>, depth: int)
    decreases ts, 0
  {
    forall i | 0 <= i < |ts| :: Sound(c, AfterAll(s, ts[..i]), ts[i], depth)
  }

  /** Record `t` is what comes next, it is sound, and it stays within the budgets. */
  predicate Good(payload: Bytes, c: Config, s: State, t: Record, depth: int) {
    && Shaped(t) && Encode(t) <= RestAt(payload, s.position)
    && Sound(c, s, t, depth) && Within(After(s, t).used, c)
  }

  predicate AllGood(payload: Bytes, c: Config, s: State, ts: seq<Record>, depth: int) {
    && AllShaped(ts) && EncodeAll(ts) <= RestAt(payload, s.position)
    && AllSound(c, s, ts, depth) && Within(AfterAll(s, ts).used, c)
  }

  function Start(position: nat): State { State(position, Usage(0, 0, 0, 0), [], []) }

  /** What follows the header is the code record `t` and nothing else. */
  ghost predicate IsMarshal(payload: Bytes, headerSize: nat, c: Config, t: Record) {
    && t.Code? && Shaped(t) && headerSize <= |payload| && payload[headerSize..] == Encode(t)
    && Sound(c, Start(headerSize), t, 1) && Within(After(Start(headerSize), t).used, c)
  }
}
