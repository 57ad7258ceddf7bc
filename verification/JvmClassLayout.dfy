/** Attributes, code, fields, methods and whole class files (sections 4.1, 4.5 to 4.7 of
    the Java Virtual Machine Specification). */
module JvmClassLayout {
  import opened Counting
  import opened Words
  import opened JvmClassFormat

  // ---------------------------------------------------------------- attributes

  datatype Attribute = Attribute(name: nat, payload: Bytes)

  predicate AttributeOk(slots: seq<Slot>, a: Attribute) {
    && Short(a.name) && TextAt(slots, a.name).Some? && AttributeName(TextAt(slots, a.name).value)
    && |a.payload| < 0x1_0000_0000
  }

  function AttributeBytes(a: Attribute): Bytes {
    BigBytes(a.name, 2) + BigBytes(|a.payload|, 4) + a.payload
  }

  function ParseAttribute(slots: seq<Slot>, b: Bytes): Parsed<Attribute> {
    var (name, r) :- Number(b, 2);
    if TextAt(slots, name).None? || !AttributeName(TextAt(slots, name).value) then Fail
    else
      var (length, s) :- Number(r, 4);
      var (payload, t) :- Take(s, length);
      Got(Attribute(name, payload), t)
  }

  function Attributes(slots: seq<Slot>): Format<Attribute> {
    Format(a => AttributeOk(slots, a), AttributeBytes, b => ParseAttribute(slots, b))
  }

  lemma AttributeBack(slots: seq<Slot>, a: Attribute, rest: Bytes)
    requires AttributeOk(slots, a)
    ensures ParseAttribute(slots, AttributeBytes(a) + rest) == Got(a, rest)
  {
    hide Number, BigBytes, Power256, AttributeName;
    Powers();
    assert AttributeBytes(a) + rest ==
           BigBytes(a.name, 2) + (BigBytes(|a.payload|, 4) + (a.payload + rest));
    ShortBack(a.name, BigBytes(|a.payload|, 4) + (a.payload + rest));
    NumberBack(|a.payload|, 4, a.payload + rest);
    TakeBack(a.payload, rest);
  }

  lemma AttributeForth(slots: seq<Slot>, b: Bytes)
    requires ParseAttribute(slots, b).Got?
    ensures var p := ParseAttribute(slots, b);
      AttributeOk(slots, p.value) && AttributeBytes(p.value) + p.rest == b
  {
    hide BigBytes, Power256, AttributeName;
    Powers();
    ShortForth(b);
    NumberForth(Number(b, 2).rest, 4);
  }

  lemma AttributesExact(slots: seq<Slot>)
    ensures Exact(Attributes(slots))
  {
    hide AttributeBytes, ParseAttribute, AttributeOk;
    var f := Attributes(slots);
    forall x, rest | f.ok(x) ensures f.parse(f.bytes(x) + rest) == Got(x, rest) {
      AttributeBack(slots, x, rest);
    }
    forall b | f.parse(b).Got?
      ensures f.ok(f.parse(b).value) && f.bytes(f.parse(b).value) + f.parse(b).rest == b
    {
      AttributeForth(slots, b);
    }
  }

  // ---------------------------------------------------------------- exception tables

  datatype Handler = Handler(start: nat, end: nat, handler: nat, catchType: nat)

  predicate HandlerOk(slots: seq<Slot>, codeLength: nat, h: Handler) {
    && Short(h.start) && Short(h.end) && Short(h.handler) && Short(h.catchType)
    && h.start < h.end <= codeLength && h.handler < codeLength
    && (h.catchType != 0 ==> ClassNameAt(slots, h.catchType).Some?)
  }

  function HandlerBytes(h: Handler): Bytes {
    BigBytes(h.start, 2) + BigBytes(h.end, 2) + BigBytes(h.handler, 2) + BigBytes(h.catchType, 2)
  }

  function ParseHandler(slots: seq<Slot>, codeLength: nat, b: Bytes): Parsed<Handler> {
    var (start, r) :- Number(b, 2);
    var (end, s) :- Number(r, 2);
    var (handler, t) :- Number(s, 2);
    var (catchType, u) :- Number(t, 2);
    if start >= end || end > codeLength || handler >= codeLength then Fail
    else if catchType != 0 && ClassNameAt(slots, catchType).None? then Fail
    else Got(Handler(start, end, handler, catchType), u)
  }

  function Handlers(slots: seq<Slot>, codeLength: nat): Format<Handler> {
    Format(h => HandlerOk(slots, codeLength, h), HandlerBytes, b => ParseHandler(slots, codeLength, b))
  }

  lemma HandlerBack(slots: seq<Slot>, codeLength: nat, h: Handler, rest: Bytes)
    requires HandlerOk(slots, codeLength, h)
    ensures ParseHandler(slots, codeLength, HandlerBytes(h) + rest) == Got(h, rest)
  {
    hide Number, BigBytes, ClassNameAt;
    var d := BigBytes(h.catchType, 2) + rest;
    var c := BigBytes(h.handler, 2) + d;
    var e := BigBytes(h.end, 2) + c;
    assert HandlerBytes(h) + rest == BigBytes(h.start, 2) + e;
    ShortBack(h.start, e);
    ShortBack(h.end, c);
    ShortBack(h.handler, d);
    ShortBack(h.catchType, rest);
  }

  lemma HandlerForth(slots: seq<Slot>, codeLength: nat, b: Bytes)
    requires ParseHandler(slots, codeLength, b).Got?
    ensures var p := ParseHandler(slots, codeLength, b);
      HandlerOk(slots, codeLength, p.value) && HandlerBytes(p.value) + p.rest == b
  {
    hide Number, BigBytes, ClassNameAt;
    var r := Number(b, 2).rest;
    var s := Number(r, 2).rest;
    ShortForth(b);
    ShortForth(r);
    ShortForth(s);
    ShortForth(Number(s, 2).rest);
  }

  lemma HandlersExact(slots: seq<Slot>, codeLength: nat)
    ensures Exact(Handlers(slots, codeLength))
  {
    hide HandlerBytes, ParseHandler, HandlerOk;
    var f := Handlers(slots, codeLength);
    forall x, rest | f.ok(x) ensures f.parse(f.bytes(x) + rest) == Got(x, rest) {
      HandlerBack(slots, codeLength, x, rest);
    }
    forall b | f.parse(b).Got?
      ensures f.ok(f.parse(b).value) && f.bytes(f.parse(b).value) + f.parse(b).rest == b
    {
      HandlerForth(slots, codeLength, b);
    }
  }

  // ---------------------------------------------------------------- code

  datatype Code = Code(
    maxStack: nat, maxLocals: nat, code: Bytes, handlers: seq<Handler>, attributes: seq<Attribute>)

  predicate CodeOk(slots: seq<Slot>, c: Code) {
    && Short(c.maxStack) && Short(c.maxLocals) && 0 < |c.code| <= 65535
    && CountedOk(Handlers(slots, |c.code|), c.handlers)
    && CountedOk(Attributes(slots), c.attributes)
  }

  function CodeHead(c: Code): Bytes {
    BigBytes(c.maxStack, 2) + BigBytes(c.maxLocals, 2) + BigBytes(|c.code|, 4)
  }

  function CodeBytes(slots: seq<Slot>, c: Code): Bytes {
    CodeHead(c) + c.code + CountedBytes(Handlers(slots, |c.code|), c.handlers) +
    CountedBytes(Attributes(slots), c.attributes)
  }

  function ParseCode(slots: seq<Slot>, b: Bytes): Parsed<Code> {
    var (maxStack, r) :- Number(b, 2);
    var (maxLocals, s) :- Number(r, 2);
    var (length, t) :- Number(s, 4);
    if length == 0 || length > 65535 then Fail
    else
      var (code, u) :- Take(t, length);
      var (handlers, v) :- Counted(Handlers(slots, length), u);
      var (attributes, w) :- Counted(Attributes(slots), v);
      Got(Code(maxStack, maxLocals, code, handlers, attributes), w)
  }

  lemma CodeBack(slots: seq<Slot>, c: Code, rest: Bytes)
    requires CodeOk(slots, c)
    ensures ParseCode(slots, CodeBytes(slots, c) + rest) == Got(c, rest)
  {
    hide Number, BigBytes, Power256, Counted, CountedBytes, Handlers, Attributes, CountedOk, Take, Exact;
    Powers();
    var n := |c.code|;
    var attributes := CountedBytes(Attributes(slots), c.attributes) + rest;
    var handlers := CountedBytes(Handlers(slots, n), c.handlers) + attributes;
    var tail := c.code + handlers;
    assert CodeBytes(slots, c) + rest ==
           BigBytes(c.maxStack, 2) + (BigBytes(c.maxLocals, 2) + (BigBytes(n, 4) + tail));
    ShortBack(c.maxStack, BigBytes(c.maxLocals, 2) + (BigBytes(n, 4) + tail));
    ShortBack(c.maxLocals, BigBytes(n, 4) + tail);
    NumberBack(n, 4, tail);
    TakeBack(c.code, handlers);
    HandlersExact(slots, n);
    CountedBack(Handlers(slots, n), c.handlers, attributes);
    AttributesExact(slots);
    CountedBack(Attributes(slots), c.attributes, rest);
  }

  lemma CodeForth(slots: seq<Slot>, b: Bytes)
    requires ParseCode(slots, b).Got?
    ensures var p := ParseCode(slots, b);
      CodeOk(slots, p.value) && CodeBytes(slots, p.value) + p.rest == b
  {
    hide Number, BigBytes, Power256, Counted, CountedBytes, Handlers, Attributes, CountedOk, Exact;
    Powers();
    ShortForth(b);
    var r := Number(b, 2).rest;
    ShortForth(r);
    var s := Number(r, 2).rest;
    NumberForth(s, 4);
    var length, t := Number(s, 4).value, Number(s, 4).rest;
    var code, u := t[..length], t[length..];
    HandlersExact(slots, length);
    CountedForth(Handlers(slots, length), u);
    AttributesExact(slots);
    CountedForth(Attributes(slots), Counted(Handlers(slots, length), u).rest);
    var c := ParseCode(slots, b).value;
    assert b == BigBytes(c.maxStack, 2) + (BigBytes(c.maxLocals, 2) + (BigBytes(|c.code|, 4) + (c.code + u)));
  }

  // ---------------------------------------------------------------- fields

  datatype Member = Member(access: nat, name: nat, descriptor: nat, attributes: seq<Attribute>)

  predicate MemberShape(slots: seq<Slot>, m: Member) {
    && Short(m.access) && Short(m.name) && Short(m.descriptor)
    && CountedOk(Attributes(slots), m.attributes)
  }

  predicate FieldOk(slots: seq<Slot>, m: Member) {
    && MemberShape(slots, m)
    && TextAt(slots, m.name).Some? && MemberName(TextAt(slots, m.name).value, false)
    && TextAt(slots, m.descriptor).Some? && FieldDescriptor(TextAt(slots, m.descriptor).value)
  }

  function MemberHead(m: Member): Bytes {
    BigBytes(m.access, 2) + BigBytes(m.name, 2) + BigBytes(m.descriptor, 2)
  }

  function MemberBytes(slots: seq<Slot>, m: Member): Bytes {
    MemberHead(m) + CountedBytes(Attributes(slots), m.attributes)
  }

  /** The shape that fields and methods share. */
  function ParseMember(slots: seq<Slot>, b: Bytes): Parsed<Member> {
    var (access, r) :- Number(b, 2);
    var (name, s) :- Number(r, 2);
    var (descriptor, t) :- Number(s, 2);
    var (attributes, u) :- Counted(Attributes(slots), t);
    Got(Member(access, name, descriptor, attributes), u)
  }

  lemma MemberBack(slots: seq<Slot>, m: Member, rest: Bytes)
    requires MemberShape(slots, m)
    ensures ParseMember(slots, MemberBytes(slots, m) + rest) == Got(m, rest)
  {
    hide Number, BigBytes, Counted, CountedBytes, Attributes, CountedOk, Exact;
    var attributes := CountedBytes(Attributes(slots), m.attributes) + rest;
    assert MemberBytes(slots, m) + rest ==
           BigBytes(m.access, 2) + (BigBytes(m.name, 2) + (BigBytes(m.descriptor, 2) + attributes));
    ShortBack(m.access, BigBytes(m.name, 2) + (BigBytes(m.descriptor, 2) + attributes));
    ShortBack(m.name, BigBytes(m.descriptor, 2) + attributes);
    ShortBack(m.descriptor, attributes);
    AttributesExact(slots);
    CountedBack(Attributes(slots), m.attributes, rest);
  }

  lemma MemberForth(slots: seq<Slot>, b: Bytes)
    requires ParseMember(slots, b).Got?
    ensures var p := ParseMember(slots, b);
      MemberShape(slots, p.value) && MemberBytes(slots, p.value) + p.rest == b
  {
    hide Number, BigBytes, Counted, CountedBytes, Attributes, CountedOk, Exact;
    ShortForth(b);
    var r := Number(b, 2).rest;
    ShortForth(r);
    var s := Number(r, 2).rest;
    ShortForth(s);
    AttributesExact(slots);
    CountedForth(Attributes(slots), Number(s, 2).rest);
    var m := ParseMember(slots, b).value;
    assert b == BigBytes(m.access, 2) + (BigBytes(m.name, 2) + (BigBytes(m.descriptor, 2) + Number(s, 2).rest));
  }

  function ParseField(slots: seq<Slot>, b: Bytes): Parsed<Member> {
    var (m, r) :- ParseMember(slots, b);
    if FieldOk(slots, m) then Got(m, r) else Fail
  }

  function Fields(slots: seq<Slot>): Format<Member> {
    Format(m => FieldOk(slots, m), m => MemberBytes(slots, m), b => ParseField(slots, b))
  }

  lemma FieldsExact(slots: seq<Slot>)
    ensures Exact(Fields(slots))
  {
    hide MemberBytes, ParseMember, MemberShape, MemberName, FieldDescriptor;
    var f := Fields(slots);
    forall x, rest | f.ok(x) ensures f.parse(f.bytes(x) + rest) == Got(x, rest) {
      MemberBack(slots, x, rest);
    }
    forall b | f.parse(b).Got?
      ensures f.ok(f.parse(b).value) && f.bytes(f.parse(b).value) + f.parse(b).rest == b
    {
      MemberForth(slots, b);
    }
  }

  // ---------------------------------------------------------------- methods

  /** The payloads of the attributes called Code. */
  function CodePayloads(slots: seq<Slot>, attributes: seq<Attribute>): seq<Bytes> {
    if attributes == [] then []
    else
      var last := attributes[|attributes| - 1];
      CodePayloads(slots, attributes[..|attributes| - 1]) +
      (if TextAt(slots, last.name) == Some("Code") then [last.payload] else [])
  }

  /** accessFlags & (0x0400 | 0x0100) != 0 */
  predicate AbstractOrNative(access: nat) { access / 0x400 % 2 == 1 || access / 0x100 % 2 == 1 }

  /** A payload that is read as code, to the last byte. */
  predicate ParsesAsCode(slots: seq<Slot>, payload: Bytes) {
    ParseCode(slots, payload).Got? && ParseCode(slots, payload).rest == []
  }

  /** A payload in the layout of section 4.7.3: stack and local sizes, the code, its exception
      table and its attributes, and nothing after them. */
  ghost predicate IsCode(slots: seq<Slot>, payload: Bytes) {
    exists c :: CodeOk(slots, c) && CodeBytes(slots, c) == payload
  }

  lemma CodeIff(slots: seq<Slot>, payload: Bytes)
    ensures ParsesAsCode(slots, payload) <==> IsCode(slots, payload)
    ensures ParsesAsCode(slots, payload) ==>
      CodeOk(slots, ParseCode(slots, payload).value) && CodeBytes(slots, ParseCode(slots, payload).value) == payload
  {
    hide ParseCode, CodeOk, CodeBytes;
    if ParsesAsCode(slots, payload) {
      CodeForth(slots, payload);
      var c := ParseCode(slots, payload).value;
      assert CodeBytes(slots, c) + [] == CodeBytes(slots, c);
    }
    if c :| CodeOk(slots, c) && CodeBytes(slots, c) == payload {
      CodeBack(slots, c, []);
      assert CodeBytes(slots, c) + [] == CodeBytes(slots, c);
    }
  }

  predicate MethodHeadOk(slots: seq<Slot>, m: Member) {
    && TextAt(slots, m.name).Some? && TextAt(slots, m.descriptor).Some?
    && var name, descriptor := TextAt(slots, m.name).value, TextAt(slots, m.descriptor).value;
       && MemberName(name, true) && MethodDescriptor(descriptor)
       && (name == "<init>" ==> EndsVoid(descriptor))
       && (name == "<clinit>" ==> descriptor == "()V")
  }

  predicate EndsVoid(s: string) { |s| >= 2 && s[|s| - 2..] == ")V" }

  /** A method has one well-formed Code attribute, or none exactly when it is abstract or
      native. */
  predicate MethodOk(slots: seq<Slot>, m: Member) {
    && MemberShape(slots, m) && MethodHeadOk(slots, m)
    && var codes := CodePayloads(slots, m.attributes);
       && |codes| <= 1 && (forall p | p in codes :: ParsesAsCode(slots, p))
       && (AbstractOrNative(m.access) <==> codes == [])
  }

  function ParseMethod(slots: seq<Slot>, b: Bytes): Parsed<Member> {
    var (m, r) :- ParseMember(slots, b);
    if MethodOk(slots, m) then Got(m, r) else Fail
  }

  function Methods(slots: seq<Slot>): Format<Member> {
    Format(m => MethodOk(slots, m), m => MemberBytes(slots, m), b => ParseMethod(slots, b))
  }

  lemma MethodsExact(slots: seq<Slot>)
    ensures Exact(Methods(slots))
  {
    hide MemberBytes, ParseMember, MemberShape, MethodHeadOk, ParsesAsCode, CodePayloads;
    var f := Methods(slots);
    forall x, rest | f.ok(x) ensures f.parse(f.bytes(x) + rest) == Got(x, rest) {
      MemberBack(slots, x, rest);
    }
    forall b | f.parse(b).Got?
      ensures f.ok(f.parse(b).value) && f.bytes(f.parse(b).value) + f.parse(b).rest == b
    {
      MemberForth(slots, b);
    }
  }

  // ---------------------------------------------------------------- class files

  datatype ClassFile = ClassFile(
    minor: nat, major: nat, constants: seq<Constant>, access: nat, thisClass: nat,
    superClass: nat, interfaces: seq<nat>, fields: seq<Member>, methods: seq<Member>,
    attributes: seq<Attribute>)

  function Interfaces(slots: seq<Slot>): Format<nat> {
    Format((i: nat) => Short(i) && NamesClass(slots, i), (i: nat) => BigBytes(i, 2),
           b => ParseInterface(slots, b))
  }

  function ParseInterface(slots: seq<Slot>, b: Bytes): Parsed<nat> {
    var (i, r) :- Number(b, 2);
    if NamesClass(slots, i) then Got(i, r) else Fail
  }

  lemma InterfacesExact(slots: seq<Slot>)
    ensures Exact(Interfaces(slots))
  {
    hide Number, BigBytes, NamesClass;
    var f := Interfaces(slots);
    forall x: nat, rest | f.ok(x) ensures f.parse(f.bytes(x) + rest) == Got(x, rest) {
      ShortBack(x, rest);
    }
    forall b | f.parse(b).Got?
      ensures f.ok(f.parse(b).value) && f.bytes(f.parse(b).value) + f.parse(b).rest == b
    {
      ShortForth(b);
    }
  }

  /** The source files that the attributes of a class name. */
  function SourcePayloads(slots: seq<Slot>, attributes: seq<Attribute>): seq<Bytes> {
    if attributes == [] then []
    else
      var last := attributes[|attributes| - 1];
      SourcePayloads(slots, attributes[..|attributes| - 1]) +
      (if TextAt(slots, last.name) == Some("SourceFile") then [last.payload] else [])
  }

  predicate SourceOk(slots: seq<Slot>, payload: Bytes) {
    |payload| == 2 && TextAt(slots, Big(payload)).Some? && SourceName(TextAt(slots, Big(payload)).value)
  }

  predicate SourcesOk(slots: seq<Slot>, attributes: seq<Attribute>) {
    var sources := SourcePayloads(slots, attributes);
    |sources| <= 1 && forall p | p in sources :: SourceOk(slots, p)
  }

  /** No two methods have the same name and descriptor. */
  predicate SignaturesDistinct(slots: seq<Slot>, methods: seq<Member>) {
    forall i, j | 0 <= i < j < |methods| ::
      !(TextAt(slots, methods[i].name) == TextAt(slots, methods[j].name) &&
        TextAt(slots, methods[i].descriptor) == TextAt(slots, methods[j].descriptor))
  }

  predicate ClassOk(c: ClassFile) {
    var slots := Table(c.constants);
    && Short(c.minor) && 45 <= c.major <= 1000
    && AllOk(c.constants) && SpanOf(c.constants) < 0xFFFF && PoolOk(slots, c.major)
    && Short(c.access) && Short(c.thisClass) && NamesClass(slots, c.thisClass)
    && Short(c.superClass) && (c.superClass != 0 ==> NamesClass(slots, c.superClass))
    && CountedOk(Interfaces(slots), c.interfaces)
    && CountedOk(Fields(slots), c.fields)
    && CountedOk(Methods(slots), c.methods) && SignaturesDistinct(slots, c.methods)
    && CountedOk(Attributes(slots), c.attributes) && SourcesOk(slots, c.attributes)
  }

  /** A method of a well-formed class file: as above, in terms of the layout of its code. */
  ghost predicate MethodLaidOut(slots: seq<Slot>, m: Member) {
    && MemberShape(slots, m) && MethodHeadOk(slots, m)
    && var codes := CodePayloads(slots, m.attributes);
       && |codes| <= 1 && (forall p | p in codes :: IsCode(slots, p))
       && (AbstractOrNative(m.access) <==> codes == [])
  }

  lemma MethodOkIff(slots: seq<Slot>, m: Member)
    ensures MethodOk(slots, m) <==> MethodLaidOut(slots, m)
  {
    hide MemberShape, MethodHeadOk, IsCode, ParsesAsCode, CodePayloads;
    forall p | p in CodePayloads(slots, m.attributes) ensures ParsesAsCode(slots, p) <==> IsCode(slots, p) {
      CodeIff(slots, p);
    }
  }

  /** What the Java Virtual Machine Specification asks of a class file, as far as the parser
      looks, down to the exception tables of its methods: nothing here speaks of parsing. */
  ghost predicate WellFormedClass(c: ClassFile) {
    var slots := Table(c.constants);
    && Short(c.minor) && 45 <= c.major <= 1000
    && AllOk(c.constants) && SpanOf(c.constants) < 0xFFFF && PoolOk(slots, c.major)
    && Short(c.access) && Short(c.thisClass) && NamesClass(slots, c.thisClass)
    && Short(c.superClass) && (c.superClass != 0 ==> NamesClass(slots, c.superClass))
    && |c.interfaces| < 0x1_0000 && (forall i | i in c.interfaces :: Short(i) && NamesClass(slots, i))
    && |c.fields| < 0x1_0000 && (forall m | m in c.fields :: FieldOk(slots, m))
    && |c.methods| < 0x1_0000 && (forall m | m in c.methods :: MethodLaidOut(slots, m))
    && SignaturesDistinct(slots, c.methods)
    && |c.attributes| < 0x1_0000 && (forall a | a in c.attributes :: AttributeOk(slots, a))
    && SourcesOk(slots, c.attributes)
  }

  lemma ClassFileIff(c: ClassFile)
    ensures WellFormedClass(c) <==> ClassOk(c)
  {
    hide MethodOk, MethodLaidOut, FieldOk, AttributeOk, NamesClass, SourcesOk, SignaturesDistinct, PoolOk,
         SpanOf, AllOk, Table;
    var slots := Table(c.constants);
    forall m | m in c.methods ensures MethodOk(slots, m) <==> MethodLaidOut(slots, m) {
      MethodOkIff(slots, m);
    }
  }

  function PoolBytes(c: ClassFile): Bytes
    requires AllOk(c.constants)
  {
    BigBytes(0xCAFEBABE, 4) + BigBytes(c.minor, 2) + BigBytes(c.major, 2) +
    BigBytes(SpanOf(c.constants) + 1, 2) + ConstantsBytes(c.constants)
  }

  function BodyOf(slots: seq<Slot>, c: ClassFile): Bytes {
    BigBytes(c.access, 2) + BigBytes(c.thisClass, 2) + BigBytes(c.superClass, 2) +
    CountedBytes(Interfaces(slots), c.interfaces) + CountedBytes(Fields(slots), c.fields) +
    CountedBytes(Methods(slots), c.methods) + CountedBytes(Attributes(slots), c.attributes)
  }

  /** The bytes of a class file. */
  function Serialize(c: ClassFile): Bytes
    requires AllOk(c.constants)
  {
    PoolBytes(c) + BodyOf(Table(c.constants), c)
  }

  /** What comes before the body, with the body left out. */
  function ParsePool(b: Bytes): Parsed<(nat, nat, seq<Constant>)> {
    var (magic, r) :- Number(b, 4);
    if magic != 0xCAFEBABE then Fail
    else
      var (minor, s) :- Number(r, 2);
      var (major, t) :- Number(s, 2);
      if !(45 <= major <= 1000) then Fail
      else
        var (count, u) :- Number(t, 2);
        if count == 0 then Fail
        else
          var (constants, v) :- ParseConstants(u, count - 1);
          if PoolOk(Table(constants), major) then Got((minor, major, constants), v) else Fail
  }

  /** The body, with a place for what came before. */
  function ParseBodyOf(slots: seq<Slot>, b: Bytes, head: (nat, nat, seq<Constant>)): Parsed<ClassFile> {
    var (access, r) :- Number(b, 2);
    var (thisClass, s) :- Number(r, 2);
    var (superClass, t) :- Number(s, 2);
    if !NamesClass(slots, thisClass) || (superClass != 0 && !NamesClass(slots, superClass)) then Fail
    else
      var (interfaces, u) :- Counted(Interfaces(slots), t);
      var (fields, v) :- Counted(Fields(slots), u);
      var (methods, w) :- Counted(Methods(slots), v);
      if !SignaturesDistinct(slots, methods) then Fail
      else
        var (attributes, x) :- Counted(Attributes(slots), w);
        if !SourcesOk(slots, attributes) then Fail
        else Got(ClassFile(head.0, head.1, head.2, access, thisClass, superClass, interfaces, fields,
                           methods, attributes), x)
  }

  /** parseJVMClass: a whole class file and nothing after it. */
  function ParseClass(b: Bytes): Option<ClassFile> {
    match ParsePool(b)
    case Fail => None
    case Got(head, r) =>
      match ParseBodyOf(Table(head.2), r, head)
      case Fail => None
      case Got(c, rest) => if rest == [] then Some(c) else None
  }

  lemma PoolBack(c: ClassFile, rest: Bytes)
    requires ClassOk(c)
    ensures ParsePool(PoolBytes(c) + rest) == Got((c.minor, c.major, c.constants), rest)
  {
    hide Number, BigBytes, Power256, ConstantsBytes, ParseConstants, PoolOk, Table, CountedOk,
         NamesClass, SourcesOk, SignaturesDistinct, SpanOf;
    Powers();
    var n := SpanOf(c.constants) + 1;
    var constants := ConstantsBytes(c.constants) + rest;
    assert PoolBytes(c) + rest ==
      BigBytes(0xCAFEBABE, 4) +
      (BigBytes(c.minor, 2) + (BigBytes(c.major, 2) + (BigBytes(n, 2) + constants)));
    NumberBack(0xCAFEBABE, 4, BigBytes(c.minor, 2) + (BigBytes(c.major, 2) + (BigBytes(n, 2) + constants)));
    ShortBack(c.minor, BigBytes(c.major, 2) + (BigBytes(n, 2) + constants));
    ShortBack(c.major, BigBytes(n, 2) + constants);
    ShortBack(n, constants);
    ConstantsBack(c.constants, rest);
  }

  lemma PoolForth(b: Bytes)
    requires ParsePool(b).Got?
    ensures var (minor, major, constants) := ParsePool(b).value;
      && Short(minor) && 45 <= major <= 1000 && AllOk(constants) && SpanOf(constants) < 0xFFFF
      && PoolOk(Table(constants), major)
      && b == BigBytes(0xCAFEBABE, 4) + BigBytes(minor, 2) + BigBytes(major, 2) +
              BigBytes(SpanOf(constants) + 1, 2) + ConstantsBytes(constants) + ParsePool(b).rest
  {
    hide Number, BigBytes, Power256, ConstantsBytes, ParseConstants, PoolOk, Table, SpanOf, AllOk;
    Powers();
    NumberForth(b, 4);
    var r := Number(b, 4).rest;
    ShortForth(r);
    var s := Number(r, 2).rest;
    ShortForth(s);
    var t := Number(s, 2).rest;
    ShortForth(t);
    ConstantsForth(Number(t, 2).rest, Number(t, 2).value - 1);
  }

  lemma BodyOfBack(slots: seq<Slot>, c: ClassFile, rest: Bytes)
    requires slots == Table(c.constants) && ClassOk(c)
    ensures ParseBodyOf(slots, BodyOf(slots, c) + rest, (c.minor, c.major, c.constants)) == Got(c, rest)
  {
    hide Number, BigBytes, Counted, CountedBytes, CountedOk, Interfaces, Fields, Methods, Attributes,
         Exact, NamesClass, SourcesOk, SignaturesDistinct, PoolOk, SpanOf, AllOk, Table;
    var attributes := CountedBytes(Attributes(slots), c.attributes) + rest;
    var methods := CountedBytes(Methods(slots), c.methods) + attributes;
    var fields := CountedBytes(Fields(slots), c.fields) + methods;
    var interfaces := CountedBytes(Interfaces(slots), c.interfaces) + fields;
    assert BodyOf(slots, c) + rest ==
      BigBytes(c.access, 2) + (BigBytes(c.thisClass, 2) + (BigBytes(c.superClass, 2) + interfaces));
    ShortBack(c.access, BigBytes(c.thisClass, 2) + (BigBytes(c.superClass, 2) + interfaces));
    ShortBack(c.thisClass, BigBytes(c.superClass, 2) + interfaces);
    ShortBack(c.superClass, interfaces);
    InterfacesExact(slots);
    CountedBack(Interfaces(slots), c.interfaces, fields);
    FieldsExact(slots);
    CountedBack(Fields(slots), c.fields, methods);
    MethodsExact(slots);
    CountedBack(Methods(slots), c.methods, attributes);
    AttributesExact(slots);
    CountedBack(Attributes(slots), c.attributes, rest);
  }

  /** What a parsed body satisfies. */
  predicate BodyOk(slots: seq<Slot>, c: ClassFile) {
    && Short(c.access) && Short(c.thisClass) && NamesClass(slots, c.thisClass)
    && Short(c.superClass) && (c.superClass != 0 ==> NamesClass(slots, c.superClass))
    && CountedOk(Interfaces(slots), c.interfaces)
    && CountedOk(Fields(slots), c.fields)
    && CountedOk(Methods(slots), c.methods) && SignaturesDistinct(slots, c.methods)
    && CountedOk(Attributes(slots), c.attributes) && SourcesOk(slots, c.attributes)
  }

  lemma BodyOfForth(slots: seq<Slot>, b: Bytes, head: (nat, nat, seq<Constant>))
    requires ParseBodyOf(slots, b, head).Got?
    ensures var p := ParseBodyOf(slots, b, head);
      && (p.value.minor, p.value.major, p.value.constants) == head
      && BodyOk(slots, p.value) && BodyOf(slots, p.value) + p.rest == b
  {
    hide Number, BigBytes, Counted, CountedBytes, CountedOk, Interfaces, Fields, Methods, Attributes,
         Exact, NamesClass, SourcesOk, SignaturesDistinct;
    ShortForth(b);
    var r := Number(b, 2).rest;
    ShortForth(r);
    var s := Number(r, 2).rest;
    ShortForth(s);
    var t := Number(s, 2).rest;
    InterfacesExact(slots);
    CountedForth(Interfaces(slots), t);
    var u := Counted(Interfaces(slots), t).rest;
    FieldsExact(slots);
    CountedForth(Fields(slots), u);
    var v := Counted(Fields(slots), u).rest;
    MethodsExact(slots);
    CountedForth(Methods(slots), v);
    AttributesExact(slots);
    CountedForth(Attributes(slots), Counted(Methods(slots), v).rest);
  }

  /** Serialising a well-formed class file and parsing it gives it back. */
  lemma ParseSerialize(c: ClassFile)
    requires WellFormedClass(c)
    ensures ParseClass(Serialize(c)) == Some(c)
  {
    hide ParsePool, ParseBodyOf, PoolBytes, BodyOf, Table, WellFormedClass;
    ClassFileIff(c);
    PoolBack(c, BodyOf(Table(c.constants), c));
    BodyOfBack(Table(c.constants), c, []);
    assert BodyOf(Table(c.constants), c) + [] == BodyOf(Table(c.constants), c);
  }

  /** Whatever is accepted is the serialisation of a well-formed class file, to the last
      byte. */
  lemma SerializeParse(b: Bytes)
    requires ParseClass(b).Some?
    ensures WellFormedClass(ParseClass(b).value) && Serialize(ParseClass(b).value) == b
  {
    hide ParsePool, ParseBodyOf, BodyOf, Table, PoolOk, SpanOf, AllOk, BigBytes, CountedOk, Interfaces, Fields,
         Methods, Attributes, NamesClass, SourcesOk, SignaturesDistinct, ConstantsBytes, WellFormedClass;
    PoolForth(b);
    var head, r := ParsePool(b).value, ParsePool(b).rest;
    BodyOfForth(Table(head.2), r, head);
    var c := ParseClass(b).value;
    ClassFileIff(c);
    assert BodyOf(Table(head.2), c) + [] == BodyOf(Table(head.2), c);
    assert PoolBytes(c) + r == b;
  }
}
