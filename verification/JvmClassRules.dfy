/** Class files once more, straight from chapter 4 of the Java Virtual Machine Specification:
    which constants, fields, methods and attributes may stand in one, in terms of the
    constants themselves, and how one is written, byte by byte. Nothing here uses the table
    of slots, the conditions or the layout that the parser is proved against; that they agree
    is proved in JvmClassReference. */
module JvmClassRules {
  import opened Counting
  import opened Words
  import opened JvmDescriptors
  import opened JvmClassFormat
  import opened JvmClassLayout
  import Texts
  import ModifiedUtf8

  // ---------------------------------------------------------------- names and descriptors

  /** Bytes of a string in UTF-8. */
  function Size(s: string): nat {
    if s == "" then 0
    else
      var v := s[0] as int;
      (if v <= 0x7F then 1 else if v <= 0x7FF then 2 else if v <= 0xFFFF then 3 else 4) + Size(s[1..])
  }

  predicate Without(s: string, cs: string) { forall i, j | 0 <= i < |s| && 0 <= j < |cs| :: s[i] != cs[j] }

  /** Text of at least one and at most so many bytes, without control characters. */
  predicate Printable(s: string, maximum: nat) {
    0 < Size(s) <= maximum && forall i | 0 <= i < |s| :: 32 <= s[i] as int && s[i] as int != 127
  }

  /** Section 4.2.1: parts between slashes, none empty, none with a period, semicolon or bracket. */
  predicate ClassName(s: string) {
    Printable(s, 2048) && forall p | p in Texts.Parts(s) :: p != "" && Without(p, ".;[")
  }

  /** Section 4.2.2 */
  predicate FieldName(s: string) { Printable(s, 1024) && Without(s, ".;[/<>") }

  predicate MethodName(s: string) {
    Printable(s, 1024) && Without(s, ".;[/") && (Without(s, "<>") || s == "<init>" || s == "<clinit>")
  }

  /** Section 4.3.2: a letter, a class, or an array of at most 255 dimensions. */
  function TypeText(t: FieldType): string {
    match t
    case Primitive(c) => [c]
    case Class(name) => "L" + name + ";"
    case ArrayOf(e) => "[" + TypeText(e)
  }

  predicate IsType(t: FieldType, dimensions: nat) {
    match t
    case Primitive(c) => c == 'B' || c == 'C' || c == 'D' || c == 'F' || c == 'I' || c == 'J' || c == 'S' || c == 'Z'
    case Class(name) => ClassName(name)
    case ArrayOf(e) => dimensions > 0 && IsType(e, dimensions - 1)
  }

  ghost predicate FieldText(s: string) { exists t :: IsType(t, 255) && TypeText(t) == s }

  function TypesText(ts: seq<FieldType>): string {
    if ts == [] then "" else TypeText(ts[0]) + TypesText(ts[1..])
  }

  /** Section 4.3.3: parameters between parentheses, and a result or V. */
  ghost predicate MethodText(s: string) {
    && Size(s) <= 4096
    && exists m: MethodType ::
         && (forall i | 0 <= i < |m.arguments| :: IsType(m.arguments[i], 255))
         && (match m.result
             case None => s == "(" + TypesText(m.arguments) + ")" + "V"
             case Some(t) => IsType(t, 255) && s == "(" + TypesText(m.arguments) + ")" + TypeText(t))
  }

  // ---------------------------------------------------------------- the constant pool

  /** The constant at index `i`: they count from one, and a long or a double takes two places. */
  function Entry(cs: seq<Constant>, i: nat): Option<Constant> {
    if cs == [] || i == 0 then None
    else if i == 1 then Some(cs[0])
    else if cs[0].Fixed? && (cs[0].tag == 5 || cs[0].tag == 6) then (if i == 2 then None else Entry(cs[1..], i - 2))
    else Entry(cs[1..], i - 1)
  }

  /** Places that the constants take. */
  function Places(cs: seq<Constant>): nat {
    if cs == [] then 0
    else (if cs[0].Fixed? && (cs[0].tag == 5 || cs[0].tag == 6) then 2 else 1) + Places(cs[1..])
  }

  function TextOf(cs: seq<Constant>, i: nat): Option<string> {
    match Entry(cs, i)
    case Some(Utf8(text)) => Some(text)
    case _ => None
  }

  predicate IsClass(cs: seq<Constant>, i: nat) { Entry(cs, i).Some? && Entry(cs, i).value.One? && Entry(cs, i).value.tag == 7 }

  function ClassOf(cs: seq<Constant>, i: nat): Option<string> {
    if IsClass(cs, i) then TextOf(cs, Entry(cs, i).value.index) else None
  }

  /** Name and descriptor of a constant of tag 12. */
  function PairOf(cs: seq<Constant>, i: nat): Option<(string, string)> {
    match Entry(cs, i)
    case Some(Two(tag, name, descriptor)) =>
      if tag == 12 && TextOf(cs, name).Some? && TextOf(cs, descriptor).Some?
      then Some((TextOf(cs, name).value, TextOf(cs, descriptor).value)) else None
    case _ => None
  }

  predicate IsReference(cs: seq<Constant>, i: nat, tag: nat) {
    Entry(cs, i).Some? && Entry(cs, i).value.Two? && Entry(cs, i).value.tag == tag
  }

  /** Section 4.4, by tag: Class 7, String 8, Fieldref 9, Methodref 10, InterfaceMethodref 11,
      NameAndType 12, MethodHandle 15, MethodType 16, Dynamic 17, InvokeDynamic 18, Module 19
      and Package 20, with the versions that know them. */
  ghost predicate Meets(cs: seq<Constant>, c: Constant, major: nat) {
    match c
    case Utf8(_) => true
    case Fixed(_, _) => true
    case One(tag, i) =>
      && TextOf(cs, i).Some?
      && var s := TextOf(cs, i).value;
         if tag == 7 then (if s != "" && s[0] == '[' then FieldText(s) else ClassName(s))
         else if tag == 16 then major >= 51 && MethodText(s)
         else if tag == 19 || tag == 20 then major >= 53 && Printable(s, 2048)
         else tag == 8
    case Two(tag, i, j) =>
      if tag == 12 then
        TextOf(cs, i).Some? && TextOf(cs, j).Some? && MethodName(TextOf(cs, i).value) &&
        (FieldText(TextOf(cs, j).value) || MethodText(TextOf(cs, j).value))
      else if PairOf(cs, j).None? then false
      else
        var (name, descriptor) := PairOf(cs, j).value;
        if tag == 9 then IsClass(cs, i) && FieldName(name) && FieldText(descriptor)
        else if tag == 10 then IsClass(cs, i) && MethodName(name) && name != "<clinit>" && MethodText(descriptor)
        else if tag == 11 then
          IsClass(cs, i) && MethodName(name) && name != "<clinit>" && name != "<init>" && MethodText(descriptor)
        else if tag == 17 then major >= 55 && FieldName(name) && FieldText(descriptor)
        else tag == 18 && major >= 51 && FieldName(name) && MethodText(descriptor)
    case Handle(kind, i) =>
      && major >= 51
      && (1 <= kind <= 4 ==> IsReference(cs, i, 9))
      && (kind == 5 || kind == 8 ==> IsReference(cs, i, 10))
      && (kind == 6 || kind == 7 ==> IsReference(cs, i, 10) || IsReference(cs, i, 11))
      && (kind == 9 ==> IsReference(cs, i, 11))
  }

  /** Widths of what a constant holds. */
  predicate Holdable(c: Constant) {
    match c
    case Utf8(text) => |ModifiedUtf8.Encode(text)| <= 65535
    case Fixed(tag, bytes) => ((tag == 3 || tag == 4) && |bytes| == 4) || ((tag == 5 || tag == 6) && |bytes| == 8)
    case One(tag, i) => (tag == 7 || tag == 8 || tag == 16 || tag == 19 || tag == 20) && i <= 65535
    case Two(tag, i, j) => (9 <= tag <= 12 || tag == 17 || tag == 18) && i <= 65535 && j <= 65535
    case Handle(kind, i) => 1 <= kind <= 9 && i <= 65535
  }

  // ---------------------------------------------------------------- attributes, members, the class

  predicate Attributed(cs: seq<Constant>, attributes: seq<Attribute>) {
    && |attributes| <= 65535
    && forall i | 0 <= i < |attributes| ::
         var a := attributes[i];
         a.name <= 65535 && TextOf(cs, a.name).Some? && FieldName(TextOf(cs, a.name).value) && |a.payload| <= 0xFFFF_FFFF
  }

  /** Attribute `i` is called so. */
  predicate Called(cs: seq<Constant>, attributes: seq<Attribute>, i: nat, name: string)
    requires i < |attributes|
  {
    TextOf(cs, attributes[i].name) == Some(name)
  }

  predicate NoneCalled(cs: seq<Constant>, attributes: seq<Attribute>, name: string) {
    forall i | 0 <= i < |attributes| :: !Called(cs, attributes, i, name)
  }

  predicate OnceAtMost(cs: seq<Constant>, attributes: seq<Attribute>, name: string) {
    forall i, j | 0 <= i < j < |attributes| :: !(Called(cs, attributes, i, name) && Called(cs, attributes, j, name))
  }

  /** Section 4.7.3: code of 1 to 65535 bytes, and handlers for ranges in it. */
  predicate CodeObeys(cs: seq<Constant>, c: Code) {
    && c.maxStack <= 65535 && c.maxLocals <= 65535 && 1 <= |c.code| <= 65535 && |c.handlers| <= 65535
    && (forall i | 0 <= i < |c.handlers| ::
          var h := c.handlers[i];
          && h.start < h.end <= |c.code| && h.handler < |c.code|
          && h.catchType <= 65535 && (h.catchType != 0 ==> ClassOf(cs, h.catchType).Some?))
    && Attributed(cs, c.attributes)
  }

  predicate FieldObeys(cs: seq<Constant>, m: Member) {
    && m.access <= 65535 && m.name <= 65535 && m.descriptor <= 65535 && Attributed(cs, m.attributes)
    && TextOf(cs, m.name).Some? && FieldName(TextOf(cs, m.name).value) && TextOf(cs, m.descriptor).Some?
  }

  ghost predicate FieldTyped(cs: seq<Constant>, m: Member) {
    TextOf(cs, m.descriptor).Some? && FieldText(TextOf(cs, m.descriptor).value)
  }

  /** ACC_NATIVE is 0x0100, ACC_ABSTRACT 0x0400. */
  predicate Bodiless(access: nat) { access / 256 % 2 == 1 || access / 1024 % 2 == 1 }

  /** A method has one Code attribute, unless it is abstract or native; then it has none. */
  ghost predicate MethodObeys(cs: seq<Constant>, m: Member) {
    && m.access <= 65535 && m.name <= 65535 && m.descriptor <= 65535 && Attributed(cs, m.attributes)
    && TextOf(cs, m.name).Some? && MethodName(TextOf(cs, m.name).value)
    && TextOf(cs, m.descriptor).Some? && MethodText(TextOf(cs, m.descriptor).value)
    && (TextOf(cs, m.name) == Some("<init>") ==> EndsInV(TextOf(cs, m.descriptor).value))
    && (TextOf(cs, m.name) == Some("<clinit>") ==> TextOf(cs, m.descriptor) == Some("()V"))
    && (if Bodiless(m.access) then NoneCalled(cs, m.attributes, "Code")
        else OnceAtMost(cs, m.attributes, "Code") &&
             exists i, c: Code | 0 <= i < |m.attributes| :: BodyIs(cs, m.attributes, i, c))
  }

  predicate EndsInV(s: string) { |s| >= 2 && s[|s| - 2] == ')' && s[|s| - 1] == 'V' }

  /** Attribute `i` is called Code and holds this code. */
  predicate BodyIs(cs: seq<Constant>, attributes: seq<Attribute>, i: nat, c: Code)
    requires i < |attributes|
  {
    Called(cs, attributes, i, "Code") && CodeObeys(cs, c) && attributes[i].payload == CodeWritten(c)
  }

  /** At most one SourceFile, which names a file. */
  predicate SourceObeys(cs: seq<Constant>, attributes: seq<Attribute>) {
    && OnceAtMost(cs, attributes, "SourceFile")
    && (forall i | 0 <= i < |attributes| && Called(cs, attributes, i, "SourceFile") ::
          SourceOf(cs, attributes[i].payload).Some? && FileName(SourceOf(cs, attributes[i].payload).value))
  }

  function SourceOf(cs: seq<Constant>, payload: Bytes): Option<string> {
    if |payload| != 2 then None
    else
      var high: nat, low: nat := payload[0], payload[1];
      TextOf(cs, high * 256 + low)
  }

  predicate FileName(s: string) { Printable(s, 2048) && s != "." && s != ".." && Without(s, "/\\") }

  predicate NamesAClass(cs: seq<Constant>, i: nat) { i <= 65535 && ClassOf(cs, i).Some? && ClassName(ClassOf(cs, i).value) }

  /** Two methods with one name and descriptor. */
  predicate SameSignature(cs: seq<Constant>, m: Member, n: Member) {
    TextOf(cs, m.name) == TextOf(cs, n.name) && TextOf(cs, m.descriptor) == TextOf(cs, n.descriptor)
  }

  ghost predicate Obeys(c: ClassFile) {
    var cs := c.constants;
    && c.minor <= 65535 && 45 <= c.major <= 1000 && Places(cs) <= 65534
    && (forall i | 0 <= i < |cs| :: Holdable(cs[i]) && Meets(cs, cs[i], c.major))
    && c.access <= 65535 && NamesAClass(cs, c.thisClass)
    && (c.superClass == 0 || NamesAClass(cs, c.superClass))
    && |c.interfaces| <= 65535 && (forall i | 0 <= i < |c.interfaces| :: NamesAClass(cs, c.interfaces[i]))
    && |c.fields| <= 65535 && (forall i | 0 <= i < |c.fields| :: FieldObeys(cs, c.fields[i]) && FieldTyped(cs, c.fields[i]))
    && |c.methods| <= 65535 && (forall i | 0 <= i < |c.methods| :: MethodObeys(cs, c.methods[i]))
    && (forall i, j | 0 <= i < j < |c.methods| :: !SameSignature(cs, c.methods[i], c.methods[j]))
    && Attributed(cs, c.attributes) && SourceObeys(cs, c.attributes)
  }

  // ---------------------------------------------------------------- byte by byte

  /** Two bytes, the high one first. */
  function U2(v: nat): Bytes { [v / 256 % 256, v % 256] }

  function U4(v: nat): Bytes { [v / 0x100_0000 % 256, v / 0x1_0000 % 256, v / 256 % 256, v % 256] }

  function ConstantWritten(c: Constant): Bytes {
    match c
    case Utf8(text) => [1] + U2(|ModifiedUtf8.Encode(text)|) + ModifiedUtf8.Encode(text)
    case Fixed(tag, bytes) => [tag % 256] + bytes
    case One(tag, i) => [tag % 256] + U2(i)
    case Two(tag, i, j) => [tag % 256] + U2(i) + U2(j)
    case Handle(kind, i) => [15, kind % 256] + U2(i)
  }

  function ConstantsWritten(cs: seq<Constant>): Bytes {
    if cs == [] then [] else ConstantWritten(cs[0]) + ConstantsWritten(cs[1..])
  }

  function AttributesWritten(attributes: seq<Attribute>): Bytes {
    if attributes == [] then []
    else
      var a := attributes[0];
      U2(a.name) + U4(|a.payload|) + a.payload + AttributesWritten(attributes[1..])
  }

  function HandlersWritten(handlers: seq<Handler>): Bytes {
    if handlers == [] then []
    else
      var h := handlers[0];
      U2(h.start) + U2(h.end) + U2(h.handler) + U2(h.catchType) + HandlersWritten(handlers[1..])
  }

  function CodeWritten(c: Code): Bytes {
    U2(c.maxStack) + U2(c.maxLocals) + U4(|c.code|) + c.code + U2(|c.handlers|) + HandlersWritten(c.handlers) +
    U2(|c.attributes|) + AttributesWritten(c.attributes)
  }

  function MembersWritten(members: seq<Member>): Bytes {
    if members == [] then []
    else
      var m := members[0];
      U2(m.access) + U2(m.name) + U2(m.descriptor) + U2(|m.attributes|) + AttributesWritten(m.attributes) +
      MembersWritten(members[1..])
  }

  function ShortsWritten(vs: seq<nat>): Bytes { if vs == [] then [] else U2(vs[0]) + ShortsWritten(vs[1..]) }

  /** Section 4.1 */
  function Written(c: ClassFile): Bytes {
    [0xCA, 0xFE, 0xBA, 0xBE] + U2(c.minor) + U2(c.major) + U2(Places(c.constants) + 1) + ConstantsWritten(c.constants) +
    U2(c.access) + U2(c.thisClass) + U2(c.superClass) + U2(|c.interfaces|) + ShortsWritten(c.interfaces) +
    U2(|c.fields|) + MembersWritten(c.fields) + U2(|c.methods|) + MembersWritten(c.methods) +
    U2(|c.attributes|) + AttributesWritten(c.attributes)
  }
}
