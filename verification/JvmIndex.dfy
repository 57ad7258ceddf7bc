/** What the fallback engine makes of one class: its keys, its entry in the result, the
    error or the index artifact that goes with it. */
module JvmIndex {
  import opened Counting
  import opened Words
  import opened JvmDescriptors
  import opened Texts
  import opened JvmClassFormat
  import opened JvmClassLayout
  import opened JvmClassParser
  import opened BytecodeContract
  import Entries = JvmArchiveEntries
  import opened JvmArchiveWalk

  // ---------------------------------------------------------------- parsed names

  lemma {:induction false} PlainIsText(s: string, maximum: nat, more: nat)
    requires PlainText(s, maximum) && maximum <= more
    ensures ValidText(s, more)
  {}

  lemma {:induction false} PrintedIsText(t: FieldType)
    requires WellFormed(t)
    ensures '\0' !in Print(t)
  {
    match t
    case Primitive(c) =>
    case Class(name) =>
      assert '\0' !in name;
    case ArrayOf(e) => PrintedIsText(e);
  }

  lemma {:induction false} PrintedAllIsText(ts: seq<FieldType>)
    requires forall i | 0 <= i < |ts| :: Proper(ts[i])
    ensures '\0' !in PrintAll(ts)
  {
    if ts != [] {
      PrintedIsText(ts[0]);
      PrintedAllIsText(ts[1..]);
    }
  }

  /** An accepted method descriptor is text: its names are, and its letters are. */
  lemma {:induction false} DescriptorIsText(s: string)
    requires MethodDescriptor(s)
    ensures ValidText(s, 4096)
  {
    hide Print, PrintAll;
    MethodPrintParses(s);
    var m := MethodTree(s);
    PrintedAllIsText(m.arguments);
    if m.result.Some? { PrintedIsText(m.result.value); }
  }

  lemma {:induction false} DottedLength(s: string)
    ensures Length(Dotted(s)) == Length(s)
  {
    if s != "" {
      assert Dotted(s)[..|s| - 1] == Dotted(s[..|s| - 1]);
      DottedLength(s[..|s| - 1]);
    }
  }

  lemma {:induction false} DottedIsText(s: string)
    requires PlainText(s, 2048)
    ensures ValidText(Dotted(s), 2048)
  {
    DottedLength(s);
  }

  lemma {:induction false} OnePart(s: string)
    requires '/' !in s
    ensures Parts(s) == [s]
  {
    if s != "" {
      var front := s[..|s| - 1];
      OnePart(front);
      assert s == front + [s[|s| - 1]] && Parts(s) == [front][0 := front + [s[|s| - 1]]];
    }
  }

  lemma {:induction false} SourceIsPath(s: string)
    requires SourceName(s)
    ensures RelativePath(s)
  {
    OnePart(s);
    assert '/' in "/\\" && '\\' in "/\\";
  }

  /** No two methods have one signature. */
  predicate SignaturesApart(ms: seq<ParsedMethod>) {
    forall i, j | 0 <= i < j < |ms| :: !(ms[i].name == ms[j].name && ms[i].descriptor == ms[j].descriptor)
  }

  predicate MethodFits(m: ParsedMethod) {
    && ValidText(m.name, 1024) && ValidText(m.descriptor, 4096)
    && (m.code.Some? ==> m.code.value.bytes != [])
  }

  /** What the result contract asks of a parsed class. */
  predicate Fits(r: ParsedClass) {
    && ValidText(r.binaryName, 2048) && (r.sourceFile != "" ==> RelativePath(r.sourceFile))
    && (forall i | 0 <= i < |r.methods| :: MethodFits(r.methods[i])) && SignaturesApart(r.methods)
  }

  lemma {:induction false} ReportedFits(slots: seq<Slot>, m: Member, r: ParsedMethod, file: Bytes)
    requires Reported(slots, m, r) && MethodHeadOk(slots, m) && InRange(file, 0, |file|, r)
    ensures MethodFits(r)
  {
    hide MethodDescriptor;
    PlainIsText(r.name, 1024, 1024);
    DescriptorIsText(r.descriptor);
  }

  lemma {:induction false} ReportedApart(slots: seq<Slot>, ms: seq<Member>, rs: seq<ParsedMethod>)
    requires |ms| == |rs| && forall i | 0 <= i < |rs| :: Reported(slots, ms[i], rs[i])
    requires SignaturesDistinct(slots, ms)
    ensures SignaturesApart(rs)
  {
    forall i, j | 0 <= i < j < |rs| ensures !(rs[i].name == rs[j].name && rs[i].descriptor == rs[j].descriptor) {
      assert Reported(slots, ms[i], rs[i]) && Reported(slots, ms[j], rs[j]);
    }
  }

  /** Whatever the class-file parser accepts fits the contract. */
  lemma {:induction false} ParsedFits(payload: Bytes, r: ParsedClass)
    requires ParseClass(payload).Some? && ClassReported(payload, ParseClass(payload).value, r)
    ensures Fits(r)
  {
    hide ParseClass, Serialize, Table, MethodFits, Reported, InRange, Methods, Fields, Interfaces, Attributes,
         PoolOk, AllOk, SpanOf, SignaturesDistinct, SourceOk, MethodHeadOk;
    SerializeParse(payload);
    ClassFileIff(ParseClass(payload).value);
    var c := ParseClass(payload).value;
    var slots := Table(c.constants);
    DottedIsText(ClassNameAt(slots, c.thisClass).value);
    MethodsOk(c);
    forall i | 0 <= i < |r.methods| ensures MethodFits(r.methods[i]) {
      ReportedFits(slots, c.methods[i], r.methods[i], payload);
    }
    ReportedApart(slots, c.methods, r.methods);
    var seen :| SourceReported(slots, c.attributes, r.sourceFile, seen);
    if seen { SourceFits(slots, c.attributes, r.sourceFile); }
  }

  lemma {:induction false} SourceFits(slots: seq<Slot>, attributes: seq<Attribute>, source: string)
    requires SourceReported(slots, attributes, source, true)
    ensures RelativePath(source)
  {
    SourceIsPath(source);
  }

  lemma {:induction false} MethodsOk(c: ClassFile)
    requires ClassOk(c)
    ensures forall i | 0 <= i < |c.methods| :: MethodHeadOk(Table(c.constants), c.methods[i])
    ensures SignaturesDistinct(Table(c.constants), c.methods)
  {
    hide Table, SignaturesDistinct, MethodHeadOk, MemberShape, PoolOk;
  }

  // ---------------------------------------------------------------- keys

  /** The class record that is written to an index file. */
  datatype IndexRecord = IndexRecord(classKey: string, entryPath: string, release: nat, parsed: ParsedClass)

  /** What the engine uses but does not define: SHA-256 in hexadecimal, the JSON of a
      record, the message of the parser for bytes it refuses, and the name of the temporary
      directory in the workspace. */
  datatype Tools = Tools(
    sha: string -> string, encode: IndexRecord -> string, describe: Bytes -> string, directory: string)

  ghost predicate Fitting(t: Tools) {
    && (forall s :: Digest(t.sha(s)))
    && (forall r :: t.encode(r) != "")
    && (forall q, r :: t.encode(q) == t.encode(r) ==> q.classKey == r.classKey)
    && ProperPart(t.directory) && '/' !in t.directory && '\\' !in t.directory
  }

  datatype Request = Request(format: string, input: string, limits: Limits)

  /** jvmStableKey */
  function StableKey(t: Tools, prefix: string, parts: seq<string>): string {
    prefix + ":" + t.sha(Prefixed(parts))
  }

  lemma {:induction false} KeyIsIdentifier(t: Tools, prefix: string, parts: seq<string>)
    requires Fitting(t) && prefix in ["class", "module", "method"]
    ensures Identifier(StableKey(t, prefix, parts))
  {
    var key, digest := StableKey(t, prefix, parts), t.sha(Prefixed(parts));
    assert Digest(digest);
    forall i | 0 <= i < |key| ensures Alphanumeric(key[i]) || key[i] in "._:/@+-$" {
      if i < |prefix| {
        assert key[i] == prefix[i];
      } else if i == |prefix| {
        assert key[i] == ':' && ':' in "._:/@+-$";
      } else {
        assert key[i] == digest[i - |prefix| - 1];
      }
    }
    assert key[0] == prefix[0];
  }

  /** One thing that is listed: a nested archive that failed, a candidate that could not be
      read or parsed, or a parsed candidate. */
  datatype Unit =
    | Lost(failure: Failure)
    | Refused(candidate: Candidate, code: string, message: string)
    | Indexed(candidate: Candidate, parsed: ParsedClass)

  function KeyPrefix(u: Unit): string { if u.Lost? then "module" else "class" }

  /** What the key of a unit is hashed from. */
  function KeyParts(req: Request, u: Unit): seq<string> {
    match u
    case Lost(f) => [req.format, f.identity, req.input]
    case Refused(c, _, _) => [req.format, c.identity, req.input]
    case Indexed(c, parsed) => [req.format, c.identity, parsed.binaryName]
  }

  function KeyOf(t: Tools, req: Request, u: Unit): string { StableKey(t, KeyPrefix(u), KeyParts(req, u)) }

  function MethodParts(t: Tools, req: Request, u: Unit, m: ParsedMethod): seq<string> {
    [KeyOf(t, req, u), m.name, m.descriptor]
  }

  function Record(t: Tools, req: Request, u: Unit): IndexRecord
    requires u.Indexed?
  {
    IndexRecord(KeyOf(t, req, u), u.candidate.entryPath, u.candidate.release, u.parsed)
  }

  /** The strings that are hashed on behalf of one unit. */
  ghost predicate Hashes(t: Tools, req: Request, u: Unit, x: string) {
    || x == Prefixed(KeyParts(req, u))
    || (u.Indexed? &&
        (x == t.encode(Record(t, req, u)) || exists m | m in u.parsed.methods :: x == Prefixed(MethodParts(t, req, u, m))))
  }

  /** No two of the strings hashed in a run have one hash. */
  ghost predicate CollisionFree(t: Tools, req: Request, us: seq<Unit>) {
    forall u, v, x, y | u in us && v in us && Hashes(t, req, u, x) && Hashes(t, req, v, y) && t.sha(x) == t.sha(y) :: x == y
  }

  /** No two units have one identity under one prefix. */
  predicate Apart(us: seq<Unit>) {
    forall i, j | 0 <= i < j < |us| ::
      !(KeyPrefix(us[i]) == KeyPrefix(us[j]) && Identity(us[i]) == Identity(us[j]))
  }

  function Identity(u: Unit): string { if u.Lost? then u.failure.identity else u.candidate.identity }

  lemma {:induction false} PartsTell(req: Request, u: Unit, v: Unit)
    requires KeyParts(req, u) == KeyParts(req, v)
    ensures Identity(u) == Identity(v)
  {
    assert KeyParts(req, u)[1] == Identity(u) && KeyParts(req, v)[1] == Identity(v);
  }

  /** Keys tell units apart. */
  lemma {:induction false} KeysApart(t: Tools, req: Request, us: seq<Unit>, i: nat, j: nat)
    requires i < |us| && j < |us| && Apart(us) && CollisionFree(t, req, us)
    requires KeyOf(t, req, us[i]) == KeyOf(t, req, us[j])
    ensures i == j
  {
    var u, v := us[i], us[j];
    var p, q := KeyPrefix(u), KeyPrefix(v);
    var k := KeyOf(t, req, u);
    assert k[0] == p[0] == q[0];
    assert p == q;
    assert k[|p| + 1..] == t.sha(Prefixed(KeyParts(req, u)));
    assert k[|p| + 1..] == t.sha(Prefixed(KeyParts(req, v)));
    assert Hashes(t, req, u, Prefixed(KeyParts(req, u))) && Hashes(t, req, v, Prefixed(KeyParts(req, v)));
    PrefixedInjective(KeyParts(req, u), KeyParts(req, v));
    PartsTell(req, u, v);
  }

  // ---------------------------------------------------------------- classes

  function TrimPrefix(s: string, p: string): string { if Entries.HasPrefix(s, p) then s[|p|..] else s }

  function TrimSuffix(s: string, p: string): string { if Entries.HasSuffix(s, p) then s[..|s| - |p|] else s }

  /** fallbackJVMBinaryName */
  function FallbackName(logicalPath: string, key: string): string {
    var name := TrimSuffix(logicalPath, ".class");
    var bare := Dotted(TrimPrefix(TrimPrefix(name, "WEB-INF/classes/"), "BOOT-INF/classes/"));
    if PlainText(bare, 2048) then bare
    else
      var digest := TrimPrefix(key, "class:");
      "unresolved." + (if |digest| > 16 then digest[..16] else digest)
  }

  function ArchiveName(entryPath: string, key: string): string {
    if PlainText(entryPath, 2048) then entryPath
    else
      var digest := TrimPrefix(key, "module:");
      "nested archive " + (if |digest| > 16 then digest[..16] else digest)
  }

  const LANGUAGE := "java-bytecode"

  /** buildJVMClassIndex, one method. */
  function MethodEntry(t: Tools, req: Request, u: Unit, m: ParsedMethod): MethodIndex
    requires u.Indexed?
  {
    MethodIndex(StableKey(t, "method", MethodParts(t, req, u, m)), m.name, u.parsed.binaryName + "." + m.name, m.descriptor,
                "", None,
                if m.code.Some? then Some(BytecodeRange(m.code.value.offset, |m.code.value.bytes|)) else None)
  }

  function MethodEntries(t: Tools, req: Request, u: Unit, ms: seq<ParsedMethod>): seq<MethodIndex>
    requires u.Indexed?
  {
    seq(|ms|, i requires 0 <= i < |ms| => MethodEntry(t, req, u, ms[i]))
  }

  function ArtifactID(t: Tools, req: Request, u: Unit): string
    requires u.Indexed?
  {
    "jvm-index-" + t.sha(t.encode(Record(t, req, u)))
  }

  /** The class a unit is listed as. */
  function ClassFor(t: Tools, req: Request, u: Unit): ClassIndex {
    var key := KeyOf(t, req, u);
    match u
    case Lost(f) =>
      var name := ArchiveName(f.entryPath, key);
      ClassIndex(key, KindModule, name, name, "", LANGUAGE, ClassFailed, [], [])
    case Refused(c, _, _) =>
      var name := FallbackName(c.logicalPath, key);
      ClassIndex(key, KindClass, name, name, "", LANGUAGE, ClassFailed, [], [])
    case Indexed(c, parsed) =>
      ClassIndex(key, KindClass, parsed.binaryName, parsed.binaryName, parsed.sourceFile, LANGUAGE, ClassBytecodeOnly,
                 [ArtifactID(t, req, u)], MethodEntries(t, req, u, parsed.methods))
  }

  lemma {:induction false} MethodEntryShape(t: Tools, req: Request, u: Unit, m: ParsedMethod)
    requires Fitting(t) && u.Indexed? && Fits(u.parsed) && MethodFits(m)
    ensures MethodShape(MethodEntry(t, req, u, m))
  {
    hide Fitting, Identifier, RelativePath;
    KeyIsIdentifier(t, "method", MethodParts(t, req, u, m));
    var bin := u.parsed.binaryName;
    LengthJoins(bin, ".");
    LengthJoins(bin + ".", m.name);
    LengthOfAscii(".");
    assert '\0' !in bin + "." + m.name;
  }

  lemma {:induction false} IndexIDIsIdentifier(t: Tools, req: Request, u: Unit)
    requires Fitting(t) && u.Indexed?
    ensures Identifier(ArtifactID(t, req, u))
  {
    var id, digest := ArtifactID(t, req, u), t.sha(t.encode(Record(t, req, u)));
    assert Digest(digest);
    assert '-' in "._:/@+-$";
    forall i | 0 <= i < |id| ensures Alphanumeric(id[i]) || id[i] in "._:/@+-$" {
      if i < 10 {
        assert id[i] == "jvm-index-"[i];
      } else {
        assert id[i] == digest[i - 10];
      }
    }
    assert id[0] == "jvm-index-"[0];
  }

  lemma {:induction false} LanguageIsText()
    ensures ValidText(LANGUAGE, 64)
  {
    LengthOfAscii(LANGUAGE);
  }

  lemma {:induction false} HexIsText(prefix: string, key: string, strip: string, t: Tools, parts: seq<string>)
    requires Fitting(t) && key == strip + t.sha(Prefixed(parts))
    requires prefix in ["unresolved.", "nested archive "]
    ensures var digest := TrimPrefix(key, strip);
      ValidText(prefix + (if |digest| > 16 then digest[..16] else digest), 2048)
  {
    var digest := TrimPrefix(key, strip);
    assert digest == t.sha(Prefixed(parts));
    assert Digest(digest);
    var s := prefix + digest[..16];
    forall i | 0 <= i < |s| ensures 0 < s[i] as int < 0x80 {
      if i < |prefix| { assert s[i] == prefix[i]; } else { assert s[i] == digest[i - |prefix|]; }
    }
    LengthOfAscii(s);
  }

  lemma {:induction false} NamesAreText(t: Tools, req: Request, u: Unit)
    requires Fitting(t) && (u.Indexed? ==> Fits(u.parsed))
    ensures ValidText(ClassFor(t, req, u).binaryName, 2048) && ValidText(ClassFor(t, req, u).displayName, 2048)
  {
    hide Fitting, PlainText, ValidText, Dotted, Prefixed;
    var key := KeyOf(t, req, u);
    match u
    case Lost(f) =>
      assert key == "module:" + t.sha(Prefixed(KeyParts(req, u)));
      HexIsText("nested archive ", key, "module:", t, KeyParts(req, u));
      if PlainText(f.entryPath, 2048) { PlainIsText(f.entryPath, 2048, 2048); }
    case Refused(c, _, _) =>
      assert key == "class:" + t.sha(Prefixed(KeyParts(req, u)));
      HexIsText("unresolved.", key, "class:", t, KeyParts(req, u));
      var bare := Dotted(TrimPrefix(TrimPrefix(TrimSuffix(c.logicalPath, ".class"), "WEB-INF/classes/"), "BOOT-INF/classes/"));
      if PlainText(bare, 2048) { PlainIsText(bare, 2048, 2048); }
    case Indexed(_, _) =>
  }

  /** Every listed class has the shape the contract asks for. */
  lemma {:induction false} ClassForShape(t: Tools, req: Request, u: Unit)
    requires Fitting(t) && (u.Indexed? ==> Fits(u.parsed))
    ensures ClassShape(ClassFor(t, req, u))
  {
    hide Fitting, Identifier, ValidText, MethodShape, RelativePath, ArchiveName, FallbackName, ArtifactID, KeyOf, MethodEntry;
    KeyShape(t, req, u);
    NamesAreText(t, req, u);
    LanguageIsText();
    if u.Indexed? {
      IndexIDIsIdentifier(t, req, u);
      forall i | 0 <= i < |u.parsed.methods| ensures MethodShape(ClassFor(t, req, u).methods[i]) {
        MethodEntryShape(t, req, u, u.parsed.methods[i]);
      }
    }
  }

  lemma {:induction false} KeyShape(t: Tools, req: Request, u: Unit)
    requires Fitting(t)
    ensures Identifier(KeyOf(t, req, u)) && ClassFor(t, req, u).key == KeyOf(t, req, u)
  {
    hide Fitting, Identifier, Prefixed, ArchiveName, FallbackName;
    KeyIsIdentifier(t, KeyPrefix(u), KeyParts(req, u));
  }
}
