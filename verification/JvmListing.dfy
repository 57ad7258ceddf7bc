/** What the result says of the class files it was made from: for every candidate the listed
    class, its methods with the ranges of their code, and its index artifact, or the error, in
    terms of the bytes of the candidate and of the class file that they are. */
module JvmListing {
  import opened Counting
  import opened Words
  import opened JvmDescriptors
  import opened Texts
  import opened JvmClassFormat
  import Layout = JvmClassLayout
  import opened JvmClassRules
  import opened JvmClassReference
  import opened JvmClassParser
  import opened BytecodeContract
  import Entries = JvmArchiveEntries
  import opened JvmArchiveWalk
  import opened JvmIndex
  import opened JvmEngine

  // ---------------------------------------------------------------- the rules

  /** The range is where this code stands in the class file. */
  predicate StandsAt(payload: Bytes, r: BytecodeRange, code: Bytes) {
    r.offset + r.size <= |payload| && r.size == |code| && payload[r.offset..r.offset + r.size] == code
  }

  /** The range of a method is where the code of its one Code attribute stands; a method without
      code has none. */
  ghost predicate RangeTells(cs: seq<Constant>, m: Layout.Member, payload: Bytes, range: Option<BytecodeRange>) {
    match range
    case None => Bodiless(m.access)
    case Some(r) =>
      !Bodiless(m.access) &&
      exists i, code: Layout.Code | 0 <= i < |m.attributes| :: BodyIs(cs, m.attributes, i, code) && StandsAt(payload,
          r, code.code)
  }

  predicate MethodTells(t: Tools, cs: seq<Constant>, m: Layout.Member, owner: ClassIndex, e: MethodIndex) {
    && TextOf(cs, m.name) == Some(e.name) && TextOf(cs, m.descriptor) == Some(e.descriptor)
    && e.qualifiedName == owner.binaryName + "." + e.name && e.signature == "" && e.source.None?
    && e.key == "method:" + t.sha(Prefixed([owner.key, e.name, e.descriptor]))
  }

  /** No two ranges overlap, and they come in the order of the methods. */
  predicate Ascending(es: seq<MethodIndex>) {
    forall i, j | 0 <= i < j < |es| && es[i].bytecode.Some? && es[j].bytecode.Some? ::
      es[i].bytecode.value.offset + es[i].bytecode.value.size <= es[j].bytecode.value.offset
  }

  predicate DottedAs(name: string, dotted: string) {
    |dotted| == |name| && forall i | 0 <= i < |name| :: dotted[i] == if name[i] == '/' then '.' else name[i]
  }

  /** The name in the SourceFile attribute, or nothing if there is none. */
  predicate SourceTold(cs: seq<Constant>, attributes: seq<Layout.Attribute>, source: string) {
    if NoneCalled(cs, attributes, "SourceFile") then source == ""
    else forall i | 0 <= i < |attributes| && Called(cs, attributes, i, "SourceFile") ::
           SourceOf(cs, attributes[i].payload) == Some(source)
  }

  /** Class file `f`, from these bytes of candidate `c`, listed as `e`. */
  ghost predicate ClassTells(t: Tools, req: Request, c: Candidate, f: Layout.ClassFile, payload: Bytes, e: ClassIndex) {
    && e.kind == KindClass && e.status == ClassBytecodeOnly && e.language == "java-bytecode" && e.displayName == e.binaryName
    && ClassOf(f.constants, f.thisClass).Some? && DottedAs(ClassOf(f.constants, f.thisClass).value, e.binaryName)
    && e.key == "class:" + t.sha(Prefixed([req.format, c.identity, e.binaryName]))
    && SourceTold(f.constants, f.attributes, e.sourceFile)
    && |e.methods| == |f.methods| && Ascending(e.methods)
    && (forall i | 0 <= i < |f.methods| ::
          MethodTells(t, f.constants, f.methods[i], e, e.methods[i]) &&
          RangeTells(f.constants, f.methods[i], payload, e.methods[i].bytecode))
  }

  /** What is written to the index artifact says the same. */
  predicate RecordTells(f: Layout.ClassFile, e: ClassIndex, r: ParsedClass) {
    && r.binaryName == e.binaryName && r.sourceFile == e.sourceFile
    && r.minor == f.minor && r.major == f.major && r.access == f.access && |r.methods| == |e.methods| == |f.methods|
    && forall i | 0 <= i < |r.methods| ::
         && r.methods[i].name == e.methods[i].name && r.methods[i].descriptor == e.methods[i].descriptor
         && r.methods[i].access == f.methods[i].access
         && (r.methods[i].code.Some? <==> e.methods[i].bytecode.Some?)
         && (r.methods[i].code.Some? ==>
               r.methods[i].code.value.offset == e.methods[i].bytecode.value.offset &&
               |r.methods[i].code.value.bytes| == e.methods[i].bytecode.value.size)
  }

  // ---------------------------------------------------------------- what the parser reported

  lemma ReportedText(cs: seq<Constant>, f: Layout.ClassFile, payload: Bytes, r: ParsedClass)
    requires cs == f.constants && AllOk(cs) && ClassReported(payload, f, r)
    ensures ClassOf(cs, f.thisClass).Some? && DottedAs(ClassOf(cs, f.thisClass).value, r.binaryName)
    ensures r.minor == f.minor && r.major == f.major && r.access == f.access && |r.methods| == |f.methods|
    ensures InOrder(payload, 0, |payload|, r.methods)
    ensures forall i | 0 <= i < |r.methods| :: Reported(Table(cs), f.methods[i], r.methods[i])
    ensures exists seen :: SourceReported(Table(cs), f.attributes, r.sourceFile, seen)
  {
    hide AllOk, Table, Reported, SourceReported, InOrder, ClassNameAt, ClassOf;
    ClassIs(cs, f.thisClass);
  }

  lemma SourceIsTold(cs: seq<Constant>, attributes: seq<Layout.Attribute>, source: string, seen: bool)
    requires AllOk(cs) && SourceReported(Table(cs), attributes, source, seen)
    ensures SourceTold(cs, attributes, source)
  {
    hide AllOk, Table, Layout.SourcePayloads, Called, NoneCalled, TextAt, TextOf, Big, SourceName;
    SourcesAre(cs, attributes);
    var sources := Layout.SourcePayloads(Table(cs), attributes);
    if seen {
      BigOfTwo(sources[0]);
      TextIs(cs, Big(sources[0]));
      forall i | 0 <= i < |attributes| && Called(cs, attributes, i, "SourceFile")
        ensures SourceOf(cs, attributes[i].payload) == Some(source)
      {
        assert Holds(cs, attributes, "SourceFile", attributes[i].payload);
        assert attributes[i].payload in sources;
      }
    }
  }

  /** The code that was reported for a method, in terms of the rules. */
  lemma RangeIsTold(cs: seq<Constant>, m: Layout.Member, payload: Bytes, r: ParsedMethod)
    requires AllOk(cs) && Reported(Table(cs), m, r) && MethodObeys(cs, m) && InRange(payload, 0, |payload|, r)
    ensures var range := if r.code.Some? then Some(BytecodeRange(r.code.value.offset, |r.code.value.bytes|)) else None;
      RangeTells(cs, m, payload, range)
  {
    hide AllOk, Table, Layout.CodePayloads, BodyIs, NoneCalled, OnceAtMost, TextOf, TextAt, Attributed, MethodText, MethodName;
    PayloadsAre(cs, m.attributes);
    if r.code.Some? {
      var codes := Layout.CodePayloads(Table(cs), m.attributes);
      var i, code: Layout.Code :| 0 <= i < |m.attributes| && BodyIs(cs, m.attributes, i, code);
      CodeOfBody(cs, m.attributes, i, code, codes);
      assert StandsAt(payload, BytecodeRange(r.code.value.offset, |r.code.value.bytes|), code.code);
    } else if !Bodiless(m.access) {
      var i, code: Layout.Code :| 0 <= i < |m.attributes| && BodyIs(cs, m.attributes, i, code);
      BodyCalled(cs, m.attributes, i, code);
    }
  }

  lemma BodyCalled(cs: seq<Constant>, attributes: seq<Layout.Attribute>, i: nat, code: Layout.Code)
    requires i < |attributes| && BodyIs(cs, attributes, i, code)
    ensures !NoneCalled(cs, attributes, "Code") && Holds(cs, attributes, "Code", attributes[i].payload)
    ensures CodeObeys(cs, code) && CodeWritten(code) == attributes[i].payload
  {
    hide CodeObeys, CodeWritten, TextOf;
  }

  /** The one Code attribute is what the parser read. */
  lemma CodeOfBody(cs: seq<Constant>, attributes: seq<Layout.Attribute>, i: nat, code: Layout.Code, codes: seq<Bytes>)
    requires AllOk(cs) && i < |attributes| && BodyIs(cs, attributes, i, code)
    requires |codes| == 1 && forall p :: p in codes <==> Holds(cs, attributes, "Code", p)
    ensures Layout.ParseCode(Table(cs), codes[0]) == Got(code, [])
  {
    hide AllOk, Table, BodyIs, Holds, CodeObeys, CodeWritten, Layout.CodeOk, Layout.CodeBytes, Layout.ParseCode;
    BodyCalled(cs, attributes, i, code);
    assert attributes[i].payload in codes && codes == [codes[0]];
    CodeObeysIff(cs, code);
    CodeIs(cs, code);
    Layout.CodeBack(Table(cs), code, []);
    assert codes[0] + [] == codes[0];
  }

  // ---------------------------------------------------------------- an indexed class

  lemma MethodIsTold(t: Tools, req: Request, u: Unit, cs: seq<Constant>, m: Layout.Member, i: nat)
    requires u.Indexed? && i < |u.parsed.methods| && AllOk(cs) && Reported(Table(cs), m, u.parsed.methods[i])
    ensures var e := ClassFor(t, req, u); i < |e.methods| && MethodTells(t, cs, m, e, e.methods[i])
    ensures var r := u.parsed.methods[i];
      ClassFor(t, req, u).methods[i].bytecode ==
        if r.code.Some? then Some(BytecodeRange(r.code.value.offset, |r.code.value.bytes|)) else None
  {
    hide AllOk, Table, Prefixed, TextAt, TextOf;
    TextIs(cs, m.name);
    TextIs(cs, m.descriptor);
  }

  lemma RangesAscend(t: Tools, req: Request, u: Unit, payload: Bytes)
    requires u.Indexed? && InOrder(payload, 0, |payload|, u.parsed.methods)
    ensures Ascending(ClassFor(t, req, u).methods)
  {
    hide Prefixed, StableKey, InRange;
  }

  lemma ClassIsTold(t: Tools, req: Request, u: Unit, f: Layout.ClassFile, payload: Bytes)
    requires u.Indexed? && Obeys(f) && ClassReported(payload, f, u.parsed)
    ensures ClassTells(t, req, u.candidate, f, payload, ClassFor(t, req, u))
    ensures RecordTells(f, ClassFor(t, req, u), u.parsed)
  {
    hide Obeys, ClassReported, AllOk, Table, Prefixed, MethodTells, RangeTells, Reported, InOrder, SourceReported, SourceTold,
         ClassOf, DottedAs, Ascending, MethodObeys;
    var cs, e := f.constants, ClassFor(t, req, u);
    ObeysWidths(f);
    ReportedText(cs, f, payload, u.parsed);
    var seen :| SourceReported(Table(cs), f.attributes, u.parsed.sourceFile, seen);
    SourceIsTold(cs, f.attributes, u.parsed.sourceFile, seen);
    RangesAscend(t, req, u, payload);
    forall i | 0 <= i < |f.methods|
      ensures MethodTells(t, cs, f.methods[i], e, e.methods[i]) && RangeTells(cs, f.methods[i], payload, e.methods[i].bytecode)
    {
      MethodIsTold(t, req, u, cs, f.methods[i], i);
      MethodOfClass(f, i);
      OneInOrder(payload, u.parsed.methods, i);
      RangeIsTold(cs, f.methods[i], payload, u.parsed.methods[i]);
    }
    RecordIsTold(t, req, u, f, payload);
  }

  lemma MethodOfClass(f: Layout.ClassFile, i: nat)
    requires Obeys(f) && i < |f.methods|
    ensures MethodObeys(f.constants, f.methods[i])
  {
    hide MethodObeys, Meets, SourceObeys;
  }

  lemma OneInOrder(payload: Bytes, rs: seq<ParsedMethod>, i: nat)
    requires InOrder(payload, 0, |payload|, rs) && i < |rs|
    ensures InRange(payload, 0, |payload|, rs[i])
  {
    hide InRange;
  }

  lemma RecordIsTold(t: Tools, req: Request, u: Unit, f: Layout.ClassFile, payload: Bytes)
    requires u.Indexed? && u.parsed.minor == f.minor && u.parsed.major == f.major && u.parsed.access == f.access
    requires |u.parsed.methods| == |f.methods|
    requires forall i | 0 <= i < |f.methods| :: Reported(Table(f.constants), f.methods[i], u.parsed.methods[i])
    ensures RecordTells(f, ClassFor(t, req, u), u.parsed)
  {
    hide Table, Prefixed, StableKey, Layout.CodePayloads, Layout.ParsesAsCode, TextAt;
  }

  // ---------------------------------------------------------------- errors and artifacts

  /** The index artifact of a listed class: one of its own, named by the hash of what is written. */
  predicate ArtifactTells(t: Tools, c: Candidate, e: ClassIndex, r: ParsedClass, n: nat, a: Artifact) {
    var text := t.encode(IndexRecord(e.key, c.entryPath, c.release, r));
    var digest := t.sha(text);
    && |digest| == 64 && e.artifactIDs == [a.id] && a.id == "jvm-index-" + digest
    && a.kind == Index && a.mediaType == "application/vnd.binaryscan.jvm-bytecode-index+json"
    && a.sha256 == digest && a.sizeBytes as int == Size(text) && a.validation == Unvalidated
    && a.chunk == Chunk(a.id, 0, 1) && a.classKeys == [e.key]
    && a.relativePath == t.directory + "/class-" + SixDigits(n) + "-" + digest[..16] + ".json"
  }

  /** `%06d` */
  function SixDigits(n: nat): string {
    var digits := Decimal(n);
    if |digits| >= 6 then digits else Entries.Zeros(6 - |digits|) + digits
  }

  lemma {:induction false} PaddedIs(s: string)
    ensures Padded(s) == if |s| >= 6 then s else Entries.Zeros(6 - |s|) + s
    decreases 6 - |s|
  {
    if |s| < 6 {
      PaddedIs("0" + s);
      if |s| < 5 { assert Entries.Zeros(5 - |s|) + ("0" + s) == Entries.Zeros(6 - |s|) + s; } else {
        assert "0" + s == Entries.Zeros(1) + s;
      }
    }
  }

  lemma ArtifactIsTold(t: Tools, req: Request, u: Unit, n: nat)
    requires Fitting(t) && u.Indexed? && Length(Payload(t, req, u)) <= MAX_INT64
    ensures ArtifactTells(t, u.candidate, ClassFor(t, req, u), u.parsed, n, ArtifactFor(t, req, u, n))
  {
    hide Fitting, KeyOf, Padded, Decimal, Length, Size, ClassFor, ArtifactFor, IndexPath, SixDigits, ArtifactID;
    ListedIndex(t, req, u);
    IndexIs(t, req, u, n);
    PaddedIs(Decimal(n));
    SizeIs(Payload(t, req, u));
    var digest := t.sha(Payload(t, req, u));
    PathIs(t, n, digest);
    MediaTypeIs();
  }

  lemma MediaTypeIs()
    ensures MEDIA_TYPE == "application/vnd.binaryscan.jvm-bytecode-index+json"
  {
    assert "application" + "/" == "application/";
  }

  lemma ListedIndex(t: Tools, req: Request, u: Unit)
    requires u.Indexed?
    ensures ClassFor(t, req, u).key == KeyOf(t, req, u) && ClassFor(t, req, u).artifactIDs == [ArtifactID(t, req, u)]
  {
    hide KeyOf, ArtifactID, MethodEntry;
  }

  lemma PathIs(t: Tools, n: nat, digest: string)
    requires |digest| >= 16
    ensures IndexPath(t, n, digest) == t.directory + "/class-" + SixDigits(n) + "-" + digest[..16] + ".json"
  {
    hide Padded, Decimal;
    PaddedIs(Decimal(n));
    var p := SixDigits(n);
    assert Padded(Decimal(n)) == p;
    var rest := p + "-" + digest[..16] + ".json";
    assert "/" + "class-" == "/class-";
    assert "class-" + p + "-" + digest[..16] + ".json" == "class-" + rest;
    assert t.directory + "/" + ("class-" + rest) == t.directory + ("/" + "class-") + rest;
    assert t.directory + "/class-" + p + "-" + digest[..16] + ".json" == t.directory + "/class-" + rest;
    assert IndexPath(t, n, digest) == t.directory + "/" + ("class-" + rest);
  }

  /** A failed class, and the only error for it. */
  predicate FailureTells(e: ClassIndex, kind: ClassKind, key: string, errors: seq<ClassError>, code: string, message: string) {
    && e.kind == kind && e.status == ClassFailed && e.language == "java-bytecode" && e.key == key && e.sourceFile == ""
    && e.displayName == e.binaryName && e.artifactIDs == [] && e.methods == []
    && ClassError(key, code, Sanitize(message)) in errors
  }

  lemma {:induction false} ErrorListed(t: Tools, req: Request, us: seq<Unit>, i: nat)
    requires i < |us| && !us[i].Indexed?
    ensures ErrorFor(t, req, us[i]) in ErrorsFor(t, req, us)
  {
    hide ErrorFor;
    if i < |us| - 1 { ErrorListed(t, req, us[..|us| - 1], i); }
  }

  // ---------------------------------------------------------------- the whole result

  /** Candidate `c` as class `e` of the output. */
  ghost predicate CandidateTold(t: Tools, req: Request, c: Candidate, e: ClassIndex, o: Output) {
    match c.content
    case None =>
      FailureTells(e, KindClass, "class:" + t.sha(Prefixed([req.format, c.identity, req.input])), o.classErrors,
                   "class_read_failed", "class bytes could not be read")
    case Some(payload) =>
      if exists f :: Obeys(f) && Written(f) == payload then
        exists f, parsed, n: nat | n < |o.artifacts| ::
          && Obeys(f) && Written(f) == payload && ClassTells(t, req, c, f, payload, e)
          && RecordTells(f, e, parsed) && ArtifactTells(t, c, e, parsed, n + 1, o.artifacts[n])
      else
        FailureTells(e, KindClass, "class:" + t.sha(Prefixed([req.format, c.identity, req.input])), o.classErrors,
                     "invalid_class", t.describe(payload))
  }

  lemma IndexedIsTold(t: Tools, req: Request, us: seq<Unit>, i: nat, c: Candidate, payload: Bytes)
    requires Fitting(t) && Sized(t, req, us) && i < |us| && us[i].Indexed? && us[i].candidate == c && c.content == Some(payload)
    requires Layout.ParseClass(payload).Some? && ClassReported(payload, Layout.ParseClass(payload).value, us[i].parsed)
    ensures CandidateTold(t, req, c, ClassFor(t, req, us[i]), OutputFor(t, req, us))
  {
    hide Fitting, Sized, Obeys, Written, Layout.ParseClass, ClassReported, ClassTells, RecordTells, ArtifactTells,
         ClassFor, ArtifactFor,
         ArtifactsFor, Length;
    var f, u := Layout.ParseClass(payload).value, us[i];
    ParsedByTheRules(payload, f);
    ClassIsTold(t, req, u, f, payload);
    var n := ArtifactAt(t, req, us, i);
    SizedUnit(t, req, us, i);
    ArtifactIsTold(t, req, u, n + 1);
  }

  lemma SizedUnit(t: Tools, req: Request, us: seq<Unit>, i: nat)
    requires Sized(t, req, us) && i < |us| && us[i].Indexed?
    ensures Length(Payload(t, req, us[i])) <= MAX_INT64
  {
    hide Length;
  }

  lemma RefusedIsTold(t: Tools, req: Request, us: seq<Unit>, i: nat, c: Candidate, code: string, message: string)
    requires Fitting(t) && Sized(t, req, us) && i < |us| && us[i] == Refused(c, code, message)
    ensures FailureTells(ClassFor(t, req, us[i]), KindClass, "class:" + t.sha(Prefixed([req.format, c.identity, req.input])),
                         OutputFor(t, req, us).classErrors, code, message)
  {
    hide Fitting, Sized, Prefixed, ArtifactsFor, Sanitize, FallbackName, Length;
    ErrorListed(t, req, us, i);
  }

  lemma NoRules(payload: Bytes)
    requires Layout.ParseClass(payload).None?
    ensures forall f :: !(Obeys(f) && Written(f) == payload)
  {
    hide Obeys, Written, Layout.ParseClass;
    forall f ensures !(Obeys(f) && Written(f) == payload) { ParsedByTheRules(payload, f); }
  }

  /** Every listed class says what its candidate, or the failure of its archive, is. */
  lemma OutputTells(t: Tools, req: Request, us: seq<Unit>, fs: seq<Failure>, cs: seq<Candidate>, o: Output)
    requires Lists(t, req, us, fs, cs, o)
    ensures |o.classes| == |fs| + |cs| && o.warnings == [] && o.execution.None?
    ensures forall k | 0 <= k < |fs| ::
      FailureTells(o.classes[k], KindModule, "module:" + t.sha(Prefixed([req.format, fs[k].identity, req.input])),
                   o.classErrors, fs[k].code, fs[k].message)
    ensures forall k | 0 <= k < |cs| :: CandidateTold(t, req, cs[k], o.classes[|fs| + k], o)
    ensures o.status == if o.classErrors == [] then AllBytecode else Partial
  {
    hide Fitting, Sized, UnitFor, ClassFor, OutputFor, CandidateTold, FailureTells, Prefixed;
    OutputParts(t, req, us);
    forall k | 0 <= k < |fs|
      ensures FailureTells(o.classes[k], KindModule, "module:" + t.sha(Prefixed([req.format, fs[k].identity, req.input])),
                           o.classErrors, fs[k].code, fs[k].message)
    {
      LostIsTold(t, req, us, k, fs[k]);
    }
    forall k | 0 <= k < |cs| ensures CandidateTold(t, req, cs[k], o.classes[|fs| + k], o) {
      UnitIsTold(t, req, us, |fs| + k, cs[k]);
    }
  }

  lemma OutputParts(t: Tools, req: Request, us: seq<Unit>)
    requires Fitting(t) && Sized(t, req, us)
    ensures var o := OutputFor(t, req, us);
      && |o.classes| == |us| && o.warnings == [] && o.execution.None?
      && (forall k | 0 <= k < |us| :: o.classes[k] == ClassFor(t, req, us[k]))
      && o.status == if o.classErrors == [] then AllBytecode else Partial
  {
    hide Fitting, Sized, ClassFor, ErrorsFor, ArtifactsFor;
  }

  lemma LostIsTold(t: Tools, req: Request, us: seq<Unit>, i: nat, f: Failure)
    requires Fitting(t) && Sized(t, req, us) && i < |us| && us[i] == Lost(f)
    ensures FailureTells(ClassFor(t, req, us[i]), KindModule, "module:" + t.sha(Prefixed([req.format, f.identity, req.input])),
                         OutputFor(t, req, us).classErrors, f.code, f.message)
  {
    hide Fitting, Sized, Prefixed, ArtifactsFor, Sanitize, ArchiveName, Length;
    ErrorListed(t, req, us, i);
  }

  lemma UnitIsTold(t: Tools, req: Request, us: seq<Unit>, i: nat, c: Candidate)
    requires Fitting(t) && Sized(t, req, us) && i < |us| && UnitFor(t, c, us[i])
    ensures CandidateTold(t, req, c, ClassFor(t, req, us[i]), OutputFor(t, req, us))
  {
    hide Fitting, Sized, Obeys, Written, Layout.ParseClass, ClassReported, ClassFor, OutputFor, FailureTells,
         Prefixed, ClassTells,
         RecordTells, ArtifactTells;
    match c.content
    case None => RefusedIsTold(t, req, us, i, c, "class_read_failed", "class bytes could not be read");
    case Some(payload) =>
      if Layout.ParseClass(payload).None? {
        NoRules(payload);
        RefusedIsTold(t, req, us, i, c, "invalid_class", t.describe(payload));
      } else {
        IndexedIsTold(t, req, us, i, c, payload);
      }
  }

  // ---------------------------------------------------------------- names and messages of failures

  /** A class that cannot be parsed is called by its path, without the directory of a web
      application and with periods for slashes. */
  lemma NamedByPath(prefix: string, stem: string, key: string)
    requires prefix in ["", "WEB-INF/classes/", "BOOT-INF/classes/"] && JvmClassRules.Printable(stem, 2048)
    requires !Entries.HasPrefix(stem, "WEB-INF/classes/") && !Entries.HasPrefix(stem, "BOOT-INF/classes/")
    ensures DottedAs(stem, FallbackName(prefix + stem + ".class", key))
  {
    var path := prefix + stem + ".class";
    Stripped(prefix, stem);
    assert path[|path| - 6..] == ".class" && path[..|path| - 6] == prefix + stem;
    DottedPrintable(stem);
  }

  lemma Stripped(prefix: string, stem: string)
    requires prefix in ["", "WEB-INF/classes/", "BOOT-INF/classes/"]
    requires !Entries.HasPrefix(stem, "WEB-INF/classes/") && !Entries.HasPrefix(stem, "BOOT-INF/classes/")
    ensures TrimPrefix(TrimPrefix(prefix + stem, "WEB-INF/classes/"), "BOOT-INF/classes/") == stem
  {
    var name := prefix + stem;
    if prefix == "" {
      assert name == stem;
    } else {
      assert name[..|prefix|] == prefix && name[|prefix|..] == stem;
      assert prefix[0] == name[0];
      assert "WEB-INF/classes/"[0] == 'W' && "BOOT-INF/classes/"[0] == 'B';
    }
  }

  lemma DottedPrintable(stem: string)
    requires JvmClassRules.Printable(stem, 2048)
    ensures PlainText(Dotted(stem), 2048)
  {
    PrintableIff(stem, 2048);
    DottedLength(stem);
  }

  /** A message that is text, and neither begins nor ends in space, is reported as it is. */
  lemma MessageKept(message: string)
    requires 0 < Size(message) <= 4096 && '\0' !in message
    requires !Space(message[0]) && !Space(message[|message| - 1])
    ensures Sanitize(message) == message
  {
    SizeIs(message);
    NothingRemoved(message);
  }

  lemma {:induction false} NothingRemoved(s: string)
    requires '\0' !in s
    ensures WithoutNul(s) == s
  {
    if s != "" {
      NothingRemoved(s[1..]);
      assert s == [s[0]] + s[1..];
    }
  }
}
