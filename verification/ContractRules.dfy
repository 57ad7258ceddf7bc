/** The result contract of a bytecode engine once more, clause by clause over the positions of
    classes, methods, artifacts and errors, and the order of its lists, character by character.
    Nothing here uses the predicates that the checks are proved against; that they agree is
    proved below. */
module ContractRules {
  import opened JvmDescriptors
  import opened Texts
  import opened PathNames
  import opened BytecodeContract
  import opened BytecodeNormalization

  // ---------------------------------------------------------------- texts

  predicate Upper(c: char) { 65 <= c as int <= 90 }

  predicate Lower(c: char) { 97 <= c as int <= 122 }

  predicate Figure(c: char) { 48 <= c as int <= 57 }

  /** 1 to 1000 characters, of which the first is a letter or figure. */
  predicate Name(s: string) {
    && 1 <= |s| <= 1000 && (Upper(s[0]) || Lower(s[0]) || Figure(s[0]))
    && forall i | 0 <= i < |s| ::
         || Upper(s[i]) || Lower(s[i]) || Figure(s[i]) || s[i] == '.' || s[i] == '_' || s[i] == ':' || s[i] == '/'
         || s[i] == '@' || s[i] == '+' || s[i] == '-' || s[i] == '$'
  }

  predicate ErrorCode(s: string) {
    && 1 <= |s| <= 128 && Lower(s[0])
    && forall i | 0 <= i < |s| :: Lower(s[i]) || Figure(s[i]) || s[i] == '_' || s[i] == '.' || s[i] == '-'
  }

  predicate Hash(s: string) {
    |s| == 64 && forall i | 0 <= i < |s| :: Figure(s[i]) || 97 <= s[i] as int <= 102
  }

  /** Not empty, no NUL, at most so many bytes. */
  predicate Said(s: string, maximum: nat) { s != "" && '\U{0}' !in s && Length(s) <= maximum }

  /** A dot, or a relative path of ordinary components without backslashes. */
  ghost predicate FilePath(s: string) { s == "." || (OrdinaryPath(s) && '\\' !in s) }

  /** Printable characters around one slash. */
  ghost predicate TypeName(s: string) {
    && 3 <= Length(s) <= 255 && (forall i | 0 <= i < |s| :: 33 <= s[i] as int <= 126)
    && exists k | 0 <= k < |s| :: s[k] == '/' && forall i | 0 <= i < |s| && i != k :: s[i] != '/'
  }

  lemma {:induction false} SlashesAre(s: string)
    ensures Slashes(s) == 0 <==> forall i | 0 <= i < |s| :: s[i] != '/'
    ensures Slashes(s) == 1 <==> exists k | 0 <= k < |s| :: s[k] == '/' && forall i | 0 <= i < |s| && i != k :: s[i] != '/'
  {
    if s != "" {
      var n := |s| - 1;
      var front := s[..n];
      SlashesAre(front);
      assert forall i | 0 <= i < n :: front[i] == s[i];
      if Slashes(s) == 1 {
        if s[n] == '/' {
          assert s[n] == '/' && forall i | 0 <= i < |s| && i != n :: s[i] != '/';
        } else {
          var k :| 0 <= k < n && front[k] == '/' && forall i | 0 <= i < n && i != k :: front[i] != '/';
          assert s[k] == '/' && forall i | 0 <= i < |s| && i != k :: s[i] != '/';
        }
      }
      if k :| 0 <= k < |s| && s[k] == '/' && forall i | 0 <= i < |s| && i != k :: s[i] != '/' {
        if k < n { assert front[k] == '/' && forall i | 0 <= i < n && i != k :: front[i] != '/'; }
      }
    }
  }

  lemma CodeIff(s: string)
    ensures Code(s) <==> ErrorCode(s)
  {
    forall c: char ensures c in "_.-" <==> c == '_' || c == '.' || c == '-' {}
  }

  lemma HashIff(s: string)
    ensures Digest(s) <==> Hash(s)
  {}

  lemma FilePathIff(s: string)
    ensures RelativePath(s) <==> FilePath(s)
  {
    hide OrdinaryPath, Parts;
    OrdinaryIff(s);
    if OrdinaryPath(s) { NotNothing(s); }
  }

  lemma TypeNameIff(s: string)
    ensures MediaType(s) <==> TypeName(s)
  {
    hide Slashes, Length;
    SlashesAre(s);
  }

  lemma NotNothing(s: string)
    requires OrdinaryPath(s)
    ensures s != ""
  {
    hide Slashed;
    var ps :| Ordinary(ps) && s == Slashed(ps);
    SlashedLong(ps);
  }

  lemma {:induction false} SlashedLong(ps: seq<string>)
    requires Ordinary(ps)
    ensures Slashed(ps) != ""
  {
    assert ps[|ps| - 1] != "";
  }

  lemma NameIff(s: string)
    ensures Identifier(s) <==> Name(s)
  {
    forall c: char ensures c in "._:/@+-$" <==>
      c == '.' || c == '_' || c == ':' || c == '/' || c == '@' || c == '+' || c == '-' || c == '$' {}
  }

  // ---------------------------------------------------------------- order

  /** The texts agree up to a place where `a` ends or has the lower character. */
  predicate FirstIn(a: string, b: string, k: nat) {
    k <= |a| && k < |b| && a[..k] == b[..k] && (k < |a| ==> a[k] < b[k])
  }

  ghost predicate Precedes(a: string, b: string) { exists k: nat :: FirstIn(a, b, k) }

  lemma {:induction false} PrecedesIff(a: string, b: string)
    ensures Below(a, b) <==> Precedes(a, b)
    decreases |a|
  {
    if b != "" && a != "" && a[0] == b[0] {
      PrecedesIff(a[1..], b[1..]);
      if Below(a, b) {
        var k: nat :| FirstIn(a[1..], b[1..], k);
        assert a[..k + 1] == [a[0]] + a[1..][..k] && b[..k + 1] == [b[0]] + b[1..][..k];
        assert FirstIn(a, b, k + 1);
      }
      if Precedes(a, b) {
        var k: nat :| FirstIn(a, b, k);
        assert k > 0;
        assert a[1..][..k - 1] == a[..k][1..] && b[1..][..k - 1] == b[..k][1..];
        assert FirstIn(a[1..], b[1..], k - 1);
      }
    } else {
      if Below(a, b) { assert FirstIn(a, b, 0); }
      forall k: nat | FirstIn(a, b, k) ensures k == 0 { NotLater(a, b, k); }
    }
  }

  lemma NotLater(a: string, b: string, k: nat)
    requires FirstIn(a, b, k)
    ensures k > 0 ==> a != "" && a[0] == b[0]
  {
    if k > 0 { assert a[0] == a[..k][0] && b[0] == b[..k][0]; }
  }

  /** Names in ascending order, none twice. */
  ghost predicate Rising(names: seq<string>) {
    (forall i | 0 <= i < |names| :: Name(names[i])) && forall i | 0 < i < |names| :: Precedes(names[i - 1], names[i])
  }

  lemma RisingIff(names: seq<string>)
    ensures SortedUnique(names) <==> Rising(names)
  {
    hide Identifier, Name, Below, Precedes;
    forall i | 0 <= i < |names| ensures Identifier(names[i]) <==> Name(names[i]) { NameIff(names[i]); }
    forall i | 0 < i < |names| ensures Below(names[i - 1], names[i]) <==> Precedes(names[i - 1], names[i]) {
      PrecedesIff(names[i - 1], names[i]);
    }
  }

  // ---------------------------------------------------------------- shapes

  ghost predicate MethodRule(m: MethodIndex) {
    && Name(m.key) && Said(m.name, 1024)
    && (m.qualifiedName == "" || Said(m.qualifiedName, 4096))
    && (m.descriptor == "" || Said(m.descriptor, 4096))
    && (m.signature == "" || Said(m.signature, 4096))
    && (m.source.Some? ==> 1 <= m.source.value.startLine && m.source.value.startLine <= m.source.value.endLine)
    && (m.bytecode.Some? ==> 1 <= m.bytecode.value.size)
  }

  ghost predicate ClassRule(c: ClassIndex) {
    && Name(c.key) && (c.kind == KindClass || c.kind == KindModule)
    && Said(c.binaryName, 2048) && Said(c.displayName, 2048) && Said(c.language, 64)
    && (c.sourceFile == "" || FilePath(c.sourceFile))
    && (c.status == ClassSource || c.status == ClassBytecodeOnly || c.status == ClassFailed || c.status == ClassUnsupported)
    && Rising(c.artifactIDs) && forall i | 0 <= i < |c.methods| :: MethodRule(c.methods[i])
  }

  /** An artifact whose content was checked; that of a source text was understood as well. */
  ghost predicate ArtifactRule(a: Artifact, l: Limits) {
    && Name(a.id) && (a.kind == SourceText || a.kind == Bytecode || a.kind == Index || a.kind == Diagnostics)
    && TypeName(a.mediaType) && FilePath(a.relativePath) && Hash(a.sha256) && 1 <= a.sizeBytes
    && Name(a.chunk.setID) && a.chunk.index < a.chunk.count && a.chunk.count <= l.maxArtifacts
    && Rising(a.classKeys)
    && (a.validation == ContentVerified || (a.validation == HashVerified && a.kind != SourceText))
  }

  lemma MethodIff(m: MethodIndex)
    ensures MethodShape(m) <==> MethodRule(m)
  {
    hide Identifier, Name, Length;
    NameIff(m.key);
  }

  lemma ClassIff(c: ClassIndex)
    ensures ClassShape(c) <==> ClassRule(c)
  {
    hide Identifier, Name, Length, MethodShape, MethodRule, SortedUnique, Rising, RelativePath, FilePath;
    NameIff(c.key);
    FilePathIff(c.sourceFile);
    RisingIff(c.artifactIDs);
    forall i | 0 <= i < |c.methods| ensures MethodShape(c.methods[i]) <==> MethodRule(c.methods[i]) { MethodIff(c.methods[i]); }
  }

  lemma ArtifactIff(a: Artifact, l: Limits)
    ensures ArtifactShape(a, l, true) <==> ArtifactRule(a, l)
  {
    hide Identifier, Name, MediaType, TypeName, RelativePath, FilePath, Digest, Hash, SortedUnique, Rising;
    NameIff(a.id);
    NameIff(a.chunk.setID);
    TypeNameIff(a.mediaType);
    FilePathIff(a.relativePath);
    HashIff(a.sha256);
    RisingIff(a.classKeys);
  }

  // ---------------------------------------------------------------- lists

  /** Method `a` of class `i` comes before method `b` of class `j`. */
  predicate MethodAt(cs: seq<ClassIndex>, i: int, a: int) { 0 <= i < |cs| && 0 <= a < |cs[i].methods| }

  /** No two methods, of one class or of two, have one key. */
  ghost predicate MethodsApart(cs: seq<ClassIndex>) {
    forall i, a, j, b | MethodAt(cs, i, a) && MethodAt(cs, j, b) && (i != j || a != b) ::
      cs[i].methods[a].key != cs[j].methods[b].key
  }

  function MethodCount(cs: seq<ClassIndex>): nat {
    if cs == [] then 0 else MethodCount(cs[..|cs| - 1]) + |cs[|cs| - 1].methods|
  }

  function Bytes(arts: seq<Artifact>): int {
    if arts == [] then 0 else Bytes(arts[..|arts| - 1]) + arts[|arts| - 1].sizeBytes as int
  }

  /** The chunks of each set have one count, and their indices are those below it, each once. */
  ghost predicate ChunkSets(arts: seq<Artifact>) {
    && (forall i, j | 0 <= i < |arts| && 0 <= j < |arts| && i != j && arts[i].chunk.setID == arts[j].chunk.setID ::
          arts[i].chunk.count == arts[j].chunk.count && arts[i].chunk.index != arts[j].chunk.index)
    && forall i, k: nat | 0 <= i < |arts| && k < arts[i].chunk.count :: IsThere(arts, arts[i].chunk.setID, k)
  }

  predicate IsThere(arts: seq<Artifact>, setID: string, index: nat) {
    exists j | 0 <= j < |arts| :: arts[j].chunk.setID == setID && arts[j].chunk.index == index
  }

  lemma {:induction false} CountIs(cs: seq<ClassIndex>)
    ensures |MethodKeys(cs)| == MethodCount(cs)
  {
    if cs != [] { CountIs(cs[..|cs| - 1]); }
  }

  lemma {:induction false} KeysAre(cs: seq<ClassIndex>, key: string)
    ensures key in MethodKeys(cs) <==> exists i, a :: MethodAt(cs, i, a) && cs[i].methods[a].key == key
  {
    if cs != [] {
      var n := |cs| - 1;
      var front, last := cs[..n], cs[n].methods;
      KeysAre(front, key);
      if key in KeysOf(last) {
        var a :| 0 <= a < |last| && last[a].key == key;
        assert MethodAt(cs, n, a);
      }
      if key in MethodKeys(front) {
        var i, a :| MethodAt(front, i, a) && front[i].methods[a].key == key;
        assert MethodAt(cs, i, a);
      }
      if i, a :| MethodAt(cs, i, a) && cs[i].methods[a].key == key {
        if i < n { assert MethodAt(front, i, a); } else { assert KeysOf(last)[a] == key; }
      }
    }
  }

  lemma Concatenated<T>(s: seq<T>, t: seq<T>)
    ensures NoRepeats(s + t) <==> NoRepeats(s) && NoRepeats(t) && forall x | x in t :: x !in s
  {
    var all := s + t;
    if NoRepeats(all) {
      forall i, j | 0 <= i < j < |s| ensures s[i] != s[j] { assert all[i] != all[j]; }
      forall i, j | 0 <= i < j < |t| ensures t[i] != t[j] { assert all[|s| + i] != all[|s| + j]; }
      forall x | x in t ensures x !in s {
        var j :| 0 <= j < |t| && t[j] == x;
        forall i | 0 <= i < |s| ensures s[i] != x { assert all[i] != all[|s| + j]; }
      }
    }
    if NoRepeats(s) && NoRepeats(t) && forall x | x in t :: x !in s {
      forall i, j | 0 <= i < j < |all| ensures all[i] != all[j] {
        if j >= |s| { assert all[j] in t; }
        if i < |s| { assert all[i] in s; } else { assert all[i] == t[i - |s|] && all[j] == t[j - |s|]; }
      }
    }
  }

  lemma {:induction false} MethodsApartIff(cs: seq<ClassIndex>)
    ensures NoRepeats(MethodKeys(cs)) <==> MethodsApart(cs)
  {
    if cs != [] {
      var n := |cs| - 1;
      var front, last := cs[..n], cs[n].methods;
      MethodsApartIff(front);
      Concatenated(MethodKeys(front), KeysOf(last));
      if MethodsApart(cs) {
        forall i, a, j, b | MethodAt(front, i, a) && MethodAt(front, j, b) && (i != j || a != b)
          ensures front[i].methods[a].key != front[j].methods[b].key
        {
          assert MethodAt(cs, i, a) && MethodAt(cs, j, b);
        }
        forall a, b | 0 <= a < b < |last| ensures KeysOf(last)[a] != KeysOf(last)[b] {
          assert MethodAt(cs, n, a) && MethodAt(cs, n, b);
        }
        forall key | key in KeysOf(last) ensures key !in MethodKeys(front) {
          KeysAre(front, key);
          var b :| 0 <= b < |last| && last[b].key == key;
          assert MethodAt(cs, n, b);
          forall i, a | MethodAt(front, i, a) ensures front[i].methods[a].key != key { assert MethodAt(cs, i, a); }
        }
      }
      if NoRepeats(MethodKeys(cs)) {
        forall i, a, j, b | MethodAt(cs, i, a) && MethodAt(cs, j, b) && (i != j || a != b)
          ensures cs[i].methods[a].key != cs[j].methods[b].key
        {
          BothApart(cs, front, last, i, a, j, b);
        }
      }
    }
  }

  lemma BothApart(
    cs: seq<ClassIndex>, front: seq<ClassIndex>, last: seq<MethodIndex>, i: int, a: int, j: int, b: int)
    requires cs != [] && front == cs[..|cs| - 1] && last == cs[|cs| - 1].methods
    requires MethodAt(cs, i, a) && MethodAt(cs, j, b) && (i != j || a != b)
    requires MethodsApart(front) && NoRepeats(KeysOf(last))
    requires forall key | key in KeysOf(last) :: key !in MethodKeys(front)
    ensures cs[i].methods[a].key != cs[j].methods[b].key
  {
    var n := |cs| - 1;
    if i < n && j < n {
      assert MethodAt(front, i, a) && MethodAt(front, j, b);
    } else if i == n && j == n {
      assert KeysOf(last)[a] == last[a].key && KeysOf(last)[b] == last[b].key;
    } else if i < n {
      KeysAre(front, cs[i].methods[a].key);
      assert MethodAt(front, i, a) && KeysOf(last)[b] == last[b].key;
    } else {
      KeysAre(front, cs[j].methods[b].key);
      assert MethodAt(front, j, b) && KeysOf(last)[a] == last[a].key;
    }
  }

  lemma {:induction false} BytesAre(arts: seq<Artifact>)
    ensures TotalBytes(arts) == Bytes(arts)
  {
    if arts != [] { BytesAre(arts[..|arts| - 1]); }
  }

  lemma ChunksIff(arts: seq<Artifact>)
    ensures (forall i, j | 0 <= i < j < |arts| :: ChunksAgree(arts[i], arts[j])) && ChunksComplete(arts) <==> ChunkSets(arts)
  {
    forall i, k: nat | 0 <= i < |arts| && k < arts[i].chunk.count
      ensures HasChunk(arts, arts[i].chunk.setID, k) <==> IsThere(arts, arts[i].chunk.setID, k)
    {}
    if (forall i, j | 0 <= i < j < |arts| :: ChunksAgree(arts[i], arts[j])) && ChunksComplete(arts) {
      forall i, j | 0 <= i < |arts| && 0 <= j < |arts| && i != j && arts[i].chunk.setID == arts[j].chunk.setID
        ensures arts[i].chunk.count == arts[j].chunk.count && arts[i].chunk.index != arts[j].chunk.index
      {
        assert if i < j then ChunksAgree(arts[i], arts[j]) else ChunksAgree(arts[j], arts[i]);
      }
      forall i, k: nat | 0 <= i < |arts| && k < arts[i].chunk.count ensures IsThere(arts, arts[i].chunk.setID, k) {
        assert HasChunk(arts, arts[i].chunk.setID, k);
      }
    }
    if ChunkSets(arts) {
      forall i, k: nat | 0 <= i < |arts| && k < arts[i].chunk.count ensures HasChunk(arts, arts[i].chunk.setID, k) {
        assert IsThere(arts, arts[i].chunk.setID, k);
      }
    }
  }

  // ---------------------------------------------------------------- the contract

  ghost predicate ClassListRule(cs: seq<ClassIndex>, l: Limits) {
    && |cs| <= l.maxClasses && MethodCount(cs) <= l.maxMethods
    && (forall i | 0 <= i < |cs| :: ClassRule(cs[i]))
    && (forall i, j | 0 <= i < j < |cs| :: cs[i].key != cs[j].key) && MethodsApart(cs)
  }

  ghost predicate ArtifactListRule(arts: seq<Artifact>, l: Limits) {
    && |arts| <= l.maxArtifacts && Bytes(arts) <= l.maxArtifactBytes as int
    && (forall i | 0 <= i < |arts| :: ArtifactRule(arts[i], l))
    && (forall i, j | 0 <= i < j < |arts| :: arts[i].id != arts[j].id && arts[i].relativePath != arts[j].relativePath)
    && ChunkSets(arts)
  }

  /** Every error is about a listed class, and no error is listed twice. */
  ghost predicate ErrorListRule(es: seq<ClassError>, cs: seq<ClassIndex>, l: Limits) {
    && |es| <= l.maxClassErrors
    && (forall i | 0 <= i < |es| :: ErrorCode(es[i].code) && Said(es[i].message, 4096) && Lists(cs, es[i].classKey))
    && forall i, j | 0 <= i < j < |es| :: es[i] != es[j]
  }

  predicate Lists(cs: seq<ClassIndex>, key: string) { exists i | 0 <= i < |cs| :: cs[i].key == key }

  /** Classes and artifacts name each other. */
  ghost predicate Linked(cs: seq<ClassIndex>, arts: seq<Artifact>) {
    && (forall i, id | 0 <= i < |cs| && id in cs[i].artifactIDs ::
          exists j | 0 <= j < |arts| :: arts[j].id == id && cs[i].key in arts[j].classKeys)
    && forall j, key | 0 <= j < |arts| && key in arts[j].classKeys ::
          exists i | 0 <= i < |cs| :: cs[i].key == key && arts[j].id in cs[i].artifactIDs
  }

  /** A class with source has an understood source text, one with bytecode only has bytecode or
      an index, and one that failed or is not supported has an error. */
  predicate Proved(c: ClassIndex, arts: seq<Artifact>, es: seq<ClassError>) {
    && (c.status == ClassSource ==>
          exists j | 0 <= j < |arts| :: arts[j].id in c.artifactIDs && arts[j].kind == SourceText &&
              arts[j].validation == ContentVerified)
    && (c.status == ClassBytecodeOnly ==>
          exists j | 0 <= j < |arts| :: arts[j].id in c.artifactIDs && (arts[j].kind == Bytecode || arts[j].kind == Index))
    && (c.status == ClassFailed || c.status == ClassUnsupported ==> exists k | 0 <= k < |es| :: es[k].classKey == c.key)
  }

  /** Complete: every class has its source, without errors, and the engine ended well. Partial: a
      class failed or is not supported, or there is an error. Bytecode: no class has more, and
      there are neither errors nor source texts. Not supported: nothing at all. */
  predicate StatusRule(o: Output) {
    match o.status
    case Complete =>
      && o.classes != [] && (forall i | 0 <= i < |o.classes| :: o.classes[i].status == ClassSource) && o.classErrors == []
      && (o.execution.Some? ==> o.execution.value.exitCode == 0)
    case Partial =>
      && o.classes != []
      && (o.classErrors != [] ||
          exists i | 0 <= i < |o.classes| :: o.classes[i].status == ClassFailed || o.classes[i].status == ClassUnsupported)
    case AllBytecode =>
      && o.classes != [] && (forall i | 0 <= i < |o.classes| :: o.classes[i].status == ClassBytecodeOnly) && o.classErrors == []
      && forall j | 0 <= j < |o.artifacts| :: o.artifacts[j].kind != SourceText
    case NotSupported => o.classes == [] && o.artifacts == [] && o.classErrors == []
    case OtherStatus => false
  }

  ghost predicate OutputRule(o: Output, l: Limits) {
    && ClassListRule(o.classes, l) && ArtifactListRule(o.artifacts, l) && ErrorListRule(o.classErrors, o.classes, l)
    && (forall i | 0 <= i < |o.warnings| :: Said(o.warnings[i], 4096))
    && Linked(o.classes, o.artifacts)
    && (forall i | 0 <= i < |o.classes| :: Proved(o.classes[i], o.artifacts, o.classErrors))
    && StatusRule(o)
    && (o.execution.Some? ==>
          var e := o.execution.value; 0 <= e.exitCode && 0 <= e.durationMS && 0 <= e.outputBytes && 0 <= e.outputFiles)
  }

  lemma ClassListIff(cs: seq<ClassIndex>, l: Limits)
    ensures |cs| <= l.maxClasses && ClassesOk(cs, l) <==> ClassListRule(cs, l)
  {
    hide ClassShape, ClassRule, MethodKeys, MethodCount, MethodsApart;
    forall i | 0 <= i < |cs| ensures ClassShape(cs[i]) <==> ClassRule(cs[i]) { ClassIff(cs[i]); }
    CountIs(cs);
    MethodsApartIff(cs);
    var keys := ClassKeys(cs);
    assert forall i | 0 <= i < |cs| :: keys[i] == cs[i].key;
  }

  lemma ArtifactListIff(arts: seq<Artifact>, l: Limits)
    ensures |arts| <= l.maxArtifacts && ArtifactsOk(arts, l, true) <==> ArtifactListRule(arts, l)
  {
    hide ArtifactShape, ArtifactRule, ChunksAgree, ChunksComplete, ChunkSets, TotalBytes, Bytes;
    forall i | 0 <= i < |arts| ensures ArtifactShape(arts[i], l, true) <==> ArtifactRule(arts[i], l) { ArtifactIff(arts[i], l); }
    BytesAre(arts);
    ChunksIff(arts);
    var ids, paths := IDs(arts), Paths(arts);
    assert forall i | 0 <= i < |arts| :: ids[i] == arts[i].id && paths[i] == arts[i].relativePath;
  }

  lemma ErrorListIff(es: seq<ClassError>, cs: seq<ClassIndex>, l: Limits)
    ensures |es| <= l.maxClassErrors && ErrorsOk(es, cs) <==> ErrorListRule(es, cs, l)
  {
    hide Code, ErrorCode, Length;
    forall i | 0 <= i < |es| ensures ErrorShape(es[i], cs) <==>
      ErrorCode(es[i].code) && Said(es[i].message, 4096) && Lists(cs, es[i].classKey)
    {
      CodeIff(es[i].code);
      KeyListed(cs, es[i].classKey);
    }
  }

  lemma KeyListed(cs: seq<ClassIndex>, key: string)
    ensures key in ClassKeys(cs) <==> Lists(cs, key)
  {
    var keys := ClassKeys(cs);
    assert forall i | 0 <= i < |cs| :: keys[i] == cs[i].key;
  }

  lemma LinkedIff(cs: seq<ClassIndex>, arts: seq<Artifact>)
    ensures (forall i | 0 <= i < |cs| :: Answered(cs[i], arts)) && (forall i | 0 <= i < |arts| :: NamedBack(arts[i], cs)) <==>
            Linked(cs, arts)
  {
    if forall i | 0 <= i < |cs| :: Answered(cs[i], arts) {
      forall i, id | 0 <= i < |cs| && id in cs[i].artifactIDs
        ensures exists j | 0 <= j < |arts| :: arts[j].id == id && cs[i].key in arts[j].classKeys
      {
        assert Answered(cs[i], arts);
        assert Names(arts, id, cs[i].key);
      }
    }
    if forall i | 0 <= i < |arts| :: NamedBack(arts[i], cs) {
      forall j, key | 0 <= j < |arts| && key in arts[j].classKeys
        ensures exists i | 0 <= i < |cs| :: cs[i].key == key && arts[j].id in cs[i].artifactIDs
      {
        assert NamedBack(arts[j], cs);
        assert NamedBy(cs, key, arts[j].id);
      }
    }
  }

  lemma ProvedIff(c: ClassIndex, o: Output)
    ensures Evidence(c, o) <==> Proved(c, o.artifacts, o.classErrors)
  {}

  /** validateOutput accepts exactly the outputs that meet these rules. */
  lemma ContractIff(o: Output, l: Limits)
    ensures Contract(o, l) <==> OutputRule(o, l)
  {
    hide ClassesOk, ClassListRule, ArtifactsOk, ArtifactListRule, ErrorsOk, ErrorListRule, Answered, NamedBack, Linked,
         Evidence, Proved, Length;
    ClassListIff(o.classes, l);
    ArtifactListIff(o.artifacts, l);
    ErrorListIff(o.classErrors, o.classes, l);
    LinkedIff(o.classes, o.artifacts);
    forall i | 0 <= i < |o.classes| ensures Evidence(o.classes[i], o) <==> Proved(o.classes[i], o.artifacts, o.classErrors) {
      ProvedIff(o.classes[i], o);
    }
  }

  // ---------------------------------------------------------------- normal forms

  /** No text comes before an earlier one. */
  ghost predicate InOrder(texts: seq<string>) {
    forall i, j | 0 <= i < j < |texts| :: !Precedes(texts[j], texts[i])
  }

  /** By class, then by code, then by message. */
  ghost predicate ErrorBefore(a: ClassError, b: ClassError) {
    || Precedes(a.classKey, b.classKey)
    || (a.classKey == b.classKey && (Precedes(a.code, b.code) || (a.code == b.code && Precedes(a.message, b.message))))
  }

  ghost predicate OrderRule(o: Output) {
    && (forall i, j | 0 <= i < j < |o.classes| :: !Precedes(o.classes[j].key, o.classes[i].key))
    && (forall i, j | 0 <= i < j < |o.artifacts| :: !Precedes(o.artifacts[j].id, o.artifacts[i].id))
    && (forall i, j | 0 <= i < j < |o.classErrors| :: !ErrorBefore(o.classErrors[j], o.classErrors[i]))
    && InOrder(o.warnings)
    && (forall i | 0 <= i < |o.classes| :: InOrder(o.classes[i].artifactIDs) && MethodsInOrder(o.classes[i].methods))
    && forall i | 0 <= i < |o.artifacts| :: InOrder(o.artifacts[i].classKeys)
  }

  ghost predicate MethodsInOrder(ms: seq<MethodIndex>) {
    forall i, j | 0 <= i < j < |ms| :: !Precedes(ms[j].key, ms[i].key)
  }

  lemma EarlierOne(a: string, b: string)
    ensures Earlier([a], [b]) <==> Precedes(a, b)
  {
    hide Below, Precedes;
    PrecedesIff(a, b);
  }

  lemma EarlierError(a: ClassError, b: ClassError)
    ensures Earlier(ByError(a), ByError(b)) <==> ErrorBefore(a, b)
  {
    hide Below, Precedes;
    PrecedesIff(a.classKey, b.classKey);
    PrecedesIff(a.code, b.code);
    PrecedesIff(a.message, b.message);
    var x, y := ByError(a), ByError(b);
    assert Earlier(x, y) <==> Below(x[0], y[0]) || (x[0] == y[0] && Earlier(x[1..], y[1..]));
    assert Earlier(x[1..], y[1..]) <==> Below(x[1], y[1]) || (x[1] == y[1] && Earlier(x[1..][1..], y[1..][1..]));
    assert Earlier(x[1..][1..], y[1..][1..]) <==> Below(x[2], y[2]) || (x[2] == y[2] && Earlier(x[1..][1..][1..],
        y[1..][1..][1..]));
  }

  lemma SortedTexts(texts: seq<string>)
    ensures Sorted(texts, ByText) <==> InOrder(texts)
  {
    hide Earlier, Precedes;
    forall i, j | 0 <= i < j < |texts| ensures Earlier(ByText(texts[j]), ByText(texts[i])) <==> Precedes(texts[j], texts[i]) {
      EarlierOne(texts[j], texts[i]);
    }
  }

  lemma SortedMethods(ms: seq<MethodIndex>)
    ensures Sorted(ms, ByMethodKey) <==> MethodsInOrder(ms)
  {
    hide Earlier, Precedes;
    forall i, j | 0 <= i < j < |ms|
      ensures Earlier(ByMethodKey(ms[j]), ByMethodKey(ms[i])) <==> Precedes(ms[j].key, ms[i].key)
    {
      EarlierOne(ms[j].key, ms[i].key);
    }
  }

  /** A normal form has every list in this order. */
  lemma OrderIff(o: Output)
    ensures OrderedOutput(o) <==> OrderRule(o)
  {
    hide Earlier, Precedes, ErrorBefore, InOrder, MethodsInOrder;
    forall i, j | 0 <= i < j < |o.classes|
      ensures Earlier(ByClassKey(o.classes[j]), ByClassKey(o.classes[i])) <==> Precedes(o.classes[j].key, o.classes[i].key)
    {
      EarlierOne(o.classes[j].key, o.classes[i].key);
    }
    forall i, j | 0 <= i < j < |o.artifacts|
      ensures Earlier(ByID(o.artifacts[j]), ByID(o.artifacts[i])) <==> Precedes(o.artifacts[j].id, o.artifacts[i].id)
    {
      EarlierOne(o.artifacts[j].id, o.artifacts[i].id);
    }
    forall i, j | 0 <= i < j < |o.classErrors|
      ensures Earlier(ByError(o.classErrors[j]), ByError(o.classErrors[i])) <==> ErrorBefore(o.classErrors[j], o.classErrors[i])
    {
      EarlierError(o.classErrors[j], o.classErrors[i]);
    }
    OrderParts(o);
  }

  lemma OrderParts(o: Output)
    ensures Sorted(o.warnings, ByText) <==> InOrder(o.warnings)
    ensures (forall i | 0 <= i < |o.classes| :: ClassOrdered(o.classes[i])) <==>
      forall i | 0 <= i < |o.classes| :: InOrder(o.classes[i].artifactIDs) && MethodsInOrder(o.classes[i].methods)
    ensures (forall i | 0 <= i < |o.artifacts| :: ArtifactOrdered(o.artifacts[i])) <==>
      forall i | 0 <= i < |o.artifacts| :: InOrder(o.artifacts[i].classKeys)
  {
    hide Sorted, InOrder, MethodsInOrder;
    SortedTexts(o.warnings);
    forall i | 0 <= i < |o.classes| ensures ClassOrdered(o.classes[i]) <==>
      InOrder(o.classes[i].artifactIDs) && MethodsInOrder(o.classes[i].methods)
    {
      SortedTexts(o.classes[i].artifactIDs);
      SortedMethods(o.classes[i].methods);
    }
    forall i | 0 <= i < |o.artifacts| ensures ArtifactOrdered(o.artifacts[i]) <==> InOrder(o.artifacts[i].classKeys) {
      SortedTexts(o.artifacts[i].classKeys);
    }
  }
}
