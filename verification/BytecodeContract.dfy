/** The result contract of a bytecode engine: a graph of classes and artifacts that point
    at each other, chunk sets, errors and a status. The checks run over maps, sets and
    counters; each is proved to accept exactly what its declaration says. */
module BytecodeContract {
  import opened Counting
  import opened Words
  import opened Texts

  // ---------------------------------------------------------------- results

  datatype Status = Complete | Partial | AllBytecode | NotSupported | OtherStatus
  datatype ClassKind = KindClass | KindModule | OtherKind
  datatype ClassStatus = ClassSource | ClassBytecodeOnly | ClassFailed | ClassUnsupported | OtherClassStatus
  datatype ArtifactKind = SourceText | Bytecode | Index | Diagnostics | OtherArtifact
  datatype Validation = Unvalidated | HashVerified | ContentVerified

  datatype SourceRange = SourceRange(startLine: nat, endLine: nat)
  datatype BytecodeRange = BytecodeRange(offset: nat, size: nat)

  datatype MethodIndex = MethodIndex(
    key: string, name: string, qualifiedName: string, descriptor: string, signature: string,
    source: Option<SourceRange>, bytecode: Option<BytecodeRange>)

  datatype ClassIndex = ClassIndex(
    key: string, kind: ClassKind, binaryName: string, displayName: string, sourceFile: string,
    language: string, status: ClassStatus, artifactIDs: seq<string>, methods: seq<MethodIndex>)

  datatype Chunk = Chunk(setID: string, index: nat, count: nat)

  datatype Artifact = Artifact(
    id: string, kind: ArtifactKind, mediaType: string, relativePath: string, sha256: string,
    sizeBytes: int64, validation: Validation, chunk: Chunk, classKeys: seq<string>)

  datatype ClassError = ClassError(classKey: string, code: string, message: string)

  datatype Execution = Execution(exitCode: int, durationMS: int, outputBytes: int, outputFiles: int)

  datatype Output = Output(
    status: Status, classes: seq<ClassIndex>, artifacts: seq<Artifact>,
    classErrors: seq<ClassError>, warnings: seq<string>, execution: Option<Execution>)

  datatype Limits = Limits(
    maxClasses: nat, maxMethods: nat, maxArtifacts: nat, maxArtifactBytes: int64, maxClassErrors: nat)

  const MAX_CLASSES := 20_000
  const MAX_METHODS := 200_000
  const MAX_ARTIFACTS := 3_000
  const MAX_ARTIFACT_BYTES: int64 := 0x800_0000
  const MAX_CLASS_ERRORS := 3_000

  /** Limits as normalizeLimits leaves them. */
  predicate Normalized(l: Limits) {
    && 0 < l.maxClasses <= MAX_CLASSES && 0 < l.maxMethods <= MAX_METHODS
    && 0 < l.maxArtifacts <= MAX_ARTIFACTS && 0 < l.maxArtifactBytes <= MAX_ARTIFACT_BYTES
    && 0 < l.maxClassErrors <= MAX_CLASS_ERRORS
  }

  // ---------------------------------------------------------------- the contract

  predicate SortedUnique(values: seq<string>) {
    && (forall i | 0 <= i < |values| :: Identifier(values[i]))
    && (forall i | 0 < i < |values| :: Below(values[i - 1], values[i]))
  }

  predicate MethodShape(m: MethodIndex) {
    && Identifier(m.key) && ValidText(m.name, 1024)
    && (m.qualifiedName != "" ==> ValidText(m.qualifiedName, 4096))
    && (m.descriptor != "" ==> ValidText(m.descriptor, 4096))
    && (m.signature != "" ==> ValidText(m.signature, 4096))
    && (m.source.Some? ==> 0 < m.source.value.startLine <= m.source.value.endLine)
    && (m.bytecode.Some? ==> m.bytecode.value.size != 0)
  }

  predicate ClassHead(c: ClassIndex) {
    && Identifier(c.key) && c.kind != OtherKind
    && ValidText(c.binaryName, 2048) && ValidText(c.displayName, 2048) && ValidText(c.language, 64)
    && (c.sourceFile != "" ==> RelativePath(c.sourceFile))
    && c.status != OtherClassStatus && SortedUnique(c.artifactIDs)
  }

  predicate ClassShape(c: ClassIndex) {
    ClassHead(c) && forall i | 0 <= i < |c.methods| :: MethodShape(c.methods[i])
  }

  predicate ArtifactShape(a: Artifact, l: Limits, checked: bool) {
    && Identifier(a.id) && Identifier(a.chunk.setID) && a.kind != OtherArtifact
    && MediaType(a.mediaType) && RelativePath(a.relativePath) && Digest(a.sha256)
    && a.sizeBytes > 0 && a.chunk.index < a.chunk.count <= l.maxArtifacts
    && SortedUnique(a.classKeys)
    && (checked ==> a.validation != Unvalidated)
    && (checked && a.kind == SourceText ==> a.validation == ContentVerified)
  }

  predicate NoRepeats<T(==)>(s: seq<T>) { forall i, j | 0 <= i < j < |s| :: s[i] != s[j] }

  function ClassKeys(cs: seq<ClassIndex>): seq<string> { seq(|cs|, i requires 0 <= i < |cs| => cs[i].key) }

  function IDs(arts: seq<Artifact>): seq<string> { seq(|arts|, i requires 0 <= i < |arts| => arts[i].id) }

  function Paths(arts: seq<Artifact>): seq<string> { seq(|arts|, i requires 0 <= i < |arts| => arts[i].relativePath) }

  function KeysOf(ms: seq<MethodIndex>): seq<string> { seq(|ms|, i requires 0 <= i < |ms| => ms[i].key) }

  /** The keys of all methods of all classes. */
  function MethodKeys(cs: seq<ClassIndex>): seq<string> {
    if cs == [] then [] else MethodKeys(cs[..|cs| - 1]) + KeysOf(cs[|cs| - 1].methods)
  }

  function TotalBytes(arts: seq<Artifact>): int {
    if arts == [] then 0 else TotalBytes(arts[..|arts| - 1]) + arts[|arts| - 1].sizeBytes as int
  }

  /** Chunks of one set agree on how many there are, and no two have one place. */
  predicate ChunksAgree(a: Artifact, b: Artifact) {
    a.chunk.setID == b.chunk.setID ==> a.chunk.count == b.chunk.count && a.chunk.index != b.chunk.index
  }

  predicate HasChunk(arts: seq<Artifact>, setID: string, k: nat) {
    exists i | 0 <= i < |arts| :: arts[i].chunk.setID == setID && arts[i].chunk.index == k
  }

  /** Every chunk set has exactly the places 0 up to its count. */
  predicate ChunksComplete(arts: seq<Artifact>) {
    forall i, k: nat | 0 <= i < |arts| && k < arts[i].chunk.count :: HasChunk(arts, arts[i].chunk.setID, k)
  }

  predicate ArtifactsOk(arts: seq<Artifact>, l: Limits, checked: bool) {
    && (forall i | 0 <= i < |arts| :: ArtifactShape(arts[i], l, checked))
    && NoRepeats(IDs(arts)) && NoRepeats(Paths(arts))
    && TotalBytes(arts) <= l.maxArtifactBytes as int
    && (forall i, j | 0 <= i < j < |arts| :: ChunksAgree(arts[i], arts[j]))
    && ChunksComplete(arts)
  }

  predicate ClassesOk(cs: seq<ClassIndex>, l: Limits) {
    && (forall i | 0 <= i < |cs| :: ClassShape(cs[i]))
    && NoRepeats(ClassKeys(cs))
    && |MethodKeys(cs)| <= l.maxMethods && NoRepeats(MethodKeys(cs))
  }

  predicate ErrorsOk(es: seq<ClassError>, cs: seq<ClassIndex>) {
    (forall i | 0 <= i < |es| :: ErrorShape(es[i], cs)) && NoRepeats(es)
  }

  /** An error that a list of errors may hold. */
  predicate ErrorShape(e: ClassError, cs: seq<ClassIndex>) {
    e.classKey in ClassKeys(cs) && Code(e.code) && ValidText(e.message, 4096)
  }

  predicate WarningsOk(ws: seq<string>) { forall i | 0 <= i < |ws| :: ValidText(ws[i], 4096) }

  predicate ExecutionOk(e: Option<Execution>) {
    e.Some? ==>
      e.value.exitCode >= 0 && e.value.durationMS >= 0 && e.value.outputBytes >= 0 && e.value.outputFiles >= 0
  }

  predicate CountsOk(o: Output, l: Limits) {
    |o.classes| <= l.maxClasses && |o.artifacts| <= l.maxArtifacts && |o.classErrors| <= l.maxClassErrors
  }

  predicate Empty(o: Output) { o.classes == [] && o.artifacts == [] && o.classErrors == [] }

  /** What a structure has to satisfy before its artifacts are looked at. */
  predicate Structure(o: Output, l: Limits, checked: bool) {
    && CountsOk(o, l) && o.status != OtherStatus && ExecutionOk(o.execution)
    && (o.status == NotSupported ==> Empty(o))
    && (o.status != NotSupported ==> o.classes != [])
    && ClassesOk(o.classes, l) && ArtifactsOk(o.artifacts, l, checked)
    && ErrorsOk(o.classErrors, o.classes) && WarningsOk(o.warnings)
  }

  /** A class that names an artifact is named by it. */
  predicate Answered(c: ClassIndex, arts: seq<Artifact>) {
    forall id | id in c.artifactIDs :: Names(arts, id, c.key)
  }

  predicate Names(arts: seq<Artifact>, id: string, key: string) {
    exists i | 0 <= i < |arts| :: arts[i].id == id && key in arts[i].classKeys
  }

  /** An artifact that names a class is named by it. */
  predicate NamedBack(a: Artifact, cs: seq<ClassIndex>) {
    forall key | key in a.classKeys :: NamedBy(cs, key, a.id)
  }

  predicate NamedBy(cs: seq<ClassIndex>, key: string, id: string) {
    exists i | 0 <= i < |cs| :: cs[i].key == key && id in cs[i].artifactIDs
  }

  predicate HasValidated(c: ClassIndex, arts: seq<Artifact>, kind: ArtifactKind, v: Validation) {
    exists i | 0 <= i < |arts| :: arts[i].id in c.artifactIDs && arts[i].kind == kind && arts[i].validation == v
  }

  predicate HasBytecode(c: ClassIndex, arts: seq<Artifact>) {
    exists i | 0 <= i < |arts| ::
      arts[i].id in c.artifactIDs && (arts[i].kind == Bytecode || arts[i].kind == Index)
  }

  predicate Failing(c: ClassIndex) { c.status == ClassFailed || c.status == ClassUnsupported }

  /** A class has the evidence that its status claims. */
  predicate Evidence(c: ClassIndex, o: Output) {
    && (c.status == ClassSource ==> HasValidated(c, o.artifacts, SourceText, ContentVerified))
    && (c.status == ClassBytecodeOnly ==> HasBytecode(c, o.artifacts))
    && (Failing(c) ==> HasError(o.classErrors, c.key))
  }

  predicate HasError(es: seq<ClassError>, key: string) {
    exists i | 0 <= i < |es| :: es[i].classKey == key
  }

  predicate StatusOk(o: Output) {
    match o.status
    case Complete =>
      && (forall i | 0 <= i < |o.classes| :: o.classes[i].status == ClassSource)
      && o.classErrors == [] && (o.execution.Some? ==> o.execution.value.exitCode == 0)
    case Partial =>
      (exists i | 0 <= i < |o.classes| :: Failing(o.classes[i])) || o.classErrors != []
    case AllBytecode =>
      && (forall i | 0 <= i < |o.classes| :: o.classes[i].status == ClassBytecodeOnly)
      && o.classErrors == [] && (forall i | 0 <= i < |o.artifacts| :: o.artifacts[i].kind != SourceText)
    case _ => true
  }

  /** The contract: what validateOutput accepts. */
  predicate Contract(o: Output, l: Limits) {
    && Structure(o, l, true)
    && (forall i | 0 <= i < |o.classes| :: Answered(o.classes[i], o.artifacts))
    && (forall i | 0 <= i < |o.artifacts| :: NamedBack(o.artifacts[i], o.classes))
    && (forall i | 0 <= i < |o.classes| :: Evidence(o.classes[i], o))
    && StatusOk(o)
  }

  // ---------------------------------------------------------------- sorted lists

  /** sortedUnique */
  method IsSortedUnique(values: seq<string>) returns (ok: bool)
    ensures ok <==> SortedUnique(values)
  {
    var i := 0;
    while i < |values|
      invariant 0 <= i <= |values|
      invariant forall j | 0 <= j < i :: Identifier(values[j])
      invariant forall j | 0 < j < i :: Below(values[j - 1], values[j])
    {
      if !Identifier(values[i]) || (i > 0 && !Below(values[i - 1], values[i])) { return false; }
      i := i + 1;
    }
    return true;
  }

  lemma {:induction false} Ascending(values: seq<string>, i: nat, j: nat)
    requires SortedUnique(values) && i < j < |values|
    ensures Below(values[i], values[j])
    decreases j - i
  {
    if i + 1 < j {
      Ascending(values, i, j - 1);
      BelowTransitive(values[i], values[j - 1], values[j]);
    }
  }

  /** containsSorted: a binary search that stops at the first value not below the target. */
  method ContainsSorted(values: seq<string>, target: string) returns (found: bool)
    requires SortedUnique(values)
    ensures found <==> target in values
  {
    var low, high := 0, |values|;
    while low < high
      invariant 0 <= low <= high <= |values|
      invariant forall i | 0 <= i < low :: Below(values[i], target)
      invariant forall i | high <= i < |values| :: !Below(values[i], target)
    {
      var middle := (low + high) / 2;
      if Below(values[middle], target) {
        forall i | low <= i < middle ensures Below(values[i], target) {
          Ascending(values, i, middle);
          BelowTransitive(values[i], values[middle], target);
        }
        low := middle + 1;
      } else {
        forall i | middle < i < high ensures !Below(values[i], target) {
          Ascending(values, middle, i);
          if Below(values[i], target) { BelowTransitive(values[middle], values[i], target); }
        }
        high := middle;
      }
    }
    found := low < |values| && values[low] == target;
    if !found && target in values {
      var k :| 0 <= k < |values| && values[k] == target;
      BelowOrders(target, target);
      assert k > low;
      Ascending(values, low, k);
    }
  }

  // ---------------------------------------------------------------- classes

  /** validateClass */
  method ValidateClass(c: ClassIndex) returns (ok: bool)
    ensures ok <==> ClassShape(c)
  {
    var sorted := IsSortedUnique(c.artifactIDs);
    if !Identifier(c.key) || c.kind == OtherKind || !ValidText(c.binaryName, 2048) ||
       !ValidText(c.displayName, 2048) || !ValidText(c.language, 64) ||
       (c.sourceFile != "" && !RelativePath(c.sourceFile)) || c.status == OtherClassStatus || !sorted
    {
      return false;
    }
    var i := 0;
    while i < |c.methods|
      invariant 0 <= i <= |c.methods|
      invariant forall j | 0 <= j < i :: MethodShape(c.methods[j])
    {
      var m := c.methods[i];
      if !Identifier(m.key) || !ValidText(m.name, 1024) ||
         (m.qualifiedName != "" && !ValidText(m.qualifiedName, 4096)) ||
         (m.descriptor != "" && !ValidText(m.descriptor, 4096)) ||
         (m.signature != "" && !ValidText(m.signature, 4096))
      {
        return false;
      }
      if m.source.Some? && (m.source.value.startLine == 0 || m.source.value.endLine < m.source.value.startLine) {
        return false;
      }
      if m.bytecode.Some? && m.bytecode.value.size == 0 { return false; }
      i := i + 1;
    }
    return true;
  }

  lemma {:induction false} MethodKeysGrow(cs: seq<ClassIndex>, n: nat)
    requires n <= |cs|
    ensures MethodKeys(cs[..n]) <= MethodKeys(cs)
    decreases |cs| - n
  {
    if n < |cs| {
      assert cs[..n + 1][..n] == cs[..n];
      MethodKeysGrow(cs, n + 1);
    } else {
      assert cs[..n] == cs;
    }
  }

  lemma RepeatsStay<T>(s: seq<T>, all: seq<T>)
    requires s <= all && !NoRepeats(s)
    ensures !NoRepeats(all)
  {
    var i, j :| 0 <= i < j < |s| && s[i] == s[j];
    assert all[i] == all[j];
  }

  lemma Appended<T>(s: seq<T>, x: T)
    requires NoRepeats(s)
    ensures NoRepeats(s + [x]) <==> x !in s
  {
    var all := s + [x];
    if x in s {
      var i :| 0 <= i < |s| && s[i] == x;
      assert all[i] == all[|s|];
    }
  }

  /** The methods of one class: no key was seen before. */
  method AddMethodKeys(ms: seq<MethodIndex>, seen: set<string>, ghost before: seq<string>)
    returns (ok: bool, now: set<string>)
    requires NoRepeats(before) && forall k :: k in seen <==> k in before
    ensures ok <==> NoRepeats(before + KeysOf(ms))
    ensures ok ==> forall k :: k in now <==> k in before + KeysOf(ms)
  {
    now := seen;
    var i := 0;
    ghost var keys := KeysOf(ms);
    while i < |ms|
      invariant 0 <= i <= |ms|
      invariant NoRepeats(before + keys[..i])
      invariant forall k :: k in now <==> k in before + keys[..i]
    {
      assert before + keys[..i + 1] == before + keys[..i] + [ms[i].key];
      Appended(before + keys[..i], ms[i].key);
      if ms[i].key in now {
        RepeatsStay(before + keys[..i + 1], before + keys);
        return false, now;
      }
      now := now + {ms[i].key};
      i := i + 1;
    }
    assert keys[..|ms|] == keys;
    return true, now;
  }

  lemma OneMoreKey(cs: seq<ClassIndex>, n: nat)
    requires n < |cs|
    ensures ClassKeys(cs[..n + 1]) == ClassKeys(cs[..n]) + [cs[n].key]
    ensures ClassKeys(cs[..n + 1]) <= ClassKeys(cs)
  {}

  lemma OneMoreClass(cs: seq<ClassIndex>, n: nat)
    requires n < |cs|
    ensures MethodKeys(cs[..n + 1]) == MethodKeys(cs[..n]) + KeysOf(cs[n].methods)
    ensures MethodKeys(cs[..n + 1]) <= MethodKeys(cs)
  {
    assert cs[..n + 1][..n] == cs[..n];
    MethodKeysGrow(cs, n + 1);
  }

  /** The map holds each class under its key. */
  ghost predicate IndexedByKey(byKey: map<string, ClassIndex>, cs: seq<ClassIndex>) {
    && (forall k :: k in byKey <==> k in ClassKeys(cs))
    && (forall k | k in byKey :: byKey[k] in cs && byKey[k].key == k)
  }

  lemma IndexTells(byKey: map<string, ClassIndex>, cs: seq<ClassIndex>, k: string)
    requires IndexedByKey(byKey, cs)
    ensures k in byKey <==> k in ClassKeys(cs)
  {}

  lemma IndexGrows(byKey: map<string, ClassIndex>, cs: seq<ClassIndex>, n: nat)
    requires n < |cs| && IndexedByKey(byKey, cs[..n])
    ensures IndexedByKey(byKey[cs[n].key := cs[n]], cs[..n + 1])
  {
    OneMoreKey(cs, n);
    assert cs[..n + 1] == cs[..n] + [cs[n]];
  }

  /** The pass over the classes: their shapes, keys and methods. */
  method ValidateClasses(cs: seq<ClassIndex>, l: Limits) returns (ok: bool, byKey: map<string, ClassIndex>)
    ensures ok <==> ClassesOk(cs, l)
    ensures ok ==> IndexedByKey(byKey, cs)
  {
    assert MethodKeys(cs[..0]) == [];
    assert IndexedByKey(map[], cs[..0]);
    hide ClassShape, MethodKeys, ClassKeys, KeysOf, IndexedByKey;
    byKey := map[];
    var seen: set<string> := {};
    var count, i := 0, 0;
    while i < |cs|
      invariant 0 <= i <= |cs| && count == |MethodKeys(cs[..i])| <= l.maxMethods
      invariant forall j | 0 <= j < i :: ClassShape(cs[j])
      invariant NoRepeats(ClassKeys(cs[..i])) && NoRepeats(MethodKeys(cs[..i]))
      invariant IndexedByKey(byKey, cs[..i])
      invariant forall k :: k in seen <==> k in MethodKeys(cs[..i])
    {
      OneMoreKey(cs, i);
      OneMoreClass(cs, i);
      Appended(ClassKeys(cs[..i]), cs[i].key);
      IndexTells(byKey, cs[..i], cs[i].key);
      if cs[i].key in byKey {
        RepeatsStay(ClassKeys(cs[..i + 1]), ClassKeys(cs));
        return false, byKey;
      }
      var shape := ValidateClass(cs[i]);
      if !shape { return false, byKey; }
      count := count + |cs[i].methods|;
      if count > l.maxMethods { return false, byKey; }
      var fits;
      fits, seen := AddMethodKeys(cs[i].methods, seen, MethodKeys(cs[..i]));
      if !fits {
        RepeatsStay(MethodKeys(cs[..i + 1]), MethodKeys(cs));
        return false, byKey;
      }
      IndexGrows(byKey, cs, i);
      byKey := byKey[cs[i].key := cs[i]];
      i := i + 1;
    }
    assert cs[..|cs|] == cs;
    return true, byKey;
  }
}
