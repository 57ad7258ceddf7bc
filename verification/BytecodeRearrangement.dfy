/** The contract does not depend on order: what keeps it in the order an engine lists
    things also keeps it once it is normalised. */
module BytecodeRearrangement {
  import opened Texts
  import opened BytecodeContract
  import opened BytecodeNormalization

  /** The same class, but for the order of its methods. */
  ghost predicate Match(c: ClassIndex, d: ClassIndex) {
    c == d.(methods := c.methods) && multiset(c.methods) == multiset(d.methods)
  }

  /** The same output, but for the order of everything outside the sorted lists of names. */
  ghost predicate Rearranged(o: Output, n: Output) {
    && n.status == o.status && n.execution == o.execution
    && multiset(n.artifacts) == multiset(o.artifacts) && multiset(n.classErrors) == multiset(o.classErrors)
    && multiset(n.warnings) == multiset(o.warnings) && multiset(Classes(n.classes)) == multiset(Classes(o.classes))
    && (forall c | c in n.classes :: exists d | d in o.classes :: Match(c, d))
    && (forall d | d in o.classes :: exists c | c in n.classes :: Match(c, d))
  }

  // ---------------------------------------------------------------- from normal form

  lemma {:induction false} AscendingIsSorted(values: seq<string>)
    requires SortedUnique(values)
    ensures Sorted(values, ByText)
  {
    forall i, j | 0 <= i < j < |values| ensures !Earlier(ByText(values[j]), ByText(values[i])) {
      Ascending(values, i, j);
      BelowOrders(values[i], values[j]);
    }
  }

  lemma {:induction false} MatchByContents(c: ClassIndex, d: ClassIndex)
    requires ClassContents(c) == ClassContents(d) && ClassOrdered(c) && SortedUnique(d.artifactIDs)
    ensures Match(c, d)
  {
    AscendingIsSorted(d.artifactIDs);
    SortedUniquely(c.artifactIDs, d.artifactIDs, ByText);
    assert c == ClassContents(c).plain.(artifactIDs := c.artifactIDs, methods := c.methods);
    assert d == ClassContents(d).plain.(artifactIDs := d.artifactIDs, methods := d.methods);
  }

  lemma {:induction false} ClassesMatch(o: Output, n: Output)
    requires multiset(Classes(n.classes)) == multiset(Classes(o.classes))
    requires forall i | 0 <= i < |n.classes| :: ClassOrdered(n.classes[i])
    requires forall i | 0 <= i < |o.classes| :: SortedUnique(o.classes[i].artifactIDs)
    ensures forall c | c in n.classes :: exists d | d in o.classes :: Match(c, d)
    ensures forall d | d in o.classes :: exists c | c in n.classes :: Match(c, d)
  {
    hide ClassOrdered, SortedUnique, ClassContents, Match;
    var cs, ds := Classes(n.classes), Classes(o.classes);
    SameElements(cs, ds);
    forall c | c in n.classes ensures exists d | d in o.classes :: Match(c, d) {
      var i :| 0 <= i < |n.classes| && n.classes[i] == c;
      assert cs[i] in ds;
      var j :| 0 <= j < |ds| && ds[j] == cs[i];
      MatchByContents(c, o.classes[j]);
    }
    forall d | d in o.classes ensures exists c | c in n.classes :: Match(c, d) {
      var j :| 0 <= j < |o.classes| && o.classes[j] == d;
      assert ds[j] in cs;
      var i :| 0 <= i < |cs| && cs[i] == ds[j];
      MatchByContents(n.classes[i], d);
    }
  }

  lemma {:induction false} ArtifactByContents(a: Artifact, b: Artifact)
    requires ArtifactContents(a) == ArtifactContents(b) && ArtifactOrdered(a) && SortedUnique(b.classKeys)
    ensures a == b
  {
    AscendingIsSorted(b.classKeys);
    SameArtifact(a, b);
  }

  /** Artifacts whose names are sorted already are only moved. */
  lemma {:induction false} ArtifactsMatch(arts: seq<Artifact>, others: seq<Artifact>)
    requires multiset(Artifacts(arts)) == multiset(Artifacts(others))
    requires forall i | 0 <= i < |arts| :: ArtifactOrdered(arts[i])
    requires forall i | 0 <= i < |others| :: SortedUnique(others[i].classKeys)
    ensures multiset(arts) == multiset(others)
  {
    hide ArtifactOrdered, SortedUnique, ArtifactContents;
    var cs, ds := Artifacts(arts), Artifacts(others);
    assert |arts| == |cs| == |multiset(cs)| == |multiset(ds)| == |ds| == |others|;
    if arts != [] {
      assert cs[0] in multiset(ds);
      var j :| 0 <= j < |ds| && ds[j] == cs[0];
      ArtifactByContents(arts[0], others[j]);
      var rest := others[..j] + others[j + 1..];
      Remove(arts);
      Remove(cs);
      TakeOut(others, j);
      TakeOut(ds, j);
      Cancel(multiset(cs[1..]), multiset(ds[..j] + ds[j + 1..]), cs[0]);
      assert Artifacts(arts[1..]) == cs[1..] && Artifacts(rest) == ds[..j] + ds[j + 1..];
      ArtifactsMatch(arts[1..], rest);
    }
  }

  function Judge(validator: Artifact -> Validation, a: Artifact): Artifact {
    a.(validation := validator(a.(validation := Unvalidated)))
  }

  /** A normal form, judged, is the output, judged, in another order. */
  lemma {:induction false} NormalIsRearranged(o: Output, n: Output, validator: Artifact -> Validation, l: Limits)
    requires NormalForm(o, n) && Contract(Judged(o, validator), l)
    ensures Rearranged(Judged(o, validator), Judged(n, validator))
  {
    hide ClassOrdered, ArtifactOrdered, Classes, Artifacts, Match, Sorted, StatusOk, Evidence, Answered, NamedBack,
         MethodKeys, TotalBytes, ChunksComplete;
    var p, m := Judged(o, validator), Judged(n, validator);
    forall i | 0 <= i < |o.classes| ensures SortedUnique(o.classes[i].artifactIDs) {
      assert ClassShape(p.classes[i]);
    }
    ClassesMatch(o, n);
    forall i | 0 <= i < |o.artifacts| ensures SortedUnique(o.artifacts[i].classKeys) {
      assert ArtifactShape(p.artifacts[i], l, true);
    }
    ArtifactsMatch(n.artifacts, o.artifacts);
    var f := a => Judge(validator, a);
    MapKeepsContents(n.artifacts, o.artifacts, f);
    assert Map(n.artifacts, f) == m.artifacts && Map(o.artifacts, f) == p.artifacts;
  }

  /** Every class has its match, in both directions. */
  lemma {:induction false} MatchOf(o: Output, n: Output, i: nat) returns (j: nat)
    requires Rearranged(o, n) && i < |n.classes|
    ensures j < |o.classes| && Match(n.classes[i], o.classes[j])
  {
    hide Match, Classes, Artifacts;
    assert n.classes[i] in n.classes;
    var d :| d in o.classes && Match(n.classes[i], d);
    j :| 0 <= j < |o.classes| && o.classes[j] == d;
  }

  lemma {:induction false} MatchFor(o: Output, n: Output, j: nat) returns (i: nat)
    requires Rearranged(o, n) && j < |o.classes|
    ensures i < |n.classes| && Match(n.classes[i], o.classes[j])
  {
    hide Match, Classes, Artifacts;
    assert o.classes[j] in o.classes;
    var c :| c in n.classes && Match(c, o.classes[j]);
    i :| 0 <= i < |n.classes| && n.classes[i] == c;
  }

  // ---------------------------------------------------------------- parts of the contract

  lemma {:induction false} Members(o: Output, n: Output)
    requires Rearranged(o, n)
    ensures forall a :: a in n.artifacts <==> a in o.artifacts
    ensures forall e :: e in n.classErrors <==> e in o.classErrors
    ensures forall w :: w in n.warnings <==> w in o.warnings
    ensures |n.artifacts| == |o.artifacts| && |n.classErrors| == |o.classErrors| && |n.classes| == |o.classes|
  {
    SameElements(n.artifacts, o.artifacts);
    SameElements(n.classErrors, o.classErrors);
    SameElements(n.warnings, o.warnings);
    assert |n.artifacts| == |multiset(n.artifacts)| && |o.artifacts| == |multiset(o.artifacts)|;
    assert |n.classErrors| == |multiset(n.classErrors)| && |o.classErrors| == |multiset(o.classErrors)|;
    assert |n.classes| == |multiset(Classes(n.classes))| && |o.classes| == |multiset(Classes(o.classes))|;
  }

  /** The keys of all methods, in whatever order. */
  lemma {:induction false} MethodKeysMove(cs: seq<ClassIndex>, ds: seq<ClassIndex>)
    requires multiset(Classes(cs)) == multiset(Classes(ds))
    ensures multiset(MethodKeys(cs)) == multiset(MethodKeys(ds))
  {
    hide ClassContents, KeysOf;
    var a, b := Classes(cs), Classes(ds);
    assert |cs| == |multiset(a)| == |multiset(b)| == |ds|;
    if cs != [] {
      var c := cs[|cs| - 1];
      assert a[|cs| - 1] in multiset(b);
      var j :| 0 <= j < |b| && b[j] == a[|cs| - 1];
      var front, rest := cs[..|cs| - 1], ds[..j] + ds[j + 1..];
      TakeOut(a, |cs| - 1);
      assert a[..|cs| - 1] + a[|cs|..] == Classes(front);
      TakeOut(b, j);
      assert b[..j] + b[j + 1..] == Classes(rest);
      Cancel(multiset(Classes(front)), multiset(Classes(rest)), a[|cs| - 1]);
      MethodKeysMove(front, rest);
      MethodKeysTakeOut(ds, j);
      OwnKeysMove(c, ds[j]);
    }
  }

  lemma {:induction false} OwnKeysMove(c: ClassIndex, d: ClassIndex)
    requires ClassContents(c) == ClassContents(d)
    ensures multiset(KeysOf(c.methods)) == multiset(KeysOf(d.methods))
  {
    var f := (m: MethodIndex) => m.key;
    MapKeepsContents(c.methods, d.methods, f);
    assert Map(c.methods, f) == KeysOf(c.methods) && Map(d.methods, f) == KeysOf(d.methods);
  }

  lemma {:induction false} MethodKeysTakeOut(ds: seq<ClassIndex>, j: nat)
    requires j < |ds|
    ensures multiset(MethodKeys(ds)) == multiset(MethodKeys(ds[..j] + ds[j + 1..])) + multiset(KeysOf(ds[j].methods))
  {
    hide KeysOf;
    var rest := ds[..j] + ds[j + 1..];
    if j == |ds| - 1 {
      assert rest == ds[..j];
    } else {
      var front := ds[..|ds| - 1];
      MethodKeysTakeOut(front, j);
      assert rest[..|rest| - 1] == front[..j] + front[j + 1..] && rest[|rest| - 1] == ds[|ds| - 1];
    }
  }

  lemma {:induction false} NoRepeatsMove<T>(a: seq<T>, b: seq<T>)
    requires NoRepeats(a) && multiset(a) == multiset(b)
    ensures NoRepeats(b)
  {
    forall i, j | 0 <= i < j < |b| ensures b[i] != b[j] {
      Multiplicity(b, b[i]);
      Multiplicity(a, b[i]);
    }
  }

  lemma {:induction false} ClassesStayOk(o: Output, n: Output, l: Limits)
    requires Rearranged(o, n) && ClassesOk(o.classes, l)
    ensures ClassesOk(n.classes, l)
  {
    hide ClassHead, MethodShape, MethodKeys, Match;
    forall i | 0 <= i < |n.classes| ensures ClassShape(n.classes[i]) {
      var j := MatchOf(o, n, i);
      MatchedShape(n.classes[i], o.classes[j]);
    }
    MethodKeysMove(n.classes, o.classes);
    NoRepeatsMove(MethodKeys(o.classes), MethodKeys(n.classes));
    assert |MethodKeys(n.classes)| == |multiset(MethodKeys(n.classes))|;
    assert |MethodKeys(o.classes)| == |multiset(MethodKeys(o.classes))|;
    ClassKeysTell(o.classes);
    StillDistinct(Classes(o.classes), Classes(n.classes), BagKey);
    forall i, j | 0 <= i < j < |n.classes| ensures ClassKeys(n.classes)[i] != ClassKeys(n.classes)[j] {
      assert BagKey(Classes(n.classes)[i]) != BagKey(Classes(n.classes)[j]);
    }
  }

  lemma {:induction false} MatchedShape(c: ClassIndex, d: ClassIndex)
    requires Match(c, d) && ClassShape(d)
    ensures ClassShape(c)
  {
    hide MethodShape;
    SameElements(c.methods, d.methods);
    forall i | 0 <= i < |c.methods| ensures MethodShape(c.methods[i]) {
      assert c.methods[i] in d.methods;
    }
    assert ClassHead(c) == ClassHead(d);
  }

  lemma {:induction false} TotalMoves(a: seq<Artifact>, b: seq<Artifact>)
    requires multiset(a) == multiset(b)
    ensures TotalBytes(a) == TotalBytes(b)
  {
    assert |a| == |multiset(a)| == |multiset(b)| == |b|;
    if a != [] {
      var last := |a| - 1;
      assert a[last] in multiset(b);
      var j :| 0 <= j < |b| && b[j] == a[last];
      TakeOut(a, last);
      assert a[..last] + a[last + 1..] == a[..last];
      TakeOut(b, j);
      Cancel(multiset(a[..last]), multiset(b[..j] + b[j + 1..]), a[last]);
      TotalMoves(a[..last], b[..j] + b[j + 1..]);
      TotalTakeOut(b, j);
    }
  }

  lemma {:induction false} TotalTakeOut(b: seq<Artifact>, j: nat)
    requires j < |b|
    ensures TotalBytes(b) == TotalBytes(b[..j] + b[j + 1..]) + b[j].sizeBytes as int
  {
    var rest := b[..j] + b[j + 1..];
    if j == |b| - 1 {
      assert rest == b[..j];
    } else {
      var front := b[..|b| - 1];
      TotalTakeOut(front, j);
      assert rest[..|rest| - 1] == front[..j] + front[j + 1..] && rest[|rest| - 1] == b[|b| - 1];
    }
  }

  lemma {:induction false} ArtifactsStayOk(a: seq<Artifact>, b: seq<Artifact>, l: Limits)
    requires multiset(a) == multiset(b) && ArtifactsOk(a, l, true)
    ensures ArtifactsOk(b, l, true)
  {
    hide ArtifactShape, TotalBytes;
    SameElements(a, b);
    TotalMoves(a, b);
    forall i | 0 <= i < |b| ensures ArtifactShape(b[i], l, true) {
      assert b[i] in a;
    }
    IDsMove(a, b);
    PathsMove(a, b);
    ChunksMove(a, b);
  }

  lemma {:induction false} IDsMove(a: seq<Artifact>, b: seq<Artifact>)
    requires multiset(a) == multiset(b) && NoRepeats(IDs(a))
    ensures NoRepeats(IDs(b))
  {
    forall i, j | 0 <= i < j < |a| ensures ByID(a[i]) != ByID(a[j]) {
      assert IDs(a)[i] != IDs(a)[j];
    }
    StillDistinct(a, b, ByID);
    forall i, j | 0 <= i < j < |b| ensures IDs(b)[i] != IDs(b)[j] {
      assert ByID(b[i]) != ByID(b[j]);
    }
  }

  function ByPathName(a: Artifact): seq<string> { [a.relativePath] }

  lemma {:induction false} PathsMove(a: seq<Artifact>, b: seq<Artifact>)
    requires multiset(a) == multiset(b) && NoRepeats(Paths(a))
    ensures NoRepeats(Paths(b))
  {
    forall i, j | 0 <= i < j < |a| ensures ByPathName(a[i]) != ByPathName(a[j]) {
      assert Paths(a)[i] != Paths(a)[j];
    }
    StillDistinct(a, b, ByPathName);
    forall i, j | 0 <= i < j < |b| ensures Paths(b)[i] != Paths(b)[j] {
      assert ByPathName(b[i]) != ByPathName(b[j]);
    }
  }

  lemma {:induction false} ChunksMove(a: seq<Artifact>, b: seq<Artifact>)
    requires multiset(a) == multiset(b) && NoRepeats(IDs(a)) && ChunksComplete(a)
    requires forall i, j | 0 <= i < j < |a| :: ChunksAgree(a[i], a[j])
    ensures ChunksComplete(b) && forall i, j | 0 <= i < j < |b| :: ChunksAgree(b[i], b[j])
  {
    SameElements(a, b);
    IDsMove(a, b);
    forall i, j | 0 <= i < j < |b| ensures ChunksAgree(b[i], b[j]) {
      assert IDs(b)[i] != IDs(b)[j];
      assert b[i] in a && b[j] in a;
      var p :| 0 <= p < |a| && a[p] == b[i];
      var q :| 0 <= q < |a| && a[q] == b[j];
      assert p != q;
      if p < q { assert ChunksAgree(a[p], a[q]); } else { assert ChunksAgree(a[q], a[p]); }
    }
    forall i, k: nat | 0 <= i < |b| && k < b[i].chunk.count ensures HasChunk(b, b[i].chunk.setID, k) {
      assert b[i] in a;
      var p :| 0 <= p < |a| && a[p] == b[i];
      assert HasChunk(a, a[p].chunk.setID, k);
      var q :| 0 <= q < |a| && a[q].chunk.setID == a[p].chunk.setID && a[q].chunk.index == k;
      assert a[q] in b;
    }
  }

  lemma {:induction false} SameClassKeys(o: Output, n: Output)
    requires Rearranged(o, n)
    ensures forall k | k in ClassKeys(o.classes) :: k in ClassKeys(n.classes)
  {
    hide Rearranged;
    forall k | k in ClassKeys(o.classes) ensures k in ClassKeys(n.classes) {
      var j :| 0 <= j < |o.classes| && o.classes[j].key == k;
      var i := MatchFor(o, n, j);
      assert ClassKeys(n.classes)[i] == k;
    }
  }

  lemma {:induction false} StructureStays(o: Output, n: Output, l: Limits)
    requires Rearranged(o, n) && Structure(o, l, true)
    ensures Structure(n, l, true)
  {
    hide ClassesOk, ArtifactsOk, Rearranged;
    Members(o, n);
    ClassesStayOk(o, n, l);
    Parts(o, n);
    ArtifactsStayOk(o.artifacts, n.artifacts, l);
    SameClassKeys(o, n);
    NoRepeatsMove(o.classErrors, n.classErrors);
    forall i | 0 <= i < |n.classErrors| ensures ErrorShape(n.classErrors[i], n.classes) {
      assert n.classErrors[i] in o.classErrors;
    }
    forall i | 0 <= i < |n.warnings| ensures ValidText(n.warnings[i], 4096) {
      assert n.warnings[i] in o.warnings;
    }
  }

  lemma {:induction false} Parts(o: Output, n: Output)
    requires Rearranged(o, n)
    ensures n.status == o.status && n.execution == o.execution
    ensures multiset(n.artifacts) == multiset(o.artifacts) && multiset(n.classErrors) == multiset(o.classErrors)
  {}

  /** Links and evidence of one class look for members only. */
  lemma {:induction false} ClassStays(c: ClassIndex, d: ClassIndex, o: Output, n: Output)
    requires Match(c, d) && Answered(d, o.artifacts) && Evidence(d, o)
    requires forall a | a in o.artifacts :: a in n.artifacts
    requires forall e | e in o.classErrors :: e in n.classErrors
    ensures Answered(c, n.artifacts) && Evidence(c, n)
  {
    forall id | id in c.artifactIDs ensures Names(n.artifacts, id, c.key) {
      assert Names(o.artifacts, id, d.key);
      var i :| 0 <= i < |o.artifacts| && o.artifacts[i].id == id && d.key in o.artifacts[i].classKeys;
      assert o.artifacts[i] in n.artifacts;
    }
    EvidenceStays(c, d, o, n);
  }

  lemma {:induction false} EvidenceStays(c: ClassIndex, d: ClassIndex, o: Output, n: Output)
    requires Match(c, d) && Evidence(d, o)
    requires forall a | a in o.artifacts :: a in n.artifacts
    requires forall e | e in o.classErrors :: e in n.classErrors
    ensures Evidence(c, n)
  {
    if c.status == ClassSource {
      var i :| 0 <= i < |o.artifacts| && o.artifacts[i].id in d.artifactIDs && o.artifacts[i].kind == SourceText &&
               o.artifacts[i].validation == ContentVerified;
      assert o.artifacts[i] in n.artifacts;
    }
    if c.status == ClassBytecodeOnly {
      var i :| 0 <= i < |o.artifacts| && o.artifacts[i].id in d.artifactIDs &&
               (o.artifacts[i].kind == Bytecode || o.artifacts[i].kind == Index);
      assert o.artifacts[i] in n.artifacts;
    }
    if Failing(c) {
      var i :| 0 <= i < |o.classErrors| && o.classErrors[i].classKey == d.key;
      assert o.classErrors[i] in n.classErrors;
    }
  }

  lemma {:induction false} NamedStays(a: Artifact, o: Output, n: Output)
    requires Rearranged(o, n) && NamedBack(a, o.classes)
    ensures NamedBack(a, n.classes)
  {
    hide Rearranged;
    forall key | key in a.classKeys ensures NamedBy(n.classes, key, a.id) {
      assert NamedBy(o.classes, key, a.id);
      var j :| 0 <= j < |o.classes| && o.classes[j].key == key && a.id in o.classes[j].artifactIDs;
      var i := MatchFor(o, n, j);
    }
  }

  lemma {:induction false} StatusStays(o: Output, n: Output)
    requires Rearranged(o, n) && StatusOk(o)
    ensures StatusOk(n)
  {
    Members(o, n);
    Parts(o, n);
    hide Rearranged, Failing;
    forall i | 0 <= i < |n.classes|
      ensures exists j | 0 <= j < |o.classes| :: o.classes[j].status == n.classes[i].status
    {
      var j := MatchOf(o, n, i);
      assert o.classes[j].status == n.classes[i].status;
    }
    forall i | 0 <= i < |n.artifacts| ensures n.artifacts[i] in o.artifacts {
      assert n.artifacts[i] in n.artifacts;
    }
    if o.status == Partial && o.classErrors == [] { FailingStays(o, n); }
  }

  lemma {:induction false} FailingStays(o: Output, n: Output)
    requires Rearranged(o, n) && exists j | 0 <= j < |o.classes| :: Failing(o.classes[j])
    ensures exists i | 0 <= i < |n.classes| :: Failing(n.classes[i])
  {
    hide Rearranged;
    var j :| 0 <= j < |o.classes| && Failing(o.classes[j]);
    var i := MatchFor(o, n, j);
    assert Failing(n.classes[i]);
  }

  /** The contract is kept in any order. */
  lemma {:induction false} ContractStays(o: Output, n: Output, l: Limits)
    requires Rearranged(o, n) && Contract(o, l)
    ensures Contract(n, l)
  {
    hide Structure, StatusOk, Answered, NamedBack, Evidence, Rearranged, Match;
    StructureStays(o, n, l);
    Members(o, n);
    StatusStays(o, n);
    forall i | 0 <= i < |n.classes| ensures Answered(n.classes[i], n.artifacts) && Evidence(n.classes[i], n) {
      var j := MatchOf(o, n, i);
      ClassStays(n.classes[i], o.classes[j], o, n);
    }
    forall i | 0 <= i < |n.artifacts| ensures NamedBack(n.artifacts[i], n.classes) {
      assert n.artifacts[i] in o.artifacts;
      NamedStays(n.artifacts[i], o, n);
    }
  }

  /** An output that keeps the contract as an engine lists it keeps it in every normal form:
      sorting cannot cost it the verdict. (It can earn it: lists that the contract wants
      sorted may be listed in any order.) */
  lemma {:induction false} NormalFormKeepsContract(o: Output, n: Output, validator: Artifact -> Validation, l: Limits)
    requires NormalForm(o, n) && Contract(Judged(o, validator), l)
    ensures Contract(Judged(n, validator), l)
  {
    NormalIsRearranged(o, n, validator, l);
    ContractStays(Judged(o, validator), Judged(n, validator), l);
  }
}
