/** Normalising an output before it is checked: every list sorted. Whatever sort is used,
    an accepted output has one normal form, so the order in which an engine lists things
    changes neither the verdict nor the result. */
module BytecodeNormalization {
  import opened Counting
  import opened Texts
  import opened BytecodeContract
  import opened BytecodeValidator

  // ---------------------------------------------------------------- sorting by a key

  /** Keys of several strings, compared from the first on. */
  predicate Earlier(a: seq<string>, b: seq<string>) {
    b != [] && (a == [] || Below(a[0], b[0]) || (a[0] == b[0] && Earlier(a[1..], b[1..])))
  }

  lemma {:induction false} EarlierOrders(a: seq<string>, b: seq<string>)
    ensures !(Earlier(a, b) && Earlier(b, a))
    ensures a == b <==> !Earlier(a, b) && !Earlier(b, a)
  {
    if a != [] && b != [] {
      BelowOrders(a[0], b[0]);
      EarlierOrders(a[1..], b[1..]);
      if a[0] == b[0] { assert a == [a[0]] + a[1..] && b == [b[0]] + b[1..]; }
    }
  }

  lemma {:induction false} EarlierTransitive(a: seq<string>, b: seq<string>, c: seq<string>)
    requires Earlier(a, b) && !Earlier(c, b)
    ensures Earlier(a, c)
  {
    EarlierOrders(b, c);
    if b != c && a != [] {
      BelowOrders(a[0], b[0]);
      BelowOrders(b[0], c[0]);
      if Below(a[0], b[0]) && Below(b[0], c[0]) { BelowTransitive(a[0], b[0], c[0]); }
      if a[0] == b[0] == c[0] { EarlierTransitive(a[1..], b[1..], c[1..]); }
    }
  }

  predicate Sorted<T>(s: seq<T>, key: T -> seq<string>) {
    forall i, j | 0 <= i < j < |s| :: !Earlier(key(s[j]), key(s[i]))
  }

  function Insert<T>(x: T, s: seq<T>, key: T -> seq<string>): (r: seq<T>)
    ensures multiset(r) == multiset(s) + multiset{x}
  {
    if s == [] || !Earlier(key(s[0]), key(x)) then [x] + s
    else
      assert s == [s[0]] + s[1..];
      [s[0]] + Insert(x, s[1..], key)
  }

  lemma {:induction false} InsertSorts<T>(x: T, s: seq<T>, key: T -> seq<string>)
    requires Sorted(s, key)
    ensures Sorted(Insert(x, s, key), key)
  {
    var r := Insert(x, s, key);
    if s == [] {
    } else if !Earlier(key(s[0]), key(x)) {
      forall j | 0 <= j < |s| ensures !Earlier(key(s[j]), key(x)) {
        if Earlier(key(s[j]), key(x)) { EarlierTransitive(key(s[j]), key(x), key(s[0])); }
      }
    } else {
      InsertSorts(x, s[1..], key);
      EarlierOrders(key(s[0]), key(x));
      forall y | y in Insert(x, s[1..], key) ensures !Earlier(key(y), key(s[0])) {
        assert y in multiset(s[1..]) + multiset{x};
      }
    }
  }

  /** One of the ways to sort. */
  function Sort<T>(s: seq<T>, key: T -> seq<string>): (r: seq<T>)
    ensures multiset(r) == multiset(s)
  {
    if s == [] then []
    else
      assert s == [s[0]] + s[1..];
      Insert(s[0], Sort(s[1..], key), key)
  }

  lemma {:induction false} SortSorts<T>(s: seq<T>, key: T -> seq<string>)
    ensures Sorted(Sort(s, key), key)
  {
    if s != [] {
      SortSorts(s[1..], key);
      InsertSorts(s[0], Sort(s[1..], key), key);
    }
  }

  /** The first element of a sorted list is one with the lowest key. */
  lemma {:induction false} FirstIsLowest<T>(s: seq<T>, key: T -> seq<string>, x: T)
    requires Sorted(s, key) && x in multiset(s)
    ensures s != [] && !Earlier(key(x), key(s[0]))
  {
    var i :| 0 <= i < |s| && s[i] == x;
    EarlierOrders(key(x), key(x));
  }

  lemma {:induction false} Remove<T>(s: seq<T>)
    requires s != []
    ensures multiset(s) == multiset{s[0]} + multiset(s[1..])
  {
    assert s == [s[0]] + s[1..];
  }

  lemma {:induction false} Cancel<T>(a: multiset<T>, b: multiset<T>, x: T)
    requires multiset{x} + a == multiset{x} + b
    ensures a == b
  {
    assert a == (multiset{x} + a) - multiset{x} && b == (multiset{x} + b) - multiset{x};
  }

  /** Where keys tell elements apart, there is one way to be sorted. */
  lemma {:induction false} SortedUniquely<T>(a: seq<T>, b: seq<T>, key: T -> seq<string>)
    requires Sorted(a, key) && Sorted(b, key) && multiset(a) == multiset(b)
    requires forall x, y | x in multiset(a) && y in multiset(a) && key(x) == key(y) :: x == y
    ensures a == b
  {
    hide Earlier;
    if a == [] {
      assert |b| == |multiset(b)| == |multiset(a)|;
    } else {
      assert a[0] in multiset(b);
      FirstIsLowest(b, key, a[0]);
      assert b[0] in multiset(a);
      FirstIsLowest(a, key, b[0]);
      EarlierOrders(key(a[0]), key(b[0]));
      Remove(a);
      Remove(b);
      Cancel(multiset(a[1..]), multiset(b[1..]), a[0]);
      SortedUniquely(a[1..], b[1..], key);
      assert a == [a[0]] + a[1..] && b == [b[0]] + b[1..];
    }
  }

  /** Elements whose keys are all different are told apart by them. */
  lemma {:induction false} KeysTell<T>(s: seq<T>, key: T -> seq<string>)
    requires forall i, j | 0 <= i < j < |s| :: key(s[i]) != key(s[j])
    ensures forall x, y | x in multiset(s) && y in multiset(s) && key(x) == key(y) :: x == y
  {
    forall x, y | x in multiset(s) && y in multiset(s) && key(x) == key(y) ensures x == y {
      var i :| 0 <= i < |s| && s[i] == x;
      var j :| 0 <= j < |s| && s[j] == y;
      assert !(i < j) && !(j < i);
    }
  }

  // ---------------------------------------------------------------- lists without repeats

  ghost predicate DistinctBy<T>(s: seq<T>, key: T -> seq<string>) {
    forall i, j | 0 <= i < j < |s| :: key(s[i]) != key(s[j])
  }

  lemma {:induction false} Multiplicity<T>(s: seq<T>, x: T)
    ensures multiset(s)[x] > 0 <==> x in s
    ensures multiset(s)[x] > 1 <==> exists i, j :: 0 <= i < j < |s| && s[i] == x && s[j] == x
  {
    if s != [] {
      var rest := s[1..];
      Multiplicity(rest, x);
      Remove(s);
      if multiset(rest)[x] > 1 {
        var i, j :| 0 <= i < j < |rest| && rest[i] == x && rest[j] == x;
        assert s[i + 1] == x && s[j + 1] == x;
      }
      if s[0] == x && x in rest {
        var j :| 0 <= j < |rest| && rest[j] == x;
        assert s[0] == x && s[j + 1] == x;
      }
      if i, j :| 0 <= i < j < |s| && s[i] == x && s[j] == x {
        assert rest[j - 1] == x;
        if i > 0 { assert rest[i - 1] == x; }
      }
    }
  }

  /** Rearranging keeps keys apart. */
  lemma {:induction false} StillDistinct<T>(a: seq<T>, b: seq<T>, key: T -> seq<string>)
    requires DistinctBy(a, key) && multiset(a) == multiset(b)
    ensures DistinctBy(b, key)
  {
    KeysTell(a, key);
    forall i, j | 0 <= i < j < |b| ensures key(b[i]) != key(b[j]) {
      assert b[i] in multiset(b) && b[j] in multiset(b);
      if b[i] == b[j] {
        Multiplicity(b, b[i]);
        Multiplicity(a, b[i]);
        assert multiset(a)[b[i]] > 1;
      }
    }
  }

  lemma {:induction false} SameElements<T>(a: seq<T>, b: seq<T>)
    requires multiset(a) == multiset(b)
    ensures forall x :: x in a <==> x in b
  {
    forall x ensures x in a <==> x in b {
      assert x in a <==> x in multiset(a);
      assert x in b <==> x in multiset(b);
    }
  }

  // ---------------------------------------------------------------- outputs without order

  datatype ClassBag = ClassBag(plain: ClassIndex, ids: multiset<string>, methods: multiset<MethodIndex>)

  datatype ArtifactBag = ArtifactBag(plain: Artifact, keys: multiset<string>)

  datatype OutputBag = OutputBag(
    status: Status, classes: multiset<ClassBag>, artifacts: multiset<ArtifactBag>,
    classErrors: multiset<ClassError>, warnings: multiset<string>, execution: Option<Execution>)

  function ClassContents(c: ClassIndex): ClassBag {
    ClassBag(c.(artifactIDs := [], methods := []), multiset(c.artifactIDs), multiset(c.methods))
  }

  function ArtifactContents(a: Artifact): ArtifactBag {
    ArtifactBag(a.(classKeys := []), multiset(a.classKeys))
  }

  function Classes(cs: seq<ClassIndex>): seq<ClassBag> {
    seq(|cs|, i requires 0 <= i < |cs| => ClassContents(cs[i]))
  }

  function Artifacts(arts: seq<Artifact>): seq<ArtifactBag> {
    seq(|arts|, i requires 0 <= i < |arts| => ArtifactContents(arts[i]))
  }

  /** An output with the order of its lists forgotten. */
  function Contents(o: Output): OutputBag {
    OutputBag(o.status, multiset(Classes(o.classes)), multiset(Artifacts(o.artifacts)),
              multiset(o.classErrors), multiset(o.warnings), o.execution)
  }

  function ByText(s: string): seq<string> { [s] }
  function ByMethodKey(m: MethodIndex): seq<string> { [m.key] }
  function ByClassKey(c: ClassIndex): seq<string> { [c.key] }
  function ByID(a: Artifact): seq<string> { [a.id] }
  function ByError(e: ClassError): seq<string> { [e.classKey, e.code, e.message] }

  predicate ClassOrdered(c: ClassIndex) { Sorted(c.artifactIDs, ByText) && Sorted(c.methods, ByMethodKey) }

  predicate ArtifactOrdered(a: Artifact) { Sorted(a.classKeys, ByText) }

  predicate OrderedOutput(o: Output) {
    && (forall i | 0 <= i < |o.classes| :: ClassOrdered(o.classes[i]))
    && (forall i | 0 <= i < |o.artifacts| :: ArtifactOrdered(o.artifacts[i]))
    && Sorted(o.classes, ByClassKey) && Sorted(o.artifacts, ByID)
    && Sorted(o.classErrors, ByError) && Sorted(o.warnings, ByText)
  }

  /** `n` is what sorting may make of `o`: same contents, every list in order. */
  predicate NormalForm(o: Output, n: Output) { Contents(n) == Contents(o) && OrderedOutput(n) }

  // ---------------------------------------------------------------- one normal form

  function BagKey(b: ClassBag): seq<string> { [b.plain.key] }
  function BagID(b: ArtifactBag): seq<string> { [b.plain.id] }

  lemma {:induction false} ClassKeysTell(cs: seq<ClassIndex>)
    requires NoRepeats(ClassKeys(cs))
    ensures forall i, j | 0 <= i < j < |Classes(cs)| :: BagKey(Classes(cs)[i]) != BagKey(Classes(cs)[j])
  {
    forall i, j | 0 <= i < j < |cs| ensures BagKey(Classes(cs)[i]) != BagKey(Classes(cs)[j]) {
      assert ClassKeys(cs)[i] != ClassKeys(cs)[j];
    }
  }

  lemma {:induction false} IDsTell(arts: seq<Artifact>)
    requires NoRepeats(IDs(arts))
    ensures forall i, j | 0 <= i < j < |Artifacts(arts)| :: BagID(Artifacts(arts)[i]) != BagID(Artifacts(arts)[j])
  {
    forall i, j | 0 <= i < j < |arts| ensures BagID(Artifacts(arts)[i]) != BagID(Artifacts(arts)[j]) {
      assert IDs(arts)[i] != IDs(arts)[j];
    }
  }

  lemma {:induction false} MethodKeysTell(ms: seq<MethodIndex>)
    requires NoRepeats(KeysOf(ms))
    ensures forall i, j | 0 <= i < j < |ms| :: ByMethodKey(ms[i]) != ByMethodKey(ms[j])
  {
    forall i, j | 0 <= i < j < |ms| ensures ByMethodKey(ms[i]) != ByMethodKey(ms[j]) {
      assert KeysOf(ms)[i] != KeysOf(ms)[j];
    }
  }

  /** The method keys of one class are among those of all. */
  lemma {:induction false} OwnMethodKeys(cs: seq<ClassIndex>, i: nat)
    requires i < |cs| && NoRepeats(MethodKeys(cs))
    ensures NoRepeats(KeysOf(cs[i].methods))
  {
    var before, own := MethodKeys(cs[..|cs| - 1]), KeysOf(cs[|cs| - 1].methods);
    var all := MethodKeys(cs);
    assert all == before + own;
    if i == |cs| - 1 {
      forall j, k | 0 <= j < k < |own| ensures own[j] != own[k] {
        assert all[|before| + j] == own[j] && all[|before| + k] == own[k];
      }
    } else {
      forall j, k | 0 <= j < k < |before| ensures before[j] != before[k] {
        assert all[j] == before[j] && all[k] == before[k];
      }
      OwnMethodKeys(cs[..|cs| - 1], i);
    }
  }

  /** Two ordered classes with the same contents are the same class. */
  lemma {:induction false} SameClass(c: ClassIndex, d: ClassIndex)
    requires ClassContents(c) == ClassContents(d) && ClassOrdered(c) && ClassOrdered(d)
    requires NoRepeats(KeysOf(c.methods))
    ensures c == d
  {
    MethodKeysTell(c.methods);
    KeysTell(c.methods, ByMethodKey);
    SortedUniquely(c.artifactIDs, d.artifactIDs, ByText);
    SortedUniquely(c.methods, d.methods, ByMethodKey);
    assert c == ClassContents(c).plain.(artifactIDs := c.artifactIDs, methods := c.methods);
    assert d == ClassContents(d).plain.(artifactIDs := d.artifactIDs, methods := d.methods);
  }

  lemma {:induction false} SameArtifact(a: Artifact, b: Artifact)
    requires ArtifactContents(a) == ArtifactContents(b) && ArtifactOrdered(a) && ArtifactOrdered(b)
    ensures a == b
  {
    SortedUniquely(a.classKeys, b.classKeys, ByText);
    assert a == ArtifactContents(a).plain.(classKeys := a.classKeys);
    assert b == ArtifactContents(b).plain.(classKeys := b.classKeys);
  }

  lemma {:induction false} SameClasses(cs: seq<ClassIndex>, ds: seq<ClassIndex>)
    requires multiset(Classes(cs)) == multiset(Classes(ds))
    requires Sorted(cs, ByClassKey) && Sorted(ds, ByClassKey)
    requires forall i | 0 <= i < |cs| :: ClassOrdered(cs[i])
    requires forall i | 0 <= i < |ds| :: ClassOrdered(ds[i])
    requires NoRepeats(ClassKeys(cs)) && NoRepeats(MethodKeys(cs))
    ensures cs == ds
  {
    hide ClassOrdered, MethodKeys, KeysOf, ClassKeys;
    ClassKeysTell(cs);
    KeysTell(Classes(cs), BagKey);
    assert forall i | 0 <= i < |cs| :: BagKey(Classes(cs)[i]) == ByClassKey(cs[i]);
    assert forall i | 0 <= i < |ds| :: BagKey(Classes(ds)[i]) == ByClassKey(ds[i]);
    SortedUniquely(Classes(cs), Classes(ds), BagKey);
    assert |cs| == |Classes(cs)| == |Classes(ds)| == |ds|;
    forall i | 0 <= i < |cs| ensures cs[i] == ds[i] {
      assert Classes(cs)[i] == Classes(ds)[i];
      OwnMethodKeys(cs, i);
      SameClass(cs[i], ds[i]);
    }
  }

  lemma {:induction false} SameArtifacts(arts: seq<Artifact>, others: seq<Artifact>)
    requires multiset(Artifacts(arts)) == multiset(Artifacts(others))
    requires Sorted(arts, ByID) && Sorted(others, ByID)
    requires forall i | 0 <= i < |arts| :: ArtifactOrdered(arts[i])
    requires forall i | 0 <= i < |others| :: ArtifactOrdered(others[i])
    requires NoRepeats(IDs(arts))
    ensures arts == others
  {
    hide ArtifactOrdered, IDs;
    IDsTell(arts);
    KeysTell(Artifacts(arts), BagID);
    assert forall i | 0 <= i < |arts| :: BagID(Artifacts(arts)[i]) == ByID(arts[i]);
    assert forall i | 0 <= i < |others| :: BagID(Artifacts(others)[i]) == ByID(others[i]);
    SortedUniquely(Artifacts(arts), Artifacts(others), BagID);
    assert |arts| == |Artifacts(arts)| == |Artifacts(others)| == |others|;
    forall i | 0 <= i < |arts| ensures arts[i] == others[i] {
      assert Artifacts(arts)[i] == Artifacts(others)[i];
      SameArtifact(arts[i], others[i]);
    }
  }

  /** Two ordered outputs with the same contents are equal, if the keys of one are distinct. */
  lemma {:induction false} OneNormalForm(n: Output, m: Output)
    requires Contents(n) == Contents(m) && OrderedOutput(n) && OrderedOutput(m)
    requires NoRepeats(ClassKeys(n.classes)) && NoRepeats(MethodKeys(n.classes)) && NoRepeats(IDs(n.artifacts))
    ensures n == m
  {
    hide ClassOrdered, ArtifactOrdered, MethodKeys, ClassKeys, IDs, NoRepeats, Sorted, Classes, Artifacts;
    SameClasses(n.classes, m.classes);
    SameArtifacts(n.artifacts, m.artifacts);
    SortedUniquely(n.classErrors, m.classErrors, ByError);
    SortedUniquely(n.warnings, m.warnings, ByText);
  }

  // ---------------------------------------------------------------- the verdict

  /** The artifacts with what the validator found. A validator that fails leaves
      `Unvalidated`, which no accepted output has. */
  function Judged(o: Output, validator: Artifact -> Validation): Output {
    o.(artifacts := seq(|o.artifacts|, i requires 0 <= i < |o.artifacts| =>
      var bare := o.artifacts[i].(validation := Unvalidated);
      o.artifacts[i].(validation := validator(bare))))
  }

  lemma {:induction false} JudgedKeepsKeys(o: Output, validator: Artifact -> Validation)
    ensures IDs(Judged(o, validator).artifacts) == IDs(o.artifacts)
    ensures Paths(Judged(o, validator).artifacts) == Paths(o.artifacts)
  {}

  /** Rearranging an output changes neither the verdict nor the result: however the lists
      of two outputs with the same contents are sorted, if one is accepted then both are
      the same. */
  lemma {:induction false} OrderIsForgotten(o: Output, p: Output, n: Output, m: Output,
      validator: Artifact -> Validation, l: Limits)
    requires Contents(o) == Contents(p) && NormalForm(o, n) && NormalForm(p, m)
    requires Contract(Judged(n, validator), l)
    ensures n == m
  {
    hide OrderedOutput, ChunksComplete, TotalBytes, ArtifactShape, ClassShape, StatusOk, Evidence;
    JudgedKeepsKeys(n, validator);
    OneNormalForm(n, m);
  }

  /** Normalising an accepted output again changes nothing. */
  lemma {:induction false} NormalizeTwice(o: Output, n: Output, m: Output, validator: Artifact -> Validation, l: Limits)
    requires NormalForm(o, n) && NormalForm(n, m) && Contract(Judged(n, validator), l)
    ensures m == n
  {
    OrderIsForgotten(o, o, n, m, validator, l);
  }

  // ---------------------------------------------------------------- running it

  lemma {:induction false} SortedClass(c: ClassIndex)
    ensures var d := c.(artifactIDs := Sort(c.artifactIDs, ByText), methods := Sort(c.methods, ByMethodKey));
            ClassOrdered(d) && ClassContents(d) == ClassContents(c)
  {
    SortSorts(c.artifactIDs, ByText);
    SortSorts(c.methods, ByMethodKey);
  }

  lemma {:induction false} SortedArtifact(a: Artifact)
    ensures var b := a.(classKeys := Sort(a.classKeys, ByText));
            ArtifactOrdered(b) && ArtifactContents(b) == ArtifactContents(a)
  {
    SortSorts(a.classKeys, ByText);
  }

  function Map<T, U>(s: seq<T>, f: T -> U): seq<U> { seq(|s|, i requires 0 <= i < |s| => f(s[i])) }

  /** The same elements give the same elements, whatever is made of each. */
  lemma {:induction false} MapKeepsContents<T, U>(a: seq<T>, b: seq<T>, f: T -> U)
    requires multiset(a) == multiset(b)
    ensures multiset(Map(a, f)) == multiset(Map(b, f))
  {
    if a == [] {
      assert |b| == |multiset(b)| == |multiset(a)|;
    } else {
      assert a[0] in multiset(b);
      var i :| 0 <= i < |b| && b[i] == a[0];
      var rest := b[..i] + b[i + 1..];
      Remove(a);
      TakeOut(b, i);
      Cancel(multiset(a[1..]), multiset(rest), a[0]);
      MapKeepsContents(a[1..], rest, f);
      TakeOut(Map(b, f), i);
      Remove(Map(a, f));
      assert Map(a, f)[1..] == Map(a[1..], f);
      assert Map(rest, f) == Map(b, f)[..i] + Map(b, f)[i + 1..];
    }
  }

  lemma {:induction false} TakeOut<T>(s: seq<T>, i: nat)
    requires i < |s|
    ensures multiset(s) == multiset{s[i]} + multiset(s[..i] + s[i + 1..])
  {
    assert s == s[..i] + [s[i]] + s[i + 1..];
  }

  /** deepCopyAndNormalizeOutput. The library's sort is any that sorts. */
  method Normalize(o: Output) returns (n: Output)
    ensures NormalForm(o, n)
  {
    hide ClassOrdered, ArtifactOrdered, Sorted, Sort, Earlier, ClassContents, ArtifactContents;
    var classes, i := [], 0;
    while i < |o.classes|
      invariant 0 <= i <= |o.classes| && |classes| == i
      invariant forall j | 0 <= j < i :: ClassOrdered(classes[j]) && ClassContents(classes[j]) == ClassContents(o.classes[j])
    {
      var c := o.classes[i];
      SortedClass(c);
      classes := classes + [c.(artifactIDs := Sort(c.artifactIDs, ByText), methods := Sort(c.methods, ByMethodKey))];
      i := i + 1;
    }
    var artifacts;
    artifacts, i := [], 0;
    while i < |o.artifacts|
      invariant 0 <= i <= |o.artifacts| && |artifacts| == i
      invariant forall j | 0 <= j < i ::
        ArtifactOrdered(artifacts[j]) && ArtifactContents(artifacts[j]) == ArtifactContents(o.artifacts[j])
    {
      var a := o.artifacts[i];
      SortedArtifact(a);
      artifacts := artifacts + [a.(classKeys := Sort(a.classKeys, ByText))];
      i := i + 1;
    }
    n := Output(o.status, Sort(classes, ByClassKey), Sort(artifacts, ByID), Sort(o.classErrors, ByError),
                Sort(o.warnings, ByText), o.execution);
    assert Classes(classes) == Classes(o.classes) && Artifacts(artifacts) == Artifacts(o.artifacts);
    MapKeepsContents(n.classes, classes, ClassContents);
    MapKeepsContents(n.artifacts, artifacts, ArtifactContents);
    MapsAre(n.classes, n.artifacts);
    MapsAre(classes, artifacts);
    StillOrdered(classes, n.classes);
    StillOrderedArtifacts(artifacts, n.artifacts);
    SortSorts(classes, ByClassKey);
    SortSorts(artifacts, ByID);
    SortSorts(o.classErrors, ByError);
    SortSorts(o.warnings, ByText);
  }

  lemma {:induction false} MapsAre(cs: seq<ClassIndex>, arts: seq<Artifact>)
    ensures Map(cs, ClassContents) == Classes(cs) && Map(arts, ArtifactContents) == Artifacts(arts)
  {}

  lemma {:induction false} StillOrdered(cs: seq<ClassIndex>, ds: seq<ClassIndex>)
    requires multiset(cs) == multiset(ds) && forall i | 0 <= i < |cs| :: ClassOrdered(cs[i])
    ensures forall i | 0 <= i < |ds| :: ClassOrdered(ds[i])
  {
    hide ClassOrdered;
    forall i | 0 <= i < |ds| ensures ClassOrdered(ds[i]) {
      assert ds[i] in multiset(cs);
    }
  }

  lemma {:induction false} StillOrderedArtifacts(cs: seq<Artifact>, ds: seq<Artifact>)
    requires multiset(cs) == multiset(ds) && forall i | 0 <= i < |cs| :: ArtifactOrdered(cs[i])
    ensures forall i | 0 <= i < |ds| :: ArtifactOrdered(ds[i])
  {
    hide ArtifactOrdered;
    forall i | 0 <= i < |ds| ensures ArtifactOrdered(ds[i]) {
      assert ds[i] in multiset(cs);
    }
  }

  /** The first validation refuses nothing that the second would accept. */
  lemma {:induction false} PrevalidationIsImplied(n: Output, validator: Artifact -> Validation, l: Limits)
    requires Contract(Judged(n, validator), l)
    ensures Structure(n, l, false)
  {
    hide StatusOk, Evidence, Answered, NamedBack, ClassShape, MethodKeys, ErrorShape;
    var m := Judged(n, validator);
    JudgedKeepsKeys(n, validator);
    JudgedKeepsBytes(n, validator);
    forall i | 0 <= i < |n.artifacts| ensures ArtifactShape(n.artifacts[i], l, false) {
      assert ArtifactShape(m.artifacts[i], l, true);
    }
    JudgedKeepsChunks(n, validator);
  }

  lemma {:induction false} BytesOnly(a: seq<Artifact>, b: seq<Artifact>)
    requires |a| == |b| && forall i | 0 <= i < |a| :: a[i].sizeBytes == b[i].sizeBytes
    ensures TotalBytes(a) == TotalBytes(b)
  {
    if a != [] { BytesOnly(a[..|a| - 1], b[..|b| - 1]); }
  }

  lemma {:induction false} JudgedKeepsBytes(n: Output, validator: Artifact -> Validation)
    ensures TotalBytes(Judged(n, validator).artifacts) == TotalBytes(n.artifacts)
  {
    BytesOnly(Judged(n, validator).artifacts, n.artifacts);
  }

  lemma {:induction false} JudgedKeepsChunks(n: Output, validator: Artifact -> Validation)
    requires ChunksComplete(Judged(n, validator).artifacts)
    requires forall i, j | 0 <= i < j < |n.artifacts| ::
      ChunksAgree(Judged(n, validator).artifacts[i], Judged(n, validator).artifacts[j])
    ensures ChunksComplete(n.artifacts)
    ensures forall i, j | 0 <= i < j < |n.artifacts| :: ChunksAgree(n.artifacts[i], n.artifacts[j])
  {
    var arts := Judged(n, validator).artifacts;
    forall i, k: nat | 0 <= i < |n.artifacts| && k < n.artifacts[i].chunk.count
      ensures HasChunk(n.artifacts, n.artifacts[i].chunk.setID, k)
    {
      assert HasChunk(arts, arts[i].chunk.setID, k);
      var j :| 0 <= j < |arts| && arts[j].chunk.setID == arts[i].chunk.setID && arts[j].chunk.index == k;
      assert n.artifacts[j].chunk == arts[j].chunk;
    }
    forall i, j | 0 <= i < j < |n.artifacts| ensures ChunksAgree(n.artifacts[i], n.artifacts[j]) {
      assert ChunksAgree(arts[i], arts[j]);
    }
  }

  /** What Execute does with the output of an engine: normalise, check the structure, have
      every artifact judged, check the contract. It gives a result exactly when a normal
      form of the output keeps the contract, and then that form is the result. */
  method Accept(o: Output, validator: Artifact -> Validation, l: Limits) returns (r: Option<Output>)
    requires Normalized(l)
    ensures r.Some? ==> Contract(r.value, l) && exists n :: NormalForm(o, n) && r.value == Judged(n, validator)
    ensures forall n | NormalForm(o, n) && Contract(Judged(n, validator), l) :: r == Some(Judged(n, validator))
  {
    hide Contract, Structure, NormalForm, Judged;
    var n := Normalize(o);
    forall m | NormalForm(o, m) && Contract(Judged(m, validator), l) ensures m == n {
      OrderIsForgotten(o, o, m, n, validator, l);
    }
    if Contract(Judged(n, validator), l) { PrevalidationIsImplied(n, validator, l); }
    var ok := PrevalidateOutputStructure(n, l);
    if !ok { return None; }
    var judged := JudgeArtifacts(n, validator);
    ok := ValidateOutput(judged, l);
    return if ok then Some(judged) else None;
  }

  /** validateArtifacts */
  method JudgeArtifacts(n: Output, validator: Artifact -> Validation) returns (judged: Output)
    ensures judged == Judged(n, validator)
  {
    judged := n;
    var i := 0;
    while i < |n.artifacts|
      invariant 0 <= i <= |n.artifacts| == |judged.artifacts|
      invariant judged == n.(artifacts := Judged(n, validator).artifacts[..i] + n.artifacts[i..])
    {
      var candidate := judged.artifacts[i].(validation := Unvalidated);
      judged := judged.(artifacts := judged.artifacts[i := judged.artifacts[i].(validation := validator(candidate))]);
      i := i + 1;
    }
  }
}
