/** The fallback engine: the loop over archive failures and candidates, and the proof that
    what it returns keeps the result contract. Of the hash nothing is assumed but that no
    two of the strings hashed in the run collide. */
module JvmEngine {
  import opened Counting
  import opened Words
  import opened JvmDescriptors
  import opened Texts
  import Layout = JvmClassLayout
  import opened JvmClassParser
  import opened BytecodeContract
  import Normalization = BytecodeNormalization
  import Rearrangement = BytecodeRearrangement
  import opened JvmArchiveEntries
  import opened JvmArchiveWalk
  import opened JvmIndex

  // ---------------------------------------------------------------- the output of a run

  function ClassesFor(t: Tools, req: Request, us: seq<Unit>): seq<ClassIndex> {
    seq(|us|, i requires 0 <= i < |us| => ClassFor(t, req, us[i]))
  }

  /** sanitizeJVMErrorMessage */
  function Sanitize(message: string): string {
    var bare := TrimSpace(WithoutNul(message));
    if ValidText(bare, 4096) then bare else "class processing failed"
  }

  lemma {:induction false} SanitizedIsText(message: string)
    ensures ValidText(Sanitize(message), 4096)
  {
    LengthOfAscii("class processing failed");
  }

  function WithoutNul(s: string): string {
    if s == "" then "" else (if s[0] == '\0' then "" else [s[0]]) + WithoutNul(s[1..])
  }

  predicate Space(c: char) {
    var v := c as int;
    9 <= v <= 13 || v == 0x20 || v == 0x85 || v == 0xA0 || v == 0x1680 || 0x2000 <= v <= 0x200A ||
    v == 0x2028 || v == 0x2029 || v == 0x202F || v == 0x205F || v == 0x3000
  }

  function TrimSpace(s: string): string {
    if s != "" && Space(s[0]) then TrimSpace(s[1..])
    else if s != "" && Space(s[|s| - 1]) then TrimSpace(s[..|s| - 1])
    else s
  }

  /** The error that goes with a failed class. */
  function ErrorFor(t: Tools, req: Request, u: Unit): ClassError
    requires !u.Indexed?
  {
    match u
    case Lost(f) => ClassError(KeyOf(t, req, u), f.code, Sanitize(f.message))
    case Refused(_, code, message) => ClassError(KeyOf(t, req, u), code, Sanitize(message))
  }

  function ErrorsFor(t: Tools, req: Request, us: seq<Unit>): seq<ClassError> {
    if us == [] then []
    else
      var u := us[|us| - 1];
      ErrorsFor(t, req, us[..|us| - 1]) + (if u.Indexed? then [] else [ErrorFor(t, req, u)])
  }

  function Padded(s: string): string
    decreases 6 - |s|
  {
    if |s| >= 6 then s else Padded("0" + s)
  }

  const SUBTYPE := "vnd.binaryscan.jvm-bytecode-index+json"
  const MEDIA_TYPE := "application" + "/" + SUBTYPE

  /** `class-%06d-%s.json` in the temporary directory */
  function IndexPath(t: Tools, n: nat, digest: string): string
    requires |digest| >= 16
  {
    t.directory + "/" + ("class-" + Padded(Decimal(n)) + "-" + digest[..16] + ".json")
  }

  function Payload(t: Tools, req: Request, u: Unit): string
    requires u.Indexed?
  {
    t.encode(Record(t, req, u))
  }

  /** The index artifact of a unit, the `n`th that is written. */
  ghost function ArtifactFor(t: Tools, req: Request, u: Unit, n: nat): Artifact
    requires Fitting(t) && u.Indexed? && Length(Payload(t, req, u)) <= MAX_INT64
  {
    var digest := t.sha(Payload(t, req, u));
    assert Digest(digest);
    var id := ArtifactID(t, req, u);
    Artifact(id, Index, MEDIA_TYPE, IndexPath(t, n, digest), digest, Length(Payload(t, req, u)) as int64, Unvalidated,
             Chunk(id, 0, 1), [KeyOf(t, req, u)])
  }

  /** No payload is longer than its declared size can say. */
  ghost predicate Sized(t: Tools, req: Request, us: seq<Unit>) {
    forall u | u in us && u.Indexed? :: Length(Payload(t, req, u)) <= MAX_INT64
  }

  ghost function ArtifactsFor(t: Tools, req: Request, us: seq<Unit>): seq<Artifact>
    requires Fitting(t) && Sized(t, req, us)
  {
    if us == [] then []
    else
      var u, front := us[|us| - 1], us[..|us| - 1];
      var before := ArtifactsFor(t, req, front);
      before + (if u.Indexed? then [ArtifactFor(t, req, u, |before| + 1)] else [])
  }

  ghost function OutputFor(t: Tools, req: Request, us: seq<Unit>): Output
    requires Fitting(t) && Sized(t, req, us)
  {
    var errors := ErrorsFor(t, req, us);
    Output(if errors == [] then AllBytecode else Partial, ClassesFor(t, req, us), ArtifactsFor(t, req, us), errors, [], None)
  }

  // ---------------------------------------------------------------- positions

  lemma {:induction false} ArtifactAt(t: Tools, req: Request, us: seq<Unit>, i: nat) returns (j: nat)
    requires Fitting(t) && Sized(t, req, us) && i < |us| && us[i].Indexed?
    ensures j < |ArtifactsFor(t, req, us)| && ArtifactsFor(t, req, us)[j] == ArtifactFor(t, req, us[i], j + 1)
  {
    hide ArtifactFor;
    var front := us[..|us| - 1];
    if i == |us| - 1 {
      j := |ArtifactsFor(t, req, front)|;
    } else {
      j := ArtifactAt(t, req, front, i);
    }
  }

  /** Where an artifact comes from. Different artifacts come from different units. */
  ghost function Source(t: Tools, req: Request, us: seq<Unit>, j: nat): (i: nat)
    requires Fitting(t) && Sized(t, req, us) && j < |ArtifactsFor(t, req, us)|
    ensures i < |us| && us[i].Indexed? && ArtifactsFor(t, req, us)[j] == ArtifactFor(t, req, us[i], j + 1)
    ensures forall k | j < k < |ArtifactsFor(t, req, us)| :: Source(t, req, us, k) > i
    decreases |us|, |ArtifactsFor(t, req, us)| - j
  {
    var front := us[..|us| - 1];
    if j == |ArtifactsFor(t, req, front)| then |us| - 1 else Source(t, req, front, j)
  }

  // ---------------------------------------------------------------- classes and methods

  /** A unit as the engine makes them. */
  predicate Made(u: Unit) {
    match u
    case Lost(f) => f.code in [DEPTH_CODE, READ_CODE, INVALID_CODE]
    case Refused(_, code, _) => code in ["class_read_failed", "invalid_class"]
    case Indexed(_, parsed) => Fits(parsed)
  }

  lemma {:induction false} ClassKeysApart(t: Tools, req: Request, us: seq<Unit>)
    requires Apart(us) && CollisionFree(t, req, us)
    ensures NoRepeats(ClassKeys(ClassesFor(t, req, us)))
  {
    hide KeyOf, Apart, CollisionFree;
    var keys := ClassKeys(ClassesFor(t, req, us));
    forall i, j | 0 <= i < j < |keys| ensures keys[i] != keys[j] {
      ListedKey(t, req, us[i]);
      ListedKey(t, req, us[j]);
      if keys[i] == keys[j] { KeysApart(t, req, us, i, j); }
    }
  }

  lemma {:induction false} ListedKey(t: Tools, req: Request, u: Unit)
    ensures ClassFor(t, req, u).key == KeyOf(t, req, u)
  {
    hide KeyOf, FallbackName, ArchiveName;
  }

  function MethodKey(t: Tools, req: Request, u: Unit, m: ParsedMethod): string {
    StableKey(t, "method", MethodParts(t, req, u, m))
  }

  /** Method keys tell methods apart, in one class and across classes. */
  lemma {:induction false} MethodKeysTell(
    t: Tools, req: Request, us: seq<Unit>, i: nat, m: ParsedMethod, j: nat, n: ParsedMethod)
    requires i < |us| && j < |us| && Apart(us) && CollisionFree(t, req, us)
    requires us[i].Indexed? && us[j].Indexed? && m in us[i].parsed.methods && n in us[j].parsed.methods
    requires MethodKey(t, req, us[i], m) == MethodKey(t, req, us[j], n)
    ensures i == j && m.name == n.name && m.descriptor == n.descriptor
  {
    hide KeyOf, Apart, Prefixed;
    var p, q := MethodParts(t, req, us[i], m), MethodParts(t, req, us[j], n);
    var k := MethodKey(t, req, us[i], m);
    assert k[7..] == t.sha(Prefixed(p)) && k[7..] == t.sha(Prefixed(q));
    assert Hashes(t, req, us[i], Prefixed(p)) && Hashes(t, req, us[j], Prefixed(q));
    PrefixedInjective(p, q);
    assert p[0] == q[0] && p[1] == q[1] && p[2] == q[2];
    KeysApart(t, req, us, i, j);
  }

  /** Every method key comes from a method of a unit before. */
  lemma {:induction false} MethodKeyOrigin(t: Tools, req: Request, us: seq<Unit>, k: string) returns (i: nat, m: ParsedMethod)
    requires k in MethodKeys(ClassesFor(t, req, us))
    ensures i < |us| && us[i].Indexed? && m in us[i].parsed.methods && k == MethodKey(t, req, us[i], m)
  {
    hide MethodKey, ArtifactID, KeyOf, FallbackName, ArchiveName;
    var front, u := us[..|us| - 1], us[|us| - 1];
    assert ClassesFor(t, req, us)[..|us| - 1] == ClassesFor(t, req, front);
    if k in MethodKeys(ClassesFor(t, req, front)) {
      i, m := MethodKeyOrigin(t, req, front, k);
    } else {
      var x :| 0 <= x < |ClassFor(t, req, u).methods| && ClassFor(t, req, u).methods[x].key == k;
      OwnMethodKey(t, req, u, x);
      i, m := |us| - 1, u.parsed.methods[x];
    }
  }

  lemma {:induction false} OwnMethodKey(t: Tools, req: Request, u: Unit, x: nat)
    requires x < |ClassFor(t, req, u).methods|
    ensures u.Indexed? && |ClassFor(t, req, u).methods| == |u.parsed.methods|
    ensures ClassFor(t, req, u).methods[x].key == MethodKey(t, req, u, u.parsed.methods[x])
  {
    hide StableKey;
  }

  lemma {:induction false} MethodKeysApart(t: Tools, req: Request, us: seq<Unit>, n: nat)
    requires n <= |us| && Apart(us) && CollisionFree(t, req, us) && forall i | 0 <= i < |us| :: Made(us[i])
    ensures NoRepeats(MethodKeys(ClassesFor(t, req, us[..n])))
  {
    hide Apart, CollisionFree, MethodKey, ClassFor;
    if n > 0 {
      var cs := ClassesFor(t, req, us[..n]);
      MethodKeysApart(t, req, us, n - 1);
      assert us[..n][..n - 1] == us[..n - 1];
      assert cs[..n - 1] == ClassesFor(t, req, us[..n - 1]) && cs[n - 1] == ClassFor(t, req, us[n - 1]);
      var before, own := MethodKeys(cs[..n - 1]), KeysOf(cs[n - 1].methods);
      forall x, y | 0 <= x < |before| && 0 <= y < |own| ensures before[x] != own[y] {
        OwnMethodKey(t, req, us[n - 1], y);
        if before[x] == own[y] {
          var i, m := MethodKeyOrigin(t, req, us[..n - 1], before[x]);
          MethodKeysTell(t, req, us, i, m, n - 1, us[n - 1].parsed.methods[y]);
        }
      }
      OwnKeysApart(t, req, us, n - 1);
      Joined(before, own);
    }
  }

  lemma {:induction false} Joined(a: seq<string>, b: seq<string>)
    requires NoRepeats(a) && NoRepeats(b) && forall x, y | 0 <= x < |a| && 0 <= y < |b| :: a[x] != b[y]
    ensures NoRepeats(a + b)
  {}

  lemma {:induction false} OwnKeysApart(t: Tools, req: Request, us: seq<Unit>, i: nat)
    requires i < |us| && Apart(us) && CollisionFree(t, req, us) && Made(us[i])
    ensures NoRepeats(KeysOf(ClassFor(t, req, us[i]).methods))
  {
    hide Apart, CollisionFree, MethodKey, ClassFor;
    var own := KeysOf(ClassFor(t, req, us[i]).methods);
    forall x, y | 0 <= x < y < |own| ensures own[x] != own[y] {
      OwnMethodKey(t, req, us[i], x);
      OwnMethodKey(t, req, us[i], y);
      var ms := us[i].parsed.methods;
      if own[x] == own[y] { MethodKeysTell(t, req, us, i, ms[x], i, ms[y]); }
    }
  }

  // ---------------------------------------------------------------- artifacts

  lemma {:induction false} ValueOfZero(s: string)
    requires forall i | 0 <= i < |s| :: '0' <= s[i] <= '9'
    ensures Value("0" + s) == Value(s)
  {
    if s == "" {
      assert "0" + s == "0" && Value("0") == Value("0"[..0]) * 10;
    } else {
      ValueOfZero(s[..|s| - 1]);
      assert ("0" + s)[..|s|] == "0" + s[..|s| - 1];
    }
  }

  lemma {:induction false} ValueOfPadded(s: string)
    requires forall i | 0 <= i < |s| :: '0' <= s[i] <= '9'
    ensures forall i | 0 <= i < |Padded(s)| :: '0' <= Padded(s)[i] <= '9'
    ensures Value(Padded(s)) == Value(s)
    decreases 6 - |s|
  {
    if |s| < 6 {
      ValueOfZero(s);
      ValueOfPadded("0" + s);
    }
  }

  lemma {:induction false} SplitAtDash(a: string, b: string, x: string, y: string)
    requires '-' !in a && '-' !in b && a + "-" + x == b + "-" + y
    ensures a == b
  {
    var s := a + "-" + x;
    assert s[|a|] == '-' && s[|b|] == '-';
    assert forall i | 0 <= i < |a| :: s[i] == a[i];
    assert forall i | 0 <= i < |b| :: s[i] == b[i];
    assert |a| == |b|;
    assert s[..|a|] == a && s[..|b|] == b;
  }

  /** Numbered paths are all different. */
  lemma {:induction false} IndexPathsApart(t: Tools, m: nat, n: nat, d: string, e: string)
    requires |d| >= 16 && |e| >= 16 && IndexPath(t, m, d) == IndexPath(t, n, e)
    ensures m == n
  {
    hide Padded, Decimal;
    ValueOfDecimal(m);
    ValueOfDecimal(n);
    ValueOfPadded(Decimal(m));
    ValueOfPadded(Decimal(n));
    var front := t.directory + "/" + "class-";
    var p, q := Padded(Decimal(m)), Padded(Decimal(n));
    var x, y := d[..16] + ".json", e[..16] + ".json";
    assert IndexPath(t, m, d) == front + (p + "-" + x);
    assert IndexPath(t, n, e) == front + (q + "-" + y);
    assert IndexPath(t, m, d)[|front|..] == p + "-" + x && IndexPath(t, n, e)[|front|..] == q + "-" + y;
    SplitAtDash(p, q, x, y);
  }

  lemma {:induction false} TwoParts(a: string, b: string)
    requires '/' !in a && '/' !in b
    ensures Parts(a + "/" + b) == [a, b]
  {
    var s := a + "/" + b;
    if b == "" {
      assert s[..|s| - 1] == a;
      OnePart(a);
    } else {
      var front := b[..|b| - 1];
      assert s[..|s| - 1] == a + "/" + front && b == front + [b[|b| - 1]];
      TwoParts(a, front);
      assert Parts(s) == [a, front][1 := front + [b[|b| - 1]]];
    }
  }

  lemma {:induction false} IndexPathIsPath(t: Tools, n: nat, d: string)
    requires Fitting(t) && Digest(d)
    ensures RelativePath(IndexPath(t, n, d))
  {
    hide Padded, Decimal, Parts;
    ValueOfDecimal(n);
    ValueOfPadded(Decimal(n));
    var name := "class-" + Padded(Decimal(n)) + "-" + d[..16] + ".json";
    assert name[0] == "class-"[0];
    NameChars(Padded(Decimal(n)), d[..16]);
    TwoParts(t.directory, name);
  }

  lemma {:induction false} NameChars(digits: string, hex: string)
    requires forall i | 0 <= i < |digits| :: '0' <= digits[i] <= '9'
    requires forall i | 0 <= i < |hex| :: HexDigit(hex[i])
    ensures '/' !in "class-" + digits + "-" + hex + ".json" && '\\' !in "class-" + digits + "-" + hex + ".json"
  {
    assert '/' !in "class-" && '\\' !in "class-" && '/' !in ".json" && '\\' !in ".json";
  }

  lemma {:induction false} SlashesJoin(a: string, b: string)
    ensures Slashes(a + b) == Slashes(a) + Slashes(b)
  {
    if b == "" {
      assert a + b == a;
    } else {
      SlashesJoin(a, b[..|b| - 1]);
      assert (a + b)[..|a + b| - 1] == a + b[..|b| - 1];
    }
  }

  lemma {:induction false} NoSlashes(s: string)
    requires '/' !in s
    ensures Slashes(s) == 0
  {
    if s != "" { NoSlashes(s[..|s| - 1]); }
  }

  predicate Printable(s: string) { forall i | 0 <= i < |s| :: 0x20 < s[i] as int < 0x7F }

  lemma {:induction false} Media(a: string, b: string)
    requires Printable(a) && Printable(b) && '/' !in a && '/' !in b && a != "" && b != "" && |a| + |b| < 255
    ensures MediaType(a + "/" + b)
  {
    var s := a + "/" + b;
    NoSlashes(a);
    NoSlashes(b);
    SlashesJoin(a, "/");
    SlashesJoin(a + "/", b);
    assert Slashes("/") == Slashes("/"[..0]) + 1;
    LengthOfAscii(s);
  }

  lemma {:induction false} SubtypePrints()
    ensures Printable(SUBTYPE)
  {
    assert |SUBTYPE| == 38;
  }

  lemma {:induction false} SubtypeIsOne()
    ensures '/' !in SUBTYPE
  {
    assert |SUBTYPE| == 38;
  }

  lemma {:induction false} MediaTypeFits()
    ensures MediaType(MEDIA_TYPE)
  {
    assert Printable("application") && '/' !in "application" && |SUBTYPE| == 38;
    hide MediaType, Printable;
    SubtypePrints();
    SubtypeIsOne();
    Media("application", SUBTYPE);
  }

  lemma {:induction false} ArtifactForShape(t: Tools, req: Request, u: Unit, n: nat, l: Limits, v: Validation)
    requires Fitting(t) && u.Indexed? && Length(Payload(t, req, u)) <= MAX_INT64 && l.maxArtifacts > 0
    requires v != Unvalidated
    ensures ArtifactShape(ArtifactFor(t, req, u, n).(validation := v), l, true)
  {
    hide MediaType, RelativePath, Digest, Identifier, IndexPath, ArtifactID, KeyOf;
    assert Digest(t.sha(Payload(t, req, u)));
    IndexIDIsIdentifier(t, req, u);
    MediaTypeFits();
    IndexPathIsPath(t, n, t.sha(Payload(t, req, u)));
    KeyShape(t, req, u);
    LengthAtLeast(Payload(t, req, u));
    assert Payload(t, req, u) != "";
  }

  /** Index artifacts are accepted by the validator. */
  ghost predicate AcceptsIndexes(validator: Artifact -> Validation) {
    forall a: Artifact :: a.kind == Index ==> validator(a) != Unvalidated
  }

  ghost function JudgedFor(t: Tools, req: Request, us: seq<Unit>, validator: Artifact -> Validation): Output
    requires Fitting(t) && Sized(t, req, us)
  {
    Normalization.Judged(OutputFor(t, req, us), validator)
  }

  lemma {:induction false} BareArtifact(t: Tools, req: Request, u: Unit, n: nat)
    requires Fitting(t) && u.Indexed? && Length(Payload(t, req, u)) <= MAX_INT64
    ensures ArtifactFor(t, req, u, n).kind == Index && ArtifactFor(t, req, u, n).validation == Unvalidated
  {}

  lemma {:induction false} JudgedArtifact(t: Tools, req: Request, us: seq<Unit>, validator: Artifact -> Validation, j: nat)
    requires Fitting(t) && Sized(t, req, us) && j < |ArtifactsFor(t, req, us)| && AcceptsIndexes(validator)
    ensures |JudgedFor(t, req, us, validator).artifacts| == |ArtifactsFor(t, req, us)|
    ensures us[Source(t, req, us, j)].Indexed? && us[Source(t, req, us, j)] in us
    ensures var a := ArtifactFor(t, req, us[Source(t, req, us, j)], j + 1);
      && validator(a) != Unvalidated
      && JudgedFor(t, req, us, validator).artifacts[j] == a.(validation := validator(a))
  {
    hide ArtifactsFor, ErrorsFor, ClassesFor, ArtifactFor;
    var u := us[Source(t, req, us, j)];
    BareArtifact(t, req, u, j + 1);
    var a := ArtifactFor(t, req, u, j + 1);
    assert a.(validation := Unvalidated) == a;
    assert ArtifactsFor(t, req, us)[j] == a;
  }

  lemma {:induction false} SourcesApart(t: Tools, req: Request, us: seq<Unit>, i: nat, j: nat)
    requires Fitting(t) && Sized(t, req, us) && i < |ArtifactsFor(t, req, us)| && j < |ArtifactsFor(t, req, us)|
    ensures Source(t, req, us, i) == Source(t, req, us, j) ==> i == j
  {}

  /** Index files of different classes have different IDs. */
  lemma {:induction false} IDsTell(t: Tools, req: Request, us: seq<Unit>, i: nat, j: nat)
    requires Fitting(t) && i < |us| && j < |us| && Apart(us) && CollisionFree(t, req, us)
    requires us[i].Indexed? && us[j].Indexed? && ArtifactID(t, req, us[i]) == ArtifactID(t, req, us[j])
    ensures i == j
  {
    hide KeyOf, Apart;
    var u, v := us[i], us[j];
    var p, q := t.encode(Record(t, req, u)), t.encode(Record(t, req, v));
    assert ArtifactID(t, req, u)[10..] == t.sha(p) && ArtifactID(t, req, v)[10..] == t.sha(q);
    assert Hashes(t, req, u, p) && Hashes(t, req, v, q);
    assert p == q;
    assert Record(t, req, u).classKey == Record(t, req, v).classKey;
    KeysApart(t, req, us, i, j);
  }

  /** The artifacts of a run, judged, satisfy the contract's demands on artifacts. */
  lemma {:induction false} ArtifactsFit(
    t: Tools, req: Request, us: seq<Unit>, validator: Artifact -> Validation)
    requires Fitting(t) && Sized(t, req, us) && AcceptsIndexes(validator) && Apart(us) && CollisionFree(t, req, us)
    requires req.limits.maxArtifacts > 0
    requires TotalBytes(ArtifactsFor(t, req, us)) <= req.limits.maxArtifactBytes as int
    ensures ArtifactsOk(JudgedFor(t, req, us, validator).artifacts, req.limits, true)
  {
    hide ArtifactsFor, ArtifactFor, Apart, CollisionFree, Fitting, Sized, AcceptsIndexes, TotalBytes, ArtifactShape, ArtifactID,
         JudgedFor, ChunksAgree, HasChunk;
    var arts := JudgedFor(t, req, us, validator).artifacts;
    JudgedCounts(t, req, us, validator);
    forall j | 0 <= j < |arts|
      ensures ArtifactShape(arts[j], req.limits, true)
      ensures HasChunk(arts, arts[j].chunk.setID, 0) && arts[j].chunk.count == 1
    {
      JudgedFacts(t, req, us, validator, j);
      OwnChunk(arts, j);
    }
    forall i, j | 0 <= i < j < |arts|
      ensures arts[i].id != arts[j].id && arts[i].relativePath != arts[j].relativePath && ChunksAgree(arts[i], arts[j])
    {
      JudgedApart(t, req, us, validator, i, j);
    }
    forall i, k: nat | 0 <= i < |arts| && k < arts[i].chunk.count ensures HasChunk(arts, arts[i].chunk.setID, k) {
      assert k == 0;
    }
  }

  lemma {:induction false} OwnChunk(arts: seq<Artifact>, j: nat)
    requires j < |arts| && arts[j].chunk.index == 0
    ensures HasChunk(arts, arts[j].chunk.setID, 0)
  {}

  lemma {:induction false} JudgedCounts(t: Tools, req: Request, us: seq<Unit>, validator: Artifact -> Validation)
    requires Fitting(t) && Sized(t, req, us)
    ensures |JudgedFor(t, req, us, validator).artifacts| == |ArtifactsFor(t, req, us)|
    ensures TotalBytes(JudgedFor(t, req, us, validator).artifacts) == TotalBytes(ArtifactsFor(t, req, us))
  {
    hide ArtifactsFor, TotalBytes;
    Normalization.JudgedKeepsBytes(OutputFor(t, req, us), validator);
  }

  /** One judged artifact: its shape, and the class it belongs to. */
  lemma {:induction false} JudgedFacts(
    t: Tools, req: Request, us: seq<Unit>, validator: Artifact -> Validation, j: nat)
    requires Fitting(t) && Sized(t, req, us) && AcceptsIndexes(validator) && req.limits.maxArtifacts > 0
    requires j < |JudgedFor(t, req, us, validator).artifacts|
    ensures |JudgedFor(t, req, us, validator).artifacts| == |ArtifactsFor(t, req, us)|
    ensures var a, u := JudgedFor(t, req, us, validator).artifacts[j], us[Source(t, req, us, j)];
      && ArtifactShape(a, req.limits, true) && a.kind == Index && a.chunk == Chunk(a.id, 0, 1)
      && u.Indexed? && a.id == ArtifactID(t, req, u) && a.classKeys == [KeyOf(t, req, u)]
  {
    hide ArtifactsFor, Fitting, Sized, AcceptsIndexes, ArtifactShape, ArtifactID, JudgedFor, KeyOf, IndexPath;
    JudgedCounts(t, req, us, validator);
    JudgedArtifact(t, req, us, validator, j);
    var u := us[Source(t, req, us, j)];
    SizedOne(t, req, us, u);
    ArtifactForShape(t, req, u, j + 1, req.limits, validator(ArtifactFor(t, req, u, j + 1)));
  }

  lemma {:induction false} SizedOne(t: Tools, req: Request, us: seq<Unit>, u: Unit)
    requires Sized(t, req, us) && u in us && u.Indexed?
    ensures Length(Payload(t, req, u)) <= MAX_INT64
  {}

  /** Two judged artifacts: nothing of theirs is the same. */
  lemma {:induction false} JudgedApart(
    t: Tools, req: Request, us: seq<Unit>, validator: Artifact -> Validation, i: nat, j: nat)
    requires Fitting(t) && Sized(t, req, us) && AcceptsIndexes(validator) && Apart(us) && CollisionFree(t, req, us)
    requires i < j < |JudgedFor(t, req, us, validator).artifacts| && req.limits.maxArtifacts > 0
    ensures var a, b := JudgedFor(t, req, us, validator).artifacts[i], JudgedFor(t, req, us, validator).artifacts[j];
      a.id != b.id && a.relativePath != b.relativePath && ChunksAgree(a, b)
  {
    hide ArtifactsFor, Sized, AcceptsIndexes, Apart, CollisionFree, ArtifactID, JudgedFor, KeyOf, IndexPath, ArtifactShape;
    JudgedFacts(t, req, us, validator, i);
    JudgedFacts(t, req, us, validator, j);
    SourcesApart(t, req, us, i, j);
    var u, v := us[Source(t, req, us, i)], us[Source(t, req, us, j)];
    var a, b := JudgedFor(t, req, us, validator).artifacts[i], JudgedFor(t, req, us, validator).artifacts[j];
    if a.id == b.id { IDsTell(t, req, us, Source(t, req, us, i), Source(t, req, us, j)); }
    JudgedPath(t, req, us, validator, i);
    JudgedPath(t, req, us, validator, j);
    var d, e := t.sha(Payload(t, req, u)), t.sha(Payload(t, req, v));
    assert Digest(d) && Digest(e);
    if a.relativePath == b.relativePath { IndexPathsApart(t, i + 1, j + 1, d, e); }
  }

  lemma {:induction false} JudgedPath(t: Tools, req: Request, us: seq<Unit>, validator: Artifact -> Validation, j: nat)
    requires Fitting(t) && Sized(t, req, us) && AcceptsIndexes(validator)
    requires j < |ArtifactsFor(t, req, us)| && j < |JudgedFor(t, req, us, validator).artifacts|
    ensures var u := us[Source(t, req, us, j)];
      && u.Indexed? && Digest(t.sha(Payload(t, req, u)))
      && JudgedFor(t, req, us, validator).artifacts[j].relativePath == IndexPath(t, j + 1, t.sha(Payload(t, req, u)))
  {
    hide ArtifactsFor, Sized, AcceptsIndexes, ArtifactID, JudgedFor, KeyOf, IndexPath;
    JudgedArtifact(t, req, us, validator, j);
    var u := us[Source(t, req, us, j)];
    assert Digest(t.sha(Payload(t, req, u)));
    SizedOne(t, req, us, u);
  }

  // ---------------------------------------------------------------- errors, links, status

  lemma {:induction false} ErrorFrom(t: Tools, req: Request, us: seq<Unit>, j: nat) returns (i: nat)
    requires j < |ErrorsFor(t, req, us)|
    ensures i < |us| && !us[i].Indexed? && ErrorsFor(t, req, us)[j] == ErrorFor(t, req, us[i])
  {
    hide ErrorFor;
    var front := us[..|us| - 1];
    if j == |ErrorsFor(t, req, front)| {
      i := |us| - 1;
    } else {
      i := ErrorFrom(t, req, front, j);
    }
  }

  lemma {:induction false} ErrorAt(t: Tools, req: Request, us: seq<Unit>, i: nat)
    requires i < |us| && !us[i].Indexed?
    ensures HasError(ErrorsFor(t, req, us), KeyOf(t, req, us[i]))
  {
    hide KeyOf, Sanitize;
    var front, all := us[..|us| - 1], ErrorsFor(t, req, us);
    if i == |us| - 1 {
      assert all[|all| - 1] == ErrorFor(t, req, us[i]);
    } else {
      ErrorAt(t, req, front, i);
      var j :| 0 <= j < |ErrorsFor(t, req, front)| && ErrorsFor(t, req, front)[j].classKey == KeyOf(t, req, us[i]);
      assert all[j] == ErrorsFor(t, req, front)[j];
    }
  }

  lemma {:induction false} ErrorsApart(t: Tools, req: Request, us: seq<Unit>, n: nat)
    requires n <= |us| && Apart(us) && CollisionFree(t, req, us)
    ensures NoRepeats(ErrorsFor(t, req, us[..n]))
  {
    hide Apart, CollisionFree, KeyOf, Sanitize;
    if n > 0 {
      ErrorsApart(t, req, us, n - 1);
      var front, u := us[..n - 1], us[n - 1];
      assert us[..n][..n - 1] == front && us[..n][n - 1] == u;
      if !u.Indexed? {
        var e := ErrorFor(t, req, u);
        if e in ErrorsFor(t, req, front) {
          var j :| 0 <= j < |ErrorsFor(t, req, front)| && ErrorsFor(t, req, front)[j] == e;
          var i := ErrorFrom(t, req, front, j);
          KeysApart(t, req, us, i, n - 1);
        }
        Appended(ErrorsFor(t, req, front), e);
      }
    }
  }

  lemma {:induction false} CodeFits(u: Unit)
    requires Made(u) && !u.Indexed?
    ensures Code(if u.Lost? then u.failure.code else u.code)
  {
    ClassCodes();
    ArchiveCodes();
    LongCode();
    hide Code;
    assert [DEPTH_CODE, READ_CODE, INVALID_CODE][0] == DEPTH_CODE;
  }

  lemma {:induction false} ClassCodes()
    ensures Code("class_read_failed") && Code("invalid_class")
  {
    assert '_' in "_.-";
  }

  lemma {:induction false} ArchiveCodes()
    ensures Code(READ_CODE) && Code(INVALID_CODE)
  {
    assert '_' in "_.-";
  }

  lemma {:induction false} LongCode()
    ensures Code(DEPTH_CODE)
  {
    assert '_' in "_.-";
  }

  lemma {:induction false} ErrorsFit(t: Tools, req: Request, us: seq<Unit>)
    requires Apart(us) && CollisionFree(t, req, us) && forall i | 0 <= i < |us| :: Made(us[i])
    ensures ErrorsOk(ErrorsFor(t, req, us), ClassesFor(t, req, us))
  {
    hide Apart, CollisionFree, KeyOf, Sanitize, Code, Made, ClassFor;
    var es, cs := ErrorsFor(t, req, us), ClassesFor(t, req, us);
    assert us[..|us|] == us;
    ErrorsApart(t, req, us, |us|);
    forall j | 0 <= j < |es| ensures ErrorShape(es[j], cs) {
      var i := ErrorFrom(t, req, us, j);
      CodeFits(us[i]);
      SanitizedIsText(if us[i].Lost? then us[i].failure.message else us[i].message);
      ListedKey(t, req, us[i]);
      assert ClassKeys(cs)[i] == KeyOf(t, req, us[i]);
    }
  }

  /** The limits that the engine itself watches. */
  ghost predicate Within(t: Tools, req: Request, us: seq<Unit>)
    requires Fitting(t) && Sized(t, req, us)
  {
    && |us| <= req.limits.maxClasses && |MethodKeys(ClassesFor(t, req, us))| <= req.limits.maxMethods
    && |ArtifactsFor(t, req, us)| <= req.limits.maxArtifacts
    && TotalBytes(ArtifactsFor(t, req, us)) <= req.limits.maxArtifactBytes as int
    && |ErrorsFor(t, req, us)| <= req.limits.maxClassErrors
  }

  lemma {:induction false} ClassesFit(t: Tools, req: Request, us: seq<Unit>)
    requires Fitting(t) && Sized(t, req, us) && Within(t, req, us) && Apart(us) && CollisionFree(t, req, us)
    requires forall i | 0 <= i < |us| :: Made(us[i])
    ensures ClassesOk(ClassesFor(t, req, us), req.limits)
  {
    hide Fitting, Sized, Apart, CollisionFree, ClassFor, ClassShape, MethodKeys, ArtifactsFor, ErrorsFor;
    forall i | 0 <= i < |us| ensures ClassShape(ClassFor(t, req, us[i])) {
      assert Made(us[i]);
      ClassForShape(t, req, us[i]);
    }
    ClassKeysApart(t, req, us);
    assert us[..|us|] == us;
    MethodKeysApart(t, req, us, |us|);
  }

  /** A class and its artifact name each other. */
  lemma {:induction false} Linked(t: Tools, req: Request, us: seq<Unit>, validator: Artifact -> Validation, i: nat)
    requires Fitting(t) && Sized(t, req, us) && AcceptsIndexes(validator) && req.limits.maxArtifacts > 0 && i < |us|
    ensures Answered(ClassFor(t, req, us[i]), JudgedFor(t, req, us, validator).artifacts)
    ensures us[i].Indexed? ==> HasBytecode(ClassFor(t, req, us[i]), JudgedFor(t, req, us, validator).artifacts)
  {
    hide Sized, AcceptsIndexes, ArtifactShape, ArtifactID, JudgedFor, KeyOf, ArtifactsFor, Fitting, FallbackName, ArchiveName;
    ListedKey(t, req, us[i]);
    if us[i].Indexed? {
      var arts := JudgedFor(t, req, us, validator).artifacts;
      SizedOne(t, req, us, us[i]);
      var j := ArtifactAt(t, req, us, i);
      JudgedCounts(t, req, us, validator);
      SameArtifactSource(t, req, us, validator, i, j);
      assert arts[j].id in ClassFor(t, req, us[i]).artifactIDs;
    }
  }

  lemma {:induction false} SameArtifactSource(
    t: Tools, req: Request, us: seq<Unit>, validator: Artifact -> Validation, i: nat, j: nat)
    requires Fitting(t) && Sized(t, req, us) && AcceptsIndexes(validator) && i < |us| && us[i].Indexed?
    requires Length(Payload(t, req, us[i])) <= MAX_INT64
    requires j < |ArtifactsFor(t, req, us)| && ArtifactsFor(t, req, us)[j] == ArtifactFor(t, req, us[i], j + 1)
    requires |JudgedFor(t, req, us, validator).artifacts| == |ArtifactsFor(t, req, us)|
    ensures var a := JudgedFor(t, req, us, validator).artifacts[j];
      a.id == ArtifactID(t, req, us[i]) && a.kind == Index && KeyOf(t, req, us[i]) in a.classKeys
  {
    hide ArtifactsFor, ErrorsFor, ClassesFor, IndexPath, ArtifactID, KeyOf, Sized;
  }

  lemma {:induction false} LinkedBack(t: Tools, req: Request, us: seq<Unit>, validator: Artifact -> Validation, j: nat)
    requires Fitting(t) && Sized(t, req, us) && AcceptsIndexes(validator) && req.limits.maxArtifacts > 0
    requires j < |JudgedFor(t, req, us, validator).artifacts|
    ensures NamedBack(JudgedFor(t, req, us, validator).artifacts[j], ClassesFor(t, req, us))
  {
    hide Sized, AcceptsIndexes, ArtifactShape, ArtifactID, JudgedFor, KeyOf, ArtifactsFor, Fitting, FallbackName, ArchiveName;
    JudgedFacts(t, req, us, validator, j);
    var i := Source(t, req, us, j);
    ListedKey(t, req, us[i]);
    var cs := ClassesFor(t, req, us);
    assert cs[i] == ClassFor(t, req, us[i]);
    assert JudgedFor(t, req, us, validator).artifacts[j].id in cs[i].artifactIDs;
  }

  /** The result contract is kept: whatever was listed, if no two hashed strings collide and
      the limits the engine watches hold, the output passes every check. */
  lemma {:induction false} OutputKeepsContract(t: Tools, req: Request, us: seq<Unit>, validator: Artifact -> Validation)
    requires Fitting(t) && Sized(t, req, us) && AcceptsIndexes(validator) && Normalized(req.limits)
    requires us != [] && Within(t, req, us) && Apart(us) && CollisionFree(t, req, us)
    requires forall i | 0 <= i < |us| :: Made(us[i])
    ensures Contract(JudgedFor(t, req, us, validator), req.limits)
  {
    hide Fitting, Sized, AcceptsIndexes, Apart, CollisionFree, Made, ArtifactsOk, ClassesOk, ErrorsOk, Answered, NamedBack,
         HasBytecode, JudgedFor, ClassFor, HasError, TotalBytes, MethodKeys, ArtifactsFor, ErrorsFor, StatusOk, Evidence;
    var o := JudgedFor(t, req, us, validator);
    JudgedParts(t, req, us, validator);
    JudgedCounts(t, req, us, validator);
    ClassesFit(t, req, us);
    ArtifactsFit(t, req, us, validator);
    ErrorsFit(t, req, us);
    forall i | 0 <= i < |o.classes| ensures Answered(o.classes[i], o.artifacts) && Evidence(o.classes[i], o) {
      Linked(t, req, us, validator, i);
      if !us[i].Indexed? { ErrorAt(t, req, us, i); }
      EvidenceFor(t, req, us, o, i);
    }
    forall j | 0 <= j < |o.artifacts| ensures NamedBack(o.artifacts[j], o.classes) {
      LinkedBack(t, req, us, validator, j);
    }
    StatusFor(t, req, us, validator);
  }

  lemma {:induction false} JudgedParts(t: Tools, req: Request, us: seq<Unit>, validator: Artifact -> Validation)
    requires Fitting(t) && Sized(t, req, us)
    ensures var o := JudgedFor(t, req, us, validator);
      && o.classes == ClassesFor(t, req, us) && o.classErrors == ErrorsFor(t, req, us) && o.warnings == []
      && o.execution == None && o.status == (if o.classErrors == [] then AllBytecode else Partial)
  {
    hide ClassFor, ErrorsFor, ArtifactsFor;
  }

  lemma {:induction false} EvidenceFor(t: Tools, req: Request, us: seq<Unit>, o: Output, i: nat)
    requires i < |us| && o.classes == ClassesFor(t, req, us)
    requires us[i].Indexed? ==> HasBytecode(ClassFor(t, req, us[i]), o.artifacts)
    requires !us[i].Indexed? ==> HasError(o.classErrors, KeyOf(t, req, us[i]))
    ensures Evidence(o.classes[i], o)
  {
    hide KeyOf, FallbackName, ArchiveName, ArtifactID, HasBytecode, HasError;
    ListedKey(t, req, us[i]);
  }

  lemma {:induction false} StatusFor(t: Tools, req: Request, us: seq<Unit>, validator: Artifact -> Validation)
    requires Fitting(t) && Sized(t, req, us) && AcceptsIndexes(validator) && req.limits.maxArtifacts > 0
    ensures StatusOk(JudgedFor(t, req, us, validator))
  {
    hide Fitting, Sized, AcceptsIndexes, JudgedFor, KeyOf, ArtifactID, FallbackName, ArchiveName, ArtifactsFor, ArtifactShape;
    var o := JudgedFor(t, req, us, validator);
    JudgedParts(t, req, us, validator);
    forall j | 0 <= j < |o.artifacts| ensures o.artifacts[j].kind != SourceText {
      JudgedFacts(t, req, us, validator, j);
    }
    forall i | 0 <= i < |us| && o.classErrors == [] ensures us[i].Indexed? {
      if !us[i].Indexed? { ErrorAt(t, req, us, i); }
    }
  }

  // ---------------------------------------------------------------- the run

  /** What a candidate must become. */
  ghost predicate UnitFor(t: Tools, c: Candidate, u: Unit) {
    match c.content
    case None => u == Refused(c, "class_read_failed", "class bytes could not be read")
    case Some(payload) =>
      if Layout.ParseClass(payload).None? then u == Refused(c, "invalid_class", t.describe(payload))
      else u.Indexed? && u.candidate == c && ClassReported(payload, Layout.ParseClass(payload).value, u.parsed)
  }

  /** The units are the failures and then the candidates, each in turn. */
  ghost predicate Follows(t: Tools, us: seq<Unit>, fs: seq<Failure>, cs: seq<Candidate>) {
    && |us| == |fs| + |cs|
    && (forall i | 0 <= i < |fs| :: us[i] == Lost(fs[i]))
    && (forall i | 0 <= i < |cs| :: UnitFor(t, cs[i], us[|fs| + i]))
  }

  lemma {:induction false} UnitIsMade(t: Tools, c: Candidate, u: Unit)
    requires UnitFor(t, c, u)
    ensures Made(u) && !u.Lost? && u.candidate == c
  {
    hide ClassReported, Fits;
    if c.content.Some? && Layout.ParseClass(c.content.value).Some? { ParsedFits(c.content.value, u.parsed); }
  }

  lemma {:induction false} FollowsApart(t: Tools, us: seq<Unit>, fs: seq<Failure>, cs: seq<Candidate>)
    requires Follows(t, us, fs, cs) && AllApart(cs, fs)
    ensures Apart(us)
  {
    hide UnitFor;
    forall i, j | 0 <= i < j < |us| && KeyPrefix(us[i]) == KeyPrefix(us[j]) ensures Identity(us[i]) != Identity(us[j]) {
      if j < |fs| {
        assert ByFailure(fs[i]) != ByFailure(fs[j]);
      } else {
        UnitAt(t, us, fs, cs, j);
        if i >= |fs| {
          UnitAt(t, us, fs, cs, i);
          assert ByIdentity(cs[i - |fs|]) != ByIdentity(cs[j - |fs|]);
        }
      }
    }
  }

  lemma {:induction false} UnitAt(t: Tools, us: seq<Unit>, fs: seq<Failure>, cs: seq<Candidate>, i: nat)
    requires Follows(t, us, fs, cs) && |fs| <= i < |us|
    ensures !us[i].Lost? && us[i].candidate == cs[i - |fs|] && Made(us[i])
  {
    hide UnitFor, Made;
    assert UnitFor(t, cs[i - |fs|], us[|fs| + (i - |fs|)]);
    UnitIsMade(t, cs[i - |fs|], us[i]);
  }

  lemma {:induction false} FollowsMade(t: Tools, us: seq<Unit>, fs: seq<Failure>, cs: seq<Candidate>)
    requires Follows(t, us, fs, cs) && forall f | f in fs :: f.code in [DEPTH_CODE, READ_CODE, INVALID_CODE]
    ensures forall i | 0 <= i < |us| :: Made(us[i])
  {
    hide UnitFor;
    forall i | 0 <= i < |us| ensures Made(us[i]) {
      if i >= |fs| { UnitAt(t, us, fs, cs, i); } else { assert us[i] == Lost(fs[i]) && fs[i] in fs; }
    }
  }

  /** What is listed so far, as the output slices and the artifact writer keep it. */
  class Listing {
    const t: Tools
    const req: Request
    var classes: seq<ClassIndex>
    var artifacts: seq<Artifact>
    var errors: seq<ClassError>
    var methodCount: nat
    /** The artifact writer: bytes and files so far. */
    var written: int64
    var paths: nat
    ghost var units: seq<Unit>

    constructor (t: Tools, req: Request)
      requires Fitting(t) && Normalized(req.limits)
      ensures this.t == t && this.req == req && units == [] && Valid()
    {
      this.t, this.req := t, req;
      classes, artifacts, errors, methodCount, written, paths := [], [], [], 0, 0, 0;
      units := [];
    }

    ghost predicate Valid()
      reads this
    {
      && Fitting(t) && Normalized(req.limits) && Sized(t, req, units)
      && classes == ClassesFor(t, req, units) && artifacts == ArtifactsFor(t, req, units)
      && errors == ErrorsFor(t, req, units)
      && methodCount == |MethodKeys(classes)| <= req.limits.maxMethods
      && paths == |artifacts| <= req.limits.maxArtifacts && |errors| <= req.limits.maxClassErrors
      && 0 <= written <= req.limits.maxArtifactBytes && written as int == TotalBytes(artifacts)
    }

    /** appendArchiveFailure and appendClassFailure, and the error limit behind them. */
    method AppendFailure(u: Unit) returns (ok: bool)
      requires Valid() && !u.Indexed?
      modifies this
      ensures units == old(units) + [u]
      ensures ok ==> Valid()
      ensures !ok ==> |ErrorsFor(t, req, units)| > req.limits.maxClassErrors
    {
      hide Fitting, Normalized, Sized, MethodKeys, ClassFor, TotalBytes, KeyOf, Sanitize, ErrorFor;
      FailureGrows(t, req, units, u);
      classes := classes + [ClassFor(t, req, u)];
      errors := errors + [ErrorFor(t, req, u)];
      units := units + [u];
      return |errors| <= req.limits.maxClassErrors;
    }

    /** A parsed class and its index artifact: the method limit, the artifact limit and the
        byte limit of the writer. */
    method AppendIndexed(c: Candidate, parsed: ParsedClass) returns (ok: bool)
      requires Valid()
      modifies this
      ensures units == old(units) + [Indexed(c, parsed)]
      ensures ok ==> Valid()
      ensures !ok && Sized(t, req, units) && Fitting(t) ==>
        || |MethodKeys(ClassesFor(t, req, units))| > req.limits.maxMethods
        || |ArtifactsFor(t, req, units)| > req.limits.maxArtifacts
        || TotalBytes(ArtifactsFor(t, req, units)) > req.limits.maxArtifactBytes as int
    {
      hide Fitting, Sized, MethodKeys, TotalBytes, KeyOf, ArtifactFor, ArtifactID, ArtifactsFor, IndexPath, ErrorsFor;
      ghost var before, u := units, Indexed(c, parsed);
      units := units + [u];
      var entry := BuildClassIndex(t, req, c, parsed);
      if Sized(t, req, units) { IndexedGrows(t, req, before, u); }
      if |parsed.methods| > req.limits.maxMethods - methodCount { return false; }
      if |artifacts| >= req.limits.maxArtifacts { return false; }
      var payload := t.encode(IndexRecord(entry.key, c.entryPath, c.release, parsed));
      var size := Length(payload);
      if size > req.limits.maxArtifactBytes as int - written as int { return false; }
      SizedGrows(t, req, before, u);
      var digest := t.sha(payload);
      IsDigest(t, payload);
      var id := "jvm-index-" + digest;
      IndexIs(t, req, u, paths + 1);
      artifacts := artifacts + [Artifact(id, Index, MEDIA_TYPE, IndexPath(t, paths + 1, digest), digest, size as int64,
                                         Unvalidated, Chunk(id, 0, 1), [entry.key])];
      classes := classes + [entry.(artifactIDs := [id])];
      methodCount := methodCount + |parsed.methods|;
      written := written + size as int64;
      paths := paths + 1;
      return true;
    }
  }

  lemma {:induction false} IsDigest(t: Tools, x: string)
    requires Fitting(t)
    ensures Digest(t.sha(x)) && |t.sha(x)| == 64
  {}

  /** buildJVMClassIndex */
  method BuildClassIndex(t: Tools, req: Request, c: Candidate, parsed: ParsedClass) returns (entry: ClassIndex)
    ensures var u := Indexed(c, parsed);
      entry == ClassFor(t, req, u).(artifactIDs := []) && entry.key == KeyOf(t, req, u)
  {
    hide ArtifactID;
    var key := StableKey(t, "class", [req.format, c.identity, parsed.binaryName]);
    var methods, n := [], 0;
    while n < |parsed.methods|
      invariant 0 <= n <= |parsed.methods|
      invariant methods == MethodEntries(t, req, Indexed(c, parsed), parsed.methods[..n])
    {
      var m := parsed.methods[n];
      var range := if m.code.Some? then Some(BytecodeRange(m.code.value.offset, |m.code.value.bytes|)) else None;
      methods := methods + [MethodIndex(StableKey(t, "method", [key, m.name, m.descriptor]), m.name,
                                        parsed.binaryName + "." + m.name, m.descriptor, "", None, range)];
      n := n + 1;
    }
    assert parsed.methods[..|parsed.methods|] == parsed.methods;
    return ClassIndex(key, KindClass, parsed.binaryName, parsed.binaryName, parsed.sourceFile, LANGUAGE,
                      ClassBytecodeOnly, [], methods);
  }

  lemma {:induction false} FailureGrows(t: Tools, req: Request, us: seq<Unit>, u: Unit)
    requires Fitting(t) && Sized(t, req, us) && !u.Indexed?
    ensures Sized(t, req, us + [u])
    ensures ClassesFor(t, req, us + [u]) == ClassesFor(t, req, us) + [ClassFor(t, req, u)]
    ensures ErrorsFor(t, req, us + [u]) == ErrorsFor(t, req, us) + [ErrorFor(t, req, u)]
    ensures ArtifactsFor(t, req, us + [u]) == ArtifactsFor(t, req, us)
    ensures MethodKeys(ClassesFor(t, req, us + [u])) == MethodKeys(ClassesFor(t, req, us))
  {
    hide Fitting, KeyOf, Sanitize, ErrorFor, ArchiveName, FallbackName;
    var all := us + [u];
    assert all[..|all| - 1] == us;
    assert ClassesFor(t, req, all) == ClassesFor(t, req, us) + [ClassFor(t, req, u)];
    assert KeysOf(ClassFor(t, req, u).methods) == [];
    LastClass(ClassesFor(t, req, us), ClassFor(t, req, u));
  }

  lemma {:induction false} LastClass(cs: seq<ClassIndex>, c: ClassIndex)
    ensures MethodKeys(cs + [c]) == MethodKeys(cs) + KeysOf(c.methods)
  {
    assert (cs + [c])[..|cs|] == cs;
  }

  lemma {:induction false} SizedGrows(t: Tools, req: Request, us: seq<Unit>, u: Unit)
    requires Sized(t, req, us) && (u.Indexed? ==> Length(Payload(t, req, u)) <= MAX_INT64)
    ensures Sized(t, req, us + [u])
  {
    hide KeyOf, Length;
  }

  lemma {:induction false} IndexedGrows(t: Tools, req: Request, us: seq<Unit>, u: Unit)
    requires Fitting(t) && Sized(t, req, us + [u]) && u.Indexed?
    ensures Sized(t, req, us) && Length(Payload(t, req, u)) <= MAX_INT64
    ensures ClassesFor(t, req, us + [u]) == ClassesFor(t, req, us) + [ClassFor(t, req, u)]
    ensures ErrorsFor(t, req, us + [u]) == ErrorsFor(t, req, us)
    ensures ArtifactsFor(t, req, us + [u]) ==
              ArtifactsFor(t, req, us) + [ArtifactFor(t, req, u, |ArtifactsFor(t, req, us)| + 1)]
    ensures MethodKeys(ClassesFor(t, req, us + [u])) == MethodKeys(ClassesFor(t, req, us)) + KeysOf(ClassFor(t, req, u).methods)
    ensures TotalBytes(ArtifactsFor(t, req, us + [u])) == TotalBytes(ArtifactsFor(t, req, us)) + Length(Payload(t, req, u))
  {
    hide Fitting, KeyOf, ErrorFor, ArtifactID, IndexPath, MethodEntry;
    var all := us + [u];
    assert all[..|all| - 1] == us && u in all;
    assert ClassesFor(t, req, all) == ClassesFor(t, req, us) + [ClassFor(t, req, u)];
    LastClass(ClassesFor(t, req, us), ClassFor(t, req, u));
    var arts := ArtifactsFor(t, req, all);
    assert arts[..|arts| - 1] == ArtifactsFor(t, req, us);
  }

  lemma {:induction false} IndexIs(t: Tools, req: Request, u: Unit, n: nat)
    requires Fitting(t) && u.Indexed? && Length(Payload(t, req, u)) <= MAX_INT64
    ensures var digest := t.sha(Payload(t, req, u));
      && |digest| == 64 && ArtifactID(t, req, u) == "jvm-index-" + digest
      && ArtifactFor(t, req, u, n) ==
         Artifact("jvm-index-" + digest, Index, MEDIA_TYPE, IndexPath(t, n, digest), digest,
                  Length(Payload(t, req, u)) as int64, Unvalidated, Chunk("jvm-index-" + digest, 0, 1), [KeyOf(t, req, u)])
  {
    hide KeyOf, IndexPath;
    assert Digest(t.sha(Payload(t, req, u)));
  }

  /** The run ran into one of the limits it watches, at the last unit of these. */
  ghost predicate Over(t: Tools, req: Request, us: seq<Unit>) {
    Fitting(t) && Sized(t, req, us) ==>
      || |MethodKeys(ClassesFor(t, req, us))| > req.limits.maxMethods
      || |ArtifactsFor(t, req, us)| > req.limits.maxArtifacts
      || TotalBytes(ArtifactsFor(t, req, us)) > req.limits.maxArtifactBytes as int
      || |ErrorsFor(t, req, us)| > req.limits.maxClassErrors
  }

  /** The output lists these units, which are all that was given, and is within the limits. */
  ghost predicate Lists(
    t: Tools, req: Request, us: seq<Unit>, fs: seq<Failure>, cs: seq<Candidate>, o: Output)
  {
    Fitting(t) && Sized(t, req, us) && us != [] && Follows(t, us, fs, cs) && o == OutputFor(t, req, us)
  }

  /** Why there is no output: nothing to list, too many classes, or a limit at the last of the
      units listed so far. */
  ghost predicate GivesUp(t: Tools, req: Request, us: seq<Unit>, fs: seq<Failure>, cs: seq<Candidate>) {
    || |fs| + |cs| == 0 || |fs| + |cs| > req.limits.maxClasses
    || (us != [] && Over(t, req, us) &&
        exists n: nat, k: nat | n <= |fs| && k <= |cs| :: Follows(t, us, fs[..n], cs[..k]))
  }

  /** One candidate: unreadable, refused by the parser, or indexed. */
  method ListCandidate(listing: Listing, c: Candidate) returns (ok: bool, ghost u: Unit)
    requires listing.Valid()
    modifies listing
    ensures listing.units == old(listing.units) + [u] && UnitFor(listing.t, c, u)
    ensures ok ==> listing.Valid()
    ensures !ok ==> Over(listing.t, listing.req, listing.units)
  {
    hide Fitting, Normalized, Sized, MethodKeys, TotalBytes, UnitFor, ClassFor, ArtifactsFor, ErrorsFor, ClassReported,
         Layout.ParseClass, Over, ClassesFor;
    var t := listing.t;
    if c.content.None? {
      u := Refused(c, "class_read_failed", "class bytes could not be read");
      ok := listing.AppendFailure(Refused(c, "class_read_failed", "class bytes could not be read"));
      IsRefused(t, c, u);
    } else {
      var parsed := ParseJVMClass(c.content.value);
      ParsedOr(c.content.value, parsed);
      if parsed.None? {
        u := Refused(c, "invalid_class", t.describe(c.content.value));
        ok := listing.AppendFailure(Refused(c, "invalid_class", t.describe(c.content.value)));
        IsRefused(t, c, u);
      } else {
        u := Indexed(c, parsed.value);
        ok := listing.AppendIndexed(c, parsed.value);
        IsIndexed(t, c, u);
      }
    }
    if !ok { IsOver(t, listing.req, listing.units); }
  }

  /** Decompile, once the failures and the candidates are known: it lists every one of them
      in turn, or stops at a limit. */
  method Decompile(t: Tools, req: Request, failures: seq<Failure>, candidates: seq<Candidate>)
    returns (r: Option<Output>, ghost us: seq<Unit>)
    requires Fitting(t) && Normalized(req.limits)
    ensures r.Some? ==> Sized(t, req, us) && r.value == OutputFor(t, req, us) && Within(t, req, us)
    ensures r.Some? ==> us != [] && Follows(t, us, failures, candidates)
    ensures r.Some? ==> exists units :: Lists(t, req, units, failures, candidates, r.value)
    ensures r.None? ==> GivesUp(t, req, us, failures, candidates)
  {
    hide Fitting, Normalized, Sized, MethodKeys, TotalBytes, UnitFor, ClassFor, ArtifactsFor, ErrorsFor, OutputFor,
         ClassReported, Layout.ParseClass, Within, Over, ClassesFor;
    us := [];
    if |candidates| == 0 && |failures| == 0 { return None, us; }
    if |candidates| + |failures| > req.limits.maxClasses { return None, us; }
    var listing := new Listing(t, req);
    var n, ok := 0, true;
    while n < |failures|
      invariant 0 <= n <= |failures| && fresh(listing) && listing.t == t && listing.req == req
      invariant listing.Valid() && Follows(t, listing.units, failures[..n], [])
    {
      ok := listing.AppendFailure(Lost(failures[n]));
      us := listing.units;
      assert Follows(t, us, failures[..n + 1], candidates[..0]);
      if !ok {
        IsOver(t, req, us);
        return None, us;
      }
      n := n + 1;
    }
    assert failures[..|failures|] == failures;
    n := 0;
    while n < |candidates|
      invariant 0 <= n <= |candidates| && fresh(listing) && listing.t == t && listing.req == req
      invariant listing.Valid() && Follows(t, listing.units, failures, candidates[..n])
    {
      ghost var before, u := listing.units, Lost(Failure("", "", "", ""));
      ok, u := ListCandidate(listing, candidates[n]);
      us := listing.units;
      FollowsGrows(t, before, failures, candidates, n, u);
      if !ok {
        assert failures[..|failures|] == failures;
        return None, us;
      }
      n := n + 1;
    }
    assert candidates[..|candidates|] == candidates;
    us := listing.units;
    IsOutput(t, req, us, candidates, failures);
    assert Lists(t, req, us, failures, candidates, OutputFor(t, req, us));
    var status := if |listing.errors| > 0 then Partial else AllBytecode;
    return Some(Output(status, listing.classes, listing.artifacts, listing.errors, [], None)), us;
  }

  lemma {:induction false} IsOver(t: Tools, req: Request, us: seq<Unit>)
    ensures
      ((Fitting(t) && Sized(t, req, us) ==>
         || |MethodKeys(ClassesFor(t, req, us))| > req.limits.maxMethods
         || |ArtifactsFor(t, req, us)| > req.limits.maxArtifacts
         || TotalBytes(ArtifactsFor(t, req, us)) > req.limits.maxArtifactBytes as int) ||
       |ErrorsFor(t, req, us)| > req.limits.maxClassErrors) ==> Over(t, req, us)
  {
    hide Fitting, Sized, MethodKeys, ClassesFor, ArtifactsFor, TotalBytes, ErrorsFor;
  }

  lemma {:induction false} IsRefused(t: Tools, c: Candidate, u: Unit)
    requires c.content.None? ==> u == Refused(c, "class_read_failed", "class bytes could not be read")
    requires c.content.Some? ==>
      Layout.ParseClass(c.content.value).None? && u == Refused(c, "invalid_class", t.describe(c.content.value))
    ensures UnitFor(t, c, u)
  {
    hide Layout.ParseClass, ClassReported;
  }

  lemma {:induction false} IsIndexed(t: Tools, c: Candidate, u: Unit)
    requires c.content.Some? && Layout.ParseClass(c.content.value).Some? && u.Indexed? && u.candidate == c
    requires ClassReported(c.content.value, Layout.ParseClass(c.content.value).value, u.parsed)
    ensures UnitFor(t, c, u)
  {
    hide Layout.ParseClass, ClassReported;
  }

  lemma {:induction false} ParsedOr(payload: Bytes, r: Option<ParsedClass>)
    requires r.Some? <==> exists c :: Layout.WellFormedClass(c) && Layout.Serialize(c) == payload
    ensures r.Some? <==> Layout.ParseClass(payload).Some?
  {
    hide Layout.ParseClass, Layout.WellFormedClass, Layout.Serialize;
    AcceptedIff(payload);
  }

  lemma {:induction false} FollowsGrows(
    t: Tools, us: seq<Unit>, fs: seq<Failure>, cs: seq<Candidate>, n: nat, u: Unit)
    requires n < |cs| && Follows(t, us, fs, cs[..n]) && UnitFor(t, cs[n], u)
    ensures Follows(t, us + [u], fs, cs[..n + 1])
  {
    hide UnitFor;
    var all, next := us + [u], cs[..n + 1];
    forall i | 0 <= i < n + 1 ensures UnitFor(t, next[i], all[|fs| + i]) {
      if i < n { assert UnitFor(t, cs[..n][i], us[|fs| + i]); }
    }
  }

  lemma {:induction false} IsOutput(t: Tools, req: Request, us: seq<Unit>, cs: seq<Candidate>, fs: seq<Failure>)
    requires Fitting(t) && Sized(t, req, us) && Follows(t, us, fs, cs) && |cs| + |fs| <= req.limits.maxClasses
    requires |MethodKeys(ClassesFor(t, req, us))| <= req.limits.maxMethods
    requires |ArtifactsFor(t, req, us)| <= req.limits.maxArtifacts
    requires TotalBytes(ArtifactsFor(t, req, us)) <= req.limits.maxArtifactBytes as int
    requires |ErrorsFor(t, req, us)| <= req.limits.maxClassErrors
    ensures Within(t, req, us)
    ensures var errors := ErrorsFor(t, req, us);
      OutputFor(t, req, us) == Output(if |errors| > 0 then Partial else AllBytecode, ClassesFor(t, req, us),
                                      ArtifactsFor(t, req, us), errors, [], None)
  {
    hide UnitFor, Fitting, Sized, MethodKeys, ClassesFor, ArtifactsFor, TotalBytes, ErrorsFor;
  }

  // ---------------------------------------------------------------- from input to result

  /** What the engine is given: one class file, a JAR, or a WAR or EAR with archives in it. */
  datatype Input = OneClass(bytes: Bytes) | Jar(size: uint64, archive: Archive) | Nested(size: uint64, archive: Archive)

  /** Why an input has no candidates at all: its archive is condemned, or something on the
      walk is too large. */
  ghost predicate Rejected(config: Config, source: Input) {
    match source
    case OneClass(bytes) => |bytes| > config.maxClassBytes as int
    case Jar(size, archive) => Condemned(archive) || OverLimit(archive, config, size, 0, 0)
    case Nested(size, archive) => Condemned(archive) || TooMuch(archive, [], 1, config, size, Cost(0, 0))
  }

  /** What an input has to list. */
  ghost predicate Offered(config: Config, source: Input, candidates: seq<Candidate>, failures: seq<Failure>) {
    match source
    case OneClass(bytes) =>
      failures == [] &&
      candidates == [Candidate("input.class", "input.class", Prefixed(["input.class"]), 0, Some(bytes))]
    case Jar(size, archive) =>
      archive.Archive? && failures == [] &&
      forall c :: c in candidates <==>
        exists p :: Picked(archive.entries, config.targetRelease, p) && OwnCandidate(c, p)
    case Nested(size, archive) =>
      archive.Archive? && exists found ::
        && Enumerated(found, config, size, archive.entries)
        && multiset(candidates) == multiset(found.candidates) && multiset(failures) == multiset(found.failures)
  }

  /** The candidates of an input; `ok` is false for an error of the whole run. */
  method Candidates(config: Config, source: Input)
    returns (ok: bool, candidates: seq<Candidate>, failures: seq<Failure>)
    requires Configured(config)
    ensures ok ==> AllApart(candidates, failures)
    ensures ok ==> forall f | f in failures :: f.code in [DEPTH_CODE, READ_CODE, INVALID_CODE]
    ensures ok ==> Offered(config, source, candidates, failures)
    ensures !ok ==> Rejected(config, source)
  {
    hide TooMuch, OverLimit, Condemned, Picked, Enumerated, OwnCandidate;
    candidates, failures := [], [];
    match source
    case OneClass(bytes) =>
      if |bytes| > config.maxClassBytes as int { return false, candidates, failures; }
      candidates := [Candidate("input.class", "input.class", Prefixed(["input.class"]), 0, Some(bytes))];
      return true, candidates, failures;
    case Jar(size, archive) =>
      var outcome;
      outcome, candidates := EnumerateOne(archive, config, size);
      return outcome == Fine, candidates, failures;
    case Nested(size, archive) =>
      var outcome;
      ghost var found;
      outcome, candidates, failures, found := EnumerateNested(archive, config, size);
      if outcome == Fine { EnumeratedCodes(found, failures, config, size, archive.entries); }
      return outcome == Fine, candidates, failures;
  }

  lemma {:induction false} EnumeratedCodes(
    found: Progress, failures: seq<Failure>, config: Config, size: uint64, root: seq<Entry>)
    requires Enumerated(found, config, size, root) && multiset(failures) == multiset(found.failures)
    ensures forall f | f in failures :: f.code in [DEPTH_CODE, READ_CODE, INVALID_CODE]
  {
    hide CandidatesOk, FailuresOk, JvmArchiveWalk.Complete;
    CodesOf(found, failures, config);
  }

  lemma {:induction false} CodesOf(found: Progress, failures: seq<Failure>, config: Config)
    requires FailuresOk(found.failures, found.failed, config) && multiset(failures) == multiset(found.failures)
    ensures forall f | f in failures :: f.code in [DEPTH_CODE, READ_CODE, INVALID_CODE]
  {
    hide FailureAt;
    Normalization.SameElements(failures, found.failures);
    forall f | f in failures ensures f.code in [DEPTH_CODE, READ_CODE, INVALID_CODE] {
      var i :| 0 <= i < |found.failures| && found.failures[i] == f;
      FailureIdentity(f, found.failed[i]);
    }
  }

  /** Unless hashed strings collide, the output keeps the contract, in every order. */
  ghost predicate Keeps(t: Tools, req: Request, us: seq<Unit>, o: Output, validator: Artifact -> Validation) {
    CollisionFree(t, req, us) ==>
      && Contract(Normalization.Judged(o, validator), req.limits)
      && forall n | Normalization.NormalForm(o, n) :: Contract(Normalization.Judged(n, validator), req.limits)
  }

  /** The engine always meets its contract: when it returns an output and no two of the
      strings it hashed collide, then the output, in the order in which it is listed and in
      every order that normalising may give it, keeps the contract. */
  method Run(t: Tools, req: Request, config: Config, source: Input, ghost validator: Artifact -> Validation)
    returns (r: Option<Output>, ghost us: seq<Unit>)
    requires Fitting(t) && Normalized(req.limits) && Configured(config) && AcceptsIndexes(validator)
    ensures r.Some? ==> Keeps(t, req, us, r.value, validator)
    ensures r.Some? ==> exists units, failures, candidates ::
      Lists(t, req, units, failures, candidates, r.value) && Keeps(t, req, units, r.value, validator)
    ensures r.None? ==> Rejected(config, source) || exists failures, candidates ::
      Offered(config, source, candidates, failures) && GivesUp(t, req, us, failures, candidates)
  {
    hide Rejected, Offered, GivesUp, Fitting, Normalized, Configured, AcceptsIndexes, CollisionFree, Contract,
         AllApart, Follows, Apart, Made, OutputFor,
         Sized, Within, Normalization.NormalForm, Over;
    us := [];
    var ok, candidates, failures := Candidates(config, source);
    if !ok { return None, us; }
    r, us := Decompile(t, req, failures, candidates);
    if r.Some? {
      FollowsApart(t, us, failures, candidates);
      FollowsMade(t, us, failures, candidates);
      if CollisionFree(t, req, us) {
        OutputKeepsContract(t, req, us, validator);
        forall n | Normalization.NormalForm(r.value, n) ensures Contract(Normalization.Judged(n, validator), req.limits) {
          Rearrangement.NormalFormKeepsContract(r.value, n, validator, req.limits);
        }
      }
      assert Lists(t, req, us, failures, candidates, r.value) && Keeps(t, req, us, r.value, validator);
    }
  }
}
