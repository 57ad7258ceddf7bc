/** validateOutput as it runs, over maps, sets and counters: it accepts exactly the outputs
    that keep the contract. */
module BytecodeValidator {
  import opened Words
  import opened Texts
  import opened BytecodeContract

  // ---------------------------------------------------------------- chunk sets

  /** One chunk set as it is collected. */
  datatype ChunkSet = ChunkSet(count: nat, seen: set<nat>)

  /** The sets hold the chunks of the artifacts, and nothing else. */
  ghost predicate Collected(sets: map<string, ChunkSet>, arts: seq<Artifact>) {
    && (forall i | 0 <= i < |arts| ::
          arts[i].chunk.setID in sets && sets[arts[i].chunk.setID].count == arts[i].chunk.count)
    && (forall s | s in sets ::
          && (forall k: nat :: k in sets[s].seen <==> HasChunk(arts, s, k))
          && (exists i :: 0 <= i < |arts| && arts[i].chunk.setID == s))
  }

  lemma {:induction false} AllBelow(seen: set<nat>, count: nat)
    requires forall k | k in seen :: k < count
    ensures |seen| <= count
    ensures |seen| == count <==> forall k: nat | k < count :: k in seen
  {
    if count > 0 {
      AllBelow(seen - {count - 1}, count - 1);
      if count - 1 in seen {
        assert |seen| == |seen - {count - 1}| + 1;
      } else {
        assert seen - {count - 1} == seen;
      }
    } else {
      assert seen == {};
    }
  }

  ghost predicate ChunkFits(arts: seq<Artifact>, a: Artifact) {
    forall i | 0 <= i < |arts| :: ChunksAgree(arts[i], a)
  }

  /** One more chunk: its set must agree with it, and must not have its place yet. */
  method AddChunk(sets: map<string, ChunkSet>, ghost arts: seq<Artifact>, a: Artifact)
    returns (ok: bool, now: map<string, ChunkSet>)
    requires Collected(sets, arts)
    ensures ok <==> ChunkFits(arts, a)
    ensures ok ==> Collected(now, arts + [a])
  {
    now := sets;
    var s := a.chunk.setID;
    if s !in now { now := now[s := ChunkSet(a.chunk.count, {})]; }
    if now[s].count != a.chunk.count { return false, now; }
    if a.chunk.index in now[s].seen { return false, now; }
    now := now[s := ChunkSet(now[s].count, now[s].seen + {a.chunk.index})];
    CollectedGrows(sets, arts, a, now);
    return true, now;
  }

  lemma CollectedGrows(sets: map<string, ChunkSet>, arts: seq<Artifact>, a: Artifact, now: map<string, ChunkSet>)
    requires Collected(sets, arts)
    requires a.chunk.setID in sets ==> sets[a.chunk.setID].count == a.chunk.count
    requires now == sets[a.chunk.setID := ChunkSet(a.chunk.count,
      (if a.chunk.setID in sets then sets[a.chunk.setID].seen else {}) + {a.chunk.index})]
    ensures Collected(now, arts + [a])
  {
    var all := arts + [a];
    assert all[|arts|] == a;
    forall s, k: nat | s in now ensures k in now[s].seen <==> HasChunk(all, s, k) {
      if HasChunk(arts, s, k) {
        var i :| 0 <= i < |arts| && arts[i].chunk.setID == s && arts[i].chunk.index == k;
        assert all[i] == arts[i];
      }
      if HasChunk(all, s, k) {
        var i :| 0 <= i < |all| && all[i].chunk.setID == s && all[i].chunk.index == k;
        if i < |arts| { assert arts[i] == all[i]; assert HasChunk(arts, s, k); }
      }
    }
    forall s | s in now ensures exists i :: 0 <= i < |all| && all[i].chunk.setID == s {
      if s != a.chunk.setID {
        var i :| 0 <= i < |arts| && arts[i].chunk.setID == s;
        assert all[i] == arts[i];
      }
    }
  }

  /** Every set must be full. */
  method AllFull(sets: map<string, ChunkSet>, ghost arts: seq<Artifact>) returns (ok: bool)
    requires Collected(sets, arts)
    requires forall i | 0 <= i < |arts| :: arts[i].chunk.index < arts[i].chunk.count
    ensures ok <==> ChunksComplete(arts)
  {
    var left := sets.Keys;
    while left != {}
      invariant left <= sets.Keys
      invariant forall s | s in sets && s !in left :: Full(arts, s, sets[s].count)
      decreases left
    {
      var s :| s in left;
      FullWhen(sets, arts, s);
      if |sets[s].seen| != sets[s].count {
        ghost var i :| 0 <= i < |arts| && arts[i].chunk.setID == s;
        assert !Full(arts, s, arts[i].chunk.count);
        return false;
      }
      left := left - {s};
    }
    forall i, k: nat | 0 <= i < |arts| && k < arts[i].chunk.count
      ensures HasChunk(arts, arts[i].chunk.setID, k)
    {
      assert Full(arts, arts[i].chunk.setID, arts[i].chunk.count);
    }
    return true;
  }

  ghost predicate Full(arts: seq<Artifact>, s: string, count: nat) {
    forall k: nat | k < count :: HasChunk(arts, s, k)
  }

  lemma FullWhen(sets: map<string, ChunkSet>, arts: seq<Artifact>, s: string)
    requires Collected(sets, arts) && s in sets
    requires forall i | 0 <= i < |arts| :: arts[i].chunk.index < arts[i].chunk.count
    ensures |sets[s].seen| == sets[s].count <==> Full(arts, s, sets[s].count)
  {
    forall k | k in sets[s].seen ensures k < sets[s].count {
      assert HasChunk(arts, s, k);
    }
    AllBelow(sets[s].seen, sets[s].count);
  }

  // ---------------------------------------------------------------- artifacts

  lemma {:induction false} TotalGrows(arts: seq<Artifact>, n: nat)
    requires n <= |arts| && forall i | 0 <= i < |arts| :: arts[i].sizeBytes > 0
    ensures TotalBytes(arts[..n]) <= TotalBytes(arts)
    decreases |arts| - n
  {
    if n < |arts| {
      assert arts[..n + 1][..n] == arts[..n];
      TotalGrows(arts, n + 1);
    } else {
      assert arts[..n] == arts;
    }
  }

  /** The map holds each artifact under its ID. */
  ghost predicate IndexedByID(byID: map<string, Artifact>, arts: seq<Artifact>) {
    && (forall id :: id in byID <==> id in IDs(arts))
    && (forall id | id in byID :: byID[id] in arts && byID[id].id == id)
  }

  lemma OneMoreArtifact(arts: seq<Artifact>, n: nat)
    requires n < |arts|
    ensures arts[..n + 1] == arts[..n] + [arts[n]]
    ensures IDs(arts[..n + 1]) == IDs(arts[..n]) + [arts[n].id] && IDs(arts[..n + 1]) <= IDs(arts)
    ensures Paths(arts[..n + 1]) == Paths(arts[..n]) + [arts[n].relativePath]
    ensures Paths(arts[..n + 1]) <= Paths(arts)
    ensures TotalBytes(arts[..n + 1]) == TotalBytes(arts[..n]) + arts[n].sizeBytes as int
  {
    assert arts[..n + 1][..n] == arts[..n];
  }

  lemma IDIndexGrows(byID: map<string, Artifact>, arts: seq<Artifact>, n: nat)
    requires n < |arts| && IndexedByID(byID, arts[..n])
    ensures IndexedByID(byID[arts[n].id := arts[n]], arts[..n + 1])
    ensures arts[n].id in byID <==> arts[n].id in IDs(arts[..n])
  {
    OneMoreArtifact(arts, n);
  }

  /** The checks that look at one artifact alone. */
  method ValidateArtifact(a: Artifact, l: Limits, checked: bool) returns (ok: bool)
    ensures ok <==> ArtifactShape(a, l, checked)
  {
    if !Identifier(a.id) || !Identifier(a.chunk.setID) || a.kind == OtherArtifact ||
       !MediaType(a.mediaType) || !RelativePath(a.relativePath) || !Digest(a.sha256) ||
       a.sizeBytes <= 0 || a.chunk.count == 0 || a.chunk.index >= a.chunk.count ||
       a.chunk.count > l.maxArtifacts
    {
      return false;
    }
    if checked && a.validation != HashVerified && a.validation != ContentVerified { return false; }
    if checked && a.kind == SourceText && a.validation != ContentVerified { return false; }
    ok := IsSortedUnique(a.classKeys);
  }

  /** The first `n` artifacts pass every check but those on the whole list. */
  ghost predicate SoFar(arts: seq<Artifact>, n: nat, l: Limits, checked: bool)
    requires n <= |arts|
  {
    && (forall j | 0 <= j < n :: ArtifactShape(arts[j], l, checked))
    && NoRepeats(IDs(arts[..n])) && NoRepeats(Paths(arts[..n]))
    && (forall j, k | 0 <= j < k < n :: ChunksAgree(arts[j], arts[k]))
  }

  /** The next artifact fits those before it. */
  ghost predicate Fits(arts: seq<Artifact>, n: nat, l: Limits, checked: bool)
    requires n < |arts|
  {
    && ArtifactShape(arts[n], l, checked)
    && arts[n].id !in IDs(arts[..n]) && arts[n].relativePath !in Paths(arts[..n])
    && ChunkFits(arts[..n], arts[n])
  }

  lemma SoFarGrows(arts: seq<Artifact>, n: nat, l: Limits, checked: bool)
    requires n < |arts| && SoFar(arts, n, l, checked) && Fits(arts, n, l, checked)
    ensures SoFar(arts, n + 1, l, checked)
  {
    hide ArtifactShape, TotalBytes;
    OneMoreArtifact(arts, n);
    Appended(IDs(arts[..n]), arts[n].id);
    Appended(Paths(arts[..n]), arts[n].relativePath);
  }

  lemma MustFit(arts: seq<Artifact>, n: nat, l: Limits, checked: bool)
    requires n < |arts| && ArtifactsOk(arts, l, checked)
    ensures Fits(arts, n, l, checked)
    ensures TotalBytes(arts[..n]) + arts[n].sizeBytes as int <= l.maxArtifactBytes as int
  {
    OneMoreArtifact(arts, n);
    TotalGrows(arts, n + 1);
    FirstTime(IDs(arts), n);
    FirstTime(Paths(arts), n);
    assert IDs(arts)[..n] == IDs(arts[..n]) && Paths(arts)[..n] == Paths(arts[..n]);
  }

  lemma FirstTime<T>(s: seq<T>, n: nat)
    requires n < |s| && NoRepeats(s)
    ensures s[n] !in s[..n]
  {}

  lemma AllFit(arts: seq<Artifact>, l: Limits, checked: bool)
    requires SoFar(arts, |arts|, l, checked) && TotalBytes(arts) <= l.maxArtifactBytes as int
    ensures ArtifactsOk(arts, l, checked) <==> ChunksComplete(arts)
    ensures forall i | 0 <= i < |arts| :: arts[i].chunk.index < arts[i].chunk.count
  {
    hide TotalBytes, ChunksComplete;
    assert arts[..|arts|] == arts;
  }

  lemma HasSize(a: Artifact, l: Limits, checked: bool)
    requires ArtifactShape(a, l, checked)
    ensures a.sizeBytes > 0
  {}

  /** The artifacts read so far, in the form in which they are kept. */
  ghost predicate Kept(
    arts: seq<Artifact>, byID: map<string, Artifact>, paths: set<string>, sets: map<string, ChunkSet>)
  {
    && IndexedByID(byID, arts) && Collected(sets, arts)
    && forall p :: p in paths <==> p in Paths(arts)
  }

  lemma KeptGrows(
    arts: seq<Artifact>, n: nat, byID: map<string, Artifact>, paths: set<string>,
    sets: map<string, ChunkSet>, now: map<string, ChunkSet>)
    requires n < |arts| && Kept(arts[..n], byID, paths, sets) && Collected(now, arts[..n] + [arts[n]])
    ensures Kept(arts[..n + 1], byID[arts[n].id := arts[n]], paths + {arts[n].relativePath}, now)
  {
    hide Collected;
    OneMoreArtifact(arts, n);
    IDIndexGrows(byID, arts, n);
  }

  lemma KeptTells(
    arts: seq<Artifact>, byID: map<string, Artifact>, paths: set<string>, sets: map<string, ChunkSet>, a: Artifact)
    requires Kept(arts, byID, paths, sets)
    ensures a.id in byID <==> a.id in IDs(arts)
    ensures a.relativePath in paths <==> a.relativePath in Paths(arts)
    ensures Collected(sets, arts)
  {
    hide Collected;
  }

  /** One artifact of the loop: it passes, or the whole list cannot. */
  method AddArtifact(
    arts: seq<Artifact>, n: nat, l: Limits, checked: bool,
    byID: map<string, Artifact>, paths: set<string>, declared: int64, sets: map<string, ChunkSet>)
    returns (ok: bool, total: int64, now: map<string, ChunkSet>)
    requires n < |arts| && SoFar(arts, n, l, checked) && Kept(arts[..n], byID, paths, sets)
    requires 0 <= declared <= l.maxArtifactBytes && declared as int == TotalBytes(arts[..n])
    ensures !ok ==> !ArtifactsOk(arts, l, checked)
    ensures ok ==> SoFar(arts, n + 1, l, checked)
    ensures ok ==> Kept(arts[..n + 1], byID[arts[n].id := arts[n]], paths + {arts[n].relativePath}, now)
    ensures ok ==> 0 <= total <= l.maxArtifactBytes && total as int == TotalBytes(arts[..n + 1])
  {
    hide TotalBytes, ArtifactShape, IndexedByID, Collected, HasChunk, ChunksComplete, ChunkFits,
         ArtifactsOk, SoFar, Kept, IDs, Paths;
    total, now := declared, sets;
    if ArtifactsOk(arts, l, checked) { MustFit(arts, n, l, checked); }
    var shape := ValidateArtifact(arts[n], l, checked);
    if !shape { return false, total, now; }
    KeptTells(arts[..n], byID, paths, sets, arts[n]);
    if arts[n].id in byID || arts[n].relativePath in paths { return false, total, now; }
    HasSize(arts[n], l, checked);
    if arts[n].sizeBytes > l.maxArtifactBytes - declared { return false, total, now; }
    total := declared + arts[n].sizeBytes;
    OneMoreArtifact(arts, n);
    var fits;
    fits, now := AddChunk(sets, arts[..n], arts[n]);
    if !fits { return false, total, now; }
    SoFarGrows(arts, n, l, checked);
    KeptGrows(arts, n, byID, paths, sets, now);
    return true, total, now;
  }

  lemma NothingRead(arts: seq<Artifact>, l: Limits, checked: bool)
    requires Normalized(l)
    ensures TotalBytes(arts[..0]) == 0 && Kept(arts[..0], map[], {}, map[])
    ensures SoFar(arts, 0, l, checked) && l.maxArtifactBytes >= 0
  {
    assert arts[..0] == [];
  }

  /** validateArtifactMetadata */
  method ValidateArtifactMetadata(arts: seq<Artifact>, l: Limits, checked: bool)
    returns (ok: bool, byID: map<string, Artifact>)
    requires Normalized(l)
    ensures ok <==> ArtifactsOk(arts, l, checked)
    ensures ok ==> IndexedByID(byID, arts)
  {
    NothingRead(arts, l, checked);
    hide TotalBytes, IndexedByID, Collected, ChunksComplete, Normalized, ArtifactsOk, SoFar, Kept;
    byID := map[];
    var paths: set<string> := {};
    var declared: int64 := 0;
    var sets: map<string, ChunkSet> := map[];
    var i := 0;
    while i < |arts|
      invariant 0 <= i <= |arts|
      invariant 0 <= declared <= l.maxArtifactBytes && declared as int == TotalBytes(arts[..i])
      invariant SoFar(arts, i, l, checked) && Kept(arts[..i], byID, paths, sets)
    {
      ok, declared, sets := AddArtifact(arts, i, l, checked, byID, paths, declared, sets);
      if !ok { return false, byID; }
      byID, paths := byID[arts[i].id := arts[i]], paths + {arts[i].relativePath};
      i := i + 1;
    }
    assert arts[..|arts|] == arts;
    AllFit(arts, l, checked);
    KeptIs(arts, byID, paths, sets);
    ok := AllFull(sets, arts);
  }

  lemma KeptIs(arts: seq<Artifact>, byID: map<string, Artifact>, paths: set<string>, sets: map<string, ChunkSet>)
    requires Kept(arts, byID, paths, sets)
    ensures Collected(sets, arts) && IndexedByID(byID, arts)
  {
    hide Collected;
  }

  // ---------------------------------------------------------------- class errors

  /** The key under which an error is remembered. */
  function ErrorKey(e: ClassError): string { e.classKey + ['\0'] + (e.code + ['\0'] + e.message) }

  lemma NulSplits(a: string, b: string, x: string, y: string)
    requires '\0' !in a && '\0' !in x && a + ['\0'] + b == x + ['\0'] + y
    ensures a == x && b == y
  {
    var s := a + ['\0'] + b;
    assert s[|a|] == '\0' && s[|x|] == '\0';
    assert forall i | 0 <= i < |a| :: s[i] == a[i];
    assert forall i | 0 <= i < |x| :: s[i] == x[i];
    assert |a| == |x|;
    assert s[..|a|] == a && s[..|x|] == x;
    assert s[|a| + 1..] == b && s[|x| + 1..] == y;
  }

  lemma ErrorKeyInjective(d: ClassError, e: ClassError)
    requires Identifier(d.classKey) && Identifier(e.classKey) && Code(d.code) && Code(e.code)
    requires ErrorKey(d) == ErrorKey(e)
    ensures d == e
  {
    NulSplits(d.classKey, d.code + ['\0'] + d.message, e.classKey, e.code + ['\0'] + e.message);
    NulSplits(d.code, d.message, e.code, e.message);
  }

  ghost predicate Remembers(seen: set<string>, es: seq<ClassError>) {
    forall k :: k in seen <==> exists i :: 0 <= i < |es| && ErrorKey(es[i]) == k
  }

  lemma OneMoreError(seen: set<string>, es: seq<ClassError>, n: nat, cs: seq<ClassIndex>)
    requires n < |es| && Remembers(seen, es[..n]) && NoRepeats(es[..n])
    requires forall c | c in cs :: Identifier(c.key)
    requires forall i | 0 <= i <= n :: ErrorShape(es[i], cs)
    ensures Remembers(seen + {ErrorKey(es[n])}, es[..n + 1])
    ensures ErrorKey(es[n]) in seen <==> es[n] in es[..n]
    ensures es[..n + 1] == es[..n] + [es[n]]
  {
    var next := es[..n + 1];
    forall i | 0 <= i < n && ErrorKey(es[i]) == ErrorKey(es[n]) ensures es[i] == es[n] {
      ErrorKeyInjective(es[i], es[n]);
    }
    assert next[n] == es[n] && forall i | 0 <= i < n :: next[i] == es[..n][i];
  }

  /** validateClassErrors: the errors are of known classes, well formed and all different;
      the counts say which classes have one. */
  method ValidateClassErrors(es: seq<ClassError>, byKey: map<string, ClassIndex>, ghost cs: seq<ClassIndex>)
    returns (ok: bool, counts: map<string, nat>)
    requires IndexedByKey(byKey, cs) && forall c | c in cs :: Identifier(c.key)
    ensures ok <==> ErrorsOk(es, cs)
    ensures ok ==> forall k :: k in counts <==> HasError(es, k)
    ensures forall k | k in counts :: counts[k] > 0
  {
    hide ErrorKey, Identifier, ValidText, Code, ClassKeys;
    counts := map[];
    var seen: set<string> := {};
    var i := 0;
    while i < |es|
      invariant 0 <= i <= |es|
      invariant forall j | 0 <= j < i :: ErrorShape(es[j], cs)
      invariant Remembers(seen, es[..i]) && NoRepeats(es[..i])
      invariant forall k :: k in counts <==> HasError(es[..i], k)
      invariant forall k | k in counts :: counts[k] > 0
    {
      var e := es[i];
      IndexTells(byKey, cs, e.classKey);
      if e.classKey !in byKey || !Code(e.code) || !ValidText(e.message, 4096) { return false, counts; }
      OneMoreError(seen, es, i, cs);
      Appended(es[..i], e);
      if ErrorKey(e) in seen {
        RepeatsStay(es[..i + 1], es);
        return false, counts;
      }
      seen := seen + {ErrorKey(e)};
      HasErrorGrows(es, i);
      counts := counts[e.classKey := (if e.classKey in counts then counts[e.classKey] else 0) + 1];
      i := i + 1;
    }
    assert es[..|es|] == es;
    return true, counts;
  }

  lemma HasErrorGrows(es: seq<ClassError>, n: nat)
    requires n < |es|
    ensures forall k :: HasError(es[..n + 1], k) <==> HasError(es[..n], k) || k == es[n].classKey
  {
    var next := es[..n + 1];
    assert next[n] == es[n];
    forall k | HasError(es[..n], k) ensures HasError(next, k) {
      var i :| 0 <= i < n && es[..n][i].classKey == k;
      assert next[i].classKey == k;
    }
    forall k | HasError(next, k) && k != es[n].classKey ensures HasError(es[..n], k) {
      var i :| 0 <= i < n + 1 && next[i].classKey == k;
      assert es[..n][i].classKey == k;
    }
  }

  // ---------------------------------------------------------------- links

  lemma SameID(arts: seq<Artifact>, i: nat, j: nat)
    requires i < |arts| && j < |arts| && NoRepeats(IDs(arts)) && arts[i].id == arts[j].id
    ensures i == j
  {
    assert IDs(arts)[i] == IDs(arts)[j];
  }

  /** Looking an artifact up is finding it in the list. */
  lemma LookUp(byID: map<string, Artifact>, arts: seq<Artifact>, i: nat)
    requires IndexedByID(byID, arts) && NoRepeats(IDs(arts)) && i < |arts|
    ensures arts[i].id in byID && byID[arts[i].id] == arts[i]
  {
    assert IDs(arts)[i] == arts[i].id;
    var j :| 0 <= j < |arts| && arts[j] == byID[arts[i].id];
    SameID(arts, i, j);
  }

  lemma NamesWhen(byID: map<string, Artifact>, arts: seq<Artifact>, id: string, key: string)
    requires IndexedByID(byID, arts) && NoRepeats(IDs(arts))
    ensures Names(arts, id, key) <==> id in byID && key in byID[id].classKeys
  {
    if Names(arts, id, key) {
      var i :| 0 <= i < |arts| && arts[i].id == id && key in arts[i].classKeys;
      LookUp(byID, arts, i);
    }
  }

  /** The links of one class to its artifacts. */
  method ClassLinks(c: ClassIndex, byID: map<string, Artifact>, ghost arts: seq<Artifact>) returns (ok: bool)
    requires IndexedByID(byID, arts) && NoRepeats(IDs(arts))
    requires forall a | a in arts :: SortedUnique(a.classKeys)
    ensures ok <==> Answered(c, arts)
  {
    hide SortedUnique, Names, NoRepeats;
    var i := 0;
    while i < |c.artifactIDs|
      invariant 0 <= i <= |c.artifactIDs|
      invariant forall j | 0 <= j < i :: Names(arts, c.artifactIDs[j], c.key)
    {
      var id := c.artifactIDs[i];
      NamesWhen(byID, arts, id, c.key);
      if id !in byID { return false; }
      var found := ContainsSorted(byID[id].classKeys, c.key);
      if !found { return false; }
      i := i + 1;
    }
    return true;
  }

  lemma ClassLookUp(byKey: map<string, ClassIndex>, cs: seq<ClassIndex>, i: nat)
    requires IndexedByKey(byKey, cs) && NoRepeats(ClassKeys(cs)) && i < |cs|
    ensures cs[i].key in byKey && byKey[cs[i].key] == cs[i]
  {
    assert ClassKeys(cs)[i] == cs[i].key;
    var j :| 0 <= j < |cs| && cs[j] == byKey[cs[i].key];
    assert ClassKeys(cs)[i] == ClassKeys(cs)[j];
  }

  lemma NamedByWhen(byKey: map<string, ClassIndex>, cs: seq<ClassIndex>, key: string, id: string)
    requires IndexedByKey(byKey, cs) && NoRepeats(ClassKeys(cs))
    ensures NamedBy(cs, key, id) <==> key in byKey && id in byKey[key].artifactIDs
  {
    if NamedBy(cs, key, id) {
      var i :| 0 <= i < |cs| && cs[i].key == key && id in cs[i].artifactIDs;
      ClassLookUp(byKey, cs, i);
    }
  }

  /** The links of one artifact to its classes. */
  method ArtifactLinks(a: Artifact, byKey: map<string, ClassIndex>, ghost cs: seq<ClassIndex>) returns (ok: bool)
    requires IndexedByKey(byKey, cs) && NoRepeats(ClassKeys(cs))
    requires forall c | c in cs :: SortedUnique(c.artifactIDs)
    ensures ok <==> NamedBack(a, cs)
  {
    hide SortedUnique, NamedBy, NoRepeats;
    var i := 0;
    while i < |a.classKeys|
      invariant 0 <= i <= |a.classKeys|
      invariant forall j | 0 <= j < i :: NamedBy(cs, a.classKeys[j], a.id)
    {
      var key := a.classKeys[i];
      NamedByWhen(byKey, cs, key, a.id);
      if key !in byKey { return false; }
      var found := ContainsSorted(byKey[key].artifactIDs, a.id);
      if !found { return false; }
      i := i + 1;
    }
    return true;
  }

  // ---------------------------------------------------------------- evidence

  /** hasValidatedArtifact */
  method HasValidatedArtifact(
    c: ClassIndex, byID: map<string, Artifact>, kind: ArtifactKind, v: Validation, ghost arts: seq<Artifact>)
    returns (found: bool)
    requires IndexedByID(byID, arts) && NoRepeats(IDs(arts)) && Answered(c, arts)
    ensures found <==> HasValidated(c, arts, kind, v)
  {
    var i := 0;
    while i < |c.artifactIDs|
      invariant 0 <= i <= |c.artifactIDs|
      invariant forall j | 0 <= j < i ::
        c.artifactIDs[j] in byID &&
        !(byID[c.artifactIDs[j]].kind == kind && byID[c.artifactIDs[j]].validation == v)
    {
      var id := c.artifactIDs[i];
      NamesWhen(byID, arts, id, c.key);
      assert Names(arts, id, c.key);
      if byID[id].kind == kind && byID[id].validation == v { return true; }
      i := i + 1;
    }
    if k :| 0 <= k < |arts| && arts[k].id in c.artifactIDs && arts[k].kind == kind && arts[k].validation == v {
      LookUp(byID, arts, k);
    }
    return false;
  }

  /** hasValidatedBytecode */
  method HasValidatedBytecode(c: ClassIndex, byID: map<string, Artifact>, ghost arts: seq<Artifact>)
    returns (found: bool)
    requires IndexedByID(byID, arts) && NoRepeats(IDs(arts)) && Answered(c, arts)
    ensures found <==> HasBytecode(c, arts)
  {
    var i := 0;
    while i < |c.artifactIDs|
      invariant 0 <= i <= |c.artifactIDs|
      invariant forall j | 0 <= j < i ::
        c.artifactIDs[j] in byID && byID[c.artifactIDs[j]].kind != Bytecode && byID[c.artifactIDs[j]].kind != Index
    {
      var id := c.artifactIDs[i];
      NamesWhen(byID, arts, id, c.key);
      assert Names(arts, id, c.key);
      if byID[id].kind == Bytecode || byID[id].kind == Index { return true; }
      i := i + 1;
    }
    if k :| 0 <= k < |arts| && arts[k].id in c.artifactIDs && (arts[k].kind == Bytecode || arts[k].kind == Index) {
      LookUp(byID, arts, k);
    }
    return false;
  }

  // ---------------------------------------------------------------- the whole output

  function Having(cs: seq<ClassIndex>, status: ClassStatus): nat {
    if cs == [] then 0
    else Having(cs[..|cs| - 1], status) + (if cs[|cs| - 1].status == status then 1 else 0)
  }

  lemma {:induction false} HavingAll(cs: seq<ClassIndex>, status: ClassStatus)
    ensures Having(cs, status) <= |cs|
    ensures Having(cs, status) == |cs| <==> forall i | 0 <= i < |cs| :: cs[i].status == status
    ensures Having(cs, status) == 0 <==> forall i | 0 <= i < |cs| :: cs[i].status != status
  {
    if cs != [] { HavingAll(cs[..|cs| - 1], status); }
  }

  /** A class, its links, and the artifacts its status needs. */
  predicate Supported(c: ClassIndex, arts: seq<Artifact>) {
    && Answered(c, arts)
    && (c.status == ClassSource ==> HasValidated(c, arts, SourceText, ContentVerified))
    && (c.status == ClassBytecodeOnly ==> HasBytecode(c, arts))
  }

  /** The links and the evidence of every class; the counters count statuses. */
  method LinkClasses(cs: seq<ClassIndex>, byID: map<string, Artifact>, ghost arts: seq<Artifact>)
    returns (ok: bool, sources: nat, bytecodes: nat, failures: nat)
    requires IndexedByID(byID, arts) && NoRepeats(IDs(arts))
    requires forall a | a in arts :: SortedUnique(a.classKeys)
    ensures ok <==> forall i | 0 <= i < |cs| :: Supported(cs[i], arts)
    ensures ok ==> sources == Having(cs, ClassSource) && bytecodes == Having(cs, ClassBytecodeOnly)
    ensures ok ==> failures == Having(cs, ClassFailed) + Having(cs, ClassUnsupported)
  {
    hide Answered, HasValidated, HasBytecode, SortedUnique, IndexedByID, NoRepeats;
    sources, bytecodes, failures := 0, 0, 0;
    var i := 0;
    while i < |cs|
      invariant 0 <= i <= |cs|
      invariant forall j | 0 <= j < i :: Supported(cs[j], arts)
      invariant sources == Having(cs[..i], ClassSource) && bytecodes == Having(cs[..i], ClassBytecodeOnly)
      invariant failures == Having(cs[..i], ClassFailed) + Having(cs[..i], ClassUnsupported)
    {
      var c := cs[i];
      var linked := ClassLinks(c, byID, arts);
      if !linked { return false, sources, bytecodes, failures; }
      assert cs[..i + 1][..i] == cs[..i];
      if c.status == ClassSource {
        sources := sources + 1;
        var found := HasValidatedArtifact(c, byID, SourceText, ContentVerified, arts);
        if !found { return false, sources, bytecodes, failures; }
      }
      if c.status == ClassBytecodeOnly { bytecodes := bytecodes + 1; }
      if c.status == ClassFailed || c.status == ClassUnsupported { failures := failures + 1; }
      if c.status == ClassBytecodeOnly {
        var found := HasValidatedBytecode(c, byID, arts);
        if !found { return false, sources, bytecodes, failures; }
      }
      i := i + 1;
    }
    assert cs[..|cs|] == cs;
    return true, sources, bytecodes, failures;
  }

  method LinkArtifacts(arts: seq<Artifact>, byKey: map<string, ClassIndex>, ghost cs: seq<ClassIndex>)
    returns (ok: bool)
    requires IndexedByKey(byKey, cs) && NoRepeats(ClassKeys(cs))
    requires forall c | c in cs :: SortedUnique(c.artifactIDs)
    ensures ok <==> forall i | 0 <= i < |arts| :: NamedBack(arts[i], cs)
  {
    hide NamedBack, SortedUnique, IndexedByKey, NoRepeats;
    var i := 0;
    while i < |arts|
      invariant 0 <= i <= |arts|
      invariant forall j | 0 <= j < i :: NamedBack(arts[j], cs)
    {
      ok := ArtifactLinks(arts[i], byKey, cs);
      if !ok { return; }
      i := i + 1;
    }
    return true;
  }

  /** A failed class has an error of its own. */
  method FailuresExplained(cs: seq<ClassIndex>, counts: map<string, nat>, ghost es: seq<ClassError>)
    returns (ok: bool)
    requires forall k :: k in counts <==> HasError(es, k)
    requires forall k | k in counts :: counts[k] > 0
    ensures ok <==> forall i | 0 <= i < |cs| && Failing(cs[i]) :: HasError(es, cs[i].key)
  {
    var i := 0;
    while i < |cs|
      invariant 0 <= i <= |cs|
      invariant forall j | 0 <= j < i && Failing(cs[j]) :: HasError(es, cs[j].key)
    {
      var count := if cs[i].key in counts then counts[cs[i].key] else 0;
      if (cs[i].status == ClassFailed || cs[i].status == ClassUnsupported) && count == 0 { return false; }
      i := i + 1;
    }
    return true;
  }

  /** validateWarnings */
  method ValidateWarnings(ws: seq<string>) returns (ok: bool)
    ensures ok <==> WarningsOk(ws)
  {
    var i := 0;
    while i < |ws|
      invariant 0 <= i <= |ws| && forall j | 0 <= j < i :: ValidText(ws[j], 4096)
    {
      if !ValidText(ws[i], 4096) { return false; }
      i := i + 1;
    }
    return true;
  }

  /** The last switch: the status against what was counted. */
  method StatusFits(o: Output, sources: nat, bytecodes: nat, failures: nat) returns (ok: bool)
    requires sources == Having(o.classes, ClassSource) && bytecodes == Having(o.classes, ClassBytecodeOnly)
    requires failures == Having(o.classes, ClassFailed) + Having(o.classes, ClassUnsupported)
    requires o.classes != []
    ensures ok <==> StatusOk(o)
  {
    HavingAll(o.classes, ClassSource);
    HavingAll(o.classes, ClassBytecodeOnly);
    HavingAll(o.classes, ClassFailed);
    HavingAll(o.classes, ClassUnsupported);
    match o.status
    case Complete =>
      return sources == |o.classes| && |o.classErrors| == 0 &&
             (o.execution.None? || o.execution.value.exitCode == 0);
    case Partial =>
      return failures != 0 || |o.classErrors| != 0;
    case AllBytecode =>
      if sources != 0 || bytecodes != |o.classes| || |o.classErrors| != 0 { return false; }
      var i := 0;
      while i < |o.artifacts|
        invariant 0 <= i <= |o.artifacts|
        invariant forall j | 0 <= j < i :: o.artifacts[j].kind != SourceText
      {
        if o.artifacts[i].kind == SourceText { return false; }
        i := i + 1;
      }
      return true;
    case _ =>
      return true;
  }

  /** The checks that both validations begin with. */
  predicate Opening(o: Output, l: Limits) {
    && CountsOk(o, l) && o.status != OtherStatus && ExecutionOk(o.execution)
    && (o.status == NotSupported ==> Empty(o))
    && (o.status != NotSupported ==> o.classes != [])
  }

  method CheckOpening(o: Output, l: Limits) returns (ok: bool)
    ensures ok <==> Opening(o, l)
  {
    if |o.classes| > l.maxClasses || |o.artifacts| > l.maxArtifacts || |o.classErrors| > l.maxClassErrors {
      return false;
    }
    if o.status == OtherStatus { return false; }
    if o.execution.Some? {
      var e := o.execution.value;
      if e.exitCode < 0 || e.durationMS < 0 || e.outputBytes < 0 || e.outputFiles < 0 { return false; }
    }
    if o.status == NotSupported && (|o.classes| != 0 || |o.artifacts| != 0 || |o.classErrors| != 0) { return false; }
    return o.status == NotSupported || |o.classes| != 0;
  }

  lemma ShapesOf(cs: seq<ClassIndex>, arts: seq<Artifact>, l: Limits, checked: bool)
    ensures ClassesOk(cs, l) ==>
      && (forall c | c in cs :: Identifier(c.key) && SortedUnique(c.artifactIDs))
      && NoRepeats(ClassKeys(cs))
    ensures ArtifactsOk(arts, l, checked) ==>
      && (forall a | a in arts :: SortedUnique(a.classKeys)) && NoRepeats(IDs(arts))
  {
    hide SortedUnique, Identifier, MethodShape, MediaType, RelativePath, Digest, ChunksComplete, ChunksAgree, TotalBytes;
  }

  /** prevalidateOutputStructure: what is checked before any artifact is opened. */
  method PrevalidateOutputStructure(o: Output, l: Limits) returns (ok: bool)
    requires Normalized(l)
    ensures ok <==> Structure(o, l, false)
  {
    hide CountsOk, ExecutionOk, ClassesOk, ArtifactsOk, ErrorsOk, WarningsOk, SortedUnique, Identifier, NoRepeats,
         IndexedByKey, HasError, Normalized;
    ok := CheckOpening(o, l);
    if !ok { return; }
    var byKey, byID, counts;
    ok, byKey := ValidateClasses(o.classes, l);
    if !ok { return; }
    ShapesOf(o.classes, o.artifacts, l, false);
    ok, byID := ValidateArtifactMetadata(o.artifacts, l, false);
    if !ok { return; }
    ok, counts := ValidateClassErrors(o.classErrors, byKey, o.classes);
    if !ok { return; }
    ok := ValidateWarnings(o.warnings);
  }

  /** validateOutput accepts exactly the outputs that keep the contract. The source makes
      one pass over the classes; the part that looks at artifacts is a second pass here. */
  method ValidateOutput(o: Output, l: Limits) returns (ok: bool)
    requires Normalized(l)
    ensures ok <==> Contract(o, l)
  {
    hide CountsOk, ExecutionOk, ClassesOk, ArtifactsOk, ErrorsOk, WarningsOk, SortedUnique, Identifier, NoRepeats,
         IndexedByKey, IndexedByID, HasError, Normalized, StatusOk, Having, Failing, Answered, NamedBack;
    ok := CheckOpening(o, l);
    if !ok { return; }
    if o.status == NotSupported {
      NothingToCheck(o, l);
      ok := ValidateWarnings(o.warnings);
      return;
    }
    var byKey, byID, counts, sources, bytecodes, failures;
    ok, byID := ValidateArtifactMetadata(o.artifacts, l, true);
    if !ok { return; }
    ok, byKey := ValidateClasses(o.classes, l);
    if !ok { return; }
    ShapesOf(o.classes, o.artifacts, l, true);
    ok, sources, bytecodes, failures := LinkClasses(o.classes, byID, o.artifacts);
    if !ok { return; }
    ok := LinkArtifacts(o.artifacts, byKey, o.classes);
    if !ok { return; }
    ok, counts := ValidateClassErrors(o.classErrors, byKey, o.classes);
    if !ok { return; }
    ok := FailuresExplained(o.classes, counts, o.classErrors);
    if !ok { return; }
    ok := ValidateWarnings(o.warnings);
    if !ok { return; }
    ok := StatusFits(o, sources, bytecodes, failures);
  }

  lemma NothingToCheck(o: Output, l: Limits)
    requires Normalized(l) && Opening(o, l) && o.status == NotSupported
    ensures Contract(o, l) <==> WarningsOk(o.warnings)
  {}
}
