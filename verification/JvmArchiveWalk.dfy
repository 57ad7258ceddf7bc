/** The walk through an archive and the archives inside it, under one budget: what one
    archive offers is inspected, its chosen classes are listed, its nested archives are
    walked in turn. Every listed class and every failure gets an identity of its own. */
module JvmArchiveWalk {
  import opened Counting
  import opened Words
  import opened Texts
  import opened JvmArchiveEntries
  import BytecodeContract
  import Sorting = BytecodeNormalization

  datatype Candidate = Candidate(
    entryPath: string, logicalPath: string, identity: string, release: nat, content: Option<Bytes>)

  datatype Failure = Failure(entryPath: string, identity: string, code: string, message: string)

  /** A class chosen in one archive. */
  datatype Pick = Pick(path: string, release: nat, entry: Entry)

  /** `Unsafe` condemns one archive, `LimitReached` the whole input. */
  datatype Outcome = Fine | Unsafe | LimitReached

  /** An archive that was inspected to the end, and the names that lead to it. */
  datatype Visit = Visit(ancestry: seq<string>, entries: seq<Entry>)

  // ---------------------------------------------------------------- keys

  function ByName(e: Entry): seq<string> { [e.name] }
  function ByPath(p: Pick): seq<string> { [p.path] }

  // ---------------------------------------------------------------- totals

  function SizeOf(es: seq<Entry>): nat {
    if es == [] then 0 else SizeOf(es[..|es| - 1]) + es[|es| - 1].uncompressed as int
  }

  function TotalEntries(vs: seq<Visit>): nat {
    if vs == [] then 0 else TotalEntries(vs[..|vs| - 1]) + |vs[|vs| - 1].entries|
  }

  function TotalSize(vs: seq<Visit>): nat {
    if vs == [] then 0 else TotalSize(vs[..|vs| - 1]) + SizeOf(vs[|vs| - 1].entries)
  }

  lemma OneMoreVisit(vs: seq<Visit>, v: Visit)
    ensures TotalEntries(vs + [v]) == TotalEntries(vs) + |v.entries|
    ensures TotalSize(vs + [v]) == TotalSize(vs) + SizeOf(v.entries)
  {
    assert (vs + [v])[..|vs|] == vs;
  }

  // ---------------------------------------------------------------- one archive

  const MANIFEST := "META-INF/MANIFEST.MF"

  /** Whether the manifest asks for versioned entries. */
  predicate MultiRelease(es: seq<Entry>) {
    exists i | 0 <= i < |es| :: TrimSlash(es[i].name) == MANIFEST && es[i].multiRelease
  }

  function Names(es: seq<Entry>): seq<string> { seq(|es|, i requires 0 <= i < |es| => TrimSlash(es[i].name)) }

  /** Every entry has an acceptable name, and no two have one name. */
  predicate WellNamed(es: seq<Entry>) {
    (forall i | 0 <= i < |es| :: Acceptable(es[i])) && BytecodeContract.NoRepeats(Names(es))
  }

  /** No file expands beyond the ratio. */
  predicate WithinRatio(es: seq<Entry>, maxRatio: uint64) {
    forall i | 0 <= i < |es| && !HasSuffix(es[i].name, "/") ::
      !Exceeds(es[i].uncompressed, es[i].compressed, maxRatio)
  }

  /** `p` is the class chosen for its path. */
  ghost predicate Picked(es: seq<Entry>, target: nat, p: Pick) {
    exists i | 0 <= i < |es| ::
      && Chosen(es, i, MultiRelease(es), target) && p.entry == es[i]
      && Offer(es[i], MultiRelease(es), target) == Some((p.release, p.path))
  }

  /** The best so far for one path: entry `i`, among the first `n`. */
  predicate Best(es: seq<Entry>, n: nat, multi: bool, target: nat, path: string, i: nat)
    requires n <= |es|
  {
    && i < n && Offers(es[i], path, multi, target)
    && forall j | 0 <= j < n && Offers(es[j], path, multi, target) ::
         Outranks(Offer(es[i], multi, target).value.0, i, Offer(es[j], multi, target).value.0, j)
  }

  /** The map holds the best for every path that was offered. */
  ghost predicate Selection(
    es: seq<Entry>, n: nat, multi: bool, target: nat, picks: map<string, Pick>, at: map<string, nat>)
    requires n <= |es|
  {
    && picks.Keys == at.Keys
    && (forall path | path in picks ::
          && Best(es, n, multi, target, path, at[path]) && picks[path].entry == es[at[path]]
          && Offer(es[at[path]], multi, target) == Some((picks[path].release, path)) && picks[path].path == path)
    && (forall j | 0 <= j < n && Offer(es[j], multi, target).Some? :: Offer(es[j], multi, target).value.1 in picks)
  }

  lemma NoOffer(es: seq<Entry>, n: nat, multi: bool, target: nat, picks: map<string, Pick>, at: map<string, nat>)
    requires n < |es| && Selection(es, n, multi, target, picks, at) && Offer(es[n], multi, target).None?
    ensures Selection(es, n + 1, multi, target, picks, at)
  {}

  lemma BetterOffer(es: seq<Entry>, n: nat, multi: bool, target: nat, picks: map<string, Pick>, at: map<string, nat>)
    requires n < |es| && Selection(es, n, multi, target, picks, at) && Offer(es[n], multi, target).Some?
    requires var (release, path) := Offer(es[n], multi, target).value;
      path in picks ==> picks[path].release < release
    ensures var (release, path) := Offer(es[n], multi, target).value;
      Selection(es, n + 1, multi, target, picks[path := Pick(path, release, es[n])], at[path := n])
  {
    hide Offer;
    var (release, path) := Offer(es[n], multi, target).value;
    if path in picks { assert Best(es, n, multi, target, path, at[path]); }
    assert Best(es, n + 1, multi, target, path, n);
    forall q | q in picks && q != path ensures Best(es, n + 1, multi, target, q, at[q]) {
      assert Best(es, n, multi, target, q, at[q]);
    }
  }

  lemma WorseOffer(es: seq<Entry>, n: nat, multi: bool, target: nat, picks: map<string, Pick>, at: map<string, nat>)
    requires n < |es| && Selection(es, n, multi, target, picks, at) && Offer(es[n], multi, target).Some?
    requires var (release, path) := Offer(es[n], multi, target).value;
      path in picks && picks[path].release >= release
    ensures Selection(es, n + 1, multi, target, picks, at)
  {
    hide Offer;
    forall q | q in picks ensures Best(es, n + 1, multi, target, q, at[q]) {
      assert Best(es, n, multi, target, q, at[q]);
    }
  }

  /** The loop that chooses the classes of one archive and finds the archives in it. */
  method Select(es: seq<Entry>, multi: bool, config: Config)
    returns (ok: bool, picks: map<string, Pick>, nested: seq<Entry>, ghost at: map<string, nat>)
    ensures ok ==> Selection(es, |es|, multi, config.targetRelease, picks, at)
    ensures ok <==> !LargeClass(es, multi, config)
    ensures ok ==> nested == NestedIn(es)
  {
    hide Offer, Best, NestedArchive, HasSuffix;
    picks, nested, at := map[], [], map[];
    var n := 0;
    assert NestedIn(es[..0]) == [];
    while n < |es|
      invariant 0 <= n <= |es| && nested == NestedIn(es[..n])
      invariant Selection(es, n, multi, config.targetRelease, picks, at)
      invariant forall i | 0 <= i < n && Offer(es[i], multi, config.targetRelease).Some? ::
        es[i].uncompressed <= config.maxClassBytes
    {
      var e := es[n];
      assert es[..n + 1][..n] == es[..n];
      if !HasSuffix(e.name, "/") && NestedArchive(e.name) { nested := nested + [e]; }
      var offer := Offer(e, multi, config.targetRelease);
      if offer.Some? {
        var (release, path) := offer.value;
        if e.uncompressed > config.maxClassBytes { return false, picks, nested, at; }
        if path !in picks || picks[path].release < release {
          BetterOffer(es, n, multi, config.targetRelease, picks, at);
          picks, at := picks[path := Pick(path, release, e)], at[path := n];
        } else {
          WorseOffer(es, n, multi, config.targetRelease, picks, at);
        }
      } else {
        NoOffer(es, n, multi, config.targetRelease, picks, at);
      }
      n := n + 1;
    }
    assert es[..|es|] == es;
    return true, picks, nested, at;
  }

  function NestedIn(es: seq<Entry>): seq<Entry> {
    if es == [] then []
    else
      var e := es[|es| - 1];
      NestedIn(es[..|es| - 1]) + (if !HasSuffix(e.name, "/") && NestedArchive(e.name) then [e] else [])
  }

  predicate Nests(e: Entry) { !HasSuffix(e.name, "/") && NestedArchive(e.name) }

  lemma {:induction false} NestedMembers(es: seq<Entry>, e: Entry)
    ensures e in NestedIn(es) <==> e in es && Nests(e)
  {
    hide NestedArchive, HasSuffix;
    if es != [] {
      NestedMembers(es[..|es| - 1], e);
      assert es == es[..|es| - 1] + [es[|es| - 1]];
    }
  }

  /** The last of some entries with different names has a name of its own. */
  lemma LastName(es: seq<Entry>, d: Entry)
    requires es != [] && BytecodeContract.NoRepeats(Names(es)) && d in es[..|es| - 1]
    ensures d.name != es[|es| - 1].name
  {
    hide TrimSlash;
    var i :| 0 <= i < |es| - 1 && es[i] == d;
    assert Names(es)[i] != Names(es)[|es| - 1];
  }

  lemma FrontNames(es: seq<Entry>)
    requires es != [] && BytecodeContract.NoRepeats(Names(es))
    ensures BytecodeContract.NoRepeats(Names(es[..|es| - 1]))
  {
    hide TrimSlash;
    assert Names(es[..|es| - 1]) == Names(es)[..|es| - 1];
  }

  lemma {:induction false} NestedDistinct(es: seq<Entry>)
    requires BytecodeContract.NoRepeats(Names(es))
    ensures Sorting.DistinctBy(NestedIn(es), ByName)
  {
    hide NestedArchive, HasSuffix, Names, BytecodeContract.NoRepeats;
    if es != [] {
      var front, e := es[..|es| - 1], es[|es| - 1];
      FrontNames(es);
      NestedDistinct(front);
      forall d | d in NestedIn(front) ensures d.name != e.name {
        NestedMembers(front, d);
        LastName(es, d);
      }
    }
  }

  lemma NestedAreIn(es: seq<Entry>)
    requires BytecodeContract.NoRepeats(Names(es))
    ensures forall e | e in NestedIn(es) :: e in es && NestedArchive(e.name) && !HasSuffix(e.name, "/")
    ensures forall e | e in es && NestedArchive(e.name) && !HasSuffix(e.name, "/") :: e in NestedIn(es)
    ensures Sorting.DistinctBy(NestedIn(es), ByName)
  {
    hide NestedArchive, HasSuffix, NestedIn, Names, BytecodeContract.NoRepeats, Sorting.DistinctBy;
    NestedDistinct(es);
    forall e ensures e in NestedIn(es) <==> e in es && Nests(e) { NestedMembers(es, e); }
  }

  /** The picks of a map as a list, whatever the order of the map. */
  method Listed(picks: map<string, Pick>) returns (list: seq<Pick>)
    requires forall path | path in picks :: picks[path].path == path
    ensures Sorting.DistinctBy(list, ByPath)
    ensures forall p :: p in list <==> p.path in picks && picks[p.path] == p
  {
    list := [];
    var left := picks.Keys;
    while left != {}
      invariant left <= picks.Keys && Sorting.DistinctBy(list, ByPath)
      invariant forall p :: p in list <==> p.path in picks && p.path !in left && picks[p.path] == p
      decreases left
    {
      var path :| path in left;
      list, left := list + [picks[path]], left - {path};
    }
  }

  lemma SelectionIsPicked(es: seq<Entry>, target: nat, picks: map<string, Pick>, at: map<string, nat>, p: Pick)
    requires Selection(es, |es|, MultiRelease(es), target, picks, at)
    ensures p.path in picks && picks[p.path] == p <==> Picked(es, target, p)
  {
    hide Offer;
    var multi := MultiRelease(es);
    if p.path in picks && picks[p.path] == p {
      var i := at[p.path];
      assert Best(es, |es|, multi, target, p.path, i);
      assert Chosen(es, i, multi, target);
    }
    if Picked(es, target, p) {
      var i :| 0 <= i < |es| && Chosen(es, i, multi, target) && p.entry == es[i] &&
               Offer(es[i], multi, target) == Some((p.release, p.path));
      var k := at[p.path];
      assert Best(es, |es|, multi, target, p.path, k);
      assert Offers(es[i], p.path, multi, target) && Offers(es[k], p.path, multi, target);
      assert Outranks(p.release, i, Offer(es[k], multi, target).value.0, k);
    }
  }

  // ---------------------------------------------------------------- the budget

  /** An archive that nothing can be listed from. */
  predicate Condemned(a: Archive) {
    a.Broken? || !WellNamed(a.entries) || Unreadable(a.entries)
  }

  predicate Unreadable(es: seq<Entry>) {
    exists i | 0 <= i < |es| :: TrimSlash(es[i].name) == MANIFEST && es[i].payload.None?
  }

  /** An archive for which the budget, a ratio or a size limit is too small. */
  predicate TooLarge(es: seq<Entry>, config: Config, rootSize: uint64, entries: nat, expanded: uint64) {
    OverBudget(es, config, rootSize, entries, expanded) || LargeManifest(es) || LargeClass(es, MultiRelease(es), config)
  }

  predicate OverBudget(es: seq<Entry>, config: Config, rootSize: uint64, entries: nat, expanded: uint64) {
    || entries + |es| > config.maxEntries
    || expanded as int + SizeOf(es) > config.maxExpandedBytes as int
    || expanded as int + SizeOf(es) > rootSize as int * config.maxRatio as int
    || !WithinRatio(es, config.maxRatio)
  }

  /** The same for an archive that may be broken: its records are scanned first. */
  predicate OverLimit(a: Archive, config: Config, rootSize: uint64, entries: nat, expanded: uint64) {
    match a
    case Broken(records, _) => entries + records > config.maxEntries
    case Archive(es) => TooLarge(es, config, rootSize, entries, expanded)
  }

  predicate LargeManifest(es: seq<Entry>) {
    exists i | 0 <= i < |es| :: TrimSlash(es[i].name) == MANIFEST && es[i].uncompressed > MAX_MANIFEST_BYTES
  }

  predicate LargeClass(es: seq<Entry>, multi: bool, config: Config) {
    exists i | 0 <= i < |es| ::
      Offer(es[i], multi, config.targetRelease).Some? && es[i].uncompressed > config.maxClassBytes
  }

  /** Records and bytes to be paid for. */
  datatype Cost = Cost(records: nat, bytes: nat)

  function Plus(a: Cost, b: Cost): Cost { Cost(a.records + b.records, a.bytes + b.bytes) }

  predicate AtMost(a: Cost, b: Cost) { a.records <= b.records && a.bytes <= b.bytes }

  /** The archive in this entry is walked too. */
  predicate Descends(e: Entry, depth: nat, config: Config) {
    NestedArchive(e.name) && !HasSuffix(e.name, "/") && depth < config.maxDepth && e.payload.Some?
  }

  /** What a broken archive is charged for. */
  function Charge(records: nat, counted: bool): Cost { Cost(if counted then records else 0, 0) }

  /** What an archive costs at most, with all the archives that are walked inside it. */
  function Load(a: Archive, depth: nat, config: Config): Cost
    decreases a, 2
  {
    if a.Broken? then Cost(a.records, 0)
    else Plus(Cost(|a.entries|, SizeOf(a.entries)), LoadInside(a.entries, depth, config))
  }

  function LoadInside(es: seq<Entry>, depth: nat, config: Config): Cost
    decreases es, 1
  {
    if es == [] then Cost(0, 0)
    else Plus(LoadInside(es[..|es| - 1], depth, config), LoadAt(es[|es| - 1], depth, config))
  }

  function LoadAt(e: Entry, depth: nat, config: Config): Cost
    decreases e, 0
  {
    if Descends(e, depth, config) then Load(e.inside, depth + 1, config) else Cost(0, 0)
  }

  predicate Exceeding(c: Cost, config: Config, rootSize: uint64) {
    || c.records > config.maxEntries || c.bytes > config.maxExpandedBytes as int
    || c.bytes > rootSize as int * config.maxRatio as int
  }

  /** A class of this archive, or an archive in it, has a path that is too long. */
  ghost predicate LongPath(es: seq<Entry>, ancestry: seq<string>, config: Config) {
    || (exists p | Picked(es, config.targetRelease, p) ::
          JoinPath(ancestry + [p.entry.name]).None? || JoinPath(ancestry + [p.path]).None?)
    || (exists e | e in es :: NestedArchive(e.name) && JoinPath(ancestry + [e.name]).None?)
  }

  /** Somewhere on the walk an entry, a manifest or a class is too large by itself, or a path
      too long. */
  ghost predicate Trouble(a: Archive, ancestry: seq<string>, depth: nat, config: Config)
    decreases a
  {
    && a.Archive?
    && (|| !WithinRatio(a.entries, config.maxRatio) || LargeManifest(a.entries)
        || LargeClass(a.entries, MultiRelease(a.entries), config) || LongPath(a.entries, ancestry, config)
        || exists e | e in a.entries ::
             Descends(e, depth, config) && Trouble(e.inside, ancestry + [e.name], depth + 1, config))
  }

  /** The reasons to give up a whole walk, when `spent` was spent before. */
  ghost predicate TooMuch(
    a: Archive, ancestry: seq<string>, depth: nat, config: Config, rootSize: uint64, spent: Cost)
  {
    Trouble(a, ancestry, depth, config) || Exceeding(Plus(spent, Load(a, depth, config)), config, rootSize)
  }

  lemma {:induction false} LoadOfDistinct(some: seq<Entry>, es: seq<Entry>, depth: nat, config: Config)
    requires Sorting.DistinctBy(some, ByName) && forall e | e in some :: e in es
    ensures AtMost(LoadInside(some, depth, config), LoadInside(es, depth, config))
    decreases |some|
  {
    hide LoadAt;
    if some != [] {
      var front, e := some[..|some| - 1], some[|some| - 1];
      assert e in some;
      assert e in es;
      var i :| 0 <= i < |es| && es[i] == e;
      var rest := es[..i] + es[i + 1..];
      LoadWithout(es, i, depth, config);
      forall f | f in front ensures f in rest {
        var j :| 0 <= j < |front| && front[j] == f;
        assert ByName(some[j]) != ByName(some[|front|]);
        assert some[j] in es;
        var k :| 0 <= k < |es| && es[k] == f;
        assert k != i;
        assert f == rest[if k < i then k else k - 1];
      }
      LoadOfDistinct(front, rest, depth, config);
    }
  }

  lemma {:induction false} LoadWithout(es: seq<Entry>, i: nat, depth: nat, config: Config)
    requires i < |es|
    ensures LoadInside(es, depth, config) ==
            Plus(LoadInside(es[..i] + es[i + 1..], depth, config), LoadAt(es[i], depth, config))
    decreases |es|
  {
    hide LoadAt;
    var n := |es| - 1;
    if i == n {
      assert es[..i] + es[i + 1..] == es[..n];
    } else {
      var rest := es[..i] + es[i + 1..];
      LoadWithout(es[..n], i, depth, config);
      assert rest[..|rest| - 1] == es[..n][..i] + es[..n][i + 1..] && rest[|rest| - 1] == es[n];
    }
  }

  lemma {:induction false} LoadPrefix(es: seq<Entry>, n: nat, depth: nat, config: Config)
    requires n <= |es|
    ensures AtMost(LoadInside(es[..n], depth, config), LoadInside(es, depth, config))
    decreases |es| - n
  {
    hide LoadAt;
    if n == |es| {
      assert es[..n] == es;
    } else {
      LoadPrefix(es, n + 1, depth, config);
      assert es[..n + 1][..n] == es[..n];
    }
  }

  ghost predicate IndexedByName(byName: map<string, Entry>, es: seq<Entry>) {
    && (forall name :: name in byName <==> name in Names(es))
    && (forall name | name in byName :: byName[name] in es && TrimSlash(byName[name].name) == name)
  }

  lemma {:induction false} SizeGrows(es: seq<Entry>, n: nat)
    requires n <= |es|
    ensures SizeOf(es[..n]) <= SizeOf(es)
    decreases |es| - n
  {
    if n < |es| {
      assert es[..n + 1][..n] == es[..n];
      SizeGrows(es, n + 1);
    } else {
      assert es[..n] == es;
    }
  }

  lemma OneMoreName(es: seq<Entry>, n: nat)
    requires n < |es|
    ensures es[..n + 1] == es[..n] + [es[n]]
    ensures Names(es[..n + 1]) == Names(es[..n]) + [TrimSlash(es[n].name)] && Names(es[..n + 1]) <= Names(es)
    ensures SizeOf(es[..n + 1]) == SizeOf(es[..n]) + es[n].uncompressed as int
  {
    assert es[..n + 1][..n] == es[..n];
  }

  lemma WellNamedGrows(es: seq<Entry>, n: nat)
    requires n < |es| && WellNamed(es[..n])
    ensures WellNamed(es[..n + 1]) <==> Acceptable(es[n]) && TrimSlash(es[n].name) !in Names(es[..n])
    ensures !WellNamed(es[..n + 1]) ==> !WellNamed(es)
  {
    hide Acceptable, TrimSlash;
    OneMoreName(es, n);
    BytecodeContract.Appended(Names(es[..n]), TrimSlash(es[n].name));
    if !BytecodeContract.NoRepeats(Names(es[..n + 1])) {
      BytecodeContract.RepeatsStay(Names(es[..n + 1]), Names(es));
    }
  }

  lemma IndexGrows(byName: map<string, Entry>, es: seq<Entry>, n: nat)
    requires n < |es| && IndexedByName(byName, es[..n])
    ensures TrimSlash(es[n].name) in byName <==> TrimSlash(es[n].name) in Names(es[..n])
    ensures IndexedByName(byName[TrimSlash(es[n].name) := es[n]], es[..n + 1])
  {
    hide TrimSlash;
    OneMoreName(es, n);
  }

  lemma WithinRatioGrows(es: seq<Entry>, n: nat, maxRatio: uint64)
    requires n < |es| && WithinRatio(es[..n], maxRatio)
    ensures WithinRatio(es[..n + 1], maxRatio) <==>
              HasSuffix(es[n].name, "/") || !Exceeds(es[n].uncompressed, es[n].compressed, maxRatio)
    ensures !WithinRatio(es[..n + 1], maxRatio) ==> !WithinRatio(es, maxRatio)
  {
    hide Exceeds, HasSuffix;
    var next := es[..n + 1];
    assert next[n] == es[n];
    assert forall i | 0 <= i < n :: next[i] == es[..n][i];
  }

  /** The entries scanned so far are in order, and paid for. */
  ghost predicate Scanned(es: seq<Entry>, n: nat, config: Config, spent: uint64, byName: map<string, Entry>, expanded: uint64)
    requires n <= |es|
  {
    && WellNamed(es[..n]) && IndexedByName(byName, es[..n]) && WithinRatio(es[..n], config.maxRatio)
    && expanded as int == spent as int + SizeOf(es[..n])
  }

  /** One entry of the pass: its name, its size and its ratio. */
  method ScanEntry(
    es: seq<Entry>, n: nat, config: Config, ghost spent: uint64, byName: map<string, Entry>, expanded: uint64)
    returns (outcome: Outcome, total: uint64)
    requires n < |es| && Scanned(es, n, config, spent, byName, expanded) && expanded <= config.maxExpandedBytes
    ensures expanded <= total <= config.maxExpandedBytes && total as int <= spent as int + SizeOf(es)
    ensures outcome == Fine ==> Scanned(es, n + 1, config, spent, byName[TrimSlash(es[n].name) := es[n]], total)
    ensures outcome == Unsafe ==> !WellNamed(es)
    ensures outcome == LimitReached ==>
      spent as int + SizeOf(es) > config.maxExpandedBytes as int || !WithinRatio(es, config.maxRatio)
  {
    hide Acceptable, Exceeds, IndexedByName, Names, WellNamed, WithinRatio, SizeOf, HasSuffix, TrimSlash;
    var e := es[n];
    total := expanded;
    OneMoreName(es, n);
    SizeGrows(es, n);
    SizeGrows(es, n + 1);
    WellNamedGrows(es, n);
    if !Acceptable(e) { return Unsafe, total; }
    IndexGrows(byName, es, n);
    if TrimSlash(e.name) in byName { return Unsafe, total; }
    if e.uncompressed > config.maxExpandedBytes - expanded { return LimitReached, total; }
    total := expanded + e.uncompressed;
    WithinRatioGrows(es, n, config.maxRatio);
    if !HasSuffix(e.name, "/") && Exceeds(e.uncompressed, e.compressed, config.maxRatio) { return LimitReached, total; }
    return Fine, total;
  }

  /** The pass over the entries of one archive: names, sizes and ratios, against the budget
      that is left. */
  method ScanEntries(es: seq<Entry>, config: Config, spent: uint64)
    returns (outcome: Outcome, byName: map<string, Entry>, expanded: uint64)
    requires spent <= config.maxExpandedBytes
    ensures spent <= expanded <= config.maxExpandedBytes && expanded as int <= spent as int + SizeOf(es)
    ensures outcome == Fine ==> WellNamed(es) && WithinRatio(es, config.maxRatio)
    ensures outcome == Fine ==> IndexedByName(byName, es) && expanded as int == spent as int + SizeOf(es)
    ensures outcome == Unsafe ==> !WellNamed(es)
    ensures outcome == LimitReached ==>
      spent as int + SizeOf(es) > config.maxExpandedBytes as int || !WithinRatio(es, config.maxRatio)
  {
    assert Scanned(es, 0, config, spent, map[], spent);
    hide Scanned, IndexedByName, WellNamed, WithinRatio, SizeOf;
    byName, expanded := map[], spent;
    var n := 0;
    while n < |es|
      invariant 0 <= n <= |es| && spent <= expanded <= config.maxExpandedBytes
      invariant Scanned(es, n, config, spent, byName, expanded) && expanded as int <= spent as int + SizeOf(es)
    {
      outcome, expanded := ScanEntry(es, n, config, spent, byName, expanded);
      if outcome != Fine { return; }
      byName := byName[TrimSlash(es[n].name) := es[n]];
      n := n + 1;
    }
    AllScanned(es, config, spent, byName, expanded);
    return Fine, byName, expanded;
  }

  lemma AllScanned(es: seq<Entry>, config: Config, spent: uint64, byName: map<string, Entry>, expanded: uint64)
    requires Scanned(es, |es|, config, spent, byName, expanded)
    ensures WellNamed(es) && WithinRatio(es, config.maxRatio) && IndexedByName(byName, es)
    ensures expanded as int == spent as int + SizeOf(es)
  {
    hide WellNamed, WithinRatio, IndexedByName, SizeOf;
    assert es[..|es|] == es;
  }

  lemma ManifestFound(byName: map<string, Entry>, es: seq<Entry>)
    requires IndexedByName(byName, es) && BytecodeContract.NoRepeats(Names(es))
    ensures MANIFEST in byName ==>
      && (MultiRelease(es) <==> byName[MANIFEST].multiRelease)
      && exists i | 0 <= i < |es| :: TrimSlash(es[i].name) == MANIFEST && es[i] == byName[MANIFEST]
    ensures MANIFEST !in byName ==> !MultiRelease(es)
  {
    hide TrimSlash;
    if MANIFEST in byName {
      var i :| 0 <= i < |es| && byName[MANIFEST] == es[i];
      forall j | 0 <= j < |es| && TrimSlash(es[j].name) == MANIFEST ensures j == i {
        assert Names(es)[i] == Names(es)[j];
      }
    } else {
      forall j | 0 <= j < |es| ensures TrimSlash(es[j].name) != MANIFEST {
        assert Names(es)[j] in Names(es);
      }
    }
  }

  // ---------------------------------------------------------------- the walk

  const DEPTH_CODE := "nested_archive_depth_exceeded"
  const READ_CODE := "nested_archive_read_failed"
  const INVALID_CODE := "nested_archive_invalid"
  const DEPTH_MESSAGE := "nested JVM archive depth limit reached"
  const READ_MESSAGE := "nested JVM archive bytes could not be read"
  const INVALID_MESSAGE := "nested JVM archive is invalid"

  /** Why a nested archive was not visited. */
  predicate Reason(f: Failure, e: Entry, names: seq<string>, config: Config) {
    if |names| >= config.maxDepth then f.code == DEPTH_CODE && f.message == DEPTH_MESSAGE
    else if e.payload.None? then f.code == READ_CODE && f.message == READ_MESSAGE
    else f.code == INVALID_CODE && f.message == INVALID_MESSAGE && Condemned(e.inside)
  }

  /** A candidate for a class that was picked behind these names. */
  ghost predicate Stems(c: Candidate, parts: seq<string>, v: Visit, target: nat) {
    exists p :: Picked(v.entries, target, p) && MadeFrom(c, parts, v.ancestry, p)
  }

  predicate MadeFrom(c: Candidate, parts: seq<string>, ancestry: seq<string>, p: Pick) {
    && parts == ancestry + [p.path] && c.identity == Prefixed(parts) && c.release == p.release
    && c.content == p.entry.payload
    && JoinPath(ancestry + [p.entry.name]) == Some(c.entryPath) && JoinPath(parts) == Some(c.logicalPath)
  }

  ghost predicate CandidatesOk(cs: seq<Candidate>, parts: seq<seq<string>>, visits: seq<Visit>, config: Config) {
    && |parts| == |cs| && BytecodeContract.NoRepeats(parts)
    && forall i | 0 <= i < |parts| :: CandidateOk(cs[i], parts[i], visits, config)
  }

  ghost predicate CandidateOk(c: Candidate, parts: seq<string>, visits: seq<Visit>, config: Config) {
    |parts| <= config.maxDepth && exists v | v in visits :: Stems(c, parts, v, config.targetRelease)
  }

  lemma OneMoreCandidate(
    cs: seq<Candidate>, parts: seq<seq<string>>, visits: seq<Visit>, config: Config, c: Candidate, names: seq<string>)
    requires CandidatesOk(cs, parts, visits, config) && CandidateOk(c, names, visits, config) && names !in parts
    ensures CandidatesOk(cs + [c], parts + [names], visits, config)
  {
    hide CandidateOk;
    BytecodeContract.Appended(parts, names);
  }

  lemma MoreVisits(
    cs: seq<Candidate>, parts: seq<seq<string>>, visits: seq<Visit>, config: Config, v: Visit)
    requires CandidatesOk(cs, parts, visits, config)
    ensures CandidatesOk(cs, parts, visits + [v], config)
  {
    hide Stems;
    forall i | 0 <= i < |parts| ensures CandidateOk(cs[i], parts[i], visits + [v], config) {
      assert CandidateOk(cs[i], parts[i], visits, config);
      var u :| u in visits && Stems(cs[i], parts[i], u, config.targetRelease);
      assert u in visits + [v];
    }
  }

  ghost predicate FailuresOk(fs: seq<Failure>, failed: seq<seq<string>>, config: Config) {
    && |failed| == |fs| && BytecodeContract.NoRepeats(failed)
    && forall i | 0 <= i < |failed| :: FailureAt(fs[i], failed[i]) && |failed[i]| <= config.maxDepth
  }

  lemma OneMoreFailure(fs: seq<Failure>, failed: seq<seq<string>>, config: Config, f: Failure, names: seq<string>)
    requires FailuresOk(fs, failed, config) && FailureAt(f, names) && |names| <= config.maxDepth && names !in failed
    ensures FailuresOk(fs + [f], failed + [names], config)
  {
    hide FailureAt;
    BytecodeContract.Appended(failed, names);
  }

  // ---------------------------------------------------------------- the tree of archives

  /** Nested archive `e` of a visited archive, and the names that lead to it. */
  ghost predicate Behind(visits: seq<Visit>, names: seq<string>, e: Entry) {
    exists v | v in visits :: e in v.entries && Nests(e) && names == v.ancestry + [e.name]
  }

  /** The root, or the bytes of a nested archive that is not too deep. */
  ghost predicate Comes(visits: seq<Visit>, names: seq<string>, a: Archive, config: Config) {
    if visits == [] then names == []
    else exists e :: Behind(visits, names, e) && e.payload.Some? && e.inside == a && |names| < config.maxDepth
  }

  ghost predicate VisitOk(before: seq<Visit>, v: Visit, config: Config) {
    !Condemned(Archive(v.entries)) && Comes(before, v.ancestry, Archive(v.entries), config)
  }

  /** Only the root and nested archives of visited ones are visited, and none that is condemned. */
  ghost predicate VisitsOk(visits: seq<Visit>, config: Config) {
    forall k | 0 <= k < |visits| :: VisitOk(visits[..k], visits[k], config)
  }

  /** Each failure is that of a nested archive of a visited one, for its own reason. */
  ghost predicate ReasonsOk(fs: seq<Failure>, failed: seq<seq<string>>, visits: seq<Visit>, config: Config) {
    |fs| == |failed| && forall i | 0 <= i < |fs| :: HasCause(fs[i], failed[i], visits, config)
  }

  ghost predicate HasCause(f: Failure, names: seq<string>, visits: seq<Visit>, config: Config) {
    exists e :: Behind(visits, names, e) && Reason(f, e, names, config)
  }

  lemma BehindStill(visits: seq<Visit>, more: seq<Visit>, names: seq<string>, e: Entry)
    requires Behind(visits, names, e) && visits <= more
    ensures Behind(more, names, e)
  {
    hide Nests;
    var v :| v in visits && e in v.entries && Nests(e) && names == v.ancestry + [e.name];
    assert v in more;
  }

  lemma VisitsGrow(
    visits: seq<Visit>, v: Visit, fs: seq<Failure>, failed: seq<seq<string>>, config: Config)
    requires VisitsOk(visits, config) && VisitOk(visits, v, config) && ReasonsOk(fs, failed, visits, config)
    ensures VisitsOk(visits + [v], config) && ReasonsOk(fs, failed, visits + [v], config)
  {
    hide VisitOk, Behind, Reason;
    var more := visits + [v];
    forall k | 0 <= k < |more| ensures VisitOk(more[..k], more[k], config) {
      assert more[..k] == visits[..k];
      if k < |visits| { assert VisitOk(visits[..k], visits[k], config); } else { assert visits[..k] == visits; }
    }
    forall i | 0 <= i < |fs| ensures HasCause(fs[i], failed[i], more, config) {
      assert HasCause(fs[i], failed[i], visits, config);
      var e :| Behind(visits, failed[i], e) && Reason(fs[i], e, failed[i], config);
      BehindStill(visits, more, failed[i], e);
    }
  }

  lemma ReasonsGrow(
    visits: seq<Visit>, fs: seq<Failure>, failed: seq<seq<string>>, config: Config, f: Failure, names: seq<string>)
    requires ReasonsOk(fs, failed, visits, config) && HasCause(f, names, visits, config)
    ensures ReasonsOk(fs + [f], failed + [names], visits, config)
  {
    hide HasCause;
  }

  lemma CauseIs(f: Failure, names: seq<string>, visits: seq<Visit>, config: Config, e: Entry)
    requires Behind(visits, names, e) && Reason(f, e, names, config)
    ensures HasCause(f, names, visits, config)
  {
    hide Behind, Reason;
  }

  lemma IsBehind(visits: seq<Visit>, v: Visit, e: Entry)
    requires v in visits && e in v.entries && NestedArchive(e.name) && !HasSuffix(e.name, "/")
    ensures Behind(visits, v.ancestry + [e.name], e)
  {
    hide NestedArchive, HasSuffix;
  }

  class Walker {
    const config: Config
    const rootSize: uint64
    /** What is spent of the budget. */
    var entries: nat
    var expanded: uint64
    var candidates: seq<Candidate>
    var failures: seq<Failure>
    /** The names behind each identity, and the archives inspected to the end. */
    ghost var parts: seq<seq<string>>
    ghost var failed: seq<seq<string>>
    ghost var visits: seq<Visit>

    constructor (config: Config, rootSize: uint64)
      requires Configured(config)
      ensures Valid() && this.config == config && this.rootSize == rootSize
      ensures Listed() == Progress([], [], [], [], []) && entries == 0 && expanded == 0
    {
      this.config, this.rootSize := config, rootSize;
      entries, expanded, candidates, failures := 0, 0, [], [];
      parts, failed, visits := [], [], [];
    }

    ghost predicate Valid()
      reads this
    {
      && Configured(config) && BudgetKept() && CandidatesKept() && FailuresKept() && TreeKept()
    }

    /** The visited archives are within the one budget. */
    ghost predicate BudgetKept()
      reads this`visits, this`entries, this`expanded
    {
      && TotalEntries(visits) <= entries <= config.maxEntries
      && TotalSize(visits) <= expanded as int <= config.maxExpandedBytes as int
      && TotalSize(visits) <= rootSize as int * config.maxRatio as int
    }

    /** Every candidate was picked in a visited archive; no two have one identity. */
    ghost predicate CandidatesKept()
      reads this`candidates, this`parts, this`visits
    {
      CandidatesOk(candidates, parts, visits, config)
    }

    ghost predicate FailuresKept()
      reads this`failures, this`failed
    {
      FailuresOk(failures, failed, config)
    }

    ghost predicate TreeKept()
      reads this`visits, this`failures, this`failed
    {
      VisitsOk(visits, config) && ReasonsOk(failures, failed, visits, config)
    }

    /** inspectJVMArchive: what one archive offers, paid for from the budget. */
    method Inspect(archive: Archive) returns (outcome: Outcome, selected: seq<Pick>, nested: seq<Entry>)
      requires Valid()
      modifies this`entries, this`expanded
      ensures Valid() && entries >= old(entries) && expanded >= old(expanded)
      ensures outcome == Unsafe ==> Condemned(archive)
      ensures outcome == LimitReached ==> OverLimit(archive, config, rootSize, old(entries), old(expanded))
      ensures outcome != LimitReached && archive.Broken? ==>
        !OverLimit(archive, config, rootSize, old(entries), old(expanded))
      ensures outcome == Unsafe ==>
        if archive.Broken? then Spent() == Plus(old(Spent()), Charge(archive.records, archive.counted))
        else AtMost(Spent(), Plus(old(Spent()), Cost(|archive.entries|, SizeOf(archive.entries))))
      ensures outcome == Fine ==> archive.Archive? && !Condemned(archive)
      ensures outcome == Fine ==> !TooLarge(archive.entries, config, rootSize, old(entries), old(expanded))
      ensures outcome == Fine ==>
        && entries == old(entries) + |archive.entries| && expanded as int == old(expanded) as int + SizeOf(archive.entries)
        && Sorting.DistinctBy(selected, ByPath) && Sorting.DistinctBy(nested, ByName)
        && (forall p :: p in selected <==> Picked(archive.entries, config.targetRelease, p))
        && (forall e | e in nested :: e in archive.entries && NestedArchive(e.name) && !HasSuffix(e.name, "/"))
        && (forall e | e in archive.entries && NestedArchive(e.name) && !HasSuffix(e.name, "/") :: e in nested)
    {
      hide Picked, WellNamed, WithinRatio, NestedArchive, MultiRelease, LargeClass, SizeOf, Sorting.DistinctBy, TreeKept,
           CandidatesKept, FailuresKept;
      selected, nested := [], [];
      if archive.Broken? {
        if archive.records > config.maxEntries - entries { return LimitReached, selected, nested; }
        if archive.counted { entries := entries + archive.records; }
        return Unsafe, selected, nested;
      }
      var es := archive.entries;
      var byName;
      outcome, byName := Pay(es);
      if outcome != Fine { return; }
      var multi;
      outcome, multi := ReadManifest(byName, es);
      if outcome != Fine { return; }
      var ok;
      ok, selected, nested := Choose(es, multi, config);
      outcome := if ok then Fine else LimitReached;
    }

    /** The records and the bytes of one archive, taken from the budget. */
    method Pay(es: seq<Entry>) returns (outcome: Outcome, byName: map<string, Entry>)
      requires Valid()
      modifies this`entries, this`expanded
      ensures Valid() && entries >= old(entries) && expanded >= old(expanded)
      ensures outcome == Unsafe ==> !WellNamed(es)
      ensures outcome == LimitReached ==> OverBudget(es, config, rootSize, old(entries), old(expanded))
      ensures outcome != LimitReached ==>
        entries <= old(entries) + |es| && expanded as int <= old(expanded) as int + SizeOf(es)
      ensures outcome == Fine ==> !OverBudget(es, config, rootSize, old(entries), old(expanded)) && WellNamed(es)
      ensures outcome == Fine ==> IndexedByName(byName, es)
      ensures outcome == Fine ==>
        entries == old(entries) + |es| && expanded as int == old(expanded) as int + SizeOf(es)
    {
      hide WellNamed, WithinRatio, SizeOf, IndexedByName, Configured, TreeKept, CandidatesKept, FailuresKept;
      byName := map[];
      if |es| > config.maxEntries - entries { return LimitReached, byName; }
      entries := entries + |es|;
      outcome, byName, expanded := ScanEntries(es, config, expanded);
      if outcome != Fine { return; }
      ExceedsProduct(expanded, rootSize, config.maxRatio);
      if Exceeds(expanded, rootSize, config.maxRatio) { return LimitReached, byName; }
    }

    /** The picks of one archive become candidates. A path that gets too long ends it all. */
    method ListPicks(selected: seq<Pick>, ancestry: seq<string>, ghost v: Visit) returns (outcome: Outcome)
      requires Valid() && Sorting.DistinctBy(selected, ByPath) && v in visits && v.ancestry == ancestry &&
          |ancestry| < config.maxDepth
      requires forall p | p in selected :: Picked(v.entries, config.targetRelease, p)
      requires forall i | 0 <= i < |parts| :: !(ancestry <= parts[i])
      modifies this`candidates, this`parts
      ensures Valid() && outcome in {Fine, LimitReached}
      ensures old(candidates) <= candidates && old(parts) <= parts
      ensures outcome == Fine ==> Listing(candidates, parts, |old(candidates)|, ancestry, selected)
      ensures outcome == LimitReached ==> exists p | p in selected ::
        JoinPath(ancestry + [p.entry.name]).None? || JoinPath(ancestry + [p.path]).None?
    {
      hide Picked, JoinPath, Configured, BudgetKept, FailuresKept, TreeKept, CandidatesOk, CandidateOk,
           Sorting.DistinctBy, Listing;
      ghost var from, before := |candidates|, parts;
      var n := 0;
      NothingListed(candidates, parts, ancestry, selected, visits, config);
      while n < |selected|
        invariant Valid() && 0 <= n <= |selected|
        invariant old(candidates) <= candidates && before <= parts && |parts| == |candidates| == from + n
        invariant Listing(candidates, parts, from, ancestry, selected[..n])
      {
        var p := selected[n];
        var entryPath := JoinPath(ancestry + [p.entry.name]);
        if entryPath.None? { return LimitReached; }
        var logicalPath := JoinPath(ancestry + [p.path]);
        if logicalPath.None? { return LimitReached; }
        ghost var names := ancestry + [p.path];
        ListingNames(candidates, parts, from, ancestry, selected, n);
        NewIdentity(before, parts, ancestry, selected, n);
        var c := Candidate(entryPath.value, logicalPath.value, Prefixed(ancestry + [p.path]), p.release, p.entry.payload);
        IsCandidate(c, names, v, p, visits, config);
        OneMoreCandidate(candidates, parts, visits, config, c, names);
        ListingGrows(candidates, parts, from, ancestry, selected, n, c, names);
        candidates, parts := candidates + [c], parts + [names];
        n := n + 1;
      }
      assert selected[..|selected|] == selected;
      return Fine;
    }

    ghost function Spent(): Cost
      reads this
    {
      Cost(entries, expanded as int)
    }

    /** What is listed, to be compared with what is listed later. */
    ghost function Listed(): Progress
      reads this
    {
      Progress(candidates, parts, failures, failed, visits)
    }

    /** walkJVMArchive: an archive that is condemned lists nothing at all; otherwise every
        class picked in it or in an archive inside it is listed, every nested archive is
        visited or recorded as a failure, and all of it lies behind `ancestry`. */
    method Walk(archive: Archive, depth: nat, ancestry: seq<string>) returns (outcome: Outcome)
      requires Valid() && 1 <= depth <= config.maxDepth && |ancestry| == depth - 1 && NothingBehind(Listed(), ancestry)
      requires Comes(visits, ancestry, archive, config)
      modifies this
      ensures Valid() && entries >= old(entries) && expanded >= old(expanded)
      ensures outcome == Unsafe ==> Condemned(archive) && Listed() == old(Listed())
      ensures outcome == Fine ==> Extends(old(Listed()), Listed(), ancestry)
      ensures outcome == Fine ==> archive.Archive? && !Condemned(archive) && Complete(Listed(), |old(visits)|, config)
      ensures outcome == Fine ==> old(visits) + [Visit(ancestry, archive.entries)] <= visits
      ensures outcome != LimitReached ==>
        AtMost(Cost(entries, expanded as int), Plus(old(Spent()), Load(archive, depth, config)))
      ensures outcome == LimitReached ==> TooMuch(archive, ancestry, depth, config, rootSize, old(Spent()))
      decreases archive, 1
    {
      hide Picked, Configured, CandidatesOk, FailuresOk, VisitsOk, ReasonsOk, Sorting.DistinctBy, Condemned,
           NestedArchive, Accounted,
           Extends, Complete, Spread, CoveredBy, HasSuffix, SizeOf, NothingBehind, Listing, PathsOf, NamesOf,
           Longer, OverBudget, LargeManifest, LargeClass, TotalEntries, TotalSize, JoinPath, Trouble, Load, LoadAt,
           Descends, TooMuch, WithinRatio, MultiRelease, AtMost, FirstAccounted, WellNamed, Unreadable, LoadInside;
      ghost var start, spentEntries, spentBytes := Listed(), entries, expanded;
      Lengths();
      var selected, nested;
      ghost var budget := Spent();
      outcome, selected, nested := Inspect(archive);
      InspectionCosts(archive, ancestry, depth, config, rootSize, budget, Spent(), outcome);
      if outcome != Fine { return; }
      ghost var inspected := Spent();
      ghost var v := Visit(ancestry, archive.entries);
      NotCondemned(visits, archive, ancestry, config);
      AddVisit(v, spentEntries, spentBytes);
      NothingBehindParts(start, ancestry);
      outcome := ListPicks(selected, ancestry, v);
      if outcome != Fine {
        PickTrouble(archive, ancestry, depth, config, rootSize, budget, selected);
        return;
      }
      Lengths();
      AfterPicks(start, Listed(), v, selected, config);
      NoNames(nested);
      assert PathsOf(selected) + NamesOf(nested[..0]) == PathsOf(selected);
      NothingLoaded(inspected, nested, depth, ancestry, Listed(), config);
      var n := 0;
      while n < |nested|
        invariant Valid() && 0 <= n <= |nested| && entries >= spentEntries && expanded >= spentBytes
        invariant Spread(start, Listed(), ancestry, PathsOf(selected) + NamesOf(nested[..n]))
        invariant start.visits + [v] <= visits && CoveredBy(v, Listed(), config)
        invariant Complete(Listed(), |start.visits| + 1, config)
        invariant FirstAccounted(nested, n, ancestry, Listed(), config)
        invariant AtMost(Spent(), Plus(inspected, LoadInside(nested[..n], depth, config)))
      {
        ghost var before, names := Listed(), PathsOf(selected) + NamesOf(nested[..n]);
        var e := nested[n];
        FreshName(selected, nested, n, archive.entries, config.targetRelease);
        SpreadMisses(start, before, ancestry, names, e.name);
        ghost var sofar := Spent();
        assert v in visits && e in v.entries;
        IsBehind(visits, v, e);
        outcome := WalkNested(e, depth, ancestry + [e.name]);
        if outcome != Fine {
          NestedTrouble(archive, nested, n, ancestry, depth, config, rootSize, budget, sofar);
          return;
        }
        LoadGrows(inspected, sofar, Spent(), nested, n, depth, config);
        Lengths();
        NestedStep(start, before, Listed(), v, selected, nested, n, config);
        n := n + 1;
      }
      WholeLoad(archive, nested, budget, inspected, Spent(), depth, config);
      SpreadExtends(start, Listed(), ancestry, PathsOf(selected) + NamesOf(nested[..n]));
      CompleteAt(Listed(), |start.visits|, v, nested, config);
      return Fine;
    }

    /** One nested archive: too deep, unreadable, walked, or found to be condemned. */
    method WalkNested(e: Entry, depth: nat, child: seq<string>) returns (outcome: Outcome)
      requires Valid() && 1 <= depth == |child| <= config.maxDepth
      requires child[|child| - 1] == e.name && NestedArchive(e.name) && !HasSuffix(e.name, "/")
      requires NothingBehind(Listed(), child) && Behind(visits, child, e)
      modifies this
      ensures Valid() && entries >= old(entries) && expanded >= old(expanded)
      ensures outcome in {Fine, LimitReached}
      ensures outcome == Fine ==> Extends(old(Listed()), Listed(), child)
      ensures outcome == Fine ==>
        Complete(Listed(), |old(visits)|, config) && Accounted(e, child, Listed(), config)
      ensures outcome == Fine ==> AtMost(Spent(), Plus(old(Spent()), LoadAt(e, depth, config)))
      ensures outcome == LimitReached ==>
        JoinPath(child).None? ||
        (Descends(e, depth, config) && TooMuch(e.inside, child, depth + 1, config, rootSize, old(Spent())))
      decreases e.inside, 2
    {
      hide Configured, CandidatesOk, FailuresOk, VisitsOk, ReasonsOk, Condemned, NestedArchive, Accounted, Extends,
           Complete, CoveredBy,
           NothingBehind;
      var entryPath := JoinPath(child);
      if entryPath.None? { return LimitReached; }
      if depth >= config.maxDepth {
        Fail(e, child, entryPath.value, DEPTH_CODE, DEPTH_MESSAGE);
        return Fine;
      }
      if e.payload.None? {
        Fail(e, child, entryPath.value, READ_CODE, READ_MESSAGE);
        return Fine;
      }
      outcome := Walk(e.inside, depth + 1, child);
      if outcome == Unsafe {
        Fail(e, child, entryPath.value, INVALID_CODE, INVALID_MESSAGE);
        return Fine;
      }
      if outcome == Fine { WasVisited(e, child, Listed(), |old(visits)|, config); }
    }

    /** The failure of a nested archive is recorded. */
    method Fail(e: Entry, child: seq<string>, entryPath: string, code: string, message: string)
      requires Valid() && 0 < |child| <= config.maxDepth
      requires child[|child| - 1] == e.name && NestedArchive(e.name) && NothingBehind(Listed(), child)
      requires Behind(visits, child, e) && JoinPath(child) == Some(entryPath)
      requires var f := Failure(entryPath, Prefixed(child), code, message); Reason(f, e, child, config)
      modifies this`failures, this`failed
      ensures Valid()
      ensures Extends(old(Listed()), Listed(), child)
      ensures Complete(Listed(), |old(visits)|, config) && Accounted(e, child, Listed(), config)
    {
      hide Configured, CandidatesOk, FailuresOk, VisitsOk, ReasonsOk, Condemned, NestedArchive, CoveredBy, AllAccounted,
           CandidatesKept, BudgetKept, HasCause, Behind;
      var f := Failure(entryPath, Prefixed(child), code, message);
      ghost var before := Listed();
      NotYetFailed(before, child);
      OneMoreFailure(failures, failed, config, f, child);
      CauseIs(f, child, visits, config, e);
      ReasonsGrow(visits, failures, failed, config, f, child);
      SameLength(failures, failed, config);
      failures, failed := failures + [f], failed + [child];
      assert failed[|failed| - 1] == child && failures[|failures| - 1] == f;
    }

    lemma Lengths()
      requires Valid()
      ensures |candidates| == |parts| && |failures| == |failed|
    {}

    /** An archive inspected to the end was paid for. */
    ghost method AddVisit(v: Visit, spentEntries: nat, spentBytes: uint64)
      requires Valid()
      requires TotalEntries(visits) <= spentEntries && TotalSize(visits) <= spentBytes as int
      requires entries == spentEntries + |v.entries| && expanded as int == spentBytes as int + SizeOf(v.entries)
      requires !OverBudget(v.entries, config, rootSize, spentEntries, spentBytes)
      requires VisitOk(visits, v, config)
      modifies this`visits
      ensures Valid() && visits == old(visits) + [v]
    {
      hide Configured, CandidatesOk, FailuresOk, VisitsOk, ReasonsOk, SizeOf, TotalEntries, TotalSize, WithinRatio;
      OneMoreVisit(visits, v);
      MoreVisits(candidates, parts, visits, config, v);
      VisitsGrow(visits, v, failures, failed, config);
      visits := visits + [v];
    }
  }

  lemma NotCondemned(visits: seq<Visit>, a: Archive, ancestry: seq<string>, config: Config)
    requires a.Archive? && !Condemned(a) && Comes(visits, ancestry, a, config)
    ensures VisitOk(visits, Visit(ancestry, a.entries), config)
  {
    hide Condemned, Comes;
  }

  /** What inspecting an archive costs, or why it ends the walk. */
  lemma InspectionCosts(
    a: Archive, ancestry: seq<string>, depth: nat, config: Config, rootSize: uint64, before: Cost, after: Cost,
    outcome: Outcome)
    requires outcome == LimitReached ==>
      exists e: uint64 :: e as int == before.bytes && OverLimit(a, config, rootSize, before.records, e)
    requires outcome == Unsafe ==>
      if a.Broken? then after == Plus(before, Charge(a.records, a.counted))
      else AtMost(after, Plus(before, Cost(|a.entries|, SizeOf(a.entries))))
    requires outcome == Fine ==> a.Archive? && after == Plus(before, Cost(|a.entries|, SizeOf(a.entries)))
    ensures outcome == LimitReached ==> TooMuch(a, ancestry, depth, config, rootSize, before)
    ensures outcome != LimitReached ==> AtMost(after, Plus(before, Load(a, depth, config)))
    ensures outcome == Fine ==>
      Plus(after, LoadInside(a.entries, depth, config)) == Plus(before, Load(a, depth, config))
  {
    hide LargeManifest, LargeClass, WithinRatio, LongPath, MultiRelease, SizeOf, LoadInside;
  }

  lemma PickTrouble(
    a: Archive, ancestry: seq<string>, depth: nat, config: Config, rootSize: uint64, before: Cost, selected: seq<Pick>)
    requires a.Archive? && forall p | p in selected :: Picked(a.entries, config.targetRelease, p)
    requires exists p | p in selected ::
      JoinPath(ancestry + [p.entry.name]).None? || JoinPath(ancestry + [p.path]).None?
    ensures TooMuch(a, ancestry, depth, config, rootSize, before)
  {
    hide Picked, JoinPath, LargeManifest, LargeClass, WithinRatio, MultiRelease, Load;
  }

  lemma NextLoad(nested: seq<Entry>, n: nat, depth: nat, config: Config)
    requires n < |nested|
    ensures LoadInside(nested[..n + 1], depth, config) ==
            Plus(LoadInside(nested[..n], depth, config), LoadAt(nested[n], depth, config))
  {
    hide LoadAt;
    assert nested[..n + 1][..n] == nested[..n];
  }

  lemma NothingLoaded(
    inspected: Cost, nested: seq<Entry>, depth: nat, ancestry: seq<string>, a: Progress, config: Config)
    ensures AtMost(inspected, Plus(inspected, LoadInside(nested[..0], depth, config)))
    ensures FirstAccounted(nested, 0, ancestry, a, config)
  {}

  lemma LoadGrows(
    inspected: Cost, sofar: Cost, now: Cost, nested: seq<Entry>, n: nat, depth: nat, config: Config)
    requires n < |nested| && AtMost(sofar, Plus(inspected, LoadInside(nested[..n], depth, config)))
    requires AtMost(now, Plus(sofar, LoadAt(nested[n], depth, config)))
    ensures AtMost(now, Plus(inspected, LoadInside(nested[..n + 1], depth, config)))
  {
    hide LoadAt, LoadInside;
    NextLoad(nested, n, depth, config);
  }

  lemma WholeLoad(
    a: Archive, nested: seq<Entry>, before: Cost, inspected: Cost, now: Cost, depth: nat, config: Config)
    requires a.Archive? && Sorting.DistinctBy(nested, ByName) && forall e | e in nested :: e in a.entries
    requires Plus(inspected, LoadInside(a.entries, depth, config)) == Plus(before, Load(a, depth, config))
    requires AtMost(now, Plus(inspected, LoadInside(nested[..|nested|], depth, config)))
    ensures AtMost(now, Plus(before, Load(a, depth, config)))
  {
    hide LoadInside, Load, Sorting.DistinctBy;
    LoadOfDistinct(nested, a.entries, depth, config);
    assert nested[..|nested|] == nested;
  }

  /** A nested archive that ends the walk ends it for the archive around it. */
  lemma NestedTrouble(
    a: Archive, nested: seq<Entry>, n: nat, ancestry: seq<string>, depth: nat, config: Config, rootSize: uint64,
    before: Cost, sofar: Cost)
    requires a.Archive? && n < |nested| && Sorting.DistinctBy(nested, ByName)
    requires forall e | e in nested :: e in a.entries && NestedArchive(e.name)
    requires AtMost(sofar, Plus(Plus(before, Cost(|a.entries|, SizeOf(a.entries))), LoadInside(nested[..n], depth, config)))
    requires JoinPath(ancestry + [nested[n].name]).None? ||
      (Descends(nested[n], depth, config) &&
       TooMuch(nested[n].inside, ancestry + [nested[n].name], depth + 1, config, rootSize, sofar))
    ensures TooMuch(a, ancestry, depth, config, rootSize, before)
  {
    hide Trouble, Exceeding, Descends, Load, LoadInside, LoadAt, Sorting.DistinctBy, AtMost;
    var e := nested[n];
    assert e in a.entries;
    if JoinPath(ancestry + [e.name]).None? {
      PathTrouble(a, e, ancestry, depth, config);
    } else if Trouble(e.inside, ancestry + [e.name], depth + 1, config) {
      InnerTrouble(a, e, ancestry, depth, config);
    } else {
      NestedLoad(a, nested, n, depth, config, before, sofar);
      MoreExceeds(Plus(sofar, Load(e.inside, depth + 1, config)), Plus(before, Load(a, depth, config)), config, rootSize);
    }
  }

  lemma PathTrouble(a: Archive, e: Entry, ancestry: seq<string>, depth: nat, config: Config)
    requires a.Archive? && e in a.entries && NestedArchive(e.name) && JoinPath(ancestry + [e.name]).None?
    ensures Trouble(a, ancestry, depth, config)
  {
    hide JoinPath, LargeManifest, LargeClass, WithinRatio, MultiRelease, NestedArchive, Picked;
  }

  lemma InnerTrouble(a: Archive, e: Entry, ancestry: seq<string>, depth: nat, config: Config)
    requires a.Archive? && e in a.entries && Descends(e, depth, config)
    requires Trouble(e.inside, ancestry + [e.name], depth + 1, config)
    ensures Trouble(a, ancestry, depth, config)
  {
    hide LongPath, LargeManifest, LargeClass, WithinRatio, MultiRelease, Descends;
  }

  lemma MoreExceeds(some: Cost, more: Cost, config: Config, rootSize: uint64)
    requires AtMost(some, more) && Exceeding(some, config, rootSize)
    ensures Exceeding(more, config, rootSize)
  {}

  lemma NestedLoad(a: Archive, nested: seq<Entry>, n: nat, depth: nat, config: Config, before: Cost, sofar: Cost)
    requires a.Archive? && n < |nested| && Sorting.DistinctBy(nested, ByName)
    requires forall e | e in nested :: e in a.entries
    requires AtMost(sofar, Plus(Plus(before, Cost(|a.entries|, SizeOf(a.entries))), LoadInside(nested[..n], depth, config)))
    requires Descends(nested[n], depth, config)
    ensures AtMost(Plus(sofar, Load(nested[n].inside, depth + 1, config)), Plus(before, Load(a, depth, config)))
  {
    hide LoadInside, SizeOf, Descends, Sorting.DistinctBy;
    LoadOfDistinct(nested, a.entries, depth, config);
    LoadPrefix(nested, n + 1, depth, config);
    NextLoad(nested, n, depth, config);
    assert Load(a, depth, config) == Plus(Cost(|a.entries|, SizeOf(a.entries)), LoadInside(a.entries, depth, config));
    assert LoadAt(nested[n], depth, config) == Load(nested[n].inside, depth + 1, config);
    hide Load, LoadAt;
  }

  /** What a walk has listed. */
  datatype Progress = Progress(
    candidates: seq<Candidate>, parts: seq<seq<string>>, failures: seq<Failure>, failed: seq<seq<string>>,
    visits: seq<Visit>)

  /** Nothing listed lies behind these names. */
  ghost predicate NothingBehind(a: Progress, ancestry: seq<string>) {
    && (forall i | 0 <= i < |a.parts| :: !(ancestry <= a.parts[i]))
    && (forall i | 0 <= i < |a.failed| :: !(ancestry <= a.failed[i]))
  }

  ghost predicate Longer(a: Progress, b: Progress) {
    && a.candidates <= b.candidates && a.parts <= b.parts && a.failures <= b.failures && a.failed <= b.failed
    && a.visits <= b.visits
  }

  /** More is listed than before, and all of it behind `ancestry`. */
  ghost predicate Extends(a: Progress, b: Progress, ancestry: seq<string>) {
    && Longer(a, b)
    && (forall i | |a.parts| <= i < |b.parts| :: ancestry <= b.parts[i])
    && (forall i | |a.failed| <= i < |b.failed| :: ancestry <= b.failed[i])
  }

  /** The same, and the next name is one of these. */
  ghost predicate Spread(a: Progress, b: Progress, ancestry: seq<string>, names: set<string>) {
    && Longer(a, b)
    && (forall i | |a.parts| <= i < |b.parts| :: ancestry < b.parts[i] && b.parts[i][|ancestry|] in names)
    && (forall i | |a.failed| <= i < |b.failed| :: ancestry < b.failed[i] && b.failed[i][|ancestry|] in names)
  }

  lemma SpreadExtends(a: Progress, b: Progress, ancestry: seq<string>, names: set<string>)
    requires Spread(a, b, ancestry, names)
    ensures Extends(a, b, ancestry)
  {}

  lemma SpreadMisses(a: Progress, b: Progress, ancestry: seq<string>, names: set<string>, name: string)
    requires NothingBehind(a, ancestry) && Spread(a, b, ancestry, names) && name !in names
    ensures NothingBehind(b, ancestry + [name])
  {
    var child := ancestry + [name];
    assert child[|ancestry|] == name && ancestry == child[..|ancestry|];
    forall i | 0 <= i < |b.parts| ensures !(child <= b.parts[i]) {
      if i < |a.parts| { PrefixOnward(a.parts[i], child, ancestry); }
    }
    forall i | 0 <= i < |b.failed| ensures !(child <= b.failed[i]) {
      if i < |a.failed| { PrefixOnward(a.failed[i], child, ancestry); }
    }
  }

  lemma PrefixOnward(s: seq<string>, child: seq<string>, ancestry: seq<string>)
    requires ancestry <= child
    ensures child <= s ==> ancestry <= s
  {}

  lemma SpreadGrows(a: Progress, b: Progress, c: Progress, ancestry: seq<string>, names: set<string>, name: string)
    requires Spread(a, b, ancestry, names) && Extends(b, c, ancestry + [name])
    ensures Spread(a, c, ancestry, names + {name})
  {
    var child := ancestry + [name];
    assert child[|ancestry|] == name && ancestry < child;
    forall i | |a.parts| <= i < |c.parts| ensures ancestry < c.parts[i] && c.parts[i][|ancestry|] in names + {name} {
      if i < |b.parts| { assert c.parts[i] == b.parts[i]; } else { PrefixOnward(c.parts[i], child, ancestry); }
    }
    forall i | |a.failed| <= i < |c.failed| ensures ancestry < c.failed[i] && c.failed[i][|ancestry|] in names + {name} {
      if i < |b.failed| { assert c.failed[i] == b.failed[i]; } else { PrefixOnward(c.failed[i], child, ancestry); }
    }
  }

  // ---------------------------------------------------------------- completeness

  /** Every class picked in a visited archive is listed. */
  ghost predicate CoveredBy(v: Visit, a: Progress, config: Config) {
    |a.candidates| == |a.parts| &&
    forall p | Picked(v.entries, config.targetRelease, p) ::
      exists i | 0 <= i < |a.parts| :: MadeFrom(a.candidates[i], a.parts[i], v.ancestry, p)
  }

  /** A nested archive was visited, or its failure is recorded. */
  ghost predicate Accounted(e: Entry, names: seq<string>, a: Progress, config: Config) {
    || (exists w | w in a.visits :: w.ancestry == names && e.inside == Archive(w.entries))
    || (|a.failures| == |a.failed| &&
        exists i | 0 <= i < |a.failed| :: a.failed[i] == names && Reason(a.failures[i], e, names, config))
  }

  ghost predicate AllAccounted(v: Visit, a: Progress, config: Config) {
    forall e | e in v.entries && NestedArchive(e.name) && !HasSuffix(e.name, "/") ::
      Accounted(e, v.ancestry + [e.name], a, config)
  }

  lemma ExtendsLonger(a: Progress, b: Progress, ancestry: seq<string>)
    requires Extends(a, b, ancestry)
    ensures Longer(a, b) && a.visits <= b.visits
  {}

  lemma CoveredStays(v: Visit, a: Progress, b: Progress, config: Config)
    requires CoveredBy(v, a, config) && Longer(a, b) && |b.candidates| == |b.parts|
    ensures CoveredBy(v, b, config)
  {
    hide Picked, MadeFrom;
    forall p | Picked(v.entries, config.targetRelease, p)
      ensures exists i | 0 <= i < |b.parts| :: MadeFrom(b.candidates[i], b.parts[i], v.ancestry, p)
    {
      var i :| 0 <= i < |a.parts| && MadeFrom(a.candidates[i], a.parts[i], v.ancestry, p);
      assert b.parts[i] == a.parts[i] && b.candidates[i] == a.candidates[i];
    }
  }

  lemma AccountedStays(e: Entry, names: seq<string>, a: Progress, b: Progress, config: Config)
    requires Accounted(e, names, a, config) && Longer(a, b) && |b.failures| == |b.failed|
    ensures Accounted(e, names, b, config)
  {
    hide Reason;
    if w :| w in a.visits && w.ancestry == names && e.inside == Archive(w.entries) {
      assert w in b.visits;
    } else {
      var i :| 0 <= i < |a.failed| && a.failed[i] == names && Reason(a.failures[i], e, names, config);
      assert b.failed[i] == a.failed[i] && b.failures[i] == a.failures[i];
    }
  }

  ghost predicate FirstAccounted(nested: seq<Entry>, n: nat, ancestry: seq<string>, a: Progress, config: Config)
    requires n <= |nested|
  {
    forall j | 0 <= j < n :: Accounted(nested[j], ancestry + [nested[j].name], a, config)
  }

  /** One more nested archive of visit `v` has been dealt with. */
  lemma NestedStep(
    start: Progress, before: Progress, now: Progress, v: Visit, selected: seq<Pick>, nested: seq<Entry>, n: nat,
    config: Config)
    requires n < |nested| && start.visits + [v] <= before.visits
    requires |now.candidates| == |now.parts| && |now.failures| == |now.failed|
    requires Spread(start, before, v.ancestry, PathsOf(selected) + NamesOf(nested[..n]))
    requires Extends(before, now, v.ancestry + [nested[n].name])
    requires CoveredBy(v, before, config) && Complete(before, |start.visits| + 1, config)
    requires Complete(now, |before.visits|, config) && FirstAccounted(nested, n, v.ancestry, before, config)
    requires Accounted(nested[n], v.ancestry + [nested[n].name], now, config)
    ensures Spread(start, now, v.ancestry, PathsOf(selected) + NamesOf(nested[..n + 1]))
    ensures start.visits + [v] <= now.visits && CoveredBy(v, now, config)
    ensures Complete(now, |start.visits| + 1, config) && FirstAccounted(nested, n + 1, v.ancestry, now, config)
  {
    hide Spread, Extends, CoveredBy, Complete, Accounted, PathsOf, NamesOf;
    ExtendsLonger(before, now, v.ancestry + [nested[n].name]);
    SpreadGrows(start, before, now, v.ancestry, PathsOf(selected) + NamesOf(nested[..n]), nested[n].name);
    OneMoreNested(selected, nested, n);
    CoveredStays(v, before, now, config);
    CompleteStays(before, now, |start.visits| + 1, config);
    forall j | 0 <= j < n ensures Accounted(nested[j], v.ancestry + [nested[j].name], now, config) {
      AccountedStays(nested[j], v.ancestry + [nested[j].name], before, now, config);
    }
  }

  /** All that the archives visited from `from` on hold is listed, visited or a failure. */
  ghost predicate Complete(a: Progress, from: nat, config: Config) {
    forall k | from <= k < |a.visits| :: CoveredBy(a.visits[k], a, config) && AllAccounted(a.visits[k], a, config)
  }

  /** What was complete stays so while more is listed. */
  lemma CompleteStays(a: Progress, b: Progress, from: nat, config: Config)
    requires Complete(a, from, config) && Complete(b, |a.visits|, config) && Longer(a, b)
    requires |b.candidates| == |b.parts| && |b.failures| == |b.failed|
    ensures Complete(b, from, config)
  {
    hide CoveredBy, Accounted, NestedArchive, HasSuffix;
    forall k | from <= k < |b.visits| ensures CoveredBy(b.visits[k], b, config) && AllAccounted(b.visits[k], b, config) {
      if k < |a.visits| {
        var v := b.visits[k];
        assert v == a.visits[k];
        CoveredStays(v, a, b, config);
        forall e | e in v.entries && NestedArchive(e.name) && !HasSuffix(e.name, "/")
          ensures Accounted(e, v.ancestry + [e.name], b, config)
        {
          AccountedStays(e, v.ancestry + [e.name], a, b, config);
        }
      }
    }
  }

  lemma CompleteAt(a: Progress, from: nat, v: Visit, nested: seq<Entry>, config: Config)
    requires from < |a.visits| && a.visits[from] == v && Complete(a, from + 1, config) && CoveredBy(v, a, config)
    requires forall e | e in v.entries && NestedArchive(e.name) && !HasSuffix(e.name, "/") :: e in nested
    requires FirstAccounted(nested, |nested|, v.ancestry, a, config)
    ensures Complete(a, from, config)
  {
    hide CoveredBy, Accounted, NestedArchive, HasSuffix;
    assert AllAccounted(v, a, config);
  }

  lemma WasVisited(e: Entry, child: seq<string>, a: Progress, from: nat, config: Config)
    requires e.inside.Archive? && from < |a.visits| && a.visits[from] == Visit(child, e.inside.entries)
    ensures Accounted(e, child, a, config)
  {
    assert a.visits[from] in a.visits;
  }

  lemma NotYetFailed(a: Progress, child: seq<string>)
    requires NothingBehind(a, child)
    ensures child !in a.failed
  {}

  lemma SameLength(fs: seq<Failure>, failed: seq<seq<string>>, config: Config)
    requires FailuresOk(fs, failed, config)
    ensures |fs| == |failed|
  {}

  lemma NothingBehindParts(a: Progress, ancestry: seq<string>)
    requires NothingBehind(a, ancestry)
    ensures forall i | 0 <= i < |a.parts| :: !(ancestry <= a.parts[i])
  {}

  ghost function PathsOf(picks: seq<Pick>): set<string> { set p | p in picks :: p.path }

  ghost function NamesOf(es: seq<Entry>): set<string> { set e | e in es :: e.name }

  lemma NoNames(nested: seq<Entry>)
    ensures NamesOf(nested[..0]) == {}
  {}

  lemma OneMoreNested(selected: seq<Pick>, nested: seq<Entry>, n: nat)
    requires n < |nested|
    ensures PathsOf(selected) + NamesOf(nested[..n]) + {nested[n].name} == PathsOf(selected) + NamesOf(nested[..n + 1])
  {
    assert nested[..n + 1] == nested[..n] + [nested[n]];
  }

  /** No class path and no earlier archive has the name of this one. */
  lemma FreshName(selected: seq<Pick>, nested: seq<Entry>, n: nat, es: seq<Entry>, target: nat)
    requires n < |nested| && Sorting.DistinctBy(nested, ByName) && NestedArchive(nested[n].name)
    requires forall p | p in selected :: Picked(es, target, p)
    ensures nested[n].name !in PathsOf(selected) + NamesOf(nested[..n])
  {
    hide NestedArchive, HasSuffix;
    forall p | p in selected ensures p.path != nested[n].name {
      PickIsClass(es, target, p);
      ClassIsNoArchive(p.path);
    }
    forall e | e in nested[..n] ensures e.name != nested[n].name {
      var j :| 0 <= j < n && nested[j] == e;
      assert ByName(nested[j]) != ByName(nested[n]);
    }
  }

  lemma PickIsClass(es: seq<Entry>, target: nat, p: Pick)
    requires Picked(es, target, p)
    ensures HasSuffix(p.path, ".class")
  {
    hide Offer, HasSuffix, MultiRelease;
    var i :| 0 <= i < |es| && Chosen(es, i, MultiRelease(es), target) && p.entry == es[i] &&
             Offer(es[i], MultiRelease(es), target) == Some((p.release, p.path));
    OfferIsClass(es[i], MultiRelease(es), target);
  }

  /** The picks of an archive are all listed, each behind a path of its own. */
  lemma AfterPicks(a: Progress, b: Progress, v: Visit, selected: seq<Pick>, config: Config)
    requires |a.candidates| == |a.parts| && a.candidates <= b.candidates && a.parts <= b.parts
    requires a.failures == b.failures && a.failed == b.failed && b.visits == a.visits + [v]
    requires Listing(b.candidates, b.parts, |a.candidates|, v.ancestry, selected)
    requires forall p :: p in selected <==> Picked(v.entries, config.targetRelease, p)
    ensures Spread(a, b, v.ancestry, PathsOf(selected))
    ensures CoveredBy(v, b, config) && Complete(b, |a.visits| + 1, config)
  {
    hide Picked, JoinPath, Prefixed, AllAccounted;
    var from := |a.candidates|;
    forall i | from <= i < |b.parts|
      ensures v.ancestry < b.parts[i] && b.parts[i][|v.ancestry|] in PathsOf(selected)
    {
      var p := selected[i - from];
      assert MadeFrom(b.candidates[from + (i - from)], b.parts[from + (i - from)], v.ancestry, p);
      assert p in selected;
    }
    forall p | Picked(v.entries, config.targetRelease, p)
      ensures exists i | 0 <= i < |b.parts| :: MadeFrom(b.candidates[i], b.parts[i], v.ancestry, p)
    {
      var k :| 0 <= k < |selected| && selected[k] == p;
      assert MadeFrom(b.candidates[from + k], b.parts[from + k], v.ancestry, p);
    }
  }

  /** The candidates from `from` on are the picks, in their order. */
  ghost predicate Listing(
    cs: seq<Candidate>, parts: seq<seq<string>>, from: nat, ancestry: seq<string>, picks: seq<Pick>)
  {
    && |cs| == |parts| == from + |picks|
    && forall i | 0 <= i < |picks| :: MadeFrom(cs[from + i], parts[from + i], ancestry, picks[i])
  }

  lemma NothingListed(
    cs: seq<Candidate>, parts: seq<seq<string>>, ancestry: seq<string>, picks: seq<Pick>, visits: seq<Visit>, config: Config)
    requires CandidatesOk(cs, parts, visits, config)
    ensures |cs| == |parts| && Listing(cs, parts, |cs|, ancestry, picks[..0])
  {}

  lemma ListingNames(
    cs: seq<Candidate>, parts: seq<seq<string>>, from: nat, ancestry: seq<string>, picks: seq<Pick>, n: nat)
    requires n <= |picks| && Listing(cs, parts, from, ancestry, picks[..n])
    ensures |cs| == |parts| == from + n
    ensures forall i | 0 <= i < n :: parts[from + i] == ancestry + [picks[i].path]
  {
    forall i | 0 <= i < n ensures parts[from + i] == ancestry + [picks[i].path] {
      assert MadeFrom(cs[from + i], parts[from + i], ancestry, picks[..n][i]);
    }
  }

  lemma IsCandidate(
    c: Candidate, names: seq<string>, v: Visit, p: Pick, visits: seq<Visit>, config: Config)
    requires v in visits && |names| <= config.maxDepth && Picked(v.entries, config.targetRelease, p)
    requires MadeFrom(c, names, v.ancestry, p)
    ensures CandidateOk(c, names, visits, config)
  {
    hide MadeFrom, Picked;
    assert Stems(c, names, v, config.targetRelease);
  }

  lemma ListingGrows(
    cs: seq<Candidate>, parts: seq<seq<string>>, from: nat, ancestry: seq<string>, picks: seq<Pick>, n: nat,
    c: Candidate, names: seq<string>)
    requires n < |picks| && Listing(cs, parts, from, ancestry, picks[..n]) && MadeFrom(c, names, ancestry, picks[n])
    ensures Listing(cs + [c], parts + [names], from, ancestry, picks[..n + 1])
  {
    hide MadeFrom;
    var next := picks[..n + 1];
    forall i | 0 <= i < n + 1 ensures MadeFrom((cs + [c])[from + i], (parts + [names])[from + i], ancestry, next[i]) {
      if i < n {
        assert MadeFrom(cs[from + i], parts[from + i], ancestry, picks[..n][i]);
      }
    }
  }

  /** The next pick has an identity that no one has. */
  lemma NewIdentity(
    before: seq<seq<string>>, parts: seq<seq<string>>, ancestry: seq<string>, picks: seq<Pick>, n: nat)
    requires n < |picks| && Sorting.DistinctBy(picks, ByPath) && before <= parts && |parts| == |before| + n
    requires forall i | 0 <= i < |before| :: !(ancestry <= before[i])
    requires forall i | 0 <= i < n :: parts[|before| + i] == ancestry + [picks[i].path]
    ensures ancestry + [picks[n].path] !in parts
  {
    var names := ancestry + [picks[n].path];
    assert ancestry <= names;
    forall i | 0 <= i < |parts| ensures parts[i] != names {
      if i < |before| {
        assert parts[i] == before[i];
      } else {
        var k := i - |before|;
        assert ByPath(picks[k]) != ByPath(picks[n]);
        assert parts[|before| + k] == ancestry + [picks[k].path];
        assert names[|ancestry|] == picks[n].path && (ancestry + [picks[k].path])[|ancestry|] == picks[k].path;
      }
    }
  }

  /** The manifest, if there is one, is small and can be read; it says whether versioned
      entries count. */
  method ReadManifest(byName: map<string, Entry>, es: seq<Entry>) returns (outcome: Outcome, multi: bool)
    requires IndexedByName(byName, es) && WellNamed(es)
    ensures outcome == LimitReached ==> LargeManifest(es)
    ensures outcome == Unsafe ==> Unreadable(es)
    ensures outcome == Fine ==> !LargeManifest(es) && !Unreadable(es) && multi == MultiRelease(es)
  {
    hide IndexedByName, MultiRelease, TrimSlash, Acceptable;
    ManifestFound(byName, es);
    ManifestOnly(byName, es);
    multi := false;
    if MANIFEST in byName {
      var manifest := byName[MANIFEST];
      if manifest.uncompressed > MAX_MANIFEST_BYTES { return LimitReached, multi; }
      if manifest.payload.None? { return Unsafe, multi; }
      multi := manifest.multiRelease;
    }
    return Fine, multi;
  }

  /** The chosen classes by path, the nested archives by name. */
  method Choose(es: seq<Entry>, multi: bool, config: Config)
    returns (ok: bool, selected: seq<Pick>, nested: seq<Entry>)
    requires WellNamed(es) && multi == MultiRelease(es)
    ensures ok <==> !LargeClass(es, multi, config)
    ensures ok ==> Sorting.DistinctBy(selected, ByPath) && Sorting.DistinctBy(nested, ByName)
    ensures ok ==> forall p :: p in selected <==> Picked(es, config.targetRelease, p)
    ensures ok ==> forall e :: e in nested <==> e in es && NestedArchive(e.name) && !HasSuffix(e.name, "/")
  {
    hide Picked, NestedArchive, HasSuffix, Selection, MultiRelease, LargeClass, Sorting.DistinctBy, Acceptable, Names;
    var picks;
    ghost var at;
    ok, picks, nested, at := Select(es, multi, config);
    selected := [];
    if !ok { return; }
    selected := SortPicks(es, multi, config.targetRelease, picks, at);
    NestedAreIn(es);
    Sorting.SortSorts(nested, ByName);
    Sorting.StillDistinct(nested, Sorting.Sort(nested, ByName), ByName);
    Sorting.SameElements(nested, Sorting.Sort(nested, ByName));
    nested := Sorting.Sort(nested, ByName);
  }

  /** The failure recorded for the nested archive behind these names. */
  predicate FailureAt(f: Failure, parts: seq<string>) {
    && parts != [] && NestedArchive(parts[|parts| - 1])
    && f.identity == Prefixed(parts) && JoinPath(parts) == Some(f.entryPath)
    && f.code in [DEPTH_CODE, READ_CODE, INVALID_CODE]
  }

  lemma ManifestOnly(byName: map<string, Entry>, es: seq<Entry>)
    requires IndexedByName(byName, es) && BytecodeContract.NoRepeats(Names(es))
    ensures forall i | 0 <= i < |es| && TrimSlash(es[i].name) == MANIFEST :: MANIFEST in byName && byName[MANIFEST] == es[i]
  {
    hide TrimSlash;
    forall j | 0 <= j < |es| && TrimSlash(es[j].name) == MANIFEST ensures MANIFEST in byName && byName[MANIFEST] == es[j] {
      assert Names(es)[j] in Names(es);
      var i :| 0 <= i < |es| && byName[MANIFEST] == es[i];
      assert Names(es)[i] == Names(es)[j];
    }
  }

  /** The picks in the order of their paths. */
  method SortPicks(es: seq<Entry>, multi: bool, target: nat, picks: map<string, Pick>, ghost at: map<string, nat>)
    returns (selected: seq<Pick>)
    requires Selection(es, |es|, multi, target, picks, at) && multi == MultiRelease(es)
    ensures Sorting.DistinctBy(selected, ByPath)
    ensures forall p :: p in selected <==> Picked(es, target, p)
  {
    hide Best, Offer, MultiRelease;
    var list := Listed(picks);
    selected := Sorting.Sort(list, ByPath);
    Sorting.StillDistinct(list, selected, ByPath);
    Sorting.SameElements(list, selected);
    forall p ensures p in selected <==> Picked(es, target, p) {
      SelectionIsPicked(es, target, picks, at, p);
    }
  }

  // ---------------------------------------------------------------- the enumerations

  function ByIdentity(c: Candidate): seq<string> { [c.identity] }
  function ByFailure(f: Failure): seq<string> { [f.identity] }

  /** No two of the listed things have one identity. */
  ghost predicate AllApart(cs: seq<Candidate>, fs: seq<Failure>) {
    && Sorting.DistinctBy(cs, ByIdentity) && Sorting.DistinctBy(fs, ByFailure)
    && forall c, f | c in cs && f in fs :: c.identity != f.identity
  }

  lemma CandidateIdentity(c: Candidate, parts: seq<string>, visits: seq<Visit>, config: Config)
    requires CandidateOk(c, parts, visits, config)
    ensures c.identity == Prefixed(parts) && parts != [] && HasSuffix(parts[|parts| - 1], ".class")
  {
    hide Picked, HasSuffix;
    var v :| v in visits && Stems(c, parts, v, config.targetRelease);
    var p :| Picked(v.entries, config.targetRelease, p) && MadeFrom(c, parts, v.ancestry, p);
    PickIsClass(v.entries, config.targetRelease, p);
  }

  /** The encoding of the names tells all candidates and failures of a walk apart. */
  lemma IdentitiesApart(a: Progress, config: Config)
    requires CandidatesOk(a.candidates, a.parts, a.visits, config) && FailuresOk(a.failures, a.failed, config)
    ensures AllApart(a.candidates, a.failures)
  {
    hide CandidateOk, FailureAt, Prefixed;
    forall i, j | 0 <= i < j < |a.candidates| ensures ByIdentity(a.candidates[i]) != ByIdentity(a.candidates[j]) {
      CandidateIdentity(a.candidates[i], a.parts[i], a.visits, config);
      CandidateIdentity(a.candidates[j], a.parts[j], a.visits, config);
      if a.candidates[i].identity == a.candidates[j].identity { PrefixedInjective(a.parts[i], a.parts[j]); }
    }
    forall i, j | 0 <= i < j < |a.failures| ensures ByFailure(a.failures[i]) != ByFailure(a.failures[j]) {
      FailureIdentity(a.failures[i], a.failed[i]);
      FailureIdentity(a.failures[j], a.failed[j]);
      if a.failures[i].identity == a.failures[j].identity { PrefixedInjective(a.failed[i], a.failed[j]); }
    }
    forall c, f | c in a.candidates && f in a.failures ensures c.identity != f.identity {
      var i :| 0 <= i < |a.candidates| && a.candidates[i] == c;
      var j :| 0 <= j < |a.failures| && a.failures[j] == f;
      CandidateIdentity(c, a.parts[i], a.visits, config);
      FailureIdentity(f, a.failed[j]);
      ClassIsNoArchive(a.parts[i][|a.parts[i]| - 1]);
      if c.identity == f.identity { PrefixedInjective(a.parts[i], a.failed[j]); }
    }
  }

  lemma FailureIdentity(f: Failure, names: seq<string>)
    requires FailureAt(f, names)
    ensures f.identity == Prefixed(names) && names != [] && NestedArchive(names[|names| - 1])
    ensures f.code in [DEPTH_CODE, READ_CODE, INVALID_CODE]
  {}

  lemma {:induction false} SortedApart(cs: seq<Candidate>, ds: seq<Candidate>, fs: seq<Failure>, gs: seq<Failure>)
    requires AllApart(cs, fs) && multiset(cs) == multiset(ds) && multiset(fs) == multiset(gs)
    ensures AllApart(ds, gs)
  {
    hide Sorting.DistinctBy;
    Sorting.StillDistinct(cs, ds, ByIdentity);
    Sorting.StillDistinct(fs, gs, ByFailure);
    Sorting.SameElements(cs, ds);
    Sorting.SameElements(fs, gs);
  }

  /** What a nested enumeration promises: the visited archives fit the one budget, all they
      hold is listed, visited or a failure, and nothing else is listed. */
  ghost predicate Enumerated(a: Progress, config: Config, rootSize: uint64, root: seq<Entry>) {
    && CandidatesOk(a.candidates, a.parts, a.visits, config) && FailuresOk(a.failures, a.failed, config)
    && VisitsOk(a.visits, config) && ReasonsOk(a.failures, a.failed, a.visits, config)
    && a.visits != [] && a.visits[0] == Visit([], root) && Complete(a, 0, config)
    && TotalEntries(a.visits) <= config.maxEntries
    && TotalSize(a.visits) <= config.maxExpandedBytes as int
    && TotalSize(a.visits) <= rootSize as int * config.maxRatio as int
  }

  /** enumerateNestedJVMArchives */
  method EnumerateNested(archive: Archive, config: Config, rootSize: uint64)
    returns (outcome: Outcome, candidates: seq<Candidate>, failures: seq<Failure>, ghost found: Progress)
    requires Configured(config)
    ensures outcome == Unsafe ==> Condemned(archive)
    ensures outcome == LimitReached ==> TooMuch(archive, [], 1, config, rootSize, Cost(0, 0))
    ensures outcome == Fine ==> archive.Archive? && Enumerated(found, config, rootSize, archive.entries)
    ensures outcome == Fine ==>
      multiset(candidates) == multiset(found.candidates) && multiset(failures) == multiset(found.failures)
    ensures outcome == Fine ==> AllApart(candidates, failures)
  {
    hide CandidatesOk, FailuresOk, VisitsOk, ReasonsOk, Complete, Extends, Condemned, TotalEntries, TotalSize, AllApart;
    var walker := new Walker(config, rootSize);
    found := walker.Listed();
    candidates, failures := [], [];
    outcome := walker.Walk(archive, 1, []);
    found := walker.Listed();
    if outcome != Fine { return; }
    IdentitiesApart(found, config);
    candidates := Sorting.Sort(walker.candidates, ByIdentity);
    failures := Sorting.Sort(walker.failures, ByFailure);
    SortedApart(found.candidates, candidates, found.failures, failures);
  }

  /** enumerateJVMArchive: the classes of one archive alone, under their own paths. */
  method EnumerateOne(archive: Archive, config: Config, rootSize: uint64)
    returns (outcome: Outcome, candidates: seq<Candidate>)
    requires Configured(config)
    ensures outcome == Unsafe ==> Condemned(archive)
    ensures outcome == LimitReached ==> OverLimit(archive, config, rootSize, 0, 0)
    ensures outcome == Fine ==> archive.Archive? && !Condemned(archive)
    ensures outcome == Fine ==> !TooLarge(archive.entries, config, rootSize, 0, 0)
    ensures outcome == Fine ==> forall c :: c in candidates <==>
      exists p :: Picked(archive.entries, config.targetRelease, p) && OwnCandidate(c, p)
    ensures outcome == Fine ==> AllApart(candidates, [])
  {
    hide Configured, Condemned, TooLarge, OverLimit, Picked, Sorting.DistinctBy, OwnCandidate, AllApart;
    candidates := [];
    var walker := new Walker(config, rootSize);
    var selected, nested;
    outcome, selected, nested := walker.Inspect(archive);
    if outcome != Fine { return; }
    candidates := ListOwn(selected);
    OwnIdentitiesApart(candidates, selected);
    OwnCandidates(candidates, selected, archive.entries, config.targetRelease);
  }

  method ListOwn(selected: seq<Pick>) returns (candidates: seq<Candidate>)
    ensures |candidates| == |selected| && forall i | 0 <= i < |selected| :: OwnCandidate(candidates[i], selected[i])
  {
    candidates := [];
    var n := 0;
    while n < |selected|
      invariant 0 <= n <= |selected| && |candidates| == n
      invariant forall i | 0 <= i < n :: OwnCandidate(candidates[i], selected[i])
    {
      var p := selected[n];
      candidates := candidates + [Candidate(p.entry.name, p.path, Prefixed([p.path]), p.release, p.entry.payload)];
      n := n + 1;
    }
  }

  predicate OwnCandidate(c: Candidate, p: Pick) {
    c == Candidate(p.entry.name, p.path, Prefixed([p.path]), p.release, p.entry.payload)
  }

  lemma OwnCandidates(cs: seq<Candidate>, picks: seq<Pick>, es: seq<Entry>, target: nat)
    requires |cs| == |picks| && forall i | 0 <= i < |cs| :: OwnCandidate(cs[i], picks[i])
    requires forall p :: p in picks <==> Picked(es, target, p)
    ensures forall c :: c in cs <==> exists p :: Picked(es, target, p) && OwnCandidate(c, p)
  {
    hide Picked;
    forall c ensures c in cs <==> exists p :: Picked(es, target, p) && OwnCandidate(c, p) {
      if c in cs {
        var i :| 0 <= i < |cs| && cs[i] == c;
        assert picks[i] in picks;
      }
      if p :| Picked(es, target, p) && OwnCandidate(c, p) {
        var i :| 0 <= i < |picks| && picks[i] == p;
        assert cs[i] == c;
      }
    }
  }

  lemma OwnIdentitiesApart(cs: seq<Candidate>, picks: seq<Pick>)
    requires |cs| == |picks| && Sorting.DistinctBy(picks, ByPath)
    requires forall i | 0 <= i < |cs| :: OwnCandidate(cs[i], picks[i])
    ensures AllApart(cs, [])
  {
    hide Prefixed;
    forall i, j | 0 <= i < j < |cs| ensures ByIdentity(cs[i]) != ByIdentity(cs[j]) {
      assert ByPath(picks[i]) != ByPath(picks[j]);
      if cs[i].identity == cs[j].identity {
        PrefixedInjective([picks[i].path], [picks[j].path]);
      }
    }
  }
}
