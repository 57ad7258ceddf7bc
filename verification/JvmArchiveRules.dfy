/** Which entries of an archive are taken, on their names alone: the names that are accepted, the
    archives to descend into, and the class that is chosen for a path among those for several
    releases. Nothing here uses the functions that the walk is proved against; that they agree
    is proved below. */
module JvmArchiveRules {
  import opened Counting
  import opened Words
  import opened JvmDescriptors
  import opened Texts
  import opened PathNames
  import opened JvmArchiveEntries
  import opened JvmArchiveWalk

  // ---------------------------------------------------------------- beginnings and ends

  ghost predicate Begins(s: string, a: string) { exists b :: s == a + b }

  ghost predicate Ends(s: string, b: string) { exists a :: s == a + b }

  lemma BeginsIff(s: string, a: string)
    ensures Begins(s, a) <==> HasPrefix(s, a)
  {
    if HasPrefix(s, a) { assert s == a + s[|a|..]; }
  }

  lemma EndsIff(s: string, b: string)
    ensures Ends(s, b) <==> HasSuffix(s, b)
  {
    if HasSuffix(s, b) { assert s == s[..|s| - |b|] + b; }
  }

  // ---------------------------------------------------------------- names

  /** A name of ordinary components, with a slash behind it for a directory. */
  ghost predicate NameAllowed(name: string) {
    && OrdinaryName(name) && Length(name) <= 8192 && '\0' !in name && '\\' !in name && !Drive(name)
  }

  ghost predicate OrdinaryName(name: string) {
    OrdinaryPath(name) || exists front :: OrdinaryPath(front) && name == front + "/"
  }

  ghost predicate EntryAllowed(e: Entry) {
    && NameAllowed(e.name) && !e.encrypted
    && (Ends(e.name, "/") ==> e.directory && e.uncompressed == 0)
    && (!Ends(e.name, "/") ==> !e.directory && !e.special)
  }

  lemma {:induction false} OrdinaryEnd(ps: seq<string>)
    requires Ordinary(ps)
    ensures Slashed(ps) != "" && Slashed(ps)[0] != '/' && Slashed(ps)[|Slashed(ps)| - 1] != '/'
  {
    var last := ps[|ps| - 1];
    assert last != "" && last[|last| - 1] in last && last[0] in last;
    if |ps| > 1 { OrdinaryEnd(ps[..|ps| - 1]); }
  }

  lemma OrdinaryPathEnd(s: string)
    requires OrdinaryPath(s)
    ensures s != "" && s[0] != '/' && !HasSuffix(s, "/")
  {
    hide Slashed;
    var ps :| Ordinary(ps) && s == Slashed(ps);
    OrdinaryEnd(ps);
  }

  lemma Trimmed(name: string)
    ensures OrdinaryPath(TrimSlash(name)) <==> OrdinaryName(name)
  {
    hide OrdinaryPath;
    var c := TrimSlash(name);
    if OrdinaryPath(c) && HasSuffix(name, "/") { assert name == c + "/"; }
    if OrdinaryPath(name) { OrdinaryPathEnd(name); }
    forall front | OrdinaryPath(front) && name == front + "/" ensures c == front {
      assert name[|name| - 1..] == "/";
    }
  }

  lemma DriveTrimmed(name: string)
    requires OrdinaryPath(TrimSlash(name))
    ensures Drive(name) <==> var c := TrimSlash(name); |c| >= 2 && c[1] == ':' && Letter(c[0])
  {
    OrdinaryPathEnd(TrimSlash(name));
    if HasSuffix(name, "/") { assert name[|name| - 1] == name[|name| - 1..][0] == '/'; }
  }

  /** validateJVMZIPEntry lets through exactly these entries. */
  lemma EntryAllowedIff(e: Entry)
    ensures Acceptable(e) <==> EntryAllowed(e)
  {
    hide Parts, OrdinaryPath, OrdinaryName, Length, Ends;
    var c := TrimSlash(e.name);
    OrdinaryIff(c);
    Trimmed(e.name);
    EndsIff(e.name, "/");
    if OrdinaryPath(c) {
      OrdinaryPathEnd(c);
      DriveTrimmed(e.name);
      assert e.name[0] == c[0];
    }
  }

  /** `.jar`, `.war` or `.ear` in letters of either case. */
  predicate ArchiveName(name: string) {
    var n := |name|;
    && n >= 4 && name[n - 4] == '.' && (name[n - 2] == 'a' || name[n - 2] == 'A') && (name[n - 1] == 'r' || name[n - 1] == 'R')
    && var c := name[n - 3]; c == 'j' || c == 'J' || c == 'w' || c == 'W' || c == 'e' || c == 'E'
  }

  lemma ArchiveNameIff(name: string)
    ensures NestedArchive(name) <==> ArchiveName(name)
  {
    if |name| >= 4 {
      var x := name[|name| - 4..];
      var y := Lowered(x);
      assert y == [y[0], y[1], y[2], y[3]];
      assert x[0] == name[|name| - 4] && x[1] == name[|name| - 3] && x[2] == name[|name| - 2] && x[3] == name[|name| - 1];
    }
  }

  // ---------------------------------------------------------------- releases

  /** The manifest asks for versioned classes. */
  predicate AsksForVersions(es: seq<Entry>) {
    exists i | 0 <= i < |es| ::
      (es[i].name == "META-INF/MANIFEST.MF" || es[i].name == "META-INF/MANIFEST.MF/") && es[i].multiRelease
  }

  /** The digits of release `r`, or a plus sign, any number of zeros, and the digits. */
  ghost predicate Spells(text: string, r: nat) {
    text == Decimal(r) || exists zeros: string :: (forall c | c in zeros :: c == '0') && text == "+" + zeros + Decimal(r)
  }

  ghost predicate VersionedName(name: string, r: nat, path: string) {
    exists text :: name == "META-INF/versions/" + text + "/" + path && Spells(text, r)
  }

  /** An entry counts for a path with release 0 under its own name, and with a release from 9 up
      to the target if the archive has versions and the name is one for that release. */
  ghost predicate CountsFor(es: seq<Entry>, target: nat, name: string, path: string, r: nat) {
    if r == 0 then name == path && Ends(path, ".class") && !Begins(path, "META-INF/versions/")
    else
      && AsksForVersions(es) && 9 <= r <= 999 && r <= target
      && Ends(path, ".class") && Clean(path) == path && VersionedName(name, r, path)
  }

  /** Entry `i` is the first of those with the highest release. */
  ghost predicate FirstOfHighest(es: seq<Entry>, target: nat, i: nat, path: string, r: nat)
    requires i < |es|
  {
    && CountsFor(es, target, es[i].name, path, r)
    && forall j: nat, q: nat | j < |es| && CountsFor(es, target, es[j].name, path, q) :: q < r || (q == r && i <= j)
  }

  lemma SpellsIff(text: string, r: nat)
    ensures Spells(text, r) <==> ReleaseText(text, r)
  {
    hide Decimal;
    if text != "" && text[0] == '+' && ZerosThen(text[1..], r) {
      var k := |text[1..]| - |Decimal(r)|;
      assert text == "+" + Zeros(k) + Decimal(r);
      assert forall c | c in Zeros(k) :: c == '0';
    }
    forall zeros: string | (forall c | c in zeros :: c == '0') && text == "+" + zeros + Decimal(r) ensures ReleaseText(text, r) {
      assert forall i | 0 <= i < |zeros| :: zeros[i] in zeros;
      assert zeros == Zeros(|zeros|);
      assert text[1..] == zeros + Decimal(r);
    }
  }

  lemma VersionedNameIff(name: string, r: nat, path: string)
    ensures VersionedName(name, r, path) <==>
            exists text :: name == VERSIONS + (text + "/" + path) && ReleaseText(text, r)
  {
    hide Decimal, ReleaseText, Spells;
    forall text ensures "META-INF/versions/" + text + "/" + path == VERSIONS + (text + "/" + path) {}
    forall text ensures Spells(text, r) <==> ReleaseText(text, r) { SpellsIff(text, r); }
  }

  lemma AsksIff(es: seq<Entry>)
    ensures AsksForVersions(es) <==> MultiRelease(es)
  {
    forall i | 0 <= i < |es|
      ensures TrimSlash(es[i].name) == MANIFEST <==> es[i].name == "META-INF/MANIFEST.MF" || es[i].name == "META-INF/MANIFEST.MF/"
    {
      ManifestName(es[i].name);
    }
  }

  lemma ManifestName(name: string)
    ensures TrimSlash(name) == MANIFEST <==> name == "META-INF/MANIFEST.MF" || name == "META-INF/MANIFEST.MF/"
  {
    var plain, slash := "META-INF/MANIFEST.MF", "META-INF/MANIFEST.MF/";
    assert plain[|plain| - 1..] == "F" && slash[|slash| - 1..] == "/" && slash[..|slash| - 1] == plain;
    if HasSuffix(name, "/") && TrimSlash(name) == MANIFEST { assert name == MANIFEST + "/" == slash; }
  }

  /** What is offered for a path is what counts for it. */
  lemma OfferIff(es: seq<Entry>, e: Entry, target: nat, path: string, r: nat)
    ensures Offer(e, MultiRelease(es), target) == Some((r, path)) <==> CountsFor(es, target, e.name, path, r)
  {
    hide ParseVersionedPath, CleanPath, Clean, VersionedName, ReleaseText, AsksForVersions, MultiRelease;
    AsksIff(es);
    ReleasePathIff(e.name, r, path);
    VersionedNameIff(e.name, r, path);
    CleanIff(path);
    EndsIff(path, ".class");
    BeginsIff(e.name, "META-INF/versions/");
    NoSlashEnd(e.name);
    PlainIff(e.name);
    if VersionedName(e.name, r, path) && HasSuffix(path, ".class") { VersionedEnds(e.name, r, path); }
    NeverZero(e.name);
  }

  lemma NoSlashEnd(name: string)
    ensures HasSuffix(name, ".class") ==> !HasSuffix(name, "/")
  {
    if HasSuffix(name, ".class") { assert name[|name| - 1] == name[|name| - 6..][5] == 's'; }
  }

  lemma PlainIff(name: string)
    ensures ParseVersionedPath(name) == Plain <==> !HasPrefix(name, "META-INF/versions/")
  {
    hide ParseRelease, FirstSlash;
    NotPlain();
  }

  lemma NotPlain()
    ensures forall text, path :: ParseRelease(text, path) != Plain
  {}

  lemma NeverZero(name: string)
    ensures match ParseVersionedPath(name) case Release(r, _) => r > 0 case _ => true
  {
    hide Atoi, CleanPath, FirstSlash;
  }

  lemma VersionedEnds(name: string, r: nat, path: string)
    requires VersionedName(name, r, path) && HasSuffix(path, ".class")
    ensures HasSuffix(name, ".class")
  {
    hide Spells;
    var text :| name == "META-INF/versions/" + text + "/" + path && Spells(text, r);
    assert name[|name| - 6..] == path[|path| - 6..];
  }

  /** The classes of an archive are, for each path that an entry counts for, the first entry
      with the highest release. */
  lemma PickedIff(es: seq<Entry>, target: nat, p: Pick)
    ensures Picked(es, target, p) <==>
      exists i: nat :: i < |es| && p.entry == es[i] && FirstOfHighest(es, target, i, p.path, p.release)
  {
    hide Offer, CountsFor, MultiRelease;
    forall i: nat | i < |es|
      ensures Chosen(es, i, MultiRelease(es), target) && Offer(es[i], MultiRelease(es), target) == Some((p.release, p.path)) <==>
              FirstOfHighest(es, target, i, p.path, p.release)
    {
      ChosenIff(es, target, i, p.path, p.release);
    }
  }

  lemma ChosenIff(es: seq<Entry>, target: nat, i: nat, path: string, r: nat)
    requires i < |es|
    ensures Chosen(es, i, MultiRelease(es), target) && Offer(es[i], MultiRelease(es), target) == Some((r, path)) <==>
            FirstOfHighest(es, target, i, path, r)
  {
    hide Offer, CountsFor, MultiRelease;
    var multi := MultiRelease(es);
    OfferIff(es, es[i], target, path, r);
    if Offer(es[i], multi, target) == Some((r, path)) {
      if Chosen(es, i, multi, target) {
        forall j: nat, q: nat | j < |es| && CountsFor(es, target, es[j].name, path, q) ensures q < r || (q == r && i <= j) {
          OfferIff(es, es[j], target, path, q);
          assert Offers(es[j], path, multi, target);
        }
      }
      if FirstOfHighest(es, target, i, path, r) {
        forall j | 0 <= j < |es| && Offers(es[j], path, multi, target)
          ensures Outranks(r, i, Offer(es[j], multi, target).value.0, j)
        {
          var q := Offer(es[j], multi, target).value.0;
          OfferIff(es, es[j], target, path, q);
          assert CountsFor(es, target, es[j].name, path, q);
        }
      }
    }
  }

  /** A class is too large exactly if an entry that counts for some path is. */
  lemma LargeClassIff(es: seq<Entry>, config: Config)
    ensures LargeClass(es, MultiRelease(es), config) <==>
      exists i: nat, path, r: nat :: i < |es| && CountsFor(es, config.targetRelease, es[i].name, path, r) &&
        es[i].uncompressed > config.maxClassBytes
  {
    hide Offer, CountsFor, MultiRelease;
    var target := config.targetRelease;
    if LargeClass(es, MultiRelease(es), config) {
      var i :| 0 <= i < |es| && Offer(es[i], MultiRelease(es), target).Some? && es[i].uncompressed > config.maxClassBytes;
      var (r, path) := Offer(es[i], MultiRelease(es), target).value;
      OfferIff(es, es[i], target, path, r);
      assert CountsFor(es, target, es[i].name, path, r);
    }
    if i: nat, path, r: nat :| i < |es| && CountsFor(es, target, es[i].name, path, r) &&
                               es[i].uncompressed > config.maxClassBytes {
      OfferIff(es, es[i], target, path, r);
    }
  }

  // ---------------------------------------------------------------- whole archives

  predicate IsManifest(e: Entry) { e.name == "META-INF/MANIFEST.MF" || e.name == "META-INF/MANIFEST.MF/" }

  /** One name, with or without a slash behind it. */
  predicate SameName(a: string, b: string) { a == b || a == b + "/" || b == a + "/" }

  /** No ZIP file, a name that is not allowed or there twice, or a manifest that cannot be read. */
  ghost predicate NothingListed(a: Archive) {
    || a.Broken?
    || (exists i | 0 <= i < |a.entries| :: !EntryAllowed(a.entries[i]))
    || (exists i, j | 0 <= i < j < |a.entries| :: SameName(a.entries[i].name, a.entries[j].name))
    || exists i | 0 <= i < |a.entries| :: IsManifest(a.entries[i]) && a.entries[i].payload.None?
  }

  lemma NamesTell(a: string, b: string)
    requires OrdinaryPath(TrimSlash(a)) && OrdinaryPath(TrimSlash(b))
    ensures TrimSlash(a) == TrimSlash(b) <==> SameName(a, b)
  {
    hide OrdinaryPath;
    OrdinaryPathEnd(TrimSlash(a));
    OrdinaryPathEnd(TrimSlash(b));
    assert HasSuffix(a, "/") ==> a == TrimSlash(a) + "/";
    assert HasSuffix(b, "/") ==> b == TrimSlash(b) + "/";
    assert HasSuffix(b + "/", "/") && TrimSlash(b + "/") == b;
    assert HasSuffix(a + "/", "/") && TrimSlash(a + "/") == a;
  }

  lemma AllowedIsOrdinary(e: Entry)
    requires Acceptable(e)
    ensures OrdinaryPath(TrimSlash(e.name))
  {
    hide Parts, OrdinaryPath;
    OrdinaryIff(TrimSlash(e.name));
  }

  lemma CondemnedIff(a: Archive)
    ensures Condemned(a) <==> NothingListed(a)
  {
    hide Acceptable, EntryAllowed, TrimSlash, OrdinaryPath, SameName, IsManifest;
    if a.Archive? {
      var es := a.entries;
      forall i | 0 <= i < |es| ensures Acceptable(es[i]) <==> EntryAllowed(es[i]) { EntryAllowedIff(es[i]); }
      forall i | 0 <= i < |es| ensures TrimSlash(es[i].name) == MANIFEST <==> IsManifest(es[i]) { ManifestIs(es[i]); }
      if forall i | 0 <= i < |es| :: Acceptable(es[i]) {
        var names := Names(es);
        forall i, j | 0 <= i < j < |es| ensures names[i] == names[j] <==> SameName(es[i].name, es[j].name) {
          AllowedIsOrdinary(es[i]);
          AllowedIsOrdinary(es[j]);
          NamesTell(es[i].name, es[j].name);
        }
      }
    }
  }

  lemma ManifestIs(e: Entry)
    ensures TrimSlash(e.name) == MANIFEST <==> IsManifest(e)
  {
    ManifestName(e.name);
  }

  function Bytes(es: seq<Entry>): nat {
    if es == [] then 0 else Bytes(es[..|es| - 1]) + es[|es| - 1].uncompressed as int
  }

  /** Too many entries or bytes for what is left, too much of the size of the root, a file, a
      manifest or a class too large. */
  ghost predicate TooMuchHere(es: seq<Entry>, config: Config, rootSize: uint64, entries: nat, expanded: uint64) {
    || entries + |es| > config.maxEntries
    || expanded as int + Bytes(es) > config.maxExpandedBytes as int
    || expanded as int + Bytes(es) > rootSize as int * config.maxRatio as int
    || (exists i | 0 <= i < |es| ::
          !Ends(es[i].name, "/") && es[i].uncompressed as int > es[i].compressed as int * config.maxRatio as int)
    || (exists i | 0 <= i < |es| :: IsManifest(es[i]) && es[i].uncompressed > 1048576)
    || exists i: nat, path, r: nat :: i < |es| && CountsFor(es, config.targetRelease, es[i].name, path, r) &&
         es[i].uncompressed > config.maxClassBytes
  }

  lemma {:induction false} BytesAre(es: seq<Entry>)
    ensures SizeOf(es) == Bytes(es)
  {
    if es != [] { BytesAre(es[..|es| - 1]); }
  }

  lemma TooLargeIff(es: seq<Entry>, config: Config, rootSize: uint64, entries: nat, expanded: uint64)
    ensures TooLarge(es, config, rootSize, entries, expanded) <==> TooMuchHere(es, config, rootSize, entries, expanded)
  {
    hide SizeOf, Bytes, LargeClass, CountsFor, MultiRelease, Exceeds, TrimSlash, IsManifest, HasSuffix, Ends;
    BytesAre(es);
    LargeClassIff(es, config);
    forall i | 0 <= i < |es| ensures TrimSlash(es[i].name) == MANIFEST <==> IsManifest(es[i]) { ManifestIs(es[i]); }
    forall i | 0 <= i < |es|
      ensures Ends(es[i].name, "/") <==> HasSuffix(es[i].name, "/")
      ensures Exceeds(es[i].uncompressed, es[i].compressed, config.maxRatio) <==>
              es[i].uncompressed as int > es[i].compressed as int * config.maxRatio as int
    {
      EndsIff(es[i].name, "/");
      ExceedsProduct(es[i].uncompressed, es[i].compressed, config.maxRatio);
    }
  }

  /** What is said of an archive that was not visited: too deep, unreadable, or condemned. */
  lemma ReasonIff(f: Failure, e: Entry, names: seq<string>, config: Config)
    ensures Reason(f, e, names, config) <==>
      if |names| >= config.maxDepth then
        f.code == "nested_archive_depth_exceeded" && f.message == "nested JVM archive depth limit reached"
      else if e.payload.None? then
        f.code == "nested_archive_read_failed" && f.message == "nested JVM archive bytes could not be read"
      else
        f.code == "nested_archive_invalid" && f.message == "nested JVM archive is invalid" && NothingListed(e.inside)
  {
    hide Condemned, NothingListed;
    CondemnedIff(e.inside);
  }

  // ---------------------------------------------------------------- paths through archives

  /** Each exclamation mark twice. */
  function Escaped(s: string): string {
    if s == "" then ""
    else Escaped(s[..|s| - 1]) + (if s[|s| - 1] == '!' then "!!" else [s[|s| - 1]])
  }

  /** The escaped components with `!/` between them. */
  function Through(parts: seq<string>): string {
    if parts == [] then ""
    else if |parts| == 1 then Escaped(parts[0])
    else Through(parts[..|parts| - 1]) + "!/" + Escaped(parts[|parts| - 1])
  }

  lemma {:induction false} DoubledLast(s: string, c: char)
    ensures Doubled(s + [c]) == Doubled(s) + (if c == '!' then "!!" else [c])
  {
    if s != "" {
      DoubledLast(s[1..], c);
      assert (s + [c])[1..] == s[1..] + [c];
    } else {
      assert (s + [c])[1..] == "";
    }
  }

  lemma {:induction false} EscapedIs(s: string)
    ensures Escaped(s) == Doubled(s)
  {
    if s != "" {
      EscapedIs(s[..|s| - 1]);
      DoubledLast(s[..|s| - 1], s[|s| - 1]);
      assert s == s[..|s| - 1] + [s[|s| - 1]];
    }
  }

  lemma {:induction false} JoinedLast(parts: seq<string>, p: string)
    requires parts != []
    ensures Joined(parts + [p]) == Joined(parts) + "!/" + Doubled(p)
  {
    hide Doubled;
    var all := parts + [p];
    if |parts| == 1 {
      assert all[1..] == [p];
    } else {
      JoinedLast(parts[1..], p);
      assert all[1..] == parts[1..] + [p];
      var x, y := Doubled(parts[0]), Joined(parts[1..]);
      assert x + "!/" + (y + "!/" + Doubled(p)) == x + "!/" + y + "!/" + Doubled(p);
    }
  }

  lemma {:induction false} ThroughIs(parts: seq<string>)
    ensures Through(parts) == Joined(parts)
  {
    hide Doubled, Escaped;
    if parts != [] {
      EscapedIs(parts[|parts| - 1]);
      if |parts| > 1 {
        ThroughIs(parts[..|parts| - 1]);
        JoinedLast(parts[..|parts| - 1], parts[|parts| - 1]);
        assert parts == parts[..|parts| - 1] + [parts[|parts| - 1]];
      }
    }
  }

  /** A path through archives is this text, if it has 1 to 8192 bytes. */
  lemma JoinIff(parts: seq<string>, path: string)
    ensures JoinPath(parts) == Some(path) <==> path == Through(parts) && path != "" && Length(path) <= 8192
  {
    hide Joined, Through, Length;
    ThroughIs(parts);
  }
}
