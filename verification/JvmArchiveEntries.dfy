/** What one JAR, WAR or EAR offers: which entries are acceptable, which classes are
    chosen for a Java release, and the ratio test, all on names and declared sizes. */
module JvmArchiveEntries {
  import opened Counting
  import opened Words
  import opened JvmDescriptors
  import opened Texts

  // ---------------------------------------------------------------- archives

  /** One entry as the ZIP reader lists it. `payload` is what reading it gives, if it can be
      read, and `inside` is the archive those bytes are. */
  datatype Entry = Entry(
    name: string, directory: bool, special: bool, encrypted: bool,
    uncompressed: uint64, compressed: uint64,
    payload: Option<Bytes>, multiRelease: bool, inside: Archive)

  /** A list of entries, or bytes that are no ZIP file: `records` records are scanned before
      that is found, and they are `counted` if it is the ZIP reader that finds it. */
  datatype Archive = Broken(records: nat, counted: bool) | Archive(entries: seq<Entry>)

  datatype Config = Config(
    targetRelease: nat, maxEntries: nat, maxExpandedBytes: uint64, maxClassBytes: uint64,
    maxRatio: uint64, maxDepth: nat)

  /** A configuration as normalizeJVMEngineConfig leaves it. */
  predicate Configured(c: Config) {
    && 8 <= c.targetRelease <= 99 && 0 < c.maxEntries <= 20_000
    && 0 < c.maxExpandedBytes <= 0xC_8000_0000 && 0 < c.maxClassBytes <= 0x1000_0000
    && c.maxClassBytes <= c.maxExpandedBytes && 0 < c.maxRatio <= 100 && 0 < c.maxDepth <= 10
  }

  const MAX_PATH_BYTES := 8192
  const MAX_MANIFEST_BYTES: uint64 := 0x10_0000

  // ---------------------------------------------------------------- ratio

  /** exceedsJVMCompressionRatio, which must not multiply. */
  predicate Exceeds(uncompressed: uint64, compressed: uint64, ratio: uint64) {
    uncompressed != 0 &&
    (compressed == 0 || ratio == 0 ||
     var quotient := uncompressed / compressed;
     quotient > ratio || (quotient == ratio && uncompressed % compressed != 0))
  }

  lemma Multiply(a: nat, b: nat, y: nat)
    requires a <= b
    ensures a * y <= b * y
  {}

  lemma QuotientCompares(x: nat, y: nat, z: nat)
    requires y > 0
    ensures x > y * z <==> x / y > z || (x / y == z && x % y != 0)
  {
    var q, r := x / y, x % y;
    assert x == q * y + r && y * z == z * y;
    if q > z {
      Multiply(z + 1, q, y);
    } else if q < z {
      Multiply(q + 1, z, y);
    }
  }

  /** It compares with the product, over the integers. */
  lemma ExceedsProduct(u: uint64, c: uint64, r: uint64)
    ensures Exceeds(u, c, r) <==> u as int > c as int * r as int
  {
    if c == 0 || r == 0 {
      assert c as int * r as int == 0;
    } else {
      QuotientCompares(u as int, c as int, r as int);
    }
  }

  // ---------------------------------------------------------------- names

  predicate HasPrefix(s: string, p: string) { |p| <= |s| && s[..|p|] == p }

  predicate HasSuffix(s: string, p: string) { |p| <= |s| && s[|s| - |p|..] == p }

  function TrimSlash(s: string): string { if HasSuffix(s, "/") then s[..|s| - 1] else s }

  predicate Letter(c: char) { 'A' <= c <= 'Z' || 'a' <= c <= 'z' }

  predicate Canonical(s: string) {
    && (forall p | p in Parts(s) :: ProperPart(p))
    && !(|s| >= 2 && s[1] == ':' && Letter(s[0]))
  }

  /** validateJVMZIPEntry: relative, canonical, no escape, no special file, no encryption.
      A name of proper parts is what `path.Clean` makes of it. */
  predicate Acceptable(e: Entry) {
    && e.name != "" && Length(e.name) <= MAX_PATH_BYTES && '\0' !in e.name && '\\' !in e.name
    && e.name[0] != '/'
    && Canonical(TrimSlash(e.name))
    && (if HasSuffix(e.name, "/") then e.directory && e.uncompressed == 0
        else !e.directory && !e.special)
    && !e.encrypted
  }

  function Lower(c: char): char { if 'A' <= c <= 'Z' then 'a' + (c - 'A') else c }

  function Lowered(s: string): string { seq(|s|, i requires 0 <= i < |s| => Lower(s[i])) }

  /** isJVMNestedArchive */
  predicate NestedArchive(name: string) {
    |name| >= 4 && Lowered(name[|name| - 4..]) in [".jar", ".war", ".ear"]
  }

  lemma ClassIsNoArchive(name: string)
    requires HasSuffix(name, ".class")
    ensures !NestedArchive(name)
  {
    assert name[|name| - 1] == name[|name| - 6..][5] == 's';
    var end := if |name| >= 4 then Lowered(name[|name| - 4..]) else "";
    assert |end| == 4 ==> end[3] == 's';
  }

  // ---------------------------------------------------------------- releases

  predicate DigitsOnly(s: string) { s != "" && forall i | 0 <= i < |s| :: '0' <= s[i] <= '9' }

  function Value(s: string): nat
    requires forall i | 0 <= i < |s| :: '0' <= s[i] <= '9'
  {
    if s == "" then 0 else Value(s[..|s| - 1]) * 10 + (s[|s| - 1] as int - '0' as int)
  }

  /** strconv.Atoi, which takes a sign. What overflows is no release either. */
  function Atoi(s: string): Option<int> {
    if DigitsOnly(s) then Some(Value(s))
    else if |s| > 1 && s[0] == '+' && DigitsOnly(s[1..]) then Some(Value(s[1..]))
    else if |s| > 1 && s[0] == '-' && DigitsOnly(s[1..]) then var v: int := Value(s[1..]); Some(-v)
    else None
  }

  /** The place of the first slash, or the length. */
  function FirstSlash(s: string): (i: nat)
    ensures i <= |s| && (i < |s| ==> s[i] == '/') && forall j | 0 <= j < i :: s[j] != '/'
  {
    if s == "" || s[0] == '/' then 0 else 1 + FirstSlash(s[1..])
  }

  function DropUps(parts: seq<string>): seq<string> {
    if parts != [] && parts[0] == ".." then DropUps(parts[1..]) else parts
  }

  /** `path.Clean(s) == s`: proper parts, behind a root or behind a run of "..". */
  predicate CleanPath(s: string) {
    s == "." || s == "/" ||
    (s != "" && forall p | p in (if s[0] == '/' then Parts(s[1..]) else DropUps(Parts(s))) :: ProperPart(p))
  }

  datatype Versioned = Plain | Ignored | Release(release: nat, path: string)

  const VERSIONS := "META-INF/versions/"

  /** parseJVMVersionedPath: an entry outside the versions directory, one inside it that is
      no class of a release, or the class and its release. */
  function ParseVersionedPath(name: string): Versioned {
    if !HasPrefix(name, VERSIONS) then Plain
    else
      var rest := name[|VERSIONS|..];
      var slash := FirstSlash(rest);
      if slash == |rest| || slash == 0 || slash == |rest| - 1 then Ignored
      else ParseRelease(rest[..slash], rest[slash + 1..])
  }

  function ParseRelease(text: string, path: string): Versioned {
    if |text| > 1 && text[0] == '0' then Ignored
    else
      var release := Atoi(text);
      if release.None? || release.value < 9 || release.value > 999 then Ignored
      else if !HasSuffix(path, ".class") || !CleanPath(path) then Ignored
      else Release(release.value, path)
  }

  lemma {:induction false} ValueOfDecimal(n: nat)
    ensures DigitsOnly(Decimal(n)) && Value(Decimal(n)) == n
    ensures |Decimal(n)| > 1 ==> Decimal(n)[0] != '0'
  {
    if n >= 10 {
      ValueOfDecimal(n / 10);
      assert Decimal(n)[..|Decimal(n)| - 1] == Decimal(n / 10);
      assert n / 10 > 0 ==> Decimal(n / 10) != "0" by { if n / 10 < 10 { assert Decimal(n / 10) == [Digit(n / 10)]; } }
    } else {
      assert Decimal(n)[..0] == "";
    }
  }

  lemma {:induction false} FirstSlashIn(text: string, rest: string)
    requires '/' !in text
    ensures FirstSlash(text + "/" + rest) == |text|
  {
    var s := text + "/" + rest;
    if text == "" {
      assert s[0] == '/';
    } else {
      FirstSlashIn(text[1..], rest);
      assert s[0] == text[0] && s[1..] == text[1..] + "/" + rest;
    }
  }

  lemma ReleaseParts(text: string, path: string)
    requires text != "" && '/' !in text && path != ""
    ensures ParseVersionedPath(VERSIONS + (text + "/" + path)) == ParseRelease(text, path)
  {
    var name := VERSIONS + (text + "/" + path);
    var rest := name[|VERSIONS|..];
    assert rest == text + "/" + path;
    FirstSlashIn(text, path);
    assert rest[..|text|] == text && rest[|text| + 1..] == path;
  }

  function Zeros(k: nat): (s: string)
    ensures |s| == k && forall i | 0 <= i < k :: s[i] == '0'
  {
    seq(k, i => '0')
  }

  /** A digit string is its value in decimal, behind some zeros. */
  lemma {:induction false} LeadingZeros(s: string) returns (k: nat)
    requires DigitsOnly(s)
    ensures s == Zeros(k) + Decimal(Value(s))
  {
    hide Decimal;
    var n := |s| - 1;
    var front, d := s[..n], s[n] as int - '0' as int;
    assert s == front + [Digit(d)];
    DecimalDigits(Value(front), d);
    if front == "" {
      k := 0;
      assert Value(front) == 0;
    } else {
      k := LeadingZeros(front);
      if Value(front) == 0 {
        assert front == Zeros(k + 1);
        k := k + 1;
      }
    }
  }

  lemma DecimalDigits(n: nat, d: nat)
    requires d < 10
    ensures Decimal(0) == "0" && Decimal(d) == [Digit(d)]
    ensures n > 0 ==> Decimal(n * 10 + d) == Decimal(n) + [Digit(d)]
  {}

  lemma {:induction false} ZerosCountNothing(k: nat, t: string)
    requires forall i | 0 <= i < |t| :: '0' <= t[i] <= '9'
    ensures Value(Zeros(k) + t) == Value(t)
  {
    var s := Zeros(k) + t;
    if t != "" {
      ZerosCountNothing(k, t[..|t| - 1]);
      assert s[..|s| - 1] == Zeros(k) + t[..|t| - 1];
    } else if k > 0 {
      ZerosCountNothing(k - 1, t);
      assert s[..|s| - 1] == Zeros(k - 1) + t;
    } else {
      assert s == t;
    }
  }

  /** The texts that are taken for a release number: its decimal form, or a plus sign, any
      number of zeros, and that form. */
  predicate ReleaseText(text: string, r: nat) {
    text == Decimal(r) || (text != "" && text[0] == '+' && ZerosThen(text[1..], r))
  }

  predicate ZerosThen(text: string, r: nat) {
    var k := |text| - |Decimal(r)|;
    k >= 0 && text == Zeros(k) + Decimal(r)
  }

  lemma ReleaseTextRead(text: string, r: nat)
    requires ReleaseText(text, r) && r > 0
    ensures Atoi(text) == Some(r) && '/' !in text && text != "" && !(|text| > 1 && text[0] == '0')
  {
    ValueOfDecimal(r);
    if text != Decimal(r) {
      var k := |text| - 1 - |Decimal(r)|;
      ZerosCountNothing(k, Decimal(r));
      assert DigitsOnly(text[1..]);
      assert forall i | 1 <= i < |text| :: text[i] == text[1..][i - 1];
    }
  }

  lemma ReadIsReleaseText(text: string, r: nat)
    requires Atoi(text) == Some(r) && r > 0 && !(|text| > 1 && text[0] == '0')
    ensures ReleaseText(text, r)
  {
    hide Decimal, Value;
    var unsigned := if DigitsOnly(text) then text else text[1..];
    var k := LeadingZeros(unsigned);
    assert k > 0 ==> unsigned[0] == Zeros(k)[0] == '0';
    assert DigitsOnly(text) ==> k == 0;
    assert Zeros(0) + Decimal(r) == Decimal(r);
  }

  /** Exactly these names are taken for a class of release `r`. */
  lemma ReleasePathIff(name: string, r: nat, path: string)
    ensures ParseVersionedPath(name) == Release(r, path) <==>
      && 9 <= r <= 999 && HasSuffix(path, ".class") && CleanPath(path)
      && exists text :: name == VERSIONS + (text + "/" + path) && ReleaseText(text, r)
  {
    hide CleanPath, Atoi, Decimal, ReleaseText, FirstSlash;
    if ParseVersionedPath(name) == Release(r, path) {
      var rest := name[|VERSIONS|..];
      var text := rest[..FirstSlash(rest)];
      assert name == VERSIONS + rest && rest == text + "/" + path;
      ReadIsReleaseText(text, r);
    }
    if 9 <= r <= 999 && HasSuffix(path, ".class") && CleanPath(path) {
      forall text | name == VERSIONS + (text + "/" + path) && ReleaseText(text, r)
        ensures ParseVersionedPath(name) == Release(r, path)
      {
        ReleaseTextRead(text, r);
        ReleaseParts(text, path);
      }
    }
  }

  /** The JAR format knows only the decimal form. A name that is taken for a release has it
      exactly if no sign comes first. */
  lemma CanonicalRelease(name: string, r: nat, path: string)
    requires ParseVersionedPath(name) == Release(r, path)
    ensures name == VERSIONS + (Decimal(r) + "/" + path) <==> name[|VERSIONS|] != '+'
  {
    hide ParseVersionedPath, CleanPath, Decimal, ZerosThen;
    ReleasePathIff(name, r, path);
    var text :| name == VERSIONS + (text + "/" + path) && ReleaseText(text, r);
    assert name[|VERSIONS|] == (text + "/" + path)[0];
    assert Decimal(r)[0] != '+';
    assert (Decimal(r) + "/" + path)[0] == Decimal(r)[0];
    if name == VERSIONS + (Decimal(r) + "/" + path) {
      assert name[|VERSIONS|] == (Decimal(r) + "/" + path)[0];
    }
  }

  const NINE := "META-INF/versions/9/X.class"
  const PLUS_NINE := "META-INF/versions/+9/X.class"
  const PLUS_ZERO_NINE := "META-INF/versions/+09/X.class"

  /** Three names for one class of release 9. */
  lemma SignedNine()
    ensures ParseVersionedPath(NINE) == Release(9, "X.class")
    ensures ParseVersionedPath(PLUS_NINE) == Release(9, "X.class")
    ensures ParseVersionedPath(PLUS_ZERO_NINE) == Release(9, "X.class")
  {
    hide ParseVersionedPath, ReleaseText;
    NineTexts();
    TakenForNine(NINE, "9");
    TakenForNine(PLUS_NINE, "+9");
    TakenForNine(PLUS_ZERO_NINE, "+09");
  }

  lemma TakenForNine(name: string, text: string)
    requires name == VERSIONS + (text + "/" + "X.class") && ReleaseText(text, 9)
    ensures ParseVersionedPath(name) == Release(9, "X.class")
  {
    hide ParseVersionedPath, CleanPath, ReleaseText;
    OneClass();
    ReleasePathIff(name, 9, "X.class");
  }

  lemma NineTexts()
    ensures ReleaseText("9", 9) && ReleaseText("+9", 9) && ReleaseText("+09", 9)
  {
    assert Decimal(9) == "9";
    assert "+9"[1..] == Zeros(0) + "9";
    assert "+09"[1..] == Zeros(1) + "9";
  }

  lemma OneClass()
    ensures HasSuffix("X.class", ".class") && CleanPath("X.class")
  {
    var s := "X.class";
    NoSlash(s);
    assert Parts(s) == [s];
    assert s[1..] == ".class";
  }

  lemma {:induction false} NoSlash(s: string)
    requires '/' !in s
    ensures Parts(s) == [s]
  {
    if s != "" {
      var front := s[..|s| - 1];
      NoSlash(front);
      assert s == front + [s[|s| - 1]];
      assert [front][0 := s] == [s];
    }
  }

  /** The class that an entry may be, for which release and under which path. */
  function Offer(e: Entry, multiRelease: bool, target: nat): Option<(nat, string)> {
    if HasSuffix(e.name, "/") || !HasSuffix(e.name, ".class") then None
    else
      match ParseVersionedPath(e.name)
      case Plain => Some((0, e.name))
      case Ignored => None
      case Release(r, path) => if multiRelease && r <= target then Some((r, path)) else None
  }

  lemma OfferIsClass(e: Entry, multiRelease: bool, target: nat)
    requires Offer(e, multiRelease, target).Some?
    ensures HasSuffix(Offer(e, multiRelease, target).value.1, ".class")
  {}

  /** Entry `i` is chosen for its path: no entry has a higher release for it, and none
      before it has the same. */
  predicate Chosen(es: seq<Entry>, i: nat, multiRelease: bool, target: nat)
    requires i < |es|
  {
    && Offer(es[i], multiRelease, target).Some?
    && forall j | 0 <= j < |es| && Offers(es[j], Offer(es[i], multiRelease, target).value.1, multiRelease, target) ::
         Outranks(Offer(es[i], multiRelease, target).value.0, i, Offer(es[j], multiRelease, target).value.0, j)
  }

  predicate Offers(e: Entry, path: string, multiRelease: bool, target: nat) {
    Offer(e, multiRelease, target).Some? && Offer(e, multiRelease, target).value.1 == path
  }

  predicate Outranks(release: nat, i: nat, other: nat, j: nat) { other < release || (other == release && i <= j) }

  // ---------------------------------------------------------------- joined paths

  /** `strings.ReplaceAll(s, "!", "!!")` */
  function Doubled(s: string): string {
    if s == "" then "" else (if s[0] == '!' then "!!" else [s[0]]) + Doubled(s[1..])
  }

  /** The components with `!` doubled, and `!/` between them. */
  function Joined(parts: seq<string>): string {
    if parts == [] then ""
    else if |parts| == 1 then Doubled(parts[0])
    else Doubled(parts[0]) + "!/" + Joined(parts[1..])
  }

  /** A string where no component goes on: the end, or a separator. */
  predicate Stops(s: string) { s == "" || (|s| >= 2 && s[0] == '!' && s[1] == '/') }

  lemma {:induction false} DoubledSplits(a: string, b: string, x: string, y: string)
    requires Doubled(a) + x == Doubled(b) + y && Stops(x) && Stops(y)
    ensures a == b && x == y
  {
    hide Stops;
    var s := Doubled(a) + x;
    if a == "" || b == "" {
      DoubledEmpty(a, b, x, y);
    } else {
      assert s[0] == a[0] && s[0] == b[0];
      var p := if a[0] == '!' then "!!" else [a[0]];
      assert s == p + (Doubled(a[1..]) + x) && s == p + (Doubled(b[1..]) + y);
      assert s[|p|..] == Doubled(a[1..]) + x && s[|p|..] == Doubled(b[1..]) + y;
      DoubledSplits(a[1..], b[1..], x, y);
      assert a == [a[0]] + a[1..] && b == [b[0]] + b[1..];
    }
  }

  /** A component that goes on is no place to stop. */
  lemma DoubledGoesOn(a: string, x: string)
    requires a != ""
    ensures !Stops(Doubled(a) + x)
  {
    var s := Doubled(a) + x;
    assert s[0] == a[0];
    assert a[0] == '!' ==> s[1] == '!';
  }

  lemma DoubledEmpty(a: string, b: string, x: string, y: string)
    requires Doubled(a) + x == Doubled(b) + y && Stops(x) && Stops(y) && (a == "" || b == "")
    ensures a == b && x == y
  {
    assert "" + x == x && "" + y == y;
    if a != "" { DoubledGoesOn(a, x); }
    if b != "" { DoubledGoesOn(b, y); }
  }

  lemma JoinedStops(parts: seq<string>)
    requires |parts| > 0
    ensures Joined(parts) == Doubled(parts[0]) + (if |parts| == 1 then "" else "!/" + Joined(parts[1..]))
  {}

  /** A joined path names one list of components. */
  lemma {:induction false} JoinedInjective(a: seq<string>, b: seq<string>)
    requires a != [] && b != [] && Joined(a) == Joined(b)
    ensures a == b
  {
    hide Doubled;
    JoinedStops(a);
    JoinedStops(b);
    var x := if |a| == 1 then "" else "!/" + Joined(a[1..]);
    var y := if |b| == 1 then "" else "!/" + Joined(b[1..]);
    DoubledSplits(a[0], b[0], x, y);
    if |a| > 1 {
      assert x[2..] == Joined(a[1..]) && y[2..] == Joined(b[1..]);
      JoinedInjective(a[1..], b[1..]);
    }
    assert a == [a[0]] + a[1..] && b == [b[0]] + b[1..];
  }

  /** joinJVMArchivePath, from the components it joins. */
  function JoinPath(parts: seq<string>): Option<string> {
    var joined := Joined(parts);
    if joined == "" || Length(joined) > MAX_PATH_BYTES then None else Some(joined)
  }
}
