/** Strings as keys: their order, the shapes the result contract asks of them, and the
    encoding that puts each part behind its length. */
module Texts {
  import opened JvmDescriptors

  // ---------------------------------------------------------------- order

  /** `a < b`, character by character. */
  predicate Below(a: string, b: string) {
    b != "" && (a == "" || a[0] < b[0] || (a[0] == b[0] && Below(a[1..], b[1..])))
  }

  lemma {:induction false} BelowOrders(a: string, b: string)
    ensures !(Below(a, b) && Below(b, a))
    ensures a == b <==> !Below(a, b) && !Below(b, a)
  {
    if a != "" && b != "" && a[0] == b[0] {
      BelowOrders(a[1..], b[1..]);
      assert a == [a[0]] + a[1..] && b == [b[0]] + b[1..];
    }
  }

  lemma {:induction false} BelowTransitive(a: string, b: string, c: string)
    requires Below(a, b) && Below(b, c)
    ensures Below(a, c)
  {
    if a != "" && a[0] == b[0] == c[0] { BelowTransitive(a[1..], b[1..], c[1..]); }
  }

  // ---------------------------------------------------------------- shapes

  predicate Alphanumeric(c: char) {
    'A' <= c <= 'Z' || 'a' <= c <= 'z' || '0' <= c <= '9'
  }

  /** `^[A-Za-z0-9][A-Za-z0-9._:/@+\-$]{0,999}$` */
  predicate Identifier(s: string) {
    && 0 < |s| <= 1000 && Alphanumeric(s[0])
    && forall i | 0 <= i < |s| :: Alphanumeric(s[i]) || s[i] in "._:/@+-$"
  }

  /** `^[a-z][a-z0-9_.-]{0,127}$` */
  predicate Code(s: string) {
    && 0 < |s| <= 128 && 'a' <= s[0] <= 'z'
    && forall i | 0 <= i < |s| :: 'a' <= s[i] <= 'z' || '0' <= s[i] <= '9' || s[i] in "_.-"
  }

  predicate HexDigit(c: char) { 'a' <= c <= 'f' || '0' <= c <= '9' }

  /** `^[a-f0-9]{64}$` */
  predicate Digest(s: string) {
    |s| == 64 && forall i | 0 <= i < |s| :: HexDigit(s[i])
  }

  predicate ValidText(s: string, maximum: nat) {
    s != "" && Length(s) <= maximum && '\0' !in s
  }

  /** The parts of a path between slashes. */
  function Parts(s: string): (ps: seq<string>)
    ensures |ps| > 0
  {
    if s == "" then [""]
    else
      var front := Parts(s[..|s| - 1]);
      if s[|s| - 1] == '/' then front + [""]
      else front[|front| - 1 := front[|front| - 1] + [s[|s| - 1]]]
  }

  predicate ProperPart(p: string) { p != "" && p != "." && p != ".." }

  /** validRelativePath: what `fs.ValidPath` accepts, and no backslash. `path.Clean` leaves
      such a path as it is. */
  predicate RelativePath(s: string) {
    s != "" && '\\' !in s && (s == "." || forall p | p in Parts(s) :: ProperPart(p))
  }

  /** validMediaType */
  predicate MediaType(s: string) {
    && 3 <= Length(s) <= 255
    && (forall i | 0 <= i < |s| :: 0x20 < s[i] as int < 0x7F)
    && Slashes(s) == 1
  }

  function Slashes(s: string): nat {
    if s == "" then 0 else Slashes(s[..|s| - 1]) + (if s[|s| - 1] == '/' then 1 else 0)
  }

  // ---------------------------------------------------------------- numbers

  function Digit(d: nat): (c: char)
    requires d < 10
    ensures '0' <= c <= '9'
  {
    '0' + d as char
  }

  /** strconv.Itoa */
  function Decimal(n: nat): (s: string)
    ensures s != "" && forall i | 0 <= i < |s| :: '0' <= s[i] <= '9'
  {
    if n < 10 then [Digit(n)] else Decimal(n / 10) + [Digit(n % 10)]
  }

  lemma {:induction false} DecimalInjective(m: nat, n: nat)
    requires Decimal(m) == Decimal(n)
    ensures m == n
  {
    var s := Decimal(m);
    if m >= 10 && n >= 10 {
      assert s[..|s| - 1] == Decimal(m / 10) && s[..|s| - 1] == Decimal(n / 10);
      DecimalInjective(m / 10, n / 10);
      assert s[|s| - 1] == Digit(m % 10) && s[|s| - 1] == Digit(n % 10);
    }
  }

  // ---------------------------------------------------------------- lengths

  lemma {:induction false} LengthJoins(a: string, b: string)
    ensures Length(a + b) == Length(a) + Length(b)
  {
    if b == "" {
      assert a + b == a;
    } else {
      LengthJoins(a, b[..|b| - 1]);
      assert (a + b)[..|a + b| - 1] == a + b[..|b| - 1];
    }
  }

  lemma {:induction false} LengthOfAscii(s: string)
    requires forall i | 0 <= i < |s| :: s[i] as int < 0x80
    ensures Length(s) == |s|
  {
    if s != "" { LengthOfAscii(s[..|s| - 1]); }
  }

  /** Two prefixes of one string with as many bytes are the same. */
  lemma PrefixByLength(a: string, b: string, x: string, y: string)
    requires a + x == b + y && Length(a) == Length(b)
    ensures a == b && x == y
  {
    if |a| <= |b| {
      SplitAt(a, b, x, y);
    } else {
      SplitAt(b, a, y, x);
    }
  }

  lemma Overlap(a: string, b: string, x: string, y: string)
    requires a + x == b + y && |a| <= |b|
    ensures b == a + b[|a|..]
    ensures |a| == |b| ==> x == y
  {
    var s := a + x;
    assert a == s[..|a|] && x == s[|a|..] && b == s[..|b|] && y == s[|b|..];
  }

  lemma SplitAt(a: string, b: string, x: string, y: string)
    requires a + x == b + y && Length(a) == Length(b) && |a| <= |b|
    ensures a == b && x == y
  {
    hide Length;
    Overlap(a, b, x, y);
    LengthJoins(a, b[|a|..]);
    LengthAtLeast(b[|a|..]);
    assert b[|a|..] == "";
  }

  // ---------------------------------------------------------------- length-prefixed parts

  /** encodeJVMArchiveIdentity, and what jvmStableKey hashes: each part behind its length
      in bytes and a colon. */
  function Prefixed(parts: seq<string>): string {
    if parts == [] then ""
    else Decimal(Length(parts[0])) + [':'] + parts[0] + Prefixed(parts[1..])
  }

  lemma HeadDigits(m: nat, n: nat, x: string, y: string)
    requires Decimal(m) + [':'] + x == Decimal(n) + [':'] + y
    ensures m == n && x == y
  {
    var s, p, q := Decimal(m) + [':'] + x, |Decimal(m)|, |Decimal(n)|;
    assert s[p] == ':' && s[q] == ':';
    assert forall i | 0 <= i < p :: s[i] == Decimal(m)[i];
    assert forall i | 0 <= i < q :: s[i] == Decimal(n)[i];
    assert p == q;
    assert s[..p] == Decimal(m) && s[..p] == Decimal(n);
    assert s[p + 1..] == x && s[p + 1..] == y;
    DecimalInjective(m, n);
  }

  /** The parts can be read back: no two lists of parts have one encoding. */
  lemma {:induction false} PrefixedInjective(a: seq<string>, b: seq<string>)
    requires Prefixed(a) == Prefixed(b)
    ensures a == b
  {
    if a != [] && b != [] {
      var x, y := a[0] + Prefixed(a[1..]), b[0] + Prefixed(b[1..]);
      assert Decimal(Length(a[0])) + [':'] + x == Prefixed(a);
      assert Decimal(Length(b[0])) + [':'] + y == Prefixed(b);
      HeadDigits(Length(a[0]), Length(b[0]), x, y);
      PrefixByLength(a[0], b[0], Prefixed(a[1..]), Prefixed(b[1..]));
      PrefixedInjective(a[1..], b[1..]);
      assert a == [a[0]] + a[1..] && b == [b[0]] + b[1..];
    }
  }
}
