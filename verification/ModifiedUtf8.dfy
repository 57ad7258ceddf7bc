/** The modified UTF-8 of class files (section 4.4.7 of the Java Virtual Machine
    Specification): NUL as C0 80, supplementary characters as two encoded surrogates. A
    Dafny `char` is exactly a Unicode scalar value. */
module ModifiedUtf8 {
  import opened Counting
  import opened Words

  // ---------------------------------------------------------------- specification

  /** A trailing byte: the two top bits are 10. */
  predicate Trails(b: Byte) { b / 64 == 2 }

  /** The sixteen bits of three bytes, and the eleven bits of two. */
  function Sixteen(x: int, y: int, z: int): int { x % 16 * 4096 + y % 64 * 64 + z % 64 }

  function Eleven(x: int, y: int): int { x % 32 * 64 + y % 64 }

  /** decodeModifiedUTF8Triple: sixteen bits from three bytes, not fewer than needed. */
  function Triple(b: Bytes): Option<int> {
    if |b| < 3 || b[0] / 16 != 14 || !Trails(b[1]) || !Trails(b[2]) then None
    else
      var value := Sixteen(b[0], b[1], b[2]);
      if value < 0x800 then None else Some(value)
  }

  predicate High(v: int) { 0xD800 <= v <= 0xDBFF }

  predicate Low(v: int) { 0xDC00 <= v <= 0xDFFF }

  /** The first character of a byte string, and the bytes it takes. */
  function First(b: Bytes): (r: Option<(char, nat)>)
    requires b != []
    ensures r.Some? ==> 0 < r.value.1 <= |b|
  {
    if 0 < b[0] < 0x80 then Some((b[0] as char, 1))
    else if b[0] / 32 == 6 then
      if |b| < 2 || !Trails(b[1]) then None
      else
        var value := Eleven(b[0], b[1]);
        if value < 0x80 && !(b[0] == 0xC0 && b[1] == 0x80) then None
        else Some((value as char, 2))
    else if b[0] / 16 == 14 then
      match Triple(b)
      case None => None
      case Some(value) =>
        if High(value) then
          match Triple(b[3..])
          case Some(low) =>
            if Low(low)
            then Some(((0x10000 + (value - 0xD800) * 1024 + (low - 0xDC00)) as char, 6))
            else None
          case None => None
        else if Low(value) then None
        else Some((value as char, 3))
    else None
  }

  function Decode(b: Bytes): Option<string> {
    if b == [] then Some([])
    else
      match First(b)
      case None => None
      case Some(first) =>
        var rest := Decode(b[first.1..]);
        if rest.Some? then Some([first.0] + rest.value) else None
  }

  /** Three bytes for sixteen bits. */
  function EncodeTriple(v: int): Bytes
    requires 0 <= v <= 0xFFFF
  {
    [224 + v / 4096, 128 + v / 64 % 64, 128 + v % 64]
  }

  function EncodeOne(c: char): Bytes {
    var v := c as int;
    if 0 < v < 0x80 then [v]
    else if v < 0x800 then [192 + v / 64, 128 + v % 64]
    else if v < 0x10000 then EncodeTriple(v)
    else EncodeTriple(0xD800 + (v - 0x10000) / 1024) + EncodeTriple(0xDC00 + (v - 0x10000) % 1024)
  }

  function Encode(s: string): Bytes {
    if s == "" then [] else EncodeOne(s[0]) + Encode(s[1..])
  }

  // ---------------------------------------------------------------- the decoder

  /** decodeModifiedUTF8Triple at a position. */
  method DecodeTriple(encoded: Bytes, position: nat) returns (value: int, next: nat, ok: bool)
    requires position <= |encoded|
    ensures ok <==> Triple(encoded[position..]).Some?
    ensures ok ==> value == Triple(encoded[position..]).value && next == position + 3 <= |encoded|
  {
    if position + 2 >= |encoded| || encoded[position] / 16 != 14 ||
       encoded[position + 1] / 64 != 2 || encoded[position + 2] / 64 != 2 {
      return 0, position, false;
    }
    value := Sixteen(encoded[position], encoded[position + 1], encoded[position + 2]);
    if value < 0x800 { return 0, position, false; }
    return value, position + 3, true;
  }

  /** One round of the loop of decodeModifiedUTF8. */
  method DecodeNext(encoded: Bytes, position: nat) returns (c: char, next: nat, ok: bool)
    requires position < |encoded|
    ensures ok <==> First(encoded[position..]).Some?
    ensures ok ==> (c, next - position) == First(encoded[position..]).value
    ensures ok ==> position < next <= |encoded|
  {
    c, next := ' ', position;
    var first := encoded[position];
    if 0 < first < 0x80 { return first as char, position + 1, true; }
    if first / 32 == 6 {
      if position + 1 >= |encoded| || encoded[position + 1] / 64 != 2 { return c, next, false; }
      var value := Eleven(first, encoded[position + 1]);
      if value < 0x80 && !(first == 0xC0 && encoded[position + 1] == 0x80) { return c, next, false; }
      return value as char, position + 2, true;
    }
    if first / 16 == 14 {
      var value, afterHigh, high := DecodeTriple(encoded, position);
      if !high { return c, next, false; }
      assert encoded[position..][3..] == encoded[afterHigh..];
      if 0xD800 <= value <= 0xDBFF {
        var low, afterLow, found := DecodeTriple(encoded, afterHigh);
        if !found || low < 0xDC00 || low > 0xDFFF { return c, next, false; }
        return (0x10000 + (value - 0xD800) * 1024 + (low - 0xDC00)) as char, afterLow, true;
      }
      if 0xDC00 <= value <= 0xDFFF { return c, next, false; }
      return value as char, afterHigh, true;
    }
    return c, next, false;
  }

  /** decodeModifiedUTF8 */
  method DecodeModifiedUTF8(encoded: Bytes) returns (r: Option<string>)
    ensures r == Decode(encoded)
  {
    hide First;
    var runes: string := [];
    var position := 0;
    assert encoded[0..] == encoded;
    if Decode(encoded).Some? { assert runes + Decode(encoded).value == Decode(encoded).value; }
    while position < |encoded|
      invariant 0 <= position <= |encoded|
      invariant Decode(encoded) ==
        (var rest := Decode(encoded[position..]);
         if rest.Some? then Some(runes + rest.value) else None)
    {
      var c, next, ok := DecodeNext(encoded, position);
      if !ok {
        assert Decode(encoded[position..]).None?;
        return None;
      }
      assert encoded[position..][next - position..] == encoded[next..];
      ghost var rest := Decode(encoded[next..]);
      if rest.Some? { assert runes + ([c] + rest.value) == runes + [c] + rest.value; }
      runes := runes + [c];
      position := next;
    }
    assert Decode(encoded[position..]) == Some([]) && runes + [] == runes;
    return Some(runes);
  }

  // ---------------------------------------------------------------- decode undoes encode

  lemma SixteenOf(v: int)
    requires 0 <= v <= 0xFFFF
    ensures Sixteen(224 + v / 4096, 128 + v / 64 % 64, 128 + v % 64) == v
  {
    assert (224 + v / 4096) % 16 == v / 4096 && (128 + v / 64 % 64) % 64 == v / 64 % 64;
    assert v / 64 == v / 4096 * 64 + v / 64 % 64;
  }

  lemma TripleRoundTrip(v: int, rest: Bytes)
    requires 0x800 <= v <= 0xFFFF
    ensures Triple(EncodeTriple(v) + rest) == Some(v)
  {
    var b := EncodeTriple(v) + rest;
    assert b[0] == 224 + v / 4096 && b[1] == 128 + v / 64 % 64 && b[2] == 128 + v % 64;
    SixteenOf(v);
  }

  lemma FirstOfEncoded(c: char, rest: Bytes)
    ensures First(EncodeOne(c) + rest) == Some((c, |EncodeOne(c)|))
  {
    var v := c as int;
    var b := EncodeOne(c) + rest;
    if 0 < v < 0x80 {
    } else if v < 0x800 {
      assert b[0] == 192 + v / 64 && b[1] == 128 + v % 64;
    } else if v < 0x10000 {
      TripleRoundTrip(v, rest);
    } else {
      var high, low := 0xD800 + (v - 0x10000) / 1024, 0xDC00 + (v - 0x10000) % 1024;
      assert b == EncodeTriple(high) + (EncodeTriple(low) + rest);
      assert b[3..] == EncodeTriple(low) + rest;
      TripleRoundTrip(high, EncodeTriple(low) + rest);
      TripleRoundTrip(low, rest);
    }
  }

  /** Every string survives encoding and decoding. */
  lemma {:induction false} DecodeEncode(s: string)
    ensures Decode(Encode(s)) == Some(s)
  {
    if s != "" {
      var one := EncodeOne(s[0]);
      FirstOfEncoded(s[0], Encode(s[1..]));
      assert Encode(s)[|one|..] == Encode(s[1..]);
      DecodeEncode(s[1..]);
      assert Encode(s) != [] && [s[0]] + s[1..] == s;
    }
  }

  // ---------------------------------------------------------------- encode undoes decode

  lemma Digits64(q: int, r: int)
    requires 0 <= r < 64
    ensures (q * 64 + r) / 64 == q && (q * 64 + r) % 64 == r
  {}

  lemma Digits4096(q: int, r: int)
    requires 0 <= r < 4096
    ensures (q * 4096 + r) / 4096 == q
  {}

  lemma SixteenDigits(x: int, y: int, z: int)
    requires 224 <= x < 240 && 128 <= y < 192 && 128 <= z < 192
    ensures var v := Sixteen(x, y, z);
      0 <= v <= 0xFFFF && 224 + v / 4096 == x && 128 + v / 64 % 64 == y && 128 + v % 64 == z
  {
    LowDigits(x, y, z);
    hide Sixteen;
    var high, middle, low := x - 224, y - 128, z - 128;
    Digits64(high * 64 + middle, low);
    Digits64(high, middle);
    Digits4096(high, middle * 64 + low);
  }

  lemma LowDigits(x: int, y: int, z: int)
    requires 224 <= x < 240 && 128 <= y < 192 && 128 <= z < 192
    ensures Sixteen(x, y, z) == ((x - 224) * 64 + (y - 128)) * 64 + (z - 128)
    ensures Sixteen(x, y, z) == (x - 224) * 4096 + ((y - 128) * 64 + (z - 128))
  {
    assert x % 16 == x - 224 && y % 64 == y - 128 && z % 64 == z - 128;
  }

  lemma TripleIsEncoded(b: Bytes)
    requires Triple(b).Some?
    ensures 0x800 <= Triple(b).value <= 0xFFFF
    ensures EncodeTriple(Triple(b).value) == b[..3]
  {
    SixteenDigits(b[0], b[1], b[2]);
  }

  lemma PairIsEncoded(b: Bytes)
    requires |b| >= 2 && b[0] / 32 == 6 && First(b).Some?
    ensures EncodeOne(First(b).value.0) == b[..2]
  {
    var x: int, y: int := b[0], b[1];
    assert Eleven(x, y) == (x - 192) * 64 + (y - 128);
    assert Eleven(x, y) / 64 == x - 192 && Eleven(x, y) % 64 == y - 128;
  }

  lemma SurrogatesSplit(high: int, low: int)
    requires High(high) && Low(low)
    ensures var v := 0x10000 + (high - 0xD800) * 1024 + (low - 0xDC00);
      0x10000 <= v <= 0x10FFFF && 0xD800 + (v - 0x10000) / 1024 == high &&
      0xDC00 + (v - 0x10000) % 1024 == low
  {}

  lemma FirstIsEncoded(b: Bytes)
    requires b != [] && First(b).Some?
    ensures EncodeOne(First(b).value.0) == b[..First(b).value.1]
  {
    if 0 < b[0] < 0x80 {
    } else if b[0] / 32 == 6 {
      PairIsEncoded(b);
    } else if !High(Triple(b).value) {
      TripleIsEncoded(b);
    } else {
      SurrogatesAreEncoded(b);
    }
  }

  lemma SurrogatesAreEncoded(b: Bytes)
    requires b != [] && First(b).Some? && b[0] / 16 == 14 && High(Triple(b).value)
    ensures First(b).value.1 == 6 && EncodeOne(First(b).value.0) == b[..6]
  {
    hide Triple, EncodeTriple;
    var high, low := Triple(b).value, Triple(b[3..]).value;
    TripleIsEncoded(b);
    TripleIsEncoded(b[3..]);
    SurrogatesSplit(high, low);
    assert b[3..][..3] == b[3..6];
    assert b[..6] == b[..3] + b[3..6];
  }

  /** What is accepted is exactly the encoding of what it means. */
  lemma {:induction false} EncodeDecode(b: Bytes)
    requires Decode(b).Some?
    ensures Encode(Decode(b).value) == b
  {
    hide First, EncodeOne;
    if b != [] {
      var n := First(b).value.1;
      FirstIsEncoded(b);
      EncodeDecode(b[n..]);
      assert b == b[..n] + b[n..];
      assert Decode(b).value[1..] == Decode(b[n..]).value;
    }
  }

  /** A byte string is accepted exactly when it encodes a string, and no string has two
      accepted encodings. */
  lemma AcceptedIff(b: Bytes)
    ensures Decode(b).Some? <==> exists s :: Encode(s) == b
    ensures forall c | Decode(b).Some? && Decode(c) == Decode(b) :: c == b
  {
    if Decode(b).Some? {
      EncodeDecode(b);
      forall c | Decode(c) == Decode(b) ensures c == b { EncodeDecode(c); }
    }
    if s :| Encode(s) == b { DecodeEncode(s); }
  }

  // ---------------------------------------------------------------- section 4.4.7

  predicate Between(b: Byte, low: int, high: int) { low <= b <= high }

  /** What a byte carries besides its mark. */
  function Bits(b: Byte, mark: int): int { b as int - mark }

  /** The bytes of one code point as the specification gives them: one byte for 1 to 7F, two
      for NUL and up to 7FF, three up to FFFF, and six for a supplementary character, each with
      the bits it carries. */
  predicate Stands(b: Bytes, v: int) {
    if 1 <= v <= 0x7F then b == [v]
    else if v <= 0x7FF then
      |b| == 2 && Between(b[0], 0xC0, 0xDF) && Between(b[1], 0x80, 0xBF) && v == Bits(b[0], 0xC0) * 0x40 + Bits(b[1], 0x80)
    else if v <= 0xFFFF then
      && |b| == 3 && Between(b[0], 0xE0, 0xEF) && Between(b[1], 0x80, 0xBF) && Between(b[2], 0x80, 0xBF)
      && v == Bits(b[0], 0xE0) * 0x1000 + Bits(b[1], 0x80) * 0x40 + Bits(b[2], 0x80)
    else
      && |b| == 6 && b[0] == 0xED && Between(b[1], 0xA0, 0xAF) && Between(b[2], 0x80, 0xBF)
      && b[3] == 0xED && Between(b[4], 0xB0, 0xBF) && Between(b[5], 0x80, 0xBF)
      && v == 0x1_0000 + Bits(b[1], 0xA0) * 0x1_0000 + Bits(b[2], 0x80) * 0x400 + Bits(b[4], 0xB0) * 0x40 + Bits(b[5], 0x80)
  }

  lemma EncodedAsSpecified(c: char)
    ensures Stands(EncodeOne(c), c as int)
  {
    hide Stands, EncodeTriple;
    var v := c as int;
    if v >= 0x1_0000 {
      Supplementary(v);
    } else if v >= 0x800 {
      ThreeStand(v);
    } else {
      FewStand(c);
    }
  }

  lemma FewStand(c: char)
    requires (c as int) < 0x800
    ensures Stands(EncodeOne(c), c as int)
  {
    hide EncodeTriple;
  }

  lemma ThreeStand(v: int)
    requires 0x800 <= v < 0x1_0000
    ensures Stands(EncodeTriple(v), v)
  {
    assert v / 64 / 64 == v / 4096;
    assert v == v / 4096 * 4096 + v / 64 % 64 * 64 + v % 64;
  }

  lemma Supplementary(v: int)
    requires 0x1_0000 <= v <= 0x10_FFFF
    ensures Stands(EncodeTriple(0xD800 + (v - 0x10000) / 1024) + EncodeTriple(0xDC00 + (v - 0x10000) % 1024), v)
  {
    var h, l := (v - 0x10000) / 1024, (v - 0x10000) % 1024;
    assert 0 <= h < 1024 && v - 0x10000 == h * 1024 + l;
    HighBytes(h);
    LowBytes(l);
  }

  lemma HighBytes(h: int)
    requires 0 <= h < 1024
    ensures EncodeTriple(0xD800 + h) == [0xED, 0xA0 + h / 64, 0x80 + h % 64]
  {}

  lemma LowBytes(l: int)
    requires 0 <= l < 1024
    ensures EncodeTriple(0xDC00 + l) == [0xED, 0xB0 + l / 64, 0x80 + l % 64]
  {}

  /** What is accepted is one such sequence after the other. */
  ghost predicate Spells(b: Bytes, s: string)
    decreases |s|
  {
    if s == "" then b == []
    else exists n | 0 < n <= |b| :: Stands(b[..n], s[0] as int) && Spells(b[n..], s[1..])
  }

  lemma {:induction false} EncodeSpells(s: string)
    ensures Spells(Encode(s), s)
  {
    hide EncodeOne, Stands;
    if s != "" {
      EncodeSpells(s[1..]);
      EncodedAsSpecified(s[0]);
      var b, n := Encode(s), |EncodeOne(s[0])|;
      EncodeOneLength(s[0]);
      assert b[..n] == EncodeOne(s[0]) && b[n..] == Encode(s[1..]);
    }
  }

  lemma EncodeOneLength(c: char)
    ensures |EncodeOne(c)| > 0
  {}

  /** The decoder gives `s` for exactly the byte strings that spell it. */
  lemma {:induction false} DecodedAsSpecified(b: Bytes, s: string)
    ensures Decode(b) == Some(s) <==> Spells(b, s)
  {
    hide Decode, Stands, Encode;
    if Decode(b) == Some(s) {
      EncodeDecode(b);
      EncodeSpells(s);
    }
    if Spells(b, s) {
      SpelledIs(b, s);
      DecodeEncode(s);
    }
  }

  lemma {:induction false} SpelledIs(b: Bytes, s: string)
    requires Spells(b, s)
    ensures b == Encode(s)
    decreases |s|
  {
    hide EncodeOne, Stands;
    if s != "" {
      var n :| 0 < n <= |b| && Stands(b[..n], s[0] as int) && Spells(b[n..], s[1..]);
      EncodedAsSpecified(s[0]);
      OneSpelling(b[..n], EncodeOne(s[0]), s[0] as int);
      SpelledIs(b[n..], s[1..]);
      assert b == b[..n] + b[n..];
    }
  }

  /** Equal numbers have equal digits. */
  lemma By64(a: int, b: int, c: int, d: int)
    requires 0 <= b < 64 && 0 <= d < 64 && a * 64 + b == c * 64 + d
    ensures a == c && b == d
  {}

  lemma By16(a: int, b: int, c: int, d: int)
    requires 0 <= b < 16 && 0 <= d < 16 && a * 16 + b == c * 16 + d
    ensures a == c && b == d
  {}

  lemma OneSpelling(a: Bytes, b: Bytes, v: int)
    requires Stands(a, v) && Stands(b, v) && 0 <= v <= 0x10_FFFF
    ensures a == b
  {
    if v > 0xFFFF {
      SixSpell(a, b, v);
    } else if v > 0x7FF {
      ThreeSpell(a, b, v);
    } else if v == 0 || v > 0x7F {
      By64(Bits(a[0], 0xC0), Bits(a[1], 0x80), Bits(b[0], 0xC0), Bits(b[1], 0x80));
    }
  }

  lemma ThreeSpell(a: Bytes, b: Bytes, v: int)
    requires Stands(a, v) && Stands(b, v) && 0x7FF < v <= 0xFFFF
    ensures a == b
  {
    var (x, y, z) := (Bits(a[0], 0xE0), Bits(a[1], 0x80), Bits(a[2], 0x80));
    var (p, q, r) := (Bits(b[0], 0xE0), Bits(b[1], 0x80), Bits(b[2], 0x80));
    By64(x * 64 + y, z, p * 64 + q, r);
    By64(x, y, p, q);
  }

  lemma SixSpell(a: Bytes, b: Bytes, v: int)
    requires Stands(a, v) && Stands(b, v) && 0xFFFF < v
    ensures a == b
  {
    var (w, x, y, z) := (Bits(a[1], 0xA0), Bits(a[2], 0x80), Bits(a[4], 0xB0), Bits(a[5], 0x80));
    var (o, p, q, r) := (Bits(b[1], 0xA0), Bits(b[2], 0x80), Bits(b[4], 0xB0), Bits(b[5], 0x80));
    By64((w * 64 + x) * 16 + y, z, (o * 64 + p) * 16 + q, r);
    By16(w * 64 + x, y, o * 64 + p, q);
    By64(w, x, o, p);
  }
}
