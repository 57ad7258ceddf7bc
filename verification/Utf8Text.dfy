/** UTF-8 as section 3 of RFC 3629 defines it: the bytes of each character, by its number. A
    Dafny `char` is exactly a Unicode scalar value. */
module Utf8Text {
  import opened Words
  import opened PycRecords
  import JvmDescriptors

  function Spelled(c: char): Bytes {
    var v := c as int;
    if v < 0x80 then [v]
    else if v < 0x800 then [192 + v / 64, 128 + v % 64]
    else if v < 0x10000 then [224 + v / 4096, 128 + v / 64 % 64, 128 + v % 64]
    else [240 + v / 262144, 128 + v / 4096 % 64, 128 + v / 64 % 64, 128 + v % 64]
  }

  function AllSpelled(s: string): Bytes {
    if s == [] then [] else Spelled(s[0]) + AllSpelled(s[1..])
  }

  /** The check by leading and continuation bytes accepts what begins with a character. */
  lemma OneMore(c: char, rest: Bytes)
    ensures Utf8(Spelled(c) + rest) <==> Utf8(rest)
  {
    var v, b := c as int, Spelled(c) + rest;
    assert b[|Spelled(c)|..] == rest;
    assert forall i | 0 <= i < |Spelled(c)| :: b[i] == Spelled(c)[i];
    Places(v);
  }

  lemma Places(v: int)
    requires 0 <= v < 0xD800 || 0xE000 <= v <= 0x10FFFF
    ensures 128 <= 128 + v % 64 < 192 && 128 <= 128 + v / 64 % 64 < 192 && 128 <= 128 + v / 4096 % 64 < 192
    ensures v < 0x1000 ==> v / 64 % 64 == v / 64
    ensures 0xD000 <= v < 0xE000 ==> v / 4096 == 13 && v / 64 % 64 == v / 64 - 832
    ensures 0x10000 <= v < 0x40000 ==> v / 4096 % 64 == v / 4096
    ensures 0x100000 <= v ==> v / 262144 == 4 && v / 4096 % 64 == v / 4096 - 256
  {}

  lemma Split(a: nat, b: nat)
    requires b < 64
    ensures (a * 64 + b) / 64 == a && (a * 64 + b) % 64 == b
  {}

  /** The six bits of each continuation byte. */
  lemma Sixes(o: nat, p: nat, q: nat, r: nat)
    requires p < 64 && q < 64 && r < 64
    ensures var v := o * 262144 + p * 4096 + q * 64 + r;
      v % 64 == r && v / 64 % 64 == q && v / 4096 % 64 == p && v / 262144 == o && v / 64 / 64 == o * 64 + p
  {
    var v := o * 262144 + p * 4096 + q * 64 + r;
    var w := o * 4096 + p * 64 + q;
    Split(w, r);
    assert w * 64 + r == v;
    Split(o * 64 + p, q);
    assert (o * 64 + p) * 64 + q == w;
    Split(o, p);
    assert v / 4096 == w / 64 == o * 64 + p;
    assert v / 262144 == (o * 64 + p) / 64;
  }

  /** A first character, if there is one. */
  lemma Begins(b: Bytes) returns (c: char)
    requires b != [] && Utf8(b)
    ensures Spelled(c) <= b && Utf8(b[|Spelled(c)|..])
  {
    hide Spelled;
    var lead: int := b[0];
    if lead < 0x80 {
      c := One(b);
    } else if lead <= 0xDF {
      c := Two(b);
    } else if lead <= 0xEF {
      c := Three(b);
    } else {
      c := Four(b);
    }
  }

  lemma One(b: Bytes) returns (c: char)
    requires b != [] && b[0] < 0x80
    ensures Spelled(c) == b[..1]
  {
    var v: int := b[0];
    c := v as char;
  }

  lemma Two(b: Bytes) returns (c: char)
    requires b != [] && 0xC2 <= b[0] <= 0xDF && Continues(b, 1)
    ensures Spelled(c) == b[..2]
  {
    var x: int, y: int := b[0], b[1];
    Split(x - 192, y - 128);
    c := ((x - 192) * 64 + (y - 128)) as char;
  }

  lemma Three(b: Bytes) returns (c: char)
    requires b != [] && 0xE0 <= b[0] <= 0xEF && Continues(b, 1) && Continues(b, 2)
    requires (b[0] == 0xE0 ==> b[1] >= 0xA0) && (b[0] == 0xED ==> b[1] <= 0x9F)
    ensures Spelled(c) == b[..3]
  {
    var x: int, y: int, z: int := b[0], b[1], b[2];
    Sixes(0, x - 224, y - 128, z - 128);
    c := ((x - 224) * 4096 + (y - 128) * 64 + (z - 128)) as char;
  }

  lemma Four(b: Bytes) returns (c: char)
    requires b != [] && 0xF0 <= b[0] <= 0xF4 && Continues(b, 1) && Continues(b, 2) && Continues(b, 3)
    requires (b[0] == 0xF0 ==> b[1] >= 0x90) && (b[0] == 0xF4 ==> b[1] <= 0x8F)
    ensures Spelled(c) == b[..4]
  {
    var x: int, y: int, z: int, w: int := b[0], b[1], b[2], b[3];
    Sixes(x - 240, y - 128, z - 128, w - 128);
    c := ((x - 240) * 262144 + (y - 128) * 4096 + (z - 128) * 64 + (w - 128)) as char;
  }

  lemma {:induction false} Read(b: Bytes) returns (s: string)
    requires Utf8(b)
    ensures AllSpelled(s) == b
    decreases |b|
  {
    if b == [] {
      s := [];
    } else {
      hide Utf8, Spelled;
      var c := Begins(b);
      Lengths(c);
      assert b == Spelled(c) + b[|Spelled(c)|..];
      var rest := Read(b[|Spelled(c)|..]);
      s := [c] + rest;
      assert s[1..] == rest;
    }
  }

  lemma Lengths(c: char)
    ensures 1 <= |Spelled(c)| <= 4
  {}

  lemma {:induction false} Reads(s: string)
    ensures Utf8(AllSpelled(s))
  {
    hide Spelled;
    if s != [] {
      Reads(s[1..]);
      OneMore(s[0], AllSpelled(s[1..]));
    }
  }

  /** The bytes spell a text. */
  ghost predicate IsUtf8(b: Bytes) { exists s :: AllSpelled(s) == b }

  /** The check accepts exactly what spells a text. */
  lemma ValidIff(b: Bytes)
    ensures Utf8(b) <==> IsUtf8(b)
  {
    hide Utf8;
    if Utf8(b) { var s := Read(b); }
    if IsUtf8(b) {
      var s :| AllSpelled(s) == b;
      Reads(s);
    }
  }

  lemma FirstSpelled(s: string)
    ensures AllSpelled(s) == if s == "" then [] else Spelled(s[0]) + AllSpelled(s[1..])
  {
    hide Spelled;
  }

  lemma {:induction false} SpelledParts(a: string, b: string)
    ensures AllSpelled(a + b) == AllSpelled(a) + AllSpelled(b)
  {
    hide Spelled, AllSpelled;
    FirstSpelled(a);
    if a == "" {
      assert a + b == b;
    } else {
      SpelledParts(a[1..], b);
      FirstSpelled(a + b);
      assert (a + b)[1..] == a[1..] + b && (a + b)[0] == a[0];
    }
  }

  /** Lengths of strings are lengths in these bytes. */
  lemma {:induction false} LengthIsBytes(s: string)
    ensures JvmDescriptors.Length(s) == |AllSpelled(s)|
  {
    if s != "" {
      var front, c := s[..|s| - 1], s[|s| - 1];
      LengthIsBytes(front);
      SpelledParts(front, [c]);
      FirstSpelled([c]);
      FirstSpelled([c][1..]);
      assert s == front + [c];
    }
  }
}
