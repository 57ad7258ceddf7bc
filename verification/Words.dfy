/** Machine words and byte strings. */
module Words {
  const MAX_UINT64 := 0xFFFF_FFFF_FFFF_FFFF
  const MAX_INT64 := 0x7FFF_FFFF_FFFF_FFFF

  newtype uint64 = x: int | 0 <= x <= 0xFFFF_FFFF_FFFF_FFFF
  newtype int64 = x: int | -0x8000_0000_0000_0000 <= x <= 0x7FFF_FFFF_FFFF_FFFF

  type Byte = x: int | 0 <= x < 256
  type Bytes = seq<Byte>

  function Power256(n: nat): nat { if n == 0 then 1 else 256 * Power256(n - 1) }

  /** binary.LittleEndian */
  function Little(b: Bytes): (r: nat)
    ensures r < Power256(|b|)
  {
    if b == [] then 0 else b[0] + 256 * Little(b[1..])
  }

  /** The bytes of a number, least significant first. */
  function LittleBytes(v: nat, n: nat): (b: Bytes)
    ensures |b| == n
  {
    if n == 0 then [] else [v % 256] + LittleBytes(v / 256, n - 1)
  }

  lemma {:induction false} LittleBack(v: nat, n: nat)
    requires v < Power256(n)
    ensures Little(LittleBytes(v, n)) == v
  {
    if n > 0 {
      LittleBack(v / 256, n - 1);
      assert LittleBytes(v, n)[1..] == LittleBytes(v / 256, n - 1);
    }
  }

  lemma {:induction false} BytesOfLittle(b: Bytes)
    ensures LittleBytes(Little(b), |b|) == b
  {
    if b != [] {
      BytesOfLittle(b[1..]);
      assert Little(b) / 256 == Little(b[1..]) && Little(b) % 256 == b[0];
    }
  }

  /** binary.BigEndian */
  function Big(b: Bytes): (r: nat)
    ensures r < Power256(|b|)
  {
    if b == [] then 0 else Big(b[..|b| - 1]) * 256 + b[|b| - 1]
  }

  /** The bytes of a number, most significant first. */
  function BigBytes(v: nat, n: nat): (b: Bytes)
    ensures |b| == n
  {
    if n == 0 then [] else BigBytes(v / 256, n - 1) + [v % 256]
  }

  lemma {:induction false} BigOfBytes(v: nat, n: nat)
    requires v < Power256(n)
    ensures Big(BigBytes(v, n)) == v
  {
    if n > 0 {
      BigOfBytes(v / 256, n - 1);
      assert BigBytes(v, n)[..n - 1] == BigBytes(v / 256, n - 1);
    }
  }

  lemma {:induction false} BytesOfBig(b: Bytes)
    ensures BigBytes(Big(b), |b|) == b
  {
    if b != [] {
      BytesOfBig(b[..|b| - 1]);
      assert Big(b) / 256 == Big(b[..|b| - 1]) && Big(b) % 256 == b[|b| - 1];
    }
  }

  lemma Powers()
    ensures Power256(1) == 0x100 && Power256(2) == 0x1_0000
    ensures Power256(4) == 0x1_0000_0000 && Power256(8) == 0x1_0000_0000_0000_0000
  {
    assert Power256(2) == 256 * Power256(1);
    assert Power256(3) == 256 * Power256(2);
    assert Power256(4) == 256 * Power256(3);
    assert Power256(5) == 256 * Power256(4);
    assert Power256(6) == 256 * Power256(5);
    assert Power256(7) == 256 * Power256(6);
  }
}
