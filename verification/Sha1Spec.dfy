/** SHA-1 as FIPS 180-4 defines it, on messages of whole bytes. */
module Sha1Spec {

  type Byte = bv8
  type Word = bv32

  /** The chaining value, five words. */
  datatype Hash = Hash(a: Word, b: Word, c: Word, d: Word, e: Word)

  /** Section 5.3.1. */
  const H0 := Hash(0x67452301, 0xEFCDAB89, 0x98BADCFE, 0x10325476, 0xC3D2E1F0)

  /** ROTL of section 3.2, for the three amounts SHA-1 uses. */
  function Rotl1(x: Word): Word { x.RotateLeft(1) }
  function Rotl5(x: Word): Word { x.RotateLeft(5) }
  function Rotl30(x: Word): Word { x.RotateLeft(30) }

  function Plus(x: Word, y: Word): Word { x + y }
  function Xor4(x: Word, y: Word, z: Word, v: Word): Word { x ^ y ^ z ^ v }

  // ---- Section 4.1.1: Ch, Parity, Maj. Section 4.2.1: the constants ---------------------

  function Ch(x: Word, y: Word, z: Word): Word { (x & y) ^ (!x & z) }
  function Parity(x: Word, y: Word, z: Word): Word { x ^ y ^ z }
  function Maj(x: Word, y: Word, z: Word): Word { (x & y) ^ (x & z) ^ (y & z) }

  function F(t: nat, x: Word, y: Word, z: Word): Word {
    if t < 20 then Ch(x, y, z) else if t < 40 then Parity(x, y, z) else if t < 60 then Maj(x, y, z) else Parity(x, y, z)
  }

  function K(t: nat): Word {
    if t < 20 then 0x5A827999 else if t < 40 then 0x6ED9EBA1 else if t < 60 then 0x8F1BBCDC else 0xCA62C1D6
  }

  // ---- Section 5.1.1: padding ---------------------------------------------------------------

  /** The zero bytes after 0x80: as few as make the length 56 modulo 64. */
  function ZeroBytes(n: nat): nat {
    (119 - n % 64) % 64
  }

  predicate Fits(n: nat, z: nat) { (n + 1 + z) % 64 == 56 }

  lemma ZeroBytesIsLeast(n: nat)
    ensures Fits(n, ZeroBytes(n)) && forall z: nat | Fits(n, z) :: ZeroBytes(n) <= z
  {
    var r := n % 64;
    assert ZeroBytes(n) == ZeroBytes(r);
    forall z: nat ensures Fits(n, z) <==> Fits(r, z) { FitsModulo(n, z); }
    forall z: nat ensures Fits(r, ZeroBytes(r)) && (Fits(r, z) ==> ZeroBytes(r) <= z) { FitsSmall(r, z); }
    hide Fits, ZeroBytes;
  }

  lemma FitsModulo(n: nat, z: nat)
    ensures Fits(n, z) <==> Fits(n % 64, z)
  {}

  lemma FitsSmall(r: nat, z: nat)
    requires r < 64
    ensures Fits(r, ZeroBytes(r)) && (Fits(r, z) ==> ZeroBytes(r) <= z)
  {
    var y := if r <= 55 then 55 - r else 119 - r;
    Below128(r % 64);
    Below128(119 - r);
    Below128(r + 1 + y);
    if z < y { Below128(r + 1 + z); }
  }

  lemma Below128(x: nat)
    requires x < 128
    ensures x % 64 == if x < 64 then x else x - 64
  {}

  function Pow256(i: nat): nat {
    if i == 0 then 1 else 256 * Pow256(i - 1)
  }

  lemma {:induction false} Pow256Positive(i: nat)
    ensures Pow256(i) > 0
  {
    if i > 0 { Pow256Positive(i - 1); }
  }

  /** A length in bits as eight bytes, most significant first. */
  function Be64(n: nat): (r: seq<Byte>)
    ensures |r| == 8
  {
    seq(8, i requires 0 <= i < 8 => BeByte(n, i))
  }

  function BeByte(n: nat, i: nat): Byte
    requires i < 8
  {
    Pow256Positive(7 - i);
    (n / Pow256(7 - i) % 256) as Byte
  }

  function Zeros(n: nat): seq<Byte> { seq(n, _ => 0) }

  function Pad(m: seq<Byte>): seq<Byte> {
    m + [0x80] + Zeros(ZeroBytes(|m|)) + Be64(8 * |m|)
  }

  // ---- Section 6.1.2 ----------------------------------------------------------------------------

  function Be32(b0: Byte, b1: Byte, b2: Byte, b3: Byte): Word {
    ((b0 as Word) << 24) | ((b1 as Word) << 16) | ((b2 as Word) << 8) | (b3 as Word)
  }

  /** The message schedule. */
  function W(block: seq<Byte>, t: nat): Word
    requires |block| == 64
  {
    if t < 16 then Be32(block[4 * t], block[4 * t + 1], block[4 * t + 2], block[4 * t + 3])
    else Rotl1(Xor4(W(block, t - 3), W(block, t - 8), W(block, t - 14), W(block, t - 16)))
  }

  function Round(v: Hash, t: nat, w: Word): Hash {
    Hash(Plus(Plus(Plus(Plus(Rotl5(v.a), F(t, v.b, v.c, v.d)), v.e), K(t)), w), v.a, Rotl30(v.b), v.c, v.d)
  }

  function Rounds(v: Hash, block: seq<Byte>, t: nat): Hash
    requires |block| == 64
  {
    if t == 0 then v else Round(Rounds(v, block, t - 1), t - 1, W(block, t - 1))
  }

  function Compress(h: Hash, block: seq<Byte>): Hash
    requires |block| == 64
  {
    var v := Rounds(h, block, 80);
    Hash(Plus(h.a, v.a), Plus(h.b, v.b), Plus(h.c, v.c), Plus(h.d, v.d), Plus(h.e, v.e))
  }

  /** Section 5.2.1: the whole 64-byte blocks of a byte string, in order. */
  function HashBlocks(h: Hash, m: seq<Byte>): Hash
    decreases |m|
  {
    if |m| < 64 then h else HashBlocks(Compress(h, m[..64]), m[64..])
  }

  function WordBytes(x: Word): (r: seq<Byte>)
    ensures |r| == 4
  {
    [(x >> 24) as Byte, ((x >> 16) & 0xFF) as Byte, ((x >> 8) & 0xFF) as Byte, (x & 0xFF) as Byte]
  }

  function Digest(m: seq<Byte>): (r: seq<Byte>)
    ensures |r| == 20
  {
    var h := HashBlocks(H0, Pad(m));
    WordBytes(h.a) + WordBytes(h.b) + WordBytes(h.c) + WordBytes(h.d) + WordBytes(h.e)
  }

  // ---- Facts ---------------------------------------------------------------------------------

  /** Padding makes whole blocks. */
  lemma PadWhole(m: seq<Byte>)
    ensures |Pad(m)| % 64 == 0
  {
    ZeroBytesIsLeast(|m|);
    EightMore(|m|, ZeroBytes(|m|));
    hide Fits, ZeroBytes;
  }

  lemma EightMore(n: nat, z: nat)
    requires Fits(n, z)
    ensures (n + 1 + z + 8) % 64 == 0
  {}

  /** Blocks are absorbed in order: hashing a then one more block. */
  lemma {:induction false} OneMoreBlock(h: Hash, a: seq<Byte>, b: seq<Byte>)
    requires |a| % 64 == 0 && |b| == 64
    ensures HashBlocks(h, a + b) == Compress(HashBlocks(h, a), b)
    decreases |a|
  {
    hide Compress;
    if a == [] {
      assert a + b == b && b[..64] == b && b[64..] == [];
    } else {
      assert (a + b)[..64] == a[..64] && (a + b)[64..] == a[64..] + b;
      OneMoreBlock(Compress(h, a[..64]), a[64..], b);
    }
  }
}
