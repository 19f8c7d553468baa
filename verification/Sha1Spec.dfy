// SHA-1 as sections 4.1.1, 5.1.1, 5.3.1 and 6.1.2 of FIPS 180-4 define it.
module Sha1Spec {
  type Byte = bv8
  type Word = bv32

  const BLOCK: nat := 64

  // The hash value, and the five working variables
  datatype Registers = Registers(a: Word, b: Word, c: Word, d: Word, e: Word)

  const INITIAL := Registers(0x67452301, 0xEFCDAB89, 0x98BADCFE, 0x10325476, 0xC3D2E1F0)

  function Rotl1(x: Word): Word { (x << 1) | (x >> 31) }
  function Rotl5(x: Word): Word { (x << 5) | (x >> 27) }
  function Rotl30(x: Word): Word { (x << 30) | (x >> 2) }

  // Addition modulo 2^32
  function Plus(x: Word, y: Word): Word { x + y }
  function Plus5(x: Word, y: Word, z: Word, u: Word, v: Word): Word { x + y + z + u + v }

  function Ch(x: Word, y: Word, z: Word): Word { (x & y) ^ (!x & z) }
  function Parity(x: Word, y: Word, z: Word): Word { x ^ y ^ z }
  function Maj(x: Word, y: Word, z: Word): Word { (x & y) ^ (x & z) ^ (y & z) }

  function F(t: nat, x: Word, y: Word, z: Word): Word {
    if t < 20 then Ch(x, y, z) else if t < 40 then Parity(x, y, z) else if t < 60 then Maj(x, y, z) else Parity(x, y, z)
  }

  function K(t: nat): Word {
    if t < 20 then 0x5A827999 else if t < 40 then 0x6ED9EBA1 else if t < 60 then 0x8F1BBCDC else 0xCA62C1D6
  }

  // Four bytes, the most significant first
  function WordOf(b0: Byte, b1: Byte, b2: Byte, b3: Byte): Word {
    ((b0 as Word) << 24) | ((b1 as Word) << 16) | ((b2 as Word) << 8) | (b3 as Word)
  }

  // The message schedule
  function W(block: seq<Byte>, t: nat): Word
    requires |block| == BLOCK
  {
    if t < 16 then WordOf(block[4 * t], block[4 * t + 1], block[4 * t + 2], block[4 * t + 3])
    else Expanded(W(block, t - 3), W(block, t - 8), W(block, t - 14), W(block, t - 16))
  }

  function Expanded(w3: Word, w8: Word, w14: Word, w16: Word): Word {
    Rotl1(w3 ^ w8 ^ w14 ^ w16)
  }

  function Round(r: Registers, t: nat, w: Word): Registers {
    Registers(Plus5(Rotl5(r.a), F(t, r.b, r.c, r.d), r.e, K(t), w), r.a, Rotl30(r.b), r.c, r.d)
  }

  function Rounds(r: Registers, block: seq<Byte>, t: nat): Registers
    requires |block| == BLOCK
  {
    if t == 0 then r else Round(Rounds(r, block, t - 1), t - 1, W(block, t - 1))
  }

  function Sum(r: Registers, s: Registers): Registers {
    Registers(Plus(r.a, s.a), Plus(r.b, s.b), Plus(r.c, s.c), Plus(r.d, s.d), Plus(r.e, s.e))
  }

  function Compress(h: Registers, block: seq<Byte>): Registers
    requires |block| == BLOCK
  {
    Sum(h, Rounds(h, block, 80))
  }

  // The hash value after the blocks of `m`
  function HashBlocks(m: seq<Byte>): Registers
    requires |m| % BLOCK == 0
  {
    if m == [] then INITIAL else Compress(HashBlocks(m[..|m| - BLOCK]), m[|m| - BLOCK..])
  }

  // The byte of a number that has `8 * k` bits below it
  function ByteAt(n: nat, k: nat): Byte {
    if k == 0 then (n % 256) as Byte else ByteAt(n / 256, k - 1)
  }

  function LengthField(n: nat): seq<Byte> {
    [ByteAt(n, 7), ByteAt(n, 6), ByteAt(n, 5), ByteAt(n, 4), ByteAt(n, 3), ByteAt(n, 2), ByteAt(n, 1), ByteAt(n, 0)]
  }

  function Zeros(k: nat): seq<Byte> {
    seq(k, i => 0)
  }

  // The message with the 1 bit and the fewest 0 bits that leave room for a length
  function Marked(m: seq<Byte>): seq<Byte> {
    m + [0x80] + Zeros((119 - |m| % BLOCK) % BLOCK)
  }

  // Byte `k` of a word, the most significant first
  function WordByte(w: Word, k: nat): Byte
    requires k < 4
  {
    ((w >> (8 * (3 - k))) & 255) as Byte
  }

  function Register(r: Registers, k: nat): Word
    requires k < 5
  {
    if k == 0 then r.a else if k == 1 then r.b else if k == 2 then r.c else if k == 3 then r.d else r.e
  }

  // The words of the hash value one after the other
  function RegisterBytes(r: Registers): seq<Byte> {
    seq(20, i requires 0 <= i < 20 => WordByte(Register(r, i / 4), i % 4))
  }

  // The digest of `m` when `n` stands in the length field
  function DigestWith(m: seq<Byte>, n: nat): seq<Byte> {
    MarkedLength(m);
    RegisterBytes(HashBlocks(Marked(m) + LengthField(n)))
  }

  function Sha1(m: seq<Byte>): seq<Byte> {
    DigestWith(m, 8 * |m|)
  }

  lemma MarkedLength(m: seq<Byte>)
    ensures |Marked(m)| % BLOCK == 56
    ensures |m| < |Marked(m)| <= |m| + BLOCK
  {
    var q, r := |m| / BLOCK, |m| % BLOCK;
    assert |Marked(m)| == if r < 56 then BLOCK * q + 56 else BLOCK * (q + 1) + 56;
  }
}
