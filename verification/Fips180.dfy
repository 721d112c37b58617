/**
 The Secure Hash Standard's SHA-256 (FIPS 180-4), stated on whole messages: the functions of
 section 4.1.2, the padding of 5.1.1, the parsing of 5.2.1 and the computation of 6.2.2.
 */
module Fips180 {
  import opened Arithmetic

  type Word = n: int | 0 <= n < 0x1_0000_0000
  type Byte = n: int | 0 <= n < 256

  // ---- section 3.2: operations on 32-bit words, a word being the number its bits spell ----

  function Pow2(n: nat): (r: nat)
    ensures r >= 1
  {
    if n == 0 then 1 else 2 * Pow2(n - 1)
  }

  /** A bitwise operation, bit by bit from the low end. */
  function Bitwise(op: (bool, bool) -> bool, x: nat, y: nat): nat
    decreases x + y
  {
    if x == 0 && y == 0 then 0
    else 2 * Bitwise(op, x / 2, y / 2) + if op(x % 2 == 1, y % 2 == 1) then 1 else 0
  }

  lemma {:induction false} BitwiseBound(op: (bool, bool) -> bool, x: nat, y: nat, n: nat)
    requires x < Pow2(n) && y < Pow2(n)
    ensures Bitwise(op, x, y) < Pow2(n)
    decreases n
  {
    if n > 0 && (x > 0 || y > 0) {
      BitwiseBound(op, x / 2, y / 2, n - 1);
    }
  }

  lemma Pow2Of32()
    ensures Pow2(32) == 0x1_0000_0000
  {
    assert Pow2(8) == 256;
    assert Pow2(16) == 65536;
    assert Pow2(24) == 16777216;
  }

  function Word32(op: (bool, bool) -> bool, x: Word, y: Word): Word {
    Pow2Of32();
    BitwiseBound(op, x, y, 32);
    Bitwise(op, x, y)
  }

  function And(x: Word, y: Word): Word { Word32((p, q) => p && q, x, y) }
  function Or(x: Word, y: Word): Word { Word32((p, q) => p || q, x, y) }
  function Xor(x: Word, y: Word): Word { Word32((p: bool, q: bool) => p != q, x, y) }
  function Not(x: Word): Word { 0xffff_ffff - x }
  function Add(x: Word, y: Word): Word { (x + y) % 0x1_0000_0000 }
  function Shr(x: Word, n: nat): Word { ShrBound(x, Pow2(n)); x / Pow2(n) }
  function Shl(x: Word, n: nat): Word { (x * Pow2(n)) % 0x1_0000_0000 }

  lemma ShrBound(x: nat, d: nat)
    requires d >= 1
    ensures 0 <= x / d <= x
  {
    assert x <= x * d;
  }

  // Section 4.2.2, in rows of eight.
  const K0: seq<Word> := [
    0x428a2f98, 0x71374491, 0xb5c0fbcf, 0xe9b5dba5, 0x3956c25b, 0x59f111f1, 0x923f82a4, 0xab1c5ed5]
  const K1: seq<Word> := [
    0xd807aa98, 0x12835b01, 0x243185be, 0x550c7dc3, 0x72be5d74, 0x80deb1fe, 0x9bdc06a7, 0xc19bf174]
  const K2: seq<Word> := [
    0xe49b69c1, 0xefbe4786, 0x0fc19dc6, 0x240ca1cc, 0x2de92c6f, 0x4a7484aa, 0x5cb0a9dc, 0x76f988da]
  const K3: seq<Word> := [
    0x983e5152, 0xa831c66d, 0xb00327c8, 0xbf597fc7, 0xc6e00bf3, 0xd5a79147, 0x06ca6351, 0x14292967]
  const K4: seq<Word> := [
    0x27b70a85, 0x2e1b2138, 0x4d2c6dfc, 0x53380d13, 0x650a7354, 0x766a0abb, 0x81c2c92e, 0x92722c85]
  const K5: seq<Word> := [
    0xa2bfe8a1, 0xa81a664b, 0xc24b8b70, 0xc76c51a3, 0xd192e819, 0xd6990624, 0xf40e3585, 0x106aa070]
  const K6: seq<Word> := [
    0x19a4c116, 0x1e376c08, 0x2748774c, 0x34b0bcb5, 0x391c0cb3, 0x4ed8aa4a, 0x5b9cca4f, 0x682e6ff3]
  const K7: seq<Word> := [
    0x748f82ee, 0x78a5636f, 0x84c87814, 0x8cc70208, 0x90befffa, 0xa4506ceb, 0xbef9a3f7, 0xc67178f2]
  const K: seq<Word> := K0 + K1 + K2 + K3 + K4 + K5 + K6 + K7

  /** Section 5.3.3. */
  const INITIAL: seq<Word> := [
    0x6a09e667, 0xbb67ae85, 0x3c6ef372, 0xa54ff53a, 0x510e527f, 0x9b05688c, 0x1f83d9ab, 0x5be0cd19]

  /** Section 6.2.2: H(0). */
  function H0(): (r: seq<Word>)
    ensures |r| == 8
  {
    seq(8, i requires 0 <= i < 8 => INITIAL[i])
  }

  function Rotr(x: Word, n: nat): Word
    requires n < 32
  {
    Or(Shr(x, n), Shl(x, 32 - n))
  }

  // Section 4.1.2.
  function Ch(x: Word, y: Word, z: Word): Word { Xor(And(x, y), And(Not(x), z)) }
  function Maj(x: Word, y: Word, z: Word): Word { Xor(Xor(And(x, y), And(x, z)), And(y, z)) }
  function BigSigma0(x: Word): Word { Xor(Xor(Rotr(x, 2), Rotr(x, 13)), Rotr(x, 22)) }
  function BigSigma1(x: Word): Word { Xor(Xor(Rotr(x, 6), Rotr(x, 11)), Rotr(x, 25)) }
  function SmallSigma0(x: Word): Word { Xor(Xor(Rotr(x, 7), Rotr(x, 18)), Shr(x, 3)) }
  function SmallSigma1(x: Word): Word { Xor(Xor(Rotr(x, 17), Rotr(x, 19)), Shr(x, 10)) }

  function FourBytes(b0: int, b1: int, b2: int, b3: int): Word
    requires 0 <= b0 < 256 && 0 <= b1 < 256 && 0 <= b2 < 256 && 0 <= b3 < 256
  {
    b0 * 0x100_0000 + b1 * 0x1_0000 + b2 * 0x100 + b3
  }

  /** Section 5.2.1: word t of a 64-byte block, first byte most significant. */
  function BlockWord(block: seq<Byte>, t: nat): Word
    requires |block| == 64 && t < 16
  {
    FourBytes(block[4 * t], block[4 * t + 1], block[4 * t + 2], block[4 * t + 3])
  }

  function BlockWords(block: seq<Byte>): (w: seq<Word>)
    requires |block| == 64
    ensures |w| == 16
  {
    seq(16, t requires 0 <= t < 16 => BlockWord(block, t))
  }

  /** Section 6.2.2 step 1: the message schedule, from its first words on. */
  function Schedule(w: seq<Word>): (r: seq<Word>)
    requires 16 <= |w| <= 64
    ensures |r| == 64
    decreases 64 - |w|
  {
    if |w| == 64 then w else Schedule(w + [ScheduleWord(w[|w| - 2], w[|w| - 7], w[|w| - 15], w[|w| - 16])])
  }

  function ScheduleWord(w2: Word, w7: Word, w15: Word, w16: Word): Word {
    Add(Add(Add(SmallSigma1(w2), w7), SmallSigma0(w15)), w16)
  }

  datatype Vars = Vars(a: Word, b: Word, c: Word, d: Word, e: Word, f: Word, g: Word, h: Word)

  /** Section 6.2.2 step 3. */
  function Round(v: Vars, k: Word, w: Word): Vars {
    var t1 := Add(Add(Add(Add(v.h, BigSigma1(v.e)), Ch(v.e, v.f, v.g)), k), w);
    var t2 := Add(BigSigma0(v.a), Maj(v.a, v.b, v.c));
    Vars(Add(t1, t2), v.a, v.b, v.c, Add(v.d, t1), v.e, v.f, v.g)
  }

  /** The rounds for the schedule words w. */
  function Rounds(v: Vars, w: seq<Word>): Vars
    requires |w| <= 64
  {
    if w == [] then v else Round(Rounds(v, w[..|w| - 1]), K[|w| - 1], w[|w| - 1])
  }

  function VarsOf(h: seq<Word>): Vars
    requires |h| == 8
  {
    Vars(h[0], h[1], h[2], h[3], h[4], h[5], h[6], h[7])
  }

  function AddVars(h: seq<Word>, v: Vars): (r: seq<Word>)
    requires |h| == 8
    ensures |r| == 8
  {
    [Add(h[0], v.a), Add(h[1], v.b), Add(h[2], v.c), Add(h[3], v.d),
     Add(h[4], v.e), Add(h[5], v.f), Add(h[6], v.g), Add(h[7], v.h)]
  }

  /** Section 6.2.2 steps 2 and 4. */
  function Compress(h: seq<Word>, block: seq<Byte>): (r: seq<Word>)
    requires |h| == 8 && |block| == 64
    ensures |r| == 8
  {
    AddVars(h, Rounds(VarsOf(h), Schedule(BlockWords(block))))
  }

  /** The intermediate hash value after all the blocks of m. */
  function Blocks(m: seq<Byte>): (r: seq<Word>)
    requires |m| % 64 == 0
    ensures |r| == 8
  {
    if m == [] then H0() else Compress(Blocks(m[..|m| - 64]), m[|m| - 64..])
  }

  function Zeros(k: nat): seq<Byte> { seq(k, _ => 0) }

  /** n as `count` bytes, most significant first. */
  function BigEndian(n: nat, count: nat): (r: seq<Byte>)
    ensures |r| == count
  {
    if count == 0 then [] else var low: Byte := n % 256; BigEndian(n / 256, count - 1) + [low]
  }

  function ValueOf(bytes: seq<Byte>): nat {
    if bytes == [] then 0 else ValueOf(bytes[..|bytes| - 1]) * 256 + bytes[|bytes| - 1] as int
  }

  /** Section 5.1.1 in whole bytes: how many zero bytes follow the byte 0x80. */
  function ZeroBytes(length: nat): nat { (55 - length % 64 + 64) % 64 }

  function Pad(m: seq<Byte>, bits: nat): seq<Byte> { m + [0x80] + Zeros(ZeroBytes(|m|)) + BigEndian(bits, 8) }

  lemma PadIsWholeBlocks(m: seq<Byte>, bits: nat)
    ensures |Pad(m, bits)| % 64 == 0
  {
  }

  /** The hash of a message of at most 2^64 - 1 bits, eight words. */
  function Hash(m: seq<Byte>): (r: seq<Word>)
    requires |m| < 0x2000_0000_0000_0000
    ensures |r| == 8
  {
    PadIsWholeBlocks(m, 8 * |m|);
    Blocks(Pad(m, 8 * |m|))
  }

  /** The zero bytes are the fewest that leave eight bytes in the last block: with 7 more zero bits in the byte
      0x80, k = 7 + 8 * zeros is the least solution of l + 1 + k = 448 modulo 512. */
  lemma PaddingIsLeast(length: nat, zeros: nat)
    ensures (8 * length + 1 + (7 + 8 * ZeroBytes(length))) % 512 == 448
    ensures (8 * length + 1 + (7 + 8 * zeros)) % 512 == 448 ==> ZeroBytes(length) <= zeros
  {
    PaddingInBytes(length, ZeroBytes(length));
    PaddingInBytes(length, zeros);
  }

  lemma PaddingInBytes(length: nat, zeros: nat)
    ensures (8 * length + 1 + (7 + 8 * zeros)) % 512 == 448 <==> (length + 1 + zeros) % 64 == 56
    ensures (length + 1 + zeros) % 64 == 56 ==> ZeroBytes(length) <= zeros
  {
    var n := length + 1 + zeros;
    assert 8 * length + 1 + (7 + 8 * zeros) == 8 * n;
    assert n == 64 * (n / 64) + n % 64;
    assert 8 * n == 512 * (n / 64) + 8 * (n % 64);
  }

  lemma {:induction false} BigEndianValue(n: nat, count: nat)
    requires n < Power256(count)
    ensures ValueOf(BigEndian(n, count)) == n
  {
    if count > 0 {
      BigEndianValue(n / 256, count - 1);
      var r := BigEndian(n, count);
      assert r[..|r| - 1] == BigEndian(n / 256, count - 1);
    }
  }

  function Power256(count: nat): (r: nat)
    ensures r >= 1
  {
    if count == 0 then 1 else 256 * Power256(count - 1)
  }

  /** The byte at i of the big-endian form is the number shifted right by the bytes behind it. */
  lemma {:induction false} BigEndianAt(n: nat, count: nat, i: nat)
    requires i < count
    ensures BigEndian(n, count)[i] == n / Power256(count - 1 - i) % 256
  {
    if i < count - 1 {
      BigEndianAt(n / 256, count - 1, i);
      DivDiv(n, 256, Power256(count - 2 - i));
    }
  }
}
