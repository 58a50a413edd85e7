/** SHA-256 as FIPS 180-4 defines it, and HMAC as RFC 2104 does. */
module Sha256Spec {

  type Word = bv32
  newtype Byte = x: int | 0 <= x < 256

  // Section 4.2.2: the round constants, eight to a row.

  const K0: seq<Word> := [0x428a2f98, 0x71374491, 0xb5c0fbcf, 0xe9b5dba5, 0x3956c25b, 0x59f111f1, 0x923f82a4, 0xab1c5ed5]
  const K1: seq<Word> := [0xd807aa98, 0x12835b01, 0x243185be, 0x550c7dc3, 0x72be5d74, 0x80deb1fe, 0x9bdc06a7, 0xc19bf174]
  const K2: seq<Word> := [0xe49b69c1, 0xefbe4786, 0x0fc19dc6, 0x240ca1cc, 0x2de92c6f, 0x4a7484aa, 0x5cb0a9dc, 0x76f988da]
  const K3: seq<Word> := [0x983e5152, 0xa831c66d, 0xb00327c8, 0xbf597fc7, 0xc6e00bf3, 0xd5a79147, 0x06ca6351, 0x14292967]
  const K4: seq<Word> := [0x27b70a85, 0x2e1b2138, 0x4d2c6dfc, 0x53380d13, 0x650a7354, 0x766a0abb, 0x81c2c92e, 0x92722c85]
  const K5: seq<Word> := [0xa2bfe8a1, 0xa81a664b, 0xc24b8b70, 0xc76c51a3, 0xd192e819, 0xd6990624, 0xf40e3585, 0x106aa070]
  const K6: seq<Word> := [0x19a4c116, 0x1e376c08, 0x2748774c, 0x34b0bcb5, 0x391c0cb3, 0x4ed8aa4a, 0x5b9cca4f, 0x682e6ff3]
  const K7: seq<Word> := [0x748f82ee, 0x78a5636f, 0x84c87814, 0x8cc70208, 0x90befffa, 0xa4506ceb, 0xbef9a3f7, 0xc67178f2]

  const K: seq<Word> := K0 + K1 + K2 + K3 + K4 + K5 + K6 + K7

  const INITIAL: Hash := [0x6a09e667, 0xbb67ae85, 0x3c6ef372, 0xa54ff53a, 0x510e527f, 0x9b05688c, 0x1f83d9ab, 0x5be0cd19]

  type Hash = h: seq<Word> | |h| == 8 witness [0, 0, 0, 0, 0, 0, 0, 0]

  type Block = b: seq<Byte> | |b| == 64 witness seq(64, _ => 0)

  // Section 3.2: operations on words.

  /** Addition modulo 2^32. */
  function Plus(x: Word, y: Word): Word { x + y }
  function Sum4(w: Word, x: Word, y: Word, z: Word): Word { w + x + y + z }
  function Rotr(x: Word, n: nat): Word
    requires 0 < n < 32
  {
    (x >> n) | (x << (32 - n))
  }

  // Section 4.1.2: functions.

  function Ch(x: Word, y: Word, z: Word): Word { (x & y) ^ (!x & z) }
  function Maj(x: Word, y: Word, z: Word): Word { (x & y) ^ (x & z) ^ (y & z) }
  function BigSigma0(x: Word): Word { Rotr(x, 2) ^ Rotr(x, 13) ^ Rotr(x, 22) }
  function BigSigma1(x: Word): Word { Rotr(x, 6) ^ Rotr(x, 11) ^ Rotr(x, 25) }
  function SmallSigma0(x: Word): Word { Rotr(x, 7) ^ Rotr(x, 18) ^ (x >> 3) }
  function SmallSigma1(x: Word): Word { Rotr(x, 17) ^ Rotr(x, 19) ^ (x >> 10) }

  /** Four bytes, most significant first. */
  function BigEndian(a: Byte, b: Byte, c: Byte, d: Byte): Word {
    ((a as Word) << 24) | ((b as Word) << 16) | ((c as Word) << 8) | (d as Word)
  }

  // Section 6.2.2, step 1: the message schedule.

  function Schedule(m: Block, t: nat): Word
    requires t < 64
  {
    if t < 16 then BigEndian(m[4 * t], m[4 * t + 1], m[4 * t + 2], m[4 * t + 3])
    else
      Sum4(SmallSigma1(Schedule(m, t - 2)), Schedule(m, t - 7), SmallSigma0(Schedule(m, t - 15)), Schedule(m, t - 16))
  }

  datatype Variables = Variables(a: Word, b: Word, c: Word, d: Word, e: Word, f: Word, g: Word, h: Word)

  // Steps 2 and 3: the working variables after t rounds.

  function NextVariables(v: Variables, constant: Word, word: Word): Variables {
    var t1 := Plus(Plus(Plus(Plus(v.h, BigSigma1(v.e)), Ch(v.e, v.f, v.g)), constant), word);
    var t2 := Plus(BigSigma0(v.a), Maj(v.a, v.b, v.c));
    Variables(Plus(t1, t2), v.a, v.b, v.c, Plus(v.d, t1), v.e, v.f, v.g)
  }

  function Rounds(h: Hash, m: Block, t: nat): Variables
    requires t <= 64
  {
    if t == 0 then Variables(h[0], h[1], h[2], h[3], h[4], h[5], h[6], h[7])
    else
      var v := Rounds(h, m, t - 1);
      NextVariables(v, K[t - 1], Schedule(m, t - 1))
  }

  // Step 4: the intermediate hash value.

  function AddTo(h: Hash, v: Variables): Hash {
    [Plus(v.a, h[0]), Plus(v.b, h[1]), Plus(v.c, h[2]), Plus(v.d, h[3]),
     Plus(v.e, h[4]), Plus(v.f, h[5]), Plus(v.g, h[6]), Plus(v.h, h[7])]
  }

  function Compress(h: Hash, m: Block): Hash {
    AddTo(h, Rounds(h, m, |K|))
  }

  /** The hash value after all blocks of a padded message. */
  function Fold(h: Hash, padded: seq<Byte>): Hash
    requires |padded| % 64 == 0
    decreases |padded|
  {
    if padded == [] then h else Fold(Compress(h, padded[..64]), padded[64..])
  }

  // Section 5.1.1: padding.

  /** Zero bytes between the mark and the length. */
  function ZeroBytes(n: nat): nat {
    (55 - n) % 64
  }

  function LowByte(value: nat): Byte {
    (value % 256) as Byte
  }

  /** Byte i of a number shifted right eight bits at a time, least significant first. */
  function NumberByte(value: nat, i: nat): Byte {
    if i == 0 then LowByte(value) else NumberByte(value / 256, i - 1)
  }

  /** The n low bytes of a number, most significant first. */
  function NumberBytes(value: nat, n: nat): (s: seq<Byte>)
    ensures |s| == n
  {
    seq(n, j requires 0 <= j < n => NumberByte(value, n - 1 - j))
  }

  function LengthField(bits: nat): (s: seq<Byte>)
    ensures |s| == 8
  {
    NumberBytes(bits, 8)
  }

  /** Value of big-endian bytes. */
  function BigValue(s: seq<Byte>): nat {
    if s == [] then 0 else 256 * BigValue(s[..|s| - 1]) + s[|s| - 1] as nat
  }

  function Power256(i: nat): nat {
    if i == 0 then 1 else 256 * Power256(i - 1)
  }

  lemma SplitLowByte(value: nat, n: nat)
    requires n > 0
    ensures NumberBytes(value, n) == NumberBytes(value / 256, n - 1) + [LowByte(value)]
  {
    hide LowByte;
    var all, high := NumberBytes(value, n), NumberBytes(value / 256, n - 1);
    forall j | 0 <= j < n
      ensures all[j] == (high + [LowByte(value)])[j]
    {
      assert all[j] == NumberByte(value, n - 1 - j);
      if j < n - 1 {
        assert high[j] == NumberByte(value / 256, n - 2 - j);
      }
    }
  }

  lemma BigValueAppend(s: seq<Byte>, b: Byte)
    ensures BigValue(s + [b]) == 256 * BigValue(s) + b as nat
  {
    assert (s + [b])[..|s|] == s;
  }

  /** The bytes spell the number. */
  lemma {:induction false} NumberBytesSpell(value: nat, n: nat)
    requires value < Power256(n)
    ensures BigValue(NumberBytes(value, n)) == value
  {
    hide BigValue;
    if n > 0 {
      SplitLowByte(value, n);
      NumberBytesSpell(value / 256, n - 1);
      BigValueAppend(NumberBytes(value / 256, n - 1), LowByte(value));
    } else {
      EmptyValue();
    }
  }

  lemma EmptyValue()
    ensures BigValue([]) == 0
  {
  }

  /** The length field holds the length of any message shorter than 2^61 bytes. */
  lemma LengthFieldSpells(n: nat)
    requires n < 0x2000_0000_0000_0000
    ensures BigValue(LengthField(8 * n)) == 8 * n
  {
    assert Power256(8) == 0x1_0000_0000_0000_0000;
    NumberBytesSpell(8 * n, 8);
  }

  function Padding(n: nat): (s: seq<Byte>)
    ensures |s| == 9 + ZeroBytes(n)
  {
    [0x80] + seq(ZeroBytes(n), _ => 0) + LengthField(8 * n)
  }

  /** The standard's condition in bits: one mark bit and the least number of zero bits that
      leave room for the length in the last block. */
  lemma PaddingIsMinimal(n: nat)
    ensures var zeroBits := 8 * ZeroBytes(n) + 7;
            && (8 * n + 1 + zeroBits) % 512 == 448
            && forall k :: 0 <= k < zeroBits ==> Congruence(n, k) != 448
    ensures (n + |Padding(n)|) % 64 == 0
  {
    var a, r := n / 64, n % 64;
    var z := ZeroBytes(n);
    ZeroBytesBy(a, r);
    Remainder(8 * n + 8 + 8 * z, if r <= 55 then a else a + 1, 448);
    forall k | 0 <= k < 8 * z + 7
      ensures Congruence(n, k) != 448
    {
      FewerZeros(a, r, k);
    }
  }

  lemma ZeroBytesBy(a: nat, r: nat)
    requires r < 64
    ensures ZeroBytes(64 * a + r) == if r <= 55 then 55 - r else 119 - r
  {
  }

  lemma Remainder(x: nat, q: nat, y: nat)
    requires x == 512 * q + y && y < 512
    ensures x % 512 == y
  {
  }

  lemma FewerZeros(a: nat, r: nat, k: nat)
    requires r < 64 && k < 8 * (if r <= 55 then 55 - r else 119 - r) + 7
    ensures Congruence(64 * a + r, k) != 448
  {
    var y := 8 * r + 1 + k;
    if y < 512 {
      Remainder(512 * a + y, a, y);
    } else {
      Remainder(512 * a + y, a + 1, y - 512);
    }
  }

  function Congruence(n: nat, zeroBits: nat): nat {
    (8 * n + 1 + zeroBits) % 512
  }

  // Section 6.2: the digest.

  function PaddedMessage(m: seq<Byte>): (p: seq<Byte>)
    ensures |p| % 64 == 0
  {
    PaddingIsMinimal(|m|);
    m + Padding(|m|)
  }

  function WordByte(w: Word, j: nat): Byte
    requires j < 4
  {
    (((w >> (24 - 8 * j)) & 0xff) as bv8) as Byte
  }

  function DigestBytes(h: Hash): (d: seq<Byte>)
    ensures |d| == 32
  {
    seq(32, i requires 0 <= i < 32 => WordByte(h[i / 4], i % 4))
  }

  function Digest(m: seq<Byte>): (d: seq<Byte>)
    ensures |d| == 32
  {
    DigestBytes(Fold(INITIAL, PaddedMessage(m)))
  }

  // RFC 2104, section 2, for keys no longer than a block.

  function Flip(b: Byte, pad: Byte): Byte { ((b as bv8) ^ (pad as bv8)) as Byte }

  function Xor(key: seq<Byte>, pad: Byte): seq<Byte> {
    seq(|key|, i requires 0 <= i < |key| => Flip(key[i], pad))
  }

  function BlockKey(key: seq<Byte>): (k: seq<Byte>)
    requires |key| <= 64
    ensures |k| == 64
  {
    key + seq(64 - |key|, _ => 0)
  }

  function Hmac(key: seq<Byte>, text: seq<Byte>): seq<Byte>
    requires |key| <= 64
  {
    Digest(Xor(BlockKey(key), 0x5c) + Digest(Xor(BlockKey(key), 0x36) + text))
  }
}
