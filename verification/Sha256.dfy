/** The streaming SHA-256 and the keyed form built on it, against their standards. */
module Sha256 {
  import opened Sha256Spec

  lemma PlusCommutes(a: Word, b: Word)
    ensures Plus(a, b) == Plus(b, a)
  {
  }

  lemma SumReverses(a: Word, b: Word, c: Word, d: Word)
    ensures Sum4(a, b, c, d) == Sum4(d, c, b, a)
  {
  }

  // The round functions as the source writes them.

  function Rotated(x: Word, a: nat, b: nat, c: nat): Word
    requires 0 < a < 32 && 0 < b < 32 && 0 < c < 32
  {
    Rotr(x, a) ^ Rotr(x, b) ^ Rotr(x, c)
  }

  function Shifted(x: Word, a: nat, b: nat, c: nat): Word
    requires 0 < a < 32 && 0 < b < 32 && 0 < c < 32
  {
    Rotr(x, a) ^ Rotr(x, b) ^ (x >> c)
  }

  function Choice(e: Word, f: Word, g: Word): Word { (e & f) ^ (!e & g) }
  function Majority(a: Word, b: Word, c: Word): Word { (a & b) ^ (a & c) ^ (b & c) }

  lemma BigSigmas(x: Word)
    ensures Rotated(x, 2, 13, 22) == BigSigma0(x) && Rotated(x, 6, 11, 25) == BigSigma1(x)
  {
    hide Rotr;
  }

  lemma SmallSigmas(x: Word)
    ensures Shifted(x, 7, 18, 3) == SmallSigma0(x) && Shifted(x, 17, 19, 10) == SmallSigma1(x)
  {
    hide Rotr;
  }

  lemma ChoiceAndMajority(x: Word, y: Word, z: Word)
    ensures Choice(x, y, z) == Ch(x, y, z) && Majority(x, y, z) == Maj(x, y, z)
  {
  }

  /** The message schedule, filled in place. */
  method FillSchedule(w: array<Word>, m: Block)
    requires w.Length == 64
    modifies w
    ensures forall t :: 0 <= t < 64 ==> w[t] == Schedule(m, t)
  {
    hide Sum4, SmallSigma0, SmallSigma1, BigEndian, Shifted;
    for i := 0 to 16
      invariant forall t :: 0 <= t < i ==> w[t] == Schedule(m, t)
    {
      w[i] := BigEndian(m[i * 4], m[i * 4 + 1], m[i * 4 + 2], m[i * 4 + 3]);
    }
    for i := 16 to 64
      invariant forall t :: 0 <= t < i ==> w[t] == Schedule(m, t)
    {
      var s0, s1 := Shifted(w[i - 15], 7, 18, 3), Shifted(w[i - 2], 17, 19, 10);
      SmallSigmas(w[i - 15]);
      SmallSigmas(w[i - 2]);
      SumReverses(w[i - 16], s0, w[i - 7], s1);
      w[i] := Sum4(w[i - 16], s0, w[i - 7], s1);
    }
  }

  /** One round on the working variables, shifted along one after the other. */
  method Round(v: Variables, constant: Word, word: Word) returns (r: Variables)
    ensures r == NextVariables(v, constant, word)
  {
    hide Plus, BigSigma0, BigSigma1, Ch, Maj, Rotated, Choice, Majority;
    BigSigmas(v.a);
    BigSigmas(v.e);
    ChoiceAndMajority(v.e, v.f, v.g);
    ChoiceAndMajority(v.a, v.b, v.c);
    var a, b, c, d := v.a, v.b, v.c, v.d;
    var e, f, g, h := v.e, v.f, v.g, v.h;
    var temp1 := Plus(Plus(Plus(Plus(h, Rotated(e, 6, 11, 25)), Choice(e, f, g)), constant), word);
    var temp2 := Plus(Rotated(a, 2, 13, 22), Majority(a, b, c));
    h := g;
    g := f;
    f := e;
    e := Plus(d, temp1);
    d := c;
    c := b;
    b := a;
    a := Plus(temp1, temp2);
    return Variables(a, b, c, d, e, f, g, h);
  }

  /** The block function updates the chaining value in place. */
  method CompressInPlace(state: array<Word>, m: Block)
    requires state.Length == 8
    modifies state
    ensures state[..] == Compress(old(state[..]), m)
  {
    hide Plus, NextVariables, Schedule;
    var w := new Word[64];
    FillSchedule(w, m);
    ghost var start := state[..];
    var v := Variables(state[0], state[1], state[2], state[3], state[4], state[5], state[6], state[7]);
    for i := 0 to |K|
      invariant forall t :: 0 <= t < 64 ==> w[t] == Schedule(m, t)
      invariant state[..] == start == old(state[..]) && v == Rounds(start, m, i)
    {
      v := Round(v, K[i], w[i]);
    }
    assert v == Rounds(start, m, |K|);
    hide AddTo, Rounds;
    AddInPlace(state, v);
  }

  method AddInPlace(state: array<Word>, v: Variables)
    requires state.Length == 8
    modifies state
    ensures state[..] == AddTo(old(state[..]), v)
  {
    hide Plus;
    var added := [v.a, v.b, v.c, v.d, v.e, v.f, v.g, v.h];
    for i := 0 to 8
      invariant forall j :: 0 <= j < i ==> state[j] == Plus(added[j], old(state[j]))
      invariant forall j :: i <= j < 8 ==> state[j] == old(state[j])
    {
      PlusCommutes(state[i], added[i]);
      state[i] := Plus(state[i], added[i]);
    }
    assert state[..] == AddTo(old(state[..]), v);
  }

  lemma FoldStep(h: Hash, p: seq<Byte>)
    requires |p| % 64 == 0
    ensures Fold(h, p) == if p == [] then h else Fold(Compress(h, p[..64]), p[64..])
  {
    hide Compress;
  }

  lemma {:induction false} FoldAppend(h: Hash, first: seq<Byte>, rest: seq<Byte>)
    requires |first| % 64 == 0 && |rest| % 64 == 0
    ensures |first + rest| % 64 == 0 && Fold(h, first + rest) == Fold(Fold(h, first), rest)
    decreases |first|
  {
    hide Compress, Fold;
    FoldStep(h, first);
    FoldStep(h, first + rest);
    if first == [] {
      assert first + rest == rest;
    } else {
      assert (first + rest)[..64] == first[..64] && (first + rest)[64..] == first[64..] + rest;
      FoldAppend(Compress(h, first[..64]), first[64..], rest);
    }
  }

  lemma FoldOne(h: Hash, m: Block)
    ensures Fold(h, m) == Compress(h, m)
  {
    hide Compress;
    assert m[..64] == m && m[64..] == [];
  }

  /** One more block of a longer message. */
  lemma FoldNext(data: seq<Byte>, offset: nat)
    requires offset % 64 == 0 && offset + 64 <= |data|
    ensures Fold(INITIAL, data[..offset + 64]) == Compress(Fold(INITIAL, data[..offset]), data[offset..offset + 64])
  {
    hide Compress;
    assert data[..offset + 64] == data[..offset] + data[offset..offset + 64];
    FoldAppend(INITIAL, data[..offset], data[offset..offset + 64]);
    FoldOne(Fold(INITIAL, data[..offset]), data[offset..offset + 64]);
  }

  /** Hashes all whole blocks; less than one block is left over. */
  method HashWholeBlocks(state: array<Word>, data: seq<Byte>) returns (offset: nat)
    requires state.Length == 8 && state[..] == INITIAL
    modifies state
    ensures offset <= |data| && |data| - offset < 64 && offset % 64 == 0
    ensures state[..] == Fold(INITIAL, data[..offset])
  {
    hide Compress;
    offset := 0;
    while |data| - offset >= 64
      invariant offset <= |data| && offset % 64 == 0
      invariant state[..] == Fold(INITIAL, data[..offset])
    {
      FoldNext(data, offset);
      CompressInPlace(state, data[offset..offset + 64]);
      offset := offset + 64;
    }
  }

  /** The last one or two blocks: the rest of the message, the mark, zeros, the length. */
  method FillTail(data: seq<Byte>, offset: nat) returns (tail: array<Byte>, padded: nat)
    requires offset <= |data| < 0x2000_0000_0000_0000 && |data| - offset < 64 && offset % 64 == 0
    ensures fresh(tail) && tail.Length == 128 && (padded == 64 || padded == 128)
    ensures tail[..padded] == data[offset..] + Padding(|data|)
  {
    hide NumberByte;
    tail := new Byte[128](_ => 0);
    var remaining := |data| - offset;
    for i := 0 to remaining
      invariant forall j :: 0 <= j < i ==> tail[j] == data[offset + j]
      invariant forall j :: i <= j < 128 ==> tail[j] == 0
    {
      tail[i] := data[offset + i];
    }
    tail[remaining] := 0x80;
    padded := if remaining < 56 then 64 else 128;
    var bits := |data| * 8;
    for i := 0 to 8
      invariant forall j :: 0 <= j < remaining ==> tail[j] == data[offset + j]
      invariant tail[remaining] == 0x80
      invariant forall j :: remaining < j < padded - i ==> tail[j] == 0
      invariant forall j :: padded - i <= j < padded ==> tail[j] == NumberByte(bits, padded - 1 - j)
    {
      tail[padded - 1 - i] := NumberByte(bits, i);
    }
    TailIsPadding(data, offset, tail[..padded]);
  }

  lemma TailIsPadding(data: seq<Byte>, offset: nat, tail: seq<Byte>)
    requires offset <= |data| && |data| - offset < 64 && offset % 64 == 0
    requires var remaining := |data| - offset;
             && |tail| == (if remaining < 56 then 64 else 128)
             && (forall j :: 0 <= j < remaining ==> tail[j] == data[offset + j]) && tail[remaining] == 0x80
             && (forall j :: remaining < j < |tail| - 8 ==> tail[j] == 0)
             && (forall j :: |tail| - 8 <= j < |tail| ==> tail[j] == NumberByte(8 * |data|, |tail| - 1 - j))
    ensures tail == data[offset..] + Padding(|data|)
  {
    hide LengthField, NumberByte;
    var last8 := tail[|tail| - 8..];
    forall j | 0 <= j < 8
      ensures last8[j] == NumberByte(8 * |data|, 7 - j)
    {
      assert last8[j] == tail[|tail| - 8 + j];
    }
    FieldMatches(8 * |data|, last8);
    ZerosLeft(|data|, offset);
    Assemble(data[offset..], tail, ZeroBytes(|data|), LengthField(8 * |data|));
  }

  lemma FieldMatches(bits: nat, field: seq<Byte>)
    requires |field| == 8 && forall j :: 0 <= j < 8 ==> field[j] == NumberByte(bits, 7 - j)
    ensures field == LengthField(bits)
  {
    hide NumberByte;
  }

  lemma ZerosLeft(n: nat, offset: nat)
    requires offset <= n && n - offset < 64 && offset % 64 == 0
    ensures (if n - offset < 56 then 64 else 128) == n - offset + 9 + ZeroBytes(n)
  {
  }

  lemma Assemble(rest: seq<Byte>, tail: seq<Byte>, z: nat, field: seq<Byte>)
    requires |tail| == |rest| + 9 + z && |field| == 8
    requires forall j :: 0 <= j < |rest| ==> tail[j] == rest[j]
    requires tail[|rest|] == 0x80
    requires forall j :: |rest| < j < |rest| + 1 + z ==> tail[j] == 0
    requires tail[|rest| + 1 + z..] == field
    ensures tail == rest + ([0x80] + seq(z, _ => 0) + field)
  {
    var zeros: seq<Byte> := seq(z, _ => 0);
    forall j | 0 <= j < |tail|
      ensures tail[j] == (rest + ([0x80] + zeros + field))[j]
    {
      if j >= |rest| + 1 + z {
        assert tail[j] == field[j - |rest| - 1 - z];
      }
    }
  }

  // ---------------------------------------------------------------------------
  // Hexadecimal.

  const DIGITS: string := "0123456789abcdef"

  function HexDigit(n: nat): char
    requires n < 16
  {
    DIGITS[n]
  }

  /** High or low half of a byte. */
  function Nibble(b: Byte, high: bool): (n: nat)
    ensures n < 16
  {
    if high then (b as nat) / 16 else (b as nat) % 16
  }

  function Hex(bytes: seq<Byte>): (s: string)
    ensures |s| == 2 * |bytes|
  {
    seq(2 * |bytes|, i requires 0 <= i < 2 * |bytes| => HexDigit(Nibble(bytes[i / 2], i % 2 == 0)))
  }

  /** SHA-256 of the data as 64 lower-case hexadecimal digits. */
  method Sha256Hex(data: seq<Byte>) returns (result: string)
    requires |data| < 0x2000_0000_0000_0000
    ensures result == Hex(Digest(data))
  {
    hide Compress, WordByte, Nibble, HexDigit, Padding;
    var state := new Word[8](i requires 0 <= i < 8 => INITIAL[i]);
    assert state[..] == INITIAL;
    var offset := HashWholeBlocks(state, data);
    var tail, padded := FillTail(data, offset);
    CompressInPlace(state, tail[..64]);
    if padded == 128 {
      CompressInPlace(state, tail[64..]);
    }
    DigestOfTail(data, offset, tail[..padded]);
    assert padded == 128 ==> tail[..padded][64..] == tail[64..];
    assert tail[..padded][..64] == tail[..64];
    result := WriteHex(state);
  }

  lemma DigestOfTail(data: seq<Byte>, offset: nat, tail: seq<Byte>)
    requires offset <= |data| && offset % 64 == 0 && (|tail| == 64 || |tail| == 128)
    requires tail == data[offset..] + Padding(|data|)
    ensures var h := Compress(Fold(INITIAL, data[..offset]), tail[..64]);
            Fold(INITIAL, PaddedMessage(data)) == if |tail| == 64 then h else Compress(h, tail[64..])
  {
    hide Compress, Padding;
    var h := Fold(INITIAL, data[..offset]);
    assert PaddedMessage(data) == data[..offset] + tail;
    FoldAppend(INITIAL, data[..offset], tail);
    if |tail| == 64 {
      assert tail[..64] == tail;
      FoldOne(h, tail);
    } else {
      FoldOne(Compress(h, tail[..64]), tail[64..]);
    }
  }

  method WriteHex(state: array<Word>) returns (result: string)
    requires state.Length == 8
    ensures result == Hex(DigestBytes(state[..]))
  {
    hide WordByte, Nibble, HexDigit;
    var digits := new char[64](_ => '0');
    for i := 0 to 32
      invariant forall j :: 0 <= j < 2 * i ==> digits[j] == Hex(DigestBytes(state[..]))[j]
    {
      var byte := WordByte(state[i / 4], i % 4);
      digits[i * 2] := HexDigit(Nibble(byte, true));
      digits[i * 2 + 1] := HexDigit(Nibble(byte, false));
    }
    result := digits[..];
  }

  // ---------------------------------------------------------------------------
  // The keyed form.

  /** Value of a hexadecimal digit as the program reads it back. */
  function DigitValue(c: char): int {
    if c >= 'a' then c as int - 'a' as int + 10 else c as int - '0' as int
  }

  lemma DigitRoundTrip(n: nat)
    requires n < 16
    ensures DigitValue(HexDigit(n)) == n
  {
  }

  /** Two digits back to their byte. */
  function ByteOf(high: char, low: char): Byte
    requires 0 <= DigitValue(high) < 16 && 0 <= DigitValue(low) < 16
  {
    (16 * DigitValue(high) + DigitValue(low)) as Byte
  }

  lemma ByteRoundTrip(b: Byte)
    ensures var high, low := HexDigit(Nibble(b, true)), HexDigit(Nibble(b, false));
            0 <= DigitValue(high) < 16 && 0 <= DigitValue(low) < 16 && ByteOf(high, low) == b
  {
    DigitRoundTrip(Nibble(b, true));
    DigitRoundTrip(Nibble(b, false));
    assert 16 * ((b as nat) / 16) + (b as nat) % 16 == b as nat;
  }

  /** Reading a digest back from its hexadecimal text loses nothing. */
  method DecodeHex(text: string, ghost bytes: seq<Byte>) returns (decoded: seq<Byte>)
    requires |bytes| == 32 && text == Hex(bytes)
    ensures decoded == bytes
  {
    hide DigitValue, HexDigit, Nibble;
    var digest := new Byte[32](_ => 0);
    for index := 0 to 32
      invariant forall j :: 0 <= j < index ==> digest[j] == bytes[j]
    {
      ByteRoundTrip(bytes[index]);
      assert text[index * 2] == HexDigit(Nibble(bytes[index], true));
      assert text[index * 2 + 1] == HexDigit(Nibble(bytes[index], false));
      digest[index] := ByteOf(text[index * 2], text[index * 2 + 1]);
    }
    decoded := digest[..];
  }

  /** The two padded keys. */
  method PadKeys(key: seq<Byte>) returns (inner: seq<Byte>, outer: seq<Byte>)
    requires |key| <= 64
    ensures inner == Xor(BlockKey(key), 0x36) && outer == Xor(BlockKey(key), 0x5c)
  {
    hide Flip;
    ghost var full := BlockKey(key);
    var innerPad, outerPad := new Byte[64](_ => 0), new Byte[64](_ => 0);
    for index := 0 to 64
      invariant forall j :: 0 <= j < index ==> innerPad[j] == Flip(full[j], 0x36)
      invariant forall j :: 0 <= j < index ==> outerPad[j] == Flip(full[j], 0x5c)
    {
      var keyByte: Byte := if index < |key| then key[index] else 0;
      assert keyByte == full[index];
      innerPad[index] := Flip(keyByte, 0x36);
      outerPad[index] := Flip(keyByte, 0x5c);
    }
    inner, outer := innerPad[..], outerPad[..];
  }

  /** The keyed digest, through the hexadecimal text of the inner one, is RFC 2104's. */
  method HmacSha256Hex(key: seq<Byte>, data: seq<Byte>) returns (result: string)
    requires |key| == 32 && |data| + 64 < 0x2000_0000_0000_0000
    ensures result == Hex(Hmac(key, data))
  {
    hide Digest, Xor, BlockKey, Hex;
    var innerPad, outerPad := PadKeys(key);
    XorLength(BlockKey(key));
    var innerHex := Sha256Hex(innerPad + data);
    var innerDigest := DecodeHex(innerHex, Digest(innerPad + data));
    result := Sha256Hex(outerPad + innerDigest);
  }

  lemma XorLength(key: seq<Byte>)
    ensures |Xor(key, 0x36)| == |Xor(key, 0x5c)| == |key|
  {
  }
}
