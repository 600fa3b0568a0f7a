/**
 RIPEMD-160 as a stream: the chunk loop and MDfinish against folding the compression function over
 the 64-byte blocks of the padded message (the padding of sections 3.1 and 3.2 of RFC 1320).
 The compression function is a parameter: everything holds for all of them.
 */
module Ripemd160 {
  import opened Bits
  import opened NodeIds

  const TWO_32: nat := 0x1_0000_0000
  const TWO_64: nat := 0x1_0000_0000_0000_0000
  const BLOCK: nat := 64
  const MD_INIT: seq<U32> := [0x6745_2301, 0xefcd_ab89, 0x98ba_dcfe, 0x1032_5476, 0xc3d2_e1f0]

  type Md = s: seq<U32> | |s| == 5 witness [0, 0, 0, 0, 0]
  type Words16 = s: seq<U32> | |s| == 16 witness [0, 0, 0, 0, 0, 0, 0, 0, 0, 0, 0, 0, 0, 0, 0, 0]
  type Compression = (Md, Words16) -> Md

  // ----- shifted bytes -----

  // The left shift of a 32-bit word, without the bits that fall off the top.
  function Shl(x: U32, k: nat): U32 {
    Doubled(x, k) % TWO_32
  }

  // Eight doublings are one place of a byte.
  lemma {:induction false} BytePlace(x: nat, k: nat)
    ensures Doubled(x, 8 * k) == x * Pow256(k)
  {
    if k == 0 {
      assert Doubled(x, 0) == x;
    } else {
      var y := Doubled(x, 8 * (k - 1));
      BytePlace(x, k - 1);
      EightTimes(x, 8 * (k - 1));
      assert x * (256 * Pow256(k - 1)) == 256 * (x * Pow256(k - 1));
    }
  }

  lemma EightTimes(x: nat, k: nat)
    ensures Doubled(x, k + 8) == 256 * Doubled(x, k)
  {
    assert Doubled(x, k + 8) == 4 * Doubled(x, k + 6);
    assert Doubled(x, k + 6) == 4 * Doubled(x, k + 4);
    assert Doubled(x, k + 4) == 4 * Doubled(x, k + 2);
    assert Doubled(x, k + 2) == 4 * Doubled(x, k);
  }

  lemma Places()
    ensures Pow256(0) == 1 && Pow256(1) == 0x100 && Pow256(2) == 0x1_0000 && Pow256(3) == 0x100_0000
    ensures Pow256(4) == TWO_32
  {
  }

  // A byte shifted into an empty place of a word.
  lemma ShiftedByte(a: nat, b: Byte, k: nat)
    requires k < 4 && a < Pow256(k)
    ensures Xor(a, Shl(b, 8 * k)) == Or(a, Shl(b, 8 * k)) == a + b * Pow256(k) < TWO_32
  {
    Places();
    BytePlace(b, k);
    BytePlace(1, k);
    Fits(a, b, k);
    assert Shl(b, 8 * k) == Doubled(b, 8 * k);
    DisjointBits(a, b, 8 * k);
  }

  lemma Fits(a: nat, b: Byte, k: nat)
    requires k < 4 && a < Pow256(k)
    ensures b * Pow256(k) <= a + b * Pow256(k) < TWO_32
  {
    Places();
    assert k == 0 || k == 1 || k == 2 || k == 3;
  }

  // ----- the specification -----

  function Zeros(n: nat): (z: seq<Byte>)
    ensures |z| == n
  {
    seq(n, _ => 0)
  }

  function Word(bytes: seq<Byte>): U32
    requires |bytes| == 4
  {
    Places();
    FromBytes(bytes)
  }

  function Words(block: seq<Byte>): Words16
    requires |block| == BLOCK
  {
    seq(16, i requires 0 <= i < 16 => Word(block[4 * i..4 * i + 4]))
  }

  function Fold(compress: Compression, md: Md, bytes: seq<Byte>): Md
    requires |bytes| % BLOCK == 0
    decreases |bytes|
  {
    if bytes == [] then md
    else Fold(compress, compress(md, Words(bytes[..BLOCK])), bytes[BLOCK..])
  }

  // For `rest` bytes in the last block of a message of `length` bytes: the bit 1, zeros up to
  // 8 bytes short of a full block, and the lower 64 bits of the length in bits, little-endian.
  function Padding(rest: nat, length: nat): (p: seq<Byte>)
    requires rest < BLOCK
    ensures rest + |p| == if rest <= 55 then BLOCK else 2 * BLOCK
  {
    [0x80] + Zeros(if rest <= 55 then 55 - rest else 119 - rest) + ToBytes(8 * length % TWO_64, 8)
  }

  function Digest(md: Md): seq<Byte> {
    ToBytes(md[0], 4) + ToBytes(md[1], 4) + ToBytes(md[2], 4) + ToBytes(md[3], 4) + ToBytes(md[4], 4)
  }

  lemma WholeBlocks(n: nat, p: nat)
    requires n % BLOCK + p == BLOCK || n % BLOCK + p == 2 * BLOCK
    ensures (n + p) % BLOCK == 0
  {
  }

  function Hash(compress: Compression, message: seq<Byte>): seq<Byte> {
    WholeBlocks(|message|, |Padding(|message| % BLOCK, |message|)|);
    Digest(Fold(compress, MD_INIT, message + Padding(|message| % BLOCK, |message|)))
  }

  lemma {:induction false} FoldAppend(compress: Compression, md: Md, a: seq<Byte>, b: seq<Byte>)
    requires |a| % BLOCK == 0 && |b| % BLOCK == 0
    ensures Fold(compress, md, a + b) == Fold(compress, Fold(compress, md, a), b)
    decreases |a|
  {
    if a == [] {
      assert a + b == b;
    } else {
      assert (a + b)[..BLOCK] == a[..BLOCK] && (a + b)[BLOCK..] == a[BLOCK..] + b;
      FoldAppend(compress, compress(md, Words(a[..BLOCK])), a[BLOCK..], b);
    }
  }

  lemma FoldBlock(compress: Compression, md: Md, block: seq<Byte>)
    requires |block| == BLOCK
    ensures Fold(compress, md, block) == compress(md, Words(block))
  {
    assert block[..BLOCK] == block && block[BLOCK..] == [];
  }

  // ----- filling a block byte by byte -----

  function Fill(bytes: seq<Byte>): (block: seq<Byte>)
    requires |bytes| <= BLOCK
    ensures |block| == BLOCK
  {
    bytes + Zeros(BLOCK - |bytes|)
  }

  lemma {:induction false} TrailingZeros(a: seq<Byte>, n: nat)
    ensures FromBytes(a + Zeros(n)) == FromBytes(a)
    decreases |a| + n
  {
    if a != [] {
      assert (a + Zeros(n))[1..] == a[1..] + Zeros(n);
      TrailingZeros(a[1..], n);
    } else if n > 0 {
      assert a + Zeros(n) == Zeros(n) && Zeros(n)[1..] == a + Zeros(n - 1);
      TrailingZeros(a, n - 1);
    }
  }

  lemma {:induction false} LastByte(a: seq<Byte>, b: Byte)
    ensures FromBytes(a + [b]) == FromBytes(a) + b * Pow256(|a|)
  {
    if a == [] {
      assert a + [b] == [b];
    } else {
      assert (a + [b])[1..] == a[1..] + [b];
      LastByte(a[1..], b);
      assert b * (256 * Pow256(|a| - 1)) == 256 * (b * Pow256(|a| - 1));
    }
  }

  // The word at place j of a partly filled block, from the bytes that lie in it.
  lemma WordOf(s: seq<Byte>, j: nat)
    requires |s| <= BLOCK && j < 16
    ensures 4 * j + 4 <= |s| ==> Words(Fill(s))[j] == FromBytes(s[4 * j..4 * j + 4])
    ensures 4 * j <= |s| <= 4 * j + 4 ==> Words(Fill(s))[j] == FromBytes(s[4 * j..])
    ensures |s| <= 4 * j ==> Words(Fill(s))[j] == 0
  {
    var w := Fill(s)[4 * j..4 * j + 4];
    if 4 * j + 4 <= |s| {
      assert w == s[4 * j..4 * j + 4];
      assert |s| == 4 * j + 4 ==> s[4 * j..4 * j + 4] == s[4 * j..];
    } else if 4 * j <= |s| {
      assert w == s[4 * j..] + Zeros(4 * j + 4 - |s|);
      TrailingZeros(s[4 * j..], 4 * j + 4 - |s|);
    } else {
      assert w == [] + Zeros(4);
      TrailingZeros([], 4);
    }
  }

  // One more byte changes one word, by an exclusive or into an empty place.
  lemma FillOneMore(s: seq<Byte>, b: Byte)
    requires |s| < BLOCK
    ensures Xor(Words(Fill(s))[|s| / 4], Shl(b, 8 * (|s| % 4))) < TWO_32
    ensures Words(Fill(s + [b])) ==
            Words(Fill(s))[|s| / 4 := Xor(Words(Fill(s))[|s| / 4], Shl(b, 8 * (|s| % 4)))]
  {
    var j, a := |s| / 4, s[4 * (|s| / 4)..];
    WordOf(s, j);
    assert (s + [b])[4 * j..] == a + [b];
    WordOf(s + [b], j);
    LastByte(a, b);
    ShiftedByte(FromBytes(a), b, |s| % 4);
    forall i: nat | i < 16 && i != j ensures Words(Fill(s + [b]))[i] == Words(Fill(s))[i] {
      WordOf(s, i);
      WordOf(s + [b], i);
      if i < j {
        assert (s + [b])[4 * i..4 * i + 4] == s[4 * i..4 * i + 4];
      }
    }
  }

  lemma FourBytes(n: nat)
    ensures FromBytes(ToBytes(n, 4)) == n % TWO_32
    ensures ToBytes(n, 8) == ToBytes(n, 4) + ToBytes(n / TWO_32, 4)
  {
    var q1 := n / 256;
    var q2 := q1 / 256;
    var q3 := q2 / 256;
    var q4 := q3 / 256;
    assert q4 == n / TWO_32;
    assert ToBytes(n, 8) == [n % 256, q1 % 256] + ToBytes(q2, 6);
    assert ToBytes(q2, 6) == [q2 % 256, q3 % 256] + ToBytes(q4, 4);
    assert ToBytes(n, 4) == [n % 256, q1 % 256] + ToBytes(q2, 2);
    assert ToBytes(q2, 2) == [q2 % 256, q3 % 256];
    FourByteValue(n % 256, q1 % 256, q2 % 256, q3 % 256);
  }

  lemma FourByteValue(b0: Byte, b1: Byte, b2: Byte, b3: Byte)
    ensures FromBytes([b0, b1, b2, b3]) == b0 + 0x100 * b1 + 0x1_0000 * b2 + 0x100_0000 * b3
  {
    assert [b0, b1, b2, b3][1..] == [b1, b2, b3] && [b1, b2, b3][1..] == [b2, b3];
    assert [b2, b3][1..] == [b3] && [b3][1..] == [];
    assert FromBytes([b3]) == b3;
    assert FromBytes([b2, b3]) == b2 + 256 * b3;
    assert FromBytes([b1, b2, b3]) == b1 + 256 * FromBytes([b2, b3]);
  }

  // The two length words at the end of a block with at least 8 free bytes.
  lemma FillLength(s: seq<Byte>, n: nat)
    requires |s| <= 56 && n < TWO_64
    ensures Words(s + Zeros(56 - |s|) + ToBytes(n, 8)) == Words(Fill(s))[14 := n % TWO_32][15 := n / TWO_32]
  {
    var block := s + Zeros(56 - |s|) + ToBytes(n, 8);
    Places();
    FourBytes(n);
    assert block[56..60] == ToBytes(n, 4) && block[60..64] == ToBytes(n / TWO_32, 4);
    BytesRoundTrip(n / TWO_32, 4);
    forall i: nat | i < 14 ensures Words(block)[i] == Words(Fill(s))[i] {
      assert block[4 * i..4 * i + 4] == Fill(s)[4 * i..4 * i + 4];
    }
  }

  // ----- the program -----

  method BytesToDword(b0: Byte, b1: Byte, b2: Byte, b3: Byte) returns (w: U32)
    ensures w == Word([b0, b1, b2, b3])
  {
    Places();
    FourByteValue(b0, b1, b2, b3);
    ShiftedByte(b0, b1, 1);
    var w1 := Or(b0, Shl(b1, 8));
    assert w1 == b0 + 0x100 * b1;
    ShiftedByte(w1, b2, 2);
    var w2 := Or(w1, Shl(b2, 16));
    assert w2 == w1 + 0x1_0000 * b2;
    ShiftedByte(w2, b3, 3);
    w := Or(w2, Shl(b3, 24));
  }

  lemma Eightfold(x: nat, k: nat)
    ensures Doubled(x, k + 3) == 8 * Doubled(x, k)
  {
    assert Doubled(x, k + 3) == 2 * Doubled(x, k + 2);
    assert Doubled(x, k + 2) == 4 * Doubled(x, k);
  }

  // The two words of the bit length, with what the shifts of 32-bit words drop.
  lemma LengthWords(lswlen: U32, mswlen: U32)
    ensures Shl(lswlen, 3) == 8 * (lswlen + TWO_32 * mswlen) % TWO_64 % TWO_32
    ensures Or(lswlen / 0x2000_0000, Shl(mswlen, 3)) == 8 * (lswlen + TWO_32 * mswlen) % TWO_64 / TWO_32
  {
    var hi, low := lswlen / 0x2000_0000, mswlen % 0x2000_0000;
    BitLength(lswlen, mswlen);
    TwoWords(hi + 8 * low, 8 * (lswlen % 0x2000_0000));
    ShiftThree(lswlen);
    ShiftThree(mswlen);
    HighWord(hi, low);
  }

  // Shifting left by 3 drops the three highest bits.
  lemma ShiftThree(m: U32)
    ensures Shl(m, 3) == 8 * (m % 0x2000_0000)
  {
    Eightfold(m, 0);
    assert 8 * m == TWO_32 * (m / 0x2000_0000) + 8 * (m % 0x2000_0000);
    TwoWords(m / 0x2000_0000, 8 * (m % 0x2000_0000));
  }

  lemma HighWord(hi: nat, low: nat)
    requires hi < 8
    ensures Or(hi, 8 * low) == hi + 8 * low
  {
    Eightfold(low, 0);
    Eightfold(1, 0);
    DisjointBits(hi, low, 3);
  }

  lemma TwoWords(high: nat, low: U32)
    ensures (TWO_32 * high + low) % TWO_32 == low && (TWO_32 * high + low) / TWO_32 == high
  {
  }

  lemma BitLength(l: U32, m: U32)
    ensures 8 * (l + TWO_32 * m) % TWO_64 == TWO_32 * (l / 0x2000_0000 + 8 * (m % 0x2000_0000)) + 8 * (l % 0x2000_0000)
  {
    var n := TWO_32 * (l / 0x2000_0000 + 8 * (m % 0x2000_0000)) + 8 * (l % 0x2000_0000);
    assert 8 * (l + TWO_32 * m) == TWO_64 * (m / 0x2000_0000) + n;
    assert 0 <= n < TWO_64;
  }

  // The last block or two of a padded message.
  lemma FoldPadding(compress: Compression, md: Md, rest: seq<Byte>, length: nat)
    requires |rest| < BLOCK
    ensures var n := 8 * length % TWO_64;
            Fold(compress, md, rest + Padding(|rest|, length)) ==
              if |rest| <= 55 then compress(md, Words(Fill(rest + [0x80]))[14 := n % TWO_32][15 := n / TWO_32])
              else compress(compress(md, Words(Fill(rest + [0x80]))),
                  Words(Fill([]))[14 := n % TWO_32][15 := n / TWO_32])
  {
    var n := 8 * length % TWO_64;
    if |rest| <= 55 {
      var block := (rest + [0x80]) + Zeros(55 - |rest|) + ToBytes(n, 8);
      assert rest + Padding(|rest|, length) == block;
      FillLength(rest + [0x80], n);
      FoldBlock(compress, md, block);
    } else {
      var last := [] + Zeros(56) + ToBytes(n, 8);
      assert rest + Padding(|rest|, length) == Fill(rest + [0x80]) + last;
      FillLength([], n);
      FoldAppend(compress, md, Fill(rest + [0x80]), last);
      FoldBlock(compress, md, Fill(rest + [0x80]));
      FoldBlock(compress, Fold(compress, md, Fill(rest + [0x80])), last);
    }
  }

  method Clear(x: array<U32>)
    requires x.Length == 16
    modifies x
    ensures x[..] == Words(Fill([]))
  {
    for i := 0 to 16
      invariant forall k :: 0 <= k < i ==> x[k] == 0
    {
      x[i] := 0;
    }
    forall k: nat | k < 16 ensures x[..][k] == Words(Fill([]))[k] {
      WordOf([], k);
    }
  }

  // Byte i goes into word i / 4 at bit 8 * (i % 4), by an exclusive or.
  method PutBytes(x: array<U32>, bytes: seq<Byte>)
    requires x.Length == 16 && |bytes| < BLOCK && x[..] == Words(Fill([]))
    modifies x
    ensures x[..] == Words(Fill(bytes))
  {
    assert bytes[..0] == [];
    for i := 0 to |bytes|
      invariant x[..] == Words(Fill(bytes[..i]))
    {
      FillOneMore(bytes[..i], bytes[i]);
      assert bytes[..i] + [bytes[i]] == bytes[..i + 1];
      x[i / 4] := Xor(x[i / 4], Shl(bytes[i], 8 * (i % 4)));
    }
    assert bytes[..|bytes|] == bytes;
  }

  lemma PlaceInBlock(n: nat)
    ensures n % 64 / 4 == n / 4 % 16 && n % 64 % 4 == n % 4
  {
  }

  // The bit n == 1 goes after the last byte.
  method PutFinalBit(x: array<U32>, lswlen: U32, ghost rest: seq<Byte>)
    requires x.Length == 16 && |rest| == lswlen % BLOCK && x[..] == Words(Fill(rest))
    modifies x
    ensures x[..] == Words(Fill(rest + [0x80]))
  {
    FillOneMore(rest, 0x80);
    FinalBit(lswlen % 4);
    PlaceInBlock(lswlen);
    x[lswlen / 4 % 16] := Xor(x[lswlen / 4 % 16], Shl(1, 8 * (lswlen % 4) + 7));
  }

  method PutLength(x: array<U32>, lswlen: U32, mswlen: U32)
    requires x.Length == 16
    modifies x
    ensures var n := 8 * (lswlen + TWO_32 * mswlen) % TWO_64;
            x[..] == old(x[..])[14 := n % TWO_32][15 := n / TWO_32]
  {
    LengthWords(lswlen, mswlen);
    x[14] := Shl(lswlen, 3);
    x[15] := Or(lswlen / 0x2000_0000, Shl(mswlen, 3));
  }

  method MDfinish(compress: Compression, mdbuf: Md, strptr: seq<Byte>, lswlen: U32, mswlen: U32) returns (md: Md)
    requires |strptr| >= lswlen % BLOCK
    ensures md == Fold(compress, mdbuf, strptr[..lswlen % BLOCK] + Padding(lswlen % BLOCK, lswlen + TWO_32 * mswlen))
  {
    md := mdbuf;
    var x := new U32[16];
    Clear(x);
    ghost var rest := strptr[..lswlen % BLOCK];
    PutBytes(x, strptr[..lswlen % BLOCK]);
    PutFinalBit(x, lswlen, rest);
    if lswlen % BLOCK > 55 {
      md := compress(md, x[..]);
      Clear(x);
    }
    PutLength(x, lswlen, mswlen);
    FoldPadding(compress, mdbuf, rest, lswlen + TWO_32 * mswlen);
    md := compress(md, x[..]);
  }

  // Bit 7 of byte k is the byte 0x80 at place k.
  lemma FinalBit(k: nat)
    requires k < 4
    ensures Shl(1, 8 * k + 7) == Shl(0x80, 8 * k)
  {
    SevenTimes(1, 8 * k);
    BytePlace(1, k);
    BytePlace(0x80, k);
  }

  lemma SevenTimes(x: nat, k: nat)
    ensures Doubled(x, k + 7) == 0x80 * Doubled(x, k)
  {
    assert Doubled(x, k + 7) == 4 * Doubled(x, k + 5);
    assert Doubled(x, k + 5) == 4 * Doubled(x, k + 3);
    Eightfold(x, k);
  }

  method ReadChunk(x: array<U32>, message: seq<Byte>)
    requires x.Length == 16 && |message| >= BLOCK
    modifies x
    ensures x[..] == Words(message[..BLOCK])
  {
    for i := 0 to 16
      invariant forall k :: 0 <= k < i ==> x[k] == Words(message[..BLOCK])[k]
    {
      assert message[..BLOCK][4 * i..4 * i + 4]
          == [message[4 * i], message[4 * i + 1], message[4 * i + 2], message[4 * i + 3]];
      x[i] := BytesToDword(message[4 * i], message[4 * i + 1], message[4 * i + 2], message[4 * i + 3]);
    }
  }

  // The chunk loop: all full blocks of the message.
  method Chunks(compress: Compression, data: seq<Byte>, length: U32) returns (md: Md, pos: nat)
    requires length <= |data|
    ensures pos == length - length % BLOCK && pos % BLOCK == 0 && md == Fold(compress, MD_INIT, data[..pos])
  {
    md, pos := MD_INIT, 0;
    var x := new U32[16];
    var nbytes: U32 := length;
    while nbytes > 63
      invariant pos + nbytes == length && pos % BLOCK == 0
      invariant md == Fold(compress, MD_INIT, data[..pos])
    {
      ReadChunk(x, data[pos..]);
      FoldChunk(compress, data, pos);
      md := compress(md, x[..]);
      pos, nbytes := pos + BLOCK, nbytes - BLOCK;
    }
  }

  lemma FoldChunk(compress: Compression, data: seq<Byte>, pos: nat)
    requires pos % BLOCK == 0 && pos + BLOCK <= |data|
    ensures Fold(compress, MD_INIT, data[..pos + BLOCK]) ==
            compress(Fold(compress, MD_INIT, data[..pos]), Words(data[pos..][..BLOCK]))
  {
    var chunk := data[pos..][..BLOCK];
    assert data[..pos] + chunk == data[..pos + BLOCK];
    FoldAppend(compress, MD_INIT, data[..pos], chunk);
    FoldBlock(compress, Fold(compress, MD_INIT, data[..pos]), chunk);
  }

  lemma WholeRest(n: nat, pos: nat)
    requires pos <= n && n % BLOCK == 0 && pos % BLOCK == 0
    ensures (n - pos) % BLOCK == 0
  {
  }

  lemma FoldTail(compress: Compression, message: seq<Byte>, pos: nat, padding: seq<Byte>)
    requires pos % BLOCK == 0 && pos <= |message| && (|message| + |padding|) % BLOCK == 0
    ensures |message[pos..] + padding| % BLOCK == 0
    ensures Fold(compress, MD_INIT, message + padding) ==
            Fold(compress, Fold(compress, MD_INIT, message[..pos]), message[pos..] + padding)
  {
    var tail := message[pos..] + padding;
    WholeRest(|message| + |padding|, pos);
    assert |tail| == |message| + |padding| - pos;
    assert message + padding == message[..pos] + tail;
    FoldAppend(compress, MD_INIT, message[..pos], tail);
  }

  lemma HashOfTail(compress: Compression, message: seq<Byte>, pos: nat)
    requires pos == |message| - |message| % BLOCK && pos % BLOCK == 0
    ensures Hash(compress, message) ==
            Digest(Fold(compress, Fold(compress, MD_INIT, message[..pos]),
                        message[pos..] + Padding(|message| % BLOCK, |message|)))
  {
    var padding := Padding(|message| % BLOCK, |message|);
    WholeBlocks(|message|, |padding|);
    FoldTail(compress, message, pos, padding);
  }

  // The digest of all data of less than 2^32 bytes. The length is kept in 32 bits, so longer
  // data is cut down to its first |data| % 2^32 bytes.
  method Ripemd160(compress: Compression, storage: array<Byte>, data: seq<Byte>)
    requires storage.Length == 20
    modifies storage
    ensures storage[..] == Hash(compress, data[..|data| % TWO_32])
    ensures |data| < TWO_32 ==> storage[..] == Hash(compress, data)
  {
    var length: U32 := |data| % TWO_32;
    ghost var message := data[..length];
    assert |data| < TWO_32 ==> message == data;
    var md, pos := Chunks(compress, data, length);
    HashOfTail(compress, message, pos);
    assert message[..pos] == data[..pos] && data[pos..][..length % BLOCK] == message[pos..];
    md := MDfinish(compress, md, data[pos..], length, 0);
    StoreDigest(storage, md);
  }

  // The four bytes of a word, the lowest first.
  method StoreWord(storage: array<Byte>, i: nat, w: U32)
    requires i + 4 <= storage.Length
    modifies storage
    ensures storage[..] == old(storage[..i]) + ToBytes(w, 4) + old(storage[i + 4..])
  {
    WordBytes(w);
    storage[i] := w % 256;
    storage[i + 1] := w / 0x100 % 256;
    storage[i + 2] := w / 0x1_0000 % 256;
    storage[i + 3] := w / 0x100_0000 % 256;
  }

  lemma WordBytes(w: U32)
    ensures ToBytes(w, 4) == [w % 256, w / 0x100 % 256, w / 0x1_0000 % 256, w / 0x100_0000 % 256]
  {
    assert ToBytes(w, 4) == [w % 256, w / 256 % 256] + ToBytes(w / 256 / 256, 2);
  }

  // One round: the bytes before place 4 * j and the word there make the bytes before the next place.
  lemma OneMoreWord(md: Md, j: nat, s: seq<Byte>, rest: seq<Byte>)
    requires j < 5 && s == Digest(md)[..4 * j]
    ensures (s + ToBytes(md[j], 4) + rest)[..4 * j + 4] == Digest(md)[..4 * j + 4]
  {
    assert j == 0 || j == 1 || j == 2 || j == 3 || j == 4;
    assert Digest(md)[4 * j..4 * j + 4] == ToBytes(md[j], 4);
    assert Digest(md)[..4 * j + 4] == Digest(md)[..4 * j] + Digest(md)[4 * j..4 * j + 4];
  }

  method StoreDigest(storage: array<Byte>, md: Md)
    requires storage.Length == 20
    modifies storage
    ensures storage[..] == Digest(md)
  {
    var i := 0;
    while i < 20
      invariant i % 4 == 0 && 0 <= i <= 20
      invariant storage[..i] == Digest(md)[..i]
    {
      OneMoreWord(md, i / 4, storage[..i], storage[i + 4..]);
      StoreWord(storage, i, md[i / 4]);
      assert storage[..i + 4] == storage[..][..i + 4];
      i := i + 4;
    }
    assert storage[..i] == storage[..];
  }

  // ----- data of 2^32 bytes and more -----

  const MAX_WORD: U32 := 0xffff_ffff

  // A compression function that counts blocks in its first word, up to the largest number.
  function Counting(md: Md, x: Words16): Md {
    md[0 := if md[0] < MAX_WORD then md[0] + 1 else md[0]]
  }

  lemma {:induction false} CountsBlocks(md: Md, bytes: seq<Byte>)
    requires |bytes| % BLOCK == 0
    ensures Fold(Counting, md, bytes)[0] ==
            if md[0] + |bytes| / BLOCK < MAX_WORD then md[0] + |bytes| / BLOCK else MAX_WORD
    decreases |bytes|
  {
    if bytes != [] {
      CountsBlocks(Counting(md, Words(bytes[..BLOCK])), bytes[BLOCK..]);
    }
  }

  lemma FirstWord(a: Md, b: Md)
    requires Digest(a) == Digest(b)
    ensures a[0] == b[0]
  {
    Places();
    assert Digest(a)[..4] == ToBytes(a[0], 4) && Digest(b)[..4] == ToBytes(b[0], 4);
    BytesRoundTrip(a[0], 4);
    BytesRoundTrip(b[0], 4);
  }

  // The blocks of a padded message.
  function Blocks(message: seq<Byte>): nat {
    (|message| + |Padding(|message| % BLOCK, |message|)|) / BLOCK
  }

  lemma CountOfHash(message: seq<Byte>)
    ensures var padded := message + Padding(|message| % BLOCK, |message|);
            |padded| % BLOCK == 0 && Fold(Counting, MD_INIT, padded)[0] ==
              if MD_INIT[0] + Blocks(message) < MAX_WORD then MD_INIT[0] + Blocks(message) else MAX_WORD
  {
    WholeBlocks(|message|, |Padding(|message| % BLOCK, |message|)|);
    CountsBlocks(MD_INIT, message + Padding(|message| % BLOCK, |message|));
  }

  lemma BlockCount(message: seq<Byte>)
    ensures Blocks(message) == |message| / BLOCK + if |message| % BLOCK <= 55 then 1 else 2
  {
    var (q, r) := (|message| / BLOCK, |message| % BLOCK);
    assert |message| + |Padding(r, |message|)| == BLOCK * (q + if r <= 55 then 1 else 2);
  }

  lemma MoreBlocks(short: seq<Byte>, long: seq<Byte>)
    requires |short| < TWO_32 && |short| + TWO_32 <= |long|
    ensures Blocks(short) < Blocks(long) && MD_INIT[0] + Blocks(short) < MAX_WORD
  {
    BlockCount(short);
    BlockCount(long);
    assert (|short| + TWO_32) / BLOCK == |short| / BLOCK + TWO_32 / BLOCK;
    assert |long| / BLOCK >= (|short| + TWO_32) / BLOCK;
  }

  // The digest that is computed is the specified one for all compression functions exactly when
  // the data is shorter than 2^32 bytes.
  lemma SpecifiedDigestIff(data: seq<Byte>)
    ensures (forall compress: Compression :: Hash(compress, data[..|data| % TWO_32]) == Hash(compress, data))
            <==> |data| < TWO_32
  {
    if |data| < TWO_32 {
      assert data[..|data| % TWO_32] == data;
    } else {
      var short := data[..|data| % TWO_32];
      MoreBlocks(short, data);
      CountOfHash(short);
      CountOfHash(data);
      if Hash(Counting, short) == Hash(Counting, data) {
        FirstWord(Fold(Counting, MD_INIT, short + Padding(|short| % BLOCK, |short|)),
                  Fold(Counting, MD_INIT, data + Padding(|data| % BLOCK, |data|)));
      }
      assert Hash(Counting, short) != Hash(Counting, data);
    }
  }
}
