/**
 The header that bzfile_seek_index makes up (bzread.c lines 149-190, bzlib.c lines 556-569): with
 the first bits of the letter B in the bit buffer, the shifted header and the bits at the start of
 the block are a stream header followed by those bits.
 */
module RestoredHeader {

  import opened Rotation
  import opened Words
  import opened BitStrings
  import opened Parser
  import opened BlockFormat
  import opened BitOutput
  import opened BitInput
  import opened Stream
  import opened ParsePrint

  lemma {:induction false} ShrDiv(v: nat, k: nat)
    ensures Shr(v, k) == v / Pow2(k)
    decreases k
  {
    if k > 0 {
      ShrDiv(v / 2, k - 1);
      DivTwiceOther(v, Pow2(k - 1));
    }
  }

  lemma DivTwiceOther(w: nat, d: nat)
    requires d >= 1
    ensures w / (2 * d) == w / 2 / d
  {
    DivMod(w / 2, d);
    var x, r := w / 2 / d, w / 2 % d;
    MulTwice(x, 0, d);
    DivUnique(w, 2 * d, x, 2 * r + w % 2);
  }

  lemma {:induction false} ShrShr(v: nat, j: nat, k: nat)
    ensures Shr(Shr(v, j), k) == Shr(v, j + k)
    decreases j
  {
    if j > 0 {
      ShrShr(v / 2, j - 1, k);
    }
  }

  lemma Pow2Bytes()
    ensures Pow2(8) == 256 && Pow2(16) == 0x1_0000 && Pow2(24) == 0x100_0000
  {
    assert Pow2(4) == 16;
    assert Pow2(8) == 256;
    Pow2Add(8, 8);
    Pow2Add(8, 16);
  }

  /** The bytes of a word are its bits. */
  lemma WordBytesBits(u: nat)
    requires u < WORD
    ensures BytesBits(WordBytes(u)) == Bits(u, 32)
  {
    hide Bits, Shr;
    Pow2Bytes();
    BitsConcat(u, 8, 24);
    BitsConcat(u, 8, 16);
    BitsConcat(u, 8, 8);
    ShrDiv(u, 24);
    ShrDiv(u, 16);
    ShrDiv(u, 8);
    BitsMod(u / 0x100_0000, 8, 8);
    BitsMod(u / 0x1_0000, 8, 8);
    BitsMod(u / 256, 8, 8);
    BitsMod(u, 8, 8);
    FourBytes(u / 0x100_0000 % 256, u / 0x1_0000 % 256, u / 256 % 256, u % 256);
  }

  lemma FourBytes(a: nat, b: nat, c: nat, d: nat)
    ensures BytesBits([a, b, c, d]) == Bits(a, 8) + (Bits(b, 8) + (Bits(c, 8) + Bits(d, 8)))
  {
    hide Bits, BytesBits;
    var none: seq<nat> := [];
    FirstByte(d, none);
    FirstByte(c, [d]);
    FirstByte(b, [c, d]);
    FirstByte(a, [b, c, d]);
    assert [d] + none == [d] && [c] + [d] == [c, d] && [b] + [c, d] == [b, c, d] && [a] + [b, c, d] == [a, b, c, d];
    assert BytesBits(none) == [] by {
      BytesLength(none);
    }
  }

  lemma FirstByte(a: nat, s: seq<nat>)
    ensures BytesBits([a] + s) == Bits(a, 8) + BytesBits(s)
  {
    assert ([a] + s)[1..] == s;
    hide Bits;
  }

  // ---------------------------------------------------------------- the header

  /** `('B' << 24) + ('Z' << 16) + ('h' << 8) + (blocksize + '0')` */
  function HeaderWord(level: nat): (v: nat)
  {
    0x425a_6830 + level
  }

  /** `val <<= bitsrem; val += startbits`, in 32 bits. */
  function ShiftedHeader(level: nat, bitsrem: nat, startbits: nat): (v: nat)
    ensures v < WORD
  {
    (Shl(HeaderWord(level), bitsrem) % WORD + startbits) % WORD
  }

  /** All of the shifted header, the bits that the word loses included. */
  lemma ShiftedBits(level: nat, r: nat, sb: nat)
    requires level <= 9 && r < 8 && sb < Pow2(r)
    ensures Bits(Shr(0x42, 8 - r), r) + Bits(ShiftedHeader(level, r, sb), 32)
              == Bits(HeaderWord(level), 32) + Bits(sb, r)
  {
    hide Bits, Shr, Shl, Pow2;
    var h := HeaderWord(level);
    var v := Shl(h, r) + sb;
    ShiftedNumber(h, r, sb);
    BitsConcat(v, 32, r);
    BitsConcat(v, r, 32);
    BitsMod(v, r, r);
    BitsMod(v, 32, 32);
    Pow2Word();
    assert v % WORD == ShiftedHeader(level, r, sb) by {
      ModSum(Shl(h, r), sb);
    }
    assert Shr(v, 32) == Shr(0x42, 8 - r) by {
      ShrShr(v, r, 32 - r);
      ShrShr(h, 24, 8 - r);
      Pow2Bytes();
      ShrDiv(h, 24);
    }
  }

  lemma ModSum(a: nat, b: nat)
    ensures (a % WORD + b) % WORD == (a + b) % WORD
  {
    var q := a / WORD;
    DivMod(a, WORD);
    DivMod(a % WORD + b, WORD);
    var q' := (a % WORD + b) / WORD;
    assert (q + q') * WORD == q * WORD + q' * WORD;
    DivUnique(a + b, WORD, q + q', (a % WORD + b) % WORD);
  }

  lemma ShiftedNumber(h: nat, r: nat, sb: nat)
    requires sb < Pow2(r)
    ensures Shr(Shl(h, r) + sb, r) == h && (Shl(h, r) + sb) % Pow2(r) == sb
  {
    ShlMul(h, r);
    ShrDiv(Shl(h, r) + sb, r);
    DivUnique(Shl(h, r) + sb, Pow2(r), h, sb);
  }

  lemma HeadOfStream(level: nat)
    requires level <= 9
    ensures BytesBits(WordBytes(HeaderWord(level))) == StreamHead(level)
  {
    hide BytesBits;
    assert WordBytes(HeaderWord(level)) == [0x42, 0x5a, 0x68, 0x30 + level];
  }

  /** What a restored decoder will read: a stream header, and the bits at the start of the block. */
  lemma RestoredBits(level: nat, r: nat, sb: nat)
    requires level <= 9 && r < 8 && sb < Pow2(r)
    ensures Bits(Shr(0x42, 8 - r), r) + BytesBits(WordBytes(ShiftedHeader(level, r, sb)))
              == StreamHead(level) + Bits(sb, r)
  {
    hide Bits, Shr, Shl, Pow2, BytesBits, WordBytes, StreamHead;
    WordBytesBits(ShiftedHeader(level, r, sb));
    WordBytesBits(HeaderWord(level));
    HeadOfStream(level);
    ShiftedBits(level, r, sb);
  }

  /** It comes to the state between blocks, with the bits that the other decoder had left. */
  lemma RestoredState(level: nat, r: nat, sb: nat)
    requires 1 <= level <= 9 && r < 8 && sb < Pow2(r)
    ensures Ok(Machine(0, Magic(0)))
    ensures Parse(Machine(0, Magic(0)), Bits(Shr(0x42, 8 - r), r) + BytesBits(WordBytes(ShiftedHeader(level, r, sb))))
         == Waiting(Machine(level, BlockMagic(0)), Bits(sb, r))
  {
    hide Bits, Shr, Shl, Pow2, BytesBits, WordBytes, StreamHead, ShiftedHeader, Step;
    RestoredBits(level, r, sb);
    ParseStreamHead(level, Bits(sb, r));
  }

  /** And what follows is what follows there. */
  lemma RestoredFuture(d: Data, level: nat, r: nat, sb: nat, crc: nat, rest: seq<bool>)
    requires GoodData(d) && 1 <= level <= 9 && r < 8 && sb < Pow2(r)
    ensures Ok(Machine(0, Magic(0))) && Ok(Machine(level, BlockMagic(0)))
    ensures Decompressed(d, Machine(0, Magic(0)), crc,
                         Bits(Shr(0x42, 8 - r), r) + BytesBits(WordBytes(ShiftedHeader(level, r, sb))) + rest)
         == Decompressed(d, Machine(level, BlockMagic(0)), crc, Bits(sb, r) + rest)
  {
    hide *;
    var bits := Bits(sb, r) + rest;
    RestoredBits(level, r, sb);
    ParseStreamHead(level, bits);
    assert StreamHead(level) + Bits(sb, r) + rest == StreamHead(level) + bits;
    SameParse(d, Machine(0, Magic(0)), Machine(level, BlockMagic(0)), crc, StreamHead(level) + bits, bits);
  }
}
