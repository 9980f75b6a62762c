/**
 The flag for the end of the file stays set when a handle goes on from an entry of the index
 (bzread.c lines 149-190 and 342-384): after the end was reached, a read at an offset that has an
 entry at or before it gives nothing.
 */
module EndFlag {

  import opened Rotation
  import opened Counting
  import opened Words
  import opened BitStrings
  import opened Codes
  import opened HuffmanTree
  import opened Mtf
  import opened ByteMap
  import opened MtfEncoder
  import opened Parser
  import opened BlockFormat
  import opened BitInput
  import opened RunLength
  import opened Crc
  import opened Stream
  import opened BlockIndex
  import BlockRoundTrip
  import BlockSender
  import Decoder
  import RandomAccess

  // ---------------------------------------------------------------- files of bits

  function Packed(bits: seq<bool>): (s: seq<byte>)
    requires |bits| % 8 == 0
    decreases |bits|
  {
    if bits == [] then []
    else
      assert Pow2(8) == 256;
      [Value(bits[..8])] + Packed(bits[8..])
  }

  lemma {:induction false} PackedBits(bits: seq<bool>)
    requires |bits| % 8 == 0
    ensures BytesBits(Packed(bits)) == bits
    decreases |bits|
  {
    if bits != [] {
      hide Value, Bits;
      BitsValue(bits[..8]);
      PackedBits(bits[8..]);
      assert bits == bits[..8] + bits[8..];
      assert Packed(bits)[1..] == Packed(bits[8..]);
    }
  }

  /** The entry for the end of a block at bit `p` of the file. */
  function EntryAt(file: seq<byte>, p: nat, offset: nat, crc: nat, level: nat): (e: BzIndex)
    requires p <= 8 * |file| == |BytesBits(file)|
    ensures TotalIn(e) <= |file| && BitsRem(e) == 8 * TotalIn(e) - p
  {
    var total := (p + 7) / 8;
    BzIndex(offset, p, crc, level, Value(BytesBits(file)[p..8 * total]))
  }

  lemma EntryBits(file: seq<byte>, p: nat, offset: nat, crc: nat, level: nat)
    requires p <= 8 * |file|
    ensures |BytesBits(file)| == 8 * |file|
    ensures var e := EntryAt(file, p, offset, crc, level);
            && e.startbits < Pow2(BitsRem(e))
            && Bits(e.startbits, BitsRem(e)) + BytesBits(file[TotalIn(e)..]) == BytesBits(file)[p..]
  {
    hide *;
    BytesLength(file);
    EntryIs(file, p, offset, crc, level);
    var total, all := (p + 7) / 8, BytesBits(file);
    BytesConcat(file[..total], file[total..]);
    BytesLength(file[..total]);
    assert file[..total] + file[total..] == file;
    BitsValue(all[p..8 * total]);
    assert all[p..] == all[p..8 * total] + all[8 * total..];
  }

  // ---------------------------------------------------------------- files of blocks

  lemma {:induction false} BlocksConcat(d: Data, level: nat, a: seq<Sent>, b: seq<Sent>)
    requires GoodData(d) && GoodBlocks(d, level, a + b)
    ensures GoodBlocks(d, level, a) && GoodBlocks(d, level, b)
    ensures BlocksBits(d, level, a + b) == BlocksBits(d, level, a) + BlocksBits(d, level, b)
    ensures BlocksText(a + b) == BlocksText(a) + BlocksText(b)
    decreases |a|
  {
    hide SentBits, GoodBlock, OriginalAll;
    forall i | 0 <= i < |a| ensures GoodBlock(d, level, a[i]) { assert (a + b)[i] == a[i]; }
    forall i | 0 <= i < |b| ensures GoodBlock(d, level, b[i]) { assert (a + b)[|a| + i] == b[i]; }
    if a == [] {
      assert a + b == b;
    } else {
      assert (a + b)[1..] == a[1..] + b;
      BlocksConcat(d, level, a[1..], b);
    }
  }

  lemma {:induction false} CrcConcat(c: nat, a: seq<Sent>, b: seq<Sent>)
    requires c < 0x1_0000_0000
    ensures StreamCrc(c, a + b) == StreamCrc(StreamCrc(c, a), b) && StreamCrc(c, a) < 0x1_0000_0000
    decreases |a|
  {
    hide Combine;
    if a == [] {
      assert a + b == b;
    } else {
      assert (a + b)[1..] == a[1..] + b;
      CrcConcat(Combine(c, a[0].body.head.crc), a[1..], b);
    }
  }

  /** The bits of a file up to the end of the blocks `a`. */
  ghost function BitsTo(d: Data, level: nat, a: seq<Sent>): (p: nat)
    requires GoodData(d) && GoodBlocks(d, level, a)
  {
    |StreamHead(level) + BlocksBits(d, level, a)|
  }

  lemma HeadLength(level: nat)
    ensures |StreamHead(level)| == 32
  {
    BytesLength([0x42, 0x5a, 0x68, 0x30 + level]);
  }

  lemma Cut(h: seq<bool>, a: seq<bool>, b: seq<bool>, t: seq<bool>)
    ensures |h + a| <= |h + (a + b + t)| && (h + (a + b + t))[|h + a|..] == b + t
  {
  }

  lemma BitsToIs(d: Data, level: nat, a: seq<Sent>)
    requires GoodData(d) && GoodBlocks(d, level, a)
    ensures BitsTo(d, level, a) == |StreamHead(level) + BlocksBits(d, level, a)|
  {
  }

  lemma BitsOfFile(d: Data, level: nat, a: seq<Sent>, b: seq<Sent>, rest: seq<bool>)
    requires GoodData(d) && GoodBlocks(d, level, a + b)
    ensures GoodBlocks(d, level, a) && GoodBlocks(d, level, b)
    ensures var bits := StreamBits(d, level, a + b) + rest;
            && 32 <= BitsTo(d, level, a) <= |bits|
            && bits[BitsTo(d, level, a)..]
                 == BlocksBits(d, level, b) + (TrailerBits(StreamCrc(StreamCrc(0, a), b)) + rest)
  {
    hide *;
    HeadLength(level);
    BlocksConcat(d, level, a, b);
    CrcConcat(0, a, b);
    BitsToIs(d, level, a);
    StreamBitsParts(d, level, a + b, rest);
    Cut(StreamHead(level), BlocksBits(d, level, a), BlocksBits(d, level, b),
        TrailerBits(StreamCrc(StreamCrc(0, a), b)) + rest);
  }

  /** Wherever a block ends, there is an entry for it. */
  lemma BlockEndOk(d: Data, level: nat, a: seq<Sent>, b: seq<Sent>, w: Whole)
    requires GoodData(d) && 1 <= level <= 9 && GoodBlocks(d, level, a + b) && w.d == d
    requires BytesBits(w.file) == StreamBits(d, level, a + b) + w.rest && w.text == BlocksText(a + b)
    ensures GoodWhole(w) && GoodBlocks(d, level, a) && |BytesBits(w.file)| == 8 * |w.file|
    ensures BitsTo(d, level, a) <= 8 * |w.file|
    ensures IndexOk(w, EntryAt(w.file, BitsTo(d, level, a), |BlocksText(a)|, StreamCrc(0, a), level))
  {
    hide *;
    StreamRoundTrip(d, level, a + b, w.rest);
    IsGoodWhole(w);
    BytesLength(w.file);
    BitsOfFile(d, level, a, b, w.rest);
    BlocksConcat(d, level, a, b);
    CrcConcat(0, a, b);
    var p, crc := BitsTo(d, level, a), StreamCrc(0, a);
    EntryBits(w.file, p, |BlocksText(a)|, crc, level);
    BlocksRead(d, level, b, crc, w.rest);
    assert w.text[|BlocksText(a)|..] == BlocksText(b);
    EntryIs(w.file, p, |BlocksText(a)|, crc, level);
    IsIndexOk(w, EntryAt(w.file, p, |BlocksText(a)|, crc, level));
  }

  lemma IsGoodWhole(w: Whole)
    requires GoodData(w.d) && Ok(Machine(0, Magic(0)))
    requires Decompressed(w.d, Machine(0, Magic(0)), 0, BytesBits(w.file)) == Good(w.text, w.rest)
    ensures GoodWhole(w)
  {
  }

  lemma EntryIs(file: seq<byte>, p: nat, offset: nat, crc: nat, level: nat)
    requires p <= 8 * |file| == |BytesBits(file)|
    ensures var e := EntryAt(file, p, offset, crc, level);
            && e.offset == offset && e.blocksize == level && e.crc == crc && TotalIn(e) == (p + 7) / 8
            && BitsRem(e) == 8 * TotalIn(e) - p && e.startbits == Value(BytesBits(file)[p..8 * TotalIn(e)])
  {
  }

  lemma IsIndexOk(w: Whole, e: BzIndex)
    requires GoodData(w.d) && Ok(Machine(e.blocksize, BlockMagic(0)))
    requires e.offset <= |w.text| && 1 <= e.blocksize <= 9 && 4 <= TotalIn(e) <= |w.file|
    requires e.startbits < Pow2(BitsRem(e))
    requires Decompressed(w.d, Machine(e.blocksize, BlockMagic(0)), e.crc,
                          Bits(e.startbits, BitsRem(e)) + BytesBits(w.file[TotalIn(e)..]))
             == Good(w.text[e.offset..], w.rest)
    ensures IndexOk(w, e)
  {
  }

  // ---------------------------------------------------------------- a block of one letter

  lemma {:induction false} OneUsed(inUse: seq<bool>, c: byte, n: nat)
    requires n <= |inUse| == 256 && forall i :: 0 <= i < 256 ==> (inUse[i] <==> i == c)
    ensures Used(inUse, n) == if c < n then [c] else []
  {
    if n > 0 {
      OneUsed(inUse, c, n - 1);
    }
  }

  lemma ThreeCodes()
    ensures Lengths([1, 2, 2]) && KraftSum([1, 2, 2], 3) <= 1.0
  {
    var len: seq<nat> := [1, 2, 2];
    assert KraftSum(len, 1) == KraftSum(len, 0) + Share(1);
    assert KraftSum(len, 2) == KraftSum(len, 1) + Share(2);
    assert KraftSum(len, 3) == KraftSum(len, 2) + Share(2);
  }

  lemma LetterRuns(c: byte)
    ensures Runs([Run(c, 1)]) && StoredAll([Run(c, 1)]) == [c] == OriginalAll([Run(c, 1)])
  {
    assert Repeat(c, 1) == [c];
  }

  lemma LetterSorted(c: byte)
    ensures Sorted([c], [0]) && LastColumn([c], [0]) == [c]
  {
  }

  lemma LetterSendable(c: byte, head: Head, inUse: seq<bool>)
    requires |inUse| == 256 && forall i :: 0 <= i < 256 ==> (inUse[i] <==> i == c)
    ensures AllUsed([c], inUse) && Sendable(Body(head, inUse, [0], [[1, 2, 2], [1, 2, 2]]), Symbols([c], inUse))
  {
    hide *;
    OneUsed(inUse, c, 256);
    LetterUsed(c, inUse);
    BlockSender.SymbolsBound([c], inUse);
    BlockRoundTrip.SymbolsFacts([c], inUse, MAX_BLOCK);
    LetterTables(head, inUse, c, Symbols([c], inUse));
  }

  lemma LetterUsed(c: byte, inUse: seq<bool>)
    requires |inUse| == 256 && forall i :: 0 <= i < 256 ==> (inUse[i] <==> i == c)
    ensures AllUsed([c], inUse) && 0 < |[c]| <= MAX_BLOCK
  {
  }

  /** Any two symbols of an alphabet of three can be sent with the lengths 1, 2 and 2. */
  lemma LetterTables(head: Head, inUse: seq<bool>, c: byte, syms: seq<nat>)
    requires |inUse| == 256 && Used(inUse, 256) == [c] && |syms| <= 2
    requires forall k :: 0 <= k < |syms| ==> syms[k] < AlphaSize(inUse)
    ensures Sendable(Body(head, inUse, [0], [[1, 2, 2], [1, 2, 2]]), syms)
  {
    hide Used, KraftSum, Readable, Lengths;
    ThreeCodes();
    var body := Body(head, inUse, [0], [[1, 2, 2], [1, 2, 2]]);
    assert forall t :: 0 <= t < 2 ==> body.lens[t] == [1, 2, 2];
    forall k | 0 <= k < |syms| ensures Readable(TableFor(body, k), syms[k]) {
      KraftReadable([1, 2, 2], syms[k]);
    }
  }

  ghost function LetterBlock(d: Data, c: byte): (r: Sent)
    requires GoodData(d)
  {
    var inUse := seq(256, i => i == c);
    Sent([Run(c, 1)], [0], Body(Head(BlockCrcOf(d.crcTable, [c]), false, 0), inUse, [0], [[1, 2, 2], [1, 2, 2]]))
  }

  lemma LetterGood(d: Data, c: byte)
    requires GoodData(d)
    ensures GoodBlock(d, 9, LetterBlock(d, c)) && OriginalAll(LetterBlock(d, c).runs) == [c]
  {
    var r := LetterBlock(d, c);
    LetterRuns(c);
    LetterSorted(c);
    LetterSendable(c, r.body.head, r.body.inUse);
    hide Runs, StoredAll, OriginalAll, Sorted, AllUsed, Sendable, Symbols, BlockCrcOf;
  }

  // ---------------------------------------------------------------- the reads

  /** The file of some blocks, padded to whole bytes. */
  lemma LetterFile(d: Data, rs: seq<Sent>) returns (w: Whole)
    requires GoodData(d) && GoodBlocks(d, 9, rs)
    ensures w.d == d && BytesBits(w.file) == StreamBits(d, 9, rs) + w.rest && w.text == BlocksText(rs)
  {
    hide *;
    var bits := StreamBits(d, 9, rs);
    var pad := seq((8 - |bits| % 8) % 8, _ => false);
    PackedBits(bits + pad);
    w := Whole(d, Packed(bits + pad), BlocksText(rs), pad);
  }

  /** With an entry at or before the offset, no choice is to start over. */
  lemma NeverReset(curroff: nat, offset: nat, ix: seq<BzIndex>, ix': seq<BzIndex>, cached: int, i: nat)
    requires ix <= ix' && Increasing(ix') && i < |ix| && ix[i].offset <= offset
    ensures !Choose(curroff, offset, ix', cached).Reset?
  {
    FirstPastNearest(ix', offset, 0);
    assert ix'[i] == ix[i];
  }

  /** The calls of the block end handler that fill an index. */
  method FillIndex(zc: BzCache, ix: seq<BzIndex>)
    requires zc.Valid() && zc.indexes == [] && IndexValid(zc.w, ix)
    modifies zc`indexes
    ensures zc.Valid() && zc.indexes == ix
  {
    hide *;
    IndexValidFacts(zc.w, ix);
    for i := 0 to |ix|
      invariant zc.Valid() && zc.indexes == ix[..i]
    {
      var e := ix[i];
      EntryAgain(zc.w, e);
      IncreasingAt(ix, i);
      assert ix[..i + 1] == ix[..i] + [e];
      zc.SaveState(e.offset, TotalIn(e), BitsRem(e), e.startbits, e.crc, e.blocksize);
    }
    assert ix[..|ix|] == ix;
  }

  lemma IncreasingAt(ix: seq<BzIndex>, i: nat)
    requires Increasing(ix) && i < |ix|
    ensures forall j :: 0 <= j < i ==> ix[..i][j].offset < ix[i].offset
  {
  }

  lemma EntryAgain(w: Whole, e: BzIndex)
    requires GoodData(w.d) && IndexOk(w, e)
    ensures BitsRem(e) < 8 && 4 <= TotalIn(e)
    ensures BzIndex(e.offset, 8 * TotalIn(e) - BitsRem(e), e.crc, e.blocksize, e.startbits % Pow2(BitsRem(e))) == e
  {
    DivUnique(e.startbits, Pow2(BitsRem(e)), 0, e.startbits);
  }

  /**
   Any good file with an index filled before, and a handle that reads it to the end and then once
   more at an offset in the text: the second read gives nothing if an entry is at or before it.
   */
  method FlagSticks(d: Data, file: seq<byte>, ix: seq<BzIndex>, i: nat, m: nat, n: nat, offset: nat, ghost w: Whole)
    returns (first: RandomAccess.Reading, again: RandomAccess.Reading)
    requires IndexValid(w, ix) && w.d == d && w.file == file && |w.text| < m && 0 < n && offset < |w.text|
    requires i < |ix| && ix[i].offset <= offset
    ensures first == RandomAccess.Bytes(w.text) && again == RandomAccess.Bytes([])
    ensures RandomAccess.Slice(w.text, offset, n) != []
  {
    hide *;
    IndexValidFacts(w, ix);
    var sc := new RandomAccess.StreamCache();
    var zc := sc.NewCache(w);
    EmptyCache(sc);
    FillIndex(zc, ix);
    StillEmpty(sc, zc);
    var h := new RandomAccess.BzFile(d, file, zc);
    StillEmpty(sc, zc);
    h.DecodersAre(sc);
    AloneApart(h.s);
    first := h.Pread(sc, m, 0);
    Slices(w.text, m, n, offset);
    h.ChoiceFacts(sc, offset);
    h.ValidParts();
    RandomAccess.CacheFacts(zc);
    IndexValidFacts(w, zc.indexes);
    NeverReset(h.s.totalOut, offset, ix, zc.indexes, sc.Position(zc), i);
    h.DecodersAre(sc);
    again := h.Pread(sc, n, offset);
  }

  lemma EmptyCache(sc: RandomAccess.StreamCache)
    requires sc.Valid() && sc.s == null
    ensures sc.id == 0 && sc.Numbered()
  {
  }

  lemma StillEmpty(sc: RandomAccess.StreamCache, zc: BzCache)
    requires sc.s == null && sc.id == 0 && sc.Numbered() && sc.Knows(zc)
    ensures sc.Valid() && zc.id != 0
  {
  }

  lemma AloneApart(s: Decoder.Decoder)
    ensures RandomAccess.Apart(s, null)
  {
  }

  lemma Slices(text: seq<byte>, m: nat, n: nat, offset: nat)
    requires |text| < m && 0 < n && offset < |text|
    ensures RandomAccess.Slice(text, 0, m) == text && RandomAccess.Slice(text, offset, n) != []
  {
  }

  /** There is such a file, of two blocks, with the index that one reading of it leaves. */
  lemma TwoBlocks(d: Data, x: byte, y: byte) returns (w: Whole, ix: seq<BzIndex>)
    requires GoodData(d)
    ensures IndexValid(w, ix) && w.d == d && w.text == [x, y] && |ix| == 2 && ix[0].offset == 1 && ix[1].offset == 2
  {
    hide *;
    LetterGood(d, x);
    LetterGood(d, y);
    var a, b := LetterBlock(d, x), LetterBlock(d, y);
    TwoGood(d, a, b);
    TwoTexts(a, b, x, y);
    w := LetterFile(d, [a, b]);
    assert [a] + [b] == [a, b] && [a, b] + [] == [a, b];
    BlockEndOk(d, 9, [a], [b], w);
    BlockEndOk(d, 9, [a, b], [], w);
    EntryIs(w.file, BitsTo(d, 9, [a]), 1, StreamCrc(0, [a]), 9);
    EntryIs(w.file, BitsTo(d, 9, [a, b]), 2, StreamCrc(0, [a, b]), 9);
    ix := [EntryAt(w.file, BitsTo(d, 9, [a]), 1, StreamCrc(0, [a]), 9),
           EntryAt(w.file, BitsTo(d, 9, [a, b]), 2, StreamCrc(0, [a, b]), 9)];
    TwoEntries(w, ix);
  }

  lemma TwoGood(d: Data, a: Sent, b: Sent)
    requires GoodData(d) && GoodBlock(d, 9, a) && GoodBlock(d, 9, b)
    ensures GoodBlocks(d, 9, [a, b])
  {
    hide GoodBlock;
  }

  lemma TwoEntries(w: Whole, ix: seq<BzIndex>)
    requires |ix| == 2 && ix[0].offset == 1 && ix[1].offset == 2 && GoodWhole(w) && GoodData(w.d) && IndexOk(w, ix[0])
    requires IndexOk(w, ix[1])
    ensures IndexValid(w, ix)
  {
    hide IndexOk, GoodWhole;
  }

  lemma TwoTexts(a: Sent, b: Sent, x: byte, y: byte)
    requires OriginalAll(a.runs) == [x] && OriginalAll(b.runs) == [y]
    ensures BlocksText([a]) == [x] && BlocksText([a, b]) == [x, y]
  {
    hide OriginalAll;
    assert [a, b][1..] == [b] && [b][1..] == [] && [a][1..] == [];
    assert BlocksText([b]) == [y] + [];
  }
}
