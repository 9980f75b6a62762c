/**
 Compressing one block (compress.c lines 604-669): sorting it, coding it and sending it.
 */
module BlockSender {

  import opened Rotation
  import opened Counting
  import opened Words
  import opened BitStrings
  import BlockSort
  import opened Codes
  import opened HuffmanTree
  import opened Mtf
  import opened ByteMap
  import opened MtfEncoder
  import opened Parser
  import opened BlockFormat
  import opened BitOutput
  import opened BlockOutput
  import TableChoice
  import opened BlockSize
  import opened RunLength
  import opened Crc
  import opened Stream
  import BlockRoundTrip

  method PutBytes(w: BitWriter, s: seq<nat>)
    requires w.Valid() && forall i :: 0 <= i < |s| ==> s[i] < 256
    modifies w
    ensures w.Valid() && w.Contents() == old(w.Contents()) + BytesBits(s) && old(w.zbits) <= w.zbits
  {
    ghost var before := w.Contents();
    Pow2Sizes();
    assert s[0..] == s;
    hide Holds, Bits, BytesBits, Pow2;
    for i := 0 to |s|
      invariant w.Valid() && w.Contents() + BytesBits(s[i..]) == before + BytesBits(s) && old(w.zbits) <= w.zbits
    {
      ghost var here := w.Contents();
      BytesFrom(s, i);
      w.W(8, s[i]);
      Assoc(here, Bits(s[i], 8), BytesBits(s[i + 1..]));
    }
    BytesFrom(s, |s|);
  }

  lemma BytesFrom(s: seq<nat>, i: nat)
    requires i <= |s|
    ensures i < |s| ==> BytesBits(s[i..]) == Bits(s[i], 8) + BytesBits(s[i + 1..])
    ensures i == |s| ==> BytesBits(s[i..]) == []
  {
    if i < |s| {
      assert s[i..][1..] == s[i + 1..];
    }
  }

  lemma BytesOk(crc: nat)
    ensures forall i :: 0 <= i < |BLOCK_MAGIC| ==> BLOCK_MAGIC[i] < 256
    ensures forall i :: 0 <= i < |END_MAGIC| ==> END_MAGIC[i] < 256
    ensures |WordBytes(crc)| == 4 && forall i :: 0 <= i < 4 ==> WordBytes(crc)[i] < 256
  {
  }

  lemma OrigPtrFits(p: nat)
    requires p < 900000
    ensures p < Pow2(24) && 0 < Pow2(1)
  {
    Pow2Sizes();
    assert Pow2(12) == 4096;
    Pow2Add(12, 12);
  }

  method SendHead(w: BitWriter, head: Head)
    requires w.Valid() && head.crc < 0x1_0000_0000 && head.origPtr < 900000 && !head.randomised
    modifies w
    ensures w.Valid() && w.Contents() == old(w.Contents()) + HeadBits(head) && old(w.zbits) <= w.zbits
  {
    ghost var before := w.Contents();
    hide *;
    BytesOk(head.crc);
    OrigPtrFits(head.origPtr);
    HeadSum(before, head);
    PutBytes(w, BLOCK_MAGIC);
    PutBytes(w, WordBytes(head.crc));
    w.W(1, 0);
    w.W(24, head.origPtr);
  }

  method SendBody(w: BitWriter, arr1: array<nat>, nMTF: nat, body: Body, ghost syms: seq<nat>)
    requires w.Valid() && Sendable(body, syms) && nMTF == |syms| && G_SIZE * (|body.selector| - 1) < nMTF
    requires forall t :: 0 <= t < |body.lens| ==> Within(body.lens[t], 1, 17)
    requires forall k :: 0 <= k < nMTF ==> k / 2 < arr1.Length && Half(arr1[..], k) == syms[k]
    modifies w
    ensures w.Valid() && w.Contents() == old(w.Contents()) + BodyBits(body, syms) && old(w.zbits) <= w.zbits
  {
    hide *;
    ghost var before := w.Contents();
    SendFacts(body, syms);
    BodySum(before, body, syms);
    SendMap(w, body.inUse);
    w.W(3, |body.lens|);
    w.W(15, |body.selector|);
    var mtf := SelectorValues(body.selector, |body.lens|);
    SendSelectors(w, mtf);
    SendTables(w, body.lens);
    var codes := AssignAll(body.lens);
    SendSymbols(w, arr1, nMTF, body, codes, syms);
  }

  lemma BodySum(before: seq<bool>, body: Body, syms: seq<nat>)
    requires Sendable(body, syms) && GoodBody(body) && |body.inUse| == 256 && forall t :: 0 <= t < |body.lens| ==>
              body.lens[t] != []
    ensures before + MapBits(body.inUse) + Bits(|body.lens|, 3) + Bits(|body.selector|, 15)
              + UnaryAll(SelectorMtf(body))
            + TablesBits(body.lens) + SymbolsBits(body, syms, 0) == before + BodyBits(body, syms)
  {
    hide MapBits, Bits, UnaryAll, SelectorMtf, TablesBits, SymbolsBits, Sendable;
  }

  lemma HeadSum(before: seq<bool>, head: Head)
    requires !head.randomised
    ensures before + BytesBits(BLOCK_MAGIC) + BytesBits(WordBytes(head.crc)) + Bits(0, 1) + Bits(head.origPtr, 24)
         == before + HeadBits(head)
  {
    hide BytesBits, Bits, BLOCK_MAGIC, WordBytes;
  }

  lemma SendFacts(body: Body, syms: seq<nat>)
    requires Sendable(body, syms) && forall t :: 0 <= t < |body.lens| ==> Within(body.lens[t], 1, 17)
    ensures |body.inUse| == 256 && |body.lens| < Pow2(3) && |body.selector| < Pow2(15) && GoodBody(body)
    ensures BlockOutput.Listed(Identity(|body.lens|), body.selector)
    ensures SelectorMtf(body) == Select(Identity(|body.lens|), body.selector)
    ensures forall t :: 0 <= t < |body.lens| ==> body.lens[t] != [] && body.lens[t][0] < 32
  {
    assert Pow2(2) == 4 && Pow2(4) == 16 && Pow2(8) == 256 && Pow2(12) == 4096;
    SelectorsListed(body);
    hide Used, Readable, Select, Identity;
    forall t | 0 <= t < |body.lens| ensures body.lens[t] != [] && body.lens[t][0] < 32 {
      assert Lengths(body.lens[t]);
    }
  }

  /** The tables that were built can send the block. */
  lemma BuiltSendable(head: Head, inUse: seq<bool>, selector: seq<nat>, lens: seq<seq<nat>>, l: seq<byte>)
    requires AllUsed(l, inUse) && 0 < |l| <= MAX_BLOCK
    requires TableChoice.Tables(selector, lens, AlphaSize(inUse), |Symbols(l, inUse)|)
    requires forall k :: 0 <= k < |Symbols(l, inUse)| ==> Symbols(l, inUse)[k] < AlphaSize(inUse)
    ensures Sendable(Body(head, inUse, selector, lens), Symbols(l, inUse))
    ensures ShortCodes(lens) && G_SIZE * (|selector| - 1) < |Symbols(l, inUse)|
    ensures |selector| <= MAX_SELECTORS
  {
    UsedRank(inUse, l[0]);
    AlphaBound(inUse);
    hide Symbols, KraftSum, Used, Readable;
    forall t | 0 <= t < |lens| ensures Lengths(lens[t]) {
      assert Within(lens[t], 1, 17);
    }
    var body, syms := Body(head, inUse, selector, lens), Symbols(l, inUse);
    forall k | 0 <= k < |syms| ensures Readable(TableFor(body, k), syms[k]) {
      KraftReadable(TableFor(body, k), syms[k]);
    }
  }

  lemma AlphaBound(inUse: seq<bool>)
    requires |inUse| == 256
    ensures AlphaSize(inUse) <= 258
  {
  }

  /** The symbols of the block fit its alphabet. */
  lemma SymbolsBound(l: seq<byte>, inUse: seq<bool>)
    requires AllUsed(l, inUse) && 0 < |l| <= MAX_BLOCK
    ensures |inUse| == 256 && 1 <= |Symbols(l, inUse)| <= 900001 && 3 <= AlphaSize(inUse) <= 258
    ensures forall k :: 0 <= k < |Symbols(l, inUse)| ==> Symbols(l, inUse)[k] < AlphaSize(inUse)
  {
    BlockRoundTrip.SymbolsFacts(l, inUse, MAX_BLOCK);
    UsedRank(inUse, l[0]);
    AlphaBound(inUse);
    assert |Identity(|Unseq(inUse)|)| == |Unseq(inUse)|;
    hide Symbols, Used, Decode, Rank, Identity;
  }

  // What is sent for a block, as a function of its bytes and the work factor.

  ghost function BodyFor(head: Head, inUse: seq<bool>, l: seq<byte>): (body: Body)
  {
    if !AllUsed(l, inUse) then Body(head, inUse, [], [])
    else
      var syms := Symbols(l, inUse);
      Body(head, inUse, TableChoice.SelectorsOf(syms, AlphaSize(inUse)), TableChoice.TablesOf(syms, AlphaSize(inUse)))
  }

  ghost function ColumnOf(b: seq<byte>, p: seq<nat>): (l: seq<byte>)
  {
    if Perm(p, |b|) then LastColumn(b, p) else []
  }

  ghost function CodedWith(d: Data, workFactor: int, runs: seq<Run>, inUse: seq<bool>): (r: Sent)
    requires GoodData(d) && Runs(runs)
  {
    var b := StoredAll(runs);
    var p := BlockSort.OrderFor(b, workFactor);
    var head := Head(BlockCrcOf(d.crcTable, OriginalAll(runs)), false, BlockSort.RowOf(p));
    Sent(runs, p, BodyFor(head, inUse, ColumnOf(b, p)))
  }

  /** Which bytes occur. */
  ghost function UsedBytes(b: seq<byte>): (inUse: seq<bool>)
  {
    seq(256, c requires 0 <= c < 256 => c in b)
  }

  /** The block that is sent for the given runs. */
  ghost function Coded(d: Data, workFactor: int, runs: seq<Run>): (r: Sent)
    requires GoodData(d) && Runs(runs)
  {
    CodedWith(d, workFactor, runs, UsedBytes(StoredAll(runs)))
  }

  lemma BodyForIs(head: Head, inUse: seq<bool>, l: seq<byte>)
    requires AllUsed(l, inUse)
    ensures |inUse| == 256
    ensures BodyFor(head, inUse, l)
            == Body(head, inUse, TableChoice.SelectorsOf(Symbols(l, inUse), AlphaSize(inUse)),
                    TableChoice.TablesOf(Symbols(l, inUse), AlphaSize(inUse)))
  {
    hide Symbols, TableChoice.SelectorsOf, TableChoice.TablesOf, AlphaSize;
  }

  lemma CodedWithIs(d: Data, workFactor: int, runs: seq<Run>, inUse: seq<bool>, p: seq<nat>, origPtr: nat)
    requires GoodData(d) && Runs(runs)
    requires p == BlockSort.OrderFor(StoredAll(runs), workFactor) && origPtr == BlockSort.RowOf(p)
    requires Perm(p, |StoredAll(runs)|)
    ensures var head := Head(BlockCrcOf(d.crcTable, OriginalAll(runs)), false, origPtr);
            CodedWith(d, workFactor, runs, inUse)
            == Sent(runs, p, BodyFor(head, inUse, LastColumn(StoredAll(runs), p)))
  {
    hide BodyFor, BlockSort.OrderFor, BlockSort.RowOf, BlockCrcOf, LastColumn, StoredAll, OriginalAll, Runs, Perm;
  }

  lemma CodedIs(d: Data, workFactor: int, runs: seq<Run>, inUse: seq<bool>)
    requires GoodData(d) && Runs(runs) && |inUse| == 256
    requires forall c :: 0 <= c < 256 ==> (inUse[c] <==> c in StoredAll(runs))
    ensures Coded(d, workFactor, runs) == CodedWith(d, workFactor, runs, inUse)
  {
    hide CodedWith, StoredAll, Runs;
    assert inUse == UsedBytes(StoredAll(runs));
  }

  /** The tables for the symbols of a block, and what is sent with them. */
  method MakeBody(arr1: array<nat>, mtfFreq: array<nat>, inUse: array<bool>, nMTF: nat, nInUse: nat, head: Head,
                  ghost l: seq<byte>)
    returns (body: Body)
    requires inUse.Length == 256 && AllUsed(l, inUse[..]) && 0 < |l| <= MAX_BLOCK
    requires nInUse == |Used(inUse[..], 256)| && nMTF == |Symbols(l, inUse[..])|
    requires forall k :: 0 <= k < nMTF ==> k / 2 < arr1.Length && Half(arr1[..], k) == Symbols(l, inUse[..])[k]
    requires Counted(mtfFreq[..], Symbols(l, inUse[..]), nInUse + 1)
    ensures body.head == head && body.inUse == inUse[..] && Sendable(body, Symbols(l, inUse[..]))
    ensures ShortCodes(body.lens) && |body.selector| <= MAX_SELECTORS
    ensures G_SIZE * (|body.selector| - 1) < nMTF
    ensures body == BodyFor(head, inUse[..], l)
  {
    hide *;
    ghost var used: seq<bool>, syms: seq<nat> := inUse[..], Symbols(l, inUse[..]);
    AlphaIs(used);
    BodyForIs(head, used, l);
    SymbolsBound(l, used);
    SymbolsEnd(l, used);
    IsHolding(arr1[..], syms);
    var selector, lens;
    ghost var before;
    selector, lens, before := TableChoice.BuildTables(arr1, mtfFreq, nMTF, nInUse + 2, syms);
    BuiltSendable(head, used, selector, lens, l);
    body := Body(head, inUse[..], selector, lens);
  }

  /** Everything but the header of one block. */
  method CodeBlock(w: BitWriter, arr1: array<nat>, block: array<nat>, inUse: array<bool>, nblock: nat, head: Head,
                   ghost b: seq<byte>, ghost p: seq<nat>) returns (ghost body: Body)
    requires w.Valid() && arr1 != block && 0 < nblock == |b| == arr1.Length <= MAX_BLOCK && nblock <= block.Length
    requires block[..nblock] == b && arr1[..] == p && Sorted(b, p) && inUse.Length == 256 && AllUsed(b, inUse[..])
    modifies w, arr1
    ensures w.Valid() && Perm(p, |b|) && body.head == head && body.inUse == inUse[..]
    ensures AllUsed(LastColumn(b, p), inUse[..])
    ensures Sendable(body, Symbols(LastColumn(b, p), inUse[..])) && ShortCodes(body.lens)
    ensures |body.selector| <= MAX_SELECTORS
    ensures w.Contents() == old(w.Contents()) + BodyBits(body, Symbols(LastColumn(b, p), inUse[..]))
    ensures old(w.zbits) <= w.zbits
    ensures body == BodyFor(head, inUse[..], LastColumn(b, p))
  {
    hide *;
    LargestBlock();
    SortedPerm(b, p);
    ColumnUsed(b, p, inUse[..]);
    ghost var l, used := LastColumn(b, p), inUse[..];
    ghost var syms: seq<nat> := Symbols(l, used);
    SymbolsBound(l, used);
    var unseqToSeq, mtfFreq := new nat[256], new nat[258];
    var nInUse, nMTF := GenerateMtfValues(arr1, block, inUse, unseqToSeq, mtfFreq, nblock, b);
    var sent := MakeBody(arr1, mtfFreq, inUse, nMTF, nInUse, head, l);
    body := sent;
    ShortWithin(sent.lens);
    SendBody(w, arr1, nMTF, sent, syms);
  }

  lemma ShortWithin(lens: seq<seq<nat>>)
    requires ShortCodes(lens)
    ensures forall t :: 0 <= t < |lens| ==> Within(lens[t], 1, 17)
  {
  }

  lemma IsHolding(words: seq<nat>, syms: seq<nat>)
    requires forall k :: 0 <= k < |syms| ==> k / 2 < |words| && Half(words, k) == syms[k]
    ensures TableChoice.Holding(words, syms)
  {
  }

  /** The symbols of a block are of its alphabet, and end with the last of it. */
  lemma SymbolsEnd(l: seq<byte>, inUse: seq<bool>)
    requires AllUsed(l, inUse) && 0 < |l| <= MAX_BLOCK
    ensures |inUse| == 256 && Symbols(l, inUse) != []
    ensures Symbols(l, inUse)[|Symbols(l, inUse)| - 1] == AlphaSize(inUse) - 1
    ensures TableChoice.InAlphabet(Symbols(l, inUse), AlphaSize(inUse))
  {
    SymbolsBound(l, inUse);
    RanksListed(l, inUse);
    EncodeEnds(Identity(|Used(inUse, 256)|), Ranks(l, inUse), 0, |Used(inUse, 256)| + 1);
    AlphaIs(inUse);
    hide Encode, Used, Identity, Ranks, AlphaSize;
  }

  lemma AlphaIs(inUse: seq<bool>)
    requires |inUse| == 256
    ensures AlphaSize(inUse) == |Used(inUse, 256)| + 2
  {
  }

  lemma SentIs(d: Data, level: nat, r: Sent)
    requires GoodData(d) && GoodBlock(d, level, r)
    ensures Perm(r.order, |StoredAll(r.runs)|) && AllUsed(LastColumn(StoredAll(r.runs), r.order), r.body.inUse)
    ensures var syms := Symbols(LastColumn(StoredAll(r.runs), r.order), r.body.inUse);
            && Sendable(r.body, syms)
            && SentBits(d, level, r) == HeadBits(r.body.head) + BodyBits(r.body, syms)
  {
    GoodBlockFacts(d, level, r);
    hide Sendable, Symbols, HeadBits, BodyBits, Sorted, AllUsed, StoredAll, GoodBlock;
  }

  lemma MakeGood(d: Data, level: nat, r: Sent)
    requires GoodData(d) && 1 <= level <= 9 && Runs(r.runs) && r.runs != []
    requires var b := StoredAll(r.runs);
             && 0 < |b| <= 100000 * level && Sorted(b, r.order) && AllUsed(b, r.body.inUse) && Perm(r.order, |b|)
             && r.body.head.origPtr < |b| && r.order[r.body.head.origPtr] == 0
    requires r.body.head == Head(BlockCrcOf(d.crcTable, OriginalAll(r.runs)), false, r.body.head.origPtr)
    requires AllUsed(LastColumn(StoredAll(r.runs), r.order), r.body.inUse)
    requires Sendable(r.body, Symbols(LastColumn(StoredAll(r.runs), r.order), r.body.inUse))
    ensures GoodBlock(d, level, r)
  {
    hide Sendable, Symbols, AllUsed, StoredAll, Sorted;
  }

  /** The compressed block fits behind the bytes it was made from. */
  lemma SentFits(d: Data, level: nat, r: Sent)
    requires GoodData(d) && GoodBlock(d, level, r) && ShortCodes(r.body.lens)
    requires |r.body.selector| <= MAX_SELECTORS
    ensures 32 + |SentBits(d, level, r)| + 80 + 31 <= 8 * (4 * (100000 * level + 34) - |StoredAll(r.runs)|)
  {
    hide *;
    GoodBlockFacts(d, level, r);
    SentBitsAre(d, level, r);
    var b := StoredAll(r.runs);
    SentSymbols(d, level, r);
    BlockFits(r.body, Symbols(LastColumn(b, r.order), r.body.inUse), level, |b|);
  }

  lemma SentSymbols(d: Data, level: nat, r: Sent)
    requires GoodData(d) && GoodBlock(d, level, r)
    ensures var b := StoredAll(r.runs);
            && Perm(r.order, |b|) && AllUsed(LastColumn(b, r.order), r.body.inUse) && |b| <= 100000 * level
            && 1 <= level <= 9
            && |Symbols(LastColumn(b, r.order), r.body.inUse)| <= |b| + 1
  {
    GoodBlockFacts(d, level, r);
    BlockRoundTrip.SymbolsFacts(LastColumn(StoredAll(r.runs), r.order), r.body.inUse, MAX_BLOCK);
    hide Sendable, Symbols, AllUsed, StoredAll, Decode, Le;
  }

  lemma LargestBlock()
    ensures MAX_BLOCK == 900000
  {
  }

  /** One block, from the collected bytes to the bit buffer. */
  method SendBlock(w: BitWriter, block: array<nat>, inUse: array<bool>, nblock: nat, blockCRC: nat, workFactor: int,
                   level: nat, ghost d: Data, ghost runs: seq<Run>) returns (ghost r: Sent)
    requires w.Valid() && GoodData(d) && 1 <= level <= 9 && Runs(runs) && runs != []
    requires blockCRC == BlockCrcOf(d.crcTable, OriginalAll(runs))
    requires 0 < nblock <= 100000 * level && nblock + 34 <= block.Length && block[..nblock] == StoredAll(runs)
    requires inUse.Length == 256 && AllUsed(StoredAll(runs), inUse[..])
    modifies w, block
    ensures w.Valid() && GoodBlock(d, level, r) && r.runs == runs && r.body.head.crc == blockCRC
    ensures block[..nblock] == StoredAll(runs)
    ensures w.Contents() == old(w.Contents()) + SentBits(d, level, r) && old(w.zbits) <= w.zbits
    ensures 32 + |SentBits(d, level, r)| + 80 + 31 <= 8 * (4 * (100000 * level + 34) - nblock)
    ensures r == CodedWith(d, workFactor, runs, inUse[..])
  {
    hide *;
    LargestBlock();
    ghost var b := StoredAll(runs);
    var arr1, eclass, quadrant, ftab := new nat[nblock], new nat[nblock], new nat[nblock + 34], new nat[65537];
    var origPtr := BlockSort.Sort(arr1, eclass, block, quadrant, ftab, nblock, workFactor, b);
    ghost var p: seq<nat> := arr1[..];
    SortedPerm(b, p);
    CodedWithIs(d, workFactor, runs, inUse[..], p, origPtr);
    var head := Head(blockCRC, false, origPtr);
    ghost var before := w.Contents();
    SendHead(w, head);
    ghost var body := CodeBlock(w, arr1, block, inUse, nblock, head, b, p);
    r := Sent(runs, p, body);
    MakeGood(d, level, r);
    SentIs(d, level, r);
    Assoc(before, HeadBits(head), BodyBits(body, Symbols(LastColumn(b, p), inUse[..])));
    SentFits(d, level, r);
  }
}
