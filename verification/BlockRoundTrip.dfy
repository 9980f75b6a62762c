/**
 A whole block: what compressBlock prints for a sorted block is parsed back to its last column.
 */
module BlockRoundTrip {

  import opened Rotation
  import opened Words
  import opened BitStrings
  import opened Codes
  import opened HuffmanTree
  import opened Mtf
  import opened ByteMap
  import opened MtfEncoder
  import opened Parser
  import opened BlockFormat
  import opened ParsePrint
  import opened ParseSymbols

  lemma TablesEnd(level: nat, body: Body, syms: seq<nat>, rest: seq<bool>)
    requires Sendable(body, syms) && syms != [] && Groups(body.inUse, |body.lens|) && Picks(body.selector, |body.lens|)
    requires GoodTables(body.inUse, [], body.lens)
    requires Listing(StartMtf(body.inUse), Unseq(body.inUse)) && AtSymbol(body, syms, 0, StartMtf(body.inUse))
    ensures Continue(TableDone(level, body.head, body.inUse, |body.lens|, body.selector, body.lens), rest)
         == Parse(Machine(level, SymbolCode(body, GroupOf(0), PlaceOf(0), StartMtf(body.inUse))), rest)
  {
    NextIs(level, body, syms, 0, StartMtf(body.inUse));
    hide Used, Parse, Lengths, Readable, StartMtf, Listing, Ok;
    assert body == Body(body.head, body.inUse, body.selector, body.lens);
    assert (0 + 49) / 50 - 1 == -1 && (50 - 0 % 50) % 50 == 0;
    TableDoneEnd(level, body);
    ContinueTo(Machine(level, SymbolCode(body, GroupOf(0), PlaceOf(0), StartMtf(body.inUse))), rest);
  }

  lemma TableDoneEnd(level: nat, body: Body)
    requires GoodBody(body) && Groups(body.inUse, |body.lens|) && Picks(body.selector, |body.lens|)
    requires GoodTables(body.inUse, [], body.lens)
    ensures Listing(StartMtf(body.inUse), Unseq(body.inUse)) && |StartMtf(body.inUse).list| == |Unseq(body.inUse)|
    ensures TableDone(level, body.head, body.inUse, |body.lens|, body.selector, body.lens)
         == NextSymbol(level, body, -1, 0, StartMtf(body.inUse))
  {
    hide Used, Lengths, NextSymbol;
  }

  lemma BodyFacts(body: Body, syms: seq<nat>)
    requires Sendable(body, syms) && syms != []
    ensures |body.inUse| == 256 && Unseq(body.inUse) != [] && 2 <= |body.lens| <= N_GROUPS
    ensures 1 <= |body.selector| <= MOST_SELECTORS
    ensures GoodBody(body) && Groups(body.inUse, |body.lens|) && GoodTables(body.inUse, body.selector, body.lens)
    ensures forall t :: 0 <= t < |body.lens| ==> body.lens[t] != []
    ensures Listing(StartMtf(body.inUse), Unseq(body.inUse)) && |StartMtf(body.inUse).list| == |Unseq(body.inUse)|
    ensures AtSymbol(body, syms, 0, StartMtf(body.inUse)) && syms[0..] == syms
    ensures body.lens[..0] == [] && body.lens[0..] == body.lens
    ensures forall i :: 0 <= i < |syms| ==> syms[i] <= |StartMtf(body.inUse).list| + 1
  {
    hide Used, Readable;
  }

  lemma BlockBitsParts(body: Body, syms: seq<nat>, rest: seq<bool>)
    requires Sendable(body, syms)
    ensures GoodBody(body) && |body.inUse| == 256 && forall t :: 0 <= t < |body.lens| ==> body.lens[t] != []
    ensures BlockBits(body, syms) + rest
            == HeadBits(body.head) + (MapBits(body.inUse)
               + (Bits(|body.lens|, 3) + (Bits(|body.selector|, 15) + (UnaryAll(SelectorMtf(body))
                  + (TablesBits(body.lens) + (SymbolsBits(body, syms, 0) + rest))))))
  {
    hide Used, Readable, HeadBits, MapBits, Bits, UnaryAll, SelectorMtf, TablesBits, SymbolsBits;
  }

  /** The block as the decoder has it: without the selectors that it does not keep. */
  function KeptBody(body: Body): (k: Body)
  {
    body.(selector := Kept(body.selector))
  }

  lemma KeptSendable(body: Body, syms: seq<nat>)
    requires Sendable(body, syms)
    ensures Sendable(KeptBody(body), syms)
  {
    hide Used, Readable, Lengths;
  }

  /** No symbol is coded with a table of a selector that is not kept. */
  lemma {:induction false} KeptSymbols(body: Body, syms: seq<nat>, k: nat)
    requires Sendable(body, syms) && Sendable(KeptBody(body), syms) && k <= |syms|
    ensures SymbolsBits(KeptBody(body), syms, k) == SymbolsBits(body, syms, k)
    decreases |syms| - k
  {
    hide Used, Readable, Lengths, CodeBits;
    if k < |syms| {
      assert GroupOf(k) < MAX_SELECTORS;
      KeptSymbols(body, syms, k + 1);
    }
  }

  lemma KeptParts(body: Body)
    requires GoodBody(body)
    ensures var b := KeptBody(body);
            && b.head == body.head && b.inUse == body.inUse && b.lens == body.lens && b.selector == Kept(body.selector)
            && GoodTables(b.inUse, b.selector, b.lens)
  {
    hide Used, Lengths;
  }

  lemma HeadOk(head: Head, level: nat)
    requires GoodHead(head, level)
    ensures HeadFits(head, level)
  {
  }

  lemma IsLeading(level: nat, body: Body, u: Unmtf, syms: seq<nat>, out: seq<byte>)
    requires |body.inUse| == 256 && Listing(u, Unseq(body.inUse))
    requires (forall i :: 0 <= i < |syms| ==> syms[i] <= |u.list| + 1) && forall i :: 0 <= i < |syms| - 1 ==>
              syms[i] != |u.list| + 1
    requires Decode(u, syms, |u.list| + 1, Unseq(body.inUse), 100000 * level) == Finished(out)
    ensures LeadsTo(level, body, u, syms, out)
  {
    hide Decode, Used;
  }

  /** The map, selectors and code lengths come back as they were sent, and the symbols are next. */
  lemma ParseTablesOfBlock(level: nat, body: Body, syms: seq<nat>, rest: seq<bool>)
    requires GoodHead(body.head, level) && Sendable(body, syms) && syms != []
    ensures |body.inUse| == 256 && Listing(StartMtf(body.inUse), Unseq(body.inUse))
    ensures AtSymbol(KeptBody(body), syms, 0, StartMtf(body.inUse)) && Sendable(KeptBody(body), syms)
    ensures Ok(Machine(level, SymbolCode(KeptBody(body), GroupOf(0), PlaceOf(0), StartMtf(body.inUse))))
    ensures Parse(Machine(level, BlockMagic(0)), BlockBits(body, syms) + rest)
         == Parse(Machine(level, SymbolCode(KeptBody(body), GroupOf(0), PlaceOf(0), StartMtf(body.inUse))),
                  SymbolsBits(KeptBody(body), syms, 0) + rest)
  {
    hide *;
    var kept := KeptBody(body);
    KeptSendable(body, syms);
    BodyFacts(body, syms);
    BodyFacts(kept, syms);
    KeptParts(body);
    KeptSymbols(body, syms, 0);
    BlockBitsParts(body, syms, rest);
    NextIs(level, kept, syms, 0, StartMtf(body.inUse));
    var r5 := SymbolsBits(body, syms, 0) + rest;
    var r4 := TablesBits(body.lens) + r5;
    var r3 := Bits(|body.lens|, 3) + (Bits(|body.selector|, 15) + (UnaryAll(SelectorMtf(body)) + r4));
    HeadOk(body.head, level);
    ParseHead(level, body.head, MapBits(body.inUse) + r3);
    ParseMap(level, body.head, body.inUse, r3);
    ParseGroupsAndSelectors(level, body, r4);
    ParseTables(level, body.head, body.inUse, kept.selector, body.lens, r5);
    TablesEnd(level, kept, syms, r5);
  }

  /**
   Printing and parsing: whatever tables were picked, the block comes back, exactly its bits
   are consumed, and the machine is ready for the next block.  There may be up to 32767
   selectors; those from the 18003rd on do not matter.
   */
  lemma PrintParse(level: nat, body: Body, syms: seq<nat>, out: seq<byte>, rest: seq<bool>)
    requires GoodHead(body.head, level) && Sendable(body, syms) && syms != [] && body.head.origPtr < |out|
    requires |body.inUse| == 256 && Listing(StartMtf(body.inUse), Unseq(body.inUse))
    requires var eob := |StartMtf(body.inUse).list| + 1;
             && (forall i :: 0 <= i < |syms| ==> syms[i] <= eob)
             && (forall i :: 0 <= i < |syms| - 1 ==> syms[i] != eob)
             && Decode(StartMtf(body.inUse), syms, eob, Unseq(body.inUse), 100000 * level) == Finished(out)
    ensures Parse(Machine(level, BlockMagic(0)), BlockBits(body, syms) + rest)
         == GotBlock(Machine(level, BlockMagic(0)), body.head, out, rest)
  {
    hide *;
    KeptSendable(body, syms);
    BodyFacts(body, syms);
    BodyFacts(KeptBody(body), syms);
    KeptParts(body);
    ParseTablesOfBlock(level, body, syms, rest);
    IsLeading(level, KeptBody(body), StartMtf(body.inUse), syms, out);
    ParseAllSymbols(level, KeptBody(body), syms, 0, StartMtf(body.inUse), out, rest);
  }

  lemma SymbolsFacts(l: seq<byte>, inUse: seq<bool>, max: nat)
    requires AllUsed(l, inUse) && 0 < |l| <= max <= MAX_BLOCK
    ensures |inUse| == 256 && Listing(StartMtf(inUse), Unseq(inUse)) && Symbols(l, inUse) != []
    ensures var eob, s := |StartMtf(inUse).list| + 1, Symbols(l, inUse);
            && |s| <= |l| + 1
            && (forall i :: 0 <= i < |s| ==> s[i] <= eob) && (forall i :: 0 <= i < |s| - 1 ==> s[i] != eob)
            && Decode(StartMtf(inUse), s, eob, Unseq(inUse), max) == Finished(l)
  {
    hide *;
    SymbolsAre(l, inUse);
    var unseq, r, m := Unseq(inUse), Ranks(l, inUse), StartMtf(inUse);
    var eob, s := |m.list| + 1, Symbols(l, inUse);
    MtfRoundTrip(m, r, 0, eob, unseq, max);
    EncodeShort(m.list, r, 0, eob);
    forall i | 0 <= i < |s| - 1 ensures s[i] != eob {
      EncodeSymbols(m.list, r, 0, eob, i);
    }
    UnrankedIs(l, inUse);
    NoneBefore(unseq[m.list[0]], l);
  }

  /** The symbols of a column are its coded ranks. */
  lemma SymbolsAre(l: seq<byte>, inUse: seq<bool>)
    requires AllUsed(l, inUse) && l != []
    ensures |inUse| == 256 && |Ranks(l, inUse)| == |l|
    ensures var unseq, r, m := Unseq(inUse), Ranks(l, inUse), StartMtf(inUse);
            && unseq == Used(inUse, 256) && Listing(m, unseq) && m.run.NoRun? && m.out == [] && |m.list| == |unseq| >= 1
            && m.list[0] < |unseq|
            && (forall i :: 0 <= i < |r| ==> r[i] in m.list && r[i] < |unseq|)
            && Symbols(l, inUse) == Encode(m.list, r, 0, |m.list| + 1)
  {
    RanksListed(l, inUse);
    hide Encode, Used, Rank;
    assert Ranks(l, inUse)[0] < |Unseq(inUse)|;
  }

  lemma NoneBefore(c: byte, l: seq<byte>)
    ensures [] + Repeat(c, 0) + l == l
  {
  }

  lemma UnrankedIs(l: seq<byte>, inUse: seq<bool>)
    requires AllUsed(l, inUse)
    ensures forall i :: 0 <= i < |l| ==> Ranks(l, inUse)[i] < |Used(inUse, 256)|
    ensures Unranked(Ranks(l, inUse), Used(inUse, 256)) == l
  {
    RanksListed(l, inUse);
    forall i | 0 <= i < |l| ensures Used(inUse, 256)[Ranks(l, inUse)[i]] == l[i] {
      UsedRank(inUse, l[i]);
    }
  }

  /** The round trip of a block from its last column. */
  lemma ColumnRoundTrip(level: nat, body: Body, column: seq<byte>, rest: seq<bool>)
    requires GoodHead(body.head, level) && AllUsed(column, body.inUse) && Sendable(body, Symbols(column, body.inUse))
    requires body.head.origPtr < |column| <= 100000 * level
    ensures Parse(Machine(level, BlockMagic(0)), BlockBits(body, Symbols(column, body.inUse)) + rest)
         == GotBlock(Machine(level, BlockMagic(0)), body.head, column, rest)
  {
    assert MAX_BLOCK == 900000;
    assert level <= 9;
    hide *;
    SymbolsFacts(column, body.inUse, 100000 * level);
    PrintParse(level, body, Symbols(column, body.inUse), column, rest);
  }
}
