/**
 The bits that the decoder takes for a block, exactly: the format of a block (decompress.c lines
 185-492) as a set of bit strings, with all the freedom that it leaves.
 */
module BlockTexts {

  import opened Rotation
  import opened Words
  import opened BitStrings
  import opened Codes
  import opened Mtf
  import opened ByteMap
  import opened MtfEncoder
  import MtfUnique
  import opened Parser
  import opened BlockFormat
  import opened ParsePrint
  import opened ParseSymbols
  import opened BlockRoundTrip
  import opened ReadBack

  /** What the bits of a block say besides its bytes: groups may be flagged in vain, lengths reached by detours. */
  datatype Text = Text(head: Head, used16: seq<bool>, inUse: seq<bool>, mtf: seq<nat>, walks: seq<Walk>)

  /** The selectors that count. */
  function FirstSelectors(mtf: seq<nat>): (s: seq<nat>)
  {
    if |mtf| <= 18002 then mtf else mtf[..18002]
  }

  ghost predicate TablesOk(t: Text)
  {
    && |t.used16| == 16 && |t.inUse| == 256 && Covered(t.used16, t.inUse)
    && 2 <= |t.walks| <= 6 && WalksOk(t.inUse, t.walks)
    && 1 <= |t.mtf| <= 32767 && Picks(t.mtf, |t.walks|)
  }

  ghost function BodyOf(t: Text): (b: Body)
    requires TablesOk(t)
  {
    Body(t.head, t.inUse, Unselect(Identity(|t.walks|), FirstSelectors(t.mtf)), LengthsOf(t.walks))
  }

  /** The bytes use the map, and their symbols have codes in the tables of their groups. */
  ghost predicate WellFormed(level: nat, t: Text, column: seq<byte>)
  {
    && HeadFits(t.head, level) && TablesOk(t) && AllUsed(column, t.inUse)
    && t.head.origPtr < |column| <= 100000 * level
    && Sendable(BodyOf(t), Symbols(column, t.inUse))
  }

  ghost function TextBits(level: nat, t: Text, column: seq<byte>): (b: seq<bool>)
    requires WellFormed(level, t, column)
  {
    HeadText(t.head) + (t.used16 + (FlagBits(t.used16, t.inUse, 0)
    + (Bits(|t.walks|, 3) + (Bits(|t.mtf|, 15) + (UnaryAll(t.mtf)
    + (WalksBits(t.walks) + SymbolsBits(BodyOf(t), Symbols(column, t.inUse), 0)))))))
  }

  lemma KeptIs(mtf: seq<nat>)
    ensures Kept(mtf) == FirstSelectors(mtf)
  {
  }

  lemma TextFacts(level: nat, t: Text, column: seq<byte>)
    requires WellFormed(level, t, column)
    ensures TablesOk(t) && AllUsed(column, t.inUse)
    ensures var n, body, syms := |t.walks|, BodyOf(t), Symbols(column, t.inUse);
            && HeadFits(t.head, level) && Covered(t.used16, t.inUse) && |t.used16| == 16 && |t.inUse| == 256
            && Groups(t.inUse, n) && Unseq(t.inUse) != [] && 2 <= n <= 6 && WalksOk(t.inUse, t.walks)
            && 1 <= |t.mtf| <= MOST_SELECTORS && Picks(t.mtf, n) && Picks(Kept(t.mtf), n)
            && (forall x :: 0 <= x < n ==> TurnsOk(t.walks[x].start, t.walks[x].turns))
            && 0 < |column| <= 100000 * level && t.head.origPtr < |column|
            && 1 <= level <= 9 && Sendable(body, syms)
            && body.head == t.head && body.inUse == t.inUse && body.lens == LengthsOf(t.walks) && |body.lens| == n
            && body.selector == Unselect(Identity(n), Kept(t.mtf)) && Picks(body.selector, n)
            && GoodTables(t.inUse, body.selector, body.lens) && GoodTables(t.inUse, [], body.lens)
  {
    KeptIs(t.mtf);
    UsedRank(t.inUse, column[0]);
    UnselectPicks(Identity(|t.walks|), Kept(t.mtf), |t.walks|);
    hide Used, Symbols, TurnsOk, LengthsFrom, Lengths, Readable, Unselect, Kept;
  }

  lemma TextOk(level: nat, t: Text, column: seq<byte>)
    requires WellFormed(level, t, column)
    ensures |t.used16| == 16 && |t.inUse| == 256 && TablesOk(t) && AllUsed(column, t.inUse)
    ensures Sendable(BodyOf(t), Symbols(column, t.inUse))
  {
    hide Covered, WalksOk, Symbols, Sendable, HeadFits, BodyOf;
  }

  lemma TextRegrouped(level: nat, t: Text, column: seq<byte>, rest: seq<bool>)
    requires WellFormed(level, t, column)
    ensures TextBits(level, t, column) + rest
            == HeadText(t.head) + (t.used16 + (FlagBits(t.used16, t.inUse, 0)
               + (Bits(|t.walks|, 3) + (Bits(|t.mtf|, 15) + (UnaryAll(t.mtf)
               + (WalksBits(t.walks) + (SymbolsBits(BodyOf(t), Symbols(column, t.inUse), 0) + rest)))))))
  {
    hide HeadText, FlagBits, Bits, UnaryAll, WalksBits, SymbolsBits, WellFormed, BodyOf, Symbols, TablesOk, Sendable;
    TextOk(level, t, column);
    Flatten(HeadText(t.head), t.used16, FlagBits(t.used16, t.inUse, 0), Bits(|t.walks|, 3), Bits(|t.mtf|, 15),
            UnaryAll(t.mtf), WalksBits(t.walks), SymbolsBits(BodyOf(t), Symbols(column, t.inUse), 0), rest);
  }

  lemma Flatten(a: seq<bool>, b: seq<bool>, c: seq<bool>, d: seq<bool>, e: seq<bool>, f: seq<bool>, g: seq<bool>,
                h: seq<bool>, r: seq<bool>)
    ensures a + (b + (c + (d + (e + (f + (g + h)))))) + r == a + (b + (c + (d + (e + (f + (g + (h + r)))))))
  {
    assert g + h + r == g + (h + r);
    assert f + (g + h) + r == f + (g + (h + r));
    assert e + (f + (g + h)) + r == e + (f + (g + (h + r)));
    assert d + (e + (f + (g + h))) + r == d + (e + (f + (g + (h + r))));
    assert c + (d + (e + (f + (g + h)))) + r == c + (d + (e + (f + (g + (h + r)))));
  }

  lemma CrcFits(head: Head, level: nat)
    requires HeadFits(head, level)
    ensures head.crc < 0x1_0000_0000
  {
  }

  /** The tables are read, and the symbols begin. */
  lemma SymbolsBegin(level: nat, body: Body)
    requires GoodBody(body) && Groups(body.inUse, |body.lens|) && Picks(body.selector, |body.lens|)
    requires GoodTables(body.inUse, [], body.lens) && |body.selector| >= 1
    ensures var u := StartMtf(body.inUse); var m := Machine(level, SymbolCode(body, GroupOf(0), PlaceOf(0), u));
            && InBlock(body, GroupOf(0), PlaceOf(0), u) && GroupOf(0) < |body.selector| && Ok(m)
            && Listing(u, Unseq(body.inUse)) && |u.list| == |Unseq(body.inUse)|
            && TableDone(level, body.head, body.inUse, |body.lens|, body.selector, body.lens) == To(m)
  {
    TableDoneEnd(level, body);
    hide Used, Lengths;
  }

  lemma UnselectSize(list: seq<nat>, mtf: seq<nat>)
    requires Picks(Kept(mtf), |list|) && |mtf| >= 1
    ensures 1 <= |Unselect(list, Kept(mtf))| <= 18002
  {
    hide Unselect;
  }

  lemma StartListed(inUse: seq<bool>)
    requires |inUse| == 256
    ensures StartMtf(inUse) == Unmtf(Identity(|Used(inUse, 256)|), [], NoRun) && Unseq(inUse) == Used(inUse, 256)
    ensures |StartMtf(inUse).list| == |Used(inUse, 256)|
  {
    hide Used;
  }

  lemma AtFirst(body: Body, syms: seq<nat>)
    requires Sendable(body, syms) && syms != [] && |body.inUse| == 256
    requires Listing(StartMtf(body.inUse), Unseq(body.inUse))
    requires |StartMtf(body.inUse).list| == |Unseq(body.inUse)|
    requires forall i :: 0 <= i < |syms| ==> syms[i] <= |StartMtf(body.inUse).list| + 1
    ensures AtSymbol(body, syms, 0, StartMtf(body.inUse))
  {
    hide Used, Readable, Lengths, StartMtf;
  }

  lemma MaxLevel(level: nat)
    requires 1 <= level <= 9
    ensures 100000 * level <= MAX_BLOCK
  {
  }

  /** Every such text is a block for the decoder. */
  lemma TextParsed(level: nat, t: Text, column: seq<byte>, rest: seq<bool>)
    requires WellFormed(level, t, column)
    ensures Ok(Machine(level, BlockMagic(0)))
    ensures Parse(Machine(level, BlockMagic(0)), TextBits(level, t, column) + rest)
            == GotBlock(Machine(level, BlockMagic(0)), t.head, column, rest)
  {
    hide *;
    TextFacts(level, t, column);
    TextRegrouped(level, t, column, rest);
    BlockMagicOk(level);
    CrcFits(t.head, level);
    HeadTextIs(t.head);
    MaxLevel(level);
    var n, body, syms, u := |t.walks|, BodyOf(t), Symbols(column, t.inUse), StartMtf(t.inUse);
    var r5 := SymbolsBits(body, syms, 0) + rest;
    var r4 := WalksBits(t.walks) + r5;
    var r3 := Bits(n, 3) + (Bits(|t.mtf|, 15) + (UnaryAll(t.mtf) + r4));
    ParseHead(level, t.head, t.used16 + (FlagBits(t.used16, t.inUse, 0) + r3));
    ParseFlagged(level, t.head, t.used16, t.inUse, r3);
    ParseCounts(level, t.head, t.inUse, n, t.mtf, r4);
    NoTables(t.inUse, n);
    assert LengthsOf(t.walks)[..0] == [] && t.walks[0..] == t.walks;
    ParseWalks(level, t.head, t.inUse, body.selector, t.walks, 0, r5);
    UnselectSize(Identity(n), t.mtf);
    BodyGood(body);
    SymbolsBegin(level, body);
    ContinueTo(Machine(level, SymbolCode(body, GroupOf(0), PlaceOf(0), u)), r5);
    SymbolsFacts(column, t.inUse, 100000 * level);
    StartListed(t.inUse);
    assert syms[0..] == syms;
    AtFirst(body, syms);
    IsLeading(level, body, u, syms, column);
    ParseAllSymbols(level, body, syms, 0, u, column, rest);
  }

  lemma BodyGood(body: Body)
    requires GoodTables(body.inUse, body.selector, body.lens)
    ensures GoodBody(body)
  {
  }

  // ---------------------------------------------------------------- and no other bits are

  /** The bits of the symbols, as they are printed. */
  lemma {:induction false} CodesArePrinted(body: Body, syms: seq<nat>, k: nat)
    requires Sendable(body, syms) && k <= |syms| && SymbolsOk(body, k, syms[k..])
    ensures CodesFrom(body, k, syms[k..]) == SymbolsBits(body, syms, k)
    decreases |syms| - k
  {
    hide GoodBody, Readable, AlphaSize, CodeBits;
    if k < |syms| {
      SymbolsOkRest(body, k, syms[k..]);
      assert syms[k..][1..] == syms[k + 1..];
      CodesArePrinted(body, syms, k + 1);
    }
  }

  lemma IsSendable(body: Body, syms: seq<nat>)
    requires SymbolsOk(body, 0, syms) && 2 <= |body.lens| <= 6 && 1 <= |body.selector| <= 18002
    ensures Sendable(body, syms)
  {
    hide Used, Lengths, Readable;
    forall k | 0 <= k < |syms| ensures syms[k] < AlphaSize(body.inUse) && Readable(TableFor(body, k), syms[k]) {
      assert 0 + k == k;
    }
  }

  lemma BodyGoodTables(inUse: seq<bool>, n: nat, mtf: seq<nat>, lens: seq<seq<nat>>)
    requires Groups(inUse, n) && Picks(Kept(mtf), n) && |lens| == n && GoodTables(inUse, [], lens) && |mtf| >= 1
    ensures var s := Unselect(Identity(n), Kept(mtf)); Picks(s, n) && GoodTables(inUse, s, lens) && 1 <= |s| <= 18002
  {
    UnselectPicks(Identity(n), Kept(mtf), n);
    hide Used, Lengths, Unselect;
  }

  lemma IsWellFormed(level: nat, t: Text, column: seq<byte>)
    requires HeadFits(t.head, level) && |t.used16| == 16 && |t.inUse| == 256 && Covered(t.used16, t.inUse)
    requires 2 <= |t.walks| <= 6 && WalksOk(t.inUse, t.walks) && 1 <= |t.mtf| <= 32767 && Picks(t.mtf, |t.walks|)
    requires AllUsed(column, t.inUse) && t.head.origPtr < |column| <= 100000 * level
    requires forall x :: 0 <= x < |t.walks| ==> TurnsOk(t.walks[x].start, t.walks[x].turns)
    requires Picks(Kept(t.mtf), |t.walks|)
    requires Sendable(Body(t.head, t.inUse, Unselect(Identity(|t.walks|), Kept(t.mtf)), LengthsOf(t.walks)),
                      Symbols(column, t.inUse))
    ensures WellFormed(level, t, column)
    ensures BodyOf(t) == Body(t.head, t.inUse, Unselect(Identity(|t.walks|), Kept(t.mtf)), LengthsOf(t.walks))
  {
    KeptIs(t.mtf);
    hide Covered, WalksOk, Symbols, Sendable, Unselect, HeadFits;
  }

  /** Whatever the decoder takes for a block is such a text. */
  lemma TextFound(level: nat, bits: seq<bool>, m': Machine, head: Head, column: seq<byte>, rest: seq<bool>)
    returns (t: Text)
    requires 1 <= level <= 9 && Ok(Machine(level, BlockMagic(0)))
    requires Parse(Machine(level, BlockMagic(0)), bits) == GotBlock(m', head, column, rest)
    ensures WellFormed(level, t, column) && t.head == head && m' == Machine(level, BlockMagic(0))
    ensures bits == TextBits(level, t, column) + rest
  {
    hide *;
    var h, r1 := HeadBack(level, bits);
    ComesIs(Parse(Machine(level, BlockMagic(0)), bits));
    var g, inUse, r2 := MapBack(level, h, r1);
    var n, mtf, r3 := CountsBack(level, h, inUse, r2);
    var selector := Unselect(Identity(n), Kept(mtf));
    NoWalks(inUse, n, mtf);
    var ws, r4 := WalksBack(level, h, inUse, n, selector, [], r3);
    assert ws[0..] == ws;
    BodyGoodTables(inUse, n, mtf, LengthsOf(ws));
    var body := Body(h, inUse, selector, LengthsOf(ws));
    BodyGood(body);
    SymbolsBegin(level, body);
    var u := StartMtf(inUse);
    ContinueTo(Machine(level, SymbolCode(body, GroupOf(0), PlaceOf(0), u)), r4);
    SymbolsHead(level, body, u, r4, m', head, column, rest);
    Positive(body);
    var syms := SymbolsBack(level, body, 0, u, column, r4, m', rest);
    StartListed(inUse);
    MtfUnique.SymbolsUnique(inUse, syms, 100000 * level, column);
    IsSendable(body, syms);
    assert syms[0..] == syms;
    CodesArePrinted(body, syms, 0);
    t := Text(h, g, inUse, mtf, ws);
    IsWellFormed(level, t, column);
    TextRegrouped(level, t, column, rest);
  }

  lemma Positive(body: Body)
    requires |body.selector| >= 1
    ensures 0 < G_SIZE * |body.selector|
  {
  }

  lemma NoWalks(inUse: seq<bool>, n: nat, mtf: seq<nat>)
    requires Groups(inUse, n) && Picks(Kept(mtf), n)
    ensures WalksOk(inUse, []) && LengthsOf([]) == [] && GoodTables(inUse, [], [])
    ensures Picks(Unselect(Identity(n), Kept(mtf)), n)
  {
    UnselectPicks(Identity(n), Kept(mtf), n);
    hide Used, Unselect;
  }

  /** The block that comes has the header that was read. */
  lemma {:induction false} SymbolsHead(level: nat, body: Body, u: Unmtf, bits: seq<bool>, m': Machine, head: Head,
                                       column: seq<byte>, rest: seq<bool>)
    requires Ok(Machine(level, SymbolCode(body, GroupOf(0), PlaceOf(0), u)))
    requires Parse(Machine(level, SymbolCode(body, GroupOf(0), PlaceOf(0), u)), bits)
              == GotBlock(m', head, column, rest)
    ensures head == body.head
  {
    HeadKept(Machine(level, SymbolCode(body, GroupOf(0), PlaceOf(0), u)), bits, body.head);
  }

  lemma {:induction false} HeadKept(m: Machine, bits: seq<bool>, head: Head)
    requires Ok(m)
    requires ((m.stage.SymbolCode? && m.stage.body.head == head) || (m.stage.SymbolBit? && m.stage.body.head == head))
    ensures Parse(m, bits).GotBlock? ==> Parse(m, bits).head == head
    decreases |bits|
  {
    hide *;
    if Parse(m, bits).GotBlock? {
      ComesIs(Parse(m, bits));
      var v, rest := Invert(m, bits);
      SymbolHead(m, v);
      ContinueIs(Step(m, v), rest);
      if Step(m, v).To? {
        HeadKept(Step(m, v).m, rest, head);
      }
    }
  }

  lemma SymbolHead(m: Machine, v: nat)
    requires Ok(m) && (m.stage.SymbolCode? || m.stage.SymbolBit?)
    ensures var e := Step(m, v);
            && !e.End? && e != Fail(DataErrorMagic)
            && (e.Block? ==> e.head == m.stage.body.head)
            && (e.To? ==> (e.m.stage.SymbolCode? || e.m.stage.SymbolBit?) && e.m.stage.body.head == m.stage.body.head)
  {
    hide *;
    SymbolFacts(m);
    var body, g, gp, u := m.stage.body, m.stage.groupNo, m.stage.groupPos, m.stage.m;
    BlockFacts(body, g, gp, u);
    if m.stage.SymbolCode? {
      SymbolCodeStep(m.level, body, g, gp, u, v);
      assert m == Machine(m.level, SymbolCode(body, g, gp, u));
      JudgeHead(m.level, body, g, gp, u, MinOf(Lens(body, g)), v);
    } else {
      SymbolBitStep(m.level, body, g, gp, u, m.stage.zn - 1, m.stage.zvec, v);
      assert m == Machine(m.level, SymbolBit(body, g, gp, u, m.stage.zn, m.stage.zvec));
      JudgeHead(m.level, body, g, gp, u, m.stage.zn, 2 * m.stage.zvec + v);
    }
  }

  lemma JudgeHead(level: nat, body: Body, g: nat, gp: nat, u: Unmtf, zn: nat, zvec: nat)
    requires InBlock(body, g, gp, u) && Searching(TableOf(Lens(body, g)), Lens(body, g), zn, zvec)
    ensures var e := Judge(level, body, g, gp, u, zn, zvec);
            && !e.End? && e != Fail(DataErrorMagic)
            && (e.Block? ==> e.head == body.head)
            && (e.To? ==> (e.m.stage.SymbolCode? || e.m.stage.SymbolBit?) && e.m.stage.body.head == body.head)
  {
    hide Look, TableOf, Lens, Searching, InBlock, Take, TooShort, Ok, Listing, GoodBody;
  }

  /**
   The decoder gets a block from some bits if and only if they are such a text and the bits that it
   leaves.
   */
  lemma BlockExactly(level: nat, bits: seq<bool>, m': Machine, head: Head, column: seq<byte>, rest: seq<bool>)
    requires 1 <= level <= 9
    ensures Ok(Machine(level, BlockMagic(0)))
    ensures Parse(Machine(level, BlockMagic(0)), bits) == GotBlock(m', head, column, rest)
            <==> && m' == Machine(level, BlockMagic(0))
                 && exists t ::
                      WellFormed(level, t, column) && t.head == head && bits == TextBits(level, t, column) + rest
  {
    hide *;
    BlockMagicOk(level);
    if Parse(Machine(level, BlockMagic(0)), bits) == GotBlock(m', head, column, rest) {
      var t := TextFound(level, bits, m', head, column, rest);
    }
    if t :| WellFormed(level, t, column) && t.head == head && bits == TextBits(level, t, column) + rest {
      TextParsed(level, t, column, rest);
    }
  }
}
