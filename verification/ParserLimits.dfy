/**
 What the parser keeps besides its stage: the block size 1 to 9 once the stream header is read,
 and blocks that fit the arrays of that size (decompress.c lines 188-218, 263-275 and 437-492).
 */
module ParserLimits {

  import opened Rotation
  import opened Codes
  import opened Mtf
  import opened ByteMap
  import opened Parser

  predicate Fits(m: Machine)
  {
    if m.stage.Magic? then m.level == 0
    else
      && 1 <= m.level <= 9
      && (m.stage.SymbolCode? ==> |m.stage.m.out| <= 100000 * m.level)
      && (m.stage.SymbolBit? ==> |m.stage.m.out| <= 100000 * m.level)
  }

  /** At least how many bits the stage comes after. */
  function Passed(m: Machine): (n: nat)
  {
    if m.stage.Magic? then 8 * m.stage.k else 32
  }

  /** What an event of a machine may be. */
  predicate FitsEvent(m: Machine, e: Event)
  {
    match e
    case To(m') =>
      Fits(m') && (if m.stage.Magic? then Passed(m') == Passed(m) + 8 else m'.level == m.level && !m'.stage.Magic?)
    case Block(m', head, column) => !m.stage.Magic? && m'.level == m.level && |column| <= 100000 * m.level
    case End(_, _) => !m.stage.Magic?
    case Fail(_) => true
  }

  lemma TakeLimit(u: Unmtf, sym: nat, eob: nat, unseq: seq<byte>, max: nat)
    requires Listing(u, unseq) && sym <= eob && eob == |u.list| + 1 && |u.out| <= max
    ensures var t := Take(u, sym, eob, unseq, max);
            (t.Going? ==> |t.m.out| <= max) && (t.Finished? ==> |t.out| <= max)
  {
    hide Front;
  }

  lemma InBlockFacts(b: Body, g: nat, gp: nat, u: Unmtf)
    requires InBlock(b, g, gp, u)
    ensures |b.inUse| == 256 && GoodBody(b) && g < |b.selector| && Listing(u, Unseq(b.inUse))
    ensures AlphaSize(b.inUse) == |u.list| + 2
  {
    hide Used;
  }

  lemma ReceiveFits(level: nat, b: Body, g: nat, gp: nat, u: Unmtf, sym: nat, m: Machine)
    requires InBlock(b, g, gp, u) && sym < AlphaSize(b.inUse) && |u.out| <= 100000 * level && 1 <= level <= 9
    requires m.level == level && !m.stage.Magic?
    ensures FitsEvent(m, Receive(level, b, g, gp, u, sym))
  {
    hide Take, Listing, GoodBody, Ok, Used;
    InBlockFacts(b, g, gp, u);
    TakeLimit(u, sym, |u.list| + 1, Unseq(b.inUse), 100000 * level);
  }

  lemma JudgeFits(level: nat, b: Body, g: nat, gp: nat, u: Unmtf, zn: nat, zvec: nat, m: Machine)
    requires InBlock(b, g, gp, u) && Searching(TableOf(Lens(b, g)), Lens(b, g), zn, zvec)
    requires |u.out| <= 100000 * level && 1 <= level <= 9 && m.level == level && !m.stage.Magic?
    ensures FitsEvent(m, Judge(level, b, g, gp, u, zn, zvec))
  {
    hide InBlock, Searching, TableOf, Look, Receive, TooShort, Ok, Used, GoodBody;
    InBlockFacts(b, g, gp, u);
    if zn <= LONGEST {
      var len := Lens(b, g);
      LookFor(len, zn, zvec);
      match Look(TableOf(len), zn, zvec)
      case Symbol(sym) => ReceiveFits(level, b, g, gp, u, sym, m);
      case LongerBy1 =>
    }
  }

  lemma SymbolCodeIs(m: Machine, v: nat)
    requires Ok(m) && m.stage.SymbolCode?
    ensures var (b, g, gp, u) := (m.stage.body, m.stage.groupNo, m.stage.groupPos, m.stage.m);
            && InBlock(b, g, gp, u) && Searching(TableOf(Lens(b, g)), Lens(b, g), MinOf(Lens(b, g)), v)
            && StepSymbols(m, v) == Judge(m.level, b, g, gp, u, MinOf(Lens(b, g)), v)
  {
    hide InBlock, Searching, TableOf, TooShort, Ok, Judge, MinOf, MaxOf, Used, Lengths, Lens, Decodes, Look,
        GoodTables, Listing;
    SymbolFacts(m);
    InBlockFacts(m.stage.body, m.stage.groupNo, m.stage.groupPos, m.stage.m);
    FirstSearch(Lens(m.stage.body, m.stage.groupNo), v);
  }

  lemma SymbolBitIs(m: Machine, v: nat)
    requires Ok(m) && m.stage.SymbolBit?
    ensures var (b, g, gp, u) := (m.stage.body, m.stage.groupNo, m.stage.groupPos, m.stage.m);
            && InBlock(b, g, gp, u) && Searching(TableOf(Lens(b, g)), Lens(b, g), m.stage.zn, 2 * m.stage.zvec + v)
            && StepSymbols(m, v) == Judge(m.level, b, g, gp, u, m.stage.zn, 2 * m.stage.zvec + v)
  {
    hide InBlock, Searching, TableOf, TooShort, Ok, Judge, MinOf, MaxOf, Used, Lengths, Lens, Decodes, Look,
        GoodTables, Listing;
    SymbolFacts(m);
    InBlockFacts(m.stage.body, m.stage.groupNo, m.stage.groupPos, m.stage.m);
    SearchMore(Lens(m.stage.body, m.stage.groupNo), m.stage.zn - 1, m.stage.zvec, v);
  }

  lemma FitsSymbols(m: Machine)
    requires Fits(m) && (m.stage.SymbolCode? || m.stage.SymbolBit?)
    ensures 1 <= m.level <= 9 && |m.stage.m.out| <= 100000 * m.level
  {
  }

  lemma SymbolsFit(m: Machine, v: nat)
    requires Ok(m) && Fits(m) && (m.stage.SymbolCode? || m.stage.SymbolBit?)
    ensures FitsEvent(m, StepSymbols(m, v))
  {
    hide *;
    SymbolFacts(m);
    FitsSymbols(m);
    if m.stage.SymbolCode? {
      SymbolCodeIs(m, v);
    } else {
      SymbolBitIs(m, v);
    }
    match m.stage
    case SymbolCode(b, g, gp, u) =>
      InBlockFacts(b, g, gp, u);
      JudgeFits(m.level, b, g, gp, u, MinOf(Lens(b, g)), v, m);
    case SymbolBit(b, g, gp, u, zn, zvec) =>
      InBlockFacts(b, g, gp, u);
      JudgeFits(m.level, b, g, gp, u, zn, 2 * zvec + v, m);
  }

  lemma HeaderFits(m: Machine, v: nat)
    requires Ok(m) && Fits(m)
    requires m.stage.Magic? || m.stage.BlockMagic? || m.stage.BlockCrc? || m.stage.RandBit? || m.stage.OrigPtr?
    ensures FitsEvent(m, StepHeader(m, v))
  {
  }

  lemma MapsFit(m: Machine, v: nat)
    requires Ok(m) && Fits(m)
    requires m.stage.Mapping1? || m.stage.Mapping2? || m.stage.NGroups? || m.stage.NSelectors? || m.stage.SelectorBit?
    ensures FitsEvent(m, StepMaps(m, v))
  {
    hide Used, GoodTables, Listing, Lengths, Unselect, SkipUnused;
  }

  lemma TablesFit(m: Machine, v: nat)
    requires Ok(m) && Fits(m) && (m.stage.Coding1? || m.stage.Coding2? || m.stage.Coding3?)
    ensures FitsEvent(m, StepTables(m, v))
  {
    hide Used, GoodTables, Listing, Lengths, Within;
  }

  lemma TrailerFits(m: Machine, v: nat)
    requires Ok(m) && Fits(m) && (m.stage.EndMagic? || m.stage.CombinedCrc?)
    ensures FitsEvent(m, StepTrailer(m, v))
  {
  }

  lemma StepFits(m: Machine, v: nat)
    requires Ok(m) && Fits(m)
    ensures FitsEvent(m, Step(m, v))
  {
    hide Ok, Fits, FitsEvent, StepSymbols, StepTables, StepMaps, StepHeader, StepTrailer;
    if m.stage.SymbolCode? || m.stage.SymbolBit? {
      SymbolsFit(m, v);
    } else if m.stage.EndMagic? || m.stage.CombinedCrc? {
      TrailerFits(m, v);
    } else if m.stage.Coding1? || m.stage.Coding2? || m.stage.Coding3? {
      TablesFit(m, v);
    } else if m.stage.Mapping1? || m.stage.Mapping2? || m.stage.NGroups? || m.stage.NSelectors?
    || m.stage.SelectorBit? {
      MapsFit(m, v);
    } else {
      HeaderFits(m, v);
    }
  }
}
