/**
 The bits that the reference decoder takes for a stream, exactly, and the text that they stand for
 (decompress.c lines 185-648 and bzlib.c lines 850-905).
 */
module StreamTexts {

  import opened Rotation
  import opened Words
  import opened BitStrings
  import opened Codes
  import opened Mtf
  import opened MtfEncoder
  import opened Parser
  import opened BlockFormat
  import opened ParsePrint
  import opened ParseSymbols
  import opened ReadBack
  import opened BlockTexts
  import opened RunLength
  import opened Crc
  import opened Stream

  /** A block of the stream: its text and its last column. */
  datatype Piece = Piece(t: Text, column: seq<byte>)

  /** The bytes that the block stands for have the checksum that it says. */
  ghost predicate PieceOk(d: Data, level: nat, p: Piece)
    requires GoodData(d)
  {
    && WellFormed(level, p.t, p.column)
    && var x := Restored(p.t.head, p.column, d.rNums);
       Expandable(x) && BlockCrcOf(d.crcTable, Expand(x)) == p.t.head.crc
  }

  ghost function PieceText(d: Data, level: nat, p: Piece): (s: seq<byte>)
    requires GoodData(d) && PieceOk(d, level, p)
  {
    Expand(Restored(p.t.head, p.column, d.rNums))
  }

  ghost predicate PiecesOk(d: Data, level: nat, ps: seq<Piece>)
    requires GoodData(d)
  {
    forall i :: 0 <= i < |ps| ==> PieceOk(d, level, ps[i])
  }

  ghost function PiecesBits(d: Data, level: nat, ps: seq<Piece>): (b: seq<bool>)
    requires GoodData(d) && PiecesOk(d, level, ps)
  {
    if ps == [] then [] else TextBits(level, ps[0].t, ps[0].column) + PiecesBits(d, level, ps[1..])
  }

  ghost function PiecesText(d: Data, level: nat, ps: seq<Piece>): (s: seq<byte>)
    requires GoodData(d) && PiecesOk(d, level, ps)
  {
    if ps == [] then [] else PieceText(d, level, ps[0]) + PiecesText(d, level, ps[1..])
  }

  function PiecesCrc(combined: nat, ps: seq<Piece>): (c: nat)
    decreases |ps|
  {
    if ps == [] then combined else PiecesCrc(Combine(combined, ps[0].t.head.crc), ps[1..])
  }

  /** "BZh" and a digit. */
  function StreamHeadText(level: nat): (b: seq<bool>)
  {
    Bits(0x425a6830 + level, 32)
  }

  /** 48 bits that are known, and the checksum of the checksums. */
  function TrailerText(crc: nat): (b: seq<bool>)
  {
    Bits(0x177245385090, 48) + Bits(crc, 32)
  }

  lemma TrailerTextIs(crc: nat)
    requires crc < 0x1_0000_0000
    ensures TrailerText(crc) == TrailerBits(crc)
  {
    MagicNumber();
    WordText(crc);
    hide Bits, BytesBits, WordBytes;
  }

  lemma StreamHeadTextIs(level: nat)
    requires 1 <= level <= 9
    ensures StreamHeadText(level) == StreamHead(level)
  {
    hide *;
    HeadBytes(level);
    var s := [0x42, 0x5a, 0x68, 0x30 + level];
    FourBytes(s);
    SpelledStep(0, s);
    assert s[1..] == [0x5a, 0x68, 0x30 + level];
    SpelledStep(0x42, [0x5a, 0x68, 0x30 + level]);
    assert [0x5a, 0x68, 0x30 + level][1..] == [0x68, 0x30 + level];
    SpelledStep(0x425a, [0x68, 0x30 + level]);
    assert [0x68, 0x30 + level][1..] == [0x30 + level];
    SpelledStep(0x425a68, [0x30 + level]);
  }

  lemma HeadBytes(level: nat)
    ensures StreamHead(level) == BytesBits([0x42, 0x5a, 0x68, 0x30 + level])
    ensures StreamHeadText(level) == Bits(0x425a6830 + level, 32)
  {
  }

  // ---------------------------------------------------------------- the end of the stream

  /** The stages inside a block. */
  predicate Inside(m: Machine)
  {
    !m.stage.Magic? && m.stage != BlockMagic(0) && !m.stage.EndMagic? && !m.stage.CombinedCrc?
  }

  lemma HeadersInside(m: Machine, v: nat)
    requires Ok(m) && Inside(m) && (m.stage.BlockMagic? || m.stage.BlockCrc? || m.stage.RandBit? || m.stage.OrigPtr?)
    ensures !Step(m, v).End? && (Step(m, v).To? ==> Inside(Step(m, v).m))
  {
  }

  lemma MapsInside(m: Machine, v: nat)
    requires Ok(m)
    requires m.stage.Mapping1? || m.stage.Mapping2? || m.stage.NGroups? || m.stage.NSelectors? || m.stage.SelectorBit?
    ensures !Step(m, v).End? && (Step(m, v).To? ==> Inside(Step(m, v).m))
  {
    hide SkipUnused, Keep, Unselect, Identity, GoodTables;
  }

  lemma TablesInside(m: Machine, v: nat)
    requires Ok(m) && (m.stage.Coding1? || m.stage.Coding2? || m.stage.Coding3?)
    ensures !Step(m, v).End? && (Step(m, v).To? ==> Inside(Step(m, v).m))
  {
    hide GoodTables, StartMtf, Listing;
  }

  lemma StageInside(m: Machine, v: nat)
    requires Ok(m) && Inside(m)
    ensures !Step(m, v).End? && (Step(m, v).To? ==> Inside(Step(m, v).m))
  {
    hide Step, Ok;
    if m.stage.BlockMagic? || m.stage.BlockCrc? || m.stage.RandBit? || m.stage.OrigPtr? {
      HeadersInside(m, v);
    } else if m.stage.SymbolCode? || m.stage.SymbolBit? {
      SymbolHead(m, v);
    } else if m.stage.Coding1? || m.stage.Coding2? || m.stage.Coding3? {
      TablesInside(m, v);
    } else {
      MapsInside(m, v);
    }
  }

  /** A block that has begun is not the end of the stream. */
  lemma {:induction false} NoEndInside(m: Machine, bits: seq<bool>)
    requires Ok(m) && Inside(m)
    ensures !Parse(m, bits).Ended?
    decreases |bits|
  {
    hide *;
    if Parse(m, bits).Ended? {
      ComesIs(Parse(m, bits));
      var v, rest := Invert(m, bits);
      StageInside(m, v);
      ContinueIs(Step(m, v), rest);
      if Step(m, v).To? {
        NoEndInside(Step(m, v).m, rest);
      }
    }
  }

  lemma EndTaken(level: nat, k: nat, v: nat)
    requires k < 6
    ensures |END_MAGIC| == 6
    ensures var m := Machine(level, if k == 0 then BlockMagic(0) else EndMagic(k));
            var m' := Machine(level, if k < 5 then EndMagic(k + 1) else CombinedCrc(0, 0));
            && Ok(m) && Need(m) == 8 && Ok(m')
            && (if v == END_MAGIC[k] then Step(m, v) == To(m')
                else Step(m, v).Fail? || (Step(m, v).To? && Ok(Step(m, v).m) && Inside(Step(m, v).m)))
  {
  }

  lemma EndBack(level: nat, k: nat, bits: seq<bool>) returns (rest: seq<bool>)
    requires k < 6 && Ok(Machine(level, if k == 0 then BlockMagic(0) else EndMagic(k)))
    requires Parse(Machine(level, if k == 0 then BlockMagic(0) else EndMagic(k)), bits).Ended?
    ensures |END_MAGIC| == 6 && bits == BytesBits(END_MAGIC[k..]) + rest && Ok(Machine(level, CombinedCrc(0, 0)))
    ensures Parse(Machine(level, if k == 0 then BlockMagic(0) else EndMagic(k)), bits)
            == Parse(Machine(level, CombinedCrc(0, 0)), rest)
    decreases 6 - k
  {
    hide *;
    var m := Machine(level, if k == 0 then BlockMagic(0) else EndMagic(k));
    EndTaken(level, k, 0);
    ComesIs(Parse(m, bits));
    var v, more := Invert(m, bits);
    EndTaken(level, k, v);
    ContinueIs(Step(m, v), more);
    if v != END_MAGIC[k] {
      NoEndInside(Step(m, v).m, more);
    }
    assert [END_MAGIC[k]] + END_MAGIC[k + 1..] == END_MAGIC[k..];
    if k < 5 {
      rest := EndBack(level, k + 1, more);
    } else {
      rest := more;
      BytesStep([], rest);
      assert END_MAGIC[6..] == [];
      FirstEnd(level);
    }
    ByteBits(v, rest);
  }

  lemma EndCrcBack(level: nat, k: nat, crc: nat, bits: seq<bool>) returns (s: seq<nat>, rest: seq<bool>)
    requires k < 4 && Ok(Machine(level, CombinedCrc(k, crc))) && Parse(Machine(level, CombinedCrc(k, crc)), bits).Ended?
    ensures |s| == 4 - k && (forall i :: 0 <= i < |s| ==> s[i] < 256) && bits == BytesBits(s) + rest
    ensures var r := Parse(Machine(level, CombinedCrc(k, crc)), bits); r.crc == Spelled(crc, s) && r.rest == rest
    decreases 4 - k
  {
    hide *;
    var m := Machine(level, CombinedCrc(k, crc));
    Stream.TrailerStep(level, k, crc, 0);
    ComesIs(Parse(m, bits));
    var v, more := Invert(m, bits);
    Stream.TrailerStep(level, k, crc, v);
    ContinueIs(Step(m, v), more);
    if k < 3 {
      s, rest := EndCrcBack(level, k + 1, 256 * crc + v, more);
    } else {
      s, rest := [], more;
      BytesStep([], rest);
      NoneSpelled(256 * crc + v);
    }
    ByteBits(v, rest);
    s := [v] + s;
    SpelledStep(crc, s);
  }

  /** The end of the stream is read from the bits of a trailer, and from no others. */
  lemma TrailerFound(level: nat, bits: seq<bool>, m': Machine, crc: nat, rest: seq<bool>)
    requires Ok(Machine(level, BlockMagic(0))) && Parse(Machine(level, BlockMagic(0)), bits) == Ended(m', crc, rest)
    ensures crc < 0x1_0000_0000 && bits == TrailerText(crc) + rest
  {
    hide *;
    var more := EndBack(level, 0, bits);
    MagicNumber();
    assert END_MAGIC[0..] == END_MAGIC;
    var s, r := EndCrcBack(level, 0, 0, more);
    FourBytes(s);
    TrailerParts(crc, rest);
  }

  lemma TrailerParts(crc: nat, rest: seq<bool>)
    ensures TrailerText(crc) + rest == Bits(0x177245385090, 48) + (Bits(crc, 32) + rest)
  {
    hide Bits;
  }

  // ---------------------------------------------------------------- the beginning of the stream

  lemma HeadTaken(k: nat, v: nat)
    requires k < 4
    ensures var m := Machine(0, Magic(k));
            && Ok(m) && Need(m) == 8
            && (Step(m, v).Fail?
                || (k < 3 && v == HeadByte(0, k) && Step(m, v) == To(Machine(0, Magic(k + 1)))
                    && Ok(Machine(0, Magic(k + 1))))
                || (k == 3 && 0x31 <= v <= 0x39 && Step(m, v) == To(Machine(v - 0x30, BlockMagic(0)))
                    && Ok(Machine(v - 0x30, BlockMagic(0)))))
  {
  }

  lemma HeadBack4(k: nat, bits: seq<bool>) returns (level: nat, s: seq<nat>, rest: seq<bool>)
    requires k < 4 && Ok(Machine(0, Magic(k))) && Comes(Parse(Machine(0, Magic(k)), bits))
    ensures 1 <= level <= 9 && |s| == 4 - k && (forall i :: 0 <= i < |s| ==> s[i] == HeadByte(level, k + i))
    ensures bits == BytesBits(s) + rest && Ok(Machine(level, BlockMagic(0)))
    ensures Parse(Machine(0, Magic(k)), bits) == Parse(Machine(level, BlockMagic(0)), rest)
    decreases 4 - k
  {
    hide *;
    HeadTaken(k, 0);
    var v, more := Invert(Machine(0, Magic(k)), bits);
    HeadTaken(k, v);
    ContinueIs(Step(Machine(0, Magic(k)), v), more);
    if k < 3 {
      level, s, rest := HeadBack4(k + 1, more);
    } else {
      level, s, rest := v - 0x30, [], more;
      BytesStep([], rest);
    }
    ByteBits(v, rest);
    HeadByteIs(level, k, v);
    s := [v] + s;
    forall i | 0 <= i < |s| ensures s[i] == HeadByte(level, k + i) {
      if i > 0 {
        assert s[i] == s[1..][i - 1] && k + i == k + 1 + (i - 1);
      }
    }
  }

  lemma HeadByteIs(level: nat, k: nat, v: nat)
    requires k < 4 && (if k < 3 then v == HeadByte(0, k) else v == 0x30 + level)
    ensures v == HeadByte(level, k)
  {
  }

  lemma HeadFound(bits: seq<bool>) returns (level: nat, rest: seq<bool>)
    requires Ok(Machine(0, Magic(0))) && Comes(Parse(Machine(0, Magic(0)), bits))
    ensures 1 <= level <= 9 && bits == StreamHeadText(level) + rest && Ok(Machine(level, BlockMagic(0)))
    ensures Parse(Machine(0, Magic(0)), bits) == Parse(Machine(level, BlockMagic(0)), rest)
  {
    hide *;
    var s;
    level, s, rest := HeadBack4(0, bits);
    StreamHeadTextIs(level);
    FourHead(level, s);
  }

  lemma FourHead(level: nat, s: seq<nat>)
    requires |s| == 4 && forall i :: 0 <= i < |s| ==> s[i] == HeadByte(level, 0 + i)
    ensures BytesBits(s) == StreamHead(level)
  {
    hide BytesBits;
    assert s[0] == 0x42 && s[1] == 0x5a && s[2] == 0x68 && s[3] == 0x30 + level;
    assert s == [0x42, 0x5a, 0x68, 0x30 + level];
  }

  // ---------------------------------------------------------------- which error

  /** The byte is not the one that the stream header has at place `k`, or one of the bytes after it is not. */
  ghost predicate WrongFrom(bits: seq<bool>, k: nat)
    decreases |bits|
  {
    k < 4 && |bits| >= 8 && (!HeadByteOk(k, Value(bits[..8])) || WrongFrom(bits[8..], k + 1))
  }

  predicate HeadByteOk(k: nat, v: nat)
  {
    if k == 0 then v == 0x42 else if k == 1 then v == 0x5a else if k == 2 then v == 0x68 else 0x31 <= v <= 0x39
  }

  lemma HeadStepped(k: nat, v: nat)
    requires k < 4
    ensures var m := Machine(0, Magic(k));
            && Ok(m) && Need(m) == 8
            && (!HeadByteOk(k, v) ==> Step(m, v) == Fail(DataErrorMagic))
            && (HeadByteOk(k, v) && k < 3 ==>
                  Step(m, v) == To(Machine(0, Magic(k + 1))) && Ok(Machine(0, Magic(k + 1))))
            && (HeadByteOk(k, v) && k == 3 ==>
                  v >= 0x31 && Step(m, v) == To(Machine(v - 0x30, BlockMagic(0)))
                  && Ok(Machine(v - 0x30, BlockMagic(0))))
  {
  }

  lemma HeaderFails(m: Machine, v: nat)
    requires Ok(m) && (m.stage.BlockMagic? || m.stage.BlockCrc? || m.stage.RandBit? || m.stage.OrigPtr?)
    ensures Step(m, v) != Fail(DataErrorMagic) && (Step(m, v).To? ==> !Step(m, v).m.stage.Magic?)
  {
  }

  lemma MapFails(m: Machine, v: nat)
    requires Ok(m)
    requires m.stage.Mapping1? || m.stage.Mapping2? || m.stage.NGroups? || m.stage.NSelectors? || m.stage.SelectorBit?
    ensures Step(m, v) != Fail(DataErrorMagic) && (Step(m, v).To? ==> !Step(m, v).m.stage.Magic?)
  {
    hide SkipUnused, Keep, Unselect, Identity, GoodTables;
  }

  lemma TableFails(m: Machine, v: nat)
    requires Ok(m) && (m.stage.Coding1? || m.stage.Coding2? || m.stage.Coding3?)
    ensures Step(m, v) != Fail(DataErrorMagic) && (Step(m, v).To? ==> !Step(m, v).m.stage.Magic?)
  {
    hide GoodTables, StartMtf, Listing;
  }

  lemma TrailerFails(m: Machine, v: nat)
    requires Ok(m) && (m.stage.EndMagic? || m.stage.CombinedCrc?)
    ensures Step(m, v) != Fail(DataErrorMagic) && (Step(m, v).To? ==> !Step(m, v).m.stage.Magic?)
  {
  }

  lemma StageFails(m: Machine, v: nat)
    requires Ok(m) && !m.stage.Magic?
    ensures Step(m, v) != Fail(DataErrorMagic) && (Step(m, v).To? ==> !Step(m, v).m.stage.Magic?)
  {
    hide Step, Ok;
    if m.stage.BlockMagic? || m.stage.BlockCrc? || m.stage.RandBit? || m.stage.OrigPtr? {
      HeaderFails(m, v);
    } else if m.stage.SymbolCode? || m.stage.SymbolBit? {
      SymbolHead(m, v);
    } else if m.stage.Coding1? || m.stage.Coding2? || m.stage.Coding3? {
      TableFails(m, v);
    } else if m.stage.EndMagic? || m.stage.CombinedCrc? {
      TrailerFails(m, v);
    } else {
      MapFails(m, v);
    }
  }

  lemma ParseUnfold(m: Machine, bits: seq<bool>)
    requires Ok(m)
    ensures |bits| < Need(m) ==> Parse(m, bits) == Waiting(m, bits)
    ensures |bits| >= Need(m) ==>
              var e := Step(m, Value(bits[..Need(m)]));
              (e.To? ==> Ok(e.m)) && Parse(m, bits) == Continue(e, bits[Need(m)..])
  {
    hide Ok, Need, Step, Value;
    if |bits| >= Need(m) {
      ContinueIs(Step(m, Value(bits[..Need(m)])), bits[Need(m)..]);
    }
  }

  /** After the header every error is a data error. */
  lemma {:induction false} NoMagicLater(m: Machine, bits: seq<bool>)
    requires Ok(m) && !m.stage.Magic?
    ensures Parse(m, bits) != Failed(DataErrorMagic)
    ensures Parse(m, bits).Waiting? ==> !Parse(m, bits).m.stage.Magic?
    decreases |bits|
  {
    NeedSome(m);
    hide *;
    ParseUnfold(m, bits);
    if |bits| >= Need(m) {
      var v := Value(bits[..Need(m)]);
      StageFails(m, v);
      ContinueIs(Step(m, v), bits[Need(m)..]);
      if Step(m, v).To? {
        NoMagicLater(Step(m, v).m, bits[Need(m)..]);
      } else {
        AfterIs(Step(m, v), bits[Need(m)..]);
      }
    }
  }

  lemma NeedSome(m: Machine)
    requires Ok(m)
    ensures Need(m) >= 1
  {
    hide Ok;
  }

  lemma AfterIs(e: Event, rest: seq<bool>)
    requires !e.To?
    ensures (After(e, rest) == Failed(DataErrorMagic) <==> e == Fail(DataErrorMagic)) && !After(e, rest).Waiting?
  {
  }

  /** A parse from the start that has come to stage `m` with bits left, and what it will come to in the end. */
  ghost predicate Heading(m: Machine, ahead: seq<bool>, whole: Stop)
  {
    Ok(m) && if m.stage.Magic? then whole == Parse(m, ahead) else whole != Failed(DataErrorMagic)
  }

  lemma HeadingIs(m: Machine, ahead: seq<bool>, whole: Stop)
    ensures Heading(m, ahead, whole) <==>
              Ok(m) && if m.stage.Magic? then whole == Parse(m, ahead) else whole != Failed(DataErrorMagic)
  {
    hide Ok, Parse;
  }

  /** The same after some more of the bits. */
  lemma HeadingOn(m: Machine, given: seq<bool>, beyond: seq<bool>, whole: Stop)
    requires Heading(m, given + beyond, whole)
    ensures Ok(m)
    ensures var stop := Parse(m, given);
            && (stop.Waiting? ==> Heading(stop.m, stop.rest + beyond, whole))
            && (stop.Failed? ==> (stop.code == DataErrorMagic <==> whole == Failed(DataErrorMagic)))
            && (stop.GotBlock? || stop.Ended? ==> whole != Failed(DataErrorMagic))
  {
    hide *;
    HeadingIs(m, given + beyond, whole);
    ParseMore(m, given, beyond);
    var stop := Parse(m, given);
    ResumeIs(stop, beyond);
    if !m.stage.Magic? {
      NoMagicLater(m, given);
    }
    if stop.Waiting? {
      HeadingIs(stop.m, stop.rest + beyond, whole);
      if !stop.m.stage.Magic? {
        NoMagicLater(stop.m, stop.rest + beyond);
      }
    }
  }

  lemma ResumeIs(s: Stop, more: seq<bool>)
    requires s.Waiting? ==> Ok(s.m)
    ensures s.Waiting? ==> Resume(s, more) == Parse(s.m, s.rest + more)
    ensures s.GotBlock? ==> Resume(s, more).GotBlock?
    ensures s.Ended? ==> Resume(s, more).Ended?
    ensures s.Failed? ==> Resume(s, more) == s
  {
    hide Ok, Parse;
  }

  /**
   The decoder reports that there is no magic number if and only if one of the first four bytes
   that it has is not one of "BZh" and a digit from 1 to 9; every other error is a data error.
   */
  lemma {:induction false} MagicExactly(k: nat, bits: seq<bool>)
    requires k < 4
    ensures Ok(Machine(0, Magic(k)))
    ensures Parse(Machine(0, Magic(k)), bits) == Failed(DataErrorMagic) <==> WrongFrom(bits, k)
    decreases |bits|
  {
    HeadStepped(k, 0);
    var m := Machine(0, Magic(k));
    ParseUnfold(m, bits);
    hide Parse, Ok, Need, Step, HeadByteOk, Value;
    if |bits| >= 8 {
      var v, rest := Value(bits[..8]), bits[8..];
      HeadStepped(k, v);
      ContinueIs(Step(m, v), rest);
      if !HeadByteOk(k, v) {
        AfterIs(Step(m, v), rest);
      } else if k < 3 {
        MagicExactly(k + 1, rest);
      } else {
        NoMagicLater(Step(m, v).m, rest);
      }
    }
  }

  // ---------------------------------------------------------------- the whole stream

  lemma PieceFacts(d: Data, level: nat, p: Piece)
    requires GoodData(d) && PieceOk(d, level, p)
    ensures WellFormed(level, p.t, p.column) && p.t.head.origPtr < |p.column| && p.t.head.crc < 0x1_0000_0000
    ensures Stream.Numbers(d.rNums) && |d.crcTable| == 256
    ensures var x := Restored(p.t.head, p.column, d.rNums);
            Expandable(x) && BlockCrcOf(d.crcTable, Expand(x)) == p.t.head.crc && PieceText(d, level, p) == Expand(x)
  {
    hide Restored, Expandable, Expand, BlockCrcOf, TablesOk, AllUsed, Sendable, Symbols, BodyOf;
  }

  lemma CombineFits(combined: nat, crc: nat)
    requires combined < 0x1_0000_0000 && crc < 0x1_0000_0000
    ensures Combine(combined, crc) < 0x1_0000_0000
  {
  }

  lemma PiecesStep(d: Data, level: nat, ps: seq<Piece>, combined: nat, more: seq<bool>)
    requires GoodData(d) && PiecesOk(d, level, ps) && ps != []
    ensures PieceOk(d, level, ps[0]) && PiecesOk(d, level, ps[1..]) && WellFormed(level, ps[0].t, ps[0].column)
    ensures PiecesBits(d, level, ps) + more
            == TextBits(level, ps[0].t, ps[0].column) + (PiecesBits(d, level, ps[1..]) + more)
    ensures PiecesText(d, level, ps) == PieceText(d, level, ps[0]) + PiecesText(d, level, ps[1..])
    ensures PiecesCrc(combined, ps) == PiecesCrc(Combine(combined, ps[0].t.head.crc), ps[1..])
  {
    hide PieceOk, Combine, TextBits, PieceText, WellFormed;
    PieceFacts(d, level, ps[0]);
    TwoParts(TextBits(level, ps[0].t, ps[0].column), PiecesBits(d, level, ps[1..]), more);
  }

  lemma TwoParts(a: seq<bool>, b: seq<bool>, c: seq<bool>)
    ensures a + b + c == a + (b + c)
  {
  }

  lemma PiecesEnd(d: Data, level: nat, combined: nat, more: seq<bool>)
    requires GoodData(d)
    ensures PiecesOk(d, level, []) && PiecesBits(d, level, []) + more == more && PiecesText(d, level, []) == []
    ensures PiecesCrc(combined, []) == combined
  {
  }

  lemma PrependIs(s: seq<byte>, o: Outcome)
    ensures Prepend(s, o) == if o.Good? then Good(s + o.text, o.rest) else Broken
  {
  }

  /** Every stream of such blocks decompresses to their bytes. */
  lemma {:induction false} PiecesRead(d: Data, level: nat, ps: seq<Piece>, combined: nat, rest: seq<bool>)
    requires GoodData(d) && PiecesOk(d, level, ps) && combined < 0x1_0000_0000
    ensures Ok(Machine(level, BlockMagic(0)))
    ensures Decompressed(d, Machine(level, BlockMagic(0)), combined,
                         PiecesBits(d, level, ps) + (TrailerText(PiecesCrc(combined, ps)) + rest))
            == Good(PiecesText(d, level, ps), rest)
    decreases |ps|
  {
    hide *;
    BlockMagicOk(level);
    var more := TrailerText(PiecesCrc(combined, ps)) + rest;
    if ps == [] {
      PiecesEnd(d, level, combined, more);
      TrailerTextIs(combined);
      TrailerEnds(d, level, combined, rest);
    } else {
      var p := ps[0];
      var c := Combine(combined, p.t.head.crc);
      PiecesStep(d, level, ps, combined, more);
      PieceFacts(d, level, p);
      CombineFits(combined, p.t.head.crc);
      PiecesRead(d, level, ps[1..], c, rest);
      TextParsed(level, p.t, p.column, PiecesBits(d, level, ps[1..]) + more);
      DecompressedBlock(d, Machine(level, BlockMagic(0)), combined, PiecesBits(d, level, ps) + more,
                        Machine(level, BlockMagic(0)), p.t.head, p.column, PiecesBits(d, level, ps[1..]) + more);
      BlockWhole(d, p.t.head, Restored(p.t.head, p.column, d.rNums), Good(PiecesText(d, level, ps[1..]), rest));
      PrependIs(PieceText(d, level, p), Good(PiecesText(d, level, ps[1..]), rest));
    }
  }

  lemma DecompressedCases(d: Data, m: Machine, combined: nat, bits: seq<bool>)
    requires GoodData(d) && Ok(m) && Decompressed(d, m, combined, bits).Good?
    ensures Parse(m, bits).GotBlock? || Parse(m, bits).Ended?
    ensures Parse(m, bits).Ended? ==>
              Parse(m, bits).crc == combined && Decompressed(d, m, combined, bits) == Good([], Parse(m, bits).rest)
  {
    hide Parse, Ok, BlockOutcome, Restored, Combine;
  }

  lemma BlockOutcomeGood(d: Data, head: Head, x: seq<byte>, more: Outcome)
    requires |d.crcTable| == 256 && BlockOutcome(d, head, x, [], more).Good?
    ensures Expandable(x) && BlockCrcOf(d.crcTable, Expand(x)) == head.crc && more.Good?
  {
    hide Expandable, Expand, BlockCrcOf;
  }

  lemma IsPiece(d: Data, level: nat, p: Piece)
    requires GoodData(d) && WellFormed(level, p.t, p.column) && p.t.head.origPtr < |p.column| && Stream.Numbers(d.rNums)
    requires |d.crcTable| == 256
    requires var x := Restored(p.t.head, p.column, d.rNums);
             Expandable(x) && BlockCrcOf(d.crcTable, Expand(x)) == p.t.head.crc
    ensures PieceOk(d, level, p)
  {
    hide Restored, Expandable, Expand, BlockCrcOf, WellFormed;
    assert WellFormed(level, p.t, p.column);
  }

  lemma PiecesMore(d: Data, level: nat, p: Piece, ps: seq<Piece>)
    requires GoodData(d) && PieceOk(d, level, p) && PiecesOk(d, level, ps)
    ensures PiecesOk(d, level, [p] + ps) && ([p] + ps)[1..] == ps && ([p] + ps)[0] == p
  {
    hide PieceOk;
  }

  lemma ShorterRest(level: nat, bits: seq<bool>)
    requires Ok(Machine(level, BlockMagic(0)))
    ensures Parse(Machine(level, BlockMagic(0)), bits).GotBlock? ==>
              |Parse(Machine(level, BlockMagic(0)), bits).rest| < |bits|
  {
    hide Ok;
  }

  /** And whatever decompresses is such a stream. */
  lemma {:induction false} PiecesFound(d: Data, level: nat, combined: nat, bits: seq<bool>, text: seq<byte>,
                                       rest: seq<bool>) returns (ps: seq<Piece>)
    requires GoodData(d) && 1 <= level <= 9 && combined < 0x1_0000_0000 && Ok(Machine(level, BlockMagic(0)))
    requires Decompressed(d, Machine(level, BlockMagic(0)), combined, bits) == Good(text, rest)
    ensures PiecesOk(d, level, ps) && text == PiecesText(d, level, ps)
    ensures bits == PiecesBits(d, level, ps) + (TrailerText(PiecesCrc(combined, ps)) + rest)
    decreases |bits|
  {
    hide *;
    var m := Machine(level, BlockMagic(0));
    DecompressedCases(d, m, combined, bits);
    var r := Parse(m, bits);
    if r.Ended? {
      TrailerFound(level, bits, r.m, r.crc, rest);
      ps := [];
      PiecesEnd(d, level, combined, TrailerText(combined) + rest);
    } else {
      ShorterRest(level, bits);
      var t := TextFound(level, bits, r.m, r.head, r.column, r.rest);
      WellFormedHead(level, t, r.column);
      DecompressedBlock(d, m, combined, bits, r.m, r.head, r.column, r.rest);
      var c := Combine(combined, r.head.crc);
      var x := Restored(r.head, r.column, d.rNums);
      var next := Decompressed(d, r.m, c, r.rest);
      BlockOutcomeGood(d, r.head, x, next);
      BlockWhole(d, r.head, x, next);
      PrependIs(Expand(x), next);
      CombineFits(combined, r.head.crc);
      var p := Piece(t, r.column);
      IsPiece(d, level, p);
      PieceFacts(d, level, p);
      var more := PiecesFound(d, level, c, r.rest, next.text, rest);
      PiecesMore(d, level, p, more);
      ps := [p] + more;
      PiecesStep(d, level, ps, combined, TrailerText(PiecesCrc(combined, ps)) + rest);
    }
  }

  lemma WellFormedHead(level: nat, t: Text, column: seq<byte>)
    requires WellFormed(level, t, column)
    ensures t.head.origPtr < |column| && t.head.crc < 0x1_0000_0000
  {
    hide TablesOk, AllUsed, Sendable, Symbols, BodyOf;
  }

  /** A stream of blocks: its bits, with those that follow it, and its text. */
  ghost predicate IsStream(d: Data, level: nat, ps: seq<Piece>, bits: seq<bool>, text: seq<byte>, rest: seq<bool>)
    requires GoodData(d)
  {
    && 1 <= level <= 9 && PiecesOk(d, level, ps) && text == PiecesText(d, level, ps)
    && bits == StreamHeadText(level) + (PiecesBits(d, level, ps) + (TrailerText(PiecesCrc(0, ps)) + rest))
  }

  /**
   Some bits decompress to a text if and only if they are a stream of blocks that stand for it,
   with the checksum of every block and of all of them.
   */
  lemma StreamExactly(d: Data, bits: seq<bool>, text: seq<byte>, rest: seq<bool>)
    requires GoodData(d)
    ensures Ok(Machine(0, Magic(0)))
    ensures Decompressed(d, Machine(0, Magic(0)), 0, bits) == Good(text, rest)
            <==> exists level, ps :: IsStream(d, level, ps, bits, text, rest)
  {
    FirstOk();
    hide *;
    if Decompressed(d, Machine(0, Magic(0)), 0, bits) == Good(text, rest) {
      DecompressedCases(d, Machine(0, Magic(0)), 0, bits);
      ComesIs(Parse(Machine(0, Magic(0)), bits));
      var level, more := HeadFound(bits);
      SameParse(d, Machine(0, Magic(0)), Machine(level, BlockMagic(0)), 0, bits, more);
      var ps := PiecesFound(d, level, 0, more, text, rest);
      StreamIs(d, level, ps, bits, text, rest);
      assert IsStream(d, level, ps, bits, text, rest);
    }
    if level, ps :| IsStream(d, level, ps, bits, text, rest) {
      StreamIs(d, level, ps, bits, text, rest);
      var more := PiecesBits(d, level, ps) + (TrailerText(PiecesCrc(0, ps)) + rest);
      StreamHeadTextIs(level);
      ParseStreamHead(level, more);
      SameParse(d, Machine(0, Magic(0)), Machine(level, BlockMagic(0)), 0, bits, more);
      PiecesRead(d, level, ps, 0, rest);
    }
  }

  lemma FirstOk()
    ensures Ok(Machine(0, Magic(0)))
  {
  }

  lemma StreamIs(d: Data, level: nat, ps: seq<Piece>, bits: seq<bool>, text: seq<byte>, rest: seq<bool>)
    requires GoodData(d)
    ensures IsStream(d, level, ps, bits, text, rest) <==>
              && 1 <= level <= 9 && PiecesOk(d, level, ps) && text == PiecesText(d, level, ps)
              && bits == StreamHeadText(level) + (PiecesBits(d, level, ps) + (TrailerText(PiecesCrc(0, ps)) + rest))
  {
    hide PiecesOk, PiecesText, PiecesBits, TrailerText, StreamHeadText;
  }
}
