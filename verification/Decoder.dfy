/**
 BZ2_bzDecompress and BZ2_decompress (bzlib.c lines 850-905, decompress.c lines 43-65 and
 106-647) with the input and the output cut into pieces at will: whatever the pieces, the
 output and the result are those of the reference decoder on the whole stream.
 */
module Decoder {

  import opened Rotation
  import opened Words
  import opened BitStrings
  import opened Codes
  import opened ByteMap
  import opened Mtf
  import opened BlockFormat
  import opened BitInput
  import opened RunLength
  import opened Crc
  import opened Parser
  import opened ParserLimits
  import opened Stream
  import opened Unrle
  import StreamTexts
  import MtfSlide
  import SymbolDecoder

  datatype Status = BzOk | BzStreamEnd | BzSequenceError | BzDataErrorMagic | BzDataError

  datatype State = Decoding | Writing | Idle | Rejected

  /** What the block end handler is called with, and the counters of the stream at that time. */
  datatype BlockEnd = BlockEnd(totalOut: nat, totalIn: nat, bitsrem: nat, bits: nat, crc: nat, level: nat)

  /** A decoder between blocks with these values is where `start` is after `text`. */
  ghost predicate Resumes(d: Data, start: Outcome, text: seq<byte>, level: nat, crc: nat, bits: seq<bool>)
    requires GoodData(d)
  {
    BlockMagicOk(level);
    start == Prepend(text, Decompressed(d, Machine(level, BlockMagic(0)), crc, bits))
  }

  // ---------------------------------------------------------------- outcomes

  /** Bytes of a block move from what is to come to what is written. */
  lemma WriteKeeps(d: Data, head: Head, x: seq<byte>, done: seq<byte>, piece: seq<byte>, more: Outcome, start: Outcome,
                   out: seq<byte>)
    requires GoodData(d) && start == Prepend(out, BlockOutcome(d, head, x, done, more))
    requires Expandable(x) ==> done <= done + piece <= Expand(x)
    ensures start == Prepend(out + piece, BlockOutcome(d, head, x, done + piece, more))
  {
    hide Expandable, Expand, BlockCrcOf;
    if Expandable(x) {
      var y := Expand(x);
      assert y[|done|..] == piece + y[|done + piece|..];
      if more.Good? {
        assert out + (piece + y[|done + piece|..] + more.text) == out + piece + (y[|done + piece|..] + more.text);
      }
    }
  }

  lemma BlockDone(d: Data, head: Head, x: seq<byte>, done: seq<byte>, more: Outcome)
    requires GoodData(d) && Expandable(x) && Expand(x) == done
    ensures BlockOutcome(d, head, x, done, more) == if BlockCrcOf(d.crcTable, done) == head.crc then more else Broken
  {
    hide Expandable, Expand, BlockCrcOf;
    assert done[|done|..] == [];
    if more.Good? {
      assert [] + more.text == more.text;
    }
  }

  lemma BlockCorrupt(d: Data, head: Head, x: seq<byte>, done: seq<byte>, more: Outcome)
    requires GoodData(d) && !Expandable(x)
    ensures BlockOutcome(d, head, x, done, more) == Broken
  {
  }

  /** What a stopped parse means, with the bits that were not there yet. */
  lemma StopMeans(d: Data, m: Machine, combined: nat, bits: seq<bool>, beyond: seq<bool>)
    requires GoodData(d) && Ok(m)
    ensures var o := Decompressed(d, m, combined, bits + beyond);
            var stop := Parse(m, bits);
            && (stop.Waiting? ==> o == Decompressed(d, stop.m, combined, stop.rest + beyond))
            && (stop.GotBlock? ==> o == BlockOutcome(d, stop.head, Restored(stop.head, stop.column, d.rNums), [],
                                                     Decompressed(d, stop.m, Combine(combined, stop.head.crc),
                                                                  stop.rest + beyond)))
            && (stop.Ended? ==> o == if stop.crc == combined then Good([], stop.rest + beyond) else Broken)
            && (stop.Failed? ==> o == Broken)
  {
    ParseMore(m, bits, beyond);
    hide Ok, Parse, BlockOutcome, Restored, Combine;
  }

  /** One step of a parse. */
  lemma ParseOnce(m: Machine, v: nat, rest: seq<bool>)
    requires Ok(m) && v < Pow2(Need(m))
    ensures var e := Step(m, v);
            Parse(m, Bits(v, Need(m)) + rest) == if e.To? then Parse(e.m, rest) else After(e, rest)
  {
    ParseStep(m, v, Need(m), rest);
  }

  lemma ParseWaits(m: Machine, bits: seq<bool>)
    requires Ok(m) && |bits| < Need(m)
    ensures Parse(m, bits) == Waiting(m, bits)
  {
    hide Ok, Need, Step;
  }

  /** The stream ends after its combined CRC only. */
  lemma EndIsLast(m: Machine, v: nat)
    requires Ok(m) && Parser.Step(m, v).End?
    ensures m.stage.CombinedCrc?
  {
    hide Ok, StepSymbols, StepTables, StepMaps, StepHeader;
  }

  lemma FollowsFacts(w: SymbolDecoder.SymbolDecoder, e: Event)
    requires w.Follows(e)
    ensures e.To? ==> w.Attached(e.m)
  {
  }

  lemma IsAttached(w: SymbolDecoder.SymbolDecoder, m: Machine)
    requires w.Valid() && (m.stage.SymbolCode? || m.stage.SymbolBit?) && w.body == m.stage.body && w.Mirrors(m.stage.m)
    ensures w.Attached(m)
  {
  }

  /** The first group of symbols. */
  lemma StartOfSymbols(level: nat, head: Head, inUse: seq<bool>, n: nat, selector: seq<nat>, lens: seq<seq<nat>>,
                       cur: seq<nat>, curr: int)
    requires Groups(inUse, n) && Picks(selector, n) && |lens| < n && GoodTables(inUse, [], lens)
    requires |cur| <= AlphaSize(inUse) && Codes.Within(cur, 1, LONGEST)
    ensures var e := AfterLength(level, head, inUse, n, selector, lens, cur, curr);
            e.To? && (e.m.stage.SymbolCode? || e.m.stage.SymbolBit?) ==>
              e.m.stage.SymbolCode? && GoodBody(e.m.stage.body) && |e.m.stage.body.inUse| == 256
              && e.m.stage.m == StartMtf(e.m.stage.body.inUse)
  {
    hide Used, Listing, Lengths, StartMtf;
  }

  /** Symbols follow the code lengths only. */
  lemma OnlyAfterLengths(m: Machine, v: nat)
    requires Ok(m) && !m.stage.SymbolCode? && !m.stage.SymbolBit? && !m.stage.Coding1? && !m.stage.Coding2?
    requires !m.stage.Coding3?
    requires Parser.Step(m, v).To?
    ensures !Parser.Step(m, v).m.stage.SymbolCode? && !Parser.Step(m, v).m.stage.SymbolBit?
  {
    hide StepSymbols, Unselect, SkipUnused, StartMtf, TableOf, GoodBody, Ok;
  }

  /** The symbols start with the first group, and with the ranks in their first order. */
  lemma FirstSymbol(m: Machine, v: nat)
    requires Ok(m) && !m.stage.SymbolCode? && !m.stage.SymbolBit? && Parser.Step(m, v).To?
    requires Parser.Step(m, v).m.stage.SymbolCode? || Parser.Step(m, v).m.stage.SymbolBit?
    ensures var m' := Parser.Step(m, v).m;
            m'.stage.SymbolCode? && GoodBody(m'.stage.body) && |m'.stage.body.inUse| == 256
            && m'.stage.m == StartMtf(m'.stage.body.inUse)
  {
    hide Used, GoodTables, Listing, Lengths, StepSymbols, Unselect, SkipUnused, StartMtf, TableOf, AfterLength,
        GoodBody, Groups, Picks;
    if m.stage.Coding1? || m.stage.Coding2? || m.stage.Coding3? {
      match m.stage {
        case Coding1(head, inUse, n, selector, lens) => StartOfSymbols(m.level, head, inUse, n, selector, lens, [], v);
        case Coding2(head, inUse, n, selector, lens, cur, curr) =>
          if v == 0 {
            StartOfSymbols(m.level, head, inUse, n, selector, lens, cur + [curr], curr);
          }
        case Coding3(head, inUse, n, selector, lens, cur, curr) =>
          StartOfSymbols(m.level, head, inUse, n, selector, lens, cur, if v == 0 then curr + 1 else curr - 1);
      }
    } else {
      OnlyAfterLengths(m, v);
    }
  }

  lemma AfterIs(e: Event, rest: seq<bool>)
    ensures e.Block? ==> After(e, rest) == GotBlock(e.m, e.head, e.column, rest)
    ensures e.End? ==> After(e, rest) == Ended(e.m, e.crc, rest)
    ensures e.Fail? ==> After(e, rest) == Failed(e.code)
    ensures forall s: seq<byte> :: Prepend(s, Broken) == Broken
  {
  }

  class Decoder {
    const data: Data
    const small: bool
    var state: State
    var m: Machine
    var bsBuff: nat
    var bsLive: nat
    var head: Head
    var ex: Expander?
    const list: MtfSlide.SlidingList
    /** The tables of the block whose symbols are read, and its list of ranks. */
    var work: SymbolDecoder.SymbolDecoder?
    var combined: nat
    // the caller's buffers and counters
    var nextIn: seq<byte>
    var totalIn: nat
    var availOut: nat
    var totalOut: nat
    var out: seq<byte>
    /** The calls of the block end handler. */
    var ends: seq<BlockEnd>
    // where this decoder started: its place in the input, the bits it had, and its counters
    ghost var input: seq<byte>
    ghost var in0: nat
    ghost var pend0: seq<bool>
    ghost var combined0: nat
    ghost var out0: nat

    // ---------------------------------------------------------------- input

    ghost predicate Fed()
      reads this`input, this`in0, this`totalIn, this`nextIn, this`pend0, this`bsBuff
    {
      in0 <= totalIn && totalIn + |nextIn| <= |input| && nextIn == input[totalIn..totalIn + |nextIn|] && |pend0| < 8
      && bsBuff < WORD
    }

    /** The bits in the buffer. */
    ghost function Pend(): (s: seq<bool>)
      reads this`bsBuff, this`bsLive
      ensures |s| == bsLive
    {
      Bits(bsBuff, bsLive)
    }

    /** The bits that the decoder has been given and has not taken. */
    ghost function Given(): (s: seq<bool>)
      reads this`bsBuff, this`bsLive, this`nextIn
    {
      Pend() + BytesBits(nextIn)
    }

    /** The bits that it has not been given. */
    ghost function Beyond(): (s: seq<bool>)
      requires Fed()
      reads this`input, this`in0, this`totalIn, this`nextIn, this`pend0, this`bsBuff
    {
      BytesBits(input[totalIn + |nextIn|..])
    }

    /** All the bits from here on. */
    ghost function Ahead(): (s: seq<bool>)
      requires totalIn <= |input|
      reads this`bsBuff, this`bsLive, this`input, this`totalIn
    {
      Pend() + BytesBits(input[totalIn..])
    }

    /** How many bits were taken since the start. */
    ghost function Taken(): (n: int)
      reads this`in0, this`totalIn, this`pend0, this`bsLive
    {
      |pend0| + 8 * (totalIn - in0) - bsLive
    }

    lemma AheadParts()
      requires Fed()
      ensures Ahead() == Given() + Beyond()
    {
      hide Pend, BytesBits;
      var s, t := nextIn, input[totalIn + |nextIn|..];
      BytesConcat(s, t);
      assert input[totalIn..] == s + t;
      assert Pend() + (BytesBits(s) + BytesBits(t)) == Pend() + BytesBits(s) + BytesBits(t);
    }

    /** One byte of input enters the buffer. */
    method FetchByte()
      requires Fed() && bsLive <= 24 && nextIn != []
      modifies this`bsBuff, this`bsLive, this`nextIn, this`totalIn
      ensures Fed() && bsLive == old(bsLive) + 8 && Given() == old(Given())
      ensures |nextIn| + totalIn == |old(nextIn)| + old(totalIn)
      ensures totalIn == old(totalIn) + 1 && Taken() == old(Taken())
    {
      FetchBits(bsBuff, bsLive, nextIn[0]);
      hide Bits;
      assert BytesBits(nextIn) == Bits(nextIn[0], 8) + BytesBits(nextIn[1..]);
      assert Bits(bsBuff, bsLive) + (Bits(nextIn[0], 8) + BytesBits(nextIn[1..]))
          == Bits(bsBuff, bsLive) + Bits(nextIn[0], 8) + BytesBits(nextIn[1..]);
      assert nextIn[1..] == input[totalIn + 1..totalIn + |nextIn|];
      bsBuff := (256 * bsBuff + nextIn[0]) % WORD;
      bsLive := bsLive + 8;
      nextIn := nextIn[1..];
      totalIn := totalIn + 1;
    }

    /** The first `n` bits leave the buffer. */
    method TakeFirst(n: nat) returns (v: nat)
      requires Fed() && n <= bsLive
      modifies this`bsLive
      ensures Fed() && v < Pow2(n) && old(Given()) == Bits(v, n) + Given() && bsLive == old(bsLive) - n
      ensures Taken() == old(Taken()) + n
    {
      TakeBits(bsBuff, bsLive, n);
      hide Bits, BytesBits, Shr;
      v := Shr(bsBuff, bsLive - n) % Pow2(n);
      assert Bits(v, n) + Bits(bsBuff, bsLive - n) + BytesBits(nextIn)
          == Bits(v, n) + (Bits(bsBuff, bsLive - n) + BytesBits(nextIn));
      bsLive := bsLive - n;
    }

    /** GET_BITS, with a result that says whether there was enough input. */
    method GetBits(n: nat) returns (got: bool, v: nat)
      requires Fed() && 1 <= n <= LONGEST && (bsLive < 8 || bsLive < n)
      modifies this`bsBuff, this`bsLive, this`nextIn, this`totalIn
      ensures Fed() && |nextIn| + totalIn == |old(nextIn)| + old(totalIn) && totalIn >= old(totalIn)
      ensures got ==> v < Pow2(n) && old(Given()) == Bits(v, n) + Given() && bsLive < 8 && Taken() == old(Taken()) + n
      ensures got ==> 8 * |nextIn| + bsLive == 8 * |old(nextIn)| + old(bsLive) - n
      ensures !got ==> nextIn == [] && bsLive < n && Given() == old(Given()) && Taken() == old(Taken())
      ensures !got ==> 8 * |nextIn| + bsLive == 8 * |old(nextIn)| + old(bsLive)
    {
      assert LONGEST == 20;
      hide *;
      ghost var before := Given();
      while true
        invariant Fed() && |nextIn| + totalIn == |old(nextIn)| + old(totalIn) && totalIn >= old(totalIn)
        invariant Given() == before == old(Given()) && Taken() == old(Taken()) && (bsLive < 8 || bsLive < n + 8)
        invariant 8 * |nextIn| + bsLive == 8 * |old(nextIn)| + old(bsLive)
        decreases |nextIn|
      {
        if bsLive >= n {
          v := TakeFirst(n);
          return true, v;
        }
        if nextIn == [] {
          return false, 0;
        }
        FetchByte();
      }
    }

    // ---------------------------------------------------------------- BZ2_decompress

    /** The parser's state, between calls. */
    ghost predicate Parsing()
      reads this`m, this`bsLive, this`in0, this`totalIn, this`pend0
    {
      Ok(m) && Fits(m) && (bsLive < 8 || bsLive < Need(m)) && Taken() >= Passed(m)
    }

    lemma ParsingFacts()
      requires Parsing()
      ensures Ok(m) && Fits(m) && (bsLive < 8 || bsLive < Need(m)) && Taken() >= Passed(m) && 1 <= Need(m) <= LONGEST
    {
    }

    lemma IsParsing()
      requires Ok(m) && Fits(m) && (bsLive < 8 || bsLive < Need(m)) && Taken() >= Passed(m)
      ensures Parsing()
    {
    }

    lemma NeedsByte()
      requires Ok(m) && m.stage.Magic?
      ensures Need(m) == 8
    {
    }

    lemma GivenWaits()
      requires Ok(m) && nextIn == [] && bsLive < Need(m)
      ensures Parse(m, Given()) == Waiting(m, Given())
    {
      hide Ok, Need, Parse, Bits;
      assert Given() == Pend() + [];
      ParseWaits(m, Given());
    }

    /** The arrays that the symbols change. */
    ghost function Work(): (s: set<object>)
      ensures this !in s
    {
      {list.mtfa, list.mtfbase}
    }

    /** While symbols are read, the tables and the list are those of the block. */
    ghost predicate Working()
      reads this`state, this`m, this`work, Work()
    {
      && list.Shaped()
      && (state != Rejected && (m.stage.SymbolCode? || m.stage.SymbolBit?) ==>
          work != null && work.list == list && work.Attached(m))
    }

    lemma WorkingFacts()
      requires Working()
      ensures list.Shaped() && Work() == {list.mtfa, list.mtfbase} && this !in Work()
      ensures state != Rejected && (m.stage.SymbolCode? || m.stage.SymbolBit?) ==>
                work != null && work.list == list && work.Attached(m)
    {
    }

    lemma IsWorking()
      requires list.Shaped()
      requires state != Rejected && (m.stage.SymbolCode? || m.stage.SymbolBit?) ==>
                work != null && work.list == list && work.Attached(m)
      ensures Working()
    {
    }

    /** One step of the parser; symbols go through the tables and the list. */
    method Step(v: nat) returns (next: Event)
      requires Ok(m) && Fits(m) && Working() && state != Rejected
      modifies this`work, Work()
      ensures next == Parser.Step(m, v)
      ensures next.To? && (next.m.stage.SymbolCode? || next.m.stage.SymbolBit?) ==>
                work != null && work.list == list && work.Attached(next.m)
    {
      hide *;
      WorkingFacts();
      if m.stage.SymbolCode? || m.stage.SymbolBit? {
        next := work.Step(m, v);
        FollowsFacts(work, next);
      } else {
        next := Parser.Step(m, v);
        if next.To? && (next.m.stage.SymbolCode? || next.m.stage.SymbolBit?) {
          FirstSymbol(m, v);
          work := new SymbolDecoder.SymbolDecoder(next.m.stage.body, list);
          IsAttached(work, next.m);
        }
      }
    }

    /** What the event of one step leads to. */
    lemma StepLeads(v: nat, given: seq<bool>)
      requires Ok(m) && Fits(m) && v < Pow2(Need(m)) && given == Bits(v, Need(m)) + Given()
      requires Taken() >= Passed(m) + Need(m)
      ensures var e := Parser.Step(m, v);
              && Parse(m, given) == (if e.To? then Parse(e.m, Given()) else After(e, Given()))
              && (e.To? ==> Ok(e.m) && Fits(e.m) && Taken() >= Passed(e.m))
              && (e.End? ==> m.stage.CombinedCrc?)
              && (e.Block? ==>
                  && Ok(e.m) && e.m == Machine(m.level, BlockMagic(0)) && Fits(e.m) && Taken() >= Passed(e.m)
                               && e.head.origPtr < |e.column| <= 100000 * m.level && 1 <= m.level <= 9)
    {
      hide Ok, Need, Parser.Step, Parse, Bits, Given;
      ParseOnce(m, v, Given());
      StepFits(m, v);
      if m.stage.Magic? {
        NeedsByte();
      }
      if Parser.Step(m, v).End? {
        EndIsLast(m, v);
      }
    }

    /** One number of the input, if it is there, and what the parser does with it. */
    method TakeStep() returns (got: bool, next: Event)
      requires Fed() && Parsing() && Working() && state != Rejected
      modifies this`bsBuff, this`bsLive, this`nextIn, this`totalIn, this`m, this`work, Work()
      ensures Fed() && Parsing() && (next.Fail? || Working())
      ensures |nextIn| + totalIn == |old(nextIn)| + old(totalIn) && totalIn >= old(totalIn) && Ok(m) && Ok(old(m))
      ensures !got ==> m == old(m) && next == To(m) && nextIn == [] && Given() == old(Given()) && bsLive < Need(m)
      ensures !got ==> 8 * |nextIn| + bsLive == 8 * |old(nextIn)| + old(bsLive)
      ensures got ==> Parse(old(m), old(Given())) == if next.To? then Parse(m, Given()) else After(next, Given())
      ensures got ==>
                8 * |nextIn| + bsLive < 8 * |old(nextIn)| + old(bsLive) && bsLive < 8 && (next.To? ==> next.m == m)
      ensures next == Fail(DataErrorMagic) ==> m.stage.Magic?
      ensures next.End? ==> m.stage.CombinedCrc?
      ensures next.Block? ==>
                m == next.m == Machine(m.level, BlockMagic(0)) && next.head.origPtr < |next.column| <= 100000 * m.level
                && 1 <= m.level <= 9
    {
      hide *;
      ParsingFacts();
      WorkingFacts();
      ghost var given := Given();
      var v;
      got, v := GetBits(Need(m));
      if !got {
        IsParsing();
        return false, To(m);
      }
      StepLeads(v, given);
      if !m.stage.Magic? {
        StreamTexts.StageFails(m, v);
      }
      next := Step(v);
      if next.To? || next.Block? {
        m := next.m;
        IsWorking();
      } else if next.End? {
        IsWorking();
      }
      IsParsing();
    }

    /**
     BZ2_decompress: takes what input it can, from where it stopped before.  It does what `Parse`
     does with the bits it has been given.
     */
    method Decompress() returns (ghost stop: Stop, e: Event)
      requires Fed() && Parsing() && Working() && state != Rejected
      modifies this`bsBuff, this`bsLive, this`nextIn, this`totalIn, this`m, this`work, Work()
      ensures Fed() && Parsing() && (e.Fail? || Working())
      ensures |nextIn| + totalIn == |old(nextIn)| + old(totalIn) && totalIn >= old(totalIn)
      ensures Ok(old(m)) && stop == Parse(old(m), old(Given()))
      ensures e.To? ==> nextIn == [] && e.m == m && stop == Waiting(m, Given())
      ensures !e.To? ==> stop == After(e, Given()) && bsLive < 8
      ensures e == Fail(DataErrorMagic) ==> m.stage.Magic?
      ensures e.End? ==> m.stage.CombinedCrc?
      ensures e.Block? ==>
                m == e.m == Machine(m.level, BlockMagic(0)) && e.head.origPtr < |e.column| <= 100000 * m.level
                && 1 <= m.level <= 9
      ensures e.Block? ==> 8 * |nextIn| + bsLive < 8 * |old(nextIn)| + old(bsLive)
    {
      hide *;
      ParsingFacts();
      stop := Parse(m, Given());
      while true
        invariant Fed() && Parsing() && Working()
        invariant |nextIn| + totalIn == |old(nextIn)| + old(totalIn) && totalIn >= old(totalIn)
        invariant Ok(m) && stop == Parse(m, Given()) && 8 * |nextIn| + bsLive <= 8 * |old(nextIn)| + old(bsLive)
        decreases 8 * |nextIn| + bsLive
      {
        var got;
        got, e := TakeStep();
        if !got {
          GivenWaits();
          return;
        }
        if !e.To? {
          return;
        }
      }
    }

    // ---------------------------------------------------------------- what the decoder keeps

    /** The objects that the decoder consists of. */
    ghost function Footprint(): (s: set<object>)
      reads this`ex
      ensures this !in s
    {
      (if ex == null then {} else ex.Owns()) + Work()
    }

    /** What the reference decoder makes of all the input from this decoder's start. */
    ghost function Start(): (o: Outcome)
      requires GoodData(data) && in0 <= |input|
      reads this`input, this`in0, this`pend0, this`combined0
    {
      Decompressed(data, Machine(0, Magic(0)), combined0, pend0 + BytesBits(input[in0..]))
    }

    /** What a parse of all the input comes to first. */
    ghost function First(): (s: Stop)
      requires in0 <= |input|
      reads this`input, this`in0, this`pend0
    {
      StreamTexts.FirstOk();
      Parse(Machine(0, Magic(0)), pend0 + BytesBits(input[in0..]))
    }

    /** Whether the stream has a header is not known yet, or known. */
    ghost predicate Headed()
      reads this`state, this`m, this`bsBuff, this`bsLive, this`input, this`in0, this`totalIn, this`pend0
    {
      && in0 <= |input| && totalIn <= |input|
      && (state == Decoding ==> StreamTexts.Heading(m, Ahead(), First()))
      && (!m.stage.Magic? ==> First() != Failed(DataErrorMagic))
    }

    lemma HeadedFacts()
      requires Headed()
      ensures in0 <= |input| && totalIn <= |input|
      ensures state == Decoding ==> StreamTexts.Heading(m, Ahead(), First())
      ensures !m.stage.Magic? ==> First() != Failed(DataErrorMagic)
    {
      hide Ahead, First;
    }

    lemma IsHeaded()
      requires in0 <= |input| && totalIn <= |input| && Ok(m)
      requires state == Decoding && m.stage.Magic? ==> StreamTexts.Heading(m, Ahead(), First())
      requires !m.stage.Magic? ==> First() != Failed(DataErrorMagic)
      ensures Headed()
    {
      hide Ahead, First, Ok, StreamTexts.Heading;
      if state == Decoding {
        StreamTexts.HeadingIs(m, Ahead(), First());
      }
    }

    /** What it makes of the rest, from the state this decoder is in. */
    ghost function Future(): (o: Outcome)
      requires GoodData(data) && Ok(m) && totalIn <= |input| && (state == Writing ==> ex != null)
      reads this`state, this`m, this`bsBuff, this`bsLive, this`input, this`totalIn, this`combined, this`head, this`ex
      reads Footprint()
    {
      match state
      case Decoding => Decompressed(data, m, combined, Ahead())
      case Writing => BlockOutcome(data, head, ex.x, ex.done,
                                   Decompressed(data, m, Combine(combined, head.crc), Ahead()))
      case Idle => Good([], Ahead())
      case Rejected => Broken
    }

    ghost predicate Block()
      reads this`state, this`ex, this`m, this`bsLive, Footprint()
    {
      match state
      case Writing => ex != null && ex.Valid() && ex.table == data.crcTable && |ex.table| == 256
          && m.stage == BlockMagic(0) && bsLive < 8
      case Idle => !m.stage.Magic?
      case _ => true
    }

    ghost predicate EndOk(e: BlockEnd)
      reads this`input, this`in0, this`pend0, this`combined0, this`out0
    {
      && GoodData(data) && e.bitsrem < 8 && in0 + 4 <= e.totalIn <= |input| && 1 <= e.level <= 9 && out0 <= e.totalOut
      && exists text: seq<byte> :: |text| == e.totalOut - out0
           && Resumes(data, Start(), text, e.level, e.crc, Bits(e.bits, e.bitsrem) + BytesBits(input[e.totalIn..]))
    }

    /** Every recorded block end is a place where decoding may start again. */
    ghost predicate Logged()
      reads this`ends, this`input, this`in0, this`pend0, this`combined0, this`out0
    {
      forall i :: 0 <= i < |ends| ==> EndOk(ends[i])
    }

    /** Between blocks, and at the end, the last recorded block end is here, if anything was written. */
    ghost predicate Marked()
      reads this`state, this`out, this`ends, this`totalOut
    {
      state == Decoding || state == Idle ==> out == [] || (ends != [] && ends[|ends| - 1].totalOut == totalOut)
    }

    lemma MarkedFacts()
      ensures Marked() <==>
                (state == Decoding || state == Idle ==>
                    out == [] || (ends != [] && ends[|ends| - 1].totalOut == totalOut))
    {
    }

    /** The output so far and what the state stands for are the whole outcome. */
    ghost predicate Faithful()
      reads this`state, this`m, this`bsBuff, this`bsLive, this`input, this`in0, this`totalIn, this`combined, this`head
      reads this`ex, this`out
      reads this`totalOut, this`out0, this`pend0, this`combined0, Footprint()
    {
      && GoodData(data) && Ok(m) && in0 <= totalIn <= |input| && (state == Writing ==> ex != null)
      && Start() == Prepend(out, Future()) && totalOut == out0 + |out|
    }

    ghost predicate Valid()
      reads this, Footprint()
    {
      Fed() && Parsing() && Working() && Block() && Faithful() && Headed() && Logged() && Marked()
    }

    lemma ValidFacts()
      requires Valid()
      ensures Fed() && Parsing() && Working() && Block() && Faithful() && Headed() && Logged() && Marked()
      ensures totalOut == out0 + |out|
      ensures this !in Footprint() && this !in Work() && Work() <= Footprint() && list.Shaped()
    {
      hide Start, Future;
    }

    lemma IsValid()
      requires Fed() && Parsing() && Working() && Block() && Faithful() && Headed() && Logged() && Marked()
      ensures Valid()
    {
    }

    // ---------------------------------------------------------------- the start

    /** Nothing was decoded yet. */
    ghost predicate Untouched()
      reads this
    {
      && GoodData(data) && state == Decoding && m == Machine(0, Magic(0)) && out == [] && ends == [] && ex == null
      && list.Shaped()
      && in0 == totalIn && out0 == totalOut && combined0 == combined && pend0 == Pend() && bsLive < 8 && Fed()
    }

    lemma UntouchedValid()
      requires Untouched()
      ensures Valid()
    {
      hide *;
      UntouchedParts();
      NothingDone(Start());
      NowDecoding(Start());
      IsWorking();
      MarkedFacts();
      IsValid();
    }

    lemma NothingDone(o: Outcome)
      ensures Prepend([], o) == o
    {
      if o.Good? {
        assert [] + o.text == o.text;
      }
    }

    lemma UntouchedParts()
      requires Untouched()
      ensures GoodData(data) && state == Decoding && out == [] && ends == [] && Fed() && Parsing() && Logged()
      ensures Headed()
      ensures list.Shaped()
      ensures !m.stage.SymbolCode? && !m.stage.SymbolBit?
      ensures Ok(m) && in0 <= totalIn <= |input| && totalOut == out0 + |out|
      ensures Start() == Decompressed(data, m, combined, Ahead())
    {
      assert Taken() == 0;
      hide Decompressed, Pend, BytesBits;
    }

    /** BZ2_bzDecompressInit, for an input that will be `input0`. */
    constructor (data0: Data, small0: bool, ghost input0: seq<byte>)
      requires GoodData(data0)
      ensures Untouched() && Valid() && Calm() && data == data0 && small == small0 && input == input0
      ensures nextIn == [] && totalIn == 0 && totalOut == 0 && combined == 0 && bsLive == 0 && fresh(Work())
    {
      data, small := data0, small0;
      list := new MtfSlide.SlidingList();
      state, m, bsBuff, bsLive, head, ex, work, combined :=
          Decoding, Machine(0, Magic(0)), 0, 0, Head(0, false, 0), null, null, 0;
      nextIn, totalIn, availOut, totalOut, out, ends := [], 0, 0, 0, [], [];
      input, in0, pend0, combined0, out0 := input0, 0, [], 0, 0;
      new;
      assert Bits(0, 0) == [];
      UntouchedValid();
    }

    /** The caller sets its buffer and counters, for an input that is `input1` from there on. */
    method Place(nextIn1: seq<byte>, totalIn1: nat, totalOut1: nat, ghost input1: seq<byte>)
      requires Untouched() && totalIn1 + |nextIn1| <= |input1| && nextIn1 == input1[totalIn1..totalIn1 + |nextIn1|]
      modifies this`nextIn, this`totalIn, this`totalOut, this`input, this`in0, this`out0
      ensures Untouched() && nextIn == nextIn1 && totalIn == totalIn1 && totalOut == totalOut1 && input == input1
    {
      nextIn, totalIn, totalOut := nextIn1, totalIn1, totalOut1;
      input, in0, out0 := input1, totalIn1, totalOut1;
    }

    /** BZ2_bzRestoreBlockEnd: the buffer holds the first bits of the letter B. */
    method RestoreBlockEnd(bitsrem: nat, crc: nat)
      requires Untouched() && bitsrem < 8
      modifies this`bsBuff, this`bsLive, this`combined, this`pend0, this`combined0
      ensures Untouched() && Valid() && Calm() && bsLive == bitsrem && combined == crc
      ensures bsBuff == Shr(0x42, 8 - bitsrem)
    {
      hide Valid, Decompressed, Parse, Working, Faithful, Start, Shr;
      ShrSmaller(0x42, 8 - bitsrem);
      bsBuff := Shr(0x42, 8 - bitsrem);
      bsLive := bitsrem;
      combined := crc;
      pend0, combined0 := Pend(), crc;
      UntouchedValid();
    }

    // ---------------------------------------------------------------- the caller

    /** More input, or the same again, from where the decoder is. */
    method Feed(piece: seq<byte>)
      requires Valid() && totalIn + |piece| <= |input| && piece == input[totalIn..totalIn + |piece|]
      modifies this`nextIn
      ensures Valid() && nextIn == piece
    {
      hide *;
      ValidFacts();
      FedFacts();
      nextIn := piece;
      IsFed();
      IsValid();
    }

    lemma FedFacts()
      requires Fed()
      ensures in0 <= totalIn && |pend0| < 8 && bsBuff < WORD
      ensures totalIn + |nextIn| <= |input| && nextIn == input[totalIn..totalIn + |nextIn|]
    {
    }

    lemma IsFed()
      requires in0 <= totalIn && |pend0| < 8 && bsBuff < WORD
      requires totalIn + |nextIn| <= |input| && nextIn == input[totalIn..totalIn + |nextIn|]
      ensures Fed()
    {
    }

    method SetRoom(n: nat)
      requires Valid()
      modifies this`availOut
      ensures Valid() && availOut == n
    {
      hide *;
      ValidFacts();
      availOut := n;
      IsValid();
    }

    /** All that holds of a decoder whose input buffer may be gone. */
    ghost predicate Parked()
      reads this, Footprint()
    {
      in0 <= totalIn <= |input| && |pend0| < 8 && bsBuff < WORD && Parsing() && Working() && Block() && Faithful()
      && Headed() && Logged() && Marked()
    }

    /** The input buffer is used for something else. */
    method Park(garbage: seq<byte>)
      requires Valid()
      modifies this`nextIn
      ensures Parked()
    {
      hide *;
      ValidFacts();
      FedFacts();
      nextIn := garbage;
      IsParked();
    }

    lemma IsParked()
      requires in0 <= totalIn <= |input| && |pend0| < 8 && bsBuff < WORD && Parsing() && Working() && Block()
      requires Faithful() && Headed() && Logged() && Marked()
      ensures Parked()
    {
    }

    lemma ParkedFacts()
      requires Parked()
      ensures in0 <= totalIn <= |input| && |pend0| < 8 && bsBuff < WORD && Parsing() && Working() && Block()
      ensures Faithful() && Headed() && Logged() && Marked()
      ensures this !in Footprint() && this !in Work() && Work() <= Footprint() && list.Shaped()
    {
    }

    /** `avail_in = 0`: what is left of the input is to be given again. */
    method Unpark()
      requires Parked()
      modifies this`nextIn
      ensures Valid() && nextIn == []
    {
      hide *;
      ParkedFacts();
      nextIn := [];
      IsFed();
      IsValid();
    }

    // ---------------------------------------------------------------- BZ2_bzDecompress

    /** Some of the block goes out. */
    method WriteOut() returns (corrupt: bool)
      requires Valid() && state == Writing
      modifies this`availOut, this`totalOut, this`out, Footprint()
      ensures Valid() && ex != null && old(out) <= out && availOut == old(availOut) - (|out| - |old(out)|)
      ensures corrupt ==> !Expandable(ex.x)
      ensures !corrupt ==> availOut == 0 || ex.Finished()
    {
      hide *;
      ValidFacts();
      WritingFacts();
      ghost var done := ex.done;
      ghost var more := More();
      var piece;
      corrupt, piece := ex.Write(availOut);
      ghost var before := out;
      out := out + piece;
      availOut := availOut - |piece|;
      totalOut := totalOut + |piece|;
      Wrote(done, piece, before, more);
      IsWorking();
      MarkedFacts();
      IsValid();
    }

    /** What follows the block that is being written. */
    ghost function More(): (o: Outcome)
      requires GoodData(data) && Ok(m) && totalIn <= |input|
      reads this`m, this`bsBuff, this`bsLive, this`input, this`totalIn, this`combined, this`head
    {
      Decompressed(data, m, Combine(combined, head.crc), Ahead())
    }

    lemma WritingFacts()
      requires Faithful() && Block() && state == Writing
      ensures GoodData(data) && Ok(m) && in0 <= totalIn <= |input| && ex != null && ex.Valid()
      ensures totalOut == out0 + |out|
      ensures ex.table == data.crcTable && |ex.table| == 256 && m.stage == BlockMagic(0) && bsLive < 8
      ensures Start() == Prepend(out, BlockOutcome(data, head, ex.x, ex.done, More())) && {ex, ex.reader} <= Footprint()
    {
      hide Decompressed, Prepend, BlockOutcome, Combine, Ahead, Ok;
    }

    lemma Wrote(done: seq<byte>, piece: seq<byte>, before: seq<byte>, more: Outcome)
      requires state == Writing && ex != null && ex.Valid() && ex.done == done + piece && out == before + piece
      requires GoodData(data) && Ok(m) && in0 <= totalIn <= |input| && totalOut == out0 + |out| && more == More()
      requires Start() == Prepend(before, BlockOutcome(data, head, ex.x, done, more))
      ensures Faithful()
    {
      hide Decompressed, Prepend, BlockOutcome, Combine, Ahead, Ok, Expandable, Expand;
      if Expandable(ex.x) {
        ex.DoneIsPrefix();
      }
      WriteKeeps(data, head, ex.x, done, piece, more, Start(), before);
    }

    /** The values that the block end handler is given. */
    function EndNow(): (e: BlockEnd)
      reads this`totalOut, this`totalIn, this`bsLive, this`bsBuff, this`combined, this`m
    {
      BlockEnd(totalOut, totalIn, bsLive, bsBuff, combined, m.level)
    }

    /** A decoder between blocks is where decoding may start again. */
    lemma EndNowOk()
      requires Fed() && Parsing() && Faithful() && state == Decoding && m.stage == BlockMagic(0) && bsLive < 8
      ensures EndOk(EndNow())
    {
      hide Decompressed, Prepend, BytesBits;
      assert m == Machine(m.level, BlockMagic(0));
      assert Ahead() == Bits(bsBuff, bsLive) + BytesBits(input[totalIn..]);
      assert Resumes(data, Start(), out, m.level, combined, Bits(bsBuff, bsLive) + BytesBits(input[totalIn..]));
    }

    lemma LoggedMore(e: BlockEnd, before: seq<BlockEnd>)
      requires EndOk(e) && ends == before + [e] && forall i :: 0 <= i < |before| ==> EndOk(before[i])
      ensures Logged()
    {
      hide EndOk;
    }

    lemma LoggedFacts()
      requires Logged()
      ensures forall i :: 0 <= i < |ends| ==> EndOk(ends[i])
    {
    }

    /** The block is over: what was to come after it is now to come. */
    lemma BlockEnded()
      requires state == Writing && Faithful() && Block() && ex.Finished()
      ensures GoodData(data) && Ok(m) && in0 <= totalIn <= |input| && ex != null && |ex.table| == 256
      ensures ex.table == data.crcTable
      ensures ex.crc < 0x1_0000_0000 && totalOut == out0 + |out| && m.stage == BlockMagic(0) && bsLive < 8
      ensures Start() == if Finalise(ex.crc) == head.crc then Prepend(out, More()) else Broken
    {
      WritingFacts();
      hide Decompressed, Prepend, BlockOutcome, Combine, Ahead, Ok, Expandable, Expand, Start, More;
      ex.FinishedMeans();
      BlockDone(data, head, ex.x, ex.done, More());
      ex.CrcIs();
      assert Prepend(out, Broken) == Broken by {
      }
    }

    lemma NowDecoding(more: Outcome)
      requires state == Decoding && GoodData(data) && Ok(m) && in0 <= totalIn <= |input| && totalOut == out0 + |out|
      requires more == Decompressed(data, m, combined, Ahead()) && Start() == Prepend(out, more)
      ensures Faithful() && Block()
    {
      hide Decompressed, Prepend, Ahead, Ok;
    }

    lemma NowRejected()
      requires state == Rejected && GoodData(data) && Ok(m) && in0 <= totalIn <= |input| && totalOut == out0 + |out|
      requires Start() == Broken
      ensures Faithful() && Block()
    {
      hide Decompressed, Ahead, Ok;
    }

    /** The checks at the end of a block, and the call of the block end handler. */
    method EndBlock() returns (ok: bool)
      requires Valid() && state == Writing && ex != null && ex.Finished()
      modifies this`state, this`combined, this`ends
      ensures Valid() && state == if ok then Decoding else Rejected
      ensures ends == if ok then old(ends) + [EndNow()] else old(ends)
    {
      hide *;
      ValidFacts();
      HeadedFacts();
      BlockEnded();
      LoggedFacts();
      MoreIs();
      ghost var more := More();
      var calculated := Finalise(ex.crc);
      ok := calculated == head.crc;
      if ok {
        combined := Combine(combined, calculated);
        state := Decoding;
        NowDecoding(more);
        EndNowOk();
        ghost var before := ends;
        ends := ends + [EndNow()];
        LoggedMore(EndNow(), before);
      } else {
        state := Rejected;
        NowRejected();
      }
      IsWorking();
      MarkedFacts();
      EndNowIs();
      IsHeaded();
      IsValid();
    }

    lemma EndNowIs()
      ensures EndNow().totalOut == totalOut
    {
    }

    lemma DecodingFacts()
      requires Faithful() && state == Decoding
      ensures GoodData(data) && Ok(m) && in0 <= totalIn <= |input| && totalOut == out0 + |out|
      ensures Start() == Prepend(out, Decompressed(data, m, combined, Ahead()))
    {
      hide Decompressed, Prepend, Ahead, Ok;
    }

    lemma BeyondIs()
      requires Fed()
      ensures totalIn + |nextIn| <= |input| && Beyond() == BytesBits(input[totalIn + |nextIn|..])
    {
    }

    lemma MoreIs()
      requires GoodData(data) && Ok(m) && totalIn <= |input|
      ensures More() == Decompressed(data, m, Combine(combined, head.crc), Ahead())
    {
    }

    lemma FootprintIs()
      ensures Footprint() == (if ex == null then {} else ex.Owns()) + Work() && this !in Footprint()
      ensures Work() == {list.mtfa, list.mtfbase}
    {
    }

    lemma NowWriting(head': Head, column: seq<byte>)
      requires state == Writing && GoodData(data) && Ok(m) && in0 <= totalIn <= |input| && totalOut == out0 + |out|
      requires ex != null && ex.Valid() && ex.table == data.crcTable && m.stage == BlockMagic(0) && bsLive < 8
      requires head == head' && head'.origPtr < |column| && ex.x == Restored(head', column, data.rNums) && ex.done == []
      requires Start() == Prepend(out, BlockOutcome(data, head, Restored(head', column, data.rNums), [], More()))
      ensures Faithful() && Block()
    {
      hide Decompressed, Prepend, Ahead, Ok, BlockOutcome, Restored;
      ex.ValidFacts();
    }

    lemma NowIdle()
      requires state == Idle && !m.stage.Magic? && GoodData(data) && Ok(m) && in0 <= totalIn <= |input|
      requires totalOut == out0 + |out|
      requires Start() == Prepend(out, Good([], Ahead()))
      ensures Faithful() && Block()
    {
      hide Decompressed, Ahead, Ok;
    }

    /** All input is taken, and it is not enough for the next step. */
    ghost predicate Hungry()
      reads this`m, this`bsLive, this`nextIn
    {
      Ok(m) && nextIn == [] && bsLive < Need(m)
    }

    /** As the decoder is between calls: it has less than it needs, or it has something to write. */
    ghost predicate Calm()
      reads this`state, this`m, this`bsLive
    {
      Ok(m) && (state == Decoding ==> bsLive < Need(m))
    }

    lemma IsCalm()
      requires Valid() && (state == Decoding ==> Hungry())
      ensures Calm()
    {
      ValidFacts();
      ParsingFacts();
      hide Ok, Need;
    }

    lemma IsHungry()
      requires Ok(m) && nextIn == [] && |Given()| < Need(m)
      ensures Hungry()
    {
      hide Ok, Need, BytesBits, Bits;
    }

    /** A block is parsed: the inverse transform is set up, and its first symbol is fetched. */
    method BeginBlock(head': Head, column: seq<byte>)
      requires Fed() && Parsing() && Logged() && state == Decoding && m.stage == BlockMagic(0) && bsLive < 8 && Ok(m)
      requires Headed()
      requires list.Shaped()
      requires GoodData(data) && in0 <= totalIn <= |input| && totalOut == out0 + |out|
      requires head'.origPtr < |column| <= 100000 * m.level && m.level <= 9
      requires Start() == Prepend(out, BlockOutcome(data, head', Restored(head', column, data.rNums), [],
                                                    Decompressed(data, m, Combine(combined, head'.crc), Ahead())))
      modifies this`ex, this`head, this`state
      ensures Valid() && state == Writing && ex != null && fresh(ex.Owns())
    {
      hide *;
      HeadedFacts();
      var x := new Expander(small, m.level, data, head', column);
      ex := x;
      head := head';
      state := Writing;
      MoreIs();
      NowWriting(head', column);
      IsWorking();
      MarkedFacts();
      IsHeaded();
      IsValid();
    }

    /** What a call of BZ2_decompress leads to, and what is then still to come. */
    method TakeEvent() returns (e: Event)
      requires Valid() && state == Decoding
      modifies this`bsBuff, this`bsLive, this`nextIn, this`totalIn, this`m, this`work, Work()
      ensures Fed() && Parsing() && (e.Fail? || Working()) && GoodData(data) && Ok(m) && in0 <= totalIn <= |input|
      ensures |nextIn| + totalIn == |old(nextIn)| + old(totalIn) && totalIn >= old(totalIn) && totalOut == out0 + |out|
      ensures e.To? ==> Hungry() && Start() == Prepend(out, Decompressed(data, m, combined, Ahead()))
      ensures e.Block? ==>
                m == e.m == Machine(m.level, BlockMagic(0)) && bsLive < 8
                && 8 * |nextIn| + bsLive < 8 * |old(nextIn)| + old(bsLive)
      ensures e.Block? ==> e.head.origPtr < |e.column| <= 100000 * m.level && 1 <= m.level <= 9
      ensures e.Block? ==>
                Start() == Prepend(out, BlockOutcome(data, e.head, Restored(e.head, e.column, data.rNums), [],
                                                     Decompressed(data, m, Combine(combined, e.head.crc), Ahead())))
      ensures e.End? ==>
                m.stage.CombinedCrc? && Start() == if e.crc == combined then Prepend(out, Good([], Ahead())) else Broken
      ensures e.Fail? ==> Start() == Broken && (e.code == DataErrorMagic <==> First() == Failed(DataErrorMagic))
      ensures if e.Fail? then !m.stage.Magic? ==> First() != Failed(DataErrorMagic) else Headed()
    {
      hide *;
      ValidFacts();
      HeadedFacts();
      DecodingFacts();
      AheadParts();
      BeyondIs();
      FedFacts();
      ghost var m0, given, beyond := m, Given(), Beyond();
      StreamTexts.HeadingOn(m0, given, beyond, First());
      ghost var stop;
      stop, e := Decompress();
      FedFacts();
      ParsingFacts();
      BeyondIs();
      AheadParts();
      StopMeans(data, m0, combined, given, beyond);
      AfterIs(e, Given());
      PrependBroken(out);
      if e.To? {
        IsHungry();
        StreamTexts.HeadingIs(m, Ahead(), First());
      }
      if !e.Fail? {
        IsHeaded();
      }
    }

    lemma PrependBroken(s: seq<byte>)
      ensures Prepend(s, Broken) == Broken
    {
    }

    /** The part of BZ2_bzDecompress that takes input. */
    method TakeInput() returns (r: Status)
      requires Valid() && state == Decoding
      modifies this`bsBuff, this`bsLive, this`nextIn, this`totalIn, this`m, this`head, this`ex, this`work, this`state
      modifies Work()
      ensures Valid() && (ex == old(ex) || (ex != null && fresh(ex.Owns())))
      ensures |nextIn| + totalIn == |old(nextIn)| + old(totalIn) && totalIn >= old(totalIn)
      ensures r == BzStreamEnd <==> state == Idle
      ensures r == BzDataError || r == BzDataErrorMagic <==> state == Rejected
      ensures r == BzDataErrorMagic <==> state == Rejected && First() == Failed(DataErrorMagic)
      ensures state == Decoding ==> Hungry()
      ensures state == Writing ==> 8 * |nextIn| + bsLive < 8 * |old(nextIn)| + old(bsLive)
      ensures r != BzSequenceError
    {
      hide *;
      ValidFacts();
      MarkedFacts();
      var e := TakeEvent();
      match e {
      case To(m') =>
        NowDecoding(Decompressed(data, m, combined, Ahead()));
        r := BzOk;
      case Block(m', head', column) =>
        BeginBlock(head', column);
        r := BzOk;
        return;
      case End(m', crc) =>
        HeadedFacts();
        if crc == combined {
          state := Idle;
          r := BzStreamEnd;
          NowIdle();
        } else {
          state := Rejected;
          r := BzDataError;
          NowRejected();
        }
      case Fail(code) =>
        state := Rejected;
        r := if code == DataErrorMagic then BzDataErrorMagic else BzDataError;
        NowRejected();
      }
      MarkedFacts();
      if state != Decoding {
        IsHeaded();
      }
      IsValid();
    }

    /** The part of BZ2_bzDecompress that gives output; `more` when the block is over. */
    method GiveOutput() returns (more: bool, r: Status)
      requires Valid() && state == Writing
      modifies this`availOut, this`totalOut, this`out, this`state, this`combined, this`ends, Footprint()
      ensures Valid() && old(ends) <= ends && old(out) <= out && availOut == old(availOut) - (|out| - |old(out)|)
      ensures more ==> state == Decoding
      ensures !more ==> if r == BzOk then state == Writing && availOut == 0 else r == BzDataError && state == Rejected
      ensures First() != Failed(DataErrorMagic)
    {
      hide *;
      ValidFacts();
      HeadedFacts();
      WritingFacts();
      var corrupt := WriteOut();
      if corrupt {
        Reject();
        return false, BzDataError;
      }
      if !ex.Finished() {
        return false, BzOk;
      }
      var ok := EndBlock();
      return ok, BzDataError;
    }

    /** One round of BZ2_bzDecompress; `stop` when it returns. */
    method Advance() returns (stop: bool, r: Status)
      requires Valid() && (state == Decoding || state == Writing)
      modifies this`bsBuff, this`bsLive, this`nextIn, this`totalIn, this`m, this`head, this`ex, this`work, this`state
      modifies this`combined, this`ends
      modifies this`availOut, this`totalOut, this`out, Footprint()
      ensures Valid() && (ex == old(ex) || (ex != null && fresh(ex.Owns()))) && old(ends) <= ends && old(out) <= out
      ensures |nextIn| + totalIn == |old(nextIn)| + old(totalIn) && totalIn >= old(totalIn)
      ensures availOut == old(availOut) - (|out| - |old(out)|)
      ensures !stop ==> state == Writing && 8 * |nextIn| + bsLive < 8 * |old(nextIn)| + old(bsLive)
      ensures stop ==> Calm() && r != BzSequenceError && (r == BzStreamEnd ==> state == Idle)
      ensures stop && r == BzOk ==> (state == Decoding && Hungry()) || (state == Writing && availOut == 0)
      ensures stop ==> (r == BzDataError || r == BzDataErrorMagic <==> state == Rejected)
      ensures in0 <= |input|
      ensures stop ==> (r == BzDataErrorMagic <==> state == Rejected && First() == Failed(DataErrorMagic))
    {
      hide *;
      ValidFacts();
      HeadedFacts();
      FootprintIs();
      stop := true;
      if state == Writing {
        var more;
        more, r := GiveOutput();
        if !more {
          IsCalm();
          return;
        }
        ValidFacts();
      }
      r := TakeInput();
      if state != Writing {
        IsCalm();
        return;
      }
      stop := false;
    }

    /**
     BZ2_bzDecompress: goes on until there is no input for the next step, no room for the next
     byte, or the stream has ended.
     */
    method BzDecompress() returns (r: Status)
      requires Valid() && state != Rejected
      modifies this`bsBuff, this`bsLive, this`nextIn, this`totalIn, this`m, this`head, this`ex, this`work, this`state
      modifies this`combined, this`ends
      modifies this`availOut, this`totalOut, this`out, Footprint()
      ensures Valid() && (ex == old(ex) || (ex != null && fresh(ex.Owns()))) && old(ends) <= ends && old(out) <= out
      ensures |nextIn| + totalIn == |old(nextIn)| + old(totalIn) && totalIn >= old(totalIn)
      ensures availOut == old(availOut) - (|out| - |old(out)|)
      ensures r == BzSequenceError <==> old(state) == Idle
      ensures r == BzSequenceError ==> out == old(out) && state == Idle && totalIn == old(totalIn)
      ensures Calm()
      ensures r == BzOk ==> (state == Decoding && Hungry()) || (state == Writing && availOut == 0)
      ensures r == BzStreamEnd ==> state == Idle
      ensures r == BzDataError || r == BzDataErrorMagic <==> state == Rejected
      ensures in0 <= |input| && (r == BzDataErrorMagic <==> state == Rejected && First() == Failed(DataErrorMagic))
    {
      hide *;
      ValidFacts();
      HeadedFacts();
      FootprintIs();
      while true
        invariant Valid() && (ex == old(ex) || (ex != null && fresh(ex.Owns()))) && old(ends) <= ends
        invariant old(out) <= out && state != Rejected
        invariant |nextIn| + totalIn == |old(nextIn)| + old(totalIn) && totalIn >= old(totalIn)
        invariant availOut == old(availOut) - (|out| - |old(out)|)
        invariant state == Idle <==> old(state) == Idle
        invariant state == Idle ==> out == old(out) && totalIn == old(totalIn)
        decreases 8 * |nextIn| + bsLive
      {
        if state == Idle {
          IsCalm();
          return BzSequenceError;
        }
        FootprintIs();
        var stop;
        stop, r := Advance();
        if stop {
          return;
        }
      }
    }

    /** The block is not what run-length coding makes. */
    method Reject()
      requires Valid() && state == Writing && ex != null && !Expandable(ex.x)
      modifies this`state
      ensures Valid() && state == Rejected
    {
      hide *;
      ValidFacts();
      WritingFacts();
      BlockCorrupt(data, head, ex.x, ex.done, More());
      BrokenStays(out);
      HeadedFacts();
      state := Rejected;
      NowRejected();
      IsWorking();
      MarkedFacts();
      IsHeaded();
      IsValid();
    }

    // ---------------------------------------------------------------- what every run keeps

    /** Four bytes of input are taken before the first block. */
    lemma HeaderTaken()
      requires Valid() || Parked()
      ensures !m.stage.Magic? ==> in0 + 4 <= totalIn
      ensures state == Writing || state == Idle ==> in0 + 4 <= totalIn
    {
      hide Ok, Need, Decompressed, Faithful, Logged, Start;
    }

    /**
     After any calls with any pieces: a decoder that has ended wrote exactly the text, an error is
     only reported for an input that is not valid, and what is written of a valid one is right.
     */
    lemma RunMeans()
      requires Valid() || Parked()
      ensures GoodData(data) && in0 <= totalIn <= |input| && totalOut == out0 + |out|
      ensures state == Idle ==> Start() == Good(out, Ahead())
      ensures state == Rejected ==> Start() == Broken
      ensures Start().Good? ==> out <= Start().text
      ensures state == Idle ==> out == [] || (ends != [] && ends[|ends| - 1].totalOut == totalOut)
    {
      hide *;
      if Valid() {
        ValidFacts();
      } else {
        ParkedFacts();
      }
      FaithfulMeans();
      MarkedFacts();
    }

    lemma FaithfulMeans()
      requires Faithful()
      ensures GoodData(data) && in0 <= totalIn <= |input| && totalOut == out0 + |out|
      ensures state == Idle ==> Start() == Good(out, Ahead())
      ensures state == Rejected ==> Start() == Broken
      ensures Start().Good? ==> out <= Start().text
    {
      hide Start, Decompressed, BlockOutcome, Ahead, Restored, Ok;
      if state == Idle {
        assert out + [] == out;
      }
    }

    /** A block that is the last of the input is not the end of a stream. */
    lemma CutShort()
      requires Valid() && state == Writing && totalIn == |input|
      ensures GoodData(data) && in0 <= |input| && Start() == Broken
    {
      ValidFacts();
      WritingFacts();
      assert Ahead() == Pend() by {
        assert input[totalIn..] == [];
      }
      hide Start, Need, Ahead, Parse, BlockOutcome, Pend;
      ParseWaits(m, Ahead());
      assert More() == Broken;
      NothingMore(data, head, ex.x, ex.done);
    }

    /** While a valid stream has not ended, there is more of the input to take. */
    lemma MoreInput()
      requires Valid() && Calm() && (state == Decoding || state == Writing)
      ensures GoodData(data) && in0 <= |input| && (Start().Good? ==> totalIn < |input|)
    {
      hide *;
      ValidFacts();
      FedFacts();
      if totalIn == |input| {
        if state == Decoding {
          AllGiven();
          Starved();
        } else {
          CutShort();
        }
      } else if state == Decoding {
        DecodingFacts();
      } else {
        WritingFacts();
      }
    }

    lemma AllGiven()
      requires Fed() && Calm() && state == Decoding && totalIn == |input|
      ensures Hungry()
    {
    }

    /** A decoder that waits for more when there is no more was given no complete stream. */
    lemma Starved()
      requires Valid() && state == Decoding && Hungry() && totalIn == |input|
      ensures GoodData(data) && in0 <= |input| && Start() == Broken
    {
      ValidFacts();
      DecodingFacts();
      assert Ahead() == Pend() by {
        assert input[totalIn..] == [];
      }
      hide Start, Ok, Need, Ahead, Parse;
      ParseWaits(m, Ahead());
    }
  }

  /**
   Two decoders of the same input from the same start, whatever their pieces and whether they are
   fast or small, cannot differ: when one has ended the other is behind it or has written the same.
   */
  lemma SameResult(a: Decoder, b: Decoder)
    requires a.Valid() && b.Valid() && a.state == Idle
    requires a.data == b.data && a.input == b.input && a.in0 == b.in0 && a.pend0 == b.pend0
    requires a.combined0 == b.combined0
    ensures b.out <= a.out && b.state != Rejected
    ensures b.state == Idle ==> b.out == a.out && b.Ahead() == a.Ahead()
    ensures b.state == Decoding && b.Hungry() ==> b.totalIn < |b.input|
  {
    hide *;
    a.RunMeans();
    b.RunMeans();
    SameStart(a, b);
    if b.state == Decoding && b.Hungry() {
      InputBounds(b);
      if b.totalIn == |b.input| {
        b.Starved();
      }
    }
  }

  lemma SameStart(a: Decoder, b: Decoder)
    requires GoodData(a.data) && a.in0 <= |a.input|
    requires a.data == b.data && a.input == b.input && a.in0 == b.in0 && a.pend0 == b.pend0
    requires a.combined0 == b.combined0
    ensures a.Start() == b.Start()
  {
  }

  lemma InputBounds(a: Decoder)
    requires a.Valid()
    ensures a.totalIn <= |a.input|
  {
  }

  /** Where a valid stream's decoding may start again, the rest of its text follows. */
  lemma ResumesText(d: Data, start: Outcome, text: seq<byte>, level: nat, crc: nat, bits: seq<bool>)
    requires GoodData(d) && start.Good? && Resumes(d, start, text, level, crc, bits)
    ensures Ok(Machine(level, BlockMagic(0))) && |text| <= |start.text| && text == start.text[..|text|]
    ensures Decompressed(d, Machine(level, BlockMagic(0)), crc, bits) == Good(start.text[|text|..], start.rest)
  {
    hide Decompressed;
    BlockMagicOk(level);
    var o := Decompressed(d, Machine(level, BlockMagic(0)), crc, bits);
    assert start.text == text + o.text;
  }

  lemma NothingMore(d: Data, head: Head, x: seq<byte>, done: seq<byte>)
    requires GoodData(d)
    ensures BlockOutcome(d, head, x, done, Broken) == Broken
  {
    hide Expandable, Expand, BlockCrcOf;
  }

  lemma BrokenStays(s: seq<byte>)
    ensures Prepend(s, Broken) == Broken
  {
  }

  lemma {:induction false} ShrSmaller(v: nat, k: nat)
    ensures Shr(v, k) <= v
    decreases k
  {
    if k > 0 {
      ShrSmaller(v / 2, k - 1);
    }
  }
}
