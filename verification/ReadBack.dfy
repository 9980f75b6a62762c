/**
 What the decoder has read when it has got a block: each part of the block's bits, from the values
 that the parser has at its end.  This is the converse of `ParsePrint` and `ParseSymbols`.
 */
module ReadBack {

  import opened Rotation
  import opened Words
  import opened BitStrings
  import opened Codes
  import opened Mtf
  import opened ByteMap
  import opened Parser
  import opened BlockFormat
  import opened ParsePrint
  import opened ParseSymbols

  /** A block or the end of the stream was read. */
  predicate Comes(s: Stop)
  {
    s.GotBlock? || s.Ended?
  }

  lemma ContinueIs(e: Event, rest: seq<bool>)
    requires e.To? ==> Ok(e.m)
    ensures Continue(e, rest) == if e.To? then Parse(e.m, rest) else After(e, rest)
    ensures e.Fail? ==> Continue(e, rest).Failed?
    ensures e.Block? ==> Continue(e, rest) == GotBlock(e.m, e.head, e.column, rest)
    ensures e.End? ==> Continue(e, rest) == Ended(e.m, e.crc, rest)
  {
    hide Parse, Ok;
  }

  /** The number that was read first. */
  lemma Invert(m: Machine, bits: seq<bool>) returns (v: nat, rest: seq<bool>)
    requires Ok(m) && Comes(Parse(m, bits))
    ensures v < Pow2(Need(m)) && bits == Bits(v, Need(m)) + rest && |rest| < |bits|
    ensures Step(m, v).To? ==> Ok(Step(m, v).m)
    ensures Parse(m, bits) == Continue(Step(m, v), rest) && !Step(m, v).Fail?
  {
    hide Ok, Need, Step, Pow2, Value, Bits;
    var n := Need(m);
    v, rest := Value(bits[..n]), bits[n..];
    BitsValue(bits[..n]);
    assert bits == bits[..n] + rest;
    ContinueIs(Step(m, v), rest);
  }

  /** The bit that was read first. */
  lemma InvertBit(m: Machine, bits: seq<bool>) returns (x: bool, rest: seq<bool>)
    requires Ok(m) && Comes(Parse(m, bits)) && Need(m) == 1
    ensures bits == [x] + rest && |rest| < |bits|
    ensures var e := Step(m, if x then 1 else 0);
            (e.To? ==> Ok(e.m)) && Parse(m, bits) == Continue(e, rest) && !e.Fail?
  {
    hide *;
    var v;
    v, rest := Invert(m, bits);
    OneBit(v);
    x := v == 1;
  }

  lemma OneBit(v: nat)
    requires v < Pow2(1)
    ensures v < 2 && Bits(v, 1) == [v == 1]
  {
    assert Pow2(1) == 2 * Pow2(0);
    assert Bits(v, 1) == Bits(v / 2, 0) + [v == 1];
  }

  // ---------------------------------------------------------------- headers

  lemma ByteBits(v: nat, rest: seq<bool>)
    requires v < Pow2(8)
    ensures v < 256 && forall s: seq<nat> :: Bits(v, 8) + (BytesBits(s) + rest) == BytesBits([v] + s) + rest
  {
    assert Pow2(4) == 16;
    hide Bits;
    forall s: seq<nat> ensures Bits(v, 8) + (BytesBits(s) + rest) == BytesBits([v] + s) + rest {
      assert ([v] + s)[1..] == s;
    }
  }

  /** The stages of the trailer lead to no block. */
  lemma {:induction false} TrailerOnly(m: Machine, bits: seq<bool>)
    requires Ok(m) && (m.stage.EndMagic? || m.stage.CombinedCrc?)
    ensures !Parse(m, bits).GotBlock?
    decreases |bits|
  {
    if Comes(Parse(m, bits)) {
      var v, rest := Invert(m, bits);
      TrailerStep(m, v);
      ContinueIs(Step(m, v), rest);
      hide *;
      if Step(m, v).To? {
        TrailerOnly(Step(m, v).m, rest);
      }
    }
  }

  lemma TrailerStep(m: Machine, v: nat)
    requires Ok(m) && (m.stage.EndMagic? || m.stage.CombinedCrc?)
    ensures !Step(m, v).Block?
    ensures Step(m, v).To? ==> Step(m, v).m.stage.EndMagic? || Step(m, v).m.stage.CombinedCrc?
  {
  }

  lemma MagicBack(level: nat, k: nat, bits: seq<bool>) returns (rest: seq<bool>)
    requires k < 6 && Ok(Machine(level, BlockMagic(k))) && Parse(Machine(level, BlockMagic(k)), bits).GotBlock?
    ensures |BLOCK_MAGIC| == 6 && bits == BytesBits(BLOCK_MAGIC[k..]) + rest
    ensures Parse(Machine(level, BlockMagic(k)), bits) == Parse(Machine(level, BlockCrc(0, 0)), rest)
    decreases 6 - k
  {
    hide *;
    var m := Machine(level, BlockMagic(k));
    MagicTaken(level, k);
    ComesIs(Parse(m, bits));
    var v, more := Invert(m, bits);
    MagicOnly(level, k, v);
    ContinueIs(Step(m, v), more);
    if v != BLOCK_MAGIC[k] {
      TrailerOnly(Step(m, v).m, more);
    }
    assert [BLOCK_MAGIC[k]] + BLOCK_MAGIC[k + 1..] == BLOCK_MAGIC[k..];
    if k < 5 {
      rest := MagicBack(level, k + 1, more);
    } else {
      rest := more;
      BytesStep([], rest);
      assert BLOCK_MAGIC[6..] == [];
    }
    ByteBits(v, rest);
  }

  lemma MagicTaken(level: nat, k: nat)
    requires k < 6
    ensures Need(Machine(level, BlockMagic(k))) == 8 && |BLOCK_MAGIC| == 6
  {
  }

  lemma MagicOnly(level: nat, k: nat, v: nat)
    requires k < 6 && Ok(Machine(level, BlockMagic(k))) && |BLOCK_MAGIC| == 6
    ensures var e := Step(Machine(level, BlockMagic(k)), v);
            if v == BLOCK_MAGIC[k] then
              var m' := Machine(level, if k < 5 then BlockMagic(k + 1) else BlockCrc(0, 0));
              e == To(m') && Ok(m')
            else e.Fail? || (e == To(Machine(level, EndMagic(1))) && Ok(Machine(level, EndMagic(1))))
  {
  }

  lemma CrcBack(level: nat, k: nat, crc: nat, bits: seq<bool>) returns (s: seq<nat>, rest: seq<bool>)
    requires k < 4 && Ok(Machine(level, BlockCrc(k, crc))) && Comes(Parse(Machine(level, BlockCrc(k, crc)), bits))
    ensures |s| == 4 - k && (forall i :: 0 <= i < |s| ==> s[i] < 256) && bits == BytesBits(s) + rest
    ensures Ok(Machine(level, RandBit(Spelled(crc, s))))
    ensures Parse(Machine(level, BlockCrc(k, crc)), bits) == Parse(Machine(level, RandBit(Spelled(crc, s))), rest)
    decreases 4 - k
  {
    hide *;
    CrcStep(level, k, crc, 0);
    var m := Machine(level, BlockCrc(k, crc));
    var v, more := Invert(m, bits);
    CrcStep(level, k, crc, v);
    ContinueIs(Step(m, v), more);
    if k < 3 {
      s, rest := CrcBack(level, k + 1, 256 * crc + v, more);
    } else {
      s, rest := [], more;
      BytesStep([], rest);
      NoneSpelled(256 * crc + v);
    }
    ByteBits(v, rest);
    s := [v] + s;
    SpelledStep(crc, s);
    assert s[1..] == s[1..];
  }

  lemma NoneSpelled(x: nat)
    ensures Spelled(x, []) == x
  {
  }

  lemma OrigPtrTaken(level: nat, k: nat, head: Head, v: nat)
    requires k < 3
    ensures var m, h := Machine(level, OrigPtr(k, head)), head.(origPtr := 256 * head.origPtr + v);
            var m' := Machine(level, if k < 2 then OrigPtr(k + 1, h) else Mapping1(h, []));
            && Ok(m) && Need(m) == 8 && Ok(m')
            && (Step(m, v) == To(m') || Step(m, v).Fail?)
            && (k == 2 && !Step(m, v).Fail? ==> h.origPtr <= 10 + 100000 * level)
  {
  }

  lemma OrigPtrBack(level: nat, k: nat, head: Head, bits: seq<bool>) returns (s: seq<nat>, rest: seq<bool>)
    requires k < 3 && Ok(Machine(level, OrigPtr(k, head))) && Comes(Parse(Machine(level, OrigPtr(k, head)), bits))
    ensures |s| == 3 - k && (forall i :: 0 <= i < |s| ==> s[i] < 256) && bits == BytesBits(s) + rest
    ensures Spelled(head.origPtr, s) <= 10 + 100000 * level
    ensures Ok(Machine(level, Mapping1(head.(origPtr := Spelled(head.origPtr, s)), [])))
    ensures Parse(Machine(level, OrigPtr(k, head)), bits)
            == Parse(Machine(level, Mapping1(head.(origPtr := Spelled(head.origPtr, s)), [])), rest)
    decreases 3 - k
  {
    hide *;
    OrigPtrTaken(level, k, head, 0);
    var m := Machine(level, OrigPtr(k, head));
    var v, more := Invert(m, bits);
    OrigPtrTaken(level, k, head, v);
    ContinueIs(Step(m, v), more);
    var h := head.(origPtr := 256 * head.origPtr + v);
    if k < 2 {
      s, rest := OrigPtrBack(level, k + 1, h, more);
    } else {
      s, rest := [], more;
      BytesStep([], rest);
      NoneSpelled(h.origPtr);
    }
    ByteBits(v, rest);
    s := [v] + s;
    SpelledStep(head.origPtr, s);
  }

  /** Bytes are the bits of the number that they spell. */
  lemma {:induction false} SpelledBits(x: nat, n: nat, s: seq<nat>)
    requires forall i :: 0 <= i < |s| ==> s[i] < 256
    ensures Bits(x, n) + BytesBits(s) == Bits(Spelled(x, s), n + 8 * |s|)
    decreases |s|
  {
    hide Bits;
    if s != [] {
      var y := 256 * x + s[0];
      SpelledBits(y, n + 8, s[1..]);
      BitsConcat(y, n, 8);
      Shr8(y);
      BitsLow(y, s[0], 8);
      assert Bits(x, n) + (Bits(s[0], 8) + BytesBits(s[1..])) == Bits(x, n) + Bits(s[0], 8) + BytesBits(s[1..]);
    }
  }

  lemma {:induction false} SpelledBound(x: nat, k: nat, s: seq<nat>)
    requires (forall i :: 0 <= i < |s| ==> s[i] < 256) && x < Pow2(k)
    ensures Spelled(x, s) < Pow2(k + 8 * |s|)
    decreases |s|
  {
    if s != [] {
      Pow2Add(k, 8);
      assert Pow2(4) == 16;
      SpelledBound(256 * x + s[0], k + 8, s[1..]);
    }
  }

  /** The fixed fields, as numbers: 48 bits that are known, the CRC, the flag and the row. */
  function HeadText(head: Head): (b: seq<bool>)
  {
    Bits(0x314159265359, 48) + Bits(head.crc, 32) + [head.randomised] + Bits(head.origPtr, 24)
  }

  lemma MagicNumber()
    ensures BytesBits(BLOCK_MAGIC) == Bits(0x314159265359, 48) && BytesBits(END_MAGIC) == Bits(0x177245385090, 48)
  {
    hide Bits, BytesBits;
    SixBytes(0x31, 0x41, 0x59, 0x26, 0x53, 0x59);
    SixBytes(0x17, 0x72, 0x45, 0x38, 0x50, 0x90);
  }

  lemma SixBytes(a: nat, b: nat, c: nat, d: nat, e: nat, f: nat)
    requires a < 256 && b < 256 && c < 256 && d < 256 && e < 256 && f < 256
    ensures BytesBits([a, b, c, d, e, f]) == Bits(((((a * 256 + b) * 256 + c) * 256 + d) * 256 + e) * 256 + f, 48)
  {
    hide *;
    var s := [a, b, c, d, e, f];
    SpelledBits(0, 0, s);
    NoBits(0);
    var x1 := 256 * 0 + a;
    var x2 := 256 * x1 + b;
    var x3 := 256 * x2 + c;
    var x4 := 256 * x3 + d;
    var x5 := 256 * x4 + e;
    SpelledStep(0, s);
    assert s[1..] == [b, c, d, e, f];
    SpelledStep(x1, [b, c, d, e, f]);
    assert [b, c, d, e, f][1..] == [c, d, e, f];
    SpelledStep(x2, [c, d, e, f]);
    assert [c, d, e, f][1..] == [d, e, f];
    SpelledStep(x3, [d, e, f]);
    assert [d, e, f][1..] == [e, f];
    SpelledStep(x4, [e, f]);
    assert [e, f][1..] == [f];
    SpelledStep(x5, [f]);
  }

  lemma WordText(u: nat)
    requires u < 0x1_0000_0000
    ensures BytesBits(WordBytes(u)) == Bits(u, 32)
  {
    WordIs(u);
    SpelledBits(0, 0, WordBytes(u));
    hide Bits, BytesBits, Spelled;
    assert |WordBytes(u)| == 4;
    NoBits(0);
  }

  lemma NoBits(v: nat)
    ensures Bits(v, 0) == [] && forall s: seq<bool> :: Bits(v, 0) + s == s
  {
  }

  /** The header as the compressor prints it. */
  lemma HeadTextIs(head: Head)
    requires head.crc < 0x1_0000_0000
    ensures HeadText(head) == HeadBits(head)
  {
    MagicNumber();
    WordText(head.crc);
    OneBit(if head.randomised then 1 else 0);
    hide Bits, BytesBits;
  }

  lemma HeadTextParts(head: Head, rest: seq<bool>)
    ensures HeadText(head) + rest
            == Bits(0x314159265359, 48)
               + (Bits(head.crc, 32) + ([head.randomised] + (Bits(head.origPtr, 24) + rest)))
  {
    hide Bits;
  }

  lemma FourBytes(s: seq<nat>)
    requires |s| == 4 && forall i :: 0 <= i < |s| ==> s[i] < 256
    ensures BytesBits(s) == Bits(Spelled(0, s), 32) && Spelled(0, s) < 0x1_0000_0000
  {
    SpelledBits(0, 0, s);
    SpelledBound(0, 0, s);
    NoBits(0);
    Pow2Sizes();
  }

  lemma Pow2Sizes()
    ensures Pow2(0) == 1 && Pow2(32) == 0x1_0000_0000
  {
    Pow2Word();
  }

  lemma ThreeSpelled(s: seq<nat>)
    requires |s| == 3 && forall i :: 0 <= i < |s| ==> s[i] < 256
    ensures BytesBits(s) == Bits(Spelled(0, s), 24)
  {
    SpelledBits(0, 0, s);
    NoBits(0);
  }

  lemma HeadStages(level: nat, crc: nat, x: bool)
    ensures Ok(Machine(level, BlockMagic(0))) && Ok(Machine(level, BlockCrc(0, 0))) && Ok(Machine(level, RandBit(crc)))
    ensures Need(Machine(level, RandBit(crc))) == 1 && Ok(Machine(level, OrigPtr(0, Head(crc, x, 0))))
    ensures Step(Machine(level, RandBit(crc)), if x then 1 else 0) == To(Machine(level, OrigPtr(0, Head(crc, x, 0))))
  {
  }

  /** The fixed fields of a block. */
  lemma HeadBack(level: nat, bits: seq<bool>) returns (head: Head, rest: seq<bool>)
    requires 1 <= level <= 9 && Ok(Machine(level, BlockMagic(0)))
    requires Parse(Machine(level, BlockMagic(0)), bits).GotBlock?
    ensures bits == HeadText(head) + rest && HeadFits(head, level) && Ok(Machine(level, Mapping1(head, [])))
    ensures Parse(Machine(level, BlockMagic(0)), bits) == Parse(Machine(level, Mapping1(head, [])), rest)
  {
    hide *;
    HeadStages(level, 0, false);
    MagicNumber();
    var r1 := MagicBack(level, 0, bits);
    assert BLOCK_MAGIC[0..] == BLOCK_MAGIC;
    ComesIs(Parse(Machine(level, BlockCrc(0, 0)), r1));
    var s4, r2 := CrcBack(level, 0, 0, r1);
    FourBytes(s4);
    var crc := Spelled(0, s4);
    HeadStages(level, crc, false);
    ComesIs(Parse(Machine(level, RandBit(crc)), r2));
    var x, r3 := InvertBit(Machine(level, RandBit(crc)), r2);
    HeadStages(level, crc, x);
    ContinueTo(Machine(level, OrigPtr(0, Head(crc, x, 0))), r3);
    var s3, r4 := OrigPtrBack(level, 0, Head(crc, x, 0), r3);
    ThreeSpelled(s3);
    head, rest := Head(crc, x, Spelled(0, s3)), r4;
    HeadTextParts(head, rest);
    Fits(head, level);
  }

  lemma ComesIs(s: Stop)
    ensures Comes(s) <==> s.GotBlock? || s.Ended?
  {
  }

  lemma Fits(head: Head, level: nat)
    requires head.crc < 0x1_0000_0000 && head.origPtr <= 10 + 100000 * level && 1 <= level <= 9
    ensures HeadFits(head, level)
  {
  }

  // ---------------------------------------------------------------- the byte map

  lemma GroupsBack(level: nat, head: Head, u: seq<bool>, bits: seq<bool>) returns (g: seq<bool>, rest: seq<bool>)
    requires |u| < 16 && Ok(Machine(level, Mapping1(head, u))) && Comes(Parse(Machine(level, Mapping1(head, u)), bits))
    ensures |g| == 16 && u <= g && bits == g[|u|..] + rest
    ensures AfterMap(level, head, g, []).To? ==> Ok(AfterMap(level, head, g, []).m)
    ensures Parse(Machine(level, Mapping1(head, u)), bits) == Continue(AfterMap(level, head, g, []), rest)
    decreases 16 - |u|
  {
    hide *;
    Mapping1Step(level, head, u, false);
    var m := Machine(level, Mapping1(head, u));
    var x, more := InvertBit(m, bits);
    Mapping1Step(level, head, u, x);
    if |u| < 15 {
      ContinueTo(Machine(level, Mapping1(head, u + [x])), more);
      g, rest := GroupsBack(level, head, u + [x], more);
      assert g[|u|..] == [x] + g[|u| + 1..];
    } else {
      g, rest := u + [x], more;
    }
  }

  lemma FlagsBack(level: nat, head: Head, g: seq<bool>, s: seq<bool>, bits: seq<bool>)
    returns (inUse: seq<bool>, rest: seq<bool>)
    requires Covered(g, s) && |g| == 16 && |s| <= 256 && (|s| < 256 ==> AtFlag(g, |s|))
    requires AfterMap(level, head, g, s).To? ==> Ok(AfterMap(level, head, g, s).m)
    requires Comes(Continue(AfterMap(level, head, g, s), bits))
    ensures Covered(g, inUse) && |inUse| == 256 && s <= inUse && Unseq(inUse) != []
    ensures bits == FlagBits(g, inUse, |s|) + rest && Ok(Machine(level, NGroups(head, inUse)))
    ensures Continue(AfterMap(level, head, g, s), bits) == Parse(Machine(level, NGroups(head, inUse)), rest)
    decreases 256 - |s|
  {
    hide *;
    ComesIs(Continue(AfterMap(level, head, g, s), bits));
    if |s| == 256 {
      inUse, rest := s, bits;
      MapEnds(level, head, g, s, bits);
    } else {
      FlagTaken(level, head, g, s);
      var x, more;
      if g[|s| / 16] {
        var m := Machine(level, Mapping2(head, g, s));
        ContinueTo(m, bits);
        Mapping2Step(level, head, g, s, false);
        x, more := InvertBit(m, bits);
        Mapping2Step(level, head, g, s, x);
        CoverMore(g, s, x);
        inUse, rest := FlagsBack(level, head, g, s + [x], more);
        assert inUse[|s|] == x;
        FlagPrinted(g, inUse, |s|);
        assert bits == [x] + (FlagBits(g, inUse, |s| + 1) + rest);
      } else {
        AtFlagIs(g, |s|);
        CoverNone(g, s);
        inUse, rest := FlagsBack(level, head, g, s + seq(16, _ => false), bits);
        FlagPrinted(g, inUse, |s|);
      }
    }
  }

  lemma CoverMore(g: seq<bool>, s: seq<bool>, x: bool)
    requires Covered(g, s) && |g| == 16 && |s| < 256 && g[|s| / 16]
    ensures Covered(g, s + [x]) && (|s| + 1 < 256 ==> AtFlag(g, |s| + 1))
  {
  }

  lemma CoverNone(g: seq<bool>, s: seq<bool>)
    requires Covered(g, s) && |g| == 16 && |s| + 16 <= 256 && |s| % 16 == 0
    ensures Covered(g, s + seq(16, _ => false)) && (|s| + 16 < 256 ==> AtFlag(g, |s| + 16))
  {
  }

  lemma MapEnds(level: nat, head: Head, g: seq<bool>, s: seq<bool>, bits: seq<bool>)
    requires |g| == 16 && |s| == 256 && Comes(Continue(AfterMap(level, head, g, s), bits))
    ensures Unseq(s) != [] && Ok(Machine(level, NGroups(head, s))) && bits == FlagBits(g, s, 256) + bits
    ensures Continue(AfterMap(level, head, g, s), bits) == Parse(Machine(level, NGroups(head, s)), bits)
  {
    hide Used, Parse;
  }

  lemma MapBack(level: nat, head: Head, bits: seq<bool>) returns (g: seq<bool>, inUse: seq<bool>, rest: seq<bool>)
    requires Ok(Machine(level, Mapping1(head, []))) && Comes(Parse(Machine(level, Mapping1(head, [])), bits))
    ensures Covered(g, inUse) && |g| == 16 && |inUse| == 256 && Unseq(inUse) != []
    ensures bits == g + (FlagBits(g, inUse, 0) + rest) && Ok(Machine(level, NGroups(head, inUse)))
    ensures Parse(Machine(level, Mapping1(head, [])), bits) == Parse(Machine(level, NGroups(head, inUse)), rest)
  {
    hide *;
    var more;
    g, more := GroupsBack(level, head, [], bits);
    NoneCovered(g);
    inUse, rest := FlagsBack(level, head, g, [], more);
    assert g[0..] == g;
  }

  lemma NoneCovered(g: seq<bool>)
    requires |g| == 16
    ensures Covered(g, []) && AtFlag(g, 0)
  {
  }

  // ---------------------------------------------------------------- selectors

  lemma CountTaken(level: nat, head: Head, inUse: seq<bool>, v: nat)
    requires |inUse| == 256 && Unseq(inUse) != []
    ensures var m := Machine(level, NGroups(head, inUse));
            && Ok(m) && Need(m) == 3
            && (Step(m, v).Fail?
                || (2 <= v <= 6 && Groups(inUse, v) && Step(m, v) == To(Machine(level, NSelectors(head, inUse, v)))))
  {
    hide Used;
  }

  lemma SelectorsTaken(level: nat, head: Head, inUse: seq<bool>, n: nat, v: nat)
    requires Groups(inUse, n)
    ensures var m, m' := Machine(level, NSelectors(head, inUse, n)),
                         Machine(level, SelectorBit(head, inUse, n, v, [], 0, 0));
            && Ok(m) && Need(m) == 15
            && (Step(m, v).Fail? || (v >= 1 && Ok(m') && Step(m, v) == To(m')))
  {
    hide Used;
  }

  lemma UnaryTaken(level: nat, head: Head, inUse: seq<bool>, n: nat, ns: nat, mtf: seq<nat>, i: nat, j: nat)
    requires Groups(inUse, n) && i < ns && j < n && Picks(mtf, n)
    ensures var m := Machine(level, SelectorBit(head, inUse, n, ns, mtf, i, j));
            && Ok(m) && (j + 1 >= n ==> Step(m, 1).Fail?)
            && (i + 1 < ns ==> Ok(Machine(level, SelectorBit(head, inUse, n, ns, Keep(mtf, i, j), i + 1, 0))))
            && (j + 1 < n ==> Ok(Machine(level, SelectorBit(head, inUse, n, ns, mtf, i, j + 1))))
  {
    hide Used;
  }

  /** One selector. */
  lemma UnaryBack(level: nat, head: Head, inUse: seq<bool>, n: nat, ns: nat, mtf: seq<nat>, i: nat, j: nat,
                  bits: seq<bool>) returns (d: nat, rest: seq<bool>)
    requires Groups(inUse, n) && i < ns && j < n && Picks(mtf, n)
    requires Ok(Machine(level, SelectorBit(head, inUse, n, ns, mtf, i, j)))
    requires Comes(Parse(Machine(level, SelectorBit(head, inUse, n, ns, mtf, i, j)), bits))
    ensures j + d < n && bits == Unary(d) + rest && Picks(Keep(mtf, i, j + d), n)
    ensures i + 1 < ns ==> Ok(Machine(level, SelectorBit(head, inUse, n, ns, Keep(mtf, i, j + d), i + 1, 0)))
    ensures Parse(Machine(level, SelectorBit(head, inUse, n, ns, mtf, i, j)), bits)
            == Continue(if i + 1 < ns then To(Machine(level,
                                                      SelectorBit(head, inUse, n, ns, Keep(mtf, i, j + d), i + 1, 0)))
                        else AfterSelectors(level, head, inUse, n, Keep(mtf, i, j + d)), rest)
    decreases n - j
  {
    hide *;
    var m := Machine(level, SelectorBit(head, inUse, n, ns, mtf, i, j));
    SelectorStep(level, head, inUse, n, ns, mtf, i, j);
    UnaryTaken(level, head, inUse, n, ns, mtf, i, j);
    var x, more := InvertBit(m, bits);
    if x {
      ContinueTo(Machine(level, SelectorBit(head, inUse, n, ns, mtf, i, j + 1)), more);
      d, rest := UnaryBack(level, head, inUse, n, ns, mtf, i, j + 1, more);
      d := d + 1;
    } else {
      d, rest := 0, more;
    }
    UnaryStep(mtf, i, j, d, n, rest);
  }

  lemma SelectorsBack(level: nat, head: Head, inUse: seq<bool>, n: nat, ns: nat, all: seq<nat>, bits: seq<bool>)
    returns (s: seq<nat>, rest: seq<bool>)
    requires Groups(inUse, n) && |all| < ns && Picks(all, n)
    requires Ok(Machine(level, SelectorBit(head, inUse, n, ns, Kept(all), |all|, 0)))
    requires Comes(Parse(Machine(level, SelectorBit(head, inUse, n, ns, Kept(all), |all|, 0)), bits))
    ensures |s| == ns && all <= s && Picks(s, n) && Picks(Kept(s), n) && bits == UnaryAll(s[|all|..]) + rest
    ensures Parse(Machine(level, SelectorBit(head, inUse, n, ns, Kept(all), |all|, 0)), bits)
            == Continue(AfterSelectors(level, head, inUse, n, Kept(s)), rest)
    decreases ns - |all|
  {
    hide *;
    GroupsSome(inUse, n);
    KeptPicks(all, n);
    var d, more := UnaryBack(level, head, inUse, n, ns, Kept(all), |all|, 0, bits);
    var next := all + [d];
    PicksMore(all, d, n);
    KeptMore(next, |all|, n);
    assert next[..|all|] == all && next[..|all| + 1] == next;
    if |next| < ns {
      ContinueTo(Machine(level, SelectorBit(head, inUse, n, ns, Kept(next), |next|, 0)), more);
      s, rest := SelectorsBack(level, head, inUse, n, ns, next, more);
    } else {
      s, rest := next, more;
      NoneUnary(rest);
      assert s[|s|..] == [];
    }
    UnaryAllStep(s[|all|..], rest);
    assert s[|all|..][1..] == s[|next|..] && s[|all|..][0] == d;
  }

  lemma NoneUnary(rest: seq<bool>)
    ensures UnaryAll([]) + rest == rest
  {
  }

  lemma GroupsSome(inUse: seq<bool>, n: nat)
    requires Groups(inUse, n)
    ensures n >= 2 && |inUse| == 256
  {
  }

  lemma KeptPicks(all: seq<nat>, n: nat)
    requires Picks(all, n)
    ensures Picks(Kept(all), n)
  {
  }

  lemma PicksMore(all: seq<nat>, d: nat, n: nat)
    requires Picks(all, n) && d < n
    ensures Picks(all + [d], n)
  {
  }

  lemma CountsBack(level: nat, head: Head, inUse: seq<bool>, bits: seq<bool>)
    returns (n: nat, s: seq<nat>, rest: seq<bool>)
    requires |inUse| == 256 && Unseq(inUse) != [] && Ok(Machine(level, NGroups(head, inUse)))
    requires Comes(Parse(Machine(level, NGroups(head, inUse)), bits))
    ensures 2 <= n <= 6 && Groups(inUse, n) && 1 <= |s| <= 32767 && Picks(s, n) && Picks(Kept(s), n)
    ensures bits == Bits(n, 3) + (Bits(|s|, 15) + (UnaryAll(s) + rest))
    ensures Ok(Machine(level, Coding1(head, inUse, n, Unselect(Identity(n), Kept(s)), [])))
    ensures Parse(Machine(level, NGroups(head, inUse)), bits)
            == Parse(Machine(level, Coding1(head, inUse, n, Unselect(Identity(n), Kept(s)), [])), rest)
  {
    hide *;
    CountTaken(level, head, inUse, 0);
    var more, v, more2;
    n, more := Invert(Machine(level, NGroups(head, inUse)), bits);
    CountTaken(level, head, inUse, n);
    SelectorsTaken(level, head, inUse, n, 0);
    ContinueTo(Machine(level, NSelectors(head, inUse, n)), more);
    v, more2 := Invert(Machine(level, NSelectors(head, inUse, n)), more);
    SelectorsTaken(level, head, inUse, n, v);
    FifteenBits(v);
    NonePicked(n);
    ContinueTo(Machine(level, SelectorBit(head, inUse, n, v, [], 0, 0)), more2);
    s, rest := SelectorsBack(level, head, inUse, n, v, [], more2);
    assert s[0..] == s;
    SelectorsDone(level, head, inUse, n, s);
    ContinueTo(Machine(level, Coding1(head, inUse, n, Unselect(Identity(n), Kept(s)), [])), rest);
  }

  lemma FifteenBits(v: nat)
    requires v < Pow2(15)
    ensures v <= 32767
  {
    assert Pow2(3) == 8 && Pow2(7) == 128;
    Pow2Add(7, 8);
    assert Pow2(8) == 256;
  }

  lemma NonePicked(n: nat)
    ensures Picks([], n) && Kept([]) == []
  {
  }

  // ---------------------------------------------------------------- code lengths

  lemma LengthTaken(level: nat, head: Head, inUse: seq<bool>, n: nat, selector: seq<nat>, lens: seq<seq<nat>>,
                    cur: seq<nat>, curr: int)
    requires Reading(inUse, n, selector, lens, cur) && |inUse| == 256
    ensures LONGEST == 20
    ensures |cur| < AlphaSize(inUse) && !(1 <= curr <= 20) ==>
              AfterLength(level, head, inUse, n, selector, lens, cur, curr).Fail?
    ensures AfterLength(level, head, inUse, n, selector, lens, cur, curr).To? ==>
              Ok(AfterLength(level, head, inUse, n, selector, lens, cur, curr).m)
  {
    hide Used, GoodTables, NextSymbol, Ok;
  }

  lemma StepsMore(c: int, x: bool, steps: seq<bool>)
    requires 1 <= c <= 20 && StepsOk(Stepped(c, x), steps)
    ensures StepsOk(c, [x] + steps) && Walked(c, [x] + steps) == Walked(Stepped(c, x), steps)
  {
    assert ([x] + steps)[1..] == steps;
  }

  lemma StepsNone(c: int)
    requires 1 <= c <= 20
    ensures StepsOk(c, []) && Walked(c, []) == c
  {
  }

  /** One code length. */
  lemma StepsBack(level: nat, head: Head, inUse: seq<bool>, n: nat, selector: seq<nat>, lens: seq<seq<nat>>,
                  cur: seq<nat>, curr: int, bits: seq<bool>) returns (steps: seq<bool>, rest: seq<bool>)
    requires Reading(inUse, n, selector, lens, cur) && |inUse| == 256 && |cur| < AlphaSize(inUse)
    requires AfterLength(level, head, inUse, n, selector, lens, cur, curr).To? ==>
               Ok(AfterLength(level, head, inUse, n, selector, lens, cur, curr).m)
    requires Comes(Continue(AfterLength(level, head, inUse, n, selector, lens, cur, curr), bits))
    ensures StepsOk(curr, steps) && Walked(curr, steps) >= 1
    ensures Reading(inUse, n, selector, lens, cur + [Walked(curr, steps)])
    ensures bits == StepsBits(steps) + ([false] + rest) && |rest| < |bits|
    ensures Continue(AfterLength(level, head, inUse, n, selector, lens, cur, curr), bits)
         == Continue(AfterLength(level, head, inUse, n, selector, lens, cur + [Walked(curr, steps)],
                                 Walked(curr, steps)), rest)
    decreases |bits|
  {
    hide *;
    ReadingFacts(inUse, n, selector, lens, cur);
    LengthTaken(level, head, inUse, n, selector, lens, cur, curr);
    ContinueIs(AfterLength(level, head, inUse, n, selector, lens, cur, curr), bits);
    ComesIs(Continue(AfterLength(level, head, inUse, n, selector, lens, cur, curr), bits));
    CodingSteps(level, head, inUse, n, selector, lens, cur, curr);
    var m2, m3 := Machine(level, Coding2(head, inUse, n, selector, lens, cur, curr)),
                  Machine(level, Coding3(head, inUse, n, selector, lens, cur, curr));
    var x, more := InvertBit(m2, bits);
    if x {
      ContinueTo(m3, more);
      var y, more2 := InvertBit(m3, more);
      SteppedIs(curr, y);
      LengthTaken(level, head, inUse, n, selector, lens, cur, Stepped(curr, y));
      steps, rest := StepsBack(level, head, inUse, n, selector, lens, cur, Stepped(curr, y), more2);
      StepsMore(curr, y, steps);
      assert ([y] + steps)[1..] == steps;
      steps := [y] + steps;
    } else {
      steps, rest := [], more;
      StepsNone(curr);
    }
    StepsPrinted(steps, [false] + rest);
  }

  lemma TurnsMore(c: int, steps: seq<bool>, turns: seq<seq<bool>>)
    requires StepsOk(c, steps) && TurnsOk(Walked(c, steps), turns)
    ensures TurnsOk(c, [steps] + turns)
  {
    assert ([steps] + turns)[1..] == turns;
    hide StepsOk, Walked;
  }

  lemma TurnsNone(c: int)
    ensures TurnsOk(c, [])
  {
  }

  /** The lengths of one table from symbol `|cur|` on. */
  lemma TurnsBack(level: nat, head: Head, inUse: seq<bool>, n: nat, selector: seq<nat>, lens: seq<seq<nat>>,
                  cur: seq<nat>, curr: int, bits: seq<bool>)
    returns (turns: seq<seq<bool>>, last: int, rest: seq<bool>)
    requires Reading(inUse, n, selector, lens, cur) && |inUse| == 256 && |cur| <= AlphaSize(inUse)
    requires AfterLength(level, head, inUse, n, selector, lens, cur, curr).To? ==>
               Ok(AfterLength(level, head, inUse, n, selector, lens, cur, curr).m)
    requires Comes(Continue(AfterLength(level, head, inUse, n, selector, lens, cur, curr), bits))
    ensures TurnsOk(curr, turns) && |cur| + |turns| == AlphaSize(inUse) && bits == TurnsBits(turns) + rest
    ensures Reading(inUse, n, selector, lens, cur + LengthsFrom(curr, turns)) && |rest| <= |bits|
    ensures Continue(AfterLength(level, head, inUse, n, selector, lens, cur, curr), bits)
         == Continue(AfterLength(level, head, inUse, n, selector, lens, cur + LengthsFrom(curr, turns), last), rest)
    decreases AlphaSize(inUse) - |cur|
  {
    hide *;
    if |cur| == AlphaSize(inUse) {
      turns, last, rest := [], curr, bits;
      TurnsNone(curr);
    } else {
      var steps, more := StepsBack(level, head, inUse, n, selector, lens, cur, curr, bits);
      var l := Walked(curr, steps);
      LengthTaken(level, head, inUse, n, selector, lens, cur + [l], l);
      ReadingFacts(inUse, n, selector, lens, cur + [l]);
      turns, last, rest := TurnsBack(level, head, inUse, n, selector, lens, cur + [l], l, more);
      TurnsMore(curr, steps, turns);
      assert ([steps] + turns)[1..] == turns;
      turns := [steps] + turns;
    }
    TurnsStep(curr, turns, cur, rest);
  }

  lemma StartTaken(level: nat, head: Head, inUse: seq<bool>, n: nat, selector: seq<nat>, lens: seq<seq<nat>>, v: nat)
    requires Reading(inUse, n, selector, lens, [])
    ensures var m := Machine(level, Coding1(head, inUse, n, selector, lens));
            Ok(m) && Need(m) == 5 && Step(m, v) == AfterLength(level, head, inUse, n, selector, lens, [], v)
  {
    hide Used, GoodTables, AfterLength;
  }

  /** One table. */
  lemma WalkBack(level: nat, head: Head, inUse: seq<bool>, n: nat, selector: seq<nat>, lens: seq<seq<nat>>,
                 bits: seq<bool>) returns (w: Walk, rest: seq<bool>)
    requires Reading(inUse, n, selector, lens, []) && |inUse| == 256
    requires Ok(Machine(level, Coding1(head, inUse, n, selector, lens)))
    requires Comes(Parse(Machine(level, Coding1(head, inUse, n, selector, lens)), bits))
    ensures TurnsOk(w.start, w.turns) && |w.turns| == AlphaSize(inUse) && bits == WalkBits(w) + rest
    ensures var len := LengthsFrom(w.start, w.turns);
            && Groups(inUse, n) && Picks(selector, n) && |lens + [len]| <= n && GoodTables(inUse, [], lens + [len])
            && Parse(Machine(level, Coding1(head, inUse, n, selector, lens)), bits)
               == Continue(TableDone(level, head, inUse, n, selector, lens + [len]), rest)
  {
    AlphaIs(inUse);
    hide *;
    StartTaken(level, head, inUse, n, selector, lens, 0);
    var v, more := Invert(Machine(level, Coding1(head, inUse, n, selector, lens)), bits);
    StartTaken(level, head, inUse, n, selector, lens, v);
    LengthTaken(level, head, inUse, n, selector, lens, [], v);
    var turns, last;
    turns, last, rest := TurnsBack(level, head, inUse, n, selector, lens, [], v, more);
    w := Walk(v, turns);
    WalkStep(w, rest);
    ParseWalk(level, head, inUse, n, selector, lens, w, rest);
  }

  /** All tables that follow those of the walks `ws`. */
  lemma WalksBack(level: nat, head: Head, inUse: seq<bool>, n: nat, selector: seq<nat>, ws: seq<Walk>, bits: seq<bool>)
    returns (all: seq<Walk>, rest: seq<bool>)
    requires Groups(inUse, n) && Picks(selector, n) && |ws| < n && WalksOk(inUse, ws)
    requires forall t :: 0 <= t < |ws| ==> TurnsOk(ws[t].start, ws[t].turns)
    requires GoodTables(inUse, [], LengthsOf(ws))
    requires Ok(Machine(level, Coding1(head, inUse, n, selector, LengthsOf(ws))))
    requires Comes(Parse(Machine(level, Coding1(head, inUse, n, selector, LengthsOf(ws))), bits))
    ensures |all| == n && ws <= all && WalksOk(inUse, all) && bits == WalksBits(all[|ws|..]) + rest
    ensures forall t :: 0 <= t < |all| ==> TurnsOk(all[t].start, all[t].turns)
    ensures GoodTables(inUse, [], LengthsOf(all))
    ensures Parse(Machine(level, Coding1(head, inUse, n, selector, LengthsOf(ws))), bits)
            == Continue(TableDone(level, head, inUse, n, selector, LengthsOf(all)), rest)
    decreases n - |ws|
  {
    hide *;
    var lens := LengthsOf(ws);
    ReadingStart(inUse, n, selector, lens);
    ReadingFacts(inUse, n, selector, lens, []);
    var w, more := WalkBack(level, head, inUse, n, selector, lens, bits);
    var next := ws + [w];
    WalksMore(inUse, ws, w);
    if |next| < n {
      TableDoneIs(level, head, inUse, n, selector, LengthsOf(next), more);
      CodingOk(level, head, inUse, n, selector, LengthsOf(next));
      all, rest := WalksBack(level, head, inUse, n, selector, next, more);
    } else {
      all, rest := next, more;
    }
    assert all[|ws|] == w;
    WalksStep(inUse, all, |ws|, rest);
  }

  lemma CodingOk(level: nat, head: Head, inUse: seq<bool>, n: nat, selector: seq<nat>, lens: seq<seq<nat>>)
    requires Groups(inUse, n) && Picks(selector, n) && |lens| < n && GoodTables(inUse, [], lens)
    ensures Ok(Machine(level, Coding1(head, inUse, n, selector, lens)))
  {
    hide Used, GoodTables;
  }

  lemma WalksMore(inUse: seq<bool>, ws: seq<Walk>, w: Walk)
    requires WalksOk(inUse, ws) && |inUse| == 256 && TurnsOk(w.start, w.turns) && |w.turns| == AlphaSize(inUse)
    requires forall t :: 0 <= t < |ws| ==> TurnsOk(ws[t].start, ws[t].turns)
    ensures WalksOk(inUse, ws + [w]) && forall t :: 0 <= t < |ws + [w]| ==>
              TurnsOk((ws + [w])[t].start, (ws + [w])[t].turns)
    ensures LengthsOf(ws + [w]) == LengthsOf(ws) + [LengthsFrom(w.start, w.turns)]
  {
    hide Used, TurnsOk, LengthsFrom;
  }

  // ---------------------------------------------------------------- one symbol

  /** No code begins the bits `c`, other than one of just so many bits. */
  ghost predicate NoneBegins(len: seq<nat>, c: seq<bool>)
  {
    forall j :: 0 <= j < |len| && len[j] < |c| ==> !Begins(len, j, c)
  }

  lemma ShortestFirst(len: seq<nat>, c: seq<bool>)
    requires len != [] && |c| == MinOf(len)
    ensures NoneBegins(len, c)
  {
    hide Begins;
  }

  /** When the search asks for one more bit, the bits so far are no code. */
  lemma NoneBeginsMore(len: seq<nat>, c: seq<bool>, x: bool)
    requires Lengths(len) && |c| <= LONGEST && NoneBegins(len, c)
    requires |TableOf(len).limit| >= MAX_CODE_LEN && |TableOf(len).base| >= MAX_CODE_LEN
    requires Look(TableOf(len), |c|, Value(c)) == LongerBy1
    ensures NoneBegins(len, c + [x])
  {
    hide *;
    LengthsSize(len);
    forall j | 0 <= j < |len| && len[j] < |c + [x]| ensures !Begins(len, j, c + [x]) {
      assert (c + [x])[..len[j]] == c[..len[j]];
      BeginsIs(len, j, c + [x]);
      BeginsIs(len, j, c);
      if len[j] == |c| {
        assert c[..len[j]] == c;
        LookFinds(TableOf(len), len, MaxOf(len), j);
      } else {
        NoneBeginsAt(len, c, j);
      }
    }
    IsNoneBegins(len, c + [x]);
  }

  lemma LengthsSize(len: seq<nat>)
    requires Lengths(len)
    ensures 0 < |len| <= MAX_ALPHA
  {
  }

  lemma NoneBeginsAt(len: seq<nat>, c: seq<bool>, j: nat)
    requires NoneBegins(len, c) && j < |len| && len[j] < |c|
    ensures !Begins(len, j, c)
  {
  }

  lemma IsNoneBegins(len: seq<nat>, c: seq<bool>)
    requires forall j :: 0 <= j < |len| && len[j] < |c| ==> !Begins(len, j, c)
    ensures NoneBegins(len, c)
  {
  }

  /** The bits of a code that was found. */
  lemma FoundCode(len: seq<nat>, c: seq<bool>, sym: nat)
    requires sym < |len| && len[sym] == |c| && Code(len, sym) == Value(c) && NoneBegins(len, c)
    ensures CodeBits(len, sym) == c && Readable(len, sym)
  {
    BitsValue(c);
    hide Begins, Code, Value, Bits;
  }

  lemma JudgeTaken(level: nat, body: Body, g: nat, gp: nat, u: Unmtf, zn: nat, zvec: nat)
    requires InBlock(body, g, gp, u)
    requires Searching(TableOf(Lens(body, g)), Lens(body, g), zn, zvec)
    ensures |TableOf(Lens(body, g)).limit| >= MAX_CODE_LEN && |TableOf(Lens(body, g)).base| >= MAX_CODE_LEN
    ensures var e, v := Judge(level, body, g, gp, u, zn, zvec), Look(TableOf(Lens(body, g)), zn, zvec);
            && (zn > LONGEST ==> e.Fail?)
            && (zn <= LONGEST && v == LongerBy1 ==>
                  e == To(Machine(level, SymbolBit(body, g, gp, u, zn + 1, zvec))) && TooShort(Lens(body, g), zn, zvec))
            && (zn <= LONGEST && v.Symbol? ==>
                  v.sym < |Lens(body, g)| && Lens(body, g)[v.sym] == zn && Code(Lens(body, g), v.sym) == zvec
                  && v.sym < AlphaSize(body.inUse) && |body.inUse| == 256
                  && e == Receive(level, body, g, gp, u, v.sym))
            && (zn <= LONGEST ==> v != Corrupt)
  {
    var len := Lens(body, g);
    BlockFacts(body, g, gp, u);
    if zn <= LONGEST {
      LookFor(len, zn, zvec);
      LengthsMin(len);
      LookGives(TableOf(len), len, MaxOf(len), zn, zvec);
    }
    hide Value, TableOf, Receive, Lens, InBlock, Look, Used, Code, Searching, Lengths;
  }

  lemma LengthsMin(len: seq<nat>)
    requires Lengths(len)
    ensures TableOf(len).minLen >= 1
  {
  }

  /** One symbol, when the bits `c` of it were read. */
  lemma CodeBack(level: nat, body: Body, g: nat, gp: nat, u: Unmtf, c: seq<bool>, bits: seq<bool>)
    returns (sym: nat, rest: seq<bool>)
    requires InBlock(body, g, gp, u) && Searching(TableOf(Lens(body, g)), Lens(body, g), |c|, Value(c))
    requires NoneBegins(Lens(body, g), c)
    requires Judge(level, body, g, gp, u, |c|, Value(c)).To? ==> Ok(Judge(level, body, g, gp, u, |c|, Value(c)).m)
    requires Comes(Continue(Judge(level, body, g, gp, u, |c|, Value(c)), bits))
    ensures |body.inUse| == 256 && sym < AlphaSize(body.inUse) && Readable(Lens(body, g), sym)
    ensures c + bits == CodeBits(Lens(body, g), sym) + rest && |rest| <= |bits|
    ensures Receive(level, body, g, gp, u, sym).To? ==> Ok(Receive(level, body, g, gp, u, sym).m)
    ensures Continue(Judge(level, body, g, gp, u, |c|, Value(c)), bits)
            == Continue(Receive(level, body, g, gp, u, sym), rest)
    decreases |bits|
  {
    hide *;
    BlockFacts(body, g, gp, u);
    var len, v := Lens(body, g), Value(c);
    JudgeTaken(level, body, g, gp, u, |c|, v);
    ContinueIs(Judge(level, body, g, gp, u, |c|, v), bits);
    ComesIs(Continue(Judge(level, body, g, gp, u, |c|, v), bits));
    LookKinds(TableOf(len), |c|, v);
    if Look(TableOf(len), |c|, v).Symbol? {
      sym, rest := Look(TableOf(len), |c|, v).sym, bits;
      FoundCode(len, c, sym);
    } else {
      var m := Machine(level, SymbolBit(body, g, gp, u, |c| + 1, v));
      SymbolBitStep(level, body, g, gp, u, |c|, v, 0);
      ContinueTo(m, bits);
      var x, more := InvertBit(m, bits);
      SymbolBitStep(level, body, g, gp, u, |c|, v, if x then 1 else 0);
      ValueAppend(c, x);
      NoneBeginsMore(len, c, x);
      sym, rest := CodeBack(level, body, g, gp, u, c + [x], more);
      assert c + [x] + more == c + bits;
    }
  }

  lemma SymbolTaken(level: nat, body: Body, g: nat, gp: nat, u: Unmtf)
    requires InBlock(body, g, gp, u)
    ensures Lens(body, g) != [] && Ok(Machine(level, SymbolCode(body, g, gp, u)))
  {
    SymbolCodeStep(level, body, g, gp, u, 0);
  }

  lemma BitsBack(v: nat, n: nat)
    requires v < Pow2(n)
    ensures |Bits(v, n)| == n && Value(Bits(v, n)) == v
  {
    ValueBits(v, n);
  }

  /** One symbol. */
  lemma SymbolBack(level: nat, body: Body, g: nat, gp: nat, u: Unmtf, bits: seq<bool>)
    returns (sym: nat, rest: seq<bool>)
    requires InBlock(body, g, gp, u) && Ok(Machine(level, SymbolCode(body, g, gp, u)))
    requires Comes(Parse(Machine(level, SymbolCode(body, g, gp, u)), bits))
    ensures |body.inUse| == 256 && sym < AlphaSize(body.inUse) && Readable(Lens(body, g), sym)
    ensures bits == CodeBits(Lens(body, g), sym) + rest && |rest| < |bits|
    ensures Receive(level, body, g, gp, u, sym).To? ==> Ok(Receive(level, body, g, gp, u, sym).m)
    ensures Parse(Machine(level, SymbolCode(body, g, gp, u)), bits)
              == Continue(Receive(level, body, g, gp, u, sym), rest)
  {
    hide *;
    SymbolTaken(level, body, g, gp, u);
    SymbolCodeStep(level, body, g, gp, u, 0);
    var len := Lens(body, g);
    var v, more := Invert(Machine(level, SymbolCode(body, g, gp, u)), bits);
    SymbolCodeStep(level, body, g, gp, u, v);
    BitsBack(v, MinOf(len));
    ShortestFirst(len, Bits(v, MinOf(len)));
    sym, rest := CodeBack(level, body, g, gp, u, Bits(v, MinOf(len)), more);
  }

  // ---------------------------------------------------------------- all symbols

  /** The symbols `s`, of which the first is number `k`, have codes that lead to them. */
  ghost predicate SymbolsOk(body: Body, k: nat, s: seq<nat>)
  {
    && GoodBody(body) && k + |s| <= G_SIZE * |body.selector|
    && forall i :: 0 <= i < |s| ==> s[i] < AlphaSize(body.inUse) && Readable(TableFor(body, k + i), s[i])
  }

  ghost function CodesFrom(body: Body, k: nat, s: seq<nat>): (b: seq<bool>)
    requires SymbolsOk(body, k, s)
    decreases |s|
  {
    if s == [] then [] else
      SymbolsOkRest(body, k, s);
      CodeBits(TableFor(body, k), s[0]) + CodesFrom(body, k + 1, s[1..])
  }

  lemma SymbolsOkRest(body: Body, k: nat, s: seq<nat>)
    requires SymbolsOk(body, k, s) && s != []
    ensures SymbolsOk(body, k + 1, s[1..]) && k < G_SIZE * |body.selector| && s[0] < |TableFor(body, k)|
  {
    hide GoodBody, Readable, AlphaSize;
    forall i | 0 <= i < |s[1..]| ensures Readable(TableFor(body, k + 1 + i), s[1..][i]) {
      assert s[1..][i] == s[i + 1];
    }
  }

  lemma SymbolsOkMore(body: Body, k: nat, sym: nat, s: seq<nat>)
    requires SymbolsOk(body, k + 1, s) && k < G_SIZE * |body.selector| && |body.inUse| == 256 && GoodBody(body)
    requires sym < AlphaSize(body.inUse) && Readable(TableFor(body, k), sym)
    ensures SymbolsOk(body, k, [sym] + s)
    ensures CodesFrom(body, k, [sym] + s) == CodeBits(TableFor(body, k), sym) + CodesFrom(body, k + 1, s)
  {
    assert ([sym] + s)[1..] == s;
    hide GoodBody, Readable, AlphaSize, CodeBits;
    forall i | 0 <= i < |[sym] + s| ensures Readable(TableFor(body, k + i), ([sym] + s)[i]) {
      if i > 0 {
        assert ([sym] + s)[i] == s[i - 1] && k + i == k + 1 + (i - 1);
      }
    }
  }

  lemma SymbolsOkNone(body: Body, k: nat)
    requires GoodBody(body) && k <= G_SIZE * |body.selector|
    ensures SymbolsOk(body, k, []) && CodesFrom(body, k, []) == []
  {
    hide GoodBody;
  }

  /** What follows a symbol: the next one, or the end of the block. */
  lemma ReceiveTaken(level: nat, body: Body, k: nat, u: Unmtf, sym: nat)
    requires GoodBody(body) && k < G_SIZE * |body.selector| && GroupOf(k) < |body.selector|
    requires InBlock(body, GroupOf(k), PlaceOf(k), u) && |body.inUse| == 256 && sym < AlphaSize(body.inUse)
    ensures sym <= |u.list| + 1 && Lens(body, GroupOf(k)) == TableFor(body, k)
    ensures Listing(u, Unseq(body.inUse)) && |u.list| == |Unseq(body.inUse)|
    ensures var t := Take(u, sym, |u.list| + 1, Unseq(body.inUse), 100000 * level);
            var e := Receive(level, body, GroupOf(k), PlaceOf(k), u, sym);
            && (t.Bad? ==> e.Fail?)
            && (t.Finished? ==> e.Fail? || (e == Block(Machine(level, BlockMagic(0)), body.head, t.out)
                                            && body.head.origPtr < |t.out|))
            && (t.Going? ==> e.Fail? ||
                             (k + 1 < G_SIZE * |body.selector| && GroupOf(k + 1) < |body.selector|
                              && InBlock(body, GroupOf(k + 1), PlaceOf(k + 1), t.m) && |t.m.list| == |u.list|
                              && e == To(Machine(level, SymbolCode(body, GroupOf(k + 1), PlaceOf(k + 1), t.m)))
                              && Ok(e.m)))
  {
    hide Used, Lengths, Take;
    assert PlaceOf(k) == 49 - k % 50;
  }

  /** The symbols from number `k` on. */
  lemma SymbolsBack(level: nat, body: Body, k: nat, u: Unmtf, column: seq<byte>, bits: seq<bool>, m': Machine,
                    rest: seq<bool>) returns (s: seq<nat>)
    requires GoodBody(body) && k < G_SIZE * |body.selector| && GroupOf(k) < |body.selector|
    requires InBlock(body, GroupOf(k), PlaceOf(k), u) && |body.inUse| == 256
    requires Listing(u, Unseq(body.inUse)) && |u.list| == |Unseq(body.inUse)|
    requires Ok(Machine(level, SymbolCode(body, GroupOf(k), PlaceOf(k), u)))
    requires Parse(Machine(level, SymbolCode(body, GroupOf(k), PlaceOf(k), u)), bits)
              == GotBlock(m', body.head, column, rest)
    ensures SymbolsOk(body, k, s) && bits == CodesFrom(body, k, s) + rest && s != []
    ensures m' == Machine(level, BlockMagic(0)) && body.head.origPtr < |column|
    ensures (forall i :: 0 <= i < |s| ==> s[i] <= |u.list| + 1) && forall i :: 0 <= i < |s| - 1 ==> s[i] != |u.list| + 1
    ensures Decode(u, s, |u.list| + 1, Unseq(body.inUse), 100000 * level) == Finished(column)
    decreases |bits|
  {
    hide *;
    ComesIs(Parse(Machine(level, SymbolCode(body, GroupOf(k), PlaceOf(k), u)), bits));
    var sym, more := SymbolBack(level, body, GroupOf(k), PlaceOf(k), u, bits);
    ReceiveTaken(level, body, k, u, sym);
    var e := Receive(level, body, GroupOf(k), PlaceOf(k), u, sym);
    ContinueIs(e, more);
    var eob, unseq, max := |u.list| + 1, Unseq(body.inUse), 100000 * level;
    var t := Take(u, sym, eob, unseq, max);
    TakeKinds(u, sym, eob, unseq, max);
    if t.Going? {
      s := SymbolsBack(level, body, k + 1, t.m, column, more, m', rest);
    } else {
      s := [];
      SymbolsOkNone(body, k + 1);
    }
    SymbolsOkMore(body, k, sym, s);
    assert ([sym] + s)[1..] == s;
    DecodeStep(u, [sym] + s, eob, unseq, max);
    s := [sym] + s;
  }

  lemma TakeKinds(u: Unmtf, sym: nat, eob: nat, unseq: seq<byte>, max: nat)
    requires Listing(u, unseq) && sym <= eob && eob == |u.list| + 1
    ensures var t := Take(u, sym, eob, unseq, max);
            (t.Finished? ==> sym == eob) && (t.Going? ==> sym != eob)
  {
  }
}
