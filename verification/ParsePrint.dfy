/**
 Parsing what was printed: the bits of a block give back its map, selectors, code lengths and
 symbols, and exactly those bits are consumed.
 */
module ParsePrint {

  import opened Rotation
  import opened Words
  import opened BitStrings
  import opened Codes
  import opened HuffmanTree
  import opened Mtf
  import opened ByteMap
  import opened Parser
  import opened BlockFormat

  /** What a run does after an event. */
  ghost function Continue(e: Event, rest: seq<bool>): (s: Stop)
    requires e.To? ==> Ok(e.m)
  {
    if e.To? then Parse(e.m, rest) else After(e, rest)
  }

  lemma ContinueTo(m: Machine, rest: seq<bool>)
    ensures Ok(m) ==> Continue(To(m), rest) == Parse(m, rest)
  {
    hide Ok, Parse;
  }

  lemma ParseNumber(m: Machine, v: nat, n: nat, rest: seq<bool>)
    requires Ok(m) && n == Need(m) && v < Pow2(n)
    ensures Parse(m, Bits(v, n) + rest) == Continue(Step(m, v), rest)
  {
    hide Ok, Need, Step, Parse;
    ParseStep(m, v, n, rest);
  }

  lemma ParseBit(m: Machine, x: bool, rest: seq<bool>)
    requires Ok(m) && Need(m) == 1
    ensures Parse(m, [x] + rest) == Continue(Step(m, if x then 1 else 0), rest)
  {
    assert Bits(if x then 1 else 0, 1) == Bits(0, 0) + [x] == [x];
    assert Pow2(1) == 2 * Pow2(0);
    hide Ok, Need, Step, Parse;
    ParseNumber(m, if x then 1 else 0, 1, rest);
  }

  /** A number that leads from one stage to another. */
  lemma ParseTo(m: Machine, v: nat, n: nat, m': Machine, rest: seq<bool>)
    requires Ok(m) && n == Need(m) && v < Pow2(n) && Step(m, v) == To(m') && Ok(m')
    ensures Parse(m, Bits(v, n) + rest) == Parse(m', rest)
  {
    hide Ok, Need, Step, Parse;
    ParseStep(m, v, n, rest);
  }

  // ---------------------------------------------------------------- headers

  lemma ByteFits(v: nat)
    requires v < 256
    ensures v < Pow2(8)
  {
    assert Pow2(4) == 16;
  }

  lemma BytesStep(s: seq<nat>, rest: seq<bool>)
    ensures s == [] ==> BytesBits(s) + rest == rest
    ensures s != [] ==> BytesBits(s) + rest == Bits(s[0], 8) + (BytesBits(s[1..]) + rest)
  {
    hide Bits;
  }

  /** Parsing bytes of which each leads on. */
  lemma ParseByte(m: Machine, s: seq<nat>, m': Machine, rest: seq<bool>)
    requires Ok(m) && Need(m) == 8 && s != [] && s[0] < 256 && Step(m, s[0]) == To(m') && Ok(m')
    ensures Parse(m, BytesBits(s) + rest) == Parse(m', BytesBits(s[1..]) + rest)
  {
    ByteFits(s[0]);
    BytesStep(s, rest);
    hide *;
    ParseTo(m, s[0], 8, m', BytesBits(s[1..]) + rest);
  }

  lemma MagicStep(level: nat, k: nat)
    requires k < 6
    ensures var m, m' := Machine(level, BlockMagic(k)),
              Machine(level, if k < 5 then BlockMagic(k + 1) else BlockCrc(0, 0));
            Ok(m) && Need(m) == 8 && |BLOCK_MAGIC| == 6 && BLOCK_MAGIC[k] < 256 && Step(m, BLOCK_MAGIC[k]) == To(m')
            && Ok(m')
  {
  }

  lemma {:induction false} ParseBlockMagic(level: nat, k: nat, rest: seq<bool>)
    requires k < 6
    ensures |BLOCK_MAGIC| == 6
    ensures Parse(Machine(level, BlockMagic(k)), BytesBits(BLOCK_MAGIC[k..]) + rest)
         == Parse(Machine(level, BlockCrc(0, 0)), rest)
    decreases 6 - k
  {
    MagicStep(level, k);
    hide *;
    var s := BLOCK_MAGIC[k..];
    ParseByte(Machine(level, BlockMagic(k)), s, Machine(level, if k < 5 then BlockMagic(k + 1) else BlockCrc(0, 0)),
              rest);
    assert s[1..] == BLOCK_MAGIC[k + 1..];
    if k < 5 {
      ParseBlockMagic(level, k + 1, rest);
    } else {
      BytesStep(s[1..], rest);
    }
  }

  lemma CrcStep(level: nat, k: nat, crc: nat, v: nat)
    requires k < 4
    ensures var m := Machine(level, BlockCrc(k, crc));
            var m' := Machine(level, if k < 3 then BlockCrc(k + 1, 256 * crc + v) else RandBit(256 * crc + v));
            Ok(m) && Need(m) == 8 && Step(m, v) == To(m') && Ok(m')
  {
  }

  /** The number that bytes spell, after `x`. */
  function Spelled(x: nat, s: seq<nat>): (v: nat)
    decreases |s|
  {
    if s == [] then x else Spelled(256 * x + s[0], s[1..])
  }

  lemma {:induction false} ParseBlockCrc(level: nat, k: nat, crc: nat, s: seq<nat>, rest: seq<bool>)
    requires k < 4 && |s| == 4 - k && forall i :: 0 <= i < |s| ==> s[i] < 256
    ensures Parse(Machine(level, BlockCrc(k, crc)), BytesBits(s) + rest)
              == Parse(Machine(level, RandBit(Spelled(crc, s))), rest)
    decreases |s|
  {
    hide *;
    var x := 256 * crc + s[0];
    SpelledStep(crc, s);
    CrcStep(level, k, crc, s[0]);
    ParseByte(Machine(level, BlockCrc(k, crc)), s, Machine(level, if k < 3 then BlockCrc(k + 1, x) else RandBit(x)),
              rest);
    if k < 3 {
      ParseBlockCrc(level, k + 1, x, s[1..], rest);
    } else {
      BytesStep(s[1..], rest);
    }
  }

  lemma WordIs(u: nat)
    requires u < 0x1_0000_0000
    ensures Spelled(0, WordBytes(u)) == u && forall i :: 0 <= i < 4 ==> WordBytes(u)[i] < 256
  {
    var w := WordBytes(u);
    assert u / 0x100_0000 < 256;
    assert u / 256 / 256 == u / 0x1_0000 && u / 0x1_0000 / 256 == u / 0x100_0000;
    assert w[1..] == [w[1], w[2], w[3]] && w[1..][1..] == [w[2], w[3]] && w[1..][1..][1..] == [w[3]]
        && w[1..][1..][1..][1..] == [];
    assert Spelled(256 * (256 * w[0] + w[1]) + w[2], [w[3]]) == 256 * (256 * (256 * w[0] + w[1]) + w[2]) + w[3];
    assert Spelled(256 * w[0] + w[1], [w[2], w[3]]) == Spelled(256 * (256 * w[0] + w[1]) + w[2], [w[3]]);
  }

  lemma BitsLow(v: nat, w: nat, n: nat)
    requires v % Pow2(n) == w % Pow2(n)
    ensures Bits(v, n) == Bits(w, n)
  {
    ValueLow(v, n);
    ValueLow(w, n);
    BitsValue(Bits(v, n));
    BitsValue(Bits(w, n));
  }

  lemma Shr8(v: nat)
    ensures Shr(v, 8) == v / 256 && Pow2(8) == 256
  {
    assert Pow2(4) == 16;
    assert Shr(v, 2) == v / 2 / 2 == v / 4;
    assert Shr(v, 4) == Shr(v / 2 / 2, 2) == v / 4 / 4 == v / 16;
    assert Shr(v / 16, 2) == v / 16 / 2 / 2 == v / 64;
    assert Shr(v / 16, 4) == Shr(v / 16 / 2 / 2, 2) == v / 64 / 4 == v / 256;
    assert Shr(v, 8) == Shr(v / 2 / 2, 6) == Shr(v / 4 / 2 / 2, 4);
    assert v / 4 / 2 / 2 == v / 16;
  }

  lemma OrigPtrBits(p: nat)
    requires p < 0x100_0000
    ensures Bits(p, 24) == BytesBits([p / 0x1_0000, p / 256 % 256, p % 256])
    ensures Spelled(0, [p / 0x1_0000, p / 256 % 256, p % 256]) == p
  {
    BitsConcat(p, 16, 8);
    BitsConcat(p / 256, 8, 8);
    Shr8(p);
    Shr8(p / 256);
    assert p / 256 / 256 == p / 0x1_0000;
    hide Bits, Shr, Pow2;
    BitsLow(p / 256, p / 256 % 256, 8);
    BitsLow(p, p % 256, 8);
    ThreeBytes(p / 0x1_0000, p / 256 % 256, p % 256);
  }

  lemma ThreeBytes(a: nat, b: nat, c: nat)
    ensures BytesBits([a, b, c]) == Bits(a, 8) + Bits(b, 8) + Bits(c, 8)
    ensures Spelled(0, [a, b, c]) == 256 * (256 * a + b) + c
  {
    hide Bits;
    assert [a, b, c][1..] == [b, c] && [b, c][1..] == [c] && [c][1..] == [];
    assert BytesBits([c]) == Bits(c, 8) + [] == Bits(c, 8);
    assert BytesBits([b, c]) == Bits(b, 8) + Bits(c, 8);
    assert Spelled(256 * a, [b, c]) == Spelled(256 * a, [b, c]);
    assert Spelled(a, [b, c]) == Spelled(256 * a + b, [c]) == 256 * (256 * a + b) + c;
  }

  lemma OrigPtrStep(level: nat, k: nat, head: Head, v: nat)
    requires k < 3 && 256 * head.origPtr + v <= 10 + 100000 * level
    ensures var m, h := Machine(level, OrigPtr(k, head)), head.(origPtr := 256 * head.origPtr + v);
            var m' := Machine(level, if k < 2 then OrigPtr(k + 1, h) else Mapping1(h, []));
            Ok(m) && Need(m) == 8 && Step(m, v) == To(m') && Ok(m')
  {
  }

  lemma {:induction false} ParseOrigPtr(level: nat, k: nat, head: Head, s: seq<nat>, rest: seq<bool>)
    requires k < 3 && |s| == 3 - k && (forall i :: 0 <= i < |s| ==> s[i] < 256)
    requires Spelled(head.origPtr, s) <= 10 + 100000 * level
    ensures Parse(Machine(level, OrigPtr(k, head)), BytesBits(s) + rest)
         == Parse(Machine(level, Mapping1(head.(origPtr := Spelled(head.origPtr, s)), [])), rest)
    decreases |s|
  {
    hide *;
    var h := head.(origPtr := 256 * head.origPtr + s[0]);
    SpelledMore(h.origPtr, s[1..]);
    SpelledStep(head.origPtr, s);
    OrigPtrStep(level, k, head, s[0]);
    ParseByte(Machine(level, OrigPtr(k, head)), s,
              Machine(level, if k < 2 then OrigPtr(k + 1, h) else Mapping1(h, [])), rest);
    if k < 2 {
      ParseOrigPtr(level, k + 1, h, s[1..], rest);
    } else {
      BytesStep(s[1..], rest);
    }
  }

  lemma SpelledStep(x: nat, s: seq<nat>)
    requires s != []
    ensures Spelled(x, s) == Spelled(256 * x + s[0], s[1..])
    ensures |s| == 1 ==> Spelled(x, s) == 256 * x + s[0]
  {
  }

  lemma {:induction false} SpelledMore(x: nat, s: seq<nat>)
    ensures Spelled(x, s) >= x
    decreases |s|
  {
    if s != [] {
      SpelledMore(256 * x + s[0], s[1..]);
    }
  }

  lemma RandStep(level: nat, crc: nat, x: nat)
    requires x < 2
    ensures var m, m' := Machine(level, RandBit(crc)), Machine(level, OrigPtr(0, Head(crc, x == 1, 0)));
            Ok(m) && Need(m) == 1 && Step(m, x) == To(m') && Ok(m') && x < Pow2(1)
  {
    assert Pow2(1) == 2 * Pow2(0);
  }

  lemma HeadFacts(level: nat, head: Head, rest: seq<bool>)
    requires HeadFits(head, level)
    ensures head.crc < 0x1_0000_0000 && head.origPtr <= 10 + 100000 * level && head.origPtr < 0x100_0000 && level <= 9
    ensures |WordBytes(head.crc)| == 4 && |BLOCK_MAGIC| == 6
    ensures HeadBits(head) + rest
            == BytesBits(BLOCK_MAGIC[0..])
               + (BytesBits(WordBytes(head.crc))
                  + (Bits(if head.randomised then 1 else 0, 1) + (Bits(head.origPtr, 24) + rest)))
  {
    hide BytesBits, Bits;
    assert BLOCK_MAGIC[0..] == BLOCK_MAGIC;
  }

  /** The fixed fields of a block. */
  lemma ParseHead(level: nat, head: Head, rest: seq<bool>)
    requires HeadFits(head, level)
    ensures Parse(Machine(level, BlockMagic(0)), HeadBits(head) + rest)
              == Parse(Machine(level, Mapping1(head, [])), rest)
  {
    hide *;
    var x := if head.randomised then 1 else 0;
    var o := [head.origPtr / 0x1_0000, head.origPtr / 256 % 256, head.origPtr % 256];
    HeadFacts(level, head, rest);
    OrigPtrBits(head.origPtr);
    WordIs(head.crc);
    RandStep(level, head.crc, x);
    var r2 := Bits(x, 1) + (BytesBits(o) + rest);
    var r1 := BytesBits(WordBytes(head.crc)) + r2;
    ParseBlockMagic(level, 0, r1);
    ParseBlockCrc(level, 0, 0, WordBytes(head.crc), r2);
    ParseTo(Machine(level, RandBit(head.crc)), x, 1, Machine(level, OrigPtr(0, Head(head.crc, x == 1, 0))),
            BytesBits(o) + rest);
    ParseOrigPtr(level, 0, Head(head.crc, x == 1, 0), o, rest);
  }

  // ---------------------------------------------------------------- the byte map

  lemma {:induction false} GroupFlagsAt(inUse: seq<bool>, n: nat, i: nat)
    requires |inUse| == 256 && i < n <= 16
    ensures GroupFlags(inUse, n)[i] == GroupUsed(inUse, i) && GroupFlags(inUse, n)[..i] == GroupFlags(inUse, i)
  {
    hide GroupUsed;
    if i < n - 1 {
      GroupFlagsAt(inUse, n - 1, i);
      assert GroupFlags(inUse, n)[..i] == GroupFlags(inUse, n - 1)[..i];
    } else {
      assert GroupFlags(inUse, n)[..i] == GroupFlags(inUse, i);
    }
  }

  lemma Mapping1Step(level: nat, head: Head, u: seq<bool>, x: bool)
    requires |u| < 16
    ensures var m := Machine(level, Mapping1(head, u));
            && Ok(m) && Need(m) == 1
            && Step(m, if x then 1 else 0)
               == (if |u| < 15 then To(Machine(level, Mapping1(head, u + [x]))) else AfterMap(level, head, u + [x], []))
            && (|u| < 15 ==> Ok(Machine(level, Mapping1(head, u + [x]))))
  {
    hide AfterMap;
  }

  lemma {:induction false} ParseGroups(level: nat, head: Head, g: seq<bool>, i: nat, rest: seq<bool>)
    requires |g| == 16 && i < 16
    ensures Parse(Machine(level, Mapping1(head, g[..i])), g[i..] + rest)
         == Continue(AfterMap(level, head, g, []), rest)
    decreases 16 - i
  {
    hide *;
    assert g[..i] + [g[i]] == g[..i + 1];
    assert g[i..] + rest == [g[i]] + (g[i + 1..] + rest);
    Mapping1Step(level, head, g[..i], g[i]);
    ParseBit(Machine(level, Mapping1(head, g[..i])), g[i], g[i + 1..] + rest);
    if i < 15 {
      ContinueTo(Machine(level, Mapping1(head, g[..i + 1])), g[i + 1..] + rest);
      ParseGroups(level, head, g, i + 1, rest);
    } else {
      assert g[..16] == g && g[16..] + rest == rest;
    }
  }

  lemma Mapping2Step(level: nat, head: Head, g: seq<bool>, s: seq<bool>, x: bool)
    requires |g| == 16 && |s| < 256
    ensures var m := Machine(level, Mapping2(head, g, s));
            Ok(m) && Need(m) == 1 && Step(m, if x then 1 else 0) == AfterMap(level, head, g, s + [x])
  {
    hide AfterMap;
  }

  /** No byte is in use whose group is not. */
  ghost predicate Covered(used16: seq<bool>, inUse: seq<bool>)
  {
    |used16| == 16 && |inUse| <= 256 && forall i :: 0 <= i < |inUse| && inUse[i] ==> used16[i / 16]
  }

  /** The next flag is the first of its group, or the group has its flags. */
  predicate AtFlag(used16: seq<bool>, i: nat)
    requires |used16| == 16 && i < 256
  {
    i % 16 == 0 || used16[i / 16]
  }

  /** The machine takes a flag of a group in use, and passes over the others. */
  lemma FlagTaken(level: nat, head: Head, g: seq<bool>, s: seq<bool>)
    requires |g| == 16 && |s| < 256 && AtFlag(g, |s|)
    ensures g[|s| / 16] ==>
              AfterMap(level, head, g, s) == To(Machine(level, Mapping2(head, g, s)))
              && Ok(Machine(level, Mapping2(head, g, s)))
    ensures !g[|s| / 16] ==>
              |s| + 16 <= 256 && AfterMap(level, head, g, s) == AfterMap(level, head, g, s + seq(16, _ => false))
  {
    hide Used;
  }

  lemma FlagStep(g: seq<bool>, inUse: seq<bool>, i: nat)
    requires |g| == 16 && |inUse| == 256 && i < 256
    ensures FlagBits(g, inUse, i) == (if g[i / 16] then [inUse[i]] else []) + FlagBits(g, inUse, i + 1)
  {
  }

  lemma NextFlag(g: seq<bool>, i: nat)
    requires |g| == 16 && i < 256 && AtFlag(g, i)
    ensures g[i / 16] && i + 1 < 256 ==> AtFlag(g, i + 1)
    ensures !g[i / 16] ==> i + 16 <= 256 && forall x :: i <= x < i + 16 ==> !g[x / 16]
    ensures !g[i / 16] && i + 16 < 256 ==> AtFlag(g, i + 16)
  {
  }

  /** The bits of a flag, or of a group passed over. */
  lemma FlagPrinted(g: seq<bool>, inUse: seq<bool>, i: nat)
    requires |g| == 16 && |inUse| == 256 && i < 256 && AtFlag(g, i)
    ensures g[i / 16] ==> FlagBits(g, inUse, i) == [inUse[i]] + FlagBits(g, inUse, i + 1)
    ensures g[i / 16] && i + 1 < 256 ==> AtFlag(g, i + 1)
    ensures !g[i / 16] ==> i + 16 <= 256 && FlagBits(g, inUse, i) == FlagBits(g, inUse, i + 16)
    ensures !g[i / 16] && i + 16 < 256 ==> AtFlag(g, i + 16)
  {
    hide *;
    FlagStep(g, inUse, i);
    NextFlag(g, i);
    if !g[i / 16] {
      NoFlags(g, inUse, i, 16);
    }
  }

  lemma {:induction false} NoFlags(g: seq<bool>, inUse: seq<bool>, i: nat, n: nat)
    requires |g| == 16 && |inUse| == 256 && i + n <= 256 && forall x :: i <= x < i + n ==> !g[x / 16]
    ensures FlagBits(g, inUse, i) == FlagBits(g, inUse, i + n)
    decreases n
  {
    hide *;
    if n > 0 {
      FlagStep(g, inUse, i);
      NoFlags(g, inUse, i + 1, n - 1);
    }
  }

  lemma GroupClear(g: seq<bool>, inUse: seq<bool>, i: nat)
    requires Covered(g, inUse) && |inUse| == 256 && i < 256 && i % 16 == 0 && !g[i / 16]
    ensures inUse[..i] + seq(16, _ => false) == inUse[..i + 16]
  {
    forall x | i <= x < i + 16 ensures !inUse[x] {
      assert x / 16 == i / 16;
    }
  }

  /** The byte map from byte `i` on. */
  lemma {:induction false} ParseFlags(level: nat, head: Head, g: seq<bool>, inUse: seq<bool>, i: nat, rest: seq<bool>)
    requires Covered(g, inUse) && |inUse| == 256 && i <= 256 && (i < 256 ==> AtFlag(g, i)) && Unseq(inUse) != []
    ensures Continue(AfterMap(level, head, g, inUse[..i]), FlagBits(g, inUse, i) + rest)
         == Parse(Machine(level, NGroups(head, inUse)), rest)
    decreases 256 - i
  {
    hide *;
    CoveredSize(g, inUse);
    if i == 256 {
      MapDone(level, head, g, inUse, rest);
    } else {
      var s, more := inUse[..i], FlagBits(g, inUse, i + 1) + rest;
      FlagTaken(level, head, g, s);
      FlagPrinted(g, inUse, i);
      if g[i / 16] {
        var m := Machine(level, Mapping2(head, g, s));
        assert s + [inUse[i]] == inUse[..i + 1];
        assert FlagBits(g, inUse, i) + rest == [inUse[i]] + more;
        ContinueTo(m, FlagBits(g, inUse, i) + rest);
        Mapping2Step(level, head, g, s, inUse[i]);
        ParseBit(m, inUse[i], more);
        ParseFlags(level, head, g, inUse, i + 1, rest);
      } else {
        AtFlagIs(g, i);
        GroupClear(g, inUse, i);
        ParseFlags(level, head, g, inUse, i + 16, rest);
      }
    }
  }

  lemma CoveredSize(g: seq<bool>, inUse: seq<bool>)
    requires Covered(g, inUse)
    ensures |g| == 16
  {
  }

  lemma AtFlagIs(g: seq<bool>, i: nat)
    requires |g| == 16 && i < 256
    ensures AtFlag(g, i) <==> i % 16 == 0 || g[i / 16]
  {
  }

  lemma MapDone(level: nat, head: Head, g: seq<bool>, inUse: seq<bool>, rest: seq<bool>)
    requires |g| == 16 && |inUse| == 256 && Unseq(inUse) != []
    ensures Continue(AfterMap(level, head, g, inUse[..256]), FlagBits(g, inUse, 256) + rest)
         == Parse(Machine(level, NGroups(head, inUse)), rest)
  {
    hide Parse, Used;
    assert inUse[..256] == inUse;
    assert FlagBits(g, inUse, 256) + rest == rest;
  }

  /** The byte map with any flags of groups that cover it. */
  lemma ParseFlagged(level: nat, head: Head, g: seq<bool>, inUse: seq<bool>, rest: seq<bool>)
    requires Covered(g, inUse) && |inUse| == 256 && Unseq(inUse) != []
    ensures |g| == 16
    ensures Parse(Machine(level, Mapping1(head, [])), g + (FlagBits(g, inUse, 0) + rest))
         == Parse(Machine(level, NGroups(head, inUse)), rest)
  {
    hide *;
    CoveredSize(g, inUse);
    AtFlagIs(g, 0);
    assert g[..0] == [] && g[0..] == g && inUse[..0] == [];
    ParseGroups(level, head, g, 0, FlagBits(g, inUse, 0) + rest);
    ParseFlags(level, head, g, inUse, 0, rest);
  }

  /** The compressor flags the groups with a byte in use. */
  lemma {:induction false} UsedFlagsAre(inUse: seq<bool>, i: nat)
    requires |inUse| == 256 && i <= 16
    ensures UsedFlags(inUse, i) == FlagBits(GroupFlags(inUse, 16), inUse, 16 * i)
    decreases 16 - i
  {
    hide GroupUsed, GroupFlags, FlagBits;
    var g := GroupFlags(inUse, 16);
    if i < 16 {
      UsedFlagsAre(inUse, i + 1);
      GroupFlagsAt(inUse, 16, i);
      if g[i] {
        AllFlags(g, inUse, 16 * i, 16);
      } else {
        NoFlags(g, inUse, 16 * i, 16);
      }
    } else {
      assert FlagBits(g, inUse, 256) == [] by {
        LastFlag(g, inUse);
      }
    }
  }

  lemma LastFlag(g: seq<bool>, inUse: seq<bool>)
    requires |g| == 16 && |inUse| == 256
    ensures FlagBits(g, inUse, 256) == []
  {
  }

  lemma {:induction false} AllFlags(g: seq<bool>, inUse: seq<bool>, i: nat, n: nat)
    requires |g| == 16 && |inUse| == 256 && i + n <= 256 && forall x :: i <= x < i + n ==> g[x / 16]
    ensures FlagBits(g, inUse, i) == inUse[i..i + n] + FlagBits(g, inUse, i + n)
    decreases n
  {
    hide *;
    if n > 0 {
      FlagStep(g, inUse, i);
      AllFlags(g, inUse, i + 1, n - 1);
      assert inUse[i..i + n] == [inUse[i]] + inUse[i + 1..i + n];
    } else {
      assert inUse[i..i] == [];
    }
  }

  lemma GroupsCover(inUse: seq<bool>)
    requires |inUse| == 256
    ensures Covered(GroupFlags(inUse, 16), inUse)
  {
    hide GroupFlags;
    forall x | 0 <= x < 256 && inUse[x] ensures GroupFlags(inUse, 16)[x / 16] {
      GroupFlagsAt(inUse, 16, x / 16);
      assert inUse[16 * (x / 16)..16 * (x / 16) + 16][x % 16];
    }
  }

  lemma ParseMap(level: nat, head: Head, inUse: seq<bool>, rest: seq<bool>)
    requires |inUse| == 256 && Unseq(inUse) != []
    ensures Ok(Machine(level, Mapping1(head, []))) && Ok(Machine(level, NGroups(head, inUse)))
    ensures Parse(Machine(level, Mapping1(head, [])), MapBits(inUse) + rest)
              == Parse(Machine(level, NGroups(head, inUse)), rest)
  {
    hide *;
    MapOk(level, head, inUse);
    GroupsCover(inUse);
    UsedFlagsAre(inUse, 0);
    MapBitsParts(inUse, rest);
    ParseFlagged(level, head, GroupFlags(inUse, 16), inUse, rest);
  }

  lemma MapOk(level: nat, head: Head, inUse: seq<bool>)
    requires |inUse| == 256 && Unseq(inUse) != []
    ensures Ok(Machine(level, Mapping1(head, []))) && Ok(Machine(level, NGroups(head, inUse)))
  {
    hide Used;
  }

  lemma MapBitsParts(inUse: seq<bool>, rest: seq<bool>)
    requires |inUse| == 256
    ensures MapBits(inUse) + rest == GroupFlags(inUse, 16) + (UsedFlags(inUse, 0) + rest)
  {
    hide UsedFlags, GroupUsed;
  }

  // ---------------------------------------------------------------- selectors

  lemma {:induction false} SelectPicks(list: seq<nat>, selector: seq<nat>)
    requires forall x :: 0 <= x < |selector| ==> selector[x] in list
    ensures Picks(Select(list, selector), |list|)
    ensures Unselect(list, Select(list, selector)) == selector
    decreases |selector|
  {
    if selector != [] {
      var k := IndexOf(list, selector[0]);
      forall x | 0 <= x < |selector| ensures selector[x] in Front(list, k) { FrontKeeps(list, k, selector[x]); }
      SelectPicks(Front(list, k), selector[1..]);
      var s := Select(list, selector);
      assert s[0] == k && s[1..] == Select(Front(list, k), selector[1..]);
      assert selector == [selector[0]] + selector[1..];
    }
  }

  lemma SelectorStep(level: nat, head: Head, inUse: seq<bool>, n: nat, ns: nat, mtf: seq<nat>, i: nat, j: nat)
    requires Groups(inUse, n) && i < ns && j < n && Picks(mtf, n)
    ensures var m := Machine(level, SelectorBit(head, inUse, n, ns, mtf, i, j));
            && Ok(m) && Need(m) == 1 && Picks(Keep(mtf, i, j), n)
            && Step(m, 0) == (if i + 1 < ns
                              then To(Machine(level, SelectorBit(head, inUse, n, ns, Keep(mtf, i, j), i + 1, 0)))
                              else AfterSelectors(level, head, inUse, n, Keep(mtf, i, j)))
            && (j + 1 < n ==> Step(m, 1) == To(Machine(level, SelectorBit(head, inUse, n, ns, mtf, i, j + 1))))
  {
    hide Used, AfterSelectors;
  }

  lemma UnaryStep(mtf: seq<nat>, i: nat, j: nat, d: nat, n: nat, rest: seq<bool>)
    requires Picks(mtf, n) && j + d < n
    ensures Picks(Keep(mtf, i, j + d), n)
    ensures Unary(d) + rest == if d == 0 then [false] + rest else [true] + (Unary(d - 1) + rest)
  {
  }

  /** One selector, kept or not. */
  lemma {:induction false} ParseUnary(level: nat, head: Head, inUse: seq<bool>, n: nat, ns: nat, mtf: seq<nat>, i: nat,
                                      j: nat, d: nat, rest: seq<bool>)
    requires Groups(inUse, n) && i < ns && j + d < n && Picks(mtf, n)
    ensures Picks(Keep(mtf, i, j + d), n)
    ensures Parse(Machine(level, SelectorBit(head, inUse, n, ns, mtf, i, j)), Unary(d) + rest)
         == Continue(if i + 1 < ns then To(Machine(level,
                                                   SelectorBit(head, inUse, n, ns, Keep(mtf, i, j + d), i + 1, 0)))
                     else AfterSelectors(level, head, inUse, n, Keep(mtf, i, j + d)), rest)
    decreases d
  {
    hide *;
    var m := Machine(level, SelectorBit(head, inUse, n, ns, mtf, i, j));
    SelectorStep(level, head, inUse, n, ns, mtf, i, j);
    UnaryStep(mtf, i, j, d, n, rest);
    ContinueTo(Machine(level, SelectorBit(head, inUse, n, ns, mtf, i, j + 1)),
               if d == 0 then rest else Unary(d - 1) + rest);
    if d > 0 {
      SelectorStep(level, head, inUse, n, ns, mtf, i, j + 1);
    }
    ParseBit(m, d > 0, if d == 0 then rest else Unary(d - 1) + rest);
    if d > 0 {
      ParseUnary(level, head, inUse, n, ns, mtf, i, j + 1, d - 1, rest);
    }
  }

  /** What the decoder keeps of its selectors: the first 18002. */
  function Kept(s: seq<nat>): (k: seq<nat>)
  {
    if |s| <= MAX_SELECTORS then s else s[..MAX_SELECTORS]
  }

  lemma KeptMore(s: seq<nat>, i: nat, n: nat)
    requires i < |s| && Picks(s, n)
    ensures s[i] < n && Picks(Kept(s[..i]), n) && Keep(Kept(s[..i]), i, 0 + s[i]) == Kept(s[..i + 1])
    ensures i + 1 == |s| ==> s[..i + 1] == s
  {
    assert s[..i + 1] == s[..i] + [s[i]];
  }

  /** The selectors from number `i` on. */
  lemma {:induction false} ParseSelectors(level: nat, head: Head, inUse: seq<bool>, n: nat, s: seq<nat>, i: nat,
                                          rest: seq<bool>)
    requires Groups(inUse, n) && i < |s| && Picks(s, n)
    ensures Picks(Kept(s), n)
    ensures Parse(Machine(level, SelectorBit(head, inUse, n, |s|, Kept(s[..i]), i, 0)), UnaryAll(s[i..]) + rest)
         == Continue(AfterSelectors(level, head, inUse, n, Kept(s)), rest)
    decreases |s| - i
  {
    hide *;
    KeptMore(s, i, n);
    UnaryAllStep(s[i..], rest);
    assert s[i..][1..] == s[i + 1..] && s[i..][0] == s[i];
    var more := UnaryAll(s[i + 1..]) + rest;
    ParseUnary(level, head, inUse, n, |s|, Kept(s[..i]), i, 0, s[i], more);
    if i + 1 < |s| {
      KeptMore(s, i + 1, n);
      SelectorStep(level, head, inUse, n, |s|, Kept(s[..i + 1]), i + 1, 0);
      ContinueTo(Machine(level, SelectorBit(head, inUse, n, |s|, Kept(s[..i + 1]), i + 1, 0)), more);
      ParseSelectors(level, head, inUse, n, s, i + 1, rest);
    }
  }

  lemma UnaryAllStep(s: seq<nat>, rest: seq<bool>)
    requires s != []
    ensures UnaryAll(s) + rest == Unary(s[0]) + (UnaryAll(s[1..]) + rest)
    ensures |s| == 1 ==> UnaryAll(s[1..]) + rest == rest
  {
    hide *;
    UnaryAllParts(s);
    ConcatThree(Unary(s[0]), UnaryAll(s[1..]), rest);
  }

  lemma UnaryAllParts(s: seq<nat>)
    requires s != []
    ensures UnaryAll(s) == Unary(s[0]) + UnaryAll(s[1..]) && (|s| == 1 ==> UnaryAll(s[1..]) == [])
  {
    hide Unary;
  }

  lemma ConcatThree(a: seq<bool>, b: seq<bool>, c: seq<bool>)
    ensures a + b + c == a + (b + c) && (b == [] ==> b + c == c)
  {
  }

  lemma CountStep(level: nat, head: Head, inUse: seq<bool>, n: nat, ns: nat)
    requires Groups(inUse, n) && 1 <= ns <= MOST_SELECTORS
    ensures var m0, m1, m2 := Machine(level, NGroups(head, inUse)), Machine(level, NSelectors(head, inUse, n)),
                              Machine(level, SelectorBit(head, inUse, n, ns, [], 0, 0));
            && Ok(m0) && Need(m0) == 3 && n < Pow2(3) && Step(m0, n) == To(m1)
            && Ok(m1) && Need(m1) == 15 && ns < Pow2(15) && Step(m1, ns) == To(m2) && Ok(m2)
  {
    assert Pow2(2) == 4 && Pow2(4) == 16 && Pow2(8) == 256 && Pow2(12) == 4096;
    hide Used;
  }

  /** The numbers of the first selectors do not depend on the others. */
  lemma {:induction false} SelectPrefix(list: seq<nat>, selector: seq<nat>, k: nat)
    requires k <= |selector| && forall x :: 0 <= x < |selector| ==> selector[x] in list
    ensures Select(list, selector)[..k] == Select(list, selector[..k])
    decreases |selector|
  {
    if k > 0 {
      var j := IndexOf(list, selector[0]);
      forall x | 0 <= x < |selector| ensures selector[x] in Front(list, j) { FrontKeeps(list, j, selector[x]); }
      SelectPrefix(Front(list, j), selector[1..], k - 1);
      assert selector[..k][1..] == selector[1..][..k - 1];
      var s := Select(list, selector);
      assert s == [j] + Select(Front(list, j), selector[1..]);
      assert s[..k] == [j] + Select(Front(list, j), selector[1..])[..k - 1];
    }
  }

  lemma KeptSelectors(list: seq<nat>, selector: seq<nat>)
    requires forall x :: 0 <= x < |selector| ==> selector[x] in list
    ensures Picks(Select(list, selector), |list|) && Picks(Kept(Select(list, selector)), |list|)
    ensures Unselect(list, Kept(Select(list, selector))) == Kept(selector)
  {
    SelectPicks(list, selector);
    if |selector| > MAX_SELECTORS {
      SelectPrefix(list, selector, MAX_SELECTORS);
      SelectPicks(list, selector[..MAX_SELECTORS]);
    }
  }

  lemma SelectorsDone(level: nat, head: Head, inUse: seq<bool>, n: nat, s: seq<nat>)
    requires Groups(inUse, n) && Picks(s, n)
    ensures Picks(Kept(s), n) && Kept(s[..0]) == [] && Picks(Unselect(Identity(n), Kept(s)), n)
    ensures var m := Machine(level, Coding1(head, inUse, n, Unselect(Identity(n), Kept(s)), []));
            Ok(m) && AfterSelectors(level, head, inUse, n, Kept(s)) == To(m)
  {
    UnselectPicks(Identity(n), Kept(s), n);
    hide Used, Unselect, Lengths;
  }

  /** The number of tables, and the selectors: the first 18002 are kept. */
  lemma ParseCounts(level: nat, head: Head, inUse: seq<bool>, n: nat, s: seq<nat>, rest: seq<bool>)
    requires Groups(inUse, n) && Picks(s, n) && 1 <= |s| <= MOST_SELECTORS
    ensures Picks(Kept(s), n) && Ok(Machine(level, Coding1(head, inUse, n, Unselect(Identity(n), Kept(s)), [])))
    ensures Parse(Machine(level, NGroups(head, inUse)), Bits(n, 3) + (Bits(|s|, 15) + (UnaryAll(s) + rest)))
         == Parse(Machine(level, Coding1(head, inUse, n, Unselect(Identity(n), Kept(s)), [])), rest)
  {
    hide *;
    SelectorsDone(level, head, inUse, n, s);
    CountStep(level, head, inUse, n, |s|);
    assert s[0..] == s;
    ParseTo(Machine(level, NGroups(head, inUse)), n, 3, Machine(level, NSelectors(head, inUse, n)),
            Bits(|s|, 15) + (UnaryAll(s) + rest));
    ParseTo(Machine(level, NSelectors(head, inUse, n)), |s|, 15,
            Machine(level, SelectorBit(head, inUse, n, |s|, [], 0, 0)), UnaryAll(s) + rest);
    ParseSelectors(level, head, inUse, n, s, 0, rest);
    ContinueTo(Machine(level, Coding1(head, inUse, n, Unselect(Identity(n), Kept(s)), [])), rest);
  }

  lemma ParseGroupsAndSelectors(level: nat, body: Body, rest: seq<bool>)
    requires GoodBody(body) && 2 <= |body.lens| <= N_GROUPS && 1 <= |body.selector| <= MOST_SELECTORS
    ensures Picks(Kept(body.selector), |body.lens|)
    ensures Parse(Machine(level, NGroups(body.head, body.inUse)),
                  Bits(|body.lens|, 3) + (Bits(|body.selector|, 15) + (UnaryAll(SelectorMtf(body)) + rest)))
         == Parse(Machine(level, Coding1(body.head, body.inUse, |body.lens|, Kept(body.selector), [])), rest)
  {
    hide *;
    SelectorFacts(body);
    ParseCounts(level, body.head, body.inUse, |body.lens|, SelectorMtf(body), rest);
  }

  /** The selectors' numbers give the selectors that are kept. */
  lemma SelectorFacts(body: Body)
    requires GoodBody(body) && 2 <= |body.lens| <= N_GROUPS
    ensures var n, s := |body.lens|, SelectorMtf(body);
            && Groups(body.inUse, n) && Picks(s, n) && Picks(Kept(s), n) && Picks(Kept(body.selector), n)
            && Unselect(Identity(n), Kept(s)) == Kept(body.selector)
  {
    SelectorsListed(body);
    KeptSelectors(Identity(|body.lens|), body.selector);
    hide Used, Select, Unselect, Lengths;
  }
}
