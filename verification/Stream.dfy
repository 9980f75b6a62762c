/**
 The compressed stream and what it decompresses to: a reference decoder on bits, and the round
 trip through it of everything the compressor writes.
 */
module Stream {

  import opened Rotation
  import opened Counting
  import opened Words
  import opened BitStrings
  import opened InverseBwt
  import opened Mtf
  import opened ByteMap
  import opened MtfEncoder
  import opened Parser
  import opened BlockFormat
  import opened ParsePrint
  import opened ParseSymbols
  import opened BlockRoundTrip
  import opened RunLength
  import opened Crc

  // ---------------------------------------------------------------- randomised blocks

  /** The counters of the randomiser: steps to go, and the next place in the table. */
  datatype Rand = Rand(toGo: int, pos: nat)

  predicate Numbers(rNums: seq<nat>)
  {
    |rNums| == 512 && forall i :: 0 <= i < 512 ==> rNums[i] >= 1
  }

  /** BZ_RAND_UPD_MASK */
  function RandNext(rNums: seq<nat>, r: Rand): (r': Rand)
    requires Numbers(rNums) && r.pos < 512
    ensures r'.pos < 512
  {
    if r.toGo == 0 then Rand(rNums[r.pos] - 1, if r.pos + 1 == 512 then 0 else r.pos + 1) else Rand(r.toGo - 1, r.pos)
  }

  /** The counters after the update for symbol `k`. */
  function RandAt(rNums: seq<nat>, k: nat): (r: Rand)
    requires Numbers(rNums)
    ensures r.pos < 512
  {
    RandNext(rNums, if k == 0 then Rand(0, 0) else RandAt(rNums, k - 1))
  }

  /** A byte `^ BZ_RAND_MASK`. */
  function Unmask(c: byte, r: Rand): (d: byte)
  {
    if r.toGo != 1 then c else if c % 2 == 0 then c + 1 else c - 1
  }

  // ---------------------------------------------------------------- one block

  /** Links that undo the distribution of a last column. */
  ghost function Links(column: seq<byte>): (t: seq<nat>)
    ensures Inverts(column, t)
    ensures |t| == |column| && forall x :: 0 <= x < |t| ==> t[x] < |t|
  {
    TargetsPerm(column);
    var f := Targets(column);
    forall y: nat | y < |column| ensures y in f { PermOnto(f, |column|, y); }
    var t: seq<nat> := seq(|column|, y requires 0 <= y < |column| => (PermOnto(f, |column|, y); Codes.IndexIn(f, y)));
    assert Inverts(column, t);
    InvertsClosed(column, t);
    t
  }

  /** Symbol number `k` fetched from a block. */
  ghost function Fetched(head: Head, column: seq<byte>, rNums: seq<nat>, k: nat): (c: byte)
    requires head.origPtr < |column| && Numbers(rNums)
  {
    var c := column[Row(Links(column), head.origPtr, k)];
    if head.randomised then Unmask(c, RandAt(rNums, k)) else c
  }

  /** The run-length coded bytes of a block. */
  ghost function Restored(head: Head, column: seq<byte>, rNums: seq<nat>): (x: seq<byte>)
    requires head.origPtr < |column| && Numbers(rNums)
    ensures |x| == |column| && forall k :: 0 <= k < |x| ==> x[k] == Fetched(head, column, rNums, k)
  {
    seq(|column|, k requires 0 <= k < |column| => Fetched(head, column, rNums, k))
  }

  // ---------------------------------------------------------------- the reference decoder

  /** The stream's text and the bits after it, or that it is no complete valid stream. */
  datatype Outcome = Good(text: seq<byte>, rest: seq<bool>) | Broken

  function Prepend(s: seq<byte>, o: Outcome): (r: Outcome)
  {
    if o.Good? then Good(s + o.text, o.rest) else Broken
  }

  /** The fixed data of both sides. */
  datatype Data = Data(crcTable: seq<nat>, rNums: seq<nat>)

  ghost predicate GoodData(d: Data)
  {
    |d.crcTable| == 256 && Numbers(d.rNums)
  }

  lemma DataFacts(d: Data)
    requires GoodData(d)
    ensures |d.crcTable| == 256 && Numbers(d.rNums)
  {
  }

  ghost function Decompressed(d: Data, m: Machine, combined: nat, bits: seq<bool>): (o: Outcome)
    requires GoodData(d) && Ok(m)
    decreases |bits|
  {
    match Parse(m, bits)
    case GotBlock(m', head, column, rest) => BlockOutcome(d, head, Restored(head, column, d.rNums), [],
                                                          Decompressed(d, m', Combine(combined, head.crc), rest))
    case Ended(_, crc, rest) => if crc == combined then Good([], rest) else Broken
    case Waiting(_, _) => Broken
    case Failed(_) => Broken
  }

  /** A block with bytes `x`, of which `done` were written, and what follows it. */
  function BlockOutcome(d: Data, head: Head, x: seq<byte>, done: seq<byte>, more: Outcome): (o: Outcome)
    requires |d.crcTable| == 256
  {
    if !Expandable(x) || !(done <= Expand(x)) || BlockCrcOf(d.crcTable, Expand(x)) != head.crc then Broken
    else Prepend(Expand(x)[|done|..], more)
  }

  // ---------------------------------------------------------------- the compressor's stream

  /** A block as the compressor sent it. */
  datatype Sent = Sent(runs: seq<Run>, order: seq<nat>, body: Body)

  ghost predicate GoodBlock(d: Data, level: nat, r: Sent)
    requires GoodData(d)
  {
    && 1 <= level <= 9 && Runs(r.runs) && r.runs != []
    && var b := StoredAll(r.runs);
    && 0 < |b| <= 100000 * level && Sorted(b, r.order) && AllUsed(b, r.body.inUse)
    && r.body.head.origPtr < |b| && r.order[r.body.head.origPtr] == 0
    && r.body.head == Head(BlockCrcOf(d.crcTable, OriginalAll(r.runs)), false, r.body.head.origPtr)
    && AllUsed(LastColumn(b, r.order), r.body.inUse)
    && Sendable(r.body, Symbols(LastColumn(b, r.order), r.body.inUse))
  }

  ghost function SentBits(d: Data, level: nat, r: Sent): (b: seq<bool>)
    requires GoodData(d) && GoodBlock(d, level, r)
  {
    BlockBits(r.body, Symbols(LastColumn(StoredAll(r.runs), r.order), r.body.inUse))
  }

  ghost predicate GoodBlocks(d: Data, level: nat, rs: seq<Sent>)
    requires GoodData(d)
  {
    forall i :: 0 <= i < |rs| ==> GoodBlock(d, level, rs[i])
  }

  ghost function BlocksBits(d: Data, level: nat, rs: seq<Sent>): (b: seq<bool>)
    requires GoodData(d) && GoodBlocks(d, level, rs)
  {
    if rs == [] then [] else SentBits(d, level, rs[0]) + BlocksBits(d, level, rs[1..])
  }

  function BlocksText(rs: seq<Sent>): (s: seq<byte>)
  {
    if rs == [] then [] else OriginalAll(rs[0].runs) + BlocksText(rs[1..])
  }

  function StreamCrc(combined: nat, rs: seq<Sent>): (c: nat)
    decreases |rs|
  {
    if rs == [] then combined else StreamCrc(Combine(combined, rs[0].body.head.crc), rs[1..])
  }

  ghost function StreamBits(d: Data, level: nat, rs: seq<Sent>): (b: seq<bool>)
    requires GoodData(d) && GoodBlocks(d, level, rs)
  {
    StreamHead(level) + BlocksBits(d, level, rs) + TrailerBits(StreamCrc(0, rs))
  }

  // ---------------------------------------------------------------- the round trip

  /** The decoder's symbols of a sorted block are the block. */
  lemma RestoredIs(b: seq<byte>, p: seq<nat>, head: Head, rNums: seq<nat>)
    requires Sorted(b, p) && head.origPtr < |b| && p[head.origPtr] == 0 && !head.randomised && Numbers(rNums)
    ensures Restored(head, LastColumn(b, p), rNums) == b
  {
    var l := LastColumn(b, p);
    CmpRefl(b, 0, |b|);
    forall k | 0 <= k < |b| ensures Restored(head, l, rNums)[k] == b[k] {
      FetchIsBlock(b, p, Links(l), head.origPtr, k);
      SmallMod(k, |b|);
    }
  }

  lemma SmallMod(k: nat, n: nat)
    requires k < n
    ensures k % n == k
  {
    DivUnique(k, n, 0, k);
  }

  function HeadByte(level: nat, k: nat): (v: nat)
  {
    if k == 0 then 0x42 else if k == 1 then 0x5a else if k == 2 then 0x68 else 0x30 + level
  }

  lemma HeadStep(level: nat, k: nat)
    requires 1 <= level <= 9 && k < 4
    ensures var m := Machine(0, Magic(k));
            var m' := if k < 3 then Machine(0, Magic(k + 1)) else Machine(level, BlockMagic(0));
            Ok(m) && Need(m) == 8 && HeadByte(level, k) < 256 && Step(m, HeadByte(level, k)) == To(m') && Ok(m')
  {
  }

  lemma {:induction false} ParseMagic(level: nat, k: nat, s: seq<nat>, rest: seq<bool>)
    requires 1 <= level <= 9 && k < 4 && |s| == 4 - k && forall i :: 0 <= i < |s| ==> s[i] == HeadByte(level, k + i)
    ensures Parse(Machine(0, Magic(k)), BytesBits(s) + rest) == Parse(Machine(level, BlockMagic(0)), rest)
    decreases |s|
  {
    hide *;
    HeadStep(level, k);
    ParseByte(Machine(0, Magic(k)), s, if k < 3 then Machine(0, Magic(k + 1)) else Machine(level, BlockMagic(0)), rest);
    if k < 3 {
      var s' := s[1..];
      forall i | 0 <= i < |s'| ensures s'[i] == HeadByte(level, k + 1 + i) {
        assert s'[i] == s[i + 1];
      }
      ParseMagic(level, k + 1, s', rest);
    } else {
      BytesStep(s[1..], rest);
    }
  }

  lemma ParseStreamHead(level: nat, rest: seq<bool>)
    requires 1 <= level <= 9
    ensures Ok(Machine(0, Magic(0))) && Ok(Machine(level, BlockMagic(0)))
    ensures Parse(Machine(0, Magic(0)), StreamHead(level) + rest) == Parse(Machine(level, BlockMagic(0)), rest)
  {
    hide Ok, Parse, BytesBits;
    HeadStep(level, 0);
    BlockMagicOk(level);
    ParseMagic(level, 0, [0x42, 0x5a, 0x68, 0x30 + level], rest);
  }

  lemma EndStep(level: nat, k: nat)
    requires k < 6
    ensures |END_MAGIC| == 6
    ensures var m := Machine(level, if k == 0 then BlockMagic(0) else EndMagic(k));
            var m' := Machine(level, if k < 5 then EndMagic(k + 1) else CombinedCrc(0, 0));
            Ok(m) && Need(m) == 8 && END_MAGIC[k] < 256 && Step(m, END_MAGIC[k]) == To(m') && Ok(m')
  {
  }

  lemma {:induction false} ParseEndMagic(level: nat, k: nat, rest: seq<bool>)
    requires k < 6 && Ok(Machine(level, if k == 0 then BlockMagic(0) else EndMagic(k)))
    requires Ok(Machine(level, CombinedCrc(0, 0)))
    ensures |END_MAGIC| == 6
    ensures Parse(Machine(level, if k == 0 then BlockMagic(0) else EndMagic(k)), BytesBits(END_MAGIC[k..]) + rest)
         == Parse(Machine(level, CombinedCrc(0, 0)), rest)
    decreases 6 - k
  {
    hide *;
    EndStep(level, k);
    var s := END_MAGIC[k..];
    ParseByte(Machine(level, if k == 0 then BlockMagic(0) else EndMagic(k)), s,
              Machine(level, if k < 5 then EndMagic(k + 1) else CombinedCrc(0, 0)), rest);
    assert s[1..] == END_MAGIC[k + 1..];
    if k < 5 {
      ParseEndMagic(level, k + 1, rest);
    } else {
      BytesStep(s[1..], rest);
    }
  }

  lemma FirstEnd(level: nat)
    ensures Ok(Machine(level, BlockMagic(0))) && Ok(Machine(level, CombinedCrc(0, 0)))
  {
  }

  lemma TrailerStep(level: nat, k: nat, crc: nat, v: nat)
    requires k < 4
    ensures var m := Machine(level, CombinedCrc(k, crc));
            && Ok(m) && Need(m) == 8
            && Step(m, v) == (if k < 3 then To(Machine(level, CombinedCrc(k + 1, 256 * crc + v)))
                              else End(m, 256 * crc + v))
            && (k < 3 ==> Ok(Machine(level, CombinedCrc(k + 1, 256 * crc + v))))
  {
  }

  lemma {:induction false} ParseTrailerCrc(level: nat, k: nat, crc: nat, s: seq<nat>, rest: seq<bool>)
    requires k < 4 && |s| == 4 - k && forall i :: 0 <= i < |s| ==> s[i] < 256
    ensures var r := Parse(Machine(level, CombinedCrc(k, crc)), BytesBits(s) + rest);
            r.Ended? && r.crc == Spelled(crc, s) && r.rest == rest
    decreases |s|
  {
    hide *;
    var x := 256 * crc + s[0];
    var m := Machine(level, CombinedCrc(k, crc));
    SpelledStep(crc, s);
    TrailerStep(level, k, crc, s[0]);
    if k < 3 {
      ParseByte(m, s, Machine(level, CombinedCrc(k + 1, x)), rest);
      ParseTrailerCrc(level, k + 1, x, s[1..], rest);
    } else {
      ByteFits(s[0]);
      BytesStep(s, rest);
      BytesStep(s[1..], rest);
      ParseNumber(m, s[0], 8, BytesBits(s[1..]) + rest);
      ContinueAfter(Step(m, s[0]), rest);
    }
  }

  /** The trailer ends the stream, and its checksum is the one computed. */
  lemma TrailerEnds(d: Data, level: nat, combined: nat, rest: seq<bool>)
    requires GoodData(d) && combined < 0x1_0000_0000
    ensures Ok(Machine(level, BlockMagic(0)))
    ensures Decompressed(d, Machine(level, BlockMagic(0)), combined, TrailerBits(combined) + rest) == Good([], rest)
  {
    BlockMagicOk(level);
    assert TrailerBits(combined) + rest == BytesBits(END_MAGIC) + (BytesBits(WordBytes(combined)) + rest)
        && END_MAGIC[0..] == END_MAGIC
           && |WordBytes(combined)| == 4 by {
      hide BytesBits;
    }
    hide BytesBits, Parse, Ok, WordBytes, END_MAGIC, Combine, BlockOutcome;
    WordIs(combined);
    FirstEnd(level);
    ParseEndMagic(level, 0, BytesBits(WordBytes(combined)) + rest);
    ParseTrailerCrc(level, 0, 0, WordBytes(combined), rest);
  }

  lemma GoodBlockFacts(d: Data, level: nat, r: Sent)
    requires GoodData(d) && GoodBlock(d, level, r)
    ensures var b := StoredAll(r.runs); var head := r.body.head;
            && Sorted(b, r.order) && Perm(r.order, |b|) && head.origPtr < |b| && r.order[head.origPtr] == 0
            && !head.randomised
            && AllUsed(LastColumn(b, r.order), r.body.inUse) && |LastColumn(b, r.order)| == |b|
            && Sendable(r.body, Symbols(LastColumn(b, r.order), r.body.inUse))
            && GoodHead(head, level) && |b| <= 100000 * level && Runs(r.runs)
            && head.crc == BlockCrcOf(d.crcTable, OriginalAll(r.runs))
  {
    hide Le, Sendable, Symbols, AllUsed, StoredAll, OriginalAll, BlockCrcOf;
  }

  /** One block of the stream. */
  lemma BlockRead(d: Data, level: nat, r: Sent, combined: nat, rest: seq<bool>)
    requires GoodData(d) && GoodBlock(d, level, r)
    ensures Ok(Machine(level, BlockMagic(0)))
    ensures Decompressed(d, Machine(level, BlockMagic(0)), combined, SentBits(d, level, r) + rest)
         == Prepend(OriginalAll(r.runs),
                    Decompressed(d, Machine(level, BlockMagic(0)), Combine(combined, r.body.head.crc), rest))
  {
    hide *;
    BlockMagicOk(level);
    DataFacts(d);
    GoodBlockFacts(d, level, r);
    SentBitsAre(d, level, r);
    var b := StoredAll(r.runs);
    ColumnRoundTrip(level, r.body, LastColumn(b, r.order), rest);
    RestoredIs(b, r.order, r.body.head, d.rNums);
    RunsRoundTrip(r.runs);
    BlockWhole(d, r.body.head, b, Decompressed(d, Machine(level, BlockMagic(0)), Combine(combined, r.body.head.crc),
                                               rest));
    DecompressedBlock(d, Machine(level, BlockMagic(0)), combined, SentBits(d, level, r) + rest,
                      Machine(level, BlockMagic(0)), r.body.head, LastColumn(b, r.order), rest);
  }

  lemma SentBitsAre(d: Data, level: nat, r: Sent)
    requires GoodData(d) && GoodBlock(d, level, r)
    ensures var b := StoredAll(r.runs);
            && Runs(r.runs) && Perm(r.order, |b|) && AllUsed(LastColumn(b, r.order), r.body.inUse)
            && Sendable(r.body, Symbols(LastColumn(b, r.order), r.body.inUse))
            && SentBits(d, level, r) == BlockBits(r.body, Symbols(LastColumn(b, r.order), r.body.inUse))
  {
    hide Sendable, Symbols, AllUsed, StoredAll, OriginalAll, BlockCrcOf, BlockBits, Le;
  }

  lemma BlockWhole(d: Data, head: Head, x: seq<byte>, more: Outcome)
    requires GoodData(d) && |d.crcTable| == 256 && Expandable(x) && BlockCrcOf(d.crcTable, Expand(x)) == head.crc
    ensures BlockOutcome(d, head, x, [], more) == Prepend(Expand(x), more)
  {
    hide Expandable, Expand, BlockCrcOf;
    assert Expand(x)[0..] == Expand(x);
  }

  lemma DecompressedBlock(d: Data, m: Machine, combined: nat, bits: seq<bool>, m': Machine, head: Head,
                          column: seq<byte>, rest: seq<bool>)
    requires GoodData(d) && Ok(m) && Parse(m, bits) == GotBlock(m', head, column, rest) && Ok(m')
    requires head.origPtr < |column|
    ensures |d.crcTable| == 256 && Numbers(d.rNums)
    ensures Decompressed(d, m, combined, bits)
         == BlockOutcome(d, head, Restored(head, column, d.rNums), [],
                         Decompressed(d, m', Combine(combined, head.crc), rest))
  {
    hide Parse, Ok, Restored, Combine, BlockOutcome;
  }

  lemma {:induction false} BlocksRead(d: Data, level: nat, rs: seq<Sent>, combined: nat, rest: seq<bool>)
    requires GoodData(d) && GoodBlocks(d, level, rs) && combined < 0x1_0000_0000
    ensures Ok(Machine(level, BlockMagic(0)))
    ensures Decompressed(d, Machine(level, BlockMagic(0)), combined,
                         BlocksBits(d, level, rs) + (TrailerBits(StreamCrc(combined, rs)) + rest))
                             == Good(BlocksText(rs), rest)
    decreases |rs|
  {
    BlockMagicOk(level);
    hide Ok, Decompressed, SentBits, TrailerBits, GoodBlock, Combine, OriginalAll;
    if rs == [] {
      assert [] + (TrailerBits(combined) + rest) == TrailerBits(combined) + rest;
      TrailerEnds(d, level, combined, rest);
    } else {
      var c := Combine(combined, rs[0].body.head.crc);
      var more := TrailerBits(StreamCrc(combined, rs)) + rest;
      assert BlocksBits(d, level, rs) + more == SentBits(d, level, rs[0]) + (BlocksBits(d, level, rs[1..]) + more);
      BlockRead(d, level, rs[0], combined, BlocksBits(d, level, rs[1..]) + more);
      BlocksRead(d, level, rs[1..], c, rest);
    }
  }

  /** Everything that is compressed decompresses to itself. */
  lemma StreamRoundTrip(d: Data, level: nat, rs: seq<Sent>, rest: seq<bool>)
    requires GoodData(d) && 1 <= level <= 9 && GoodBlocks(d, level, rs)
    ensures Ok(Machine(0, Magic(0)))
    ensures Decompressed(d, Machine(0, Magic(0)), 0, StreamBits(d, level, rs) + rest) == Good(BlocksText(rs), rest)
  {
    hide *;
    var bits := BlocksBits(d, level, rs) + (TrailerBits(StreamCrc(0, rs)) + rest);
    StreamBitsParts(d, level, rs, rest);
    ParseStreamHead(level, bits);
    SameParse(d, Machine(0, Magic(0)), Machine(level, BlockMagic(0)), 0, StreamHead(level) + bits, bits);
    BlocksRead(d, level, rs, 0, rest);
  }

  lemma StreamBitsParts(d: Data, level: nat, rs: seq<Sent>, rest: seq<bool>)
    requires GoodData(d) && GoodBlocks(d, level, rs)
    ensures StreamBits(d, level, rs) + rest
              == StreamHead(level) + (BlocksBits(d, level, rs) + (TrailerBits(StreamCrc(0, rs)) + rest))
  {
    hide StreamHead, BlocksBits, TrailerBits, GoodBlocks;
  }

  lemma SameParse(d: Data, m: Machine, m': Machine, combined: nat, bits: seq<bool>, bits': seq<bool>)
    requires GoodData(d) && Ok(m) && Ok(m') && Parse(m, bits) == Parse(m', bits')
    ensures Decompressed(d, m, combined, bits) == Decompressed(d, m', combined, bits')
  {
    hide Ok, Parse, BlockOutcome, Restored, Combine;
  }
}
