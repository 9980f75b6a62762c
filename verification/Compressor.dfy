/**
 BZ2_bzCompress and what it drives (bzlib.c lines 296-472, compress.c lines 604-669): the mode
 machine, and what is known of its input and output after any sequence of calls.
 */
module Compressor {

  import opened Rotation
  import opened Words
  import opened BitStrings
  import opened Mtf
  import opened MtfEncoder
  import opened Parser
  import opened BlockFormat
  import opened BitOutput
  import BitInput
  import opened RunLength
  import opened Crc
  import opened Stream
  import opened BlockBuffer
  import opened BlockSender
  import opened BlockCuts

  datatype Mode = Idle | Running | Flushing | Finishing
  datatype Filling = Output | Input
  datatype Action = RunAction | FlushAction | FinishAction
  datatype Result = RunOk | FlushOk | FinishOk | StreamEnd | SequenceError | ParamError

  /** The bits of the stream so far. */
  ghost predicate Streamed(d: Data, level: nat, bits: seq<bool>, sent: seq<Sent>, started: bool, crc: nat)
  {
    && GoodData(d) && GoodBlocks(d, level, sent) && crc == StreamCrc(0, sent) && crc < 0x1_0000_0000
    && (if started then bits == StreamHead(level) + BlocksBits(d, level, sent) else bits == [] && sent == [])
  }

  /** The finished stream, padded to whole bytes with zeros. */
  ghost predicate Complete(d: Data, level: nat, bytes: seq<nat>, sent: seq<Sent>)
    requires GoodData(d) && GoodBlocks(d, level, sent)
  {
    exists pad: seq<bool> :: |pad| < 8 && Clear(pad) && BytesBits(bytes) == StreamBits(d, level, sent) + pad
  }

  lemma {:induction false} BlocksAppend(d: Data, level: nat, rs: seq<Sent>, r: Sent)
    requires GoodData(d) && GoodBlocks(d, level, rs) && GoodBlock(d, level, r)
    ensures GoodBlocks(d, level, rs + [r])
    ensures BlocksBits(d, level, rs + [r]) == BlocksBits(d, level, rs) + SentBits(d, level, r)
    ensures BlocksText(rs + [r]) == BlocksText(rs) + OriginalAll(r.runs)
  {
    hide GoodBlock, SentBits, OriginalAll;
    if rs == [] {
      assert [] + [r] == [r] && [r][1..] == [];
      assert BlocksBits(d, level, [r]) == SentBits(d, level, r) + [];
      assert BlocksText([r]) == OriginalAll(r.runs) + [];
    } else {
      BlocksAppend(d, level, rs[1..], r);
      assert (rs + [r])[1..] == rs[1..] + [r];
      assert SentBits(d, level, rs[0]) + (BlocksBits(d, level, rs[1..]) + SentBits(d, level, r))
          == SentBits(d, level, rs[0]) + BlocksBits(d, level, rs[1..]) + SentBits(d, level, r);
      assert OriginalAll(rs[0].runs) + (BlocksText(rs[1..]) + OriginalAll(r.runs))
          == OriginalAll(rs[0].runs) + BlocksText(rs[1..]) + OriginalAll(r.runs);
    }
  }

  lemma {:induction false} StreamCrcAppend(c: nat, rs: seq<Sent>, r: Sent)
    ensures StreamCrc(c, rs + [r]) == Combine(StreamCrc(c, rs), r.body.head.crc)
    decreases |rs|
  {
    hide Combine;
    if rs == [] {
      assert [] + [r] == [r] && [r][1..] == [];
    } else {
      assert (rs + [r])[1..] == rs[1..] + [r];
      StreamCrcAppend(Combine(c, rs[0].body.head.crc), rs[1..], r);
    }
  }

  lemma StreamedMore(d: Data, level: nat, bits: seq<bool>, sent: seq<Sent>, crc: nat, r: Sent)
    requires Streamed(d, level, bits, sent, true, crc) && GoodBlock(d, level, r)
    ensures Streamed(d, level, bits + SentBits(d, level, r), sent + [r], true, Combine(crc, r.body.head.crc))
  {
    hide GoodBlock, SentBits, BlocksBits, StreamHead, Combine, GoodBlocks;
    BlocksAppend(d, level, sent, r);
    StreamCrcAppend(0, sent, r);
    assert StreamHead(level) + (BlocksBits(d, level, sent) + SentBits(d, level, r))
        == StreamHead(level) + BlocksBits(d, level, sent) + SentBits(d, level, r);
  }

  lemma StreamedStart(d: Data, level: nat, bits: seq<bool>, crc: nat)
    requires Streamed(d, level, bits, [], false, crc)
    ensures Streamed(d, level, bits + StreamHead(level), [], true, crc)
  {
    assert StreamHead(level) + [] == StreamHead(level);
    assert bits + StreamHead(level) == StreamHead(level);
  }

  lemma StreamedEnd(d: Data, level: nat, bits: seq<bool>, sent: seq<Sent>, crc: nat, bytes: seq<nat>, pad: seq<bool>)
    requires Clear(pad)
    requires Streamed(d, level, bits, sent, true, crc) && |pad| < 8 && BytesBits(bytes) == bits + TrailerBits(crc) + pad
    ensures GoodData(d) && GoodBlocks(d, level, sent) && Complete(d, level, bytes, sent)
  {
    hide BlocksBits, StreamHead, GoodBlocks, BytesBits;
    assert BytesBits(bytes) == StreamBits(d, level, sent) + pad;
  }

  /** What each block was made of. */
  ghost function RunsOf(ss: seq<Sent>): (rs: seq<seq<Run>>)
    ensures |rs| == |ss| && forall i :: 0 <= i < |ss| ==> rs[i] == ss[i].runs
  {
    seq(|ss|, i requires 0 <= i < |ss| => ss[i].runs)
  }

  class Compressor {
    const level: nat
    const nblockMAX: nat
    const workFactor: int
    const buf: BlockBuffer
    const w: BitWriter
    ghost const d: Data
    var mode: Mode
    var state: Filling
    var availInExpect: nat
    var combinedCRC: nat
    var blockNo: nat
    /** Where the bytes of the current block start, and how many of them are copied out. */
    var zStart: nat
    var stateOutPos: nat
    // the caller's buffers
    var nextIn: seq<byte>
    var availOut: nat
    var out: seq<byte>
    // what has happened
    ghost var sent: seq<Sent>
    ghost var accepted: seq<byte>
    ghost var finished: bool
    /** The calls to flush so far, and how much had been accepted and sent with the last of them. */
    ghost var flushes: nat
    ghost var since: nat
    ghost var first: nat
    /** The blocks that a flush or a finish asked for. */
    ghost var asked: set<nat>
    /** The bytes given with the call to finish. */
    ghost var offered: nat

    ghost predicate Objects()
    {
      && 1 <= level <= 9 && nblockMAX == 100000 * level - 19 && buf.block.Length == 100000 * level + 34
      && buf.inUse.Length == 256 && buf.table == d.crcTable && GoodData(d)
    }

    /** The runs that no sent block contains yet. */
    ghost function Unsent(): (rs: seq<Run>)
      reads this`state, buf
    {
      if state == Input then buf.All() else Pending(buf.stateInCh, buf.stateInLen)
    }

    /** All accepted bytes are in the blocks sent, the current block or the pending run. */
    ghost predicate Accounted()
      reads this`state, this`accepted, this`sent, buf
    {
      accepted == BlocksText(sent) + OriginalAll(Unsent())
    }

    /** The bytes given out are the first bytes of the stream. */
    ghost predicate Emitted()
      reads this`zStart, this`stateOutPos, this`out, w
    {
      zStart + stateOutPos <= |w.zbits| && out == w.zbits[..zStart + stateOutPos]
    }

    /** Every block is the one that is sent for its runs. */
    ghost predicate Made(ss: seq<Sent>)
    {
      GoodData(d) && forall i :: 0 <= i < |ss| ==> Runs(ss[i].runs) && ss[i] == Coded(d, workFactor, ss[i].runs)
    }

    /** The bit buffer holds the header and the blocks sent; in the end, the whole stream. */
    ghost predicate Encoded()
      reads this`finished, this`sent, this`blockNo, this`state, this`combinedCRC, w
    {
      Made(sent) &&
      if finished then GoodData(d) && GoodBlocks(d, level, sent) && Complete(d, level, w.zbits, sent)
      else w.Valid() && Streamed(d, level, w.Contents(), sent, blockNo > 1 || state == Output, combinedCRC)
    }

    /** How modes, states and buffers fit together between calls. */
    ghost predicate Modes()
      reads this, buf, w`zbits
    {
      && 1 <= blockNo
      && (mode == Flushing || mode == Finishing ==> availInExpect == |nextIn|)
      && (finished ==> (mode == Finishing || mode == Idle) && state == Output && availInExpect == 0 && buf.Empty())
      && (mode == Idle ==> finished && zStart + stateOutPos == |w.zbits|)
      && (state == Input ==> !finished && (buf.Empty() ==> buf.runs == []) && buf.nblock < nblockMAX)
      && (state == Output && !finished && buf.Empty() ==> mode == Flushing)
    }

    /** The runs of the block that is being filled. */
    ghost function Open(): (rs: seq<Run>)
      reads this`state, buf
    {
      if state == Input then buf.runs else []
    }

    /**
     Where blocks ended: they are full unless they were asked for, and the text since the last
     flush decides which.
     */
    ghost predicate Cutting()
      reads this`sent, this`accepted, this`finished, this`state, this`flushes, this`since, this`first, this`asked
      reads this`offered, buf
    {
      && first <= |sent| && since <= |accepted| && (flushes == 0 ==> since == 0 && first == 0)
      && (forall i :: 0 <= i < |sent| && i !in asked ==> Full(nblockMAX, sent[i].runs))
      && (flushes == 0 ==> forall i :: i in asked ==> finished && i == |sent| - 1)
      && (forall i :: i in asked ==> i < |sent|)
      && (if finished then RunsOf(sent[first..]) == BlocksOf(nblockMAX, accepted[since..], offered > 0)
          else Following(nblockMAX, accepted[since..], RunsOf(sent[first..]), Open(),
                         Pending(buf.stateInCh, buf.stateInLen)))
    }

    /**
     At most one block was asked for by each flush and by the finish.  A finish that is not done
     has input left that was given with it, unless there was none.
     */
    ghost predicate Late()
      reads this`mode, this`finished, this`availInExpect, this`offered, this`flushes, this`asked, buf
    {
      && |asked| <= flushes + (if finished then 1 else 0)
      && (mode == Flushing && (availInExpect > 0 || !buf.Empty()) ==> |asked| < flushes)
      && (mode == Finishing ==> availInExpect <= offered && (!finished ==> availInExpect > 0 || offered == 0))
      && (mode == Flushing ==> flushes > 0)
    }

    ghost predicate Valid()
      reads this, buf, buf.block, buf.inUse, w
    {
      && Cutting() && Late() && Objects() && buf.Valid() && Accounted() && Emitted() && Encoded() && Modes()
      && (state == Input ==> zStart == |w.zbits| && stateOutPos == 0)
    }

    /** BZ2_bzCompressInit, for parameters in range. */
    constructor (blockSize100k: nat, workFactor0: int, data: Data)
      requires 1 <= blockSize100k <= 9 && GoodData(data)
      ensures Valid() && fresh(buf) && fresh(buf.block) && fresh(buf.inUse) && fresh(w)
      ensures mode == Running && state == Input && accepted == [] && sent == [] && out == [] && nextIn == []
      ensures availOut == 0
      ensures d == data && level == blockSize100k && flushes == 0
      ensures workFactor == if workFactor0 == 0 then 30 else workFactor0
    {
      hide *;
      DataFacts(data);
      level := blockSize100k;
      nblockMAX := 100000 * blockSize100k - 19;
      workFactor := if workFactor0 == 0 then 30 else workFactor0;
      buf := new BlockBuffer(100000 * blockSize100k + 34, data.crcTable);
      w := new BitWriter();
      d := data;
      mode, state, availInExpect, combinedCRC, blockNo := Running, Input, 0, 0, 1;
      zStart, stateOutPos := 0, 0;
      nextIn, availOut, out := [], 0, [];
      sent, accepted, finished := [], [], false;
      flushes, since, first, asked, offered := 0, 0, 0, {}, 0;
      new;
      IsInitial();
    }

    lemma IsInitial()
      requires 1 <= level <= 9 && nblockMAX == 100000 * level - 19 && GoodData(d)
      requires buf.block.Length == 100000 * level + 34 && buf.table == d.crcTable
      requires buf.Valid() && buf.All() == [] && buf.runs == [] && buf.nblock == 0 && buf.Empty()
      requires w.Valid() && w.Contents() == [] && w.zbits == [] && zStart == 0 && stateOutPos == 0 && out == []
      requires mode == Running && state == Input && blockNo == 1 && combinedCRC == 0
      requires sent == [] && accepted == [] && !finished && since == 0 && first == 0 && asked == {}
      ensures Valid()
    {
      assert BlocksText([]) + OriginalAll([]) == [];
      CuttingStart();
    }

    lemma CuttingStart()
      requires buf.All() == [] && buf.runs == [] && state == Input && sent == [] && accepted == [] && !finished
      requires since == 0 && first == 0 && asked == {}
      ensures Cutting()
    {
      assert Pending(buf.stateInCh, buf.stateInLen) == [];
      FollowingStart(nblockMAX);
      assert sent[first..] == [] && accepted[since..] == [] && RunsOf([]) == [];
    }

    /** The parts of what is known of the blocks while none is finished. */
    lemma CuttingFacts()
      requires Cutting() && !finished
      ensures first <= |sent| && since <= |accepted|
      ensures Following(nblockMAX, accepted[since..], RunsOf(sent[first..]), Open(),
                        Pending(buf.stateInCh, buf.stateInLen))
    {
      hide Following, Full;
    }

    lemma LateIs()
      ensures Late() <==>
                && |asked| <= flushes + (if finished then 1 else 0)
                && (mode == Flushing && (availInExpect > 0 || !buf.Empty()) ==> |asked| < flushes)
                && (mode == Finishing ==> availInExpect <= offered && (!finished ==> availInExpect > 0 || offered == 0))
                && (mode == Flushing ==> flushes > 0)
    {
    }

    /** The blocks that were not asked for are full, in `ss`. */
    ghost predicate FullBut(ss: seq<Sent>, a: set<nat>)
    {
      (forall i :: 0 <= i < |ss| && i !in a ==> Full(nblockMAX, ss[i].runs)) && (forall i :: i in a ==> i < |ss|)
    }

    lemma CuttingFull()
      requires Cutting() && !finished
      ensures FullBut(sent, asked) && (flushes == 0 ==> since == 0 && first == 0 && asked == {})
    {
      hide Following, Full;
    }

    lemma IsCutting()
      requires first <= |sent| && since <= |accepted| && (flushes == 0 ==> since == 0 && first == 0)
      requires FullBut(sent, asked) && (flushes == 0 ==> forall i :: i in asked ==> finished && i == |sent| - 1)
      requires if finished then RunsOf(sent[first..]) == BlocksOf(nblockMAX, accepted[since..], offered > 0)
               else Following(nblockMAX, accepted[since..], RunsOf(sent[first..]), Open(),
                              Pending(buf.stateInCh, buf.stateInLen))
      ensures Cutting()
    {
      hide Following, Full, BlocksOf;
    }

    /** One block more, full or asked for. */
    lemma OneMore(before: seq<Sent>, ask: bool, a: set<nat>, k: nat)
      requires FullBut(before, a) && |sent| == |before| + 1 && sent == before + [sent[|before|]] && k <= |before|
      requires ask || Full(nblockMAX, sent[|before|].runs)
      ensures FullBut(sent, if ask then a + {|before|} else a)
      ensures RunsOf(sent[k..]) == RunsOf(before[k..]) + [sent[|before|].runs]
    {
      hide Full;
    }

    /** The last block of a flush or a finish. */
    lemma LastBlockIs(text: seq<byte>, done: seq<seq<Run>>, runs: seq<Run>, pend: seq<Run>)
      requires nblockMAX > 0 && Following(nblockMAX, text, done, runs, pend)
      requires offered > 0 ==> (runs == [] && pend != [] && pend[0].len == 1 ==> done == [])
      requires offered == 0 ==> Size(runs) < nblockMAX
      ensures BlocksOf(nblockMAX, text, offered > 0) == if runs + pend == [] then done else done + [runs + pend]
    {
      hide CutAll, Size;
      FollowingEnd(nblockMAX, text, done, runs, pend, offered > 0);
      if text != [] {
        assert pend != [];
      }
    }

    /** The same blocks, with other bytes or other runs in the buffer. */
    twostate lemma CuttingKept()
      requires old(Cutting()) && !old(finished) && !finished && sent == old(sent) && flushes == old(flushes)
      requires since == old(since) && first == old(first) && asked == old(asked) && |accepted| >= |old(accepted)|
      requires Following(nblockMAX, accepted[since..], RunsOf(sent[first..]), Open(),
                         Pending(buf.stateInCh, buf.stateInLen))
      ensures Cutting()
    {
      hide Following, Full;
    }

    /** How full the block is. */
    lemma OpenSize()
      requires Objects() && buf.Valid() && state == Input
      ensures Size(Open()) == buf.nblock && nblockMAX > 0 && Open() == buf.runs
    {
      BufferFacts();
      SizeIs(buf.runs);
      hide Runs, StoredAll, Size;
    }

    // ---------------------------------------------------------------- copying in and out

    lemma AcceptOne(rs: seq<Run>, c: byte)
      requires Runs(rs) && accepted == BlocksText(sent) + OriginalAll(rs)
      ensures accepted + [c] == BlocksText(sent) + OriginalAll(AddByte(rs, c))
    {
      AddByteKeeps(rs, c);
      assert BlocksText(sent) + (OriginalAll(rs) + [c]) == BlocksText(sent) + OriginalAll(rs) + [c];
    }

    /** Of the input `given` all but `nextIn` was accepted, after `before`. */
    ghost predicate Taking(given: seq<byte>, before: seq<byte>)
      reads this`nextIn, this`accepted
    {
      && |nextIn| <= |given| && given == given[..|given| - |nextIn|] + nextIn
      && accepted == before + given[..|given| - |nextIn|]
    }

    lemma TakingStart()
      ensures Taking(nextIn, accepted)
    {
      assert accepted + nextIn[..0] == accepted;
    }

    /** Room for the bytes that one more byte of input, or the end of a run, can add. */
    ghost predicate Fillable()
      reads buf, buf.block, buf.inUse
    {
      buf.Valid() && (buf.Empty() ==> buf.runs == []) && buf.nblock <= nblockMAX + 4
    }

    /** One byte of input. */
    method TakeByte(ghost given: seq<byte>, ghost before: seq<byte>)
      requires Objects() && Fillable() && Accounted() && state == Input && buf.nblock < nblockMAX && nextIn != []
      requires mode != Running ==> availInExpect == |nextIn|
      requires Taking(given, before) && Cutting() && !finished
      modifies this`nextIn, this`availInExpect, this`accepted, buf, buf.block, buf.inUse
      ensures Fillable() && Accounted() && !buf.Empty() && |nextIn| == |old(nextIn)| - 1
      ensures Cutting() && Fresh()
      ensures mode != Running ==> availInExpect == |nextIn|
      ensures Taking(given, before)
    {
      hide *;
      ghost var all, c := AddByte(buf.All(), nextIn[0]), nextIn[0];
      CuttingFacts();
      ghost var runs, pend, text := Open(), Pending(buf.stateInCh, buf.stateInLen), accepted[since..];
      Room();
      OpenSize();
      AllParts();
      AcceptOne(buf.All(), c);
      TakingStep(given, before);
      buf.AddChar(nextIn[0]);
      accepted := accepted + [c];
      nextIn := nextIn[1..];
      if mode != Running {
        availInExpect := availInExpect - 1;
      }
      IsAccounted(all);
      IsFillable();
      IsTaking(given, before);
      AllParts();
      assert accepted[since..] == text + [c];
      FollowingByte(nblockMAX, text, RunsOf(sent[first..]), runs, pend, c, Open(),
                    Pending(buf.stateInCh, buf.stateInLen));
      CuttingKept();
      IsFresh(text);
    }

    /** A run of one byte that is pending before anything is stored is the first since a flush. */
    ghost predicate Fresh()
      reads this`sent, this`first, this`state, buf
    {
      first <= |sent| && (Open() == [] && buf.stateInLen == 1 ==> RunsOf(sent[first..]) == [])
    }

    lemma IsFresh(text: seq<byte>)
      requires Cutting() && !buf.Empty()
      requires Open() == [] && buf.stateInLen == 1 ==> RunsOf(sent[first..]) == []
      ensures Fresh()
    {
      hide Following, Full;
    }

    lemma AllParts()
      requires state == Input
      ensures Open() == buf.runs && buf.All() == Open() + Pending(buf.stateInCh, buf.stateInLen)
      ensures !buf.Empty() ==> |Pending(buf.stateInCh, buf.stateInLen)| == 1
      ensures buf.Valid() && buf.Empty() ==> Pending(buf.stateInCh, buf.stateInLen) == []
      ensures !buf.Empty() ==>
                var r := Pending(buf.stateInCh, buf.stateInLen)[0];
                r.len == buf.stateInLen && Pending(buf.stateInCh, buf.stateInLen) == [r]
    {
    }

    lemma Room()
      requires Objects() && Fillable() && buf.nblock < nblockMAX && state == Input
      ensures buf.Valid() && Runs(buf.All()) && buf.nblock + 5 <= buf.block.Length && (buf.Empty() ==> buf.runs == [])
      ensures Accounted() ==> accepted == BlocksText(sent) + OriginalAll(buf.All())
    {
    }

    lemma TakingStep(given: seq<byte>, before: seq<byte>)
      requires Taking(given, before) && nextIn != []
      ensures |nextIn| <= |given|
      ensures var k := |given| - |nextIn|;
              given == given[..k + 1] + nextIn[1..] && accepted + [nextIn[0]] == before + given[..k + 1]
    {
      var k := |given| - |nextIn|;
      assert given[..k + 1] == given[..k] + [nextIn[0]];
      assert before + (given[..k] + [nextIn[0]]) == before + given[..k] + [nextIn[0]];
    }

    lemma IsAccounted(all: seq<Run>)
      requires state == Input && buf.All() == all && accepted == BlocksText(sent) + OriginalAll(all)
      ensures Accounted()
    {
    }

    lemma IsFillable()
      requires buf.Valid() && !buf.Empty() && buf.nblock <= nblockMAX + 4
      ensures Fillable()
    {
    }

    lemma IsTaking(given: seq<byte>, before: seq<byte>)
      requires |nextIn| <= |given| && given == given[..|given| - |nextIn|] + nextIn
      requires accepted == before + given[..|given| - |nextIn|]
      ensures Taking(given, before)
    {
    }

    /** copy_input_until_stop */
    method CopyInputUntilStop(ghost given: seq<byte>, ghost before: seq<byte>) returns (progressIn: bool)
      requires Objects() && Fillable() && Accounted() && state == Input && buf.nblock < nblockMAX
      requires mode != Running ==> availInExpect == |nextIn|
      requires Taking(given, before) && Cutting() && !finished
      modifies this`nextIn, this`availInExpect, this`accepted, buf, buf.block, buf.inUse
      ensures Fillable() && Accounted() && Taking(given, before) && Cutting() && (progressIn ==> Fresh())
      ensures !progressIn ==> availInExpect == old(availInExpect)
      ensures mode != Running ==> availInExpect == |nextIn|
      ensures buf.nblock < nblockMAX ==> nextIn == []
      ensures |nextIn| <= |old(nextIn)| && (progressIn <==> |nextIn| < |old(nextIn)|)
      ensures buf.nblock >= nblockMAX ==> progressIn
      ensures progressIn ==> !buf.Empty()
      ensures !progressIn ==> buf.Empty() == old(buf.Empty())
    {
      hide *;
      progressIn := false;
      while true
        invariant Fillable() && Accounted() && Taking(given, before) && Cutting() && (progressIn ==> Fresh())
        invariant !progressIn ==> availInExpect == old(availInExpect)
        invariant mode != Running ==> availInExpect == |nextIn|
        invariant |nextIn| <= |old(nextIn)| && (progressIn <==> |nextIn| < |old(nextIn)|)
        invariant buf.nblock >= nblockMAX ==> progressIn
        invariant progressIn ==> !buf.Empty()
        invariant !progressIn ==> buf.Empty() == old(buf.Empty())
        decreases |nextIn|
      {
        if buf.nblock >= nblockMAX {
          break;
        }
        if nextIn == [] {
          break;
        }
        if mode != Running && availInExpect == 0 {
          break;
        }
        progressIn := true;
        TakeByte(given, before);
      }
    }

    /** copy_output_until_stop */
    method CopyOutputUntilStop() returns (progressOut: bool)
      requires Emitted()
      modifies this`stateOutPos, this`availOut, this`out
      ensures Emitted() && (zStart + stateOutPos == |w.zbits| || availOut == 0)
      ensures old(out) <= out && |out| + availOut == |old(out)| + old(availOut)
      ensures progressOut <==> |out| > |old(out)|
      ensures old(availOut) > 0 && |old(out)| < |w.zbits| ==> progressOut
    {
      progressOut := false;
      while true
        invariant Emitted() && |out| >= |old(out)| && out[..|old(out)|] == old(out)
        invariant |out| + availOut == |old(out)| + old(availOut)
        invariant progressOut <==> |out| > |old(out)|
        invariant !progressOut ==> availOut == old(availOut)
        decreases availOut
      {
        if availOut == 0 {
          break;
        }
        if zStart + stateOutPos >= |w.zbits| {
          break;
        }
        progressOut := true;
        out := out + [w.zbits[zStart + stateOutPos]];
        stateOutPos := stateOutPos + 1;
        availOut := availOut - 1;
      }
    }

    // ---------------------------------------------------------------- one block

    lemma ObjectFacts()
      requires Objects()
      ensures 1 <= level <= 9 && buf.block.Length == 100000 * level + 34 && buf.inUse.Length == 256
      ensures nblockMAX == 100000 * level - 19
    {
    }

    /** What the buffer hands to the block coder. */
    lemma BufferFacts()
      requires Objects() && buf.Valid()
      ensures Runs(buf.runs) && buf.block[..buf.nblock] == StoredAll(buf.runs) && (buf.nblock > 0 <==> buf.runs != [])
      ensures buf.blockCRC < 0x1_0000_0000 && Finalise(buf.blockCRC) == BlockCrcOf(d.crcTable, OriginalAll(buf.runs))
      ensures AllUsed(StoredAll(buf.runs), buf.inUse[..])
      ensures |buf.inUse[..]| == 256
      ensures forall c :: 0 <= c < 256 ==> (buf.inUse[..][c] <==> c in StoredAll(buf.runs))
    {
      hide UpdateAll, OriginalAll;
      StoredNone(buf.runs);
    }

    /** The block may have changed beyond its end: the buffer is as good as before. */
    twostate lemma BufferKept()
      requires Objects() && old(buf.Valid()) && buf.block[..old(buf.nblock)] == old(buf.block[..buf.nblock])
      requires buf.inUse[..] == old(buf.inUse[..]) && unchanged(buf)
      ensures buf.Valid() && buf.All() == old(buf.All())
    {
      hide Collected, Runs;
    }

    lemma SentAccounted(before: seq<Sent>, r: Sent)
      requires Objects() && accepted == BlocksText(before) + OriginalAll(buf.All())
      requires state == Output && sent == before + [r] && r.runs == buf.runs
      requires GoodData(d) && GoodBlocks(d, level, before) && GoodBlock(d, level, r)
      ensures Accounted()
    {
      hide Objects, GoodData, GoodBlock, GoodBlocks, OriginalAll, BlocksText, Pending;
      BlocksAppend(d, level, before, r);
      PendingText(BlocksText(before), buf.runs, buf.stateInCh, buf.stateInLen);
    }

    lemma EmptyAccounted()
      requires buf.Valid() && accepted == BlocksText(sent) + OriginalAll(buf.All()) && buf.runs == [] && state == Output
      ensures Accounted()
    {
      assert [] + Pending(buf.stateInCh, buf.stateInLen) == Pending(buf.stateInCh, buf.stateInLen);
    }

    lemma EncodedFacts()
      requires Encoded() && !finished && state == Input
      ensures w.Valid() && Streamed(d, level, w.Contents(), sent, blockNo > 1, combinedCRC) && Made(sent)
      ensures blockNo <= 1 ==> sent == []
    {
    }

    lemma StreamedFacts()
      requires Streamed(d, level, w.Contents(), sent, true, combinedCRC)
      ensures GoodData(d) && GoodBlocks(d, level, sent) && combinedCRC < 0x1_0000_0000
    {
    }

    lemma IsEncoded()
      requires Made(sent)
      requires if finished then GoodData(d) && GoodBlocks(d, level, sent) && Complete(d, level, w.zbits, sent)
               else state == Output && w.Valid() && Streamed(d, level, w.Contents(), sent, true, combinedCRC)
      ensures Encoded()
    {
    }

    lemma StillEmitted(z: seq<nat>)
      requires z <= w.zbits && zStart + stateOutPos <= |z| && out == z[..zStart + stateOutPos]
      ensures Emitted()
    {
    }

    /** The stream header, before the first block. */
    method PutHeader()
      requires Objects() && w.Valid() && Streamed(d, level, w.Contents(), sent, blockNo > 1, combinedCRC)
      requires blockNo <= 1 ==> sent == []
      modifies w
      ensures w.Valid() && Streamed(d, level, w.Contents(), sent, true, combinedCRC) && old(w.zbits) <= w.zbits
    {
      assert 1 <= level <= 9;
      assert StreamHead(level) == BytesBits([0x42, 0x5a, 0x68, 0x30 + level]);
      hide *;
      if blockNo <= 1 {
        ghost var bits := w.Contents();
        PutBytes(w, [0x42, 0x5a, 0x68, 0x30 + level]);
        StreamedStart(d, level, bits, combinedCRC);
      }
    }

    /** The bits of the trailer and the padding. */
    method PutTrailerBits() returns (ghost pad: seq<bool>)
      requires w.Valid() && combinedCRC < 0x1_0000_0000
      modifies w
      ensures old(w.zbits) <= w.zbits && |pad| < 8 && Clear(pad)
      ensures BytesBits(w.zbits) == old(w.Contents()) + TrailerBits(combinedCRC) + pad
    {
      ghost var bits := w.Contents();
      BytesOk(combinedCRC);
      TrailerSum(bits, combinedCRC);
      hide *;
      PutBytes(w, END_MAGIC);
      PutBytes(w, WordBytes(combinedCRC));
      w.Finish();
      pad :| |pad| < 8 && Clear(pad) && BytesBits(w.zbits) == bits + TrailerBits(combinedCRC) + pad;
    }

    /** The stream trailer, after the last block. */
    method PutTrailer()
      requires w.Valid() && Streamed(d, level, w.Contents(), sent, true, combinedCRC)
      modifies w
      ensures old(w.zbits) <= w.zbits && |old(w.zbits)| < |w.zbits|
      ensures GoodData(d) && GoodBlocks(d, level, sent) && Complete(d, level, w.zbits, sent)
    {
      hide *;
      ghost var bits, z: seq<byte> := w.Contents(), w.zbits;
      w.Parts();
      StreamedFacts();
      ghost var pad := PutTrailerBits();
      StreamedEnd(d, level, bits, sent, combinedCRC, w.zbits, pad);
      MoreBytes(z, w.zbits, bits, combinedCRC, pad);
    }

    lemma MoreBytes(z: seq<nat>, z': seq<nat>, bits: seq<bool>, crc: nat, pad: seq<bool>)
      requires BytesBits(z) <= bits && BytesBits(z') == bits + TrailerBits(crc) + pad
      ensures |z| < |z'|
    {
      BitInput.BytesLength(z);
      BitInput.BytesLength(z');
      BitInput.BytesLength(END_MAGIC);
    }

    /** The block part: nothing is sent for an empty block. */
    method SendCollected()
      requires Objects() && buf.Valid() && accepted == BlocksText(sent) + OriginalAll(buf.All()) && state == Output
      requires w.Valid() && Streamed(d, level, w.Contents(), sent, true, combinedCRC) && buf.nblock <= nblockMAX + 9
      requires Made(sent)
      modifies this`combinedCRC, this`sent, w, buf.block
      ensures Made(sent)
      ensures buf.Valid() && Accounted() && old(w.zbits) <= w.zbits
      ensures w.Valid() && Streamed(d, level, w.Contents(), sent, true, combinedCRC)
      ensures buf.runs == [] ==> sent == old(sent)
      ensures buf.runs != [] ==> |sent| == |old(sent)| + 1 && sent == old(sent) + [sent[|old(sent)|]]
      ensures buf.runs != [] ==> sent[|old(sent)|].runs == buf.runs
    {
      hide *;
      ObjectFacts();
      BufferFacts();
      StreamedFacts();
      if buf.nblock > 0 {
        ghost var bits, before := w.Contents(), sent;
        var blockCRC := Finalise(buf.blockCRC);
        ghost var r := SendBlock(w, buf.block, buf.inUse, buf.nblock, blockCRC, workFactor, level, d, buf.runs);
        BufferKept();
        CodedIs(d, workFactor, buf.runs, buf.inUse[..]);
        MadeMore(before, r);
        StreamedMore(d, level, bits, before, combinedCRC, r);
        combinedCRC := Combine(combinedCRC, blockCRC);
        sent := before + [r];
        SentAccounted(before, r);
      } else {
        EmptyAccounted();
      }
    }

    lemma MadeMore(before: seq<Sent>, r: Sent)
      requires Made(before) && Runs(r.runs) && r == Coded(d, workFactor, r.runs)
      ensures Made(before + [r])
    {
      hide Coded, Runs;
    }

    lemma UnpackInput()
      requires Accounted() && Emitted() && state == Input
      ensures accepted == BlocksText(sent) + OriginalAll(buf.All())
      ensures zStart + stateOutPos <= |w.zbits| && out == w.zbits[..zStart + stateOutPos]
    {
    }

    /** BZ2_compressBlock, and the change of state that follows each call of it. */
    method CompressBlock(isLastBlock: bool)
      requires Objects() && buf.Valid() && Accounted() && Emitted() && Encoded() && !finished && state == Input
      requires buf.nblock <= nblockMAX + 9 && blockNo >= 1
      modifies this`combinedCRC, this`sent, this`finished, this`state, w, buf.block
      ensures buf.Valid() && Accounted() && Emitted() && Encoded() && state == Output && finished == isLastBlock
      ensures isLastBlock ==> |out| < |w.zbits|
      ensures buf.runs == [] ==> sent == old(sent)
      ensures buf.runs != [] ==> |sent| == |old(sent)| + 1 && sent == old(sent) + [sent[|old(sent)|]]
      ensures buf.runs != [] ==> sent[|old(sent)|].runs == buf.runs
    {
      hide *;
      ghost var z: seq<byte> := w.zbits;
      UnpackInput();
      EncodedFacts();
      PutHeader();
      state := Output;
      SendCollected();
      if isLastBlock {
        PutTrailer();
        finished := true;
      }
      IsEncoded();
      StillEmitted(z);
    }

    // ---------------------------------------------------------------- the two phases

    lemma Unpack()
      requires Valid()
      ensures Objects() && buf.Valid() && Accounted() && Emitted() && Encoded() && Cutting() && Late()
      ensures (state == Input ==>
               zStart == |w.zbits| && stateOutPos == 0 && Fillable() && buf.nblock < nblockMAX && !finished)
      ensures 1 <= blockNo && (mode == Flushing || mode == Finishing ==> availInExpect == |nextIn|)
      ensures mode == Idle ==> finished && zStart + stateOutPos == |w.zbits|
      ensures finished ==> (mode == Finishing || mode == Idle) && state == Output && availInExpect == 0 && buf.Empty()
      ensures state == Output && !finished && buf.Empty() ==> mode == Flushing
      ensures zStart + stateOutPos <= |w.zbits|
    {
      hide Runs, Collected, Streamed, Holds, Cutting;
    }

    lemma Pack()
      requires Objects() && buf.Valid() && Accounted() && Emitted() && Encoded() && Cutting() && Late()
      requires state == Input ==>
                zStart == |w.zbits| && stateOutPos == 0 && Fillable() && buf.nblock < nblockMAX && !finished
      requires 1 <= blockNo && (mode == Flushing || mode == Finishing ==> availInExpect == |nextIn|)
      requires mode == Idle ==> finished && zStart + stateOutPos == |w.zbits|
      requires finished ==> (mode == Finishing || mode == Idle) && state == Output && availInExpect == 0 && buf.Empty()
      requires state == Output && !finished && buf.Empty() ==> mode == Flushing
      ensures Valid()
    {
      hide Cutting;
    }

    /** After flush_RL nothing is pending. */
    twostate lemma Flushed()
      requires old(Accounted()) && old(state) == state == Input && accepted == old(accepted) && sent == old(sent)
      requires buf.runs == old(buf.All()) && buf.Empty() && buf.Valid()
      ensures Accounted()
    {
      hide Runs, Collected;
      assert buf.runs + [] == buf.runs;
    }

    /** prepare_new_block, as seen from outside the buffer. */
    method PrepareNewBlock()
      requires Objects() && buf.Valid() && Accounted() && Emitted() && Encoded() && state == Output && !finished
      requires zStart + stateOutPos == |w.zbits| && blockNo >= 1 && Cutting()
      modifies this`state, this`zStart, this`stateOutPos, this`blockNo, buf, buf.inUse
      ensures buf.Valid() && Accounted() && Emitted() && Encoded() && state == Input && Fillable() && Cutting()
      ensures buf.nblock < nblockMAX
      ensures zStart == |w.zbits| && stateOutPos == 0 && blockNo == old(blockNo) + 1 && buf.Empty() == old(buf.Empty())
    {
      hide *;
      CuttingFacts();
      NoneOpen();
      buf.Prepare();
      zStart := |w.zbits|;
      stateOutPos := 0;
      blockNo := blockNo + 1;
      state := Input;
      Prepared();
      NoneOpen();
      CuttingKept();
    }

    lemma NoneOpen()
      requires state == Output || buf.runs == []
      ensures Open() == []
    {
    }

    twostate lemma Prepared()
      requires old(Accounted()) && old(Emitted()) && old(Encoded()) && old(state) == Output && state == Input
      requires !finished
      requires accepted == old(accepted) && sent == old(sent) && combinedCRC == old(combinedCRC) && out == old(out)
      requires finished == old(finished) && unchanged(w) && Objects()
      requires buf.Valid() && buf.runs == [] && buf.nblock == 0 && buf.stateInCh == old(buf.stateInCh)
      requires buf.stateInLen == old(buf.stateInLen)
      requires old(zStart + stateOutPos) == |w.zbits| == zStart && stateOutPos == 0 && blockNo > 1
      ensures Accounted() && Emitted() && Encoded() && Fillable() && buf.nblock < nblockMAX
      ensures buf.Empty() == old(buf.Empty())
    {
      hide Runs, Collected, Streamed, Holds, OriginalAll, BlocksText;
      assert [] + Pending(buf.stateInCh, buf.stateInLen) == Pending(buf.stateInCh, buf.stateInLen);
    }

    /** The BZ_S_OUTPUT half of handle_compress. */
    method OutputPhase() returns (progressOut: bool, stop: bool)
      requires Valid() && state == Output && mode != Idle
      modifies this`availOut, this`out, this`state, this`zStart, this`stateOutPos, this`blockNo, buf, buf.inUse
      ensures Valid() && old(out) <= out && (progressOut <==> |out| > |old(out)|) && buf.Empty() == old(buf.Empty())
      ensures |out| + availOut == |old(out)| + old(availOut)
      ensures old(availOut) > 0 && |old(out)| < |w.zbits| ==> progressOut
      ensures !stop ==> state == Input && !(mode != Running && availInExpect == 0 && buf.Empty())
      ensures stop ==> (availOut == 0 && |out| < |w.zbits|)
                       || (mode == Finishing && finished && |out| == |w.zbits|)
                       || (mode == Flushing && state == Input && availInExpect == 0 && buf.Empty())
    {
      hide *;
      Unpack();
      EmittedBound();
      LateIs();
      stop := true;
      progressOut := CopyOutputUntilStop();
      EmittedBound();
      if stateOutPos < |w.zbits| - zStart {
        Pack();
        return;
      }
      if mode == Finishing && availInExpect == 0 && buf.Empty() {
        Pack();
        return;
      }
      PrepareNewBlock();
      LateIs();
      Pack();
      if mode == Flushing && availInExpect == 0 && buf.Empty() {
        return;
      }
      stop := false;
    }

    lemma EmittedBound()
      requires Emitted()
      ensures |out| == zStart + stateOutPos <= |w.zbits|
    {
    }

    /** The BZ_S_INPUT half of handle_compress. */
    method InputPhase(ghost given: seq<byte>, ghost before: seq<byte>) returns (progressIn: bool, stop: bool)
      requires Valid() && state == Input && mode != Idle && Taking(given, before)
      modifies this`nextIn, this`availInExpect, this`accepted, this`combinedCRC, this`sent, this`finished, this`state
      modifies this`since, this`first, this`asked, w, buf, buf.block, buf.inUse
      ensures Valid() && Taking(given, before)
      ensures |nextIn| <= |old(nextIn)| && (progressIn <==> |nextIn| < |old(nextIn)|)
      ensures stop ==> mode == Running && nextIn == []
      ensures finished ==> |out| < |w.zbits|
      ensures !progressIn && !finished && mode != Flushing ==> w.zbits == old(w.zbits)
      ensures !old(finished)
      ensures !stop ==> state == Output && (progressIn || (mode != Running && availInExpect == 0 && buf.Empty()))
    {
      hide *;
      Unpack();
      LateIs();
      stop := false;
      progressIn := CopyInputUntilStop(given, before);
      ObjectFacts();
      FillableFacts();
      if mode != Running && availInExpect == 0 {
        AskedBlock(progressIn);
        Pack();
      } else if buf.nblock >= nblockMAX {
        FullBlock();
        LateIs();
        Pack();
      } else if nextIn == [] {
        stop := true;
        LateIs();
        Pack();
      }
    }

    /** The last block of a flush or a finish, whose bytes are all taken. */
    method AskedBlock(ghost progressIn: bool)
      requires Objects() && Fillable() && Accounted() && Emitted() && Encoded() && !finished && state == Input
      requires blockNo >= 1 && Cutting() && (mode == Flushing || mode == Finishing) && availInExpect == 0
      requires mode == Flushing ==> flushes > 0
      requires |asked| <= flushes && (mode == Flushing && !buf.Empty() ==> |asked| < flushes)
      requires if progressIn then Fresh() && (mode == Finishing ==> offered > 0)
               else buf.nblock < nblockMAX && (mode == Finishing ==> offered == 0)
      modifies this`combinedCRC, this`sent, this`finished, this`state, this`since, this`first, this`asked
      modifies w, buf, buf.block, buf.inUse
      ensures buf.Valid() && Accounted() && Emitted() && Encoded() && Cutting() && Late() && buf.Empty()
      ensures state == Output && finished == (mode == Finishing) && (finished ==> |out| < |w.zbits|)
    {
      hide *;
      CuttingFacts();
      ghost var before, text := sent, accepted[since..];
      ghost var runs, pend := Open(), Pending(buf.stateInCh, buf.stateInLen);
      CuttingFull();
      AllParts();
      FillableFacts();
      OpenSize();
      FreshIs();
      FlushRun();
      if mode == Finishing {
        LastBlockIs(text, RunsOf(before[first..]), runs, pend);
      }
      CompressBlock(mode == Finishing);
      Ask(before, runs + pend);
    }

    /** The record of a block that was asked for. */
    ghost method Ask(before: seq<Sent>, runs: seq<Run>)
      requires first <= |before| && since <= |accepted| && (flushes == 0 ==> since == 0 && first == 0 && asked == {})
      requires FullBut(before, asked) && state == Output && buf.Valid() && buf.Empty()
      requires (mode == Flushing || mode == Finishing) && availInExpect == 0 && finished == (mode == Finishing)
      requires mode == Flushing ==> flushes > 0
      requires |asked| <= flushes && (mode == Flushing && runs != [] ==> |asked| < flushes)
      requires runs == [] ==> sent == before
      requires runs != [] ==> |sent| == |before| + 1 && sent == before + [sent[|before|]] && sent[|before|].runs == runs
      requires finished ==>
                 BlocksOf(nblockMAX, accepted[since..], offered > 0)
                 == if runs == [] then RunsOf(before[first..]) else RunsOf(before[first..]) + [runs]
      modifies this`since, this`first, this`asked
      ensures Cutting() && Late()
    {
      hide *;
      if runs != [] {
        OneMore(before, true, asked, first);
        asked := asked + {|before|};
      }
      if mode == Flushing {
        since, first := |accepted|, |sent|;
        FlushedCut();
      }
      IsCutting();
      LateIs();
    }

    /** A block that is full. */
    method FullBlock()
      requires Objects() && Fillable() && Accounted() && Emitted() && Encoded() && !finished && state == Input
      requires blockNo >= 1 && Cutting() && buf.nblock >= nblockMAX
      modifies this`combinedCRC, this`sent, this`finished, this`state, w, buf.block
      ensures buf.Valid() && Accounted() && Emitted() && Encoded() && Cutting() && state == Output && !finished
      ensures buf.Empty() == old(buf.Empty())
    {
      hide *;
      CuttingFacts();
      CuttingFull();
      FillableFacts();
      OpenSize();
      ghost var before, runs, pend := sent, buf.runs, Pending(buf.stateInCh, buf.stateInLen);
      FollowingCut(nblockMAX, accepted[since..], RunsOf(sent[first..]), runs, pend);
      FullRuns(nblockMAX, runs);
      CompressBlock(false);
      OneMore(before, false, asked, first);
      NoneOpen();
      IsCutting();
    }

    lemma FreshIs()
      ensures Fresh() <==> first <= |sent| && (Open() == [] && buf.stateInLen == 1 ==> RunsOf(sent[first..]) == [])
      ensures Pending(buf.stateInCh, buf.stateInLen) != [] ==>
                Pending(buf.stateInCh, buf.stateInLen)[0].len == buf.stateInLen
    {
    }

    /** After a flush there is nothing to cut. */
    lemma FlushedCut()
      requires since == |accepted| && first == |sent| && state == Output && buf.Empty() && buf.Valid()
      ensures Following(nblockMAX, accepted[since..], RunsOf(sent[first..]), Open(),
                        Pending(buf.stateInCh, buf.stateInLen))
    {
      FollowingStart(nblockMAX);
      assert accepted[since..] == [] && sent[first..] == [];
    }

    lemma FillableFacts()
      requires Fillable()
      ensures buf.Valid() && buf.nblock <= nblockMAX + 4 && (buf.Empty() ==> buf.runs == [])
    {
    }

    method FlushRun()
      requires Objects() && Fillable() && Accounted() && state == Input
      modifies buf, buf.block, buf.inUse
      ensures buf.Valid() && Accounted() && buf.Empty() && buf.nblock <= nblockMAX + 9 && buf.runs == old(buf.All())
    {
      hide *;
      ObjectFacts();
      FillableFacts();
      buf.Flush();
      Flushed();
    }

    // ---------------------------------------------------------------- the calls

    /** How far a flush or a finish still has to go. */
    function Flag(): (n: nat)
      reads this, buf
    {
      if mode != Running && availInExpect == 0 && buf.Empty() then 0 else 1
    }

    /**
     handle_compress.  It ends: every round but one takes input, or writes the last block that
     a flush or a finish asks for.
     */
    method HandleCompress(ghost given: seq<byte>, ghost before: seq<byte>) returns (progress: bool)
      requires Valid() && mode != Idle && Taking(given, before)
      modifies this`nextIn, this`availInExpect, this`accepted, this`combinedCRC, this`sent, this`finished, this`state
      modifies this`availOut, this`out, this`zStart, this`stateOutPos, this`blockNo, w, buf, buf.block, buf.inUse
      modifies this`since, this`first, this`asked
      ensures Valid() && Taking(given, before) && old(out) <= out && |out| + availOut == |old(out)| + old(availOut)
      ensures progress <==> |nextIn| < |old(nextIn)| || |out| > |old(out)|
      ensures mode == Running ==> nextIn == [] || availOut == 0
      ensures mode == Flushing ==>
                (availOut == 0 && |out| < |w.zbits|) || (state == Input && availInExpect == 0 && buf.Empty())
      ensures mode == Finishing ==> (availOut == 0 && |out| < |w.zbits|) || (finished && |out| == |w.zbits|)
      ensures mode == Finishing && old(Waiting()) && !progress ==> availOut == 0 && |out| < |w.zbits|
      ensures old(finished) ==> finished
      ensures |nextIn| == |old(nextIn)| && finished == old(finished) && mode != Flushing ==> w.zbits == old(w.zbits)
    {
      hide *;
      WaitingIs();
      var progressIn, progressOut := false, false;
      while true
        invariant Valid() && Taking(given, before) && old(out) <= out && mode == old(mode)
        invariant |nextIn| <= |old(nextIn)| && |out| + availOut == |old(out)| + old(availOut)
        invariant progressIn <==> |nextIn| < |old(nextIn)|
        invariant progressOut <==> |out| > |old(out)|
        invariant mode == Finishing && finished && old(Waiting()) && !progressOut ==> |out| < |w.zbits|
        invariant !progressIn && finished == old(finished) && mode != Flushing ==> w.zbits == old(w.zbits)
        invariant old(finished) ==> finished
        decreases |nextIn|, Flag(), if state == Input then 1 else 0
      {
        FlagIs();
        if state == Output {
          var p, stop := OutputPhase();
          progressOut := progressOut || p;
          if stop {
            break;
          }
        }
        FlagIs();
        var p, stop := InputPhase(given, before);
        progressIn := progressIn || p;
        FlagIs();
        if stop {
          break;
        }
      }
      progress := progressIn || progressOut;
    }

    /** A finished stream is not all out yet. */
    ghost predicate Waiting()
      reads this, w
    {
      mode == Finishing && finished ==> |out| < |w.zbits|
    }

    lemma WaitingIs()
      ensures Waiting() <==> (mode == Finishing && finished ==> |out| < |w.zbits|)
    {
    }

    lemma Amounts()
      requires Valid()
      ensures |out| <= |w.zbits| && (mode == Running ==> !finished) && (mode == Finishing ==> availInExpect == |nextIn|)
    {
      hide *;
      Unpack();
      EmittedBound();
    }

    lemma FlagIs()
      ensures Flag() == if mode != Running && availInExpect == 0 && buf.Empty() then 0 else 1
    {
    }

    /** The caller's buffers for one call. */
    method Supply(input: seq<byte>, room: nat)
      requires Valid() && (mode == Flushing || mode == Finishing ==> availInExpect == |input|)
      modifies this`nextIn, this`availOut
      ensures Valid() && nextIn == input && availOut == room
    {
      hide *;
      Unpack();
      nextIn := input;
      availOut := room;
      Pack();
    }

    method Enter(m: Mode, input: seq<byte>)
      requires Valid() && mode == Running && (m == Flushing || m == Finishing)
      modifies this`mode, this`availInExpect, this`nextIn, this`flushes, this`offered
      ensures Valid() && mode == m && availInExpect == |input| && nextIn == input && !finished
      ensures if m == Flushing then flushes == old(flushes) + 1 && offered == old(offered)
              else flushes == old(flushes) && offered == |input|
    {
      hide *;
      Unpack();
      LateIs();
      CuttingFacts();
      CuttingFull();
      if m == Flushing {
        flushes := flushes + 1;
      } else {
        offered := |input|;
      }
      IsCutting();
      availInExpect := |input|;
      nextIn := input;
      mode := m;
      LateIs();
      Pack();
    }

    method Leave(m: Mode)
      requires Valid() && (m == Running || m == Idle) && (m == Running ==> state == Input)
      requires m == Idle ==> finished && zStart + stateOutPos == |w.zbits|
      modifies this`mode
      ensures Valid() && mode == m
    {
      hide *;
      Unpack();
      LateIs();
      mode := m;
      LateIs();
      Pack();
    }

    /** The whole stream is out, and it decompresses to what was accepted. */
    ghost predicate Delivered()
      reads this`out, this`accepted
    {
      && GoodData(d) && Ok(Machine(0, Magic(0)))
      && exists pad: seq<bool> ::
           |pad| < 8 && Decompressed(d, Machine(0, Magic(0)), 0, BytesBits(out)) == Good(accepted, pad)
    }

    lemma IsDelivered()
      requires Valid() && finished && zStart + stateOutPos == |w.zbits|
      ensures Delivered() && out == w.zbits && accepted == BlocksText(sent)
    {
      DoneFacts();
      hide *;
      assert out == w.zbits;
      ghost var pad := ThePad(d, level, w.zbits, sent);
      StreamRoundTrip(d, level, sent, pad);
      DeliveredBy(pad);
    }

    lemma DoneFacts()
      requires Valid() && finished && zStart + stateOutPos == |w.zbits|
      ensures 1 <= level <= 9 && GoodData(d) && GoodBlocks(d, level, sent) && Complete(d, level, w.zbits, sent)
      ensures out == w.zbits && accepted == BlocksText(sent)
    {
      hide Runs, Collected, GoodBlocks, Complete;
      assert w.zbits[..|w.zbits|] == w.zbits;
      assert Unsent() == [] && OriginalAll([]) == [];
    }

    lemma DeliveredBy(pad: seq<bool>)
      requires GoodData(d) && Ok(Machine(0, Magic(0))) && |pad| < 8
      requires Decompressed(d, Machine(0, Magic(0)), 0, BytesBits(out)) == Good(accepted, pad)
      ensures Delivered()
    {
    }

    /** What a call has taken and given. */
    lemma TookAll(input: seq<byte>, before: seq<byte>)
      requires Taking(input, before)
      ensures |nextIn| <= |input| && accepted == before + input[..|input| - |nextIn|]
    {
    }

    /** A call that the mode does not allow, or that offers other input than was announced. */
    predicate Misused(action: Action, n: nat)
      reads this
    {
      || mode == Idle
      || (mode == Flushing && (action != FlushAction || availInExpect != n))
      || (mode == Finishing && (action != FinishAction || availInExpect != n))
    }

    lemma MisusedIs(action: Action, n: nat)
      ensures Misused(action, n) <==>
                mode == Idle || (mode == Flushing && (action != FlushAction || availInExpect != n))
                                      || (mode == Finishing && (action != FinishAction || availInExpect != n))
    {
    }

    lemma TookNone(input: seq<byte>, before: seq<byte>, out0: seq<nat>)
      requires Taking(input, before) && |nextIn| == |input| && out0 <= out && |out0| == |out|
      ensures accepted == before && out == out0
    {
    }

    /** After a flush everything accepted is in blocks, and all whole bytes of them are out. */
    lemma FlushedOut()
      requires Valid() && state == Input && buf.Empty()
      ensures out == w.zbits && accepted == BlocksText(sent)
    {
      hide *;
      Unpack();
      FlushedParts();
    }

    lemma FlushedParts()
      requires Accounted() && Emitted() && state == Input && buf.Empty() && Fillable()
      requires zStart == |w.zbits| && stateOutPos == 0
      ensures out == w.zbits && accepted == BlocksText(sent)
    {
      hide Runs, Collected;
      assert w.zbits[..|w.zbits|] == w.zbits;
      assert buf.All() == [] && OriginalAll([]) == [];
    }

    /** handle_compress, with the caller's buffers. */
    method Drive(input: seq<byte>, room: nat) returns (progress: bool)
      requires Valid() && mode != Idle && (mode == Running || availInExpect == |input|)
      modifies this`nextIn, this`availInExpect, this`accepted, this`combinedCRC, this`sent, this`finished, this`state
      modifies this`availOut, this`out, this`zStart, this`stateOutPos, this`blockNo, w, buf, buf.block, buf.inUse
      modifies this`since, this`first, this`asked
      ensures Valid() && old(out) <= out && |out| + availOut == |old(out)| + room
      ensures |nextIn| <= |input| && accepted == old(accepted) + input[..|input| - |nextIn|]
      ensures progress <==> |nextIn| < |input| || |out| > |old(out)|
      ensures !progress ==> accepted == old(accepted) && out == old(out)
      ensures mode == Running ==> nextIn == [] || availOut == 0
      ensures mode == Flushing ==>
                (availOut == 0 && |out| < |w.zbits|) || (state == Input && availInExpect == 0 && buf.Empty())
      ensures mode == Finishing ==> (availOut == 0 && |out| < |w.zbits|) || (finished && |out| == |w.zbits|)
      ensures mode == Finishing && old(Waiting()) && !progress ==> availOut == 0 && |out| < |w.zbits|
      ensures old(finished) ==> finished
      ensures |nextIn| == |input| && finished == old(finished) && mode != Flushing ==> w.zbits == old(w.zbits)
    {
      hide *;
      ghost var before, out0 := accepted, out;
      WaitingIs();
      Supply(input, room);
      WaitingIs();
      TakingStart();
      progress := HandleCompress(input, before);
      TookAll(input, before);
      if !progress {
        TookNone(input, before, out0);
      }
    }

    /** The case BZ_M_RUNNING, for BZ_RUN. */
    method Run(input: seq<byte>, room: nat) returns (r: Result)
      requires Valid() && mode == Running
      modifies this, w, buf, buf.block, buf.inUse
      ensures Valid() && mode == Running && old(out) <= out && |out| - |old(out)| <= room
      ensures r == RunOk || r == ParamError
      ensures flushes == old(flushes) && offered == old(offered)
      ensures |nextIn| <= |input| && accepted == old(accepted) + input[..|input| - |nextIn|]
      ensures r == RunOk ==> nextIn == [] || |out| == |old(out)| + room
      ensures r == RunOk ==> |nextIn| < |input| || |out| > |old(out)|
      ensures old(finished) ==> finished
      ensures |nextIn| == |input| && finished == old(finished) ==> w.zbits == old(w.zbits)
      ensures r == ParamError ==> accepted == old(accepted) && out == old(out) && (input == [] || room == 0)
    {
      hide *;
      var progress := Drive(input, room);
      return if progress then RunOk else ParamError;
    }

    /** The case BZ_M_FLUSHING, for an allowed call. */
    method Flush(input: seq<byte>, room: nat) returns (r: Result)
      requires Valid() && mode == Flushing && availInExpect == |input|
      modifies this, w, buf, buf.block, buf.inUse
      ensures Valid() && old(out) <= out && |out| - |old(out)| <= room && (r == RunOk || r == FlushOk)
      ensures flushes == old(flushes) && offered == old(offered)
      ensures |nextIn| <= |input| && accepted == old(accepted) + input[..|input| - |nextIn|]
      ensures r == FlushOk ==> mode == Flushing && |out| == |old(out)| + room && |out| < |w.zbits|
      ensures r == RunOk ==> mode == Running && nextIn == [] && out == w.zbits && accepted == BlocksText(sent)
    {
      hide *;
      var progress := Drive(input, room);
      Unpack();
      EmittedBound();
      if availInExpect > 0 || !buf.Empty() || stateOutPos < |w.zbits| - zStart {
        return FlushOk;
      }
      FlushedOut();
      Leave(Running);
      return RunOk;
    }

    /** All is out: the stream is finished. */
    method Conclude()
      requires Valid() && mode == Finishing && finished && zStart + stateOutPos == |w.zbits|
      modifies this`mode
      ensures Valid() && mode == Idle && out == w.zbits && nextIn == [] && accepted == BlocksText(sent) && Delivered()
    {
      hide *;
      Unpack();
      IsDelivered();
      assert |nextIn| == 0;
      Leave(Idle);
    }

    /** The case BZ_M_FINISHING, for an allowed call. */
    method Finish(input: seq<byte>, room: nat) returns (r: Result)
      requires Valid() && mode == Finishing && availInExpect == |input|
      modifies this, w, buf, buf.block, buf.inUse
      ensures Valid() && old(out) <= out && |out| - |old(out)| <= room
      ensures r == SequenceError || r == FinishOk || r == StreamEnd
      ensures flushes == old(flushes) && offered == old(offered)
      ensures |nextIn| <= |input| && accepted == old(accepted) + input[..|input| - |nextIn|]
      ensures r == SequenceError ==> mode == Finishing && accepted == old(accepted) && out == old(out)
      ensures r == SequenceError && old(Waiting()) ==> room == 0 && Waiting()
      ensures r == FinishOk ==> mode == Finishing && |out| == |old(out)| + room && |out| < |w.zbits|
      ensures old(finished) ==> finished
      ensures |nextIn| == |input| && finished == old(finished) ==> w.zbits == old(w.zbits)
      ensures r == StreamEnd ==>
                mode == Idle && finished && out == w.zbits && nextIn == [] && accepted == BlocksText(sent)
                && Delivered()
    {
      hide *;
      var progress := Drive(input, room);
      WaitingIs();
      if !progress {
        return SequenceError;
      }
      Unpack();
      EmittedBound();
      if availInExpect > 0 || !buf.Empty() || stateOutPos < |w.zbits| - zStart {
        return FinishOk;
      }
      Conclude();
      return StreamEnd;
    }

    /**
     BZ2_bzCompress, with `input` at next_in and room for `room` bytes at next_out.  What is
     accepted is a prefix of the input; what is given out continues the stream; and the end of
     the stream is reported only when all of it is out.

     FlushOk and FinishOk: the room was used up and there is more output.  RunOk after a flush:
     all that was accepted is in the blocks, and they are out.  ParamError: a call to run with no
     input or no room, that did nothing.  SequenceError: a call that is not allowed, or one to
     finish that got nowhere, for which there was no room.
     */
    method BzCompress(action: Action, input: seq<byte>, room: nat) returns (r: Result)
      requires Valid()
      modifies this, w, buf, buf.block, buf.inUse
      ensures Valid() && old(out) <= out && |out| - |old(out)| <= room
      ensures old(Misused(action, |input|)) ==> r == SequenceError && mode == old(mode)
      ensures r == SequenceError || r == ParamError ==> accepted == old(accepted) && out == old(out)
      ensures r == SequenceError && !old(Misused(action, |input|)) ==> action == FinishAction && mode == Finishing
      ensures r == SequenceError && !old(Misused(action, |input|)) && old(Waiting()) ==> room == 0
      ensures old(Waiting()) ==> Waiting()
      ensures r == ParamError ==> old(mode) == Running == mode && action == RunAction && (input == [] || room == 0)
      ensures r == FlushOk ==>
                action == FlushAction && mode == Flushing && |out| == |old(out)| + room && |out| < |w.zbits|
      ensures r == FinishOk ==>
                action == FinishAction && mode == Finishing && |out| == |old(out)| + room && |out| < |w.zbits|
      ensures r == RunOk ==> mode == Running && action != FinishAction
      ensures r == RunOk && action == RunAction ==> |nextIn| < |input| || |out| > |old(out)|
      ensures r == StreamEnd ==> action == FinishAction
      ensures old(finished) && r == FinishOk ==> finished
      ensures (r == RunOk && action == RunAction) || r == FinishOk ==>
                |nextIn| < |input| || finished != old(finished) || w.zbits == old(w.zbits)
      ensures r == RunOk && action == FlushAction ==> nextIn == [] && out == w.zbits && accepted == BlocksText(sent)
      ensures r != SequenceError ==> |nextIn| <= |input| && accepted == old(accepted) + input[..|input| - |nextIn|]
      ensures r == RunOk && old(mode) == Running && action == RunAction ==> nextIn == [] || |out| == |old(out)| + room
      ensures r == StreamEnd ==>
                mode == Idle && finished && out == w.zbits && nextIn == [] && accepted == BlocksText(sent)
                && Delivered()
      ensures mode == Idle && old(mode) != Idle ==> r == StreamEnd
      ensures flushes == old(flushes) + (if old(mode) == Running && action == FlushAction then 1 else 0)
      ensures offered == if old(mode) == Running && action == FinishAction then |input| else old(offered)
    {
      hide *;
      MisusedIs(action, |input|);
      WaitingIs();
      if mode == Idle {
        return SequenceError;
      }
      if mode == Running {
        if action == RunAction {
          r := Run(input, room);
          WaitingIs();
          return;
        }
        Enter(if action == FlushAction then Flushing else Finishing, input);
        WaitingIs();
      }
      if mode == Flushing {
        if action != FlushAction {
          return SequenceError;
        }
        if availInExpect != |input| {
          return SequenceError;
        }
        r := Flush(input, room);
        WaitingIs();
        return;
      }
      if action != FinishAction {
        return SequenceError;
      }
      if availInExpect != |input| {
        return SequenceError;
      }
      r := Finish(input, room);
      WaitingIs();
    }
  }

  lemma ThePad(d: Data, level: nat, bytes: seq<nat>, sent: seq<Sent>) returns (pad: seq<bool>)
    requires GoodData(d) && GoodBlocks(d, level, sent) && Complete(d, level, bytes, sent)
    ensures |pad| < 8 && Clear(pad) && BytesBits(bytes) == StreamBits(d, level, sent) + pad
  {
    pad :| |pad| < 8 && Clear(pad) && BytesBits(bytes) == StreamBits(d, level, sent) + pad;
  }

  lemma PendingText(x: seq<byte>, runs: seq<Run>, ch: nat, len: nat)
    ensures x + OriginalAll(runs + Pending(ch, len)) == x + OriginalAll(runs) + OriginalAll(Pending(ch, len))
  {
    var pend := Pending(ch, len);
    if pend == [] {
      assert runs + pend == runs && OriginalAll(pend) == [];
    } else {
      OriginalAppend(runs, pend[0]);
      assert pend == [pend[0]] && pend[1..] == [];
      assert OriginalAll(pend) == Original(pend[0]) + [] == Original(pend[0]);
      assert x + (OriginalAll(runs) + Original(pend[0])) == x + OriginalAll(runs) + Original(pend[0]);
    }
  }

  lemma StoredNone(rs: seq<Run>)
    requires Runs(rs)
    ensures StoredAll(rs) == [] <==> rs == []
  {
  }

  lemma TrailerSum(bits: seq<bool>, crc: nat)
    ensures bits + BytesBits(END_MAGIC) + BytesBits(WordBytes(crc)) == bits + TrailerBits(crc)
  {
    hide BytesBits, END_MAGIC, WordBytes;
  }
}
