/**
 How far the compressor's output depends on how it is used: where blocks end, and which output a
 text has whatever pieces and room it is compressed with.
 */
module OneOutput {

  import opened Rotation
  import opened Words
  import opened BitStrings
  import opened MtfEncoder
  import opened Parser
  import opened BlockFormat
  import opened BitOutput
  import BitInput
  import BlockRoundTrip
  import opened RunLength
  import opened Stream
  import opened BlockSender
  import opened BlockCuts
  import opened Compressor

  // ---------------------------------------------------------------- where blocks end

  /** At least 100000 * level - 19 bytes are stored, and fewer were before the last run. */
  ghost predicate Brimming(level: nat, rs: seq<Run>)
  {
    && Runs(rs) && rs != [] && Runs(Front(rs))
    && |StoredAll(Front(rs))| < 100000 * level - 19 <= |StoredAll(rs)|
  }

  /**
   Every block but those that a flush or the finish asked for, at most one each, holds at least
   100000 * level - 19 bytes, and held fewer before the input byte that ended its last run.
   */
  lemma BlocksEndFull(c: Compressor)
    requires c.Valid()
    ensures |c.asked| <= c.flushes + (if c.finished then 1 else 0)
    ensures c.flushes == 0 ==> forall i :: i in c.asked ==> c.finished && i == |c.sent| - 1
    ensures forall i :: 0 <= i < |c.sent| && i !in c.asked ==> Brimming(c.level, c.sent[i].runs)
  {
    hide *;
    c.Unpack();
    c.LateIs();
    c.ObjectFacts();
    AskedFacts(c);
    forall i | 0 <= i < |c.sent| && i !in c.asked ensures Brimming(c.level, c.sent[i].runs) {
      SentRuns(c, i);
      FullStored(c.level, c.nblockMAX, c.sent[i].runs);
    }
  }

  lemma AskedFacts(c: Compressor)
    requires c.Cutting()
    ensures c.flushes == 0 ==> forall i :: i in c.asked ==> c.finished && i == |c.sent| - 1
    ensures forall i :: 0 <= i < |c.sent| && i !in c.asked ==> Full(c.nblockMAX, c.sent[i].runs)
  {
    hide Full, BlocksOf, Following;
  }

  lemma SentRuns(c: Compressor, i: nat)
    requires c.Encoded() && i < |c.sent|
    ensures Runs(c.sent[i].runs) && c.sent[i].runs != []
  {
    hide Complete, Coded, BlocksBits, StreamHead, StreamCrc;
    assert GoodData(c.d) && GoodBlock(c.d, c.level, c.sent[i]);
  }

  lemma FullStored(level: nat, max: nat, rs: seq<Run>)
    requires Runs(rs) && Full(max, rs) && max == 100000 * level - 19
    ensures Brimming(level, rs)
  {
    assert rs == Front(rs) + [Last(rs)];
    RunsParts(Front(rs), [Last(rs)]);
    SizeIs(rs);
    SizeIs(Front(rs));
  }

  // ---------------------------------------------------------------- the bytes of the blocks

  lemma {:induction false} BytesSame(s: seq<byte>, t: seq<byte>)
    requires BytesBits(s) == BytesBits(t)
    ensures s == t
  {
    hide Bits;
    BitInput.BytesLength(s);
    BitInput.BytesLength(t);
    if s != [] {
      assert Bits(s[0], 8) == BytesBits(s)[..8] == Bits(t[0], 8);
      assert BytesBits(s[1..]) == BytesBits(s)[8..] == BytesBits(t[1..]);
      Pow2Byte();
      ValueBits(s[0], 8);
      ValueBits(t[0], 8);
      BytesSame(s[1..], t[1..]);
    }
  }

  lemma Pow2Byte()
    ensures Pow2(8) == 256
  {
  }

  /** The same blocks give the same bytes: the padding is determined. */
  lemma CompleteSame(d: Data, level: nat, sent: seq<Sent>, s: seq<byte>, t: seq<byte>)
    requires GoodData(d) && GoodBlocks(d, level, sent) && Complete(d, level, s, sent) && Complete(d, level, t, sent)
    ensures s == t
  {
    hide *;
    var p := ThePad(d, level, s, sent);
    var q := ThePad(d, level, t, sent);
    BitInput.BytesLength(s);
    BitInput.BytesLength(t);
    var n := |StreamBits(d, level, sent)|;
    assert n + |p| == 8 * |s| && n + |q| == 8 * |t|;
    ClearSame(p, q);
    BytesSame(s, t);
  }

  lemma ClearSame(p: seq<bool>, q: seq<bool>)
    requires Clear(p) && Clear(q) && |p| == |q|
    ensures p == q
  {
  }

  // ---------------------------------------------------------------- one text, one output

  lemma Finished(c: Compressor)
    requires c.Valid() && c.mode == Idle && c.flushes == 0
    ensures 1 <= c.level <= 9 && c.nblockMAX == 100000 * c.level - 19
    ensures GoodData(c.d) && GoodBlocks(c.d, c.level, c.sent) && Complete(c.d, c.level, c.out, c.sent)
    ensures c.Made(c.sent) && RunsOf(c.sent) == BlocksOf(c.nblockMAX, c.accepted, c.offered > 0)
  {
    hide *;
    c.Unpack();
    c.ObjectFacts();
    OutIs(c);
    BlocksAre(c);
  }

  lemma OutIs(c: Compressor)
    requires c.Encoded() && c.Emitted() && c.finished && c.zStart + c.stateOutPos == |c.w.zbits|
    ensures GoodData(c.d) && GoodBlocks(c.d, c.level, c.sent) && Complete(c.d, c.level, c.out, c.sent) && c.Made(c.sent)
  {
    hide Complete, GoodBlock, Coded;
    assert c.out == c.w.zbits;
  }

  lemma BlocksAre(c: Compressor)
    requires c.Cutting() && c.finished && c.flushes == 0
    ensures RunsOf(c.sent) == BlocksOf(c.nblockMAX, c.accepted, c.offered > 0)
  {
    hide BlocksOf, Full;
    assert c.sent[0..] == c.sent && c.accepted[0..] == c.accepted;
  }

  lemma SentSame(c: Compressor, c': Compressor, i: nat)
    requires c.Made(c.sent) && c'.Made(c'.sent) && c.d == c'.d && c.workFactor == c'.workFactor
    requires i < |c.sent| && i < |c'.sent| && c.sent[i].runs == c'.sent[i].runs
    ensures c.sent[i] == c'.sent[i]
  {
    hide Coded;
  }

  /**
   Two compressors with the same level, work factor and data, given the same text in any pieces
   and with any room, without a flush, end with the same output, if and only if both or neither
   got bytes with the call to finish, or the text is not one whose last byte makes the difference.
   */
  lemma SameOut(c: Compressor, c': Compressor)
    requires c.Valid() && c'.Valid() && c.mode == Idle && c'.mode == Idle && c.flushes == 0 && c'.flushes == 0
    requires c.level == c'.level && c.workFactor == c'.workFactor && c.d == c'.d && c.accepted == c'.accepted
    ensures c.out == c'.out
            <==> ((c.offered > 0) == (c'.offered > 0) || !Joins(100000 * c.level - 19, c.accepted))
  {
    hide *;
    Finished(c);
    Finished(c');
    BlocksSame(c.nblockMAX, c.accepted);
    if (c.offered > 0) == (c'.offered > 0) || !Joins(c.nblockMAX, c.accepted) {
      assert RunsOf(c.sent) == RunsOf(c'.sent);
      forall i | 0 <= i < |c.sent| ensures c.sent[i] == c'.sent[i] {
        assert RunsOf(c.sent)[i] == RunsOf(c'.sent)[i];
        SentSame(c, c', i);
      }
      assert c.sent == c'.sent;
      CompleteSame(c.d, c.level, c.sent, c.out, c'.out);
    } else if c.offered > 0 {
      JoinedApart(c, c');
    } else {
      JoinedApart(c', c);
    }
  }

  /** One more byte in a block is another column, whatever follows. */
  lemma ColumnsDiffer(d: Data, level: nat, x: Sent, y: Sent, more: seq<bool>, more': seq<bool>)
    requires GoodData(d) && GoodBlock(d, level, x) && GoodBlock(d, level, y)
    requires |StoredAll(x.runs)| != |StoredAll(y.runs)|
    ensures SentBits(d, level, x) + more != SentBits(d, level, y) + more'
  {
    hide *;
    GoodBlockFacts(d, level, x);
    GoodBlockFacts(d, level, y);
    SentBitsAre(d, level, x);
    SentBitsAre(d, level, y);
    BlockRoundTrip.ColumnRoundTrip(level, x.body, LastColumn(StoredAll(x.runs), x.order), more);
    BlockRoundTrip.ColumnRoundTrip(level, y.body, LastColumn(StoredAll(y.runs), y.order), more');
  }

  lemma {:induction false} BlocksSplit(d: Data, level: nat, rs: seq<Sent>, k: nat)
    requires GoodData(d) && GoodBlocks(d, level, rs) && k < |rs|
    ensures GoodBlocks(d, level, rs[..k]) && GoodBlock(d, level, rs[k]) && GoodBlocks(d, level, rs[k + 1..])
    ensures BlocksBits(d, level, rs)
            == BlocksBits(d, level, rs[..k]) + (SentBits(d, level, rs[k]) + BlocksBits(d, level, rs[k + 1..]))
  {
    hide GoodBlock, SentBits;
    if k > 0 {
      BlocksSplit(d, level, rs[1..], k - 1);
      assert rs[1..][..k - 1] == rs[..k][1..] && rs[1..][k..] == rs[k + 1..];
      var a, b, e := SentBits(d, level, rs[0]), BlocksBits(d, level, rs[..k][1..]), SentBits(d, level, rs[k]);
      assert a + (b + (e + BlocksBits(d, level, rs[k + 1..]))) == a + b + (e + BlocksBits(d, level, rs[k + 1..]));
    }
  }

  lemma FrontGone(a: seq<bool>, b: seq<bool>, x: seq<bool>, y: seq<bool>)
    requires a + b + x == a + b + y
    ensures x == y
  {
    var n := |a + b|;
    assert (a + b + x)[n..] == x && (a + b + y)[n..] == y;
  }

  /** From block `k` on, the bits of a stream. */
  lemma StreamFrom(d: Data, level: nat, rs: seq<Sent>, k: nat, pad: seq<bool>)
    requires GoodData(d) && GoodBlocks(d, level, rs) && k < |rs|
    ensures GoodBlocks(d, level, rs[..k]) && GoodBlock(d, level, rs[k]) && GoodBlocks(d, level, rs[k + 1..])
    ensures StreamBits(d, level, rs) + pad
            == StreamHead(level) + BlocksBits(d, level, rs[..k])
               + (SentBits(d, level, rs[k])
                  + (BlocksBits(d, level, rs[k + 1..]) + TrailerBits(StreamCrc(0, rs)) + pad))
  {
    hide *;
    BlocksSplit(d, level, rs, k);
    StreamIs(d, level, rs);
    Regroup(StreamHead(level), BlocksBits(d, level, rs[..k]), SentBits(d, level, rs[k]),
            BlocksBits(d, level, rs[k + 1..]),
            TrailerBits(StreamCrc(0, rs)), pad);
  }

  lemma StreamIs(d: Data, level: nat, rs: seq<Sent>)
    requires GoodData(d) && GoodBlocks(d, level, rs)
    ensures StreamBits(d, level, rs) == StreamHead(level) + BlocksBits(d, level, rs) + TrailerBits(StreamCrc(0, rs))
  {
  }

  lemma Regroup(h: seq<bool>, p: seq<bool>, s: seq<bool>, m: seq<bool>, t: seq<bool>, e: seq<bool>)
    ensures h + (p + (s + m)) + t + e == h + p + (s + (m + t + e))
  {
  }

  /** The block that was joined by the last byte, or not: the outputs differ. */
  lemma JoinedApart(c: Compressor, c': Compressor)
    requires c.Valid() && c'.Valid() && c.mode == Idle && c'.mode == Idle && c.flushes == 0 && c'.flushes == 0
    requires c.level == c'.level && c.workFactor == c'.workFactor && c.d == c'.d && c.accepted == c'.accepted
    requires c.offered > 0 && c'.offered == 0 && Joins(c.nblockMAX, c.accepted)
    ensures c.out != c'.out
  {
    hide *;
    Finished(c);
    Finished(c');
    var k := JoinedAt(c.nblockMAX, c.accepted, RunsOf(c.sent), RunsOf(c'.sent));
    forall i | 0 <= i < k ensures c.sent[i] == c'.sent[i] {
      assert RunsOf(c.sent)[i] == RunsOf(c'.sent)[i];
      SentSame(c, c', i);
    }
    assert c.sent[..k] == c'.sent[..k];
    var pad := ThePad(c.d, c.level, c.out, c.sent);
    var pad' := ThePad(c.d, c.level, c'.out, c'.sent);
    StreamFrom(c.d, c.level, c.sent, k, pad);
    StreamFrom(c.d, c.level, c'.sent, k, pad');
    var more := BlocksBits(c.d, c.level, c.sent[k + 1..]) + TrailerBits(StreamCrc(0, c.sent)) + pad;
    var more' := BlocksBits(c.d, c.level, c'.sent[k + 1..]) + TrailerBits(StreamCrc(0, c'.sent)) + pad';
    BlockRuns(c.d, c.level, c.sent[k]);
    BlockRuns(c.d, c.level, c'.sent[k]);
    OneRunMore(c'.sent[k].runs, c.sent[k].runs);
    ColumnsDiffer(c.d, c.level, c.sent[k], c'.sent[k], more, more');
    if c.out == c'.out {
      FrontGone(StreamHead(c.level), BlocksBits(c.d, c.level, c.sent[..k]), SentBits(c.d, c.level, c.sent[k]) + more,
                SentBits(c.d, c.level, c'.sent[k]) + more');
    }
  }

  lemma BlockRuns(d: Data, level: nat, r: Sent)
    requires GoodData(d) && GoodBlock(d, level, r)
    ensures Runs(r.runs)
  {
    GoodBlockFacts(d, level, r);
  }

  lemma OneRunMore(rs: seq<Run>, rs': seq<Run>)
    requires Runs(rs') && |rs'| == |rs| + 1 && rs' == rs + [rs'[|rs|]]
    ensures Runs(rs) && |StoredAll(rs')| != |StoredAll(rs)|
  {
    RunsParts(rs, [rs'[|rs|]]);
    StoredAppend(rs, rs'[|rs|]);
  }

  /** Where the two lists of blocks part. */
  lemma JoinedAt(max: nat, text: seq<byte>, bs: seq<seq<Run>>, bs': seq<seq<Run>>) returns (k: nat)
    requires Joins(max, text) && bs == BlocksOf(max, text, true) && bs' == BlocksOf(max, text, false)
    ensures k < |bs| && k < |bs'| && bs[..k] == bs'[..k] && |bs[k]| == |bs'[k]| + 1
    ensures bs[k] == bs'[k] + [bs[k][|bs'[k]|]]
  {
    hide CutAll, Split;
    k := |CutAll(max, Front(Split(text))).blocks| - 1;
  }
}
