/**
 Decoders that are somewhere in a compressed file: started at its beginning, or restored from an
 entry of the index (bzread.c lines 149-190 and 223-261).
 */
module Streams {

  import opened Rotation
  import opened Words
  import opened BitStrings
  import opened Parser
  import opened BlockFormat
  import opened BitInput
  import opened Stream
  import opened Decoder
  import opened RestoredHeader
  import opened BlockIndex

  /** The input is the file, or the file with a made-up header before the place where the decoder started. */
  ghost predicate Agrees(s: Decoder, w: Whole)
    reads s`input, s`in0
  {
    s.input == w.file || (s.in0 + 4 <= |w.file| == |s.input| && s.input[s.in0 + 4..] == w.file[s.in0 + 4..])
  }

  /** The made-up header, if there was one, is taken: what follows is in the file. */
  ghost predicate Settled(s: Decoder, w: Whole)
    reads s`input, s`in0, s`totalIn
  {
    s.input == w.file || s.in0 + 4 <= s.totalIn
  }

  /** The decoder writes the text of the file from its own start on. */
  ghost predicate Tracks(s: Decoder, w: Whole)
    reads s`input, s`in0, s`pend0, s`combined0, s`out0
  {
    && GoodWhole(w) && s.data == w.d && |s.input| == |w.file| && s.in0 <= |s.input| && Agrees(s, w)
    && s.out0 <= |w.text| && s.Start() == Good(w.text[s.out0..], w.rest)
  }

  /** Of a made-up header that is not taken yet, the decoder has been given the rest. */
  ghost predicate Supplied(s: Decoder, w: Whole)
    reads s`input, s`in0, s`totalIn, s`nextIn, s`out
  {
    Settled(s, w) || (s.nextIn != [] && s.totalIn + |s.nextIn| == s.in0 + 4 && s.out == [])
  }

  ghost predicate Healthy(s: Decoder, w: Whole)
    reads s, s.Footprint()
  {
    s.Valid() && s.Calm() && Tracks(s, w) && Supplied(s, w)
  }

  /** The start and the block ends of a decoder are in the index. */
  ghost predicate Recorded(out0: nat, ends: seq<BlockEnd>, ix: seq<BzIndex>)
  {
    At(ix, out0) && forall k :: 0 <= k < |ends| ==> Reaches(ix, ends[k].totalOut)
  }

  lemma RecordedFrom(out0: nat, ix: seq<BzIndex>)
    requires At(ix, out0)
    ensures Recorded(out0, [], ix)
  {
  }

  lemma RecordedGrown(out0: nat, ends: seq<BlockEnd>, ix: seq<BzIndex>, ix': seq<BzIndex>)
    requires Recorded(out0, ends, ix) && ix <= ix'
    ensures Recorded(out0, ends, ix')
  {
    hide At, Reaches;
    Grown(ix, ix');
  }

  lemma RecordedMore(out0: nat, ends: seq<BlockEnd>, ix: seq<BzIndex>, e: BlockEnd)
    requires Recorded(out0, ends, ix) && Reaches(ix, e.totalOut)
    ensures Recorded(out0, ends + [e], ix)
  {
  }

  /** A decoder that has ended is where the index has an entry. */
  lemma EndRecorded(s: Decoder, w: Whole, ix: seq<BzIndex>)
    requires Tracks(s, w) && (s.Valid() || s.Parked()) && Recorded(s.out0, s.ends, ix) && IndexValid(w, ix)
    requires s.state == Idle || s.out == []
    ensures At(ix, s.totalOut)
  {
    hide *;
    PositionIs(s, w);
    s.RunMeans();
    RecordedFacts(s.out0, s.ends, ix);
    if s.out != [] {
      EndIsAt(w, ix);
    }
  }

  lemma RecordedFacts(out0: nat, ends: seq<BlockEnd>, ix: seq<BzIndex>)
    requires Recorded(out0, ends, ix)
    ensures At(ix, out0) && forall k :: 0 <= k < |ends| ==> Reaches(ix, ends[k].totalOut)
  {
  }

  /** A decoder that lies in the cache; one whose made-up header is lost has not written anything. */
  ghost predicate Cached(s: Decoder, w: Whole, ix: seq<BzIndex>)
    reads s, s.Footprint()
  {
    s.Parked() && s.Calm() && Tracks(s, w) && Recorded(s.out0, s.ends, ix) && (Settled(s, w) || s.out == [])
  }

  lemma HealthyFacts(s: Decoder, w: Whole)
    requires Healthy(s, w)
    ensures s.Valid() && s.Calm() && Tracks(s, w) && Supplied(s, w)
  {
  }

  lemma IsHealthy(s: Decoder, w: Whole)
    requires s.Valid() && s.Calm() && Tracks(s, w) && Supplied(s, w)
    ensures Healthy(s, w)
  {
  }

  lemma IsCached(s: Decoder, w: Whole, ix: seq<BzIndex>)
    requires s.Parked() && s.Calm() && Tracks(s, w) && Recorded(s.out0, s.ends, ix) && (Settled(s, w) || s.out == [])
    ensures Cached(s, w, ix)
  {
  }

  lemma CachedFacts(s: Decoder, w: Whole, ix: seq<BzIndex>)
    requires Cached(s, w, ix)
    ensures s.Parked() && s.Calm() && Tracks(s, w) && Recorded(s.out0, s.ends, ix) && (Settled(s, w) || s.out == [])
  {
  }

  /** The decoder that is taken from the cache has its input and has not ended. */
  lemma SwapIsSound(s: Decoder, w: Whole, ix: seq<BzIndex>, curroff: nat, offset: nat)
    requires Cached(s, w, ix) && IndexValid(w, ix) && Choose(curroff, offset, ix, s.totalOut).Swap?
    ensures Settled(s, w) && s.state != Idle
  {
    hide *;
    CachedFacts(s, w, ix);
    IndexValidFacts(w, ix);
    if s.state == Idle || s.out == [] {
      EndRecorded(s, w, ix);
      NotSwapped(curroff, offset, ix, s.totalOut);
    }
  }

  lemma SettledSupplied(s: Decoder, w: Whole)
    requires Settled(s, w)
    ensures Supplied(s, w)
  {
  }

  lemma SuppliedCases(s: Decoder, w: Whole)
    requires Supplied(s, w)
    ensures Settled(s, w) || s.out == []
  {
  }

  lemma EmptySettled(s: Decoder, w: Whole)
    requires Supplied(s, w) && s.nextIn == []
    ensures Settled(s, w)
  {
  }

  lemma TracksFacts(s: Decoder, w: Whole)
    requires Tracks(s, w)
    ensures GoodWhole(w) && GoodData(s.data) && s.data == w.d && |s.input| == |w.file| && s.in0 <= |s.input|
    ensures Agrees(s, w)
    ensures s.out0 <= |w.text| && s.Start() == Good(w.text[s.out0..], w.rest)
  {
    hide Decoder.Start, Decompressed;
  }

  /** The position is a position in the text, and what was written is what the text has before it. */
  lemma PositionIs(s: Decoder, w: Whole)
    requires Tracks(s, w) && (s.Valid() || s.Parked())
    ensures s.state != Rejected && s.totalOut == s.out0 + |s.out| <= |w.text| && s.out == w.text[s.out0..s.totalOut]
    ensures s.state == Idle ==> s.totalOut == |w.text|
  {
    hide *;
    TracksFacts(s, w);
    s.RunMeans();
    var t := w.text[s.out0..];
    assert s.out <= t && |s.out| <= |t|;
    assert s.out == t[..|s.out|] == w.text[s.out0..s.totalOut];
  }

  /** Where the next bytes are: in the file. */
  lemma NextInput(s: Decoder, w: Whole, n: nat)
    requires Tracks(s, w) && Settled(s, w) && s.totalIn + n <= |w.file|
    ensures |s.input| == |w.file| && s.input[s.totalIn..s.totalIn + n] == w.file[s.totalIn..s.totalIn + n]
  {
    hide GoodWhole, Decoder.Start;
    if s.input != w.file {
      var k := s.in0 + 4;
      assert s.input[k..][s.totalIn - k..s.totalIn + n - k] == s.input[s.totalIn..s.totalIn + n];
      assert w.file[k..][s.totalIn - k..s.totalIn + n - k] == w.file[s.totalIn..s.totalIn + n];
    }
  }

  lemma OtherStates(state: State)
    ensures state == Decoding || state == Writing || state == Idle || state == Rejected
  {
  }

  lemma InputLeft(s: Decoder, w: Whole)
    requires Healthy(s, w) && s.state != Idle
    ensures s.totalIn < |w.file|
  {
    hide *;
    HealthyFacts(s, w);
    TracksFacts(s, w);
    PositionIs(s, w);
    OtherStates(s.state);
    s.MoreInput();
  }

  /** What the handler of block ends saves. */
  function Saved(e: BlockEnd): (x: BzIndex)
    requires e.bitsrem <= 8 * e.totalIn
  {
    BzIndex(e.totalOut, 8 * e.totalIn - e.bitsrem, e.crc, e.level, e.bits % Pow2(e.bitsrem))
  }

  /** The block ends of a decoder of the file are entries of its index. */
  lemma SavedOk(s: Decoder, w: Whole, e: BlockEnd)
    requires Tracks(s, w) && s.EndOk(e)
    ensures e.bitsrem < 8 && 4 <= e.totalIn && GoodData(w.d) && IndexOk(w, Saved(e))
  {
    hide GoodWhole, Decoder.Start, Decompressed, Resumes, Bits;
    BitsCount(e.totalIn, e.bitsrem, Saved(e));
    BitsMod(e.bits, e.bitsrem, e.bitsrem);
    GoodWholeData(w);
    var bits := Bits(e.bits, e.bitsrem) + BytesBits(s.input[e.totalIn..]);
    assert s.input[e.totalIn..] == w.file[e.totalIn..] by {
      if s.input != w.file {
        var k := s.in0 + 4;
        assert s.input[k..][e.totalIn - k..] == s.input[e.totalIn..];
        assert w.file[k..][e.totalIn - k..] == w.file[e.totalIn..];
      }
    }
    var text: seq<byte> :| |text| == e.totalOut - s.out0 && Resumes(w.d, s.Start(), text, e.level, e.crc, bits);
    ResumesText(w.d, s.Start(), text, e.level, e.crc, bits);
    assert w.text[s.out0..][|text|..] == w.text[e.totalOut..];
  }

  lemma GoodWholeData(w: Whole)
    requires GoodWhole(w)
    ensures GoodData(w.d)
  {
  }

  /** The input of a decoder restored from an entry of the index. */
  function MadeUp(file: seq<byte>, e: BzIndex): (s: seq<byte>)
    requires 4 <= TotalIn(e) <= |file|
    ensures |s| == |file|
  {
    var b := TotalIn(e);
    file[..b - 4] + Header(e) + file[b..]
  }

  /** `fil->inbuf[0..4]` */
  function Header(e: BzIndex): (s: seq<byte>)
    ensures |s| == 4
  {
    WordBytes(ShiftedHeader(e.blocksize, BitsRem(e), e.startbits))
  }

  /** A decoder restored from an entry of the index writes the rest of the text. */
  lemma RestoredTracks(s: Decoder, w: Whole, e: BzIndex)
    requires GoodWhole(w) && GoodData(w.d) && IndexOk(w, e) && s.data == w.d
    requires s.input == MadeUp(w.file, e) && s.in0 == TotalIn(e) - 4 && s.out0 == e.offset
    requires s.combined0 == e.crc && s.pend0 == Bits(Shr(0x42, 8 - BitsRem(e)), BitsRem(e))
    ensures Tracks(s, w)
  {
    hide GoodWhole, Decompressed, Bits, Shr, ShiftedHeader, WordBytes, Pow2;
    var b, r := TotalIn(e), BitsRem(e);
    var hdr := Header(e);
    assert s.input[b..] == w.file[b..];
    assert s.input[b - 4..] == hdr + w.file[b..];
    BytesConcat(hdr, w.file[b..]);
    RestoredFuture(w.d, e.blocksize, r, e.startbits, e.crc, BytesBits(w.file[b..]));
    assert s.pend0 + BytesBits(s.input[s.in0..]) == s.pend0 + BytesBits(hdr) + BytesBits(w.file[b..]);
  }

  lemma FromStartTracks(s: Decoder, w: Whole)
    requires GoodWhole(w) && s.data == w.d && s.input == w.file && s.in0 == 0 && s.out0 == 0 && s.combined0 == 0
    requires s.pend0 == []
    ensures Tracks(s, w) && Settled(s, w)
  {
    hide Decompressed, BytesBits;
    GoodWholeData(w);
    assert s.input[0..] == w.file && [] + BytesBits(w.file) == BytesBits(w.file) && w.text[0..] == w.text;
  }
}
