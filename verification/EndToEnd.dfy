/**
 The two sides together: what is compressed by any calls and decompressed by any calls, or read at
 any offset, is what was given.
 */
module EndToEnd {

  import opened Rotation
  import opened Mtf
  import opened BlockFormat
  import opened Parser
  import opened Stream
  import opened Compressor
  import opened BlockCuts
  import opened OneOutput
  import opened StreamTexts
  import opened Decoder
  import opened BlockIndex

  /**
   A decoder of a finished compressor's output, whatever pieces either was used with: it never
   reports an error, it never waits for input that does not come, what it has written is the
   beginning of what was compressed, and when it has ended it is all of it.
   */
  lemma RoundTrip(c: Compressor, s: Decoder)
    requires c.Delivered() && s.Valid() && s.data == c.d && s.input == c.out && s.in0 == 0 && s.pend0 == []
    requires s.combined0 == 0
    ensures s.state != Rejected && s.out <= c.accepted
    ensures s.state.Idle? ==> s.out == c.accepted && |s.Ahead()| < 8
    ensures s.state == Decoding && s.Hungry() ==> s.totalIn < |c.out|
  {
    hide *;
    s.RunMeans();
    DeliveredStart(c, s);
    if s.state == Decoding && s.Hungry() && s.totalIn == |s.input| {
      s.Starved();
    }
  }

  lemma DeliveredStart(c: Compressor, s: Decoder)
    requires c.Delivered() && s.data == c.d && s.input == c.out && s.in0 == 0 && s.pend0 == [] && s.combined0 == 0
    ensures GoodData(s.data) && s.in0 <= |s.input| && s.Start().Good? && s.Start().text == c.accepted
    ensures |s.Start().rest| < 8
  {
    hide Decompressed, BytesBits;
    assert s.input[0..] == c.out;
    assert [] + BytesBits(c.out) == BytesBits(c.out);
  }

  /** A finished compressor's output is a file for random access, with what was compressed as its text. */
  lemma FileOfCompressor(c: Compressor, file: seq<byte>) returns (w: Whole)
    requires c.Delivered() && file == c.out
    ensures GoodWhole(w) && w.file == file && w.text == c.accepted && w.d == c.d
  {
    hide Decompressed, BytesBits;
    var pad: seq<bool> :| |pad| < 8
        && Decompressed(c.d, Machine(0, Magic(0)), 0, BytesBits(c.out)) == Good(c.accepted, pad);
    w := Whole(c.d, file, c.accepted, pad);
  }

  /**
   What a decoder makes of its input, whatever pieces it got: when it has ended, its input was a
   stream of blocks and it wrote the text of it; and it reports no error for such a stream.
   */
  lemma DecodesExactly(s: Decoder)
    requires s.Valid() && s.in0 == 0 && s.pend0 == [] && s.combined0 == 0
    ensures GoodData(s.data)
    ensures s.state.Idle? ==> exists level, ps :: IsStream(s.data, level, ps, BytesBits(s.input), s.out, s.Ahead())
    ensures forall level, ps, text, rest ::
              IsStream(s.data, level, ps, BytesBits(s.input), text, rest) ==> s.state != Rejected && s.out <= text
  {
    hide *;
    s.RunMeans();
    StartOf(s);
    if s.state.Idle? {
      StreamExactly(s.data, BytesBits(s.input), s.out, s.Ahead());
    }
    forall level, ps, text, rest | IsStream(s.data, level, ps, BytesBits(s.input), text, rest)
      ensures s.state != Rejected && s.out <= text
    {
      StreamExactly(s.data, BytesBits(s.input), text, rest);
    }
  }

  lemma StartOf(s: Decoder)
    requires GoodData(s.data) && s.in0 == 0 && s.pend0 == [] && s.combined0 == 0
    ensures Ok(Machine(0, Magic(0))) && s.Start() == Decompressed(s.data, Machine(0, Magic(0)), 0, BytesBits(s.input))
  {
    FirstOk();
    hide Decompressed, BytesBits;
    assert s.input[0..] == s.input && [] + BytesBits(s.input) == BytesBits(s.input);
  }

  // ---------------------------------------------------------------- callers

  /** Gives all but the last `kept` bytes of `text` by calls to run. */
  method RunAll(c: Compressor, text: seq<byte>, kept: nat, piece: nat -> nat, room: nat -> nat) returns (k: nat)
    requires c.Valid() && c.mode == Running && c.accepted == [] && kept <= |text|
    modifies c, c.w, c.buf, c.buf.block, c.buf.inUse
    ensures c.Valid() && c.mode == Running && c.flushes == old(c.flushes)
    ensures c.accepted == text[..|text| - kept]
  {
    hide *;
    c.Amounts();
    var rest := text;
    k := 0;
    while |rest| > kept
      invariant c.Valid() && c.mode == Running && kept <= |rest| && c.accepted + rest == text && |c.out| <= |c.w.zbits|
      invariant !c.finished && c.flushes == old(c.flushes)
      decreases |rest|, |c.w.zbits| - |c.out|
    {
      var n := Least(1 + piece(k), |rest| - kept);
      c.MisusedIs(RunAction, n);
      ghost var before := c.accepted;
      var r := c.BzCompress(RunAction, rest[..n], 1 + room(k));
      c.Amounts();
      TakenOff(text, before, rest, n, n - |c.nextIn|);
      rest := rest[n - |c.nextIn|..];
      k := k + 1;
    }
    assert c.accepted == (c.accepted + rest)[..|text| - kept];
  }

  /** Gives the rest by calls to finish, until the end of the stream is reported. */
  method FinishAll(c: Compressor, rest0: seq<byte>, room: nat -> nat, k0: nat)
    requires c.Valid() && c.mode == Running
    modifies c, c.w, c.buf, c.buf.block, c.buf.inUse
    ensures c.Delivered() && c.accepted == old(c.accepted) + rest0 && c.mode == Mode.Idle
    ensures c.Valid() && c.flushes == old(c.flushes) && c.offered == |rest0|
  {
    hide *;
    c.WaitingIs();
    c.Amounts();
    var rest, k, ended := rest0, k0, false;
    ghost var text := c.accepted + rest0;
    while !ended
      invariant c.Valid() && c.accepted + rest == text && |c.out| <= |c.w.zbits| && c.flushes == old(c.flushes)
      invariant if c.mode == Running then rest == rest0 else c.offered == |rest0|
      invariant if ended then c.Delivered() && rest == [] && c.mode == Mode.Idle
                else c.Waiting() && (c.mode == Running || (c.mode == Finishing && c.availInExpect == |rest|))
      decreases !ended, |rest|, !c.finished, |c.w.zbits| - |c.out|
    {
      c.MisusedIs(FinishAction, |rest|);
      ghost var before := c.accepted;
      var r := c.BzCompress(FinishAction, rest, 1 + room(k));
      c.Amounts();
      assert rest[..|rest|] == rest;
      TakenOff(text, before, rest, |rest|, |rest| - |c.nextIn|);
      rest := rest[|rest| - |c.nextIn|..];
      ended := r == StreamEnd;
      k := k + 1;
    }
    assert c.accepted == text;
  }

  /**
   Compresses `text` in any pieces into any room: all but the last `kept` bytes by calls to run, the
   rest by calls to finish, until the end of the stream is reported.
   */
  method CompressAll(c: Compressor, text: seq<byte>, kept: nat, piece: nat -> nat, room: nat -> nat)
    requires c.Valid() && c.mode == Running && c.accepted == [] && kept <= |text|
    modifies c, c.w, c.buf, c.buf.block, c.buf.inUse
    ensures c.Delivered() && c.accepted == text && c.mode == Mode.Idle
    ensures c.Valid() && c.flushes == old(c.flushes) && c.offered == kept
  {
    hide *;
    var k := RunAll(c, text, kept, piece, room);
    FinishAll(c, text[|text| - kept..], room, k);
    assert text[..|text| - kept] + text[|text| - kept..] == text;
  }

  function Least(a: nat, b: nat): (m: nat)
    ensures m <= a && m <= b && (m == a || m == b)
  {
    if a < b then a else b
  }

  lemma TakenOff(text: seq<byte>, before: seq<byte>, rest: seq<byte>, n: nat, k: nat)
    requires before + rest == text && k <= n <= |rest|
    ensures before + rest[..n][..k] + rest[k..] == text
  {
    assert rest[..n][..k] == rest[..k];
    assert before + (rest[..k] + rest[k..]) == before + rest[..k] + rest[k..];
  }

  /**
   Decompresses a valid stream in any pieces into any room: after finitely many calls the end is
   reported, and then the text is out.
   */
  method DecompressAll(s: Decoder, input: seq<byte>, piece: nat -> nat, room: nat -> nat)
    requires s.input == input && s.Valid() && s.Calm() && s.state != Rejected && GoodData(s.data) && s.in0 <= |s.input|
    requires s.Start().Good?
    modifies s, s.Footprint()
    ensures s.Valid() && s.state.Idle? && s.out == s.Start().text && s.Ahead() == s.Start().rest
    ensures s.Start() == old(s.Start())
  {
    hide *;
    ghost var start := s.Start();
    s.RunMeans();
    s.FootprintIs();
    var k := 0;
    while s.state != State.Idle
      invariant s.Valid() && s.Calm() && s.state != Rejected && GoodData(s.data) && s.in0 <= |s.input|
      invariant s.Start() == start
      invariant s.input == input && s.totalIn <= |input| && s.out <= start.text
      invariant s.state == State.Idle ==> start == Good(s.out, s.Ahead())
      invariant s.ex == old(s.ex) || (s.ex != null && fresh(s.ex.Owns()))
      decreases s.state != State.Idle, |input| - s.totalIn + |start.text| - |s.out|
    {
      s.FootprintIs();
      s.MoreInput();
      var n := Least(1 + piece(k), |input| - s.totalIn);
      s.Feed(input[s.totalIn..s.totalIn + n]);
      s.SetRoom(1 + room(k));
      var r := s.BzDecompress();
      s.RunMeans();
      NoneLeft(s);
      k := k + 1;
    }
  }

  lemma NoneLeft(s: Decoder)
    ensures s.Hungry() ==> s.nextIn == []
  {
  }

  /**
   One text compressed twice, with the same level, work factor and data but in other pieces and
   with other room: the outputs are the same, unless just one of the two kept something for the
   calls to finish and the last byte makes the difference.
   */
  method CompressTwice(text: seq<byte>, level: nat, workFactor: int, d: Data, kept1: nat, piece1: nat -> nat,
                       room1: nat -> nat, kept2: nat, piece2: nat -> nat, room2: nat -> nat)
    returns (out1: seq<byte>, out2: seq<byte>)
    requires 1 <= level <= 9 && GoodData(d) && kept1 <= |text| && kept2 <= |text|
    ensures out1 == out2 <==> ((kept1 > 0) == (kept2 > 0) || !Joins(100000 * level - 19, text))
  {
    hide *;
    var c1 := new Compressor(level, workFactor, d);
    CompressAll(c1, text, kept1, piece1, room1);
    var c2 := new Compressor(level, workFactor, d);
    CompressAll(c2, text, kept2, piece2, room2);
    SameOut(c1, c2);
    out1, out2 := c1.out, c2.out;
  }

  /** For every level there is a text that is compressed to two outputs. */
  method TwoOutputs(level: nat, workFactor: int, d: Data) returns (text: seq<byte>, out1: seq<byte>, out2: seq<byte>)
    requires 1 <= level <= 9 && GoodData(d)
    ensures |text| == 100000 * level - 18 && Joins(100000 * level - 19, text) && out1 != out2
  {
    hide *;
    text := Alternating(100000 * level - 18);
    AlternatingJoins(100000 * level - 19);
    out1, out2 := CompressTwice(text, level, workFactor, d, 0, n => n, n => n, 1, n => n, n => n);
  }

  /**
   What is compressed comes back: for every text, level and work factor, with any pieces and any
   room on either side, and with either way of decompressing, both sides end and give the text.
   */
  method CompressDecompress(text: seq<byte>, level: nat, workFactor: int, small: bool, d: Data, kept: nat,
                            piece1: nat -> nat, room1: nat -> nat, piece2: nat -> nat, room2: nat -> nat)
    returns (file: seq<byte>, back: seq<byte>)
    requires 1 <= level <= 9 && GoodData(d) && kept <= |text|
    ensures back == text
  {
    hide *;
    var c := new Compressor(level, workFactor, d);
    CompressAll(c, text, kept, piece1, room1);
    file := c.out;
    var s := new Decoder(d, small, file);
    NoPending(s);
    DeliveredStart(c, s);
    DecompressAll(s, file, piece2, room2);
    back := s.out;
  }

  lemma NoPending(s: Decoder)
    requires s.Untouched() && s.bsLive == 0 && s.combined == 0 && s.totalIn == 0
    ensures s.in0 == 0 && s.pend0 == [] && s.combined0 == 0 && s.state != Rejected
    ensures s.Footprint() == s.Work()
  {
    hide Parse;
  }
}
