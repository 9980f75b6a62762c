/**
 Reading at an offset of a compressed file (bzread.c lines 87-220 and 264-502):
 the handle's decoder, the index and the one cached decoder, and what a read returns.
 */
module RandomAccess {

  import opened Rotation
  import opened Words
  import opened BitStrings
  import opened Parser
  import opened BlockFormat
  import opened Stream
  import opened Decoder
  import opened RestoredHeader
  import opened BlockIndex
  import opened Streams
  import Unrle

  const INBUFSIZE := 16384
  const OUTBUFSIZE := 32768
  const MAXOFF := 0x7fff_ffff_ffff_ffff

  datatype Reading = Bytes(s: seq<byte>) | Eio

  /** The bytes that a read should return. */
  function Slice(text: seq<byte>, offset: nat, n: nat): (s: seq<byte>)
  {
    if offset >= |text| then [] else text[offset..if offset + n <= |text| then offset + n else |text|]
  }

  lemma SliceIs(text: seq<byte>, offset: nat, n: nat, to: nat)
    requires offset <= to <= |text| && to - offset <= n && (to - offset == n || to == |text|)
    ensures Slice(text, offset, n) == text[offset..to]
  {
  }

  lemma SliceEmpty(text: seq<byte>, offset: nat, n: nat)
    ensures Slice(text, offset, n) == [] <==> n == 0 || offset >= |text|
  {
  }

  /** The decoder cache, a static variable of the source, and the numbers given to caches. */
  class StreamCache {
    var id: nat
    var s: Decoder?
    var nextId: nat
    ghost var caches: map<nat, BzCache>

    /** The cached decoder's own cache. */
    ghost function Home(): (s: set<object>)
      reads this`id, this`caches
    {
      if id in caches then {caches[id]} else {}
    }

    ghost predicate Numbered()
      reads this`nextId, this`caches
    {
      nextId > 0 && forall k :: k in caches ==> 0 < k < nextId && caches[k].id == k
    }

    ghost predicate Valid()
      reads this, Home(), s, (if s == null then {} else s.Footprint())
    {
      && Numbered()
      && (if s == null then id == 0 else id in caches && Cached(s, caches[id].w, caches[id].indexes))
    }

    constructor ()
      ensures Valid() && s == null && caches == map[]
    {
      id, s, nextId, caches := 0, null, 1, map[];
    }

    /** av_bzcache_new, for a file that is `w`. */
    method NewCache(ghost w: Whole) returns (zc: BzCache)
      requires Valid() && GoodWhole(w)
      modifies this`nextId, this`caches
      ensures Valid() && fresh(zc) && zc.Valid() && zc.w == w && zc.indexes == [] && Knows(zc) && zc.id !in old(caches)
      ensures caches == old(caches)[zc.id := zc]
    {
      hide Cached, BzCache.Valid, GoodWhole;
      assert s != null ==> s.Footprint() == s.Footprint();
      zc := new BzCache(nextId, w);
      caches := caches[nextId := zc];
      nextId := nextId + 1;
    }

    /**
     bzfile_scache_save, for a decoder of the cache's file.  The decoder's input buffer belongs to
     the handle, which will use it for something else.
     */
    method Save(zc: BzCache, st: Decoder)
      requires Valid() && Knows(zc) && Healthy(st, zc.w) && Recorded(st.out0, st.ends, zc.indexes)
      modifies this`id, this`s, st`nextIn
      ensures Valid() && s == st && id == zc.id
    {
      hide *;
      CachedHere();
      KnowsFacts(zc);
      HealthyFacts(st, zc.w);
      SuppliedCases(st, zc.w);
      NotInside(st);
      var buffer: seq<byte> := *;
      st.Park(buffer);
      id := zc.id;
      s := st;
      IsCached(st, zc.w, zc.indexes);
      NowCached();
    }

    lemma NotInside(st: Decoder)
      ensures this !in st.Footprint()
    {
    }

    lemma NowCached()
      requires Numbered() && s != null && id in caches && Cached(s, caches[id].w, caches[id].indexes)
      ensures Valid()
    {
    }

    lemma NoneCached()
      requires Numbered() && s == null && id == 0
      ensures Valid()
    {
    }

    lemma CachedHere()
      requires Valid()
      ensures Numbered() && (s == null ==> id == 0)
      ensures s != null ==> id in caches && Cached(s, caches[id].w, caches[id].indexes)
    {
    }

    /** Where the decoder of this file is that can be had, or -1. */
    function Position(zc: BzCache): (p: int)
      reads this`id, this`s, (if s == null then {} else {s})
    {
      if s != null && id == zc.id then s.totalOut else -1
    }

    /** The number stands for the cache. */
    ghost predicate Knows(zc: BzCache)
      reads this`caches
    {
      zc.id in caches && caches[zc.id] == zc && zc.id != 0
    }

    lemma KnowsFacts(zc: BzCache)
      requires Knows(zc)
      ensures zc.id in caches && caches[zc.id] == zc && zc.id != 0
      ensures Position(zc) == if s != null && id == zc.id then s.totalOut else -1
    {
    }
  }

  lemma CachedGrown(s: Decoder, w: Whole, ix: seq<BzIndex>, ix': seq<BzIndex>)
    requires Cached(s, w, ix) && ix <= ix'
    ensures Cached(s, w, ix')
  {
    hide *;
    CachedFacts(s, w, ix);
    RecordedGrown(s.out0, s.ends, ix, ix');
    IsCached(s, w, ix');
  }

  lemma SavedIs(e: BlockEnd)
    requires e.bitsrem <= 8 * e.totalIn
    ensures Saved(e) == BzIndex(e.totalOut, 8 * e.totalIn - e.bitsrem, e.crc, e.level, e.bits % Pow2(e.bitsrem))
  {
  }

  lemma SuppliedAhead(s: Decoder, w: Whole)
    requires Supplied(s, w)
    ensures s.input == w.file || s.in0 + 4 <= s.totalIn + |s.nextIn|
  {
  }

  /** After a call of the decoder a made-up header is taken. */
  lemma AfterCall(s: Decoder, w: Whole)
    requires s.Valid() && s.Calm() && Tracks(s, w) && (s.input == w.file || s.in0 + 4 <= s.totalIn + |s.nextIn|)
    requires s.state == Decoding ==> s.Hungry()
    ensures Settled(s, w) && Healthy(s, w) && (s.state == Decoding ==> s.nextIn == [])
  {
    hide *;
    PositionIs(s, w);
    s.HeaderTaken();
    if s.state == Decoding {
      HungryFacts(s);
    } else {
      OtherStates(s.state);
    }
    IsSettled(s, w);
    SettledSupplied(s, w);
    IsHealthy(s, w);
  }

  lemma HungryFacts(s: Decoder)
    requires s.Hungry()
    ensures s.nextIn == []
  {
  }

  lemma IsSettled(s: Decoder, w: Whole)
    requires s.input == w.file || s.in0 + 4 <= s.totalIn
    ensures Settled(s, w)
  {
  }

  /** A new decoder is at the start of its file. */
  lemma AtStart(s: Decoder, w: Whole, ix: seq<BzIndex>)
    requires GoodWhole(w) && s.Untouched() && s.Calm() && s.data == w.d && s.input == w.file
    requires s.totalIn == 0 && s.totalOut == 0 && s.combined == 0 && s.bsLive == 0
    ensures Healthy(s, w) && Recorded(s.out0, s.ends, ix)
  {
    UntouchedStart(s);
    s.UntouchedValid();
    hide *;
    FromStartTracks(s, w);
    SettledSupplied(s, w);
    IsHealthy(s, w);
    StartIsAt(ix);
    RecordedFrom(0, ix);
  }

  lemma StartIsAt(ix: seq<BzIndex>)
    ensures At(ix, 0)
  {
  }

  lemma EntryIsAt(ix: seq<BzIndex>, e: BzIndex)
    requires e in ix
    ensures At(ix, e.offset)
  {
  }

  lemma UntouchedStart(s: Decoder)
    requires s.Untouched()
    ensures s.in0 == s.totalIn && s.out0 == s.totalOut && s.combined0 == s.combined
    ensures s.pend0 == Bits(s.bsBuff, s.bsLive)
    ensures s.bsLive == 0 ==> s.pend0 == []
    ensures s.ex == null && s.state == Decoding && s.out == [] && s.ends == []
  {
  }

  lemma IsSupplied(s: Decoder, w: Whole)
    requires s.totalIn == s.in0 && |s.nextIn| == 4 && s.out == []
    ensures Supplied(s, w)
  {
  }

  lemma Sizes()
    ensures INBUFSIZE > 0 && OUTBUFSIZE > 0
  {
  }

  // ---------------------------------------------------------------- the handle and the cache apart

  /** Two decoders have nothing in common. */
  ghost predicate Apart(a: Decoder, b: Decoder?)
    reads a`ex, (if b == null then {} else {b})`ex
  {
    b == null || (a != b && a.Footprint() !! b.Footprint())
  }

  lemma ApartFacts(a: Decoder, b: Decoder)
    requires Apart(a, b)
    ensures a != b && a.Footprint() !! b.Footprint() && Apart(b, a)
    ensures a !in a.Footprint() && a !in b.Footprint() && b !in a.Footprint() && b !in b.Footprint()
    ensures forall o :: o in b.Footprint() ==> allocated(o)
  {
  }

  lemma CacheFacts(zc: BzCache)
    requires zc.Valid()
    ensures IndexValid(zc.w, zc.indexes) && GoodWhole(zc.w) && GoodData(zc.w.d)
    ensures zc.size == -1 || zc.size == |zc.w.text|
  {
    hide Decompressed;
  }

  /** A handle. */
  class BzFile {
    const infile: seq<byte>
    /** The cache of the file's node; the handle is used with no other (modules/ubz2.c lines 22-32 and 187). */
    const cache: BzCache
    ghost const w: Whole
    var s: Decoder
    var iseof: bool
    var iserror: bool
    /** The number of the last cache used. */
    var id: nat

    ghost predicate Valid()
      reads this`s, this`iseof, this`id, s, s.Footprint(), cache
    {
      && infile == w.file && cache.w == w && cache.Valid() && cache.id != 0 && (id == 0 || id == cache.id)
      && Healthy(s, w) && Recorded(s.out0, s.ends, cache.indexes) && (s.state == Idle ==> iseof)
      && (iseof ==> cache.size != -1)
    }

    /** av_bzfile_new */
    constructor (data: Data, file: seq<byte>, zc: BzCache)
      requires zc.Valid() && zc.id != 0 && zc.w.d == data && zc.w.file == file
      ensures Valid() && fresh(s) && fresh(s.Footprint()) && cache == zc && w == zc.w && !iseof && !iserror && id == 0
      ensures s.totalOut == 0
    {
      hide *;
      CacheFacts(zc);
      infile, cache, w, iseof, iserror, id := file, zc, zc.w, false, false, 0;
      s := new Decoder(data, false, file);
      new;
      AtStart(s, w, zc.indexes);
      UntouchedStart(s);
      s.FootprintIs();
      IsValid();
    }

    /** Handle and cache are not parts of the decoder. */
    lemma Outside()
      ensures this !in s.Footprint() && cache !in s.Footprint() && s !in s.Footprint()
      ensures forall o :: o in s.Footprint() ==> allocated(o)
    {
    }

    lemma ValidParts()
      requires Valid()
      ensures infile == w.file && cache.w == w && cache.Valid() && cache.id != 0 && (id == 0 || id == cache.id)
      ensures Healthy(s, w) && Recorded(s.out0, s.ends, cache.indexes) && (s.state == Idle ==> iseof)
      ensures iseof ==> cache.size != -1
    {
    }

    lemma IsValid()
      requires infile == w.file && cache.w == w && cache.Valid() && cache.id != 0 && (id == 0 || id == cache.id)
      requires Healthy(s, w) && Recorded(s.out0, s.ends, cache.indexes) && (s.state == Idle ==> iseof)
      requires iseof ==> cache.size != -1
      ensures Valid()
    {
    }

    lemma ValidFacts()
      requires Valid()
      ensures infile == w.file && s.Valid() && s.Calm() && Tracks(s, w) && Supplied(s, w)
      ensures s.totalOut == s.out0 + |s.out| <= |w.text| && s.out == w.text[s.out0..s.totalOut] && s.state != Rejected
      ensures s.state == Idle ==> s.totalOut == |w.text| && iseof
      ensures iseof ==> cache.size == |w.text|
      ensures s.state != Idle ==> s.totalIn < |infile|
      ensures s.totalIn <= |infile|
      ensures this !in s.Footprint() && cache !in s.Footprint() && s !in s.Footprint()
      ensures forall o :: o in s.Footprint() ==> allocated(o)
    {
      hide *;
      ValidParts();
      Outside();
      CacheFacts(cache);
      HealthyFacts(s, w);
      PositionIs(s, w);
      TracksFacts(s, w);
      s.RunMeans();
      s.ValidFacts();
      if s.state != Idle {
        InputLeft(s, w);
      }
    }

    /** bzfile_fill_inbuf: as much as the file gives, and something unless it ends. */
    method FillInbuf()
      requires Valid() && s.nextIn == []
      modifies s`nextIn
      ensures Valid() && (s.totalIn < |infile| ==> s.nextIn != [])
    {
      hide *;
      Sizes();
      ValidParts();
      ValidFacts();
      EmptySettled(s, w);
      var inoff := s.totalIn;
      var left := |infile| - inoff;
      // whatever av_pread returns, but something unless the file ends
      var res: int := *;
      if res > left || res > INBUFSIZE || res <= 0 {
        res := if left < INBUFSIZE then left else INBUFSIZE;
      }
      NextInput(s, w, res);
      s.Feed(infile[inoff..inoff + res]);
      SettledSupplied(s, w);
      IsHealthy(s, w);
      IsValid();
    }

    /** The block end handler, for the block ends of the last call. */
    method SaveEnds(before: nat)
      requires Tracks(s, w) && s.Logged() && cache.Valid() && cache.w == w && before <= |s.ends|
      requires Recorded(s.out0, s.ends[..before], cache.indexes)
      modifies cache`indexes
      ensures cache.Valid() && old(cache.indexes) <= cache.indexes && Recorded(s.out0, s.ends, cache.indexes)
    {
      hide *;
      var i := before;
      TracksFacts(s, w);
      while i < |s.ends|
        invariant before <= i <= |s.ends| && cache.Valid() && old(cache.indexes) <= cache.indexes
        invariant Recorded(s.out0, s.ends[..i], cache.indexes)
      {
        var e := s.ends[i];
        s.LoggedFacts();
        SavedOk(s, w, e);
        SavedIs(e);
        ghost var ix := cache.indexes;
        cache.SaveState(e.totalOut, e.totalIn, e.bitsrem, e.bits, e.crc, e.level);
        RecordedGrown(s.out0, s.ends[..i], ix, cache.indexes);
        RecordedMore(s.out0, s.ends[..i], cache.indexes, e);
        assert s.ends[..i + 1] == s.ends[..i] + [e];
        i := i + 1;
      }
      assert s.ends[..i] == s.ends;
    }

    /** The call of the decoder with input in its buffer, and of the block end handler. */
    method CallDecoder() returns (r: Status)
      requires Valid() && !iseof && s.availOut > 0 && s.nextIn != []
      modifies cache`size, cache`indexes, s, s.Footprint()
      ensures infile == w.file && cache.w == w && cache.Valid() && cache.id != 0 && (id == 0 || id == cache.id)
      ensures Healthy(s, w) && Settled(s, w) && Recorded(s.out0, s.ends, cache.indexes)
      ensures old(cache.indexes) <= cache.indexes && (old(cache.size) == -1 || cache.size == old(cache.size))
      ensures s.ex == old(s.ex) || (s.ex != null && fresh(s.ex.Owns()))
      ensures s.out0 == old(s.out0) && old(s.out) <= s.out && s.availOut == old(s.availOut) - (|s.out| - |old(s.out)|)
      ensures s.totalIn >= old(s.totalIn) && (r == BzStreamEnd || r == BzOk) && (r == BzStreamEnd <==> s.state == Idle)
      ensures r == BzOk ==> |infile| - s.totalIn + s.availOut < |infile| - old(s.totalIn) + old(s.availOut)
      ensures s.state == Idle ==> s.totalOut == |w.text|
    {
      hide *;
      ValidParts();
      ValidFacts();
      SuppliedAhead(s, w);
      var before := |s.ends|;
      ghost var ends := s.ends;
      r := s.BzDecompress();
      Outside();
      AfterCall(s, w);
      HealthyFacts(s, w);
      PositionIs(s, w);
      s.ValidFacts();
      assert s.ends[..before] == ends;
      SaveEnds(before);
    }

    /** bzfile_decompress: it takes input or gives output, and of a good file it never fails. */
    method Decompress() returns (ok: bool)
      requires Valid() && !iseof && s.availOut > 0
      modifies this`iseof, cache`size, cache`indexes, s, s.Footprint()
      ensures ok && Valid() && old(cache.indexes) <= cache.indexes
      ensures old(cache.size) == -1 || cache.size == old(cache.size)
      ensures s.ex == old(s.ex) || (s.ex != null && fresh(s.ex.Owns()))
      ensures s.out0 == old(s.out0) && old(s.out) <= s.out && s.availOut == old(s.availOut) - (|s.out| - |old(s.out)|)
      ensures Settled(s, w) && (iseof <==> s.state == Idle)
      ensures iseof || |infile| - s.totalIn + s.availOut < |infile| - old(s.totalIn) + old(s.availOut)
      ensures s.totalIn >= old(s.totalIn)
    {
      hide *;
      ValidParts();
      ValidFacts();
      CacheFacts(cache);
      if s.nextIn == [] {
        FillInbuf();
        ValidFacts();
        if s.nextIn == [] {
          return false;
        }
      }
      var r := CallDecoder();
      Outside();
      if r == BzStreamEnd {
        iseof := true;
        cache.SetSize(s.totalOut);
        IsValid();
        return true;
      }
      if r != BzOk {
        return false;
      }
      IsValid();
      return true;
    }

    /** What of the text was written between two positions. */
    lemma WrittenSince(before: seq<byte>, from: nat)
      requires before <= s.out && from == s.out0 + |before| && s.totalOut == s.out0 + |s.out| <= |w.text|
      requires s.out == w.text[s.out0..s.totalOut]
      ensures s.out[|before|..] == w.text[from..s.totalOut]
    {
    }

    /** bzfile_read: from where the decoder is; nothing if the flag is set. */
    method Read(n: nat) returns (r: Reading)
      requires Valid()
      modifies this`iseof, cache`size, cache`indexes, s, s.Footprint()
      ensures Valid() && old(cache.indexes) <= cache.indexes && (old(cache.size) == -1 || cache.size == old(cache.size))
      ensures s.ex == old(s.ex) || (s.ex != null && fresh(s.ex.Owns()))
      ensures r == Bytes(if old(iseof) then [] else Slice(w.text, old(s.totalOut), n))
      ensures r.Bytes? && |r.s| < n ==> iseof
    {
      hide *;
      ValidFacts();
      s.FootprintIs();
      Room(n);
      ValidFacts();
      ghost var before := s.out;
      ghost var from := s.totalOut;
      var start := |s.out|;
      while s.availOut != 0 && !iseof
        invariant Valid() && old(cache.indexes) <= cache.indexes
        invariant old(cache.size) == -1 || cache.size == old(cache.size)
        invariant s.ex == old(s.ex) || (s.ex != null && fresh(s.ex.Owns()))
        invariant s.out0 == old(s.out0) && before <= s.out && s.availOut + |s.out| == n + |before|
        invariant if old(iseof) then iseof && s.out == before else iseof ==> s.state == Idle
        decreases !iseof, |infile| - s.totalIn + s.availOut
      {
        ValidFacts();
        s.FootprintIs();
        var ok := Decompress();
        ValidFacts();
        if !ok {
          return Eio;
        }
      }
      ValidFacts();
      WrittenSince(before, from);
      if !old(iseof) {
        SliceIs(w.text, from, n, s.totalOut);
      }
      return Bytes(s.out[start..]);
    }

    method Room(n: nat)
      requires Valid()
      modifies s`availOut
      ensures Valid() && s.availOut == n
    {
      hide *;
      ValidParts();
      ValidFacts();
      s.SetRoom(n);
      IsHealthy(s, w);
      IsValid();
    }

    /** bzfile_skip_to: up to an offset that is not behind, or to the end. */
    method SkipTo(offset: nat) returns (ok: bool)
      requires Valid() && (iseof || s.totalOut <= offset)
      modifies this`iseof, cache`size, cache`indexes, s, s.Footprint()
      ensures ok && Valid() && old(cache.indexes) <= cache.indexes
      ensures old(cache.size) == -1 || cache.size == old(cache.size)
      ensures s.ex == old(s.ex) || (s.ex != null && fresh(s.ex.Owns()))
      ensures if old(iseof) then iseof else if iseof then |w.text| <= offset else s.totalOut == offset
    {
      hide *;
      ValidFacts();
      Sizes();
      s.FootprintIs();
      while !iseof
        invariant Valid() && old(cache.indexes) <= cache.indexes
        invariant old(cache.size) == -1 || cache.size == old(cache.size)
        invariant s.ex == old(s.ex) || (s.ex != null && fresh(s.ex.Owns()))
        invariant if old(iseof) then iseof else s.totalOut <= offset && (iseof ==> s.state == Idle)
        decreases !iseof, |infile| - s.totalIn + offset - s.totalOut
      {
        ValidFacts();
        var curroff := s.totalOut;
        if curroff == offset {
          break;
        }
        Room(if OUTBUFSIZE < offset - curroff then OUTBUFSIZE else offset - curroff);
        ValidFacts();
        s.FootprintIs();
        ok := Decompress();
        ValidFacts();
        if !ok {
          return;
        }
      }
      ValidFacts();
      ok := true;
    }

    // ---------------------------------------------------------------- seeking

    /** The handle, the cache and their decoders are not parts of the decoders. */
    lemma Others(sc: StreamCache)
      ensures this !in s.Footprint() && cache !in s.Footprint() && sc !in s.Footprint() && s !in s.Footprint()
      ensures forall o :: o in s.Footprint() ==> allocated(o)
      ensures sc.s != null ==>
                && this !in sc.s.Footprint() && cache !in sc.s.Footprint() && sc !in sc.s.Footprint()
                && sc.s !in sc.s.Footprint()
                && forall o :: o in sc.s.Footprint() ==> allocated(o)
      ensures this !in sc.Home() && sc !in sc.Home() && s !in sc.Home() && sc.s !in sc.Home() && forall o ::
                o in sc.Home() ==> allocated(o)
      ensures sc.id in sc.caches ==> sc.caches[sc.id] !in s.Footprint()
    {
    }

    /** bzfile_reset */
    method Restart(sc: StreamCache)
      requires Valid() && sc.Valid() && sc.Knows(cache)
      modifies this`s, this`iseof, this`iserror, sc`id, sc`s, s`nextIn
      ensures Valid() && sc.Valid() && fresh(s) && fresh(s.Footprint()) && s.totalOut == 0 && !iseof && !iserror
      ensures sc.s == if old(iseof || iserror) then old(sc.s) else old(s)
    {
      hide *;
      ValidParts();
      ValidFacts();
      var data := s.data;
      TracksData(s, w);
      if !iseof && !iserror {
        sc.Save(cache, s);
      }
      Others(sc);
      var st := new Decoder(data, false, infile);
      UntouchedStart(st);
      AtStart(st, w, cache.indexes);
      st.FootprintIs();
      iseof, iserror := false, false;
      s := st;
      Others(sc);
      IsValid();
    }

    lemma TracksData(st: Decoder, w: Whole)
      requires Tracks(st, w)
      ensures GoodWhole(w) && GoodData(w.d) && st.data == w.d
    {
      hide GoodWhole, Agrees, Decoder.Start;
      GoodWholeData(w);
    }

    /** A decoder that starts at an entry of the index. */
    method StartAt(data: Data, zi: BzIndex) returns (st: Decoder)
      requires infile == w.file && GoodWhole(w) && GoodData(w.d) && data == w.d && zi in cache.indexes && IndexOk(w, zi)
      ensures fresh(st) && fresh(st.Footprint()) && Healthy(st, w) && Recorded(st.out0, st.ends, cache.indexes)
      ensures st.totalOut == zi.offset && st.state == Decoding && st.combined == zi.crc
      ensures st.totalIn + |st.nextIn| == TotalIn(zi)
      ensures Ok(st.m)
      ensures Parse(st.m, st.Given()) == Waiting(Machine(zi.blocksize, BlockMagic(0)), Bits(zi.startbits, BitsRem(zi)))
    {
      hide *;
      IndexPlace(zi);
      st := new Decoder(data, false, infile);
      var totalIn := TotalIn(zi) - 4;
      st.Place(Header(zi), totalIn, zi.offset, MadeUp(infile, zi));
      st.RestoreBlockEnd(BitsRem(zi), zi.crc);
      UntouchedStart(st);
      RestoredTracks(st, w, zi);
      IsSupplied(st, w);
      RestoredGiven(st, zi);
      IsHealthy(st, w);
      EntryIsAt(cache.indexes, zi);
      RecordedFrom(zi.offset, cache.indexes);
      st.FootprintIs();
    }

    /** bzfile_seek_index; the flag for the end of the file stays as it is. */
    method SeekIndex(sc: StreamCache, zi: BzIndex)
      requires Valid() && sc.Valid() && sc.Knows(cache) && zi in cache.indexes
      requires GoodWhole(w) && GoodData(w.d) && IndexOk(w, zi)
      modifies this`s, sc`id, sc`s, s`nextIn
      ensures Valid() && sc.Valid() && fresh(s) && fresh(s.Footprint()) && s.totalOut == zi.offset && sc.s == old(s)
      ensures s.combined == zi.crc && s.totalIn + |s.nextIn| == TotalIn(zi) && Ok(s.m)
      ensures Parse(s.m, s.Given()) == Waiting(Machine(zi.blocksize, BlockMagic(0)), Bits(zi.startbits, BitsRem(zi)))
    {
      hide *;
      ValidParts();
      ValidFacts();
      TracksData(s, w);
      var data := s.data;
      sc.Save(cache, s);
      Others(sc);
      s := StartAt(data, zi);
      Others(sc);
      IsValid();
    }

    lemma RestoredGiven(st: Decoder, zi: BzIndex)
      requires GoodData(w.d) && IndexOk(w, zi) && st.Untouched()
      requires st.bsLive == BitsRem(zi) && st.bsBuff == Shr(0x42, 8 - BitsRem(zi)) && st.nextIn == Header(zi)
      ensures Ok(st.m)
      ensures Parse(st.m, st.Given()) == Waiting(Machine(zi.blocksize, BlockMagic(0)), Bits(zi.startbits, BitsRem(zi)))
    {
      hide Decompressed, ShiftedHeader, Parse, Shr, Bits, WordBytes;
      RestoredState(zi.blocksize, BitsRem(zi), zi.startbits);
    }

    lemma IndexPlace(zi: BzIndex)
      requires GoodData(w.d) && IndexOk(w, zi) && infile == w.file
      ensures 4 <= TotalIn(zi) <= |infile| && BitsRem(zi) < 8 && |Header(zi)| == 4 && |MadeUp(infile, zi)| == |infile|
      ensures Header(zi) == MadeUp(infile, zi)[TotalIn(zi) - 4..TotalIn(zi)]
    {
      hide Decompressed, ShiftedHeader;
    }

    /** The handle and the cache exchange decoders. */
    method SwapIn(sc: StreamCache)
      requires Valid() && sc.Valid() && sc.Knows(cache) && sc.s != null && sc.id == cache.id && Apart(s, sc.s)
      requires Settled(sc.s, w) && sc.s.state != Idle
      modifies this`s, sc`s, s`nextIn, sc.s`nextIn
      ensures Valid() && sc.Valid() && s == old(sc.s) && sc.s == old(s) && Apart(s, sc.s)
    {
      hide *;
      ValidParts();
      ValidFacts();
      sc.KnowsFacts(cache);
      sc.CachedHere();
      CachedFacts(sc.s, w, cache.indexes);
      Others(sc);
      ApartFacts(s, sc.s);
      SuppliedCases(s, w);
      var tmp := s;
      var buffer: seq<byte> := *;
      tmp.Park(buffer);
      s := sc.s;
      s.Unpark();
      sc.s := tmp;
      SettledSupplied(s, w);
      IsHealthy(s, w);
      IsValid();
      IsCached(tmp, w, cache.indexes);
      sc.NowCached();
    }

    /** bzfile_seek: the handle's decoder is the nearest that can be had. */
    method Seek(sc: StreamCache, offset: nat)
      requires Valid() && sc.Valid() && sc.Knows(cache) && id == cache.id && Apart(s, sc.s)
      modifies this`s, this`iseof, this`iserror, sc`id, sc`s, s`nextIn, (if sc.s == null then {} else {sc.s})`nextIn
      ensures Valid() && sc.Valid() && Apart(s, sc.s)
      ensures s == old(s) || s == old(sc.s) || (fresh(s) && fresh(s.Footprint()))
      ensures var c := Choose(old(s.totalOut), offset, cache.indexes, old(sc.Position(cache)));
              && s.totalOut == Place(c, old(s.totalOut), cache.indexes, old(sc.Position(cache))) <= offset
              && iseof == (old(iseof) && !c.Reset?)
              && sc.s == if c.Swap? || c.Jump? || (c.Reset? && !old(iseof || iserror)) then old(s) else old(sc.s)
      ensures iserror ==> old(iserror)
    {
      hide *;
      Others(sc);
      ValidParts();
      ValidFacts();
      CacheFacts(cache);
      IndexValidFacts(w, cache.indexes);
      var found, zi := cache.FindIndex(offset);
      sc.KnowsFacts(cache);
      var curroff := s.totalOut;
      var dist := if offset >= curroff then offset - curroff else -1;
      var zcdist := if found then offset - zi.offset else offset;
      ChooseIs(curroff, offset, cache.indexes, sc.Position(cache));
      PlaceIs(Choose(curroff, offset, cache.indexes, sc.Position(cache)), curroff, cache.indexes, sc.Position(cache));
      if sc.s != null && sc.id == cache.id {
        var scacheoff := sc.s.totalOut;
        if offset >= scacheoff {
          var scdist := offset - scacheoff;
          if (dist == -1 || scdist < dist) && scdist < zcdist {
            sc.CachedHere();
            SwapIsSound(sc.s, w, cache.indexes, curroff, offset);
            SwapIn(sc);
            return;
          }
        }
      }
      if dist == -1 || zcdist < dist {
        if !found {
          Restart(sc);
        } else {
          SeekIndex(sc, zi);
        }
        NowApart(sc);
      }
    }

    /** A new decoder has nothing in common with an old one. */
    lemma NowApart(sc: StreamCache)
      requires sc.s != null ==> s != sc.s && s.Footprint() !! sc.s.Footprint()
      ensures Apart(s, sc.s)
    {
    }

    // ---------------------------------------------------------------- reading at an offset

    /** The cached decoder is in order for the index that its cache has now. */
    lemma Rejoin(sc: StreamCache, ix: seq<BzIndex>)
      requires sc.Numbered() && (sc.s == null ==> sc.id == 0)
      requires sc.s != null ==>
                sc.id in sc.caches && ix <= sc.caches[sc.id].indexes && Cached(sc.s, sc.caches[sc.id].w, ix)
      ensures sc.Valid()
    {
      hide *;
      if sc.s != null {
        CachedGrown(sc.s, sc.caches[sc.id].w, ix, sc.caches[sc.id].indexes);
        sc.NowCached();
      } else {
        sc.NoneCached();
      }
    }

    /** bzfile_skip_to leaves the cached decoder alone. */
    method SkipBeside(ghost sc: StreamCache, offset: nat) returns (ok: bool)
      requires Valid() && sc.Valid() && Apart(s, sc.s) && (iseof || s.totalOut <= offset)
      modifies this`iseof, cache`size, cache`indexes, s, s.Footprint()
      ensures ok && Valid() && sc.Valid() && Apart(s, sc.s) && old(cache.indexes) <= cache.indexes
      ensures old(cache.size) == -1 || cache.size == old(cache.size)
      ensures s.ex == old(s.ex) || (s.ex != null && fresh(s.ex.Owns()))
      ensures if old(iseof) then iseof else if iseof then |w.text| <= offset else s.totalOut == offset
    {
      hide *;
      Others(sc);
      sc.CachedHere();
      s.FootprintIs();
      ghost var ix := [];
      if sc.s != null {
        ApartFacts(s, sc.s);
        ix := sc.caches[sc.id].indexes;
      }
      ok := SkipTo(offset);
      s.FootprintIs();
      Rejoin(sc, ix);
      NowApart(sc);
    }

    /** bzfile_read too. */
    method ReadBeside(ghost sc: StreamCache, n: nat) returns (r: Reading)
      requires Valid() && sc.Valid() && Apart(s, sc.s)
      modifies this`iseof, cache`size, cache`indexes, s, s.Footprint()
      ensures Valid() && sc.Valid() && Apart(s, sc.s) && old(cache.indexes) <= cache.indexes
      ensures old(cache.size) == -1 || cache.size == old(cache.size)
      ensures s.ex == old(s.ex) || (s.ex != null && fresh(s.ex.Owns()))
      ensures r == Bytes(if old(iseof) then [] else Slice(w.text, old(s.totalOut), n))
      ensures r.Bytes? && |r.s| < n ==> iseof
    {
      hide *;
      Others(sc);
      sc.CachedHere();
      s.FootprintIs();
      ghost var ix := [];
      if sc.s != null {
        ApartFacts(s, sc.s);
        ix := sc.caches[sc.id].indexes;
      }
      r := Read(n);
      s.FootprintIs();
      Rejoin(sc, ix);
      NowApart(sc);
    }

    /** The objects that a read may change besides the handle: two decoders. */
    ghost function Decoders(sc: StreamCache): (o: set<object>)
      reads this`s, s`ex, sc`s, (if sc.s == null then {} else {sc.s})`ex
    {
      {s} + s.Footprint() + (if sc.s == null then {} else {sc.s} + sc.s.Footprint())
    }

    lemma DecodersAre(sc: StreamCache)
      ensures Decoders(sc) == {s} + s.Footprint() + (if sc.s == null then {} else {sc.s} + sc.s.Footprint())
    {
    }

    /** What av_bzfile_do_pread does first: nothing if the decoder is there already. */
    ghost function Choice(sc: StreamCache, offset: nat): (c: Choice)
      reads this`s, s, cache`indexes, sc`id, sc`s, (if sc.s == null then {} else {sc.s})
    {
      if offset == s.totalOut then Stay else Choose(s.totalOut, offset, cache.indexes, sc.Position(cache))
    }

    lemma ChoiceFacts(sc: StreamCache, offset: nat)
      ensures Choice(sc, offset) == if offset == s.totalOut then Stay
                else Choose(s.totalOut, offset, cache.indexes, sc.Position(cache))
    {
    }

    /** Goes to the offset, or as far as can be: bzfile_seek and bzfile_skip_to, unless the decoder is there. */
    method Approach(sc: StreamCache, offset: nat) returns (ok: bool)
      requires Valid() && sc.Valid() && sc.Knows(cache) && id == cache.id && Apart(s, sc.s)
      modifies this`s, this`iseof, this`iserror, sc`id, sc`s, cache`size, cache`indexes, Decoders(sc)
      ensures ok && Valid() && sc.Valid() && Apart(s, sc.s) && old(cache.indexes) <= cache.indexes
      ensures old(cache.size) == -1 || cache.size == old(cache.size)
      ensures fresh(Decoders(sc) - old(Decoders(sc)))
      ensures if old(iseof && !Choice(sc, offset).Reset?) then iseof
              else if iseof then |w.text| <= offset else s.totalOut == offset
      ensures iserror ==> old(iserror)
    {
      hide *;
      ChoiceFacts(sc, offset);
      DecodersAre(sc);
      Others(sc);
      ok := true;
      if offset != s.totalOut {
        Seek(sc, offset);
        s.FootprintIs();
        Others(sc);
        if sc.s != null {
          ApartFacts(s, sc.s);
        }
        ok := SkipBeside(sc, offset);
        s.FootprintIs();
      }
      DecodersAre(sc);
    }

    /** av_bzfile_do_pread */
    method DoPread(sc: StreamCache, n: nat, offset: nat) returns (r: Reading)
      requires Valid() && sc.Valid() && sc.Knows(cache) && Apart(s, sc.s)
      modifies this`s, this`iseof, this`iserror, this`id, sc`id, sc`s, cache`size, cache`indexes, Decoders(sc)
      ensures Valid() && sc.Valid() && Apart(s, sc.s) && old(cache.indexes) <= cache.indexes
      ensures old(cache.size) == -1 || cache.size == old(cache.size)
      ensures r == Bytes(if old(iseof && !Choice(sc, offset).Reset?) then [] else Slice(w.text, offset, n))
      ensures r.Bytes? && |r.s| < n ==> iseof
      ensures iserror ==> old(iserror)
      ensures fresh(Decoders(sc) - old(Decoders(sc)))
    {
      hide *;
      DecodersAre(sc);
      Others(sc);
      ghost var ended := iseof && !Choice(sc, offset).Reset?;
      SetId();
      var ok := Approach(sc, offset);
      if !ok {
        return Eio;
      }
      DecodersAre(sc);
      Others(sc);
      s.FootprintIs();
      if sc.s != null {
        ApartFacts(s, sc.s);
      }
      ghost var eof := iseof;
      r := ReadBeside(sc, n);
      if !ended && eof {
        SliceEmpty(w.text, offset, n);
      }
      s.FootprintIs();
      DecodersAre(sc);
    }

    method SetId()
      requires Valid()
      modifies this`id
      ensures Valid() && id == cache.id
    {
      hide *;
      ValidParts();
      Outside();
      id := cache.id;
      IsValid();
    }

    /**
     av_bzfile_pread, after any calls before by any handles: the bytes of the text that are asked
     for, unless the flag for the end of the file is left from before.  Only a start over clears
     the flag, so a read is right exactly if there is nothing to read, or the flag was not set, or
     neither the index nor the cached decoder has anything at or before the offset.
     */
    method Pread(sc: StreamCache, n: nat, offset: nat) returns (r: Reading)
      requires Valid() && sc.Valid() && sc.Knows(cache) && Apart(s, sc.s)
      modifies this`s, this`iseof, this`iserror, this`id, sc`id, sc`s, cache`size, cache`indexes, Decoders(sc)
      ensures Valid() && sc.Valid() && Apart(s, sc.s) && old(cache.indexes) <= cache.indexes
      ensures old(cache.size) == -1 || cache.size == old(cache.size)
      ensures fresh(Decoders(sc) - old(Decoders(sc)))
      ensures old(iserror) ==> r == Eio && iserror
      ensures r.Bytes? && |r.s| < n ==> iseof
      ensures !old(iserror) ==>
                !iserror && r == Bytes(if old(iseof && !Choice(sc, offset).Reset?) then []
                                       else Slice(w.text, offset, n))
      ensures !old(iserror) ==>
                (r == Bytes(Slice(w.text, offset, n)) <==>
                    n == 0 || offset >= |w.text| || !old(iseof) || old(Choice(sc, offset)) == Reset)
    {
      hide *;
      SliceEmpty(w.text, offset, n);
      DecodersAre(sc);
      Others(sc);
      if iserror {
        return Eio;
      }
      r := DoPread(sc, n, offset);
      iserror := iserror || r == Eio;
    }

    /** av_bzfile_size: goes to the end of the file unless the size is known, and is right in any case. */
    method Size(sc: StreamCache) returns (ok: bool, size: int)
      requires Valid() && sc.Valid() && sc.Knows(cache) && Apart(s, sc.s) && |w.text| < MAXOFF
      modifies this`s, this`iseof, this`iserror, this`id, sc`id, sc`s, cache`size, cache`indexes, Decoders(sc)
      ensures ok && size == |w.text|
      ensures Valid() && sc.Valid() && Apart(s, sc.s) && old(cache.indexes) <= cache.indexes
      ensures old(cache.size) == -1 || cache.size == old(cache.size)
      ensures fresh(Decoders(sc) - old(Decoders(sc)))
    {
      hide *;
      ValidParts();
      ValidFacts();
      CacheFacts(cache);
      DecodersAre(sc);
      Others(sc);
      size := cache.size;
      if size != -1 {
        return true, size;
      }
      SetId();
      Others(sc);
      Seek(sc, MAXOFF);
      s.FootprintIs();
      Others(sc);
      if sc.s != null {
        ApartFacts(s, sc.s);
      }
      ok := SkipBeside(sc, MAXOFF);
      s.FootprintIs();
      DecodersAre(sc);
      ValidParts();
      ValidFacts();
      if !ok {
        return;
      }
      size := cache.size;
      ok := size != -1;
    }

    /** bzfile_destroy: the decoder goes to the cache, wherever it is. */
    method Destroy(sc: StreamCache)
      requires Valid() && sc.Valid() && sc.Knows(cache)
      modifies sc`id, sc`s, s`nextIn
      ensures sc.Valid() && sc.s == if id == 0 then old(sc.s) else s
    {
      hide *;
      ValidParts();
      if id != 0 {
        sc.Save(cache, s);
      }
    }
  }

  /** A read by one handle leaves every other handle in order, of the same file or of another one. */
  method PreadBeside(a: BzFile, ghost b: BzFile, sc: StreamCache, n: nat, offset: nat) returns (r: Reading)
    requires a != b && a.Valid() && b.Valid() && sc.Valid() && sc.Knows(a.cache) && sc.Knows(b.cache)
    requires Apart(a.s, sc.s) && Apart(b.s, sc.s) && Apart(a.s, b.s)
    modifies a`s, a`iseof, a`iserror, a`id, sc`id, sc`s, a.cache`size, a.cache`indexes, a.Decoders(sc)
    ensures a.Valid() && b.Valid() && sc.Valid() && sc.Knows(a.cache) && sc.Knows(b.cache)
    ensures Apart(a.s, sc.s) && Apart(b.s, sc.s) && Apart(a.s, b.s)
    ensures b.s == old(b.s) && b.s.totalOut == old(b.s.totalOut) && b.iseof == old(b.iseof)
  {
    hide *;
    BesideFacts(a, b, sc);
    b.ValidParts();
    ghost var ix := b.cache.indexes;
    r := a.Pread(sc, n, offset);
    a.ValidParts();
    RecordedGrown(b.s.out0, b.s.ends, ix, b.cache.indexes);
    b.IsValid();
    StillApart(a, b, sc);
  }

  /** What a read by `a` may change is not `b`'s. */
  lemma BesideFacts(a: BzFile, b: BzFile, sc: StreamCache)
    requires a != b && Apart(a.s, sc.s) && Apart(b.s, sc.s) && Apart(a.s, b.s)
    ensures b.s !in a.Decoders(sc) && b.s.Footprint() !! a.Decoders(sc) && b.s !in b.s.Footprint()
    ensures b !in a.Decoders(sc) && b.cache !in a.Decoders(sc) && sc !in a.Decoders(sc)
    ensures a !in b.s.Footprint() && sc !in b.s.Footprint() && a.cache !in b.s.Footprint()
    ensures b.cache !in b.s.Footprint()
    ensures forall o :: o in b.s.Footprint() ==> allocated(o)
  {
    hide *;
    a.DecodersAre(sc);
    Foreign(a.s, b, sc);
    Foreign(b.s, a, sc);
    Foreign(b.s, b, sc);
    ApartFacts(a.s, b.s);
    ApartFacts(b.s, a.s);
    if sc.s != null {
      Foreign(sc.s, b, sc);
      ApartFacts(b.s, sc.s);
    }
  }

  lemma Foreign(d: Decoder, b: BzFile, sc: StreamCache)
    ensures b !in d.Footprint() && b.cache !in d.Footprint() && sc !in d.Footprint()
  {
  }

  lemma StillApart(a: BzFile, b: BzFile, sc: StreamCache)
    requires b.s !in a.Decoders(sc) && b.s.Footprint() !! a.Decoders(sc)
    ensures Apart(b.s, sc.s) && Apart(a.s, b.s)
  {
  }
}
