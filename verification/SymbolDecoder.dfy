/**
 The decoder's symbol loop on its tables and arrays (decompress.c lines 74-102, 340-376 and
 378-492): the limit, base and perm tables of the block, its byte map, and the sliding list of
 ranks.  What they give is what the parser computes on values.
 */
module SymbolDecoder {

  import opened Rotation
  import opened Words
  import opened Counting
  import opened Codes
  import opened Mtf
  import opened ByteMap
  import opened MtfSlide
  import opened Parser
  import opened ParserLimits

  // ---------------------------------------------------------------- the search

  /** A table that answers as the parser's search does. */
  ghost predicate Made(t: Table, len: seq<nat>)
  {
    Lengths(len) && t.minLen == MinOf(len) && Decodes(t, len, MaxOf(len))
  }

  lemma LengthsFacts(len: seq<nat>)
    requires Lengths(len)
    ensures 0 < |len| <= 258 && MinOf(len) <= MaxOf(len) <= LONGEST && Codes.Within(len, MinOf(len), MaxOf(len))
    ensures LONGEST == 20 && MAX_CODE_LEN == 23
  {
  }

  /** The call of BZ2_hbCreateDecodeTables for one table; its arrays do not change after that. */
  method MakeTable(len: seq<nat>) returns (t: Table)
    requires Lengths(len)
    ensures Made(t, len)
  {
    hide *;
    LengthsFacts(len);
    var n := |len|;
    var limit, base, perm := new int[258], new int[258], new nat[258];
    var length := new nat[n](i requires 0 <= i < n => len[i]);
    assert length[..n] == len;
    CreateDecodeTables(limit, base, perm, length, MinOf(len), MaxOf(len), n);
    t := Table(MinOf(len), limit[..], base[..], perm[..]);
    IsMade(t, len);
  }

  lemma IsMade(t: Table, len: seq<nat>)
    requires Lengths(len) && t.minLen == MinOf(len) && Decodes(t, len, MaxOf(len))
    ensures Made(t, len)
  {
  }

  /** The search of GET_MTF_VAL with `zn` bits of value `zvec`, which answers as the parser's does. */
  method Search(t: Table, zn: nat, zvec: nat, ghost len: seq<nat>) returns (v: Verdict)
    requires Made(t, len) && Lengths(len) && Searching(TableOf(len), len, zn, zvec)
    ensures MAX_CODE_LEN <= |TableOf(len).limit| && MAX_CODE_LEN <= |TableOf(len).base|
    ensures v == Look(TableOf(len), zn, zvec)
  {
    hide *;
    SearchAgrees(t, len, zn, zvec);
    LookIs(t, zn, zvec);
    if zn > LONGEST {
      v := Corrupt;
    } else if zvec <= t.limit[zn] {
      if zvec - t.base[zn] < 0 || zvec - t.base[zn] >= MAX_ALPHA || zvec - t.base[zn] >= |t.perm| {
        v := Corrupt;
      } else {
        v := Symbol(t.perm[zvec - t.base[zn]]);
      }
    } else {
      v := LongerBy1;
    }
  }

  lemma LookIs(t: Table, zn: nat, zvec: nat)
    requires |t.limit| >= MAX_CODE_LEN && |t.base| >= MAX_CODE_LEN
    ensures Look(t, zn, zvec) ==
      if zn > LONGEST then Corrupt
      else if zvec <= t.limit[zn] then
        if zvec - t.base[zn] < 0 || zvec - t.base[zn] >= MAX_ALPHA || zvec - t.base[zn] >= |t.perm| then Corrupt
        else Symbol(t.perm[zvec - t.base[zn]])
      else LongerBy1
  {
  }

  lemma SearchAgrees(t: Table, len: seq<nat>, zn: nat, zvec: nat)
    requires Made(t, len) && Lengths(len) && Searching(TableOf(len), len, zn, zvec)
    ensures MAX_CODE_LEN <= |t.limit| && MAX_CODE_LEN <= |t.base| && MAX_CODE_LEN <= |TableOf(len).limit|
    ensures MAX_CODE_LEN <= |TableOf(len).base|
    ensures LONGEST == 20 && MAX_CODE_LEN == 23
    ensures Look(t, zn, zvec) == Look(TableOf(len), zn, zvec)
  {
    hide First, Occ, Start, LF;
    DecodesAgree(t, TableOf(len), len, MaxOf(len), zn, zvec);
  }

  // ---------------------------------------------------------------- the block's tables

  /** Moving an element of a prefix to the front keeps to the prefix. */
  lemma FrontPrefix(l: seq<nat>, n: nat, k: nat)
    requires k < n <= |l|
    ensures Front(l, k)[..n] == Front(l[..n], k) && l[..n][k] == l[k]
  {
  }

  class SymbolDecoder {
    const body: Body
    const tables: seq<Table>
    const seqToUnseq: seq<byte>
    const nInUse: nat
    const list: SlidingList

    /** The tables and the map are those of the block. */
    ghost predicate Prepared()
    {
      && GoodBody(body) && |tables| == |body.lens| && (forall t :: 0 <= t < |tables| ==> Made(tables[t], body.lens[t]))
      && nInUse == |Unseq(body.inUse)| && nInUse <= |seqToUnseq| && seqToUnseq[..nInUse] == Unseq(body.inUse)
    }

    ghost predicate Valid()
      reads list.mtfa, list.mtfbase
    {
      Prepared() && list.Valid()
    }

    /** The array has the ranks that `u` lists. */
    ghost predicate Mirrors(u: Unmtf)
      reads list.mtfa, list.mtfbase
    {
      list.Valid() && nInUse <= 256 && u.list == list.Contents()[..nInUse]
    }

    lemma PreparedFacts()
      requires Prepared()
      ensures GoodBody(body) && |body.inUse| == 256 && |tables| == |body.lens|
      ensures 0 < nInUse == |Unseq(body.inUse)| <= 256
      ensures nInUse <= |seqToUnseq| && seqToUnseq[..nInUse] == Unseq(body.inUse)
      ensures forall t :: 0 <= t < |tables| ==> Made(tables[t], body.lens[t])
      ensures forall x :: 0 <= x < |body.selector| ==> body.selector[x] < |body.lens|
    {
      hide Made, Used, Lengths;
    }

    lemma IsPrepared()
      requires GoodBody(body) && |body.inUse| == 256 && |tables| == |body.lens|
      requires forall t :: 0 <= t < |tables| ==> Made(tables[t], body.lens[t])
      requires nInUse == |Unseq(body.inUse)| && nInUse <= |seqToUnseq| && seqToUnseq[..nInUse] == Unseq(body.inUse)
      ensures Prepared()
    {
      hide Made, Used, GoodBody;
    }

    /** The tables are made, the map is filled, and the list is in its first order. */
    constructor (body0: Body, list0: SlidingList)
      requires GoodBody(body0) && list0.Shaped()
      modifies list0.mtfa, list0.mtfbase
      ensures Valid() && body == body0 && list == list0 && Mirrors(StartMtf(body0.inUse))
    {
      hide *;
      BodyFacts(body0);
      body := body0;
      var ts: seq<Table> := [];
      var n := |body0.lens|;
      while |ts| < n
        invariant |ts| <= n && forall t :: 0 <= t < |ts| ==> Made(ts[t], body0.lens[t])
        decreases n - |ts|
      {
        var t := MakeTable(body0.lens[|ts|]);
        ts := ts + [t];
      }
      tables := ts;
      var inUse := new bool[256](i requires 0 <= i < 256 => body0.inUse[i]);
      var unseq := new byte[256];
      assert inUse[..] == body0.inUse;
      var used := MapsForDecoding(inUse, unseq);
      nInUse := used;
      seqToUnseq := unseq[..];
      list := list0;
      new;
      list.Reset();
      assert seqToUnseq[..nInUse] == unseq[..used];
      IsPrepared();
      StartIs();
    }

    lemma ValidFacts()
      requires Valid()
      ensures Prepared() && list.Valid()
    {
    }

    lemma IsValid()
      requires Prepared() && list.Valid()
      ensures Valid()
    {
    }

    lemma MirrorsFacts(u: Unmtf)
      requires Mirrors(u)
      ensures list.Valid() && nInUse <= 256 && |list.Contents()| == 256 && u.list == list.Contents()[..nInUse]
      ensures |u.list| == nInUse
    {
    }

    lemma IsMirrored(u: Unmtf)
      requires list.Valid() && nInUse <= 256 && u.list == list.Contents()[..nInUse]
      ensures Mirrors(u)
    {
    }

    /** The bytes of a pending run, as long as they fit. */
    method PutRun(out0: seq<byte>, es0: int, uc: byte, max: nat) returns (fits: bool, out: seq<byte>)
      requires es0 > 0 && |out0| <= max
      ensures fits <==> |out0| + es0 <= max
      ensures fits ==> out == out0 + Repeat(uc, es0)
    {
      var es := es0;
      out := out0;
      assert out0 + Repeat(uc, 0) == out0;
      while es > 0
        invariant 0 <= es <= es0 && |out| == |out0| + (es0 - es) <= max && out == out0 + Repeat(uc, es0 - es)
      {
        if |out| >= max {
          return false, out;
        }
        assert out0 + Repeat(uc, es0 - es + 1) == out0 + Repeat(uc, es0 - es) + [uc];
        out := out + [uc];
        es := es - 1;
      }
      fits := true;
    }

    /** What one symbol does to the block, by the array of ranks. */
    method TakeSymbol(u: Unmtf, sym: nat, max: nat) returns (t: Taken)
      requires Valid() && Mirrors(u) && Listing(u, Unseq(body.inUse)) && sym <= |u.list| + 1 && |u.out| <= max
      modifies list.mtfa, list.mtfbase
      ensures Valid() && t == Take(u, sym, |u.list| + 1, Unseq(body.inUse), max) && (t.Going? ==> Mirrors(t.m))
    {
      hide *;
      ValidFacts();
      PreparedFacts();
      MirrorsFacts(u);
      ListingFacts(u, Unseq(body.inUse));
      TakeCases(u, sym, Unseq(body.inUse), max);
      if sym <= 1 {
        var es, weight := -1, 1;
        if u.run.InRun? {
          es, weight := u.run.es, u.run.weight;
        }
        if weight >= 2097152 {
          return Bad;
        }
        var u' := u.(run := InRun(es + (if sym == 0 then weight else 2 * weight), 2 * weight));
        IsMirrored(u');
        return Going(u');
      }
      var out := u.out;
      if u.run.InRun? && u.run.es + 1 > 0 {
        var front := list.First();
        var fits;
        fits, out := PutRun(u.out, u.run.es + 1, seqToUnseq[front], max);
        if !fits {
          return Bad;
        }
      }
      if sym == nInUse + 1 {
        return Finished(out);
      }
      if |out| >= max {
        return Bad;
      }
      ghost var l := list.Contents();
      var uc := list.Take(sym - 1);
      FrontPrefix(l, nInUse, sym - 1);
      var u' := Unmtf(Front(u.list, sym - 1), out + [seqToUnseq[uc]], NoRun);
      IsMirrored(u');
      IsValid();
      return Going(u');
    }

    /** After a symbol the machine is at the next one of this block, with the ranks in the array. */
    ghost predicate Follows(e: Event)
      reads list.mtfa, list.mtfbase
    {
      e.To? ==> Attached(e.m)
    }

    /** The machine is at a symbol of this block, and the array has its ranks. */
    ghost predicate Attached(m: Machine)
      reads list.mtfa, list.mtfbase
    {
      && Valid() && (m.stage.SymbolCode? || m.stage.SymbolBit?)
      && m.stage.body == body && Mirrors(m.stage.m)
    }

    /** One symbol, and what comes next. */
    method Receive(level: nat, g: nat, gp: nat, u: Unmtf, sym: nat) returns (e: Event)
      requires Valid() && InBlock(body, g, gp, u) && Mirrors(u) && sym < AlphaSize(body.inUse)
      requires |u.out| <= 100000 * level
      modifies list.mtfa, list.mtfbase
      ensures e == Parser.Receive(level, body, g, gp, u, sym) && Follows(e)
    {
      hide *;
      InBlockFacts(body, g, gp, u);
      ReceiveCases(level, body, g, gp, u, sym);
      var t := TakeSymbol(u, sym, 100000 * level);
      match t
      case Going(u') =>
        e := NextSymbol(level, body, g, gp, u');
        NextIs(level, g, gp, u');
      case Bad =>
        e := Fail(DataError);
        NoneFollows(e);
      case Finished(out) =>
        e := if body.head.origPtr >= |out| then Fail(DataError)
            else Block(Machine(level, BlockMagic(0)), body.head, out);
        NoneFollows(e);
    }

    lemma NextIs(level: nat, g: nat, gp: nat, u: Unmtf)
      requires Valid() && Mirrors(u) && GoodBody(body) && gp <= G_SIZE && (gp > 0 ==> g < |body.selector|)
      requires Listing(u, Unseq(body.inUse)) && |u.list| == |Unseq(body.inUse)|
      ensures Follows(NextSymbol(level, body, g, gp, u))
    {
      hide Prepared, Mirrors, GoodBody, Used, Listing, SlidingList.Valid;
    }

    lemma NoneFollows(e: Event)
      requires !e.To?
      ensures Follows(e)
    {
    }

    /** The search with `zn` bits of value `zvec`, and the symbol if it ends. */
    method Judge(level: nat, g: nat, gp: nat, u: Unmtf, zn: nat, zvec: nat) returns (e: Event)
      requires Valid() && InBlock(body, g, gp, u) && Mirrors(u) && |u.out| <= 100000 * level
      requires Searching(TableOf(Lens(body, g)), Lens(body, g), zn, zvec)
      modifies list.mtfa, list.mtfbase
      ensures e == Parser.Judge(level, body, g, gp, u, zn, zvec) && Follows(e)
    {
      hide *;
      InBlockFacts(body, g, gp, u);
      ValidFacts();
      PreparedFacts();
      TableHere(g);
      JudgeCases(level, body, g, gp, u, zn, zvec);
      SearchSizes();
      if zn > 20 {
        e := Fail(DataError);
        NoneFollows(e);
        return;
      }
      var v := Search(tables[body.selector[g]], zn, zvec, Lens(body, g));
      match v
      case Symbol(sym) =>
        e := Receive(level, g, gp, u, sym);
      case LongerBy1 =>
        e := To(Machine(level, SymbolBit(body, g, gp, u, zn + 1, zvec)));
        BitFollows(level, g, gp, u, zn + 1, zvec);
      case Corrupt =>
        assert false;
    }

    lemma TableHere(g: nat)
      requires Prepared() && GoodBody(body) && g < |body.selector| && |tables| == |body.lens|
      ensures body.selector[g] < |tables| && Made(tables[body.selector[g]], Lens(body, g)) && Lengths(Lens(body, g))
      ensures tables[body.selector[g]].minLen == MinOf(Lens(body, g))
    {
      hide Used, Lengths, Decodes, MinOf, MaxOf;
    }

    lemma BitFollows(level: nat, g: nat, gp: nat, u: Unmtf, zn: nat, zvec: nat)
      requires Valid() && Mirrors(u)
      ensures Follows(To(Machine(level, SymbolBit(body, g, gp, u, zn, zvec))))
    {
      hide Prepared, Mirrors, SlidingList.Valid;
    }

    /** One step of the parser at a symbol. */
    method Step(m: Machine, v: nat) returns (e: Event)
      requires Ok(m) && Fits(m) && Attached(m)
      modifies list.mtfa, list.mtfbase
      ensures e == Parser.Step(m, v) && Follows(e)
    {
      hide *;
      AttachedFacts(m);
      FitsSymbols(m);
      StepIs(m, v);
      ValidFacts();
      if m.stage.SymbolCode? {
        SymbolCodeIs(m, v);
        InBlockFacts(body, m.stage.groupNo, m.stage.groupPos, m.stage.m);
        PreparedFacts();
        TableHere(m.stage.groupNo);
        e := Judge(m.level, m.stage.groupNo, m.stage.groupPos, m.stage.m,
                   tables[body.selector[m.stage.groupNo]].minLen, v);
      } else {
        SymbolBitIs(m, v);
        e := Judge(m.level, m.stage.groupNo, m.stage.groupPos, m.stage.m, m.stage.zn, 2 * m.stage.zvec + v);
      }
    }

    lemma AttachedFacts(m: Machine)
      requires Attached(m)
      ensures Valid() && (m.stage.SymbolCode? || m.stage.SymbolBit?) && m.stage.body == body && Mirrors(m.stage.m)
    {
    }

    /** In their first order the ranks of the block are the first of all 256. */
    lemma StartIs()
      requires Prepared() && list.Valid() && list.Contents() == Identity(256)
      ensures Valid() && Mirrors(StartMtf(body.inUse))
    {
      PreparedFacts();
      hide Used, Made, GoodBody, SlidingList.Contents, SlidingList.Valid;
      assert Identity(256)[..nInUse] == Identity(nInUse);
    }
  }

  lemma ListingFacts(u: Unmtf, unseq: seq<byte>)
    requires Listing(u, unseq)
    ensures 0 < |u.list| && forall i :: 0 <= i < |u.list| ==> u.list[i] < |unseq|
  {
  }

  /** The cases of the parser's step for one symbol. */
  lemma TakeCases(u: Unmtf, sym: nat, unseq: seq<byte>, max: nat)
    requires Listing(u, unseq) && sym <= |u.list| + 1 && 0 < |u.list| && forall i :: 0 <= i < |u.list| ==>
              u.list[i] < |unseq|
    ensures var eob, pending := |u.list| + 1, u.run.InRun? && u.run.es + 1 > 0;
            var out := if pending then u.out + Repeat(unseq[u.list[0]], u.run.es + 1) else u.out;
            var (es, weight) := if u.run.InRun? then (u.run.es, u.run.weight) else (-1, 1);
            Take(u, sym, eob, unseq, max) ==
              if sym <= 1 then
                if weight >= 2097152 then Bad
                else Going(u.(run := InRun(es + (if sym == 0 then weight else 2 * weight), 2 * weight)))
              else if pending && |u.out| + u.run.es + 1 > max then Bad
              else if sym == eob then Finished(out)
              else if |out| >= max then Bad
              else Going(Unmtf(Front(u.list, sym - 1), out + [unseq[u.list[sym - 1]]], NoRun))
  {
    hide Front, Repeat;
  }

  lemma SearchSizes()
    ensures LONGEST == 20
  {
  }

  lemma ReceiveCases(level: nat, b: Body, g: nat, gp: nat, u: Unmtf, sym: nat)
    requires InBlock(b, g, gp, u) && sym < AlphaSize(b.inUse)
    ensures |b.inUse| == 256 && GoodBody(b) && g < |b.selector| && gp <= G_SIZE
    ensures Listing(u, Unseq(b.inUse)) && |u.list| == |Unseq(b.inUse)| && sym <= |u.list| + 1
    ensures var t := Take(u, sym, |u.list| + 1, Unseq(b.inUse), 100000 * level);
            && (t.Going? ==> Listing(t.m, Unseq(b.inUse)) && |t.m.list| == |u.list|)
            && Parser.Receive(level, b, g, gp, u, sym) ==
                 if t.Going? then NextSymbol(level, b, g, gp, t.m)
                 else if t.Bad? then Fail(DataError)
                 else if b.head.origPtr >= |t.out| then Fail(DataError)
                 else Block(Machine(level, BlockMagic(0)), b.head, t.out)
  {
    hide Take, Used, Listing, NextSymbol, GoodBody, Ok;
    InBlockFacts(b, g, gp, u);
  }

  lemma JudgeCases(level: nat, b: Body, g: nat, gp: nat, u: Unmtf, zn: nat, zvec: nat)
    requires InBlock(b, g, gp, u) && GoodBody(b) && g < |b.selector| && |b.inUse| == 256
    requires Searching(TableOf(Lens(b, g)), Lens(b, g), zn, zvec)
    ensures zn > 20 ==> Parser.Judge(level, b, g, gp, u, zn, zvec) == Fail(DataError)
    ensures zn <= 20 ==>
              var t := TableOf(Lens(b, g));
              && MAX_CODE_LEN <= |t.limit| && MAX_CODE_LEN <= |t.base| && Look(t, zn, zvec) != Corrupt
              && (Look(t, zn, zvec).Symbol? ==> Look(t, zn, zvec).sym < AlphaSize(b.inUse))
              && (Look(t, zn, zvec).Symbol? ==>
                    Parser.Judge(level, b, g, gp, u, zn, zvec)
                        == Parser.Receive(level, b, g, gp, u, Look(t, zn, zvec).sym))
              && (Look(t, zn, zvec) == LongerBy1 ==>
                    Parser.Judge(level, b, g, gp, u, zn, zvec)
                        == To(Machine(level, SymbolBit(b, g, gp, u, zn + 1, zvec))))
  {
    hide InBlock, Searching, TableOf, Look, Parser.Receive, TooShort, Ok, Used, GoodBody;
    if zn <= 20 {
      LookFor(Lens(b, g), zn, zvec);
    }
  }

  lemma StepIs(m: Machine, v: nat)
    requires Ok(m) && (m.stage.SymbolCode? || m.stage.SymbolBit?)
    ensures Parser.Step(m, v) == StepSymbols(m, v)
  {
    hide Ok, StepSymbols;
  }

  lemma BodyFacts(b: Body)
    requires GoodBody(b)
    ensures |b.inUse| == 256 && forall t :: 0 <= t < |b.lens| ==> Lengths(b.lens[t])
    ensures Unseq(b.inUse) == Used(b.inUse, 256)
  {
    hide Used;
  }
}
