/**
 The index of block ends that a compressed file's cache keeps (bzread.c lines 34-47, 192-204,
 223-250 and 342-384): places in the file where decoding can start again.
 */
module BlockIndex {

  import opened Rotation
  import opened Words
  import opened BitStrings
  import opened Parser
  import opened BlockFormat
  import opened Stream

  /** A compressed file and its text. */
  datatype Whole = Whole(d: Data, file: seq<byte>, text: seq<byte>, rest: seq<bool>)

  ghost predicate GoodWhole(w: Whole)
  {
    GoodData(w.d) && Decompressed(w.d, Machine(0, Magic(0)), 0, BytesBits(w.file)) == Good(w.text, w.rest)
  }

  datatype BzIndex = BzIndex(offset: nat, inbits: nat, crc: nat, blocksize: nat, startbits: nat)

  /** `total_in = (zi->inbits + 7) >> 3` */
  function TotalIn(e: BzIndex): (n: nat)
  {
    (e.inbits + 7) / 8
  }

  /** `bitsrem = (total_in << 3) - zi->inbits` */
  function BitsRem(e: BzIndex): (r: nat)
    ensures r < 8
  {
    8 * TotalIn(e) - e.inbits
  }

  /** Decoding from there gives the rest of the text. */
  ghost predicate IndexOk(w: Whole, e: BzIndex)
    requires GoodData(w.d)
  {
    BlockMagicOk(e.blocksize);
    && e.offset <= |w.text| && 1 <= e.blocksize <= 9 && 4 <= TotalIn(e) <= |w.file| && e.startbits < Pow2(BitsRem(e))
    && Decompressed(w.d, Machine(e.blocksize, BlockMagic(0)), e.crc,
                    Bits(e.startbits, BitsRem(e)) + BytesBits(w.file[TotalIn(e)..]))
       == Good(w.text[e.offset..], w.rest)
  }

  predicate Increasing(ix: seq<BzIndex>)
  {
    forall i, j :: 0 <= i < j < |ix| ==> ix[i].offset < ix[j].offset
  }

  /** An index of the file: block ends in the order of the text. */
  ghost predicate IndexValid(w: Whole, ix: seq<BzIndex>)
  {
    GoodWhole(w) && Increasing(ix) && forall i :: 0 <= i < |ix| ==> IndexOk(w, ix[i])
  }

  lemma IndexValidFacts(w: Whole, ix: seq<BzIndex>)
    requires IndexValid(w, ix)
    ensures GoodWhole(w) && GoodData(w.d) && Increasing(ix)
    ensures forall i :: 0 <= i < |ix| ==> IndexOk(w, ix[i]) && ix[i].offset <= |w.text|
  {
    hide Decompressed;
  }

  /** A place where decoding can start: the start of the file, or an entry. */
  ghost predicate At(ix: seq<BzIndex>, p: nat)
  {
    p == 0 || exists i :: 0 <= i < |ix| && ix[i].offset == p
  }

  /** There is an entry at `p` or past it. */
  ghost predicate Reaches(ix: seq<BzIndex>, p: nat)
  {
    exists i :: 0 <= i < |ix| && p <= ix[i].offset
  }

  /** The index only grows, and keeps what it has. */
  lemma Grown(ix: seq<BzIndex>, ix': seq<BzIndex>)
    requires ix <= ix'
    ensures forall p: nat :: At(ix, p) ==> At(ix', p)
    ensures forall p: nat :: Reaches(ix, p) ==> Reaches(ix', p)
  {
    assert forall i :: 0 <= i < |ix| ==> ix[i] == ix'[i];
  }

  /** An index that reaches the end of the text has it. */
  lemma EndIsAt(w: Whole, ix: seq<BzIndex>)
    requires IndexValid(w, ix) && Reaches(ix, |w.text|)
    ensures At(ix, |w.text|)
  {
    hide IndexOk, GoodWhole, Increasing;
    IndexValidFacts(w, ix);
  }

  /** The first entry from `i` on that is past `offset`. */
  function FirstPast(ix: seq<BzIndex>, offset: nat, i: nat): (k: nat)
    requires i <= |ix|
    ensures i <= k <= |ix|
    decreases |ix| - i
  {
    if i == |ix| || ix[i].offset > offset then i else FirstPast(ix, offset, i + 1)
  }

  /** The entry that is found is the nearest one at or before `offset`. */
  lemma {:induction false} FirstPastNearest(ix: seq<BzIndex>, offset: nat, i: nat)
    requires Increasing(ix) && i <= |ix| && forall j :: 0 <= j < i ==> ix[j].offset <= offset
    ensures forall j :: 0 <= j < |ix| ==> (j < FirstPast(ix, offset, i) <==> ix[j].offset <= offset)
    decreases |ix| - i
  {
    if i < |ix| && ix[i].offset <= offset {
      FirstPastNearest(ix, offset, i + 1);
    } else if i < |ix| {
      assert forall j :: i < j < |ix| ==> ix[j].offset > ix[i].offset;
    }
  }

  lemma BitsCount(totalIn: nat, bitsrem: nat, e: BzIndex)
    requires bitsrem < 8 && bitsrem <= 8 * totalIn && e.inbits == 8 * totalIn - bitsrem
    ensures TotalIn(e) == totalIn && BitsRem(e) == bitsrem
  {
  }

  class BzCache {
    const id: nat
    ghost const w: Whole
    /** The size of the text, or -1 while it is not known. */
    var size: int
    var indexes: seq<BzIndex>

    ghost predicate Valid()
      reads this
    {
      IndexValid(w, indexes) && (size == -1 || size == |w.text|)
    }

    constructor (id0: nat, ghost w0: Whole)
      requires GoodWhole(w0)
      ensures Valid() && id == id0 && w == w0 && indexes == [] && size == -1
    {
      id, w, size, indexes := id0, w0, -1, [];
    }

    /** bzcache_find_index, with a result that says whether there is an entry. */
    method FindIndex(offset: nat) returns (found: bool, zi: BzIndex)
      requires Valid()
      ensures found <==> FirstPast(indexes, offset, 0) > 0
      ensures found ==> zi == indexes[FirstPast(indexes, offset, 0) - 1] && IndexOk(w, zi) && zi.offset <= offset
    {
      hide IndexOk, GoodWhole;
      var i: nat := 0;
      while i < |indexes| && indexes[i].offset <= offset
        invariant 0 <= i <= |indexes| && FirstPast(indexes, offset, i) == FirstPast(indexes, offset, 0)
        invariant i > 0 ==> indexes[i - 1].offset <= offset
      {
        i := i + 1;
      }
      if i == 0 {
        return false, BzIndex(0, 0, 0, 0, 0);
      }
      return true, indexes[i - 1];
    }

    method SetSize(n: nat)
      requires Valid() && n == |w.text|
      modifies this`size
      ensures Valid() && size == n
    {
      hide IndexOk, GoodWhole;
      size := n;
    }

    /** bzfile_save_state: a block end past all that are known is appended. */
    method SaveState(offset: nat, totalIn: nat, bitsrem: nat, bits: nat, crc: nat, blocksize: nat)
      requires Valid() && bitsrem < 8 && 4 <= totalIn
      requires IndexOk(w, BzIndex(offset, 8 * totalIn - bitsrem, crc, blocksize, bits % Pow2(bitsrem)))
      modifies this`indexes
      ensures Valid()
      ensures indexes == if forall i :: 0 <= i < |old(indexes)| ==> old(indexes)[i].offset < offset
                         then old(indexes) + [BzIndex(offset, 8 * totalIn - bitsrem, crc, blocksize,
                                                      bits % Pow2(bitsrem))]
                         else old(indexes)
      ensures old(indexes) <= indexes && Reaches(indexes, offset)
    {
      hide IndexOk, GoodWhole;
      var i := 0;
      while i < |indexes|
        invariant 0 <= i <= |indexes| && forall j :: 0 <= j < i ==> indexes[j].offset < offset
      {
        if indexes[i].offset >= offset {
          return;
        }
        i := i + 1;
      }
      indexes := indexes + [BzIndex(offset, 8 * totalIn - bitsrem, crc, blocksize, bits % Pow2(bitsrem))];
      assert indexes[|indexes| - 1].offset == offset;
    }
  }

  // ---------------------------------------------------------------- where to go on from

  datatype Choice = Stay | Swap | Reset | Jump(i: nat)

  /** What bzfile_seek does, from the handle's position, the index and the cached stream's position, if it has one. */
  function Choose(curroff: nat, offset: nat, ix: seq<BzIndex>, cached: int): (c: Choice)
    ensures c.Jump? ==> c.i < |ix| && c.i + 1 == FirstPast(ix, offset, 0)
    ensures c.Swap? ==> 0 <= cached <= offset
    ensures c.Stay? ==> curroff <= offset
  {
    var dist := if offset >= curroff then offset - curroff else -1;
    var i := FirstPast(ix, offset, 0);
    var zcdist := if i > 0 then offset - ix[i - 1].offset else offset;
    if 0 <= cached <= offset && (dist == -1 || offset - cached < dist) && offset - cached < zcdist then Swap
    else if dist == -1 || zcdist < dist then if i > 0 then Jump(i - 1) else Reset
    else Stay
  }

  lemma ChooseIs(curroff: nat, offset: nat, ix: seq<BzIndex>, cached: int)
    ensures var i := FirstPast(ix, offset, 0);
            var dist := if offset >= curroff then offset - curroff else -1;
            var zcdist := if i > 0 then offset - ix[i - 1].offset else offset;
            Choose(curroff, offset, ix, cached) ==
              if 0 <= cached <= offset && (dist == -1 || offset - cached < dist) && offset - cached < zcdist then Swap
              else if dist == -1 || zcdist < dist then if i > 0 then Jump(i - 1) else Reset
              else Stay
  {
  }

  /** Where decoding goes on from. */
  function Place(c: Choice, curroff: nat, ix: seq<BzIndex>, cached: int): (p: int)
    requires c.Jump? ==> c.i < |ix|
  {
    match c
    case Stay => curroff
    case Swap => cached
    case Reset => 0
    case Jump(i) => ix[i].offset
  }

  lemma PlaceIs(c: Choice, curroff: nat, ix: seq<BzIndex>, cached: int)
    requires c.Jump? ==> c.i < |ix|
    ensures Place(c, curroff, ix, cached) == if c.Stay? then curroff else if c.Swap? then cached else if c.Reset? then 0
              else ix[c.i].offset
  {
  }

  /** The choice is the nearest of all places at or before the offset. */
  lemma ChooseNearest(curroff: nat, offset: nat, ix: seq<BzIndex>, cached: int)
    requires Increasing(ix)
    ensures var c := Choose(curroff, offset, ix, cached);
            var from := Place(c, curroff, ix, cached);
            && 0 <= from <= offset && (curroff <= offset ==> curroff <= from)
            && (0 <= cached <= offset ==> cached <= from)
            && forall j :: 0 <= j < |ix| && ix[j].offset <= offset ==> ix[j].offset <= from
  {
    FirstPastNearest(ix, offset, 0);
    var i := FirstPast(ix, offset, 0);
    if i > 0 {
      assert ix[i - 1].offset <= offset;
      assert forall j :: 0 <= j < i - 1 ==> ix[j].offset < ix[i - 1].offset;
    }
  }

  /** A cached decoder that is where decoding can start anyway is never taken. */
  lemma NotSwapped(curroff: nat, offset: nat, ix: seq<BzIndex>, cached: nat)
    requires Increasing(ix) && At(ix, cached)
    ensures !Choose(curroff, offset, ix, cached).Swap?
  {
    FirstPastNearest(ix, offset, 0);
    var i := FirstPast(ix, offset, 0);
    if cached != 0 && cached <= offset {
      var j :| 0 <= j < |ix| && ix[j].offset == cached;
      assert j < i && (j < i - 1 ==> ix[j].offset < ix[i - 1].offset);
    }
  }

  /** From past the offset, the start of the file is chosen exactly if nothing else is known at or before the offset. */
  lemma ResetExactly(curroff: nat, offset: nat, ix: seq<BzIndex>, cached: int)
    requires Increasing(ix) && offset < curroff
    ensures Choose(curroff, offset, ix, cached) == Reset
            <==> (forall j :: 0 <= j < |ix| ==> offset < ix[j].offset) && !(0 < cached <= offset)
  {
    FirstPastNearest(ix, offset, 0);
  }
}
