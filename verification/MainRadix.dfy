/**
 The initial radix sort of the main block sorter by the first two symbols, and the order in
 which it will treat the big buckets (blocksort.c lines 769-865).
 */
module MainRadix {

  import opened Rotation
  import opened Counting
  import opened Rearrange
  import opened MainCompare
  import opened MainBuckets
  import opened TotalSeqs

  const FTAB_SIZE := 65537

  ghost function ZeroQuadrants(n: nat): (q: seq<nat>)
    ensures |q| == n && forall i :: 0 <= i < n ==> q[i] == 0
  {
    seq(n, _ => 0)
  }

  // ---------------------------------------------------------------- counting pairs

  /** `ftab` counts the pairs of the rotations `i ..`. */
  ghost predicate CountsFrom(ftab: seq<nat>, l: seq<nat>, i: nat)
  {
    |ftab| == FTAB_SIZE && i <= |l| && forall c :: 0 <= c < FTAB_SIZE ==> ftab[c] == Occ(l, c, |l|) - Occ(l, c, i)
  }

  lemma CountsStep(ftab: seq<nat>, l: seq<nat>, i: nat)
    requires CountsFrom(ftab, l, i + 1) && i < |l| && l[i] < 65536
    ensures CountsFrom(ftab[l[i] := ftab[l[i]] + 1], l, i)
  {
    OccStep(l, i);
    hide Occ;
  }

  lemma CountsDone(ftab: seq<nat>, l: seq<nat>)
    requires CountsFrom(ftab, l, 0)
    ensures |ftab| == FTAB_SIZE && forall c :: 0 <= c < FTAB_SIZE ==> ftab[c] == Occ(l, c, |l|)
  {
    assert forall c: nat :: Occ(l, c, 0) == 0;
  }

  lemma PairStep(b: seq<byte>, i: nat, j: nat)
    requires i < |b| && j < 65536 && j / 256 == b[Next(|b|, i)]
    ensures j / 256 + 256 * (b[i] as nat) == Pair(b, i) < 65536
    ensures Pair(b, i) / 256 == b[i]
  {
  }

  /** Counts the rotations by their first two symbols, and clears the quadrants. */
  method CountPairs(block: array<nat>, quadrant: array<nat>, ftab: array<nat>, nblock: nat, ghost b: seq<byte>)
    requires block != quadrant && block != ftab && quadrant != ftab
    requires ftab.Length == FTAB_SIZE && 0 < nblock == |b| <= block.Length && nblock <= quadrant.Length
    requires block[..nblock] == b
    modifies quadrant, ftab
    ensures forall c :: 0 <= c < FTAB_SIZE ==> ftab[c] == Occ(Pairs(b), c, nblock)
    ensures forall i :: 0 <= i < nblock ==> quadrant[i] == 0
  {
    hide Occ, Pair;
    ghost var l := Pairs(b);
    for i := 0 to FTAB_SIZE
      invariant forall c :: 0 <= c < i ==> ftab[c] == 0
    {
      ftab[i] := 0;
    }
    assert CountsFrom(ftab[..], l, nblock);
    var j := block[0] * 256;
    var i: int := nblock - 1;
    while i >= 0
      invariant -1 <= i < nblock && block[..nblock] == b
      invariant i >= 0 ==> j < 65536 && j / 256 == b[Next(nblock, i)]
      invariant CountsFrom(ftab[..], l, i + 1)
      invariant forall x :: i < x < nblock ==> quadrant[x] == 0
    {
      quadrant[i] := 0;
      assert block[i] == b[i];
      PairStep(b, i, j);
      j := j / 256 + block[i] * 256;
      ghost var was := ftab[..];
      CountsStep(was, l, i);
      ftab[j] := ftab[j] + 1;
      assert ftab[..] == was[j := was[j] + 1];
      i := i - 1;
    }
    CountsDone(ftab[..], l);
  }

  /** Repeats the first 34 bytes after the block, with quadrants 0. */
  method Overshoot(block: array<nat>, quadrant: array<nat>, nblock: nat, ghost b: seq<byte>)
    requires block != quadrant && nblock == |b| > OVERSHOOT
    requires nblock + OVERSHOOT <= block.Length && nblock + OVERSHOOT <= quadrant.Length
    requires block[..nblock] == b && forall i :: 0 <= i < nblock ==> quadrant[i] == 0
    modifies block, quadrant
    ensures block[..nblock] == b
    ensures Tables(block[..], quadrant[..], b, ZeroQuadrants(nblock))
  {
    hide Le;
    for i := 0 to OVERSHOOT
      invariant forall x :: 0 <= x < nblock + i ==> block[x] == b[Wrap(nblock, x)]
      invariant forall x :: 0 <= x < nblock + i ==> quadrant[x] == 0
    {
      block[nblock + i] := block[i];
      quadrant[nblock + i] := 0;
    }
  }

  // ---------------------------------------------------------------- distribution

  /** Turns the counts into bucket ends. */
  method AccumulatePairs(ftab: array<nat>, ghost l: seq<nat>)
    requires ftab.Length == FTAB_SIZE && forall c :: 0 <= c < FTAB_SIZE ==> ftab[c] == Occ(l, c, |l|)
    modifies ftab
    ensures forall c :: 0 <= c < FTAB_SIZE ==> ftab[c] == Start(l, c, |l|) + Occ(l, c, |l|)
  {
    hide Occ;
    assert Start(l, 0, |l|) == 0;
    for i := 1 to FTAB_SIZE
      invariant forall c :: 0 <= c < i ==> ftab[c] == Start(l, c, |l|) + Occ(l, c, |l|)
      invariant forall c :: i <= c < FTAB_SIZE ==> ftab[c] == Occ(l, c, |l|)
    {
      assert Start(l, i, |l|) == Start(l, i - 1, |l|) + Occ(l, i - 1, |l|);
      ftab[i] := ftab[i] + ftab[i - 1];
    }
  }

  /** The rotations `i ..` are in place, and `ftab` says where the next of each pair goes. */
  ghost predicate Placed(ftab: seq<nat>, p: seq<nat>, l: seq<nat>, i: nat)
  {
    && |ftab| == FTAB_SIZE && |p| == |l| && i <= |l|
    && (forall c :: 0 <= c < FTAB_SIZE ==> ftab[c] == Start(l, c, |l|) + Occ(l, c, i))
    && (forall x :: i <= x < |l| ==> LF(l, x) < |p| && p[LF(l, x)] == x)
  }

  lemma PlacedStep(ftab: seq<nat>, p: seq<nat>, l: seq<nat>, i: nat)
    requires Placed(ftab, p, l, i + 1) && i < |l| && l[i] < 65536
    ensures ftab[l[i]] == LF(l, i) + 1 && LF(l, i) < |p|
    ensures Placed(ftab[l[i] := LF(l, i)], p[LF(l, i) := i], l, i)
  {
    OccStep(l, i);
    hide Occ, Start;
    LFBucket(l, i);
    forall x | i + 1 <= x < |l| ensures LF(l, x) != LF(l, i) {
      if l[x] < l[i] {
        LFOrder(l, x, i);
      } else {
        LFOrder(l, i, x);
      }
    }
  }

  /** The order by the first two symbols that the radix sort leaves. */
  ghost function PairOrder(b: seq<byte>): (p: seq<nat>)
  {
    seq(|b|, x requires 0 <= x < |b| => PairAt(b, x))
  }

  ghost function PairAt(b: seq<byte>, x: nat): (i: nat)
  {
    if i: nat :| i < |b| && LF(Pairs(b), i) == x then i else 0
  }

  lemma PairOrderIs(b: seq<byte>, p: seq<nat>)
    requires |p| == |b| && forall i :: 0 <= i < |b| ==> LF(Pairs(b), i) < |p| && p[LF(Pairs(b), i)] == i
    ensures p == PairOrder(b)
  {
    hide LF, Pair;
    forall x | 0 <= x < |b| ensures p[x] == PairAt(b, x) {
      PairPlace(b, p, x);
    }
  }

  lemma PairPlace(b: seq<byte>, p: seq<nat>, x: nat)
    requires |p| == |b| && x < |b|
    requires forall i :: 0 <= i < |b| ==> LF(Pairs(b), i) < |p| && p[LF(Pairs(b), i)] == i
    ensures p[x] < |b| && LF(Pairs(b), p[x]) == x
  {
    Source(Pairs(b), p, x);
  }

  /** Sends every rotation to its small bucket; `ftab` ends with the bucket starts. */
  method Distribute(block: array<nat>, ftab: array<nat>, ptr: array<nat>, nblock: nat, ghost b: seq<byte>)
    requires block != ptr && block != ftab && ptr != ftab
    requires ftab.Length == FTAB_SIZE && 0 < nblock == |b| == ptr.Length && nblock <= block.Length
    requires block[..nblock] == b
    requires forall c :: 0 <= c < FTAB_SIZE ==> ftab[c] == Start(Pairs(b), c, nblock) + Occ(Pairs(b), c, nblock)
    modifies ftab, ptr
    ensures ByPair(b, ptr[..]) && forall c :: 0 <= c < FTAB_SIZE ==> ftab[c] == StartP(b, c)
    ensures ptr[..] == PairOrder(b)
  {
    hide Occ, Pair, Start, PairOrder;
    ghost var l := Pairs(b);
    assert Placed(ftab[..], ptr[..], l, nblock);
    var s := block[0] * 256;
    var i: int := nblock - 1;
    while i >= 0
      invariant -1 <= i < nblock && block[..nblock] == b
      invariant i >= 0 ==> s < 65536 && s / 256 == b[Next(nblock, i)]
      invariant Placed(ftab[..], ptr[..], l, i + 1)
    {
      assert block[i] == b[i];
      PairStep(b, i, s);
      s := s / 256 + block[i] * 256;
      ghost var was, p: seq<nat> := ftab[..], ptr[..];
      PlacedStep(was, p, l, i);
      var j := ftab[s] - 1;
      ftab[s] := j;
      ptr[j] := i;
      assert ftab[..] == was[s := j] && ptr[..] == p[j := i];
      i := i - 1;
    }
    PlacedDone(ftab[..], ptr[..], b);
  }

  lemma PlacedDone(ftab: seq<nat>, p: seq<nat>, b: seq<byte>)
    requires Placed(ftab, p, Pairs(b), 0)
    ensures ByPair(b, p) && |ftab| == FTAB_SIZE && forall c :: 0 <= c < FTAB_SIZE ==> ftab[c] == StartP(b, c)
    ensures p == PairOrder(b)
  {
    assert forall c: nat :: Occ(Pairs(b), c, 0) == 0;
    hide Start, ByPair, PairOrder;
    DistributedByPair(b, p);
    PairOrderIs(b, p);
  }

  // ---------------------------------------------------------------- running order

  /** The size of the big bucket of symbol `s`. */
  function BigFreq(ftab: seq<nat>, s: nat): (f: int)
    requires |ftab| == FTAB_SIZE && s < 256
  {
    ftab[256 * (s + 1)] as int - ftab[256 * s] as int
  }

  /** `order` lists every symbol once. */
  ghost predicate Order(order: seq<nat>)
  {
    Perm(order, 256)
  }

  ghost predicate BySize(ftab: seq<nat>, order: seq<nat>, n: int)
    requires |ftab| == FTAB_SIZE && Order(order)
  {
    forall x, y :: 0 <= x <= y < n <= 256 ==> BigFreq(ftab, order[x]) <= BigFreq(ftab, order[y])
  }

  ghost predicate Symbols(order: seq<nat>)
  {
    |order| == 256 && forall x :: 0 <= x < 256 ==> order[x] < 256
  }

  /** The insertion of `order0[i]` with stride `h`; the hole is at `j`. */
  ghost predicate Sifting(ftab: seq<nat>, order0: seq<nat>, order: seq<nat>, i: int, j: int, h: nat)
    requires |ftab| == FTAB_SIZE && Symbols(order0)
  {
    && Symbols(order) && 0 <= j <= i < 256
    && multiset(order[j := order0[i]]) == multiset(order0)
    && (forall x :: 0 <= x < j ==> order[x] == order0[x])
    && (h == 1 ==> forall x :: j < x <= i ==> order[x] == order0[x - 1])
    && (h == 1 ==> forall x :: j <= x < i ==> BigFreq(ftab, order0[x]) > BigFreq(ftab, order0[i]))
  }

  lemma SiftingStart(ftab: seq<nat>, order: seq<nat>, i: int, h: nat)
    requires |ftab| == FTAB_SIZE && Order(order) && 0 <= i < 256
    ensures Symbols(order) && Sifting(ftab, order, order, i, i, h)
  {
    assert order[i := order[i]] == order;
  }

  lemma SiftingStep(ftab: seq<nat>, order0: seq<nat>, order: seq<nat>, i: int, j: int, g: int, h: nat)
    requires |ftab| == FTAB_SIZE && Symbols(order0) && Sifting(ftab, order0, order, i, j, h)
    requires h >= 1 && 0 <= g == j - h && BigFreq(ftab, order[g]) > BigFreq(ftab, order0[i])
    ensures Sifting(ftab, order0, order[j := order[g]], i, g, h)
  {
    HoleMoves(order0, order, j, g, order0[i]);
    hide BigFreq;
  }

  lemma SiftingDone(ftab: seq<nat>, order0: seq<nat>, order: seq<nat>, i: int, j: int, h: nat)
    requires |ftab| == FTAB_SIZE && Order(order0) && Symbols(order0) && Sifting(ftab, order0, order, i, j, h) && h >= 1
    requires j < h || BigFreq(ftab, order[j - h]) <= BigFreq(ftab, order0[i])
    ensures Order(order[j := order0[i]])
    ensures h == 1 && BySize(ftab, order0, i) ==> BySize(ftab, order[j := order0[i]], i + 1)
  {
    var order' := order[j := order0[i]];
    assert Rearranged(order0, order', 0, 255);
    RearrangedPerm(order0, order', 0, 255, 256);
    hide BigFreq;
    if h == 1 && BySize(ftab, order0, i) {
      forall x, y | 0 <= x <= y < i + 1 ensures BigFreq(ftab, order'[x]) <= BigFreq(ftab, order'[y]) {
        SiftedPair(ftab, order0, order', i, j, x, y);
      }
    }
  }

  lemma SiftedPair(ftab: seq<nat>, order0: seq<nat>, order': seq<nat>, i: int, j: int, x: int, y: int)
    requires |ftab| == FTAB_SIZE && Order(order0) && Symbols(order') && 0 <= j <= i < 256 && BySize(ftab, order0, i)
    requires forall x :: 0 <= x < j ==> order'[x] == order0[x]
    requires forall x :: j < x <= i ==> order'[x] == order0[x - 1]
    requires forall x :: j <= x < i ==> BigFreq(ftab, order0[x]) > BigFreq(ftab, order0[i])
    requires order'[j] == order0[i] && (j < 1 || BigFreq(ftab, order0[j - 1]) <= BigFreq(ftab, order0[i]))
    requires 0 <= x <= y <= i
    ensures BigFreq(ftab, order'[x]) <= BigFreq(ftab, order'[y])
  {
    hide BigFreq;
    if x < y {
      if y == j {
        assert BigFreq(ftab, order0[x]) <= BigFreq(ftab, order0[j - 1]);
      } else if x != j {
        var x', y' := if x < j then x else x - 1, if y < j then y else y - 1;
        assert order'[x] == order0[x'] && order'[y] == order0[y'];
      } else {
        assert order'[y] == order0[y - 1];
      }
    }
  }

  // What the shell sort does, as functions of the table of bucket starts.

  function SizeOf(ftab: seq<nat>, s: nat): (f: int)
  {
    At(ftab, 256 * (s + 1)) - At(ftab, 256 * s)
  }

  datatype Sift = Sift(order: seq<nat>, j: int)

  function Sifted(order: seq<nat>, ftab: seq<nat>, j: int, h: nat, vv: nat): (r: Sift)
    decreases j
  {
    if h == 0 || j < h || SizeOf(ftab, At(order, j - h)) <= SizeOf(ftab, vv) then Sift(order, j)
    else Sifted(Put(order, j, At(order, j - h)), ftab, j - h, h, vv)
  }

  function SymbolPut(order: seq<nat>, ftab: seq<nat>, i: int, h: nat): (r: seq<nat>)
  {
    var t := Sifted(order, ftab, i, h, At(order, i));
    Put(t.order, t.j, At(order, i))
  }

  function SymbolsPut(order: seq<nat>, ftab: seq<nat>, i: int, h: nat): (r: seq<nat>)
    decreases 256 - i
  {
    if i >= 256 then order else SymbolsPut(SymbolPut(order, ftab, i, h), ftab, i + 1, h)
  }

  /** The passes with the strides after `h`. */
  function OrderPasses(order: seq<nat>, ftab: seq<nat>, h: nat): (r: seq<nat>)
    decreases h
  {
    if h <= 1 then order else OrderPasses(SymbolsPut(order, ftab, h / 3, h / 3), ftab, h / 3)
  }

  function Numbers(): (s: seq<nat>)
  {
    seq(256, (i: nat) => i)
  }

  function RunningOf(ftab: seq<nat>): (order: seq<nat>)
  {
    OrderPasses(Numbers(), ftab, 364)
  }

  lemma SiftedStep(order: seq<nat>, ftab: seq<nat>, j: int, h: nat, vv: nat)
    requires |ftab| == FTAB_SIZE && 1 <= h && j < |order| && vv < 256 && (j >= h ==> order[j - h] < 256)
    ensures Sifted(order, ftab, j, h, vv)
            == if j < h || BigFreq(ftab, order[j - h]) <= BigFreq(ftab, vv) then Sift(order, j)
               else Sifted(order[j := order[j - h]], ftab, j - h, h, vv)
  {
  }

  lemma SymbolPutIs(order: seq<nat>, ftab: seq<nat>, i: nat, h: nat)
    requires i < |order|
    ensures var t := Sifted(order, ftab, i, h, order[i]);
            0 <= t.j < |t.order| ==> SymbolPut(order, ftab, i, h) == t.order[t.j := order[i]]
  {
    hide Sifted;
  }

  lemma SymbolsPutStep(order: seq<nat>, ftab: seq<nat>, i: int, h: nat)
    ensures SymbolsPut(order, ftab, i, h)
            == if i >= 256 then order else SymbolsPut(SymbolPut(order, ftab, i, h), ftab, i + 1, h)
  {
    hide SymbolPut;
  }

  lemma OrderPassesStep(order: seq<nat>, ftab: seq<nat>, h: nat)
    ensures OrderPasses(order, ftab, h)
            == if h <= 1 then order else OrderPasses(SymbolsPut(order, ftab, h / 3, h / 3), ftab, h / 3)
  {
    hide SymbolsPut;
  }

  lemma RunningIs(order: seq<nat>, ftab: seq<nat>)
    requires |order| == 256 && forall x :: 0 <= x < 256 ==> order[x] == x
    ensures RunningOf(ftab) == OrderPasses(order, ftab, 364)
  {
    hide OrderPasses;
    assert order == Numbers();
  }

  /** One insertion of the shell sort. */
  method InsertSymbol(order: array<nat>, ftab: array<nat>, i: int, h: nat)
    requires order != ftab && ftab.Length == FTAB_SIZE && Order(order[..]) && 1 <= h <= i < 256
    modifies order
    ensures Order(order[..])
    ensures h == 1 && BySize(ftab[..], old(order[..]), i) ==> BySize(ftab[..], order[..], i + 1)
    ensures order[..] == SymbolPut(old(order[..]), ftab[..], i, h)
  {
    hide Order, BySize, Sifting, BigFreq, Perm, Sifted, SymbolPut;
    ghost var o: seq<nat>, f: seq<nat> := order[..], ftab[..];
    SiftingStart(f, o, i, h);
    SymbolPutIs(o, f, i, h);
    assert |o| == order.Length == 256;
    var vv := order[i];
    var j := i;
    var g := j - h;
    while true
      invariant ftab[..] == f && order.Length == 256 && g == j - h && h <= j <= i
      invariant Sifting(f, o, order[..], i, j, h)
      invariant Sifted(o, f, i, h, vv) == Sifted(order[..], f, j, h, vv)
      decreases j
    {
      ghost var s: seq<nat> := order[..];
      SiftingSymbols(f, o, s, i, j, h);
      SiftedStep(s, f, j, h, vv);
      if BigFreq(ftab[..], order[g]) <= BigFreq(ftab[..], vv) {
        break;
      }
      SiftingStep(f, o, s, i, j, g, h);
      order[j] := order[g];
      assert order[..] == s[j := s[g]];
      j := g;
      g := j - h;
      if j <= h - 1 {
        SiftedStep(order[..], f, j, h, vv);
        break;
      }
    }
    ghost var s: seq<nat> := order[..];
    SiftingSymbols(f, o, s, i, j, h);
    SiftingDone(f, o, s, i, j, h);
    order[j] := vv;
    assert order[..] == s[j := vv];
  }

  lemma SiftingSymbols(ftab: seq<nat>, order0: seq<nat>, order: seq<nat>, i: int, j: int, h: nat)
    requires |ftab| == FTAB_SIZE && Symbols(order0) && Sifting(ftab, order0, order, i, j, h)
    ensures Symbols(order) && 0 <= j <= i < 256
  {
  }

  /** The running order: all symbols, from the smallest to the largest big bucket. */
  method RunningOrder(order: array<nat>, ftab: array<nat>)
    requires order != ftab && order.Length == 256 && ftab.Length == FTAB_SIZE
    modifies order
    ensures Order(order[..]) && BySize(ftab[..], order[..], 256)
    ensures order[..] == RunningOf(ftab[..])
  {
    hide RunningOf, OrderPasses, SymbolsPut, SymbolPut, Numbers;
    for i := 0 to 256
      invariant forall x :: 0 <= x < i ==> order[x] == x
    {
      order[i] := i;
    }
    assert Order(order[..]);
    ghost var f := ftab[..];
    RunningIs(order[..], f);
    ghost var all := RunningOf(f);
    hide Order, BySize, BigFreq;
    var h := 4;
    while h <= 256
      invariant h == 4 || h == 13 || h == 40 || h == 121 || h == 364
      invariant all == OrderPasses(order[..], f, 364)
      decreases 400 - h
    {
      h := 3 * h + 1;
    }
    while h != 1
      invariant (h == 1 || h == 4 || h == 13 || h == 40 || h == 121 || h == 364) && ftab[..] == f
      invariant Order(order[..]) && (h == 1 ==> BySize(f, order[..], 256))
      invariant all == OrderPasses(order[..], f, h)
      decreases h
    {
      OrderPassesStep(order[..], f, h);
      h := h / 3;
      ghost var pass := SymbolsPut(order[..], f, h, h);
      FirstInSize(f, order[..]);
      for i := h to 256
        invariant ftab[..] == f && Order(order[..]) && (h == 1 ==> BySize(f, order[..], i))
        invariant pass == SymbolsPut(order[..], f, i, h)
      {
        SymbolsPutStep(order[..], f, i, h);
        InsertSymbol(order, ftab, i, h);
      }
      SymbolsPutStep(order[..], f, 256, h);
    }
    OrderPassesStep(order[..], f, 1);
  }

  lemma FirstInSize(ftab: seq<nat>, order: seq<nat>)
    requires |ftab| == FTAB_SIZE && Order(order)
    ensures BySize(ftab, order, 1)
  {
  }
}
