/**
 Cyclic rotations of a block and their lexicographic order.

 The block sorter orders the `n` rotations of a block of `n` bytes.  Rotation `i` is the
 cyclic string that starts at index `i`.  Rotations of a periodic block can be equal, so
 the order is a total preorder and "sorted" is always read non-strictly.
 */
module Rotation {

  type byte = x: int | 0 <= x < 256

  /** The largest block: 9 times 100000 bytes. */
  const MAX_BLOCK := 900000

  /** The index after `i` in a cyclic block of `n` bytes. */
  function Next(n: nat, i: nat): (r: nat)
    requires i < n
    ensures r < n
  {
    if i + 1 == n then 0 else i + 1
  }

  /** The index before `i`: the sources' `k = ptr[i]-1; if (k < 0) k += nblock`. */
  function Prev(n: nat, i: nat): (r: nat)
    requires i < n
    ensures r < n && Next(n, r) == i
  {
    if i == 0 then n - 1 else i - 1
  }

  /** The index `h` places after `i`. */
  function Advance(n: nat, i: nat, h: nat): (r: nat)
    requires i < n
    ensures r < n
    decreases h
  {
    if h == 0 then i else Advance(n, Next(n, i), h - 1)
  }

  /** Three-way comparison of the first `h` symbols of rotations `i` and `j`. */
  function Cmp(b: seq<byte>, i: nat, j: nat, h: nat): (c: int)
    requires i < |b| && j < |b|
    ensures -1 <= c <= 1
    decreases h
  {
    if h == 0 then 0
    else if b[i] < b[j] then -1
    else if b[i] > b[j] then 1
    else Cmp(b, Next(|b|, i), Next(|b|, j), h - 1)
  }

  /** Rotation `i` precedes or equals rotation `j`. */
  predicate Le(b: seq<byte>, i: nat, j: nat)
    requires i < |b| && j < |b|
  {
    Cmp(b, i, j, |b|) <= 0
  }

  predicate Equal(b: seq<byte>, i: nat, j: nat)
    requires i < |b| && j < |b|
  {
    Cmp(b, i, j, |b|) == 0
  }

  /** `p` lists each of `0 .. n-1` exactly once. */
  ghost predicate Perm(p: seq<nat>, n: nat)
  {
    && |p| == n
    && (forall x :: 0 <= x < n ==> p[x] < n)
    && (forall x, y :: 0 <= x < y < n ==> p[x] != p[y])
  }

  /** `p` is an order of all rotations of `b` in which no rotation follows a greater one. */
  ghost predicate Sorted(b: seq<byte>, p: seq<nat>)
  {
    && Perm(p, |b|)
    && (forall x, y :: 0 <= x <= y < |b| ==> Le(b, p[x], p[y]))
  }

  lemma PrevOfNext(n: nat, v: nat)
    requires v < n
    ensures Prev(n, Next(n, v)) == v
  {
  }

  lemma SortedPerm(b: seq<byte>, p: seq<nat>)
    requires Sorted(b, p)
    ensures Perm(p, |b|) && |p| == |b| && forall x :: 0 <= x < |p| ==> p[x] < |b|
  {
    hide Le;
  }

  lemma {:induction false} AdvanceIs(n: nat, i: nat, h: nat)
    requires i < n && h <= n
    ensures Advance(n, i, h) == if i + h < n then i + h else i + h - n
    decreases h
  {
    if h > 0 {
      AdvanceIs(n, Next(n, i), h - 1);
    }
  }

  lemma {:induction false} AdvanceAdd(n: nat, i: nat, g: nat, h: nat)
    requires i < n
    ensures Advance(n, i, g + h) == Advance(n, Advance(n, i, g), h)
    decreases g
  {
    if g > 0 {
      AdvanceAdd(n, Next(n, i), g - 1, h);
    }
  }

  lemma {:induction false} CmpRefl(b: seq<byte>, i: nat, h: nat)
    requires i < |b|
    ensures Cmp(b, i, i, h) == 0
    decreases h
  {
    if h > 0 {
      CmpRefl(b, Next(|b|, i), h - 1);
    }
  }

  lemma {:induction false} CmpAntisym(b: seq<byte>, i: nat, j: nat, h: nat)
    requires i < |b| && j < |b|
    ensures Cmp(b, i, j, h) == -Cmp(b, j, i, h)
    decreases h
  {
    if h > 0 {
      CmpAntisym(b, Next(|b|, i), Next(|b|, j), h - 1);
    }
  }

  lemma {:induction false} CmpTrans(b: seq<byte>, i: nat, j: nat, k: nat, h: nat)
    requires i < |b| && j < |b| && k < |b|
    requires Cmp(b, i, j, h) <= 0 && Cmp(b, j, k, h) <= 0
    ensures Cmp(b, i, k, h) <= 0
    ensures Cmp(b, i, k, h) == 0 ==> Cmp(b, i, j, h) == 0 && Cmp(b, j, k, h) == 0
    decreases h
  {
    if h > 0 && b[i] == b[j] && b[j] == b[k] {
      CmpTrans(b, Next(|b|, i), Next(|b|, j), Next(|b|, k), h - 1);
    }
  }

  /** Comparing `g + h` symbols is comparing `g`, then the `h` that follow. */
  lemma {:induction false} CmpSplit(b: seq<byte>, i: nat, j: nat, g: nat, h: nat)
    requires i < |b| && j < |b|
    ensures Cmp(b, i, j, g + h) ==
            if Cmp(b, i, j, g) != 0 then Cmp(b, i, j, g)
            else Cmp(b, Advance(|b|, i, g), Advance(|b|, j, g), h)
    decreases g
  {
    if g > 0 {
      CmpSplit(b, Next(|b|, i), Next(|b|, j), g - 1, h);
    }
  }

  /** The two rotations after equal rotations are equal, and their last symbols agree. */
  lemma EqualNext(b: seq<byte>, i: nat, j: nat)
    requires i < |b| && j < |b| && Equal(b, i, j)
    ensures Equal(b, Next(|b|, i), Next(|b|, j))
    ensures b[i] == b[j]
  {
    var n, i', j' := |b|, Next(|b|, i), Next(|b|, j);
    CmpSplit(b, i', j', n - 1, 1);
    AdvanceIs(n, i', n - 1);
    AdvanceIs(n, j', n - 1);
    assert Cmp(b, i, j, 1) == 0;
  }

  lemma EqualPrev(b: seq<byte>, i: nat, j: nat)
    requires i < |b| && j < |b| && Equal(b, i, j)
    ensures Equal(b, Prev(|b|, i), Prev(|b|, j))
    ensures b[Prev(|b|, i)] == b[Prev(|b|, j)]
  {
    var n := |b|;
    CmpSplit(b, i, j, n - 1, 1);
    AdvanceIs(n, i, n - 1);
    AdvanceIs(n, j, n - 1);
    assert Cmp(b, Prev(n, i), Prev(n, j), 1) == 0;
  }

  /** Rotations that agree on all `n` symbols agree for ever. */
  lemma {:induction false} EqualForever(b: seq<byte>, i: nat, j: nat, h: nat)
    requires i < |b| && j < |b| && Equal(b, i, j)
    ensures Cmp(b, i, j, h) == 0
    decreases h
  {
    if h > 0 {
      EqualNext(b, i, j);
      EqualForever(b, Next(|b|, i), Next(|b|, j), h - 1);
    }
  }

  /** Any comparison of at least `n` symbols decides the order of the rotations. */
  lemma DeepCompare(b: seq<byte>, i: nat, j: nat, h: nat)
    requires i < |b| && j < |b| && h >= |b|
    ensures Cmp(b, i, j, h) == Cmp(b, i, j, |b|)
  {
    CmpSplit(b, i, j, |b|, h - |b|);
    if Equal(b, i, j) {
      EqualForever(b, i, j, h);
    }
  }

  /** A symbol put before two rotations orders them first; equal symbols leave the order alone. */
  lemma LePrev(b: seq<byte>, i: nat, j: nat)
    requires i < |b| && j < |b|
    requires b[Prev(|b|, i)] < b[Prev(|b|, j)] || (b[Prev(|b|, i)] == b[Prev(|b|, j)] && Le(b, i, j))
    ensures Le(b, Prev(|b|, i), Prev(|b|, j))
  {
    var n, i', j' := |b|, Prev(|b|, i), Prev(|b|, j);
    if b[i'] == b[j'] {
      DeepCompare(b, i', j', n + 1);
    }
  }

  /** The same block read from another start gives the same symbol `h` places on. */
  lemma {:induction false} EqualSymbol(b: seq<byte>, i: nat, j: nat, h: nat)
    requires i < |b| && j < |b| && Equal(b, i, j)
    ensures b[Advance(|b|, i, h)] == b[Advance(|b|, j, h)]
    decreases h
  {
    EqualNext(b, i, j);
    if h > 0 {
      EqualSymbol(b, Next(|b|, i), Next(|b|, j), h - 1);
    }
  }

  // ---------------------------------------------------------------- counting

  ghost function Elements(p: seq<nat>): (s: set<nat>)
  {
    set x | x in p
  }

  lemma {:induction false} DistinctSize(p: seq<nat>)
    requires forall x, y :: 0 <= x < y < |p| ==> p[x] != p[y]
    ensures |Elements(p)| == |p|
  {
    if p != [] {
      var q := p[..|p| - 1];
      DistinctSize(q);
      assert p == q + [p[|p| - 1]];
      assert Elements(p) == Elements(q) + {p[|p| - 1]};
    }
  }

  lemma {:induction false} SizeAtMost(p: seq<nat>)
    ensures |Elements(p)| <= |p|
  {
    if p != [] {
      var q := p[..|p| - 1];
      SizeAtMost(q);
      assert p == q + [p[|p| - 1]];
      assert Elements(p) == Elements(q) + {p[|p| - 1]};
    }
  }

  ghost function Below(n: nat): (s: set<nat>)
    ensures forall x: nat :: x in s <==> x < n
    ensures |s| == n
  {
    if n == 0 then {} else Below(n - 1) + {n - 1}
  }

  lemma SubsetSize(a: set<nat>, b: set<nat>)
    requires a <= b
    ensures |a| <= |b|
    ensures |a| == |b| ==> a == b
  {
    assert b == a + (b - a);
    assert |b| == |a| + |b - a|;
  }

  /** A permutation hits every index. */
  lemma PermOnto(p: seq<nat>, n: nat, v: nat)
    requires Perm(p, n) && v < n
    ensures v in p
  {
    DistinctSize(p);
    assert Elements(p) <= Below(n);
    SubsetSize(Elements(p), Below(n));
    assert v in Elements(p);
  }

  /** No two sorted orders of a block differ except between equal rotations. */
  lemma SortedUniqueHalf(b: seq<byte>, p: seq<nat>, q: seq<nat>, y: nat)
    requires Sorted(b, p) && Sorted(b, q) && y < |b|
    ensures Le(b, q[y], p[y])
  {
    var n := |b|;
    if !Le(b, q[y], p[y]) {
      var low, high := p[..y + 1], q[..y];
      DistinctSize(low);
      SizeAtMost(high);
      CmpAntisym(b, q[y], p[y], n);
      forall v | v in Elements(low) ensures v in Elements(high) {
        var x :| 0 <= x < |low| && low[x] == v;
        PermOnto(q, n, v);
        var z :| 0 <= z < n && q[z] == v;
        if z >= y {
          assert Le(b, p[x], p[y]) && Le(b, q[y], q[z]);
          CmpTrans(b, q[y], q[z], p[y], n);
        }
        assert high[z] == v;
      }
      SubsetSize(Elements(low), Elements(high));
    }
  }

  lemma SortedUnique(b: seq<byte>, p: seq<nat>, q: seq<nat>, y: nat)
    requires Sorted(b, p) && Sorted(b, q) && y < |b|
    ensures Equal(b, p[y], q[y])
  {
    SortedUniqueHalf(b, p, q, y);
    SortedUniqueHalf(b, q, p, y);
    CmpAntisym(b, p[y], q[y], |b|);
  }

  /** The last column of the sorted rotations: the bytes that generateMTFValues reads through `ptr`. */
  ghost function LastColumn(b: seq<byte>, p: seq<nat>): (c: seq<byte>)
    requires Perm(p, |b|)
    ensures |c| == |b|
    ensures forall x :: 0 <= x < |b| ==> c[x] == b[Prev(|b|, p[x])]
  {
    seq(|b|, x requires 0 <= x < |b| => b[Prev(|b|, p[x])])
  }

  /** The compressed form does not depend on the sorter: any two sorted orders give one last column. */
  lemma LastColumnUnique(b: seq<byte>, p: seq<nat>, q: seq<nat>)
    requires Sorted(b, p) && Sorted(b, q)
    ensures LastColumn(b, p) == LastColumn(b, q)
  {
    forall y | 0 <= y < |b| ensures LastColumn(b, p)[y] == LastColumn(b, q)[y] {
      SortedUnique(b, p, q, y);
      EqualPrev(b, p[y], q[y]);
    }
  }

  /** No two different rotations of the block are equal. */
  ghost predicate Aperiodic(b: seq<byte>)
  {
    forall i, j :: 0 <= i < j < |b| ==> !Equal(b, i, j)
  }

  /** For an aperiodic block the order itself, and with it `origPtr`, is unique. */
  lemma SortedUniqueAperiodic(b: seq<byte>, p: seq<nat>, q: seq<nat>)
    requires Sorted(b, p) && Sorted(b, q) && Aperiodic(b)
    ensures p == q
  {
    forall y | 0 <= y < |b| ensures p[y] == q[y] {
      SortedUnique(b, p, q, y);
      CmpAntisym(b, p[y], q[y], |b|);
      assert Equal(b, q[y], p[y]);
    }
  }

  // ---------------------------------------------------------------- when the order is unique

  /** Equal rotations stay equal when both start earlier: one of them can be the block itself. */
  lemma {:induction false} EqualFromZero(b: seq<byte>, i: nat, j: nat)
    requires i < j < |b| && Equal(b, i, j)
    ensures Equal(b, 0, j - i)
    decreases i
  {
    if i > 0 {
      EqualPrev(b, i, j);
      EqualFromZero(b, i - 1, j - 1);
    }
  }

  lemma EqualOrder(b: seq<byte>, i: nat, j: nat, k: nat)
    requires i < |b| && j < |b| && k < |b| && Equal(b, i, j)
    ensures Le(b, i, k) <==> Le(b, j, k)
    ensures Le(b, k, i) <==> Le(b, k, j)
    ensures Equal(b, j, i)
  {
    var n := |b|;
    CmpAntisym(b, i, j, n);
    if Le(b, i, k) { CmpTrans(b, j, i, k, n); }
    if Le(b, j, k) { CmpTrans(b, i, j, k, n); }
    if Le(b, k, i) { CmpTrans(b, k, i, j, n); }
    if Le(b, k, j) { CmpTrans(b, k, j, i, n); }
  }

  /** Two equal rotations can change places in a sorted order. */
  lemma SortedSwap(b: seq<byte>, p: seq<nat>, x: nat, y: nat)
    requires Sorted(b, p) && x < |b| && y < |b| && Equal(b, p[x], p[y])
    ensures Sorted(b, p[x := p[y]][y := p[x]])
  {
    var q := p[x := p[y]][y := p[x]];
    forall u | 0 <= u < |b| ensures Equal(b, p[u], q[u]) {
      CmpRefl(b, p[u], |b|);
      EqualOrder(b, p[x], p[y], p[x]);
    }
    hide Le, Equal;
    forall u, v | 0 <= u <= v < |b| ensures Le(b, q[u], q[v]) {
      assert Le(b, p[u], p[v]);
      EqualOrder(b, p[u], q[u], p[v]);
      EqualOrder(b, p[v], q[v], q[u]);
    }
  }

  /** `origPtr` is the same for all sorted orders of a block if and only if the block is not periodic. */
  lemma OrigPtrUnique(b: seq<byte>, p: seq<nat>, o: nat)
    requires Sorted(b, p) && o < |b| && p[o] == 0
    ensures (forall q :: Sorted(b, q) ==> q[o] == 0) <==> Aperiodic(b)
  {
    if Aperiodic(b) {
      forall q | Sorted(b, q) ensures q[o] == 0 {
        SortedUniqueAperiodic(b, p, q);
      }
    } else {
      var i, j :| 0 <= i < j < |b| && Equal(b, i, j);
      EqualFromZero(b, i, j);
      PermOnto(p, |b|, j - i);
      var x :| 0 <= x < |p| && p[x] == j - i;
      SortedSwap(b, p, o, x);
      assert p[o := p[x]][x := p[o]][o] == j - i;
    }
  }

  /** The block "abab" has two sorted orders, and the row of the block is not the same in them. */
  lemma TwoOrigPtrs()
    ensures var b: seq<byte> := [97, 98, 97, 98];
            && Sorted(b, [0, 2, 1, 3]) && Sorted(b, [2, 0, 1, 3]) && !Aperiodic(b)
            && LastColumn(b, [0, 2, 1, 3]) == LastColumn(b, [2, 0, 1, 3])
  {
    var b: seq<byte> := [97, 98, 97, 98];
    AbabOrder();
    assert Sorted(b, [0, 2, 1, 3]);
    SortedSwap(b, [0, 2, 1, 3], 0, 1);
    assert [0, 2, 1, 3][0 := 2][1 := 0] == [2, 0, 1, 3];
    LastColumnUnique(b, [0, 2, 1, 3], [2, 0, 1, 3]);
    assert Equal(b, 0, 2);
  }

  lemma AbabOrder()
    ensures var b: seq<byte> := [97, 98, 97, 98];
            Equal(b, 0, 2) && Equal(b, 1, 3) && forall i, j :: 0 <= i < 4 && 0 <= j < 4 && i % 2 <= j % 2 ==>
                Le(b, i, j)
  {
    var b: seq<byte> := [97, 98, 97, 98];
    CmpRefl(b, 0, 4);
    CmpRefl(b, 1, 4);
    assert Cmp(b, 0, 2, 4) == Cmp(b, 1, 3, 3) == Cmp(b, 2, 0, 2) == Cmp(b, 3, 1, 1) == 0;
    assert Cmp(b, 1, 3, 4) == Cmp(b, 2, 0, 3) == Cmp(b, 3, 1, 2) == Cmp(b, 0, 2, 1) == 0;
    CmpAntisym(b, 0, 2, 4);
    CmpAntisym(b, 1, 3, 4);
    CmpRefl(b, 2, 4);
    CmpRefl(b, 3, 4);
    forall i, j | 0 <= i < 4 && 0 <= j < 4 && i % 2 <= j % 2 ensures Le(b, i, j) {
      assert i % 2 < j % 2 ==> b[i] < b[j];
      assert i == 0 || i == 1 || i == 2 || i == 3;
      assert j == 0 || j == 1 || j == 2 || j == 3;
    }
  }
}
