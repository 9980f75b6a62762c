/**
 What one round of the fallback sorter does to the order of the rotations (blocksort.c lines 252-313).

 With depth `h`, rotations are grouped in buckets that agree on `h` symbols, and a header bit
 marks the first entry of every bucket.  The class of rotation `v` is the header position of
 the rotation `h` places after `v`; sorting a bucket by class sorts it to depth `2h`.
 */
module FallbackOrder {

  import opened Rotation
  import opened HeaderBits
  import opened Rearrange

  /** The rotation of which `v` starts `h` places later: the source's `k = fmap[i] - H; if (k < 0) k += nblock`. */
  function Back(n: nat, v: nat, h: nat): (u: nat)
    requires v < n && h <= n
    ensures u < n && Advance(n, u, h) == v
  {
    var u := if v < h then v + n - h else v - h;
    AdvanceIs(n, u, h);
    u
  }

  /** Bits 0 .. n-1 fit the table, and the sentinels beyond alternate. */
  ghost predicate Fenced(bh: seq<nat>, n: nat)
  {
    && (n + 64) / 32 < |bh|
    && IsSet(bh, n) && !IsSet(bh, n + 1)
  }

  /** The depth to which entry `x` is compared with its predecessor, when `e` entries are refined. */
  function Depth(h: nat, e: nat, x: nat): (d: nat)
  {
    if x < e then 2 * h else h
  }

  /**
   The order at depth `h`, already refined to depth `2h` in its first `e` entries: neighbours
   are in order, and a header bit is set exactly where neighbours differ.
   */
  ghost predicate Buckets(b: seq<byte>, f: seq<nat>, bh: seq<nat>, h: nat, e: nat)
  {
    && Perm(f, |b|) && Fenced(bh, |b|)
    && (|b| > 0 ==> IsSet(bh, 0))
    && (e <= |b| && IsSet(bh, e))
    && forall x :: 0 < x < |b| ==>
         && Cmp(b, f[x - 1], f[x], Depth(h, e, x)) <= 0
         && (IsSet(bh, x) <==> Cmp(b, f[x - 1], f[x], Depth(h, e, x)) != 0)
  }

  /** Not refined at all. */
  ghost predicate AtDepth(b: seq<byte>, f: seq<nat>, bh: seq<nat>, h: nat)
  {
    Buckets(b, f, bh, h, 0)
  }

  lemma DeeperDiffers(b: seq<byte>, i: nat, j: nat, h: nat)
    requires i < |b| && j < |b|
    ensures Cmp(b, i, j, h) != 0 ==> Cmp(b, i, j, 2 * h) == Cmp(b, i, j, h)
  {
    CmpSplit(b, i, j, h, h);
  }

  /** Entries of which every one has its header bit need no refinement. */
  lemma SkipSingles(b: seq<byte>, f: seq<nat>, bh: seq<nat>, h: nat, e: nat, l: nat)
    requires Buckets(b, f, bh, h, e) && e <= l <= |b|
    requires forall x :: e <= x <= l ==> IsSet(bh, x)
    ensures Buckets(b, f, bh, h, l)
  {
    forall x | 0 < x < |b|
      ensures Cmp(b, f[x - 1], f[x], Depth(h, l, x)) <= 0
      ensures IsSet(bh, x) <==> Cmp(b, f[x - 1], f[x], Depth(h, l, x)) != 0
    {
      if e <= x < l {
        assert IsSet(bh, x);
        DeeperDiffers(b, f[x - 1], f[x], h);
      }
    }
  }

  /** All entries between two headers agree on `h` symbols. */
  lemma {:induction false} BucketAgrees(b: seq<byte>, f: seq<nat>, bh: seq<nat>, h: nat, e: nat, x: nat, y: nat)
    requires Buckets(b, f, bh, h, e) && e <= x <= y < |b|
    requires forall z :: x < z <= y ==> !IsSet(bh, z)
    ensures Cmp(b, f[x], f[y], h) == 0
    decreases y - x
  {
    if x == y {
      CmpRefl(b, f[x], h);
    } else {
      BucketAgrees(b, f, bh, h, e, x, y - 1);
      assert !IsSet(bh, y);
      CmpZeroTrans(b, f[x], f[y - 1], f[y], h);
    }
  }

  lemma CmpZeroTrans(b: seq<byte>, i: nat, j: nat, k: nat, h: nat)
    requires i < |b| && j < |b| && k < |b| && Cmp(b, i, j, h) == 0 && Cmp(b, j, k, h) == 0
    ensures Cmp(b, i, k, h) == 0
  {
    CmpTrans(b, i, j, k, h);
    CmpAntisym(b, i, j, h);
    CmpAntisym(b, j, k, h);
    CmpAntisym(b, i, k, h);
    CmpTrans(b, k, j, i, h);
  }

  /** Replacing an argument by one that agrees on `h` symbols does not change the comparison. */
  lemma CmpReplace(b: seq<byte>, i: nat, i': nat, j: nat, j': nat, h: nat)
    requires i < |b| && i' < |b| && j < |b| && j' < |b|
    requires Cmp(b, i, i', h) == 0 && Cmp(b, j, j', h) == 0
    ensures Cmp(b, i', j', h) == Cmp(b, i, j, h)
  {
    CmpAntisym(b, i, i', h);
    CmpAntisym(b, j, j', h);
    CmpReplaceUp(b, i, i', j, j', h);
    CmpReplaceUp(b, i', i, j', j, h);
    CmpAntisym(b, i, j, h);
    CmpAntisym(b, i', j', h);
    CmpReplaceUp(b, j, j', i, i', h);
    CmpReplaceUp(b, j', j, i', i, h);
  }

  lemma CmpReplaceUp(b: seq<byte>, i: nat, i': nat, j: nat, j': nat, h: nat)
    requires i < |b| && i' < |b| && j < |b| && j' < |b|
    requires Cmp(b, i', i, h) == 0 && Cmp(b, j, j', h) == 0
    ensures Cmp(b, i, j, h) <= 0 ==> Cmp(b, i', j', h) <= 0
  {
    if Cmp(b, i, j, h) <= 0 {
      CmpTrans(b, i', i, j, h);
      CmpTrans(b, i', j, j', h);
    }
  }

  // ---------------------------------------------------------------- classes

  /** The header position of entry `x`. */
  function Header(bh: seq<nat>, x: nat): (j: nat)
    requires x / 32 < |bh|
    ensures j <= x
  {
    if x == 0 || IsSet(bh, x) then x else Header(bh, x - 1)
  }

  lemma {:induction false} HeaderClear(bh: seq<nat>, x: nat)
    requires x / 32 < |bh|
    ensures forall z :: Header(bh, x) < z <= x ==> !IsSet(bh, z)
    ensures Header(bh, x) == 0 || IsSet(bh, Header(bh, x))
  {
    if x != 0 && !IsSet(bh, x) {
      HeaderClear(bh, x - 1);
    }
  }

  lemma {:induction false} OrderedTo(b: seq<byte>, f: seq<nat>, bh: seq<nat>, h: nat, x: nat, y: nat)
    requires AtDepth(b, f, bh, h) && x <= y < |b|
    ensures Cmp(b, f[x], f[y], h) <= 0
    ensures (exists z :: x < z <= y && IsSet(bh, z)) ==> Cmp(b, f[x], f[y], h) < 0
    decreases y - x
  {
    if x == y {
      CmpRefl(b, f[x], h);
    } else {
      OrderedTo(b, f, bh, h, x, y - 1);
      CmpTrans(b, f[x], f[y - 1], f[y], h);
      if z :| x < z <= y && IsSet(bh, z) {
        if z < y {
          assert x < z <= y - 1;
        } else {
          assert Cmp(b, f[y - 1], f[y], h) != 0;
        }
      }
    }
  }

  /** Comparing header positions compares the entries to depth `h`. */
  lemma HeaderOrder(b: seq<byte>, f: seq<nat>, bh: seq<nat>, h: nat, x: nat, y: nat)
    requires AtDepth(b, f, bh, h) && x < |b| && y < |b|
    ensures Header(bh, x) < Header(bh, y) <==> Cmp(b, f[x], f[y], h) < 0
    ensures Header(bh, x) == Header(bh, y) <==> Cmp(b, f[x], f[y], h) == 0
  {
    CmpAntisym(b, f[x], f[y], h);
    if x <= y {
      HeaderOrderUp(b, f, bh, h, x, y);
    } else {
      HeaderOrderUp(b, f, bh, h, y, x);
    }
  }

  lemma HeaderOrderUp(b: seq<byte>, f: seq<nat>, bh: seq<nat>, h: nat, x: nat, y: nat)
    requires AtDepth(b, f, bh, h) && x <= y < |b|
    ensures Header(bh, x) <= Header(bh, y)
    ensures Cmp(b, f[x], f[y], h) <= 0
    ensures Header(bh, x) == Header(bh, y) <==> Cmp(b, f[x], f[y], h) == 0
  {
    HeaderClear(bh, x);
    HeaderClear(bh, y);
    OrderedTo(b, f, bh, h, x, y);
    var p, q := Header(bh, x), Header(bh, y);
    if q > x {
      assert x < q <= y && IsSet(bh, q);
      assert p < q;
    } else {
      HeaderSame(bh, x, y);
      forall z | x < z <= y ensures !IsSet(bh, z) {
        assert q < z <= y;
      }
      BucketAgrees(b, f, bh, h, 0, x, y);
    }
  }

  lemma {:induction false} HeaderSame(bh: seq<nat>, x: nat, y: nat)
    requires x <= y && y / 32 < |bh| && Header(bh, y) <= x
    ensures Header(bh, y) == Header(bh, x)
    decreases y
  {
    if x < y {
      HeaderSame(bh, x, y - 1);
    }
  }

  /** `ec` orders the rotations by the `h` symbols that follow their first `h`. */
  ghost predicate Classes(b: seq<byte>, ec: seq<nat>, h: nat)
  {
    && |ec| >= |b| && h <= |b|
    && forall u, v :: 0 <= u < |b| && 0 <= v < |b| ==>
         && (ec[u] < ec[v] <==> Cmp(b, Advance(|b|, u, h), Advance(|b|, v, h), h) < 0)
         && (ec[u] == ec[v] <==> Cmp(b, Advance(|b|, u, h), Advance(|b|, v, h), h) == 0)
  }

  lemma ClassPair(b: seq<byte>, ec: seq<nat>, h: nat, u: nat, v: nat)
    requires Classes(b, ec, h) && u < |b| && v < |b|
    ensures |ec| >= |b|
    ensures ec[u] < ec[v] <==> Cmp(b, Advance(|b|, u, h), Advance(|b|, v, h), h) < 0
    ensures ec[u] == ec[v] <==> Cmp(b, Advance(|b|, u, h), Advance(|b|, v, h), h) == 0
  {
  }

  /** Every rotation `h` places before an entry has that entry's header position as its class. */
  lemma ClassesFrom(b: seq<byte>, f: seq<nat>, bh: seq<nat>, h: nat, ec: seq<nat>)
    requires AtDepth(b, f, bh, h) && h <= |b| <= |ec|
    requires forall x :: 0 <= x < |b| ==> ec[Back(|b|, f[x], h)] == Header(bh, x)
    ensures Classes(b, ec, h)
  {
    var n := |b|;
    forall u, v | 0 <= u < n && 0 <= v < n
      ensures ec[u] < ec[v] <==> Cmp(b, Advance(n, u, h), Advance(n, v, h), h) < 0
      ensures ec[u] == ec[v] <==> Cmp(b, Advance(n, u, h), Advance(n, v, h), h) == 0
    {
      var x := EntryAfter(f, n, u, h);
      var y := EntryAfter(f, n, v, h);
      HeaderOrder(b, f, bh, h, x, y);
    }
  }

  lemma EntryAfter(f: seq<nat>, n: nat, u: nat, h: nat) returns (x: nat)
    requires Perm(f, n) && u < n && h <= n
    ensures x < n && f[x] == Advance(n, u, h) && Back(n, f[x], h) == u
  {
    PermOnto(f, n, Advance(n, u, h));
    x :| 0 <= x < n && f[x] == Advance(n, u, h);
    AdvanceIs(n, u, h);
  }

  // ---------------------------------------------------------------- one bucket

  /** The bucket `l .. r` after sorting by class, with its new header bits. */
  ghost predicate Refines(f: seq<nat>, f': seq<nat>, bh: seq<nat>, bh': seq<nat>, ec: seq<nat>, l: nat, r: nat)
    requires r < |f| && |f'| == |f| && (forall x :: 0 <= x < |f| ==> f'[x] < |ec|)
    requires |bh'| == |bh| && |f| / 32 < |bh|
  {
    && Rearranged(f, f', l, r)
    && (forall x :: l < x <= r ==> ec[f'[x - 1]] <= ec[f'[x]])
    && (forall x :: l < x <= r ==> (IsSet(bh', x) <==> ec[f'[x - 1]] != ec[f'[x]]))
    && (forall x: nat :: x / 32 < |bh| && !(l < x <= r) ==> IsSet(bh', x) == IsSet(bh, x))
  }

  /** Sorting one bucket by class refines the order past that bucket. */
  lemma RefineBucket(b: seq<byte>, f: seq<nat>, f': seq<nat>, bh: seq<nat>, bh': seq<nat>,
                     ec: seq<nat>, h: nat, l: nat, r: nat)
    requires Buckets(b, f, bh, h, l) && Classes(b, ec, h) && h > 0 && l <= r < |b|
    requires forall z :: l < z <= r ==> !IsSet(bh, z)
    requires IsSet(bh, r + 1)
    requires |f'| == |f| && |bh'| == |bh|
    requires forall x :: 0 <= x < |f| ==> f'[x] < |ec|
    requires Refines(f, f', bh, bh', ec, l, r)
    ensures Buckets(b, f', bh', h, r + 1)
  {
    RearrangedPerm(f, f', l, r, |b|);
    forall x | 0 < x < |b|
      ensures Cmp(b, f'[x - 1], f'[x], Depth(h, r + 1, x)) <= 0
      ensures IsSet(bh', x) <==> Cmp(b, f'[x - 1], f'[x], Depth(h, r + 1, x)) != 0
    {
      RefinePair(b, f, f', bh, bh', ec, h, l, r, x);
      assert PairOk(b, f'[x - 1], f'[x], Depth(h, r + 1, x), IsSet(bh', x));
    }
  }

  lemma SameBucket(b: seq<byte>, f: seq<nat>, f': seq<nat>, bh: seq<nat>, h: nat, l: nat, r: nat, x: nat)
    requires Buckets(b, f, bh, h, l) && l <= r < |b| && x < |b|
    requires forall z :: l < z <= r ==> !IsSet(bh, z)
    requires Rearranged(f, f', l, r) && Perm(f', |b|)
    ensures Cmp(b, f[x], f'[x], h) == 0
  {
    if l <= x <= r {
      var y := RearrangedFrom(f, f', l, r, x);
      if x <= y {
        BucketAgrees(b, f, bh, h, l, x, y);
      } else {
        BucketAgrees(b, f, bh, h, l, y, x);
        CmpAntisym(b, f[y], f[x], h);
      }
    } else {
      CmpRefl(b, f[x], h);
    }
  }

  /** Inside the bucket, `2h` symbols are compared as the classes are. */
  lemma PairInside(b: seq<byte>, ec: seq<nat>, h: nat, u: nat, v: nat, i: nat, j: nat)
    requires Classes(b, ec, h) && u < |b| && v < |b| && i < |b| && j < |b|
    requires Cmp(b, u, v, h) == 0 && Cmp(b, u, i, h) == 0 && Cmp(b, v, j, h) == 0
    ensures |ec| >= |b|
    ensures ec[i] <= ec[j] ==> Cmp(b, i, j, 2 * h) <= 0
    ensures ec[i] != ec[j] <==> Cmp(b, i, j, 2 * h) != 0
  {
    hide Cmp, Advance, Classes;
    CmpReplace(b, u, i, v, j, h);
    CmpSplit(b, i, j, h, h);
    ClassPair(b, ec, h, i, j);
  }

  /** At its ends the buckets differ in `h` symbols already. */
  lemma PairAtEdge(b: seq<byte>, h: nat, u: nat, v: nat, i: nat, j: nat)
    requires u < |b| && v < |b| && i < |b| && j < |b|
    requires Cmp(b, u, v, h) != 0 && Cmp(b, u, i, h) == 0 && Cmp(b, v, j, h) == 0
    ensures Cmp(b, i, j, h) == Cmp(b, i, j, 2 * h) == Cmp(b, u, v, h)
  {
    hide Cmp, Advance;
    CmpReplace(b, u, i, v, j, h);
    DeeperDiffers(b, i, j, h);
  }

  ghost predicate PairOk(b: seq<byte>, i: nat, j: nat, d: nat, header: bool)
    requires i < |b| && j < |b|
  {
    Cmp(b, i, j, d) <= 0 && (header <==> Cmp(b, i, j, d) != 0)
  }

  lemma RefinePair(b: seq<byte>, f: seq<nat>, f': seq<nat>, bh: seq<nat>, bh': seq<nat>,
                   ec: seq<nat>, h: nat, l: nat, r: nat, x: nat)
    requires Buckets(b, f, bh, h, l) && Classes(b, ec, h) && h > 0 && l <= r < |b|
    requires forall z :: l < z <= r ==> !IsSet(bh, z)
    requires IsSet(bh, r + 1)
    requires |f'| == |f| && |bh'| == |bh| && Perm(f', |b|)
    requires Refines(f, f', bh, bh', ec, l, r)
    requires 0 < x < |b|
    ensures PairOk(b, f'[x - 1], f'[x], Depth(h, r + 1, x), IsSet(bh', x))
  {
    assert PairOk(b, f[x - 1], f[x], Depth(h, l, x), IsSet(bh, x));
    if l <= x <= r + 1 {
      SameBucket(b, f, f', bh, h, l, r, x - 1);
      SameBucket(b, f, f', bh, h, l, r, x);
      hide Cmp, Advance, IsSet, Classes, Buckets;
      if l < x <= r {
        assert !IsSet(bh, x);
        PairInside(b, ec, h, f[x - 1], f[x], f'[x - 1], f'[x]);
      } else {
        PairAtEdge(b, h, f[x - 1], f[x], f'[x - 1], f'[x]);
      }
    }
  }
}
