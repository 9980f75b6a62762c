/**
 The small and big buckets of the main block sorter: rotations by their first two symbols
 and by their first (blocksort.c lines 769-830).
 */
module MainBuckets {

  import opened Rotation
  import opened Counting
  import opened MainSimpleSort

  /** The first two symbols of rotation `i`. */
  function Pair(b: seq<byte>, i: nat): (c: nat)
    requires i < |b|
    ensures c < 65536
  {
    256 * (b[i] as nat) + b[Next(|b|, i)]
  }

  ghost function Pairs(b: seq<byte>): (l: seq<nat>)
    ensures |l| == |b| && forall i :: 0 <= i < |b| ==> l[i] == Pair(b, i)
  {
    seq(|b|, i requires 0 <= i < |b| => Pair(b, i))
  }

  /** Where the small bucket `c` starts. */
  ghost function StartP(b: seq<byte>, c: nat): (s: nat)
  {
    Start(Pairs(b), c, |b|)
  }

  lemma StartPMonotone(b: seq<byte>, c: nat, d: nat)
    requires c <= d
    ensures StartP(b, c) <= StartP(b, d) <= |b|
  {
    StartMonotone(Pairs(b), c, d, |b|);
    StartAtMost(Pairs(b), d, |b|);
  }

  /** Entry `x` of `p` lies in its own small bucket. */
  ghost predicate InBucket(b: seq<byte>, v: nat, x: int)
    requires v < |b|
  {
    StartP(b, Pair(b, v)) <= x < StartP(b, Pair(b, v) + 1)
  }

  ghost predicate ByPair(b: seq<byte>, p: seq<nat>)
  {
    Perm(p, |b|) && forall x :: 0 <= x < |b| ==> InBucket(b, p[x], x)
  }

  /** A position lies in one small bucket only. */
  lemma BucketUnique(b: seq<byte>, c: nat, d: nat, x: int)
    requires StartP(b, c) <= x < StartP(b, c + 1) && StartP(b, d) <= x < StartP(b, d + 1)
    ensures c == d
  {
    if c < d {
      StartPMonotone(b, c + 1, d);
    } else if d < c {
      StartPMonotone(b, d + 1, c);
    }
  }

  /** The rotations of a bucket, and no others, lie in it. */
  lemma BucketHolds(b: seq<byte>, p: seq<nat>, c: nat, x: int)
    requires ByPair(b, p) && 0 <= x < |b|
    ensures StartP(b, c) <= x < StartP(b, c + 1) <==> Pair(b, p[x]) == c
  {
    assert InBucket(b, p[x], x);
    if StartP(b, c) <= x < StartP(b, c + 1) {
      BucketUnique(b, c, Pair(b, p[x]), x);
    }
  }

  /** The rotations that start with symbol `s` lie in its big bucket. */
  lemma BigHolds(b: seq<byte>, p: seq<nat>, s: nat, x: int)
    requires ByPair(b, p) && 0 <= x < |b|
    ensures StartP(b, 256 * s) <= x < StartP(b, 256 * (s + 1)) <==> b[p[x]] == s
  {
    assert InBucket(b, p[x], x);
    var c := Pair(b, p[x]);
    var t := b[p[x]] as nat;
    StartPMonotone(b, 256 * t, c);
    StartPMonotone(b, c + 1, 256 * (t + 1));
    if s < t {
      StartPMonotone(b, 256 * (s + 1), 256 * t);
    } else if t < s {
      StartPMonotone(b, 256 * (t + 1), 256 * s);
    }
  }

  lemma PositionOf(b: seq<byte>, p: seq<nat>, v: nat) returns (x: int)
    requires ByPair(b, p) && v < |b|
    ensures 0 <= x < |b| && p[x] == v && InBucket(b, v, x)
  {
    PermOnto(p, |b|, v);
    x :| 0 <= x < |b| && p[x] == v;
  }

  /** The radix sort leaves every rotation in its bucket. */
  lemma DistributedByPair(b: seq<byte>, p: seq<nat>)
    requires |p| == |b| && forall i :: 0 <= i < |b| ==> LF(Pairs(b), i) < |b| && p[LF(Pairs(b), i)] == i
    ensures ByPair(b, p)
  {
    var n, l := |b|, Pairs(b);
    forall x | 0 <= x < n ensures p[x] < n && LF(l, p[x]) == x && InBucket(b, p[x], x) {
      Source(l, p, x);
      LFBucket(l, p[x]);
    }
    forall x, y | 0 <= x < y < n ensures p[x] != p[y] {
      assert LF(l, p[x]) == x && LF(l, p[y]) == y;
    }
  }

  ghost predicate BucketSorted(b: seq<byte>, p: seq<nat>, c: nat)
    requires Entries(p, |b|)
  {
    forall x, y :: StartP(b, c) <= x <= y < StartP(b, c + 1) && y < |p| ==> Le(b, p[x], p[y])
  }

  /** The small bucket [s, c] is sorted. */
  ghost predicate SmallSorted(b: seq<byte>, p: seq<nat>, s: nat, c: nat)
    requires Entries(p, |b|)
  {
    BucketSorted(b, p, 256 * s + c)
  }

  /** When all small buckets are sorted, all is. */
  lemma AllSorted(b: seq<byte>, p: seq<nat>)
    requires ByPair(b, p) && forall s, c :: 0 <= s < 256 && 0 <= c < 256 ==> SmallSorted(b, p, s, c)
    ensures Sorted(b, p)
  {
    forall x, y | 0 <= x <= y < |b| ensures Le(b, p[x], p[y]) {
      var c, d := Pair(b, p[x]), Pair(b, p[y]);
      assert InBucket(b, p[x], x) && InBucket(b, p[y], y);
      if c == d {
        assert SmallSorted(b, p, b[p[x]], b[Next(|b|, p[x])]);
      } else {
        if d < c {
          StartPMonotone(b, d + 1, c);
        }
        PairLess(b, p[x], p[y]);
      }
    }
  }

  lemma PairLess(b: seq<byte>, u: nat, v: nat)
    requires u < |b| && v < |b| && Pair(b, u) < Pair(b, v)
    ensures Le(b, u, v)
  {
    if |b| == 1 {
      assert false;
    } else {
      CmpSplit(b, u, v, 2, |b| - 2);
      assert Cmp(b, Next(|b|, Next(|b|, u)), Next(|b|, Next(|b|, v)), 0) == 0;
      assert Cmp(b, u, v, 2) < 0;
    }
  }
}
