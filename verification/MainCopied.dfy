/**
 What the two scans of a big bucket leave behind (blocksort.c lines 926-946): every bucket
 [t, s] of an unfinished symbol `t` is full and in order, and so is the big bucket [s].
 */
module MainCopied {

  import opened Rotation
  import opened Counting
  import opened MainSimpleSort
  import opened MainBuckets
  import opened MainCopy

  /** No rotation that starts with `s` equals the constant string. */
  ghost predicate Uneven(b: seq<byte>, s: nat)
  {
    forall v: nat :: v < |b| && b[v] == s ==> Side(b, s, v) != 0
  }

  /** What the scans leave: the two filled parts of bucket [s, s], and the rest as it was. */
  lemma Scanned(b: seq<byte>, s: nat, done: seq<bool>, p0: seq<nat>, p: seq<nat>, cs: seq<int>, ce: seq<int>)
    requires s < 256 && |ce| == 256 && Down(b, s, done, p0, p, cs, ce, ce[s])
    ensures |cs| == 256 && |done| == 256 && ByPair(b, p0) && Perm(p0, |b|) && Entries(p, |b|) && |p| == |b|
    ensures 0 <= BigFrom(b, s) <= From(b, s, s) <= cs[s] <= ce[s] + 1 <= To(b, s, s) <= BigTo(b, s) <= |p|
    ensures p[From(b, s, s)..cs[s]] == Chosen(b, p, s, BigFrom(b, s), cs[s])
    ensures p[ce[s] + 1..To(b, s, s)] == Chosen(b, p, s, ce[s] + 1, BigTo(b, s))
    ensures forall x :: 0 <= x < |b| && b[Next(|b|, p0[x])] != s ==> p[x] == p0[x]
  {
    hide OneSide, StartP, Chosen, InBucket;
    BigBounds(b, s, s);
    assert DownBucket(b, s, p, s, cs[s], cs[s], ce[s], ce[s]);
  }

  /** A rotation of another bucket of [s] is where it was. */
  lemma Unscanned(b: seq<byte>, p0: seq<nat>, p: seq<nat>, s: nat, v: nat) returns (x: int)
    requires ByPair(b, p0) && Perm(p0, |b|) && |p| == |b| && v < |b| && b[v] == s && b[Next(|b|, v)] != s
    requires forall x :: 0 <= x < |b| && b[Next(|b|, p0[x])] != s ==> p[x] == p0[x]
    ensures 0 <= x < |b| && p[x] == v && BigFrom(b, s) <= x < BigTo(b, s)
    ensures if b[Next(|b|, v)] < s then x < From(b, s, s) else To(b, s, s) <= x
  {
    hide StartP;
    x := PositionOf(b, p0, v);
    BigHolds(b, p0, s, x);
    if b[Next(|b|, v)] < s {
      StartPMonotone(b, Pair(b, v) + 1, 256 * s + s);
    } else {
      StartPMonotone(b, 256 * s + s + 1, Pair(b, v));
    }
  }

  lemma KindNext(b: seq<byte>, s: nat, v: nat, h: nat)
    requires v < |b| && b[v] == s && Kind(b, s, v, h) != 0
    ensures h > 0 && Kind(b, s, Next(|b|, v), h - 1) == Kind(b, s, v, h)
    ensures Kind(b, s, v, h) < 0 ==> b[Next(|b|, v)] <= s
    ensures Kind(b, s, v, h) > 0 ==> b[Next(|b|, v)] >= s
  {
  }

  /** Every rotation below the constant string was reached from a smaller second symbol. */
  lemma {:induction false} LowComplete(b: seq<byte>, s: nat, done: seq<bool>, p0: seq<nat>, p: seq<nat>, cs: seq<int>,
                                       ce: seq<int>,
                                       v: nat, h: nat) returns (x: int)
    requires |b| >= 2 && v < |b| && b[v] == s && Kind(b, s, v, h) < 0
    requires s < 256 && |ce| == 256 && Down(b, s, done, p0, p, cs, ce, ce[s])
    ensures BigFrom(b, s) <= x < cs[s] && x < |p| && p[x] == v
    decreases h
  {
    hide *;
    var w := Next(|b|, v);
    Scanned(b, s, done, p0, p, cs, ce);
    KindNext(b, s, v, h);
    if b[w] < s {
      x := Unscanned(b, p0, p, s, v);
    } else {
      var y := LowComplete(b, s, done, p0, p, cs, ce, w, h - 1);
      PrevOfNext(|b|, v);
      ChosenHas(b, p, s, BigFrom(b, s), cs[s], y);
      x := FoundIn(p, From(b, s, s), cs[s], v);
    }
  }

  lemma FoundIn(p: seq<nat>, lo: int, hi: int, v: nat) returns (x: int)
    requires 0 <= lo <= hi <= |p| && v in p[lo..hi]
    ensures lo <= x < hi && p[x] == v
  {
    var i :| 0 <= i < hi - lo && p[lo..hi][i] == v;
    x := lo + i;
  }

  lemma {:induction false} HighComplete(b: seq<byte>, s: nat, done: seq<bool>, p0: seq<nat>, p: seq<nat>, cs: seq<int>,
                                        ce: seq<int>,
                                        v: nat, h: nat) returns (x: int)
    requires |b| >= 2 && v < |b| && b[v] == s && Kind(b, s, v, h) > 0
    requires s < 256 && |ce| == 256 && Down(b, s, done, p0, p, cs, ce, ce[s])
    ensures ce[s] < x < BigTo(b, s) && 0 <= x < |p| && p[x] == v
    decreases h
  {
    hide *;
    var w := Next(|b|, v);
    Scanned(b, s, done, p0, p, cs, ce);
    KindNext(b, s, v, h);
    if b[w] > s {
      x := Unscanned(b, p0, p, s, v);
    } else {
      var y := HighComplete(b, s, done, p0, p, cs, ce, w, h - 1);
      PrevOfNext(|b|, v);
      ChosenHas(b, p, s, ce[s] + 1, BigTo(b, s), y);
      x := FoundIn(p, ce[s] + 1, To(b, s, s), v);
    }
  }

  /** Each rotation of an unfinished bucket [c, s] was chosen by one of the scans. */
  lemma Reached(b: seq<byte>, s: nat, done: seq<bool>, p0: seq<nat>, p: seq<nat>, cs: seq<int>, ce: seq<int>, c: nat,
                v: nat)
    requires |b| >= 2 && s < 256 && |ce| == 256 && Down(b, s, done, p0, p, cs, ce, ce[s]) && Uneven(b, s)
    requires c < 256 && v < |b| && Pair(b, v) == 256 * c + s
    requires 0 <= BigFrom(b, s) <= cs[s] <= |b| && 0 <= ce[s] + 1 && BigTo(b, s) <= |b|
    ensures v in Chosen(b, p, c, BigFrom(b, s), cs[s]) + Chosen(b, p, c, ce[s] + 1, BigTo(b, s))
  {
    hide OneSide, Start, DownBucket;
    var w := Next(|b|, v);
    PrevOfNext(|b|, v);
    assert b[w] == s && b[v] == c;
    if Side(b, s, w) < 0 {
      var x := LowComplete(b, s, done, p0, p, cs, ce, w, |b|);
      ChosenHas(b, p, c, BigFrom(b, s), cs[s], x);
    } else {
      var x := HighComplete(b, s, done, p0, p, cs, ce, w, |b|);
      ChosenHas(b, p, c, ce[s] + 1, BigTo(b, s), x);
    }
  }

  /** How many rotations the scans have put into a bucket. */
  lemma ChosenSizes(b: seq<byte>, s: nat, p: seq<nat>, c: nat, middle: int, copyStart: int, copyEnd: int, j: int)
    requires Entries(p, |b|) && |p| == |b| && DownBucket(b, s, p, c, middle, copyStart, copyEnd, j)
    ensures 0 <= BigFrom(b, s) && middle <= |b| && 0 <= j + 1 && BigTo(b, s) <= |b| && copyStart <= copyEnd + 1
    ensures |Chosen(b, p, c, BigFrom(b, s), middle)| == copyStart - From(b, s, c)
    ensures |Chosen(b, p, c, j + 1, BigTo(b, s))| == To(b, s, c) - copyEnd - 1
  {
    hide Chosen, Entries, Start;
  }

  /** Assertion 1007 and its like for the other buckets: the scans meet. */
  lemma Meet(b: seq<byte>, s: nat, done: seq<bool>, p0: seq<nat>, p: seq<nat>, cs: seq<int>, ce: seq<int>, c: nat)
    requires |b| >= 2 && s < 256 && |ce| == 256 && Down(b, s, done, p0, p, cs, ce, ce[s]) && Uneven(b, s)
    requires c < 256 && !done[c]
    ensures cs[c] == ce[c] + 1
  {
    hide *;
    DownFacts(b, s, done, p0, p, cs, ce, c);
    ChosenSizes(b, s, p, c, cs[s], cs[c], ce[c], ce[s]);
    var l := Chosen(b, p, c, BigFrom(b, s), cs[s]) + Chosen(b, p, c, ce[s] + 1, BigTo(b, s));
    forall v: nat | v < |b| && Pair(b, v) == 256 * c + s ensures v in l {
      Reached(b, s, done, p0, p, cs, ce, c, v);
    }
    RoomFull(b, p0, 256 * c + s, l);
    BucketEnds(b, s, c);
  }

  lemma DownFacts(b: seq<byte>, s: nat, done: seq<bool>, p0: seq<nat>, p: seq<nat>, cs: seq<int>, ce: seq<int>, c: nat)
    requires s < 256 && |ce| == 256 && c < 256 && Down(b, s, done, p0, p, cs, ce, ce[s]) && !done[c]
    ensures 0 <= BigFrom(b, s) && BigTo(b, s) <= |b|
    ensures ByPair(b, p0) && Entries(p, |b|) && |p| == |b| && |cs| == 256 && |done| == 256 && BigFrom(b, s) <= cs[s]
    ensures DownBucket(b, s, p, c, cs[s], cs[c], ce[c], ce[s])
  {
    hide OneSide, ByPair, Start;
    BigBounds(b, s, s);
    assert DownBucket(b, s, p, s, cs[s], cs[s], ce[s], ce[s]);
  }

  lemma BucketEnds(b: seq<byte>, s: nat, c: nat)
    ensures From(b, s, c) == StartP(b, 256 * c + s) && To(b, s, c) == StartP(b, 256 * c + s + 1)
  {
  }

  /** Bucket [c, s] holds, in order, the predecessors of the whole big bucket. */
  ghost predicate Copied(b: seq<byte>, s: nat, p: seq<nat>, c: nat)
    requires Entries(p, |b|) && |p| == |b| && s < 256 && c < 256
  {
    && 0 <= BigFrom(b, s) <= BigTo(b, s) <= |b| && 0 <= From(b, s, c) <= To(b, s, c) <= |b|
    && p[From(b, s, c)..To(b, s, c)] == Chosen(b, p, c, BigFrom(b, s), BigTo(b, s))
  }

  lemma CopiedAll(b: seq<byte>, s: nat, done: seq<bool>, p0: seq<nat>, p: seq<nat>, cs: seq<int>, ce: seq<int>, c: nat)
    requires |b| >= 2 && s < 256 && |ce| == 256 && Down(b, s, done, p0, p, cs, ce, ce[s]) && Uneven(b, s)
    requires c < 256 && !done[c]
    ensures Copied(b, s, p, c)
  {
    hide OneSide, Start, Side, Chosen;
    Meet(b, s, done, p0, p, cs, ce, s);
    Meet(b, s, done, p0, p, cs, ce, c);
    BigBounds(b, s, s);
    assert DownBucket(b, s, p, s, cs[s], cs[s], ce[s], ce[s]);
    assert DownBucket(b, s, p, c, cs[s], cs[c], ce[c], ce[s]);
    var from, to, mid := From(b, s, c), To(b, s, c), cs[c];
    assert p[from..to] == p[from..mid] + p[mid..to];
    ChosenSplit(b, p, c, BigFrom(b, s), cs[s], BigTo(b, s));
  }

  /** The two sides of the big bucket are one sorted whole. */
  lemma BigInOrder(b: seq<byte>, s: nat, p: seq<nat>, lo: int, mid: int, hi: int)
    requires Entries(p, |b|) && 0 <= lo <= mid <= hi <= |p|
    requires OneSide(b, s, p, lo, mid, -1) && OneSide(b, s, p, mid, hi, 1)
    ensures InOrder(b, p, lo, hi - 1) && DistinctOn(p, lo, hi)
    ensures forall x :: lo <= x < hi ==> b[p[x]] == s
  {
    hide Side, Le;
    forall x, y | 0 <= lo <= x <= y <= hi - 1 < |p| ensures Le(b, p[x], p[y]) {
      if x < mid <= y {
        SideLe(b, s, p[x], p[y]);
      }
    }
  }

  /** What step 2 owes to the rest of the sort. */
  ghost predicate Synthesised(b: seq<byte>, s: nat, done: seq<bool>, p0: seq<nat>, p: seq<nat>)
    requires s < 256 && |done| == 256 && ByPair(b, p0)
  {
    && ByPair(b, p)
    && (forall c :: 0 <= c < 256 && !done[c] ==> SmallSorted(b, p, c, s))
    && (forall x :: 0 <= x < |b| && !Fillable(b, s, done, p0[x]) ==> p[x] == p0[x])
    && InOrder(b, p, BigFrom(b, s), BigTo(b, s) - 1)
  }

  lemma CopiedSorted(b: seq<byte>, s: nat, p: seq<nat>, c: nat)
    requires Entries(p, |b|) && |p| == |b| && s < 256 && c < 256 && Copied(b, s, p, c)
    requires InOrder(b, p, BigFrom(b, s), BigTo(b, s) - 1)
    ensures SmallSorted(b, p, c, s)
  {
    hide Start, Chosen, InOrder, Cmp;
    var from, to := From(b, s, c), To(b, s, c);
    forall x, y | from <= x <= y < to && y < |p| ensures Le(b, p[x], p[y]) {
      assert p[x] == p[from..to][x - from] && p[y] == p[from..to][y - from];
      ChosenOrdered(b, p, c, BigFrom(b, s), BigTo(b, s), x - from, y - from);
    }
  }

  /** An entry of a copied bucket belongs to it. */
  lemma CopiedPair(b: seq<byte>, s: nat, p: seq<nat>, c: nat, x: int)
    requires Entries(p, |b|) && |p| == |b| && s < 256 && c < 256 && Copied(b, s, p, c)
    requires forall x :: BigFrom(b, s) <= x < BigTo(b, s) && x < |p| ==> b[p[x]] == s
    requires From(b, s, c) <= x < To(b, s, c)
    ensures Pair(b, p[x]) == 256 * c + s
  {
    hide Start, Chosen, Pair;
    assert p[x] == p[From(b, s, c)..To(b, s, c)][x - From(b, s, c)];
    ChosenPairs(b, s, p, c, BigFrom(b, s), BigTo(b, s), x - From(b, s, c));
  }

  lemma CopiedDistinct(b: seq<byte>, s: nat, p: seq<nat>, c: nat, x: int, y: int)
    requires Entries(p, |b|) && |p| == |b| && s < 256 && c < 256 && Copied(b, s, p, c)
    requires DistinctOn(p, BigFrom(b, s), BigTo(b, s)) && From(b, s, c) <= x < y < To(b, s, c)
    ensures p[x] != p[y]
  {
    hide Start, Chosen;
    var from := From(b, s, c);
    ChosenDistinct(b, p, c, BigFrom(b, s), BigTo(b, s));
    assert p[x] == p[from..To(b, s, c)][x - from] && p[y] == p[from..To(b, s, c)][y - from];
  }

  /** Whichever way an entry came there, it lies in its own bucket. */
  lemma EntryInBucket(b: seq<byte>, s: nat, done: seq<bool>, p0: seq<nat>, p: seq<nat>, x: int)
    requires s < 256 && |done| == 256 && ByPair(b, p0) && Entries(p, |b|) && |p| == |b| && 0 <= x < |b|
    requires forall c :: 0 <= c < 256 && !done[c] ==> Copied(b, s, p, c)
    requires forall x :: BigFrom(b, s) <= x < BigTo(b, s) && x < |p| ==> b[p[x]] == s
    requires !Fillable(b, s, done, p0[x]) ==> p[x] == p0[x]
    ensures InBucket(b, p[x], x) && Pair(b, p[x]) == Pair(b, p0[x])
  {
    hide Copied, Start;
    assert InBucket(b, p0[x], x);
    if Fillable(b, s, done, p0[x]) {
      CopiedPair(b, s, p, b[p0[x]], x);
    }
  }

  lemma PairParts(b: seq<byte>, u: nat, v: nat)
    requires u < |b| && v < |b| && Pair(b, u) == Pair(b, v)
    ensures b[u] == b[v] && b[Next(|b|, u)] == b[Next(|b|, v)] && Pair(b, u) == 256 * (b[u] as nat) + b[Next(|b|, u)]
  {
  }

  lemma EntriesDiffer(b: seq<byte>, s: nat, done: seq<bool>, p0: seq<nat>, p: seq<nat>, x: int, y: int)
    requires s < 256 && |done| == 256 && ByPair(b, p0) && Entries(p, |b|) && |p| == |b| && 0 <= x < y < |b|
    requires forall c :: 0 <= c < 256 && !done[c] ==> Copied(b, s, p, c)
    requires forall x :: BigFrom(b, s) <= x < BigTo(b, s) && x < |p| ==> b[p[x]] == s
    requires DistinctOn(p, BigFrom(b, s), BigTo(b, s))
    requires forall x :: 0 <= x < |b| && !Fillable(b, s, done, p0[x]) ==> p[x] == p0[x]
    ensures p[x] != p[y]
  {
    hide Copied, Start, Pair;
    EntryInBucket(b, s, done, p0, p, x);
    EntryInBucket(b, s, done, p0, p, y);
    if p[x] == p[y] {
      PairParts(b, p0[x], p0[y]);
      if Fillable(b, s, done, p0[x]) {
        CopiedDistinct(b, s, p, b[p0[x]], x, y);
      }
    }
  }

  lemma SynthesisedUneven(b: seq<byte>, s: nat, done: seq<bool>, p0: seq<nat>, p: seq<nat>, cs: seq<int>, ce: seq<int>)
    requires |b| >= 2 && s < 256 && |ce| == 256 && Down(b, s, done, p0, p, cs, ce, ce[s]) && Uneven(b, s)
    ensures Synthesised(b, s, done, p0, p) && cs[s] == ce[s] + 1
  {
    hide Copied, Start, OneSide, Side, InOrder, Fillable, Le, Pair;
    Meet(b, s, done, p0, p, cs, ce, s);
    BigBounds(b, s, s);
    assert DownBucket(b, s, p, s, cs[s], cs[s], ce[s], ce[s]);
    BigInOrder(b, s, p, BigFrom(b, s), cs[s], BigTo(b, s));
    forall c | 0 <= c < 256 && !done[c] ensures Copied(b, s, p, c) && SmallSorted(b, p, c, s) {
      CopiedAll(b, s, done, p0, p, cs, ce, c);
      CopiedSorted(b, s, p, c);
    }
    forall x | 0 <= x < |b| && !Fillable(b, s, done, p0[x]) ensures p[x] == p0[x] {
    }
    forall x | 0 <= x < |b| ensures InBucket(b, p[x], x) {
      EntryInBucket(b, s, done, p0, p, x);
    }
    forall x, y | 0 <= x < y < |b| ensures p[x] != p[y] {
      EntriesDiffer(b, s, done, p0, p, x, y);
    }
  }

  // ---------------------------------------------------------------- the constant block

  lemma {:induction false} ConstantCmp(b: seq<byte>, s: nat, i: nat, j: nat, h: nat)
    requires i < |b| && j < |b| && forall x :: 0 <= x < |b| ==> b[x] == s
    ensures Cmp(b, i, j, h) == 0
    decreases h
  {
    if h > 0 {
      ConstantCmp(b, s, Next(|b|, i), Next(|b|, j), h - 1);
    }
  }

  lemma {:induction false} ConstantKind(b: seq<byte>, s: nat, i: nat, h: nat)
    requires i < |b| && forall x :: 0 <= x < |b| ==> b[x] == s
    ensures Kind(b, s, i, h) == 0
    decreases h
  {
    if h > 0 {
      ConstantKind(b, s, Next(|b|, i), h - 1);
    }
  }

  /** The scans of a constant block do not start. */
  lemma FlatStays(b: seq<byte>, s: nat, done: seq<bool>, p0: seq<nat>, p: seq<nat>, cs: seq<int>, ce: seq<int>)
    requires |b| >= 2 && s < 256 && |ce| == 256 && Down(b, s, done, p0, p, cs, ce, ce[s])
    requires forall x :: 0 <= x < |b| ==> b[x] == s
    ensures cs[s] == 0 && ce[s] == |b| - 1
  {
    hide Start, Cmp, Kind;
    BigBounds(b, s, s);
    BigHolds(b, p0, s, 0);
    BigHolds(b, p0, s, |b| - 1);
    assert BigFrom(b, s) == 0 && BigTo(b, s) == |b|;
    assert DownBucket(b, s, p, s, cs[s], cs[s], ce[s], ce[s]);
    ConstantKind(b, s, p[0], |b|);
    ConstantKind(b, s, p[|b| - 1], |b|);
    assert Side(b, s, p[0]) == 0 && Side(b, s, p[|b| - 1]) == 0;
  }

  /** A constant block: nothing moves, and assertion 1007 holds by its second half. */
  lemma SynthesisedFlat(b: seq<byte>, s: nat, done: seq<bool>, p0: seq<nat>, p: seq<nat>, cs: seq<int>, ce: seq<int>)
    requires |b| >= 2 && s < 256 && |ce| == 256 && Down(b, s, done, p0, p, cs, ce, ce[s]) && !Uneven(b, s)
    ensures Synthesised(b, s, done, p0, p) && cs[s] == 0 && ce[s] == |b| - 1
  {
    var v: nat :| v < |b| && b[v] == s && Side(b, s, v) == 0;
    forall x | 0 <= x < |b| ensures b[x] == s {
      SideZero(b, s, v, x);
    }
    FlatStays(b, s, done, p0, p, cs, ce);
    hide Start, Cmp, Kind, DownBucket, OneSide, InBucket;
    forall x | 0 <= x < |b| ensures p[x] == p0[x] {
      assert b[p0[x]] == s;
    }
    assert p == p0;
    forall i: nat, j: nat | i < |b| && j < |b| ensures Le(b, i, j) {
      ConstantCmp(b, s, i, j, |b|);
    }
  }
}
