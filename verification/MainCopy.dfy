/**
 Deriving the order of the small buckets [t, s] from the sorted big bucket [s]
 (blocksort.c lines 911-946), as a theory of sequences.

 A rotation in the big bucket lies below or above the constant string of symbols `s`.  The
 upward scan places the predecessors of those below, the downward scan those above, and the
 bucket [s, s] that is scanned is filled by the scans themselves.
 */
module MainCopy {

  import opened Rotation
  import opened Counting
  import opened MainSimpleSort
  import opened MainBuckets

  /** How the first `h` symbols of rotation `i` compare with `h` symbols `s`. */
  function Kind(b: seq<byte>, s: nat, i: nat, h: nat): (c: int)
    requires i < |b|
    ensures -1 <= c <= 1
    decreases h
  {
    if h == 0 then 0 else if b[i] < s then -1 else if b[i] > s then 1 else Kind(b, s, Next(|b|, i), h - 1)
  }

  /** Below, equal to or above the constant string. */
  function Side(b: seq<byte>, s: nat, i: nat): (c: int)
    requires i < |b|
  {
    Kind(b, s, i, |b|)
  }

  lemma {:induction false} KindMonotone(b: seq<byte>, s: nat, i: nat, j: nat, h: nat)
    requires i < |b| && j < |b|
    ensures Cmp(b, i, j, h) <= 0 ==> Kind(b, s, i, h) <= Kind(b, s, j, h)
    ensures Kind(b, s, i, h) < Kind(b, s, j, h) ==> Cmp(b, i, j, h) < 0
    decreases h
  {
    if h > 0 {
      KindMonotone(b, s, Next(|b|, i), Next(|b|, j), h - 1);
    }
  }

  lemma {:induction false} KindSplit(b: seq<byte>, s: nat, i: nat, g: nat, h: nat)
    requires i < |b|
    ensures Kind(b, s, i, g + h) == if Kind(b, s, i, g) != 0 then Kind(b, s, i, g)
              else Kind(b, s, Advance(|b|, i, g), h)
    decreases g
  {
    if g > 0 {
      KindSplit(b, s, Next(|b|, i), g - 1, h);
    }
  }

  /** A symbol `s` in front does not change the side. */
  lemma SideNext(b: seq<byte>, s: nat, i: nat)
    requires i < |b| && b[i] == s
    ensures Side(b, s, Next(|b|, i)) == Side(b, s, i)
  {
    var n, j := |b|, Next(|b|, i);
    KindSplit(b, s, j, n - 1, 1);
    AdvanceIs(n, j, n - 1);
    assert Kind(b, s, i, 1) == 0;
    assert Kind(b, s, Next(n, i), 0) == 0;
  }

  lemma {:induction false} KindZero(b: seq<byte>, s: nat, i: nat, h: nat, m: nat)
    requires i < |b| && Kind(b, s, i, h) == 0 && m < h
    ensures b[Advance(|b|, i, m)] == s
    decreases m
  {
    if m > 0 {
      KindZero(b, s, Next(|b|, i), h - 1, m - 1);
    }
  }

  /** A rotation equal to the constant string makes the whole block constant. */
  lemma SideZero(b: seq<byte>, s: nat, i: nat, j: nat)
    requires i < |b| && j < |b| && Side(b, s, i) == 0
    ensures b[j] == s
  {
    var m := if j >= i then j - i else j + |b| - i;
    AdvanceIs(|b|, i, m);
    KindZero(b, s, i, |b|, m);
  }

  lemma SideLe(b: seq<byte>, s: nat, i: nat, j: nat)
    requires i < |b| && j < |b|
    ensures Le(b, i, j) ==> Side(b, s, i) <= Side(b, s, j)
    ensures Side(b, s, i) < Side(b, s, j) ==> Le(b, i, j)
  {
    KindMonotone(b, s, i, j, |b|);
  }

  // ---------------------------------------------------------------- the chosen predecessors

  /** The predecessors with first symbol `c` of the entries `lo .. hi-1` of `p`, in that order. */
  function Chosen(b: seq<byte>, p: seq<nat>, c: nat, lo: int, hi: int): (l: seq<nat>)
    requires Entries(p, |b|) && 0 <= lo && hi <= |p|
    decreases hi - lo
  {
    if hi <= lo then []
    else Chosen(b, p, c, lo, hi - 1) + (if b[Prev(|b|, p[hi - 1])] == c then [Prev(|b|, p[hi - 1])] else [])
  }

  lemma {:induction false} ChosenSplit(b: seq<byte>, p: seq<nat>, c: nat, lo: int, mid: int, hi: int)
    requires Entries(p, |b|) && 0 <= lo <= mid <= hi <= |p|
    ensures Chosen(b, p, c, lo, hi) == Chosen(b, p, c, lo, mid) + Chosen(b, p, c, mid, hi)
    decreases hi - mid
  {
    if mid < hi {
      ChosenSplit(b, p, c, lo, mid, hi - 1);
    }
  }

  lemma {:induction false} ChosenFrame(b: seq<byte>, p: seq<nat>, p': seq<nat>, c: nat, lo: int, hi: int)
    requires Entries(p, |b|) && Entries(p', |b|) && |p'| == |p| && 0 <= lo && hi <= |p|
    requires forall x :: lo <= x < hi ==> p'[x] == p[x]
    ensures Chosen(b, p', c, lo, hi) == Chosen(b, p, c, lo, hi)
    decreases hi - lo
  {
    if lo < hi {
      ChosenFrame(b, p, p', c, lo, hi - 1);
    }
  }

  /** Every chosen rotation precedes an entry of the part. */
  lemma {:induction false} ChosenFrom(b: seq<byte>, p: seq<nat>, c: nat, lo: int, hi: int, i: nat) returns (y: int)
    requires Entries(p, |b|) && 0 <= lo && hi <= |p| && i < |Chosen(b, p, c, lo, hi)|
    ensures lo <= y < hi && p[y] < |b| && Chosen(b, p, c, lo, hi)[i] == Prev(|b|, p[y]) && b[Prev(|b|, p[y])] == c
    decreases hi - lo
  {
    var l := Chosen(b, p, c, lo, hi - 1);
    if i < |l| {
      y := ChosenFrom(b, p, c, lo, hi - 1, i);
    } else {
      y := hi - 1;
    }
  }

  /** Every predecessor with the right symbol is chosen. */
  lemma {:induction false} ChosenHas(b: seq<byte>, p: seq<nat>, c: nat, lo: int, hi: int, y: int)
    requires Entries(p, |b|) && 0 <= lo <= y < hi <= |p| && b[Prev(|b|, p[y])] == c
    ensures Prev(|b|, p[y]) in Chosen(b, p, c, lo, hi)
    decreases hi - lo
  {
    if y < hi - 1 {
      ChosenHas(b, p, c, lo, hi - 1, y);
    }
  }

  ghost predicate DistinctOn(p: seq<nat>, lo: int, hi: int)
  {
    forall x, y :: 0 <= lo <= x < y < hi <= |p| ==> p[x] != p[y]
  }

  ghost predicate Distinct(l: seq<nat>)
  {
    forall x, y :: 0 <= x < y < |l| ==> l[x] != l[y]
  }

  lemma PrevDistinct(n: nat, u: nat, v: nat)
    requires u < n && v < n && u != v
    ensures Prev(n, u) != Prev(n, v)
  {
    assert Next(n, Prev(n, u)) == u && Next(n, Prev(n, v)) == v;
  }

  /** The next chosen rotation is a new one. */
  lemma ChosenNew(b: seq<byte>, p: seq<nat>, c: nat, lo: int, hi: int, u: nat)
    requires Entries(p, |b|) && 0 <= lo && hi <= |p| && u < |b|
    requires forall x :: lo <= x < hi ==> p[x] != u
    ensures Prev(|b|, u) !in Chosen(b, p, c, lo, hi)
  {
    var l := Chosen(b, p, c, lo, hi);
    forall i | 0 <= i < |l| ensures l[i] != Prev(|b|, u) {
      var y := ChosenFrom(b, p, c, lo, hi, i);
      PrevDistinct(|b|, u, p[y]);
    }
  }

  lemma {:induction false} ChosenDistinct(b: seq<byte>, p: seq<nat>, c: nat, lo: int, hi: int)
    requires Entries(p, |b|) && 0 <= lo && hi <= |p| && DistinctOn(p, lo, hi)
    ensures Distinct(Chosen(b, p, c, lo, hi))
    decreases hi - lo
  {
    if lo < hi {
      ChosenDistinct(b, p, c, lo, hi - 1);
      ChosenNew(b, p, c, lo, hi - 1, p[hi - 1]);
    }
  }

  /** Chosen rotations are in the order of the entries they precede. */
  lemma {:induction false} ChosenOrdered(b: seq<byte>, p: seq<nat>, c: nat, lo: int, hi: int, i: nat, j: nat)
    requires Entries(p, |b|) && 0 <= lo && hi <= |p| && i <= j < |Chosen(b, p, c, lo, hi)|
    requires InOrder(b, p, lo, hi - 1)
    ensures Chosen(b, p, c, lo, hi)[i] < |b| && Chosen(b, p, c, lo, hi)[j] < |b|
    ensures Le(b, Chosen(b, p, c, lo, hi)[i], Chosen(b, p, c, lo, hi)[j])
    decreases hi - lo
  {
    var l := Chosen(b, p, c, lo, hi - 1);
    if j < |l| {
      ChosenOrdered(b, p, c, lo, hi - 1, i, j);
    } else {
      var y := ChosenFrom(b, p, c, lo, hi, i);
      assert Le(b, p[y], p[hi - 1]);
      LePrev(b, p[y], p[hi - 1]);
    }
  }

  // ---------------------------------------------------------------- room in the buckets

  /** The bounds of the small bucket [c, s]. */
  ghost function From(b: seq<byte>, s: nat, c: nat): (x: int)
  {
    StartP(b, 256 * c + s)
  }

  ghost function To(b: seq<byte>, s: nat, c: nat): (x: int)
  {
    StartP(b, 256 * c + s + 1)
  }

  /** Different rotations of one small bucket are no more than its entries. */
  lemma Room(b: seq<byte>, p0: seq<nat>, code: nat, l: seq<nat>)
    requires ByPair(b, p0) && Distinct(l)
    requires forall x :: 0 <= x < |l| ==> l[x] < |b| && Pair(b, l[x]) == code
    ensures StartP(b, code) + |l| <= StartP(b, code + 1) <= |b|
  {
    hide Pair, Start, Cmp;
    StartPMonotone(b, code, code + 1);
    var from, to := StartP(b, code), StartP(b, code + 1);
    var part := p0[from..to];
    DistinctSize(l);
    DistinctSize(part);
    forall v | v in Elements(l) ensures v in Elements(part) {
      var x := PositionOf(b, p0, v);
      assert part[x - from] == v;
    }
    SubsetSize(Elements(l), Elements(part));
  }

  /** All rotations of a small bucket are at least as many as its entries. */
  lemma RoomFull(b: seq<byte>, p0: seq<nat>, code: nat, l: seq<nat>)
    requires ByPair(b, p0)
    requires forall v: nat :: v < |b| && Pair(b, v) == code ==> v in l
    ensures StartP(b, code + 1) <= StartP(b, code) + |l|
  {
    hide Pair, Start, Cmp;
    StartPMonotone(b, code, code + 1);
    var from, to := StartP(b, code), StartP(b, code + 1);
    var part := p0[from..to];
    SizeAtMost(l);
    DistinctSize(part);
    forall v | v in Elements(part) ensures v in Elements(l) {
      var x :| 0 <= x < |part| && part[x] == v;
      assert v == p0[from + x];
      BucketHolds(b, p0, code, from + x);
    }
    SubsetSize(Elements(part), Elements(l));
  }

  // ---------------------------------------------------------------- the scans

  /** The bounds of the big bucket [s]. */
  ghost function BigFrom(b: seq<byte>, s: nat): (x: int)
  {
    StartP(b, 256 * s)
  }

  ghost function BigTo(b: seq<byte>, s: nat): (x: int)
  {
    StartP(b, 256 * (s + 1))
  }

  /** The entries `lo .. hi-1` are sorted rotations of the big bucket, all on the given side. */
  ghost predicate OneSide(b: seq<byte>, s: nat, p: seq<nat>, lo: int, hi: int, side: int)
    requires Entries(p, |b|)
  {
    && 0 <= lo && hi <= |p|
    && (forall x :: lo <= x < hi ==> b[p[x]] == s && Side(b, s, p[x]) == side)
    && DistinctOn(p, lo, hi) && InOrder(b, p, lo, hi - 1)
  }

  /** The part of bucket [c, s] that the upward scan has filled. */
  ghost predicate LowFilled(b: seq<byte>, s: nat, p: seq<nat>, c: nat, copyStart: int, j: int)
    requires Entries(p, |b|) && |p| == |b|
  {
    && 0 <= BigFrom(b, s) && j <= |p| && 0 <= From(b, s, c) <= copyStart <= To(b, s, c) <= |p|
    && p[From(b, s, c)..copyStart] == Chosen(b, p, c, BigFrom(b, s), j)
  }

  /** The part that the downward scan has filled. */
  ghost predicate HighFilled(b: seq<byte>, s: nat, p: seq<nat>, c: nat, copyEnd: int, j: int)
    requires Entries(p, |b|) && |p| == |b|
  {
    && 0 <= j + 1 && BigTo(b, s) <= |p| && 0 <= From(b, s, c) <= copyEnd + 1 <= To(b, s, c) <= |p|
    && p[copyEnd + 1..To(b, s, c)] == Chosen(b, p, c, j + 1, BigTo(b, s))
  }

  /** A rotation of a bucket [c, s] that the scans may fill. */
  ghost predicate Fillable(b: seq<byte>, s: nat, done: seq<bool>, v: nat)
    requires v < |b| && |done| == 256
  {
    b[Next(|b|, v)] == s && !done[b[v]]
  }

  /** The state of the upward scan at entry `j`. */
  ghost predicate Up(b: seq<byte>, s: nat, done: seq<bool>, p0: seq<nat>, p: seq<nat>, cs: seq<int>, j: int)
  {
    && |cs| == 256 && |done| == 256 && s < 256 && !done[s]
    && ByPair(b, p0) && Entries(p, |b|) && |p| == |b|
    && BigFrom(b, s) <= j <= cs[s]
    && OneSide(b, s, p, BigFrom(b, s), cs[s], -1)
    && (forall c :: 0 <= c < 256 && !done[c] ==> LowFilled(b, s, p, c, cs[c], j))
    && (forall x :: 0 <= x < |b| && (!Fillable(b, s, done, p0[x]) || x >= cs[b[p0[x]]]) ==> p[x] == p0[x])
  }

  lemma BigBounds(b: seq<byte>, s: nat, c: nat)
    requires s < 256 && c < 256
    ensures 0 <= From(b, s, c) <= To(b, s, c) <= |b|
    ensures 0 <= BigFrom(b, s) <= From(b, c, s) <= To(b, c, s) <= BigTo(b, s) <= |b|
    ensures BigFrom(b, s) <= From(b, s, s) <= To(b, s, s) <= BigTo(b, s)
  {
    StartPMonotone(b, 256 * c + s, 256 * c + s + 1);
    StartPMonotone(b, 256 * s, 256 * s + c);
    StartPMonotone(b, 256 * s + c, 256 * s + c + 1);
    StartPMonotone(b, 256 * s + c + 1, 256 * (s + 1));
    StartPMonotone(b, 256 * s, 256 * s + s);
    StartPMonotone(b, 256 * s + s, 256 * s + s + 1);
    StartPMonotone(b, 256 * s + s + 1, 256 * (s + 1));
  }

  /** The rotations of [s, c] with `c` below `s` lie below the constant string; above for `c` above. */
  lemma SideOfPair(b: seq<byte>, s: nat, v: nat)
    requires v < |b| && |b| >= 2 && b[v] == s
    ensures b[Next(|b|, v)] < s ==> Side(b, s, v) == -1
    ensures b[Next(|b|, v)] > s ==> Side(b, s, v) == 1
  {
    assert Kind(b, s, v, |b|) == Kind(b, s, Next(|b|, v), |b| - 1);
  }

  /** Before the scan only the sorted buckets [s, c], `c < s`, are known. */
  lemma UpStart(b: seq<byte>, s: nat, done: seq<bool>, p0: seq<nat>, cs: seq<int>)
    requires |b| >= 2 && |cs| == 256 && |done| == 256 && s < 256 && !done[s] && ByPair(b, p0)
    requires forall c :: 0 <= c < 256 ==> cs[c] == From(b, s, c)
    requires forall c :: 0 <= c < s ==> SmallSorted(b, p0, s, c)
    ensures Up(b, s, done, p0, p0, cs, BigFrom(b, s))
  {
    hide Side, Start, Chosen;
    BigBounds(b, s, s);
    var lo, hi := BigFrom(b, s), cs[s];
    forall x | lo <= x < hi ensures b[p0[x]] == s && b[Next(|b|, p0[x])] < s && Side(b, s, p0[x]) == -1 {
      BeforeDiagonal(b, s, p0, x);
      SideOfPair(b, s, p0[x]);
    }
    forall x, y | 0 <= lo <= x <= y <= hi - 1 < |p0| ensures Le(b, p0[x], p0[y]) {
      LowOrder(b, s, p0, x, y);
    }
    forall c | 0 <= c < 256 && !done[c] ensures LowFilled(b, s, p0, c, cs[c], lo) {
      BigBounds(b, s, c);
      ChosenNone(b, p0, c, lo);
    }
  }

  lemma ChosenNone(b: seq<byte>, p: seq<nat>, c: nat, lo: int)
    requires Entries(p, |b|) && 0 <= lo <= |p|
    ensures Chosen(b, p, c, lo, lo) == []
  {
  }

  lemma LowOrder(b: seq<byte>, s: nat, p0: seq<nat>, x: int, y: int)
    requires |b| >= 2 && s < 256 && ByPair(b, p0) && 0 <= x <= y < |b|
    requires b[p0[x]] == s && b[p0[y]] == s && b[Next(|b|, p0[x])] < s && b[Next(|b|, p0[y])] < s
    requires forall c :: 0 <= c < s ==> SmallSorted(b, p0, s, c)
    ensures Le(b, p0[x], p0[y])
  {
    var c, d := Pair(b, p0[x]), Pair(b, p0[y]);
    assert InBucket(b, p0[x], x) && InBucket(b, p0[y], y);
    if c == d {
      assert SmallSorted(b, p0, s, b[Next(|b|, p0[x])]);
    } else {
      if d < c {
        StartPMonotone(b, d + 1, c);
      }
      PairLess(b, p0[x], p0[y]);
    }
  }

  /** Chosen predecessors of rotations of [s] belong to the bucket [c, s], on the side of their successors. */
  lemma ChosenPairs(b: seq<byte>, s: nat, p: seq<nat>, c: nat, lo: int, hi: int, i: nat)
    requires Entries(p, |b|) && 0 <= lo && hi <= |p| && i < |Chosen(b, p, c, lo, hi)|
    requires forall x :: lo <= x < hi ==> b[p[x]] == s
    ensures Chosen(b, p, c, lo, hi)[i] < |b| && Pair(b, Chosen(b, p, c, lo, hi)[i]) == 256 * c + s
  {
    var y := ChosenFrom(b, p, c, lo, hi, i);
  }

  /** The bucket [c, s] has room for every different predecessor. */
  lemma ChosenRoom(b: seq<byte>, s: nat, p0: seq<nat>, p: seq<nat>, c: nat, lo: int, hi: int)
    requires ByPair(b, p0) && Entries(p, |b|) && 0 <= lo && hi <= |p| && DistinctOn(p, lo, hi)
    requires forall x :: lo <= x < hi ==> b[p[x]] == s
    ensures From(b, s, c) + |Chosen(b, p, c, lo, hi)| <= To(b, s, c) <= |b|
  {
    ChosenDistinct(b, p, c, lo, hi);
    var l := Chosen(b, p, c, lo, hi);
    forall i | 0 <= i < |l| ensures l[i] < |b| && Pair(b, l[i]) == 256 * c + s {
      ChosenPairs(b, s, p, c, lo, hi, i);
    }
    Room(b, p0, 256 * c + s, l);
  }

  /** Only the bucket [s, s] lies in the big bucket [s]. */
  lemma OutsideBig(b: seq<byte>, s: nat, c: nat, x: int)
    requires s < 256 && c < 256 && c != s && From(b, s, c) <= x < To(b, s, c)
    ensures x < BigFrom(b, s) || BigTo(b, s) <= x
  {
    if c < s {
      StartPMonotone(b, 256 * c + s + 1, 256 * s);
    } else {
      StartPMonotone(b, 256 * (s + 1), 256 * c + s);
    }
  }

  lemma OneSideFrame(b: seq<byte>, s: nat, p: seq<nat>, p': seq<nat>, lo: int, hi: int, side: int)
    requires Entries(p, |b|) && Entries(p', |b|) && |p'| == |p| && OneSide(b, s, p, lo, hi, side)
    requires forall x :: lo <= x < hi ==> p'[x] == p[x]
    ensures OneSide(b, s, p', lo, hi, side)
  {
    hide Side, Le;
  }

  /** The entry that the upward scan adds to [s, s] follows all before it. */
  lemma LowAppended(b: seq<byte>, s: nat, done: seq<bool>, p0: seq<nat>, p: seq<nat>, cs: seq<int>, j: int, x: int)
    requires Up(b, s, done, p0, p, cs, j) && j < cs[s] && BigFrom(b, s) <= x < cs[s] && |b| >= 2
    requires b[Prev(|b|, p[j])] == s
    ensures p[x] != Prev(|b|, p[j]) && Le(b, p[x], Prev(|b|, p[j]))
  {
    hide Side, Start, Cmp, Pair, Chosen;
    var k, lo := Prev(|b|, p[j]), BigFrom(b, s);
    BigBounds(b, s, s);
    if x < From(b, s, s) {
      BeforeDiagonal(b, s, p0, x);
      assert !Fillable(b, s, done, p0[x]);
      assert p[x] == p0[x];
      PairAbove(b, s, p[x], k);
    } else {
      assert LowFilled(b, s, p, s, cs[s], j);
      var i := x - From(b, s, s);
      assert p[From(b, s, s)..cs[s]][i] == p[x];
      var y := ChosenFrom(b, p, s, lo, j, i);
      PrevDistinct(|b|, p[y], p[j]);
      assert Le(b, p[y], p[j]);
      LePrev(b, p[y], p[j]);
    }
  }

  lemma UpOneSide(b: seq<byte>, s: nat, done: seq<bool>, p0: seq<nat>, p: seq<nat>, cs: seq<int>, j: int)
    requires Up(b, s, done, p0, p, cs, j) && j < cs[s] < |b| && |b| >= 2
    requires b[Prev(|b|, p[j])] == s
    ensures Entries(p[cs[s] := Prev(|b|, p[j])], |b|)
    ensures OneSide(b, s, p[cs[s] := Prev(|b|, p[j])], BigFrom(b, s), cs[s] + 1, -1)
  {
    var k, lo, hi := Prev(|b|, p[j]), BigFrom(b, s), cs[s];
    var p' := p[hi := k];
    SideNext(b, s, k);
    forall x | lo <= x < hi ensures p[x] != k && Le(b, p[x], k) {
      LowAppended(b, s, done, p0, p, cs, j, x);
    }
    CmpRefl(b, k, |b|);
    hide Side, Cmp, Start;
    assert b[p[j]] == s && Side(b, s, p[j]) == -1;
    forall x, y | 0 <= lo <= x <= y <= hi < |p'| ensures Le(b, p'[x], p'[y]) {
      if y < hi {
        assert Le(b, p[x], p[y]);
      }
    }
  }

  /** One step of the upward scan; `Up` again, with the predecessor placed if its bucket is not done. */
  lemma UpSkip(b: seq<byte>, s: nat, done: seq<bool>, p0: seq<nat>, p: seq<nat>, cs: seq<int>, j: int)
    requires Up(b, s, done, p0, p, cs, j) && j < cs[s] && done[b[Prev(|b|, p[j])]]
    ensures Up(b, s, done, p0, p, cs, j + 1)
  {
    hide OneSide, Start;
    forall c | 0 <= c < 256 && !done[c] ensures LowFilled(b, s, p, c, cs[c], j + 1) {
      assert LowFilled(b, s, p, c, cs[c], j);
      ChosenNext(b, p, c, BigFrom(b, s), j);
    }
  }

  lemma ChosenNext(b: seq<byte>, p: seq<nat>, c: nat, lo: int, hi: int)
    requires Entries(p, |b|) && 0 <= lo <= hi < |p|
    ensures Chosen(b, p, c, lo, hi + 1)
            == Chosen(b, p, c, lo, hi) + (if b[Prev(|b|, p[hi])] == c then [Prev(|b|, p[hi])] else [])
  {
  }

  lemma DistinctPart(p: seq<nat>, lo: int, hi: int, hi': int)
    requires DistinctOn(p, lo, hi) && hi' <= hi <= |p|
    ensures DistinctOn(p, lo, hi')
  {
  }

  lemma UpRoom(b: seq<byte>, s: nat, done: seq<bool>, p0: seq<nat>, p: seq<nat>, cs: seq<int>, j: int)
    requires Up(b, s, done, p0, p, cs, j) && j < cs[s] && !done[b[Prev(|b|, p[j])]]
    ensures var c := b[Prev(|b|, p[j])]; From(b, s, c) <= cs[c] < To(b, s, c) <= |b|
  {
    hide Kind, Chosen, ByPair, Start, Occ, Pair, DistinctOn;
    var c, lo := b[Prev(|b|, p[j])], BigFrom(b, s);
    assert LowFilled(b, s, p, c, cs[c], j);
    ChosenNext(b, p, c, lo, j);
    DistinctPart(p, lo, cs[s], j + 1);
    ChosenRoom(b, s, p0, p, c, lo, j + 1);
  }

  lemma UpPlace(b: seq<byte>, s: nat, done: seq<bool>, p0: seq<nat>, p: seq<nat>, cs: seq<int>, j: int, k: nat, c: nat)
    requires Up(b, s, done, p0, p, cs, j) && j < cs[s] && |b| >= 2
    requires k == Prev(|b|, p[j]) && c == b[k] && !done[c]
    ensures From(b, s, c) <= cs[c] < To(b, s, c) <= |b|
    ensures Up(b, s, done, p0, p[cs[c] := k], cs[c := cs[c] + 1], j + 1)
  {
    hide *;
    UpFacts(b, s, done, p0, p, cs, j);
    UpRoom(b, s, done, p0, p, cs, j);
    BigBounds(b, s, c);
    var at := cs[c];
    var p', cs' := p[at := k], cs[c := at + 1];
    UpPlaceOne(b, s, done, p0, p, cs, j, k, c, c);
    if c == s {
      UpOneSide(b, s, done, p0, p, cs, j);
    } else {
      BigBounds(b, s, s);
      OutsideBig(b, s, c, at);
      LowFilledBounds(b, s, p, s, cs[s], j);
      OneSideFrame(b, s, p, p', BigFrom(b, s), cs[s], -1);
    }
    forall d | 0 <= d < 256 && !done[d] ensures LowFilled(b, s, p', d, cs'[d], j + 1) {
      UpPlaceOne(b, s, done, p0, p, cs, j, k, c, d);
    }
    UpUntouched(b, s, done, p0, p, cs, j, k, c);
    IsUp(b, s, done, p0, p', cs', j + 1);
  }

  lemma UpFacts(b: seq<byte>, s: nat, done: seq<bool>, p0: seq<nat>, p: seq<nat>, cs: seq<int>, j: int)
    requires Up(b, s, done, p0, p, cs, j)
    ensures |cs| == 256 && |done| == 256 && s < 256 && !done[s] && ByPair(b, p0) && Entries(p, |b|) && |p| == |b|
    ensures |p0| == |b|
    ensures BigFrom(b, s) <= j <= cs[s] && 0 <= BigFrom(b, s) && OneSide(b, s, p, BigFrom(b, s), cs[s], -1)
    ensures forall c :: 0 <= c < 256 && !done[c] ==> LowFilled(b, s, p, c, cs[c], j)
  {
    BigBounds(b, s, s);
    hide OneSide, LowFilled, BigFrom;
  }

  lemma IsUp(b: seq<byte>, s: nat, done: seq<bool>, p0: seq<nat>, p: seq<nat>, cs: seq<int>, j: int)
    requires |cs| == 256 && |done| == 256 && s < 256 && !done[s] && ByPair(b, p0) && Entries(p, |b|) && |p| == |b|
    requires BigFrom(b, s) <= j <= cs[s] && OneSide(b, s, p, BigFrom(b, s), cs[s], -1)
    requires forall c :: 0 <= c < 256 && !done[c] ==> LowFilled(b, s, p, c, cs[c], j)
    requires forall x :: 0 <= x < |b| && (!Fillable(b, s, done, p0[x]) || x >= cs[b[p0[x]]]) ==> p[x] == p0[x]
    ensures Up(b, s, done, p0, p, cs, j)
  {
    hide OneSide, LowFilled, BigFrom, Fillable;
  }

  lemma LowFilledBounds(b: seq<byte>, s: nat, p: seq<nat>, c: nat, copyStart: int, j: int)
    requires Entries(p, |b|) && |p| == |b| && LowFilled(b, s, p, c, copyStart, j)
    ensures 0 <= From(b, s, c) <= copyStart <= To(b, s, c) <= |p|
  {
    hide From, To, Chosen;
  }

  lemma UpUntouched(b: seq<byte>, s: nat, done: seq<bool>, p0: seq<nat>, p: seq<nat>, cs: seq<int>, j: int, k: nat,
                    c: nat)
    requires Up(b, s, done, p0, p, cs, j) && c < 256 && From(b, s, c) <= cs[c] < To(b, s, c) <= |b| && !done[c]
    ensures forall x :: 0 <= x < |b| && (!Fillable(b, s, done, p0[x]) || x >= cs[c := cs[c] + 1][b[p0[x]]])
              ==> p[cs[c] := k][x] == p0[x]
  {
    hide OneSide, LowFilled;
    BigBounds(b, s, c);
    BucketHolds(b, p0, 256 * c + s, cs[c]);
  }

  lemma UpPlaceOne(b: seq<byte>, s: nat, done: seq<bool>, p0: seq<nat>, p: seq<nat>, cs: seq<int>, j: int, k: nat,
                   c: nat, d: nat)
    requires Up(b, s, done, p0, p, cs, j) && j < cs[s] && k == Prev(|b|, p[j]) && c == b[k] && !done[c]
    requires From(b, s, c) <= cs[c] < To(b, s, c) <= |b| && d < 256 && !done[d]
    ensures Entries(p[cs[c] := k], |b|)
    ensures LowFilled(b, s, p[cs[c] := k], d, cs[c := cs[c] + 1][d], j + 1)
  {
    hide OneSide, Start, Chosen, ByPair, Fillable;
    var lo, at := BigFrom(b, s), cs[c];
    var p' := p[at := k];
    assert LowFilled(b, s, p, d, cs[d], j);
    BigBounds(b, s, d);
    BigBounds(b, s, s);
    assert LowFilled(b, s, p, s, cs[s], j);
    assert at < lo || j < at by {
      if c != s {
        OutsideBig(b, s, c, at);
      }
    }
    ChosenFrame(b, p, p', d, lo, j + 1);
    ChosenNext(b, p, d, lo, j);
    if d == c {
      assert p'[From(b, s, d)..at + 1] == p[From(b, s, d)..at] + [k];
    } else {
      if From(b, s, d) <= at < cs[d] {
        BucketUnique(b, 256 * c + s, 256 * d + s, at);
      }
      assert p'[From(b, s, d)..cs[d]] == p[From(b, s, d)..cs[d]];
    }
  }

  // ---------------------------------------------------------------- the downward scan

  /** The state of the downward scan, of which entry `j` is next. */
  ghost predicate Down(b: seq<byte>, s: nat, done: seq<bool>, p0: seq<nat>, p: seq<nat>, cs: seq<int>, ce: seq<int>,
                       j: int)
  {
    && |cs| == 256 && |ce| == 256 && |done| == 256 && s < 256 && !done[s]
    && ByPair(b, p0) && Entries(p, |b|) && |p| == |b|
    && ce[s] <= j < BigTo(b, s)
    && OneSide(b, s, p, BigFrom(b, s), cs[s], -1) && OneSide(b, s, p, ce[s] + 1, BigTo(b, s), 1)
    && (forall c :: 0 <= c < 256 && !done[c] ==> DownBucket(b, s, p, c, cs[s], cs[c], ce[c], j))
    && (forall x :: 0 <= x < |b| && (!Fillable(b, s, done, p0[x]) || cs[b[p0[x]]] <= x <= ce[b[p0[x]]]) ==>
        p[x] == p0[x])
  }

  ghost predicate DownBucket(b: seq<byte>, s: nat, p: seq<nat>, c: nat, middle: int, copyStart: int, copyEnd: int,
                             j: int)
    requires Entries(p, |b|) && |p| == |b|
  {
    LowFilled(b, s, p, c, copyStart, middle) && HighFilled(b, s, p, c, copyEnd, j) && copyStart <= copyEnd + 1
  }

  lemma DownStart(b: seq<byte>, s: nat, done: seq<bool>, p0: seq<nat>, p: seq<nat>, cs: seq<int>, ce: seq<int>)
    requires |b| >= 2 && s < 256 && |cs| == 256 && |ce| == 256 && Up(b, s, done, p0, p, cs, cs[s])
    requires forall c :: 0 <= c < 256 ==> ce[c] + 1 == To(b, s, c)
    requires forall c :: s < c < 256 ==> SmallSorted(b, p0, s, c)
    ensures Down(b, s, done, p0, p, cs, ce, BigTo(b, s) - 1)
  {
    hide Side, Start, Chosen;
    BigBounds(b, s, s);
    var lo, hi := ce[s] + 1, BigTo(b, s);
    forall x | lo <= x < hi
      ensures b[p0[x]] == s && b[Next(|b|, p0[x])] > s && Side(b, s, p0[x]) == 1 && p[x] == p0[x]
    {
      AfterDiagonal(b, s, p0, x);
      SideOfPair(b, s, p0[x]);
      assert !Fillable(b, s, done, p0[x]);
    }
    forall x, y | 0 <= lo <= x <= y <= hi - 1 < |p| ensures Le(b, p[x], p[y]) {
      HighOrder(b, s, p0, x, y);
    }
    forall c | 0 <= c < 256 && !done[c] ensures DownBucket(b, s, p, c, cs[s], cs[c], ce[c], hi - 1) {
      BigBounds(b, s, c);
      assert LowFilled(b, s, p, c, cs[c], cs[s]);
      ChosenNone(b, p, c, hi);
    }
    forall x | 0 <= x < |b| && Fillable(b, s, done, p0[x]) && cs[b[p0[x]]] <= x ensures p[x] == p0[x] {
    }
  }

  lemma HighOrder(b: seq<byte>, s: nat, p0: seq<nat>, x: int, y: int)
    requires |b| >= 2 && s < 256 && ByPair(b, p0) && 0 <= x <= y < |b|
    requires b[p0[x]] == s && b[p0[y]] == s && b[Next(|b|, p0[x])] > s && b[Next(|b|, p0[y])] > s
    requires forall c :: s < c < 256 ==> SmallSorted(b, p0, s, c)
    ensures Le(b, p0[x], p0[y])
  {
    var c, d := Pair(b, p0[x]), Pair(b, p0[y]);
    assert InBucket(b, p0[x], x) && InBucket(b, p0[y], y);
    if c == d {
      assert SmallSorted(b, p0, s, b[Next(|b|, p0[x])]);
    } else {
      if d < c {
        StartPMonotone(b, d + 1, c);
      }
      PairLess(b, p0[x], p0[y]);
    }
  }

  /** The chosen rotations grow at the front as the scan goes down. */
  lemma ChosenFront(b: seq<byte>, p: seq<nat>, c: nat, j: int, hi: int)
    requires Entries(p, |b|) && 0 <= j < hi <= |p|
    ensures Chosen(b, p, c, j, hi)
            == (if b[Prev(|b|, p[j])] == c then [Prev(|b|, p[j])] else []) + Chosen(b, p, c, j + 1, hi)
  {
    ChosenSplit(b, p, c, j, j + 1, hi);
    ChosenNone(b, p, c, j);
    ChosenNext(b, p, c, j, j);
  }

  lemma DownSkip(b: seq<byte>, s: nat, done: seq<bool>, p0: seq<nat>, p: seq<nat>, cs: seq<int>, ce: seq<int>, j: int)
    requires Down(b, s, done, p0, p, cs, ce, j) && ce[s] < j && done[b[Prev(|b|, p[j])]]
    ensures Down(b, s, done, p0, p, cs, ce, j - 1)
  {
    hide OneSide, Start;
    BigBounds(b, s, s);
    forall c | 0 <= c < 256 && !done[c] ensures DownBucket(b, s, p, c, cs[s], cs[c], ce[c], j - 1) {
      assert DownBucket(b, s, p, c, cs[s], cs[c], ce[c], j);
      ChosenFront(b, p, c, j, BigTo(b, s));
    }
  }

  /** The rotations chosen from below and from above are all different: they fit the bucket. */
  lemma TwoSidesFit(b: seq<byte>, s: nat, p0: seq<nat>, p: seq<nat>, c: nat, lo: int, mid: int, j: int, hi: int)
    requires ByPair(b, p0) && Entries(p, |b|) && s < 256 && c < 256
    requires OneSide(b, s, p, lo, mid, -1) && OneSide(b, s, p, j, hi, 1)
    ensures From(b, s, c) + |Chosen(b, p, c, lo, mid)| + |Chosen(b, p, c, j, hi)| <= To(b, s, c) <= |b|
  {
    hide Side, InOrder, Chosen;
    var low, high := Chosen(b, p, c, lo, mid), Chosen(b, p, c, j, hi);
    ChosenDistinct(b, p, c, lo, mid);
    ChosenDistinct(b, p, c, j, hi);
    var l := low + high;
    forall i | 0 <= i < |l| ensures l[i] < |b| && Pair(b, l[i]) == 256 * c + s {
      if i < |low| {
        ChosenPairs(b, s, p, c, lo, mid, i);
      } else {
        ChosenPairs(b, s, p, c, j, hi, i - |low|);
      }
    }
    forall x, y | 0 <= x < |low| && 0 <= y < |high| ensures low[x] != high[y] {
      var u := ChosenFrom(b, p, c, lo, mid, x);
      var v := ChosenFrom(b, p, c, j, hi, y);
      PrevDistinct(|b|, p[u], p[v]);
    }
    Room(b, p0, 256 * c + s, l);
  }

  lemma DownRoom(b: seq<byte>, s: nat, done: seq<bool>, p0: seq<nat>, p: seq<nat>, cs: seq<int>, ce: seq<int>, j: int,
                 c: nat)
    requires Down(b, s, done, p0, p, cs, ce, j) && ce[s] < j && c == b[Prev(|b|, p[j])] && !done[c]
    ensures From(b, s, c) <= cs[c] <= ce[c] < To(b, s, c) <= |b|
  {
    hide Side, Start, Chosen;
    BigBounds(b, s, s);
    assert DownBucket(b, s, p, c, cs[s], cs[c], ce[c], j);
    ChosenFront(b, p, c, j, BigTo(b, s));
    assert OneSide(b, s, p, j, BigTo(b, s), 1);
    TwoSidesFit(b, s, p0, p, c, BigFrom(b, s), cs[s], j, BigTo(b, s));
  }

  /** The big bucket goes on after [s, s] with greater second symbols. */
  lemma AfterDiagonal(b: seq<byte>, s: nat, p0: seq<nat>, x: int)
    requires ByPair(b, p0) && s < 256 && To(b, s, s) <= x < BigTo(b, s) <= |b|
    ensures b[p0[x]] == s && b[Next(|b|, p0[x])] > s
  {
    BigBounds(b, s, s);
    BigHolds(b, p0, s, x);
    assert InBucket(b, p0[x], x);
    if b[Next(|b|, p0[x])] <= s {
      StartPMonotone(b, Pair(b, p0[x]) + 1, 256 * s + s + 1);
    }
  }

  /** It begins with smaller second symbols. */
  lemma BeforeDiagonal(b: seq<byte>, s: nat, p0: seq<nat>, x: int)
    requires ByPair(b, p0) && s < 256 && BigFrom(b, s) <= x < From(b, s, s)
    ensures x < |b| && b[p0[x]] == s && b[Next(|b|, p0[x])] < s
  {
    BigBounds(b, s, s);
    BigHolds(b, p0, s, x);
    assert InBucket(b, p0[x], x);
    if b[Next(|b|, p0[x])] >= s {
      StartPMonotone(b, 256 * s + s, Pair(b, p0[x]));
    }
  }

  lemma PairAbove(b: seq<byte>, s: nat, u: nat, v: nat)
    requires u < |b| && v < |b| && b[u] == s && b[v] == s && b[Next(|b|, u)] < b[Next(|b|, v)]
    ensures Le(b, u, v)
  {
    PairLess(b, u, v);
  }

  /** The entry that the downward scan puts before [s, s] precedes all after it. */
  lemma HighPrepended(b: seq<byte>, s: nat, done: seq<bool>, p0: seq<nat>, p: seq<nat>, cs: seq<int>, ce: seq<int>,
                      j: int, x: int)
    requires Down(b, s, done, p0, p, cs, ce, j) && ce[s] < j && ce[s] < x < BigTo(b, s) && |b| >= 2
    requires b[Prev(|b|, p[j])] == s
    ensures p[x] != Prev(|b|, p[j]) && Le(b, Prev(|b|, p[j]), p[x])
  {
    hide Side, Start, Cmp, Pair, Chosen;
    var k, hi := Prev(|b|, p[j]), BigTo(b, s);
    BigBounds(b, s, s);
    assert DownBucket(b, s, p, s, cs[s], cs[s], ce[s], j);
    if x >= To(b, s, s) {
      AfterDiagonal(b, s, p0, x);
      assert !Fillable(b, s, done, p0[x]);
      assert p[x] == p0[x];
      PairAbove(b, s, k, p[x]);
    } else {
      var i := x - ce[s] - 1;
      assert p[ce[s] + 1..To(b, s, s)][i] == p[x];
      var y := ChosenFrom(b, p, s, j + 1, hi, i);
      PrevDistinct(|b|, p[y], p[j]);
      assert Le(b, p[j], p[y]);
      LePrev(b, p[j], p[y]);
    }
  }

  lemma DownOneSide(b: seq<byte>, s: nat, done: seq<bool>, p0: seq<nat>, p: seq<nat>, cs: seq<int>, ce: seq<int>,
                    j: int)
    requires Down(b, s, done, p0, p, cs, ce, j) && 0 <= ce[s] < j && |b| >= 2
    requires b[Prev(|b|, p[j])] == s && BigTo(b, s) <= |b|
    ensures Entries(p[ce[s] := Prev(|b|, p[j])], |b|)
    ensures OneSide(b, s, p[ce[s] := Prev(|b|, p[j])], ce[s], BigTo(b, s), 1)
  {
    var k, lo, hi := Prev(|b|, p[j]), ce[s], BigTo(b, s);
    var p' := p[lo := k];
    SideNext(b, s, k);
    forall x | lo < x < hi ensures p[x] != k && Le(b, k, p[x]) {
      HighPrepended(b, s, done, p0, p, cs, ce, j, x);
    }
    CmpRefl(b, k, |b|);
    hide Side, Cmp, Start;
    assert b[p[j]] == s && Side(b, s, p[j]) == 1;
    forall x, y | 0 <= lo <= x <= y <= hi - 1 < |p'| ensures Le(b, p'[x], p'[y]) {
      if lo < x {
        assert Le(b, p[x], p[y]);
      }
    }
  }

  lemma DownPlace(b: seq<byte>, s: nat, done: seq<bool>, p0: seq<nat>, p: seq<nat>, cs: seq<int>, ce: seq<int>, j: int,
                  k: nat, c: nat)
    requires Down(b, s, done, p0, p, cs, ce, j) && ce[s] < j && |b| >= 2
    requires k == Prev(|b|, p[j]) && c == b[k] && !done[c]
    ensures From(b, s, c) <= cs[c] <= ce[c] < To(b, s, c) <= |b|
    ensures Down(b, s, done, p0, p[ce[c] := k], cs, ce[c := ce[c] - 1], j - 1)
  {
    hide Side, Start, Chosen, InOrder, Fillable;
    DownRoom(b, s, done, p0, p, cs, ce, j, c);
    BigBounds(b, s, c);
    BigBounds(b, s, s);
    var at := ce[c];
    var p', ce' := p[at := k], ce[c := at - 1];
    if c == s {
      DownOneSide(b, s, done, p0, p, cs, ce, j);
    } else {
      OutsideBig(b, s, c, at);
      assert DownBucket(b, s, p, s, cs[s], cs[s], ce[s], j);
      OneSideFrame(b, s, p, p', ce[s] + 1, BigTo(b, s), 1);
    }
    assert DownBucket(b, s, p, s, cs[s], cs[s], ce[s], j);
    OneSideFrame(b, s, p, p', BigFrom(b, s), cs[s], -1);
    forall d | 0 <= d < 256 && !done[d] ensures DownBucket(b, s, p', d, cs[s], cs[d], ce'[d], j - 1) {
      DownPlaceOne(b, s, done, p0, p, cs, ce, j, k, c, d);
    }
    DownUntouched(b, s, done, p0, p, cs, ce, j, k, c);
  }

  lemma DownUntouched(b: seq<byte>, s: nat, done: seq<bool>, p0: seq<nat>, p: seq<nat>, cs: seq<int>, ce: seq<int>,
                      j: int, k: nat, c: nat)
    requires Down(b, s, done, p0, p, cs, ce, j) && c < 256 && From(b, s, c) <= cs[c] <= ce[c] < To(b, s, c) <= |b|
    requires !done[c]
    ensures var ce' := ce[c := ce[c] - 1]; var p' := p[ce[c] := k];
            forall x :: 0 <= x < |b| && (!Fillable(b, s, done, p0[x]) || cs[b[p0[x]]] <= x <= ce'[b[p0[x]]]) ==>
                p'[x] == p0[x]
  {
    hide OneSide, DownBucket;
    BigBounds(b, s, c);
    BucketHolds(b, p0, 256 * c + s, ce[c]);
  }

  lemma DownPlaceOne(b: seq<byte>, s: nat, done: seq<bool>, p0: seq<nat>, p: seq<nat>, cs: seq<int>, ce: seq<int>,
                     j: int, k: nat, c: nat, d: nat)
    requires Down(b, s, done, p0, p, cs, ce, j) && ce[s] < j && k == Prev(|b|, p[j]) && c == b[k] && !done[c]
    requires From(b, s, c) <= cs[c] <= ce[c] < To(b, s, c) <= |b| && d < 256 && !done[d]
    ensures Entries(p[ce[c] := k], |b|)
    ensures DownBucket(b, s, p[ce[c] := k], d, cs[s], cs[d], ce[c := ce[c] - 1][d], j - 1)
  {
    hide OneSide, Start, Chosen, ByPair, Fillable;
    var at := ce[c];
    var p' := p[at := k];
    assert DownBucket(b, s, p, d, cs[s], cs[d], ce[d], j);
    assert DownBucket(b, s, p, s, cs[s], cs[s], ce[s], j);
    BigBounds(b, s, d);
    BigBounds(b, s, s);
    assert at < BigFrom(b, s) || BigTo(b, s) <= at || cs[s] <= at < j by {
      if c != s {
        OutsideBig(b, s, c, at);
      }
    }
    ChosenFrame(b, p, p', d, BigFrom(b, s), cs[s]);
    ChosenFrame(b, p, p', d, j, BigTo(b, s));
    ChosenFront(b, p, d, j, BigTo(b, s));
    if d == c {
      assert p'[at..To(b, s, d)] == [k] + p[at + 1..To(b, s, d)];
      assert p'[From(b, s, d)..cs[d]] == p[From(b, s, d)..cs[d]];
    } else {
      if From(b, s, d) <= at < To(b, s, d) {
        BucketUnique(b, 256 * c + s, 256 * d + s, at);
      }
      assert p'[From(b, s, d)..cs[d]] == p[From(b, s, d)..cs[d]];
      assert p'[ce[d] + 1..To(b, s, d)] == p[ce[d] + 1..To(b, s, d)];
    }
  }
}
