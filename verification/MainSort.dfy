/**
 The main block sorter (blocksort.c lines 750-1011): big buckets in running order, each
 completed by quicksort, used to synthesise other small buckets, and then described by quadrants.
 */
module MainSort {

  import opened Rotation
  import opened Counting
  import opened Words
  import opened Rearrange
  import opened MainCompare
  import opened MainSimpleSort
  import MainQSort
  import opened MainBuckets
  import opened MainCopy
  import opened MainCopied
  import opened MainRadix
  import opened Repetition
  import opened TotalSeqs

  const SETMASK := 2097152

  lemma Constants()
    ensures FTAB_SIZE == 65537 && N_RADIX == 2 && DEPTH_THRESH == 14 && OVERSHOOT == 34 && MAX_BLOCK == 900000
  {
  }

  /** `w & SETMASK`. */
  predicate Flagged(w: nat)
  {
    w / SETMASK % 2 == 1
  }

  /** `w & CLEARMASK`. */
  function Unflag(w: nat): (r: nat)
  {
    if Flagged(w) then w - SETMASK else w
  }

  /** `w | SETMASK`. */
  function Flag(w: nat): (r: nat)
  {
    if Flagged(w) then w else w + SETMASK
  }

  lemma FlagUnflag(w: nat)
    ensures Flagged(Flag(w)) && Unflag(Flag(w)) == Unflag(w)
    ensures w < SETMASK ==> !Flagged(w) && Unflag(w) == w
  {
  }

  /** `ftab` holds the bucket starts; flagged buckets are sorted. */
  ghost predicate Marked(ftab: seq<nat>, b: seq<byte>, p: seq<nat>)
    requires Entries(p, |b|)
  {
    && |ftab| == FTAB_SIZE
    && (forall c :: 0 <= c < FTAB_SIZE ==> Unflag(ftab[c]) == StartP(b, c))
    && (forall c :: 0 <= c < 65536 && Flagged(ftab[c]) ==> BucketSorted(b, p, c))
  }

  /** Finished symbols: their own small buckets, and those of others that end in them, are flagged. */
  ghost predicate Finished(ftab: seq<nat>, done: seq<bool>)
    requires |ftab| == FTAB_SIZE
  {
    && |done| == 256
    && forall s, c :: 0 <= s < 256 && 0 <= c < 256 && (done[s] || done[c]) ==> FlaggedPair(ftab, s, c)
  }

  predicate FlaggedPair(ftab: seq<nat>, s: nat, c: nat)
    requires |ftab| == FTAB_SIZE && s < 256 && c < 256
  {
    Flagged(ftab[256 * s + c])
  }

  /** Symbols without quadrants have quadrant 0. */
  ghost predicate Blank(b: seq<byte>, q: seq<nat>, done: seq<bool>)
    requires |q| == |b| && |done| == 256
  {
    forall i :: 0 <= i < |b| && !done[b[i]] ==> q[i] == 0
  }

  // ---------------------------------------------------------------- step 1

  lemma {:induction false} PairAgree(b: seq<byte>, u: nat, v: nat)
    requires u < |b| && v < |b| && Pair(b, u) == Pair(b, v)
    ensures Cmp(b, u, v, 2) == 0
  {
    assert Cmp(b, Next(|b|, Next(|b|, u)), Next(|b|, Next(|b|, v)), 0) == 0;
    PairParts(b, u, v);
  }

  lemma BucketAgrees(b: seq<byte>, p: seq<nat>, c: nat)
    requires ByPair(b, p)
    ensures Agree(b, p, StartP(b, c), StartP(b, c + 1) - 1, 2)
  {
    hide Start, Cmp, Pair;
    forall x, y | 0 <= StartP(b, c) <= x <= StartP(b, c + 1) - 1 < |p| && StartP(b, c) <= y <= StartP(b, c + 1) - 1
      ensures Cmp(b, p[x], p[y], 2) == 0
    {
      BucketHolds(b, p, c, x);
      BucketHolds(b, p, c, y);
      PairAgree(b, p[x], p[y]);
    }
  }

  /** Rearranging one small bucket leaves every rotation in its bucket, and other buckets as they were. */
  lemma BucketRearranged(b: seq<byte>, p: seq<nat>, p': seq<nat>, c: nat)
    requires ByPair(b, p) && Rearranged(p, p', StartP(b, c), StartP(b, c + 1) - 1)
    ensures ByPair(b, p')
    ensures forall d: nat :: d != c && BucketSorted(b, p, d) ==> BucketSorted(b, p', d)
  {
    var lo, hi := StartP(b, c), StartP(b, c + 1) - 1;
    hide Start, Cmp, Pair;
    RearrangedPerm(p, p', lo, hi, |b|);
    forall x | 0 <= x < |b| ensures InBucket(b, p'[x], x) {
      assert InBucket(b, p[x], x);
      if lo <= x <= hi {
        StartPMonotone(b, c, c + 1);
        var y := RearrangedFrom(p, p', lo, hi, x);
        BucketHolds(b, p, c, y);
      }
    }
    forall d: nat, x: int | d != c && StartP(b, d) <= x < StartP(b, d + 1) && x < |p| ensures p'[x] == p[x] {
      if lo <= x <= hi {
        BucketUnique(b, c, d, x);
      }
    }
  }

  lemma SmallBucket(b: seq<byte>, p: seq<nat>, c: nat)
    requires ByPair(b, p) && StartP(b, c + 1) - 1 <= StartP(b, c)
    ensures BucketSorted(b, p, c)
  {
    hide Start, Cmp;
    forall x, y | StartP(b, c) <= x <= y < StartP(b, c + 1) && y < |p| ensures Le(b, p[x], p[y]) {
      CmpRefl(b, p[x], |b|);
    }
  }

  lemma SortedBucket(b: seq<byte>, p: seq<nat>, c: nat)
    requires ByPair(b, p) && InOrder(b, p, StartP(b, c), StartP(b, c + 1) - 1)
    ensures BucketSorted(b, p, c)
  {
    hide Start, Cmp;
    StartPMonotone(b, c, c + 1);
  }

  /** Flagging one more sorted bucket. */
  lemma MarkedFlag(ftab: seq<nat>, b: seq<byte>, p: seq<nat>, p': seq<nat>, c: nat)
    requires Entries(p, |b|) && Entries(p', |b|) && Marked(ftab, b, p) && c < 65536 && BucketSorted(b, p', c)
    requires forall d: nat :: d != c && BucketSorted(b, p, d) ==> BucketSorted(b, p', d)
    ensures Marked(ftab[c := Flag(ftab[c])], b, p')
  {
    FlagUnflag(ftab[c]);
    hide Flag, Unflag, Flagged, BucketSorted, Start;
  }

  lemma ByPairEntries(b: seq<byte>, p: seq<nat>)
    requires ByPair(b, p)
    ensures Entries(p, |b|) && |p| == |b| && Perm(p, |b|)
  {
  }

  lemma MarkedAt(ftab: seq<nat>, b: seq<byte>, p: seq<nat>, c: nat)
    requires Entries(p, |b|) && Marked(ftab, b, p) && c < FTAB_SIZE
    ensures |ftab| == FTAB_SIZE && Unflag(ftab[c]) == StartP(b, c) <= |b|
    ensures c < 65536 && Flagged(ftab[c]) ==> BucketSorted(b, p, c)
  {
    StartPMonotone(b, c, c);
  }

  /** The order, the table of flagged bucket starts, the budget, and whether it ran out. */
  datatype Progress = Progress(p: seq<nat>, f: seq<nat>, budget: int, stopped: bool)

  ghost function SmallDone(p: seq<nat>, f: seq<nat>, b: seq<byte>, q: seq<nat>, sb: nat, budget: int): (r: Progress)
  {
    var g := Put(f, sb, Flag(At(f, sb)));
    if Flagged(At(f, sb)) || StartP(b, sb + 1) - 1 <= StartP(b, sb) then Progress(p, g, budget, false)
    else
      var t := MainQSort.QSorted(p, b, q, StartP(b, sb), StartP(b, sb + 1) - 1, N_RADIX, budget);
      if t.budget < 0 then Progress(t.p, f, t.budget, true) else Progress(t.p, g, t.budget, false)
  }

  /** The small buckets of [ss] from number `j` on. */
  ghost function RowDone(p: seq<nat>, f: seq<nat>, b: seq<byte>, q: seq<nat>, ss: nat, j: nat, budget: int)
    : (r: Progress)
    decreases 256 - j
  {
    if j >= 256 then Progress(p, f, budget, false)
    else if j == ss then RowDone(p, f, b, q, ss, j + 1, budget)
    else
      var t := SmallDone(p, f, b, q, 256 * ss + j, budget);
      if t.stopped then t else RowDone(t.p, t.f, b, q, ss, j + 1, t.budget)
  }

  lemma SmallDoneIs(p: seq<nat>, f: seq<nat>, b: seq<byte>, q: seq<nat>, sb: nat, budget: int)
    requires sb < |f|
    ensures SmallDone(p, f, b, q, sb, budget)
            == var g := f[sb := Flag(f[sb])];
               if Flagged(f[sb]) || StartP(b, sb + 1) - 1 <= StartP(b, sb) then Progress(p, g, budget, false)
               else
                 var t := MainQSort.QSorted(p, b, q, StartP(b, sb), StartP(b, sb + 1) - 1, 2, budget);
                 if t.budget < 0 then Progress(t.p, f, t.budget, true) else Progress(t.p, g, t.budget, false)
  {
    hide MainQSort.QSorted, Flag, Flagged, StartP;
  }

  lemma RowDoneStep(p: seq<nat>, f: seq<nat>, b: seq<byte>, q: seq<nat>, ss: nat, j: nat, budget: int)
    ensures RowDone(p, f, b, q, ss, j, budget)
            == if j >= 256 then Progress(p, f, budget, false)
               else if j == ss then RowDone(p, f, b, q, ss, j + 1, budget)
               else
                 var t := SmallDone(p, f, b, q, 256 * ss + j, budget);
                 if t.stopped then t else RowDone(t.p, t.f, b, q, ss, j + 1, t.budget)
  {
    hide SmallDone;
  }

  /** Sorts the small bucket `sb` unless it is sorted already, and flags it. */
  method SortSmall(ptr: array<nat>, block: array<nat>, quadrant: array<nat>, ftab: array<nat>, nblock: nat, sb: nat,
                   budget0: int, ghost b: seq<byte>, ghost q: seq<nat>) returns (budget: int, stopped: bool)
    requires ptr != block && ptr != quadrant && ptr != ftab && ftab != block && ftab != quadrant
    requires nblock == |b| <= MAX_BLOCK && Tables(block[..], quadrant[..], b, q) && sb < 65536
    requires ftab.Length == FTAB_SIZE && ptr.Length == nblock
    requires ByPair(b, ptr[..]) && Entries(ptr[..], nblock) && Marked(ftab[..], b, ptr[..])
    modifies ptr, ftab
    ensures budget <= budget0 && (stopped ==> budget < 0)
    ensures !stopped ==> ByPair(b, ptr[..]) && Entries(ptr[..], nblock) && Marked(ftab[..], b, ptr[..])
    ensures !stopped ==> ftab[..] == old(ftab[..])[sb := Flag(old(ftab[sb]))]
    ensures Progress(ptr[..], ftab[..], budget, stopped)
            == SmallDone(old(ptr[..]), old(ftab[..]), b, q, sb, budget0)
  {
    hide *;
    Constants();
    ghost var p: seq<nat>, f: seq<nat> := ptr[..], ftab[..];
    SmallDoneIs(p, f, b, q, sb, budget0);
    budget, stopped := budget0, false;
    MarkedAt(f, b, p, sb);
    MarkedAt(f, b, p, sb + 1);
    if !Flagged(ftab[sb]) {
      var lo: int := Unflag(ftab[sb]);
      var hi: int := Unflag(ftab[sb + 1]) - 1;
      if hi > lo {
        BucketAgrees(b, p, sb);
        budget := MainQSort.QSort3(ptr, block, quadrant, nblock, lo, hi, N_RADIX, budget, b, q);
        BucketRearranged(b, p, ptr[..], sb);
        if budget < 0 {
          stopped := true;
          return;
        }
        SortedBucket(b, ptr[..], sb);
      } else {
        SmallBucket(b, p, sb);
      }
    }
    MarkedFlag(f, b, p, ptr[..], sb);
    ftab[sb] := Flag(ftab[sb]);
    assert ftab[..] == f[sb := Flag(f[sb])];
  }

  /** No flag is lost. */
  ghost predicate Grown(f: seq<nat>, f': seq<nat>)
  {
    |f| == |f'| == FTAB_SIZE && forall c :: 0 <= c < FTAB_SIZE && Flagged(f[c]) ==> Flagged(f'[c])
  }

  lemma GrownFlag(f0: seq<nat>, f: seq<nat>, c: nat)
    requires Grown(f0, f) && c < FTAB_SIZE
    ensures Grown(f0, f[c := Flag(f[c])])
  {
    FlagUnflag(f[c]);
    hide Flag, Flagged;
  }

  lemma GrownFinished(f: seq<nat>, f': seq<nat>, done: seq<bool>)
    requires Grown(f, f') && Finished(f, done)
    ensures Finished(f', done)
  {
    hide Flagged;
    forall s, c | 0 <= s < 256 && 0 <= c < 256 && (done[s] || done[c]) ensures FlaggedPair(f', s, c) {
      assert FlaggedPair(f, s, c);
      assert 0 <= 256 * s + c < FTAB_SIZE;
    }
  }

  /** The buckets [s, c], `c < j`, other than [s, s] are flagged. */
  ghost predicate RowFlagged(f: seq<nat>, s: nat, j: nat)
    requires |f| == FTAB_SIZE && s < 256 && j <= 256
  {
    forall c :: 0 <= c < j && c != s ==> FlaggedPair(f, s, c)
  }

  lemma RowStep(f: seq<nat>, s: nat, j: nat)
    requires |f| == FTAB_SIZE && s < 256 && j < 256 && RowFlagged(f, s, j)
    ensures RowFlagged(f[256 * s + j := Flag(f[256 * s + j])], s, j + 1)
  {
    FlagUnflag(f[256 * s + j]);
    hide Flag, Flagged;
    var f' := f[256 * s + j := Flag(f[256 * s + j])];
    forall c | 0 <= c < j + 1 && c != s ensures FlaggedPair(f', s, c) {
      assert c < j ==> FlaggedPair(f, s, c);
    }
  }

  /** Completes the big bucket [ss] but for [ss, ss]. */
  method CompleteBig(ptr: array<nat>, block: array<nat>, quadrant: array<nat>, ftab: array<nat>, nblock: nat, ss: nat,
                     budget0: int, ghost b: seq<byte>, ghost q: seq<nat>) returns (budget: int, stopped: bool)
    requires ptr != block && ptr != quadrant && ptr != ftab && ftab != block && ftab != quadrant
    requires nblock == |b| <= MAX_BLOCK && Tables(block[..], quadrant[..], b, q) && ss < 256
    requires ftab.Length == FTAB_SIZE && ptr.Length == nblock
    requires ByPair(b, ptr[..]) && Entries(ptr[..], nblock) && Marked(ftab[..], b, ptr[..])
    modifies ptr, ftab
    ensures budget <= budget0 && (stopped ==> budget < 0)
    ensures !stopped ==> ByPair(b, ptr[..]) && Entries(ptr[..], nblock) && Marked(ftab[..], b, ptr[..])
    ensures !stopped ==> Grown(old(ftab[..]), ftab[..]) && RowFlagged(ftab[..], ss, 256)
    ensures Progress(ptr[..], ftab[..], budget, stopped)
            == RowDone(old(ptr[..]), old(ftab[..]), b, q, ss, 0, budget0)
  {
    ghost var f0, blk, qd := ftab[..], block[..], quadrant[..];
    assert Grown(f0, f0) && RowFlagged(f0, ss, 0) && FTAB_SIZE == 65537;
    hide *;
    budget, stopped := budget0, false;
    for j := 0 to 256
      invariant block[..] == blk && quadrant[..] == qd && !stopped && budget <= budget0
      invariant ByPair(b, ptr[..]) && Entries(ptr[..], nblock) && Marked(ftab[..], b, ptr[..])
      invariant Grown(f0, ftab[..]) && RowFlagged(ftab[..], ss, j)
      invariant RowDone(old(ptr[..]), old(ftab[..]), b, q, ss, 0, budget0)
                == RowDone(ptr[..], ftab[..], b, q, ss, j, budget)
    {
      ghost var f: seq<nat> := ftab[..];
      RowDoneStep(ptr[..], f, b, q, ss, j, budget);
      if j != ss {
        var sb := 256 * ss + j;
        budget, stopped := SortSmall(ptr, block, quadrant, ftab, nblock, sb, budget, b, q);
        if stopped {
          return;
        }
        GrownFlag(f0, f, sb);
        RowStep(f, ss, j);
      } else {
        RowSkip(f, ss);
      }
    }
    RowDoneStep(ptr[..], ftab[..], b, q, ss, 256, budget);
  }

  lemma RowSkip(f: seq<nat>, s: nat)
    requires |f| == FTAB_SIZE && s < 256 && RowFlagged(f, s, s)
    ensures RowFlagged(f, s, s + 1)
  {
  }

  // ---------------------------------------------------------------- step 2

  lemma UpFacts(b: seq<byte>, s: nat, done: seq<bool>, p0: seq<nat>, p: seq<nat>, cs: seq<int>, j: int)
    requires Up(b, s, done, p0, p, cs, j)
    ensures |cs| == 256 && |done| == 256 && s < 256 && |p| == |b| && 0 <= j <= cs[s] <= |b|
    ensures j < cs[s] ==> p[j] < |b|
  {
    BigBounds(b, s, s);
    hide OneSide, ByPair, Start;
    assert LowFilled(b, s, p, s, cs[s], j);
  }

  lemma DownFacts(b: seq<byte>, s: nat, done: seq<bool>, p0: seq<nat>, p: seq<nat>, cs: seq<int>, ce: seq<int>, j: int)
    requires Down(b, s, done, p0, p, cs, ce, j)
    ensures |cs| == 256 && |ce| == 256 && |done| == 256 && s < 256 && |p| == |b| && -1 <= ce[s] <= j < |b|
    ensures ce[s] < j ==> p[j] < |b|
  {
    BigBounds(b, s, s);
    hide OneSide, ByPair, Start;
    assert DownBucket(b, s, p, s, cs[s], cs[s], ce[s], j);
  }

  lemma BlockAt(block: seq<nat>, quadrant: seq<nat>, b: seq<byte>, q: seq<nat>, i: nat)
    requires Tables(block, quadrant, b, q) && i < |b|
    ensures |b| < |block| && block[i] == b[i] && |b| > 34
  {
    assert block[i] == b[Wrap(|b|, i)];
  }

  /** The rotation before entry `v`. */
  method Before(v: nat, nblock: nat) returns (k: nat)
    requires v < nblock
    ensures k == Prev(nblock, v)
  {
    var i: int := v - 1;
    if i < 0 {
      i := i + nblock;
    }
    k := i;
  }

  /** An order and the places where the next rotation of each bucket goes. */
  datatype Copying = Copying(p: seq<nat>, cs: seq<int>)

  /** The rotation before entry `v` put where its bucket goes on, unless that bucket is done; `up` is 1 or -1. */
  function PutBefore(p: seq<nat>, cs: seq<int>, b: seq<byte>, done: seq<bool>, v: nat, up: int): (r: Copying)
    requires |cs| == |done| == 256 && v < |b|
    ensures |r.cs| == 256
  {
    var k := Prev(|b|, v);
    var c1 := b[k];
    if done[c1] then Copying(p, cs) else Copying(Put(p, cs[c1], k), cs[c1 := cs[c1] + up])
  }

  function CopiedUp(p: seq<nat>, cs: seq<int>, b: seq<byte>, done: seq<bool>, ss: nat, j: int): (r: Copying)
    requires |cs| == |done| == 256 && ss < 256
    decreases |b| - j
  {
    if j < 0 || j >= |b| || j >= cs[ss] || At(p, j) >= |b| then Copying(p, cs)
    else
      var t := PutBefore(p, cs, b, done, At(p, j), 1);
      CopiedUp(t.p, t.cs, b, done, ss, j + 1)
  }

  function CopiedDown(p: seq<nat>, ce: seq<int>, b: seq<byte>, done: seq<bool>, ss: nat, j: int): (r: Copying)
    requires |ce| == |done| == 256 && ss < 256
    decreases j
  {
    if j < 0 || j >= |b| || j <= ce[ss] || At(p, j) >= |b| then Copying(p, ce)
    else
      var t := PutBefore(p, ce, b, done, At(p, j), -1);
      CopiedDown(t.p, t.cs, b, done, ss, j - 1)
  }

  /** Both scans of the big bucket [ss]. */
  ghost function Copied(p: seq<nat>, b: seq<byte>, done: seq<bool>, ss: nat): (r: seq<nat>)
    requires |done| == 256 && ss < 256
  {
    var up := CopiedUp(p, seq(256, c requires 0 <= c < 256 => From(b, ss, c)), b, done, ss, BigFrom(b, ss));
    CopiedDown(up.p, seq(256, c requires 0 <= c < 256 => To(b, ss, c) - 1), b, done, ss, BigTo(b, ss) - 1).p
  }

  lemma PutBeforeIs(p: seq<nat>, cs: seq<int>, b: seq<byte>, done: seq<bool>, v: nat, up: int)
    requires |cs| == |done| == 256 && v < |b|
    ensures var k := Prev(|b|, v);
            PutBefore(p, cs, b, done, v, up)
            == if done[b[k]] then Copying(p, cs) else Copying(Put(p, cs[b[k]], k), cs[b[k] := cs[b[k]] + up])
  {
    hide Put;
  }

  lemma CopiedUpStep(p: seq<nat>, cs: seq<int>, b: seq<byte>, done: seq<bool>, ss: nat, j: nat)
    requires |cs| == |done| == 256 && ss < 256 && |p| == |b| && j <= cs[ss] <= |b| && (j < cs[ss] ==> p[j] < |b|)
    ensures CopiedUp(p, cs, b, done, ss, j)
            == if j >= cs[ss] then Copying(p, cs)
               else
                 var t := PutBefore(p, cs, b, done, p[j], 1);
                 CopiedUp(t.p, t.cs, b, done, ss, j + 1)
  {
    hide PutBefore;
  }

  lemma CopiedDownStep(p: seq<nat>, ce: seq<int>, b: seq<byte>, done: seq<bool>, ss: nat, j: int)
    requires |ce| == |done| == 256 && ss < 256 && |p| == |b| && -1 <= ce[ss] <= j < |b|
    requires ce[ss] < j ==> p[j] < |b|
    ensures CopiedDown(p, ce, b, done, ss, j)
            == if j <= ce[ss] then Copying(p, ce)
               else
                 var t := PutBefore(p, ce, b, done, p[j], -1);
                 CopiedDown(t.p, t.cs, b, done, ss, j - 1)
  {
    hide PutBefore;
  }

  lemma CopiedIs(p: seq<nat>, b: seq<byte>, done: seq<bool>, ss: nat, cs: seq<int>, ce: seq<int>)
    requires |done| == 256 && ss < 256 && |cs| == |ce| == 256
    requires forall c :: 0 <= c < 256 ==> cs[c] == From(b, ss, c) && ce[c] + 1 == To(b, ss, c)
    ensures Copied(p, b, done, ss)
            == CopiedDown(CopiedUp(p, cs, b, done, ss, BigFrom(b, ss)).p, ce, b, done, ss, BigTo(b, ss) - 1).p
  {
    hide CopiedUp, CopiedDown, From, To, BigFrom, BigTo;
    assert cs == seq(256, c requires 0 <= c < 256 => From(b, ss, c));
    assert ce == seq(256, c requires 0 <= c < 256 => To(b, ss, c) - 1);
  }

  lemma PutIs(p: seq<nat>, i: int, v: nat)
    requires 0 <= i < |p|
    ensures Put(p, i, v) == p[i := v]
  {
  }

  method ScanUp(ptr: array<nat>, block: array<nat>, nblock: nat, ss: nat, bigDone: array<bool>, copyStart: array<int>,
                from: nat, ghost b: seq<byte>, ghost q: seq<nat>, ghost quadrant: seq<nat>, ghost p0: seq<nat>)
    requires ptr != block && nblock == |b| && Tables(block[..], quadrant, b, q)
    requires ss < 256 && from == BigFrom(b, ss) && copyStart.Length == 256
    requires Up(b, ss, bigDone[..], p0, ptr[..], copyStart[..], from)
    modifies ptr, copyStart
    ensures copyStart.Length == 256 && Up(b, ss, bigDone[..], p0, ptr[..], copyStart[..], copyStart[ss])
    ensures |bigDone[..]| == 256
    ensures Copying(ptr[..], copyStart[..])
            == CopiedUp(old(ptr[..]), old(copyStart[..]), b, bigDone[..], ss, from)
  {
    hide *;
    ghost var blk, done := block[..], bigDone[..];
    var j := from;
    UpFacts(b, ss, done, p0, ptr[..], copyStart[..], j);
    while j < copyStart[ss]
      invariant block[..] == blk && bigDone[..] == done && j <= copyStart[ss]
      invariant Up(b, ss, done, p0, ptr[..], copyStart[..], j)
      invariant |done| == 256
      invariant CopiedUp(old(ptr[..]), old(copyStart[..]), b, done, ss, from)
                == CopiedUp(ptr[..], copyStart[..], b, done, ss, j)
      decreases nblock - j
    {
      ghost var p: seq<nat>, cs := ptr[..], copyStart[..];
      UpFacts(b, ss, done, p0, p, cs, j);
      CopiedUpStep(p, cs, b, done, ss, j);
      PutBeforeIs(p, cs, b, done, p[j], 1);
      var k := Before(ptr[j], nblock);
      BlockAt(blk, quadrant, b, q, k);
      var c1 := block[k];
      if !bigDone[c1] {
        UpPlace(b, ss, done, p0, p, cs, j, k, c1);
        UpCursor(b, ss, c1);
        var at := copyStart[c1];
        PutIs(p, at, k);
        ptr[at] := k;
        copyStart[c1] := at + 1;
        assert ptr[..] == p[at := k] && copyStart[..] == cs[c1 := at + 1];
      } else {
        UpSkip(b, ss, done, p0, p, cs, j);
      }
      j := j + 1;
      UpFacts(b, ss, done, p0, ptr[..], copyStart[..], j);
    }
    UpFacts(b, ss, done, p0, ptr[..], copyStart[..], j);
    CopiedUpStep(ptr[..], copyStart[..], b, done, ss, j);
  }

  lemma UpCursor(b: seq<byte>, s: nat, c: nat)
    requires s < 256 && c < 256
    ensures 0 <= From(b, s, c) <= To(b, s, c) <= |b|
  {
    BigBounds(b, s, c);
  }

  method ScanDown(ptr: array<nat>, block: array<nat>, nblock: nat, ss: nat, bigDone: array<bool>,
                  copyEnd: array<int>, to: int, ghost b: seq<byte>, ghost q: seq<nat>, ghost quadrant: seq<nat>,
                  ghost p0: seq<nat>, ghost cs: seq<int>)
    requires ptr != block && nblock == |b| && Tables(block[..], quadrant, b, q)
    requires ss < 256 && to == BigTo(b, ss) && copyEnd.Length == 256
    requires Down(b, ss, bigDone[..], p0, ptr[..], cs, copyEnd[..], to - 1)
    modifies ptr, copyEnd
    ensures copyEnd.Length == 256 && Down(b, ss, bigDone[..], p0, ptr[..], cs, copyEnd[..], copyEnd[ss])
    ensures |bigDone[..]| == 256
    ensures Copying(ptr[..], copyEnd[..])
            == CopiedDown(old(ptr[..]), old(copyEnd[..]), b, bigDone[..], ss, to - 1)
  {
    hide *;
    ghost var blk, done := block[..], bigDone[..];
    var j := to - 1;
    DownFacts(b, ss, done, p0, ptr[..], cs, copyEnd[..], j);
    while j > copyEnd[ss]
      invariant block[..] == blk && bigDone[..] == done && -1 <= copyEnd[ss] <= j
      invariant Down(b, ss, done, p0, ptr[..], cs, copyEnd[..], j)
      invariant |done| == 256
      invariant CopiedDown(old(ptr[..]), old(copyEnd[..]), b, done, ss, to - 1)
                == CopiedDown(ptr[..], copyEnd[..], b, done, ss, j)
      decreases j
    {
      ghost var p: seq<nat>, ce := ptr[..], copyEnd[..];
      DownFacts(b, ss, done, p0, p, cs, ce, j);
      CopiedDownStep(p, ce, b, done, ss, j);
      PutBeforeIs(p, ce, b, done, p[j], -1);
      var k := Before(ptr[j], nblock);
      BlockAt(blk, quadrant, b, q, k);
      var c1 := block[k];
      if !bigDone[c1] {
        DownPlace(b, ss, done, p0, p, cs, ce, j, k, c1);
        UpCursor(b, ss, c1);
        var at := copyEnd[c1];
        PutIs(p, at, k);
        ptr[at] := k;
        copyEnd[c1] := at - 1;
        assert ptr[..] == p[at := k] && copyEnd[..] == ce[c1 := at - 1];
      } else {
        DownSkip(b, ss, done, p0, p, cs, ce, j);
      }
      j := j - 1;
      DownFacts(b, ss, done, p0, ptr[..], cs, copyEnd[..], j);
    }
    DownFacts(b, ss, done, p0, ptr[..], cs, copyEnd[..], j);
    CopiedDownStep(ptr[..], copyEnd[..], b, done, ss, j);
  }

  method Cursors(ftab: array<nat>, ss: nat, copyStart: array<int>, copyEnd: array<int>,
                 ghost b: seq<byte>, ghost p: seq<nat>)
    requires ftab.Length == FTAB_SIZE && ss < 256 && copyStart.Length == copyEnd.Length == 256 && copyStart != copyEnd
    requires Entries(p, |b|) && Marked(ftab[..], b, p)
    modifies copyStart, copyEnd
    ensures forall c :: 0 <= c < 256 ==> copyStart[c] == From(b, ss, c)
    ensures forall c :: 0 <= c < 256 ==> copyEnd[c] + 1 == To(b, ss, c)
  {
    hide Start, Flagged, Unflag, BucketSorted;
    for j := 0 to 256
      invariant forall c :: 0 <= c < j ==> copyStart[c] == From(b, ss, c)
      invariant forall c :: 0 <= c < j ==> copyEnd[c] + 1 == To(b, ss, c)
    {
      copyStart[j] := Unflag(ftab[256 * j + ss]);
      copyEnd[j] := Unflag(ftab[256 * j + ss + 1]) - 1;
    }
  }

  lemma RowSorted(f: seq<nat>, b: seq<byte>, p: seq<nat>, s: nat)
    requires Entries(p, |b|) && Marked(f, b, p) && s < 256 && RowFlagged(f, s, 256)
    ensures forall c :: 0 <= c < 256 && c != s ==> SmallSorted(b, p, s, c)
  {
    hide Start, Flagged, Unflag, BucketSorted;
    forall c | 0 <= c < 256 && c != s ensures SmallSorted(b, p, s, c) {
      assert FlaggedPair(f, s, c);
    }
  }

  /** Both scans of the big bucket [ss]. */
  method Scan(ptr: array<nat>, block: array<nat>, ftab: array<nat>, nblock: nat, ss: nat, bigDone: array<bool>,
              ghost b: seq<byte>, ghost q: seq<nat>, ghost quadrant: seq<nat>)
    requires ptr != block && ptr != ftab && nblock == |b| >= 2 && Tables(block[..], quadrant, b, q)
    requires ss < 256 && ftab.Length == FTAB_SIZE && ptr.Length == nblock && bigDone.Length == 256 && !bigDone[ss]
    requires ByPair(b, ptr[..]) && Entries(ptr[..], nblock) && Marked(ftab[..], b, ptr[..])
    requires RowFlagged(ftab[..], ss, 256)
    modifies ptr
    ensures Synthesised(b, ss, bigDone[..], old(ptr[..]), ptr[..])
    ensures ptr[..] == Copied(old(ptr[..]), b, bigDone[..], ss)
  {
    hide *;
    Constants();
    ghost var p0: seq<nat>, f: seq<nat>, done := ptr[..], ftab[..], bigDone[..];
    var copyStart, copyEnd := new int[256], new int[256];
    Cursors(ftab, ss, copyStart, copyEnd, b, p0);
    RowSorted(f, b, p0, ss);
    MarkedAt(f, b, p0, 256 * ss);
    MarkedAt(f, b, p0, 256 * (ss + 1));
    BigIs(b, ss);
    CopiedIs(p0, b, done, ss, copyStart[..], copyEnd[..]);
    UpStart(b, ss, done, p0, copyStart[..]);
    ScanUp(ptr, block, nblock, ss, bigDone, copyStart, Unflag(ftab[256 * ss]), b, q, quadrant, p0);
    DownStart(b, ss, done, p0, ptr[..], copyStart[..], copyEnd[..]);
    ScanDown(ptr, block, nblock, ss, bigDone, copyEnd, Unflag(ftab[256 * (ss + 1)]), b, q, quadrant, p0, copyStart[..]);
    if Uneven(b, ss) {
      SynthesisedUneven(b, ss, done, p0, ptr[..], copyStart[..], copyEnd[..]);
    } else {
      SynthesisedFlat(b, ss, done, p0, ptr[..], copyStart[..], copyEnd[..]);
    }
    // assertion 1007
    assert copyStart[ss] - 1 == copyEnd[ss] || (copyStart[ss] == 0 && copyEnd[ss] == nblock - 1);
  }

  lemma BigIs(b: seq<byte>, s: nat)
    ensures BigFrom(b, s) == StartP(b, 256 * s) && BigTo(b, s) == StartP(b, 256 * (s + 1))
  {
  }

  /** The scans leave every sorted bucket sorted. */
  lemma KeepSorted(b: seq<byte>, s: nat, done: seq<bool>, p0: seq<nat>, p: seq<nat>, d: nat)
    requires s < 256 && |done| == 256 && ByPair(b, p0) && Synthesised(b, s, done, p0, p) && d < 65536
    requires BucketSorted(b, p0, d)
    ensures BucketSorted(b, p, d)
  {
    hide Start, Cmp, InBucket, InOrder;
    var a, c := d / 256, d % 256;
    if c == s && !done[a] {
      assert SmallSorted(b, p, a, s);
    } else {
      forall x | StartP(b, d) <= x < StartP(b, d + 1) && x < |p| ensures p[x] == p0[x] {
        BucketHolds(b, p0, d, x);
      }
    }
  }

  lemma MarkedKeep(f: seq<nat>, b: seq<byte>, s: nat, done: seq<bool>, p0: seq<nat>, p: seq<nat>)
    requires s < 256 && |done| == 256 && ByPair(b, p0) && Synthesised(b, s, done, p0, p) && Marked(f, b, p0)
    ensures Marked(f, b, p)
  {
    hide Start, InBucket, InOrder, Unflag, BucketSorted;
    forall c | 0 <= c < 65536 && Flagged(f[c]) ensures BucketSorted(b, p, c) {
      KeepSorted(b, s, done, p0, p, c);
    }
  }

  lemma ColumnSorted(f: seq<nat>, b: seq<byte>, s: nat, done: seq<bool>, p0: seq<nat>, p: seq<nat>, c: nat)
    requires s < 256 && ByPair(b, p0) && |f| == FTAB_SIZE && Finished(f, done)
    requires Synthesised(b, s, done, p0, p) && Marked(f, b, p) && c < 256
    ensures BucketSorted(b, p, 256 * c + s)
  {
    hide Start, InBucket, InOrder, Unflag, Flagged, BucketSorted;
    if done[c] {
      assert FlaggedPair(f, c, s);
    } else {
      assert SmallSorted(b, p, c, s);
    }
  }

  ghost predicate ColumnFlagged(f: seq<nat>, s: nat, j: nat)
    requires |f| == FTAB_SIZE && s < 256 && j <= 256
  {
    forall c :: 0 <= c < j ==> FlaggedPair(f, c, s)
  }

  lemma ColumnStep(f: seq<nat>, s: nat, j: nat)
    requires |f| == FTAB_SIZE && s < 256 && j < 256 && ColumnFlagged(f, s, j)
    ensures ColumnFlagged(f[256 * j + s := Flag(f[256 * j + s])], s, j + 1)
  {
    FlagUnflag(f[256 * j + s]);
    hide Flag, Flagged;
    var f' := f[256 * j + s := Flag(f[256 * j + s])];
    forall c | 0 <= c < j + 1 ensures FlaggedPair(f', c, s) {
      assert c < j ==> FlaggedPair(f, c, s);
    }
  }

  /** The table with the buckets [c, ss] from `c = j` on flagged. */
  function ColumnSet(f: seq<nat>, ss: nat, j: nat): (g: seq<nat>)
    decreases 256 - j
  {
    if j >= 256 then f else ColumnSet(Put(f, 256 * j + ss, Flag(At(f, 256 * j + ss))), ss, j + 1)
  }

  lemma ColumnSetStep(f: seq<nat>, ss: nat, j: nat)
    requires |f| == FTAB_SIZE && ss < 256
    ensures ColumnSet(f, ss, j)
            == if j >= 256 then f else ColumnSet(f[256 * j + ss := Flag(f[256 * j + ss])], ss, j + 1)
  {
    hide Flag;
  }

  /** Flags the buckets [c, ss], all sorted now. */
  method FlagColumn(ftab: array<nat>, ss: nat, ghost b: seq<byte>, ghost p: seq<nat>)
    requires ftab.Length == FTAB_SIZE && ss < 256 && Entries(p, |b|) && Marked(ftab[..], b, p)
    requires forall c :: 0 <= c < 256 ==> SmallSorted(b, p, c, ss)
    modifies ftab
    ensures Marked(ftab[..], b, p) && Grown(old(ftab[..]), ftab[..]) && ColumnFlagged(ftab[..], ss, 256)
    ensures ftab[..] == ColumnSet(old(ftab[..]), ss, 0)
  {
    ghost var f0 := ftab[..];
    assert Grown(f0, f0) && FTAB_SIZE == 65537;
    hide ColumnSet, Grown, Marked, Flag, Flagged, FlaggedPair, BucketSorted;
    for j := 0 to 256
      invariant ColumnSet(f0, ss, 0) == ColumnSet(ftab[..], ss, j)
      invariant Marked(ftab[..], b, p) && Grown(f0, ftab[..]) && ColumnFlagged(ftab[..], ss, j)
    {
      ghost var f: seq<nat> := ftab[..];
      var c := 256 * j + ss;
      assert SmallSorted(b, p, j, ss);
      MarkedFlag(f, b, p, p, c);
      GrownFlag(f0, f, c);
      ColumnStep(f, ss, j);
      ColumnSetStep(f, ss, j);
      ftab[c] := Flag(ftab[c]);
      assert ftab[..] == f[c := Flag(f[c])];
    }
    ColumnSetStep(ftab[..], ss, 256);
  }

  lemma FinishedNow(f0: seq<nat>, f: seq<nat>, f': seq<nat>, done: seq<bool>, s: nat)
    requires s < 256 && Grown(f0, f) && Grown(f, f') && Finished(f0, done)
    requires RowFlagged(f, s, 256) && ColumnFlagged(f', s, 256)
    ensures Finished(f', done[s := true])
  {
    hide Flagged;
    GrownFinished(f0, f, done);
    GrownFinished(f, f', done);
    forall a, c | 0 <= a < 256 && 0 <= c < 256 && (a == s || c == s) ensures FlaggedPair(f', a, c) {
      if c != s {
        assert FlaggedPair(f, s, c);
        assert 0 <= 256 * s + c < FTAB_SIZE;
      }
    }
  }

  // ---------------------------------------------------------------- step 3

  /** The rotations of the big bucket from position `from + j` on have their quadrants. */
  ghost predicate Stamped(b: seq<byte>, s: nat, p: seq<nat>, q0: seq<nat>, q: seq<nat>, from: int, to: int, j: int,
                          d: nat)
  {
    && |q| == |q0| == |b| == |p| && Entries(p, |b|) && 0 <= from && to <= |b| && 0 <= j && d >= 1
    && (forall y :: from <= y < to ==> q[p[y]] == if y - from >= j then (y - from) / d else 0)
    && (forall i :: 0 <= i < |b| && b[i] != s ==> q[i] == q0[i])
  }

  lemma StampStep(b: seq<byte>, s: nat, p: seq<nat>, q0: seq<nat>, q: seq<nat>, from: int, to: int, j: int, d: nat)
    requires Stamped(b, s, p, q0, q, from, to, j + 1, d) && 0 <= j < to - from && ByPair(b, p) && s < 256
    requires from == BigFrom(b, s) && to == BigTo(b, s)
    ensures Stamped(b, s, p, q0, q[p[from + j] := j / d], from, to, j, d)
  {
    hide InBucket, Start;
    var a := p[from + j];
    BigHolds(b, p, s, from + j);
    forall y | from <= y < to && y != from + j ensures p[y] != a {
    }
  }

  lemma StampStart(b: seq<byte>, s: nat, p: seq<nat>, q: seq<nat>, done: seq<bool>, d: nat)
    requires |q| == |b| && |done| == 256 && s < 256 && !done[s] && Blank(b, q, done) && ByPair(b, p) && d >= 1
    ensures Stamped(b, s, p, q, q, BigFrom(b, s), BigTo(b, s), BigTo(b, s) - BigFrom(b, s), d)
  {
    hide InBucket, Start;
    BigBounds(b, s, s);
    forall y | BigFrom(b, s) <= y < BigTo(b, s) ensures q[p[y]] == 0 {
      BigHolds(b, p, s, y);
    }
  }

  /** The quadrant invariant holds throughout, read weakly. */
  lemma StampedOk(b: seq<byte>, s: nat, p: seq<nat>, q0: seq<nat>, q: seq<nat>, from: int, to: int, j: int, d: nat)
    requires Stamped(b, s, p, q0, q, from, to, j, d) && ByPair(b, p) && s < 256
    requires from == BigFrom(b, s) && to == BigTo(b, s) && InOrder(b, p, from, to - 1) && QuadrantsOk(b, q0)
    ensures QuadrantsOk(b, q)
  {
    hide InBucket, Start, Cmp;
    forall u, v | 0 <= u < |b| && 0 <= v < |b| && b[u] == b[v] && q[u] < q[v] ensures Le(b, u, v) {
      if b[u] == s {
        var x := PositionOf(b, p, u);
        var y := PositionOf(b, p, v);
        BigHolds(b, p, s, x);
        BigHolds(b, p, s, y);
        if y < x {
          DivMonotone(y - from, x - from, d);
        }
      } else {
        assert Le(b, u, v);
      }
    }
  }

  /** The rotations of the big bucket [s], as they stand in `p`. */
  ghost function BigBucket(b: seq<byte>, p: seq<nat>, s: nat): (g: seq<nat>)
    requires s < 256 && |p| == |b|
  {
    BigBounds(b, s, s);
    p[BigFrom(b, s)..BigTo(b, s)]
  }

  lemma BigIsBucket(b: seq<byte>, p: seq<nat>, s: nat)
    requires ByPair(b, p) && s < 256 && Entries(p, |b|) && InOrder(b, p, BigFrom(b, s), BigTo(b, s) - 1)
    ensures Bucket(b, s, BigBucket(b, p, s))
  {
    hide InBucket, Start, Le;
    BigBounds(b, s, s);
    var g, from := BigBucket(b, p, s), BigFrom(b, s);
    forall x | 0 <= x < |g| ensures g[x] < |b| && b[g[x]] == s {
      BigHolds(b, p, s, from + x);
    }
    forall v: nat | v < |b| && b[v] == s ensures v in g {
      var x := PositionOf(b, p, v);
      BigHolds(b, p, s, x);
      assert g[x - from] == v;
    }
  }

  /** In how few bits the positions of the big bucket [s] are kept, as a divisor. */
  ghost function Cut(b: seq<byte>, s: nat): (d: nat)
    requires s < 256
  {
    BigBounds(b, s, s);
    Pow2(Shifts(BigTo(b, s) - BigFrom(b, s), 0))
  }

  /** The quadrants of [s] are strict if and only if `s` is absent or the repetition divides the cut. */
  ghost predicate StrictIff(b: seq<byte>, q: seq<nat>, s: nat)
    requires |q| == |b| > 0 && s < 256
  {
    ClassSize(b, 0);
    StrictOn(b, q, s) <==> s !in b || Cut(b, s) % Repeats(b) == 0
  }

  /**
   When the rotations of a big bucket are all described, a smaller quadrant means a smaller
   rotation if and only if the number of equal rotations divides the cut.
   */
  lemma StampedStrict(b: seq<byte>, s: nat, p: seq<nat>, q0: seq<nat>, q: seq<nat>)
    requires s < 256 && ByPair(b, p) && |b| > 0
    requires Stamped(b, s, p, q0, q, BigFrom(b, s), BigTo(b, s), 0, Cut(b, s))
    requires InOrder(b, p, BigFrom(b, s), BigTo(b, s) - 1)
    ensures StrictIff(b, q, s)
  {
    hide InBucket, Start, InOrder, Repeats, StrictOn, Bucket, Shifts;
    BigBounds(b, s, s);
    BigIsBucket(b, p, s);
    PositionsStrict(b, s, BigBucket(b, p, s), q, Cut(b, s));
  }

  /** Every described bucket is strict exactly then, and every other trivially. */
  ghost predicate Described(b: seq<byte>, q: seq<nat>, done: seq<bool>)
  {
    && |q| == |b| > 0 && |done| == 256
    && forall s :: 0 <= s < 256 ==> if done[s] then StrictIff(b, q, s) else StrictOn(b, q, s)
  }

  lemma BlankDescribed(b: seq<byte>, done: seq<bool>)
    requires |b| > 0 && |done| == 256 && forall s :: 0 <= s < 256 ==> !done[s]
    ensures Described(b, ZeroQuadrants(|b|), done)
  {
  }

  /** For an aperiodic block the strict reading holds throughout, with buckets of any size. */
  lemma AperiodicStrict(b: seq<byte>, q: seq<nat>)
    requires |q| == |b| && QuadrantsOk(b, q) && Aperiodic(b)
    ensures QuadrantsStrict(b, q)
  {
    hide Cmp;
    forall i, j | 0 <= i < |b| && 0 <= j < |b| && b[i] == b[j] && q[i] < q[j] ensures Cmp(b, i, j, |b|) < 0 {
      assert Le(b, i, j) && !Equal(b, if i < j then i else j, if i < j then j else i);
      CmpAntisym(b, i, j, |b|);
    }
  }

  /** The quadrants are strict if and only if they are on each described bucket. */
  lemma DescribedStrict(b: seq<byte>, q: seq<nat>, done: seq<bool>)
    requires Described(b, q, done)
    ensures Repeats(b) >= 1
    ensures QuadrantsStrict(b, q) <==>
            forall s :: 0 <= s < 256 && done[s] && s in b ==> Cut(b, s) % Repeats(b) == 0
  {
    hide Repeats, Cut, StrictOn, QuadrantsStrict;
    ClassSize(b, 0);
    StrictEverywhere(b, q);
    forall s | 0 <= s < 256 ensures StrictOn(b, q, s) <==> (done[s] && s in b ==> Cut(b, s) % Repeats(b) == 0) {
    }
  }

  /** Without a shift a described bucket is strict if and only if no two of its rotations are equal. */
  lemma UnshiftedStrict(b: seq<byte>, q: seq<nat>, done: seq<bool>, s: nat)
    requires Described(b, q, done) && s < 256 && done[s] && BigTo(b, s) - BigFrom(b, s) <= 65534
    ensures StrictOn(b, q, s) <==> forall i, j :: 0 <= i < j < |b| && b[i] == b[j] == s ==> !Equal(b, i, j)
  {
    hide Repeats, StrictOn, Equal, Start;
    BigBounds(b, s, s);
    ClassSize(b, 0);
    SymbolApart(b, s);
    assert Cut(b, s) == 1;
    assert StrictIff(b, q, s);
  }

  // The strict reading fails for the block "ab", twenty times over.

  function Abab(): (b: seq<byte>)
    ensures |b| == 40
  {
    seq(40, (i: nat) => 97 + i % 2)
  }

  lemma {:induction false} AbabEqual(i: nat, j: nat, h: nat)
    requires i < 40 && j < 40 && i % 2 == j % 2
    ensures Cmp(Abab(), i, j, h) == 0
    decreases h
  {
    if h > 0 {
      AbabEqual(Next(40, i), Next(40, j), h - 1);
    }
  }

  /** Its rotations that start with "a", in order. */
  function Evens(): (g: seq<nat>)
  {
    seq(20, (x: nat) => 2 * x)
  }

  lemma EvensBucket()
    ensures Bucket(Abab(), 97, Evens())
  {
    var b, g := Abab(), Evens();
    hide Cmp;
    forall x, y | 0 <= x < y < |g| ensures g[x] != g[y] && Le(b, g[x], g[y]) {
      AbabEqual(g[x], g[y], 40);
    }
    forall v: nat | v < |b| && b[v] == 97 ensures v in g {
      assert g[v / 2] == v;
    }
  }

  /** Those rotations numbered as they stand: 0 is before 2, and equal to it. */
  lemma StrictFails(q: seq<nat>)
    requires q == seq(40, (i: nat) => if i % 2 == 0 then i / 2 else 0)
    ensures Bucket(Abab(), 97, Evens()) && forall x :: 0 <= x < |Evens()| ==> q[Evens()[x]] == x
    ensures QuadrantsOk(Abab(), q) && !QuadrantsStrict(Abab(), q)
    ensures Abab()[0] == Abab()[2] && Equal(Abab(), 0, 2) && q[0] < q[2]
  {
    var b := Abab();
    EvensBucket();
    AbabEqual(0, 2, 40);
    hide Bucket, Cmp;
    forall i, j | 0 <= i < |b| && 0 <= j < |b| && b[i] == b[j] && q[i] < q[j] ensures Le(b, i, j) {
      AbabEqual(i, j, 40);
    }
    assert Cmp(b, 0, 2, |b|) == 0;
  }

  /** Nor is it saved by the order taken: once that bucket is described the strict reading fails. */
  lemma StrictAlwaysFails(q: seq<nat>, done: seq<bool>)
    requires Described(Abab(), q, done) && done[97]
    ensures !StrictOn(Abab(), q, 97)
  {
    var b := Abab();
    AbabEqual(0, 2, 40);
    hide StrictOn, Start, Abab;
    BigBounds(b, 97, 97);
    UnshiftedStrict(b, q, done, 97);
    assert b[0] == b[2] == 97 by {
      AbabFirst();
    }
    assert Equal(b, 0, 2);
  }

  lemma AbabFirst()
    ensures Abab()[0] == Abab()[2] == 97
  {
  }

  lemma StampedDescribed(b: seq<byte>, s: nat, p: seq<nat>, q0: seq<nat>, q: seq<nat>, done: seq<bool>)
    requires s < 256 && ByPair(b, p) && Described(b, q0, done)
    requires Stamped(b, s, p, q0, q, BigFrom(b, s), BigTo(b, s), 0, Cut(b, s))
    requires InOrder(b, p, BigFrom(b, s), BigTo(b, s) - 1)
    ensures Described(b, q, done[s := true])
  {
    StampedStrict(b, s, p, q0, q);
    hide Start, Repeats, Class, Cmp, InOrder, ByPair, Cut;
    forall c | 0 <= c < 256 && c != s ensures StrictOn(b, q, c) <==> StrictOn(b, q0, c) {
    }
  }

  lemma StampedBlank(b: seq<byte>, s: nat, p: seq<nat>, q0: seq<nat>, q: seq<nat>, from: int, to: int, j: int, d: nat,
                     done: seq<bool>)
    requires Stamped(b, s, p, q0, q, from, to, j, d) && |done| == 256 && s < 256 && Blank(b, q0, done)
    ensures Blank(b, q, done[s := true])
  {
    hide Entries;
  }

  /** Setting the quadrant of a rotation also sets its copy in the overshoot area. */
  lemma OvershotSet(arr: seq<nat>, q: seq<nat>, a: nat, v: nat)
    requires Overshot(arr, q) && a < |q|
    ensures Overshot(if a < OVERSHOOT then arr[a := v][a + |q| := v] else arr[a := v], q[a := v])
  {
  }

  /** By how many bits positions in a bucket of `size` entries are shifted, for 16 bits to do. */
  function Shifts(size: nat, from: nat): (k: nat)
    ensures k >= from && size / Pow2(k) <= 65534 && (k > from ==> Pow2(k) < size)
    decreases size / Pow2(from)
  {
    if size / Pow2(from) <= 65534 then from
    else
      HalfAgain(size, from);
      ShiftedLess(size, from);
      Shifts(size, from + 1)
  }

  lemma ShiftedLess(size: nat, k: nat)
    requires size / Pow2(k) > 65534
    ensures Pow2(k + 1) < size
  {
    DivMod(size, Pow2(k));
    MulGap(2, size / Pow2(k), Pow2(k));
  }

  method Shift(bbSize: nat) returns (shifts: nat)
    ensures shifts == Shifts(bbSize, 0)
  {
    hide Pow2;
    shifts := 0;
    while bbSize / Pow2(shifts) > 65534
      invariant Shifts(bbSize, 0) == Shifts(bbSize, shifts)
      decreases bbSize / Pow2(shifts)
    {
      HalfAgain(bbSize, shifts);
      shifts := shifts + 1;
    }
  }

  lemma ShiftsFit(size: nat)
    ensures size / Pow2(Shifts(size, 0)) <= 65534
  {
  }

  method SetQuadrant(quadrant: array<nat>, nblock: nat, a: nat, v: nat)
    requires a < nblock && nblock + OVERSHOOT <= quadrant.Length
    modifies quadrant
    ensures quadrant[..] == if a < OVERSHOOT then old(quadrant[..])[a := v][a + nblock := v]
              else old(quadrant[..])[a := v]
  {
    ghost var was: seq<nat> := quadrant[..];
    quadrant[a] := v;
    if a < OVERSHOOT {
      quadrant[a + nblock] := v;
    }
    assert quadrant[..] == if a < OVERSHOOT then was[a := v][a + nblock := v] else was[a := v];
  }

  /** The quadrants when those of the big bucket [ss] are set from the order `p`. */
  ghost function Stamps(b: seq<byte>, p: seq<nat>, q0: seq<nat>, ss: nat): (q: seq<nat>)
    requires ss < 256
  {
    seq(|b|, i requires 0 <= i < |b| => if b[i] == ss then PlaceIn(b, p, ss, i) else At(q0, i))
  }

  ghost function PlaceIn(b: seq<byte>, p: seq<nat>, ss: nat, i: nat): (v: nat)
    requires ss < 256
  {
    Quotient(IndexOf(p, i) - BigFrom(b, ss), Cut(b, ss))
  }

  function Quotient(j: int, d: nat): (v: nat)
  {
    if j < 0 || d == 0 then 0 else j / d
  }

  lemma StampsAre(b: seq<byte>, ss: nat, p: seq<nat>, q0: seq<nat>, q: seq<nat>)
    requires ss < 256 && ByPair(b, p)
    requires Stamped(b, ss, p, q0, q, BigFrom(b, ss), BigTo(b, ss), 0, Cut(b, ss))
    ensures q == Stamps(b, p, q0, ss)
  {
    hide Start, InBucket, Cut;
    forall i | 0 <= i < |b| && b[i] == ss ensures q[i] == PlaceIn(b, p, ss, i) {
      var x := PositionOf(b, p, i);
      BigHolds(b, p, ss, x);
    }
  }

  /** Gives the rotations of the big bucket [ss] quadrants in their order. */
  method Describe(ptr: array<nat>, quadrant: array<nat>, nblock: nat, ss: nat, bbStart: nat, bbEnd: nat,
                  ghost b: seq<byte>, ghost q0: seq<nat>, ghost done: seq<bool>, ghost block: seq<nat>)
    returns (ghost q: seq<nat>)
    requires ptr != quadrant && nblock == |b| <= MAX_BLOCK && ptr.Length == nblock && ss < 256 && |done| == 256
    requires !done[ss]
    requires Tables(block, quadrant[..], b, q0) && Blank(b, q0, done)
    requires ByPair(b, ptr[..]) && bbStart == BigFrom(b, ss) <= bbEnd == BigTo(b, ss) <= nblock
    requires InOrder(b, ptr[..], bbStart, bbEnd - 1) && Described(b, q0, done)
    modifies quadrant
    ensures Tables(block, quadrant[..], b, q) && Blank(b, q, done[ss := true])
    ensures Described(b, q, done[ss := true])
    ensures q == Stamps(b, ptr[..], q0, ss)
  {
    hide *;
    Constants();
    ghost var p: seq<nat> := ptr[..];
    ByPairEntries(b, p);
    var bbSize := bbEnd - bbStart;
    var shifts := Shift(bbSize);
    ShiftsFit(bbSize);
    TablesSize(block, quadrant[..], b, q0);
    StampStart(b, ss, p, q0, done, Pow2(shifts));
    q := q0;
    var j: int := bbSize - 1;
    while j >= 0
      invariant -1 <= j < bbSize && ptr[..] == p
      invariant Tables(block, quadrant[..], b, q)
      invariant Stamped(b, ss, p, q0, q, bbStart, bbEnd, j + 1, Pow2(shifts))
    {
      ghost var was: seq<nat> := quadrant[..];
      var a2update := ptr[bbStart + j];
      EntryAt(p, nblock, bbStart + j);
      DivMonotone(j, bbSize, Pow2(shifts));
      var qVal := j / Pow2(shifts) % 65536;
      TablesSize(block, was, b, q);
      StampStep(b, ss, p, q0, q, bbStart, bbEnd, j, Pow2(shifts));
      SetQuadrant(quadrant, nblock, a2update, qVal);
      ghost var qs := q;
      q := q[a2update := qVal];
      StampedOk(b, ss, p, q0, q, bbStart, bbEnd, j, Pow2(shifts));
      TablesStamped(block, was, b, q0, qs, q, a2update, qVal);
      j := j - 1;
    }
    // assertion 1002
    assert bbSize > 0 ==> (bbSize - 1) / Pow2(shifts) <= 65535 by {
      if bbSize > 0 {
        DivMonotone(bbSize - 1, bbSize, Pow2(shifts));
      }
    }
    StampedBlank(b, ss, p, q0, q, bbStart, bbEnd, 0, Pow2(shifts), done);
    CutIs(b, ss, shifts);
    StampedDescribed(b, ss, p, q0, q, done);
    StampsAre(b, ss, p, q0, q);
  }

  lemma CutIs(b: seq<byte>, s: nat, k: nat)
    requires s < 256 && BigFrom(b, s) <= BigTo(b, s) && k == Shifts(BigTo(b, s) - BigFrom(b, s), 0)
    ensures Cut(b, s) == Pow2(k)
  {
  }

  lemma TablesSize(block: seq<nat>, quadrant: seq<nat>, b: seq<byte>, q: seq<nat>)
    requires Tables(block, quadrant, b, q)
    ensures |q| == |b| && |quadrant| >= |b| + 34 && |block| >= |b| + 34 && |b| > 34 && QuadrantsOk(b, q)
  {
    hide QuadrantsOk, Wrap;
  }

  lemma TablesStamped(block: seq<nat>, quadrant: seq<nat>, b: seq<byte>, q0: seq<nat>, q: seq<nat>, q': seq<nat>,
                      a: nat, v: nat)
    requires Tables(block, quadrant, b, q) && a < |b| && |b| > 34 && |q| == |b| && |quadrant| >= |b| + 34
    requires q' == q[a := v] && QuadrantsOk(b, q')
    ensures Tables(block, if a < 34 then quadrant[a := v][a + |b| := v] else quadrant[a := v], b, q')
  {
    hide QuadrantsOk, Le;
    OvershotSet(quadrant, q, a, v);
  }

  lemma EntryAt(p: seq<nat>, n: nat, x: nat)
    requires Entries(p, n) && x < |p|
    ensures p[x] < n
  {
  }

  lemma HalfAgain(w: nat, k: nat)
    requires w / Pow2(k) > 0
    ensures w / Pow2(k + 1) < w / Pow2(k)
  {
    DivPow2Step(w, k);
  }

  // ---------------------------------------------------------------- the whole sort

  /** Everything that holds when the `i`-th big bucket is taken up. */
  ghost predicate Sorting(ftab: seq<nat>, b: seq<byte>, q: seq<nat>, p: seq<nat>, order: seq<nat>, done: seq<bool>,
                          i: nat)
  {
    && ByPair(b, p) && Entries(p, |b|) && Marked(ftab, b, p) && Finished(ftab, done)
    && |q| == |b| && Blank(b, q, done)
    && Order(order) && i <= 256 && |done| == 256 && (forall x :: 0 <= x < 256 ==> (done[order[x]] <==> x < i))
  }

  lemma SortingStart(ftab: seq<nat>, b: seq<byte>, p: seq<nat>, order: seq<nat>, done: seq<bool>)
    requires ByPair(b, p) && |ftab| == FTAB_SIZE && forall c :: 0 <= c < FTAB_SIZE ==> ftab[c] == StartP(b, c)
    requires Order(order) && |b| <= MAX_BLOCK && |done| == 256 && forall s :: 0 <= s < 256 ==> !done[s]
    ensures Sorting(ftab, b, ZeroQuadrants(|b|), p, order, done, 0)
  {
    hide Start, InBucket;
    ByPairEntries(b, p);
    forall c | 0 <= c < FTAB_SIZE ensures Unflag(ftab[c]) == StartP(b, c) && !Flagged(ftab[c]) {
      StartPMonotone(b, c, c);
      FlagUnflag(ftab[c]);
    }
  }

  /** Assertion 1006: the next symbol is not finished. */
  lemma SortingNext(ftab: seq<nat>, b: seq<byte>, q: seq<nat>, p: seq<nat>, order: seq<nat>, done: seq<bool>, i: nat)
    requires Sorting(ftab, b, q, p, order, done, i) && i < 256
    ensures |order| == 256 && |done| == 256 && |ftab| == FTAB_SIZE && |p| == |b| && order[i] < 256 && !done[order[i]]
    ensures ByPair(b, p) && Entries(p, |b|) && Marked(ftab, b, p) && Finished(ftab, done) && |q| == |b|
    ensures Blank(b, q, done)
  {
    hide Flagged, Unflag, BucketSorted, Finished, Blank;
  }

  lemma SortingStep(f0: seq<nat>, f: seq<nat>, b: seq<byte>, q: seq<nat>, p: seq<nat>, q': seq<nat>, p': seq<nat>,
                    order: seq<nat>, done: seq<bool>, i: nat)
    requires Sorting(f0, b, q, p, order, done, i) && i < 256 && |order| == 256 && order[i] < 256 && |done| == 256
    requires ByPair(b, p') && Entries(p', |b|) && Marked(f, b, p') && Finished(f, done[order[i] := true])
    requires |q'| == |b| && Blank(b, q', done[order[i] := true])
    ensures Sorting(f, b, q', p', order, done[order[i] := true], i + 1)
  {
    hide Marked, Finished, Blank, ByPair;
  }

  lemma SortingDone(ftab: seq<nat>, b: seq<byte>, q: seq<nat>, p: seq<nat>, order: seq<nat>, done: seq<bool>)
    requires Sorting(ftab, b, q, p, order, done, 256)
    ensures Sorted(b, p)
  {
    hide Flagged, Unflag, BucketSorted, Blank, InBucket, Start;
    forall s, c | 0 <= s < 256 && 0 <= c < 256 ensures SmallSorted(b, p, s, c) {
      PermOnto(order, 256, s);
      assert FlaggedPair(ftab, s, c);
    }
    AllSorted(b, p);
  }

  // The whole sort as a function of the block and the budget.

  datatype State = State(p: seq<nat>, f: seq<nat>, q: seq<nat>, done: seq<bool>, budget: int, stopped: bool)

  /** One big bucket: steps 1 to 3. */
  ghost function BigDone(s: State, b: seq<byte>, ss: nat, last: bool): (t: State)
    requires |s.done| == 256
    ensures |t.done| == 256
  {
    if ss >= 256 then s
    else
      var row := RowDone(s.p, s.f, b, s.q, ss, 0, s.budget);
      if row.stopped then State(row.p, row.f, s.q, s.done, row.budget, true)
      else
        var p := Copied(row.p, b, s.done, ss);
        State(p, ColumnSet(row.f, ss, 0), if last then s.q else Stamps(b, p, s.q, ss), s.done[ss := true],
              row.budget, false)
  }

  ghost function BigsDone(s: State, b: seq<byte>, order: seq<nat>, i: nat): (r: Run)
    requires |s.done| == 256
    decreases 256 - i
  {
    if i >= 256 then Run(s.p, s.budget)
    else
      var t := BigDone(s, b, At(order, i), i >= 255);
      if t.stopped then Run(t.p, t.budget) else BigsDone(t, b, order, i + 1)
  }

  ghost function AllStarts(b: seq<byte>): (f: seq<nat>)
  {
    seq(FTAB_SIZE, c requires 0 <= c < FTAB_SIZE => StartP(b, c))
  }

  function NoneDone(): (done: seq<bool>)
    ensures |done| == 256
  {
    seq(256, _ => false)
  }

  ghost function MainOrder(b: seq<byte>, budget: int): (r: Run)
  {
    BigsDone(State(PairOrder(b), AllStarts(b), ZeroQuadrants(|b|), NoneDone(), budget, false), b,
             RunningOf(AllStarts(b)), 0)
  }

  lemma BigDoneIs(s: State, b: seq<byte>, ss: nat, last: bool)
    requires |s.done| == 256 && ss < 256
    ensures BigDone(s, b, ss, last)
            == var row := RowDone(s.p, s.f, b, s.q, ss, 0, s.budget);
               if row.stopped then State(row.p, row.f, s.q, s.done, row.budget, true)
               else
                 var p := Copied(row.p, b, s.done, ss);
                 State(p, ColumnSet(row.f, ss, 0), if last then s.q else Stamps(b, p, s.q, ss), s.done[ss := true],
                       row.budget, false)
  {
    hide RowDone, Copied, ColumnSet, Stamps;
  }

  lemma BigsDoneStep(s: State, b: seq<byte>, order: seq<nat>, i: nat)
    requires |s.done| == 256 && |order| == 256
    ensures BigsDone(s, b, order, i)
            == if i >= 256 then Run(s.p, s.budget)
               else
                 var t := BigDone(s, b, order[i], i >= 255);
                 if t.stopped then Run(t.p, t.budget) else BigsDone(t, b, order, i + 1)
  {
    hide BigDone;
  }

  lemma MainOrderIs(b: seq<byte>, budget: int, f: seq<nat>, done: seq<bool>)
    requires |f| == FTAB_SIZE && forall c :: 0 <= c < FTAB_SIZE ==> f[c] == StartP(b, c)
    requires |done| == 256 && forall s :: 0 <= s < 256 ==> !done[s]
    ensures MainOrder(b, budget)
            == BigsDone(State(PairOrder(b), f, ZeroQuadrants(|b|), done, budget, false), b, RunningOf(f), 0)
  {
    hide BigsDone, PairOrder, RunningOf, StartP, ZeroQuadrants;
    assert f == AllStarts(b) && done == NoneDone();
  }

  /** Everything before the main loop. */
  method Initialise(ptr: array<nat>, block: array<nat>, quadrant: array<nat>, ftab: array<nat>, nblock: nat,
                    order: array<nat>, ghost b: seq<byte>)
    requires ptr != block && ptr != quadrant && ptr != ftab && ftab != block && ftab != quadrant && block != quadrant
    requires order != ptr && order != block && order != quadrant && order != ftab
    requires OVERSHOOT < nblock == |b| == ptr.Length <= MAX_BLOCK && ftab.Length == FTAB_SIZE && order.Length == 256
    requires nblock + OVERSHOOT <= block.Length && nblock + OVERSHOOT <= quadrant.Length && block[..nblock] == b
    modifies ptr, block, quadrant, ftab, order
    ensures block[..nblock] == b && Tables(block[..], quadrant[..], b, ZeroQuadrants(nblock))
    ensures ByPair(b, ptr[..]) && Order(order[..]) && BySize(ftab[..], order[..], 256)
    ensures forall c :: 0 <= c < FTAB_SIZE ==> ftab[c] == StartP(b, c)
    ensures ptr[..] == PairOrder(b) && order[..] == RunningOf(ftab[..])
  {
    hide PairOrder, RunningOf, Occ, Start, Pair, ByPair, Tables, Order, BySize;
    CountPairs(block, quadrant, ftab, nblock, b);
    Overshoot(block, quadrant, nblock, b);
    AccumulatePairs(ftab, Pairs(b));
    Distribute(block, ftab, ptr, nblock, b);
    RunningOrder(order, ftab);
  }

  /** Steps 1 to 3 for one big bucket. */
  method SortBig(ptr: array<nat>, block: array<nat>, quadrant: array<nat>, ftab: array<nat>, nblock: nat, i: nat,
                 order: array<nat>, bigDone: array<bool>, budget0: int, ghost b: seq<byte>, ghost q0: seq<nat>)
    returns (budget: int, stopped: bool, ghost q: seq<nat>)
    requires ptr != block && ptr != quadrant && ptr != ftab && ftab != block && ftab != quadrant && block != quadrant
    requires order != ptr && order != quadrant && order != ftab
    requires nblock == |b| == ptr.Length <= MAX_BLOCK && ftab.Length == FTAB_SIZE && bigDone.Length == 256
    requires Tables(block[..], quadrant[..], b, q0) && i < 256
    requires Sorting(ftab[..], b, q0, ptr[..], order[..], bigDone[..], i) && Described(b, q0, bigDone[..])
    modifies ptr, quadrant, ftab, bigDone
    ensures budget <= budget0 && (stopped ==> budget < 0)
    ensures !stopped ==> Sorting(ftab[..], b, q, ptr[..], order[..], bigDone[..], i + 1)
    ensures !stopped ==> i < 255 ==> Tables(block[..], quadrant[..], b, q) && Described(b, q, bigDone[..])
    ensures i < |order[..]| && |bigDone[..]| == 256
    ensures State(ptr[..], ftab[..], q, bigDone[..], budget, stopped)
            == BigDone(State(old(ptr[..]), old(ftab[..]), q0, old(bigDone[..]), budget0, false), b, order[i], i >= 255)
  {
    hide *;
    Constants();
    q := q0;
    ghost var f0: seq<nat>, p0: seq<nat>, done, o: seq<nat>, blk: seq<nat>, qd: seq<nat> :=
      ftab[..], ptr[..], bigDone[..], order[..], block[..], quadrant[..];
    SortingNext(f0, b, q0, p0, o, done, i);
    TablesSize(blk, qd, b, q0);
    var ss := order[i];
    BigDoneIs(State(p0, f0, q0, done, budget0, false), b, ss, i >= 255);
    budget, stopped := CompleteBig(ptr, block, quadrant, ftab, nblock, ss, budget0, b, q0);
    if stopped {
      return;
    }
    // assertion 1006
    assert !bigDone[ss];
    ghost var f1: seq<nat>, p1: seq<nat> := ftab[..], ptr[..];
    GrownFinished(f0, f1, done);
    Scan(ptr, block, ftab, nblock, ss, bigDone, b, q0, qd);
    ghost var p2: seq<nat> := ptr[..];
    SynthesisedFacts(b, ss, done, p1, p2);
    MarkedKeep(f1, b, ss, done, p1, p2);
    forall c | 0 <= c < 256 ensures SmallSorted(b, p2, c, ss) {
      ColumnSorted(f1, b, ss, done, p1, p2, c);
      SmallIs(b, p2, c, ss);
    }
    FlagColumn(ftab, ss, b, p2);
    ghost var f2: seq<nat> := ftab[..];
    FinishedNow(f0, f1, f2, done, ss);
    bigDone[ss] := true;
    assert bigDone[..] == done[ss := true];
    BlankMore(b, q0, done, ss);
    if i < 255 {
      MarkedAt(f2, b, p2, 256 * ss);
      MarkedAt(f2, b, p2, 256 * (ss + 1));
      BigIs(b, ss);
      UpCursorBig(b, ss);
      q := Describe(ptr, quadrant, nblock, ss, Unflag(ftab[256 * ss]), Unflag(ftab[256 * (ss + 1)]), b, q0, done, blk);
      TablesSize(blk, quadrant[..], b, q);
    }
    SortingStep(f0, f2, b, q0, p0, q, p2, o, done, i);
  }

  lemma SmallIs(b: seq<byte>, p: seq<nat>, s: nat, c: nat)
    requires Entries(p, |b|)
    ensures BucketSorted(b, p, 256 * s + c) == SmallSorted(b, p, s, c)
  {
  }

  lemma UpCursorBig(b: seq<byte>, s: nat)
    requires s < 256
    ensures BigFrom(b, s) <= BigTo(b, s) <= |b|
  {
    BigBounds(b, s, s);
  }

  lemma BlankMore(b: seq<byte>, q: seq<nat>, done: seq<bool>, s: nat)
    requires |q| == |b| && |done| == 256 && s < 256 && Blank(b, q, done)
    ensures Blank(b, q, done[s := true])
  {
  }

  lemma SynthesisedFacts(b: seq<byte>, s: nat, done: seq<bool>, p0: seq<nat>, p: seq<nat>)
    requires s < 256 && |done| == 256 && ByPair(b, p0) && Synthesised(b, s, done, p0, p)
    ensures ByPair(b, p) && Entries(p, |b|) && |p| == |b| && InOrder(b, p, BigFrom(b, s), BigTo(b, s) - 1)
  {
    hide InBucket, Start;
  }

  /**
   mainSort: unless the budget runs out, `ptr` ends as a sorted order of the rotations.  The
   block itself, before its overshoot area, is not changed.
   */
  method Sort(ptr: array<nat>, block: array<nat>, quadrant: array<nat>, ftab: array<nat>, nblock: nat, budget0: int,
              ghost b: seq<byte>) returns (budget: int)
    requires ptr != block && ptr != quadrant && ptr != ftab && ftab != block && ftab != quadrant && block != quadrant
    requires OVERSHOOT < nblock == |b| == ptr.Length <= MAX_BLOCK && ftab.Length == FTAB_SIZE
    requires nblock + OVERSHOOT <= block.Length && nblock + OVERSHOOT <= quadrant.Length && block[..nblock] == b
    modifies ptr, block, quadrant, ftab
    ensures block[..nblock] == b
    ensures budget <= budget0 && (budget >= 0 ==> Sorted(b, ptr[..]))
    ensures Run(ptr[..], budget) == MainOrder(b, budget0)
  {
    hide *;
    Constants();
    budget := budget0;
    var order, bigDone := new nat[256], new bool[256](_ => false);
    Initialise(ptr, block, quadrant, ftab, nblock, order, b);
    SortingStart(ftab[..], b, ptr[..], order[..], bigDone[..]);
    ghost var q := ZeroQuadrants(nblock);
    BlankDescribed(b, bigDone[..]);
    ghost var blk, o: seq<nat> := block[..], order[..];
    MainOrderIs(b, budget0, ftab[..], bigDone[..]);
    ghost var all := MainOrder(b, budget0);
    for i := 0 to 256
      invariant block[..] == blk && order[..] == o && budget <= budget0
      invariant Sorting(ftab[..], b, q, ptr[..], o, bigDone[..], i)
      invariant i < 256 ==> Tables(blk, quadrant[..], b, q) && Described(b, q, bigDone[..])
      invariant all == BigsDone(State(ptr[..], ftab[..], q, bigDone[..], budget, false), b, o, i)
    {
      var stopped;
      BigsDoneStep(State(ptr[..], ftab[..], q, bigDone[..], budget, false), b, o, i);
      budget, stopped, q := SortBig(ptr, block, quadrant, ftab, nblock, i, order, bigDone, budget, b, q);
      if stopped {
        return;
      }
    }
    BigsDoneStep(State(ptr[..], ftab[..], q, bigDone[..], budget, false), b, o, 256);
    SortingDone(ftab[..], b, q, ptr[..], o, bigDone[..]);
  }
}
