/**
 The comparison and the shell sort of the main block sorter (blocksort.c lines 344-555).

 The block is followed by a copy of its first 34 bytes, and so is the quadrant table.  A
 quadrant orders two rotations with the same first byte, weakly, when it differs between them.
 */
module MainCompare {

  import opened Rotation
  import opened Rearrange

  const OVERSHOOT := 34
  const N_RADIX := 2
  const DEPTH_THRESH := 14

  /** The cyclic index of position `i` in a block with overshoot. */
  function Wrap(n: nat, i: nat): (r: nat)
    requires i < 2 * n
    ensures r < n
  {
    if i < n then i else i - n
  }

  /** `a` holds `b` and, after it, the first 34 entries of `b` again. */
  ghost predicate Overshot<T>(a: seq<T>, b: seq<T>)
  {
    && |b| > OVERSHOOT && |a| >= |b| + OVERSHOOT
    && forall i :: 0 <= i < |b| + OVERSHOOT ==> a[i] == b[Wrap(|b|, i)]
  }

  /** A smaller quadrant never belongs to a greater rotation with the same first byte. */
  ghost predicate QuadrantsOk(b: seq<byte>, q: seq<nat>)
    requires |q| == |b|
  {
    forall i, j :: 0 <= i < |b| && 0 <= j < |b| && b[i] == b[j] && q[i] < q[j] ==> Le(b, i, j)
  }

  /** What the sorter's tables are known to hold. */
  ghost predicate Tables(block: seq<nat>, quadrant: seq<nat>, b: seq<byte>, q: seq<nat>)
  {
    && |q| == |b| && Overshot(block, b) && Overshot(quadrant, q) && QuadrantsOk(b, q)
  }

  /** Rotations that agree on `m` symbols are ordered as the rotations `m` places on. */
  lemma PrefixLe(b: seq<byte>, u: nat, v: nat, m: nat)
    requires u < |b| && v < |b| && Cmp(b, u, v, m) == 0
    requires Le(b, Advance(|b|, u, m), Advance(|b|, v, m))
    ensures Le(b, u, v)
  {
    CmpSplit(b, u, v, m, |b|);
    DeepCompare(b, u, v, m + |b|);
  }

  lemma FirstLess(b: seq<byte>, u: nat, v: nat)
    requires u < |b| && v < |b| && b[u] < b[v]
    ensures Cmp(b, u, v, |b|) < 0
  {
  }

  /** `m` symbols of rotations `u` and `v` were compared and agree; `i1` and `i2` are next. */
  ghost predicate Comparing(b: seq<byte>, u: nat, v: nat, m: nat, i1: nat, i2: nat)
  {
    && u < |b| && v < |b| && i1 < 2 * |b| && i2 < 2 * |b|
    && Cmp(b, u, v, m) == 0
    && Wrap(|b|, i1) == Advance(|b|, u, m) && Wrap(|b|, i2) == Advance(|b|, v, m)
  }

  lemma ComparingStep(b: seq<byte>, u: nat, v: nat, m: nat, i1: nat, i2: nat)
    requires Comparing(b, u, v, m, i1, i2) && b[Wrap(|b|, i1)] == b[Wrap(|b|, i2)]
    requires i1 + 1 < 2 * |b| && i2 + 1 < 2 * |b|
    ensures Comparing(b, u, v, m + 1, i1 + 1, i2 + 1)
  {
    CmpSplit(b, u, v, m, 1);
    AdvanceAdd(|b|, u, m, 1);
    AdvanceAdd(|b|, v, m, 1);
    var x, y := Wrap(|b|, i1), Wrap(|b|, i2);
    assert Advance(|b|, Next(|b|, x), 0) == Advance(|b|, x, 1) && Advance(|b|, Next(|b|, y), 0) == Advance(|b|, y, 1);
    assert Cmp(b, Next(|b|, x), Next(|b|, y), 0) == 0;
  }

  lemma ComparingDecides(b: seq<byte>, u: nat, v: nat, m: nat, i1: nat, i2: nat)
    requires Comparing(b, u, v, m, i1, i2)
    ensures Le(b, Wrap(|b|, i1), Wrap(|b|, i2)) ==> Le(b, u, v)
    ensures Le(b, Wrap(|b|, i2), Wrap(|b|, i1)) ==> Le(b, v, u)
  {
    CmpAntisym(b, u, v, m);
    if Le(b, Wrap(|b|, i1), Wrap(|b|, i2)) {
      PrefixLe(b, u, v, m);
    }
    if Le(b, Wrap(|b|, i2), Wrap(|b|, i1)) {
      PrefixLe(b, v, u, m);
    }
  }

  /** One comparison of bytes and, in the main loop, of quadrants; `None` when both agree. */
  datatype Verdict = Undecided | Greater(greater: bool)

  // What the comparison does, as functions of the block and its quadrants.

  function AtWrapped(s: seq<nat>, i: nat): (v: nat)
  {
    if i < |s| then s[i] else if i - |s| < |s| then s[i - |s|] else 0
  }

  function OneVerdict(b: seq<byte>, q: seq<nat>, i1: nat, i2: nat, useQuadrants: bool): (r: Verdict)
  {
    var c1, c2, s1, s2 := AtWrapped(b, i1), AtWrapped(b, i2), AtWrapped(q, i1), AtWrapped(q, i2);
    if c1 != c2 then Greater(c1 > c2) else if useQuadrants && s1 != s2 then Greater(s1 > s2) else Undecided
  }

  function Verdicts(b: seq<byte>, q: seq<nat>, i1: nat, i2: nat, count: nat, useQuadrants: bool): (r: Verdict)
    decreases count
  {
    if count == 0 then Undecided
    else
      var at := OneVerdict(b, q, i1, i2, useQuadrants);
      if at.Greater? then at else Verdicts(b, q, i1 + 1, i2 + 1, count - 1, useQuadrants)
  }

  datatype Answer = Answer(greater: bool, budget: int)

  /** The answer after the first 12 symbols, when `k` more are to be compared. */
  function Answered(b: seq<byte>, q: seq<nat>, i1: nat, i2: nat, k: int, budget: int): (a: Answer)
    decreases k
  {
    var v, n := Verdicts(b, q, i1, i2, 8, true), |b|;
    if v.Greater? then Answer(v.greater, budget)
    else if k < 8 then Answer(false, budget - 1)
    else Answered(b, q, if i1 + 8 >= n then i1 + 8 - n else i1 + 8, if i2 + 8 >= n then i2 + 8 - n else i2 + 8,
                  k - 8, budget - 1)
  }

  function Compared(b: seq<byte>, q: seq<nat>, i1: nat, i2: nat, budget: int): (a: Answer)
  {
    var v := Verdicts(b, q, i1, i2, 12, false);
    if v.Greater? then Answer(v.greater, budget) else Answered(b, q, i1 + 12, i2 + 12, |b| + 8, budget)
  }

  lemma VerdictsStep(b: seq<byte>, q: seq<nat>, i1: nat, i2: nat, count: nat, useQuadrants: bool)
    requires count > 0
    ensures Verdicts(b, q, i1, i2, count, useQuadrants)
            == if OneVerdict(b, q, i1, i2, useQuadrants).Greater? then OneVerdict(b, q, i1, i2, useQuadrants)
               else Verdicts(b, q, i1 + 1, i2 + 1, count - 1, useQuadrants)
  {
  }

  lemma VerdictsNone(b: seq<byte>, q: seq<nat>, i1: nat, i2: nat, useQuadrants: bool)
    ensures Verdicts(b, q, i1, i2, 0, useQuadrants) == Undecided
  {
  }

  lemma AnsweredStep(b: seq<byte>, q: seq<nat>, i1: nat, i2: nat, k: int, budget: int)
    ensures Answered(b, q, i1, i2, k, budget)
            == var v, n := Verdicts(b, q, i1, i2, 8, true), |b|;
               if v.Greater? then Answer(v.greater, budget)
               else if k < 8 then Answer(false, budget - 1)
               else Answered(b, q, if i1 + 8 >= n then i1 + 8 - n else i1 + 8,
                             if i2 + 8 >= n then i2 + 8 - n else i2 + 8, k - 8, budget - 1)
  {
    hide Verdicts;
  }

  lemma ComparedIs(b: seq<byte>, q: seq<nat>, i1: nat, i2: nat, budget: int)
    ensures Compared(b, q, i1, i2, budget)
            == var v := Verdicts(b, q, i1, i2, 12, false);
               if v.Greater? then Answer(v.greater, budget)
               else Answered(b, q, i1 + 12, i2 + 12, |b| + 8, budget)
  {
    hide Verdicts, Answered;
  }

  method CompareAt(block: array<nat>, quadrant: array<nat>, i1: nat, i2: nat, useQuadrants: bool,
                   ghost b: seq<byte>, ghost q: seq<nat>) returns (r: Verdict)
    requires Tables(block[..], quadrant[..], b, q) && i1 < |b| + OVERSHOOT && i2 < |b| + OVERSHOOT
    ensures r.Undecided? ==> b[Wrap(|b|, i1)] == b[Wrap(|b|, i2)]
    ensures r.Greater? ==>
              if r.greater then Le(b, Wrap(|b|, i2), Wrap(|b|, i1)) else Le(b, Wrap(|b|, i1), Wrap(|b|, i2))
    ensures r == OneVerdict(b, q, i1, i2, useQuadrants)
  {
    ghost var x, y := Wrap(|b|, i1), Wrap(|b|, i2);
    var c1, c2 := block[i1], block[i2];
    assert c1 == b[x] && c2 == b[y];
    if c1 != c2 {
      if c1 > c2 {
        FirstLess(b, y, x);
      } else {
        FirstLess(b, x, y);
      }
      return Greater(c1 > c2);
    }
    if useQuadrants {
      var s1, s2 := quadrant[i1], quadrant[i2];
      assert s1 == q[x] && s2 == q[y];
      if s1 != s2 {
        return Greater(s1 > s2);
      }
    }
    return Undecided;
  }

  /** Compares `count` places, without wrapping around. */
  method CompareRun(block: array<nat>, quadrant: array<nat>, i1_0: nat, i2_0: nat, count: nat, useQuadrants: bool,
                    ghost b: seq<byte>, ghost q: seq<nat>, ghost u: nat, ghost v: nat, ghost m: nat)
    returns (r: Verdict)
    requires Tables(block[..], quadrant[..], b, q) && Comparing(b, u, v, m, i1_0, i2_0)
    requires i1_0 + count <= |b| + OVERSHOOT && i2_0 + count <= |b| + OVERSHOOT
    ensures r.Undecided? ==> Comparing(b, u, v, m + count, i1_0 + count, i2_0 + count)
    ensures r.Greater? ==> if r.greater then Le(b, v, u) else Le(b, u, v)
    ensures r == Verdicts(b, q, i1_0, i2_0, count, useQuadrants)
  {
    hide *;
    var i1, i2 := i1_0, i2_0;
    ghost var k := 0;
    TablesConstants(block[..], quadrant[..], b, q);
    ghost var all := Verdicts(b, q, i1_0, i2_0, count, useQuadrants);
    while i1 < i1_0 + count
      invariant 0 <= k <= count && i1 == i1_0 + k && i2 == i2_0 + k
      invariant Comparing(b, u, v, m + k, i1, i2)
      invariant all == Verdicts(b, q, i1, i2, count - k, useQuadrants)
    {
      VerdictsStep(b, q, i1, i2, count - k, useQuadrants);
      var at := CompareAt(block, quadrant, i1, i2, useQuadrants, b, q);
      if at.Greater? {
        ComparingDecides(b, u, v, m + k, i1, i2);
        return at;
      }
      ComparingStep(b, u, v, m + k, i1, i2);
      i1 := i1 + 1;
      i2 := i2 + 1;
      k := k + 1;
    }
    VerdictsNone(b, q, i1, i2, useQuadrants);
    return Undecided;
  }

  lemma ComparingStart(b: seq<byte>, i1: nat, i2: nat)
    requires i1 < 2 * |b| && i2 < 2 * |b|
    ensures Comparing(b, Wrap(|b|, i1), Wrap(|b|, i2), 0, i1, i2)
  {
  }

  lemma ComparingWrap(b: seq<byte>, u: nat, v: nat, m: nat, i1: nat, i2: nat)
    requires Comparing(b, u, v, m, i1, i2)
    ensures Comparing(b, u, v, m, Wrap(|b|, i1), Wrap(|b|, i2))
  {
  }

  lemma ComparingAll(b: seq<byte>, u: nat, v: nat, m: nat, i1: nat, i2: nat)
    requires Comparing(b, u, v, m, i1, i2) && m >= |b|
    ensures Le(b, u, v)
  {
    DeepCompare(b, u, v, m);
  }

  lemma ComparingAgrees(b: seq<byte>, u: nat, v: nat, m: nat, i1: nat, i2: nat)
    requires Comparing(b, u, v, m, i1, i2)
    ensures Cmp(b, u, v, m) == 0
  {
  }

  lemma WrapIs(n: nat, i: nat)
    requires i < 2 * n
    ensures Wrap(n, i) == if i >= n then i - n else i
  {
  }

  lemma TablesConstants(block: seq<nat>, quadrant: seq<nat>, b: seq<byte>, q: seq<nat>)
    requires Tables(block, quadrant, b, q)
    ensures |b| > OVERSHOOT && OVERSHOOT == 34 && DEPTH_THRESH == 14
  {
    hide QuadrantsOk;
  }

  /**
   mainGtU: no rotation is reported greater than one that it precedes strictly.  Positions
   past the block stay below `nblock + 34`.  What is spent of the budget is one for every 8
   symbols, after the first 12, on which the rotations agree.
   */
  method GtU(i1_0: nat, i2_0: nat, block: array<nat>, quadrant: array<nat>, nblock: nat, budget0: int,
             ghost b: seq<byte>, ghost q: seq<nat>) returns (r: bool, budget: int)
    requires nblock == |b| && Tables(block[..], quadrant[..], b, q)
    requires i1_0 <= nblock + DEPTH_THRESH && i2_0 <= nblock + DEPTH_THRESH
    ensures |b| > OVERSHOOT
    ensures if r then Le(b, Wrap(nblock, i2_0), Wrap(nblock, i1_0)) else Le(b, Wrap(nblock, i1_0), Wrap(nblock, i2_0))
    ensures budget <= budget0 <= budget + nblock / 8 + 2
    ensures budget < budget0 ==>
              Cmp(b, Wrap(nblock, i1_0), Wrap(nblock, i2_0), 12 + 8 * (budget0 - budget)) == 0
    ensures Answer(r, budget) == Compared(b, q, i1_0, i2_0, budget0)
  {
    hide *;
    ComparedIs(b, q, i1_0, i2_0, budget0);
    TablesConstants(block[..], quadrant[..], b, q);
    ghost var u, v := Wrap(nblock, i1_0), Wrap(nblock, i2_0);
    ghost var m := 12;
    budget := budget0;
    ComparingStart(b, i1_0, i2_0);
    var first := CompareRun(block, quadrant, i1_0, i2_0, 12, false, b, q, u, v, 0);
    if first.Greater? {
      return first.greater, budget;
    }
    var i1: nat, i2: nat := i1_0 + 12, i2_0 + 12;
    var k: int := nblock + 8;
    ghost var all := Compared(b, q, i1_0, i2_0, budget0);
    while true
      invariant all == Answered(b, q, i1, i2, k, budget)
      invariant i1 <= nblock + DEPTH_THRESH + 12 && i2 <= nblock + DEPTH_THRESH + 12
      invariant 0 <= k && m + k == nblock + 20
      invariant Comparing(b, u, v, m, i1, i2) && m == 12 + 8 * (budget0 - budget) && budget <= budget0
      decreases k
    {
      ComparingAgrees(b, u, v, m, i1, i2);
      AnsweredStep(b, q, i1, i2, k, budget);
      var next := CompareRun(block, quadrant, i1, i2, 8, true, b, q, u, v, m);
      if next.Greater? {
        return next.greater, budget;
      }
      i1, i2, m := i1 + 8, i2 + 8, m + 8;
      ComparingWrap(b, u, v, m, i1, i2);
      WrapIs(nblock, i1);
      WrapIs(nblock, i2);
      i1 := if i1 >= nblock then i1 - nblock else i1;
      i2 := if i2 >= nblock then i2 - nblock else i2;
      k := k - 8;
      budget := budget - 1;
      if k < 0 {
        break;
      }
    }
    ComparingAll(b, u, v, m, i1, i2);
    ComparingAgrees(b, u, v, m, i1, i2);
    r := false;
  }
}
