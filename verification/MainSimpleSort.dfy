/**
 mainSimpleSort (blocksort.c lines 479-555): a shell sort of rotations that agree on their
 first `d` symbols, given up when the budget for comparisons runs out.
 */
module MainSimpleSort {

  import opened Rotation
  import opened Rearrange
  import opened MainCompare
  import opened TotalSeqs

  const INCS: seq<nat> := [1, 4, 13, 40, 121, 364, 1093, 3280, 9841, 29524, 88573, 265720, 797161, 2391484]

  /** All entries are rotations of `b`. */
  ghost predicate Entries(s: seq<nat>, n: nat)
  {
    forall x :: 0 <= x < |s| ==> s[x] < n
  }

  lemma RearrangedEntries(s: seq<nat>, t: seq<nat>, lo: int, hi: int, n: nat)
    requires Rearranged(s, t, lo, hi) && Entries(s, n)
    ensures Entries(t, n)
  {
    forall x | 0 <= x < |t| ensures t[x] < n {
      assert t[x] in multiset(t);
      assert t[x] in s;
    }
  }

  ghost predicate InOrder(b: seq<byte>, s: seq<nat>, lo: int, hi: int)
    requires Entries(s, |b|)
  {
    forall x, y :: 0 <= lo <= x <= y <= hi < |s| ==> Le(b, s[x], s[y])
  }

  /** The entries `lo .. hi` agree on `d` symbols. */
  ghost predicate Agree(b: seq<byte>, s: seq<nat>, lo: int, hi: int, d: nat)
    requires Entries(s, |b|)
  {
    forall x, y :: 0 <= lo <= x <= hi < |s| && lo <= y <= hi ==> Cmp(b, s[x], s[y], d) == 0
  }

  lemma RearrangedAgree(b: seq<byte>, s: seq<nat>, t: seq<nat>, lo: int, hi: int, d: nat)
    requires Rearranged(s, t, lo, hi) && Entries(s, |b|) && Agree(b, s, lo, hi, d)
    ensures Entries(t, |b|) && Agree(b, t, lo, hi, d)
  {
    RearrangedEntries(s, t, lo, hi, |b|);
    forall x, y | 0 <= lo <= x <= hi < |t| && lo <= y <= hi ensures Cmp(b, t[x], t[y], d) == 0 {
      var x' := RearrangedFrom(s, t, lo, hi, x);
      var y' := RearrangedFrom(s, t, lo, hi, y);
    }
  }

  /** Compares two rotations that agree on `d` symbols. */
  method RotationGt(a: nat, v: nat, d: nat, block: array<nat>, quadrant: array<nat>, nblock: nat, budget0: int,
                    ghost b: seq<byte>, ghost q: seq<nat>) returns (r: bool, budget: int)
    requires nblock == |b| && Tables(block[..], quadrant[..], b, q) && a < nblock && v < nblock
    requires d <= DEPTH_THRESH + 1 && Cmp(b, a, v, d) == 0
    ensures if r then Le(b, v, a) else Le(b, a, v)
    ensures budget <= budget0 <= budget + nblock / 8 + 2
    ensures Answer(r, budget) == Compared(b, q, a + d, v + d, budget0)
  {
    hide Compared;
    assert |b| > OVERSHOOT;
    r, budget := GtU(a + d, v + d, block, quadrant, nblock, budget0, b, q);
    AdvanceIs(nblock, a, d);
    AdvanceIs(nblock, v, d);
    CmpAntisym(b, a, v, d);
    if r {
      PrefixLe(b, v, a, d);
    } else {
      PrefixLe(b, a, v, d);
    }
  }

  /** The insertion of `s0[i]`: the hole is at `j`, and with stride 1 the entries after it were moved up. */
  ghost predicate Inserting(b: seq<byte>, s0: seq<nat>, s: seq<nat>, i: int, j: int, h: nat)
    requires Entries(s0, |b|)
  {
    && |s| == |s0| && 0 <= j <= i < |s|
    && multiset(s[j := s0[i]]) == multiset(s0)
    && (forall x :: 0 <= x < j ==> s[x] == s0[x])
    && (forall x :: i < x < |s| ==> s[x] == s0[x])
    && (h == 1 ==> forall x :: j < x <= i ==> s[x] == s0[x - 1])
    && (h == 1 ==> forall x :: j <= x < i ==> Le(b, s0[i], s0[x]))
  }

  lemma InsertingStart(b: seq<byte>, s0: seq<nat>, i: int, h: nat)
    requires Entries(s0, |b|) && 0 <= i < |s0|
    ensures Inserting(b, s0, s0, i, i, h)
  {
    assert s0[i := s0[i]] == s0;
  }

  lemma InsertingStep(b: seq<byte>, s0: seq<nat>, s: seq<nat>, i: int, j: int, g: int, h: nat)
    requires Entries(s0, |b|) && Inserting(b, s0, s, i, j, h) && h >= 1 && 0 <= g == j - h
    requires Le(b, s0[i], s0[g])
    ensures Inserting(b, s0, s[j := s[g]], i, g, h)
  {
    hide Le;
    HoleMoves(s0, s, j, g, s0[i]);
    InsertingMoved(b, s0, s, i, j, g, h);
  }

  lemma InsertingMoved(b: seq<byte>, s0: seq<nat>, s: seq<nat>, i: int, j: int, g: int, h: nat)
    requires Entries(s0, |b|) && Inserting(b, s0, s, i, j, h) && h >= 1 && 0 <= g == j - h
    requires Le(b, s0[i], s0[g])
    ensures var t := s[j := s[g]];
            && (forall x :: 0 <= x < g ==> t[x] == s0[x])
            && (forall x :: i < x < |s| ==> t[x] == s0[x])
            && (h == 1 ==> forall x :: g < x <= i ==> t[x] == s0[x - 1])
            && (h == 1 ==> forall x :: g <= x < i ==> Le(b, s0[i], s0[x]))
  {
    hide Le;
  }

  lemma InsertingBehind(b: seq<byte>, s0: seq<nat>, s: seq<nat>, i: int, j: int, g: int, h: nat)
    requires Entries(s0, |b|) && Inserting(b, s0, s, i, j, h) && h >= 1 && g == j - h
    ensures 0 <= j <= i < |s| == |s0|
    ensures 0 <= g ==> s[g] == s0[g]
  {
  }

  lemma InsertingDone(b: seq<byte>, s0: seq<nat>, s: seq<nat>, i: int, j: int, h: nat, lo: int, hi: int)
    requires Entries(s0, |b|) && Inserting(b, s0, s, i, j, h) && 0 <= lo <= j && i <= hi < |s|
    requires j == lo || j - h < lo || Le(b, s0[j - h], s0[i])
    ensures Rearranged(s0, s[j := s0[i]], lo, hi) && Entries(s[j := s0[i]], |b|)
    ensures h == 1 && InOrder(b, s0, lo, i - 1) ==> InOrder(b, s[j := s0[i]], lo, i)
  {
    var t, v := s[j := s0[i]], s0[i];
    RearrangedEntries(s0, t, lo, hi, |b|);
    if h == 1 && InOrder(b, s0, lo, i - 1) {
      forall x, y | lo <= x <= y <= i ensures Le(b, t[x], t[y]) {
        InsertedPair(b, s0, t, i, j, lo, x, y);
      }
    }
  }

  lemma InsertedPair(b: seq<byte>, s0: seq<nat>, t: seq<nat>, i: int, j: int, lo: int, x: int, y: int)
    requires Entries(s0, |b|) && Entries(t, |b|) && |t| == |s0| && 0 <= lo <= j <= i < |s0|
    requires t[j] == s0[i] && (forall x :: 0 <= x < j ==> t[x] == s0[x])
    requires forall x :: j < x <= i ==> t[x] == s0[x - 1]
    requires forall x :: j <= x < i ==> Le(b, s0[i], s0[x])
    requires j == lo || Le(b, s0[j - 1], s0[i])
    requires InOrder(b, s0, lo, i - 1) && lo <= x <= y <= i
    ensures Le(b, t[x], t[y])
  {
    if x == y {
      CmpRefl(b, t[x], |b|);
    } else if y == j {
      assert Le(b, s0[x], s0[j - 1]);
      CmpTrans(b, s0[x], s0[j - 1], s0[i], |b|);
    } else if x != j {
      var x', y' := if x < j then x else x - 1, if y < j then y else y - 1;
      assert t[x] == s0[x'] && t[y] == s0[y'];
    }
  }

  lemma AgreeAt(b: seq<byte>, s: seq<nat>, lo: int, hi: int, d: nat, x: int, y: int)
    requires Entries(s, |b|) && Agree(b, s, lo, hi, d) && 0 <= lo <= x <= hi < |s| && lo <= y <= hi
    ensures s[x] < |b| && s[y] < |b| && Cmp(b, s[x], s[y], d) == 0
  {
  }

  // What the loops do, as functions.

  /** Entries, the hole of an insertion and the budget. */
  datatype Shifting = Shifting(p: seq<nat>, j: int, budget: int)

  datatype Run = Run(p: seq<nat>, budget: int)

  datatype Stop = Stop(p: seq<nat>, budget: int, stopped: bool)

  function Shifted(p: seq<nat>, b: seq<byte>, q: seq<nat>, j: int, h: nat, lo: int, v: nat, d: nat, budget: int)
    : (r: Shifting)
    decreases j - lo
  {
    if h == 0 || j - h < lo then Shifting(p, j, budget)
    else
      var a := Compared(b, q, At(p, j - h) + d, v + d, budget);
      if a.greater then Shifted(Put(p, j, At(p, j - h)), b, q, j - h, h, lo, v, d, a.budget)
      else Shifting(p, j, a.budget)
  }

  function Inserted(p: seq<nat>, b: seq<byte>, q: seq<nat>, i: int, h: nat, lo: int, d: nat, budget: int): (r: Run)
  {
    var t := Shifted(p, b, q, i, h, lo, At(p, i), d, budget);
    Run(Put(t.p, t.j, At(p, i)), t.budget)
  }

  /** The insertions from index `i` on; `copy` counts them by threes. */
  function Passed(p: seq<nat>, b: seq<byte>, q: seq<nat>, i: int, h: nat, lo: int, hi: int, d: nat, copy: nat,
                  budget: int): (r: Stop)
    decreases hi - i
  {
    if i > hi then Stop(p, budget, false)
    else
      var t, next := Inserted(p, b, q, i, h, lo, d, budget), (copy + 1) % 3;
      if next == 0 && t.budget < 0 then Stop(t.p, t.budget, true)
      else Passed(t.p, b, q, i + 1, h, lo, hi, d, next, t.budget)
  }

  /** The passes with the strides from number `hp` down. */
  function Passes(p: seq<nat>, b: seq<byte>, q: seq<nat>, hp: int, lo: int, hi: int, d: nat, budget: int): (r: Run)
    decreases hp
  {
    if hp < 0 || hp >= |INCS| then Run(p, budget)
    else
      var t := Passed(p, b, q, lo + INCS[hp], INCS[hp], lo, hi, d, 0, budget);
      if t.stopped then Run(t.p, t.budget) else Passes(t.p, b, q, hp - 1, lo, hi, d, t.budget)
  }

  /** The first stride from number `hp` on that is not below `bigN`. */
  function StrideFor(hp: nat, bigN: int): (k: nat)
    decreases |INCS| - hp
  {
    if hp >= |INCS| || INCS[hp] >= bigN then hp else StrideFor(hp + 1, bigN)
  }

  function ShellSorted(p: seq<nat>, b: seq<byte>, q: seq<nat>, lo: int, hi: int, d: nat, budget: int): (r: Run)
  {
    if hi - lo + 1 < 2 then Run(p, budget)
    else Passes(p, b, q, StrideFor(0, hi - lo + 1) - 1, lo, hi, d, budget)
  }

  lemma ShiftedStep(p: seq<nat>, b: seq<byte>, q: seq<nat>, j: int, h: nat, lo: int, v: nat, d: nat, budget: int)
    requires 1 <= h && 0 <= lo && j < |p|
    ensures Shifted(p, b, q, j, h, lo, v, d, budget)
            == if j - h < lo then Shifting(p, j, budget)
               else
                 var a := Compared(b, q, p[j - h] + d, v + d, budget);
                 if a.greater then Shifted(p[j := p[j - h]], b, q, j - h, h, lo, v, d, a.budget)
                 else Shifting(p, j, a.budget)
  {
    hide Compared;
  }

  lemma InsertedIs(p: seq<nat>, b: seq<byte>, q: seq<nat>, i: int, h: nat, lo: int, d: nat, budget: int)
    requires 0 <= i < |p|
    ensures var t := Shifted(p, b, q, i, h, lo, p[i], d, budget);
            0 <= t.j < |t.p| ==> Inserted(p, b, q, i, h, lo, d, budget) == Run(t.p[t.j := p[i]], t.budget)
  {
    hide Shifted;
  }

  lemma PassedStep(p: seq<nat>, b: seq<byte>, q: seq<nat>, i: int, h: nat, lo: int, hi: int, d: nat, copy: nat,
                   budget: int)
    ensures Passed(p, b, q, i, h, lo, hi, d, copy, budget)
            == if i > hi then Stop(p, budget, false)
               else
                 var t, next := Inserted(p, b, q, i, h, lo, d, budget), (copy + 1) % 3;
                 if next == 0 && t.budget < 0 then Stop(t.p, t.budget, true)
                 else Passed(t.p, b, q, i + 1, h, lo, hi, d, next, t.budget)
  {
    hide Inserted;
  }

  lemma PassesStep(p: seq<nat>, b: seq<byte>, q: seq<nat>, hp: int, lo: int, hi: int, d: nat, budget: int)
    requires hp < 14
    ensures Passes(p, b, q, hp, lo, hi, d, budget)
            == if hp < 0 then Run(p, budget)
               else
                 var t := Passed(p, b, q, lo + INCS[hp], INCS[hp], lo, hi, d, 0, budget);
                 if t.stopped then Run(t.p, t.budget) else Passes(t.p, b, q, hp - 1, lo, hi, d, t.budget)
  {
    hide Passed;
    assert |INCS| == 14;
  }

  lemma StrideForStep(hp: nat, bigN: int)
    requires hp < 14
    ensures StrideFor(hp, bigN) == if INCS[hp] >= bigN then hp else StrideFor(hp + 1, bigN)
  {
    assert |INCS| == 14;
  }

  lemma ShellSortedIs(p: seq<nat>, b: seq<byte>, q: seq<nat>, lo: int, hi: int, d: nat, budget: int)
    ensures ShellSorted(p, b, q, lo, hi, d, budget)
            == if hi - lo + 1 < 2 then Run(p, budget)
               else Passes(p, b, q, StrideFor(0, hi - lo + 1) - 1, lo, hi, d, budget)
  {
    hide Passes, StrideFor;
  }

  method Move(a: array<nat>, to: nat, from: nat)
    requires to < a.Length && from < a.Length
    modifies a
    ensures a[..] == old(a[..])[to := old(a[from])]
  {
    a[to] := a[from];
  }

  /** Moves the hole of an insertion down past the greater rotations. */
  method Shift(ptr: array<nat>, block: array<nat>, quadrant: array<nat>, nblock: nat, i: int, h: nat, lo: int, hi: int,
               d: nat, budget0: int, ghost b: seq<byte>, ghost q: seq<nat>, ghost s0: seq<nat>)
    returns (j: int, budget: int)
    requires ptr != block && ptr != quadrant && ptr[..] == s0
    requires nblock == |b| && Tables(block[..], quadrant[..], b, q) && d <= DEPTH_THRESH + 1
    requires Entries(s0, nblock) && Agree(b, s0, lo, hi, d)
    requires 0 <= lo && 1 <= h && lo + h <= i <= hi < ptr.Length
    modifies ptr
    ensures lo <= j <= i && Inserting(b, s0, ptr[..], i, j, h)
    ensures j < lo + h || Le(b, s0[j - h], s0[i])
    ensures budget <= budget0
    ensures Shifting(ptr[..], j, budget) == Shifted(s0, b, q, i, h, lo, s0[i], d, budget0)
  {
    hide *;
    ghost var blk, qd := block[..], quadrant[..];
    budget := budget0;
    j := i;
    var v := ptr[i];
    ghost var all := Shifted(s0, b, q, i, h, lo, v, d, budget0);
    InsertingStart(b, s0, i, h);
    AgreeAt(b, s0, lo, hi, d, i - h, i);
    var g := j - h;
    var greater := true;
    while greater && g >= lo
      invariant block[..] == blk && quadrant[..] == qd
      invariant budget <= budget0 && g == j - h && lo <= j <= i && (g >= lo ==> ptr[g] == s0[g])
      invariant Inserting(b, s0, ptr[..], i, j, h)
      invariant greater || (g >= lo && s0[g] < |b| && v < |b| && Le(b, s0[g], v))
      invariant all == if greater then Shifted(ptr[..], b, q, j, h, lo, v, d, budget)
                       else Shifting(ptr[..], j, budget)
      decreases j, greater
    {
      AgreeAt(b, s0, lo, hi, d, g, i);
      ShiftedStep(ptr[..], b, q, j, h, lo, v, d, budget);
      greater, budget := RotationGt(ptr[g], v, d, block, quadrant, nblock, budget, b, q);
      if greater {
        ghost var s := ptr[..];
        InsertingStep(b, s0, s, i, j, g, h);
        Move(ptr, j, g);
        assert ptr[..] == s[j := s[g]];
        j := g;
        g := j - h;
        InsertingBehind(b, s0, ptr[..], i, j, g, h);
      }
    }
    if greater {
      ShiftedStep(ptr[..], b, q, j, h, lo, v, d, budget);
    }
  }

  /** One insertion with stride `h`. */
  method Insert(ptr: array<nat>, block: array<nat>, quadrant: array<nat>, nblock: nat, i: int, h: nat, lo: int, hi: int,
                d: nat, budget0: int, ghost b: seq<byte>, ghost q: seq<nat>) returns (budget: int)
    requires ptr != block && ptr != quadrant
    requires nblock == |b| && Tables(block[..], quadrant[..], b, q) && d <= DEPTH_THRESH + 1
    requires Entries(ptr[..], nblock) && Agree(b, ptr[..], lo, hi, d)
    requires 0 <= lo && 1 <= h && lo + h <= i <= hi < ptr.Length
    modifies ptr
    ensures Rearranged(old(ptr[..]), ptr[..], lo, hi) && Entries(ptr[..], nblock)
    ensures h == 1 && InOrder(b, old(ptr[..]), lo, i - 1) ==> InOrder(b, ptr[..], lo, i)
    ensures budget <= budget0
    ensures Run(ptr[..], budget) == Inserted(old(ptr[..]), b, q, i, h, lo, d, budget0)
  {
    ghost var s0: seq<nat> := ptr[..];
    InsertedIs(s0, b, q, i, h, lo, d, budget0);
    var v := ptr[i];
    var j;
    j, budget := Shift(ptr, block, quadrant, nblock, i, h, lo, hi, d, budget0, b, q, s0);
    ghost var s := ptr[..];
    InsertingDone(b, s0, s, i, j, h, lo, hi);
    hide Inserting, Le, InOrder, Rearranged, Tables, Entries, Inserted, Shifted;
    ptr[j] := v;
    assert ptr[..] == s[j := v];
  }

  /** One pass with stride `h`, stopped when the budget is spent. */
  method Pass(ptr: array<nat>, block: array<nat>, quadrant: array<nat>, nblock: nat, h: nat, lo: int, hi: int,
              d: nat, budget0: int, ghost b: seq<byte>, ghost q: seq<nat>) returns (budget: int, stopped: bool)
    requires ptr != block && ptr != quadrant
    requires nblock == |b| && Tables(block[..], quadrant[..], b, q) && d <= DEPTH_THRESH + 1
    requires Entries(ptr[..], nblock) && Agree(b, ptr[..], lo, hi, d)
    requires 0 <= lo <= hi < ptr.Length && 1 <= h
    modifies ptr
    ensures Rearranged(old(ptr[..]), ptr[..], lo, hi) && Entries(ptr[..], nblock)
    ensures budget <= budget0 && (stopped ==> budget < 0)
    ensures h == 1 && !stopped ==> InOrder(b, ptr[..], lo, hi)
    ensures Stop(ptr[..], budget, stopped) == Passed(old(ptr[..]), b, q, lo + h, h, lo, hi, d, 0, budget0)
  {
    hide *;
    ghost var s0: seq<nat>, blk, qd := ptr[..], block[..], quadrant[..];
    budget := budget0;
    RearrangedRefl(s0, lo, hi);
    var i := lo + h;
    var copy := 0;
    if h == 1 {
      FewInOrder(b, s0, lo, i - 1);
    }
    ghost var all := Passed(s0, b, q, lo + h, h, lo, hi, d, 0, budget0);
    while i <= hi
      invariant 0 <= copy && all == Passed(ptr[..], b, q, i, h, lo, hi, d, copy, budget)
      invariant block[..] == blk && quadrant[..] == qd && budget <= budget0
      invariant lo + h <= i && (h == 1 ==> i <= hi + 1)
      invariant Rearranged(s0, ptr[..], lo, hi) && Entries(ptr[..], nblock)
      invariant h == 1 ==> InOrder(b, ptr[..], lo, i - 1)
    {
      ghost var s := ptr[..];
      RearrangedAgree(b, s0, s, lo, hi, d);
      PassedStep(s, b, q, i, h, lo, hi, d, copy, budget);
      budget := Insert(ptr, block, quadrant, nblock, i, h, lo, hi, d, budget, b, q);
      RearrangedTrans(s0, s, ptr[..], lo, hi);
      i := i + 1;
      // the source checks the budget after every third insertion
      copy := (copy + 1) % 3;
      if copy == 0 && budget < 0 {
        return budget, true;
      }
    }
    PassedStep(ptr[..], b, q, i, h, lo, hi, d, copy, budget);
    stopped := false;
  }

  /** The first stride that is not below `bigN`. */
  method Stride(bigN: int) returns (hp: nat)
    requires 2 <= bigN <= 900000
    ensures hp == StrideFor(0, bigN) && 1 <= hp <= 13
  {
    hide StrideFor;
    hp := 0;
    assert INCS[13] >= bigN && INCS[0] < bigN;
    while INCS[hp] < bigN
      invariant StrideFor(0, bigN) == StrideFor(hp, bigN)
      invariant 0 <= hp <= 13 && (hp == 0 || INCS[hp - 1] < bigN)
      decreases 13 - hp
    {
      StrideForStep(hp, bigN);
      hp := hp + 1;
    }
    StrideForStep(hp, bigN);
  }

  lemma StrideAt(hp: nat)
    requires hp < 13
    ensures |INCS| == 14 && INCS[hp] >= 1 && (hp == 0 <==> INCS[hp] == 1)
  {
  }

  lemma FewInOrder(b: seq<byte>, s: seq<nat>, lo: int, hi: int)
    requires Entries(s, |b|) && hi <= lo
    ensures InOrder(b, s, lo, hi)
  {
    if 0 <= lo == hi < |s| {
      CmpRefl(b, s[lo], |b|);
    }
  }

  method SimpleSort(ptr: array<nat>, block: array<nat>, quadrant: array<nat>, nblock: nat, lo: int, hi: int,
                    d: nat, budget0: int, ghost b: seq<byte>, ghost q: seq<nat>) returns (budget: int)
    requires ptr != block && ptr != quadrant
    requires nblock == |b| && Tables(block[..], quadrant[..], b, q) && d <= DEPTH_THRESH + 1
    requires Entries(ptr[..], nblock) && Agree(b, ptr[..], lo, hi, d)
    requires 0 <= lo <= hi + 1 <= ptr.Length && hi - lo + 1 <= 900000
    modifies ptr
    ensures Rearranged(old(ptr[..]), ptr[..], lo, hi) && Entries(ptr[..], nblock)
    ensures budget <= budget0 && (budget >= 0 ==> InOrder(b, ptr[..], lo, hi))
    ensures Run(ptr[..], budget) == ShellSorted(old(ptr[..]), b, q, lo, hi, d, budget0)
  {
    hide *;
    ghost var s0: seq<nat>, blk, qd := ptr[..], block[..], quadrant[..];
    budget := budget0;
    var bigN := hi - lo + 1;
    RearrangedRefl(s0, lo, hi);
    ShellSortedIs(s0, b, q, lo, hi, d, budget0);
    ghost var all := ShellSorted(s0, b, q, lo, hi, d, budget0);
    if bigN < 2 {
      FewInOrder(b, s0, lo, hi);
      return;
    }
    var k := Stride(bigN);
    var hp: int := k - 1;
    while hp >= 0
      invariant all == Passes(ptr[..], b, q, hp, lo, hi, d, budget)
      invariant -1 <= hp < 13 && budget <= budget0
      invariant block[..] == blk && quadrant[..] == qd
      invariant Rearranged(s0, ptr[..], lo, hi) && Entries(ptr[..], nblock)
      invariant hp == -1 ==> InOrder(b, ptr[..], lo, hi)
    {
      ghost var s := ptr[..];
      RearrangedAgree(b, s0, s, lo, hi, d);
      PassesStep(s, b, q, hp, lo, hi, d, budget);
      StrideAt(hp);
      var h := INCS[hp];
      var stopped;
      budget, stopped := Pass(ptr, block, quadrant, nblock, h, lo, hi, d, budget, b, q);
      RearrangedTrans(s0, s, ptr[..], lo, hi);
      if stopped {
        return;
      }
      hp := hp - 1;
    }
    PassesStep(ptr[..], b, q, hp, lo, hi, d, budget);
  }
}
