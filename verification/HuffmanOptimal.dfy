/**
 The builder's trees are the best there are: no prefix code of the same symbols is shorter in all
 than the depths of the leaves (huffman.c lines 96-121, without a scaling).

 Any code lengths give lengths for the trees of the forest that fit, at a cost that does not grow
 when the two lightest trees are joined.
 */
module HuffmanOptimal {

  import opened Words
  import opened HuffmanTree

  // ---------------------------------------------------------------- sums

  function Sum(t: seq<nat>): (s: nat)
  {
    if t == [] then 0 else Sum(t[..|t| - 1]) + t[|t| - 1]
  }

  lemma {:induction false} SumUpdate(t: seq<nat>, i: nat, v: nat)
    requires i < |t|
    ensures Sum(t[i := v]) + t[i] == Sum(t) + v
    decreases |t|
  {
    var n := |t| - 1;
    if i == n {
      assert t[i := v][..n] == t[..n];
    } else {
      SumUpdate(t[..n], i, v);
      assert t[i := v][..n] == t[..n][i := v];
    }
  }

  lemma SumAppend(t: seq<nat>, v: nat)
    ensures Sum(t + [v]) == Sum(t) + v
  {
    assert (t + [v])[..|t|] == t;
  }

  lemma {:induction false} SumOne(t: seq<nat>, i: nat)
    requires i < |t|
    ensures Sum(t) >= t[i]
    decreases |t|
  {
    if i < |t| - 1 {
      SumOne(t[..|t| - 1], i);
    }
  }

  lemma SumTwo(t: seq<nat>, i: nat, j: nat)
    requires i < |t| && j < |t| && i != j
    ensures Sum(t) >= t[i] + t[j]
  {
    SumUpdate(t, i, 0);
    SumOne(t[i := 0], j);
  }

  /** One odd number among even ones. */
  lemma {:induction false} SumOdd(t: seq<nat>, x: nat)
    requires x < |t| && t[x] % 2 == 1 && forall i :: 0 <= i < |t| && i != x ==> t[i] % 2 == 0
    ensures Sum(t) % 2 == 1
    decreases |t|
  {
    var n := |t| - 1;
    if x == n {
      SumEven(t[..n]);
    } else {
      SumOdd(t[..n], x);
    }
  }

  lemma {:induction false} SumEven(t: seq<nat>)
    requires forall i :: 0 <= i < |t| ==> t[i] % 2 == 0
    ensures Sum(t) % 2 == 0
  {
    if t != [] {
      SumEven(t[..|t| - 1]);
    }
  }

  lemma {:induction false} SumTwice(t: seq<nat>, u: seq<nat>)
    requires |t| == |u| && forall i :: 0 <= i < |t| ==> t[i] == 2 * u[i]
    ensures Sum(t) == 2 * Sum(u)
  {
    if t != [] {
      SumTwice(t[..|t| - 1], u[..|u| - 1]);
    }
  }

  // ---------------------------------------------------------------- lengths for the trees

  /** What the trees of the forest cost with lengths `m`. */
  ghost function Costs(f: Forest, m: seq<nat>): (t: seq<nat>)
    requires |m| == |f.root| == |f.wt|
    ensures |t| == |m|
  {
    seq(|m|, r requires 0 <= r < |m| => if IsLive(f, r) then f.wt[r] * m[r] else 0)
  }

  /** What the lengths take up of `2 ** top` codes. */
  ghost function Shares(f: Forest, m: seq<nat>, top: nat): (t: seq<nat>)
    requires |m| == |f.root| && forall r :: IsLive(f, r) ==> m[r] <= top
    ensures |t| == |m|
  {
    seq(|m|, r requires 0 <= r < |m| => if IsLive(f, r) then Pow2(top - m[r]) else 0)
  }

  /** Lengths of at most `top` for which there is a prefix code. */
  ghost predicate Fitting(f: Forest, m: seq<nat>, top: nat)
  {
    && |m| == |f.root| == |f.wt| && (forall r :: IsLive(f, r) ==> m[r] <= top)
    && Sum(Shares(f, m, top)) <= Pow2(top)
  }

  /** If no length is `top`, `top` can be less. */
  lemma Lower(f: Forest, m: seq<nat>, top: nat)
    requires Fitting(f, m, top) && top >= 1 && forall r :: IsLive(f, r) ==> m[r] < top
    ensures Fitting(f, m, top - 1)
  {
    SumTwice(Shares(f, m, top), Shares(f, m, top - 1));
  }

  /** If only one length is `top`, it can be one less. */
  lemma OneTop(f: Forest, m: seq<nat>, top: nat, x: nat)
    requires Fitting(f, m, top) && top >= 1 && IsLive(f, x) && m[x] == top && x < |m|
    requires forall r :: IsLive(f, r) && r != x ==> m[r] < top
    ensures Fitting(f, m[x := top - 1], top) && Sum(Costs(f, m[x := top - 1])) <= Sum(Costs(f, m))
  {
    hide *;
    FittingSizes(f, m, top);
    OneTopShares(f, m, top, x);
    OneTopCosts(f, m, top, x);
    IsFitting(f, m, m[x := top - 1], top);
  }

  lemma OneTopShares(f: Forest, m: seq<nat>, top: nat, x: nat)
    requires Fitting(f, m, top) && top >= 1 && IsLive(f, x) && x < |m| && m[x] == top
    requires forall r :: IsLive(f, r) && r != x ==> m[r] < top
    ensures |m| == |f.root| && forall r :: IsLive(f, r) ==> m[x := top - 1][r] <= top
    ensures Sum(Shares(f, m[x := top - 1], top)) <= Pow2(top)
  {
    hide Sum;
    var t := Shares(f, m, top);
    assert Pow2(0) == 1 && Pow2(1) == 2;
    OnlyOdd(f, m, top, x);
    SumOdd(t, x);
    SumUpdate(t, x, 2);
    assert Shares(f, m[x := top - 1], top) == t[x := 2];
    PowEven(top);
  }

  /** Only the greatest length has an odd share. */
  lemma OnlyOdd(f: Forest, m: seq<nat>, top: nat, x: nat)
    requires |m| == |f.root| && IsLive(f, x) && x < |m| && m[x] == top
    requires forall r :: IsLive(f, r) && r != x ==> m[r] < top
    ensures (forall r :: IsLive(f, r) ==> m[r] <= top) && Shares(f, m, top)[x] == 1
    ensures forall i :: 0 <= i < |m| && i != x ==> Shares(f, m, top)[i] % 2 == 0
  {
    forall i | 0 <= i < |m| && i != x ensures Shares(f, m, top)[i] % 2 == 0 {
      if IsLive(f, i) {
        PowEven(top - m[i]);
      }
    }
  }

  lemma PowEven(n: nat)
    requires n >= 1
    ensures Pow2(n) % 2 == 0
  {
  }

  lemma OneTopCosts(f: Forest, m: seq<nat>, top: nat, x: nat)
    requires |m| == |f.root| == |f.wt| && top >= 1 && IsLive(f, x) && x < |m| && m[x] == top
    ensures Sum(Costs(f, m[x := top - 1])) <= Sum(Costs(f, m))
  {
    hide Sum;
    SumUpdate(Costs(f, m), x, f.wt[x] * (top - 1));
    assert Costs(f, m[x := top - 1]) == Costs(f, m)[x := f.wt[x] * (top - 1)];
    MulStep(top - 1, f.wt[x]);
  }

  /** Two trees cannot both have length 0. */
  lemma TopPositive(f: Forest, m: seq<nat>, top: nat, a: nat, b: nat)
    requires Fitting(f, m, top) && IsLive(f, a) && IsLive(f, b) && a != b
    ensures top >= 1
  {
    assert Pow2(0) == 1;
    SumTwo(Shares(f, m, top), a, b);
  }

  /** Two trees can have the greatest length. */
  lemma {:induction false} Level(f: Forest, m: seq<nat>, top: nat, a: nat, b: nat)
    returns (m': seq<nat>, top': nat, x: nat, y: nat)
    requires Fitting(f, m, top) && IsLive(f, a) && IsLive(f, b) && a != b
    ensures Fitting(f, m', top') && Sum(Costs(f, m')) <= Sum(Costs(f, m)) && top' >= 1
    ensures IsLive(f, x) && IsLive(f, y) && x != y && m'[x] == m'[y] == top'
    decreases top
  {
    TopPositive(f, m, top, a, b);
    FittingSizes(f, m, top);
    hide Fitting, Costs, Sum;
    if forall r :: IsLive(f, r) ==> m[r] < top {
      Lower(f, m, top);
      m', top', x, y := Level(f, m, top - 1, a, b);
    } else {
      x :| IsLive(f, x) && m[x] == top;
      if forall r :: IsLive(f, r) && r != x ==> m[r] < top {
        OneTop(f, m, top, x);
        Lower(f, m[x := top - 1], top);
        m', top', x, y := Level(f, m[x := top - 1], top - 1, a, b);
      } else {
        y :| IsLive(f, y) && y != x && m[y] == top;
        m', top' := m, top;
      }
    }
  }

  lemma Exchange(a: nat, z: nat, x: nat, y: nat)
    requires a <= z && x <= y
    ensures a * y + z * x <= a * x + z * y
  {
    var d := z - a;
    assert z * x == a * x + d * x && z * y == a * y + d * y;
    assert d * x <= d * y;
  }

  /** A light tree can have the length of a heavier one that is longer. */
  lemma SwapLengths(f: Forest, m: seq<nat>, top: nat, a: nat, z: nat)
    requires Fitting(f, m, top) && IsLive(f, a) && IsLive(f, z) && a != z && m[z] == top && f.wt[a] <= f.wt[z]
    ensures Fitting(f, m[a := top][z := m[a]], top) && Sum(Costs(f, m[a := top][z := m[a]])) <= Sum(Costs(f, m))
  {
    hide *;
    FittingSizes(f, m, top);
    SwapShares(f, m, top, a, z);
    SwapCosts(f, m, top, a, z);
    IsFitting(f, m, m[a := top][z := m[a]], top);
  }

  lemma IsFitting(f: Forest, m: seq<nat>, m': seq<nat>, top: nat)
    requires Fitting(f, m, top) && |m'| == |m| && (forall r :: IsLive(f, r) ==> r < |m'| && m'[r] <= top)
    requires |m| == |f.root| && Sum(Shares(f, m', top)) <= Pow2(top)
    ensures Fitting(f, m', top)
  {
    hide Sum, Shares;
  }

  lemma SwapShares(f: Forest, m: seq<nat>, top: nat, a: nat, z: nat)
    requires Fitting(f, m, top) && IsLive(f, a) && IsLive(f, z) && a != z && a < |m| && z < |m| && m[z] == top
    ensures |m| == |f.root|
    ensures var m' := m[a := top][z := m[a]];
            (forall r :: IsLive(f, r) ==> m'[r] <= top) && Sum(Shares(f, m', top)) <= Pow2(top)
  {
    hide Sum, Pow2;
    var m', t := m[a := top][z := m[a]], Shares(f, m, top);
    SumUpdate(t, a, t[z]);
    SumUpdate(t[a := t[z]], z, t[a]);
    assert Shares(f, m', top) == t[a := t[z]][z := t[a]];
  }

  lemma SwapCosts(f: Forest, m: seq<nat>, top: nat, a: nat, z: nat)
    requires |m| == |f.root| == |f.wt| && IsLive(f, a) && IsLive(f, z) && a != z && m[z] == top && a < |m| && z < |m|
    requires m[a] <= top && f.wt[a] <= f.wt[z]
    ensures Sum(Costs(f, m[a := top][z := m[a]])) <= Sum(Costs(f, m))
  {
    hide Sum;
    var m', c := m[a := top][z := m[a]], Costs(f, m);
    var ca, cz := f.wt[a] * top, f.wt[z] * m[a];
    assert c[a] == f.wt[a] * m[a] && c[z] == f.wt[z] * top;
    CostsSwapped(f, m, a, z, top);
    SumUpdate(c, a, ca);
    SumUpdate(c[a := ca], z, cz);
    hide Costs;
    Exchange(f.wt[a], f.wt[z], m[a], top);
  }

  lemma CostsSwapped(f: Forest, m: seq<nat>, a: nat, z: nat, top: nat)
    requires |m| == |f.root| == |f.wt| && IsLive(f, a) && IsLive(f, z) && a != z && a < |m| && z < |m|
    ensures Costs(f, m[a := top][z := m[a]]) == Costs(f, m)[a := f.wt[a] * top][z := f.wt[z] * m[a]]
  {
  }

  /** The two lightest trees can have the greatest length. */
  lemma LightestTop(f: Forest, m: seq<nat>, top: nat, a: nat, b: nat) returns (m': seq<nat>, top': nat)
    requires Fitting(f, m, top) && IsLive(f, a) && IsLive(f, b) && a != b
    requires forall s :: IsLive(f, s) && s != a && s != b ==> f.wt[s] >= f.wt[a] && f.wt[s] >= f.wt[b]
    ensures Fitting(f, m', top') && Sum(Costs(f, m')) <= Sum(Costs(f, m)) && top' >= 1 && m'[a] == m'[b] == top'
  {
    hide Fitting, Costs, Sum;
    FittingSizes(f, m, top);
    var m1, x, y;
    m1, top', x, y := Level(f, m, top, a, b);
    FittingSizes(f, m1, top');
    var other := if x == a then y else x;
    if m1[a] != top' {
      var z := if x == b then y else x;
      other := if x == b then x else y;
      SwapLengths(f, m1, top', a, z);
      m1 := m1[a := top'][z := m1[a]];
      FittingSizes(f, m1, top');
    }
    assert m1[a] == top' && m1[other] == top' && other != a && IsLive(f, other);
    m' := m1;
    if m1[b] != top' {
      SwapLengths(f, m1, top', b, other);
      m' := m1[b := top'][other := m1[b]];
    }
  }

  lemma FittingSizes(f: Forest, m: seq<nat>, top: nat)
    requires Fitting(f, m, top)
    ensures |m| == |f.root| == |f.wt| && forall r :: IsLive(f, r) ==> r < |m| && m[r] <= top
  {
    hide Sum;
  }

  /** Two terms go and one comes. */
  lemma SumReplaced(t: seq<nat>, a: nat, b: nat, v: nat)
    requires a < |t| && b < |t| && a != b
    ensures Sum(t[a := 0][b := 0] + [v]) + t[a] + t[b] == Sum(t) + v
  {
    SumUpdate(t, a, 0);
    SumUpdate(t[a := 0], b, 0);
    SumAppend(t[a := 0][b := 0], v);
  }

  lemma MergeShares(f: Forest, alpha: nat, m: seq<nat>, top: nat, a: nat, b: nat)
    requires Shaped(f, alpha) && Fitting(f, m, top) && IsLive(f, a) && IsLive(f, b) && a != b && top >= 1
    requires m[a] == m[b] == top
    ensures Fitting(Join(f, alpha, a, b), m + [top - 1], top)
  {
    var g, m', t := Join(f, alpha, a, b), m + [top - 1], Shares(f, m, top);
    JoinedLive(f, alpha, a, b);
    SumReplaced(t, a, b, 2);
    hide Join, Sum;
    assert Pow2(0) == 1 && Pow2(1) == 2;
    assert Shares(g, m', top) == t[a := 0][b := 0] + [2];
  }

  lemma MergeCosts(f: Forest, alpha: nat, m: seq<nat>, top: nat, a: nat, b: nat)
    requires Shaped(f, alpha) && |m| == |f.root| == |f.wt| && IsLive(f, a) && IsLive(f, b) && a != b && top >= 1
    requires m[a] == m[b] == top
    ensures var g, m' := Join(f, alpha, a, b), m + [top - 1];
            |m'| == |g.root| == |g.wt| && Sum(Costs(f, m)) == f.wt[a] + f.wt[b] + Sum(Costs(g, m'))
  {
    var g, m', u := Join(f, alpha, a, b), m + [top - 1], Costs(f, m);
    var w := f.wt[a] + f.wt[b];
    JoinedLive(f, alpha, a, b);
    SumReplaced(u, a, b, w * (top - 1));
    JoinedCost(f.wt[a], f.wt[b], top);
    hide Join, Sum;
    assert Costs(g, m') == u[a := 0][b := 0] + [w * (top - 1)];
  }

  /** With the two of them joined there are lengths again, and the joining costs what they weigh. */
  lemma Merge(f: Forest, alpha: nat, m: seq<nat>, top: nat, a: nat, b: nat)
    requires Shaped(f, alpha) && Fitting(f, m, top) && IsLive(f, a) && IsLive(f, b) && a != b && top >= 1
    requires m[a] == m[b] == top
    ensures var g, m' := Join(f, alpha, a, b), m + [top - 1];
            Fitting(g, m', top) && Sum(Costs(f, m)) == f.wt[a] + f.wt[b] + Sum(Costs(g, m'))
  {
    hide *;
    FittingSizes(f, m, top);
    MergeShares(f, alpha, m, top, a, b);
    MergeCosts(f, alpha, m, top, a, b);
  }

  lemma JoinedCost(x: nat, y: nat, top: nat)
    requires top >= 1
    ensures x * top + y * top == x + y + (x + y) * (top - 1)
  {
  }

  lemma JoinedLive(f: Forest, alpha: nat, a: nat, b: nat)
    requires Shaped(f, alpha) && IsLive(f, a) && IsLive(f, b) && a != b
    ensures var g, c := Join(f, alpha, a, b), |f.root|;
            |g.root| == c + 1 && |g.wt| == c + 1 && |f.wt| == c && g.wt[c] == f.wt[a] + f.wt[b] && IsLive(g, c)
            && a < c && b < c && forall r :: IsLive(g, r) <==> r == c || (IsLive(f, r) && r != a && r != b)
    ensures forall r :: IsLive(f, r) ==> Join(f, alpha, a, b).wt[r] == f.wt[r]
  {
  }

  // ---------------------------------------------------------------- the depths

  /** The total length of the leaves' codes so far. */
  function DepthCost(dep: seq<nat>, fw: seq<nat>, k: nat): (t: nat)
    requires k < |dep| && k < |fw|
  {
    if k == 0 then 0 else DepthCost(dep, fw, k - 1) + fw[k] * dep[k]
  }

  /** The total length of symbols with weights `fw` coded with lengths `len`. */
  function CodedLength(fw: seq<nat>, len: seq<nat>, k: nat): (t: nat)
    requires k < |fw| && k <= |len|
  {
    if k == 0 then 0 else CodedLength(fw, len, k - 1) + fw[k] * len[k - 1]
  }

  lemma {:induction false} JoinDepth(f: Forest, alpha: nat, fw: seq<nat>, a: nat, b: nat, k: nat)
    requires Shaped(f, alpha) && IsLive(f, a) && IsLive(f, b) && a != b && k <= alpha && alpha < |fw|
    ensures var g := Join(f, alpha, a, b);
            |g.dep| > alpha && |f.dep| > alpha && |f.root| > alpha
            && DepthCost(g.dep, fw, k) == DepthCost(f.dep, fw, k) + LeafSum(f.root, fw, a, k)
                 + LeafSum(f.root, fw, b, k)
  {
    hide Join, Shaped, IsLive;
    var g := Join(f, alpha, a, b);
    JoinDepths(f, alpha, a, b);
    if k > 0 {
      JoinDepth(f, alpha, fw, a, b, k - 1);
      MulStep(f.dep[k], fw[k]);
    }
  }

  lemma JoinDepths(f: Forest, alpha: nat, a: nat, b: nat)
    requires Shaped(f, alpha) && IsLive(f, a) && IsLive(f, b)
    ensures var g := Join(f, alpha, a, b);
            && |g.dep| > alpha && |f.dep| > alpha && |f.root| > alpha
            && forall k :: 0 <= k <= alpha ==>
                 g.dep[k] == if f.root[k] == a || f.root[k] == b then f.dep[k] + 1 else f.dep[k]
  {
  }

  /** Lengths for the trees with which no more than `bound` is coded in all. */
  ghost predicate BoundedBy(f: Forest, fw: seq<nat>, alpha: nat, bound: nat, m: seq<nat>, top: nat)
    requires Shaped(f, alpha) && alpha < |fw|
  {
    Fitting(f, m, top) && DepthCost(f.dep, fw, alpha) + Sum(Costs(f, m)) <= bound
  }

  /** Some code of total length `bound` or less keeps the trees of the forest whole. */
  ghost predicate Bounded(f: Forest, fw: seq<nat>, alpha: nat, bound: nat)
  {
    && Shaped(f, alpha) && alpha < |fw|
    && exists m, top :: BoundedBy(f, fw, alpha, bound, m, top)
  }

  lemma JoinBounded(f: Forest, fw: seq<nat>, alpha: nat, a: nat, b: nat, bound: nat)
    requires Bounded(f, fw, alpha, bound) && Shaped(f, alpha) && alpha < |fw| && Weighed(f, fw, alpha)
    requires IsLive(f, a) && IsLive(f, b) && a != b
    requires forall s :: IsLive(f, s) && s != a && s != b ==> f.wt[s] >= f.wt[a] && f.wt[s] >= f.wt[b]
    ensures Bounded(Join(f, alpha, a, b), fw, alpha, bound)
  {
    hide Fitting, Costs, Sum, Join, DepthCost, LeafSum, Kraft;
    var m, top :| BoundedBy(f, fw, alpha, bound, m, top);
    FittingSizes(f, m, top);
    var m1, top1 := LightestTop(f, m, top, a, b);
    FittingSizes(f, m1, top1);
    Merge(f, alpha, m1, top1, a, b);
    JoinDepth(f, alpha, fw, a, b, alpha);
    JoinShaped(f, alpha, a, b);
    assert BoundedBy(Join(f, alpha, a, b), fw, alpha, bound, m1 + [top1 - 1], top1);
  }

  // ---------------------------------------------------------------- the start and the end

  lemma {:induction false} ShareScaled(d: nat, top: nat)
    requires d <= top
    ensures Share(d) * (Pow2(top) as real) == Pow2(top - d) as real
    decreases d
  {
    if d > 0 {
      ShareScaled(d - 1, top);
      assert Pow2(top - d + 1) == 2 * Pow2(top - d);
    }
  }

  lemma {:induction false} SharesScaled(fw: seq<nat>, len: seq<nat>, top: nat, k: nat)
    requires |fw| == |len| + 1 && k <= |len| && forall i :: 0 <= i < |len| ==> len[i] <= top
    ensures Sum(Shares(Leaves(fw), [0] + len, top)[..k + 1]) as real == KraftSum(len, k) * (Pow2(top) as real)
  {
    hide *;
    SharesAre(fw, len, top);
    var t := Shares(Leaves(fw), [0] + len, top);
    SumPrefix(t, k);
    KraftStep(len, k);
    if k > 0 {
      SharesScaled(fw, len, top, k - 1);
      ShareScaled(len[k - 1], top);
      Distribute(KraftSum(len, k - 1), Share(len[k - 1]), Pow2(top) as real);
    }
  }

  lemma SumPrefix(t: seq<nat>, k: nat)
    requires k < |t|
    ensures Sum(t[..k + 1]) == Sum(t[..k]) + t[k] && Sum(t[..0]) == 0
  {
    assert t[..k + 1][..k] == t[..k];
  }

  lemma KraftStep(len: seq<nat>, k: nat)
    requires k <= |len|
    ensures KraftSum(len, k) == if k == 0 then 0.0 else KraftSum(len, k - 1) + Share(len[k - 1])
  {
  }

  /** In the first forest every leaf is a tree. */
  lemma SharesAre(fw: seq<nat>, len: seq<nat>, top: nat)
    requires |fw| == |len| + 1 && forall i :: 0 <= i < |len| ==> len[i] <= top
    ensures |[0] + len| == |Leaves(fw).root| == |Leaves(fw).wt| == |Leaves(fw).dep| && forall r ::
              IsLive(Leaves(fw), r) ==> ([0] + len)[r] <= top
    ensures var t := Shares(Leaves(fw), [0] + len, top);
            |t| == |fw| && t[0] == 0 && forall k :: 1 <= k < |t| ==> t[k] == Pow2(top - len[k - 1])
  {
  }

  lemma Distribute(x: real, y: real, z: real)
    ensures (x + y) * z == x * z + y * z
  {
  }

  lemma ProductAtMost(x: real, z: real)
    requires x <= 1.0 && z >= 0.0
    ensures x * z <= z
  {
  }

  lemma {:induction false} CostsCoded(fw: seq<nat>, len: seq<nat>, k: nat)
    requires |fw| == |len| + 1 && k <= |len|
    ensures Sum(Costs(Leaves(fw), [0] + len)[..k + 1]) == CodedLength(fw, len, k)
  {
    var t := Costs(Leaves(fw), [0] + len);
    assert t[..k + 1][..k] == t[..k];
    if k > 0 {
      CostsCoded(fw, len, k - 1);
      assert t[k] == fw[k] * len[k - 1];
    } else {
      assert t[0] == 0 && t[..0] == [];
    }
  }

  lemma {:induction false} NoDepth(fw: seq<nat>, k: nat)
    requires k < |fw|
    ensures DepthCost(Leaves(fw).dep, fw, k) == 0
  {
    if k > 0 {
      NoDepth(fw, k - 1);
    }
  }

  lemma {:induction false} Longest(len: seq<nat>) returns (top: nat)
    ensures forall i :: 0 <= i < |len| ==> len[i] <= top
  {
    top := 0;
    if len != [] {
      var rest := Longest(len[..|len| - 1]);
      top := if len[|len| - 1] > rest then len[|len| - 1] else rest;
    }
  }

  /** The lengths of any prefix code are such lengths for the leaves. */
  lemma LeavesBounded(fw: seq<nat>, alpha: nat, len: seq<nat>)
    requires 1 <= alpha && |fw| == alpha + 1 && |len| == alpha && KraftSum(len, alpha) <= 1.0
    requires Shaped(Leaves(fw), alpha)
    ensures Bounded(Leaves(fw), fw, alpha, CodedLength(fw, len, alpha))
  {
    hide *;
    var f, m := Leaves(fw), [0] + len;
    var top := Longest(len);
    SharesAre(fw, len, top);
    SharesScaled(fw, len, top, alpha);
    ProductAtMost(KraftSum(len, alpha), Pow2(top) as real);
    var t := Shares(f, m, top);
    assert t[..alpha + 1] == t;
    CostsCoded(fw, len, alpha);
    var c := Costs(f, m);
    assert c[..alpha + 1] == c;
    NoDepth(fw, alpha);
    IsBounded(f, fw, alpha, CodedLength(fw, len, alpha), m, top);
  }

  lemma IsBounded(f: Forest, fw: seq<nat>, alpha: nat, bound: nat, m: seq<nat>, top: nat)
    requires Shaped(f, alpha) && alpha < |fw| && |m| == |f.root| == |f.wt| && alpha < |f.dep| && forall r ::
              IsLive(f, r) ==> m[r] <= top
    requires Sum(Shares(f, m, top)) <= Pow2(top) && DepthCost(f.dep, fw, alpha) + Sum(Costs(f, m)) <= bound
    ensures Bounded(f, fw, alpha, bound)
  {
    hide Sum, DepthCost, Shares, Costs;
    assert BoundedBy(f, fw, alpha, bound, m, top);
  }

  /** A bound of a forest is a bound of the depths of its leaves. */
  lemma DepthAtMost(f: Forest, fw: seq<nat>, alpha: nat, bound: nat)
    requires Bounded(f, fw, alpha, bound)
    ensures |f.dep| > alpha && DepthCost(f.dep, fw, alpha) <= bound
  {
    hide Fitting, Costs, Sum, DepthCost;
    var m, top :| BoundedBy(f, fw, alpha, bound, m, top);
  }

  lemma {:induction false} DepthIsCoded(dep: seq<nat>, fw: seq<nat>, len: seq<nat>, k: nat)
    requires k < |dep| && k < |fw| && k <= |len| && forall i :: 0 <= i < k ==> len[i] == dep[i + 1]
    ensures DepthCost(dep, fw, k) == CodedLength(fw, len, k)
  {
    if k > 0 {
      DepthIsCoded(dep, fw, len, k - 1);
    }
  }

  /** No prefix code of the symbols is shorter in all. */
  ghost predicate Shortest(fw: seq<nat>, len: seq<nat>, alpha: nat)
    requires alpha < |fw| && alpha <= |len|
  {
    forall other: seq<nat> :: |other| == alpha && KraftSum(other, alpha) <= 1.0 ==>
        CodedLength(fw, len, alpha) <= CodedLength(fw, other, alpha)
  }

  /** Every bound that a code of the leaves gives is one for the forest. */
  ghost predicate Best(f: Forest, fw: seq<nat>, alpha: nat)
    requires alpha < |fw|
  {
    forall other: seq<nat> :: |other| == alpha && KraftSum(other, alpha) <= 1.0 ==>
        Bounded(f, fw, alpha, CodedLength(fw, other, alpha))
  }

  lemma LeavesBest(fw: seq<nat>, alpha: nat)
    requires 1 <= alpha && |fw| == alpha + 1 && Shaped(Leaves(fw), alpha)
    ensures Best(Leaves(fw), fw, alpha)
  {
    forall other: seq<nat> | |other| == alpha && KraftSum(other, alpha) <= 1.0
      ensures Bounded(Leaves(fw), fw, alpha, CodedLength(fw, other, alpha))
    {
      LeavesBounded(fw, alpha, other);
    }
  }

  /** Joining the two lightest trees loses nothing. */
  lemma JoinBest(f: Forest, fw: seq<nat>, alpha: nat, a: nat, b: nat)
    requires alpha < |fw| && Best(f, fw, alpha) && Shaped(f, alpha) && Weighed(f, fw, alpha) && IsLive(f, a)
    requires IsLive(f, b) && a != b
    requires forall s :: IsLive(f, s) && s != a && s != b ==> f.wt[s] >= f.wt[a] && f.wt[s] >= f.wt[b]
    ensures Best(Join(f, alpha, a, b), fw, alpha)
  {
    hide Bounded, Weighed, Join, CodedLength, KraftSum;
    forall other: seq<nat> | |other| == alpha && KraftSum(other, alpha) <= 1.0
      ensures Bounded(Join(f, alpha, a, b), fw, alpha, CodedLength(fw, other, alpha))
    {
      JoinBounded(f, fw, alpha, a, b, CodedLength(fw, other, alpha));
    }
  }

  /** The depths of the leaves are lengths of a shortest code. */
  lemma BestShortest(f: Forest, fw: seq<nat>, alpha: nat, len: seq<nat>)
    requires alpha < |fw| && alpha <= |len| && Best(f, fw, alpha) && alpha < |f.dep| && forall i :: 0 <= i < alpha ==>
              len[i] == f.dep[i + 1]
    ensures Shortest(fw, len, alpha)
  {
    hide Bounded, CodedLength, KraftSum, DepthCost;
    DepthIsCoded(f.dep, fw, len, alpha);
    forall other: seq<nat> | |other| == alpha && KraftSum(other, alpha) <= 1.0
      ensures CodedLength(fw, len, alpha) <= CodedLength(fw, other, alpha)
    {
      DepthAtMost(f, fw, alpha, CodedLength(fw, other, alpha));
    }
  }
}
