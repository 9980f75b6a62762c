/**
 The forest of trees that the Huffman builder joins (huffman.c lines 82-121), by what matters
 of it: the root and the depth of every node, and the weight and height of every tree.
 */
module HuffmanTree {

  /** `2 ** -d`, the share of all codes that begin with one code of length `d`. */
  function Share(d: nat): (s: real)
    ensures s > 0.0
  {
    if d == 0 then 1.0 else Share(d - 1) / 2.0
  }

  /** The share of the codes that the first `k` lengths take up. */
  function KraftSum(len: seq<nat>, k: nat): (t: real)
    requires k <= |len|
  {
    if k == 0 then 0.0 else KraftSum(len, k - 1) + Share(len[k - 1])
  }

  function Fib(n: nat): (f: nat)
  {
    if n < 2 then n else Fib(n - 1) + Fib(n - 2)
  }

  /** For every node, leaves first: its root, its depth below it, and, for a root, weight and height. */
  datatype Forest = Forest(root: seq<nat>, dep: seq<nat>, wt: seq<nat>, ht: seq<nat>)

  /** The total weight of the leaves 1 .. k. */
  function Total(fw: seq<nat>, k: nat): (t: nat)
    requires k < |fw|
  {
    if k == 0 then 0 else Total(fw, k - 1) + fw[k]
  }

  /** The weight of those leaves among 1 .. k whose root is `r`. */
  function LeafSum(root: seq<nat>, fw: seq<nat>, r: nat, k: nat): (t: nat)
    requires k < |root| && k < |fw|
  {
    if k == 0 then 0 else LeafSum(root, fw, r, k - 1) + if root[k] == r then fw[k] else 0
  }

  /** The share of the codes that those leaves take up. */
  function Kraft(root: seq<nat>, dep: seq<nat>, r: nat, k: nat): (t: real)
    requires k < |root| && k < |dep|
  {
    if k == 0 then 0.0 else Kraft(root, dep, r, k - 1) + if root[k] == r then Share(dep[k]) else 0.0
  }

  ghost predicate Shaped(f: Forest, alpha: nat)
  {
    && 1 <= alpha < |f.root| && |f.dep| == |f.root| && |f.wt| == |f.root| && |f.ht| == |f.root|
    && forall k :: 1 <= k < |f.root| ==>
         && 1 <= f.root[k] < |f.root|
         && f.root[f.root[k]] == f.root[k]
         && (f.root[k] == k <==> f.dep[k] == 0)
  }

  ghost predicate IsLive(f: Forest, r: int)
  {
    1 <= r < |f.root| && f.root[r] == r
  }

  ghost function Live(f: Forest): (s: set<nat>)
    ensures forall r :: r in s <==> IsLive(f, r)
  {
    set r | 1 <= r < |f.root| && f.root[r] == r
  }

  /** `parent` leads from every node to its root. */
  ghost predicate Parents(f: Forest, parent: seq<int>)
    requires |f.dep| == |f.root|
  {
    && |f.root| <= |parent|
    && forall k :: 1 <= k < |f.root| ==>
         if f.root[k] == k then parent[k] == -1
         else k < parent[k] < |f.root| && f.root[parent[k]] == f.root[k] && f.dep[k] == f.dep[parent[k]] + 1
  }

  /** Every tree weighs what its leaves weigh, is a full code, and is no deeper than its height. */
  ghost predicate Weighed(f: Forest, fw: seq<nat>, alpha: nat)
    requires Shaped(f, alpha) && alpha < |fw|
  {
    forall r :: IsLive(f, r) ==>
      && f.wt[r] == LeafSum(f.root, fw, r, alpha)
      && Kraft(f.root, f.dep, r, alpha) == 1.0
      && forall i :: 1 <= i <= alpha && f.root[i] == r ==> f.dep[i] <= f.ht[r]
  }

  /** Tall trees are heavy, and so is every other tree in the forest. */
  ghost predicate Tall(f: Forest, alpha: nat)
    requires Shaped(f, alpha)
  {
    && (forall r :: IsLive(f, r) ==> f.wt[r] >= Fib(f.ht[r] + 2))
    && (forall r, s :: IsLive(f, r) && IsLive(f, s) ==> f.wt[s] >= Fib(f.ht[r] + 1))
  }

  function Max(a: nat, b: nat): (m: nat)
  {
    if a > b then a else b
  }

  /** The forest after joining the trees `a` and `b` under a new root. */
  ghost function Join(f: Forest, alpha: nat, a: nat, b: nat): (g: Forest)
    requires Shaped(f, alpha) && IsLive(f, a) && IsLive(f, b)
  {
    var c := |f.root|;
    Forest(
      seq(c, k requires 0 <= k < c => if f.root[k] == a || f.root[k] == b then c else f.root[k]) + [c],
      seq(c, k requires 0 <= k < c => if f.root[k] == a || f.root[k] == b then f.dep[k] + 1 else f.dep[k]) + [0],
      f.wt + [f.wt[a] + f.wt[b]],
      f.ht + [1 + Max(f.ht[a], f.ht[b])])
  }

  lemma JoinShaped(f: Forest, alpha: nat, a: nat, b: nat)
    requires Shaped(f, alpha) && IsLive(f, a) && IsLive(f, b)
    ensures Shaped(Join(f, alpha, a, b), alpha)
  {
  }

  lemma JoinLive(f: Forest, alpha: nat, a: nat, b: nat)
    requires Shaped(f, alpha) && IsLive(f, a) && IsLive(f, b)
    ensures Live(Join(f, alpha, a, b)) == Live(f) - {a, b} + {|f.root|}
  {
  }

  lemma JoinParents(f: Forest, alpha: nat, a: nat, b: nat, parent: seq<int>)
    requires Shaped(f, alpha) && IsLive(f, a) && IsLive(f, b) && a != b
    requires Parents(f, parent) && |f.root| < |parent|
    ensures Parents(Join(f, alpha, a, b), parent[a := |f.root|][b := |f.root|][|f.root| := -1])
  {
    var c, g, p := |f.root|, Join(f, alpha, a, b), parent[a := |f.root|][b := |f.root|][|f.root| := -1];
    forall k | 1 <= k < |g.root|
      ensures if g.root[k] == k then p[k] == -1
              else k < p[k] < |g.root| && g.root[p[k]] == g.root[k] && g.dep[k] == g.dep[p[k]] + 1
    {
      if k < c && k != a && k != b && f.root[k] != k {
        assert f.root[parent[k]] == f.root[k];
      }
    }
  }

  lemma {:induction false} JoinSums(f: Forest, g: Forest, fw: seq<nat>, alpha: nat, a: nat, b: nat, r: nat, k: nat)
    requires Shaped(f, alpha) && IsLive(f, a) && IsLive(f, b) && a != b && alpha < |fw|
    requires g == Join(f, alpha, a, b) && k <= alpha
    ensures r == |f.root| ==>
              && LeafSum(g.root, fw, r, k) == LeafSum(f.root, fw, a, k) + LeafSum(f.root, fw, b, k)
              && Kraft(g.root, g.dep, r, k) == (Kraft(f.root, f.dep, a, k) + Kraft(f.root, f.dep, b, k)) / 2.0
    ensures r < |f.root| && r != a && r != b ==>
              && LeafSum(g.root, fw, r, k) == LeafSum(f.root, fw, r, k)
              && Kraft(g.root, g.dep, r, k) == Kraft(f.root, f.dep, r, k)
  {
    if k > 0 {
      JoinSums(f, g, fw, alpha, a, b, r, k - 1);
      assert f.root[k] < |f.root|;
    }
  }

  lemma JoinWeighed(f: Forest, fw: seq<nat>, alpha: nat, a: nat, b: nat)
    requires Shaped(f, alpha) && IsLive(f, a) && IsLive(f, b) && a != b && alpha < |fw|
    requires Weighed(f, fw, alpha)
    ensures Shaped(Join(f, alpha, a, b), alpha) && Weighed(Join(f, alpha, a, b), fw, alpha)
  {
    JoinShaped(f, alpha, a, b);
    var g := Join(f, alpha, a, b);
    forall r | IsLive(g, r)
      ensures g.wt[r] == LeafSum(g.root, fw, r, alpha)
      ensures Kraft(g.root, g.dep, r, alpha) == 1.0
      ensures forall i :: 1 <= i <= alpha && g.root[i] == r ==> g.dep[i] <= g.ht[r]
    {
      JoinSums(f, g, fw, alpha, a, b, r, alpha);
      if r < |f.root| {
        assert IsLive(f, r) && r != a && r != b;
      }
    }
  }

  lemma {:induction false} FibMonotone(m: nat, n: nat)
    requires m <= n
    ensures Fib(m) <= Fib(n)
    decreases n
  {
    if m < n {
      FibMonotone(m, n - 1);
      if n >= 2 {
        assert Fib(n) == Fib(n - 1) + Fib(n - 2);
      }
    }
  }

  lemma FibStep(h: nat)
    ensures Fib(h + 2) == Fib(h + 1) + Fib(h)
  {
  }

  /** Joining two lightest trees keeps tall trees heavy. */
  lemma JoinTall(f: Forest, alpha: nat, a: nat, b: nat)
    requires Shaped(f, alpha) && IsLive(f, a) && IsLive(f, b) && a != b && Tall(f, alpha)
    requires forall s :: IsLive(f, s) && s != a && s != b ==> f.wt[s] >= f.wt[a] && f.wt[s] >= f.wt[b]
    ensures Shaped(Join(f, alpha, a, b), alpha) && Tall(Join(f, alpha, a, b), alpha)
  {
    hide *;
    JoinShaped(f, alpha, a, b);
    JoinTrees(f, alpha, a, b);
    TallFacts(f, alpha);
    LiveIndex(f, alpha);
    var g, c := Join(f, alpha, a, b), |f.root|;
    var t, u := if f.ht[a] > f.ht[b] then a else b, if f.ht[a] > f.ht[b] then b else a;
    var h := g.ht[c];
    assert h == f.ht[t] + 1 && g.wt[c] == f.wt[t] + f.wt[u];
    assert f.wt[t] >= Fib(h + 1) && f.wt[u] >= Fib(h);
    FibStep(h);
    FibMonotone(h, h + 1);
    forall r | IsLive(g, r) ensures g.wt[r] >= Fib(g.ht[r] + 2) {
      assert r == c || IsLive(f, r);
    }
    forall r, s | IsLive(g, r) && IsLive(g, s) ensures g.wt[s] >= Fib(g.ht[r] + 1) {
      assert r == c || (IsLive(f, r) && f.wt[a] >= Fib(f.ht[r] + 1));
      assert s == c || (IsLive(f, s) && s != a && s != b);
    }
    IsTall(g, alpha);
  }

  lemma LiveIndex(f: Forest, alpha: nat)
    requires Shaped(f, alpha)
    ensures |f.wt| == |f.root| && |f.ht| == |f.root| && forall r :: IsLive(f, r) ==> 1 <= r < |f.root|
  {
  }

  /** The trees after a joining: the new one, and those that were not joined. */
  lemma JoinTrees(f: Forest, alpha: nat, a: nat, b: nat)
    requires Shaped(f, alpha) && IsLive(f, a) && IsLive(f, b)
    ensures var g, c := Join(f, alpha, a, b), |f.root|;
            && a < c && b < c && |f.wt| == c && |f.ht| == c && |g.wt| == c + 1 && |g.ht| == c + 1
            && g.wt[c] == f.wt[a] + f.wt[b]
            && g.ht[c] == 1 + (if f.ht[a] > f.ht[b] then f.ht[a] else f.ht[b])
            && forall r :: IsLive(g, r) ==>
                 1 <= r <= c && (r < c ==> IsLive(f, r) && r != a && r != b && g.wt[r] == f.wt[r] && g.ht[r] == f.ht[r])
  {
  }

  lemma TallFacts(f: Forest, alpha: nat)
    requires Shaped(f, alpha) && Tall(f, alpha)
    ensures forall r :: IsLive(f, r) ==> f.wt[r] >= Fib(f.ht[r] + 2)
    ensures forall r, s :: IsLive(f, r) && IsLive(f, s) ==> f.wt[s] >= Fib(f.ht[r] + 1)
  {
    hide Fib, IsLive, Shaped;
  }

  lemma IsTall(f: Forest, alpha: nat)
    requires Shaped(f, alpha)
    requires forall r :: IsLive(f, r) ==> f.wt[r] >= Fib(f.ht[r] + 2)
    requires forall r, s :: IsLive(f, r) && IsLive(f, s) ==> f.wt[s] >= Fib(f.ht[r] + 1)
    ensures Tall(f, alpha)
  {
    hide Fib, IsLive, Shaped;
  }

  lemma {:induction false} TwoTrees(root: seq<nat>, fw: seq<nat>, a: nat, b: nat, k: nat)
    requires k < |root| && k < |fw| && a != b
    ensures LeafSum(root, fw, a, k) + LeafSum(root, fw, b, k) <= Total(fw, k)
  {
    if k > 0 {
      TwoTrees(root, fw, a, b, k - 1);
    }
  }

  lemma {:induction false} OneTree(root: seq<nat>, fw: seq<nat>, r: nat, k: nat)
    requires k < |root| && k < |fw|
    ensures LeafSum(root, fw, r, k) <= Total(fw, k)
  {
    if k > 0 {
      OneTree(root, fw, r, k - 1);
    }
  }

  /** A tree as light as the builder admits is at most 32 high. */
  lemma HeightBound(w: nat, h: nat)
    requires w >= Fib(h + 2) && w < 0x80_0000
    ensures h <= 32
  {
    if h >= 33 {
      FibMonotone(35, h + 2);
      Fib35();
    }
  }

  lemma Fib35()
    ensures Fib(35) == 9227465
  {
    hide Fib;
    Fib20();
    FibStep(20);
    FibStep(21);
    FibStep(22);
    FibStep(23);
    FibStep(24);
    FibStep(25);
    FibStep(26);
    FibStep(27);
    FibStep(28);
    FibStep(29);
    FibStep(30);
    FibStep(31);
    FibStep(32);
    FibStep(33);
  }

  lemma Fib20()
    ensures Fib(20) == 6765 && Fib(21) == 10946
  {
    assert Fib(10) == 55 && Fib(11) == 89;
  }

  /** With at most 258 leaves of weight 1 or 2 the tree is at most 12 high. */
  lemma LightHeight(w: nat, h: nat)
    requires w >= Fib(h + 2) && w <= 516
    ensures h <= 12
  {
    assert Fib(10) == 55 && Fib(11) == 89;
    if h >= 13 {
      FibMonotone(15, h + 2);
    }
  }

  /** Before the first join every leaf is a tree. */
  ghost function Leaves(fw: seq<nat>): (f: Forest)
  {
    Forest(seq(|fw|, k requires 0 <= k < |fw| => k), seq(|fw|, _ => 0), fw, seq(|fw|, _ => 0))
  }

  lemma {:induction false} LeavesSums(fw: seq<nat>, r: nat, k: nat)
    requires k < |fw|
    ensures LeafSum(Leaves(fw).root, fw, r, k) == if 1 <= r <= k then fw[r] else 0
    ensures Kraft(Leaves(fw).root, Leaves(fw).dep, r, k) == if 1 <= r <= k then 1.0 else 0.0
  {
    if k > 0 {
      LeavesSums(fw, r, k - 1);
    }
  }

  lemma LeavesOk(fw: seq<nat>, alpha: nat)
    requires 1 <= alpha && |fw| == alpha + 1 && forall i :: 1 <= i <= alpha ==> fw[i] >= 1
    ensures Shaped(Leaves(fw), alpha) && Weighed(Leaves(fw), fw, alpha) && Tall(Leaves(fw), alpha)
  {
    var f := Leaves(fw);
    forall r | IsLive(f, r) ensures f.wt[r] == LeafSum(f.root, fw, r, alpha) && Kraft(f.root, f.dep, r, alpha) == 1.0 {
      LeavesSums(fw, r, alpha);
    }
    assert Fib(1) == 1 && Fib(2) == 1;
  }
}
