/**
 BZ2_hbMakeCodeLengths (huffman.c lines 63-148): code lengths by joining the two lightest
 trees on a heap, with the weights scaled down and everything redone while a code is too long.
 */
module Huffman {

  import opened Rotation
  import opened Rearrange
  import opened MinHeap
  import opened TotalSeqs
  import opened HuffmanTree
  import opened HuffmanOptimal

  const MAX_ALPHA := 258

  /** A node's weight above the height of its tree. */
  function Pack(w: nat, h: nat): (p: nat)
  {
    256 * w + h
  }

  /** The source's ADDWEIGHTS: `|` of the two parts is their sum while the height fits its 8 bits. */
  function AddWeights(zw1: nat, zw2: nat): (p: nat)
  {
    (zw1 / 256 + zw2 / 256) * 256 + (1 + Max(zw1 % 256, zw2 % 256))
  }

  lemma AddPacked(w1: nat, h1: nat, w2: nat, h2: nat)
    requires h1 < 256 && h2 < 256
    ensures AddWeights(Pack(w1, h1), Pack(w2, h2)) == Pack(w1 + w2, 1 + Max(h1, h2))
  {
    assert Pack(w1, h1) / 256 == w1 && Pack(w1, h1) % 256 == h1;
    assert Pack(w2, h2) / 256 == w2 && Pack(w2, h2) % 256 == h2;
  }

  /** The array holds the packed weights of the forest, none of which exceeds 31 bits. */
  ghost predicate Packed(weight: seq<nat>, f: Forest)
  {
    && |f.wt| <= |weight| && |f.ht| == |f.wt| > 0 && weight[0] == 0
    && forall k :: 1 <= k < |f.wt| ==> f.ht[k] <= 32 && weight[k] == Pack(f.wt[k], f.ht[k]) < 0x8000_0000
  }

  ghost function Entries(heap: seq<nat>, n: nat): (m: multiset<nat>)
    requires n < |heap|
  {
    multiset(heap[1..n + 1])
  }

  /** `v` weighs no more than any entry of `rest`. */
  ghost predicate Lightest(w: seq<nat>, v: nat, rest: multiset<nat>)
    requires v < |w|
  {
    forall x :: x in rest ==> x < |w| && w[v] <= w[x]
  }

  lemma PopStart(h: seq<nat>, w: seq<nat>, n: nat)
    requires Heap(h, w, n) && 1 <= n
    ensures n < |h| && 1 < |h| && h[1] < |w| && h[n] < |w|
    ensures Nodes(h[1 := h[n]], w, n - 1) && Sinking(h[1 := h[n]], w, n - 1, 1)
  {
  }

  /** Removes a lightest entry. */
  method PopMin(heap: array<nat>, weight: array<nat>, nHeap: nat) returns (n1: nat)
    requires heap != weight && 1 <= nHeap && Heap(heap[..], weight[..], nHeap)
    modifies heap
    ensures Heap(heap[..], weight[..], nHeap - 1)
    ensures n1 < weight.Length && Entries(old(heap[..]), nHeap) == Entries(heap[..], nHeap - 1) + multiset{n1}
    ensures Lightest(weight[..], n1, Entries(heap[..], nHeap - 1))
    ensures nHeap < heap.Length && old(heap[..])[1] == n1
    ensures heap[..nHeap] == Popped(old(heap[..])[..nHeap + 1], weight[..])
  {
    hide *;
    ghost var s0: seq<nat>, w: seq<nat> := heap[..], weight[..];
    PopStart(s0, w, nHeap);
    n1 := heap[1];
    heap[1] := heap[nHeap];
    ghost var s1 := heap[..];
    assert s1 == s0[1 := s0[nHeap]];
    DownHeap(heap, weight, nHeap - 1);
    PopEntries(s0, s1, heap[..], nHeap);
    PoppedIs(s0, s1, w, nHeap);
    PopLightest(s0, w, nHeap, Entries(heap[..], nHeap - 1));
  }

  lemma PoppedIs(s0: seq<nat>, s1: seq<nat>, w: seq<nat>, n: nat)
    requires 1 <= n < |s0| && s1 == s0[1 := s0[n]]
    ensures Popped(s0[..n + 1], w) == Sunk(s1[..n], w, 1, s1[1])
  {
    hide Sunk;
    assert s1[..n] == Put(s0[..n + 1], 1, s0[n])[..n];
  }

  lemma PopLightest(h: seq<nat>, w: seq<nat>, n: nat, rest: multiset<nat>)
    requires Heap(h, w, n) && 1 <= n && Entries(h, n) == rest + multiset{h[1]}
    ensures h[1] < |w| && Lightest(w, h[1], rest)
  {
    forall x | x in rest ensures x < |w| && w[h[1]] <= w[x] {
      assert x in Entries(h, n);
      assert x in h[1..n + 1];
      var z :| 0 <= z < n && h[1..n + 1][z] == x;
      HeapMin(h, w, n, z + 1);
    }
  }

  lemma PopEntries(s0: seq<nat>, s1: seq<nat>, s2: seq<nat>, n: nat)
    requires 1 <= n < |s0| && s1 == s0[1 := s0[n]] && Rearranged(s1, s2, 1, n - 1)
    ensures Entries(s0, n) == Entries(s2, n - 1) + multiset{s0[1]}
  {
    assert s0[1..n + 1] == [s0[1]] + s0[2..n + 1];
    if n == 1 {
      assert s0[2..n + 1] == [] && s2[1..n] == [];
    } else {
      RearrangedPart(s1, s2, 1, n - 1);
      assert s1[1..n] == [s0[n]] + s0[2..n];
      assert s0[2..n + 1] == s0[2..n] + [s0[n]];
    }
  }

  lemma PushEntries(s0: seq<nat>, s1: seq<nat>, s2: seq<nat>, n: nat, v: nat)
    requires n + 1 < |s0| && s1 == s0[n + 1 := v] && Rearranged(s1, s2, 1, n + 1)
    ensures Entries(s2, n + 1) == Entries(s0, n) + multiset{v}
  {
    RearrangedPart(s1, s2, 1, n + 1);
    assert s1[1..n + 2] == s0[1..n + 1] + [v];
  }

  /** Adds node `v` to the heap. */
  method Push(heap: array<nat>, weight: array<nat>, nHeap: nat, v: nat)
    requires heap != weight && nHeap + 1 < heap.Length && v < weight.Length
    requires Heap(heap[..], weight[..], nHeap)
    modifies heap
    ensures Heap(heap[..], weight[..], nHeap + 1)
    ensures Entries(heap[..], nHeap + 1) == Entries(old(heap[..]), nHeap) + multiset{v}
    ensures heap[..nHeap + 2] == Pushed(old(heap[..])[..nHeap + 1], weight[..], v)
  {
    hide Risen;
    ghost var s0 := heap[..];
    heap[nHeap + 1] := v;
    ghost var s1 := heap[..];
    assert s1 == s0[nHeap + 1 := v];
    assert s1[..nHeap + 2] == s0[..nHeap + 1] + [v];
    UpHeap(heap, weight, nHeap + 1);
    PushEntries(s0, s1, heap[..], nHeap, v);
  }

  lemma HeapFrame(h: seq<nat>, w: seq<nat>, n: nat, c: nat, v: nat)
    requires Heap(h, w, n) && 0 < c < |w| && forall z :: 1 <= z <= n ==> h[z] != c
    ensures Heap(h, w[c := v], n)
  {
  }

  /** The state of the builder between two joins. */
  ghost predicate Building(f: Forest, fw: seq<nat>, alpha: nat, heap: seq<nat>, weight: seq<nat>, parent: seq<int>,
                           nHeap: nat)
  {
    && 2 <= alpha <= MAX_ALPHA && |fw| == alpha + 1
    && |heap| == MAX_ALPHA + 2 && |weight| == 2 * MAX_ALPHA && |parent| == 2 * MAX_ALPHA
    && Shaped(f, alpha) && Weighed(f, fw, alpha) && Tall(f, alpha)
    && Parents(f, parent) && Packed(weight, f)
    && 1 <= nHeap && |f.root| + nHeap == 2 * alpha + 1
    && Heap(heap, weight, nHeap) && Entries(heap, nHeap) == multiset(Live(f))
  }

  lemma PackedOrder(weight: seq<nat>, f: Forest, a: nat, b: nat)
    requires Packed(weight, f) && 1 <= a < |f.wt| && 1 <= b < |f.wt| && weight[a] <= weight[b]
    ensures f.wt[a] <= f.wt[b]
  {
  }

  /** `a` and `b` are two of the lightest trees. */
  ghost predicate LightTrees(f: Forest, alpha: nat, a: nat, b: nat)
    requires Shaped(f, alpha) && IsLive(f, a) && IsLive(f, b)
  {
    forall s :: IsLive(f, s) && s != a && s != b ==> f.wt[s] >= f.wt[a] && f.wt[s] >= f.wt[b]
  }

  lemma LightFacts(f: Forest, alpha: nat, a: nat, b: nat)
    requires Shaped(f, alpha) && IsLive(f, a) && IsLive(f, b) && LightTrees(f, alpha, a, b)
    ensures |f.wt| == |f.root| && forall s :: IsLive(f, s) && s != a && s != b ==>
              f.wt[s] >= f.wt[a] && f.wt[s] >= f.wt[b]
  {
  }

  /** What two pops find: the two lightest trees. */
  lemma TwoLightest(f: Forest, fw: seq<nat>, alpha: nat, weight: seq<nat>, e0: multiset<nat>, e1: multiset<nat>,
                    e2: multiset<nat>, n1: nat, n2: nat)
    requires Shaped(f, alpha) && Packed(weight, f) && e0 == multiset(Live(f))
    requires e0 == e1 + multiset{n1} && e1 == e2 + multiset{n2}
    requires n1 < |weight| && n2 < |weight|
    requires Lightest(weight, n1, e1) && Lightest(weight, n2, e2)
    ensures IsLive(f, n1) && IsLive(f, n2) && n1 != n2
    ensures e2 == multiset(Live(f) - {n1, n2})
    ensures LightTrees(f, alpha, n1, n2)
  {
    assert n1 in e0 && n2 in e1 && n2 in e0;
    assert e0[n1] == 1 && e0[n2] == 1;
    assert e2 == multiset(Live(f) - {n1, n2}) by {
      forall x ensures e2[x] == multiset(Live(f) - {n1, n2})[x] {
        assert e0[x] == e1[x] + multiset{n1}[x] && e1[x] == e2[x] + multiset{n2}[x];
      }
    }
    forall s | IsLive(f, s) && s != n1 && s != n2
      ensures f.wt[s] >= f.wt[n1] && f.wt[s] >= f.wt[n2]
    {
      assert s in e0;
      assert s in e1;
      assert s in e2;
      PackedOrder(weight, f, n1, s);
      PackedOrder(weight, f, n2, s);
    }
  }

  lemma PackFits(w: nat, h: nat)
    requires w < 0x80_0000 && h <= 32
    ensures Pack(w, h) < 0x8000_0000
  {
  }

  /** The joined tree is the last node, and is as light and as low as the builder admits. */
  lemma JoinBounds(f: Forest, fw: seq<nat>, alpha: nat, a: nat, b: nat)
    requires Shaped(f, alpha) && alpha < |fw| && Weighed(f, fw, alpha) && Tall(f, alpha)
    requires IsLive(f, a) && IsLive(f, b) && a != b
    requires LightTrees(f, alpha, a, b)
    requires Total(fw, alpha) < 0x80_0000
    ensures f.wt[a] + f.wt[b] < 0x80_0000 && 1 + Max(f.ht[a], f.ht[b]) <= 32
  {
    JoinedWeight(f, fw, alpha, a, b);
    hide Fib, LeafSum, Kraft, Weighed;
    var g, c := Join(f, alpha, a, b), |f.root|;
    JoinTall(f, alpha, a, b);
    assert IsLive(g, c);
    assert g.wt[c] == f.wt[a] + f.wt[b] && g.ht[c] == 1 + Max(f.ht[a], f.ht[b]);
    HeightBound(g.wt[c], g.ht[c]);
  }

  lemma JoinedWeight(f: Forest, fw: seq<nat>, alpha: nat, a: nat, b: nat)
    requires Shaped(f, alpha) && alpha < |fw| && Weighed(f, fw, alpha) && IsLive(f, a) && IsLive(f, b) && a != b
    ensures f.wt[a] + f.wt[b] <= Total(fw, alpha)
  {
    TwoTrees(f.root, fw, a, b, alpha);
  }

  /** The joined tree's packed weight is that of the new root, and fits 31 bits. */
  lemma JoinPacked(f: Forest, alpha: nat, weight: seq<nat>, a: nat, b: nat)
    requires Shaped(f, alpha) && Packed(weight, f)
    requires IsLive(f, a) && IsLive(f, b) && |f.root| < |weight|
    requires f.wt[a] + f.wt[b] < 0x80_0000 && 1 + Max(f.ht[a], f.ht[b]) <= 32
    ensures Packed(weight[|f.root| := AddWeights(weight[a], weight[b])], Join(f, alpha, a, b))
  {
    AddPacked(f.wt[a], f.ht[a], f.wt[b], f.ht[b]);
    PackFits(f.wt[a] + f.wt[b], 1 + Max(f.ht[a], f.ht[b]));
    hide Pack, AddWeights, Max;
    var g, c := Join(f, alpha, a, b), |f.root|;
    assert g.wt == f.wt + [f.wt[a] + f.wt[b]];
  }

  /** Takes the two lightest trees off the heap. */
  method TakeTwo(heap: array<nat>, weight: array<nat>, nHeap: nat, ghost f: Forest, ghost fw: seq<nat>,
                 ghost alpha: nat,
                 ghost parent: seq<int>)
    returns (n1: nat, n2: nat)
    requires heap != weight && Building(f, fw, alpha, heap[..], weight[..], parent, nHeap) && nHeap > 1
    modifies heap
    ensures Shaped(f, alpha) && IsLive(f, n1) && IsLive(f, n2) && n1 != n2 && n1 < |f.root| && n2 < |f.root|
    ensures LightTrees(f, alpha, n1, n2)
    ensures Heap(heap[..], weight[..], nHeap - 2)
    ensures Entries(heap[..], nHeap - 2) == multiset(Live(f) - {n1, n2})
    ensures nHeap < heap.Length && n1 == old(heap[..])[1]
    ensures var h1 := Popped(old(heap[..])[..nHeap + 1], weight[..]);
            |h1| == nHeap && n2 == h1[1] && heap[..nHeap - 1] == Popped(h1, weight[..])
  {
    hide Heap, Entries, Shaped, Weighed, Tall, Parents, Packed, IsLive, Live, LightTrees, Lightest, Popped;
    ghost var w, h0 := weight[..], heap[..];
    n1 := PopMin(heap, weight, nHeap);
    ghost var h1 := heap[..];
    assert h1[..nHeap] == Popped(h0[..nHeap + 1], w);
    n2 := PopMin(heap, weight, nHeap - 1);
    ghost var h2 := heap[..];
    TwoLightest(f, fw, alpha, w, Entries(h0, nHeap), Entries(h1, nHeap - 1), Entries(h2, nHeap - 2), n1, n2);
    LiveBelow(f, alpha, n1, n2);
  }

  /** Makes `nNodes` the parent of `n1` and `n2`. */
  method Attach(weight: array<nat>, parent: array<int>, n1: nat, n2: nat, nNodes: nat)
    requires weight.Length == parent.Length && n1 < nNodes < weight.Length && n2 < nNodes
    modifies weight, parent
    ensures weight[..] == old(weight[..])[nNodes := AddWeights(old(weight[n1]), old(weight[n2]))]
    ensures parent[..] == old(parent[..])[n1 := nNodes][n2 := nNodes][nNodes := -1]
  {
    parent[n1] := nNodes;
    parent[n2] := nNodes;
    weight[nNodes] := AddWeights(weight[n1], weight[n2]);
    parent[nNodes] := -1;
  }

  /** Joins the two lightest trees. */
  method JoinLightest(heap: array<nat>, weight: array<nat>, parent: array<int>, nHeap0: nat, nNodes0: nat,
                      ghost f: Forest, ghost fw: seq<nat>, ghost alpha: nat, ghost t: Trees)
    returns (nHeap: nat, nNodes: nat, ghost g: Forest)
    requires heap != weight && Building(f, fw, alpha, heap[..], weight[..], parent[..], nHeap0)
    requires nHeap0 > 1 && nNodes0 + 1 == |f.root| && Total(fw, alpha) < 0x80_0000
    requires LeavesPacked(weight[..], fw, alpha) && alpha < |fw| && Best(f, fw, alpha)
    requires Holds(t, heap[..], weight[..], parent[..], nHeap0, nNodes0)
    modifies heap, weight, parent
    ensures |t.heap| >= 3 && Holds(Joined(t), heap[..], weight[..], parent[..], nHeap, nNodes)
    ensures Building(g, fw, alpha, heap[..], weight[..], parent[..], nHeap) && alpha < |fw| && Best(g, fw, alpha)
    ensures nHeap == nHeap0 - 1 && nNodes == nNodes0 + 1 == |g.root| - 1
    ensures LeavesPacked(weight[..], fw, alpha)
  {
    hide *;
    ghost var h0: seq<nat>, w, par := heap[..], weight[..], parent[..];
    BuildingSizes(f, fw, alpha, heap[..], w, par, nHeap0);
    var n1, n2 := TakeTwo(heap, weight, nHeap0, f, fw, alpha, par);
    nNodes := nNodes0 + 1;
    nHeap := nHeap0 - 2;
    ghost var h := heap[..];
    assert weight[..] == w && parent[..] == par;
    Attach(weight, parent, n1, n2, nNodes);
    assert heap[..] == h;
    g := Join(f, alpha, n1, n2);
    JoinKeeps(f, fw, alpha, n1, n2, h, nHeap, w, par, weight[..], parent[..]);
    nHeap := nHeap + 1;
    Push(heap, weight, nHeap - 1, nNodes);
    JoinedIs(t, f, alpha, h0, w, par, n1, n2, h, heap[..], weight[..], parent[..], nHeap0, nNodes);
    BuildingAgain(f, fw, alpha, g, heap[..], weight[..], parent[..], nHeap);
  }

  /** All that joining `n1` and `n2` keeps, before the new root is put on the heap. */
  lemma JoinKeeps(f: Forest, fw: seq<nat>, alpha: nat, n1: nat, n2: nat, h: seq<nat>, nHeap: nat, w: seq<nat>,
                  par: seq<int>,
                  w': seq<nat>, par': seq<int>)
    requires Shaped(f, alpha) && IsLive(f, n1) && IsLive(f, n2) && n1 != n2 && n1 < |f.root| < |w|
    requires n2 < |f.root| < |par|
    requires 1 <= alpha < |fw| && alpha < |f.root| && Weighed(f, fw, alpha) && Tall(f, alpha)
    requires Total(fw, alpha) < 0x80_0000
    requires Parents(f, par) && Packed(w, f) && LightTrees(f, alpha, n1, n2) && LeavesPacked(w, fw, alpha)
    requires Best(f, fw, alpha)
    requires nHeap < |h| && Heap(h, w, nHeap) && Entries(h, nHeap) == multiset(Live(f) - {n1, n2})
    requires w' == w[|f.root| := AddWeights(w[n1], w[n2])]
    requires par' == par[n1 := |f.root|][n2 := |f.root|][|f.root| := -1]
    ensures LeavesPacked(w', fw, alpha) && Heap(h, w', nHeap)
    ensures var g := Join(f, alpha, n1, n2);
            && Shaped(g, alpha) && Weighed(g, fw, alpha) && Tall(g, alpha) && Best(g, fw, alpha)
            && Parents(g, par') && Packed(w', g) && |g.root| == |f.root| + 1
            && multiset(Live(g)) == Entries(h, nHeap) + multiset{|f.root|}
  {
    hide *;
    LeavesPackedPrefix(w, w', fw, alpha);
    JoinAll(f, fw, alpha, n1, n2, w, par);
    LightFacts(f, alpha, n1, n2);
    JoinBest(f, fw, alpha, n1, n2);
    EntriesApart(h, nHeap, Live(f) - {n1, n2}, f, alpha);
    HeapFrame(h, w, nHeap, |f.root|, AddWeights(w[n1], w[n2]));
  }

  lemma BuildingSizes(f: Forest, fw: seq<nat>, alpha: nat, heap: seq<nat>, weight: seq<nat>, parent: seq<int>,
                      nHeap: nat)
    requires Building(f, fw, alpha, heap, weight, parent, nHeap)
    ensures 2 <= alpha <= MAX_ALPHA && |fw| == alpha + 1
    ensures |heap| == MAX_ALPHA + 2 && |weight| == 2 * MAX_ALPHA && |parent| == 2 * MAX_ALPHA
    ensures 1 <= nHeap && |f.root| + nHeap == 2 * alpha + 1 && alpha < |f.root|
    ensures Shaped(f, alpha) && Weighed(f, fw, alpha) && Tall(f, alpha)
    ensures Parents(f, parent) && Packed(weight, f) && heap[0] == 0 && Entries(heap, nHeap) == multiset(Live(f))
  {
  }

  lemma BuildingAgain(f: Forest, fw: seq<nat>, alpha: nat, g: Forest, heap: seq<nat>, weight: seq<nat>,
                      parent: seq<int>,
                      nHeap: nat)
    requires 2 <= alpha <= MAX_ALPHA && |fw| == alpha + 1
    requires |heap| == MAX_ALPHA + 2 && |weight| == 2 * MAX_ALPHA && |parent| == 2 * MAX_ALPHA
    requires Shaped(g, alpha) && Weighed(g, fw, alpha) && Tall(g, alpha)
    requires Parents(g, parent) && Packed(weight, g)
    requires 1 <= nHeap && |g.root| + nHeap == 2 * alpha + 1
    requires Heap(heap, weight, nHeap) && Entries(heap, nHeap) == multiset(Live(g))
    ensures Building(g, fw, alpha, heap, weight, parent, nHeap)
  {
  }

  lemma LiveBelow(f: Forest, alpha: nat, a: nat, b: nat)
    requires Shaped(f, alpha) && IsLive(f, a) && IsLive(f, b)
    ensures 1 <= a < |f.root| && 1 <= b < |f.root|
  {
  }

  lemma EntriesApart(h: seq<nat>, n: nat, live: set<nat>, f: Forest, alpha: nat)
    requires n < |h| && Entries(h, n) == multiset(live) && live <= Live(f) && Shaped(f, alpha)
    ensures forall z :: 1 <= z <= n ==> h[z] != |f.root|
  {
    forall z | 1 <= z <= n ensures h[z] != |f.root| {
      assert h[1..n + 1][z - 1] == h[z];
      assert h[z] in multiset(h[1..n + 1]);
      assert h[z] in live;
    }
  }

  lemma JoinAll(f: Forest, fw: seq<nat>, alpha: nat, a: nat, b: nat, weight: seq<nat>, parent: seq<int>)
    requires Shaped(f, alpha) && IsLive(f, a) && IsLive(f, b) && a != b && a < |weight| && b < |weight|
    requires alpha < |fw| && Weighed(f, fw, alpha) && Tall(f, alpha) && Total(fw, alpha) < 0x80_0000
    requires Parents(f, parent) && |f.root| < |parent| && Packed(weight, f) && |f.root| < |weight|
    requires LightTrees(f, alpha, a, b)
    ensures var g := Join(f, alpha, a, b);
            && Shaped(g, alpha) && Weighed(g, fw, alpha) && Tall(g, alpha)
            && Parents(g, parent[a := |f.root|][b := |f.root|][|f.root| := -1])
            && Packed(weight[|f.root| := AddWeights(weight[a], weight[b])], g)
            && |g.root| == |f.root| + 1
            && multiset(Live(g)) == multiset(Live(f) - {a, b}) + multiset{|f.root|}
  {
    JoinWeighed(f, fw, alpha, a, b);
    JoinTall(f, alpha, a, b);
    JoinParents(f, alpha, a, b, parent);
    JoinLive(f, alpha, a, b);
    JoinBounds(f, fw, alpha, a, b);
    JoinPacked(f, alpha, weight, a, b);
    assert |f.root| !in Live(f);
    assert |Join(f, alpha, a, b).root| == |f.root| + 1;
    hide Shaped, Weighed, Tall, Parents, Packed, IsLive, Join;
  }

  // ---------------------------------------------------------------- the builder as a function

  /** Heap, weights and parents, as far as they are in use. */
  datatype Trees = Trees(heap: seq<nat>, weight: seq<nat>, parent: seq<int>)

  /** The heap after node `v` came. */
  function Pushed(h: seq<nat>, w: seq<nat>, v: nat): (t: seq<nat>)
    ensures |t| == |h| + 1
  {
    Risen(h + [v], w, |h|, v)
  }

  /** The heap without its first entry. */
  function Popped(h: seq<nat>, w: seq<nat>): (t: seq<nat>)
    ensures |h| >= 2 ==> |t| == |h| - 1
  {
    if |h| < 2 then h
    else
      var n := |h| - 1;
      Sunk(Put(h, 1, h[n])[..n], w, 1, h[n])
  }

  function PutParent(p: seq<int>, k: nat, v: int): (q: seq<int>)
    ensures |q| == |p|
  {
    if k < |p| then p[k := v] else p
  }

  /** The two first entries are joined. */
  function Joined(t: Trees): (u: Trees)
    requires |t.heap| >= 3
    ensures |u.heap| == |t.heap| - 1
  {
    var n1, h1 := t.heap[1], Popped(t.heap, t.weight);
    var n2, h2 := h1[1], Popped(h1, t.weight);
    var c := |t.weight|;
    var w := t.weight + [AddWeights(At(t.weight, n1), At(t.weight, n2))];
    Trees(Pushed(h2, w, c), w, PutParent(PutParent(t.parent, n1, c), n2, c) + [-1])
  }

  function AllJoined(t: Trees): (u: Trees)
    decreases |t.heap|
  {
    if |t.heap| < 3 then t else AllJoined(Joined(t))
  }

  /** The weights of the leaves, behind the sentinel. */
  function LeafWeights(fw: seq<nat>): (w: seq<nat>)
    ensures |w| == |fw|
  {
    seq(|fw|, i requires 0 <= i < |fw| => if i == 0 then 0 else Pack(fw[i], 0))
  }

  /** The heap with the leaves 1 .. n. */
  function LeafHeap(w: seq<nat>, n: nat): (h: seq<nat>)
    ensures |h| == n + 1
  {
    if n == 0 then [0] else Pushed(LeafHeap(w, n - 1), w, n)
  }

  function LeafTrees(fw: seq<nat>): (t: Trees)
    requires fw != []
  {
    Trees(LeafHeap(LeafWeights(fw), |fw| - 1), LeafWeights(fw), [-2] + seq(|fw| - 1, _ => -1))
  }

  /** How many steps lead from a node to its root. */
  function StepsUp(p: seq<int>, k: nat): (d: nat)
    decreases |p| - k
  {
    if k < |p| && p[k] > k then 1 + StepsUp(p, p[k]) else 0
  }

  function LeafDepths(p: seq<int>, n: nat): (len: seq<nat>)
    ensures |len| == n
  {
    seq(n, i requires 0 <= i < n => StepsUp(p, i + 1))
  }

  /** The code lengths, for weights 1 .. |fw| - 1. */
  ghost function Lengths(fw: seq<nat>, maxLen: nat): (len: seq<nat>)
    requires fw != []
    decreases Total(fw, |fw| - 1)
  {
    var n := |fw| - 1;
    var len := LeafDepths(AllJoined(LeafTrees(fw)).parent, n);
    if (exists i :: 0 <= i < n && len[i] > maxLen) && Total(Scaled(fw), n) < Total(fw, n)
        then Lengths(Scaled(fw), maxLen)
    else len
  }

  /** What the builder makes of given frequencies. */
  ghost function CodeLengths(freq: seq<nat>, maxLen: nat): (len: seq<nat>)
  {
    Lengths(Effective(freq), maxLen)
  }

  /** The arrays hold heap, weights and parents. */
  ghost predicate Holds(t: Trees, heap: seq<nat>, weight: seq<nat>, parent: seq<int>, nHeap: nat, nNodes: nat)
  {
    && nHeap < |heap| && t.heap == heap[..nHeap + 1]
    && nNodes < |weight| && t.weight == weight[..nNodes + 1]
    && nNodes < |parent| && t.parent == parent[..nNodes + 1]
  }

  /** Every entry of the heap is a node in use. */
  ghost predicate InUse(h: seq<nat>, n: nat)
  {
    forall i :: 0 <= i < |h| ==> h[i] <= n
  }

  lemma EntriesInUse(f: Forest, alpha: nat, h: seq<nat>, n: nat)
    requires Shaped(f, alpha) && n < |h| && h[0] == 0 && Entries(h, n) == multiset(Live(f))
    ensures InUse(h[..n + 1], |f.root| - 1)
  {
    var t := h[..n + 1];
    forall z | 0 <= z < |t| ensures t[z] <= |f.root| - 1 {
      if z > 0 {
        assert h[1..n + 1][z - 1] == t[z];
        assert t[z] in Entries(h, n);
        assert t[z] in Live(f);
      }
    }
  }

  lemma {:induction false} RisenIn(h: seq<nat>, w: seq<nat>, z: nat, tmp: nat, n: nat)
    requires InUse(h, n) && tmp <= n
    ensures InUse(Risen(h, w, z, tmp), n)
    decreases z
  {
    if z > 0 && At(w, tmp) < At(w, At(h, z / 2)) {
      RisenIn(Put(h, z, At(h, z / 2)), w, z / 2, tmp, n);
    }
  }

  lemma {:induction false} SunkIn(h: seq<nat>, w: seq<nat>, z: nat, tmp: nat, n: nat)
    requires InUse(h, n) && tmp <= n
    ensures InUse(Sunk(h, w, z, tmp), n)
    decreases |h| - z
  {
    if z != 0 && 2 * z < |h| {
      var y := LighterOf(h, w, z);
      if At(w, tmp) >= At(w, At(h, y)) {
        SunkIn(Put(h, z, At(h, y)), w, y, tmp, n);
      }
    }
  }

  lemma PushedIn(h: seq<nat>, w: seq<nat>, v: nat, n: nat)
    requires InUse(h, n) && v <= n
    ensures InUse(Pushed(h, w, v), n)
  {
    RisenIn(h + [v], w, |h|, v, n);
  }

  lemma PoppedIn(h: seq<nat>, w: seq<nat>, n: nat)
    requires InUse(h, n) && |h| >= 2
    ensures InUse(Popped(h, w), n)
  {
    SunkIn(Put(h, 1, h[|h| - 1])[..|h| - 1], w, 1, h[|h| - 1], n);
  }

  /** Weights of nodes that are not in use do not count. */
  lemma PushedFrame(h: seq<nat>, w: seq<nat>, w': seq<nat>, v: nat)
    requires w <= w' && v < |w| && InUse(h, |w| - 1)
    ensures Pushed(h, w, v) == Pushed(h, w', v)
  {
    RisenFrame(h + [v], w, w', |h|, v);
  }

  lemma PoppedFrame(h: seq<nat>, w: seq<nat>, w': seq<nat>)
    requires w <= w' && w != [] && InUse(h, |w| - 1)
    ensures Popped(h, w) == Popped(h, w')
  {
    if |h| >= 2 {
      SunkFrame(Put(h, 1, h[|h| - 1])[..|h| - 1], w, w', 1, h[|h| - 1]);
    }
  }

  lemma {:induction false} LeafHeapIn(w: seq<nat>, n: nat)
    ensures InUse(LeafHeap(w, n), n)
  {
    if n > 0 {
      LeafHeapIn(w, n - 1);
      PushedIn(LeafHeap(w, n - 1), w, n, n);
    }
  }

  /** One leaf more on the heap. */
  lemma LeafHeapMore(fw: seq<nat>, w: seq<nat>, n: nat)
    requires LeafWeights(fw) <= w && n + 1 < |fw|
    ensures Pushed(LeafHeap(LeafWeights(fw), n), w, n + 1) == LeafHeap(LeafWeights(fw), n + 1)
  {
    LeafHeapIn(LeafWeights(fw), n);
    PushedFrame(LeafHeap(LeafWeights(fw), n), LeafWeights(fw), w, n + 1);
  }

  lemma LeafWeightsAre(w: seq<nat>, fw: seq<nat>, alpha: nat)
    requires LeavesPacked(w, fw, alpha) && w[0] == 0
    ensures LeafWeights(fw) <= w && w[..alpha + 1] == LeafWeights(fw)
  {
    assert w[..alpha + 1] == LeafWeights(fw);
  }

  /** One step of the builder, on the arrays. */
  lemma JoinedIs(t: Trees, f: Forest, alpha: nat, h0: seq<nat>, w: seq<nat>, par: seq<int>, n1: nat, n2: nat,
                 h2: seq<nat>, h3: seq<nat>, w': seq<nat>, par': seq<int>, n: nat, c: nat)
    requires Shaped(f, alpha) && c == |f.root| && c < |w| && c < |par| && n >= 2 && n < |h0| == |h2| == |h3|
    requires h0[0] == 0
    requires Entries(h0, n) == multiset(Live(f)) && Holds(t, h0, w, par, n, c - 1) && n1 < c && n2 < c
    requires n1 == h0[1] && n2 == Popped(h0[..n + 1], w)[1] && h2[..n - 1] == Popped(Popped(h0[..n + 1], w), w)
    requires w' == w[c := AddWeights(w[n1], w[n2])] && par' == par[n1 := c][n2 := c][c := -1]
    requires h3[..n] == Pushed(h2[..n - 1], w', c)
    ensures |t.heap| >= 3 && Holds(Joined(t), h3, w', par', n - 1, c)
  {
    hide Sunk, Risen, AddWeights, Shaped, Entries, Live;
    EntriesInUse(f, alpha, h0, n);
    var h := h0[..n + 1];
    var h1 := Popped(h, w);
    PoppedFrame(h, t.weight, w);
    PoppedIn(h, w, c - 1);
    PoppedFrame(h1, t.weight, w);
    PoppedIn(h1, w, c - 1);
    var v := t.weight + [AddWeights(w[n1], w[n2])];
    assert w'[..c + 1] == v;
    PushedFrame(h2[..n - 1], v, w', c);
    assert par'[..c + 1] == PutParent(PutParent(t.parent, n1, c), n2, c) + [-1];
  }

  // ---------------------------------------------------------------- one tree

  ghost function LeafSet(n: nat): (s: set<nat>)
    ensures forall k :: k in s <==> 1 <= k <= n
  {
    Below(n + 1) - {0}
  }

  /** The weights of the leaves are in place. */
  ghost predicate LeavesPacked(weight: seq<nat>, fw: seq<nat>, alpha: nat)
  {
    && alpha < |weight| && |fw| == alpha + 1
    && forall i :: 1 <= i <= alpha ==> fw[i] >= 1 && weight[i] == Pack(fw[i], 0)
  }

  lemma {:induction false} LeafBelowTotal(fw: seq<nat>, i: nat, k: nat)
    requires 1 <= i <= k < |fw|
    ensures fw[i] <= Total(fw, k)
  {
    if i < k {
      LeafBelowTotal(fw, i, k - 1);
    }
  }

  /** Puts every leaf on the heap. */
  method FillHeap(heap: array<nat>, weight: array<nat>, parent: array<int>, alphaSize: nat, ghost fw: seq<nat>)
    returns (nHeap: nat)
    requires heap != weight && 2 <= alphaSize <= MAX_ALPHA && heap.Length == MAX_ALPHA + 2
    requires weight.Length == 2 * MAX_ALPHA == parent.Length && LeavesPacked(weight[..], fw, alphaSize)
    requires Total(fw, alphaSize) < 0x80_0000
    modifies heap, weight, parent
    ensures nHeap == alphaSize && Building(Leaves(fw), fw, alphaSize, heap[..], weight[..], parent[..], nHeap)
    ensures LeavesPacked(weight[..], fw, alphaSize)
    ensures fw != [] && Holds(LeafTrees(fw), heap[..], weight[..], parent[..], nHeap, alphaSize)
  {
    hide Entries, Heap, LeavesPacked, LeafSet, Building, Leaves, Total, LeafHeap, LeafWeights, Pushed;
    nHeap := 0;
    ghost var w0 := weight[..];
    SetSentinels(heap, weight, parent);
    ghost var w := weight[..];
    LeavesPackedPrefix(w0, w, fw, alphaSize);
    LeavesSize(w, fw, alphaSize);
    LeafWeightsAre(w, fw, alphaSize);
    NoLeaves(LeafWeights(fw));
    assert heap[..1] == [0];
    for i := 1 to alphaSize + 1
      invariant heap[..i] == LeafHeap(LeafWeights(fw), i - 1) && parent[0] == -2
      invariant nHeap == i - 1 && weight[..] == w
      invariant Heap(heap[..], w, nHeap) && Entries(heap[..], nHeap) == multiset(LeafSet(nHeap))
      invariant forall k :: 1 <= k < i ==> parent[k] == -1
    {
      parent[i] := -1;
      nHeap := nHeap + 1;
      LeafHeapMore(fw, w, i - 1);
      Push(heap, weight, nHeap - 1, i);
      LeafSetStep(nHeap - 1);
    }
    BuildingFirst(fw, alphaSize, heap[..], w0, parent[..]);
    assert parent[..alphaSize + 1] == [-2] + seq(|fw| - 1, _ => -1);
  }

  /** Entry 0 of the heap and of the nodes is a sentinel. */
  method SetSentinels(heap: array<nat>, weight: array<nat>, parent: array<int>)
    requires heap != weight && heap.Length > 0 && weight.Length > 0 && parent.Length > 0
    modifies heap, weight, parent
    ensures weight[..] == old(weight[..])[0 := 0] && heap[0] == 0 && parent[0] == -2
    ensures Heap(heap[..], weight[..], 0) && Entries(heap[..], 0) == multiset(LeafSet(0))
  {
    heap[0] := 0;
    weight[0] := 0;
    parent[0] := -2;
    EmptyEntries(heap[..]);
  }

  lemma LeavesSize(w: seq<nat>, fw: seq<nat>, alpha: nat)
    requires LeavesPacked(w, fw, alpha)
    ensures |fw| == alpha + 1 && alpha < |w|
  {
  }

  lemma NoLeaves(w: seq<nat>)
    ensures LeafHeap(w, 0) == [0]
  {
  }

  lemma LeafSetStep(n: nat)
    ensures var s: set<nat> := LeafSet(n); var k: nat := n + 1;
            multiset(LeafSet(n + 1)) == multiset(s) + multiset{k}
  {
    assert LeafSet(n + 1) == LeafSet(n) + {n + 1};
  }

  lemma BuildingFirst(fw: seq<nat>, alpha: nat, heap: seq<nat>, w0: seq<nat>, parent: seq<int>)
    requires 2 <= alpha <= MAX_ALPHA && |heap| == MAX_ALPHA + 2
    requires |w0| == 2 * MAX_ALPHA == |parent| && LeavesPacked(w0, fw, alpha) && Total(fw, alpha) < 0x80_0000
    requires Heap(heap, w0[0 := 0], alpha) && Entries(heap, alpha) == multiset(LeafSet(alpha))
    requires forall k :: 1 <= k <= alpha ==> parent[k] == -1
    ensures Building(Leaves(fw), fw, alpha, heap, w0[0 := 0], parent, alpha)
  {
    LeavesOk(fw, alpha);
    forall k | 1 <= k <= alpha ensures w0[k] == Pack(fw[k], 0) < 0x8000_0000 {
      LeafBelowTotal(fw, k, alpha);
    }
    hide Entries, Heap, Weighed, Tall;
    assert Live(Leaves(fw)) == LeafSet(alpha);
  }

  lemma LeavesPackedPrefix(w: seq<nat>, w': seq<nat>, fw: seq<nat>, alpha: nat)
    requires LeavesPacked(w, fw, alpha) && |w'| == |w| && forall i :: 1 <= i <= alpha ==> w'[i] == w[i]
    ensures LeavesPacked(w', fw, alpha)
  {
  }

  lemma EmptyEntries(h: seq<nat>)
    requires |h| > 0
    ensures Entries(h, 0) == multiset(LeafSet(0))
  {
    assert h[1..1] == [];
    assert LeafSet(0) == {};
  }

  /** What is known of the one tree that is left. */
  ghost predicate Built(f: Forest, fw: seq<nat>, alpha: nat, parent: seq<int>, r: nat)
  {
    && 2 <= alpha && |fw| == alpha + 1
    && Shaped(f, alpha) && Parents(f, parent) && Weighed(f, fw, alpha) && Tall(f, alpha)
    && alpha < r && IsLive(f, r) && forall s :: IsLive(f, s) ==> s == r
  }

  /** Joins trees until one is left; neither array overflows (assertions 2001 and 2002 hold). */
  method BuildTree(heap: array<nat>, weight: array<nat>, parent: array<int>, alphaSize: nat, ghost fw: seq<nat>)
    returns (ghost f: Forest, ghost r: nat)
    requires heap != weight && 2 <= alphaSize <= MAX_ALPHA && heap.Length == MAX_ALPHA + 2
    requires weight.Length == 2 * MAX_ALPHA == parent.Length && LeavesPacked(weight[..], fw, alphaSize)
    requires Total(fw, alphaSize) < 0x80_0000
    modifies heap, weight, parent
    ensures Built(f, fw, alphaSize, parent[..], r) && Best(f, fw, alphaSize)
    ensures LeavesPacked(weight[..], fw, alphaSize)
    ensures fw != [] && |f.root| <= parent.Length && parent[..|f.root|] == AllJoined(LeafTrees(fw)).parent
  {
    hide *;
    var nNodes: nat := alphaSize;
    var nHeap := FillHeap(heap, weight, parent, alphaSize, fw);
    f := Leaves(fw);
    ghost var t := LeafTrees(fw);
    BuildingSizes(f, fw, alphaSize, heap[..], weight[..], parent[..], nHeap);
    LeavesBest(fw, alphaSize);
    while nHeap > 1
      invariant Holds(t, heap[..], weight[..], parent[..], nHeap, nNodes) && AllJoined(t) == AllJoined(LeafTrees(fw))
      invariant Building(f, fw, alphaSize, heap[..], weight[..], parent[..], nHeap) && alphaSize < |fw|
      invariant Best(f, fw, alphaSize)
      invariant nNodes + 1 == |f.root| && nNodes + nHeap == 2 * alphaSize && nHeap >= 1 && alphaSize <= nNodes
      invariant LeavesPacked(weight[..], fw, alphaSize)
    {
      nHeap, nNodes, f := JoinLightest(heap, weight, parent, nHeap, nNodes, f, fw, alphaSize, t);
      AllJoinedStep(t);
      t := Joined(t);
    }
    HoldsFacts(t, heap[..], weight[..], parent[..], nHeap, nNodes);
    AllJoinedStep(t);
    assert nNodes < 2 * MAX_ALPHA;
    r := OneLeft(f, fw, alphaSize, heap[..], weight[..], parent[..]);
  }

  lemma AllJoinedStep(t: Trees)
    ensures AllJoined(t) == if |t.heap| < 3 then t else AllJoined(Joined(t))
  {
  }

  lemma HoldsFacts(t: Trees, heap: seq<nat>, weight: seq<nat>, parent: seq<int>, nHeap: nat, nNodes: nat)
    requires Holds(t, heap, weight, parent, nHeap, nNodes)
    ensures |t.heap| == nHeap + 1 && nNodes < |parent| && t.parent == parent[..nNodes + 1]
  {
  }

  lemma OneLeft(f: Forest, fw: seq<nat>, alpha: nat, heap: seq<nat>, weight: seq<nat>, parent: seq<int>)
    returns (r: nat)
    requires Building(f, fw, alpha, heap, weight, parent, 1)
    ensures Built(f, fw, alpha, parent, r)
  {
    assert heap[1..2] == [heap[1]];
    assert Entries(heap, 1) == multiset{heap[1]};
    r := heap[1];
    assert r in multiset(Live(f));
    forall s | IsLive(f, s) ensures s == r {
      assert s in multiset(Live(f));
      assert s in multiset{r};
    }
    var c := |f.root| - 1;
    assert IsLive(f, f.root[c]);
    RootAfter(f, alpha, parent, c);
  }

  lemma {:induction false} RootAfter(f: Forest, alpha: nat, parent: seq<int>, k: nat)
    requires Shaped(f, alpha) && Parents(f, parent) && 1 <= k < |f.root|
    ensures f.root[k] >= k
    decreases |f.root| - k
  {
    if f.root[k] != k {
      RootAfter(f, alpha, parent, parent[k]);
    }
  }

  // ---------------------------------------------------------------- the lengths

  /** Follows every leaf up to the root. */
  method Depths(len: array<nat>, parent: array<int>, alphaSize: nat, maxLen: nat,
                ghost f: Forest, ghost fw: seq<nat>, ghost r: nat)
    returns (tooLong: bool)
    requires Built(f, fw, alphaSize, parent[..], r) && alphaSize <= len.Length && len as object != parent
    modifies len
    ensures forall i :: 0 <= i < alphaSize ==> len[i] == f.dep[i + 1]
    ensures |f.root| <= parent.Length && len[..alphaSize] == LeafDepths(parent[..|f.root|], alphaSize)
    ensures !tooLong ==> forall i :: 0 <= i < alphaSize ==> len[i] <= maxLen
    ensures tooLong ==> exists i :: 0 <= i < alphaSize && len[i] > maxLen
  {
    tooLong := false;
    ghost var long := 0;
    ghost var par := parent[..];
    for i := 1 to alphaSize + 1
      invariant parent[..] == par
      invariant forall k :: 0 <= k < i - 1 ==> len[k] == f.dep[k + 1]
      invariant !tooLong ==> forall k :: 0 <= k < i - 1 ==> len[k] <= maxLen
      invariant tooLong ==> 0 <= long < i - 1 && len[long] > maxLen
    {
      var j, k := 0, i;
      while parent[k] >= 0
        invariant 1 <= k < |f.root| && j + f.dep[k] == f.dep[i]
        decreases |f.root| - k
      {
        k := parent[k];
        j := j + 1;
      }
      len[i - 1] := j;
      if j > maxLen {
        tooLong := true;
        long := i - 1;
      }
    }
    DepthsAre(f, par, alphaSize, len[..alphaSize]);
  }

  lemma {:induction false} StepsAreDepth(f: Forest, par: seq<int>, k: nat)
    requires |f.dep| == |f.root| && Parents(f, par) && 1 <= k < |f.root|
    requires forall k :: 1 <= k < |f.root| ==> (f.root[k] == k <==> f.dep[k] == 0)
    ensures StepsUp(par[..|f.root|], k) == f.dep[k]
    decreases |f.root| - k
  {
    if f.root[k] != k {
      StepsAreDepth(f, par, par[k]);
    }
  }

  lemma DepthsAre(f: Forest, par: seq<int>, alpha: nat, len: seq<nat>)
    requires Shaped(f, alpha) && Parents(f, par) && |len| == alpha && forall i :: 0 <= i < alpha ==>
              len[i] == f.dep[i + 1]
    ensures len == LeafDepths(par[..|f.root|], alpha)
  {
    forall i | 0 <= i < alpha ensures len[i] == StepsUp(par[..|f.root|], i + 1) {
      StepsAreDepth(f, par, i + 1);
    }
  }

  lemma {:induction false} KraftIsOne(f: Forest, len: seq<nat>, r: nat, k: nat)
    requires k < |f.root| && k < |f.dep| && k <= |len|
    requires forall i :: 1 <= i <= k ==> f.root[i] == r && len[i - 1] == f.dep[i]
    ensures KraftSum(len, k) == Kraft(f.root, f.dep, r, k)
  {
    if k > 0 {
      KraftIsOne(f, len, r, k - 1);
    }
  }

  /** The lengths of a finished tree are those of a full code. */
  lemma FullCode(f: Forest, fw: seq<nat>, alpha: nat, parent: seq<int>, r: nat, len: seq<nat>)
    requires Built(f, fw, alpha, parent, r) && alpha <= |len|
    requires forall i :: 0 <= i < alpha ==> len[i] == f.dep[i + 1]
    ensures forall i :: 0 <= i < alpha ==> len[i] >= 1
    ensures KraftSum(len, alpha) == 1.0
  {
    forall i | 1 <= i <= alpha ensures f.root[i] == r && f.dep[i] >= 1 {
      assert IsLive(f, f.root[i]);
    }
    KraftIsOne(f, len, r, alpha);
  }

  /** When no weight exceeds 2, no code is longer than 12 bits. */
  lemma ShortCodes(f: Forest, fw: seq<nat>, alpha: nat, parent: seq<int>, r: nat, i: nat)
    requires Built(f, fw, alpha, parent, r) && alpha <= MAX_ALPHA && 1 <= i <= alpha
    requires forall k :: 1 <= k <= alpha ==> fw[k] <= 2
    ensures f.dep[i] <= 12
  {
    assert IsLive(f, f.root[i]);
    OneTree(f.root, fw, r, alpha);
    SmallTotal(fw, alpha);
    LightHeight(f.wt[r], f.ht[r]);
  }

  lemma {:induction false} SmallTotal(fw: seq<nat>, k: nat)
    requires k < |fw| && forall i :: 1 <= i <= k ==> fw[i] <= 2
    ensures Total(fw, k) <= 2 * k
  {
    if k > 0 {
      SmallTotal(fw, k - 1);
    }
  }

  /** The weights after one scaling, `j -> 1 + j/2`. */
  ghost function Scaled(fw: seq<nat>): (g: seq<nat>)
    ensures |g| == |fw| && forall i :: 0 <= i < |fw| ==> g[i] == 1 + fw[i] / 2
  {
    seq(|fw|, i requires 0 <= i < |fw| => 1 + fw[i] / 2)
  }

  ghost function ScaledTimes(fw: seq<nat>, n: nat): (g: seq<nat>)
    ensures |g| == |fw|
  {
    if n == 0 then fw else Scaled(ScaledTimes(fw, n - 1))
  }

  /** Scaling never adds weight, and takes some away as long as a weight exceeds 2. */
  lemma {:induction false} ScaledTotal(fw: seq<nat>, k: nat)
    requires k < |fw| && forall i :: 1 <= i <= k ==> fw[i] >= 1
    ensures Total(Scaled(fw), k) <= Total(fw, k)
    ensures (exists i :: 1 <= i <= k && fw[i] > 2) ==> Total(Scaled(fw), k) < Total(fw, k)
  {
    if k > 0 {
      ScaledTotal(fw, k - 1);
    }
  }

  method Rescale(weight: array<nat>, alphaSize: nat, ghost fw: seq<nat>)
    requires alphaSize < weight.Length && LeavesPacked(weight[..], fw, alphaSize)
    modifies weight
    ensures LeavesPacked(weight[..], Scaled(fw), alphaSize)
  {
    for i := 1 to alphaSize + 1
      invariant forall k :: 1 <= k < i ==> weight[k] == Pack(Scaled(fw)[k], 0)
      invariant forall k :: i <= k <= alphaSize ==> weight[k] == Pack(fw[k], 0)
    {
      var j := weight[i] / 256;
      assert j == fw[i];
      j := 1 + j / 2;
      weight[i] := j * 256;
    }
  }

  /** The weights the builder starts from: absent symbols count once. */
  ghost function Effective(freq: seq<nat>): (fw: seq<nat>)
    ensures |fw| == |freq| + 1 && forall i :: 1 <= i <= |freq| ==> fw[i] == if freq[i - 1] == 0 then 1 else freq[i - 1]
  {
    seq(|freq| + 1, i requires 0 <= i <= |freq| => if i == 0 then 0 else if freq[i - 1] == 0 then 1 else freq[i - 1])
  }

  lemma NoScaling(fw: seq<nat>)
    ensures ScaledTimes(fw, 0) == fw
  {
  }

  lemma OneScaling(fw: seq<nat>, n: nat)
    ensures ScaledTimes(fw, n + 1) == Scaled(ScaledTimes(fw, n))
  {
  }

  /** The weights with depth 0; absent symbols count once. */
  method PackWeights(freq: array<nat>, alphaSize: nat) returns (weight: array<nat>)
    requires alphaSize <= MAX_ALPHA && alphaSize <= freq.Length
    requires Total(Effective(freq[..alphaSize]), alphaSize) < 0x80_0000
    ensures fresh(weight) && weight.Length == 2 * MAX_ALPHA && MAX_ALPHA >= 0
    ensures LeavesPacked(weight[..], Effective(freq[..alphaSize]), alphaSize)
  {
    weight := new nat[2 * MAX_ALPHA];
    ghost var fw := Effective(freq[..alphaSize]);
    for i := 0 to alphaSize
      invariant forall k :: 1 <= k <= i ==> weight[k] == Pack(fw[k], 0)
    {
      weight[i + 1] := (if freq[i] == 0 then 1 else freq[i]) * 256;
    }
  }

  /** The weights ask for a scaling: they are heavy, and a shortest code for them is too long. */
  ghost predicate TooHeavy(fw: seq<nat>, alpha: nat, maxLen: nat)
    requires alpha < |fw|
  {
    && Total(fw, alpha) >= Fib(maxLen + 3)
    && exists len: seq<nat> :: IsTooLong(fw, alpha, maxLen, len)
  }

  ghost predicate IsTooLong(fw: seq<nat>, alpha: nat, maxLen: nat, len: seq<nat>)
    requires alpha < |fw|
  {
    |len| == alpha && Shortest(fw, len, alpha) && exists i :: 0 <= i < alpha && len[i] > maxLen
  }

  /** Only weights as heavy as a Fibonacci number make a code too long. */
  lemma LongIsHeavy(f: Forest, fw: seq<nat>, alpha: nat, parent: seq<int>, r: nat, len: seq<nat>, maxLen: nat)
    requires Built(f, fw, alpha, parent, r) && Best(f, fw, alpha) && |len| == alpha
    requires forall i :: 0 <= i < alpha ==> len[i] == f.dep[i + 1]
    requires exists i :: 0 <= i < alpha && len[i] > maxLen
    ensures TooHeavy(fw, alpha, maxLen)
  {
    BestShortest(f, fw, alpha, len);
    assert IsTooLong(fw, alpha, maxLen, len);
    hide Shortest, Best, IsTooLong, Fib, LeafSum, Total, Kraft;
    var i :| 0 <= i < alpha && len[i] > maxLen;
    assert IsLive(f, f.root[i + 1]);
    OneTree(f.root, fw, r, alpha);
    TallFacts(f, alpha);
    FibMonotone(maxLen + 3, f.ht[r] + 2);
  }

  /**
   Code lengths of a full prefix code (the shares of the codes add up to exactly 1), none
   longer than `maxLen`.  The builder ends: scaling stops at weights of 1 and 2, and those
   give no code over 12 bits, less than any `maxLen` in use.  No prefix code is shorter in all for
   the weights after the last scaling; those are the frequencies if there was none.  There is none
   for frequencies of less than a Fibonacci number in all, and each is due to weights for which
   a shortest code is too long.
   */
  method MakeCodeLengths(len: array<nat>, freq: array<nat>, alphaSize: nat, maxLen: nat) returns (ghost scalings: nat)
    requires len != freq && 2 <= alphaSize <= MAX_ALPHA && alphaSize <= freq.Length && alphaSize <= len.Length
    requires 12 <= maxLen
    requires Total(Effective(freq[..alphaSize]), alphaSize) < 0x80_0000
    modifies len
    ensures forall i :: 0 <= i < alphaSize ==> 1 <= len[i] <= maxLen
    ensures KraftSum(len[..alphaSize], alphaSize) == 1.0
    ensures Shortest(ScaledTimes(Effective(freq[..alphaSize]), scalings), len[..alphaSize], alphaSize)
    ensures len[..alphaSize] == CodeLengths(freq[..alphaSize], maxLen)
    ensures Total(Effective(freq[..alphaSize]), alphaSize) < Fib(maxLen + 3) ==> scalings == 0
    ensures forall k :: 0 <= k < scalings ==> TooHeavy(ScaledTimes(Effective(freq[..alphaSize]), k), alphaSize, maxLen)
  {
    hide *;
    var weight := PackWeights(freq, alphaSize);
    var heap, parent := new nat[MAX_ALPHA + 2], new int[2 * MAX_ALPHA];
    ghost var fw := Effective(freq[..alphaSize]);
    scalings := 0;
    ghost var eff := fw;
    NoScaling(fw);
    CodeLengthsAre(freq[..alphaSize], maxLen);
    while true
      invariant fw != [] && Lengths(fw, maxLen) == Lengths(eff, maxLen)
      invariant |fw| == alphaSize + 1 && LeavesPacked(weight[..], fw, alphaSize) && Total(fw, alphaSize) < 0x80_0000
      invariant |eff| == alphaSize + 1 && eff == Effective(freq[..alphaSize]) && fw == ScaledTimes(eff, scalings)
      invariant forall k :: 0 <= k < scalings ==> TooHeavy(ScaledTimes(eff, k), alphaSize, maxLen)
      decreases Total(fw, alphaSize)
    {
      ghost var f, r := BuildTree(heap, weight, parent, alphaSize, fw);
      var tooLong := Depths(len, parent, alphaSize, maxLen, f, fw, r);
      LengthsStep(fw, maxLen, len[..alphaSize]);
      if !tooLong {
        FullCode(f, fw, alphaSize, parent[..], r, len[..alphaSize]);
        BuiltSizes(f, fw, alphaSize, parent[..], r);
        BestShortest(f, fw, alphaSize, len[..alphaSize]);
        if scalings > 0 {
          NoScaling(eff);
          TooHeavyTotal(eff, alphaSize, maxLen);
        }
        break;
      }
      TooLongHeavy(f, fw, alphaSize, parent[..], r, len[..], maxLen, weight[..]);
      LongIsHeavy(f, fw, alphaSize, parent[..], r, len[..alphaSize], maxLen);
      Rescale(weight, alphaSize, fw);
      OneScaling(eff, scalings);
      fw := Scaled(fw);
      scalings := scalings + 1;
    }
  }

  lemma CodeLengthsAre(freq: seq<nat>, maxLen: nat)
    ensures CodeLengths(freq, maxLen) == Lengths(Effective(freq), maxLen)
  {
  }

  lemma LengthsStep(fw: seq<nat>, maxLen: nat, len: seq<nat>)
    requires fw != [] && len == LeafDepths(AllJoined(LeafTrees(fw)).parent, |fw| - 1)
    ensures Lengths(fw, maxLen)
            == if (exists i :: 0 <= i < |len| && len[i] > maxLen) && Total(Scaled(fw), |fw| - 1) < Total(fw, |fw| - 1)
               then Lengths(Scaled(fw), maxLen) else len
  {
    hide LeafDepths, AllJoined, LeafTrees, Scaled, Total;
  }

  lemma TooHeavyTotal(fw: seq<nat>, alpha: nat, maxLen: nat)
    requires alpha < |fw| && TooHeavy(fw, alpha, maxLen)
    ensures Total(fw, alpha) >= Fib(maxLen + 3)
  {
    hide Total, Fib, IsTooLong;
  }

  lemma BuiltSizes(f: Forest, fw: seq<nat>, alpha: nat, parent: seq<int>, r: nat)
    requires Built(f, fw, alpha, parent, r)
    ensures alpha < |f.dep|
  {
  }

  lemma TooLongHeavy(f: Forest, fw: seq<nat>, alpha: nat, parent: seq<int>, r: nat, len: seq<nat>, maxLen: nat,
                     w: seq<nat>)
    requires Built(f, fw, alpha, parent, r) && alpha <= |len| && alpha <= MAX_ALPHA && maxLen >= 12
    requires forall i :: 0 <= i < alpha ==> len[i] == f.dep[i + 1]
    requires exists i :: 0 <= i < alpha && len[i] > maxLen
    requires LeavesPacked(w, fw, alpha)
    ensures Total(Scaled(fw), alpha) < Total(fw, alpha)
  {
    var i :| 0 <= i < alpha && len[i] > maxLen;
    if forall k :: 1 <= k <= alpha ==> fw[k] <= 2 {
      ShortCodes(f, fw, alpha, parent, r, i + 1);
    }
    ScaledTotal(fw, alpha);
  }
}
