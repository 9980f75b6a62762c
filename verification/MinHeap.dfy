/**
 The heap of tree nodes of the Huffman builder (huffman.c lines 33-59): entries 1 .. n of
 `heap` are ordered by `weight`, and entry 0 is a sentinel of weight 0.
 */
module MinHeap {

  import opened Rearrange
  import opened TotalSeqs

  ghost predicate Nodes(h: seq<nat>, w: seq<nat>, n: nat)
  {
    n < |h| && h[0] == 0 && |w| > 0 && w[0] == 0 && forall z :: 1 <= z <= n ==> h[z] < |w|
  }

  /** No entry weighs less than its parent. */
  ghost predicate Heap(h: seq<nat>, w: seq<nat>, n: nat)
  {
    Nodes(h, w, n) && forall z :: 2 <= z <= n ==> w[h[z / 2]] <= w[h[z]]
  }

  /** Only entry `y` may weigh less than its parent. */
  ghost predicate Rising(h: seq<nat>, w: seq<nat>, n: nat, y: nat)
  {
    && Nodes(h, w, n) && 1 <= y <= n
    && (forall z :: 2 <= z <= n && z != y ==> w[h[z / 2]] <= w[h[z]])
    && (forall z :: 2 <= z <= n && z / 2 == y && y >= 2 ==> w[h[y / 2]] <= w[h[z]])
  }

  lemma RiseStep(h: seq<nat>, w: seq<nat>, n: nat, y: nat)
    requires Rising(h, w, n, y) && w[h[y]] < w[h[y / 2]]
    ensures y >= 2
    ensures Rising(h[y := h[y / 2]][y / 2 := h[y]], w, n, y / 2)
  {
    assert y >= 2;
    var p := y / 2;
    var h' := h[y := h[p]][p := h[y]];
    forall z | 2 <= z <= n && z != p ensures w[h'[z / 2]] <= w[h'[z]] {
      if z / 2 == p && z != y {
        assert w[h[p]] <= w[h[z]];
      }
    }
    forall z | 2 <= z <= n && z / 2 == p && p >= 2 ensures w[h'[p / 2]] <= w[h'[z]] {
      assert w[h[p / 2]] <= w[h[p]];
      assert z != y ==> w[h[p]] <= w[h[z]];
    }
  }

  lemma RiseDone(h: seq<nat>, w: seq<nat>, n: nat, y: nat)
    requires Rising(h, w, n, y) && w[h[y]] >= w[h[y / 2]]
    ensures Heap(h, w, n)
  {
  }

  lemma RiseStart(h: seq<nat>, w: seq<nat>, n: nat)
    requires 1 <= n && Nodes(h, w, n) && Heap(h, w, n - 1)
    ensures Rising(h, w, n, n)
  {
  }

  lemma NodesFacts(h: seq<nat>, w: seq<nat>, n: nat)
    requires Nodes(h, w, n)
    ensures n < |h| && h[0] == 0 && |w| > 0 && w[0] == 0 && forall z :: 1 <= z <= n ==> h[z] < |w|
  {
  }

  lemma RisingNodes(h: seq<nat>, w: seq<nat>, n: nat, y: nat)
    requires Rising(h, w, n, y)
    ensures Nodes(h, w, n) && 1 <= y <= n && h[y / 2] < |w|
  {
  }

  /** The heap, entries 0 .. |h| - 1, after entry `z` has risen. */
  function Risen(h: seq<nat>, w: seq<nat>, z: nat, tmp: nat): (t: seq<nat>)
    ensures |t| == |h|
    decreases z
  {
    if z > 0 && At(w, tmp) < At(w, At(h, z / 2)) then Risen(Put(h, z, At(h, z / 2)), w, z / 2, tmp) else Put(h, z, tmp)
  }

  /** The last entry rises to its place. */
  method UpHeap(heap: array<nat>, weight: array<nat>, z: nat)
    requires heap != weight && 1 <= z && Nodes(heap[..], weight[..], z) && Heap(heap[..], weight[..], z - 1)
    modifies heap
    ensures Rearranged(old(heap[..]), heap[..], 1, z)
    ensures Heap(heap[..], weight[..], z)
    ensures z < heap.Length && heap[..z + 1] == Risen(old(heap[..])[..z + 1], weight[..], z, old(heap[..])[z])
  {
    hide *;
    ghost var s0: seq<nat>, w: seq<nat> := heap[..], weight[..];
    RiseStart(s0, w, z);
    RearrangedRefl(s0, 1, z);
    NodesFacts(s0, w, z);
    var zz: nat := z;
    var tmp := heap[zz];
    ghost var s: seq<nat> := s0;
    RisingNodes(s, w, z, zz);
    ghost var risen := Risen(s0[..z + 1], w, z, tmp);
    while weight[tmp] < weight[heap[zz / 2]]
      invariant risen == Risen(heap[..z + 1], w, zz, tmp)
      invariant weight[..] == w && |s| == heap.Length && Rearranged(s0, s, 1, z)
      invariant 1 <= zz <= z && s[zz] == tmp && heap[zz / 2] < |w|
      invariant forall x :: 0 <= x < |s| && x != zz ==> heap[x] == s[x]
      invariant Rising(s, w, z, zz)
      decreases zz
    {
      RiseStep(s, w, z, zz);
      SwapRearranges(s, zz, zz / 2, 1, z);
      ghost var s': seq<nat> := s[zz := s[zz / 2]][zz / 2 := s[zz]];
      RearrangedTrans(s0, s, s', 1, z);
      RisenStep(heap[..z + 1], w, zz, tmp);
      ghost var h: seq<nat> := heap[..];
      heap[zz] := heap[zz / 2];
      assert heap[..z + 1] == h[..z + 1][zz := h[..z + 1][zz / 2]];
      s := s';
      zz := zz / 2;
      RisingNodes(s, w, z, zz);
      NodesFacts(s, w, z);
    }
    RiseDone(s, w, z, zz);
    RisenStep(heap[..z + 1], w, zz, tmp);
    ghost var h: seq<nat> := heap[..];
    heap[zz] := tmp;
    assert heap[..] == s;
    assert heap[..z + 1] == h[..z + 1][zz := tmp];
  }

  lemma RisenStep(h: seq<nat>, w: seq<nat>, z: nat, tmp: nat)
    requires 1 <= z < |h| && tmp < |w| && h[z / 2] < |w|
    ensures Risen(h, w, z, tmp) == if w[tmp] < w[h[z / 2]] then Risen(h[z := h[z / 2]], w, z / 2, tmp) else h[z := tmp]
  {
  }

  /** Only the weights of the entries count. */
  lemma {:induction false} RisenFrame(h: seq<nat>, w: seq<nat>, w': seq<nat>, z: nat, tmp: nat)
    requires At(w, tmp) == At(w', tmp) && At(w, 0) == At(w', 0) && forall x :: x in h ==> At(w, x) == At(w', x)
    ensures Risen(h, w, z, tmp) == Risen(h, w', z, tmp)
    decreases z
  {
    if z > 0 && At(w, tmp) < At(w, At(h, z / 2)) {
      RisenFrame(Put(h, z, At(h, z / 2)), w, w', z / 2, tmp);
    }
  }

  /** Only the children of entry `y` may weigh less than it. */
  ghost predicate Sinking(h: seq<nat>, w: seq<nat>, n: nat, y: nat)
  {
    && Nodes(h, w, n) && 1 <= y < |h|
    && (forall z :: 2 <= z <= n && z / 2 != y ==> w[h[z / 2]] <= w[h[z]])
    && (forall z :: 2 <= z <= n && z / 2 == y && y >= 2 ==> w[h[y / 2]] <= w[h[z]])
  }

  lemma SinkStep(h: seq<nat>, w: seq<nat>, n: nat, y: nat, c: nat)
    requires Sinking(h, w, n, y) && c / 2 == y && c <= n && w[h[c]] <= w[h[y]]
    requires forall z :: 2 <= z <= n && z / 2 == y ==> w[h[c]] <= w[h[z]]
    ensures Sinking(h[y := h[c]][c := h[y]], w, n, c)
  {
    var h' := h[y := h[c]][c := h[y]];
    forall z | 2 <= z <= n && z / 2 != c ensures w[h'[z / 2]] <= w[h'[z]] {
      if z == y {
        assert w[h[y / 2]] <= w[h[c]];
      }
    }
    forall z | 2 <= z <= n && z / 2 == c ensures w[h'[c / 2]] <= w[h'[z]] {
      assert w[h[z / 2]] <= w[h[z]];
    }
  }

  lemma SinkDone(h: seq<nat>, w: seq<nat>, n: nat, y: nat)
    requires Sinking(h, w, n, y)
    requires forall z :: 2 <= z <= n && z / 2 == y ==> w[h[y]] <= w[h[z]]
    ensures Heap(h, w, n)
  {
  }

  lemma SinkNodes(h: seq<nat>, w: seq<nat>, n: nat, y: nat)
    requires Sinking(h, w, n, y)
    ensures Nodes(h, w, n) && 1 <= y < |h|
  {
  }

  /** The lighter child of entry `z`. */
  function LighterOf(h: seq<nat>, w: seq<nat>, z: nat): (y: nat)
    ensures y / 2 == z
  {
    if 2 * z + 1 < |h| && At(w, At(h, 2 * z + 1)) < At(w, At(h, 2 * z)) then 2 * z + 1 else 2 * z
  }

  /** The heap, entries 0 .. |h| - 1, after entry `z` has sunk. */
  function Sunk(h: seq<nat>, w: seq<nat>, z: nat, tmp: nat): (t: seq<nat>)
    ensures |t| == |h|
    decreases |h| - z
  {
    if z == 0 || 2 * z >= |h| then Put(h, z, tmp)
    else
      var y := LighterOf(h, w, z);
      if At(w, tmp) < At(w, At(h, y)) then Put(h, z, tmp) else Sunk(Put(h, z, At(h, y)), w, y, tmp)
  }

  lemma SunkStep(h: seq<nat>, w: seq<nat>, z: nat, tmp: nat)
    requires 1 <= z && tmp < |w| && forall x :: 1 <= x < |h| ==> h[x] < |w|
    ensures 2 * z >= |h| ==> Sunk(h, w, z, tmp) == Put(h, z, tmp)
    ensures 2 * z < |h| ==>
              var y := LighterOf(h, w, z);
              y < |h| && Sunk(h, w, z, tmp) == if w[tmp] < w[h[y]] then h[z := tmp] else Sunk(h[z := h[y]], w, y, tmp)
  {
  }

  lemma {:induction false} SunkFrame(h: seq<nat>, w: seq<nat>, w': seq<nat>, z: nat, tmp: nat)
    requires At(w, tmp) == At(w', tmp) && At(w, 0) == At(w', 0) && forall x :: x in h ==> At(w, x) == At(w', x)
    ensures Sunk(h, w, z, tmp) == Sunk(h, w', z, tmp)
    decreases |h| - z
  {
    if z != 0 && 2 * z < |h| {
      var y := LighterOf(h, w, z);
      assert y == LighterOf(h, w', z);
      if At(w, tmp) >= At(w, At(h, y)) {
        SunkFrame(Put(h, z, At(h, y)), w, w', y, tmp);
      }
    }
  }

  /** The lighter child of entry `zz`. */
  method Lighter(heap: array<nat>, weight: array<nat>, nHeap: nat, zz: nat, ghost s: seq<nat>) returns (yy: nat)
    requires 1 <= zz && 2 * zz <= nHeap && Nodes(s, weight[..], nHeap) && |s| == heap.Length
    requires forall z :: 0 <= z < |s| && z != zz ==> heap[z] == s[z]
    ensures yy / 2 == zz && yy <= nHeap
    ensures forall z :: 2 <= z <= nHeap && z / 2 == zz ==> weight[s[yy]] <= weight[s[z]]
    ensures yy == LighterOf(heap[..nHeap + 1], weight[..], zz)
  {
    yy := zz * 2;
    if yy < nHeap && weight[heap[yy + 1]] < weight[heap[yy]] {
      yy := yy + 1;
    }
  }

  /** The first entry sinks to its place. */
  method DownHeap(heap: array<nat>, weight: array<nat>, nHeap: nat)
    requires heap != weight && 1 < heap.Length && Nodes(heap[..], weight[..], nHeap)
    requires heap[1] < weight.Length && Sinking(heap[..], weight[..], nHeap, 1)
    modifies heap
    ensures Rearranged(old(heap[..]), heap[..], 1, nHeap)
    ensures Heap(heap[..], weight[..], nHeap)
    ensures nHeap < heap.Length
    ensures heap[..nHeap + 1] == Sunk(old(heap[..])[..nHeap + 1], weight[..], 1, old(heap[..])[1])
  {
    hide *;
    ghost var s0: seq<nat>, w: seq<nat> := heap[..], weight[..];
    RearrangedRefl(s0, 1, nHeap);
    var zz: nat := 1;
    var tmp := heap[zz];
    ghost var s: seq<nat> := s0;
    SinkNodes(s0, w, nHeap, 1);
    NodesFacts(s0, w, nHeap);
    ghost var sunk := Sunk(s0[..nHeap + 1], w, 1, tmp);
    while true
      invariant sunk == Sunk(heap[..nHeap + 1], w, zz, tmp) && nHeap < heap.Length
      invariant weight[..] == w && |s| == heap.Length && Rearranged(s0, s, 1, nHeap)
      invariant 1 <= zz && (zz == 1 || zz <= nHeap) && zz < heap.Length && s[zz] == tmp < |w|
      invariant forall x :: 0 <= x < |s| && x != zz ==> heap[x] == s[x]
      invariant Sinking(s, w, nHeap, zz) && Nodes(s, w, nHeap) && forall x :: 1 <= x <= nHeap ==> heap[x] < |w|
      decreases nHeap + 1 - zz
    {
      ghost var h: seq<nat> := heap[..nHeap + 1];
      NodesFacts(s, w, nHeap);
      SunkStep(h, w, zz, tmp);
      if zz * 2 > nHeap {
        SinkDone(s, w, nHeap, zz);
        PutIs(h, zz, tmp);
        break;
      }
      var yy := Lighter(heap, weight, nHeap, zz, s);
      assert heap[yy] == s[yy];
      if weight[tmp] < weight[heap[yy]] {
        SinkDone(s, w, nHeap, zz);
        PutIs(h, zz, tmp);
        break;
      }
      SinkStep(s, w, nHeap, zz, yy);
      SwapRearranges(s, zz, yy, 1, nHeap);
      ghost var s': seq<nat> := s[zz := s[yy]][yy := s[zz]];
      RearrangedTrans(s0, s, s', 1, nHeap);
      heap[zz] := heap[yy];
      assert heap[..nHeap + 1] == h[zz := h[yy]];
      s := s';
      zz := yy;
      SinkNodes(s, w, nHeap, zz);
    }
    ghost var h: seq<nat> := heap[..nHeap + 1];
    assert sunk == if zz <= nHeap then h[zz := tmp] else h;
    heap[zz] := tmp;
    assert heap[..] == s;
    assert heap[..nHeap + 1] == if zz <= nHeap then h[zz := tmp] else h;
  }

  lemma PutIs(h: seq<nat>, z: nat, v: nat)
    ensures Put(h, z, v) == if z < |h| then h[z := v] else h
  {
  }

  /** The first entry is a lightest one. */
  lemma {:induction false} HeapMin(h: seq<nat>, w: seq<nat>, n: nat, z: nat)
    requires Heap(h, w, n) && 1 <= z <= n
    ensures w[h[1]] <= w[h[z]]
  {
    if z > 1 {
      HeapMin(h, w, n, z / 2);
    }
  }
}
