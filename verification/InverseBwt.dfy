/**
 Undoing the block sort (decompress.c, the two T^(-1) constructions).

 From the last column `l` of the sorted rotations the decoder rebuilds, for every row, the
 row of the rotation that starts one byte later, and follows these links from `origPtr`.
 */
module InverseBwt {

  import opened Rotation
  import opened Counting
  import opened Words

  /** The row reached after `k` further links: the value of `tPos` before fetch `k` in FAST mode. */
  function Row(t: seq<nat>, o: nat, k: nat): (r: nat)
    requires o < |t| && forall x :: 0 <= x < |t| ==> t[x] < |t|
    ensures r < |t|
  {
    if k == 0 then t[o] else t[Row(t, o, k - 1)]
  }

  // ---------------------------------------------------------------- the transform and its inverse

  /** The rotations of which the rows are the predecessors, in the order the distribution gives them. */
  ghost function Predecessors(b: seq<byte>, p: seq<nat>, t: seq<nat>): (q: seq<nat>)
    requires Perm(p, |b|) && |t| == |b| && forall x :: 0 <= x < |t| ==> t[x] < |t|
    ensures |q| == |b|
    ensures forall y :: 0 <= y < |b| ==> q[y] == Prev(|b|, p[t[y]])
  {
    seq(|b|, y requires 0 <= y < |b| => Prev(|b|, p[t[y]]))
  }

  /** Stepping every rotation back by one byte and distributing stably keeps the rows sorted. */
  lemma PredecessorsSorted(b: seq<byte>, p: seq<nat>, t: seq<nat>)
    requires Sorted(b, p) && Inverts(LastColumn(b, p), t)
    ensures forall x :: 0 <= x < |t| ==> t[x] < |t|
    ensures Sorted(b, Predecessors(b, p, t))
  {
    var n, l := |b|, LastColumn(b, p);
    InvertsClosed(l, t);
    var q := Predecessors(b, p, t);
    forall x, y | 0 <= x <= y < n
      ensures Le(b, q[x], q[y])
      ensures x < y ==> q[x] != q[y]
    {
      Source(l, t, x);
      Source(l, t, y);
      var i, j := t[x], t[y];
      if x == y {
        CmpRefl(b, q[x], n);
      } else {
        if l[i] > l[j] || (l[i] == l[j] && i > j) {
          LFOrder(l, j, i);
        }
        LePrev(b, p[i], p[j]);
        assert p[i] != p[j];
      }
    }
  }

  /** Following a link steps to (a rotation equal to) the rotation that starts one byte later. */
  lemma LinkIsNext(b: seq<byte>, p: seq<nat>, t: seq<nat>, y: nat)
    requires Sorted(b, p) && Inverts(LastColumn(b, p), t) && y < |b|
    ensures t[y] < |b| && Equal(b, p[t[y]], Next(|b|, p[y]))
  {
    PredecessorsSorted(b, p, t);
    var q := Predecessors(b, p, t);
    SortedUnique(b, q, p, y);
    EqualNext(b, q[y], p[y]);
  }

  lemma EqualTrans(b: seq<byte>, i: nat, j: nat, k: nat)
    requires i < |b| && j < |b| && k < |b| && Equal(b, i, j) && Equal(b, j, k)
    ensures Equal(b, i, k)
  {
    CmpTrans(b, i, j, k, |b|);
    CmpAntisym(b, i, j, |b|);
    CmpAntisym(b, j, k, |b|);
    CmpAntisym(b, i, k, |b|);
    CmpTrans(b, k, j, i, |b|);
  }

  lemma {:induction false} RowIsRotation(b: seq<byte>, p: seq<nat>, t: seq<nat>, o: nat, k: nat)
    requires Sorted(b, p) && Inverts(LastColumn(b, p), t) && o < |b| && Equal(b, p[o], 0)
    ensures forall x :: 0 <= x < |t| ==> t[x] < |t|
    ensures Equal(b, p[Row(t, o, k)], Advance(|b|, 0, k + 1))
  {
    InvertsClosed(LastColumn(b, p), t);
    if k == 0 {
      LinkIsNext(b, p, t, o);
      EqualNext(b, p[o], 0);
      EqualTrans(b, p[t[o]], Next(|b|, p[o]), Next(|b|, 0));
      assert Advance(|b|, 0, 1) == Next(|b|, 0);
    } else {
      RowIsRotation(b, p, t, o, k - 1);
      var y, a := Row(t, o, k - 1), Advance(|b|, 0, k);
      LinkIsNext(b, p, t, y);
      EqualNext(b, p[y], a);
      EqualTrans(b, p[t[y]], Next(|b|, p[y]), Next(|b|, a));
      AdvanceAdd(|b|, 0, k, 1);
      assert Next(|b|, a) == Advance(|b|, a, 1);
    }
  }

  lemma FetchIsAdvance(b: seq<byte>, p: seq<nat>, t: seq<nat>, o: nat, k: nat)
    requires Sorted(b, p) && Inverts(LastColumn(b, p), t) && o < |b| && Equal(b, p[o], 0)
    ensures forall x :: 0 <= x < |t| ==> t[x] < |t|
    ensures LastColumn(b, p)[Row(t, o, k)] == b[Advance(|b|, 0, k)]
  {
    hide *;
    var n := |b|;
    SortedPerm(b, p);
    InvertsClosed(LastColumn(b, p), t);
    RowIsRotation(b, p, t, o, k);
    EqualPrev(b, p[Row(t, o, k)], Advance(n, 0, k + 1));
    AdvanceAdd(n, 0, k, 1);
    AdvanceOne(n, Advance(n, 0, k));
    PrevOfNext(n, Advance(n, 0, k));
  }

  /**
   The inverse transform: for any sorted order of the rotations, and from any row that is equal
   to the block itself, fetch number `k` yields byte `k` of the block.
   */
  lemma FetchIsBlock(b: seq<byte>, p: seq<nat>, t: seq<nat>, o: nat, k: nat)
    requires Sorted(b, p) && Inverts(LastColumn(b, p), t) && o < |b| && Equal(b, p[o], 0)
    ensures forall x :: 0 <= x < |t| ==> t[x] < |t|
    ensures LastColumn(b, p)[Row(t, o, k)] == b[k % |b|]
  {
    hide *;
    FetchIsAdvance(b, p, t, o, k);
    AdvanceMod(|b|, k);
  }

  lemma AdvanceOne(n: nat, i: nat)
    requires i < n
    ensures Advance(n, i, 1) == Next(n, i)
  {
    assert Advance(n, Next(n, i), 0) == Next(n, i);
  }

  lemma {:induction false} AdvanceMod(n: nat, k: nat)
    requires n > 0
    ensures Advance(n, 0, k) == k % n
  {
    if k > 0 {
      AdvanceMod(n, k - 1);
      AdvanceAdd(n, 0, k - 1, 1);
      assert Advance(n, 0, k) == Next(n, (k - 1) % n);
      ModNext(n, k - 1);
    }
  }

  lemma ModNext(n: nat, k: nat)
    requires n > 0
    ensures (k + 1) % n == Next(n, k % n)
  {
    var q, r := k / n, k % n;
    DivMod(k, n);
    if r + 1 == n {
      MulStep(q, n);
      DivUnique(k + 1, n, q + 1, 0);
    } else {
      DivUnique(k + 1, n, q, r + 1);
    }
  }
}
