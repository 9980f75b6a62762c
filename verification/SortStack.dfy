/**
 The invariant of a quicksort that keeps its unfinished ranges on an explicit stack: two
 entries are in order already, or they lie together in a range on the stack.
 */
module SortStack {

  import opened Rearrange

  datatype Range = Range(lo: int, hi: int)
  {
    function Size(): int { hi - lo + 1 }
  }

  lemma SizeIs(r: Range)
    ensures r.Size() == r.hi - r.lo + 1
  {
  }

  ghost predicate Together(st: seq<Range>, p: int, q: int)
  {
    exists t :: 0 <= t < |st| && st[t].lo <= p && q <= st[t].hi
  }

  /** The entries of `lo .. hi` are in the order `le`, except inside ranges on the stack. */
  ghost predicate Settled(s: seq<nat>, le: (nat, nat) -> bool, st: seq<Range>, lo: int, hi: int)
    requires 0 <= lo && hi < |s|
  {
    forall p, q :: lo <= p <= q <= hi ==> le(s[p], s[q]) || Together(st, p, q)
  }

  ghost predicate Inside(st: seq<Range>, lo: int, hi: int)
  {
    forall t :: 0 <= t < |st| ==> lo <= st[t].lo <= st[t].hi + 1 && st[t].hi <= hi
  }

  ghost predicate Apart(st: seq<Range>)
  {
    forall t, u :: 0 <= t < u < |st| ==> st[t].hi < st[u].lo || st[u].hi < st[t].lo
  }

  /** How many entries a range at level `t` of the stack can have, for blocks of up to 900000 entries. */
  function Bound(t: nat): (b: real)
  {
    if t == 0 then 900000.0 else 0.6 * Bound(t - 1)
  }

  /** Deeper ranges are smaller by a constant factor at each level. */
  ghost predicate Shrinking(st: seq<Range>)
  {
    forall t :: 0 <= t < |st| ==> st[t].Size() as real <= Bound(t)
  }

  /** The top range `r` was rearranged and is replaced by the ranges `nu` in it. */
  lemma ReplaceTop(s: seq<nat>, s': seq<nat>, le: (nat, nat) -> bool, st: seq<Range>, r: Range, nu: seq<Range>,
                   lo: int, hi: int)
    requires 0 <= lo && hi < |s|
    requires Inside(st + [r], lo, hi) && Apart(st + [r]) && Settled(s, le, st + [r], lo, hi)
    requires Rearranged(s, s', r.lo, r.hi)
    requires forall p, q :: r.lo <= p <= q <= r.hi && 0 <= p && q < |s'| ==> le(s'[p], s'[q]) || Together(nu, p, q)
    ensures Settled(s', le, st + nu, lo, hi)
  {
    assert (st + [r])[|st|] == r;
    forall p, q | lo <= p <= q <= hi ensures le(s'[p], s'[q]) || Together(st + nu, p, q) {
      if r.lo <= p && q <= r.hi {
        if !le(s'[p], s'[q]) {
          var t :| 0 <= t < |nu| && nu[t].lo <= p && q <= nu[t].hi;
          assert (st + nu)[|st| + t] == nu[t];
        }
      } else {
        OutsideTop(s, s', le, st, r, nu, lo, hi, p, q);
      }
    }
  }

  /** Entries of which one is outside the top range. */
  lemma OutsideTop(s: seq<nat>, s': seq<nat>, le: (nat, nat) -> bool, st: seq<Range>, r: Range, nu: seq<Range>,
                   lo: int, hi: int, p: int, q: int)
    requires 0 <= lo && hi < |s| && lo <= p <= q <= hi && !(r.lo <= p && q <= r.hi)
    requires Inside(st + [r], lo, hi) && Apart(st + [r]) && Settled(s, le, st + [r], lo, hi)
    requires Rearranged(s, s', r.lo, r.hi)
    ensures |s'| == |s| && (le(s'[p], s'[q]) || Together(st + nu, p, q))
  {
    assert (st + [r])[|st|] == r;
    var p', q' := p, q;
    if r.lo <= p <= r.hi {
      p' := RearrangedFrom(s, s', r.lo, r.hi, p);
    }
    if r.lo <= q <= r.hi {
      q' := RearrangedFrom(s, s', r.lo, r.hi, q);
    }
    assert s'[p] == s[p'] && s'[q] == s[q'] && lo <= p' <= q' <= hi;
    if !le(s[p'], s[q']) {
      var t :| 0 <= t < |st + [r]| && (st + [r])[t].lo <= p' && q' <= (st + [r])[t].hi;
      if t < |st| {
        var u := (st + [r])[t];
        assert u.hi < r.lo || r.hi < u.lo;
        assert p == p' && q == q';
        assert (st + nu)[t] == u;
      }
    }
  }

  /** `nu` are disjoint parts of the range `r`, the largest first. */
  ghost predicate Parts(r: Range, nu: seq<Range>)
  {
    && (forall t :: 0 <= t < |nu| ==> r.lo <= nu[t].lo <= nu[t].hi + 1 && nu[t].hi <= r.hi)
    && Apart(nu)
  }

  lemma PartsInside(st: seq<Range>, r: Range, nu: seq<Range>, lo: int, hi: int)
    requires Inside(st + [r], lo, hi) && Apart(st + [r]) && Parts(r, nu)
    ensures Inside(st + nu, lo, hi) && Apart(st + nu)
  {
    var old' := st + [r];
    assert old'[|st|] == r;
    assert forall t :: 0 <= t < |st| ==> old'[t] == st[t];
  }

  /** Pushing the larger of two parts first keeps the levels shrinking. */
  lemma ShrinkTwo(st: seq<Range>, r: Range, a: Range, b: Range)
    requires Shrinking(st + [r])
    requires a.Size() + b.Size() <= r.Size() && a.Size() >= b.Size() >= 0
    ensures Shrinking(st + [a, b])
  {
    var old', new' := st + [r], st + [a, b];
    assert old'[|st|] == r && new'[|st|] == a && new'[|st| + 1] == b;
    assert forall t :: 0 <= t < |st| ==> new'[t] == old'[t];
  }

  /** Likewise for three parts in descending order of size. */
  lemma ShrinkThree(st: seq<Range>, r: Range, a: Range, b: Range, c: Range)
    requires Shrinking(st + [r])
    requires a.Size() + b.Size() + c.Size() <= r.Size() && a.Size() >= b.Size() >= c.Size() >= 0
    ensures Shrinking(st + [a, b, c])
  {
    var k := |st|;
    var old', new' := st + [r], st + [a, b, c];
    assert old'[k] == r && new'[k] == a && new'[k + 1] == b && new'[k + 2] == c;
    assert forall t :: 0 <= t < k ==> new'[t] == old'[t];
    assert Bound(k + 2) == 0.36 * Bound(k);
  }

  lemma DropTop(st: seq<Range>, r: Range, lo: int, hi: int)
    requires Inside(st + [r], lo, hi) && Apart(st + [r]) && Shrinking(st + [r])
    ensures Inside(st, lo, hi) && Apart(st) && Shrinking(st)
    ensures lo <= r.lo <= r.hi + 1 && r.hi <= hi && r.Size() as real <= Bound(|st|)
  {
    assert (st + [r])[|st|] == r;
    assert forall t :: 0 <= t < |st| ==> st[t] == (st + [r])[t];
  }

  lemma {:induction false} BoundShrinks(t: nat, u: nat)
    requires t <= u
    ensures 0.0 < Bound(u) <= Bound(t)
    decreases u - t, u
  {
    if t < u {
      BoundShrinks(t, u - 1);
    } else if u > 0 {
      BoundShrinks(t - 1, u - 1);
    }
  }

  /** From level 23 on a range has at most seven entries. */
  lemma DeepIsSmall(t: nat)
    requires t >= 23
    ensures Bound(t) < 8.0
  {
    BoundShrinks(23, t);
    assert Bound(6) == 41990.4;
    assert Bound(12) < 1960.0;
    assert Bound(18) < 91.5;
    assert Bound(23) < 8.0;
  }

  /** Bounds the work left on the stack. */
  function Weight(st: seq<Range>): (w: int)
  {
    if st == [] then 0 else Weight(st[..|st| - 1]) + 2 * st[|st| - 1].Size() + 1
  }

  lemma WeightPush(st: seq<Range>, r: Range)
    ensures Weight(st + [r]) == Weight(st) + 2 * r.Size() + 1
  {
    assert (st + [r])[..|st|] == st;
  }

  lemma {:induction false} WeightNat(st: seq<Range>, lo: int, hi: int)
    requires Inside(st, lo, hi)
    ensures Weight(st) >= |st|
  {
    if st != [] {
      WeightNat(st[..|st| - 1], lo, hi);
    }
  }

  lemma WeightTwo(st: seq<Range>, a: Range, b: Range)
    ensures Weight(st + [a, b]) == Weight(st) + 2 * (a.Size() + b.Size()) + 2
  {
    WeightPush(st, a);
    WeightPush(st + [a], b);
    assert st + [a] + [b] == st + [a, b];
  }
}
