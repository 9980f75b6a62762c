/**
 The quicksort of the fallback sorter (blocksort.c lines 30-180): `fmap` is ordered by
 `eclass[fmap[x]]`, with an explicit stack of ranges of 100 entries.
 */
module FallbackQSort {

  import opened Rotation
  import opened Rearrange
  import opened ThreeWay
  import opened SortStack
  import opened TotalSeqs

  const SMALL_THRESH := 10
  const STACK_SIZE := 100

  ghost predicate SortedBy(s: seq<nat>, key: seq<nat>, d: nat, lo: int, hi: int)
    requires Keyed(s, key, d)
  {
    forall x, y :: 0 <= lo <= x <= y <= hi < |s| ==> Key(key, d, s[x]) <= Key(key, d, s[y])
  }

  /** The state of one insertion of `s0[i]`: the hole is at `h`. */
  ghost predicate Inserting(s0: seq<nat>, s: seq<nat>, key: seq<nat>, i: int, h: int, step: nat)
    requires Keyed(s0, key, 0)
  {
    && |s| == |s0| && 0 <= i <= h < |s|
    && (forall x :: 0 <= x < i ==> s[x] == s0[x])
    && (forall x :: h < x < |s| ==> s[x] == s0[x])
    && multiset(s[h := s0[i]]) == multiset(s0)
    && (step == 1 ==> forall x :: i <= x < h ==> s[x] == s0[x + 1])
    && (step == 1 ==> forall x :: i < x <= h ==> Key(key, 0, s0[x]) < Key(key, 0, s0[i]))
  }

  lemma InsertingStart(s0: seq<nat>, key: seq<nat>, i: int, step: nat)
    requires Keyed(s0, key, 0) && 0 <= i < |s0|
    ensures Inserting(s0, s0, key, i, i, step)
  {
    assert s0[i := s0[i]] == s0;
  }

  lemma InsertingStep(s0: seq<nat>, s: seq<nat>, key: seq<nat>, i: int, h: int, j: int, step: nat)
    requires Keyed(s0, key, 0) && Inserting(s0, s, key, i, h, step) && step >= 1 && h + step == j < |s|
    requires Key(key, 0, s0[j]) < Key(key, 0, s0[i])
    ensures Inserting(s0, s[h := s[j]], key, i, j, step)
  {
    HoleMoves(s0, s, h, j, s0[i]);
    var t := s[h := s[j]];
    forall x | step == 1 && i <= x < j ensures t[x] == s0[x + 1] {
    }
  }

  lemma InsertingAhead(s0: seq<nat>, s: seq<nat>, key: seq<nat>, i: int, h: int, step: nat)
    requires Keyed(s0, key, 0) && Inserting(s0, s, key, i, h, step) && step >= 1
    ensures 0 <= i <= h < |s| == |s0|
    ensures h + step < |s| ==> s[h + step] == s0[h + step] < |key| && Key(key, 0, s0[h + step]) == key[s[h + step]]
  {
  }

  lemma InsertingDone(s0: seq<nat>, s: seq<nat>, key: seq<nat>, i: int, h: int, step: nat, hi: int)
    requires Keyed(s0, key, 0) && Inserting(s0, s, key, i, h, step) && h <= hi < |s|
    requires h + step <= hi ==> Key(key, 0, s0[i]) <= Key(key, 0, s0[h + step])
    ensures Rearranged(s0, s[h := s0[i]], i, hi) && Keyed(s[h := s0[i]], key, 0)
    ensures step == 1 && SortedBy(s0, key, 0, i + 1, hi) ==> SortedBy(s[h := s0[i]], key, 0, i, hi)
  {
    RearrangedKeyed(s0, s[h := s0[i]], i, hi, key, 0);
  }

  // What the loops do, as functions.

  /** Entries, and the index that the hole of an insertion is compared with next. */
  datatype Hole = Hole(a: seq<nat>, j: int)

  function Shifted(a: seq<nat>, key: seq<nat>, j: int, hi: int, step: nat, ecTmp: nat): (r: Hole)
    decreases hi - j
  {
    if step == 0 || j > hi || ecTmp <= At(key, At(a, j)) then Hole(a, j)
    else Shifted(Put(a, j - step, At(a, j)), key, j + step, hi, step, ecTmp)
  }

  function Inserted(a: seq<nat>, key: seq<nat>, i: int, hi: int, step: nat): (t: seq<nat>)
  {
    var h := Shifted(a, key, i + step, hi, step, At(key, At(a, i)));
    Put(h.a, h.j - step, At(a, i))
  }

  /** The insertions from index `i` down to `lo`. */
  function Pass(a: seq<nat>, key: seq<nat>, i: int, lo: int, hi: int, step: nat): (t: seq<nat>)
    decreases i - lo
  {
    if i < lo then a else Pass(Inserted(a, key, i, hi, step), key, i - 1, lo, hi, step)
  }

  function SimpleSorted(a: seq<nat>, key: seq<nat>, lo: int, hi: int): (t: seq<nat>)
  {
    if lo == hi then a
    else Pass(if hi - lo > 3 then Pass(a, key, hi - 4, lo, hi, 4) else a, key, hi - 1, lo, hi, 1)
  }

  /** The entries, the stack and the last number of the generator that picks the pivots. */
  datatype Sorter = Sorter(a: seq<nat>, st: seq<Range>, r: nat)

  function NextRandom(r: nat): (s: nat)
  {
    (r * 7621 + 1) % 32768
  }

  function PivotAt(r: nat, lo: int, hi: int): (at: int)
  {
    if r % 3 == 0 then lo else if r % 3 == 1 then (lo + hi) / 2 else hi
  }

  /** The top range sorted or divided. */
  function Turn(q: Sorter, key: seq<nat>): (t: Sorter)
    requires q.st != []
  {
    var top, rest := q.st[|q.st| - 1], q.st[..|q.st| - 1];
    var lo, hi := top.lo, top.hi;
    if hi - lo < SMALL_THRESH then Sorter(SimpleSorted(q.a, key, lo, hi), rest, q.r)
    else
      var r := NextRandom(q.r);
      var c := CutAt(q.a, key, 0, At(key, At(q.a, PivotAt(r, lo, hi))), lo, hi);
      if c.whole then Sorter(c.a, rest, r)
      else if c.n - lo > hi - c.m then Sorter(c.a, rest + [Range(lo, c.n), Range(c.m, hi)], r)
      else Sorter(c.a, rest + [Range(c.m, hi), Range(lo, c.n)], r)
  }

  /** All turns, as long as they leave less to do. */
  function AllTurns(q: Sorter, key: seq<nat>): (a: seq<nat>)
    decreases if Weight(q.st) < 0 then 0 else Weight(q.st)
  {
    if q.st == [] then q.a
    else
      var t := Turn(q, key);
      if 0 <= Weight(t.st) < Weight(q.st) then AllTurns(t, key) else t.a
  }

  function QSorted(a: seq<nat>, key: seq<nat>, lo: int, hi: int): (t: seq<nat>)
  {
    AllTurns(Sorter(a, [Range(lo, hi)], 0), key)
  }

  lemma ShiftedStep(a: seq<nat>, key: seq<nat>, j: int, hi: int, step: nat, ecTmp: nat)
    requires 1 <= step <= j && hi < |a| && (j <= hi ==> a[j] < |key|)
    ensures Shifted(a, key, j, hi, step, ecTmp)
            == if j > hi || ecTmp <= key[a[j]] then Hole(a, j)
               else Shifted(a[j - step := a[j]], key, j + step, hi, step, ecTmp)
  {
  }

  lemma InsertedIs(a: seq<nat>, key: seq<nat>, i: int, hi: int, step: nat)
    requires 0 <= i < |a| && a[i] < |key| && 1 <= step
    ensures var h := Shifted(a, key, i + step, hi, step, key[a[i]]);
            Inserted(a, key, i, hi, step) == if 0 <= h.j - step < |h.a| then h.a[h.j - step := a[i]] else h.a
  {
  }

  lemma PassStep(a: seq<nat>, key: seq<nat>, i: int, lo: int, hi: int, step: nat)
    ensures Pass(a, key, i, lo, hi, step)
            == if i < lo then a else Pass(Inserted(a, key, i, hi, step), key, i - 1, lo, hi, step)
  {
  }

  lemma TurnIs(q: Sorter, key: seq<nat>, rest: seq<Range>, lo: int, hi: int)
    requires q.st == rest + [Range(lo, hi)] && 0 <= lo && hi < |q.a|
    requires Keyed(q.a, key, 0)
    ensures hi - lo >= 10 ==> lo <= PivotAt(NextRandom(q.r), lo, hi) <= hi
    ensures hi - lo >= 10 ==> q.a[PivotAt(NextRandom(q.r), lo, hi)] < |key|
    ensures Turn(q, key)
            == if hi - lo < 10 then Sorter(SimpleSorted(q.a, key, lo, hi), rest, q.r)
               else
                 var r := NextRandom(q.r);
                 var c := CutAt(q.a, key, 0, key[q.a[PivotAt(r, lo, hi)]], lo, hi);
                 if c.whole then Sorter(c.a, rest, r)
                 else if c.n - lo > hi - c.m then Sorter(c.a, rest + [Range(lo, c.n), Range(c.m, hi)], r)
                 else Sorter(c.a, rest + [Range(c.m, hi), Range(lo, c.n)], r)
  {
    assert q.st[..|q.st| - 1] == rest;
    if hi - lo >= 10 {
      PivotIs(q.r, lo, hi);
    }
  }

  lemma TurnsStep(q: Sorter, key: seq<nat>, t: Sorter)
    requires q.st != [] && t == Turn(q, key) && 0 <= Weight(t.st) < Weight(q.st)
    ensures AllTurns(q, key) == AllTurns(t, key)
  {
  }

  lemma TurnsDone(q: Sorter, key: seq<nat>)
    ensures q.st == [] ==> AllTurns(q, key) == q.a
  {
  }

  method Move(a: array<nat>, to: nat, from: nat)
    requires to < a.Length && from < a.Length
    modifies a
    ensures a[..] == old(a[..])[to := old(a[from])]
  {
    a[to] := a[from];
  }

  /** Moves the hole of an insertion up past the smaller keys. */
  method Shift(fmap: array<nat>, eclass: array<nat>, ghost s0: seq<nat>, ghost key: seq<nat>,
               i: int, hi: int, step: nat, ecTmp: nat) returns (j: int)
    requires fmap != eclass && |key| <= eclass.Length && eclass[..|key|] == key && fmap[..] == s0 && Keyed(s0, key, 0)
    requires 0 <= i && i + step <= hi < fmap.Length && 1 <= step && ecTmp == Key(key, 0, s0[i])
    modifies fmap
    ensures i + step <= j <= hi + step
    ensures Inserting(s0, fmap[..], key, i, j - step, step)
    ensures j <= hi ==> ecTmp <= Key(key, 0, s0[j])
    ensures Hole(fmap[..], j) == Shifted(s0, key, i + step, hi, step, ecTmp)
  {
    hide *;
    j := i + step;
    ghost var h := i;
    InsertingStart(s0, key, i, step);
    InsertingAhead(s0, s0, key, i, h, step);
    ghost var all := Shifted(s0, key, i + step, hi, step, ecTmp);
    while j <= hi && ecTmp > eclass[fmap[j]]
      invariant |key| <= eclass.Length && eclass[..|key|] == key
      invariant i <= h <= hi && j == h + step
      invariant Inserting(s0, fmap[..], key, i, h, step)
      invariant j <= hi ==> fmap[j] == s0[j] < |key| && Key(key, 0, s0[j]) == key[fmap[j]]
      invariant all == Shifted(fmap[..], key, j, hi, step, ecTmp)
    {
      ghost var s := fmap[..];
      InsertingStep(s0, s, key, i, h, j, step);
      ShiftedStep(s, key, j, hi, step, ecTmp);
      Move(fmap, j - step, j);
      h := j;
      InsertingAhead(s0, fmap[..], key, i, h, step);
      j := j + step;
    }
    ShiftedStep(fmap[..], key, j, hi, step, ecTmp);
  }

  /** One insertion of fallbackSimpleSort, with stride 4 or 1. */
  method Insert(fmap: array<nat>, eclass: array<nat>, ghost key: seq<nat>, i: int, lo: int, hi: int, step: nat)
    requires fmap != eclass && |key| <= eclass.Length && eclass[..|key|] == key && Keyed(fmap[..], key, 0)
    requires 0 <= lo <= i && i + step <= hi < fmap.Length && 1 <= step
    modifies fmap
    ensures Rearranged(old(fmap[..]), fmap[..], lo, hi) && Keyed(fmap[..], key, 0)
    ensures step == 1 && SortedBy(old(fmap[..]), key, 0, i + 1, hi) ==> SortedBy(fmap[..], key, 0, i, hi)
    ensures fmap[..] == Inserted(old(fmap[..]), key, i, hi, step)
  {
    ghost var s0 := fmap[..];
    var tmp := fmap[i];
    var j := Shift(fmap, eclass, s0, key, i, hi, step, eclass[tmp]);
    InsertedIs(s0, key, i, hi, step);
    hide SortedBy, Rearranged, Inserting, Keyed, Inserted, Shifted;
    InsertingDone(s0, fmap[..], key, i, j - step, step, hi);
    fmap[j - step] := tmp;
    RearrangedWiden(s0, fmap[..], i, hi, lo, hi);
  }

  /** Two passes of insertions from the right, with strides 4 and 1. */
  method SimpleSort(fmap: array<nat>, eclass: array<nat>, ghost key: seq<nat>, lo: int, hi: int)
    requires fmap != eclass && |key| <= eclass.Length && eclass[..|key|] == key && Keyed(fmap[..], key, 0)
    requires 0 <= lo <= hi + 1 <= fmap.Length
    modifies fmap
    ensures Rearranged(old(fmap[..]), fmap[..], lo, hi) && Keyed(fmap[..], key, 0)
    ensures SortedBy(fmap[..], key, 0, lo, hi)
    ensures fmap[..] == SimpleSorted(old(fmap[..]), key, lo, hi)
  {
    hide Rearranged, Keyed, Pass, Inserted;
    ghost var s0 := fmap[..];
    RearrangedRefl(s0, lo, hi);
    if lo == hi {
      return;
    }
    var i: int;
    if hi - lo > 3 {
      i := hi - 4;
      while i >= lo
        invariant lo - 1 <= i <= hi - 4
        invariant |key| <= eclass.Length && eclass[..|key|] == key
        invariant Rearranged(s0, fmap[..], lo, hi) && Keyed(fmap[..], key, 0)
        invariant Pass(s0, key, hi - 4, lo, hi, 4) == Pass(fmap[..], key, i, lo, hi, 4)
      {
        ghost var before := fmap[..];
        PassStep(before, key, i, lo, hi, 4);
        Insert(fmap, eclass, key, i, lo, hi, 4);
        RearrangedTrans(s0, before, fmap[..], lo, hi);
        i := i - 1;
      }
      PassStep(fmap[..], key, i, lo, hi, 4);
    }
    ghost var s1 := fmap[..];
    i := hi - 1;
    while i >= lo
      invariant i <= hi - 1 && (i >= lo - 1 || hi < lo)
      invariant |key| <= eclass.Length && eclass[..|key|] == key
      invariant Rearranged(s0, fmap[..], lo, hi) && Keyed(fmap[..], key, 0)
      invariant SortedBy(fmap[..], key, 0, i + 1, hi)
      invariant Pass(s1, key, hi - 1, lo, hi, 1) == Pass(fmap[..], key, i, lo, hi, 1)
    {
      ghost var before := fmap[..];
      PassStep(before, key, i, lo, hi, 1);
      Insert(fmap, eclass, key, i, lo, hi, 1);
      RearrangedTrans(s0, before, fmap[..], lo, hi);
      i := i - 1;
    }
    PassStep(fmap[..], key, i, lo, hi, 1);
  }

  /** The order of the entries of `fmap`. */
  ghost function KeyOrder(key: seq<nat>): (le: (nat, nat) -> bool)
  {
    (v: nat, w: nat) => v < |key| && w < |key| && key[v] <= key[w]
  }

  /** What one range on the stack becomes: nothing more to do, or two smaller ranges. */
  ghost predicate Resolved(s: seq<nat>, key: seq<nat>, lo: int, hi: int, nu: seq<Range>)
  {
    forall p, q :: lo <= p <= q <= hi && 0 <= p && q < |s| ==> KeyOrder(key)(s[p], s[q]) || Together(nu, p, q)
  }

  lemma SortedResolved(s: seq<nat>, key: seq<nat>, lo: int, hi: int)
    requires Keyed(s, key, 0) && SortedBy(s, key, 0, lo, hi) && 0 <= lo && hi < |s|
    ensures Resolved(s, key, lo, hi, [])
  {
    forall p, q | lo <= p <= q <= hi && 0 <= p && q < |s| ensures KeyOrder(key)(s[p], s[q]) {
      assert Key(key, 0, s[p]) <= Key(key, 0, s[q]);
    }
  }

  lemma PartedResolved(s: seq<nat>, key: seq<nat>, med: nat, lo: int, n: int, m: int, hi: int, nu: seq<Range>)
    requires Keyed(s, key, 0) && Parted(s, key, 0, med, lo, n, m, hi)
    requires nu == [Range(lo, n), Range(m, hi)] || nu == [Range(m, hi), Range(lo, n)]
    ensures Resolved(s, key, lo, hi, nu)
    ensures Parts(Range(lo, hi), nu)
  {
    forall p, q | lo <= p <= q <= hi && 0 <= p && q < |s|
      ensures KeyOrder(key)(s[p], s[q]) || Together(nu, p, q)
    {
      assert 0 <= s[p] < |key| && 0 <= s[q] < |key|;
      if q <= n {
        assert nu[if nu[0] == Range(lo, n) then 0 else 1] == Range(lo, n);
      } else if p >= m {
        assert nu[if nu[0] == Range(m, hi) then 0 else 1] == Range(m, hi);
      } else {
        assert Key(key, 0, s[p]) <= med <= Key(key, 0, s[q]);
      }
    }
  }

  lemma EqualResolved(s: seq<nat>, key: seq<nat>, med: nat, lo: int, ltLo: int, unLo: int, gtHi: int, hi: int)
    requires Keyed(s, key, 0) && Parting(s, key, 0, med, lo, ltLo, unLo, unLo - 1, gtHi, hi)
    requires gtHi < ltLo
    ensures Resolved(s, key, lo, hi, [])
  {
    forall p, q | lo <= p <= q <= hi && 0 <= p && q < |s| ensures KeyOrder(key)(s[p], s[q]) {
      assert Key(key, 0, s[p]) == med && Key(key, 0, s[q]) == med;
    }
  }

  /** Partitions a range; `whole` when every key in it equals `med`. */
  method Split(fmap: array<nat>, eclass: array<nat>, ghost key: seq<nat>, med: nat, lo: int, hi: int)
    returns (whole: bool, n: int, m: int)
    requires fmap != eclass && |key| <= eclass.Length && eclass[..|key|] == key && Keyed(fmap[..], key, 0)
    requires 0 <= lo <= hi < fmap.Length
    requires Occurs(fmap[..], key, 0, med, lo, hi)
    modifies fmap
    ensures Rearranged(old(fmap[..]), fmap[..], lo, hi) && Keyed(fmap[..], key, 0)
    ensures whole ==> Resolved(fmap[..], key, lo, hi, [])
    ensures !whole ==> Parted(fmap[..], key, 0, med, lo, n, m, hi) && n + 1 < m
    ensures Cut(fmap[..], whole, n, m) == CutAt(old(fmap[..]), key, 0, med, lo, hi)
  {
    hide Rearranged, Keyed, Parting, Parted, Resolved, Occurs, PartFrom, Gathered;
    ghost var s0 := fmap[..];
    var ltLo, unLo, gtHi := Part(fmap, eclass, key, 0, med, lo, hi);
    if gtHi < ltLo {
      EqualResolved(fmap[..], key, med, lo, ltLo, unLo, gtHi, hi);
      return true, lo, hi;
    }
    ghost var s1 := fmap[..];
    n, m := Gather(fmap, eclass, key, 0, med, lo, ltLo, unLo, gtHi, hi);
    RearrangedTrans(s0, s1, fmap[..], lo, hi);
    OccursStill(s0, fmap[..], key, 0, med, lo, n, m, hi);
    whole := false;
  }

  /** The arrays hold the stack. */
  ghost predicate Mirrors(stackLo: seq<int>, stackHi: seq<int>, st: seq<Range>)
  {
    && |stackLo| == |stackHi| == STACK_SIZE && |st| <= STACK_SIZE
    && forall t :: 0 <= t < |st| ==> st[t] == Range(stackLo[t], stackHi[t])
  }

  method PushTwo(stackLo: array<int>, stackHi: array<int>, sp: nat, lz0: int, hz0: int, lz1: int, hz1: int,
                 ghost st: seq<Range>)
    requires stackLo != stackHi && Mirrors(stackLo[..], stackHi[..], st) && sp == |st| && sp + 2 <= STACK_SIZE
    modifies stackLo, stackHi
    ensures Mirrors(stackLo[..], stackHi[..], st + [Range(lz0, hz0), Range(lz1, hz1)])
  {
    stackLo[sp], stackHi[sp] := lz0, hz0;
    stackLo[sp + 1], stackHi[sp + 1] := lz1, hz1;
  }

  lemma MirrorsTop(stackLo: seq<int>, stackHi: seq<int>, st: seq<Range>)
    requires Mirrors(stackLo, stackHi, st) && st != []
    ensures |stackLo| == |stackHi| == STACK_SIZE && |st| <= STACK_SIZE
    ensures st[|st| - 1] == Range(stackLo[|st| - 1], stackHi[|st| - 1])
    ensures Mirrors(stackLo, stackHi, st[..|st| - 1])
  {
  }

  /** Everything that holds between two rounds of the main loop. */
  ghost predicate Sorting(s0: seq<nat>, s: seq<nat>, key: seq<nat>, st: seq<Range>, lo: int, hi: int)
  {
    && 0 <= lo <= hi + 1 <= |s|
    && Rearranged(s0, s, lo, hi) && Keyed(s, key, 0)
    && Inside(st, lo, hi) && Apart(st) && Shrinking(st)
    && Settled(s, KeyOrder(key), st, lo, hi)
  }

  lemma SortingStart(s: seq<nat>, key: seq<nat>, lo: int, hi: int)
    requires Keyed(s, key, 0) && 0 <= lo <= hi + 1 <= |s| && hi - lo < MAX_BLOCK
    ensures Sorting(s, s, key, [Range(lo, hi)], lo, hi)
  {
    var st := [Range(lo, hi)];
    forall p, q | lo <= p <= q <= hi ensures KeyOrder(key)(s[p], s[q]) || Together(st, p, q) {
      assert st[0].lo <= p && q <= st[0].hi;
    }
  }

  lemma SortingTop(s0: seq<nat>, s: seq<nat>, key: seq<nat>, st: seq<Range>, r: Range, lo: int, hi: int)
    requires Sorting(s0, s, key, st + [r], lo, hi)
    ensures Keyed(s, key, 0) && 0 <= lo <= r.lo <= r.hi + 1 && r.hi <= hi < |s|
    ensures r.hi - r.lo >= SMALL_THRESH ==> |st| < 23
  {
    DropTop(st, r, lo, hi);
    if |st| >= 23 {
      DeepIsSmall(|st|);
    }
  }

  lemma SortingStep(s0: seq<nat>, s: seq<nat>, s': seq<nat>, key: seq<nat>,
                    st: seq<Range>, r: Range, nu: seq<Range>, lo: int, hi: int)
    requires Sorting(s0, s, key, st + [r], lo, hi)
    requires Rearranged(s, s', r.lo, r.hi) && Keyed(s', key, 0)
    requires Resolved(s', key, r.lo, r.hi, nu)
    requires nu == [] || (|nu| == 2 && Parts(r, nu) && nu[0].Size() >= nu[1].Size()
                          && nu[0].Size() + nu[1].Size() <= r.Size())
    ensures Sorting(s0, s', key, st + nu, lo, hi)
    ensures Weight(st + nu) >= 0
  {
    DropTop(st, r, lo, hi);
    RearrangedWiden(s, s', r.lo, r.hi, lo, hi);
    RearrangedTrans(s0, s, s', lo, hi);
    ReplaceTop(s, s', KeyOrder(key), st, r, nu, lo, hi);
    PartsInside(st, r, nu, lo, hi);
    WeightNat(st + nu, lo, hi);
    if nu == [] {
      assert st + nu == st;
    } else {
      assert nu == [nu[0], nu[1]];
      ShrinkTwo(st, r, nu[0], nu[1]);
    }
  }

  lemma SortingDone(s0: seq<nat>, s: seq<nat>, key: seq<nat>, lo: int, hi: int)
    requires Sorting(s0, s, key, [], lo, hi)
    ensures Keyed(s, key, 0) && Rearranged(s0, s, lo, hi) && SortedBy(s, key, 0, lo, hi)
  {
    forall x, y | 0 <= lo <= x <= y <= hi < |s| ensures Key(key, 0, s[x]) <= Key(key, 0, s[y]) {
      assert KeyOrder(key)(s[x], s[y]) || Together([], x, y);
    }
  }

  lemma Constants()
    ensures STACK_SIZE == 100 && SMALL_THRESH == 10 && MAX_BLOCK == 900000
  {
  }

  lemma MirrorsFirst(lo: seq<int>, hi: seq<int>, r: Range)
    requires |lo| == |hi| == STACK_SIZE && lo[0] == r.lo && hi[0] == r.hi
    ensures Mirrors(lo, hi, [r])
  {
  }

  /**
   Sorts `fmap[loSt .. hiSt]` by `eclass`.  The stack of 100 ranges never overflows: the
   assertion on `sp` in the source (code 1004) cannot fail.
   */
  method QSort3(fmap: array<nat>, eclass: array<nat>, ghost key: seq<nat>, loSt: int, hiSt: int)
    requires fmap != eclass && |key| <= eclass.Length && eclass[..|key|] == key && Keyed(fmap[..], key, 0)
    requires 0 <= loSt <= hiSt + 1 <= fmap.Length && hiSt - loSt < MAX_BLOCK
    modifies fmap
    ensures Rearranged(old(fmap[..]), fmap[..], loSt, hiSt) && Keyed(fmap[..], key, 0)
    ensures SortedBy(fmap[..], key, 0, loSt, hiSt)
    ensures fmap[..] == QSorted(old(fmap[..]), key, loSt, hiSt)
  {
    hide *;
    Constants();
    ghost var s0 := fmap[..];
    var stackLo, stackHi := new int[STACK_SIZE], new int[STACK_SIZE];
    var r: nat := 0;
    ghost var st := [Range(loSt, hiSt)];
    QSortedIs(s0, key, loSt, hiSt);
    stackLo[0], stackHi[0] := loSt, hiSt;
    var sp := 1;
    SortingStart(s0, key, loSt, hiSt);
    MirrorsFirst(stackLo[..], stackHi[..], Range(loSt, hiSt));
    while sp > 0
      invariant |key| <= eclass.Length && eclass[..|key|] == key
      invariant Mirrors(stackLo[..], stackHi[..], st) && sp == |st| <= 24
      invariant Sorting(s0, fmap[..], key, st, loSt, hiSt)
      invariant QSorted(s0, key, loSt, hiSt) == AllTurns(Sorter(fmap[..], st, r), key)
      decreases Weight(st)
    {
      assert sp < STACK_SIZE - 1;
      MirrorsTop(stackLo[..], stackHi[..], st);
      sp := sp - 1;
      var lo, hi := stackLo[sp], stackHi[sp];
      ghost var top, rest, s := st[sp], st[..sp], fmap[..];
      assert st == rest + [top] && top == Range(lo, hi);
      WeightPush(rest, top);
      SizeIs(top);
      SortingTop(s0, s, key, rest, top, loSt, hiSt);
      ghost var q := Sorter(s, st, r);
      TurnIs(q, key, rest, lo, hi);
      if hi - lo < SMALL_THRESH {
        SimpleSort(fmap, eclass, key, lo, hi);
        SortedResolved(fmap[..], key, lo, hi);
        SortingStep(s0, s, fmap[..], key, rest, top, [], loSt, hiSt);
        st := rest;
        assert rest + [] == rest;
        TurnsStep(q, key, Sorter(fmap[..], st, r));
        continue;
      }
      r := (r * 7621 + 1) % 32768;
      var r3 := r % 3;
      var at := if r3 == 0 then lo else if r3 == 1 then (lo + hi) / 2 else hi;
      PivotIs(q.r, lo, hi);
      MedianOccurs(s, key, lo, hi, at);
      var med := eclass[fmap[at]];
      var whole, n, m := Split(fmap, eclass, key, med, lo, hi);
      if whole {
        SortingStep(s0, s, fmap[..], key, rest, top, [], loSt, hiSt);
        st := rest;
        assert rest + [] == rest;
        TurnsStep(q, key, Sorter(fmap[..], st, r));
        continue;
      }
      PartedBounds(fmap[..], key, med, lo, n, m, hi);
      SizeIs(Range(lo, n));
      SizeIs(Range(m, hi));
      if n - lo > hi - m {
        st := rest + [Range(lo, n), Range(m, hi)];
        PushTwo(stackLo, stackHi, sp, lo, n, m, hi, rest);
        PartedResolved(fmap[..], key, med, lo, n, m, hi, [Range(lo, n), Range(m, hi)]);
        SortingStep(s0, s, fmap[..], key, rest, top, [Range(lo, n), Range(m, hi)], loSt, hiSt);
        WeightTwo(rest, Range(lo, n), Range(m, hi));
      } else {
        st := rest + [Range(m, hi), Range(lo, n)];
        PushTwo(stackLo, stackHi, sp, m, hi, lo, n, rest);
        PartedResolved(fmap[..], key, med, lo, n, m, hi, [Range(m, hi), Range(lo, n)]);
        SortingStep(s0, s, fmap[..], key, rest, top, [Range(m, hi), Range(lo, n)], loSt, hiSt);
        WeightTwo(rest, Range(m, hi), Range(lo, n));
      }
      sp := sp + 2;
      TurnsStep(q, key, Sorter(fmap[..], st, r));
    }
    assert st == [];
    TurnsDone(Sorter(fmap[..], st, r), key);
    SortingDone(s0, fmap[..], key, loSt, hiSt);
  }

  lemma QSortedIs(a: seq<nat>, key: seq<nat>, lo: int, hi: int)
    ensures QSorted(a, key, lo, hi) == AllTurns(Sorter(a, [Range(lo, hi)], 0), key)
  {
  }

  lemma PivotIs(r: nat, lo: int, hi: int)
    requires lo <= hi
    ensures NextRandom(r) == (r * 7621 + 1) % 32768
    ensures var k := NextRandom(r) % 3;
            PivotAt(NextRandom(r), lo, hi) == if k == 0 then lo else if k == 1 then (lo + hi) / 2 else hi
    ensures lo <= PivotAt(NextRandom(r), lo, hi) <= hi
  {
  }

  lemma MedianOccurs(s: seq<nat>, key: seq<nat>, lo: int, hi: int, at: int)
    requires Keyed(s, key, 0) && 0 <= lo <= at <= hi < |s|
    ensures s[at] < |key| && Occurs(s, key, 0, key[s[at]], lo, hi)
  {
    assert Key(key, 0, s[at]) == key[s[at]];
  }

  lemma PartedBounds(s: seq<nat>, key: seq<nat>, med: nat, lo: int, n: int, m: int, hi: int)
    requires Keyed(s, key, 0) && Parted(s, key, 0, med, lo, n, m, hi)
    ensures 0 <= lo <= n + 1 <= m <= hi + 1 <= |s|
  {
  }
}
