/**
 mainQSort3 (blocksort.c lines 565-717): three-way quicksort of rotations, one symbol at a
 time, with an explicit stack of 100 ranges and depths, given up when the budget runs out.
 */
module MainQSort {

  import opened Rotation
  import opened Rearrange
  import opened ThreeWay
  import opened SortStack
  import opened MainCompare
  import opened MainSimpleSort
  import opened TotalSeqs

  const SMALL_THRESH := 20
  const STACK_SIZE := 100

  /** A range on the stack, with the number of symbols on which its rotations agree. */
  datatype Task = Task(r: Range, d: nat)

  ghost function Ranges(st: seq<Task>): (rs: seq<Range>)
    ensures |rs| == |st| && forall t :: 0 <= t < |st| ==> rs[t] == st[t].r
  {
    seq(|st|, t requires 0 <= t < |st| => st[t].r)
  }

  ghost function RotationOrder(b: seq<byte>): (le: (nat, nat) -> bool)
  {
    (v: nat, w: nat) => v < |b| && w < |b| && Le(b, v, w)
  }

  /** The rotations of every range on the stack agree to the depth recorded with it. */
  ghost predicate Agreeing(b: seq<byte>, s: seq<nat>, st: seq<Task>)
    requires Entries(s, |b|)
  {
    forall t :: 0 <= t < |st| ==> st[t].d <= DEPTH_THRESH + 1 && Agree(b, s, st[t].r.lo, st[t].r.hi, st[t].d)
  }

  ghost predicate Resolved(b: seq<byte>, s: seq<nat>, lo: int, hi: int, nu: seq<Range>)
  {
    forall p, q :: lo <= p <= q <= hi && 0 <= p && q < |s| ==> RotationOrder(b)(s[p], s[q]) || Together(nu, p, q)
  }

  /** The byte that decides at depth `d`. */
  lemma KeyIs(block: seq<nat>, quadrant: seq<nat>, b: seq<byte>, q: seq<nat>, v: nat, d: nat)
    requires Tables(block, quadrant, b, q) && v < |b| && d <= DEPTH_THRESH
    ensures v + d < |block| && Key(block, d, v) == b[Advance(|b|, v, d)]
  {
    AdvanceIs(|b|, v, d);
    assert block[v + d] == b[Wrap(|b|, v + d)];
  }

  lemma EntriesKeyed(block: seq<nat>, quadrant: seq<nat>, b: seq<byte>, q: seq<nat>, s: seq<nat>, d: nat)
    requires Tables(block, quadrant, b, q) && Entries(s, |b|) && d <= DEPTH_THRESH
    ensures Keyed(s, block, d)
  {
  }

  /** Rotations that agree on `d` symbols are ordered by the next one. */
  lemma KeyOrders(block: seq<nat>, quadrant: seq<nat>, b: seq<byte>, q: seq<nat>, u: nat, v: nat, d: nat)
    requires Tables(block, quadrant, b, q) && u < |b| && v < |b| && d <= DEPTH_THRESH && Cmp(b, u, v, d) == 0
    ensures u + d < |block| && v + d < |block|
    ensures Key(block, d, u) < Key(block, d, v) ==> Le(b, u, v)
    ensures Key(block, d, u) == Key(block, d, v) ==> Cmp(b, u, v, d + 1) == 0
  {
    KeyIs(block, quadrant, b, q, u, d);
    KeyIs(block, quadrant, b, q, v, d);
    var x, y := Advance(|b|, u, d), Advance(|b|, v, d);
    if b[x] < b[y] {
      FirstLess(b, x, y);
      PrefixLe(b, u, v, d);
    } else if b[x] == b[y] {
      CmpSplit(b, u, v, d, 1);
      assert Cmp(b, Next(|b|, x), Next(|b|, y), 0) == 0;
    }
  }

  lemma InOrderResolved(b: seq<byte>, s: seq<nat>, lo: int, hi: int)
    requires Entries(s, |b|) && InOrder(b, s, lo, hi) && 0 <= lo && hi < |s|
    ensures Resolved(b, s, lo, hi, [])
  {
    forall p, q | lo <= p <= q <= hi && 0 <= p && q < |s| ensures RotationOrder(b)(s[p], s[q]) {
      assert Le(b, s[p], s[q]);
    }
  }

  /** When all keys are equal the range stays, one symbol deeper. */
  lemma EqualDeeper(block: seq<nat>, quadrant: seq<nat>, b: seq<byte>, q: seq<nat>, s: seq<nat>, med: nat, d: nat,
                    lo: int, ltLo: int, unLo: int, gtHi: int, hi: int)
    requires Tables(block, quadrant, b, q) && Entries(s, |b|) && Keyed(s, block, d) && d <= DEPTH_THRESH
    requires Agree(b, s, lo, hi, d)
    requires Parting(s, block, d, med, lo, ltLo, unLo, unLo - 1, gtHi, hi) && gtHi < ltLo
    ensures Agree(b, s, lo, hi, d + 1)
  {
    forall x, y | 0 <= lo <= x <= hi < |s| && lo <= y <= hi ensures Cmp(b, s[x], s[y], d + 1) == 0 {
      assert Key(block, d, s[x]) == med && Key(block, d, s[y]) == med;
      assert Cmp(b, s[x], s[y], d) == 0;
      KeyOrders(block, quadrant, b, q, s[x], s[y], d);
    }
  }

  /** Three disjoint parts of the range `r` that leave nothing else to do in it. */
  ghost predicate Parts3(b: seq<byte>, s: seq<nat>, r: Range, x: Task, y: Task, z: Task)
    requires Entries(s, |b|)
  {
    && Parts(r, Ranges([x, y, z])) && Agreeing(b, s, [x, y, z])
    && Resolved(b, s, r.lo, r.hi, Ranges([x, y, z]))
    && x.r.Size() + y.r.Size() + z.r.Size() <= r.Size()
  }

  lemma TogetherSwap(x: Range, y: Range, z: Range, p: int, q: int)
    requires Together([x, y, z], p, q)
    ensures Together([y, x, z], p, q) && Together([x, z, y], p, q)
  {
    var t :| 0 <= t < 3 && [x, y, z][t].lo <= p && q <= [x, y, z][t].hi;
    assert [y, x, z][if t == 0 then 1 else if t == 1 then 0 else 2] == [x, y, z][t];
    assert [x, z, y][if t == 1 then 2 else if t == 2 then 1 else 0] == [x, y, z][t];
  }

  lemma RangesOf3(x: Task, y: Task, z: Task)
    ensures Ranges([x, y, z]) == [x.r, y.r, z.r]
  {
  }

  lemma Parts3Swap(b: seq<byte>, s: seq<nat>, r: Range, x: Task, y: Task, z: Task)
    requires Entries(s, |b|) && Parts3(b, s, r, x, y, z)
    ensures Parts3(b, s, r, y, x, z) && Parts3(b, s, r, x, z, y)
  {
    RangesOf3(x, y, z);
    RangesOf3(y, x, z);
    RangesOf3(x, z, y);
    hide Agree, Ranges;
    var a := [x.r, y.r, z.r];
    assert a[0] == x.r && a[1] == y.r && a[2] == z.r;
    assert forall t :: 0 <= t < 3 ==> [x, y, z][t] == if t == 0 then x else if t == 1 then y else z;
    assert [x, y, z][0] == x && [x, y, z][1] == y && [x, y, z][2] == z;
    forall p, q | r.lo <= p <= q <= r.hi && 0 <= p && q < |s|
      ensures RotationOrder(b)(s[p], s[q]) || Together([y.r, x.r, z.r], p, q)
      ensures RotationOrder(b)(s[p], s[q]) || Together([x.r, z.r, y.r], p, q)
    {
      if !RotationOrder(b)(s[p], s[q]) {
        TogetherSwap(x.r, y.r, z.r, p, q);
      }
    }
  }

  /** The parts agree on the prefix, and the equal keys on one symbol more. */
  lemma PartedAgree(block: seq<nat>, quadrant: seq<nat>, b: seq<byte>, q: seq<nat>, s: seq<nat>, med: nat, d: nat,
                    lo: int, n: int, m: int, hi: int)
    requires Tables(block, quadrant, b, q) && Entries(s, |b|) && Keyed(s, block, d) && d <= DEPTH_THRESH
    requires Agree(b, s, lo, hi, d) && Parted(s, block, d, med, lo, n, m, hi)
    ensures Agree(b, s, lo, n, d) && Agree(b, s, m, hi, d) && Agree(b, s, n + 1, m - 1, d + 1)
  {
    hide Tables;
    forall i, j | 0 <= n + 1 <= i <= m - 1 < |s| && n + 1 <= j <= m - 1 ensures Cmp(b, s[i], s[j], d + 1) == 0 {
      assert Cmp(b, s[i], s[j], d) == 0;
      KeyOrders(block, quadrant, b, q, s[i], s[j], d);
    }
  }

  /** What the partition leaves: smaller keys, larger keys, and equal keys one symbol deeper. */
  lemma PartedParts(block: seq<nat>, quadrant: seq<nat>, b: seq<byte>, q: seq<nat>, s: seq<nat>, med: nat, d: nat,
                    lo: int, n: int, m: int, hi: int)
    requires Tables(block, quadrant, b, q) && Entries(s, |b|) && Keyed(s, block, d) && d <= DEPTH_THRESH
    requires Agree(b, s, lo, hi, d) && Parted(s, block, d, med, lo, n, m, hi)
    ensures Parts3(b, s, Range(lo, hi), Task(Range(lo, n), d), Task(Range(m, hi), d), Task(Range(n + 1, m - 1), d + 1))
  {
    var x, y, z := Task(Range(lo, n), d), Task(Range(m, hi), d), Task(Range(n + 1, m - 1), d + 1);
    RangesOf3(x, y, z);
    var a := [x.r, y.r, z.r];
    assert a[0] == x.r && a[1] == y.r && a[2] == z.r;
    PartedAgree(block, quadrant, b, q, s, med, d, lo, n, m, hi);
    hide Tables, Keyed;
    forall i, j | lo <= i <= j <= hi && 0 <= i && j < |s|
      ensures RotationOrder(b)(s[i], s[j]) || Together(a, i, j)
    {
      if j <= n {
        assert a[0].lo <= i && j <= a[0].hi;
      } else if i >= m {
        assert a[1].lo <= i && j <= a[1].hi;
      } else if n < i && j < m {
        assert a[2].lo <= i && j <= a[2].hi;
      } else {
        assert Cmp(b, s[i], s[j], d) == 0;
        assert Key(block, d, s[i]) < Key(block, d, s[j]);
        KeyOrders(block, quadrant, b, q, s[i], s[j], d);
      }
    }
  }

  // What the sort does, as functions of the block, its quadrants and the budget.

  /** The block with the copy of its first bytes. */
  function Extended(b: seq<byte>): (key: seq<nat>)
  {
    if |b| >= OVERSHOOT then b + b[..OVERSHOOT] else b
  }

  function Median(a0: nat, b0: nat, c0: nat): (m: nat)
  {
    var a, b := if a0 > b0 then b0 else a0, if a0 > b0 then a0 else b0;
    if b > c0 then if a > c0 then a else c0 else b
  }

  function MedianKey(p: seq<nat>, key: seq<nat>, lo: int, hi: int, d: nat): (m: nat)
  {
    Median(At(key, At(p, lo) + d), At(key, At(p, hi) + d), At(key, At(p, (lo + hi) / 2) + d))
  }

  /** Three tasks by size, the largest first. */
  function Largest(x0: Task, y0: Task, z0: Task): (st: seq<Task>)
  {
    var x1, y1 := if x0.r.Size() < y0.r.Size() then y0 else x0, if x0.r.Size() < y0.r.Size() then x0 else y0;
    var y2, z2 := if y1.r.Size() < z0.r.Size() then z0 else y1, if y1.r.Size() < z0.r.Size() then y1 else z0;
    if x1.r.Size() < y2.r.Size() then [y2, x1, z2] else [x1, y2, z2]
  }

  /** The entries, the stack and the budget. */
  datatype Sorter = Sorter(p: seq<nat>, st: seq<Task>, budget: int)

  /** The top range sorted or divided. */
  function Turn(s: Sorter, b: seq<byte>, q: seq<nat>): (t: Sorter)
    requires s.st != []
  {
    var top, rest := s.st[|s.st| - 1], s.st[..|s.st| - 1];
    var lo, hi, d := top.r.lo, top.r.hi, top.d;
    if hi - lo < SMALL_THRESH || d > DEPTH_THRESH then
      var r := ShellSorted(s.p, b, q, lo, hi, d, s.budget);
      Sorter(r.p, rest, r.budget)
    else
      var c := CutAt(s.p, Extended(b), d, MedianKey(s.p, Extended(b), lo, hi, d), lo, hi);
      if c.whole then Sorter(c.a, rest + [Task(top.r, d + 1)], s.budget)
      else Sorter(c.a, rest + Largest(Task(Range(lo, c.n), d), Task(Range(c.m, hi), d),
                                      Task(Range(c.n + 1, c.m - 1), d + 1)), s.budget)
  }

  /** All turns, as long as they leave less to do and the budget lasts. */
  function AllTurns(s: Sorter, b: seq<byte>, q: seq<nat>): (r: Run)
    decreases if Work(s.st) < 0 then 0 else Work(s.st)
  {
    if s.st == [] then Run(s.p, s.budget)
    else
      var t := Turn(s, b, q);
      if t.budget >= 0 && 0 <= Work(t.st) < Work(s.st) then AllTurns(t, b, q) else Run(t.p, t.budget)
  }

  function QSorted(p: seq<nat>, b: seq<byte>, q: seq<nat>, lo: int, hi: int, d: nat, budget: int): (r: Run)
  {
    AllTurns(Sorter(p, [Task(Range(lo, hi), d)], budget), b, q)
  }

  lemma QSortedIs(p: seq<nat>, b: seq<byte>, q: seq<nat>, lo: int, hi: int, d: nat, budget: int)
    ensures QSorted(p, b, q, lo, hi, d, budget) == AllTurns(Sorter(p, [Task(Range(lo, hi), d)], budget), b, q)
  {
  }

  lemma TurnsStep(s: Sorter, b: seq<byte>, q: seq<nat>, t: Sorter)
    requires s.st != [] && t == Turn(s, b, q) && (t.budget >= 0 ==> 0 <= Work(t.st) < Work(s.st))
    ensures AllTurns(s, b, q) == if t.budget < 0 then Run(t.p, t.budget) else AllTurns(t, b, q)
  {
    hide Turn, Work;
  }

  lemma TurnsDone(s: Sorter, b: seq<byte>, q: seq<nat>)
    ensures s.st == [] ==> AllTurns(s, b, q) == Run(s.p, s.budget)
  {
  }

  lemma TurnIs(s: Sorter, b: seq<byte>, q: seq<nat>, rest: seq<Task>, top: Task)
    requires s.st == rest + [top]
    ensures Turn(s, b, q)
            == var lo, hi, d := top.r.lo, top.r.hi, top.d;
               if hi - lo < SMALL_THRESH || d > DEPTH_THRESH then
                 var r := ShellSorted(s.p, b, q, lo, hi, d, s.budget);
                 Sorter(r.p, rest, r.budget)
               else
                 var c := DividedAt(s.p, b, top.r, d);
                 if c.whole then Sorter(c.a, rest + [Task(top.r, d + 1)], s.budget)
                 else Sorter(c.a, rest + Largest(Task(Range(lo, c.n), d), Task(Range(c.m, hi), d),
                                                 Task(Range(c.n + 1, c.m - 1), d + 1)), s.budget)
  {
    hide ShellSorted, CutAt, Largest, MedianKey, Extended;
    assert s.st[..|s.st| - 1] == rest;
  }

  /** A range divided by its symbol at depth `d`. */
  function DividedAt(p: seq<nat>, b: seq<byte>, r: Range, d: nat): (c: Cut)
  {
    CutAt(p, Extended(b), d, MedianKey(p, Extended(b), r.lo, r.hi, d), r.lo, r.hi)
  }

  lemma TablesExtended(block: seq<nat>, quadrant: seq<nat>, b: seq<byte>, q: seq<nat>)
    requires Tables(block, quadrant, b, q)
    ensures |Extended(b)| <= |block| && block[..|Extended(b)|] == Extended(b)
    ensures Tables(Extended(b), quadrant, b, q)
  {
    hide QuadrantsOk;
    var e := Extended(b);
    forall i | 0 <= i < |e| ensures e[i] == b[Wrap(|b|, i)] == block[i] {
    }
  }

  /** The middle one of three bytes. */
  method Med3(a0: nat, b0: nat, c0: nat) returns (m: nat)
    ensures m == a0 || m == b0 || m == c0
    ensures (a0 <= m && m <= b0) || (a0 <= m && m <= c0) || (b0 <= m && m <= a0) || (b0 <= m && m <= c0)
         || (c0 <= m && m <= a0) || (c0 <= m && m <= b0)
    ensures m == Median(a0, b0, c0)
  {
    var a, b, c := a0, b0, c0;
    if a > b {
      a, b := b, a;
    }
    if b > c {
      b := c;
      if a > b {
        b := a;
      }
    }
    m := b;
  }

  lemma KeyOccurs(s: seq<nat>, key: seq<nat>, d: nat, lo: int, hi: int, at: int)
    requires Keyed(s, key, d) && 0 <= lo <= at <= hi < |s|
    ensures s[at] + d < |key| && Occurs(s, key, d, key[s[at] + d], lo, hi)
  {
    assert Key(key, d, s[at]) == key[s[at] + d];
  }

  /** Chooses the median of the keys at the ends and in the middle. */
  method Pivot(ptr: array<nat>, block: array<nat>, lo: int, hi: int, d: nat, ghost key: seq<nat>) returns (med: nat)
    requires |key| <= block.Length && block[..|key|] == key
    requires Keyed(ptr[..], key, d) && 0 <= lo <= hi < ptr.Length
    ensures Occurs(ptr[..], key, d, med, lo, hi)
    ensures med == MedianKey(ptr[..], key, lo, hi, d)
  {
    KeyOccurs(ptr[..], key, d, lo, hi, lo);
    KeyOccurs(ptr[..], key, d, lo, hi, hi);
    KeyOccurs(ptr[..], key, d, lo, hi, (lo + hi) / 2);
    hide Occurs, Keyed, Median;
    med := Med3(block[ptr[lo] + d], block[ptr[hi] + d], block[ptr[(lo + hi) / 2] + d]);
  }

  /** Partitions a range by its symbol at depth `d`; `whole` when all agree on it. */
  method Split(ptr: array<nat>, block: array<nat>, quadrant: array<nat>, lo: int, hi: int, d: nat,
               ghost b: seq<byte>, ghost q: seq<nat>) returns (whole: bool, n: int, m: int)
    requires ptr != block && ptr != quadrant && Tables(block[..], quadrant[..], b, q) && d <= DEPTH_THRESH
    requires Entries(ptr[..], |b|) && Agree(b, ptr[..], lo, hi, d) && 0 <= lo <= hi < ptr.Length
    modifies ptr
    ensures Rearranged(old(ptr[..]), ptr[..], lo, hi) && Entries(ptr[..], |b|)
    ensures whole ==> Agree(b, ptr[..], lo, hi, d + 1)
    ensures !whole ==> 0 <= lo <= n + 1 < m <= hi + 1
    ensures !whole ==> Parts3(b, ptr[..], Range(lo, hi), Task(Range(lo, n), d), Task(Range(m, hi), d),
                              Task(Range(n + 1, m - 1), d + 1))
    ensures Cut(ptr[..], whole, n, m) == DividedAt(old(ptr[..]), b, Range(lo, hi), d)
  {
    hide Rearranged, Extended, MedianKey, PartFrom, Gathered, Keyed, Parting, Parted, Occurs, Entries, Agree, Tables,
        Parts3;
    ghost var s0: seq<nat>, blk: seq<nat>, qd: seq<nat> := ptr[..], Extended(b), quadrant[..];
    TablesExtended(block[..], qd, b, q);
    EntriesKeyed(blk, qd, b, q, s0, d);
    var med := Pivot(ptr, block, lo, hi, d, blk);
    var ltLo, unLo, gtHi := Part(ptr, block, blk, d, med, lo, hi);
    ghost var s1: seq<nat> := ptr[..];
    assert block[..|blk|] == blk && quadrant[..] == qd;
    RearrangedAgree(b, s0, s1, lo, hi, d);
    if gtHi < ltLo {
      EqualDeeper(blk, qd, b, q, s1, med, d, lo, ltLo, unLo, gtHi, hi);
      return true, lo, hi;
    }
    n, m := Gather(ptr, block, blk, d, med, lo, ltLo, unLo, gtHi, hi);
    ghost var s2: seq<nat> := ptr[..];
    RearrangedTrans(s0, s1, s2, lo, hi);
    RearrangedAgree(b, s1, s2, lo, hi, d);
    OccursStill(s0, s2, blk, d, med, lo, n, m, hi);
    PartedParts(blk, qd, b, q, s2, med, d, lo, n, m, hi);
    PartedSizes(s2, blk, d, med, lo, n, m, hi);
    whole := false;
  }

  lemma PartedSizes(s: seq<nat>, key: seq<nat>, d: nat, med: nat, lo: int, n: int, m: int, hi: int)
    requires Keyed(s, key, d) && Parted(s, key, d, med, lo, n, m, hi)
    ensures 0 <= lo <= n + 1 <= m <= hi + 1 <= |s|
  {
  }

  // ---------------------------------------------------------------- the stack

  /** Bounds the work left: a range costs more the shallower it is. */
  function Cost(t: Task): (c: int)
  {
    t.r.Size() * (60 - 3 * t.d) + 1
  }

  function Work(st: seq<Task>): (w: int)
  {
    if st == [] then 0 else Work(st[..|st| - 1]) + Cost(st[|st| - 1])
  }

  lemma WorkPush(st: seq<Task>, t: Task)
    ensures Work(st + [t]) == Work(st) + Cost(t)
  {
    assert (st + [t])[..|st|] == st;
  }

  lemma {:induction false} WorkNat(st: seq<Task>)
    requires forall t :: 0 <= t < |st| ==> st[t].d <= DEPTH_THRESH + 1 && st[t].r.Size() >= 0
    ensures Work(st) >= |st|
  {
    if st != [] {
      WorkNat(st[..|st| - 1]);
      var t := st[|st| - 1];
      assert t.r.Size() * (60 - 3 * t.d) >= 0;
    }
  }

  /** Splitting off at least one entry to a deeper range costs less than the range did. */
  lemma CostSplit(size: nat, a: nat, c: nat, e: nat, d: nat)
    requires a + c + e <= size && e >= 1 && d <= DEPTH_THRESH
    ensures a * (60 - 3 * d) + c * (60 - 3 * d) + e * (60 - 3 * (d + 1)) + 3 < size * (60 - 3 * d) + 1
  {
    var k := 60 - 3 * d;
    assert size * k == a * k + c * k + e * k + (size - a - c - e) * k;
    assert e * (60 - 3 * (d + 1)) == e * k - 3 * e;
    assert (size - a - c - e) * k >= 0;
  }

  /** The arrays hold the stack. */
  ghost predicate Mirrors(stackLo: seq<int>, stackHi: seq<int>, stackD: seq<nat>, st: seq<Task>)
  {
    && |stackLo| == |stackHi| == |stackD| == STACK_SIZE && |st| <= STACK_SIZE
    && forall t :: 0 <= t < |st| ==> st[t] == Task(Range(stackLo[t], stackHi[t]), stackD[t])
  }

  class Stack {
    const lo: array<int>
    const hi: array<int>
    const d: array<nat>
    var sp: nat

    constructor ()
      ensures fresh(lo) && fresh(hi) && fresh(d) && sp == 0 && Holds([])
    {
      lo := new int[STACK_SIZE];
      hi := new int[STACK_SIZE];
      d := new nat[STACK_SIZE];
      sp := 0;
    }

    ghost predicate Holds(st: seq<Task>)
      reads this, lo, hi, d
    {
      sp == |st| && lo != hi && Mirrors(lo[..], hi[..], d[..], st)
    }

    method Push(t: Task, ghost st: seq<Task>)
      requires Holds(st) && sp < STACK_SIZE
      modifies this, lo, hi, d
      ensures Holds(st + [t])
    {
      lo[sp], hi[sp], d[sp] := t.r.lo, t.r.hi, t.d;
      sp := sp + 1;
    }

    method Pop(ghost st: seq<Task>) returns (t: Task)
      requires Holds(st) && st != []
      modifies this
      ensures t == st[|st| - 1] && Holds(st[..|st| - 1])
    {
      sp := sp - 1;
      t := Task(Range(lo[sp], hi[sp]), d[sp]);
    }
  }

  /** Everything that holds between two rounds of the main loop. */
  ghost predicate Sorting(b: seq<byte>, s0: seq<nat>, s: seq<nat>, st: seq<Task>, lo: int, hi: int)
  {
    && 0 <= lo <= hi + 1 <= |s|
    && Rearranged(s0, s, lo, hi) && Entries(s, |b|)
    && Inside(Ranges(st), lo, hi) && Apart(Ranges(st)) && Shrinking(Ranges(st))
    && Settled(s, RotationOrder(b), Ranges(st), lo, hi)
    && Agreeing(b, s, st)
  }

  lemma SortingStart(b: seq<byte>, s: seq<nat>, lo: int, hi: int, d: nat)
    requires Entries(s, |b|) && 0 <= lo <= hi + 1 <= |s| && hi - lo < MAX_BLOCK
    requires d <= DEPTH_THRESH + 1 && Agree(b, s, lo, hi, d)
    ensures Sorting(b, s, s, [Task(Range(lo, hi), d)], lo, hi)
  {
    var st := [Task(Range(lo, hi), d)];
    var rs := Ranges(st);
    forall p, q | lo <= p <= q <= hi ensures RotationOrder(b)(s[p], s[q]) || Together(rs, p, q) {
      assert rs[0].lo <= p && q <= rs[0].hi;
    }
  }

  lemma RangesPush(st: seq<Task>, nu: seq<Task>)
    ensures Ranges(st + nu) == Ranges(st) + Ranges(nu)
  {
  }

  lemma SortingTop(b: seq<byte>, s0: seq<nat>, s: seq<nat>, st: seq<Task>, t: Task, lo: int, hi: int)
    requires Sorting(b, s0, s, st + [t], lo, hi)
    ensures Entries(s, |b|) && 0 <= lo <= t.r.lo <= t.r.hi + 1 && t.r.hi <= hi < |s|
    ensures t.d <= DEPTH_THRESH + 1 && Agree(b, s, t.r.lo, t.r.hi, t.d)
    ensures t.r.hi - t.r.lo >= SMALL_THRESH ==> |st| < 23
  {
    RangesPush(st, [t]);
    assert Ranges([t]) == [t.r];
    DropTop(Ranges(st), t.r, lo, hi);
    assert (st + [t])[|st|] == t;
    if |st| >= 23 {
      DeepIsSmall(|st|);
    }
  }

  /** Rearranging one range leaves the agreement in the others. */
  lemma AgreeingElsewhere(b: seq<byte>, s: seq<nat>, s': seq<nat>, st: seq<Task>, r: Range)
    requires Entries(s, |b|) && Entries(s', |b|) && Agreeing(b, s, st)
    requires Rearranged(s, s', r.lo, r.hi)
    requires forall t :: 0 <= t < |st| ==> st[t].r.hi < r.lo || r.hi < st[t].r.lo
    ensures Agreeing(b, s', st)
  {
    forall t | 0 <= t < |st| ensures Agree(b, s', st[t].r.lo, st[t].r.hi, st[t].d) {
      assert Agree(b, s, st[t].r.lo, st[t].r.hi, st[t].d);
    }
  }

  lemma SortingStep(b: seq<byte>, s0: seq<nat>, s: seq<nat>, s': seq<nat>, st: seq<Task>, t: Task, nu: seq<Task>,
                    lo: int, hi: int)
    requires Sorting(b, s0, s, st + [t], lo, hi)
    requires Rearranged(s, s', t.r.lo, t.r.hi) && Entries(s', |b|)
    requires Resolved(b, s', t.r.lo, t.r.hi, Ranges(nu)) && Parts(t.r, Ranges(nu)) && Agreeing(b, s', nu)
    requires Shrinking(Ranges(st) + Ranges(nu))
    ensures Sorting(b, s0, s', st + nu, lo, hi)
  {
    RangesPush(st, [t]);
    RangesPush(st, nu);
    assert Ranges([t]) == [t.r];
    assert forall i :: 0 <= i < |st| ==> (st + [t])[i] == st[i] && (Ranges(st) + [t.r])[i] == st[i].r;
    assert (Ranges(st) + [t.r])[|st|] == t.r;
    DropTop(Ranges(st), t.r, lo, hi);
    RearrangedWiden(s, s', t.r.lo, t.r.hi, lo, hi);
    RearrangedTrans(s0, s, s', lo, hi);
    ReplaceTop(s, s', RotationOrder(b), Ranges(st), t.r, Ranges(nu), lo, hi);
    PartsInside(Ranges(st), t.r, Ranges(nu), lo, hi);
    AgreeingElsewhere(b, s, s', st, t.r);
  }

  lemma SortingDone(b: seq<byte>, s0: seq<nat>, s: seq<nat>, lo: int, hi: int)
    requires Sorting(b, s0, s, [], lo, hi)
    ensures Entries(s, |b|) && Rearranged(s0, s, lo, hi) && InOrder(b, s, lo, hi)
  {
    forall x, y | 0 <= lo <= x <= y <= hi < |s| ensures Le(b, s[x], s[y]) {
      assert RotationOrder(b)(s[x], s[y]) || Together(Ranges([]), x, y);
    }
  }

  /** A sorted range leaves the stack. */
  lemma SortingNone(b: seq<byte>, s0: seq<nat>, s: seq<nat>, s': seq<nat>, st: seq<Task>, t: Task, lo: int, hi: int)
    requires Sorting(b, s0, s, st + [t], lo, hi)
    requires Rearranged(s, s', t.r.lo, t.r.hi) && Entries(s', |b|) && InOrder(b, s', t.r.lo, t.r.hi)
    ensures Sorting(b, s0, s', st, lo, hi)
    ensures 0 <= Work(st) < Work(st + [t])
  {
    SortingTop(b, s0, s, st, t, lo, hi);
    InOrderResolved(b, s', t.r.lo, t.r.hi);
    ShrinkingRest(st, t, lo, hi);
    assert Ranges([]) == [] && Ranges(st) + [] == Ranges(st) && st + [] == st;
    SortingStep(b, s0, s, s', st, t, [], lo, hi);
    WorkPush(st, t);
    CostPositive(t);
    SortingWork(b, s0, s', st, lo, hi);
  }

  lemma ShrinkingRest(st: seq<Task>, t: Task, lo: int, hi: int)
    requires Inside(Ranges(st + [t]), lo, hi) && Apart(Ranges(st + [t])) && Shrinking(Ranges(st + [t]))
    ensures Shrinking(Ranges(st) + [t.r]) && Shrinking(Ranges(st))
  {
    RangesPush(st, [t]);
    assert Ranges([t]) == [t.r];
    DropTop(Ranges(st), t.r, lo, hi);
  }

  lemma CostPositive(t: Task)
    requires t.d <= DEPTH_THRESH + 1 && t.r.Size() >= 0
    ensures Cost(t) > 0
  {
    assert t.r.Size() * (60 - 3 * t.d) >= 0;
  }

  lemma SortingWork(b: seq<byte>, s0: seq<nat>, s: seq<nat>, st: seq<Task>, lo: int, hi: int)
    requires Sorting(b, s0, s, st, lo, hi)
    ensures Work(st) >= 0
  {
    forall t | 0 <= t < |st| ensures st[t].d <= DEPTH_THRESH + 1 && st[t].r.Size() >= 0 {
      assert Ranges(st)[t] == st[t].r;
    }
    WorkNat(st);
  }

  /** A range whose rotations all agree on one symbol more goes back, one deeper. */
  lemma SortingDeeper(b: seq<byte>, s0: seq<nat>, s: seq<nat>, s': seq<nat>, st: seq<Task>, t: Task, lo: int, hi: int)
    requires Sorting(b, s0, s, st + [t], lo, hi) && t.d <= DEPTH_THRESH && t.r.Size() >= 1
    requires Rearranged(s, s', t.r.lo, t.r.hi) && Entries(s', |b|) && Agree(b, s', t.r.lo, t.r.hi, t.d + 1)
    ensures Sorting(b, s0, s', st + [Task(t.r, t.d + 1)], lo, hi)
    ensures 0 <= Work(st + [Task(t.r, t.d + 1)]) < Work(st + [t])
  {
    hide Cost, Agree, Rearranged, Entries, Sorting, Work;
    var u := Task(t.r, t.d + 1);
    SortingTop(b, s0, s, st, t, lo, hi);
    DeeperParts(b, s', t);
    SortingShrinks(b, s0, s, st, t, lo, hi);
    SortingStep(b, s0, s, s', st, t, [u], lo, hi);
    WorkPush(st, t);
    WorkPush(st, u);
    DeeperCost(t);
    SortingWork(b, s0, s', st + [u], lo, hi);
  }

  lemma SortingShrinks(b: seq<byte>, s0: seq<nat>, s: seq<nat>, st: seq<Task>, t: Task, lo: int, hi: int)
    requires Sorting(b, s0, s, st + [t], lo, hi)
    ensures Shrinking(Ranges(st) + [t.r]) && Shrinking(Ranges(st))
  {
    ShrinkingRest(st, t, lo, hi);
  }

  lemma DeeperParts(b: seq<byte>, s: seq<nat>, t: Task)
    requires Entries(s, |b|) && t.d <= DEPTH_THRESH && t.r.lo <= t.r.hi + 1 && Agree(b, s, t.r.lo, t.r.hi, t.d + 1)
    ensures Ranges([Task(t.r, t.d + 1)]) == [t.r]
    ensures Resolved(b, s, t.r.lo, t.r.hi, [t.r]) && Parts(t.r, [t.r]) && Agreeing(b, s, [Task(t.r, t.d + 1)])
  {
    forall p, q | t.r.lo <= p <= q <= t.r.hi && 0 <= p && q < |s| ensures Together([t.r], p, q) {
      assert [t.r][0].lo <= p && q <= [t.r][0].hi;
    }
  }

  lemma DeeperCost(t: Task)
    requires t.r.Size() >= 1
    ensures Cost(Task(t.r, t.d + 1)) < Cost(t)
  {
    assert t.r.Size() * (60 - 3 * (t.d + 1)) == t.r.Size() * (60 - 3 * t.d) - 3 * t.r.Size();
  }

  /** A partitioned range is replaced by its parts, the largest first. */
  lemma SortingThree(b: seq<byte>, s0: seq<nat>, s: seq<nat>, s': seq<nat>, st: seq<Task>, t: Task,
                     x: Task, y: Task, z: Task, lo: int, hi: int)
    requires Sorting(b, s0, s, st + [t], lo, hi)
    requires Rearranged(s, s', t.r.lo, t.r.hi) && Entries(s', |b|) && Parts3(b, s', t.r, x, y, z)
    requires x.r.Size() >= y.r.Size() >= z.r.Size()
    requires Cost(x) + Cost(y) + Cost(z) < Cost(t)
    ensures Sorting(b, s0, s', st + [x, y, z], lo, hi)
    ensures 0 <= Work(st + [x, y, z]) < Work(st + [t])
  {
    SortingTop(b, s0, s, st, t, lo, hi);
    ShrinkingRest(st, t, lo, hi);
    RangesOf3(x, y, z);
    assert z.r.Size() >= 0 by {
      assert Ranges([x, y, z])[2] == z.r;
    }
    ShrinkThree(Ranges(st), t.r, x.r, y.r, z.r);
    SortingStep(b, s0, s, s', st, t, [x, y, z], lo, hi);
    WorkPush(st, t);
    WorkPush(st, x);
    WorkPush(st + [x], y);
    WorkPush(st + [x, y], z);
    assert st + [x] + [y] == st + [x, y] && st + [x, y] + [z] == st + [x, y, z];
    SortingWork(b, s0, s', st + [x, y, z], lo, hi);
  }

  /** Orders three parts by size, the largest first, as the three conditional swaps of the source do. */
  method OrderParts(x0: Task, y0: Task, z0: Task, ghost b: seq<byte>, ghost s: seq<nat>, ghost r: Range)
    returns (x: Task, y: Task, z: Task)
    requires Entries(s, |b|) && Parts3(b, s, r, x0, y0, z0)
    ensures Parts3(b, s, r, x, y, z)
    ensures x.r.Size() >= y.r.Size() >= z.r.Size()
    ensures Cost(x) + Cost(y) + Cost(z) == Cost(x0) + Cost(y0) + Cost(z0)
    ensures [x, y, z] == Largest(x0, y0, z0)
  {
    hide Parts3, Entries, Cost;
    x, y, z := x0, y0, z0;
    if x.r.Size() < y.r.Size() {
      Parts3Swap(b, s, r, x, y, z);
      x, y := y, x;
    }
    if y.r.Size() < z.r.Size() {
      Parts3Swap(b, s, r, x, y, z);
      y, z := z, y;
    }
    if x.r.Size() < y.r.Size() {
      Parts3Swap(b, s, r, x, y, z);
      x, y := y, x;
    }
  }

  /** One round: takes the top range and sorts it, or pushes what is left of it. */
  method Round(ptr: array<nat>, block: array<nat>, quadrant: array<nat>, nblock: nat, stack: Stack, budget0: int,
               ghost b: seq<byte>, ghost q: seq<nat>, ghost s0: seq<nat>, ghost st0: seq<Task>, ghost lo: int,
                   ghost hi: int)
    returns (budget: int, ghost st: seq<Task>)
    requires ptr != block && ptr != quadrant && ptr != stack.d && block != stack.d && quadrant != stack.d
    requires nblock == |b| && Tables(block[..], quadrant[..], b, q)
    requires stack.Holds(st0) && st0 != [] && |st0| <= 25 && Sorting(b, s0, ptr[..], st0, lo, hi) && hi - lo < MAX_BLOCK
    modifies ptr, stack, stack.lo, stack.hi, stack.d
    ensures Rearranged(s0, ptr[..], lo, hi) && Entries(ptr[..], nblock)
    ensures budget >= 0 ==> stack.Holds(st) && |st| <= 25 && Sorting(b, s0, ptr[..], st, lo, hi)
    ensures budget >= 0 ==> 0 <= Work(st) < Work(st0)
    ensures budget <= budget0
    ensures Sorter(ptr[..], st, budget) == Turn(Sorter(old(ptr[..]), st0, budget0), b, q)
  {
    hide Turn, DividedAt, ShellSorted, Largest, Rearranged, Entries, Tables, Sorting, InOrder, Agree, Parts3, Cost,
        Work;
    ghost var s: seq<nat> := ptr[..];
    var t := stack.Pop(st0);
    st := st0[..|st0| - 1];
    assert st0 == st + [t];
    TurnIs(Sorter(s, st0, budget0), b, q, st, t);
    SortingTop(b, s0, s, st, t, lo, hi);
    SortingRearranged(b, s0, s, st + [t], lo, hi);
    budget := budget0;
    if t.r.hi - t.r.lo < SMALL_THRESH || t.d > DEPTH_THRESH {
      budget := SimpleSort(ptr, block, quadrant, nblock, t.r.lo, t.r.hi, t.d, budget, b, q);
      Widened(s0, s, ptr[..], t.r, lo, hi);
      if budget < 0 {
        return;
      }
      SortingNone(b, s0, s, ptr[..], st, t, lo, hi);
      return;
    }
    var whole, n, m := Split(ptr, block, quadrant, t.r.lo, t.r.hi, t.d, b, q);
    Widened(s0, s, ptr[..], t.r, lo, hi);
    if whole {
      SortingDeeper(b, s0, s, ptr[..], st, t, lo, hi);
      stack.Push(Task(t.r, t.d + 1), st);
      st := st + [Task(t.r, t.d + 1)];
      return;
    }
    SplitCost(t, n, m);
    var x, y, z := OrderParts(Task(Range(t.r.lo, n), t.d), Task(Range(m, t.r.hi), t.d),
                              Task(Range(n + 1, m - 1), t.d + 1),
                              b, ptr[..], t.r);
    SortingThree(b, s0, s, ptr[..], st, t, x, y, z, lo, hi);
    ghost var s': seq<nat> := ptr[..];
    PushThree(stack, x, y, z, st);
    assert ptr[..] == s';
    st := st + [x, y, z];
  }

  method PushThree(stack: Stack, x: Task, y: Task, z: Task, ghost st: seq<Task>)
    requires stack.Holds(st) && |st| + 3 <= STACK_SIZE
    modifies stack, stack.lo, stack.hi, stack.d
    ensures stack.Holds(st + [x, y, z])
  {
    hide Mirrors;
    stack.Push(x, st);
    stack.Push(y, st + [x]);
    stack.Push(z, st + [x] + [y]);
    assert st + [x] + [y] + [z] == st + [x, y, z];
  }

  lemma SplitCost(t: Task, n: int, m: int)
    requires t.d <= DEPTH_THRESH && t.r.lo <= n + 1 < m <= t.r.hi + 1
    ensures Cost(Task(Range(t.r.lo, n), t.d)) + Cost(Task(Range(m, t.r.hi), t.d))
              + Cost(Task(Range(n + 1, m - 1), t.d + 1))
            < Cost(t)
  {
    CostSplit(t.r.Size(), n - t.r.lo + 1, t.r.hi - m + 1, m - n - 1, t.d);
  }

  lemma SortingRearranged(b: seq<byte>, s0: seq<nat>, s: seq<nat>, st: seq<Task>, lo: int, hi: int)
    requires Sorting(b, s0, s, st, lo, hi)
    ensures Rearranged(s0, s, lo, hi)
  {
  }

  lemma Widened(s0: seq<nat>, s: seq<nat>, s': seq<nat>, r: Range, lo: int, hi: int)
    requires Rearranged(s0, s, lo, hi) && Rearranged(s, s', r.lo, r.hi) && lo <= r.lo && r.hi <= hi
    ensures Rearranged(s0, s', lo, hi)
  {
    RearrangedWiden(s, s', r.lo, r.hi, lo, hi);
    RearrangedTrans(s0, s, s', lo, hi);
  }

  /**
   Sorts `ptr[loSt .. hiSt]`, rotations that agree on `dSt` symbols, unless the budget runs out.
   The stack never overflows: assertion 1001 holds.
   */
  method QSort3(ptr: array<nat>, block: array<nat>, quadrant: array<nat>, nblock: nat, loSt: int, hiSt: int, dSt: nat,
                budget0: int, ghost b: seq<byte>, ghost q: seq<nat>) returns (budget: int)
    requires ptr != block && ptr != quadrant
    requires nblock == |b| && Tables(block[..], quadrant[..], b, q)
    requires Entries(ptr[..], nblock) && 0 <= loSt <= hiSt + 1 <= ptr.Length && hiSt - loSt < MAX_BLOCK
    requires dSt <= DEPTH_THRESH + 1 && Agree(b, ptr[..], loSt, hiSt, dSt)
    modifies ptr
    ensures Rearranged(old(ptr[..]), ptr[..], loSt, hiSt) && Entries(ptr[..], nblock)
    ensures budget <= budget0 && (budget >= 0 ==> InOrder(b, ptr[..], loSt, hiSt))
    ensures Run(ptr[..], budget) == QSorted(old(ptr[..]), b, q, loSt, hiSt, dSt, budget0)
  {
    ghost var s0: seq<nat>, blk: seq<nat>, qd: seq<nat> := ptr[..], block[..], quadrant[..];
    SortingStart(b, s0, loSt, hiSt, dSt);
    RearrangedRefl(s0, loSt, hiSt);
    hide Rearranged, Entries, Tables, Sorting, InOrder, Work, Mirrors, AllTurns, Turn;
    var stack := new Stack();
    stack.Push(Task(Range(loSt, hiSt), dSt), []);
    ghost var st := [Task(Range(loSt, hiSt), dSt)];
    assert [] + st == st;
    budget := budget0;
    ghost var all := QSorted(s0, b, q, loSt, hiSt, dSt, budget0);
    while stack.sp > 0
      invariant all == AllTurns(Sorter(ptr[..], st, budget), b, q)
      invariant block[..] == blk && quadrant[..] == qd && budget <= budget0
      invariant fresh(stack) && fresh(stack.lo) && fresh(stack.hi) && fresh(stack.d)
      invariant stack.Holds(st) && |st| <= 25 && Sorting(b, s0, ptr[..], st, loSt, hiSt)
      decreases Work(st)
    {
      assert stack.sp < STACK_SIZE - 2;
      ghost var before := Sorter(ptr[..], st, budget);
      budget, st := Round(ptr, block, quadrant, nblock, stack, budget, b, q, s0, st, loSt, hiSt);
      TurnsStep(before, b, q, Sorter(ptr[..], st, budget));
      if budget < 0 {
        return;
      }
    }
    assert st == [];
    TurnsDone(Sorter(ptr[..], st, budget), b, q);
    SortingDone(b, s0, ptr[..], loSt, hiSt);
  }
}
