/**
 Three-way partitioning in place (the loops and macros that fallbackQSort3 and mainQSort3
 have in common): fallbackQSort3 orders `fmap` by `eclass[fmap[x]]`, mainQSort3 orders
 `ptr` by `block[ptr[x]+d]`.
 */
module ThreeWay {

  import opened Rearrange
  import opened TotalSeqs

  /** The key of an entry. */
  function Key(key: seq<nat>, d: nat, v: nat): (k: nat)
    requires v + d < |key|
  {
    key[v + d]
  }

  lemma KeyIs(key: seq<nat>, d: nat, v: nat)
    requires v + d < |key|
    ensures Key(key, d, v) == key[v + d]
  {
  }

  /** All entries have a key. */
  predicate Keyed(s: seq<nat>, key: seq<nat>, d: nat)
  {
    forall x :: 0 <= x < |s| ==> s[x] + d < |key|
  }

  lemma RearrangedKeyed(s: seq<nat>, t: seq<nat>, lo: int, hi: int, key: seq<nat>, d: nat)
    requires Rearranged(s, t, lo, hi) && Keyed(s, key, d)
    ensures Keyed(t, key, d)
  {
    forall x | 0 <= x < |t| ensures t[x] + d < |key| {
      assert t[x] in multiset(t);
      assert t[x] in s;
    }
  }

  method Swap(a: array<nat>, i: nat, j: nat, ghost lo: int, ghost hi: int)
    requires lo <= i <= hi && lo <= j <= hi && i < a.Length && j < a.Length
    modifies a
    ensures a[..] == old(a[..][i := a[j]][j := a[i]])
    ensures Rearranged(old(a[..]), a[..], lo, hi)
    ensures a[..] == Swapped(old(a[..]), i, j)
  {
    SwappedIs(a[..], i, j);
    SwapRearranges(a[..], i, j, lo, hi);
    var tmp := a[i];
    a[i] := a[j];
    a[j] := tmp;
  }

  // What the loops do, as functions.

  function VSwapped(a: seq<nat>, p1: int, p2: int, n: int): (t: seq<nat>)
    decreases n
  {
    if n <= 0 then a else VSwapped(Swapped(a, p1, p2), p1 + 1, p2 + 1, n - 1)
  }

  /** Entries, and two of the bounds of the partition. */
  datatype Scan = Scan(a: seq<nat>, x: int, y: int)

  function UpScan(a: seq<nat>, key: seq<nat>, d: nat, med: nat, ltLo: int, unLo: int, unHi: int): (r: Scan)
    ensures r.y >= unLo
    decreases unHi - unLo
  {
    if unLo > unHi then Scan(a, ltLo, unLo)
    else
      var k := At(key, At(a, unLo) + d);
      if k == med then UpScan(Swapped(a, unLo, ltLo), key, d, med, ltLo + 1, unLo + 1, unHi)
      else if k > med then Scan(a, ltLo, unLo)
      else UpScan(a, key, d, med, ltLo, unLo + 1, unHi)
  }

  function DownScan(a: seq<nat>, key: seq<nat>, d: nat, med: nat, unLo: int, unHi: int, gtHi: int): (r: Scan)
    ensures r.x <= unHi
    decreases unHi - unLo
  {
    if unLo > unHi then Scan(a, unHi, gtHi)
    else
      var k := At(key, At(a, unHi) + d);
      if k == med then DownScan(Swapped(a, unHi, gtHi), key, d, med, unLo, unHi - 1, gtHi - 1)
      else if k < med then Scan(a, unHi, gtHi)
      else DownScan(a, key, d, med, unLo, unHi - 1, gtHi)
  }

  datatype Partition = Partition(a: seq<nat>, ltLo: int, unLo: int, gtHi: int)

  function PartFrom(a: seq<nat>, key: seq<nat>, d: nat, med: nat, ltLo: int, unLo: int, unHi: int,
                    gtHi: int): (r: Partition)
    decreases if unHi >= unLo then unHi - unLo + 1 else 0
  {
    var u := UpScan(a, key, d, med, ltLo, unLo, unHi);
    var v := DownScan(u.a, key, d, med, u.y, unHi, gtHi);
    if u.y > v.x then Partition(v.a, u.x, u.y, v.y)
    else PartFrom(Swapped(v.a, u.y, v.x), key, d, med, u.x, u.y + 1, v.x - 1, v.y)
  }

  function Smaller(x: int, y: int): (m: int)
  {
    if x < y then x else y
  }

  /** Both ends moved to the middle. */
  function Gathered(p: Partition, lo: int, hi: int): (t: seq<nat>)
  {
    var n, m := Smaller(p.ltLo - lo, p.unLo - p.ltLo), Smaller(hi - p.gtHi, p.gtHi - (p.unLo - 1));
    VSwapped(VSwapped(p.a, lo, p.unLo - n, n), p.unLo, hi - m + 1, m)
  }

  /**
   A partitioned range: wholly of keys equal to the pivot, or with smaller keys up to `n` and
   larger ones from `m`.
   */
  datatype Cut = Cut(a: seq<nat>, whole: bool, n: int, m: int)

  function CutAt(a: seq<nat>, key: seq<nat>, d: nat, med: nat, lo: int, hi: int): (c: Cut)
  {
    var p := PartFrom(a, key, d, med, lo, lo, hi, hi);
    if p.gtHi < p.ltLo then Cut(p.a, true, lo, hi)
    else Cut(Gathered(p, lo, hi), false, lo + p.unLo - p.ltLo - 1, hi - (p.gtHi - (p.unLo - 1)) + 1)
  }

  lemma SwappedIs(s: seq<nat>, i: nat, j: nat)
    requires i < |s| && j < |s|
    ensures Swapped(s, i, j) == s[i := s[j]][j := s[i]]
  {
  }

  lemma VSwappedStep(a: seq<nat>, p1: int, p2: int, n: int)
    ensures VSwapped(a, p1, p2, n) == if n <= 0 then a else VSwapped(Swapped(a, p1, p2), p1 + 1, p2 + 1, n - 1)
  {
  }

  lemma UpScanStep(a: seq<nat>, key: seq<nat>, d: nat, med: nat, ltLo: int, unLo: int, unHi: int)
    requires unLo <= unHi ==> 0 <= unLo < |a| && a[unLo] + d < |key|
    ensures UpScan(a, key, d, med, ltLo, unLo, unHi)
            == if unLo > unHi then Scan(a, ltLo, unLo)
               else if key[a[unLo] + d] == med
                    then UpScan(Swapped(a, unLo, ltLo), key, d, med, ltLo + 1, unLo + 1, unHi)
               else if key[a[unLo] + d] > med then Scan(a, ltLo, unLo)
               else UpScan(a, key, d, med, ltLo, unLo + 1, unHi)
  {
  }

  lemma DownScanStep(a: seq<nat>, key: seq<nat>, d: nat, med: nat, unLo: int, unHi: int, gtHi: int)
    requires unLo <= unHi ==> 0 <= unHi < |a| && a[unHi] + d < |key|
    ensures DownScan(a, key, d, med, unLo, unHi, gtHi)
            == if unLo > unHi then Scan(a, unHi, gtHi)
               else if key[a[unHi] + d] == med
                    then DownScan(Swapped(a, unHi, gtHi), key, d, med, unLo, unHi - 1, gtHi - 1)
               else if key[a[unHi] + d] < med then Scan(a, unHi, gtHi)
               else DownScan(a, key, d, med, unLo, unHi - 1, gtHi)
  {
  }

  lemma PartStep(a: seq<nat>, key: seq<nat>, d: nat, med: nat, ltLo: int, unLo: int, unHi: int, gtHi: int)
    ensures var u := UpScan(a, key, d, med, ltLo, unLo, unHi);
            var v := DownScan(u.a, key, d, med, u.y, unHi, gtHi);
            PartFrom(a, key, d, med, ltLo, unLo, unHi, gtHi)
            == if u.y > v.x then Partition(v.a, u.x, u.y, v.y)
               else PartFrom(Swapped(v.a, u.y, v.x), key, d, med, u.x, u.y + 1, v.x - 1, v.y)
  {
    hide UpScan, DownScan;
  }

  /** `t` is `s` with the `n` entries from `p1` and the `n` entries from `p2` exchanged. */
  ghost predicate Exchanged(s: seq<nat>, t: seq<nat>, p1: nat, p2: nat, n: nat)
    requires p1 + n <= p2 && p2 + n <= |s|
  {
    && |t| == |s|
    && (forall x :: p1 <= x < p1 + n ==> t[x] == s[x - p1 + p2])
    && (forall x :: p2 <= x < p2 + n ==> t[x] == s[x - p2 + p1])
    && (forall x :: 0 <= x < |s| && !(p1 <= x < p1 + n) && !(p2 <= x < p2 + n) ==> t[x] == s[x])
  }

  lemma ExchangedStep(s: seq<nat>, t: seq<nat>, p1: nat, p2: nat, k: nat, n: nat)
    requires k < n && p1 + n <= p2 && p2 + n <= |s| && Exchanged(s, t, p1, p2, k)
    ensures |t| == |s| && Exchanged(s, Swapped(t, p1 + k, p2 + k), p1, p2, k + 1)
  {
  }

  lemma ExchangedStart(s: seq<nat>, p1: nat, p2: nat, n: nat)
    requires p1 + n <= p2 && p2 + n <= |s|
    ensures Exchanged(s, s, p1, p2, 0)
  {
  }

  /** Exchanges the `n` entries from `p1` with the `n` entries from `p2`. */
  method VSwap(a: array<nat>, p1: nat, p2: nat, n: nat, ghost lo: int, ghost hi: int)
    requires lo <= p1 <= p1 + n <= p2 <= p2 + n <= hi + 1 <= a.Length
    modifies a
    ensures Rearranged(old(a[..]), a[..], lo, hi)
    ensures Exchanged(old(a[..]), a[..], p1, p2, n)
    ensures a[..] == VSwapped(old(a[..]), p1, p2, n)
  {
    hide *;
    var yyp1, yyp2, yyn := p1, p2, n;
    ghost var s := a[..];
    ghost var k := 0;
    ExchangedStart(s, p1, p2, n);
    RearrangedRefl(s, lo, hi);
    ghost var all := VSwapped(s, p1, p2, n);
    while yyn > 0
      invariant all == VSwapped(a[..], yyp1, yyp2, yyn)
      invariant 0 <= k <= n && yyn == n - k && yyp1 == p1 + k && yyp2 == p2 + k
      invariant Rearranged(s, a[..], lo, hi)
      invariant Exchanged(s, a[..], p1, p2, k)
    {
      ghost var t := a[..];
      VSwappedStep(t, yyp1, yyp2, yyn);
      ExchangedStep(s, t, p1, p2, k, n);
      Swap(a, yyp1, yyp2, lo, hi);
      RearrangedTrans(s, t, a[..], lo, hi);
      yyp1 := yyp1 + 1;
      yyp2 := yyp2 + 1;
      yyn := yyn - 1;
      k := k + 1;
    }
    VSwappedStep(a[..], yyp1, yyp2, yyn);
  }

  /** The state of the partitioning of `lo .. hi` around `med`; `unLo .. unHi` is still unseen. */
  ghost predicate Parting(s: seq<nat>, key: seq<nat>, d: nat, med: nat,
                          lo: int, ltLo: int, unLo: int, unHi: int, gtHi: int, hi: int)
    requires Keyed(s, key, d)
  {
    && 0 <= lo <= ltLo <= unLo <= unHi + 1 && unHi <= gtHi <= hi < |s|
    && (forall x :: lo <= x < ltLo ==> Key(key, d, s[x]) == med)
    && (forall x :: ltLo <= x < unLo ==> Key(key, d, s[x]) < med)
    && (forall x :: unHi < x <= gtHi ==> Key(key, d, s[x]) > med)
    && (forall x :: gtHi < x <= hi ==> Key(key, d, s[x]) == med)
  }

  lemma PartingStart(s: seq<nat>, key: seq<nat>, d: nat, med: nat, lo: int, hi: int)
    requires Keyed(s, key, d) && 0 <= lo <= hi < |s|
    ensures Parting(s, key, d, med, lo, lo, lo, hi, hi, hi)
  {
  }

  lemma PartingSwapLeft(s: seq<nat>, t: seq<nat>, key: seq<nat>, d: nat, med: nat,
                        lo: int, ltLo: int, unLo: int, unHi: int, gtHi: int, hi: int)
    requires Keyed(s, key, d) && Keyed(t, key, d)
    requires Parting(s, key, d, med, lo, ltLo, unLo, unHi, gtHi, hi)
    requires unLo <= unHi && Key(key, d, s[unLo]) == med
    requires t == s[unLo := s[ltLo]][ltLo := s[unLo]]
    ensures Parting(t, key, d, med, lo, ltLo + 1, unLo + 1, unHi, gtHi, hi)
  {
  }

  lemma PartingSwapRight(s: seq<nat>, t: seq<nat>, key: seq<nat>, d: nat, med: nat,
                         lo: int, ltLo: int, unLo: int, unHi: int, gtHi: int, hi: int)
    requires Keyed(s, key, d) && Keyed(t, key, d)
    requires Parting(s, key, d, med, lo, ltLo, unLo, unHi, gtHi, hi)
    requires unLo <= unHi && Key(key, d, s[unHi]) == med
    requires t == s[unHi := s[gtHi]][gtHi := s[unHi]]
    ensures Parting(t, key, d, med, lo, ltLo, unLo, unHi - 1, gtHi - 1, hi)
  {
  }

  lemma PartingExchange(s: seq<nat>, t: seq<nat>, key: seq<nat>, d: nat, med: nat,
                        lo: int, ltLo: int, unLo: int, unHi: int, gtHi: int, hi: int)
    requires Keyed(s, key, d) && Keyed(t, key, d)
    requires Parting(s, key, d, med, lo, ltLo, unLo, unHi, gtHi, hi)
    requires unLo <= unHi && Key(key, d, s[unLo]) > med > Key(key, d, s[unHi])
    requires t == s[unLo := s[unHi]][unHi := s[unLo]]
    ensures Parting(t, key, d, med, lo, ltLo, unLo + 1, unHi - 1, gtHi, hi)
  {
  }

  lemma PartingGrowLeft(s: seq<nat>, key: seq<nat>, d: nat, med: nat,
                        lo: int, ltLo: int, unLo: int, unHi: int, gtHi: int, hi: int)
    requires Keyed(s, key, d)
    requires Parting(s, key, d, med, lo, ltLo, unLo, unHi, gtHi, hi)
    requires unLo <= unHi && Key(key, d, s[unLo]) < med
    ensures Parting(s, key, d, med, lo, ltLo, unLo + 1, unHi, gtHi, hi)
  {
  }

  lemma PartingGrowRight(s: seq<nat>, key: seq<nat>, d: nat, med: nat,
                         lo: int, ltLo: int, unLo: int, unHi: int, gtHi: int, hi: int)
    requires Keyed(s, key, d)
    requires Parting(s, key, d, med, lo, ltLo, unLo, unHi, gtHi, hi)
    requires unLo <= unHi && Key(key, d, s[unHi]) > med
    ensures Parting(s, key, d, med, lo, ltLo, unLo, unHi - 1, gtHi, hi)
  {
  }

  lemma PartingBounds(s: seq<nat>, key: seq<nat>, d: nat, med: nat,
                      lo: int, ltLo: int, unLo: int, unHi: int, gtHi: int, hi: int)
    requires Keyed(s, key, d)
    requires Parting(s, key, d, med, lo, ltLo, unLo, unHi, gtHi, hi)
    ensures 0 <= lo <= ltLo <= unLo <= unHi + 1 && unHi <= gtHi <= hi < |s|
    ensures unLo == unHi + 1 ==> unLo <= gtHi + 1
    ensures unLo <= unHi ==> s[unLo] + d < |key| && s[unHi] + d < |key|
  {
  }

  /** Puts an equal key with those at the left end. */
  method KeepLeft(a: array<nat>, ghost s0: seq<nat>, ghost key: seq<nat>, ghost d: nat, ghost med: nat,
                  ghost lo: int, ltLo: int, unLo: int, ghost unHi: int, ghost gtHi: int, ghost hi: int)
    requires Keyed(a[..], key, d) && Rearranged(s0, a[..], lo, hi)
    requires Parting(a[..], key, d, med, lo, ltLo, unLo, unHi, gtHi, hi)
    requires unLo <= unHi && Key(key, d, a[unLo]) == med
    modifies a
    ensures Rearranged(s0, a[..], lo, hi) && Keyed(a[..], key, d)
    ensures Parting(a[..], key, d, med, lo, ltLo + 1, unLo + 1, unHi, gtHi, hi)
    ensures a[..] == Swapped(old(a[..]), unLo, ltLo)
  {
    hide *;
    ghost var before := a[..];
    PartingBounds(before, key, d, med, lo, ltLo, unLo, unHi, gtHi, hi);
    Swap(a, unLo, ltLo, lo, hi);
    RearrangedTrans(s0, before, a[..], lo, hi);
    RearrangedKeyed(before, a[..], lo, hi, key, d);
    PartingSwapLeft(before, a[..], key, d, med, lo, ltLo, unLo, unHi, gtHi, hi);
  }

  /** Puts an equal key with those at the right end. */
  method KeepRight(a: array<nat>, ghost s0: seq<nat>, ghost key: seq<nat>, ghost d: nat, ghost med: nat,
                   ghost lo: int, ghost ltLo: int, ghost unLo: int, unHi: int, gtHi: int, ghost hi: int)
    requires Keyed(a[..], key, d) && Rearranged(s0, a[..], lo, hi)
    requires Parting(a[..], key, d, med, lo, ltLo, unLo, unHi, gtHi, hi)
    requires unLo <= unHi && Key(key, d, a[unHi]) == med
    modifies a
    ensures Rearranged(s0, a[..], lo, hi) && Keyed(a[..], key, d)
    ensures Parting(a[..], key, d, med, lo, ltLo, unLo, unHi - 1, gtHi - 1, hi)
    ensures a[..] == Swapped(old(a[..]), unHi, gtHi)
    ensures unLo < unHi ==> a[unLo] == old(a[unLo])
  {
    hide *;
    ghost var before := a[..];
    PartingBounds(before, key, d, med, lo, ltLo, unLo, unHi, gtHi, hi);
    Swap(a, unHi, gtHi, lo, hi);
    RearrangedTrans(s0, before, a[..], lo, hi);
    RearrangedKeyed(before, a[..], lo, hi, key, d);
    PartingSwapRight(before, a[..], key, d, med, lo, ltLo, unLo, unHi, gtHi, hi);
  }

  /** Advances `unLo` over keys up to `med`, gathering the equal ones at the left end. */
  method ScanUp(a: array<nat>, ghost s0: seq<nat>, keys: array<nat>, ghost key: seq<nat>, d: nat, med: nat,
                lo: int, ltLo0: int, unLo0: int, unHi: int, gtHi: int, hi: int) returns (ltLo: int, unLo: int)
    requires a != keys && |key| <= keys.Length && keys[..|key|] == key && Keyed(a[..], key, d)
    requires Rearranged(s0, a[..], lo, hi)
    requires Parting(a[..], key, d, med, lo, ltLo0, unLo0, unHi, gtHi, hi)
    modifies a
    ensures Rearranged(s0, a[..], lo, hi) && Keyed(a[..], key, d)
    ensures Parting(a[..], key, d, med, lo, ltLo, unLo, unHi, gtHi, hi)
    ensures unLo <= unHi ==> 0 <= unLo < a.Length && a[unLo] + d < |key| && Key(key, d, a[unLo]) > med
    ensures unLo0 <= unLo
    ensures Scan(a[..], ltLo, unLo) == UpScan(old(a[..]), key, d, med, ltLo0, unLo0, unHi)
  {
    hide *;
    ltLo, unLo := ltLo0, unLo0;
    ghost var scan := UpScan(a[..], key, d, med, ltLo, unLo, unHi);
    while unLo <= unHi
      invariant scan == UpScan(a[..], key, d, med, ltLo, unLo, unHi)
      invariant |key| <= keys.Length && keys[..|key|] == key
      invariant Rearranged(s0, a[..], lo, hi) && Keyed(a[..], key, d)
      invariant Parting(a[..], key, d, med, lo, ltLo, unLo, unHi, gtHi, hi)
      invariant unLo0 <= unLo
      decreases unHi - unLo
    {
      PartingBounds(a[..], key, d, med, lo, ltLo, unLo, unHi, gtHi, hi);
      UpScanStep(a[..], key, d, med, ltLo, unLo, unHi);
      KeyIs(key, d, a[unLo]);
      var n := keys[a[unLo] + d] - med;
      if n == 0 {
        KeepLeft(a, s0, key, d, med, lo, ltLo, unLo, unHi, gtHi, hi);
        ltLo := ltLo + 1;
        unLo := unLo + 1;
        continue;
      }
      if n > 0 {
        break;
      }
      PartingGrowLeft(a[..], key, d, med, lo, ltLo, unLo, unHi, gtHi, hi);
      unLo := unLo + 1;
    }
    if unLo > unHi {
      UpScanStep(a[..], key, d, med, ltLo, unLo, unHi);
    }
  }

  /** Moves `unHi` down over keys from `med` on, gathering the equal ones at the right end. */
  method ScanDown(a: array<nat>, ghost s0: seq<nat>, keys: array<nat>, ghost key: seq<nat>, d: nat, med: nat,
                  lo: int, ltLo: int, unLo: int, unHi0: int, gtHi0: int, hi: int) returns (unHi: int, gtHi: int)
    requires a != keys && |key| <= keys.Length && keys[..|key|] == key && Keyed(a[..], key, d)
    requires Rearranged(s0, a[..], lo, hi)
    requires Parting(a[..], key, d, med, lo, ltLo, unLo, unHi0, gtHi0, hi)
    modifies a
    ensures Rearranged(s0, a[..], lo, hi) && Keyed(a[..], key, d)
    ensures Parting(a[..], key, d, med, lo, ltLo, unLo, unHi, gtHi, hi)
    ensures unLo <= unHi ==> 0 <= unHi < a.Length && a[unHi] + d < |key| && Key(key, d, a[unHi]) < med
    ensures unLo <= unHi ==> a[unLo] == old(a[unLo])
    ensures unHi <= unHi0
    ensures Scan(a[..], unHi, gtHi) == DownScan(old(a[..]), key, d, med, unLo, unHi0, gtHi0)
  {
    hide *;
    PartingBounds(a[..], key, d, med, lo, ltLo, unLo, unHi0, gtHi0, hi);
    unHi, gtHi := unHi0, gtHi0;
    ghost var scan := DownScan(a[..], key, d, med, unLo, unHi, gtHi);
    while unLo <= unHi
      invariant scan == DownScan(a[..], key, d, med, unLo, unHi, gtHi)
      invariant |key| <= keys.Length && keys[..|key|] == key
      invariant Rearranged(s0, a[..], lo, hi) && Keyed(a[..], key, d)
      invariant Parting(a[..], key, d, med, lo, ltLo, unLo, unHi, gtHi, hi)
      invariant unLo <= unHi ==> a[unLo] == old(a[unLo])
      invariant unHi <= unHi0
      decreases unHi - unLo
    {
      PartingBounds(a[..], key, d, med, lo, ltLo, unLo, unHi, gtHi, hi);
      DownScanStep(a[..], key, d, med, unLo, unHi, gtHi);
      KeyIs(key, d, a[unHi]);
      var n := keys[a[unHi] + d] - med;
      if n == 0 {
        KeepRight(a, s0, key, d, med, lo, ltLo, unLo, unHi, gtHi, hi);
        gtHi := gtHi - 1;
        unHi := unHi - 1;
        continue;
      }
      if n < 0 {
        break;
      }
      PartingGrowRight(a[..], key, d, med, lo, ltLo, unLo, unHi, gtHi, hi);
      unHi := unHi - 1;
    }
    if unLo > unHi {
      DownScanStep(a[..], key, d, med, unLo, unHi, gtHi);
    }
  }

  /** Exchanges a larger key on the left with a smaller key on the right. */
  method Exchange(a: array<nat>, ghost s0: seq<nat>, ghost key: seq<nat>, ghost d: nat, ghost med: nat,
                  ghost lo: int, ghost ltLo: int, unLo: int, unHi: int, ghost gtHi: int, ghost hi: int)
    requires Keyed(a[..], key, d) && Rearranged(s0, a[..], lo, hi)
    requires Parting(a[..], key, d, med, lo, ltLo, unLo, unHi, gtHi, hi)
    requires unLo <= unHi && Key(key, d, a[unLo]) > med > Key(key, d, a[unHi])
    modifies a
    ensures Rearranged(s0, a[..], lo, hi) && Keyed(a[..], key, d)
    ensures Parting(a[..], key, d, med, lo, ltLo, unLo + 1, unHi - 1, gtHi, hi)
    ensures a[..] == Swapped(old(a[..]), unLo, unHi)
  {
    hide Rearranged, Keyed, Swapped;
    ghost var before := a[..];
    Swap(a, unLo, unHi, lo, hi);
    RearrangedTrans(s0, before, a[..], lo, hi);
    RearrangedKeyed(before, a[..], lo, hi, key, d);
    PartingExchange(before, a[..], key, d, med, lo, ltLo, unLo, unHi, gtHi, hi);
  }

  /** Equal keys at both ends, smaller and larger keys between, nothing unseen. */
  method Part(a: array<nat>, keys: array<nat>, ghost key: seq<nat>, d: nat, med: nat, lo: int, hi: int)
    returns (ltLo: int, unLo: int, gtHi: int)
    requires a != keys && |key| <= keys.Length && keys[..|key|] == key && Keyed(a[..], key, d)
    requires 0 <= lo <= hi < a.Length
    modifies a
    ensures Rearranged(old(a[..]), a[..], lo, hi) && Keyed(a[..], key, d)
    ensures Parting(a[..], key, d, med, lo, ltLo, unLo, unLo - 1, gtHi, hi)
    ensures Partition(a[..], ltLo, unLo, gtHi) == PartFrom(old(a[..]), key, d, med, lo, lo, hi, hi)
  {
    hide *;
    ltLo, unLo := lo, lo;
    var unHi := hi;
    gtHi := hi;
    ghost var s0 := a[..];
    PartingStart(s0, key, d, med, lo, hi);
    RearrangedRefl(s0, lo, hi);
    ghost var part := PartFrom(s0, key, d, med, lo, lo, hi, hi);
    while true
      invariant part == PartFrom(a[..], key, d, med, ltLo, unLo, unHi, gtHi)
      invariant |key| <= keys.Length && keys[..|key|] == key
      invariant Rearranged(s0, a[..], lo, hi) && Keyed(a[..], key, d)
      invariant Parting(a[..], key, d, med, lo, ltLo, unLo, unHi, gtHi, hi)
      decreases unHi - unLo
    {
      PartStep(a[..], key, d, med, ltLo, unLo, unHi, gtHi);
      ltLo, unLo := ScanUp(a, s0, keys, key, d, med, lo, ltLo, unLo, unHi, gtHi, hi);
      unHi, gtHi := ScanDown(a, s0, keys, key, d, med, lo, ltLo, unLo, unHi, gtHi, hi);
      if unLo > unHi {
        PartingBounds(a[..], key, d, med, lo, ltLo, unLo, unHi, gtHi, hi);
        break;
      }
      Exchange(a, s0, key, d, med, lo, ltLo, unLo, unHi, gtHi, hi);
      unLo := unLo + 1;
      unHi := unHi - 1;
    }
  }

  /** `lo .. n` lies below `med`, `n+1 .. m-1` equals it and `m .. hi` lies above. */
  ghost predicate Parted(s: seq<nat>, key: seq<nat>, d: nat, med: nat, lo: int, n: int, m: int, hi: int)
    requires Keyed(s, key, d)
  {
    && 0 <= lo <= n + 1 <= m <= hi + 1 <= |s|
    && (forall x :: lo <= x <= n ==> Key(key, d, s[x]) < med)
    && (forall x :: n < x < m ==> Key(key, d, s[x]) == med)
    && (forall x :: m <= x <= hi ==> Key(key, d, s[x]) > med)
  }

  /** Moves the equal keys from both ends to the middle. */
  method Gather(a: array<nat>, keys: array<nat>, ghost key: seq<nat>, d: nat, med: nat,
                lo: int, ltLo: int, unLo: int, gtHi: int, hi: int) returns (n: int, m: int)
    requires a != keys && |key| <= keys.Length && keys[..|key|] == key && Keyed(a[..], key, d)
    requires Parting(a[..], key, d, med, lo, ltLo, unLo, unLo - 1, gtHi, hi)
    modifies a
    ensures Rearranged(old(a[..]), a[..], lo, hi) && Keyed(a[..], key, d)
    ensures Parted(a[..], key, d, med, lo, n, m, hi)
    ensures n == lo + unLo - ltLo - 1 && m == hi - (gtHi - (unLo - 1)) + 1
    ensures a[..] == Gathered(Partition(old(a[..]), ltLo, unLo, gtHi), lo, hi)
  {
    hide Rearranged, Keyed, Exchanged, Parting, HalfParted, Parted, VSwapped;
    PartingBounds(a[..], key, d, med, lo, ltLo, unLo, unLo - 1, gtHi, hi);
    ghost var s0 := a[..];
    n := if ltLo - lo < unLo - ltLo then ltLo - lo else unLo - ltLo;
    VSwap(a, lo, unLo - n, n, lo, hi);
    ghost var s1 := a[..];
    RearrangedKeyed(s0, s1, lo, hi, key, d);
    GatherLeft(s0, s1, key, d, med, lo, ltLo, unLo, gtHi, hi, n);
    ghost var left := lo + unLo - ltLo - 1;
    m := if hi - gtHi < gtHi - (unLo - 1) then hi - gtHi else gtHi - (unLo - 1);
    VSwap(a, unLo, hi - m + 1, m, lo, hi);
    ghost var s2 := a[..];
    RearrangedTrans(s0, s1, s2, lo, hi);
    RearrangedKeyed(s1, s2, lo, hi, key, d);
    GatherRight(s1, s2, key, d, med, lo, left, unLo, gtHi, hi, m);
    n := lo + unLo - ltLo - 1;
    m := hi - (gtHi - (unLo - 1)) + 1;
  }

  /** The left end is in place; the larger keys and the equal ones at the right end are not. */
  ghost predicate HalfParted(s: seq<nat>, key: seq<nat>, d: nat, med: nat, lo: int, n: int, unLo: int, gtHi: int,
                             hi: int)
    requires Keyed(s, key, d)
  {
    && 0 <= lo <= n + 1 <= unLo <= gtHi + 1 && gtHi <= hi < |s|
    && (forall x :: lo <= x <= n ==> Key(key, d, s[x]) < med)
    && (forall x :: n < x < unLo ==> Key(key, d, s[x]) == med)
    && (forall x :: unLo <= x <= gtHi ==> Key(key, d, s[x]) > med)
    && (forall x :: gtHi < x <= hi ==> Key(key, d, s[x]) == med)
  }

  lemma GatherLeft(s: seq<nat>, t: seq<nat>, key: seq<nat>, d: nat, med: nat,
                   lo: int, ltLo: int, unLo: int, gtHi: int, hi: int, n: int)
    requires Keyed(s, key, d) && Keyed(t, key, d) && |s| == |t|
    requires Parting(s, key, d, med, lo, ltLo, unLo, unLo - 1, gtHi, hi)
    requires n == if ltLo - lo < unLo - ltLo then ltLo - lo else unLo - ltLo
    requires Exchanged(s, t, lo, unLo - n, n)
    ensures HalfParted(t, key, d, med, lo, lo + unLo - ltLo - 1, unLo, gtHi, hi)
  {
  }

  lemma GatherRight(s: seq<nat>, t: seq<nat>, key: seq<nat>, d: nat, med: nat,
                    lo: int, n: int, unLo: int, gtHi: int, hi: int, m: int)
    requires Keyed(s, key, d) && Keyed(t, key, d) && |s| == |t|
    requires HalfParted(s, key, d, med, lo, n, unLo, gtHi, hi)
    requires m == if hi - gtHi < gtHi - (unLo - 1) then hi - gtHi else gtHi - (unLo - 1)
    requires Exchanged(s, t, unLo, hi - m + 1, m)
    ensures Parted(t, key, d, med, lo, n, hi - (gtHi - (unLo - 1)) + 1, hi)
  {
  }

  /** Some entry in the range has the key `med`. */
  ghost predicate Occurs(s: seq<nat>, key: seq<nat>, d: nat, med: nat, lo: int, hi: int)
    requires Keyed(s, key, d)
  {
    exists x :: lo <= x <= hi && 0 <= x < |s| && Key(key, d, s[x]) == med
  }

  lemma OccursStill(s: seq<nat>, t: seq<nat>, key: seq<nat>, d: nat, med: nat, lo: int, n: int, m: int, hi: int)
    requires Keyed(s, key, d) && Keyed(t, key, d) && 0 <= lo <= hi < |s|
    requires Occurs(s, key, d, med, lo, hi) && Rearranged(s, t, lo, hi) && Parted(t, key, d, med, lo, n, m, hi)
    ensures n + 1 < m
  {
    var x :| lo <= x <= hi && 0 <= x < |s| && Key(key, d, s[x]) == med;
    RearrangedBack(s, t, lo, hi);
    var y := RearrangedFrom(t, s, lo, hi, x);
    assert Key(key, d, t[y]) == med;
  }
}
