/**
 The fallback block sorter (blocksort.c lines 212-329): a radix sort on one byte, then
 rounds that double the depth to which the rotations are sorted.
 */
module FallbackSort {

  import opened Rotation
  import opened Counting
  import opened HeaderBits
  import opened Rearrange
  import opened ThreeWay
  import QSort = FallbackQSort
  import opened FallbackOrder
  import opened TotalSeqs

  /** The words of the table that holds the header bits (`ftab` of the compressor). */
  const TABLE_WORDS := 65537

  // ---------------------------------------------------------------- the radix sort

  /** The entry to which the radix sort sends rotation `i`: buckets are filled from their ends. */
  function Slot(b: seq<byte>, i: nat): (s: int)
    requires i < |b|
  {
    Start(b, b[i] as int + 1, |b|) - 1 - Occ(b, b[i], i)
  }

  lemma SlotBucket(b: seq<byte>, i: nat)
    requires i < |b|
    ensures Start(b, b[i], |b|) <= Slot(b, i) < Start(b, b[i] as int + 1, |b|) <= |b|
  {
    OccMonotone(b, b[i], i + 1, |b|);
    StartAtMost(b, b[i] as int + 1, |b|);
  }

  lemma SlotDistinct(b: seq<byte>, i: nat, j: nat)
    requires i < |b| && j < |b| && i != j
    ensures Slot(b, i) != Slot(b, j)
  {
    if b[i] == b[j] {
      if i < j {
        OccMonotone(b, b[i], i + 1, j);
      } else {
        OccMonotone(b, b[i], j + 1, i);
      }
    } else {
      SlotBucket(b, i);
      SlotBucket(b, j);
      if b[i] < b[j] {
        StartMonotone(b, b[i] as int + 1, b[j], |b|);
      } else {
        StartMonotone(b, b[j] as int + 1, b[i], |b|);
      }
    }
  }

  ghost function Slots(b: seq<byte>): (s: seq<nat>)
    ensures Perm(s, |b|)
    ensures forall i :: 0 <= i < |b| ==> s[i] == Slot(b, i)
  {
    forall i | 0 <= i < |b| ensures 0 <= Slot(b, i) < |b| {
      SlotBucket(b, i);
    }
    forall i, j | 0 <= i < j < |b| ensures Slot(b, i) != Slot(b, j) {
      SlotDistinct(b, i, j);
    }
    seq(|b|, i requires 0 <= i < |b| => (SlotBucket(b, i); Slot(b, i)))
  }

  method CountBytes(eclass8: array<nat>, ftab: array<nat>, ftabCopy: array<nat>, nblock: nat, ghost b: seq<byte>)
    requires nblock <= eclass8.Length && b == eclass8[..nblock]
    requires ftab.Length == 257 && ftabCopy.Length == 256 && ftab != ftabCopy && eclass8 != ftab && eclass8 != ftabCopy
    modifies ftab, ftabCopy
    ensures forall c :: 0 <= c < 256 ==> ftabCopy[c] == Occ(b, c, nblock)
    ensures forall c :: 0 <= c <= 256 ==> ftab[c] == Start(b, c + 1, nblock)
  {
    hide Start;
    for i := 0 to 257
      invariant forall c :: 0 <= c < i ==> ftab[c] == 0
    {
      ftab[i] := 0;
    }
    for i := 0 to nblock
      invariant forall c :: 0 <= c <= 256 ==> ftab[c] == Occ(b, c, i)
    {
      OccStep(b, i);
      assert eclass8[i] == b[i];
      ftab[eclass8[i]] := ftab[eclass8[i]] + 1;
    }
    for i := 0 to 256
      invariant forall c :: 0 <= c <= 256 ==> ftab[c] == Occ(b, c, nblock)
      invariant forall c :: 0 <= c < i ==> ftabCopy[c] == Occ(b, c, nblock)
    {
      ftabCopy[i] := ftab[i];
    }
    StartOne(b);
    for i := 1 to 257
      invariant forall c :: 0 <= c < 256 ==> ftabCopy[c] == Occ(b, c, nblock)
      invariant forall c :: 0 <= c < i ==> ftab[c] == Start(b, c + 1, nblock)
      invariant forall c :: i <= c <= 256 ==> ftab[c] == Occ(b, c, nblock)
    {
      StartNext(b, i);
      ftab[i] := ftab[i] + ftab[i - 1];
    }
  }

  lemma StartOne(b: seq<byte>)
    ensures Start(b, 1, |b|) == Occ(b, 0, |b|)
  {
    assert Start(b, 0, |b|) == 0;
  }

  lemma StartNext(b: seq<byte>, c: nat)
    ensures Start(b, c + 1, |b|) == Start(b, c, |b|) + Occ(b, c, |b|)
  {
  }

  /** Fills `fmap`, after which `ftab` holds the bucket starts. */
  method Distribute(eclass8: array<nat>, ftab: array<nat>, fmap: array<nat>, nblock: nat, ghost b: seq<byte>)
    requires nblock <= eclass8.Length && b == eclass8[..nblock] && fmap.Length == nblock
    requires ftab.Length == 257 && ftab != fmap && eclass8 != ftab && eclass8 != fmap
    requires forall c :: 0 <= c <= 256 ==> ftab[c] == Start(b, c + 1, nblock)
    modifies ftab, fmap
    ensures forall i :: 0 <= i < nblock ==> fmap[Slots(b)[i]] == i
    ensures forall c :: 0 <= c < 256 ==> ftab[c] == Start(b, c, nblock)
  {
    ghost var slots := Slots(b);
    hide Start, Occ;
    for i := 0 to nblock
      invariant forall c :: 0 <= c < 256 ==> ftab[c] == Start(b, c + 1, nblock) - Occ(b, c, i)
      invariant forall x :: 0 <= x < i ==> fmap[slots[x]] == x
    {
      OccStep(b, i);
      var j := eclass8[i];
      SlotBucket(b, i);
      var k := ftab[j] - 1;
      assert k == slots[i];
      ftab[j] := k;
      fmap[k] := i;
    }
    forall c | 0 <= c < 256 ensures ftab[c] == Start(b, c, nblock) {
      StartNext(b, c);
    }
  }

  /** `f` lists the rotations bucket by bucket of their first symbol. */
  ghost predicate ByFirst(b: seq<byte>, f: seq<nat>)
  {
    && Perm(f, |b|)
    && forall x :: 0 <= x < |b| ==> Start(b, b[f[x]], |b|) <= x < Start(b, b[f[x]] as int + 1, |b|)
  }

  lemma DistributedByFirst(b: seq<byte>, f: seq<nat>)
    requires |f| == |b| && forall i :: 0 <= i < |b| ==> f[Slots(b)[i]] == i
    ensures ByFirst(b, f)
  {
    var n, s := |b|, Slots(b);
    forall x | 0 <= x < n
      ensures f[x] < n && s[f[x]] == x
      ensures Start(b, b[f[x]], |b|) <= x < Start(b, b[f[x]] as int + 1, |b|)
    {
      PermOnto(s, n, x);
      var i :| 0 <= i < n && s[i] == x;
      SlotBucket(b, i);
    }
    forall x, y | 0 <= x < y < n ensures f[x] != f[y] {
      assert s[f[x]] == x && s[f[y]] == y;
    }
  }

  // ---------------------------------------------------------------- the first header bits

  /** Where the bucket of symbol `c` starts. */
  ghost function StartOf(b: seq<byte>, c: nat): (s: nat)
  {
    Start(b, c, |b|)
  }

  /** Some bucket, possibly an empty one, starts at `x`. */
  ghost predicate BucketStart(b: seq<byte>, x: nat)
  {
    exists c :: 0 <= c < 256 && StartOf(b, c) == x
  }

  ghost predicate ZeroWords(w: seq<nat>, k: nat)
  {
    k <= |w| && forall i :: 0 <= i < k ==> w[i] == 0
  }

  /** Clears the table, then marks every bucket start and lays the alternating sentinels. */
  method FirstHeaders(bhtab: array<nat>, ftab: array<nat>, nblock: nat, ghost b: seq<byte>)
    requires bhtab.Length == TABLE_WORDS && ftab.Length == 257 && bhtab != ftab
    requires 0 < nblock == |b| <= MAX_BLOCK
    requires forall c :: 0 <= c < 256 ==> ftab[c] == Start(b, c, nblock)
    modifies bhtab
    ensures Fenced(bhtab[..], nblock)
    ensures forall x: nat :: x < nblock ==> (IsSet(bhtab[..], x) <==> BucketStart(b, x))
  {
    hide Start, IsSet;
    ghost var starts := seq(256, c requires 0 <= c < 256 => Start(b, c, nblock));
    forall c | 0 <= c < 256 ensures starts[c] == ftab[c] <= nblock {
      StartMonotone(b, c, 256, nblock);
      StartAll(b, 256, nblock);
    }
    var nBhtab := 2 + nblock / 32;
    for i := 0 to nBhtab
      invariant ZeroWords(bhtab[..], i)
    {
      bhtab[i] := 0;
    }
    forall z: nat | z / 32 < nBhtab ensures !IsSet(bhtab[..], z) {
      ZeroNone(bhtab[..], z / 32 * 32);
    }
    for i := 0 to 256
      invariant forall z: nat :: z < nblock ==> (IsSet(bhtab[..], z) <==> exists c :: 0 <= c < i && starts[c] == z)
    {
      ghost var w := bhtab[..];
      SetBH(bhtab, ftab[i]);
      forall z: nat | z < nblock
        ensures IsSet(bhtab[..], z) <==> exists c :: 0 <= c < i + 1 && starts[c] == z
      {
        assert z != starts[i] ==> IsSet(bhtab[..], z) == IsSet(w, z);
      }
    }
    for i := 0 to 32
      invariant forall z: nat :: z < nblock ==> (IsSet(bhtab[..], z) <==> exists c :: 0 <= c < 256 && starts[c] == z)
      invariant i > 0 ==> IsSet(bhtab[..], nblock) && !IsSet(bhtab[..], nblock + 1)
    {
      SetBH(bhtab, nblock + 2 * i);
      ClearBH(bhtab, nblock + 2 * i + 1);
    }
    forall x: nat | x < nblock ensures IsSet(bhtab[..], x) <==> BucketStart(b, x) {
      if c :| 0 <= c < 256 && StartOf(b, c) == x {
        assert starts[c] == x;
      }
      if c :| 0 <= c < 256 && starts[c] == x {
        assert StartOf(b, c) == x;
      }
    }
  }

  /** After the radix sort the order is that of depth 1. */
  lemma FirstDepth(b: seq<byte>, f: seq<nat>, bh: seq<nat>)
    requires |b| > 0 && ByFirst(b, f) && Fenced(bh, |b|)
    requires forall x: nat :: x < |b| ==> (IsSet(bh, x) <==> BucketStart(b, x))
    ensures AtDepth(b, f, bh, 1)
  {
    hide IsSet, Start, ByFirst;
    var n := |b|;
    StartZero(b);
    assert StartOf(b, 0) == 0;
    ByFirstPerm(b, f);
    forall x | 0 < x < n
      ensures Cmp(b, f[x - 1], f[x], Depth(1, 0, x)) <= 0
      ensures IsSet(bh, x) <==> Cmp(b, f[x - 1], f[x], Depth(1, 0, x)) != 0
    {
      FirstPair(b, f, x);
    }
  }

  lemma ByFirstPerm(b: seq<byte>, f: seq<nat>)
    requires ByFirst(b, f)
    ensures Perm(f, |b|)
  {
  }

  lemma StartZero(b: seq<byte>)
    ensures Start(b, 0, |b|) == 0
  {
  }

  lemma FirstSymbols(b: seq<byte>, i: nat, j: nat)
    requires i < |b| && j < |b|
    ensures Cmp(b, i, j, 1) == if b[i] < b[j] then -1 else if b[i] > b[j] then 1 else 0
  {
    assert Cmp(b, Next(|b|, i), Next(|b|, j), 0) == 0;
  }

  lemma FirstPair(b: seq<byte>, f: seq<nat>, x: nat)
    requires ByFirst(b, f) && 0 < x < |b|
    ensures f[x - 1] < |b| && f[x] < |b|
    ensures Cmp(b, f[x - 1], f[x], 1) <= 0
    ensures Cmp(b, f[x - 1], f[x], 1) != 0 <==> BucketStart(b, x)
  {
    hide Start, Cmp;
    var n, c, d := |b|, b[f[x - 1]], b[f[x]];
    assert StartOf(b, c) <= x - 1 < StartOf(b, c as int + 1);
    assert StartOf(b, d) <= x < StartOf(b, d as int + 1);
    FirstSymbols(b, f[x - 1], f[x]);
    hide ByFirst;
    if c > d {
      StartMonotone(b, d as int + 1, c, n);
    } else if c < d {
      StartMonotone(b, c as int + 1, d, n);
    } else if e: nat :| e < 256 && StartOf(b, e) == x {
      if e <= c {
        StartMonotone(b, e, c, n);
      } else {
        StartMonotone(b, c as int + 1, e, n);
      }
    }
  }

  // ---------------------------------------------------------------- what the rounds do, as functions

  /** The order that the radix sort leaves. */
  ghost function FirstOrder(b: seq<byte>): (f: seq<nat>)
  {
    seq(|b|, x requires 0 <= x < |b| => IndexOf(Slots(b), x))
  }

  /** Whether the entries `x - 1` and `x` differ in `h` symbols. */
  ghost predicate Differ(b: seq<byte>, f: seq<nat>, h: nat, x: nat)
  {
    0 < x < |f| && f[x - 1] < |b| && f[x] < |b| && Cmp(b, f[x - 1], f[x], h) != 0
  }

  /** The header bits at depth `h`, with that of the sentinel. */
  ghost function Heads(b: seq<byte>, f: seq<nat>, h: nat): (hd: seq<bool>)
    ensures |hd| == |b| + 1
  {
    seq(|b| + 1, x requires 0 <= x <= |b| => x == 0 || x == |b| || Differ(b, f, h, x))
  }

  function HeadOf(hd: seq<bool>, x: nat): (j: nat)
  {
    if x == 0 || x >= |hd| || hd[x] then x else HeadOf(hd, x - 1)
  }

  /** The classes at depth `h`. */
  ghost function Keys(b: seq<byte>, f: seq<nat>, h: nat): (key: seq<nat>)
  {
    seq(|b|, v requires 0 <= v < |b| => HeadOf(Heads(b, f, h), IndexOf(f, Advance(|b|, v, h))))
  }

  /** The first bit from `e` on that is `on`. */
  function FirstFrom(hd: seq<bool>, e: nat, on: bool): (k: nat)
    ensures e <= k && (k < |hd| ==> hd[k] == on)
    decreases |hd| - e
  {
    if e >= |hd| || hd[e] == on then e else FirstFrom(hd, e + 1, on)
  }

  /** The buckets from `e` on sorted by class. */
  function RoundFrom(f: seq<nat>, hd: seq<bool>, key: seq<nat>, e: nat): (t: seq<nat>)
    decreases |hd| - e
  {
    var k := FirstFrom(hd, e, false);
    if k >= |hd| then f
    else
      var r := FirstFrom(hd, k, true) - 1;
      RoundFrom(QSort.QSorted(f, key, k - 1, r), hd, key, r + 1)
  }

  ghost predicate Single(hd: seq<bool>)
  {
    forall x :: 0 <= x < |hd| ==> hd[x]
  }

  ghost function RoundsFrom(b: seq<byte>, f: seq<nat>, h: nat): (t: seq<nat>)
    decreases |b| - h
  {
    if h == 0 then f
    else
      var hd := Heads(b, f, h);
      var t := RoundFrom(f, hd, Keys(b, f, h), 0);
      if 2 * h > |b| || Single(hd) then t else RoundsFrom(b, t, 2 * h)
  }

  /** The order that the fallback sorter leaves: it depends on nothing but the block. */
  ghost function OrderOf(b: seq<byte>): (f: seq<nat>)
  {
    RoundsFrom(b, FirstOrder(b), 1)
  }

  lemma FirstOrderIs(b: seq<byte>, f: seq<nat>)
    requires |f| == |b| && forall i :: 0 <= i < |b| ==> f[Slots(b)[i]] == i
    ensures f == FirstOrder(b)
  {
    var s := Slots(b);
    forall x | 0 <= x < |b| ensures f[x] == IndexOf(s, x) {
      PermOnto(s, |b|, x);
    }
  }

  /** The header bits from `e` on are those of `hd`. */
  ghost predicate BitsFrom(bh: seq<nat>, hd: seq<bool>, e: nat)
  {
    |hd| > 0 && (|hd| - 1) / 32 < |bh| && forall x: nat :: e <= x < |hd| ==> IsSet(bh, x) == hd[x]
  }

  lemma HeadsAre(b: seq<byte>, f: seq<nat>, bh: seq<nat>, h: nat)
    requires AtDepth(b, f, bh, h)
    ensures BitsFrom(bh, Heads(b, f, h), 0)
  {
    hide IsSet, Cmp;
  }

  lemma {:induction false} HeadOfIs(bh: seq<nat>, hd: seq<bool>, x: nat)
    requires BitsFrom(bh, hd, 0) && x < |hd| && hd[0]
    ensures x / 32 < |bh| && Header(bh, x) == HeadOf(hd, x)
  {
    hide IsSet;
    if x > 0 {
      HeadOfIs(bh, hd, x - 1);
    }
  }

  lemma KeysAre(b: seq<byte>, f: seq<nat>, bh: seq<nat>, h: nat, ec: seq<nat>)
    requires AtDepth(b, f, bh, h) && ClassesTo(ec, f, bh, |b|, h, |b|)
    ensures ec[..|b|] == Keys(b, f, h)
  {
    var n, hd := |b|, Heads(b, f, h);
    HeadsAre(b, f, bh, h);
    hide Header, IsSet, Back, AtDepth, Advance, HeadOf, Cmp;
    forall v | 0 <= v < n ensures ec[v] == HeadOf(hd, IndexOf(f, Advance(n, v, h))) {
      var x := EntryAfter(f, n, v, h);
      assert IndexOf(f, Advance(n, v, h)) == x;
      HeadOfIs(bh, hd, x);
    }
  }

  lemma {:induction false} FirstFromIs(hd: seq<bool>, e: nat, on: bool, k: nat)
    requires e <= k <= |hd| && (forall x :: e <= x < k ==> hd[x] != on) && (k < |hd| ==> hd[k] == on)
    ensures FirstFrom(hd, e, on) == k
    decreases k - e
  {
    if e < k {
      FirstFromIs(hd, e + 1, on, k);
    }
  }

  /** No more buckets from `e` on. */
  lemma RoundOver(f: seq<nat>, hd: seq<bool>, key: seq<nat>, e: nat, bh: seq<nat>)
    requires BitsFrom(bh, hd, e) && e < |hd| && forall x :: e <= x < |hd| ==> IsSet(bh, x)
    ensures RoundFrom(f, hd, key, e) == f
    ensures e == 0 ==> Single(hd)
  {
    hide IsSet;
    FirstFromIs(hd, e, false, |hd|);
  }

  /** The next bucket is `l .. r`. */
  lemma RoundStep(f: seq<nat>, hd: seq<bool>, key: seq<nat>, e: nat, bh: seq<nat>, l: nat, r: nat)
    requires BitsFrom(bh, hd, e) && e <= l < r && r + 1 < |hd| && IsSet(bh, r + 1)
    requires forall x :: e <= x <= l ==> IsSet(bh, x)
    requires forall x :: l < x <= r ==> !IsSet(bh, x)
    ensures RoundFrom(f, hd, key, e) == RoundFrom(QSort.QSorted(f, key, l, r), hd, key, r + 1)
    ensures !Single(hd)
  {
    hide IsSet, QSort.QSorted;
    assert !IsSet(bh, l + 1);
    FirstFromIs(hd, e, false, l + 1);
    FirstFromIs(hd, l + 1, true, r + 1);
  }

  lemma BitsStill(bh: seq<nat>, bh': seq<nat>, hd: seq<bool>, e: nat, e': nat)
    requires BitsFrom(bh, hd, e) && e <= e' && |bh'| == |bh|
    requires forall x: nat :: x / 32 < |bh| && e' <= x ==> IsSet(bh', x) == IsSet(bh, x)
    ensures BitsFrom(bh', hd, e')
  {
    hide IsSet;
  }

  lemma RoundsStep(b: seq<byte>, f: seq<nat>, h: nat)
    requires h > 0
    ensures RoundsFrom(b, f, h)
            == var t := RoundFrom(f, Heads(b, f, h), Keys(b, f, h), 0);
               if 2 * h > |b| || Single(Heads(b, f, h)) then t else RoundsFrom(b, t, 2 * h)
  {
    hide RoundFrom, Keys, Heads, Single;
  }

  // ---------------------------------------------------------------- one round

  /** `eclass` shares its memory with the block: once it is written, the block's bytes are arbitrary. */
  method Clobber(eclass8: array<nat>)
    modifies eclass8
  {
    for i := 0 to eclass8.Length {
      eclass8[i] := *;
    }
  }

  /** The classes set from the first `e` entries. */
  ghost predicate ClassesTo(ec: seq<nat>, f: seq<nat>, bh: seq<nat>, n: nat, h: nat, e: nat)
  {
    && Perm(f, n) && h <= n <= |ec| && n / 32 < |bh| && e <= n
    && forall x: nat :: x < e ==> ec[Back(n, f[x], h)] == Header(bh, x)
  }

  lemma ClassSet(ec: seq<nat>, f: seq<nat>, bh: seq<nat>, n: nat, h: nat, e: nat)
    requires ClassesTo(ec, f, bh, n, h, e) && e < n
    ensures f[e] < n && Back(n, f[e], h) < |ec| && e / 32 < |bh|
    ensures ClassesTo(ec[Back(n, f[e], h) := Header(bh, e)], f, bh, n, h, e + 1)
  {
    hide Header, IsSet;
    forall x: nat | x < e ensures Back(n, f[x], h) != Back(n, f[e], h) {
      assert Advance(n, Back(n, f[x], h), h) == f[x] != f[e];
    }
  }

  lemma ClassesStart(b: seq<byte>, f: seq<nat>, bh: seq<nat>, h: nat, ec: seq<nat>)
    requires AtDepth(b, f, bh, h) && h <= |b| <= |ec|
    ensures ClassesTo(ec, f, bh, |b|, h, 0) && forall x :: 0 <= x < |f| ==> f[x] < |b|
  {
  }

  lemma ClassesDone(b: seq<byte>, f: seq<nat>, bh: seq<nat>, h: nat, ec: seq<nat>)
    requires AtDepth(b, f, bh, h) && ClassesTo(ec, f, bh, |b|, h, |b|)
    ensures Classes(b, ec, h)
  {
    hide Header, IsSet, Back, AtDepth;
    ClassesFrom(b, f, bh, h, ec);
  }

  lemma HeaderStep(bh: seq<nat>, x: nat)
    requires x / 32 < |bh|
    ensures Header(bh, x) == if IsSet(bh, x) then x else if x == 0 then 0 else Header(bh, x - 1)
  {
  }

  /** Gives every rotation the header position of the rotation `H` places later. */
  method SetClasses(fmap: array<nat>, eclass: array<nat>, bhtab: array<nat>, nblock: nat, H: nat, ghost b: seq<byte>)
    requires nblock == |b| == fmap.Length <= eclass.Length && H <= nblock
    requires fmap != eclass && bhtab != eclass
    requires AtDepth(b, fmap[..], bhtab[..], H)
    modifies eclass
    ensures Classes(b, eclass[..], H)
    ensures eclass[..nblock] == Keys(b, fmap[..], H)
  {
    hide *;
    ghost var f: seq<nat>, bh: seq<nat> := fmap[..], bhtab[..];
    ClassesStart(b, f, bh, H, eclass[..]);
    BucketsWords(b, f, bh, H);
    var j := 0;
    for i := 0 to nblock
      invariant fmap[..] == f && bhtab[..] == bh && nblock / 32 < |bh|
      invariant j == if i == 0 then 0 else Header(bh, i - 1)
      invariant ClassesTo(eclass[..], f, bh, nblock, H, i)
    {
      ghost var ec: seq<nat> := eclass[..];
      ClassSet(ec, f, bh, nblock, H, i);
      var on := TestBH(bhtab, i);
      HeaderStep(bh, i);
      if on {
        j := i;
      }
      var k: int := fmap[i] - H;
      if k < 0 {
        k := k + nblock;
      }
      BackIs(nblock, f[i], H);
      eclass[k] := j;
      assert eclass[..] == ec[k := j];
    }
    ClassesDone(b, f, bh, H, eclass[..]);
    KeysAre(b, f, bh, H, eclass[..]);
    assert eclass[..nblock] == eclass[..][..nblock];
  }

  lemma BucketsWords(b: seq<byte>, f: seq<nat>, bh: seq<nat>, h: nat)
    requires AtDepth(b, f, bh, h)
    ensures |b| / 32 < |bh|
  {
    hide Perm, Cmp, IsSet;
  }

  lemma BackIs(n: nat, v: nat, h: nat)
    requires v < n && h <= n
    ensures Back(n, v, h) == if v < h then v - h + n else v - h
  {
    AdvanceIs(n, if v < h then v - h + n else v - h, h);
  }

  /** Marks the entries of a sorted bucket whose class differs from that of the entry before. */
  method MarkHeaders(fmap: array<nat>, eclass: array<nat>, bhtab: array<nat>, l: nat, r: nat, nblock: nat)
    requires fmap != bhtab && eclass != bhtab && l <= r < nblock == fmap.Length && nblock / 32 < bhtab.Length
    requires forall x :: 0 <= x < nblock ==> fmap[x] < eclass.Length
    requires IsSet(bhtab[..], l) && forall x :: l < x <= r ==> !IsSet(bhtab[..], x)
    modifies bhtab
    ensures forall x :: l < x <= r ==> (IsSet(bhtab[..], x) <==> eclass[fmap[x - 1]] != eclass[fmap[x]])
    ensures forall x: nat :: x / 32 < bhtab.Length && !(l < x <= r) ==> IsSet(bhtab[..], x) == IsSet(old(bhtab[..]), x)
  {
    hide IsSet;
    ghost var bh := bhtab[..];
    var cc: int := -1;
    for i := l to r + 1
      invariant i > l ==> cc == eclass[fmap[i - 1]]
      invariant i == l ==> cc == -1 && bhtab[..] == bh
      invariant forall x :: l < x < i ==> (IsSet(bhtab[..], x) <==> eclass[fmap[x - 1]] != eclass[fmap[x]])
      invariant forall x: nat :: x / 32 < bhtab.Length && !(l < x < i) ==> IsSet(bhtab[..], x) == IsSet(bh, x)
    {
      var cc1 := eclass[fmap[i]];
      if cc != cc1 {
        SetBH(bhtab, i);
        cc := cc1;
      }
    }
  }

  lemma BucketsPerm(b: seq<byte>, f: seq<nat>, bh: seq<nat>, h: nat, e: nat)
    requires Buckets(b, f, bh, h, e)
    ensures Perm(f, |b|) && Fenced(bh, |b|) && e <= |b| && IsSet(bh, e)
    ensures (|b| + 64) / 32 < |bh| && IsSet(bh, |b|) && !IsSet(bh, |b| + 1)
  {
  }

  lemma PermKeyed(f: seq<nat>, n: nat, key: seq<nat>)
    requires Perm(f, n) && n <= |key|
    ensures Keyed(f, key, 0) && forall x :: 0 <= x < n ==> f[x] < |key|
  {
  }

  /** Sorting inside a bucket keeps the first symbol of every entry. */
  lemma FirstKept(b: seq<byte>, f: seq<nat>, f': seq<nat>, bh: seq<nat>, h: nat, l: nat, r: nat)
    requires ByFirst(b, f) && Buckets(b, f, bh, h, l) && h > 0 && l <= r < |b|
    requires forall z :: l < z <= r ==> !IsSet(bh, z)
    requires Rearranged(f, f', l, r)
    ensures ByFirst(b, f')
  {
    RearrangedPerm(f, f', l, r, |b|);
    forall x | 0 <= x < |b| ensures b[f'[x]] == b[f[x]] {
      SameBucket(b, f, f', bh, h, l, r, x);
      assert Cmp(b, f[x], f'[x], h) == 0;
    }
  }

  lemma SortedSteps(f: seq<nat>, key: seq<nat>, l: nat, r: nat)
    requires Keyed(f, key, 0) && QSort.SortedBy(f, key, 0, l, r) && l <= r < |f|
    ensures forall x :: 0 <= x < |f| ==> f[x] < |key|
    ensures forall x :: l < x <= r ==> key[f[x - 1]] <= key[f[x]]
  {
    forall x | l < x <= r ensures key[f[x - 1]] <= key[f[x]] {
      assert Key(key, 0, f[x - 1]) <= Key(key, 0, f[x]);
    }
  }

  /** Sorts one bucket by class and generates its header bits. */
  method SortBucket(fmap: array<nat>, eclass: array<nat>, bhtab: array<nat>, l: nat, r: nat, nblock: nat,
                    ghost H: nat, ghost b: seq<byte>)
    requires fmap != eclass && fmap != bhtab && eclass != bhtab
    requires nblock == |b| == fmap.Length <= eclass.Length && nblock <= MAX_BLOCK
    requires Buckets(b, fmap[..], bhtab[..], H, l) && Classes(b, eclass[..], H) && H > 0 && l <= r < nblock
    requires ByFirst(b, fmap[..])
    requires (forall z :: l < z <= r ==> !IsSet(bhtab[..], z)) && IsSet(bhtab[..], r + 1)
    modifies fmap, bhtab
    ensures Buckets(b, fmap[..], bhtab[..], H, r + 1) && ByFirst(b, fmap[..])
    ensures fmap[..] == QSort.QSorted(old(fmap[..]), eclass[..nblock], l, r)
    ensures forall x: nat :: x / 32 < bhtab.Length && r + 1 <= x ==> IsSet(bhtab[..], x) == IsSet(old(bhtab[..]), x)
  {
    hide QSort.QSorted, IsSet, Buckets, Perm, Keyed, Rearranged, Classes, ByFirst, QSort.SortedBy, Fenced;
    ghost var f, bh, ec := fmap[..], bhtab[..], eclass[..];
    ghost var key := eclass[..nblock];
    BucketsPerm(b, f, bh, H, l);
    PermKeyed(f, nblock, key);
    assert nblock / 32 < |bh|;
    QSort.QSort3(fmap, eclass, key, l, r);
    ghost var f' := fmap[..];
    assert eclass[..] == ec && bhtab[..] == bh;
    SortedSteps(f', key, l, r);
    FirstKept(b, f, f', bh, H, l, r);
    MarkHeaders(fmap, eclass, bhtab, l, r, nblock);
    assert fmap[..] == f' && eclass[..] == ec;
    RefineBucket(b, f, f', bh, bhtab[..], ec, H, l, r);
  }

  ghost predicate AllSet(bh: seq<nat>, e: nat)
    requires e / 32 < |bh|
  {
    forall x :: 0 <= x <= e ==> IsSet(bh, x)
  }

  /** The next bucket from `e` on that is not a single entry. */
  method NextBucket(bhtab: array<nat>, e: nat, nblock: nat) returns (done: bool, l: nat, r: nat)
    requires e <= nblock && (nblock + 64) / 32 < bhtab.Length
    requires IsSet(bhtab[..], e) && IsSet(bhtab[..], nblock) && !IsSet(bhtab[..], nblock + 1)
    ensures done ==> forall x :: e <= x <= nblock ==> IsSet(bhtab[..], x)
    ensures !done ==> e <= l < r < nblock && IsSet(bhtab[..], r + 1)
    ensures !done ==> forall x :: e <= x <= l ==> IsSet(bhtab[..], x)
    ensures !done ==> forall x :: l < x <= r ==> !IsSet(bhtab[..], x)
  {
    hide IsSet;
    l, r := 0, 0;
    var k := SkipSet(bhtab, e, nblock + 1);
    assert k != e;
    l := k - 1;
    if l >= nblock {
      return true, l, r;
    }
    k := SkipClear(bhtab, k, nblock);
    r := k - 1;
    if r >= nblock {
      assert false;
    }
    return false, l, r;
  }

  lemma AllSetMore(bh: seq<nat>, a: nat, e: nat)
    requires a <= e && e / 32 < |bh| && forall x :: a <= x <= e ==> IsSet(bh, x)
    ensures AllSet(bh, a) ==> AllSet(bh, e)
  {
    hide IsSet;
  }

  lemma RoundStart(b: seq<byte>, f: seq<nat>, bh: seq<nat>, h: nat)
    requires AtDepth(b, f, bh, h)
    ensures Buckets(b, f, bh, h, 0) && |b| / 32 < |bh| && AllSet(bh, 0)
  {
    hide Perm, Cmp, IsSet;
  }

  /** One round: every bucket that is not a single entry is sorted by class. */
  method Round(fmap: array<nat>, eclass: array<nat>, bhtab: array<nat>, nblock: nat, ghost H: nat, ghost b: seq<byte>)
    returns (nNotDone: nat)
    requires fmap != eclass && fmap != bhtab && eclass != bhtab
    requires nblock == |b| == fmap.Length <= eclass.Length && 0 < nblock <= MAX_BLOCK
    requires AtDepth(b, fmap[..], bhtab[..], H) && Classes(b, eclass[..], H) && H > 0
    requires ByFirst(b, fmap[..])
    modifies fmap, bhtab
    ensures Buckets(b, fmap[..], bhtab[..], H, nblock) && ByFirst(b, fmap[..])
    ensures nblock / 32 < bhtab.Length && (nNotDone == 0 ==> AllSet(bhtab[..], nblock))
    ensures nNotDone == 0 <==> Single(Heads(b, old(fmap[..]), H))
    ensures fmap[..] == RoundFrom(old(fmap[..]), Heads(b, old(fmap[..]), H), eclass[..nblock], 0)
  {
    hide *;
    ghost var ec, key, hd := eclass[..], eclass[..nblock], Heads(b, fmap[..], H);
    ghost var all := RoundFrom(fmap[..], hd, key, 0);
    HeadsAre(b, fmap[..], bhtab[..], H);
    RoundStart(b, fmap[..], bhtab[..], H);
    nNotDone := 0;
    var r: int := -1;
    while true
      invariant eclass[..] == ec && -1 <= r < nblock && nblock / 32 < bhtab.Length
      invariant Buckets(b, fmap[..], bhtab[..], H, r + 1) && ByFirst(b, fmap[..])
      invariant nNotDone == 0 ==> AllSet(bhtab[..], r + 1)
      invariant nNotDone == 0 <==> r == -1
      invariant r >= 0 ==> !Single(hd)
      invariant eclass[..nblock] == key && BitsFrom(bhtab[..], hd, r + 1)
      invariant all == RoundFrom(fmap[..], hd, key, r + 1)
      decreases nblock - r
    {
      ghost var f, bh := fmap[..], bhtab[..];
      BucketsPerm(b, f, bh, H, r + 1);
      var done, l, r' := NextBucket(bhtab, r + 1, nblock);
      if done {
        SkipSingles(b, f, bh, H, r + 1, nblock);
        AllSetMore(bh, r + 1, nblock);
        RoundOver(f, hd, key, r + 1, bh);
        break;
      }
      SkipSingles(b, f, bh, H, r + 1, l);
      RoundStep(f, hd, key, r + 1, bh, l, r');
      ghost var e := r + 1;
      r := r';
      nNotDone := nNotDone + (r - l + 1);
      SortBucket(fmap, eclass, bhtab, l, r, nblock, H, b);
      BitsStill(bh, bhtab[..], hd, e, r + 1);
    }
  }

  // ---------------------------------------------------------------- the whole sort

  lemma RefinedDepth(b: seq<byte>, f: seq<nat>, bh: seq<nat>, h: nat)
    requires |b| > 0 && Buckets(b, f, bh, h, |b|)
    ensures AtDepth(b, f, bh, 2 * h)
  {
    forall x | 0 < x < |b|
      ensures Cmp(b, f[x - 1], f[x], Depth(2 * h, 0, x)) <= 0
      ensures IsSet(bh, x) <==> Cmp(b, f[x - 1], f[x], Depth(2 * h, 0, x)) != 0
    {
      assert Depth(2 * h, 0, x) == Depth(h, |b|, x);
    }
  }

  /** Neighbours that are in order make a sorted list. */
  lemma {:induction false} SortedFromNeighbours(b: seq<byte>, f: seq<nat>, x: nat, y: nat)
    requires Perm(f, |b|) && x <= y < |b|
    requires forall z :: 0 < z < |b| ==> Le(b, f[z - 1], f[z])
    ensures Le(b, f[x], f[y])
    decreases y - x
  {
    if x == y {
      CmpRefl(b, f[x], |b|);
    } else {
      SortedFromNeighbours(b, f, x, y - 1);
      CmpTrans(b, f[x], f[y - 1], f[y], |b|);
    }
  }

  /** When the depth has passed the block's length, or no two entries agree, the rotations are sorted. */
  lemma DeepEnough(b: seq<byte>, f: seq<nat>, bh: seq<nat>, h: nat)
    requires |b| > 0 && AtDepth(b, f, bh, h)
    requires h > |b| || AllSet(bh, |b|)
    ensures Sorted(b, f)
  {
    forall z | 0 < z < |b| ensures Le(b, f[z - 1], f[z]) {
      var i, j := f[z - 1], f[z];
      assert Cmp(b, i, j, h) <= 0;
      if h > |b| {
        DeepCompare(b, i, j, h);
      } else {
        assert IsSet(bh, z);
        CmpSplit(b, i, j, h, |b| - h);
      }
    }
    forall x, y | 0 <= x <= y < |b| ensures Le(b, f[x], f[y]) {
      SortedFromNeighbours(b, f, x, y);
    }
  }

  /** An index lies in one bucket only. */
  lemma OneBucket(b: seq<byte>, c: nat, d: nat, x: nat)
    requires StartOf(b, c) <= x < StartOf(b, c + 1) && StartOf(b, d) <= x < StartOf(b, d + 1)
    ensures c == d
  {
    hide Start, Occ;
    if c < d {
      StartMonotone(b, c + 1, d, |b|);
    } else if d < c {
      StartMonotone(b, d + 1, c, |b|);
    }
  }

  /** The symbol whose bucket contains entry `i`, which is not before `j0`. */
  method NextSymbol(ftabCopy: array<nat>, j0: nat, i: nat, ghost b: seq<byte>) returns (j: nat)
    requires ftabCopy.Length == 256 && j0 < 256 && i < |b| && StartOf(b, j0) <= i
    requires i == StartOf(b, j0 + 1) - ftabCopy[j0]
    requires forall c :: j0 < c < 256 ==> ftabCopy[c] == Occ(b, c, |b|)
    ensures j0 <= j < 256 && StartOf(b, j) <= i && ftabCopy[j] > 0
    ensures i == StartOf(b, j + 1) - ftabCopy[j]
  {
    hide Start, Occ;
    StartAll(b, 256, |b|);
    j := j0;
    while ftabCopy[j] == 0
      invariant j0 <= j < 256 && StartOf(b, j) <= i
      invariant i == StartOf(b, j + 1) - ftabCopy[j]
      decreases 256 - j
    {
      assert j + 1 < 256;
      StartNext(b, j + 1);
      j := j + 1;
    }
  }

  /** Writes the block back from the sorted order and the counts of its bytes (assertion 1005 holds). */
  method Reconstruct(fmap: array<nat>, ftabCopy: array<nat>, eclass8: array<nat>, nblock: nat, ghost b: seq<byte>)
    requires nblock == |b| == fmap.Length <= eclass8.Length && ftabCopy.Length == 256
    requires fmap != ftabCopy && eclass8 != fmap && eclass8 != ftabCopy
    requires forall c :: 0 <= c < 256 ==> ftabCopy[c] == Occ(b, c, nblock)
    requires ByFirst(b, fmap[..]) && nblock > 0
    modifies ftabCopy, eclass8
    ensures eclass8[..nblock] == b
  {
    ghost var f := fmap[..];
    hide Start, Occ;
    var j := 0;
    StartZero(b);
    StartOne(b);
    StartAll(b, 256, nblock);
    for i := 0 to nblock
      invariant fmap[..] == f
      invariant 0 <= j < 256 && StartOf(b, j) <= i
      invariant i == StartOf(b, j + 1) - ftabCopy[j]
      invariant forall c :: j < c < 256 ==> ftabCopy[c] == Occ(b, c, nblock)
      invariant forall x :: 0 <= x < i ==> eclass8[f[x]] == b[f[x]]
    {
      j := NextSymbol(ftabCopy, j, i, b);
      OneBucket(b, j, b[f[i]], i);
      ftabCopy[j] := ftabCopy[j] - 1;
      eclass8[fmap[i]] := j;
    }
    forall v | 0 <= v < nblock ensures eclass8[v] == b[v] {
      PermOnto(f, nblock, v);
      var x :| 0 <= x < nblock && f[x] == v;
    }
  }

  /** Everything before the first round: the order by first byte and its header bits. */
  method Prepare(fmap: array<nat>, eclass8: array<nat>, bhtab: array<nat>, nblock: nat, ghost b: seq<byte>)
    returns (ftabCopy: array<nat>)
    requires fmap != bhtab && eclass8 != fmap && eclass8 != bhtab
    requires nblock == |b| == fmap.Length <= eclass8.Length && 0 < nblock <= MAX_BLOCK
    requires eclass8[..nblock] == b && bhtab.Length == TABLE_WORDS
    modifies fmap, bhtab
    ensures fresh(ftabCopy) && ftabCopy.Length == 256
    ensures forall c :: 0 <= c < 256 ==> ftabCopy[c] == Occ(b, c, nblock)
    ensures ByFirst(b, fmap[..]) && AtDepth(b, fmap[..], bhtab[..], 1)
    ensures fmap[..] == FirstOrder(b)
  {
    hide FirstOrder, Occ, Start, ByFirst, AtDepth, IsSet, Cmp;
    var ftab := new nat[257];
    ftabCopy := new nat[256];
    CountBytes(eclass8, ftab, ftabCopy, nblock, b);
    Distribute(eclass8, ftab, fmap, nblock, b);
    DistributedByFirst(b, fmap[..]);
    FirstOrderIs(b, fmap[..]);
    FirstHeaders(bhtab, ftab, nblock, b);
    FirstDepth(b, fmap[..], bhtab[..]);
  }

  /** The rounds, each of which doubles the depth, until the depth passes the block or all buckets are single. */
  method Rounds(fmap: array<nat>, eclass: array<nat>, bhtab: array<nat>, nblock: nat, ghost b: seq<byte>)
    requires fmap != eclass && fmap != bhtab && eclass != bhtab
    requires nblock == |b| == fmap.Length <= eclass.Length && 0 < nblock <= MAX_BLOCK
    requires ByFirst(b, fmap[..]) && AtDepth(b, fmap[..], bhtab[..], 1)
    modifies fmap, eclass, bhtab
    ensures Sorted(b, fmap[..]) && ByFirst(b, fmap[..])
    ensures fmap[..] == RoundsFrom(b, old(fmap[..]), 1)
  {
    hide *;
    var H := 1;
    while true
      invariant RoundsFrom(b, old(fmap[..]), 1) == RoundsFrom(b, fmap[..], H)
      invariant 1 <= H <= nblock && AtDepth(b, fmap[..], bhtab[..], H) && ByFirst(b, fmap[..])
      decreases nblock - H
    {
      RoundsStep(b, fmap[..], H);
      SetClasses(fmap, eclass, bhtab, nblock, H, b);
      var nNotDone := Round(fmap, eclass, bhtab, nblock, H, b);
      RefinedDepth(b, fmap[..], bhtab[..], H);
      H := H * 2;
      if H > nblock || nNotDone == 0 {
        DeepEnough(b, fmap[..], bhtab[..], H);
        break;
      }
    }
  }

  lemma OrderIs(b: seq<byte>)
    ensures OrderOf(b) == RoundsFrom(b, FirstOrder(b), 1)
  {
  }

  /**
   Leaves `fmap` a sorted order of the rotations of the block, for every non-empty block, and
   the block itself, whose memory serves as `eclass` meanwhile, as it was.
   */
  method Sort(fmap: array<nat>, eclass: array<nat>, eclass8: array<nat>, bhtab: array<nat>, nblock: nat,
              ghost b: seq<byte>)
    requires fmap != eclass && fmap != bhtab && eclass != bhtab
    requires eclass8 != fmap && eclass8 != eclass && eclass8 != bhtab
    requires nblock == |b| == fmap.Length <= eclass.Length && 0 < nblock <= MAX_BLOCK
    requires nblock <= eclass8.Length && eclass8[..nblock] == b && bhtab.Length == TABLE_WORDS
    modifies fmap, eclass, eclass8, bhtab
    ensures Sorted(b, fmap[..])
    ensures eclass8[..nblock] == b
    ensures fmap[..] == OrderOf(b)
  {
    hide *;
    OrderIs(b);
    var ftabCopy := Prepare(fmap, eclass8, bhtab, nblock, b);
    Clobber(eclass8);
    Rounds(fmap, eclass, bhtab, nblock, b);
    Reconstruct(fmap, ftabCopy, eclass8, nblock, b);
  }
}
