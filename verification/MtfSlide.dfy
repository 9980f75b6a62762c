/**
 The decoder's move-to-front list (decompress.c lines 364-376 and 429-481): sixteen lists of
 sixteen ranks that slide down inside an area of 4096, as a list of 256.
 */
module MtfSlide {

  import opened Mtf

  const MTFA_SIZE := 4096
  const MTFL_SIZE := 16

  /** The sixteen lists lie in the area in order, without overlap. */
  ghost predicate Apart(base: seq<nat>)
  {
    && |base| == 16
    && (forall i :: 0 <= i < 15 ==> base[i] + 16 <= base[i + 1])
    && base[15] + 16 <= MTFA_SIZE
  }

  lemma {:induction false} ApartPair(base: seq<nat>, i: nat, j: nat)
    requires Apart(base) && i < j < 16
    ensures base[i] + 16 * (j - i) <= base[j]
    decreases j
  {
    if i < j - 1 {
      ApartPair(base, i, j - 1);
    }
    assert base[j - 1] + 16 <= base[j - 1 + 1];
  }

  /** No list lies higher than where packing would put it. */
  lemma ApartTop(base: seq<nat>, i: nat)
    requires Apart(base) && i < 16
    ensures base[i] + 16 * (16 - i) <= MTFA_SIZE
  {
    if i < 15 {
      ApartPair(base, i, 15);
    }
  }

  /** Where element `k` of the list is. */
  function Place(base: seq<nat>, k: nat): (p: nat)
    requires |base| == 16 && k < 256
  {
    base[k / 16] + k % 16
  }

  /** The list that the area holds. */
  function View(mtfa: seq<nat>, base: seq<nat>): (l: seq<nat>)
    requires |mtfa| == MTFA_SIZE && Apart(base)
    ensures |l| == 256
  {
    seq(256, k requires 0 <= k < 256 => (ApartTop(base, k / 16); mtfa[Place(base, k)]))
  }

  ghost predicate Holds(mtfa: seq<nat>, base: seq<nat>, l: seq<nat>)
  {
    && |mtfa| == MTFA_SIZE && Apart(base) && |l| == 256
    && forall k :: 0 <= k < 256 ==> Place(base, k) < MTFA_SIZE && mtfa[Place(base, k)] == l[k]
  }

  lemma HoldsView(mtfa: seq<nat>, base: seq<nat>)
    requires |mtfa| == MTFA_SIZE && Apart(base)
    ensures Holds(mtfa, base, View(mtfa, base))
  {
    forall k | 0 <= k < 256 ensures Place(base, k) < MTFA_SIZE {
      ApartTop(base, k / 16);
    }
  }

  /** Different elements have different places, in the same order. */
  lemma PlaceOrder(base: seq<nat>, j: nat, k: nat)
    requires Apart(base) && j < k < 256
    ensures Place(base, j) < Place(base, k)
  {
    if j / 16 < k / 16 {
      ApartPair(base, j / 16, k / 16);
    }
  }

  // ---------------------------------------------------------------- packing

  /** The lists `ii ..` and, of list `ii - 1`, the elements `jj ..` are packed at the top. */
  ghost predicate Packing(mtfa: seq<nat>, base: seq<nat>, l: seq<nat>, base0: seq<nat>, k: nat)
  {
    && |mtfa| == MTFA_SIZE && |l| == 256 && Apart(base0) && |base| == 16 && k <= 256
    && (forall i :: 0 <= i < 16 ==> base[i] == if 16 * i >= k then 3840 + 16 * i else base0[i])
    && (forall x :: k <= x < 256 ==> mtfa[3840 + x] == l[x])
    && (forall x :: 0 <= x < k ==> Place(base0, x) <= 3840 + x && mtfa[Place(base0, x)] == l[x])
  }

  lemma PackingStart(mtfa: seq<nat>, base: seq<nat>, l: seq<nat>)
    requires Holds(mtfa, base, l)
    ensures Packing(mtfa, base, l, base, 256)
  {
    forall x | 0 <= x < 256 ensures Place(base, x) <= 3840 + x {
      ApartTop(base, x / 16);
    }
  }

  /** Copying downwards reads every element before its place is written. */
  lemma PackingStep(mtfa: seq<nat>, base: seq<nat>, l: seq<nat>, base0: seq<nat>, k: nat)
    requires Packing(mtfa, base, l, base0, k + 1) && k < 256
    ensures Place(base0, k) < MTFA_SIZE && base[k / 16] == base0[k / 16]
    ensures Packing(mtfa[3840 + k := mtfa[Place(base0, k)]], if k % 16 == 0 then base[k / 16 := 3840 + k]
                    else base, l, base0, k)
  {
    var mtfa' := mtfa[3840 + k := mtfa[Place(base0, k)]];
    forall x | 0 <= x < k ensures Place(base0, x) != 3840 + k {
      PlaceOrder(base0, x, k);
    }
    hide Place;
    var base' := if k % 16 == 0 then base[k / 16 := 3840 + k] else base;
    forall i | 0 <= i < 16 ensures base'[i] == if 16 * i >= k then 3840 + 16 * i else base0[i] {
    }
  }

  lemma PackingDone(mtfa: seq<nat>, base: seq<nat>, l: seq<nat>, base0: seq<nat>)
    requires Packing(mtfa, base, l, base0, 0)
    ensures Holds(mtfa, base, l) && base[0] == 3840
  {
    forall k | 0 <= k < 256 ensures Place(base, k) == 3840 + k {
      assert base[k / 16] == 3840 + 16 * (k / 16);
    }
  }

  /** Moves all lists back to the top of the area. */
  method Repack(mtfa: array<nat>, mtfbase: array<nat>, ghost l: seq<nat>)
    requires mtfa != mtfbase && Holds(mtfa[..], mtfbase[..], l)
    modifies mtfa, mtfbase
    ensures Holds(mtfa[..], mtfbase[..], l) && mtfbase[..] != [] && mtfbase[0] == 3840
  {
    ghost var base0: seq<nat> := mtfbase[..];
    PackingStart(mtfa[..], base0, l);
    assert mtfa.Length == 4096 && mtfbase.Length == 16;
    hide *;
    var kk: int := 4095;
    var ii: int := 15;
    while ii >= 0
      invariant -1 <= ii <= 15 && kk == 3840 + 16 * ii + 15
      invariant Packing(mtfa[..], mtfbase[..], l, base0, 16 * ii + 16)
    {
      var jj: int := 15;
      while jj >= 0
        invariant -1 <= jj <= 15 && kk == 3840 + 16 * ii + jj
        invariant jj >= 0 ==> Packing(mtfa[..], mtfbase[..], l, base0, 16 * ii + jj + 1)
        invariant jj == -1 ==> AlmostPacked(mtfa[..], mtfbase[..], l, base0, ii)
      {
        ghost var a: seq<nat>, base: seq<nat> := mtfa[..], mtfbase[..];
        ghost var k := 16 * ii + jj;
        PackingStep(a, base, l, base0, k);
        PlaceIs(base0, ii, jj);
        var from := mtfbase[ii] + jj;
        mtfa[kk] := mtfa[from];
        assert mtfa[..] == a[3840 + k := a[from]];
        kk := kk - 1;
        jj := jj - 1;
        AlmostPackedIs(mtfa[..], mtfbase[..], l, base0, ii);
      }
      ghost var base: seq<nat> := mtfbase[..];
      mtfbase[ii] := kk + 1;
      assert mtfbase[..] == base[ii := kk + 1];
      AlmostPackedDone(mtfa[..], base, l, base0, ii);
      ii := ii - 1;
    }
    PackingDone(mtfa[..], mtfbase[..], l, base0);
  }

  lemma PlaceIs(base: seq<nat>, i: nat, j: nat)
    requires |base| == 16 && i < 16 && j < 16
    ensures 16 * i + j < 256 && Place(base, 16 * i + j) == base[i] + j && (16 * i + j) / 16 == i
    ensures (16 * i + j) % 16 == j
  {
  }

  /** List `i` is packed but for its base. */
  ghost predicate AlmostPacked(mtfa: seq<nat>, base: seq<nat>, l: seq<nat>, base0: seq<nat>, i: nat)
  {
    i < 16 && |base| == 16 && Packing(mtfa, base[i := 3840 + 16 * i], l, base0, 16 * i)
  }

  lemma AlmostPackedIs(mtfa: seq<nat>, base: seq<nat>, l: seq<nat>, base0: seq<nat>, i: nat)
    ensures AlmostPacked(mtfa, base, l, base0, i)
            <==> i < 16 && |base| == 16 && Packing(mtfa, base[i := 3840 + 16 * i], l, base0, 16 * i)
  {
  }

  lemma AlmostPackedDone(mtfa: seq<nat>, base: seq<nat>, l: seq<nat>, base0: seq<nat>, i: nat)
    requires AlmostPacked(mtfa, base, l, base0, i)
    ensures i < 16 && |base| == 16 && Packing(mtfa, base[i := 3840 + 16 * i], l, base0, 16 * i)
  {
  }

  // ---------------------------------------------------------------- taking an element

  /** `a` with the entries from `at` to `at + n - 1` moved up by one, and `v` put first. */
  function Shifted(a: seq<nat>, at: nat, n: nat, v: nat): (r: seq<nat>)
    requires at + n < |a|
    ensures |r| == |a|
  {
    a[..at] + [v] + a[at..at + n] + a[at + n + 1..]
  }

  lemma ShiftedAt(a: seq<nat>, at: nat, n: nat, v: nat, x: nat)
    requires at + n < |a| && x < |a|
    ensures Shifted(a, at, n, v)[x] == if x < at || at + n < x then a[x] else if x == at then v else a[x - 1]
  {
  }

  /** Moves entries up by one, from the top down; the first entry keeps its old value. */
  method ShiftUp(a: array<nat>, at: nat, n: nat)
    requires at + n < a.Length
    modifies a
    ensures a[..] == Shifted(old(a[..]), at, n, old(a[at]))
  {
    ghost var a0 := a[..];
    var top := at + n;
    while top > at
      invariant at <= top <= at + n
      invariant forall x :: 0 <= x <= top ==> a[x] == a0[x]
      invariant forall x :: top < x <= at + n ==> a[x] == a0[x - 1]
      invariant forall x :: at + n < x < a.Length ==> a[x] == a0[x]
    {
      a[top] := a[top - 1];
      top := top - 1;
    }
    forall x | 0 <= x < a.Length ensures a[x] == Shifted(a0, at, n, a0[at])[x] {
      ShiftedAt(a0, at, n, a0[at], x);
    }
  }

  lemma FrontAt(l: seq<nat>, k: nat, i: nat)
    requires k < |l| && i < |l|
    ensures Front(l, k)[i] == if i == 0 then l[k] else if i <= k then l[i - 1] else l[i]
  {
  }

  /** A shift inside the first list. */
  lemma TakeNear(mtfa: seq<nat>, base: seq<nat>, l: seq<nat>, n: nat)
    requires Holds(mtfa, base, l) && n < 16
    ensures base[0] + n < |mtfa| && mtfa[base[0] + n] == l[n]
    ensures Holds(Shifted(mtfa, base[0], n, l[n]), base, Front(l, n))
  {
    ApartTop(base, 0);
    assert Place(base, n) == base[0] + n;
    var mtfa' := Shifted(mtfa, base[0], n, l[n]);
    forall k | 0 <= k < 256 ensures mtfa'[Place(base, k)] == Front(l, n)[k] {
      FrontAt(l, n, k);
      ShiftedAt(mtfa, base[0], n, l[n], Place(base, k));
      if k < 16 {
        assert k > 0 ==> Place(base, k - 1) == Place(base, k) - 1;
      } else {
        PlaceOrder(base, 15, k);
      }
    }
  }

  /** Where the lists lie after an element of list `lno` was taken. */
  function Slid(base: seq<nat>, lno: nat): (b: seq<nat>)
    requires Apart(base) && base[0] >= 1 && lno < 16
    ensures Apart(b)
  {
    forall i | 0 <= i < 16 ensures base[i] >= 1 {
      if i > 0 { ApartPair(base, 0, i); }
    }
    seq(16, x requires 0 <= x < 16 => if x < lno then base[x] - 1 else base[x])
  }

  /**
   The lists are being slid down, list `i` next: above the first place of list `i` the new
   list `f` is in place, below it the old list `l`.
   */
  ghost predicate Sliding(mtfa: seq<nat>, base: seq<nat>, l: seq<nat>, f: seq<nat>, base0: seq<nat>, lno: nat, i: nat)
  {
    && |mtfa| == MTFA_SIZE && |l| == |f| == 256 && Apart(base0) && base0[0] >= 1 && i <= lno < 16 && |base| == 16
    && (forall x :: 0 <= x < 16 ==>
        base[x] == if x < i then base0[x] else if x == i then Slid(base0, lno)[x] + 1 else Slid(base0, lno)[x])
    && (forall k :: 16 * i < k < 256 ==>
        Place(Slid(base0, lno), k) < MTFA_SIZE && mtfa[Place(Slid(base0, lno), k)] == f[k])
    && (forall k :: 0 <= k < 16 * i ==> Place(base0, k) < MTFA_SIZE && mtfa[Place(base0, k)] == l[k])
  }

  lemma SlidPlace(base: seq<nat>, lno: nat, k: nat)
    requires Apart(base) && base[0] >= 1 && lno < 16 && k < 256
    ensures Place(Slid(base, lno), k) == if k / 16 < lno then Place(base, k) - 1 else Place(base, k)
    ensures Place(Slid(base, lno), k) < MTFA_SIZE
  {
    ApartTop(base, k / 16);
  }

  lemma SlidingStart(mtfa: seq<nat>, base: seq<nat>, l: seq<nat>, n: nat)
    requires Holds(mtfa, base, l) && base[0] >= 1 && 16 <= n < 256
    ensures var lno := n / 16;
            && base[lno] + n % 16 < |mtfa| && mtfa[base[lno] + n % 16] == l[n]
            && Sliding(Shifted(mtfa, base[lno], n % 16, mtfa[base[lno]]), base[lno := base[lno] + 1], l, Front(l, n),
                       base, lno, lno)
  {
    var lno, off := n / 16, n % 16;
    ApartTop(base, lno);
    assert Place(base, n) == base[lno] + off;
    var mtfa', f := Shifted(mtfa, base[lno], off, mtfa[base[lno]]), Front(l, n);
    forall k | 16 * lno < k < 256 ensures Place(Slid(base, lno), k) < MTFA_SIZE
        && mtfa'[Place(Slid(base, lno), k)] == f[k] {
      SlidPlace(base, lno, k);
      FrontAt(l, n, k);
      StartedAt(mtfa, base, l, n, k);
    }
    forall k | 0 <= k < 16 * lno ensures Place(base, k) < MTFA_SIZE && mtfa'[Place(base, k)] == l[k] {
      PlaceOrder(base, k, 16 * lno);
      ShiftedAt(mtfa, base[lno], off, mtfa[base[lno]], Place(base, k));
    }
  }

  lemma StartedAt(mtfa: seq<nat>, base: seq<nat>, l: seq<nat>, n: nat, k: nat)
    requires Holds(mtfa, base, l) && 16 <= n < 256 && 16 * (n / 16) < k < 256
    requires base[n / 16] + n % 16 < |mtfa|
    ensures Place(base, k) < MTFA_SIZE
    ensures Shifted(mtfa, base[n / 16], n % 16, mtfa[base[n / 16]])[Place(base, k)] == if k <= n then l[k - 1] else l[k]
  {
    var lno, off := n / 16, n % 16;
    ShiftedAt(mtfa, base[lno], off, mtfa[base[lno]], Place(base, k));
    if k <= n {
      assert k / 16 == lno && (k - 1) / 16 == lno;
      assert Place(base, k - 1) == Place(base, k) - 1;
    } else {
      PlaceOrder(base, n, k);
    }
  }

  /** The last element of the list before becomes the first of list `i`. */
  lemma SlidingStep(mtfa: seq<nat>, base: seq<nat>, l: seq<nat>, n: nat, base0: seq<nat>, lno: nat, i: nat)
    requires |l| == 256 && n < 256 && n / 16 == lno && Sliding(mtfa, base, l, Front(l, n), base0, lno, i) && i > 0
    ensures |base| == 16 && base[i] >= 1 && base[i] - 1 < MTFA_SIZE == |mtfa| && base[i - 1] + 15 < MTFA_SIZE
    ensures Sliding(mtfa[base[i] - 1 := mtfa[base[i - 1] + 15]], base[i := base[i] - 1], l, Front(l, n), base0, lno,
                    i - 1)
  {
    var b1, f := Slid(base0, lno), Front(l, n);
    ApartTop(base0, i - 1);
    SlidPlace(base0, lno, 16 * i);
    var at := base[i] - 1;
    assert at == Place(b1, 16 * i) && base[i - 1] + 15 == Place(base0, 16 * i - 1);
    var mtfa' := mtfa[at := mtfa[base[i - 1] + 15]];
    forall k | 16 * (i - 1) < k < 256 ensures Place(b1, k) < MTFA_SIZE && mtfa'[Place(b1, k)] == f[k] {
      SlidPlace(base0, lno, k);
      FrontAt(l, n, k);
      if k < 16 * i {
        PlaceOrder(b1, k, 16 * i);
        assert Place(b1, k) == Place(base0, k - 1);
      } else if k > 16 * i {
        PlaceOrder(b1, 16 * i, k);
      }
    }
    forall k | 0 <= k < 16 * (i - 1) ensures mtfa'[Place(base0, k)] == l[k] {
      ApartPair(base0, i - 1, i);
      PlaceOrder(base0, k, 16 * (i - 1));
    }
  }

  lemma SlidingDone(mtfa: seq<nat>, base: seq<nat>, l: seq<nat>, n: nat, base0: seq<nat>, lno: nat)
    requires |l| == 256 && n < 256 && n / 16 == lno && Sliding(mtfa, base, l, Front(l, n), base0, lno, 0) && lno > 0
    ensures |base| == 16 && base[0] >= 1 && base[0] - 1 < MTFA_SIZE == |mtfa|
    ensures Holds(mtfa[base[0] - 1 := l[n]], base[0 := base[0] - 1], Front(l, n))
  {
    var b1, f := Slid(base0, lno), Front(l, n);
    ApartTop(base0, 0);
    assert base[0 := base[0] - 1] == b1;
    forall k | 0 <= k < 256 ensures Place(b1, k) < MTFA_SIZE && mtfa[base[0] - 1 := l[n]][Place(b1, k)] == f[k] {
      FrontAt(l, n, k);
      if k > 0 {
        PlaceOrder(b1, 0, k);
      }
    }
  }

  lemma SlidingBounds(mtfa: seq<nat>, base: seq<nat>, l: seq<nat>, f: seq<nat>, base0: seq<nat>, lno: nat, i: nat)
    requires Sliding(mtfa, base, l, f, base0, lno, i)
    ensures |mtfa| == MTFA_SIZE && |base| == 16 && i < 16
  {
  }

  class SlidingList {
    const mtfa: array<nat>
    const mtfbase: array<nat>

    ghost predicate Shaped()
    {
      mtfa != mtfbase && mtfa.Length == MTFA_SIZE && mtfbase.Length == 16
    }

    ghost predicate Valid()
      reads mtfa, mtfbase
    {
      Shaped() && Apart(mtfbase[..]) && mtfbase[0] >= 1
    }

    /** The list of 256 ranks. */
    ghost function Contents(): (l: seq<nat>)
      requires Valid()
      reads mtfa, mtfbase
      ensures |l| == 256
    {
      View(mtfa[..], mtfbase[..])
    }

    constructor ()
      ensures Shaped() && fresh(mtfa) && fresh(mtfbase)
    {
      mtfa := new nat[MTFA_SIZE];
      mtfbase := new nat[16];
    }

    /** The ranks in their first order, at the end of the array, as decompress.c lines 364-376. */
    method Reset()
      requires Shaped()
      modifies mtfa, mtfbase
      ensures Valid() && Contents() == Identity(256)
    {
      var kk: int := MTFA_SIZE - 1;
      for ii := 16 downto 0
        invariant kk == 3839 + 16 * ii
        invariant forall x :: 3840 + 16 * ii <= x < 4096 ==> mtfa[x] == x - 3840
        invariant forall x :: ii <= x < 16 ==> mtfbase[x] == 3840 + 16 * x
      {
        for jj := 16 downto 0
          invariant kk == 3839 + 16 * ii + jj
          invariant forall x :: 3840 + 16 * ii + jj <= x < 4096 ==> mtfa[x] == x - 3840
          invariant forall x :: ii < x < 16 ==> mtfbase[x] == 3840 + 16 * x
        {
          mtfa[kk] := ii * 16 + jj;
          kk := kk - 1;
        }
        mtfbase[ii] := kk + 1;
      }
      assert forall k :: 0 <= k < 256 ==> Place(mtfbase[..], k) == 3840 + k;
    }

    /** The front of the list. */
    method First() returns (uc: nat)
      requires Valid()
      ensures uc == Contents()[0]
    {
      HoldsView(mtfa[..], mtfbase[..]);
      assert Place(mtfbase[..], 0) == mtfbase[0];
      uc := mtfa[mtfbase[0]];
    }

    /** Takes out element `nn` and moves it to the front, as decompress.c lines 429-481. */
    method Take(nn: nat) returns (uc: nat)
      requires Valid() && nn < 256
      modifies mtfa, mtfbase
      ensures Valid() && uc == old(Contents()[nn]) && Contents() == Front(old(Contents()), nn)
    {
      ghost var l := Contents();
      HoldsView(mtfa[..], mtfbase[..]);
      if nn < MTFL_SIZE {
        uc := TakeInFirst(nn, l);
      } else {
        uc := TakeBeyond(nn, l);
      }
      HoldsIs(mtfa[..], mtfbase[..], Front(l, nn));
    }

    method TakeInFirst(nn: nat, ghost l: seq<nat>) returns (uc: nat)
      requires mtfa != mtfbase && mtfa.Length == 4096 && mtfbase.Length == 16 && nn < 16 && |l| == 256
      requires Holds(mtfa[..], mtfbase[..], l)
      modifies mtfa
      ensures uc == l[nn] && Holds(mtfa[..], mtfbase[..], Front(l, nn))
    {
      hide *;
      ghost var a0: seq<nat>, base0: seq<nat> := mtfa[..], mtfbase[..];
      TakeNear(a0, base0, l, nn);
      var pp := mtfbase[0];
      uc := mtfa[pp + nn];
      ShiftUp(mtfa, pp, nn);
      ghost var a1: seq<nat> := mtfa[..];
      mtfa[pp] := uc;
      ShiftedFirst(a0, pp, nn, uc);
      assert mtfa[..] == a1[pp := uc];
    }

    method TakeBeyond(nn: nat, ghost l: seq<nat>) returns (uc: nat)
      requires mtfa != mtfbase && mtfa.Length == 4096 && mtfbase.Length == 16 && 16 <= nn < 256 && |l| == 256
      requires Holds(mtfa[..], mtfbase[..], l) && mtfbase[0] >= 1
      modifies mtfa, mtfbase
      ensures uc == l[nn] && Holds(mtfa[..], mtfbase[..], Front(l, nn)) && mtfbase[0] >= 1
    {
      assert MTFL_SIZE == 16;
      hide *;
      ghost var a0: seq<nat>, base0: seq<nat> := mtfa[..], mtfbase[..];
      SlidingStart(a0, base0, l, nn);
      var lno := nn / MTFL_SIZE;
      var off := nn % MTFL_SIZE;
      uc := mtfa[mtfbase[lno] + off];
      ShiftUp(mtfa, mtfbase[lno], off);
      mtfbase[lno] := mtfbase[lno] + 1;
      assert mtfbase[..] == base0[lno := base0[lno] + 1];
      SlideDown(lno, nn, l, base0);
      ghost var a1: seq<nat>, base1: seq<nat> := mtfa[..], mtfbase[..];
      SlidingDone(a1, base1, l, nn, base0, nn / 16);
      mtfbase[0] := mtfbase[0] - 1;
      assert mtfbase[..] == base1[0 := base1[0] - 1];
      mtfa[mtfbase[0]] := uc;
      assert mtfa[..] == a1[base1[0] - 1 := uc];
      if mtfbase[0] == 0 {
        Repack(mtfa, mtfbase, Front(l, nn));
      }
    }

    /** Gives each list its new first element, the last one of the list before. */
    method SlideDown(lno0: nat, ghost nn: nat, ghost l: seq<nat>, ghost base0: seq<nat>)
      requires mtfa != mtfbase && |l| == 256 && nn < 256 && nn / 16 == lno0
      requires Sliding(mtfa[..], mtfbase[..], l, Front(l, nn), base0, lno0, lno0)
      modifies mtfa, mtfbase
      ensures Sliding(mtfa[..], mtfbase[..], l, Front(l, nn), base0, lno0, 0)
    {
      var lno: nat := lno0;
      hide *;
      while lno > 0
        invariant Sliding(mtfa[..], mtfbase[..], l, Front(l, nn), base0, lno0, lno)
      {
        ghost var a: seq<nat>, base: seq<nat> := mtfa[..], mtfbase[..];
        SlidingBounds(a, base, l, Front(l, nn), base0, lno0, lno);
        SlidingStep(a, base, l, nn, base0, lno0, lno);
        mtfbase[lno] := mtfbase[lno] - 1;
        assert mtfbase[..] == base[lno := base[lno] - 1];
        mtfa[mtfbase[lno]] := mtfa[mtfbase[lno - 1] + 15];
        assert mtfa[..] == a[base[lno] - 1 := a[base[lno - 1] + 15]];
        lno := lno - 1;
      }
    }
  }

  lemma ShiftedFirst(a: seq<nat>, at: nat, n: nat, v: nat)
    requires at + n < |a|
    ensures Shifted(a, at, n, a[at])[at := v] == Shifted(a, at, n, v)
  {
  }

  lemma HoldsIs(mtfa: seq<nat>, base: seq<nat>, l: seq<nat>)
    requires Holds(mtfa, base, l)
    ensures |mtfa| == MTFA_SIZE && Apart(base) && View(mtfa, base) == l
  {
  }
}
