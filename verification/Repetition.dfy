/**
 How often the rotations of a block repeat, and what that means for a sorted big bucket.

 All rotations of a block have equally many equals.  So the equal rotations of a sorted bucket
 stand in runs of one length, and positions cut down to fewer bits tell different rotations
 apart exactly when that length divides the cut (blocksort.c lines 964-1004).
 */
module Repetition {

  import opened Rotation
  import opened Words

  /** The rotations that are equal to rotation `i`. */
  ghost function Class(b: seq<byte>, i: nat): (s: set<nat>)
    requires i < |b|
  {
    set j: nat | j < |b| && Equal(b, i, j)
  }

  /** How many rotations are equal to the block itself. */
  ghost function Repeats(b: seq<byte>): (m: nat)
    requires |b| > 0
  {
    |Class(b, 0)|
  }

  lemma EqualTrans(b: seq<byte>, i: nat, j: nat, k: nat)
    requires i < |b| && j < |b| && k < |b| && Equal(b, i, j)
    ensures Equal(b, j, i) && (Equal(b, j, k) <==> Equal(b, i, k))
  {
    EqualOrder(b, i, j, k);
    CmpAntisym(b, i, k, |b|);
    CmpAntisym(b, j, k, |b|);
  }

  /** The members of `s`, each moved one place on. */
  lemma {:induction false} MovedSize(n: nat, s: set<nat>)
    requires forall i :: i in s ==> i < n
    ensures |set i | i in s :: if i < n then Next(n, i) else 0| <= |s|
  {
    if s != {} {
      var v :| v in s;
      var t := s - {v};
      MovedSize(n, t);
      assert (set i | i in s :: if i < n then Next(n, i) else 0) ==
             (set i | i in t :: if i < n then Next(n, i) else 0) + {Next(n, v)};
    }
  }

  lemma ClassNext(b: seq<byte>, i: nat)
    requires i < |b|
    ensures |Class(b, Next(|b|, i))| <= |Class(b, i)|
  {
    hide Equal;
    var n, s := |b|, Class(b, i);
    var moved := set j | j in s :: if j < n then Next(n, j) else 0;
    MovedSize(n, s);
    forall k | k in Class(b, Next(n, i)) ensures k in moved {
      EqualPrev(b, Next(n, i), k);
      PrevOfNext(n, i);
      assert Prev(n, k) in s;
    }
    SubsetSize(Class(b, Next(n, i)), moved);
  }

  lemma {:induction false} ClassAtMost(b: seq<byte>, i: nat, j: nat)
    requires i <= j < |b|
    ensures |Class(b, j)| <= |Class(b, i)|
    decreases j
  {
    if i < j {
      ClassAtMost(b, i, j - 1);
      ClassNext(b, j - 1);
    }
  }

  /** Every rotation has as many equals as the block itself. */
  lemma ClassSize(b: seq<byte>, i: nat)
    requires i < |b|
    ensures |Class(b, i)| == Repeats(b) >= 1
  {
    ClassAtMost(b, 0, i);
    ClassAtMost(b, i, |b| - 1);
    ClassNext(b, |b| - 1);
    CmpRefl(b, i, |b|);
    assert i in Class(b, i);
  }

  /** A block is aperiodic if and only if no rotation but itself is equal to it. */
  lemma RepeatsOnce(b: seq<byte>)
    requires |b| > 0
    ensures Aperiodic(b) <==> Repeats(b) == 1
  {
    CmpRefl(b, 0, |b|);
    assert 0 in Class(b, 0);
    if Aperiodic(b) {
      assert Class(b, 0) == {0};
    } else {
      var i, j :| 0 <= i < j < |b| && Equal(b, i, j);
      EqualFromZero(b, i, j);
      SubsetSize({0, j - i}, Class(b, 0));
    }
  }

  // ---------------------------------------------------------------- runs of a sorted bucket

  /** `g` lists the rotations that start with `s`, in order. */
  ghost predicate Bucket(b: seq<byte>, s: nat, g: seq<nat>)
  {
    && (forall x :: 0 <= x < |g| ==> g[x] < |b| && b[g[x]] == s)
    && (forall x, y :: 0 <= x < y < |g| ==> g[x] != g[y] && Le(b, g[x], g[y]))
    && (forall v: nat :: v < |b| && b[v] == s ==> v in g)
  }

  /** A rotation between equal ones is equal to them. */
  lemma Between(b: seq<byte>, s: nat, g: seq<nat>, x: nat, y: nat, z: nat)
    requires Bucket(b, s, g) && x <= y <= z < |g| && Equal(b, g[x], g[z])
    ensures Equal(b, g[x], g[y]) && Equal(b, g[y], g[z])
  {
    CmpRefl(b, g[y], |b|);
    assert Le(b, g[x], g[y]) && Le(b, g[y], g[z]);
    CmpTrans(b, g[x], g[y], g[z], |b|);
  }

  /** Where the run of rotations equal to number `x` ends, looking from `y` on. */
  lemma {:induction false} RunEnd(b: seq<byte>, s: nat, g: seq<nat>, x: nat, y: nat) returns (e: nat)
    requires Bucket(b, s, g) && x < y <= |g|
    requires forall z :: x <= z < y ==> Equal(b, g[x], g[z])
    ensures y <= e <= |g| && forall z :: x <= z < e ==> Equal(b, g[x], g[z])
    ensures e < |g| ==> !Equal(b, g[x], g[e])
    decreases |g| - y
  {
    if y < |g| && Equal(b, g[x], g[y]) {
      e := RunEnd(b, s, g, x, y + 1);
    } else {
      e := y;
    }
  }

  /** A run is as long as there are equals of a rotation. */
  lemma Run(b: seq<byte>, s: nat, g: seq<nat>, x: nat)
    requires Bucket(b, s, g) && |b| > 0 && x < |g| && (x > 0 ==> !Equal(b, g[x - 1], g[x]))
    ensures x + Repeats(b) <= |g| && Repeats(b) >= 1
    ensures forall z :: x <= z < x + Repeats(b) ==> Equal(b, g[x], g[z])
    ensures x + Repeats(b) < |g| ==> !Equal(b, g[x + Repeats(b) - 1], g[x + Repeats(b)])
  {
    CmpRefl(b, g[x], |b|);
    var e := RunEnd(b, s, g, x, x + 1);
    hide *;
    RunSize(b, s, g, x, e);
    if e < |g| {
      EqualTrans(b, g[x], g[e - 1], g[e]);
    }
  }

  lemma RunSize(b: seq<byte>, s: nat, g: seq<nat>, x: nat, e: nat)
    requires Bucket(b, s, g) && x < e <= |g| && |b| > 0 && (x > 0 ==> !Equal(b, g[x - 1], g[x]))
    requires e < |g| ==> !Equal(b, g[x], g[e])
    requires forall z :: x <= z < e ==> Equal(b, g[x], g[z])
    ensures e - x == Repeats(b) >= 1
  {
    hide Equal, Le, Repeats;
    var r := g[x..e];
    forall v | v in Class(b, g[x]) ensures v in Elements(r) {
      InRun(b, s, g, x, e, v);
    }
    assert Elements(r) == Class(b, g[x]);
    DistinctSize(r);
    ClassSize(b, g[x]);
  }

  lemma InRun(b: seq<byte>, s: nat, g: seq<nat>, x: nat, e: nat, v: nat)
    requires Bucket(b, s, g) && x < e <= |g| && (x > 0 ==> !Equal(b, g[x - 1], g[x]))
    requires e < |g| ==> !Equal(b, g[x], g[e])
    requires v < |b| && Equal(b, g[x], v)
    ensures v in g[x..e]
  {
    EqualNext(b, g[x], v);
    hide Equal, Le;
    var z :| 0 <= z < |g| && g[z] == v;
    if z >= e {
      Between(b, s, g, x, e, z);
    } else if z < x {
      EqualTrans(b, g[x], v, v);
      Between(b, s, g, z, x - 1, x);
    } else {
      assert g[x..e][z - x] == v;
    }
  }

  /** The runs follow each other from the start of the bucket. */
  lemma {:induction false} RunAt(b: seq<byte>, s: nat, g: seq<nat>, t: nat)
    requires Bucket(b, s, g) && |b| > 0 && t > 0 && t * Repeats(b) < |g|
    ensures t * Repeats(b) > 0 && !Equal(b, g[t * Repeats(b) - 1], g[t * Repeats(b)])
    decreases t
  {
    ClassSize(b, 0);
    hide Equal, Repeats, Bucket;
    var m, x := Repeats(b), (t - 1) * Repeats(b);
    MulStep(t - 1, m);
    if t == 1 {
      assert x == 0;
    } else {
      RunAt(b, s, g, t - 1);
    }
    Run(b, s, g, x);
  }

  /** Positions of equal rotations are those of one run. */
  lemma SameRun(b: seq<byte>, s: nat, g: seq<nat>, x: nat, y: nat)
    requires Bucket(b, s, g) && x <= y < |g| && |b| > 0
    ensures Repeats(b) >= 1
    ensures Equal(b, g[x], g[y]) <==> x / Repeats(b) == y / Repeats(b)
  {
    ClassSize(b, 0);
    hide Equal, Repeats, Le, Class;
    var m := Repeats(b);
    var t, u := x / m, y / m;
    DivMod(x, m);
    DivMod(y, m);
    DivMonotone(x, y, m);
    if t < u {
      MulGap(t, u, m);
      RunAt(b, s, g, u);
      if Equal(b, g[x], g[y]) {
        Between(b, s, g, x, u * m, y);
        Between(b, s, g, x, u * m - 1, u * m);
      }
    } else {
      var z := t * m;
      if t == 0 {
        assert z == 0;
      } else {
        RunAt(b, s, g, t);
      }
      Run(b, s, g, z);
      EqualTrans(b, g[z], g[x], g[y]);
    }
  }

  // ---------------------------------------------------------------- positions as quadrants

  /** The strict reading of the quadrants: among rotations that start with `s`, a smaller one precedes. */
  ghost predicate StrictOn(b: seq<byte>, q: seq<nat>, s: nat)
    requires |q| == |b|
  {
    forall i, j :: 0 <= i < |b| && 0 <= j < |b| && b[i] == b[j] == s && q[i] < q[j] ==> Cmp(b, i, j, |b|) < 0
  }

  /** The strict reading for all symbols. */
  ghost predicate QuadrantsStrict(b: seq<byte>, q: seq<nat>)
    requires |q| == |b|
  {
    forall i, j :: 0 <= i < |b| && 0 <= j < |b| && b[i] == b[j] && q[i] < q[j] ==> Cmp(b, i, j, |b|) < 0
  }

  lemma StrictEverywhere(b: seq<byte>, q: seq<nat>)
    requires |q| == |b|
    ensures QuadrantsStrict(b, q) <==> forall s :: 0 <= s < 256 ==> StrictOn(b, q, s)
  {
    hide Cmp;
    if forall s :: 0 <= s < 256 ==> StrictOn(b, q, s) {
      forall i, j | 0 <= i < |b| && 0 <= j < |b| && b[i] == b[j] && q[i] < q[j] ensures Cmp(b, i, j, |b|) < 0 {
        assert StrictOn(b, q, b[i]);
      }
    }
  }

  lemma DivDiv(x: nat, m: nat, k: nat)
    requires m >= 1 && k >= 1
    ensures m * k >= 1 && x / (m * k) == x / m / k
  {
    hide *;
    var t := x / m;
    DivMod(x, m);
    DivMod(t, k);
    NestedDiv(x, m, k, t / k, t % k, x % m);
  }

  lemma NestedDiv(x: nat, m: nat, k: nat, u: nat, r: nat, e: nat)
    requires x == (u * k + r) * m + e && e < m && r < k
    ensures m * k >= 1 && x / (m * k) == u
  {
    MulGap(r, k, m);
    assert m * k == k * m;
    assert (u * k + r) * m == u * (k * m) + r * m;
    DivUnique(x, m * k, u, r * m + e);
  }

  /**
   Positions divided by `d` are strict quadrants for a sorted bucket if and only if it is empty
   or the number of equal rotations divides `d`.
   */
  lemma PositionsStrict(b: seq<byte>, s: nat, g: seq<nat>, q: seq<nat>, d: nat)
    requires Bucket(b, s, g) && |q| == |b| > 0 && d >= 1 && (d == 1 || d < |g|)
    requires forall x :: 0 <= x < |g| ==> q[g[x]] == x / d
    ensures Repeats(b) >= 1
    ensures StrictOn(b, q, s) <==> s !in b || d % Repeats(b) == 0
  {
    ClassSize(b, 0);
    assert g == [] <==> s !in b by {
      if g != [] {
        assert b[g[0]] == s;
      }
    }
    if g == [] {
    } else if d % Repeats(b) == 0 {
      PositionsApart(b, s, g, q, d);
    } else {
      PositionsCut(b, s, g, q, d);
    }
  }

  /** Where a rotation stands in the bucket. */
  lemma BucketPlace(b: seq<byte>, s: nat, g: seq<nat>, v: nat) returns (x: nat)
    requires Bucket(b, s, g) && v < |b| && b[v] == s
    ensures x < |g| && g[x] == v
  {
    hide Le;
    x :| 0 <= x < |g| && g[x] == v;
  }

  /** Positions with different quotients are not in one run. */
  lemma QuotientsApart(b: seq<byte>, s: nat, g: seq<nat>, x: nat, y: nat, d: nat)
    requires Bucket(b, s, g) && |b| > 0 && x < |g| && y < |g| && d >= 1 && Repeats(b) >= 1 && d % Repeats(b) == 0
    requires x / d < y / d
    ensures g[x] < |b| && g[y] < |b| && Cmp(b, g[x], g[y], |b|) < 0
  {
    BucketLe(b, s, g, x, y);
    hide *;
    if y <= x {
      DivMonotone(y, x, d);
    } else {
      SameRun(b, s, g, x, y);
      SameQuotient(x, y, Repeats(b), d);
    }
  }

  /** Numbers with one quotient have one quotient by a multiple. */
  lemma SameQuotient(x: nat, y: nat, m: nat, d: nat)
    requires m >= 1 && d >= 1 && d % m == 0
    ensures x / m == y / m ==> x / d == y / d
  {
    hide *;
    if x / m == y / m {
      var k := d / m;
      assert d == m * k by {
        DivMod(d, m);
      }
      SameMultiple(x, y, m, k);
    }
  }

  lemma SameMultiple(x: nat, y: nat, m: nat, k: nat)
    requires m >= 1 && k >= 1 && x / m == y / m
    ensures m * k >= 1 && x / (m * k) == y / (m * k)
  {
    hide *;
    DivDiv(x, m, k);
    DivDiv(y, m, k);
  }

  lemma BucketLe(b: seq<byte>, s: nat, g: seq<nat>, x: nat, y: nat)
    requires Bucket(b, s, g) && x < |g| && y < |g|
    ensures g[x] < |b| && g[y] < |b| && (x < y ==> Le(b, g[x], g[y]))
    ensures Le(b, g[x], g[y]) ==> Equal(b, g[x], g[y]) || Cmp(b, g[x], g[y], |b|) < 0
  {
  }

  lemma PositionsApart(b: seq<byte>, s: nat, g: seq<nat>, q: seq<nat>, d: nat)
    requires Bucket(b, s, g) && |q| == |b| > 0 && d >= 1 && Repeats(b) >= 1 && d % Repeats(b) == 0
    requires forall x :: 0 <= x < |g| ==> q[g[x]] == x / d
    ensures StrictOn(b, q, s)
  {
    hide Repeats, Bucket, Cmp;
    forall i, j | 0 <= i < |b| && 0 <= j < |b| && b[i] == b[j] == s && q[i] < q[j] ensures Cmp(b, i, j, |b|) < 0 {
      var x := BucketPlace(b, s, g, i);
      var y := BucketPlace(b, s, g, j);
      QuotientsApart(b, s, g, x, y, d);
    }
  }

  lemma PositionsCut(b: seq<byte>, s: nat, g: seq<nat>, q: seq<nat>, d: nat)
    requires Bucket(b, s, g) && |q| == |b| > 0 && Repeats(b) >= 1 && d % Repeats(b) != 0
    requires d >= 1 && (d == 1 || d < |g|) && g != []
    requires forall x :: 0 <= x < |g| ==> q[g[x]] == x / d
    ensures !StrictOn(b, q, s)
  {
    hide Repeats, Class, Cmp;
    var m := Repeats(b);
    Run(b, s, g, 0);
    DivMod(d, m);
    DivUnique(d - 1, m, d / m, d % m - 1);
    SameRun(b, s, g, d - 1, d);
    DivUnique(d - 1, d, 0, d - 1);
    DivUnique(d, d, 1, 0);
    assert q[g[d - 1]] < q[g[d]];
  }

  /** Two rotations that start with `s` are equal unless there is none, or the block is aperiodic. */
  lemma SymbolApart(b: seq<byte>, s: nat)
    requires |b| > 0
    ensures (forall i, j :: 0 <= i < j < |b| && b[i] == b[j] == s ==> !Equal(b, i, j)) <==> s !in b || Repeats(b) == 1
  {
    RepeatsOnce(b);
    if s in b && Repeats(b) != 1 {
      var i :| 0 <= i < |b| && b[i] == s;
      ClassSize(b, i);
      var rest := Class(b, i) - {i};
      assert |Class(b, i)| > 1 ==> rest != {} by {
        SubsetSize(Class(b, i), {i} + rest);
      }
      var j :| j in rest;
      EqualNext(b, i, j);
      EqualTrans(b, i, j, i);
      assert Equal(b, if i < j then i else j, if i < j then j else i);
    }
  }
}
