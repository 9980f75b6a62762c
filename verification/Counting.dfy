/**
 Counts of the symbols of a sequence, by symbol and accumulated, and the stable distribution
 they drive.

 These are the values that the counting loops of the sorters and of the decoder keep in
 `ftab`, `unzftab` and `cftab`.
 */
module Counting {

  import opened Rotation

  /** Occurrences of symbol `c` in `l[..i]`: the running value of `unzftab[c]`. */
  function Occ(l: seq<nat>, c: nat, i: nat): (r: nat)
    requires i <= |l|
    ensures r <= i
  {
    if i == 0 then 0 else Occ(l, c, i - 1) + if l[i - 1] == c then 1 else 0
  }

  /** Occurrences in `l[..i]` of the symbols below `c`: the accumulated `cftab[c]`. */
  function Start(l: seq<nat>, c: nat, i: nat): (r: nat)
    requires i <= |l|
  {
    if c == 0 then 0 else Start(l, c - 1, i) + Occ(l, c - 1, i)
  }

  lemma OccStep(l: seq<nat>, i: nat)
    requires i < |l|
    ensures forall c: nat :: Occ(l, c, i + 1) == Occ(l, c, i) + if l[i] == c then 1 else 0
  {
  }

  lemma {:induction false} StartStep(l: seq<nat>, c: nat, i: nat)
    requires i < |l|
    ensures Start(l, c, i + 1) == Start(l, c, i) + if l[i] < c then 1 else 0
  {
    if c > 0 {
      StartStep(l, c - 1, i);
    }
  }

  lemma {:induction false} StartAll(l: seq<nat>, k: nat, i: nat)
    requires i <= |l| && forall x :: 0 <= x < i ==> l[x] < k
    ensures Start(l, k, i) == i
  {
    if i == 0 {
      StartEmpty(l, k);
    } else {
      StartAll(l, k, i - 1);
      StartStep(l, k, i - 1);
    }
  }

  lemma {:induction false} StartAtMost(l: seq<nat>, c: nat, i: nat)
    requires i <= |l|
    ensures Start(l, c, i) <= i
  {
    if i == 0 {
      StartEmpty(l, c);
    } else {
      StartAtMost(l, c, i - 1);
      StartStep(l, c, i - 1);
    }
  }

  lemma {:induction false} StartEmpty(l: seq<nat>, c: nat)
    ensures Start(l, c, 0) == 0
  {
    if c > 0 {
      StartEmpty(l, c - 1);
    }
  }

  lemma {:induction false} StartMonotone(l: seq<nat>, c: nat, d: nat, i: nat)
    requires c <= d && i <= |l|
    ensures Start(l, c, i) <= Start(l, d, i)
    decreases d - c
  {
    if c < d {
      StartMonotone(l, c, d - 1, i);
    }
  }

  lemma {:induction false} OccMonotone(l: seq<nat>, c: nat, i: nat, j: nat)
    requires i <= j <= |l|
    ensures Occ(l, c, i) <= Occ(l, c, j)
    decreases j - i
  {
    if i < j {
      OccMonotone(l, c, i, j - 1);
    }
  }

  /** The row to which `cftab` sends row `i` when the last column is distributed in order. */
  function LF(l: seq<nat>, i: nat): (r: nat)
    requires i < |l|
  {
    Start(l, l[i], |l|) + Occ(l, l[i], i)
  }

  /** Row `i` lands inside the bucket of its own symbol. */
  lemma LFBucket(l: seq<nat>, i: nat)
    requires i < |l|
    ensures Start(l, l[i], |l|) <= LF(l, i) < Start(l, l[i] + 1, |l|) <= |l|
  {
    OccMonotone(l, l[i], i + 1, |l|);
    StartAtMost(l, l[i] + 1, |l|);
  }

  /** The distribution is stable: it orders rows by symbol, then by row. */
  lemma LFOrder(l: seq<nat>, i: nat, j: nat)
    requires i < |l| && j < |l|
    requires l[i] < l[j] || (l[i] == l[j] && i < j)
    ensures LF(l, i) < LF(l, j)
  {
    if l[i] == l[j] {
      OccMonotone(l, l[i], i + 1, j);
    } else {
      LFBucket(l, i);
      StartMonotone(l, l[i] + 1, l[j], |l|);
    }
  }

  /** All targets of the distribution, row by row. */
  ghost function Targets(l: seq<nat>): (t: seq<nat>)
    ensures |t| == |l|
    ensures forall x :: 0 <= x < |l| ==> t[x] == LF(l, x)
  {
    seq(|l|, x requires 0 <= x < |l| => LF(l, x))
  }

  lemma TargetsPerm(l: seq<nat>)
    ensures Perm(Targets(l), |l|)
  {
    forall x | 0 <= x < |l| ensures Targets(l)[x] < |l| {
      LFBucket(l, x);
    }
    forall x, y | 0 <= x < y < |l| ensures Targets(l)[x] != Targets(l)[y] {
      if l[x] <= l[y] { LFOrder(l, x, y); } else { LFOrder(l, y, x); }
    }
  }

  /** `t` undoes the distribution. */
  ghost predicate Inverts(l: seq<nat>, t: seq<nat>)
  {
    && |t| == |l|
    && forall x :: 0 <= x < |l| ==> LF(l, x) < |l| && t[LF(l, x)] == x
  }

  /** Every row has one source row, which holds the symbol whose bucket the row lies in. */
  lemma Source(l: seq<nat>, t: seq<nat>, y: nat)
    requires Inverts(l, t) && y < |l|
    ensures t[y] < |l| && LF(l, t[y]) == y
  {
    TargetsPerm(l);
    PermOnto(Targets(l), |l|, y);
    var x :| 0 <= x < |l| && Targets(l)[x] == y;
  }

  lemma InvertsClosed(l: seq<nat>, t: seq<nat>)
    requires Inverts(l, t)
    ensures |t| == |l| && forall x :: 0 <= x < |t| ==> t[x] < |t|
  {
    forall x | 0 <= x < |t| ensures t[x] < |t| {
      Source(l, t, x);
    }
  }
}
