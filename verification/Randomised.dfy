/**
 Which symbols of a randomised block are changed (bzlib_private.h lines 136-157): a number of the
 table, at least 2, changes the symbol two places before the numbers up to it have run out.
 */
module Randomised {

  import opened Rotation
  import opened InverseBwt
  import opened Parser
  import opened Stream

  /** What the first `n` numbers add up to, the table repeated without end. */
  function Sum(rNums: seq<nat>, n: nat): (s: nat)
    requires Numbers(rNums)
  {
    if n == 0 then 0 else Sum(rNums, n - 1) + rNums[(n - 1) % 512]
  }

  lemma {:induction false} SumMonotone(rNums: seq<nat>, m: nat, n: nat)
    requires Numbers(rNums) && m <= n
    ensures Sum(rNums, m) <= Sum(rNums, n)
    decreases n
  {
    if m < n {
      SumMonotone(rNums, m, n - 1);
    }
  }

  /** The `n`-th number ends two places after symbol `k`, and is no 1. */
  ghost predicate EndsAfter(rNums: seq<nat>, k: nat, n: nat)
    requires Numbers(rNums)
  {
    n >= 1 && Sum(rNums, n) == k + 2 && rNums[(n - 1) % 512] >= 2
  }

  ghost predicate Changed(rNums: seq<nat>, k: nat)
    requires Numbers(rNums)
  {
    exists n :: EndsAfter(rNums, k, n)
  }

  lemma PlaceNext(n: nat)
    ensures (n + 1) % 512 == if n % 512 + 1 == 512 then 0 else n % 512 + 1
  {
  }

  /** The counters at symbol `k`: the `n`-th number is running. */
  lemma {:induction false} Counters(rNums: seq<nat>, k: nat) returns (n: nat)
    requires Numbers(rNums)
    ensures n >= 1 && Sum(rNums, n - 1) <= k < Sum(rNums, n)
    ensures RandAt(rNums, k) == Rand(Sum(rNums, n) - 1 - k, n % 512)
    decreases k
  {
    if k == 0 {
      n := 1;
      assert Sum(rNums, 1) == Sum(rNums, 0) + rNums[0];
    } else {
      n := Counters(rNums, k - 1);
      if k == Sum(rNums, n) {
        PlaceNext(n);
        n := n + 1;
      }
    }
  }

  /** A symbol changes, and then in its low bit only, exactly where a number of at least 2 ends two places on. */
  lemma UnmaskAt(rNums: seq<nat>, c: byte, k: nat)
    requires Numbers(rNums)
    ensures Unmask(c, RandAt(rNums, k)) / 2 == c / 2
    ensures Unmask(c, RandAt(rNums, k)) != c <==> Changed(rNums, k)
  {
    var n := Counters(rNums, k);
    hide Numbers;
    if RandAt(rNums, k).toGo == 1 {
      assert EndsAfter(rNums, k, n);
    }
    if Changed(rNums, k) {
      var m :| EndsAfter(rNums, k, m);
      if m < n {
        SumMonotone(rNums, m, n - 1);
      } else if n < m {
        SumMonotone(rNums, n, m - 1);
      }
    }
  }

  /** The symbols of a block, randomised or not. */
  lemma FetchedAt(head: Head, column: seq<byte>, rNums: seq<nat>, k: nat)
    requires head.origPtr < |column| && Numbers(rNums)
    ensures var c := column[Row(Links(column), head.origPtr, k)];
            && Fetched(head, column, rNums, k) / 2 == c / 2
            && (Fetched(head, column, rNums, k) != c <==> head.randomised && Changed(rNums, k))
  {
    UnmaskAt(rNums, column[Row(Links(column), head.origPtr, k)], k);
    hide Unmask, Changed;
  }
}
