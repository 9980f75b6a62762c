/**
 Rearranging part of an array: what both quicksorts of the block sorter share.
 */
module Rearrange {

  import opened Rotation

  /** `t` is `s` with the entries at `lo .. hi` in another order. */
  ghost predicate Rearranged(s: seq<nat>, t: seq<nat>, lo: int, hi: int)
  {
    && |t| == |s|
    && multiset(t) == multiset(s)
    && (forall x :: 0 <= x < |s| && !(lo <= x <= hi) ==> t[x] == s[x])
  }

  lemma RearrangedRefl(s: seq<nat>, lo: int, hi: int)
    ensures Rearranged(s, s, lo, hi)
  {
  }

  lemma RearrangedTrans(s: seq<nat>, t: seq<nat>, u: seq<nat>, lo: int, hi: int)
    requires Rearranged(s, t, lo, hi) && Rearranged(t, u, lo, hi)
    ensures Rearranged(s, u, lo, hi)
  {
  }

  lemma RearrangedBack(s: seq<nat>, t: seq<nat>, lo: int, hi: int)
    requires Rearranged(s, t, lo, hi)
    ensures Rearranged(t, s, lo, hi)
  {
  }

  lemma RearrangedWiden(s: seq<nat>, t: seq<nat>, lo: int, hi: int, lo': int, hi': int)
    requires Rearranged(s, t, lo, hi) && lo' <= lo && hi <= hi'
    ensures Rearranged(s, t, lo', hi')
  {
  }

  lemma MultisetUpdate(s: seq<nat>, i: nat, v: nat)
    requires i < |s|
    ensures multiset(s[i := v]) == multiset(s) - multiset{s[i]} + multiset{v}
  {
    assert s == s[..i] + [s[i]] + s[i + 1..];
    assert s[i := v] == s[..i] + [v] + s[i + 1..];
  }

  lemma SwapRearranges(s: seq<nat>, i: nat, j: nat, lo: int, hi: int)
    requires lo <= i <= hi && lo <= j <= hi && i < |s| && j < |s|
    ensures Rearranged(s, s[i := s[j]][j := s[i]], lo, hi)
  {
    if i != j {
      MultisetUpdate(s, i, s[j]);
      MultisetUpdate(s[i := s[j]], j, s[i]);
      MultisetSwap(multiset(s), s[i], s[j]);
    }
  }

  lemma MultisetSwap(m: multiset<nat>, a: nat, b: nat)
    requires a in m
    ensures m - multiset{a} + multiset{b} - multiset{b} + multiset{a} == m
  {
  }

  lemma HoleMoves(s0: seq<nat>, s: seq<nat>, h: int, j: int, v: nat)
    requires 0 <= h < |s| && 0 <= j < |s| && h != j && multiset(s[h := v]) == multiset(s0)
    ensures multiset(s[h := s[j]][j := v]) == multiset(s0)
  {
    MultisetUpdate(s, h, v);
    MultisetUpdate(s, h, s[j]);
    MultisetUpdate(s[h := s[j]], j, v);
  }

  lemma Cancel<T>(a: multiset<T>, m: multiset<T>, m': multiset<T>, c: multiset<T>)
    requires a + m + c == a + m' + c
    ensures m == m'
  {
    assert a + m + c - a - c == m;
    assert a + m' + c - a - c == m';
  }

  lemma SplitMultiset(s: seq<nat>, lo: nat, hi: nat)
    requires lo <= hi <= |s|
    ensures multiset(s) == multiset(s[..lo]) + multiset(s[lo..hi]) + multiset(s[hi..])
  {
    assert s == s[..lo] + s[lo..hi] + s[hi..];
  }

  lemma RearrangedPart(s: seq<nat>, t: seq<nat>, lo: nat, hi: nat)
    requires Rearranged(s, t, lo, hi) && lo <= hi < |s|
    ensures multiset(t[lo..hi + 1]) == multiset(s[lo..hi + 1])
  {
    SplitMultiset(s, lo, hi + 1);
    SplitMultiset(t, lo, hi + 1);
    assert t[..lo] == s[..lo] && t[hi + 1..] == s[hi + 1..];
    Cancel(multiset(s[..lo]), multiset(s[lo..hi + 1]), multiset(t[lo..hi + 1]), multiset(s[hi + 1..]));
  }

  /** Every entry in the rearranged part was in that part before. */
  lemma RearrangedFrom(s: seq<nat>, t: seq<nat>, lo: int, hi: int, x: int) returns (y: int)
    requires Rearranged(s, t, lo, hi) && 0 <= lo <= x <= hi < |s|
    ensures lo <= y <= hi && t[x] == s[y]
  {
    RearrangedPart(s, t, lo, hi);
    var m, m' := s[lo..hi + 1], t[lo..hi + 1];
    assert m'[x - lo] in multiset(m');
    assert m'[x - lo] in m;
    var k :| 0 <= k < |m| && m[k] == m'[x - lo];
    y := lo + k;
  }

  lemma RearrangedPerm(f: seq<nat>, f': seq<nat>, lo: int, hi: int, n: nat)
    requires Perm(f, n) && Rearranged(f, f', lo, hi)
    ensures Perm(f', n)
  {
    forall x | 0 <= x < n ensures f'[x] < n {
      assert f'[x] in multiset(f');
      assert f'[x] in f;
    }
    forall x, y | 0 <= x < y < n ensures f'[x] != f'[y] {
      if f'[x] == f'[y] {
        TwiceInMultiset(f', x, y);
        OnceInMultiset(f, f'[x]);
      }
    }
  }

  lemma TwiceInMultiset(s: seq<nat>, x: nat, y: nat)
    requires x < y < |s| && s[x] == s[y]
    ensures multiset(s)[s[x]] >= 2
  {
    assert s == s[..x] + [s[x]] + s[x + 1..y] + [s[y]] + s[y + 1..];
  }

  lemma {:induction false} OnceInMultiset(s: seq<nat>, v: nat)
    requires forall x, y :: 0 <= x < y < |s| ==> s[x] != s[y]
    ensures multiset(s)[v] <= 1
  {
    if s != [] {
      var k := |s| - 1;
      OnceInMultiset(s[..k], v);
      assert s == s[..k] + [s[k]];
      if s[k] == v {
        assert v !in s[..k];
        assert v !in multiset(s[..k]);
      }
    }
  }
}
