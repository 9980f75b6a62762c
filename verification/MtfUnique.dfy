/**
 The decoder's symbols of a block are determined by its bytes: whatever symbols it accepts are those
 that the encoder would have written.
 */
module MtfUnique {

  import opened Rotation
  import opened Words
  import opened ByteMap
  import opened Mtf
  import opened MtfEncoder

  ghost predicate Different(list: seq<nat>)
  {
    forall i, j :: 0 <= i < j < |list| ==> list[i] != list[j]
  }

  lemma FrontDifferent(list: seq<nat>, k: nat)
    requires Different(list) && k < |list|
    ensures Different(Front(list, k)) && IndexOf(list, list[k]) == k
  {
    IndexUnique(list, list[k], k);
    var r := Front(list, k);
    assert forall i :: 0 <= i < |r| ==> r[i] == list[if i == 0 then k else if i <= k then i - 1 else i];
  }

  function Copies(v: nat, n: nat): (r: seq<nat>)
    ensures |r| == n && forall i :: 0 <= i < n ==> r[i] == v
  {
    if n == 0 then [] else [v] + Copies(v, n - 1)
  }

  lemma CopiesIn(list: seq<nat>, k: nat, n: nat, r: seq<nat>)
    requires k < |list| && forall i :: 0 <= i < |r| ==> r[i] in list
    ensures forall i :: 0 <= i < |Copies(list[k], n) + r| ==> (Copies(list[k], n) + r)[i] in list
  {
  }

  /** Repetitions of the front are a run. */
  lemma {:induction false} EncodeCopies(list: seq<nat>, r: seq<nat>, z: nat, n: nat, eob: nat)
    requires list != [] && forall i :: 0 <= i < |r| ==> r[i] in list
    ensures forall i :: 0 <= i < |Copies(list[0], n) + r| ==> (Copies(list[0], n) + r)[i] in list
    ensures Encode(list, Copies(list[0], n) + r, z, eob) == Encode(list, r, z + n, eob)
    decreases n
  {
    hide RunCode, Front;
    CopiesIn(list, 0, n, r);
    if n > 0 {
      EncodeCopies(list, r, z + 1, n - 1, eob);
      var all := Copies(list[0], n) + r;
      assert all[1..] == Copies(list[0], n - 1) + r && all[0] == list[0];
      IndexUnique(list, list[0], 0);
    } else {
      assert Copies(list[0], 0) + r == r;
    }
  }

  lemma {:induction false} UnrankedCopies(v: nat, n: nat, r: seq<nat>, unseq: seq<byte>)
    requires v < |unseq| && forall i :: 0 <= i < |r| ==> r[i] < |unseq|
    ensures forall i :: 0 <= i < |Copies(v, n) + r| ==> (Copies(v, n) + r)[i] < |unseq|
    ensures Unranked(Copies(v, n) + r, unseq) == Repeat(unseq[v], n) + Unranked(r, unseq)
  {
  }

  /** The digits of a run read so far. */
  ghost predicate InDigits(m: Unmtf, done: seq<nat>)
  {
    && (forall i :: 0 <= i < |done| ==> done[i] <= 1)
    && m.run == if done == [] then NoRun else InRun(RunLength(done) - 1, Pow2(|done|))
  }

  /** One more digit. */
  lemma DigitTaken(m: Unmtf, done: seq<nat>, d: nat, eob: nat, unseq: seq<byte>, max: nat)
    requires Listing(m, unseq) && eob == |m.list| + 1 && InDigits(m, done) && d <= 1
    ensures var t := Take(m, d, eob, unseq, max);
            t == Bad || (t.Going? && InDigits(t.m, done + [d]) && t.m.list == m.list && t.m.out == m.out)
  {
    RunDigit(done, d);
    assert RunLength([]) == 0 && Pow2(0) == 1;
    hide RunLength;
  }

  lemma {:induction false} RunPositive(done: seq<nat>)
    ensures RunLength(done) >= |done|
  {
    if done != [] {
      RunPositive(done[1..]);
    }
  }

  /** The symbol that ends a run. */
  lemma RunEnded(m: Unmtf, done: seq<nat>, sym: nat, eob: nat, unseq: seq<byte>, max: nat)
    requires Listing(m, unseq) && eob == |m.list| + 1 && InDigits(m, done) && 2 <= sym <= eob && |m.out| <= max
    ensures var t, out := Take(m, sym, eob, unseq, max), m.out + Repeat(unseq[m.list[0]], RunLength(done));
            || t == Bad
            || (sym == eob && t == Finished(out) && |out| <= max)
            || (sym < eob && t == Going(Unmtf(Front(m.list, sym - 1), out + [unseq[m.list[sym - 1]]], NoRun))
                && |out| < max)
  {
    RunPositive(done);
    hide Front, RunLength;
    if done == [] {
      NoneRun(unseq[m.list[0]]);
      assert m.out + Repeat(unseq[m.list[0]], RunLength(done)) == m.out;
    }
  }

  lemma NoneRun(c: byte)
    ensures RunLength([]) == 0 && Repeat(c, 0) == []
  {
  }

  /** The symbols from a digit or a rank on are the code of some ranks. */
  ghost predicate Coded(m: Unmtf, done: seq<nat>, s: seq<nat>, eob: nat, unseq: seq<byte>, out: seq<byte>, z: nat,
                        r: seq<nat>)
    requires Listing(m, unseq)
  {
    && (forall i :: 0 <= i < |r| ==> r[i] in m.list && r[i] < |unseq|)
    && done + s == Encode(m.list, r, z, eob)
    && out == m.out + Repeat(unseq[m.list[0]], z) + Unranked(r, unseq)
  }

  lemma CodedEnd(m: Unmtf, done: seq<nat>, eob: nat, unseq: seq<byte>)
    requires Listing(m, unseq) && InDigits(m, done)
    ensures Coded(m, done, [eob], eob, unseq, m.out + Repeat(unseq[m.list[0]], RunLength(done)), RunLength(done), [])
  {
    RunUnique(done);
    hide RunCode, RunLength;
    assert Unranked([], unseq) == [];
    var x := m.out + Repeat(unseq[m.list[0]], RunLength(done));
    assert x + [] == x;
  }

  lemma EncodeFirst(list: seq<nat>, k: nat, z0: nat, r: seq<nat>, eob: nat)
    requires Different(list) && 1 <= k < |list| && forall i :: 0 <= i < |r| ==> r[i] in Front(list, k)
    ensures forall i :: 0 <= i < |[list[k]] + r| ==> ([list[k]] + r)[i] in list
    ensures Encode(list, [list[k]] + r, z0, eob) == RunCode(z0) + [k + 1] + Encode(Front(list, k), r, 0, eob)
  {
    FrontDifferent(list, k);
    forall i | 0 <= i < |r| ensures r[i] in list {
      FrontKeeps(list, k, r[i]);
    }
    hide Front, RunCode, Different;
    assert ([list[k]] + r)[1..] == r && ([list[k]] + r)[0] == list[k];
  }

  /** A rank behind the front, and then repetitions of the new front. */
  lemma EncodeMore(list: seq<nat>, k: nat, z0: nat, z: nat, r: seq<nat>, eob: nat)
    requires Different(list) && 1 <= k < |list| && forall i :: 0 <= i < |r| ==> r[i] in Front(list, k)
    ensures var all := [list[k]] + Copies(list[k], z) + r;
            && (forall i :: 0 <= i < |all| ==> all[i] in list)
            && Encode(list, all, z0, eob) == RunCode(z0) + [k + 1] + Encode(Front(list, k), r, z, eob)
  {
    hide *;
    FrontFirst(list, k);
    EncodeCopies(Front(list, k), r, 0, z, eob);
    EncodeFirst(list, k, z0, Copies(list[k], z) + r, eob);
    assert [list[k]] + (Copies(list[k], z) + r) == [list[k]] + Copies(list[k], z) + r;
  }

  lemma UnrankFirst(v: nat, r: seq<nat>, unseq: seq<byte>)
    requires v < |unseq| && forall i :: 0 <= i < |r| ==> r[i] < |unseq|
    ensures forall i :: 0 <= i < |[v] + r| ==> ([v] + r)[i] < |unseq|
    ensures Unranked([v] + r, unseq) == [unseq[v]] + Unranked(r, unseq)
  {
  }

  lemma UnrankMore(v: nat, z: nat, r: seq<nat>, unseq: seq<byte>, a: seq<byte>)
    requires v < |unseq| && forall i :: 0 <= i < |r| ==> r[i] < |unseq|
    ensures var all := [v] + Copies(v, z) + r;
            && (forall i :: 0 <= i < |all| ==> all[i] < |unseq|)
            && a + [unseq[v]] + Repeat(unseq[v], z) + Unranked(r, unseq) == a + Unranked(all, unseq)
  {
    hide *;
    UnrankedCopies(v, z, r, unseq);
    UnrankFirst(v, Copies(v, z) + r, unseq);
    assert [v] + (Copies(v, z) + r) == [v] + Copies(v, z) + r;
    OneAndMore(a, unseq[v], Repeat(unseq[v], z), Unranked(r, unseq));
  }

  lemma OneAndMore(a: seq<byte>, c: byte, b: seq<byte>, e: seq<byte>)
    ensures a + [c] + b + e == a + ([c] + (b + e))
  {
  }

  lemma CodedIs(m: Unmtf, done: seq<nat>, s: seq<nat>, eob: nat, unseq: seq<byte>, out: seq<byte>, z: nat, r: seq<nat>)
    requires Listing(m, unseq)
    ensures Coded(m, done, s, eob, unseq, out, z, r) <==>
              && (forall i :: 0 <= i < |r| ==> r[i] in m.list && r[i] < |unseq|)
              && done + s == Encode(m.list, r, z, eob)
              && out == m.out + Repeat(unseq[m.list[0]], z) + Unranked(r, unseq)
  {
    hide Encode, Repeat, Unranked;
  }

  lemma FrontFirst(list: seq<nat>, k: nat)
    requires k < |list|
    ensures Front(list, k)[0] == list[k]
  {
  }

  lemma DigitsCode(m: Unmtf, done: seq<nat>)
    requires InDigits(m, done)
    ensures RunCode(RunLength(done)) == done
  {
    RunUnique(done);
  }

  lemma CodedMore(m: Unmtf, done: seq<nat>, s: seq<nat>, k: nat, eob: nat, unseq: seq<byte>, out: seq<byte>, z: nat,
                  r: seq<nat>, m': Unmtf)
    requires Listing(m, unseq) && InDigits(m, done) && Different(m.list) && 1 <= k < |m.list| && m.list[k] < |unseq|
    requires m.list[0] < |unseq|
    requires m' == Unmtf(Front(m.list, k), m.out + Repeat(unseq[m.list[0]], RunLength(done)) + [unseq[m.list[k]]],
                         NoRun)
    requires Listing(m', unseq) && Coded(m', [], s, eob, unseq, out, z, r)
    ensures Coded(m, done, [k + 1] + s, eob, unseq, out, RunLength(done), [m.list[k]] + Copies(m.list[k], z) + r)
  {
    hide *;
    CodedIs(m', [], s, eob, unseq, out, z, r);
    EncodeMore(m.list, k, RunLength(done), z, r, eob);
    UnrankMore(m.list[k], z, r, unseq, m.out + Repeat(unseq[m.list[0]], RunLength(done)));
    FrontFirst(m.list, k);
    DigitsCode(m, done);
    assert [] + s == s && done + [k + 1] + s == done + ([k + 1] + s);
    CodedIs(m, done, [k + 1] + s, eob, unseq, out, RunLength(done), [m.list[k]] + Copies(m.list[k], z) + r);
  }

  /** Decoding, backwards. */
  lemma {:induction false} DecodeBack(m: Unmtf, done: seq<nat>, s: seq<nat>, eob: nat, unseq: seq<byte>, max: nat,
                                      out: seq<byte>) returns (z: nat, r: seq<nat>)
    requires Listing(m, unseq) && eob == |m.list| + 1 && Different(m.list) && InDigits(m, done) && |m.out| <= max
    requires (forall i :: 0 <= i < |s| ==> s[i] <= eob) && (forall i :: 0 <= i < |s| - 1 ==> s[i] != eob)
    requires Decode(m, s, eob, unseq, max) == Finished(out)
    ensures Coded(m, done, s, eob, unseq, out, z, r) && |out| <= max
    decreases |s|
  {
    hide Take, Coded, InDigits, RunLength, Different, Front;
    var t := Take(m, s[0], eob, unseq, max);
    assert s == [s[0]] + s[1..];
    if s[0] <= 1 {
      DigitTaken(m, done, s[0], eob, unseq, max);
      z, r := DecodeBack(t.m, done + [s[0]], s[1..], eob, unseq, max, out);
      CodedDigit(m, t.m, done, s, eob, unseq, out, z, r);
    } else {
      RunEnded(m, done, s[0], eob, unseq, max);
      if s[0] == eob {
        assert s == [eob];
        z, r := RunLength(done), [];
        CodedEnd(m, done, eob, unseq);
      } else {
        FrontDifferent(m.list, s[0] - 1);
        NoDigits(t.m);
        z, r := DecodeBack(t.m, [], s[1..], eob, unseq, max, out);
        CodedMore(m, done, s[1..], s[0] - 1, eob, unseq, out, z, r, t.m);
        r := [m.list[s[0] - 1]] + Copies(m.list[s[0] - 1], z) + r;
        z := RunLength(done);
      }
    }
  }

  lemma NoDigits(m: Unmtf)
    requires m.run.NoRun?
    ensures InDigits(m, [])
  {
  }

  lemma CodedDigit(m: Unmtf, m': Unmtf, done: seq<nat>, s: seq<nat>, eob: nat, unseq: seq<byte>, out: seq<byte>, z: nat,
                   r: seq<nat>)
    requires Listing(m, unseq) && Listing(m', unseq) && s != [] && m'.list == m.list && m'.out == m.out
    requires Coded(m', done + [s[0]], s[1..], eob, unseq, out, z, r)
    ensures Coded(m, done, s, eob, unseq, out, z, r)
  {
    assert done + [s[0]] + s[1..] == done + s;
  }

  // ---------------------------------------------------------------- the symbols of a block

  /** The inverse of the renumbering. */
  lemma {:induction false} UsedRanked(inUse: seq<bool>, n: nat, k: nat)
    requires n <= |inUse| == 256 && k < |Used(inUse, n)|
    ensures Used(inUse, n)[k] < n && inUse[Used(inUse, n)[k]] && Rank(inUse, Used(inUse, n)[k]) == k
  {
    if k < |Used(inUse, n - 1)| {
      UsedRanked(inUse, n - 1, k);
    }
  }

  lemma RanksBack(inUse: seq<bool>, r: seq<nat>)
    requires |inUse| == 256 && forall i :: 0 <= i < |r| ==> r[i] < |Used(inUse, 256)|
    ensures var l := Unranked(r, Used(inUse, 256)); AllUsed(l, inUse) && Ranks(l, inUse) == r
  {
    hide Used;
    var l := Unranked(r, Used(inUse, 256));
    forall i | 0 <= i < |r| ensures inUse[l[i]] && Rank(inUse, l[i]) == r[i] {
      UsedRanked(inUse, 256, r[i]);
    }
  }

  /** Whatever symbols the decoder accepts for a block, they are the encoder's for its bytes. */
  lemma SymbolsUnique(inUse: seq<bool>, syms: seq<nat>, max: nat, column: seq<byte>)
    requires |inUse| == 256 && Used(inUse, 256) != []
    requires var n := |Used(inUse, 256)|;
             && (forall i :: 0 <= i < |syms| ==> syms[i] <= n + 1)
             && (forall i :: 0 <= i < |syms| - 1 ==> syms[i] != n + 1)
             && Decode(Unmtf(Identity(n), [], NoRun), syms, n + 1, Used(inUse, 256), max) == Finished(column)
    ensures AllUsed(column, inUse) && syms == Symbols(column, inUse) && |column| <= max
  {
    hide Used, Decode, Encode, Repeat, Rank, Unranked;
    var unseq := Used(inUse, 256);
    var n := |unseq|;
    var m := Unmtf(Identity(n), [], NoRun);
    NoDigits(m);
    var z, r := DecodeBack(m, [], syms, n + 1, unseq, max, column);
    EncodeCopies(m.list, r, 0, z, n + 1);
    UnrankedCopies(0, z, r, unseq);
    RanksBack(inUse, Copies(0, z) + r);
    assert [] + syms == syms && [] + Repeat(unseq[0], z) == Repeat(unseq[0], z);
  }
}
