/**
 Move-to-front coding with bijective base-2 run lengths, and its inverse: compress.c lines
 119-231 and decompress.c lines 381-492, as functions on lists.
 */
module Mtf {

  import opened Rotation
  import opened Words

  const RUNA := 0
  const RUNB := 1
  const MAX_RUN := 2097152

  /** The list before the first symbol. */
  function Identity(n: nat): (l: seq<nat>)
    ensures |l| == n && forall i :: 0 <= i < n ==> l[i] == i
  {
    seq(n, i => i)
  }

  /** The list with its element `k` moved to the front. */
  function Front<T>(l: seq<T>, k: nat): (r: seq<T>)
    requires k < |l|
    ensures |r| == |l|
  {
    [l[k]] + l[..k] + l[k + 1..]
  }

  function IndexOf<T(==)>(l: seq<T>, v: T): (k: nat)
    requires v in l
    ensures k < |l| && l[k] == v && forall j :: 0 <= j < k ==> l[j] != v
  {
    if l[0] == v then 0 else 1 + IndexOf(l[1..], v)
  }

  lemma IndexUnique<T>(l: seq<T>, v: T, k: nat)
    requires k < |l| && l[k] == v && forall j :: 0 <= j < k ==> l[j] != v
    ensures v in l && IndexOf(l, v) == k
  {
  }

  /** Moving to the front loses no element. */
  lemma FrontKeeps<T>(l: seq<T>, k: nat, v: T)
    requires k < |l|
    ensures v in Front(l, k) <==> v in l
  {
    var r := Front(l, k);
    if v in l {
      var i :| 0 <= i < |l| && l[i] == v;
      assert r[if i < k then i + 1 else if i == k then 0 else i] == v;
    }
    if v in r {
      var i :| 0 <= i < |r| && r[i] == v;
      assert l[if i == 0 then k else if i <= k then i - 1 else i] == v;
    }
  }

  // ---------------------------------------------------------------- run lengths

  /** `z` repetitions of the front, least significant digit first, in digits 1 (RUNA) and 2 (RUNB). */
  function RunCode(z: nat): (s: seq<nat>)
    ensures |s| <= z && forall i :: 0 <= i < |s| ==> s[i] <= 1
  {
    if z == 0 then [] else [(z - 1) % 2] + RunCode((z - 1) / 2)
  }

  function RunLength(s: seq<nat>): (z: nat)
  {
    if s == [] then 0 else s[0] + 1 + 2 * RunLength(s[1..])
  }

  lemma {:induction false} RunRoundTrip(z: nat)
    ensures RunLength(RunCode(z)) == z
  {
    if z > 0 {
      RunRoundTrip((z - 1) / 2);
      assert RunCode(z)[1..] == RunCode((z - 1) / 2);
    }
  }

  /** Every string of digits is the code of its value. */
  lemma {:induction false} RunUnique(s: seq<nat>)
    requires forall i :: 0 <= i < |s| ==> s[i] <= 1
    ensures RunCode(RunLength(s)) == s
  {
    if s != [] {
      RunUnique(s[1..]);
      assert s == [s[0]] + s[1..];
    }
  }

  /** The digit at place `k` counts `2 ** k` times. */
  lemma {:induction false} RunDigit(s: seq<nat>, d: nat)
    requires d <= 1
    ensures RunLength(s + [d]) == RunLength(s) + (if d == 0 then Pow2(|s|) else 2 * Pow2(|s|))
  {
    if s == [] {
      assert s + [d] == [d] && [d][1..] == [];
    } else {
      RunDigit(s[1..], d);
      assert (s + [d])[1..] == s[1..] + [d];
    }
  }

  lemma {:induction false} RunWidth(s: seq<nat>)
    ensures RunLength(s) + 1 >= Pow2(|s|)
  {
    if s != [] {
      RunWidth(s[1..]);
    }
  }

  // ---------------------------------------------------------------- the encoder's symbols

  /** The symbols for the ranks `r`, with `z` repetitions of the front pending. */
  function Encode(list: seq<nat>, r: seq<nat>, z: nat, eob: nat): (s: seq<nat>)
    requires forall i :: 0 <= i < |r| ==> r[i] in list
    decreases |r|
  {
    if r == [] then RunCode(z) + [eob]
    else
      var k := IndexOf(list, r[0]);
      if k == 0 then Encode(list, r[1..], z + 1, eob)
      else RunCode(z) + [k + 1] + (forall i | 0 <= i < |r| ensures r[i] in Front(list, k) { FrontKeeps(list, k, r[i]); }
                                   Encode(Front(list, k), r[1..], 0, eob))
  }

  lemma {:induction false} EncodeEnds(list: seq<nat>, r: seq<nat>, z: nat, eob: nat)
    requires forall i :: 0 <= i < |r| ==> r[i] in list
    ensures Encode(list, r, z, eob) != [] && Encode(list, r, z, eob)[|Encode(list, r, z, eob)| - 1] == eob
    decreases |r|
  {
    if r != [] {
      var k := IndexOf(list, r[0]);
      if k == 0 {
        EncodeEnds(list, r[1..], z + 1, eob);
      } else {
        forall i | 0 <= i < |r| ensures r[i] in Front(list, k) { FrontKeeps(list, k, r[i]); }
        EncodeEnds(Front(list, k), r[1..], 0, eob);
      }
    }
  }

  /** There are no more symbols than ranks, but for the final EOB. */
  lemma {:induction false} EncodeShort(list: seq<nat>, r: seq<nat>, z: nat, eob: nat)
    requires forall i :: 0 <= i < |r| ==> r[i] in list
    ensures 1 <= |Encode(list, r, z, eob)| <= z + |r| + 1
    decreases |r|
  {
    if r != [] {
      var k := IndexOf(list, r[0]);
      if k == 0 {
        EncodeShort(list, r[1..], z + 1, eob);
      } else {
        forall i | 0 <= i < |r| ensures r[i] in Front(list, k) { FrontKeeps(list, k, r[i]); }
        EncodeShort(Front(list, k), r[1..], 0, eob);
      }
    }
  }

  /** Symbols other than the last lie below EOB. */
  lemma {:induction false} EncodeSymbols(list: seq<nat>, r: seq<nat>, z: nat, eob: nat, i: nat)
    requires forall i :: 0 <= i < |r| ==> r[i] in list
    requires eob == |list| + 1 && |list| >= 1 && i < |Encode(list, r, z, eob)|
    ensures Encode(list, r, z, eob)[i] <= eob
    ensures Encode(list, r, z, eob)[i] == eob <==> i == |Encode(list, r, z, eob)| - 1
    decreases |r|
  {
    if r != [] {
      var k := IndexOf(list, r[0]);
      if k == 0 {
        EncodeSymbols(list, r[1..], z + 1, eob, i);
      } else {
        forall i | 0 <= i < |r| ensures r[i] in Front(list, k) { FrontKeeps(list, k, r[i]); }
        EncodeShort(Front(list, k), r[1..], 0, eob);
        if i > |RunCode(z)| {
          EncodeSymbols(Front(list, k), r[1..], 0, eob, i - |RunCode(z)| - 1);
        }
      }
    }
  }

  // ---------------------------------------------------------------- the decoder

  /** A run under way: its length so far less 1, and the weight of the next digit. */
  datatype ZeroRun = NoRun | InRun(es: int, weight: nat)

  /** What the decoder of one block has: the list, the bytes so far, the run. */
  datatype Unmtf = Unmtf(list: seq<nat>, out: seq<byte>, run: ZeroRun)

  datatype Taken = Going(m: Unmtf) | Finished(out: seq<byte>) | Bad

  ghost predicate Listing(m: Unmtf, unseq: seq<byte>)
  {
    0 < |m.list| && forall i :: 0 <= i < |m.list| ==> m.list[i] < |unseq|
  }

  /** `c` repeated. */
  function Repeat(c: byte, n: nat): (s: seq<byte>)
    ensures |s| == n && forall i :: 0 <= i < n ==> s[i] == c
  {
    if n == 0 then [] else Repeat(c, n - 1) + [c]
  }

  /** Ends the run, if one is under way, by writing its copies of the front. */
  function Flush(m: Unmtf, unseq: seq<byte>, max: nat): (t: Taken)
    requires Listing(m, unseq)
  {
    match m.run
    case NoRun => Going(m)
    case InRun(es, _) =>
      if es + 1 <= 0 then Going(m.(run := NoRun))
      else if |m.out| + es + 1 > max then Bad
      else Going(m.(run := NoRun, out := m.out + Repeat(unseq[m.list[0]], es + 1)))
  }

  /** The decoder's step for one symbol. */
  function Take(m: Unmtf, sym: nat, eob: nat, unseq: seq<byte>, max: nat): (t: Taken)
    requires Listing(m, unseq) && sym <= eob && eob == |m.list| + 1
    ensures t.Going? ==> Listing(t.m, unseq) && |t.m.list| == |m.list|
  {
    if sym <= RUNB then
      var (es, weight) := if m.run.NoRun? then (-1, 1) else (m.run.es, m.run.weight);
      if weight >= MAX_RUN then Bad
      else Going(m.(run := InRun(es + (if sym == RUNA then weight else 2 * weight), 2 * weight)))
    else
      var f := Flush(m, unseq, max);
      if !f.Going? then f
      else if sym == eob then Finished(f.m.out)
      else if |f.m.out| >= max then Bad
      else Going(f.m.(list := Front(m.list, sym - 1), out := f.m.out + [unseq[m.list[sym - 1]]]))
  }

  /** All symbols of a block. */
  function Decode(m: Unmtf, s: seq<nat>, eob: nat, unseq: seq<byte>, max: nat): (t: Taken)
    requires Listing(m, unseq) && eob == |m.list| + 1 && forall i :: 0 <= i < |s| ==> s[i] <= eob
    decreases |s|
  {
    if s == [] then Going(m)
    else
      var t := Take(m, s[0], eob, unseq, max);
      if t.Going? then Decode(t.m, s[1..], eob, unseq, max) else t
  }

  lemma {:induction false} DecodeConcat(m: Unmtf, s: seq<nat>, s': seq<nat>, eob: nat, unseq: seq<byte>, max: nat)
    requires Listing(m, unseq) && eob == |m.list| + 1
    requires (forall i :: 0 <= i < |s| ==> s[i] <= eob) && (forall i :: 0 <= i < |s'| ==> s'[i] <= eob)
    ensures var t := Decode(m, s, eob, unseq, max);
            && (t.Going? ==> Listing(t.m, unseq) && |t.m.list| == |m.list|)
            && Decode(m, s + s', eob, unseq, max) == if t.Going? then Decode(t.m, s', eob, unseq, max) else t
    decreases |s|
  {
    if s == [] {
      assert s + s' == s';
    } else {
      assert (s + s')[1..] == s[1..] + s' && (s + s')[0] == s[0];
      var t := Take(m, s[0], eob, unseq, max);
      if t.Going? {
        DecodeConcat(t.m, s[1..], s', eob, unseq, max);
      }
    }
  }

  /** The digits of a run, read one by one. */
  lemma {:induction false} DecodeRun(m: Unmtf, s: seq<nat>, done: seq<nat>, eob: nat, unseq: seq<byte>, max: nat)
    requires Listing(m, unseq) && eob == |m.list| + 1 && (forall i :: 0 <= i < |s| ==> s[i] <= 1)
    requires m.run == if done == [] then NoRun else InRun(RunLength(done) - 1, Pow2(|done|))
    requires Pow2(|done| + |s|) <= MAX_RUN
    ensures Decode(m, s, eob, unseq, max)
            == Going(m.(run := if done + s == [] then NoRun else InRun(RunLength(done + s) - 1, Pow2(|done + s|))))
    decreases |s|
  {
    if s == [] {
      assert done + s == done;
    } else {
      RunDigit(done, s[0]);
      Pow2Less(|done|, |done| + |s|);
      assert done + s == done + [s[0]] + s[1..];
      assert RunLength([]) == 0;
      var t := Take(m, s[0], eob, unseq, max);
      assert t == Going(m.(run := InRun(RunLength(done + [s[0]]) - 1, Pow2(|done + [s[0]]|))));
      DecodeRun(t.m, s[1..], done + [s[0]], eob, unseq, max);
    }
  }

  lemma Pow2Less(i: nat, j: nat)
    requires i < j
    ensures Pow2(i) < Pow2(j)
  {
    Pow2Monotone(i + 1, j);
  }

  lemma RunFits(z: nat)
    requires z <= MAX_BLOCK
    ensures Pow2(|RunCode(z)|) <= MAX_RUN
  {
    RunRoundTrip(z);
    RunWidth(RunCode(z));
  }

  /** The bytes that the ranks stand for. */
  function Unranked(r: seq<nat>, unseq: seq<byte>): (s: seq<byte>)
    requires forall i :: 0 <= i < |r| ==> r[i] < |unseq|
    ensures |s| == |r| && forall i :: 0 <= i < |r| ==> s[i] == unseq[r[i]]
  {
    seq(|r|, i requires 0 <= i < |r| => unseq[r[i]])
  }

  /**
   Decoding the encoder's symbols: from the same list, they yield the pending repetitions of
   the front and then the ranks, as bytes.
   */
  lemma {:induction false} MtfRoundTrip(m: Unmtf, r: seq<nat>, z: nat, eob: nat, unseq: seq<byte>, max: nat)
    requires Listing(m, unseq) && eob == |m.list| + 1 && m.run.NoRun?
    requires forall i :: 0 <= i < |r| ==> r[i] in m.list && r[i] < |unseq|
    requires |m.out| + z + |r| <= max <= MAX_BLOCK
    ensures forall i :: 0 <= i < |Encode(m.list, r, z, eob)| ==> Encode(m.list, r, z, eob)[i] <= eob
    ensures Decode(m, Encode(m.list, r, z, eob), eob, unseq, max)
            == Finished(m.out + Repeat(unseq[m.list[0]], z) + Unranked(r, unseq))
    decreases |r|
  {
    hide Decode, Take, Flush, Front, RunCode, Repeat, Unranked;
    var s := Encode(m.list, r, z, eob);
    forall i | 0 <= i < |s| ensures s[i] <= eob {
      EncodeSymbols(m.list, r, z, eob, i);
    }
    if r == [] {
      RoundTripRun(m, z, eob, eob, unseq, max);
      AppendNothing(m.out + Repeat(unseq[m.list[0]], z), Unranked(r, unseq));
    } else {
      var k := IndexOf(m.list, r[0]);
      if k == 0 {
        MtfRoundTrip(m, r[1..], z + 1, eob, unseq, max);
        RepeatMore(m.out, unseq[m.list[0]], z, r, unseq);
      } else {
        forall i | 0 <= i < |r| ensures r[i] in Front(m.list, k) { FrontKeeps(m.list, k, r[i]); }
        var rest := Encode(Front(m.list, k), r[1..], 0, eob);
        forall i | 0 <= i < |rest| ensures rest[i] <= eob {
          EncodeSymbols(Front(m.list, k), r[1..], 0, eob, i);
        }
        RoundTripRun(m, z, k + 1, eob, unseq, max);
        assert s == RunCode(z) + [k + 1] + rest;
        DecodeConcat(m, RunCode(z) + [k + 1], rest, eob, unseq, max);
        var m' := Unmtf(Front(m.list, k), m.out + Repeat(unseq[m.list[0]], z) + [unseq[r[0]]], NoRun);
        MtfRoundTrip(m', r[1..], 0, eob, unseq, max);
        AppendOne(m.out + Repeat(unseq[m.list[0]], z), r, unseq, unseq[m'.list[0]]);
      }
    }
  }

  lemma AppendNothing(a: seq<byte>, b: seq<byte>)
    requires b == []
    ensures a + b == a
  {
  }

  lemma AppendOne(a: seq<byte>, r: seq<nat>, unseq: seq<byte>, c: byte)
    requires r != [] && forall i :: 0 <= i < |r| ==> r[i] < |unseq|
    ensures a + [unseq[r[0]]] + Repeat(c, 0) + Unranked(r[1..], unseq) == a + Unranked(r, unseq)
  {
    assert Unranked(r, unseq) == [unseq[r[0]]] + Unranked(r[1..], unseq);
  }

  lemma RepeatMore(out: seq<byte>, c: byte, z: nat, r: seq<nat>, unseq: seq<byte>)
    requires r != [] && (forall i :: 0 <= i < |r| ==> r[i] < |unseq|) && c == unseq[r[0]]
    ensures out + Repeat(c, z + 1) + Unranked(r[1..], unseq) == out + Repeat(c, z) + Unranked(r, unseq)
  {
    assert Unranked(r, unseq) == [c] + Unranked(r[1..], unseq);
  }

  /** A run and the symbol that ends it. */
  lemma RoundTripRun(m: Unmtf, z: nat, sym: nat, eob: nat, unseq: seq<byte>, max: nat)
    requires Listing(m, unseq) && eob == |m.list| + 1 && m.run.NoRun? && 2 <= sym <= eob
    requires |m.out| + z + (if sym == eob then 0 else 1) <= max <= MAX_BLOCK
    ensures Decode(m, RunCode(z) + [sym], eob, unseq, max)
            == var out := m.out + Repeat(unseq[m.list[0]], z);
               if sym == eob then Finished(out)
               else Going(Unmtf(Front(m.list, sym - 1), out + [unseq[m.list[sym - 1]]], NoRun))
  {
    RunFits(z);
    RunRoundTrip(z);
    DecodeRun(m, RunCode(z), [], eob, unseq, max);
    assert [] + RunCode(z) == RunCode(z);
    assert z == 0 ==> m.out + Repeat(unseq[m.list[0]], z) == m.out;
    DecodeConcat(m, RunCode(z), [sym], eob, unseq, max);
    var t := Decode(m, RunCode(z), eob, unseq, max);
    assert [sym][1..] == [];
    assert Decode(t.m, [sym], eob, unseq, max) == Take(t.m, sym, eob, unseq, max);
  }
}
