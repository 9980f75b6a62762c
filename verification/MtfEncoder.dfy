/**
 generateMTFValues (compress.c lines 119-231): the symbols of a sorted block, written as
 16-bit halves over the words of the order they are computed from.
 */
module MtfEncoder {

  import opened Rotation
  import opened Counting
  import opened Mtf
  import opened ByteMap

  /** 16-bit entry `k` of the words, seen as `mtfv`. */
  function Half(words: seq<nat>, k: nat): (v: nat)
    requires k / 2 < |words|
  {
    if k % 2 == 0 then words[k / 2] % 65536 else words[k / 2] / 65536
  }

  function SetHalfOf(w: nat, k: nat, v: nat): (r: nat)
    requires v < 65536
  {
    if k % 2 == 0 then w / 65536 * 65536 + v else w % 65536 + v * 65536
  }

  lemma SetHalfHalves(words: seq<nat>, k: nat, v: nat, j: nat)
    requires k / 2 < |words| && j / 2 < |words| && v < 65536
    ensures Half(words[k / 2 := SetHalfOf(words[k / 2], k, v)], j) == if j == k then v else Half(words, j)
  {
  }

  /** The ranks of the bytes of the last column. */
  function Ranks(l: seq<byte>, inUse: seq<bool>): (r: seq<nat>)
    requires |inUse| == 256
    ensures |r| == |l| && forall i :: 0 <= i < |l| ==> r[i] == Rank(inUse, l[i])
  {
    seq(|l|, i requires 0 <= i < |l| => Rank(inUse, l[i]))
  }

  ghost predicate AllUsed(l: seq<byte>, inUse: seq<bool>)
  {
    |inUse| == 256 && forall i :: 0 <= i < |l| ==> inUse[l[i]]
  }

  lemma RanksListed(l: seq<byte>, inUse: seq<bool>)
    requires AllUsed(l, inUse)
    ensures forall i :: 0 <= i < |l| ==> Ranks(l, inUse)[i] < |Used(inUse, 256)|
    ensures forall i :: 0 <= i < |l| ==> Ranks(l, inUse)[i] in Identity(|Used(inUse, 256)|)
  {
    forall i | 0 <= i < |l|
      ensures Ranks(l, inUse)[i] < |Used(inUse, 256)| && Ranks(l, inUse)[i] in Identity(|Used(inUse, 256)|)
    {
      UsedRank(inUse, l[i]);
      assert Identity(|Used(inUse, 256)|)[Ranks(l, inUse)[i]] == Ranks(l, inUse)[i];
    }
  }

  /** The symbols of a block with last column `l`. */
  ghost function Symbols(l: seq<byte>, inUse: seq<bool>): (s: seq<nat>)
    requires AllUsed(l, inUse)
  {
    RanksListed(l, inUse);
    Encode(Identity(|Used(inUse, 256)|), Ranks(l, inUse), 0, |Used(inUse, 256)| + 1)
  }

  // ---------------------------------------------------------------- writing symbols

  /** `done` is written, and entries `i ..` of the order are still there. */
  ghost predicate Written(words: seq<nat>, p: seq<nat>, done: seq<nat>, i: nat)
  {
    && i <= |p| == |words| && |done| <= 2 * i
    && (forall x :: i <= x < |p| ==> words[x] == p[x])
    && (forall k :: 0 <= k < |done| ==> k / 2 < |words| && Half(words, k) == done[k])
  }

  ghost predicate Counted(freq: seq<nat>, done: seq<nat>, eob: nat)
  {
    eob < |freq| && forall s :: 0 <= s <= eob ==> freq[s] == Occ(done, s, |done|)
  }

  lemma {:induction false} OccAppend(l: seq<nat>, v: nat, c: nat, i: nat)
    requires i <= |l|
    ensures Occ(l + [v], c, i) == Occ(l, c, i)
  {
    if i > 0 {
      OccAppend(l, v, c, i - 1);
    }
  }

  lemma CountedMore(freq: seq<nat>, done: seq<nat>, eob: nat, v: nat)
    requires Counted(freq, done, eob) && v <= eob
    ensures Counted(freq[v := freq[v] + 1], done + [v], eob)
  {
    forall s | 0 <= s <= eob ensures Occ(done + [v], s, |done| + 1) == Occ(done, s, |done|) + if s == v then 1 else 0 {
      OccAppend(done, v, s, |done|);
    }
  }

  lemma WrittenMore(words: seq<nat>, p: seq<nat>, done: seq<nat>, i: nat, v: nat)
    requires Written(words, p, done, i) && |done| < 2 * i && v < 65536
    ensures |done| / 2 < |words|
    ensures Written(words[|done| / 2 := SetHalfOf(words[|done| / 2], |done|, v)], p, done + [v], i)
  {
    hide Half, SetHalfOf;
    var k := |done|;
    forall j | 0 <= j <= k
      ensures Half(words[k / 2 := SetHalfOf(words[k / 2], k, v)], j) == (done + [v])[j]
    {
      SetHalfHalves(words, k, v, j);
    }
  }

  method Emit(arr1: array<nat>, mtfFreq: array<nat>, wr0: nat, v: nat, ghost p: seq<nat>, ghost done: seq<nat>,
              ghost i: nat,
              ghost eob: nat) returns (wr: nat)
    requires arr1 != mtfFreq && wr0 == |done| < 2 * i && v <= eob < 65536
    requires Written(arr1[..], p, done, i) && Counted(mtfFreq[..], done, eob)
    modifies arr1, mtfFreq
    ensures wr == wr0 + 1 && Written(arr1[..], p, done + [v], i) && Counted(mtfFreq[..], done + [v], eob)
  {
    ghost var words: seq<nat>, freq: seq<nat> := arr1[..], mtfFreq[..];
    WrittenMore(words, p, done, i, v);
    CountedMore(freq, done, eob, v);
    hide Written, Half, Occ, SetHalfOf;
    arr1[wr0 / 2] := SetHalfOf(arr1[wr0 / 2], wr0, v);
    assert arr1[..] == words[wr0 / 2 := SetHalfOf(words[wr0 / 2], wr0, v)];
    mtfFreq[v] := mtfFreq[v] + 1;
    assert mtfFreq[..] == freq[v := freq[v] + 1];
    wr := wr0 + 1;
  }

  lemma RunCodeStep(y: nat)
    ensures RunCode(y + 1) == if y < 2 then [y % 2] else [y % 2] + RunCode((y - 2) / 2 + 1)
  {
    assert RunCode(y + 1) == [y % 2] + RunCode(y / 2);
    if y < 2 {
      assert y / 2 == 0 && RunCode(0) == [];
    } else {
      assert (y - 2) / 2 + 1 == y / 2;
    }
  }

  lemma Regroup<T>(a: seq<T>, x: T, b: seq<T>)
    ensures a + [x] + b == a + ([x] + b)
  {
  }

  lemma NoRunCode()
    ensures RunCode(0) == [] && RUNA == 0 && RUNB == 1
  {
  }

  method EmitRun(arr1: array<nat>, mtfFreq: array<nat>, wr0: nat, z: nat, ghost p: seq<nat>, ghost done0: seq<nat>,
                 ghost i: nat, ghost eob: nat) returns (wr: nat)
    requires arr1 != mtfFreq && wr0 == |done0| && |done0| + z <= i && 2 <= eob < 65536
    requires Written(arr1[..], p, done0, i) && Counted(mtfFreq[..], done0, eob)
    modifies arr1, mtfFreq
    ensures wr == |done0 + RunCode(z)| && |done0 + RunCode(z)| <= i
    ensures Written(arr1[..], p, done0 + RunCode(z), i) && Counted(mtfFreq[..], done0 + RunCode(z), eob)
  {
    hide *;
    wr := wr0;
    NoRunCode();
    assert done0 + [] == done0;
    if z > 0 {
      var zPend: nat := z - 1;
      ghost var done: seq<nat> := done0;
      while true
        invariant Written(arr1[..], p, done, i) && Counted(mtfFreq[..], done, eob)
        invariant wr == |done| && done + RunCode(zPend + 1) == done0 + RunCode(z) && |done| + zPend + 1 <= i
        decreases zPend
      {
        RunCodeStep(zPend);
        ghost var d := zPend % 2;
        if zPend % 2 == 1 {
          wr := Emit(arr1, mtfFreq, wr, RUNB, p, done, i, eob);
        } else {
          wr := Emit(arr1, mtfFreq, wr, RUNA, p, done, i, eob);
        }
        if zPend < 2 {
          done := done + [d];
          break;
        }
        Regroup(done, d, RunCode((zPend - 2) / 2 + 1));
        done := done + [d];
        zPend := (zPend - 2) / 2;
      }
    }
  }

  // ---------------------------------------------------------------- the list

  /** Finds `ll` behind the front and moves it there. */
  method MoveUp(yy: array<nat>, ll: nat, n: nat, ghost list: seq<nat>) returns (j: nat)
    requires n <= yy.Length && yy[..n] == list && ll in list && list[0] != ll
    modifies yy
    ensures j == IndexOf(list, ll) && 1 <= j < n && yy[..n] == Front(list, j)
  {
    hide IndexOf;
    ghost var at := IndexOf(list, ll);
    var rtmp := yy[1];
    yy[1] := yy[0];
    j := 1;
    while ll != rtmp
      invariant 1 <= j <= at < n && rtmp == list[j] && yy[0] == list[0]
      invariant forall k :: 1 <= k <= j ==> yy[k] == list[k - 1]
      invariant forall k :: j < k < n ==> yy[k] == list[k]
      invariant forall k :: 0 <= k < j ==> list[k] != ll
      decreases at - j
    {
      j := j + 1;
      var rtmp2 := rtmp;
      rtmp := yy[j];
      yy[j] := rtmp2;
    }
    yy[0] := rtmp;
    IndexUnique(list, ll, j);
    assert yy[..n] == Front(list, j);
  }

  // ---------------------------------------------------------------- the whole block

  /** After `i` rows: what is written, the list, and what the rest will add. */
  ghost predicate Generating(words: seq<nat>, p: seq<nat>, list: seq<nat>, r: seq<nat>, done: seq<nat>, all: seq<nat>,
                             z: nat, i: nat, eob: nat)
  {
    && i <= |r| == |p| && Written(words, p, done, i) && |done| + z <= i
    && (forall x :: 0 <= x < |r| ==> r[x] in list)
    && done + Encode(list, r[i..], z, eob) == all
  }

  lemma GeneratingFront(words: seq<nat>, p: seq<nat>, list: seq<nat>, r: seq<nat>, done: seq<nat>, all: seq<nat>,
                        z: nat, i: nat, eob: nat)
    requires Generating(words, p, list, r, done, all, z, i, eob) && i < |r| && list != [] && list[0] == r[i]
    ensures Generating(words, p, list, r, done, all, z + 1, i + 1, eob)
  {
    hide Half;
    assert r[i..][1..] == r[i + 1..];
  }

  lemma GeneratingMoved(words: seq<nat>, words': seq<nat>, p: seq<nat>, list: seq<nat>, r: seq<nat>, done: seq<nat>,
                        all: seq<nat>, z: nat, i: nat, eob: nat, k: nat)
    requires Generating(words, p, list, r, done, all, z, i, eob) && i < |r| && list != [] && list[0] != r[i]
    requires r[i] in list && k == IndexOf(list, r[i])
    requires Written(words', p, done + RunCode(z) + [k + 1], i + 1)
    ensures Generating(words', p, Front(list, k), r, done + RunCode(z) + [k + 1], all, 0, i + 1, eob)
  {
    hide *;
    GeneratingFacts(words, p, list, r, done, all, z, i, eob);
    assert r[i..][0] == r[i] && r[i..][1..] == r[i + 1..];
    EncodeMoved(list, r[i..], z, eob, k);
    StillListed(list, r, k);
    var rest := Encode(Front(list, k), r[i + 1..], 0, eob);
    assert done + (RunCode(z) + [k + 1] + rest) == done + RunCode(z) + [k + 1] + rest;
    IsGenerating(words', p, Front(list, k), r, done + RunCode(z) + [k + 1], all, 0, i + 1, eob);
  }

  lemma GeneratingFacts(words: seq<nat>, p: seq<nat>, list: seq<nat>, r: seq<nat>, done: seq<nat>, all: seq<nat>,
                        z: nat, i: nat, eob: nat)
    requires Generating(words, p, list, r, done, all, z, i, eob)
    ensures i <= |r| == |p| && |done| + z <= i && (forall x :: 0 <= x < |r| ==> r[x] in list)
    ensures done + Encode(list, r[i..], z, eob) == all
  {
    hide Written, Encode;
  }

  lemma IsGenerating(words: seq<nat>, p: seq<nat>, list: seq<nat>, r: seq<nat>, done: seq<nat>, all: seq<nat>,
                     z: nat, i: nat, eob: nat)
    requires i <= |r| == |p| && Written(words, p, done, i) && |done| + z <= i
    requires forall x :: 0 <= x < |r| ==> r[x] in list
    requires done + Encode(list, r[i..], z, eob) == all
    ensures Generating(words, p, list, r, done, all, z, i, eob)
  {
    hide Written, Encode;
  }

  /** What a rank that is not at the front is coded as. */
  lemma EncodeMoved(list: seq<nat>, s: seq<nat>, z: nat, eob: nat, k: nat)
    requires s != [] && (forall x :: 0 <= x < |s| ==> s[x] in list) && k == IndexOf(list, s[0]) && list[0] != s[0]
    ensures forall x :: 0 <= x < |s| ==> s[x] in Front(list, k)
    ensures Encode(list, s, z, eob) == RunCode(z) + [k + 1] + Encode(Front(list, k), s[1..], 0, eob)
  {
    hide Front, RunCode;
    StillListed(list, s, k);
  }

  lemma StillListed(list: seq<nat>, r: seq<nat>, k: nat)
    requires k < |list| && forall x :: 0 <= x < |r| ==> r[x] in list
    ensures forall x :: 0 <= x < |r| ==> r[x] in Front(list, k)
  {
    hide Front;
    forall x | 0 <= x < |r| ensures r[x] in Front(list, k) {
      FrontKeeps(list, k, r[x]);
    }
  }

  lemma GeneratingBounds(words: seq<nat>, p: seq<nat>, list: seq<nat>, r: seq<nat>, done: seq<nat>, all: seq<nat>,
                         z: nat, i: nat, eob: nat)
    requires Generating(words, p, list, r, done, all, z, i, eob)
    ensures |words| == |p| == |r| && i <= |r| && |done| + z <= i && Written(words, p, done, i)
    ensures i < |r| ==> words[i] == p[i] && r[i] in list && Written(words, p, done, i + 1)
  {
  }

  /** One row of the sorted block. */
  method EncodeRow(arr1: array<nat>, mtfFreq: array<nat>, yy: array<nat>, nInUse: nat, wr0: nat, zPend0: nat, ll: nat,
                   ghost p: seq<nat>, ghost list: seq<nat>, ghost r: seq<nat>, ghost done0: seq<nat>,
                       ghost all: seq<nat>,
                   ghost i: nat)
    returns (wr: nat, zPend: nat, ghost list': seq<nat>, ghost done: seq<nat>)
    requires arr1 != mtfFreq && arr1 != yy && mtfFreq != yy && nInUse <= 256 && nInUse <= yy.Length && 0 < nInUse
    requires yy[..nInUse] == list && i < |r| && r[i] == ll && wr0 == |done0|
    requires Generating(arr1[..], p, list, r, done0, all, zPend0, i, nInUse + 1)
    requires Counted(mtfFreq[..], done0, nInUse + 1)
    modifies arr1, mtfFreq, yy
    ensures wr == |done| && yy[..nInUse] == list'
    ensures Generating(arr1[..], p, list', r, done, all, zPend, i + 1, nInUse + 1)
    ensures Counted(mtfFreq[..], done, nInUse + 1)
  {
    hide *;
    ghost var words: seq<nat> := arr1[..];
    GeneratingBounds(words, p, list, r, done0, all, zPend0, i, nInUse + 1);
    wr, zPend, list', done := wr0, zPend0, list, done0;
    assert list[0] == yy[0];
    if yy[0] == ll {
      GeneratingFront(words, p, list, r, done0, all, zPend0, i, nInUse + 1);
      zPend := zPend + 1;
    } else {
      wr := EmitRun(arr1, mtfFreq, wr, zPend, p, done0, i + 1, nInUse + 1);
      done := done0 + RunCode(zPend);
      zPend := 0;
      var j := MoveUp(yy, ll, nInUse, list);
      wr := Emit(arr1, mtfFreq, wr, j + 1, p, done, i + 1, nInUse + 1);
      done := done + [j + 1];
      list' := Front(list, j);
      GeneratingMoved(words, arr1[..], p, list, r, done0, all, zPend0, i, nInUse + 1, j);
    }
  }

  lemma GeneratingStart(words: seq<nat>, l: seq<byte>, inUse: seq<bool>, eob: nat)
    requires AllUsed(l, inUse) && eob == |Used(inUse, 256)| + 1 && |words| == |l|
    ensures Generating(words, words, Identity(|Used(inUse, 256)|), Ranks(l, inUse), [], Symbols(l, inUse), 0, 0, eob)
  {
    RanksListed(l, inUse);
    hide Used, Encode;
    var r := Ranks(l, inUse);
    assert r[0..] == r;
    var all := Symbols(l, inUse);
    assert [] + all == all;
  }

  lemma GeneratingEnd(words: seq<nat>, p: seq<nat>, list: seq<nat>, r: seq<nat>, done: seq<nat>, all: seq<nat>, z: nat,
                      eob: nat)
    requires Generating(words, p, list, r, done, all, z, |r|, eob)
    ensures done + RunCode(z) + [eob] == all
  {
    hide Half, Written;
    assert r[|r|..] == [];
    assert done + (RunCode(z) + [eob]) == done + RunCode(z) + [eob];
  }

  /** What the symbols are when they are all written. */
  lemma WrittenAll(words: seq<nat>, p: seq<nat>, done: seq<nat>, i: nat)
    requires Written(words, p, done, i)
    ensures forall k :: 0 <= k < |done| ==> k / 2 < |words| && Half(words, k) == done[k]
  {
  }

  lemma ColumnAt(b: seq<byte>, p: seq<nat>, inUse: seq<bool>, i: nat)
    requires Sorted(b, p) && AllUsed(b, inUse) && i < |b|
    ensures |p| == |b| && p[i] < |b| && LastColumn(b, p)[i] == b[Prev(|b|, p[i])] && inUse[b[Prev(|b|, p[i])]]
    ensures AllUsed(LastColumn(b, p), inUse)
    ensures Ranks(LastColumn(b, p), inUse)[i] == Rank(inUse, b[Prev(|b|, p[i])])
  {
    hide Le;
  }

  lemma ColumnUsed(b: seq<byte>, p: seq<nat>, inUse: seq<bool>)
    requires Sorted(b, p) && AllUsed(b, inUse) && |b| > 0
    ensures |p| == |b| && Perm(p, |b|) && AllUsed(LastColumn(b, p), inUse) && |LastColumn(b, p)| == |b|
    ensures |Ranks(LastColumn(b, p), inUse)| == |b|
  {
    ColumnAt(b, p, inUse, 0);
  }

  /** `unseqToSeq` renumbers the bytes in use. */
  ghost predicate Numbers(unseqToSeq: seq<nat>, inUse: seq<bool>)
  {
    |unseqToSeq| == |inUse| == 256 && forall c :: 0 <= c < 256 && inUse[c] ==> unseqToSeq[c] == Rank(inUse, c)
  }

  lemma NumberAt(unseqToSeq: seq<nat>, inUse: seq<bool>, c: nat)
    requires Numbers(unseqToSeq, inUse) && c < 256 && inUse[c]
    ensures unseqToSeq[c] == Rank(inUse, c)
  {
  }

  /** The main loop, and the end of the block. */
  method EncodeRows(arr1: array<nat>, block: array<nat>, unseqToSeq: array<nat>, mtfFreq: array<nat>, yy: array<nat>,
                    nblock: nat, nInUse: nat, ghost b: seq<byte>, ghost p: seq<nat>, ghost inUse: seq<bool>)
    returns (nMTF: nat)
    requires arr1 != block && arr1 != unseqToSeq && arr1 != mtfFreq && unseqToSeq != mtfFreq && block != mtfFreq
    requires yy != arr1 && yy != block && yy != unseqToSeq && yy != mtfFreq
    requires 0 < nblock == |b| == arr1.Length && nblock <= block.Length && block[..nblock] == b && Sorted(b, p)
    requires AllUsed(b, inUse) && Numbers(unseqToSeq[..], inUse) && 0 < nInUse == |Used(inUse, 256)| <= 256
    requires arr1[..] == p && yy.Length == 256 && unseqToSeq.Length == 256 && yy[..nInUse] == Identity(nInUse)
    requires Counted(mtfFreq[..], [], nInUse + 1)
    modifies arr1, mtfFreq, yy
    ensures |p| == |b| && AllUsed(LastColumn(b, p), inUse) && nMTF == |Symbols(LastColumn(b, p), inUse)|
    ensures forall k :: 0 <= k < nMTF ==> k / 2 < nblock && Half(arr1[..], k) == Symbols(LastColumn(b, p), inUse)[k]
    ensures Counted(mtfFreq[..], Symbols(LastColumn(b, p), inUse), nInUse + 1)
  {
    hide *;
    ColumnUsed(b, p, inUse);
    var eob := nInUse + 1;
    ghost var l := LastColumn(b, p);
    ghost var r: seq<nat>, all: seq<nat>, list: seq<nat>, done: seq<nat> :=
        Ranks(l, inUse), Symbols(l, inUse), Identity(nInUse), [];
    ghost var numbers: seq<nat> := unseqToSeq[..];
    GeneratingStart(p, l, inUse, eob);
    var wr, zPend := 0, 0;
    for i := 0 to nblock
      invariant block[..nblock] == b && unseqToSeq[..] == numbers && wr == |done| && yy[..nInUse] == list
      invariant Generating(arr1[..], p, list, r, done, all, zPend, i, eob) && Counted(mtfFreq[..], done, eob)
    {
      GeneratingBounds(arr1[..], p, list, r, done, all, zPend, i, eob);
      ColumnAt(b, p, inUse, i);
      var j := arr1[i] as int - 1;
      if j < 0 {
        j := j + nblock;
      }
      PrevIs(nblock, p[i]);
      assert block[j] == b[j];
      NumberAt(numbers, inUse, b[j]);
      wr, zPend, list, done := EncodeRow(arr1, mtfFreq, yy, nInUse, wr, zPend, unseqToSeq[block[j]], p, list, r, done,
                                         all, i);
    }
    GeneratingBounds(arr1[..], p, list, r, done, all, zPend, nblock, eob);
    GeneratingEnd(arr1[..], p, list, r, done, all, zPend, eob);
    wr := EmitRun(arr1, mtfFreq, wr, zPend, p, done, nblock, eob);
    wr := Emit(arr1, mtfFreq, wr, eob, p, done + RunCode(zPend), nblock, eob);
    WrittenAll(arr1[..], p, all, nblock);
    nMTF := wr;
  }

  lemma PrevIs(n: nat, i: nat)
    requires i < n
    ensures Prev(n, i) == if i == 0 then n - 1 else i - 1
  {
  }

  /**
   The symbols of the block and their counts.  The number of symbols written never passes the
   row being read, so no entry of the order is overwritten before it is used.
   */
  method GenerateMtfValues(arr1: array<nat>, block: array<nat>, inUse: array<bool>, unseqToSeq: array<nat>,
                           mtfFreq: array<nat>, nblock: nat, ghost b: seq<byte>)
    returns (nInUse: nat, nMTF: nat)
    requires arr1 != block && arr1 != unseqToSeq && arr1 != mtfFreq && unseqToSeq != mtfFreq && block != unseqToSeq
    requires block != mtfFreq
    requires 0 < nblock == |b| == arr1.Length && nblock <= block.Length && block[..nblock] == b && Sorted(b, arr1[..])
    requires inUse.Length == 256 && unseqToSeq.Length == 256 && mtfFreq.Length == 258
    requires AllUsed(b, inUse[..])
    modifies arr1, unseqToSeq, mtfFreq
    ensures AllUsed(LastColumn(b, old(arr1[..])), inUse[..])
    ensures nInUse == |Used(inUse[..], 256)| && nMTF == |Symbols(LastColumn(b, old(arr1[..])), inUse[..])|
    ensures forall k :: 0 <= k < nMTF ==>
              k / 2 < nblock && Half(arr1[..], k) == Symbols(LastColumn(b, old(arr1[..])), inUse[..])[k]
    ensures Counted(mtfFreq[..], Symbols(LastColumn(b, old(arr1[..])), inUse[..]), nInUse + 1)
  {
    ghost var p: seq<nat>, used := arr1[..], inUse[..];
    nInUse := MapsForEncoding(inUse, unseqToSeq);
    var eob := nInUse + 1;
    UsedRank(used, b[0]);
    for i := 0 to eob + 1
      invariant arr1[..] == p && inUse[..] == used && block[..nblock] == b
      invariant forall c :: 0 <= c < 256 && inUse[c] ==> unseqToSeq[c] == Rank(inUse[..], c)
      invariant forall s :: 0 <= s < i ==> mtfFreq[s] == 0
    {
      mtfFreq[i] := 0;
    }
    assert Counted(mtfFreq[..], [], eob);
    var yy := new nat[256];
    for i := 0 to nInUse
      invariant arr1[..] == p && inUse[..] == used && block[..nblock] == b && Counted(mtfFreq[..], [], eob)
      invariant forall c :: 0 <= c < 256 && inUse[c] ==> unseqToSeq[c] == Rank(inUse[..], c)
      invariant forall x :: 0 <= x < i ==> yy[x] == x
    {
      yy[i] := i;
    }
    assert yy[..nInUse] == Identity(nInUse);
    nMTF := EncodeRows(arr1, block, unseqToSeq, mtfFreq, yy, nblock, nInUse, b, p, used);
  }
}
