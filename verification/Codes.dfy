/**
 Canonical prefix codes: their assignment, the decoding tables and the search that reads one
 symbol (huffman.c lines 152-200, decompress.c lines 74-102).
 */
module Codes {

  import opened Rotation
  import opened Counting
  import opened Words
  import opened BitStrings
  import opened HuffmanTree

  const MAX_CODE_LEN := 23
  const LONGEST := 20
  const MAX_ALPHA := 258

  /** Symbols with codes of `n` bits. */
  function Count(len: seq<nat>, n: nat): (c: nat)
  {
    Occ(len, n, |len|)
  }

  /** The first code of `n` bits. */
  function First(len: seq<nat>, n: nat): (v: nat)
  {
    if n == 0 then 0 else 2 * (First(len, n - 1) + Count(len, n - 1))
  }

  /** The code of symbol `i`. */
  function Code(len: seq<nat>, i: nat): (v: nat)
    requires i < |len|
  {
    First(len, len[i]) + Occ(len, len[i], i)
  }

  /** The bits of that code. */
  function CodeBits(len: seq<nat>, i: nat): (s: seq<bool>)
    requires i < |len|
  {
    Bits(Code(len, i), len[i])
  }

  /** All code lengths lie in `minLen .. maxLen`. */
  ghost predicate Within(len: seq<nat>, minLen: nat, maxLen: nat)
  {
    forall i :: 0 <= i < |len| ==> minLen <= len[i] <= maxLen
  }

  lemma {:induction false} OccNone(l: seq<nat>, c: nat, i: nat)
    requires i <= |l| && forall x :: 0 <= x < i ==> l[x] != c
    ensures Occ(l, c, i) == 0
  {
    if i > 0 {
      OccNone(l, c, i - 1);
    }
  }

  /** No code is shorter than the shortest. */
  lemma {:induction false} FirstZero(len: seq<nat>, minLen: nat, maxLen: nat, n: nat)
    requires Within(len, minLen, maxLen) && n <= minLen
    ensures First(len, n) == 0 && Start(len, n, |len|) == 0
  {
    if n > 0 {
      FirstZero(len, minLen, maxLen, n - 1);
      OccNone(len, n - 1, |len|);
    }
  }

  lemma CodeBound(len: seq<nat>, i: nat)
    requires i < |len|
    ensures First(len, len[i]) <= Code(len, i) < First(len, len[i]) + Count(len, len[i])
  {
    OccMonotone(len, len[i], i + 1, |len|);
  }

  // ---------------------------------------------------------------- Kraft

  /** What the symbols below `k` with codes of at most `n` bits take up of all codes. */
  function ShareTo(len: seq<nat>, n: nat, k: nat): (t: real)
    requires k <= |len|
  {
    if k == 0 then 0.0 else ShareTo(len, n, k - 1) + if len[k - 1] <= n then Share(len[k - 1]) else 0.0
  }

  /** `x` shares of size `s`. */
  function Times(x: nat, s: real): (t: real)
  {
    if x == 0 then 0.0 else Times(x - 1, s) + s
  }

  lemma {:induction false} TimesAdd(x: nat, y: nat, s: real)
    ensures Times(x + y, s) == Times(x, s) + Times(y, s)
    decreases y
  {
    if y > 0 {
      TimesAdd(x, y - 1, s);
    }
  }

  lemma {:induction false} TimesHalf(x: nat, s: real)
    ensures Times(2 * x, s / 2.0) == Times(x, s)
  {
    if x > 0 {
      TimesHalf(x - 1, s);
      assert Times(2 * x, s / 2.0) == Times(2 * x - 1, s / 2.0) + s / 2.0;
    }
  }

  lemma {:induction false} TimesCompare(x: nat, y: nat, s: real)
    requires s > 0.0 && y < x
    ensures Times(y, s) < Times(x, s)
    decreases x
  {
    if y < x - 1 {
      TimesCompare(x - 1, y, s);
    }
  }

  lemma {:induction false} ShareToStep(len: seq<nat>, n: nat, k: nat)
    requires k <= |len|
    ensures ShareTo(len, n, k) == (if n == 0 then 0.0 else ShareTo(len, n - 1, k)) + Times(Occ(len, n, k), Share(n))
  {
    if k > 0 {
      ShareToStep(len, n, k - 1);
    }
  }

  lemma {:induction false} ShareToSum(len: seq<nat>, n: nat, k: nat)
    requires k <= |len|
    ensures ShareTo(len, n, k) <= KraftSum(len, k)
  {
    if k > 0 {
      ShareToSum(len, n, k - 1);
    }
  }

  /** The codes of up to `n` bits take up what lies before the first free code. */
  lemma {:induction false} FirstShare(len: seq<nat>, n: nat)
    ensures Times(First(len, n) + Count(len, n), Share(n)) == ShareTo(len, n, |len|)
  {
    hide Occ, ShareTo, Times;
    ShareToStep(len, n, |len|);
    TimesAdd(First(len, n), Count(len, n), Share(n));
    if n > 0 {
      FirstShare(len, n - 1);
      TimesHalf(First(len, n - 1) + Count(len, n - 1), Share(n - 1));
    } else {
      TimesZero(Share(n));
    }
  }

  lemma TimesZero(s: real)
    ensures Times(0, s) == 0.0
  {
  }

  lemma {:induction false} ShareIsPow2(n: nat)
    ensures Times(Pow2(n), Share(n)) == 1.0
  {
    if n > 0 {
      ShareIsPow2(n - 1);
      TimesHalf(Pow2(n - 1), Share(n - 1));
    } else {
      TimesZero(1.0);
    }
  }

  /** Codes whose shares add up to no more than 1 fit their lengths. */
  lemma CodesFit(len: seq<nat>, n: nat)
    requires KraftSum(len, |len|) <= 1.0
    ensures First(len, n) + Count(len, n) <= Pow2(n)
  {
    hide *;
    FirstShare(len, n);
    ShareToSum(len, n, |len|);
    ShareIsPow2(n);
    var x, y := First(len, n) + Count(len, n), Pow2(n);
    if y < x {
      TimesCompare(x, y, Share(n));
    }
  }

  // ---------------------------------------------------------------- prefixes

  /** A longer code starts beyond all codes of `n` bits. */
  lemma {:induction false} LongerCode(len: seq<nat>, i: nat, n: nat, v: nat, m: nat)
    requires i < |len| && n < m && v >= First(len, m)
    ensures Shr(v, m - n) >= First(len, n) + Count(len, n)
    decreases m - n
  {
    if n + 1 < m {
      LongerCode(len, i, n, v / 2, m - 1);
    } else {
      assert Shr(v, 1) == Shr(v / 2, 0) == v / 2;
    }
  }

  lemma SameLength(len: seq<nat>, i: nat, j: nat)
    requires i < j < |len| && len[i] == len[j]
    ensures Code(len, i) < Code(len, j)
  {
    OccMonotone(len, len[i], i + 1, j);
  }

  /** No code is a prefix of another. */
  lemma PrefixFree(len: seq<nat>, i: nat, j: nat)
    requires i < |len| && j < |len| && i != j && KraftSum(len, |len|) <= 1.0
    ensures !(CodeBits(len, i) <= CodeBits(len, j))
  {
    var li, lj := len[i], len[j];
    if CodeBits(len, i) <= CodeBits(len, j) {
      CodeValue(len, i);
      CodeValue(len, j);
      ValuePrefix(CodeBits(len, j), li);
      assert CodeBits(len, i) == CodeBits(len, j)[..li];
      CodeBound(len, i);
      CodeBound(len, j);
      if li < lj {
        LongerCode(len, j, li, Code(len, j), lj);
      } else if i < j {
        SameLength(len, i, j);
      } else {
        SameLength(len, j, i);
      }
    }
  }

  lemma CodeValue(len: seq<nat>, i: nat)
    requires i < |len| && KraftSum(len, |len|) <= 1.0
    ensures Value(CodeBits(len, i)) == Code(len, i)
  {
    CodesFit(len, len[i]);
    CodeBound(len, i);
    ValueBits(Code(len, i), len[i]);
  }

  // ---------------------------------------------------------------- assignment

  /** Symbols of lengths below `n`, and those below `i` of length `n`, have their codes. */
  ghost predicate Assigned(code: seq<nat>, len: seq<nat>, n: nat, i: nat)
  {
    && |len| <= |code| && i <= |len|
    && forall k :: 0 <= k < |len| && (len[k] < n || (len[k] == n && k < i)) ==> code[k] == Code(len, k)
  }

  method AssignCodes(code: array<nat>, length: array<nat>, minLen: nat, maxLen: nat, alphaSize: nat)
    requires code != length && alphaSize <= length.Length && alphaSize <= code.Length
    requires Within(length[..alphaSize], minLen, maxLen)
    modifies code
    ensures forall i :: 0 <= i < alphaSize ==> code[i] == Code(length[..alphaSize], i)
  {
    ghost var len: seq<nat> := length[..alphaSize];
    var vec := 0;
    FirstZero(len, minLen, maxLen, minLen);
    hide First, Occ, Assigned;
    AssignedStart(code[..], len, minLen, maxLen);
    var n := minLen;
    while n <= maxLen
      invariant minLen <= n && (n <= maxLen + 1 || n == minLen) && length[..alphaSize] == len
      invariant vec == First(len, n)
      invariant Assigned(code[..], len, n, 0)
    {
      OccStart(len, n);
      for i := 0 to alphaSize
        invariant length[..alphaSize] == len
        invariant vec == First(len, n) + Occ(len, n, i)
        invariant Assigned(code[..], len, n, i)
      {
        OccStep(len, i);
        ghost var was: seq<nat> := code[..];
        AssignedStep(was, len, n, i);
        if length[i] == n {
          code[i] := vec;
          assert code[..] == was[i := vec];
          vec := vec + 1;
        }
      }
      AssignedNext(code[..], len, n);
      FirstStep(len, n);
      vec := 2 * vec;
      n := n + 1;
    }
    AssignedDone(code[..], len, minLen, maxLen);
  }

  lemma AssignedStart(code: seq<nat>, len: seq<nat>, minLen: nat, maxLen: nat)
    requires Within(len, minLen, maxLen) && |len| <= |code|
    ensures Assigned(code, len, minLen, 0)
  {
  }

  lemma AssignedStep(code: seq<nat>, len: seq<nat>, n: nat, i: nat)
    requires Assigned(code, len, n, i) && i < |len|
    ensures |len| <= |code|
    ensures len[i] == n ==> Assigned(code[i := First(len, n) + Occ(len, n, i)], len, n, i + 1)
    ensures len[i] != n ==> Assigned(code, len, n, i + 1)
  {
    hide First, Occ;
  }

  lemma AssignedNext(code: seq<nat>, len: seq<nat>, n: nat)
    requires Assigned(code, len, n, |len|)
    ensures Assigned(code, len, n + 1, 0)
  {
    hide Code;
  }

  lemma AssignedDone(code: seq<nat>, len: seq<nat>, minLen: nat, maxLen: nat)
    requires Within(len, minLen, maxLen)
    requires Assigned(code, len, maxLen + 1, 0) || (minLen > maxLen && Assigned(code, len, minLen, 0))
    ensures |len| <= |code| && forall i :: 0 <= i < |len| ==> code[i] == Code(len, i)
  {
    hide Code;
  }

  lemma OccStart(len: seq<nat>, n: nat)
    ensures Occ(len, n, 0) == 0
  {
  }

  lemma FirstStep(len: seq<nat>, n: nat)
    ensures First(len, n + 1) == 2 * (First(len, n) + Occ(len, n, |len|))
  {
  }

  // ---------------------------------------------------------------- decoding tables

  /** The decoding table of one set of code lengths. */
  datatype Table = Table(minLen: nat, limit: seq<int>, base: seq<int>, perm: seq<nat>)

  /** `t` is the table that hbCreateDecodeTables makes. */
  ghost predicate Decodes(t: Table, len: seq<nat>, maxLen: nat)
  {
    && t.minLen <= maxLen <= LONGEST && Within(len, t.minLen, maxLen)
    && |t.limit| >= MAX_CODE_LEN && |t.base| >= MAX_CODE_LEN && |len| <= |t.perm|
    && (forall n :: 0 <= n < MAX_CODE_LEN ==>
          t.limit[n] == if t.minLen <= n <= maxLen then First(len, n) + Count(len, n) - 1 else 0)
    && (forall n :: t.minLen <= n <= maxLen ==> t.base[n] == First(len, n) - Start(len, n, |len|))
    && (forall i :: 0 <= i < |len| ==> LF(len, i) < |len| && t.perm[LF(len, i)] == i)
  }

  /** Symbols in the order of their codes. */
  ghost predicate Listed(perm: seq<nat>, len: seq<nat>, n: nat, i: nat)
  {
    && |len| <= |perm| && i <= |len|
    && forall k :: 0 <= k < |len| && (len[k] < n || (len[k] == n && k < i)) ==>
         LF(len, k) < |len| && perm[LF(len, k)] == k
  }

  lemma ListedStep(perm: seq<nat>, len: seq<nat>, n: nat, i: nat)
    requires Listed(perm, len, n, i) && i < |len| && len[i] == n
    ensures LF(len, i) == Start(len, n, |len|) + Occ(len, n, i) < |len|
    ensures Listed(perm[LF(len, i) := i], len, n, i + 1)
  {
    hide Start, Occ;
    LFBucket(len, i);
    forall k | 0 <= k < |len| && (len[k] < n || (len[k] == n && k < i)) ensures LF(len, k) != LF(len, i) {
      LFOrder(len, k, i);
    }
  }

  method ListSymbols(perm: array<nat>, length: array<nat>, minLen: nat, maxLen: nat, alphaSize: nat)
    requires perm != length && alphaSize <= length.Length && alphaSize <= perm.Length
    requires Within(length[..alphaSize], minLen, maxLen)
    modifies perm
    ensures var len := length[..alphaSize];
            forall k :: 0 <= k < |len| ==> LF(len, k) < |len| && perm[LF(len, k)] == k
  {
    hide *;
    ghost var len: seq<nat> := length[..alphaSize];
    var pp := 0;
    FirstZero(len, minLen, maxLen, minLen);
    ListedStart(perm[..], len, minLen, maxLen);
    var i := minLen;
    while i <= maxLen
      invariant minLen <= i && length[..alphaSize] == len
      invariant pp == Start(len, i, |len|)
      invariant Listed(perm[..], len, i, 0)
    {
      OccStart(len, i);
      for j := 0 to alphaSize
        invariant length[..alphaSize] == len
        invariant pp == Start(len, i, |len|) + Occ(len, i, j)
        invariant Listed(perm[..], len, i, j)
      {
        OccStep(len, j);
        ghost var was: seq<nat> := perm[..];
        ListedSkip(was, len, i, j);
        if length[j] == i {
          ListedStep(was, len, i, j);
          perm[pp] := j;
          assert perm[..] == was[pp := j];
          pp := pp + 1;
        }
      }
      ListedNext(perm[..], len, i);
      StartNext(len, i);
      i := i + 1;
    }
    ListedDone(perm[..], len, minLen, maxLen, i);
  }

  lemma ListedStart(perm: seq<nat>, len: seq<nat>, minLen: nat, maxLen: nat)
    requires Within(len, minLen, maxLen) && |len| <= |perm|
    ensures Listed(perm, len, minLen, 0)
  {
  }

  lemma ListedSkip(perm: seq<nat>, len: seq<nat>, n: nat, i: nat)
    requires Listed(perm, len, n, i) && i < |len|
    ensures len[i] != n ==> Listed(perm, len, n, i + 1)
  {
    hide LF;
  }

  lemma ListedNext(perm: seq<nat>, len: seq<nat>, n: nat)
    requires Listed(perm, len, n, |len|)
    ensures Listed(perm, len, n + 1, 0)
  {
    hide LF;
  }

  lemma ListedDone(perm: seq<nat>, len: seq<nat>, minLen: nat, maxLen: nat, n: nat)
    requires Within(len, minLen, maxLen) && Listed(perm, len, n, 0) && n > maxLen
    ensures forall k :: 0 <= k < |len| ==> LF(len, k) < |len| && perm[LF(len, k)] == k
  {
    hide LF;
  }

  lemma StartNext(len: seq<nat>, n: nat)
    ensures Start(len, n + 1, |len|) == Start(len, n, |len|) + Occ(len, n, |len|)
  {
  }

  /** Sets `base[n]` to the number of symbols with codes shorter than `n`. */
  method CountShorter(base: array<int>, length: array<nat>, alphaSize: nat)
    requires alphaSize <= length.Length && base.Length >= MAX_CODE_LEN
    requires Within(length[..alphaSize], 0, LONGEST)
    modifies base
    ensures forall n :: 0 <= n < MAX_CODE_LEN ==> base[n] == Start(length[..alphaSize], n, alphaSize)
  {
    ghost var len: seq<nat> := length[..alphaSize];
    hide Start, Occ;
    for i := 0 to MAX_CODE_LEN
      invariant forall n :: 0 <= n < i ==> base[n] == 0
    {
      base[i] := 0;
    }
    forall n: nat | n < MAX_CODE_LEN ensures Occ(len, n, 0) == 0 {
      OccStart(len, n);
    }
    for i := 0 to alphaSize
      invariant base[0] == 0 && forall n :: 1 <= n < MAX_CODE_LEN ==> base[n] == Occ(len, n - 1, i)
    {
      OccStep(len, i);
      assert length[i] == len[i];
      base[length[i] + 1] := base[length[i] + 1] + 1;
    }
    StartZero(len);
    for i := 1 to MAX_CODE_LEN
      invariant forall n :: 0 <= n < i ==> base[n] == Start(len, n, alphaSize)
      invariant forall n :: i <= n < MAX_CODE_LEN ==> base[n] == Occ(len, n - 1, alphaSize)
    {
      StartNext(len, i - 1);
      base[i] := base[i] + base[i - 1];
    }
  }

  lemma StartZero(len: seq<nat>)
    ensures Start(len, 0, |len|) == 0
  {
  }

  /** The limits of the lengths below `i` are set. */
  ghost predicate LimitsTo(limit: seq<int>, len: seq<nat>, minLen: nat, i: nat)
  {
    && |limit| >= MAX_CODE_LEN
    && forall n :: 0 <= n < MAX_CODE_LEN ==>
         limit[n] == if minLen <= n < i then First(len, n) + Count(len, n) - 1 else 0
  }

  ghost predicate Shorter(base: seq<int>, len: seq<nat>, i: nat)
  {
    |base| >= MAX_CODE_LEN && forall n :: i <= n < MAX_CODE_LEN ==> base[n] == Start(len, n, |len|)
  }

  ghost predicate BasesTo(base: seq<int>, len: seq<nat>, minLen: nat, i: nat)
  {
    |base| >= MAX_CODE_LEN && i <= MAX_CODE_LEN && forall n :: minLen <= n < i ==>
        base[n] == First(len, n) - Start(len, n, |len|)
  }

  method SetLimits(limit: array<int>, base: array<int>, minLen: nat, maxLen: nat, ghost len: seq<nat>)
    requires limit != base && minLen <= maxLen <= LONGEST && limit.Length >= MAX_CODE_LEN && Shorter(base[..], len, 0)
    requires First(len, minLen) == 0
    modifies limit
    ensures LimitsTo(limit[..], len, minLen, maxLen + 1)
  {
    hide Start, Occ, First;
    for i := 0 to MAX_CODE_LEN
      invariant forall n :: 0 <= n < i ==> limit[n] == 0
    {
      limit[i] := 0;
    }
    assert LimitsTo(limit[..], len, minLen, minLen);
    var vec: int := 0;
    for i := minLen to maxLen + 1
      invariant Shorter(base[..], len, 0) && vec == First(len, i) && LimitsTo(limit[..], len, minLen, i)
    {
      ghost var was := limit[..];
      StartNext(len, i);
      FirstStep(len, i);
      vec := vec + (base[i + 1] - base[i]);
      limit[i] := vec - 1;
      assert limit[..] == was[i := vec - 1];
      vec := 2 * vec;
    }
  }

  method SetBases(limit: array<int>, base: array<int>, minLen: nat, maxLen: nat, ghost len: seq<nat>)
    requires limit != base && minLen <= maxLen <= LONGEST && Shorter(base[..], len, 0)
    requires LimitsTo(limit[..], len, minLen, maxLen + 1)
    requires First(len, minLen) == 0 && Start(len, minLen, |len|) == 0
    modifies base
    ensures BasesTo(base[..], len, minLen, maxLen + 1)
  {
    hide Start, Occ, First;
    ghost var lim := limit[..];
    for i := minLen + 1 to maxLen + 1
      invariant limit[..] == lim && BasesTo(base[..], len, minLen, i) && Shorter(base[..], len, i)
    {
      ghost var was := base[..];
      FirstStep(len, i - 1);
      base[i] := 2 * (limit[i - 1] + 1) - base[i];
      assert base[..] == was[i := base[i]];
    }
  }

  method CreateDecodeTables(limit: array<int>, base: array<int>, perm: array<nat>, length: array<nat>,
                            minLen: nat, maxLen: nat, alphaSize: nat)
    requires limit != base && perm != length && alphaSize <= length.Length && alphaSize <= perm.Length
    requires limit.Length >= MAX_CODE_LEN && base.Length >= MAX_CODE_LEN
    requires minLen <= maxLen <= LONGEST && Within(length[..alphaSize], minLen, maxLen)
    modifies limit, base, perm
    ensures Decodes(Table(minLen, limit[..], base[..], perm[..]), length[..alphaSize], maxLen)
  {
    hide Start, Occ, First, LF;
    ghost var len: seq<nat> := length[..alphaSize];
    ListSymbols(perm, length, minLen, maxLen, alphaSize);
    CountShorter(base, length, alphaSize);
    FirstZero(len, minLen, maxLen, minLen);
    SetLimits(limit, base, minLen, maxLen, len);
    SetBases(limit, base, minLen, maxLen, len);
  }

  // ---------------------------------------------------------------- the search

  /** What `zn` bits of value `zvec` amount to. */
  datatype Verdict = Symbol(sym: nat) | LongerBy1 | Corrupt

  function Look(t: Table, zn: nat, zvec: nat): (v: Verdict)
    requires |t.limit| >= MAX_CODE_LEN && |t.base| >= MAX_CODE_LEN
  {
    if zn > LONGEST then Corrupt
    else if zvec <= t.limit[zn] then
      if zvec - t.base[zn] < 0 || zvec - t.base[zn] >= MAX_ALPHA || zvec - t.base[zn] >= |t.perm| then Corrupt
      else Symbol(t.perm[zvec - t.base[zn]])
    else LongerBy1
  }

  /**
   The bits of a symbol's code lead to that symbol: they hold the code, and no symbol with fewer
   bits has the number that their first bits have.
   */
  ghost predicate Readable(len: seq<nat>, i: nat)
  {
    && i < |len| && Code(len, i) < Pow2(len[i])
    && forall j :: 0 <= j < |len| && len[j] < len[i] ==> !Begins(len, j, CodeBits(len, i))
  }

  /** `b` begins with the code of symbol `j`, or is shorter than it. */
  ghost predicate Begins(len: seq<nat>, j: nat, b: seq<bool>)
    requires j < |len|
  {
    len[j] <= |b| && Value(b[..len[j]]) == Code(len, j)
  }

  /** With lengths that satisfy the inequality of Kraft every symbol is readable. */
  lemma KraftReadable(len: seq<nat>, i: nat)
    requires i < |len| && KraftSum(len, |len|) <= 1.0
    ensures Readable(len, i)
  {
    hide *;
    CodesFit(len, len[i]);
    CodeBound(len, i);
    CodeWidth(len, i);
    var b := CodeBits(len, i);
    forall j | 0 <= j < |len| && len[j] < len[i] ensures !Begins(len, j, b) {
      PrefixFree(len, j, i);
      CodeValue(len, j);
      CodeWidth(len, j);
      BeginsIs(len, j, b);
      if Begins(len, j, b) {
        BitsValue(b[..len[j]]);
        BitsValue(CodeBits(len, j));
      }
    }
    IsReadable(len, i);
  }

  lemma BeginsIs(len: seq<nat>, j: nat, b: seq<bool>)
    requires j < |len|
    ensures Begins(len, j, b) <==> len[j] <= |b| && Value(b[..len[j]]) == Code(len, j)
  {
  }

  lemma IsReadable(len: seq<nat>, i: nat)
    requires i < |len| && Code(len, i) < Pow2(len[i])
    requires forall j :: 0 <= j < |len| && len[j] < len[i] ==> !Begins(len, j, CodeBits(len, i))
    ensures Readable(len, i)
  {
  }

  /** What the search finds is the symbol whose code the bits are. */
  lemma LookGives(t: Table, len: seq<nat>, maxLen: nat, zn: nat, zvec: nat)
    requires Decodes(t, len, maxLen) && Searching(t, len, zn, zvec) && 0 < |len| <= MAX_ALPHA && zn <= LONGEST
    requires t.minLen >= 1
    ensures Look(t, zn, zvec) != Corrupt
    ensures Look(t, zn, zvec).Symbol? ==>
              var i := Look(t, zn, zvec).sym; i < |len| && len[i] == zn && Code(len, i) == zvec
  {
    hide Start, Occ, First, LF;
    if zn > maxLen {
      FirstPositive(len, t.minLen, maxLen, zn);
    } else if zvec <= t.limit[zn] {
      var i := RowOf(len, zn, zvec - t.base[zn]);
      assert t.perm[LF(len, i)] == i;
      RowLength(len, zn, i);
      CodeRow(len, i);
    }
  }

  /** A row of the bucket of `zn` bits belongs to a symbol with so many. */
  lemma RowLength(len: seq<nat>, zn: nat, i: nat)
    requires i < |len| && Start(len, zn, |len|) <= LF(len, i) < Start(len, zn, |len|) + Count(len, zn)
    ensures len[i] == zn
  {
    StartNext(len, zn);
    LFBucket(len, i);
    hide Start, Occ, LF;
    if len[i] < zn {
      StartMonotone(len, len[i] + 1, zn, |len|);
    } else if zn < len[i] {
      StartMonotone(len, zn + 1, len[i], |len|);
    }
  }

  /** A code is found when all its bits are there. */
  lemma LookFinds(t: Table, len: seq<nat>, maxLen: nat, i: nat)
    requires Decodes(t, len, maxLen) && i < |len| <= MAX_ALPHA
    ensures Look(t, len[i], Code(len, i)) == Symbol(i)
  {
    hide *;
    CodeBound(len, i);
    CodeRow(len, i);
    LookHere(t, len, maxLen, i, Code(len, i));
  }

  lemma DecodesFacts(t: Table, len: seq<nat>, maxLen: nat)
    requires Decodes(t, len, maxLen)
    ensures t.minLen <= maxLen <= LONGEST && Within(len, t.minLen, maxLen)
    ensures |t.limit| >= MAX_CODE_LEN && |t.base| >= MAX_CODE_LEN
  {
  }

  lemma LookKinds(t: Table, zn: nat, zvec: nat)
    requires |t.limit| >= MAX_CODE_LEN && |t.base| >= MAX_CODE_LEN
    ensures Look(t, zn, zvec) == LongerBy1 || Look(t, zn, zvec) == Corrupt || Look(t, zn, zvec).Symbol?
  {
  }

  lemma SearchStarts(t: Table, len: seq<nat>, maxLen: nat, zvec: nat)
    requires Decodes(t, len, maxLen)
    ensures Searching(t, len, t.minLen, zvec)
  {
    FirstZero(len, t.minLen, maxLen, t.minLen);
  }

  /** Before its last bit no readable code is taken for a symbol. */
  lemma {:induction false} SearchGoesOn(t: Table, len: seq<nat>, maxLen: nat, i: nat, n: nat)
    requires Decodes(t, len, maxLen) && i < |len| <= MAX_ALPHA && 1 <= t.minLen <= n < len[i] && Readable(len, i)
    ensures n <= |CodeBits(len, i)| && Searching(t, len, n, Value(CodeBits(len, i)[..n]))
    ensures Look(t, n, Value(CodeBits(len, i)[..n])) == LongerBy1
  {
    hide *;
    CodeWidth(len, i);
    DecodesFacts(t, len, maxLen);
    var c := CodeBits(len, i);
    var v := Value(c[..n]);
    if n == t.minLen {
      SearchStarts(t, len, maxLen, v);
    } else {
      SearchGoesOn(t, len, maxLen, i, n - 1);
      SearchStep(t, len, maxLen, n - 1, Value(c[..n - 1]), if c[n - 1] then 1 else 0);
      ValueAppend(c[..n - 1], c[n - 1]);
      assert c[..n - 1] + [c[n - 1]] == c[..n];
    }
    WithinAt(len, t.minLen, maxLen, i);
    LookGives(t, len, maxLen, n, v);
    LookKinds(t, n, v);
    if Look(t, n, v).Symbol? {
      ReadableFacts(len, i, Look(t, n, v).sym);
      BeginsIs(len, Look(t, n, v).sym, c);
    }
  }

  lemma WithinAt(len: seq<nat>, minLen: nat, maxLen: nat, i: nat)
    requires Within(len, minLen, maxLen) && i < |len|
    ensures minLen <= len[i] <= maxLen
  {
  }

  lemma ReadableFacts(len: seq<nat>, i: nat, j: nat)
    requires Readable(len, i) && j < |len|
    ensures Code(len, i) < Pow2(len[i]) && (len[j] < len[i] ==> !Begins(len, j, CodeBits(len, i)))
  {
  }

  lemma CodeWidth(len: seq<nat>, i: nat)
    requires i < |len|
    ensures |CodeBits(len, i)| == len[i]
  {
  }

  /** A number between the first and the last code of its length is the code of the symbol in its row. */
  lemma LookHere(t: Table, len: seq<nat>, maxLen: nat, i: nat, zvec: nat)
    requires Decodes(t, len, maxLen) && i < |len| <= MAX_ALPHA
    requires First(len, len[i]) <= zvec < First(len, len[i]) + Count(len, len[i])
    requires LF(len, i) == zvec - First(len, len[i]) + Start(len, len[i], |len|)
    ensures Look(t, len[i], zvec) == Symbol(i)
  {
    hide First, Count, Start, LF;
  }

  lemma CodeRow(len: seq<nat>, i: nat)
    requires i < |len|
    ensures LF(len, i) == Code(len, i) - First(len, len[i]) + Start(len, len[i], |len|)
  {
    hide First, Occ, Start;
  }

  /** With its last bit it is taken for its own symbol. */
  lemma SearchEnds(t: Table, len: seq<nat>, maxLen: nat, i: nat)
    requires Decodes(t, len, maxLen) && i < |len| <= MAX_ALPHA && Readable(len, i)
    ensures Look(t, len[i], Value(CodeBits(len, i))) == Symbol(i)
  {
    hide *;
    ReadableFacts(len, i, i);
    CodeNumber(len, i);
    LookFinds(t, len, maxLen, i);
  }

  lemma CodeNumber(len: seq<nat>, i: nat)
    requires i < |len| && Code(len, i) < Pow2(len[i])
    ensures Value(CodeBits(len, i)) == Code(len, i)
  {
    ValueBits(Code(len, i), len[i]);
  }

  /** A search over any bits, however corrupt, that has read nothing shorter than the first code of its length. */
  ghost predicate Searching(t: Table, len: seq<nat>, zn: nat, zvec: nat)
  {
    t.minLen <= zn <= LONGEST + 1 && zvec >= First(len, zn)
  }

  lemma SearchStep(t: Table, len: seq<nat>, maxLen: nat, zn: nat, zvec: nat, bit: nat)
    requires Decodes(t, len, maxLen) && Searching(t, len, zn, zvec) && Look(t, zn, zvec) == LongerBy1
    ensures zn <= LONGEST && Searching(t, len, zn + 1, 2 * zvec + bit)
  {
    if zn > maxLen {
      OccNone(len, zn, |len|);
    }
  }

  /** The row of a code that the limit admits. */
  lemma RowOf(len: seq<nat>, zn: nat, row: int) returns (i: nat)
    requires Start(len, zn, |len|) <= row < Start(len, zn, |len|) + Count(len, zn)
    ensures i < |len| && LF(len, i) == row
  {
    StartAtMost(len, zn + 1, |len|);
    StartNext(len, zn);
    hide Start, Occ, LF;
    TargetsPerm(len);
    PermOnto(Targets(len), |len|, row);
    i :| 0 <= i < |len| && Targets(len)[i] == row;
  }

  /** A symbol that is found is a symbol of the alphabet: the range check of the search never fails. */
  lemma SearchFinds(t: Table, len: seq<nat>, maxLen: nat, zn: nat, zvec: nat)
    requires Decodes(t, len, maxLen) && Searching(t, len, zn, zvec) && 0 < |len| <= MAX_ALPHA && zn <= LONGEST
    requires t.minLen >= 1
    ensures Look(t, zn, zvec) != Corrupt
    ensures Look(t, zn, zvec).Symbol? ==> Look(t, zn, zvec).sym < |len|
  {
    hide Start, Occ, First, LF;
    if zn > maxLen {
      FirstPositive(len, t.minLen, maxLen, zn);
    } else if zvec <= t.limit[zn] {
      var i := RowOf(len, zn, zvec - t.base[zn]);
      assert t.perm[LF(len, i)] == i;
    }
  }

  /** Beyond the longest code nothing is below the limit of 0. */
  lemma {:induction false} FirstPositive(len: seq<nat>, minLen: nat, maxLen: nat, n: nat)
    requires Within(len, minLen, maxLen) && 0 < |len| && n > maxLen
    ensures First(len, n) >= 1
  {
    if exists x :: 0 <= x < |len| && len[x] == n - 1 {
      var x :| 0 <= x < |len| && len[x] == n - 1;
      CodeBound(len, x);
    } else if n - 1 > maxLen {
      FirstPositive(len, minLen, maxLen, n - 1);
    } else {
      FirstPositive(len, minLen, maxLen - 1, n - 1);
    }
  }

  // ---------------------------------------------------------------- the table of a set of lengths

  function MinOf(len: seq<nat>): (m: nat)
    requires len != []
    ensures m in len && forall i :: 0 <= i < |len| ==> m <= len[i]
  {
    if |len| == 1 then len[0]
    else var m := MinOf(len[..|len| - 1]); if len[|len| - 1] < m then len[|len| - 1] else m
  }

  function MaxOf(len: seq<nat>): (m: nat)
    requires len != []
    ensures m in len && forall i :: 0 <= i < |len| ==> len[i] <= m
  {
    if |len| == 1 then len[0]
    else var m := MaxOf(len[..|len| - 1]); if len[|len| - 1] > m then len[|len| - 1] else m
  }

  /** The code lengths of one table, as the decoder accepts them. */
  ghost predicate Lengths(len: seq<nat>)
  {
    0 < |len| <= MAX_ALPHA && Within(len, 1, LONGEST)
  }

  /** The symbol with row `y`, from symbol `k` on. */
  function SymbolAt(len: seq<nat>, y: nat, k: nat): (i: nat)
    requires exists i :: k <= i < |len| && LF(len, i) == y
    ensures k <= i < |len| && LF(len, i) == y
    decreases |len| - k
  {
    if LF(len, k) == y then k else SymbolAt(len, y, k + 1)
  }

  lemma SymbolExists(len: seq<nat>, y: nat)
    requires y < |len|
    ensures exists i :: 0 <= i < |len| && LF(len, i) == y
  {
    TargetsPerm(len);
    PermOnto(Targets(len), |len|, y);
    var i :| 0 <= i < |len| && Targets(len)[i] == y;
    assert LF(len, i) == y;
  }

  /** Symbols by rank of their codes. */
  function Permuted(len: seq<nat>): (perm: seq<nat>)
    ensures |perm| == |len| && forall i :: 0 <= i < |len| ==> LF(len, i) < |len| && perm[LF(len, i)] == i
  {
    PermutedOk(len);
    seq(|len|, y requires 0 <= y < |len| => (SymbolExists(len, y); SymbolAt(len, y, 0)))
  }

  lemma PermutedOk(len: seq<nat>)
    ensures forall i :: 0 <= i < |len| ==> LF(len, i) < |len|
    ensures forall i, j :: 0 <= i < |len| && 0 <= j < |len| && LF(len, i) == LF(len, j) ==> i == j
  {
    TargetsPerm(len);
    var t := Targets(len);
    forall i, j | 0 <= i < |len| && 0 <= j < |len| && LF(len, i) == LF(len, j) ensures i == j {
      assert t[i] == t[j];
    }
    forall i | 0 <= i < |len| ensures LF(len, i) < |len| {
      assert t[i] < |len|;
    }
  }

  /** Where `v` is in `t`. */
  ghost function IndexIn(t: seq<nat>, v: nat): (x: nat)
    requires v in t
    ensures x < |t| && t[x] == v
  {
    var x :| 0 <= x < |t| && t[x] == v; x
  }

  function TableOf(len: seq<nat>): (t: Table)
    requires Lengths(len)
    ensures Decodes(t, len, MaxOf(len)) && t.minLen == MinOf(len)
  {
    Table(MinOf(len),
          seq(MAX_CODE_LEN, n requires 0 <= n < MAX_CODE_LEN =>
                              if MinOf(len) <= n <= MaxOf(len) then First(len, n) + Count(len, n) - 1 else 0),
          seq(MAX_CODE_LEN, n requires 0 <= n < MAX_CODE_LEN => First(len, n) - Start(len, n, |len|)),
          Permuted(len))
  }

  /** All tables made from the same lengths answer alike. */
  lemma DecodesAgree(t: Table, t': Table, len: seq<nat>, maxLen: nat, zn: nat, zvec: nat)
    requires Decodes(t, len, maxLen) && Decodes(t', len, maxLen) && t.minLen == t'.minLen >= 1
    requires 0 < |len| <= MAX_ALPHA && Searching(t, len, zn, zvec)
    ensures Look(t, zn, zvec) == Look(t', zn, zvec)
  {
    hide Start, Occ, First, LF;
    if zn > maxLen {
      FirstPositive(len, t.minLen, maxLen, zn);
    } else if zvec <= t.limit[zn] {
      var i := RowOf(len, zn, zvec - t.base[zn]);
      assert t.perm[LF(len, i)] == i == t'.perm[LF(len, i)];
    }
  }
}
