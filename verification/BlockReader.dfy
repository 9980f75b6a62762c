/**
 Fetching the symbols of a block (decompress.c lines 495-590, BZ_GET_FAST and BZ_GET_SMALL of
 bzlib_private.h): both kinds of decoder fetch the same symbols, randomised or not.
 */
module BlockReader {

  import opened Rotation
  import opened Counting
  import opened InverseBwt
  import opened BlockRestore
  import opened Parser
  import opened Stream

  lemma InvertsUnique(l: seq<byte>, t: seq<nat>, t': seq<nat>)
    requires Inverts(l, t) && Inverts(l, t')
    ensures t == t'
  {
    forall y | 0 <= y < |l| ensures t[y] == t'[y] {
      Source(l, t, y);
      assert t'[LF(l, t[y])] == t[y];
    }
  }

  lemma ColumnRow(head: Head, column: seq<byte>, rNums: seq<nat>, t: seq<nat>, k: nat)
    requires Inverts(column, t) && head.origPtr < |column| && Numbers(rNums)
    ensures |t| == |column| && forall x :: 0 <= x < |t| ==> t[x] < |t|
    ensures Fetched(head, column, rNums, k)
         == if head.randomised then Unmask(column[Row(t, head.origPtr, k)], RandAt(rNums, k))
             else column[Row(t, head.origPtr, k)]
  {
    InvertsClosed(column, t);
    InvertsUnique(column, t, Links(column));
  }

  /** `tt` holds the last column below the links. */
  ghost predicate FastLinks(tt: seq<nat>, column: seq<byte>, t: seq<nat>)
  {
    Inverts(column, t) && |column| <= |tt| && forall x :: 0 <= x < |column| ==> tt[x] == Word(column[x], t[x])
  }

  /** Links `g` reversed along the cycle of `o`, and the bucket starts. */
  ghost predicate SmallLinks(g: seq<nat>, cftab: seq<nat>, column: seq<byte>, o: nat, cycle: seq<nat>)
  {
    && |g| == |column| && o < |column| && Path(column, o, cycle) && LF(column, cycle[|cycle| - 1]) == o
    && g[o] == cycle[|cycle| - 1] && (forall j :: 0 < j < |cycle| ==> g[cycle[j]] == cycle[j - 1])
    && |cftab| == 257 && forall c :: 0 <= c <= 256 ==> cftab[c] == Start(column, c, |column|)
  }

  lemma FastStep(tt: seq<nat>, column: seq<byte>, t: seq<nat>, o: nat, k: nat)
    requires FastLinks(tt, column, t) && o < |column|
    ensures |t| == |column| && forall x :: 0 <= x < |t| ==> t[x] < |t|
    ensures var r := Row(t, o, k); r < |column| && tt[r] % 256 == column[r] && tt[r] / 256 == Row(t, o, k + 1)
  {
    InvertsClosed(column, t);
  }

  lemma SmallStep(g: seq<nat>, cftab: seq<nat>, column: seq<byte>, o: nat, cycle: seq<nat>, t: seq<nat>, k: nat)
    requires SmallLinks(g, cftab, column, o, cycle) && Inverts(column, t)
    ensures |t| == |column| && forall x :: 0 <= x < |t| ==> t[x] < |t|
    ensures 0 <= SmallRow(g, o, k) < |column| && |cftab| == 257 && cftab[0] <= SmallRow(g, o, k) < cftab[256]
    ensures SmallRow(g, o, k + 1) == g[SmallRow(g, o, k)]
    ensures forall c: nat {:trigger cftab[c]} :: c < 256 && cftab[c] <= SmallRow(g, o, k) < cftab[c + 1] ==>
              c == column[Row(t, o, k)]
  {
    SmallRowIsRow(column, t, g, cycle, o, k);
    StartAll(column, 256, |column|);
    var y := SmallRow(g, o, k);
    forall c: nat | c < 256 && cftab[c] <= y < cftab[c + 1] ensures c == column[Row(t, o, k)] {
      SmallSymbol(column, t, g, cycle, o, k, c);
    }
  }

  class BlockReader {
    const small: bool
    const rNums: seq<nat>
    const tt: array<nat>
    const ll: PackedLinks
    const cftab: array<nat>
    const limit: nat
    var randomised: bool
    var tPos: nat
    var rand: Rand
    ghost var head: Head
    ghost var column: seq<byte>
    /** How many symbols were fetched. */
    ghost var k: nat
    ghost var cycle: seq<nat>

    ghost predicate Valid()
      reads this, tt, ll.ll16, ll.ll4, cftab
    {
      && Numbers(rNums) && head.origPtr < |column| <= limit && randomised == head.randomised && cftab.Length == 257
      && rand == (if k == 0 || !randomised then Rand(0, 0) else RandAt(rNums, k - 1))
      && AtRow(k)
    }

    /** `tPos` is where the next fetch, number `j`, starts. */
    ghost predicate AtRow(j: nat)
      requires head.origPtr < |column|
      reads this`tPos, this`head, this`column, this`cycle, tt, ll.ll16, ll.ll4, cftab
    {
      if small then
        && ll.Valid() && |column| <= ll.ll16.Length && SmallLinks(Table(), cftab[..], column, head.origPtr, cycle)
        && tPos == SmallRow(Table(), head.origPtr, j)
      else FastLinks(tt[..], column, Links(column)) && tPos == Row(Links(column), head.origPtr, j)
    }

    /** The packed links of the block. */
    ghost function Table(): (g: seq<nat>)
      requires ll.Valid() && |column| <= ll.ll16.Length
      reads this`column, ll.ll16, ll.ll4
    {
      var n := |column|;
      seq(n, x requires 0 <= x < n && n <= ll.ll16.Length && ll.Valid() reads ll.ll16, ll.ll4 => ll.Get(x))
    }

    /** Counts and accumulates the symbols; the checks on the counts pass, so no block is rejected by them. */
    method CountSymbols(l: seq<byte>) returns (ok: bool)
      requires cftab.Length == 257
      modifies cftab
      ensures ok && forall c :: 0 <= c <= 256 ==> cftab[c] == Start(l, c, |l|)
    {
      hide Start, Occ;
      var unzftab := new nat[256];
      for i := 0 to 256
        invariant forall c :: 0 <= c < i ==> unzftab[c] == 0
      {
        unzftab[i] := 0;
      }
      forall c: nat | c < 256 ensures Occ(l, c, 0) == 0 {
        OccZero(l, c);
      }
      for i := 0 to |l|
        invariant forall c :: 0 <= c < 256 ==> unzftab[c] == Occ(l, c, i)
      {
        OccStep(l, i);
        unzftab[l[i]] := unzftab[l[i]] + 1;
      }
      Accumulate(unzftab, cftab, l);
      TablesPass(l);
      ok := CheckTables(unzftab, cftab, |l|);
    }

    /** Sets up a block, and fetches nothing yet. */
    constructor (small0: bool, level: nat, rNums0: seq<nat>, head0: Head, column0: seq<byte>)
      requires Numbers(rNums0) && head0.origPtr < |column0| <= 100000 * level && level <= 9
      ensures Valid() && fresh(tt) && fresh(ll.ll16) && fresh(ll.ll4) && fresh(cftab)
      ensures head == head0 && column == column0 && k == 0 && small == small0 && rNums == rNums0
      ensures limit == 100000 * level
    {
      small := small0;
      rNums := rNums0;
      limit := 100000 * level;
      tt := new nat[if small0 then 0 else 100000 * level];
      ll := new PackedLinks(if small0 then 100000 * level else 0);
      cftab := new nat[257];
      randomised := head0.randomised;
      rand := Rand(0, 0);
      tPos := 0;
      head, column, k, cycle := head0, column0, 0, [];
      new;
      if small0 {
        BuildSmallBlock(head0.origPtr, column0);
      } else {
        BuildFastBlock(head0.origPtr, column0);
      }
    }

    method BuildFastBlock(origPtr: nat, l: seq<byte>)
      requires !small && origPtr < |l| <= limit && tt.Length == limit && cftab.Length == 257 && tt != cftab
      requires Numbers(rNums) && head.origPtr == origPtr && column == l && randomised == head.randomised
      requires rand == Rand(0, 0) && k == 0
      modifies this`tPos, tt, cftab
      ensures Valid()
    {
      hide Start, Occ, LF;
      var ok := CountSymbols(l);
      for i := 0 to |l|
        invariant forall x :: 0 <= x < i ==> tt[x] == l[x]
        invariant forall c :: 0 <= c <= 256 ==> cftab[c] == Start(l, c, |l|)
      {
        tt[i] := l[i];
      }
      ghost var t := BuildFast(tt, cftab, |l|, l);
      InvertsUnique(l, t, Links(l));
      tPos := tt[origPtr] / 256;
    }

    method BuildSmallBlock(origPtr: nat, l: seq<byte>)
      requires small && origPtr < |l| <= limit <= MAX_BLOCK && ll.ll16.Length == limit && ll.Valid()
      requires cftab.Length == 257 && ll.ll16 != cftab
      requires Numbers(rNums) && head.origPtr == origPtr && column == l && randomised == head.randomised
      requires rand == Rand(0, 0) && k == 0
      modifies this`tPos, this`cycle, ll.ll16, ll.ll4, cftab
      ensures Valid()
    {
      hide *;
      var ok := CountSymbols(l);
      CopySymbols(l);
      var cftabCopy := new nat[257];
      BuildSmall(ll, cftab, cftabCopy, |l|, l);
      cycle := ReverseCycle(ll, |l|, origPtr, l);
      tPos := origPtr;
      IsAtFirst();
      IsValid();
    }

    /** The links lead back along the cycle, and the first row is that of the block itself. */
    lemma IsAtFirst()
      requires small && head.origPtr < |column| <= ll.ll16.Length && ll.Valid() && cftab.Length == 257
      requires tPos == head.origPtr
      requires Path(column, head.origPtr, cycle) && LF(column, cycle[|cycle| - 1]) == head.origPtr
      requires ll.Get(head.origPtr) == cycle[|cycle| - 1] && forall j :: 0 < j < |cycle| ==>
                ll.Get(cycle[j]) == cycle[j - 1]
      requires forall c :: 0 <= c <= 256 ==> cftab[c] == Start(column, c, |column|)
      ensures AtRow(0)
    {
      hide Start, LF, Occ;
    }

    /** The symbols are in the low halves of the links. */
    method CopySymbols(l: seq<byte>)
      requires ll.Valid() && |l| <= ll.ll16.Length
      modifies ll.ll16
      ensures ll.Valid() && forall x :: 0 <= x < |l| ==> ll.ll16[x] == l[x]
    {
      for i := 0 to |l|
        invariant ll.Valid() && forall x :: 0 <= x < i ==> ll.ll16[x] == l[x]
      {
        ll.ll16[i] := l[i];
      }
    }

    /** BZ_GET_FAST */
    method GetFast() returns (c: byte)
      requires !small && head.origPtr < |column| && AtRow(k)
      modifies this`tPos
      ensures AtRow(k + 1) && c == column[Row(Links(column), head.origPtr, k)]
    {
      FastStep(tt[..], column, Links(column), head.origPtr, k);
      hide Inverts, Row, Word;
      var word := tt[tPos];
      c := word % 256;
      tPos := word / 256;
    }

    /** BZ_GET_SMALL */
    method GetSmall() returns (c: byte)
      requires small && head.origPtr < |column| && AtRow(k) && cftab.Length == 257
      modifies this`tPos
      ensures AtRow(k + 1) && c == column[Row(Links(column), head.origPtr, k)]
    {
      SmallStep(Table(), cftab[..], column, head.origPtr, cycle, Links(column), k);
      hide Inverts, Row, Start, LF, Path, SmallRow;
      ghost var f := cftab[..];
      c := IndexIntoF(tPos, cftab);
      assert f[c] <= tPos < f[c + 1];
      tPos := ll.Get(tPos);
    }

    /** The row is a row of the block: the range check of the macros never fails. */
    lemma InRange()
      requires Valid()
      ensures tPos < |column| <= limit && head.origPtr < |column| && AtRow(k) && cftab.Length == 257 && Numbers(rNums)
      ensures randomised == head.randomised
      ensures rand == (if k == 0 || !randomised then Rand(0, 0) else RandAt(rNums, k - 1))
    {
      hide Inverts, Row, Word, Start, LF, Path, SmallRow, RandAt, SmallLinks;
      if small {
        SmallStep(Table(), cftab[..], column, head.origPtr, cycle, Links(column), k);
      } else {
        FastStep(tt[..], column, Links(column), head.origPtr, k);
      }
    }

    lemma IsValid()
      requires head.origPtr < |column| && AtRow(k) && cftab.Length == 257 && Numbers(rNums) && |column| <= limit
      requires randomised == head.randomised
      requires rand == (if k == 0 || !randomised then Rand(0, 0) else RandAt(rNums, k - 1))
      ensures Valid()
    {
    }

    lemma RandStep()
      requires Numbers(rNums)
      ensures RandAt(rNums, k) == RandNext(rNums, if k == 0 then Rand(0, 0) else RandAt(rNums, k - 1))
    {
    }

    /** BZ_GET_FAST or BZ_GET_SMALL, with the randomiser. */
    method Get() returns (corrupt: bool, c: byte)
      requires Valid()
      modifies this`tPos, this`rand, this`k
      ensures Valid() && !corrupt && k == old(k) + 1 && head.origPtr < |column| && Numbers(rNums)
      ensures c == Fetched(head, column, rNums, old(k))
    {
      hide *;
      InRange();
      ColumnRow(head, column, rNums, Links(column), k);
      RandStep();
      corrupt, c := tPos >= limit, 0;
      if corrupt {
        return;
      }
      if small {
        c := GetSmall();
      } else {
        c := GetFast();
      }
      if randomised {
        rand := RandNext(rNums, rand);
        c := Unmask(c, rand);
      }
      k := k + 1;
      IsValid();
    }
  }

  lemma OccZero(l: seq<byte>, c: nat)
    ensures Occ(l, c, 0) == 0
  {
  }
}
