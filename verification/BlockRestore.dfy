/**
 The two in-place constructions of the links that undo the block sort
 (decompress.c lines 500-582), for FAST and for SMALL decompression.
 */
module BlockRestore {

  import opened Rotation
  import opened Counting
  import opened InverseBwt


  /** A word of `tt`: a byte of the last column below a link. */
  function Word(c: byte, link: nat): (w: nat)
    ensures w % 256 == c && w / 256 == link
  {
    c + 256 * link
  }

  /** `w | (i << 8)` for a word `w` of which only the low byte is in use. */
  function OrShifted(w: nat, i: nat): (r: nat)
    requires w < 256
    ensures r == Word(w, i)
  {
    w + 256 * i
  }

  /** Turns symbol counts into bucket starts. */
  method Accumulate(unzftab: array<nat>, cftab: array<nat>, ghost l: seq<byte>)
    requires unzftab.Length == 256 && cftab.Length == 257 && unzftab != cftab
    requires forall c :: 0 <= c < 256 ==> unzftab[c] == Occ(l, c, |l|)
    modifies cftab
    ensures forall c :: 0 <= c <= 256 ==> cftab[c] == Start(l, c, |l|)
  {
    cftab[0] := 0;
    for i := 1 to 257
      invariant cftab[0] == 0 && forall c :: 1 <= c < i ==> cftab[c] == unzftab[c - 1]
    {
      cftab[i] := unzftab[i - 1];
    }
    for i := 1 to 257
      invariant forall c :: 0 <= c < i ==> cftab[c] == Start(l, c, |l|)
      invariant forall c :: i <= c < 257 ==> cftab[c] == Occ(l, c - 1, |l|)
    {
      cftab[i] := cftab[i] + cftab[i - 1];
    }
  }

  /** The range checks on the count tables, which report a corrupt block. */
  method CheckTables(unzftab: array<nat>, cftab: array<nat>, nblock: nat) returns (ok: bool)
    requires unzftab.Length == 256 && cftab.Length == 257
    ensures ok <==>
            && (forall c :: 0 <= c < 256 ==> unzftab[c] <= nblock)
            && (forall c :: 0 <= c <= 256 ==> cftab[c] <= nblock)
            && (forall c :: 1 <= c <= 256 ==> cftab[c - 1] <= cftab[c])
  {
    for i := 0 to 256
      invariant forall c :: 0 <= c < i ==> unzftab[c] <= nblock
    {
      if unzftab[i] > nblock {
        return false;
      }
    }
    for i := 0 to 257
      invariant forall c :: 0 <= c < i ==> cftab[c] <= nblock
    {
      if cftab[i] > nblock {
        return false;
      }
    }
    for i := 1 to 257
      invariant forall c :: 1 <= c < i ==> cftab[c - 1] <= cftab[c]
    {
      if cftab[i - 1] > cftab[i] {
        return false;
      }
    }
    return true;
  }

  /** Counts taken from a block that was decoded in full always pass the checks. */
  lemma TablesPass(l: seq<byte>)
    ensures forall c :: 0 <= c < 256 ==> Occ(l, c, |l|) <= |l|
    ensures forall c :: 0 <= c <= 256 ==> Start(l, c, |l|) <= |l|
    ensures forall c :: 1 <= c <= 256 ==> Start(l, c - 1, |l|) <= Start(l, c, |l|)
  {
    forall c | 0 <= c <= 256 ensures Start(l, c, |l|) <= |l| {
      StartAtMost(l, c, |l|);
    }
  }

  /** FAST: `tt` holds the last column; afterwards it holds, above it, the links `t`. */
  method BuildFast(tt: array<nat>, cftab: array<nat>, nblock: nat, ghost l: seq<byte>) returns (ghost t: seq<nat>)
    requires nblock == |l| <= tt.Length && cftab.Length == 257 && tt != cftab
    requires forall x :: 0 <= x < nblock ==> tt[x] == l[x]
    requires forall c :: 0 <= c <= 256 ==> cftab[c] == Start(l, c, |l|)
    modifies tt, cftab
    ensures Inverts(l, t)
    ensures forall x :: 0 <= x < nblock ==> tt[x] == Word(l[x], t[x])
  {
    hide Start, Occ;
    TargetsPerm(l);
    ghost var f := Targets(l);
    t := seq(nblock, _ => 0);
    for i := 0 to nblock
      invariant |t| == nblock
      invariant forall c :: 0 <= c < 256 ==> cftab[c] == Start(l, c, |l|) + Occ(l, c, i)
      invariant forall x :: 0 <= x < nblock ==> tt[x] == Word(l[x], t[x])
      invariant forall x :: 0 <= x < i ==> t[f[x]] == x
      invariant forall x :: i <= x < nblock ==> t[f[x]] == 0
    {
      OccStep(l, i);
      var uc := tt[i] % 256;
      assert uc == l[i];
      var at := cftab[uc];
      assert at == f[i];
      tt[at] := OrShifted(tt[at], i);
      cftab[uc] := cftab[uc] + 1;
      t := t[at := i];
    }
  }

  /** SMALL: links of 20 bits, 16 in `ll16` and two nibbles to a byte in `ll4`. */
  class PackedLinks {
    const ll16: array<nat>
    const ll4: array<byte>

    constructor (n: nat)
      ensures fresh(ll16) && fresh(ll4) && ll16.Length == n && Valid()
    {
      ll16 := new nat[n](_ => 0);
      ll4 := new byte[(1 + n) / 2];
    }

    predicate Valid()
      reads ll16
    {
      && ll4.Length == (1 + ll16.Length) / 2
      && forall x :: 0 <= x < ll16.Length ==> ll16[x] < 0x10000
    }

    function Get4(i: nat): (v: nat)
      requires i / 2 < ll4.Length
      reads ll4
      ensures v < 16
    {
      if i % 2 == 0 then ll4[i / 2] % 16 else ll4[i / 2] / 16
    }

    method Set4(i: nat, v: nat)
      requires i / 2 < ll4.Length && v < 16
      modifies ll4
      ensures forall x :: 0 <= x / 2 < ll4.Length ==> Get4(x) == if x == i then v else old(Get4(x))
    {
      if i % 2 == 0 {
        ll4[i / 2] := ll4[i / 2] / 16 * 16 + v;
      } else {
        ll4[i / 2] := ll4[i / 2] % 16 + 16 * v;
      }
    }

    function Get(i: nat): (v: nat)
      requires i < ll16.Length && Valid()
      reads ll16, ll4
    {
      ll16[i] + 0x10000 * Get4(i)
    }

    /** A packed link reads back as written, and writing it disturbs no other, not even its byte neighbour. */
    method Set(i: nat, v: nat)
      requires i < ll16.Length && Valid() && v < 0x100000
      modifies ll16, ll4
      ensures Valid()
      ensures Get(i) == v
      ensures forall x :: 0 <= x < ll16.Length && x != i ==> ll16[x] == old(ll16[x]) && Get(x) == old(Get(x))
    {
      ll16[i] := v % 0x10000;
      Set4(i, v / 0x10000);
    }
  }

  /** SMALL, first half: every link is the row to which the stable distribution sends this row. */
  method BuildSmall(ll: PackedLinks, cftab: array<nat>, cftabCopy: array<nat>, nblock: nat, ghost l: seq<byte>)
    requires ll.Valid() && nblock == |l| <= ll.ll16.Length && nblock <= MAX_BLOCK
    requires cftab.Length == 257 && cftabCopy.Length == 257
    requires cftab != cftabCopy && ll.ll16 != cftab && ll.ll16 != cftabCopy
    requires forall x :: 0 <= x < nblock ==> ll.ll16[x] == l[x]
    requires forall c :: 0 <= c <= 256 ==> cftab[c] == Start(l, c, |l|)
    modifies ll.ll16, ll.ll4, cftabCopy
    ensures ll.Valid()
    ensures forall x :: 0 <= x < nblock ==> ll.Get(x) == LF(l, x)
  {
    hide Start, Occ;
    for i := 0 to 257
      invariant ll.Valid() && forall x :: 0 <= x < nblock ==> ll.ll16[x] == l[x]
      invariant forall c :: 0 <= c < i ==> cftabCopy[c] == cftab[c]
    {
      cftabCopy[i] := cftab[i];
    }
    for i := 0 to nblock
      invariant ll.Valid()
      invariant forall c :: 0 <= c < 256 ==> cftabCopy[c] == Start(l, c, |l|) + Occ(l, c, i)
      invariant forall x :: i <= x < nblock ==> ll.ll16[x] == l[x]
      invariant forall x :: 0 <= x < i ==> ll.Get(x) == LF(l, x)
    {
      OccStep(l, i);
      var uc := ll.ll16[i] % 256;
      LFBucket(l, i);
      ll.Set(i, cftabCopy[uc]);
      cftabCopy[uc] := cftabCopy[uc] + 1;
    }
  }

  /** `cycle` lists the rows reached from `o` by the distribution until it comes back to `o`. */
  ghost predicate Path(l: seq<byte>, o: nat, cycle: seq<nat>)
  {
    && cycle != [] && cycle[0] == o
    && (forall j :: 0 <= j < |cycle| ==> cycle[j] < |l|)
    && (forall j :: 0 < j < |cycle| ==> cycle[j] == LF(l, cycle[j - 1]))
    && (forall j, k :: 0 <= j < k < |cycle| ==> cycle[j] != cycle[k])
  }

  lemma PathShort(l: seq<byte>, o: nat, cycle: seq<nat>)
    requires Path(l, o, cycle)
    ensures |cycle| <= |l|
  {
    DistinctSize(cycle);
    assert Elements(cycle) <= Below(|l|);
    SubsetSize(Elements(cycle), Below(|l|));
  }

  /** The distribution from the end of a path leads to a new row or back to the start. */
  lemma PathStep(l: seq<byte>, o: nat, cycle: seq<nat>)
    requires Path(l, o, cycle)
    ensures var next := LF(l, cycle[|cycle| - 1]);
            next < |l| && (next == o || Path(l, o, cycle + [next]))
  {
    var last := cycle[|cycle| - 1];
    var next := LF(l, last);
    LFBucket(l, last);
    TargetsPerm(l);
    forall j | 0 < j < |cycle| ensures cycle[j] != next {
      assert cycle[j - 1] != last;
      assert Targets(l)[cycle[j - 1]] != Targets(l)[last];
    }
  }

  lemma PathStart(l: seq<byte>, o: nat)
    requires o < |l| <= MAX_BLOCK
    ensures Path(l, o, [o]) && MAX_BLOCK == 900000
  {
  }

  /** The next row is the start or it is not on the path yet, and no other row of the path is the start. */
  lemma NewOnPath(l: seq<byte>, o: nat, cycle: seq<nat>)
    requires Path(l, o, cycle)
    ensures |cycle| > 0 && forall k :: 0 < k < |cycle| ==> cycle[k] != o
    ensures var next := LF(l, cycle[|cycle| - 1]);
              next < |l| && (next == o || (next !in cycle && Path(l, o, cycle + [next])))
  {
    hide LF;
    PathStep(l, o, cycle);
    var next := LF(l, cycle[|cycle| - 1]);
    if next != o {
      assert (cycle + [next])[|cycle|] == next;
      forall k | 0 <= k < |cycle| ensures cycle[k] != next {
        assert (cycle + [next])[k] == cycle[k];
      }
    }
  }

  /** SMALL, second half: reverses the links, but only along the cycle of `origPtr`. */
  method ReverseCycle(ll: PackedLinks, nblock: nat, origPtr: nat, ghost l: seq<byte>) returns (ghost cycle: seq<nat>)
    requires ll.Valid() && nblock == |l| <= ll.ll16.Length && nblock <= MAX_BLOCK
    requires origPtr < nblock
    requires forall x :: 0 <= x < nblock ==> ll.Get(x) == LF(l, x)
    modifies ll.ll16, ll.ll4
    ensures ll.Valid()
    ensures Path(l, origPtr, cycle) && LF(l, cycle[|cycle| - 1]) == origPtr
    ensures ll.Get(origPtr) == cycle[|cycle| - 1]
    ensures forall j :: 0 < j < |cycle| ==> ll.Get(cycle[j]) == cycle[j - 1]
    ensures forall x :: 0 <= x < nblock && x !in cycle ==> ll.Get(x) == LF(l, x)
  {
    hide *;
    PathStart(l, origPtr);
    var i := origPtr;
    var j := ll.Get(i);
    cycle := [origPtr];
    NewOnPath(l, origPtr, cycle);
    while true
      invariant ll.Valid()
      invariant |cycle| > 0 && cycle[0] == origPtr && forall k :: 0 <= k < |cycle| ==> cycle[k] < nblock
      invariant Path(l, origPtr, cycle) && i == cycle[|cycle| - 1] && j == LF(l, i) < nblock
      invariant forall k :: 0 < k < |cycle| ==> ll.Get(cycle[k]) == cycle[k - 1]
      invariant forall x :: 0 <= x < nblock && (x !in cycle || x == origPtr) ==> ll.Get(x) == LF(l, x)
      decreases nblock - |cycle|
    {
      NewOnPath(l, origPtr, cycle);
      var tmp := ll.Get(j);
      ll.Set(j, i);
      if j == origPtr {
        return;
      }
      cycle := cycle + [j];
      PathShort(l, origPtr, cycle);
      NewOnPath(l, origPtr, cycle);
      i := j;
      j := tmp;
    }
  }

  /** The bucket that contains row `indx`, by binary search. */
  method IndexIntoF(indx: nat, cftab: array<nat>) returns (nb: nat)
    requires cftab.Length == 257 && cftab[0] <= indx < cftab[256]
    ensures nb < 256 && cftab[nb] <= indx < cftab[nb + 1]
  {
    nb := 0;
    var na := 256;
    while true
      invariant 0 <= nb < na <= 256 && (na - nb > 1 || (nb == 0 && na == 256))
      invariant cftab[nb] <= indx < cftab[na]
      decreases na - nb
    {
      var mid := (nb + na) / 2;
      if indx >= cftab[mid] {
        nb := mid;
      } else {
        na := mid;
      }
      if na - nb == 1 {
        break;
      }
    }
  }

  /** Row `tPos` before fetch `k` in SMALL mode, for links `g`. */
  function SmallRow(g: seq<nat>, o: nat, k: nat): (r: int)
  {
    if k == 0 then o
    else
      var y := SmallRow(g, o, k - 1);
      if 0 <= y < |g| then g[y] else -1
  }

  /** The links left by ReverseCycle undo the distribution on every row of the cycle. */
  lemma {:induction false} SmallRowIsRow(l: seq<byte>, t: seq<nat>, g: seq<nat>, cycle: seq<nat>, o: nat, k: nat)
    requires Inverts(l, t) && |g| == |l|
    requires Path(l, o, cycle) && LF(l, cycle[|cycle| - 1]) == o
    requires g[o] == cycle[|cycle| - 1]
    requires forall j :: 0 < j < |cycle| ==> g[cycle[j]] == cycle[j - 1]
    ensures forall x :: 0 <= x < |t| ==> t[x] < |t|
    ensures SmallRow(g, o, k) in cycle
    ensures SmallRow(g, o, k + 1) == Row(t, o, k) == t[SmallRow(g, o, k)]
  {
    InvertsClosed(l, t);
    if k > 0 {
      SmallRowIsRow(l, t, g, cycle, o, k - 1);
      assert Row(t, o, k - 1) in cycle by {
        var j' :| 0 <= j' < |cycle| && cycle[j'] == SmallRow(g, o, k - 1);
        assert g[cycle[j']] == if j' == 0 then cycle[|cycle| - 1] else cycle[j' - 1];
      }
    }
    var y := SmallRow(g, o, k);
    assert y in cycle;
    var j :| 0 <= j < |cycle| && cycle[j] == y;
    assert g[y] == if j == 0 then cycle[|cycle| - 1] else cycle[j - 1];
    assert LF(l, g[y]) == y;
    assert t[y] == g[y];
  }

  /**
   FAST and SMALL fetch the same symbols for every last column and every `origPtr`:
   the bucket of the SMALL row is the symbol stored in the FAST row.
   */
  lemma SmallSymbol(l: seq<byte>, t: seq<nat>, g: seq<nat>, cycle: seq<nat>, o: nat, k: nat, c: nat)
    requires Inverts(l, t) && |g| == |l|
    requires Path(l, o, cycle) && LF(l, cycle[|cycle| - 1]) == o
    requires g[o] == cycle[|cycle| - 1]
    requires forall j :: 0 < j < |cycle| ==> g[cycle[j]] == cycle[j - 1]
    requires Start(l, c, |l|) <= SmallRow(g, o, k) < Start(l, c + 1, |l|)
    ensures forall x :: 0 <= x < |t| ==> t[x] < |t|
    ensures c == l[Row(t, o, k)]
  {
    SmallRowIsRow(l, t, g, cycle, o, k);
    var y := SmallRow(g, o, k);
    Source(l, t, y);
    LFBucket(l, t[y]);
    var d := l[t[y]];
    if c < d {
      StartMonotone(l, c + 1, d, |l|);
    } else if d < c {
      StartMonotone(l, d as int + 1, c, |l|);
    }
  }
}
