/**
 BZ2_blockSort (blocksort.c lines 1031-1088): the choice of sorter, and the row of the
 original block.
 */
module BlockSort {

  import opened Rotation
  import FallbackSort
  import MainCompare
  import MainRadix
  import MainSort
  import opened TotalSeqs

  const SMALL_BLOCK := 10000

  /** The row of `p` that holds rotation 0. */
  method FindOrigin(ptr: array<nat>, nblock: nat) returns (origPtr: int)
    requires ptr.Length == nblock > 0 && Perm(ptr[..], nblock)
    ensures 0 <= origPtr < nblock && ptr[origPtr] == 0
    ensures origPtr == RowOf(ptr[..])
  {
    origPtr := -1;
    for i := 0 to nblock
      invariant origPtr == -1 && forall x :: 0 <= x < i ==> ptr[x] != 0
    {
      if ptr[i] == 0 {
        origPtr := i;
        break;
      }
    }
    // assertion 1003
    if origPtr == -1 {
      PermOnto(ptr[..], nblock, 0);
      assert false;
    }
  }

  /** The row of the block itself. */
  ghost function RowOf(p: seq<nat>): (x: nat)
  {
    IndexOf(p, 0)
  }

  /**
   The order that the sort leaves, as a function of the block and the work factor.  For a block
   with equal rotations it is one of several sorted orders.
   */
  ghost function OrderFor(b: seq<byte>, workFactor: int): (p: seq<nat>)
  {
    var wfact := if workFactor < 1 then 1 else if workFactor > 100 then 100 else workFactor;
    var r := MainSort.MainOrder(b, |b| * ((wfact - 1) / 3));
    if |b| < SMALL_BLOCK || r.budget < 0 then FallbackSort.OrderOf(b) else r.p
  }

  lemma OrderForIs(b: seq<byte>, workFactor: int, wfact: int)
    requires wfact == if workFactor < 1 then 1 else if workFactor > 100 then 100 else workFactor
    ensures OrderFor(b, workFactor)
            == var r := MainSort.MainOrder(b, |b| * ((wfact - 1) / 3));
               if |b| < SMALL_BLOCK || r.budget < 0 then FallbackSort.OrderOf(b) else r.p
  {
    hide MainSort.MainOrder, FallbackSort.OrderOf;
  }

  /**
   Sorts the rotations of any block, by whichever sorter finishes.  `ptr` ends as a sorted
   order, `block` as it was, and `origPtr` is the row of the block itself.
   */
  method Sort(ptr: array<nat>, eclass: array<nat>, block: array<nat>, quadrant: array<nat>, ftab: array<nat>,
              nblock: nat, workFactor: int, ghost b: seq<byte>) returns (origPtr: int)
    requires ptr != eclass && ptr != block && ptr != quadrant && ptr != ftab && eclass != block && eclass != quadrant
    requires eclass != ftab && block != quadrant && block != ftab && quadrant != ftab
    requires 0 < nblock == |b| == ptr.Length <= MAX_BLOCK && nblock <= eclass.Length
    requires nblock + 34 <= block.Length && nblock + 34 <= quadrant.Length && ftab.Length == 65537
    requires block[..nblock] == b
    modifies ptr, eclass, block, quadrant, ftab
    ensures Sorted(b, ptr[..]) && block[..nblock] == b
    ensures 0 <= origPtr < nblock && ptr[origPtr] == 0
    ensures ptr[..] == OrderFor(b, workFactor) && origPtr == RowOf(ptr[..])
  {
    assert MainRadix.FTAB_SIZE == FallbackSort.TABLE_WORDS == 65537 && MainCompare.OVERSHOOT == 34
        && SMALL_BLOCK == 10000;
    hide *;
    var wfact := if workFactor < 1 then 1 else if workFactor > 100 then 100 else workFactor;
    OrderForIs(b, workFactor, wfact);
    if nblock < SMALL_BLOCK {
      FallbackSort.Sort(ptr, eclass, block, ftab, nblock, b);
    } else {
      var budget := nblock * ((wfact - 1) / 3);
      budget := MainSort.Sort(ptr, block, quadrant, ftab, nblock, budget, b);
      if budget < 0 {
        FallbackSort.Sort(ptr, eclass, block, ftab, nblock, b);
      }
    }
    SortedPerm(b, ptr[..]);
    origPtr := FindOrigin(ptr, nblock);
  }
}
