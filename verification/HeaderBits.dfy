/**
 The bit table of bucket headers (blocksort.c, SET_BH to UNALIGNED_BH), stored 32 bits to a word.
 */
module HeaderBits {

  import opened Words

  const ONES := 0xFFFF_FFFF

  /** Bit `z` of the table. */
  predicate IsSet(w: seq<nat>, z: nat)
    requires z / 32 < |w|
  {
    Bit(w[z / 32], z % 32)
  }

  ghost predicate Same(w: seq<nat>, w': seq<nat>, z: nat)
  {
    && |w'| == |w|
    && forall y: nat :: y / 32 < |w| && y != z ==> IsSet(w', y) == IsSet(w, y)
  }

  lemma SetWord(w: seq<nat>, z: nat)
    requires z / 32 < |w|
    ensures Same(w, w[z / 32 := SetBit(w[z / 32], z % 32)], z)
    ensures IsSet(w[z / 32 := SetBit(w[z / 32], z % 32)], z)
  {
    var w' := w[z / 32 := SetBit(w[z / 32], z % 32)];
    SetBitBit(w[z / 32], z % 32, z % 32);
    forall y: nat | y / 32 < |w| && y != z ensures IsSet(w', y) == IsSet(w, y) {
      if y / 32 == z / 32 {
        SetBitBit(w[z / 32], z % 32, y % 32);
      }
    }
  }

  lemma ClearWord(w: seq<nat>, z: nat)
    requires z / 32 < |w|
    ensures Same(w, w[z / 32 := ClearBit(w[z / 32], z % 32)], z)
    ensures !IsSet(w[z / 32 := ClearBit(w[z / 32], z % 32)], z)
  {
    var w' := w[z / 32 := ClearBit(w[z / 32], z % 32)];
    ClearBitBit(w[z / 32], z % 32, z % 32);
    forall y: nat | y / 32 < |w| && y != z ensures IsSet(w', y) == IsSet(w, y) {
      if y / 32 == z / 32 {
        ClearBitBit(w[z / 32], z % 32, y % 32);
      }
    }
  }

  method SetBH(bhtab: array<nat>, zz: nat)
    requires zz / 32 < bhtab.Length
    modifies bhtab
    ensures Same(old(bhtab[..]), bhtab[..], zz) && IsSet(bhtab[..], zz)
  {
    SetWord(bhtab[..], zz);
    ghost var w := bhtab[..];
    bhtab[zz / 32] := SetBit(bhtab[zz / 32], zz % 32);
    assert bhtab[..] == w[zz / 32 := SetBit(w[zz / 32], zz % 32)];
  }

  method ClearBH(bhtab: array<nat>, zz: nat)
    requires zz / 32 < bhtab.Length
    modifies bhtab
    ensures Same(old(bhtab[..]), bhtab[..], zz) && !IsSet(bhtab[..], zz)
  {
    ClearWord(bhtab[..], zz);
    ghost var w := bhtab[..];
    bhtab[zz / 32] := ClearBit(bhtab[zz / 32], zz % 32);
    assert bhtab[..] == w[zz / 32 := ClearBit(w[zz / 32], zz % 32)];
  }

  method TestBH(bhtab: array<nat>, zz: nat) returns (r: bool)
    requires zz / 32 < bhtab.Length
    ensures r == IsSet(bhtab[..], zz)
  {
    r := Bit(bhtab[zz / 32], zz % 32);
  }

  lemma OnesAll(w: seq<nat>, k: nat)
    requires k % 32 == 0 && k / 32 < |w| && w[k / 32] == ONES
    ensures forall y :: k <= y < k + 32 ==> IsSet(w, y)
  {
    Pow2Word();
    forall y | k <= y < k + 32 ensures IsSet(w, y) {
      assert y / 32 == k / 32;
      OnesBit(w[k / 32], 32, y % 32);
    }
  }

  lemma ZeroNone(w: seq<nat>, k: nat)
    requires k % 32 == 0 && k / 32 < |w| && w[k / 32] == 0
    ensures forall y :: k <= y < k + 32 ==> y / 32 < |w| && !IsSet(w, y)
  {
    forall y | k <= y < k + 32 ensures y / 32 < |w| && !IsSet(w, y) {
      assert y / 32 == k / 32;
      ZeroBit(y % 32);
    }
  }

  /** The word-at-a-time scan finds what a scan bit by bit would: the first clear bit from `k0` on. */
  method SkipSet(bhtab: array<nat>, k0: nat, ghost limit: nat) returns (k: nat)
    requires k0 <= limit && limit / 32 < bhtab.Length && !IsSet(bhtab[..], limit)
    ensures k0 <= k <= limit && !IsSet(bhtab[..], k)
    ensures forall y :: k0 <= y < k ==> IsSet(bhtab[..], y)
  {
    hide IsSet;
    k := k0;
    var on := TestBH(bhtab, k);
    while on && k % 32 != 0
      invariant k0 <= k <= limit && on == IsSet(bhtab[..], k)
      invariant forall y :: k0 <= y < k ==> IsSet(bhtab[..], y)
      decreases limit - k
    {
      k := k + 1;
      on := TestBH(bhtab, k);
    }
    if on {
      while bhtab[k / 32] == ONES
        invariant k0 <= k <= limit && k % 32 == 0
        invariant forall y :: k0 <= y < k ==> IsSet(bhtab[..], y)
        decreases limit - k
      {
        OnesAll(bhtab[..], k);
        k := k + 32;
      }
      on := TestBH(bhtab, k);
      while on
        invariant k0 <= k <= limit && on == IsSet(bhtab[..], k)
        invariant forall y :: k0 <= y < k ==> IsSet(bhtab[..], y)
        decreases limit - k
      {
        k := k + 1;
        on := TestBH(bhtab, k);
      }
    }
  }

  /** Likewise for the first set bit from `k0` on. */
  method SkipClear(bhtab: array<nat>, k0: nat, ghost limit: nat) returns (k: nat)
    requires k0 <= limit && limit / 32 < bhtab.Length && IsSet(bhtab[..], limit)
    ensures k0 <= k <= limit && IsSet(bhtab[..], k)
    ensures forall y :: k0 <= y < k ==> !IsSet(bhtab[..], y)
  {
    hide IsSet;
    k := k0;
    var on := TestBH(bhtab, k);
    while !on && k % 32 != 0
      invariant k0 <= k <= limit && on == IsSet(bhtab[..], k)
      invariant forall y :: k0 <= y < k ==> !IsSet(bhtab[..], y)
      decreases limit - k
    {
      k := k + 1;
      on := TestBH(bhtab, k);
    }
    if !on {
      while bhtab[k / 32] == 0
        invariant k0 <= k <= limit && k % 32 == 0
        invariant forall y :: k0 <= y < k ==> !IsSet(bhtab[..], y)
        decreases limit - k
      {
        ZeroNone(bhtab[..], k);
        k := k + 32;
      }
      on := TestBH(bhtab, k);
      while !on
        invariant k0 <= k <= limit && on == IsSet(bhtab[..], k)
        invariant forall y :: k0 <= y < k ==> !IsSet(bhtab[..], y)
        decreases limit - k
      {
        k := k + 1;
        on := TestBH(bhtab, k);
      }
    }
  }
}
