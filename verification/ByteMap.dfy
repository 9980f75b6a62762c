/**
 The bytes that occur in a block, renumbered without gaps: makeMaps_e (compress.c lines 106-115)
 and makeMaps_d (decompress.c lines 27-36).
 */
module ByteMap {

  import opened Rotation

  /** The used bytes below `n`, in order. */
  function Used(inUse: seq<bool>, n: nat): (s: seq<byte>)
    requires n <= |inUse| <= 256
    ensures |s| <= n
  {
    if n == 0 then [] else Used(inUse, n - 1) + (if inUse[n - 1] then [n - 1] else [])
  }

  /** The number of byte `c`. */
  function Rank(inUse: seq<bool>, c: nat): (r: nat)
    requires c <= |inUse| <= 256
  {
    |Used(inUse, c)|
  }

  lemma {:induction false} UsedPrefix(inUse: seq<bool>, m: nat, n: nat)
    requires m <= n <= |inUse| <= 256
    ensures Used(inUse, m) <= Used(inUse, n)
    decreases n
  {
    if m < n {
      UsedPrefix(inUse, m, n - 1);
    }
  }

  /** Renumbering and its inverse. */
  lemma UsedRank(inUse: seq<bool>, c: nat)
    requires |inUse| == 256 && c < 256 && inUse[c]
    ensures Rank(inUse, c) < |Used(inUse, 256)| && Used(inUse, 256)[Rank(inUse, c)] == c
  {
    UsedPrefix(inUse, c + 1, 256);
    assert Used(inUse, c + 1) == Used(inUse, c) + [c];
  }

  method MapsForEncoding(inUse: array<bool>, unseqToSeq: array<nat>) returns (nInUse: nat)
    requires inUse.Length == 256 && unseqToSeq.Length == 256
    modifies unseqToSeq
    ensures nInUse == |Used(inUse[..], 256)|
    ensures forall c :: 0 <= c < 256 && inUse[c] ==> unseqToSeq[c] == Rank(inUse[..], c)
  {
    nInUse := 0;
    for i := 0 to 256
      invariant nInUse == |Used(inUse[..], i)|
      invariant forall c :: 0 <= c < i && inUse[c] ==> unseqToSeq[c] == Rank(inUse[..], c)
    {
      if inUse[i] {
        unseqToSeq[i] := nInUse;
        nInUse := nInUse + 1;
      }
    }
  }

  method MapsForDecoding(inUse: array<bool>, seqToUnseq: array<byte>) returns (nInUse: nat)
    requires inUse.Length == 256 && seqToUnseq.Length == 256
    modifies seqToUnseq
    ensures nInUse <= 256 && seqToUnseq[..nInUse] == Used(inUse[..], 256)
  {
    nInUse := 0;
    for i := 0 to 256
      invariant nInUse <= i && seqToUnseq[..nInUse] == Used(inUse[..], i)
    {
      if inUse[i] {
        seqToUnseq[nInUse] := i;
        nInUse := nInUse + 1;
      }
    }
  }
}
