/**
 Reading and writing a sequence at any index: what the functions that mirror the in-place
 algorithms use, so that they need no bounds.
 */
module TotalSeqs {

  function At(s: seq<nat>, i: int): (v: nat)
  {
    if 0 <= i < |s| then s[i] else 0
  }

  function Put(s: seq<nat>, i: int, v: nat): (t: seq<nat>)
    ensures |t| == |s|
  {
    if 0 <= i < |s| then s[i := v] else s
  }

  function Swapped(s: seq<nat>, i: int, j: int): (t: seq<nat>)
    ensures |t| == |s|
  {
    Put(Put(s, i, At(s, j)), j, At(s, i))
  }

  /** The place of `v` in a list that has it. */
  ghost function IndexOf(s: seq<nat>, v: nat): (x: nat)
    ensures (x < |s| && s[x] == v) || forall y :: 0 <= y < |s| ==> s[y] != v
  {
    if y :| 0 <= y < |s| && s[y] == v then y else 0
  }
}
