/**
 The first run-length coding (bzlib.c lines 224-292 and 577-846): runs of 4 to 255 equal bytes
 are stored as four of them and a count.
 */
module RunLength {

  import opened Rotation
  import opened Mtf

  /** A run of the input. */
  datatype Run = Run(ch: byte, len: nat)

  /** What add_pair_to_block stores for a run. */
  function Stored(r: Run): (s: seq<byte>)
    requires 1 <= r.len <= 255
    ensures 1 <= |s| <= 5
  {
    if r.len < 4 then Repeat(r.ch, r.len) else Repeat(r.ch, 4) + [r.len - 4]
  }

  /** The bytes of a run. */
  function Original(r: Run): (s: seq<byte>)
  {
    Repeat(r.ch, r.len)
  }

  /** Runs as they follow each other in a block: equal bytes only after a run of 255. */
  predicate Runs(rs: seq<Run>)
  {
    && (forall i :: 0 <= i < |rs| ==> 1 <= rs[i].len <= 255)
    && (forall i :: 0 <= i < |rs| - 1 ==> rs[i].ch != rs[i + 1].ch || rs[i].len == 255)
  }

  function StoredAll(rs: seq<Run>): (s: seq<byte>)
    requires Runs(rs)
  {
    if rs == [] then [] else Stored(rs[0]) + StoredAll(rs[1..])
  }

  function OriginalAll(rs: seq<Run>): (s: seq<byte>)
  {
    if rs == [] then [] else Original(rs[0]) + OriginalAll(rs[1..])
  }

  lemma {:induction false} StoredAppend(rs: seq<Run>, r: Run)
    requires Runs(rs + [r]) && 1 <= r.len <= 255
    ensures Runs(rs) && StoredAll(rs + [r]) == StoredAll(rs) + Stored(r)
  {
    RunsParts(rs, [r]);
    if rs == [] {
      assert [] + [r] == [r] && [r][1..] == [];
      assert StoredAll([r]) == Stored(r) + [];
      assert StoredAll(rs) + Stored(r) == Stored(r);
    } else {
      assert (rs + [r])[1..] == rs[1..] + [r];
      RunsParts([rs[0]], rs[1..] + [r]);
      assert [rs[0]] + (rs[1..] + [r]) == rs + [r];
      StoredAppend(rs[1..], r);
      assert Stored(rs[0]) + (StoredAll(rs[1..]) + Stored(r)) == Stored(rs[0]) + StoredAll(rs[1..]) + Stored(r);
    }
  }

  lemma RunsParts(a: seq<Run>, b: seq<Run>)
    requires Runs(a + b)
    ensures Runs(a) && Runs(b)
  {
    forall i | 0 <= i < |a| - 1 ensures a[i].ch != a[i + 1].ch || a[i].len == 255 {
      assert (a + b)[i] == a[i] && (a + b)[i + 1] == a[i + 1];
    }
    forall i | 0 <= i < |b| - 1 ensures b[i].ch != b[i + 1].ch || b[i].len == 255 {
      assert (a + b)[|a| + i] == b[i] && (a + b)[|a| + i + 1] == b[i + 1];
    }
    forall i | 0 <= i < |b| ensures 1 <= b[i].len <= 255 {
      assert (a + b)[|a| + i] == b[i];
    }
    forall i | 0 <= i < |a| ensures 1 <= a[i].len <= 255 {
      assert (a + b)[i] == a[i];
    }
  }

  lemma {:induction false} OriginalAppend(rs: seq<Run>, r: Run)
    ensures OriginalAll(rs + [r]) == OriginalAll(rs) + Original(r)
  {
    if rs == [] {
      assert [] + [r] == [r] && [r][1..] == [];
      assert OriginalAll([r]) == Original(r) + [];
    } else {
      assert (rs + [r])[1..] == rs[1..] + [r];
      OriginalAppend(rs[1..], r);
      assert Original(rs[0]) + (OriginalAll(rs[1..]) + Original(r))
          == Original(rs[0]) + OriginalAll(rs[1..]) + Original(r);
    }
  }

  // ---------------------------------------------------------------- undoing it

  /** How many of the first four bytes are equal. */
  function Lead(x: seq<byte>): (k: nat)
    ensures k <= 4 && k <= |x| && (x != [] ==> k >= 1)
    ensures forall i :: 0 <= i < k ==> x[i] == x[0]
    ensures k < 4 && k < |x| ==> x[k] != x[0]
  {
    if |x| < 2 then |x|
    else if x[1] != x[0] then 1
    else if |x| < 3 then 2
    else if x[2] != x[0] then 2
    else if |x| < 4 then 3
    else if x[3] != x[0] then 3
    else 4
  }

  /** No four equal bytes end the block without their count. */
  predicate Expandable(x: seq<byte>)
    decreases |x|
  {
    x == [] || (if Lead(x) < 4 then Expandable(x[Lead(x)..]) else |x| >= 5 && Expandable(x[5..]))
  }

  /** The bytes that a block stands for. */
  function Expand(x: seq<byte>): (s: seq<byte>)
    requires Expandable(x)
    decreases |x|
  {
    if x == [] then []
    else if Lead(x) < 4 then Repeat(x[0], Lead(x)) + Expand(x[Lead(x)..])
    else Repeat(x[0], x[4] as nat + 4) + Expand(x[5..])
  }

  lemma LeadStored(r: Run, more: seq<byte>)
    requires 1 <= r.len <= 255 && (r.len < 4 && more != [] ==> more[0] != r.ch)
    ensures Lead(Stored(r) + more) == if r.len < 4 then r.len else 4
    ensures (Stored(r) + more)[0] == r.ch
    ensures r.len < 4 ==> (Stored(r) + more)[r.len..] == more
    ensures r.len >= 4 ==> (Stored(r) + more)[5..] == more && (Stored(r) + more)[4] == r.len - 4
  {
    var x := Stored(r) + more;
    assert forall i :: 0 <= i < |Stored(r)| ==> x[i] == Stored(r)[i];
    if r.len < 4 && more != [] {
      assert x[r.len] == more[0];
    }
  }

  /** The decoder's bytes are the encoder's, for every sequence of runs. */
  lemma {:induction false} RunsRoundTrip(rs: seq<Run>)
    requires Runs(rs)
    ensures Expandable(StoredAll(rs)) && Expand(StoredAll(rs)) == OriginalAll(rs)
  {
    if rs != [] {
      RunsParts([rs[0]], rs[1..]);
      assert [rs[0]] + rs[1..] == rs;
      RunsRoundTrip(rs[1..]);
      var more := StoredAll(rs[1..]);
      if |rs| > 1 {
        assert more[0] == rs[1].ch;
      }
      LeadStored(rs[0], more);
    }
  }

  /** Every byte sequence is the original of runs. */
  function Split(s: seq<byte>): (rs: seq<Run>)
    ensures Runs(rs) && OriginalAll(rs) == s
    ensures rs != [] <==> s != []
  {
    if s == [] then []
    else
      var rs := Split(s[..|s| - 1]);
      var c := s[|s| - 1];
      AddByteKeeps(rs, c);
      assert s == s[..|s| - 1] + [c];
      AddByte(rs, c)
  }

  /** ADD_CHAR_TO_BLOCK, as a function of all runs so far: the last one grows or a new one starts. */
  function AddByte(rs: seq<Run>, c: byte): (r: seq<Run>)
  {
    if rs != [] && rs[|rs| - 1].ch == c && rs[|rs| - 1].len < 255
    then rs[..|rs| - 1] + [Run(c, rs[|rs| - 1].len + 1)]
    else rs + [Run(c, 1)]
  }

  lemma AddByteRuns(rs: seq<Run>, c: byte)
    requires Runs(rs)
    ensures Runs(AddByte(rs, c))
  {
  }

  lemma AddByteKeeps(rs: seq<Run>, c: byte)
    requires Runs(rs)
    ensures Runs(AddByte(rs, c)) && OriginalAll(AddByte(rs, c)) == OriginalAll(rs) + [c]
  {
    AddByteRuns(rs, c);
    hide Runs;
    if rs != [] && rs[|rs| - 1].ch == c && rs[|rs| - 1].len < 255 {
      var front, last := rs[..|rs| - 1], rs[|rs| - 1];
      assert front + [last] == rs;
      OriginalAppend(front, last);
      OriginalAppend(front, Run(c, last.len + 1));
      assert OriginalAll(front) + Original(last) + [c] == OriginalAll(front) + (Original(last) + [c]);
    } else {
      OriginalAppend(rs, Run(c, 1));
      assert Original(Run(c, 1)) == Repeat(c, 0) + [c] == [c];
    }
  }
}
