/**
 Where the compressor ends its blocks (bzlib.c lines 296-337 and 390-406): a block is full with the
 first run that brings what is stored to the limit, and the run that is pending then is the first
 of the next block.
 */
module BlockCuts {

  import opened Rotation
  import opened RunLength

  /** How many bytes a run takes in a block. */
  function RunSize(r: Run): (n: nat)
  {
    if r.len < 4 then r.len else 5
  }

  function Size(rs: seq<Run>): (n: nat)
  {
    if rs == [] then 0 else Size(rs[..|rs| - 1]) + RunSize(rs[|rs| - 1])
  }

  lemma {:induction false} SizeIs(rs: seq<Run>)
    requires Runs(rs)
    ensures Size(rs) == |StoredAll(rs)|
  {
    if rs != [] {
      var front, r := rs[..|rs| - 1], rs[|rs| - 1];
      assert rs == front + [r];
      RunsParts(front, [r]);
      StoredAppend(front, r);
      SizeIs(front);
    }
  }

  /** The blocks that are full, and the runs of the block that is not. */
  datatype Cut = Cut(blocks: seq<seq<Run>>, open: seq<Run>)

  /** One more run is stored. */
  function Store(max: nat, c: Cut, r: Run): (c': Cut)
  {
    if Size(c.open + [r]) >= max then Cut(c.blocks + [c.open + [r]], []) else Cut(c.blocks, c.open + [r])
  }

  function CutAll(max: nat, rs: seq<Run>): (c: Cut)
  {
    if rs == [] then Cut([], []) else Store(max, CutAll(max, rs[..|rs| - 1]), rs[|rs| - 1])
  }

  /** A block that is full, and was not before its last run: that is, before the input byte that ended that run. */
  ghost predicate Full(max: nat, rs: seq<Run>)
  {
    rs != [] && Size(rs) >= max && Size(rs[..|rs| - 1]) < max
  }

  lemma {:induction false} AllFull(max: nat, rs: seq<Run>)
    requires max > 0
    ensures forall b :: b in CutAll(max, rs).blocks ==> Full(max, b)
    ensures Size(CutAll(max, rs).open) < max
    decreases |rs|
  {
    if rs != [] {
      var c, r := CutAll(max, rs[..|rs| - 1]), rs[|rs| - 1];
      AllFull(max, rs[..|rs| - 1]);
      assert (c.open + [r])[..|c.open|] == c.open;
    }
  }

  function Flat(bs: seq<seq<Run>>): (rs: seq<Run>)
  {
    if bs == [] then [] else Flat(bs[..|bs| - 1]) + bs[|bs| - 1]
  }

  lemma FlatSnoc(bs: seq<seq<Run>>, b: seq<Run>)
    ensures Flat([]) == [] && Flat(bs + [b]) == Flat(bs) + b
  {
    assert (bs + [b])[..|bs|] == bs;
  }

  /** Nothing is lost, and the order is kept. */
  lemma {:induction false} CutKeeps(max: nat, rs: seq<Run>)
    ensures Flat(CutAll(max, rs).blocks) + CutAll(max, rs).open == rs
    decreases |rs|
  {
    hide *;
    FlatSnoc([], []);
    if rs == [] {
      FirstCut(max);
      assert Flat([]) + [] == rs;
    } else {
      Joined(rs);
      CutKeeps(max, Front(rs));
      CutStep(max, rs);
      var c := CutAll(max, Front(rs));
      StoreIs(max, c, Last(rs));
      FlatSnoc(c.blocks, c.open + [Last(rs)]);
      assert Flat(c.blocks) + (c.open + [Last(rs)]) == Flat(c.blocks) + c.open + [Last(rs)];
    }
  }

  function Front(rs: seq<Run>): (f: seq<Run>)
    requires rs != []
  {
    rs[..|rs| - 1]
  }

  function Last(rs: seq<Run>): (r: Run)
    requires rs != []
  {
    rs[|rs| - 1]
  }

  /**
   The blocks of a text: the last run goes to the block that is open, but to the block that it made
   full if it is the last byte alone and that byte was given with the call to finish.
   */
  function BlocksOf(max: nat, text: seq<byte>, late: bool): (bs: seq<seq<Run>>)
  {
    if text == [] then []
    else
      var rs := Split(text);
      var c := CutAll(max, Front(rs));
      if late && Joins(max, text) then c.blocks[..|c.blocks| - 1] + [c.blocks[|c.blocks| - 1] + [Last(rs)]]
      else c.blocks + [c.open + [Last(rs)]]
  }

  /** The last byte begins a run, and with that ends the run that makes a block full. */
  predicate Joins(max: nat, text: seq<byte>)
    ensures Joins(max, text) ==> text != [] && CutAll(max, Front(Split(text))).blocks != []
  {
    text != []
    && var rs := Split(text);
       var c := CutAll(max, Front(rs));
       c.blocks != [] && c.open == [] && Last(rs).len == 1
  }

  // ---------------------------------------------------------------- byte by byte

  /** What is known after the bytes `text`: `done` blocks ended, `runs` in the open one, and the pending run. */
  ghost predicate Following(max: nat, text: seq<byte>, done: seq<seq<Run>>, runs: seq<Run>, pend: seq<Run>)
  {
    if text == [] then done == [] && runs == [] && pend == []
    else
      var rs := Split(text);
      && pend == [Last(rs)]
      && CutAll(max, Front(rs)) == (if Size(runs) >= max then Cut(done + [runs], []) else Cut(done, runs))
      && (Size(runs) >= max ==> Last(rs).len == 1)
  }

  lemma FollowingStart(max: nat)
    ensures Following(max, [], [], [], [])
  {
  }

  lemma SplitMore(text: seq<byte>, c: byte)
    ensures Split(text + [c]) == AddByte(Split(text), c) && Split(text + [c]) != []
  {
    assert (text + [c])[..|text|] == text;
  }

  /** One byte more. */
  lemma FollowingByte(max: nat, text: seq<byte>, done: seq<seq<Run>>, runs: seq<Run>, pend: seq<Run>, c: byte,
                      runs': seq<Run>, pend': seq<Run>)
    requires max > 0 && Following(max, text, done, runs, pend) && Size(runs) < max
    requires |pend'| == 1 && runs' + [pend'[0]] == AddByte(runs + pend, c)
    ensures Following(max, text + [c], done, runs', pend')
    ensures runs' == [] && pend'[0].len == 1 ==> done == []
  {
    hide *;
    SplitMore(text, c);
    FollowingIs(max, text, done, runs, pend);
    FollowingIs(max, text + [c], done, runs', pend');
    Parted(runs', pend'[0], runs + pend, c);
    if text == [] {
      FirstByte(c);
      assert runs + pend == [];
      assert [] + [Run(c, 1)] == [Run(c, 1)];
      Ends([], Run(c, 1));
      FirstCut(max);
    } else {
      Joined(Split(text + [c]));
      Parted(Front(Split(text + [c])), Last(Split(text + [c])), Split(text), c);
      LastLength(text);
      Joined(Split(text));
      assert runs + pend == runs + [Last(Split(text))];
      Ends(runs, Last(Split(text)));
      CutStep(max, Split(text));
      if !Grows(Last(Split(text)), c) {
        StoreIs(max, CutAll(max, Front(Split(text))), Last(Split(text)));
      }
    }
  }

  /** The byte makes the run longer. */
  predicate Grows(r: Run, c: byte)
  {
    r.ch == c && r.len < 255
  }

  lemma FollowingIs(max: nat, text: seq<byte>, done: seq<seq<Run>>, runs: seq<Run>, pend: seq<Run>)
    ensures Following(max, text, done, runs, pend) <==>
              if text == [] then done == [] && runs == [] && pend == []
              else
                && pend == [Last(Split(text))]
                && CutAll(max, Front(Split(text)))
                     == (if Size(runs) >= max then Cut(done + [runs], []) else Cut(done, runs))
                && (Size(runs) >= max ==> Last(Split(text)).len == 1)
  {
    hide Split, Front, Last, CutAll, Size;
  }

  lemma LastLength(text: seq<byte>)
    requires text != []
    ensures Split(text) != [] && Last(Split(text)).len >= 1
  {
    hide Split;
  }

  lemma FirstByte(c: byte)
    ensures Split([]) == [] && AddByte([], c) == [Run(c, 1)]
  {
  }

  lemma FirstCut(max: nat)
    ensures CutAll(max, []) == Cut([], []) && Size([]) == 0
  {
  }

  lemma CutStep(max: nat, rs: seq<Run>)
    requires rs != []
    ensures CutAll(max, rs) == Store(max, CutAll(max, Front(rs)), Last(rs))
  {
    hide Store;
  }

  lemma StoreIs(max: nat, c: Cut, r: Run)
    ensures Store(max, c, r) == if Size(c.open + [r]) >= max then Cut(c.blocks + [c.open + [r]], [])
              else Cut(c.blocks, c.open + [r])
  {
    hide Size;
  }

  lemma Joined(rs: seq<Run>)
    requires rs != []
    ensures rs == Front(rs) + [Last(rs)]
  {
  }

  lemma Ends(runs: seq<Run>, r: Run)
    ensures runs + [r] != [] && Front(runs + [r]) == runs && Last(runs + [r]) == r
  {
  }

  /** The runs after one more byte, from the last one and those before it. */
  lemma Parted(runs: seq<Run>, r: Run, all: seq<Run>, c: byte)
    requires runs + [r] == AddByte(all, c)
    ensures all == [] ==> runs == [] && r == Run(c, 1)
    ensures all != [] ==>
              if Grows(Last(all), c) then runs == Front(all) && r == Run(c, Last(all).len + 1)
              else runs == all && r == Run(c, 1)
  {
    var s := runs + [r];
    assert runs == s[..|runs|] && r == s[|runs|];
  }

  /** A full block is ended. */
  lemma FollowingCut(max: nat, text: seq<byte>, done: seq<seq<Run>>, runs: seq<Run>, pend: seq<Run>)
    requires max > 0 && Following(max, text, done, runs, pend) && Size(runs) >= max
    ensures Following(max, text, done + [runs], [], pend) && Full(max, runs)
  {
    if text != [] {
      AllFull(max, Front(Split(text)));
      assert (done + [runs])[|done|] == runs;
      assert runs in CutAll(max, Front(Split(text))).blocks;
    }
  }

  lemma FullRuns(max: nat, rs: seq<Run>)
    requires Full(max, rs)
    ensures rs != []
  {
  }

  /** The last block. */
  lemma FollowingEnd(max: nat, text: seq<byte>, done: seq<seq<Run>>, runs: seq<Run>, pend: seq<Run>, late: bool)
    requires max > 0 && Following(max, text, done, runs, pend)
    requires late ==> (runs == [] && pend != [] && pend[0].len == 1 ==> done == [])
    requires !late ==> Size(runs) < max
    ensures text == [] ==> BlocksOf(max, text, late) == done
    ensures text != [] ==> BlocksOf(max, text, late) == done + [runs + pend]
  {
    if text != [] && Size(runs) >= max {
      assert (done + [runs])[..|done|] == done;
    }
  }

  // ---------------------------------------------------------------- when it matters how the input was cut

  /** The blocks do not depend on when the last byte was given, but for one case. */
  lemma BlocksSame(max: nat, text: seq<byte>)
    ensures BlocksOf(max, text, true) == BlocksOf(max, text, false) <==> !Joins(max, text)
  {
    if Joins(max, text) {
      var c := CutAll(max, Front(Split(text)));
      assert |BlocksOf(max, text, true)| == |c.blocks| && |BlocksOf(max, text, false)| == |c.blocks| + 1;
    }
  }

  /** Every block but the last is full, and the blocks are the runs of the text. */
  lemma BlocksFull(max: nat, text: seq<byte>, late: bool)
    requires max > 0
    ensures var bs := BlocksOf(max, text, late);
            && Flat(bs) == Split(text) && (text == [] <==> bs == [])
            && forall i :: 0 <= i < |bs| - 1 ==> Full(max, bs[i])
  {
    hide *;
    if text != [] {
      var rs := Split(text);
      var c := CutAll(max, Front(rs));
      AllFull(max, Front(rs));
      CutKeeps(max, Front(rs));
      Joined(rs);
      BlocksIs(max, text, late);
      if late && Joins(max, text) {
        FlatJoin(max, c.blocks, Last(rs));
      } else {
        FlatMore(max, c.blocks, c.open + [Last(rs)]);
      }
    } else {
      NoBlocks(max, late);
    }
  }

  lemma NoBlocks(max: nat, late: bool)
    ensures BlocksOf(max, [], late) == [] && Flat([]) == [] && Split([]) == []
  {
  }

  lemma BlocksIs(max: nat, text: seq<byte>, late: bool)
    requires text != []
    ensures var rs := Split(text);
            var c := CutAll(max, Front(rs));
            && (Joins(max, text) ==> c.blocks != [] && c.open == [])
            && BlocksOf(max, text, late)
               == if late && Joins(max, text) then c.blocks[..|c.blocks| - 1] + [c.blocks[|c.blocks| - 1] + [Last(rs)]]
                  else c.blocks + [c.open + [Last(rs)]]
  {
    hide Split, CutAll, Front, Last;
  }

  lemma FlatMore(max: nat, bs: seq<seq<Run>>, b: seq<Run>)
    requires forall x :: x in bs ==> Full(max, x)
    ensures Flat(bs + [b]) == Flat(bs) + b && forall i :: 0 <= i < |bs + [b]| - 1 ==> Full(max, (bs + [b])[i])
  {
    hide Full;
    assert (bs + [b])[..|bs|] == bs;
  }

  lemma FlatJoin(max: nat, bs: seq<seq<Run>>, r: Run)
    requires bs != [] && forall x :: x in bs ==> Full(max, x)
    ensures var j := bs[..|bs| - 1] + [bs[|bs| - 1] + [r]];
            Flat(j) == Flat(bs) + [r] && forall i :: 0 <= i < |j| - 1 ==> Full(max, j[i])
  {
    hide Full;
    var k := |bs| - 1;
    var j := bs[..k] + [bs[k] + [r]];
    assert j[..k] == bs[..k];
    assert Flat(bs[..k]) + (bs[k] + [r]) == Flat(bs[..k]) + bs[k] + [r];
  }

  // The last byte makes a difference for the text "abab...", one byte longer than a full block.

  function Alternating(n: nat): (s: seq<byte>)
    ensures |s| == n
  {
    seq(n, (i: nat) => 97 + i % 2)
  }

  function Singles(n: nat): (rs: seq<Run>)
    ensures |rs| == n
  {
    seq(n, (i: nat) => Run(97 + i % 2, 1))
  }

  lemma SinglesMore(n: nat)
    ensures Alternating(n + 1) == Alternating(n) + [97 + n % 2] && Singles(n + 1) == Singles(n) + [Run(97 + n % 2, 1)]
  {
  }

  lemma NoneSplit()
    ensures Split([]) == [] && Alternating(0) == [] && Singles(0) == []
  {
  }

  lemma SingleMore(n: nat)
    ensures AddByte(Singles(n), 97 + n % 2) == Singles(n) + [Run(97 + n % 2, 1)]
  {
  }

  lemma {:induction false} SplitAlternating(n: nat)
    ensures Split(Alternating(n)) == Singles(n)
  {
    hide *;
    NoneSplit();
    if n > 0 {
      SplitAlternating(n - 1);
      SinglesMore(n - 1);
      SplitMore(Alternating(n - 1), 97 + (n - 1) % 2);
      SingleMore(n - 1);
    }
  }

  lemma {:induction false} CutSingles(max: nat, n: nat)
    requires n <= max && max > 0
    ensures Size(Singles(n)) == n
    ensures CutAll(max, Singles(n)) == if n < max then Cut([], Singles(n)) else Cut([Singles(n)], [])
  {
    if n > 0 {
      CutSingles(max, n - 1);
      SinglesMore(n - 1);
      assert Singles(n)[..n - 1] == Singles(n - 1);
    }
  }

  /** For every size of block there is a text for which it matters how the last byte is given. */
  lemma AlternatingJoins(max: nat)
    requires max > 0
    ensures Joins(max, Alternating(max + 1))
  {
    SplitAlternating(max + 1);
    SinglesMore(max);
    CutSingles(max, max);
    hide CutAll, Split;
    assert Front(Singles(max + 1)) == Singles(max);
  }
}
