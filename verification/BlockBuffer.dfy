/**
 Filling a block (bzlib.c lines 125-292): the pending run, the stored bytes, the bytes in use
 and the checksum.
 */
module BlockBuffer {

  import opened Rotation
  import opened Mtf
  import opened RunLength
  import opened Crc

  /** The run that is still growing. */
  function Pending(ch: nat, len: nat): (rs: seq<Run>)
  {
    if ch < 256 then [Run(ch, len)] else []
  }

  /** The block holds the runs `rs`, and no more. */
  ghost predicate Collected(table: seq<nat>, stored: seq<nat>, inUse: seq<bool>, crc: nat, rs: seq<Run>)
  {
    && |table| == 256 && |inUse| == 256 && Runs(rs) && stored == StoredAll(rs)
    && crc == UpdateAll(table, INITIAL, OriginalAll(rs)) && crc < 0x1_0000_0000
    && (forall c :: 0 <= c < 256 ==> (inUse[c] <==> c in stored))
  }

  /** The bytes in use after a run was stored. */
  function MarkUsed(inUse: seq<bool>, r: Run): (u: seq<bool>)
    requires |inUse| == 256 && 1 <= r.len <= 255
    ensures |u| == 256
  {
    if r.len < 4 then inUse[r.ch := true] else inUse[r.ch := true][r.len - 4 := true]
  }

  lemma PrefixConcat<T>(s: seq<T>, t: seq<T>)
    requires t != []
    ensures (s + t)[..|s + t| - 1] == s + t[..|t| - 1]
  {
  }

  lemma {:induction false} UpdateConcat(table: seq<nat>, crc: nat, s: seq<byte>, t: seq<byte>)
    requires |table| == 256
    ensures UpdateAll(table, crc, s + t) == UpdateAll(table, UpdateAll(table, crc, s), t)
    decreases |t|
  {
    if t == [] {
      assert s + t == s;
    } else {
      UpdateConcat(table, crc, s, t[..|t| - 1]);
      PrefixConcat(s, t);
    }
  }

  lemma UsedMore(stored: seq<nat>, inUse: seq<bool>, r: Run)
    requires |inUse| == 256 && 1 <= r.len <= 255 && forall c :: 0 <= c < 256 ==> (inUse[c] <==> c in stored)
    ensures forall c :: 0 <= c < 256 ==> (MarkUsed(inUse, r)[c] <==> c in stored + Stored(r))
  {
    var s := Stored(r);
    assert s[0] == r.ch && (r.len >= 4 ==> s[4] == r.len - 4);
    forall c | 0 <= c < 256 ensures c in s <==> c == r.ch || (r.len >= 4 && c == r.len - 4) {
    }
  }

  lemma CollectedMore(table: seq<nat>, stored: seq<nat>, inUse: seq<bool>, crc: nat, rs: seq<Run>, r: Run)
    requires Collected(table, stored, inUse, crc, rs) && Runs(rs + [r]) && 1 <= r.len <= 255
    ensures Collected(table, stored + Stored(r), MarkUsed(inUse, r), UpdateAll(table, crc, Original(r)), rs + [r])
  {
    hide Runs, Update, UpdateAll, Stored, StoredAll, Original, OriginalAll, MarkUsed;
    StoredAppend(rs, r);
    OriginalAppend(rs, r);
    UpdateConcat(table, INITIAL, OriginalAll(rs), Original(r));
    UsedMore(stored, inUse, r);
  }

  class BlockBuffer {
    const table: seq<nat>
    const block: array<nat>
    const inUse: array<bool>
    var nblock: nat
    var blockCRC: nat
    var stateInCh: nat
    var stateInLen: nat
    ghost var runs: seq<Run>

    /** All runs of the block, the pending one included. */
    ghost function All(): (rs: seq<Run>)
      reads this
    {
      runs + Pending(stateInCh, stateInLen)
    }

    /** The block holds what its runs say. */
    ghost predicate Filled()
      reads this`nblock, this`blockCRC, this`runs, block, inUse
    {
      && inUse.Length == 256 && nblock <= block.Length
      && Collected(table, block[..nblock], inUse[..], blockCRC, runs)
    }

    ghost predicate Valid()
      reads this, block, inUse
    {
      && Filled() && Runs(All())
      && (if stateInCh < 256 then 1 <= stateInLen <= 255 else stateInCh == 256 && stateInLen == 0)
    }

    /** isempty_RL */
    predicate Empty()
      reads this
    {
      !(stateInCh < 256 && stateInLen > 0)
    }

    constructor (capacity: nat, table0: seq<nat>)
      requires |table0| == 256
      ensures Valid() && fresh(block) && fresh(inUse) && block.Length == capacity && table == table0
      ensures All() == [] && runs == [] && nblock == 0 && Empty()
    {
      table := table0;
      block := new nat[capacity];
      inUse := new bool[256](_ => false);
      nblock, blockCRC, stateInCh, stateInLen := 0, INITIAL, 256, 0;
      runs := [];
    }

    /** prepare_new_block: the pending run stays. */
    method Prepare()
      requires Valid()
      modifies this, inUse
      ensures Valid() && runs == [] && nblock == 0 && stateInCh == old(stateInCh) && stateInLen == old(stateInLen)
    {
      hide *;
      ghost var pend := Pending(stateInCh, stateInLen);
      ValidFacts();
      RunsParts(runs, pend);
      assert [] + pend == pend;
      for i := 0 to 256
        invariant forall c :: 0 <= c < i ==> !inUse[c]
        invariant stateInCh == old(stateInCh) && stateInLen == old(stateInLen)
      {
        inUse[i] := false;
      }
      nblock := 0;
      blockCRC := INITIAL;
      runs := [];
      assert block[..0] == [];
      CollectedNone(table, inUse[..]);
      IsFilled();
      IsValid(pend);
    }

    method Store(v: byte)
      requires nblock < block.Length
      modifies this, block
      ensures blockCRC == old(blockCRC) && stateInCh == old(stateInCh) && stateInLen == old(stateInLen)
      ensures runs == old(runs)
      ensures nblock == old(nblock) + 1 <= block.Length && block[..nblock] == old(block[..nblock]) + [v]
    {
      block[nblock] := v;
      nblock := nblock + 1;
    }

    method StoreCopies(ch: byte, n: nat)
      requires nblock + n <= block.Length
      modifies this, block
      ensures blockCRC == old(blockCRC) && stateInCh == old(stateInCh) && stateInLen == old(stateInLen)
      ensures runs == old(runs)
      ensures nblock == old(nblock) + n <= block.Length && block[..nblock] == old(block[..nblock]) + Repeat(ch, n)
    {
      ghost var before: seq<nat> := block[..nblock];
      assert before + Repeat(ch, 0) == before;
      for i := 0 to n
        invariant blockCRC == old(blockCRC) && stateInCh == old(stateInCh) && stateInLen == old(stateInLen)
        invariant runs == old(runs)
        invariant nblock == old(nblock) + i && block[..nblock] == before + Repeat(ch, i)
      {
        assert before + Repeat(ch, i + 1) == before + Repeat(ch, i) + [ch];
        Store(ch);
      }
    }

    /** The checksum of a run. */
    method Check(r: Run)
      requires |table| == 256
      modifies this`blockCRC
      ensures blockCRC == UpdateAll(table, old(blockCRC), Original(r))
    {
      assert Repeat(r.ch, 0) == [];
      for i := 0 to r.len
        invariant blockCRC == UpdateAll(table, old(blockCRC), Repeat(r.ch, i))
      {
        StepCrc(old(blockCRC), r.ch, i);
        blockCRC := Update(table, blockCRC, r.ch);
      }
    }

    lemma StepCrc(crc: nat, ch: byte, i: nat)
      requires |table| == 256
      ensures UpdateAll(table, crc, Repeat(ch, i + 1)) == Update(table, UpdateAll(table, crc, Repeat(ch, i)), ch)
    {
      UpdateOne(table, crc, Repeat(ch, i), ch);
    }

    lemma CollectedNone(table: seq<nat>, inUse: seq<bool>)
      requires |table| == 256 && |inUse| == 256 && forall c :: 0 <= c < 256 ==> !inUse[c]
      ensures Collected(table, [], inUse, INITIAL, [])
    {
    }

    lemma PairParts(ch: byte, len: nat, used: seq<bool>)
      requires |used| == 256 && 1 <= len <= 255
      ensures Stored(Run(ch, len)) == if len < 4 then Repeat(ch, len) else Repeat(ch, 4) + [len - 4]
      ensures MarkUsed(used, Run(ch, len)) == if len < 4 then used[ch := true] else used[ch := true][len - 4 := true]
    {
    }

    /** add_pair_to_block: stores the pending run, which remains pending. */
    method AddPair()
      requires inUse.Length == 256 && nblock + 5 <= block.Length && |table| == 256
      requires stateInCh < 256 && 1 <= stateInLen <= 255
      modifies this, block, inUse
      ensures stateInCh == old(stateInCh) && stateInLen == old(stateInLen) && runs == old(runs)
      ensures nblock <= block.Length && old(nblock) <= nblock <= old(nblock) + 5
      ensures block[..nblock] == old(block[..nblock]) + Stored(Run(stateInCh, stateInLen))
      ensures inUse[..] == MarkUsed(old(inUse[..]), Run(stateInCh, stateInLen))
      ensures blockCRC == UpdateAll(table, old(blockCRC), Original(Run(stateInCh, stateInLen)))
    {
      hide *;
      var ch: byte := stateInCh;
      ghost var before: seq<nat>, used := block[..nblock], inUse[..];
      PairParts(ch, stateInLen, used);
      Check(Run(ch, stateInLen));
      inUse[ch] := true;
      assert inUse[..] == used[ch := true];
      if stateInLen < 4 {
        StoreCopies(ch, stateInLen);
      } else {
        inUse[stateInLen - 4] := true;
        assert inUse[..] == used[ch := true][stateInLen - 4 := true];
        StoreCopies(ch, 4);
        Store(stateInLen - 4);
        assert before + Repeat(ch, 4) + [stateInLen - 4] == before + (Repeat(ch, 4) + [stateInLen - 4]);
      }
    }

    /** Stores the pending run, and accounts for it. */
    method StorePending()
      requires Filled() && Runs(All()) && stateInCh < 256 && 1 <= stateInLen <= 255 && nblock + 5 <= block.Length
      modifies this, block, inUse
      ensures stateInCh == old(stateInCh) && stateInLen == old(stateInLen)
      ensures Filled() && runs == old(All()) && old(nblock) <= nblock <= old(nblock) + 5
    {
      hide *;
      FilledFacts();
      ghost var stored: seq<nat>, used, crc, r := block[..nblock], inUse[..], blockCRC, Run(stateInCh, stateInLen);
      ghost var all := runs + [r];
      AllIs();
      CollectedMore(table, stored, used, crc, runs, r);
      CollectedTable(table, stored, used, crc, runs);
      AddPair();
      runs := all;
      IsFilled();
    }

    lemma ValidFacts()
      requires Valid()
      ensures Filled() && Runs(All()) && All() == runs + Pending(stateInCh, stateInLen) && inUse.Length == 256
      ensures |table| == 256 && INITIAL >= 0
      ensures if stateInCh < 256 then 1 <= stateInLen <= 255 else stateInCh == 256 && stateInLen == 0
    {
      hide Runs;
    }

    lemma FilledFacts()
      requires Filled()
      ensures inUse.Length == 256 && nblock <= block.Length
      ensures Collected(table, block[..nblock], inUse[..], blockCRC, runs)
    {
    }

    lemma AllIs()
      ensures All() == runs + (if stateInCh < 256 then [Run(stateInCh, stateInLen)] else [])
    {
    }

    lemma NothingPends()
      ensures stateInCh >= 256 ==> All() == runs
    {
    }

    lemma IsFilled()
      requires inUse.Length == 256 && nblock <= block.Length
      requires Collected(table, block[..nblock], inUse[..], blockCRC, runs)
      ensures Filled()
    {
    }

    /** The state from its parts. */
    lemma IsValid(all: seq<Run>)
      requires Filled() && Runs(all) && all == runs + Pending(stateInCh, stateInLen)
      requires if stateInCh < 256 then 1 <= stateInLen <= 255 else stateInCh == 256 && stateInLen == 0
      ensures Valid() && All() == all
    {
    }

    /** flush_RL */
    method Flush()
      requires Valid() && nblock + 5 <= block.Length
      modifies this, block, inUse
      ensures Valid() && runs == old(All()) && Empty() && nblock <= old(nblock) + 5
    {
      hide Collected, Runs;
      if stateInCh < 256 {
        StorePending();
      } else {
        assert runs + [] == runs;
      }
      stateInCh := 256;
      stateInLen := 0;
      assert runs + [] == runs;
    }

    /** The pending run, if any, is stored, and a new one starts. */
    method StartRun(zchh: byte)
      requires Valid() && nblock + 5 <= block.Length && Runs(All() + Pending(zchh, 1)) && (Empty() ==> runs == [])
      modifies this, block, inUse
      ensures Valid() && All() == old(All()) + Pending(zchh, 1) && stateInCh == zchh && stateInLen == 1
      ensures old(nblock) <= nblock <= old(nblock) + 5
    {
      hide *;
      ghost var all := All();
      ValidFacts();
      NothingPends();
      if stateInCh < 256 {
        StorePending();
      }
      stateInCh := zchh;
      stateInLen := 1;
      IsValid(all + Pending(zchh, 1));
    }

    /** ADD_CHAR_TO_BLOCK, of which the first branch is a shortcut for the second. */
    method AddChar(zchh: byte)
      requires Valid() && nblock + 5 <= block.Length && (Empty() ==> runs == [])
      modifies this, block, inUse
      ensures Valid() && All() == AddByte(old(All()), zchh) && !Empty()
      ensures old(nblock) <= nblock <= old(nblock) + 5
    {
      AddByteRuns(All(), zchh);
      AddByteParts(runs, stateInCh, stateInLen, zchh);
      hide AddByte, Runs, Filled, StoredAll, Collected;
      if zchh != stateInCh && stateInLen == 1 {
        StartRun(zchh);
      } else if zchh != stateInCh || stateInLen == 255 {
        StartRun(zchh);
      } else {
        stateInLen := stateInLen + 1;
      }
    }
  }

  lemma CollectedTable(table: seq<nat>, stored: seq<nat>, inUse: seq<bool>, crc: nat, rs: seq<Run>)
    requires Collected(table, stored, inUse, crc, rs)
    ensures |table| == 256 && |inUse| == 256
  {
  }

  lemma AddByteParts(runs: seq<Run>, ch: nat, len: nat, c: byte)
    requires Runs(runs + Pending(ch, len)) && (if ch < 256 then 1 <= len <= 255 else len == 0 && runs == [])
    ensures var all := runs + Pending(ch, len);
            && AddByte(all, c) == (if ch == c && len < 255 then runs + Pending(c, len + 1) else all + Pending(c, 1))
            && (ch >= 256 ==> all == runs)
  {
    var all := runs + Pending(ch, len);
    if ch < 256 {
      assert all[..|all| - 1] == runs;
    } else {
      assert all == runs;
    }
  }
}
