/**
 Writing out a block (bzlib.c lines 577-846): the run-length decoding loops of FAST and SMALL
 decompression, with and without randomisation, which stop whenever the output buffer is full.
 */
module Unrle {

  import opened Rotation
  import opened Mtf
  import opened RunLength
  import opened Crc
  import opened Parser
  import opened Stream
  import opened BlockReader

  /**
   `used` symbols of `x` were fetched, the last of them is the start of the next run; `done`
   was written and `len` times `ch` are due.
   */
  ghost predicate Expanding(x: seq<byte>, used: nat, done: seq<byte>, len: nat, ch: byte)
  {
    1 <= used
    && if used <= |x| + 1 then
         && (Expandable(x) <==> Expandable(x[used - 1..]))
         && (Expandable(x) ==> Expand(x) == done + Repeat(ch, len) + Expand(x[used - 1..]))
       else !Expandable(x)
  }

  lemma ExpandingStart(x: seq<byte>, ch: byte)
    ensures Expanding(x, 1, [], 0, ch)
  {
    assert x[0..] == x;
    assert Expandable(x) ==> [] + Repeat(ch, 0) + Expand(x) == Expand(x);
  }

  /** What the run that starts at symbol `u - 1` is, in terms of its symbols. */
  ghost predicate RunFrom(x: seq<byte>, u: nat, done: seq<byte>)
  {
    && 1 <= u <= |x|
    && var y := x[u - 1..];
    && (Lead(y) < 4 ==> Expanding(x, u + Lead(y), done, Lead(y), y[0]))
    && (Lead(y) == 4 && |y| >= 5 ==> Expanding(x, u + 5, done, y[4] as nat + 4, y[0]))
    && (Lead(y) == 4 && |y| == 4 ==> Expanding(x, u + 5, done, 0, y[0]))
  }

  /** The next run, by how many equal symbols start it. */
  lemma ExpandingRun(x: seq<byte>, used: nat, done: seq<byte>, ch: byte)
    requires Expanding(x, used, done, 0, ch) && used <= |x|
    ensures RunFrom(x, used, done)
  {
    hide *;
    ExpandingFacts(x, used, done, ch);
    var y := x[used - 1..];
    LeadBounds(y);
    ExpandStep(y);
    if Lead(y) < 4 {
      assert y[Lead(y)..] == x[used + Lead(y) - 1..];
      if Expandable(x) {
        assert done + (Repeat(y[0], Lead(y)) + Expand(y[Lead(y)..]))
            == done + Repeat(y[0], Lead(y)) + Expand(y[Lead(y)..]);
      }
      IsExpanding(x, used + Lead(y), done, Lead(y), y[0]);
    } else if |y| >= 5 {
      assert y[5..] == x[used + 4..];
      if Expandable(x) {
        assert done + (Repeat(y[0], y[4] as nat + 4) + Expand(y[5..]))
            == done + Repeat(y[0], y[4] as nat + 4) + Expand(y[5..]);
      }
      IsExpanding(x, used + 5, done, y[4] as nat + 4, y[0]);
    } else {
      IsExpanding(x, used + 5, done, 0, y[0]);
    }
    IsRunFrom(x, used, done);
  }

  lemma ExpandingFacts(x: seq<byte>, used: nat, done: seq<byte>, ch: byte)
    requires Expanding(x, used, done, 0, ch) && used <= |x|
    ensures 1 <= used && (Expandable(x) <==> Expandable(x[used - 1..]))
    ensures Expandable(x) ==> Expand(x) == done + Expand(x[used - 1..])
  {
    hide Expandable, Expand;
    assert done + Repeat(ch, 0) == done;
  }

  lemma LeadBounds(y: seq<byte>)
    requires y != []
    ensures 1 <= Lead(y) <= 4 && Lead(y) <= |y|
  {
    hide Lead;
  }

  lemma ExpandStep(y: seq<byte>)
    requires y != []
    ensures Lead(y) < 4 ==> (Expandable(y) <==> Expandable(y[Lead(y)..]))
    ensures Lead(y) < 4 && Expandable(y) ==> Expand(y) == Repeat(y[0], Lead(y)) + Expand(y[Lead(y)..])
    ensures Lead(y) == 4 ==> (Expandable(y) <==> |y| >= 5 && Expandable(y[5..]))
    ensures Lead(y) == 4 && Expandable(y) ==> Expand(y) == Repeat(y[0], y[4] as nat + 4) + Expand(y[5..])
  {
    hide Lead, Repeat;
  }

  lemma IsExpanding(x: seq<byte>, used: nat, done: seq<byte>, len: nat, ch: byte)
    requires 1 <= used
    requires used <= |x| + 1 ==> (Expandable(x) <==> Expandable(x[used - 1..]))
    requires used <= |x| + 1 && Expandable(x) ==> Expand(x) == done + Repeat(ch, len) + Expand(x[used - 1..])
    requires used > |x| + 1 ==> !Expandable(x)
    ensures Expanding(x, used, done, len, ch)
  {
    hide Expandable, Expand, Repeat;
  }

  lemma IsRunFrom(x: seq<byte>, u: nat, done: seq<byte>)
    requires 1 <= u <= |x|
    requires var y := x[u - 1..];
      && 1 <= Lead(y) <= 4
      && (Lead(y) < 4 ==> Expanding(x, u + Lead(y), done, Lead(y), y[0]))
      && (Lead(y) == 4 && |y| >= 5 ==> Expanding(x, u + 5, done, y[4] as nat + 4, y[0]))
      && (Lead(y) == 4 && |y| == 4 ==> Expanding(x, u + 5, done, 0, y[0]))
    ensures RunFrom(x, u, done)
  {
    hide Expanding, Lead;
  }

  lemma {:induction false} RepeatFront(c: byte, n: nat)
    requires n > 0
    ensures Repeat(c, n) == [c] + Repeat(c, n - 1)
  {
    if n > 1 {
      RepeatFront(c, n - 1);
    }
  }

  /** One byte of the run is written. */
  lemma ExpandingByte(x: seq<byte>, used: nat, done: seq<byte>, len: nat, ch: byte)
    requires Expanding(x, used, done, len, ch) && len > 0
    ensures Expanding(x, used, done + [ch], len - 1, ch)
  {
    hide Expand, Expandable, Repeat;
    RepeatFront(ch, len);
    assert done + ([ch] + Repeat(ch, len - 1)) == done + [ch] + Repeat(ch, len - 1);
  }

  lemma CrcSizes()
    ensures INITIAL >= 0
  {
  }

  lemma ColumnFits(head: Head, column: seq<byte>, rNums: seq<nat>)
    requires head.origPtr < |column| && Numbers(rNums)
    ensures |Restored(head, column, rNums)| == |column|
  {
  }

  class Expander {
    const table: seq<nat>
    const reader: BlockReader
    const saveNblock: nat
    ghost const x: seq<byte>
    var nblockUsed: nat
    var k0: byte
    var stateOutLen: nat
    var stateOutCh: byte
    var crc: nat
    ghost var done: seq<byte>

    /** The objects that an expander consists of. */
    ghost function Owns(): (s: set<object>)
    {
      {this, reader, reader.tt, reader.ll.ll16, reader.ll.ll4, reader.cftab}
    }

    lemma OwnsIs()
      ensures Owns() == {this, reader, reader.tt, reader.ll.ll16, reader.ll.ll4, reader.cftab}
    {
    }

    /** The reader is as far as `nblockUsed` says, in the right block. */
    ghost predicate Reading()
      reads this`nblockUsed, this`k0, reader, reader.tt, reader.ll.ll16, reader.ll.ll4, reader.cftab
    {
      && reader.Valid() && reader.k == nblockUsed && saveNblock == |reader.column| == |x| && |table| == 256
      && reader.head.origPtr < |reader.column| && Numbers(reader.rNums)
      && x == Restored(reader.head, reader.column, reader.rNums)
      && (1 <= nblockUsed <= saveNblock ==> k0 == x[nblockUsed - 1])
    }

    ghost predicate Valid()
      reads this, reader, reader.tt, reader.ll.ll16, reader.ll.ll4, reader.cftab
    {
      && Reading() && nblockUsed <= saveNblock + 2
      && Expanding(x, nblockUsed, done, stateOutLen, stateOutCh)
      && crc == UpdateAll(table, INITIAL, done) && crc < 0x1_0000_0000
    }

    /** The whole block is written. */
    predicate Finished()
      reads this
    {
      nblockUsed == saveNblock + 1 && stateOutLen == 0
    }

    /** The symbol `k`, if the block has it, is symbol `k` of the block's bytes. */
    method Fetch() returns (corrupt: bool, c: byte)
      requires NextReading()
      modifies reader`tPos, reader`rand, reader`k
      ensures !corrupt && reader.Valid() && reader.k == nblockUsed + 1
      ensures nblockUsed < saveNblock ==> |x| == saveNblock && c == x[nblockUsed]
    {
      hide Restored, Fetched;
      corrupt, c := reader.Get();
    }

    /** The end of BZ2_decompress for a block: the first symbol is fetched. */
    constructor (small: bool, level: nat, data: Data, head: Head, column: seq<byte>)
      requires GoodData(data) && head.origPtr < |column| <= 100000 * level && level <= 9
      ensures Valid() && fresh(Owns())
      ensures table == data.crcTable && x == Restored(head, column, data.rNums) && done == [] && |x| > 0
    {
      hide *;
      DataFacts(data);
      CrcSizes();
      var r := new BlockReader(small, level, data.rNums, head, column);
      reader := r;
      table := data.crcTable;
      saveNblock := |column|;
      x := Restored(head, column, data.rNums);
      nblockUsed, k0, stateOutLen, stateOutCh := 0, 0, 0, 0;
      crc, done := INITIAL, [];
      new;
      ColumnFits(head, column, data.rNums);
      IsNextReading();
      var corrupt;
      corrupt, k0 := Fetch();
      nblockUsed := 1;
      IsReading();
      ExpandingStart(x, 0);
      CrcStart();
      IsValid();
      OwnsIs();
    }

    lemma IsReading()
      requires reader.Valid() && reader.k == nblockUsed && saveNblock == |reader.column| == |x| && |table| == 256
      requires reader.head.origPtr < |reader.column| && Numbers(reader.rNums)
      requires x == Restored(reader.head, reader.column, reader.rNums)
      requires 1 <= nblockUsed <= saveNblock ==> k0 == x[nblockUsed - 1]
      ensures Reading()
    {
    }

    lemma ReadingFacts()
      requires Reading()
      ensures reader.Valid() && reader.k == nblockUsed && saveNblock == |reader.column| == |x| && |table| == 256
      ensures reader.head.origPtr < |reader.column| && Numbers(reader.rNums)
      ensures x == Restored(reader.head, reader.column, reader.rNums)
      ensures 1 <= nblockUsed <= saveNblock ==> k0 == x[nblockUsed - 1]
    {
    }

    lemma CrcStart()
      requires |table| == 256
      ensures INITIAL == UpdateAll(table, INITIAL, []) && INITIAL < 0x1_0000_0000
    {
    }

    lemma IsValid()
      requires Reading() && nblockUsed <= saveNblock + 2 && Expanding(x, nblockUsed, done, stateOutLen, stateOutCh)
      requires crc == UpdateAll(table, INITIAL, done) && crc < 0x1_0000_0000
      ensures Valid()
    {
    }

    lemma ValidFacts()
      requires Valid()
      ensures Reading() && 1 <= nblockUsed <= saveNblock + 2 && Expanding(x, nblockUsed, done, stateOutLen, stateOutCh)
      ensures crc == UpdateAll(table, INITIAL, done) && crc < 0x1_0000_0000 && |table| == 256 && |x| == saveNblock
    {
    }

    /** Another fetch, counted. */
    method GetNext() returns (corrupt: bool, k1: byte)
      requires NextReading()
      modifies this`nblockUsed, reader`tPos, reader`rand, reader`k
      ensures !corrupt && nblockUsed == old(nblockUsed) + 1
      ensures old(nblockUsed) < saveNblock ==> |x| == saveNblock && k1 == x[old(nblockUsed)]
      ensures NextReading()
    {
      hide *;
      NextReadingFacts();
      corrupt, k1 := Fetch();
      nblockUsed := nblockUsed + 1;
      IsNextReading();
    }

    lemma NextReadingFacts()
      requires NextReading()
      ensures reader.Valid() && reader.k == nblockUsed && saveNblock == |reader.column| == |x| && |table| == 256
      ensures reader.head.origPtr < |reader.column| && Numbers(reader.rNums)
      ensures x == Restored(reader.head, reader.column, reader.rNums)
    {
    }

    /** As `Reading`, but for `k0`. */
    ghost predicate NextReading()
      reads this`nblockUsed, reader, reader.tt, reader.ll.ll16, reader.ll.ll4, reader.cftab
    {
      && reader.Valid() && reader.k == nblockUsed && saveNblock == |reader.column| == |x| && |table| == 256
      && reader.head.origPtr < |reader.column| && Numbers(reader.rNums)
      && x == Restored(reader.head, reader.column, reader.rNums)
    }

    lemma IsNextReading()
      requires reader.Valid() && reader.k == nblockUsed && saveNblock == |reader.column| == |x| && |table| == 256
      requires reader.head.origPtr < |reader.column| && Numbers(reader.rNums)
      requires x == Restored(reader.head, reader.column, reader.rNums)
      ensures NextReading()
    {
    }

    lemma NowReading()
      requires NextReading() && (1 <= nblockUsed <= saveNblock ==> |x| == saveNblock && k0 == x[nblockUsed - 1])
      ensures Reading()
    {
    }

    // ---------------------------------------------------------------- runs

    lemma StartRun()
      requires Valid() && stateOutLen == 0 && nblockUsed <= saveNblock
      ensures 1 <= nblockUsed && |x| == saveNblock && NextReading() && k0 == x[nblockUsed - 1] && |table| == 256
      ensures crc == UpdateAll(table, INITIAL, done) && crc < 0x1_0000_0000
      ensures RunFrom(x, nblockUsed, done)
    {
      hide *;
      ValidFacts();
      ReadingFacts();
      IsNextReading();
      ExpandingRun(x, nblockUsed, done, stateOutCh);
    }

    lemma EndRun(u: nat)
      requires NextReading() && |x| == saveNblock && |table| == 256 && 1 <= u <= saveNblock && RunFrom(x, u, done)
      requires crc == UpdateAll(table, INITIAL, done) && crc < 0x1_0000_0000 && stateOutCh == x[u - 1]
      requires 1 <= nblockUsed <= saveNblock ==> k0 == x[nblockUsed - 1]
      requires RunIs(x, u, nblockUsed, stateOutLen)
      ensures Valid() && nblockUsed > u
    {
      hide UpdateAll, Restored, Expanding;
      RunEnds(x, u, done, nblockUsed, stateOutLen);
      NowReading();
      hide *;
      IsValid();
    }

    /**
     The start of a new run: up to three equal symbols, or four and a count.  FAST compares
     symbols before it looks for the end of the block, the other loops after.
     */
    method NextRun(fast: bool) returns (corrupt: bool)
      requires Valid() && stateOutLen == 0 && nblockUsed <= saveNblock
      modifies this`nblockUsed, this`k0, this`stateOutLen, this`stateOutCh, reader`tPos, reader`rand, reader`k
      ensures !corrupt && Valid() && nblockUsed > old(nblockUsed)
    {
      hide *;
      ghost var u := nblockUsed;
      StartRun();
      var k1;
      stateOutLen := 1;
      stateOutCh := k0;
      while stateOutLen < 4
        invariant 1 <= stateOutLen <= 4 && nblockUsed == u + stateOutLen - 1 <= saveNblock && NextReading()
        invariant k0 == stateOutCh == x[u - 1]
        invariant forall i :: u <= i < u + stateOutLen - 1 ==> x[i] == x[u - 1]
        decreases 4 - stateOutLen
      {
        corrupt, k1 := GetNext();
        if corrupt {
          return;
        }
        var ended := nblockUsed == saveNblock + 1;
        if fast && k1 != k0 {
          k0 := k1;
          RunShort(x, u, stateOutLen);
          EndRun(u);
          return;
        }
        if ended {
          RunShort(x, u, stateOutLen);
          EndRun(u);
          return;
        }
        if k1 != k0 {
          k0 := k1;
          RunShort(x, u, stateOutLen);
          EndRun(u);
          return;
        }
        stateOutLen := stateOutLen + 1;
      }
      corrupt, k1 := GetNext();
      if corrupt {
        return;
      }
      stateOutLen := k1 as nat + 4;
      corrupt, k1 := GetNext();
      if corrupt {
        return;
      }
      k0 := k1;
      RunLong(x, u, stateOutLen);
      EndRun(u);
    }

    // ---------------------------------------------------------------- writing

    lemma EmitCrc()
      requires |table| == 256 && crc == UpdateAll(table, INITIAL, done)
      ensures UpdateAll(table, INITIAL, done + [stateOutCh]) == Update(table, crc, stateOutCh) < 0x1_0000_0000
    {
      UpdateOne(table, INITIAL, done, stateOutCh);
    }

    /** One byte of the current run. */
    method Emit() returns (c: byte)
      requires Valid() && stateOutLen > 0
      modifies this`stateOutLen, this`crc, this`done
      ensures Valid() && c == stateOutCh && done == old(done) + [c] && stateOutLen == old(stateOutLen) - 1
    {
      hide *;
      ValidFacts();
      ExpandingByte(x, nblockUsed, done, stateOutLen, stateOutCh);
      EmitCrc();
      c := stateOutCh;
      crc := Update(table, crc, c);
      stateOutLen := stateOutLen - 1;
      done := done + [c];
      IsValid();
    }

    lemma CorruptMeans()
      requires Valid() && nblockUsed > saveNblock + 1
      ensures !Expandable(x)
    {
      hide Expandable;
    }

    /**
     unRLE_obuf_to_output_SMALL, and the randomised half of FAST: writes at most `room` bytes,
     and stops early only at the end of the block.
     */
    method WriteGeneral(room: nat) returns (corrupt: bool, piece: seq<byte>)
      requires Valid()
      modifies this`nblockUsed, this`k0, this`stateOutLen, this`stateOutCh, this`crc, this`done, reader`tPos
      modifies reader`rand, reader`k
      ensures Valid() && done == old(done) + piece && |piece| <= room
      ensures corrupt ==> !Expandable(x)
      ensures !corrupt ==> |piece| == room || Finished()
    {
      hide *;
      ValidFacts();
      piece := [];
      assert done + piece == done;
      while true
        invariant Valid() && done == old(done) + piece && |piece| <= room && nblockUsed <= saveNblock + 2
        decreases saveNblock + 2 - nblockUsed
      {
        ValidFacts();
        var u := nblockUsed;
        while true
          invariant Valid() && done == old(done) + piece && |piece| <= room && nblockUsed == u
          decreases stateOutLen
        {
          if |piece| == room {
            return false, piece;
          }
          if stateOutLen == 0 {
            break;
          }
          var c := Emit();
          piece := piece + [c];
        }
        if nblockUsed == saveNblock + 1 {
          IsFinished();
          return false, piece;
        }
        if nblockUsed > saveNblock + 1 {
          CorruptMeans();
          return true, piece;
        }
        corrupt := NextRun(false);
        if corrupt {
          return;
        }
        ValidFacts();
      }
    }

    lemma IsFinished()
      ensures Finished() <==> nblockUsed == saveNblock + 1 && stateOutLen == 0
    {
    }

    /**
     The half of unRLE_obuf_to_output_FAST without randomisation.  Its jump into the middle of
     the loop for a run of one byte is the next round with that length.
     */
    method WriteFast(room: nat) returns (corrupt: bool, piece: seq<byte>)
      requires Valid()
      modifies this`nblockUsed, this`k0, this`stateOutLen, this`stateOutCh, this`crc, this`done, reader`tPos
      modifies reader`rand, reader`k
      ensures Valid() && done == old(done) + piece && |piece| <= room
      ensures corrupt ==> !Expandable(x)
      ensures !corrupt ==> |piece| == room || Finished()
    {
      hide *;
      ValidFacts();
      piece := [];
      assert done + piece == done;
      while true
        invariant Valid() && done == old(done) + piece && |piece| <= room && nblockUsed <= saveNblock + 2
        decreases saveNblock + 2 - nblockUsed
      {
        ValidFacts();
        var u := nblockUsed;
        if stateOutLen > 0 {
          while true
            invariant Valid() && done == old(done) + piece && |piece| <= room && nblockUsed == u && stateOutLen > 0
            decreases stateOutLen
          {
            if |piece| == room {
              return false, piece;
            }
            if stateOutLen == 1 {
              break;
            }
            var c := Emit();
            piece := piece + [c];
          }
          var c := Emit();
          piece := piece + [c];
        }
        if nblockUsed > saveNblock + 1 {
          CorruptMeans();
          return true, piece;
        }
        if nblockUsed == saveNblock + 1 {
          IsFinished();
          return false, piece;
        }
        corrupt := NextRun(true);
        if corrupt {
          return;
        }
        ValidFacts();
      }
    }

    method Write(room: nat) returns (corrupt: bool, piece: seq<byte>)
      requires Valid()
      modifies this`nblockUsed, this`k0, this`stateOutLen, this`stateOutCh, this`crc, this`done, reader`tPos
      modifies reader`rand, reader`k
      ensures Valid() && done == old(done) + piece && |piece| <= room
      ensures corrupt ==> !Expandable(x)
      ensures !corrupt ==> |piece| == room || Finished()
    {
      hide *;
      if reader.small || reader.randomised {
        corrupt, piece := WriteGeneral(room);
      } else {
        corrupt, piece := WriteFast(room);
      }
    }

    /** What is known of a block that is written: its bytes are all there is. */
    lemma FinishedMeans()
      requires Valid() && Finished()
      ensures Expandable(x) && Expand(x) == done
    {
      assert x[|x|..] == [];
      assert Expand([]) == [] && Repeat(stateOutCh, 0) == [] && done + [] + [] == done;
    }

    lemma CrcIs()
      requires Valid()
      ensures |table| == 256 && crc < 0x1_0000_0000 && Finalise(crc) == BlockCrcOf(table, done)
    {
    }

    /** What is written is always the beginning of the block's bytes. */
    lemma DoneIsPrefix()
      requires Valid() && Expandable(x)
      ensures done <= Expand(x)
    {
      hide Restored, Expandable;
    }
  }

  /** `used` symbols later the run is over, with length `len`. */
  ghost predicate RunIs(x: seq<byte>, u: nat, used: nat, len: nat)
  {
    && 1 <= u <= |x|
    && var y := x[u - 1..];
    && (Lead(y) < 4 ==> used == u + Lead(y) && len == Lead(y))
    && (Lead(y) == 4 ==> used == u + 5 && (|y| >= 5 ==> len == y[4] as nat + 4))
  }

  lemma RunShort(x: seq<byte>, u: nat, len: nat)
    requires 1 <= u <= |x| && 1 <= len <= 3 && u + len - 1 <= |x|
    requires forall i :: u <= i < u + len - 1 ==> x[i] == x[u - 1]
    requires u + len - 1 == |x| || x[u + len - 1] != x[u - 1]
    ensures RunIs(x, u, u + len, len)
  {
    var y := x[u - 1..];
    assert forall i :: 0 <= i < |y| ==> y[i] == x[u - 1 + i];
  }

  lemma RunLong(x: seq<byte>, u: nat, len: nat)
    requires 1 <= u && u + 3 <= |x| && forall i :: u <= i < u + 3 ==> x[i] == x[u - 1]
    requires u + 3 < |x| ==> len == x[u + 3] as nat + 4
    ensures RunIs(x, u, u + 5, len)
  {
    var y := x[u - 1..];
    assert forall i :: 0 <= i < |y| ==> y[i] == x[u - 1 + i];
  }

  lemma RunEnds(x: seq<byte>, u: nat, done: seq<byte>, used: nat, len: nat)
    requires RunFrom(x, u, done) && RunIs(x, u, used, len)
    ensures Expanding(x, used, done, len, x[u - 1]) && u < used <= |x| + 2
  {
    hide Expandable, Expand, Repeat;
  }
}
