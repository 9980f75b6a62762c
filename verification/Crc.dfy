/**
 Block and stream checksums (bzlib_private.h lines 174-190, compress.c lines 608-610 and
 bzlib.c lines 866-868), for any table of 256 words.
 */
module Crc {

  import opened Rotation
  import opened Words

  /** The low `k` bits of `a ^ b`. */
  function Xor(a: nat, b: nat, k: nat): (r: nat)
    ensures r < Pow2(k)
    decreases k
  {
    if k == 0 then 0 else (if a % 2 == b % 2 then 0 else 1) + 2 * Xor(a / 2, b / 2, k - 1)
  }

  lemma Pow2Sizes()
    ensures Pow2(8) == 256 && Pow2(32) == 0x1_0000_0000
  {
    assert Pow2(4) == 16;
    Pow2Word();
  }

  function Xor8(a: nat, b: nat): (r: nat)
    ensures r < 256
  {
    Pow2Sizes(); Xor(a, b, 8)
  }

  function Xor32(a: nat, b: nat): (r: nat)
    ensures r < 0x1_0000_0000
  {
    Pow2Sizes(); Xor(a, b, 32)
  }

  /** BZ_UPDATE_CRC */
  function Update(table: seq<nat>, crc: nat, ch: byte): (r: nat)
    requires |table| == 256
    ensures r < 0x1_0000_0000
  {
    Xor32(crc % 0x100_0000 * 256, table[Xor8(crc / 0x100_0000, ch)])
  }

  function UpdateAll(table: seq<nat>, crc: nat, s: seq<byte>): (r: nat)
    requires |table| == 256
    ensures crc < 0x1_0000_0000 ==> r < 0x1_0000_0000
  {
    if s == [] then crc else Update(table, UpdateAll(table, crc, s[..|s| - 1]), s[|s| - 1])
  }

  const INITIAL: nat := 0xffff_ffff

  /** `~crc` in 32 bits */
  function Finalise(crc: nat): (r: nat)
    requires crc < 0x1_0000_0000
    ensures r < 0x1_0000_0000
  {
    0xffff_ffff - crc
  }

  /** The checksum of a block's bytes. */
  function BlockCrcOf(table: seq<nat>, s: seq<byte>): (r: nat)
    requires |table| == 256
    ensures r < 0x1_0000_0000
  {
    Finalise(UpdateAll(table, INITIAL, s))
  }

  /** The stream's checksum after one more block. */
  function Combine(combined: nat, crc: nat): (r: nat)
    ensures r < 0x1_0000_0000
  {
    Xor32(combined * 2 % 0x1_0000_0000 + combined / 0x8000_0000, crc)
  }

  lemma UpdateOne(table: seq<nat>, crc: nat, s: seq<byte>, ch: byte)
    requires |table| == 256
    ensures UpdateAll(table, crc, s + [ch]) == Update(table, UpdateAll(table, crc, s), ch)
  {
    assert (s + [ch])[..|s|] == s;
  }
}
