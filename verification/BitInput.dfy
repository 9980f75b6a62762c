/**
 The decoder's bit buffer (GET_BITS, decompress.c lines 43-65): bytes enter a 32-bit word at
 the low end, and the oldest bits are taken first.
 */
module BitInput {

  import opened Words
  import opened BitStrings
  import opened BlockFormat

  /** Only the low bits of a number are written. */
  lemma {:induction false} BitsMod(v: nat, k: nat, n: nat)
    requires n <= k
    ensures Bits(v % Pow2(k), n) == Bits(v, n)
    decreases n
  {
    if n > 0 {
      ModTwice(v, Pow2(k - 1));
      BitsMod(v / 2, k - 1, n - 1);
    }
  }

  lemma ShrByte(b: nat, c: nat)
    requires c < 256
    ensures Shr(256 * b + c, 8) == b
  {
    var v := 256 * b + c;
    assert v / 2 / 2 / 2 / 2 / 2 / 2 / 2 / 2 == b;
    assert Shr(v, 8) == Shr(v / 2 / 2 / 2 / 2, 4) == b;
  }

  /** `bsBuff = (bsBuff << 8) | c` in 32 bits: the waiting bits and the new ones. */
  lemma FetchBits(buff: nat, live: nat, c: nat)
    requires live <= 24 && c < 256
    ensures Bits((256 * buff + c) % WORD, live + 8) == Bits(buff, live) + Bits(c, 8)
  {
    hide Bits, Shr;
    var v := 256 * buff + c;
    Pow2Word();
    BitsMod(v, 32, live + 8);
    BitsConcat(v, live, 8);
    ShrByte(buff, c);
    BitsMod(v, 8, 8);
    assert Pow2(8) == 256 by {
      assert Pow2(4) == 16;
    }
    DivUnique(v, 256, buff, c);
  }

  /** `(bsBuff >> (bsLive - n)) & ((1 << n) - 1)` is the first `n` waiting bits. */
  lemma TakeBits(buff: nat, live: nat, n: nat)
    requires n <= live
    ensures var v := Shr(buff, live - n) % Pow2(n);
            v < Pow2(n) && Bits(buff, live) == Bits(v, n) + Bits(buff, live - n)
  {
    hide Bits, Shr;
    BitsConcat(buff, n, live - n);
    BitsMod(Shr(buff, live - n), n, n);
  }

  lemma {:induction false} BytesConcat(s: seq<nat>, t: seq<nat>)
    ensures BytesBits(s + t) == BytesBits(s) + BytesBits(t)
  {
    if s == [] {
      assert s + t == t;
    } else {
      BytesConcat(s[1..], t);
      assert (s + t)[1..] == s[1..] + t;
      assert Bits(s[0], 8) + (BytesBits(s[1..]) + BytesBits(t)) == Bits(s[0], 8) + BytesBits(s[1..]) + BytesBits(t);
    }
  }

  lemma {:induction false} BytesLength(s: seq<nat>)
    ensures |BytesBits(s)| == 8 * |s|
  {
    if s != [] {
      BytesLength(s[1..]);
    }
  }
}
