/**
 The encoder's bit buffer (compress.c lines 37-101): bits wait at the top of a 32-bit word
 and leave it a byte at a time.
 */
module BitOutput {

  import opened Rotation
  import opened Words
  import opened BitStrings
  import opened BlockFormat

  lemma {:induction false} ShlAdd(u: nat, v: nat, k: nat)
    ensures Shl(u + v, k) == Shl(u, k) + Shl(v, k)
  {
    if k > 0 {
      ShlAdd(u, v, k - 1);
    }
  }

  lemma {:induction false} ShlShl(v: nat, j: nat, k: nat)
    ensures Shl(Shl(v, j), k) == Shl(v, j + k)
  {
    if k > 0 {
      ShlShl(v, j, k - 1);
    }
  }

  lemma {:induction false} ShrShl(v: nat, k: nat, j: nat)
    requires k <= j
    ensures Shr(Shl(v, k), j) == Shr(v, j - k)
  {
    if k > 0 {
      ShrShl(v, k - 1, j - 1);
    }
  }

  lemma {:induction false} ShlBound(v: nat, n: nat, k: nat)
    requires v < Pow2(n)
    ensures Shl(v, k) < Pow2(n + k)
  {
    if k > 0 {
      ShlBound(v, n, k - 1);
    }
  }

  /** `buff` holds the bits `pend` at its top, and zeros below. */
  ghost predicate Holds(buff: nat, pend: seq<bool>)
  {
    |pend| <= 32 && buff == Shl(Value(pend), 32 - |pend|)
  }

  /** `bsBuff >> 24` is the first byte that waits. */
  lemma TopByte(buff: nat, pend: seq<bool>)
    requires Holds(buff, pend) && |pend| >= 8
    ensures Bits(Shr(buff, 24), 8) == pend[..8] && Shr(buff, 24) < 256
  {
    ShrShl(Value(pend), 32 - |pend|, 24);
    ValuePrefix(pend, 8);
    BitsValue(pend[..8]);
    assert Pow2(8) == 256 by {
      assert Pow2(4) == 16;
    }
  }

  /** `bsBuff << 8`, as the 32-bit word keeps it, still holds the others. */
  lemma DropByte(buff: nat, pend: seq<bool>)
    requires Holds(buff, pend) && |pend| >= 8
    ensures Holds(Shl(buff, 8) % Pow2(32), pend[8..])
  {
    hide Shl, Value, Bits, Pow2;
    var n := |pend|;
    var a, b := Value(pend[..8]), Value(pend[8..]);
    ValueConcat(pend[..8], pend[8..]);
    assert pend[..8] + pend[8..] == pend;
    ShlAdd(Shl(a, n - 8), b, 32 - n);
    ShlShl(a, n - 8, 32 - n);
    ShlAdd(Shl(a, 24), Shl(b, 32 - n), 8);
    ShlShl(a, 24, 8);
    ShlShl(b, 32 - n, 8);
    ShlBound(b, n - 8, 40 - n);
    ShlMod(a, Shl(b, 40 - n));
  }

  lemma {:induction false} ShlMod(a: nat, r: nat)
    requires r < Pow2(32)
    ensures (Shl(a, 32) + r) % Pow2(32) == r
  {
    ShlMul(a, 32);
    DivUnique(Shl(a, 32) + r, Pow2(32), a, r);
  }

  lemma {:induction false} ShlMul(a: nat, k: nat)
    ensures Shl(a, k) == a * Pow2(k)
  {
    if k > 0 {
      ShlMul(a, k - 1);
      TwiceMul(a, Pow2(k - 1));
    }
  }

  lemma TwiceMul(a: nat, p: nat)
    ensures 2 * (a * p) == a * (2 * p)
  {
  }

  /** `bsBuff |= v << (32 - bsLive - n)`; the bits set do not meet, so the sum is the union. */
  lemma AddBits(buff: nat, pend: seq<bool>, v: nat, n: nat)
    requires Holds(buff, pend) && |pend| + n <= 32 && v < Pow2(n)
    ensures Holds(buff + Shl(v, 32 - |pend| - n), pend + Bits(v, n))
  {
    hide Shl, Value, Bits, Pow2;
    ValueConcat(pend, Bits(v, n));
    ValueBits(v, n);
    var k := 32 - |pend| - n;
    ShlAdd(Shl(Value(pend), n), v, k);
    ShlShl(Value(pend), n, k);
  }

  class BitWriter {
    var zbits: seq<byte>
    var bsBuff: nat
    var bsLive: int
    ghost var pend: seq<bool>

    ghost predicate Valid()
      reads this
    {
      Holds(bsBuff, pend) && bsLive == |pend|
    }

    /** All bits written so far, those that wait included. */
    ghost function Contents(): (b: seq<bool>)
      reads this
    {
      BytesBits(zbits) + pend
    }

    constructor ()
      ensures Valid() && Contents() == [] && zbits == []
    {
      zbits, bsBuff, bsLive, pend := [], 0, 0, [];
      new;
      ShlZero(32);
    }

    lemma Parts()
      ensures Valid() <==> Holds(bsBuff, pend) && bsLive == |pend|
      ensures Contents() == BytesBits(zbits) + pend
      ensures Valid() ==> |pend| <= 32
    {
      hide BytesBits;
    }

    /** The next byte leaves the buffer. */
    method PutByte()
      requires Valid() && bsLive >= 8
      modifies this
      ensures Valid() && Contents() == old(Contents()) && bsLive == old(bsLive) - 8 && |zbits| == |old(zbits)| + 1
      ensures old(zbits) <= zbits
    {
      hide *;
      Parts();
      TopByte(bsBuff, pend);
      DropByte(bsBuff, pend);
      BytesAppend(zbits, Shr(bsBuff, 24));
      assert BytesBits(zbits) + pend == BytesBits(zbits) + pend[..8] + pend[8..] by {
        assert pend[..8] + pend[8..] == pend;
        assert BytesBits(zbits) + (pend[..8] + pend[8..]) == BytesBits(zbits) + pend[..8] + pend[8..];
      }
      zbits := zbits + [Shr(bsBuff, 24)];
      bsBuff := Shl(bsBuff, 8) % Pow2(32);
      bsLive := bsLive - 8;
      pend := pend[8..];
      Parts();
    }

    /** `bsW`: appends the `n` bits of `v`. */
    method W(n: nat, v: nat)
      requires Valid() && n <= 24 && v < Pow2(n)
      modifies this
      ensures Valid() && Contents() == old(Contents()) + Bits(v, n) && old(zbits) <= zbits
    {
      hide *;
      ghost var before := Contents();
      while bsLive >= 8
        invariant Valid() && Contents() == before && old(zbits) <= zbits
        decreases bsLive
      {
        PutByte();
      }
      Parts();
      AddBits(bsBuff, pend, v, n);
      assert BytesBits(zbits) + (pend + Bits(v, n)) == BytesBits(zbits) + pend + Bits(v, n);
      bsBuff := bsBuff + Shl(v, 32 - bsLive - n);
      bsLive := bsLive + n;
      pend := pend + Bits(v, n);
      Parts();
    }

    /** `bsFinishWrite`: the last byte is filled with zeros. */
    method Finish()
      requires Valid()
      modifies this
      ensures bsLive <= 0 && old(zbits) <= zbits
      ensures exists pad: seq<bool> :: |pad| < 8 && Clear(pad) && BytesBits(zbits) == old(Contents()) + pad
    {
      hide *;
      ghost var before := Contents();
      while bsLive >= 8
        invariant Valid() && Contents() == before && old(zbits) <= zbits
        decreases bsLive
      {
        PutByte();
      }
      Parts();
      ghost var pad: seq<bool> := [];
      ClearNone();
      if bsLive > 0 {
        PadByte(bsBuff, pend);
        BytesAppend(zbits, Shr(bsBuff, 24));
        pad := Bits(0, 8 - |pend|);
        ClearBits(8 - |pend|);
        assert BytesBits(zbits) + (pend + pad) == BytesBits(zbits) + pend + pad;
        zbits := zbits + [Shr(bsBuff, 24)];
        bsBuff := Shl(bsBuff, 8) % Pow2(32);
        bsLive := bsLive - 8;
      }
      assert BytesBits(zbits) == before + pad;
    }
  }

  /** Only zero bits. */
  ghost predicate Clear(s: seq<bool>)
  {
    forall i :: 0 <= i < |s| ==> !s[i]
  }

  lemma ClearNone()
    ensures Clear([])
  {
  }

  lemma {:induction false} ClearBits(n: nat)
    ensures Clear(Bits(0, n))
  {
    if n > 0 {
      ClearBits(n - 1);
    }
  }

  lemma {:induction false} ShlZero(k: nat)
    ensures Shl(0, k) == 0
  {
    if k > 0 {
      ShlZero(k - 1);
    }
  }

  lemma {:induction false} BytesAppend(s: seq<nat>, v: nat)
    ensures BytesBits(s + [v]) == BytesBits(s) + Bits(v, 8)
  {
    if s == [] {
      assert [] + [v] == [v] && [v][1..] == [];
      assert BytesBits([v]) == Bits(v, 8) + BytesBits([]);
    } else {
      BytesAppend(s[1..], v);
      assert (s + [v])[1..] == s[1..] + [v];
      assert Bits(s[0], 8) + (BytesBits(s[1..]) + Bits(v, 8)) == Bits(s[0], 8) + BytesBits(s[1..]) + Bits(v, 8);
    }
  }

  /** The last byte, padded. */
  lemma PadByte(buff: nat, pend: seq<bool>)
    requires Holds(buff, pend) && |pend| < 8
    ensures Bits(Shr(buff, 24), 8) == pend + Bits(0, 8 - |pend|) && Shr(buff, 24) < 256
  {
    var k := 8 - |pend|;
    Pow2Positive(k);
    AddBits(buff, pend, 0, k);
    ShlZero(32 - |pend| - k);
    TopByte(buff, pend + Bits(0, k));
    assert (pend + Bits(0, k))[..8] == pend + Bits(0, k);
  }

  lemma Pow2Positive(k: nat)
    ensures 0 < Pow2(k)
  {
  }
}
