/**
 What the checksums of bzlib_private.h lines 164-182 are: with the table of remainders of a
 polynomial, the checksum of a text is the complement of a remainder of the text; and what two
 checksums that agree say about what was summed.
 */
module CrcPolynomial {

  import opened Rotation
  import opened Words
  import opened BitStrings
  import opened BlockFormat
  import BitInput
  import opened Crc

  // ---------------------------------------------------------------- bits

  function XorBits(a: seq<bool>, b: seq<bool>): (c: seq<bool>)
    requires |a| == |b|
    ensures |c| == |a| && forall i :: 0 <= i < |a| ==> c[i] == (a[i] != b[i])
  {
    seq(|a|, i requires 0 <= i < |a| => a[i] != b[i])
  }

  function Same(x: bool, n: nat): (s: seq<bool>)
    ensures |s| == n && forall i :: 0 <= i < n ==> s[i] == x
  {
    seq(n, _ => x)
  }

  function Zeros(n: nat): (s: seq<bool>)
    ensures |s| == n && forall i :: 0 <= i < n ==> !s[i]
  {
    Same(false, n)
  }

  /** `a ^ b`, bit by bit. */
  lemma {:induction false} XorIs(a: nat, b: nat, k: nat)
    ensures Bits(Xor(a, b, k), k) == XorBits(Bits(a, k), Bits(b, k))
  {
    if k > 0 {
      XorIs(a / 2, b / 2, k - 1);
      var x := Xor(a, b, k);
      assert x / 2 == Xor(a / 2, b / 2, k - 1) && x % 2 == if a % 2 == b % 2 then 0 else 1;
      assert Bits(x, k) == Bits(x / 2, k - 1) + [x % 2 == 1];
    }
  }

  lemma {:induction false} ShrPow2(v: nat, n: nat)
    ensures Shr(v, n) == v / Pow2(n)
  {
    if n > 0 {
      ShrPow2(v / 2, n - 1);
      DivTwiceOther(v, Pow2(n - 1));
    }
  }

  lemma DivTwiceOther(v: nat, d: nat)
    requires d >= 1
    ensures v / 2 / d == v / (2 * d)
  {
    DivMod(v / 2, d);
    var q, r := v / 2 / d, v / 2 % d;
    assert v == q * (2 * d) + (2 * r + v % 2) by {
      MulTwice(q, 0, d);
    }
    DivUnique(v, 2 * d, q, 2 * r + v % 2);
  }

  lemma {:induction false} BitsZero(n: nat)
    ensures Bits(0, n) == Zeros(n)
  {
    if n > 0 {
      BitsZero(n - 1);
    }
  }

  lemma {:induction false} BitsOnes(n: nat)
    ensures Bits(Pow2(n) - 1, n) == Same(true, n)
  {
    if n > 0 {
      BitsOnes(n - 1);
    }
  }

  /** The bits of a number that is shifted up. */
  lemma {:induction false} BitsShifted(v: nat, n: nat, k: nat)
    ensures Bits(v * Pow2(k), n + k) == Bits(v, n) + Zeros(k)
    decreases k
  {
    if k > 0 {
      BitsShifted(v, n, k - 1);
      assert v * Pow2(k) == 2 * (v * Pow2(k - 1));
    }
  }

  /** Equal bits of numbers that fit mean equal numbers. */
  lemma BitsDiffer(a: nat, b: nat, n: nat)
    requires a < Pow2(n) && b < Pow2(n) && Bits(a, n) == Bits(b, n)
    ensures a == b
  {
    ValueBits(a, n);
    ValueBits(b, n);
  }

  // ---------------------------------------------------------------- polynomials over two elements

  /** A polynomial is its coefficients, the highest first; the divisor is x ** |p| + p. */
  function Reduce(p: seq<bool>, r: seq<bool>, b: bool): (s: seq<bool>)
    requires |r| == |p| > 0
    ensures |s| == |p|
  {
    XorBits(r[1..] + [b], if r[0] then p else Zeros(|p|))
  }

  /** Division goes on from remainder `r` with more coefficients. */
  function Divide(p: seq<bool>, r: seq<bool>, bits: seq<bool>): (s: seq<bool>)
    requires |r| == |p| > 0
    ensures |s| == |p|
  {
    if bits == [] then r else Reduce(p, Divide(p, r, bits[..|bits| - 1]), bits[|bits| - 1])
  }

  function Remainder(p: seq<bool>, bits: seq<bool>): (s: seq<bool>)
    requires |p| > 0
    ensures |s| == |p|
  {
    Divide(p, Zeros(|p|), bits)
  }

  /** The product of two polynomials. */
  function Product(q: seq<bool>, d: seq<bool>): (s: seq<bool>)
    requires d != []
    ensures |s| == |q| + |d| - 1
  {
    if q == [] then Zeros(|d| - 1)
    else
      var n := |q| - 1;
      XorBits(Product(q[..n], d) + [false], Zeros(n) + if q[n] then d else Zeros(|d|))
  }

  lemma {:induction false} DivideConcat(p: seq<bool>, r: seq<bool>, a: seq<bool>, b: seq<bool>)
    requires |r| == |p| > 0
    ensures Divide(p, r, a + b) == Divide(p, Divide(p, r, a), b)
    decreases |b|
  {
    hide *;
    DivideStep(p, Divide(p, r, a), b);
    if b == [] {
      assert a + b == a;
    } else {
      DivideConcat(p, r, a, b[..|b| - 1]);
      DivideStep(p, r, a + b);
      assert (a + b)[..|a + b| - 1] == a + b[..|b| - 1];
    }
  }

  lemma ReduceZero(p: seq<bool>, r: seq<bool>, b: bool)
    requires |r| == |p| > 0 && !r[0]
    ensures Reduce(p, r, b) == r[1..] + [b]
  {
  }

  /** As long as the high coefficients are zero, coefficients only move up. */
  lemma {:induction false} DivideMoves(p: seq<bool>, r: seq<bool>, bits: seq<bool>)
    requires |r| == |p| > 0 && |bits| <= |p| && r[..|bits|] == Zeros(|bits|)
    ensures Divide(p, r, bits) == r[|bits|..] + bits
    decreases |bits|
  {
    hide *;
    DivideStep(p, r, bits);
    if bits != [] {
      var n := |bits| - 1;
      assert r[..n] == r[..|bits|][..n] == Zeros(n);
      DivideMoves(p, r, bits[..n]);
      assert r[n] == r[..|bits|][n] == false;
      ReduceZero(p, r[n..] + bits[..n], bits[n]);
      assert (r[n..] + bits[..n])[1..] + [bits[n]] == r[|bits|..] + bits;
    } else {
      assert r[0..] + [] == r;
    }
  }

  /** Leading zeros do not count, and less than the divisor is its own remainder. */
  lemma RemainderShort(p: seq<bool>, n: nat, bits: seq<bool>)
    requires |p| > 0 && |bits| == |p|
    ensures Remainder(p, Zeros(n) + bits) == bits
  {
    hide *;
    RemainderIs(p, Zeros(n));
    RemainderIs(p, Zeros(n) + bits);
    RemainderZeros(p, n);
    DivideConcat(p, Zeros(|p|), Zeros(n), bits);
    assert Zeros(|p|)[..|bits|] == Zeros(|bits|);
    DivideMoves(p, Zeros(|p|), bits);
    assert Zeros(|p|)[|bits|..] + bits == bits;
  }

  lemma {:induction false} RemainderZeros(p: seq<bool>, n: nat)
    requires |p| > 0
    ensures Remainder(p, Zeros(n)) == Zeros(|p|)
  {
    hide *;
    RemainderIs(p, Zeros(n));
    if n > 0 {
      RemainderZeros(p, n - 1);
      RemainderIs(p, Zeros(n - 1));
      DivideZero(p, Zeros(|p|), n - 1);
      ReduceZero(p, Zeros(|p|), false);
      assert Zeros(|p|)[1..] + [false] == Zeros(|p|);
    } else {
      DivideStep(p, Zeros(|p|), Zeros(0));
    }
  }

  lemma DivideStep(p: seq<bool>, r: seq<bool>, a: seq<bool>)
    requires |r| == |p| > 0
    ensures Divide(p, r, a) == if a == [] then r else Reduce(p, Divide(p, r, a[..|a| - 1]), a[|a| - 1])
  {
  }

  lemma ReduceXor(p: seq<bool>, r: seq<bool>, s: seq<bool>, a: bool, b: bool)
    requires |r| == |s| == |p| > 0
    ensures Reduce(p, XorBits(r, s), a != b) == XorBits(Reduce(p, r, a), Reduce(p, s, b))
  {
  }

  /** Division is linear. */
  lemma {:induction false} DivideXor(p: seq<bool>, r: seq<bool>, s: seq<bool>, a: seq<bool>, b: seq<bool>)
    requires |r| == |s| == |p| > 0 && |a| == |b|
    ensures Divide(p, XorBits(r, s), XorBits(a, b)) == XorBits(Divide(p, r, a), Divide(p, s, b))
    decreases |a|
  {
    hide *;
    DivideStep(p, r, a);
    DivideStep(p, s, b);
    DivideStep(p, XorBits(r, s), XorBits(a, b));
    if a != [] {
      var n := |a| - 1;
      DivideXor(p, r, s, a[..n], b[..n]);
      assert XorBits(a, b)[..n] == XorBits(a[..n], b[..n]);
      ReduceXor(p, Divide(p, r, a[..n]), Divide(p, s, b[..n]), a[n], b[n]);
    }
  }

  /** A remainder is one: with some quotient, the product with the divisor and the remainder add up to the dividend. */
  lemma {:induction false} Division(p: seq<bool>, bits: seq<bool>) returns (q: seq<bool>)
    requires |p| > 0 && |bits| >= |p|
    ensures |q| == |bits| - |p|
    ensures bits == XorBits(Product(q, [true] + p), Zeros(|q|) + Remainder(p, bits))
    decreases |bits|
  {
    hide *;
    var n := |bits| - 1;
    if |bits| == |p| {
      q := [];
      assert Zeros(0) + bits == bits;
      RemainderShort(p, 0, bits);
      NoProduct([true] + p);
      assert bits == XorBits(Zeros(|p|), bits);
    } else {
      var b, r := bits[..n], Remainder(p, bits[..n]);
      var q0 := Division(p, b);
      q := q0 + [r[0]];
      ProductMore(q0, r[0], [true] + p);
      RemainderMore(p, b, bits[n]);
      assert bits == b + [bits[n]];
      DivisionStep(p, Product(q0, [true] + p), r, bits[n], |q0|);
    }
  }

  lemma NoProduct(d: seq<bool>)
    requires d != []
    ensures Product([], d) == Zeros(|d| - 1)
  {
  }

  lemma ProductMore(q: seq<bool>, x: bool, d: seq<bool>)
    requires d != []
    ensures Product(q + [x], d) == XorBits(Product(q, d) + [false], Zeros(|q|) + if x then d else Zeros(|d|))
  {
    assert (q + [x])[..|q|] == q;
  }

  lemma RemainderMore(p: seq<bool>, b: seq<bool>, x: bool)
    requires |p| > 0
    ensures Remainder(p, b + [x]) == Reduce(p, Remainder(p, b), x)
  {
    assert (b + [x])[..|b|] == b;
  }

  /** One more coefficient of the dividend, one more of the quotient. */
  lemma DivisionStep(p: seq<bool>, product: seq<bool>, r: seq<bool>, x: bool, n: nat)
    requires |r| == |p| > 0 && |product| == n + |p|
    ensures var d := [true] + p;
            XorBits(product, Zeros(n) + r) + [x]
            == XorBits(XorBits(product + [false], Zeros(n) + if r[0] then d else Zeros(|d|)),
                       Zeros(n + 1) + Reduce(p, r, x))
  {
    var d := [true] + p;
    var lhs := XorBits(product, Zeros(n) + r) + [x];
    var rhs := XorBits(XorBits(product + [false], Zeros(n) + if r[0] then d else Zeros(|d|)),
                       Zeros(n + 1) + Reduce(p, r, x));
    forall i | 0 <= i < |lhs| ensures lhs[i] == rhs[i] {
      if i > n {
        assert Reduce(p, r, x)[i - n - 1] == ((r[1..] + [x])[i - n - 1] != (if r[0] then p else Zeros(|p|))[i - n - 1]);
      }
    }
  }

  // ---------------------------------------------------------------- the table and one byte

  /** The remainders of the 256 polynomials of degree below 8, times x ** 32. */
  ghost predicate IsTable(p: seq<bool>, table: seq<nat>)
    requires |p| == 32
  {
    |table| == 256 && forall i :: 0 <= i < 256 ==>
        table[i] < Pow2(32) && Bits(table[i], 32) == Remainder(p, Bits(i, 8) + Zeros(32))
  }

  lemma EntryAt(p: seq<bool>, table: seq<nat>, i: nat)
    requires |p| == 32 && IsTable(p, table) && i < 256
    ensures |table| == 256 && Bits(table[i], 32) == Remainder(p, Bits(i, 8) + Zeros(32))
  {
    hide Bits, Remainder, Zeros;
  }

  lemma RemainderIs(p: seq<bool>, bits: seq<bool>)
    requires |p| > 0
    ensures Remainder(p, bits) == Divide(p, Zeros(|p|), bits)
  {
    hide Divide;
  }

  /** An entry is what eight steps make of its number at the top. */
  lemma EntryIs(p: seq<bool>, table: seq<nat>, i: nat)
    requires |p| == 32 && IsTable(p, table) && i < 256
    ensures Bits(table[i], 32) == Divide(p, Bits(i, 8) + Zeros(24), Zeros(8))
  {
    hide *;
    EntryAt(p, table, i);
    var x := Bits(i, 8) + Zeros(24);
    assert Bits(i, 8) + Zeros(32) == x + Zeros(8);
    RemainderIs(p, x);
    RemainderIs(p, x + Zeros(8));
    DivideConcat(p, Zeros(32), x, Zeros(8));
    RemainderShort(p, 0, x);
    assert Zeros(0) + x == x;
  }

  lemma Sizes()
    ensures Pow2(8) == 256 && Pow2(24) == 0x100_0000 && Pow2(32) == 0x1_0000_0000
  {
    Pow2Sizes();
    Pow2Add(8, 8);
    Pow2Add(16, 8);
  }

  /** A word from its high byte and the other three. */
  lemma WordParts(crc: nat)
    requires crc < 0x1_0000_0000
    ensures Bits(crc, 32) == Bits(crc / 0x100_0000, 8) + Bits(crc, 24)
    ensures Bits(crc % 0x100_0000 * 256, 32) == Bits(crc, 24) + Zeros(8)
  {
    Sizes();
    BitsConcat(crc, 8, 24);
    ShrPow2(crc, 24);
    BitsShifted(crc % 0x100_0000, 24, 8);
    ValueLow(crc, 24);
    ValueLow(crc % 0x100_0000, 24);
    BitsValue(Bits(crc, 24));
    BitsValue(Bits(crc % 0x100_0000, 24));
  }

  lemma UpdateBits(table: seq<nat>, crc: nat, ch: byte)
    requires |table| == 256 && crc < 0x1_0000_0000
    ensures var i := Xor8(crc / 0x100_0000, ch);
            && Bits(i, 8) == XorBits(Bits(crc / 0x100_0000, 8), Bits(ch, 8))
            && Bits(Update(table, crc, ch), 32) == XorBits(Bits(crc, 24) + Zeros(8), Bits(table[i], 32))
  {
    var i := Xor8(crc / 0x100_0000, ch);
    WordParts(crc);
    XorIs(crc / 0x100_0000, ch, 8);
    XorIs(crc % 0x100_0000 * 256, table[i], 32);
  }

  /** There is such a table, and only one. */
  ghost function TableOf(p: seq<bool>): (table: seq<nat>)
    requires |p| == 32
    ensures IsTable(p, table) && forall t :: IsTable(p, t) ==> t == table
  {
    var table := seq(256, i requires 0 <= i < 256 => Value(Remainder(p, Bits(i, 8) + Zeros(32))));
    TableIs(p, table);
    forall t | IsTable(p, t) ensures t == table {
      TablesAgree(p, t, table);
    }
    table
  }

  lemma TableIs(p: seq<bool>, table: seq<nat>)
    requires |p| == 32 && |table| == 256
    requires forall i :: 0 <= i < 256 ==> table[i] == Value(Remainder(p, Bits(i, 8) + Zeros(32)))
    ensures IsTable(p, table)
  {
    hide Remainder, Bits, Zeros, Value, Pow2;
    forall i | 0 <= i < 256
      ensures table[i] < Pow2(32) && Bits(table[i], 32) == Remainder(p, Bits(i, 8) + Zeros(32))
    {
      BitsValue(Remainder(p, Bits(i, 8) + Zeros(32)));
    }
  }

  lemma TablesAgree(p: seq<bool>, s: seq<nat>, t: seq<nat>)
    requires |p| == 32 && IsTable(p, s) && IsTable(p, t)
    ensures s == t
  {
    hide Remainder, Bits, Zeros, Pow2;
    forall i | 0 <= i < 256 ensures s[i] == t[i] {
      BitsDiffer(s[i], t[i], 32);
    }
  }

  /** The polynomial is its second entry, and the first is 0. */
  lemma FirstEntries(p: nat, table: seq<nat>)
    requires p < 0x1_0000_0000 && IsTable(Bits(p, 32), table)
    ensures |table| == 256 && table[0] == 0 && table[1] == p
  {
    hide *;
    Sizes();
    TableSize(Bits(p, 32), table);
    EntryFits(Bits(p, 32), table, 0);
    EntryFits(Bits(p, 32), table, 1);
    EntryIs(Bits(p, 32), table, 0);
    EntryIs(Bits(p, 32), table, 1);
    BitsZero(8);
    BitsZero(32);
    OneBits();
    assert Zeros(8) + Zeros(24) == Zeros(32);
    NoneDivided(Bits(p, 32), 8);
    OneShifted(Bits(p, 32), 7);
    OneTaken(Bits(p, 32));
    BitsDiffer(table[0], 0, 32);
    BitsDiffer(table[1], p, 32);
  }

  lemma EntryFits(p: seq<bool>, table: seq<nat>, i: nat)
    requires |p| == 32 && IsTable(p, table) && i < 256
    ensures |table| == 256 && table[i] < Pow2(32)
  {
    hide Bits, Remainder, Zeros, Pow2;
  }

  /** A single coefficient, at place `k`. */
  function One(k: nat): (s: seq<bool>)
    ensures |s| == 32 && forall i :: 0 <= i < 32 ==> (s[i] <==> i == k)
  {
    seq(32, i => i == k)
  }

  lemma OneBits()
    ensures Bits(1, 8) + Zeros(24) == One(7)
  {
    assert Bits(1, 8) == Bits(0, 7) + [true];
    BitsZero(7);
    hide Bits;
  }

  lemma NoneDivided(p: seq<bool>, k: nat)
    requires |p| == 32
    ensures Divide(p, Zeros(32), Zeros(k)) == Zeros(32)
  {
    hide *;
    RemainderZeros(p, k);
    RemainderIs(p, Zeros(k));
  }

  lemma {:induction false} OneShifted(p: seq<bool>, k: nat)
    requires |p| == 32 && k <= 7
    ensures Divide(p, One(7), Zeros(k)) == One(7 - k)
  {
    hide *;
    if k > 0 {
      OneShifted(p, k - 1);
      DivideZero(p, One(7), k - 1);
      ReduceZero(p, One(8 - k), false);
      assert One(8 - k)[1..] + [false] == One(7 - k);
    } else {
      DivideStep(p, One(7), Zeros(0));
    }
  }

  lemma DivideZero(p: seq<bool>, r: seq<bool>, k: nat)
    requires |r| == |p| > 0
    ensures Divide(p, r, Zeros(k + 1)) == Reduce(p, Divide(p, r, Zeros(k)), false)
  {
    hide Reduce;
    assert Zeros(k + 1)[..k] == Zeros(k);
  }

  lemma OneReduced(p: seq<bool>)
    requires |p| == 32
    ensures Reduce(p, One(0), false) == p
  {
    assert One(0)[1..] + [false] == Zeros(32);
    assert XorBits(Zeros(32), p) == p;
  }

  lemma OneTaken(p: seq<bool>)
    requires |p| == 32 && Divide(p, One(7), Zeros(7)) == One(0)
    ensures Divide(p, One(7), Zeros(8)) == p
  {
    hide *;
    DivideZero(p, One(7), 7);
    OneReduced(p);
  }

  /** BZ_UPDATE_CRC is eight steps of the division, with the byte added at the top. */
  lemma UpdateDivides(p: seq<bool>, table: seq<nat>, crc: nat, ch: byte)
    requires |p| == 32 && IsTable(p, table) && crc < 0x1_0000_0000
    ensures Bits(Update(table, crc, ch), 32) == Divide(p, XorBits(Bits(crc, 32), Bits(ch, 8) + Zeros(24)), Zeros(8))
  {
    hide *;
    TableSize(p, table);
    var i := Xor8(crc / 0x100_0000, ch);
    UpdateBits(table, crc, ch);
    WordParts(crc);
    EntryIs(p, table, i);
    ByteIn(p, Bits(i, 8), Bits(crc / 0x100_0000, 8), Bits(crc, 24), Bits(ch, 8));
  }

  lemma TableSize(p: seq<bool>, table: seq<nat>)
    requires |p| == 32 && IsTable(p, table)
    ensures |table| == 256
  {
    hide Bits, Remainder, Zeros;
  }

  /** The division of a word to which a byte was added at the top, in two parts. */
  lemma ByteIn(p: seq<bool>, i: seq<bool>, high: seq<bool>, low: seq<bool>, c: seq<bool>)
    requires |p| == 32 && |high| == |c| == |i| == 8 && |low| == 24 && i == XorBits(high, c)
    ensures XorBits(low + Zeros(8), Divide(p, i + Zeros(24), Zeros(8)))
            == Divide(p, XorBits(high + low, c + Zeros(24)), Zeros(8))
  {
    hide *;
    assert (Zeros(8) + low)[..8] == Zeros(8);
    DivideMoves(p, Zeros(8) + low, Zeros(8));
    assert (Zeros(8) + low)[8..] + Zeros(8) == low + Zeros(8);
    DivideXor(p, i + Zeros(24), Zeros(8) + low, Zeros(8), Zeros(8));
    assert XorBits(Zeros(8), Zeros(8)) == Zeros(8);
    assert XorBits(i + Zeros(24), Zeros(8) + low) == XorBits(high + low, c + Zeros(24));
    var a, b := low + Zeros(8), Divide(p, i + Zeros(24), Zeros(8));
    assert XorBits(a, b) == XorBits(b, a);
  }

  // ---------------------------------------------------------------- whole texts

  /** The text's bits and 32 zeros, with the start added to the first 32. */
  function Message(start: seq<bool>, s: seq<byte>): (b: seq<bool>)
    requires |start| == 32
  {
    BitInput.BytesLength(s);
    XorBits(BytesBits(s) + Zeros(32), start + Zeros(8 * |s|))
  }

  lemma MessageMore(start: seq<bool>, s: seq<byte>, ch: byte)
    requires |start| == 32
    ensures |Message(start, s)| == 8 * |s| + 32
    ensures Message(start, s + [ch])
              == XorBits(Message(start, s) + Zeros(8), Zeros(8 * |s|) + (Bits(ch, 8) + Zeros(24) + Zeros(8)))
  {
    BitInput.BytesLength(s);
    BitInput.BytesLength(s + [ch]);
    BitInput.BytesConcat(s, [ch]);
    assert BytesBits([ch]) == Bits(ch, 8) + BytesBits([ch][1..]) == Bits(ch, 8);
    hide Bits, BytesBits;
    var a, b := Message(start, s + [ch]),
                XorBits(Message(start, s) + Zeros(8), Zeros(8 * |s|) + (Bits(ch, 8) + Zeros(24) + Zeros(8)));
    forall i | 0 <= i < |a| ensures a[i] == b[i] {
    }
  }

  /** The checksum of a text is a remainder. */
  lemma {:induction false} UpdateAllDivides(p: seq<bool>, table: seq<nat>, crc: nat, s: seq<byte>)
    requires |p| == 32 && IsTable(p, table) && crc < 0x1_0000_0000
    ensures Bits(UpdateAll(table, crc, s), 32) == Remainder(p, Message(Bits(crc, 32), s))
  {
    var start := Bits(crc, 32);
    if s == [] {
      assert Message(start, s) == Zeros(0) + start;
      RemainderShort(p, 0, start);
    } else {
      var t, ch := s[..|s| - 1], s[|s| - 1];
      assert s == t + [ch];
      UpdateAllDivides(p, table, crc, t);
      UpdateDivides(p, table, UpdateAll(table, crc, t), ch);
      MessageMore(start, t, ch);
      hide *;
      Shifted(p, Message(start, t), 8 * |t|, Bits(ch, 8));
    }
  }

  /** Eight more bits of the message. */
  lemma Shifted(p: seq<bool>, m: seq<bool>, n: nat, c: seq<bool>)
    requires |p| == 32 && |c| == 8 && |m| == n + 32
    ensures Remainder(p, XorBits(m + Zeros(8), Zeros(n) + (c + Zeros(24) + Zeros(8))))
            == Divide(p, XorBits(Remainder(p, m), c + Zeros(24)), Zeros(8))
  {
    hide Divide;
    var x, z := c + Zeros(24), Zeros(32);
    assert Zeros(n) + (x + Zeros(8)) == Zeros(n) + x + Zeros(8);
    DivideXor(p, z, z, m + Zeros(8), Zeros(n) + x + Zeros(8));
    assert XorBits(z, z) == z && XorBits(Zeros(8), Zeros(8)) == Zeros(8);
    DivideConcat(p, z, m, Zeros(8));
    DivideConcat(p, z, Zeros(n) + x, Zeros(8));
    RemainderShort(p, n, x);
    DivideXor(p, Remainder(p, m), x, Zeros(8), Zeros(8));
  }

  lemma {:induction false} Complement(v: nat, n: nat)
    requires v < Pow2(n)
    ensures Bits(Pow2(n) - 1 - v, n) == XorBits(Same(true, n), Bits(v, n))
  {
    if n > 0 {
      Complement(v / 2, n - 1);
      var w := Pow2(n) - 1 - v;
      assert w / 2 == Pow2(n - 1) - 1 - v / 2 && w % 2 == 1 - v % 2;
    }
  }

  /** The polynomial of the source's table, 0x04c11db7. */
  const POLYNOMIAL: nat := 0x04c1_1db7

  /**
   With the table of remainders, the checksum of a block is the complement of the remainder of its
   bytes' bits and 32 zeros, of which the first 32 are complemented.
   */
  lemma BlockCrcIsRemainder(table: seq<nat>, s: seq<byte>)
    requires IsTable(Bits(POLYNOMIAL, 32), table)
    ensures Bits(BlockCrcOf(table, s), 32)
            == XorBits(Same(true, 32), Remainder(Bits(POLYNOMIAL, 32), Message(Same(true, 32), s)))
  {
    hide *;
    TableSize(Bits(POLYNOMIAL, 32), table);
    CrcParts(table, s);
    Sizes();
    BitsOnes(32);
    UpdateAllDivides(Bits(POLYNOMIAL, 32), table, INITIAL, s);
    Complement(UpdateAll(table, INITIAL, s), 32);
  }

  lemma CrcParts(table: seq<nat>, s: seq<byte>)
    requires |table| == 256
    ensures INITIAL == 0xffff_ffff && UpdateAll(table, INITIAL, s) < 0x1_0000_0000
    ensures BlockCrcOf(table, s) == 0xffff_ffff - UpdateAll(table, INITIAL, s)
  {
    hide UpdateAll;
  }

  // ---------------------------------------------------------------- what checksums tell apart

  ghost predicate LowBytesDiffer(table: seq<nat>)
  {
    |table| == 256 && forall i, j :: 0 <= i < j < 256 ==> table[i] % 256 != table[j] % 256
  }

  lemma LowByte(v: nat)
    ensures Bits(v, 32)[24..] == Bits(v % 256, 8)
  {
    Sizes();
    BitsConcat(v, 24, 8);
    ValueLow(v, 8);
    ValueLow(v % 256, 8);
    BitsValue(Bits(v, 8));
    BitsValue(Bits(v % 256, 8));
  }

  /** Two steps that end alike were made with one entry, from words that were alike but for the high byte. */
  lemma UpdatesAgree(table: seq<nat>, c1: nat, c2: nat, ch1: byte, ch2: byte)
    requires LowBytesDiffer(table) && c1 < 0x1_0000_0000 && c2 < 0x1_0000_0000
    requires Update(table, c1, ch1) == Update(table, c2, ch2)
    ensures XorBits(Bits(c1 / 0x100_0000, 8), Bits(ch1, 8)) == XorBits(Bits(c2 / 0x100_0000, 8), Bits(ch2, 8))
    ensures Bits(c1, 24) == Bits(c2, 24)
  {
    hide *;
    DifferSize(table);
    var i, j := Xor8(c1 / 0x100_0000, ch1), Xor8(c2 / 0x100_0000, ch2);
    UpdateBits(table, c1, ch1);
    UpdateBits(table, c2, ch2);
    var t, u := Bits(table[i], 32), Bits(table[j], 32);
    var a := Bits(Update(table, c1, ch1), 32);
    LowByte(table[i]);
    LowByte(table[j]);
    LowOf(Bits(c1, 24), t, a);
    LowOf(Bits(c2, 24), u, a);
    Sizes();
    BitsDiffer(table[i] % 256, table[j] % 256, 8);
    DifferAt(table, i, j);
  }

  lemma DifferSize(table: seq<nat>)
    requires LowBytesDiffer(table)
    ensures |table| == 256
  {
  }

  lemma DifferAt(table: seq<nat>, i: nat, j: nat)
    requires LowBytesDiffer(table) && i < 256 && j < 256 && table[i] % 256 == table[j] % 256
    ensures i == j
  {
  }

  /** The low byte of a step is the entry's, and with the entry the rest is known. */
  lemma LowOf(c: seq<bool>, t: seq<bool>, a: seq<bool>)
    requires |c| == 24 && |t| == 32 && a == XorBits(c + Zeros(8), t)
    ensures |a| == 32 && t[24..] == a[24..] && c == XorBits(a[..24], t[..24])
  {
    hide *;
  }

  lemma XorTwice(a: seq<bool>, b: seq<bool>)
    requires |a| == |b|
    ensures XorBits(XorBits(a, b), b) == a && XorBits(XorBits(a, b), a) == b
  {
    hide *;
  }

  /** A step loses nothing: from the result and the byte the word before is known, and the other way round. */
  lemma UpdateInjective(table: seq<nat>, c1: nat, c2: nat, ch1: byte, ch2: byte)
    requires LowBytesDiffer(table) && c1 < 0x1_0000_0000 && c2 < 0x1_0000_0000
    requires Update(table, c1, ch1) == Update(table, c2, ch2) && (c1 == c2 || ch1 == ch2)
    ensures c1 == c2 && ch1 == ch2
  {
    hide *;
    DifferSize(table);
    UpdatesAgree(table, c1, c2, ch1, ch2);
    WordParts(c1);
    WordParts(c2);
    Sizes();
    var h1, h2, b1, b2 := Bits(c1 / 0x100_0000, 8), Bits(c2 / 0x100_0000, 8), Bits(ch1, 8), Bits(ch2, 8);
    XorTwice(h1, b1);
    XorTwice(h2, b2);
    if c1 == c2 {
      BitsDiffer(ch1, ch2, 8);
    } else {
      BitsDiffer(c1, c2, 32);
    }
  }

  lemma LastUpdate(table: seq<nat>, crc: nat, s: seq<byte>)
    requires |table| == 256 && s != []
    ensures UpdateAll(table, crc, s) == Update(table, UpdateAll(table, crc, s[..|s| - 1]), s[|s| - 1])
  {
    hide Update;
  }

  /** Two texts of one length that differ in one byte have different checksums. */
  lemma {:induction false} OneByteOff(table: seq<nat>, crc: nat, s: seq<byte>, t: seq<byte>, k: nat)
    requires LowBytesDiffer(table) && crc < 0x1_0000_0000 && |s| == |t| && k < |s| && s[k] != t[k]
    requires forall i :: 0 <= i < |s| && i != k ==> s[i] == t[i]
    ensures UpdateAll(table, crc, s) != UpdateAll(table, crc, t)
    decreases |s|
  {
    hide *;
    DifferSize(table);
    var n := |s| - 1;
    var a, b := UpdateAll(table, crc, s[..n]), UpdateAll(table, crc, t[..n]);
    LastUpdate(table, crc, s);
    LastUpdate(table, crc, t);
    if k == n {
      assert s[..n] == t[..n];
    } else {
      OneByteOff(table, crc, s[..n], t[..n], k);
    }
    if Update(table, a, s[n]) == Update(table, b, t[n]) {
      UpdateInjective(table, a, b, s[n], t[n]);
    }
  }

  /** So a block in which one byte was changed does not have its checksum any more. */
  lemma BlockCrcDetects(table: seq<nat>, s: seq<byte>, t: seq<byte>, k: nat)
    requires LowBytesDiffer(table) && |s| == |t| && k < |s| && s[k] != t[k]
    requires forall i :: 0 <= i < |s| && i != k ==> s[i] == t[i]
    ensures BlockCrcOf(table, s) != BlockCrcOf(table, t)
  {
    OneByteOff(table, INITIAL, s, t, k);
  }

  /** If the lowest coefficients of a division's result are zero, so were the highest of what it started from. */
  lemma {:induction false} LowZeros(p: seq<bool>, r: seq<bool>, n: nat)
    requires |r| == |p| == 32 && p[31] && n <= 32
    requires forall i :: 32 - n <= i < 32 ==> !Divide(p, r, Zeros(n))[i]
    ensures forall i :: 0 <= i < n ==> !r[i]
    decreases n
  {
    hide *;
    if n > 0 {
      var q := Divide(p, r, Zeros(n - 1));
      assert Zeros(n)[..n - 1] == Zeros(n - 1);
      DivideStep(p, r, Zeros(n));
      LastCoefficients(p, q, n);
      LowZeros(p, r, n - 1);
      assert r[..n - 1] == Zeros(n - 1);
      DivideMoves(p, r, Zeros(n - 1));
    }
  }

  /** The lowest coefficient after a step tells whether the divisor was taken away. */
  lemma LastCoefficients(p: seq<bool>, q: seq<bool>, n: nat)
    requires |q| == |p| == 32 && p[31] && 1 <= n <= 32
    requires forall i :: 32 - n <= i < 32 ==> !Reduce(p, q, false)[i]
    ensures !q[0] && forall i :: 32 - (n - 1) <= i < 32 ==> !q[i]
  {
    hide Zeros;
    assert !Reduce(p, q, false)[31];
    assert !q[0];
    forall i | 32 - (n - 1) <= i < 32 ensures !q[i] {
      assert Reduce(p, q, false)[i - 1] == q[i];
    }
  }

  /** The table of remainders of a polynomial with a constant term is such a table. */
  lemma TableDiffers(p: seq<bool>, table: seq<nat>)
    requires |p| == 32 && p[31] && IsTable(p, table)
    ensures LowBytesDiffer(table)
  {
    forall i, j | 0 <= i < j < 256 ensures table[i] % 256 != table[j] % 256 {
      if table[i] % 256 == table[j] % 256 {
        EntriesDiffer(p, table, i, j);
      }
    }
  }

  lemma EntriesDiffer(p: seq<bool>, table: seq<nat>, i: nat, j: nat)
    requires |p| == 32 && p[31] && IsTable(p, table) && i < 256 && j < 256 && table[i] % 256 == table[j] % 256
    ensures i == j
  {
    hide *;
    TableSize(p, table);
    EntryIs(p, table, i);
    EntryIs(p, table, j);
    LowByte(table[i]);
    LowByte(table[j]);
    Sizes();
    var x, y := Bits(i, 8) + Zeros(24), Bits(j, 8) + Zeros(24);
    var r := XorBits(x, y);
    DivideXor(p, x, y, Zeros(8), Zeros(8));
    assert XorBits(Zeros(8), Zeros(8)) == Zeros(8);
    var t, u := Bits(table[i], 32), Bits(table[j], 32);
    forall k | 24 <= k < 32 ensures !XorBits(t, u)[k] {
      assert t[k] == t[24..][k - 24] && u[k] == u[24..][k - 24];
    }
    LowZeros(p, r, 8);
    forall k | 0 <= k < 8 ensures Bits(i, 8)[k] == Bits(j, 8)[k] {
      assert !r[k] && x[k] == Bits(i, 8)[k] && y[k] == Bits(j, 8)[k];
    }
    assert Bits(i, 8) == Bits(j, 8);
    BitsDiffer(i, j, 8);
  }

  // ---------------------------------------------------------------- the stream's checksum

  function Rotated(s: seq<bool>): (r: seq<bool>)
    requires s != []
    ensures |r| == |s|
  {
    s[1..] + [s[0]]
  }

  lemma TurnedBack(s: seq<bool>)
    requires s != []
    ensures var r := Rotated(s); s == [r[|r| - 1]] + r[..|r| - 1]
  {
  }

  /** The stream's checksum is turned by one bit, and the block's is added. */
  lemma CombineIs(combined: nat, crc: nat)
    requires combined < 0x1_0000_0000
    ensures Bits(Combine(combined, crc), 32) == XorBits(Rotated(Bits(combined, 32)), Bits(crc, 32))
  {
    var x := combined * 2 % 0x1_0000_0000 + combined / 0x8000_0000;
    XorIs(x, crc, 32);
    TurnedIs(combined, x);
  }

  lemma TurnedIs(combined: nat, x: nat)
    requires combined < 0x1_0000_0000 && x == combined * 2 % 0x1_0000_0000 + combined / 0x8000_0000
    ensures Bits(x, 32) == Rotated(Bits(combined, 32))
  {
    hide *;
    Sizes();
    var top, low := combined / 0x8000_0000, combined % 0x8000_0000;
    assert x / 2 == low && x % 2 == top && top < 2;
    BitsConcat(combined, 1, 31);
    HalfWord(combined);
    OneBit(top);
    BitsStep(x, 32);
    assert Bits(x, 32) == Bits(combined, 31) + [top == 1];
    assert Bits(combined, 32) == [top == 1] + Bits(combined, 31);
    TurnedParts(Bits(combined, 31), top == 1);
  }

  lemma TurnedParts(s: seq<bool>, x: bool)
    ensures Rotated([x] + s) == s + [x]
  {
  }

  lemma OneBit(v: nat)
    requires v < 2
    ensures Bits(v, 1) == [v == 1]
  {
    assert Bits(v, 1) == Bits(v / 2, 0) + [v % 2 == 1];
  }

  lemma BitsStep(v: nat, n: nat)
    requires n > 0
    ensures Bits(v, n) == Bits(v / 2, n - 1) + [v % 2 == 1]
  {
  }

  lemma HalfWord(v: nat)
    ensures Shr(v, 31) == v / 0x8000_0000 && Bits(v % 0x8000_0000, 31) == Bits(v, 31)
  {
    hide *;
    Pow2Half();
    ShrPow2(v, 31);
    ValueLow(v, 31);
    ValueLow(v % 0x8000_0000, 31);
    BitsValue(Bits(v, 31));
    BitsValue(Bits(v % 0x8000_0000, 31));
  }

  lemma Pow2Half()
    ensures Pow2(31) == 0x8000_0000
  {
    Sizes();
    assert Pow2(32) == 2 * Pow2(31);
  }

  /** Neither a block's checksum nor the stream's before it is lost. */
  lemma CombineInjective(a: nat, b: nat, x: nat, y: nat)
    requires a < 0x1_0000_0000 && b < 0x1_0000_0000 && x < 0x1_0000_0000 && y < 0x1_0000_0000
    requires Combine(a, x) == Combine(b, y) && (a == b || x == y)
    ensures a == b && x == y
  {
    hide *;
    CombineIs(a, x);
    CombineIs(b, y);
    Sizes();
    var c, d, s, t := Rotated(Bits(a, 32)), Rotated(Bits(b, 32)), Bits(x, 32), Bits(y, 32);
    XorTwice(c, s);
    XorTwice(d, t);
    if a == b {
      BitsDiffer(x, y, 32);
    } else {
      TurnedBack(Bits(a, 32));
      TurnedBack(Bits(b, 32));
      BitsDiffer(a, b, 32);
    }
  }
}
