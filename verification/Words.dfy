/**
 Machine words as natural numbers, with their bits.

 A word is its unsigned value.  Single-bit updates are written as the sums that `|` and
 `& ~` amount to, and bit `k` is read by halving `k` times.
 */
module Words {

  function Pow2(k: nat): (p: nat)
    ensures p >= 1
  {
    if k == 0 then 1 else 2 * Pow2(k - 1)
  }

  lemma {:induction false} Pow2Monotone(j: nat, k: nat)
    requires j <= k
    ensures Pow2(j) <= Pow2(k)
    decreases k - j
  {
    if j < k {
      Pow2Monotone(j, k - 1);
    }
  }

  lemma {:induction false} Pow2Add(j: nat, k: nat)
    ensures Pow2(j + k) == Pow2(j) * Pow2(k)
    decreases j
  {
    if j > 0 {
      Pow2Add(j - 1, k);
    }
  }

  /** `v >> k` */
  function Shr(v: nat, k: nat): (r: nat)
    decreases k
  {
    if k == 0 then v else Shr(v / 2, k - 1)
  }

  /** `v << k`, without loss */
  function Shl(v: nat, k: nat): (r: nat)
  {
    if k == 0 then v else 2 * Shl(v, k - 1)
  }

  // ---------------------------------------------------------------- division

  lemma MulStep(k: nat, n: nat)
    ensures (k + 1) * n == k * n + n
  {
  }

  lemma {:induction false} MulGap(a: nat, b: nat, n: nat)
    requires a < b
    ensures b * n >= a * n + n
    decreases b
  {
    MulStep(b - 1, n);
    if a < b - 1 {
      MulGap(a, b - 1, n);
    }
  }

  lemma DivMod(w: nat, d: nat)
    requires d >= 1
    ensures w == (w / d) * d + w % d && 0 <= w % d < d && 0 <= w / d <= w
  {
  }

  lemma DivUnique(w: nat, d: nat, x: nat, r: nat)
    requires r < d && w == x * d + r
    ensures w / d == x && w % d == r
  {
    DivMod(w, d);
    if w / d < x {
      MulGap(w / d, x, d);
    } else if x < w / d {
      MulGap(x, w / d, d);
    }
  }

  lemma DivMonotone(x: nat, y: nat, d: nat)
    requires x <= y && d >= 1
    ensures 0 <= x / d <= y / d
  {
    DivMod(x, d);
    DivMod(y, d);
    if x / d > y / d {
      MulGap(y / d, x / d, d);
    }
  }

  lemma DivTwice(w: nat, d: nat)
    requires d >= 1
    ensures w / (2 * d) == w / d / 2
  {
    var x, r := w / d, w % d;
    DivMod(w, d);
    MulTwice(x / 2, x % 2, d);
    DivUnique(w, 2 * d, x / 2, d * (x % 2) + r);
  }

  lemma MulTwice(h: nat, e: nat, d: nat)
    requires e < 2
    ensures (2 * h + e) * d == h * (2 * d) + d * e
  {
  }

  lemma ModTwice(w: nat, d: nat)
    requires d >= 1
    ensures w % (2 * d) == 2 * (w / 2 % d) + w % 2
  {
    DivMod(w / 2, d);
    var x, r := w / 2 / d, w / 2 % d;
    MulTwice(x, 0, d);
    DivUnique(w, 2 * d, x, 2 * r + w % 2);
  }

  lemma DivPow2Step(w: nat, k: nat)
    ensures w / Pow2(k + 1) == w / Pow2(k) / 2
  {
    DivTwice(w, Pow2(k));
  }

  const WORD := 0x1_0000_0000

  lemma Pow2Word()
    ensures Pow2(32) == WORD
  {
    assert Pow2(8) == 256;
    Pow2Add(8, 8);
    Pow2Add(16, 16);
  }

  /** Bit `k` of `w`. */
  predicate Bit(w: nat, k: nat)
  {
    if k == 0 then w % 2 == 1 else Bit(w / 2, k - 1)
  }

  /** `w | (1 << k)` */
  function SetBit(w: nat, k: nat): (r: nat)
  {
    if Bit(w, k) then w else w + Pow2(k)
  }

  lemma {:induction false} BitPow2(w: nat, k: nat)
    requires Bit(w, k)
    ensures w >= Pow2(k)
    decreases k
  {
    if k > 0 {
      BitPow2(w / 2, k - 1);
    }
  }

  /** `w & ~(1 << k)` */
  function ClearBit(w: nat, k: nat): (r: nat)
  {
    if Bit(w, k) then BitPow2(w, k); w - Pow2(k) else w
  }

  lemma SetBitHalf(w: nat, k: nat)
    requires k > 0
    ensures SetBit(w, k) / 2 == SetBit(w / 2, k - 1) && SetBit(w, k) % 2 == w % 2
  {
    assert (w + 2 * Pow2(k - 1)) / 2 == w / 2 + Pow2(k - 1);
  }

  /** Setting bit `j` makes it one and leaves every other bit. */
  lemma {:induction false} SetBitBit(w: nat, j: nat, k: nat)
    ensures Bit(SetBit(w, j), k) == (j == k || Bit(w, k))
    decreases j
  {
    if j > 0 {
      SetBitHalf(w, j);
      if k > 0 {
        SetBitBit(w / 2, j - 1, k - 1);
      }
    }
  }

  lemma {:induction false} ClearBitBit(w: nat, j: nat, k: nat)
    ensures Bit(ClearBit(w, j), k) == (j != k && Bit(w, k))
    decreases j
  {
    if j > 0 && k > 0 {
      ClearBitBit(w / 2, j - 1, k - 1);
      BitPow2Half(w, j);
      assert ClearBit(w, j) / 2 == ClearBit(w / 2, j - 1);
    }
  }

  lemma BitPow2Half(w: nat, j: nat)
    requires j > 0
    ensures Bit(w, j) ==> w / 2 >= Pow2(j - 1)
  {
    if Bit(w, j) {
      BitPow2(w / 2, j - 1);
    }
  }

  /** A word of `n` ones has all its bits set; the word zero has none. */
  lemma {:induction false} OnesBit(w: nat, n: nat, k: nat)
    requires w == Pow2(n) - 1 && k < n
    ensures Bit(w, k)
    decreases k
  {
    if k > 0 {
      OnesBit(w / 2, n - 1, k - 1);
    }
  }

  lemma {:induction false} ZeroBit(k: nat)
    ensures !Bit(0, k)
  {
    if k > 0 {
      ZeroBit(k - 1);
    }
  }
}
