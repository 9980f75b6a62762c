/**
 Strings of bits, most significant first, and the numbers they stand for.
 */
module BitStrings {

  import opened Words

  /** The low `n` bits of `v`. */
  function Bits(v: nat, n: nat): (s: seq<bool>)
    ensures |s| == n
  {
    if n == 0 then [] else Bits(v / 2, n - 1) + [v % 2 == 1]
  }

  function Value(s: seq<bool>): (v: nat)
    ensures v < Pow2(|s|)
  {
    if s == [] then 0 else 2 * Value(s[..|s| - 1]) + (if s[|s| - 1] then 1 else 0)
  }

  /** Writing a number that fits and reading it back. */
  lemma {:induction false} ValueBits(v: nat, n: nat)
    requires v < Pow2(n)
    ensures Value(Bits(v, n)) == v
  {
    if n > 0 {
      ValueBits(v / 2, n - 1);
      assert Bits(v, n)[..n - 1] == Bits(v / 2, n - 1);
    }
  }

  /** Reading a string as a number and writing that. */
  lemma {:induction false} BitsValue(s: seq<bool>)
    ensures Bits(Value(s), |s|) == s
  {
    if s != [] {
      var t := s[..|s| - 1];
      BitsValue(t);
      assert Value(s) / 2 == Value(t);
      assert s == t + [s[|s| - 1]];
    }
  }

  /** Whatever lies above the low `n` bits does not count. */
  lemma {:induction false} ValueLow(v: nat, n: nat)
    ensures Value(Bits(v, n)) == v % Pow2(n)
  {
    if n > 0 {
      ValueLow(v / 2, n - 1);
      assert Bits(v, n)[..n - 1] == Bits(v / 2, n - 1);
      ModTwice(v, Pow2(n - 1));
    }
  }

  lemma {:induction false} ValueConcat(s: seq<bool>, t: seq<bool>)
    ensures Value(s + t) == Shl(Value(s), |t|) + Value(t)
    decreases |t|
  {
    if t == [] {
      assert s + t == s;
    } else {
      var u := t[..|t| - 1];
      ValueConcat(s, u);
      assert (s + t)[..|s + t| - 1] == s + u;
    }
  }

  lemma ValueAppend(s: seq<bool>, x: bool)
    ensures Value(s + [x]) == 2 * Value(s) + (if x then 1 else 0)
  {
    assert (s + [x])[..|s|] == s;
  }

  /** Bits are written group by group. */
  lemma {:induction false} BitsConcat(v: nat, m: nat, n: nat)
    ensures Bits(v, m + n) == Bits(Shr(v, n), m) + Bits(v, n)
    decreases n
  {
    if n > 0 {
      BitsConcat(v / 2, m, n - 1);
      assert Bits(v, n) == Bits(v / 2, n - 1) + [v % 2 == 1];
    } else {
      assert Bits(v, m + 0) == Bits(v, m) + [];
    }
  }

  /** The first bits of a string are the high bits of its number. */
  lemma {:induction false} ValuePrefix(s: seq<bool>, n: nat)
    requires n <= |s|
    ensures Value(s[..n]) == Shr(Value(s), |s| - n)
    decreases |s|
  {
    if n < |s| {
      var t := s[..|s| - 1];
      ValuePrefix(t, n);
      assert t[..n] == s[..n];
      assert Value(s) / 2 == Value(t);
    } else {
      assert s[..n] == s;
    }
  }
}
