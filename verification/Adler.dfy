/**
 adler32 (zlib/adler32.c) against the definition in section 2.2 of RFC 1950, in 32-bit words.
 */
module Adler {

  import opened Rotation
  import opened Words

  const BASE := 65521
  const NMAX := 5552
  const LIMIT := 0x1_0000_0000

  // ---------------------------------------------------------------- the modulus

  ghost predicate Prime(n: nat)
  {
    n >= 2 && forall d: nat :: 2 <= d < n ==> n % d != 0
  }

  /** A divisor, or what it is multiplied with, is below 256. */
  lemma SmallDivisor(n: nat, d: nat)
    requires 2 <= d < n < 65536 && n % d == 0
    ensures exists e: nat :: 2 <= e < 256 && n % e == 0
  {
    var q := n / d;
    DivMod(n, d);
    assert q >= 2 by {
      if q < 2 {
        MulBounds(q, 1, d, d);
      }
    }
    if d < 256 {
      assert n % d == 0;
    } else {
      if q >= 256 {
        MulBounds(256, q, 256, d);
      }
      assert n == d * q + 0;
      DivUnique(n, q, d, 0);
    }
  }

  /** BASE is the largest prime smaller than 65536. */
  lemma LargestPrime()
    ensures Prime(BASE) && forall n: nat :: BASE < n < 65536 ==> !Prime(n)
  {
    forall d: nat | 2 <= d < BASE ensures BASE % d != 0 {
      if BASE % d == 0 {
        SmallDivisor(BASE, d);
        var e: nat :| 2 <= e < 256 && BASE % e == 0;
        NotDivided(e);
      }
    }
    forall n: nat | BASE < n < 65536 ensures !Prime(n) {
      assert n % 2 == 0 || n % 3 == 0 || n % 5 == 0 || n % 7 == 0 || n % 13 == 0 || n % 19 == 0;
    }
  }

  /** By cases: `e` is odd, since BASE is. */
  lemma NotDivided(e: nat)
    requires 2 <= e < 256
    ensures BASE % e != 0
  {
    DivMod(BASE, e);
    if e % 2 == 0 {
      EvenProduct(e, BASE / e);
    } else {
      OddCases(e, BASE / e);
    }
  }

  lemma EvenProduct(e: nat, q: nat)
    requires e % 2 == 0
    ensures e * q != BASE
  {
    var h := e / 2;
    assert e * q == 2 * (h * q);
  }

  lemma OddCases(e: nat, q: nat)
    requires 2 <= e < 256 && e % 2 == 1
    ensures e * q != BASE
  {
    assert e == 3 || e == 5 || e == 7 || e == 9 || e == 11 || e == 13 || e == 15 || e == 17 || e == 19 || e == 21 ||
        e == 23 || e == 25 || e == 27 || e == 29 || e == 31 || e == 33 || e == 35 || e == 37 || e == 39 || e == 41 ||
        e == 43 || e == 45 || e == 47 || e == 49 || e == 51 || e == 53 || e == 55 || e == 57 || e == 59 || e == 61 ||
        e == 63 || e == 65 || e == 67 || e == 69 || e == 71 || e == 73 || e == 75 || e == 77 || e == 79 || e == 81 ||
        e == 83 || e == 85 || e == 87 || e == 89 || e == 91 || e == 93 || e == 95 || e == 97 || e == 99 || e == 101 ||
        e == 103 || e == 105 || e == 107 || e == 109 || e == 111 || e == 113 || e == 115 || e == 117 || e == 119 ||
        e == 121 || e == 123 || e == 125 || e == 127 || e == 129 || e == 131 || e == 133 || e == 135 || e == 137 ||
        e == 139 || e == 141 || e == 143 || e == 145 || e == 147 || e == 149 || e == 151 || e == 153 || e == 155 ||
        e == 157 || e == 159 || e == 161 || e == 163 || e == 165 || e == 167 || e == 169 || e == 171 || e == 173 ||
        e == 175 || e == 177 || e == 179 || e == 181 || e == 183 || e == 185 || e == 187 || e == 189 || e == 191 ||
        e == 193 || e == 195 || e == 197 || e == 199 || e == 201 || e == 203 || e == 205 || e == 207 || e == 209 ||
        e == 211 || e == 213 || e == 215 || e == 217 || e == 219 || e == 221 || e == 223 || e == 225 || e == 227 ||
        e == 229 || e == 231 || e == 233 || e == 235 || e == 237 || e == 239 || e == 241 || e == 243 || e == 245 ||
        e == 247 || e == 249 || e == 251 || e == 253 || e == 255;
  }

  // ---------------------------------------------------------------- the definition

  /** `s1` after some bytes: the sum of the bytes and the start, modulo 65521. */
  function S1(s1: nat, s: seq<byte>): (r: nat)
    ensures r < BASE
  {
    if s == [] then s1 % BASE else (S1(s1, s[..|s| - 1]) + s[|s| - 1]) % BASE
  }

  /** `s2`: the sum of the values of `s1` after each byte, and the start, modulo 65521. */
  function S2(s1: nat, s2: nat, s: seq<byte>): (r: nat)
    ensures r < BASE
  {
    if s == [] then s2 % BASE else (S2(s1, s2, s[..|s| - 1]) + S1(s1, s)) % BASE
  }

  /** The two halves of a checksum. */
  function Low(adler: nat): (r: nat)
    ensures r < 65536
  {
    adler % 65536
  }

  function High(adler: nat): (r: nat)
    ensures r < 65536
  {
    adler / 65536 % 65536
  }

  /** The checksum after some more bytes; it is kept as it is if there are none. */
  function Checksum(adler: nat, s: seq<byte>): (r: nat)
    ensures r < LIMIT
  {
    if s == [] then High(adler) * 65536 + Low(adler) else S2(Low(adler), High(adler), s) * 65536 + S1(Low(adler), s)
  }

  // ---------------------------------------------------------------- sums without reduction

  function Sum(s: seq<byte>): (r: nat)
    ensures r <= 255 * |s|
  {
    if s == [] then 0 else Sum(s[..|s| - 1]) + s[|s| - 1]
  }

  /** What is added to `s2` for `s`, apart from `|s|` times the first `s1`. */
  function Sums(s: seq<byte>): (r: nat)
    ensures 2 * r <= 255 * (|s| * (|s| + 1))
  {
    if s == [] then 0
    else
      SquareStep(|s|);
      Sums(s[..|s| - 1]) + Sum(s)
  }

  lemma SquareStep(n: nat)
    requires n > 0
    ensures n * (n + 1) == (n - 1) * n + 2 * n
  {
  }

  /** `s2` after some bytes, without reduction. */
  function Long(s1: nat, s2: nat, s: seq<byte>): (r: nat)
  {
    s2 + |s| * s1 + Sums(s)
  }

  lemma LongStep(s1: nat, s2: nat, s: seq<byte>)
    requires s != []
    ensures Long(s1, s2, s) == Long(s1, s2, s[..|s| - 1]) + (s1 + Sum(s))
  {
    MulStep(|s| - 1, s1);
  }

  lemma {:induction false} MulBounds(n: nat, m: nat, a: nat, b: nat)
    requires n <= m && a <= b
    ensures n * a <= m * b
  {
    if n < m {
      MulGapOf(n, m, a);
    }
    if a < b {
      MulGapOf(a, b, m);
    }
  }

  lemma MulGapOf(a: nat, b: nat, n: nat)
    requires a < b
    ensures a * n <= b * n && n * a <= n * b
  {
    MulGap(a, b, n);
  }

  /** Within NMAX bytes no sum leaves 32 bits, from halves of 16 bits. */
  lemma FitsWord(s1: nat, s2: nat, s: seq<byte>)
    requires s1 < 65536 && s2 < 65536 && |s| <= NMAX
    ensures s1 + Sum(s) < LIMIT && Long(s1, s2, s) < LIMIT
  {
    MulBounds(|s|, NMAX, s1, 65535);
    MulBounds(|s|, NMAX, |s| + 1, NMAX + 1);
  }

  /** NMAX is the largest such number: one byte more can be too much, even from reduced halves. */
  lemma LargestNmax()
    ensures var s := Bytes255(NMAX + 1); Long(BASE - 1, BASE - 1, s) >= LIMIT
  {
    SumsOf255(NMAX + 1);
  }

  function Bytes255(n: nat): (s: seq<byte>)
    ensures |s| == n
  {
    seq(n, _ => 255)
  }

  lemma {:induction false} SumsOf255(n: nat)
    ensures Sum(Bytes255(n)) == 255 * n && 2 * Sums(Bytes255(n)) == 255 * (n * (n + 1))
  {
    if n > 0 {
      SumsOf255(n - 1);
      assert Bytes255(n)[..n - 1] == Bytes255(n - 1);
      SquareStep(n);
    }
  }

  // ---------------------------------------------------------------- reduction

  lemma ModAdd(x: nat, y: nat)
    ensures (x % BASE + y) % BASE == (x + y) % BASE
  {
    var q, r := x / BASE, (x % BASE + y) % BASE;
    var q' := (x % BASE + y) / BASE;
    DivMod(x, BASE);
    DivMod(x % BASE + y, BASE);
    assert (q + q') * BASE == q * BASE + q' * BASE;
    DivUnique(x + y, BASE, q + q', r);
  }

  lemma ModTwo(x: nat, y: nat)
    ensures (x % BASE + y % BASE) % BASE == (x + y) % BASE
  {
    ModAdd(x, y % BASE);
    ModAdd(y, x);
  }

  /** Reducing at the end is the same as reducing at each byte. */
  lemma {:induction false} S1Is(s1: nat, s: seq<byte>)
    ensures S1(s1, s) == (s1 + Sum(s)) % BASE
  {
    if s != [] {
      S1Is(s1, s[..|s| - 1]);
      ModAdd(s1 + Sum(s[..|s| - 1]), s[|s| - 1]);
    }
  }

  lemma {:induction false} S2Is(s1: nat, s2: nat, s: seq<byte>)
    ensures S2(s1, s2, s) == Long(s1, s2, s) % BASE
  {
    if s != [] {
      S2Is(s1, s2, s[..|s| - 1]);
      S1Is(s1, s);
      LongStep(s1, s2, s);
      ModTwo(Long(s1, s2, s[..|s| - 1]), s1 + Sum(s));
    }
  }

  /** Halves need not be reduced before they are used. */
  lemma {:induction false} Reduced(s1: nat, s2: nat, s: seq<byte>)
    ensures S1(s1 % BASE, s) == S1(s1, s) && S2(s1 % BASE, s2 % BASE, s) == S2(s1, s2, s)
  {
    if s != [] {
      Reduced(s1, s2, s[..|s| - 1]);
    }
  }

  lemma {:induction false} Concat(s1: nat, s2: nat, s: seq<byte>, t: seq<byte>)
    ensures S1(s1, s + t) == S1(S1(s1, s), t) && S2(s1, s2, s + t) == S2(S1(s1, s), S2(s1, s2, s), t)
    decreases |t|
  {
    if t == [] {
      assert s + t == s;
      Small(S1(s1, s));
      Small(S2(s1, s2, s));
    } else {
      var u := t[..|t| - 1];
      Concat(s1, s2, s, u);
      assert (s + t)[..|s + t| - 1] == s + u;
    }
  }

  lemma Small(x: nat)
    requires x < BASE
    ensures x % BASE == x
  {
  }

  lemma HalvesOf(adler: nat, high: nat, low: nat)
    requires low < 65536 && high < 65536
    ensures Low(high * 65536 + low) == low && High(high * 65536 + low) == high
  {
    DivUnique(high * 65536 + low, 65536, high, low);
  }

  /** Two buffers in turn are one buffer. */
  lemma ChecksumConcat(adler: nat, s: seq<byte>, t: seq<byte>)
    ensures Checksum(Checksum(adler, s), t) == Checksum(adler, s + t)
  {
    var a, b := Low(adler), High(adler);
    if s == [] {
      assert s + t == t;
      HalvesOf(adler, b, a);
    } else {
      var c, d := S1(a, s), S2(a, b, s);
      HalvesOf(adler, d, c);
      Concat(a, b, s, t);
      if t == [] {
        assert s + t == s;
      }
    }
  }

  // ---------------------------------------------------------------- the loop

  /** One step of the sums. */
  lemma SumStep(s1: nat, s2: nat, s: seq<byte>, c: byte)
    ensures Sum(s + [c]) == Sum(s) + c && Long(s1, s2, s + [c]) == Long(s1, s2, s) + (s1 + Sum(s + [c]))
  {
    var t := s + [c];
    assert t[..|t| - 1] == s;
    LongStep(s1, s2, t);
  }

  /** A chunk is done and its sums are reduced. */
  lemma ChunkDone(a: nat, b: nat, s: seq<byte>, a': nat, b': nat, t: seq<byte>)
    requires a' % BASE == S1(a, s) && b' % BASE == S2(a, b, s)
    ensures (a' + Sum(t)) % BASE == S1(a, s + t) && Long(a', b', t) % BASE == S2(a, b, s + t)
  {
    S1Is(a', t);
    S2Is(a', b', t);
    Reduced(a', b', t);
    Concat(a, b, s, t);
  }

  lemma Start(a: nat, b: nat)
    ensures S1(a, []) == a % BASE && S2(a, b, []) == b % BASE
  {
  }

  /** `DO1`, `n` times: no sum leaves 32 bits. */
  method AddBytes(buf: array<byte>, p: nat, n: nat, s1: nat, s2: nat, ghost a: nat, ghost b: nat, ghost t: seq<byte>)
    returns (r1: nat, r2: nat)
    requires p + n <= buf.Length && |t| + n <= NMAX && a < 65536 && b < 65536 && s1 == a + Sum(t) && s2 == Long(a, b, t)
    ensures r1 == a + Sum(t + buf[p..p + n]) && r2 == Long(a, b, t + buf[p..p + n])
  {
    hide Sum, Long;
    r1, r2 := s1, s2;
    assert t + buf[p..p + 0] == t;
    for i := 0 to n
      invariant r1 == a + Sum(t + buf[p..p + i]) && r2 == Long(a, b, t + buf[p..p + i])
    {
      ghost var u := t + buf[p..p + i];
      assert t + buf[p..p + (i + 1)] == u + [buf[p + i]];
      SumStep(a, b, u, buf[p + i]);
      FitsWord(a, b, u + [buf[p + i]]);
      r1 := r1 + buf[p + i];
      assert r1 < LIMIT;
      r2 := r2 + r1;
      assert r2 < LIMIT;
    }
  }

  /** One chunk of at most NMAX bytes, sixteen at a time and then one by one. */
  method Chunk(buf: array<byte>, p: nat, n: nat, a: nat, b: nat) returns (r1: nat, r2: nat)
    requires p + n <= buf.Length && n <= NMAX && a < 65536 && b < 65536
    ensures r1 == a + Sum(buf[p..p + n]) && r2 == Long(a, b, buf[p..p + n])
  {
    hide *;
    var k: nat, q: nat := n, p;
    r1, r2 := a, b;
    NoBytes(a, b);
    assert buf[p..q] == [];
    while k >= 16
      invariant q + k == p + n && p <= q && r1 == a + Sum(buf[p..q]) && r2 == Long(a, b, buf[p..q])
      decreases k
    {
      assert buf[p..q] + buf[q..q + 16] == buf[p..q + 16];
      r1, r2 := AddBytes(buf, q, 16, r1, r2, a, b, buf[p..q]);
      q := q + 16;
      k := k - 16;
    }
    if k != 0 {
      assert buf[p..q] + buf[q..q + k] == buf[p..q + k];
      r1, r2 := AddBytes(buf, q, k, r1, r2, a, b, buf[p..q]);
    }
  }

  lemma NoBytes(a: nat, b: nat)
    ensures Sum([]) == 0 && Long(a, b, []) == b
  {
  }

  /** adler32: without a buffer it is 1, otherwise the checksum after the buffer's bytes. */
  method Adler32(adler: nat, buf: array?<byte>, len: nat) returns (r: nat)
    requires buf != null ==> len <= buf.Length
    ensures r < LIMIT
    ensures r == if buf == null then 1 else Checksum(adler, buf[..len])
  {
    hide S1, S2, Sum, Long;
    var s1: nat, s2: nat := adler % 65536, adler / 65536 % 65536;
    if buf == null {
      return 1;
    }
    var left: nat, p: nat := len, 0;
    Start(s1, s2);
    assert buf[..0] == [];
    while left > 0
      invariant p + left == len && s1 < 65536 && s2 < 65536
      invariant s1 % BASE == S1(Low(adler), buf[..p]) && s2 % BASE == S2(Low(adler), High(adler), buf[..p])
      invariant if p == 0 then s1 == Low(adler) && s2 == High(adler) else s1 < BASE && s2 < BASE
    {
      var k: nat := if left < NMAX then left else NMAX;
      left := left - k;
      var a, b := s1, s2;
      s1, s2 := Chunk(buf, p, k, a, b);
      ChunkDone(Low(adler), High(adler), buf[..p], a, b, buf[p..p + k]);
      assert buf[..p] + buf[p..p + k] == buf[..p + k];
      p := p + k;
      s1 := s1 % BASE;
      s2 := s2 % BASE;
    }
    if len > 0 {
      Small(s1);
      Small(s2);
    }
    r := s2 * 65536 + s1;
  }
}
