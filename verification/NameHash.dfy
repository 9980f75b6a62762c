/**
 The hash of a name and the sizes of the table (namespace.c lines 20-21 and 82-109).
 */
module NameHash {

  import opened Words
  import opened Crc

  const MIN_SIZE := 11
  const MAX_SIZE := 13845163

  const PRIMES: seq<nat> := [
    11, 19, 37, 73, 109, 163, 251, 367, 557, 823, 1237, 1861, 2777, 4177,
    6247, 9371, 14057, 21089, 31627, 47431, 71143, 106721, 160073, 240101,
    360163, 540217, 810343, 1215497, 1823231, 2734867, 4102283, 6153409,
    9230113, 13845163
  ]

  /** `(unsigned int) *name`, where a `char` has a sign. */
  function Extended(c: char): (v: nat)
  {
    var b := c as int % 256;
    if b < 128 then b else b + 0xffff_ff00
  }

  /** One byte of the hash: a rotation by four bits, and the byte. */
  function HashByte(hash: nat, c: char): (h: nat)
    ensures h < 0x1_0000_0000
  {
    Xor32(hash * 16 % 0x1_0000_0000 + hash / 0x1000_0000, Extended(c))
  }

  /** The hash of a name below a parent at an address. */
  function Hash(address: nat, name: string): (h: nat)
    ensures h < 0x1_0000_0000
  {
    if name == [] then address / 4 % 0x1_0000_0000 else HashByte(Hash(address, name[..|name| - 1]), name[|name| - 1])
  }

  /** namespace_hash */
  method NamespaceHash(address: nat, name: string) returns (hash: nat)
    ensures hash == Hash(address, name)
  {
    hide HashByte;
    hash := address / 4 % 0x1_0000_0000;
    var i := 0;
    while i < |name|
      invariant 0 <= i <= |name| && hash == Hash(address, name[..i])
    {
      assert name[..i + 1][..i] == name[..i];
      hash := HashByte(hash, name[i]);
      i := i + 1;
    }
    assert name[..|name|] == name;
  }

  lemma PrimesGrow()
    ensures |PRIMES| == 34 && PRIMES[33] == MAX_SIZE && forall i :: 0 <= i < 33 ==>
              MIN_SIZE <= PRIMES[i] < PRIMES[i + 1]
  {
  }

  /** spaced_primes_closest: the smallest size above `num`, or the largest there is. */
  method SpacedPrimesClosest(num: nat) returns (p: nat)
    ensures p in PRIMES && 0 < MIN_SIZE <= p <= MAX_SIZE
    ensures p > num || p == MAX_SIZE
    ensures forall q :: q in PRIMES && q < p ==> q <= num
  {
    PrimesGrow();
    hide PRIMES;
    var i := 0;
    while i < |PRIMES|
      invariant 0 <= i <= |PRIMES| && forall j :: 0 <= j < i ==> PRIMES[j] <= num
    {
      if PRIMES[i] > num {
        PrimesSorted(i);
        return PRIMES[i];
      }
      i := i + 1;
    }
    PrimesSorted(33);
    return PRIMES[|PRIMES| - 1];
  }

  lemma {:induction false} PrimesSorted(i: nat)
    requires i < |PRIMES|
    ensures |PRIMES| == 34 && MIN_SIZE <= PRIMES[i] <= MAX_SIZE
    ensures forall j :: i <= j < |PRIMES| ==> PRIMES[i] <= PRIMES[j]
    decreases |PRIMES| - i
  {
    PrimesGrow();
    hide PRIMES;
    if i + 1 < |PRIMES| {
      PrimesSorted(i + 1);
    }
  }
}
