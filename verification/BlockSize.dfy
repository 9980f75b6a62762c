/**
 How many bits a block takes: with the stream's header and trailer it always fits the space that
 compress.c lines 604-627 give it, which is what the collected bytes leave of `arr2`.
 */
module BlockSize {

  import opened Rotation
  import opened Words
  import opened BitStrings
  import opened Codes
  import opened ByteMap
  import opened HuffmanTree
  import opened Mtf
  import opened Parser
  import opened BlockFormat
  import BitInput

  /** The code lengths that BZ2_hbMakeCodeLengths was asked for. */
  ghost predicate ShortCodes(lens: seq<seq<nat>>)
  {
    forall t :: 0 <= t < |lens| ==> Codes.Within(lens[t], 1, 17)
  }

  lemma {:induction false} UnarySize(j: nat)
    ensures |Unary(j)| == j + 1
  {
    if j > 0 {
      UnarySize(j - 1);
    }
  }

  lemma {:induction false} UnaryAllSize(s: seq<nat>, n: nat)
    requires forall i :: 0 <= i < |s| ==> s[i] < n
    ensures |UnaryAll(s)| <= n * |s|
    decreases |s|
  {
    if s != [] {
      UnarySize(s[0]);
      UnaryAllSize(s[1..], n);
      assert n * |s| == n + n * (|s| - 1);
    }
  }

  lemma {:induction false} SelectSize(list: seq<nat>, selector: seq<nat>)
    requires forall x :: 0 <= x < |selector| ==> selector[x] in list
    ensures forall x :: 0 <= x < |selector| ==> Select(list, selector)[x] < |list|
    decreases |selector|
  {
    if selector != [] {
      var k := IndexOf(list, selector[0]);
      forall x | 0 <= x < |selector| ensures selector[x] in Front(list, k) { FrontKeeps(list, k, selector[x]); }
      SelectSize(Front(list, k), selector[1..]);
      assert Select(list, selector)[1..] == Select(Front(list, k), selector[1..]);
    }
  }

  lemma {:induction false} DeltaSize(c: int, l: int)
    ensures |Delta(c, l)| == 2 * (if c < l then l - c else c - l)
    decreases if c < l then l - c else c - l
  {
    if c < l {
      DeltaSize(c + 1, l);
    } else if c > l {
      DeltaSize(c - 1, l);
    }
  }

  lemma {:induction false} DeltasSize(len: seq<nat>, i: nat, curr: int)
    requires Codes.Within(len, 1, 17) && i <= |len| && 1 <= curr <= 17
    ensures |Deltas(len, i, curr)| <= 33 * (|len| - i)
    decreases |len| - i
  {
    if i < |len| {
      DeltaSize(curr, len[i]);
      DeltasSize(len, i + 1, len[i]);
    }
  }

  lemma {:induction false} TablesSize(lens: seq<seq<nat>>, n: nat)
    requires ShortCodes(lens) && forall t :: 0 <= t < |lens| ==> lens[t] != [] && |lens[t]| <= n
    ensures |TablesBits(lens)| <= (33 * n + 5) * |lens|
    decreases |lens|
  {
    if lens != [] {
      assert Codes.Within(lens[0], 1, 17);
      DeltasSize(lens[0], 0, lens[0][0]);
      TablesSize(lens[1..], n);
      assert (33 * n + 5) * |lens| == (33 * n + 5) + (33 * n + 5) * (|lens| - 1);
    }
  }

  lemma {:induction false} UsedSize(inUse: seq<bool>, i: nat)
    requires |inUse| == 256 && i <= 16
    ensures |UsedFlags(inUse, i)| <= 16 * (16 - i)
    decreases 16 - i
  {
    if i < 16 {
      UsedSize(inUse, i + 1);
    }
  }

  lemma {:induction false} SymbolsSize(body: Body, syms: seq<nat>, k: nat)
    requires Sendable(body, syms) && ShortCodes(body.lens) && k <= |syms|
    ensures |SymbolsBits(body, syms, k)| <= 17 * (|syms| - k)
    decreases |syms| - k
  {
    hide GoodBody, Bits, Readable;
    if k < |syms| {
      TableOfSymbol(body, syms, k);
      SymbolsSize(body, syms, k + 1);
    }
  }

  lemma TableOfSymbol(body: Body, syms: seq<nat>, k: nat)
    requires Sendable(body, syms) && ShortCodes(body.lens) && k < |syms|
    ensures GroupOf(k) < |body.selector| && body.selector[GroupOf(k)] < |body.lens|
    ensures syms[k] < |body.lens[body.selector[GroupOf(k)]]|
    ensures |CodeBits(body.lens[body.selector[GroupOf(k)]], syms[k])| <= 17
  {
    hide Used, Readable, Bits;
    var len := body.lens[body.selector[GroupOf(k)]];
    assert Codes.Within(len, 1, 17);
  }

  lemma HeadSize(head: Head)
    ensures |HeadBits(head)| == 105
  {
    BitInput.BytesLength(BLOCK_MAGIC);
    BitInput.BytesLength(WordBytes(head.crc));
    hide BytesBits, Bits;
  }

  lemma BodyParts(body: Body, syms: seq<nat>)
    requires Sendable(body, syms) && |body.selector| <= MAX_SELECTORS
    ensures |body.inUse| == 256 && 2 <= |body.lens| <= 6 && |body.selector| <= 18002 && GoodBody(body)
    ensures forall t :: 0 <= t < |body.lens| ==> body.lens[t] != [] && |body.lens[t]| <= 258
    ensures |SelectorMtf(body)| == |body.selector| && forall x :: 0 <= x < |body.selector| ==> SelectorMtf(body)[x] < 6
    ensures |BlockBits(body, syms)|
              == |HeadBits(body.head)| + |MapBits(body.inUse)| + 18 + |UnaryAll(SelectorMtf(body))|
                                       + |TablesBits(body.lens)| + |SymbolsBits(body, syms, 0)|
  {
    SelectorsListed(body);
    SelectSize(Identity(|body.lens|), body.selector);
    hide Used, Readable, HeadBits, MapBits, UnaryAll, TablesBits, SymbolsBits, Bits, Select;
    forall t | 0 <= t < |body.lens| ensures body.lens[t] != [] && |body.lens[t]| <= 258 {
      assert Lengths(body.lens[t]);
    }
  }

  /** A block takes at most 17 bits for each symbol, and what its tables may take at most. */
  lemma BlockBound(body: Body, syms: seq<nat>)
    requires Sendable(body, syms) && ShortCodes(body.lens) && |body.selector| <= MAX_SELECTORS
    ensures |BlockBits(body, syms)| <= 17 * |syms| + 159521
  {
    hide *;
    BodyParts(body, syms);
    HeadSize(body.head);
    MapSize(body.inUse);
    UnaryAllSize(SelectorMtf(body), 6);
    TablesSize(body.lens, 258);
    SymbolsSize(body, syms, 0);
  }

  lemma MapSize(inUse: seq<bool>)
    requires |inUse| == 256
    ensures |MapBits(inUse)| <= 272
  {
    UsedSize(inUse, 0);
    hide UsedFlags;
  }

  /**
   `zbits` is `arr2` behind the `n` collected bytes, 4 * (100000 * level + 34) bytes in all: a
   block of `n` bytes, the stream's header and its trailer, and bits left over from before fit.
   */
  lemma BlockFits(body: Body, syms: seq<nat>, level: nat, n: nat)
    requires Sendable(body, syms) && ShortCodes(body.lens) && |syms| <= n + 1 && 1 <= level <= 9 && n <= 100000 * level
    requires |body.selector| <= MAX_SELECTORS
    ensures 32 + |BlockBits(body, syms)| + 80 + 31 <= 8 * (4 * (100000 * level + 34) - n)
  {
    hide *;
    BlockBound(body, syms);
  }
}
