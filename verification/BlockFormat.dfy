/**
 The bits of a compressed block (compress.c lines 439-600 and 604-669), as functions of what
 is to be sent, whatever tables the encoder has picked.
 */
module BlockFormat {

  import opened Rotation
  import opened Words
  import opened BitStrings
  import opened Codes
  import opened Mtf
  import opened Parser

  /** `bsPutUChar` for each of the bytes. */
  function BytesBits(s: seq<nat>): (b: seq<bool>)
  {
    if s == [] then [] else Bits(s[0], 8) + BytesBits(s[1..])
  }

  /** The four bytes of a word, as `bsPutUInt32` sends them. */
  function WordBytes(u: nat): (s: seq<nat>)
  {
    [u / 0x100_0000 % 256, u / 0x1_0000 % 256, u / 256 % 256, u % 256]
  }

  // ---------------------------------------------------------------- the byte map

  function GroupUsed(inUse: seq<bool>, i: nat): (r: bool)
    requires |inUse| == 256 && i < 16
  {
    true in inUse[16 * i..16 * i + 16]
  }

  function GroupFlags(inUse: seq<bool>, i: nat): (b: seq<bool>)
    requires |inUse| == 256 && i <= 16
    ensures |b| == i
  {
    if i == 0 then [] else GroupFlags(inUse, i - 1) + [GroupUsed(inUse, i - 1)]
  }

  /** The flags of the bytes from group `i` on, without the unused groups. */
  function UsedFlags(inUse: seq<bool>, i: nat): (b: seq<bool>)
    requires |inUse| == 256 && i <= 16
    decreases 16 - i
  {
    if i == 16 then [] else (if GroupUsed(inUse, i) then inUse[16 * i..16 * i + 16] else []) + UsedFlags(inUse, i + 1)
  }

  /** The flags of the bytes from byte `i` on whose group has its flag in `used16`. */
  function FlagBits(used16: seq<bool>, inUse: seq<bool>, i: nat): (b: seq<bool>)
    requires |used16| == 16 && |inUse| == 256
    decreases 256 - i
  {
    if i >= 256 then [] else (if used16[i / 16] then [inUse[i]] else []) + FlagBits(used16, inUse, i + 1)
  }

  function MapBits(inUse: seq<bool>): (b: seq<bool>)
    requires |inUse| == 256
  {
    GroupFlags(inUse, 16) + UsedFlags(inUse, 0)
  }

  // ---------------------------------------------------------------- selectors

  /** Move-to-front coding of the selectors. */
  function Select(list: seq<nat>, selector: seq<nat>): (s: seq<nat>)
    requires forall x :: 0 <= x < |selector| ==> selector[x] in list
    ensures |s| == |selector|
    decreases |selector|
  {
    if selector == [] then []
    else
      var k := IndexOf(list, selector[0]);
      forall x | 0 <= x < |selector| ensures selector[x] in Front(list, k) { FrontKeeps(list, k, selector[x]); }
      [k] + Select(Front(list, k), selector[1..])
  }

  function Unary(j: nat): (b: seq<bool>)
  {
    if j == 0 then [false] else [true] + Unary(j - 1)
  }

  function UnaryAll(s: seq<nat>): (b: seq<bool>)
  {
    if s == [] then [] else Unary(s[0]) + UnaryAll(s[1..])
  }

  // ---------------------------------------------------------------- code lengths

  /** From length `c` to length `l`: 10 for each step up, 11 for each step down. */
  function Delta(c: int, l: int): (b: seq<bool>)
    decreases if c < l then l - c else c - l
  {
    if c < l then [true, false] + Delta(c + 1, l) else if c > l then [true, true] + Delta(c - 1, l) else []
  }

  function Deltas(len: seq<nat>, i: nat, curr: int): (b: seq<bool>)
    requires i <= |len|
    decreases |len| - i
  {
    if i == |len| then [] else Delta(curr, len[i]) + [false] + Deltas(len, i + 1, len[i])
  }

  function LengthBits(len: seq<nat>): (b: seq<bool>)
    requires len != []
  {
    Bits(len[0], 5) + Deltas(len, 0, len[0])
  }

  function TablesBits(lens: seq<seq<nat>>): (b: seq<bool>)
    requires forall t :: 0 <= t < |lens| ==> lens[t] != []
  {
    if lens == [] then [] else LengthBits(lens[0]) + TablesBits(lens[1..])
  }

  // ---------------------------------------------------------------- any way to the code lengths

  /** A first value, and the steps to each length: `true` is a step down. */
  datatype Walk = Walk(start: nat, turns: seq<seq<bool>>)

  function Stepped(c: int, down: bool): (l: int)
  {
    if down then c - 1 else c + 1
  }

  function Walked(c: int, steps: seq<bool>): (l: int)
    decreases |steps|
  {
    if steps == [] then c else Walked(Stepped(c, steps[0]), steps[1..])
  }

  /** Every value on the way is a length. */
  ghost predicate StepsOk(c: int, steps: seq<bool>)
    ensures StepsOk(c, steps) ==> 1 <= Walked(c, steps) <= LONGEST
    decreases |steps|
  {
    1 <= c <= LONGEST && (steps != [] ==> StepsOk(Stepped(c, steps[0]), steps[1..]))
  }

  ghost predicate TurnsOk(c: int, turns: seq<seq<bool>>)
    decreases |turns|
  {
    turns != [] ==> StepsOk(c, turns[0]) && TurnsOk(Walked(c, turns[0]), turns[1..])
  }

  /** The lengths that the steps lead to. */
  ghost function LengthsFrom(c: int, turns: seq<seq<bool>>): (len: seq<nat>)
    requires TurnsOk(c, turns)
    ensures |len| == |turns| && Within(len, 1, LONGEST)
    decreases |turns|
  {
    if turns == [] then [] else [Walked(c, turns[0])] + LengthsFrom(Walked(c, turns[0]), turns[1..])
  }

  function StepsBits(steps: seq<bool>): (b: seq<bool>)
  {
    if steps == [] then [] else [true, steps[0]] + StepsBits(steps[1..])
  }

  function TurnsBits(turns: seq<seq<bool>>): (b: seq<bool>)
  {
    if turns == [] then [] else StepsBits(turns[0]) + [false] + TurnsBits(turns[1..])
  }

  function WalkBits(w: Walk): (b: seq<bool>)
  {
    Bits(w.start, 5) + TurnsBits(w.turns)
  }

  function WalksBits(ws: seq<Walk>): (b: seq<bool>)
  {
    if ws == [] then [] else WalkBits(ws[0]) + WalksBits(ws[1..])
  }

  /** The code lengths of all tables. */
  ghost function LengthsOf(ws: seq<Walk>): (lens: seq<seq<nat>>)
    requires forall t :: 0 <= t < |ws| ==> TurnsOk(ws[t].start, ws[t].turns)
    ensures |lens| == |ws| && forall t :: 0 <= t < |ws| ==> lens[t] == LengthsFrom(ws[t].start, ws[t].turns)
  {
    seq(|ws|, t requires 0 <= t < |ws| => LengthsFrom(ws[t].start, ws[t].turns))
  }

  /** The steps from one length to another, without a detour. */
  function Straight(c: int, l: int): (steps: seq<bool>)
    decreases if c < l then l - c else c - l
  {
    if c == l then [] else [c > l] + Straight(Stepped(c, c > l), l)
  }

  function StraightTurns(len: seq<nat>, c: int): (turns: seq<seq<bool>>)
  {
    if len == [] then [] else [Straight(c, len[0])] + StraightTurns(len[1..], len[0])
  }

  lemma {:induction false} StraightIs(c: int, l: int)
    requires 1 <= c <= LONGEST && 1 <= l <= LONGEST
    ensures StepsOk(c, Straight(c, l)) && Walked(c, Straight(c, l)) == l && StepsBits(Straight(c, l)) == Delta(c, l)
    decreases if c < l then l - c else c - l
  {
    if c != l {
      StraightIs(Stepped(c, c > l), l);
      assert Straight(c, l)[1..] == Straight(Stepped(c, c > l), l);
    }
  }

  lemma {:induction false} StraightTurnsAre(len: seq<nat>, i: nat, c: int)
    requires i <= |len| && Within(len, 1, LONGEST) && 1 <= c <= LONGEST
    ensures TurnsOk(c, StraightTurns(len[i..], c)) && LengthsFrom(c, StraightTurns(len[i..], c)) == len[i..]
    ensures TurnsBits(StraightTurns(len[i..], c)) == Deltas(len, i, c)
    decreases |len| - i
  {
    hide StepsOk, Walked, Straight, StepsBits, Delta;
    if i < |len| {
      StraightIs(c, len[i]);
      StraightTurnsAre(len, i + 1, len[i]);
      assert len[i..][1..] == len[i + 1..] && len[i..] == [len[i]] + len[i + 1..];
      var turns := StraightTurns(len[i..], c);
      assert turns == [Straight(c, len[i])] + StraightTurns(len[i + 1..], len[i]);
      assert turns[1..] == StraightTurns(len[i + 1..], len[i]);
    }
  }

  function StraightWalk(len: seq<nat>): (w: Walk)
    requires len != []
  {
    Walk(len[0], StraightTurns(len, len[0]))
  }

  /** The compressor's tables are walked straight. */
  lemma StraightWalkIs(len: seq<nat>)
    requires Lengths(len)
    ensures TurnsOk(StraightWalk(len).start, StraightWalk(len).turns)
    ensures LengthsFrom(StraightWalk(len).start, StraightWalk(len).turns) == len
    ensures LengthBits(len) == WalkBits(StraightWalk(len))
  {
    assert len[0..] == len;
    StraightTurnsAre(len, 0, len[0]);
  }

  ghost function StraightWalks(lens: seq<seq<nat>>): (ws: seq<Walk>)
    requires forall t :: 0 <= t < |lens| ==> lens[t] != []
    ensures |ws| == |lens| && forall t :: 0 <= t < |lens| ==> ws[t] == StraightWalk(lens[t])
  {
    seq(|lens|, t requires 0 <= t < |lens| => StraightWalk(lens[t]))
  }

  lemma {:induction false} StraightWalksAre(lens: seq<seq<nat>>)
    requires forall t :: 0 <= t < |lens| ==> Lengths(lens[t]) && lens[t] != []
    ensures TablesBits(lens) == WalksBits(StraightWalks(lens))
  {
    hide Lengths, LengthBits, WalkBits, StraightWalk;
    if lens != [] {
      StraightWalkIs(lens[0]);
      StraightWalksAre(lens[1..]);
      assert StraightWalks(lens) == [StraightWalk(lens[0])] + StraightWalks(lens[1..]);
    }
  }

  // ---------------------------------------------------------------- symbols

  /** The most selectors that 15 bits can announce. */
  const MOST_SELECTORS := 32767

  /** The group of 50 that symbol `k` belongs to. */
  function GroupOf(k: nat): (g: nat)
  {
    k / G_SIZE
  }

  /** How many symbols of its group follow symbol `k`. */
  function PlaceOf(k: nat): (p: nat)
  {
    G_SIZE - 1 - k % G_SIZE
  }

  /** The code lengths for symbol `k`. */
  function TableFor(body: Body, k: nat): (len: seq<nat>)
    requires GoodBody(body) && k < G_SIZE * |body.selector|
    ensures Lengths(len) && |len| == AlphaSize(body.inUse)
  {
    body.lens[body.selector[GroupOf(k)]]
  }

  /** Every group of 50 symbols has one of the first 18002 selectors, and every symbol a code that leads to it. */
  ghost predicate Sendable(body: Body, syms: seq<nat>)
  {
    && GoodBody(body) && 2 <= |body.lens| <= N_GROUPS && |syms| <= G_SIZE * |body.selector|
    && 1 <= |body.selector| <= MOST_SELECTORS && |syms| <= G_SIZE * MAX_SELECTORS
    && (forall k :: 0 <= k < |syms| ==> syms[k] < AlphaSize(body.inUse) && Readable(TableFor(body, k), syms[k]))
  }

  function SymbolsBits(body: Body, syms: seq<nat>, k: nat): (b: seq<bool>)
    requires Sendable(body, syms) && k <= |syms|
    decreases |syms| - k
  {
    if k == |syms| then [] else CodeBits(TableFor(body, k), syms[k]) + SymbolsBits(body, syms, k + 1)
  }

  // ---------------------------------------------------------------- the block

  ghost predicate GoodHead(head: Head, level: nat)
  {
    head.crc < 0x1_0000_0000 && head.origPtr < 100000 * level && 1 <= level <= 9
  }

  /** What the decoder accepts: it allows a little more than there can be. */
  ghost predicate HeadFits(head: Head, level: nat)
  {
    head.crc < 0x1_0000_0000 && head.origPtr <= 10 + 100000 * level && 1 <= level <= 9
  }

  function HeadBits(head: Head): (b: seq<bool>)
  {
    BytesBits(BLOCK_MAGIC) + BytesBits(WordBytes(head.crc)) + Bits(if head.randomised then 1 else 0, 1)
        + Bits(head.origPtr, 24)
  }

  lemma SelectorsListed(body: Body)
    requires GoodBody(body)
    ensures forall x :: 0 <= x < |body.selector| ==> body.selector[x] in Identity(|body.lens|)
  {
    forall x | 0 <= x < |body.selector| ensures body.selector[x] in Identity(|body.lens|) {
      assert Identity(|body.lens|)[body.selector[x]] == body.selector[x];
    }
  }

  /** The selectors' numbers. */
  ghost function SelectorMtf(body: Body): (s: seq<nat>)
    requires GoodBody(body)
    ensures |s| == |body.selector|
  {
    SelectorsListed(body);
    Select(Identity(|body.lens|), body.selector)
  }

  ghost function BodyBits(body: Body, syms: seq<nat>): (b: seq<bool>)
    requires Sendable(body, syms)
  {
    MapBits(body.inUse) + Bits(|body.lens|, 3) + Bits(|body.selector|, 15) + UnaryAll(SelectorMtf(body))
    + TablesBits(body.lens) + SymbolsBits(body, syms, 0)
  }

  ghost function BlockBits(body: Body, syms: seq<nat>): (b: seq<bool>)
    requires Sendable(body, syms)
  {
    HeadBits(body.head) + BodyBits(body, syms)
  }

  function StreamHead(level: nat): (b: seq<bool>)
  {
    BytesBits([0x42, 0x5a, 0x68, 0x30 + level])
  }

  function TrailerBits(crc: nat): (b: seq<bool>)
  {
    BytesBits(END_MAGIC) + BytesBits(WordBytes(crc))
  }
}
