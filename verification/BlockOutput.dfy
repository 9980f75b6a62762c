/**
 sendMTFValues (compress.c lines 239-600) and the block part of compressBlock: sending the
 map, the selectors, the code lengths and the symbols through the bit buffer.

 Any choice of tables is sent correctly; TableChoice has the choice that is made.
 */
module BlockOutput {

  import opened Rotation
  import opened Counting
  import opened Words
  import opened BitStrings
  import opened Codes
  import opened HuffmanTree
  import opened Mtf
  import opened ByteMap
  import opened MtfEncoder
  import opened Parser
  import opened BlockFormat
  import opened BitOutput

  lemma BitIs(x: bool)
    ensures Bits(if x then 1 else 0, 1) == [x] && (if x then 1 else 0) < Pow2(1)
  {
    assert Bits(if x then 1 else 0, 1) == Bits(0, 0) + [x];
    assert Pow2(1) == 2 * Pow2(0);
  }

  lemma Assoc<T>(a: seq<T>, b: seq<T>, c: seq<T>)
    ensures a + b + c == a + (b + c)
  {
  }

  method PutBit(w: BitWriter, x: bool)
    requires w.Valid()
    modifies w
    ensures w.Valid() && w.Contents() == old(w.Contents()) + [x] && old(w.zbits) <= w.zbits
  {
    BitIs(x);
    hide *;
    w.W(1, if x then 1 else 0);
  }

  // ---------------------------------------------------------------- the byte map

  method SendMap(w: BitWriter, inUse: seq<bool>)
    requires w.Valid() && |inUse| == 256
    modifies w
    ensures w.Valid() && w.Contents() == old(w.Contents()) + MapBits(inUse) && old(w.zbits) <= w.zbits
  {
    hide *;
    ghost var before := w.Contents();
    MapIs(inUse);
    assert before + GroupFlags(inUse, 0) == before;
    for i := 0 to 16
      invariant w.Valid() && w.Contents() == before + GroupFlags(inUse, i) && old(w.zbits) <= w.zbits
    {
      var used := GroupUsed(inUse, i);
      GroupFlagsNext(inUse, i);
      Assoc(before, GroupFlags(inUse, i), [used]);
      PutBit(w, used);
    }
    ghost var flags := before + GroupFlags(inUse, 16);
    for i := 0 to 16
      invariant w.Valid() && w.Contents() + UsedFlags(inUse, i) == flags + UsedFlags(inUse, 0)
      invariant old(w.zbits) <= w.zbits
    {
      UsedFlagsIs(inUse, i);
      if GroupUsed(inUse, i) {
        SendGroup(w, inUse, i);
        Assoc(w.Contents()[..|w.Contents()| - 16], inUse[16 * i..16 * i + 16], UsedFlags(inUse, i + 1));
      }
    }
    UsedFlagsEnd(inUse);
    Assoc(before, GroupFlags(inUse, 16), UsedFlags(inUse, 0));
  }

  lemma MapIs(inUse: seq<bool>)
    requires |inUse| == 256
    ensures GroupFlags(inUse, 0) == [] && MapBits(inUse) == GroupFlags(inUse, 16) + UsedFlags(inUse, 0)
  {
    hide UsedFlags;
  }

  lemma GroupFlagsNext(inUse: seq<bool>, i: nat)
    requires |inUse| == 256 && i < 16
    ensures GroupFlags(inUse, i + 1) == GroupFlags(inUse, i) + [GroupUsed(inUse, i)]
  {
    hide GroupUsed;
  }

  lemma UsedFlagsIs(inUse: seq<bool>, i: nat)
    requires |inUse| == 256 && i < 16
    ensures UsedFlags(inUse, i) == (if GroupUsed(inUse, i) then inUse[16 * i..16 * i + 16] else [])
              + UsedFlags(inUse, i + 1)
    ensures !GroupUsed(inUse, i) ==> UsedFlags(inUse, i) == UsedFlags(inUse, i + 1)
  {
  }

  lemma UsedFlagsEnd(inUse: seq<bool>)
    requires |inUse| == 256
    ensures UsedFlags(inUse, 16) == []
  {
  }

  method SendGroup(w: BitWriter, inUse: seq<bool>, i: nat)
    requires w.Valid() && |inUse| == 256 && i < 16
    modifies w
    ensures w.Valid() && w.Contents() == old(w.Contents()) + inUse[16 * i..16 * i + 16] && old(w.zbits) <= w.zbits
  {
    ghost var before := w.Contents();
    ghost var part := inUse[16 * i..16 * i + 16];
    assert before + part[..0] == before;
    hide Holds, BytesBits;
    for j := 0 to 16
      invariant w.Valid() && w.Contents() == before + part[..j] && old(w.zbits) <= w.zbits
    {
      assert part[..j + 1] == part[..j] + [inUse[16 * i + j]];
      Assoc(before, part[..j], [inUse[16 * i + j]]);
      PutBit(w, inUse[16 * i + j]);
    }
    assert part[..16] == part;
  }

  // ---------------------------------------------------------------- selectors

  /** Finds a selector's place in the list and moves it to the front. */
  method MovePosition(pos: array<nat>, n: nat, ll: nat, ghost list: seq<nat>) returns (j: nat)
    requires n <= pos.Length && pos[..n] == list && ll in list
    modifies pos
    ensures j == IndexOf(list, ll) && j < n && pos[..n] == Front(list, j)
  {
    hide IndexOf;
    ghost var at := IndexOf(list, ll);
    j := 0;
    var tmp := pos[j];
    while ll != tmp
      invariant 0 <= j <= at < n && tmp == list[j]
      invariant forall k :: 1 <= k <= j ==> pos[k] == list[k - 1]
      invariant forall k :: j < k < n ==> pos[k] == list[k]
      invariant forall k :: 0 <= k < j ==> list[k] != ll
      decreases at - j
    {
      j := j + 1;
      var tmp2 := tmp;
      tmp := pos[j];
      pos[j] := tmp2;
    }
    pos[0] := tmp;
    IndexUnique(list, ll, j);
    assert pos[..n] == Front(list, j);
  }

  ghost predicate Listed(list: seq<nat>, s: seq<nat>)
  {
    forall x :: 0 <= x < |s| ==> s[x] in list
  }

  lemma SelectStep(list: seq<nat>, s: seq<nat>, i: nat, done: seq<nat>, all: seq<nat>)
    requires i < |s| && Listed(list, s[i..]) && done + Select(list, s[i..]) == all
    ensures s[i] in list
    ensures var k := IndexOf(list, s[i]);
            Listed(Front(list, k), s[i + 1..]) && done + [k] + Select(Front(list, k), s[i + 1..]) == all
  {
    var k := IndexOf(list, s[i..][0]);
    assert s[i..][1..] == s[i + 1..];
    var more := s[i + 1..];
    forall x | 0 <= x < |more| ensures more[x] in Front(list, k) {
      assert more[x] == s[i..][x + 1];
      FrontKeeps(list, k, more[x]);
    }
    Assoc(done, [k], Select(Front(list, k), s[i + 1..]));
  }

  lemma SelectEnds(list: seq<nat>, s: seq<nat>)
    requires Listed(list, s)
    ensures Listed(list, s[0..]) && s[0..] == s && Select(list, s[0..]) == Select(list, s)
    ensures s[|s|..] == [] && Listed(list, s[|s|..]) && Select(list, s[|s|..]) == []
  {
    assert s[0..] == s;
  }

  method SelectorValues(selector: seq<nat>, nGroups: nat) returns (mtf: seq<nat>)
    requires Listed(Identity(nGroups), selector)
    ensures mtf == Select(Identity(nGroups), selector)
  {
    var pos := new nat[nGroups];
    for i := 0 to nGroups
      invariant forall x :: 0 <= x < i ==> pos[x] == x
    {
      pos[i] := i;
    }
    assert pos[..nGroups] == Identity(nGroups);
    mtf := [];
    ghost var all := Select(Identity(nGroups), selector);
    SelectEnds(Identity(nGroups), selector);
    ghost var list := Identity(nGroups);
    hide Identity, Listed, IndexOf, Front, Select;
    for i := 0 to |selector|
      invariant |list| == nGroups && pos[..nGroups] == list
      invariant Listed(list, selector[i..]) && (Listed(list, selector[i..]) ==> SelectOf(list, selector[i..], mtf, all))
    {
      SelectStep(list, selector, i, mtf, all);
      var j := MovePosition(pos, nGroups, selector[i], list);
      mtf := mtf + [j];
      list := Front(list, j);
    }
    SelectDone(list, selector, mtf, all);
  }

  ghost predicate SelectOf(list: seq<nat>, s: seq<nat>, done: seq<nat>, all: seq<nat>)
    requires Listed(list, s)
  {
    done + Select(list, s) == all
  }

  lemma SelectDone(list: seq<nat>, s: seq<nat>, done: seq<nat>, all: seq<nat>)
    requires Listed(list, s[|s|..]) && SelectOf(list, s[|s|..], done, all)
    ensures done == all
  {
  }

  method SendSelectors(w: BitWriter, mtf: seq<nat>)
    requires w.Valid()
    modifies w
    ensures w.Valid() && w.Contents() == old(w.Contents()) + UnaryAll(mtf) && old(w.zbits) <= w.zbits
  {
    ghost var before := w.Contents();
    assert mtf[0..] == mtf;
    hide Holds, BytesBits, UnaryAll;
    for i := 0 to |mtf|
      invariant w.Valid() && w.Contents() + UnaryAll(mtf[i..]) == before + UnaryAll(mtf) && old(w.zbits) <= w.zbits
    {
      ghost var here := w.Contents();
      UnaryAllStep(mtf, i);
      SendUnary(w, mtf[i]);
      Assoc(here, Unary(mtf[i]), UnaryAll(mtf[i + 1..]));
    }
    UnaryAllStep(mtf, |mtf|);
  }

  lemma UnaryAllStep(mtf: seq<nat>, i: nat)
    requires i <= |mtf|
    ensures i < |mtf| ==> UnaryAll(mtf[i..]) == Unary(mtf[i]) + UnaryAll(mtf[i + 1..])
    ensures i == |mtf| ==> UnaryAll(mtf[i..]) == []
  {
    if i < |mtf| {
      assert mtf[i..][1..] == mtf[i + 1..];
    }
  }

  method SendUnary(w: BitWriter, d: nat)
    requires w.Valid()
    modifies w
    ensures w.Valid() && w.Contents() == old(w.Contents()) + Unary(d) && old(w.zbits) <= w.zbits
  {
    ghost var before := w.Contents();
    hide Holds, BytesBits, Unary;
    for j := 0 to d
      invariant w.Valid() && w.Contents() + Unary(d - j) == before + Unary(d) && old(w.zbits) <= w.zbits
    {
      ghost var here := w.Contents();
      UnaryIs(d - j);
      PutBit(w, true);
      Assoc(here, [true], Unary(d - j - 1));
    }
    UnaryIs(0);
    PutBit(w, false);
  }

  lemma UnaryIs(d: nat)
    ensures Unary(d) == if d == 0 then [false] else [true] + Unary(d - 1)
  {
  }

  // ---------------------------------------------------------------- code lengths

  /** Two bits: 10 or 11. */
  method PutTwo(w: BitWriter, down: bool)
    requires w.Valid()
    modifies w
    ensures w.Valid() && w.Contents() == old(w.Contents()) + [true, down] && old(w.zbits) <= w.zbits
  {
    var v := if down then 3 else 2;
    assert Bits(v / 2, 1) == Bits(0, 0) + [true];
    assert Bits(v, 2) == Bits(v / 2, 1) + [down] == [true, down];
    assert Pow2(2) == 4;
    hide *;
    w.W(2, v);
  }

  lemma DeltaIs(curr: nat, l: nat)
    ensures Delta(curr, l) == if curr < l then [true, false] + Delta(curr + 1, l)
                              else if curr > l then [true, true] + Delta(curr - 1, l) else []
  {
  }

  method SendLength(w: BitWriter, curr0: nat, l: nat)
    requires w.Valid()
    modifies w
    ensures w.Valid() && w.Contents() == old(w.Contents()) + Delta(curr0, l) + [false] && old(w.zbits) <= w.zbits
  {
    hide *;
    ghost var before := w.Contents();
    var curr := curr0;
    while curr < l
      invariant w.Valid() && w.Contents() + Delta(curr, l) == before + Delta(curr0, l) && old(w.zbits) <= w.zbits
      invariant curr0 <= l ==> curr <= l
      invariant curr0 > l ==> curr == curr0
    {
      ghost var here := w.Contents();
      DeltaIs(curr, l);
      PutTwo(w, false);
      Assoc(here, [true, false], Delta(curr + 1, l));
      curr := curr + 1;
    }
    while curr > l
      invariant w.Valid() && w.Contents() + Delta(curr, l) == before + Delta(curr0, l) && old(w.zbits) <= w.zbits
      invariant curr >= l
    {
      ghost var here := w.Contents();
      DeltaIs(curr, l);
      PutTwo(w, true);
      Assoc(here, [true, true], Delta(curr - 1, l));
      curr := curr - 1;
    }
    DeltaIs(l, l);
    PutBit(w, false);
  }

  method SendTable(w: BitWriter, len: seq<nat>)
    requires w.Valid() && len != [] && len[0] < 32
    modifies w
    ensures w.Valid() && w.Contents() == old(w.Contents()) + LengthBits(len) && old(w.zbits) <= w.zbits
  {
    ghost var before := w.Contents();
    assert Pow2(5) == 32 by {
      assert Pow2(3) == 8;
    }
    assert LengthBits(len) == Bits(len[0], 5) + Deltas(len, 0, len[0]);
    hide Holds, BytesBits, LengthBits, Bits, Pow2, Deltas, Delta;
    var curr := len[0];
    w.W(5, curr);
    Assoc(before, Bits(len[0], 5), Deltas(len, 0, len[0]));
    for i := 0 to |len|
      invariant w.Valid() && w.Contents() + Deltas(len, i, curr) == before + LengthBits(len) && old(w.zbits) <= w.zbits
    {
      ghost var here := w.Contents();
      DeltasIs(len, i, curr);
      SendLength(w, curr, len[i]);
      Assoc(here, Delta(curr, len[i]), [false]);
      Assoc(here, Delta(curr, len[i]) + [false], Deltas(len, i + 1, len[i]));
      curr := len[i];
    }
    DeltasIs(len, |len|, curr);
  }

  lemma DeltasIs(len: seq<nat>, i: nat, curr: int)
    requires i <= |len|
    ensures i == |len| ==> Deltas(len, i, curr) == []
    ensures i < |len| ==> Deltas(len, i, curr) == Delta(curr, len[i]) + [false] + Deltas(len, i + 1, len[i])
  {
  }

  method SendTables(w: BitWriter, lens: seq<seq<nat>>)
    requires w.Valid() && forall t :: 0 <= t < |lens| ==> lens[t] != [] && lens[t][0] < 32
    modifies w
    ensures w.Valid() && w.Contents() == old(w.Contents()) + TablesBits(lens) && old(w.zbits) <= w.zbits
  {
    ghost var before := w.Contents();
    assert lens[0..] == lens;
    hide Holds, BytesBits, LengthBits, TablesBits;
    for t := 0 to |lens|
      invariant w.Valid() && w.Contents() + TablesBits(lens[t..]) == before + TablesBits(lens)
      invariant old(w.zbits) <= w.zbits
    {
      ghost var here := w.Contents();
      TablesIs(lens, t);
      SendTable(w, lens[t]);
      Assoc(here, LengthBits(lens[t]), TablesBits(lens[t + 1..]));
    }
    TablesIs(lens, |lens|);
  }

  lemma TablesIs(lens: seq<seq<nat>>, t: nat)
    requires t <= |lens| && forall x :: 0 <= x < |lens| ==> lens[x] != []
    ensures t == |lens| ==> TablesBits(lens[t..]) == []
    ensures t < |lens| ==> TablesBits(lens[t..]) == LengthBits(lens[t]) + TablesBits(lens[t + 1..])
  {
    hide LengthBits;
    if t < |lens| {
      assert lens[t..][1..] == lens[t + 1..];
    }
  }

  // ---------------------------------------------------------------- symbols

  ghost predicate CodesOf(codes: seq<seq<nat>>, lens: seq<seq<nat>>)
  {
    && |codes| == |lens|
    && forall t :: 0 <= t < |lens| ==> |codes[t]| == |lens[t]| && IsCode(codes[t], lens[t])
  }

  ghost predicate IsCode(code: seq<nat>, len: seq<nat>)
    requires |code| == |len|
  {
    forall i :: 0 <= i < |len| ==> code[i] == Code(len, i)
  }

  method AssignOne(len: seq<nat>) returns (code: seq<nat>)
    requires Within(len, 1, 17)
    ensures |code| == |len| && IsCode(code, len)
  {
    var n := |len|;
    var a, l := new nat[n], new nat[n];
    for i := 0 to n
      invariant forall x :: 0 <= x < i ==> l[x] == len[x]
    {
      l[i] := len[i];
    }
    assert l[..n] == len;
    var minLen, maxLen := 32, 0;
    for i := 0 to n
      invariant l[..n] == len && forall x :: 0 <= x < i ==> minLen <= len[x] <= maxLen
      invariant maxLen <= 17 && minLen >= 1
    {
      if l[i] > maxLen {
        maxLen := l[i];
      }
      if l[i] < minLen {
        minLen := l[i];
      }
    }
    hide Code;
    AssignCodes(a, l, minLen, maxLen, n);
    code := a[..];
  }

  method AssignAll(lens: seq<seq<nat>>) returns (codes: seq<seq<nat>>)
    requires forall t :: 0 <= t < |lens| ==> Within(lens[t], 1, 17)
    ensures CodesOf(codes, lens)
  {
    hide IsCode;
    codes := [];
    for t := 0 to |lens|
      invariant |codes| == t && forall x :: 0 <= x < t ==> |codes[x]| == |lens[x]| && IsCode(codes[x], lens[x])
    {
      var c := AssignOne(lens[t]);
      codes := codes + [c];
    }
  }

  lemma SymbolIs(body: Body, syms: seq<nat>, codes: seq<seq<nat>>, k: nat)
    requires Sendable(body, syms) && CodesOf(codes, body.lens) && k <= |syms|
    requires forall t :: 0 <= t < |body.lens| ==> Within(body.lens[t], 1, 17)
    ensures k == |syms| ==> SymbolsBits(body, syms, k) == []
    ensures k < |syms| ==> GroupOf(k) < |body.selector| && body.selector[GroupOf(k)] < |body.lens| == |codes|
    ensures k < |syms| ==>
              var len, code := body.lens[body.selector[GroupOf(k)]], codes[body.selector[GroupOf(k)]];
              && syms[k] < |len| == |code| && len[syms[k]] <= 17 && code[syms[k]] < Pow2(len[syms[k]])
              && SymbolsBits(body, syms, k) == Bits(code[syms[k]], len[syms[k]]) + SymbolsBits(body, syms, k + 1)
  {
    hide Readable, Code, Bits, Pow2, Used;
    if k < |syms| {
      var len := TableFor(body, k);
      ReadableFacts(len, syms[k], syms[k]);
      assert IsCode(codes[body.selector[GroupOf(k)]], len);
    }
  }

  lemma GroupSize()
    ensures G_SIZE == 50
  {
  }

  lemma GroupIs(k: nat, g: nat)
    requires 50 * g <= k < 50 * g + 50
    ensures GroupOf(k) == g
  {
  }

  method SendSymbols(w: BitWriter, arr1: array<nat>, nMTF: nat, body: Body, codes: seq<seq<nat>>, ghost syms: seq<nat>)
    requires w.Valid() && Sendable(body, syms) && CodesOf(codes, body.lens) && nMTF == |syms|
    requires G_SIZE * (|body.selector| - 1) < nMTF
    requires forall t :: 0 <= t < |body.lens| ==> Within(body.lens[t], 1, 17)
    requires forall k :: 0 <= k < nMTF ==> k / 2 < arr1.Length && Half(arr1[..], k) == syms[k]
    modifies w
    ensures w.Valid() && w.Contents() == old(w.Contents()) + SymbolsBits(body, syms, 0) && old(w.zbits) <= w.zbits
  {
    hide *;
    GroupSize();
    ghost var before := w.Contents();
    ghost var words: seq<nat> := arr1[..];
    var selCtr: nat, gs: nat := 0, 0;
    while gs < nMTF
      invariant arr1[..] == words && gs <= nMTF && (gs < nMTF ==> gs == 50 * selCtr) && 50 * (selCtr - 1) < nMTF
      invariant gs == nMTF ==> nMTF <= 50 * selCtr
      invariant w.Valid() && w.Contents() + SymbolsBits(body, syms, gs) == before + SymbolsBits(body, syms, 0)
      invariant old(w.zbits) <= w.zbits
      decreases nMTF - gs
    {
      var ge := if gs + G_SIZE - 1 >= nMTF then nMTF - 1 else gs + G_SIZE - 1;
      for i := gs to ge + 1
        invariant arr1[..] == words
        invariant w.Valid() && w.Contents() + SymbolsBits(body, syms, i) == before + SymbolsBits(body, syms, 0)
        invariant old(w.zbits) <= w.zbits
      {
        SymbolIs(body, syms, codes, i);
        GroupIs(i, selCtr);
        var sym := Half(arr1[..], i);
        var n, v := body.lens[body.selector[selCtr]][sym], codes[body.selector[selCtr]][sym];
        ghost var here := w.Contents();
        w.W(n, v);
        Assoc(here, Bits(v, n), SymbolsBits(body, syms, i + 1));
      }
      gs := ge + 1;
      selCtr := selCtr + 1;
    }
    SymbolIs(body, syms, codes, nMTF);
    SelectorsCover(body, syms);
    // assertion 3007
    assert selCtr == |body.selector|;
  }

  lemma SelectorsCover(body: Body, syms: seq<nat>)
    requires Sendable(body, syms)
    ensures |syms| <= 50 * |body.selector|
  {
    hide GoodBody, Readable;
  }
}
