/**
 The coding tables of a block (compress.c lines 265-457): the first tables, the cheapest table for
 each group of 50 symbols, and tables made anew from what each of them was chosen for.
 */
module TableChoice {

  import opened Rotation
  import opened Counting
  import opened Codes
  import opened HuffmanTree
  import opened HuffmanOptimal
  import Huffman
  import opened TotalSeqs
  import opened MtfEncoder
  import opened Parser

  const LESSER_ICOST := 0
  const GREATER_ICOST := 15

  // ---------------------------------------------------------------- what a group costs

  /** The cost of the symbols `from .. to - 1` with code lengths `len`. */
  function Cost(syms: seq<nat>, len: seq<nat>, from: nat, to: nat): (c: nat)
    requires to <= |syms| && forall k :: 0 <= k < |syms| ==> syms[k] < |len|
  {
    if to <= from then 0 else Cost(syms, len, from, to - 1) + len[syms[to - 1]]
  }

  /** The tables that costs are taken from: lengths of at most 17 for every symbol. */
  ghost predicate Priced(lens: seq<seq<nat>>, alphaSize: nat)
  {
    forall t :: 0 <= t < |lens| ==> |lens[t]| == alphaSize && forall v :: 0 <= v < alphaSize ==> lens[t][v] <= 17
  }

  ghost predicate InAlphabet(syms: seq<nat>, alphaSize: nat)
  {
    forall k :: 0 <= k < |syms| ==> syms[k] < alphaSize
  }

  lemma {:induction false} CostBound(syms: seq<nat>, len: seq<nat>, from: nat, to: nat)
    requires to <= |syms| && InAlphabet(syms, |len|) && forall v :: 0 <= v < |len| ==> len[v] <= 17
    ensures from <= to ==> Cost(syms, len, from, to) <= 17 * (to - from)
  {
    if from < to {
      CostBound(syms, len, from, to - 1);
    }
  }

  /** The 16-bit symbols of the block, two to a word. */
  ghost predicate Holding(words: seq<nat>, syms: seq<nat>)
  {
    forall k :: 0 <= k < |syms| ==> k / 2 < |words| && Half(words, k) == syms[k]
  }

  /** `cost` holds the cost of the symbols `gs .. to - 1` with each table. */
  ghost predicate Costed(cost: seq<nat>, syms: seq<nat>, lens: seq<seq<nat>>, alphaSize: nat, gs: nat, to: nat)
  {
    && InAlphabet(syms, alphaSize) && Priced(lens, alphaSize) && to <= |syms| && |cost| == |lens|
    && forall t :: 0 <= t < |lens| ==> cost[t] == Cost(syms, lens[t], gs, to)
  }

  /** Adds what symbol `icv` costs with each table. */
  method AddCosts(cost: array<nat>, lens: seq<seq<nat>>, alphaSize: nat, icv: nat)
    requires cost.Length == |lens| && Priced(lens, alphaSize) && icv < alphaSize
    modifies cost
    ensures forall t :: 0 <= t < |lens| ==> |lens[t]| == alphaSize && cost[t] == old(cost[t]) + lens[t][icv]
  {
    for t := 0 to |lens|
      invariant forall u :: 0 <= u < |lens| ==> cost[u] == old(cost[u]) + if u < t then lens[u][icv] else 0
    {
      cost[t] := cost[t] + lens[t][icv];
    }
  }

  lemma CostedMore(cost: seq<nat>, cost': seq<nat>, syms: seq<nat>, lens: seq<seq<nat>>, alphaSize: nat, gs: nat,
                   i: nat)
    requires Costed(cost, syms, lens, alphaSize, gs, i) && gs <= i < |syms| && |cost'| == |cost|
    requires forall t :: 0 <= t < |lens| ==> |lens[t]| == alphaSize && cost'[t] == cost[t] + lens[t][syms[i]]
    ensures Costed(cost', syms, lens, alphaSize, gs, i + 1)
  {
  }

  /** The slow way, which does for every group: each symbol is added to each cost. */
  method SlowCosts(arr1: array<nat>, lens: seq<seq<nat>>, alphaSize: nat, gs: nat, ge: nat, ghost syms: seq<nat>)
    returns (cost: seq<nat>)
    requires Holding(arr1[..], syms) && InAlphabet(syms, alphaSize) && Priced(lens, alphaSize) && gs <= ge < |syms|
    ensures Costed(cost, syms, lens, alphaSize, gs, ge + 1)
  {
    ghost var words: seq<nat> := arr1[..];
    var sums := new nat[|lens|](_ => 0);
    assert Costed(sums[..], syms, lens, alphaSize, gs, gs);
    hide Costed, Half, Priced;
    for i := gs to ge + 1
      invariant arr1[..] == words && sums.Length == |lens| && Costed(sums[..], syms, lens, alphaSize, gs, i)
    {
      ghost var was: seq<nat> := sums[..];
      AddCosts(sums, lens, alphaSize, Half(arr1[..], i));
      CostedMore(was, sums[..], syms, lens, alphaSize, gs, i);
    }
    cost := sums[..];
  }

  /** One word of `len_pack`: two lengths. */
  function PackPair(high: nat, low: nat): (w: nat)
  {
    65536 * high + low
  }

  function Low(w: nat): (r: nat)
  {
    w % 65536
  }

  function High(w: nat): (r: nat)
  {
    w / 65536
  }

  /** The halves of the sums of two tables: neither overflows. */
  lemma PackedPair(syms: seq<nat>, lens: seq<seq<nat>>, alphaSize: nat, t: nat, from: nat, to: nat)
    requires to <= |syms| && InAlphabet(syms, alphaSize) && Priced(lens, alphaSize) && t + 1 < |lens|
    requires from <= to <= from + 50
    ensures |lens[t]| == |lens[t + 1]| == alphaSize
    ensures var c := PackPair(Cost(syms, lens[t + 1], from, to), Cost(syms, lens[t], from, to));
            && Low(c) == Cost(syms, lens[t], from, to) && High(c) == Cost(syms, lens[t + 1], from, to)
            && c < 0x1_0000_0000
  {
    CostBound(syms, lens[t + 1], from, to);
    CostBound(syms, lens[t], from, to);
  }

  /** Both halves take one more symbol. */
  lemma PackedMore(syms: seq<nat>, high: seq<nat>, low: seq<nat>, from: nat, i: nat, n: nat)
    requires i < |syms| && InAlphabet(syms, n) && |high| == |low| == n && from <= i
    ensures PackPair(Cost(syms, high, from, i), Cost(syms, low, from, i)) + PackPair(high[syms[i]], low[syms[i]])
            == PackPair(Cost(syms, high, from, i + 1), Cost(syms, low, from, i + 1))
  {
  }

  /** All six tables are for the alphabet. */
  lemma SixSizes(lens: seq<seq<nat>>, alphaSize: nat)
    requires Priced(lens, alphaSize) && |lens| == 6
    ensures |lens[0]| == |lens[1]| == |lens[2]| == |lens[3]| == |lens[4]| == |lens[5]| == alphaSize
  {
  }

  /** The fast way for six tables and 50 symbols: two costs in the halves of a word. */
  method FastCosts(arr1: array<nat>, lens: seq<seq<nat>>, alphaSize: nat, gs: nat, ge: nat, ghost syms: seq<nat>)
    returns (cost: seq<nat>)
    requires Holding(arr1[..], syms) && InAlphabet(syms, alphaSize) && Priced(lens, alphaSize) && ge == gs + 49 < |syms|
    requires |lens| == 6
    ensures Costed(cost, syms, lens, alphaSize, gs, ge + 1)
  {
    hide Half, PackPair, Priced, Cost, Low, High, Holding, Costed;
    SixSizes(lens, alphaSize);
    var cost01, cost23, cost45 := 0, 0, 0;
    PackedNone(syms, lens[1], lens[0], gs, alphaSize);
    PackedNone(syms, lens[3], lens[2], gs, alphaSize);
    PackedNone(syms, lens[5], lens[4], gs, alphaSize);
    for i := gs to ge + 1
      invariant cost01 == PackPair(Cost(syms, lens[1], gs, i), Cost(syms, lens[0], gs, i))
      invariant cost23 == PackPair(Cost(syms, lens[3], gs, i), Cost(syms, lens[2], gs, i))
      invariant cost45 == PackPair(Cost(syms, lens[5], gs, i), Cost(syms, lens[4], gs, i))
    {
      HoldingAt(arr1[..], syms, i);
      var icv := Half(arr1[..], i);
      PackedMore(syms, lens[1], lens[0], gs, i, alphaSize);
      PackedMore(syms, lens[3], lens[2], gs, i, alphaSize);
      PackedMore(syms, lens[5], lens[4], gs, i, alphaSize);
      cost01 := cost01 + PackPair(lens[1][icv], lens[0][icv]);
      cost23 := cost23 + PackPair(lens[3][icv], lens[2][icv]);
      cost45 := cost45 + PackPair(lens[5][icv], lens[4][icv]);
    }
    PackedPair(syms, lens, alphaSize, 0, gs, ge + 1);
    PackedPair(syms, lens, alphaSize, 2, gs, ge + 1);
    PackedPair(syms, lens, alphaSize, 4, gs, ge + 1);
    cost := [Low(cost01), High(cost01), Low(cost23), High(cost23), Low(cost45), High(cost45)];
    SixCosted(cost, syms, lens, alphaSize, gs, ge + 1);
  }

  lemma HoldingAt(words: seq<nat>, syms: seq<nat>, i: nat)
    requires Holding(words, syms) && i < |syms|
    ensures i / 2 < |words| && Half(words, i) == syms[i]
  {
  }

  lemma SixCosted(cost: seq<nat>, syms: seq<nat>, lens: seq<seq<nat>>, alphaSize: nat, gs: nat, to: nat)
    requires InAlphabet(syms, alphaSize) && Priced(lens, alphaSize) && to <= |syms| && |cost| == |lens| == 6
    requires cost[0] == Cost(syms, lens[0], gs, to) && cost[1] == Cost(syms, lens[1], gs, to)
    requires cost[2] == Cost(syms, lens[2], gs, to) && cost[3] == Cost(syms, lens[3], gs, to)
    requires cost[4] == Cost(syms, lens[4], gs, to) && cost[5] == Cost(syms, lens[5], gs, to)
    ensures Costed(cost, syms, lens, alphaSize, gs, to)
  {
    hide Cost;
  }

  lemma PackedNone(syms: seq<nat>, high: seq<nat>, low: seq<nat>, from: nat, n: nat)
    requires from <= |syms| && InAlphabet(syms, n) && |high| == |low| == n
    ensures PackPair(Cost(syms, high, from, from), Cost(syms, low, from, from)) == 0
  {
  }

  /** Table `t` is the first of the cheapest for the symbols `from .. to - 1`. */
  ghost predicate Cheapest(syms: seq<nat>, lens: seq<seq<nat>>, alphaSize: nat, from: nat, to: nat, t: nat)
    requires InAlphabet(syms, alphaSize) && Priced(lens, alphaSize) && to <= |syms|
  {
    && t < |lens|
    && forall u :: 0 <= u < |lens| ==>
         && Cost(syms, lens[t], from, to) <= Cost(syms, lens[u], from, to)
         && (u < t ==> Cost(syms, lens[t], from, to) < Cost(syms, lens[u], from, to))
  }

  method FindBest(cost: seq<nat>, lens: seq<seq<nat>>, alphaSize: nat, gs: nat, to: nat, ghost syms: seq<nat>)
    returns (bt: nat)
    requires Costed(cost, syms, lens, alphaSize, gs, to) && gs <= to <= gs + 50 && 1 <= |lens|
    ensures Cheapest(syms, lens, alphaSize, gs, to, bt)
  {
    var bc, best: int := 999999999, -1;
    CostBound(syms, lens[0], gs, to);
    for t := 0 to |lens|
      invariant best < t && (t > 0 ==> 0 <= best && bc == cost[best])
      invariant t == 0 ==> bc > cost[0]
      invariant forall u :: 0 <= u < t ==> bc <= cost[u] && (u < best ==> bc < cost[u])
    {
      if cost[t] < bc {
        bc := cost[t];
        best := t;
      }
    }
    bt := best;
  }

  // ---------------------------------------------------------------- one round

  /** Where group `g` ends. */
  function GroupEnd(g: nat, n: nat): (e: nat)
  {
    if 50 * g + 50 < n then 50 * g + 50 else n
  }

  /** Every group takes the first of the tables that are cheapest for it. */
  ghost predicate Chosen(selector: seq<nat>, syms: seq<nat>, lens: seq<seq<nat>>, alphaSize: nat)
  {
    && InAlphabet(syms, alphaSize) && Priced(lens, alphaSize)
    && forall g :: 0 <= g < |selector| ==> Cheapest(syms, lens, alphaSize, 50 * g, GroupEnd(g, |syms|), selector[g])
  }

  /** How often symbol `v` is in the groups of table `t`, among the first `k` symbols. */
  ghost function TableFreq(syms: seq<nat>, selector: seq<nat>, t: nat, v: nat, k: nat): (f: nat)
    requires k <= |syms| && k <= 50 * |selector|
  {
    if k == 0 then 0
    else TableFreq(syms, selector, t, v, k - 1) + if selector[(k - 1) / 50] == t && syms[k - 1] == v then 1 else 0
  }

  lemma {:induction false} TableFreqMore(syms: seq<nat>, selector: seq<nat>, x: nat, t: nat, v: nat, k: nat)
    requires k <= |syms| && k <= 50 * |selector|
    ensures TableFreq(syms, selector + [x], t, v, k) == TableFreq(syms, selector, t, v, k)
  {
    if k > 0 {
      TableFreqMore(syms, selector, x, t, v, k - 1);
    }
  }

  /** The frequencies of table `t`, symbol by symbol. */
  ghost function TableFreqs(syms: seq<nat>, selector: seq<nat>, t: nat, alphaSize: nat, k: nat): (f: seq<nat>)
    requires k <= |syms| && k <= 50 * |selector|
    ensures |f| == alphaSize
  {
    seq(alphaSize, v requires 0 <= v => TableFreq(syms, selector, t, v, k))
  }

  lemma {:induction false} TotalZero(fw: seq<nat>, k: nat)
    requires k < |fw| && forall i :: 1 <= i <= k ==> fw[i] == 1
    ensures Total(fw, k) == k
  {
    if k > 0 {
      TotalZero(fw, k - 1);
    }
  }

  lemma {:induction false} TotalBump(fw: seq<nat>, fw': seq<nat>, v: nat, k: nat)
    requires |fw'| == |fw| && k < |fw| && v < |fw|
    requires forall i :: 0 <= i < |fw| ==> fw'[i] <= fw[i] + if i == v then 1 else 0
    ensures Total(fw', k) <= Total(fw, k) + if v <= k then 1 else 0
  {
    if k > 0 {
      TotalBump(fw, fw', v, k - 1);
    }
  }

  /** Absent symbols count once, so the frequencies add up to no more than symbols and alphabet. */
  lemma {:induction false} TableTotal(syms: seq<nat>, selector: seq<nat>, t: nat, alphaSize: nat, k: nat)
    requires k <= |syms| && k <= 50 * |selector| && InAlphabet(syms, alphaSize)
    ensures Total(Huffman.Effective(TableFreqs(syms, selector, t, alphaSize, k)), alphaSize) <= alphaSize + k
  {
    if k == 0 {
      TotalZero(Huffman.Effective(TableFreqs(syms, selector, t, alphaSize, 0)), alphaSize);
    } else {
      TableTotal(syms, selector, t, alphaSize, k - 1);
      hide Total;
      TotalBump(Huffman.Effective(TableFreqs(syms, selector, t, alphaSize, k - 1)),
                Huffman.Effective(TableFreqs(syms, selector, t, alphaSize, k)), syms[k - 1] + 1, alphaSize);
    }
  }

  /** `rfreq` holds the frequencies of all tables. */
  ghost predicate Recorded(rfreq: seq<seq<nat>>, syms: seq<nat>, selector: seq<nat>, alphaSize: nat, k: nat)
  {
    && k <= |syms| && k <= 50 * |selector|
    && forall t :: 0 <= t < |rfreq| ==> rfreq[t] == TableFreqs(syms, selector, t, alphaSize, k)
  }

  lemma RecordedStart(rfreq: seq<seq<nat>>, syms: seq<nat>, alphaSize: nat)
    requires forall t :: 0 <= t < |rfreq| ==> |rfreq[t]| == alphaSize && forall v :: 0 <= v < alphaSize ==>
              rfreq[t][v] == 0
    ensures Recorded(rfreq, syms, [], alphaSize, 0)
  {
  }

  lemma RecordedMore(rfreq: seq<seq<nat>>, syms: seq<nat>, selector: seq<nat>, x: nat, alphaSize: nat, k: nat)
    requires Recorded(rfreq, syms, selector, alphaSize, k)
    ensures Recorded(rfreq, syms, selector + [x], alphaSize, k)
  {
    forall t, v | 0 <= t < |rfreq| && 0 <= v < alphaSize
      ensures TableFreq(syms, selector + [x], t, v, k) == TableFreq(syms, selector, t, v, k)
    {
      TableFreqMore(syms, selector, x, t, v, k);
    }
    forall t | 0 <= t < |rfreq| ensures rfreq[t] == TableFreqs(syms, selector + [x], t, alphaSize, k) {
    }
  }

  lemma RecordedStep(rfreq: seq<seq<nat>>, syms: seq<nat>, selector: seq<nat>, alphaSize: nat, k: nat, bt: nat)
    requires Recorded(rfreq, syms, selector, alphaSize, k) && k < |syms| && k < 50 * |selector|
    requires selector[k / 50] == bt < |rfreq|
    requires syms[k] < alphaSize
    ensures |rfreq[bt]| == alphaSize
    ensures Recorded(rfreq[bt := rfreq[bt][syms[k] := rfreq[bt][syms[k]] + 1]], syms, selector, alphaSize, k + 1)
  {
    var r := rfreq[bt := rfreq[bt][syms[k] := rfreq[bt][syms[k]] + 1]];
    forall t | 0 <= t < |r| ensures r[t] == TableFreqs(syms, selector, t, alphaSize, k + 1) {
      assert rfreq[t] == TableFreqs(syms, selector, t, alphaSize, k);
    }
  }

  /** Counts the symbols of the last group for its table. */
  method CountGroup(arr1: array<nat>, rfreq0: seq<seq<nat>>, selector: seq<nat>, bt: nat, alphaSize: nat, gs: nat,
                    ge: nat, ghost syms: seq<nat>) returns (rfreq: seq<seq<nat>>)
    requires Holding(arr1[..], syms) && InAlphabet(syms, alphaSize) && Recorded(rfreq0, syms, selector, alphaSize, gs)
    requires bt < |rfreq0| && gs <= ge < |syms| && ge < 50 * |selector| && forall k :: gs <= k <= ge ==>
              selector[k / 50] == bt
    ensures |rfreq| == |rfreq0| && Recorded(rfreq, syms, selector, alphaSize, ge + 1)
  {
    rfreq := rfreq0;
    hide TableFreqs, Recorded, Half;
    for i := gs to ge + 1
      invariant |rfreq| == |rfreq0| && Recorded(rfreq, syms, selector, alphaSize, i)
    {
      var v := Half(arr1[..], i);
      RecordedStep(rfreq, syms, selector, alphaSize, i, bt);
      rfreq := rfreq[bt := rfreq[bt][v := rfreq[bt][v] + 1]];
    }
  }

  /** What one group costs with each table, and the table it takes. */
  method ChooseTable(arr1: array<nat>, alphaSize: nat, lens: seq<seq<nat>>, gs: nat, ge: nat, ghost syms: seq<nat>)
    returns (bt: nat)
    requires Holding(arr1[..], syms) && InAlphabet(syms, alphaSize) && Priced(lens, alphaSize) && 1 <= |lens|
    requires gs <= ge < |syms| && ge < gs + 50
    ensures bt < |lens| && Cheapest(syms, lens, alphaSize, gs, ge + 1, bt)
  {
    hide Half, Cost, Costed, Holding, Priced, InAlphabet;
    var cost;
    if |lens| == 6 && 50 == ge - gs + 1 {
      cost := FastCosts(arr1, lens, alphaSize, gs, ge, syms);
    } else {
      cost := SlowCosts(arr1, lens, alphaSize, gs, ge, syms);
    }
    bt := FindBest(cost, lens, alphaSize, gs, ge + 1, syms);
  }

  lemma ChosenMore(selector: seq<nat>, syms: seq<nat>, lens: seq<seq<nat>>, alphaSize: nat, bt: nat)
    requires Chosen(selector, syms, lens, alphaSize)
    requires Cheapest(syms, lens, alphaSize, 50 * |selector|, GroupEnd(|selector|, |syms|), bt)
    ensures Chosen(selector + [bt], syms, lens, alphaSize)
  {
    hide Cheapest;
  }

  /** One round over the groups. */
  method ChooseTables(arr1: array<nat>, nMTF: nat, alphaSize: nat, lens: seq<seq<nat>>, ghost syms: seq<nat>)
    returns (selector: seq<nat>, rfreq: seq<seq<nat>>)
    requires Holding(arr1[..], syms) && InAlphabet(syms, alphaSize) && Priced(lens, alphaSize) && nMTF == |syms|
    requires 1 <= |lens|
    ensures Chosen(selector, syms, lens, alphaSize) && |rfreq| == |lens|
    ensures 50 * |selector| - 50 < nMTF <= 50 * |selector|
    ensures Recorded(rfreq, syms, selector, alphaSize, nMTF)
  {
    rfreq := seq(|lens|, _ => seq(alphaSize, _ => 0));
    selector := [];
    RecordedStart(rfreq, syms, alphaSize);
    var gs := 0;
    hide Half, TableFreqs, Recorded, Chosen, Holding, Priced, InAlphabet;
    while gs < nMTF
      invariant gs <= nMTF && 50 * |selector| - 50 < nMTF && |rfreq| == |lens|
      invariant if gs < nMTF then gs == 50 * |selector| else gs <= 50 * |selector|
      invariant Chosen(selector, syms, lens, alphaSize)
      invariant Recorded(rfreq, syms, selector, alphaSize, gs)
      decreases nMTF - gs
    {
      var ge := gs + 50 - 1;
      if ge >= nMTF {
        ge := nMTF - 1;
      }
      var bt := ChooseTable(arr1, alphaSize, lens, gs, ge, syms);
      RecordedMore(rfreq, syms, selector, bt, alphaSize, gs);
      ChosenMore(selector, syms, lens, alphaSize, bt);
      selector := selector + [bt];
      rfreq := CountGroup(arr1, rfreq, selector, bt, alphaSize, gs, ge, syms);
      gs := ge + 1;
    }
  }

  // ---------------------------------------------------------------- the first tables

  /** How many symbols are below `v`. */
  ghost function BelowCount(syms: seq<nat>, v: nat): (n: nat)
  {
    Start(syms, v, |syms|)
  }

  lemma BelowStep(syms: seq<nat>, v: nat)
    ensures BelowCount(syms, v + 1) == BelowCount(syms, v) + Occ(syms, v, |syms|)
  {
  }

  /** Only with the last symbol of the alphabet are they all counted. */
  lemma BelowAll(syms: seq<nat>, alphaSize: nat, v: nat)
    requires InAlphabet(syms, alphaSize) && v <= alphaSize && syms != [] && syms[|syms| - 1] == alphaSize - 1
    ensures BelowCount(syms, v) <= |syms| && (BelowCount(syms, v) == |syms| <==> v == alphaSize)
  {
    StartAll(syms, alphaSize, |syms|);
    StartMonotone(syms, v, alphaSize, |syms|);
    if v < alphaSize {
      StartMonotone(syms, v, alphaSize - 1, |syms|);
      BelowStep(syms, alphaSize - 1);
      assert Occ(syms, alphaSize - 1, |syms|) >= 1;
    }
  }

  /** The alphabet is cut into parts; table `t` has the part that is `t`-th from the end for nothing. */
  ghost predicate Parted(lens: seq<seq<nat>>, cuts: seq<nat>, alphaSize: nat)
  {
    && |cuts| == |lens| + 1 && cuts[0] == 0 && cuts[|lens|] <= alphaSize
    && (forall x, y :: 0 <= x <= y < |cuts| ==> cuts[x] <= cuts[y])
    && forall t :: 0 <= t < |lens| ==> IsPart(lens[t], cuts[|lens| - 1 - t], cuts[|lens| - t], alphaSize)
  }

  ghost predicate IsPart(len: seq<nat>, from: nat, to: nat, alphaSize: nat)
  {
    |len| == alphaSize && forall v :: 0 <= v < alphaSize ==>
        len[v] == if from <= v < to then LESSER_ICOST else GREATER_ICOST
  }

  lemma PartedPriced(lens: seq<seq<nat>>, cuts: seq<nat>, alphaSize: nat)
    requires Parted(lens, cuts, alphaSize)
    ensures Priced(lens, alphaSize)
  {
    forall t | 0 <= t < |lens| ensures |lens[t]| == alphaSize && forall v :: 0 <= v < alphaSize ==> lens[t][v] <= 17 {
      assert IsPart(lens[t], cuts[|lens| - 1 - t], cuts[|lens| - t], alphaSize);
    }
  }

  lemma PartedMore(lens: seq<seq<nat>>, cuts: seq<nat>, alphaSize: nat, row: seq<nat>, to: nat)
    requires Parted(lens, cuts, alphaSize) && cuts[|lens|] <= to <= alphaSize
    requires IsPart(row, cuts[|lens|], to, alphaSize)
    ensures Parted([row] + lens, cuts + [to], alphaSize)
  {
    hide IsPart;
    var l, c := [row] + lens, cuts + [to];
    forall t | 0 <= t < |l| ensures IsPart(l[t], c[|l| - 1 - t], c[|l| - t], alphaSize) {
      if t > 0 {
        assert l[t] == lens[t - 1];
        assert IsPart(lens[t - 1], cuts[|lens| - 1 - (t - 1)], cuts[|lens| - (t - 1)], alphaSize);
      }
    }
  }

  lemma {:induction false} PartOf(cuts: seq<nat>, v: nat, n: nat) returns (x: nat)
    requires n < |cuts| && cuts[0] <= v < cuts[n]
    ensures x < n && cuts[x] <= v < cuts[x + 1]
    decreases n
  {
    if v < cuts[n - 1] {
      x := PartOf(cuts, v, n - 1);
    } else {
      x := n - 1;
    }
  }

  /** Every symbol costs nothing with exactly one of the first tables. */
  lemma OneFavourite(lens: seq<seq<nat>>, cuts: seq<nat>, alphaSize: nat, v: nat) returns (t: nat)
    requires Parted(lens, cuts, alphaSize) && cuts[|lens|] == alphaSize && v < alphaSize
    ensures Priced(lens, alphaSize) && t < |lens|
    ensures forall u :: 0 <= u < |lens| ==> lens[u][v] == if u == t then 0 else 15
  {
    PartedPriced(lens, cuts, alphaSize);
    var x := PartOf(cuts, v, |lens|);
    t := |lens| - 1 - x;
    forall u | 0 <= u < |lens| ensures lens[u][v] == if u == t then LESSER_ICOST else GREATER_ICOST {
      assert IsPart(lens[u], cuts[|lens| - 1 - u], cuts[|lens| - u], alphaSize);
    }
  }

  /** The end of a part from `gs` that has at least `tFreq` of the block's symbols, looking from `v` on. */
  ghost function FilledTo(syms: seq<nat>, alphaSize: nat, gs: nat, tFreq: int, v: nat): (e: nat)
    decreases alphaSize - v
  {
    if BelowCount(syms, v) - BelowCount(syms, gs) < tFreq && v < alphaSize
        then FilledTo(syms, alphaSize, gs, tFreq, v + 1)
    else v
  }

  /** The end of the part that starts at `gs`, when `nPart` parts are left. */
  ghost function PartTo(syms: seq<nat>, alphaSize: nat, nGroups: nat, nPart: nat, gs: nat): (e: nat)
    requires nPart > 0
  {
    var v := FilledTo(syms, alphaSize, gs, (|syms| - BelowCount(syms, gs)) / nPart, gs);
    if v - 1 > gs && nPart != nGroups && nPart != 1 && (nGroups - nPart) % 2 == 1 then v - 1 else v
  }

  /** The first `k` parts of the alphabet. */
  ghost function CutsOf(syms: seq<nat>, alphaSize: nat, nGroups: nat, k: nat): (cuts: seq<nat>)
    requires k <= nGroups
    ensures |cuts| == k + 1
  {
    if k == 0 then [0]
    else
      var c := CutsOf(syms, alphaSize, nGroups, k - 1);
      c + [PartTo(syms, alphaSize, nGroups, nGroups - (k - 1), c[k - 1])]
  }

  /** The first tables of given parts. */
  ghost function PartTables(cuts: seq<nat>, alphaSize: nat): (lens: seq<seq<nat>>)
    requires cuts != []
    ensures |lens| == |cuts| - 1
  {
    var n := |cuts| - 1;
    seq(n, t requires 0 <= t < n =>
      seq(alphaSize, v requires 0 <= v =>
        if cuts[n - 1 - t] <= v < cuts[n - t] then LESSER_ICOST else GREATER_ICOST))
  }

  lemma PartedTables(lens: seq<seq<nat>>, cuts: seq<nat>, alphaSize: nat)
    requires Parted(lens, cuts, alphaSize)
    ensures lens == PartTables(cuts, alphaSize)
  {
    var l := PartTables(cuts, alphaSize);
    forall t | 0 <= t < |lens| ensures lens[t] == l[t] {
      assert IsPart(lens[t], cuts[|lens| - 1 - t], cuts[|lens| - t], alphaSize);
    }
  }

  /** Adds symbols to the part that starts at `gs` until it has at least `tFreq` of the block's. */
  method FillPart(mtfFreq: array<nat>, alphaSize: nat, gs: nat, tFreq: nat, ghost syms: seq<nat>)
    returns (ge: int, aFreq: nat)
    requires 1 <= alphaSize && Counted(mtfFreq[..], syms, alphaSize - 1) && gs <= alphaSize
    ensures gs - 1 <= ge < alphaSize && aFreq == BelowCount(syms, ge + 1) - BelowCount(syms, gs)
    ensures aFreq >= tFreq || ge == alphaSize - 1
    ensures ge + 1 == FilledTo(syms, alphaSize, gs, tFreq, gs)
  {
    ge := gs - 1;
    aFreq := 0;
    hide BelowCount;
    while aFreq < tFreq && ge < alphaSize - 1
      invariant ge >= -1 && FilledTo(syms, alphaSize, gs, tFreq, gs) == FilledTo(syms, alphaSize, gs, tFreq, ge + 1)
      invariant gs - 1 <= ge < alphaSize && aFreq == BelowCount(syms, ge + 1) - BelowCount(syms, gs)
    {
      ge := ge + 1;
      BelowStep(syms, ge);
      aFreq := aFreq + mtfFreq[ge];
    }
  }

  /** The end of the part that starts at `gs`, and how many symbols of the block it has. */
  method FindPart(mtfFreq: array<nat>, alphaSize: nat, nPart: nat, nGroups: nat, gs: nat, remF: nat,
                  ghost syms: seq<nat>)
    returns (ge: int, aFreq: nat)
    requires 1 <= alphaSize && Counted(mtfFreq[..], syms, alphaSize - 1) && InAlphabet(syms, alphaSize)
    requires gs <= alphaSize && 1 <= nPart <= nGroups
    requires syms != [] && syms[|syms| - 1] == alphaSize - 1 && remF == |syms| - BelowCount(syms, gs)
    ensures gs - 1 <= ge < alphaSize && aFreq == BelowCount(syms, ge + 1) - BelowCount(syms, gs)
    ensures nPart == 1 ==> ge == alphaSize - 1
    ensures ge + 1 == PartTo(syms, alphaSize, nGroups, nPart, gs)
  {
    hide BelowCount, FilledTo;
    var tFreq := remF / nPart;
    ge, aFreq := FillPart(mtfFreq, alphaSize, gs, tFreq, syms);
    BelowAll(syms, alphaSize, ge + 1);
    if ge > gs && nPart != nGroups && nPart != 1 && (nGroups - nPart) % 2 == 1 {
      BelowStep(syms, ge);
      StartMonotone(syms, gs, ge, |syms|);
      BelowIs(syms, gs);
      BelowIs(syms, ge);
      aFreq := aFreq - mtfFreq[ge];
      ge := ge - 1;
    }
  }

  lemma BelowIs(syms: seq<nat>, v: nat)
    ensures BelowCount(syms, v) == Start(syms, v, |syms|)
  {
  }

  method PartRow(alphaSize: nat, gs: nat, ge: int) returns (row: seq<nat>)
    requires ge >= -1
    ensures IsPart(row, gs, ge + 1, alphaSize)
  {
    var len := new nat[alphaSize];
    for v := 0 to alphaSize
      invariant forall x :: 0 <= x < v ==> len[x] == if gs <= x <= ge then LESSER_ICOST else GREATER_ICOST
    {
      len[v] := if gs <= v && v <= ge then LESSER_ICOST else GREATER_ICOST;
    }
    row := len[..];
  }

  /** The first tables: the parts are about equally frequent, and together they are the alphabet. */
  method InitialTables(mtfFreq: array<nat>, nMTF: nat, alphaSize: nat, nGroups: nat, ghost syms: seq<nat>)
    returns (lens: seq<seq<nat>>, ghost cuts: seq<nat>)
    requires 1 <= alphaSize && Counted(mtfFreq[..], syms, alphaSize - 1) && InAlphabet(syms, alphaSize)
    requires nMTF == |syms| && 1 <= nGroups
    requires syms != [] && syms[|syms| - 1] == alphaSize - 1
    ensures |lens| == nGroups && Parted(lens, cuts, alphaSize) && cuts[nGroups] == alphaSize
    ensures cuts == CutsOf(syms, alphaSize, nGroups, nGroups) && lens == PartTables(cuts, alphaSize)
  {
    var nPart, remF, gs := nGroups, nMTF, 0;
    lens, cuts := [], [0];
    hide IsPart, Counted, PartTo;
    while nPart > 0
      invariant cuts == CutsOf(syms, alphaSize, nGroups, nGroups - nPart)
      invariant |lens| == nGroups - nPart && nPart <= nGroups && Parted(lens, cuts, alphaSize) && gs == cuts[|lens|]
      invariant remF == nMTF - BelowCount(syms, gs) && (nPart == 0 ==> gs == alphaSize)
    {
      BelowAll(syms, alphaSize, gs);
      var ge, aFreq := FindPart(mtfFreq, alphaSize, nPart, nGroups, gs, remF, syms);
      BelowAll(syms, alphaSize, ge + 1);
      var row := PartRow(alphaSize, gs, ge);
      PartedMore(lens, cuts, alphaSize, row, ge + 1);
      lens, cuts := [row] + lens, cuts + [ge + 1];
      nPart := nPart - 1;
      gs := ge + 1;
      remF := remF - aFreq;
    }
    PartedTables(lens, cuts, alphaSize);
  }

  // ---------------------------------------------------------------- all rounds

  /** A complete code of at most 17 bits, the shortest for the frequencies, scaled if need be. */
  ghost predicate Fitted(len: seq<nat>, freq: seq<nat>)
  {
    && |len| == |freq| && Within(len, 1, 17) && KraftSum(len, |len|) == 1.0
    && exists n :: FittedAfter(len, freq, n)
  }

  ghost predicate FittedAfter(len: seq<nat>, freq: seq<nat>, n: nat)
    requires |len| == |freq|
  {
    && Shortest(Huffman.ScaledTimes(Huffman.Effective(freq), n), len, |len|)
    && (Total(Huffman.Effective(freq), |freq|) < Fib(20) ==> n == 0)
  }

  method MakeLengths(rfreq: seq<nat>, alphaSize: nat) returns (len: seq<nat>)
    requires 2 <= alphaSize <= 258 && |rfreq| == alphaSize && Total(Huffman.Effective(rfreq), alphaSize) < 0x80_0000
    ensures Fitted(len, rfreq) && len == Huffman.CodeLengths(rfreq, 17)
  {
    var freq, lens := new nat[alphaSize], new nat[alphaSize];
    for v := 0 to alphaSize
      invariant freq[..v] == rfreq[..v]
    {
      freq[v] := rfreq[v];
    }
    assert freq[..alphaSize] == rfreq;
    hide *;
    ghost var scalings := Huffman.MakeCodeLengths(lens, freq, alphaSize, 17);
    len := lens[..alphaSize];
    IsFitted(len, rfreq, scalings);
  }

  lemma IsFitted(len: seq<nat>, freq: seq<nat>, n: nat)
    requires |len| == |freq| && (forall i :: 0 <= i < |len| ==> 1 <= len[i] <= 17) && KraftSum(len, |len|) == 1.0
    requires Shortest(Huffman.ScaledTimes(Huffman.Effective(freq), n), len, |len|)
    requires Total(Huffman.Effective(freq), |freq|) < Fib(20) ==> n == 0
    ensures Fitted(len, freq)
  {
    assert FittedAfter(len, freq, n);
  }

  /** Good tables, and one of them for every group of 50 symbols. */
  ghost predicate Tables(selector: seq<nat>, lens: seq<seq<nat>>, alphaSize: nat, nMTF: nat)
  {
    && 2 <= |lens| <= N_GROUPS && Picks(selector, |lens|) && 1 <= |selector| <= MAX_SELECTORS
    && G_SIZE * (|selector| - 1) < nMTF <= G_SIZE * |selector|
    && forall t :: 0 <= t < |lens| ==>
         |lens[t]| == alphaSize && Within(lens[t], 1, 17) && KraftSum(lens[t], |lens[t]|) == 1.0
  }

  /** Each table is made for what it was chosen for. */
  ghost predicate MadeFor(lens: seq<seq<nat>>, syms: seq<nat>, selector: seq<nat>, alphaSize: nat)
  {
    && |syms| <= 50 * |selector|
    && forall t :: 0 <= t < |lens| ==> Fitted(lens[t], TableFreqs(syms, selector, t, alphaSize, |syms|))
  }

  // The whole choice as a function of the symbols.

  /** What a group costs, with length 0 for symbols that a table does not have. */
  function CostAt(syms: seq<nat>, len: seq<nat>, from: nat, to: nat): (c: nat)
  {
    if to <= from then 0 else CostAt(syms, len, from, to - 1) + At(len, At(syms, to - 1))
  }

  lemma {:induction false} CostIsAt(syms: seq<nat>, len: seq<nat>, from: nat, to: nat)
    requires to <= |syms| && forall k :: 0 <= k < |syms| ==> syms[k] < |len|
    ensures CostAt(syms, len, from, to) == Cost(syms, len, from, to)
  {
    if from < to {
      CostIsAt(syms, len, from, to - 1);
    }
  }

  /** The first of the cheapest of the tables 0 .. k. */
  function FirstCheapest(syms: seq<nat>, lens: seq<seq<nat>>, from: nat, to: nat, k: nat): (t: nat)
    requires k < |lens|
    ensures t <= k
  {
    if k == 0 then 0
    else
      var t := FirstCheapest(syms, lens, from, to, k - 1);
      if CostAt(syms, lens[k], from, to) < CostAt(syms, lens[t], from, to) then k else t
  }

  lemma {:induction false} FirstIsCheapest(syms: seq<nat>, lens: seq<seq<nat>>, alphaSize: nat, from: nat, to: nat,
                                           k: nat)
    requires InAlphabet(syms, alphaSize) && Priced(lens, alphaSize) && to <= |syms| && k < |lens|
    ensures var t := FirstCheapest(syms, lens, from, to, k);
            forall u :: 0 <= u <= k ==>
              && Cost(syms, lens[t], from, to) <= Cost(syms, lens[u], from, to)
              && (u < t ==> Cost(syms, lens[t], from, to) < Cost(syms, lens[u], from, to))
  {
    hide Cost, CostAt;
    if k > 0 {
      FirstIsCheapest(syms, lens, alphaSize, from, to, k - 1);
      CostIsAt(syms, lens[k], from, to);
      CostIsAt(syms, lens[FirstCheapest(syms, lens, from, to, k - 1)], from, to);
    }
  }

  /** The tables that the groups take. */
  function Selected(syms: seq<nat>, lens: seq<seq<nat>>): (selector: seq<nat>)
    requires lens != []
    ensures |selector| == (|syms| + 49) / 50
  {
    seq((|syms| + 49) / 50, g requires 0 <= g =>
      FirstCheapest(syms, lens, 50 * g, GroupEnd(g, |syms|), |lens| - 1))
  }

  lemma ChosenIsSelected(selector: seq<nat>, syms: seq<nat>, lens: seq<seq<nat>>, alphaSize: nat)
    requires Chosen(selector, syms, lens, alphaSize) && lens != [] && 50 * |selector| - 50 < |syms| <= 50 * |selector|
    ensures selector == Selected(syms, lens)
  {
    hide Cost, FirstCheapest;
    forall g | 0 <= g < |selector| ensures selector[g] == Selected(syms, lens)[g] {
      FirstIsCheapest(syms, lens, alphaSize, 50 * g, GroupEnd(g, |syms|), |lens| - 1);
      assert Cheapest(syms, lens, alphaSize, 50 * g, GroupEnd(g, |syms|), selector[g]);
    }
  }

  /** The tables made for a selection. */
  ghost function Remade(syms: seq<nat>, selector: seq<nat>, n: nat, alphaSize: nat): (lens: seq<seq<nat>>)
    requires |syms| <= 50 * |selector|
    ensures |lens| == n
    ensures forall t :: 0 <= t < n ==>
              lens[t] == Huffman.CodeLengths(TableFreqs(syms, selector, t, alphaSize, |syms|), 17)
  {
    seq(n, t requires 0 <= t => Huffman.CodeLengths(TableFreqs(syms, selector, t, alphaSize, |syms|), 17))
  }

  /** The tables after `k` rounds. */
  ghost function TablesAfter(syms: seq<nat>, alphaSize: nat, first: seq<seq<nat>>, k: nat): (lens: seq<seq<nat>>)
    requires first != []
    ensures |lens| == |first|
  {
    if k == 0 then first
    else
      var lens := TablesAfter(syms, alphaSize, first, k - 1);
      Remade(syms, Selected(syms, lens), |first|, alphaSize)
  }

  function GroupsFor(nMTF: nat): (n: nat)
    ensures 2 <= n <= 6
  {
    if nMTF < 200 then 2 else if nMTF < 600 then 3 else if nMTF < 1200 then 4 else if nMTF < 2400 then 5 else 6
  }

  ghost function FirstTables(syms: seq<nat>, alphaSize: nat): (lens: seq<seq<nat>>)
    ensures |lens| == GroupsFor(|syms|)
  {
    PartTables(CutsOf(syms, alphaSize, GroupsFor(|syms|), GroupsFor(|syms|)), alphaSize)
  }

  /** The selectors and the tables of a block with given symbols. */
  ghost function SelectorsOf(syms: seq<nat>, alphaSize: nat): (selector: seq<nat>)
  {
    Selected(syms, TablesAfter(syms, alphaSize, FirstTables(syms, alphaSize), 3))
  }

  ghost function TablesOf(syms: seq<nat>, alphaSize: nat): (lens: seq<seq<nat>>)
  {
    TablesAfter(syms, alphaSize, FirstTables(syms, alphaSize), 4)
  }

  /** The last part of a round: the tables are made anew. */
  method MakeTables(rfreq: seq<seq<nat>>, alphaSize: nat, ghost syms: seq<nat>, ghost selector: seq<nat>)
    returns (lens: seq<seq<nat>>)
    requires Recorded(rfreq, syms, selector, alphaSize, |syms|) && InAlphabet(syms, alphaSize)
    requires 2 <= alphaSize <= 258 && |syms| <= 900001
    ensures |lens| == |rfreq| && MadeFor(lens, syms, selector, alphaSize)
    ensures lens == Remade(syms, selector, |rfreq|, alphaSize)
  {
    hide Fitted, TableFreqs, Total, Huffman.CodeLengths, Remade;
    lens := [];
    for t := 0 to |rfreq|
      invariant |lens| == t && forall u :: 0 <= u < t ==>
                Fitted(lens[u], TableFreqs(syms, selector, u, alphaSize, |syms|))
      invariant forall u :: 0 <= u < t ==>
                  lens[u] == Huffman.CodeLengths(TableFreqs(syms, selector, u, alphaSize, |syms|), 17)
    {
      TableTotal(syms, selector, t, alphaSize, |syms|);
      var len := MakeLengths(rfreq[t], alphaSize);
      lens := lens + [len];
    }
  }

  lemma MadeTables(lens: seq<seq<nat>>, syms: seq<nat>, selector: seq<nat>, before: seq<seq<nat>>, alphaSize: nat)
    requires MadeFor(lens, syms, selector, alphaSize) && Chosen(selector, syms, before, alphaSize)
    requires 2 <= |lens| == |before| <= 6
    requires 50 * |selector| - 50 < |syms| <= 50 * |selector| && 1 <= |syms| <= 900001
    ensures Tables(selector, lens, alphaSize, |syms|) && Priced(lens, alphaSize)
  {
    assert N_GROUPS == 6 && MAX_SELECTORS == 18002 && G_SIZE == 50;
    hide Cost, FittedAfter, KraftSum, TableFreqs;
    forall t | 0 <= t < |lens|
      ensures |lens[t]| == alphaSize && Within(lens[t], 1, 17) && KraftSum(lens[t], |lens[t]|) == 1.0
    {
      assert Fitted(lens[t], TableFreqs(syms, selector, t, alphaSize, |syms|));
    }
  }

  /**
   The tables after all rounds, with assertions 3001 to 3005: in the last round every group took
   the first of the cheapest tables there were `before` it, and each table is the shortest code,
   up to scaling, for the symbols of the groups that took it.
   */
  method BuildTables(arr1: array<nat>, mtfFreq: array<nat>, nMTF: nat, alphaSize: nat, ghost syms: seq<nat>)
    returns (selector: seq<nat>, lens: seq<seq<nat>>, ghost before: seq<seq<nat>>)
    requires nMTF == |syms| && 1 <= nMTF <= 900001 && 3 <= alphaSize <= 258 && syms[nMTF - 1] == alphaSize - 1
    requires Holding(arr1[..], syms) && InAlphabet(syms, alphaSize) && Counted(mtfFreq[..], syms, alphaSize - 1)
    ensures Tables(selector, lens, alphaSize, nMTF) && |before| == |lens|
    ensures Chosen(selector, syms, before, alphaSize) && MadeFor(lens, syms, selector, alphaSize)
    ensures selector == SelectorsOf(syms, alphaSize) && lens == TablesOf(syms, alphaSize)
  {
    hide *;
    var nGroups := if nMTF < 200 then 2 else if nMTF < 600 then 3 else if nMTF < 1200 then 4 else if nMTF < 2400 then 5
        else 6;
    ghost var cuts;
    lens, cuts := InitialTables(mtfFreq, nMTF, alphaSize, nGroups, syms);
    PartedPriced(lens, cuts, alphaSize);
    selector, before := [], lens;
    ghost var first := FirstTables(syms, alphaSize);
    FirstAre(syms, alphaSize, nGroups, lens, cuts);
    for iter := 0 to 4
      invariant |first| == nGroups && first == FirstTables(syms, alphaSize)
      invariant lens == TablesAfter(syms, alphaSize, first, iter)
      invariant iter > 0 ==>
                before == TablesAfter(syms, alphaSize, first, iter - 1) && selector == Selected(syms, before)
      invariant |lens| == nGroups == |before| && Priced(lens, alphaSize)
      invariant iter > 0 ==> Tables(selector, lens, alphaSize, nMTF) && Chosen(selector, syms, before, alphaSize)
                             && MadeFor(lens, syms, selector, alphaSize)
    {
      before := lens;
      var rfreq;
      selector, rfreq := ChooseTables(arr1, nMTF, alphaSize, lens, syms);
      lens := MakeTables(rfreq, alphaSize, syms, selector);
      MadeTables(lens, syms, selector, before, alphaSize);
      ChosenIsSelected(selector, syms, before, alphaSize);
      TablesStep(syms, alphaSize, first, iter);
    }
    TablesAre(syms, alphaSize);
  }

  lemma FirstAre(syms: seq<nat>, alphaSize: nat, nGroups: nat, lens: seq<seq<nat>>, cuts: seq<nat>)
    requires cuts == CutsOf(syms, alphaSize, nGroups, nGroups) && lens == PartTables(cuts, alphaSize)
    requires nGroups == if |syms| < 200 then 2 else if |syms| < 600 then 3 else if |syms| < 1200 then 4
                        else if |syms| < 2400 then 5 else 6
    ensures FirstTables(syms, alphaSize) == lens && TablesAfter(syms, alphaSize, lens, 0) == lens
  {
    hide CutsOf, PartTables;
  }

  lemma TablesStep(syms: seq<nat>, alphaSize: nat, first: seq<seq<nat>>, k: nat)
    requires first != []
    ensures var lens := TablesAfter(syms, alphaSize, first, k);
            TablesAfter(syms, alphaSize, first, k + 1) == Remade(syms, Selected(syms, lens), |first|, alphaSize)
  {
    hide Remade, Selected;
  }

  lemma TablesAre(syms: seq<nat>, alphaSize: nat)
    ensures var first := FirstTables(syms, alphaSize);
            && SelectorsOf(syms, alphaSize) == Selected(syms, TablesAfter(syms, alphaSize, first, 3))
            && TablesOf(syms, alphaSize) == TablesAfter(syms, alphaSize, first, 4)
  {
    hide TablesAfter, FirstTables, Selected;
  }

  // ---------------------------------------------------------------- the choice as a whole

  /** What the first `g` groups cost with the tables that are selected. */
  function SelectedCost(syms: seq<nat>, lens: seq<seq<nat>>, selector: seq<nat>, g: nat): (c: nat)
    requires g <= |selector| && 50 * |selector| - 50 < |syms| && forall x :: 0 <= x < |selector| ==>
              selector[x] < |lens|
    requires forall t, k :: 0 <= t < |lens| && 0 <= k < |syms| ==> syms[k] < |lens[t]|
  {
    if g == 0 then 0
    else SelectedCost(syms, lens, selector, g - 1)
         + Cost(syms, lens[selector[g - 1]], 50 * (g - 1), GroupEnd(g - 1, |syms|))
  }

  /** No other selection is cheaper with the same tables. */
  lemma {:induction false} ChosenCheapest(syms: seq<nat>, lens: seq<seq<nat>>, alphaSize: nat, selector: seq<nat>,
                                          other: seq<nat>, g: nat)
    requires Chosen(selector, syms, lens, alphaSize) && 50 * |selector| - 50 < |syms| && |other| == |selector|
    requires g <= |selector|
    requires forall x :: 0 <= x < |other| ==> other[x] < |lens|
    ensures forall x :: 0 <= x < |selector| ==> selector[x] < |lens|
    ensures SelectedCost(syms, lens, selector, g) <= SelectedCost(syms, lens, other, g)
  {
    hide Cost;
    if g > 0 {
      ChosenCheapest(syms, lens, alphaSize, selector, other, g - 1);
      assert Cheapest(syms, lens, alphaSize, 50 * (g - 1), GroupEnd(g - 1, |syms|), selector[g - 1]);
    }
  }
}
