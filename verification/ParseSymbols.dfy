/**
 Parsing back the code lengths and the symbols of a block.
 */
module ParseSymbols {

  import opened Rotation
  import opened Words
  import opened BitStrings
  import opened Codes
  import opened HuffmanTree
  import opened Mtf
  import opened ByteMap
  import opened Parser
  import opened BlockFormat
  import opened ParsePrint

  // ---------------------------------------------------------------- code lengths

  /** The tables read so far, and the lengths of the next one. */
  ghost predicate Reading(inUse: seq<bool>, n: nat, selector: seq<nat>, lens: seq<seq<nat>>, cur: seq<nat>)
  {
    && Groups(inUse, n) && Picks(selector, n) && |lens| < n && GoodTables(inUse, [], lens)
    && |cur| <= AlphaSize(inUse) && Within(cur, 1, LONGEST)
  }

  lemma CodingSteps(level: nat, head: Head, inUse: seq<bool>, n: nat, selector: seq<nat>, lens: seq<seq<nat>>,
                    cur: seq<nat>, curr: int)
    requires Reading(inUse, n, selector, lens, cur) && |cur| < AlphaSize(inUse) && 1 <= curr <= LONGEST
    ensures var m2, m3 := Machine(level, Coding2(head, inUse, n, selector, lens, cur, curr)),
                          Machine(level, Coding3(head, inUse, n, selector, lens, cur, curr));
            && Ok(m2) && Need(m2) == 1 && Ok(m3) && Need(m3) == 1 && Reading(inUse, n, selector, lens, cur + [curr])
            && AfterLength(level, head, inUse, n, selector, lens, cur, curr) == To(m2)
            && Step(m2, 0) == AfterLength(level, head, inUse, n, selector, lens, cur + [curr], curr)
            && Step(m2, 1) == To(m3)
            && Step(m3, 0) == AfterLength(level, head, inUse, n, selector, lens, cur, curr + 1)
            && Step(m3, 1) == AfterLength(level, head, inUse, n, selector, lens, cur, curr - 1)
  {
    hide Used, GoodTables, NextSymbol;
  }

  lemma StepsStep(c: int, steps: seq<bool>, rest: seq<bool>)
    requires StepsOk(c, steps)
    ensures 1 <= c <= LONGEST
    ensures steps == [] ==> StepsBits(steps) + ([false] + rest) == [false] + rest && Walked(c, steps) == c
    ensures steps != [] ==>
              && StepsOk(Stepped(c, steps[0]), steps[1..])
              && Walked(c, steps) == Walked(Stepped(c, steps[0]), steps[1..])
              && StepsBits(steps) + ([false] + rest)
                 == [true] + ([steps[0]] + (StepsBits(steps[1..]) + ([false] + rest)))
  {
    hide StepsBits;
    StepsPrinted(steps, [false] + rest);
  }

  lemma StepsPrinted(steps: seq<bool>, rest: seq<bool>)
    ensures steps == [] ==> StepsBits(steps) + rest == rest
    ensures steps != [] ==> StepsBits(steps) + rest == [true] + ([steps[0]] + (StepsBits(steps[1..]) + rest))
  {
    hide *;
    StepsAre(steps);
    if steps != [] {
      TwoFirst(true, steps[0], StepsBits(steps[1..]), rest);
    }
  }

  lemma StepsAre(steps: seq<bool>)
    ensures StepsBits(steps) == if steps == [] then [] else [true, steps[0]] + StepsBits(steps[1..])
  {
  }

  lemma TwoFirst(x: bool, y: bool, a: seq<bool>, b: seq<bool>)
    ensures [x, y] + a + b == [x] + ([y] + (a + b))
  {
  }

  lemma SteppedIs(c: int, down: bool)
    ensures Stepped(c, down) == if down then c - 1 else c + 1
  {
  }

  /** One code length, reached from `curr` step by step. */
  lemma {:induction false} ParseSteps(level: nat, head: Head, inUse: seq<bool>, n: nat, selector: seq<nat>,
                                      lens: seq<seq<nat>>, cur: seq<nat>, curr: int, steps: seq<bool>,
                                      rest: seq<bool>)
    requires Reading(inUse, n, selector, lens, cur) && |cur| < AlphaSize(inUse) && StepsOk(curr, steps)
    ensures Walked(curr, steps) >= 1 && Reading(inUse, n, selector, lens, cur + [Walked(curr, steps)])
    ensures Continue(AfterLength(level, head, inUse, n, selector, lens, cur, curr), StepsBits(steps) + ([false] + rest))
         == Continue(AfterLength(level, head, inUse, n, selector, lens, cur + [Walked(curr, steps)],
                                 Walked(curr, steps)), rest)
    decreases |steps|
  {
    hide *;
    StepsStep(curr, steps, rest);
    CodingSteps(level, head, inUse, n, selector, lens, cur, curr);
    var m2, m3 := Machine(level, Coding2(head, inUse, n, selector, lens, cur, curr)),
                  Machine(level, Coding3(head, inUse, n, selector, lens, cur, curr));
    ContinueTo(m2, StepsBits(steps) + ([false] + rest));
    if steps == [] {
      ParseBit(m2, false, rest);
    } else {
      var more := StepsBits(steps[1..]) + ([false] + rest);
      SteppedIs(curr, steps[0]);
      ParseBit(m2, true, [steps[0]] + more);
      ContinueTo(m3, [steps[0]] + more);
      ParseBit(m3, steps[0], more);
      ParseSteps(level, head, inUse, n, selector, lens, cur, Stepped(curr, steps[0]), steps[1..], rest);
    }
  }

  lemma TurnsStep(c: int, turns: seq<seq<bool>>, cur: seq<nat>, rest: seq<bool>)
    requires TurnsOk(c, turns)
    ensures turns == [] ==> TurnsBits(turns) + rest == rest && cur + LengthsFrom(c, turns) == cur
    ensures turns != [] ==>
              var l := Walked(c, turns[0]);
              && StepsOk(c, turns[0]) && l >= 1 && TurnsOk(l, turns[1..])
              && TurnsBits(turns) + rest == StepsBits(turns[0]) + ([false] + (TurnsBits(turns[1..]) + rest))
              && cur + LengthsFrom(c, turns) == cur + [l] + LengthsFrom(l, turns[1..])
  {
    hide StepsOk, Walked, StepsBits;
    if turns != [] {
      Assoc4(StepsBits(turns[0]), TurnsBits(turns[1..]), rest);
    }
  }

  lemma Assoc4(a: seq<bool>, b: seq<bool>, c: seq<bool>)
    ensures a + [false] + b + c == a + ([false] + (b + c))
  {
  }

  /** The lengths of one table from symbol `|cur|` on. */
  lemma {:induction false} ParseTurns(level: nat, head: Head, inUse: seq<bool>, n: nat, selector: seq<nat>,
                                      lens: seq<seq<nat>>, cur: seq<nat>, curr: int, turns: seq<seq<bool>>,
                                      rest: seq<bool>) returns (last: int)
    requires |inUse| == 256 && Reading(inUse, n, selector, lens, cur) && TurnsOk(curr, turns)
    requires |cur| + |turns| == AlphaSize(inUse)
    ensures Reading(inUse, n, selector, lens, cur + LengthsFrom(curr, turns))
    ensures Continue(AfterLength(level, head, inUse, n, selector, lens, cur, curr), TurnsBits(turns) + rest)
         == Continue(AfterLength(level, head, inUse, n, selector, lens, cur + LengthsFrom(curr, turns), last), rest)
    decreases |turns|
  {
    hide *;
    TurnsStep(curr, turns, cur, rest);
    if turns == [] {
      last := curr;
    } else {
      var l := Walked(curr, turns[0]);
      ParseSteps(level, head, inUse, n, selector, lens, cur, curr, turns[0], TurnsBits(turns[1..]) + rest);
      last := ParseTurns(level, head, inUse, n, selector, lens, cur + [l], l, turns[1..], rest);
    }
  }

  /** What follows a complete table. */
  ghost function TableDone(level: nat, head: Head, inUse: seq<bool>, n: nat, selector: seq<nat>,
                           lens: seq<seq<nat>>): (e: Event)
    requires Groups(inUse, n) && Picks(selector, n) && 0 < |lens| <= n && GoodTables(inUse, [], lens)
    ensures e.To? ==> Ok(e.m)
  {
    hide Used, Lengths;
    if |lens| < n then To(Machine(level, Coding1(head, inUse, n, selector, lens)))
    else NextSymbol(level, Body(head, inUse, selector, lens), -1, 0, StartMtf(inUse))
  }

  lemma CodingDone(level: nat, head: Head, inUse: seq<bool>, n: nat, selector: seq<nat>, lens: seq<seq<nat>>,
                   len: seq<nat>, last: int)
    requires Reading(inUse, n, selector, lens, len) && Lengths(len) && |len| == AlphaSize(inUse)
    ensures GoodTables(inUse, [], lens + [len])
    ensures AfterLength(level, head, inUse, n, selector, lens, len, last)
              == TableDone(level, head, inUse, n, selector, lens + [len])
  {
    hide Used, NextSymbol, Lengths, StartMtf;
    assert forall t :: 0 <= t < |lens + [len]| ==>
        Lengths((lens + [len])[t]) && |(lens + [len])[t]| == AlphaSize(inUse);
  }

  lemma Coding1Step(level: nat, head: Head, inUse: seq<bool>, n: nat, selector: seq<nat>, lens: seq<seq<nat>>, v: nat)
    requires Reading(inUse, n, selector, lens, []) && v <= LONGEST
    ensures var m := Machine(level, Coding1(head, inUse, n, selector, lens));
            Ok(m) && Need(m) == 5 && v < Pow2(5)
            && Step(m, v) == AfterLength(level, head, inUse, n, selector, lens, [], v)
  {
    assert Pow2(3) == 8;
    hide Used, GoodTables, AfterLength;
  }

  lemma WalkStep(w: Walk, rest: seq<bool>)
    requires TurnsOk(w.start, w.turns) && w.turns != []
    ensures 1 <= w.start <= LONGEST && [] + LengthsFrom(w.start, w.turns) == LengthsFrom(w.start, w.turns)
    ensures WalkBits(w) + rest == Bits(w.start, 5) + (TurnsBits(w.turns) + rest)
    ensures |LengthsFrom(w.start, w.turns)| == |w.turns| && Within(LengthsFrom(w.start, w.turns), 1, LONGEST)
  {
    hide Bits, TurnsBits, LengthsFrom;
  }

  lemma AlphaFacts(inUse: seq<bool>, len: seq<nat>)
    requires |inUse| == 256 && |len| == AlphaSize(inUse) && Within(len, 1, LONGEST)
    ensures Lengths(len)
  {
    hide Used;
    assert |Used(inUse, 256)| <= 256;
  }

  /** One table, on any way to its lengths. */
  lemma ParseWalk(level: nat, head: Head, inUse: seq<bool>, n: nat, selector: seq<nat>, lens: seq<seq<nat>>,
                  w: Walk, rest: seq<bool>)
    requires Reading(inUse, n, selector, lens, []) && |inUse| == 256
    requires TurnsOk(w.start, w.turns) && |w.turns| == AlphaSize(inUse)
    ensures var len := LengthsFrom(w.start, w.turns);
            && Groups(inUse, n) && Picks(selector, n) && |lens + [len]| <= n && GoodTables(inUse, [], lens + [len])
            && Parse(Machine(level, Coding1(head, inUse, n, selector, lens)), WalkBits(w) + rest)
               == Continue(TableDone(level, head, inUse, n, selector, lens + [len]), rest)
  {
    AlphaIs(inUse);
    hide *;
    ReadingFacts(inUse, n, selector, lens, []);
    WalkStep(w, rest);
    var len := LengthsFrom(w.start, w.turns);
    AlphaFacts(inUse, len);
    Coding1Step(level, head, inUse, n, selector, lens, w.start);
    ParseNumber(Machine(level, Coding1(head, inUse, n, selector, lens)), w.start, 5, TurnsBits(w.turns) + rest);
    var last := ParseTurns(level, head, inUse, n, selector, lens, [], w.start, w.turns, rest);
    CodingDone(level, head, inUse, n, selector, lens, len, last);
  }

  lemma AlphaIs(inUse: seq<bool>)
    requires |inUse| == 256
    ensures AlphaSize(inUse) >= 2
  {
  }

  lemma ReadingFacts(inUse: seq<bool>, n: nat, selector: seq<nat>, lens: seq<seq<nat>>, cur: seq<nat>)
    requires Reading(inUse, n, selector, lens, cur)
    ensures Groups(inUse, n) && Picks(selector, n) && |lens| < n && GoodTables(inUse, [], lens) && |inUse| == 256
    ensures |cur| <= AlphaSize(inUse) && Within(cur, 1, LONGEST)
  {
  }

  /** The walks lead to tables for the alphabet. */
  ghost predicate WalksOk(inUse: seq<bool>, ws: seq<Walk>)
  {
    |inUse| == 256 && forall t :: 0 <= t < |ws| ==>
        TurnsOk(ws[t].start, ws[t].turns) && |ws[t].turns| == AlphaSize(inUse)
  }

  lemma WalksStep(inUse: seq<bool>, ws: seq<Walk>, t: nat, rest: seq<bool>)
    requires WalksOk(inUse, ws) && t < |ws|
    ensures |inUse| == 256 && TurnsOk(ws[t].start, ws[t].turns) && |ws[t].turns| == AlphaSize(inUse)
    ensures forall x :: 0 <= x < |ws| ==> TurnsOk(ws[x].start, ws[x].turns)
    ensures LengthsOf(ws)[..t] + [LengthsFrom(ws[t].start, ws[t].turns)] == LengthsOf(ws)[..t + 1]
    ensures WalksBits(ws[t..]) + rest == WalkBits(ws[t]) + (WalksBits(ws[t + 1..]) + rest)
    ensures t + 1 == |ws| ==> WalksBits(ws[t + 1..]) + rest == rest && LengthsOf(ws)[..t + 1] == LengthsOf(ws)
  {
    hide Used, WalkBits, TurnsOk, LengthsFrom;
    assert ws[t..][1..] == ws[t + 1..];
  }

  lemma ReadingStart(inUse: seq<bool>, n: nat, selector: seq<nat>, lens: seq<seq<nat>>)
    requires Groups(inUse, n) && Picks(selector, n) && |lens| < n && GoodTables(inUse, [], lens)
    ensures Reading(inUse, n, selector, lens, [])
  {
    hide Used, Lengths;
  }

  lemma TableDoneIs(level: nat, head: Head, inUse: seq<bool>, n: nat, selector: seq<nat>, lens: seq<seq<nat>>,
                    rest: seq<bool>)
    requires Groups(inUse, n) && Picks(selector, n) && 0 < |lens| < n && GoodTables(inUse, [], lens)
    ensures Continue(TableDone(level, head, inUse, n, selector, lens), rest)
         == Parse(Machine(level, Coding1(head, inUse, n, selector, lens)), rest)
  {
    hide Used, Parse, GoodTables;
  }

  /** All tables from table `t` on, on any ways to their lengths. */
  lemma {:induction false} ParseWalks(level: nat, head: Head, inUse: seq<bool>, selector: seq<nat>, ws: seq<Walk>,
                                      t: nat,
                                      rest: seq<bool>)
    requires WalksOk(inUse, ws) && Groups(inUse, |ws|) && Picks(selector, |ws|) && t < |ws|
    requires forall x :: 0 <= x < |ws| ==> TurnsOk(ws[x].start, ws[x].turns)
    requires GoodTables(inUse, [], LengthsOf(ws)[..t])
    ensures GoodTables(inUse, [], LengthsOf(ws)) && 0 < |ws|
    ensures Parse(Machine(level, Coding1(head, inUse, |ws|, selector, LengthsOf(ws)[..t])), WalksBits(ws[t..]) + rest)
         == Continue(TableDone(level, head, inUse, |ws|, selector, LengthsOf(ws)), rest)
    decreases |ws| - t
  {
    hide *;
    var n, lens := |ws|, LengthsOf(ws);
    ReadingStart(inUse, n, selector, lens[..t]);
    WalksStep(inUse, ws, t, rest);
    ParseWalk(level, head, inUse, n, selector, lens[..t], ws[t], WalksBits(ws[t + 1..]) + rest);
    if t + 1 < n {
      TableDoneIs(level, head, inUse, n, selector, lens[..t + 1], WalksBits(ws[t + 1..]) + rest);
      ParseWalks(level, head, inUse, selector, ws, t + 1, rest);
    }
  }

  /** The compressor's tables. */
  lemma TablesAreWalks(inUse: seq<bool>, selector: seq<nat>, lens: seq<seq<nat>>)
    requires GoodTables(inUse, selector, lens) && 2 <= |lens| <= N_GROUPS
    ensures Groups(inUse, |lens|) && Picks(selector, |lens|) && GoodTables(inUse, [], lens)
    ensures forall x :: 0 <= x < |lens| ==> lens[x] != [] && Lengths(lens[x])
    ensures var ws := StraightWalks(lens);
            && WalksOk(inUse, ws) && (forall x :: 0 <= x < |ws| ==> TurnsOk(ws[x].start, ws[x].turns))
            && LengthsOf(ws) == lens && WalksBits(ws) == TablesBits(lens)
  {
    StraightWalksAre(lens);
    hide Used, Lengths, WalkBits, TurnsOk, LengthsFrom, StraightWalk, WalksBits, TablesBits;
    forall x | 0 <= x < |lens|
      ensures lens[x] != [] && TurnsOk(StraightWalk(lens[x]).start, StraightWalk(lens[x]).turns)
      ensures |StraightWalk(lens[x]).turns| == AlphaSize(inUse)
      ensures LengthsFrom(StraightWalk(lens[x]).start, StraightWalk(lens[x]).turns) == lens[x]
    {
      TableIsWalk(inUse, lens[x]);
    }
  }

  lemma TableIsWalk(inUse: seq<bool>, len: seq<nat>)
    requires |inUse| == 256 && Lengths(len) && |len| == AlphaSize(inUse)
    ensures len != []
    ensures var w := StraightWalk(len);
            TurnsOk(w.start, w.turns) && |w.turns| == AlphaSize(inUse) && LengthsFrom(w.start, w.turns) == len
  {
    hide Used;
    StraightWalkIs(len);
  }

  lemma ParseTables(level: nat, head: Head, inUse: seq<bool>, selector: seq<nat>, lens: seq<seq<nat>>, rest: seq<bool>)
    requires GoodTables(inUse, selector, lens) && 2 <= |lens| <= N_GROUPS
    ensures Groups(inUse, |lens|) && Picks(selector, |lens|) && GoodTables(inUse, [], lens)
    ensures forall x :: 0 <= x < |lens| ==> lens[x] != []
    ensures Parse(Machine(level, Coding1(head, inUse, |lens|, selector, [])), TablesBits(lens) + rest)
         == Continue(TableDone(level, head, inUse, |lens|, selector, lens), rest)
  {
    hide *;
    TablesAreWalks(inUse, selector, lens);
    var ws := StraightWalks(lens);
    assert LengthsOf(ws)[..0] == [] && ws[0..] == ws;
    NoTables(inUse, |lens|);
    ParseWalks(level, head, inUse, selector, ws, 0, rest);
  }

  lemma NoTables(inUse: seq<bool>, n: nat)
    requires Groups(inUse, n)
    ensures GoodTables(inUse, [], [])
  {
    hide Used;
  }

  // ---------------------------------------------------------------- symbols

  lemma SymbolCodeStep(level: nat, body: Body, g: nat, gp: nat, u: Unmtf, v: nat)
    requires InBlock(body, g, gp, u)
    ensures var m, len := Machine(level, SymbolCode(body, g, gp, u)), Lens(body, g);
            && Ok(m) && Need(m) == MinOf(len) && Searching(TableOf(len), len, MinOf(len), v)
            && Step(m, v) == Judge(level, body, g, gp, u, MinOf(len), v)
  {
    FirstSearch(Lens(body, g), v);
    hide Used, Judge, Lengths, TableOf, MinOf, Searching, Listing;
  }

  lemma SymbolBitStep(level: nat, body: Body, g: nat, gp: nat, u: Unmtf, n: nat, zvec: nat, bit: nat)
    requires InBlock(body, g, gp, u) && TooShort(Lens(body, g), n, zvec)
    ensures var m, len := Machine(level, SymbolBit(body, g, gp, u, n + 1, zvec)), Lens(body, g);
            && Ok(m) && Need(m) == 1 && Searching(TableOf(len), len, n + 1, 2 * zvec + bit)
            && Step(m, bit) == Judge(level, body, g, gp, u, n + 1, 2 * zvec + bit)
  {
    hide Used, TooShort, Judge, Lengths, TableOf, Searching, Listing, MinOf, Decodes, Within;
    SearchMore(Lens(body, g), n, zvec, bit);
  }

  /** The verdict on the first `n` bits of a code. */
  lemma JudgeCode(level: nat, body: Body, g: nat, gp: nat, u: Unmtf, sym: nat, n: nat)
    requires InBlock(body, g, gp, u) && sym < AlphaSize(body.inUse)
    requires var len := Lens(body, g); Readable(len, sym) && MinOf(len) <= n <= len[sym]
    requires var len := Lens(body, g); Searching(TableOf(len), len, n, Value(CodeBits(len, sym)[..n]))
    ensures var len := Lens(body, g); var v := Value(CodeBits(len, sym)[..n]);
            Judge(level, body, g, gp, u, n, v)
            == if n == len[sym] then Receive(level, body, g, gp, u, sym)
                else To(Machine(level, SymbolBit(body, g, gp, u, n + 1, v)))
    ensures var len := Lens(body, g); n < len[sym] ==> TooShort(len, n, Value(CodeBits(len, sym)[..n]))
  {
    var len := Lens(body, g);
    CodeLength(len, sym);
    if n == len[sym] {
      SearchEnds(TableOf(len), len, MaxOf(len), sym);
      assert CodeBits(len, sym)[..n] == CodeBits(len, sym);
    } else {
      SearchGoesOn(TableOf(len), len, MaxOf(len), sym, n);
    }
    hide Value, CodeBits, TableOf, Receive, Lens, InBlock, Readable, Look, MinOf, Used;
  }

  lemma BlockFacts(body: Body, g: nat, gp: nat, u: Unmtf)
    requires InBlock(body, g, gp, u)
    ensures GoodBody(body) && g < |body.selector| && |body.inUse| == 256
  {
  }

  lemma CodeLength(len: seq<nat>, sym: nat)
    requires Lengths(len) && sym < |len|
    ensures MinOf(len) <= len[sym] <= LONGEST && |CodeBits(len, sym)| == len[sym]
  {
  }

  /** The bits of a code after its first `n`. */
  lemma {:induction false} ParseCodeBits(level: nat, body: Body, g: nat, gp: nat, u: Unmtf, sym: nat, n: nat,
                                         rest: seq<bool>)
    requires InBlock(body, g, gp, u) && sym < AlphaSize(body.inUse)
    requires var len := Lens(body, g); Readable(len, sym) && MinOf(len) <= n <= len[sym]
    requires var len := Lens(body, g); Searching(TableOf(len), len, n, Value(CodeBits(len, sym)[..n]))
    ensures var len := Lens(body, g); var c := CodeBits(len, sym);
            n <= |c| && Continue(Judge(level, body, g, gp, u, n, Value(c[..n])), c[n..] + rest)
            == Continue(Receive(level, body, g, gp, u, sym), rest)
    decreases Lens(body, g)[sym] - n
  {
    hide *;
    BlockFacts(body, g, gp, u);
    var len := Lens(body, g);
    CodeLength(len, sym);
    var c := CodeBits(len, sym);
    JudgeCode(level, body, g, gp, u, sym, n);
    if n == len[sym] {
      assert c[n..] + rest == rest;
    } else {
      var v, bit := Value(c[..n]), if c[n] then 1 else 0;
      var m := Machine(level, SymbolBit(body, g, gp, u, n + 1, v));
      SymbolBitStep(level, body, g, gp, u, n, v, bit);
      assert c[n..] + rest == [c[n]] + (c[n + 1..] + rest);
      assert c[..n + 1] == c[..n] + [c[n]];
      ValueAppend(c[..n], c[n]);
      ContinueTo(m, c[n..] + rest);
      ParseBit(m, c[n], c[n + 1..] + rest);
      ParseCodeBits(level, body, g, gp, u, sym, n + 1, rest);
    }
  }

  /** One symbol: exactly the bits of its code are read. */
  lemma ParseCode(level: nat, body: Body, g: nat, gp: nat, u: Unmtf, sym: nat, rest: seq<bool>)
    requires InBlock(body, g, gp, u) && sym < AlphaSize(body.inUse)
    requires Readable(Lens(body, g), sym)
    ensures Parse(Machine(level, SymbolCode(body, g, gp, u)), CodeBits(Lens(body, g), sym) + rest)
         == Continue(Receive(level, body, g, gp, u, sym), rest)
  {
    hide *;
    BlockFacts(body, g, gp, u);
    var len := Lens(body, g);
    CodeLength(len, sym);
    var c, n := CodeBits(len, sym), MinOf(len);
    var v := Value(c[..n]);
    SymbolCodeStep(level, body, g, gp, u, v);
    BitsValue(c[..n]);
    assert c + rest == c[..n] + (c[n..] + rest);
    ParseNumber(Machine(level, SymbolCode(body, g, gp, u)), v, n, c[n..] + rest);
    ParseCodeBits(level, body, g, gp, u, sym, n, rest);
  }

  /** The symbols from number `k` on are about to be read with list, bytes and run `u`. */
  ghost predicate AtSymbol(body: Body, syms: seq<nat>, k: nat, u: Unmtf)
  {
    && Sendable(body, syms) && k < |syms| && Listing(u, Unseq(body.inUse)) && |u.list| == |Unseq(body.inUse)|
    && (forall i :: 0 <= i < |syms| ==> syms[i] <= |u.list| + 1)
  }

  lemma AtSymbolFacts(body: Body, syms: seq<nat>, k: nat, u: Unmtf, rest: seq<bool>)
    requires AtSymbol(body, syms, k, u)
    ensures k < |syms| && syms[k..] != [] && syms[k..][0] == syms[k] && syms[k..][1..] == syms[k + 1..]
    ensures GoodBody(body) && |body.inUse| == 256 && syms[k] < AlphaSize(body.inUse)
    ensures GroupOf(k) < |body.selector| && InBlock(body, GroupOf(k), PlaceOf(k), u)
    ensures Readable(Lens(body, GroupOf(k)), syms[k])
    ensures Sendable(body, syms)
            && SymbolsBits(body, syms, k) + rest
                 == CodeBits(Lens(body, GroupOf(k)), syms[k]) + (SymbolsBits(body, syms, k + 1) + rest)
    ensures k + 1 == |syms| ==> SymbolsBits(body, syms, k + 1) + rest == rest
  {
    hide Used, Lengths, Readable, CodeBits;
  }

  /** The group and the place in it that symbol `k` belongs to. */
  lemma NextIs(level: nat, body: Body, syms: seq<nat>, k: nat, u: Unmtf)
    requires AtSymbol(body, syms, k, u)
    ensures GoodBody(body) && NextSymbol(level, body, (k + 49) / 50 - 1, (50 - k % 50) % 50, u)
            == To(Machine(level, SymbolCode(body, GroupOf(k), PlaceOf(k), u)))
    ensures Ok(Machine(level, SymbolCode(body, GroupOf(k), PlaceOf(k), u)))
  {
    hide Used, Lengths, Readable;
  }

  lemma ReceiveIs(level: nat, body: Body, syms: seq<nat>, k: nat, u: Unmtf)
    requires AtSymbol(body, syms, k, u)
    ensures GroupOf(k) < |body.selector| && InBlock(body, GroupOf(k), PlaceOf(k), u) && |body.inUse| == 256
    ensures syms[k] < AlphaSize(body.inUse) && syms[k] <= |u.list| + 1
    ensures var t := Take(u, syms[k], |u.list| + 1, Unseq(body.inUse), 100000 * level);
            var e := Receive(level, body, GroupOf(k), PlaceOf(k), u, syms[k]);
            && (t.Finished? && body.head.origPtr < |t.out| ==>
                e == Block(Machine(level, BlockMagic(0)), body.head, t.out))
            && (t.Going? && k + 1 < |syms| ==>
                  AtSymbol(body, syms, k + 1, t.m)
                  && e == To(Machine(level, SymbolCode(body, GroupOf(k + 1), PlaceOf(k + 1), t.m)))
                  && Ok(e.m))
  {
    hide Used, Lengths, Readable, Take;
    var t := Take(u, syms[k], |u.list| + 1, Unseq(body.inUse), 100000 * level);
    if t.Going? && k + 1 < |syms| {
      NextIs(level, body, syms, k + 1, t.m);
      assert (k + 1 + 49) / 50 - 1 == k / 50 && (50 - (k + 1) % 50) % 50 == 49 - k % 50;
    }
  }

  lemma DecodeStep(u: Unmtf, s: seq<nat>, eob: nat, unseq: seq<byte>, max: nat)
    requires Listing(u, unseq) && eob == |u.list| + 1 && (forall i :: 0 <= i < |s| ==> s[i] <= eob) && s != []
    ensures var t := Take(u, s[0], eob, unseq, max);
            Decode(u, s, eob, unseq, max) == if t.Going? then Decode(t.m, s[1..], eob, unseq, max) else t
    ensures |s| == 1 ==> !Decode(u, s, eob, unseq, max).Finished? || Take(u, s[0], eob, unseq, max).Finished?
  {
    hide Take;
  }

  /** The symbols `s` decode to the bytes `out`, and only the last of them ends the block. */
  ghost predicate LeadsTo(level: nat, body: Body, u: Unmtf, s: seq<nat>, out: seq<byte>)
  {
    && |body.inUse| == 256 && Listing(u, Unseq(body.inUse)) && (forall i :: 0 <= i < |s| ==> s[i] <= |u.list| + 1)
    && (forall i :: 0 <= i < |s| - 1 ==> s[i] != |u.list| + 1)
    && Decode(u, s, |u.list| + 1, Unseq(body.inUse), 100000 * level) == Finished(out)
  }

  lemma LeadsOn(level: nat, body: Body, u: Unmtf, s: seq<nat>, out: seq<byte>)
    requires LeadsTo(level, body, u, s, out) && s != []
    ensures |body.inUse| == 256 && Listing(u, Unseq(body.inUse)) && s[0] <= |u.list| + 1
    ensures var t := Take(u, s[0], |u.list| + 1, Unseq(body.inUse), 100000 * level);
            if |s| == 1 then t == Finished(out) else t.Going? && LeadsTo(level, body, t.m, s[1..], out)
  {
    hide Take, Used;
    TakeKeepsOn(u, s[0], |u.list| + 1, Unseq(body.inUse), 100000 * level);
    DecodeStep(u, s, |u.list| + 1, Unseq(body.inUse), 100000 * level);
  }

  /** All symbols of the block. */
  lemma {:induction false} ParseAllSymbols(level: nat, body: Body, syms: seq<nat>, k: nat, u: Unmtf, out: seq<byte>,
                                           rest: seq<bool>)
    requires AtSymbol(body, syms, k, u) && body.head.origPtr < |out| && LeadsTo(level, body, u, syms[k..], out)
    ensures Sendable(body, syms)
    ensures Parse(Machine(level, SymbolCode(body, GroupOf(k), PlaceOf(k), u)), SymbolsBits(body, syms, k) + rest)
         == GotBlock(Machine(level, BlockMagic(0)), body.head, out, rest)
    decreases |syms| - k
  {
    hide *;
    AtSymbolFacts(body, syms, k, u, rest);
    ReceiveIs(level, body, syms, k, u);
    LeadsOn(level, body, u, syms[k..], out);
    var t := Take(u, syms[k], |u.list| + 1, Unseq(body.inUse), 100000 * level);
    var more := SymbolsBits(body, syms, k + 1) + rest;
    var e := Receive(level, body, GroupOf(k), PlaceOf(k), u, syms[k]);
    ParseCode(level, body, GroupOf(k), PlaceOf(k), u, syms[k], more);
    if k + 1 < |syms| {
      ContinueTo(e.m, more);
      ParseAllSymbols(level, body, syms, k + 1, t.m, out, rest);
    } else {
      ContinueAfter(e, more);
    }
  }

  lemma ContinueAfter(e: Event, rest: seq<bool>)
    ensures e.Block? ==> Continue(e, rest) == GotBlock(e.m, e.head, e.column, rest)
    ensures e.End? ==> Continue(e, rest) == Ended(e.m, e.crc, rest)
    ensures e.Fail? ==> Continue(e, rest) == Failed(e.code)
  {
  }

  lemma TakeKeepsOn(u: Unmtf, sym: nat, eob: nat, unseq: seq<byte>, max: nat)
    requires Listing(u, unseq) && sym <= eob && eob == |u.list| + 1
    ensures var t := Take(u, sym, eob, unseq, max); t.Finished? ==> sym == eob
  {
  }
}
