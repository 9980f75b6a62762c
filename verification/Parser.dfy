/**
 The decoder's parser (decompress.c lines 74-102 and 106-647) as a machine over bits.

 A stage is a point where the source may stop for want of input, with what it has saved
 there.  Each stage asks for a number of bits; `Step` is what the source does with their
 value until it asks again.
 */
module Parser {

  import opened Rotation
  import opened Words
  import opened BitStrings
  import opened Codes
  import opened Mtf
  import opened ByteMap

  const G_SIZE := 50
  const N_GROUPS := 6
  const MAX_SELECTORS := 18002

  const MAGIC: seq<nat> := [0x42, 0x5a, 0x68]
  const BLOCK_MAGIC: seq<nat> := [0x31, 0x41, 0x59, 0x26, 0x53, 0x59]
  const END_MAGIC: seq<nat> := [0x17, 0x72, 0x45, 0x38, 0x50, 0x90]

  datatype Failure = DataErrorMagic | DataError

  /** The fixed fields of a block. */
  datatype Head = Head(crc: nat, randomised: bool, origPtr: nat)

  /** A block's maps and tables, when its symbols are read. */
  datatype Body = Body(head: Head, inUse: seq<bool>, selector: seq<nat>, lens: seq<seq<nat>>)

  datatype Stage =
    | Magic(k: nat)
    | BlockMagic(k: nat)
    | BlockCrc(k: nat, crc: nat)
    | RandBit(crc: nat)
    | OrigPtr(k: nat, head: Head)
    | Mapping1(head: Head, used16: seq<bool>)
    | Mapping2(head: Head, used16: seq<bool>, inUse: seq<bool>)
    | NGroups(head: Head, inUse: seq<bool>)
    | NSelectors(head: Head, inUse: seq<bool>, nGroups: nat)
    | SelectorBit(head: Head, inUse: seq<bool>, nGroups: nat, nSelectors: nat, mtf: seq<nat>, i: nat, j: nat)
    | Coding1(head: Head, inUse: seq<bool>, nGroups: nat, selector: seq<nat>, lens: seq<seq<nat>>)
    | Coding2(head: Head, inUse: seq<bool>, nGroups: nat, selector: seq<nat>, lens: seq<seq<nat>>, cur: seq<nat>,
              curr: int)
    | Coding3(head: Head, inUse: seq<bool>, nGroups: nat, selector: seq<nat>, lens: seq<seq<nat>>, cur: seq<nat>,
              curr: int)
    | SymbolCode(body: Body, groupNo: nat, groupPos: nat, m: Unmtf)
    | SymbolBit(body: Body, groupNo: nat, groupPos: nat, m: Unmtf, zn: nat, zvec: nat)
    | EndMagic(k: nat)
    | CombinedCrc(k: nat, crc: nat)

  datatype Machine = Machine(level: nat, stage: Stage)

  datatype Event =
    | To(m: Machine)
    | Block(m: Machine, head: Head, column: seq<byte>)
    | End(m: Machine, crc: nat)
    | Fail(code: Failure)

  function Unseq(inUse: seq<bool>): (s: seq<byte>)
    requires |inUse| == 256
  {
    Used(inUse, 256)
  }

  function AlphaSize(inUse: seq<bool>): (n: nat)
    requires |inUse| == 256
  {
    |Used(inUse, 256)| + 2
  }

  /** Complete tables for all groups. */
  ghost predicate GoodTables(inUse: seq<bool>, selector: seq<nat>, lens: seq<seq<nat>>)
  {
    && |inUse| == 256 && Unseq(inUse) != []
    && (forall t :: 0 <= t < |lens| ==> Lengths(lens[t]) && |lens[t]| == AlphaSize(inUse))
    && (forall x :: 0 <= x < |selector| ==> selector[x] < |lens|)
  }

  ghost predicate GoodBody(b: Body)
  {
    GoodTables(b.inUse, b.selector, b.lens)
  }

  ghost predicate Groups(inUse: seq<bool>, nGroups: nat)
  {
    |inUse| == 256 && Unseq(inUse) != [] && 2 <= nGroups <= N_GROUPS
  }

  ghost predicate Picks(s: seq<nat>, n: nat)
  {
    forall x :: 0 <= x < |s| ==> s[x] < n
  }

  /** `zn` bits of value `zvec` are not yet a code. */
  ghost predicate TooShort(len: seq<nat>, zn: nat, zvec: nat)
    requires Lengths(len)
  {
    var t := TableOf(len);
    Searching(t, len, zn, zvec) && Look(t, zn, zvec) == LongerBy1
  }

  /** What holds of the saved values at each stage. */
  ghost predicate Ok(m: Machine)
  {
    match m.stage
    case Magic(k) => k <= 3
    case BlockMagic(k) => k < 6
    case BlockCrc(k, _) => k < 4
    case RandBit(_) => true
    case OrigPtr(k, _) => k < 3
    case Mapping1(_, used16) => |used16| < 16
    case Mapping2(_, used16, inUse) => |used16| == 16 && |inUse| < 256
    case NGroups(_, inUse) => |inUse| == 256 && Unseq(inUse) != []
    case NSelectors(_, inUse, n) => Groups(inUse, n)
    case SelectorBit(_, inUse, n, ns, mtf, i, j) => Groups(inUse, n) && i < ns && j < n && Picks(mtf, n)
    case Coding1(_, inUse, n, selector, lens) =>
      Groups(inUse, n) && Picks(selector, n) && |lens| < n && GoodTables(inUse, [], lens)
    case Coding2(_, inUse, n, selector, lens, cur, curr) =>
      && Groups(inUse, n) && Picks(selector, n) && |lens| < n && GoodTables(inUse, [], lens)
      && |cur| < AlphaSize(inUse) && Within(cur, 1, LONGEST) && 1 <= curr <= LONGEST
    case Coding3(_, inUse, n, selector, lens, cur, curr) =>
      && Groups(inUse, n) && Picks(selector, n) && |lens| < n && GoodTables(inUse, [], lens)
      && |cur| < AlphaSize(inUse) && Within(cur, 1, LONGEST) && 1 <= curr <= LONGEST
    case SymbolCode(b, g, gp, u) =>
      GoodBody(b) && g < |b.selector| && gp < G_SIZE && Listing(u, Unseq(b.inUse)) && |u.list| == |Unseq(b.inUse)|
    case SymbolBit(b, g, gp, u, zn, zvec) =>
      && GoodBody(b) && g < |b.selector| && gp < G_SIZE && Listing(u, Unseq(b.inUse)) && |u.list| == |Unseq(b.inUse)|
      && zn >= 1 && TooShort(b.lens[b.selector[g]], zn - 1, zvec)
    case EndMagic(k) => 1 <= k < 6
    case CombinedCrc(k, _) => k < 4
  }

  /** How many bits the stage asks for. */
  function Need(m: Machine): (n: nat)
    requires Ok(m)
    ensures 1 <= n <= LONGEST
  {
    match m.stage
    case Magic(_) => 8
    case BlockMagic(_) => 8
    case BlockCrc(_, _) => 8
    case RandBit(_) => 1
    case OrigPtr(_, _) => 8
    case Mapping1(_, _) => 1
    case Mapping2(_, _, _) => 1
    case NGroups(_, _) => 3
    case NSelectors(_, _, _) => 15
    case SelectorBit(_, _, _, _, _, _, _) => 1
    case Coding1(_, _, _, _, _) => 5
    case Coding2(_, _, _, _, _, _, _) => 1
    case Coding3(_, _, _, _, _, _, _) => 1
    case SymbolCode(b, g, _, _) => MinOf(b.lens[b.selector[g]])
    case SymbolBit(_, _, _, _, _, _) => 1
    case EndMagic(_) => 8
    case CombinedCrc(_, _) => 8
  }

  // ---------------------------------------------------------------- maps

  /** Appends `false` for the groups of 16 that are not in use. */
  function SkipUnused(used16: seq<bool>, inUse: seq<bool>): (s: seq<bool>)
    requires |used16| == 16 && |inUse| <= 256
    ensures |inUse| <= |s| <= 256
    ensures |s| < 256 ==> |s| % 16 != 0 || used16[|s| / 16]
    decreases 256 - |inUse|
  {
    if |inUse| < 256 && |inUse| % 16 == 0 && !used16[|inUse| / 16]
    then SkipUnused(used16, inUse + seq(16, _ => false))
    else inUse
  }

  function AfterMap(level: nat, head: Head, used16: seq<bool>, inUse: seq<bool>): (e: Event)
    requires |used16| == 16 && |inUse| <= 256
    ensures e.To? ==> Ok(e.m) && e.m.level == level
  {
    var s := SkipUnused(used16, inUse);
    if |s| < 256 then To(Machine(level, Mapping2(head, used16, s)))
    else if Unseq(s) == [] then Fail(DataError)
    else To(Machine(level, NGroups(head, s)))
  }

  // ---------------------------------------------------------------- selectors

  /** Undoes the move-to-front coding of the selectors. */
  function Unselect(list: seq<nat>, mtf: seq<nat>): (s: seq<nat>)
    requires Picks(mtf, |list|)
    ensures |s| == |mtf|
    decreases |mtf|
  {
    if mtf == [] then [] else [list[mtf[0]]] + Unselect(Front(list, mtf[0]), mtf[1..])
  }

  lemma {:induction false} UnselectPicks(list: seq<nat>, mtf: seq<nat>, n: nat)
    requires Picks(mtf, |list|) && Picks(list, n)
    ensures Picks(Unselect(list, mtf), n)
    decreases |mtf|
  {
    if mtf != [] {
      UnselectPicks(Front(list, mtf[0]), mtf[1..], n);
    }
  }

  /** Selectors beyond the 18002nd are read but not kept. */
  function Keep(mtf: seq<nat>, i: nat, j: nat): (s: seq<nat>)
  {
    if i < MAX_SELECTORS then mtf + [j] else mtf
  }

  function AfterSelectors(level: nat, head: Head, inUse: seq<bool>, nGroups: nat, mtf: seq<nat>): (e: Event)
    requires Groups(inUse, nGroups) && Picks(mtf, nGroups)
    ensures e.To? && Ok(e.m) && e.m.level == level
  {
    UnselectPicks(Identity(nGroups), mtf, nGroups);
    To(Machine(level, Coding1(head, inUse, nGroups, Unselect(Identity(nGroups), mtf), [])))
  }

  // ---------------------------------------------------------------- coding tables

  function AfterLength(level: nat, head: Head, inUse: seq<bool>, nGroups: nat, selector: seq<nat>, lens: seq<seq<nat>>,
                             cur: seq<nat>, curr: int): (e: Event)
    requires Groups(inUse, nGroups) && Picks(selector, nGroups) && |lens| < nGroups && GoodTables(inUse, [], lens)
    requires |cur| <= AlphaSize(inUse) && Within(cur, 1, LONGEST)
    ensures e.To? ==> Ok(e.m) && e.m.level == level
  {
    if |cur| < AlphaSize(inUse) then
      if curr < 1 || curr > LONGEST then Fail(DataError)
      else To(Machine(level, Coding2(head, inUse, nGroups, selector, lens, cur, curr)))
    else if |lens| + 1 < nGroups then To(Machine(level, Coding1(head, inUse, nGroups, selector, lens + [cur])))
    else NextSymbol(level, Body(head, inUse, selector, lens + [cur]), -1, 0, StartMtf(inUse))
  }

  function StartMtf(inUse: seq<bool>): (u: Unmtf)
    requires |inUse| == 256
  {
    Unmtf(Identity(|Unseq(inUse)|), [], NoRun)
  }

  // ---------------------------------------------------------------- symbols

  /** The start of GET_MTF_VAL: a new group every 50 symbols. */
  function NextSymbol(level: nat, body: Body, groupNo: int, groupPos: nat, u: Unmtf): (e: Event)
    requires GoodBody(body) && groupPos <= G_SIZE && -1 <= groupNo && (groupPos > 0 ==> 0 <= groupNo < |body.selector|)
    requires Listing(u, Unseq(body.inUse)) && |u.list| == |Unseq(body.inUse)|
    ensures e.To? ==> Ok(e.m) && e.m.level == level
  {
    if groupPos == 0 then
      if groupNo + 1 >= |body.selector| then Fail(DataError)
      else To(Machine(level, SymbolCode(body, groupNo + 1, G_SIZE - 1, u)))
    else To(Machine(level, SymbolCode(body, groupNo, groupPos - 1, u)))
  }

  /** The table in use. */
  function Lens(body: Body, groupNo: nat): (len: seq<nat>)
    requires GoodBody(body) && groupNo < |body.selector|
    ensures Lengths(len) && |len| == AlphaSize(body.inUse)
  {
    body.lens[body.selector[groupNo]]
  }

  ghost predicate InBlock(body: Body, groupNo: nat, groupPos: nat, u: Unmtf)
  {
    && GoodBody(body) && groupNo < |body.selector| && groupPos < G_SIZE
    && Listing(u, Unseq(body.inUse)) && |u.list| == |Unseq(body.inUse)|
  }

  lemma SymbolBitOk(level: nat, body: Body, groupNo: nat, groupPos: nat, u: Unmtf, zn: nat, zvec: nat)
    requires InBlock(body, groupNo, groupPos, u) && TooShort(Lens(body, groupNo), zn, zvec)
    ensures Ok(Machine(level, SymbolBit(body, groupNo, groupPos, u, zn + 1, zvec)))
  {
    hide TooShort;
  }

  lemma LookFor(len: seq<nat>, zn: nat, zvec: nat)
    requires Lengths(len) && Searching(TableOf(len), len, zn, zvec) && zn <= LONGEST
    ensures MAX_CODE_LEN <= |TableOf(len).limit| && MAX_CODE_LEN <= |TableOf(len).base|
    ensures Look(TableOf(len), zn, zvec) != Corrupt
    ensures Look(TableOf(len), zn, zvec).Symbol? ==> Look(TableOf(len), zn, zvec).sym < |len|
    ensures Look(TableOf(len), zn, zvec) == LongerBy1 ==> TooShort(len, zn, zvec)
  {
    SearchFinds(TableOf(len), len, MaxOf(len), zn, zvec);
  }

  /** The search with `zn` bits of value `zvec`. */
  function Judge(level: nat, body: Body, groupNo: nat, groupPos: nat, u: Unmtf, zn: nat, zvec: nat): (e: Event)
    requires InBlock(body, groupNo, groupPos, u)
    requires Searching(TableOf(Lens(body, groupNo)), Lens(body, groupNo), zn, zvec)
    ensures e.To? ==> Ok(e.m)
    ensures e.Block? ==> e.m == Machine(level, BlockMagic(0)) && e.head == body.head && 0 <= e.head.origPtr < |e.column|
    ensures !e.End?
  {
    assert LONGEST == 20 && MAX_CODE_LEN == 23;
    hide *;
    if zn > LONGEST then Fail(DataError)
    else
      var len := Lens(body, groupNo);
      LookFor(len, zn, zvec);
      match Look(TableOf(len), zn, zvec)
      case Symbol(sym) => Receive(level, body, groupNo, groupPos, u, sym)
      case LongerBy1 =>
        SymbolBitOk(level, body, groupNo, groupPos, u, zn, zvec);
        To(Machine(level, SymbolBit(body, groupNo, groupPos, u, zn + 1, zvec)))
  }

  /** One symbol. */
  function Receive(level: nat, body: Body, groupNo: nat, groupPos: nat, u: Unmtf, sym: nat): (e: Event)
    requires InBlock(body, groupNo, groupPos, u) && sym < AlphaSize(body.inUse)
    ensures e.To? ==> Ok(e.m)
    ensures e.Block? ==> e.m == Machine(level, BlockMagic(0)) && e.head == body.head && 0 <= e.head.origPtr < |e.column|
    ensures !e.End?
  {
    hide Take, Listing, GoodBody, Ok;
    match Take(u, sym, |u.list| + 1, Unseq(body.inUse), 100000 * level)
    case Going(u') => NextSymbol(level, body, groupNo, groupPos, u')
    case Bad => Fail(DataError)
    case Finished(out) =>
      if body.head.origPtr >= |out| then Fail(DataError)
      else Block(Machine(level, BlockMagic(0)), body.head, out)
  }

  // ---------------------------------------------------------------- one step

  /** Stream and block headers. */
  function StepHeader(m: Machine, v: nat): (e: Event)
    requires Ok(m)
    requires m.stage.Magic? || m.stage.BlockMagic? || m.stage.BlockCrc? || m.stage.RandBit? || m.stage.OrigPtr?
    ensures e.To? ==> Ok(e.m)
    ensures !e.Block? && !e.End?
  {
    var level := m.level;
    match m.stage
    case Magic(k) =>
      if k < 3 then if v != MAGIC[k] then Fail(DataErrorMagic) else To(Machine(level, Magic(k + 1)))
      else if v < 0x31 || v > 0x39 then Fail(DataErrorMagic) else To(Machine(v - 0x30, BlockMagic(0)))
    case BlockMagic(k) =>
      if k == 0 && v == END_MAGIC[0] then To(Machine(level, EndMagic(1)))
      else if v != BLOCK_MAGIC[k] then Fail(DataError)
      else To(Machine(level, if k < 5 then BlockMagic(k + 1) else BlockCrc(0, 0)))
    case BlockCrc(k, crc) => To(Machine(level, if k < 3 then BlockCrc(k + 1, 256 * crc + v)
                                        else RandBit(256 * crc + v)))
    case RandBit(crc) => To(Machine(level, OrigPtr(0, Head(crc, v == 1, 0))))
    case OrigPtr(k, head) =>
      var h := head.(origPtr := 256 * head.origPtr + v);
      if k < 2 then To(Machine(level, OrigPtr(k + 1, h)))
      else if h.origPtr > 10 + 100000 * level then Fail(DataError)
      else To(Machine(level, Mapping1(h, [])))
  }

  /** The byte map and the selectors. */
  function StepMaps(m: Machine, v: nat): (e: Event)
    requires Ok(m)
    requires m.stage.Mapping1? || m.stage.Mapping2? || m.stage.NGroups? || m.stage.NSelectors? || m.stage.SelectorBit?
    ensures e.To? ==> Ok(e.m)
    ensures !e.Block? && !e.End?
  {
    hide Used, GoodTables, Listing, Lengths;
    var level := m.level;
    match m.stage
    case Mapping1(head, used16) =>
      var u := used16 + [v == 1];
      if |u| < 16 then To(Machine(level, Mapping1(head, u))) else AfterMap(level, head, u, [])
    case Mapping2(head, used16, inUse) => AfterMap(level, head, used16, inUse + [v == 1])
    case NGroups(head, inUse) =>
      if v < 2 || v > N_GROUPS then Fail(DataError) else To(Machine(level, NSelectors(head, inUse, v)))
    case NSelectors(head, inUse, n) =>
      if v < 1 then Fail(DataError) else To(Machine(level, SelectorBit(head, inUse, n, v, [], 0, 0)))
    case SelectorBit(head, inUse, n, ns, mtf, i, j) =>
      if v == 0 then
        if i + 1 < ns then To(Machine(level, SelectorBit(head, inUse, n, ns, Keep(mtf, i, j), i + 1, 0)))
        else AfterSelectors(level, head, inUse, n, Keep(mtf, i, j))
      else if j + 1 >= n then Fail(DataError)
      else To(Machine(level, SelectorBit(head, inUse, n, ns, mtf, i, j + 1)))
  }

  /** The code lengths. */
  function StepTables(m: Machine, v: nat): (e: Event)
    requires Ok(m) && (m.stage.Coding1? || m.stage.Coding2? || m.stage.Coding3?)
    ensures e.To? ==> Ok(e.m)
    ensures !e.Block? && !e.End?
  {
    hide Used, GoodTables, Listing, Lengths;
    var level := m.level;
    match m.stage
    case Coding1(head, inUse, n, selector, lens) => AfterLength(level, head, inUse, n, selector, lens, [], v)
    case Coding2(head, inUse, n, selector, lens, cur, curr) =>
      if v == 0 then AfterLength(level, head, inUse, n, selector, lens, cur + [curr], curr)
      else To(Machine(level, Coding3(head, inUse, n, selector, lens, cur, curr)))
    case Coding3(head, inUse, n, selector, lens, cur, curr) =>
      AfterLength(level, head, inUse, n, selector, lens, cur, if v == 0 then curr + 1 else curr - 1)
  }

  lemma SymbolFacts(m: Machine)
    requires Ok(m)
    ensures m.stage.SymbolCode? ==> InBlock(m.stage.body, m.stage.groupNo, m.stage.groupPos, m.stage.m)
    ensures m.stage.SymbolBit? ==>
              && InBlock(m.stage.body, m.stage.groupNo, m.stage.groupPos, m.stage.m) && m.stage.zn >= 1
              && TooShort(Lens(m.stage.body, m.stage.groupNo), m.stage.zn - 1, m.stage.zvec)
  {
    hide TooShort, Listing, GoodTables;
  }

  lemma SearchMore(len: seq<nat>, zn: nat, zvec: nat, bit: nat)
    requires Lengths(len) && TooShort(len, zn, zvec)
    ensures Searching(TableOf(len), len, zn + 1, 2 * zvec + bit)
  {
    hide Lengths, Decodes, Searching, Look;
    SearchStep(TableOf(len), len, MaxOf(len), zn, zvec, bit);
  }

  /** The symbols. */
  function StepSymbols(m: Machine, v: nat): (e: Event)
    requires Ok(m) && (m.stage.SymbolCode? || m.stage.SymbolBit?)
    ensures e.To? ==> Ok(e.m)
    ensures e.Block? ==> e.m == Machine(m.level, BlockMagic(0)) && 0 <= e.head.origPtr < |e.column|
    ensures !e.End?
  {
    hide *;
    SymbolFacts(m);
    match m.stage
    case SymbolCode(b, g, gp, u) =>
      FirstSearch(Lens(b, g), v);
      Judge(m.level, b, g, gp, u, MinOf(Lens(b, g)), v)
    case SymbolBit(b, g, gp, u, zn, zvec) =>
      SearchMore(Lens(b, g), zn - 1, zvec, v);
      Judge(m.level, b, g, gp, u, zn, 2 * zvec + v)
  }

  /** The stream trailer. */
  function StepTrailer(m: Machine, v: nat): (e: Event)
    requires Ok(m) && (m.stage.EndMagic? || m.stage.CombinedCrc?)
    ensures e.To? ==> Ok(e.m)
    ensures !e.Block?
  {
    match m.stage
    case EndMagic(k) =>
      if v != END_MAGIC[k] then Fail(DataError)
      else To(Machine(m.level, if k < 5 then EndMagic(k + 1) else CombinedCrc(0, 0)))
    case CombinedCrc(k, crc) =>
      if k < 3 then To(Machine(m.level, CombinedCrc(k + 1, 256 * crc + v))) else End(m, 256 * crc + v)
  }

  function Step(m: Machine, v: nat): (e: Event)
    requires Ok(m)
    ensures e.To? ==> Ok(e.m)
    ensures e.Block? ==> Ok(e.m) && e.m == Machine(m.level, BlockMagic(0)) && 0 <= e.head.origPtr < |e.column|
  {
    BlockMagicOk(m.level);
    hide *;
    if m.stage.EndMagic? || m.stage.CombinedCrc? then StepTrailer(m, v)
    else if m.stage.SymbolCode? || m.stage.SymbolBit? then StepSymbols(m, v)
    else if m.stage.Coding1? || m.stage.Coding2? || m.stage.Coding3? then StepTables(m, v)
    else if m.stage.Mapping1? || m.stage.Mapping2? || m.stage.NGroups? || m.stage.NSelectors?
         || m.stage.SelectorBit? then
      StepMaps(m, v)
    else StepHeader(m, v)
  }

  lemma BlockMagicOk(level: nat)
    ensures Ok(Machine(level, BlockMagic(0)))
  {
  }

  /** The search starts with as many bits as the shortest code. */
  lemma FirstSearch(len: seq<nat>, v: nat)
    requires Lengths(len)
    ensures Searching(TableOf(len), len, MinOf(len), v)
  {
    FirstZero(len, MinOf(len), MaxOf(len), MinOf(len));
  }

  // ---------------------------------------------------------------- runs

  /** Where a run over some bits stops, with the bits that are left. */
  datatype Stop =
    | Waiting(m: Machine, rest: seq<bool>)
    | GotBlock(m: Machine, head: Head, column: seq<byte>, rest: seq<bool>)
    | Ended(m: Machine, crc: nat, rest: seq<bool>)
    | Failed(code: Failure)

  function After(e: Event, rest: seq<bool>): (s: Stop)
    requires !e.To?
  {
    match e
    case Block(m, head, column) => GotBlock(m, head, column, rest)
    case End(m, crc) => Ended(m, crc, rest)
    case Fail(code) => Failed(code)
  }

  ghost function Parse(m: Machine, bits: seq<bool>): (s: Stop)
    requires Ok(m)
    ensures s.Waiting? ==> Ok(s.m) && |s.rest| < Need(s.m)
    ensures s.GotBlock? ==> Ok(s.m) && 0 <= s.head.origPtr < |s.column| && |s.rest| < |bits|
    decreases |bits|
  {
    var n := Need(m);
    if |bits| < n then Waiting(m, bits)
    else
      var e := Step(m, Value(bits[..n]));
      if e.To? then Parse(e.m, bits[n..]) else After(e, bits[n..])
  }

  /** A stopped run, given more input. */
  ghost function Resume(s: Stop, more: seq<bool>): (r: Stop)
    requires s.Waiting? ==> Ok(s.m)
  {
    match s
    case Waiting(m, rest) => Parse(m, rest + more)
    case GotBlock(m, head, column, rest) => GotBlock(m, head, column, rest + more)
    case Ended(m, crc, rest) => Ended(m, crc, rest + more)
    case Failed(code) => Failed(code)
  }

  /** More input only continues a run: how the bits are cut into pieces does not matter. */
  lemma {:induction false} ParseMore(m: Machine, bits: seq<bool>, more: seq<bool>)
    requires Ok(m)
    ensures Parse(m, bits + more) == Resume(Parse(m, bits), more)
    decreases |bits|
  {
    hide Ok, Need, Step, Pow2, Value;
    var n := Need(m);
    if |bits| >= n {
      assert (bits + more)[..n] == bits[..n] && (bits + more)[n..] == bits[n..] + more;
      var e := Step(m, Value(bits[..n]));
      if e.To? {
        ParseMore(e.m, bits[n..], more);
      }
    }
  }

  /** One number, and what follows. */
  lemma ParseStep(m: Machine, v: nat, n: nat, rest: seq<bool>)
    requires Ok(m) && n == Need(m) && v < Pow2(n)
    ensures var e := Step(m, v);
            Parse(m, Bits(v, n) + rest) == if e.To? then Parse(e.m, rest) else After(e, rest)
  {
    hide Ok, Need, Step, Pow2, Value;
    ValueBits(v, n);
    var bits := Bits(v, n) + rest;
    assert bits[..n] == Bits(v, n) && bits[n..] == rest;
  }
}
