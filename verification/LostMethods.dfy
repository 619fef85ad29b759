/**
 Methods that deduplication loses, although each passes the checks that are made of a file before it is laid
 out: one whose offset comes to lead to another method, and one that comes to have another's try items.
 */
module LostMethods {
  import opened Leb128
  import opened Streams
  import opened CatchHandlers
  import opened CodeItems
  import opened CompactCode
  import opened SharedRuns
  import opened Payloads

  /** What is checked of the sizes of a method. */
  predicate SizesPass(c: CompactItem) {
    c.ins <= c.registers && (c.outs <= 5 || c.outs <= c.registers)
  }

  /** What is checked of its try items and handlers. */
  predicate TriesPass(n: nat, tries: seq<Try>, handlers: seq<Handler>) {
    && 0 < |handlers| < 0x1_0000
    && (forall k :: 0 <= k < |handlers| ==> forall p :: p in handlers[k].pairs ==> p.address < n)
    && (forall k :: 0 <= k < |tries| ==>
          && tries[k].startAddress < n && tries[k].startAddress + tries[k].count <= n
          && exists h :: h in handlers && h.offset == tries[k].handlerOffset)
    && (forall k :: 0 < k < |tries| ==> tries[k - 1].startAddress + tries[k - 1].count <= tries[k].startAddress)
  }

  // ---- methods without a preheader

  /** Few registers, all of them parameters, few try items, few instructions. */
  predicate IsSmall(c: CompactItem) {
    c.registers == c.ins < 16 && c.outs < 16 && c.tries < 16 && |c.insns| < 2048
  }

  lemma {:induction false} HalfBytes(v: uint16)
    ensures LeBytes(v, 2) == [v % 256, v / 256]
  {
    assert LeBytes(v / 256, 1) == [v / 256] by { assert LeBytes(v / 256 / 256, 0) == []; }
  }

  lemma {:induction false} HeaderBytes(c: CompactItem)
    ensures Header(c) == [Fields(c) % 256, Fields(c) / 256, CountAndFlags(c) % 256, CountAndFlags(c) / 256]
  {
    hide LeBytes, Fields, CountAndFlags;
    HalfBytes(Fields(c));
    HalfBytes(CountAndFlags(c));
  }

  lemma {:induction false} SmallFields(c: CompactItem)
    requires IsSmall(c)
    ensures Fields(c) == 256 * c.ins + (16 * c.outs + c.tries) && CountAndFlags(c) == 32 * |c.insns| && Flags(c) == 0
  {
  }

  lemma {:induction false} TwoBytes(hi: nat, lo: nat)
    requires lo < 256
    ensures (256 * hi + lo) % 256 == lo && (256 * hi + lo) / 256 == hi
  {
  }

  lemma {:induction false} SmallHeader(c: CompactItem)
    requires IsSmall(c)
    ensures Backwards(c) == []
    ensures Header(c) == [16 * c.outs + c.tries, c.ins, 32 * |c.insns| % 256, 32 * |c.insns| / 256]
  {
    hide LeBytes, Fields, CountAndFlags, Flags, Backwards, Header;
    HeaderBytes(c);
    SmallFields(c);
    TwoBytes(c.ins, 16 * c.outs + c.tries);
    PreheaderLength(c);
  }

  lemma {:induction false} NoHalves()
    ensures InsnBytes(Reversed([])) == []
  {
  }

  /** Their range is padding and item. */
  lemma {:induction false} SmallRange(c: CompactItem, payload: bool, pos: nat)
    requires IsSmall(c)
    ensures var g := GapFor(0, payload, pos);
            Distance(c, payload, pos) == g && Range(c, payload, pos) == Zeros(g) + Item(c, pos + g)
  {
    hide InsnBytes, GapFor, Zeros, Backwards, Header, Fields, Flags, Item;
    SmallHeader(c);
    NoHalves();
    var z := Zeros(GapFor(0, payload, pos));
    assert Preheader(c) == [];
    assert z + [] == z;
  }

  /** On a word there is no padding; on a half one half, if there is a payload. */
  lemma {:induction false} Gaps(payload: bool, pos: nat)
    ensures pos % 4 == 0 ==> GapFor(0, payload, pos) == 0
    ensures pos % 4 == 2 ==> GapFor(0, payload, pos) == if payload then 2 else 0
  {
    hide UpToFour;
    if pos % 4 == 0 || pos % 4 == 2 {
      NextWord(pos, UpToFour(pos));
    }
  }

  lemma {:induction false} InsnsFrom(v: uint16, rest: seq<uint16>)
    ensures InsnBytes([v] + rest) == [v % 256, v / 256] + InsnBytes(rest)
  {
    HalfBytes(v);
    assert ([v] + rest)[1..] == rest;
  }

  // ---- a section with one and with two code items

  lemma {:induction false} FirstCode(u: Setup, s: Section, c: CompactItem)
    requires u.dedupeCode && Lookup(s.w, s.codes, Range(c, u.payload(c.insns), |s.w|)).None?
    ensures var x, d := Range(c, u.payload(c.insns), |s.w|), Distance(c, u.payload(c.insns), |s.w|);
            Next(u, s, WriteCode(c)) == (Section(s.w + x, s.codes + [Entry(|s.w|, |x|, |s.w| + d)], s.datas), |s.w| + d)
  {
    hide Range, Distance, NextShare, NextPlain, SharedRuns.Padded, Lookup;
  }

  lemma {:induction false} StartOfSection(u: Setup, ops: seq<Op>)
    requires |ops| > 0
    ensures |EMPTY.w| == 8 && After(u, ops[..0]) == EMPTY && EMPTY.codes == []
    ensures After(u, ops[..1]) == Next(u, EMPTY, ops[0]).0 && OffsetAt(u, ops, 0) == Next(u, EMPTY, ops[0]).1
  {
    hide Next;
    assert ops[..0] == [] && ops[..1][..0] == [];
  }

  /** The first code item is the twin of a later one with the same range. */
  lemma {:induction false} FirstTwin(u: Setup, s: Section, c: CompactItem, e: Entry)
    requires u.dedupeCode && s.codes != [] && s.codes[0] == e && Matches(s.w, e, Range(c, u.payload(c.insns), |s.w|))
    ensures Twin(u, s, c) == Some(e)
  {
    hide Range;
  }

  // ---- a method whose offset leads to another

  /** The second method is the first without its first instruction; its header reads like the rest of the
      first one's header and that instruction. */
  ghost predicate Overlap(a: CompactItem, b: CompactItem) {
    && IsSmall(a) && IsSmall(b) && a.tries == 0 && b.tries == 0 && a.ins == 0 && a.outs == 0
    && 256 * b.ins + 16 * b.outs == 32 * |a.insns|
    && |a.insns| == |b.insns| + 1 && a.insns == [32 * |b.insns|] + b.insns
  }

  lemma {:induction false} PlainItem(c: CompactItem, at: nat)
    requires c.tries == 0
    ensures Item(c, at) == Header(c) + InsnBytes(c.insns)
  {
    hide Header, InsnBytes;
  }

  lemma {:induction false} OverlappingItems(a: CompactItem, b: CompactItem, x: nat, y: nat)
    requires Overlap(a, b)
    ensures Item(a, x) == [0, 0] + Item(b, y)
  {
    hide InsnBytes, Header, Item;
    SmallHeader(a);
    SmallHeader(b);
    PlainItem(a, x);
    PlainItem(b, y);
    InsnsFrom(32 * |b.insns|, b.insns);
    var m, n, rest := 32 * |a.insns|, 32 * |b.insns|, InsnBytes(b.insns);
    assert m % 256 == 16 * b.outs && m / 256 == b.ins;
    assert Header(a) + InsnBytes(a.insns) == [0, 0, m % 256, m / 256, n % 256, n / 256] + rest;
    assert [0, 0] + (Header(b) + rest) == [0, 0, m % 256, m / 256, n % 256, n / 256] + rest;
  }

  lemma {:induction false} OverlappingRanges(a: CompactItem, b: CompactItem, payload: bool, pos: nat, behind: nat)
    requires Overlap(a, b) && pos % 4 == 0 && behind % 4 == 2
    ensures Distance(a, payload, pos) == 0 && Distance(b, true, behind) == 2
    ensures Range(a, payload, pos) == Range(b, true, behind)
  {
    hide Range, Distance, GapFor, Item, Overlap;
    assert IsSmall(a) && IsSmall(b) by { OverlapIsSmall(a, b); }
    SmallRange(a, payload, pos);
    SmallRange(b, true, behind);
    Gaps(payload, pos);
    Gaps(true, behind);
    OverlappingItems(a, b, pos, behind + 2);
    assert Zeros(0) + Item(a, pos) == Item(a, pos);
  }

  lemma {:induction false} OverlapIsSmall(a: CompactItem, b: CompactItem)
    requires Overlap(a, b)
    ensures IsSmall(a) && IsSmall(b)
  {
  }

  lemma {:induction false} FirstLength(c: CompactItem, payload: bool)
    requires IsSmall(c) && c.tries == 0 && |c.insns| % 2 == 1
    ensures |Range(c, payload, 8)| == 4 + 2 * |c.insns| && (8 + |Range(c, payload, 8)|) % 4 == 2
  {
    hide InsnBytes, Header, Range, Distance, GapFor;
    SmallRange(c, payload, 8);
    Gaps(payload, 8);
  }

  /** Of two such methods, at the start of the section, the second is taken back, and a reader at its offset
      finds the first. */
  lemma {:induction false} SecondMethodIsLost(u: Setup, a: CompactItem, b: CompactItem)
    requires Overlap(a, b) && |a.insns| % 2 == 1 && u.dedupeCode && u.payload(b.insns)
    ensures var ops := [WriteCode(a), WriteCode(b)];
            && OffsetAt(u, ops, 0) == OffsetAt(u, ops, 1)
            && ReadMethod(After(u, ops).w, OffsetAt(u, ops, 1)) == Some(MethodOf(a)) != Some(MethodOf(b))
            && !ReadsWhole(u, ops, 1)
  {
    hide Range, Distance, Next, Twin, Backwards, OffsetAt, ReadsWhole, ReadMethod, Lookup, FoundAt, Header, Overlap,
        IsSmall;
    var ops := [WriteCode(a), WriteCode(b)];
    var s, x, e := After(u, ops[..1]), Range(a, u.payload(a.insns), 8), Entry(8, |Range(a, u.payload(a.insns), 8)|, 8);
    StartOfSection(u, ops);
    FirstCode(u, EMPTY, a);
    OverlapParts(a, b);
    FirstLength(a, u.payload(a.insns));
    OverlappingRanges(a, b, u.payload(a.insns), 8, 8 + |x|);
    NewRange(EMPTY.w, x, 8);
    FirstTwin(u, s, b, e);
    CodeOffset(u, ops, 1);
    CodeReadsIff(u, ops, 1);
    NoTwin(u, a);
    MethodReadsIff(u, ops, 0);
  }

  lemma {:induction false} OverlapParts(a: CompactItem, b: CompactItem)
    requires Overlap(a, b)
    ensures IsSmall(a) && IsSmall(b) && a.tries == 0 && SizesOf(a) != SizesOf(b)
  {
  }

  lemma {:induction false} NoTwin(u: Setup, c: CompactItem)
    ensures Twin(u, EMPTY, c).None?
  {
    hide Range;
  }

  lemma {:induction false} PayloadFirst(insns: seq<uint16>)
    requires |insns| >= 3 && insns[0] == FILL_ARRAY_DATA
    ensures HasPayload(insns)
  {
  }

  /** Fills an array of 48 bytes from the payload behind the return. */
  function FillsArray(): (insns: seq<uint16>)
    ensures |insns| == 32 && insns[0] == FILL_ARRAY_DATA
  {
    [0x0026, 0x0004, 0x0000, 0x000e, 0x0300, 0x0001, 0x0030, 0x0000] + seq(24, i => 0)
  }

  const WHILE_DEDUPING := Setup(true, HasPayload)

  /** Two methods that pass: the second fills its parameter and returns, the first does nothing before that.
      The second is lost. */
  lemma {:induction false} ArrayMethodIsLost() returns (a: CompactItem, b: CompactItem)
    ensures SizesPass(a) && SizesPass(b) && b.insns == FillsArray() && a.insns == [0x0400] + b.insns
    ensures var ops := [WriteCode(a), WriteCode(b)];
            && OffsetAt(WHILE_DEDUPING, ops, 0) == OffsetAt(WHILE_DEDUPING, ops, 1)
            && ReadMethod(After(WHILE_DEDUPING, ops).w, OffsetAt(WHILE_DEDUPING, ops, 1))
                == Some(MethodOf(a)) != Some(MethodOf(b))
  {
    hide FillsArray, HasPayload, OffsetAt, After, ReadMethod, MethodOf, ReadsWhole;
    b := Code(4, 4, 2, 0, FillsArray(), []);
    a := Code(0, 0, 0, 0, [0x0400] + b.insns, []);
    assert Overlap(a, b);
    PayloadFirst(b.insns);
    SecondMethodIsLost(WHILE_DEDUPING, a, b);
  }

  // ---- a method that gets another's try items

  /** The same but for the tails, which differ by the padding in front of them. */
  ghost predicate SameButTails(b: CompactItem, c: CompactItem) {
    && IsSmall(b) && IsSmall(c) && SizesOf(b) == SizesOf(c) && b.insns == c.insns && b.tries > 0 && |b.insns| % 2 == 0
    && b.tail == [0, 0] + c.tail
  }

  lemma {:induction false} EvenCount(pos: nat, n: nat)
    requires n % 2 == 0
    ensures (pos + 4 + 2 * n) % 4 == pos % 4
  {
    assert pos + 4 + 2 * n == pos + 4 * (1 + n / 2);
    FullTurn(pos, 1 + n / 2);
  }

  lemma {:induction false} TailedItem(c: CompactItem, at: nat)
    requires c.tries > 0 && |c.insns| % 2 == 0 && (at % 4 == 0 || at % 4 == 2)
    ensures Item(c, at) == Body(c) + (Zeros(at % 4) + c.tail)
  {
    hide Body, UpToFour, Zeros;
    var m := at + 4 + 2 * |c.insns|;
    EvenCount(at, |c.insns|);
    NextWord(m, UpToFour(m));
  }

  lemma {:induction false} SameBody(b: CompactItem, c: CompactItem)
    requires SizesOf(b) == SizesOf(c) && b.insns == c.insns
    ensures Body(b) == Body(c)
  {
    hide Header, InsnBytes;
    SizesDetermine(b, c);
  }

  lemma {:induction false} TailedRanges(b: CompactItem, c: CompactItem, pos: nat, behind: nat)
    requires SameButTails(b, c) && pos % 4 == 0 && behind % 4 == 2
    ensures Distance(b, false, pos) == 0 && Distance(c, false, behind) == 0
    ensures Range(b, false, pos) == Range(c, false, behind) && |Range(b, false, pos)| == 4 + 2 * |b.insns| + |b.tail|
  {
    hide Range, Distance, GapFor, Item, Body;
    SmallRange(b, false, pos);
    SmallRange(c, false, behind);
    Gaps(false, pos);
    Gaps(false, behind);
    TailedItem(b, pos);
    TailedItem(c, behind);
    SameBody(b, c);
    assert Zeros(0) + b.tail == b.tail && Zeros(2) + c.tail == b.tail;
    assert Zeros(0) + Item(b, pos) == Item(b, pos) && Zeros(0) + Item(c, behind) == Item(c, behind);
  }

  /** A method of one instruction. */
  lemma {:induction false} ShortRange(m: CompactItem, payload: bool, pos: nat)
    requires IsSmall(m) && m.tries == 0 && |m.insns| == 1 && pos % 4 == 0
    ensures |Range(m, payload, pos)| == 6
  {
    hide Range, Distance, GapFor, Header, InsnBytes;
    SmallRange(m, payload, pos);
    Gaps(payload, pos);
  }

  lemma {:induction false} OtherLength(w: seq<byte>, e: Entry, x: seq<byte>)
    requires e.length != |x|
    ensures Lookup(w, [e], x).None?
  {
    assert [e][1..] == [];
  }

  lemma {:induction false} ThenHalf(a: nat, n: nat)
    requires a % 4 == 0 && n % 4 == 0
    ensures (a + n) % 4 == 0 && (a + n + 6) % 4 == 2
  {
    var k := a / 4 + n / 4;
    assert a + n == 4 * k && a + n + 6 == 4 * (k + 1) + 2;
  }

  /** A first code item of whole words and then one of a single instruction. */
  lemma {:induction false} TwoWritten(u: Setup, s: Section, b: CompactItem, m: CompactItem, x: seq<byte>)
    requires u.dedupeCode && |s.w| % 4 == 0 && s.codes == []
    requires x == Range(b, u.payload(b.insns), |s.w|) && Distance(b, u.payload(b.insns), |s.w|) == 0 && |x| % 4 == 0
        && |x| != 6
    requires IsSmall(m) && m.tries == 0 && |m.insns| == 1
    ensures var one := Next(u, s, WriteCode(b));
            var two, e := Next(u, one.0, WriteCode(m)).0, Entry(|s.w|, |x|, |s.w|);
            one.1 == |s.w| && |two.w| % 4 == 2 && two.codes != [] && two.codes[0] == e && Matches(two.w, e, x)
  {
    hide Range, Distance, Next, Lookup, IsSmall, Matches;
    var e := Entry(|s.w|, |x|, |s.w|);
    assert Lookup(s.w, s.codes, x).None?;
    FirstCode(u, s, b);
    var one := Section(s.w + x, [e], s.datas);
    assert s.codes + [e] == [e];
    var y := Range(m, u.payload(m.insns), |one.w|);
    ThenHalf(|s.w|, |x|);
    ShortRange(m, u.payload(m.insns), |one.w|);
    OtherLength(one.w, e, y);
    FirstCode(u, one, m);
    NewRange(s.w, x, |s.w|);
    MatchesMore(one.w, one.w + y, e, x);
  }

  /** After two such methods with one of a single instruction between them, what the last one got is the first
      one's place: all its bytes are there, but a reader takes its try items from elsewhere. */
  lemma {:induction false} TryItemsAreLost(u: Setup, b: CompactItem, m: CompactItem, c: CompactItem)
    requires SameButTails(b, c) && HasHandlers(c) && |b.tail| % 4 == 0 && IsSmall(m) && m.tries == 0 && |m.insns| == 1
    requires u.dedupeCode && !u.payload(b.insns)
    ensures var ops := [WriteCode(b), WriteCode(m), WriteCode(c)];
            && OffsetAt(u, ops, 2) == OffsetAt(u, ops, 0) && ReadsWhole(u, ops, 2)
            && !FoundAt(After(u, ops).w, OffsetAt(u, ops, 2), c)
  {
    hide Range, Distance, Next, Twin, OffsetAt, ReadsWhole, ReadMethod, Lookup, FoundAt, IsSmall, Settled, HasHandlers,
        After, Matches;
    var ops := [WriteCode(b), WriteCode(m), WriteCode(c)];
    var x, s := Range(b, false, 8), After(u, ops[..2]);
    TailedRanges(b, c, 8, 2);
    WholeWords(|b.insns|, |b.tail|);
    StartOfSection(u, ops);
    AfterStep(u, ops, 1);
    TwoWritten(u, After(u, ops[..0]), b, m, x);
    TailedRanges(b, c, 8, |s.w|);
    FirstTwin(u, s, c, Entry(8, |x|, 8));
    CodeOffset(u, ops, 2);
    CodeReadsIff(u, ops, 2);
  }

  lemma {:induction false} WholeWords(n: nat, t: nat)
    requires n % 2 == 0 && t % 4 == 0
    ensures (4 + 2 * n + t) % 4 == 0
  {
    assert 4 + 2 * n + t == 4 * (1 + n / 2 + t / 4);
  }

  // ---- two methods with try items

  lemma {:induction false} NoPayload(insns: seq<uint16>, pc: nat)
    requires forall u :: u in insns ==>
        SizeFor(u % 256) == 1 && !TakesPayload(u % 256) && u !in {0x0100, 0x0200, 0x0300}
    ensures !PayloadFrom(insns, pc)
    decreases |insns| - pc
  {
    hide SizeFor;
    if pc < |insns| {
      assert insns[pc] in insns;
      NoPayload(insns, pc + 1);
    }
  }

  lemma {:induction false} PaintNext(buf: seq<byte>, h: Handler, rest: seq<Handler>)
    requires h.offset == |buf|
    ensures PaintAll(buf, [h] + rest) == PaintAll(buf + EncodeHandler(h), rest)
  {
    hide EncodeHandler;
    assert ([h] + rest)[1..] == rest;
    assert Paint(buf, h.offset, EncodeHandler(h)) == buf + EncodeHandler(h);
  }

  /** Handlers that catch everything, and handlers for one type, with small numbers. */
  function CatchAll(offset: nat, address: uint32): Handler {
    Handler(true, offset, [Pair(None, address)])
  }

  function CatchOne(offset: nat, typeIndex: nat, address: uint32): Handler {
    Handler(false, offset, [Pair(Some(typeIndex), address)])
  }

  lemma {:induction false} SmallHandlers(offset: nat, t: nat, a: uint32)
    requires t < 128 && a < 128
    ensures EncodeHandler(CatchAll(offset, a)) == [0, a] && EncodeHandler(CatchOne(offset, t, a)) == [1, t, a]
  {
    assert Uleb(a) == [a] && Uleb(t) == [t] && Sleb(0) == [0] && Sleb(1) == [1];
    OnePair(Pair(None, a));
    OnePair(Pair(Some(t), a));
  }

  lemma {:induction false} OnePair(p: Pair)
    ensures EncodePairs([p]) == (match p.typeIndex case None => [] case Some(t) => Uleb(t)) + Uleb(p.address)
  {
    assert [p][1..] == [] && EncodePairs([]) == [];
  }

  lemma {:induction false} AreaOfTwo(x: nat, t: nat, y: nat)
    requires x < 128 && t < 128 && y < 128
    ensures HandlerArea([CatchAll(1, x), CatchOne(3, t, y)]) == [2, 0, x, 1, t, y]
  {
    hide EncodeHandler, PaintAll;
    SmallHandlers(1, t, x);
    SmallHandlers(3, t, y);
    assert Uleb(2) == [2];
    var h, g := CatchAll(1, x), CatchOne(3, t, y);
    assert [h, g] == [h] + [g] && [g] == [g] + [];
    PaintNext([2], h, [g]);
    PaintNext([2, 0, x], g, []);
    NothingToPaint([2, 0, x, 1, t, y]);
    assert [2] + [0, x] == [2, 0, x] && [2, 0, x] + [1, t, y] == [2, 0, x, 1, t, y];
  }

  lemma {:induction false} AreaOfThree(v: nat, x: nat, t: nat, y: nat)
    requires v < 128 && x < 128 && t < 128 && y < 128
    ensures HandlerArea([CatchAll(1, v), CatchAll(3, x), CatchOne(5, t, y)]) == [3, 0, v, 0, x, 1, t, y]
  {
    hide EncodeHandler, PaintAll;
    SmallHandlers(1, t, v);
    SmallHandlers(3, t, x);
    SmallHandlers(5, t, y);
    assert Uleb(3) == [3];
    var f, h, g := CatchAll(1, v), CatchAll(3, x), CatchOne(5, t, y);
    assert [f, h, g] == [f] + [h, g] && [h, g] == [h] + [g] && [g] == [g] + [];
    PaintNext([3], f, [h, g]);
    PaintNext([3, 0, v], h, [g]);
    PaintNext([3, 0, v, 0, x], g, []);
    NothingToPaint([3, 0, v, 0, x, 1, t, y]);
    assert [3] + [0, v] == [3, 0, v] && [3, 0, v] + [0, x] == [3, 0, v, 0, x];
    assert [3, 0, v, 0, x] + [1, t, y] == [3, 0, v, 0, x, 1, t, y];
  }

  lemma {:induction false} NothingToPaint(buf: seq<byte>)
    ensures PaintAll(buf, []) == buf
  {
  }

  lemma {:induction false} OneTry(count: uint16, offset: uint16)
    requires count < 256 && offset < 256
    ensures TryBytes([Try(0, count, offset)]) == [0, 0, 0, 0, count, 0, offset, 0]
  {
    hide LeBytes;
    HalfBytes(count);
    HalfBytes(offset);
    ZeroWord();
    var t := Try(0, count, offset);
    assert [t][..0] == [] && TryBytes([]) == [];
    assert TryItem(t) == [0, 0, 0, 0, count, 0, offset, 0];
    assert [] + TryItem(t) == TryItem(t);
  }

  lemma {:induction false} ZeroWord()
    ensures LeBytes(0, 4) == [0, 0, 0, 0]
  {
    assert LeBytes(0, 1) == [0] by { assert LeBytes(0, 0) == []; }
    assert LeBytes(0, 2) == [0, 0];
    assert LeBytes(0, 3) == [0, 0, 0];
  }

  const FIRST_HANDLERS := [CatchAll(1, 2), CatchAll(3, 1), CatchOne(5, 0, 3)]
  const LAST_HANDLERS := [CatchAll(1, 1), CatchOne(3, 0, 3)]

  /** Try item and handlers of one method read like padding, try item and handlers of the other. */
  lemma {:induction false} TailsOverlap()
    ensures TryBytes([Try(0, 0, 1)]) + HandlerArea(FIRST_HANDLERS)
        == [0, 0] + (TryBytes([Try(0, 1, 3)]) + HandlerArea(LAST_HANDLERS))
    ensures |TryBytes([Try(0, 0, 1)]) + HandlerArea(FIRST_HANDLERS)| == 16
    ensures (TryBytes([Try(0, 1, 3)]) + HandlerArea(LAST_HANDLERS))[4] == 1
  {
    hide TryBytes, HandlerArea;
    OneTry(0, 1);
    OneTry(1, 3);
    AreaOfThree(2, 1, 0, 3);
    AreaOfTwo(1, 0, 3);
  }

  lemma {:induction false} BothPass()
    ensures TriesPass(4, [Try(0, 0, 1)], FIRST_HANDLERS) && TriesPass(4, [Try(0, 1, 3)], LAST_HANDLERS)
  {
    assert FIRST_HANDLERS[0] in FIRST_HANDLERS && LAST_HANDLERS[1] in LAST_HANDLERS;
  }

  /** Three methods that pass, two of them with a try item, of which the last gets the first one's. */
  lemma {:induction false} TryBlockIsLost() returns (b: CompactItem, m: CompactItem, c: CompactItem)
    ensures SizesPass(b) && SizesPass(m) && SizesPass(c) && b.tries == c.tries == 1 && m.tries == 0
    ensures TriesPass(|b.insns|, [Try(0, 0, 1)], FIRST_HANDLERS)
        && b.tail == TryBytes([Try(0, 0, 1)]) + HandlerArea(FIRST_HANDLERS)
    ensures TriesPass(|c.insns|, [Try(0, 1, 3)], LAST_HANDLERS)
        && c.tail == TryBytes([Try(0, 1, 3)]) + HandlerArea(LAST_HANDLERS)
    ensures var ops := [WriteCode(b), WriteCode(m), WriteCode(c)];
            && OffsetAt(WHILE_DEDUPING, ops, 2) == OffsetAt(WHILE_DEDUPING, ops, 0)
            && !FoundAt(After(WHILE_DEDUPING, ops).w, OffsetAt(WHILE_DEDUPING, ops, 2), c)
  {
    hide TryBytes, HandlerArea, TriesPass, After, OffsetAt, FoundAt, PayloadFrom, ReadsWhole;
    var insns: seq<uint16> := [0x0000, 0x0000, 0x0000, 0x000e];
    b := Code(1, 1, 0, 1, insns, TryBytes([Try(0, 0, 1)]) + HandlerArea(FIRST_HANDLERS));
    c := Code(1, 1, 0, 1, insns, TryBytes([Try(0, 1, 3)]) + HandlerArea(LAST_HANDLERS));
    m := Code(0, 0, 0, 0, [0x000e], []);
    TailsOverlap();
    BothPass();
    assert SameButTails(b, c) && HasHandlers(c);
    NoPayload(insns, 0);
    TryItemsAreLost(WHILE_DEDUPING, b, m, c);
  }
}
