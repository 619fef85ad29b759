/**
 The data section that several compact DEX files share, as the bytes and offsets that a list of writes
 leads to. Strings and debug infos that repeat earlier bytes refer to the earlier copy; code items
 likewise, within one file.
 */
module SharedRuns {
  import opened Leb128
  import opened Streams
  import opened CodeItems
  import opened CompactCode

  const DATA_ALIGNMENT := 8
  const CODE_ALIGNMENT := 2

  type AlignTo = n: nat | IsAlignment(n) witness 1

  datatype Op =
    | Share(bytes: seq<byte>)
    | Plain(alignment: AlignTo, bytes: seq<byte>)
    | WriteCode(code: CompactItem)
    | EndFile

  /** Whether code is deduplicated, and which instructions are found to have a payload. */
  datatype Setup = Setup(dedupeCode: bool, payload: seq<uint16> -> bool)

  /** A range of the section, known by its bytes, and the item offset that stands for it. */
  datatype Entry = Entry(start: nat, length: nat, offset: nat)

  datatype Section = Section(w: seq<byte>, codes: seq<Entry>, datas: seq<Entry>)

  predicate Matches(w: seq<byte>, e: Entry, x: seq<byte>) {
    e.length == |x| && e.start + e.length <= |w| && w[e.start..e.start + e.length] == x
  }

  /** The first remembered range that holds these bytes. */
  function Lookup(w: seq<byte>, entries: seq<Entry>, x: seq<byte>): (r: Option<Entry>)
    ensures r.Some? ==> r.value in entries && Matches(w, r.value, x)
    ensures r.None? ==> forall e :: e in entries ==> !Matches(w, e, x)
  {
    if entries == [] then None
    else if Matches(w, entries[0], x) then Some(entries[0])
    else Lookup(w, entries[1..], x)
  }

  function Padded(w: seq<byte>, n: AlignTo): (r: seq<byte>)
    ensures w <= r && Aligned(|r|, n)
  {
    w + Zeros(RoundUp(|w|, n) - |w|)
  }

  function NextShare(s: Section, bytes: seq<byte>): (Section, nat) {
    match Lookup(s.w, s.datas, bytes)
    case Some(e) => (s, e.offset)
    case None => (s.(w := s.w + bytes, datas := s.datas + [Entry(|s.w|, |bytes|, |s.w|)]), |s.w|)
  }

  function NextPlain(s: Section, n: AlignTo, bytes: seq<byte>): (Section, nat) {
    (s.(w := Padded(s.w, n) + bytes), |Padded(s.w, n)|)
  }

  /** The remembered range that stands for the code item, if its item is aligned. */
  function Twin(u: Setup, s: Section, c: CompactItem): Option<Entry> {
    if u.dedupeCode then Lookup(s.w, s.codes, Range(c, u.payload(c.insns), |s.w|)) else None
  }

  function NextCode(u: Setup, s: Section, c: CompactItem): (Section, nat) {
    var x, at := Range(c, u.payload(c.insns), |s.w|), |s.w| + Distance(c, u.payload(c.insns), |s.w|);
    match Twin(u, s, c)
    case Some(e) => if Aligned(e.offset, CODE_ALIGNMENT) then (s, e.offset) else (s.(w := s.w + x), at)
    case None => (s.(w := s.w + x, codes := if u.dedupeCode then s.codes + [Entry(|s.w|, |x|, at)] else s.codes), at)
  }

  function Next(u: Setup, s: Section, op: Op): (Section, nat) {
    match op
    case Share(bytes) => NextShare(s, bytes)
    case Plain(n, bytes) => NextPlain(s, n, bytes)
    case WriteCode(c) => NextCode(u, s, c)
    case EndFile => (s.(w := Padded(s.w, DATA_ALIGNMENT), codes := []), 0)
  }

  const EMPTY: Section := Section(Zeros(DATA_ALIGNMENT), [], [])

  function After(u: Setup, ops: seq<Op>): Section {
    if ops == [] then EMPTY else Next(u, After(u, ops[..|ops| - 1]), ops[|ops| - 1]).0
  }

  /** Where item i went. */
  function OffsetAt(u: Setup, ops: seq<Op>, i: nat): nat
    requires i < |ops|
  {
    Next(u, After(u, ops[..i]), ops[i]).1
  }

  // ---- what always holds

  ghost predicate Inside(w: seq<byte>, entries: seq<Entry>) {
    forall e :: e in entries ==> DATA_ALIGNMENT <= e.start <= e.offset <= e.start + e.length <= |w|
  }

  ghost predicate Even(codes: seq<Entry>) {
    forall e :: e in codes ==> e.offset % 2 == 0
  }

  ghost predicate Whole(datas: seq<Entry>) {
    forall e :: e in datas ==> e.offset == e.start
  }

  /** No two remembered ranges hold the same bytes. */
  ghost predicate Distinct(w: seq<byte>, entries: seq<Entry>) {
    forall d, e | d in entries && e in entries ::
      d.start + d.length <= |w| && Matches(w, e, w[d.start..d.start + d.length]) ==> d == e
  }

  ghost predicate Sane(s: Section) {
    && |s.w| >= DATA_ALIGNMENT && Inside(s.w, s.codes) && Inside(s.w, s.datas) && Even(s.codes) && Whole(s.datas)
    && Distinct(s.w, s.datas)
  }

  lemma {:induction false} MatchesMore(w: seq<byte>, more: seq<byte>, e: Entry, x: seq<byte>)
    requires w <= more && e.start + e.length <= |w|
    ensures Matches(more, e, x) <==> Matches(w, e, x)
  {
    assert more[e.start..e.start + e.length] == w[e.start..e.start + e.length];
  }

  lemma {:induction false} LookupMore(w: seq<byte>, data: seq<byte>, entries: seq<Entry>, x: seq<byte>)
    requires w <= data && Inside(w, entries)
    ensures Lookup(data, entries, x) == Lookup(w, entries, x)
  {
    hide Matches;
    if entries != [] {
      MatchesMore(w, data, entries[0], x);
      LookupMore(w, data, entries[1..], x);
    }
  }

  lemma {:induction false} DistinctMore(w: seq<byte>, more: seq<byte>, entries: seq<Entry>)
    requires Inside(w, entries) && Distinct(w, entries) && w <= more
    ensures Inside(more, entries) && Distinct(more, entries)
  {
    hide Matches;
    forall d, e | d in entries && e in entries && Matches(more, e, more[d.start..d.start + d.length])
      ensures d == e
    {
      assert more[d.start..d.start + d.length] == w[d.start..d.start + d.length];
      MatchesMore(w, more, e, w[d.start..d.start + d.length]);
    }
  }

  lemma {:induction false} DistinctAppend(w: seq<byte>, entries: seq<Entry>, bytes: seq<byte>)
    requires Inside(w, entries) && Distinct(w, entries) && Lookup(w, entries, bytes).None?
    ensures Distinct(w + bytes, entries + [Entry(|w|, |bytes|, |w|)])
  {
    var more, n := w + bytes, Entry(|w|, |bytes|, |w|);
    assert more[n.start..n.start + n.length] == bytes;
    DistinctMore(w, more, entries);
    forall e | e in entries
      ensures !Matches(more, e, bytes) && more[e.start..e.start + e.length] != bytes
    {
      MatchesMore(w, more, e, bytes);
    }
  }

  lemma {:induction false} NextGrows(u: Setup, s: Section, op: Op)
    ensures s.w <= Next(u, s, op).0.w
  {
    hide Range, Distance, Lookup;
  }

  lemma {:induction false} ShareKeeps(s: Section, bytes: seq<byte>)
    requires Sane(s)
    ensures Sane(NextShare(s, bytes).0)
  {
    hide Lookup, Distinct;
    if Lookup(s.w, s.datas, bytes).None? {
      DistinctAppend(s.w, s.datas, bytes);
    }
  }

  lemma {:induction false} CodeKeeps(u: Setup, s: Section, c: CompactItem)
    requires Sane(s)
    ensures Sane(NextCode(u, s, c).0)
  {
    hide Range, Distance, Lookup, Distinct;
    DistinctMore(s.w, NextCode(u, s, c).0.w, s.datas);
  }

  lemma {:induction false} NextKeeps(u: Setup, s: Section, op: Op)
    requires Sane(s)
    ensures Sane(Next(u, s, op).0)
  {
    hide Distinct, NextShare, NextCode;
    match op
    case Share(bytes) => ShareKeeps(s, bytes);
    case WriteCode(c) => CodeKeeps(u, s, c);
    case Plain(n, bytes) => DistinctMore(s.w, NextPlain(s, n, bytes).0.w, s.datas);
    case EndFile => DistinctMore(s.w, Padded(s.w, DATA_ALIGNMENT), s.datas);
  }

  lemma {:induction false} AfterIsSane(u: Setup, ops: seq<Op>)
    ensures Sane(After(u, ops))
  {
    hide Sane, Next;
    if ops == [] {
      NothingIsSane();
    } else {
      AfterIsSane(u, ops[..|ops| - 1]);
      NextKeeps(u, After(u, ops[..|ops| - 1]), ops[|ops| - 1]);
    }
  }

  lemma {:induction false} NothingIsSane()
    ensures Sane(EMPTY)
  {
  }

  /** One more write. */
  lemma {:induction false} AfterStep(u: Setup, ops: seq<Op>, i: nat)
    requires i < |ops|
    ensures After(u, ops[..i + 1]) == Next(u, After(u, ops[..i]), ops[i]).0
  {
    hide Next;
    assert ops[..i + 1][..i] == ops[..i];
  }

  /** Nothing that has been written is changed by later writes. */
  lemma {:induction false} WrittenStays(u: Setup, ops: seq<Op>, i: nat, j: nat)
    requires i <= j <= |ops|
    ensures After(u, ops[..i]).w <= After(u, ops[..j]).w
    decreases j
  {
    hide Next, After;
    if i < j {
      WrittenStays(u, ops, i, j - 1);
      AfterStep(u, ops, j - 1);
      NextGrows(u, After(u, ops[..j - 1]), ops[j - 1]);
    }
  }

  lemma {:induction false} ReadsStay(u: Setup, ops: seq<Op>, i: nat, at: nat, bytes: seq<byte>)
    requires i <= |ops| && ReadsAs(After(u, ops[..i]).w, at, bytes)
    ensures ReadsAs(After(u, ops).w, at, bytes)
  {
    hide After;
    WrittenStays(u, ops, i, |ops|);
    assert ops[..|ops|] == ops;
    var w, more := After(u, ops[..i]).w, After(u, ops).w;
    assert more[at..at + |bytes|] == w[at..at + |bytes|];
  }

  // ---- items other than code

  /** A string or debug info reads back at the offset it got, whatever is written before and after. */
  lemma {:induction false} SharedReads(u: Setup, ops: seq<Op>, i: nat)
    requires i < |ops| && ops[i].Share?
    ensures DATA_ALIGNMENT <= OffsetAt(u, ops, i) && ReadsAs(After(u, ops).w, OffsetAt(u, ops, i), ops[i].bytes)
  {
    hide After, Lookup, Distinct;
    var s := After(u, ops[..i]);
    AfterIsSane(u, ops[..i]);
    AfterStep(u, ops, i);
    ReadsStay(u, ops, i + 1, OffsetAt(u, ops, i), ops[i].bytes);
  }

  lemma {:induction false} PlainReads(u: Setup, ops: seq<Op>, i: nat)
    requires i < |ops| && ops[i].Plain?
    ensures Aligned(OffsetAt(u, ops, i), ops[i].alignment)
        && ReadsAs(After(u, ops).w, OffsetAt(u, ops, i), ops[i].bytes)
  {
    hide After, Padded;
    AfterStep(u, ops, i);
    var front := Padded(After(u, ops[..i]).w, ops[i].alignment);
    SliceOfBack(front, ops[i].bytes);
    ReadsStay(u, ops, i + 1, |front|, ops[i].bytes);
  }

  /** The range of a shared item is remembered from then on. */
  lemma {:induction false} SharedIsRemembered(u: Setup, ops: seq<Op>, i: nat, j: nat)
    requires i < j <= |ops| && ops[i].Share?
    ensures var e := Entry(OffsetAt(u, ops, i), |ops[i].bytes|, OffsetAt(u, ops, i));
            e in After(u, ops[..j]).datas && Matches(After(u, ops[..j]).w, e, ops[i].bytes)
    decreases j
  {
    hide After, Next, Sane, Matches;
    var e := Entry(OffsetAt(u, ops, i), |ops[i].bytes|, OffsetAt(u, ops, i));
    var s := After(u, ops[..j - 1]);
    AfterIsSane(u, ops[..j - 1]);
    AfterStep(u, ops, j - 1);
    if i < j - 1 {
      SharedIsRemembered(u, ops, i, j - 1);
      StaysRemembered(u, s, ops[j - 1], e, ops[i].bytes);
    } else {
      ShareIsRemembered(u, s, ops[i].bytes);
    }
  }

  lemma {:induction false} StaysRemembered(u: Setup, s: Section, op: Op, e: Entry, x: seq<byte>)
    requires Sane(s) && e in s.datas && Matches(s.w, e, x)
    ensures var t := Next(u, s, op).0; e in t.datas && Matches(t.w, e, x)
  {
    hide Lookup, Distinct, Range, Distance, Padded;
    NextGrows(u, s, op);
    MatchesMore(s.w, Next(u, s, op).0.w, e, x);
  }

  lemma {:induction false} ShareIsRemembered(u: Setup, s: Section, bytes: seq<byte>)
    requires Sane(s)
    ensures var (t, at) := Next(u, s, Share(bytes));
            var e := Entry(at, |bytes|, at);
            e in t.datas && Matches(t.w, e, bytes)
  {
    hide Lookup, Distinct, Range, Distance;
  }

  /** Two shared items of one length have the same bytes exactly when they share one copy. */
  lemma {:induction false} EqualMeansShared(u: Setup, ops: seq<Op>, i: nat, j: nat)
    requires i < |ops| && j < |ops| && ops[i].Share? && ops[j].Share? && |ops[i].bytes| == |ops[j].bytes|
    ensures ops[i].bytes == ops[j].bytes <==> OffsetAt(u, ops, i) == OffsetAt(u, ops, j)
  {
    hide OffsetAt, After;
    SharedReads(u, ops, i);
    SharedReads(u, ops, j);
    SharedIsRemembered(u, ops, i, |ops|);
    SharedIsRemembered(u, ops, j, |ops|);
    AfterIsSane(u, ops);
    assert ops[..|ops|] == ops;
  }

  // ---- code

  lemma {:induction false} CodesAfter(u: Setup, s: Section, op: Op, e: Entry)
    requires e in Next(u, s, op).0.codes && e !in s.codes
    ensures op.WriteCode?
    ensures var x, d := Range(op.code, u.payload(op.code.insns), |s.w|),
        Distance(op.code, u.payload(op.code.insns), |s.w|);
            Next(u, s, op).0.w == s.w + x && e == Entry(|s.w|, |x|, |s.w| + d)
  {
    hide Range, Distance, Lookup;
  }

  /** At the end of a file its code is forgotten. */
  lemma {:induction false} FileGoesOn(u: Setup, s: Section, op: Op, e: Entry)
    requires e in Next(u, s, op).0.codes
    ensures !op.EndFile?
  {
    hide Range, Distance, Lookup;
  }

  /** A remembered code range comes from an earlier code item of the same file. */
  lemma {:induction false} CodeOrigin(u: Setup, ops: seq<Op>, e: Entry) returns (j: nat)
    requires e in After(u, ops).codes
    ensures j < |ops| && ops[j].WriteCode? && forall k :: j < k < |ops| ==> !ops[k].EndFile?
    ensures var s, c := After(u, ops[..j]), ops[j].code;
            var p := u.payload(c.insns);
            && e.start == |s.w| && e.offset == e.start + Distance(c, p, e.start)
            && Matches(After(u, ops).w, e, Range(c, p, e.start))
  {
    hide Range, Distance, Lookup, Matches, Next, Distinct;
    var n := |ops| - 1;
    var s := After(u, ops[..n]);
    if e in s.codes {
      j := CodeOrigin(u, ops[..n], e);
      FileGoesOn(u, s, ops[n], e);
      assert ops[..n][..j] == ops[..j];
      AfterIsSane(u, ops[..n]);
      NextGrows(u, s, ops[n]);
      var c := ops[j].code;
      MatchesMore(s.w, After(u, ops).w, e, Range(c, u.payload(c.insns), e.start));
    } else {
      j := n;
      CodesAfter(u, s, ops[n], e);
      NewRange(s.w, Range(ops[n].code, u.payload(ops[n].code.insns), |s.w|), e.offset);
    }
  }

  lemma {:induction false} NewRange(w: seq<byte>, x: seq<byte>, offset: nat)
    ensures Matches(w + x, Entry(|w|, |x|, offset), x)
  {
    SliceOfBack(w, x);
  }

  /** The bytes of code item i as it is laid down. */
  function CodeAt(u: Setup, ops: seq<Op>, i: nat): seq<byte>
    requires i < |ops| && ops[i].WriteCode?
  {
    var c, pos := ops[i].code, |After(u, ops[..i]).w|;
    Item(c, pos + Distance(c, u.payload(c.insns), pos))
  }

  /** Item and preheader read back. */
  ghost predicate ReadsWhole(u: Setup, ops: seq<Op>, i: nat)
    requires i < |ops| && ops[i].WriteCode?
  {
    var w, at, p := After(u, ops).w, OffsetAt(u, ops, i), Preheader(ops[i].code);
    ReadsAs(w, at, CodeAt(u, ops, i)) && |p| <= at && ReadsAs(w, at - |p|, p)
  }

  /** Where a reader looks for try items. */
  function TailPlace(at: nat, c: CompactItem): nat {
    RoundUp(at + 4 + 2 * |c.insns|, 4)
  }

  /** A reader at this offset finds the method: its sizes, its instructions, and its try items. */
  ghost predicate FoundAt(w: seq<byte>, at: nat, c: CompactItem) {
    ReadMethod(w, at) == Some(MethodOf(c)) && (c.tries != 0 ==> ReadsAs(w, TailPlace(at, c), c.tail))
  }

  /** Where code item i is laid down before it is compared. */
  function LaidAt(u: Setup, ops: seq<Op>, i: nat): nat
    requires i < |ops| && ops[i].WriteCode?
  {
    var c, pos := ops[i].code, |After(u, ops[..i]).w|;
    pos + Distance(c, u.payload(c.insns), pos)
  }

  /** The twin agrees, and its try items are aligned alike. */
  predicate TwinFits(u: Setup, ops: seq<Op>, i: nat)
    requires i < |ops| && ops[i].WriteCode?
  {
    TwinAgrees(u, ops, i) && (ops[i].code.tries == 0 || OffsetAt(u, ops, i) % 4 == LaidAt(u, ops, i) % 4)
  }

  /** With try items there are handlers, and their count is not zero. */
  ghost predicate HasHandlers(c: CompactItem) {
    c.tries == 0 || exists k :: 0 <= k < |c.tail| && c.tail[k] != 0
  }

  /** No equal range stands for code item i, or one with its item at the same distance. */
  predicate TwinAgrees(u: Setup, ops: seq<Op>, i: nat)
    requires i < |ops| && ops[i].WriteCode?
  {
    var s, c := After(u, ops[..i]), ops[i].code;
    var twin := Twin(u, s, c);
    twin.Some? ==> twin.value.offset == twin.value.start + Distance(c, u.payload(c.insns), |s.w|)
  }

  /** The offset of a code item, with or without a twin. */
  lemma {:induction false} CodeOffset(u: Setup, ops: seq<Op>, i: nat)
    requires i < |ops| && ops[i].WriteCode?
    ensures var s, c := After(u, ops[..i]), ops[i].code;
            var twin, x, d := Twin(u, s, c), Range(c, u.payload(c.insns), |s.w|),
                Distance(c, u.payload(c.insns), |s.w|);
            && (twin.Some? ==>
                  && OffsetAt(u, ops, i) == twin.value.offset && Matches(s.w, twin.value, x) && twin.value in s.codes
                  && twin.value.start <= twin.value.offset <= twin.value.start + |x|)
            && (twin.None? ==> OffsetAt(u, ops, i) == |s.w| + d && After(u, ops[..i + 1]).w == s.w + x)
  {
    hide After, Range, Distance, Lookup, Distinct;
    AfterIsSane(u, ops[..i]);
    AfterStep(u, ops, i);
  }

  /** Where the range of code item i can be read: its own, or its twin's. */
  lemma {:induction false} RangeReads(u: Setup, ops: seq<Op>, i: nat) returns (start: nat)
    requires i < |ops| && ops[i].WriteCode?
    ensures var s, c := After(u, ops[..i]), ops[i].code;
            && ReadsAs(After(u, ops).w, start, Range(c, u.payload(c.insns), |s.w|))
            && (TwinAgrees(u, ops, i) <==> OffsetAt(u, ops, i) == start + Distance(c, u.payload(c.insns), |s.w|))
  {
    hide After, Range, Distance, Lookup, OffsetAt;
    var s, c := After(u, ops[..i]), ops[i].code;
    var twin, x := Twin(u, s, c), Range(c, u.payload(c.insns), |s.w|);
    CodeOffset(u, ops, i);
    if twin.Some? {
      start := twin.value.start;
      ReadsStay(u, ops, i, start, x);
    } else {
      start := |s.w|;
      SliceOfBack(s.w, x);
      ReadsStay(u, ops, i + 1, start, x);
    }
  }

  lemma {:induction false} PartReads(w: seq<byte>, start: nat, x: seq<byte>, lo: nat, hi: nat)
    requires ReadsAs(w, start, x) && lo <= hi <= |x|
    ensures ReadsAs(w, start + lo, x[lo..hi])
  {
    SubSlice(w, start, start + |x|, lo, hi);
  }

  /** A range holds item and preheader, and a method is read there. */
  lemma {:induction false} RangeHolds(w: seq<byte>, start: nat, c: CompactItem, payload: bool, pos: nat)
    requires ReadsAs(w, start, Range(c, payload, pos))
    ensures var at := start + Distance(c, payload, pos);
            && ReadsAs(w, at, Item(c, pos + Distance(c, payload, pos)))
            && |Preheader(c)| <= at && ReadsAs(w, at - |Preheader(c)|, Preheader(c))
  {
    hide Range, Gap, Item, Preheader;
    var x, d, g := Range(c, payload, pos), Distance(c, payload, pos), Gap(c, payload, pos);
    ItemInRange(c, payload, pos);
    PartReads(w, start, x, d, |x|);
    assert x[d..|x|] == x[d..];
    PartReads(w, start, x, g, d);
  }

  /** An item starts with header and instructions. */
  lemma {:induction false} BodyReads(w: seq<byte>, at: nat, c: CompactItem, laid: nat)
    requires ReadsAs(w, at, Item(c, laid))
    ensures ReadsAs(w, at, Body(c)) && ReadsAs(w, at + 4 + 2 * |c.insns|, Post(c, laid + 4 + 2 * |c.insns|))
  {
    hide Body, Post;
    var i, b := Item(c, laid), Body(c);
    assert i[0..|b|] == b && i[|b|..|i|] == Post(c, laid + 4 + 2 * |c.insns|);
    PartReads(w, at, i, 0, |b|);
    PartReads(w, at, i, |b|, |i|);
  }

  /** At the same distance the item reads back, its preheader in front of it, and a payload is aligned. */
  lemma {:induction false} CodeIsWhole(u: Setup, ops: seq<Op>, i: nat)
    requires i < |ops| && ops[i].WriteCode? && TwinAgrees(u, ops, i)
    ensures ReadsWhole(u, ops, i)
    ensures u.payload(ops[i].code.insns) ==> OffsetAt(u, ops, i) % 4 == 0
  {
    hide After, Range, Gap, OffsetAt, TwinAgrees, Item, Preheader, Distance;
    var s, c := After(u, ops[..i]), ops[i].code;
    var start := RangeReads(u, ops, i);
    RangeHolds(After(u, ops).w, start, c, u.payload(c.insns), |s.w|);
    PayloadIsAligned(u, ops, i);
  }

  /** A twin of the same distance has the same instructions. */
  lemma {:induction false} TwinIsSame(u: Setup, ops: seq<Op>, i: nat, e: Entry) returns (b: CompactItem)
    requires i < |ops| && ops[i].WriteCode? && TwinAgrees(u, ops, i)
        && Twin(u, After(u, ops[..i]), ops[i].code) == Some(e)
    ensures e.offset == e.start + Distance(b, u.payload(b.insns), e.start) && b.insns == ops[i].code.insns
  {
    hide After, Range, Gap, Lookup, OffsetAt, Distance, Preheader;
    var s, c := After(u, ops[..i]), ops[i].code;
    var p := u.payload(c.insns);
    CodeOffset(u, ops, i);
    var j := CodeOrigin(u, ops[..i], e);
    b := ops[j].code;
    assert Range(b, u.payload(b.insns), e.start) == Range(c, p, |s.w|);
    SameDistanceSameCode(b, u.payload(b.insns), e.start, c, p, |s.w|);
  }

  lemma {:induction false} PayloadIsAligned(u: Setup, ops: seq<Op>, i: nat)
    requires i < |ops| && ops[i].WriteCode? && TwinAgrees(u, ops, i)
    ensures u.payload(ops[i].code.insns) ==> OffsetAt(u, ops, i) % 4 == 0
  {
    hide After, Range, Gap, OffsetAt, Distance, Twin, Matches, TwinAgrees;
    var twin := Twin(u, After(u, ops[..i]), ops[i].code);
    CodeOffset(u, ops, i);
    if twin.Some? {
      var b := TwinIsSame(u, ops, i, twin.value);
    }
  }

  // ---- what a reader finds

  /** At its twin's offset a reader finds the twin. */
  lemma {:induction false} TwinIsFound(u: Setup, ops: seq<Op>, i: nat, e: Entry) returns (b: CompactItem)
    requires i < |ops| && ops[i].WriteCode? && Twin(u, After(u, ops[..i]), ops[i].code) == Some(e)
    ensures var s, c, q := After(u, ops[..i]), ops[i].code, u.payload(b.insns);
            && Range(b, q, e.start) == Range(c, u.payload(c.insns), |s.w|)
                && e.offset == e.start + Distance(b, q, e.start)
    ensures ReadMethod(After(u, ops).w, e.offset) == Some(MethodOf(b))
        && ReadsAs(After(u, ops).w, e.offset, Item(b, e.offset))
  {
    hide After, Range, Lookup, OffsetAt, Distance, Preheader, ReadMethod, MethodOf, Item, Body;
    var s, c, w := After(u, ops[..i]), ops[i].code, After(u, ops).w;
    CodeOffset(u, ops, i);
    var j := CodeOrigin(u, ops[..i], e);
    b := ops[j].code;
    var q := u.payload(b.insns);
    assert Range(b, q, e.start) == Range(c, u.payload(c.insns), |s.w|);
    ReadsStay(u, ops, i, e.start, Range(b, q, e.start));
    RangeHolds(w, e.start, b, q, e.start);
    BodyReads(w, e.offset, b, e.offset);
    MethodIsRead(b, w, e.offset);
  }

  /** A reader finds the method's own sizes and instructions exactly when no range stands for it that has
      its item at another distance. */
  lemma {:induction false} MethodReadsIff(u: Setup, ops: seq<Op>, i: nat)
    requires i < |ops| && ops[i].WriteCode?
    ensures ReadMethod(After(u, ops).w, OffsetAt(u, ops, i)) == Some(MethodOf(ops[i].code)) <==> TwinAgrees(u, ops, i)
  {
    hide After, Range, OffsetAt, Distance, Preheader, Header, ReadMethod, Item, Body, Lookup;
    var s, c, w := After(u, ops[..i]), ops[i].code, After(u, ops).w;
    if TwinAgrees(u, ops, i) {
      hide TwinAgrees;
      CodeIsWhole(u, ops, i);
      BodyReads(w, OffsetAt(u, ops, i), c, LaidAt(u, ops, i));
      MethodIsRead(c, w, OffsetAt(u, ops, i));
    } else {
      var e := Twin(u, s, c).value;
      CodeOffset(u, ops, i);
      var b := TwinIsFound(u, ops, i, e);
      if MethodOf(b) == MethodOf(c) {
        SizesDetermine(b, c);
        SameCodeSameDistance(b, u.payload(b.insns), e.start, c, u.payload(c.insns), |s.w|);
      }
    }
  }

  /** Reading the item at its twin's offset compares the beginnings of both items. */
  lemma {:induction false} ReadAtTwin(w: seq<byte>, e: Entry, x: seq<byte>, item: seq<byte>)
    requires Matches(w, e, x) && e.start <= e.offset <= e.start + e.length && ReadsAs(w, e.offset, item)
    ensures x[e.offset - e.start..] <= item || item <= x[e.offset - e.start..]
  {
    var d := e.offset - e.start;
    SubSlice(w, e.start, e.start + e.length, d, |x|);
    var own := x[d..];
    assert own == x[d..|x|] == w[e.offset..e.start + e.length];
    if |item| <= |own| {
      assert own[..|item|] == w[e.offset..e.offset + |item|];
    } else {
      assert item[..|own|] == w[e.offset..e.offset + |own|];
    }
  }

  /** Unless there are both a preheader and try items, already the item's bytes give a wrong twin away. */
  lemma {:induction false} ItemDecides(u: Setup, ops: seq<Op>, i: nat)
    requires i < |ops| && ops[i].WriteCode? && Settled(ops[i].code)
    requires ReadsAs(After(u, ops).w, OffsetAt(u, ops, i), CodeAt(u, ops, i))
    ensures TwinAgrees(u, ops, i)
  {
    hide After, Range, Gap, Lookup, OffsetAt, Distance, Item, Settled, Backwards, Preheader, Header, ReadMethod,
        MethodOf;
    var s, c := After(u, ops[..i]), ops[i].code;
    if !TwinAgrees(u, ops, i) {
      var p, e := u.payload(c.insns), Twin(u, s, c).value;
      var x, d := Range(c, p, |s.w|), Distance(c, p, |s.w|);
      CodeOffset(u, ops, i);
      var b := TwinIsFound(u, ops, i, e);
      ItemInRange(c, p, |s.w|);
      ReadsStay(u, ops, i, e.start, x);
      ReadAtTwin(After(u, ops).w, e, x, x[d..]);
      if d < e.offset - e.start {
        DistanceIsSeen(c, p, |s.w|, b, u.payload(b.insns), e.start);
      } else {
        DistanceIsSeen(b, u.payload(b.insns), e.start, c, p, |s.w|);
      }
    }
  }

  // ---- try items

  lemma {:induction false} EvenResidue(m: nat)
    requires m % 2 == 0
    ensures m % 4 == 0 || m % 4 == 2
  {
    assert m == 2 * (2 * (m / 4)) + m % 4;
  }

  lemma {:induction false} EvenWord(m: nat)
    requires m % 2 == 0
    ensures RoundUp(m, 4) == m + m % 4 && (m % 4 == 0 || m % 4 == 2)
  {
    hide UpToFour;
    EvenResidue(m);
    NextWord(m, UpToFour(m));
  }

  lemma {:induction false} EvenPlace(at: nat, n: nat)
    requires at % 2 == 0
    ensures var m := at + 4 + 2 * n;
            RoundUp(m, 4) == m + m % 4 && (m % 4 == 0 || m % 4 == 2)
  {
    hide RoundUp;
    EvenSum(at, n + 2);
    assert at + 2 * (n + 2) == at + 4 + 2 * n;
    EvenWord(at + 4 + 2 * n);
  }

  lemma {:induction false} NextWord(a: nat, b: nat)
    requires a % 4 == 0 || a % 4 == 2
    requires b % 4 == 0 && a <= b < a + 4
    ensures a % 2 == 0 && b - a == a % 4
  {
    var k := b / 4 - a / 4;
    assert b - a == 4 * k - a % 4 && a == 2 * (2 * (a / 4)) + a % 4;
  }

  lemma {:induction false} SameResidue(a: nat, b: nat, k: nat)
    requires a % 4 == b % 4
    ensures (a + k) % 4 == (b + k) % 4
  {
  }

  lemma {:induction false} FullTurn(a: nat, k: nat)
    ensures (a + 4 * k) % 4 == a % 4
  {
  }

  /** Two places as far behind two others are aligned alike if and only if those are. */
  lemma {:induction false} PadsAgree(at: nat, laid: nat, n: nat)
    ensures (at + n) % 4 == (laid + n) % 4 <==> at % 4 == laid % 4
  {
    if at % 4 == laid % 4 {
      SameResidue(at, laid, n);
    }
    if (at + n) % 4 == (laid + n) % 4 {
      SameResidue(at + n, laid + n, 3 * n);
      FullTurn(at, n);
      FullTurn(laid, n);
      assert at + n + 3 * n == at + 4 * n && laid + n + 3 * n == laid + 4 * n;
    }
  }

  /** The same bytes two bytes apart, behind zeros, are zeros. */
  lemma {:induction false} TailIsSeen(w: seq<byte>, m: nat, tail: seq<byte>)
    requires ReadsAs(w, m, tail) && ReadsAs(w, m + 2, tail) && m + 2 <= |w| && w[m..m + 2] == [0, 0]
    ensures forall k :: 0 <= k < |tail| ==> tail[k] == 0
  {
    var hi := m + 2 + |tail|;
    forall j | m <= j < m + 2
      ensures w[j] == 0
    {
      assert w[m..m + 2][j - m] == 0;
    }
    forall j | m + 2 <= j < hi
      ensures w[j] == w[j - 2]
    {
      assert w[m + 2..hi][j - m - 2] == tail[j - m - 2] == w[m..m + |tail|][j - m - 2];
    }
    ZerosGoOn(w, m, 2, hi);
    forall k | 0 <= k < |tail|
      ensures tail[k] == 0
    {
      assert tail[k] == w[m..m + |tail|][k] == w[m + k];
    }
  }

  /** What follows the instructions: the padding of where the item was laid down, and the tail. */
  lemma {:induction false} PostReads(w: seq<byte>, m: nat, c: CompactItem, end: nat)
    requires c.tries != 0 && ReadsAs(w, m, Post(c, end)) && RoundUp(end, 4) == end + end % 4
        && (end % 4 == 0 || end % 4 == 2)
    ensures end % 4 == 2 ==> m + 2 <= |w| && w[m..m + 2] == [0, 0]
    ensures ReadsAs(w, m + end % 4, c.tail)
  {
    hide RoundUp;
    var p, z := Post(c, end), end % 4;
    assert p[..z] == Zeros(z) && p[z..|p|] == c.tail;
    PartReads(w, m, p, z, |p|);
    if z == 2 {
      PartReads(w, m, p, 0, 2);
      assert p[0..2] == [0, 0];
    }
  }

  /** Item b is in place at `at`, and so are the bytes of item c, laid down elsewhere. */
  lemma {:induction false} TailReadsIff(w: seq<byte>, at: nat, b: CompactItem, c: CompactItem, laid: nat)
    requires at % 2 == 0 && laid % 2 == 0 && b.tries != 0 && c.tries != 0 && |b.insns| == |c.insns| && HasHandlers(c)
    requires ReadsAs(w, at, Item(b, at)) && ReadsAs(w, at, Item(c, laid))
    ensures ReadsAs(w, TailPlace(at, c), c.tail) <==> at % 4 == laid % 4
  {
    hide Item, Post, Body, RoundUp, ReadsAs, HasHandlers;
    var m, end := at + 4 + 2 * |c.insns|, laid + 4 + 2 * |c.insns|;
    EvenPlace(at, |c.insns|);
    EvenPlace(laid, |c.insns|);
    PadsAgree(at, laid, 4 + 2 * |c.insns|);
    assert at + (4 + 2 * |c.insns|) == m && laid + (4 + 2 * |c.insns|) == end;
    BodyReads(w, at, b, at);
    BodyReads(w, at, c, laid);
    PostsRead(w, m, b, c, end);
  }

  lemma {:induction false} PostsRead(w: seq<byte>, m: nat, b: CompactItem, c: CompactItem, end: nat)
    requires b.tries != 0 && c.tries != 0 && HasHandlers(c) && ReadsAs(w, m, Post(b, m)) && ReadsAs(w, m, Post(c, end))
    requires RoundUp(m, 4) == m + m % 4 && (m % 4 == 0 || m % 4 == 2)
    requires RoundUp(end, 4) == end + end % 4 && (end % 4 == 0 || end % 4 == 2)
    ensures ReadsAs(w, m + m % 4, c.tail) <==> m % 4 == end % 4
  {
    hide Post, RoundUp, ReadsAs;
    PostReads(w, m, b, m);
    PostReads(w, m, c, end);
    if m % 4 != end % 4 && ReadsAs(w, m + m % 4, c.tail) {
      TailIsSeen(w, m, c.tail);
    }
  }

  lemma {:induction false} OffsetIsEven(u: Setup, ops: seq<Op>, i: nat)
    requires i < |ops| && ops[i].WriteCode?
    ensures OffsetAt(u, ops, i) % 2 == 0 && LaidAt(u, ops, i) % 2 == 0
  {
    hide After, Range, Distance, Lookup, Distinct, OffsetAt;
    AfterIsSane(u, ops[..i]);
    CodeOffset(u, ops, i);
  }

  /** Where item and preheader read back, the try items do if the alignment is the same. */
  lemma {:induction false} TailDecides(u: Setup, ops: seq<Op>, i: nat)
    requires i < |ops| && ops[i].WriteCode? && TwinAgrees(u, ops, i) && ops[i].code.tries != 0
        && HasHandlers(ops[i].code)
    ensures var c, at := ops[i].code, OffsetAt(u, ops, i);
            ReadsAs(After(u, ops).w, TailPlace(at, c), c.tail) <==> at % 4 == LaidAt(u, ops, i) % 4
  {
    hide After, Range, Distance, Lookup, OffsetAt, Item, ReadMethod, MethodOf, TailPlace, HasHandlers, Preheader;
    var s, c, w := After(u, ops[..i]), ops[i].code, After(u, ops).w;
    var twin := Twin(u, s, c);
    OffsetIsEven(u, ops, i);
    CodeOffset(u, ops, i);
    CodeIsWhole(u, ops, i);
    if twin.Some? {
      var e := twin.value;
      var b := TwinIsFound(u, ops, i, e);
      SameDistanceSameCode(b, u.payload(b.insns), e.start, c, u.payload(c.insns), |s.w|);
      TailReadsIff(w, e.offset, b, c, LaidAt(u, ops, i));
    } else {
      TailReadsIff(w, OffsetAt(u, ops, i), c, c, LaidAt(u, ops, i));
    }
  }

  /** For every list of writes: item and preheader of a code item read back at the offset it got exactly
      when no range stands for it that has its item at another distance. A reader finds the whole method,
      try items included, exactly when besides the try items are aligned alike. And unless there are both a
      preheader and try items, already the bytes of the item decide. */
  lemma {:induction false} CodeReadsIff(u: Setup, ops: seq<Op>, i: nat)
    requires i < |ops| && ops[i].WriteCode?
    ensures ReadsWhole(u, ops, i) <==> TwinAgrees(u, ops, i)
    ensures HasHandlers(ops[i].code) ==>
              (FoundAt(After(u, ops).w, OffsetAt(u, ops, i), ops[i].code) <==> TwinFits(u, ops, i))
    ensures Settled(ops[i].code) ==>
              (ReadsAs(After(u, ops).w, OffsetAt(u, ops, i), CodeAt(u, ops, i)) <==> TwinAgrees(u, ops, i))
  {
    hide After, OffsetAt, TwinAgrees, Settled, ReadMethod, HasHandlers, LaidAt, TailPlace, Item, Distance, Preheader,
        MethodOf;
    var c, w, at := ops[i].code, After(u, ops).w, OffsetAt(u, ops, i);
    MethodReadsIff(u, ops, i);
    if TwinAgrees(u, ops, i) {
      CodeIsWhole(u, ops, i);
      if c.tries != 0 && HasHandlers(c) {
        TailDecides(u, ops, i);
      }
    } else {
      if ReadsWhole(u, ops, i) {
        WholeIsRead(u, ops, i);
      }
      if Settled(c) && ReadsAs(w, at, CodeAt(u, ops, i)) {
        ItemDecides(u, ops, i);
      }
    }
  }

  lemma {:induction false} WholeIsRead(u: Setup, ops: seq<Op>, i: nat)
    requires i < |ops| && ops[i].WriteCode? && ReadsWhole(u, ops, i)
    ensures ReadMethod(After(u, ops).w, OffsetAt(u, ops, i)) == Some(MethodOf(ops[i].code))
  {
    hide After, OffsetAt, Item, Distance, Preheader, ReadMethod, MethodOf, Body;
    var c, w, at := ops[i].code, After(u, ops).w, OffsetAt(u, ops, i);
    BodyReads(w, at, c, LaidAt(u, ops, i));
    MethodIsRead(c, w, at);
  }
}
