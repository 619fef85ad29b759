/**
 Writing the shared data section: every item is laid down at the end of the stream, compared with the
 ranges that are remembered, and taken back if its bytes are already there.
 */
module SharedData {
  import opened Leb128
  import opened Streams
  import opened CodeItems
  import opened CompactCode
  import opened SharedRuns
  import opened SharedSpace

  // ---- a stream that only grows at its end

  /** The bytes up to where the stream stands; nothing has been written beyond. */
  ghost function Written(stream: Stream): seq<byte>
    reads stream
    requires stream.Valid()
  {
    stream.data[..stream.position]
  }

  ghost predicate AtEnd(stream: Stream)
    reads stream
  {
    stream.Valid() && BlankFrom(stream.data, stream.position)
  }

  lemma {:induction false} WrittenMore(d0: seq<byte>, d1: seq<byte>, pos: nat, bytes: seq<byte>)
    requires BlankFrom(d0, pos) && pos <= |d0| && Has(d0, d1, pos, bytes)
    ensures pos + |bytes| <= |d1| && d1[..pos + |bytes|] == d0[..pos] + bytes && BlankFrom(d1, pos + |bytes|)
  {
    hide Has;
    HasExtent(d0, d1, pos, bytes);
    HasPointwise(d0, d1, pos, bytes);
  }

  lemma {:induction false} SkippedMore(d0: seq<byte>, d1: seq<byte>, pos: nat, n: nat)
    requires BlankFrom(d0, pos) && pos <= |d0| <= |d1| && d1 == Grown(d0, |d1|) && pos + n <= |d1|
    ensures d1[..pos + n] == d0[..pos] + Zeros(n) && BlankFrom(d1, pos + n)
  {
  }

  method Append(stream: Stream, bytes: seq<byte>)
    requires AtEnd(stream)
    modifies stream
    ensures AtEnd(stream) && Written(stream) == old(Written(stream)) + bytes
  {
    hide Has, BlankFrom;
    ghost var d0, p := stream.data, stream.position;
    BlankIsZero(d0, p, |bytes|);
    stream.Write(bytes);
    WrittenMore(d0, stream.data, p, bytes);
  }

  method Pad(stream: Stream, alignment: nat)
    requires AtEnd(stream) && IsAlignment(alignment)
    modifies stream
    ensures AtEnd(stream) && stream.position == RoundUp(old(stream.position), alignment)
    ensures Written(stream) == old(Written(stream)) + Zeros(stream.position - old(stream.position))
  {
    hide BlankFrom, RoundUp;
    ghost var d0, p := stream.data, stream.position;
    stream.AlignTo(alignment);
    SkippedMore(d0, stream.data, p, stream.position - p);
  }

  method SkipOver(stream: Stream, n: nat)
    requires AtEnd(stream)
    modifies stream
    ensures AtEnd(stream) && Written(stream) == old(Written(stream)) + Zeros(n)
  {
    hide BlankFrom;
    ghost var d0, p := stream.data, stream.position;
    stream.Skip(n);
    SkippedMore(d0, stream.data, p, n);
  }

  lemma {:induction false} TakenBack(d0: seq<byte>, d1: seq<byte>, d2: seq<byte>, start: nat, end: nat)
    requires start <= end <= |d0| <= |d1| && BlankFrom(d0, end) && end <= |d1|
    requires d1 == Overlay(Grown(d0, |d1|), start, Zeros(end - start))
    requires |d1| <= |d2| && d2 == Grown(d1, |d2|)
    ensures d2[..start] == d0[..start] && BlankFrom(d2, start)
  {
  }

  /** Clears everything from `start` on and goes back there. */
  method TakeBack(stream: Stream, start: nat)
    requires AtEnd(stream) && start <= stream.position
    modifies stream
    ensures AtEnd(stream) && stream.position == start && Written(stream) == old(Written(stream))[..start]
  {
    hide BlankFrom, Overlay, Grown;
    ghost var d0, end := stream.data, stream.position;
    stream.Clear(start, stream.position - start);
    ghost var d1 := stream.data;
    stream.Seek(start);
    TakenBack(d0, d1, stream.data, start, end);
  }

  // ---- the deduplicating map

  method Find(data: seq<byte>, entries: seq<Entry>, x: seq<byte>) returns (found: Option<Entry>)
    ensures found == Lookup(data, entries, x)
  {
    hide Matches;
    assert entries[0..] == entries;
    for i := 0 to |entries|
      invariant Lookup(data, entries, x) == Lookup(data, entries[i..], x)
    {
      if Matches(data, entries[i], x) {
        return Some(entries[i]);
      }
      assert entries[i..][1..] == entries[i + 1..];
    }
    found := None;
  }

  class Deduper {
    const enabled: bool
    var entries: seq<Entry>

    constructor (enabled: bool)
      ensures this.enabled == enabled && entries == []
    {
      this.enabled := enabled;
      entries := [];
    }

    /** Remembers the range, unless one with the same bytes is known already. */
    method Dedupe(data: seq<byte>, start: nat, end: nat, offset: nat) returns (existing: Option<Entry>)
      requires start <= end <= |data|
      modifies this
      ensures existing == if enabled then Lookup(data, old(entries), data[start..end]) else None
      ensures entries == if enabled && existing.None? then old(entries) + [Entry(start, end - start, offset)]
          else old(entries)
    {
      existing := None;
      if enabled {
        existing := Find(data, entries, data[start..end]);
        if existing.None? {
          entries := entries + [Entry(start, end - start, offset)];
        }
      }
    }

    method Clear()
      modifies this
      ensures entries == []
    {
      entries := [];
    }
  }

  // ---- a code item

  lemma {:induction false} ReversedAll(s: seq<uint16>, t: seq<uint16>)
    ensures Reversed(s + t) == Reversed(t) + Reversed(s)
  {
    if s == [] {
      assert s + t == t;
    } else {
      assert (s + t)[1..] == s[1..] + t;
      ReversedAll(s[1..], t);
    }
  }

  /** What is left of a size goes in front of the preheader made so far. */
  method Continue(size: uint16, ghost before: seq<uint16>, preheader: seq<uint16>) returns (now: seq<uint16>, flag: nat)
    requires preheader == Reversed(before)
    ensures now == Reversed(before + Rest(size)) && flag == Bit(size >= 16)
  {
    var rest := size - size % 16;
    ReversedAll(before, Rest(size));
    now, flag := preheader, 0;
    if rest != 0 {
      now, flag := [rest] + preheader, 1;
      assert Reversed([rest]) == [rest] by { assert [rest][1..] == []; }
    } else {
      assert Rest(size) == [];
    }
  }

  lemma {:induction false} TwoReversed(a: uint16, b: uint16)
    ensures Reversed([a, b]) == [b, a] && Reversed([]) == []
  {
    assert [a, b][1..] == [b] && [b][1..] == [];
  }

  lemma {:induction false} LargeCount(n: nat)
    ensures n - n % 2048 != 0 <==> n >= 2048
    ensures Bit(n >= 2048) == if n - n % 2048 != 0 then 1 else 0
  {
  }

  /** What is left of the sizes after the instruction count, in the order they are looked at. */
  method ContinueAll(c: CompactItem, ghost before: seq<uint16>, preheader: seq<uint16>)
    returns (now: seq<uint16>, flags: nat)
    requires preheader == Reversed(before)
    ensures now == Reversed(before + Rest(Locals(c)) + Rest(c.ins) + Rest(c.outs) + Rest(c.tries))
    ensures flags == Bit(Locals(c) >= 16) + 2 * Bit(c.ins >= 16) + 4 * Bit(c.outs >= 16) + 8 * Bit(c.tries >= 16)
  {
    hide Rest, Reversed, Bit;
    var flag;
    now, flag := Continue(c.registers - c.ins, before, preheader);
    flags := flag;
    now, flag := Continue(c.ins, before + Rest(Locals(c)), now);
    flags := flags + 2 * flag;
    now, flag := Continue(c.outs, before + Rest(Locals(c)) + Rest(c.ins), now);
    flags := flags + 4 * flag;
    now, flag := Continue(c.tries, before + Rest(Locals(c)) + Rest(c.ins) + Rest(c.outs), now);
    flags := flags + 8 * flag;
  }

  /** Packs the sizes into the header, and into the preheader what does not fit. */
  method Create(c: CompactItem) returns (fields: nat, countAndFlags: nat, preheader: seq<uint16>)
    ensures fields == Fields(c) && countAndFlags == CountAndFlags(c) && preheader == Reversed(Backwards(c))
  {
    hide Rest, Reversed, Bit;
    fields := 0x1000 * ((c.registers - c.ins) % 16) + 0x100 * (c.ins % 16) + 0x10 * (c.outs % 16) + c.tries % 16;
    var masked := |c.insns| % 2048;
    var rest := |c.insns| - masked;
    ghost var before: seq<uint16> := if rest != 0 then [rest % 0x1_0000, rest / 0x1_0000] else [];
    preheader := [];
    var insns := 0;
    if rest != 0 {
      insns := 1;
      preheader := [rest / 0x1_0000, rest % 0x1_0000];
    }
    TwoReversed(rest % 0x1_0000, rest / 0x1_0000);
    LargeCount(|c.insns|);
    var flags;
    preheader, flags := ContinueAll(c, before, preheader);
    countAndFlags := 32 * masked + (flags + 16 * insns);
  }

  /** Padding, preheader, header, instructions and what follows them. */
  method LayCode(stream: Stream, c: CompactItem, payload: bool) returns (offset: nat)
    requires AtEnd(stream)
    modifies stream
    ensures AtEnd(stream) && Written(stream) == old(Written(stream)) + Range(c, payload, old(stream.position))
    ensures offset == old(stream.position) + Distance(c, payload, old(stream.position))
  {
    hide Zeros, BlankFrom, InsnBytes, Header, Backwards, GapFor;
    ghost var w, pos := Written(stream), stream.position;
    var fields, countAndFlags, preheader := Create(c);
    LayGap(stream, |preheader|, payload);
    ghost var z := Zeros(Gap(c, payload, pos));
    Append(stream, InsnBytes(preheader));
    offset := stream.position;
    LayItem(stream, c, fields, countAndFlags);
    ghost var p, i := Preheader(c), Item(c, offset);
    Associate(w, z, p);
    Associate(w, z + p, i);
  }

  /** Pads for the item; instructions with a payload need it word-aligned. */
  method LayGap(stream: Stream, n: nat, payload: bool)
    requires AtEnd(stream)
    modifies stream
    ensures AtEnd(stream) && Written(stream) == old(Written(stream)) + Zeros(GapFor(n, payload, old(stream.position)))
  {
    hide Zeros, BlankFrom, UpToFour;
    ghost var w, pos := Written(stream), stream.position;
    Pad(stream, CODE_ALIGNMENT);
    ghost var pad := stream.position - pos;
    var codeStart := stream.position + 2 * n;
    if !Aligned(codeStart, 4) && payload {
      var gap := RoundUp(codeStart, 4) - codeStart;
      SkipOver(stream, gap);
      ZerosTogether(pad, gap);
      Associate(w, Zeros(pad), Zeros(gap));
    }
  }

  lemma {:induction false} ZerosTogether(a: nat, b: nat)
    ensures Zeros(a) + Zeros(b) == Zeros(a + b)
  {
  }

  /** The item itself; try items are aligned in the file. */
  method LayItem(stream: Stream, c: CompactItem, fields: nat, countAndFlags: nat)
    requires AtEnd(stream) && fields == Fields(c) && countAndFlags == CountAndFlags(c)
    modifies stream
    ensures AtEnd(stream) && Written(stream) == old(Written(stream)) + Item(c, old(stream.position))
  {
    hide Zeros, BlankFrom, InsnBytes, LeBytes, RoundUp, Fields, CountAndFlags;
    ghost var w, at := Written(stream), stream.position;
    Append(stream, LeBytes(fields, 2) + LeBytes(countAndFlags, 2));
    Append(stream, InsnBytes(c.insns));
    Associate(w, Header(c), InsnBytes(c.insns));
    ghost var body := Body(c);
    if c.tries != 0 {
      ghost var end := stream.position;
      Pad(stream, 4);
      ghost var z := Zeros(stream.position - end);
      Append(stream, c.tail);
      Associate(w + body, z, c.tail);
      Associate(w, body, z + c.tail);
    } else {
      assert body + [] == body;
    }
  }

  // ---- the section

  class DataSection {
    const setup: Setup
    const stream: Stream
    const codes: Deduper
    const datas: Deduper

    ghost function View(): Section
      reads this, stream, codes, datas
      requires stream.Valid()
    {
      Section(Written(stream), codes.entries, datas.entries)
    }

    ghost predicate Valid()
      reads this, stream, codes, datas
    {
      && codes != datas && datas.enabled && codes.enabled == setup.dedupeCode && AtEnd(stream) && Sane(View())
    }

    constructor (setup: Setup)
      ensures this.setup == setup && Valid() && fresh(stream) && fresh(codes) && fresh(datas) && View() == EMPTY
    {
      var s := new Stream([]);
      s.Seek(DATA_ALIGNMENT);
      this.setup := setup;
      stream := s;
      codes := new Deduper(setup.dedupeCode);
      datas := new Deduper(true);
      new;
      NothingIsSane();
    }

    /** String data and debug info: written, then taken back if the bytes are already there. */
    method WriteShared(bytes: seq<byte>) returns (offset: nat)
      requires Valid()
      modifies this, stream, datas
      ensures Valid() && (View(), offset) == NextShare(old(View()), bytes)
    {
      hide BlankFrom, Lookup, Sane;
      ghost var s, w := View(), Written(stream);
      var start := stream.position;
      offset := stream.position;
      Append(stream, bytes);
      SliceOfBack(w, bytes);
      Compared(stream.data, s, s.datas, start, stream.position);
      var existing := datas.Dedupe(stream.data, start, stream.position, offset);
      if existing.Some? && Aligned(existing.value.offset, 1) {
        offset := existing.value.offset;
        TakeBack(stream, start);
        assert (w + bytes)[..|w|] == w;
      }
      ShareKeeps(s, bytes);
    }

    /** Any other item of the section. */
    method WritePlain(alignment: AlignTo, bytes: seq<byte>) returns (offset: nat)
      requires Valid()
      modifies this, stream
      ensures Valid() && (View(), offset) == NextPlain(old(View()), alignment, bytes)
    {
      hide BlankFrom, Sane, Zeros, RoundUp;
      ghost var s := View();
      Pad(stream, alignment);
      offset := stream.position;
      Append(stream, bytes);
      NextKeeps(setup, s, Plain(alignment, bytes));
    }

    /** A code item. The range that is compared begins with its padding and preheader; an equal range is used
        if the item it stands for is aligned. */
    method WriteCode(c: CompactItem) returns (offset: nat)
      requires Valid()
      modifies this, stream, codes
      ensures Valid() && (View(), offset) == NextCode(setup, old(View()), c)
      ensures old(Written(stream)) <= Written(stream)
    {
      hide BlankFrom, Lookup, Sane, Range, Distance;
      ghost var s, w := View(), Written(stream);
      var start := stream.position;
      var payload := setup.payload(c.insns);
      offset := LayCode(stream, c, payload);
      ghost var x := Range(c, payload, start);
      SliceOfBack(w, x);
      Compared(stream.data, s, s.codes, start, stream.position);
      var existing := codes.Dedupe(stream.data, start, stream.position, offset);
      if existing.Some? && Aligned(existing.value.offset, CODE_ALIGNMENT) {
        offset := existing.value.offset;
        TakeBack(stream, start);
        assert (w + x)[..|w|] == w;
      }
      CodeKeeps(setup, s, c);
    }

    /** The end of one file and the start of the next: code is not shared between files. */
    method NextFile()
      requires Valid()
      modifies stream, codes
      ensures Valid() && View() == Next(setup, old(View()), EndFile).0 && |stream.data| == stream.position
    {
      hide BlankFrom, Sane, Zeros, RoundUp;
      ghost var s := View();
      Pad(stream, DATA_ALIGNMENT);
      stream.data := stream.data[..stream.position];
      codes.Clear();
      TrimmedIsBlank(stream.data);
      LongEnough(s);
      stream.Seek(if |stream.data| > DATA_ALIGNMENT then |stream.data| else DATA_ALIGNMENT);
      NextKeeps(setup, s, EndFile);
    }

    method Perform(op: Op) returns (offset: nat)
      requires Valid()
      modifies this, stream, codes, datas
      ensures Valid() && (View(), offset) == Next(setup, old(View()), op)
    {
      hide AtEnd, Sane, Written, NextShare, NextPlain, NextCode;
      match op {
        case Share(bytes) =>
          offset := WriteShared(bytes);
        case Plain(alignment, bytes) =>
          offset := WritePlain(alignment, bytes);
        case WriteCode(c) =>
          offset := this.WriteCode(c);
        case EndFile =>
          NextFile();
          offset := 0;
      }
    }
  }

  /** Comparing in the whole storage is comparing with what was written before. */
  lemma {:induction false} Compared(data: seq<byte>, s: Section, entries: seq<Entry>, start: nat, end: nat)
    requires Sane(s) && (entries == s.codes || entries == s.datas) && start <= end <= |data| && |s.w| <= |data|
        && data[..|s.w|] == s.w
    ensures Lookup(data, entries, data[start..end]) == Lookup(s.w, entries, data[start..end])
  {
    hide Lookup, Distinct;
    LookupMore(s.w, data, entries, data[start..end]);
  }

  lemma {:induction false} LongEnough(s: Section)
    requires Sane(s)
    ensures |s.w| >= DATA_ALIGNMENT
  {
  }

  lemma {:induction false} TrimmedIsBlank(data: seq<byte>)
    ensures BlankFrom(data, |data|) && data[..|data|] == data
  {
  }

  // ---- whole runs

  /** Every item of every file, whatever comes after it, can be read at the offset it was given: strings and
      debug infos with one copy of each, and code except where an equal range has its item, or its try items,
      elsewhere. Nothing is kept twice, and no code is shared between files. */
  method WriteAll(u: Setup, ops: seq<Op>) returns (data: seq<byte>, outs: seq<nat>, ends: seq<nat>)
    ensures data == After(u, ops).w && |outs| == |ops| && forall i :: 0 <= i < |ops| ==> outs[i] == OffsetAt(u, ops, i)
    ensures forall i :: 0 <= i < |ops| && (ops[i].Share? || ops[i].Plain?) ==> ReadsAs(data, outs[i], ops[i].bytes)
    ensures forall i :: 0 <= i < |ops| && ops[i].WriteCode? ==>
              var item, p := CodeAt(u, ops, i), Preheader(ops[i].code);
              (ReadsAs(data, outs[i], item) && |p| <= outs[i] && ReadsAs(data, outs[i] - |p|, p) <==>
                  TwinAgrees(u, ops, i))
    ensures forall i :: 0 <= i < |ops| && ops[i].WriteCode? && HasHandlers(ops[i].code) ==>
              (FoundAt(data, outs[i], ops[i].code) <==> TwinFits(u, ops, i))
    ensures forall i, j :: 0 <= i < |ops| && 0 <= j < |ops| && SameLength(ops[i], ops[j]) ==>
              (ops[i].bytes == ops[j].bytes <==> outs[i] == outs[j])
    ensures |ends| == |ops| && forall i :: 0 <= i < |ops| ==>
              Adds(u, ops[i], if i == 0 then DATA_ALIGNMENT else ends[i - 1], outs[i], ends[i])
    ensures |data| == if ops == [] then DATA_ALIGNMENT else ends[|ops| - 1]
    ensures forall i, k, j :: 0 <= i < k < j < |ops| && ops[i].WriteCode? && ops[k].EndFile? && ops[j].WriteCode? ==>
              outs[i] < ends[k] <= outs[j]
    ensures forall i, j :: 0 <= i < j < |ops| && ops[i].WriteCode? && ops[j].WriteCode? && SameFile(ops, i, j) ==>
              (outs[i] == outs[j] <==> u.dedupeCode && RangeAt(u, ops, i) == RangeAt(u, ops, j))
  {
    hide ReadsAs, After, OffsetAt, TwinAgrees, TwinFits, FoundAt, HasHandlers, CodeAt, Preheader, Adds, RangeAt,
        SameFile, LengthAt;
    data, outs, ends := WriteEach(u, ops);
    RunReads(u, ops);
    RunAdds(u, ops);
  }

  /** The writes one by one, through a section that starts out empty. */
  method WriteEach(u: Setup, ops: seq<Op>) returns (data: seq<byte>, outs: seq<nat>, ends: seq<nat>)
    ensures data == After(u, ops).w && |data| == LengthAt(u, ops, |ops|)
    ensures |outs| == |ops| && forall i :: 0 <= i < |ops| ==> outs[i] == OffsetAt(u, ops, i)
    ensures |ends| == |ops| && forall i :: 0 <= i < |ops| ==> ends[i] == LengthAt(u, ops, i + 1)
  {
    hide BlankFrom, Sane, Next;
    var section := new DataSection(u);
    outs, ends := [], [];
    assert ops[..0] == [];
    for k := 0 to |ops|
      invariant section.Valid() && fresh(section) && fresh(section.stream) && fresh(section.codes)
          && fresh(section.datas)
      invariant section.setup == u && section.View() == After(u, ops[..k])
      invariant |outs| == k && forall i :: 0 <= i < k ==> outs[i] == OffsetAt(u, ops, i)
      invariant |ends| == k && forall i :: 0 <= i < k ==> ends[i] == LengthAt(u, ops, i + 1)
    {
      AfterStep(u, ops, k);
      var offset := section.Perform(ops[k]);
      outs := outs + [offset];
      ends := ends + [section.stream.position];
    }
    assert ops[..|ops|] == ops;
    data := section.stream.data[..section.stream.position];
  }

  lemma {:induction false} RunAdds(u: Setup, ops: seq<Op>)
    ensures LengthAt(u, ops, 0) == DATA_ALIGNMENT
    ensures forall i :: 0 <= i < |ops| ==>
              Adds(u, ops[i], LengthAt(u, ops, i), OffsetAt(u, ops, i), LengthAt(u, ops, i + 1))
    ensures forall i, k, j :: 0 <= i < k < j < |ops| && ops[i].WriteCode? && ops[k].EndFile? && ops[j].WriteCode? ==>
              OffsetAt(u, ops, i) < LengthAt(u, ops, k + 1) <= OffsetAt(u, ops, j)
    ensures forall i, j :: 0 <= i < j < |ops| && ops[i].WriteCode? && ops[j].WriteCode? && SameFile(ops, i, j) ==>
              (OffsetAt(u, ops, i) == OffsetAt(u, ops, j) <==>
                  u.dedupeCode && RangeAt(u, ops, i) == RangeAt(u, ops, j))
  {
    assert LengthAt(u, ops, 0) == DATA_ALIGNMENT by { assert ops[..0] == []; }
    hide OffsetAt, LengthAt, Adds, RangeAt, SameFile;
    forall i | 0 <= i < |ops|
      ensures Adds(u, ops[i], LengthAt(u, ops, i), OffsetAt(u, ops, i), LengthAt(u, ops, i + 1))
    {
      WriteAdds(u, ops, i);
    }
    forall i, k, j | 0 <= i < k < j < |ops| && ops[i].WriteCode? && ops[k].EndFile? && ops[j].WriteCode?
      ensures OffsetAt(u, ops, i) < LengthAt(u, ops, k + 1) <= OffsetAt(u, ops, j)
    {
      FilesAreApart(u, ops, i, k, j);
    }
    forall i, j | 0 <= i < j < |ops| && ops[i].WriteCode? && ops[j].WriteCode? && SameFile(ops, i, j)
      ensures OffsetAt(u, ops, i) == OffsetAt(u, ops, j) <==>
          u.dedupeCode && RangeAt(u, ops, i) == RangeAt(u, ops, j)
    {
      if u.dedupeCode {
        CodeIsShared(u, ops, i, j);
      } else {
        CodeIsApart(u, ops, i, j);
      }
    }
  }

  predicate SameLength(a: Op, b: Op) {
    a.Share? && b.Share? && |a.bytes| == |b.bytes|
  }

  lemma {:induction false} RunReads(u: Setup, ops: seq<Op>)
    ensures forall i :: 0 <= i < |ops| && (ops[i].Share? || ops[i].Plain?) ==>
              ReadsAs(After(u, ops).w, OffsetAt(u, ops, i), ops[i].bytes)
    ensures forall i :: 0 <= i < |ops| && ops[i].WriteCode? ==> (ReadsWhole(u, ops, i) <==> TwinAgrees(u, ops, i))
    ensures forall i :: 0 <= i < |ops| && ops[i].WriteCode? && HasHandlers(ops[i].code) ==>
              (FoundAt(After(u, ops).w, OffsetAt(u, ops, i), ops[i].code) <==> TwinFits(u, ops, i))
    ensures forall i, j :: 0 <= i < |ops| && 0 <= j < |ops| && SameLength(ops[i], ops[j]) ==>
              (ops[i].bytes == ops[j].bytes <==> OffsetAt(u, ops, i) == OffsetAt(u, ops, j))
  {
    hide After, ReadsAs, OffsetAt, TwinAgrees, TwinFits, FoundAt, ReadsWhole, HasHandlers;
    forall i | 0 <= i < |ops| && (ops[i].Share? || ops[i].Plain?)
      ensures ReadsAs(After(u, ops).w, OffsetAt(u, ops, i), ops[i].bytes)
    {
      if ops[i].Share? {
        SharedReads(u, ops, i);
      } else {
        PlainReads(u, ops, i);
      }
    }
    forall i | 0 <= i < |ops| && ops[i].WriteCode?
      ensures ReadsWhole(u, ops, i) <==> TwinAgrees(u, ops, i)
      ensures HasHandlers(ops[i].code) ==>
                (FoundAt(After(u, ops).w, OffsetAt(u, ops, i), ops[i].code) <==> TwinFits(u, ops, i))
    {
      CodeReadsIff(u, ops, i);
    }
    forall i, j | 0 <= i < |ops| && 0 <= j < |ops| && SameLength(ops[i], ops[j])
      ensures ops[i].bytes == ops[j].bytes <==> OffsetAt(u, ops, i) == OffsetAt(u, ops, j)
    {
      EqualMeansShared(u, ops, i, j);
    }
  }
}
