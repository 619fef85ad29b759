/**
 What the reader finds in a written file is what the file was written from: every class with its
 members, code, annotations and values, and every id, from the header and the map list alone.
 */
module FileRoundTrip {
  import opened Leb128
  import opened Streams
  import opened Sections
  import opened CatchHandlers
  import opened CodeItems
  import EncodedValues
  import opened DexIr
  import opened MapLists
  import opened DexWriters
  import opened DexFiles
  import opened ItemReaders
  import opened DexReaders
  import opened FileViews
  import DebugStreams
  import HotnessLayout

  /** A file whose offsets fit their fields. */
  ghost predicate Holding(ir: Ir, file: seq<byte>, off: Offsets) {
    Valid(ir) && FileHolds(ir, file, off) && |file| < 0x1_0000_0000
  }

  lemma {:induction false} Linked(ir: Ir, file: seq<byte>, off: Offsets, r: Ref)
    requires Holding(ir, file, off) && r.index < Count(ir, r.section)
    ensures 0 < OffsetOf(off, r) && ReadsAs(file, OffsetOf(off, r), Serialize(ir, off, r))
  {
    hide Valid, Serialize;
  }

  lemma {:induction false} LinkedOrNull(ir: Ir, file: seq<byte>, off: Offsets, k: Section, i: Option<nat>)
    requires Holding(ir, file, off) && FileViews.Below(i, Count(ir, k))
    ensures i.None? ==> OffsetOrZero(off, k, i) == 0
    ensures i.Some? ==>
        0 < OffsetOrZero(off, k, i) && ReadsAs(file, OffsetOrZero(off, k, i), Serialize(ir, off, Ref(k, i.value)))
  {
    hide Holding, Serialize;
    if i.Some? {
      Linked(ir, file, off, Ref(k, i.value));
    }
  }

  // ---- type lists and values

  lemma {:induction false} TypeListRead(file: seq<byte>, at: nat, types: seq<uint16>)
    requires at > 0 && |file| < 0x1_0000_0000 && ReadsAs(file, at, Word(|types|) + InsnBytes(types))
    ensures ReadTypeList(file, at) == To(Widen(types))
  {
    hide WordAt, HalfAt, InsnBytes, Word;
    var bytes := Word(|types|) + InsnBytes(types);
    CountRead(file, at, |types|, InsnBytes(types));
    forall i | 0 <= i < |types|
      ensures HalfAt(file, at + 4 + 2 * i) == types[i]
    {
      TypeListIsRead(types, i);
      HalfInFile(file, at, bytes, 4 + 2 * i);
    }
    assert ReadTypeList(file, at).value == Widen(types);
  }

  lemma {:induction false} CountRead(file: seq<byte>, at: nat, n: nat, rest: seq<byte>)
    requires n < 0x1_0000_0000 && ReadsAs(file, at, Word(n) + rest)
    ensures at + 4 + |rest| <= |file| && WordAt(file, at) == n
  {
    hide WordAt, Word;
    WordInFile(file, at, Word(n) + rest, 0);
    assert [] + Word(n) + rest == Word(n) + rest;
    WordBetween([], n, rest);
  }

  lemma {:induction false} ValuesRead(t: EncodedValues.Tables, file: seq<byte>, at: nat,
      values: seq<EncodedValues.Value>)
    requires at > 0 && |values| < 0x1_0000_0000 && EncodedValues.AllWellFormed(t, values)
    requires ReadsAs(file, at, EncodedValues.WriteArray(t, values))
    ensures ReadValues(t, file, at) == To(values)
  {
    hide EncodedValues.ReadArray, EncodedValues.WriteArray, EncodedValues.AllWellFormed;
    var bytes := EncodedValues.WriteArray(t, values);
    assert file[at..] == bytes + file[at + |bytes|..];
    EncodedValues.ArrayRoundTrip(t, values, file[at + |bytes|..]);
  }

  // ---- annotations

  lemma {:induction false} AnnotationRead(t: EncodedValues.Tables, file: seq<byte>, at: nat, a: AnnotationItem)
    requires at > 0 && EncodedValues.WellFormedAnnotation(t, a.annotation)
    requires ReadsAs(file, at, [a.visibility] + EncodedValues.WriteAnnotation(t, a.annotation))
    ensures ReadAnnotationItem(t, file, at) == To(a)
  {
    hide EncodedValues.ReadAnnotation, EncodedValues.WriteAnnotation, EncodedValues.WellFormedAnnotation;
    var bytes := EncodedValues.WriteAnnotation(t, a.annotation);
    var suffix := file[at + 1 + |bytes|..];
    assert file[at] == file[at..at + 1 + |bytes|][0];
    assert file[at + 1..at + 1 + |bytes|] == file[at..at + 1 + |bytes|][1..] == bytes;
    assert file[at + 1..] == bytes + suffix;
    EncodedValues.AnnotationRoundTrip(t, a.annotation, suffix);
  }

  lemma {:induction false} AnnotationItemRead(ir: Ir, file: seq<byte>, off: Offsets, a: nat)
    requires Holding(ir, file, off) && a < |ir.annotations|
    ensures ReadAnnotationItem(TablesOf(ir), file, OffsetOf(off, Ref(Annotations, a))) == AnnotationOf(ir, a)
  {
    hide FileHolds, ReadAnnotationItem, EncodedValues.WriteAnnotation, EncodedValues.WellFormedAnnotation;
    Linked(ir, file, off, Ref(Annotations, a));
    AnnotationRead(TablesOf(ir), file, OffsetOf(off, Ref(Annotations, a)), ir.annotations[a]);
  }

  lemma {:induction false} SetRead(ir: Ir, file: seq<byte>, off: Offsets, s: Option<nat>)
    requires Holding(ir, file, off) && Closed(ir) && FileViews.Below(s, |ir.annotationSets|)
    ensures ReadSet(TablesOf(ir), file, OffsetOrZero(off, AnnotationSets, s)) == SetOf(ir, s)
  {
    hide Holding, ReadAnnotationItem, AnnotationOf, WordAt, Words;
    LinkedOrNull(ir, file, off, AnnotationSets, s);
    if s.Some? {
      var set_, at := ir.annotationSets[s.value], OffsetOrZero(off, AnnotationSets, s);
      HoldingIsValid(ir, file, off);
      assert Serialize(ir, off, Ref(AnnotationSets, s.value)) == Words([|set_|] + SetWords(off, set_));
      WordListRead(file, at, SetWords(off, set_));
      forall i | 0 <= i < |set_|
        ensures ReadAnnotationItem(TablesOf(ir), file, WordAt(file, at + 4 + 4 * i)) == AnnotationOf(ir, set_[i])
      {
        assert WordAt(file, at + 4 + 4 * i) == SetWords(off, set_)[i];
        AnnotationItemRead(ir, file, off, set_[i]);
      }
      assert ReadSet(TablesOf(ir), file, at).value == SetOf(ir, s).value;
    }
  }

  lemma {:induction false} HoldingIsValid(ir: Ir, file: seq<byte>, off: Offsets)
    requires Holding(ir, file, off)
    ensures Valid(ir) && |file| < 0x1_0000_0000
  {
  }

  /** A count and that many words. */
  lemma {:induction false} WordListRead(file: seq<byte>, at: nat, values: seq<nat>)
    requires |file| < 0x1_0000_0000 && ReadsAs(file, at, Words([|values|] + values))
    requires forall i :: 0 <= i < |values| ==> values[i] < 0x1_0000_0000
    ensures at + 4 + 4 * |values| <= |file| && WordAt(file, at) == |values|
    ensures forall i :: 0 <= i < |values| ==> WordAt(file, at + 4 + 4 * i) == values[i]
  {
    hide WordAt, Words;
    var all := [|values|] + values;
    WordRead(file, at, all, 0);
    forall i | 0 <= i < |values|
      ensures WordAt(file, at + 4 + 4 * i) == values[i]
    {
      WordRead(file, at, all, i + 1);
    }
  }

  lemma {:induction false} WordRead(file: seq<byte>, at: nat, values: seq<nat>, i: nat)
    requires ReadsAs(file, at, Words(values)) && i < |values| && values[i] < 0x1_0000_0000
    ensures at + 4 * |values| <= |file| && at + 4 * i + 4 <= |file| && WordAt(file, at + 4 * i) == values[i]
  {
    hide WordAt, Words;
    WordInArray(values, i);
    WordInFile(file, at, Words(values), 4 * i);
  }

  lemma {:induction false} SetRefsRead(ir: Ir, file: seq<byte>, off: Offsets, l: nat)
    requires Holding(ir, file, off) && Closed(ir) && l < |ir.setRefLists|
    ensures ReadSetRefs(TablesOf(ir), file, OffsetOf(off, Ref(SetRefLists, l))) == SetRefsOf(ir, l)
  {
    hide Holding, ReadSet, SetOf, WordAt, Words;
    Linked(ir, file, off, Ref(SetRefLists, l));
    var refs, at := ir.setRefLists[l], OffsetOf(off, Ref(SetRefLists, l));
    HoldingIsValid(ir, file, off);
    assert Serialize(ir, off, Ref(SetRefLists, l)) == Words([|refs|] + SetRefWords(off, refs));
    WordListRead(file, at, SetRefWords(off, refs));
    forall i | 0 <= i < |refs|
      ensures ReadSet(TablesOf(ir), file, WordAt(file, at + 4 + 4 * i)) == SetOf(ir, refs[i])
    {
      assert WordAt(file, at + 4 + 4 * i) == SetRefWords(off, refs)[i];
      SetRead(ir, file, off, refs[i]);
    }
    assert ReadSetRefs(TablesOf(ir), file, at).value == SetRefsOf(ir, l).value;
  }

  // ---- directories

  /** Entry j of a directory, in the file. */
  predicate EntryInFile(file: seq<byte>, at: nat, j: nat, index: nat, offset: nat) {
    at + 16 + 8 * j + 8 <= |file| && WordAt(file, at + 16 + 8 * j) == index
        && WordAt(file, at + 16 + 8 * j + 4) == offset
  }

  lemma {:induction false} EntryFound(file: seq<byte>, at: nat, bytes: seq<byte>, j: nat, index: nat, offset: nat)
    requires ReadsAs(file, at, bytes) && EntryAt(bytes, j, index, offset)
    ensures EntryInFile(file, at, j, index, offset)
  {
    hide WordAt;
    WordInFile(file, at, bytes, 16 + 8 * j);
    WordInFile(file, at, bytes, 16 + 8 * j + 4);
  }

  ghost predicate HeadInFile(file: seq<byte>, at: nat, off: Offsets, d: Directory) {
    && at + 16 + 8 * (|d.fields| + |d.methods| + |d.parameters|) <= |file|
    && WordAt(file, at) == OffsetOrZero(off, AnnotationSets, d.classAnnotation)
    && WordAt(file, at + 4) == |d.fields| && WordAt(file, at + 8) == |d.methods|
        && WordAt(file, at + 12) == |d.parameters|
  }

  lemma {:induction false} DirectoryHeadFound(file: seq<byte>, at: nat, off: Offsets, d: Directory)
    requires |file| < 0x1_0000_0000 && ReadsAs(file, at, Words(DirectoryWords(off, d)))
    ensures HeadInFile(file, at, off, d)
  {
    hide WordAt, Words, EntryWords;
    var bytes := Words(DirectoryWords(off, d));
    assert |bytes| == 16 + 8 * (|d.fields| + |d.methods| + |d.parameters|);
    DirectoryHeadIsRead(off, d);
    WordInFile(file, at, bytes, 0);
    WordInFile(file, at, bytes, 4);
    WordInFile(file, at, bytes, 8);
    WordInFile(file, at, bytes, 12);
  }

  lemma {:induction false} MemberSetsRead(ir: Ir, file: seq<byte>, off: Offsets, at: nat, from: nat,
      entries: seq<Entry>)
    requires Holding(ir, file, off) && Closed(ir) && at + 16 + 8 * (from + |entries|) <= |file|
    requires forall i :: 0 <= i < |entries| ==> entries[i].target < |ir.annotationSets|
    requires forall i :: 0 <= i < |entries| ==>
               EntryInFile(file, at, from + i, entries[i].index, OffsetOf(off, Ref(AnnotationSets, entries[i].target)))
    ensures ReadMemberSets(TablesOf(ir), file, at, from, |entries|) == MemberSetsOf(ir, entries)
  {
    hide Holding, Closed, ReadSet, SetOf, WordAt;
    var t := TablesOf(ir);
    forall i | 0 <= i < |entries|
      ensures ReadMemberSets(t, file, at, from, |entries|)[i] == MemberSetsOf(ir, entries)[i]
    {
      assert EntryInFile(file, at, from + i, entries[i].index, OffsetOf(off, Ref(AnnotationSets, entries[i].target)));
      SetRead(ir, file, off, Some(entries[i].target));
    }
  }

  lemma {:induction false} ParameterSetsRead(ir: Ir, file: seq<byte>, off: Offsets, at: nat, from: nat,
      entries: seq<Entry>)
    requires Holding(ir, file, off) && Closed(ir) && at + 16 + 8 * (from + |entries|) <= |file|
    requires forall i :: 0 <= i < |entries| ==> entries[i].target < |ir.setRefLists|
    requires forall i :: 0 <= i < |entries| ==>
               EntryInFile(file, at, from + i, entries[i].index, OffsetOf(off, Ref(SetRefLists, entries[i].target)))
    ensures ReadParameterSets(TablesOf(ir), file, at, from, |entries|) == ParameterSetsOf(ir, entries)
  {
    hide Holding, Closed, ReadSetRefs, SetRefsOf, WordAt;
    var t := TablesOf(ir);
    forall i | 0 <= i < |entries|
      ensures ReadParameterSets(t, file, at, from, |entries|)[i] == ParameterSetsOf(ir, entries)[i]
    {
      assert EntryInFile(file, at, from + i, entries[i].index, OffsetOf(off, Ref(SetRefLists, entries[i].target)));
      SetRefsRead(ir, file, off, entries[i].target);
    }
  }

  lemma {:induction false} DirectoryEntriesFound(file: seq<byte>, at: nat, off: Offsets, d: Directory)
    requires ReadsAs(file, at, Words(DirectoryWords(off, d)))
    ensures forall i :: 0 <= i < |d.fields| ==>
              EntryInFile(file, at, 0 + i, d.fields[i].index, OffsetOf(off, Ref(AnnotationSets, d.fields[i].target)))
    ensures forall i :: 0 <= i < |d.methods| ==>
              EntryInFile(file, at, |d.fields| + i, d.methods[i].index,
                  OffsetOf(off, Ref(AnnotationSets, d.methods[i].target)))
    ensures forall i :: 0 <= i < |d.parameters| ==>
              EntryInFile(file, at, |d.fields| + |d.methods| + i, d.parameters[i].index,
                  OffsetOf(off, Ref(SetRefLists, d.parameters[i].target)))
  {
    hide WordAt, Words, DirectoryWords, EntryInFile, EntryAt, OffsetOf;
    var bytes, f, m := Words(DirectoryWords(off, d)), |d.fields|, |d.methods|;
    forall i | 0 <= i < |d.fields|
      ensures EntryInFile(file, at, 0 + i, d.fields[i].index, OffsetOf(off, Ref(AnnotationSets, d.fields[i].target)))
    {
      DirectoryIsRead(off, d, i);
      EntryFound(file, at, bytes, i, d.fields[i].index, OffsetOf(off, Ref(AnnotationSets, d.fields[i].target)));
    }
    forall i | 0 <= i < |d.methods|
      ensures EntryInFile(file, at, f + i, d.methods[i].index, OffsetOf(off, Ref(AnnotationSets, d.methods[i].target)))
    {
      DirectoryIsRead(off, d, i);
      EntryFound(file, at, bytes, f + i, d.methods[i].index, OffsetOf(off, Ref(AnnotationSets, d.methods[i].target)));
    }
    forall i | 0 <= i < |d.parameters|
      ensures EntryInFile(file, at, f + m + i, d.parameters[i].index,
          OffsetOf(off, Ref(SetRefLists, d.parameters[i].target)))
    {
      DirectoryIsRead(off, d, i);
      EntryFound(file, at, bytes, f + m + i, d.parameters[i].index,
          OffsetOf(off, Ref(SetRefLists, d.parameters[i].target)));
    }
  }

  lemma {:induction false} DirectoryRead(ir: Ir, file: seq<byte>, off: Offsets, d: Option<nat>)
    requires Holding(ir, file, off) && Closed(ir) && FileViews.Below(d, |ir.directories|)
    ensures ReadDirectory(TablesOf(ir), file, OffsetOrZero(off, Directories, d)) == DirectoryOf(ir, d)
  {
    hide Holding, ReadSet, SetOf, WordAt, Words, DirectoryWords, ReadMemberSets, ReadParameterSets, MemberSetsOf,
        ParameterSetsOf, EntryInFile;
    LinkedOrNull(ir, file, off, Directories, d);
    if d.Some? {
      var dir, at := ir.directories[d.value], OffsetOrZero(off, Directories, d);
      HoldingIsValid(ir, file, off);
      assert ClosedDirectory(ir, dir);
      assert Serialize(ir, off, Ref(Directories, d.value)) == Words(DirectoryWords(off, dir));
      hide Closed;
      DirectoryHeadFound(file, at, off, dir);
      DirectoryEntriesFound(file, at, off, dir);
      SetRead(ir, file, off, dir.classAnnotation);
      MemberSetsRead(ir, file, off, at, 0, dir.fields);
      MemberSetsRead(ir, file, off, at, |dir.fields|, dir.methods);
      ParameterSetsRead(ir, file, off, at, |dir.fields| + |dir.methods|, dir.parameters);
    }
  }

  // ---- code

  lemma {:induction false} HandlerRead(file: seq<byte>, area: nat, handlers: seq<Handler>, k: nat)
    requires ReadsAs(file, area, HandlerArea(handlers)) && k < |handlers| && Regular(handlers[k])
    requires forall j :: 0 <= j < |handlers| && j != k ==>
               Apart(handlers[j], handlers[k].offset, handlers[k].offset + |EncodeHandler(handlers[k])|)
    ensures ReadTryHandler(file, area, handlers[k].offset) == To(handlers[k])
  {
    hide ReadHandler, EncodeHandler, Apart, Regular, PaintAll;
    var h := handlers[k];
    var bytes, all := EncodeHandler(h), HandlerArea(handlers);
    PaintAllHolds(Uleb(|handlers|), handlers, k);
    SubSlice(file, area, area + |all|, h.offset, h.offset + |bytes|);
    var from := area + h.offset;
    assert file[from..] == bytes + file[from + |bytes|..];
    HandlerRoundTrip(h, file[from + |bytes|..]);
  }

  lemma {:induction false} NamedHandlerRead(file: seq<byte>, area: nat, c: CodeItem, j: nat)
    requires ClosedCode(c) && j < |c.tries| && ReadsAs(file, area, HandlerArea(c.handlers))
    ensures ReadTryHandler(file, area, c.tries[j].handlerOffset) == HandlerNamed(c.handlers, c.tries[j].handlerOffset)
  {
    hide ReadTryHandler, EncodeHandler, Apart, Regular, HandlerArea;
    var h := HandlerNamed(c.handlers, c.tries[j].handlerOffset).value;
    var k :| 0 <= k < |c.handlers| && c.handlers[k] == h;
    HandlerRead(file, area, c.handlers, k);
  }

  lemma {:induction false} TryRead(file: seq<byte>, at: nat, c: CodeItem, debug: uint32, j: nat)
    requires ReadsAs(file, at, CodeBytes(c, debug)) && ClosedCode(c) && j < |c.tries|
    ensures var tries, n := at + TriesAt(|c.insns|), |c.tries|;
            && tries + 8 * n <= |file|
            && ReadTry(file, tries + 8 * j, tries + 8 * n) ==
               TryView(c.tries[j].startAddress, c.tries[j].count, HandlerNamed(c.handlers, c.tries[j].handlerOffset))
  {
    hide CodeBytes, HandlerArea, TryItem, WordAt, HalfAt, TriesAt, ReadTryHandler, ClosedCode, HandlerNamed;
    var bytes, tries, n := CodeBytes(c, debug), TriesAt(|c.insns|), |c.tries|;
    TriesAreRead(c, debug, j);
    TryIsRead(c.tries[j], TryItem(c.tries[j]));
    SubSlice(file, at, at + |bytes|, tries + 8 * j, tries + 8 * j + 8);
    var here := at + tries + 8 * j;
    assert ReadsAs(file, here, TryItem(c.tries[j]));
    WordInFile(file, here, TryItem(c.tries[j]), 0);
    HalfInFile(file, here, TryItem(c.tries[j]), 4);
    HalfInFile(file, here, TryItem(c.tries[j]), 6);
    SubSlice(file, at, at + |bytes|, tries + 8 * n, |bytes|);
    assert bytes[tries + 8 * n..|bytes|] == bytes[tries + 8 * n..];
    NamedHandlerRead(file, at + tries + 8 * n, c, j);
  }

  lemma {:induction false} CodeHeadFound(file: seq<byte>, at: nat, c: CodeItem, debug: uint32)
    requires ReadsAs(file, at, CodeBytes(c, debug)) && Writable(c)
    ensures at + 16 + 2 * |c.insns| <= |file| && HalfAt(file, at) == c.registers && HalfAt(file, at + 2) == c.ins
    ensures HalfAt(file, at + 4) == c.outs && HalfAt(file, at + 6) == |c.tries| && WordAt(file, at + 8) == debug
        && WordAt(file, at + 12) == |c.insns|
    ensures forall i :: 0 <= i < |c.insns| ==> HalfAt(file, at + 16 + 2 * i) == c.insns[i]
  {
    hide CodeBytes, HeadBytes, InsnBytes, PostBytes, WordAt, HalfAt, WritableHandler;
    var bytes, head := CodeBytes(c, debug), HeadBytes(c, debug);
    CodeParts(c, debug);
    CodeFront(head, InsnBytes(c.insns), PostBytes(c, 16 + 2 * |c.insns|));
    SubSlice(file, at, at + |bytes|, 0, 16);
    assert ReadsAs(file, at, head);
    CodeHeadIsRead(c, debug, head);
    HalfInFile(file, at, head, 0);
    HalfInFile(file, at, head, 2);
    HalfInFile(file, at, head, 4);
    HalfInFile(file, at, head, 6);
    WordInFile(file, at, head, 8);
    WordInFile(file, at, head, 12);
    forall i | 0 <= i < |c.insns|
      ensures HalfAt(file, at + 16 + 2 * i) == c.insns[i]
    {
      CodeIsRead(c, debug, i);
      HalfInFile(file, at, bytes, 16 + 2 * i);
    }
  }

  lemma {:induction false} CodeFront(head: seq<byte>, insns: seq<byte>, post: seq<byte>)
    ensures (head + insns + post)[0..|head|] == head
  {
  }

  lemma {:induction false} CodeRead(ir: Ir, file: seq<byte>, off: Offsets, c: Option<nat>)
    requires Holding(ir, file, off) && Closed(ir) && FileViews.Below(c, |ir.codeItems|)
    ensures ReadCode(file, OffsetOrZero(off, CodeSection, c)) == CodeOf(ir, c)
  {
    hide FileHolds, CodeBytes, WordAt, HalfAt, TriesAt, ReadTry, HandlerNamed, ClosedCode, ReadDebugInfo, DebugInfoOf;
    LinkedOrNull(ir, file, off, CodeSection, c);
    if c.Some? {
      var code, at := ir.codeItems[c.value], OffsetOrZero(off, CodeSection, c);
      var debug := OffsetOrZero(off, DebugInfos, code.debugInfo);
      assert Serialize(ir, off, Ref(CodeSection, c.value)) == CodeBytes(code, debug);
      assert Writable(code) && ClosedCode(code);
      CodeItemRead(file, at, code, debug);
      DebugInfoRead(ir, file, off, code.debugInfo);
    }
  }

  lemma {:induction false} DebugInfoRead(ir: Ir, file: seq<byte>, off: Offsets, d: Option<nat>)
    requires Holding(ir, file, off) && Closed(ir) && FileViews.Below(d, |ir.debugInfos|)
    ensures ReadDebugInfo(file, OffsetOrZero(off, DebugInfos, d)) == DebugInfoOf(ir, d)
  {
    hide FileHolds, DebugStreams.AfterInfo, ClosedCode;
    LinkedOrNull(ir, file, off, DebugInfos, d);
    if d.Some? {
      var info, at := ir.debugInfos[d.value], OffsetOrZero(off, DebugInfos, d);
      var rest := file[at + |info|..];
      assert file[at..] == info + rest;
      DebugStreams.MeasuringAgain(info, rest);
      assert info[..|info|] == info;
    }
  }

  lemma {:induction false} CodeItemRead(file: seq<byte>, at: nat, code: CodeItem, debug: uint32)
    requires ReadsAs(file, at, CodeBytes(code, debug)) && Writable(code) && ClosedCode(code) && at > 0
    ensures ReadCode(file, at) == To(CodeView(code.registers, code.ins, code.outs, ReadDebugInfo(file, debug),
        Widen(code.insns), TriesOf(code)))
  {
    hide ReadDebugInfo, CodeBytes, WordAt, HalfAt, TriesAt, ReadTry, HandlerNamed, ClosedCode, Writable;
    CodeHeadFound(file, at, code, debug);
    var n, tries := |code.tries|, at + TriesAt(|code.insns|);
    if n > 0 {
      TryRead(file, at, code, debug, 0);
    }
    forall j | 0 <= j < n
      ensures ReadTry(file, tries + 8 * j, tries + 8 * n) == TriesOf(code)[j]
    {
      TryRead(file, at, code, debug, j);
    }
    var view := ReadCode(file, at).value;
    assert view.insns == Widen(code.insns);
    assert view.tries == TriesOf(code);
  }

  // ---- class data and classes

  lemma {:induction false} MethodsRead(ir: Ir, file: seq<byte>, off: Offsets, methods: seq<Method>)
    requires Holding(ir, file, off) && Closed(ir) && ClosedMethods(ir, methods)
    ensures MethodViews(file, MethodEntries(off, methods)) == FileViews.MethodsOf(ir, methods)
  {
    hide Holding, Closed, ReadCode, CodeOf, OffsetOrZero;
    forall i | 0 <= i < |methods|
      ensures MethodViews(file, MethodEntries(off, methods))[i] == FileViews.MethodsOf(ir, methods)[i]
    {
      CodeRead(ir, file, off, methods[i].code);
    }
  }

  lemma {:induction false} FieldRoom(fields: seq<Field>, previous: nat)
    ensures |FieldBytes(fields, previous)| >= |fields|
  {
    hide Uleb;
    if fields != [] {
      FieldRoom(fields[1..], fields[0].index);
    }
  }

  lemma {:induction false} MethodRoom(off: Offsets, methods: seq<Method>, previous: nat)
    ensures |MethodBytes(off, methods, previous)| >= |methods|
    decreases |methods|
  {
    hide Uleb;
    if methods != [] {
      MethodRoom(off, methods[1..], methods[0].index);
    }
  }

  lemma {:induction false} DataRead(ir: Ir, file: seq<byte>, off: Offsets, d: Option<nat>)
    requires Holding(ir, file, off) && Closed(ir) && FileViews.Below(d, |ir.classDatas|)
    ensures ReadData(file, OffsetOrZero(off, ClassDatas, d)) == FileViews.DataOf(ir, d)
  {
    hide Holding, ReadClassData, ClassDataBytes, MethodViews, FileViews.MethodsOf, MethodEntries, ClosedMethods;
    LinkedOrNull(ir, file, off, ClassDatas, d);
    if d.Some? {
      var c, at := ir.classDatas[d.value], OffsetOrZero(off, ClassDatas, d);
      HoldingIsValid(ir, file, off);
      assert ClosedMethods(ir, c.directMethods) && ClosedMethods(ir, c.virtualMethods);
      hide Closed;
      var bytes := ClassDataBytes(off, c);
      assert Serialize(ir, off, Ref(ClassDatas, d.value)) == bytes;
      ClassDataRoom(off, c);
      assert file[at..] == bytes + file[at + |bytes|..];
      ClassDataIsRead(off, c, file[at + |bytes|..]);
      MethodsRead(ir, file, off, c.directMethods);
      MethodsRead(ir, file, off, c.virtualMethods);
    }
  }

  lemma {:induction false} ClassDataRoom(off: Offsets, c: ClassData)
    ensures |c.staticFields| + |c.instanceFields| + |c.directMethods| + |c.virtualMethods| <= |ClassDataBytes(off, c)|
  {
    hide Uleb, FieldBytes, MethodBytes;
    FieldRoom(c.staticFields, 0);
    FieldRoom(c.instanceFields, 0);
    MethodRoom(off, c.directMethods, 0);
    MethodRoom(off, c.virtualMethods, 0);
  }

  lemma {:induction false} TypeListItemRead(ir: Ir, file: seq<byte>, off: Offsets, l: Option<nat>)
    requires Holding(ir, file, off) && FileViews.Below(l, |ir.typeLists|)
    ensures ReadTypeList(file, OffsetOrZero(off, TypeLists, l)) == TypeListOf(ir, l)
  {
    hide FileHolds, WordAt, HalfAt, InsnBytes, Word;
    LinkedOrNull(ir, file, off, TypeLists, l);
    if l.Some? {
      TypeListRead(file, OffsetOrZero(off, TypeLists, l), ir.typeLists[l.value]);
    }
  }

  lemma {:induction false} ValuesItemRead(ir: Ir, file: seq<byte>, off: Offsets, a: Option<nat>)
    requires Holding(ir, file, off) && FileViews.Below(a, |ir.encodedArrays|)
    ensures ReadValues(TablesOf(ir), file, OffsetOrZero(off, EncodedArrays, a)) == ValuesOf(ir, a)
  {
    hide FileHolds, ReadValues, EncodedValues.WriteArray, EncodedValues.AllWellFormed;
    LinkedOrNull(ir, file, off, EncodedArrays, a);
    if a.Some? {
      ValuesRead(TablesOf(ir), file, OffsetOrZero(off, EncodedArrays, a), ir.encodedArrays[a.value]);
    } else {
      assert ReadValues(TablesOf(ir), file, 0) == Null by { NoValues(TablesOf(ir), file); }
    }
  }

  lemma {:induction false} NoValues(t: EncodedValues.Tables, file: seq<byte>)
    ensures ReadValues(t, file, 0) == Null
  {
  }

  lemma {:induction false} TableAt(start: nat, size: nat, i: nat)
    ensures TableOffset(start, size, i) == start + size * i
  {
    if i > 0 {
      TableAt(start, size, i - 1);
    }
  }

  // ---- the header and the map list

  /** A finished file whose offsets fit their fields. */
  ghost predicate Finished(ir: Ir, h: HeaderInfo, file: seq<byte>, off: Offsets, starts: map<Section, nat>, x: Extents,
      items: seq<MapItem>) {
    IsFile(ir, h, file, off, starts, x, items) && |file| < 0x1_0000_0000
  }

  lemma {:induction false} FinishedHolds(ir: Ir, h: HeaderInfo, file: seq<byte>, off: Offsets,
      starts: map<Section, nat>, x: Extents, items: seq<MapItem>)
    requires Finished(ir, h, file, off, starts, x, items)
    ensures Holding(ir, file, off) && IdTables(ir, off, starts) && |file| >= HEADER_SIZE && x.mapOffset < |file|
  {
    hide Valid, FileHolds, IdTables, Entries, MapBytes, HeaderBytes, StartsNoted, InSequence, OnWords, StartsUsed;
    HeaderLength(ir, h, starts, x);
    assert |MapBytes(items)| > 0;
  }

  /** Entry i of an id section is in the table that begins at the section's start. */
  lemma {:induction false} TableRead(ir: Ir, file: seq<byte>, off: Offsets, starts: map<Section, nat>, k: Section,
      i: nat)
    requires Holding(ir, file, off) && IdTables(ir, off, starts) && IsIdSection(k) && i < Count(ir, k)
    ensures k in starts && ReadsAs(file, starts[k] + IdSize(k) * i, Serialize(ir, off, Ref(k, i)))
    ensures |Serialize(ir, off, Ref(k, i))| == IdSize(k)
  {
    hide Valid, Serialize, FileHolds, ReadsAs;
    assert InTable(off, starts, k, i);
    TableAt(starts[k], IdSize(k), i);
    ItemIsRead(ir, file, off, Ref(k, i));
    IdSizeIsExact(ir, off, Ref(k, i));
  }

  lemma {:induction false} TableIsSmall(ir: Ir, file: seq<byte>, off: Offsets, starts: map<Section, nat>, k: Section)
    requires Holding(ir, file, off) && IdTables(ir, off, starts) && IsIdSection(k)
    ensures Count(ir, k) < 0x1_0000_0000 && (Count(ir, k) != 0 ==> StartOf(starts, k) < 0x1_0000_0000)
  {
    hide Holding, Serialize, IdTables;
    if Count(ir, k) != 0 {
      TableRead(ir, file, off, starts, k, Count(ir, k) - 1);
      HoldingIsValid(ir, file, off);
      assert IdSize(k) * (Count(ir, k) - 1) >= Count(ir, k) - 1;
    }
  }

  /** A file has no more items of a kind than bytes. */
  lemma {:induction false} CountIsSmall(ir: Ir, file: seq<byte>, off: Offsets, k: Section)
    requires Holding(ir, file, off)
    ensures Count(ir, k) <= |file|
  {
    hide Valid, Serialize, Aligned, Count;
    var n := Count(ir, k);
    assert forall i: nat :: i < n ==> Ref(k, i) in off;
    var s := seq(n, i requires 0 <= i < n => off[Ref(k, i)]);
    forall i, j | 0 <= i < j < n
      ensures s[i] != s[j]
    {
      ItemsAreNotEmpty(ir, off, Ref(k, i));
      ItemsAreNotEmpty(ir, off, Ref(k, j));
      assert Ref(k, i) != Ref(k, j);
    }
    forall v | v in s
      ensures v < |file|
    {
      var i :| 0 <= i < n && v == s[i];
      ItemsAreNotEmpty(ir, off, Ref(k, i));
      assert ReadsAs(file, off[Ref(k, i)], Serialize(ir, off, Ref(k, i)));
    }
    HotnessLayout.DistinctIsAtMost(s, |file|);
  }

  lemma {:induction false} StartIsSmall(ir: Ir, file: seq<byte>, off: Offsets, starts: map<Section, nat>, k: Section)
    requires Holding(ir, file, off) && StartsNoted(ir, off, starts) && Count(ir, k) != 0
    ensures StartOf(starts, k) <= |file|
  {
    hide Valid, Serialize, Aligned, StartsNoted;
    StartIsNoted(ir, off, starts, k);
    OrderIsPermutation(ir, k);
    var r := Ref(k, Order(ir, k)[0]);
    assert ReadsAs(file, off[r], Serialize(ir, off, r));
  }

  const ID_FIELDS: seq<(Section, nat)> := [(StringIds, 6), (TypeIds, 8), (ProtoIds, 10), (FieldIds, 12),
      (MethodIds, 14), (ClassDefs, 16)]

  /** The header has the size of each id section and, if it is not empty, its start. */
  lemma {:induction false} HeaderNames(ir: Ir, h: HeaderInfo, file: seq<byte>, off: Offsets, starts: map<Section, nat>,
      x: Extents, items: seq<MapItem>, f: nat)
    requires Finished(ir, h, file, off, starts, x, items) && f < |ID_FIELDS|
    ensures var (k, word) := ID_FIELDS[f];
            && |file| >= HEADER_SIZE && HEADER_WORDS + 4 * word + 8 <= HEADER_SIZE
            && WordAt(file, HEADER_WORDS + 4 * word) == Count(ir, k)
            && WordAt(file, HEADER_WORDS + 4 * word + 4) == if Count(ir, k) == 0 then 0 else StartOf(starts, k)
  {
    hide Valid, FileHolds, IdTables, Entries, MapBytes, HeaderBytes, WordAt, StartsNoted, InSequence, OnWords;
    FinishedHolds(ir, h, file, off, starts, x, items);
    var (k, word) := ID_FIELDS[f];
    TableIsSmall(ir, file, off, starts, k);
    assert HeaderWords(ir, h, starts, x)[word] == Count(ir, k)
        && HeaderWords(ir, h, starts, x)[word + 1] == StartOf(starts, k);
    HeaderIsRead(ir, h, starts, x, file, word);
    HeaderIsRead(ir, h, starts, x, file, word + 1);
  }

  // ---- the map list

  function FirstOf(items: seq<MapItem>, kind: nat): Link<(nat, nat)> {
    if items == [] then Null
    else if items[0].kind == kind then To((items[0].size, items[0].offset))
    else FirstOf(items[1..], kind)
  }

  lemma {:induction false} KindRead(e: MapItem, rest: seq<byte>)
    ensures HalfAt(Half(e.kind) + Half(0) + Word(e.size) + Word(e.offset) + rest, 0) == e.kind
  {
    hide HalfAt, Half, Word;
    var a, z, n, o := Half(e.kind), Half(0), Word(e.size), Word(e.offset);
    assert a + z + n + o + rest == [] + a + (z + n + o + rest);
    HalfBetween([], e.kind, z + n + o + rest);
  }

  /** The search over the list in the file finds what the list holds. */
  lemma {:induction false} EntriesSearched(file: seq<byte>, at: nat, items: seq<MapItem>, kind: nat)
    requires ReadsAs(file, at, ItemBytes(items))
    requires forall e :: e in items && e.kind == kind ==> e.size < 0x1_0000_0000 && e.offset < 0x1_0000_0000
    ensures at + 12 * |items| <= |file| && FindEntry(file, at, |items|, kind) == FirstOf(items, kind)
    decreases |items|
  {
    hide WordAt, HalfAt, Half, Word;
    if items != [] {
      var e, tail := items[0], items[1..];
      var entry := Half(e.kind) + Half(0) + Word(e.size) + Word(e.offset);
      var bytes, rest := ItemBytes(items), ItemBytes(tail);
      assert bytes == entry + rest;
      SubSlice(file, at, at + |bytes|, 12, |bytes|);
      assert (entry + rest)[12..] == rest;
      EntriesSearched(file, at + 12, tail, kind);
      KindRead(e, rest);
      HalfInFile(file, at, bytes, 0);
      if e.kind == kind {
        FirstEntryIsRead(e, rest);
        WordInFile(file, at, bytes, 4);
        WordInFile(file, at, bytes, 8);
      }
    }
  }

  lemma {:induction false} FirstOfIs(items: seq<MapItem>, e: MapItem)
    requires e in items && forall d :: d in items && d.kind == e.kind ==> d == e
    ensures FirstOf(items, e.kind) == To((e.size, e.offset))
  {
    if items[0].kind != e.kind {
      FirstOfIs(items[1..], e);
    }
  }

  lemma {:induction false} FirstOfNothing(items: seq<MapItem>, kind: nat)
    requires forall d :: d in items ==> d.kind != kind
    ensures FirstOf(items, kind) == Null
  {
    if items != [] {
      FirstOfNothing(items[1..], kind);
    }
  }

  lemma {:induction false} KindDetermines(ir: Ir, starts: map<Section, nat>, mapOffset: nat, items: seq<MapItem>,
      k: Section, e: MapItem)
    requires multiset(items) == multiset(Entries(ir, starts, mapOffset)) && e in items && e.kind == KindCode(k)
    ensures Count(ir, k) != 0 && e == MapItem(KindCode(k), Count(ir, k), StartOf(starts, k))
  {
    hide SectionEntries, KindCode;
    assert e in multiset(items);
    assert e in Entries(ir, starts, mapOffset);
    EntryOfSection(ir, starts, SECTIONS, e);
    var j :| j in SECTIONS && Count(ir, j) != 0 && e == MapItem(KindCode(j), Count(ir, j), StartOf(starts, j));
    KindCodesDiffer(j, k);
  }

  /** The header leads to the map, and its entries are searched one by one. */
  lemma {:induction false} MapIsSearched(ir: Ir, h: HeaderInfo, file: seq<byte>, off: Offsets,
      starts: map<Section, nat>, x: Extents, items: seq<MapItem>, kind: nat)
    requires Finished(ir, h, file, off, starts, x, items)
    requires forall e :: e in items && e.kind == kind ==> e.size < 0x1_0000_0000 && e.offset < 0x1_0000_0000
    ensures InMap(file, kind) == FirstOf(items, kind)
  {
    hide Valid, FileHolds, IdTables, Entries, ItemBytes, HeaderBytes, WordAt, FirstOf, StartsNoted,
        InSequence, OnWords, StartsUsed;
    FinishedHolds(ir, h, file, off, starts, x, items);
    HeaderIsRead(ir, h, starts, x, file, 5);
    var at := x.mapOffset;
    MapLength(items);
    CountRead(file, at, |items|, ItemBytes(items));
    SubSlice(file, at, at + |MapBytes(items)|, 4, |MapBytes(items)|);
    assert (Word(|items|) + ItemBytes(items))[4..] == ItemBytes(items);
    EntriesSearched(file, at + 4, items, kind);
  }

  lemma {:induction false} KindsAgree(k: Section)
    ensures MapKind(k) == KindCode(k)
  {
  }

  /** Size and start of a section, from the map list; nothing if the section is empty. */
  lemma {:induction false} MapNames(ir: Ir, h: HeaderInfo, file: seq<byte>, off: Offsets, starts: map<Section, nat>,
      x: Extents, items: seq<MapItem>, k: Section)
    requires Finished(ir, h, file, off, starts, x, items)
    ensures InMap(file, MapKind(k)) == if Count(ir, k) == 0 then Null else To((Count(ir, k), StartOf(starts, k)))
  {
    KindsAgree(k);
    hide MapKind, Valid, FileHolds, IdTables, Entries, HeaderBytes, KindCode, InMap, FirstOf, ReadsAs, StartsNoted,
        InSequence, OnWords, StartsUsed;
    FinishedHolds(ir, h, file, off, starts, x, items);
    CountIsSmall(ir, file, off, k);
    if Count(ir, k) != 0 {
      StartIsSmall(ir, file, off, starts, k);
    }
    forall e | e in items && e.kind == KindCode(k)
      ensures Count(ir, k) != 0 && e == MapItem(KindCode(k), Count(ir, k), StartOf(starts, k))
    {
      KindDetermines(ir, starts, x.mapOffset, items, k, e);
    }
    MapIsSearched(ir, h, file, off, starts, x, items, KindCode(k));
    if Count(ir, k) == 0 {
      FirstOfNothing(items, KindCode(k));
    } else {
      EntryIsListed(ir, starts, x.mapOffset, k, items);
      FirstOfIs(items, MapItem(KindCode(k), Count(ir, k), StartOf(starts, k)));
    }
  }

  lemma {:induction false} MapLength(items: seq<MapItem>)
    ensures |ItemBytes(items)| == 12 * |items|
  {
    if items != [] {
      MapLength(items[1..]);
    }
  }

  // ---- the whole file

  lemma {:induction false} TablesRead(ir: Ir, h: HeaderInfo, file: seq<byte>, off: Offsets, starts: map<Section, nat>,
      x: Extents, items: seq<MapItem>)
    requires Finished(ir, h, file, off, starts, x, items)
    ensures |file| >= HEADER_SIZE && TablesIn(file) == TablesOf(ir)
  {
    hide Finished, WordAt, InMap;
    HeaderNames(ir, h, file, off, starts, x, items, 0);
    HeaderNames(ir, h, file, off, starts, x, items, 1);
    HeaderNames(ir, h, file, off, starts, x, items, 2);
    HeaderNames(ir, h, file, off, starts, x, items, 3);
    HeaderNames(ir, h, file, off, starts, x, items, 4);
    MapNames(ir, h, file, off, starts, x, items, MethodHandles);
  }

  lemma {:induction false} ClassDefFound(file: seq<byte>, at: nat, off: Offsets, c: ClassDef)
    requires ReadsAs(file, at, ClassDefBytes(off, c))
    ensures at + 32 <= |file| && WordAt(file, at) == c.classType && WordAt(file, at + 4) == c.accessFlags
    ensures c.superclass != Some(0xffff_ffff) ==> IndexAt(file, at + 8) == IndexOf(c.superclass)
    ensures c.sourceFile != Some(0xffff_ffff) ==> IndexAt(file, at + 16) == IndexOf(c.sourceFile)
    ensures WordAt(file, at + 12) == OffsetOrZero(off, TypeLists, c.interfaces)
        && WordAt(file, at + 20) == OffsetOrZero(off, Directories, c.annotations)
    ensures WordAt(file, at + 24) == OffsetOrZero(off, ClassDatas, c.classData)
    ensures WordAt(file, at + 28) == OffsetOrZero(off, EncodedArrays, c.staticValues)
  {
    hide WordAt, ClassDefBytes, OffsetOrZero;
    var bytes := ClassDefBytes(off, c);
    ClassDefIsRead(off, c, bytes);
    WordInFile(file, at, bytes, 0);
    WordInFile(file, at, bytes, 4);
    WordInFile(file, at, bytes, 8);
    WordInFile(file, at, bytes, 12);
    WordInFile(file, at, bytes, 16);
    WordInFile(file, at, bytes, 20);
    WordInFile(file, at, bytes, 24);
    WordInFile(file, at, bytes, 28);
  }

  /** Class definition i of a written file, read from its bytes alone with everything it leads to, is class
      definition i of the representation with everything it refers to. */
  lemma {:induction false} ClassIsRead(ir: Ir, h: HeaderInfo, file: seq<byte>, off: Offsets, starts: map<Section, nat>,
      x: Extents, items: seq<MapItem>, i: nat)
    requires Finished(ir, h, file, off, starts, x, items) && Closed(ir) && i < |ir.classDefs|
    ensures ReadClass(file, i) == To(ClassOf(ir, i))
  {
    hide Finished, Holding, WordAt, TablesIn, ReadTypeList, ReadDirectory, ReadData, ReadValues, TypeListOf,
        DirectoryOf, FileViews.DataOf, ValuesOf, ClassDefBytes, OffsetOrZero, IndexAt, IndexOf, IdTables;
    FinishedHolds(ir, h, file, off, starts, x, items);
    HoldingIsValid(ir, file, off);
    TablesRead(ir, h, file, off, starts, x, items);
    HeaderNames(ir, h, file, off, starts, x, items, 5);
    TableRead(ir, file, off, starts, ClassDefs, i);
    var c, at := ir.classDefs[i], starts[ClassDefs] + 32 * i;
    assert Serialize(ir, off, Ref(ClassDefs, i)) == ClassDefBytes(off, c);
    ClassDefFound(file, at, off, c);
    TypeListItemRead(ir, file, off, c.interfaces);
    DirectoryRead(ir, file, off, c.annotations);
    DataRead(ir, file, off, c.classData);
    ValuesItemRead(ir, file, off, c.staticValues);
  }

  /** The same for the prototypes with their parameter lists. */
  lemma {:induction false} ProtoIsRead(ir: Ir, h: HeaderInfo, file: seq<byte>, off: Offsets, starts: map<Section, nat>,
      x: Extents, items: seq<MapItem>, i: nat)
    requires Finished(ir, h, file, off, starts, x, items) && i < |ir.protoIds|
        && FileViews.Below(ir.protoIds[i].parameters, |ir.typeLists|)
    ensures ReadProto(file, i) == To(ProtoOf(ir, i))
  {
    hide Finished, Holding, WordAt, ReadTypeList, TypeListOf, OffsetOrZero, Word, IdTables;
    FinishedHolds(ir, h, file, off, starts, x, items);
    HoldingIsValid(ir, file, off);
    HeaderNames(ir, h, file, off, starts, x, items, 2);
    TableRead(ir, file, off, starts, ProtoIds, i);
    var p, at := ir.protoIds[i], starts[ProtoIds] + 12 * i;
    var parameters := OffsetOrZero(off, TypeLists, p.parameters);
    var bytes := Word(p.shorty) + Word(p.returnType) + Word(parameters);
    assert Serialize(ir, off, Ref(ProtoIds, i)) == bytes;
    ProtoIdIsRead(p, parameters, bytes);
    WordInFile(file, at, bytes, 0);
    WordInFile(file, at, bytes, 4);
    WordInFile(file, at, bytes, 8);
    TypeListItemRead(ir, file, off, p.parameters);
  }

  lemma {:induction false} MemberFound(file: seq<byte>, at: nat, classType: uint16, second: uint16, name: uint32)
    requires ReadsAs(file, at, Half(classType) + Half(second) + Word(name))
    ensures at + 8 <= |file| && HalfAt(file, at) == classType && HalfAt(file, at + 2) == second
        && WordAt(file, at + 4) == name
  {
    hide WordAt, HalfAt, Half, Word;
    var bytes := Half(classType) + Half(second) + Word(name);
    MemberIdIsRead(classType, second, name, bytes);
    HalfInFile(file, at, bytes, 0);
    HalfInFile(file, at, bytes, 2);
    WordInFile(file, at, bytes, 4);
  }

  lemma {:induction false} FieldIdIsRead(ir: Ir, h: HeaderInfo, file: seq<byte>, off: Offsets,
      starts: map<Section, nat>, x: Extents, items: seq<MapItem>, i: nat)
    requires Finished(ir, h, file, off, starts, x, items) && i < |ir.fieldIds|
    ensures var f := ir.fieldIds[i];
            ReadMemberId(file, FIELD_IDS_OFFSET_FIELD, i) == To((f.classType, f.fieldType, f.name))
  {
    hide Finished, Holding, WordAt, HalfAt, Half, Word, IdTables;
    FinishedHolds(ir, h, file, off, starts, x, items);
    HoldingIsValid(ir, file, off);
    var f := ir.fieldIds[i];
    HeaderNames(ir, h, file, off, starts, x, items, 3);
    TableRead(ir, file, off, starts, FieldIds, i);
    assert Serialize(ir, off, Ref(FieldIds, i)) == Half(f.classType) + Half(f.fieldType) + Word(f.name);
    MemberFound(file, starts[FieldIds] + 8 * i, f.classType, f.fieldType, f.name);
  }

  lemma {:induction false} MethodIdIsRead(ir: Ir, h: HeaderInfo, file: seq<byte>, off: Offsets,
      starts: map<Section, nat>, x: Extents, items: seq<MapItem>, i: nat)
    requires Finished(ir, h, file, off, starts, x, items) && i < |ir.methodIds|
    ensures var m := ir.methodIds[i];
            ReadMemberId(file, METHOD_IDS_OFFSET_FIELD, i) == To((m.classType, m.proto, m.name))
  {
    hide Finished, Holding, WordAt, HalfAt, Half, Word, IdTables;
    FinishedHolds(ir, h, file, off, starts, x, items);
    HoldingIsValid(ir, file, off);
    var m := ir.methodIds[i];
    HeaderNames(ir, h, file, off, starts, x, items, 4);
    TableRead(ir, file, off, starts, MethodIds, i);
    assert Serialize(ir, off, Ref(MethodIds, i)) == Half(m.classType) + Half(m.proto) + Word(m.name);
    MemberFound(file, starts[MethodIds] + 8 * i, m.classType, m.proto, m.name);
  }

  lemma {:induction false} TypeIsRead(ir: Ir, h: HeaderInfo, file: seq<byte>, off: Offsets, starts: map<Section, nat>,
      x: Extents, items: seq<MapItem>, i: nat)
    requires Finished(ir, h, file, off, starts, x, items) && i < |ir.typeIds|
    ensures ReadType(file, i) == To(ir.typeIds[i])
  {
    hide Finished, Holding, WordAt, Word, IdTables;
    FinishedHolds(ir, h, file, off, starts, x, items);
    HoldingIsValid(ir, file, off);
    HeaderNames(ir, h, file, off, starts, x, items, 1);
    TableRead(ir, file, off, starts, TypeIds, i);
    var bytes := Word(ir.typeIds[i]);
    assert Serialize(ir, off, Ref(TypeIds, i)) == bytes == bytes + [];
    CountRead(file, starts[TypeIds] + 4 * i, ir.typeIds[i], []);
  }

  /** The same for field and method ids. */
  lemma {:induction false} MemberIdsAreRead(ir: Ir, h: HeaderInfo, file: seq<byte>, off: Offsets,
      starts: map<Section, nat>, x: Extents, items: seq<MapItem>, i: nat)
    requires Finished(ir, h, file, off, starts, x, items)
    ensures i < |ir.fieldIds| ==>
              ReadMemberId(file, FIELD_IDS_OFFSET_FIELD, i)
                  == To((ir.fieldIds[i].classType, ir.fieldIds[i].fieldType, ir.fieldIds[i].name))
    ensures i < |ir.methodIds| ==>
              ReadMemberId(file, METHOD_IDS_OFFSET_FIELD, i)
                  == To((ir.methodIds[i].classType, ir.methodIds[i].proto, ir.methodIds[i].name))
  {
    hide Finished, ReadMemberId;
    if i < |ir.fieldIds| {
      FieldIdIsRead(ir, h, file, off, starts, x, items, i);
    }
    if i < |ir.methodIds| {
      MethodIdIsRead(ir, h, file, off, starts, x, items, i);
    }
  }

  /** Method handles and call sites have no place in the header and are found through the map list. */
  lemma {:induction false} HandlesAreRead(ir: Ir, h: HeaderInfo, file: seq<byte>, off: Offsets,
      starts: map<Section, nat>, x: Extents, items: seq<MapItem>, i: nat)
    requires Finished(ir, h, file, off, starts, x, items) && i < |ir.methodHandles|
    ensures ReadMethodHandle(file, i) == To((ir.methodHandles[i].kind, ir.methodHandles[i].target))
  {
    hide Finished, Holding, WordAt, HalfAt, Half, InMap, IdTables;
    FinishedHolds(ir, h, file, off, starts, x, items);
    HoldingIsValid(ir, file, off);
    MapNames(ir, h, file, off, starts, x, items, MethodHandles);
    TableRead(ir, file, off, starts, MethodHandles, i);
    var m, at := ir.methodHandles[i], starts[MethodHandles] + 8 * i;
    var bytes := Half(m.kind) + Half(0) + Half(m.target) + Half(0);
    assert Serialize(ir, off, Ref(MethodHandles, i)) == bytes;
    MethodHandleIsRead(m, bytes);
    HalfInFile(file, at, bytes, 0);
    HalfInFile(file, at, bytes, 4);
  }

  lemma {:induction false} CallSitesAreRead(ir: Ir, h: HeaderInfo, file: seq<byte>, off: Offsets,
      starts: map<Section, nat>, x: Extents, items: seq<MapItem>, i: nat)
    requires Finished(ir, h, file, off, starts, x, items) && i < |ir.callSiteIds|
        && ir.callSiteIds[i] < |ir.encodedArrays|
    ensures ReadCallSite(file, i) == To(ir.encodedArrays[ir.callSiteIds[i]])
  {
    hide Finished, Holding, WordAt, Word, InMap, IdTables, ReadValues, TablesIn;
    FinishedHolds(ir, h, file, off, starts, x, items);
    HoldingIsValid(ir, file, off);
    TablesRead(ir, h, file, off, starts, x, items);
    MapNames(ir, h, file, off, starts, x, items, CallSiteIds);
    TableRead(ir, file, off, starts, CallSiteIds, i);
    var target := OffsetOf(off, Ref(EncodedArrays, ir.callSiteIds[i]));
    assert Serialize(ir, off, Ref(CallSiteIds, i)) == Word(target);
    assert Word(target) + [] == Word(target);
    CountRead(file, starts[CallSiteIds] + 4 * i, target, []);
    ValuesItemRead(ir, file, off, Some(ir.callSiteIds[i]));
  }

  // ---- the head of the file

  /** What the words of the header say of the file, and what the map list says of header and map list. */
  ghost predicate HeadReads(ir: Ir, h: HeaderInfo, file: seq<byte>) {
    && |file| >= HEADER_SIZE && file[..8] == h.magic && WordAt(file, 8) == h.checksum && file[12..32] == h.signature
    && WordAt(file, 32) == |file| && WordAt(file, 36) == 0x70 && WordAt(file, 40) == h.endianTag
    && WordAt(file, 44) == |ir.linkData| && (ir.linkData != [] ==> ReadsAs(file, WordAt(file, 48), ir.linkData))
    && WordAt(file, 108) + WordAt(file, 104) + |ir.linkData| == |file|
    && InMap(file, 0x0000) == To((1, 0)) && InMap(file, 0x1000) == To((1, WordAt(file, 52)))
    && TableReads(file, 56, |ir.stringIds|) && TableReads(file, 64, |ir.typeIds|) && TableReads(file, 72, |ir.protoIds|)
    && TableReads(file, 80, |ir.fieldIds|) && TableReads(file, 88, |ir.methodIds|)
    && TableReads(file, 96, |ir.classDefs|)
  }

  /** The header has the size of the table and, if it is empty, no offset. */
  ghost predicate TableReads(file: seq<byte>, field: nat, n: nat)
    requires field + 8 <= |file|
  {
    WordAt(file, field) == n && (WordAt(file, field + 4) == 0 <==> n == 0)
  }

  lemma {:induction false} HeadIsRead(ir: Ir, h: HeaderInfo, file: seq<byte>, off: Offsets, starts: map<Section, nat>,
      x: Extents, items: seq<MapItem>)
    requires Finished(ir, h, file, off, starts, x, items)
    ensures HeadReads(ir, h, file)
  {
    hide Valid, FileHolds, IdTables, Entries, MapBytes, HeaderBytes, WordAt, InMap, StartsNoted, ReadsAs, InSequence,
        OnWords, StartsUsed, TableReads;
    FinishedHolds(ir, h, file, off, starts, x, items);
    var words := HeaderWords(ir, h, starts, x);
    assert words[0] == |file| && words[1] == 0x70 && words[2] == h.endianTag && words[3] == |ir.linkData|;
    assert words[4] == x.linkOffset && words[5] == x.mapOffset && words[18] == x.dataSize && words[19] == x.dataOffset;
    HeaderIsRead(ir, h, starts, x, file, 0);
    HeaderIsRead(ir, h, starts, x, file, 1);
    HeaderIsRead(ir, h, starts, x, file, 2);
    HeaderIsRead(ir, h, starts, x, file, 3);
    HeaderIsRead(ir, h, starts, x, file, 5);
    HeaderIsRead(ir, h, starts, x, file, 18);
    HeaderIsRead(ir, h, starts, x, file, 19);
    if ir.linkData != [] {
      LinkIsInside(file, x.linkOffset, ir.linkData);
      HeaderIsRead(ir, h, starts, x, file, 4);
    }
    FrontIsRead(ir, h, starts, x, file);
    TablesAreRead(ir, h, file, off, starts, x, items);
    OwnEntries(ir, h, file, off, starts, x, items);
  }

  lemma {:induction false} TableIsRead(ir: Ir, h: HeaderInfo, file: seq<byte>, off: Offsets, starts: map<Section, nat>,
      x: Extents, items: seq<MapItem>, f: nat)
    requires Finished(ir, h, file, off, starts, x, items) && f < |ID_FIELDS|
    ensures HEADER_WORDS + 4 * ID_FIELDS[f].1 + 8 <= |file|
        && TableReads(file, HEADER_WORDS + 4 * ID_FIELDS[f].1, Count(ir, ID_FIELDS[f].0))
  {
    hide Valid, FileHolds, Entries, MapBytes, HeaderBytes, WordAt, InSequence, OnWords, StartsUsed, ReadsAs;
    HeaderNames(ir, h, file, off, starts, x, items, f);
    var k := ID_FIELDS[f].0;
    if Count(ir, k) != 0 {
      FinishedHolds(ir, h, file, off, starts, x, items);
      StartIsBehind(ir, file, off, starts, k);
    }
  }

  lemma {:induction false} StartIsBehind(ir: Ir, file: seq<byte>, off: Offsets, starts: map<Section, nat>, k: Section)
    requires Holding(ir, file, off) && IdTables(ir, off, starts) && IsIdSection(k) && Count(ir, k) != 0
    ensures StartOf(starts, k) != 0
  {
    hide Valid, Serialize, Aligned, Count;
    assert InTable(off, starts, k, 0);
    assert Ref(k, 0) in off && off[Ref(k, 0)] >= HEADER_SIZE;
  }

  lemma {:induction false} TablesAreRead(ir: Ir, h: HeaderInfo, file: seq<byte>, off: Offsets,
      starts: map<Section, nat>, x: Extents, items: seq<MapItem>)
    requires Finished(ir, h, file, off, starts, x, items)
    ensures |file| >= HEADER_SIZE
    ensures TableReads(file, 56, |ir.stringIds|) && TableReads(file, 64, |ir.typeIds|)
        && TableReads(file, 72, |ir.protoIds|) && TableReads(file, 80, |ir.fieldIds|)
        && TableReads(file, 88, |ir.methodIds|) && TableReads(file, 96, |ir.classDefs|)
  {
    hide Finished, TableReads;
    HeaderNames(ir, h, file, off, starts, x, items, 0);
    TableIsRead(ir, h, file, off, starts, x, items, 0);
    TableIsRead(ir, h, file, off, starts, x, items, 1);
    TableIsRead(ir, h, file, off, starts, x, items, 2);
    TableIsRead(ir, h, file, off, starts, x, items, 3);
    TableIsRead(ir, h, file, off, starts, x, items, 4);
    TableIsRead(ir, h, file, off, starts, x, items, 5);
  }

  lemma {:induction false} LinkIsInside(file: seq<byte>, at: nat, link: seq<byte>)
    requires ReadsAs(file, at, link) && link != []
    ensures at < |file|
  {
  }

  lemma {:induction false} FrontIsRead(ir: Ir, h: HeaderInfo, starts: map<Section, nat>, x: Extents, file: seq<byte>)
    requires |h.magic| == 8 && |h.signature| == 20 && ReadsAs(file, 0, HeaderBytes(ir, h, starts, x))
    ensures |file| >= HEADER_SIZE && file[..8] == h.magic && WordAt(file, 8) == h.checksum
        && file[12..32] == h.signature
  {
    hide LeBytes, LeValue, Words, HeaderWords;
    var all := HeaderBytes(ir, h, starts, x);
    HeaderLength(ir, h, starts, x);
    assert file[..HEADER_SIZE] == all;
    assert all[..8] == h.magic && all[8..12] == Word(h.checksum) && all[12..32] == h.signature;
    assert file[..8] == all[..8] && file[8..12] == all[8..12] && file[12..32] == all[12..32];
    WordRoundTrip(h.checksum);
  }

  /** Header and map list are in the list too. */
  lemma {:induction false} OwnEntries(ir: Ir, h: HeaderInfo, file: seq<byte>, off: Offsets, starts: map<Section, nat>,
      x: Extents, items: seq<MapItem>)
    requires Finished(ir, h, file, off, starts, x, items)
    ensures InMap(file, 0x0000) == To((1, 0)) && InMap(file, 0x1000) == To((1, x.mapOffset))
  {
    hide Valid, FileHolds, IdTables, HeaderBytes, InMap, FirstOf, ReadsAs, StartsNoted, MapBytes, SectionEntries,
        KindCode, InSequence, OnWords, StartsUsed;
    FinishedHolds(ir, h, file, off, starts, x, items);
    var own := [MapItem(HEADER_KIND, 1, 0), MapItem(MAP_LIST_KIND, 1, x.mapOffset)];
    forall e | e in items && (e.kind == HEADER_KIND || e.kind == MAP_LIST_KIND)
      ensures e in own
    {
      assert e in multiset(items);
      assert e in Entries(ir, starts, x.mapOffset);
      if e !in own {
        EntryOfSection(ir, starts, SECTIONS, e);
      }
    }
    assert own[0] in multiset(Entries(ir, starts, x.mapOffset)) && own[1] in multiset(Entries(ir, starts, x.mapOffset));
    assert own[0] in items && own[1] in items;
    MapIsSearched(ir, h, file, off, starts, x, items, 0x0000);
    MapIsSearched(ir, h, file, off, starts, x, items, 0x1000);
    FirstOfIs(items, own[0]);
    FirstOfIs(items, own[1]);
  }
}
