/**
 Reading the fields of written items at the places the DEX format gives them.
 */
module ItemReaders {
  import opened Leb128
  import opened Streams
  import opened CatchHandlers
  import opened CodeItems
  import opened DexIr
  import opened MapLists

  function WordAt(s: seq<byte>, pos: nat): nat
    requires pos + 4 <= |s|
  {
    LeValue(s[pos..pos + 4])
  }

  function HalfAt(s: seq<byte>, pos: nat): nat
    requires pos + 2 <= |s|
  {
    LeValue(s[pos..pos + 2])
  }

  lemma {:induction false} HalfRoundTrip(v: nat)
    requires v < 0x1_0000
    ensures LeValue(LeBytes(v, 2)) == v
  {
    assert Pow8(2) == 0x1_0000;
    LeRoundTrip(v, 2);
  }

  /** A field that lies between two others is read at its place. */
  lemma {:induction false} WordBetween(front: seq<byte>, v: nat, back: seq<byte>)
    requires v < 0x1_0000_0000
    ensures WordAt(front + Word(v) + back, |front|) == v
  {
    hide LeBytes, LeValue;
    var s := front + Word(v) + back;
    assert s[|front|..|front| + 4] == Word(v);
    WordRoundTrip(v);
  }

  lemma {:induction false} HalfBetween(front: seq<byte>, v: nat, back: seq<byte>)
    requires v < 0x1_0000
    ensures HalfAt(front + Half(v) + back, |front|) == v
  {
    hide LeBytes, LeValue;
    var s := front + Half(v) + back;
    assert s[|front|..|front| + 2] == Half(v);
    HalfRoundTrip(v);
  }

  // ---- fixed-size items

  lemma {:induction false} ProtoIdIsRead(p: ProtoId, parametersOff: uint32, s: seq<byte>)
    requires s == Word(p.shorty) + Word(p.returnType) + Word(parametersOff)
    ensures WordAt(s, 0) == p.shorty && WordAt(s, 4) == p.returnType && WordAt(s, 8) == parametersOff
  {
    hide LeBytes, LeValue, Word;
    var a, b, c := Word(p.shorty), Word(p.returnType), Word(parametersOff);
    assert s == [] + a + (b + c) == a + b + c == (a + b) + c + [];
    WordBetween([], p.shorty, b + c);
    WordBetween(a, p.returnType, c);
    WordBetween(a + b, parametersOff, []);
  }

  /** Field and method ids: two 16-bit indices, then the name. */
  lemma {:induction false} MemberIdIsRead(classType: uint16, second: uint16, name: uint32, s: seq<byte>)
    requires s == Half(classType) + Half(second) + Word(name)
    ensures HalfAt(s, 0) == classType && HalfAt(s, 2) == second && WordAt(s, 4) == name
  {
    hide LeBytes, LeValue, Word, Half;
    var a, b, c := Half(classType), Half(second), Word(name);
    assert s == [] + a + (b + c) == a + b + c == (a + b) + c + [];
    HalfBetween([], classType, b + c);
    HalfBetween(a, second, c);
    WordBetween(a + b, name, []);
  }

  /** A class definition, as its eight words. */
  lemma {:induction false} ClassDefIsRead(off: Offsets, c: ClassDef, s: seq<byte>)
    requires s == ClassDefBytes(off, c)
    ensures WordAt(s, 0) == c.classType && WordAt(s, 4) == c.accessFlags
    ensures WordAt(s, 8) == IndexOrNone(c.superclass) && WordAt(s, 12) == OffsetOrZero(off, TypeLists, c.interfaces)
    ensures WordAt(s, 16) == IndexOrNone(c.sourceFile) && WordAt(s, 20) == OffsetOrZero(off, Directories, c.annotations)
    ensures WordAt(s, 24) == OffsetOrZero(off, ClassDatas, c.classData)
    ensures WordAt(s, 28) == OffsetOrZero(off, EncodedArrays, c.staticValues)
  {
    hide WordAt, Words, IndexOrNone, OffsetOrZero;
    var f: seq<nat> := [c.classType, c.accessFlags, IndexOrNone(c.superclass),
                        OffsetOrZero(off, TypeLists, c.interfaces), IndexOrNone(c.sourceFile),
                        OffsetOrZero(off, Directories, c.annotations), OffsetOrZero(off, ClassDatas, c.classData),
                        OffsetOrZero(off, EncodedArrays, c.staticValues)];
    forall i | 0 <= i < 8
      ensures WordAt(Words(f), 4 * i) == f[i]
    {
      WordInArray(f, i);
    }
    assert WordAt(s, 4 * 0) == f[0] && WordAt(s, 4 * 1) == f[1] && WordAt(s, 4 * 2) == f[2] && WordAt(s, 4 * 3) == f[3];
    assert WordAt(s, 4 * 4) == f[4] && WordAt(s, 4 * 5) == f[5] && WordAt(s, 4 * 6) == f[6] && WordAt(s, 4 * 7) == f[7];
  }

  lemma {:induction false} WordInArray(values: seq<nat>, i: nat)
    requires i < |values| && values[i] < 0x1_0000_0000
    ensures WordAt(Words(values), 4 * i) == values[i]
  {
    hide LeBytes, LeValue, Words;
    WordsAt(values, i);
    WordRoundTrip(values[i]);
  }

  lemma {:induction false} MethodHandleIsRead(h: MethodHandle, s: seq<byte>)
    requires s == Half(h.kind) + Half(0) + Half(h.target) + Half(0)
    ensures HalfAt(s, 0) == h.kind && HalfAt(s, 4) == h.target
  {
    hide LeBytes, LeValue, Half;
    var a, z, b := Half(h.kind), Half(0), Half(h.target);
    assert s == [] + a + (z + b + z) == (a + z) + b + z;
    HalfBetween([], h.kind, z + b + z);
    HalfBetween(a + z, h.target, z);
  }

  /** A map list entry: type, an unused field, size and offset. */
  lemma {:induction false} FirstEntryIsRead(e: MapItem, rest: seq<byte>)
    requires e.size < 0x1_0000_0000 && e.offset < 0x1_0000_0000
    ensures var s := Half(e.kind) + Half(0) + Word(e.size) + Word(e.offset) + rest;
            HalfAt(s, 0) == e.kind && WordAt(s, 4) == e.size && WordAt(s, 8) == e.offset
  {
    hide LeBytes, LeValue, Half, Word;
    var a, z, n, o := Half(e.kind), Half(0), Word(e.size), Word(e.offset);
    var s := a + z + n + o + rest;
    assert s == [] + a + (z + n + o + rest) == (a + z) + n + (o + rest) == (a + z + n) + o + rest;
    HalfBetween([], e.kind, z + n + o + rest);
    WordBetween(a + z, e.size, o + rest);
    WordBetween(a + z + n, e.offset, rest);
  }

  // ---- lists

  lemma {:induction false} DirectoryHeadIsRead(off: Offsets, d: Directory)
    requires |d.fields| < 0x1_0000_0000 && |d.methods| < 0x1_0000_0000 && |d.parameters| < 0x1_0000_0000
    ensures var s := Words(DirectoryWords(off, d));
            && WordAt(s, 0) == OffsetOrZero(off, AnnotationSets, d.classAnnotation)
            && WordAt(s, 4) == |d.fields| && WordAt(s, 8) == |d.methods| && WordAt(s, 12) == |d.parameters|
  {
    hide Words, WordAt, EntryWords;
    var w := DirectoryWords(off, d);
    WordInArray(w, 0);
    WordInArray(w, 1);
    WordInArray(w, 2);
    WordInArray(w, 3);
  }

  /** Entry j of a directory names this member and this offset. */
  predicate EntryAt(s: seq<byte>, j: nat, index: nat, offset: nat) {
    16 + 8 * j + 8 <= |s| && WordAt(s, 16 + 8 * j) == index && WordAt(s, 16 + 8 * j + 4) == offset
  }

  /** Entry j of a directory that has this list of entries after `before` others. */
  lemma {:induction false} EntryIsRead(off: Offsets, k: Section, entries: seq<Entry>, w: seq<nat>, before: nat, j: nat)
    requires j < |entries| && 4 + 2 * before + 2 * |entries| <= |w|
    requires w[4 + 2 * before..4 + 2 * before + 2 * |entries|] == EntryWords(off, k, entries)
    ensures EntryAt(Words(w), before + j, entries[j].index, OffsetOf(off, Ref(k, entries[j].target)))
  {
    hide Words, WordAt, EntryWords;
    var at := 4 + 2 * before;
    var part := w[at..at + 2 * |entries|];
    EntryWordsAt(off, k, entries, j);
    assert w[at + 2 * j] == part[2 * j] && w[at + 2 * j + 1] == part[2 * j + 1];
    WordInArray(w, at + 2 * j);
    WordInArray(w, at + 2 * j + 1);
    assert 4 * (at + 2 * j) == 16 + 8 * (before + j) && 4 * (at + 2 * j + 1) == 16 + 8 * (before + j) + 4;
  }

  lemma {:induction false} EntryWordsAt(off: Offsets, k: Section, entries: seq<Entry>, j: nat)
    requires j < |entries|
    ensures EntryWords(off, k, entries)[2 * j] == entries[j].index
    ensures EntryWords(off, k, entries)[2 * j + 1] == OffsetOf(off, Ref(k, entries[j].target))
  {
    assert (2 * j) % 2 == 0 && (2 * j) / 2 == j && (2 * j + 1) % 2 == 1 && (2 * j + 1) / 2 == j;
  }

  /** Field, method and parameter annotations follow one another in this order. */
  lemma {:induction false} DirectoryIsRead(off: Offsets, d: Directory, j: nat)
    ensures var s, f, m := Words(DirectoryWords(off, d)), |d.fields|, |d.methods|;
            && (j < f ==> EntryAt(s, j, d.fields[j].index, OffsetOf(off, Ref(AnnotationSets, d.fields[j].target))))
            && (j < m ==>
                  EntryAt(s, f + j, d.methods[j].index, OffsetOf(off, Ref(AnnotationSets, d.methods[j].target))))
            && (j < |d.parameters| ==>
                  EntryAt(s, f + m + j, d.parameters[j].index, OffsetOf(off, Ref(SetRefLists, d.parameters[j].target))))
  {
    hide Words, WordAt, EntryWords, OffsetOf;
    var w, f, m, p := DirectoryWords(off, d), |d.fields|, |d.methods|, |d.parameters|;
    assert w[4..4 + 2 * f] == EntryWords(off, AnnotationSets, d.fields);
    assert w[4 + 2 * f..4 + 2 * f + 2 * m] == EntryWords(off, AnnotationSets, d.methods);
    assert w[4 + 2 * (f + m)..4 + 2 * (f + m) + 2 * p] == EntryWords(off, SetRefLists, d.parameters);
    if j < f { EntryIsRead(off, AnnotationSets, d.fields, w, 0, j); }
    if j < m { EntryIsRead(off, AnnotationSets, d.methods, w, f, j); }
    if j < p { EntryIsRead(off, SetRefLists, d.parameters, w, f + m, j); }
  }

  lemma {:induction false} TypeListIsRead(types: seq<uint16>, i: nat)
    requires |types| < 0x1_0000_0000 && i < |types|
    ensures var s := Word(|types|) + InsnBytes(types);
            WordAt(s, 0) == |types| && HalfAt(s, 4 + 2 * i) == types[i]
  {
    hide LeBytes, LeValue, InsnBytes;
    var s := Word(|types|) + InsnBytes(types);
    assert s == [] + Word(|types|) + InsnBytes(types);
    WordBetween([], |types|, InsnBytes(types));
    HalvesAt(types, i);
    assert s[4 + 2 * i..4 + 2 * i + 2] == InsnBytes(types)[2 * i..2 * i + 2];
    HalfRoundTrip(types[i]);
  }

  // ---- code items

  lemma {:induction false} CodeHeadIsRead(c: CodeItem, debugOffset: uint32, s: seq<byte>)
    requires |c.insns| < 0x1_0000_0000 && |c.tries| < 0x1_0000 && s == HeadBytes(c, debugOffset)
    ensures HalfAt(s, 0) == c.registers && HalfAt(s, 2) == c.ins && HalfAt(s, 4) == c.outs && HalfAt(s, 6) == |c.tries|
    ensures WordAt(s, 8) == debugOffset && WordAt(s, 12) == |c.insns|
  {
    hide LeBytes, LeValue;
    var a, b, o, t := LeBytes(c.registers, 2), LeBytes(c.ins, 2), LeBytes(c.outs, 2), LeBytes(|c.tries|, 2);
    var d, n := LeBytes(debugOffset, 4), LeBytes(|c.insns|, 4);
    assert s[0..2] == a && s[2..4] == b && s[4..6] == o && s[6..8] == t && s[8..12] == d && s[12..16] == n;
    HalfRoundTrip(c.registers);
    HalfRoundTrip(c.ins);
    HalfRoundTrip(c.outs);
    HalfRoundTrip(|c.tries|);
    WordRoundTrip(debugOffset);
    WordRoundTrip(|c.insns|);
  }

  lemma {:induction false} TryAt(tries: seq<Try>, i: nat)
    requires i < |tries|
    ensures TryBytes(tries)[8 * i..8 * i + 8] == TryItem(tries[i])
  {
    hide TryItem;
    var n := |tries| - 1;
    if i < n {
      TryAt(tries[..n], i);
      SliceOfFront(TryBytes(tries[..n]), TryItem(tries[n]), 8 * i, 8 * i + 8);
    }
  }

  lemma {:induction false} TryIsRead(t: Try, s: seq<byte>)
    requires s == TryItem(t)
    ensures WordAt(s, 0) == t.startAddress && HalfAt(s, 4) == t.count && HalfAt(s, 6) == t.handlerOffset
  {
    hide LeBytes, LeValue;
    assert s[0..4] == LeBytes(t.startAddress, 4) && s[4..6] == LeBytes(t.count, 2)
        && s[6..8] == LeBytes(t.handlerOffset, 2);
    WordRoundTrip(t.startAddress);
    HalfRoundTrip(t.count);
    HalfRoundTrip(t.handlerOffset);
  }

  /** Where the try items of a method with n code units start. */
  function TriesAt(n: nat): nat {
    RoundUp(16 + 2 * n, 4)
  }

  lemma {:induction false} CodeParts(c: CodeItem, debugOffset: uint32)
    ensures CodeBytes(c, debugOffset) == HeadBytes(c, debugOffset) + InsnBytes(c.insns)
        + PostBytes(c, 16 + 2 * |c.insns|)
  {
    hide HeadBytes, InsnBytes, PostBytes;
  }

  /** Header and instructions are found at the start of a code item. */
  lemma {:induction false} CodeIsRead(c: CodeItem, debugOffset: uint32, i: nat)
    requires i < |c.insns|
    ensures var s := CodeBytes(c, debugOffset);
            16 + 2 * |c.insns| <= |s| && s[..16] == HeadBytes(c, debugOffset) && HalfAt(s, 16 + 2 * i) == c.insns[i]
  {
    hide LeBytes, LeValue, InsnBytes, HeadBytes, PostBytes, CodeBytes;
    CodeParts(c, debugOffset);
    var head, insns, post := HeadBytes(c, debugOffset), InsnBytes(c.insns), PostBytes(c, 16 + 2 * |c.insns|);
    Associate(head, insns, post);
    SliceOfFront(head, insns + post, 0, 16);
    HalvesAt(c.insns, i);
    SliceInside(head, insns, post, 2 * i, 2 * i + 2);
    HalfRoundTrip(c.insns[i]);
  }

  /** Try items and handlers are found where the instruction count puts them. */
  lemma {:induction false} TriesAreRead(c: CodeItem, debugOffset: uint32, j: nat)
    requires j < |c.tries|
    ensures var s, at := CodeBytes(c, debugOffset), TriesAt(|c.insns|);
            && at + 8 * |c.tries| <= |s| && s[at + 8 * |c.tries|..] == HandlerArea(c.handlers)
            && s[at + 8 * j..at + 8 * j + 8] == TryItem(c.tries[j])
  {
    hide InsnBytes, HeadBytes, PostBytes, CodeBytes, TryBytes, TryItem, HandlerArea, TriesAt, Zeros;
    CodeParts(c, debugOffset);
    var body := HeadBytes(c, debugOffset) + InsnBytes(c.insns);
    CodeTail(c, body, CodeBytes(c, debugOffset));
    TryAt(c.tries, j);
    SliceInside(body + Zeros(TriesAt(|c.insns|) - |body|), TryBytes(c.tries), HandlerArea(c.handlers), 8 * j,
        8 * j + 8);
  }

  lemma {:induction false} SliceInside(front: seq<byte>, mid: seq<byte>, back: seq<byte>, lo: nat, hi: nat)
    requires lo <= hi <= |mid|
    ensures (front + mid + back)[|front| + lo..|front| + hi] == mid[lo..hi]
  {
  }

  lemma {:induction false} CodeTail(c: CodeItem, body: seq<byte>, s: seq<byte>)
    requires c.tries != [] && |body| == 16 + 2 * |c.insns| && s == body + PostBytes(c, |body|)
    ensures |body| <= TriesAt(|c.insns|)
    ensures s == body + Zeros(TriesAt(|c.insns|) - |body|) + TryBytes(c.tries) + HandlerArea(c.handlers)
    ensures TriesAt(|c.insns|) + 8 * |c.tries| <= |s|
        && s[TriesAt(|c.insns|) + 8 * |c.tries|..] == HandlerArea(c.handlers)
  {
    hide TryBytes, HandlerArea, RoundUp;
    var gap := Zeros(TriesAt(|c.insns|) - |body|);
    var tries, area := TryBytes(c.tries), HandlerArea(c.handlers);
    Associate(body, gap + tries, area);
    Associate(body, gap, tries);
    var front := body + gap + tries;
    assert (front + area)[|front|..] == area;
  }
}
