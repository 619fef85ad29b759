/**
 What a reader of the finished file finds: id tables by arithmetic from the header, strings through
 the string ids, and class data from its differences.
 */
module DexReaders {
  import opened Leb128
  import opened Streams
  import opened Sections
  import opened DexIr
  import opened FileLayout
  import opened MapLists
  import opened DexWriters
  import opened DexFiles
  import opened ItemReaders

  /** The bytes before the first zero byte. */
  function UntilZero(s: seq<byte>): Option<seq<byte>> {
    if s == [] then None
    else if s[0] == 0 then Some([])
    else match UntilZero(s[1..]) case None => None case Some(t) => Some([s[0]] + t)
  }

  datatype Text = Text(utf16Length: uint32, bytes: seq<byte>)

  /** A string data item: its UTF-16 length, then modified UTF-8 ended by a zero byte. */
  function ReadText(file: seq<byte>, pos: nat): Option<Text>
    requires pos <= |file|
  {
    match ReadUleb(file[pos..])
    case Bad => None
    case Ok(n, rest) => match UntilZero(rest) case None => None case Some(s) => Some(Text(n, s))
  }

  lemma {:induction false} UntilZeroFinds(s: seq<byte>, suffix: seq<byte>)
    requires 0 !in s
    ensures UntilZero(s + [0] + suffix) == Some(s)
  {
    var all := s + [0] + suffix;
    if s != [] {
      assert s == [s[0]] + s[1..];
      UntilZeroFinds(s[1..], suffix);
      assert all[1..] == s[1..] + [0] + suffix && all[0] == s[0];
    }
  }

  lemma {:induction false} TextIsRead(file: seq<byte>, pos: nat, s: seq<byte>)
    requires 0 !in s && ReadsAs(file, pos, StringBytes(s))
    ensures ReadText(file, pos) == Some(Text(CountChars(s) % 0x1_0000_0000, s))
  {
    hide Uleb, ReadUleb, CountChars, UntilZero;
    var n := CountChars(s) % 0x1_0000_0000;
    var bytes := StringBytes(s);
    var suffix := file[pos + |bytes|..];
    assert file[pos..] == bytes + suffix;
    assert bytes + suffix == Uleb(n) + (s + [0] + suffix);
    UlebRoundTrip(n, s + [0] + suffix);
    UntilZeroFinds(s, suffix);
  }

  // ---- id tables

  lemma {:induction false} FourByteTable(start: nat, i: nat)
    ensures TableOffset(start, 4, i) == start + 4 * i
  {
    if i > 0 {
      FourByteTable(start, i - 1);
    }
  }

  const HEADER_WORDS := 32
  const STRING_IDS_OFFSET_FIELD := 60

  /** Each word of the header is read at its place. */
  lemma {:induction false} HeaderIsRead(ir: Ir, h: HeaderInfo, starts: map<Section, nat>, x: Extents, file: seq<byte>,
                                        i: nat)
    requires |h.magic| == 8 && |h.signature| == 20 && ReadsAs(file, 0, HeaderBytes(ir, h, starts, x))
    requires i < 20 && HeaderWords(ir, h, starts, x)[i] < 0x1_0000_0000
    ensures HEADER_WORDS + 4 * i + 4 <= |file|
    ensures WordAt(file, HEADER_WORDS + 4 * i) == HeaderWords(ir, h, starts, x)[i]
  {
    hide LeBytes, LeValue, Words, HeaderWords;
    var words := HeaderWords(ir, h, starts, x);
    var front := h.magic + Word(h.checksum) + h.signature;
    var all := HeaderBytes(ir, h, starts, x);
    WordInArray(words, i);
    assert all[32 + 4 * i..32 + 4 * i + 4] == Words(words)[4 * i..4 * i + 4];
    SubSlice(file, 0, HEADER_SIZE, 32 + 4 * i, 32 + 4 * i + 4);
  }

  lemma {:induction false} HeaderNamesStringIds(ir: Ir, h: HeaderInfo, starts: map<Section, nat>, x: Extents,
                                                file: seq<byte>)
    requires |h.magic| == 8 && |h.signature| == 20 && ReadsAs(file, 0, HeaderBytes(ir, h, starts, x))
    requires StartOf(starts, StringIds) < 0x1_0000_0000
    ensures |file| >= HEADER_SIZE && WordAt(file, STRING_IDS_OFFSET_FIELD) == StartOf(starts, StringIds)
  {
    hide HeaderBytes, WordAt;
    HeaderIsRead(ir, h, starts, x, file, 7);
    HeaderLength(ir, h, starts, x);
  }

  lemma {:induction false} HeaderLength(ir: Ir, h: HeaderInfo, starts: map<Section, nat>, x: Extents)
    requires |h.magic| == 8 && |h.signature| == 20
    ensures |HeaderBytes(ir, h, starts, x)| == HEADER_SIZE
  {
  }

  lemma {:induction false} ItemIsRead(ir: Ir, file: seq<byte>, off: Offsets, r: Ref)
    requires Valid(ir) && FileHolds(ir, file, off) && r.index < Count(ir, r.section)
    ensures r in off && ReadsAs(file, off[r], Serialize(ir, off, r))
  {
    hide Valid, Serialize;
  }

  /** The fields of an item are found in the file at the item's offset. */
  lemma {:induction false} WordInFile(file: seq<byte>, at: nat, bytes: seq<byte>, pos: nat)
    requires ReadsAs(file, at, bytes) && pos + 4 <= |bytes|
    ensures at + pos + 4 <= |file| && WordAt(file, at + pos) == WordAt(bytes, pos)
  {
    hide LeValue;
    SubSlice(file, at, at + |bytes|, pos, pos + 4);
  }

  lemma {:induction false} HalfInFile(file: seq<byte>, at: nat, bytes: seq<byte>, pos: nat)
    requires ReadsAs(file, at, bytes) && pos + 2 <= |bytes|
    ensures at + pos + 2 <= |file| && HalfAt(file, at + pos) == HalfAt(bytes, pos)
  {
    hide LeValue;
    SubSlice(file, at, at + |bytes|, pos, pos + 2);
  }

  /** String id i, found from the header alone, leads to the bytes of the string it stands for,
      whatever order the string data was laid out in. */
  lemma {:induction false} StringsAreRead(ir: Ir, h: HeaderInfo, file: seq<byte>, off: Offsets,
                                          starts: map<Section, nat>, x: Extents, i: nat)
    requires Valid(ir) && FileHolds(ir, file, off) && IdTables(ir, off, starts)
    requires |h.magic| == 8 && |h.signature| == 20 && ReadsAs(file, 0, HeaderBytes(ir, h, starts, x))
    requires |file| < 0x1_0000_0000 && i < |ir.stringIds|
    requires ir.stringIds[i] < |ir.stringDatas| && 0 !in ir.stringDatas[ir.stringIds[i]]
    ensures |file| >= HEADER_SIZE
    ensures var entry := WordAt(file, STRING_IDS_OFFSET_FIELD) + 4 * i;
            && entry + 4 <= |file| && WordAt(file, entry) <= |file|
            && var s := ir.stringDatas[ir.stringIds[i]];
               ReadText(file, WordAt(file, entry)) == Some(Text(CountChars(s) % 0x1_0000_0000, s))
  {
    hide Valid, HeaderBytes, LeBytes, StringBytes, CountChars, ReadText, LeValue, FileHolds;
    var id, data := Ref(StringIds, i), Ref(StringDatas, ir.stringIds[i]);
    ItemIsRead(ir, file, off, id);
    ItemIsRead(ir, file, off, data);
    assert InTable(off, starts, StringIds, i);
    FourByteTable(starts[StringIds], i);
    HeaderNamesStringIds(ir, h, starts, x, file);
    assert ReadsAs(file, off[id], Word(OffsetOf(off, data)));
    WordRoundTrip(OffsetOf(off, data));
    TextIsRead(file, off[data], ir.stringDatas[ir.stringIds[i]]);
  }

  // ---- class data

  /** A method as the file holds it, with the offset of its code. */
  datatype MethodEntry = MethodEntry(index: uint32, accessFlags: uint32, codeOffset: uint32)

  datatype ClassEntries = ClassEntries(staticFields: seq<Field>, instanceFields: seq<Field>,
                                       directMethods: seq<MethodEntry>, virtualMethods: seq<MethodEntry>)

  lemma {:induction false} Regroup(a: seq<byte>, b: seq<byte>, c: seq<byte>, d: seq<byte>, e: seq<byte>)
    ensures a + b + c + d + e == a + (b + (c + (d + e)))
  {
    Associate(a + b + c, d, e);
    Associate(a + b, c, d + e);
    Associate(a, b, c + (d + e));
  }

  function ReadFields(s: seq<byte>, n: nat, previous: uint32): Parsed<seq<Field>> {
    if n == 0 then Ok([], s)
    else match ReadUleb(s) case Bad => Bad case Ok(delta, s1) =>
      match ReadUleb(s1) case Bad => Bad case Ok(flags, s2) =>
        var f := Field(Sum(previous, delta), flags);
        match ReadFields(s2, n - 1, f.index) case Bad => Bad case Ok(fs, rest) => Ok([f] + fs, rest)
  }

  function ReadMethods(s: seq<byte>, n: nat, previous: uint32): Parsed<seq<MethodEntry>> {
    if n == 0 then Ok([], s)
    else match ReadUleb(s) case Bad => Bad case Ok(delta, s1) =>
      match ReadUleb(s1) case Bad => Bad case Ok(flags, s2) =>
        match ReadUleb(s2) case Bad => Bad case Ok(code, s3) =>
          var m := MethodEntry(Sum(previous, delta), flags, code);
          match ReadMethods(s3, n - 1, m.index) case Bad => Bad case Ok(ms, rest) => Ok([m] + ms, rest)
  }

  function ReadClassData(s: seq<byte>): Parsed<ClassEntries> {
    match ReadUleb(s) case Bad => Bad case Ok(a, s1) =>
      match ReadUleb(s1) case Bad => Bad case Ok(b, s2) =>
        match ReadUleb(s2) case Bad => Bad case Ok(c, s3) =>
          match ReadUleb(s3) case Bad => Bad case Ok(d, s4) => ReadMembers(s4, a, b, c, d)
  }

  function ReadMembers(s: seq<byte>, a: nat, b: nat, c: nat, d: nat): Parsed<ClassEntries> {
    match ReadFields(s, a, 0) case Bad => Bad case Ok(statics, s1) =>
      match ReadFields(s1, b, 0) case Bad => Bad case Ok(instances, s2) =>
        match ReadMethods(s2, c, 0) case Bad => Bad case Ok(directs, s3) =>
          match ReadMethods(s3, d, 0) case Bad => Bad case Ok(virtuals, rest) =>
            Ok(ClassEntries(statics, instances, directs, virtuals), rest)
  }

  function MethodEntries(off: Offsets, methods: seq<Method>): (entries: seq<MethodEntry>)
    ensures |entries| == |methods|
  {
    seq(|methods|, i requires 0 <= i < |methods| =>
      MethodEntry(methods[i].index, methods[i].accessFlags, OffsetOrZero(off, CodeSection, methods[i].code)))
  }

  /** Differences taken in 32-bit arithmetic add up to the indices again, in any order of members. */
  lemma {:induction false} FieldsAreRead(fields: seq<Field>, previous: uint32, suffix: seq<byte>)
    ensures ReadFields(FieldBytes(fields, previous) + suffix, |fields|, previous) == Ok(fields, suffix)
    decreases |fields|
  {
    hide Uleb, ReadUleb, Delta, Sum;
    if fields == [] {
      assert FieldBytes(fields, previous) + suffix == suffix;
    } else {
      var f, tail := fields[0], fields[1..];
      var delta := Delta(f.index, previous);
      DeltaAddsUp(f.index, previous);
      var more := FieldBytes(tail, f.index) + suffix;
      Associate(Uleb(delta) + Uleb(f.accessFlags), FieldBytes(tail, f.index), suffix);
      Associate(Uleb(delta), Uleb(f.accessFlags), more);
      UlebRoundTrip(delta, Uleb(f.accessFlags) + more);
      UlebRoundTrip(f.accessFlags, more);
      FieldsAreRead(tail, f.index, suffix);
      assert fields == [f] + tail;
    }
  }

  lemma {:induction false} MethodsAreRead(off: Offsets, methods: seq<Method>, previous: uint32, suffix: seq<byte>)
    ensures ReadMethods(MethodBytes(off, methods, previous) + suffix, |methods|, previous)
        == Ok(MethodEntries(off, methods), suffix)
    decreases |methods|
  {
    hide Uleb, ReadUleb, Delta, Sum, OffsetOrZero, MethodEntries, MethodBytes;
    MethodBytesStep(off, methods, previous);
    if methods == [] {
      assert [] + suffix == suffix;
      assert MethodEntries(off, methods) == [];
    } else {
      var m, tail := methods[0], methods[1..];
      var delta := Delta(m.index, previous);
      DeltaAddsUp(m.index, previous);
      var code := OffsetOrZero(off, CodeSection, m.code);
      var more := MethodBytes(off, tail, m.index) + suffix;
      Regroup(Uleb(delta), Uleb(m.accessFlags), Uleb(code), MethodBytes(off, tail, m.index), suffix);
      UlebRoundTrip(delta, Uleb(m.accessFlags) + (Uleb(code) + more));
      UlebRoundTrip(m.accessFlags, Uleb(code) + more);
      UlebRoundTrip(code, more);
      MethodsAreRead(off, tail, m.index, suffix);
      FirstEntry(off, methods);
    }
  }

  lemma {:induction false} MethodBytesStep(off: Offsets, methods: seq<Method>, previous: uint32)
    ensures methods == [] ==> MethodBytes(off, methods, previous) == []
    ensures methods != [] ==>
              var m := methods[0];
              MethodBytes(off, methods, previous) ==
              Uleb(Delta(m.index, previous)) + Uleb(m.accessFlags) + Uleb(OffsetOrZero(off, CodeSection, m.code))
                  + MethodBytes(off, methods[1..], m.index)
  {
    hide Uleb, Delta, OffsetOrZero;
  }

  lemma {:induction false} FirstEntry(off: Offsets, methods: seq<Method>)
    requires methods != []
    ensures var m := methods[0];
            MethodEntries(off, methods) ==
            [MethodEntry(m.index, m.accessFlags, OffsetOrZero(off, CodeSection, m.code))]
                + MethodEntries(off, methods[1..])
  {
  }

  lemma {:induction false} MembersAreRead(off: Offsets, c: ClassData, suffix: seq<byte>)
    ensures var v, d := MethodBytes(off, c.virtualMethods, 0), MethodBytes(off, c.directMethods, 0);
            var i, s := FieldBytes(c.instanceFields, 0), FieldBytes(c.staticFields, 0);
            ReadMembers(s + (i + (d + (v + suffix))), |c.staticFields|, |c.instanceFields|, |c.directMethods|,
                |c.virtualMethods|) ==
            Ok(ClassEntries(c.staticFields, c.instanceFields, MethodEntries(off, c.directMethods),
                MethodEntries(off, c.virtualMethods)), suffix)
  {
    hide ReadFields, ReadMethods, FieldBytes, MethodBytes, MethodEntries;
    var v := MethodBytes(off, c.virtualMethods, 0) + suffix;
    var d := MethodBytes(off, c.directMethods, 0) + v;
    var i := FieldBytes(c.instanceFields, 0) + d;
    FieldsAreRead(c.staticFields, 0, i);
    FieldsAreRead(c.instanceFields, 0, d);
    MethodsAreRead(off, c.directMethods, 0, v);
    MethodsAreRead(off, c.virtualMethods, 0, suffix);
  }

  /** Reading a written class data item gives back its members, with the offsets of their code. */
  lemma {:induction false} ClassDataIsRead(off: Offsets, c: ClassData, suffix: seq<byte>)
    requires |c.staticFields| < 0x1_0000_0000 && |c.instanceFields| < 0x1_0000_0000
    requires |c.directMethods| < 0x1_0000_0000 && |c.virtualMethods| < 0x1_0000_0000
    ensures ReadClassData(ClassDataBytes(off, c) + suffix) ==
            Ok(ClassEntries(c.staticFields, c.instanceFields, MethodEntries(off, c.directMethods),
                MethodEntries(off, c.virtualMethods)), suffix)
  {
    hide Uleb, ReadUleb, ReadMembers, FieldBytes, MethodBytes, MethodEntries;
    var v := MethodBytes(off, c.virtualMethods, 0);
    var d := MethodBytes(off, c.directMethods, 0);
    var i := FieldBytes(c.instanceFields, 0);
    var s := FieldBytes(c.staticFields, 0);
    var members := s + (i + (d + (v + suffix)));
    MembersAreRead(off, c, suffix);
    var n1, n2 := Uleb(|c.staticFields|), Uleb(|c.instanceFields|);
    var n3, n4 := Uleb(|c.directMethods|), Uleb(|c.virtualMethods|);
    Regroup(n1 + n2 + n3 + n4 + s, i, d, v, suffix);
    Associate(n1 + n2 + n3 + n4, s, i + (d + (v + suffix)));
    Regroup(n1, n2, n3, n4, members);
    UlebRoundTrip(|c.staticFields|, n2 + (n3 + (n4 + members)));
    UlebRoundTrip(|c.instanceFields|, n3 + (n4 + members));
    UlebRoundTrip(|c.directMethods|, n4 + members);
    UlebRoundTrip(|c.virtualMethods|, members);
  }
}
