/**
 The in-memory representation of a DEX file and the bytes each of its items is written as.
 Items refer to each other by position in their pools; the order in which a data section's items
 are written is kept apart from that, so that any layout leaves all references as they are.
 */
module DexIr {
  import opened Leb128
  import EncodedValues
  import opened CodeItems

  datatype Section =
    | StringIds | TypeIds | ProtoIds | FieldIds | MethodIds | ClassDefs | CallSiteIds | MethodHandles
    | CodeSection | DebugInfos | EncodedArrays | Annotations | AnnotationSets | SetRefLists
    | Directories | TypeLists | ClassDatas | StringDatas

  datatype Ref = Ref(section: Section, index: nat)

  datatype ProtoId = ProtoId(shorty: uint32, returnType: uint32, parameters: Option<nat>)
  datatype FieldId = FieldId(classType: uint16, fieldType: uint16, name: uint32)
  datatype MethodId = MethodId(classType: uint16, proto: uint16, name: uint32)
  datatype ClassDef = ClassDef(classType: uint32, accessFlags: uint32, superclass: Option<uint32>,
                               interfaces: Option<nat>, sourceFile: Option<uint32>, annotations: Option<nat>,
                               classData: Option<nat>, staticValues: Option<nat>)
  datatype MethodHandle = MethodHandle(kind: uint16, target: uint16)
  datatype AnnotationItem = AnnotationItem(visibility: byte, annotation: EncodedValues.Annotation)
  datatype Entry = Entry(index: uint32, target: nat)
  datatype Directory = Directory(classAnnotation: Option<nat>, fields: seq<Entry>, methods: seq<Entry>,
      parameters: seq<Entry>)
  datatype Field = Field(index: uint32, accessFlags: uint32)
  datatype Method = Method(index: uint32, accessFlags: uint32, code: Option<nat>)
  datatype ClassData = ClassData(staticFields: seq<Field>, instanceFields: seq<Field>,
                                 directMethods: seq<Method>, virtualMethods: seq<Method>)

  datatype Ir = Ir(
    stringIds: seq<nat>, typeIds: seq<uint32>, protoIds: seq<ProtoId>, fieldIds: seq<FieldId>,
    methodIds: seq<MethodId>, classDefs: seq<ClassDef>, callSiteIds: seq<nat>, methodHandles: seq<MethodHandle>,
    codeItems: seq<CodeItem>, debugInfos: seq<seq<byte>>, encodedArrays: seq<seq<EncodedValues.Value>>,
    annotations: seq<AnnotationItem>, annotationSets: seq<seq<nat>>, setRefLists: seq<seq<Option<nat>>>,
    directories: seq<Directory>, typeLists: seq<seq<uint16>>, classDatas: seq<ClassData>,
    stringDatas: seq<seq<byte>>, linkData: seq<byte>, order: map<Section, seq<nat>>)

  function Count(ir: Ir, k: Section): nat {
    match k
    case StringIds => |ir.stringIds|
    case TypeIds => |ir.typeIds|
    case ProtoIds => |ir.protoIds|
    case FieldIds => |ir.fieldIds|
    case MethodIds => |ir.methodIds|
    case ClassDefs => |ir.classDefs|
    case CallSiteIds => |ir.callSiteIds|
    case MethodHandles => |ir.methodHandles|
    case CodeSection => |ir.codeItems|
    case DebugInfos => |ir.debugInfos|
    case EncodedArrays => |ir.encodedArrays|
    case Annotations => |ir.annotations|
    case AnnotationSets => |ir.annotationSets|
    case SetRefLists => |ir.setRefLists|
    case Directories => |ir.directories|
    case TypeLists => |ir.typeLists|
    case ClassDatas => |ir.classDatas|
    case StringDatas => |ir.stringDatas|
  }

  /** Sections of byte-aligned items; all others are word-aligned. */
  function Alignment(k: Section): nat {
    match k
    case ClassDatas => 1
    case StringDatas => 1
    case DebugInfos => 1
    case Annotations => 1
    case EncodedArrays => 1
    case _ => 4
  }

  predicate IsIdSection(k: Section) {
    k in {StringIds, TypeIds, ProtoIds, FieldIds, MethodIds, ClassDefs, CallSiteIds, MethodHandles}
  }

  predicate Permutation(order: seq<nat>, n: nat) {
    && |order| == n
    && (forall i :: 0 <= i < n ==> order[i] < n)
    && (forall i, j :: 0 <= i < j < n ==> order[i] != order[j])
    && (forall x: nat :: x < n ==> x in order)
  }

  function Identity(n: nat): (order: seq<nat>)
    ensures Permutation(order, n)
  {
    if n == 0 then [] else Identity(n - 1) + [n - 1]
  }

  /** The order a section's items are written in; id sections are always in index order. */
  function Order(ir: Ir, k: Section): (order: seq<nat>)
    ensures k !in ir.order ==> Permutation(order, Count(ir, k))
  {
    if k in ir.order then ir.order[k] else Identity(Count(ir, k))
  }

  /** Method m is in the class data of c. */
  ghost predicate Owns(ir: Ir, c: ClassDef, m: Method) {
    && c.classData.Some? && c.classData.value < |ir.classDatas|
    && (m in ir.classDatas[c.classData.value].directMethods || m in ir.classDatas[c.classData.value].virtualMethods)
  }

  ghost predicate Declares(ir: Ir, c: ClassDef, m: Method) {
    c in ir.classDefs && Owns(ir, c, m)
  }

  function MethodsIn(ir: Ir, c: ClassDef, direct: bool): seq<Method> {
    if c.classData.Some? && c.classData.value < |ir.classDatas|
    then var d := ir.classDatas[c.classData.value]; if direct then d.directMethods else d.virtualMethods
    else []
  }

  function TablesOf(ir: Ir): EncodedValues.Tables {
    EncodedValues.Tables(|ir.stringIds|, |ir.typeIds|, |ir.protoIds|, |ir.fieldIds|, |ir.methodIds|, |ir.methodHandles|)
  }

  predicate Valid(ir: Ir) {
    && (forall k :: k in ir.order ==> !IsIdSection(k) && Permutation(ir.order[k], Count(ir, k)))
    && (forall i :: 0 <= i < |ir.codeItems| ==> Writable(ir.codeItems[i]))
    && (forall i :: 0 <= i < |ir.encodedArrays| ==>
          |ir.encodedArrays[i]| < 0x1_0000_0000 && EncodedValues.AllWellFormed(TablesOf(ir), ir.encodedArrays[i]))
    && (forall i :: 0 <= i < |ir.annotations| ==>
          EncodedValues.WellFormedAnnotation(TablesOf(ir), ir.annotations[i].annotation))
    && (forall i :: 0 <= i < |ir.debugInfos| ==> |ir.debugInfos[i]| > 0)
  }

  lemma {:induction false} OrderIsPermutation(ir: Ir, k: Section)
    requires Valid(ir)
    ensures Permutation(Order(ir, k), Count(ir, k))
  {
  }

  // ---- offsets

  type Offsets = map<Ref, nat>

  /** An item's offset as its 32-bit field holds it, or zero for a missing item. */
  function OffsetOf(off: Offsets, r: Ref): (o: uint32) {
    if r in off then off[r] % 0x1_0000_0000 else 0
  }

  function OffsetOrZero(off: Offsets, k: Section, index: Option<nat>): uint32 {
    match index
    case None => 0
    case Some(i) => OffsetOf(off, Ref(k, i))
  }

  // ---- the bytes of each item

  function Word(v: nat): (s: seq<byte>)
    ensures |s| == 4
  {
    LeBytes(v, 4)
  }

  function Half(v: nat): (s: seq<byte>)
    ensures |s| == 2
  {
    LeBytes(v, 2)
  }

  const NO_INDEX: uint32 := 0xffff_ffff

  function IndexOrNone(index: Option<uint32>): uint32 {
    match index case None => NO_INDEX case Some(i) => i
  }

  function ClassDefBytes(off: Offsets, c: ClassDef): (s: seq<byte>)
    ensures |s| == 32
  {
    Words([c.classType, c.accessFlags, IndexOrNone(c.superclass), OffsetOrZero(off, TypeLists, c.interfaces),
           IndexOrNone(c.sourceFile), OffsetOrZero(off, Directories, c.annotations),
           OffsetOrZero(off, ClassDatas, c.classData), OffsetOrZero(off, EncodedArrays, c.staticValues)])
  }

  function SetWords(off: Offsets, items: seq<nat>): (w: seq<nat>)
    ensures |w| == |items|
  {
    seq(|items|, i requires 0 <= i < |items| => OffsetOf(off, Ref(Annotations, items[i])))
  }

  function SetRefWords(off: Offsets, items: seq<Option<nat>>): (w: seq<nat>)
    ensures |w| == |items|
  {
    seq(|items|, i requires 0 <= i < |items| => OffsetOrZero(off, AnnotationSets, items[i]))
  }

  /** Pairs of a member index and an offset. */
  function EntryWords(off: Offsets, k: Section, entries: seq<Entry>): (w: seq<nat>)
    ensures |w| == 2 * |entries|
  {
    seq(2 * |entries|, i requires 0 <= i < 2 * |entries| =>
      if i % 2 == 0 then entries[i / 2].index else OffsetOf(off, Ref(k, entries[i / 2].target)))
  }

  function DirectoryWords(off: Offsets, d: Directory): seq<nat> {
    [OffsetOrZero(off, AnnotationSets, d.classAnnotation), |d.fields|, |d.methods|, |d.parameters|]
    + EntryWords(off, AnnotationSets, d.fields) + EntryWords(off, AnnotationSets, d.methods)
    + EntryWords(off, SetRefLists, d.parameters)
  }

  function FieldBytes(fields: seq<Field>, previous: nat): seq<byte> {
    if fields == [] then []
    else
      Uleb(Delta(fields[0].index, previous)) + Uleb(fields[0].accessFlags)
      + FieldBytes(fields[1..], fields[0].index)
  }

  function MethodBytes(off: Offsets, methods: seq<Method>, previous: nat): seq<byte>
    decreases |methods|
  {
    if methods == [] then []
    else
      Uleb(Delta(methods[0].index, previous)) + Uleb(methods[0].accessFlags)
      + Uleb(OffsetOrZero(off, CodeSection, methods[0].code)) + MethodBytes(off, methods[1..], methods[0].index)
  }

  function ClassDataBytes(off: Offsets, c: ClassData): seq<byte> {
    Uleb(|c.staticFields|) + Uleb(|c.instanceFields|) + Uleb(|c.directMethods|) + Uleb(|c.virtualMethods|)
    + FieldBytes(c.staticFields, 0) + FieldBytes(c.instanceFields, 0)
    + MethodBytes(off, c.directMethods, 0) + MethodBytes(off, c.virtualMethods, 0)
  }

  /** UTF-16 length of a modified UTF-8 string, without validating it. */
  function CountChars(s: seq<byte>): nat
    decreases |s|
  {
    if s == [] then 0
    else if s[0] < 0x80 then 1 + CountChars(s[1..])
    else if (s[0] / 0x20) % 2 == 0 then 1 + CountChars(Drop(s, 2))
    else if (s[0] / 0x10) % 2 == 0 then 1 + CountChars(Drop(s, 3))
    else 2 + CountChars(Drop(s, 4))
  }

  function Drop(s: seq<byte>, n: nat): (t: seq<byte>)
    ensures |s| > 0 && n > 0 ==> |t| < |s|
  {
    if n <= |s| then s[n..] else []
  }

  function StringBytes(s: seq<byte>): seq<byte> {
    Uleb(CountChars(s) % 0x1_0000_0000) + s + [0]
  }

  function Serialize(ir: Ir, off: Offsets, r: Ref): seq<byte>
    requires Valid(ir) && r.index < Count(ir, r.section)
  {
    match r.section
    case StringIds => Word(OffsetOf(off, Ref(StringDatas, ir.stringIds[r.index])))
    case TypeIds => Word(ir.typeIds[r.index])
    case ProtoIds =>
      var p := ir.protoIds[r.index];
      Word(p.shorty) + Word(p.returnType) + Word(OffsetOrZero(off, TypeLists, p.parameters))
    case FieldIds =>
      var f := ir.fieldIds[r.index];
      Half(f.classType) + Half(f.fieldType) + Word(f.name)
    case MethodIds =>
      var m := ir.methodIds[r.index];
      Half(m.classType) + Half(m.proto) + Word(m.name)
    case ClassDefs => ClassDefBytes(off, ir.classDefs[r.index])
    case CallSiteIds => Word(OffsetOf(off, Ref(EncodedArrays, ir.callSiteIds[r.index])))
    case MethodHandles =>
      var h := ir.methodHandles[r.index];
      Half(h.kind) + Half(0) + Half(h.target) + Half(0)
    case CodeSection =>
      var c := ir.codeItems[r.index];
      CodeBytes(c, OffsetOrZero(off, DebugInfos, c.debugInfo))
    case DebugInfos => ir.debugInfos[r.index]
    case EncodedArrays => EncodedValues.WriteArray(TablesOf(ir), ir.encodedArrays[r.index])
    case Annotations =>
      var a := ir.annotations[r.index];
      [a.visibility] + EncodedValues.WriteAnnotation(TablesOf(ir), a.annotation)
    case AnnotationSets => var a := ir.annotationSets[r.index]; Words([|a|] + SetWords(off, a))
    case SetRefLists => var l := ir.setRefLists[r.index]; Words([|l|] + SetRefWords(off, l))
    case Directories => Words(DirectoryWords(off, ir.directories[r.index]))
    case TypeLists => Word(|ir.typeLists[r.index]|) + InsnBytes(ir.typeLists[r.index])
    case ClassDatas => ClassDataBytes(off, ir.classDatas[r.index])
    case StringDatas => StringBytes(ir.stringDatas[r.index])
  }

  // ---- which sections an item's bytes mention

  function Mentions(k: Section): set<Section> {
    match k
    case StringIds => {StringDatas}
    case ProtoIds => {TypeLists}
    case ClassDefs => {TypeLists, Directories, ClassDatas, EncodedArrays}
    case CallSiteIds => {EncodedArrays}
    case CodeSection => {DebugInfos}
    case AnnotationSets => {Annotations}
    case SetRefLists => {AnnotationSets}
    case Directories => {AnnotationSets, SetRefLists}
    case ClassDatas => {CodeSection}
    case _ => {}
  }

  ghost predicate Agree(a: Offsets, b: Offsets, ks: set<Section>) {
    forall r: Ref :: r.section in ks ==> OffsetOf(a, r) == OffsetOf(b, r)
  }

  lemma {:induction false} MethodBytesAgree(a: Offsets, b: Offsets, methods: seq<Method>, previous: nat)
    requires Agree(a, b, {CodeSection})
    ensures MethodBytes(a, methods, previous) == MethodBytes(b, methods, previous)
    decreases |methods|
  {
    hide Uleb;
    if methods != [] {
      MethodBytesAgree(a, b, methods[1..], methods[0].index);
    }
  }

  lemma {:induction false} ClassDefAgrees(a: Offsets, b: Offsets, c: ClassDef)
    requires Agree(a, b, Mentions(ClassDefs))
    ensures ClassDefBytes(a, c) == ClassDefBytes(b, c)
  {
    hide Words;
  }

  lemma {:induction false} SetAgrees(a: Offsets, b: Offsets, items: seq<nat>)
    requires Agree(a, b, {Annotations})
    ensures SetWords(a, items) == SetWords(b, items)
  {
  }

  lemma {:induction false} SetRefAgrees(a: Offsets, b: Offsets, items: seq<Option<nat>>)
    requires Agree(a, b, {AnnotationSets})
    ensures SetRefWords(a, items) == SetRefWords(b, items)
  {
  }

  lemma {:induction false} EntriesAgree(a: Offsets, b: Offsets, k: Section, entries: seq<Entry>)
    requires Agree(a, b, {k})
    ensures EntryWords(a, k, entries) == EntryWords(b, k, entries)
  {
  }

  lemma {:induction false} DirectoryAgrees(a: Offsets, b: Offsets, d: Directory)
    requires Agree(a, b, Mentions(Directories))
    ensures DirectoryWords(a, d) == DirectoryWords(b, d)
  {
    hide EntryWords;
    EntriesAgree(a, b, AnnotationSets, d.fields);
    EntriesAgree(a, b, AnnotationSets, d.methods);
    EntriesAgree(a, b, SetRefLists, d.parameters);
  }

  /** An item's bytes depend on the offsets of the sections it mentions and on nothing else. */
  lemma {:induction false} SerializeAgrees(ir: Ir, a: Offsets, b: Offsets, r: Ref)
    requires Valid(ir) && r.index < Count(ir, r.section) && Agree(a, b, Mentions(r.section))
    ensures Serialize(ir, a, r) == Serialize(ir, b, r)
  {
    hide Valid, Word, Words, Half, Uleb, CodeBytes, ClassDefBytes, DirectoryWords, SetWords, SetRefWords, MethodBytes;
    match r.section {
      case ClassDefs => ClassDefAgrees(a, b, ir.classDefs[r.index]);
      case AnnotationSets => SetAgrees(a, b, ir.annotationSets[r.index]);
      case SetRefLists => SetRefAgrees(a, b, ir.setRefLists[r.index]);
      case Directories => DirectoryAgrees(a, b, ir.directories[r.index]);
      case ClassDatas =>
        var c := ir.classDatas[r.index];
        MethodBytesAgree(a, b, c.directMethods, 0);
        MethodBytesAgree(a, b, c.virtualMethods, 0);
      case _ =>
    }
  }

  /** Reserved sections can be measured before any offset is known. */
  lemma {:induction false} ReservedSize(ir: Ir, a: Offsets, b: Offsets, r: Ref)
    requires Valid(ir) && r.index < Count(ir, r.section)
    requires r.section in {StringIds, ProtoIds, ClassDefs, CallSiteIds, CodeSection}
    ensures |Serialize(ir, a, r)| == |Serialize(ir, b, r)|
  {
    hide Valid, CodeBytes;
    if r.section == CodeSection {
      var c := ir.codeItems[r.index];
      CodeSize(c, OffsetOrZero(a, DebugInfos, c.debugInfo), OffsetOrZero(b, DebugInfos, c.debugInfo));
    }
  }

  /** Id items have fixed sizes. */
  function IdSize(k: Section): (n: nat)
    ensures n % 4 == 0
  {
    match k
    case StringIds => 4
    case TypeIds => 4
    case ProtoIds => 12
    case FieldIds => 8
    case MethodIds => 8
    case ClassDefs => 32
    case CallSiteIds => 4
    case MethodHandles => 8
    case _ => 0
  }

  lemma {:induction false} IdSizeIsExact(ir: Ir, off: Offsets, r: Ref)
    requires Valid(ir) && r.index < Count(ir, r.section) && IsIdSection(r.section)
    ensures |Serialize(ir, off, r)| == IdSize(r.section)
  {
    hide Valid, Word, Half;
  }

  lemma {:induction false} ItemsAreNotEmpty(ir: Ir, off: Offsets, r: Ref)
    requires Valid(ir) && r.index < Count(ir, r.section)
    ensures |Serialize(ir, off, r)| > 0
  {
    hide Word, Words, Half, Uleb, SetWords, SetRefWords, EntryWords, FieldBytes, MethodBytes;
    match r.section {
      case EncodedArrays =>
        assert |Uleb(|ir.encodedArrays[r.index]|)| > 0;
      case ClassDatas =>
        assert |Uleb(|ir.classDatas[r.index].staticFields|)| > 0;
      case _ =>
    }
  }
}
