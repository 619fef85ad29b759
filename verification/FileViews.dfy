/**
 A reader that starts from nothing but the bytes of a file: what it finds by following the offsets in
 them, against what the representation the file was written from says.
 */
module FileViews {
  import opened Leb128
  import opened Streams
  import opened CatchHandlers
  import opened CodeItems
  import EncodedValues
  import opened DexIr
  import opened MapLists
  import opened DexWriters
  import opened ItemReaders
  import opened DexReaders
  import DebugStreams

  /** Behind an offset: nothing, an item, or bytes that are no such item. */
  datatype Link<T> = Null | To(value: T) | Broken

  datatype TryView = TryView(startAddress: nat, count: nat, handler: Link<Handler>)
  datatype CodeView = CodeView(registers: nat, ins: nat, outs: nat, debugInfo: Link<seq<byte>>, insns: seq<nat>,
      tries: seq<TryView>)
  datatype MethodView = MethodView(index: nat, accessFlags: nat, code: Link<CodeView>)
  datatype DataView = DataView(staticFields: seq<Field>, instanceFields: seq<Field>,
                               directMethods: seq<MethodView>, virtualMethods: seq<MethodView>)

  type SetView = Link<seq<Link<AnnotationItem>>>
  datatype MemberView = MemberView(index: nat, annotations: SetView)
  datatype ParameterView = ParameterView(index: nat, annotations: Link<seq<SetView>>)
  datatype DirectoryView = DirectoryView(classSet: SetView, fields: seq<MemberView>, methods: seq<MemberView>,
                                         parameters: seq<ParameterView>)

  datatype ClassView = ClassView(classType: nat, accessFlags: nat, superclass: Option<nat>,
                                 interfaces: Link<seq<nat>>, sourceFile: Option<nat>,
                                 annotations: Link<DirectoryView>, classData: Link<DataView>,
                                 staticValues: Link<seq<EncodedValues.Value>>)

  // ---- reading

  function ReadTypeList(file: seq<byte>, at: nat): Link<seq<nat>> {
    if at == 0 then Null
    else if at + 4 > |file| || at + 4 + 2 * WordAt(file, at) > |file| then Broken
    else
      var n := WordAt(file, at);
      To(seq(n, i requires 0 <= i < n => HalfAt(file, at + 4 + 2 * i)))
  }

  function ReadAnnotationItem(t: EncodedValues.Tables, file: seq<byte>, at: nat): Link<AnnotationItem> {
    if at == 0 then Null
    else if at >= |file| then Broken
    else match EncodedValues.ReadAnnotation(t, file[at + 1..])
      case Bad => Broken
      case Ok(a, _) => To(AnnotationItem(file[at], a))
  }

  function ReadSet(t: EncodedValues.Tables, file: seq<byte>, at: nat): SetView {
    if at == 0 then Null
    else if at + 4 > |file| || at + 4 + 4 * WordAt(file, at) > |file| then Broken
    else
      var n := WordAt(file, at);
      To(seq(n, i requires 0 <= i < n => ReadAnnotationItem(t, file, WordAt(file, at + 4 + 4 * i))))
  }

  function ReadSetRefs(t: EncodedValues.Tables, file: seq<byte>, at: nat): Link<seq<SetView>> {
    if at == 0 then Null
    else if at + 4 > |file| || at + 4 + 4 * WordAt(file, at) > |file| then Broken
    else
      var n := WordAt(file, at);
      To(seq(n, i requires 0 <= i < n => ReadSet(t, file, WordAt(file, at + 4 + 4 * i))))
  }

  /** Member annotations from entry `from` on. */
  function ReadMemberSets(t: EncodedValues.Tables, file: seq<byte>, at: nat, from: nat, n: nat): seq<MemberView>
    requires at + 16 + 8 * (from + n) <= |file|
  {
    seq(n, i requires 0 <= i < n =>
      MemberView(WordAt(file, at + 16 + 8 * (from + i)), ReadSet(t, file, WordAt(file, at + 16 + 8 * (from + i) + 4))))
  }

  function ReadParameterSets(t: EncodedValues.Tables, file: seq<byte>, at: nat, from: nat, n: nat): seq<ParameterView>
    requires at + 16 + 8 * (from + n) <= |file|
  {
    seq(n, i requires 0 <= i < n =>
      ParameterView(WordAt(file, at + 16 + 8 * (from + i)),
          ReadSetRefs(t, file, WordAt(file, at + 16 + 8 * (from + i) + 4))))
  }

  function ReadDirectory(t: EncodedValues.Tables, file: seq<byte>, at: nat): Link<DirectoryView> {
    if at == 0 then Null
    else if at + 16 > |file| then Broken
    else
      var f, m, p := WordAt(file, at + 4), WordAt(file, at + 8), WordAt(file, at + 12);
      if at + 16 + 8 * (f + m + p) > |file| then Broken
      else To(DirectoryView(ReadSet(t, file, WordAt(file, at)), ReadMemberSets(t, file, at, 0, f),
                            ReadMemberSets(t, file, at, f, m), ReadParameterSets(t, file, at, f + m, p)))
  }

  function ReadValues(t: EncodedValues.Tables, file: seq<byte>, at: nat): Link<seq<EncodedValues.Value>> {
    if at == 0 then Null
    else if at > |file| then Broken
    else match EncodedValues.ReadArray(t, file[at..]) case Bad => Broken case Ok(values, _) => To(values)
  }

  function ReadTryHandler(file: seq<byte>, area: nat, offset: nat): Link<Handler> {
    if area + offset > |file| then Broken
    else match ReadHandler(file[area + offset..], offset) case Bad => Broken case Ok(h, _) => To(h)
  }

  function ReadTry(file: seq<byte>, at: nat, area: nat): TryView
    requires at + 8 <= |file|
  {
    TryView(WordAt(file, at), HalfAt(file, at + 4), ReadTryHandler(file, area, HalfAt(file, at + 6)))
  }

  /** A debug info stream ends where walking over it ends. */
  function ReadDebugInfo(file: seq<byte>, at: nat): Link<seq<byte>> {
    if at == 0 then Null
    else if at > |file| then Broken
    else match DebugStreams.AfterInfo(file[at..])
      case None => Broken
      case Some(rest) => if at + |rest| > |file| then Broken else To(file[at..|file| - |rest|])
  }

  function ReadCode(file: seq<byte>, at: nat): Link<CodeView> {
    if at == 0 then Null
    else if at + 16 > |file| then Broken
    else
      var n, t := WordAt(file, at + 12), HalfAt(file, at + 6);
      var tries := at + TriesAt(n);
      if at + 16 + 2 * n > |file| || (t > 0 && tries + 8 * t > |file|) then Broken
      else To(CodeView(HalfAt(file, at), HalfAt(file, at + 2), HalfAt(file, at + 4),
                       ReadDebugInfo(file, WordAt(file, at + 8)),
                       seq(n, i requires 0 <= i < n => HalfAt(file, at + 16 + 2 * i)),
                       seq(t, j requires 0 <= j < t => ReadTry(file, tries + 8 * j, tries + 8 * t))))
  }

  function MethodViews(file: seq<byte>, entries: seq<MethodEntry>): seq<MethodView> {
    seq(|entries|, i requires 0 <= i < |entries| =>
      MethodView(entries[i].index, entries[i].accessFlags, ReadCode(file, entries[i].codeOffset)))
  }

  function ReadData(file: seq<byte>, at: nat): Link<DataView> {
    if at == 0 then Null
    else if at > |file| then Broken
    else match ReadClassData(file[at..])
      case Bad => Broken
      case Ok(c, _) => To(DataView(c.staticFields, c.instanceFields, MethodViews(file, c.directMethods),
          MethodViews(file, c.virtualMethods)))
  }

  const MAP_OFFSET_FIELD := 52
  const TYPE_IDS_OFFSET_FIELD := 68
  const PROTO_IDS_OFFSET_FIELD := 76
  const FIELD_IDS_OFFSET_FIELD := 84
  const METHOD_IDS_OFFSET_FIELD := 92
  const CLASS_DEFS_OFFSET_FIELD := 100

  /** The kinds by which the map list tells sections apart. */
  function MapKind(k: Section): nat {
    match k
    case StringIds => 0x0001 case TypeIds => 0x0002 case ProtoIds => 0x0003 case FieldIds => 0x0004
    case MethodIds => 0x0005 case ClassDefs => 0x0006 case CallSiteIds => 0x0007 case MethodHandles => 0x0008
    case TypeLists => 0x1001 case SetRefLists => 0x1002 case AnnotationSets => 0x1003
    case ClassDatas => 0x2000 case CodeSection => 0x2001 case StringDatas => 0x2002 case DebugInfos => 0x2003
    case Annotations => 0x2004 case EncodedArrays => 0x2005 case Directories => 0x2006
  }

  const CALL_SITE_KIND := 0x0007
  const METHOD_HANDLE_KIND := 0x0008

  /** The first of n map list entries of this kind: its size and offset. */
  function FindEntry(file: seq<byte>, at: nat, n: nat, kind: nat): Link<(nat, nat)>
    requires at + 12 * n <= |file|
    decreases n
  {
    if n == 0 then Null
    else if HalfAt(file, at) == kind then To((WordAt(file, at + 4), WordAt(file, at + 8)))
    else FindEntry(file, at + 12, n - 1, kind)
  }

  function InMap(file: seq<byte>, kind: nat): Link<(nat, nat)> {
    if |file| < HEADER_SIZE then Broken
    else
      var at := WordAt(file, MAP_OFFSET_FIELD);
      if at + 4 > |file| || at + 4 + 12 * WordAt(file, at) > |file| then Broken
      else FindEntry(file, at + 4, WordAt(file, at), kind)
  }

  /** The sizes of the id tables. */
  function TablesIn(file: seq<byte>): EncodedValues.Tables
    requires |file| >= HEADER_SIZE
  {
    var handles := InMap(file, METHOD_HANDLE_KIND);
    EncodedValues.Tables(WordAt(file, 56), WordAt(file, 64), WordAt(file, 72), WordAt(file, 80), WordAt(file, 88),
                         if handles.To? then handles.value.0 else 0)
  }

  /** A type id is the index of the string that describes the type. */
  function ReadType(file: seq<byte>, i: nat): Link<nat> {
    if |file| < HEADER_SIZE then Broken
    else
      var at := WordAt(file, TYPE_IDS_OFFSET_FIELD) + 4 * i;
      if at + 4 > |file| then Broken else To(WordAt(file, at))
  }

  datatype ProtoView = ProtoView(shorty: nat, returnType: nat, parameters: Link<seq<nat>>)

  function ReadProto(file: seq<byte>, i: nat): Link<ProtoView> {
    if |file| < HEADER_SIZE then Broken
    else
      var at := WordAt(file, PROTO_IDS_OFFSET_FIELD) + 12 * i;
      if at + 12 > |file| then Broken
      else To(ProtoView(WordAt(file, at), WordAt(file, at + 4), ReadTypeList(file, WordAt(file, at + 8))))
  }

  /** Field and method ids have the same shape. */
  function ReadMemberId(file: seq<byte>, field: nat, i: nat): Link<(nat, nat, nat)>
    requires field + 4 <= HEADER_SIZE
  {
    if |file| < HEADER_SIZE then Broken
    else
      var at := WordAt(file, field) + 8 * i;
      if at + 8 > |file| then Broken else To((HalfAt(file, at), HalfAt(file, at + 2), WordAt(file, at + 4)))
  }

  function ReadMethodHandle(file: seq<byte>, i: nat): Link<(nat, nat)> {
    var table := InMap(file, METHOD_HANDLE_KIND);
    if !table.To? || table.value.1 + 8 * i + 8 > |file| then Broken
    else To((HalfAt(file, table.value.1 + 8 * i), HalfAt(file, table.value.1 + 8 * i + 4)))
  }

  function ReadCallSite(file: seq<byte>, i: nat): Link<seq<EncodedValues.Value>> {
    var table := InMap(file, CALL_SITE_KIND);
    if |file| < HEADER_SIZE || !table.To? || table.value.1 + 4 * i + 4 > |file| then Broken
    else ReadValues(TablesIn(file), file, WordAt(file, table.value.1 + 4 * i))
  }

  /** All ones stand for no index. */
  function IndexAt(file: seq<byte>, at: nat): Option<nat>
    requires at + 4 <= |file|
  {
    if WordAt(file, at) == 0xffff_ffff then None else Some(WordAt(file, at))
  }

  /** Class definition i with all it leads to. */
  function ReadClass(file: seq<byte>, i: nat): Link<ClassView> {
    if |file| < HEADER_SIZE then Broken
    else
      var t, at := TablesIn(file), WordAt(file, CLASS_DEFS_OFFSET_FIELD) + 32 * i;
      if at + 32 > |file| then Broken
      else To(ClassView(WordAt(file, at), WordAt(file, at + 4), IndexAt(file, at + 8),
                        ReadTypeList(file, WordAt(file, at + 12)), IndexAt(file, at + 16),
                        ReadDirectory(t, file, WordAt(file, at + 20)), ReadData(file, WordAt(file, at + 24)),
                        ReadValues(t, file, WordAt(file, at + 28))))
  }

  // ---- what the representation says

  function Widen(s: seq<uint16>): (r: seq<nat>)
    ensures |r| == |s| && forall i :: 0 <= i < |s| ==> r[i] == s[i]
  {
    seq(|s|, i requires 0 <= i < |s| => s[i])
  }

  function TypeListOf(ir: Ir, l: Option<nat>): Link<seq<nat>> {
    if l.None? then Null else if l.value < |ir.typeLists| then To(Widen(ir.typeLists[l.value])) else Broken
  }

  function AnnotationOf(ir: Ir, a: nat): Link<AnnotationItem> {
    if a < |ir.annotations| then To(ir.annotations[a]) else Broken
  }

  function SetOf(ir: Ir, s: Option<nat>): SetView {
    if s.None? then Null
    else if s.value < |ir.annotationSets| then
      var set_ := ir.annotationSets[s.value];
      To(seq(|set_|, i requires 0 <= i < |set_| => AnnotationOf(ir, set_[i])))
    else Broken
  }

  function SetRefsOf(ir: Ir, l: nat): Link<seq<SetView>> {
    if l < |ir.setRefLists| then
      var refs := ir.setRefLists[l];
      To(seq(|refs|, i requires 0 <= i < |refs| => SetOf(ir, refs[i])))
    else Broken
  }

  function MemberSetsOf(ir: Ir, entries: seq<Entry>): seq<MemberView> {
    seq(|entries|, i requires 0 <= i < |entries| => MemberView(entries[i].index, SetOf(ir, Some(entries[i].target))))
  }

  function ParameterSetsOf(ir: Ir, entries: seq<Entry>): seq<ParameterView> {
    seq(|entries|, i requires 0 <= i < |entries| => ParameterView(entries[i].index, SetRefsOf(ir, entries[i].target)))
  }

  function DirectoryOf(ir: Ir, d: Option<nat>): Link<DirectoryView> {
    if d.None? then Null
    else if d.value < |ir.directories| then
      var dir := ir.directories[d.value];
      To(DirectoryView(SetOf(ir, dir.classAnnotation), MemberSetsOf(ir, dir.fields), MemberSetsOf(ir, dir.methods),
                       ParameterSetsOf(ir, dir.parameters)))
    else Broken
  }

  function ValuesOf(ir: Ir, a: Option<nat>): Link<seq<EncodedValues.Value>> {
    if a.None? then Null else if a.value < |ir.encodedArrays| then To(ir.encodedArrays[a.value]) else Broken
  }

  /** The handler that a try item's offset stands for. */
  function HandlerNamed(handlers: seq<Handler>, offset: nat): (r: Link<Handler>)
    ensures r.To? ==> r.value in handlers && r.value.offset == offset
  {
    if handlers == [] then Broken
    else if handlers[0].offset == offset then To(handlers[0])
    else HandlerNamed(handlers[1..], offset)
  }

  function DebugInfoOf(ir: Ir, d: Option<nat>): Link<seq<byte>> {
    if d.None? then Null else if d.value < |ir.debugInfos| then To(ir.debugInfos[d.value]) else Broken
  }

  function CodeOf(ir: Ir, c: Option<nat>): Link<CodeView> {
    if c.None? then Null
    else if c.value < |ir.codeItems| then
      var code := ir.codeItems[c.value];
      To(CodeView(code.registers, code.ins, code.outs, DebugInfoOf(ir, code.debugInfo), Widen(code.insns),
          TriesOf(code)))
    else Broken
  }

  function TriesOf(code: CodeItem): seq<TryView> {
    seq(|code.tries|, j requires 0 <= j < |code.tries| =>
      TryView(code.tries[j].startAddress, code.tries[j].count,
          HandlerNamed(code.handlers, code.tries[j].handlerOffset)))
  }

  function MethodsOf(ir: Ir, methods: seq<Method>): seq<MethodView> {
    seq(|methods|, i requires 0 <= i < |methods| => MethodView(methods[i].index, methods[i].accessFlags,
        CodeOf(ir, methods[i].code)))
  }

  function DataOf(ir: Ir, d: Option<nat>): Link<DataView> {
    if d.None? then Null
    else if d.value < |ir.classDatas| then
      var c := ir.classDatas[d.value];
      To(DataView(c.staticFields, c.instanceFields, MethodsOf(ir, c.directMethods), MethodsOf(ir, c.virtualMethods)))
    else Broken
  }

  function IndexOf(index: Option<uint32>): Option<nat> {
    match index case None => None case Some(i) => Some(i)
  }

  /** Class definition i with all it refers to. */
  function ClassOf(ir: Ir, i: nat): ClassView
    requires i < |ir.classDefs|
  {
    var c := ir.classDefs[i];
    ClassView(c.classType, c.accessFlags, IndexOf(c.superclass), TypeListOf(ir, c.interfaces),
              IndexOf(c.sourceFile), DirectoryOf(ir, c.annotations), DataOf(ir, c.classData),
              ValuesOf(ir, c.staticValues))
  }

  function ProtoOf(ir: Ir, i: nat): ProtoView
    requires i < |ir.protoIds|
  {
    ProtoView(ir.protoIds[i].shorty, ir.protoIds[i].returnType, TypeListOf(ir, ir.protoIds[i].parameters))
  }

  // ---- every reference has a target

  predicate Below(r: Option<nat>, n: nat) {
    r.Some? ==> r.value < n
  }

  predicate ClosedDirectory(ir: Ir, d: Directory) {
    && Below(d.classAnnotation, |ir.annotationSets|)
    && (forall i :: 0 <= i < |d.fields| ==> d.fields[i].target < |ir.annotationSets|)
    && (forall i :: 0 <= i < |d.methods| ==> d.methods[i].target < |ir.annotationSets|)
    && (forall i :: 0 <= i < |d.parameters| ==> d.parameters[i].target < |ir.setRefLists|)
  }

  predicate ClosedMethods(ir: Ir, methods: seq<Method>) {
    forall i :: 0 <= i < |methods| ==> Below(methods[i].code, |ir.codeItems|)
  }

  /** Handlers have the form handlers are read in and do not overlap, and each try item has one. */
  ghost predicate ClosedCode(c: CodeItem) {
    && (forall i :: 0 <= i < |c.handlers| ==> Regular(c.handlers[i]))
    && (forall i, j :: 0 <= i < |c.handlers| && 0 <= j < |c.handlers| && i != j ==>
          Apart(c.handlers[j], c.handlers[i].offset, c.handlers[i].offset + |EncodeHandler(c.handlers[i])|))
    && (forall j :: 0 <= j < |c.tries| ==> HandlerNamed(c.handlers, c.tries[j].handlerOffset).To?)
  }

  /** What can be read back: all references lead somewhere, and debug info streams end where they should. */
  ghost predicate Closed(ir: Ir) {
    && (forall i :: 0 <= i < |ir.classDefs| ==>
          var c := ir.classDefs[i];
          && Below(c.interfaces, |ir.typeLists|) && Below(c.annotations, |ir.directories|)
          && Below(c.classData, |ir.classDatas|) && Below(c.staticValues, |ir.encodedArrays|)
          && c.superclass != Some(0xffff_ffff) && c.sourceFile != Some(0xffff_ffff))
    && (forall i :: 0 <= i < |ir.directories| ==> ClosedDirectory(ir, ir.directories[i]))
    && (forall i, j :: 0 <= i < |ir.annotationSets| && 0 <= j < |ir.annotationSets[i]| ==>
        ir.annotationSets[i][j] < |ir.annotations|)
    && (forall i, j :: 0 <= i < |ir.setRefLists| && 0 <= j < |ir.setRefLists[i]| ==>
        Below(ir.setRefLists[i][j], |ir.annotationSets|))
    && (forall i :: 0 <= i < |ir.classDatas| ==>
          ClosedMethods(ir, ir.classDatas[i].directMethods) && ClosedMethods(ir, ir.classDatas[i].virtualMethods))
    && (forall i :: 0 <= i < |ir.codeItems| ==>
        ClosedCode(ir.codeItems[i]) && Below(ir.codeItems[i].debugInfo, |ir.debugInfos|))
    && (forall i :: 0 <= i < |ir.debugInfos| ==> DebugStreams.AfterInfo(ir.debugInfos[i]) == Some([]))
  }
}
