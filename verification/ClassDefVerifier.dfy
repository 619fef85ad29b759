/**
 The comparison of class definitions that dexlayout makes after rewriting a file. Definitions may have
 been reordered; they are lined up by type index.
 */
module ClassDefVerifier {
  import opened Leb128
  import EncodedValues

  type Value = EncodedValues.Value
  type Annotation = EncodedValues.Annotation
  type Element = EncodedValues.Element

  datatype Handler = Handler(pairs: seq<(Option<uint32>, uint32)>)
  datatype TryRange = TryRange(start: uint32, count: uint16, handler: Handler)

  /** Instructions are kept as the bytes of their code units. */
  datatype Code = Code(registers: uint16, ins: uint16, outs: uint16, debugInfo: Option<seq<byte>>,
                       insns: seq<byte>, tries: seq<TryRange>, handlers: seq<Handler>)

  datatype Field = Field(index: uint32, flags: uint32)
  datatype Method = Method(index: uint32, flags: uint32, code: Option<Code>)
  datatype ClassData = ClassData(statics: seq<Field>, instances: seq<Field>, directs: seq<Method>,
      virtuals: seq<Method>)
  datatype AnnotationItem = AnnotationItem(visibility: byte, annotation: Annotation)

  type AnnotationSet = Option<seq<AnnotationItem>>

  /** The annotations of a field or method, and those of a method's parameters. */
  datatype MemberSet = MemberSet(index: uint32, annotations: AnnotationSet)
  datatype ParameterSets = ParameterSets(index: uint32, annotations: seq<AnnotationSet>)
  datatype Directory = Directory(classSet: AnnotationSet, fields: Option<seq<MemberSet>>,
                                 methods: Option<seq<MemberSet>>, parameters: Option<seq<ParameterSets>>)

  datatype ClassDef = ClassDef(classType: uint32, flags: uint32, superclass: Option<uint32>,
                               interfaces: Option<seq<uint32>>, sourceFile: Option<seq<byte>>,
                               annotations: Option<Directory>, classData: Option<ClassData>,
                               staticValues: Option<seq<Value>>)

  // ---- encoded values

  predicate Unchecked(k: EncodedValues.Kind) {
    k == EncodedValues.MethodType || k == EncodedValues.MethodHandle
  }

  /** Compares types and then values. Indices of method types and method handles are not looked at. */
  predicate VerifyValue(a: Value, b: Value)
    decreases a, 1
  {
    match (a, b)
    case (Byte(x), Byte(y)) => x == y
    case (Short(x), Short(y)) => x == y
    case (Char(x), Char(y)) => x == y
    case (Int(x), Int(y)) => x == y
    case (Long(x), Long(y)) => x == y
    case (Float(x), Float(y)) => x == y
    case (Double(x), Double(y)) => x == y
    case (Ref(k, x), Ref(l, y)) => k == l && (Unchecked(k) || x == y)
    case (Array(x), Array(y)) => |x| == |y| && VerifyValues(x, y)
    case (Annotated(x), Annotated(y)) => VerifyAnnotation(x, y)
    case (Null, Null) => true
    case (Boolean(x), Boolean(y)) => x == y
    case (Unknown(x), Unknown(y)) => x == y
    case _ => false
  }

  predicate VerifyValues(a: seq<Value>, b: seq<Value>)
    requires |a| == |b|
    decreases a, 0
  {
    a == [] || (VerifyValue(a[0], b[0]) && VerifyValues(a[1..], b[1..]))
  }

  predicate VerifyAnnotation(a: Annotation, b: Annotation)
    decreases a, 1
  {
    a.typeIndex == b.typeIndex && |a.elements| == |b.elements| && VerifyElements(a.elements, b.elements)
  }

  predicate VerifyElements(a: seq<Element>, b: seq<Element>)
    requires |a| == |b|
    decreases a, 0
  {
    a == [] || (VerifyElement(a[0], b[0]) && VerifyElements(a[1..], b[1..]))
  }

  predicate VerifyElement(a: Element, b: Element)
    decreases a, 1
  {
    a.name == b.name && VerifyValue(a.value, b.value)
  }

  /** The value without the indices that are not compared. */
  function Visible(v: Value): Value
    decreases v, 1
  {
    match v
    case Ref(k, x) => EncodedValues.Ref(k, if Unchecked(k) then 0 else x)
    case Array(x) => EncodedValues.Array(VisibleAll(x))
    case Annotated(x) => EncodedValues.Annotated(VisibleAnnotation(x))
    case _ => v
  }

  function VisibleAll(x: seq<Value>): (r: seq<Value>)
    ensures |r| == |x|
    decreases x, 0
  {
    if x == [] then [] else [Visible(x[0])] + VisibleAll(x[1..])
  }

  function VisibleAnnotation(a: Annotation): Annotation
    decreases a, 1
  {
    EncodedValues.Annotation(a.typeIndex, VisibleElements(a.elements))
  }

  function VisibleElements(x: seq<Element>): (r: seq<Element>)
    ensures |r| == |x|
    decreases x, 0
  {
    if x == [] then [] else [VisibleElement(x[0])] + VisibleElements(x[1..])
  }

  function VisibleElement(e: Element): Element
    decreases e, 1
  {
    EncodedValues.Element(e.name, Visible(e.value))
  }

  lemma {:induction false} ValueVerifiedIff(a: Value, b: Value)
    ensures VerifyValue(a, b) <==> Visible(a) == Visible(b)
    decreases a, 1
  {
    match (a, b)
    case (Array(x), Array(y)) =>
      if |x| == |y| {
        ValuesVerifiedIff(x, y);
      }
    case (Annotated(x), Annotated(y)) =>
      AnnotationVerifiedIff(x, y);
    case _ =>
  }

  lemma {:induction false} ValuesVerifiedIff(a: seq<Value>, b: seq<Value>)
    requires |a| == |b|
    ensures VerifyValues(a, b) <==> VisibleAll(a) == VisibleAll(b)
    decreases a, 0
  {
    hide VerifyValue, Visible;
    if a != [] {
      ValueVerifiedIff(a[0], b[0]);
      ValuesVerifiedIff(a[1..], b[1..]);
      HeadAndTail(Visible(a[0]), VisibleAll(a[1..]), Visible(b[0]), VisibleAll(b[1..]));
    }
  }

  lemma {:induction false} HeadAndTail<T>(a: T, s: seq<T>, b: T, t: seq<T>)
    ensures [a] + s == [b] + t <==> a == b && s == t
  {
    if [a] + s == [b] + t {
      assert ([a] + s)[0] == ([b] + t)[0];
      assert ([a] + s)[1..] == ([b] + t)[1..];
    }
  }

  lemma {:induction false} AnnotationVerifiedIff(a: Annotation, b: Annotation)
    ensures VerifyAnnotation(a, b) <==> VisibleAnnotation(a) == VisibleAnnotation(b)
    decreases a, 1
  {
    if |a.elements| == |b.elements| {
      ElementsVerifiedIff(a.elements, b.elements);
    }
  }

  lemma {:induction false} ElementsVerifiedIff(a: seq<Element>, b: seq<Element>)
    requires |a| == |b|
    ensures VerifyElements(a, b) <==> VisibleElements(a) == VisibleElements(b)
    decreases a, 0
  {
    hide VerifyElement, VisibleElement;
    if a != [] {
      ElementVerifiedIff(a[0], b[0]);
      ElementsVerifiedIff(a[1..], b[1..]);
      HeadAndTail(VisibleElement(a[0]), VisibleElements(a[1..]), VisibleElement(b[0]), VisibleElements(b[1..]));
    }
  }

  lemma {:induction false} ElementVerifiedIff(a: Element, b: Element)
    ensures VerifyElement(a, b) <==> VisibleElement(a) == VisibleElement(b)
    decreases a, 1
  {
    hide VerifyValue, Visible;
    ValueVerifiedIff(a.value, b.value);
  }

  /** No index of a method type or method handle occurs, at any depth. */
  predicate IsPlain(v: Value)
    decreases v, 1
  {
    match v
    case Ref(k, _) => k != EncodedValues.MethodType && k != EncodedValues.MethodHandle
    case Array(x) => ArePlain(x)
    case Annotated(x) => HasPlain(x.elements)
    case _ => true
  }

  predicate ArePlain(s: seq<Value>)
    decreases s, 0
  {
    s == [] || (IsPlain(s[0]) && ArePlain(s[1..]))
  }

  predicate HasPlain(s: seq<Element>)
    decreases s, 0
  {
    s == [] || (IsPlainElement(s[0]) && HasPlain(s[1..]))
  }

  predicate IsPlainElement(e: Element)
    decreases e, 1
  {
    IsPlain(e.value)
  }

  /** Strings, types, fields, methods and enums are told apart by their indices, the other two are not. */
  lemma {:induction false} RefVerified(k: EncodedValues.Kind, x: nat, y: nat)
    ensures VerifyValue(EncodedValues.Ref(k, x), EncodedValues.Ref(k, y)) <==>
        k == EncodedValues.MethodType || k == EncodedValues.MethodHandle || x == y
  {
  }

  /** Where there are no such indices nothing but the same value passes. */
  lemma {:induction false} PlainIsSame(a: Value, b: Value)
    requires IsPlain(a)
    ensures VerifyValue(a, b) <==> a == b
    decreases a, 1
  {
    match (a, b)
    case (Array(x), Array(y)) =>
      if |x| == |y| {
        PlainAreSame(x, y);
      }
    case (Annotated(x), Annotated(y)) =>
      if |x.elements| == |y.elements| {
        PlainElementsAreSame(x.elements, y.elements);
      }
    case _ =>
  }

  lemma {:induction false} PlainAreSame(a: seq<Value>, b: seq<Value>)
    requires ArePlain(a) && |a| == |b|
    ensures VerifyValues(a, b) <==> a == b
    decreases a, 0
  {
    hide VerifyValue;
    if a != [] {
      PlainIsSame(a[0], b[0]);
      PlainAreSame(a[1..], b[1..]);
      assert a == [a[0]] + a[1..] && b == [b[0]] + b[1..];
    }
  }

  lemma {:induction false} PlainElementsAreSame(a: seq<Element>, b: seq<Element>)
    requires HasPlain(a) && |a| == |b|
    ensures VerifyElements(a, b) <==> a == b
    decreases a, 0
  {
    hide VerifyElement;
    if a != [] {
      PlainElementIsSame(a[0], b[0]);
      PlainElementsAreSame(a[1..], b[1..]);
      assert a == [a[0]] + a[1..] && b == [b[0]] + b[1..];
    }
  }

  lemma {:induction false} PlainElementIsSame(a: Element, b: Element)
    requires IsPlainElement(a)
    ensures VerifyElement(a, b) <==> a == b
    decreases a, 1
  {
    hide VerifyValue;
    PlainIsSame(a.value, b.value);
  }

  // ---- members and code

  predicate VerifyList<T>(a: seq<T>, b: seq<T>, same: (T, T) -> bool) {
    |a| == |b| && forall i :: 0 <= i < |a| ==> same(a[i], b[i])
  }

  /** The comparison covers as many bytes as there are code units: half of the instructions. */
  predicate VerifyCode(a: Code, b: Code) {
    && a.registers == b.registers && a.ins == b.ins && a.outs == b.outs && a.debugInfo == b.debugInfo
    && |a.insns| == |b.insns| && a.insns[..|a.insns| / 2] == b.insns[..|b.insns| / 2]
    && a.tries == b.tries && a.handlers == b.handlers
  }

  predicate VerifyMethod(a: Method, b: Method) {
    && a.index == b.index && a.flags == b.flags
    && (if a.code.None? || b.code.None? then a.code == b.code else VerifyCode(a.code.value, b.code.value))
  }

  predicate VerifyClassData(a: ClassData, b: ClassData) {
    && a.statics == b.statics && a.instances == b.instances
    && VerifyList(a.directs, b.directs, VerifyMethod) && VerifyList(a.virtuals, b.virtuals, VerifyMethod)
  }

  predicate VerifyAnnotationItem(a: AnnotationItem, b: AnnotationItem) {
    a.visibility == b.visibility && VerifyAnnotation(a.annotation, b.annotation)
  }

  predicate VerifyOptional<T(==)>(a: Option<T>, b: Option<T>, same: (T, T) -> bool) {
    if a.None? || b.None? then a == b else same(a.value, b.value)
  }

  predicate VerifyAnnotationSet(a: AnnotationSet, b: AnnotationSet) {
    VerifyOptional(a, b, (x: seq<AnnotationItem>, y: seq<AnnotationItem>) => VerifyList(x, y, VerifyAnnotationItem))
  }

  predicate VerifyMemberSet(a: MemberSet, b: MemberSet) {
    a.index == b.index && VerifyAnnotationSet(a.annotations, b.annotations)
  }

  predicate VerifyParameterSets(a: ParameterSets, b: ParameterSets) {
    a.index == b.index && VerifyList(a.annotations, b.annotations, VerifyAnnotationSet)
  }

  predicate VerifyMemberSets(a: seq<MemberSet>, b: seq<MemberSet>) {
    VerifyList(a, b, VerifyMemberSet)
  }

  predicate VerifyDirectory(a: Directory, b: Directory) {
    && VerifyAnnotationSet(a.classSet, b.classSet)
    && VerifyOptional(a.fields, b.fields, VerifyMemberSets)
    && VerifyOptional(a.methods, b.methods, VerifyMemberSets)
    && VerifyOptional(a.parameters, b.parameters,
                      (x: seq<ParameterSets>, y: seq<ParameterSets>) => VerifyList(x, y, VerifyParameterSets))
  }

  /** A missing superclass compares like type 0, a missing source file like an empty one. */
  predicate VerifyClassDef(a: ClassDef, b: ClassDef) {
    && a.classType == b.classType && a.flags == b.flags
    && (if a.superclass.None? then 0 else a.superclass.value) == (if b.superclass.None? then 0 else b.superclass.value)
    && a.interfaces == b.interfaces
    && (if a.sourceFile.None? then [] else a.sourceFile.value)
        == (if b.sourceFile.None? then [] else b.sourceFile.value)
    && VerifyOptional(a.annotations, b.annotations, VerifyDirectory)
    && VerifyOptional(a.classData, b.classData, VerifyClassData)
    && VerifyOptional(a.staticValues, b.staticValues, (x: seq<Value>, y: seq<Value>) => |x| == |y|
        && VerifyValues(x, y))
  }

  // ---- what of a class definition is compared

  function VisibleCode(c: Code): Code {
    var n := |c.insns| / 2;
    c.(insns := c.insns[..n] + Zeros(|c.insns| - n))
  }

  function VisibleMethod(m: Method): Method {
    m.(code := if m.code.None? then None else Some(VisibleCode(m.code.value)))
  }

  function Map<T, U>(s: seq<T>, f: T -> U): (r: seq<U>)
    ensures |r| == |s| && forall i :: 0 <= i < |s| ==> r[i] == f(s[i])
  {
    seq(|s|, i requires 0 <= i < |s| => f(s[i]))
  }

  function VisibleItem(a: AnnotationItem): AnnotationItem {
    a.(annotation := VisibleAnnotation(a.annotation))
  }

  function VisibleItems(a: seq<AnnotationItem>): seq<AnnotationItem> {
    Map(a, VisibleItem)
  }

  function MapOption<T, U>(o: Option<T>, f: T -> U): Option<U> {
    if o.None? then None else Some(f(o.value))
  }

  function VisibleSet(a: AnnotationSet): AnnotationSet {
    MapOption(a, VisibleItems)
  }

  function VisibleMember(a: MemberSet): MemberSet {
    a.(annotations := VisibleSet(a.annotations))
  }

  function VisibleMembers(a: seq<MemberSet>): seq<MemberSet> {
    Map(a, VisibleMember)
  }

  function VisibleParameters(a: ParameterSets): ParameterSets {
    a.(annotations := Map(a.annotations, VisibleSet))
  }

  function VisibleDirectory(d: Directory): Directory {
    Directory(VisibleSet(d.classSet), MapOption(d.fields, VisibleMembers), MapOption(d.methods, VisibleMembers),
              MapOption(d.parameters, (x: seq<ParameterSets>) => Map(x, VisibleParameters)))
  }

  function VisibleData(d: ClassData): ClassData {
    d.(directs := Map(d.directs, VisibleMethod), virtuals := Map(d.virtuals, VisibleMethod))
  }

  function VisibleDef(c: ClassDef): ClassDef {
    c.(superclass := if c.superclass.None? then Some(0) else c.superclass,
       sourceFile := if c.sourceFile.None? then Some([]) else c.sourceFile,
       annotations := MapOption(c.annotations, VisibleDirectory),
       classData := MapOption(c.classData, VisibleData),
       staticValues := MapOption(c.staticValues, VisibleAll))
  }

  lemma {:induction false} CodeVerifiedIff(a: Code, b: Code)
    ensures VerifyCode(a, b) <==> VisibleCode(a) == VisibleCode(b)
  {
    var x, y := VisibleCode(a).insns, VisibleCode(b).insns;
    assert x[..|a.insns| / 2] == a.insns[..|a.insns| / 2];
    assert y[..|b.insns| / 2] == b.insns[..|b.insns| / 2];
  }

  lemma {:induction false} MethodVerifiedIff(a: Method, b: Method)
    ensures VerifyMethod(a, b) <==> VisibleMethod(a) == VisibleMethod(b)
  {
    hide VerifyCode, VisibleCode;
    if a.code.Some? && b.code.Some? {
      CodeVerifiedIff(a.code.value, b.code.value);
    }
  }

  lemma {:induction false} ListVerifiedIff<T, U>(a: seq<T>, b: seq<T>, same: (T, T) -> bool, f: T -> U)
    requires forall i :: 0 <= i < |a| && i < |b| ==> (same(a[i], b[i]) <==> f(a[i]) == f(b[i]))
    ensures VerifyList(a, b, same) <==> Map(a, f) == Map(b, f)
  {
    if Map(a, f) == Map(b, f) {
      forall i | 0 <= i < |a|
        ensures same(a[i], b[i])
      {
        assert Map(a, f)[i] == Map(b, f)[i];
      }
    }
  }

  lemma {:induction false} DataVerifiedIff(a: ClassData, b: ClassData)
    ensures VerifyClassData(a, b) <==> VisibleData(a) == VisibleData(b)
  {
    hide VerifyMethod, VisibleMethod, VerifyList;
    forall x, y
      ensures VerifyMethod(x, y) <==> VisibleMethod(x) == VisibleMethod(y)
    {
      MethodVerifiedIff(x, y);
    }
    ListVerifiedIff(a.directs, b.directs, VerifyMethod, VisibleMethod);
    ListVerifiedIff(a.virtuals, b.virtuals, VerifyMethod, VisibleMethod);
  }

  lemma {:induction false} ItemVerifiedIff(a: AnnotationItem, b: AnnotationItem)
    ensures VerifyAnnotationItem(a, b) <==> VisibleItem(a) == VisibleItem(b)
  {
    hide VerifyAnnotation, VisibleAnnotation;
    AnnotationVerifiedIff(a.annotation, b.annotation);
  }

  lemma {:induction false} SetVerifiedIff(a: AnnotationSet, b: AnnotationSet)
    ensures VerifyAnnotationSet(a, b) <==> VisibleSet(a) == VisibleSet(b)
  {
    hide VerifyList, VerifyAnnotationItem, VisibleItem;
    if a.Some? && b.Some? {
      forall x, y
        ensures VerifyAnnotationItem(x, y) <==> VisibleItem(x) == VisibleItem(y)
      {
        ItemVerifiedIff(x, y);
      }
      ListVerifiedIff(a.value, b.value, VerifyAnnotationItem, VisibleItem);
    }
  }

  lemma {:induction false} MemberSetsVerifiedIff(a: seq<MemberSet>, b: seq<MemberSet>)
    ensures VerifyMemberSets(a, b) <==> VisibleMembers(a) == VisibleMembers(b)
  {
    hide VerifyList, VerifyAnnotationSet, VisibleSet, Map;
    forall x: MemberSet, y: MemberSet
      ensures VerifyMemberSet(x, y) <==> VisibleMember(x) == VisibleMember(y)
    {
      SetVerifiedIff(x.annotations, y.annotations);
    }
    ListVerifiedIff(a, b, VerifyMemberSet, VisibleMember);
  }

  lemma {:induction false} ParametersVerifiedIff(a: ParameterSets, b: ParameterSets)
    ensures VerifyParameterSets(a, b) <==> VisibleParameters(a) == VisibleParameters(b)
  {
    hide VerifyList, VerifyAnnotationSet, VisibleSet, Map;
    forall x, y
      ensures VerifyAnnotationSet(x, y) <==> VisibleSet(x) == VisibleSet(y)
    {
      SetVerifiedIff(x, y);
    }
    ListVerifiedIff(a.annotations, b.annotations, VerifyAnnotationSet, VisibleSet);
  }

  lemma {:induction false} DirectoryVerifiedIff(a: Directory, b: Directory)
    ensures VerifyDirectory(a, b) <==> VisibleDirectory(a) == VisibleDirectory(b)
  {
    hide VerifyList, VerifyAnnotationSet, VisibleSet, VerifyParameterSets, VisibleParameters, VerifyMemberSets,
        VisibleMembers, Map;
    SetVerifiedIff(a.classSet, b.classSet);
    if a.fields.Some? && b.fields.Some? {
      MemberSetsVerifiedIff(a.fields.value, b.fields.value);
    }
    if a.methods.Some? && b.methods.Some? {
      MemberSetsVerifiedIff(a.methods.value, b.methods.value);
    }
    if a.parameters.Some? && b.parameters.Some? {
      forall x, y
        ensures VerifyParameterSets(x, y) <==> VisibleParameters(x) == VisibleParameters(y)
      {
        ParametersVerifiedIff(x, y);
      }
      ListVerifiedIff(a.parameters.value, b.parameters.value, VerifyParameterSets, VisibleParameters);
    }
  }

  /** Two definitions pass exactly when they agree in everything that is looked at. */
  lemma {:induction false} DefVerifiedIff(a: ClassDef, b: ClassDef)
    ensures VerifyClassDef(a, b) <==> VisibleDef(a) == VisibleDef(b)
  {
    hide VerifyDirectory, VisibleDirectory, VerifyClassData, VisibleData, VerifyValues, VisibleAll;
    if a.annotations.Some? && b.annotations.Some? {
      DirectoryVerifiedIff(a.annotations.value, b.annotations.value);
    }
    if a.classData.Some? && b.classData.Some? {
      DataVerifiedIff(a.classData.value, b.classData.value);
    }
    if a.staticValues.Some? && b.staticValues.Some? && |a.staticValues.value| == |b.staticValues.value| {
      ValuesVerifiedIff(a.staticValues.value, b.staticValues.value);
    }
  }

  // ---- definitions without such references

  predicate PlainSet(s: AnnotationSet) {
    s.Some? ==> forall i :: 0 <= i < |s.value| ==> HasPlain(s.value[i].annotation.elements)
  }

  predicate PlainMembers(s: Option<seq<MemberSet>>) {
    s.Some? ==> forall i :: 0 <= i < |s.value| ==> PlainSet(s.value[i].annotations)
  }

  predicate PlainDirectory(d: Directory) {
    && PlainSet(d.classSet) && PlainMembers(d.fields) && PlainMembers(d.methods)
    && (d.parameters.Some? ==> forall i, j ::
          0 <= i < |d.parameters.value| && 0 <= j < |d.parameters.value[i].annotations| ==>
            PlainSet(d.parameters.value[i].annotations[j]))
  }

  /** Superclass and source file are there, and no method types or method handles are referred to. */
  predicate PlainDef(c: ClassDef) {
    && c.superclass.Some? && c.sourceFile.Some? && (c.annotations.Some? ==> PlainDirectory(c.annotations.value))
    && (c.staticValues.Some? ==> ArePlain(c.staticValues.value))
  }

  /** The same but for the second half of the bytes of the instructions. */
  ghost predicate AlikeCode(a: Code, b: Code) {
    && b == a.(insns := b.insns) && |a.insns| == |b.insns|
    && forall i :: 0 <= i && 2 * i + 1 < |a.insns| ==> a.insns[i] == b.insns[i]
  }

  ghost predicate AlikeMethods(a: seq<Method>, b: seq<Method>) {
    |a| == |b| && forall i :: 0 <= i < |a| ==> AlikeMethod(a[i], b[i])
  }

  ghost predicate AlikeMethod(a: Method, b: Method) {
    && b == a.(code := b.code) && a.code.Some? == b.code.Some?
    && (a.code.Some? ==> AlikeCode(a.code.value, b.code.value))
  }

  ghost predicate Alike(a: ClassDef, b: ClassDef) {
    && b == a.(classData := b.classData) && a.classData.Some? == b.classData.Some?
    && (a.classData.Some? ==>
          var x, y := a.classData.value, b.classData.value;
          && x.statics == y.statics && x.instances == y.instances
          && AlikeMethods(x.directs, y.directs) && AlikeMethods(x.virtuals, y.virtuals))
  }

  lemma {:induction false} CodeIsAlike(a: Code, b: Code)
    ensures VerifyCode(a, b) <==> AlikeCode(a, b)
  {
    var n := |a.insns| / 2;
    if |a.insns| == |b.insns| {
      assert a.insns[..n] == b.insns[..n] <==> forall i :: 0 <= i < n ==> a.insns[..n][i] == b.insns[..n][i];
    }
  }

  lemma {:induction false} MethodsAreAlike(a: seq<Method>, b: seq<Method>)
    ensures VerifyList(a, b, VerifyMethod) <==> AlikeMethods(a, b)
  {
    hide VerifyCode, AlikeCode;
    forall i | 0 <= i < |a| && i < |b|
      ensures VerifyMethod(a[i], b[i]) <==> AlikeMethod(a[i], b[i])
    {
      if a[i].code.Some? && b[i].code.Some? {
        CodeIsAlike(a[i].code.value, b[i].code.value);
      }
    }
  }

  lemma {:induction false} AnnotationIsSame(a: Annotation, b: Annotation)
    requires HasPlain(a.elements)
    ensures VerifyAnnotation(a, b) <==> a == b
  {
    hide VerifyElements;
    if |a.elements| == |b.elements| {
      PlainElementsAreSame(a.elements, b.elements);
    }
  }

  lemma {:induction false} ListIsSame<T>(a: seq<T>, b: seq<T>, same: (T, T) -> bool)
    requires forall i :: 0 <= i < |a| && i < |b| ==> (same(a[i], b[i]) <==> a[i] == b[i])
    ensures VerifyList(a, b, same) <==> a == b
  {
  }

  lemma {:induction false} SetIsSame(a: AnnotationSet, b: AnnotationSet)
    requires PlainSet(a)
    ensures VerifyAnnotationSet(a, b) <==> a == b
  {
    hide VerifyAnnotation, HasPlain;
    if a.Some? && b.Some? {
      forall i | 0 <= i < |a.value| && i < |b.value|
        ensures VerifyAnnotationItem(a.value[i], b.value[i]) <==> a.value[i] == b.value[i]
      {
        AnnotationIsSame(a.value[i].annotation, b.value[i].annotation);
      }
      ListIsSame(a.value, b.value, VerifyAnnotationItem);
    }
  }

  lemma {:induction false} MembersAreSame(a: Option<seq<MemberSet>>, b: Option<seq<MemberSet>>)
    requires PlainMembers(a)
    ensures VerifyOptional(a, b, VerifyMemberSets) <==> a == b
  {
    hide VerifyAnnotationSet, PlainSet;
    if a.Some? && b.Some? {
      forall i | 0 <= i < |a.value| && i < |b.value|
        ensures VerifyMemberSet(a.value[i], b.value[i]) <==> a.value[i] == b.value[i]
      {
        SetIsSame(a.value[i].annotations, b.value[i].annotations);
      }
      ListIsSame(a.value, b.value, VerifyMemberSet);
    }
  }

  lemma {:induction false} ParametersAreSame(a: ParameterSets, b: ParameterSets)
    requires forall j :: 0 <= j < |a.annotations| ==> PlainSet(a.annotations[j])
    ensures VerifyParameterSets(a, b) <==> a == b
  {
    hide VerifyAnnotationSet, PlainSet;
    forall j | 0 <= j < |a.annotations| && j < |b.annotations|
      ensures VerifyAnnotationSet(a.annotations[j], b.annotations[j]) <==> a.annotations[j] == b.annotations[j]
    {
      SetIsSame(a.annotations[j], b.annotations[j]);
    }
    ListIsSame(a.annotations, b.annotations, VerifyAnnotationSet);
  }

  lemma {:induction false} DirectoryIsSame(a: Directory, b: Directory)
    requires PlainDirectory(a)
    ensures VerifyDirectory(a, b) <==> a == b
  {
    hide VerifyAnnotationSet, PlainSet, VerifyMemberSets, PlainMembers, VerifyParameterSets;
    SetIsSame(a.classSet, b.classSet);
    MembersAreSame(a.fields, b.fields);
    MembersAreSame(a.methods, b.methods);
    if a.parameters.Some? && b.parameters.Some? {
      forall i | 0 <= i < |a.parameters.value| && i < |b.parameters.value|
        ensures VerifyParameterSets(a.parameters.value[i], b.parameters.value[i]) <==>
            a.parameters.value[i] == b.parameters.value[i]
      {
        ParametersAreSame(a.parameters.value[i], b.parameters.value[i]);
      }
      ListIsSame(a.parameters.value, b.parameters.value, VerifyParameterSets);
    }
  }

  lemma {:induction false} DataIsAlike(a: ClassData, b: ClassData)
    ensures VerifyClassData(a, b) <==>
        && a.statics == b.statics && a.instances == b.instances
        && AlikeMethods(a.directs, b.directs) && AlikeMethods(a.virtuals, b.virtuals)
  {
    hide VerifyList, AlikeMethods;
    MethodsAreAlike(a.directs, b.directs);
    MethodsAreAlike(a.virtuals, b.virtuals);
  }

  /** Such definitions pass exactly when they are the same but for half of their instructions. */
  lemma {:induction false} DefIsAlike(a: ClassDef, b: ClassDef)
    requires PlainDef(a) && PlainDef(b)
    ensures VerifyClassDef(a, b) <==> Alike(a, b)
  {
    hide VerifyDirectory, PlainDirectory, VerifyClassData, VerifyValues, ArePlain, AlikeMethods;
    if a.annotations.Some? && b.annotations.Some? {
      DirectoryIsSame(a.annotations.value, b.annotations.value);
    }
    if a.classData.Some? && b.classData.Some? {
      DataIsAlike(a.classData.value, b.classData.value);
    }
    if a.staticValues.Some? && b.staticValues.Some? && |a.staticValues.value| == |b.staticValues.value| {
      PlainAreSame(a.staticValues.value, b.staticValues.value);
    }
  }

  /** A superclass that is missing passes for type 0, and a source file that is missing for an empty one. */
  lemma {:induction false} MissingPasses(c: ClassDef)
    ensures VerifyClassDef(c.(superclass := None), c.(superclass := Some(0)))
    ensures VerifyClassDef(c.(sourceFile := None), c.(sourceFile := Some([])))
  {
    hide VisibleDirectory, VisibleData, VisibleAll;
    DefVerifiedIff(c.(superclass := None), c.(superclass := Some(0)));
    DefVerifiedIff(c.(sourceFile := None), c.(sourceFile := Some([])));
  }

  // ---- lining up by type index

  ghost predicate Ascending(s: seq<ClassDef>) {
    forall i, j :: 0 <= i < j < |s| ==> s[i].classType < s[j].classType
  }

  ghost predicate IsFirst(c: ClassDef, defs: seq<ClassDef>) {
    exists i :: 0 <= i < |defs| && defs[i] == c && NotBefore(c.classType, defs, i)
  }

  ghost predicate NotBefore(t: uint32, defs: seq<ClassDef>, i: nat)
    requires i <= |defs|
  {
    forall j :: 0 <= j < i ==> defs[j].classType != t
  }

  /** Of each type the first definition, sorted by type index. */
  ghost predicate SetOf(s: seq<ClassDef>, defs: seq<ClassDef>) {
    Ascending(s) && (forall c :: c in s <==> IsFirst(c, defs)) && Types(s) == Types(defs)
  }

  ghost function Types(s: seq<ClassDef>): set<uint32> {
    set c | c in s :: c.classType
  }

  /** What is looked at, of all definitions, without their order. */
  ghost function Looks(s: seq<ClassDef>): set<ClassDef> {
    set c | c in s :: VisibleDef(c)
  }

  ghost predicate DistinctTypes(defs: seq<ClassDef>) {
    forall i, j :: 0 <= i < j < |defs| ==> defs[i].classType != defs[j].classType
  }

  /** A definition whose type is there already is not inserted. */
  function Inserted(s: seq<ClassDef>, c: ClassDef): seq<ClassDef> {
    if s == [] then [c]
    else if s[0].classType < c.classType then [s[0]] + Inserted(s[1..], c)
    else if s[0].classType == c.classType then s
    else [c] + s
  }

  /** What both sets hold after the loop. */
  function Firsts(defs: seq<ClassDef>): seq<ClassDef> {
    if defs == [] then [] else Inserted(Firsts(defs[..|defs| - 1]), defs[|defs| - 1])
  }

  lemma {:induction false} InsertedBehind(s: seq<ClassDef>, c: ClassDef, i: nat)
    requires i <= |s| && forall j :: 0 <= j < i ==> s[j].classType < c.classType
    ensures Inserted(s, c) == s[..i] + Inserted(s[i..], c)
  {
    if i == 0 {
      assert s[0..] == s;
    } else {
      InsertedBehind(s[1..], c, i - 1);
      assert s[1..][i - 1..] == s[i..] && [s[0]] + s[1..][..i - 1] == s[..i];
      assert [s[0]] + (s[1..][..i - 1] + Inserted(s[i..], c)) == s[..i] + Inserted(s[i..], c);
    }
  }

  method Insert(s: seq<ClassDef>, c: ClassDef) returns (r: seq<ClassDef>)
    requires Ascending(s)
    ensures r == Inserted(s, c)
    ensures Ascending(r)
    ensures forall d :: d in r <==> d in s || (d == c && forall e :: e in s ==> e.classType != c.classType)
    ensures exists d :: d in r && d.classType == c.classType
  {
    var i := 0;
    while i < |s| && s[i].classType < c.classType
      invariant i <= |s| && forall j :: 0 <= j < i ==> s[j].classType < c.classType
    {
      i := i + 1;
    }
    InsertedBehind(s, c, i);
    if i < |s| && s[i].classType == c.classType {
      r := s;
      assert s[i] in r && s == s[..i] + s[i..];
    } else {
      assert forall j :: i <= j < |s| ==> s[j].classType > c.classType;
      r := s[..i] + [c] + s[i..];
      assert s[..i] + ([c] + s[i..]) == r;
      InsertedAt(s, c, i);
    }
  }

  lemma {:induction false} InsertedAt(s: seq<ClassDef>, c: ClassDef, i: nat)
    requires Ascending(s) && i <= |s|
    requires (forall j :: 0 <= j < i ==> s[j].classType < c.classType)
        && (forall j :: i <= j < |s| ==> s[j].classType > c.classType)
    ensures var r := s[..i] + [c] + s[i..];
            Ascending(r) && c in r && (forall d :: d in r <==> d in s || d == c) && forall e :: e in s ==>
                e.classType != c.classType
  {
    var r := s[..i] + [c] + s[i..];
    assert r[i] == c;
    forall d
      ensures d in r <==> d in s || d == c
    {
      assert s == s[..i] + s[i..];
    }
    forall j, k | 0 <= j < k < |r|
      ensures r[j].classType < r[k].classType
    {
    }
  }

  /** The first definition of each type, in order of types. */
  method SortIntoSet(defs: seq<ClassDef>) returns (s: seq<ClassDef>)
    ensures s == Firsts(defs) && SetOf(s, defs)
  {
    hide Ascending, SetOf, Inserted;
    s := [];
    Empty();
    assert defs[..0] == [];
    for i := 0 to |defs|
      invariant s == Firsts(defs[..i]) && SetOf(s, defs[..i])
    {
      assert defs[..i + 1] == defs[..i] + [defs[i]] && defs[..i + 1][..i] == defs[..i];
      ghost var before := s;
      SetAscends(s, defs[..i]);
      s := Insert(s, defs[i]);
      InsertKeeps(before, defs[..i], defs[i], s);
    }
    assert defs[..|defs|] == defs;
  }

  lemma {:induction false} SetAscends(s: seq<ClassDef>, defs: seq<ClassDef>)
    requires SetOf(s, defs)
    ensures Ascending(s)
  {
  }

  lemma {:induction false} Empty()
    ensures SetOf([], [])
  {
  }

  lemma {:induction false} InsertKeeps(s: seq<ClassDef>, defs: seq<ClassDef>, c: ClassDef, r: seq<ClassDef>)
    requires SetOf(s, defs) && Ascending(r)
    requires forall d :: d in r <==> d in s || (d == c && forall e :: e in s ==> e.classType != c.classType)
    requires exists d :: d in r && d.classType == c.classType
    ensures SetOf(r, defs + [c])
  {
    hide Ascending;
    assert Types(defs + [c]) == Types(defs) + {c.classType};
    assert Types(r) == Types(s) + {c.classType};
    assert (forall e :: e in s ==> e.classType != c.classType) <==> c.classType !in Types(s);
    NewType(defs, c.classType);
    forall d
      ensures d in r <==> IsFirst(d, defs + [c])
    {
      FirstOneMore(defs, c, d);
    }
  }

  lemma {:induction false} NewType(defs: seq<ClassDef>, t: uint32)
    ensures t !in Types(defs) <==> NotBefore(t, defs, |defs|)
  {
    if t !in Types(defs) {
      forall j | 0 <= j < |defs|
        ensures defs[j].classType != t
      {
        assert defs[j] in defs;
      }
    }
  }

  lemma {:induction false} FirstOneMore(defs: seq<ClassDef>, c: ClassDef, d: ClassDef)
    ensures IsFirst(d, defs + [c]) <==> IsFirst(d, defs) || (d == c && NotBefore(c.classType, defs, |defs|))
  {
    var more := defs + [c];
    assert forall j :: 0 <= j < |defs| ==> defs[j] == more[j];
    if IsFirst(d, more) {
      var i :| 0 <= i < |more| && more[i] == d && NotBefore(d.classType, more, i);
      if i < |defs| {
        assert defs[i] == d && NotBefore(d.classType, defs, i);
      }
    }
    if IsFirst(d, defs) {
      var i :| 0 <= i < |defs| && defs[i] == d && NotBefore(d.classType, defs, i);
      assert more[i] == d && NotBefore(d.classType, more, i);
    } else if d == c && NotBefore(c.classType, defs, |defs|) {
      assert more[|defs|] == d && NotBefore(d.classType, more, |defs|);
    }
  }

  lemma {:induction false} DistinctLength(s: seq<ClassDef>)
    requires forall i, j :: 0 <= i < j < |s| ==> s[i] != s[j]
    ensures |set c | c in s| == |s|
  {
    if s != [] {
      var n := |s| - 1;
      DistinctLength(s[..n]);
      assert (set c | c in s) == (set c | c in s[..n]) + {s[n]};
    }
  }

  /** With distinct types nothing is lost in the set. */
  lemma {:induction false} SetIsAll(s: seq<ClassDef>, defs: seq<ClassDef>)
    requires SetOf(s, defs) && DistinctTypes(defs)
    ensures |s| == |defs| && forall c :: c in s <==> c in defs
  {
    forall c | c in defs
      ensures c in s
    {
      var i :| 0 <= i < |defs| && defs[i] == c;
      assert NotBefore(c.classType, defs, i);
      assert IsFirst(c, defs);
    }
    assert (set c | c in s) == (set c | c in defs);
    DistinctLength(s);
    DistinctLength(defs);
  }

  lemma {:induction false} VisibleKeepsType(c: ClassDef, d: ClassDef)
    requires VisibleDef(c) == VisibleDef(d)
    ensures c.classType == d.classType
  {
  }

  /** The definition on the other side that looks the same. */
  lemma {:induction false} Partner(a: seq<ClassDef>, b: seq<ClassDef>, i: nat) returns (k: nat)
    requires Looks(a) <= Looks(b) && i < |a|
    ensures k < |b| && VisibleDef(b[k]) == VisibleDef(a[i]) && b[k].classType == a[i].classType
  {
    hide VisibleDef;
    assert VisibleDef(a[i]) in Looks(a);
    var d :| d in b && VisibleDef(d) == VisibleDef(a[i]);
    k :| 0 <= k < |b| && b[k] == d;
    VisibleKeepsType(b[k], a[i]);
  }

  lemma {:induction false} FirstsMatch(a: seq<ClassDef>, b: seq<ClassDef>)
    requires Ascending(a) && Ascending(b) && Looks(a) == Looks(b) && a != []
    ensures b != [] && VisibleDef(a[0]) == VisibleDef(b[0]) && a[0].classType == b[0].classType
  {
    hide VisibleDef, Looks;
    var k := Partner(a, b, 0);
    var j := Partner(b, a, 0);
  }

  lemma {:induction false} TailsMatch(a: seq<ClassDef>, b: seq<ClassDef>)
    requires Ascending(a) && Ascending(b) && Looks(a) <= Looks(b) && a != [] && b != []
        && a[0].classType == b[0].classType
    ensures Looks(a[1..]) <= Looks(b[1..])
  {
    forall v | v in Looks(a[1..])
      ensures v in Looks(b[1..])
    {
      var c :| c in a[1..] && VisibleDef(c) == v;
      hide VisibleDef;
      var j :| 0 <= j < |a| - 1 && a[1..][j] == c;
      var k := Partner(a, b, j + 1);
      assert k > 0 && b[1..][k - 1] == b[k];
    }
  }

  /** Sorted by type, two files that agree up to order agree element by element. */
  lemma {:induction false} LinedUp(a: seq<ClassDef>, b: seq<ClassDef>)
    requires Ascending(a) && Ascending(b) && Looks(a) == Looks(b)
    ensures |a| == |b| && forall i :: 0 <= i < |a| ==> VisibleDef(a[i]) == VisibleDef(b[i])
    decreases |a|
  {
    hide VisibleDef, Looks;
    if a == [] {
      if b != [] {
        FirstsMatch(b, a);
      }
    } else {
      FirstsMatch(a, b);
      TailsMatch(a, b);
      TailsMatch(b, a);
      LinedUp(a[1..], b[1..]);
      forall i | 0 <= i < |a|
        ensures VisibleDef(a[i]) == VisibleDef(b[i])
      {
        if i > 0 {
          assert a[1..][i - 1] == a[i] && b[1..][i - 1] == b[i];
        }
      }
    }
  }

  lemma {:induction false} MatchedIsSame(a: seq<ClassDef>, b: seq<ClassDef>)
    requires |a| == |b| && forall i :: 0 <= i < |a| ==> VisibleDef(a[i]) == VisibleDef(b[i])
    ensures Looks(a) == Looks(b)
  {
    hide VisibleDef;
    forall v
      ensures v in Looks(a) <==> v in Looks(b)
    {
      if v in Looks(a) {
        var i :| 0 <= i < |a| && VisibleDef(a[i]) == v;
        assert b[i] in b;
      }
      if v in Looks(b) {
        var i :| 0 <= i < |b| && VisibleDef(b[i]) == v;
        assert a[i] in a;
      }
    }
  }

  lemma {:induction false} SameElementsLook(a: seq<ClassDef>, b: seq<ClassDef>)
    requires forall c :: c in a <==> c in b
    ensures Looks(a) == Looks(b)
  {
    hide VisibleDef;
  }

  /** What the walk over both sets decides. */
  lemma {:induction false} WalkDecides(a: seq<ClassDef>, orig: seq<ClassDef>, b: seq<ClassDef>, output: seq<ClassDef>)
    requires SetOf(a, orig) && SetOf(b, output) && DistinctTypes(orig) && DistinctTypes(output) && |orig| == |output|
    ensures (forall i :: 0 <= i < |a| && i < |b| ==> VerifyClassDef(a[i], b[i])) <==> Looks(orig) == Looks(output)
  {
    hide VerifyClassDef, VisibleDef, SetOf, DistinctTypes, Looks;
    SetIsAll(a, orig);
    SetIsAll(b, output);
    SameElementsLook(a, orig);
    SameElementsLook(b, output);
    forall i | 0 <= i < |a|
      ensures VerifyClassDef(a[i], b[i]) <==> VisibleDef(a[i]) == VisibleDef(b[i])
    {
      DefVerifiedIff(a[i], b[i]);
    }
    if Looks(orig) == Looks(output) {
      SetsAscend(a, orig, b, output);
      LinedUp(a, b);
    }
    if forall i :: 0 <= i < |a| ==> VerifyClassDef(a[i], b[i]) {
      MatchedIsSame(a, b);
    }
  }

  lemma {:induction false} SetsAscend(a: seq<ClassDef>, orig: seq<ClassDef>, b: seq<ClassDef>, output: seq<ClassDef>)
    requires SetOf(a, orig) && SetOf(b, output)
    ensures Ascending(a) && Ascending(b)
  {
  }

  /** The walk over both sets stops at the end of the shorter one. */
  ghost predicate AgreeSoFar(a: seq<ClassDef>, b: seq<ClassDef>) {
    forall i :: 0 <= i < |a| && i < |b| ==> VisibleDef(a[i]) == VisibleDef(b[i])
  }

  /** What is accepted, for any two files. */
  ghost predicate Accepted(orig: seq<ClassDef>, output: seq<ClassDef>) {
    |orig| == |output| && AgreeSoFar(Firsts(orig), Firsts(output))
  }

  lemma {:induction false} WalkAgrees(a: seq<ClassDef>, b: seq<ClassDef>)
    ensures (forall i :: 0 <= i < |a| && i < |b| ==> VerifyClassDef(a[i], b[i])) <==> AgreeSoFar(a, b)
  {
    hide VerifyClassDef, VisibleDef;
    forall i | 0 <= i < |a| && i < |b|
      ensures VerifyClassDef(a[i], b[i]) <==> VisibleDef(a[i]) == VisibleDef(b[i])
    {
      DefVerifiedIff(a[i], b[i]);
    }
  }

  ghost predicate AllPlain(defs: seq<ClassDef>) {
    forall c :: c in defs ==> PlainDef(c)
  }

  /** Every definition is there, the same but for half of its instructions. */
  ghost predicate AllThere(orig: seq<ClassDef>, output: seq<ClassDef>) {
    forall c :: c in orig ==> exists d :: d in output && Alike(c, d)
  }

  lemma {:induction false} LooksAlike(c: ClassDef, d: ClassDef)
    requires PlainDef(c) && PlainDef(d)
    ensures VisibleDef(c) == VisibleDef(d) <==> Alike(c, d)
    ensures Alike(c, d) ==> c.classType == d.classType
  {
    hide VerifyClassDef, VisibleDef, PlainDef;
    DefVerifiedIff(c, d);
    DefIsAlike(c, d);
  }

  lemma {:induction false} SameCount(a: set<uint32>, b: set<uint32>)
    requires a <= b && |a| == |b|
    ensures a == b
  {
    if a != {} {
      var x :| x in a;
      SameCount(a - {x}, b - {x});
    }
  }

  lemma {:induction false} TypeCount(defs: seq<ClassDef>)
    requires DistinctTypes(defs)
    ensures |Types(defs)| == |defs|
  {
    if defs != [] {
      var n := |defs| - 1;
      TypeCount(defs[..n]);
      assert Types(defs) == Types(defs[..n]) + {defs[n].classType};
    }
  }

  lemma {:induction false} OneOfType(defs: seq<ClassDef>, c: ClassDef, d: ClassDef)
    requires DistinctTypes(defs) && c in defs && d in defs && c.classType == d.classType
    ensures c == d
  {
  }

  /** If each definition is found on the other side there is none left over there. */
  lemma {:induction false} NoneLeftOver(orig: seq<ClassDef>, output: seq<ClassDef>)
    requires DistinctTypes(orig) && DistinctTypes(output) && |orig| == |output| && AllThere(orig, output)
    requires AllPlain(orig) && AllPlain(output)
    ensures forall d :: d in output ==> exists c :: c in orig && Alike(c, d)
  {
    hide Alike, DistinctTypes, PlainDef;
    forall t | t in Types(orig)
      ensures t in Types(output)
    {
      var c :| c in orig && c.classType == t;
      var d :| d in output && Alike(c, d);
      LooksAlike(c, d);
    }
    TypeCount(orig);
    TypeCount(output);
    SameCount(Types(orig), Types(output));
    forall d | d in output
      ensures exists c :: c in orig && Alike(c, d)
    {
      assert d.classType in Types(orig);
      var c :| c in orig && c.classType == d.classType;
      var e :| e in output && Alike(c, e);
      LooksAlike(c, e);
      OneOfType(output, d, e);
    }
  }

  lemma {:induction false} LooksMeansThere(orig: seq<ClassDef>, output: seq<ClassDef>)
    requires DistinctTypes(orig) && DistinctTypes(output) && |orig| == |output|
    requires AllPlain(orig) && AllPlain(output)
    ensures Looks(orig) == Looks(output) <==> AllThere(orig, output)
  {
    hide Alike, DistinctTypes, PlainDef, VisibleDef;
    forall c, d | c in orig && d in output
      ensures VisibleDef(c) == VisibleDef(d) <==> Alike(c, d)
    {
      LooksAlike(c, d);
    }
    if AllThere(orig, output) {
      NoneLeftOver(orig, output);
    }
    if Looks(orig) == Looks(output) {
      forall c | c in orig
        ensures exists d :: d in output && Alike(c, d)
      {
        assert VisibleDef(c) in Looks(orig);
      }
    }
  }

  /** Accepted exactly when there are as many definitions and the first ones of each type agree, in order
      of types and up to the end of the shorter list, in all that is looked at. With distinct types on
      each side that means that nothing but the order has changed. */
  method VerifyClassDefs(orig: seq<ClassDef>, output: seq<ClassDef>) returns (ok: bool)
    ensures ok <==> Accepted(orig, output)
    ensures DistinctTypes(orig) && DistinctTypes(output) ==>
        (ok <==> |orig| == |output| && Looks(orig) == Looks(output))
    ensures DistinctTypes(orig) && DistinctTypes(output) && AllPlain(orig) && AllPlain(output) ==>
        (ok <==> |orig| == |output| && AllThere(orig, output))
  {
    hide SetOf, VerifyClassDef, DistinctTypes, Looks, Firsts, AgreeSoFar, AllPlain, AllThere;
    if |orig| != |output| {
      return false;
    }
    if DistinctTypes(orig) && DistinctTypes(output) && AllPlain(orig) && AllPlain(output) {
      LooksMeansThere(orig, output);
    }
    var origSet := SortIntoSet(orig);
    var outputSet := SortIntoSet(output);
    WalkAgrees(origSet, outputSet);
    if DistinctTypes(orig) && DistinctTypes(output) {
      WalkDecides(origSet, orig, outputSet, output);
    }
    var i := 0;
    while i < |origSet| && i < |outputSet|
      invariant i <= |origSet| && i <= |outputSet| && forall j :: 0 <= j < i ==>
          VerifyClassDef(origSet[j], outputSet[j])
    {
      if !VerifyClassDef(origSet[i], outputSet[i]) {
        return false;
      }
      i := i + 1;
    }
    return true;
  }

  // ---- what gets past it

  function Copies(c: ClassDef, n: nat): seq<ClassDef> {
    seq(n, i => c)
  }

  /** Definitions of one type count as the first of them. */
  lemma {:induction false} FirstOfOneType(c: ClassDef, more: seq<ClassDef>)
    requires forall d :: d in more ==> d.classType == c.classType
    ensures Firsts([c] + more) == [c]
  {
    var defs := [c] + more;
    if more == [] {
      assert defs == [c] && Firsts([c][..0]) == [];
    } else {
      var n := |more| - 1;
      FirstOfOneType(c, more[..n]);
      assert defs[..n + 1] == [c] + more[..n];
      assert more[n] in more;
    }
  }

  /** A changed definition passes behind another one of its type, and a definition may be lost altogether
      if one that comes before it appears twice instead. */
  lemma {:induction false} DuplicateTypeIsNotSeen(c: ClassDef, d: ClassDef, e: ClassDef)
    requires c.classType == d.classType && VisibleDef(c) != VisibleDef(d) && c.classType < e.classType
    ensures Accepted([c, c], [c, d]) && Looks([c, c]) != Looks([c, d])
    ensures Accepted([c, e], [c, c]) && Looks([c, e]) != Looks([c, c])
  {
    hide VisibleDef;
    FirstOfOneType(c, [c]);
    FirstOfOneType(c, [d]);
    FirstOfOneType(c, []);
    assert [c] + [c] == [c, c] && [c] + [d] == [c, d] && [c] + [] == [c] == [c, e][..1];
    assert [c][1..] == [];
    assert Firsts([c, e]) == [c] + Inserted([], e);
    assert Looks([c, c]) == {VisibleDef(c)};
    assert [c, d][1] == d && [c, e][1] == e;
    assert VisibleDef(d) in Looks([c, d]) && VisibleDef(e) in Looks([c, e]);
    if VisibleDef(c) == VisibleDef(e) {
      VisibleKeepsType(c, e);
    }
  }

  lemma {:induction false} FlagsAreVisible(c: ClassDef, d: ClassDef)
    requires c.flags != d.flags
    ensures VisibleDef(c) != VisibleDef(d)
  {
  }

  /** A file with two or more definitions has a changed version that is accepted. */
  lemma {:induction false} SomeChangePasses(orig: seq<ClassDef>) returns (output: seq<ClassDef>)
    requires |orig| >= 2
    ensures Accepted(orig, output) && Looks(orig) != Looks(output)
  {
    hide VisibleDef, Looks, Firsts;
    var n := |orig| - 1;
    var a := FirstsHead(orig);
    output := [a] + Copies(a, n);
    FirstOfOneType(a, Copies(a, n));
    LooksOfCopies(a, a, n);
    if Looks(orig) == {VisibleDef(a)} {
      var b := a.(flags := if a.flags == 0 then 1 else 0);
      FlagsAreVisible(a, b);
      FirstOfOneType(a, Copies(b, n));
      LooksOfCopies(a, b, n);
      output := [a] + Copies(b, n);
      assert VisibleDef(b) !in Looks(orig);
    }
  }

  lemma {:induction false} FirstsHead(orig: seq<ClassDef>) returns (a: ClassDef)
    requires orig != []
    ensures Firsts(orig) != [] && a == Firsts(orig)[0]
  {
    var n := |orig| - 1;
    if n > 0 {
      var _ := FirstsHead(orig[..n]);
    }
    a := Firsts(orig)[0];
  }

  lemma {:induction false} LooksOfCopies(a: ClassDef, b: ClassDef, n: nat)
    requires n > 0
    ensures Looks([a] + Copies(b, n)) == {VisibleDef(a), VisibleDef(b)}
  {
    hide VisibleDef;
    var s := [a] + Copies(b, n);
    assert s[0] == a && s[1] == b;
    assert forall c :: c in s ==> c == a || c == b;
  }

  /** Whatever is accepted in place of a file is that file but for its order, if and only if the file has
      at most one definition. */
  lemma {:induction false} SoundIffSingle(orig: seq<ClassDef>)
    ensures (forall output :: Accepted(orig, output) ==> Looks(orig) == Looks(output)) <==> |orig| <= 1
  {
    hide VisibleDef, Looks, Firsts;
    if |orig| >= 2 {
      var output := SomeChangePasses(orig);
    } else {
      forall output | Accepted(orig, output)
        ensures Looks(orig) == Looks(output)
      {
        SingleIsSeen(orig, output);
      }
    }
  }

  lemma {:induction false} SingleIsSeen(orig: seq<ClassDef>, output: seq<ClassDef>)
    requires |orig| <= 1 && Accepted(orig, output)
    ensures Looks(orig) == Looks(output)
  {
    hide VisibleDef;
    if |orig| == 1 {
      FirstOfOneType(orig[0], []);
      FirstOfOneType(output[0], []);
      assert orig == [orig[0]] + [] && output == [output[0]] + [];
      MatchedIsSame(orig, output);
    } else {
      assert orig == output;
    }
  }
}
