/**
 Laying a file out by a profile and writing it: whatever moves, every class, every id and every string reads
 as before, and what the profile wants first comes first in the file.
 */
module Rewrites {
  import opened Leb128
  import opened Streams
  import opened Sections
  import opened DexIr
  import opened MapLists
  import opened DexWriters
  import opened DexFiles
  import opened ItemReaders
  import opened DexReaders
  import opened HotnessLayout
  import opened StringMarks
  import opened FileViews
  import opened FileRoundTrip

  /** What classes refer to does not depend on the order of anything. */
  lemma {:induction false} SameClasses(ir: Ir, now: Ir, i: nat)
    requires now == ir.(order := now.order) && i < |ir.classDefs|
    ensures Closed(now) == Closed(ir) && ClassOf(now, i) == ClassOf(ir, i)
  {
    SameDirectories(ir, now, ir.classDefs[i].annotations);
    SameData(ir, now, ir.classDefs[i].classData);
    SameReferences(ir, now);
  }

  lemma {:induction false} SameReferences(ir: Ir, now: Ir)
    requires now == ir.(order := now.order)
    ensures Closed(now) == Closed(ir)
  {
  }

  lemma {:induction false} SameDirectories(ir: Ir, now: Ir, d: Option<nat>)
    requires now == ir.(order := now.order)
    ensures DirectoryOf(now, d) == DirectoryOf(ir, d)
  {
    forall s: Option<nat>
      ensures FileViews.SetOf(now, s) == FileViews.SetOf(ir, s)
    {
      if s.Some? && s.value < |ir.annotationSets| {
        assert FileViews.SetOf(now, s).value == FileViews.SetOf(ir, s).value;
      }
    }
    hide FileViews.SetOf;
    forall l: nat
      ensures SetRefsOf(now, l) == SetRefsOf(ir, l)
    {
      if l < |ir.setRefLists| {
        assert SetRefsOf(now, l).value == SetRefsOf(ir, l).value;
      }
    }
    hide SetRefsOf;
    if d.Some? && d.value < |ir.directories| {
      var dir := ir.directories[d.value];
      assert MemberSetsOf(now, dir.fields) == MemberSetsOf(ir, dir.fields);
      assert MemberSetsOf(now, dir.methods) == MemberSetsOf(ir, dir.methods);
      assert ParameterSetsOf(now, dir.parameters) == ParameterSetsOf(ir, dir.parameters);
    }
  }

  lemma {:induction false} SameData(ir: Ir, now: Ir, d: Option<nat>)
    requires now == ir.(order := now.order)
    ensures FileViews.DataOf(now, d) == FileViews.DataOf(ir, d)
  {
    forall c: Option<nat>
      ensures CodeOf(now, c) == CodeOf(ir, c)
    {
    }
    hide CodeOf;
    if d.Some? && d.value < |ir.classDatas| {
      var c := ir.classDatas[d.value];
      assert FileViews.MethodsOf(now, c.directMethods) == FileViews.MethodsOf(ir, c.directMethods);
      assert FileViews.MethodsOf(now, c.virtualMethods) == FileViews.MethodsOf(ir, c.virtualMethods);
    }
  }

  /** String i, found through the string ids. */
  predicate TextReads(file: seq<byte>, i: nat, s: seq<byte>) {
    && |file| >= HEADER_SIZE
    && var entry := WordAt(file, STRING_IDS_OFFSET_FIELD) + 4 * i;
       && entry + 4 <= |file| && WordAt(file, entry) <= |file|
       && ReadText(file, WordAt(file, entry)) == Some(Text(CountChars(s) % 0x1_0000_0000, s))
  }

  ghost predicate StringIsThere(ir: Ir, i: nat) {
    i < |ir.stringIds| && ir.stringIds[i] < |ir.stringDatas| && 0 !in ir.stringDatas[ir.stringIds[i]]
  }

  /** Every id reads as the representation has it; a type leads to the string that describes it. */
  ghost predicate IdsRead(ir: Ir, file: seq<byte>) {
    && (forall i :: 0 <= i < |ir.typeIds| ==> TypeReads(ir, file, i))
    && (forall i :: 0 <= i < |ir.protoIds| && FileViews.Below(ir.protoIds[i].parameters, |ir.typeLists|) ==>
          ReadProto(file, i) == To(ProtoOf(ir, i)))
    && (forall i :: 0 <= i < |ir.fieldIds| ==>
          ReadMemberId(file, FIELD_IDS_OFFSET_FIELD, i)
              == To((ir.fieldIds[i].classType, ir.fieldIds[i].fieldType, ir.fieldIds[i].name)))
    && (forall i :: 0 <= i < |ir.methodIds| ==>
          ReadMemberId(file, METHOD_IDS_OFFSET_FIELD, i)
              == To((ir.methodIds[i].classType, ir.methodIds[i].proto, ir.methodIds[i].name)))
    && (forall i :: 0 <= i < |ir.methodHandles| ==>
          ReadMethodHandle(file, i) == To((ir.methodHandles[i].kind, ir.methodHandles[i].target)))
    && (forall i :: 0 <= i < |ir.callSiteIds| && ir.callSiteIds[i] < |ir.encodedArrays| ==>
          ReadCallSite(file, i) == To(ir.encodedArrays[ir.callSiteIds[i]]))
  }

  ghost predicate TypeReads(ir: Ir, file: seq<byte>, i: nat)
    requires i < |ir.typeIds|
  {
    && ReadType(file, i) == To(ir.typeIds[i])
    && (StringIsThere(ir, ir.typeIds[i]) ==>
          TextReads(file, ReadType(file, i).value, ir.stringDatas[ir.stringIds[ir.typeIds[i]]]))
  }

  /** The map list has exactly the sections that are not empty, with their sizes. */
  ghost predicate SectionsRead(ir: Ir, file: seq<byte>) {
    forall k :: SectionReads(ir, file, k)
  }

  ghost predicate SectionReads(ir: Ir, file: seq<byte>, k: Section) {
    if Count(ir, k) == 0 then InMap(file, MapKind(k)) == Null
    else InMap(file, MapKind(k)).To? && InMap(file, MapKind(k)).value.0 == Count(ir, k)
  }

  lemma {:induction false} IdsAreRead(ir: Ir, h: HeaderInfo, file: seq<byte>, off: Offsets, starts: map<Section, nat>,
      x: Extents, items: seq<MapItem>)
    requires Finished(ir, h, file, off, starts, x, items)
    ensures IdsRead(ir, file) && SectionsRead(ir, file)
  {
    hide Finished, ReadType, ReadProto, ReadMemberId, ReadMethodHandle, ReadCallSite, TextReads, ProtoOf, InMap,
        MapKind, StringIsThere, Count;
    forall i | 0 <= i < |ir.typeIds|
      ensures TypeReads(ir, file, i)
    {
      TypeIsRead(ir, h, file, off, starts, x, items, i);
      if StringIsThere(ir, ir.typeIds[i]) {
        StringReads(ir, h, file, off, starts, x, items, ir.typeIds[i]);
      }
    }
    forall i | 0 <= i < |ir.protoIds| && FileViews.Below(ir.protoIds[i].parameters, |ir.typeLists|)
      ensures ReadProto(file, i) == To(ProtoOf(ir, i))
    {
      ProtoIsRead(ir, h, file, off, starts, x, items, i);
    }
    forall i: nat
      ensures i < |ir.fieldIds| ==>
          ReadMemberId(file, FIELD_IDS_OFFSET_FIELD, i)
              == To((ir.fieldIds[i].classType, ir.fieldIds[i].fieldType, ir.fieldIds[i].name))
      ensures i < |ir.methodIds| ==>
          ReadMemberId(file, METHOD_IDS_OFFSET_FIELD, i)
              == To((ir.methodIds[i].classType, ir.methodIds[i].proto, ir.methodIds[i].name))
    {
      MemberIdsAreRead(ir, h, file, off, starts, x, items, i);
    }
    forall i | 0 <= i < |ir.methodHandles|
      ensures ReadMethodHandle(file, i) == To((ir.methodHandles[i].kind, ir.methodHandles[i].target))
    {
      HandlesAreRead(ir, h, file, off, starts, x, items, i);
    }
    forall i | 0 <= i < |ir.callSiteIds| && ir.callSiteIds[i] < |ir.encodedArrays|
      ensures ReadCallSite(file, i) == To(ir.encodedArrays[ir.callSiteIds[i]])
    {
      CallSitesAreRead(ir, h, file, off, starts, x, items, i);
    }
    forall k
      ensures SectionReads(ir, file, k)
    {
      MapNames(ir, h, file, off, starts, x, items, k);
    }
  }

  lemma {:induction false} SameIds(ir: Ir, now: Ir, file: seq<byte>)
    requires now == ir.(order := now.order) && IdsRead(now, file) && SectionsRead(now, file)
    ensures IdsRead(ir, file) && SectionsRead(ir, file)
  {
    hide ReadType, ReadProto, ReadMemberId, ReadMethodHandle, ReadCallSite, TextReads, InMap, MapKind;
    forall i | 0 <= i < |ir.typeIds|
      ensures TypeReads(ir, file, i)
    {
      assert TypeReads(now, file, i);
    }
    forall k
      ensures SectionReads(ir, file, k)
    {
      assert SectionReads(now, file, k) && Count(now, k) == Count(ir, k);
    }
    forall i | 0 <= i < |ir.protoIds|
      ensures ProtoOf(now, i) == ProtoOf(ir, i)
    {
    }
  }

  lemma {:induction false} ReorderedReads(ir: Ir, now: Ir, h: HeaderInfo, file: seq<byte>, off: Offsets,
      starts: map<Section, nat>, x: Extents, items: seq<MapItem>)
    requires now == ir.(order := now.order) && Finished(now, h, file, off, starts, x, items)
    ensures Closed(ir) ==> forall i :: 0 <= i < |ir.classDefs| ==> ReadClass(file, i) == To(ClassOf(ir, i))
    ensures forall i: nat :: StringIsThere(ir, i) ==> TextReads(file, i, ir.stringDatas[ir.stringIds[i]])
    ensures HeadReads(ir, h, file) && IdsRead(ir, file) && SectionsRead(ir, file)
  {
    hide Finished, ReadClass, ClassOf, Closed, TextReads, IdsRead, SectionsRead;
    HeadIsRead(now, h, file, off, starts, x, items);
    IdsAreRead(now, h, file, off, starts, x, items);
    SameIds(ir, now, file);
    if Closed(ir) {
      forall i | 0 <= i < |ir.classDefs|
        ensures ReadClass(file, i) == To(ClassOf(ir, i))
      {
        SameClasses(ir, now, i);
        ClassIsRead(now, h, file, off, starts, x, items, i);
      }
    }
    forall i: nat | StringIsThere(ir, i)
      ensures TextReads(file, i, ir.stringDatas[ir.stringIds[i]])
    {
      StringReads(now, h, file, off, starts, x, items, i);
    }
  }

  lemma {:induction false} StringReads(ir: Ir, h: HeaderInfo, file: seq<byte>, off: Offsets, starts: map<Section, nat>,
      x: Extents, items: seq<MapItem>, i: nat)
    requires Finished(ir, h, file, off, starts, x, items) && StringIsThere(ir, i)
    ensures TextReads(file, i, ir.stringDatas[ir.stringIds[i]])
  {
    hide Valid, FileHolds, IdTables, HeaderBytes, Entries, MapBytes;
    StringsAreRead(ir, h, file, off, starts, x, i);
  }

  // ---- the three orders

  ghost predicate ClassesOrdered(ir: Ir, p: Profile, order: seq<nat>) {
    forall i, j :: 0 <= i < j < |order| ==> DataGoesBefore(ir, p, order[i], order[j])
  }

  ghost predicate StringsOrdered(ir: Ir, p: Profile, fixups: seq<Option<Fixups>>, order: seq<nat>) {
    forall i, j, a, b :: 0 <= i < j < |order| && IdOf(ir, a, order[i]) && IdOf(ir, b, order[j]) ==>
      StringGoesBefore(ir, p, fixups, a, b)
  }

  ghost predicate IdOf(ir: Ir, id: nat, data: nat) {
    id < |ir.stringIds| && ir.stringIds[id] == data
  }

  ghost predicate CodeOrdered(ir: Ir, p: Profile, order: seq<nat>, was: seq<nat>) {
    && (forall i, j, level: nat :: 0 <= i < j < |order| && Wanted(ir, p, order[j], level) ==>
          Wanted(ir, p, order[i], level))
    && (forall i, j :: 0 <= i < j < |order| && EquallyWanted(ir, p, order[i], order[j]) ==>
          exists a, b :: 0 <= a < b < |was| && was[a] == order[i] && was[b] == order[j])
  }

  lemma {:induction false} SortedStrings(ir: Ir, p: Profile, fixups: seq<Option<Fixups>>, order: seq<nat>,
      ids: seq<nat>)
    requires Permutation(ir.stringIds, |ir.stringIds|) && Permutation(ids, |ir.stringIds|) && |order| == |ids|
    requires forall i, j :: 0 <= i < j < |ids| ==> StringGoesBefore(ir, p, fixups, ids[i], ids[j])
    requires forall i :: 0 <= i < |ids| ==> order[i] == ir.stringIds[ids[i]]
    ensures StringsOrdered(ir, p, fixups, order)
  {
    hide StringGoesBefore;
    forall i, j, a, b | 0 <= i < j < |order| && IdOf(ir, a, order[i]) && IdOf(ir, b, order[j])
      ensures StringGoesBefore(ir, p, fixups, a, b)
    {
      assert a == ids[i] && b == ids[j];
    }
  }

  lemma {:induction false} SortedCode(ir: Ir, p: Profile, order: seq<nat>, moved: seq<nat>, was: seq<nat>)
    requires |order| == |moved| && forall i :: 0 <= i < |order| ==> moved[i] < |was| && order[i] == was[moved[i]]
    requires forall i, j, level: nat :: 0 <= i < j < |order| && Wanted(ir, p, order[j], level) ==>
        Wanted(ir, p, order[i], level)
    requires forall i, j :: 0 <= i < j < |order| && EquallyWanted(ir, p, order[i], order[j]) ==> moved[i] < moved[j]
    ensures CodeOrdered(ir, p, order, was)
  {
    hide Wanted, EquallyWanted;
  }

  /** Chooses all three orders from the profile. */
  method LayoutOutputFile(ir: Ir, p: Profile, fixups: seq<Option<Fixups>>) returns (now: Ir)
    requires Valid(ir) && ClassDatasAreUsed(ir) && CodeIsUsed(ir)
    requires |ir.stringIds| == |ir.stringDatas| && Permutation(ir.stringIds, |ir.stringDatas|)
    ensures Valid(now) && now == ir.(order := now.order)
    ensures ClassesOrdered(ir, p, Order(now, ClassDatas)) && StringsOrdered(ir, p, fixups, Order(now, StringDatas))
    ensures CodeOrdered(ir, p, Order(now, CodeSection), Order(ir, CodeSection))
  {
    hide Valid, ClassDatasAreUsed, CodeIsUsed, Permutation, StringGoesBefore, FirstUses, HotnessLayout.DataOf,
        ClassOrder, DataGoesBefore, Wanted, EquallyWanted, StringsOrdered, CodeOrdered;
    OrderIsPermutation(ir, StringDatas);
    OrderIsPermutation(ir, ClassDatas);
    OrderIsPermutation(ir, CodeSection);
    Inside(Order(ir, StringDatas), |ir.stringDatas|);
    Inside(Order(ir, ClassDatas), |ir.classDatas|);
    var strings, ids := LayoutStringData(ir, p, fixups, Order(ir, StringDatas));
    var classes := LayoutClassData(ir, p, Order(ir, ClassDatas));
    var codes, moved := LayoutCodeItems(ir, p, Order(ir, CodeSection));
    SortedStrings(ir, p, fixups, strings, ids);
    Inside(moved, |ir.codeItems|);
    Inside(codes, |ir.codeItems|);
    SortedCode(ir, p, codes, moved, Order(ir, CodeSection));
    LayoutKeepsValid(ir, classes, strings, codes);
    now := ir.(order := ir.order[ClassDatas := classes][StringDatas := strings][CodeSection := codes]);
  }

  // ---- the order in the file

  /** Items lie in the file in the order they are written in. */
  lemma {:induction false} LaterIsBehind(ir: Ir, off: Offsets, k: Section, i: nat, j: nat)
    requires Valid(ir) && Sequential(ir, off, k) && i < j < Count(ir, k)
    ensures Ref(k, Order(ir, k)[i]) in off && Ref(k, Order(ir, k)[j]) in off
    ensures off[Ref(k, Order(ir, k)[i])] < off[Ref(k, Order(ir, k)[j])]
    decreases j
  {
    hide Valid, Serialize, Order, Count, Alignment;
    assert Follows(ir, off, k, j - 1);
    ItemsAreNotEmpty(ir, off, Ref(k, Order(ir, k)[j - 1]));
    if i < j - 1 {
      LaterIsBehind(ir, off, k, i, j - 1);
    }
  }

  /** Of two items the one that is written later lies behind the other. */
  lemma {:induction false} Apart(ir: Ir, off: Offsets, k: Section, a: nat, b: nat) returns (i: nat, j: nat)
    requires Valid(ir) && Sequential(ir, off, k) && a < Count(ir, k) && b < Count(ir, k) && a != b
    ensures i < |Order(ir, k)| && j < |Order(ir, k)| && Order(ir, k)[i] == a && Order(ir, k)[j] == b
    ensures Ref(k, a) in off && Ref(k, b) in off && (i < j <==> off[Ref(k, a)] < off[Ref(k, b)]) && i != j
  {
    hide Valid, Sequential, Order, Count;
    OrderIsPermutation(ir, k);
    i := PlaceOf(Order(ir, k), Count(ir, k), a);
    j := PlaceOf(Order(ir, k), Count(ir, k), b);
    if i < j {
      LaterIsBehind(ir, off, k, i, j);
    } else {
      LaterIsBehind(ir, off, k, j, i);
    }
  }

  /** Class data lies in order of first use with the profile's classes first, strings by hotness, and code from
      most to least wanted. */
  ghost predicate LaidOut(ir: Ir, p: Profile, fixups: seq<Option<Fixups>>, off: Offsets) {
    && (forall a: nat, b: nat ::
          a < |ir.classDatas| && b < |ir.classDatas| && a != b && DataGoesBefore(ir, p, a, b) ==>
            Precedes(off, ClassDatas, a, b))
    && (forall a: nat, b: nat ::
          a < |ir.stringIds| && b < |ir.stringIds| && a != b && StringGoesBefore(ir, p, fixups, a, b) ==>
            Precedes(off, StringDatas, ir.stringIds[a], ir.stringIds[b]))
    && (forall a: nat, b: nat, level: nat ::
          a < |ir.codeItems| && b < |ir.codeItems| && Wanted(ir, p, a, level) && !Wanted(ir, p, b, level) ==>
            Precedes(off, CodeSection, a, b))
  }

  ghost predicate Precedes(off: Offsets, k: Section, a: nat, b: nat) {
    Ref(k, a) in off && Ref(k, b) in off && off[Ref(k, a)] < off[Ref(k, b)]
  }

  lemma {:induction false} DataOrderIsStrict(ir: Ir, p: Profile, d: nat, e: nat)
    requires DataGoesBefore(ir, p, d, e)
    ensures !DataGoesBefore(ir, p, e, d)
  {
    var a :| UsesData(ir, a, d) && forall b :: UsesData(ir, b, e) ==> ClassGoesBefore(ir, p, a, b);
    forall b | UsesData(ir, b, e)
      ensures UsesData(ir, a, d) && !ClassGoesBefore(ir, p, b, a)
    {
      assert ClassGoesBefore(ir, p, a, b);
    }
  }

  lemma {:induction false} StringOrderIsStrict(ir: Ir, p: Profile, fixups: seq<Option<Fixups>>, a: nat, b: nat)
    requires a != b && StringGoesBefore(ir, p, fixups, a, b)
    ensures !StringGoesBefore(ir, p, fixups, b, a)
  {
    hide IsHot, IsShorty;
  }

  lemma {:induction false} ClassesLie(ir: Ir, now: Ir, p: Profile, off: Offsets, a: nat, b: nat)
    requires now == ir.(order := now.order) && Valid(now) && Sequential(now, off, ClassDatas)
    requires ClassesOrdered(ir, p, Order(now, ClassDatas))
    requires a < |ir.classDatas| && b < |ir.classDatas| && a != b && DataGoesBefore(ir, p, a, b)
    ensures Precedes(off, ClassDatas, a, b)
  {
    hide Valid, Sequential, Order, DataGoesBefore;
    var i, j := Apart(now, off, ClassDatas, a, b);
    DataOrderIsStrict(ir, p, a, b);
  }

  lemma {:induction false} StringsLie(ir: Ir, now: Ir, p: Profile, fixups: seq<Option<Fixups>>, off: Offsets, a: nat,
      b: nat)
    requires now == ir.(order := now.order) && Valid(now) && Sequential(now, off, StringDatas)
    requires StringsOrdered(ir, p, fixups, Order(now, StringDatas))
    requires |ir.stringIds| == |ir.stringDatas| && Permutation(ir.stringIds, |ir.stringDatas|)
    requires a < |ir.stringIds| && b < |ir.stringIds| && a != b && StringGoesBefore(ir, p, fixups, a, b)
    ensures Precedes(off, StringDatas, ir.stringIds[a], ir.stringIds[b])
  {
    hide Valid, Sequential, Order, StringGoesBefore;
    var i, j := Apart(now, off, StringDatas, ir.stringIds[a], ir.stringIds[b]);
    StringOrderIsStrict(ir, p, fixups, a, b);
    assert IdOf(ir, b, Order(now, StringDatas)[j]) && IdOf(ir, a, Order(now, StringDatas)[i]);
  }

  lemma {:induction false} CodeLies(ir: Ir, now: Ir, p: Profile, off: Offsets, a: nat, b: nat, level: nat)
    requires now == ir.(order := now.order) && Valid(now) && Sequential(now, off, CodeSection)
    requires CodeOrdered(ir, p, Order(now, CodeSection), Order(ir, CodeSection))
    requires a < |ir.codeItems| && b < |ir.codeItems| && Wanted(ir, p, a, level) && !Wanted(ir, p, b, level)
    ensures Precedes(off, CodeSection, a, b)
  {
    hide Valid, Sequential, Order, Wanted, EquallyWanted;
    var i, j := Apart(now, off, CodeSection, a, b);
  }

  lemma {:induction false} AllLie(ir: Ir, now: Ir, p: Profile, fixups: seq<Option<Fixups>>, off: Offsets)
    requires now == ir.(order := now.order) && Valid(now) && InSequence(now, off)
    requires |ir.stringIds| == |ir.stringDatas| && Permutation(ir.stringIds, |ir.stringDatas|)
    requires ClassesOrdered(ir, p, Order(now, ClassDatas)) && StringsOrdered(ir, p, fixups, Order(now, StringDatas))
    requires CodeOrdered(ir, p, Order(now, CodeSection), Order(ir, CodeSection))
    ensures LaidOut(ir, p, fixups, off)
  {
    hide Valid, Sequential, Order, Wanted, EquallyWanted, DataGoesBefore, StringGoesBefore, Precedes, ClassesOrdered,
        StringsOrdered, CodeOrdered;
    assert Sequential(now, off, ClassDatas) && Sequential(now, off, StringDatas) && Sequential(now, off, CodeSection);
    forall a: nat, b: nat | a < |ir.classDatas| && b < |ir.classDatas| && a != b && DataGoesBefore(ir, p, a, b)
      ensures Precedes(off, ClassDatas, a, b)
    {
      ClassesLie(ir, now, p, off, a, b);
    }
    forall a: nat, b: nat |
        a < |ir.stringIds| && b < |ir.stringIds| && a != b && StringGoesBefore(ir, p, fixups, a, b)
      ensures Precedes(off, StringDatas, ir.stringIds[a], ir.stringIds[b])
    {
      StringsLie(ir, now, p, fixups, off, a, b);
    }
    forall a: nat, b: nat, level: nat |
        a < |ir.codeItems| && b < |ir.codeItems| && Wanted(ir, p, a, level) && !Wanted(ir, p, b, level)
      ensures Precedes(off, CodeSection, a, b)
    {
      CodeLies(ir, now, p, off, a, b, level);
    }
  }

  lemma {:induction false} SameBytes(ir: Ir, now: Ir, off: Offsets, r: Ref)
    requires now == ir.(order := now.order) && Valid(ir) && Valid(now) && r.index < Count(ir, r.section)
    ensures Serialize(now, off, r) == Serialize(ir, off, r)
  {
    hide Valid;
  }

  lemma {:induction false} SameItems(ir: Ir, now: Ir, file: seq<byte>, off: Offsets)
    requires now == ir.(order := now.order) && Valid(ir) && Valid(now) && FileHolds(now, file, off)
    ensures FileHolds(ir, file, off)
  {
    hide Valid, Serialize, ReadsAs, Aligned;
    forall r: Ref | r.index < Count(ir, r.section)
      ensures Serialize(now, off, r) == Serialize(ir, off, r) && r.index < Count(now, r.section)
    {
      SameBytes(ir, now, off, r);
    }
  }

  /** Lays the file out by the profile and writes it. */
  method LayoutAndWrite(ir: Ir, p: Profile, fixups: seq<Option<Fixups>>, h: HeaderInfo, checksum: Option<uint32>,
      scratch: seq<byte>)
    returns (file: seq<byte>, off: Offsets)
    requires Valid(ir) && ClassDatasAreUsed(ir) && CodeIsUsed(ir)
    requires |ir.stringIds| == |ir.stringDatas| && Permutation(ir.stringIds, |ir.stringDatas|)
    requires |h.magic| == 8 && |h.signature| == 20 && |scratch| == 16
    ensures |file| < 0x1_0000_0000 && Closed(ir) ==>
              forall i :: 0 <= i < |ir.classDefs| ==> ReadClass(file, i) == To(ClassOf(ir, i))
    ensures |file| < 0x1_0000_0000 ==>
              forall i: nat :: StringIsThere(ir, i) ==> TextReads(file, i, ir.stringDatas[ir.stringIds[i]])
    ensures |file| < 0x1_0000_0000 ==>
              && HeadReads(ir, h.(checksum := if checksum.Some? then checksum.value else h.checksum), file)
              && IdsRead(ir, file) && SectionsRead(ir, file)
    ensures FileHolds(ir, file, off) && LaidOut(ir, p, fixups, off)
  {
    hide Valid, ClassDatasAreUsed, CodeIsUsed, Permutation, ReadClass, ClassOf, Closed, TextReads, StartsNoted,
        StartsNameFirst, StrictlyAscending, HeadReads, IdsRead, SectionsRead, FileHolds, LaidOut, InSequence, OnWords,
        IdTables, Entries, MapBytes, HeaderBytes, ClassesOrdered, StringsOrdered, CodeOrdered, ReadsAs, Order;
    var now := LayoutOutputFile(ir, p, fixups);
    var starts, x, items;
    file, off, starts, x, items := Write(now, h, checksum, scratch);
    if |file| < 0x1_0000_0000 {
      ReorderedReads(ir, now, Checked(h, checksum), file, off, starts, x, items);
    }
    SameItems(ir, now, file, off);
    AllLie(ir, now, p, fixups, off);
  }
}
