/**
 Which strings are marked as hot and as shorties before the string data is laid out, and the layout
 that follows from the marks.
 */
module StringMarks {
  import opened Leb128
  import opened DexIr
  import opened HotnessLayout

  /** The strings, fields and methods that the instructions of a code item refer to. */
  datatype Fixups = Fixups(strings: seq<nat>, fields: seq<nat>, methods: seq<nat>)

  // ---- what should be marked

  predicate NamesType(ir: Ir, t: nat, s: nat) {
    t < |ir.typeIds| && ir.typeIds[t] == s
  }

  predicate NamesField(ir: Ir, f: nat, s: nat) {
    f < |ir.fieldIds| && (NamesType(ir, ir.fieldIds[f].classType, s) || ir.fieldIds[f].name == s
        || NamesType(ir, ir.fieldIds[f].fieldType, s))
  }

  predicate NamesMethod(ir: Ir, m: nat, s: nat) {
    m < |ir.methodIds| && (NamesType(ir, ir.methodIds[m].classType, s) || ir.methodIds[m].name == s)
  }

  predicate IsShortyOf(ir: Ir, m: nat, s: nat) {
    m < |ir.methodIds| && ir.methodIds[m].proto < |ir.protoIds| && ir.protoIds[ir.methodIds[m].proto].shorty == s
  }

  predicate NamesInterface(ir: Ir, c: ClassDef, s: nat) {
    && c.interfaces.Some? && c.interfaces.value < |ir.typeLists|
    && exists t :: t in ir.typeLists[c.interfaces.value] && NamesType(ir, t, s)
  }

  /** A profiled class is looked up by name, and its superclass and interfaces with it. */
  ghost predicate NamedByClass(ir: Ir, p: Profile, c: ClassDef, s: nat) {
    && c.classType in p.classes
    && (|| NamesType(ir, c.classType, s)
        || (c.superclass.Some? && NamesType(ir, c.superclass.value, s))
        || NamesInterface(ir, c, s))
  }

  ghost predicate InitializesProfiled(p: Profile, c: ClassDef, m: Method) {
    c.classType in p.classes && Initializes(m)
  }

  /** The profile has the method executed. */
  ghost predicate Runs(p: Profile, c: ClassDef, m: Method) {
    m.code.Some? && (InitializesProfiled(p, c, m) || (m.index in p.methods && p.methods[m.index] != 0))
  }

  ghost predicate RefersTo(fixups: seq<Option<Fixups>>, m: Method, f: Fixups) {
    m.code.Some? && m.code.value < |fixups| && fixups[m.code.value] == Some(f)
  }

  ghost predicate NamedByCode(ir: Ir, f: Fixups, initializer: bool, s: nat) {
    || s in f.strings
    || (exists i :: 0 <= i < |f.fields| && NamesField(ir, f.fields[i], s))
    || (initializer && exists i :: 0 <= i < |f.methods| && NamesMethod(ir, f.methods[i], s))
  }

  ghost predicate NamedByMethod(ir: Ir, p: Profile, fixups: seq<Option<Fixups>>, c: ClassDef, m: Method, s: nat) {
    Runs(p, c, m) && exists f :: RefersTo(fixups, m, f) && NamedByCode(ir, f, InitializesProfiled(p, c, m), s)
  }

  ghost predicate ShortyByMethod(ir: Ir, p: Profile, fixups: seq<Option<Fixups>>, c: ClassDef, m: Method, s: nat) {
    && Runs(p, c, m)
    && (|| IsShortyOf(ir, m.index, s)
        || (InitializesProfiled(p, c, m) && exists f :: RefersTo(fixups, m, f) && CallsShorty(ir, f, s)))
  }

  ghost predicate CallsShorty(ir: Ir, f: Fixups, s: nat) {
    exists i :: 0 <= i < |f.methods| && IsShortyOf(ir, f.methods[i], s)
  }

  ghost predicate HotIn(ir: Ir, p: Profile, fixups: seq<Option<Fixups>>, c: ClassDef, s: nat) {
    || NamedByClass(ir, p, c, s)
    || exists m :: Owns(ir, c, m) && NamedByMethod(ir, p, fixups, c, m, s)
  }

  ghost predicate ShortyIn(ir: Ir, p: Profile, fixups: seq<Option<Fixups>>, c: ClassDef, s: nat) {
    exists m :: Owns(ir, c, m) && ShortyByMethod(ir, p, fixups, c, m, s)
  }

  /** String s is looked up by a profiled class or by the code of an executed method. */
  ghost predicate IsHot(ir: Ir, p: Profile, fixups: seq<Option<Fixups>>, s: nat) {
    exists k :: 0 <= k < |ir.classDefs| && HotIn(ir, p, fixups, ir.classDefs[k], s)
  }

  /** String s is the shorty of an executed method, or of one that a profiled initialiser calls. */
  ghost predicate IsShorty(ir: Ir, p: Profile, fixups: seq<Option<Fixups>>, s: nat) {
    exists k :: 0 <= k < |ir.classDefs| && ShortyIn(ir, p, fixups, ir.classDefs[k], s)
  }

  // ---- marking

  function InterfacesOf(ir: Ir, c: ClassDef): seq<uint16> {
    if c.interfaces.Some? && c.interfaces.value < |ir.typeLists| then ir.typeLists[c.interfaces.value] else []
  }

  function FixupsOf(fixups: seq<Option<Fixups>>, m: Method): Option<Fixups> {
    if m.code.Some? && m.code.value < |fixups| then fixups[m.code.value] else None
  }

  function Mark(v: seq<bool>, i: nat): (r: seq<bool>)
    ensures |r| == |v| && forall s :: 0 <= s < |v| ==> (r[s] <==> v[s] || s == i)
  {
    if i < |v| then v[i := true] else v
  }

  function MarkType(ir: Ir, v: seq<bool>, t: nat): (r: seq<bool>)
    ensures |r| == |v| && forall s :: 0 <= s < |v| ==> (r[s] <==> v[s] || NamesType(ir, t, s))
  {
    if t < |ir.typeIds| then Mark(v, ir.typeIds[t]) else v
  }

  function MarkShorty(ir: Ir, v: seq<bool>, m: nat): (r: seq<bool>)
    ensures |r| == |v| && forall s :: 0 <= s < |v| ==> (r[s] <==> v[s] || IsShortyOf(ir, m, s))
  {
    if m < |ir.methodIds| && ir.methodIds[m].proto < |ir.protoIds|
        then Mark(v, ir.protoIds[ir.methodIds[m].proto].shorty) else v
  }

  method MarkClass(ir: Ir, p: Profile, c: ClassDef, marks: seq<bool>) returns (hot: seq<bool>)
    ensures |hot| == |marks| && forall s :: 0 <= s < |hot| ==> (hot[s] <==> marks[s] || NamedByClass(ir, p, c, s))
  {
    hide NamesType;
    hot := marks;
    if c.classType in p.classes {
      hot := MarkType(ir, hot, c.classType);
      if c.superclass.Some? {
        hot := MarkType(ir, hot, c.superclass.value);
      }
      ghost var before := hot;
      var interfaces := InterfacesOf(ir, c);
      for i := 0 to |interfaces|
        invariant |hot| == |marks|
        invariant forall s :: 0 <= s < |hot| ==>
            (hot[s] <==> before[s] || exists j :: 0 <= j < i && NamesType(ir, interfaces[j], s))
      {
        hot := MarkType(ir, hot, interfaces[i]);
      }
      assert forall s :: NamesInterface(ir, c, s) <==>
          exists j :: 0 <= j < |interfaces| && NamesType(ir, interfaces[j], s);
    }
  }

  method MarkStringRefs(strings: seq<nat>, marks: seq<bool>) returns (hot: seq<bool>)
    ensures |hot| == |marks| && forall s :: 0 <= s < |hot| ==> (hot[s] <==> marks[s] || s in strings)
  {
    hot := marks;
    for i := 0 to |strings|
      invariant |hot| == |marks| && forall s :: 0 <= s < |hot| ==> (hot[s] <==> marks[s] || s in strings[..i])
    {
      hot := Mark(hot, strings[i]);
      assert strings[..i + 1] == strings[..i] + [strings[i]];
    }
    assert strings[..|strings|] == strings;
  }

  method MarkFields(ir: Ir, fields: seq<nat>, marks: seq<bool>) returns (hot: seq<bool>)
    ensures |hot| == |marks|
    ensures forall s :: 0 <= s < |hot| ==> (hot[s] <==>
        marks[s] || exists i :: 0 <= i < |fields| && NamesField(ir, fields[i], s))
  {
    hide NamesType;
    hot := marks;
    for i := 0 to |fields|
      invariant |hot| == |marks|
      invariant forall s :: 0 <= s < |hot| ==>
          (hot[s] <==> marks[s] || exists j :: 0 <= j < i && NamesField(ir, fields[j], s))
    {
      var f := fields[i];
      if f < |ir.fieldIds| {
        hot := MarkType(ir, hot, ir.fieldIds[f].classType);
        hot := Mark(hot, ir.fieldIds[f].name);
        hot := MarkType(ir, hot, ir.fieldIds[f].fieldType);
      }
    }
  }

  method MarkMethods(ir: Ir, methods: seq<nat>, hots: seq<bool>, shorties: seq<bool>)
    returns (hot: seq<bool>, shorty: seq<bool>)
    ensures |hot| == |hots| && |shorty| == |shorties|
    ensures forall s :: 0 <= s < |hot| ==> (hot[s] <==>
        hots[s] || exists i :: 0 <= i < |methods| && NamesMethod(ir, methods[i], s))
    ensures forall s :: 0 <= s < |shorty| ==>
        (shorty[s] <==> shorties[s] || exists i :: 0 <= i < |methods| && IsShortyOf(ir, methods[i], s))
  {
    hide NamesType, IsShortyOf;
    hot, shorty := hots, shorties;
    for i := 0 to |methods|
      invariant |hot| == |hots| && |shorty| == |shorties|
      invariant forall s :: 0 <= s < |hot| ==>
          (hot[s] <==> hots[s] || exists j :: 0 <= j < i && NamesMethod(ir, methods[j], s))
      invariant forall s :: 0 <= s < |shorty| ==>
          (shorty[s] <==> shorties[s] || exists j :: 0 <= j < i && IsShortyOf(ir, methods[j], s))
    {
      var m := methods[i];
      if m < |ir.methodIds| {
        hot := MarkType(ir, hot, ir.methodIds[m].classType);
        hot := Mark(hot, ir.methodIds[m].name);
      }
      shorty := MarkShorty(ir, shorty, m);
    }
  }

  ghost predicate NamedVia(ir: Ir, p: Profile, f: Option<Fixups>, c: ClassDef, m: Method, s: nat) {
    Runs(p, c, m) && f.Some? && NamedByCode(ir, f.value, InitializesProfiled(p, c, m), s)
  }

  ghost predicate ShortyVia(ir: Ir, p: Profile, f: Option<Fixups>, c: ClassDef, m: Method, s: nat) {
    && Runs(p, c, m)
    && (IsShortyOf(ir, m.index, s) || (InitializesProfiled(p, c, m) && f.Some? && CallsShorty(ir, f.value, s)))
  }

  lemma {:induction false} FixupsFound(ir: Ir, p: Profile, fixups: seq<Option<Fixups>>, c: ClassDef, m: Method, s: nat)
    ensures NamedByMethod(ir, p, fixups, c, m, s) <==> NamedVia(ir, p, FixupsOf(fixups, m), c, m, s)
    ensures ShortyByMethod(ir, p, fixups, c, m, s) <==> ShortyVia(ir, p, FixupsOf(fixups, m), c, m, s)
  {
    hide NamedByCode, CallsShorty, Runs, InitializesProfiled, IsShortyOf;
    var f := FixupsOf(fixups, m);
    if f.Some? {
      assert RefersTo(fixups, m, f.value);
    }
  }

  method MarkMethod(ir: Ir, p: Profile, fixups: seq<Option<Fixups>>, c: ClassDef, m: Method, hots: seq<bool>,
      shorties: seq<bool>)
    returns (hot: seq<bool>, shorty: seq<bool>)
    ensures |hot| == |hots| && |shorty| == |shorties|
    ensures forall s :: 0 <= s < |hot| ==> (hot[s] <==> hots[s] || NamedByMethod(ir, p, fixups, c, m, s))
    ensures forall s :: 0 <= s < |shorty| ==> (shorty[s] <==> shorties[s] || ShortyByMethod(ir, p, fixups, c, m, s))
  {
    forall s: nat
      ensures NamedByMethod(ir, p, fixups, c, m, s) <==> NamedVia(ir, p, FixupsOf(fixups, m), c, m, s)
      ensures ShortyByMethod(ir, p, fixups, c, m, s) <==> ShortyVia(ir, p, FixupsOf(fixups, m), c, m, s)
    {
      FixupsFound(ir, p, fixups, c, m, s);
    }
    hide NamesField, NamesMethod, IsShortyOf, NamedByMethod, ShortyByMethod;
    hot, shorty := hots, shorties;
    if m.code.None? {
      return;
    }
    var initializer := c.classType in p.classes && IsClassInitializer(m.accessFlags);
    if !initializer && Flags(p, m.index) == 0 {
      return;
    }
    shorty := MarkShorty(ir, shorty, m.index);
    var f := FixupsOf(fixups, m);
    if f.None? {
      return;
    }
    hot := MarkStringRefs(f.value.strings, hot);
    hot := MarkFields(ir, f.value.fields, hot);
    if initializer {
      hot, shorty := MarkMethods(ir, f.value.methods, hot, shorty);
    }
  }

  method MarkStrings(ir: Ir, p: Profile, fixups: seq<Option<Fixups>>) returns (hot: seq<bool>, shorty: seq<bool>)
    ensures |hot| == |shorty| == |ir.stringIds|
    ensures forall s :: 0 <= s < |hot| ==>
        (hot[s] <==> IsHot(ir, p, fixups, s)) && (shorty[s] <==> IsShorty(ir, p, fixups, s))
  {
    hide NamedByClass, NamedByMethod, ShortyByMethod;
    hot, shorty := seq(|ir.stringIds|, i => false), seq(|ir.stringIds|, i => false);
    for k := 0 to |ir.classDefs|
      invariant |hot| == |shorty| == |ir.stringIds|
      invariant forall s :: 0 <= s < |hot| ==>
          (hot[s] <==> exists i :: 0 <= i < k && HotIn(ir, p, fixups, ir.classDefs[i], s))
      invariant forall s :: 0 <= s < |hot| ==>
          (shorty[s] <==> exists i :: 0 <= i < k && ShortyIn(ir, p, fixups, ir.classDefs[i], s))
    {
      var c := ir.classDefs[k];
      hot, shorty := MarkAll(ir, p, fixups, c, hot, shorty);
    }
  }

  method MarkAll(ir: Ir, p: Profile, fixups: seq<Option<Fixups>>, c: ClassDef, hots: seq<bool>, shorties: seq<bool>)
    returns (hot: seq<bool>, shorty: seq<bool>)
    ensures |hot| == |hots| && |shorty| == |shorties|
    ensures forall s :: 0 <= s < |hot| ==> (hot[s] <==> hots[s] || HotIn(ir, p, fixups, c, s))
    ensures forall s :: 0 <= s < |shorty| ==> (shorty[s] <==> shorties[s] || ShortyIn(ir, p, fixups, c, s))
  {
    hide NamedByClass, NamedByMethod, ShortyByMethod;
    hot := MarkClass(ir, p, c, hots);
    shorty := shorties;
    ghost var named := hot;
    var methods := MethodsIn(ir, c, true) + MethodsIn(ir, c, false);
    assert forall m :: Owns(ir, c, m) <==> m in methods;
    hide Owns;
    for j := 0 to |methods|
      invariant |hot| == |hots| && |shorty| == |shorties|
      invariant forall s :: 0 <= s < |hot| ==>
          (hot[s] <==> named[s] || exists i :: 0 <= i < j && NamedByMethod(ir, p, fixups, c, methods[i], s))
      invariant forall s :: 0 <= s < |shorty| ==>
          (shorty[s] <==> shorties[s] || exists i :: 0 <= i < j && ShortyByMethod(ir, p, fixups, c, methods[i], s))
    {
      hot, shorty := MarkMethod(ir, p, fixups, c, methods[j], hot, shorty);
    }
  }

  // ---- the layout

  /** Cold strings before hot ones, shorties last in each group, and otherwise by index. */
  ghost predicate StringGoesBefore(ir: Ir, p: Profile, fixups: seq<Option<Fixups>>, a: nat, b: nat) {
    if IsHot(ir, p, fixups, a) != IsHot(ir, p, fixups, b) then IsHot(ir, p, fixups, b)
    else if IsShorty(ir, p, fixups, a) != IsShorty(ir, p, fixups, b) then IsShorty(ir, p, fixups, b)
    else a < b
  }

  /** Marks and sorts the strings and places their data in that order. The vector keeps all its items
      exactly when each string data item belongs to one string id. */
  method LayoutStringData(ir: Ir, p: Profile, fixups: seq<Option<Fixups>>, current: seq<nat>) returns (order: seq<nat>,
                          ids: seq<nat>)
    requires |ir.stringIds| == |ir.stringDatas| == |current|
    ensures Permutation(ids, |ir.stringIds|)
    ensures forall i, j :: 0 <= i < j < |ids| ==> StringGoesBefore(ir, p, fixups, ids[i], ids[j])
    ensures |order| == |ids| && forall i :: 0 <= i < |ids| ==> order[i] == ir.stringIds[ids[i]]
    ensures Permutation(order, |ir.stringDatas|) <==> Permutation(ir.stringIds, |ir.stringDatas|)
  {
    hide IsHot, IsShorty, Permutation;
    var hot, shorty := MarkStrings(ir, p, fixups);
    order, ids := PlaceStrings(ir, hot, shorty, current);
    Inside(ids, |ir.stringIds|);
    forall i, j | 0 <= i < j < |ids|
      ensures StringGoesBefore(ir, p, fixups, ids[i], ids[j])
    {
      assert StringBefore(hot, shorty, ids[i], ids[j]);
    }
  }
}
