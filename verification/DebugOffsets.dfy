/**
 When a compact DEX file can be written: all methods that share a method index must share their code.
 Then the table of debug info offsets by method index is well defined.
 */
module DebugOffsets {
  import opened Leb128
  import opened DexIr
  import opened CodeItems
  import opened OffsetTables

  function MethodsFrom(ir: Ir, classes: seq<ClassDef>, direct: bool): seq<Method> {
    if classes == [] then [] else MethodsIn(ir, classes[0], direct) + MethodsFrom(ir, classes[1..], direct)
  }

  /** The order methods are visited in: all direct ones, then all virtual ones, class by class. */
  function Methods(ir: Ir): seq<Method> {
    MethodsFrom(ir, ir.classDefs, true) + MethodsFrom(ir, ir.classDefs, false)
  }

  function DebugInfo(ir: Ir, m: Method): Option<nat> {
    if m.code.Some? && m.code.value < |ir.codeItems| then ir.codeItems[m.code.value].debugInfo else None
  }

  lemma {:induction false} MethodsFromHas(ir: Ir, classes: seq<ClassDef>, direct: bool, m: Method)
    ensures m in MethodsFrom(ir, classes, direct) <==> exists c :: c in classes && m in MethodsIn(ir, c, direct)
  {
    hide MethodsIn;
    if classes != [] {
      MethodsFromHas(ir, classes[1..], direct, m);
      assert forall c :: c in classes <==> c == classes[0] || c in classes[1..];
    }
  }

  /** The methods that are visited are those of the file's classes. */
  lemma {:induction false} MethodsHas(ir: Ir, m: Method)
    ensures m in Methods(ir) <==> exists c :: Declares(ir, c, m)
  {
    MethodsFromHas(ir, ir.classDefs, true, m);
    MethodsFromHas(ir, ir.classDefs, false, m);
    hide MethodsFrom;
    if m in Methods(ir) {
      var c :| c in ir.classDefs && (m in MethodsIn(ir, c, true) || m in MethodsIn(ir, c, false));
      assert Declares(ir, c, m);
    }
    if c :| Declares(ir, c, m) {
      assert m in MethodsIn(ir, c, true) || m in MethodsIn(ir, c, false);
    }
  }

  ghost predicate IndicesInRange(ir: Ir) {
    forall c, m :: Declares(ir, c, m) ==> m.index < |ir.methodIds|
  }

  lemma {:induction false} VisitedInRange(ir: Ir)
    requires IndicesInRange(ir)
    ensures forall i :: 0 <= i < |Methods(ir)| ==> Methods(ir)[i].index < |ir.methodIds|
  {
    hide Methods, Declares;
    forall i | 0 <= i < |Methods(ir)|
      ensures Methods(ir)[i].index < |ir.methodIds|
    {
      MethodsHas(ir, Methods(ir)[i]);
    }
  }

  /** No two methods of the file with the same index have different code. */
  ghost predicate OneCodeEach(ir: Ir) {
    forall c, m, d, n :: Declares(ir, c, m) && Declares(ir, d, n) && m.index == n.index ==> m.code == n.code
  }

  lemma {:induction false} ConsistentIff(ir: Ir)
    ensures Consistent(Methods(ir)) <==> OneCodeEach(ir)
  {
    hide Methods, Declares;
    var ms := Methods(ir);
    forall m
      ensures m in ms <==> exists c :: Declares(ir, c, m)
    {
      MethodsHas(ir, m);
    }
    if Consistent(ms) {
      forall c, m, d, n | Declares(ir, c, m) && Declares(ir, d, n) && m.index == n.index
        ensures m.code == n.code
      {
        assert m in ms && n in ms;
      }
    } else {
      var i, j :| 0 <= i < |ms| && 0 <= j < |ms| && ms[i].index == ms[j].index && ms[i].code != ms[j].code;
      assert ms[i] in ms && ms[j] in ms;
    }
  }

  ghost predicate Consistent(ms: seq<Method>) {
    forall i, j :: 0 <= i < |ms| && 0 <= j < |ms| && ms[i].index == ms[j].index ==> ms[i].code == ms[j].code
  }

  datatype Seen = Seen(code: Option<nat>, debugInfo: Option<nat>)

  ghost predicate Recorded(ir: Ir, ms: seq<Method>, seen: seq<Option<Seen>>) {
    && (forall i :: 0 <= i < |ms| ==>
          ms[i].index < |seen| && seen[ms[i].index] == Some(Seen(ms[i].code, DebugInfo(ir, ms[i]))))
    && (forall x :: 0 <= x < |seen| && seen[x].Some? ==> exists i :: 0 <= i < |ms| && ms[i].index == x)
  }

  /** Accepts exactly the consistent files; the comparison of debug infos never decides. */
  method CanGenerateCompactDex(ir: Ir) returns (ok: bool)
    requires IndicesInRange(ir)
    ensures ok <==> OneCodeEach(ir)
  {
    hide Methods, OneCodeEach, IndicesInRange;
    ConsistentIff(ir);
    VisitedInRange(ir);
    var ms := Methods(ir);
    var seen: seq<Option<Seen>> := seq(|ir.methodIds|, i => None);
    for k := 0 to |ms|
      invariant |seen| == |ir.methodIds| && Recorded(ir, ms[..k], seen)
    {
      var m := ms[k];
      var debugInfo := DebugInfo(ir, m);
      ghost var before := ms[..k];
      assert ms[..k + 1] == before + [m];
      if seen[m.index].Some? {
        ghost var i :| 0 <= i < |before| && before[i].index == m.index;
        assert ms[i] == before[i];
        if seen[m.index].value.code != m.code {
          return false;
        }
        if seen[m.index].value.debugInfo != debugInfo {
          assert false;
        }
      }
      RecordMore(ir, before, seen, m);
      seen := seen[m.index := Some(Seen(m.code, debugInfo))];
    }
    assert ms[..|ms|] == ms;
    return true;
  }

  lemma {:induction false} RecordMore(ir: Ir, ms: seq<Method>, seen: seq<Option<Seen>>, m: Method)
    requires Recorded(ir, ms, seen) && m.index < |seen|
    requires seen[m.index] == None || seen[m.index] == Some(Seen(m.code, DebugInfo(ir, m)))
    ensures Recorded(ir, ms + [m], seen[m.index := Some(Seen(m.code, DebugInfo(ir, m)))])
  {
    hide DebugInfo;
    var more, now := ms + [m], seen[m.index := Some(Seen(m.code, DebugInfo(ir, m)))];
    forall x | 0 <= x < |now| && now[x].Some?
      ensures exists i :: 0 <= i < |more| && more[i].index == x
    {
      if x == m.index {
        assert more[|ms|] == m;
      } else {
        var i :| 0 <= i < |ms| && ms[i].index == x;
        assert more[i] == ms[i];
      }
    }
  }

  // ---- the table

  function DebugOffset(ir: Ir, off: Offsets, m: Method): uint32 {
    OffsetOrZero(off, DebugInfos, DebugInfo(ir, m))
  }

  /** The table holds each method's debug info offset, and zero where no method has one. */
  ghost predicate Tabulated(ir: Ir, off: Offsets, ms: seq<Method>, table: seq<uint32>) {
    && (forall i :: 0 <= i < |ms| ==> ms[i].index < |table| && table[ms[i].index] == DebugOffset(ir, off, ms[i]))
    && (forall x :: 0 <= x < |table| && table[x] != 0 ==> exists i :: 0 <= i < |ms| && ms[i].index == x)
  }

  lemma {:induction false} TabulateMore(ir: Ir, off: Offsets, ms: seq<Method>, table: seq<uint32>, m: Method)
    requires Tabulated(ir, off, ms, table) && m.index < |table| && Consistent(ms + [m])
    ensures var o := DebugOffset(ir, off, m);
            && (table[m.index] != 0 ==> table[m.index] == o)
            && Tabulated(ir, off, ms + [m], table[m.index := o])
  {
    var more, o := ms + [m], DebugOffset(ir, off, m);
    assert more[|ms|] == m;
    forall i | 0 <= i < |ms| && ms[i].index == m.index
      ensures DebugOffset(ir, off, ms[i]) == o
    {
      assert more[i] == ms[i];
    }
    hide DebugOffset, Consistent;
    var now := table[m.index := o];
    forall x | 0 <= x < |now| && now[x] != 0
      ensures exists i :: 0 <= i < |more| && more[i].index == x
    {
      if x != m.index {
        var i :| 0 <= i < |ms| && ms[i].index == x;
        assert more[i] == ms[i];
      }
    }
  }

  /** Fills the table; `agreed` is false where the writer would stop on conflicting offsets. */
  method FillTable(ir: Ir, off: Offsets) returns (table: seq<uint32>, agreed: bool)
    requires IndicesInRange(ir)
    ensures |table| == |ir.methodIds|
    ensures OneCodeEach(ir) ==> agreed && IsTable(ir, off, table)
  {
    hide Methods, DebugOffset, OneCodeEach, IndicesInRange, IsTable;
    ConsistentIff(ir);
    VisitedInRange(ir);
    var ms := Methods(ir);
    table := seq(|ir.methodIds|, i => 0);
    agreed := true;
    for k := 0 to |ms|
      invariant |table| == |ir.methodIds|
      invariant Consistent(ms) ==> agreed && Tabulated(ir, off, ms[..k], table)
    {
      var m := ms[k];
      assert ms[..k + 1] == ms[..k] + [m];
      if Consistent(ms) {
        PrefixConsistent(ms, k + 1);
        TabulateMore(ir, off, ms[..k], table, m);
      }
      if DebugInfo(ir, m).Some? {
        var offset := DebugOffset(ir, off, m);
        if table[m.index] != 0 && offset != table[m.index] {
          agreed := false;
        }
        table := table[m.index := offset];
      } else {
        NoDebugInfo(ir, off, m);
      }
    }
    assert ms[..|ms|] == ms;
    if OneCodeEach(ir) {
      TabulatedIsTable(ir, off, table);
    }
  }

  ghost predicate HasDebugInfo(ir: Ir, m: Method, d: nat) {
    m.code.Some? && m.code.value < |ir.codeItems| && ir.codeItems[m.code.value].debugInfo == Some(d)
  }

  /** Each method's entry is the offset of its debug info; all other entries are zero. */
  ghost predicate IsTable(ir: Ir, off: Offsets, table: seq<uint32>) {
    && (forall c, m :: Declares(ir, c, m) ==> m.index < |table|)
    && (forall c, m, d :: Declares(ir, c, m) && HasDebugInfo(ir, m, d) ==>
          m.index < |table| && table[m.index] == OffsetOf(off, Ref(DebugInfos, d)))
    && (forall x :: 0 <= x < |table| && table[x] != 0 ==>
          exists c, m, d :: Declares(ir, c, m) && m.index == x && HasDebugInfo(ir, m, d))
  }

  lemma {:induction false} DebugOffsetIs(ir: Ir, off: Offsets, m: Method)
    ensures forall d :: HasDebugInfo(ir, m, d) ==> DebugOffset(ir, off, m) == OffsetOf(off, Ref(DebugInfos, d))
    ensures DebugOffset(ir, off, m) != 0 ==> exists d :: HasDebugInfo(ir, m, d)
  {
    var d := DebugInfo(ir, m);
    if d.Some? {
      assert HasDebugInfo(ir, m, d.value);
    }
  }

  lemma {:induction false} TabulatedIsTable(ir: Ir, off: Offsets, table: seq<uint32>)
    requires Tabulated(ir, off, Methods(ir), table)
    ensures IsTable(ir, off, table)
  {
    hide Methods, Declares, DebugOffset, HasDebugInfo;
    var ms := Methods(ir);
    forall c, m | Declares(ir, c, m)
      ensures m.index < |table| && table[m.index] == DebugOffset(ir, off, m)
    {
      MethodsHas(ir, m);
      var i :| 0 <= i < |ms| && ms[i] == m;
    }
    forall c, m, d | Declares(ir, c, m) && HasDebugInfo(ir, m, d)
      ensures m.index < |table| && table[m.index] == OffsetOf(off, Ref(DebugInfos, d))
    {
      DebugOffsetIs(ir, off, m);
    }
    forall x | 0 <= x < |table| && table[x] != 0
      ensures exists c, m, d :: Declares(ir, c, m) && m.index == x && HasDebugInfo(ir, m, d)
    {
      var i :| 0 <= i < |ms| && ms[i].index == x;
      MethodsHas(ir, ms[i]);
      DebugOffsetIs(ir, off, ms[i]);
    }
  }

  lemma {:induction false} PrefixConsistent(ms: seq<Method>, k: nat)
    requires Consistent(ms) && k <= |ms|
    ensures Consistent(ms[..k])
  {
  }

  lemma {:induction false} NoDebugInfo(ir: Ir, off: Offsets, m: Method)
    requires DebugInfo(ir, m).None?
    ensures DebugOffset(ir, off, m) == 0
  {
  }

  /** What a reader of an accepted file looks up for a method is that method's own debug info. */
  lemma {:induction false} LookupFindsDebugInfo(ir: Ir, off: Offsets, table: seq<uint32>, c: ClassDef, m: Method,
      d: nat)
    requires Declares(ir, c, m) && HasDebugInfo(ir, m, d) && IsTable(ir, off, table) && 7 * |table| < 0x1_0000_0000
    ensures GetOffset(Encode(table), m.index) == Some(OffsetOf(off, Ref(DebugInfos, d)))
  {
    hide GetOffset, Encode, Declares, HasDebugInfo, OffsetOf;
    LookupIsExact(table, m.index);
  }
}
