/**
 The map list: one entry per non-empty section, popped from a queue in order of offset.
 */
module MapLists {
  import opened Leb128
  import opened DexIr

  datatype MapItem = MapItem(kind: uint16, size: nat, offset: nat)

  const HEADER_KIND: uint16 := 0x0000
  const MAP_LIST_KIND: uint16 := 0x1000

  function KindCode(k: Section): (code: uint16)
    ensures code != HEADER_KIND && code != MAP_LIST_KIND
  {
    match k
    case StringIds => 0x0001
    case TypeIds => 0x0002
    case ProtoIds => 0x0003
    case FieldIds => 0x0004
    case MethodIds => 0x0005
    case ClassDefs => 0x0006
    case CallSiteIds => 0x0007
    case MethodHandles => 0x0008
    case TypeLists => 0x1001
    case SetRefLists => 0x1002
    case AnnotationSets => 0x1003
    case ClassDatas => 0x2000
    case CodeSection => 0x2001
    case StringDatas => 0x2002
    case DebugInfos => 0x2003
    case Annotations => 0x2004
    case EncodedArrays => 0x2005
    case Directories => 0x2006
  }

  lemma {:induction false} KindCodesDiffer(j: Section, k: Section)
    ensures KindCode(j) == KindCode(k) <==> j == k
  {
  }

  const SECTIONS: seq<Section> :=
    [StringIds, TypeIds, ProtoIds, FieldIds, MethodIds, ClassDefs, CallSiteIds, MethodHandles, TypeLists,
     SetRefLists, AnnotationSets, ClassDatas, CodeSection, StringDatas, DebugInfos, Annotations, EncodedArrays,
         Directories]

  function StartOf(starts: map<Section, nat>, k: Section): nat {
    if k in starts then starts[k] else 0
  }

  /** Empty sections are not listed. */
  function SectionEntries(ir: Ir, starts: map<Section, nat>, ks: seq<Section>): seq<MapItem> {
    if ks == [] then []
    else
      (if Count(ir, ks[0]) != 0 then [MapItem(KindCode(ks[0]), Count(ir, ks[0]), StartOf(starts, ks[0]))] else [])
      + SectionEntries(ir, starts, ks[1..])
  }

  function Entries(ir: Ir, starts: map<Section, nat>, mapOffset: nat): seq<MapItem> {
    [MapItem(HEADER_KIND, 1, 0), MapItem(MAP_LIST_KIND, 1, mapOffset)] + SectionEntries(ir, starts, SECTIONS)
  }

  ghost predicate DistinctOffsets(items: seq<MapItem>) {
    forall i, j :: 0 <= i < j < |items| ==> items[i].offset != items[j].offset
  }

  ghost predicate StrictlyAscending(items: seq<MapItem>) {
    forall i, j :: 0 <= i < j < |items| ==> items[i].offset < items[j].offset
  }

  /** The sections that take up room start at different places, between header and map list. */
  ghost predicate Spread(ir: Ir, starts: map<Section, nat>, mapOffset: nat) {
    && (forall k :: Count(ir, k) != 0 ==> 0 < StartOf(starts, k) < mapOffset)
    && (forall j, k :: Count(ir, j) != 0 && Count(ir, k) != 0 && j != k ==> StartOf(starts, j) != StartOf(starts, k))
  }

  lemma {:induction false} EntryOfSection(ir: Ir, starts: map<Section, nat>, ks: seq<Section>, e: MapItem)
    requires e in SectionEntries(ir, starts, ks)
    ensures exists k :: k in ks && Count(ir, k) != 0 && e == MapItem(KindCode(k), Count(ir, k), StartOf(starts, k))
  {
    hide KindCode;
    if Count(ir, ks[0]) != 0 && e == MapItem(KindCode(ks[0]), Count(ir, ks[0]), StartOf(starts, ks[0])) {
      assert ks[0] in ks;
    } else {
      EntryOfSection(ir, starts, ks[1..], e);
      var k :| k in ks[1..] && Count(ir, k) != 0 && e == MapItem(KindCode(k), Count(ir, k), StartOf(starts, k));
      assert k in ks;
    }
  }

  lemma {:induction false} SectionIsListed(ir: Ir, starts: map<Section, nat>, ks: seq<Section>, k: Section)
    requires k in ks && Count(ir, k) != 0
    ensures MapItem(KindCode(k), Count(ir, k), StartOf(starts, k)) in SectionEntries(ir, starts, ks)
  {
    hide KindCode;
    if ks[0] != k {
      SectionIsListed(ir, starts, ks[1..], k);
    }
  }

  /** Each non-empty section has its entry. */
  lemma {:induction false} EntryIsListed(ir: Ir, starts: map<Section, nat>, mapOffset: nat, k: Section,
      items: seq<MapItem>)
    requires Count(ir, k) != 0 && multiset(items) == multiset(Entries(ir, starts, mapOffset))
    ensures MapItem(KindCode(k), Count(ir, k), StartOf(starts, k)) in items
  {
    hide KindCode, SectionEntries;
    assert k in SECTIONS;
    SectionIsListed(ir, starts, SECTIONS, k);
    assert MapItem(KindCode(k), Count(ir, k), StartOf(starts, k)) in multiset(Entries(ir, starts, mapOffset));
  }

  lemma {:induction false} SectionEntriesDistinct(ir: Ir, starts: map<Section, nat>, mapOffset: nat, ks: seq<Section>)
    requires Spread(ir, starts, mapOffset) && forall i, j :: 0 <= i < j < |ks| ==> ks[i] != ks[j]
    ensures DistinctOffsets(SectionEntries(ir, starts, ks))
    ensures forall e :: e in SectionEntries(ir, starts, ks) ==> 0 < e.offset < mapOffset
  {
    hide KindCode;
    if ks != [] {
      SectionEntriesDistinct(ir, starts, mapOffset, ks[1..]);
      var tail := SectionEntries(ir, starts, ks[1..]);
      forall e | e in tail && Count(ir, ks[0]) != 0
        ensures e.offset != StartOf(starts, ks[0])
      {
        EntryOfSection(ir, starts, ks[1..], e);
        var k :| k in ks[1..] && Count(ir, k) != 0 && e == MapItem(KindCode(k), Count(ir, k), StartOf(starts, k));
      }
      assert forall i :: 0 <= i < |tail| ==> tail[i] in tail;
    }
  }

  lemma {:induction false} EntriesDistinct(ir: Ir, starts: map<Section, nat>, mapOffset: nat)
    requires Spread(ir, starts, mapOffset) && mapOffset > 0
    ensures DistinctOffsets(Entries(ir, starts, mapOffset))
  {
    hide SectionEntries;
    SectionEntriesDistinct(ir, starts, mapOffset, SECTIONS);
    var tail := SectionEntries(ir, starts, SECTIONS);
    assert forall i :: 0 <= i < |tail| ==> tail[i] in tail;
  }

  method TopIndex(queue: seq<MapItem>) returns (top: nat)
    requires queue != []
    ensures top < |queue| && forall i :: 0 <= i < |queue| ==> queue[top].offset <= queue[i].offset
  {
    top := 0;
    for i := 1 to |queue|
      invariant top < |queue| && forall j :: 0 <= j < i ==> queue[top].offset <= queue[j].offset
    {
      if queue[i].offset < queue[top].offset {
        top := i;
      }
    }
  }

  lemma {:induction false} RemoveTop(queue: seq<MapItem>, top: nat)
    requires DistinctOffsets(queue) && top < |queue|
    requires forall i :: 0 <= i < |queue| ==> queue[top].offset <= queue[i].offset
    ensures var rest := queue[..top] + queue[top + 1..];
            && DistinctOffsets(rest) && multiset(rest) + multiset{queue[top]} == multiset(queue)
            && forall e :: e in rest ==> e in queue && queue[top].offset < e.offset
  {
    var rest := queue[..top] + queue[top + 1..];
    assert multiset(rest) + multiset{queue[top]} == multiset(queue) by { SplitAt(queue, top); }
    forall i | 0 <= i < |rest|
      ensures rest[i] == queue[Old(top, i)]
    {
    }
    forall e | e in rest
      ensures e in queue && queue[top].offset < e.offset
    {
      var i :| 0 <= i < |rest| && rest[i] == e;
      assert e == queue[Old(top, i)];
    }
    forall i, j | 0 <= i < j < |rest|
      ensures rest[i].offset != rest[j].offset
    {
      assert rest[i] == queue[Old(top, i)] && rest[j] == queue[Old(top, j)];
    }
  }

  /** Where an entry stood before the one at `top` was taken out. */
  function Old(top: nat, i: nat): nat {
    if i < top then i else i + 1
  }

  lemma {:induction false} SplitAt(queue: seq<MapItem>, top: nat)
    requires top < |queue|
    ensures multiset(queue[..top] + queue[top + 1..]) + multiset{queue[top]} == multiset(queue)
  {
    assert queue == queue[..top] + [queue[top]] + queue[top + 1..];
  }

  ghost predicate AllBefore(front: seq<MapItem>, back: seq<MapItem>) {
    forall a, b :: a in front && b in back ==> a.offset < b.offset
  }

  lemma {:induction false} AscendMore(front: seq<MapItem>, e: MapItem)
    requires StrictlyAscending(front) && AllBefore(front, [e])
    ensures StrictlyAscending(front + [e])
  {
    assert e in [e];
    assert forall i :: 0 <= i < |front| ==> front[i] in front;
  }

  /** Popping the queue until it is empty lists the entries by ascending offset. */
  method PopAll(queue: seq<MapItem>) returns (out: seq<MapItem>)
    requires DistinctOffsets(queue)
    ensures multiset(out) == multiset(queue) && StrictlyAscending(out)
  {
    hide DistinctOffsets, StrictlyAscending, AllBefore;
    out := [];
    var left := queue;
    NothingPopped(queue);
    while left != []
      invariant multiset(out) + multiset(left) == multiset(queue)
      invariant DistinctOffsets(left) && StrictlyAscending(out) && AllBefore(out, left)
      decreases |left|
    {
      var top := TopIndex(left);
      RemoveTop(left, top);
      PopOne(out, left, top);
      out := out + [left[top]];
      left := left[..top] + left[top + 1..];
    }
  }

  lemma {:induction false} NothingPopped(queue: seq<MapItem>)
    ensures StrictlyAscending([]) && AllBefore([], queue)
  {
  }

  lemma {:induction false} PopOne(out: seq<MapItem>, left: seq<MapItem>, top: nat)
    requires StrictlyAscending(out) && AllBefore(out, left) && top < |left|
    requires forall e :: e in left[..top] + left[top + 1..] ==> e in left && left[top].offset < e.offset
    ensures StrictlyAscending(out + [left[top]]) && AllBefore(out + [left[top]], left[..top] + left[top + 1..])
  {
    hide StrictlyAscending;
    assert left[top] in left;
    AscendMore(out, left[top]);
  }

  function ItemBytes(items: seq<MapItem>): seq<byte> {
    if items == [] then []
    else Half(items[0].kind) + Half(0) + Word(items[0].size) + Word(items[0].offset) + ItemBytes(items[1..])
  }

  function MapBytes(items: seq<MapItem>): (s: seq<byte>)
    ensures |s| > 0
  {
    Word(|items|) + ItemBytes(items)
  }
}
