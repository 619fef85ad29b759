/**
 Writing a whole standard DEX file into an empty container, with offsets computed on the way.
 Sections that point at later data are reserved first and filled in once the data is in place;
 code items are measured, then written after the debug info they point at.
 */
module DexWriters {
  import opened Leb128
  import opened Streams
  import opened Sections
  import opened CodeItems
  import opened DexIr
  import opened FileLayout
  import opened MapLists
  import opened Placement

  const HEADER_SIZE := 0x70
  const DATA_ALIGNMENT := 8

  /** Each item of the IR is at its recorded offset, properly aligned, as the bytes it is
      serialised to under the final offsets, and no two items overlap. */
  ghost predicate FileHolds(ir: Ir, data: seq<byte>, off: Offsets)
    requires Valid(ir)
  {
    && (forall r: Ref :: r.index < Count(ir, r.section) ==>
          && r in off && HEADER_SIZE <= off[r] && Aligned(off[r], Alignment(r.section))
          && ReadsAs(data, off[r], Serialize(ir, off, r)))
    && (forall q: Ref, r: Ref :: q.index < Count(ir, q.section) && r.index < Count(ir, r.section) && q != r ==>
          q in off && r in off
          && (off[q] + |Serialize(ir, off, q)| <= off[r] || off[r] + |Serialize(ir, off, r)| <= off[q]))
  }

  /**
    * Nothing lies in the header, id sections start on a word, and each section that takes up room has its
    * start on record.
    */
  ghost predicate Anchored(regions: map<Section, Region>, holes: map<Section, Hole>, starts: map<Section, nat>) {
    && regions.Keys !! holes.Keys
    && (forall k :: k in regions ==> regions[k].start >= HEADER_SIZE)
    && (forall k :: k in holes ==> holes[k].start >= HEADER_SIZE)
    && (forall k :: k in regions && IsIdSection(k) ==> regions[k].start % 4 == 0)
    && (forall k :: k in holes && IsIdSection(k) ==> holes[k].start % 4 == 0)
    && (forall k :: k in regions && regions[k].image != [] ==> k in starts && starts[k] == regions[k].start)
  }

  ghost function Noted(starts: map<Section, nat>, k: Section, start: nat, end: nat): map<Section, nat> {
    if start != end then starts[k := start] else starts
  }

  /** Only sections that have items have their starts on record. */
  ghost predicate StartsUsed(ir: Ir, starts: map<Section, nat>) {
    forall k :: k in starts ==> Count(ir, k) != 0
  }

  lemma {:induction false} NotedUsed(ir: Ir, off: Offsets, starts: map<Section, nat>, k: Section, start: nat)
    requires Valid(ir) && StartsUsed(ir, starts)
    ensures StartsUsed(ir, Noted(starts, k, start, start + |Image(start, Alignment(k), Items(ir, off, k))|))
  {
    hide Valid, Serialize;
    OrderIsPermutation(ir, k);
    var items := Items(ir, off, k);
    if Count(ir, k) == 0 {
      assert items == [] && Image(start, Alignment(k), items) == [];
    }
  }

  lemma {:induction false} NotedHere(starts: map<Section, nat>, k: Section, start: nat, end: nat)
    ensures Noted(starts, k, start, end) == starts || Noted(starts, k, start, end) == starts[k := start]
  {
  }

  lemma {:induction false} AnchorAppend(regions: map<Section, Region>, holes: map<Section, Hole>,
                                        starts: map<Section, nat>, k: Section, r: Region)
    requires Anchored(regions, holes, starts) && k !in regions && k !in holes && r.start >= HEADER_SIZE
    requires IsIdSection(k) ==> r.start % 4 == 0
    ensures Anchored(regions[k := r], holes, Noted(starts, k, r.start, r.start + |r.image|))
  {
  }

  lemma {:induction false} AnchorReserve(regions: map<Section, Region>, holes: map<Section, Hole>,
                                         starts: map<Section, nat>, k: Section, h: Hole, end: nat)
    requires Anchored(regions, holes, starts) && k !in regions && h.start >= HEADER_SIZE
    requires IsIdSection(k) ==> h.start % 4 == 0
    ensures Anchored(regions, holes[k := h], Noted(starts, k, h.start, end))
  {
  }

  lemma {:induction false} AnchorFill(regions: map<Section, Region>, holes: map<Section, Hole>,
                                      starts: map<Section, nat>, k: Section, r: Region)
    requires Anchored(regions, holes, starts) && k in holes && r.start == holes[k].start
    ensures Anchored(regions[k := r], holes - {k}, Noted(starts, k, r.start, r.start + |r.image|))
  {
  }

  lemma {:induction false} AppendReady(ir: Ir, d0: seq<byte>, d1: seq<byte>, s: State, starts: map<Section, nat>,
      k: Section, where: seq<nat>)
    requires Inv(ir, d0, s) && MayAssign(s, k) && Anchored(s.regions, s.holes, starts) && s.frontier >= HEADER_SIZE
    requires Reports(k, s.frontier, Items(ir, s.off, k), where) && (IsIdSection(k) ==> s.frontier % 4 == 0)
    requires Has(d0, d1, s.frontier, Image(s.frontier, Alignment(k), Items(ir, s.off, k)))
    ensures var t := Appended(ir, s, k, where);
            && Inv(ir, d1, t) && Anchored(t.regions, t.holes, Noted(starts, k, s.frontier, t.frontier))
            && (IsIdSection(k) ==> t.frontier % 4 == 0)
  {
    hide Inv, Items, Image, Has, Anchored, Noted, Valid, MayAssign, SectionOffsets, ItemOffset;
    IsNew(s, k);
    AppendRoom(ir, d0, s, 0);
    AppendKeeps(ir, d0, d1, s, k, where);
    AnchorAppend(s.regions, s.holes, starts, k, Appended(ir, s, k, where).regions[k]);
    IdsEndOnWord(ir, s.off, k, s.frontier);
  }

  lemma {:induction false} ReserveReady(ir: Ir, d0: seq<byte>, d1: seq<byte>, s: State, starts: map<Section, nat>,
      k: Section, where: seq<nat>)
    requires Inv(ir, d0, s) && MayAssign(s, k) && Anchored(s.regions, s.holes, starts) && s.frontier >= HEADER_SIZE
    requires Reports(k, s.frontier, Items(ir, s.off, k), where) && k in DELAYED_IDS && s.frontier % 4 == 0
    requires |d0| <= |d1| && d1 == Grown(d0, |d1|)
    ensures var t := Reserved(ir, s, k, where);
            && Inv(ir, d1, t) && Anchored(t.regions, t.holes, Noted(starts, k, s.frontier, t.frontier))
            && t.frontier % 4 == 0
  {
    hide Inv, Items, Image, Grown, Anchored, Noted, Valid, MayAssign, SectionOffsets, ItemOffset;
    IsNew(s, k);
    AppendRoom(ir, d0, s, 0);
    ReserveKeeps(ir, d0, d1, s, k, where);
    var t := Reserved(ir, s, k, where);
    AnchorReserve(s.regions, s.holes, starts, k, t.holes[k], t.frontier);
    IdsEndOnWord(ir, s.off, k, s.frontier);
  }

  class DexWriter {
    const ir: Ir
    const stream: Stream
    var offsets: Offsets
    var sectionStarts: map<Section, nat>
    ghost var regions: map<Section, Region>
    ghost var holes: map<Section, Hole>

    ghost function Now(): State
      reads this, stream
    {
      State(offsets, regions, holes, stream.position)
    }

    /** Between two sections: the stream stands at the end of everything written or reserved. */
    ghost predicate Ready()
      reads this, stream
    {
      && stream.Valid() && Valid(ir) && Inv(ir, stream.data, Now())
      && stream.position >= HEADER_SIZE && Anchored(regions, holes, sectionStarts) && StartsUsed(ir, sectionStarts)
    }

    constructor (ir: Ir)
      requires Valid(ir)
      ensures Ready() && fresh(stream) && this.ir == ir && stream.position == HEADER_SIZE
      ensures regions == map[] && holes == map[]
    {
      this.ir := ir;
      var s := new Stream([]);
      s.Seek(HEADER_SIZE);
      stream := s;
      offsets, sectionStarts, regions, holes := map[], map[], map[], map[];
    }

    method NoteStart(k: Section, start: nat)
      modifies `sectionStarts
      ensures sectionStarts == Noted(old(sectionStarts), k, start, stream.position)
    {
      if start != stream.position {
        sectionStarts := sectionStarts[k := start];
      }
    }

    /** Aligns and writes the items one by one, recording where each one starts. */
    method AppendSection(k: Section)
      requires Ready() && MayAssign(Now(), k) && (IsIdSection(k) ==> stream.position % 4 == 0)
      modifies this, stream
      ensures IsIdSection(k) ==> stream.position % 4 == 0
      ensures stream.position == old(stream.position)
          + |Image(old(stream.position), Alignment(k), Items(ir, old(offsets), k))|
      ensures sectionStarts == Noted(old(sectionStarts), k, old(stream.position), stream.position)
      ensures Ready() && regions.Keys == old(regions.Keys) + {k} && holes == old(holes)
    {
      hide Inv, Items, Image, Has, Anchored, Noted, Valid, MayAssign, SectionOffsets, ItemOffset, ZeroFrom, StartsUsed;
      ghost var s, d0 := Now(), stream.data;
      var start := stream.position;
      var items := Items(ir, offsets, k);
      ghost var image := Image(start, Alignment(k), items);
      AppendRoom(ir, d0, s, |image|);
      var where := WriteItems(stream, Alignment(k), items);
      AppendReady(ir, d0, stream.data, s, sectionStarts, k, where);
      NotedUsed(ir, s.off, sectionStarts, k, start);
      offsets := offsets + SectionOffsets(ir, k, where);
      regions := regions[k := Region(start, image)];
      NoteStart(k, start);
    }

    /** Leaves room for an id section whose entries point at data not yet placed. */
    method ReserveSection(k: Section) returns (start: nat)
      requires Ready() && MayAssign(Now(), k) && k in DELAYED_IDS && stream.position % 4 == 0
      modifies this, stream
      ensures stream.position % 4 == 0
      ensures stream.position >= old(stream.position)
      ensures Ready() && regions == old(regions)
      ensures k in holes && holes[k].start == start && holes == old(holes)[k := holes[k]]
    {
      hide Inv, Items, Image, Grown, Valid, Anchored, Noted, MayAssign, SectionOffsets, ItemOffset, StartsUsed;
      ghost var s, d0 := Now(), stream.data;
      start := stream.position;
      ghost var items := Items(ir, offsets, k);
      ReservedSizes(ir, offsets, k);
      var where := ReserveItems(stream, Alignment(k), IdSize(k), items, Count(ir, k));
      ReserveReady(ir, d0, stream.data, s, sectionStarts, k, where);
      NotedUsed(ir, s.off, sectionStarts, k, start);
      offsets := offsets + SectionOffsets(ir, k, where);
      holes := holes[k := Hole(start, items)];
      NoteStart(k, start);
    }

    /** Goes back to a reserved id section, writes it, and returns to where the stream stood. */
    method FillSection(k: Section, start: nat)
      requires Ready() && k in holes && holes[k].start == start
      modifies this, stream
      ensures stream.position == old(stream.position)
      ensures sectionStarts == old(sectionStarts) || sectionStarts == old(sectionStarts)[k := start]
      ensures Ready() && regions.Keys == old(regions.Keys) + {k} && holes == old(holes) - {k}
    {
      hide Inv, Items, Image, Has, Valid, Grown, Anchored, Noted, StartsUsed;
      ghost var s, d0 := Now(), stream.data;
      var back := stream.position;
      stream.Seek(start);
      ghost var d1 := stream.data;
      AdvanceKeeps(ir, d0, d1, s, back);
      FillRoom(ir, d1, s, k);
      var items := Items(ir, offsets, k);
      var where := WriteItems(stream, Alignment(k), items);
      FillKeeps(ir, d1, stream.data, s, k);
      AnchorFill(regions, holes, sectionStarts, k, Filled(ir, s, k).regions[k]);
      NotedHere(sectionStarts, k, start, stream.position);
      NotedUsed(ir, offsets, sectionStarts, k, start);
      NoteStart(k, start);
      Refilled(back, s, k);
    }

    /** Measures the code items by writing and clearing them. */
    method ReserveCode(scratch: seq<byte>) returns (start: nat)
      requires Ready() && MayAssign(Now(), CodeSection) && |scratch| == 16
      modifies this, stream
      ensures stream.position == start + |Image(start, 4, Items(ir, old(offsets), CodeSection))|
      ensures start == old(stream.position) && sectionStarts
          == Noted(old(sectionStarts), CodeSection, start, stream.position)
      ensures Ready() && regions == old(regions)
      ensures CodeSection in holes && holes[CodeSection].start == start
          && holes == old(holes)[CodeSection := holes[CodeSection]]
    {
      hide Inv, Items, Image, Grown, Valid, Anchored, Noted, StartsUsed;
      ghost var s, d0 := Now(), stream.data;
      start := stream.position;
      ghost var items := Items(ir, offsets, CodeSection);
      var codes, debug := CodesInOrder(ir, offsets);
      AppendRoom(ir, d0, s, |Image(start, 4, items)|);
      var where := WriteCodeItems(stream, codes, debug, true, scratch);
      ReserveKeeps(ir, d0, stream.data, s, CodeSection, where);
      AnchorReserve(regions, holes, sectionStarts, CodeSection, Hole(start, items), stream.position);
      NotedUsed(ir, s.off, sectionStarts, CodeSection, start);
      offsets := offsets + SectionOffsets(ir, CodeSection, where);
      holes := holes[CodeSection := Hole(start, items)];
      NoteStart(CodeSection, start);
    }

    /** Writes the code items for real, now that the debug info has its offsets. */
    method FillCode(start: nat, scratch: seq<byte>)
      requires Ready() && CodeSection in holes && holes[CodeSection].start == start && |scratch| == 16
      modifies this, stream
      ensures stream.position == old(stream.position)
      ensures sectionStarts == old(sectionStarts) || sectionStarts == old(sectionStarts)[CodeSection := start]
      ensures Ready() && regions.Keys == old(regions.Keys) + {CodeSection} && holes == old(holes) - {CodeSection}
    {
      hide Inv, Items, Image, Has, Valid, Grown, Anchored, Noted, StartsUsed;
      ghost var s, d0 := Now(), stream.data;
      var back := stream.position;
      stream.Seek(start);
      ghost var d1 := stream.data;
      AdvanceKeeps(ir, d0, d1, s, back);
      FillRoom(ir, d1, s, CodeSection);
      var codes, debug := CodesInOrder(ir, offsets);
      var where := WriteCodeItems(stream, codes, debug, false, scratch);
      FillKeeps(ir, d1, stream.data, s, CodeSection);
      AnchorFill(regions, holes, sectionStarts, CodeSection, Filled(ir, s, CodeSection).regions[CodeSection]);
      NotedHere(sectionStarts, CodeSection, start, stream.position);
      NotedUsed(ir, offsets, sectionStarts, CodeSection, start);
      NoteStart(CodeSection, start);
      Refilled(back, s, CodeSection);
    }

    /** The end of both filling passes: back to the frontier. */
    method Refilled(back: nat, ghost s: State, ghost k: Section)
      requires Valid(ir) && k in s.holes && s.frontier == back >= HEADER_SIZE && Inv(ir, stream.data, Filled(ir, s, k))
      requires s == State(offsets, regions, holes, back)
      requires Anchored(Filled(ir, s, k).regions, Filled(ir, s, k).holes, sectionStarts)
      requires StartsUsed(ir, sectionStarts)
      modifies stream, `regions, `holes
      ensures Ready() && regions.Keys == old(regions.Keys) + {k} && holes == old(holes) - {k}
      ensures stream.position == back
    {
      hide Inv, Items, Image, Valid, Grown, Anchored, StartsUsed;
      ghost var d0 := stream.data;
      regions, holes := Filled(ir, s, k).regions, Filled(ir, s, k).holes;
      stream.Seek(back);
      AdvanceKeeps(ir, d0, stream.data, Filled(ir, s, k), back);
    }

    method AlignFile(alignment: nat)
      requires Ready() && IsAlignment(alignment)
      modifies stream
      ensures Ready() && stream.position == RoundUp(old(stream.position), alignment)
    {
      hide Inv, Valid, Grown, Anchored, StartsUsed;
      ghost var s, d0 := Now(), stream.data;
      stream.AlignTo(alignment);
      AdvanceKeeps(ir, d0, stream.data, s, stream.position);
    }

    // ---- the phases of a whole write

    /** Written so far: exactly the sections whose turn was at most `t`. */
    ghost predicate Through(t: nat)
      reads this
    {
      forall k :: k in regions <==> Turn(k) <= t
    }

    /** Id sections: those that point at data are only reserved. */
    method WriteIds() returns (strings: nat, protos: nat, classes: nat, callSites: nat)
      requires Ready() && regions == map[] && holes == map[] && stream.position % 4 == 0
      modifies this, stream
      ensures Ready() && Through(0) && holes.Keys == DELAYED_IDS
      ensures Starts(holes, strings, protos, classes, callSites)
    {
      hide Ready, MayAssign, Turn, Noted, Image, Items;
      IdsMayBeAssigned(Now(), StringIds);
      strings := ReserveSection(StringIds);
      IdsMayBeAssigned(Now(), TypeIds);
      AppendSection(TypeIds);
      IdsMayBeAssigned(Now(), ProtoIds);
      protos := ReserveSection(ProtoIds);
      classes, callSites := WriteMoreIds();
      FirstTurn(regions.Keys);
    }

    method WriteMoreIds() returns (classes: nat, callSites: nat)
      requires Ready() && stream.position % 4 == 0 && regions.Keys == {TypeIds} && holes.Keys == {StringIds, ProtoIds}
      modifies this, stream
      ensures Ready() && regions.Keys == {TypeIds, FieldIds, MethodIds, MethodHandles}
      ensures holes.Keys == DELAYED_IDS && holes[ClassDefs].start == classes && holes[CallSiteIds].start == callSites
      ensures forall k :: k in old(holes) ==> holes[k] == old(holes[k])
    {
      hide Ready, MayAssign, Noted, Image, Items;
      IdsMayBeAssigned(Now(), FieldIds);
      AppendSection(FieldIds);
      IdsMayBeAssigned(Now(), MethodIds);
      AppendSection(MethodIds);
      classes, callSites := WriteLastIds();
    }

    method WriteLastIds() returns (classes: nat, callSites: nat)
      requires Ready() && stream.position % 4 == 0 && regions.Keys == {TypeIds, FieldIds, MethodIds}
      requires holes.Keys == {StringIds, ProtoIds}
      modifies this, stream
      ensures Ready() && regions.Keys == {TypeIds, FieldIds, MethodIds, MethodHandles}
      ensures holes.Keys == DELAYED_IDS && holes[ClassDefs].start == classes && holes[CallSiteIds].start == callSites
      ensures forall k :: k in old(holes) ==> holes[k] == old(holes[k])
    {
      hide Ready, MayAssign, Noted, Image, Items;
      IdsMayBeAssigned(Now(), ClassDefs);
      classes := ReserveSection(ClassDefs);
      IdsMayBeAssigned(Now(), CallSiteIds);
      callSites := ReserveSection(CallSiteIds);
      IdsMayBeAssigned(Now(), MethodHandles);
      AppendSection(MethodHandles);
    }

    method AppendNext(k: Section)
      requires Ready() && 0 < Turn(k) < 11 && k != CodeSection && k !in holes
      requires Through(Turn(k) - 1) && Phased(ir, sectionStarts, Turn(k) - 1)
      requires Turn(k) <= 8 ==> stream.position % 4 == Phase(ir, k)
      modifies this, stream
      ensures stream.position >= old(stream.position)
      ensures Ready() && Through(Turn(k)) && holes == old(holes) && Phased(ir, sectionStarts, Turn(k))
      ensures Turn(k) < 8 ==> stream.position % 4 == Phase(ir, Following(k))
      ensures forall j :: j in old(sectionStarts) && j != k ==>
          j in sectionStarts && sectionStarts[j] == old(sectionStarts[j])
    {
      hide Ready, MayAssign, Phased, Phase, Following, Noted, Image, Items, Turn, IsIdSection;
      DataTurn(k);
      LaterMayBeAssigned(Now(), k);
      ghost var starts, off, pos := sectionStarts, offsets, stream.position;
      ReadyIsValid();
      AppendSection(k);
      PhasedMore(ir, off, starts, k, pos);
      NotedHere(starts, k, pos, stream.position);
      if Turn(k) < 8 {
        PhaseTurn(k);
        Onward(ir, off, k, pos);
      }
    }

    lemma ReadyIsValid()
      requires Ready()
      ensures Valid(ir)
    {
    }

    /** Debug infos come behind the room for the code items. */
    method ReserveCodeAndDebug(scratch: seq<byte>) returns (start: nat)
      requires Ready() && Through(0) && holes.Keys == DELAYED_IDS && |scratch| == 16 && stream.position % 4 == 0
      modifies this, stream
      ensures start == old(stream.position) <= stream.position && stream.position % 4 == Phase(ir, EncodedArrays)
      ensures Ready() && Through(1) && Phased(ir, sectionStarts, 1)
      ensures CodeSection in holes && holes[CodeSection].start == start
      ensures holes == old(holes)[CodeSection := holes[CodeSection]]
      ensures var end := start + |Image(start, 4, Items(ir, old(offsets), CodeSection))|;
              var noted := Noted(old(sectionStarts), CodeSection, start, end);
              CodeSection in noted ==> CodeSection in sectionStarts && sectionStarts[CodeSection] == noted[CodeSection]
    {
      hide Ready, MayAssign, Phase, Image, Items, Noted, Phased, Turn;
      CodeTurns();
      LaterMayBeAssigned(Now(), CodeSection);
      ghost var before, off := sectionStarts, offsets;
      ReadyIsValid();
      start := ReserveCode(scratch);
      CodePhase(ir, off, before, start);
      AppendNext(DebugInfos);
    }

    /** Code items around the debug info they point at. */
    method WriteCode(scratch: seq<byte>)
      requires Ready() && Through(0) && holes.Keys == DELAYED_IDS && |scratch| == 16 && stream.position % 4 == 0
      modifies this, stream
      ensures stream.position >= old(stream.position)
      ensures Ready() && Through(2) && holes == old(holes)
      ensures Phased(ir, sectionStarts, 2) && stream.position % 4 == Phase(ir, EncodedArrays)
    {
      hide Ready, Phase, Image, Items, Noted, Phased, Turn;
      CodeTurns();
      ghost var before, off := sectionStarts, offsets;
      ReadyIsValid();
      var start := ReserveCodeAndDebug(scratch);
      ghost var starts := sectionStarts;
      FillCode(start, scratch);
      CodePlaced(ir, off, before, starts, sectionStarts, start);
      assert holes == old(holes);
    }

    method WriteAnnotations()
      requires Ready() && Through(2) && holes.Keys == DELAYED_IDS
      requires Phased(ir, sectionStarts, 2) && stream.position % 4 == Phase(ir, EncodedArrays)
      modifies this, stream
      ensures stream.position >= old(stream.position) && stream.position % 4 == Phase(ir, Directories)
      ensures Ready() && Through(6) && holes == old(holes) && Phased(ir, sectionStarts, 6)
    {
      hide Ready, Through, Phase, Phased;
      AppendNext(EncodedArrays);
      AppendNext(Annotations);
      AppendNext(AnnotationSets);
      AppendNext(SetRefLists);
    }

    /** The other data sections, each after those it points at. */
    method WriteData()
      requires Ready() && Through(2) && holes.Keys == DELAYED_IDS
      requires Phased(ir, sectionStarts, 2) && stream.position % 4 == Phase(ir, EncodedArrays)
      modifies this, stream
      ensures stream.position >= old(stream.position)
      ensures Ready() && Through(10) && holes == old(holes) && Phased(ir, sectionStarts, 10)
    {
      hide Ready, Through, Phase, Phased;
      WriteAnnotations();
      AppendNext(Directories);
      AppendNext(TypeLists);
      AppendNext(ClassDatas);
      AppendNext(StringDatas);
    }

    method FillDelayed(k: Section, start: nat)
      requires Ready() && k in holes && k in DELAYED_IDS && holes[k].start == start && Phased(ir, sectionStarts, 10)
      modifies this, stream
      ensures stream.position == old(stream.position) && Phased(ir, sectionStarts, 10)
      ensures Ready() && regions.Keys == old(regions.Keys) + {k} && holes == old(holes) - {k}
    {
      hide Ready, Phase;
      FillSection(k, start);
    }

    method WriteDelayedIds(strings: nat, protos: nat, classes: nat, callSites: nat)
      requires Ready() && Through(10) && holes.Keys == DELAYED_IDS && Phased(ir, sectionStarts, 10)
      requires Starts(holes, strings, protos, classes, callSites)
      modifies this, stream
      ensures stream.position >= old(stream.position)
      ensures Ready() && (forall k :: k in regions) && Phased(ir, sectionStarts, 10)
    {
      hide Ready, Phased;
      FillDelayed(StringIds, strings);
      FillDelayed(ProtoIds, protos);
      FillDelayed(ClassDefs, classes);
      FillDelayed(CallSiteIds, callSites);
    }
  }

  /** The code items in file order, with the offsets of their debug infos. */
  method CodesInOrder(ir: Ir, off: Offsets) returns (codes: seq<CodeItem>, debug: seq<nat>)
    requires Valid(ir)
    ensures |codes| == |debug| == Count(ir, CodeSection)
    ensures forall i :: 0 <= i < |codes| ==> Writable(codes[i])
    ensures CodeImages(codes, debug) == Items(ir, off, CodeSection)
  {
    OrderIsPermutation(ir, CodeSection);
    var order := Order(ir, CodeSection);
    codes := seq(|order|, i requires 0 <= i < |order| => ir.codeItems[order[i]]);
    debug := seq(|order|, i requires 0 <= i < |order| => OffsetOrZero(off, DebugInfos,
        ir.codeItems[order[i]].debugInfo));
  }

  lemma {:induction false} IdsEndOnWord(ir: Ir, off: Offsets, k: Section, start: nat)
    requires Valid(ir) && (IsIdSection(k) ==> start % 4 == 0)
    ensures IsIdSection(k) ==> (start + |Image(start, Alignment(k), Items(ir, off, k))|) % 4 == 0
  {
    hide Valid, Image, Items;
    if IsIdSection(k) {
      var items := Items(ir, off, k);
      ReservedSizes(ir, off, k);
      TableHasNoGaps(start, IdSize(k), items, |items|);
      assert items[..|items|] == items;
    }
  }

  lemma {:induction false} ReservedSizes(ir: Ir, off: Offsets, k: Section)
    requires Valid(ir) && IsIdSection(k)
    ensures forall i :: 0 <= i < Count(ir, k) ==> |Items(ir, off, k)[i]| == IdSize(k)
  {
    hide Serialize, Valid;
    OrderIsPermutation(ir, k);
    forall i | 0 <= i < Count(ir, k)
      ensures |Items(ir, off, k)[i]| == IdSize(k)
    {
      IdSizeIsExact(ir, off, Ref(k, Order(ir, k)[i]));
    }
  }

  lemma {:induction false} FillRoom(ir: Ir, data: seq<byte>, s: State, k: Section)
    requires Inv(ir, data, s) && k in s.holes
    ensures Valid(ir) && ZeroFrom(data, s.holes[k].start, |Image(s.holes[k].start, Alignment(k), Items(ir, s.off, k))|)
  {
    hide Valid, Sound, RegionsOk, HoleOk, Free, HoleEnd, Items, Image, Located;
    HoleFits(ir, s, k);
    FreeIsZero(data, s.regions, s.holes[k].start, HoleEnd(k, s.holes[k]) - s.holes[k].start);
  }

  lemma {:induction false} IsNew(s: State, k: Section)
    requires MayAssign(s, k)
    ensures k !in s.regions && k !in s.holes
  {
  }

  lemma {:induction false} AppendRoom(ir: Ir, data: seq<byte>, s: State, n: nat)
    requires Inv(ir, data, s)
    ensures Valid(ir) && ZeroFrom(data, s.frontier, n)
  {
    hide Valid, Sound, RegionOk, HolesOk, Free;
    BeyondIsFree(ir, s, s.frontier, s.frontier + n);
    FreeIsZero(data, s.regions, s.frontier, n);
  }

  // ---- the order of the phases

  const DELAYED_IDS: set<Section> := {StringIds, ProtoIds, ClassDefs, CallSiteIds}

  ghost predicate Starts(holes: map<Section, Hole>, strings: nat, protos: nat, classes: nat, callSites: nat) {
    && StringIds in holes && holes[StringIds].start == strings && ProtoIds in holes && holes[ProtoIds].start == protos
    && ClassDefs in holes && holes[ClassDefs].start == classes
    && CallSiteIds in holes && holes[CallSiteIds].start == callSites
  }

  /** When a section gets its contents. */
  function Turn(k: Section): nat {
    match k
    case TypeIds => 0
    case FieldIds => 0
    case MethodIds => 0
    case MethodHandles => 0
    case DebugInfos => 1
    case CodeSection => 2
    case EncodedArrays => 3
    case Annotations => 4
    case AnnotationSets => 5
    case SetRefLists => 6
    case Directories => 7
    case TypeLists => 8
    case ClassDatas => 9
    case StringDatas => 10
    case _ => 11
  }

  /** Word-aligned data sections begin where on a word they should. */
  ghost predicate Phased(ir: Ir, starts: map<Section, nat>, t: nat) {
    && Valid(ir)
    && forall k :: 0 < Turn(k) <= t && t <= 10 && Alignment(k) == 4 && Count(ir, k) != 0 ==>
         k in starts && starts[k] % 4 == Phase(ir, k)
  }

  lemma {:induction false} PhasedMore(ir: Ir, off: Offsets, starts: map<Section, nat>, k: Section, pos: nat)
    requires 0 < Turn(k) < 11 && Phased(ir, starts, Turn(k) - 1) && (Turn(k) <= 8 ==> pos % 4 == Phase(ir, k))
    ensures Phased(ir, Noted(starts, k, pos, pos + |Image(pos, Alignment(k), Items(ir, off, k))|), Turn(k))
  {
    hide Valid, Phase, Image;
    if Count(ir, k) != 0 {
      ImageIsNotEmpty(ir, off, k, pos);
    }
  }

  lemma {:induction false} ImageIsNotEmpty(ir: Ir, off: Offsets, k: Section, pos: nat)
    requires Valid(ir) && Count(ir, k) != 0
    ensures |Image(pos, Alignment(k), Items(ir, off, k))| > 0
  {
    hide Valid, Image, Serialize;
    OrderIsPermutation(ir, k);
    var items := Items(ir, off, k);
    ItemInImage(pos, Alignment(k), items, 0, |items|);
    assert items[..|items|] == items;
    ItemsAreNotEmpty(ir, off, Ref(k, Order(ir, k)[0]));
  }

  lemma {:induction false} CodePhase(ir: Ir, off: Offsets, starts: map<Section, nat>, start: nat)
    requires Valid(ir) && start % 4 == 0
    ensures var end := start + |Image(start, 4, Items(ir, off, CodeSection))|;
            end % 4 == Phase(ir, DebugInfos) && Phased(ir, Noted(starts, CodeSection, start, end), 0)
  {
    hide Valid, Image, Items;
    Onward(ir, off, CodeSection, start);
  }

  lemma {:induction false} CodePlaced(ir: Ir, off: Offsets, before: map<Section, nat>, starts: map<Section, nat>,
                                      now: map<Section, nat>, start: nat)
    requires Valid(ir) && start % 4 == 0
    requires Phased(ir, starts, 1) && (now == starts || now == starts[CodeSection := start])
    requires var noted := Noted(before, CodeSection, start, start + |Image(start, 4, Items(ir, off, CodeSection))|);
             CodeSection in noted ==> CodeSection in starts && starts[CodeSection] == noted[CodeSection]
    ensures Phased(ir, now, 2)
  {
    hide Valid, Image, Items;
    if Count(ir, CodeSection) != 0 {
      ImageIsNotEmpty(ir, off, CodeSection, start);
    }
  }

  /** Each data section has its own turn. */
  lemma {:induction false} DataTurn(k: Section)
    requires 0 < Turn(k) < 11
    ensures !IsIdSection(k) && forall j :: Turn(j) == Turn(k) <==> j == k
  {
  }

  lemma {:induction false} CodeTurns()
    ensures Turn(DebugInfos) == 1 && Following(DebugInfos) == EncodedArrays
    ensures forall k :: Turn(k) == 2 <==> k == CodeSection
  {
  }

  lemma {:induction false} PhaseTurn(k: Section)
    requires 0 < Turn(k) < 8
    ensures k in {CodeSection, DebugInfos, EncodedArrays, Annotations, AnnotationSets, SetRefLists, Directories}
  {
  }

  lemma {:induction false} FirstTurn(ks: set<Section>)
    requires ks == {TypeIds, FieldIds, MethodIds, MethodHandles}
    ensures forall k :: k in ks <==> Turn(k) <= 0
  {
  }

  /** A section is written after everything it points at. */
  lemma {:induction false} PointsBackwards(j: Section, k: Section)
    requires k in Mentions(j)
    ensures Turn(k) < Turn(j) && !IsIdSection(k)
  {
  }

  lemma {:induction false} LaterMayBeAssigned(s: State, k: Section)
    requires k !in s.regions && k !in s.holes && forall j :: j in s.regions ==> Turn(j) < Turn(k)
    ensures MayAssign(s, k)
  {
    hide Mentions, Turn;
    forall j | j in s.regions
      ensures k !in Mentions(j)
    {
      if k in Mentions(j) {
        PointsBackwards(j, k);
      }
    }
  }

  lemma {:induction false} IdsMayBeAssigned(s: State, k: Section)
    requires k !in s.regions && k !in s.holes && IsIdSection(k)
    ensures MayAssign(s, k)
  {
    hide Mentions, Turn, IsIdSection;
    forall j | j in s.regions
      ensures k !in Mentions(j)
    {
      if k in Mentions(j) {
        PointsBackwards(j, k);
      }
    }
  }
}
