/**
 A whole write: id and data sections, map list, link data and, last, the header.
 */
module DexFiles {
  import opened Leb128
  import opened Streams
  import opened Sections
  import EncodedValues
  import opened DexIr
  import opened FileLayout
  import opened MapLists
  import opened Placement
  import opened DexWriters

  const MAP_LIST_ALIGNMENT := 4

  datatype HeaderInfo = HeaderInfo(magic: seq<byte>, checksum: uint32, signature: seq<byte>, endianTag: uint32,
      linkOffset: nat)

  datatype Extents = Extents(dataOffset: nat, dataSize: nat, mapOffset: nat, linkOffset: nat, fileSize: nat)

  /** The header's words behind magic, checksum and signature. */
  function HeaderWords(ir: Ir, h: HeaderInfo, starts: map<Section, nat>, x: Extents): (w: seq<nat>)
    ensures |w| == 20
  {
    [x.fileSize, HEADER_SIZE, h.endianTag, |ir.linkData|, x.linkOffset, x.mapOffset,
     |ir.stringIds|, StartOf(starts, StringIds), |ir.typeIds|, StartOf(starts, TypeIds), |ir.protoIds|,
         StartOf(starts, ProtoIds),
     |ir.fieldIds|, StartOf(starts, FieldIds), |ir.methodIds|, StartOf(starts, MethodIds), |ir.classDefs|,
         StartOf(starts, ClassDefs),
     x.dataSize, x.dataOffset]
  }

  function HeaderBytes(ir: Ir, h: HeaderInfo, starts: map<Section, nat>, x: Extents): (s: seq<byte>)
    requires |h.magic| == 8 && |h.signature| == 20
    ensures |s| == HEADER_SIZE
  {
    h.magic + Word(h.checksum) + h.signature + Words(HeaderWords(ir, h, starts, x))
  }

  /** Every section is in place, outside the header. */
  ghost predicate Kept(ir: Ir, data: seq<byte>, s: State) {
    && Valid(ir) && RegionsOk(ir, s) && Intact(data, s.regions) && RegionsApart(s.regions)
    && (forall k :: k in s.regions && s.regions[k].start >= HEADER_SIZE)
  }

  lemma {:induction false} KeptMeansHolds(ir: Ir, data: seq<byte>, s: State)
    requires Kept(ir, data, s)
    ensures FileHolds(ir, data, s.off)
  {
    hide Valid, Serialize, RegionsOk, Intact, RegionsApart, Aligned;
    forall r: Ref | r.index < Count(ir, r.section)
      ensures r in s.off && HEADER_SIZE <= s.off[r] && Aligned(s.off[r], Alignment(r.section))
      ensures ReadsAs(data, s.off[r], Serialize(ir, s.off, r))
    {
      ItemIsThere(ir, data, s, r);
    }
    forall q: Ref, r: Ref | q.index < Count(ir, q.section) && r.index < Count(ir, r.section) && q != r
      ensures q in s.off && r in s.off
      ensures s.off[q] + |Serialize(ir, s.off, q)| <= s.off[r] || s.off[r] + |Serialize(ir, s.off, r)| <= s.off[q]
    {
      ItemsAreApart(ir, data, s, q, r);
    }
  }

  /** Item i + 1 of a section, in the order of writing, follows item i at the next aligned place. */
  ghost predicate Follows(ir: Ir, off: Offsets, k: Section, i: nat)
    requires Valid(ir) && |Order(ir, k)| == Count(ir, k) && i + 1 < Count(ir, k)
  {
    var a, b := Ref(k, Order(ir, k)[i]), Ref(k, Order(ir, k)[i + 1]);
    && a.index < Count(ir, k) && a in off && b in off
    && off[b] == RoundUp(off[a] + |Serialize(ir, off, a)|, Alignment(k))
  }

  ghost predicate InSequence(ir: Ir, off: Offsets)
    requires Valid(ir)
  {
    forall k :: Sequential(ir, off, k)
  }

  ghost predicate Sequential(ir: Ir, off: Offsets, k: Section)
    requires Valid(ir)
  {
    |Order(ir, k)| == Count(ir, k) && forall i :: 0 <= i < Count(ir, k) - 1 ==> Follows(ir, off, k, i)
  }

  /** All but class data, strings, debug info, annotations and value arrays begin on a word. */
  ghost predicate OnWords(ir: Ir, off: Offsets) {
    forall r: Ref | r.index < Count(ir, r.section) ::
      r.section !in {ClassDatas, StringDatas, DebugInfos, Annotations, EncodedArrays} ==> r in off && off[r] % 4 == 0
  }

  lemma {:induction false} ItemFollows(ir: Ir, s: State, k: Section, i: nat)
    requires Valid(ir) && RegionsOk(ir, s) && k in s.regions && i + 1 < Count(ir, k)
    ensures |Order(ir, k)| == Count(ir, k) && Follows(ir, s.off, k, i)
  {
    hide Valid, Serialize, Image, RoundUp;
    OrderIsPermutation(ir, k);
    var items, start := Items(ir, s.off, k), s.regions[k].start;
    assert RegionOk(ir, s.off, k, s.regions[k]);
    ImageStep(start, Alignment(k), items, i);
    ItemInImage(start, Alignment(k), items, i, i + 1);
  }

  lemma {:induction false} KeptInSequence(ir: Ir, data: seq<byte>, s: State)
    requires Kept(ir, data, s)
    ensures InSequence(ir, s.off)
  {
    hide Valid, RegionsOk, Intact, RegionsApart, Follows;
    forall k
      ensures Sequential(ir, s.off, k)
    {
      OrderIsPermutation(ir, k);
      forall i | 0 <= i < Count(ir, k) - 1
        ensures Follows(ir, s.off, k, i)
      {
        ItemFollows(ir, s, k, i);
      }
    }
  }

  lemma {:induction false} HeldOnWords(ir: Ir, data: seq<byte>, off: Offsets)
    requires Valid(ir) && FileHolds(ir, data, off)
    ensures OnWords(ir, off)
  {
    hide Valid, Serialize, ReadsAs, Count;
  }

  /** Whatever is written behind the sections or into the header leaves them alone. */
  lemma {:induction false} KeptThrough(ir: Ir, d0: seq<byte>, d1: seq<byte>, s: State, pos: nat, bytes: seq<byte>)
    requires Kept(ir, d0, s) && Has(d0, d1, pos, bytes) && (pos >= s.frontier || pos + |bytes| <= HEADER_SIZE)
    ensures Kept(ir, d1, s)
  {
    hide Valid, RegionOk, Has, Holds, RegionsApart;
    forall k | k in s.regions
      ensures Holds(d1, s.regions[k])
    {
      HoldsThrough(d0, d1, pos, bytes, s.regions[k]);
    }
  }

  lemma {:induction false} KeptTrimmed(ir: Ir, data: seq<byte>, s: State, n: nat)
    requires Kept(ir, data, s) && s.frontier <= n <= |data|
    ensures Kept(ir, data[..n], s)
  {
    hide Valid, RegionOk, RegionsApart;
    forall k | k in s.regions
      ensures Holds(data[..n], s.regions[k])
    {
      assert Holds(data, s.regions[k]);
      ReadsTrimmed(data, s.regions[k].start, s.regions[k].image, n);
    }
  }

  lemma {:induction false} ReadyIsKept(ir: Ir, data: seq<byte>, s: State, starts: map<Section, nat>)
    requires Inv(ir, data, s) && Anchored(s.regions, s.holes, starts) && forall k :: k in s.regions
    ensures Kept(ir, data, s)
  {
    hide Valid, RegionsOk, HolesOk;
  }

  // ---- the map list

  /** A section that has items takes up room. */
  lemma {:induction false} RegionIsNotEmpty(ir: Ir, s: State, k: Section)
    requires Valid(ir) && RegionsOk(ir, s) && k in s.regions && Count(ir, k) != 0
    ensures s.regions[k].image != []
  {
    hide Valid, Image, Serialize;
    OrderIsPermutation(ir, k);
    var items := Items(ir, s.off, k);
    assert RegionOk(ir, s.off, k, s.regions[k]);
    ItemInImage(s.regions[k].start, Alignment(k), items, 0, |items|);
    assert items[..|items|] == items;
    ItemsAreNotEmpty(ir, s.off, Ref(k, Order(ir, k)[0]));
  }

  lemma {:induction false} SectionsAreSpread(ir: Ir, data: seq<byte>, s: State, starts: map<Section, nat>)
    requires Kept(ir, data, s) && Anchored(s.regions, s.holes, starts)
    ensures Spread(ir, starts, s.frontier)
  {
    hide Valid, RegionOk, Intact;
    forall k | Count(ir, k) != 0
      ensures s.regions[k].image != [] && StartOf(starts, k) == s.regions[k].start
    {
      RegionIsNotEmpty(ir, s, k);
    }
    forall j, k | Count(ir, j) != 0 && Count(ir, k) != 0 && j != k
      ensures StartOf(starts, j) != StartOf(starts, k)
    {
      assert Clear(s.regions[j], s.regions[k].start, s.regions[k].start + |s.regions[k].image|);
    }
  }

  /** The recorded start of a section is its first item's offset before alignment. */
  ghost predicate StartsNoted(ir: Ir, off: Offsets, starts: map<Section, nat>)
    requires Valid(ir)
  {
    forall k :: Count(ir, k) != 0 ==>
      && k in starts && |Order(ir, k)| > 0 && Ref(k, Order(ir, k)[0]) in off
      && off[Ref(k, Order(ir, k)[0])] == RoundUp(starts[k], Alignment(k))
  }

  lemma {:induction false} StartsAreNoted(ir: Ir, s: State, starts: map<Section, nat>)
    requires Valid(ir) && RegionsOk(ir, s) && Anchored(s.regions, s.holes, starts) && forall k :: k in s.regions
    ensures StartsNoted(ir, s.off, starts)
  {
    hide Valid, Serialize, RoundUp;
    forall k | Count(ir, k) != 0
      ensures && k in starts && |Order(ir, k)| > 0 && Ref(k, Order(ir, k)[0]) in s.off
              && s.off[Ref(k, Order(ir, k)[0])] == RoundUp(starts[k], Alignment(k))
    {
      OrderIsPermutation(ir, k);
      RegionIsNotEmpty(ir, s, k);
      assert RegionOk(ir, s.off, k, s.regions[k]);
      FirstOffset(s.regions[k].start, Alignment(k), Items(ir, s.off, k));
    }
  }

  lemma {:induction false} FirstOffset(start: nat, align: nat, items: seq<seq<byte>>)
    requires IsAlignment(align) && items != []
    ensures ItemOffset(start, align, items, 0) == RoundUp(start, align)
  {
    assert items[..0] == [];
  }

  /** The map list and the header name the first item of a section itself, unless the section is the first
      of word-aligned items behind loose bytes. */
  ghost predicate StartsNameFirst(ir: Ir, off: Offsets, starts: map<Section, nat>)
    requires Valid(ir)
  {
    forall k :: Count(ir, k) != 0 ==> NamesFirst(ir, off, starts, k) == !Misplaced(ir, k)
  }

  ghost predicate NamesFirst(ir: Ir, off: Offsets, starts: map<Section, nat>, k: Section)
    requires Valid(ir) && Count(ir, k) != 0
  {
    && k in starts && |Order(ir, k)| > 0 && Ref(k, Order(ir, k)[0]) in off
    && starts[k] == off[Ref(k, Order(ir, k)[0])]
  }

  lemma {:induction false} StartNamesFirst(ir: Ir, off: Offsets, starts: map<Section, nat>, k: Section)
    requires Valid(ir) && StartsNoted(ir, off, starts) && IdTables(ir, off, starts) && Phased(ir, starts, 10)
    requires Count(ir, k) != 0
    ensures NamesFirst(ir, off, starts, k) == !Misplaced(ir, k)
  {
    hide Valid, LooseBytes, LastCodeSize, SizeOf, StartsNoted;
    StartIsNoted(ir, off, starts, k);
    if IsIdSection(k) {
      assert InTable(off, starts, k, 0);
      FirstId(ir, k);
    } else if Alignment(k) == 4 {
      assert 0 < Turn(k) <= 10;
      assert starts[k] % 4 == Phase(ir, k);
    }
  }

  lemma {:induction false} StartIsNoted(ir: Ir, off: Offsets, starts: map<Section, nat>, k: Section)
    requires Valid(ir) && StartsNoted(ir, off, starts) && Count(ir, k) != 0
    ensures k in starts && |Order(ir, k)| > 0 && Ref(k, Order(ir, k)[0]) in off
    ensures off[Ref(k, Order(ir, k)[0])] == RoundUp(starts[k], Alignment(k))
  {
    hide Valid, RoundUp;
  }

  lemma {:induction false} FirstId(ir: Ir, k: Section)
    requires Valid(ir) && IsIdSection(k) && Count(ir, k) != 0
    ensures Order(ir, k) != [] && Order(ir, k)[0] == 0
  {
    IdentityAt(Count(ir, k), 0);
  }

  /** Entry i of an id section is found by arithmetic from the section's start. */
  ghost predicate IdTables(ir: Ir, off: Offsets, starts: map<Section, nat>) {
    forall k, i: nat :: IsIdSection(k) && i < Count(ir, k) ==> InTable(off, starts, k, i)
  }

  ghost predicate InTable(off: Offsets, starts: map<Section, nat>, k: Section, i: nat) {
    k in starts && Ref(k, i) in off && off[Ref(k, i)] == TableOffset(starts[k], IdSize(k), i)
  }

  lemma {:induction false} IdentityAt(n: nat, i: nat)
    requires i < n
    ensures Identity(n)[i] == i
  {
    if i < n - 1 {
      IdentityAt(n - 1, i);
    }
  }

  lemma {:induction false} TablesHold(ir: Ir, s: State, starts: map<Section, nat>)
    requires Valid(ir) && RegionsOk(ir, s) && Anchored(s.regions, s.holes, starts) && forall k :: k in s.regions
    ensures IdTables(ir, s.off, starts)
  {
    hide Valid, Serialize, RegionsOk, IsIdSection, Count;
    forall k, i: nat | IsIdSection(k) && i < Count(ir, k)
      ensures InTable(s.off, starts, k, i)
    {
      RegionIsNotEmpty(ir, s, k);
      TableHolds(ir, s, k, i);
    }
  }

  lemma {:induction false} TableHolds(ir: Ir, s: State, k: Section, i: nat)
    requires Valid(ir) && RegionsOk(ir, s) && IsIdSection(k) && i < Count(ir, k)
    requires k in s.regions && s.regions[k].start % 4 == 0
    ensures Ref(k, i) in s.off && s.off[Ref(k, i)] == TableOffset(s.regions[k].start, IdSize(k), i)
  {
    hide Serialize, Image, Items, ItemOffset;
    assert RegionOk(ir, s.off, k, s.regions[k]);
    IdentityAt(Count(ir, k), i);
    ReservedSizes(ir, s.off, k);
    TableHasNoGaps(s.regions[k].start, IdSize(k), Items(ir, s.off, k), i);
  }

  // ---- the end of a write

  lemma {:induction false} FrontierIsBlank(ir: Ir, data: seq<byte>, s: State)
    requires Inv(ir, data, s)
    ensures BlankFrom(data, s.frontier)
  {
    hide Inv;
    AppendRoom(ir, data, s, |data|);
  }

  /** A block behind all sections, still in place. */
  ghost predicate Block(data: seq<byte>, s: State, r: Region) {
    s.frontier <= r.start && Holds(data, r)
  }

  lemma {:induction false} BlockThrough(d0: seq<byte>, d1: seq<byte>, s: State, r: Region, pos: nat, bytes: seq<byte>)
    requires Block(d0, s, r) && Has(d0, d1, pos, bytes) && s.frontier >= HEADER_SIZE
    requires pos >= r.start + |r.image| || pos + |bytes| <= HEADER_SIZE
    ensures Block(d1, s, r)
  {
    hide Has, Holds;
    HoldsThrough(d0, d1, pos, bytes, r);
  }

  /** Writes at the end of the file, where nothing has been written. */
  method AppendBlock(stream: Stream, bytes: seq<byte>, ghost ir: Ir, ghost s: State)
    requires Kept(ir, stream.data, s) && BlankFrom(stream.data, stream.position) && s.frontier <= stream.position
    modifies stream
    ensures stream.Valid() && Kept(ir, stream.data, s) && BlankFrom(stream.data, stream.position)
    ensures stream.position == old(stream.position) + |bytes|
    ensures Has(old(stream.data), stream.data, old(stream.position), bytes)
    ensures Block(stream.data, s, Region(old(stream.position), bytes))
  {
    hide Kept, BlankFrom, Has, ZeroFrom;
    ghost var d0, p := stream.data, stream.position;
    BlankIsZero(d0, p, |bytes|);
    stream.Write(bytes);
    BlankAfter(d0, stream.data, p, bytes);
    KeptThrough(ir, d0, stream.data, s, p, bytes);
    HasHolds(d0, stream.data, p, bytes);
  }

  method AlignEnd(stream: Stream, alignment: nat, ghost ir: Ir, ghost s: State)
    requires IsAlignment(alignment) && stream.Valid()
    requires Kept(ir, stream.data, s) && BlankFrom(stream.data, stream.position) && s.frontier <= stream.position
    modifies stream
    ensures stream.Valid() && Kept(ir, stream.data, s) && BlankFrom(stream.data, stream.position)
    ensures stream.position == RoundUp(old(stream.position), alignment)
    ensures Has(old(stream.data), stream.data, old(stream.position), [])
  {
    hide Kept, BlankFrom, Has, Grown;
    ghost var d0, p := stream.data, stream.position;
    stream.AlignTo(alignment);
    GrownHas(d0, stream.data, p);
    BlankAfter(d0, stream.data, p, []);
    LaterIsBlank(stream.data, p, stream.position);
    KeptThrough(ir, d0, stream.data, s, p, []);
  }

  /** The map list follows the last section. */
  method WriteMapList(w: DexWriter) returns (mapOffset: nat, items: seq<MapItem>, ghost s: State)
    requires w.Ready() && forall k :: k in w.regions
    modifies w.stream
    ensures Valid(w.ir) && w.stream.Valid() && Kept(w.ir, w.stream.data, s) && s.off == w.offsets
    ensures s.frontier == mapOffset && HEADER_SIZE <= mapOffset && old(w.stream.position) <= mapOffset
        && Aligned(mapOffset, MAP_LIST_ALIGNMENT)
    ensures StrictlyAscending(items) && multiset(items) == multiset(Entries(w.ir, w.sectionStarts, mapOffset))
    ensures StartsNoted(w.ir, s.off, w.sectionStarts) && IdTables(w.ir, s.off, w.sectionStarts)
    ensures StartsUsed(w.ir, w.sectionStarts)
    ensures BlankFrom(w.stream.data, w.stream.position) && w.stream.position == mapOffset + |MapBytes(items)|
    ensures Block(w.stream.data, s, Region(mapOffset, MapBytes(items)))
  {
    hide Kept, Inv, Anchored, Valid, BlankFrom, Entries, StrictlyAscending, MapBytes, StartsNoted, IdTables, Spread,
        DistinctOffsets, Has, Block, StartsUsed;
    w.AlignFile(MAP_LIST_ALIGNMENT);
    s := w.Now();
    mapOffset := w.stream.position;
    ghost var d0 := w.stream.data;
    ReadyIsKept(w.ir, d0, s, w.sectionStarts);
    KeptParts(w.ir, d0, s);
    SectionsAreSpread(w.ir, d0, s, w.sectionStarts);
    StartsAreNoted(w.ir, s, w.sectionStarts);
    TablesHold(w.ir, s, w.sectionStarts);
    EntriesDistinct(w.ir, w.sectionStarts, mapOffset);
    items := PopAll(Entries(w.ir, w.sectionStarts, mapOffset));
    FrontierIsBlank(w.ir, d0, s);
    AppendBlock(w.stream, MapBytes(items), w.ir, s);
  }

  lemma {:induction false} KeptParts(ir: Ir, data: seq<byte>, s: State)
    requires Kept(ir, data, s)
    ensures Valid(ir) && RegionsOk(ir, s)
  {
  }

  /** Both times the header is written it goes over the first bytes of the file and nothing else. */
  method WriteHeader(stream: Stream, bytes: seq<byte>, ghost ir: Ir, ghost s: State, ghost map_: Region,
                     ghost link: Region)
    requires |bytes| == HEADER_SIZE <= s.frontier
    requires Kept(ir, stream.data, s) && Block(stream.data, s, map_) && Block(stream.data, s, link)
    modifies stream
    ensures stream.Valid() && |stream.data| >= |old(stream.data)| && Kept(ir, stream.data, s)
    ensures Block(stream.data, s, map_) && Block(stream.data, s, link) && Holds(stream.data, Region(0, bytes))
  {
    hide Kept, Block, Has, Grown, Holds;
    ghost var d0 := stream.data;
    stream.Seek(0);
    ghost var d1 := stream.data;
    GrownHas(d0, d1, 0);
    KeptThrough(ir, d0, d1, s, 0, []);
    BlockThrough(d0, d1, s, map_, 0, []);
    BlockThrough(d0, d1, s, link, 0, []);
    stream.Overwrite(bytes);
    HasExtent(d1, stream.data, 0, bytes);
    KeptThrough(ir, d1, stream.data, s, 0, bytes);
    BlockThrough(d1, stream.data, s, map_, 0, bytes);
    BlockThrough(d1, stream.data, s, link, 0, bytes);
    HasHolds(d1, stream.data, 0, bytes);
  }

  /** Lays out all sections; the data section starts on its own alignment. */
  method WriteSections(w: DexWriter, scratch: seq<byte>) returns (dataOffset: nat)
    requires w.Ready() && w.regions == map[] && w.holes == map[] && |scratch| == 16 && w.stream.position == HEADER_SIZE
    modifies w, w.stream
    ensures w.Ready() && (forall k :: k in w.regions) && Aligned(dataOffset, DATA_ALIGNMENT)
        && dataOffset <= w.stream.position
    ensures Phased(w.ir, w.sectionStarts, 10)
  {
    hide DexWriter.Ready, Starts, Aligned, Phased, Phase;
    var strings, protos, classes, callSites := w.WriteIds();
    w.AlignFile(DATA_ALIGNMENT);
    dataOffset := w.stream.position;
    EightIsFour(dataOffset);
    w.WriteCode(scratch);
    w.WriteData();
    w.WriteDelayedIds(strings, protos, classes, callSites);
  }

  lemma {:induction false} EightIsFour(pos: nat)
    requires Aligned(pos, DATA_ALIGNMENT)
    ensures pos % 4 == 0
  {
  }

  /** Link data goes behind the aligned map list. */
  method WriteLinkData(stream: Stream, link: seq<byte>, previous: nat, ghost ir: Ir, ghost s: State, ghost map_: Region)
    returns (linkOffset: nat, ghost block: Region)
    requires stream.Valid() && Kept(ir, stream.data, s) && BlankFrom(stream.data, stream.position)
    requires Block(stream.data, s, map_) && HEADER_SIZE <= s.frontier && map_.start + |map_.image| <= stream.position
    modifies stream
    ensures stream.Valid() && Kept(ir, stream.data, s) && stream.position == old(stream.position) + |link|
    ensures Block(stream.data, s, map_) && Block(stream.data, s, block) && block.image == link
    ensures block.start + |link| == stream.position
    ensures linkOffset == if link == [] then previous else block.start
  {
    hide Kept, Has, Holds, BlankFrom;
    ghost var d0 := stream.data;
    block := Region(stream.position, link);
    linkOffset := previous;
    if |link| > 0 {
      linkOffset := stream.position;
      AppendBlock(stream, link, ir, s);
      BlockThrough(d0, stream.data, s, map_, linkOffset, link);
    } else {
      NothingIsHeld(d0, block);
    }
  }

  lemma {:induction false} NothingIsHeld(data: seq<byte>, r: Region)
    requires r.image == [] && r.start <= |data|
    ensures Holds(data, r)
  {
  }

  /** A finished file: every item at its offset, header and map list in place, id sections as tables. */
  ghost predicate IsFile(ir: Ir, h: HeaderInfo, file: seq<byte>, off: Offsets, starts: map<Section, nat>, x: Extents,
      items: seq<MapItem>) {
    && Valid(ir) && |h.magic| == 8 && |h.signature| == 20 && |file| == x.fileSize
    && FileHolds(ir, file, off) && IdTables(ir, off, starts)
    && ReadsAs(file, 0, HeaderBytes(ir, h, starts, x)) && ReadsAs(file, x.mapOffset, MapBytes(items))
    && multiset(items) == multiset(Entries(ir, starts, x.mapOffset)) && StartsNoted(ir, off, starts)
    && x.dataOffset + x.dataSize + |ir.linkData| == x.fileSize
    && (ir.linkData != [] ==> ReadsAs(file, x.linkOffset, ir.linkData))
    && InSequence(ir, off) && OnWords(ir, off) && StartsUsed(ir, starts)
  }

  /** A whole file, written into an empty container. */
  method Write(ir: Ir, h: HeaderInfo, checksum: Option<uint32>, scratch: seq<byte>)
    returns (file: seq<byte>, offsets: Offsets, starts: map<Section, nat>, x: Extents, items: seq<MapItem>)
    requires Valid(ir) && |h.magic| == 8 && |h.signature| == 20 && |scratch| == 16
    ensures IsFile(ir, Checked(h, checksum), file, offsets, starts, x, items)
    ensures StrictlyAscending(items) && Aligned(x.mapOffset, MAP_LIST_ALIGNMENT)
    ensures StartsNoted(ir, offsets, starts) && StartsNameFirst(ir, offsets, starts)
    ensures if ir.linkData == [] then x.linkOffset == h.linkOffset else ReadsAs(file, x.linkOffset, ir.linkData)
    ensures x.dataOffset + x.dataSize + |ir.linkData| == x.fileSize && Aligned(x.dataOffset, DATA_ALIGNMENT)
  {
    hide Kept, Has, Valid, FileHolds, Entries, MapBytes, StrictlyAscending, HeaderBytes, StartsNoted, IdTables,
        BlankFrom, DexWriter.Ready, ReadsAs, Aligned, Phased, NamesFirst, Misplaced, InSequence, OnWords,
        StartsUsed;
    var w := new DexWriter(ir);
    var dataOffset := WriteSections(w, scratch);
    var mapOffset;
    ghost var s;
    mapOffset, items, s := WriteMapList(w);
    offsets, starts := w.offsets, w.sectionStarts;
    forall k | Count(ir, k) != 0
      ensures NamesFirst(ir, offsets, starts, k) == !Misplaced(ir, k)
    {
      StartNamesFirst(ir, offsets, starts, k);
    }
    ghost var d1, p, mapBlock := w.stream.data, w.stream.position, Region(mapOffset, MapBytes(items));
    AlignEnd(w.stream, DATA_ALIGNMENT, ir, s);
    BlockThrough(d1, w.stream.data, s, mapBlock, p, []);
    var dataEnd := w.stream.position;
    var linkOffset;
    ghost var linkBlock;
    linkOffset, linkBlock := WriteLinkData(w.stream, ir.linkData, h.linkOffset, ir, s, mapBlock);
    x := Extents(dataOffset, dataEnd - dataOffset, mapOffset, linkOffset, w.stream.position);
    WriteHeader(w.stream, HeaderBytes(ir, h, starts, x), ir, s, mapBlock, linkBlock);
    if checksum.Some? {
      WriteHeader(w.stream, HeaderBytes(ir, Checked(h, checksum), starts, x), ir, s, mapBlock, linkBlock);
    }
    file := w.stream.data[..x.fileSize];
    KeptTrimmed(ir, w.stream.data, s, x.fileSize);
    KeptMeansHolds(ir, file, s);
    KeptInSequence(ir, file, s);
    HeldOnWords(ir, file, offsets);
    ReadsTrimmed(w.stream.data, mapOffset, MapBytes(items), x.fileSize);
    ReadsTrimmed(w.stream.data, linkBlock.start, ir.linkData, x.fileSize);
    ReadsTrimmed(w.stream.data, 0, HeaderBytes(ir, Checked(h, checksum), starts, x), x.fileSize);
  }

  function Checked(h: HeaderInfo, checksum: Option<uint32>): HeaderInfo {
    match checksum case None => h case Some(c) => h.(checksum := c)
  }

  // ---- a section start that is wrong

  /** A class with one annotation that has no elements. */
  function OddAnnotation(): Ir {
    var name: seq<byte> := [0x4c, 0x41, 0x3b];
    var class_ := ClassDef(0, 1, None, None, None, Some(0), None, None);
    Ir([0], [0], [], [], [], [class_], [], [], [], [], [], [AnnotationItem(0, EncodedValues.Annotation(0, []))],
       [[0]], [], [Directory(Some(0), [], [], [])], [], [], [name], [], map[])
  }

  /** Such an annotation takes up three bytes. */
  lemma {:induction false} OddItem(ir: Ir, a: AnnotationItem)
    requires Valid(ir) && ir.annotations == [a] && a.annotation.elements == [] && a.annotation.typeIndex < 128
    requires Order(ir, Annotations) == [0] && EncodedValues.WellFormedAnnotation(TablesOf(ir), a.annotation)
    ensures SizeOf(ir, Annotations) == 3
  {
    hide Valid;
    var items := Items(ir, map[], Annotations);
    BareAnnotation(TablesOf(ir), a.annotation);
    hide EncodedValues.WriteAnnotation;
    assert items[0] == Serialize(ir, map[], Ref(Annotations, 0));
    assert |items| == 1 && |items[0]| == 3;
    assert Total(items) == Total(items[..0]) + 3 && items[..0] == [];
  }

  lemma {:induction false} BareAnnotation(t: EncodedValues.Tables, a: EncodedValues.Annotation)
    requires EncodedValues.WellFormedAnnotation(t, a) && a.elements == [] && a.typeIndex < 128
    ensures EncodedValues.WriteAnnotation(t, a) == [a.typeIndex, 0]
  {
    assert Uleb(0) == [0] && Uleb(a.typeIndex) == [a.typeIndex];
  }

  lemma {:induction false} NothingElse(ir: Ir)
    requires Valid(ir) && ir.codeItems == [] && ir.debugInfos == [] && ir.encodedArrays == []
    ensures LastCodeSize(ir) == 0 && SizeOf(ir, DebugInfos) == 0 && SizeOf(ir, EncodedArrays) == 0
  {
    hide Valid;
  }

  lemma {:induction false} OddAnnotationIsMisplaced(ir: Ir)
    requires ir == OddAnnotation()
    ensures Valid(ir) && Misplaced(ir, AnnotationSets)
  {
    hide Valid, SizeOf, LastCodeSize, EncodedValues.WellFormedAnnotation;
    OddIsValid(ir);
    assert Identity(1) == [0] by { assert Identity(0) == []; }
    OddItem(ir, ir.annotations[0]);
    NothingElse(ir);
  }

  lemma {:induction false} OddIsValid(ir: Ir)
    requires ir == OddAnnotation()
    ensures Valid(ir) && EncodedValues.WellFormedAnnotation(TablesOf(ir), ir.annotations[0].annotation)
  {
  }

  /** Written, this file names a place for its annotation sets where the first of them is not. */
  method WriteOddAnnotation(h: HeaderInfo, scratch: seq<byte>)
    returns (file: seq<byte>, offsets: Offsets, starts: map<Section, nat>, x: Extents, items: seq<MapItem>)
    requires |h.magic| == 8 && |h.signature| == 20 && |scratch| == 16
    ensures IsFile(OddAnnotation(), h, file, offsets, starts, x, items)
    ensures AnnotationSets in starts && MapItem(KindCode(AnnotationSets), 1, starts[AnnotationSets]) in items
    ensures Ref(AnnotationSets, 0) in offsets && offsets[Ref(AnnotationSets, 0)] != starts[AnnotationSets]
  {
    hide IsFile;
    OddAnnotationIsMisplaced(OddAnnotation());
    file, offsets, starts, x, items := Write(OddAnnotation(), h, None, scratch);
    OddStarts(OddAnnotation(), h, file, offsets, starts, x, items);
  }

  lemma {:induction false} OddStarts(ir: Ir, h: HeaderInfo, file: seq<byte>, off: Offsets, starts: map<Section, nat>,
      x: Extents, items: seq<MapItem>)
    requires ir == OddAnnotation() && IsFile(ir, h, file, off, starts, x, items) && Misplaced(ir, AnnotationSets)
    requires StartsNoted(ir, off, starts) && StartsNameFirst(ir, off, starts)
    ensures AnnotationSets in starts && MapItem(KindCode(AnnotationSets), 1, starts[AnnotationSets]) in items
    ensures Ref(AnnotationSets, 0) in off && off[Ref(AnnotationSets, 0)] != starts[AnnotationSets]
  {
    hide Entries, MapBytes, HeaderBytes, FileHolds, Misplaced, IdTables;
    StartIsNoted(ir, off, starts, AnnotationSets);
    IdentityAt(1, 0);
    EntryIsListed(ir, starts, x.mapOffset, AnnotationSets, items);
    assert !NamesFirst(ir, off, starts, AnnotationSets);
  }
}
