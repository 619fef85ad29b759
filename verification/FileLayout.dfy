/**
 What holds of the file between any two steps of the writer: which sections are written where,
 which are only reserved, and that everything else is still zero.
 */
module FileLayout {
  import opened Leb128
  import opened Streams
  import opened Sections
  import opened DexIr

  /** A written section, from the position it was begun at. */
  datatype Region = Region(start: nat, image: seq<byte>)

  /** A reserved section, laid out for items of these sizes. */
  datatype Hole = Hole(start: nat, plan: seq<seq<byte>>)

  function Items(ir: Ir, off: Offsets, k: Section): (items: seq<seq<byte>>)
    requires Valid(ir)
    ensures |items| == Count(ir, k)
  {
    seq(Count(ir, k), i requires 0 <= i < Count(ir, k) => Serialize(ir, off, Ref(k, Order(ir, k)[i])))
  }

  /** The offsets of a section's items, given by their order in the file. */
  function SectionOffsets(ir: Ir, k: Section, offsets: seq<nat>): (off: Offsets)
    requires Valid(ir) && |offsets| == Count(ir, k)
    ensures forall i :: 0 <= i < |offsets| ==>
        Ref(k, Order(ir, k)[i]) in off && off[Ref(k, Order(ir, k)[i])] == offsets[i]
    ensures forall r :: r in off ==> r.section == k
  {
    var order := Order(ir, k);
    map i | 0 <= i < |offsets| :: Ref(k, order[i]) := offsets[i]
  }

  ghost predicate Between(r: Region, i: nat) {
    r.start <= i < r.start + |r.image|
  }

  ghost predicate Holds(data: seq<byte>, r: Region) {
    ReadsAs(data, r.start, r.image)
  }

  ghost predicate Clear(r: Region, lo: nat, hi: nat) {
    r.start + |r.image| <= lo || hi <= r.start
  }

  /** No written section reaches into lo..hi. */
  ghost predicate Free(regions: map<Section, Region>, lo: nat, hi: nat) {
    forall k :: k in regions ==> Clear(regions[k], lo, hi)
  }

  /** Every written section still holds its bytes. */
  ghost predicate Intact(data: seq<byte>, regions: map<Section, Region>) {
    forall k :: k in regions ==> Holds(data, regions[k])
  }

  ghost predicate RegionsApart(regions: map<Section, Region>) {
    forall j, k :: j in regions && k in regions && j != k ==>
      Clear(regions[j], regions[k].start, regions[k].start + |regions[k].image|)
  }

  /** Every written section is intact, no two overlap, and all other bytes are zero. */
  ghost predicate Sound(data: seq<byte>, regions: map<Section, Region>) {
    && Intact(data, regions) && RegionsApart(regions)
    && (forall i :: 0 <= i < |data| && data[i] != 0 ==> exists k :: k in regions && Between(regions[k], i))
  }

  lemma {:induction false} FreeIsZero(data: seq<byte>, regions: map<Section, Region>, lo: nat, n: nat)
    requires Sound(data, regions) && Free(regions, lo, lo + n)
    ensures ZeroFrom(data, lo, n)
  {
  }

  lemma {:induction false} HoldsThrough(d0: seq<byte>, d1: seq<byte>, pos: nat, bytes: seq<byte>, r: Region)
    requires Has(d0, d1, pos, bytes) && Holds(d0, r) && Clear(r, pos, pos + |bytes|)
    ensures Holds(d1, r)
  {
    hide Has;
    ReadsThrough(d0, d1, pos, bytes, r.start, r.image);
  }

  lemma {:induction false} HasHolds(d0: seq<byte>, d1: seq<byte>, pos: nat, bytes: seq<byte>)
    requires Has(d0, d1, pos, bytes)
    ensures Holds(d1, Region(pos, bytes))
    ensures forall i :: 0 <= i < |d1| && d1[i] != 0 && !(pos <= i < pos + |bytes|) ==> i < |d0| && d0[i] == d1[i]
  {
    hide Has;
    HasExtent(d0, d1, pos, bytes);
    HasPointwise(d0, d1, pos, bytes);
    assert d1[pos..pos + |bytes|] == bytes;
  }

  lemma {:induction false} NonZeroIsWritten(d0: seq<byte>, d1: seq<byte>, regions: map<Section, Region>, k: Section,
                                            pos: nat, image: seq<byte>, i: nat)
    requires Sound(d0, regions) && k !in regions && Has(d0, d1, pos, image) && i < |d1| && d1[i] != 0
    ensures var more := regions[k := Region(pos, image)];
            exists j :: j in more && Between(more[j], i)
  {
    hide Has, Holds;
    HasHolds(d0, d1, pos, image);
    var more := regions[k := Region(pos, image)];
    if pos <= i < pos + |image| {
      assert Between(more[k], i);
    } else {
      var j :| j in regions && Between(regions[j], i);
      assert Between(more[j], i);
    }
  }

  /** Writing one more section into free space keeps the file sound. */
  lemma {:induction false} SoundWrite(d0: seq<byte>, d1: seq<byte>, regions: map<Section, Region>, k: Section,
                                      pos: nat, image: seq<byte>)
    requires Sound(d0, regions) && k !in regions && Free(regions, pos, pos + |image|)
    requires Has(d0, d1, pos, image)
    ensures Sound(d1, regions[k := Region(pos, image)])
  {
    hide Has, Holds, Between;
    HasHolds(d0, d1, pos, image);
    var more := regions[k := Region(pos, image)];
    forall j | j in more
      ensures Holds(d1, more[j])
    {
      if j != k {
        HoldsThrough(d0, d1, pos, image, regions[j]);
      }
    }
    forall i | 0 <= i < |d1| && d1[i] != 0
      ensures exists j :: j in more && Between(more[j], i)
    {
      NonZeroIsWritten(d0, d1, regions, k, pos, image, i);
    }
  }

  lemma {:induction false} SoundGrown(d0: seq<byte>, d1: seq<byte>, regions: map<Section, Region>)
    requires Sound(d0, regions) && |d0| <= |d1| && d1 == Grown(d0, |d1|)
    ensures Sound(d1, regions)
  {
    forall k | k in regions
      ensures Holds(d1, regions[k])
    {
      assert Holds(d0, regions[k]);
      assert d1[..|d0|] == d0;
    }
    forall i | 0 <= i < |d1| && d1[i] != 0
      ensures exists k :: k in regions && Between(regions[k], i)
    {
      assert i < |d0| && d0[i] == d1[i];
    }
  }

  // ---- the writer's invariant

  function HoleEnd(k: Section, h: Hole): nat {
    h.start + |Image(h.start, Alignment(k), h.plan)|
  }

  /** The recorded offset of each item of a section is its place in this layout. */
  ghost predicate Located(ir: Ir, off: Offsets, k: Section, start: nat, items: seq<seq<byte>>)
    requires Valid(ir)
  {
    && |items| == Count(ir, k)
    && forall i :: 0 <= i < |items| ==>
         Ref(k, Order(ir, k)[i]) in off && off[Ref(k, Order(ir, k)[i])] == ItemOffset(start, Alignment(k), items, i)
  }

  ghost predicate RegionOk(ir: Ir, off: Offsets, k: Section, r: Region)
    requires Valid(ir)
  {
    var items := Items(ir, off, k);
    r.image == Image(r.start, Alignment(k), items) && Located(ir, off, k, r.start, items)
  }

  ghost predicate HoleOk(ir: Ir, off: Offsets, k: Section, h: Hole)
    requires Valid(ir)
  {
    SameSizes(h.plan, Items(ir, off, k)) && Located(ir, off, k, h.start, h.plan)
  }

  datatype State = State(off: Offsets, regions: map<Section, Region>, holes: map<Section, Hole>, frontier: nat)

  /** The sections that are reserved first and filled in later. */
  const RESERVABLE: set<Section> := {StringIds, ProtoIds, ClassDefs, CallSiteIds, CodeSection}

  ghost predicate RegionsOk(ir: Ir, s: State)
    requires Valid(ir)
  {
    && (forall k :: k in s.regions ==> RegionOk(ir, s.off, k, s.regions[k]))
    && (forall k :: k in s.regions ==> s.regions[k].start + |s.regions[k].image| <= s.frontier)
  }

  ghost predicate HolesOk(ir: Ir, s: State)
    requires Valid(ir)
  {
    && s.holes.Keys <= RESERVABLE
    && (forall k :: k in s.holes ==> HoleOk(ir, s.off, k, s.holes[k]))
    && (forall k :: k in s.holes ==> HoleEnd(k, s.holes[k]) <= s.frontier)
    && (forall k :: k in s.holes ==> Free(s.regions, s.holes[k].start, HoleEnd(k, s.holes[k])))
    && (forall j, k :: j in s.holes && k in s.holes && j != k ==>
          HoleEnd(j, s.holes[j]) <= s.holes[k].start || HoleEnd(k, s.holes[k]) <= s.holes[j].start)
  }

  ghost predicate Inv(ir: Ir, data: seq<byte>, s: State) {
    && Valid(ir) && Sound(data, s.regions) && s.regions.Keys !! s.holes.Keys
    && RegionsOk(ir, s) && HolesOk(ir, s)
  }

  /** Assigning offsets to section k leaves alone every section that does not mention it. */
  lemma {:induction false} ItemsStable(ir: Ir, off: Offsets, more: Offsets, k: Section, j: Section)
    requires Valid(ir) && (forall r :: r in more ==> r.section == k) && k !in Mentions(j)
    ensures Items(ir, off + more, j) == Items(ir, off, j)
  {
    hide Serialize, Valid;
    OrderIsPermutation(ir, j);
    forall i | 0 <= i < Count(ir, j)
      ensures Items(ir, off + more, j)[i] == Items(ir, off, j)[i]
    {
      SerializeAgrees(ir, off + more, off, Ref(j, Order(ir, j)[i]));
    }
  }

  lemma {:induction false} LocatedStable(ir: Ir, off: Offsets, more: Offsets, k: Section, j: Section, start: nat,
                                         items: seq<seq<byte>>)
    requires Valid(ir) && (forall r :: r in more ==> r.section == k) && k != j
    requires Located(ir, off, j, start, items)
    ensures Located(ir, off + more, j, start, items)
  {
    hide Valid, ItemOffset;
  }

  lemma {:induction false} NewlyLocated(ir: Ir, off: Offsets, k: Section, start: nat, items: seq<seq<byte>>,
                                        offsets: seq<nat>)
    requires Valid(ir) && |items| == |offsets| == Count(ir, k)
    requires forall i :: 0 <= i < |items| ==> offsets[i] == ItemOffset(start, Alignment(k), items, i)
    ensures Located(ir, off + SectionOffsets(ir, k, offsets), k, start, items)
  {
    hide Valid, ItemOffset;
  }

  lemma {:induction false} SizesStable(ir: Ir, a: Offsets, b: Offsets, k: Section)
    requires Valid(ir) && k in RESERVABLE
    ensures SameSizes(Items(ir, a, k), Items(ir, b, k))
  {
    hide Serialize, Valid;
    OrderIsPermutation(ir, k);
    forall i | 0 <= i < Count(ir, k)
      ensures |Items(ir, a, k)[i]| == |Items(ir, b, k)[i]|
    {
      ReservedSize(ir, a, b, Ref(k, Order(ir, k)[i]));
    }
  }

  lemma {:induction false} RegionStable(ir: Ir, off: Offsets, more: Offsets, k: Section, j: Section, r: Region)
    requires Valid(ir) && (forall x :: x in more ==> x.section == k) && k != j && k !in Mentions(j)
    requires RegionOk(ir, off, j, r)
    ensures RegionOk(ir, off + more, j, r)
  {
    hide Valid, Items, Image, Located;
    ItemsStable(ir, off, more, k, j);
    LocatedStable(ir, off, more, k, j, r.start, Items(ir, off, j));
  }

  lemma {:induction false} HoleStable(ir: Ir, off: Offsets, more: Offsets, k: Section, j: Section, h: Hole)
    requires Valid(ir) && (forall x :: x in more ==> x.section == k) && k != j && j in RESERVABLE
    requires HoleOk(ir, off, j, h)
    ensures HoleOk(ir, off + more, j, h)
  {
    hide Valid, Items, Located;
    SizesStable(ir, off, off + more, j);
    LocatedStable(ir, off, more, k, j, h.start, h.plan);
  }

  /** The state once section k's items have been given these offsets. */
  function Assigned(ir: Ir, s: State, k: Section, offsets: seq<nat>): State
    requires Valid(ir) && |offsets| == Count(ir, k)
  {
    s.(off := s.off + SectionOffsets(ir, k, offsets))
  }

  lemma {:induction false} AssignKeeps(ir: Ir, s: State, k: Section, offsets: seq<nat>)
    requires Valid(ir) && RegionsOk(ir, s) && HolesOk(ir, s) && |offsets| == Count(ir, k)
    requires k !in s.regions && k !in s.holes && forall j :: j in s.regions ==> k !in Mentions(j)
    ensures RegionsOk(ir, Assigned(ir, s, k, offsets)) && HolesOk(ir, Assigned(ir, s, k, offsets))
  {
    hide Valid, RegionOk, HoleOk, Free, HoleEnd, SectionOffsets;
    var more := SectionOffsets(ir, k, offsets);
    forall j | j in s.regions
      ensures RegionOk(ir, s.off + more, j, s.regions[j])
    {
      RegionStable(ir, s.off, more, k, j, s.regions[j]);
    }
    forall j | j in s.holes
      ensures HoleOk(ir, s.off + more, j, s.holes[j])
    {
      HoleStable(ir, s.off, more, k, j, s.holes[j]);
    }
  }

  /** Space past the frontier is free. */
  lemma {:induction false} BeyondIsFree(ir: Ir, s: State, lo: nat, hi: nat)
    requires Valid(ir) && RegionsOk(ir, s) && s.frontier <= lo
    ensures Free(s.regions, lo, hi)
  {
    hide Valid, RegionOk;
  }

  function Appended(ir: Ir, s: State, k: Section, offsets: seq<nat>): State
    requires Valid(ir) && |offsets| == Count(ir, k)
  {
    var image := Image(s.frontier, Alignment(k), Items(ir, s.off, k));
    State(s.off + SectionOffsets(ir, k, offsets), s.regions[k := Region(s.frontier, image)], s.holes,
        s.frontier + |image|)
  }

  /** Offsets report the layout of these items from this start. */
  ghost predicate Reports(k: Section, start: nat, items: seq<seq<byte>>, offsets: seq<nat>) {
    |offsets| == |items| && forall i :: 0 <= i < |items| ==> offsets[i] == ItemOffset(start, Alignment(k), items, i)
  }

  ghost predicate MayAssign(s: State, k: Section) {
    k !in s.regions && k !in s.holes && forall j :: j in s.regions ==> k !in Mentions(j)
  }

  lemma {:induction false} AppendKeeps(ir: Ir, d0: seq<byte>, d1: seq<byte>, s: State, k: Section, offsets: seq<nat>)
    requires Inv(ir, d0, s) && MayAssign(s, k)
    requires Reports(k, s.frontier, Items(ir, s.off, k), offsets)
    requires Has(d0, d1, s.frontier, Image(s.frontier, Alignment(k), Items(ir, s.off, k)))
    ensures Inv(ir, d1, Appended(ir, s, k, offsets))
  {
    hide Valid, RegionOk, HoleOk, Free, HoleEnd, SectionOffsets, Sound, Items, Image, Has;
    var items := Items(ir, s.off, k);
    var image := Image(s.frontier, Alignment(k), items);
    BeyondIsFree(ir, s, s.frontier, s.frontier + |image|);
    SoundWrite(d0, d1, s.regions, k, s.frontier, image);
    AssignKeeps(ir, s, k, offsets);
    AppendRegions(ir, s, k, offsets);
    AppendHoles(ir, s, k, offsets);
  }

  lemma {:induction false} AppendRegions(ir: Ir, s: State, k: Section, offsets: seq<nat>)
    requires Valid(ir) && |offsets| == Count(ir, k) && RegionsOk(ir, Assigned(ir, s, k, offsets))
    requires Reports(k, s.frontier, Items(ir, s.off, k), offsets)
    ensures RegionsOk(ir, Appended(ir, s, k, offsets))
  {
    hide Valid, HoleOk, Free, SectionOffsets, Image, Located, Items;
    var items := Items(ir, s.off, k);
    NewlyLocated(ir, s.off, k, s.frontier, items, offsets);
    OwnItemsStable(ir, s.off, SectionOffsets(ir, k, offsets), k);
    var image := Image(s.frontier, Alignment(k), items);
    assert RegionOk(ir, s.off + SectionOffsets(ir, k, offsets), k, Region(s.frontier, image));
    hide RegionOk;
  }

  /** No section mentions its own items. */
  lemma {:induction false} OwnItemsStable(ir: Ir, off: Offsets, more: Offsets, k: Section)
    requires Valid(ir) && (forall x :: x in more ==> x.section == k)
    ensures Items(ir, off + more, k) == Items(ir, off, k)
  {
    hide Valid, Items;
    ItemsStable(ir, off, more, k, k);
  }

  lemma {:induction false} AppendHoles(ir: Ir, s: State, k: Section, offsets: seq<nat>)
    requires Valid(ir) && |offsets| == Count(ir, k) && HolesOk(ir, Assigned(ir, s, k, offsets))
    ensures HolesOk(ir, Appended(ir, s, k, offsets))
  {
    hide Valid, HoleOk, SectionOffsets, Image, Items, HoleEnd;
  }

  function Reserved(ir: Ir, s: State, k: Section, offsets: seq<nat>): State
    requires Valid(ir) && |offsets| == Count(ir, k)
  {
    var plan := Items(ir, s.off, k);
    State(s.off + SectionOffsets(ir, k, offsets), s.regions, s.holes[k := Hole(s.frontier, plan)],
          s.frontier + |Image(s.frontier, Alignment(k), plan)|)
  }

  lemma {:induction false} ReserveKeeps(ir: Ir, d0: seq<byte>, d1: seq<byte>, s: State, k: Section, offsets: seq<nat>)
    requires Inv(ir, d0, s) && MayAssign(s, k) && k in RESERVABLE
    requires Reports(k, s.frontier, Items(ir, s.off, k), offsets)
    requires |d0| <= |d1| && d1 == Grown(d0, |d1|)
    ensures Inv(ir, d1, Reserved(ir, s, k, offsets))
  {
    hide Valid, RegionOk, HoleOk, Free, HoleEnd, SectionOffsets, Sound, Items, Image, Grown;
    SoundGrown(d0, d1, s.regions);
    AssignKeeps(ir, s, k, offsets);
    ReserveHoles(ir, s, k, offsets);
  }

  lemma {:induction false} ReserveHoles(ir: Ir, s: State, k: Section, offsets: seq<nat>)
    requires Valid(ir) && k in RESERVABLE && k !in s.holes && RegionsOk(ir, s)
    requires Reports(k, s.frontier, Items(ir, s.off, k), offsets) && HolesOk(ir, Assigned(ir, s, k, offsets))
    ensures HolesOk(ir, Reserved(ir, s, k, offsets))
  {
    hide Valid, RegionOk, Free, SectionOffsets, Image, Items, HoleOk, HoleEnd;
    var hole := Hole(s.frontier, Items(ir, s.off, k));
    NewHoleIsOk(ir, s, k, offsets);
    BeyondIsFree(ir, s, s.frontier, HoleEnd(k, hole));
  }

  lemma {:induction false} NewHoleIsOk(ir: Ir, s: State, k: Section, offsets: seq<nat>)
    requires Valid(ir) && k in RESERVABLE && Reports(k, s.frontier, Items(ir, s.off, k), offsets)
    ensures var hole := Hole(s.frontier, Items(ir, s.off, k));
            && HoleOk(ir, Reserved(ir, s, k, offsets).off, k, hole)
                && HoleEnd(k, hole) == Reserved(ir, s, k, offsets).frontier
            && s.frontier <= HoleEnd(k, hole)
  {
    hide Valid, SectionOffsets, Image, Items, Located;
    var off' := s.off + SectionOffsets(ir, k, offsets);
    var plan := Items(ir, s.off, k);
    NewlyLocated(ir, s.off, k, s.frontier, plan, offsets);
    SizesStable(ir, s.off, off', k);
  }

  function Filled(ir: Ir, s: State, k: Section): State
    requires Valid(ir) && k in s.holes
  {
    var start := s.holes[k].start;
    s.(regions := s.regions[k := Region(start, Image(start, Alignment(k), Items(ir, s.off, k)))],
        holes := s.holes - {k})
  }

  /** What is finally written into a hole fits it exactly and lands on the reserved offsets. */
  lemma {:induction false} HoleFits(ir: Ir, s: State, k: Section)
    requires Valid(ir) && k in s.holes && HoleOk(ir, s.off, k, s.holes[k])
    ensures var start, items := s.holes[k].start, Items(ir, s.off, k);
            && start + |Image(start, Alignment(k), items)| == HoleEnd(k, s.holes[k])
            && Located(ir, s.off, k, start, items)
  {
    hide Valid, Image, Items, ItemOffset;
    LayoutIgnoresContents(s.holes[k].start, Alignment(k), s.holes[k].plan, Items(ir, s.off, k));
  }

  lemma {:induction false} FillKeeps(ir: Ir, d0: seq<byte>, d1: seq<byte>, s: State, k: Section)
    requires Inv(ir, d0, s) && k in s.holes
    requires Has(d0, d1, s.holes[k].start, Image(s.holes[k].start, Alignment(k), Items(ir, s.off, k)))
    ensures Inv(ir, d1, Filled(ir, s, k))
  {
    hide Valid, RegionOk, HoleOk, Free, HoleEnd, Sound, Items, Image, Has, Located;
    HoleFits(ir, s, k);
    var start := s.holes[k].start;
    SoundWrite(d0, d1, s.regions, k, start, Image(start, Alignment(k), Items(ir, s.off, k)));
    FillRegions(ir, s, k);
    FillHoles(ir, s, k);
  }

  lemma {:induction false} FillRegions(ir: Ir, s: State, k: Section)
    requires Valid(ir) && k in s.holes && RegionsOk(ir, s) && HolesOk(ir, s)
    ensures RegionsOk(ir, Filled(ir, s, k))
  {
    hide Valid, Free, Items, Image, Located, HoleEnd;
    HoleFits(ir, s, k);
    var start := s.holes[k].start;
    assert RegionOk(ir, s.off, k, Region(start, Image(start, Alignment(k), Items(ir, s.off, k))));
    hide RegionOk, HoleOk;
  }

  lemma {:induction false} FillHoles(ir: Ir, s: State, k: Section)
    requires Valid(ir) && k in s.holes && HolesOk(ir, s)
    ensures HolesOk(ir, Filled(ir, s, k))
  {
    hide Valid, Items, Image, Located, HoleEnd, HoleOk;
    HoleFits(ir, s, k);
  }

  lemma {:induction false} AdvanceKeeps(ir: Ir, d0: seq<byte>, d1: seq<byte>, s: State, frontier: nat)
    requires Inv(ir, d0, s) && s.frontier <= frontier && |d0| <= |d1| && d1 == Grown(d0, |d1|)
    ensures Inv(ir, d1, s.(frontier := frontier))
  {
    hide Valid, RegionOk, HoleOk, Free, HoleEnd, Sound, Grown;
    SoundGrown(d0, d1, s.regions);
  }

  // ---- what the invariant says about single items

  /** The place of an item in the order of its section. */
  ghost function Rank(ir: Ir, r: Ref): (i: nat)
    requires Valid(ir) && r.index < Count(ir, r.section)
    ensures i < Count(ir, r.section) && Order(ir, r.section)[i] == r.index
  {
    OrderIsPermutation(ir, r.section);
    var order := Order(ir, r.section);
    assert r.index in order;
    var i :| 0 <= i < |order| && order[i] == r.index;
    i
  }

  ghost predicate Written(ir: Ir, s: State, r: Ref) {
    r.section in s.regions && r.index < Count(ir, r.section)
  }

  /** A written item can be read at its offset, which is aligned, and lies in its section's region. */
  lemma {:induction false} ItemIsThere(ir: Ir, data: seq<byte>, s: State, r: Ref)
    requires Valid(ir) && RegionsOk(ir, s) && Intact(data, s.regions) && Written(ir, s, r)
    ensures r in s.off
    ensures var bytes, region := Serialize(ir, s.off, r), s.regions[r.section];
            && Aligned(s.off[r], Alignment(r.section))
            && region.start <= s.off[r] && s.off[r] + |bytes| <= region.start + |region.image|
            && s.off[r] + |bytes| <= |data| && data[s.off[r]..s.off[r] + |bytes|] == bytes
  {
    hide Valid, Image, Serialize;
    var k, i := r.section, Rank(ir, r);
    var region, items := s.regions[k], Items(ir, s.off, k);
    assert RegionOk(ir, s.off, k, region);
    ItemInImage(region.start, Alignment(k), items, i, |items|);
    assert items[..|items|] == items;
    assert Holds(data, region);
    var o, bytes := ItemOffset(region.start, Alignment(k), items, i), items[i];
    SubSlice(data, region.start, region.start + |region.image|, o - region.start, o - region.start + |bytes|);
  }

  /** No two written items overlap. */
  lemma {:induction false} ItemsAreApart(ir: Ir, data: seq<byte>, s: State, q: Ref, r: Ref)
    requires Valid(ir) && RegionsOk(ir, s) && Intact(data, s.regions) && RegionsApart(s.regions)
    requires Written(ir, s, q) && Written(ir, s, r) && q != r
    ensures q in s.off && r in s.off
    ensures s.off[q] + |Serialize(ir, s.off, q)| <= s.off[r] || s.off[r] + |Serialize(ir, s.off, r)| <= s.off[q]
  {
    hide Valid, Serialize, Intact;
    ItemIsThere(ir, data, s, q);
    ItemIsThere(ir, data, s, r);
    if q.section == r.section {
      SameSectionApart(ir, s, q, r);
    } else {
      assert Clear(s.regions[q.section], s.regions[r.section].start,
          s.regions[r.section].start + |s.regions[r.section].image|);
    }
  }

  lemma {:induction false} SameSectionApart(ir: Ir, s: State, q: Ref, r: Ref)
    requires Valid(ir) && Written(ir, s, q) && Written(ir, s, r) && q != r && q.section == r.section
    requires RegionOk(ir, s.off, q.section, s.regions[q.section]) && q in s.off && r in s.off
    ensures s.off[q] + |Serialize(ir, s.off, q)| <= s.off[r] || s.off[r] + |Serialize(ir, s.off, r)| <= s.off[q]
  {
    hide Valid, Image, Serialize;
    var k, i, j := q.section, Rank(ir, q), Rank(ir, r);
    var region, items := s.regions[k], Items(ir, s.off, k);
    if i < j {
      ItemsInOrder(region.start, Alignment(k), items, i, j);
    } else {
      ItemsInOrder(region.start, Alignment(k), items, j, i);
    }
  }
}
