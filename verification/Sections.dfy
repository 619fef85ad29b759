/**
 How one section of the file is laid out and written: its items in order, each padded to the
 section's alignment.
 */
module Sections {
  import opened Leb128
  import opened Streams

  /** The bytes from the position where the section is begun to the end of its last item. */
  function Image(pos: nat, align: nat, items: seq<seq<byte>>): (image: seq<byte>)
    requires IsAlignment(align)
  {
    if items == [] then []
    else
      var n := |items| - 1;
      var before := Image(pos, align, items[..n]);
      before + Zeros(RoundUp(pos + |before|, align) - (pos + |before|)) + items[n]
  }

  function ItemOffset(pos: nat, align: nat, items: seq<seq<byte>>, i: nat): nat
    requires IsAlignment(align) && i < |items|
  {
    RoundUp(pos + |Image(pos, align, items[..i])|, align)
  }

  lemma {:induction false} ImageStep(pos: nat, align: nat, items: seq<seq<byte>>, i: nat)
    requires IsAlignment(align) && i < |items|
    ensures var before, o := Image(pos, align, items[..i]), ItemOffset(pos, align, items, i);
            Image(pos, align, items[..i + 1]) == before + Zeros(o - (pos + |before|)) + items[i]
  {
    var upto := items[..i + 1];
    assert upto[..i] == items[..i] && upto[i] == items[i];
  }

  /** An item lies inside the image, after the items before it. */
  lemma {:induction false} ItemInImage(pos: nat, align: nat, items: seq<seq<byte>>, i: nat, n: nat)
    requires IsAlignment(align) && i < n <= |items|
    ensures var image, o := Image(pos, align, items[..n]), ItemOffset(pos, align, items, i);
            && pos + |Image(pos, align, items[..i])| <= o && o + |items[i]| <= pos + |image|
            && image[o - pos..o - pos + |items[i]|] == items[i]
    decreases n
  {
    hide Image, RoundUp;
    ImageStep(pos, align, items, n - 1);
    var before, last := Image(pos, align, items[..n - 1]), ItemOffset(pos, align, items, n - 1);
    var gap := Zeros(last - (pos + |before|));
    if i < n - 1 {
      ItemInImage(pos, align, items, i, n - 1);
      var o := ItemOffset(pos, align, items, i);
      SliceOfFront(before, gap + items[n - 1], o - pos, o - pos + |items[i]|);
      assert before + (gap + items[n - 1]) == before + gap + items[n - 1];
    } else {
      SliceOfBack(before + gap, items[i]);
    }
  }

  /** Items follow one another without overlapping. */
  lemma {:induction false} ItemsInOrder(pos: nat, align: nat, items: seq<seq<byte>>, i: nat, j: nat)
    requires IsAlignment(align) && i < j < |items|
    ensures pos <= ItemOffset(pos, align, items, i)
    ensures ItemOffset(pos, align, items, i) + |items[i]| <= ItemOffset(pos, align, items, j)
  {
    hide Image;
    ItemInImage(pos, align, items, i, j);
  }

  ghost predicate SameSizes(a: seq<seq<byte>>, b: seq<seq<byte>>) {
    |a| == |b| && forall i :: 0 <= i < |a| ==> |a[i]| == |b[i]|
  }

  lemma {:induction false} ImageLength(pos: nat, align: nat, a: seq<seq<byte>>, b: seq<seq<byte>>)
    requires IsAlignment(align) && SameSizes(a, b)
    ensures |Image(pos, align, a)| == |Image(pos, align, b)|
    decreases |a|
  {
    if a != [] {
      var n := |a| - 1;
      ImageLength(pos, align, a[..n], b[..n]);
    }
  }

  /** The layout depends on the sizes of the items only, not on their contents. */
  lemma {:induction false} LayoutIgnoresContents(pos: nat, align: nat, a: seq<seq<byte>>, b: seq<seq<byte>>)
    requires IsAlignment(align) && SameSizes(a, b)
    ensures |Image(pos, align, a)| == |Image(pos, align, b)|
    ensures forall i :: 0 <= i < |a| ==> ItemOffset(pos, align, a, i) == ItemOffset(pos, align, b, i)
  {
    hide Image;
    ImageLength(pos, align, a, b);
    forall i | 0 <= i < |a|
      ensures ItemOffset(pos, align, a, i) == ItemOffset(pos, align, b, i)
    {
      ImageLength(pos, align, a[..i], b[..i]);
    }
  }

  /** Where entry i of a table of fixed-size entries is found. */
  function TableOffset(pos: nat, size: nat, i: nat): nat {
    if i == 0 then pos else TableOffset(pos, size, i - 1) + size
  }

  /** Word-sized items from an aligned start make a table without padding. */
  lemma {:induction false} TableHasNoGaps(pos: nat, size: nat, items: seq<seq<byte>>, i: nat)
    requires pos % 4 == 0 && size % 4 == 0 && i <= |items| && forall j :: 0 <= j < |items| ==> |items[j]| == size
    ensures pos + |Image(pos, 4, items[..i])| == TableOffset(pos, size, i) && TableOffset(pos, size, i) % 4 == 0
    ensures i < |items| ==> ItemOffset(pos, 4, items, i) == TableOffset(pos, size, i)
  {
    hide Image;
    if i == 0 {
      NoItems(pos, 4, items);
    } else {
      TableHasNoGaps(pos, size, items, i - 1);
      ImageStep(pos, 4, items, i - 1);
    }
  }

  lemma {:induction false} NoItems(pos: nat, align: nat, items: seq<seq<byte>>)
    requires IsAlignment(align)
    ensures Image(pos, align, items[..0]) == []
  {
  }

  /** Writes the items of a section one after the other and reports where each one went. */
  method WriteItems(stream: Stream, align: nat, items: seq<seq<byte>>) returns (offsets: seq<nat>)
    requires stream.Valid() && IsAlignment(align)
    requires ZeroFrom(stream.data, stream.position, |Image(stream.position, align, items)|)
    modifies stream
    ensures stream.Valid() && stream.position == old(stream.position) + |Image(old(stream.position), align, items)|
    ensures Has(old(stream.data), stream.data, old(stream.position), Image(old(stream.position), align, items))
    ensures |offsets| == |items|
    ensures forall i :: 0 <= i < |items| ==> offsets[i] == ItemOffset(old(stream.position), align, items, i)
  {
    hide Image, Overlay, Grown, ZeroFrom;
    ghost var d0, pos := stream.data, stream.position;
    offsets := [];
    NothingWritten(d0, pos, align, items);
    for k := 0 to |items|
      invariant stream.Valid() && |stream.data| >= |d0|
      invariant stream.position == pos + |Image(pos, align, items[..k])|
      invariant Has(d0, stream.data, pos, Image(pos, align, items[..k]))
      invariant |offsets| == k
      invariant forall i :: 0 <= i < k ==> offsets[i] == ItemOffset(pos, align, items, i)
    {
      ghost var image, d1 := Image(pos, align, items[..k]), stream.data;
      stream.AlignTo(align);
      ghost var d2, o := stream.data, stream.position;
      offsets := offsets + [stream.position];
      RoomForOne(d0, d1, d2, pos, align, items, k);
      stream.Write(items[k]);
      HasMore(d0, d2, stream.data, pos, image + Zeros(o - pos - |image|), items[k]);
      ImageStep(pos, align, items, k);
    }
    assert items[..|items|] == items;
  }

  lemma {:induction false} NothingWritten(d0: seq<byte>, pos: nat, align: nat, items: seq<seq<byte>>)
    requires IsAlignment(align) && pos <= |d0|
    ensures Image(pos, align, items[..0]) == [] && Has(d0, d0, pos, [])
  {
  }

  /** The next item's place is within the section's zeros. */
  lemma {:induction false} RoomForOne(d0: seq<byte>, d1: seq<byte>, d2: seq<byte>, pos: nat, align: nat,
                                      items: seq<seq<byte>>, k: nat)
    requires IsAlignment(align) && k < |items| && ZeroFrom(d0, pos, |Image(pos, align, items)|)
    requires var image := Image(pos, align, items[..k]);
             Has(d0, d1, pos, image) && |d1| <= |d2| && d2 == Grown(d1, |d2|)
    requires ItemOffset(pos, align, items, k) <= |d2|
    ensures var image, o := Image(pos, align, items[..k]), ItemOffset(pos, align, items, k);
            && Has(d0, d2, pos, image + Zeros(o - pos - |image|))
            && ZeroFrom(d2, o, |items[k]|)
  {
    hide Image, Overlay, Grown, Has, ZeroFrom;
    var image, o := Image(pos, align, items[..k]), ItemOffset(pos, align, items, k);
    ItemInImage(pos, align, items, k, |items|);
    assert items[..|items|] == items;
    LessZero(d0, pos, o - pos, |Image(pos, align, items)|);
    LessZero(d0, pos, o - pos + |items[k]|, |Image(pos, align, items)|);
    HasSkipped(d0, d1, d2, pos, image, o - pos - |image|);
    HasLeavesZero(d0, d2, pos, image + Zeros(o - pos - |image|), |items[k]|);
  }

  /** Skips over the room a section's items need. */
  method ReserveItems(stream: Stream, align: nat, size: nat, ghost items: seq<seq<byte>>,
                      n: nat) returns (offsets: seq<nat>)
    requires stream.Valid() && IsAlignment(align) && n == |items|
    requires forall i :: 0 <= i < n ==> |items[i]| == size
    modifies stream
    ensures stream.Valid() && stream.position == old(stream.position) + |Image(old(stream.position), align, items)|
    ensures |stream.data| >= |old(stream.data)| && stream.data == Grown(old(stream.data), |stream.data|)
    ensures |offsets| == n
    ensures forall i :: 0 <= i < n ==> offsets[i] == ItemOffset(old(stream.position), align, items, i)
  {
    hide Image, Grown;
    ghost var d0, pos := stream.data, stream.position;
    offsets := [];
    NothingWritten(d0, pos, align, items);
    GrownIsSame(d0);
    for k := 0 to n
      invariant stream.Valid() && |stream.data| >= |d0| && stream.data == Grown(d0, |stream.data|)
      invariant stream.position == pos + |Image(pos, align, items[..k])|
      invariant |offsets| == k
      invariant forall i :: 0 <= i < k ==> offsets[i] == ItemOffset(pos, align, items, i)
    {
      ghost var d1 := stream.data;
      stream.AlignTo(align);
      ghost var d2 := stream.data;
      offsets := offsets + [stream.position];
      stream.Skip(size);
      GrownTwice(d0, |d1|, |d2|);
      GrownTwice(d0, |d2|, |stream.data|);
      ImageStep(pos, align, items, k);
    }
    assert items[..n] == items;
  }

  lemma {:induction false} GrownIsSame(d: seq<byte>)
    ensures d == Grown(d, |d|)
  {
  }
}
