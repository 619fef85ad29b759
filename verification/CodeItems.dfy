/**
 Writing a code item: a fixed header, the instructions, and behind them the try items and the
 handlers, which are placed by seeking to their recorded offsets. The same code runs twice, once
 only to reserve the space (what it wrote is then cleared) and once for real.
 */
module CodeItems {
  import opened Leb128
  import opened Streams
  import opened Sections
  import opened CatchHandlers

  datatype Try = Try(startAddress: uint32, count: uint16, handlerOffset: uint16)

  datatype CodeItem = CodeItem(registers: uint16, ins: uint16, outs: uint16, debugInfo: Option<nat>,
                               insns: seq<uint16>, tries: seq<Try>, handlers: seq<Handler>)

  const TRY_ALIGNMENT := 4

  predicate Writable(c: CodeItem) {
    && |c.insns| < 0x1_0000_0000 && |c.tries| < 0x1_0000 && |c.handlers| < 0x1_0000_0000
    && forall i :: 0 <= i < |c.handlers| ==> WritableHandler(c.handlers[i])
  }

  /** The clause count fits the signed count field and every index fits its 32 bits. */
  predicate WritableHandler(h: Handler) {
    && |h.pairs| < 0x8000_0000 && (h.catchAll ==> |h.pairs| > 0)
    && forall i :: 0 <= i < |h.pairs| ==> h.pairs[i].typeIndex.Some? ==> h.pairs[i].typeIndex.value < 0x1_0000_0000
  }

  // ---- the bytes of a code item

  function HeadBytes(c: CodeItem, debugOffset: nat): (s: seq<byte>)
    ensures |s| == 16
  {
    LeBytes(c.registers, 2) + LeBytes(c.ins, 2) + LeBytes(c.outs, 2) + LeBytes(|c.tries|, 2)
    + LeBytes(debugOffset, 4) + LeBytes(|c.insns|, 4)
  }

  function InsnBytes(insns: seq<uint16>): (s: seq<byte>)
    ensures |s| == 2 * |insns|
  {
    if insns == [] then [] else LeBytes(insns[0], 2) + InsnBytes(insns[1..])
  }

  lemma {:induction false} HalvesAt(values: seq<uint16>, i: nat)
    requires i < |values|
    ensures InsnBytes(values)[2 * i..2 * i + 2] == LeBytes(values[i], 2)
  {
    hide LeBytes;
    var first, rest := LeBytes(values[0], 2), InsnBytes(values[1..]);
    if i == 0 {
      SliceOfFront(first, rest, 0, 2);
    } else {
      HalvesAt(values[1..], i - 1);
      assert (first + rest)[2 * i..2 * i + 2] == rest[2 * i - 2..2 * i];
    }
  }

  function TryItem(t: Try): (s: seq<byte>)
    ensures |s| == 8
  {
    LeBytes(t.startAddress, 4) + LeBytes(t.count, 2) + LeBytes(t.handlerOffset, 2)
  }

  function TryBytes(tries: seq<Try>): (s: seq<byte>)
    ensures |s| == 8 * |tries|
  {
    if tries == [] then [] else TryBytes(tries[..|tries| - 1]) + TryItem(tries[|tries| - 1])
  }

  /** Padding to the try items' alignment, the try items, the handlers. */
  function PostBytes(c: CodeItem, size: nat): seq<byte> {
    if c.tries == [] then []
    else Zeros(RoundUp(size, TRY_ALIGNMENT) - size) + TryBytes(c.tries) + HandlerArea(c.handlers)
  }

  function CodeBytes(c: CodeItem, debugOffset: nat): seq<byte> {
    var body := HeadBytes(c, debugOffset) + InsnBytes(c.insns);
    body + PostBytes(c, |body|)
  }

  /** The debug info's offset does not influence the size. */
  lemma {:induction false} CodeSize(c: CodeItem, a: nat, b: nat)
    ensures |CodeBytes(c, a)| == |CodeBytes(c, b)|
  {
    hide PostBytes;
  }

  // ---- painting on the stream

  /** Writing at an offset inside the area paints the area. */
  lemma {:induction false} HasPainted(d0: seq<byte>, d1: seq<byte>, d2: seq<byte>, base: nat, buf: seq<byte>,
                                      offset: nat, bytes: seq<byte>)
    requires Has(d0, d1, base, buf) && Has(d1, d2, base + offset, bytes)
    requires ZeroFrom(d0, base, |Paint(buf, offset, bytes)|)
    ensures Has(d0, d2, base, Paint(buf, offset, bytes))
  {
    hide Has, Paint, Overlay, Grown;
    var p := Paint(buf, offset, bytes);
    HasExtent(d0, d1, base, buf);
    HasExtent(d1, d2, base + offset, bytes);
    HasPointwise(d0, d1, base, buf);
    HasPointwise(d1, d2, base + offset, bytes);
    HasPointwise(d0, d2, base, p);
    forall i | 0 <= i < |d2|
      ensures d2[i] == ByteAt(d0, base, p, i)
    {
      if offset <= i - base < offset + |bytes| {
        assert p[i - base] == p[offset..offset + |bytes|][i - base - offset];
      }
    }
  }

  lemma {:induction false} PaintAllAppend(buf: seq<byte>, handlers: seq<Handler>, i: nat)
    requires i < |handlers|
    ensures PaintAll(buf, handlers[..i + 1])
        == Paint(PaintAll(buf, handlers[..i]), handlers[i].offset, EncodeHandler(handlers[i]))
    decreases i
  {
    hide Paint, EncodeHandler;
    var upto := handlers[..i + 1];
    if i == 0 {
      assert upto[1..] == [] && handlers[..0] == [];
    } else {
      PaintAllAppend(Paint(buf, handlers[0].offset, EncodeHandler(handlers[0])), handlers[1..], i - 1);
      assert upto[1..] == handlers[1..][..i];
      assert handlers[..i][1..] == handlers[1..][..i - 1];
      assert handlers[..i][0] == handlers[0] == upto[0];
    }
  }

  lemma {:induction false} PaintAllGrows(buf: seq<byte>, handlers: seq<Handler>, i: nat)
    requires i <= |handlers|
    ensures |PaintAll(buf, handlers[..i])| <= |PaintAll(buf, handlers)|
    decreases |handlers| - i
  {
    hide Paint, EncodeHandler;
    if i == |handlers| {
      assert handlers[..i] == handlers;
    } else {
      PaintAllAppend(buf, handlers, i);
      PaintAllGrows(buf, handlers, i + 1);
    }
  }

  // ---- the writer

  method WritePair(stream: Stream, p: Pair)
    requires stream.Valid() && (p.typeIndex.Some? ==> p.typeIndex.value < 0x1_0000_0000)
    modifies stream
    ensures stream.Valid() && stream.position == old(stream.position) + |EncodePairs([p])|
    ensures Has(old(stream.data), stream.data, old(stream.position), EncodePairs([p]))
  {
    hide Uleb, EncodePairs, Overlay, Grown;
    ghost var d0, pos := stream.data, stream.position;
    OnePair(p);
    if p.typeIndex.Some? {
      var n := stream.WriteUleb128(p.typeIndex.value);
      ghost var d1 := stream.data;
      n := stream.WriteUleb128(p.address);
      HasMore(d0, d1, stream.data, pos, Uleb(p.typeIndex.value), Uleb(p.address));
    } else {
      var n := stream.WriteUleb128(p.address);
      assert [] + Uleb(p.address) == Uleb(p.address);
    }
  }

  method WriteHandler(stream: Stream, h: Handler)
    requires stream.Valid() && WritableHandler(h)
    modifies stream
    ensures stream.Valid() && stream.position == old(stream.position) + |EncodeHandler(h)|
    ensures Has(old(stream.data), stream.data, old(stream.position), EncodeHandler(h))
  {
    hide Uleb, Sleb, EncodePairs, Overlay, Grown;
    ghost var d0, pos := stream.data, stream.position;
    var size := if h.catchAll then (|h.pairs| - 1) * -1 else |h.pairs|;
    var n := stream.WriteSleb128(size);
    ghost var head := Sleb(size);
    NoPairs(h.pairs, head);
    for i := 0 to |h.pairs|
      invariant stream.Valid() && stream.position == pos + |head + EncodePairs(h.pairs[..i])|
      invariant Has(d0, stream.data, pos, head + EncodePairs(h.pairs[..i]))
    {
      ghost var done, d1 := head + EncodePairs(h.pairs[..i]), stream.data;
      MorePairs(h.pairs, head, i);
      WritePair(stream, h.pairs[i]);
      HasMore(d0, d1, stream.data, pos, done, EncodePairs([h.pairs[i]]));
    }
    assert h.pairs[..|h.pairs|] == h.pairs;
  }

  lemma {:induction false} MorePairs(pairs: seq<Pair>, head: seq<byte>, i: nat)
    requires i < |pairs|
    ensures head + EncodePairs(pairs[..i + 1]) == head + EncodePairs(pairs[..i]) + EncodePairs([pairs[i]])
  {
    hide EncodePairs;
    assert pairs[..i + 1] == pairs[..i] + [pairs[i]];
    EncodePairsAppend(pairs[..i], pairs[i]);
  }

  lemma {:induction false} NoPairs(pairs: seq<Pair>, head: seq<byte>)
    ensures head + EncodePairs(pairs[..0]) == head
  {
  }

  lemma {:induction false} OnePair(p: Pair)
    ensures EncodePairs([p]) == (match p.typeIndex case None => [] case Some(t) => Uleb(t)) + Uleb(p.address)
  {
    hide Uleb;
    assert [p][1..] == [];
  }

  /** The handlers are visited in memory order, which need not be address order. */
  method WriteHandlers(stream: Stream, handlers: seq<Handler>)
    requires stream.Valid() && |handlers| < 0x1_0000_0000
    requires forall i :: 0 <= i < |handlers| ==> WritableHandler(handlers[i])
    requires ZeroFrom(stream.data, stream.position, |HandlerArea(handlers)|)
    modifies stream
    ensures stream.Valid() && stream.position == old(stream.position) + |HandlerArea(handlers)|
    ensures Has(old(stream.data), stream.data, old(stream.position), HandlerArea(handlers))
  {
    hide Uleb, EncodeHandler, Overlay, Grown, Paint, PaintAll, ZeroFrom, WritableHandler;
    ghost var d0 := stream.data;
    var offset := stream.position;
    var n := stream.WriteUleb128(|handlers|);
    var maxOffset := offset + n;
    ghost var head := Uleb(|handlers|);
    NothingPainted(head, handlers);
    for i := 0 to |handlers|
      invariant stream.Valid() && maxOffset == offset + |PaintAll(head, handlers[..i])|
      invariant Has(d0, stream.data, offset, PaintAll(head, handlers[..i]))
    {
      ghost var buf, d1 := PaintAll(head, handlers[..i]), stream.data;
      stream.Seek(offset + handlers[i].offset);
      ghost var d2 := stream.data;
      HasGrown(d0, d1, d2, offset, buf);
      WriteHandler(stream, handlers[i]);
      PaintAllAppend(head, handlers, i);
      PaintAllGrows(head, handlers, i + 1);
      LessZero(d0, offset, |PaintAll(head, handlers[..i + 1])|, |HandlerArea(handlers)|);
      HasPainted(d0, d2, stream.data, offset, buf, handlers[i].offset, EncodeHandler(handlers[i]));
      maxOffset := if stream.position > maxOffset then stream.position else maxOffset;
    }
    assert handlers[..|handlers|] == handlers;
    ghost var d3 := stream.data;
    stream.Seek(maxOffset);
    HasGrown(d0, d3, stream.data, offset, HandlerArea(handlers));
  }

  lemma {:induction false} NothingPainted(head: seq<byte>, handlers: seq<Handler>)
    ensures PaintAll(head, handlers[..0]) == head
  {
  }

  /** In the reserving pass whatever the uninitialised disk item holds is written. */
  method WriteTries(stream: Stream, tries: seq<Try>, reserveOnly: bool,
                    scratch: seq<byte>) returns (ghost written: seq<byte>)
    requires stream.Valid() && |scratch| == 8 && ZeroFrom(stream.data, stream.position, 8 * |tries|)
    modifies stream
    ensures stream.Valid() && stream.position == old(stream.position) + 8 * |tries|
    ensures |written| == 8 * |tries| && (!reserveOnly ==> written == TryBytes(tries))
    ensures Has(old(stream.data), stream.data, old(stream.position), written)
  {
    hide Overlay, Grown, ZeroFrom, TryBytes;
    ghost var d0, pos := stream.data, stream.position;
    written := [];
    NoTries(tries, d0, pos);
    for i := 0 to |tries|
      invariant stream.Valid() && stream.position == pos + 8 * i
      invariant |written| == 8 * i && (!reserveOnly ==> written == TryBytes(tries[..i]))
      invariant Has(d0, stream.data, pos, written)
    {
      ghost var d1 := stream.data;
      LessZero(d0, pos, 8 * i + 8, 8 * |tries|);
      HasLeavesZero(d0, d1, pos, written, 8);
      var item := if reserveOnly then scratch else TryItem(tries[i]);
      stream.Write(item);
      HasMore(d0, d1, stream.data, pos, written, item);
      MoreTries(tries, i);
      written := written + item;
    }
    assert tries[..|tries|] == tries;
  }

  lemma {:induction false} NoTries(tries: seq<Try>, d: seq<byte>, pos: nat)
    requires pos <= |d|
    ensures TryBytes(tries[..0]) == [] && Has(d, d, pos, [])
  {
  }

  lemma {:induction false} MoreTries(tries: seq<Try>, i: nat)
    requires i < |tries|
    ensures TryBytes(tries[..i + 1]) == TryBytes(tries[..i]) + TryItem(tries[i])
  {
    var upto := tries[..i + 1];
    assert upto[..i] == tries[..i];
  }

  method WritePostInstructionData(stream: Stream, c: CodeItem, reserveOnly: bool, scratch: seq<byte>, ghost start: nat)
    returns (ghost written: seq<byte>)
    requires stream.Valid() && Writable(c) && |scratch| == 8
    requires start <= stream.position && Aligned(start, TRY_ALIGNMENT)
    requires ZeroFrom(stream.data, stream.position, |PostBytes(c, stream.position - start)|)
    modifies stream
    ensures stream.Valid() && stream.position == old(stream.position) + |written|
    ensures |written| == |PostBytes(c, old(stream.position) - start)|
    ensures !reserveOnly ==> written == PostBytes(c, old(stream.position) - start)
    ensures Has(old(stream.data), stream.data, old(stream.position), written)
  {
    hide Overlay, Grown, ZeroFrom, TryBytes, HandlerArea, WritableHandler;
    ghost var d0, pos := stream.data, stream.position;
    if |c.tries| != 0 {
      stream.AlignTo(TRY_ALIGNMENT);
      ghost var d1, gap := stream.data, Zeros(stream.position - pos);
      ghost var total := |gap| + 8 * |c.tries| + |HandlerArea(c.handlers)|;
      AlignRelative(start, pos);
      Padded(d0, d1, pos, |gap|, total);
      LessZero(d1, pos + |gap|, 8 * |c.tries|, total - |gap|);
      written := WriteTries(stream, c.tries, reserveOnly, scratch);
      ghost var d2, front := stream.data, gap + written;
      HasMore(d0, d1, d2, pos, gap, written);
      HasLeavesZero(d0, d2, pos, front, |HandlerArea(c.handlers)|);
      WriteHandlers(stream, c.handlers);
      HasMore(d0, d2, stream.data, pos, front, HandlerArea(c.handlers));
      written := front + HandlerArea(c.handlers);
    } else {
      written := [];
      NoTries(c.tries, d0, pos);
    }
  }

  lemma {:induction false} AlignRelative(start: nat, pos: nat)
    requires start <= pos && Aligned(start, TRY_ALIGNMENT)
    ensures RoundUp(pos, TRY_ALIGNMENT) - pos == RoundUp(pos - start, TRY_ALIGNMENT) - (pos - start)
  {
  }

  /** One pass over one code item; `scratch` is what an uninitialised disk item happens to hold. */
  method WriteCodeItem(stream: Stream, c: CodeItem, debugOffset: nat, reserveOnly: bool,
                       scratch: seq<byte>) returns (offset: nat)
    requires stream.Valid() && Writable(c) && |scratch| == 16
    requires ZeroFrom(stream.data, stream.position,
        RoundUp(stream.position, 4) - stream.position + |CodeBytes(c, debugOffset)|)
    modifies stream
    ensures stream.Valid() && offset == RoundUp(old(stream.position), 4)
    ensures stream.position == offset + |CodeBytes(c, debugOffset)| && |stream.data| >= |old(stream.data)|
    ensures !reserveOnly ==>
              Has(old(stream.data), stream.data, old(stream.position),
                  Zeros(offset - old(stream.position)) + CodeBytes(c, debugOffset))
    ensures reserveOnly ==> stream.data == Grown(old(stream.data), |stream.data|)
  {
    hide Overlay, Grown, ZeroFrom, PostBytes, HeadBytes, InsnBytes, Writable;
    ghost var d0 := stream.data;
    var startOffset := stream.position;
    stream.AlignTo(4);
    offset := stream.position;
    ghost var d1, gap := stream.data, Zeros(offset - startOffset);
    ghost var total := |gap| + |CodeBytes(c, debugOffset)|;
    Padded(d0, d1, startOffset, |gap|, total);
    var head := if reserveOnly then scratch else HeadBytes(c, debugOffset);
    LessZero(d1, offset, 16, total - |gap|);
    stream.Write(head);
    ghost var d2 := stream.data;
    LessZero(d1, offset, 16 + |InsnBytes(c.insns)|, total - |gap|);
    HasLeavesZero(d1, d2, offset, head, |InsnBytes(c.insns)|);
    stream.Write(InsnBytes(c.insns));
    ghost var d3, body := stream.data, head + InsnBytes(c.insns);
    HasMore(d1, d2, d3, offset, head, InsnBytes(c.insns));
    HasLeavesZero(d1, d3, offset, body, |PostBytes(c, |body|)|);
    ghost var post := WritePostInstructionData(stream, c, reserveOnly, scratch[..8], offset);
    HasMore(d1, d3, stream.data, offset, body, post);
    HasMore(d0, d1, stream.data, startOffset, gap, body + post);
    if reserveOnly {
      ghost var d4 := stream.data;
      stream.Clear(startOffset, stream.position - startOffset);
      Cleared(d0, d4, stream.data, startOffset, gap + (body + post));
    }
  }

  // ---- the code section

  function CodeImages(codes: seq<CodeItem>, debugOffsets: seq<nat>): (items: seq<seq<byte>>)
    requires |codes| == |debugOffsets|
    ensures |items| == |codes|
  {
    seq(|codes|, i requires 0 <= i < |codes| => CodeBytes(codes[i], debugOffsets[i]))
  }

  /** The reserving pass finds the same place for every item and stops at the same position as
      the writing pass, and leaves the stream's contents as they were. */
  method WriteCodeItems(stream: Stream, codes: seq<CodeItem>, debugOffsets: seq<nat>, reserveOnly: bool,
                        scratch: seq<byte>)
    returns (offsets: seq<nat>)
    requires stream.Valid() && |scratch| == 16 && |codes| == |debugOffsets|
    requires forall i :: 0 <= i < |codes| ==> Writable(codes[i])
    requires ZeroFrom(stream.data, stream.position, |Image(stream.position, 4, CodeImages(codes, debugOffsets))|)
    modifies stream
    ensures var image := Image(old(stream.position), 4, CodeImages(codes, debugOffsets));
            && stream.Valid() && stream.position == old(stream.position) + |image|
            && |stream.data| >= |old(stream.data)|
            && (!reserveOnly ==> Has(old(stream.data), stream.data, old(stream.position), image))
            && (reserveOnly ==> stream.data == Grown(old(stream.data), |stream.data|))
    ensures |offsets| == |codes|
    ensures forall i :: 0 <= i < |codes| ==>
        offsets[i] == ItemOffset(old(stream.position), 4, CodeImages(codes, debugOffsets), i)
  {
    hide Image, Overlay, Grown, ZeroFrom, CodeBytes, Writable, Has;
    ghost var d0, pos, items := stream.data, stream.position, CodeImages(codes, debugOffsets);
    offsets := [];
    NothingWritten(d0, pos, 4, items);
    GrownIsSame(d0);
    for k := 0 to |codes|
      invariant stream.Valid() && |stream.data| >= |d0|
      invariant stream.position == pos + |Image(pos, 4, items[..k])|
      invariant !reserveOnly ==> Has(d0, stream.data, pos, Image(pos, 4, items[..k]))
      invariant reserveOnly ==> stream.data == Grown(d0, |stream.data|)
      invariant |offsets| == k
      invariant forall i :: 0 <= i < k ==> offsets[i] == ItemOffset(pos, 4, items, i)
    {
      ghost var image, d1 := Image(pos, 4, items[..k]), stream.data;
      RoomForNext(d0, d1, pos, 4, items, k, reserveOnly);
      var offset := WriteCodeItem(stream, codes[k], debugOffsets[k], reserveOnly, scratch);
      offsets := offsets + [offset];
      ImageStep(pos, 4, items, k);
      if reserveOnly {
        GrownTwice(d0, |d1|, |stream.data|);
      } else {
        ghost var gap := Zeros(offset - (pos + |image|));
        HasMore(d0, d1, stream.data, pos, image, gap + items[k]);
        assert image + (gap + items[k]) == image + gap + items[k];
      }
    }
    assert items[..|items|] == items;
  }

  lemma {:induction false} RoomForNext(d0: seq<byte>, d1: seq<byte>, pos: nat, align: nat, items: seq<seq<byte>>,
                                       k: nat, reserveOnly: bool)
    requires IsAlignment(align) && k < |items| && |d0| <= |d1| && ZeroFrom(d0, pos, |Image(pos, align, items)|)
    requires !reserveOnly ==> Has(d0, d1, pos, Image(pos, align, items[..k]))
    requires reserveOnly ==> d1 == Grown(d0, |d1|)
    ensures var p := pos + |Image(pos, align, items[..k])|;
            ZeroFrom(d1, p, RoundUp(p, align) - p + |items[k]|)
  {
    hide Image;
    ItemInImage(pos, align, items, k, |items|);
    assert items[..|items|] == items;
    var image := Image(pos, align, items[..k]);
    var n := ItemOffset(pos, align, items, k) + |items[k]| - pos - |image|;
    LessZero(d0, pos, |image| + n, |Image(pos, align, items)|);
    if !reserveOnly {
      HasLeavesZero(d0, d1, pos, image, n);
    }
  }
}
