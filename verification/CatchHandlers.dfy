/**
 The encoded_catch_handler_list of a code item: how the IR builder collects the handlers that try
 items reference and then walks the list for the rest, and how the writer puts each handler back
 at the offset it was read from.
 All offsets count from the start of the list, as the try items' handler offsets do.
 */
module CatchHandlers {
  import opened Leb128

  /** A caught type (none for the catch-all clause) and the handler's address. */
  datatype Pair = Pair(typeIndex: Option<nat>, address: uint32)

  datatype Handler = Handler(catchAll: bool, offset: nat, pairs: seq<Pair>)

  const NO_INDEX16 := 0xffff

  // ---- reading one handler

  function ReadPairs(s: seq<byte>, n: nat): (r: Parsed<seq<Pair>>)
    ensures r.Ok? ==> IsSuffix(r.rest, s)
    ensures r.Ok? ==> |r.value| == n && Typed(r.value)
    decreases n
  {
    if n == 0 then Ok([], s) else
    match ReadUleb(s)
    case Bad => Bad
    case Ok(t, s') =>
      if t >= NO_INDEX16 then Bad else
      match ReadUleb(s')
      case Bad => Bad
      case Ok(address, s'') =>
        match ReadPairs(s'', n - 1)
        case Bad => Bad
        case Ok(pairs, rest) =>
          SuffixOfSuffix(s'', s', s);
          SuffixOfSuffix(rest, s'', s);
          Ok([Pair(Some(t), address)] + pairs, rest)
  }

  function Abs(x: int): nat {
    if x < 0 then -x else x
  }

  /** A size that is not positive announces a trailing catch-all clause. */
  function ReadHandler(s: seq<byte>, offset: nat): (r: Parsed<Handler>)
    ensures r.Ok? ==> IsSuffix(r.rest, s) && |r.rest| < |s|
    ensures r.Ok? ==> r.value.offset == offset && Regular(r.value)
  {
    match ReadSleb(s)
    case Bad => Bad
    case Ok(size, s') =>
      match ReadPairs(s', Abs(size))
      case Bad => Bad
      case Ok(pairs, s'') =>
        SuffixOfSuffix(s'', s', s);
        if size > 0 then Ok(Handler(false, offset, pairs), s'') else
        match ReadUleb(s'')
        case Bad => Bad
        case Ok(address, rest) =>
          SuffixOfSuffix(rest, s'', s);
          var all := pairs + [Pair(None, address)];
          assert all[..|all| - 1] == pairs;
          Ok(Handler(true, offset, all), rest)
  }

  ghost predicate Typed(pairs: seq<Pair>) {
    forall i :: 0 <= i < |pairs| ==> pairs[i].typeIndex.Some? && pairs[i].typeIndex.value < NO_INDEX16
  }

  /** Only the last clause may be untyped, and it is so exactly when the handler catches all. */
  ghost predicate Regular(h: Handler) {
    && 0 < |h.pairs|
    && (if h.catchAll then
          |h.pairs| <= 0x8000_0001 && h.pairs[|h.pairs| - 1].typeIndex.None? && Typed(h.pairs[..|h.pairs| - 1])
        else
          |h.pairs| < 0x8000_0000 && Typed(h.pairs))
  }

  // ---- the list as the format defines it: a count, then that many handlers back to back

  datatype Located = Located(handler: Handler, next: nat) | Nothing

  /** The handler that starts at `pos`, and where it ends. */
  function HandlerAt(area: seq<byte>, pos: nat): (r: Located)
    ensures r.Located? ==> pos < r.next <= |area| && r.handler.offset == pos && Regular(r.handler)
  {
    if pos > |area| then Nothing else
    match ReadHandler(area[pos..], pos)
    case Bad => Nothing
    case Ok(h, rest) => Located(h, |area| - |rest|)
  }

  datatype DiskList = DiskList(handlers: seq<Handler>, end: nat) | Malformed

  function ParseFrom(area: seq<byte>, pos: nat, n: nat): (r: DiskList)
    ensures r.DiskList? ==> |r.handlers| == n && pos <= r.end
    decreases n
  {
    if n == 0 then DiskList([], pos) else
    match HandlerAt(area, pos)
    case Nothing => Malformed
    case Located(h, next) =>
      match ParseFrom(area, next, n - 1)
      case Malformed => Malformed
      case DiskList(hs, end) => DiskList([h] + hs, end)
  }

  /** Where the first handler starts and how many there are. */
  function Parse(area: seq<byte>): DiskList {
    match ReadUleb(area)
    case Bad => Malformed
    case Ok(n, rest) => ParseFrom(area, |area| - |rest|, n)
  }

  ghost function Offsets(hs: seq<Handler>): set<nat> {
    set h | h in hs :: h.offset
  }

  ghost predicate DistinctOffsets(hs: seq<Handler>) {
    forall i, j :: 0 <= i < j < |hs| ==> hs[i].offset != hs[j].offset
  }

  /** Where the i-th handler starts, or the list ends. */
  function Start(list: DiskList, i: nat): nat
    requires list.DiskList? && i <= |list.handlers|
  {
    if i < |list.handlers| then list.handlers[i].offset else list.end
  }

  /** Each handler is the one found at its start, and it ends where the next one starts. */
  lemma {:induction false} ParseStep(area: seq<byte>, pos: nat, n: nat, list: DiskList, i: nat)
    requires list.DiskList? && list == ParseFrom(area, pos, n) && i < n
    ensures HandlerAt(area, Start(list, i)) == Located(list.handlers[i], Start(list, i + 1))
    ensures Start(list, 0) == pos
    decreases n
  {
    var first := HandlerAt(area, pos);
    var tail := ParseFrom(area, first.next, n - 1);
    if i > 0 {
      ParseStep(area, first.next, n - 1, tail, i - 1);
    } else {
      FirstStart(area, first.next, n - 1, tail);
    }
  }

  lemma {:induction false} FirstStart(area: seq<byte>, pos: nat, n: nat, list: DiskList)
    requires list.DiskList? && list == ParseFrom(area, pos, n)
    ensures Start(list, 0) == pos
  {
  }

  lemma {:induction false} StartsIncrease(area: seq<byte>, pos: nat, n: nat, list: DiskList, i: nat, j: nat)
    requires list.DiskList? && list == ParseFrom(area, pos, n) && i < j <= n
    ensures pos <= Start(list, i) < Start(list, j) <= |area|
    decreases j
  {
    hide HandlerAt, ParseFrom;
    ParseStep(area, pos, n, list, j - 1);
    if i < j - 1 {
      StartsIncrease(area, pos, n, list, i, j - 1);
    } else if i > 0 {
      StartsIncrease(area, pos, n, list, 0, i);
    }
  }

  // ---- collecting the handlers

  /** The first handler with this offset among those already collected. */
  method Find(list: seq<Handler>, offset: nat) returns (found: bool)
    ensures found <==> offset in Offsets(list)
  {
    found := false;
    for i := 0 to |list|
      invariant forall k :: 0 <= k < i ==> list[k].offset != offset
    {
      if list[i].offset == offset {
        return true;
      }
    }
  }

  /** Everything collected so far was read at its own offset, once. */
  ghost predicate Collected(area: seq<byte>, list: seq<Handler>) {
    && DistinctOffsets(list)
    && forall h :: h in list ==> HandlerAt(area, h.offset).Located? && HandlerAt(area, h.offset).handler == h
  }

  lemma {:induction false} CollectMore(area: seq<byte>, list: seq<Handler>, h: Handler)
    requires Collected(area, list) && h.offset !in Offsets(list)
    requires HandlerAt(area, h.offset).Located? && HandlerAt(area, h.offset).handler == h
    ensures Collected(area, list + [h])
    ensures Offsets(list + [h]) == Offsets(list) + {h.offset}
  {
    var more := list + [h];
    forall i, j | 0 <= i < j < |more|
      ensures more[i].offset != more[j].offset
    {
      assert more[i] in list;
    }
    assert forall x :: x in more <==> x in list || x == h;
  }

  method HandlersOfTries(area: seq<byte>, tryOffsets: seq<nat>) returns (list: seq<Handler>)
    requires forall i :: 0 <= i < |tryOffsets| ==> HandlerAt(area, tryOffsets[i]).Located?
    ensures Collected(area, list)
    ensures forall o :: o in Offsets(list) <==> o in tryOffsets
  {
    hide HandlerAt;
    list := [];
    for i := 0 to |tryOffsets|
      invariant Collected(area, list)
      invariant forall o :: o in Offsets(list) <==> o in tryOffsets[..i]
    {
      var offset := tryOffsets[i];
      var found := Find(list, offset);
      if !found {
        var h := HandlerAt(area, offset).handler;
        CollectMore(area, list, h);
        list := list + [h];
      }
      assert tryOffsets[..i + 1] == tryOffsets[..i] + [offset];
    }
    assert tryOffsets[..|tryOffsets|] == tryOffsets;
  }

  // ---- counting

  lemma {:induction false} CountOffsets(hs: seq<Handler>)
    requires DistinctOffsets(hs)
    ensures |Offsets(hs)| == |hs|
  {
    if hs != [] {
      var init, last := hs[..|hs| - 1], hs[|hs| - 1];
      CountOffsets(init);
      assert hs == init + [last];
      assert Offsets(hs) == Offsets(init) + {last.offset};
      assert last.offset !in Offsets(init);
    }
  }

  lemma {:induction false} SubsetCount(a: set<nat>, b: set<nat>)
    requires a <= b
    ensures |a| <= |b|
    ensures |a| == |b| ==> a == b
  {
    assert b == a + (b - a);
    assert |b - a| == 0 ==> b - a == {};
  }

  /** As long as the walk has visited fewer handlers than the list announces, at least that many
      are collected; so a list still too short has handlers left to visit. */
  lemma {:induction false} WalkedAreCounted(list: seq<Handler>, walked: seq<Handler>)
    requires DistinctOffsets(list) && DistinctOffsets(walked) && Offsets(walked) <= Offsets(list)
    ensures |walked| <= |list|
  {
    CountOffsets(list);
    CountOffsets(walked);
    SubsetCount(Offsets(walked), Offsets(list));
  }

  lemma {:induction false} StartsAreDistinct(area: seq<byte>, pos: nat, n: nat, list: DiskList)
    requires list.DiskList? && list == ParseFrom(area, pos, n)
    ensures DistinctOffsets(list.handlers)
    ensures Collected(area, list.handlers)
  {
    var hs := list.handlers;
    forall i, j | 0 <= i < j < |hs|
      ensures hs[i].offset != hs[j].offset
    {
      StartsIncrease(area, pos, n, list, i, j);
    }
    forall h | h in hs
      ensures HandlerAt(area, h.offset).Located? && HandlerAt(area, h.offset).handler == h
    {
      var i :| 0 <= i < |hs| && hs[i] == h;
      ParseStep(area, pos, n, list, i);
    }
  }

  /** Collected handlers are determined by their offsets. */
  lemma {:induction false} SameOffsetsSameHandlers(area: seq<byte>, list: seq<Handler>, all: seq<Handler>)
    requires Collected(area, list) && Collected(area, all) && Offsets(list) <= Offsets(all)
    ensures forall h :: h in list ==> h in all
  {
    forall h | h in list
      ensures h in all
    {
      assert h.offset in Offsets(list);
      var g :| g in all && g.offset == h.offset;
    }
  }

  /** Each of the list's handlers, once. */
  ghost predicate Complete(list: seq<Handler>, all: seq<Handler>) {
    DistinctOffsets(list) && |list| == |all| && forall h :: h in list <==> h in all
  }

  lemma {:induction false} NothingWalked(all: seq<Handler>)
    ensures Offsets(all[..0]) == {}
  {
  }

  lemma {:induction false} WalkedOne(area: seq<byte>, list: seq<Handler>, all: seq<Handler>, walked: nat)
    requires Collected(area, list) && Collected(area, all) && walked <= |all|
    requires Offsets(all[..walked]) <= Offsets(list)
    ensures walked <= |list|
    ensures walked < |all| ==>
        && all[walked].offset in Offsets(all)
        && Offsets(all[..walked + 1]) == Offsets(all[..walked]) + {all[walked].offset}
  {
    hide HandlerAt;
    WalkedAreCounted(list, all[..walked]);
    if walked < |all| {
      assert all[..walked + 1] == all[..walked] + [all[walked]] && all[walked] in all;
    }
  }

  /** First the handlers of the try items, then a walk over the list that adds what is missing
      until as many handlers are known as the list announces. The walk never leaves the list, and
      the outcome is complete exactly when every try item points at the start of a handler. */
  method CollectHandlers(area: seq<byte>, tryOffsets: seq<nat>) returns (list: seq<Handler>)
    requires Parse(area).DiskList? && forall h :: h in Parse(area).handlers ==> h.offset < 0x1_0000
    requires forall i :: 0 <= i < |tryOffsets| ==> HandlerAt(area, tryOffsets[i]).Located?
    ensures Collected(area, list)
    ensures Complete(list, Parse(area).handlers) <==>
              (forall i :: 0 <= i < |tryOffsets| ==> tryOffsets[i] in Offsets(Parse(area).handlers))
  {
    hide HandlerAt, ParseFrom, Collected, Complete, Offsets;
    list := HandlersOfTries(area, tryOffsets);
    ghost var tries := Offsets(list);
    var count := ReadUleb(area);
    var n, pos := count.value, |area| - |count.rest|;
    ghost var first, disk := pos, Parse(area);
    ghost var all := disk.handlers;
    StartsAreDistinct(area, first, n, disk);
    FirstStart(area, first, n, disk);
    ghost var walked := 0;
    NothingWalked(all);
    while n > |list|
      invariant walked <= n && pos == Start(disk, walked)
      invariant Collected(area, list)
      invariant tries <= Offsets(list) <= tries + Offsets(all)
      invariant Offsets(all[..walked]) <= Offsets(list)
      decreases n - walked
    {
      WalkedOne(area, list, all, walked);
      ParseStep(area, first, n, disk, walked);
      var offset := pos % 0x1_0000;
      var found := Find(list, offset);
      var located := HandlerAt(area, pos);
      if !found {
        CollectMore(area, list, located.handler);
        list := list + [located.handler];
      }
      pos := located.next;
      walked := walked + 1;
    }
    CompletenessIsExact(area, list, all, tries);
    assert tries == set o | o in tryOffsets;
  }

  lemma {:induction false} CompletenessIsExact(area: seq<byte>, list: seq<Handler>, all: seq<Handler>, tries: set<nat>)
    requires Collected(area, list) && Collected(area, all) && |list| >= |all|
    requires tries <= Offsets(list) <= tries + Offsets(all)
    ensures Complete(list, all) <==> tries <= Offsets(all)
  {
    if tries <= Offsets(all) {
      CountOffsets(list);
      CountOffsets(all);
      SubsetCount(Offsets(list), Offsets(all));
      SameOffsetsSameHandlers(area, list, all);
      SameOffsetsSameHandlers(area, all, list);
    }
    if Complete(list, all) {
      forall o | o in tries
        ensures o in Offsets(all)
      {
        var h :| h in list && h.offset == o;
      }
    }
  }

  // ---- writing the handlers back

  function EncodePairs(pairs: seq<Pair>): seq<byte> {
    if pairs == [] then []
    else
      (match pairs[0].typeIndex case None => [] case Some(t) => Uleb(t))
      + Uleb(pairs[0].address) + EncodePairs(pairs[1..])
  }

  /** The clause count, negated when the last clause catches all, then the clauses. */
  function EncodeHandler(h: Handler): (s: seq<byte>)
    ensures |s| > 0
  {
    Sleb(if h.catchAll then -(|h.pairs| - 1) else |h.pairs|) + EncodePairs(h.pairs)
  }

  /** Writes `bytes` over `buf` at `pos`; the storage beyond `buf` is zero-filled. */
  function Paint(buf: seq<byte>, pos: nat, bytes: seq<byte>): (r: seq<byte>)
    ensures |r| == if pos + |bytes| > |buf| then pos + |bytes| else |buf|
    ensures r[pos..pos + |bytes|] == bytes
    ensures forall i :: 0 <= i < |r| && !(pos <= i < pos + |bytes|) ==> r[i] == if i < |buf| then buf[i] else 0
  {
    var grown := if pos + |bytes| > |buf| then buf + seq(pos + |bytes| - |buf|, i => 0) else buf;
    grown[..pos] + bytes + grown[pos + |bytes|..]
  }

  function PaintAll(buf: seq<byte>, handlers: seq<Handler>): seq<byte>
    decreases |handlers|
  {
    if handlers == [] then buf
    else PaintAll(Paint(buf, handlers[0].offset, EncodeHandler(handlers[0])), handlers[1..])
  }

  /** What the writer leaves behind the try items: the count, then each handler at its own offset.
      The area ends at the furthest byte written. */
  function HandlerArea(handlers: seq<Handler>): seq<byte> {
    PaintAll(Uleb(|handlers|), handlers)
  }

  /** Bytes lo..hi of the buffer are those of the original list. */
  ghost predicate Agrees(buf: seq<byte>, area: seq<byte>, lo: nat, hi: nat) {
    lo <= hi <= |buf| && hi <= |area| && buf[lo..hi] == area[lo..hi]
  }

  /** The handler's own encoding is what the list holds between its start and its end. */
  ghost predicate Faithful(area: seq<byte>, h: Handler) {
    && HandlerAt(area, h.offset).Located?
    && HandlerAt(area, h.offset).handler == h
    && area[h.offset..HandlerAt(area, h.offset).next] == EncodeHandler(h)
  }

  lemma {:induction false} PaintKeepsAgreement(buf: seq<byte>, area: seq<byte>, pos: nat, bytes: seq<byte>, lo: nat,
                                               hi: nat)
    requires pos + |bytes| <= |area| && bytes == area[pos..pos + |bytes|]
    requires Agrees(buf, area, lo, hi)
    ensures Agrees(Paint(buf, pos, bytes), area, lo, hi)
  {
    var r := Paint(buf, pos, bytes);
    forall i | lo <= i < hi
      ensures r[i] == area[i]
    {
      if pos <= i < pos + |bytes| {
        assert r[i] == r[pos..pos + |bytes|][i - pos] == area[pos..pos + |bytes|][i - pos];
      } else {
        assert r[i] == buf[i] == buf[lo..hi][i - lo] == area[lo..hi][i - lo];
      }
    }
  }

  lemma {:induction false} FaithfulExtent(area: seq<byte>, h: Handler)
    requires Faithful(area, h)
    ensures h.offset + |EncodeHandler(h)| == HandlerAt(area, h.offset).next <= |area|
    ensures EncodeHandler(h) == area[h.offset..h.offset + |EncodeHandler(h)|]
  {
    hide HandlerAt;
  }

  ghost predicate AllFaithful(area: seq<byte>, handlers: seq<Handler>) {
    forall i :: 0 <= i < |handlers| ==> Faithful(area, handlers[i])
  }

  /** Painting faithful handlers, in whatever order, keeps what already agrees. */
  lemma {:induction false} PaintAllKeeps(buf: seq<byte>, area: seq<byte>, handlers: seq<Handler>, lo: nat, hi: nat)
    requires |buf| <= |area| && AllFaithful(area, handlers) && Agrees(buf, area, lo, hi)
    ensures |PaintAll(buf, handlers)| <= |area| && Agrees(PaintAll(buf, handlers), area, lo, hi)
    decreases |handlers|
  {
    hide Faithful, EncodeHandler, Paint, Agrees, HandlerAt;
    if handlers != [] {
      var h := handlers[0];
      FaithfulExtent(area, h);
      PaintKeepsAgreement(buf, area, h.offset, EncodeHandler(h), lo, hi);
      PaintAllKeeps(Paint(buf, h.offset, EncodeHandler(h)), area, handlers[1..], lo, hi);
    }
  }

  lemma {:induction false} PaintMakes(buf: seq<byte>, area: seq<byte>, pos: nat, bytes: seq<byte>)
    requires pos + |bytes| <= |area| && bytes == area[pos..pos + |bytes|]
    ensures Agrees(Paint(buf, pos, bytes), area, pos, pos + |bytes|)
  {
  }

  /** Painting a faithful handler makes its whole extent agree, whatever is painted after it. */
  lemma {:induction false} PaintAllMakes(buf: seq<byte>, area: seq<byte>, handlers: seq<Handler>, k: nat)
    requires |buf| <= |area| && AllFaithful(area, handlers) && k < |handlers|
    ensures var h := handlers[k];
            Agrees(PaintAll(buf, handlers), area, h.offset, h.offset + |EncodeHandler(h)|)
    decreases |handlers|
  {
    hide Faithful, AllFaithful, EncodeHandler, Paint, Agrees, PaintAll, HandlerAt;
    PaintAllStep(buf, handlers);
    var h, tail := handlers[0], handlers[1..];
    FaithfulParts(area, handlers);
    var bytes := EncodeHandler(h);
    FaithfulExtent(area, h);
    var next := Paint(buf, h.offset, bytes);
    if k == 0 {
      PaintMakes(buf, area, h.offset, bytes);
      PaintAllKeeps(next, area, tail, h.offset, h.offset + |bytes|);
    } else {
      PaintAllMakes(next, area, tail, k - 1);
    }
  }

  lemma {:induction false} PaintAllStep(buf: seq<byte>, handlers: seq<Handler>)
    requires handlers != []
    ensures PaintAll(buf, handlers) == PaintAll(Paint(buf, handlers[0].offset, EncodeHandler(handlers[0])),
        handlers[1..])
  {
    hide Paint, EncodeHandler;
  }

  lemma {:induction false} FaithfulParts(area: seq<byte>, handlers: seq<Handler>)
    requires AllFaithful(area, handlers) && handlers != []
    ensures Faithful(area, handlers[0]) && AllFaithful(area, handlers[1..])
  {
    hide Faithful;
  }

  /** Consecutive extents that agree make the whole stretch agree. */
  lemma {:induction false} ExtentsJoin(buf: seq<byte>, area: seq<byte>, lo: nat, mid: nat, hi: nat)
    requires Agrees(buf, area, lo, mid) && Agrees(buf, area, mid, hi)
    ensures Agrees(buf, area, lo, hi)
  {
    assert buf[lo..hi] == buf[lo..mid] + buf[mid..hi];
    assert area[lo..hi] == area[lo..mid] + area[mid..hi];
  }

  // ---- reading undoes writing, and writing is never longer than what was read

  lemma {:induction false} EncodePairsAppend(pairs: seq<Pair>, last: Pair)
    ensures EncodePairs(pairs + [last]) == EncodePairs(pairs) + EncodePairs([last])
    ensures last.typeIndex.None? ==> EncodePairs([last]) == Uleb(last.address)
  {
    if pairs != [] {
      EncodePairsAppend(pairs[1..], last);
      assert (pairs + [last])[1..] == pairs[1..] + [last];
    } else {
      assert pairs + [last] == [last];
    }
  }

  lemma {:induction false} PairsRoundTrip(pairs: seq<Pair>, suffix: seq<byte>)
    requires Typed(pairs)
    ensures ReadPairs(EncodePairs(pairs) + suffix, |pairs|) == Ok(pairs, suffix)
  {
    hide Uleb, ReadUleb, IsSuffix;
    if pairs == [] {
      assert EncodePairs(pairs) + suffix == suffix;
    } else {
      var t, address := pairs[0].typeIndex.value, pairs[0].address;
      var tail := EncodePairs(pairs[1..]) + suffix;
      assert EncodePairs(pairs) + suffix == Uleb(t) + (Uleb(address) + tail);
      UlebRoundTrip(t, Uleb(address) + tail);
      UlebRoundTrip(address, tail);
      PairsRoundTrip(pairs[1..], suffix);
      assert pairs == [Pair(Some(t), address)] + pairs[1..];
    }
  }

  lemma {:induction false} HandlerRoundTrip(h: Handler, suffix: seq<byte>)
    requires Regular(h)
    ensures ReadHandler(EncodeHandler(h) + suffix, h.offset) == Ok(h, suffix)
  {
    hide Uleb, Sleb, ReadUleb, ReadSleb, ReadPairs, EncodePairs;
    if h.catchAll {
      var n := |h.pairs| - 1;
      var typed, last := h.pairs[..n], h.pairs[n];
      assert h.pairs == typed + [last];
      EncodePairsAppend(typed, last);
      var tail := Uleb(last.address) + suffix;
      assert EncodeHandler(h) + suffix == Sleb(-n) + (EncodePairs(typed) + tail);
      SlebRoundTrip(-n, EncodePairs(typed) + tail);
      PairsRoundTrip(typed, tail);
      UlebRoundTrip(last.address, suffix);
    } else {
      var n := |h.pairs|;
      assert EncodeHandler(h) + suffix == Sleb(n) + (EncodePairs(h.pairs) + suffix);
      SlebRoundTrip(n, EncodePairs(h.pairs) + suffix);
      PairsRoundTrip(h.pairs, suffix);
    }
  }

  lemma {:induction false} PairsShortest(s: seq<byte>, n: nat)
    ensures ReadPairs(s, n).Ok? ==> |EncodePairs(ReadPairs(s, n).value)| <= |s| - |ReadPairs(s, n).rest|
    decreases n
  {
    hide Uleb, ReadUleb, IsSuffix;
    if ReadPairs(s, n).Ok? && n > 0 {
      UlebShortest(s);
      var s' := ReadUleb(s).rest;
      UlebShortest(s');
      var s'' := ReadUleb(s').rest;
      PairsShortest(s'', n - 1);
      var pairs := ReadPairs(s, n).value;
      assert pairs[1..] == ReadPairs(s'', n - 1).value;
    }
  }

  lemma {:induction false} HandlerShortest(s: seq<byte>, offset: nat)
    ensures ReadHandler(s, offset).Ok? ==>
              |EncodeHandler(ReadHandler(s, offset).value)| <= |s| - |ReadHandler(s, offset).rest|
  {
    hide Uleb, Sleb, ReadUleb, ReadSleb, ReadPairs, EncodePairs, IsSuffix;
    if ReadHandler(s, offset).Ok? {
      SlebShortest(s);
      var size, s' := ReadSleb(s).value, ReadSleb(s).rest;
      PairsShortest(s', Abs(size));
      var pairs, s'' := ReadPairs(s', Abs(size)).value, ReadPairs(s', Abs(size)).rest;
      if size <= 0 {
        UlebShortest(s'');
        EncodePairsAppend(pairs, Pair(None, ReadUleb(s'').value));
      }
    }
  }

  // ---- when the bytes come back unchanged

  /** A list in shortest LEB128 form that ends where the bytes end. */
  ghost predicate Canonical(area: seq<byte>) {
    var list := Parse(area);
    && list.DiskList? && list.end == |area|
    && Start(list, 0) <= |area|
    && area[..Start(list, 0)] == Uleb(|list.handlers|)
    && AllFaithful(area, list.handlers)
  }

  lemma {:induction false} ParseShape(area: seq<byte>)
    requires Parse(area).DiskList?
    ensures var r, list := ReadUleb(area), Parse(area);
            && r.Ok? && r.value == |list.handlers|
            && list == ParseFrom(area, |area| - |r.rest|, r.value)
            && Start(list, 0) == |area| - |r.rest| <= |area|
  {
    hide ReadUleb, HandlerAt;
    var r := ReadUleb(area);
    FirstStart(area, |area| - |r.rest|, r.value, Parse(area));
  }

  lemma {:induction false} ExtentsAgree(buf: seq<byte>, area: seq<byte>, list: DiskList, first: nat, n: nat, i: nat)
    requires list.DiskList? && list == ParseFrom(area, first, n) && i <= n
    requires AllFaithful(area, list.handlers) && first <= |area|
    requires Agrees(buf, area, 0, first)
    requires forall k :: 0 <= k < n ==>
               Agrees(buf, area, list.handlers[k].offset, list.handlers[k].offset + |EncodeHandler(list.handlers[k])|)
    ensures Agrees(buf, area, 0, Start(list, i))
    decreases i
  {
    hide HandlerAt, ParseFrom, EncodeHandler, Agrees;
    if i == 0 {
      FirstStart(area, first, n, list);
    } else {
      ExtentsAgree(buf, area, list, first, n, i - 1);
      ParseStep(area, first, n, list, i - 1);
      var h := list.handlers[i - 1];
      FaithfulExtent(area, h);
      ExtentsJoin(buf, area, 0, Start(list, i - 1), Start(list, i));
    }
  }

  /** Whatever order the handlers are kept in, a canonical list is written back byte for byte. */
  lemma {:induction false} OrderDoesNotMatter(area: seq<byte>, list: seq<Handler>)
    requires Canonical(area) && Complete(list, Parse(area).handlers)
    ensures HandlerArea(list) == area
  {
    hide HandlerAt, ParseFrom, EncodeHandler, Uleb, ReadUleb, Faithful, Parse;
    ParseShape(area);
    var disk := Parse(area);
    var first, n := Start(disk, 0), |disk.handlers|;
    var buf, final := Uleb(n), HandlerArea(list);
    assert AllFaithful(area, list) by {
      forall i | 0 <= i < |list|
        ensures Faithful(area, list[i])
      {
        assert list[i] in disk.handlers;
      }
    }
    PaintAllKeeps(buf, area, list, 0, first);
    forall k | 0 <= k < n
      ensures Agrees(final, area, disk.handlers[k].offset, disk.handlers[k].offset + |EncodeHandler(disk.handlers[k])|)
    {
      assert disk.handlers[k] in list;
      var j :| 0 <= j < |list| && list[j] == disk.handlers[k];
      PaintAllMakes(buf, area, list, j);
    }
    ExtentsAgree(final, area, disk, first, n, n);
  }

  ghost predicate Apart(h: Handler, lo: nat, hi: nat) {
    hi <= h.offset || h.offset + |EncodeHandler(h)| <= lo
  }

  lemma {:induction false} PaintAllSkips(buf: seq<byte>, handlers: seq<Handler>, lo: nat, hi: nat)
    requires lo <= hi <= |buf| && forall i :: 0 <= i < |handlers| ==> Apart(handlers[i], lo, hi)
    ensures hi <= |PaintAll(buf, handlers)| && PaintAll(buf, handlers)[lo..hi] == buf[lo..hi]
    decreases |handlers|
  {
    hide EncodeHandler, Paint;
    if handlers != [] {
      var h := handlers[0];
      var next := Paint(buf, h.offset, EncodeHandler(h));
      assert Apart(h, lo, hi);
      assert next[lo..hi] == buf[lo..hi];
      PaintAllSkips(next, handlers[1..], lo, hi);
    }
  }

  lemma {:induction false} PaintAllHolds(buf: seq<byte>, handlers: seq<Handler>, k: nat)
    requires k < |handlers|
    requires forall i :: k < i < |handlers| ==>
        Apart(handlers[i], handlers[k].offset, handlers[k].offset + |EncodeHandler(handlers[k])|)
    ensures var h, final := handlers[k], PaintAll(buf, handlers);
            h.offset + |EncodeHandler(h)| <= |final|
                && final[h.offset..h.offset + |EncodeHandler(h)|] == EncodeHandler(h)
    decreases |handlers|
  {
    hide EncodeHandler, Paint, Apart;
    var next := Paint(buf, handlers[0].offset, EncodeHandler(handlers[0]));
    if k == 0 {
      PaintAllSkips(next, handlers[1..], handlers[0].offset, handlers[0].offset + |EncodeHandler(handlers[0])|);
    } else {
      PaintAllHolds(next, handlers[1..], k - 1);
    }
  }

  /** Writing never needs more room than the handler had on disk. */
  lemma {:induction false} HandlerFits(area: seq<byte>, pos: nat)
    requires HandlerAt(area, pos).Located?
    ensures pos + |EncodeHandler(HandlerAt(area, pos).handler)| <= HandlerAt(area, pos).next
  {
    hide ReadHandler, EncodeHandler;
    HandlerShortest(area[pos..], pos);
  }

  lemma {:induction false} ExtentsAreApart(area: seq<byte>, first: nat, n: nat, list: DiskList, i: nat, j: nat)
    requires list.DiskList? && list == ParseFrom(area, first, n) && i < n && j < n && i != j
    ensures var h := list.handlers[i];
            Apart(list.handlers[j], h.offset, h.offset + |EncodeHandler(h)|)
  {
    hide HandlerAt, ParseFrom, EncodeHandler;
    var lo, hi := if i < j then i else j, if i < j then j else i;
    ParseStep(area, first, n, list, lo);
    HandlerFits(area, Start(list, lo));
    if lo + 1 < hi {
      StartsIncrease(area, first, n, list, lo + 1, hi);
    }
  }

  /** Bytes that hold a handler's own encoding at its offset are read as exactly that handler. */
  lemma {:induction false} HeldIsFaithful(area: seq<byte>, h: Handler)
    requires Regular(h) && h.offset + |EncodeHandler(h)| <= |area|
    requires area[h.offset..h.offset + |EncodeHandler(h)|] == EncodeHandler(h)
    ensures Faithful(area, h)
  {
    hide ReadHandler, EncodeHandler, Regular;
    var next := h.offset + |EncodeHandler(h)|;
    HandlerRoundTrip(h, area[next..]);
    assert area[h.offset..] == EncodeHandler(h) + area[next..];
  }

  lemma {:induction false} UnchangedHandler(area: seq<byte>, list: seq<Handler>, i: nat)
    requires Parse(area).DiskList? && Complete(list, Parse(area).handlers) && HandlerArea(list) == area
    requires i < |list|
    ensures Faithful(area, list[i])
  {
    hide HandlerAt, ParseFrom, Parse, EncodeHandler, Uleb, ReadUleb, Faithful, Apart, Regular;
    ParseShape(area);
    var disk := Parse(area);
    var first, n := Start(disk, 0), |disk.handlers|;
    var h := list[i];
    assert h in disk.handlers;
    var a :| 0 <= a < n && disk.handlers[a] == h;
    forall j | i < j < |list|
      ensures Apart(list[j], h.offset, h.offset + |EncodeHandler(h)|)
    {
      assert list[j] in disk.handlers;
      var b :| 0 <= b < n && disk.handlers[b] == list[j];
      ExtentsAreApart(area, first, n, disk, a, b);
    }
    PaintAllHolds(Uleb(|list|), list, i);
    ParseStep(area, first, n, disk, a);
    HeldIsFaithful(area, h);
  }

  lemma {:induction false} UnchangedCount(area: seq<byte>, list: seq<Handler>)
    requires Parse(area).DiskList? && Complete(list, Parse(area).handlers) && HandlerArea(list) == area
    requires |list| < 0x1_0000_0000
    ensures Start(Parse(area), 0) <= |area| && area[..Start(Parse(area), 0)] == Uleb(|list|)
  {
    hide HandlerAt, ParseFrom, Parse, EncodeHandler, Uleb, ReadUleb, Apart;
    ParseShape(area);
    UlebShortest(area);
    var disk := Parse(area);
    var first, n, head := Start(disk, 0), |disk.handlers|, Uleb(|list|);
    forall i | 0 <= i < |list|
      ensures Apart(list[i], 0, |head|)
    {
      assert list[i] in disk.handlers;
      var a :| 0 <= a < n && disk.handlers[a] == list[i];
      CountIsApart(area, disk, first, n, a, |head|);
    }
    PaintAllSkips(head, list, 0, |head|);
    assert area == head + area[|head|..];
    UlebRoundTrip(|list|, area[|head|..]);
  }

  lemma {:induction false} CountIsApart(area: seq<byte>, list: DiskList, first: nat, n: nat, a: nat, head: nat)
    requires list.DiskList? && list == ParseFrom(area, first, n) && a < n && head <= first
    ensures Apart(list.handlers[a], 0, head)
  {
    hide HandlerAt, ParseFrom;
    StartsIncrease(area, first, n, list, a, n);
  }

  /** Collecting and writing back reproduces the list's bytes exactly when they were canonical. */
  lemma {:induction false} UnchangedIffCanonical(area: seq<byte>, list: seq<Handler>)
    requires Parse(area).DiskList? && Parse(area).end == |area| && Complete(list, Parse(area).handlers)
    ensures HandlerArea(list) == area <==> Canonical(area)
  {
    hide HandlerAt, ParseFrom, Parse, EncodeHandler, Uleb, ReadUleb, Faithful;
    if Canonical(area) {
      OrderDoesNotMatter(area, list);
    }
    if HandlerArea(list) == area {
      ParseShape(area);
      UnchangedCount(area, list);
      var disk := Parse(area);
      forall k | 0 <= k < |disk.handlers|
        ensures Faithful(area, disk.handlers[k])
      {
        assert disk.handlers[k] in list;
        var i :| 0 <= i < |list| && list[i] == disk.handlers[k];
        UnchangedHandler(area, list, i);
      }
    }
  }

  lemma {:induction false} PaddedZero(suffix: seq<byte>)
    ensures ReadUleb([0x80, 0] + suffix) == Ok(0, suffix)
  {
    var s: seq<byte> := [0x80, 0] + suffix;
    assert s[1..] == [0] + suffix;
    assert ([0] + suffix)[1..] == suffix;
    assert UlebTail(s[1..], 4) == Ok(0, suffix);
  }

  lemma {:induction false} PaddedHandler(s: seq<byte>, offset: nat)
    requires s == Sleb(1) + ([0x80, 0] + Uleb(5))
    ensures ReadHandler(s, offset) == Ok(Handler(false, offset, [Pair(Some(0), 5)]), [])
  {
    hide Uleb, Sleb, ReadUleb, ReadSleb, IsSuffix;
    var s': seq<byte> := [0x80, 0] + Uleb(5);
    SlebRoundTrip(1, s');
    PaddedZero(Uleb(5));
    UlebRoundTrip(5, []);
    assert Uleb(5) + [] == Uleb(5);
    var one := 1;
    assert ReadPairs([], one - 1) == Ok([], []);
    assert ReadPairs(s', one) == Ok([Pair(Some(0), 5)] + [], []);
    assert [Pair(Some(0), 5)] + [] == [Pair(Some(0), 5)];
    assert ReadPairs(s', Abs(one)) == Ok([Pair(Some(0), 5)], []);
  }

  /** One type index spelled in two bytes where one would do: a well-formed list whose bytes
      change when it is written back. */
  lemma {:induction false} PaddedListChanges()
    ensures var area := Uleb(1) + (Sleb(1) + ([0x80, 0] + Uleb(5)));
            && Parse(area).DiskList? && Parse(area).end == |area|
            && HandlerArea(Parse(area).handlers) != area
  {
    hide Uleb, Sleb, ReadUleb, HandlerAt, EncodeHandler;
    var body := Sleb(1) + ([0x80, 0] + Uleb(5));
    var area := Uleb(1) + body;
    var h := Handler(false, 1, [Pair(Some(0), 5)]);
    PaddedSizes(h);
    UlebRoundTrip(1, body);
    PaddedAt(area, body, h);
    var one := 1;
    assert ParseFrom(area, 5, one - 1) == DiskList([], 5);
    assert ParseFrom(area, 1, one) == DiskList([h] + [], 5);
    assert [h] + [] == [h];
    PaddedIsNotCanonical(area, h);
  }

  lemma {:induction false} PaddedSizes(h: Handler)
    requires h == Handler(false, 1, [Pair(Some(0), 5)])
    ensures |Uleb(1)| == 1 && |Uleb(0)| == 1 && |Uleb(5)| == 1 && |Sleb(1)| == 1
    ensures |EncodeHandler(h)| == 3
  {
    assert h.pairs[1..] == [];
    assert EncodePairs(h.pairs) == Uleb(0) + Uleb(5) + [];
  }

  lemma {:induction false} PaddedAt(area: seq<byte>, body: seq<byte>, h: Handler)
    requires |area| == 5 && area[1..] == body && body == Sleb(1) + ([0x80, 0] + Uleb(5))
    requires h == Handler(false, 1, [Pair(Some(0), 5)])
    ensures HandlerAt(area, 1) == Located(h, 5)
  {
    hide Uleb, Sleb, ReadHandler;
    PaddedHandler(body, 1);
  }

  lemma {:induction false} PaddedIsNotCanonical(area: seq<byte>, h: Handler)
    requires |area| == 5 && Parse(area) == DiskList([h], 5)
    requires HandlerAt(area, h.offset) == Located(h, 5) && h.offset == 1 && |EncodeHandler(h)| == 3
    ensures HandlerArea([h]) != area
  {
    hide Uleb, ReadUleb, HandlerAt, EncodeHandler, HandlerArea, Parse;
    UnchangedIffCanonical(area, [h]);
    assert !Faithful(area, [h][0]);
  }
}
