/**
 How the shared data section grows: what each write adds to it, and which code items share a place.
 */
module SharedSpace {
  import opened Leb128
  import opened Streams
  import opened CodeItems
  import opened CompactCode
  import opened SharedRuns

  /** How long the section is before write i. */
  function LengthAt(u: Setup, ops: seq<Op>, i: nat): nat
    requires i <= |ops|
  {
    |After(u, ops[..i]).w|
  }

  lemma {:induction false} LengthGrows(u: Setup, ops: seq<Op>, i: nat, j: nat)
    requires i <= j <= |ops|
    ensures LengthAt(u, ops, i) <= LengthAt(u, ops, j)
  {
    hide After;
    WrittenStays(u, ops, i, j);
  }

  // ---- what a write adds

  /** The room a code item takes from its offset on, and in front of it. */
  ghost predicate AddsCode(c: CompactItem, payload: bool, before: nat, offset: nat, after: nat) {
    && before + 2 * |Backwards(c)| <= offset < before + 2 * |Backwards(c)| + (if payload then 4 else 2)
    && offset % 2 == 0 && (payload ==> offset % 4 == 0) && after == offset + |Item(c, offset)|
  }

  /** What is there already is not added again; anything else is added at the next aligned place. */
  ghost predicate Adds(u: Setup, op: Op, before: nat, offset: nat, after: nat) {
    match op
    case Share(bytes) =>
      8 <= offset && offset + |bytes| <= after && (after == before || (offset == before && after == before + |bytes|))
    case Plain(n, bytes) => before <= offset < before + n && Aligned(offset, n) && after == offset + |bytes|
    case WriteCode(c) =>
      (8 <= offset < before && after == before) || AddsCode(c, u.payload(c.insns), before, offset, after)
    case EndFile => before <= after < before + 8 && after % 8 == 0
  }

  lemma {:induction false} CodeAdds(c: CompactItem, payload: bool, pos: nat)
    ensures var d, x := Distance(c, payload, pos), Range(c, payload, pos);
            AddsCode(c, payload, pos, pos + d, pos + |x|)
  {
    hide Backwards, Item;
  }

  /** Remembered code ranges do not overlap, and each has room for its item. */
  ghost predicate Strewn(codes: seq<Entry>) {
    && (forall e :: e in codes ==> e.start <= e.offset && e.offset + 4 <= e.start + e.length)
    && (forall d, e :: d in codes && e in codes ==>
          d == e || d.start + d.length <= e.start || e.start + e.length <= d.start)
  }

  lemma {:induction false} NextIsStrewn(u: Setup, s: Section, op: Op)
    requires Sane(s) && Strewn(s.codes)
    ensures Strewn(Next(u, s, op).0.codes)
  {
    hide Lookup, Distinct, Range, Distance, Item;
    if op.WriteCode? {
      CodeAdds(op.code, u.payload(op.code.insns), |s.w|);
    }
  }

  lemma {:induction false} CodesAreStrewn(u: Setup, ops: seq<Op>)
    ensures Strewn(After(u, ops).codes)
  {
    hide Next, Sane, Strewn;
    if ops == [] {
      NothingIsStrewn();
    } else {
      var n := |ops| - 1;
      CodesAreStrewn(u, ops[..n]);
      AfterIsSane(u, ops[..n]);
      NextIsStrewn(u, After(u, ops[..n]), ops[n]);
    }
  }

  lemma {:induction false} NothingIsStrewn()
    ensures Strewn(EMPTY.codes)
  {
  }

  lemma {:induction false} CodeItemAdds(u: Setup, ops: seq<Op>, i: nat)
    requires i < |ops| && ops[i].WriteCode?
    ensures Adds(u, ops[i], LengthAt(u, ops, i), OffsetAt(u, ops, i), LengthAt(u, ops, i + 1))
    ensures !u.dedupeCode ==> LengthAt(u, ops, i) <= OffsetAt(u, ops, i)
  {
    hide After, Range, Distance, Lookup, Distinct, Item, Backwards;
    var s, c := After(u, ops[..i]), ops[i].code;
    AfterIsSane(u, ops[..i]);
    AfterStep(u, ops, i);
    CodesAreStrewn(u, ops[..i]);
    CodeAdds(c, u.payload(c.insns), |s.w|);
  }

  lemma {:induction false} WriteAdds(u: Setup, ops: seq<Op>, i: nat)
    requires i < |ops|
    ensures Adds(u, ops[i], LengthAt(u, ops, i), OffsetAt(u, ops, i), LengthAt(u, ops, i + 1))
  {
    hide After, Range, Distance, Lookup, Distinct, Item, Backwards;
    if ops[i].WriteCode? {
      CodeItemAdds(u, ops, i);
    } else {
      AfterIsSane(u, ops[..i]);
      AfterStep(u, ops, i);
    }
  }

  // ---- sharing code

  /** The range that is laid down for code item i and compared. */
  function RangeAt(u: Setup, ops: seq<Op>, i: nat): seq<byte>
    requires i < |ops| && ops[i].WriteCode?
  {
    Range(ops[i].code, u.payload(ops[i].code.insns), LengthAt(u, ops, i))
  }

  ghost predicate SameFile(ops: seq<Op>, i: nat, j: nat) {
    forall k :: i < k < j && k < |ops| ==> !ops[k].EndFile?
  }

  lemma {:induction false} LookupInFront(w: seq<byte>, front: seq<Entry>, more: seq<Entry>, x: seq<byte>)
    requires Lookup(w, front, x).Some?
    ensures Lookup(w, front + more, x) == Lookup(w, front, x)
  {
    hide Matches;
    if !Matches(w, front[0], x) {
      assert (front + more)[1..] == front[1..] + more;
      LookupInFront(w, front[1..], more, x);
    }
  }

  lemma {:induction false} LookupLast(w: seq<byte>, front: seq<Entry>, e: Entry, x: seq<byte>)
    requires Lookup(w, front, x).None? && Matches(w, e, x)
    ensures Lookup(w, front + [e], x) == Some(e)
  {
    hide Matches;
    if front == [] {
      assert [] + [e] == [e];
    } else {
      assert (front + [e])[1..] == front[1..] + [e];
      assert front[0] in front;
      LookupLast(w, front[1..], e, x);
    }
  }

  /** Within a file code ranges are only added. */
  lemma {:induction false} CodesGrow(u: Setup, s: Section, op: Op)
    requires !op.EndFile?
    ensures s.codes <= Next(u, s, op).0.codes
  {
    hide Range, Distance, Lookup;
  }

  lemma {:induction false} FoundNext(u: Setup, s: Section, op: Op, x: seq<byte>, e: Entry)
    requires Sane(s) && !op.EndFile? && Lookup(s.w, s.codes, x) == Some(e)
    ensures var t := Next(u, s, op).0;
            Lookup(t.w, t.codes, x) == Some(e)
  {
    hide Next, Lookup, Distinct;
    var t := Next(u, s, op).0;
    CodesGrow(u, s, op);
    NextGrows(u, s, op);
    LookupMore(s.w, t.w, s.codes, x);
    assert t.codes == s.codes + t.codes[|s.codes|..];
    LookupInFront(t.w, s.codes, t.codes[|s.codes|..], x);
  }

  lemma {:induction false} FoundAfter(u: Setup, s: Section, c: CompactItem)
    requires Sane(s) && u.dedupeCode
    ensures var x, t := Range(c, u.payload(c.insns), |s.w|), Next(u, s, WriteCode(c)).0;
            Lookup(t.w, t.codes, x).Some? && Lookup(t.w, t.codes, x).value.offset == Next(u, s, WriteCode(c)).1
  {
    hide Range, Distance, Lookup, Distinct, Matches;
    var x, t, offset := Range(c, u.payload(c.insns), |s.w|), Next(u, s, WriteCode(c)).0, Next(u, s, WriteCode(c)).1;
    if Lookup(s.w, s.codes, x).None? {
      LookupMore(s.w, t.w, s.codes, x);
      NewRange(s.w, x, offset);
      LookupLast(t.w, s.codes, Entry(|s.w|, |x|, offset), x);
    }
  }

  /** This range is found, with this offset. */
  ghost predicate Finds(s: Section, x: seq<byte>, offset: nat) {
    Lookup(s.w, s.codes, x).Some? && Lookup(s.w, s.codes, x).value.offset == offset
  }

  lemma {:induction false} FoundAtOnce(u: Setup, ops: seq<Op>, i: nat)
    requires i < |ops| && ops[i].WriteCode? && u.dedupeCode
    ensures Finds(After(u, ops[..i + 1]), RangeAt(u, ops, i), OffsetAt(u, ops, i))
  {
    hide After, Lookup, Range, Next, Sane;
    AfterIsSane(u, ops[..i]);
    AfterStep(u, ops, i);
    FoundAfter(u, After(u, ops[..i]), ops[i].code);
  }

  /** Until the end of its file the range of a code item is found, with the offset the item got. */
  lemma {:induction false} CodeIsRemembered(u: Setup, ops: seq<Op>, i: nat, j: nat)
    requires i < j <= |ops| && ops[i].WriteCode? && u.dedupeCode && SameFile(ops, i, j)
    ensures Finds(After(u, ops[..j]), RangeAt(u, ops, i), OffsetAt(u, ops, i))
    decreases j
  {
    hide After, Lookup, RangeAt, OffsetAt, Next, Sane;
    if i == j - 1 {
      FoundAtOnce(u, ops, i);
    } else {
      var s, x := After(u, ops[..j - 1]), RangeAt(u, ops, i);
      CodeIsRemembered(u, ops, i, j - 1);
      AfterIsSane(u, ops[..j - 1]);
      AfterStep(u, ops, j - 1);
      FoundNext(u, s, ops[j - 1], x, Lookup(s.w, s.codes, x).value);
    }
  }

  /** With deduplication two code items of one file share a place exactly when their ranges are equal. */
  lemma {:induction false} CodeIsShared(u: Setup, ops: seq<Op>, i: nat, j: nat)
    requires i < j < |ops| && ops[i].WriteCode? && ops[j].WriteCode? && u.dedupeCode && SameFile(ops, i, j)
    ensures OffsetAt(u, ops, i) == OffsetAt(u, ops, j) <==> RangeAt(u, ops, i) == RangeAt(u, ops, j)
  {
    hide After, Distinct, RangeAt, Next, OffsetAt, Lookup;
    var s := After(u, ops[..j + 1]);
    CodeIsRemembered(u, ops, i, j + 1);
    CodeIsRemembered(u, ops, j, j + 1);
    CodesAreStrewn(u, ops[..j + 1]);
  }

  /** What is remembered was laid down since the last end of a file. */
  lemma {:induction false} RememberedIsLater(u: Setup, ops: seq<Op>, k: nat, e: Entry)
    requires k < |ops| && ops[k].EndFile? && e in After(u, ops).codes
    ensures LengthAt(u, ops, k + 1) <= e.start
  {
    hide After, Distance, Range, Matches, Lookup;
    var q := CodeOrigin(u, ops, e);
    assert k < q;
    LengthGrows(u, ops, k + 1, q);
  }

  /** Code is not shared between files: it goes behind all that was there when its file was begun. */
  lemma {:induction false} CodeStaysInFile(u: Setup, ops: seq<Op>, k: nat, j: nat)
    requires k < j < |ops| && ops[k].EndFile? && ops[j].WriteCode?
    ensures LengthAt(u, ops, k + 1) <= OffsetAt(u, ops, j)
  {
    hide After, Distance, Range, Matches, OffsetAt, Twin;
    CodeOffset(u, ops, j);
    var twin := Twin(u, After(u, ops[..j]), ops[j].code);
    if twin.Some? {
      RememberedIsLater(u, ops[..j], k, twin.value);
      assert ops[..j][..k + 1] == ops[..k + 1];
    } else {
      LengthGrows(u, ops, k + 1, j);
    }
  }

  lemma {:induction false} FilesAreApart(u: Setup, ops: seq<Op>, i: nat, k: nat, j: nat)
    requires i < k < j < |ops| && ops[i].WriteCode? && ops[k].EndFile? && ops[j].WriteCode?
    ensures OffsetAt(u, ops, i) < LengthAt(u, ops, k + 1) <= OffsetAt(u, ops, j)
  {
    hide After, OffsetAt, Item, Backwards;
    CodeItemAdds(u, ops, i);
    LengthGrows(u, ops, i + 1, k + 1);
    CodeStaysInFile(u, ops, k, j);
  }

  /** Without deduplication every code item has its own place. */
  lemma {:induction false} CodeIsApart(u: Setup, ops: seq<Op>, i: nat, j: nat)
    requires i < j < |ops| && ops[i].WriteCode? && ops[j].WriteCode? && !u.dedupeCode
    ensures OffsetAt(u, ops, i) < OffsetAt(u, ops, j)
  {
    hide After, OffsetAt, Item, Backwards;
    CodeItemAdds(u, ops, i);
    CodeItemAdds(u, ops, j);
    LengthGrows(u, ops, i + 1, j);
  }
}
