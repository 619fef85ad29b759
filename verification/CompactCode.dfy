/**
 Compact code items: a two-half header, with a preheader in front of it for sizes that do not fit, and
 the range of bytes that is compared when equal code items are sought.
 */
module CompactCode {
  import opened Leb128
  import opened Streams
  import opened CodeItems
  import opened ItemReaders

  /** The sizes, the instructions, and what follows them if there are try items. */
  datatype Code = Code(registers: uint16, ins: uint16, outs: uint16, tries: uint16, insns: seq<uint16>, tail: seq<byte>)

  type CompactItem = c: Code | c.ins <= c.registers && |c.insns| < 0x1_0000_0000 witness Code(0, 0, 0, 0, [], [])

  // ---- header and preheader

  function Locals(c: CompactItem): uint16 {
    c.registers - c.ins
  }

  /** Four bits of each size. */
  function Fields(c: CompactItem): (f: uint16)
    ensures f % 16 == c.tries % 16
  {
    0x1000 * (Locals(c) % 16) + 0x100 * (c.ins % 16) + 0x10 * (c.outs % 16) + c.tries % 16
  }

  function Bit(b: bool): nat {
    if b then 1 else 0
  }

  /** Which sizes continue in the preheader. */
  function Flags(c: CompactItem): (f: nat)
    ensures f < 32
  {
    Bit(Locals(c) >= 16) + 2 * Bit(c.ins >= 16) + 4 * Bit(c.outs >= 16) + 8 * Bit(c.tries >= 16)
        + 16 * Bit(|c.insns| >= 2048)
  }

  function CountAndFlags(c: CompactItem): (f: uint16)
    ensures f % 32 == Flags(c) && f / 32 == |c.insns| % 2048
  {
    32 * (|c.insns| % 2048) + Flags(c)
  }

  function Rest(size: uint16): (r: seq<uint16>)
    ensures |r| == Bit(size >= 16) && (r != [] ==> r[0] % 16 == 0 && r[0] == size - size % 16)
  {
    if size >= 16 then [size - size % 16] else []
  }

  /** The preheader from the header backwards: what is left of each size, the instruction count first. */
  function Backwards(c: CompactItem): (r: seq<uint16>) {
    var n := |c.insns| - |c.insns| % 2048;
    (if n != 0 then [n % 0x1_0000, n / 0x1_0000] else []) + Rest(Locals(c)) + Rest(c.ins) + Rest(c.outs) + Rest(c.tries)
  }

  function Reversed(s: seq<uint16>): (r: seq<uint16>)
    ensures |r| == |s|
  {
    if s == [] then [] else Reversed(s[1..]) + [s[0]]
  }

  function Preheader(c: CompactItem): (s: seq<byte>)
    ensures |s| == 2 * |Backwards(c)|
  {
    InsnBytes(Reversed(Backwards(c)))
  }

  function Header(c: CompactItem): (s: seq<byte>)
    ensures |s| == 4
  {
    LeBytes(Fields(c), 2) + LeBytes(CountAndFlags(c), 2)
  }

  /** What a reader makes of the header and of the halves in front of it. */
  datatype Sizes = Sizes(registers: nat, ins: nat, outs: nat, tries: nat, insns: nat)

  function SizesOf(c: CompactItem): Sizes {
    Sizes(c.registers, c.ins, c.outs, c.tries, |c.insns|)
  }

  function At(s: seq<nat>, i: nat): nat {
    if i < |s| then s[i] else 0
  }

  predicate HasFlag(flags: nat, bit: nat)
    requires bit > 0
  {
    ((flags % 32) / bit) % 2 == 1
  }

  /** Four bits of a size and, if the flag says so, the rest of it from the preheader. */
  function Part(low: nat, continues: bool, back: seq<nat>, k: nat): nat {
    low + if continues then At(back, k) else 0
  }

  /** Where the rest of each size is, counted backwards from the header. */
  function LocalsPlace(flags: nat): nat {
    2 * Bit(HasFlag(flags, 16))
  }

  function InsPlace(flags: nat): nat {
    LocalsPlace(flags) + Bit(HasFlag(flags, 1))
  }

  function OutsPlace(flags: nat): nat {
    InsPlace(flags) + Bit(HasFlag(flags, 2))
  }

  function TriesPlace(flags: nat): nat {
    OutsPlace(flags) + Bit(HasFlag(flags, 4))
  }

  function InsnCount(flags: nat, back: seq<nat>): nat {
    flags / 32 + if HasFlag(flags, 16) then At(back, 0) + 0x1_0000 * At(back, 1) else 0
  }

  function Decode(fields: nat, flags: nat, back: seq<nat>): Sizes {
    var locals := Part((fields / 0x1000) % 16, HasFlag(flags, 1), back, LocalsPlace(flags));
    var ins := Part((fields / 0x100) % 16, HasFlag(flags, 2), back, InsPlace(flags));
    var outs := Part((fields / 0x10) % 16, HasFlag(flags, 4), back, OutsPlace(flags));
    var tries := Part(fields % 16, HasFlag(flags, 8), back, TriesPlace(flags));
    Sizes(locals + ins, ins, outs, tries, InsnCount(flags, back))
  }

  lemma {:induction false} PartIsWhole(size: nat, continues: bool, back: seq<nat>, k: nat)
    requires continues <==> size >= 16
    requires continues ==> At(back, k) == size - size % 16
    ensures Part(size % 16, continues, back, k) == size
  {
    hide At;
  }

  lemma {:induction false} FlagBits(c: CompactItem, f: nat)
    requires f % 32 == Flags(c)
    ensures (HasFlag(f, 1) <==> Locals(c) >= 16) && (HasFlag(f, 2) <==> c.ins >= 16)
        && (HasFlag(f, 4) <==> c.outs >= 16)
    ensures (HasFlag(f, 8) <==> c.tries >= 16) && (HasFlag(f, 16) <==> |c.insns| >= 2048)
  {
    hide Locals;
    BitsOf(Locals(c) >= 16, c.ins >= 16, c.outs >= 16, c.tries >= 16, |c.insns| >= 2048);
  }

  lemma {:induction false} BitsOf(a: bool, b: bool, c: bool, d: bool, e: bool)
    ensures var f := Bit(a) + 2 * Bit(b) + 4 * Bit(c) + 8 * Bit(d) + 16 * Bit(e);
            && (f % 2 == 1 <==> a) && ((f / 2) % 2 == 1 <==> b) && ((f / 4) % 2 == 1 <==> c)
            && ((f / 8) % 2 == 1 <==> d) && ((f / 16) % 2 == 1 <==> e)
  {
  }

  lemma {:induction false} Nibbles(a: nat, b: nat, c: nat, d: nat)
    requires a < 16 && b < 16 && c < 16 && d < 16
    ensures var f := 0x1000 * a + 0x100 * b + 0x10 * c + d;
            (f / 0x1000) % 16 == a && (f / 0x100) % 16 == b && (f / 0x10) % 16 == c && f % 16 == d
  {
    var f := 0x1000 * a + 0x100 * b + 0x10 * c + d;
    assert f / 0x10 == 0x100 * a + 0x10 * b + c && f / 0x100 == 0x10 * a + b && f / 0x1000 == a;
  }

  /** Where each part of the preheader is, counted backwards. */
  lemma {:induction false} BackwardsAt(c: CompactItem)
    ensures var k0 := 2 * Bit(|c.insns| >= 2048);
            var k1 := k0 + Bit(Locals(c) >= 16);
            var k2 := k1 + Bit(c.ins >= 16);
            var k3 := k2 + Bit(c.outs >= 16);
            var b := Backwards(c);
            && (|c.insns| >= 2048 ==> At(b, 0) + 0x1_0000 * At(b, 1) == |c.insns| - |c.insns| % 2048)
            && (Locals(c) >= 16 ==> At(b, k0) == Locals(c) - Locals(c) % 16)
            && (c.ins >= 16 ==> At(b, k1) == c.ins - c.ins % 16)
            && (c.outs >= 16 ==> At(b, k2) == c.outs - c.outs % 16)
            && (c.tries >= 16 ==> At(b, k3) == c.tries - c.tries % 16)
            && |b| == k3 + Bit(c.tries >= 16)
  {
  }

  lemma {:induction false} FieldsHold(c: CompactItem)
    ensures var f := Fields(c);
            && (f / 0x1000) % 16 == Locals(c) % 16 && (f / 0x100) % 16 == c.ins % 16
            && (f / 0x10) % 16 == c.outs % 16 && f % 16 == c.tries % 16
  {
    hide Locals;
    Nibbles(Locals(c) % 16, c.ins % 16, c.outs % 16, c.tries % 16);
  }

  /** The preheader has the rest of each size at the place the flags say. */
  lemma {:induction false} RestIsPlaced(c: CompactItem, flags: nat)
    requires flags % 32 == Flags(c)
    ensures var b := Backwards(c);
            && (Locals(c) >= 16 ==> At(b, LocalsPlace(flags)) == Locals(c) - Locals(c) % 16)
            && (c.ins >= 16 ==> At(b, InsPlace(flags)) == c.ins - c.ins % 16)
            && (c.outs >= 16 ==> At(b, OutsPlace(flags)) == c.outs - c.outs % 16)
            && (c.tries >= 16 ==> At(b, TriesPlace(flags)) == c.tries - c.tries % 16)
  {
    hide Backwards, At, HasFlag, Flags, Locals;
    BackwardsAt(c);
    FlagBits(c, flags);
  }

  lemma {:induction false} CountIsDecoded(c: CompactItem)
    ensures InsnCount(CountAndFlags(c), Backwards(c)) == |c.insns|
  {
    hide Backwards, At, HasFlag, Flags, Locals;
    BackwardsAt(c);
    FlagBits(c, CountAndFlags(c));
  }

  /** All sizes are restored from the header and the preheader in front of it. */
  lemma {:induction false} SizesAreDecoded(c: CompactItem)
    ensures Decode(Fields(c), CountAndFlags(c), Backwards(c)) == SizesOf(c)
  {
    hide Backwards, At, HasFlag, Flags, Fields, CountAndFlags, Part, InsnCount, LocalsPlace, InsPlace, OutsPlace,
        TriesPlace;
    var flags, b := CountAndFlags(c), Backwards(c);
    FieldsHold(c);
    FlagBits(c, flags);
    RestIsPlaced(c, flags);
    PartIsWhole(Locals(c), HasFlag(flags, 1), b, LocalsPlace(flags));
    PartIsWhole(c.ins, HasFlag(flags, 2), b, InsPlace(flags));
    PartIsWhole(c.outs, HasFlag(flags, 4), b, OutsPlace(flags));
    PartIsWhole(c.tries, HasFlag(flags, 8), b, TriesPlace(flags));
    CountIsDecoded(c);
  }

  /** The flags say how long the preheader is. */
  function LengthFor(flags: nat): nat {
    Bit(HasFlag(flags, 1)) + Bit(HasFlag(flags, 2)) + Bit(HasFlag(flags, 4)) + Bit(HasFlag(flags, 8))
        + 2 * Bit(HasFlag(flags, 16))
  }

  lemma {:induction false} LengthIsRead(c: CompactItem, flags: nat)
    requires flags % 32 == Flags(c)
    ensures |Backwards(c)| == LengthFor(flags)
  {
    hide Backwards, At, HasFlag, Flags;
    BackwardsAt(c);
    FlagBits(c, flags);
  }

  lemma {:induction false} PreheaderLength(c: CompactItem)
    ensures |Backwards(c)| == LengthFor(Flags(c))
    ensures Flags(c) == 0 <==> Backwards(c) == []
  {
    hide Backwards, At, HasFlag;
    BackwardsAt(c);
    FlagBits(c, Flags(c));
  }

  /** The half next to the header has low bits of zero. */
  lemma {:induction false} NearestHalf(c: CompactItem)
    requires Backwards(c) != []
    ensures Backwards(c)[0] % 16 == 0 && (Flags(c) >= 16 ==> Backwards(c)[0] % 2048 == 0)
  {
    if |c.insns| >= 2048 {
      hide Rest, Locals;
      MultipleOf(|c.insns|);
    } else {
      hide Locals;
    }
  }

  lemma {:induction false} MultipleOf(m: nat)
    ensures var n := m - m % 2048; (n % 0x1_0000) % 2048 == 0 && (n % 0x1_0000) % 16 == 0
  {
    var k := m / 2048;
    var n := m - m % 2048;
    assert n == 2048 * k && n % 0x1_0000 == 2048 * (k % 32);
  }

  // ---- the item and the range it is compared by

  /** What follows the instructions, aligned in the file. */
  function Post(c: CompactItem, end: nat): seq<byte> {
    if c.tries == 0 then [] else Zeros(RoundUp(end, 4) - end) + c.tail
  }

  function Body(c: CompactItem): (s: seq<byte>)
    ensures |s| == 4 + 2 * |c.insns|
  {
    Header(c) + InsnBytes(c.insns)
  }

  function Item(c: CompactItem, at: nat): (s: seq<byte>)
    ensures |s| >= 4 + 2 * |c.insns| && (c.tries == 0 ==> |s| == 4 + 2 * |c.insns|)
  {
    Body(c) + Post(c, at + 4 + 2 * |c.insns|)
  }

  lemma {:induction false} Padding(start: nat, n: nat)
    requires start % 2 == 0
    ensures var code := start + 2 * n;
            code % 2 == 0 && RoundUp(code, 4) % 4 == 0 && RoundUp(code, 4) - code <= 2 && RoundUp(code, 4) % 2 == 0
  {
    hide UpToFour;
    var code := start + 2 * n;
    EvenSum(start, n);
    EvenGap(code, UpToFour(code));
  }

  lemma {:induction false} EvenSum(start: nat, n: nat)
    requires start % 2 == 0
    ensures (start + 2 * n) % 2 == 0
  {
    assert start + 2 * n == 2 * (start / 2 + n);
  }

  lemma {:induction false} EvenGap(a: nat, b: nat)
    requires a % 2 == 0 && b % 4 == 0 && a <= b < a + 4
    ensures b - a <= 2 && b % 2 == 0
  {
    assert b == 2 * (2 * (b / 4)) && a == 2 * (a / 2);
  }

  /** Padding for the item, and more if its instructions have a payload that needs it behind n halves. */
  function GapFor(n: nat, payload: bool, pos: nat): (g: nat)
    ensures g <= 3 && (pos + g + 2 * n) % 2 == 0 && (payload ==> (pos + g + 2 * n) % 4 == 0)
  {
    var pad := pos % 2;
    var code := pos + pad + 2 * n;
    Padding(pos + pad, n);
    if payload then pad + (RoundUp(code, 4) - code) else pad
  }

  function Gap(c: CompactItem, payload: bool, pos: nat): (g: nat)
    ensures g <= 3
  {
    GapFor(|Backwards(c)|, payload, pos)
  }

  /** How far behind the start of the range the item is. */
  function Distance(c: CompactItem, payload: bool, pos: nat): (d: nat)
    ensures (pos + d) % 2 == 0 && (payload ==> (pos + d) % 4 == 0)
  {
    Gap(c, payload, pos) + 2 * |Backwards(c)|
  }

  function Range(c: CompactItem, payload: bool, pos: nat): (x: seq<byte>)
    ensures |x| == Distance(c, payload, pos) + |Item(c, pos + Distance(c, payload, pos))|
  {
    Zeros(Gap(c, payload, pos)) + Preheader(c) + Item(c, pos + Distance(c, payload, pos))
  }

  lemma {:induction false} ItemInRange(c: CompactItem, payload: bool, pos: nat)
    ensures var x, d, g := Range(c, payload, pos), Distance(c, payload, pos), Gap(c, payload, pos);
            && x[d..] == Item(c, pos + d) && x[g..d] == Preheader(c) && x[..g] == Zeros(g)
            && d + 4 <= |x| && x[d..d + 4] == Header(c)
  {
    hide Preheader, Header, Gap, InsnBytes, Post, Zeros;
    var d, g := Distance(c, payload, pos), Gap(c, payload, pos);
    var z, p, i := Zeros(g), Preheader(c), Item(c, pos + d);
    assert (z + p + i)[d..] == i && (z + p + i)[g..d] == p && (z + p + i)[..g] == z;
    assert i[..4] == Header(c);
    assert (z + p + i)[d..d + 4] == i[..4];
  }

  // ---- equal ranges

  lemma {:induction false} HalvesDiffer(a: uint16, b: uint16)
    requires LeBytes(a, 2) == LeBytes(b, 2)
    ensures a == b
  {
    assert Pow8(2) == 0x1_0000;
    LeRoundTrip(a, 2);
    LeRoundTrip(b, 2);
  }

  lemma {:induction false} SameHeader(a: CompactItem, b: CompactItem)
    requires Header(a) == Header(b)
    ensures Fields(a) == Fields(b) && CountAndFlags(a) == CountAndFlags(b) && Flags(a) == Flags(b)
    ensures |Backwards(a)| == |Backwards(b)| && (a.tries == 0 <==> b.tries == 0)
  {
    hide LeBytes, Backwards, LengthFor;
    assert Header(a)[..2] == LeBytes(Fields(a), 2) && Header(b)[..2] == LeBytes(Fields(b), 2);
    assert Header(a)[2..] == LeBytes(CountAndFlags(a), 2) && Header(b)[2..] == LeBytes(CountAndFlags(b), 2);
    HalvesDiffer(Fields(a), Fields(b));
    HalvesDiffer(CountAndFlags(a), CountAndFlags(b));
    PreheaderLength(a);
    PreheaderLength(b);
    NoTries(a);
    NoTries(b);
  }

  lemma {:induction false} NoTries(c: CompactItem)
    ensures c.tries == 0 <==> Fields(c) % 16 == 0 && (Flags(c) / 8) % 2 == 0
  {
  }

  lemma {:induction false} ReversedAt(s: seq<uint16>, i: nat)
    requires i < |s|
    ensures Reversed(s)[|s| - 1 - i] == s[i]
  {
    if i > 0 {
      ReversedAt(s[1..], i - 1);
    }
  }

  lemma {:induction false} SameHalves(a: seq<uint16>, b: seq<uint16>)
    requires |a| == |b| && InsnBytes(a) == InsnBytes(b)
    ensures a == b
  {
    hide InsnBytes, LeBytes;
    forall i | 0 <= i < |a|
      ensures a[i] == b[i]
    {
      HalvesAt(a, i);
      HalvesAt(b, i);
      HalvesDiffer(a[i], b[i]);
    }
  }

  lemma {:induction false} SameReversed(a: seq<uint16>, b: seq<uint16>)
    requires Reversed(a) == Reversed(b)
    ensures a == b
  {
    forall i | 0 <= i < |a|
      ensures a[i] == b[i]
    {
      ReversedAt(a, i);
      ReversedAt(b, i);
    }
  }

  /** Equal ranges with the item at the same distance have equal parts. */
  lemma {:induction false} SameParts(a: CompactItem, pa: bool, x: nat, b: CompactItem, pb: bool, y: nat)
    requires Range(a, pa, x) == Range(b, pb, y) && Distance(a, pa, x) == Distance(b, pb, y)
    ensures Header(a) == Header(b) && Preheader(a) == Preheader(b)
    ensures Item(a, x + Distance(a, pa, x)) == Item(b, y + Distance(b, pb, y))
  {
    hide Range, Gap, Header, Backwards, Item, Preheader;
    ItemInRange(a, pa, x);
    ItemInRange(b, pb, y);
    hide Fields, CountAndFlags, Flags;
    SameHeader(a, b);
  }

  lemma {:induction false} SamePreheader(a: CompactItem, b: CompactItem)
    requires Preheader(a) == Preheader(b)
    ensures Backwards(a) == Backwards(b)
  {
    hide Backwards, InsnBytes, Reversed;
    SameHalves(Reversed(Backwards(a)), Reversed(Backwards(b)));
    SameReversed(Backwards(a), Backwards(b));
  }

  lemma {:induction false} SameSizes(a: CompactItem, b: CompactItem)
    requires Header(a) == Header(b) && Preheader(a) == Preheader(b)
    ensures SizesOf(a) == SizesOf(b)
  {
    hide Backwards, Header, Preheader, Fields, CountAndFlags, Flags, Decode;
    SameHeader(a, b);
    SamePreheader(a, b);
    SizesAreDecoded(a);
    SizesAreDecoded(b);
  }

  lemma {:induction false} SameInsns(a: CompactItem, x: nat, b: CompactItem, y: nat)
    requires Item(a, x) == Item(b, y) && |a.insns| == |b.insns|
    ensures a.insns == b.insns
  {
    hide Item, InsnBytes;
    InsnsOf(a, x);
    InsnsOf(b, y);
    SameHalves(a.insns, b.insns);
  }

  /** Equal ranges with the item at the same distance have the same sizes and instructions. */
  lemma {:induction false} SameDistanceSameCode(a: CompactItem, pa: bool, x: nat, b: CompactItem, pb: bool, y: nat)
    requires Range(a, pa, x) == Range(b, pb, y) && Distance(a, pa, x) == Distance(b, pb, y)
    ensures SizesOf(a) == SizesOf(b) && a.insns == b.insns && Preheader(a) == Preheader(b)
  {
    hide Range, Distance, Header, Preheader, Item;
    SameParts(a, pa, x, b, pb, y);
    SameSizes(a, b);
    SameInsns(a, x + Distance(a, pa, x), b, y + Distance(b, pb, y));
  }

  lemma {:induction false} InsnsOf(c: CompactItem, at: nat)
    ensures Item(c, at)[4..4 + 2 * |c.insns|] == InsnBytes(c.insns)
  {
    hide Header, InsnBytes, Post;
    var i := Item(c, at);
    assert i == Header(c) + InsnBytes(c.insns) + Post(c, at + 4 + 2 * |c.insns|);
  }

  /** Bytes that repeat from zeros on are zeros. */
  lemma {:induction false} ZerosGoOn(x: seq<byte>, lo: nat, n: nat, hi: nat)
    requires n > 0 && lo + n <= hi <= |x| && forall j :: lo <= j < lo + n ==> x[j] == 0
    requires forall j {:trigger x[j]} :: lo + n <= j < hi ==> x[j] == x[j - n]
    ensures forall j :: lo <= j < hi ==> x[j] == 0
    decreases hi
  {
    if lo + n < hi {
      ZerosGoOn(x, lo, n, hi - 1);
    }
  }

  lemma {:induction false} ZeroHeader(c: CompactItem)
    requires Header(c) == [0, 0, 0, 0]
    ensures c.tries == 0 && c.insns == []
  {
    hide LeBytes;
    assert Header(c)[..2] == LeBytes(Fields(c), 2) && Header(c)[2..] == LeBytes(CountAndFlags(c), 2);
    ZeroHalf();
    HalvesDiffer(Fields(c), 0);
    HalvesDiffer(CountAndFlags(c), 0);
    NoTries(c);
  }

  lemma {:induction false} ZeroHalf()
    ensures LeBytes(0, 2) == [0, 0]
  {
    assert LeBytes(0, 1) == [0] by { assert LeBytes(0, 0) == []; }
  }

  lemma {:induction false} EmptyLength(c: CompactItem, payload: bool, pos: nat)
    requires c.tries == 0 && c.insns == []
    ensures |Range(c, payload, pos)| == Distance(c, payload, pos) + 4
  {
    hide Gap, Header, Backwards, Item, Range;
    ItemInRange(c, payload, pos);
  }

  /** The second preheader and header repeat the first, n bytes further on. */
  lemma {:induction false} PartsRepeat(r: seq<byte>, g: nat, near: nat, n: nat, j: nat)
    requires g <= near && near + n + 4 <= |r| && r[g..near] == r[g + n..near + n]
        && r[near..near + 4] == r[near + n..near + n + 4]
    requires g + n <= j < near + n + 4
    ensures r[j] == r[j - n]
  {
    var k := j - n;
    if k < near {
      assert r[g..near][k - g] == r[g + n..near + n][k - g];
    } else {
      assert r[near..near + 4][k - near] == r[near + n..near + n + 4][k - near];
    }
  }

  /** The same header and preheader in two places of one range: the further ones would start in padding, and
      all up to the header would be zero. */
  lemma {:induction false} PaddingIsSeen(a: CompactItem, pa: bool, x: nat, b: CompactItem, pb: bool, y: nat)
    requires Range(a, pa, x) == Range(b, pb, y) && Header(a) == Header(b) && Preheader(a) == Preheader(b)
    requires Distance(a, pa, x) < Distance(b, pb, y)
    ensures Header(a) == [0, 0, 0, 0]
  {
    hide Range, Header, Backwards, Item, Preheader, Gap, Zeros;
    var r, near, far := Range(a, pa, x), Distance(a, pa, x), Distance(b, pb, y);
    var g, n := Gap(a, pa, x), far - near;
    ItemInRange(a, pa, x);
    ItemInRange(b, pb, y);
    assert Gap(b, pb, y) == g + n;
    forall j | g + n <= j < far + 4
      ensures r[j] == r[j - n]
    {
      PartsRepeat(r, g, near, n, j);
    }
    forall j | g <= j < g + n
      ensures r[j] == 0
    {
      PaddedZero(r, g + n, j);
    }
    ZerosGoOn(r, g, n, far + 4);
    assert r[near..near + 4] == [0, 0, 0, 0];
  }

  lemma {:induction false} PaddedZero(r: seq<byte>, n: nat, j: nat)
    requires j < n <= |r| && r[..n] == Zeros(n)
    ensures r[j] == 0
  {
    assert r[..n][j] == 0;
  }

  /** Equal ranges with the same header and preheader have the item at the same distance. */
  lemma {:induction false} SameCodeSameDistance(a: CompactItem, pa: bool, x: nat, b: CompactItem, pb: bool, y: nat)
    requires Range(a, pa, x) == Range(b, pb, y) && Header(a) == Header(b) && Preheader(a) == Preheader(b)
    ensures Distance(a, pa, x) == Distance(b, pb, y)
  {
    hide Range, Header, Distance, Preheader;
    if Distance(a, pa, x) != Distance(b, pb, y) {
      if Distance(a, pa, x) < Distance(b, pb, y) {
        PaddingIsSeen(a, pa, x, b, pb, y);
      } else {
        PaddingIsSeen(b, pb, y, a, pa, x);
      }
      ZeroHeader(a);
      ZeroHeader(b);
      EmptyLength(a, pa, x);
      EmptyLength(b, pb, y);
    }
  }

  /** Two bytes further, the last half of the preheader would be a header field whose flags it contradicts. */
  lemma {:induction false} PreheaderIsSeen(a: CompactItem, pa: bool, x: nat, b: CompactItem, pb: bool, y: nat)
    requires Range(a, pa, x) == Range(b, pb, y) && Header(a) == Header(b) && Backwards(b) != []
    ensures Distance(b, pb, y) != Distance(a, pa, x) + 2
  {
    hide Range, Gap, Backwards, LeBytes, Item, Flags, Fields, CountAndFlags, InsnBytes, Distance;
    if Distance(b, pb, y) == Distance(a, pa, x) + 2 {
      SharedHalf(a, pa, x, b, pb, y);
      NearestHalf(b);
      FlagsOf(b, CountAndFlags(b));
      PreheaderLength(b);
    }
  }

  lemma {:induction false} SharedHalf(a: CompactItem, pa: bool, x: nat, b: CompactItem, pb: bool, y: nat)
    requires Range(a, pa, x) == Range(b, pb, y) && Header(a) == Header(b) && Backwards(b) != []
    requires Distance(b, pb, y) == Distance(a, pa, x) + 2
    ensures Backwards(b)[0] == Fields(b) == CountAndFlags(b)
  {
    hide Range, Gap, Backwards, LeBytes, Item, Flags, Fields, CountAndFlags, InsnBytes;
    var r, near, far := Range(a, pa, x), Distance(a, pa, x), Distance(b, pb, y);
    ItemInRange(a, pa, x);
    ItemInRange(b, pb, y);
    SameHeader(a, b);
    var f, c := Fields(a), CountAndFlags(a);
    assert r[near..near + 2] == r[near..near + 4][..2] == LeBytes(f, 2);
    assert r[near + 2..near + 4] == r[near..near + 4][2..] == LeBytes(c, 2);
    assert r[far..far + 2] == r[far..far + 4][..2] == LeBytes(f, 2);
    HalvesDiffer(f, c);
    LastHalf(b);
    var p := Preheader(b);
    assert r[near..near + 2] == r[Gap(b, pb, y)..far][|p| - 2..] == p[|p| - 2..];
    HalvesDiffer(f, Backwards(b)[0]);
  }

  lemma {:induction false} FlagsOf(b: CompactItem, c: nat)
    requires CountAndFlags(b) == c && c % 16 == 0 && (Flags(b) >= 16 ==> c % 2048 == 0)
    ensures Flags(b) == 0
  {
    hide Flags;
  }

  lemma {:induction false} LastHalf(c: CompactItem)
    requires Backwards(c) != []
    ensures |Preheader(c)| >= 2 && Preheader(c)[|Preheader(c)| - 2..] == LeBytes(Backwards(c)[0], 2)
  {
    hide Backwards, LeBytes, InsnBytes;
    var b := Backwards(c);
    ReversedAt(b, 0);
    HalvesAt(Reversed(b), |b| - 1);
  }

  /** No size needs a preheader, or nothing follows the instructions. */
  predicate Settled(c: CompactItem) {
    c.tries == 0 || Backwards(c) == []
  }

  /** Of two equal ranges with the item at different distances, neither item begins with the other, except
      perhaps with an odd difference and both a preheader and try items. */
  lemma {:induction false} DistanceIsSeen(a: CompactItem, pa: bool, x: nat, b: CompactItem, pb: bool, y: nat)
    requires Range(a, pa, x) == Range(b, pb, y) && Distance(a, pa, x) < Distance(b, pb, y)
    requires Range(a, pa, x)[Distance(b, pb, y)..] <= Range(a, pa, x)[Distance(a, pa, x)..]
    ensures !Settled(a) && !Settled(b)
    ensures Distance(b, pb, y) - Distance(a, pa, x) == 1 || Distance(b, pb, y) - Distance(a, pa, x) == 3
  {
    hide Range, Gap, Header, Backwards, Item;
    var r, near, far := Range(a, pa, x), Distance(a, pa, x), Distance(b, pb, y);
    ItemInRange(a, pa, x);
    ItemInRange(b, pb, y);
    assert r[far..far + 4] == r[far..][..4] == r[near..][..4] == r[near..near + 4];
    SameHeader(a, b);
    if Backwards(b) == [] {
      SameCodeSameDistance(a, pa, x, b, pb, y);
    } else {
      PreheaderIsSeen(a, pa, x, b, pb, y);
    }
  }

  // ---- reading a method

  datatype Method = Method(sizes: Sizes, insns: seq<nat>)

  function MethodOf(c: CompactItem): Method {
    Method(SizesOf(c), seq(|c.insns|, i requires 0 <= i < |c.insns| => c.insns[i]))
  }

  /** The n halves in front of a place, the nearest first. */
  function HalvesBefore(s: seq<byte>, at: nat, n: nat): seq<nat>
    requires 2 * n <= at <= |s|
  {
    seq(n, i requires 0 <= i < n => HalfAt(s, at - 2 * i - 2))
  }

  function SizesAt(s: seq<byte>, at: nat, fields: nat, flags: nat, n: nat): Option<Sizes> {
    if 2 * n > at || at > |s| then None else Some(Decode(fields, flags, HalvesBefore(s, at, n)))
  }

  function InsnsAt(s: seq<byte>, at: nat, n: nat): Option<seq<nat>> {
    if at + 2 * n > |s| then None else Some(seq(n, i requires 0 <= i < n => HalfAt(s, at + 2 * i)))
  }

  /** What a reader finds at the offset of a code item: sizes from the header and the preheader in front of
      it, then the instructions. */
  function ReadMethod(s: seq<byte>, at: nat): Option<Method> {
    if at + 4 > |s| then None
    else
      var flags := HalfAt(s, at + 2);
      match SizesAt(s, at, HalfAt(s, at), flags, LengthFor(flags))
      case None => None
      case Some(sizes) => match InsnsAt(s, at + 4,
          sizes.insns) case None => None case Some(insns) => Some(Method(sizes, insns))
  }

  lemma {:induction false} HalfRead(s: seq<byte>, at: nat, v: uint16)
    requires ReadsAs(s, at, LeBytes(v, 2))
    ensures HalfAt(s, at) == v
  {
    hide LeBytes, LeValue;
    HalfRoundTrip(v);
  }

  lemma {:induction false} HalvesRead(s: seq<byte>, at: nat, halves: seq<uint16>, i: nat)
    requires ReadsAs(s, at, InsnBytes(halves)) && i < |halves|
    ensures at + 2 * i + 2 <= |s| && HalfAt(s, at + 2 * i) == halves[i]
  {
    hide LeBytes, LeValue, InsnBytes, HalfAt;
    HalvesAt(halves, i);
    SubSlice(s, at, at + 2 * |halves|, 2 * i, 2 * i + 2);
    HalfRead(s, at + 2 * i, halves[i]);
  }

  lemma {:induction false} PreheaderRead(c: CompactItem, s: seq<byte>, at: nat)
    requires |Preheader(c)| <= at <= |s| && ReadsAs(s, at - |Preheader(c)|, Preheader(c))
    ensures HalvesBefore(s, at, |Backwards(c)|) == Backwards(c)
  {
    hide InsnBytes, HalfAt, Backwards, Reversed;
    var b := Backwards(c);
    forall i | 0 <= i < |b|
      ensures HalvesBefore(s, at, |b|)[i] == b[i]
    {
      ReversedAt(b, i);
      HalvesRead(s, at - |Preheader(c)|, Reversed(b), |b| - 1 - i);
    }
  }

  lemma {:induction false} HeaderRead(c: CompactItem, s: seq<byte>, at: nat)
    requires ReadsAs(s, at, Body(c))
    ensures HalfAt(s, at) == Fields(c) && HalfAt(s, at + 2) == CountAndFlags(c)
        && ReadsAs(s, at + 4, InsnBytes(c.insns))
  {
    hide InsnBytes, HalfAt, LeBytes, Fields, CountAndFlags;
    var bytes := Body(c);
    assert bytes[0..2] == LeBytes(Fields(c), 2) && bytes[2..4] == LeBytes(CountAndFlags(c), 2);
    assert bytes[4..|bytes|] == InsnBytes(c.insns);
    SubSlice(s, at, at + |bytes|, 0, 2);
    SubSlice(s, at, at + |bytes|, 2, 4);
    SubSlice(s, at, at + |bytes|, 4, |bytes|);
    HalfRead(s, at, Fields(c));
    HalfRead(s, at + 2, CountAndFlags(c));
  }

  /** A method is read where its header and instructions are, with its preheader in front. */
  lemma {:induction false} MethodIsRead(c: CompactItem, s: seq<byte>, at: nat)
    requires |Preheader(c)| <= at && ReadsAs(s, at - |Preheader(c)|, Preheader(c)) && ReadsAs(s, at, Body(c))
    ensures ReadMethod(s, at) == Some(MethodOf(c))
  {
    hide InsnBytes, HalfAt, Backwards, Decode, HalvesBefore, LengthFor, Fields, CountAndFlags, Header;
    PreheaderRead(c, s, at);
    HeaderRead(c, s, at);
    LengthIsRead(c, CountAndFlags(c));
    SizesAreDecoded(c);
    forall i | 0 <= i < |c.insns|
      ensures HalfAt(s, at + 4 + 2 * i) == c.insns[i]
    {
      HalvesRead(s, at + 4, c.insns, i);
    }
    assert ReadMethod(s, at).value.insns == MethodOf(c).insns;
  }

  /** Header and preheader follow from the sizes. */
  lemma {:induction false} SizesDetermine(a: CompactItem, b: CompactItem)
    requires SizesOf(a) == SizesOf(b)
    ensures Header(a) == Header(b) && Preheader(a) == Preheader(b)
  {
    hide LeBytes, InsnBytes, Reversed, Rest;
  }
}
