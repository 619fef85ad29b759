/**
 The compact table that maps method indices to debug info offsets: blocks of sixteen entries, each a
 bit mask and the differences between its non-zero offsets, and an index of where the blocks start.
 */
module OffsetTables {
  import opened Leb128
  import opened Streams

  const ELEMENTS_PER_INDEX := 16

  // ---- bit masks

  /** Bit i is set when entry i is not zero. */
  function Mask(block: seq<uint32>): nat {
    if block == [] then 0 else (if block[0] != 0 then 1 else 0) + 2 * Mask(block[1..])
  }

  predicate Bit(mask: nat, i: nat) {
    if i == 0 then mask % 2 == 1 else Bit(mask / 2, i - 1)
  }

  /** The number of bits set up to and including bit i. */
  function CountLow(mask: nat, i: nat): nat {
    mask % 2 + if i == 0 then 0 else CountLow(mask / 2, i - 1)
  }

  function Pow2(n: nat): (p: nat)
    ensures p > 0
  {
    if n == 0 then 1 else 2 * Pow2(n - 1)
  }

  lemma {:induction false} MaskBound(block: seq<uint32>)
    ensures Mask(block) < Pow2(|block|)
  {
    if block != [] {
      MaskBound(block[1..]);
    }
  }

  lemma {:induction false} Pow2Grows(m: nat, n: nat)
    requires m <= n
    ensures Pow2(m) <= Pow2(n)
  {
    if m < n {
      Pow2Grows(m, n - 1);
    }
  }

  lemma {:induction false} MaskFitsTwoBytes(block: seq<uint32>)
    requires |block| <= ELEMENTS_PER_INDEX
    ensures Mask(block) < 0x1_0000
  {
    MaskBound(block);
    Pow2Grows(|block|, 16);
    assert Pow2(4) == 16 && Pow2(8) == 0x100 && Pow2(12) == 0x1000 && Pow2(16) == 0x1_0000;
  }

  lemma {:induction false} MaskTail(block: seq<uint32>)
    requires block != []
    ensures Mask(block) / 2 == Mask(block[1..]) && Mask(block) % 2 == if block[0] != 0 then 1 else 0
  {
  }

  lemma {:induction false} MaskBit(block: seq<uint32>, i: nat)
    requires i < |block|
    ensures Bit(Mask(block), i) <==> block[i] != 0
  {
    hide Mask;
    MaskTail(block);
    if i > 0 {
      MaskBit(block[1..], i - 1);
    }
  }

  // ---- blocks

  function Deltas(block: seq<uint32>, previous: uint32): seq<byte>
    decreases |block|
  {
    if block == [] then []
    else if block[0] == 0 then Deltas(block[1..], previous)
    else Uleb(Delta(block[0], previous)) + Deltas(block[1..], block[0])
  }

  function Block(block: seq<uint32>, least: uint32): (s: seq<byte>)
    requires |block| <= ELEMENTS_PER_INDEX
  {
    MaskFitsTwoBytes(block);
    [Mask(block) / 0x100, Mask(block) % 0x100] + Deltas(block, least)
  }

  /** Adds up `count` differences. */
  function AddUp(s: seq<byte>, count: nat, current: uint32): Option<uint32>
    decreases count
  {
    if count == 0 then Some(current)
    else match ReadUleb(s) case Bad => None case Ok(delta, rest) => AddUp(rest, count - 1, Sum(current, delta))
  }

  function MaskOf(high: nat, low: nat): nat {
    0x100 * high + low
  }

  function ReadBlock(s: seq<byte>, least: uint32, i: nat): Option<uint32> {
    if |s| < 2 then None
    else
      var mask := MaskOf(s[0], s[1]);
      if !Bit(mask, i) then Some(0) else AddUp(s[2..], CountLow(mask, i), least)
  }

  lemma {:induction false} AddUpFinds(block: seq<uint32>, i: nat, previous: uint32, suffix: seq<byte>)
    requires i < |block| && block[i] != 0
    ensures AddUp(Deltas(block, previous) + suffix, CountLow(Mask(block), i), previous) == Some(block[i])
    decreases |block|
  {
    hide Mask, Uleb, ReadUleb, Delta, Sum, Deltas, AddUp, CountLow;
    MaskTail(block);
    CountLowStep(Mask(block), i);
    DeltasStep(block, previous);
    var tail := block[1..];
    if block[0] == 0 {
      AddUpFinds(tail, i - 1, previous, suffix);
    } else {
      var delta := Delta(block[0], previous);
      DeltaAddsUp(block[0], previous);
      var more := Deltas(tail, block[0]) + suffix;
      Associate(Uleb(delta), Deltas(tail, block[0]), suffix);
      UlebRoundTrip(delta, more);
      AddUpStep(Uleb(delta) + more, CountLow(Mask(block), i), previous, delta, more);
      if i > 0 {
        AddUpFinds(tail, i - 1, block[0], suffix);
      } else {
        AddUpNothing(more, block[0]);
      }
    }
  }

  lemma {:induction false} CountLowStep(mask: nat, i: nat)
    ensures CountLow(mask, i) == mask % 2 + if i == 0 then 0 else CountLow(mask / 2, i - 1)
  {
  }

  lemma {:induction false} DeltasStep(block: seq<uint32>, previous: uint32)
    requires block != []
    ensures Deltas(block, previous) ==
            if block[0] == 0 then Deltas(block[1..], previous)
                else Uleb(Delta(block[0], previous)) + Deltas(block[1..], block[0])
  {
    hide Uleb, Delta;
  }

  lemma {:induction false} AddUpStep(s: seq<byte>, count: nat, current: uint32, delta: uint32, rest: seq<byte>)
    requires count > 0 && ReadUleb(s) == Ok(delta, rest)
    ensures AddUp(s, count, current) == AddUp(rest, count - 1, Sum(current, delta))
  {
    hide ReadUleb, Sum;
  }

  lemma {:induction false} AddUpNothing(s: seq<byte>, current: uint32)
    ensures AddUp(s, 0, current) == Some(current)
  {
  }

  lemma {:induction false} BlockIsRead(block: seq<uint32>, least: uint32, i: nat, suffix: seq<byte>)
    requires i < |block| <= ELEMENTS_PER_INDEX
    ensures ReadBlock(Block(block, least) + suffix, least, i) == Some(block[i])
  {
    hide Mask, Deltas, AddUp, Bit, CountLow;
    MaskFitsTwoBytes(block);
    MaskBit(block, i);
    var s := Block(block, least) + suffix;
    assert s[2..] == Deltas(block, least) + suffix;
    assert MaskOf(s[0], s[1]) == Mask(block);
    if block[i] != 0 {
      AddUpFinds(block, i, least, suffix);
    }
  }

  // ---- the whole table

  function FirstSize(offsets: seq<uint32>): nat {
    if |offsets| < ELEMENTS_PER_INDEX then |offsets| else ELEMENTS_PER_INDEX
  }

  function Blocks(offsets: seq<uint32>, least: uint32): seq<byte>
    decreases |offsets|
  {
    if offsets == [] then []
    else var n := FirstSize(offsets); Block(offsets[..n], least) + Blocks(offsets[n..], least)
  }

  function BlockStarts(offsets: seq<uint32>, least: uint32, base: nat): seq<nat>
    decreases |offsets|
  {
    if offsets == [] then []
    else var n := FirstSize(offsets); [base] + BlockStarts(offsets[n..], least, base + |Block(offsets[..n], least)|)
  }

  /** The least offset in use; the largest number if there is none. */
  function Least(offsets: seq<uint32>): uint32 {
    if offsets == [] then 0xffff_ffff
    else
      var rest := Least(offsets[..|offsets| - 1]);
      var last := offsets[|offsets| - 1];
      if last != 0 && last < rest then last else rest
  }

  datatype Table = Table(data: seq<byte>, least: uint32, tableOffset: nat)

  function Encode(offsets: seq<uint32>): Table {
    var least := Least(offsets);
    var blocks := Blocks(offsets, least);
    var tableOffset := RoundUp(|blocks|, 4);
    Table(blocks + Zeros(tableOffset - |blocks|) + Words(BlockStarts(offsets, least, 0)), least, tableOffset)
  }

  function GetOffset(t: Table, index: nat): Option<uint32> {
    var pos := t.tableOffset + 4 * (index / ELEMENTS_PER_INDEX);
    if pos + 4 > |t.data| then None
    else
      var start := LeValue(t.data[pos..pos + 4]);
      if start > |t.data| then None else ReadBlock(t.data[start..], t.least, index % ELEMENTS_PER_INDEX)
  }

  lemma {:induction false} IndexStep(i: nat)
    requires i >= ELEMENTS_PER_INDEX
    ensures i / ELEMENTS_PER_INDEX == 1 + (i - ELEMENTS_PER_INDEX) / ELEMENTS_PER_INDEX
    ensures i % ELEMENTS_PER_INDEX == (i - ELEMENTS_PER_INDEX) % ELEMENTS_PER_INDEX
  {
  }

  /** The i-th offset is read from the block that its index leads to. */
  lemma {:induction false} FindInBlocks(offsets: seq<uint32>, least: uint32, base: nat, i: nat, suffix: seq<byte>)
    requires i < |offsets|
    ensures var starts, b := BlockStarts(offsets, least, base), i / ELEMENTS_PER_INDEX;
            && b < |starts| && base <= starts[b] <= base + |Blocks(offsets, least)|
            && ReadBlock((Blocks(offsets, least) + suffix)[starts[b] - base..], least, i % ELEMENTS_PER_INDEX)
                == Some(offsets[i])
    decreases |offsets|
  {
    hide Block, ReadBlock, Blocks, BlockStarts;
    var n := FirstSize(offsets);
    BlocksStep(offsets, least, base);
    var first, tail := Block(offsets[..n], least), offsets[n..];
    var more := Blocks(tail, least) + suffix;
    var s := Blocks(offsets, least) + suffix;
    Associate(first, Blocks(tail, least), suffix);
    assert s == first + more;
    if i < ELEMENTS_PER_INDEX {
      BlockIsRead(offsets[..n], least, i, more);
      assert s[0..] == s;
    } else {
      IndexStep(i);
      FindInBlocks(tail, least, base + |first|, i - ELEMENTS_PER_INDEX, suffix);
      var starts, b := BlockStarts(tail, least, base + |first|), (i - ELEMENTS_PER_INDEX) / ELEMENTS_PER_INDEX;
      DropPast(first, more, starts[b] - base);
    }
  }

  lemma {:induction false} BlocksStep(offsets: seq<uint32>, least: uint32, base: nat)
    requires offsets != []
    ensures var n := FirstSize(offsets);
            var first := Block(offsets[..n], least);
            && Blocks(offsets, least) == first + Blocks(offsets[n..], least)
            && BlockStarts(offsets, least, base) == [base] + BlockStarts(offsets[n..], least, base + |first|)
  {
    hide Block;
  }

  lemma {:induction false} DropPast(a: seq<byte>, b: seq<byte>, n: nat)
    requires |a| <= n <= |a + b|
    ensures (a + b)[n..] == b[n - |a|..]
  {
  }

  lemma {:induction false} DeltasBound(block: seq<uint32>, previous: uint32)
    ensures |Deltas(block, previous)| <= 5 * |block|
    decreases |block|
  {
    hide Uleb;
    if block != [] {
      if block[0] == 0 {
        DeltasBound(block[1..], previous);
      } else {
        DeltasBound(block[1..], block[0]);
        PowFive();
        UlebLength(Delta(block[0], previous), 5);
      }
    }
  }

  lemma {:induction false} BlocksBound(offsets: seq<uint32>, least: uint32)
    ensures |Blocks(offsets, least)| <= 7 * |offsets|
    decreases |offsets|
  {
    hide Deltas, Mask;
    if offsets != [] {
      var n := FirstSize(offsets);
      DeltasBound(offsets[..n], least);
      BlocksBound(offsets[n..], least);
    }
  }

  /** Looking up any index gives the offset it was built from. */
  lemma {:induction false} LookupIsExact(offsets: seq<uint32>, i: nat)
    requires i < |offsets| && 7 * |offsets| < 0x1_0000_0000
    ensures GetOffset(Encode(offsets), i) == Some(offsets[i])
  {
    hide Blocks, BlockStarts, ReadBlock, RoundUp, LeBytes, LeValue, Least;
    var t, least := Encode(offsets), Least(offsets);
    var blocks, starts, b := Blocks(offsets, least), BlockStarts(offsets, least, 0), i / ELEMENTS_PER_INDEX;
    var gap := Zeros(t.tableOffset - |blocks|);
    Associate(blocks, gap, Words(starts));
    FindInBlocks(offsets, least, 0, i, gap + Words(starts));
    BlocksBound(offsets, least);
    var pos := t.tableOffset + 4 * b;
    WordsAt(starts, b);
    assert t.data[pos..pos + 4] == Words(starts)[4 * b..4 * b + 4];
    WordRoundTrip(starts[b]);
  }

  // ---- building the table

  lemma {:induction false} MaskAppend(block: seq<uint32>, last: uint32)
    ensures Mask(block + [last]) == Mask(block) + if last != 0 then Pow2(|block|) else 0
  {
    if block == [] {
      assert block + [last] == [last];
      assert Mask([last][1..]) == 0;
    } else {
      MaskAppend(block[1..], last);
      assert (block + [last])[1..] == block[1..] + [last];
    }
  }

  method LeastOffset(offsets: seq<uint32>) returns (least: uint32)
    ensures least == Least(offsets)
  {
    least := 0xffff_ffff;
    for i := 0 to |offsets|
      invariant least == Least(offsets[..i])
    {
      assert offsets[..i + 1][..i] == offsets[..i];
      if offsets[i] != 0 && offsets[i] < least {
        least := offsets[i];
      }
    }
    assert offsets[..|offsets|] == offsets;
  }

  method BlockMask(block: seq<uint32>) returns (mask: nat)
    ensures mask == Mask(block)
  {
    hide Mask, Pow2;
    mask := 0;
    MaskOfNothing();
    var bit := 1;
    for i := 0 to |block|
      invariant mask == Mask(block[..i]) && bit == Pow2(i)
    {
      assert block[..i + 1] == block[..i] + [block[i]];
      MaskAppend(block[..i], block[i]);
      if block[i] != 0 {
        mask := mask + bit;
      }
      Pow2Step(i);
      bit := 2 * bit;
    }
    assert block[..|block|] == block;
  }

  lemma {:induction false} MaskOfNothing()
    ensures Mask([]) == 0 && Pow2(0) == 1
  {
  }

  lemma {:induction false} Pow2Step(i: nat)
    ensures Pow2(i + 1) == 2 * Pow2(i)
  {
  }

  method BlockDeltas(block: seq<uint32>, least: uint32) returns (out: seq<byte>)
    ensures out == Deltas(block, least)
  {
    hide Uleb, Delta;
    out := [];
    var previous := least;
    for i := 0 to |block|
      invariant out + Deltas(block[i..], previous) == Deltas(block, least)
    {
      assert block[i..][1..] == block[i + 1..];
      if block[i] != 0 {
        var bytes := EncodeUnsignedLeb128(Delta(block[i], previous));
        Associate(out, bytes, Deltas(block[i + 1..], block[i]));
        out := out + bytes;
        previous := block[i];
      }
    }
  }

  method Build(offsets: seq<uint32>) returns (t: Table)
    ensures t == Encode(offsets)
  {
    hide Mask, Deltas, Least, RoundUp, LeBytes, Blocks, BlockStarts, Block;
    var least := LeastOffset(offsets);
    var data: seq<byte>, table: seq<nat>, blockStart := [], [], 0;
    assert offsets[0..] == offsets;
    while blockStart < |offsets|
      invariant blockStart <= |offsets|
      invariant data + Blocks(offsets[blockStart..], least) == Blocks(offsets, least)
      invariant table + BlockStarts(offsets[blockStart..], least, |data|) == BlockStarts(offsets, least, 0)
    {
      var blockSize := if |offsets| - blockStart < ELEMENTS_PER_INDEX then |offsets| - blockStart
          else ELEMENTS_PER_INDEX;
      var block := offsets[blockStart..blockStart + blockSize];
      BlockAdded(offsets, least, blockStart, blockSize, data, table);
      var mask := BlockMask(block);
      MaskFitsTwoBytes(block);
      var deltas := BlockDeltas(block, least);
      BlockIs(block, least);
      table := table + [|data|];
      data := data + ([mask / 0x100, mask % 0x100] + deltas);
      blockStart := blockStart + blockSize;
    }
    assert offsets[blockStart..] == [];
    NoBlocks(least, |data|);
    assert data + [] == data && table + [] == table;
    var tableOffset := RoundUp(|data|, 4);
    t := Table(data + Zeros(tableOffset - |data|) + Words(table), least, tableOffset);
  }

  lemma {:induction false} NoBlocks(least: uint32, base: nat)
    ensures Blocks([], least) == [] && BlockStarts([], least, base) == []
  {
  }

  lemma {:induction false} BlockIs(block: seq<uint32>, least: uint32)
    requires |block| <= ELEMENTS_PER_INDEX
    ensures Mask(block) < 0x1_0000
    ensures Block(block, least) == [Mask(block) / 0x100, Mask(block) % 0x100] + Deltas(block, least)
  {
    hide Mask, Deltas;
    MaskFitsTwoBytes(block);
  }

  lemma {:induction false} BlockAdded(offsets: seq<uint32>, least: uint32, start: nat, size: nat, data: seq<byte>,
                                      table: seq<nat>)
    requires start < |offsets| && size == FirstSize(offsets[start..])
    ensures start + size <= |offsets|
    ensures var bytes := Block(offsets[start..start + size], least);
            && data + bytes + Blocks(offsets[start + size..], least) == data + Blocks(offsets[start..], least)
            && table + [|data|] + BlockStarts(offsets[start + size..], least, |data + bytes|) == table
                + BlockStarts(offsets[start..], least, |data|)
  {
    hide Block, Blocks, BlockStarts;
    var rest := offsets[start..];
    BlocksStep(rest, least, |data|);
    assert rest[..size] == offsets[start..start + size] && rest[size..] == offsets[start + size..];
    var bytes := Block(offsets[start..start + size], least);
    Associate(data, bytes, Blocks(offsets[start + size..], least));
    var next := BlockStarts(offsets[start + size..], least, |data| + |bytes|);
    assert table + [|data|] + next == table + ([|data|] + next);
  }
}
