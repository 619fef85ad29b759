/**
 The string ids of a compact file: its string data goes into the section that all files share, in any
 order and with one copy of equal strings, and the table of string ids is filled with the offsets.
 */
module SharedStrings {
  import opened Leb128
  import opened Streams
  import opened DexIr
  import opened ItemReaders
  import opened DexReaders
  import SharedRuns
  import SharedSpace
  import opened SharedData

  type Op = SharedRuns.Op
  type Setup = SharedRuns.Setup

  /** The strings of one file, written in this order. */
  function StringWrites(strings: seq<seq<byte>>, order: seq<nat>): (ops: seq<Op>)
    requires forall k :: 0 <= k < |order| ==> order[k] < |strings|
    ensures |ops| == |order| && forall k :: 0 <= k < |order| ==>
        ops[k] == SharedRuns.Share(StringBytes(strings[order[k]]))
  {
    seq(|order|, k requires 0 <= k < |order| => SharedRuns.Share(StringBytes(strings[order[k]])))
  }

  method PlaceIn(order: seq<nat>, i: nat) returns (k: nat)
    requires i in order
    ensures k < |order| && order[k] == i
  {
    k := 0;
    while order[k] != i
      invariant k < |order| && i in order[k..]
      decreases |order| - k
    {
      assert order[k..] == [order[k]] + order[k + 1..];
      k := k + 1;
    }
  }

  /** String i is found through entry i of the table. */
  ghost predicate Leads(data: seq<byte>, table: seq<byte>, i: nat, s: seq<byte>) {
    && 4 * i + 4 <= |table| && WordAt(table, 4 * i) <= |data|
    && ReadText(data, WordAt(table, 4 * i)) == Some(Text(CountChars(s) % 0x1_0000_0000, s))
  }

  lemma {:induction false} EntryLeads(data: seq<byte>, offsets: seq<nat>, i: nat, s: seq<byte>)
    requires |data| < 0x1_0000_0000 && i < |offsets| && ReadsAs(data, offsets[i], StringBytes(s)) && 0 !in s
    ensures Leads(data, Words(offsets), i, s)
  {
    hide Words, WordAt, StringBytes, ReadText, CountChars;
    WordInArray(offsets, i);
    TextIsRead(data, offsets[i], s);
  }

  /** After any writes of earlier files and of this one, and before any others, entry i leads to string i. */
  method WriteStrings(u: Setup, before: seq<Op>, strings: seq<seq<byte>>, order: seq<nat>, after: seq<Op>)
    returns (data: seq<byte>, table: seq<byte>)
    requires Permutation(order, |strings|)
    ensures data == SharedRuns.After(u, before + StringWrites(strings, order) + after).w && |table| == 4 * |strings|
    ensures |data| < 0x1_0000_0000 ==> forall i :: 0 <= i < |strings| && 0 !in strings[i] ==>
        Leads(data, table, i, strings[i])
  {
    hide Words, WordAt, StringBytes, ReadText, CountChars, ReadsAs, SharedRuns.TwinAgrees, SharedRuns.TwinFits,
        SharedRuns.FoundAt, SharedRuns.CodeAt, SharedRuns.HasHandlers, SharedRuns.OffsetAt, SharedRuns.After, Leads,
        SharedSpace.Adds, SharedSpace.RangeAt, SharedSpace.SameFile;
    var ops := before + StringWrites(strings, order) + after;
    var outs, ends;
    data, outs, ends := WriteAll(u, ops);
    var offsets := [];
    for i := 0 to |strings|
      invariant |offsets| == i && forall j :: 0 <= j < i ==> ReadsAs(data, offsets[j], StringBytes(strings[j]))
    {
      var k := PlaceIn(order, i);
      assert ops[|before| + k] == SharedRuns.Share(StringBytes(strings[i]));
      offsets := offsets + [outs[|before| + k]];
    }
    table := Words(offsets);
    if |data| < 0x1_0000_0000 {
      forall i | 0 <= i < |strings| && 0 !in strings[i]
        ensures Leads(data, table, i, strings[i])
      {
        EntryLeads(data, offsets, i, strings[i]);
      }
    }
  }
}
