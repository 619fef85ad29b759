/**
 Finding out whether a method has instructions with a payload, by walking over its instructions.
 */
module Payloads {
  import opened Leb128

  const FILL_ARRAY_DATA := 0x26
  const PACKED_SWITCH := 0x2b
  const SPARSE_SWITCH := 0x2c

  predicate TakesPayload(op: nat) {
    op == FILL_ARRAY_DATA || op == PACKED_SWITCH || op == SPARSE_SWITCH
  }

  /** Code units of an instruction with this opcode. */
  function SizeFor(op: nat): (n: nat)
    ensures 0 < n <= 5
  {
    if op == 0x18 then 5
    else if op == 0xfa || op == 0xfb then 4
    else if op in {0x03, 0x06, 0x09, 0x14, 0x17, 0x1b, 0x24, 0x25, 0x26, 0x2a, 0x2b, 0x2c, 0xe9, 0xea, 0xfc, 0xfd}
            || 0x6e <= op <= 0x72 || 0x74 <= op <= 0x78 then 3
    else if op in {0x02, 0x05, 0x08, 0x13, 0x15, 0x16, 0x19, 0x1a, 0x1c, 0x1f, 0x20, 0x22, 0x23, 0x29, 0xfe, 0xff}
            || 0x2d <= op <= 0x3d || 0x44 <= op <= 0x6d || 0x90 <= op <= 0xaf
            || 0xd0 <= op <= 0xe8 || 0xeb <= op <= 0xf2 then 2
    else 1
  }

  /** The size of the instruction or payload at pc; none if it would go past the end. The size of an array
      payload is computed in 32 bits. */
  function SizeAt(insns: seq<uint16>, pc: nat): (n: Option<nat>)
    requires pc < |insns|
    ensures n.Some? ==> 0 < n.value <= |insns| - pc
  {
    var left := |insns| - pc;
    var unit: int -> nat := k => if 0 <= k < left then insns[pc + k] else 0;
    var size :=
      if unit(0) == 0x0100 then (if left < 2 then left + 1 else 4 + 2 * unit(1))
      else if unit(0) == 0x0200 then (if left < 2 then left + 1 else 2 + 4 * unit(1))
      else if unit(0) == 0x0300 then
        (if left < 4 then left + 1 else 4 + (unit(1) * (unit(2) + 0x1_0000 * unit(3)) + 1) % 0x1_0000_0000 / 2)
      else SizeFor(unit(0) % 256);
    if size > left then None else Some(size)
  }

  /** Some instruction from pc on, reached by walking, takes a payload. */
  predicate PayloadFrom(insns: seq<uint16>, pc: nat)
    decreases |insns| - pc
  {
    pc < |insns| && SizeAt(insns, pc).Some?
    && (TakesPayload(insns[pc] % 256) || PayloadFrom(insns, pc + SizeAt(insns, pc).value))
  }

  predicate HasPayload(insns: seq<uint16>) {
    PayloadFrom(insns, 0)
  }

  // ---- instructions by their formats

  /** Formats are named after the code units an instruction has and the registers it names. */
  datatype Format =
    | F10X | F12X | F11N | F11X | F10T | F20T | F22X | F21T | F21S | F21H | F21C | F23X | F22B | F22T | F22S | F22C
    | F32X | F30T | F31T | F31I | F31C | F35C | F3RC | F45CC | F4RCC | F51L

  function Units(f: Format): nat {
    match f
    case F10X => 1 case F12X => 1 case F11N => 1 case F11X => 1 case F10T => 1
    case F32X => 3 case F30T => 3 case F31T => 3 case F31I => 3 case F31C => 3 case F35C => 3 case F3RC => 3
    case F45CC => 4 case F4RCC => 4
    case F51L => 5
    case _ => 2
  }

  function FormatOf(op: nat): Format {
    if op <= 0x00 then F10X else if op <= 0x01 then F12X else if op <= 0x02 then F22X else
    if op <= 0x03 then F32X else if op <= 0x04 then F12X else if op <= 0x05 then F22X else
    if op <= 0x06 then F32X else if op <= 0x07 then F12X else if op <= 0x08 then F22X else
    if op <= 0x09 then F32X else if op <= 0x0d then F11X else if op <= 0x0e then F10X else
    if op <= 0x11 then F11X else if op <= 0x12 then F11N else if op <= 0x13 then F21S else
    if op <= 0x14 then F31I else if op <= 0x15 then F21H else if op <= 0x16 then F21S else
    if op <= 0x17 then F31I else if op <= 0x18 then F51L else if op <= 0x19 then F21H else
    if op <= 0x1a then F21C else if op <= 0x1b then F31C else if op <= 0x1c then F21C else
    if op <= 0x1e then F11X else if op <= 0x1f then F21C else if op <= 0x20 then F22C else
    if op <= 0x21 then F12X else if op <= 0x22 then F21C else if op <= 0x23 then F22C else
    if op <= 0x24 then F35C else if op <= 0x25 then F3RC else if op <= 0x26 then F31T else
    if op <= 0x27 then F11X else if op <= 0x28 then F10T else if op <= 0x29 then F20T else
    if op <= 0x2a then F30T else if op <= 0x2c then F31T else if op <= 0x31 then F23X else
    if op <= 0x37 then F22T else if op <= 0x3d then F21T else if op <= 0x43 then F10X else
    if op <= 0x51 then F23X else if op <= 0x5f then F22C else if op <= 0x6d then F21C else
    if op <= 0x72 then F35C else if op <= 0x73 then F10X else if op <= 0x78 then F3RC else
    if op <= 0x7a then F10X else if op <= 0x8f then F12X else if op <= 0xaf then F23X else
    if op <= 0xcf then F12X else if op <= 0xd7 then F22S else if op <= 0xe2 then F22B else
    if op <= 0xe8 then F22C else if op <= 0xe9 then F35C else if op <= 0xea then F3RC else
    if op <= 0xf2 then F22C else if op <= 0xf9 then F10X else if op <= 0xfa then F45CC else
    if op <= 0xfb then F4RCC else if op <= 0xfc then F35C else if op <= 0xfd then F3RC else F21C
  }

  lemma {:induction false} SizeIsByFormat(op: nat)
    requires op < 256
    ensures SizeFor(op) == Units(FormatOf(op))
  {
  }

  /** These are the code units of one whole instruction or payload. */
  predicate IsInstruction(p: seq<uint16>) {
    && p != []
    && if p[0] == 0x0100 then |p| >= 2 && |p| == 4 + 2 * p[1] as int
       else if p[0] == 0x0200 then |p| >= 2 && |p| == 2 + 4 * p[1] as int
       else if p[0] == 0x0300 then
         |p| >= 4 && |p| == 4 + ((p[1] * (p[2] + 0x1_0000 * p[3] as int)) as int + 1) % 0x1_0000_0000 / 2
       else |p| == Units(FormatOf(p[0] % 256))
  }

  lemma {:induction false} SizeIsWhole(insns: seq<uint16>, pc: nat, n: nat)
    requires pc < |insns| && n <= |insns| - pc
    ensures IsInstruction(insns[pc..pc + n]) <==> SizeAt(insns, pc) == Some(n)
  {
    hide FormatOf, Units, SizeFor;
    SizeIsByFormat(insns[pc] % 256);
    var p := insns[pc..pc + n];
    assert forall k :: 0 <= k < n ==> p[k] == insns[pc + k];
  }

  function Joined(parts: seq<seq<uint16>>): seq<uint16> {
    if parts == [] then [] else parts[0] + Joined(parts[1..])
  }

  /** The method begins with whole instructions of which the last takes a payload. */
  ghost predicate LeadsToPayload(insns: seq<uint16>, parts: seq<seq<uint16>>) {
    && parts != [] && (forall i :: 0 <= i < |parts| ==> IsInstruction(parts[i])) && Joined(parts) <= insns
    && parts[|parts| - 1][0] % 256 in {0x26, 0x2b, 0x2c}
  }

  lemma {:induction false} PayloadIsLedTo(insns: seq<uint16>, pc: nat) returns (parts: seq<seq<uint16>>)
    requires pc <= |insns| && PayloadFrom(insns, pc)
    ensures LeadsToPayload(insns[pc..], parts)
    decreases |insns| - pc
  {
    hide SizeAt, IsInstruction;
    var n := SizeAt(insns, pc).value;
    var p := insns[pc..pc + n];
    SizeIsWhole(insns, pc, n);
    assert insns[pc..] == p + insns[pc + n..];
    if TakesPayload(insns[pc] % 256) {
      parts := [p];
      assert Joined(parts[1..]) == [] && Joined(parts) == p + [];
    } else {
      var more := PayloadIsLedTo(insns, pc + n);
      parts := [p] + more;
      assert parts[1..] == more && parts[|parts| - 1] == more[|more| - 1];
    }
  }

  lemma {:induction false} InstructionIsThere(p: seq<uint16>)
    requires IsInstruction(p)
    ensures p != []
  {
  }

  lemma {:induction false} LedToPayload(insns: seq<uint16>, pc: nat, parts: seq<seq<uint16>>)
    requires pc <= |insns| && LeadsToPayload(insns[pc..], parts)
    ensures PayloadFrom(insns, pc)
    decreases |parts|
  {
    hide SizeAt, IsInstruction;
    var p, n := parts[0], |parts[0]|;
    InstructionIsThere(p);
    assert Joined(parts)[..n] == p && insns[pc..][..n] == p;
    assert insns[pc..pc + n] == p;
    SizeIsWhole(insns, pc, n);
    if !TakesPayload(insns[pc] % 256) {
      var more := parts[1..];
      assert parts[|parts| - 1] == more[|more| - 1];
      assert Joined(more) <= insns[pc + n..] by {
        assert Joined(parts)[n..] == Joined(more) && insns[pc..][n..] == insns[pc + n..];
      }
      LedToPayload(insns, pc + n, more);
    }
  }

  /** A method has a payload exactly when whole instructions lead from its start to one that takes it. */
  lemma {:induction false} PayloadIff(insns: seq<uint16>)
    ensures HasPayload(insns) <==> exists parts :: LeadsToPayload(insns, parts)
  {
    hide PayloadFrom, LeadsToPayload;
    assert insns[0..] == insns;
    if HasPayload(insns) {
      var parts := PayloadIsLedTo(insns, 0);
    }
    if parts :| LeadsToPayload(insns, parts) {
      LedToPayload(insns, 0, parts);
    }
  }

  /** The walk stops at the first such instruction, at the end, or where an instruction would go past it. */
  method FindPayload(insns: seq<uint16>) returns (found: bool)
    ensures found == HasPayload(insns) && (found <==> exists parts :: LeadsToPayload(insns, parts))
  {
    hide SizeAt, LeadsToPayload;
    PayloadIff(insns);
    var pc := 0;
    found := false;
    while pc < |insns|
      invariant pc <= |insns| && HasPayload(insns) == PayloadFrom(insns, pc)
    {
      var size := SizeAt(insns, pc);
      if size.None? {
        return false;
      }
      if TakesPayload(insns[pc] % 256) {
        return true;
      }
      pc := pc + size.value;
    }
  }
}
