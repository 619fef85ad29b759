/**
 Measuring a debug info stream, which carries no length of its own, by walking over its opcodes.
 */
module DebugStreams {
  import opened Leb128

  // ---- the grammar

  /** One LEB128 number, signed or not, in any of its encodings: at most five bytes, each but the
      last with its top bit set. */
  predicate IsLeb(s: seq<byte>) {
    && 1 <= |s| <= 5 && (forall i :: 0 <= i < |s| - 1 ==> s[i] >= 0x80)
    && (|s| < 5 ==> s[|s| - 1] < 0x80)
  }

  const END_SEQUENCE: byte := 0x00
  const ADVANCE_LINE: byte := 0x02

  /** The instructions of a stream, with their numbers as they are encoded. */
  datatype DebugOp =
    | AdvancePc(difference: seq<byte>)
    | AdvanceLine(difference: seq<byte>)
    | StartLocal(register: seq<byte>, name: seq<byte>, type_: seq<byte>)
    | StartLocalExtended(register: seq<byte>, name: seq<byte>, type_: seq<byte>, signature: seq<byte>)
    | EndLocal(register: seq<byte>)
    | RestartLocal(register: seq<byte>)
    | SetPrologueEnd
    | SetEpilogueBegin
    | SetFile(name: seq<byte>)
    | Special(special: byte)

  const FIRST_SPECIAL: byte := 0x0a

  function Opcode(op: DebugOp): byte {
    match op
    case AdvancePc(_) => 0x01
    case AdvanceLine(_) => 0x02
    case StartLocal(_, _, _) => 0x03
    case StartLocalExtended(_, _, _, _) => 0x04
    case EndLocal(_) => 0x05
    case RestartLocal(_) => 0x06
    case SetPrologueEnd => 0x07
    case SetEpilogueBegin => 0x08
    case SetFile(_) => 0x09
    case Special(special) => special
  }

  function Operands(op: DebugOp): seq<seq<byte>> {
    match op
    case AdvancePc(difference) => [difference]
    case AdvanceLine(difference) => [difference]
    case StartLocal(register, name, type_) => [register, name, type_]
    case StartLocalExtended(register, name, type_, signature) => [register, name, type_, signature]
    case EndLocal(register) => [register]
    case RestartLocal(register) => [register]
    case SetFile(name) => [name]
    case _ => []
  }

  datatype DebugInfo = DebugInfo(lineStart: seq<byte>, count: seq<byte>, names: seq<seq<byte>>, ops: seq<DebugOp>)

  predicate AllLebs(lebs: seq<seq<byte>>) {
    forall i :: 0 <= i < |lebs| ==> IsLeb(lebs[i])
  }

  predicate WellFormedOp(op: DebugOp) {
    AllLebs(Operands(op)) && (op.Special? ==> op.special >= FIRST_SPECIAL)
  }

  predicate WellFormed(d: DebugInfo) {
    && IsLeb(d.lineStart) && IsLeb(d.count) && ReadUleb(d.count) == Ok(|d.names|, []) && AllLebs(d.names)
    && forall i :: 0 <= i < |d.ops| ==> WellFormedOp(d.ops[i])
  }

  function Concat(parts: seq<seq<byte>>): seq<byte> {
    if parts == [] then [] else parts[0] + Concat(parts[1..])
  }

  function EncodeOps(ops: seq<DebugOp>): seq<byte> {
    if ops == [] then [END_SEQUENCE] else [Opcode(ops[0])] + Concat(Operands(ops[0])) + EncodeOps(ops[1..])
  }

  function Encode(d: DebugInfo): seq<byte> {
    d.lineStart + d.count + Concat(d.names) + EncodeOps(d.ops)
  }

  // ---- what is left after reading

  /** How many numbers are read behind an opcode. */
  function Arity(opcode: byte): nat {
    match opcode
    case 0x01 => 1
    case 0x02 => 1
    case 0x03 => 3
    case 0x04 => 4
    case 0x05 => 1
    case 0x06 => 1
    case 0x09 => 1
    case _ => 0
  }

  lemma {:induction false} OpIsCounted(op: DebugOp)
    requires WellFormedOp(op)
    ensures Opcode(op) != END_SEQUENCE && |Operands(op)| == Arity(Opcode(op))
  {
    hide AllLebs;
  }

  lemma {:induction false} OpIsMade(opcode: byte, operands: seq<seq<byte>>) returns (op: DebugOp)
    requires opcode != END_SEQUENCE && |operands| == Arity(opcode)
    ensures Opcode(op) == opcode && Operands(op) == operands && (op.Special? ==> op.special >= FIRST_SPECIAL)
  {
    op := match opcode
      case 0x01 => AdvancePc(operands[0])
      case 0x02 => AdvanceLine(operands[0])
      case 0x03 => StartLocal(operands[0], operands[1], operands[2])
      case 0x04 => StartLocalExtended(operands[0], operands[1], operands[2], operands[3])
      case 0x05 => EndLocal(operands[0])
      case 0x06 => RestartLocal(operands[0])
      case 0x07 => SetPrologueEnd
      case 0x08 => SetEpilogueBegin
      case 0x09 => SetFile(operands[0])
      case _ => Special(opcode);
  }

  function AfterLeb(s: seq<byte>, k: nat): (r: Option<seq<byte>>)
    requires k > 0
    ensures r.Some? ==> |r.value| < |s|
  {
    if s == [] then None
    else if s[0] < 0x80 || k == 1 then Some(s[1..])
    else AfterLeb(s[1..], k - 1)
  }

  function AfterLebs(s: seq<byte>, n: nat): (r: Option<seq<byte>>)
    ensures r.Some? ==> |r.value| <= |s|
    decreases n
  {
    if n == 0 then Some(s)
    else match AfterLeb(s, 5) case None => None case Some(rest) => AfterLebs(rest, n - 1)
  }

  function AfterOps(s: seq<byte>): (r: Option<seq<byte>>)
    ensures r.Some? ==> |r.value| < |s|
    decreases |s|
  {
    if s == [] then None
    else if s[0] == END_SEQUENCE then Some(s[1..])
    else match AfterLebs(s[1..], Arity(s[0])) case None => None case Some(rest) => AfterOps(rest)
  }

  function AfterInfo(s: seq<byte>): (r: Option<seq<byte>>)
    ensures r.Some? ==> |r.value| < |s|
  {
    match AfterLeb(s, 5) case None => None case Some(s1) =>
      match ReadUleb(s1) case Bad => None case Ok(n, s2) =>
        match AfterLebs(s2, n) case None => None case Some(s3) => AfterOps(s3)
  }

  /** Both decoders stop after the same byte. */
  lemma {:induction false} UlebStops(s: seq<byte>, k: nat)
    requires k > 0
    ensures match UlebTail(s, k) case Bad => AfterLeb(s, k) == None case Ok(_, rest) => AfterLeb(s, k) == Some(rest)
  {
    if s != [] && s[0] >= 0x80 && k > 1 {
      UlebStops(s[1..], k - 1);
    }
  }

  lemma {:induction false} SlebStops(s: seq<byte>, k: nat)
    requires k > 0
    ensures match SlebTail(s, k) case Bad => AfterLeb(s, k) == None case Ok(_, rest) => AfterLeb(s, k) == Some(rest)
  {
    if s != [] && s[0] >= 0x80 && k > 1 {
      SlebStops(s[1..], k - 1);
    }
  }

  // ---- the measuring loop

  method SkipLebs(stream: seq<byte>, n: nat) returns (rest: Option<seq<byte>>)
    ensures rest == AfterLebs(stream, n)
  {
    hide UlebTail, AfterLeb;
    var s := stream;
    for i := 0 to n
      invariant AfterLebs(s, n - i) == AfterLebs(stream, n)
    {
      UlebStops(s, 5);
      match ReadUleb(s) {
        case Bad => return None;
        case Ok(_, more) => s := more;
      }
    }
    return Some(s);
  }

  method StreamSize(stream: seq<byte>) returns (size: Option<nat>)
    ensures size == match AfterInfo(stream) case None => None case Some(rest) => Some(|stream| - |rest|)
  {
    hide UlebTail, SlebTail, AfterLeb, AfterLebs;
    UlebStops(stream, 5);
    var lineStart := ReadUleb(stream);
    if lineStart.Bad? { return None; }
    var parameters := ReadUleb(lineStart.rest);
    if parameters.Bad? { return None; }
    var names := SkipLebs(parameters.rest, parameters.value);
    if names.None? { return None; }
    var s := names.value;
    while true
      invariant |s| <= |stream| && AfterOps(s) == AfterInfo(stream)
      decreases |s|
    {
      if s == [] { return None; }
      var opcode := s[0];
      s := s[1..];
      if opcode == END_SEQUENCE {
        return Some(|stream| - |s|);
      } else if opcode == ADVANCE_LINE {
        SlebStops(s, 5);
        OneLeb(s);
        match ReadSleb(s) {
          case Bad => return None;
          case Ok(_, more) => s := more;
        }
      } else {
        var more := SkipLebs(s, Arity(opcode));
        if more.None? { return None; }
        s := more.value;
      }
    }
  }

  lemma {:induction false} OneLeb(s: seq<byte>)
    ensures AfterLebs(s, 1) == AfterLeb(s, 5)
  {
    hide AfterLeb;
    if AfterLeb(s, 5).Some? {
      assert AfterLebs(AfterLeb(s, 5).value, 0) == AfterLeb(s, 5);
    }
  }

  // ---- encodings are measured in full

  lemma {:induction false} LebIsRead(s: seq<byte>, k: nat, suffix: seq<byte>)
    requires 1 <= |s| <= k && (forall i :: 0 <= i < |s| - 1 ==> s[i] >= 0x80) && (|s| < k ==> s[|s| - 1] < 0x80)
    ensures AfterLeb(s + suffix, k) == Some(suffix)
  {
    assert (s + suffix)[1..] == s[1..] + suffix;
    if |s| == 1 {
      assert s[1..] + suffix == suffix;
    } else {
      LebIsRead(s[1..], k - 1, suffix);
    }
  }

  lemma {:induction false} LebsAreRead(lebs: seq<seq<byte>>, suffix: seq<byte>)
    requires AllLebs(lebs)
    ensures AfterLebs(Concat(lebs) + suffix, |lebs|) == Some(suffix)
  {
    hide AfterLeb;
    if lebs == [] {
      assert Concat(lebs) + suffix == suffix;
    } else {
      LebsAreRead(lebs[1..], suffix);
      Associate(lebs[0], Concat(lebs[1..]), suffix);
      LebIsRead(lebs[0], 5, Concat(lebs[1..]) + suffix);
    }
  }

  lemma {:induction false} OpsAreRead(ops: seq<DebugOp>, suffix: seq<byte>)
    requires forall i :: 0 <= i < |ops| ==> WellFormedOp(ops[i])
    ensures AfterOps(EncodeOps(ops) + suffix) == Some(suffix)
  {
    hide AfterLebs, AllLebs, Concat, Arity, Operands, Opcode;
    var s := EncodeOps(ops) + suffix;
    if ops == [] {
      assert s[1..] == suffix;
    } else {
      var more := EncodeOps(ops[1..]) + suffix;
      OpsAreRead(ops[1..], suffix);
      assert WellFormedOp(ops[0]);
      OpIsCounted(ops[0]);
      LebsAreRead(Operands(ops[0]), more);
      assert s[1..] == Concat(Operands(ops[0])) + more;
    }
  }

  /** Where a number ends does not depend on what follows. */
  lemma {:induction false} CountIsRead(count: seq<byte>, n: nat, suffix: seq<byte>)
    requires ReadUleb(count) == Ok(n, [])
    ensures ReadUleb(count + suffix) == Ok(n, suffix)
  {
    UlebPrefix(count, 5, suffix);
  }

  lemma {:induction false} UlebPrefix(s: seq<byte>, k: nat, suffix: seq<byte>)
    requires k > 0 && UlebTail(s, k).Ok?
    ensures UlebTail(s + suffix, k) == Ok(UlebTail(s, k).value, UlebTail(s, k).rest + suffix)
  {
    assert (s + suffix)[1..] == s[1..] + suffix;
    if s[0] >= 0x80 && k > 1 {
      UlebPrefix(s[1..], k - 1, suffix);
    }
  }

  /** The measured size of any debug info is the length of its encoding, whatever lies behind it. */
  lemma {:induction false} InfoIsMeasured(d: DebugInfo, suffix: seq<byte>)
    requires WellFormed(d)
    ensures AfterInfo(Encode(d) + suffix) == Some(suffix)
  {
    hide AfterLeb, AfterLebs, AfterOps, Concat, EncodeOps, AllLebs;
    var ops := EncodeOps(d.ops) + suffix;
    var names := Concat(d.names) + ops;
    Associate(d.lineStart + d.count + Concat(d.names), EncodeOps(d.ops), suffix);
    Associate(d.lineStart + d.count, Concat(d.names), ops);
    Associate(d.lineStart, d.count, names);
    LebIsRead(d.lineStart, 5, d.count + names);
    CountIsRead(d.count, |d.names|, names);
    LebsAreRead(d.names, ops);
    OpsAreRead(d.ops, suffix);
  }

  // ---- and whatever is measured is an encoding

  lemma {:induction false} ReadIsLeb(s: seq<byte>, k: nat) returns (leb: seq<byte>)
    requires k > 0 && AfterLeb(s, k).Some?
    ensures 1 <= |leb| <= k && (forall i :: 0 <= i < |leb| - 1 ==> leb[i] >= 0x80)
        && (|leb| < k ==> leb[|leb| - 1] < 0x80)
    ensures s == leb + AfterLeb(s, k).value
  {
    if s[0] < 0x80 || k == 1 {
      leb := [s[0]];
    } else {
      var tail := ReadIsLeb(s[1..], k - 1);
      leb := [s[0]] + tail;
      Associate([s[0]], tail, AfterLeb(s, k).value);
    }
  }

  lemma {:induction false} ReadAreLebs(s: seq<byte>, n: nat) returns (lebs: seq<seq<byte>>)
    requires AfterLebs(s, n).Some?
    ensures |lebs| == n && AllLebs(lebs) && s == Concat(lebs) + AfterLebs(s, n).value
    decreases n
  {
    hide AfterLeb;
    if n == 0 {
      lebs := [];
    } else {
      var leb := ReadIsLeb(s, 5);
      var tail := ReadAreLebs(AfterLeb(s, 5).value, n - 1);
      lebs := [leb] + tail;
      assert lebs[1..] == tail;
      Associate(leb, Concat(tail), AfterLebs(s, n).value);
    }
  }

  lemma {:induction false} ReadAreOps(s: seq<byte>) returns (ops: seq<DebugOp>)
    requires AfterOps(s).Some?
    ensures (forall i :: 0 <= i < |ops| ==> WellFormedOp(ops[i])) && s == EncodeOps(ops) + AfterOps(s).value
    decreases |s|
  {
    hide AfterLebs, AllLebs, Concat, Arity, Operands, Opcode;
    if s[0] == END_SEQUENCE {
      ops := [];
    } else {
      var operands := ReadAreLebs(s[1..], Arity(s[0]));
      var rest := AfterLebs(s[1..], Arity(s[0])).value;
      var tail := ReadAreOps(rest);
      var op := OpIsMade(s[0], operands);
      ops := [op] + tail;
      assert ops[1..] == tail;
      assert s == [s[0]] + (Concat(operands) + rest);
      Associate([s[0]], Concat(operands), rest);
      Associate([s[0]] + Concat(operands), EncodeOps(tail), AfterOps(s).value);
    }
  }

  /** A stream is measured as n bytes exactly when its first n bytes encode some debug info. */
  lemma {:induction false} MeasuredIffEncoded(s: seq<byte>, n: nat)
    requires n <= |s|
    ensures AfterInfo(s) == Some(s[n..]) <==> exists d :: WellFormed(d) && Encode(d) == s[..n]
  {
    assert s == s[..n] + s[n..];
    if AfterInfo(s) == Some(s[n..]) {
      var d := ReadIsInfo(s);
      assert Encode(d) == s[..n] by {
        assert s[..n] + s[n..] == Encode(d) + s[n..];
        CancelSuffix(s[..n], Encode(d), s[n..]);
      }
    }
    if d :| WellFormed(d) && Encode(d) == s[..n] {
      InfoIsMeasured(d, s[n..]);
    }
  }

  lemma {:induction false} CancelSuffix(a: seq<byte>, b: seq<byte>, c: seq<byte>)
    requires a + c == b + c
    ensures a == b
  {
    assert |a| == |b|;
    assert a == (a + c)[..|a|] == (b + c)[..|b|] == b;
  }

  lemma {:induction false} ReadIsInfo(s: seq<byte>) returns (d: DebugInfo)
    requires AfterInfo(s).Some?
    ensures WellFormed(d) && s == Encode(d) + AfterInfo(s).value
  {
    hide AfterLeb, AfterLebs, AfterOps, Concat, EncodeOps, AllLebs, UlebTail, Encode;
    var lineStart := ReadIsLeb(s, 5);
    var s1 := AfterLeb(s, 5).value;
    UlebStops(s1, 5);
    var count := ReadIsLeb(s1, 5);
    var n, s2 := ReadUleb(s1).value, ReadUleb(s1).rest;
    var names := ReadAreLebs(s2, n);
    var s3 := AfterLebs(s2, n).value;
    var ops := ReadAreOps(s3);
    d := DebugInfo(lineStart, count, names, ops);
    CountAlone(count, n, s2);
    Reassemble(d, AfterOps(s3).value);
  }

  lemma {:induction false} CountAlone(count: seq<byte>, n: nat, suffix: seq<byte>)
    requires IsLeb(count) && ReadUleb(count + suffix) == Ok(n, suffix)
    ensures ReadUleb(count) == Ok(n, [])
  {
    hide UlebTail;
    LebIsRead(count, 5, []);
    assert count + [] == count;
    UlebStops(count, 5);
    UlebPrefix(count, 5, suffix);
  }

  lemma {:induction false} Reassemble(d: DebugInfo, rest: seq<byte>)
    ensures d.lineStart + (d.count + (Concat(d.names) + (EncodeOps(d.ops) + rest))) == Encode(d) + rest
  {
    hide Concat, EncodeOps;
    var names, ops := Concat(d.names), EncodeOps(d.ops);
    Associate(d.lineStart, d.count, names + (ops + rest));
    Associate(d.lineStart + d.count, names, ops + rest);
    Associate(d.lineStart + d.count + names, ops, rest);
  }

  /** So measuring the copied bytes again, on their own or before anything else, gives the same size. */
  lemma {:induction false} MeasuringAgain(s: seq<byte>, suffix: seq<byte>)
    requires AfterInfo(s).Some?
    ensures var n := |s| - |AfterInfo(s).value|; AfterInfo(s[..n] + suffix) == Some(suffix)
  {
    hide AfterInfo, Encode, WellFormed;
    var d := ReadIsInfo(s);
    var n := |s| - |AfterInfo(s).value|;
    assert s[..n] == Encode(d);
    InfoIsMeasured(d, suffix);
  }
}
