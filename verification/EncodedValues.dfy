/**
 The encoded_value codec: the writer's variable-width encoders and recursive value, array and
 annotation writers, and the reader that rebuilds the tree.
 Floating-point values are carried as their raw bits.
 */
module EncodedValues {
  import opened Leb128

  datatype Kind = MethodType | MethodHandle | String | Type | Field | Method | Enum

  datatype Value =
    | Byte(i: int)
    | Short(i: int)
    | Char(i: int)
    | Int(i: int)
    | Long(i: int)
    | Float(bits: nat)
    | Double(bits: nat)
    | Ref(kind: Kind, index: nat)
    | Array(values: seq<Value>)
    | Annotated(annotation: Annotation)
    | Null
    | Boolean(b: bool)
    | Unknown(tag: byte)

  datatype Annotation = Annotation(typeIndex: nat, elements: seq<Element>)

  datatype Element = Element(name: nat, value: Value)

  /** Sizes of the id tables that indices are checked against while reading. */
  datatype Tables = Tables(strings: nat, types: nat, protos: nat, fields: nat, methods: nat, handles: nat)

  function TableSize(t: Tables, k: Kind): nat {
    match k
    case MethodType => t.protos
    case MethodHandle => t.handles
    case String => t.strings
    case Type => t.types
    case Field => t.fields
    case Method => t.methods
    case Enum => t.fields
  }

  function KindTag(k: Kind): (b: byte)
    ensures 0x15 <= b <= 0x1b
  {
    match k
    case MethodType => 0x15
    case MethodHandle => 0x16
    case String => 0x17
    case Type => 0x18
    case Field => 0x19
    case Method => 0x1a
    case Enum => 0x1b
  }

  // ---- which trees can be written: every field in the range of its C++ type, every index in its table

  predicate FitsSigned(v: int, n: nat) {
    0 <= 2 * v + Pow8(n) && 2 * v < Pow8(n)
  }

  predicate WellFormed(t: Tables, v: Value)
    decreases v, 1
  {
    match v
    case Byte(i) => FitsSigned(i, 1)
    case Short(i) => FitsSigned(i, 2)
    case Char(i) => 0 <= i < Pow8(2)
    case Int(i) => FitsSigned(i, 4)
    case Long(i) => FitsSigned(i, 8)
    case Float(bits) => bits < Pow8(4)
    case Double(bits) => bits < Pow8(8)
    case Ref(k, index) => index < TableSize(t, k) && index < Pow8(4)
    case Array(values) => |values| < 0x1_0000_0000 && AllWellFormed(t, values)
    case Annotated(a) => WellFormedAnnotation(t, a)
    case Null => true
    case Boolean(_) => true
    case Unknown(_) => false
  }

  predicate AllWellFormed(t: Tables, vs: seq<Value>)
    decreases vs, 0
  {
    vs == [] || (WellFormed(t, vs[0]) && AllWellFormed(t, vs[1..]))
  }

  predicate WellFormedAnnotation(t: Tables, a: Annotation)
    decreases a, 0
  {
    a.typeIndex < t.types && a.typeIndex < 0x1_0000_0000
    && |a.elements| < 0x1_0000_0000 && AllWellFormedElements(t, a.elements)
  }

  predicate AllWellFormedElements(t: Tables, es: seq<Element>)
    decreases es, 0
  {
    es == [] || (WellFormedElement(t, es[0]) && AllWellFormedElements(t, es[1..]))
  }

  predicate WellFormedElement(t: Tables, e: Element)
    decreases e, 0
  {
    e.name < t.strings && e.name < 0x1_0000_0000 && WellFormed(t, e.value)
  }

  // ---- variable-width integers

  /** Little-endian two's complement in as few bytes as keep the sign. */
  function EncodeSigned(v: int): (s: seq<byte>)
    ensures |s| > 0
    decreases if v < 0 then -v else v
  {
    if -0x80 <= v <= 0x7f then [v % 0x100] else [v % 0x100] + EncodeSigned(v / 0x100)
  }

  function EncodeUnsigned(v: nat): (s: seq<byte>)
    ensures |s| > 0
  {
    if v / 0x100 == 0 then [v % 0x100] else [v % 0x100] + EncodeUnsigned(v / 0x100)
  }

  /** A `width`-byte number without its low-order zero bytes, keeping at least one byte. */
  function EncodeRight(v: nat, width: nat): (s: seq<byte>)
    requires width > 0
    ensures 0 < |s| <= width
  {
    if width > 1 && v % 0x100 == 0 then EncodeRight(v / 0x100, width - 1) else LeBytes(v, width)
  }

  function SignExtend(u: nat, n: nat): int {
    if 2 * u < Pow8(n) then u else u - Pow8(n)
  }

  /** Narrowing conversion to a signed type of `n` bytes. */
  function ToSigned(v: int, n: nat): int {
    SignExtend(v % Pow8(n), n)
  }

  lemma {:induction false} Pow8Even(n: nat)
    requires n > 0
    ensures Pow8(n) % 2 == 0 && Pow8(n) >= 0x100
  {
    assert Pow8(n) == 2 * (0x80 * Pow8(n - 1));
  }

  /** Prefixing a low byte commutes with sign extension. */
  lemma {:induction false} SignExtendStep(b: byte, u: nat, n: nat)
    requires n > 0
    ensures SignExtend(b + 0x100 * u, n + 1) == b + 0x100 * SignExtend(u, n)
  {
    Pow8Even(n);
  }

  lemma {:induction false} SignedRoundTrip(v: int)
    ensures SignExtend(LeValue(EncodeSigned(v)), |EncodeSigned(v)|) == v
    decreases if v < 0 then -v else v
  {
    var s := EncodeSigned(v);
    if -0x80 <= v <= 0x7f {
      assert s[1..] == [];
      assert Pow8(1) == 0x100 && LeValue(s) == s[0];
    } else {
      SignedRoundTrip(v / 0x100);
      assert s[1..] == EncodeSigned(v / 0x100);
      SignExtendStep(s[0], LeValue(s[1..]), |s| - 1);
    }
  }

  lemma {:induction false} FitsStep(v: int, n: nat)
    requires n > 1
    ensures FitsSigned(v, n) <==> FitsSigned(v / 0x100, n - 1)
  {
    hide Pow8;
    Pow8Even(n - 1);
    Pow8Step(n);
    WithinDividesBy256(v, Pow8(n - 1) / 2);
  }

  lemma {:induction false} Pow8Step(n: nat)
    requires n > 0
    ensures Pow8(n) == 0x100 * Pow8(n - 1)
  {
  }

  lemma {:induction false} WithinDividesBy256(v: int, h: nat)
    ensures 0 <= v + 0x100 * h && v < 0x100 * h <==> 0 <= v / 0x100 + h && v / 0x100 < h
  {
  }

  /** The length is the least one that holds the value. */
  lemma {:induction false} SignedLengthIsLeast(v: int, n: nat)
    requires n > 0
    ensures FitsSigned(v, n) <==> |EncodeSigned(v)| <= n
    decreases n
  {
    assert Pow8(1) == 0x100;
    if n > 1 {
      FitsStep(v, n);
      Pow8Even(n - 1);
      SignedLengthIsLeast(v / 0x100, n - 1);
    }
  }

  lemma {:induction false} UnsignedRoundTrip(v: nat)
    ensures LeValue(EncodeUnsigned(v)) == v
  {
    var s := EncodeUnsigned(v);
    if v / 0x100 == 0 {
      assert s[1..] == [];
    } else {
      UnsignedRoundTrip(v / 0x100);
      assert s[1..] == EncodeUnsigned(v / 0x100);
    }
  }

  lemma {:induction false} UnsignedLengthIsLeast(v: nat, n: nat)
    requires n > 0
    ensures v < Pow8(n) <==> |EncodeUnsigned(v)| <= n
    decreases n
  {
    assert Pow8(1) == 0x100;
    if n > 1 {
      assert Pow8(n) == 0x100 * Pow8(n - 1);
      UnsignedLengthIsLeast(v / 0x100, n - 1);
      assert v < Pow8(n) <==> v / 0x100 < Pow8(n - 1);
    }
  }

  lemma {:induction false} MulStep(u: int, p: int)
    ensures u * (0x100 * p) == 0x100 * (u * p)
  {
  }

  lemma {:induction false} RightRoundTrip(v: nat, width: nat)
    requires width > 0 && v < Pow8(width)
    ensures LeValue(EncodeRight(v, width)) * Pow8(width - |EncodeRight(v, width)|) == v
  {
    if width > 1 && v % 0x100 == 0 {
      RightRoundTrip(v / 0x100, width - 1);
      var s := EncodeRight(v, width);
      MulStep(LeValue(s), Pow8(width - 1 - |s|));
    } else {
      LeRoundTrip(v, width);
    }
  }

  // ---- bytes of a shifted number

  lemma {:induction false} MulAtLeast(d: int, k: int)
    requires d > 0 && k >= 1
    ensures d * k >= d
  {
  }

  lemma {:induction false} DivIsUnique(x: int, d: int, q: int, r: int)
    requires x == d * q + r && 0 <= r < d
    ensures x / d == q && x % d == r
  {
    var q', r' := x / d, x % d;
    assert x == d * q' + r';
    assert d * (q - q') == d * q - d * q' == r' - r;
    assert d * (q' - q) == d * q' - d * q == r - r';
    if q > q' {
      MulAtLeast(d, q - q');
    } else if q < q' {
      MulAtLeast(d, q' - q);
    }
  }

  lemma {:induction false} ModByteDigits(x: nat, p: nat)
    requires p > 0
    ensures x / (0x100 * p) == (x / 0x100) / p
    ensures x % (0x100 * p) == 0x100 * ((x / 0x100) % p) + x % 0x100
  {
    var a, b := (x / 0x100) / p, (x / 0x100) % p;
    assert x == 0x100 * (p * a + b) + x % 0x100;
    MulStep(a, p);
    assert (0x100 * p) * a == 0x100 * (p * a);
    DivIsUnique(x, 0x100 * p, a, 0x100 * b + x % 0x100);
  }

  lemma {:induction false} LeBytesTop(x: nat, n: nat)
    requires n > 0 && x < Pow8(n)
    ensures x / Pow8(n - 1) == LeBytes(x, n)[n - 1]
  {
    if n > 1 {
      LeBytesTop(x / 0x100, n - 1);
      ModByteDigits(x, Pow8(n - 2));
    }
  }

  lemma {:induction false} LeBytesDigit(y: nat, z: nat, b: byte, n: nat)
    requires y == 0x100 * z + b && n > 0
    ensures LeBytes(y, n) == [b] + LeBytes(z, n - 1)
  {
  }

  lemma {:induction false} LeBytesMod(x: nat, n: nat)
    ensures LeBytes(x % Pow8(n), n) == LeBytes(x, n)
  {
    if n > 0 {
      var p := Pow8(n - 1);
      ModByteDigits(x, p);
      var y, z := x % Pow8(n), (x / 0x100) % p;
      LeBytesDigit(y, z, x % 0x100, n);
      LeBytesMod(x / 0x100, n - 1);
    }
  }

  lemma {:induction false} LeBytesPrefix(x: nat, n: nat, m: nat)
    requires m <= n
    ensures LeBytes(x, n)[..m] == LeBytes(x, m)
  {
    if m > 0 {
      LeBytesPrefix(x / 0x100, n - 1, m - 1);
    }
  }

  /** Shifting an n-byte register left by one byte. */
  lemma {:induction false} LeBytesShift(x: nat, n: nat)
    requires n > 0
    ensures LeBytes((x * 0x100) % Pow8(n), n) == [0] + LeBytes(x, n)[..n - 1]
  {
    var p := Pow8(n - 1);
    ModByteDigits(x * 0x100, p);
    assert (x * 0x100) % Pow8(n) == 0x100 * (x % p);
    LeBytesMod(x, n - 1);
    LeBytesPrefix(x, n, n - 1);
  }

  lemma {:induction false} LeBytesZero(x: nat, n: nat)
    requires x < Pow8(n)
    ensures x == 0 <==> AllZero(LeBytes(x, n))
  {
    if n > 0 {
      LeBytesZero(x / 0x100, n - 1);
      var s := LeBytes(x, n);
      var t := LeBytes(x / 0x100, n - 1);
      assert s == [x % 0x100] + t;
      if AllZero(s) {
        assert s[0] == 0;
        assert forall i :: 0 <= i < |t| ==> t[i] == s[1..][i];
      }
    }
  }

  /** Dropping all low zero bytes but never the top byte. */
  lemma {:induction false} RightIsSuffix(v: nat, width: nat, length: nat)
    requires 0 < length <= width
    requires AllZero(LeBytes(v, width)[..width - length])
    requires length == 1 || LeBytes(v, width)[width - length] != 0
    ensures EncodeRight(v, width) == LeBytes(v, width)[width - length..]
  {
    var s := LeBytes(v, width);
    if width == length {
      assert s[0..] == s;
    } else {
      assert s[..width - length][0] == 0;
      var t := LeBytes(v / 0x100, width - 1);
      assert forall i :: 0 <= i < width - 1 - length ==> t[i] == s[..width - length][i + 1];
      RightIsSuffix(v / 0x100, width - 1, length);
      assert t[width - 1 - length..] == s[width - length..];
    }
  }

  // ---- the encoders' loops over the eight-byte scratch buffer

  /** The int and long encoders run the same loop on different widths. */
  method EncodeIntValue(value: int, buffer: array<byte>) returns (length: nat)
    requires buffer.Length == 8 && FitsSigned(value, 8)
    modifies buffer
    ensures 0 < length <= 8 && buffer[..length] == EncodeSigned(value)
  {
    SignedLengthIsLeast(value, 8);
    length := 0;
    var v := value;
    if v >= 0 {
      while v > 0x7f
        invariant length <= 8 && v >= 0
        invariant buffer[..length] + EncodeSigned(v) == EncodeSigned(value)
        decreases v
      {
        assert length + |EncodeSigned(v)| <= 8;
        length := PutByte(buffer, length, v % 0x100);
        v := v / 0x100;
      }
    } else {
      while v < -0x80
        invariant length <= 8 && v < 0
        invariant buffer[..length] + EncodeSigned(v) == EncodeSigned(value)
        decreases -v
      {
        assert length + |EncodeSigned(v)| <= 8;
        length := PutByte(buffer, length, v % 0x100);
        v := v / 0x100;
      }
    }
    assert length + |EncodeSigned(v)| <= 8;
    length := PutByte(buffer, length, v % 0x100);
  }

  method PutByte(buffer: array<byte>, length: nat, b: byte) returns (length': nat)
    requires length < buffer.Length
    modifies buffer
    ensures length' == length + 1 && buffer[..length'] == old(buffer[..length]) + [b]
    ensures buffer[length'..] == old(buffer[length'..])
  {
    buffer[length] := b;
    length' := length + 1;
  }

  method EncodeUIntValue(value: uint32, buffer: array<byte>) returns (length: nat)
    requires buffer.Length == 8
    modifies buffer
    ensures 0 < length <= 8 && buffer[..length] == EncodeUnsigned(value)
  {
    assert value < Pow8(4) by { assert Pow8(2) == 0x1_0000 && Pow8(4) == 0x1_0000_0000; }
    UnsignedLengthIsLeast(value, 4);
    length := 0;
    var v: nat := value;
    while true
      invariant length <= 8
      invariant buffer[..length] + EncodeUnsigned(v) == EncodeUnsigned(value)
      decreases v
    {
      assert length + |EncodeUnsigned(v)| <= 4;
      length := PutByte(buffer, length, v % 0x100);
      v := v / 0x100;
      if v == 0 { break; }
    }
  }

  /** The register without its top byte, shifted up by one byte. */
  function Shifted(register: nat, width: nat): (rest: nat)
    ensures rest < Pow8(width)
  {
    (register * 0x100) % Pow8(width)
  }

  function TopByte(register: nat, width: nat): byte
    requires 0 < width && register < Pow8(width)
  {
    TopIsByte(register, Pow8(width - 1));
    register / Pow8(width - 1)
  }

  lemma {:induction false} TopIsByte(v: nat, p: nat)
    requires p > 0 && v < 0x100 * p
    ensures 0 <= v / p < 0x100
  {
    DivIsUnique(v, p, v / p, v % p);
  }

  /** The float and double encoders fill the buffer downwards from its last byte, taking the
      top byte of what is left until only zero bits remain. */
  method EncodeFloatValue(bits: nat, width: nat, buffer: array<byte>) returns (length: nat)
    requires 0 < width <= 8 == buffer.Length && bits < Pow8(width)
    modifies buffer
    ensures 0 < length <= width && buffer[width - length..width] == EncodeRight(bits, width)
  {
    hide Pow8, LeBytes, EncodeRight, Shifted, TopByte, Zeros;
    ghost var all := LeBytes(bits, width);
    RegisterStart(all);
    var rest: nat := bits;
    length := 0;
    while true
      invariant length < width && rest < Pow8(width)
      invariant length > 0 ==> rest != 0
      invariant LeBytes(rest, width) == Zeros(length) + all[..width - length]
      invariant buffer[width - length..width] == all[width - length..]
      decreases width - length
    {
      RegisterStep(all, rest, length);
      buffer[width - 1 - length] := TopByte(rest, width);
      rest := Shifted(rest, width);
      length := length + 1;
      if rest == 0 { break; }
    }
    RightIsSuffix(bits, width, length);
  }

  lemma {:induction false} RegisterStart(all: seq<byte>)
    ensures all == Zeros(0) + all[..|all|]
  {
  }

  /** One turn of the loop above: the register holds the unread bytes, followed by zeros. */
  lemma {:induction false} RegisterStep(all: seq<byte>, before: nat, length: nat)
    requires length < |all| && before < Pow8(|all|)
    requires LeBytes(before, |all|) == Zeros(length) + all[..|all| - length]
    requires length > 0 ==> before != 0
    ensures TopByte(before, |all|) == all[|all| - 1 - length]
    ensures var rest := Shifted(before, |all|);
            var left := all[..|all| - length - 1];
            && LeBytes(rest, |all|) == Zeros(length + 1) + left
            && (rest == 0 <==> AllZero(left))
            && (rest == 0 && length > 0 ==> all[|all| - 1 - length] != 0)
  {
    var width, left := |all|, all[..|all| - length - 1];
    var reg, rest := LeBytes(before, width), Shifted(before, width);
    LeBytesTop(before, width);
    LeBytesShift(before, width);
    assert reg[..width - 1] == Zeros(length) + left;
    var now := LeBytes(rest, width);
    assert now == Zeros(length + 1) + left;
    LeBytesZero(rest, width);
    assert AllZero(now) <==> AllZero(left) by {
      assert forall i :: 0 <= i < |left| ==> left[i] == now[length + 1 + i];
    }
    if rest == 0 && length > 0 {
      LeBytesZero(before, width);
      KeptByteIsNonZero(reg, all, length);
    }
  }

  lemma {:induction false} KeptByteIsNonZero(reg: seq<byte>, all: seq<byte>, shift: nat)
    requires 0 < shift < |all| && reg == Zeros(shift) + all[..|all| - shift]
    requires !AllZero(reg) && AllZero(all[..|all| - shift - 1])
    ensures all[|all| - shift - 1] != 0
  {
    var i :| 0 <= i < |reg| && reg[i] != 0;
    assert i >= shift && reg[i] == all[i - shift];
    var low := all[..|all| - shift - 1];
    assert forall j :: 0 <= j < |low| ==> all[j] == low[j];
  }

  // ---- writing

  /** Type in the low five bits, payload length minus one in the high three. */
  function Tagged(tag: byte, payload: seq<byte>): (s: seq<byte>)
    requires tag < 0x20 && 0 < |payload| <= 8
  {
    [(|payload| - 1) * 0x20 + tag] + payload
  }

  function WriteValue(t: Tables, v: Value): (s: seq<byte>)
    requires WellFormed(t, v)
    decreases v, 1
  {
    PayloadFits(t, v);
    match v
    case Byte(i) => Tagged(0x00, EncodeSigned(i))
    case Short(i) => Tagged(0x02, EncodeSigned(i))
    case Char(i) => Tagged(0x03, EncodeUnsigned(i))
    case Int(i) => Tagged(0x04, EncodeSigned(i))
    case Long(i) => Tagged(0x06, EncodeSigned(i))
    case Float(bits) => Tagged(0x10, EncodeRight(bits, 4))
    case Double(bits) => Tagged(0x11, EncodeRight(bits, 8))
    case Ref(k, index) => Tagged(KindTag(k), EncodeUnsigned(index))
    case Array(values) => [0x1c] + WriteArray(t, values)
    case Annotated(a) => [0x1d] + WriteAnnotation(t, a)
    case Null => [0x1e]
    case Boolean(b) => [if b then 0x3f else 0x1f]
  }

  function WriteArray(t: Tables, vs: seq<Value>): seq<byte>
    requires |vs| < 0x1_0000_0000 && AllWellFormed(t, vs)
    decreases vs, 1
  {
    Uleb(|vs|) + WriteAll(t, vs)
  }

  function WriteAll(t: Tables, vs: seq<Value>): seq<byte>
    requires AllWellFormed(t, vs)
    decreases vs, 0
  {
    if vs == [] then [] else WriteValue(t, vs[0]) + WriteAll(t, vs[1..])
  }

  function WriteAnnotation(t: Tables, a: Annotation): seq<byte>
    requires WellFormedAnnotation(t, a)
    decreases a, 1
  {
    Uleb(a.typeIndex) + Uleb(|a.elements|) + WriteElements(t, a.elements)
  }

  function WriteElements(t: Tables, es: seq<Element>): seq<byte>
    requires AllWellFormedElements(t, es)
    decreases es, 0
  {
    if es == [] then [] else WriteElement(t, es[0]) + WriteElements(t, es[1..])
  }

  function WriteElement(t: Tables, e: Element): seq<byte>
    requires WellFormedElement(t, e)
    decreases e, 0
  {
    Uleb(e.name) + WriteValue(t, e.value)
  }

  /** No payload outgrows the three length bits, nor the width of its type. */
  lemma {:induction false} PayloadFits(t: Tables, v: Value)
    requires WellFormed(t, v)
    ensures (v.Byte? ==> |EncodeSigned(v.i)| <= 1) && (v.Short? ==> |EncodeSigned(v.i)| <= 2)
    ensures (v.Int? ==> |EncodeSigned(v.i)| <= 4) && (v.Long? ==> |EncodeSigned(v.i)| <= 8)
    ensures v.Char? ==> |EncodeUnsigned(v.i)| <= 2
    ensures v.Ref? ==> |EncodeUnsigned(v.index)| <= 4
  {
    match v {
      case Byte(i) => SignedLengthIsLeast(i, 1);
      case Short(i) => SignedLengthIsLeast(i, 2);
      case Int(i) => SignedLengthIsLeast(i, 4);
      case Long(i) => SignedLengthIsLeast(i, 8);
      case Char(i) => UnsignedLengthIsLeast(i, 2);
      case Ref(_, index) => UnsignedLengthIsLeast(index, 4);
      case _ =>
    }
  }

  // ---- reading

  /** `arg + 1` bytes, little-endian. */
  function ReadVarWidth(s: seq<byte>, arg: nat): (r: Parsed<nat>)
    ensures r.Ok? ==> |r.rest| < |s|
  {
    if |s| <= arg then Bad else Ok(LeValue(s[..arg + 1]), s[arg + 1..])
  }

  /** Sign extension from `arg + 1` bytes, then narrowing to `width` bytes. */
  function ReadSigned(s: seq<byte>, arg: nat, width: nat): (r: Parsed<int>)
    ensures r.Ok? ==> |r.rest| < |s|
  {
    match ReadVarWidth(s, arg)
    case Bad => Bad
    case Ok(u, rest) => Ok(ToSigned(SignExtend(u, arg + 1), width), rest)
  }

  /** Fills the value up with low-order zero bytes. */
  function ReadRight(s: seq<byte>, arg: nat, width: nat): (r: Parsed<nat>)
    ensures r.Ok? ==> |r.rest| < |s|
  {
    if arg >= width then Bad else
    match ReadVarWidth(s, arg)
    case Bad => Bad
    case Ok(u, rest) => Ok((u % Pow8(width)) * Pow8(width - 1 - arg) % Pow8(width), rest)
  }

  function ReadIndex(s: seq<byte>, arg: nat, size: nat): (r: Parsed<nat>)
    ensures r.Ok? ==> |r.rest| < |s|
  {
    match ReadVarWidth(s, arg)
    case Bad => Bad
    case Ok(u, rest) => if u % Pow8(4) < size then Ok(u % Pow8(4), rest) else Bad
  }

  function ReadRef(t: Tables, s: seq<byte>, arg: nat, kind: Kind): (r: Parsed<Value>)
    ensures r.Ok? ==> |r.rest| < |s|
  {
    match ReadIndex(s, arg, TableSize(t, kind))
    case Bad => Bad
    case Ok(index, rest) => Ok(Ref(kind, index), rest)
  }

  function ReadValue(t: Tables, s: seq<byte>): (r: Parsed<Value>)
    ensures r.Ok? ==> |r.rest| < |s|
    decreases |s|, 0
  {
    if s == [] then Bad else ReadPayload(t, s[1..], s[0] % 0x20, s[0] / 0x20)
  }

  function ReadPayload(t: Tables, s: seq<byte>, tag: nat, arg: nat): (r: Parsed<Value>)
    requires tag < 0x20
    ensures r.Ok? ==> |r.rest| <= |s|
    decreases |s|, 2
  {
    match tag
    case 0x00 => (match ReadVarWidth(s, arg) case Bad => Bad case Ok(u, rest) => Ok(Byte(ToSigned(u, 1)), rest))
    case 0x02 => (match ReadSigned(s, arg, 2) case Bad => Bad case Ok(i, rest) => Ok(Short(i), rest))
    case 0x03 => (match ReadVarWidth(s, arg) case Bad => Bad case Ok(u, rest) => Ok(Char(u % Pow8(2)), rest))
    case 0x04 => (match ReadSigned(s, arg, 4) case Bad => Bad case Ok(i, rest) => Ok(Int(i), rest))
    case 0x06 => (match ReadSigned(s, arg, 8) case Bad => Bad case Ok(i, rest) => Ok(Long(i), rest))
    case 0x10 => (match ReadRight(s, arg, 4) case Bad => Bad case Ok(bits, rest) => Ok(Float(bits), rest))
    case 0x11 => (match ReadRight(s, arg, 8) case Bad => Bad case Ok(bits, rest) => Ok(Double(bits), rest))
    case 0x15 => ReadRef(t, s, arg, MethodType)
    case 0x16 => ReadRef(t, s, arg, MethodHandle)
    case 0x17 => ReadRef(t, s, arg, String)
    case 0x18 => ReadRef(t, s, arg, Type)
    case 0x19 => ReadRef(t, s, arg, Field)
    case 0x1a => ReadRef(t, s, arg, Method)
    case 0x1b => ReadRef(t, s, arg, Enum)
    case 0x1c => (match ReadArray(t, s) case Bad => Bad case Ok(vs, rest) => Ok(Array(vs), rest))
    case 0x1d => (match ReadAnnotation(t, s) case Bad => Bad case Ok(a, rest) => Ok(Annotated(a), rest))
    case 0x1e => Ok(Null, s)
    case 0x1f => Ok(Boolean(arg != 0), s)
    case _ => Ok(Unknown(tag), s)
  }

  function ReadArray(t: Tables, s: seq<byte>): (r: Parsed<seq<Value>>)
    ensures r.Ok? ==> |r.rest| < |s|
    decreases |s|, 1
  {
    match ReadUleb(s)
    case Bad => Bad
    case Ok(n, rest) => ReadAll(t, n, rest)
  }

  function ReadAll(t: Tables, n: nat, s: seq<byte>): (r: Parsed<seq<Value>>)
    ensures r.Ok? ==> |r.rest| <= |s|
    decreases |s|, 1
  {
    if n == 0 then Ok([], s) else
    match ReadValue(t, s)
    case Bad => Bad
    case Ok(v, rest) =>
      match ReadAll(t, n - 1, rest)
      case Bad => Bad
      case Ok(vs, rest') => Ok([v] + vs, rest')
  }

  function ReadAnnotation(t: Tables, s: seq<byte>): (r: Parsed<Annotation>)
    ensures r.Ok? ==> |r.rest| < |s|
    decreases |s|, 1
  {
    match ReadUleb(s)
    case Bad => Bad
    case Ok(typeIndex, rest) =>
      match ReadUleb(rest)
      case Bad => Bad
      case Ok(n, rest') =>
        match ReadElements(t, n, rest')
        case Bad => Bad
        case Ok(es, rest'') => if typeIndex < t.types then Ok(Annotation(typeIndex, es), rest'') else Bad
  }

  function ReadElements(t: Tables, n: nat, s: seq<byte>): (r: Parsed<seq<Element>>)
    ensures r.Ok? ==> |r.rest| <= |s|
    decreases |s|, 1
  {
    if n == 0 then Ok([], s) else
    match ReadElement(t, s)
    case Bad => Bad
    case Ok(e, rest) =>
      match ReadElements(t, n - 1, rest)
      case Bad => Bad
      case Ok(es, rest') => Ok([e] + es, rest')
  }

  function ReadElement(t: Tables, s: seq<byte>): (r: Parsed<Element>)
    ensures r.Ok? ==> |r.rest| < |s|
    decreases |s|, 0
  {
    match ReadUleb(s)
    case Bad => Bad
    case Ok(name, rest) =>
      match ReadValue(t, rest)
      case Bad => Bad
      case Ok(v, rest') => if name < t.strings then Ok(Element(name, v), rest') else Bad
  }

  // ---- reading undoes writing

  lemma {:induction false} ReadTagged(t: Tables, tag: byte, payload: seq<byte>, suffix: seq<byte>)
    requires tag < 0x20 && 0 < |payload| <= 8
    ensures ReadValue(t, Tagged(tag, payload) + suffix) == ReadPayload(t, payload + suffix, tag, |payload| - 1)
    ensures ReadVarWidth(payload + suffix, |payload| - 1) == Ok(LeValue(payload), suffix)
  {
    hide ReadPayload, LeValue;
    var s := Tagged(tag, payload) + suffix;
    assert s[1..] == payload + suffix;
    assert (payload + suffix)[..|payload|] == payload && (payload + suffix)[|payload|..] == suffix;
  }

  lemma {:induction false} ToSignedFits(v: int, n: nat)
    requires FitsSigned(v, n)
    ensures ToSigned(v, n) == v
  {
    if v >= 0 {
      DivIsUnique(v, Pow8(n), 0, v);
    } else {
      DivIsUnique(v, Pow8(n), -1, v + Pow8(n));
    }
  }

  lemma {:induction false} ReadSignedBack(v: int, width: nat, suffix: seq<byte>)
    requires FitsSigned(v, width)
    ensures ReadSigned(EncodeSigned(v) + suffix, |EncodeSigned(v)| - 1, width) == Ok(v, suffix)
  {
    var p := EncodeSigned(v);
    assert (p + suffix)[..|p|] == p && (p + suffix)[|p|..] == suffix;
    SignedRoundTrip(v);
    ToSignedFits(v, width);
  }

  lemma {:induction false} ReadRightBack(v: nat, width: nat, suffix: seq<byte>)
    requires width > 0 && v < Pow8(width)
    ensures ReadRight(EncodeRight(v, width) + suffix, |EncodeRight(v, width)| - 1, width) == Ok(v, suffix)
  {
    var p := EncodeRight(v, width);
    assert (p + suffix)[..|p|] == p && (p + suffix)[|p|..] == suffix;
    RightRoundTrip(v, width);
    LeValueBound(p);
    Pow8Monotone(|p|, width);
    DivIsUnique(LeValue(p), Pow8(width), 0, LeValue(p));
    DivIsUnique(v, Pow8(width), 0, v);
  }

  lemma {:induction false} Pow8Monotone(m: nat, n: nat)
    requires m <= n
    ensures Pow8(m) <= Pow8(n)
  {
    if m < n {
      Pow8Monotone(m, n - 1);
    }
  }

  lemma {:induction false} ReadUnsignedBack(v: nat, width: nat)
    requires v < Pow8(width)
    ensures LeValue(EncodeUnsigned(v)) % Pow8(width) == v
  {
    UnsignedRoundTrip(v);
    DivIsUnique(v, Pow8(width), 0, v);
  }

  lemma {:induction false} RefRoundTrip(t: Tables, k: Kind, index: nat, suffix: seq<byte>)
    requires WellFormed(t, Ref(k, index))
    ensures ReadValue(t, WriteValue(t, Ref(k, index)) + suffix) == Ok(Ref(k, index), suffix)
  {
    PayloadFits(t, Ref(k, index));
    var p := EncodeUnsigned(index);
    ReadTagged(t, KindTag(k), p, suffix);
    ReadUnsignedBack(index, 4);
    assert ReadRef(t, p + suffix, |p| - 1, k) == Ok(Ref(k, index), suffix);
    match k {
      case MethodType =>
      case MethodHandle =>
      case String =>
      case Type =>
      case Field =>
      case Method =>
      case Enum =>
    }
  }

  lemma {:induction false} NumberRoundTrip(t: Tables, v: Value, suffix: seq<byte>)
    requires WellFormed(t, v)
    requires v.Byte? || v.Short? || v.Int? || v.Long? || v.Char? || v.Float? || v.Double?
    ensures ReadValue(t, WriteValue(t, v) + suffix) == Ok(v, suffix)
  {
    hide Pow8, EncodeSigned, EncodeUnsigned, EncodeRight, LeValue;
    PayloadFits(t, v);
    match v {
      case Byte(i) =>
        ReadTagged(t, 0x00, EncodeSigned(i), suffix);
        SignedRoundTrip(i);
        ByteIsOneByte(i);
      case Short(i) =>
        ReadTagged(t, 0x02, EncodeSigned(i), suffix);
        ReadSignedBack(i, 2, suffix);
      case Int(i) =>
        ReadTagged(t, 0x04, EncodeSigned(i), suffix);
        ReadSignedBack(i, 4, suffix);
      case Long(i) =>
        ReadTagged(t, 0x06, EncodeSigned(i), suffix);
        ReadSignedBack(i, 8, suffix);
      case Char(i) =>
        ReadTagged(t, 0x03, EncodeUnsigned(i), suffix);
        ReadUnsignedBack(i, 2);
      case Float(bits) =>
        ReadTagged(t, 0x10, EncodeRight(bits, 4), suffix);
        ReadRightBack(bits, 4, suffix);
      case Double(bits) =>
        ReadTagged(t, 0x11, EncodeRight(bits, 8), suffix);
        ReadRightBack(bits, 8, suffix);
    }
  }

  /** A byte is read without sign extension; one byte is all it ever needs. */
  lemma {:induction false} ByteIsOneByte(i: int)
    requires FitsSigned(i, 1)
    ensures ToSigned(LeValue(EncodeSigned(i)), 1) == i
  {
    assert Pow8(1) == 0x100;
    assert LeValue([i % 0x100]) == i % 0x100;
  }

  lemma {:induction false} ReadByTag(t: Tables, header: byte, body: seq<byte>, suffix: seq<byte>)
    ensures ReadValue(t, [header] + body + suffix) == ReadPayload(t, body + suffix, header % 0x20, header / 0x20)
    ensures body == [] ==> [header] + body == [header] && body + suffix == suffix
  {
    assert ([header] + body + suffix)[1..] == body + suffix;
  }

  lemma {:induction false} ArrayIsTagged(t: Tables, vs: seq<Value>, suffix: seq<byte>)
    requires WellFormed(t, Array(vs)) && ReadArray(t, WriteArray(t, vs) + suffix) == Ok(vs, suffix)
    ensures ReadValue(t, WriteValue(t, Array(vs)) + suffix) == Ok(Array(vs), suffix)
  {
    hide ReadArray, WriteArray;
    ReadByTag(t, 0x1c, WriteArray(t, vs), suffix);
  }

  lemma {:induction false} AnnotationIsTagged(t: Tables, a: Annotation, suffix: seq<byte>)
    requires WellFormed(t, Annotated(a)) && ReadAnnotation(t, WriteAnnotation(t, a) + suffix) == Ok(a, suffix)
    ensures ReadValue(t, WriteValue(t, Annotated(a)) + suffix) == Ok(Annotated(a), suffix)
  {
    hide ReadAnnotation, WriteAnnotation;
    ReadByTag(t, 0x1d, WriteAnnotation(t, a), suffix);
  }

  lemma {:induction false} TagSaysAll(t: Tables, v: Value, suffix: seq<byte>)
    requires WellFormed(t, v) && (v.Null? || v.Boolean?)
    ensures ReadValue(t, WriteValue(t, v) + suffix) == Ok(v, suffix)
  {
    hide ReadArray, ReadAnnotation, ReadRef, ReadSigned, ReadRight, ReadVarWidth, WriteArray, WriteAnnotation, Tagged;
    var header := WriteValue(t, v)[0];
    assert WriteValue(t, v) == [header] + [];
    ReadByTag(t, header, [], suffix);
  }

  /** Every well-formed tree, followed by anything, reads back as itself and leaves the rest. */
  lemma {:induction false} ValueRoundTrip(t: Tables, v: Value, suffix: seq<byte>)
    requires WellFormed(t, v)
    ensures ReadValue(t, WriteValue(t, v) + suffix) == Ok(v, suffix)
    decreases v, 2
  {
    hide WriteValue, ReadValue, WriteArray, WriteAnnotation, ReadArray, ReadAnnotation;
    match v {
      case Ref(k, index) =>
        RefRoundTrip(t, k, index, suffix);
      case Array(values) =>
        ArrayRoundTrip(t, values, suffix);
        ArrayIsTagged(t, values, suffix);
      case Annotated(a) =>
        AnnotationRoundTrip(t, a, suffix);
        AnnotationIsTagged(t, a, suffix);
      case Null =>
        TagSaysAll(t, v, suffix);
      case Boolean(_) =>
        TagSaysAll(t, v, suffix);
      case _ =>
        NumberRoundTrip(t, v, suffix);
    }
  }

  lemma {:induction false} ArrayRoundTrip(t: Tables, vs: seq<Value>, suffix: seq<byte>)
    requires |vs| < 0x1_0000_0000 && AllWellFormed(t, vs)
    ensures ReadArray(t, WriteArray(t, vs) + suffix) == Ok(vs, suffix)
    decreases vs, 1
  {
    assert WriteArray(t, vs) + suffix == Uleb(|vs|) + (WriteAll(t, vs) + suffix);
    UlebRoundTrip(|vs|, WriteAll(t, vs) + suffix);
    AllRoundTrip(t, vs, suffix);
  }

  lemma {:induction false} AllRoundTrip(t: Tables, vs: seq<Value>, suffix: seq<byte>)
    requires AllWellFormed(t, vs)
    ensures ReadAll(t, |vs|, WriteAll(t, vs) + suffix) == Ok(vs, suffix)
    decreases vs, 0
  {
    if vs == [] {
      assert WriteAll(t, vs) + suffix == suffix;
    } else {
      var tail := WriteAll(t, vs[1..]) + suffix;
      assert WriteAll(t, vs) + suffix == WriteValue(t, vs[0]) + tail;
      ValueRoundTrip(t, vs[0], tail);
      AllRoundTrip(t, vs[1..], suffix);
      assert vs == [vs[0]] + vs[1..];
    }
  }

  lemma {:induction false} AnnotationRoundTrip(t: Tables, a: Annotation, suffix: seq<byte>)
    requires WellFormedAnnotation(t, a)
    ensures ReadAnnotation(t, WriteAnnotation(t, a) + suffix) == Ok(a, suffix)
    decreases a, 1
  {
    var tail := WriteElements(t, a.elements) + suffix;
    assert WriteAnnotation(t, a) + suffix == Uleb(a.typeIndex) + (Uleb(|a.elements|) + tail);
    UlebRoundTrip(a.typeIndex, Uleb(|a.elements|) + tail);
    UlebRoundTrip(|a.elements|, tail);
    ElementsRoundTrip(t, a.elements, suffix);
  }

  lemma {:induction false} ElementsRoundTrip(t: Tables, es: seq<Element>, suffix: seq<byte>)
    requires AllWellFormedElements(t, es)
    ensures ReadElements(t, |es|, WriteElements(t, es) + suffix) == Ok(es, suffix)
    decreases es, 0
  {
    if es == [] {
      assert WriteElements(t, es) + suffix == suffix;
    } else {
      var tail := WriteElements(t, es[1..]) + suffix;
      assert WriteElements(t, es) + suffix == WriteElement(t, es[0]) + tail;
      ElementRoundTrip(t, es[0], tail);
      ElementsRoundTrip(t, es[1..], suffix);
      assert es == [es[0]] + es[1..];
    }
  }

  lemma {:induction false} ElementRoundTrip(t: Tables, e: Element, suffix: seq<byte>)
    requires WellFormedElement(t, e)
    ensures ReadElement(t, WriteElement(t, e) + suffix) == Ok(e, suffix)
    decreases e, 0
  {
    assert WriteElement(t, e) + suffix == Uleb(e.name) + (WriteValue(t, e.value) + suffix);
    UlebRoundTrip(e.name, WriteValue(t, e.value) + suffix);
    ValueRoundTrip(t, e.value, suffix);
  }

  /** The code is prefix-free: no tree's bytes begin another tree's bytes. */
  lemma {:induction false} ValuesArePrefixFree(t: Tables, v: Value, w: Value)
    requires WellFormed(t, v) && WellFormed(t, w)
    requires WriteValue(t, v) <= WriteValue(t, w)
    ensures v == w
  {
    hide WellFormed, WriteValue, ReadValue;
    var a, b := WriteValue(t, v), WriteValue(t, w);
    assert b == a + b[|a|..] && b == b + [];
    ValueRoundTrip(t, v, b[|a|..]);
    ValueRoundTrip(t, w, []);
  }

  // ---- what is read lies in the tables

  /** Every index in the value, at any depth, is one of a string, type, prototype, field, method or handle
      that there is. */
  predicate InTables(t: Tables, v: Value)
    decreases v, 1
  {
    match v
    case Ref(MethodType, i) => i < t.protos
    case Ref(MethodHandle, i) => i < t.handles
    case Ref(String, i) => i < t.strings
    case Ref(Type, i) => i < t.types
    case Ref(Field, i) => i < t.fields
    case Ref(Method, i) => i < t.methods
    case Ref(Enum, i) => i < t.fields
    case Array(values) => AllInTables(t, values)
    case Annotated(a) => AnnotationInTables(t, a)
    case _ => true
  }

  predicate AllInTables(t: Tables, vs: seq<Value>)
    decreases vs, 0
  {
    vs == [] || (InTables(t, vs[0]) && AllInTables(t, vs[1..]))
  }

  predicate AnnotationInTables(t: Tables, a: Annotation)
    decreases a, 0
  {
    a.typeIndex < t.types && ElementsInTables(t, a.elements)
  }

  predicate ElementsInTables(t: Tables, es: seq<Element>)
    decreases es, 0
  {
    es == [] || (ElementInTables(t, es[0]) && ElementsInTables(t, es[1..]))
  }

  predicate ElementInTables(t: Tables, e: Element)
    decreases e, 0
  {
    e.name < t.strings && InTables(t, e.value)
  }

  lemma {:induction false} RefIsInTable(t: Tables, s: seq<byte>, arg: nat, kind: Kind)
    ensures ReadRef(t, s, arg, kind).Ok? ==> InTables(t, ReadRef(t, s, arg, kind).value)
  {
    hide ReadVarWidth, Pow8;
  }

  lemma {:induction false} PayloadIsInTables(t: Tables, s: seq<byte>, tag: nat, arg: nat)
    requires tag < 0x20
    ensures ReadPayload(t, s, tag, arg).Ok? ==> InTables(t, ReadPayload(t, s, tag, arg).value)
    decreases |s|, 2
  {
    hide ReadRef, ReadVarWidth, ReadSigned, ReadRight, ReadArray, ReadAnnotation, Pow8, ToSigned;
    match tag {
      case 0x15 => RefIsInTable(t, s, arg, MethodType);
      case 0x16 => RefIsInTable(t, s, arg, MethodHandle);
      case 0x17 => RefIsInTable(t, s, arg, String);
      case 0x18 => RefIsInTable(t, s, arg, Type);
      case 0x19 => RefIsInTable(t, s, arg, Field);
      case 0x1a => RefIsInTable(t, s, arg, Method);
      case 0x1b => RefIsInTable(t, s, arg, Enum);
      case 0x1c => ArrayIsInTables(t, s);
      case 0x1d => AnnotationIsInTables(t, s);
      case _ =>
    }
  }

  /** Whatever the bytes, what is read from them refers to nothing that is not there. */
  lemma {:induction false} ReadIsInTables(t: Tables, s: seq<byte>)
    ensures ReadValue(t, s).Ok? ==> InTables(t, ReadValue(t, s).value)
    decreases |s|, 0
  {
    hide ReadPayload, InTables;
    if s != [] {
      PayloadIsInTables(t, s[1..], s[0] % 0x20, s[0] / 0x20);
    }
  }

  lemma {:induction false} ArrayIsInTables(t: Tables, s: seq<byte>)
    ensures ReadArray(t, s).Ok? ==> AllInTables(t, ReadArray(t, s).value)
    decreases |s|, 1
  {
    hide ReadAll, AllInTables, ReadUleb;
    match ReadUleb(s) {
      case Bad =>
      case Ok(n, rest) => AllAreInTables(t, n, rest);
    }
  }

  lemma {:induction false} AllAreInTables(t: Tables, n: nat, s: seq<byte>)
    ensures ReadAll(t, n, s).Ok? ==> AllInTables(t, ReadAll(t, n, s).value)
    decreases |s|, 1
  {
    hide ReadValue, InTables;
    if n > 0 {
      ReadIsInTables(t, s);
      match ReadValue(t, s) {
        case Bad =>
        case Ok(v, rest) => AllAreInTables(t, n - 1, rest);
      }
    }
  }

  lemma {:induction false} AnnotationIsInTables(t: Tables, s: seq<byte>)
    ensures ReadAnnotation(t, s).Ok? ==> AnnotationInTables(t, ReadAnnotation(t, s).value)
    decreases |s|, 1
  {
    hide ReadElements, ElementsInTables, ReadUleb;
    match ReadUleb(s) {
      case Bad =>
      case Ok(_, rest) =>
        match ReadUleb(rest) {
          case Bad =>
          case Ok(n, more) => ElementsAreInTables(t, n, more);
        }
    }
  }

  lemma {:induction false} ElementsAreInTables(t: Tables, n: nat, s: seq<byte>)
    ensures ReadElements(t, n, s).Ok? ==> ElementsInTables(t, ReadElements(t, n, s).value)
    decreases |s|, 1
  {
    hide ReadElement, ElementInTables;
    if n > 0 {
      ElementIsInTables(t, s);
      match ReadElement(t, s) {
        case Bad =>
        case Ok(e, rest) => ElementsAreInTables(t, n - 1, rest);
      }
    }
  }

  lemma {:induction false} ElementIsInTables(t: Tables, s: seq<byte>)
    ensures ReadElement(t, s).Ok? ==> ElementInTables(t, ReadElement(t, s).value)
    decreases |s|, 0
  {
    hide ReadValue, InTables, ReadUleb;
    match ReadUleb(s) {
      case Bad =>
      case Ok(_, rest) => ReadIsInTables(t, rest);
    }
  }
}
