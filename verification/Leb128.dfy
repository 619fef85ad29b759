/**
 Bytes, little-endian integers and the LEB128 codecs the DEX writer and reader share.
 The decoders follow the source in tolerating non-canonical input: at most five bytes are
 read, the fifth contributes all of its bits, and the result is reduced to 32 bits.
 */
module Leb128 {
  type byte = x: int | 0 <= x < 0x100
  type uint16 = x: int | 0 <= x < 0x1_0000
  type uint32 = x: int | 0 <= x < 0x1_0000_0000
  type uint64 = x: int | 0 <= x < 0x1_0000_0000_0000_0000
  type int32 = x: int | -0x8000_0000 <= x < 0x8000_0000

  function Zeros(n: nat): (s: seq<byte>)
    ensures |s| == n && AllZero(s)
  {
    seq(n, i => 0)
  }

  ghost predicate AllZero(s: seq<byte>) {
    forall i :: 0 <= i < |s| ==> s[i] == 0
  }

  ghost predicate IsSuffix(t: seq<byte>, s: seq<byte>) {
    |t| <= |s| && t == s[|s| - |t|..]
  }

  lemma {:induction false} SuffixOfSuffix(u: seq<byte>, t: seq<byte>, s: seq<byte>)
    requires IsSuffix(u, t) && IsSuffix(t, s)
    ensures IsSuffix(u, s)
  {
    assert forall i :: 0 <= i < |u| ==> u[i] == t[|t| - |u| + i] == s[|s| - |u| + i];
  }

  lemma {:induction false} SubSlice(s: seq<byte>, lo: nat, hi: nat, a: nat, b: nat)
    requires a <= b && lo + b <= hi <= |s|
    ensures s[lo..hi][a..b] == s[lo + a..lo + b]
  {
    assert forall i :: 0 <= i < b - a ==> s[lo..hi][a..b][i] == s[lo + a..lo + b][i];
  }

  lemma {:induction false} SliceOfFront(s: seq<byte>, t: seq<byte>, a: nat, b: nat)
    requires a <= b <= |s|
    ensures (s + t)[a..b] == s[a..b]
  {
  }

  lemma {:induction false} SliceInBack(s: seq<byte>, t: seq<byte>, a: nat, b: nat)
    requires a <= b <= |t|
    ensures (s + t)[|s| + a..|s| + b] == t[a..b]
  {
  }

  lemma {:induction false} SliceOfBack(s: seq<byte>, t: seq<byte>)
    ensures (s + t)[|s|..|s| + |t|] == t
  {
  }

  lemma {:induction false} Associate(a: seq<byte>, b: seq<byte>, c: seq<byte>)
    ensures a + b + c == a + (b + c)
  {
  }

  datatype Option<+T> = None | Some(value: T)

  /** The outcome of reading a value off the front of a byte string. */
  datatype Parsed<+T> = Ok(value: T, rest: seq<byte>) | Bad

  /** 2^(7n), the range of an n-digit LEB128 number. */
  function Pow7(n: nat): (p: nat)
    ensures p > 0
  {
    if n == 0 then 1 else 0x80 * Pow7(n - 1)
  }

  /** 2^(8n), the range of an n-byte number. */
  function Pow8(n: nat): (p: nat)
    ensures p > 0
  {
    if n == 0 then 1 else 0x100 * Pow8(n - 1)
  }

  // ---- little-endian integers

  function LeBytes(v: nat, n: nat): (s: seq<byte>)
    ensures |s| == n
  {
    if n == 0 then [] else [v % 0x100] + LeBytes(v / 0x100, n - 1)
  }

  function LeValue(s: seq<byte>): nat
  {
    if s == [] then 0 else s[0] + 0x100 * LeValue(s[1..])
  }

  /** The digits of a number are the bytes it was read from. */
  lemma LowDigit(d: byte, v: nat)
    ensures (d + 0x100 * v) % 0x100 == d && (d + 0x100 * v) / 0x100 == v
  {
  }

  lemma {:induction false} LeDigits(s: seq<byte>)
    ensures LeValue(s) < Pow8(|s|) && LeBytes(LeValue(s), |s|) == s
  {
    if s != [] {
      LeDigits(s[1..]);
      var v := LeValue(s[1..]);
      LowDigit(s[0], v);
      assert LeBytes(LeValue(s), |s|) == [s[0]] + s[1..];
    }
  }

  lemma {:induction false} LeRoundTrip(v: nat, n: nat)
    requires v < Pow8(n)
    ensures LeValue(LeBytes(v, n)) == v
  {
    if n > 0 {
      assert v < 0x100 * Pow8(n - 1);
      LeRoundTrip(v / 0x100, n - 1);
      assert LeBytes(v, n)[1..] == LeBytes(v / 0x100, n - 1);
    }
  }

  lemma {:induction false} WordRoundTrip(v: nat)
    requires v < 0x1_0000_0000
    ensures LeValue(LeBytes(v, 4)) == v
  {
    assert Pow8(2) == 0x1_0000 && Pow8(4) == 0x1_0000_0000;
    LeRoundTrip(v, 4);
  }

  /** An array of little-endian words. */
  function Words(values: seq<nat>): (s: seq<byte>)
    ensures |s| == 4 * |values|
  {
    if values == [] then [] else LeBytes(values[0], 4) + Words(values[1..])
  }

  lemma {:induction false} WordsAt(values: seq<nat>, b: nat)
    requires b < |values|
    ensures Words(values)[4 * b..4 * b + 4] == LeBytes(values[b], 4)
  {
    hide LeBytes;
    var first, rest := LeBytes(values[0], 4), Words(values[1..]);
    if b == 0 {
      SliceOfFront(first, rest, 0, 4);
    } else {
      WordsAt(values[1..], b - 1);
      SliceInBack(first, rest, 4 * (b - 1), 4 * (b - 1) + 4);
    }
  }

  lemma {:induction false} LeValueBound(s: seq<byte>)
    ensures LeValue(s) < Pow8(|s|)
  {
    if s != [] {
      LeValueBound(s[1..]);
    }
  }

  // ---- unsigned LEB128

  function Uleb(v: nat): (s: seq<byte>)
    ensures |s| > 0
  {
    if v < 0x80 then [v] else [v % 0x80 + 0x80] + Uleb(v / 0x80)
  }

  /** Reads at most `k` bytes; when the last of them is reached all its bits count. */
  function UlebTail(s: seq<byte>, k: nat): (r: Parsed<nat>)
    requires k > 0
    ensures r.Ok? ==> IsSuffix(r.rest, s) && |r.rest| < |s|
  {
    if s == [] then Bad
    else if k == 1 || s[0] < 0x80 then Ok(s[0], s[1..])
    else
      match UlebTail(s[1..], k - 1)
      case Bad => Bad
      case Ok(v, rest) => Ok(s[0] - 0x80 + 0x80 * v, rest)
  }

  function ReadUleb(s: seq<byte>): (r: Parsed<uint32>)
    ensures r.Ok? ==> IsSuffix(r.rest, s) && |r.rest| < |s|
  {
    match UlebTail(s, 5)
    case Bad => Bad
    case Ok(v, rest) => Ok(v % 0x1_0000_0000, rest)
  }

  lemma {:induction false} UlebTailRoundTrip(v: nat, k: nat, suffix: seq<byte>)
    requires k > 0 && v < Pow7(k)
    ensures UlebTail(Uleb(v) + suffix, k) == Ok(v, suffix)
  {
    var s := Uleb(v) + suffix;
    if v < 0x80 {
      assert s[1..] == suffix;
    } else {
      assert v < 0x80 * Pow7(k - 1);
      assert s[1..] == Uleb(v / 0x80) + suffix;
      UlebTailRoundTrip(v / 0x80, k - 1, suffix);
    }
  }

  lemma {:induction false} UlebRoundTrip(v: uint32, suffix: seq<byte>)
    ensures ReadUleb(Uleb(v) + suffix) == Ok(v, suffix)
  {
    hide Uleb, UlebTail;
    PowFive();
    UlebTailRoundTrip(v, 5, suffix);
  }

  lemma {:induction false} PowFive()
    ensures Pow7(5) == 0x8_0000_0000
    ensures Pow7(4) == 0x1000_0000
  {
    assert Pow7(1) == 0x80 * Pow7(0);
    assert Pow7(2) == 0x4000;
    assert Pow7(3) == 0x20_0000;
    assert Pow7(4) == 0x1000_0000;
  }

  /** A 32-bit value never takes more than five bytes. */
  lemma {:induction false} UlebLength(v: nat, k: nat)
    requires k > 0 && v < Pow7(k)
    ensures |Uleb(v)| <= k
  {
    if v >= 0x80 {
      assert v < 0x80 * Pow7(k - 1);
      UlebLength(v / 0x80, k - 1);
    }
  }

  /** No encoding of a value, canonical or not, is shorter than the canonical one. */
  lemma {:induction false} UlebShortest(s: seq<byte>)
    ensures ReadUleb(s).Ok? ==> |Uleb(ReadUleb(s).value)| <= |s| - |ReadUleb(s).rest|
  {
    hide UlebTail, Uleb, IsSuffix;
    var r := UlebTail(s, 5);
    if r.Ok? {
      var c := |s| - |r.rest|;
      UlebTailRange(s, 5);
      PowFive();
      if c < 5 {
        assert Pow7(c) <= Pow7(4) by { Pow7Monotone(c, 4); }
        UlebLength(r.value, c);
      } else {
        UlebLength(ReadUleb(s).value, 5);
      }
    }
  }

  lemma {:induction false} UlebTailRange(s: seq<byte>, k: nat)
    requires k > 0
    ensures var r := UlebTail(s, k);
            r.Ok? ==> |s| - |r.rest| <= k && (|s| - |r.rest| < k ==> r.value < Pow7(|s| - |r.rest|))
  {
    if s != [] && k > 1 && s[0] >= 0x80 {
      UlebTailRange(s[1..], k - 1);
    }
  }

  lemma {:induction false} Pow7Monotone(m: nat, n: nat)
    requires m <= n
    ensures Pow7(m) <= Pow7(n)
  {
    if m < n {
      Pow7Monotone(m, n - 1);
    }
  }

  /** The encoder's loop: emit seven bits at a time, low bits first. */
  method EncodeUnsignedLeb128(value: uint32) returns (dest: seq<byte>)
    ensures dest == Uleb(value)
  {
    dest := [];
    var out: byte := value % 0x80;
    var rest := value / 0x80;
    ghost var left: nat := value;
    while rest != 0
      invariant rest == left / 0x80 && out == left % 0x80
      invariant dest + Uleb(left) == Uleb(value)
      decreases rest
    {
      dest := dest + [out + 0x80];
      assert Uleb(left) == [out + 0x80] + Uleb(left / 0x80);
      left := left / 0x80;
      out := rest % 0x80;
      rest := rest / 0x80;
    }
    dest := dest + [out];
  }

  // ---- signed LEB128

  function Sleb(v: int): (s: seq<byte>)
    ensures |s| > 0
    decreases if v < 0 then -v else v
  {
    if -0x40 <= v < 0x40 then [v % 0x80] else [v % 0x80 + 0x80] + Sleb(v / 0x80)
  }

  function SignExtend7(b: int): int {
    if b < 0x40 then b else b - 0x80
  }

  function SlebTail(s: seq<byte>, k: nat): (r: Parsed<int>)
    requires k > 0
    ensures r.Ok? ==> IsSuffix(r.rest, s) && |r.rest| < |s|
  {
    if s == [] then Bad
    else if k == 1 then Ok(s[0], s[1..])
    else if s[0] < 0x80 then Ok(SignExtend7(s[0]), s[1..])
    else
      match SlebTail(s[1..], k - 1)
      case Bad => Bad
      case Ok(v, rest) => Ok(s[0] - 0x80 + 0x80 * v, rest)
  }

  /** Two's complement reduction to 32 bits. */
  function ToInt32(v: int): (r: int32)
  {
    var u := v % 0x1_0000_0000;
    if u < 0x8000_0000 then u else u - 0x1_0000_0000
  }

  function ReadSleb(s: seq<byte>): (r: Parsed<int32>)
    ensures r.Ok? ==> IsSuffix(r.rest, s) && |r.rest| < |s|
  {
    match SlebTail(s, 5)
    case Bad => Bad
    case Ok(v, rest) => Ok(ToInt32(v), rest)
  }

  lemma {:induction false} SlebDigitBound(v: int, k: nat)
    requires k > 0 && 0 <= 2 * v + Pow7(k) && 2 * v < Pow7(k) && !(-0x40 <= v < 0x40)
    ensures k > 1 && 0 <= 2 * (v / 0x80) + Pow7(k - 1) && 2 * (v / 0x80) < Pow7(k - 1)
  {
    if k > 1 {
      PowEven(k - 1);
      WithinDividesBy128(v, Pow7(k - 1) / 2);
    }
  }

  lemma {:induction false} WithinDividesBy128(v: int, h: nat)
    requires 0 <= v + 0x80 * h && v < 0x80 * h
    ensures 0 <= v / 0x80 + h && v / 0x80 < h
  {
  }

  /** Decoding is exact, except that a negative number that fills all `k` digits comes back
      2^(7k) too large, which the reduction to 32 bits removes. */
  lemma {:induction false} SlebTailRoundTrip(v: int, k: nat, suffix: seq<byte>)
    requires k > 0 && 0 <= 2 * v + Pow7(k) && 2 * v < Pow7(k)
    ensures SlebTail(Sleb(v) + suffix, k) in {Ok(v, suffix), Ok(v + Pow7(k), suffix)}
    decreases k
  {
    hide IsSuffix;
    var s := Sleb(v) + suffix;
    if -0x40 <= v < 0x40 {
      assert s[1..] == suffix;
      assert k == 1 ==> Pow7(k) == 0x80;
    } else {
      SlebDigitBound(v, k);
      assert s[1..] == Sleb(v / 0x80) + suffix;
      SlebTailRoundTrip(v / 0x80, k - 1, suffix);
    }
  }

  lemma {:induction false} PowEven(k: nat)
    requires k > 0
    ensures Pow7(k) % 2 == 0
  {
    var p := Pow7(k - 1);
    assert Pow7(k) == 2 * (0x40 * p);
  }

  lemma {:induction false} SlebRoundTrip(v: int32, suffix: seq<byte>)
    ensures ReadSleb(Sleb(v) + suffix) == Ok(v, suffix)
  {
    hide Sleb, SlebTail;
    PowFive();
    SlebTailRoundTrip(v, 5, suffix);
  }

  lemma {:induction false} SlebLength(v: int, k: nat)
    requires k > 0 && 0 <= 2 * v + Pow7(k) && 2 * v < Pow7(k)
    ensures |Sleb(v)| <= k
    decreases k
  {
    if !(-0x40 <= v < 0x40) {
      SlebDigitBound(v, k);
      SlebLength(v / 0x80, k - 1);
    }
  }

  lemma {:induction false} SlebShortest(s: seq<byte>)
    ensures ReadSleb(s).Ok? ==> |Sleb(ReadSleb(s).value)| <= |s| - |ReadSleb(s).rest|
  {
    hide SlebTail, Sleb, IsSuffix;
    var r := SlebTail(s, 5);
    if r.Ok? {
      var c := |s| - |r.rest|;
      SlebTailRange(s, 5);
      PowFive();
      if c < 5 {
        assert Pow7(c) <= Pow7(4) by { Pow7Monotone(c, 4); }
        SlebLength(r.value, c);
      } else {
        SlebLength(ReadSleb(s).value, 5);
      }
    }
  }

  lemma {:induction false} DigitKeepsBound(v: int, h: nat, digit: nat)
    requires 0 <= v + h && v < h && digit < 0x80
    ensures 0 <= digit + 0x80 * v + 0x80 * h && digit + 0x80 * v < 0x80 * h
  {
  }

  lemma {:induction false} SlebTailRange(s: seq<byte>, k: nat)
    requires k > 0
    ensures var r := SlebTail(s, k);
            r.Ok? ==> var c := |s| - |r.rest|;
                      c <= k && (c < k ==> 0 <= 2 * r.value + Pow7(c) && 2 * r.value < Pow7(c))
  {
    if s != [] && k > 1 {
      if s[0] >= 0x80 {
        SlebTailRange(s[1..], k - 1);
        var r := SlebTail(s[1..], k - 1);
        if r.Ok? {
          var c := |s| - 1 - |r.rest|;
          PowEven(c);
          if c < k - 1 {
            DigitKeepsBound(r.value, Pow7(c) / 2, s[0] - 0x80);
          }
        }
      } else {
        assert Pow7(1) == 0x80;
      }
    }
  }

  /** The encoder's loop, driven by the magnitude bits that remain beyond the sign bit. */
  method EncodeSignedLeb128(value: int32) returns (dest: seq<byte>)
    ensures dest == Sleb(value)
  {
    dest := [];
    var v: int := value;
    var extraBits: int := (if v < 0 then -v - 1 else v) / 0x40;
    while extraBits != 0
      invariant extraBits == (if v < 0 then -v - 1 else v) / 0x40
      invariant dest + Sleb(v) == Sleb(value)
      decreases extraBits
    {
      dest := dest + [v % 0x80 + 0x80];
      assert Sleb(v) == [v % 0x80 + 0x80] + Sleb(v / 0x80);
      v := v / 0x80;
      extraBits := extraBits / 0x80;
    }
    dest := dest + [v % 0x80];
  }

  // ---- differences in unsigned 32-bit arithmetic

  function Delta(value: nat, previous: nat): uint32 {
    (value - previous) % 0x1_0000_0000
  }

  function Sum(previous: uint32, delta: uint32): uint32 {
    (previous + delta) % 0x1_0000_0000
  }

  lemma {:induction false} DeltaAddsUp(value: uint32, previous: uint32)
    ensures Sum(previous, Delta(value, previous)) == value
  {
  }
}
