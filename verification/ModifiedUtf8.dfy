/**
 The length of a string in UTF-16, counted in its modified UTF-8 bytes.
 */
module ModifiedUtf8 {
  import opened Leb128
  import opened DexIr

  /** A code unit of UTF-16, or a code point beyond 16 bits, which takes two. */
  datatype Char = Unit(unit: uint16) | Beyond(codePoint: nat)

  predicate IsChar(c: Char) {
    c.Beyond? ==> 0x1_0000 <= c.codePoint < 0x11_0000
  }

  /** Zero is written as two bytes, so that a string can end with a zero byte. */
  function CharBytes(c: Char): (s: seq<byte>)
    requires IsChar(c)
  {
    match c
    case Unit(u) =>
      if 0 < u < 0x80 then [u]
      else if u < 0x800 then [0xc0 + u / 0x40, 0x80 + u % 0x40]
      else [0xe0 + u / 0x1000, 0x80 + u / 0x40 % 0x40, 0x80 + u % 0x40]
    case Beyond(p) => [0xf0 + p / 0x4_0000, 0x80 + p / 0x1000 % 0x40, 0x80 + p / 0x40 % 0x40, 0x80 + p % 0x40]
  }

  function Bytes(text: seq<Char>): seq<byte>
    requires forall i :: 0 <= i < |text| ==> IsChar(text[i])
  {
    if text == [] then [] else CharBytes(text[0]) + Bytes(text[1..])
  }

  function Utf16Length(text: seq<Char>): nat {
    if text == [] then 0 else (if text[0].Beyond? then 2 else 1) + Utf16Length(text[1..])
  }

  /** The first byte of a character says how many bytes and code units it has. */
  lemma {:induction false} CharIsCounted(c: Char, rest: seq<byte>)
    requires IsChar(c)
    ensures 0 !in CharBytes(c)
    ensures CountChars(CharBytes(c) + rest) == (if c.Beyond? then 2 else 1) + CountChars(rest)
  {
    var s := CharBytes(c);
    assert (s + rest)[|s|..] == rest;
    match c
    case Unit(u) =>
      if !(0 < u < 0x80) {
        LeadByte(u);
      }
    case Beyond(p) =>
      assert s[0] == 0xf0 + p / 0x4_0000 <= 0xf4;
  }

  lemma {:induction false} LeadByte(u: uint16)
    ensures u < 0x800 ==> ((0xc0 + u / 0x40) / 0x20) % 2 == 0
    ensures u >= 0x800 ==> ((0xe0 + u / 0x1000) / 0x20) % 2 == 1 && ((0xe0 + u / 0x1000) / 0x10) % 2 == 0
  {
  }

  /** Counted in its bytes, a string has as many characters as it has code units in UTF-16, and none of its
      bytes is zero. */
  lemma {:induction false} CharsAreCounted(text: seq<Char>)
    requires forall i :: 0 <= i < |text| ==> IsChar(text[i])
    ensures CountChars(Bytes(text)) == Utf16Length(text) && 0 !in Bytes(text)
  {
    hide CountChars, CharBytes, IsChar;
    if text == [] {
      NothingIsCounted();
    } else {
      CharIsCounted(text[0], Bytes(text[1..]));
      CharsAreCounted(text[1..]);
    }
  }

  lemma {:induction false} NothingIsCounted()
    ensures CountChars([]) == 0
  {
  }
}
