/**
 The writer's random-access stream over a growable, zero-filling section.
 Writing is only allowed onto zero bytes; the section grows by half its size at a time.
 */
module Streams {
  import opened Leb128

  /** Storage after growing to `n` bytes. */
  function Grown(d: seq<byte>, n: nat): (r: seq<byte>)
    ensures |r| == if n > |d| then n else |d|
  {
    if n > |d| then d + Zeros(n - |d|) else d
  }

  function Overlay(d: seq<byte>, pos: nat, bytes: seq<byte>): (r: seq<byte>)
    requires pos + |bytes| <= |d|
    ensures |r| == |d|
  {
    d[..pos] + bytes + d[pos + |bytes|..]
  }

  /** Alignments in use are 1, 2, 4 and 8. */
  predicate IsAlignment(n: nat) {
    n == 1 || n == 2 || n == 4 || n == 8
  }

  predicate Aligned(x: nat, n: nat)
    requires IsAlignment(n)
  {
    if n == 1 then true else if n == 2 then x % 2 == 0 else if n == 4 then x % 4 == 0 else x % 8 == 0
  }

  function UpToFour(x: nat): (r: nat)
    ensures x <= r < x + 4 && r % 4 == 0 && (x % 4 == 0 <==> r == x)
  {
    4 * ((x + 3) / 4)
  }

  function UpToEight(x: nat): (r: nat)
    ensures x <= r < x + 8 && r % 8 == 0 && (x % 8 == 0 <==> r == x)
  {
    8 * ((x + 7) / 8)
  }

  function RoundUp(x: nat, n: nat): (r: nat)
    requires IsAlignment(n)
    ensures x <= r < x + n && Aligned(r, n)
    ensures Aligned(x, n) <==> r == x
  {
    if n == 1 then x else if n == 2 then (if x % 2 == 0 then x else x + 1) else if n == 4 then UpToFour(x)
        else UpToEight(x)
  }

  /** From `pos` on, the stream's storage (and the storage it has yet to grow) holds only zeros. */
  ghost predicate ZeroFrom(d: seq<byte>, pos: nat, n: nat) {
    forall i :: pos <= i < pos + n && i < |d| ==> d[i] == 0
  }

  lemma {:induction false} GrownTwice(d: seq<byte>, m: nat, n: nat)
    requires m <= n
    ensures Grown(Grown(d, m), n) == Grown(d, n)
  {
  }

  // ---- what a write leaves behind

  /** The stream holds what it held, grown, with `bytes` written at `pos`. */
  ghost predicate Has(d0: seq<byte>, d: seq<byte>, pos: nat, bytes: seq<byte>) {
    |d0| <= |d| && pos + |bytes| <= |d| && d == Overlay(Grown(d0, |d|), pos, bytes)
  }

  lemma {:induction false} HasMore(d0: seq<byte>, d1: seq<byte>, d2: seq<byte>, pos: nat, a: seq<byte>, b: seq<byte>)
    requires Has(d0, d1, pos, a) && Has(d1, d2, pos + |a|, b)
    ensures Has(d0, d2, pos, a + b)
  {
    hide Has;
    HasExtent(d0, d1, pos, a);
    HasExtent(d1, d2, pos + |a|, b);
    HasPointwise(d0, d1, pos, a);
    HasPointwise(d1, d2, pos + |a|, b);
    HasPointwise(d0, d2, pos, a + b);
  }

  lemma {:induction false} HasGrown(d0: seq<byte>, d1: seq<byte>, d2: seq<byte>, pos: nat, bytes: seq<byte>)
    requires Has(d0, d1, pos, bytes) && |d1| <= |d2| && d2 == Grown(d1, |d2|)
    ensures Has(d0, d2, pos, bytes)
  {
  }

  lemma {:induction false} HasSkipped(d0: seq<byte>, d1: seq<byte>, d2: seq<byte>, pos: nat, bytes: seq<byte>, n: nat)
    requires Has(d0, d1, pos, bytes) && |d1| <= |d2| && d2 == Grown(d1, |d2|) && pos + |bytes| + n <= |d2|
    requires ZeroFrom(d0, pos, |bytes| + n)
    ensures Has(d0, d2, pos, bytes + Zeros(n))
  {
    hide Has, Overlay, Grown;
    HasGrown(d0, d1, d2, pos, bytes);
    HasExtent(d0, d1, pos, bytes);
    HasPointwise(d0, d2, pos, bytes);
    HasPointwise(d0, d2, pos, bytes + Zeros(n));
  }

  lemma {:induction false} HasLeavesZero(d0: seq<byte>, d: seq<byte>, pos: nat, bytes: seq<byte>, n: nat)
    requires Has(d0, d, pos, bytes) && ZeroFrom(d0, pos, |bytes| + n)
    ensures ZeroFrom(d, pos + |bytes|, n)
  {
  }

  ghost function ByteAt(d0: seq<byte>, pos: nat, bytes: seq<byte>, i: nat): byte {
    if pos <= i < pos + |bytes| then bytes[i - pos] else if i < |d0| then d0[i] else 0
  }

  lemma {:induction false} HasPointwise(d0: seq<byte>, d: seq<byte>, pos: nat, bytes: seq<byte>)
    requires |d0| <= |d| && pos + |bytes| <= |d|
    ensures Has(d0, d, pos, bytes) <==> forall i :: 0 <= i < |d| ==> d[i] == ByteAt(d0, pos, bytes, i)
  {
    var w := Overlay(Grown(d0, |d|), pos, bytes);
    assert forall i :: 0 <= i < |d| ==> w[i] == ByteAt(d0, pos, bytes, i);
  }

  lemma {:induction false} HasExtent(d0: seq<byte>, d: seq<byte>, pos: nat, bytes: seq<byte>)
    requires Has(d0, d, pos, bytes)
    ensures |d0| <= |d| && pos + |bytes| <= |d|
  {
  }

  lemma {:induction false} LessZero(d: seq<byte>, pos: nat, m: nat, n: nat)
    requires m <= n && ZeroFrom(d, pos, n)
    ensures ZeroFrom(d, pos, m)
  {
  }

  lemma {:induction false} Padded(d0: seq<byte>, d1: seq<byte>, pos: nat, gap: nat, total: nat)
    requires |d0| <= |d1| && d1 == Grown(d0, |d1|) && pos + gap <= |d1| && gap <= total && ZeroFrom(d0, pos, total)
    ensures Has(d0, d1, pos, Zeros(gap)) && ZeroFrom(d1, pos + gap, total - gap)
  {
  }

  /** Clearing what was written restores the zeros that were there before. */
  lemma {:induction false} Cleared(d0: seq<byte>, d1: seq<byte>, d2: seq<byte>, pos: nat, bytes: seq<byte>)
    requires Has(d0, d1, pos, bytes) && |d1| <= |d2| && pos + |bytes| <= |d2|
    requires d2 == Overlay(Grown(d1, |d2|), pos, Zeros(|bytes|)) && ZeroFrom(d0, pos, |bytes|)
    ensures d2 == Grown(d0, |d2|)
  {
  }

  // ---- what can be read back

  ghost predicate ReadsAs(data: seq<byte>, pos: nat, bytes: seq<byte>) {
    pos + |bytes| <= |data| && data[pos..pos + |bytes|] == bytes
  }

  lemma {:induction false} ReadsThrough(d0: seq<byte>, d1: seq<byte>, pos: nat, bytes: seq<byte>, at: nat, s: seq<byte>)
    requires Has(d0, d1, pos, bytes) && ReadsAs(d0, at, s) && (at + |s| <= pos || pos + |bytes| <= at)
    ensures ReadsAs(d1, at, s)
  {
    hide Has;
    HasExtent(d0, d1, pos, bytes);
    HasPointwise(d0, d1, pos, bytes);
    forall i | at <= i < at + |s|
      ensures d1[i] == s[i - at]
    {
      assert d0[i] == d0[at..at + |s|][i - at];
    }
  }

  lemma {:induction false} ReadsTrimmed(data: seq<byte>, at: nat, s: seq<byte>, n: nat)
    requires ReadsAs(data, at, s) && at + |s| <= n <= |data|
    ensures ReadsAs(data[..n], at, s)
  {
    assert data[..n][at..at + |s|] == data[at..at + |s|];
  }

  /** Nothing has been written from here on. */
  ghost predicate BlankFrom(data: seq<byte>, pos: nat) {
    forall i :: pos <= i < |data| ==> data[i] == 0
  }

  lemma {:induction false} BlankAfter(d0: seq<byte>, d1: seq<byte>, pos: nat, bytes: seq<byte>)
    requires BlankFrom(d0, pos) && Has(d0, d1, pos, bytes)
    ensures BlankFrom(d1, pos + |bytes|)
  {
    hide Has;
    HasExtent(d0, d1, pos, bytes);
    HasPointwise(d0, d1, pos, bytes);
  }

  lemma {:induction false} BlankIsZero(data: seq<byte>, pos: nat, n: nat)
    requires BlankFrom(data, pos)
    ensures ZeroFrom(data, pos, n)
  {
  }

  lemma {:induction false} LaterIsBlank(data: seq<byte>, p: nat, q: nat)
    requires BlankFrom(data, p) && p <= q
    ensures BlankFrom(data, q)
  {
  }

  lemma {:induction false} GrownHas(d0: seq<byte>, d1: seq<byte>, pos: nat)
    requires |d0| <= |d1| && d1 == Grown(d0, |d1|) && pos <= |d1|
    ensures Has(d0, d1, pos, [])
  {
  }

  class Stream {
    var data: seq<byte>
    var position: nat

    ghost predicate Valid()
      reads this
    {
      position <= |data|
    }

    constructor (section: seq<byte>)
      ensures Valid() && data == section && position == 0
    {
      data := section;
      position := 0;
    }

    method EnsureStorage(length: nat)
      modifies `data
      ensures position + length <= |data| && |data| >= |old(data)| && data == Grown(old(data), |data|)
      ensures position + length <= |old(data)| ==> data == old(data)
    {
      var end := position + length;
      while end > |data|
        invariant |data| >= |old(data)| && data == Grown(old(data), |data|)
        invariant end <= |old(data)| ==> data == old(data)
        decreases end - |data|
      {
        var size := |data| * 3 / 2 + 1;
        data := data + Zeros(size - |data|);
      }
    }

    method Seek(pos: nat)
      modifies this
      ensures Valid() && position == pos && (pos <= |old(data)| ==> data == old(data))
      ensures |data| >= |old(data)| && data == Grown(old(data), |data|)
    {
      position := pos;
      EnsureStorage(0);
    }

    method AlignTo(alignment: nat)
      requires IsAlignment(alignment)
      modifies this
      ensures Valid() && position == RoundUp(old(position), alignment)
      ensures |data| >= |old(data)| && data == Grown(old(data), |data|)
    {
      position := RoundUp(position, alignment);
      EnsureStorage(0);
    }

    method Skip(count: nat)
      modifies this
      ensures Valid() && position == old(position) + count
      ensures |data| >= |old(data)| && data == Grown(old(data), |data|)
    {
      position := position + count;
      EnsureStorage(0);
    }

    /** The caller promises that nothing but zeros is overwritten. */
    method Write(buffer: seq<byte>)
      requires ZeroFrom(data, position, |buffer|)
      modifies this
      ensures Valid() && position == old(position) + |buffer|
      ensures Has(old(data), data, old(position), buffer)
    {
      EnsureStorage(|buffer|);
      data := Overlay(data, position, buffer);
      position := position + |buffer|;
    }

    method Overwrite(buffer: seq<byte>)
      modifies this
      ensures Valid() && position == old(position) + |buffer|
      ensures Has(old(data), data, old(position), buffer)
    {
      EnsureStorage(|buffer|);
      data := Overlay(data, position, buffer);
      position := position + |buffer|;
    }

    /** Clears a range that ends where the stream stands. */
    method Clear(pos: nat, length: nat)
      requires pos + length == position
      modifies `data
      ensures pos + length <= |data| && |data| >= |old(data)|
      ensures data == Overlay(Grown(old(data), |data|), pos, Zeros(length))
    {
      EnsureStorage(length);
      data := Overlay(data, pos, Zeros(length));
    }

    method WriteUleb128(value: uint32) returns (length: nat)
      modifies this
      ensures Valid() && length == |Uleb(value)| && position == old(position) + length
      ensures Has(old(data), data, old(position), Uleb(value))
    {
      EnsureStorage(8);
      var bytes := EncodeUnsignedLeb128(value);
      PowFive();
      UlebLength(value, 5);
      data := Overlay(data, position, bytes);
      length := |bytes|;
      position := position + length;
    }

    method WriteSleb128(value: int32) returns (length: nat)
      modifies this
      ensures Valid() && length == |Sleb(value)| && position == old(position) + length
      ensures Has(old(data), data, old(position), Sleb(value))
    {
      EnsureStorage(8);
      var bytes := EncodeSignedLeb128(value);
      PowFive();
      SlebLength(value, 5);
      data := Overlay(data, position, bytes);
      length := |bytes|;
      position := position + length;
    }
  }
}
