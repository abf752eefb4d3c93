/**
 * Byte-level vocabulary of the serial protocol: bytes, Python's
 * `int.from_bytes`/`int.to_bytes`, MSB-first bit packing (`numpy.unpackbits`)
 * and Python's forgiving slice semantics.
 */
module Bytes {
  import opened Wrappers

  /** An unsigned 8-bit value, as held by `bytes` and `bytearray`. */
  type byte = x: int | 0 <= x < 256

  predicate IsByte(x: int) { 0 <= x < 256 }

  function Pow2(k: nat): (r: nat)
    ensures r >= 1
  {
    if k == 0 then 1 else 2 * Pow2(k - 1)
  }

  function Pow256(k: nat): (r: nat)
    ensures r >= 1
  {
    if k == 0 then 1 else 256 * Pow256(k - 1)
  }

  /** `int.from_bytes(s, byteorder='little', signed=False)`; the empty sequence gives 0. */
  function FromLittleEndian(s: seq<byte>): (r: nat)
    ensures r < Pow256(|s|)
  {
    if s == [] then 0 else s[0] + 256 * FromLittleEndian(s[1..])
  }

  /** `int.from_bytes(s, byteorder='big')`. */
  function FromBigEndian(s: seq<byte>): (r: nat)
    ensures r < Pow256(|s|)
  {
    if s == [] then 0 else FromBigEndian(s[..|s| - 1]) * 256 + s[|s| - 1]
  }

  /** `v.to_bytes(2, 'big')` for a value that fits in two bytes. */
  function ToBigEndian2(v: int): (r: seq<byte>)
    requires 0 <= v < 65536
    ensures |r| == 2 && FromBigEndian(r) == v
  {
    var r: seq<byte> := [v / 256, v % 256];
    assert r[..1] == [v / 256];
    r
  }

  /** The 4-byte little-endian encoding of `v` (the panel's size fields). */
  function ToLittleEndian(v: nat, width: nat): (r: seq<byte>)
    ensures |r| == width
  {
    if width == 0 then [] else [v % 256] + ToLittleEndian(v / 256, width - 1)
  }

  lemma {:induction false} LittleEndianRoundTrip(v: nat, width: nat)
    requires v < Pow256(width)
    ensures FromLittleEndian(ToLittleEndian(v, width)) == v
  {
    if width > 0 {
      var r := ToLittleEndian(v, width);
      assert r[1..] == ToLittleEndian(v / 256, width - 1);
      LittleEndianRoundTrip(v / 256, width - 1);
    }
  }

  /** Python's `s[lo:hi]` for non-negative bounds: never fails, clips at the end. */
  function Slice<T>(s: seq<T>, lo: nat, hi: nat): (r: seq<T>)
    ensures |r| <= |s|
    ensures hi <= |s| && lo <= hi ==> r == s[lo..hi]
    ensures |r| == if lo < hi && lo < |s| then Min(hi, |s|) - lo else 0
  {
    if lo < hi && lo < |s| then s[lo..Min(hi, |s|)] else []
  }

  /** A Python list index into a list of `length` elements: negative indices
    * count from the end, anything else out of range is an `IndexError` (`None`). */
  function PyIndex(index: int, length: nat): (r: Option<nat>)
    ensures r.Some? <==> -(length as int) <= index < length
    ensures r.Some? ==> r.value < length && r.value % length == index % length
  {
    if 0 <= index < length then Some(index)
    else if -(length as int) <= index < 0 then Some(index + length)
    else None
  }

  lemma SplitThree<T>(s: seq<T>, i: nat, j: nat, a: seq<T>, b: seq<T>, c: seq<T>)
    requires i <= j <= |s| && s[..i] == a && s[i..j] == b && s[j..] == c
    ensures s == a + b + c
  {
    assert s == s[..i] + s[i..j] + s[j..];
  }

  function Min(a: int, b: int): int { if a < b then a else b }
  function Max(a: int, b: int): int { if a < b then b else a }

  /** A bit sequence is a sequence of 0s and 1s. */
  predicate IsBits(bits: seq<int>) { forall i :: 0 <= i < |bits| ==> bits[i] == 0 || bits[i] == 1 }

  /** The number whose binary digits, most significant first, are `bits`. */
  function FromBits(bits: seq<int>): int
  {
    if bits == [] then 0 else FromBits(bits[..|bits| - 1]) * 2 + bits[|bits| - 1]
  }

  /** The `n` low binary digits of `b`, most significant first. */
  function ToBits(b: int, n: nat): (r: seq<int>)
    ensures |r| == n
    decreases n
  {
    if n == 0 then [] else ToBits(b / 2, n - 1) + [b % 2]
  }

  lemma {:induction false} FromBitsRange(bits: seq<int>)
    requires IsBits(bits)
    ensures 0 <= FromBits(bits) < Pow2(|bits|)
  {
    if bits != [] {
      FromBitsRange(bits[..|bits| - 1]);
    }
  }

  /** Packing bits into a number and reading its binary digits back gives the bits. */
  lemma {:induction false} BitsRoundTrip(bits: seq<int>)
    requires IsBits(bits)
    ensures ToBits(FromBits(bits), |bits|) == bits
  {
    if bits != [] {
      var init := bits[..|bits| - 1];
      BitsRoundTrip(init);
      var v := FromBits(bits);
      assert v / 2 == FromBits(init) && v % 2 == bits[|bits| - 1];
      assert bits == init + [bits[|bits| - 1]];
    }
  }

  /** Complementing every bit of an n-bit number gives 2^n - 1 minus it. */
  lemma {:induction false} ComplementBits(bits: seq<int>, flipped: seq<int>)
    requires |flipped| == |bits| && IsBits(bits)
    requires forall i :: 0 <= i < |bits| ==> flipped[i] == 1 - bits[i]
    ensures FromBits(flipped) == Pow2(|bits|) - 1 - FromBits(bits)
  {
    if bits != [] {
      ComplementBits(bits[..|bits| - 1], flipped[..|bits| - 1]);
    }
  }

  /** The eight bits of a byte, most significant first (written out, so that
    * a term `ByteBits(b)` does not unroll eight levels of `ToBits`). */
  function ByteBits(b: int): (r: seq<int>)
    ensures |r| == 8
  {
    [b / 128 % 2, b / 64 % 2, b / 32 % 2, b / 16 % 2, b / 8 % 2, b / 4 % 2, b / 2 % 2, b % 2]
  }

  lemma ByteBitsAgree(b: int)
    ensures ByteBits(b) == ToBits(b, 8)
  {
    assert b / 2 / 2 == b / 4 && b / 4 / 2 == b / 8 && b / 8 / 2 == b / 16;
    assert b / 16 / 2 == b / 32 && b / 32 / 2 == b / 64 && b / 64 / 2 == b / 128;
  }

  lemma Halve(v: int, q: int, b: int)
    requires 0 <= b <= 1 && v == 2 * q + b
    ensures v / 2 == q && v % 2 == b
  {
  }

  /** The byte with binary digits `b0 .. b7`, most significant first, has
    * exactly those bits. */
  lemma ByteOfBits(b0: int, b1: int, b2: int, b3: int, b4: int, b5: int, b6: int, b7: int)
    requires 0 <= b0 <= 1 && 0 <= b1 <= 1 && 0 <= b2 <= 1 && 0 <= b3 <= 1
    requires 0 <= b4 <= 1 && 0 <= b5 <= 1 && 0 <= b6 <= 1 && 0 <= b7 <= 1
    ensures ByteBits(128 * b0 + 64 * b1 + 32 * b2 + 16 * b3 + 8 * b4 + 4 * b5 + 2 * b6 + b7)
      == [b0, b1, b2, b3, b4, b5, b6, b7]
  {
    var q6 := 2 * b0 + b1;
    var q5 := 2 * q6 + b2;
    var q4 := 2 * q5 + b3;
    var q3 := 2 * q4 + b4;
    var q2 := 2 * q3 + b5;
    var q1 := 2 * q2 + b6;
    var v := 2 * q1 + b7;
    Halve(v, q1, b7); Halve(q1, q2, b6); Halve(q2, q3, b5); Halve(q3, q4, b4);
    Halve(q4, q5, b3); Halve(q5, q6, b2); Halve(q6, b0, b1);
    assert b0 / 2 == 0 && b0 % 2 == b0;
    ByteBitsAgree(v);
  }

  /** `numpy.unpackbits` of a byte string: eight bits per byte, most significant first. */
  function UnpackBits(data: seq<byte>): (r: seq<int>)
    ensures |r| == 8 * |data|
  {
    if data == [] then [] else UnpackBits(data[..|data| - 1]) + ByteBits(data[|data| - 1])
  }

  lemma {:induction false} UnpackBitsAt(data: seq<byte>, j: nat, i: nat)
    requires j < |data| && i < 8
    ensures UnpackBits(data)[8 * j + i] == ByteBits(data[j])[i]
  {
    if j < |data| - 1 {
      UnpackBitsAt(data[..|data| - 1], j, i);
    }
  }
}
