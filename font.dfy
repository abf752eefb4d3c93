/**
 * `PyMOPanel/font.py`: the panel's font file. A 4-byte header (nominal width,
 * height, first and last code point), then one 3-byte table entry per code
 * point (a big-endian 2-byte offset of the glyph data, then the glyph width),
 * then the packed glyph bits, each glyph `ceil(height * width / 8)` bytes.
 */
module FontCodec {
  import opened Bytes
  import opened Wrappers

  datatype Char = Char(width: nat, data: seq<byte>)

  datatype Font = Font(nominalWidth: nat, height: nat, asciiStart: nat, asciiEnd: nat, chars: seq<Char>)

  datatype EncodeError =
    | CharsCountMismatch   // the `assert` in `getCharsCount`
    | ByteOutOfRange       // a header field or a width does not fit a `bytearray` slot
    | OffsetOverflow       // `to_bytes(2, 'big')` of a glyph offset above 65535

  datatype DecodeError =
    | EmptyBuffer          // `fromBuffer` returns None
    | IndexError           // the header or a table entry runs past the end

  /** `getCharsCount`: one char per code point of the range, or an assertion failure. */
  function CharsCount(f: Font): (r: Result<nat, EncodeError>)
    ensures r.Success? <==> |f.chars| == 1 + f.asciiEnd - f.asciiStart
    ensures r.Success? ==> r.value == |f.chars| && f.asciiStart + r.value == f.asciiEnd + 1
  {
    if |f.chars| == 1 + f.asciiEnd - f.asciiStart then Success(|f.chars|) else Failure(CharsCountMismatch)
  }

  /** Total glyph data length of the first `k` chars. */
  function DataLen(cs: seq<Char>, k: nat): nat
    requires k <= |cs|
  {
    if k == 0 then 0 else DataLen(cs, k - 1) + |cs[k - 1].data|
  }

  /** `getBufferSize`: header, table, and every glyph's data. */
  function BufferSize(f: Font): (r: Result<nat, EncodeError>)
    ensures r.Success? <==> CharsCount(f).Success?
    ensures r.Success? ==> r.value >= 4 + 3 * |f.chars|
  {
    match CharsCount(f)
    case Failure(e) => Failure(e)
    case Success(n) => Success(4 + 3 * n + DataLen(f.chars, n))
  }

  /** Where the data of char `i` starts: after the table and the data of the chars before it. */
  function OffsetOf(cs: seq<Char>, i: nat): nat
    requires i <= |cs|
  {
    4 + 3 * |cs| + DataLen(cs, i)
  }

  /** The first failure the encoding loop meets among the first `k` chars, in order. */
  function CharsError(cs: seq<Char>, k: nat): Option<EncodeError>
    requires k <= |cs|
  {
    if k == 0 then None
    else if CharsError(cs, k - 1).Some? then CharsError(cs, k - 1)
    else if OffsetOf(cs, k - 1) > 65535 then Some(OffsetOverflow)
    else if !IsByte(cs[k - 1].width) then Some(ByteOutOfRange)
    else None
  }

  function Entry(offset: int, width: int): (r: seq<byte>)
    requires 0 <= offset < 65536 && IsByte(width)
    ensures |r| == 3
  {
    ToBigEndian2(offset) + [width]
  }

  /** The table entries of the first `k` chars. */
  function TableBytes(cs: seq<Char>, k: nat): (r: seq<byte>)
    requires k <= |cs| && CharsError(cs, k).None?
    ensures |r| == 3 * k
  {
    if k == 0 then [] else TableBytes(cs, k - 1) + Entry(OffsetOf(cs, k - 1), cs[k - 1].width)
  }

  /** The glyph data of the first `k` chars, back to back. */
  function DataBytes(cs: seq<Char>, k: nat): (r: seq<byte>)
    requires k <= |cs|
    ensures |r| == DataLen(cs, k)
  {
    if k == 0 then [] else DataBytes(cs, k - 1) + cs[k - 1].data
  }

  predicate HeaderFits(f: Font)
  {
    IsByte(f.nominalWidth) && IsByte(f.height) && IsByte(f.asciiStart) && IsByte(f.asciiEnd)
  }

  /** What `toBuffer` returns, or the error it raises. */
  function Encode(f: Font): Result<seq<byte>, EncodeError>
  {
    if CharsCount(f).Failure? then Failure(CharsCountMismatch)
    else if !HeaderFits(f) then Failure(ByteOutOfRange)
    else match CharsError(f.chars, |f.chars|)
      case Some(e) => Failure(e)
      case None =>
        Success([f.nominalWidth, f.height, f.asciiStart, f.asciiEnd]
          + TableBytes(f.chars, |f.chars|) + DataBytes(f.chars, |f.chars|))
  }

  lemma {:induction false} DataLenMonotone(cs: seq<Char>, j: nat, k: nat)
    requires j <= k <= |cs|
    ensures DataLen(cs, j) <= DataLen(cs, k)
  {
    if j < k {
      DataLenMonotone(cs, j, k - 1);
    }
  }

  /** Proof helper. Consecutive glyphs are laid out back to back: each offset is the previous
    * one plus the previous glyph's length, and the first follows the table. */
  lemma OffsetsChain(cs: seq<Char>, i: nat)
    requires i < |cs|
    ensures OffsetOf(cs, 0) == 4 + 3 * |cs|
    ensures OffsetOf(cs, i + 1) == OffsetOf(cs, i) + |cs[i].data|
  {
  }

  lemma {:induction false} TableAt(cs: seq<Char>, k: nat, i: nat)
    requires i < k <= |cs| && CharsError(cs, k).None?
    ensures CharsError(cs, i + 1).None? && OffsetOf(cs, i) <= 65535 && IsByte(cs[i].width)
    ensures TableBytes(cs, k)[3 * i .. 3 * i + 3] == Entry(OffsetOf(cs, i), cs[i].width)
  {
    if i < k - 1 {
      TableAt(cs, k - 1, i);
    }
  }

  lemma {:induction false} DataAt(cs: seq<Char>, k: nat, i: nat)
    requires i < k <= |cs|
    ensures DataLen(cs, i) + |cs[i].data| <= DataLen(cs, k)
    ensures DataBytes(cs, k)[DataLen(cs, i) .. DataLen(cs, i) + |cs[i].data|] == cs[i].data
  {
    if i < k - 1 {
      DataAt(cs, k - 1, i);
    }
  }

  /** The loop stops at its first failure: later chars cannot change it. */
  lemma {:induction false} ErrorPersists(cs: seq<Char>, j: nat, k: nat)
    requires j <= k <= |cs| && CharsError(cs, j).Some?
    ensures CharsError(cs, k) == CharsError(cs, j)
  {
    if j < k {
      ErrorPersists(cs, j, k - 1);
    }
  }

  /** Any glyph offset above 65535 makes `toBuffer` raise. */
  lemma {:induction false} OverflowingOffsetRaises(cs: seq<Char>, k: nat, i: nat)
    requires i < k <= |cs| && OffsetOf(cs, i) > 65535
    ensures CharsError(cs, k).Some?
  {
    if i < k - 1 {
      OverflowingOffsetRaises(cs, k - 1, i);
    }
  }

  /** The encoded buffer is the header, the table and the glyph data, in that
    * order, and has the length `getBufferSize` announces. */
  lemma EncodeParts(f: Font)
    requires Encode(f).Success?
    ensures CharsError(f.chars, |f.chars|).None? && HeaderFits(f)
    ensures Encode(f).value == [f.nominalWidth, f.height, f.asciiStart, f.asciiEnd]
      + TableBytes(f.chars, |f.chars|) + DataBytes(f.chars, |f.chars|)
    ensures |Encode(f).value| == BufferSize(f).value
    ensures Encode(f).value[..4] == [f.nominalWidth, f.height, f.asciiStart, f.asciiEnd]
  {
  }

  /** Table entry `i` holds the big-endian offset of glyph `i` and its width. */
  lemma EncodeEntry(f: Font, i: nat)
    requires Encode(f).Success? && i < |f.chars|
    ensures OffsetOf(f.chars, i) <= 65535
    ensures FromBigEndian(Encode(f).value[4 + 3 * i .. 4 + 3 * i + 2]) == OffsetOf(f.chars, i)
    ensures Encode(f).value[4 + 3 * i + 2] == f.chars[i].width
  {
    EncodeParts(f);
    var cs := f.chars;
    var t := TableBytes(cs, |cs|);
    var buf := Encode(f).value;
    TableAt(cs, |cs|, i);
    var entry := Entry(OffsetOf(cs, i), cs[i].width);
    assert buf[4 + 3 * i .. 4 + 3 * i + 3] == t[3 * i .. 3 * i + 3] == entry;
    assert entry[..2] == ToBigEndian2(OffsetOf(cs, i)) && entry[2] == cs[i].width;
    assert buf[4 + 3 * i .. 4 + 3 * i + 2] == entry[..2];
  }

  /** Glyph `i`'s data lies exactly at the offset its entry announces. */
  lemma EncodeData(f: Font, i: nat)
    requires Encode(f).Success? && i < |f.chars|
    ensures OffsetOf(f.chars, i) + |f.chars[i].data| <= |Encode(f).value|
    ensures Encode(f).value[OffsetOf(f.chars, i) .. OffsetOf(f.chars, i) + |f.chars[i].data|] == f.chars[i].data
  {
    EncodeParts(f);
    var cs := f.chars;
    var d := DataBytes(cs, |cs|);
    var buf := Encode(f).value;
    var prefix := [f.nominalWidth, f.height, f.asciiStart, f.asciiEnd] + TableBytes(cs, |cs|);
    assert buf == prefix + d && |prefix| == 4 + 3 * |cs|;
    DataAt(cs, |cs|, i);
    var lo := DataLen(cs, i);
    assert buf[|prefix| + lo .. |prefix| + lo + |cs[i].data|] == d[lo .. lo + |cs[i].data|];
  }

  /** `s` with `s[at .. at + |bytes|]` replaced by `bytes`. */
  function Splice(s: seq<byte>, at: nat, bytes: seq<byte>): (r: seq<byte>)
    requires at + |bytes| <= |s|
    ensures |r| == |s|
  {
    s[..at] + bytes + s[at + |bytes|..]
  }

  /** Slice assignment `out[at:at+len(bytes)] = bytes` on the buffer. */
  method Store(out: array<byte>, at: nat, bytes: seq<byte>)
    requires at + |bytes| <= out.Length
    modifies out
    ensures out[..] == Splice(old(out[..]), at, bytes)
  {
    forall k | 0 <= k < |bytes| {
      out[at + k] := bytes[k];
    }
  }

  /** Storing an entry right after the filled part of the table, then glyph
    * data right after the filled part of the data region, extends both and
    * leaves the header alone. */
  lemma StoreStep(s0: seq<byte>, tableStart: nat, table: seq<byte>, entry: seq<byte>,
                  dataStart: nat, data: seq<byte>, glyph: seq<byte>)
    requires tableStart + |table| + |entry| <= dataStart && dataStart + |data| + |glyph| <= |s0|
    requires s0[tableStart .. tableStart + |table|] == table && s0[dataStart .. dataStart + |data|] == data
    ensures var s1 := Splice(s0, tableStart + |table|, entry);
      var s2 := Splice(s1, dataStart + |data|, glyph);
      s2[..tableStart] == s0[..tableStart]
      && s2[tableStart .. tableStart + |table| + |entry|] == table + entry
      && s2[dataStart .. dataStart + |data| + |glyph|] == data + glyph
  {
    var s1 := Splice(s0, tableStart + |table|, entry);
    assert s1[..tableStart] == s0[..tableStart];
    assert s1[tableStart .. tableStart + |table| + |entry|] == table + entry;
    assert s1[dataStart .. dataStart + |data|] == data;
  }

  /** The stores of one iteration of the loop of `toBuffer`: a table entry at
    * the running table offset, then glyph data at the running data offset. */
  method StoreChar(out: array<byte>, tableStart: nat, tableOffset: nat, entry: seq<byte>,
                   dataStart: nat, dataOffset: nat, glyph: seq<byte>,
                   ghost table: seq<byte>, ghost data: seq<byte>)
    requires tableOffset == tableStart + |table| && dataOffset == dataStart + |data|
    requires tableOffset + |entry| <= dataStart && dataOffset + |glyph| <= out.Length
    requires out[tableStart .. tableOffset] == table && out[dataStart .. dataOffset] == data
    modifies out
    ensures out[..tableStart] == old(out[..tableStart])
    ensures out[tableStart .. tableOffset + |entry|] == table + entry
    ensures out[dataStart .. dataOffset + |glyph|] == data + glyph
  {
    ghost var s0 := out[..];
    StoreStep(s0, tableStart, table, entry, dataStart, data, glyph);
    Store(out, tableOffset, entry);
    ghost var s1 := out[..];
    Store(out, dataOffset, glyph);
    ghost var s2 := out[..];
    assert s2 == Splice(Splice(s0, tableOffset, entry), dataOffset, glyph);
    assert out[..tableStart] == s2[..tableStart];
    assert out[tableStart .. tableOffset + |entry|] == s2[tableStart .. tableOffset + |entry|];
    assert out[dataStart .. dataOffset + |glyph|] == s2[dataStart .. dataOffset + |glyph|];
  }

  /** What holds of the buffer once the first `i` chars are stored. */
  predicate FilledUpTo(out: seq<byte>, header: seq<byte>, cs: seq<Char>, i: nat)
    requires i <= |cs|
  {
    CharsError(cs, i).None?
    && |out| == 4 + 3 * |cs| + DataLen(cs, |cs|) && OffsetOf(cs, i) <= |out|
    && out[..4] == header
    && out[4 .. 4 + 3 * i] == TableBytes(cs, i)
    && out[4 + 3 * |cs| .. OffsetOf(cs, i)] == DataBytes(cs, i)
  }

  /** One iteration of the loop of `toBuffer`: check the offset and the width
    * of char `i`, then store its entry and data. */
  method FillOne(out: array<byte>, header: seq<byte>, cs: seq<Char>, i: nat) returns (err: Option<EncodeError>)
    requires i < |cs| && FilledUpTo(out[..], header, cs, i)
    modifies out
    ensures err.Some? ==> err == CharsError(cs, i + 1)
    ensures err.None? ==> FilledUpTo(out[..], header, cs, i + 1)
  {
    var dataOffset := OffsetOf(cs, i);
    // the offset is converted (and may overflow) before the width is stored
    if dataOffset > 65535 || !IsByte(cs[i].width) {
      return CharsError(cs, i + 1);
    }
    DataLenMonotone(cs, i + 1, |cs|);
    var entry := Entry(dataOffset, cs[i].width);
    assert CharsError(cs, i + 1).None?;
    assert TableBytes(cs, i + 1) == TableBytes(cs, i) + entry;
    assert DataBytes(cs, i + 1) == DataBytes(cs, i) + cs[i].data;
    assert OffsetOf(cs, i + 1) == dataOffset + |cs[i].data|;
    StoreChar(out, 4, 4 + 3 * i, entry, 4 + 3 * |cs|, dataOffset, cs[i].data, TableBytes(cs, i), DataBytes(cs, i));
    return None;
  }

  /** The loop of `toBuffer`: a running table offset and a running data offset
    * advance together, one char at a time, until the first failure. */
  method FillChars(out: array<byte>, header: seq<byte>, cs: seq<Char>) returns (err: Option<EncodeError>)
    requires FilledUpTo(out[..], header, cs, 0)
    modifies out
    ensures err == CharsError(cs, |cs|)
    ensures err.None? ==> out[..] == header + TableBytes(cs, |cs|) + DataBytes(cs, |cs|)
  {
    var n := |cs|;
    var i := 0;
    while i < n
      invariant 0 <= i <= n && FilledUpTo(out[..], header, cs, i)
    {
      err := FillOne(out, header, cs, i);
      if err.Some? {
        ErrorPersists(cs, i + 1, n);
        return;
      }
      i := i + 1;
    }
    assert OffsetOf(cs, n) == out.Length;
    assert out[4 + 3 * n ..] == out[4 + 3 * n .. OffsetOf(cs, n)];
    SplitThree(out[..], 4, 4 + 3 * n, header, TableBytes(cs, n), DataBytes(cs, n));
    return None;
  }

  /** `toBuffer`: fills a zeroed buffer of `getBufferSize` bytes, header first,
    * then the table entries and the glyph data side by side. */
  method ToBuffer(f: Font) returns (r: Result<seq<byte>, EncodeError>)
    ensures r == Encode(f)
  {
    var size := BufferSize(f);
    if size.Failure? {
      return Failure(CharsCountMismatch);
    }
    var out := new byte[size.value](_ => 0);
    if !HeaderFits(f) {
      return Failure(ByteOutOfRange);
    }
    var header: seq<byte> := [f.nominalWidth, f.height, f.asciiStart, f.asciiEnd];
    Store(out, 0, header);
    assert out[4 .. 4] == [];
    var err := FillChars(out, header, f.chars);
    if err.Some? {
      return Failure(err.value);
    }
    return Success(out[..]);
  }

  /** `ceil(bitsPerChar / 8.)`: the bytes one glyph of this size occupies. */
  function BytesPerChar(height: nat, width: nat): (r: nat)
    ensures height * width <= 8 * r < height * width + 8
  {
    (height * width + 7) / 8
  }

  /** Number of iterations of `range(start, end + 1)`. */
  function CharCount(start: int, end: int): (r: nat)
    ensures end >= start ==> start + r == end + 1
    ensures end < start ==> r == 0
  {
    if end >= start then end - start + 1 else 0
  }

  /** The char whose table entry starts at `pos`: the width is indexed (and so
    * must exist), the glyph data is a forgiving slice that may come out short. */
  function DecodeChar(buf: seq<byte>, height: nat, pos: nat): Char
    requires pos + 2 < |buf|
  {
    var offset := FromBigEndian(buf[pos .. pos + 2]);
    var width := buf[pos + 2];
    Char(width, Slice(buf, offset, offset + BytesPerChar(height, width)))
  }

  /** What `fromBuffer` returns, or the error it raises. */
  function Decode(buf: seq<byte>): Result<Font, DecodeError>
  {
    if |buf| == 0 then Failure(EmptyBuffer)
    else if |buf| < 4 then Failure(IndexError)
    else
      var n := CharCount(buf[2], buf[3]);
      if 4 + 3 * n > |buf| then Failure(IndexError)
      else Success(Font(buf[0], buf[1], buf[2], buf[3],
        seq(n, i requires 0 <= i < n => DecodeChar(buf, buf[1], 4 + 3 * i))))
  }

  /** `fromBuffer`: reads the header, then one table entry per code point with a
    * running index, appending the decoded chars. */
  method FromBuffer(buf: seq<byte>) returns (r: Result<Font, DecodeError>)
    ensures r == Decode(buf)
  {
    if |buf| == 0 {
      return Failure(EmptyBuffer);
    }
    if |buf| < 4 {
      return Failure(IndexError);
    }
    var height := buf[1];
    var n := CharCount(buf[2], buf[3]);
    var chars: seq<Char> := [];
    var index := 4;
    var i := 0;
    while i < n
      invariant 0 <= i <= n
      invariant index == 4 + 3 * i <= |buf|
      invariant chars == seq(i, j requires 0 <= j < i => DecodeChar(buf, height, 4 + 3 * j))
    {
      var offset := FromBigEndian(Slice(buf, index, index + 2));
      index := index + 2;
      if index >= |buf| {
        return Failure(IndexError);
      }
      var width := buf[index];
      index := index + 1;
      var data := Slice(buf, offset, offset + BytesPerChar(height, width));
      chars := chars + [Char(width, data)];
      i := i + 1;
    }
    return Success(Font(buf[0], buf[1], buf[2], buf[3], chars));
  }

  /** A decoded font has one char per code point, in ascending order; each has
    * its table width and the glyph slice, which is short only past the end. */
  lemma DecodeShape(buf: seq<byte>, i: nat)
    requires Decode(buf).Success? && i < |Decode(buf).value.chars|
    ensures var f := Decode(buf).value;
      |f.chars| == CharCount(f.asciiStart, f.asciiEnd) && 4 + 3 * |f.chars| <= |buf|
      && f.chars[i].width == buf[4 + 3 * i + 2]
      && |f.chars[i].data| <= BytesPerChar(f.height, f.chars[i].width)
      && var offset := FromBigEndian(buf[4 + 3 * i .. 4 + 3 * i + 2]);
         (offset + BytesPerChar(f.height, f.chars[i].width) <= |buf| ==>
           f.chars[i].data == buf[offset .. offset + BytesPerChar(f.height, f.chars[i].width)])
  {
  }

  /** Every glyph has exactly the length its size calls for. */
  predicate GlyphsSized(f: Font)
  {
    forall i :: 0 <= i < |f.chars| ==> |f.chars[i].data| == BytesPerChar(f.height, f.chars[i].width)
  }

  /** Decoding the table entry of char `i` of an encoded font gives char `i` back. */
  lemma DecodeEncodedChar(f: Font, i: nat)
    requires Encode(f).Success? && GlyphsSized(f) && i < |f.chars|
    ensures 4 + 3 * i + 2 < |Encode(f).value|
    ensures DecodeChar(Encode(f).value, f.height, 4 + 3 * i) == f.chars[i]
  {
    EncodeParts(f);
    EncodeEntry(f, i);
    EncodeData(f, i);
  }

  /** `fromBuffer(toBuffer(f))` gives back `f` when every glyph has exactly
    * `ceil(height * width / 8)` bytes and the encoding succeeds. */
  lemma RoundTrip(f: Font)
    requires Encode(f).Success? && GlyphsSized(f)
    ensures Decode(Encode(f).value) == Success(f)
  {
    var buf := Encode(f).value;
    var n := |f.chars|;
    EncodeParts(f);
    assert buf[0] == f.nominalWidth && buf[1] == f.height && buf[2] == f.asciiStart && buf[3] == f.asciiEnd;
    assert CharCount(buf[2], buf[3]) == n;
    assert 4 + 3 * n <= |buf|;
    var decoded := seq(n, i requires 0 <= i < n => DecodeChar(buf, buf[1], 4 + 3 * i));
    assert Decode(buf) == Success(Font(buf[0], buf[1], buf[2], buf[3], decoded));
    DecodedChars(f, buf, decoded);
  }

  /** Every char decodes back from the encoding. */
  lemma DecodedChars(f: Font, buf: seq<byte>, decoded: seq<Char>)
    requires Encode(f).Success? && GlyphsSized(f) && buf == Encode(f).value
    requires |decoded| == |f.chars| && |buf| >= 4 + 3 * |decoded| && buf[1] == f.height
    requires forall i :: 0 <= i < |decoded| ==> decoded[i] == DecodeChar(buf, buf[1], 4 + 3 * i)
    ensures decoded == f.chars
  {
    forall i | 0 <= i < |decoded|
      ensures decoded[i] == f.chars[i]
    {
      DecodeEncodedChar(f, i);
    }
  }

  // ----- toDictOfUnpackedNumpyArray: glyph bits as rows of pixels -----

  datatype UnpackError =
    | ZeroWidth        // a char of width 0: the whole unpacking returns None
    | ReshapeError     // `reshape(-1, width)` of a bit count that is not a multiple of the width

  datatype UnpackedFont = UnpackedFont(nominalWidth: nat, height: nat, asciiStart: nat, asciiEnd: nat,
                                       glyphs: map<nat, seq<seq<int>>>)

  /** `n` bits make whole rows of `width` (what `reshape(-1, width)` demands). */
  predicate WholeRows(n: nat, width: nat)
    requires width > 0
    decreases n
  {
    if n < width then n == 0 else WholeRows(n - width, width)
  }

  /** `bits.reshape(-1, width)`: consecutive rows of `width` bits. */
  function Rows(bits: seq<int>, width: nat): (r: seq<seq<int>>)
    requires width > 0 && WholeRows(|bits|, width)
    ensures forall k :: 0 <= k < |r| ==> |r[k]| == width
    decreases |bits|
  {
    if |bits| == 0 then [] else [bits[..width]] + Rows(bits[width..], width)
  }

  lemma {:induction false} RowsAt(bits: seq<int>, width: nat, row: nat, col: nat)
    requires width > 0 && WholeRows(|bits|, width)
    requires row < |Rows(bits, width)| && col < width
    ensures row * width + col < |bits|
    ensures Rows(bits, width)[row][col] == bits[row * width + col]
    decreases row
  {
    if row > 0 {
      assert (row - 1) * width + width == row * width;
      RowsAt(bits[width..], width, row - 1, col);
    }
  }

  /** `height * width` bits make exactly `height` rows. */
  lemma {:induction false} RowsCount(bits: seq<int>, width: nat, height: nat)
    requires width > 0 && |bits| == height * width
    ensures WholeRows(|bits|, width) && |Rows(bits, width)| == height
    decreases height
  {
    if height > 0 {
      assert (height - 1) * width == |bits| - width;
      RowsCount(bits[width..], width, height - 1);
    }
  }

  /** The glyph of one char of nonzero width: its first `height * width` bits,
    * most significant bit of each byte first, as rows of `width` pixels. */
  function Glyph(c: Char, height: nat): Result<seq<seq<int>>, UnpackError>
    requires c.width > 0
  {
    var taken := Slice(UnpackBits(c.data), 0, height * c.width);
    if !WholeRows(|taken|, c.width) then Failure(ReshapeError) else Success(Rows(taken, c.width))
  }

  /** Pixel (`row`, `col`) of a glyph is bit `row * width + col` of its data,
    * counting from the most significant bit of the first byte. */
  lemma GlyphPixel(c: Char, height: nat, row: nat, col: nat, k: nat)
    requires c.width > 0 && Glyph(c, height).Success?
    requires row < |Glyph(c, height).value| && col < c.width && k == row * c.width + col
    ensures k < height * c.width && k / 8 < |c.data|
    ensures Glyph(c, height).value[row][col] == ByteBits(c.data[k / 8])[k % 8]
  {
    var bits := UnpackBits(c.data);
    var taken := Slice(bits, 0, height * c.width);
    RowsAt(taken, c.width, row, col);
    assert taken[k] == bits[k];
    UnpackBitsAt(c.data, k / 8, k % 8);
  }

  /** A glyph with exactly `ceil(height * width / 8)` bytes unpacks to `height`
    * rows: the padding bits of its last byte are dropped. */
  lemma GlyphSized(c: Char, height: nat)
    requires c.width > 0 && |c.data| == BytesPerChar(height, c.width)
    ensures Glyph(c, height).Success? && |Glyph(c, height).value| == height
  {
    var taken := Slice(UnpackBits(c.data), 0, height * c.width);
    assert |taken| == height * c.width;
    RowsCount(taken, c.width, height);
  }

  /** What one char contributes: ZeroWidth for a char of width 0, otherwise
    * its glyph or the reshape error. */
  function CharGlyph(c: Char, height: nat): Result<seq<seq<int>>, UnpackError>
  {
    if c.width == 0 then Failure(ZeroWidth) else Glyph(c, height)
  }

  /** Char `c` unpacks on its own: nonzero width and a glyph that reshapes. */
  predicate Unpacks(c: Char, height: nat)
  {
    CharGlyph(c, height).Success?
  }

  /** The outcomes of the first `k` chars of a font, in char order. */
  function CharGlyphs(f: Font, k: nat): (r: seq<Result<seq<seq<int>>, UnpackError>>)
    requires k <= |f.chars|
    ensures |r| == k
  {
    if k == 0 then [] else CharGlyphs(f, k - 1) + [CharGlyph(f.chars[k - 1], f.height)]
  }

  lemma {:induction false} CharGlyphsAt(f: Font, k: nat, i: nat)
    requires i < k <= |f.chars|
    ensures CharGlyphs(f, k)[i] == CharGlyph(f.chars[i], f.height)
  {
    if i < k - 1 {
      CharGlyphsAt(f, k - 1, i);
    }
  }

  /** The first `k` outcomes keyed from code point `start` on, or the first failure. */
  function Collect(rs: seq<Result<seq<seq<int>>, UnpackError>>, start: nat, k: nat)
    : Result<map<nat, seq<seq<int>>>, UnpackError>
    requires k <= |rs|
  {
    if k == 0 then Success(map[])
    else match Collect(rs, start, k - 1)
      case Failure(e) => Failure(e)
      case Success(m) =>
        match rs[k - 1]
        case Failure(e) => Failure(e)
        case Success(g) => Success(m[start + (k - 1) := g])
  }

  /** What `toDictOfUnpackedNumpyArray` returns (or raises). */
  function Unpack(f: Font): Result<UnpackedFont, UnpackError>
  {
    match Collect(CharGlyphs(f, |f.chars|), f.asciiStart, |f.chars|)
    case Failure(e) => Failure(e)
    case Success(m) => Success(UnpackedFont(f.nominalWidth, f.height, f.asciiStart, f.asciiEnd, m))
  }

  lemma CollectStep(rs: seq<Result<seq<seq<int>>, UnpackError>>, start: nat, k: nat)
    requires k < |rs| && Collect(rs, start, k).Success? && rs[k].Success?
    ensures Collect(rs, start, k + 1) == Success(Collect(rs, start, k).value[start + k := rs[k].value])
  {
  }

  /** Collecting succeeds exactly when every outcome is a success. */
  lemma {:induction false} CollectSucceeds(rs: seq<Result<seq<seq<int>>, UnpackError>>, start: nat, k: nat)
    requires k <= |rs|
    ensures Collect(rs, start, k).Success? <==> forall i :: 0 <= i < k ==> rs[i].Success?
  {
    if k > 0 {
      CollectSucceeds(rs, start, k - 1);
    }
  }

  /** A successful collection maps `start + i` to outcome `i` and has no other key. */
  lemma {:induction false} CollectKeys(rs: seq<Result<seq<seq<int>>, UnpackError>>, start: nat, k: nat)
    requires k <= |rs| && Collect(rs, start, k).Success?
    ensures forall key :: key in Collect(rs, start, k).value <==> start <= key < start + k
    ensures forall i :: 0 <= i < k ==> rs[i].Success? && Collect(rs, start, k).value[start + i] == rs[i].value
  {
    if k > 0 {
      CollectKeys(rs, start, k - 1);
    }
  }

  /** The first failing outcome is the result of the whole collection. */
  lemma {:induction false} CollectFirstFailure(rs: seq<Result<seq<seq<int>>, UnpackError>>, start: nat, k: nat, i: nat)
    requires i < k <= |rs| && rs[i].Failure?
    requires forall j :: 0 <= j < i ==> rs[j].Success?
    ensures Collect(rs, start, k) == Failure(rs[i].error)
  {
    if k == i + 1 {
      CollectSucceeds(rs, start, i);
    } else {
      CollectFirstFailure(rs, start, k - 1, i);
    }
  }

  /** Unpacking a font succeeds exactly when every char unpacks on its own; then
    * char `i`'s glyph sits at code point `asciiStart + i`, and there is no other key. */
  lemma UnpackGlyphs(f: Font)
    ensures Unpack(f).Success? <==> forall i :: 0 <= i < |f.chars| ==> Unpacks(f.chars[i], f.height)
    ensures Unpack(f).Success? ==>
      (forall key :: key in Unpack(f).value.glyphs <==> f.asciiStart <= key < f.asciiStart + |f.chars|)
    ensures Unpack(f).Success? ==>
      forall i :: 0 <= i < |f.chars| ==> Unpack(f).value.glyphs[f.asciiStart + i] == Glyph(f.chars[i], f.height).value
  {
    var rs := CharGlyphs(f, |f.chars|);
    forall i | 0 <= i < |rs|
      ensures rs[i] == CharGlyph(f.chars[i], f.height)
    {
      CharGlyphsAt(f, |f.chars|, i);
    }
    CollectSucceeds(rs, f.asciiStart, |rs|);
    if Unpack(f).Success? {
      CollectKeys(rs, f.asciiStart, |rs|);
    }
  }

  /** The first char that does not unpack decides the error: ZeroWidth (the
    * source's None) for width 0, ReshapeError when its bits do not fill whole rows. */
  lemma FirstBadChar(f: Font, i: nat)
    requires i < |f.chars| && !Unpacks(f.chars[i], f.height)
    requires forall j :: 0 <= j < i ==> Unpacks(f.chars[j], f.height)
    ensures f.chars[i].width == 0 ==> Unpack(f) == Failure(ZeroWidth)
    ensures f.chars[i].width > 0 ==> Unpack(f) == Failure(ReshapeError)
  {
    var rs := CharGlyphs(f, |f.chars|);
    forall j | 0 <= j <= i
      ensures rs[j] == CharGlyph(f.chars[j], f.height)
    {
      CharGlyphsAt(f, |f.chars|, j);
    }
    CollectFirstFailure(rs, f.asciiStart, |rs|, i);
  }

  /** A font whose glyphs have exactly `ceil(height * width / 8)` bytes and
    * nonzero widths unpacks to glyphs of `height` rows of `width` pixels. */
  lemma UnpackSized(f: Font)
    requires forall i :: 0 <= i < |f.chars| ==> f.chars[i].width > 0
    requires GlyphsSized(f)
    ensures Unpack(f).Success?
    ensures forall key :: key in Unpack(f).value.glyphs ==> |Unpack(f).value.glyphs[key]| == f.height
  {
    forall i | 0 <= i < |f.chars|
      ensures Unpacks(f.chars[i], f.height) && |Glyph(f.chars[i], f.height).value| == f.height
    {
      GlyphSized(f.chars[i], f.height);
    }
    UnpackGlyphs(f);
    var m := Unpack(f).value.glyphs;
    forall key | key in m
      ensures |m[key]| == f.height
    {
      var i := key - f.asciiStart;
      assert m[f.asciiStart + i] == Glyph(f.chars[i], f.height).value;
    }
  }

  lemma UnpackStopsAt(f: Font, i: nat)
    requires i < |f.chars| && Collect(CharGlyphs(f, |f.chars|), f.asciiStart, i).Success?
    requires CharGlyph(f.chars[i], f.height).Failure?
    ensures Unpack(f) == Failure(CharGlyph(f.chars[i], f.height).error)
  {
    var rs := CharGlyphs(f, |f.chars|);
    CharGlyphsAt(f, |f.chars|, i);
    CollectSucceeds(rs, f.asciiStart, i);
    CollectFirstFailure(rs, f.asciiStart, |rs|, i);
  }

  /** `toDictOfUnpackedNumpyArray`: a loop over the chars that returns None at
    * the first zero-width char and otherwise adds one glyph per code point. */
  method UnpackFont(f: Font) returns (r: Result<UnpackedFont, UnpackError>)
    ensures r == Unpack(f)
  {
    ghost var rs := CharGlyphs(f, |f.chars|);
    var glyphs: map<nat, seq<seq<int>>> := map[];
    var i := 0;
    while i < |f.chars|
      invariant 0 <= i <= |f.chars|
      invariant Collect(rs, f.asciiStart, i) == Success(glyphs)
    {
      var c := f.chars[i];
      if c.width == 0 {
        UnpackStopsAt(f, i);
        return Failure(ZeroWidth);
      }
      var g := Glyph(c, f.height);
      if g.Failure? {
        UnpackStopsAt(f, i);
        return Failure(g.error);
      }
      CharGlyphsAt(f, |f.chars|, i);
      CollectStep(rs, f.asciiStart, i);
      glyphs := glyphs[f.asciiStart + i := g.value];
      i := i + 1;
    }
    return Success(UnpackedFont(f.nominalWidth, f.height, f.asciiStart, f.asciiEnd, glyphs));
  }
}
