/** `PyMOPanel/filesystem.py`: reading the panel's filesystem (free space,
  * directory listing, file download, whole dump) and the font-file parser
  * that turns a downloaded font into a dictionary. */
module Filesystem {
  import opened Wrappers
  import opened Bytes
  import opened SerialLink
  import opened Keyboard
  import opened Panels
  import opened FontCodec

  datatype FileType = FontFile | BitmapFile

  /** The enum value, also the type bit of a directory entry. */
  function FileTypeValue(t: FileType): (r: int)
    ensures r == 0 <==> t == FontFile
    ensures r == 1 <==> t == BitmapFile
  {
    match t
    case FontFile => 0
    case BitmapFile => 1
  }

  /** The `IndexError` raised by indexing past the end of a buffer. */
  datatype FsError = OutOfRange

  // ----- directory listing -----

  /** One directory entry: the file's type, its index and its size in bytes. */
  datatype Entry = Entry(fileType: FileType, index: nat, size: nat)

  /** Slot `slot` of a directory listing, known to be used and to have its
    * second byte: the low bit of that byte is the type, the rest the index;
    * the size is the little-endian value of the next two bytes (a forgiving
    * slice, so fewer bytes when the listing was cut short). */
  function SlotEntry(buffer: seq<byte>, slot: nat): (r: Entry)
    requires 4 * slot + 1 < |buffer|
    ensures r.fileType == (if buffer[4 * slot + 1] % 2 == 0 then FontFile else BitmapFile)
    ensures r.index == buffer[4 * slot + 1] / 2 && r.index < 128
  {
    var typeAndId := buffer[4 * slot + 1];
    Entry(if typeAndId % 2 == 0 then FontFile else BitmapFile, typeAndId / 2,
          FromLittleEndian(Slice(buffer, 4 * slot + 2, 4 * slot + 4)))
  }

  /** The entries of the first `k` slots of a listing, in slot order: a slot
    * whose first byte is 0 is skipped; reading past the end of the buffer
    * raises. */
  function Entries(buffer: seq<byte>, k: nat): Result<seq<Entry>, FsError>
  {
    if k == 0 then Success([])
    else match Entries(buffer, k - 1)
      case Failure(e) => Failure(e)
      case Success(es) =>
        match SlotResult(buffer, k - 1)
        case Failure(e) => Failure(e)
        case Success(None) => Success(es)
        case Success(Some(entry)) => Success(es + [entry])
  }

  /** One slot of a listing: nothing for an unused slot, the entry for a
    * used one, or the error of reading past the end of the buffer. */
  function SlotResult(buffer: seq<byte>, slot: nat): Result<Option<Entry>, FsError>
  {
    var offset := 4 * slot;
    if offset >= |buffer| then Failure(OutOfRange)
    else if buffer[offset] == 0 then Success(None)
    else if offset + 1 >= |buffer| then Failure(OutOfRange)
    else Success(Some(SlotEntry(buffer, slot)))
  }

  /** Once a slot raises, decoding more slots raises too. */
  lemma {:induction false} EntriesFailurePersists(buffer: seq<byte>, j: nat, k: nat)
    requires j <= k && Entries(buffer, j).Failure?
    ensures Entries(buffer, k) == Entries(buffer, j)
  {
    if j < k {
      EntriesFailurePersists(buffer, j, k - 1);
    }
  }

  /** At most one entry per slot. */
  lemma {:induction false} EntriesBound(buffer: seq<byte>, k: nat)
    requires Entries(buffer, k).Success?
    ensures |Entries(buffer, k).value| <= k
  {
    if k > 0 {
      EntriesBound(buffer, k - 1);
    }
  }

  /** A listing of `4 * k` bytes or more decodes without error. */
  lemma {:induction false} EntriesComplete(buffer: seq<byte>, k: nat)
    requires 4 * k <= |buffer|
    ensures Entries(buffer, k).Success?
  {
    if k > 0 {
      EntriesComplete(buffer, k - 1);
    }
  }

  /** The decoding loop of `ls`: a fixed stride of four bytes per slot. */
  method DecodeEntries(buffer: seq<byte>, count: nat) returns (r: Result<seq<Entry>, FsError>)
    ensures r == Entries(buffer, count)
  {
    var entries: seq<Entry> := [];
    var entryNumber := 0;
    while entryNumber < count
      invariant 0 <= entryNumber <= count
      invariant Entries(buffer, entryNumber) == Success(entries)
    {
      var slot := DecodeSlot(buffer, entryNumber);
      if slot.Failure? {
        EntriesFailurePersists(buffer, entryNumber + 1, count);
        return Failure(slot.error);
      }
      if slot.value.Some? {
        entries := entries + [slot.value.value];
      }
      entryNumber := entryNumber + 1;
    }
    return Success(entries);
  }

  /** The body of the decoding loop of `ls` for one slot. */
  method DecodeSlot(buffer: seq<byte>, entryNumber: nat) returns (r: Result<Option<Entry>, FsError>)
    ensures r == SlotResult(buffer, entryNumber)
  {
    var offset := entryNumber * 4;
    if offset >= |buffer| {
      return Failure(OutOfRange);
    }
    var used := buffer[offset] != 0;
    offset := offset + 1;
    if !used {
      return Success(None);
    }
    if offset >= |buffer| {
      return Failure(OutOfRange);
    }
    var typeAndFileId := buffer[offset];
    offset := offset + 1;
    var fileType := if typeAndFileId % 2 == 0 then FontFile else BitmapFile;
    var fileId := typeAndFileId / 2;
    var fileSize := FromLittleEndian(Slice(buffer, offset, offset + 2));
    return Success(Some(Entry(fileType, fileId, fileSize)));
  }

  /** An entry the four-byte slot format can hold. */
  predicate Storable(e: Entry)
  {
    e.index < 128 && e.size < 65536
  }

  /** The four bytes of a directory slot: unused slots are all zero. */
  function SlotBytes(slot: Option<Entry>): (r: seq<byte>)
    requires slot.Some? ==> Storable(slot.value)
    ensures |r| == 4 && (r[0] == 0 <==> slot.None?)
  {
    match slot
    case None => [0, 0, 0, 0]
    case Some(e) => [1, 2 * e.index + FileTypeValue(e.fileType), e.size % 256, e.size / 256]
  }

  predicate AllStorable(slots: seq<Option<Entry>>)
  {
    forall i :: 0 <= i < |slots| ==> slots[i].Some? ==> Storable(slots[i].value)
  }

  /** A directory listing as the panel sends it, slot after slot. */
  function Listing(slots: seq<Option<Entry>>): (r: seq<byte>)
    requires AllStorable(slots)
    ensures |r| == 4 * |slots|
  {
    if slots == [] then [] else Listing(slots[..|slots| - 1]) + SlotBytes(slots[|slots| - 1])
  }

  lemma {:induction false} ListingAt(slots: seq<Option<Entry>>, i: nat, j: nat)
    requires AllStorable(slots) && i < |slots| && j < 4
    ensures Listing(slots)[4 * i + j] == SlotBytes(slots[i])[j]
  {
    if i < |slots| - 1 {
      ListingAt(slots[..|slots| - 1], i, j);
    }
  }

  /** The used slots' entries, in slot order. */
  function Present(slots: seq<Option<Entry>>): (r: seq<Entry>)
    ensures |r| <= |slots|
  {
    if slots == [] then []
    else Present(slots[..|slots| - 1]) + (if slots[|slots| - 1].Some? then [slots[|slots| - 1].value] else [])
  }

  /** Decoding slot `i` of a listing gives back the entry stored there. */
  lemma SlotRoundTrip(slots: seq<Option<Entry>>, i: nat)
    requires AllStorable(slots) && i < |slots| && slots[i].Some?
    ensures 4 * i + 1 < |Listing(slots)| && SlotEntry(Listing(slots), i) == slots[i].value
  {
    var buffer := Listing(slots);
    var e := slots[i].value;
    ListingAt(slots, i, 1);
    ListingAt(slots, i, 2);
    ListingAt(slots, i, 3);
    var sizeBytes := Slice(buffer, 4 * i + 2, 4 * i + 4);
    assert sizeBytes == [e.size % 256, e.size / 256];
    LittleEndianPair(sizeBytes);
    var typeAndId := buffer[4 * i + 1];
    assert typeAndId == 2 * e.index + FileTypeValue(e.fileType);
    assert typeAndId / 2 == e.index && typeAndId % 2 == FileTypeValue(e.fileType);
  }

  lemma LittleEndianPair(s: seq<byte>)
    requires |s| == 2
    ensures FromLittleEndian(s) == s[0] as int + 256 * (s[1] as int)
  {
    assert s[1..][1..] == [];
  }

  /** Listing round trip: decoding the listing of any slots (of storable
    * entries) yields exactly the used slots' entries, in slot order. */
  lemma {:induction false} ListingRoundTrip(slots: seq<Option<Entry>>, k: nat)
    requires AllStorable(slots) && k <= |slots|
    ensures Entries(Listing(slots), k) == Success(Present(slots[..k]))
  {
    if k > 0 {
      ListingRoundTrip(slots, k - 1);
      var prefix := slots[..k];
      assert prefix[..k - 1] == slots[..k - 1] && prefix[k - 1] == slots[k - 1];
      ListingAt(slots, k - 1, 0);
      var buffer := Listing(slots);
      assert buffer[4 * (k - 1)] == SlotBytes(slots[k - 1])[0];
      if slots[k - 1].Some? {
        SlotRoundTrip(slots, k - 1);
        assert Present(prefix) == Present(slots[..k - 1]) + [slots[k - 1].value];
      } else {
        assert Present(prefix) == Present(slots[..k - 1]);
      }
    }
  }

  /** Example: the used slot `[0x01, 0x03, 0x05, 0x00]` is a bitmap with index 1 and size 5. */
  lemma SlotExample()
    ensures var listing: seq<byte> := [0x01, 0x03, 0x05, 0x00];
      Entries(listing, 1) == Success([Entry(BitmapFile, 1, 5)])
  {
    var listing: seq<byte> := [0x01, 0x03, 0x05, 0x00];
    assert Slice(listing, 2, 4) == [0x05, 0x00];
    LittleEndianPair([0x05, 0x00]);
    assert SlotEntry(listing, 0) == Entry(BitmapFile, 1, 5);
    assert Entries(listing, 0) == Success([]);
    assert Entries(listing, 1) == Success([] + [Entry(BitmapFile, 1, 5)]);
    assert [] + [Entry(BitmapFile, 1, 5)] == [Entry(BitmapFile, 1, 5)];
  }

  // ----- panel conversations -----

  /** `getFreeSpaceInBytes`: the query, then four bytes read as an unsigned
    * little-endian number (fewer bytes when fewer arrive). */
  method GetFreeSpace(panel: Panel) returns (size: nat)
    modifies panel.port
    ensures panel.port.written == old(panel.port.written) + [[0xFE, 0xAF]]
    ensures var reply := old(panel.port.input)[..Delivered(4, |old(panel.port.input)|)];
      size == FromLittleEndian(reply) && size < 0x1_0000_0000
      && panel.port.input == old(panel.port.input)[|reply|..]
    ensures panel.port.resets == old(panel.port.resets)
  {
    panel.WriteBytes([0xFE, 0xAF]);
    var data := panel.ReadBytes(4);
    size := FromLittleEndian(data);
    assert Pow256(|data|) <= 0x1_0000_0000 by {
      assert Pow256(4) == 0x1_0000_0000;
      PowMonotone(|data|, 4);
    }
  }

  lemma {:induction false} PowMonotone(i: nat, j: nat)
    requires i <= j
    ensures Pow256(i) <= Pow256(j)
  {
    if i < j {
      PowMonotone(i, j - 1);
    }
  }

  /** The commands every transfer starts with: auto-transmit off, the key
    * buffer cleared (input is discarded right after it), then the request. */
  function Opening(request: seq<int>): (r: seq<seq<int>>)
    ensures |r| == 3 && r[0] == [0xFE, 0x4F] && r[1] == [0xFE, 0x45] && r[2] == request
  {
    [AutoTransmitCommand(false), [0xFE, 0x45], request]
  }

  /** `ls`: sends the listing request inside the transfer prologue, reads a
    * one-byte count (none arriving raises, leaving auto-transmit off), reads
    * four bytes per entry in one read, switches auto-transmit back on and
    * decodes the listing. */
  method Ls(panel: Panel) returns (r: Result<seq<Entry>, FsError>)
    requires panel.Valid()
    modifies panel.keyboard, panel.port
    ensures panel.Valid()
    ensures panel.port.resets == old(panel.port.resets) + [|old(panel.port.written)| + 2]
    ensures var input := old(panel.port.input);
      if input == [] then
        r == Failure(OutOfRange) && !panel.keyboard.autoTransmitKeyPressed
        && panel.port.written == old(panel.port.written) + Opening([0xFE, 0xB3])
        && panel.port.input == input
      else
        var count := input[0];
        var listing := input[1..][..Delivered(4 * (count as int), |input| - 1)];
        r == Entries(listing, count) && panel.keyboard.autoTransmitKeyPressed
        && panel.port.written == old(panel.port.written) + Opening([0xFE, 0xB3]) + [[0xFE, 0x41]]
        && panel.port.input == input[1 + |listing|..]
  {
    panel.SetAutoTransmitKeyPressed(false);
    panel.ResetInputState();
    panel.WriteBytes([0xFE, 0xB3]);
    var countBytes := panel.ReadBytes(1);
    if |countBytes| == 0 {
      return Failure(OutOfRange);
    }
    var entriesCount := countBytes[0];
    var buffer := panel.ReadBytes(4 * (entriesCount as int));
    panel.SetAutoTransmitKeyPressed(true);
    r := DecodeEntries(buffer, entriesCount);
  }

  /** `download`: the transfer prologue with the download request, a
    * four-byte little-endian size; an empty file gives `None` with no further
    * read, otherwise that many bytes are read (a short read gives fewer).
    * Auto-transmit is back on along both paths. */
  method Download(panel: Panel, fileType: FileType, fileId: int) returns (r: Option<seq<byte>>)
    requires panel.Valid()
    modifies panel.keyboard, panel.port
    ensures panel.Valid() && panel.keyboard.autoTransmitKeyPressed
    ensures panel.port.written
      == old(panel.port.written) + Opening([0xFE, 0xB2, FileTypeValue(fileType), fileId]) + [[0xFE, 0x41]]
    ensures panel.port.resets == old(panel.port.resets) + [|old(panel.port.written)| + 2]
    ensures var input := old(panel.port.input);
      var sizeBytes := input[..Delivered(4, |input|)];
      var rest := input[|sizeBytes|..];
      var size := FromLittleEndian(sizeBytes);
      (r.None? <==> size == 0)
      && (r.None? ==> panel.port.input == rest)
      && (r.Some? ==> r.value == rest[..Delivered(size, |rest|)] && panel.port.input == rest[|r.value|..])
  {
    panel.SetAutoTransmitKeyPressed(false);
    panel.ResetInputState();
    panel.WriteBytes([0xFE, 0xB2, FileTypeValue(fileType), fileId]);
    var sizeBytes := panel.ReadBytes(4);
    var fileSizeInBytes := FromLittleEndian(sizeBytes);
    if fileSizeInBytes == 0 {
      panel.SetAutoTransmitKeyPressed(true);
      return None;
    }
    var buffer := panel.ReadBytes(fileSizeInBytes);
    panel.SetAutoTransmitKeyPressed(true);
    return Some(buffer);
  }

  /** `upload` has no body yet: it sends nothing and returns `None`. */
  method Upload(panel: Panel, fileType: FileType, fileId: int) returns (r: Option<seq<byte>>)
    ensures r.None?
  {
    return None;
  }

  /** `dumpAll`: the transfer prologue with the dump request, a four-byte
    * little-endian size, then that many bytes (what goes to the output
    * file), then auto-transmit back on. */
  method DumpAll(panel: Panel) returns (dump: seq<byte>)
    requires panel.Valid()
    modifies panel.keyboard, panel.port
    ensures panel.Valid() && panel.keyboard.autoTransmitKeyPressed
    ensures panel.port.written == old(panel.port.written) + Opening([0xFE, 0x30]) + [[0xFE, 0x41]]
    ensures panel.port.resets == old(panel.port.resets) + [|old(panel.port.written)| + 2]
    ensures var input := old(panel.port.input);
      var sizeBytes := input[..Delivered(4, |input|)];
      var rest := input[|sizeBytes|..];
      dump == rest[..Delivered(FromLittleEndian(sizeBytes), |rest|)] && panel.port.input == rest[|dump|..]
  {
    panel.SetAutoTransmitKeyPressed(false);
    panel.ResetInputState();
    panel.WriteBytes([0xFE, 0x30]);
    var sizeBytes := panel.ReadBytes(4);
    var filesystemSize := FromLittleEndian(sizeBytes);
    dump := panel.ReadBytes(filesystemSize);
    panel.SetAutoTransmitKeyPressed(true);
  }

  // ----- fontBuffer2Dict -----

  /** A char of the dictionary: its table entry and the glyph bytes sliced
    * from the buffer. */
  datatype DictChar = DictChar(offset: nat, width: byte, data: seq<byte>)

  datatype FontDict = FontDict(fileSizeIncludingHeader: nat, nominalWidth: byte, height: byte,
                               asciiStart: byte, asciiEnd: byte, chars: seq<DictChar>)

  /** The char whose table entry starts at `pos`; its slice is one byte
    * longer than the glyph's `ceil(height * width / 8)` bytes. */
  function DictCharAt(buf: seq<byte>, height: nat, pos: nat): (r: DictChar)
    requires pos + 2 < |buf|
    ensures r.width == buf[pos + 2] && r.offset == FromBigEndian(buf[pos .. pos + 2])
  {
    var offset := FromBigEndian(buf[pos .. pos + 2]);
    var width := buf[pos + 2];
    DictChar(offset, width, Slice(buf, offset, offset + BytesPerChar(height, width) + 1))
  }

  /** What `fontBuffer2Dict` returns, or the `IndexError` it raises. */
  function FontDictOf(buf: seq<byte>): Result<FontDict, FsError>
  {
    if |buf| < 4 then Failure(OutOfRange)
    else
      var n := CharCount(buf[2], buf[3]);
      if 4 + 3 * n > |buf| then Failure(OutOfRange)
      else Success(FontDict(|buf|, buf[0], buf[1], buf[2], buf[3],
        seq(n, i requires 0 <= i < n => DictCharAt(buf, buf[1], 4 + 3 * i))))
  }

  /** `fontBuffer2Dict`: the header, then one table entry per code point with
    * a running index, appending to the chars. */
  method FontBuffer2Dict(inputBuffer: seq<byte>) returns (r: Result<FontDict, FsError>)
    ensures r == FontDictOf(inputBuffer)
  {
    if |inputBuffer| < 4 {
      return Failure(OutOfRange);
    }
    var height := inputBuffer[1];
    var n := CharCount(inputBuffer[2], inputBuffer[3]);
    var chars: seq<DictChar> := [];
    var bufferIndex := 4;
    var i := 0;
    while i < n
      invariant 0 <= i <= n
      invariant bufferIndex == 4 + 3 * i <= |inputBuffer|
      invariant chars == seq(i, j requires 0 <= j < i => DictCharAt(inputBuffer, height, 4 + 3 * j))
    {
      var entry := ReadDictChar(inputBuffer, height, bufferIndex);
      if entry.None? {
        return Failure(OutOfRange);
      }
      chars := chars + [entry.value];
      bufferIndex := bufferIndex + 3;
      i := i + 1;
    }
    return Success(FontDict(|inputBuffer|, inputBuffer[0], inputBuffer[1], inputBuffer[2], inputBuffer[3], chars));
  }

  /** One table entry of `fontBuffer2Dict`, or `None` where reading its
    * width raises. */
  method ReadDictChar(inputBuffer: seq<byte>, height: nat, bufferIndex: nat) returns (r: Option<DictChar>)
    ensures bufferIndex + 2 < |inputBuffer| ==> r == Some(DictCharAt(inputBuffer, height, bufferIndex))
    ensures bufferIndex + 2 >= |inputBuffer| ==> r.None?
  {
    var offset := FromBigEndian(Slice(inputBuffer, bufferIndex, bufferIndex + 2));
    var index := bufferIndex + 2;
    if index >= |inputBuffer| {
      return None;
    }
    var width := inputBuffer[index];
    var data := Slice(inputBuffer, offset, offset + BytesPerChar(height, width) + 1);
    return Some(DictChar(offset, width, data));
  }

  /** The two font parsers read the same header and table: they fail on the
    * same non-empty buffers (only the empty buffer, `None` for `fromBuffer`,
    * raises here), agree on header and widths, and each glyph of
    * `fontBuffer2Dict` extends the `fromBuffer` glyph by at most one byte,
    * by exactly one when the buffer holds it. */
  lemma DictExtendsDecode(buf: seq<byte>, i: nat)
    ensures buf == [] ==> Decode(buf) == Failure(EmptyBuffer) && FontDictOf(buf) == Failure(OutOfRange)
    ensures buf != [] ==> (Decode(buf).Success? <==> FontDictOf(buf).Success?)
    ensures FontDictOf(buf).Success? && buf != [] ==>
      var d := FontDictOf(buf).value;
      var f := Decode(buf).value;
      d.fileSizeIncludingHeader == |buf|
      && (f.nominalWidth, f.height, f.asciiStart, f.asciiEnd) == (d.nominalWidth, d.height, d.asciiStart, d.asciiEnd)
      && |f.chars| == |d.chars|
      && (i < |d.chars| ==>
            f.chars[i].width == d.chars[i].width
            && f.chars[i].data <= d.chars[i].data && |d.chars[i].data| <= |f.chars[i].data| + 1
            && (d.chars[i].offset + BytesPerChar(d.height, d.chars[i].width) < |buf| ==>
                  |d.chars[i].data| == |f.chars[i].data| + 1))
  {
    if FontDictOf(buf).Success? && buf != [] && i < |FontDictOf(buf).value.chars| {
      var d := FontDictOf(buf).value;
      var f := Decode(buf).value;
      var c := d.chars[i];
      assert c == DictCharAt(buf, buf[1], 4 + 3 * i);
      assert f.chars[i] == DecodeChar(buf, buf[1], 4 + 3 * i);
    }
  }

  // ----- fontDict2UnpackedNumpyArray -----

  /** The dictionary's chars as a font, for the shared glyph unpacking. */
  function DictFont(d: FontDict): (f: Font)
    ensures |f.chars| == |d.chars| && f.height == d.height && f.asciiStart == d.asciiStart
  {
    Font(d.nominalWidth, d.height, d.asciiStart, d.asciiEnd,
         seq(|d.chars|, i requires 0 <= i < |d.chars| => Char(d.chars[i].width, d.chars[i].data)))
  }

  /** What `fontDict2UnpackedNumpyArray` produces (before formatting): `None`
    * for height 0 and at the first char of width 0, otherwise the glyphs
    * keyed by code point, or the reshape error. */
  function UnpackDict(d: FontDict): Result<Option<map<nat, seq<seq<int>>>>, UnpackError>
  {
    if d.height == 0 then Success(None)
    else match Unpack(DictFont(d))
      case Success(u) => Success(Some(u.glyphs))
      case Failure(ZeroWidth) => Success(None)
      case Failure(e) => Failure(e)
  }

  /** The zero guards: height 0 gives `None` before any char is looked at; a
    * char of width 0 gives `None` once every char before it has unpacked. */
  lemma UnpackDictGuards(d: FontDict, i: nat)
    ensures d.height == 0 ==> UnpackDict(d) == Success(None)
    ensures d.height != 0 && i < |d.chars| && d.chars[i].width == 0
      && (forall j :: 0 <= j < i ==> Unpacks(DictFont(d).chars[j], d.height))
      ==> UnpackDict(d) == Success(None)
  {
    var f := DictFont(d);
    if d.height != 0 && i < |d.chars| && d.chars[i].width == 0
      && (forall j :: 0 <= j < i ==> Unpacks(f.chars[j], d.height)) {
      assert f.chars[i].width == 0;
      FirstBadChar(f, i);
    }
  }

  /** The extra byte of `fontBuffer2Dict` is harmless: a dictionary whose
    * glyphs have their full `ceil(height * width / 8) + 1` bytes and nonzero
    * widths unpacks to glyphs of `height` rows for every code point. */
  lemma UnpackDictComplete(d: FontDict)
    requires d.height != 0
    requires forall i :: 0 <= i < |d.chars| ==>
      d.chars[i].width > 0 && |d.chars[i].data| == BytesPerChar(d.height, d.chars[i].width) + 1
    ensures UnpackDict(d).Success? && UnpackDict(d).value.Some?
    ensures var m := UnpackDict(d).value.value;
      (forall key :: key in m <==> d.asciiStart <= key < d.asciiStart + |d.chars|)
      && forall key :: key in m ==> |m[key]| == d.height
  {
    var f := DictFont(d);
    forall i | 0 <= i < |f.chars|
      ensures Unpacks(f.chars[i], f.height) && |Glyph(f.chars[i], f.height).value| == f.height
    {
      FullCharUnpacks(f.chars[i], f.height);
    }
    UnpackGlyphs(f);
    var m := Unpack(f).value.glyphs;
    forall key | key in m
      ensures |m[key]| == d.height
    {
      var i := key - f.asciiStart;
      assert m[f.asciiStart + i] == Glyph(f.chars[i], f.height).value;
    }
  }

  /** A char of positive width holding its whole glyph unpacks to `height` rows. */
  lemma FullCharUnpacks(c: Char, height: nat)
    requires height != 0 && c.width > 0 && |c.data| >= BytesPerChar(height, c.width)
    ensures Unpacks(c, height) && |Glyph(c, height).value| == height
  {
    var taken := Slice(UnpackBits(c.data), 0, height * c.width);
    assert |taken| == height * c.width;
    RowsCount(taken, c.width, height);
  }

  /** `fontDict2UnpackedNumpyArray`: the height guard, then the per-char loop. */
  method FontDict2Unpacked(d: FontDict) returns (r: Result<Option<map<nat, seq<seq<int>>>>, UnpackError>)
    ensures r == UnpackDict(d)
  {
    if d.height == 0 {
      return Success(None);
    }
    var u := UnpackFont(DictFont(d));
    match u
    case Success(v) => r := Success(Some(v.glyphs));
    case Failure(ZeroWidth) => r := Success(None);
    case Failure(e) => r := Failure(e);
  }
}
