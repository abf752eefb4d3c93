/** `old_imm_scripts/MatrixOrbital.py`: the oldest driver. Every command is
  * masked to bytes on the way out and may be sent one byte per write; bitmaps
  * are packed eight pixels per byte, most significant bit first. */
module ImmDriver {
  import opened Wrappers
  import opened Bytes
  import opened SerialLink

  // ----- sendCommand -----

  /** `listToChars`: every element reduced with `& 0xFF`, which for Python's
    * unbounded integers is the non-negative remainder modulo 256. */
  function Mask(command: seq<int>): (r: seq<byte>)
    ensures |r| == |command|
    ensures forall i :: 0 <= i < |r| ==> r[i] == command[i] % 256
  {
    seq(|command|, i requires 0 <= i < |command| => command[i] % 256)
  }

  /** Masking leaves a command of bytes unchanged and is idempotent. */
  lemma MaskKeepsBytes(command: seq<int>)
    ensures (forall i :: 0 <= i < |command| ==> IsByte(command[i])) ==> Mask(command) == command
    ensures Mask(Mask(command)) == Mask(command)
  {
  }

  /** The writes of one-byte mode: each masked byte on its own. */
  function OneByteWrites(bytes: seq<byte>): (r: seq<seq<int>>)
    ensures |r| == |bytes|
    ensures forall i :: 0 <= i < |r| ==> r[i] == [bytes[i]]
  {
    seq(|bytes|, i requires 0 <= i < |bytes| => [bytes[i] as int])
  }

  // ----- the command builders -----

  /** The commands of the driver, one per builder method. */
  datatype ImmCommand =
    | SetBaudRate(rate: int)
    | ClearScreen
    | SetScreen(on: bool)
    | SetBrightness(value: int, saveAsDefault: bool)
    | SetContrast(value: int, saveAsDefault: bool)
    /** `state` as the caller passes it: a `bool` is 0 or 1. */
    | SetGpo(gpo: int, state: int, saveAsDefault: bool)
    | SetAutoTransmitKeyPressed(on: bool)
    | SetAutoRepeatKeyModeResend(on: bool)
    | SetAutoRepeatKeyModeUpDown(on: bool)
    | PollKeyPressed
    | ClearKeyBuffer
    | SetDebounceTime(time: int)
    | SetFontMetrics(leftMargin: int, topMargin: int, charSpacing: int, lineSpacing: int, lastYRow: int)
    | SelectCurrentFont(fontRefId: int)
    | CursorMoveHome
    | SetCursorMoveToPos(col: int, row: int)
    | SetCursorCoordinate(x: int, y: int)
    | SetScroll(on: bool)
    | SetDrawColor(value: int)
    | DrawPixel(x: int, y: int)
    | DrawLine(x0: int, y0: int, x1: int, y1: int)
    | DrawRectangle(color: int, x0: int, y0: int, x1: int, y1: int, solid: bool)

  /** The list a builder hands to `sendCommand`; only an unsupported baud
    * rate fails (the table lookup raises). */
  function CommandList(c: ImmCommand): Option<seq<int>>
  {
    match c
    case SetBaudRate(rate) => if BaudRateCode(rate).Some? then Some([0xFE, 0x39, BaudRateCode(rate).value]) else None
    case ClearScreen => Some([0xFE, 0x58])
    case SetScreen(on) => Some([0xFE, if on then 0x42 else 0x46])
    case SetBrightness(value, save) => Some([0xFE, if save then 0x98 else 0x99, value % 256])
    case SetContrast(value, save) => Some([0xFE, if save then 0x91 else 0x50, value % 256])
    case SetGpo(gpo, state, save) =>
      if !save then Some([0xFE, if state != 0 then 0x57 else 0x56, gpo % 8])
      else Some([0xFE, 0xC3, gpo % 8, state])
    case SetAutoTransmitKeyPressed(on) => Some([0xFE, if on then 0x41 else 0x4F])
    case SetAutoRepeatKeyModeResend(on) => Some(if on then [0xFE, 0x7E, 0x00] else [0xFE, 0x60])
    case SetAutoRepeatKeyModeUpDown(on) => Some(if on then [0xFE, 0x7E, 0x01] else [0xFE, 0x60])
    case PollKeyPressed => Some([0xFE, 0x26])
    case ClearKeyBuffer => Some([0xFE, 0x45])
    case SetDebounceTime(time) => Some([0xFE, 0x55, time % 256])
    case SetFontMetrics(l, t, cs, ls, y) => Some([0xFE, 0x32, l % 256, t % 256, cs % 256, ls % 256, y % 256])
    case SelectCurrentFont(id) => Some([0xFE, 0x31, id % 256])
    case CursorMoveHome => Some([0xFE, 0x48])
    case SetCursorMoveToPos(col, row) => Some([0xFE, 0x47, col, row])
    case SetCursorCoordinate(x, y) => Some([0xFE, 0x79, x, y])
    case SetScroll(on) => Some([0xFE, if on then 0x51 else 0x52])
    case SetDrawColor(value) => Some([0xFE, 0x63, value % 256])
    case DrawPixel(x, y) => Some([0xFE, 0x70, x % 256, y % 256])
    case DrawLine(x0, y0, x1, y1) => Some([0xFE, 0x6C, x0 % 256, y0 % 256, x1 % 256, y1 % 256])
    case DrawRectangle(color, x0, y0, x1, y1, solid) =>
      Some([0xFE, if solid then 0x78 else 0x72, color % 256, x0 % 256, y0 % 256, x1 % 256, y1 % 256])
  }

  /** Every command is framed `0xFE, opcode, …`, and after masking every
    * byte on the wire is the command's value modulo 256. Saving as default
    * switches brightness to 0x98 and contrast to 0x91; a GPO number is
    * reduced to 0..7; a non-zero GPO state selects 0x57, and saving it sends
    * 0xC3 with the state itself, which reaches the wire modulo 256. */
  lemma CommandShapes(c: ImmCommand)
    ensures c.SetBaudRate? ==> (CommandList(c).Some? <==> BaudRateCode(c.rate).Some?)
    ensures !c.SetBaudRate? ==> CommandList(c).Some?
    ensures CommandList(c).Some? ==> |CommandList(c).value| >= 2 && CommandList(c).value[0] == 0xFE
    ensures CommandList(c).Some? ==> Mask(CommandList(c).value)[0] == 0xFE
    ensures c.SetBrightness? ==> CommandList(c).value[1] == (if c.saveAsDefault then 0x98 else 0x99)
    ensures c.SetContrast? ==> CommandList(c).value[1] == (if c.saveAsDefault then 0x91 else 0x50)
    ensures c.SetGpo? ==> 0 <= CommandList(c).value[2] < 8 && (CommandList(c).value[2] - c.gpo) % 8 == 0
    ensures c.SetGpo? && !c.saveAsDefault ==> CommandList(c).value[1] == (if c.state != 0 then 0x57 else 0x56)
    ensures c.SetGpo? && c.saveAsDefault ==>
      Mask(CommandList(c).value) == [0xFE, 0xC3, c.gpo % 8, c.state % 256]
  {
  }

  // ----- ImageHandler.load -----

  /** Python's `x | y` on non-negative integers, bit by bit. */
  function BitOr(x: nat, y: nat): (r: nat)
    decreases x + y
  {
    if x == 0 then y
    else if y == 0 then x
    else 2 * BitOr(x / 2, y / 2) + Max(x % 2, y % 2)
  }

  /** Or-ing a 0/1 pixel into a doubled value adds it. */
  lemma ShiftInBit(acc: nat, bit: nat)
    requires bit <= 1
    ensures BitOr(2 * acc, bit) == 2 * acc + bit
  {
    if acc != 0 && bit != 0 {
      assert BitOr(acc, 0) == acc;
    }
  }

  /** `newbyte = (newbyte << 1) | pixel` over the pixels of one chunk. */
  function ShiftIn(pixels: seq<nat>): nat
  {
    if pixels == [] then 0 else BitOr(2 * ShiftIn(pixels[..|pixels| - 1]), pixels[|pixels| - 1])
  }

  /** For 0/1 pixels, shifting in is reading the pixels as binary digits. */
  lemma {:induction false} ShiftInBits(pixels: seq<nat>)
    requires forall i :: 0 <= i < |pixels| ==> pixels[i] <= 1
    ensures ShiftIn(pixels) == FromBits(pixels)
  {
    if pixels != [] {
      ShiftInBits(pixels[..|pixels| - 1]);
      ShiftInBit(ShiftIn(pixels[..|pixels| - 1]), pixels[|pixels| - 1]);
    }
  }

  /** The pixels right-padded with zeros to a multiple of eight. */
  function Padded(pixels: seq<nat>): (r: seq<nat>)
    ensures |r| % 8 == 0 && |pixels| <= |r| < |pixels| + 8
    ensures r[..|pixels|] == pixels && forall i :: |pixels| <= i < |r| ==> r[i] == 0
  {
    if |pixels| % 8 != 0 then pixels + seq(8 - |pixels| % 8, _ => 0) else pixels
  }

  /** The packed bytes: chunk `k` of eight pixels, shifted in and masked. */
  function Packed(data: seq<nat>): (r: seq<byte>)
    requires |data| % 8 == 0
    ensures |r| == |data| / 8
  {
    seq(|data| / 8, k requires 0 <= k < |data| / 8 => ShiftIn(data[8 * k .. 8 * k + 8]) % 256)
  }

  /** Shifting in one more pixel. */
  lemma ShiftInSnoc(pixels: seq<nat>, p: nat)
    ensures ShiftIn(pixels + [p]) == BitOr(2 * ShiftIn(pixels), p)
  {
    assert (pixels + [p])[..|pixels|] == pixels;
  }

  /** The inner loop of `load`: eight pixels from `pos` shifted into one value. */
  method ShiftEight(data: seq<nat>, pos: nat) returns (newByte: nat)
    requires pos + 8 <= |data|
    ensures newByte == ShiftIn(data[pos..pos + 8])
  {
    newByte := 0;
    var i := 0;
    while i < 8
      invariant 0 <= i <= 8
      invariant newByte == ShiftIn(data[pos..pos + i])
    {
      assert data[pos..pos + i + 1] == data[pos..pos + i] + [data[pos + i]];
      ShiftInSnoc(data[pos..pos + i], data[pos + i]);
      newByte := BitOr(2 * newByte, data[pos + i]);
      i := i + 1;
    }
  }

  /** `ImageHandler.load` over the image's pixel values: pads, then takes
    * eight pixels at a time into one byte. */
  method Load(pixels: seq<nat>) returns (chars: seq<byte>)
    ensures chars == Packed(Padded(pixels))
    ensures |chars| == (|pixels| + 7) / 8
  {
    var data := pixels;
    if |data| % 8 != 0 {
      data := data + seq(8 - |data| % 8, _ => 0);
    }
    assert data == Padded(pixels);
    chars := PackChunks(data);
  }

  /** The `while data` loop of `load`: one byte per eight pixels, in order. */
  method PackChunks(data: seq<nat>) returns (chars: seq<byte>)
    requires |data| % 8 == 0
    ensures chars == Packed(data)
  {
    chars := [];
    var pos := 0;
    while pos < |data|
      invariant pos == 8 * |chars| && pos <= |data|
      invariant forall k :: 0 <= k < |chars| ==> chars[k] == ShiftIn(data[8 * k .. 8 * k + 8]) % 256
    {
      assert pos + 8 <= |data| by {
        assert (|data| - pos) % 8 == 0;
      }
      var newByte := ShiftEight(data, pos);
      chars := chars + [newByte % 256];
      pos := pos + 8;
    }
  }

  /** For eight 0/1 pixels, the packed byte spells them. */
  lemma ChunkBits(chunk: seq<nat>)
    requires |chunk| == 8 && forall i :: 0 <= i < 8 ==> chunk[i] <= 1
    ensures ByteBits(ShiftIn(chunk) % 256) == chunk
  {
    var bits: seq<int> := chunk;
    assert IsBits(bits);
    ShiftInBits(chunk);
    var v := FromBits(bits);
    FromBitsRange(bits);
    assert Pow2(8) == 256;
    assert ShiftIn(chunk) % 256 == v;
    BitsRoundTrip(bits);
    ByteBitsAgree(v);
  }

  /** For 0/1 pixels, each packed byte spells its chunk of eight pixels. */
  lemma PackedChunk(data: seq<nat>, k: nat)
    requires |data| % 8 == 0 && k < |data| / 8
    requires forall i :: 0 <= i < |data| ==> data[i] <= 1
    ensures ByteBits(Packed(data)[k]) == data[8 * k .. 8 * k + 8]
  {
    ChunkBits(data[8 * k .. 8 * k + 8]);
  }

  /** For 0/1 pixels, reading the packed bytes back bit by bit, most
    * significant first, gives the pixels followed by the zero padding. */
  lemma UnpackLoaded(pixels: seq<nat>)
    requires forall i :: 0 <= i < |pixels| ==> pixels[i] <= 1
    ensures UnpackBits(Packed(Padded(pixels))) == Padded(pixels)
    ensures UnpackBits(Packed(Padded(pixels)))[..|pixels|] == pixels
  {
    var data := Padded(pixels);
    var out := Packed(data);
    forall j | 0 <= j < |data|
      ensures UnpackBits(out)[j] == data[j]
    {
      var k, i := j / 8, j % 8;
      PackedChunk(data, k);
      UnpackBitsAt(out, k, i);
      assert data[8 * k .. 8 * k + 8][i] == data[j];
    }
  }

  class ImmMatrixOrbital {
    const port: Port

    constructor (port: Port)
      ensures this.port == port
    {
      this.port := port;
    }

    /** `read`: every byte already waiting. */
    method Read() returns (data: seq<byte>)
      modifies port
      ensures data == old(port.input) && port.input == []
      ensures port.written == old(port.written) && port.resets == old(port.resets)
    {
      data := port.Read(|port.input|);
    }

    /** `sendCommand` without confirmations: the masked command as one write,
      * or, in one-byte mode, one write per byte; returns the bytes written. */
    method SendCommand(command: seq<int>, oneByte: bool) returns (writtenBytes: nat)
      modifies port
      ensures writtenBytes == |command|
      ensures !oneByte ==> port.written == old(port.written) + [Mask(command)]
      ensures oneByte ==> port.written == old(port.written) + OneByteWrites(Mask(command))
      ensures port.input == old(port.input) && port.resets == old(port.resets)
    {
      var chars := Mask(command);
      if !oneByte {
        port.Write(chars);
        return |chars|;
      }
      writtenBytes := 0;
      var i := 0;
      while i < |chars|
        invariant 0 <= i <= |chars| && writtenBytes == i
        invariant port.written == old(port.written) + OneByteWrites(chars[..i])
        invariant port.input == old(port.input) && port.resets == old(port.resets)
      {
        port.Write([chars[i]]);
        assert OneByteWrites(chars[..i + 1]) == OneByteWrites(chars[..i]) + [[chars[i] as int]];
        writtenBytes := writtenBytes + 1;
        i := i + 1;
      }
      assert chars[..|chars|] == chars;
    }

    /** A builder method: its list through `sendCommand`; an unsupported baud
      * rate raises before anything is written. */
    method Send(c: ImmCommand) returns (ok: bool)
      modifies port
      ensures ok <==> CommandList(c).Some?
      ensures ok ==> port.written == old(port.written) + [Mask(CommandList(c).value)]
      ensures !ok ==> port.written == old(port.written)
      ensures port.input == old(port.input) && port.resets == old(port.resets)
    {
      var command := CommandList(c);
      if command.None? {
        return false;
      }
      var n := SendCommand(command.value, false);
      return true;
    }

    /** `printText`: the text's bytes, raw. */
    method PrintText(text: seq<byte>)
      modifies port
      ensures port.written == old(port.written) + [text]
      ensures port.input == old(port.input) && port.resets == old(port.resets)
    {
      port.Write(text);
    }

    /** `printLocatedText`: a font command only for a truthy font id, then
      * the cursor command, then the text. */
    method PrintLocatedText(x: int, y: int, text: seq<byte>, fontRefId: Option<int>)
      modifies port
      ensures var font := if fontRefId.Some? && fontRefId.value != 0
                          then [Mask(CommandList(SelectCurrentFont(fontRefId.value)).value)] else [];
        port.written == old(port.written) + font + [Mask([0xFE, 0x47, x, y]), text]
      ensures port.input == old(port.input) && port.resets == old(port.resets)
    {
      var ok;
      if fontRefId.Some? && fontRefId.value != 0 {
        ok := Send(SelectCurrentFont(fontRefId.value));
      }
      ok := Send(SetCursorMoveToPos(x, y));
      PrintText(text);
    }

    /** `uploadAndShowBitmap`: the masked header, then the packed pixels, as one command. */
    method UploadAndShowBitmap(pixels: seq<nat>, x: int, y: int, w: int, h: int)
      modifies port
      ensures port.written == old(port.written)
        + [[0xFE, 0x64, x % 256, y % 256, w % 256, h % 256] + Packed(Padded(pixels))]
      ensures port.input == old(port.input) && port.resets == old(port.resets)
    {
      var data := Load(pixels);
      var command := [0xFE, 0x64, x % 256, y % 256, w % 256, h % 256] + data;
      MaskKeepsBytes(command);
      var n := SendCommand(command, false);
    }
  }

  /** Opening the driver: a link that is not open raises before any write. */
  method OpenImmDriver(port: Port, isOpen: bool) returns (r: Option<ImmMatrixOrbital>)
    ensures r.Some? <==> isOpen
    ensures r.Some? ==> r.value.port == port && fresh(r.value)
  {
    if !isOpen {
      return None;
    }
    var driver := new ImmMatrixOrbital(port);
    return Some(driver);
  }
}
