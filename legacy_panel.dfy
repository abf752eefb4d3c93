/** `PyMOPanel.py` (repository root): the first-generation driver, one class
  * that stores brightness and contrast itself, writes every command
  * directly and ends its fixed commands with a 0x10 byte. */
module LegacyPanel {
  import opened Wrappers
  import opened Bytes
  import opened SerialLink
  import opened Helpers
  import opened Gpo
  import opened Keyboard
  import opened Texts

  // ----- the keypad listener -----

  /** What the listener has done so far: the stored levels and the writes. */
  datatype LegacyState = LegacyState(brightness: int, contrast: int, writes: seq<seq<int>>)

  /** One key: up adds 20 to the brightness modulo 256 (`& 0xFF`), down
    * subtracts 20 stopping at 0, left subtracts 5 from the contrast stopping
    * at 0, right adds 5 modulo 256; each stores the level and writes it, with
    * no check for an unchanged value. Other keys do nothing. */
  function LegacyStep(s: LegacyState, key: byte): LegacyState
  {
    if key == UpKey then
      var b := (s.brightness + 20) % 256; s.(brightness := b, writes := s.writes + [[0xFE, 0x99, b]])
    else if key == DownKey then
      var b := Max(s.brightness - 20, 0); s.(brightness := b, writes := s.writes + [[0xFE, 0x99, b]])
    else if key == LeftKey then
      var c := Max(s.contrast - 5, 0); s.(contrast := c, writes := s.writes + [[0xFE, 0x50, c]])
    else if key == RightKey then
      var c := (s.contrast + 5) % 256; s.(contrast := c, writes := s.writes + [[0xFE, 0x50, c]])
    else s
  }

  /** `data_received`: the keys handled in order. */
  function LegacyControl(s: LegacyState, data: seq<byte>): LegacyState
  {
    if data == [] then s else LegacyStep(LegacyControl(s, data[..|data| - 1]), data[|data| - 1])
  }

  /** Levels that start as bytes stay bytes; exactly one level command is
    * written per arrow key and none for other keys. */
  lemma {:induction false} LegacyControlWrites(s: LegacyState, data: seq<byte>)
    requires IsByte(s.brightness) && IsByte(s.contrast)
    ensures var t := LegacyControl(s, data);
      IsByte(t.brightness) && IsByte(t.contrast)
      && |t.writes| == |s.writes| + |data| - |NonControlKeys(data)| && t.writes[..|s.writes|] == s.writes
      && forall i :: |s.writes| <= i < |t.writes| ==> IsLevelCommand(t.writes[i])
  {
    if data != [] {
      LegacyControlWrites(s, data[..|data| - 1]);
    }
  }

  /** The first and the current generation step the levels alike: from byte
    * levels, the listener here and the keypad callback of the current driver
    * reach the same brightness and contrast for any keys (only their writes
    * differ, the current driver skipping unchanged values). */
  lemma {:induction false} LegacyAgreesWithCallback(b: byte, c: byte, writes: seq<seq<int>>,
                                                   ignored: seq<byte>, data: seq<byte>, save: bool)
    ensures var t := LegacyControl(LegacyState(b, c, writes), data);
      var u := Control(ControlState(b, c, ignored, writes), data, save);
      t.brightness == u.brightness && t.contrast == u.contrast
  {
    if data != [] {
      LegacyAgreesWithCallback(b, c, writes, ignored, data[..|data| - 1], save);
      LegacyControlWrites(LegacyState(b, c, writes), data[..|data| - 1]);
    }
  }

  // ----- LEDs -----

  /** The (msb, lsb) GPOs of LEDs numbered from 1, as written: LED 1 drives
    * GPOs 0 and 1, LED 2 GPOs 4 and 3, any other number GPOs 6 and 5. */
  function LegacyLedGposAsWritten(led: int): (r: (int, int))
    ensures led == 1 ==> r == (0, 1)
    ensures led != 1 ==> r == LegacyLedGpos(led)
  {
    if led == 1 then (0, 1) else if led == 2 then (4, 3) else (6, 5)
  }

  /** As written, LED 1 drives GPO 0, which no LED of the panel uses, and no
    * LED number drives GPO 2, the high GPO of the first LED. */
  lemma LegacyLedGposFinding()
    ensures LegacyLedGposAsWritten(1).0 == 0
    ensures forall slot :: 0 <= slot < 3 ==> Registers(slot).0 != 0 && Registers(slot).1 != 0
    ensures forall led :: LegacyLedGposAsWritten(led).0 != 2 && LegacyLedGposAsWritten(led).1 != 2
  {
  }

  /** The evidently intended mapping: LEDs 1, 2, 3 are the panel's LEDs 0, 1, 2,
    * so LED 1 drives GPOs 2 and 1; any other number falls to the third LED. */
  function LegacyLedGpos(led: int): (r: (int, int))
    ensures 1 <= led <= 3 ==> r == Registers(led - 1)
    ensures !(1 <= led <= 3) ==> r == Registers(2)
  {
    if led == 1 then (2, 1) else if led == 2 then (4, 3) else (6, 5)
  }

  /** A 0x10-terminated fixed command: `[0xFE, opcode, 0x10]`. */
  function Trailed(opcode: int): (r: seq<int>)
    ensures |r| == 3 && r[0] == 0xFE && r[1] == opcode && r[2] == 0x10
  {
    [0xFE, opcode, 0x10]
  }

  /** What `dumpFileFromFilesystem` reads: the first two bytes of the file
    * (width and height) and the rest, which go to the two output files. */
  datatype DumpedFile = DumpedFile(width: nat, height: nat, data: seq<byte>)

  /** Proof helper: four reads in a row consume `a`, `b`, `c`, `d` from the front of the queue. */
  lemma ConcatChain(in0: seq<byte>, a: seq<byte>, in1: seq<byte>, b: seq<byte>, in2: seq<byte>,
                    c: seq<byte>, in3: seq<byte>, d: seq<byte>, rest: seq<byte>)
    requires in0 == a + in1 && in1 == b + in2 && in2 == c + in3 && in3 == d + rest
    ensures in0 == a + b + c + d + rest
    ensures in1 == in0[|a|..] && in2 == in1[|b|..] && in3 == in2[|c|..]
  {
  }

  class LegacyMatrixOrbital {
    const port: Port
    var brightness: int
    var contrast: int

    /** Sets brightness 200, then contrast 128. */
    constructor (port: Port)
      modifies port
      ensures this.port == port && brightness == 200 && contrast == 128
      ensures port.written == old(port.written) + [[0xFE, 0x99, 200], [0xFE, 0x50, 128]]
      ensures port.input == old(port.input) && port.resets == old(port.resets)
    {
      this.port := port;
      new;
      SetBrightness(200);
      SetContrast(128);
    }

    /** Stores the value and always writes it, unchanged or not and unsanitised. */
    method SetBrightness(value: int)
      modifies this, port
      ensures brightness == value && contrast == old(contrast)
      ensures port.written == old(port.written) + [[0xFE, 0x99, value]]
      ensures port.input == old(port.input) && port.resets == old(port.resets)
    {
      brightness := value;
      port.Write([0xFE, 0x99, value]);
    }

    method SetContrast(value: int)
      modifies this, port
      ensures contrast == value && brightness == old(brightness)
      ensures port.written == old(port.written) + [[0xFE, 0x50, value]]
      ensures port.input == old(port.input) && port.resets == old(port.resets)
    {
      contrast := value;
      port.Write([0xFE, 0x50, value]);
    }

    /** The listener's `data_received`, stepping this panel's levels key by key. */
    method DataReceived(data: seq<byte>)
      modifies this, port
      ensures var t := LegacyControl(LegacyState(old(brightness), old(contrast), old(port.written)), data);
        brightness == t.brightness && contrast == t.contrast && port.written == t.writes
      ensures port.input == old(port.input) && port.resets == old(port.resets)
    {
      ghost var s0 := LegacyState(brightness, contrast, port.written);
      var i := 0;
      while i < |data|
        invariant 0 <= i <= |data|
        invariant var t := LegacyControl(s0, data[..i]);
          brightness == t.brightness && contrast == t.contrast && port.written == t.writes
        invariant port.input == old(port.input) && port.resets == old(port.resets)
      {
        var currentByte := data[i];
        if currentByte == UpKey {
          SetBrightness((brightness + 20) % 256);
        } else if currentByte == DownKey {
          SetBrightness(Max(brightness - 20, 0));
        } else if currentByte == LeftKey {
          SetContrast(Max(contrast - 5, 0));
        } else if currentByte == RightKey {
          SetContrast((contrast + 5) % 256);
        }
        assert data[..i + 1][..i] == data[..i];
        i := i + 1;
      }
      assert data[..|data|] == data;
    }

    method SetGpoState(gpio: int, value: int)
      modifies port
      ensures port.written == old(port.written) + [GpoCommand(gpio, value)]
      ensures port.input == old(port.input) && port.resets == old(port.resets)
    {
      port.Write(GpoCommand(gpio, value));
    }

    /** `setLedState` as written, with LED 1 on GPOs 0 and 1; a state too
      * short to index raises at the missing element. */
    method SetLedStateAsWritten(led: int, state: seq<int>) returns (ok: bool)
      modifies port
      ensures ok <==> |state| >= 2
      ensures |state| == 0 ==> port.written == old(port.written)
      ensures |state| == 1 ==> port.written == old(port.written) + [GpoCommand(LegacyLedGposAsWritten(led).0, state[0])]
      ensures ok ==>
        port.written == old(port.written)
          + [GpoCommand(LegacyLedGposAsWritten(led).0, state[0]), GpoCommand(LegacyLedGposAsWritten(led).1, state[1])]
      ensures port.input == old(port.input) && port.resets == old(port.resets)
    {
      var gpoMsb := if led == 1 then 0 else if led == 2 then 4 else 6;
      var gpoLsb := if led == 1 then 1 else if led == 2 then 3 else 5;
      if |state| < 1 {
        return false;
      }
      SetGpoState(gpoMsb, state[0]);
      if |state| < 2 {
        return false;
      }
      SetGpoState(gpoLsb, state[1]);
      return true;
    }

    /** `setLedState` with LED 1 on GPOs 2 and 1. */
    method SetLedState(led: int, state: seq<int>) returns (ok: bool)
      modifies port
      ensures ok <==> |state| >= 2
      ensures |state| == 0 ==> port.written == old(port.written)
      ensures |state| == 1 ==> port.written == old(port.written) + [GpoCommand(LegacyLedGpos(led).0, state[0])]
      ensures ok ==>
        port.written == old(port.written) + [GpoCommand(LegacyLedGpos(led).0, state[0]), GpoCommand(LegacyLedGpos(led).1, state[1])]
      ensures port.input == old(port.input) && port.resets == old(port.resets)
    {
      var (gpoMsb, gpoLsb) := LegacyLedGpos(led);
      if |state| < 1 {
        return false;
      }
      SetGpoState(gpoMsb, state[0]);
      if |state| < 2 {
        return false;
      }
      SetGpoState(gpoLsb, state[1]);
      return true;
    }

    /** `setLedYellow`/`setLedGreen`/`setLedRed`/`setLedOff` on LEDs 1..3:
      * the same two writes as the current LED manager's `setLed` on LED `led - 1`. */
    method SetLedColour(led: int, colour: LedStatus)
      modifies port
      ensures 1 <= led <= 3 ==> port.written == old(port.written) + LedWrites(led - 1, colour)
      ensures !(1 <= led <= 3) ==> port.written == old(port.written) + LedWrites(2, colour)
      ensures port.input == old(port.input) && port.resets == old(port.resets)
    {
      var ok := SetLedState(led, [MsbLevel(colour), LsbLevel(colour)]);
    }

    method SetDisplayOn()
      modifies port
      ensures port.written == old(port.written) + [Trailed(0x42)]
      ensures port.input == old(port.input) && port.resets == old(port.resets)
    {
      port.Write([0xFE, 0x42, 0x10]);
    }

    method SetDisplayOff()
      modifies port
      ensures port.written == old(port.written) + [Trailed(0x46)]
      ensures port.input == old(port.input) && port.resets == old(port.resets)
    {
      port.Write([0xFE, 0x46, 0x10]);
    }

    method MoveCursorHome()
      modifies port
      ensures port.written == old(port.written) + [Trailed(0x48)]
      ensures port.input == old(port.input) && port.resets == old(port.resets)
    {
      port.Write([0xFE, 0x48, 0x10]);
    }

    method ClearScreen()
      modifies port
      ensures port.written == old(port.written) + [Trailed(0x58)]
      ensures port.input == old(port.input) && port.resets == old(port.resets)
    {
      port.Write([0xFE, 0x58, 0x10]);
    }

    method SetDrawingColor(color: int)
      modifies port
      ensures port.written == old(port.written) + [[0xFE, 0x63, color, 0x10]]
      ensures port.input == old(port.input) && port.resets == old(port.resets)
    {
      port.Write([0xFE, 0x63, color, 0x10]);
    }

    method DrawPixel(x: int, y: int)
      modifies port
      ensures port.written == old(port.written) + [[0xFE, 0x70, x, y, 0x10]]
      ensures port.input == old(port.input) && port.resets == old(port.resets)
    {
      port.Write([0xFE, 0x70, x, y, 0x10]);
    }

    method DrawSolidRectangle(color: int, x0: int, y0: int, x1: int, y1: int)
      modifies port
      ensures port.written == old(port.written) + [[0xFE, 0x78, color, x0, y0, x1, y1]]
      ensures port.input == old(port.input) && port.resets == old(port.resets)
    {
      port.Write([0xFE, 0x78, color, x0, y0, x1, y1]);
    }

    method DrawLine(x0: int, y0: int, x1: int, y1: int)
      modifies port
      ensures port.written == old(port.written) + [[0xFE, 0x6C, x0, y0, x1, y1]]
      ensures port.input == old(port.input) && port.resets == old(port.resets)
    {
      port.Write([0xFE, 0x6C, x0, y0, x1, y1]);
    }

    method SetCursorPos(col: int, row: int)
      modifies port
      ensures port.written == old(port.written) + [[0xFE, 0x47, col, row]]
      ensures port.input == old(port.input) && port.resets == old(port.resets)
    {
      port.Write([0xFE, 0x47, col, row]);
    }

    /** `writeText`: the text's UTF-8 bytes as one write. */
    method WriteText(text: string)
      modifies port
      ensures port.written == old(port.written) + [Utf8(text)]
      ensures port.input == old(port.input) && port.resets == old(port.resets)
    {
      port.Write(Utf8(text));
    }

    method SetSendAllKeyPresses()
      modifies port
      ensures port.written == old(port.written) + [AutoTransmitCommand(true)]
      ensures port.input == old(port.input) && port.resets == old(port.resets)
    {
      port.Write([0xFE, 0x41]);
    }

    /** `dumpFileFromFilesystem`: discards pending input, requests the file,
      * reads a four-byte little-endian size less 2 (negative for a file
      * shorter than two bytes, which then reads nothing), a width byte, a
      * height byte, then the rest of the file. */
    method DumpFileFromFilesystem(fontNoBitmap: bool, fileId: int) returns (r: DumpedFile)
      modifies port
      ensures port.resets == old(port.resets) + [|old(port.written)|]
      ensures port.written == old(port.written) + [[0xFE, 0xB2, if fontNoBitmap then 0 else 1, fileId]]
      ensures var in0 := old(port.input);
        var sizeBytes := in0[..Delivered(4, |in0|)];
        var in1 := in0[|sizeBytes|..];
        var widthBytes := in1[..Delivered(1, |in1|)];
        var in2 := in1[|widthBytes|..];
        var heightBytes := in2[..Delivered(1, |in2|)];
        var in3 := in2[|heightBytes|..];
        r.width == FromLittleEndian(widthBytes) && r.height == FromLittleEndian(heightBytes)
        && r.data == in3[..Delivered(FromLittleEndian(sizeBytes) - 2, |in3|)]
        && in0 == sizeBytes + widthBytes + heightBytes + r.data + port.input
    {
      port.ResetInput();
      port.Write([0xFE, 0xB2, if fontNoBitmap then 0 else 1, fileId]);
      r := ReceiveDump();
    }

    /** The reads of `dumpFileFromFilesystem`: four size bytes, the width and
      * height bytes, then the rest of the file. */
    method ReceiveDump() returns (r: DumpedFile)
      modifies port
      ensures port.resets == old(port.resets) && port.written == old(port.written)
      ensures var in0 := old(port.input);
        var sizeBytes := in0[..Delivered(4, |in0|)];
        var in1 := in0[|sizeBytes|..];
        var widthBytes := in1[..Delivered(1, |in1|)];
        var in2 := in1[|widthBytes|..];
        var heightBytes := in2[..Delivered(1, |in2|)];
        var in3 := in2[|heightBytes|..];
        r.width == FromLittleEndian(widthBytes) && r.height == FromLittleEndian(heightBytes)
        && r.data == in3[..Delivered(FromLittleEndian(sizeBytes) - 2, |in3|)]
        && in0 == sizeBytes + widthBytes + heightBytes + r.data + port.input
    {
      ghost var in0 := port.input;
      var sizeBytes := port.Read(4);
      var fileSizeInBytes := FromLittleEndian(sizeBytes) - 2;
      ghost var in1 := port.input;
      var widthBytes := port.Read(1);
      ghost var in2 := port.input;
      var heightBytes := port.Read(1);
      ghost var in3 := port.input;
      var data := port.Read(fileSizeInBytes);
      r := DumpedFile(FromLittleEndian(widthBytes), FromLittleEndian(heightBytes), data);
      ConcatChain(in0, sizeBytes, in1, widthBytes, in2, heightBytes, in3, data, port.input);
    }
  }
}
