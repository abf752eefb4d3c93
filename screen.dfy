/** `PyMOPanel/screen.py`: brightness, contrast and display on/off, with the
  * setters skipping the command when the sanitised value is already stored. */
module Screens {
  import opened Bytes
  import opened SerialLink
  import opened Helpers

  /** What a deduplicating setter writes: nothing when the sanitised value is
    * the stored one, otherwise one command carrying the sanitised value. */
  function DedupWrites(stored: byte, value: int, opcode: byte): (r: seq<seq<int>>)
    ensures r == [] <==> SanitizeUint8(value) == stored
    ensures r != [] ==> r == [[0xFE, opcode, SanitizeUint8(value)]]
  {
    if SanitizeUint8(value) == stored then [] else [[0xFE, opcode, SanitizeUint8(value)]]
  }

  /** Setting the value just set again writes nothing. */
  lemma DedupRepeat(stored: byte, value: int, opcode: byte)
    ensures DedupWrites(SanitizeUint8(value), value, opcode) == []
    ensures DedupWrites(SanitizeUint8(value), SanitizeUint8(value), opcode) == []
  {
    SanitizeUint8Idempotent(value);
  }

  /** `inc(d)` is `set(stored + d)`: below 0 it clamps to 0, above 255 it wraps. */
  lemma IncClampsAndWraps(stored: byte, increment: int)
    ensures stored + increment < 0 ==> SanitizeUint8(stored + increment) == 0
    ensures 256 <= stored + increment < 512 ==> SanitizeUint8(stored + increment) == stored + increment - 256
    ensures 0 <= stored + increment < 256 ==> SanitizeUint8(stored + increment) == stored + increment
  {
  }

  /** Examples: a step past 255 wraps and a step below 0 clamps. */
  lemma IncExamples()
    ensures SanitizeUint8(250 + 20) == 14 && SanitizeUint8(10 - 20) == 0 && SanitizeUint8(128 + 5) == 133
  {
  }

  class Screen {
    const port: Port
    var brightness: byte
    var contrast: byte
    /** Whether the display was last switched on. */
    var status: bool

    /** Clears the screen, sets brightness and contrast (both start unset, so
      * both commands are written) and switches the display on. */
    constructor (port: Port, initBrightness: int, initContrast: int)
      modifies port
      ensures this.port == port
      ensures brightness == SanitizeUint8(initBrightness) && contrast == SanitizeUint8(initContrast) && status
      ensures port.written == old(port.written)
        + [[0xFE, 0x58], [0xFE, 0x99, SanitizeUint8(initBrightness)],
           [0xFE, 0x50, SanitizeUint8(initContrast)], [0xFE, 0x42, 0]]
      ensures port.input == old(port.input) && port.resets == old(port.resets)
    {
      this.port := port;
      brightness := SanitizeUint8(initBrightness);
      contrast := SanitizeUint8(initContrast);
      status := true;
      new;
      port.Write([0xFE, 0x58]);
      port.Write([0xFE, 0x99, brightness]);
      port.Write([0xFE, 0x50, contrast]);
      port.Write([0xFE, 0x42, 0]);
    }

    method Clear()
      modifies port
      ensures port.written == old(port.written) + [[0xFE, 0x58]]
      ensures port.input == old(port.input) && port.resets == old(port.resets)
    {
      port.Write([0xFE, 0x58]);
    }

    /** `enable(value, minsToEnable)`: on takes the minutes parameter unsanitised. */
    method Enable(value: bool, minsToEnable: int)
      modifies this, port
      ensures status == value && brightness == old(brightness) && contrast == old(contrast)
      ensures port.written == old(port.written) + [if value then [0xFE, 0x42, minsToEnable] else [0xFE, 0x46]]
      ensures port.input == old(port.input) && port.resets == old(port.resets)
    {
      status := value;
      if value {
        port.Write([0xFE, 0x42, minsToEnable]);
      } else {
        port.Write([0xFE, 0x46]);
      }
    }

    method SetBrightness(value: int)
      modifies this, port
      ensures brightness == SanitizeUint8(value) && contrast == old(contrast) && status == old(status)
      ensures port.written == old(port.written) + DedupWrites(old(brightness), value, 0x99)
      ensures port.input == old(port.input) && port.resets == old(port.resets)
    {
      var sanitized := SanitizeUint8(value);
      if sanitized == brightness {
        return;
      }
      brightness := sanitized;
      port.Write([0xFE, 0x99, sanitized]);
    }

    method IncBrightness(increment: int)
      modifies this, port
      ensures brightness == SanitizeUint8(old(brightness) + increment)
      ensures contrast == old(contrast) && status == old(status)
      ensures port.written == old(port.written) + DedupWrites(old(brightness), old(brightness) + increment, 0x99)
      ensures port.input == old(port.input) && port.resets == old(port.resets)
    {
      SetBrightness(brightness + increment);
    }

    method SetContrast(value: int)
      modifies this, port
      ensures contrast == SanitizeUint8(value) && brightness == old(brightness) && status == old(status)
      ensures port.written == old(port.written) + DedupWrites(old(contrast), value, 0x50)
      ensures port.input == old(port.input) && port.resets == old(port.resets)
    {
      var sanitized := SanitizeUint8(value);
      if sanitized == contrast {
        return;
      }
      contrast := sanitized;
      port.Write([0xFE, 0x50, sanitized]);
    }

    method IncContrast(increment: int)
      modifies this, port
      ensures contrast == SanitizeUint8(old(contrast) + increment)
      ensures brightness == old(brightness) && status == old(status)
      ensures port.written == old(port.written) + DedupWrites(old(contrast), old(contrast) + increment, 0x50)
      ensures port.input == old(port.input) && port.resets == old(port.resets)
    {
      SetContrast(contrast + increment);
    }
  }
}
