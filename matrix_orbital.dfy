/** `PyMOPanel/MatrixOrbital.py`: the earlier facade, which writes the LED,
  * keypad and baud-rate commands itself instead of delegating them. */
module MatrixOrbitalFacade {
  import opened Wrappers
  import opened Bytes
  import opened SerialLink
  import opened Helpers
  import opened Gpo
  import opened Keyboard

  /** The (msb, lsb) GPOs of an LED: 0 and 1 name the first two LEDs and any
    * other number, even a negative one, the third. */
  function LedGpos(led: int): (r: (int, int))
    ensures 0 <= led < 3 ==> r == Registers(led)
    ensures !(0 <= led < 3) ==> r == Registers(2)
  {
    if led == 0 then (2, 1) else if led == 1 then (4, 3) else (6, 5)
  }

  /** The level pair of a colour, as the colour helpers pass it. */
  function ColourLevels(s: LedStatus): (r: seq<int>)
    ensures |r| == 2 && StatusOfLevels(r[0], r[1]) == s
  {
    [MsbLevel(s), LsbLevel(s)]
  }

  class MatrixOrbital {
    const port: Port

    constructor (port: Port)
      ensures this.port == port
    {
      this.port := port;
    }

    /** `setBaudRate`: the same table as the current facade; an unsupported
      * rate raises before anything is written. */
    method SetBaudRate(rate: int) returns (ok: bool)
      modifies port
      ensures ok <==> BaudRateCode(rate).Some?
      ensures ok ==> port.written == old(port.written) + [BaudRateCommand(rate).value]
      ensures !ok ==> port.written == old(port.written)
      ensures port.input == old(port.input) && port.resets == old(port.resets)
    {
      var code := BaudRateCode(rate);
      if code.None? {
        return false;
      }
      port.Write([0xFE, 0x39, code.value]);
      return true;
    }

    method SetGpoState(gpio: int, value: int)
      modifies port
      ensures port.written == old(port.written) + [GpoCommand(gpio, value)]
      ensures port.input == old(port.input) && port.resets == old(port.resets)
    {
      port.Write(GpoCommand(gpio, value));
    }

    /** `setLedState(led, state)`: the msb GPO gets `state[0]`, then the lsb
      * GPO `state[1]`; a state too short to index raises at the missing
      * element, after the msb write when only that one exists. */
    method SetLedState(led: int, state: seq<int>) returns (ok: bool)
      modifies port
      ensures ok <==> |state| >= 2
      ensures |state| == 0 ==> port.written == old(port.written)
      ensures |state| == 1 ==> port.written == old(port.written) + [GpoCommand(LedGpos(led).0, state[0])]
      ensures ok ==>
        port.written == old(port.written) + [GpoCommand(LedGpos(led).0, state[0]), GpoCommand(LedGpos(led).1, state[1])]
      ensures port.input == old(port.input) && port.resets == old(port.resets)
    {
      var gpoMsb := if led == 0 then 2 else if led == 1 then 4 else 6;
      var gpoLsb := if led == 0 then 1 else if led == 1 then 3 else 5;
      if |state| < 1 {
        return false;
      }
      SetGpoState(gpoMsb, state[0]);
      if |state| < 2 {
        return false;
      }
      SetGpoState(gpoLsb, state[1]);
      return true;
    }

    /** `setLedYellow`/`setLedGreen`/`setLedRed`/`setLedOff`: for LEDs 0..2
      * the same two writes as the current LED manager's `setLed`. */
    method SetLedColour(led: int, colour: LedStatus)
      modifies port
      ensures port.written == old(port.written)
        + [GpoCommand(LedGpos(led).0, MsbLevel(colour)), GpoCommand(LedGpos(led).1, LsbLevel(colour))]
      ensures 0 <= led < 3 ==> port.written == old(port.written) + LedWrites(led, colour)
      ensures port.input == old(port.input) && port.resets == old(port.resets)
    {
      var ok := SetLedState(led, ColourLevels(colour));
    }

    method SetAutoTransmitKeyPressed(state: bool)
      modifies port
      ensures port.written == old(port.written) + [AutoTransmitCommand(state)]
      ensures port.input == old(port.input) && port.resets == old(port.resets)
    {
      port.Write(AutoTransmitCommand(state));
    }

    /** `setAutoRepeatKeyModeResend`: on is the resend mode, off is auto-repeat off. */
    method SetAutoRepeatKeyModeResend(state: bool)
      modifies port
      ensures port.written == old(port.written) + [if state then [0xFE, 0x7E, 0x00] else [0xFE, 0x60]]
      ensures port.written[|port.written| - 1] == AutoRepeatCommand(if state then ResendKey else AutoRepeatKeyMode.Off)
      ensures port.input == old(port.input) && port.resets == old(port.resets)
    {
      var commandList := [0xFE, 0x60];
      if state {
        commandList := [0xFE, 0x7E, 0x00];
      }
      port.Write(commandList);
    }

    /** `setAutoRepeatKeyModeUpDown`: on is the key up/down mode, off is auto-repeat off. */
    method SetAutoRepeatKeyModeUpDown(state: bool)
      modifies port
      ensures port.written == old(port.written) + [if state then [0xFE, 0x7E, 0x01] else [0xFE, 0x60]]
      ensures port.written[|port.written| - 1] == AutoRepeatCommand(if state then KeyUpDown else AutoRepeatKeyMode.Off)
      ensures port.input == old(port.input) && port.resets == old(port.resets)
    {
      var commandList := [0xFE, 0x60];
      if state {
        commandList := [0xFE, 0x7E, 0x01];
      }
      port.Write(commandList);
    }

    /** `pollKeyPressed`: the poll command, then the `waiting` bytes already received. */
    method PollKeyPressed(waiting: int) returns (keys: seq<byte>)
      modifies port
      ensures port.written == old(port.written) + [[0xFE, 0x26]]
      ensures keys == old(port.input)[..Delivered(waiting, |old(port.input)|)]
      ensures old(port.input) == keys + port.input && port.resets == old(port.resets)
    {
      port.Write([0xFE, 0x26]);
      keys := port.Read(waiting);
    }

    method ClearKeyBuffer()
      modifies port
      ensures port.written == old(port.written) + [[0xFE, 0x45]]
      ensures port.input == old(port.input) && port.resets == old(port.resets)
    {
      port.Write([0xFE, 0x45]);
    }

    method SetDebounceTime(time: int)
      modifies port
      ensures port.written == old(port.written) + [[0xFE, 0x55, SanitizeUint8(time)]]
      ensures IsByte(port.written[|port.written| - 1][2])
      ensures port.input == old(port.input) && port.resets == old(port.resets)
    {
      port.Write([0xFE, 0x55, SanitizeUint8(time)]);
    }
  }
}
