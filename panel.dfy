/** `PyMOPanel/PyMOPanel.py`: the panel facade that opens the link, builds the
  * components in a fixed order and owns the baud-rate and input commands. */
module Panels {
  import opened Wrappers
  import opened Bytes
  import opened SerialLink
  import opened Screens
  import opened Texts
  import opened Graphics
  import opened Gpo
  import opened Keyboard
  import opened BarGraphs

  /** The writes of the components' constructors, in construction order:
    * screen (clear, brightness 200, contrast 128, on), text (font 0, auto-scroll
    * on, metrics 0 0 1 1 64), the LEDs (all off) and the keypad (auto-transmit
    * on, auto-repeat off, debounce 8). Graphics and bar graphs write nothing. */
  function InitWrites(): (r: seq<seq<int>>)
    ensures |r| == 16
    ensures r[0] == [0xFE, 0x58] && r[1] == [0xFE, 0x99, 200] && r[2] == [0xFE, 0x50, 128]
    ensures r[4] == [0xFE, 0x31, 0] && r[15] == [0xFE, 0x55, 8]
  {
    [[0xFE, 0x58], [0xFE, 0x99, 200], [0xFE, 0x50, 128], [0xFE, 0x42, 0]]
    + [[0xFE, 0x31, 0], [0xFE, 0x51], [0xFE, 0x32, 0, 0, 1, 1, 64]]
    + LedWrites(0, LedStatus.Off) + LedWrites(1, LedStatus.Off) + LedWrites(2, LedStatus.Off)
    + [[0xFE, 0x41], [0xFE, 0x60], [0xFE, 0x55, 8]]
  }

  /** All three LEDs start off: each of their six GPOs is driven high. */
  lemma InitSwitchesLedsOff()
    ensures forall i :: 7 <= i < 13 ==> InitWrites()[i][1] == 0x57
    ensures [InitWrites()[7][2], InitWrites()[8][2], InitWrites()[9][2], InitWrites()[10][2],
             InitWrites()[11][2], InitWrites()[12][2]] == [2, 1, 4, 3, 6, 5]
  {
  }

  datatype FacadeError = MissingScreenMethod

  class Panel {
    const port: Port
    /** The rate the link was opened at; `setBaudRate` does not change it. */
    var baudRate: int
    const screen: Screen
    const text: Text
    const graphics: Graphics
    const leds: GPO
    const keyboard: KeyboardManager
    const barGraph: BarGraphManager

    /** Every component talks to this panel's link, and the keypad listener
      * steps this panel's screen. */
    predicate Valid()
      reads this, leds, barGraph, keyboard.listener
    {
      screen.port == port && text.port == port && graphics.port == port && leds.port == port
      && keyboard.port == port && barGraph.port == port && keyboard.listener.screen == screen
      && leds.Valid() && barGraph.Valid()
    }

    /** Builds the components in order, on an open link. */
    constructor (port: Port, baudRate: int)
      modifies port
      ensures Valid() && this.port == port && this.baudRate == baudRate
      ensures fresh(screen) && fresh(text) && fresh(graphics) && fresh(leds) && fresh(keyboard) && fresh(barGraph)
      ensures fresh(keyboard.listener)
      ensures screen.brightness == 200 && screen.contrast == 128 && screen.status
      ensures leds.leds == [Some(LedStatus.Off), Some(LedStatus.Off), Some(LedStatus.Off)] && barGraph.bars == []
      ensures keyboard.autoTransmitKeyPressed && keyboard.autoRepeatKeyMode == AutoRepeatKeyMode.Off && keyboard.debounceTime == 8
      ensures port.written == old(port.written) + InitWrites()
      ensures port.input == old(port.input) && port.resets == old(port.resets)
    {
      this.port := port;
      this.baudRate := baudRate;
      var s := new Screen(port, 200, 128);
      var t := new Text(port, 0, true, 0, 0, 1, 1, 64);
      var g := new Graphics(port);
      var l := new GPO(port, LedStatus.Off, LedStatus.Off, LedStatus.Off);
      var k := new KeyboardManager(port, s, true, AutoRepeatKeyMode.Off, 8);
      var b := new BarGraphManager(port);
      screen, text, graphics, leds, keyboard, barGraph := s, t, g, l, k, b;
    }

    method WriteBytes(buffer: seq<int>)
      modifies port
      ensures port.written == old(port.written) + [buffer]
      ensures port.input == old(port.input) && port.resets == old(port.resets)
    {
      port.Write(buffer);
    }

    method ReadBytes(count: int) returns (data: seq<byte>)
      modifies port
      ensures data == old(port.input)[..Delivered(count, |old(port.input)|)]
      ensures old(port.input) == data + port.input
      ensures port.written == old(port.written) && port.resets == old(port.resets)
    {
      data := port.Read(count);
    }

    /** `setAutoTransmitKeyPressed`, forwarded to the keypad. */
    method SetAutoTransmitKeyPressed(state: bool)
      requires Valid()
      modifies keyboard, port
      ensures Valid()
      ensures keyboard.autoTransmitKeyPressed == state
      ensures port.written == old(port.written) + [AutoTransmitCommand(state)]
      ensures port.input == old(port.input) && port.resets == old(port.resets)
    {
      keyboard.SetAutoTransmitKeyPressed(state);
    }

    /** Clears the panel's key buffer, then discards pending input. */
    method ResetInputState()
      requires Valid()
      modifies port
      ensures port.written == old(port.written) + [[0xFE, 0x45]]
      ensures port.resets == old(port.resets) + [|old(port.written)| + 1]
      ensures port.input == old(port.input)
    {
      keyboard.ClearKeyBuffer();
      port.ResetInput();
    }

    /** `setBaudRate`: an unsupported rate raises before anything is written;
      * the recorded rate is never updated. */
    method SetBaudRate(rate: int) returns (ok: bool)
      modifies port
      ensures ok <==> BaudRateCode(rate).Some?
      ensures ok ==> port.written == old(port.written) + [BaudRateCommand(rate).value]
      ensures !ok ==> port.written == old(port.written)
      ensures baudRate == old(baudRate)
      ensures port.input == old(port.input) && port.resets == old(port.resets)
    {
      var code := BaudRateCode(rate);
      if code.None? {
        return false;
      }
      port.Write([0xFE, 0x39, code.value]);
      return true;
    }

    /** `clearScreen` as written: it calls a `clearScreen` the screen does not
      * have, so it raises without writing. */
    method ClearScreenAsWritten() returns (r: Result<(), FacadeError>)
      ensures r == Failure(MissingScreenMethod)
    {
      return Failure(MissingScreenMethod);
    }

    /** `clearScreen` through the screen's `clear`. */
    method ClearScreen()
      requires Valid()
      modifies port
      ensures port.written == old(port.written) + [[0xFE, 0x58]]
      ensures port.input == old(port.input) && port.resets == old(port.resets)
    {
      screen.Clear();
    }

    /** `setScreen` as written: it calls a `setScreen` the screen does not
      * have, so it raises without writing or changing the screen. */
    method SetScreenAsWritten(value: bool) returns (r: Result<(), FacadeError>)
      ensures r == Failure(MissingScreenMethod)
    {
      return Failure(MissingScreenMethod);
    }

    /** `setScreen` through the screen's `enable`, which switches the display. */
    method SetScreen(value: bool)
      requires Valid()
      modifies screen, port
      ensures screen.status == value
      ensures screen.brightness == old(screen.brightness) && screen.contrast == old(screen.contrast)
      ensures port.written == old(port.written) + [if value then [0xFE, 0x42, 0] else [0xFE, 0x46]]
      ensures port.input == old(port.input) && port.resets == old(port.resets)
    {
      screen.Enable(value, 0);
    }
  }

  /** Opening the panel: a link that is not open raises before any write;
    * otherwise the components are built in order. */
  method Connect(port: Port, isOpen: bool, baudRate: int) returns (r: Option<Panel>)
    modifies port
    ensures r.None? <==> !isOpen
    ensures r.None? ==> port.written == old(port.written)
    ensures r.Some? ==> r.value.Valid() && r.value.port == port && fresh(r.value)
    ensures r.Some? ==> port.written == old(port.written) + InitWrites()
    ensures port.input == old(port.input) && port.resets == old(port.resets)
  {
    if !isOpen {
      return None;
    }
    var panel := new Panel(port, baudRate);
    return Some(panel);
  }
}
