/** `PyMOPanel/keyboard.py`: keypad settings and the serial listener whose
  * callback turns the arrow keys into brightness and contrast steps. */
module Keyboard {
  import opened Wrappers
  import opened Bytes
  import opened SerialLink
  import opened Helpers
  import opened Screens

  /** Key codes the panel sends for the arrow keys. */
  const UpKey: byte := 0x42
  const DownKey: byte := 0x48
  const LeftKey: byte := 0x44
  const RightKey: byte := 0x43

  datatype AutoRepeatKeyMode = ResendKey | KeyUpDown | Off

  /** A value handed to `writeBytes`, as Python holds it: an integer or a tuple. */
  datatype PyValue = Int(i: int) | Tuple(items: seq<int>)

  /** The enum values as declared: the trailing commas make the first two
    * members' values the one-element tuples `(0,)` and `(1,)`. */
  function ModeValueAsWritten(mode: AutoRepeatKeyMode): PyValue
  {
    match mode
    case ResendKey => Tuple([0])
    case KeyUpDown => Tuple([1])
    case Off => Int(3)
  }

  /** The conversion the serial write applies to a list: every element must be
    * an integer, otherwise it raises `TypeError` (`None`) and nothing is sent. */
  function ToIntList(values: seq<PyValue>): (r: Option<seq<int>>)
    ensures r.Some? <==> forall i :: 0 <= i < |values| ==> values[i].Int?
    ensures r.Some? ==> |r.value| == |values| && forall i :: 0 <= i < |values| ==> r.value[i] == values[i].i
  {
    if values == [] then Some([])
    else match ToIntList(values[..|values| - 1])
      case None => None
      case Some(init) =>
        if values[|values| - 1].Int? then Some(init + [values[|values| - 1].i]) else None
  }

  /** `setAutoRepeatKeyMode` as written: what reaches the port, or `None`
    * when the write raises. */
  function AutoRepeatWritesAsWritten(mode: AutoRepeatKeyMode): Option<seq<seq<int>>>
  {
    if mode == Off then Some([[0xFE, 0x60]])
    else match ToIntList([Int(0xFE), Int(0x7E), ModeValueAsWritten(mode)])
      case None => None
      case Some(cmd) => Some([cmd])
  }

  /** The mode codes the command takes: resend 0, up/down 1. */
  function ModeValue(mode: AutoRepeatKeyMode): int
  {
    match mode
    case ResendKey => 0
    case KeyUpDown => 1
    case Off => 3
  }

  /** The auto-repeat command with integer mode codes: off is its own command. */
  function AutoRepeatCommand(mode: AutoRepeatKeyMode): (r: seq<int>)
    ensures r == [0xFE, 0x60] <==> mode == Off
    ensures mode != Off ==> r == [0xFE, 0x7E, ModeValue(mode)] && IsByte(r[2])
  {
    if mode == Off then [0xFE, 0x60] else [0xFE, 0x7E, ModeValue(mode)]
  }

  /** As written, only `Off` can be sent: the two repeat modes raise before
    * anything is written, where the command with codes 0 and 1 was intended. */
  lemma AutoRepeatTupleFinding(mode: AutoRepeatKeyMode)
    ensures mode != Off <==> AutoRepeatWritesAsWritten(mode).None?
    ensures mode == Off ==> AutoRepeatWritesAsWritten(mode) == Some([AutoRepeatCommand(mode)])
    ensures AutoRepeatCommand(ResendKey) == [0xFE, 0x7E, 0] && AutoRepeatCommand(KeyUpDown) == [0xFE, 0x7E, 1]
  {
    if mode != Off {
      assert !ModeValueAsWritten(mode).Int?;
      assert ToIntList([Int(0xFE), Int(0x7E), ModeValueAsWritten(mode)]).None?;
    }
  }

  function AutoTransmitCommand(state: bool): (r: seq<int>)
    ensures |r| == 2 && r[0] == 0xFE && (r[1] == 0x41 <==> state) && (r[1] == 0x4F <==> !state)
  {
    [0xFE, if state then 0x41 else 0x4F]
  }

  /** What the control callback has done so far: the screen levels, the
    * ignored keys saved, and the commands written. */
  datatype ControlState = ControlState(brightness: byte, contrast: byte, ignored: seq<byte>, writes: seq<seq<int>>)

  predicate IsControlKey(key: byte)
  {
    key == UpKey || key == DownKey || key == LeftKey || key == RightKey
  }

  /** One key: up/down step the brightness by 20, left/right the contrast by 5
    * (each a deduplicating `inc`); any other key is saved when `save` is set. */
  function ControlStep(s: ControlState, key: byte, save: bool): ControlState
  {
    if key == UpKey then
      s.(brightness := SanitizeUint8(s.brightness + 20), writes := s.writes + DedupWrites(s.brightness, s.brightness + 20, 0x99))
    else if key == DownKey then
      s.(brightness := SanitizeUint8(s.brightness - 20), writes := s.writes + DedupWrites(s.brightness, s.brightness - 20, 0x99))
    else if key == LeftKey then
      s.(contrast := SanitizeUint8(s.contrast - 5), writes := s.writes + DedupWrites(s.contrast, s.contrast - 5, 0x50))
    else if key == RightKey then
      s.(contrast := SanitizeUint8(s.contrast + 5), writes := s.writes + DedupWrites(s.contrast, s.contrast + 5, 0x50))
    else if save then s.(ignored := s.ignored + [key])
    else s
  }

  /** `brightnessAndContrastControlCallback`: the keys handled in order. */
  function Control(s: ControlState, data: seq<byte>, save: bool): ControlState
  {
    if data == [] then s else ControlStep(Control(s, data[..|data| - 1], save), data[|data| - 1], save)
  }

  /** The keys that are not arrow keys, in order. */
  function NonControlKeys(data: seq<byte>): (r: seq<byte>)
    ensures |r| <= |data|
    ensures forall i :: 0 <= i < |r| ==> !IsControlKey(r[i])
  {
    if data == [] then []
    else NonControlKeys(data[..|data| - 1]) + (if IsControlKey(data[|data| - 1]) then [] else [data[|data| - 1]])
  }

  /** The callback saves exactly the non-arrow keys, in order, and only when
    * saving is on; arrow keys are never saved. */
  lemma {:induction false} ControlSavesIgnoredKeys(s: ControlState, data: seq<byte>, save: bool)
    ensures Control(s, data, save).ignored == s.ignored + (if save then NonControlKeys(data) else [])
  {
    if data != [] {
      ControlSavesIgnoredKeys(s, data[..|data| - 1], save);
    }
  }

  /** A write made by `incBrightness` or `incContrast`. */
  predicate IsLevelCommand(cmd: seq<int>)
  {
    |cmd| == 3 && cmd[0] == 0xFE && (cmd[1] == 0x99 || cmd[1] == 0x50) && IsByte(cmd[2])
  }

  /** The callback only appends to the writes, at most one command per key,
    * and every command it writes sets the brightness or the contrast. */
  lemma {:induction false} ControlWritesLevels(s: ControlState, data: seq<byte>, save: bool)
    ensures var t := Control(s, data, save);
      |s.writes| <= |t.writes| <= |s.writes| + |data| && t.writes[..|s.writes|] == s.writes
      && forall i :: |s.writes| <= i < |t.writes| ==> IsLevelCommand(t.writes[i])
  {
    if data != [] {
      ControlWritesLevels(s, data[..|data| - 1], save);
    }
  }

  /** Keys that are all non-arrow keys leave the screen untouched. */
  lemma {:induction false} ControlIgnoresOtherKeys(s: ControlState, data: seq<byte>, save: bool)
    requires forall i :: 0 <= i < |data| ==> !IsControlKey(data[i])
    ensures var t := Control(s, data, save);
      t.brightness == s.brightness && t.contrast == s.contrast && t.writes == s.writes
  {
    if data != [] {
      ControlIgnoresOtherKeys(s, data[..|data| - 1], save);
    }
  }

  /** The listener's shared (class-level) attributes. */
  class Listener {
    /** The panel's screen, whose `inc` methods the callback calls. */
    const screen: Screen
    /** Whether the control callback is installed. */
    var callbackInstalled: bool
    var saveIgnoredKeys: bool
    var ignoredKeys: seq<byte>

    constructor (screen: Screen)
      ensures this.screen == screen && !callbackInstalled && !saveIgnoredKeys && ignoredKeys == []
    {
      this.screen := screen;
      callbackInstalled, saveIgnoredKeys, ignoredKeys := false, false, [];
    }

    /** The state the callback works on. */
    function State(): ControlState
      reads this, screen, screen.port
    {
      ControlState(screen.brightness, screen.contrast, ignoredKeys, screen.port.written)
    }

    /** The callback's body for one key. */
    method HandleKey(key: byte)
      modifies this, screen, screen.port
      ensures State() == ControlStep(old(State()), key, saveIgnoredKeys)
      ensures callbackInstalled == old(callbackInstalled) && saveIgnoredKeys == old(saveIgnoredKeys)
      ensures screen.status == old(screen.status)
      ensures screen.port.input == old(screen.port.input) && screen.port.resets == old(screen.port.resets)
    {
      if key == UpKey {
        screen.IncBrightness(20);
      } else if key == DownKey {
        screen.IncBrightness(-20);
      } else if key == LeftKey {
        screen.IncContrast(-5);
      } else if key == RightKey {
        screen.IncContrast(5);
      } else if saveIgnoredKeys {
        ignoredKeys := ignoredKeys + [key];
      }
    }

    method BrightnessAndContrastControl(data: seq<byte>)
      modifies this, screen, screen.port
      ensures State() == Control(old(State()), data, saveIgnoredKeys)
      ensures callbackInstalled == old(callbackInstalled) && saveIgnoredKeys == old(saveIgnoredKeys)
      ensures screen.status == old(screen.status)
      ensures screen.port.input == old(screen.port.input) && screen.port.resets == old(screen.port.resets)
    {
      var i := 0;
      while i < |data|
        invariant 0 <= i <= |data|
        invariant State() == Control(old(State()), data[..i], saveIgnoredKeys)
        invariant callbackInstalled == old(callbackInstalled) && saveIgnoredKeys == old(saveIgnoredKeys)
        invariant screen.status == old(screen.status)
        invariant screen.port.input == old(screen.port.input) && screen.port.resets == old(screen.port.resets)
      {
        assert data[..i + 1][..i] == data[..i];
        HandleKey(data[i]);
        i := i + 1;
      }
      assert data[..i] == data;
    }

    /** `data_received`: without a callback the data is dropped. */
    method DataReceived(data: seq<byte>)
      modifies this, screen, screen.port
      ensures State() == if callbackInstalled then Control(old(State()), data, saveIgnoredKeys) else old(State())
      ensures callbackInstalled == old(callbackInstalled) && saveIgnoredKeys == old(saveIgnoredKeys)
      ensures screen.status == old(screen.status)
      ensures screen.port.input == old(screen.port.input) && screen.port.resets == old(screen.port.resets)
    {
      if !callbackInstalled {
        return;
      }
      BrightnessAndContrastControl(data);
    }
  }

  datatype PollError = NoReadBytesAttribute

  class KeyboardManager {
    const port: Port
    const listener: Listener
    var autoTransmitKeyPressed: bool
    var autoRepeatKeyMode: AutoRepeatKeyMode
    var debounceTime: byte
    /** Whether a reader thread was ever started. */
    var readerStarted: bool

    /** Sends auto-transmit, auto-repeat, then debounce, in that order. */
    constructor (port: Port, screen: Screen, autoTransmitKeyPressed: bool, autoRepeatKeyMode: AutoRepeatKeyMode, debounceTime: int)
      modifies port
      ensures this.port == port && fresh(listener) && listener.screen == screen
      ensures !listener.callbackInstalled && !listener.saveIgnoredKeys && listener.ignoredKeys == []
      ensures this.autoTransmitKeyPressed == autoTransmitKeyPressed && this.autoRepeatKeyMode == autoRepeatKeyMode
      ensures this.debounceTime == SanitizeUint8(debounceTime) && !readerStarted
      ensures port.written == old(port.written)
        + [AutoTransmitCommand(autoTransmitKeyPressed), AutoRepeatCommand(autoRepeatKeyMode), [0xFE, 0x55, SanitizeUint8(debounceTime)]]
      ensures port.input == old(port.input) && port.resets == old(port.resets)
    {
      this.port := port;
      listener := new Listener(screen);
      this.autoTransmitKeyPressed := autoTransmitKeyPressed;
      this.autoRepeatKeyMode := autoRepeatKeyMode;
      this.debounceTime := SanitizeUint8(debounceTime);
      readerStarted := false;
      new;
      port.Write(AutoTransmitCommand(autoTransmitKeyPressed));
      port.Write(AutoRepeatCommand(autoRepeatKeyMode));
      port.Write([0xFE, 0x55, this.debounceTime]);
    }

    /** Installs the control callback with key saving on, and starts the reader. */
    method EnableKeyboardControl()
      modifies this, listener
      ensures readerStarted && listener.callbackInstalled && listener.saveIgnoredKeys
      ensures listener.ignoredKeys == old(listener.ignoredKeys)
      ensures autoTransmitKeyPressed == old(autoTransmitKeyPressed) && autoRepeatKeyMode == old(autoRepeatKeyMode)
      ensures debounceTime == old(debounceTime)
    {
      listener.callbackInstalled := true;
      listener.saveIgnoredKeys := true;
      readerStarted := true;
    }

    /** Stops the reader and removes the callback; with no reader ever
      * started, stopping it raises and the callback stays installed. */
    method DisableKeyboardControl() returns (ok: bool)
      modifies listener
      ensures ok <==> readerStarted
      ensures listener.callbackInstalled == (old(listener.callbackInstalled) && !ok)
      ensures listener.saveIgnoredKeys == old(listener.saveIgnoredKeys) && listener.ignoredKeys == old(listener.ignoredKeys)
    {
      if !readerStarted {
        return false;
      }
      listener.callbackInstalled := false;
      return true;
    }

    method SetAutoTransmitKeyPressed(state: bool)
      modifies this, port
      ensures autoTransmitKeyPressed == state
      ensures autoRepeatKeyMode == old(autoRepeatKeyMode) && debounceTime == old(debounceTime) && readerStarted == old(readerStarted)
      ensures port.written == old(port.written) + [AutoTransmitCommand(state)]
      ensures port.input == old(port.input) && port.resets == old(port.resets)
    {
      autoTransmitKeyPressed := state;
      port.Write(AutoTransmitCommand(state));
    }

    /** `setAutoRepeatKeyMode` with the mode codes as integers. */
    method SetAutoRepeatKeyMode(mode: AutoRepeatKeyMode)
      modifies this, port
      ensures autoRepeatKeyMode == mode
      ensures autoTransmitKeyPressed == old(autoTransmitKeyPressed) && debounceTime == old(debounceTime)
      ensures readerStarted == old(readerStarted)
      ensures port.written == old(port.written) + [AutoRepeatCommand(mode)]
      ensures port.input == old(port.input) && port.resets == old(port.resets)
    {
      autoRepeatKeyMode := mode;
      if mode == Off {
        port.Write([0xFE, 0x60]);
      } else {
        port.Write([0xFE, 0x7E, ModeValue(mode)]);
      }
    }

    /** `pollKeyPressed` as written: after the poll command it calls a
      * `readBytes` the manager does not have, so it always raises. */
    method PollKeyPressedAsWritten() returns (r: Result<seq<byte>, PollError>)
      modifies port
      ensures r == Failure(NoReadBytesAttribute)
      ensures port.written == old(port.written) + [[0xFE, 0x26]]
      ensures port.input == old(port.input) && port.resets == old(port.resets)
    {
      port.Write([0xFE, 0x26]);
      return Failure(NoReadBytesAttribute);
    }

    /** `pollKeyPressed` reading through the port: the poll command, then
      * the `waiting` bytes already received. */
    method PollKeyPressed(waiting: int) returns (keys: seq<byte>)
      modifies port
      ensures port.written == old(port.written) + [[0xFE, 0x26]]
      ensures keys == old(port.input)[..Delivered(waiting, |old(port.input)|)]
      ensures old(port.input) == keys + port.input && port.resets == old(port.resets)
    {
      port.Write([0xFE, 0x26]);
      keys := port.Read(waiting);
    }

    method ClearKeyBuffer()
      modifies port
      ensures port.written == old(port.written) + [[0xFE, 0x45]]
      ensures port.input == old(port.input) && port.resets == old(port.resets)
    {
      port.Write([0xFE, 0x45]);
    }

    method SetDebounceTime(time: int)
      modifies this, port
      ensures debounceTime == SanitizeUint8(time)
      ensures autoTransmitKeyPressed == old(autoTransmitKeyPressed) && autoRepeatKeyMode == old(autoRepeatKeyMode)
      ensures readerStarted == old(readerStarted)
      ensures port.written == old(port.written) + [[0xFE, 0x55, SanitizeUint8(time)]]
      ensures port.input == old(port.input) && port.resets == old(port.resets)
    {
      debounceTime := SanitizeUint8(time);
      port.Write([0xFE, 0x55, debounceTime]);
    }
  }
}
