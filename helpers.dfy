/** `PyMOPanel/helpers.py`: parameter sanitising and the high-speed decorator. */
module Helpers {
  import opened Bytes
  import opened Wrappers
  import opened SerialLink

  /** `max(0, int(value)) & 0xFF`: negatives become 0, everything else keeps
    * only its low eight bits (it wraps, it does not saturate). */
  function SanitizeUint8(value: int): (r: byte)
    ensures value < 0 ==> r == 0
    ensures value >= 0 ==> (value - r) % 256 == 0
    ensures IsByte(value) ==> r == value
  {
    if value < 0 then 0 else value % 256
  }

  lemma SanitizeUint8Idempotent(value: int)
    ensures SanitizeUint8(SanitizeUint8(value)) == SanitizeUint8(value)
  {
  }

  lemma SanitizeUint8Examples()
    ensures SanitizeUint8(270) == 14 && SanitizeUint8(256) == 0 && SanitizeUint8(255) == 255
    ensures SanitizeUint8(-1) == 0 && SanitizeUint8(-300) == 0
  {
  }

  /** The wrapped call, as far as the decorator can observe it: the writes it
    * makes, and either the value it returns or the fact that it raised. */
  datatype WrappedCall<T> = Returned(writes: seq<seq<int>>, result: T) | Raised(writes: seq<seq<int>>)

  datatype DecoratorError =
    | CallRaised          // the exception of the wrapped call propagates
    | UnsupportedRate     // restoring a rate missing from the table raises KeyError

  const HighSpeed := 115200

  /** Writes made by `useHighSpeedDecorator(func)` around one call. */
  function HighSpeedWrites<T>(previousRate: int, call: WrappedCall<T>): seq<seq<int>>
  {
    var raise := if previousRate != HighSpeed then [[0xFE, 0x39, 0x10]] else [];
    var restore :=
      if call.Raised? || previousRate == HighSpeed then []
      else match BaudRateCommand(previousRate)
        case None => []
        case Some(cmd) => [cmd];
    raise + call.writes + restore
  }

  /** What the decorated call returns or raises. */
  function HighSpeedOutcome<T>(previousRate: int, call: WrappedCall<T>): Result<T, DecoratorError>
  {
    match call
    case Raised(_) => Failure(CallRaised)
    case Returned(_, v) =>
      if previousRate != HighSpeed && BaudRateCode(previousRate).None? then Failure(UnsupportedRate)
      else Success(v)
  }

  /** The decorator's wrapper: switch to 115200 unless already there, run the
    * call, and switch back only if the call returned normally. */
  method UseHighSpeed<T>(port: Port, previousRate: int, call: WrappedCall<T>)
      returns (r: Result<T, DecoratorError>)
    modifies port
    ensures port.written == old(port.written) + HighSpeedWrites(previousRate, call)
    ensures port.input == old(port.input) && port.resets == old(port.resets)
    ensures r == HighSpeedOutcome(previousRate, call)
  {
    if previousRate != HighSpeed {
      port.Write([0xFE, 0x39, 0x10]);
    }
    // the wrapped function runs here
    var i := 0;
    while i < |call.writes|
      invariant 0 <= i <= |call.writes|
      invariant port.written == old(port.written)
        + (if previousRate != HighSpeed then [[0xFE, 0x39, 0x10]] else []) + call.writes[..i]
      invariant port.input == old(port.input) && port.resets == old(port.resets)
    {
      port.Write(call.writes[i]);
      i := i + 1;
    }
    if call.Raised? {
      return Failure(CallRaised);
    }
    if previousRate != HighSpeed {
      var cmd := BaudRateCommand(previousRate);
      if cmd.None? {
        return Failure(UnsupportedRate);
      }
      port.Write(cmd.value);
    }
    return Success(call.result);
  }

  /** The previous rate is restored only when the wrapped call returns: a call
    * that raises leaves the panel at 115200. */
  lemma HighSpeedNoRestoreOnRaise<T>(previousRate: int, writes: seq<seq<int>>)
    requires previousRate != HighSpeed
    ensures HighSpeedWrites<T>(previousRate, Raised(writes)) == [[0xFE, 0x39, 0x10]] + writes
    ensures HighSpeedOutcome<T>(previousRate, Raised(writes)) == Failure(CallRaised)
  {
  }

  /** A normal return at a supported rate is bracketed by the switch and the
    * restore, and the wrapped function's value is passed through. */
  lemma HighSpeedRestoresOnReturn<T>(previousRate: int, writes: seq<seq<int>>, v: T)
    requires previousRate != HighSpeed && BaudRateCode(previousRate).Some?
    ensures HighSpeedWrites(previousRate, Returned(writes, v))
      == [[0xFE, 0x39, 0x10]] + writes + [[0xFE, 0x39, BaudRateCode(previousRate).value]]
    ensures HighSpeedOutcome(previousRate, Returned(writes, v)) == Success(v)
  {
  }

  /** Already at 115200: no baud command at all. */
  lemma HighSpeedAlreadyFast<T>(call: WrappedCall<T>)
    ensures HighSpeedWrites(HighSpeed, call) == call.writes
    ensures call.Returned? ==> HighSpeedOutcome(HighSpeed, call) == Success(call.result)
  {
  }
}
