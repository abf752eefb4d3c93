/** `PyMOPanel/gpo.py`: the three bicolour LEDs, each driven by a pair of
  * general-purpose outputs (GPOs). */
module Gpo {
  import opened Wrappers
  import opened Bytes
  import opened SerialLink

  /** An LED colour, given by the levels of its two GPOs (msb, lsb). */
  datatype LedStatus = Yellow | Green | Red | Off

  function MsbLevel(s: LedStatus): int
  {
    match s
    case Yellow => 0
    case Green => 0
    case Red => 1
    case Off => 1
  }

  function LsbLevel(s: LedStatus): int
  {
    match s
    case Yellow => 0
    case Green => 1
    case Red => 0
    case Off => 1
  }

  /** The colour shown for a pair of GPO levels; any non-zero level is high. */
  function StatusOfLevels(msb: int, lsb: int): LedStatus
  {
    if msb == 0 then (if lsb == 0 then Yellow else Green)
    else (if lsb == 0 then Red else Off)
  }

  /** The level pair identifies the colour: the four encodings are distinct. */
  lemma LevelsIdentifyStatus(s: LedStatus, t: LedStatus)
    ensures StatusOfLevels(MsbLevel(s), LsbLevel(s)) == s
    ensures (MsbLevel(s), LsbLevel(s)) == (MsbLevel(t), LsbLevel(t)) <==> s == t
  {
  }

  /** The (msb, lsb) GPO registers of LED `slot`. */
  function Registers(slot: nat): (r: (int, int))
    requires slot < 3
    ensures r.0 == 2 * slot + 2 && r.1 == 2 * slot + 1
  {
    [(2, 1), (4, 3), (6, 5)][slot]
  }

  /** No two LEDs share a GPO. */
  lemma RegistersDisjoint(i: nat, j: nat)
    requires i < 3 && j < 3 && i != j
    ensures Registers(i).0 != Registers(j).0 && Registers(i).1 != Registers(j).1
    ensures Registers(i).0 != Registers(j).1 && Registers(i).1 != Registers(j).0
    ensures Registers(i).0 != Registers(i).1
  {
  }

  /** `setGPOState(gpo, value)`: off (0x56) for level 0, on (0x57) otherwise. */
  function GpoCommand(gpo: int, value: int): (r: seq<int>)
    ensures |r| == 3 && r[0] == 0xFE && r[2] == gpo
    ensures r[1] == 0x56 <==> value == 0
    ensures r[1] == 0x56 || r[1] == 0x57
  {
    [0xFE, if value == 0 then 0x56 else 0x57, gpo]
  }

  /** The writes of `setLed` for LED `slot`: the msb GPO, then the lsb GPO. */
  function LedWrites(slot: nat, s: LedStatus): (r: seq<seq<int>>)
    requires slot < 3
    ensures |r| == 2
  {
    [GpoCommand(Registers(slot).0, MsbLevel(s)), GpoCommand(Registers(slot).1, LsbLevel(s))]
  }

  /** Reading a GPO command back: the register and whether it is driven high. */
  function LevelOfCommand(cmd: seq<int>): int
  {
    if |cmd| == 3 && cmd[1] == 0x57 then 1 else 0
  }

  /** The two writes of `setLed` address that LED's registers, msb first, and
    * the colour can be read back from them. */
  lemma LedWritesShowStatus(slot: nat, s: LedStatus)
    requires slot < 3
    ensures LedWrites(slot, s)[0][2] == Registers(slot).0 && LedWrites(slot, s)[1][2] == Registers(slot).1
    ensures StatusOfLevels(LevelOfCommand(LedWrites(slot, s)[0]), LevelOfCommand(LedWrites(slot, s)[1])) == s
  {
  }

  class GPO {
    const port: Port
    /** The colour last set for each LED, by LED index. */
    var leds: seq<Option<LedStatus>>

    predicate Valid()
      reads this
    {
      |leds| == 3
    }

    /** Sets LEDs 0, 1 and 2 in that order: six writes. */
    constructor (port: Port, led0: LedStatus, led1: LedStatus, led2: LedStatus)
      modifies port
      ensures this.port == port && Valid()
      ensures leds == [Some(led0), Some(led1), Some(led2)]
      ensures port.written == old(port.written) + LedWrites(0, led0) + LedWrites(1, led1) + LedWrites(2, led2)
      ensures port.input == old(port.input) && port.resets == old(port.resets)
    {
      this.port := port;
      leds := [None, None, None];
      new;
      var ok := SetLed(0, led0);
      ok := SetLed(1, led1);
      ok := SetLed(2, led2);
    }

    method SetGpoState(gpo: int, value: int)
      modifies port
      ensures port.written == old(port.written) + [GpoCommand(gpo, value)]
      ensures port.input == old(port.input) && port.resets == old(port.resets)
    {
      port.Write(GpoCommand(gpo, value));
    }

    /** `setLed(led, state)`: a Python index (so -3..-1 address LEDs 0..2);
      * any other index raises before anything is stored or written. */
    method SetLed(led: int, state: LedStatus) returns (ok: bool)
      requires Valid()
      modifies this, port
      ensures Valid()
      ensures ok <==> -3 <= led < 3
      ensures ok ==> leds == old(leds)[PyIndex(led, 3).value := Some(state)]
      ensures ok ==> port.written == old(port.written) + LedWrites(PyIndex(led, 3).value, state)
      ensures !ok ==> leds == old(leds) && port.written == old(port.written)
      ensures port.input == old(port.input) && port.resets == old(port.resets)
    {
      var slot := PyIndex(led, 3);
      if slot.None? {
        return false;
      }
      leds := leds[slot.value := Some(state)];
      var (msb, lsb) := Registers(slot.value);
      SetGpoState(msb, MsbLevel(state));
      SetGpoState(lsb, LsbLevel(state));
      return true;
    }
  }
}
