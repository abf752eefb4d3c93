/**
 * The serial link to the panel, reduced to what the driver observes: every
 * buffer handed to `write`, in order (the write log), the bytes later `read`
 * calls will deliver, in order (the read queue), and the points at which the
 * driver discarded pending input.
 */
module SerialLink {
  import opened Bytes
  import opened Wrappers

  /** How many bytes `read(count)` delivers when `available` bytes are queued:
    * pyserial returns nothing for a non-positive count, and a short read is
    * simply shorter (no error is raised). */
  function Delivered(count: int, available: nat): (r: nat)
    ensures r <= available && (count >= 0 ==> r <= count)
    ensures count >= available ==> r == available
    ensures 0 <= count <= available ==> r == count
  {
    if count <= 0 then 0 else Min(count, available)
  }

  class Port {
    /** Every buffer written to the link, oldest first. */
    var written: seq<seq<int>>
    /** The bytes the device will deliver to the following reads, in order. */
    var input: seq<byte>
    /** For each `reset_input_buffer`, the number of writes that preceded it. */
    var resets: seq<nat>

    constructor (replies: seq<byte>)
      ensures written == [] && input == replies && resets == []
    {
      written, input, resets := [], replies, [];
    }

    method Write(buffer: seq<int>)
      modifies this
      ensures written == old(written) + [buffer]
      ensures input == old(input) && resets == old(resets)
    {
      written := written + [buffer];
    }

    method Read(count: int) returns (data: seq<byte>)
      modifies this
      ensures data == old(input)[..Delivered(count, |old(input)|)]
      ensures input == old(input)[Delivered(count, |old(input)|)..]
      ensures old(input) == data + input
      ensures written == old(written) && resets == old(resets)
    {
      var n := Delivered(count, |input|);
      data, input := input[..n], input[n..];
    }

    /** `reset_input_buffer`: input that had arrived before this point is
      * discarded; the read queue models the replies to later commands. */
    method ResetInput()
      modifies this
      ensures resets == old(resets) + [|written|]
      ensures written == old(written) && input == old(input)
    {
      resets := resets + [|written|];
    }
  }

  /** The panel's baud-rate codes (command `0xFE 0x39 code`); `None` is the
    * `KeyError` raised for a rate missing from the table. Every generation of
    * the driver uses this same table. */
  function BaudRateCode(rate: int): Option<byte>
  {
    if rate == 9600 then Some(0xCF)
    else if rate == 14400 then Some(0x8A)
    else if rate == 19200 then Some(0x67)
    else if rate == 28800 then Some(0x44)
    else if rate == 38400 then Some(0x33)
    else if rate == 57600 then Some(0x22)
    else if rate == 76800 then Some(0x19)
    else if rate == 115200 then Some(0x10)
    else None
  }

  /** The rate a code selects: the table read backwards. */
  function BaudRateOfCode(code: int): Option<int>
  {
    if code == 0xCF then Some(9600)
    else if code == 0x8A then Some(14400)
    else if code == 0x67 then Some(19200)
    else if code == 0x44 then Some(28800)
    else if code == 0x33 then Some(38400)
    else if code == 0x22 then Some(57600)
    else if code == 0x19 then Some(76800)
    else if code == 0x10 then Some(115200)
    else None
  }

  /** Exactly eight rates are supported, and the code determines the rate. */
  lemma BaudRateTableInverse(rate: int, code: int)
    ensures BaudRateCode(rate) == Some(code) <==> BaudRateOfCode(code) == Some(rate)
  {
  }

  /** Codes are pairwise distinct and strictly decrease as the rate increases. */
  lemma BaudRateCodesDecrease(r1: int, r2: int)
    requires BaudRateCode(r1).Some? && BaudRateCode(r2).Some?
    ensures r1 < r2 <==> BaudRateCode(r1).value > BaudRateCode(r2).value
    ensures r1 != r2 ==> BaudRateCode(r1) != BaudRateCode(r2)
  {
  }

  /** The command that switches the panel to `rate`, when the rate is supported. */
  function BaudRateCommand(rate: int): (r: Option<seq<int>>)
    ensures r.Some? <==> BaudRateCode(rate).Some?
    ensures r.Some? ==> r.value == [0xFE, 0x39, BaudRateCode(rate).value]
  {
    match BaudRateCode(rate)
    case None => None
    case Some(code) => Some([0xFE, 0x39, code])
  }
}
