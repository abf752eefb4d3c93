/** `PyMOPanel/text.py`: font selection, font metrics, cursor placement,
  * scrolling and printing. */
module Texts {
  import opened Bytes
  import opened Wrappers
  import opened SerialLink
  import opened Helpers

  /** The UTF-8 encoding of one Unicode scalar value: the lead byte carries
    * the high bits, each continuation byte the next six. */
  function Utf8Char(c: char): (r: seq<byte>)
    ensures 1 <= |r| <= 4
    ensures (c as int < 0x80) <==> |r| == 1
  {
    var v := c as int;
    if v < 0x80 then [v]
    else if v < 0x800 then [0xC0 + v / 64, 0x80 + v % 64]
    else if v < 0x10000 then [0xE0 + v / 64 / 64, 0x80 + v / 64 % 64, 0x80 + v % 64]
    else [0xF0 + v / 64 / 64 / 64, 0x80 + v / 64 / 64 % 64, 0x80 + v / 64 % 64, 0x80 + v % 64]
  }

  /** Reads back the scalar value from the encoding of one char: the length
    * fixes the lead byte's marker, each further byte adds six bits. */
  function Utf8Value(bytes: seq<byte>): int
  {
    if |bytes| == 1 then bytes[0] as int
    else if |bytes| == 2 then (bytes[0] as int - 0xC0) * 64 + (bytes[1] as int - 0x80)
    else if |bytes| == 3 then
      ((bytes[0] as int - 0xE0) * 64 + (bytes[1] as int - 0x80)) * 64 + (bytes[2] as int - 0x80)
    else if |bytes| == 4 then
      (((bytes[0] as int - 0xF0) * 64 + (bytes[1] as int - 0x80)) * 64 + (bytes[2] as int - 0x80)) * 64
        + (bytes[3] as int - 0x80)
    else -1
  }

  /** The encoding of a char reads back as that char, and every continuation
    * byte has the form `10xxxxxx`. */
  lemma Utf8CharRoundTrip(c: char)
    ensures Utf8Value(Utf8Char(c)) == c as int
    ensures forall i :: 1 <= i < |Utf8Char(c)| ==> 0x80 <= Utf8Char(c)[i] < 0xC0
  {
    var v := c as int;
    var q1 := v / 64;
    var q2 := q1 / 64;
    assert v == q1 * 64 + v % 64;
    assert q1 == q2 * 64 + q1 % 64;
    assert q2 == q2 / 64 * 64 + q2 % 64;
  }

  /** `bytes(text, 'UTF-8')`. */
  function Utf8(text: string): (r: seq<byte>)
    ensures |text| <= |r| <= 4 * |text|
  {
    if text == [] then [] else Utf8(text[..|text| - 1]) + Utf8Char(text[|text| - 1])
  }

  /** Text made only of ASCII chars encodes to its char codes. */
  lemma {:induction false} Utf8Ascii(text: string)
    requires forall i :: 0 <= i < |text| ==> text[i] as int < 0x80
    ensures |Utf8(text)| == |text|
    ensures forall i :: 0 <= i < |text| ==> Utf8(text)[i] == text[i] as int
  {
    if text != [] {
      Utf8Ascii(text[..|text| - 1]);
    }
  }

  /** What `print` is given: a `str`, which is encoded, or anything else
    * (bytes, a list of ints), which is written as it is. */
  datatype TextArg = Str(chars: string) | Raw(data: seq<int>)

  function Payload(text: TextArg): seq<int>
  {
    match text
    case Str(s) => Utf8(s)
    case Raw(d) => d
  }

  /** Python truthiness of an optional integer argument: `None` and `0` are false. */
  predicate Truthy(v: Option<int>)
  {
    v.Some? && v.value != 0
  }

  /** The writes of `print(text, col, row, font_ref_id)`. */
  function PrintWrites(text: TextArg, col: Option<int>, row: Option<int>, fontRefId: Option<int>): (r: seq<seq<int>>)
    ensures |r| == 1 + (if Truthy(fontRefId) then 1 else 0) + (if col.Some? && row.Some? then 1 else 0)
    ensures Truthy(fontRefId) ==> r[0] == [0xFE, 0x31, SanitizeUint8(fontRefId.value)]
    ensures r[|r| - 1] == Payload(text)
  {
    (if Truthy(fontRefId) then [[0xFE, 0x31, SanitizeUint8(fontRefId.value)]] else [])
    + (if col.Some? && row.Some? then [[0xFE, 0x47, SanitizeUint8(col.value), SanitizeUint8(row.value)]] else [])
    + [Payload(text)]
  }

  /** A cursor command precedes the text exactly when both coordinates are given. */
  lemma PrintMovesCursorOnlyWithBoth(text: TextArg, col: Option<int>, row: Option<int>, fontRefId: Option<int>)
    ensures (exists i :: 0 <= i < |PrintWrites(text, col, row, fontRefId)| - 1
               && |PrintWrites(text, col, row, fontRefId)[i]| == 4
               && PrintWrites(text, col, row, fontRefId)[i][..2] == [0xFE, 0x47])
        <==> col.Some? && row.Some?
  {
    var w := PrintWrites(text, col, row, fontRefId);
    if col.Some? && row.Some? {
      var i := if Truthy(fontRefId) then 1 else 0;
      assert |w[i]| == 4 && w[i][..2] == [0xFE, 0x47];
    }
  }

  class Text {
    const port: Port
    var currentFont: byte
    var autoScroll: bool
    /** `None` until `setBoxSpaceMode` is first called. */
    var boxSpaceMode: Option<bool>
    var leftMargin: byte
    var topMargin: byte
    var charSpacing: byte
    var lineSpacing: byte
    var lastYRow: byte

    /** The getters return the metrics last sent to the panel, which the
      * constructor and `SetFontMetrics` store already sanitised. */
    function LeftMargin(): (r: byte)
      reads this
      ensures r == leftMargin
    {
      leftMargin
    }

    function TopMargin(): (r: byte)
      reads this
      ensures r == topMargin
    {
      topMargin
    }

    function CharSpacing(): (r: byte)
      reads this
      ensures r == charSpacing
    {
      charSpacing
    }

    function LineSpacing(): (r: byte)
      reads this
      ensures r == lineSpacing
    {
      lineSpacing
    }

    function LastYRow(): (r: byte)
      reads this
      ensures r == lastYRow
    {
      lastYRow
    }

    /** Selects the font, sets auto-scroll, then sends the font metrics, in that order. */
    constructor (port: Port, fontRefId: int, autoScroll: bool, leftMargin: int, topMargin: int,
                 charSpacing: int, lineSpacing: int, lastYRow: int)
      modifies port
      ensures this.port == port && boxSpaceMode.None?
      ensures currentFont == SanitizeUint8(fontRefId) && this.autoScroll == autoScroll
      ensures LeftMargin() == SanitizeUint8(leftMargin) && TopMargin() == SanitizeUint8(topMargin)
      ensures CharSpacing() == SanitizeUint8(charSpacing) && LineSpacing() == SanitizeUint8(lineSpacing)
      ensures LastYRow() == SanitizeUint8(lastYRow)
      ensures port.written == old(port.written)
        + [[0xFE, 0x31, SanitizeUint8(fontRefId)], [0xFE, if autoScroll then 0x51 else 0x52],
           [0xFE, 0x32, SanitizeUint8(leftMargin), SanitizeUint8(topMargin), SanitizeUint8(charSpacing),
            SanitizeUint8(lineSpacing), SanitizeUint8(lastYRow)]]
      ensures port.input == old(port.input) && port.resets == old(port.resets)
    {
      this.port := port;
      currentFont := SanitizeUint8(fontRefId);
      this.autoScroll := autoScroll;
      boxSpaceMode := None;
      this.leftMargin := SanitizeUint8(leftMargin);
      this.topMargin := SanitizeUint8(topMargin);
      this.charSpacing := SanitizeUint8(charSpacing);
      this.lineSpacing := SanitizeUint8(lineSpacing);
      this.lastYRow := SanitizeUint8(lastYRow);
      new;
      port.Write([0xFE, 0x31, currentFont]);
      port.Write([0xFE, if autoScroll then 0x51 else 0x52]);
      port.Write([0xFE, 0x32, this.leftMargin, this.topMargin, this.charSpacing, this.lineSpacing, this.lastYRow]);
    }

    /** `print`: a font command only for a truthy font id, a cursor command
      * only when both coordinates are given, then the text. */
    method Print(text: TextArg, col: Option<int>, row: Option<int>, fontRefId: Option<int>)
      modifies this, port
      ensures currentFont == if Truthy(fontRefId) then SanitizeUint8(fontRefId.value) else old(currentFont)
      ensures autoScroll == old(autoScroll) && boxSpaceMode == old(boxSpaceMode)
      ensures leftMargin == old(leftMargin) && topMargin == old(topMargin) && charSpacing == old(charSpacing)
      ensures lineSpacing == old(lineSpacing) && lastYRow == old(lastYRow)
      ensures port.written == old(port.written) + PrintWrites(text, col, row, fontRefId)
      ensures port.input == old(port.input) && port.resets == old(port.resets)
    {
      if fontRefId.Some? && fontRefId.value != 0 {
        SelectCurrentFont(fontRefId.value);
      }
      if col.Some? && row.Some? {
        SetCursorMoveToPos(col.value, row.value);
      }
      port.Write(Payload(text));
    }

    method SetFontMetrics(leftMargin: int, topMargin: int, charSpacing: int, lineSpacing: int, lastYRow: int)
      modifies this, port
      ensures LeftMargin() == SanitizeUint8(leftMargin) && TopMargin() == SanitizeUint8(topMargin)
      ensures CharSpacing() == SanitizeUint8(charSpacing) && LineSpacing() == SanitizeUint8(lineSpacing)
      ensures LastYRow() == SanitizeUint8(lastYRow)
      ensures currentFont == old(currentFont) && autoScroll == old(autoScroll) && boxSpaceMode == old(boxSpaceMode)
      ensures port.written == old(port.written)
        + [[0xFE, 0x32, LeftMargin(), TopMargin(), CharSpacing(), LineSpacing(), LastYRow()]]
      ensures port.input == old(port.input) && port.resets == old(port.resets)
    {
      this.leftMargin := SanitizeUint8(leftMargin);
      this.topMargin := SanitizeUint8(topMargin);
      this.charSpacing := SanitizeUint8(charSpacing);
      this.lineSpacing := SanitizeUint8(lineSpacing);
      this.lastYRow := SanitizeUint8(lastYRow);
      port.Write([0xFE, 0x32, this.leftMargin, this.topMargin, this.charSpacing, this.lineSpacing, this.lastYRow]);
    }

    method SetBoxSpaceMode(value: bool)
      modifies this, port
      ensures boxSpaceMode == Some(value) && currentFont == old(currentFont) && autoScroll == old(autoScroll)
      ensures leftMargin == old(leftMargin) && topMargin == old(topMargin) && charSpacing == old(charSpacing)
      ensures lineSpacing == old(lineSpacing) && lastYRow == old(lastYRow)
      ensures port.written == old(port.written) + [[0xFE, 0xAC, if value then 1 else 0]]
      ensures port.input == old(port.input) && port.resets == old(port.resets)
    {
      boxSpaceMode := Some(value);
      port.Write([0xFE, 0xAC, if value then 1 else 0]);
    }

    method SelectCurrentFont(fontRefId: int)
      modifies this, port
      ensures currentFont == SanitizeUint8(fontRefId) && autoScroll == old(autoScroll) && boxSpaceMode == old(boxSpaceMode)
      ensures leftMargin == old(leftMargin) && topMargin == old(topMargin) && charSpacing == old(charSpacing)
      ensures lineSpacing == old(lineSpacing) && lastYRow == old(lastYRow)
      ensures port.written == old(port.written) + [[0xFE, 0x31, SanitizeUint8(fontRefId)]]
      ensures port.input == old(port.input) && port.resets == old(port.resets)
    {
      currentFont := SanitizeUint8(fontRefId);
      port.Write([0xFE, 0x31, currentFont]);
    }

    method CursorMoveHome()
      modifies port
      ensures port.written == old(port.written) + [[0xFE, 0x48]]
      ensures port.input == old(port.input) && port.resets == old(port.resets)
    {
      port.Write([0xFE, 0x48]);
    }

    method SetCursorMoveToPos(col: int, row: int)
      modifies port
      ensures port.written == old(port.written) + [[0xFE, 0x47, SanitizeUint8(col), SanitizeUint8(row)]]
      ensures port.input == old(port.input) && port.resets == old(port.resets)
    {
      port.Write([0xFE, 0x47, SanitizeUint8(col), SanitizeUint8(row)]);
    }

    method SetCursorCoordinate(x: int, y: int)
      modifies port
      ensures port.written == old(port.written) + [[0xFE, 0x79, SanitizeUint8(x), SanitizeUint8(y)]]
      ensures port.input == old(port.input) && port.resets == old(port.resets)
    {
      port.Write([0xFE, 0x79, SanitizeUint8(x), SanitizeUint8(y)]);
    }

    method SetAutoScroll(state: bool)
      modifies this, port
      ensures autoScroll == state && currentFont == old(currentFont) && boxSpaceMode == old(boxSpaceMode)
      ensures leftMargin == old(leftMargin) && topMargin == old(topMargin) && charSpacing == old(charSpacing)
      ensures lineSpacing == old(lineSpacing) && lastYRow == old(lastYRow)
      ensures port.written == old(port.written) + [[0xFE, if state then 0x51 else 0x52]]
      ensures port.input == old(port.input) && port.resets == old(port.resets)
    {
      autoScroll := state;
      port.Write([0xFE, if state then 0x51 else 0x52]);
    }
  }
}
