/** `PyMOPanel/bar_graph.py`: the panel's bar graphs, at most sixteen, each
  * spanning a rectangle and filling in one of four directions. */
module BarGraphs {
  import opened Wrappers
  import opened Bytes
  import opened SerialLink

  /** The most bars the panel holds. */
  const MaxBars: nat := 16

  datatype Direction = VerticalBottomToTop | HorizontalLeftToRight | VerticalTopToBottom | HorizontalRightToLeft

  /** The direction's code in the bar-graph command. */
  function DirectionValue(d: Direction): (r: int)
    ensures 0 <= r < 4
  {
    match d
    case VerticalBottomToTop => 0
    case HorizontalLeftToRight => 1
    case VerticalTopToBottom => 2
    case HorizontalRightToLeft => 3
  }

  predicate IsHorizontal(d: Direction)
  {
    d.HorizontalLeftToRight? || d.HorizontalRightToLeft?
  }

  /** The four directions have distinct codes, and the odd codes are the horizontal ones. */
  lemma DirectionValues(d: Direction, e: Direction)
    ensures DirectionValue(d) == DirectionValue(e) <==> d == e
    ensures IsHorizontal(d) <==> DirectionValue(d) % 2 == 1
  {
  }

  function Abs(x: int): nat { if x < 0 then -x else x }

  /** A bar: its rectangle, its direction, its length in pixels along that
    * direction and its fill fraction. */
  datatype BarGraph = BarGraph(x0: int, y0: int, x1: int, y1: int, direction: Direction, delta: nat, value: real)

  /** A new, empty bar; its length is the width for a horizontal bar and the
    * height otherwise. */
  function NewBar(x0: int, y0: int, x1: int, y1: int, direction: Direction): (r: BarGraph)
    ensures r.value == 0.0 && (r.x0, r.y0, r.x1, r.y1, r.direction) == (x0, y0, x1, y1, direction)
    ensures IsHorizontal(direction) ==> r.delta == Abs(x1 - x0)
    ensures !IsHorizontal(direction) ==> r.delta == Abs(y1 - y0)
  {
    BarGraph(x0, y0, x1, y1, direction, if IsHorizontal(direction) then Abs(x0 - x1) else Abs(y0 - y1), 0.0)
  }

  /** Python's `int(x)` on a number: truncation toward zero. */
  function Truncate(x: real): (r: int)
    ensures x >= 0.0 ==> 0 <= r && r as real <= x < r as real + 1.0
    ensures x < 0.0 ==> r <= 0 && r as real - 1.0 < x <= r as real
  {
    if x >= 0.0 then x.Floor else -((-x).Floor)
  }

  /** `getValueInPixels`: the filled length. */
  function Pixels(bar: BarGraph): int
  {
    Truncate(bar.value * bar.delta as real)
  }

  /** A fill fraction in [0, 1] fills between 0 and the whole bar; a full bar
    * fills exactly its length and an empty one nothing. */
  lemma PixelsWithinBar(bar: BarGraph)
    ensures 0.0 <= bar.value <= 1.0 ==> 0 <= Pixels(bar) <= bar.delta
    ensures bar.value == 1.0 ==> Pixels(bar) == bar.delta
    ensures bar.value == 0.0 ==> Pixels(bar) == 0
  {
    if 0.0 <= bar.value <= 1.0 {
      var d := bar.delta as real;
      assert (1.0 - bar.value) * d >= 0.0;
      assert bar.value * d >= 0.0;
      assert bar.value * d <= d;
    }
  }

  class BarGraphManager {
    const port: Port
    /** The bars, in the order they were added; a bar's index is its position. */
    var bars: seq<BarGraph>

    predicate Valid()
      reads this
    {
      |bars| <= MaxBars
    }

    constructor (port: Port)
      ensures this.port == port && bars == [] && Valid()
    {
      this.port := port;
      bars := [];
    }

    /** `addBarGraph`: raises (`None`) when sixteen bars exist, writing
      * nothing; otherwise appends the bar, writes its unsanitised definition
      * and returns its index, the number of bars before the call. */
    method AddBarGraph(x0: int, y0: int, x1: int, y1: int, direction: Direction) returns (index: Option<nat>)
      requires Valid()
      modifies this, port
      ensures Valid()
      ensures index.None? <==> |old(bars)| == MaxBars
      ensures index.None? ==> bars == old(bars) && port.written == old(port.written)
      ensures index.Some? ==> index.value == |old(bars)| && bars == old(bars) + [NewBar(x0, y0, x1, y1, direction)]
      ensures index.Some? ==>
        port.written == old(port.written) + [[0xFE, 0x67, index.value, DirectionValue(direction), x0, y0, x1, y1]]
      ensures port.input == old(port.input) && port.resets == old(port.resets)
    {
      if |bars| == MaxBars {
        return None;
      }
      bars := bars + [NewBar(x0, y0, x1, y1, direction)];
      var i := |bars| - 1;
      port.Write([0xFE, 0x67, i, DirectionValue(direction), x0, y0, x1, y1]);
      return Some(i);
    }

    /** `setBarGraphValue`: a Python index into the bars (a bad one raises
      * before anything changes); only that bar's value changes, and the
      * command carries the index as given and the filled length. */
    method SetBarGraphValue(index: int, value: real) returns (ok: bool)
      requires Valid()
      modifies this, port
      ensures Valid()
      ensures ok <==> PyIndex(index, |old(bars)|).Some?
      ensures !ok ==> bars == old(bars) && port.written == old(port.written)
      ensures ok ==> var k := PyIndex(index, |old(bars)|).value;
        bars == old(bars)[k := old(bars)[k].(value := value)]
        && port.written == old(port.written) + [[0xFE, 0x69, index, Pixels(bars[k])]]
      ensures port.input == old(port.input) && port.resets == old(port.resets)
    {
      var k := PyIndex(index, |bars|);
      if k.None? {
        return false;
      }
      bars := bars[k.value := bars[k.value].(value := value)];
      port.Write([0xFE, 0x69, index, Pixels(bars[k.value])]);
      return true;
    }
  }
}
