/** `old_imm_scripts/lcd_panel.py`: the menu program of the oldest generation.
  * It formats fixed-width rows for the 32-column panel, maps panel keys to
  * navigation keys, scrolls a six-row window over each menu, sorts media
  * files found on a pendrive by compatibility, and decides a rescue boot
  * from the keys held at start-up. */
module LcdPanel {
  import opened Wrappers
  import opened Bytes
  import opened SerialLink
  import opened Keyboard
  import opened ImmDriver

  // ----- Python slices on strings -----

  /** `s[:n]`. */
  function Take(s: string, n: nat): (r: string)
    ensures |r| == Min(n, |s|) && r == s[..|r|]
  {
    if n <= |s| then s[..n] else s
  }

  /** `s[n:]`. */
  function Drop(s: string, n: nat): (r: string)
    ensures |r| == Max(|s| - n, 0)
    ensures n <= |s| ==> r == s[n..]
  {
    if n <= |s| then s[n..] else ""
  }

  /** `s[:-n]` for a positive `n`. */
  function DropLast(s: string, n: nat): (r: string)
    ensures |r| == Max(|s| - n, 0) && r == s[..|r|]
  {
    if n <= |s| then s[..|s| - n] else ""
  }

  /** `s[-n:]` for a positive `n`. */
  function TakeLast(s: string, n: nat): (r: string)
    ensures |r| == Min(n, |s|) && r == s[|s| - |r|..]
  {
    if n <= |s| then s[|s| - n..] else s
  }

  function Spaces(n: nat): (r: string)
    ensures |r| == n && forall i :: 0 <= i < n ==> r[i] == ' '
  {
    seq(n, _ => ' ')
  }

  /** A Python 2 string on the wire: one byte per character. */
  function Latin1(s: string): (r: seq<byte>)
    ensures |r| == |s|
  {
    seq(|s|, i requires 0 <= i < |s| => (s[i] as int) % 256)
  }

  // ----- row formatting -----

  /** The selection marker: none for a menu without selectable items. */
  function Marker(isSelected: Option<bool>): (r: string)
    ensures isSelected.None? <==> r == ""
    ensures isSelected.Some? ==> |r| == 4 && r[0] == '[' && r[2..] == "] "
    ensures isSelected.Some? ==> (r[1] == '*' <==> isSelected.value)
  {
    match isSelected
    case None => ""
    case Some(selected) => if selected then "[*] " else "[ ] "
  }

  /** `print_item`'s row: cursor mark, marker, content cut and padded so that
    * marker and content fill 29 columns, closing cursor mark. */
  function ItemLine(content: string, isSelected: Option<bool>, isCursor: bool): string
  {
    var selected := Marker(isSelected);
    var shown := Take(content, 29 - |selected|);
    [if isCursor then '<' else ' '] + selected + shown + Spaces(29 - (|shown| + |selected|))
      + [if isCursor then '>' else ' ']
  }

  /** The pieces `print_item` concatenates. */
  lemma ItemLineParts(content: string, isSelected: Option<bool>, isCursor: bool)
    returns (open: char, m: string, shown: string, pad: string, close: char)
    ensures ItemLine(content, isSelected, isCursor) == [open] + m + shown + pad + [close]
    ensures open == (if isCursor then '<' else ' ') && close == (if isCursor then '>' else ' ')
    ensures m == Marker(isSelected) && shown == content[..Min(|content|, 29 - |m|)]
    ensures |pad| == 29 - |m| - |shown| && forall i :: 0 <= i < |pad| ==> pad[i] == ' '
  {
    m := Marker(isSelected);
    shown := Take(content, 29 - |m|);
    pad := Spaces(29 - (|shown| + |m|));
    open := if isCursor then '<' else ' ';
    close := if isCursor then '>' else ' ';
  }

  /** The row is 31 columns wide, framed by `<` and `>` exactly on the
    * cursor's row (blanks elsewhere). */
  lemma ItemLineFrame(content: string, isSelected: Option<bool>, isCursor: bool)
    ensures var r := ItemLine(content, isSelected, isCursor);
      |r| == 31 && (r[0] == '<' <==> isCursor) && (r[30] == '>' <==> isCursor)
      && (!isCursor ==> r[0] == ' ' && r[30] == ' ')
  {
    var open, m, shown, pad, close := ItemLineParts(content, isSelected, isCursor);
    FiveParts(ItemLine(content, isSelected, isCursor), [open], m, shown, pad, [close]);
  }

  /** The row shows the marker, then as much of the content as fits, then
    * blanks: content that fits is shown whole. */
  lemma ItemLineLayout(content: string, isSelected: Option<bool>, isCursor: bool)
    ensures var r := ItemLine(content, isSelected, isCursor);
      var m := Marker(isSelected);
      var n := Min(|content|, 29 - |m|);
      r[1..1 + |m|] == m && r[1 + |m|..1 + |m| + n] == content[..n]
      && (forall i :: 1 + |m| + n <= i < 30 ==> r[i] == ' ')
      && (|content| <= 29 - |m| ==> r[1 + |m|..1 + |m| + |content|] == content)
  {
    var open, m, shown, pad, close := ItemLineParts(content, isSelected, isCursor);
    FiveParts(ItemLine(content, isSelected, isCursor), [open], m, shown, pad, [close]);
  }

  /** Proof helper: where the parts of a concatenation of five strings sit. */
  lemma FiveParts(r: string, a: string, b: string, c: string, d: string, e: string)
    requires r == a + b + c + d + e
    ensures |r| == |a| + |b| + |c| + |d| + |e|
    ensures r[..|a|] == a && r[|a|..|a| + |b|] == b && r[|a| + |b|..|a| + |b| + |c|] == c
    ensures forall i :: |a| + |b| + |c| <= i < |a| + |b| + |c| + |d| ==> r[i] == d[i - |a| - |b| - |c|]
    ensures r[|r| - |e|..] == e
  {
    assert r == a + (b + (c + (d + e)));
    assert r[|a|..] == b + (c + (d + e));
    assert r[|a| + |b|..] == c + (d + e);
    assert r[|a| + |b| + |c|..] == d + e;
  }

  /** `print_emphasis`'s row: the content cut to 32 columns and padded to 32. */
  function EmphasisLine(content: string): string
  {
    var shown := Take(content, 32);
    shown + Spaces(32 - |shown|)
  }

  /** The row is 32 columns wide: the content's first 32 characters, then blanks. */
  lemma EmphasisLineLayout(content: string)
    ensures var r := EmphasisLine(content);
      |r| == 32 && r[..Min(|content|, 32)] == content[..Min(|content|, 32)]
      && forall i :: Min(|content|, 32) <= i < 32 ==> r[i] == ' '
  {
  }

  // ----- getkey -----

  /** The navigation keys of the menu program; `Unbound` is the `None` that
    * the `G` key maps to. */
  datatype KeyCode = NoKey | KeyUp | KeyDown | KeyLeft | KeyRight | KeyEnter | KeyBack | Unbound

  /** A received key byte missing from the map (Python raises `KeyError`). */
  datatype KeyLookupError = UnknownKey(key: byte)

  /** `getkey` on the bytes a read delivered: nothing read is no key (the
    * curses echo is disabled); otherwise only the last key counts. */
  function KeyOf(panelKeys: seq<byte>): (r: Result<KeyCode, KeyLookupError>)
    ensures panelKeys == [] ==> r == Success(NoKey)
    ensures panelKeys != [] ==> (r.Success? <==> 0x41 <= panelKeys[|panelKeys| - 1] <= 0x48 && panelKeys[|panelKeys| - 1] != 0x46)
    ensures r.Success? && panelKeys != [] ==> r.value != NoKey
  {
    if panelKeys == [] then Success(NoKey)
    else
      var key := panelKeys[|panelKeys| - 1];
      if key == 'B' as int then Success(KeyUp)
      else if key == 'H' as int then Success(KeyDown)
      else if key == 'D' as int then Success(KeyLeft)
      else if key == 'C' as int then Success(KeyRight)
      else if key == 'E' as int then Success(KeyEnter)
      else if key == 'A' as int then Success(KeyBack)
      else if key == 'G' as int then Success(Unbound)
      else Failure(UnknownKey(key))
  }

  /** The menu program reads the arrow keys exactly as the current keypad
    * listener does, and earlier keys in the same read are ignored. */
  lemma KeyOfAgreesWithListener(earlier: seq<byte>)
    ensures KeyOf(earlier + [UpKey]) == Success(KeyUp)
    ensures KeyOf(earlier + [DownKey]) == Success(KeyDown)
    ensures KeyOf(earlier + [LeftKey]) == Success(KeyLeft)
    ensures KeyOf(earlier + [RightKey]) == Success(KeyRight)
    ensures forall k: byte :: KeyOf(earlier + [k]) == KeyOf([k])
  {
  }

  // ----- the panel -----

  /** The writes of the panel's start-up: font 1, metrics with character
    * spacing 1, clear, scrolling off, key buffer cleared. */
  function PanelInitWrites(): seq<seq<int>>
  {
    [[0xFE, 0x31, 1], [0xFE, 0x32, 0, 0, 1, 1, 64], [0xFE, 0x58], [0xFE, 0x52], [0xFE, 0x45]]
  }

  /** The two writes that print `content` at column `x` of row `y`. */
  function LocatedWrites(y: int, x: int, content: string): (r: seq<seq<int>>)
    ensures |r| == 2 && r[1] == Latin1(content)
  {
    [[0xFE, 0x47, x % 256, y % 256], Latin1(content)]
  }

  /** `MatrixOrbitalPanel`: the driver when the device opened, otherwise the
    * null driver, which writes nothing and reads nothing. */
  class MatrixOrbitalPanel {
    const port: Port
    const ready: bool
    const driver: ImmMatrixOrbital

    /** The driver talks to the panel's link. */
    predicate Valid()
    {
      driver.port == port
    }

    constructor (port: Port, isOpen: bool)
      modifies port
      ensures Valid() && this.port == port && ready == isOpen
      ensures port.written == old(port.written) + (if isOpen then PanelInitWrites() else [])
      ensures port.input == old(port.input) && port.resets == old(port.resets)
    {
      this.port := port;
      ready := isOpen;
      var d := new ImmMatrixOrbital(port);
      driver := d;
      if isOpen {
        SendBytes(d, SelectCurrentFont(1), [0xFE, 0x31, 1]);
        SendBytes(d, SetFontMetrics(0, 0, 1, 1, 64), [0xFE, 0x32, 0, 0, 1, 1, 64]);
        SendBytes(d, ClearScreen, [0xFE, 0x58]);
        SendBytes(d, SetScroll(false), [0xFE, 0x52]);
        SendBytes(d, ClearKeyBuffer, [0xFE, 0x45]);
      }
    }

    /** `_located_print` (the sleep after it left out). */
    method LocatedPrint(y: int, x: int, content: string)
      requires Valid()
      modifies port
      ensures port.written == old(port.written) + (if ready then LocatedWrites(y, x, content) else [])
      ensures port.input == old(port.input) && port.resets == old(port.resets)
    {
      if ready {
        assert Mask([0xFE, 0x47, x, y]) == [0xFE, 0x47, x % 256, y % 256];
        var ok := driver.Send(SetCursorMoveToPos(x, y));
        driver.PrintText(Latin1(content));
      }
    }

    method PrintItem(y: int, content: string, isSelected: Option<bool>, isCursor: bool)
      requires Valid()
      modifies port
      ensures port.written == old(port.written)
        + (if ready then LocatedWrites(y, 1, ItemLine(content, isSelected, isCursor)) else [])
      ensures port.input == old(port.input) && port.resets == old(port.resets)
    {
      LocatedPrint(y, 1, ItemLine(content, isSelected, isCursor));
    }

    method PrintEmphasis(y: int, content: string)
      requires Valid()
      modifies port
      ensures port.written == old(port.written) + (if ready then LocatedWrites(y, 1, EmphasisLine(content)) else [])
      ensures port.input == old(port.input) && port.resets == old(port.resets)
    {
      LocatedPrint(y, 1, EmphasisLine(content));
    }

    /** Prints one row of a menu window. */
    method PrintRow(row: Row)
      requires Valid()
      modifies port
      ensures port.written == old(port.written) + (if ready then LocatedWrites(row.y, 1, RowLine(row)) else [])
      ensures port.input == old(port.input) && port.resets == old(port.resets)
    {
      match row
      case Emphasis(y, content) => PrintEmphasis(y, content);
      case Item(y, content, isSelected, isCursor) => PrintItem(y, content, isSelected, isCursor);
    }

    /** `getkey`: everything waiting is read, and the last key decides. */
    method GetKey() returns (r: Result<KeyCode, KeyLookupError>)
      requires Valid()
      modifies port
      ensures r == KeyOf(if ready then old(port.input) else [])
      ensures port.input == (if ready then [] else old(port.input))
      ensures port.written == old(port.written) && port.resets == old(port.resets)
    {
      var panelKeys: seq<byte> := [];
      if ready {
        panelKeys := driver.Read();
      }
      r := KeyOf(panelKeys);
    }

    method Clear()
      requires Valid()
      modifies port
      ensures port.written == old(port.written) + (if ready then [[0xFE, 0x58]] else [])
      ensures port.input == old(port.input) && port.resets == old(port.resets)
    {
      if ready {
        SendBytes(driver, ClearScreen, [0xFE, 0x58]);
      }
    }
  }

  /** Sends a builder's command whose bytes are already masked. */
  method SendBytes(d: ImmMatrixOrbital, c: ImmCommand, bytes: seq<int>)
    requires CommandList(c) == Some(bytes) && forall i :: 0 <= i < |bytes| ==> IsByte(bytes[i])
    modifies d.port
    ensures d.port.written == old(d.port.written) + [bytes]
    ensures d.port.input == old(d.port.input) && d.port.resets == old(d.port.resets)
  {
    MaskKeepsBytes(bytes);
    var ok := d.Send(c);
  }

  // ----- the menu window -----

  /** Rows of the menu shown below its title. */
  const Lines := 6

  /** The scroll window of one menu: the cursor is among the six displayed
    * items and, unless the menu is empty, on an item. */
  predicate InWindow(first: int, cursor: int, count: nat)
  {
    0 <= first <= cursor < first + Lines && (cursor < count || cursor == 0)
  }

  /** The window start after the cursor moved: one step towards the cursor
    * when it left the window. */
  function FollowCursor(first: int, cursor: int): (r: int)
    ensures first <= cursor < first + Lines + 1 ==> r <= cursor < r + Lines
    ensures first - 1 <= cursor < first + Lines ==> r <= cursor < r + Lines
  {
    if cursor >= first + Lines then first + 1 else if cursor < first then first - 1 else first
  }

  /** A printed row: a `print_emphasis` or a `print_item` call. */
  datatype Row =
    | Emphasis(y: int, content: string)
    | Item(y: int, content: string, isSelected: Option<bool>, isCursor: bool)

  /** The text a row puts on the panel. */
  function RowLine(row: Row): string
  {
    match row
    case Emphasis(_, content) => EmphasisLine(content)
    case Item(_, content, isSelected, isCursor) => ItemLine(content, isSelected, isCursor)
  }

  /** How many items `repaint` draws: six, or fewer at the end of the list. */
  function DrawnCount(first: int, count: nat): (r: nat)
    ensures r <= Lines
    ensures 0 <= first ==> r == Max(0, Min(Lines, count - first))
  {
    if first + Lines <= count then Lines else Max(0, count - first)
  }

  /** The writes of a sequence of rows, in order. */
  function RowsWrites(rows: seq<Row>): (r: seq<seq<int>>)
    ensures |r| == 2 * |rows|
  {
    if rows == [] then []
    else RowsWrites(rows[..|rows| - 1]) + LocatedWrites(rows[|rows| - 1].y, 1, RowLine(rows[|rows| - 1]))
  }

  /** The writes of one more row. */
  lemma RowsWritesSnoc(rows: seq<Row>, row: Row)
    ensures RowsWrites(rows + [row]) == RowsWrites(rows) + LocatedWrites(row.y, 1, RowLine(row))
  {
    assert (rows + [row])[..|rows|] == rows;
  }

  /** A log holding the writes of some rows, after the writes of one more row. */
  lemma AppendRowWrites(start: seq<seq<int>>, before: seq<seq<int>>, after: seq<seq<int>>, rows: seq<Row>, row: Row, ready: bool)
    requires before == start + (if ready then RowsWrites(rows) else [])
    requires after == before + (if ready then LocatedWrites(row.y, 1, RowLine(row)) else [])
    ensures after == start + (if ready then RowsWrites(rows + [row]) else [])
  {
    RowsWritesSnoc(rows, row);
  }

  /** The first `n` item rows of a window starting at `first`: window row
    * `k` shows item `first + k` on panel row `2 + k`, with its selection
    * mark and the cursor mark when the cursor is on it. */
  function ItemRows(menuItems: seq<string>, first: nat, n: nat, cursor: int, selection: int -> Option<bool>): (r: seq<Row>)
    requires first + n <= |menuItems|
  {
    seq(n, k requires 0 <= k < n => Item(2 + k, menuItems[first + k], selection(first + k), cursor == first + k))
  }

  /** One more item row. */
  lemma ItemRowsSnoc(menuItems: seq<string>, first: nat, n: nat, cursor: int, selection: int -> Option<bool>, prefix: seq<Row>)
    requires first + n < |menuItems|
    ensures prefix + ItemRows(menuItems, first, n + 1, cursor, selection)
      == prefix + ItemRows(menuItems, first, n, cursor, selection) + [Item(2 + n, menuItems[first + n], selection(first + n), cursor == first + n)]
  {
  }

  /** What `repaint` prints: the title, then the window's items. */
  function MenuRows(title: string, menuItems: seq<string>, first: int, cursor: int, selection: int -> Option<bool>): (r: seq<Row>)
    requires 0 <= first <= |menuItems|
    ensures |r| == 1 + DrawnCount(first, |menuItems|) && r[0] == Emphasis(1, "Menu: " + title)
  {
    [Emphasis(1, "Menu: " + title)] + ItemRows(menuItems, first, DrawnCount(first, |menuItems|), cursor, selection)
  }

  /** The rows `repaint` prints are the window's rows: at most six, each
    * item formatted with its selection mark and the cursor on its row. */
  lemma MenuRowsWindow(title: string, menuItems: seq<string>, first: int, cursor: int, selection: int -> Option<bool>)
    requires InWindow(first, cursor, |menuItems|)
    ensures var r := MenuRows(title, menuItems, first, cursor, selection);
      2 <= |r| <= 1 + Lines || (|menuItems| == 0 && |r| == 1)
    ensures var r := MenuRows(title, menuItems, first, cursor, selection);
      |menuItems| > 0 ==> exists i :: 1 <= i < |r| && r[i] == Item(1 + i, menuItems[cursor], selection(cursor), true)
  {
    var r := MenuRows(title, menuItems, first, cursor, selection);
    if |menuItems| > 0 {
      var i := cursor - first + 1;
      assert r[i] == ItemRows(menuItems, first, DrawnCount(first, |menuItems|), cursor, selection)[cursor - first];
    }
  }

  class MenuWindow {
    const panel: MatrixOrbitalPanel
    var titles: seq<string>
    var items: seq<seq<string>>
    var displayedMenuIndex: int
    var firstDisplayedItemIndex: seq<int>
    var cursorItemIndex: seq<int>
    var selectedItemIndex: seq<int>

    /** One index per menu in each list, the displayed menu exists, and
      * every menu's cursor is inside its window. */
    predicate Valid()
      reads this
    {
      |items| == |titles| && |firstDisplayedItemIndex| == |titles|
      && |cursorItemIndex| == |titles| && |selectedItemIndex| == |titles|
      && (|titles| > 0 ==> 0 <= displayedMenuIndex < |titles|) && panel.Valid()
      && forall m :: 0 <= m < |titles| ==> InWindow(firstDisplayedItemIndex[m], cursorItemIndex[m], |items[m]|)
    }

    /** Every menu starts at its first item, the first menu displayed. */
    constructor (panel: MatrixOrbitalPanel, titles: seq<string>, items: seq<seq<string>>)
      requires |items| == |titles| && panel.Valid()
      ensures Valid() && this.panel == panel && this.titles == titles && this.items == items
      ensures displayedMenuIndex == 0
      ensures firstDisplayedItemIndex == cursorItemIndex == selectedItemIndex == seq(|titles|, _ => 0)
    {
      this.panel := panel;
      this.titles := titles;
      this.items := items;
      displayedMenuIndex := 0;
      firstDisplayedItemIndex := seq(|titles|, _ => 0);
      cursorItemIndex := seq(|titles|, _ => 0);
      selectedItemIndex := seq(|titles|, _ => 0);
    }

    /** `_inc_item`: the cursor moves only onto an existing item, then the
      * window follows it by one; only the displayed menu's slots change, and
      * a step of one keeps every cursor inside its window. */
    method IncItem(inc: int)
      requires Valid() && |titles| > 0
      modifies this
      ensures titles == old(titles) && items == old(items) && displayedMenuIndex == old(displayedMenuIndex)
      ensures |cursorItemIndex| == |firstDisplayedItemIndex| == |titles|
      ensures var m := displayedMenuIndex;
        var proposed := old(cursorItemIndex[m]) + inc;
        var cursor := if 0 <= proposed < |items[m]| then proposed else old(cursorItemIndex[m]);
        cursorItemIndex == old(cursorItemIndex)[m := cursor]
        && firstDisplayedItemIndex == old(firstDisplayedItemIndex)[m := FollowCursor(old(firstDisplayedItemIndex[m]), cursor)]
      ensures selectedItemIndex == old(selectedItemIndex)
      ensures inc == 1 || inc == -1 ==> Valid()
    {
      var m := displayedMenuIndex;
      var proposed := cursorItemIndex[m] + inc;
      if proposed >= 0 && proposed < |items[m]| {
        cursorItemIndex := cursorItemIndex[m := proposed];
      }
      if cursorItemIndex[m] >= firstDisplayedItemIndex[m] + Lines {
        firstDisplayedItemIndex := firstDisplayedItemIndex[m := firstDisplayedItemIndex[m] + 1];
      } else if cursorItemIndex[m] < firstDisplayedItemIndex[m] {
        firstDisplayedItemIndex := firstDisplayedItemIndex[m := firstDisplayedItemIndex[m] - 1];
      }
    }

    /** `_inc_menu`: the displayed menu changes only to an existing one. */
    method IncMenu(inc: int)
      requires Valid()
      modifies this
      ensures var proposed := old(displayedMenuIndex) + inc;
        displayedMenuIndex == if 0 <= proposed < |titles| then proposed else old(displayedMenuIndex)
      ensures titles == old(titles) && items == old(items)
      ensures firstDisplayedItemIndex == old(firstDisplayedItemIndex) && cursorItemIndex == old(cursorItemIndex)
      ensures selectedItemIndex == old(selectedItemIndex)
      ensures Valid()
    {
      var proposed := displayedMenuIndex + inc;
      if proposed >= 0 && proposed < |titles| {
        displayedMenuIndex := proposed;
      }
    }

    /** `_select_current_item` without the menu's action callback. */
    method SelectCurrentItem()
      requires Valid() && |titles| > 0
      modifies this
      ensures titles == old(titles) && items == old(items) && displayedMenuIndex == old(displayedMenuIndex)
      ensures firstDisplayedItemIndex == old(firstDisplayedItemIndex) && cursorItemIndex == old(cursorItemIndex)
      ensures selectedItemIndex == old(selectedItemIndex)[displayedMenuIndex := cursorItemIndex[displayedMenuIndex]]
      ensures Valid()
    {
      selectedItemIndex := selectedItemIndex[displayedMenuIndex := cursorItemIndex[displayedMenuIndex]];
    }

    /** `repaint`: the title row, then at most six item rows from the window
      * start, stopping at the end of the list; `selection` is the menu's
      * `is_selected` callback applied to an item's argument. */
    method Repaint(selection: int -> Option<bool>) returns (rows: seq<Row>)
      requires Valid() && |titles| > 0
      modifies panel.port
      ensures var m := displayedMenuIndex;
        rows == MenuRows(titles[m], items[m], firstDisplayedItemIndex[m], cursorItemIndex[m], selection)
      ensures panel.port.written == old(panel.port.written) + (if panel.ready then RowsWrites(rows) else [])
      ensures panel.port.input == old(panel.port.input) && panel.port.resets == old(panel.port.resets)
    {
      var m := displayedMenuIndex;
      assert InWindow(firstDisplayedItemIndex[m], cursorItemIndex[m], |items[m]|);
      var titleRows := PrintTitle(panel, titles[m]);
      rows := PrintItemRows(panel, items[m], firstDisplayedItemIndex[m], cursorItemIndex[m], selection,
                            titleRows, old(panel.port.written));
    }

    /** `process_event` for the keys it handles: left and right clear the
      * panel and change menu, up and down move the cursor, enter selects the
      * cursor's item, back asks for the status window. Every key keeps the
      * windows valid. */
    method ProcessEvent(key: KeyCode) returns (toStatus: bool)
      requires Valid()
      requires (key == KeyUp || key == KeyDown || key == KeyEnter) ==> |titles| > 0
      modifies this, panel.port
      ensures Valid() && titles == old(titles) && items == old(items)
      ensures toStatus <==> key == KeyBack
      ensures key == KeyLeft || key == KeyRight ==>
        panel.port.written == old(panel.port.written) + (if panel.ready then [[0xFE, 0x58]] else [])
      ensures !(key == KeyLeft || key == KeyRight) ==> panel.port.written == old(panel.port.written)
      ensures !(key == KeyLeft || key == KeyRight) ==> displayedMenuIndex == old(displayedMenuIndex)
      ensures !(key == KeyUp || key == KeyDown) ==>
        cursorItemIndex == old(cursorItemIndex) && firstDisplayedItemIndex == old(firstDisplayedItemIndex)
      ensures panel.port.input == old(panel.port.input) && panel.port.resets == old(panel.port.resets)
    {
      toStatus := false;
      if key == KeyLeft {
        panel.Clear();
        IncMenu(-1);
      } else if key == KeyRight {
        panel.Clear();
        IncMenu(1);
      } else if key == KeyUp {
        IncItem(-1);
      } else if key == KeyDown {
        IncItem(1);
      } else if key == KeyEnter {
        SelectCurrentItem();
      } else if key == KeyBack {
        toStatus := true;
      }
    }
  }

  /** The title row of `repaint`. */
  method PrintTitle(panel: MatrixOrbitalPanel, title: string) returns (rows: seq<Row>)
    requires panel.Valid()
    modifies panel.port
    ensures rows == [Emphasis(1, "Menu: " + title)]
    ensures panel.port.written == old(panel.port.written) + (if panel.ready then RowsWrites(rows) else [])
    ensures panel.port.input == old(panel.port.input) && panel.port.resets == old(panel.port.resets)
  {
    var row := Emphasis(1, "Menu: " + title);
    panel.PrintEmphasis(1, "Menu: " + title);
    AppendRowWrites(old(panel.port.written), old(panel.port.written), panel.port.written, [], row, panel.ready);
    rows := [] + [row];
  }

  /** The item rows of `repaint`: the loop over the six window rows, which
    * stops at the end of the list. */
  method PrintItemRows(panel: MatrixOrbitalPanel, menuItems: seq<string>, first: nat, cursor: int,
                       selection: int -> Option<bool>, prefix: seq<Row>, ghost start: seq<seq<int>>)
    returns (rows: seq<Row>)
    requires panel.Valid() && first <= |menuItems|
    requires panel.port.written == start + (if panel.ready then RowsWrites(prefix) else [])
    modifies panel.port
    ensures rows == prefix + ItemRows(menuItems, first, DrawnCount(first, |menuItems|), cursor, selection)
    ensures panel.port.written == start + (if panel.ready then RowsWrites(rows) else [])
    ensures panel.port.input == old(panel.port.input) && panel.port.resets == old(panel.port.resets)
  {
    rows := prefix;
    var i := 0;
    while i < Lines
      invariant 0 <= i <= Lines && first + i <= |menuItems|
      invariant rows == prefix + ItemRows(menuItems, first, i, cursor, selection)
      invariant panel.port.written == start + (if panel.ready then RowsWrites(rows) else [])
      invariant panel.port.input == old(panel.port.input) && panel.port.resets == old(panel.port.resets)
    {
      var index := first + i;
      if index >= |menuItems| {
        break;
      }
      rows := PrintWindowRow(panel, menuItems, first, i, cursor, selection, prefix, rows, start);
      i := i + 1;
    }
  }

  /** Prints the item at window row `i`. */
  method PrintWindowRow(panel: MatrixOrbitalPanel, menuItems: seq<string>, first: nat, i: nat, cursor: int,
                        selection: int -> Option<bool>, prefix: seq<Row>, rows: seq<Row>, ghost start: seq<seq<int>>)
    returns (more: seq<Row>)
    requires panel.Valid() && first + i < |menuItems|
    requires rows == prefix + ItemRows(menuItems, first, i, cursor, selection)
    requires panel.port.written == start + (if panel.ready then RowsWrites(rows) else [])
    modifies panel.port
    ensures more == prefix + ItemRows(menuItems, first, i + 1, cursor, selection)
    ensures panel.port.written == start + (if panel.ready then RowsWrites(more) else [])
    ensures panel.port.input == old(panel.port.input) && panel.port.resets == old(panel.port.resets)
  {
    var index := first + i;
    var row := Item(2 + i, menuItems[index], selection(index), cursor == index);
    panel.PrintRow(row);
    AppendRowWrites(start, old(panel.port.written), panel.port.written, rows, row, panel.ready);
    ItemRowsSnoc(menuItems, first, i, cursor, selection, prefix);
    more := rows + [row];
  }

  // ----- content found on a pendrive -----

  /** What the file name and the file tell about one media file. */
  datatype ContentFile = ContentFile(
    normalized: bool, id: string, serial: string, layout: string,
    name: string, hash: string, path: string)

  datatype Category = NotNormalized | Incompatible | New | ToReplace | AlreadyIngested

  /** The serial rule: a serial equal to the box's, or one whose characters
    * after the first two are `0000`. */
  predicate SerialMatches(serial: string, boxSerial: string)
  {
    serial != "" && (serial == boxSerial || Drop(serial, 2) == "0000")
  }

  /** The layout rule: a layout equal to the box's, or one equal to it but
    * for a last three characters of `000`. */
  predicate LayoutMatches(layout: string, boxLayout: string)
  {
    layout != "" && (layout == boxLayout || (DropLast(layout, 3) == DropLast(boxLayout, 3) && TakeLast(layout, 3) == "000"))
  }

  /** A wildcard serial is exactly six characters ending in `0000`. */
  lemma SerialMatchesMeaning(serial: string, boxSerial: string)
    ensures SerialMatches(serial, boxSerial) <==>
      serial != "" && (serial == boxSerial || (|serial| == 6 && serial[2..] == "0000"))
  {
  }

  /** A wildcard layout is the box's layout with its last three characters
    * replaced by `000` (just `000` for a box layout of under three). */
  lemma LayoutMatchesMeaning(layout: string, boxLayout: string)
    ensures LayoutMatches(layout, boxLayout) <==>
      layout != "" && (layout == boxLayout || layout == DropLast(boxLayout, 3) + "000")
  {
    if layout != boxLayout && DropLast(layout, 3) == DropLast(boxLayout, 3) && TakeLast(layout, 3) == "000" {
      assert layout == DropLast(layout, 3) + TakeLast(layout, 3);
    }
    if layout == DropLast(boxLayout, 3) + "000" {
      assert DropLast(layout, 3) == DropLast(boxLayout, 3);
    }
  }

  /** Compatible: a matching serial or layout, and a hash present. */
  predicate Compatible(f: ContentFile, boxSerial: string, boxLayout: string)
  {
    (SerialMatches(f.serial, boxSerial) || LayoutMatches(f.layout, boxLayout)) && f.hash != ""
  }

  /** Where a file goes: `ingested` maps an ingested id to its file's hash. */
  function CategoryOf(f: ContentFile, boxSerial: string, boxLayout: string, ingested: map<string, string>): (r: Category)
    ensures r == New <==> f.normalized && Compatible(f, boxSerial, boxLayout) && f.id !in ingested
    ensures r == ToReplace <==>
      f.normalized && Compatible(f, boxSerial, boxLayout) && f.id in ingested && ingested[f.id] != f.hash
    ensures r == AlreadyIngested <==>
      f.normalized && Compatible(f, boxSerial, boxLayout) && f.id in ingested && ingested[f.id] == f.hash
    ensures r == Incompatible <==> f.normalized && !Compatible(f, boxSerial, boxLayout)
  {
    if !f.normalized then NotNormalized
    else if !Compatible(f, boxSerial, boxLayout) then Incompatible
    else if f.id !in ingested then New
    else if f.hash != ingested[f.id] then ToReplace
    else AlreadyIngested
  }

  /** The (name, path) pairs of the files of one category, in order. */
  function Listed(wavs: seq<ContentFile>, c: Category, boxSerial: string, boxLayout: string, ingested: map<string, string>): seq<(string, string)>
  {
    if wavs == [] then []
    else
      var f := wavs[|wavs| - 1];
      Listed(wavs[..|wavs| - 1], c, boxSerial, boxLayout, ingested)
        + (if CategoryOf(f, boxSerial, boxLayout, ingested) == c then [(f.name, f.path)] else [])
  }

  /** Listing one more file. */
  lemma ListedStep(wavs: seq<ContentFile>, i: nat, boxSerial: string, boxLayout: string, ingested: map<string, string>)
    requires i < |wavs|
    ensures forall c :: (Listed(wavs[..i + 1], c, boxSerial, boxLayout, ingested)
      == Listed(wavs[..i], c, boxSerial, boxLayout, ingested)
         + (if CategoryOf(wavs[i], boxSerial, boxLayout, ingested) == c then [(wavs[i].name, wavs[i].path)] else []))
  {
    assert wavs[..i + 1][..i] == wavs[..i];
  }

  /** Every normalized file lands in exactly one of the four lists. */
  lemma {:induction false} ContentPartition(wavs: seq<ContentFile>, boxSerial: string, boxLayout: string, ingested: map<string, string>)
    ensures |Listed(wavs, New, boxSerial, boxLayout, ingested)| + |Listed(wavs, ToReplace, boxSerial, boxLayout, ingested)|
      + |Listed(wavs, AlreadyIngested, boxSerial, boxLayout, ingested)| + |Listed(wavs, Incompatible, boxSerial, boxLayout, ingested)|
      + |Listed(wavs, NotNormalized, boxSerial, boxLayout, ingested)| == |wavs|
  {
    if wavs != [] {
      ContentPartition(wavs[..|wavs| - 1], boxSerial, boxLayout, ingested);
    }
  }

  datatype CompatibleContent = CompatibleContent(
    newContent: seq<(string, string)>, toReplace: seq<(string, string)>, alreadyIngested: seq<(string, string)>)

  /** `get_new_content_available` over the files found (`pathAvailable` is
    * whether the pendrive directory exists). */
  method GetNewContentAvailable(pathAvailable: bool, wavs: seq<ContentFile>, boxSerial: string, boxLayout: string,
                                ingested: map<string, string>)
    returns (compatible: CompatibleContent, incompatible: seq<(string, string)>)
    ensures !pathAvailable ==> compatible == CompatibleContent([], [], []) && incompatible == []
    ensures pathAvailable ==>
      compatible.newContent == Listed(wavs, New, boxSerial, boxLayout, ingested)
      && compatible.toReplace == Listed(wavs, ToReplace, boxSerial, boxLayout, ingested)
      && compatible.alreadyIngested == Listed(wavs, AlreadyIngested, boxSerial, boxLayout, ingested)
      && incompatible == Listed(wavs, Incompatible, boxSerial, boxLayout, ingested)
  {
    compatible := CompatibleContent([], [], []);
    incompatible := [];
    if !pathAvailable {
      return;
    }
    var i := 0;
    while i < |wavs|
      invariant 0 <= i <= |wavs|
      invariant compatible.newContent == Listed(wavs[..i], New, boxSerial, boxLayout, ingested)
      invariant compatible.toReplace == Listed(wavs[..i], ToReplace, boxSerial, boxLayout, ingested)
      invariant compatible.alreadyIngested == Listed(wavs[..i], AlreadyIngested, boxSerial, boxLayout, ingested)
      invariant incompatible == Listed(wavs[..i], Incompatible, boxSerial, boxLayout, ingested)
    {
      var f := wavs[i];
      ListedStep(wavs, i, boxSerial, boxLayout, ingested);
      if f.normalized {
        if (SerialMatches(f.serial, boxSerial) || LayoutMatches(f.layout, boxLayout)) && f.hash != "" {
          var entry := (f.name, f.path);
          if f.id !in ingested {
            compatible := compatible.(newContent := compatible.newContent + [entry]);
          } else if f.hash != ingested[f.id] {
            compatible := compatible.(toReplace := compatible.toReplace + [entry]);
          } else {
            compatible := compatible.(alreadyIngested := compatible.alreadyIngested + [entry]);
          }
        } else {
          incompatible := incompatible + [(f.name, f.path)];
        }
      }
      i := i + 1;
    }
    assert wavs[..|wavs|] == wavs;
  }

  // ----- interactive_boot_option -----

  /** The rescue decision: every key pressed during the pause was `E`
    * (identity with the literal read as equality), and more than three were. */
  method RescueBoot(pressedKeys: seq<byte>) returns (rescue: bool)
    ensures rescue <==> |pressedKeys| > 3 && forall i :: 0 <= i < |pressedKeys| ==> pressedKeys[i] == 'E' as int
  {
    rescue := true;
    var i := 0;
    while i < |pressedKeys|
      invariant 0 <= i <= |pressedKeys|
      invariant rescue && forall j :: 0 <= j < i ==> pressedKeys[j] == 'E' as int
    {
      if pressedKeys[i] != 'E' as int {
        rescue := false;
        break;
      }
      i := i + 1;
    }
    rescue := rescue && |pressedKeys| > 3;
  }
}
