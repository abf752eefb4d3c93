# PyMOPanel in Dafny

A model of PyMOPanel, a Python driver for Matrix Orbital graphic LCD panels (the
GLK/GTT family), together with proofs about it. The panel is driven over a serial link
by command bytes: `0xFE` followed by a command code and its arguments. It answers some
commands with bytes of its own, and it sends key codes when its keypad is used.

The model covers three generations of the driver:

- **The `PyMOPanel` package.**
  - `PyMOPanel.py` holds the connection: writes, reads, the baud-rate switch and the screen commands.
  - Its managers are `Screen`, `Text`, `GPO`, `BarGraphManager`, `KeyboardManager` and `Graphics`.
  - The pure codecs are the panel's filesystem listing and dumps, and the font buffer format.
  - `helpers.py` holds byte sanitising and the high-speed decorator.
- **The two facades** built on the same command set: the repository root's
  `PyMOPanel.py` (the `MatrixOrbital` class with its keypad callback) and
  `PyMOPanel/MatrixOrbital.py`.
- **The oldest scripts.**
  - `old_imm_scripts/MatrixOrbital.py` is a command-list driver with a one-byte-per-write mode.
  - `old_imm_scripts/lcd_panel.py` is the menu program built on it. It formats rows, maps keys and scrolls menu windows. It also sorts the media files found on a pendrive and makes the rescue-boot decision.

The serial link is the class `SerialLink.Port`. It records the link as three things:
- the write log: every buffer handed to `write`, in order;
- the read queue: the bytes later reads will deliver;
- the reset log: the points at which pending input was discarded.

Every state-changing operation is a method, and its contract states the new write log,
read queue and reset log. Loops in the source are loops in the model, each proved
against a specification function. Arrays the source fills in place (the font buffer)
are Dafny arrays.

Where the code and its documentation disagree, the model follows the code:
- uploads and downloads do no echo handshake;
- a short read returns fewer bytes and raises no error;
- the high-speed decorator restores the previous baud rate only when the wrapped call returns normally;
- the size field of a filesystem slot is read little-endian.

## Model

| member | source | states |
|---|---|---|
| Bytes.ToBigEndian2 | PyMOPanel/font.py:57 | two bytes that `int.from_bytes(..., 'big')` reads back as the value |
| Bytes.LittleEndianRoundTrip | PyMOPanel/filesystem.py:15 | `int.from_bytes(..., 'little')` reads a little-endian encoding back as the value it encodes |
| Bytes.BitsRoundTrip | PyMOPanel/graphics.py:83 | the bits packed into a number, most significant first, are its binary digits |
| Bytes.UnpackBitsAt | PyMOPanel/font.py:79 | unpacking a byte string puts bit `i` of byte `j` at position `8j + i` |
| SerialLink.Delivered | PyMOPanel/PyMOPanel.py:38-39 | a read delivers at most the queued bytes and at most the count asked for; exactly the count when enough bytes are queued, and all of them otherwise (a short read is not an error) |
| SerialLink.Port.constructor | PyMOPanel/PyMOPanel.py:16 | a freshly opened link has written nothing, discarded nothing, and holds the device's future replies |
| SerialLink.Port.Write | PyMOPanel/PyMOPanel.py:34-36 | the buffer is appended to the write log; the read queue is untouched |
| SerialLink.Port.Read | PyMOPanel/PyMOPanel.py:38-39 | the delivered bytes are the front of the read queue and are removed from it; the write log is untouched |
| SerialLink.Port.ResetInput | PyMOPanel/PyMOPanel.py:41-43 | records the discard after the writes made so far; nothing is written |
| SerialLink.BaudRateTableInverse | PyMOPanel/PyMOPanel.py:46-54 | the baud-rate table is one-to-one: a code selects exactly one of the eight rates and back |
| SerialLink.BaudRateCodesDecrease | PyMOPanel/PyMOPanel.py:46-54 | codes are distinct and strictly decrease as the rate increases |
| SerialLink.BaudRateCommand | PyMOPanel/PyMOPanel.py:46-55 | a command exists exactly for a supported rate, and it is `0xFE 0x39` followed by that rate's code |
| Helpers.SanitizeUint8 | PyMOPanel/helpers.py:2-3 | a negative value gives 0; a non-negative value keeps its residue modulo 256; a byte is returned unchanged |
| Helpers.SanitizeUint8Idempotent | PyMOPanel/helpers.py:2-3 | sanitising an already sanitised value changes nothing |
| Helpers.SanitizeUint8Examples | PyMOPanel/helpers.py:2-3 | 270 gives 14, 256 gives 0, 255 stays, -1 and -300 give 0: it wraps above and clamps below |
| Helpers.UseHighSpeed | PyMOPanel/helpers.py:6-16 | the port receives the switch to 115200 (only when not already there), then the wrapped call's writes, then the restore of the previous rate (only after a normal return); the result is the call's value or its exception |
| Helpers.HighSpeedNoRestoreOnRaise | PyMOPanel/helpers.py:10-14 | a wrapped call that raises leaves the panel at 115200: no restore command is written and the exception propagates |
| Helpers.HighSpeedRestoresOnReturn | PyMOPanel/helpers.py:10-15 | a normal return from a supported slower rate is bracketed by the switch and the restore to that rate, and the value passes through |
| Helpers.HighSpeedAlreadyFast | PyMOPanel/helpers.py:10-15 | at 115200 no baud command is written at all |
| Screens.DedupWrites | PyMOPanel/screen.py:25-31 | a setter writes nothing exactly when the sanitised value equals the stored one, and otherwise one command carrying the sanitised value |
| Screens.DedupRepeat | PyMOPanel/screen.py:25-31 | setting the value that was just set writes nothing |
| Screens.IncClampsAndWraps | PyMOPanel/screen.py:33-34 | incrementing below 0 clamps to 0, past 255 wraps around, and stays exact in between |
| Screens.Screen.constructor | PyMOPanel/screen.py:5-12 | clear, brightness, contrast and display-on are written in that order, with both levels sanitised and the display on |
| Screens.Screen.Clear | PyMOPanel/screen.py:14-15 | writes the clear-screen command and changes nothing else |
| Screens.Screen.Enable | PyMOPanel/screen.py:17-23 | records the status; on writes the display-on command with the minutes, off writes the display-off command |
| Screens.Screen.SetBrightness | PyMOPanel/screen.py:25-31 | the stored brightness becomes the sanitised value; the command is written only when that value changed; contrast and status are kept |
| Screens.Screen.IncBrightness | PyMOPanel/screen.py:33-34 | the new brightness is the sanitised sum of the old one and the increment, deduplicated like the setter |
| Screens.Screen.SetContrast | PyMOPanel/screen.py:36-42 | the stored contrast becomes the sanitised value; the command is written only when that value changed; brightness and status are kept |
| Screens.Screen.IncContrast | PyMOPanel/screen.py:44-45 | the new contrast is the sanitised sum of the old one and the increment, deduplicated like the setter |
| Gpo.LevelsIdentifyStatus | PyMOPanel/gpo.py:3-7 | the two GPO levels of a colour give that colour back, and distinct colours have distinct level pairs |
| Gpo.Registers | PyMOPanel/gpo.py:12 | LED k uses GPO 2k+2 as its msb and GPO 2k+1 as its lsb |
| Gpo.RegistersDisjoint | PyMOPanel/gpo.py:12 | no two LEDs share a GPO, and an LED's two GPOs differ |
| Gpo.GpoCommand | PyMOPanel/gpo.py:18-19 | a three-byte command addressing the GPO, with opcode 0x56 exactly when the level is 0 and 0x57 otherwise |
| Gpo.LedWrites | PyMOPanel/gpo.py:21-25 | setting an LED writes exactly two commands |
| Gpo.LedWritesShowStatus | PyMOPanel/gpo.py:21-25 | the two commands address the LED's msb and then its lsb GPO, and the colour can be read back from their levels |
| Gpo.GPO.constructor | PyMOPanel/gpo.py:10-16 | LEDs 0, 1 and 2 are set in that order: six writes, and all three colours recorded |
| Gpo.GPO.SetGpoState | PyMOPanel/gpo.py:18-19 | writes one GPO command and nothing else |
| Gpo.GPO.SetLed | PyMOPanel/gpo.py:21-25 | succeeds exactly for a Python index in -3..2; then only that LED's colour changes and its two commands are written; otherwise nothing is stored or written |
| BarGraphs.DirectionValue | PyMOPanel/bar_graph.py:4-8 | each direction's code is in 0..3 |
| BarGraphs.DirectionValues | PyMOPanel/bar_graph.py:4-8 | the four codes are distinct, and the horizontal directions are exactly the odd codes |
| BarGraphs.NewBar | PyMOPanel/bar_graph.py:11-18 | a new bar keeps its rectangle and direction, starts empty, and its length is the width when horizontal and the height otherwise |
| BarGraphs.Truncate | PyMOPanel/bar_graph.py:21-22 | Python's `int()` on a number truncates toward zero, for both signs |
| BarGraphs.PixelsWithinBar | PyMOPanel/bar_graph.py:21-22 | a fill in [0, 1] gives between 0 and the bar's length in pixels; a full bar gives its length and an empty one 0 |
| BarGraphs.BarGraphManager.constructor | PyMOPanel/bar_graph.py:25-27 | starts with no bars |
| BarGraphs.BarGraphManager.AddBarGraph | PyMOPanel/bar_graph.py:29-46 | fails, writing and storing nothing, exactly when sixteen bars exist; otherwise appends the new bar, writes its unsanitised definition and returns the previous bar count as its index |
| BarGraphs.BarGraphManager.SetBarGraphValue | PyMOPanel/bar_graph.py:48-52 | succeeds exactly for a valid Python index; then only that bar's value changes and the command carries the index as given and the filled length; otherwise nothing changes |
| Panels.InitWrites | PyMOPanel/PyMOPanel.py:19-31 | opening writes sixteen commands, starting with clear, brightness 200 and contrast 128, with font 0 fifth and debounce 8 last |
| Panels.InitSwitchesLedsOff | PyMOPanel/PyMOPanel.py:29 | the LED part of opening drives all six GPOs high (0x57), registers 2, 1, 4, 3, 6, 5 in that order |
| Panels.Panel.constructor | PyMOPanel/PyMOPanel.py:11-31 | the components are built in order on the same link: brightness 200, contrast 128, display on, all LEDs off, no bars, auto-transmit on, auto-repeat off, debounce 8, and exactly the opening writes |
| Panels.Panel.WriteBytes | PyMOPanel/PyMOPanel.py:34-36 | the buffer is appended to the write log and nothing else changes |
| Panels.Panel.ReadBytes | PyMOPanel/PyMOPanel.py:38-39 | returns the front of the read queue, as much as the count allows, and consumes it |
| Panels.Panel.SetAutoTransmitKeyPressed | PyMOPanel/PyMOPanel.py:88-89 | the keypad's flag becomes the state and its command is written |
| Panels.Panel.ResetInputState | PyMOPanel/PyMOPanel.py:41-43 | the clear-key-buffer command is written first and the input is discarded after it |
| Panels.Panel.SetBaudRate | PyMOPanel/PyMOPanel.py:46-55 | succeeds exactly for a supported rate, writing its command; an unsupported rate writes nothing; the recorded rate never changes |
| Panels.Panel.ClearScreenAsWritten | PyMOPanel/PyMOPanel.py:65-66 | always raises: the screen has no `clearScreen` method |
| Panels.Panel.ClearScreen | PyMOPanel/PyMOPanel.py:65-66 | through the screen's `clear`: writes the clear-screen command only |
| Panels.Panel.SetScreenAsWritten | PyMOPanel/PyMOPanel.py:68-69 | always raises: the screen has no `setScreen` method |
| Panels.Panel.SetScreen | PyMOPanel/PyMOPanel.py:68-69 | through the screen's `enable`: the display status becomes the value and the on or off command is written; levels are kept |
| Panels.Connect | PyMOPanel/PyMOPanel.py:16-31 | fails, writing nothing, exactly when the link is not open; otherwise returns a valid panel on that link after the opening writes |
| Texts.Utf8Char | PyMOPanel/text.py:39 | a char encodes to one to four bytes, and to a single byte exactly when it is ASCII |
| Texts.Utf8CharRoundTrip | PyMOPanel/text.py:39 | the encoding of a char decodes back to that char, and every continuation byte has the form 10xxxxxx |
| Texts.Utf8 | PyMOPanel/text.py:39 | the encoding of a text takes between one and four bytes per char |
| Texts.Utf8Ascii | PyMOPanel/text.py:39 | ASCII text encodes to its char codes, byte for byte |
| Texts.PrintWrites | PyMOPanel/text.py:30-39 | print writes one command more for a truthy font id (the sanitised font command, first) and one more for a cursor position, and the text itself last |
| Texts.PrintMovesCursorOnlyWithBoth | PyMOPanel/text.py:37-38 | a cursor command precedes the text exactly when both column and row are given |
| Texts.Text.constructor | PyMOPanel/text.py:3-27 | font selection, auto-scroll and metrics are written in that order with sanitised values, which are also stored; box-space mode stays unset |
| Texts.Text.Print | PyMOPanel/text.py:30-39 | the current font changes only for a truthy font id; the writes are those of print; the metrics and modes are kept |
| Texts.Text.SetFontMetrics | PyMOPanel/text.py:41-57 | the five metrics are stored sanitised and written in one command in that order; font and modes are kept |
| Texts.Text.LeftMargin | PyMOPanel/text.py:58-59 | returns the stored left margin: the sanitised value the constructor or the last `SetFontMetrics` sent to the panel |
| Texts.Text.TopMargin | PyMOPanel/text.py:61-62 | returns the stored top margin: the sanitised value the constructor or the last `SetFontMetrics` sent to the panel |
| Texts.Text.CharSpacing | PyMOPanel/text.py:64-65 | returns the stored character spacing: the sanitised value the constructor or the last `SetFontMetrics` sent to the panel |
| Texts.Text.LineSpacing | PyMOPanel/text.py:67-68 | returns the stored line spacing: the sanitised value the constructor or the last `SetFontMetrics` sent to the panel |
| Texts.Text.LastYRow | PyMOPanel/text.py:70-71 | returns the stored last row: the sanitised value the constructor or the last `SetFontMetrics` sent to the panel |
| Texts.Text.SetBoxSpaceMode | PyMOPanel/text.py:73-75 | the mode is stored and written as 1 or 0; the rest is kept |
| Texts.Text.SelectCurrentFont | PyMOPanel/text.py:77-80 | the font id is stored sanitised and written; the rest is kept |
| Texts.Text.CursorMoveHome | PyMOPanel/text.py:82-83 | writes the cursor-home command only |
| Texts.Text.SetCursorMoveToPos | PyMOPanel/text.py:85-88 | writes the move-to command with sanitised column and row |
| Texts.Text.SetCursorCoordinate | PyMOPanel/text.py:90-93 | writes the coordinate command with sanitised x and y |
| Texts.Text.SetAutoScroll | PyMOPanel/text.py:95-98 | the flag is stored and 0x51 (on) or 0x52 (off) is written; the rest is kept |
| Keyboard.ToIntList | PyMOPanel/keyboard.py:81-82 | the serial write accepts a list exactly when every element is an integer, and then sends those integers in order |
| Keyboard.AutoRepeatCommand | PyMOPanel/keyboard.py:76-82 | the off mode is exactly the two-byte command `0xFE 0x60`; the other modes send `0xFE 0x7E` and their byte code |
| Keyboard.AutoRepeatTupleFinding | PyMOPanel/keyboard.py:7-10 | as written, a write raises exactly for the two repeat modes, whose values are one-element tuples; off is sent as intended; the intended codes are 0 and 1 |
| Keyboard.AutoTransmitCommand | PyMOPanel/keyboard.py:71-74 | a two-byte command whose second byte is 0x41 exactly when on and 0x4F exactly when off |
| Keyboard.NonControlKeys | PyMOPanel/keyboard.py:20-31 | the keys kept are among the input and none of them is an arrow key |
| Keyboard.ControlSavesIgnoredKeys | PyMOPanel/keyboard.py:20-31 | the callback appends exactly the non-arrow keys, in order, to the saved keys, and only when saving is on |
| Keyboard.ControlWritesLevels | PyMOPanel/keyboard.py:20-29 | the callback only appends writes, at most one per key, and each sets the brightness or the contrast |
| Keyboard.ControlIgnoresOtherKeys | PyMOPanel/keyboard.py:20-31 | input without arrow keys leaves brightness, contrast and the writes unchanged |
| Keyboard.Listener.constructor | PyMOPanel/keyboard.py:15-18 | the listener starts with no callback, saving off and no saved keys |
| Keyboard.Listener.HandleKey | PyMOPanel/keyboard.py:22-31 | one key: up and down step brightness by +20 and -20, right and left step contrast by +5 and -5, any other key is saved when saving is on |
| Keyboard.Listener.BrightnessAndContrastControl | PyMOPanel/keyboard.py:20-31 | the screen levels, saved keys and writes after the call are those of handling the keys one by one in order |
| Keyboard.Listener.DataReceived | PyMOPanel/keyboard.py:36-40 | with the callback installed the data goes through it; without one it is dropped and nothing changes |
| Keyboard.KeyboardManager.constructor | PyMOPanel/keyboard.py:48-58 | auto-transmit, auto-repeat and the sanitised debounce time are stored and written in that order; the listener starts with no callback |
| Keyboard.KeyboardManager.EnableKeyboardControl | PyMOPanel/keyboard.py:60-64 | installs the control callback with key saving on and starts the reader; settings are kept |
| Keyboard.KeyboardManager.DisableKeyboardControl | PyMOPanel/keyboard.py:66-68 | succeeds exactly when a reader was started, and then removes the callback; otherwise stopping raises and the callback stays |
| Keyboard.KeyboardManager.SetAutoTransmitKeyPressed | PyMOPanel/keyboard.py:71-74 | stores the state and writes its command; the other settings are kept |
| Keyboard.KeyboardManager.SetAutoRepeatKeyMode | PyMOPanel/keyboard.py:76-82 | stores the mode and writes its command with integer mode codes; the other settings are kept |
| Keyboard.KeyboardManager.PollKeyPressedAsWritten | PyMOPanel/keyboard.py:84-86 | as written, the poll command is written and the call always raises, because the manager has no `readBytes` |
| Keyboard.KeyboardManager.PollKeyPressed | PyMOPanel/keyboard.py:84-86 | the poll command is written, then the waiting bytes are read from the front of the input |
| Keyboard.KeyboardManager.ClearKeyBuffer | PyMOPanel/keyboard.py:88-89 | writes the clear-key-buffer command only |
| Keyboard.KeyboardManager.SetDebounceTime | PyMOPanel/keyboard.py:91-93 | stores the sanitised time and writes it; the other settings are kept |
| Graphics.Primitive | PyMOPanel/graphics.py:13-40 | a drawing command is `0xFE`, the opcode, then each parameter sanitised to a byte |
| Graphics.PrimitiveKeepsBytes | PyMOPanel/graphics.py:13-40 | parameters already in 0..255 are sent unchanged |
| Graphics.BitDepth | PyMOPanel/graphics.py:66 | a known mode has 1, 8, 24 or 32 bits per pixel |
| Graphics.ChannelSum | PyMOPanel/graphics.py:55-61 | a pixel's channel sum lies between 0 and 255 per channel |
| Graphics.SumChannels | PyMOPanel/graphics.py:55-61 | the loop yields the sum of the pixel's channel bytes, or the division-by-zero or index error the original raises |
| Graphics.Brightness | PyMOPanel/graphics.py:83 | on success, one brightness flag per pixel asked for |
| Graphics.PixelBrightness | PyMOPanel/graphics.py:83 | the eight pixels of an output byte are each compared with the threshold through `sumChannels`, stopping at the first error |
| Graphics.BrightnessStops | PyMOPanel/graphics.py:83 | once a pixel fails, reading more pixels yields that same error |
| Graphics.BitValueWeight | PyMOPanel/graphics.py:50-53 | a pixel contributes `1 << (7 - i)` exactly when its bit is set, and its two polarities add up to that weight |
| Graphics.PackedValueWeighted | PyMOPanel/graphics.py:83 | the packed byte is the weighted sum of its eight pixel bits, first pixel most significant |
| Graphics.PackedValueBits | PyMOPanel/graphics.py:50-53 | the packed byte is a byte whose bits, most significant first, are the eight pixels' bits: set for a pixel below the threshold, or at or above it when inverted |
| Graphics.PackedValueInverted | PyMOPanel/graphics.py:50-53 | inverting complements the packed byte |
| Graphics.PackedBytes | PyMOPanel/graphics.py:81-83 | on success, one packed byte per eight pixels asked for |
| Graphics.PackedBytesStops | PyMOPanel/graphics.py:81-83 | once a packed byte fails, packing more bytes yields that same error |
| Graphics.FrameCommand | PyMOPanel/graphics.py:66-83 | a frame command exists only for a known mode and a buffer that is a multiple of the depth, with x0, y0, width and height each fitting in a byte; it is the six-byte header followed by one byte per eight pixels |
| Graphics.PackFrame | PyMOPanel/graphics.py:66-83 | the mode, length and header checks and the packing loop yield exactly the frame command or its error |
| Graphics.PackPixels | PyMOPanel/graphics.py:81-83 | the loop appends the packed bytes to the header, or stops with the first error |
| Graphics.PackedBytesInverted | PyMOPanel/graphics.py:50-83 | inverting does not change whether packing succeeds, and complements every packed byte |
| Graphics.FrameInverted | PyMOPanel/graphics.py:74-83 | the inverted frame has the same header and the complement of every data byte |
| Graphics.ChannelSumAtLeast | PyMOPanel/graphics.py:55-61 | channels all at or above the threshold give a sum at or above threshold times channel count |
| Graphics.ChannelSumBelow | PyMOPanel/graphics.py:55-61 | channels all below the threshold give a sum below threshold times channel count |
| Graphics.BrightnessUniform | PyMOPanel/graphics.py:55-83 | when every pixel's channel average lies on the same side of the threshold, every comparison read yields that side |
| Graphics.PackedBytesUniform | PyMOPanel/graphics.py:81-83 | uninverted, a frame whose every pixel averages at or above the threshold packs to 0x00 bytes, and one whose every pixel averages below it packs to 0xFF bytes |
| Graphics.ChannelsOnSide | PyMOPanel/graphics.py:55-61 | channel bytes all at or above (all below) the threshold make every pixel's average at or above (below) it |
| Graphics.ModeOneFails | PyMOPanel/graphics.py:55-67 | a mode-'1' frame with any pixel fails with a division by zero, since one bit truncates to zero bytes per pixel |
| Graphics.Sent | PyMOPanel/graphics.py:63-86 | the frame loop writes at most one command per frame |
| Graphics.SentStops | PyMOPanel/graphics.py:63-86 | after the first failing frame nothing more is written |
| Graphics.SentWritesEachFrame | PyMOPanel/graphics.py:63-86 | with no failure every frame's command is written, in order; a failure is the first failing frame, with exactly the frames before it written |
| Graphics.FrameResults | PyMOPanel/graphics.py:63-65 | one packing outcome per loop iteration |
| Graphics.FrameResultsAt | PyMOPanel/graphics.py:63-83 | iteration j packs frame j + 1 of an animation, or the image itself |
| Graphics.UploadSendsFrames | PyMOPanel/graphics.py:43-86 | when every frame packs, an animation writes frames 1 to n - 1 and a still image its one frame, one command each, in order |
| Graphics.Graphics.constructor | PyMOPanel/graphics.py:10-11 | holds the panel's link and writes nothing |
| Graphics.Graphics.SetDrawingColor | PyMOPanel/graphics.py:13-15 | writes the colour command with the sanitised colour |
| Graphics.Graphics.DrawPixel | PyMOPanel/graphics.py:16-19 | writes the pixel command with sanitised coordinates |
| Graphics.Graphics.DrawLine | PyMOPanel/graphics.py:21-26 | writes the line command with sanitised endpoints |
| Graphics.Graphics.ContinueLine | PyMOPanel/graphics.py:28-31 | writes the continue-line command with sanitised coordinates |
| Graphics.Graphics.DrawRectangle | PyMOPanel/graphics.py:33-40 | writes 0x78 for a solid and 0x72 for an outlined rectangle, with sanitised colour and corners |
| Graphics.Graphics.UploadAndShowBitmap | PyMOPanel/graphics.py:43-86 | the port receives exactly the frame loop's writes and the call returns the loop's error, if any |
| Filesystem.FileTypeValue | PyMOPanel/filesystem.py:8-10 | a font is 0 and a bitmap 1, and only those |
| Filesystem.SlotEntry | PyMOPanel/filesystem.py:33-37 | a used slot's type is the low bit of its second byte and its index the remaining seven bits |
| Filesystem.EntriesFailurePersists | PyMOPanel/filesystem.py:25-41 | once a slot raises, decoding more slots raises the same error |
| Filesystem.EntriesBound | PyMOPanel/filesystem.py:25-41 | at most one entry per slot |
| Filesystem.EntriesComplete | PyMOPanel/filesystem.py:22-41 | a listing of four bytes per slot or more decodes without error |
| Filesystem.DecodeEntries | PyMOPanel/filesystem.py:24-42 | the loop yields the entries of the used slots, in slot order, or the index error of a short listing |
| Filesystem.DecodeSlot | PyMOPanel/filesystem.py:26-41 | one slot: nothing when its first byte is 0, its entry when used, or the index error when the listing ends inside it |
| Filesystem.SlotBytes | PyMOPanel/filesystem.py:26-38 | a slot is four bytes whose first byte is 0 exactly when the slot is unused |
| Filesystem.Listing | PyMOPanel/filesystem.py:22-26 | a listing holds four bytes per slot |
| Filesystem.ListingAt | PyMOPanel/filesystem.py:26 | slot i occupies bytes 4i to 4i + 3 of the listing |
| Filesystem.Present | PyMOPanel/filesystem.py:29-31 | there are no more used entries than slots |
| Filesystem.SlotRoundTrip | PyMOPanel/filesystem.py:33-37 | decoding a used slot of a listing gives back the entry stored there |
| Filesystem.LittleEndianPair | PyMOPanel/filesystem.py:37 | a two-byte size is the first byte plus 256 times the second |
| Filesystem.ListingRoundTrip | PyMOPanel/filesystem.py:24-42 | decoding the listing of any storable slots yields exactly the used slots' entries, in slot order |
| Filesystem.GetFreeSpace | PyMOPanel/filesystem.py:13-15 | writes the query, then reads up to four bytes as an unsigned little-endian size below 2^32 |
| Filesystem.PowMonotone | PyMOPanel/filesystem.py:15 | more bytes can hold larger values |
| Filesystem.Opening | PyMOPanel/filesystem.py:18-20 | every transfer starts with auto-transmit off, clear key buffer, then the request |
| Filesystem.Ls | PyMOPanel/filesystem.py:17-42 | the transfer opening with the input discarded after the clear; no count byte raises with auto-transmit left off; otherwise four bytes per entry are read in one read, auto-transmit is switched back on, and the result is the decoded listing |
| Filesystem.Download | PyMOPanel/filesystem.py:44-61 | the transfer opening, a four-byte size; an empty file gives nothing with no further read; otherwise that many bytes are read; auto-transmit is on again along both paths |
| Filesystem.Upload | PyMOPanel/filesystem.py:63-65 | returns nothing (the function has no body yet) |
| Filesystem.DumpAll | PyMOPanel/filesystem.py:67-75 | the transfer opening, a four-byte size, then that many bytes (the dump), then auto-transmit back on |
| Filesystem.DictCharAt | PyMOPanel/filesystem.py:93-100 | a table entry's offset is its first two bytes big-endian and its width the third byte |
| Filesystem.FontBuffer2Dict | PyMOPanel/filesystem.py:78-103 | the header and table loop yield the font dictionary, or the index error of reading past the end |
| Filesystem.ReadDictChar | PyMOPanel/filesystem.py:93-101 | one table entry when its width byte exists, and the index error otherwise |
| Filesystem.DictExtendsDecode | PyMOPanel/filesystem.py:78-103 | the dictionary parser and the font class's parser fail on the same non-empty buffers, agree on header and widths, and each dictionary glyph extends the other by at most one byte, by exactly one when the buffer holds it |
| Filesystem.DictFont | PyMOPanel/filesystem.py:105-117 | the dictionary seen as a font keeps its height, first code point and char count |
| Filesystem.UnpackDictGuards | PyMOPanel/filesystem.py:107-113 | height 0 gives nothing before any char is read; a char of width 0 gives nothing once every char before it has unpacked |
| Filesystem.UnpackDictComplete | PyMOPanel/filesystem.py:105-118 | with nonzero height and widths and full glyph data, every code point from the first on gets a glyph of `height` rows |
| Filesystem.FullCharUnpacks | PyMOPanel/filesystem.py:114-117 | a char of positive width holding its whole glyph unpacks to `height` rows |
| Filesystem.FontDict2Unpacked | PyMOPanel/filesystem.py:105-118 | the height guard and per-char loop yield the glyphs keyed by code point, nothing at a zero guard, or the reshape error |
| FontCodec.CharsCount | PyMOPanel/font.py:23-25 | succeeds exactly when there is one char per code point of the range, and then returns that count |
| FontCodec.BufferSize | PyMOPanel/font.py:31-38 | defined exactly when the char count is, and at least the header plus three table bytes per char |
| FontCodec.Entry | PyMOPanel/font.py:57-59 | a table entry is three bytes |
| FontCodec.TableBytes | PyMOPanel/font.py:54-60 | the table holds three bytes per char |
| FontCodec.DataBytes | PyMOPanel/font.py:61-63 | the data region is as long as all glyphs together |
| FontCodec.DataLenMonotone | PyMOPanel/font.py:61-63 | the running data offset never decreases |
| FontCodec.TableAt | PyMOPanel/font.py:56-60 | entry i of the table is the big-endian offset of glyph i and its width, both in range |
| FontCodec.DataAt | PyMOPanel/font.py:61-63 | glyph i lies at its running offset in the data region |
| FontCodec.ErrorPersists | PyMOPanel/font.py:56-63 | the loop stops at its first error: later chars cannot change it |
| FontCodec.OverflowingOffsetRaises | PyMOPanel/font.py:57 | any glyph offset above 65535 makes the encoding raise |
| FontCodec.EncodeParts | PyMOPanel/font.py:40-64 | the buffer is header, table and glyph data in that order, its first four bytes are nominal width, height, first and last code point, and its length is `getBufferSize` |
| FontCodec.EncodeEntry | PyMOPanel/font.py:57-59 | table entry i of the buffer holds glyph i's offset big-endian, then its width |
| FontCodec.EncodeData | PyMOPanel/font.py:62 | glyph i's data lies in the buffer exactly at the offset its entry announces |
| FontCodec.Splice | PyMOPanel/font.py:57-62 | slice assignment keeps the buffer's length |
| FontCodec.Store | PyMOPanel/font.py:57-62 | the array afterwards is the old contents with the slice replaced |
| FontCodec.StoreStep | PyMOPanel/font.py:57-62 | storing an entry after the filled table and a glyph after the filled data extends both and leaves the header alone |
| FontCodec.StoreChar | PyMOPanel/font.py:57-63 | one iteration's two stores: the header is kept, and the filled table and data regions each grow by what was stored |
| FontCodec.FillOne | PyMOPanel/font.py:56-63 | one iteration either raises the first error of the chars so far or extends the filled prefix by one char |
| FontCodec.FillChars | PyMOPanel/font.py:56-63 | the loop raises the first error of any char, or leaves the buffer as header, full table and all glyph data |
| FontCodec.ToBuffer | PyMOPanel/font.py:40-64 | filling the zeroed buffer yields exactly the encoding, or its error |
| FontCodec.BytesPerChar | PyMOPanel/font.py:107-108 | the glyph byte count is `ceil(height * width / 8)` |
| FontCodec.CharCount | PyMOPanel/font.py:102 | the range yields last - first + 1 code points, or none when last is below first |
| FontCodec.FromBuffer | PyMOPanel/font.py:86-111 | the header and table loop yield exactly the decoding, or the empty-buffer or index error |
| FontCodec.DecodeShape | PyMOPanel/font.py:88-110 | a decoded font has one char per code point in ascending order, each with its table width and the glyph slice, which is short only where it runs past the end |
| FontCodec.DecodeEncodedChar | PyMOPanel/font.py:103-110 | decoding table entry i of an encoded font gives char i back |
| FontCodec.RoundTrip | PyMOPanel/font.py:40-111 | when every glyph has exactly `ceil(height * width / 8)` bytes and the encoding succeeds, decoding it gives the font back |
| FontCodec.DecodedChars | PyMOPanel/font.py:102-110 | every char decoded from an encoding is the original char |
| FontCodec.Rows | PyMOPanel/font.py:80 | each reshaped row has exactly `width` bits |
| FontCodec.RowsAt | PyMOPanel/font.py:80 | row r, column c of the reshape is bit r * width + c |
| FontCodec.RowsCount | PyMOPanel/font.py:77-80 | `height * width` bits make exactly `height` rows |
| FontCodec.GlyphPixel | PyMOPanel/font.py:77-80 | glyph pixel (r, c) is bit r * width + c of the data, most significant bit of each byte first |
| FontCodec.GlyphSized | PyMOPanel/font.py:77-80 | a glyph with exactly `ceil(height * width / 8)` bytes unpacks to `height` rows, dropping its padding bits |
| FontCodec.CharGlyphs | PyMOPanel/font.py:74 | one outcome per char |
| FontCodec.CharGlyphsAt | PyMOPanel/font.py:74-80 | outcome i is char i's glyph or error |
| FontCodec.CollectStep | PyMOPanel/font.py:80 | one successful char adds exactly its glyph at its code point |
| FontCodec.CollectSucceeds | PyMOPanel/font.py:74-81 | collecting succeeds exactly when every char does |
| FontCodec.CollectKeys | PyMOPanel/font.py:74-81 | a successful collection maps start + i to glyph i and has no other key |
| FontCodec.CollectFirstFailure | PyMOPanel/font.py:74-81 | the first failing char decides the result |
| FontCodec.UnpackGlyphs | PyMOPanel/font.py:66-81 | unpacking succeeds exactly when every char unpacks; char i's glyph is then at code point start + i, with no other key |
| FontCodec.FirstBadChar | PyMOPanel/font.py:75-80 | the first char that does not unpack decides: width 0 gives `None`, a bit count that is not whole rows gives the reshape error |
| FontCodec.UnpackSized | PyMOPanel/font.py:66-81 | with nonzero widths and exactly sized glyphs, unpacking succeeds and every glyph has `height` rows |
| FontCodec.UnpackStopsAt | PyMOPanel/font.py:74-80 | a failing char after successful ones ends the unpacking with its error |
| FontCodec.UnpackFont | PyMOPanel/font.py:66-81 | the loop yields exactly the unpacked font, or `None` at the first zero-width char, or the reshape error |
| MatrixOrbitalFacade.LedGpos | PyMOPanel/MatrixOrbital.py:88-89 | LEDs 0, 1 and 2 use the same GPO pairs as the current LED manager, and any other number, negative included, the third LED's |
| MatrixOrbitalFacade.ColourLevels | PyMOPanel/MatrixOrbital.py:92-99 | each colour helper passes two levels from which that colour reads back |
| MatrixOrbitalFacade.MatrixOrbital.constructor | PyMOPanel/MatrixOrbital.py:13-20 | holds the opened link |
| MatrixOrbitalFacade.MatrixOrbital.SetBaudRate | PyMOPanel/MatrixOrbital.py:47-56 | succeeds exactly for a supported rate, writing its command; an unsupported rate writes nothing |
| MatrixOrbitalFacade.MatrixOrbital.SetGpoState | PyMOPanel/MatrixOrbital.py:85-86 | writes one GPO command: 0x56 for level 0, 0x57 otherwise |
| MatrixOrbitalFacade.MatrixOrbital.SetLedState | PyMOPanel/MatrixOrbital.py:87-91 | succeeds exactly for a state of two or more levels: msb GPO first, then lsb; a one-element state raises after the msb write and an empty one before any write |
| MatrixOrbitalFacade.MatrixOrbital.SetLedColour | PyMOPanel/MatrixOrbital.py:92-99 | the colour helpers write the colour's two levels to the LED's GPOs, the same writes as the current LED manager for LEDs 0 to 2 |
| MatrixOrbitalFacade.MatrixOrbital.SetAutoTransmitKeyPressed | PyMOPanel/MatrixOrbital.py:102-104 | writes 0x41 for on and 0x4F for off |
| MatrixOrbitalFacade.MatrixOrbital.SetAutoRepeatKeyModeResend | PyMOPanel/MatrixOrbital.py:105-109 | on writes the resend-mode command with code 0, off the auto-repeat-off command |
| MatrixOrbitalFacade.MatrixOrbital.SetAutoRepeatKeyModeUpDown | PyMOPanel/MatrixOrbital.py:110-114 | on writes the up/down-mode command with code 1, off the auto-repeat-off command |
| MatrixOrbitalFacade.MatrixOrbital.PollKeyPressed | PyMOPanel/MatrixOrbital.py:115-117 | writes the poll command, then reads the waiting bytes from the front of the input |
| MatrixOrbitalFacade.MatrixOrbital.ClearKeyBuffer | PyMOPanel/MatrixOrbital.py:118-119 | writes the clear-key-buffer command only |
| MatrixOrbitalFacade.MatrixOrbital.SetDebounceTime | PyMOPanel/MatrixOrbital.py:120-122 | writes the debounce command with the time sanitised to a byte |
| LegacyPanel.LegacyControlWrites | PyMOPanel.py:31-40 | byte levels stay bytes; exactly one level command is written per arrow key and none for other keys |
| LegacyPanel.LegacyAgreesWithCallback | PyMOPanel.py:31-40 | starting from byte levels, this listener and the current driver's keypad callback reach the same brightness and contrast for any keys; only their writes differ |
| LegacyPanel.LegacyLedGposAsWritten | PyMOPanel.py:101-105 | as written, LED 1 drives GPOs 0 and 1, and every other number the intended pair |
| LegacyPanel.LegacyLedGposFinding | PyMOPanel.py:101-105 | as written, LED 1's high GPO is 0, which no LED of the panel uses, and no LED number reaches GPO 2, the first LED's high GPO |
| LegacyPanel.LegacyLedGpos | PyMOPanel.py:101-105 | LEDs 1, 2 and 3 drive the panel's LEDs 0, 1 and 2, and any other number the third |
| LegacyPanel.Trailed | PyMOPanel.py:119-129 | the fixed commands are `0xFE`, the opcode, then the 0x10 trailer |
| LegacyPanel.LegacyMatrixOrbital.constructor | PyMOPanel.py:59-67 | writes brightness 200 then contrast 128, and stores both |
| LegacyPanel.LegacyMatrixOrbital.SetBrightness | PyMOPanel.py:152-154 | stores the value and always writes it, unchanged or not and unsanitised |
| LegacyPanel.LegacyMatrixOrbital.SetContrast | PyMOPanel.py:156-158 | stores the value and always writes it, unchanged or not and unsanitised |
| LegacyPanel.LegacyMatrixOrbital.DataReceived | PyMOPanel.py:31-40 | key by key: up adds 20 to the brightness modulo 256, down subtracts 20 stopping at 0, left subtracts 5 from the contrast stopping at 0, right adds 5 modulo 256, each stored and written; other keys do nothing |
| LegacyPanel.LegacyMatrixOrbital.SetGpoState | PyMOPanel.py:98-99 | writes one GPO command: 0x56 for level 0, 0x57 otherwise |
| LegacyPanel.LegacyMatrixOrbital.SetLedStateAsWritten | PyMOPanel.py:101-105 | as written: msb GPO then lsb GPO of the as-written mapping; a state shorter than two raises at the missing element |
| LegacyPanel.LegacyMatrixOrbital.SetLedState | PyMOPanel.py:101-105 | the same with LED 1 on GPOs 2 and 1 |
| LegacyPanel.LegacyMatrixOrbital.SetLedColour | PyMOPanel.py:107-117 | the colour helpers on LEDs 1 to 3 make the same two writes as the current LED manager on LED `led - 1`, and on the third LED otherwise |
| LegacyPanel.LegacyMatrixOrbital.SetDisplayOn | PyMOPanel.py:119-120 | writes display-on with the 0x10 trailer |
| LegacyPanel.LegacyMatrixOrbital.SetDisplayOff | PyMOPanel.py:122-123 | writes display-off with the 0x10 trailer |
| LegacyPanel.LegacyMatrixOrbital.MoveCursorHome | PyMOPanel.py:125-126 | writes cursor-home with the 0x10 trailer |
| LegacyPanel.LegacyMatrixOrbital.ClearScreen | PyMOPanel.py:128-129 | writes clear-screen with the 0x10 trailer |
| LegacyPanel.LegacyMatrixOrbital.SetDrawingColor | PyMOPanel.py:131-132 | writes the colour command, unsanitised, with the 0x10 trailer |
| LegacyPanel.LegacyMatrixOrbital.DrawPixel | PyMOPanel.py:134-135 | writes the pixel command, unsanitised, with the 0x10 trailer |
| LegacyPanel.LegacyMatrixOrbital.DrawSolidRectangle | PyMOPanel.py:137-138 | writes the solid-rectangle command unsanitised, with no trailer |
| LegacyPanel.LegacyMatrixOrbital.DrawLine | PyMOPanel.py:140-141 | writes the line command unsanitised, with no trailer |
| LegacyPanel.LegacyMatrixOrbital.SetCursorPos | PyMOPanel.py:143-144 | writes the cursor-position command unsanitised |
| LegacyPanel.LegacyMatrixOrbital.WriteText | PyMOPanel.py:146-147 | writes the text's UTF-8 bytes as one buffer |
| LegacyPanel.LegacyMatrixOrbital.SetSendAllKeyPresses | PyMOPanel.py:149-150 | writes the auto-transmit-on command |
| LegacyPanel.LegacyMatrixOrbital.DumpFileFromFilesystem | PyMOPanel.py:73-81 | discards pending input, requests the file, then reads a four-byte little-endian size less 2, a width byte, a height byte and that many further bytes, all from the front of the input in order |
| LegacyPanel.LegacyMatrixOrbital.ReceiveDump | PyMOPanel.py:76-81 | the four reads, in order, each from the front of the input; nothing is written |
| ImmDriver.Mask | old_imm_scripts/MatrixOrbital.py:41-42 | masking keeps the length and maps each element to its non-negative remainder modulo 256 |
| ImmDriver.MaskKeepsBytes | old_imm_scripts/MatrixOrbital.py:41-42 | a command of bytes is unchanged by masking, and masking twice equals masking once |
| ImmDriver.OneByteWrites | old_imm_scripts/MatrixOrbital.py:54-55 | one-byte mode writes each byte on its own, in order |
| ImmDriver.CommandShapes | old_imm_scripts/MatrixOrbital.py:60-142 | every builder's list starts with 0xFE and only an unsupported baud rate fails; saving as default selects 0x98 for brightness and 0x91 for contrast; a GPO number is reduced to 0..7; a non-zero GPO state selects the on command, and saving one sends 0xC3 with the state modulo 256 |
| ImmDriver.ShiftInBit | old_imm_scripts/MatrixOrbital.py:164 | or-ing a 0/1 pixel into a doubled value adds it |
| ImmDriver.ShiftInBits | old_imm_scripts/MatrixOrbital.py:162-164 | for 0/1 pixels, shifting them in reads them as binary digits, first pixel most significant |
| ImmDriver.Padded | old_imm_scripts/MatrixOrbital.py:158-160 | the pixels right-padded with fewer than eight zeros to a multiple of eight |
| ImmDriver.Packed | old_imm_scripts/MatrixOrbital.py:161-165 | one packed byte per eight pixels |
| ImmDriver.ShiftInSnoc | old_imm_scripts/MatrixOrbital.py:164 | one more pixel shifts the value left and ors the pixel in |
| ImmDriver.ShiftEight | old_imm_scripts/MatrixOrbital.py:162-164 | the inner loop shifts in exactly the eight pixels from the current position |
| ImmDriver.Load | old_imm_scripts/MatrixOrbital.py:150-165 | the bytes are the packing of the zero-padded pixels: one byte per started group of eight |
| ImmDriver.PackChunks | old_imm_scripts/MatrixOrbital.py:161-165 | the outer loop yields one masked byte per chunk of eight pixels, in order |
| ImmDriver.ChunkBits | old_imm_scripts/MatrixOrbital.py:161-165 | for eight 0/1 pixels, the packed byte's bits, most significant first, are the pixels |
| ImmDriver.PackedChunk | old_imm_scripts/MatrixOrbital.py:161-165 | for 0/1 pixels, packed byte k spells pixels 8k to 8k + 7 |
| ImmDriver.UnpackLoaded | old_imm_scripts/MatrixOrbital.py:157-165 | for 0/1 pixels, unpacking the loaded bytes gives back the pixels followed by the zero padding |
| ImmDriver.ImmMatrixOrbital.constructor | old_imm_scripts/MatrixOrbital.py:23-29 | holds the opened link |
| ImmDriver.ImmMatrixOrbital.Read | old_imm_scripts/MatrixOrbital.py:37-38 | returns every byte waiting and leaves none |
| ImmDriver.ImmMatrixOrbital.SendCommand | old_imm_scripts/MatrixOrbital.py:40-58 | the masked command as one write, or one write per byte in one-byte mode; the count returned is the command's length |
| ImmDriver.ImmMatrixOrbital.Send | old_imm_scripts/MatrixOrbital.py:60-142 | a builder succeeds exactly when its list exists, writing the masked list; an unsupported baud rate writes nothing |
| ImmDriver.ImmMatrixOrbital.PrintText | old_imm_scripts/MatrixOrbital.py:116-117 | writes the text raw, unmasked |
| ImmDriver.ImmMatrixOrbital.PrintLocatedText | old_imm_scripts/MatrixOrbital.py:118-121 | a font command only for a truthy font id, then the cursor command, then the text |
| ImmDriver.ImmMatrixOrbital.UploadAndShowBitmap | old_imm_scripts/MatrixOrbital.py:132-165 | one write: the masked header, then the packed, padded pixels |
| ImmDriver.OpenImmDriver | old_imm_scripts/MatrixOrbital.py:26-29 | the driver exists exactly when the link opened |
| LcdPanel.Marker | old_imm_scripts/lcd_panel.py:166-168 | no marker exactly when the menu has no selection; otherwise four columns `[*] ` for a selected item and `[ ] ` for an unselected one |
| LcdPanel.ItemLineParts | old_imm_scripts/lcd_panel.py:165-172 | the item row is the cursor mark, the marker, the content cut to 29 columns minus the marker, blank padding to 29, and the closing cursor mark |
| LcdPanel.ItemLineFrame | old_imm_scripts/lcd_panel.py:169-172 | every item row is 31 columns wide, framed by `<` and `>` exactly on the cursor's row and by blanks elsewhere |
| LcdPanel.ItemLineLayout | old_imm_scripts/lcd_panel.py:165-172 | the row shows the marker, then as much of the content as fits, then blanks; content that fits is shown whole |
| LcdPanel.EmphasisLineLayout | old_imm_scripts/lcd_panel.py:174-177 | an emphasised row is 32 columns: the content's first 32 characters, then blanks |
| LcdPanel.KeyOf | old_imm_scripts/lcd_panel.py:178-192 | an empty read is no key; otherwise the lookup succeeds exactly for the last byte being one of `A B C D E G H`, and a success is a real key |
| LcdPanel.KeyOfAgreesWithListener | old_imm_scripts/lcd_panel.py:184-192 | the arrow bytes map to the same arrows as in the keypad listener, and only the last key of a read counts |
| LcdPanel.LocatedWrites | old_imm_scripts/lcd_panel.py:158-161 | a located print is two writes, the cursor move and then the text one byte per character |
| LcdPanel.MatrixOrbitalPanel.constructor | old_imm_scripts/lcd_panel.py:146-155 | with the device open: font 1, character spacing 1, clear, scrolling off, key buffer cleared; with the null driver nothing is written |
| LcdPanel.MatrixOrbitalPanel.LocatedPrint | old_imm_scripts/lcd_panel.py:158-162 | the located writes when the device is ready, nothing otherwise; input untouched |
| LcdPanel.MatrixOrbitalPanel.PrintItem | old_imm_scripts/lcd_panel.py:165-173 | prints the formatted item row at column 1 of row `y` |
| LcdPanel.MatrixOrbitalPanel.PrintEmphasis | old_imm_scripts/lcd_panel.py:174-177 | prints the 32-column emphasised row at column 1 of row `y` |
| LcdPanel.MatrixOrbitalPanel.PrintRow | old_imm_scripts/lcd_panel.py:165-177 | prints a row as its `print_item` or `print_emphasis` call would |
| LcdPanel.MatrixOrbitalPanel.GetKey | old_imm_scripts/lcd_panel.py:178-192 | reads everything waiting and maps the last key; the null driver reads nothing and yields no key; nothing is written |
| LcdPanel.MatrixOrbitalPanel.Clear | old_imm_scripts/lcd_panel.py:193-195 | one clear-screen write when the device is ready |
| LcdPanel.SendBytes | old_imm_scripts/lcd_panel.py:151-160 | a builder command with byte-sized values is written unchanged as one write |
| LcdPanel.FollowCursor | old_imm_scripts/lcd_panel.py:556-559 | when the cursor moved at most one row out of the window, the window start after one step contains it again |
| LcdPanel.DrawnCount | old_imm_scripts/lcd_panel.py:588-590 | at most six items are drawn, fewer when the list ends inside the window |
| LcdPanel.RowsWrites | old_imm_scripts/lcd_panel.py:158-161 | two writes per printed row |
| LcdPanel.RowsWritesSnoc | old_imm_scripts/lcd_panel.py:158-161 | printing one more row appends that row's located writes |
| LcdPanel.AppendRowWrites | old_imm_scripts/lcd_panel.py:586-591 | a log holding the writes of some rows, after one more row's writes, holds the writes of the longer list |
| LcdPanel.ItemRowsSnoc | old_imm_scripts/lcd_panel.py:588-591 | window row `n` shows item `first + n` on panel row `2 + n` with its selection and cursor marks |
| LcdPanel.MenuRows | old_imm_scripts/lcd_panel.py:586-591 | the title row `Menu: <title>` on panel row 1, then one row per drawn item |
| LcdPanel.MenuRowsWindow | old_imm_scripts/lcd_panel.py:586-591 | with the cursor in its window, repaint prints the title and between one and six items, one of them the cursor's item with the cursor mark |
| LcdPanel.MenuWindow.constructor | old_imm_scripts/lcd_panel.py:511-518 | the first menu displayed, every window start, cursor and selection at 0, and the windows valid |
| LcdPanel.MenuWindow.IncItem | old_imm_scripts/lcd_panel.py:551-559 | the cursor moves only onto an existing item, the window then follows by one step, only the displayed menu changes, and a step of one keeps every cursor in its window |
| LcdPanel.MenuWindow.IncMenu | old_imm_scripts/lcd_panel.py:561-563 | the displayed menu changes only to an existing menu; nothing else changes |
| LcdPanel.MenuWindow.SelectCurrentItem | old_imm_scripts/lcd_panel.py:564-566 | the displayed menu's selection becomes its cursor; nothing else changes |
| LcdPanel.MenuWindow.Repaint | old_imm_scripts/lcd_panel.py:585-592 | the rows printed are the window's menu rows, and the log gains exactly their writes |
| LcdPanel.MenuWindow.ProcessEvent | old_imm_scripts/lcd_panel.py:594-609 | left and right clear the panel and change menu, up and down move the cursor, enter selects, back and only back asks for the status window; the windows stay valid |
| LcdPanel.PrintTitle | old_imm_scripts/lcd_panel.py:586 | prints the title row and logs its writes |
| LcdPanel.PrintItemRows | old_imm_scripts/lcd_panel.py:587-591 | the loop prints exactly the drawn items in order and logs their writes |
| LcdPanel.PrintWindowRow | old_imm_scripts/lcd_panel.py:589-591 | one loop iteration prints the next item row and logs its writes |
| LcdPanel.SerialMatchesMeaning | old_imm_scripts/lcd_panel.py:372 | a serial is compatible exactly when it is non-empty and equals the box's or is six characters ending in `0000` |
| LcdPanel.LayoutMatchesMeaning | old_imm_scripts/lcd_panel.py:374 | a layout is compatible exactly when it is non-empty and equals the box's or is the box's with its last three characters replaced by `000` |
| LcdPanel.CategoryOf | old_imm_scripts/lcd_panel.py:367-387 | a normalised compatible file is new when its id is not ingested, to be replaced when the ingested hash differs, already ingested when it is the same; an incompatible normalised file is incompatible |
| LcdPanel.ListedStep | old_imm_scripts/lcd_panel.py:366-387 | each file appends its (name, path) to its category's list and to no other |
| LcdPanel.ContentPartition | old_imm_scripts/lcd_panel.py:366-387 | every file lands in exactly one list, the skipped non-normalised ones counted apart |
| LcdPanel.GetNewContentAvailable | old_imm_scripts/lcd_panel.py:352-388 | no pendrive directory gives empty lists; otherwise the four lists are the files of each category in the order found |
| LcdPanel.RescueBoot | old_imm_scripts/lcd_panel.py:691-697 | rescue exactly when more than three keys were pressed and every one was `E` |

## Left out

- Threads are not modelled: `threaded_keyboard_manager.py`, `thread_serial_listener.py`, the listener's start and stop, and locks. The keypad callback is modelled as a method called with the bytes received.
- Sleeps, curses echo output, printing and file output are not modelled; they do not affect the bytes exchanged with the panel.
- Opening a serial device is a parameter: whether it opened, and the resulting `Port`.
- PIL and numpy decoding of pictures is not modelled. A picture is its frames of channel values, and it is assumed to have at least one frame.
- Bar-graph values are Dafny reals, not IEEE floats; rounding is not modelled.
- pyserial's rejection of values outside 0..255 is not modelled: the write log holds the integers handed to `write`.
- The count a pyserial `write` returns is taken to be the number of bytes handed to it.
- ImmDriver.ImmMatrixOrbital.SendCommand: the `send_confirmation` path is not modelled. It reads until the input is empty and answers each read with `0x01`, and no caller in the scripts turns it on.
- The demos are not modelled, nor the facade methods that only forward a call to a manager unchanged.
- The legacy facade's `drawSpiral` is not modelled: it is a floating-point drawing demo. `dumpInput` is not modelled either: it is an interactive echo loop that prints what it reads.
- `fromDictOfUnpackedNumpyArray`, `saveDictOfUnpackedNumpyArray` and `fromRawDataFile` are not modelled: they are numpy packing and file I/O.
- Helpers.UseHighSpeed: the previous baud rate comes from `getBaudRate`, which no panel class shown defines, so it is a parameter.
- MatrixOrbitalFacade.MatrixOrbital.constructor: only the port is held; building the component managers is not modelled.
- Menu actions and `is_selected` callbacks are not modelled as code: the selection callback is a pure function parameter, and the action call after a selection is left out.
- In `lcd_panel.py`, the status, upgrade and ingestion windows are not modelled, nor the events and status files, subprocess calls, content copying or the `EventHandler.run` loop. Of `interactive_boot_option`, only the rescue decision is modelled.
- LcdPanel.MenuWindow.ProcessEvent: the `ord('d')` key, which only the curses echo delivers, is not modelled.
- LcdPanel.MenuWindow.IncItem: the windows are proved to stay valid only for steps of one, the only steps the program takes.
- Texts.Utf8: a lone surrogate, on which Python's UTF-8 encoding raises `UnicodeEncodeError`, cannot be represented, because a Dafny `char` is a Unicode scalar value; that error path is not modelled.
- LcdPanel.Latin1 writes each character modulo 256, as a Python 2 byte string holds it.
- Pixel values are natural numbers; negative channel values are not representable.

## Findings

| source | as written | input that shows it | evidently intended | confidence | as-written member | corrected member |
|---|---|---|---|---|---|---|
| PyMOPanel/keyboard.py:7-10 | trailing commas in the enum make `RESEND_KEY` and `KEY_UP_DOWN` the 1-tuples `(0,)` and `(1,)`, so the command list that `setAutoRepeatKeyMode` (lines 76-82) builds holds a tuple where a byte belongs | `setAutoRepeatKeyMode(AutoRepeatKeyMode.RESEND_KEY)` | send `[0xFE, 0x7E, 0]` or `[0xFE, 0x7E, 1]` | not executed | Keyboard.AutoRepeatTupleFinding | Keyboard.KeyboardManager.SetAutoRepeatKeyMode |
| PyMOPanel/keyboard.py:84-86 | `pollKeyPressed` calls `self.readBytes`, which `KeyboardManager` does not have, so it raises after writing the poll command | any call to `pollKeyPressed()` | read the reply through the panel | not executed | Keyboard.KeyboardManager.PollKeyPressedAsWritten | Keyboard.KeyboardManager.PollKeyPressed |
| PyMOPanel/PyMOPanel.py:65-69 | `clearScreen` and `setScreen` call methods that `Screen` does not define, so they raise before writing | any call to `clearScreen()` | forward to the screen's clear and enable | not executed | Panels.Panel.ClearScreenAsWritten | Panels.Panel.ClearScreen |
| PyMOPanel.py:101-105 | LED 1 drives GPOs 0 and 1, but GPO 0 belongs to no LED, and no LED number drives GPO 2 | `setLedState(1, [1, 0])` | LED 1 drives GPOs 2 and 1, the pair of the panel's first LED, as LEDs 2 and 3 drive 4 and 3, and 6 and 5 | not executed | LegacyPanel.LegacyLedGposFinding | LegacyPanel.LegacyLedGpos |
