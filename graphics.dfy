/** `PyMOPanel/graphics.py`: drawing primitives and the bitmap packer that
  * turns an image's pixel bytes into the panel's one-bit-per-pixel frames. */
module Graphics {
  import opened Wrappers
  import opened Bytes
  import opened SerialLink
  import opened Helpers

  /** The drawing commands: `0xFE`, the opcode, then the sanitised parameters. */
  function Primitive(opcode: byte, params: seq<int>): (r: seq<int>)
    ensures |r| == 2 + |params| && r[0] == 0xFE && r[1] == opcode
    ensures forall i :: 2 <= i < |r| ==> IsByte(r[i]) && r[i] == SanitizeUint8(params[i - 2])
  {
    [0xFE, opcode] + seq(|params|, i requires 0 <= i < |params| => SanitizeUint8(params[i]))
  }

  /** Parameters already within 0..255 are sent unchanged. */
  lemma PrimitiveKeepsBytes(opcode: byte, params: seq<int>)
    requires forall i :: 0 <= i < |params| ==> IsByte(params[i])
    ensures Primitive(opcode, params) == [0xFE, opcode] + params
  {
    assert Primitive(opcode, params)[2..] == params;
  }

  // ---------------------------------------------------------------------
  // The bitmap packer
  // ---------------------------------------------------------------------

  datatype GraphicsError =
    | UnknownMode            // the mode is missing from the bit-depth table (`KeyError`)
    | SizeNotMultipleOfDepth // the pixel buffer's length is not a multiple of the bit depth
    | HeaderOverflow         // x0, y0, width or height does not fit in one byte (`OverflowError`)
    | ZeroDivision           // the per-pixel byte count truncates to 0
    | IndexOutOfRange        // a pixel lies past the end of the buffer

  /** One image frame: its mode and its raw pixel bytes (`tobytes()`). */
  datatype FrameData = FrameData(mode: string, pixels: seq<byte>)

  /** An opened image: its size, whether it has an `n_frames` attribute, and
    * its frames (the first one is the image as opened). */
  datatype Picture = Picture(width: nat, height: nat, isAnimation: bool, frames: seq<FrameData>)

  /** Bits per pixel of each image mode. */
  function BitDepth(mode: string): (r: Option<nat>)
    ensures r.Some? ==> r.value in {1, 8, 24, 32}
  {
    if mode == "1" then Some(1)
    else if mode == "L" || mode == "P" then Some(8)
    else if mode == "RGB" || mode == "YCbCr" then Some(24)
    else if mode == "RGBA" || mode == "CMYK" || mode == "I" || mode == "F" then Some(32)
    else None
  }

  /** The weight `1 << (7 - bitIndex)` of a pixel within its byte. */
  function Weight(bitIndex: nat): int
    requires bitIndex < 8
  {
    if bitIndex == 0 then 128 else if bitIndex == 1 then 64 else if bitIndex == 2 then 32
    else if bitIndex == 3 then 16 else if bitIndex == 4 then 8 else if bitIndex == 5 then 4
    else if bitIndex == 6 then 2 else 1
  }

  /** `getValueForAboveThreshold`: a bright pixel sets its bit only when inverted. */
  function AboveValue(bitIndex: nat, inverted: bool): int
    requires bitIndex < 8
  {
    if inverted then Weight(bitIndex) else 0
  }

  /** `getValueForBelowThreshold`: the opposite polarity. */
  function BelowValue(bitIndex: nat, inverted: bool): int
    requires bitIndex < 8
  {
    AboveValue(bitIndex, !inverted)
  }

  /** The sum of the channel bytes `buffer[base .. base + n]`. */
  function ChannelSum(buffer: seq<byte>, base: nat, n: nat): (r: int)
    requires base + n <= |buffer|
    ensures 0 <= r <= 255 * n
  {
    if n == 0 then 0 else ChannelSum(buffer, base, n - 1) + buffer[base + n - 1]
  }

  /** What `sumChannels(buffer, offset, bitDepth / 8)` yields: the sum of the
    * pixel's channel bytes, or the error it raises. */
  function ChannelResult(buffer: seq<byte>, offset: nat, bitDepth: nat): Result<int, GraphicsError>
  {
    var size := bitDepth / 8;
    if size == 0 then Failure(ZeroDivision)
    else if offset * size + size > |buffer| then Failure(IndexOutOfRange)
    else Success(ChannelSum(buffer, offset * size, size))
  }

  /** `sumChannels`: adds up the pixel's channel bytes. The division by the
    * byte count is left to the caller, which compares the sum with
    * `threshold * size` instead of the average with `threshold`. */
  method SumChannels(buffer: seq<byte>, offset: nat, bitDepth: nat) returns (r: Result<int, GraphicsError>)
    ensures r == ChannelResult(buffer, offset, bitDepth)
  {
    var size := bitDepth / 8;
    var sum: int := 0;
    var base := offset * size;
    var i := 0;
    while i < size
      invariant 0 <= i <= size
      invariant i == 0 ==> sum == 0
      invariant i > 0 ==> base + i <= |buffer| && sum == ChannelSum(buffer, base, i)
    {
      if base + i >= |buffer| {
        return Failure(IndexOutOfRange);
      }
      sum := sum + buffer[base + i];
      i := i + 1;
    }
    if size == 0 {
      return Failure(ZeroDivision);
    }
    return Success(sum);
  }

  /** Whether each of the `k` pixels from `pixelNr` on is at least as bright
    * as the threshold, or the first error met. */
  function Brightness(buffer: seq<byte>, pixelNr: nat, bitDepth: nat, threshold: int, k: nat): (r: Result<seq<bool>, GraphicsError>)
    ensures r.Success? ==> |r.value| == k
  {
    if k == 0 then Success([])
    else match Brightness(buffer, pixelNr, bitDepth, threshold, k - 1)
      case Failure(e) => Failure(e)
      case Success(flags) =>
        match ChannelResult(buffer, pixelNr + k - 1, bitDepth)
        case Failure(e) => Failure(e)
        case Success(sum) => Success(flags + [sum >= threshold * (bitDepth / 8)])
  }

  /** The eight pixels of one output byte, each through `sumChannels`. */
  method PixelBrightness(buffer: seq<byte>, pixelNr: nat, bitDepth: nat, threshold: int) returns (r: Result<seq<bool>, GraphicsError>)
    ensures r == Brightness(buffer, pixelNr, bitDepth, threshold, 8)
  {
    var flags: seq<bool> := [];
    var bitIndex := 0;
    while bitIndex < 8
      invariant 0 <= bitIndex <= 8
      invariant Brightness(buffer, pixelNr, bitDepth, threshold, bitIndex) == Success(flags)
    {
      var sum := SumChannels(buffer, pixelNr + bitIndex, bitDepth);
      if sum.Failure? {
        BrightnessStops(buffer, pixelNr, bitDepth, threshold, bitIndex + 1, 8);
        return Failure(sum.error);
      }
      flags := flags + [sum.value >= threshold * (bitDepth / 8)];
      bitIndex := bitIndex + 1;
    }
    return Success(flags);
  }

  lemma {:induction false} BrightnessStops(buffer: seq<byte>, pixelNr: nat, bitDepth: nat, threshold: int, k: nat, m: nat)
    requires k <= m && Brightness(buffer, pixelNr, bitDepth, threshold, k).Failure?
    ensures Brightness(buffer, pixelNr, bitDepth, threshold, m) == Brightness(buffer, pixelNr, bitDepth, threshold, k)
    decreases m
  {
    if k < m {
      BrightnessStops(buffer, pixelNr, bitDepth, threshold, k, m - 1);
    }
  }

  /** The value pixel `bitIndex` contributes to its byte. */
  function BitValue(bright: bool, bitIndex: nat, inverted: bool): int
    requires bitIndex < 8
  {
    if bright then AboveValue(bitIndex, inverted) else BelowValue(bitIndex, inverted)
  }

  /** The packed byte: the sum of the values of its eight pixels. */
  function PackedValue(bright: seq<bool>, inverted: bool): int
    requires |bright| == 8
  {
    BitValue(bright[0], 0, inverted) + BitValue(bright[1], 1, inverted) + BitValue(bright[2], 2, inverted)
    + BitValue(bright[3], 3, inverted) + BitValue(bright[4], 4, inverted) + BitValue(bright[5], 5, inverted)
    + BitValue(bright[6], 6, inverted) + BitValue(bright[7], 7, inverted)
  }

  /** The bit a pixel gets: set for a dark pixel, or for a bright one when inverted. */
  function PixelBit(bright: bool, inverted: bool): int
  {
    if bright == inverted then 1 else 0
  }

  /** A pixel contributes its weight when its bit is set, and nothing otherwise. */
  lemma BitValueWeight(bright: bool, bitIndex: nat, inverted: bool)
    requires bitIndex < 8
    ensures BitValue(bright, bitIndex, inverted) == Weight(bitIndex) * PixelBit(bright, inverted)
    ensures BitValue(bright, bitIndex, true) + BitValue(bright, bitIndex, false) == Weight(bitIndex)
  {
  }

  /** The packed byte as a sum of weighted pixel bits. */
  lemma PackedValueWeighted(bright: seq<bool>, inverted: bool)
    requires |bright| == 8
    ensures PackedValue(bright, inverted)
      == 128 * PixelBit(bright[0], inverted) + 64 * PixelBit(bright[1], inverted) + 32 * PixelBit(bright[2], inverted)
       + 16 * PixelBit(bright[3], inverted) + 8 * PixelBit(bright[4], inverted) + 4 * PixelBit(bright[5], inverted)
       + 2 * PixelBit(bright[6], inverted) + PixelBit(bright[7], inverted)
  {
    BitValueWeight(bright[0], 0, inverted); BitValueWeight(bright[1], 1, inverted);
    BitValueWeight(bright[2], 2, inverted); BitValueWeight(bright[3], 3, inverted);
    BitValueWeight(bright[4], 4, inverted); BitValueWeight(bright[5], 5, inverted);
    BitValueWeight(bright[6], 6, inverted); BitValueWeight(bright[7], 7, inverted);
  }

  /** Bit `7 - i` of the packed byte is the bit of pixel `i`: uninverted, it is
    * set exactly when the pixel is below the threshold. */
  lemma PackedValueBits(bright: seq<bool>, inverted: bool)
    requires |bright| == 8
    ensures 0 <= PackedValue(bright, inverted) <= 255
    ensures ByteBits(PackedValue(bright, inverted))
      == [PixelBit(bright[0], inverted), PixelBit(bright[1], inverted), PixelBit(bright[2], inverted),
          PixelBit(bright[3], inverted), PixelBit(bright[4], inverted), PixelBit(bright[5], inverted),
          PixelBit(bright[6], inverted), PixelBit(bright[7], inverted)]
  {
    PackedValueWeighted(bright, inverted);
    ByteOfBits(PixelBit(bright[0], inverted), PixelBit(bright[1], inverted), PixelBit(bright[2], inverted),
               PixelBit(bright[3], inverted), PixelBit(bright[4], inverted), PixelBit(bright[5], inverted),
               PixelBit(bright[6], inverted), PixelBit(bright[7], inverted));
  }

  /** Inverting complements the packed byte. */
  lemma PackedValueInverted(bright: seq<bool>)
    requires |bright| == 8
    ensures PackedValue(bright, true) == 255 - PackedValue(bright, false)
  {
    BitValueWeight(bright[0], 0, true); BitValueWeight(bright[1], 1, true);
    BitValueWeight(bright[2], 2, true); BitValueWeight(bright[3], 3, true);
    BitValueWeight(bright[4], 4, true); BitValueWeight(bright[5], 5, true);
    BitValueWeight(bright[6], 6, true); BitValueWeight(bright[7], 7, true);
  }

  /** The first `k` packed bytes of a frame: byte `j` packs pixels `8j .. 8j + 7`. */
  function PackedBytes(buffer: seq<byte>, bitDepth: nat, threshold: int, inverted: bool, k: nat): (r: Result<seq<int>, GraphicsError>)
    ensures r.Success? ==> |r.value| == k
  {
    if k == 0 then Success([])
    else match PackedBytes(buffer, bitDepth, threshold, inverted, k - 1)
      case Failure(e) => Failure(e)
      case Success(bytes) =>
        match Brightness(buffer, 8 * (k - 1), bitDepth, threshold, 8)
        case Failure(e) => Failure(e)
        case Success(bright) => Success(bytes + [PackedValue(bright, inverted)])
  }

  lemma {:induction false} PackedBytesStops(buffer: seq<byte>, bitDepth: nat, threshold: int, inverted: bool, k: nat, m: nat)
    requires k <= m && PackedBytes(buffer, bitDepth, threshold, inverted, k).Failure?
    ensures PackedBytes(buffer, bitDepth, threshold, inverted, m) == PackedBytes(buffer, bitDepth, threshold, inverted, k)
    decreases m
  {
    if k < m {
      PackedBytesStops(buffer, bitDepth, threshold, inverted, k, m - 1);
    }
  }

  /** Bytes needed for `count` pixels at eight per byte. */
  function PackedCount(count: int): nat
  {
    if count <= 0 then 0 else (count + 7) / 8
  }

  /** The command showing one frame, or the error packing it raises: the
    * mode, the buffer length and the header are checked in that order. */
  function FrameCommand(f: FrameData, x0: int, y0: int, width: nat, height: nat, threshold: int, inverted: bool): (r: Result<seq<int>, GraphicsError>)
    ensures r.Success? ==> BitDepth(f.mode).Some? && |f.pixels| % BitDepth(f.mode).value == 0
    ensures r.Success? ==> IsByte(x0) && IsByte(y0) && IsByte(width) && IsByte(height)
    ensures r.Success? ==>
      |r.value| == 6 + PackedCount(width * height) && r.value[..6] == [0xFE, 0x64, x0, y0, width, height]
  {
    match BitDepth(f.mode)
    case None => Failure(UnknownMode)
    case Some(bitDepth) =>
      if |f.pixels| % bitDepth != 0 then Failure(SizeNotMultipleOfDepth)
      else if !(IsByte(x0) && IsByte(y0) && IsByte(width) && IsByte(height)) then Failure(HeaderOverflow)
      else match PackedBytes(f.pixels, bitDepth, threshold, inverted, PackedCount(width * height))
        case Failure(e) => Failure(e)
        case Success(bytes) => Success([0xFE, 0x64, x0, y0, width, height] + bytes)
  }

  /** The packing loop of one frame: header, then one byte per eight pixels. */
  method PackFrame(f: FrameData, x0: int, y0: int, width: nat, height: nat, threshold: int, inverted: bool)
    returns (r: Result<seq<int>, GraphicsError>)
    ensures r == FrameCommand(f, x0, y0, width, height, threshold, inverted)
  {
    var depth := BitDepth(f.mode);
    if depth.None? {
      return Failure(UnknownMode);
    }
    var bitDepth := depth.value;
    if |f.pixels| % bitDepth != 0 {
      return Failure(SizeNotMultipleOfDepth);
    }
    if !(IsByte(x0) && IsByte(y0) && IsByte(width) && IsByte(height)) {
      return Failure(HeaderOverflow);
    }
    var header := [0xFE, 0x64, x0, y0, width, height];
    r := PackPixels(f.pixels, bitDepth, threshold, inverted, width * height, header);
  }

  /** The packing loop of `uploadAndShowBitmap`: eight pixels per byte appended to
    * the header, stopping at the first pixel that cannot be read. */
  method PackPixels(buffer: seq<byte>, bitDepth: nat, threshold: int, inverted: bool, count: nat, header: seq<int>)
    returns (r: Result<seq<int>, GraphicsError>)
    ensures r == match PackedBytes(buffer, bitDepth, threshold, inverted, PackedCount(count))
      case Failure(e) => Failure(e)
      case Success(bytes) => Success(header + bytes)
  {
    var output := header;
    ghost var packed := [];
    var pixelNr := 0;
    ghost var k := 0;
    while pixelNr < count
      invariant pixelNr == 8 * k && k <= PackedCount(count)
      invariant output == header + packed
      invariant PackedBytes(buffer, bitDepth, threshold, inverted, k) == Success(packed)
    {
      var bright := PixelBrightness(buffer, pixelNr, bitDepth, threshold);
      if bright.Failure? {
        PackedBytesStops(buffer, bitDepth, threshold, inverted, k + 1, PackedCount(count));
        return Failure(bright.error);
      }
      output := output + [PackedValue(bright.value, inverted)];
      packed := packed + [PackedValue(bright.value, inverted)];
      pixelNr := pixelNr + 8;
      k := k + 1;
    }
    return Success(output);
  }

  /** Inverting complements every packed byte and changes nothing else:
    * both packings succeed or fail together. */
  lemma {:induction false} PackedBytesInverted(buffer: seq<byte>, bitDepth: nat, threshold: int, k: nat)
    ensures PackedBytes(buffer, bitDepth, threshold, true, k).Success? == PackedBytes(buffer, bitDepth, threshold, false, k).Success?
    ensures PackedBytes(buffer, bitDepth, threshold, true, k).Success? ==>
      forall j :: 0 <= j < k ==>
        PackedBytes(buffer, bitDepth, threshold, true, k).value[j] == 255 - PackedBytes(buffer, bitDepth, threshold, false, k).value[j]
  {
    if k > 0 {
      PackedBytesInverted(buffer, bitDepth, threshold, k - 1);
      var bright := Brightness(buffer, 8 * (k - 1), bitDepth, threshold, 8);
      if bright.Success? {
        PackedValueInverted(bright.value);
      }
    }
  }

  /** The inverted frame has the same header and the complement of every
    * data byte of the uninverted one. */
  lemma FrameInverted(f: FrameData, x0: int, y0: int, width: nat, height: nat, threshold: int)
    ensures FrameCommand(f, x0, y0, width, height, threshold, true).Success?
        == FrameCommand(f, x0, y0, width, height, threshold, false).Success?
    ensures FrameCommand(f, x0, y0, width, height, threshold, true).Success? ==>
      var on := FrameCommand(f, x0, y0, width, height, threshold, true).value;
      var off := FrameCommand(f, x0, y0, width, height, threshold, false).value;
      on[..6] == off[..6] && forall j :: 6 <= j < |on| ==> on[j] == 255 - off[j]
  {
    if BitDepth(f.mode).Some? {
      PackedBytesInverted(f.pixels, BitDepth(f.mode).value, threshold, PackedCount(width * height));
    }
  }

  /** Every pixel bright: each pixel's channel sum reaches the threshold. */
  lemma {:induction false} ChannelSumAtLeast(buffer: seq<byte>, base: nat, n: nat, threshold: int)
    requires base + n <= |buffer|
    requires forall i :: base <= i < base + n ==> buffer[i] >= threshold
    ensures ChannelSum(buffer, base, n) >= threshold * n
  {
    if n > 0 {
      ChannelSumAtLeast(buffer, base, n - 1, threshold);
      assert threshold * n == threshold * (n - 1) + threshold;
    }
  }

  lemma {:induction false} ChannelSumBelow(buffer: seq<byte>, base: nat, n: nat, threshold: int)
    requires base + n <= |buffer| && n > 0
    requires forall i :: base <= i < base + n ==> buffer[i] < threshold
    ensures ChannelSum(buffer, base, n) < threshold * n
  {
    if n > 1 {
      ChannelSumBelow(buffer, base, n - 1, threshold);
      assert threshold * n == threshold * (n - 1) + threshold;
    }
  }

  /** Pixel `p` sits on the `bright` side of the threshold: its channel
    * average is at least the threshold exactly when `bright`, whenever
    * `sumChannels` can read it. */
  predicate PixelOnSide(buffer: seq<byte>, p: nat, bitDepth: nat, threshold: int, bright: bool)
  {
    ChannelResult(buffer, p, bitDepth).Success? ==>
      (ChannelResult(buffer, p, bitDepth).value >= threshold * (bitDepth / 8)) == bright
  }

  /** With every pixel from `pixelNr` on at the same side of the threshold,
    * every flag read is that side. */
  lemma {:induction false} BrightnessUniform(buffer: seq<byte>, pixelNr: nat, bitDepth: nat, threshold: int, k: nat, bright: bool)
    requires forall p :: pixelNr <= p < pixelNr + k ==> PixelOnSide(buffer, p, bitDepth, threshold, bright)
    ensures Brightness(buffer, pixelNr, bitDepth, threshold, k).Success? ==>
      forall i :: 0 <= i < k ==> Brightness(buffer, pixelNr, bitDepth, threshold, k).value[i] == bright
  {
    if k > 0 {
      BrightnessUniform(buffer, pixelNr, bitDepth, threshold, k - 1, bright);
      assert PixelOnSide(buffer, pixelNr + k - 1, bitDepth, threshold, bright);
    }
  }

  /** Uninverted, a frame whose pixels all average at or above the threshold
    * packs to `0x00` bytes, and one whose pixels all average below it packs
    * to `0xFF` bytes. */
  lemma {:induction false} PackedBytesUniform(buffer: seq<byte>, bitDepth: nat, threshold: int, k: nat, bright: bool)
    requires forall p :: 0 <= p < 8 * k ==> PixelOnSide(buffer, p, bitDepth, threshold, bright)
    ensures PackedBytes(buffer, bitDepth, threshold, false, k).Success? ==>
      forall j :: 0 <= j < k ==> PackedBytes(buffer, bitDepth, threshold, false, k).value[j] == if bright then 0 else 255
  {
    if k > 0 {
      PackedBytesUniform(buffer, bitDepth, threshold, k - 1, bright);
      BrightnessUniform(buffer, 8 * (k - 1), bitDepth, threshold, 8, bright);
    }
  }

  /** Channel bytes all at one side of the threshold put every pixel's
    * average on that side. */
  lemma ChannelsOnSide(buffer: seq<byte>, bitDepth: nat, threshold: int, bright: bool)
    requires forall i :: 0 <= i < |buffer| ==> (buffer[i] >= threshold) == bright
    ensures forall p: nat :: PixelOnSide(buffer, p, bitDepth, threshold, bright)
  {
    forall p: nat | ChannelResult(buffer, p, bitDepth).Success?
      ensures PixelOnSide(buffer, p, bitDepth, threshold, bright)
    {
      var size := bitDepth / 8;
      if bright {
        ChannelSumAtLeast(buffer, p * size, size, threshold);
      } else {
        ChannelSumBelow(buffer, p * size, size, threshold);
      }
    }
  }

  /** Mode `'1'` has one bit per pixel, which truncates to zero bytes per
    * pixel: a frame with any pixel fails with a division by zero once its
    * header fits. */
  lemma ModeOneFails(pixels: seq<byte>, x0: int, y0: int, width: nat, height: nat, threshold: int, inverted: bool)
    requires width * height > 0 && IsByte(x0) && IsByte(y0) && IsByte(width) && IsByte(height)
    ensures FrameCommand(FrameData("1", pixels), x0, y0, width, height, threshold, inverted) == Failure(ZeroDivision)
  {
    var n := PackedCount(width * height);
    assert Brightness(pixels, 0, 1, threshold, 1) == Failure(ZeroDivision);
    BrightnessStops(pixels, 0, 1, threshold, 1, 8);
    assert PackedBytes(pixels, 1, threshold, inverted, 1) == Failure(ZeroDivision);
    PackedBytesStops(pixels, 1, threshold, inverted, 1, n);
  }

  /** What the frame loop of `uploadAndShowBitmap` has written, and the
    * error that stopped it, if any. */
  datatype UploadState = UploadState(writes: seq<seq<int>>, error: Option<GraphicsError>)

  /** The loop over the first `n` frame outcomes: each packed frame is
    * written, and the first failure ends the loop. */
  function Sent(results: seq<Result<seq<int>, GraphicsError>>, n: nat): (r: UploadState)
    requires n <= |results|
    ensures |r.writes| <= n
  {
    if n == 0 then UploadState([], None)
    else
      var prev := Sent(results, n - 1);
      if prev.error.Some? then prev
      else match results[n - 1]
        case Failure(e) => UploadState(prev.writes, Some(e))
        case Success(cmd) => UploadState(prev.writes + [cmd], None)
  }

  lemma {:induction false} SentStops(results: seq<Result<seq<int>, GraphicsError>>, k: nat, m: nat)
    requires k <= m <= |results| && Sent(results, k).error.Some?
    ensures Sent(results, m) == Sent(results, k)
    decreases m
  {
    if k < m {
      SentStops(results, k, m - 1);
    }
  }

  /** Without an error, one command is written per outcome, in order; an
    * error is the first failing outcome, with the frames before it written. */
  lemma {:induction false} SentWritesEachFrame(results: seq<Result<seq<int>, GraphicsError>>, n: nat)
    requires n <= |results|
    ensures var r := Sent(results, n);
      r.error.None? <==> forall j :: 0 <= j < n ==> results[j].Success?
    ensures var r := Sent(results, n);
      r.error.None? ==> |r.writes| == n && forall j :: 0 <= j < n ==> results[j] == Success(r.writes[j])
    ensures var r := Sent(results, n);
      r.error.Some? ==>
        exists j :: (0 <= j < n && results[j] == Failure(r.error.value) && |r.writes| == j
          && forall i :: 0 <= i < j ==> results[i] == Success(r.writes[i]))
  {
    if n > 0 {
      SentWritesEachFrame(results, n - 1);
    }
  }

  /** Iterations of the frame loop: `n_frames - 1` for an animation (frame 0
    * is never sent), one for a still image. */
  function FrameLoopCount(p: Picture): nat
  {
    if p.isAnimation then (if |p.frames| == 0 then 0 else |p.frames| - 1) else 1
  }

  /** The frame iteration `j` packs: frame `j + 1` after a seek, or the image
    * itself when there is nothing to seek. */
  function FrameOfIteration(p: Picture, j: nat): FrameData
    requires |p.frames| >= 1 && j < FrameLoopCount(p)
  {
    if p.isAnimation then p.frames[j + 1] else p.frames[0]
  }

  /** The outcomes of packing the frames of the first `n` iterations. */
  function FrameResults(p: Picture, x0: int, y0: int, threshold: int, inverted: bool, n: nat): (r: seq<Result<seq<int>, GraphicsError>>)
    requires |p.frames| >= 1 && n <= FrameLoopCount(p)
    ensures |r| == n
  {
    if n == 0 then []
    else
      FrameResults(p, x0, y0, threshold, inverted, n - 1)
      + [FrameCommand(FrameOfIteration(p, n - 1), x0, y0, p.width, p.height, threshold, inverted)]
  }

  lemma {:induction false} FrameResultsAt(p: Picture, x0: int, y0: int, threshold: int, inverted: bool, n: nat, j: nat)
    requires |p.frames| >= 1 && j < n <= FrameLoopCount(p)
    ensures FrameResults(p, x0, y0, threshold, inverted, n)[j]
      == FrameCommand(FrameOfIteration(p, j), x0, y0, p.width, p.height, threshold, inverted)
  {
    if j < n - 1 {
      FrameResultsAt(p, x0, y0, threshold, inverted, n - 1, j);
    }
  }

  /** The whole of `uploadAndShowBitmap` on a decoded picture. */
  function Upload(p: Picture, x0: int, y0: int, threshold: int, inverted: bool): UploadState
    requires |p.frames| >= 1
  {
    Sent(FrameResults(p, x0, y0, threshold, inverted, FrameLoopCount(p)), FrameLoopCount(p))
  }

  /** When every frame packs, an animation writes frames 1 .. n-1 and a still
    * image its one frame, one command each, in order. */
  lemma UploadSendsFrames(p: Picture, x0: int, y0: int, threshold: int, inverted: bool)
    requires |p.frames| >= 1
    requires forall j :: 0 <= j < FrameLoopCount(p) ==>
      FrameCommand(FrameOfIteration(p, j), x0, y0, p.width, p.height, threshold, inverted).Success?
    ensures var u := Upload(p, x0, y0, threshold, inverted);
      u.error.None? && |u.writes| == (if p.isAnimation then |p.frames| - 1 else 1)
    ensures var u := Upload(p, x0, y0, threshold, inverted);
      forall j :: 0 <= j < |u.writes| ==>
        Success(u.writes[j]) == FrameCommand(FrameOfIteration(p, j), x0, y0, p.width, p.height, threshold, inverted)
  {
    var n := FrameLoopCount(p);
    var rs := FrameResults(p, x0, y0, threshold, inverted, n);
    forall j | 0 <= j < n
      ensures rs[j] == FrameCommand(FrameOfIteration(p, j), x0, y0, p.width, p.height, threshold, inverted)
    {
      FrameResultsAt(p, x0, y0, threshold, inverted, n, j);
    }
    SentWritesEachFrame(rs, n);
  }

  class Graphics {
    const port: Port

    constructor (port: Port)
      ensures this.port == port
    {
      this.port := port;
    }

    method SetDrawingColor(color: int)
      modifies port
      ensures port.written == old(port.written) + [Primitive(0x63, [color])]
      ensures port.input == old(port.input) && port.resets == old(port.resets)
    {
      port.Write(Primitive(0x63, [color]));
    }

    method DrawPixel(x: int, y: int)
      modifies port
      ensures port.written == old(port.written) + [Primitive(0x70, [x, y])]
      ensures port.input == old(port.input) && port.resets == old(port.resets)
    {
      port.Write(Primitive(0x70, [x, y]));
    }

    method DrawLine(x0: int, y0: int, x1: int, y1: int)
      modifies port
      ensures port.written == old(port.written) + [Primitive(0x6C, [x0, y0, x1, y1])]
      ensures port.input == old(port.input) && port.resets == old(port.resets)
    {
      port.Write(Primitive(0x6C, [x0, y0, x1, y1]));
    }

    method ContinueLine(x: int, y: int)
      modifies port
      ensures port.written == old(port.written) + [Primitive(0x65, [x, y])]
      ensures port.input == old(port.input) && port.resets == old(port.resets)
    {
      port.Write(Primitive(0x65, [x, y]));
    }

    /** A solid rectangle is 0x78, an outline 0x72. */
    method DrawRectangle(color: int, x0: int, y0: int, x1: int, y1: int, solid: bool)
      modifies port
      ensures port.written == old(port.written) + [Primitive(if solid then 0x78 else 0x72, [color, x0, y0, x1, y1])]
      ensures port.input == old(port.input) && port.resets == old(port.resets)
    {
      var keyword := if solid then 0x78 else 0x72;
      port.Write(Primitive(keyword, [color, x0, y0, x1, y1]));
    }

    /** `uploadAndShowBitmap` on an already decoded image: one write per
      * frame packed, stopping at the first frame that raises. */
    method UploadAndShowBitmap(p: Picture, x0: int, y0: int, threshold: int, inverted: bool)
      returns (error: Option<GraphicsError>)
      requires |p.frames| >= 1
      modifies port
      ensures var u := Upload(p, x0, y0, threshold, inverted);
        port.written == old(port.written) + u.writes && error == u.error
      ensures port.input == old(port.input) && port.resets == old(port.resets)
    {
      var frames := if p.isAnimation then |p.frames| else 2;
      ghost var rs := FrameResults(p, x0, y0, threshold, inverted, FrameLoopCount(p));
      ghost var sent: seq<seq<int>> := [];
      var frame := 1;
      while frame < frames
        invariant 1 <= frame <= frames && frames - 1 == FrameLoopCount(p)
        invariant Sent(rs, frame - 1) == UploadState(sent, None)
        invariant port.written == old(port.written) + sent
        invariant port.input == old(port.input) && port.resets == old(port.resets)
      {
        var current := if p.isAnimation then p.frames[frame] else p.frames[0];
        var cmd := PackFrame(current, x0, y0, p.width, p.height, threshold, inverted);
        FrameResultsAt(p, x0, y0, threshold, inverted, FrameLoopCount(p), frame - 1);
        if cmd.Failure? {
          SentStops(rs, frame, FrameLoopCount(p));
          return Some(cmd.error);
        }
        port.Write(cmd.value);
        sent := sent + [cmd.value];
        frame := frame + 1;
      }
      return None;
    }
  }
}
