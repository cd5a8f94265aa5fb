/** The box filter textures are shrunk with: `Sample` averages one block of a
    channel, and `Rescale` builds the smaller image one averaged block per pixel
    and channel. Images are row-major byte buffers, `bpp` bytes per pixel. */
module Rescale {
  import opened Base

  /** Every element is a byte. */
  predicate Bytes(data: seq<int>) {
    forall i :: 0 <= i < |data| ==> 0 <= data[i] < 256
  }

  /** `data[i]`, or 0 outside the buffer; only used where `i` is in bounds. */
  function At(data: seq<int>, i: int): int {
    if 0 <= i < |data| then data[i] else 0
  }

  /** Where channel `offset` of pixel (`col`, `row`) lives. */
  function PixelIndex(w: int, col: int, row: int, offset: int, bpp: int): int {
    (row * w + col) * bpp + offset
  }

  /** Sum of rows `0 .. rows - 1` of column `col` of the block whose top-left
      pixel is (`u`, `v`). */
  function ColumnSum(data: seq<int>, w: int, u: int, v: int, offset: int, bpp: int, col: int, rows: nat): int {
    if rows == 0 then 0
    else ColumnSum(data, w, u, v, offset, bpp, col, rows - 1) + At(data, PixelIndex(w, u + col, v + rows - 1, offset, bpp))
  }

  /** Sum of the `cols` by `rows` block whose top-left pixel is (`u`, `v`). */
  function BlockSum(data: seq<int>, w: int, u: int, v: int, offset: int, bpp: int, cols: nat, rows: nat): int {
    if cols == 0 then 0
    else BlockSum(data, w, u, v, offset, bpp, cols - 1, rows) + ColumnSum(data, w, u, v, offset, bpp, cols - 1, rows)
  }

  /** The integer mean of the block: the sum divided by its area, truncated. */
  function Mean(data: seq<int>, w: int, u: int, v: int, offset: int, bpp: int, cols: nat, rows: nat): int
    requires cols > 0 && rows > 0
  {
    BlockSum(data, w, u, v, offset, bpp, cols, rows) / (cols * rows)
  }

  /** The block lies inside a `w` by `h` image whose buffer holds all of it. */
  predicate BlockInside(w: int, h: int, data: seq<int>, u: int, v: int, offset: int, cols: int, rows: int, bpp: int) {
    && 0 <= u && u + cols <= w && 0 <= v && v + rows <= h
    && 0 <= offset < bpp && w * h * bpp <= |data|
  }

  lemma MulStep(c: int, n: int, rows: int)
    ensures c * (n - 1) * rows + c * rows == c * n * rows
    ensures c * n * rows == c * (n * rows)
  {
  }

  /** A pixel inside the image has all its channels inside the buffer. */
  lemma PixelInBuffer(w: int, h: int, col: int, row: int, offset: int, bpp: int)
    requires 0 <= col < w && 0 <= row < h && 0 <= offset < bpp
    ensures 0 <= PixelIndex(w, col, row, offset, bpp) < w * h * bpp
  {
    var p := row * w + col;
    MulMonotone(row + 1, h, w);
    assert 0 <= p < h * w;
    MulMonotone(p + 1, h * w, bpp);
    assert p * bpp + offset < (p + 1) * bpp <= h * w * bpp;
    assert h * w * bpp == w * h * bpp;
  }

  lemma PixelsInBuffer(w: int, h: int, bpp: int)
    ensures forall col, row, offset :: 0 <= col < w && 0 <= row < h && 0 <= offset < bpp ==>
              0 <= PixelIndex(w, col, row, offset, bpp) < w * h * bpp
  {
    forall col, row, offset | 0 <= col < w && 0 <= row < h && 0 <= offset < bpp
      ensures 0 <= PixelIndex(w, col, row, offset, bpp) < w * h * bpp
    {
      PixelInBuffer(w, h, col, row, offset, bpp);
    }
  }

  lemma {:induction false} ColumnSumBound(data: seq<int>, w: int, u: int, v: int, offset: int, bpp: int, col: int, rows: nat)
    requires Bytes(data)
    ensures 0 <= ColumnSum(data, w, u, v, offset, bpp, col, rows) <= 255 * rows
  {
    if rows > 0 {
      ColumnSumBound(data, w, u, v, offset, bpp, col, rows - 1);
    }
  }

  /** A block of bytes sums to at most 255 per pixel. */
  lemma {:induction false} BlockSumBound(data: seq<int>, w: int, u: int, v: int, offset: int, bpp: int, cols: nat, rows: nat)
    requires Bytes(data)
    ensures 0 <= BlockSum(data, w, u, v, offset, bpp, cols, rows) <= 255 * cols * rows
  {
    if cols > 0 {
      BlockSumBound(data, w, u, v, offset, bpp, cols - 1, rows);
      ColumnSumBound(data, w, u, v, offset, bpp, cols - 1, rows);
      MulStep(255, cols, rows);
    }
  }

  /** The mean of bytes is a byte, so returning it as `unsigned char` loses
      nothing. */
  lemma MeanIsByte(data: seq<int>, w: int, u: int, v: int, offset: int, bpp: int, cols: nat, rows: nat)
    requires Bytes(data) && cols > 0 && rows > 0
    ensures 0 <= Mean(data, w, u, v, offset, bpp, cols, rows) < 256
  {
    var n := cols * rows;
    BlockSumBound(data, w, u, v, offset, bpp, cols, rows);
    assert 255 * cols * rows == 255 * n;
    var s := BlockSum(data, w, u, v, offset, bpp, cols, rows);
    assert s / n <= 255 by {
      if s / n > 255 {
        assert s / n >= 256;
        MulMonotone(256, s / n, n);
      }
    }
  }

  /** `Sample`: the mean of one channel over a `scaleW` by `scaleH` block,
      summed column by column as the engine's loops do. */
  method Sample(w: int, h: int, data: seq<int>, u: int, v: int, offset: int, scaleW: int, scaleH: int, bpp: int)
    returns (value: int)
    requires scaleW > 0 && scaleH > 0 && Bytes(data)
    requires BlockInside(w, h, data, u, v, offset, scaleW, scaleH, bpp)
    ensures value == Mean(data, w, u, v, offset, bpp, scaleW, scaleH)
    ensures 0 <= value < 256
  {
    var total := 0;
    var x := 0;
    while x < scaleW
      invariant 0 <= x <= scaleW
      invariant total == BlockSum(data, w, u, v, offset, bpp, x, scaleH)
    {
      var y := 0;
      while y < scaleH
        invariant 0 <= y <= scaleH
        invariant total == BlockSum(data, w, u, v, offset, bpp, x, scaleH) + ColumnSum(data, w, u, v, offset, bpp, x, y)
      {
        PixelInBuffer(w, h, u + x, v + y, offset, bpp);
        total := total + data[((v + y) * w + (u + x)) * bpp + offset];
        y := y + 1;
      }
      x := x + 1;
    }
    value := total / (scaleW * scaleH);
    MeanIsByte(data, w, u, v, offset, bpp, scaleW, scaleH);
  }

  /** Bytes per pixel in `Rescale`: 4 for RGBA, 3 for anything else. */
  function Channels(format: Format): (n: nat)
    ensures n == 3 || n == 4
  {
    if format == RGBA then 4 else 3
  }

  /** Output byte `k` of `Rescale`: pixel `k / bpp`, row-major in the new image,
      channel `k % bpp`, averaged over its block of the old image. */
  function OutputByte(width: int, newWidth: int, scaleW: nat, scaleH: nat, bpp: nat, data: seq<int>, k: int): int
    requires newWidth > 0 && scaleW > 0 && scaleH > 0 && bpp > 0
  {
    var c := k / bpp;
    Mean(data, width, (c % newWidth) * scaleW, (c / newWidth) * scaleH, k % bpp, bpp, scaleW, scaleH)
  }

  /** `Rescale`: a `newWidth` by `newHeight` image whose every byte is the mean of
      the matching channel over a `width / newWidth` by `height / newHeight`
      block of the source. */
  function Rescale(width: int, height: int, newWidth: int, newHeight: int, format: Format, data: seq<int>): (out: seq<int>)
    requires 0 < newWidth <= width && 0 < newHeight <= height
    ensures |out| == newWidth * newHeight * Channels(format)
    ensures forall x, y, ch :: 0 <= x < newWidth && 0 <= y < newHeight && 0 <= ch < Channels(format) ==>
              0 <= PixelIndex(newWidth, x, y, ch, Channels(format)) < |out|
    ensures forall x, y, ch :: 0 <= x < newWidth && 0 <= y < newHeight && 0 <= ch < Channels(format) ==>
              out[PixelIndex(newWidth, x, y, ch, Channels(format))]
                == Mean(data, width, x * (width / newWidth), y * (height / newHeight), ch, Channels(format),
                        width / newWidth, height / newHeight)
    ensures Bytes(data) ==> Bytes(out)
  {
    var bpp := Channels(format);
    var scaleW := width / newWidth;
    var scaleH := height / newHeight;
    var out := seq(newWidth * newHeight * bpp, k => OutputByte(width, newWidth, scaleW, scaleH, bpp, data, k));
    PixelsInBuffer(newWidth, newHeight, bpp);
    OutputBytesAt(width, newWidth, newHeight, scaleW, scaleH, bpp, data, out);
    OutputBytesAreBytes(width, newWidth, scaleW, scaleH, bpp, data, out);
    out
  }

  lemma OutputBytesAt(width: int, newWidth: int, newHeight: int, scaleW: nat, scaleH: nat, bpp: nat, data: seq<int>, out: seq<int>)
    requires newWidth > 0 && newHeight > 0 && scaleW > 0 && scaleH > 0 && bpp > 0
    requires |out| == newWidth * newHeight * bpp
    requires forall k :: 0 <= k < |out| ==> out[k] == OutputByte(width, newWidth, scaleW, scaleH, bpp, data, k)
    ensures forall x, y, ch :: 0 <= x < newWidth && 0 <= y < newHeight && 0 <= ch < bpp ==>
              0 <= PixelIndex(newWidth, x, y, ch, bpp) < |out|
    ensures forall x, y, ch :: 0 <= x < newWidth && 0 <= y < newHeight && 0 <= ch < bpp ==>
              out[PixelIndex(newWidth, x, y, ch, bpp)] == Mean(data, width, x * scaleW, y * scaleH, ch, bpp, scaleW, scaleH)
  {
    PixelsInBuffer(newWidth, newHeight, bpp);
    forall x, y, ch | 0 <= x < newWidth && 0 <= y < newHeight && 0 <= ch < bpp
      ensures out[PixelIndex(newWidth, x, y, ch, bpp)] == Mean(data, width, x * scaleW, y * scaleH, ch, bpp, scaleW, scaleH)
    {
      var c := y * newWidth + x;
      var k := PixelIndex(newWidth, x, y, ch, bpp);
      assert k == c * bpp + ch;
      PixelInBuffer(newWidth, newHeight, x, y, ch, bpp);
      DivModOf(c, ch, bpp);
      DivModOf(y, x, newWidth);
      assert k / bpp == c && k % bpp == ch;
      assert c / newWidth == y && c % newWidth == x;
    }
  }

  lemma OutputBytesAreBytes(width: int, newWidth: int, scaleW: nat, scaleH: nat, bpp: nat, data: seq<int>, out: seq<int>)
    requires newWidth > 0 && scaleW > 0 && scaleH > 0 && bpp > 0
    requires forall k :: 0 <= k < |out| ==> out[k] == OutputByte(width, newWidth, scaleW, scaleH, bpp, data, k)
    ensures Bytes(data) ==> Bytes(out)
  {
    if Bytes(data) {
      forall k | 0 <= k < |out|
        ensures 0 <= out[k] < 256
      {
        MeanIsByte(data, width, ((k / bpp) % newWidth) * scaleW, ((k / bpp) / newWidth) * scaleH, k % bpp, bpp, scaleW, scaleH);
      }
    }
  }

  /** Every block of a `Rescale` stays inside the source image. */
  lemma BlocksInside(size: int, newSize: int, i: int)
    requires 0 < newSize <= size && 0 <= i < newSize
    ensures 0 <= i * (size / newSize) && i * (size / newSize) + size / newSize <= size
  {
    var scale := size / newSize;
    MulMonotone(i + 1, newSize, scale);
    assert newSize * scale <= size;
  }

  lemma {:induction false} UniformColumn(data: seq<int>, w: int, h: int, u: int, v: int, offset: int, bpp: int, col: int, rows: nat, c: int)
    requires forall i :: 0 <= i < |data| ==> data[i] == c
    requires 0 <= u + col < w && 0 <= v && v + rows <= h && 0 <= offset < bpp && w * h * bpp <= |data|
    ensures ColumnSum(data, w, u, v, offset, bpp, col, rows) == c * rows
  {
    if rows > 0 {
      UniformColumn(data, w, h, u, v, offset, bpp, col, rows - 1, c);
      PixelInBuffer(w, h, u + col, v + rows - 1, offset, bpp);
    }
  }

  lemma {:induction false} UniformBlock(data: seq<int>, w: int, h: int, u: int, v: int, offset: int, bpp: int, cols: nat, rows: nat, c: int)
    requires forall i :: 0 <= i < |data| ==> data[i] == c
    requires BlockInside(w, h, data, u, v, offset, cols, rows, bpp)
    ensures BlockSum(data, w, u, v, offset, bpp, cols, rows) == c * cols * rows
  {
    if cols > 0 {
      UniformBlock(data, w, h, u, v, offset, bpp, cols - 1, rows, c);
      UniformColumn(data, w, h, u, v, offset, bpp, cols - 1, rows, c);
      MulStep(c, cols, rows);
    }
  }

  /** An image of one value everywhere shrinks to an image of that value
      everywhere: the filter neither brightens nor darkens. */
  lemma UniformStaysUniform(width: int, height: int, newWidth: int, newHeight: int, format: Format, data: seq<int>, c: int)
    requires 0 < newWidth <= width && 0 < newHeight <= height
    requires |data| >= width * height * Channels(format)
    requires forall i :: 0 <= i < |data| ==> data[i] == c
    ensures forall x, y, ch :: 0 <= x < newWidth && 0 <= y < newHeight && 0 <= ch < Channels(format) ==>
              Rescale(width, height, newWidth, newHeight, format, data)[PixelIndex(newWidth, x, y, ch, Channels(format))] == c
  {
    var bpp := Channels(format);
    var scaleW := width / newWidth;
    var scaleH := height / newHeight;
    forall x, y, ch | 0 <= x < newWidth && 0 <= y < newHeight && 0 <= ch < bpp
      ensures Mean(data, width, x * scaleW, y * scaleH, ch, bpp, scaleW, scaleH) == c
    {
      BlocksInside(width, newWidth, x);
      BlocksInside(height, newHeight, y);
      UniformBlock(data, width, height, x * scaleW, y * scaleH, ch, bpp, scaleW, scaleH, c);
      MulStep(c, scaleW, scaleH);
      DivModOf(c, 0, scaleW * scaleH);
    }
  }
}
