/** The CPU-side reduction of a native frame: which pixels are kept, and how many. */
module Downscale {
  import opened Arith
  import opened Frames

  const MAX_CAPTURE_DIM: nat := 640

  function DownscaleStride(width: nat, height: nat): nat {
    Max(Max(width, height) / MAX_CAPTURE_DIM, 1)
  }

  function DownscaledDimensions(width: nat, height: nat, stride: nat): (nat, nat)
    requires stride > 0
  {
    (DivCeil(width, stride), DivCeil(height, stride))
  }

  lemma ScaleLe(a: nat, b: nat, s: nat)
    requires a <= b
    ensures a * s <= b * s
  {
  }

  /** `DivCeil` counts the multiples of the stride below the size. */
  lemma DivCeilCounts(size: nat, stride: nat, k: nat)
    requires stride > 0
    ensures k < DivCeil(size, stride) <==> k * stride < size
  {
    var n := DivCeil(size, stride);
    DivCeilBrackets(size, stride);
    if k < n {
      ScaleLe(k, n - 1, stride);
    } else {
      ScaleLe(n, k, stride);
    }
  }

  lemma DivCeilBrackets(size: nat, stride: nat)
    requires stride > 0
    ensures size <= DivCeil(size, stride) * stride
    ensures DivCeil(size, stride) > 0 ==> (DivCeil(size, stride) - 1) * stride < size
  {
  }

  /** From 640 up, the longest edge ends between 640 and 1279 - never under the cap the stride is
      named for, and at it exactly when 640 divides the edge. */
  lemma LongestEdgeAfterDownscale(width: nat, height: nat)
    requires Max(width, height) >= MAX_CAPTURE_DIM
    ensures
      var longest := Max(width, height);
      var (w, h) := DownscaledDimensions(width, height, DownscaleStride(width, height));
      && MAX_CAPTURE_DIM <= Max(w, h) <= 2 * MAX_CAPTURE_DIM - 1
      && (Max(w, h) == MAX_CAPTURE_DIM <==> longest % MAX_CAPTURE_DIM == 0)
  {
    var longest, stride := Max(width, height), DownscaleStride(width, height);
    var (w, h) := DownscaledDimensions(width, height, stride);
    assert longest == MAX_CAPTURE_DIM * stride + longest % MAX_CAPTURE_DIM;
    DivCeilCounts(longest, stride, MAX_CAPTURE_DIM - 1);
    DivCeilCounts(longest, stride, MAX_CAPTURE_DIM);
    DivCeilCounts(longest, stride, 2 * MAX_CAPTURE_DIM - 1);
    DivCeilGrows(width, longest, stride);
    DivCeilGrows(height, longest, stride);
  }

  lemma DivCeilGrows(a: nat, b: nat, stride: nat)
    requires a <= b && stride > 0
    ensures DivCeil(a, stride) <= DivCeil(b, stride)
  {
    if DivCeil(a, stride) > 0 {
      DivCeilCounts(a, stride, DivCeil(a, stride) - 1);
      DivCeilCounts(b, stride, DivCeil(a, stride) - 1);
    }
  }

  /** A smaller frame is passed through. */
  lemma SmallFramesAreKept(width: nat, height: nat)
    requires Max(width, height) < 2 * MAX_CAPTURE_DIM
    ensures DownscaledDimensions(width, height, DownscaleStride(width, height)) == (width, height)
  {
  }

  // -------------------------------------------------------------------------
  // subsample_rgb
  // -------------------------------------------------------------------------

  /** Source pixel `(x, y)`: the first three of its four bytes. */
  function PixelAt(src: seq<u8>, width: nat, height: nat, x: nat, y: nat): Rgb
    requires |src| == width * height * 4 && x < width && y < height
  {
    OffsetInRange(width, height, x, y);
    var offset := (y * width + x) * 4;
    Rgb(src[offset], src[offset + 1], src[offset + 2])
  }

  lemma OffsetInRange(width: nat, height: nat, x: nat, y: nat)
    requires x < width && y < height
    ensures y * width + x < width * height
  {
    assert (y + 1) * width <= height * width;
  }

  /** Output row `j`: every `stride`-th pixel of source row `j * stride`. */
  function RowOf(src: seq<u8>, width: nat, height: nat, stride: nat, j: nat): (row: seq<Rgb>)
    requires |src| == width * height * 4 && stride > 0 && j * stride < height
    ensures |row| == DivCeil(width, stride)
  {
    seq(DivCeil(width, stride), i requires 0 <= i < DivCeil(width, stride) =>
      DivCeilCounts(width, stride, i);
      PixelAt(src, width, height, i * stride, j * stride))
  }

  lemma OneMoreRow(rows: nat, width: nat)
    requires rows > 0
    ensures (rows - 1) * width + width == rows * width
  {
  }

  /** The first `rows` output rows, one after the other. */
  function RowsOf(src: seq<u8>, width: nat, height: nat, stride: nat, rows: nat): (out: seq<Rgb>)
    requires |src| == width * height * 4 && stride > 0 && rows <= DivCeil(height, stride)
    ensures |out| == rows * DivCeil(width, stride)
  {
    if rows == 0 then []
    else
      DivCeilCounts(height, stride, rows - 1);
      OneMoreRow(rows, DivCeil(width, stride));
      RowsOf(src, width, height, stride, rows - 1) + RowOf(src, width, height, stride, rows - 1)
  }

  /** Output pixel `(i, j)` is source pixel `(i * stride, j * stride)`. */
  lemma {:induction false} OutputPixel(src: seq<u8>, width: nat, height: nat, stride: nat, rows: nat, i: nat, j: nat)
    requires |src| == width * height * 4 && stride > 0 && rows <= DivCeil(height, stride)
    requires i < DivCeil(width, stride) && j < rows
    ensures i * stride < width && j * stride < height
    ensures j * DivCeil(width, stride) + i < rows * DivCeil(width, stride)
    ensures RowsOf(src, width, height, stride, rows)[j * DivCeil(width, stride) + i]
         == PixelAt(src, width, height, i * stride, j * stride)
    decreases rows
  {
    var w := DivCeil(width, stride);
    DivCeilCounts(width, stride, i);
    DivCeilCounts(height, stride, j);
    OffsetInRange(w, rows, i, j);
    if j < rows - 1 {
      OutputPixel(src, width, height, stride, rows - 1, i, j);
    }
  }

  method SubsampleRgb(src: seq<u8>, width: nat, height: nat, stride: nat) returns (pixels: seq<Rgb>)
    requires |src| == width * height * 4 && stride > 0
    ensures pixels == RowsOf(src, width, height, stride, DivCeil(height, stride))
  {
    pixels := [];
    if stride == 1 {
      var n := 0;
      while n < |src| / 4
        invariant 0 <= n <= |src| / 4 == width * height
        invariant pixels == Flat(src, width, height, n)
      {
        pixels := pixels + [Rgb(src[4 * n], src[4 * n + 1], src[4 * n + 2])];
        n := n + 1;
      }
      FlatIsRows(src, width, height, height);
    } else {
      var y := 0;
      ghost var rows := 0;
      while y < height
        invariant y == rows * stride && rows <= DivCeil(height, stride)
        invariant y >= height ==> rows == DivCeil(height, stride)
        invariant pixels == RowsOf(src, width, height, stride, rows)
        decreases height - y
      {
        DivCeilCounts(height, stride, rows);
        DivCeilCounts(height, stride, rows + 1);
        var row := StridedRow(src, width, height, stride, rows, y);
        pixels := pixels + row;
        rows := rows + 1;
        y := y + stride;
      }
      DivCeilCounts(height, stride, rows);
    }
  }

  /** The inner loop of the strided walk. */
  method StridedRow(src: seq<u8>, width: nat, height: nat, stride: nat, ghost j: nat, y: nat) returns (row: seq<Rgb>)
    requires |src| == width * height * 4 && stride > 0 && y == j * stride < height
    ensures row == RowOf(src, width, height, stride, j)
  {
    row := [];
    var x := 0;
    ghost var i := 0;
    while x < width
      invariant x == i * stride && i <= DivCeil(width, stride)
      invariant x >= width ==> i == DivCeil(width, stride)
      invariant row == RowOf(src, width, height, stride, j)[..i]
      decreases width - x
    {
      DivCeilCounts(width, stride, i);
      DivCeilCounts(width, stride, i + 1);
      OffsetInRange(width, height, x, y);
      var offset := (y * width + x) * 4;
      row := row + [Rgb(src[offset], src[offset + 1], src[offset + 2])];
      i := i + 1;
      x := x + stride;
    }
    DivCeilCounts(width, stride, i);
  }

  /** The tight loop's first `n` pixels. */
  function Flat(src: seq<u8>, width: nat, height: nat, n: nat): seq<Rgb>
    requires |src| == width * height * 4 && n <= width * height
  {
    seq(n, k requires 0 <= k < n => Rgb(src[4 * k], src[4 * k + 1], src[4 * k + 2]))
  }

  /** A picture as captured: four bytes a pixel, the fourth of no account. */
  function Captured(pixels: seq<Rgb>, fourth: u8): (src: seq<u8>)
    ensures |src| == 4 * |pixels|
  {
    seq(4 * |pixels|, k requires 0 <= k < 4 * |pixels| => ByteOf(pixels[k / 4], k % 4, fourth))
  }

  function ByteOf(p: Rgb, k: nat, fourth: u8): u8 {
    if k == 0 then p.r else if k == 1 then p.g else if k == 2 then p.b else fourth
  }

  lemma CapturedBytes(pixels: seq<Rgb>, fourth: u8, n: nat)
    requires n < |pixels|
    ensures
      var src := Captured(pixels, fourth);
      src[4 * n] == pixels[n].r && src[4 * n + 1] == pixels[n].g && src[4 * n + 2] == pixels[n].b
  {
  }

  /** What was captured comes back: source pixel `(x, y)` is the one that row and column of the picture
      hold, its channels in their order. */
  lemma CapturedPixelsComeBack(pixels: seq<Rgb>, fourth: u8, width: nat, height: nat, x: nat, y: nat)
    requires |pixels| == width * height && x < width && y < height
    ensures |Captured(pixels, fourth)| == width * height * 4 && y * width + x < |pixels|
    ensures PixelAt(Captured(pixels, fourth), width, height, x, y) == pixels[y * width + x]
  {
    hide Captured;
    OffsetInRange(width, height, x, y);
    CapturedBytes(pixels, fourth, y * width + x);
  }

  /** At stride 1 the tight loop and the strided walk keep the same pixels. */
  lemma {:induction false} FlatIsRows(src: seq<u8>, width: nat, height: nat, rows: nat)
    requires |src| == width * height * 4 && rows <= height
    ensures rows * width <= width * height
    ensures Flat(src, width, height, rows * width) == RowsOf(src, width, height, 1, rows)
  {
    ScaleLe(rows, height, width);
    if rows > 0 {
      FlatIsRows(src, width, height, rows - 1);
      assert rows * width == (rows - 1) * width + width;
      OneFlatRow(src, width, height, rows - 1, (rows - 1) * width);
    }
  }

  lemma OneFlatRow(src: seq<u8>, width: nat, height: nat, j: nat, base: nat)
    requires |src| == width * height * 4 && j < height && base == j * width && base + width <= width * height
    ensures Flat(src, width, height, base + width) == Flat(src, width, height, base) + RowOf(src, width, height, 1, j)
  {
  }
}
