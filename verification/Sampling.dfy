/** The colour of every LED: an average over a small window at its place on the picture. */
module Sampling {
  import opened Arith
  import opened Frames
  import opened LedSequence
  import opened StripGeometry

  const STEP: nat := 2

  function HalfWindow(size: nat, windowFrac: real): nat
    ensures HalfWindow(size, windowFrac) >= 1
  {
    var half := size as real * windowFrac / 2.0;
    if half > 1.0 then half.Floor else 1
  }

  /** The pixel of an axis nearest to `place` along it. */
  function PixelOf(size: nat, place: real): nat {
    Round(place * (size as real - 1.0))
  }

  /** The pixels of one axis averaged for an LED at `place` along it. */
  function WindowOn(bounds: Range, place: real, windowFrac: real): Range
    requires bounds.start < bounds.end
  {
    var centre := bounds.start + PixelOf(bounds.end - bounds.start, place);
    var half := HalfWindow(bounds.end - bounds.start, windowFrac);
    Range(Max(SaturatingSub(centre, half), bounds.start), Min(centre + half + 1, bounds.end))
  }

  /** Sums of the sampled channels, and how many samples there were. */
  datatype Sum = Sum(r: nat, g: nat, b: nat, n: nat)

  const ZERO := Sum(0, 0, 0, 0)

  function Add(s: Sum, px: seq<Rgb>, i: nat): Sum {
    if i < |px| then Sum(s.r + px[i].r, s.g + px[i].g, s.b + px[i].b, s.n + 1) else s
  }

  /** `s` with every second pixel of one row from `col` added. */
  function AddRow(s: Sum, f: Frame, row: nat, col: nat, end: nat): Sum
    decreases if col < end then end - col else 0
  {
    if col >= end then s else AddRow(Add(s, f.pixels, row * f.width + col), f, row, col + STEP, end)
  }

  /** `s` with every second row of the window from `row` added. */
  function AddWindow(s: Sum, f: Frame, row: nat, end: nat, cols: Range): Sum
    decreases if row < end then end - row else 0
  {
    if row >= end then s else AddWindow(AddRow(s, f, row, cols.start, cols.end), f, row + STEP, end, cols)
  }

  function Average(s: Sum): Rgb
    requires s.n > 0 ==> s.r / s.n < 256 && s.g / s.n < 256 && s.b / s.n < 256
  {
    if s.n == 0 then BLACK else Rgb(s.r / s.n, s.g / s.n, s.b / s.n)
  }

  // -------------------------------------------------------------------------
  // Averages stay between the extremes of their window
  // -------------------------------------------------------------------------

  predicate Between(lo: Rgb, p: Rgb, hi: Rgb) {
    lo.r <= p.r <= hi.r && lo.g <= p.g <= hi.g && lo.b <= p.b <= hi.b
  }

  predicate SumBetween(s: Sum, lo: Rgb, hi: Rgb) {
    && s.n * lo.r <= s.r <= s.n * hi.r
    && s.n * lo.g <= s.g <= s.n * hi.g
    && s.n * lo.b <= s.b <= s.n * hi.b
  }

  lemma AddBetween(s: Sum, px: seq<Rgb>, i: nat, lo: Rgb, hi: Rgb)
    requires SumBetween(s, lo, hi) && (i < |px| ==> Between(lo, px[i], hi))
    ensures SumBetween(Add(s, px, i), lo, hi)
  {
    if i < |px| {
      StepBetween(s.n, lo.r, s.r, px[i].r, hi.r);
      StepBetween(s.n, lo.g, s.g, px[i].g, hi.g);
      StepBetween(s.n, lo.b, s.b, px[i].b, hi.b);
    }
  }

  lemma StepBetween(n: nat, lo: nat, sum: nat, x: nat, hi: nat)
    requires n * lo <= sum <= n * hi && lo <= x <= hi
    ensures (n + 1) * lo <= sum + x <= (n + 1) * hi
  {
  }

  /** Every pixel the window reads lies between `lo` and `hi`. */
  ghost predicate WindowBetween(f: Frame, rows: Range, cols: Range, lo: Rgb, hi: Rgb) {
    forall row: nat, col: nat :: rows.start <= row < rows.end && cols.start <= col < cols.end ==>
      CellBetween(f, row, col, lo, hi)
  }

  predicate CellBetween(f: Frame, row: nat, col: nat, lo: Rgb, hi: Rgb) {
    row * f.width + col < |f.pixels| ==> Between(lo, f.pixels[row * f.width + col], hi)
  }

  lemma {:induction false} AddRowBetween(s: Sum, f: Frame, row: nat, col: nat, end: nat, lo: Rgb, hi: Rgb)
    requires SumBetween(s, lo, hi)
    requires forall c: nat :: col <= c < end ==> CellBetween(f, row, c, lo, hi)
    ensures SumBetween(AddRow(s, f, row, col, end), lo, hi)
    decreases if col < end then end - col else 0
  {
    if col < end {
      assert CellBetween(f, row, col, lo, hi);
      AddBetween(s, f.pixels, row * f.width + col, lo, hi);
      AddRowBetween(Add(s, f.pixels, row * f.width + col), f, row, col + STEP, end, lo, hi);
    }
  }

  lemma {:induction false} AddWindowBetween(s: Sum, f: Frame, row: nat, end: nat, cols: Range, lo: Rgb, hi: Rgb)
    requires SumBetween(s, lo, hi) && WindowBetween(f, Range(row, end), cols, lo, hi)
    ensures SumBetween(AddWindow(s, f, row, end, cols), lo, hi)
    decreases if row < end then end - row else 0
  {
    if row < end {
      assert forall c: nat :: cols.start <= c < cols.end ==> CellBetween(f, row, c, lo, hi);
      AddRowBetween(s, f, row, cols.start, cols.end, lo, hi);
      AddWindowBetween(AddRow(s, f, row, cols.start, cols.end), f, row + STEP, end, cols, lo, hi);
    }
  }

  lemma MeanBetween(sum: nat, n: nat, lo: nat, hi: nat)
    requires n > 0 && n * lo <= sum <= n * hi
    ensures lo <= sum / n <= hi
  {
    var q := sum / n;
    assert q * n <= sum < (q + 1) * n;
    IntScaleOrder(lo, q + 1, n);
    IntScaleOrder(hi, q, n);
  }

  /** An average of at least one sample lies between the window's least and greatest. */
  lemma AverageBetween(s: Sum, lo: Rgb, hi: Rgb)
    requires SumBetween(s, lo, hi) && s.n > 0
    ensures s.r / s.n < 256 && s.g / s.n < 256 && s.b / s.n < 256
    ensures Between(lo, Average(s), hi)
  {
    MeanBetween(s.r, s.n, lo.r, hi.r);
    MeanBetween(s.g, s.n, lo.g, hi.g);
    MeanBetween(s.b, s.n, lo.b, hi.b);
  }

  // -------------------------------------------------------------------------
  // Windows lie on the picture
  // -------------------------------------------------------------------------

  lemma PlaceOnAxis(size: nat, place: real)
    requires size > 0 && 0.0 <= place <= 1.0
    ensures PixelOf(size, place) <= size - 1
  {
    var span := size as real - 1.0;
    assert 0.0 <= place * span <= span;
    RoundAtMost(place * span, size - 1);
  }

  /** A window is never empty and never reaches out of its bounds, whatever the window fraction. */
  lemma WindowInBounds(bounds: Range, place: real, windowFrac: real)
    requires bounds.start < bounds.end && 0.0 <= place <= 1.0
    ensures
      var window := WindowOn(bounds, place, windowFrac);
      bounds.start <= window.start < window.end <= bounds.end
  {
    PlaceOnAxis(bounds.end - bounds.start, place);
    hide PixelOf, HalfWindow;
  }

  /** The rows and columns averaged for one LED. */
  function WindowOf(f: Frame, item: Item, shape: StripShape, windowFrac: real, insets: Insets): (Range, Range)
    requires shape.Fits() && IsLed(shape.counts, item.segment, item.localIndex)
  {
    var (rows, cols) := ContentBounds(insets, f.width, f.height);
    var (x, y) := ScreenPos(item, shape);
    (WindowOn(rows, y, windowFrac), WindowOn(cols, x, windowFrac))
  }

  lemma WindowOnThePicture(f: Frame, item: Item, shape: StripShape, windowFrac: real, insets: Insets)
    requires shape.Fits() && IsLed(shape.counts, item.segment, item.localIndex)
    ensures
      var (rows, cols) := ContentBounds(insets, f.width, f.height);
      var (windowRows, windowCols) := WindowOf(f, item, shape, windowFrac, insets);
      && rows.start <= windowRows.start < windowRows.end <= rows.end
      && cols.start <= windowCols.start < windowCols.end <= cols.end
  {
    hide ScreenPos;
    LedsSitOnTheBorder(item, shape);
    var (rows, cols) := ContentBounds(insets, f.width, f.height);
    WindowInBounds(rows, ScreenPos(item, shape).1, windowFrac);
    WindowInBounds(cols, ScreenPos(item, shape).0, windowFrac);
  }

  lemma SumIsAverageable(f: Frame, rows: Range, cols: Range)
    ensures
      var s := AddWindow(ZERO, f, rows.start, rows.end, cols);
      s.n > 0 ==> s.r / s.n < 256 && s.g / s.n < 256 && s.b / s.n < 256
  {
    AddWindowBetween(ZERO, f, rows.start, rows.end, cols, BLACK, Rgb(255, 255, 255));
    var s := AddWindow(ZERO, f, rows.start, rows.end, cols);
    if s.n > 0 {
      AverageBetween(s, BLACK, Rgb(255, 255, 255));
    }
  }

  function SampledColor(f: Frame, item: Item, shape: StripShape, windowFrac: real, insets: Insets): Rgb
    requires shape.Fits() && IsLed(shape.counts, item.segment, item.localIndex)
  {
    if f.width == 0 || f.height == 0 || f.pixels == [] then BLACK
    else
      var (rows, cols) := WindowOf(f, item, shape, windowFrac, insets);
      SumIsAverageable(f, rows, cols);
      Average(AddWindow(ZERO, f, rows.start, rows.end, cols))
  }

  /** `sample_frame_within_insets`. */
  method SampleFrameWithinInsets(f: Frame, sequence: seq<Item>, shape: StripShape, windowFrac: real, insets: Insets)
    returns (colors: seq<Rgb>)
    requires shape.Fits()
    requires forall i :: 0 <= i < |sequence| ==> IsLed(shape.counts, sequence[i].segment, sequence[i].localIndex)
    ensures |colors| == |sequence|
    ensures forall i :: 0 <= i < |sequence| ==>
      colors[i] == SampledColor(f, sequence[i], shape, windowFrac, insets)
  {
    if f.width == 0 || f.height == 0 || f.pixels == [] {
      return seq(|sequence|, _ => BLACK);
    }
    colors := [];
    for k := 0 to |sequence|
      invariant |colors| == k
      invariant forall i :: 0 <= i < k ==> colors[i] == SampledColor(f, sequence[i], shape, windowFrac, insets)
    {
      var (rows, cols) := WindowOf(f, sequence[k], shape, windowFrac, insets);
      var s := SumWindow(f, rows, cols);
      SumIsAverageable(f, rows, cols);
      colors := colors + [Average(s)];
    }
  }

  /** The two stepping loops over a window. */
  method SumWindow(f: Frame, rows: Range, cols: Range) returns (s: Sum)
    ensures s == AddWindow(ZERO, f, rows.start, rows.end, cols)
  {
    s := ZERO;
    var row := rows.start;
    while row < rows.end
      invariant AddWindow(s, f, row, rows.end, cols) == AddWindow(ZERO, f, rows.start, rows.end, cols)
      decreases if row < rows.end then rows.end - row else 0
    {
      ghost var before := s;
      var col := cols.start;
      while col < cols.end
        invariant AddRow(s, f, row, col, cols.end) == AddRow(before, f, row, cols.start, cols.end)
        decreases if col < cols.end then cols.end - col else 0
      {
        s := Add(s, f.pixels, row * f.width + col);
        col := col + STEP;
      }
      row := row + STEP;
    }
  }

  // -------------------------------------------------------------------------
  // What an LED's colour depends on
  // -------------------------------------------------------------------------

  predicate SameCell(f: Frame, g: Frame, row: nat, col: nat) {
    var i := row * f.width + col;
    (i < |f.pixels| <==> i < |g.pixels|) && (i < |f.pixels| ==> f.pixels[i] == g.pixels[i])
  }

  /** Two frames of one size that agree inside the insets. */
  ghost predicate AgreeInside(f: Frame, g: Frame, rows: Range, cols: Range) {
    && f.width == g.width && f.height == g.height
    && forall row: nat, col: nat :: rows.start <= row < rows.end && cols.start <= col < cols.end ==>
         SameCell(f, g, row, col)
  }

  lemma {:induction false} AddRowAgrees(s: Sum, f: Frame, g: Frame, row: nat, col: nat, end: nat)
    requires f.width == g.width && forall c: nat :: col <= c < end ==> SameCell(f, g, row, c)
    ensures AddRow(s, f, row, col, end) == AddRow(s, g, row, col, end)
    decreases if col < end then end - col else 0
  {
    if col < end {
      assert SameCell(f, g, row, col);
      AddRowAgrees(Add(s, f.pixels, row * f.width + col), f, g, row, col + STEP, end);
    }
  }

  lemma {:induction false} AddWindowAgrees(s: Sum, f: Frame, g: Frame, row: nat, end: nat, cols: Range)
    requires AgreeInside(f, g, Range(row, end), cols)
    ensures AddWindow(s, f, row, end, cols) == AddWindow(s, g, row, end, cols)
    decreases if row < end then end - row else 0
  {
    if row < end {
      assert forall c: nat :: cols.start <= c < cols.end ==> SameCell(f, g, row, c);
      AddRowAgrees(s, f, g, row, cols.start, cols.end);
      AddWindowAgrees(AddRow(s, f, row, cols.start, cols.end), f, g, row + STEP, end, cols);
    }
  }

  /** No colour depends on the bars: frames that agree inside the insets light the strip alike. */
  lemma BarsDoNotShow(f: Frame, g: Frame, item: Item, shape: StripShape, windowFrac: real, insets: Insets)
    requires shape.Fits() && IsLed(shape.counts, item.segment, item.localIndex)
    requires f.pixels != [] && g.pixels != []
    requires var (rows, cols) := ContentBounds(insets, f.width, f.height); AgreeInside(f, g, rows, cols)
    ensures SampledColor(f, item, shape, windowFrac, insets) == SampledColor(g, item, shape, windowFrac, insets)
  {
    if f.width > 0 && f.height > 0 {
      WindowOnThePicture(f, item, shape, windowFrac, insets);
      var (rows, cols) := WindowOf(f, item, shape, windowFrac, insets);
      AddWindowAgrees(ZERO, f, g, rows.start, rows.end, cols);
    }
  }

  lemma {:induction false} AddRowCounts(s: Sum, f: Frame, row: nat, col: nat, end: nat)
    ensures AddRow(s, f, row, col, end).n >= s.n
    ensures col < end && row * f.width + col < |f.pixels| ==> AddRow(s, f, row, col, end).n > s.n
    decreases if col < end then end - col else 0
  {
    if col < end {
      AddRowCounts(Add(s, f.pixels, row * f.width + col), f, row, col + STEP, end);
    }
  }

  lemma {:induction false} AddWindowCounts(s: Sum, f: Frame, row: nat, end: nat, cols: Range)
    ensures AddWindow(s, f, row, end, cols).n >= s.n
    ensures row < end && cols.start < cols.end && row * f.width + cols.start < |f.pixels| ==>
      AddWindow(s, f, row, end, cols).n > s.n
    decreases if row < end then end - row else 0
  {
    if row < end {
      AddRowCounts(s, f, row, cols.start, cols.end);
      AddWindowCounts(AddRow(s, f, row, cols.start, cols.end), f, row + STEP, end, cols);
    }
  }

  lemma CellInFrame(f: Frame, row: nat, col: nat)
    requires row < f.height && col < f.width && |f.pixels| >= f.width * f.height
    ensures row * f.width + col < |f.pixels|
  {
    assert (row + 1) * f.width <= f.height * f.width;
  }

  lemma WindowAveragesBetween(f: Frame, rows: Range, cols: Range, lo: Rgb, hi: Rgb)
    requires rows.start < rows.end <= f.height && cols.start < cols.end <= f.width
    requires |f.pixels| >= f.width * f.height && WindowBetween(f, rows, cols, lo, hi)
    ensures var s := AddWindow(ZERO, f, rows.start, rows.end, cols);
            s.n > 0 && s.r / s.n < 256 && s.g / s.n < 256 && s.b / s.n < 256 && Between(lo, Average(s), hi)
  {
    CellInFrame(f, rows.start, cols.start);
    AddWindowCounts(ZERO, f, rows.start, rows.end, cols);
    AddWindowBetween(ZERO, f, rows.start, rows.end, cols, lo, hi);
    hide AddWindow, WindowBetween;
    AverageBetween(AddWindow(ZERO, f, rows.start, rows.end, cols), lo, hi);
  }

  /** On a complete frame every LED averages at least one pixel of the picture, and each channel lies
      between the least and the greatest its window holds. */
  lemma ColorBetweenExtremes(f: Frame, item: Item, shape: StripShape, windowFrac: real, insets: Insets,
                             lo: Rgb, hi: Rgb)
    requires shape.Fits() && IsLed(shape.counts, item.segment, item.localIndex)
    requires f.width > 0 && f.height > 0 && |f.pixels| >= f.width * f.height
    requires var (rows, cols) := ContentBounds(insets, f.width, f.height); rows.end <= f.height && cols.end <= f.width
    requires var (rows, cols) := WindowOf(f, item, shape, windowFrac, insets); WindowBetween(f, rows, cols, lo, hi)
    ensures Between(lo, SampledColor(f, item, shape, windowFrac, insets), hi)
  {
    hide AddWindow, WindowBetween, WindowOf, Average, Between, ContentBounds;
    WindowOnThePicture(f, item, shape, windowFrac, insets);
    var (rows, cols) := WindowOf(f, item, shape, windowFrac, insets);
    WindowAveragesBetween(f, rows, cols, lo, hi);
  }
}
