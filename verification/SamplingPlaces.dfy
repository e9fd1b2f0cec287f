/** That every LED is lit by the picture where it sits. */
module SamplingPlaces {
  import opened Arith
  import opened Frames
  import opened LedSequence
  import opened Sampling
  import opened StripGeometry

  // -------------------------------------------------------------------------
  // Pixels and windows
  // -------------------------------------------------------------------------

  predicate Near(x: real, y: real, reach: real) {
    -reach <= x - y <= reach
  }

  lemma RoundIsNear(x: real)
    requires x >= 0.0
    ensures Near(Round(x) as real, x, 0.5)
  {
  }

  lemma RoundGrows(x: real, y: real)
    requires x <= y
    ensures Round(x) <= Round(y)
  {
  }

  /** How far along an axis of `size` pixels a place falls, from the middle of the first. */
  function Along(size: nat, place: real): real {
    place * (size as real - 1.0)
  }

  lemma AlongGrows(size: nat, place: real, further: real)
    requires size > 0 && 0.0 <= place <= further
    ensures 0.0 <= Along(size, place) <= Along(size, further)
  {
    SpanGrows(place, further, size as real - 1.0);
  }

  lemma SpanGrows(place: real, further: real, span: real)
    requires 0.0 <= place <= further && span >= 0.0
    ensures 0.0 <= place * span <= further * span
  {
  }

  lemma PixelIs(size: nat, place: real)
    ensures PixelOf(size, place) == Round(Along(size, place))
  {
  }

  lemma AlongToTheEnd(size: nat)
    requires size > 0
    ensures Along(size, 0.0) == 0.0 && Along(size, 1.0) == (size - 1) as real
  {
  }

  /** The pixel of a place is the one nearest to it. */
  lemma PixelIsNearest(size: nat, place: real)
    requires size > 0 && 0.0 <= place <= 1.0
    ensures Near(PixelOf(size, place) as real, Along(size, place), 0.5)
    ensures PixelOf(size, 0.0) == 0 && PixelOf(size, 1.0) == size - 1
  {
    hide Along, PixelOf;
    AlongGrows(size, 0.0, place);
    PixelIs(size, place);
    PixelIs(size, 0.0);
    PixelIs(size, 1.0);
    AlongToTheEnd(size);
    AlongGrows(size, 0.0, 0.0);
    RoundIsNear(Along(size, place));
  }

  lemma PixelsFollowPlaces(size: nat, place: real, further: real)
    requires size > 0 && 0.0 <= place <= further <= 1.0
    ensures PixelOf(size, place) <= PixelOf(size, further)
  {
    hide Along, PixelOf, Round;
    AlongGrows(size, place, further);
    PixelIs(size, place);
    PixelIs(size, further);
    RoundGrows(Along(size, place), Along(size, further));
  }

  /** The half window is at least a pixel, and otherwise half the share asked for, cut to whole pixels. */
  lemma HalfWindowIs(size: nat, windowFrac: real)
    ensures
      var half := HalfWindow(size, windowFrac);
      && half >= 1
      && (half > 1 ==> 2.0 * half as real <= size as real * windowFrac)
      && size as real * windowFrac < 2.0 * (half as real + 1.0)
  {
  }

  /** The window holds its LED's pixel, and every pixel of its bounds up to half a window away, and no
      other. */
  lemma WindowIsCentred(bounds: Range, place: real, windowFrac: real, p: nat)
    requires bounds.start < bounds.end && 0.0 <= place <= 1.0
    ensures
      var window := WindowOn(bounds, place, windowFrac);
      var size := bounds.end - bounds.start;
      var centre := bounds.start + PixelOf(size, place);
      && window.start <= centre < window.end
      && (window.start <= p < window.end <==>
            bounds.start <= p < bounds.end && AbsDiff(p, centre) <= HalfWindow(size, windowFrac))
  {
    PlaceOnAxis(bounds.end - bounds.start, place);
    hide PixelOf, HalfWindow;
  }

  // -------------------------------------------------------------------------
  // One colour round an LED
  // -------------------------------------------------------------------------

  /** Where along an axis a place falls. */
  function Spot(bounds: Range, place: real): real
    requires bounds.start < bounds.end
  {
    bounds.start as real + Along(bounds.end - bounds.start, place)
  }

  lemma WindowIsNear(bounds: Range, place: real, windowFrac: real, p: nat)
    requires bounds.start < bounds.end && 0.0 <= place <= 1.0
    requires var window := WindowOn(bounds, place, windowFrac); window.start <= p < window.end
    ensures bounds.start <= p < bounds.end
    ensures Near(p as real, Spot(bounds, place), HalfWindow(bounds.end - bounds.start, windowFrac) as real + 0.5)
  {
    hide HalfWindow, PixelOf, WindowOn, Near, Along;
    var size := bounds.end - bounds.start;
    PixelIsNearest(size, place);
    WindowIsCentred(bounds, place, windowFrac, p);
    NearInTurn(p, bounds.start, PixelOf(size, place), Along(size, place), HalfWindow(size, windowFrac));
  }

  lemma NearInTurn(p: nat, start: nat, pixel: nat, along: real, half: nat)
    requires AbsDiff(p, start + pixel) <= half && Near(pixel as real, along, 0.5)
    ensures Near(p as real, start as real + along, half as real + 0.5)
  {
    if p >= start + pixel {
      assert p as real <= start as real + pixel as real + half as real;
    } else {
      assert p as real + half as real >= start as real + pixel as real;
    }
  }

  /** All of the picture within a window's reach of an LED is of colour `c`. */
  ghost predicate OneColourRound(f: Frame, item: Item, shape: StripShape, windowFrac: real, insets: Insets, c: Rgb)
    requires shape.Fits() && IsLed(shape.counts, item.segment, item.localIndex)
  {
    var (rows, cols) := ContentBounds(insets, f.width, f.height);
    var (x, y) := ScreenPos(item, shape);
    forall row: nat, col: nat ::
      && rows.start <= row < rows.end && cols.start <= col < cols.end
      && Near(row as real, Spot(rows, y), HalfWindow(rows.end - rows.start, windowFrac) as real + 0.5)
      && Near(col as real, Spot(cols, x), HalfWindow(cols.end - cols.start, windowFrac) as real + 0.5)
      ==> IsCell(f, row, col, c)
  }

  predicate IsCell(f: Frame, row: nat, col: nat, c: Rgb) {
    row * f.width + col < |f.pixels| ==> f.pixels[row * f.width + col] == c
  }

  /** End to end: an LED takes the colour the picture has where the LED sits. */
  lemma AnLedShowsItsPlace(
      f: Frame, item: Item, shape: StripShape, windowFrac: real, insets: Insets, c: Rgb)
    requires shape.Fits() && IsLed(shape.counts, item.segment, item.localIndex)
    requires f.width > 0 && f.height > 0 && |f.pixels| >= f.width * f.height
    requires var (rows, cols) := ContentBounds(insets, f.width, f.height); rows.end <= f.height && cols.end <= f.width
    requires OneColourRound(f, item, shape, windowFrac, insets, c)
    ensures SampledColor(f, item, shape, windowFrac, insets) == c
  {
    hide ScreenPos, ContentBounds, WindowOn, Near, Spot, HalfWindow, SampledColor, IsCell;
    var (rows, cols) := ContentBounds(insets, f.width, f.height);
    var (windowRows, windowCols) := WindowOf(f, item, shape, windowFrac, insets);
    var (x, y) := ScreenPos(item, shape);
    LedsSitOnTheBorder(item, shape);
    BoundsAreNotEmpty(f, insets);
    forall row: nat, col: nat | windowRows.start <= row < windowRows.end && windowCols.start <= col < windowCols.end
      ensures CellBetween(f, row, col, c, c)
    {
      WindowIsNear(rows, y, windowFrac, row);
      WindowIsNear(cols, x, windowFrac, col);
      CellIs(f, row, col, c);
    }
    ColorBetweenExtremes(f, item, shape, windowFrac, insets, c, c);
  }

  lemma BoundsAreNotEmpty(f: Frame, insets: Insets)
    ensures var (rows, cols) := ContentBounds(insets, f.width, f.height);
            rows.start < rows.end && cols.start < cols.end
  {
  }

  lemma CellIs(f: Frame, row: nat, col: nat, c: Rgb)
    requires IsCell(f, row, col, c)
    ensures CellBetween(f, row, col, c, c)
  {
  }

  // -------------------------------------------------------------------------
  // Every second pixel of a window counts, once
  // -------------------------------------------------------------------------

  predicate OnGrid(start: nat, end: nat, x: nat) {
    start <= x < end && (x - start) % STEP == 0
  }

  /** `s'` is `s` with one sample `p` exchanged for `q`. */
  predicate Exchanged(s: Sum, s': Sum, p: Rgb, q: Rgb) {
    s'.r + p.r == s.r + q.r && s'.g + p.g == s.g + q.g && s'.b + p.b == s.b + q.b && s'.n == s.n
  }

  predicate ExchangedIf(yes: bool, s: Sum, s': Sum, p: Rgb, q: Rgb) {
    if yes then Exchanged(s, s', p, q) else s' == s
  }

  /** `g` is `f` with its pixel at `(r, c)` exchanged, `p` for `q`. */
  predicate OnePixelOff(f: Frame, g: Frame, r: nat, c: nat, p: Rgb, q: Rgb) {
    && g.width == f.width && g.height == f.height && r < f.height && c < f.width
    && |f.pixels| >= f.width * f.height
    && r * f.width + c < |f.pixels|
    && f.pixels[r * f.width + c] == p && g.pixels == f.pixels[r * f.width + c := q]
  }

  lemma CellsAreApart(w: nat, row: nat, col: nat, r: nat, c: nat)
    requires col < w && c < w
    ensures row * w + col == r * w + c <==> row == r && col == c
  {
    if row < r {
      assert (row + 1) * w <= r * w;
    } else if r < row {
      assert (r + 1) * w <= row * w;
    }
  }

  lemma AddOfExchange(
      s: Sum, s': Sum, yes: bool, f: Frame, g: Frame, r: nat, c: nat, p: Rgb, q: Rgb, row: nat, col: nat)
    requires OnePixelOff(f, g, r, c, p, q) && row < f.height && col < f.width
    requires ExchangedIf(yes, s, s', p, q)
    requires !(yes && row == r && col == c)
    ensures row * f.width + col < |f.pixels|
    ensures
      var i := row * f.width + col;
      ExchangedIf(yes || (row == r && col == c), Add(s, f.pixels, i), Add(s', g.pixels, i), p, q)
  {
    CellsAreApart(f.width, row, col, r, c);
    CellInFrame(f, row, col);
  }

  lemma NextOnGrid(start: nat, end: nat, x: nat)
    requires start < end
    ensures OnGrid(start, end, x) <==> x == start || OnGrid(start + STEP, end, x)
    ensures !OnGrid(start + STEP, end, start)
  {
  }

  lemma NoGrid(start: nat, end: nat, x: nat)
    requires start >= end
    ensures !OnGrid(start, end, x)
  {
  }

  lemma RowEnds(s: Sum, f: Frame, row: nat, col: nat, end: nat)
    requires col >= end
    ensures AddRow(s, f, row, col, end) == s
  {
  }

  lemma RowStarts(s: Sum, f: Frame, row: nat, col: nat, end: nat)
    requires col < end
    ensures AddRow(s, f, row, col, end) == AddRow(Add(s, f.pixels, row * f.width + col), f, row, col + STEP, end)
  {
    hide Add;
  }

  lemma {:induction false} RowOfExchange(
      s: Sum, s': Sum, yes: bool, f: Frame, g: Frame, r: nat, c: nat, p: Rgb, q: Rgb, row: nat, col: nat, end: nat)
    requires OnePixelOff(f, g, r, c, p, q) && row < f.height && end <= f.width
    requires ExchangedIf(yes, s, s', p, q)
    requires !(yes && row == r && OnGrid(col, end, c))
    ensures ExchangedIf(
      yes || (row == r && OnGrid(col, end, c)), AddRow(s, f, row, col, end), AddRow(s', g, row, col, end),
      p, q)
    decreases if col < end then end - col else 0
  {
    hide ExchangedIf, Add, AddRow, OnGrid;
    if col >= end {
      RowEnds(s, f, row, col, end);
      RowEnds(s', g, row, col, end);
      NoGrid(col, end, c);
    } else {
      RowStarts(s, f, row, col, end);
      RowStarts(s', g, row, col, end);
      NextOnGrid(col, end, c);
      AddOfExchange(s, s', yes, f, g, r, c, p, q, row, col);
      var i := row * f.width + col;
      RowOfExchange(
        Add(s, f.pixels, i), Add(s', g.pixels, i), yes || (row == r && col == c),
        f, g, r, c, p, q, row, col + STEP, end);
    }
  }

  lemma {:induction false} WindowOfExchange(
      s: Sum, s': Sum, yes: bool, f: Frame, g: Frame, r: nat, c: nat, p: Rgb, q: Rgb, row: nat, end: nat, cols: Range)
    requires OnePixelOff(f, g, r, c, p, q) && end <= f.height && cols.end <= f.width
    requires ExchangedIf(yes, s, s', p, q)
    requires !(yes && OnGrid(row, end, r) && OnGrid(cols.start, cols.end, c))
    ensures ExchangedIf(
      yes || (OnGrid(row, end, r) && OnGrid(cols.start, cols.end, c)), AddWindow(s, f, row, end, cols),
      AddWindow(s', g, row, end, cols), p, q)
    decreases if row < end then end - row else 0
  {
    if row < end {
      hide Exchanged, AddRow, OnGrid, OnePixelOff;
      NextOnGrid(row, end, r);
      RowOfExchange(s, s', yes, f, g, r, c, p, q, row, cols.start, cols.end);
      WindowOfExchange(
        AddRow(s, f, row, cols.start, cols.end), AddRow(s', g, row, cols.start, cols.end),
        yes || (row == r && OnGrid(cols.start, cols.end, c)), f, g, r, c, p, q, row + STEP, end, cols);
    }
  }

  /** Exchanging one pixel of a frame exchanges it in the window's sums exactly if it lies on the grid of
      every second row and column from the window's corner; otherwise it leaves them as they are. */
  lemma OnePixelCounts(f: Frame, g: Frame, r: nat, c: nat, p: Rgb, q: Rgb, rows: Range, cols: Range)
    requires OnePixelOff(f, g, r, c, p, q) && rows.end <= f.height && cols.end <= f.width
    ensures
      var s, s' := AddWindow(ZERO, f, rows.start, rows.end, cols), AddWindow(ZERO, g, rows.start, rows.end, cols);
      ExchangedIf(
        OnGrid(rows.start, rows.end, r) && OnGrid(cols.start, cols.end, c), s, s', p, q)
  {
    WindowOfExchange(ZERO, ZERO, false, f, g, r, c, p, q, rows.start, rows.end, cols);
    hide AddWindow, OnGrid, Exchanged;
  }

  /** How many places of a stretch lie on the grid from its start. */
  function GridSize(start: nat, end: nat): nat {
    if start < end then DivCeil(end - start, STEP) else 0
  }

  lemma {:induction false} RowHasItsGrid(s: Sum, f: Frame, row: nat, col: nat, end: nat)
    requires row < f.height && end <= f.width && |f.pixels| >= f.width * f.height
    ensures AddRow(s, f, row, col, end).n == s.n + GridSize(col, end)
    decreases if col < end then end - col else 0
  {
    if col < end {
      CellInFrame(f, row, col);
      RowHasItsGrid(Add(s, f.pixels, row * f.width + col), f, row, col + STEP, end);
    }
  }

  /** A window of a complete frame has as many samples as its grid has places. */
  lemma {:induction false} WindowHasItsGrid(s: Sum, f: Frame, row: nat, end: nat, cols: Range)
    requires end <= f.height && cols.end <= f.width && |f.pixels| >= f.width * f.height
    ensures AddWindow(s, f, row, end, cols).n == s.n + GridSize(row, end) * GridSize(cols.start, cols.end)
    decreases if row < end then end - row else 0
  {
    if row < end {
      RowHasItsGrid(s, f, row, cols.start, cols.end);
      WindowHasItsGrid(AddRow(s, f, row, cols.start, cols.end), f, row + STEP, end, cols);
      OneMoreTime(GridSize(row + STEP, end), GridSize(cols.start, cols.end));
      hide AddRow, DivCeil;
      GridSteps(row, end);
    }
  }

  lemma GridSteps(start: nat, end: nat)
    requires start < end
    ensures GridSize(start, end) == GridSize(start + STEP, end) + 1
  {
  }

  lemma OneMoreTime(n: nat, w: nat)
    ensures (n + 1) * w == n * w + w
  {
  }

  /** The colour is the whole part of the exact mean, channel by channel. */
  lemma AverageIsTheWholePart(s: Sum)
    requires s.n > 0 && s.r / s.n < 256 && s.g / s.n < 256 && s.b / s.n < 256
    ensures Average(s).r * s.n <= s.r < (Average(s).r + 1) * s.n
    ensures Average(s).g * s.n <= s.g < (Average(s).g + 1) * s.n
    ensures Average(s).b * s.n <= s.b < (Average(s).b + 1) * s.n
  {
  }
}
