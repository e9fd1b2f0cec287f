/** How deep the detected bars are cropped, said of frames: the bars that both of two opposite edges
    have are removed, and no more than that but under subtitles. */
module BarCrops {
  import opened Arith
  import opened BlackBorders
  import opened Frames

  // -------------------------------------------------------------------------
  // What a scanned line is
  // -------------------------------------------------------------------------

  /** How far pixel `(row, col)` of a frame is from an edge. */
  function DistanceFrom(f: Frame, edge: Edge, row: nat, col: nat): nat
    requires row < f.height && col < f.width
  {
    match edge
    case TopEdge => row
    case BottomEdge => f.height - 1 - row
    case LeftEdge => col
    case RightEdge => f.width - 1 - col
  }

  /** Where along an edge it lies. */
  function PlaceAlong(edge: Edge, row: nat, col: nat): nat {
    if edge.TopEdge? || edge.BottomEdge? then col else row
  }

  /** Cell `pos` of the line `depth` in from an edge is the pixel that far from that edge and that far
      along it. */
  lemma LinesRunAlongTheirEdge(f: Frame, edge: Edge, row: nat, col: nat)
    requires row < f.height && col < f.width
    ensures DistanceFrom(f, edge, row, col) < Extent(f, edge)
    ensures
      var line := LineAt(f, edge, DistanceFrom(f, edge, row, col));
      PlaceAlong(edge, row, col) < line.len && line.base + line.unit * PlaceAlong(edge, row, col) == row * f.width + col
  {
  }

  /** A sample is lit exactly if some channel of its exceeds the threshold. */
  lemma LitByAnyChannel(px: seq<Rgb>, line: Line, pos: nat, threshold: u8)
    ensures
      var i := line.base + line.unit * pos;
      Lit(px, line, pos, threshold) <==> i < |px| && (px[i].r > threshold || px[i].g > threshold || px[i].b > threshold)
  {
  }

  /** The samples of a line from `pos` on that are lit. */
  function LitFrom(px: seq<Rgb>, line: Line, pos: nat, threshold: u8): set<nat> {
    set p | pos <= p < line.len && Scanned(p) && Lit(px, line, p, threshold)
  }

  /** Hits are counted one for each lit sample. */
  lemma {:induction false} HitsCountLitSamples(px: seq<Rgb>, line: Line, pos: nat, threshold: u8)
    requires Scanned(pos)
    ensures Hits(px, line, pos, threshold) == |LitFrom(px, line, pos, threshold)|
    decreases line.len - pos
  {
    hide Lit;
    if pos >= line.len {
      ScanEnds(px, line, pos, threshold);
      assert LitFrom(px, line, pos, threshold) == {};
    } else {
      ScanGoesOn(px, line, pos, threshold);
      HitsCountLitSamples(px, line, pos + BORDER_SCAN_STEP, threshold);
      LitFromHere(px, line, pos, threshold);
    }
  }

  lemma LitFromHere(px: seq<Rgb>, line: Line, pos: nat, threshold: u8)
    requires Scanned(pos) && pos < line.len
    ensures
      LitFrom(px, line, pos, threshold) ==
      LitFrom(px, line, pos + BORDER_SCAN_STEP, threshold) + if Lit(px, line, pos, threshold) then {pos} else {}
    ensures pos !in LitFrom(px, line, pos + BORDER_SCAN_STEP, threshold)
  {
    ScanGoesOn(px, line, pos, threshold);
    hide Lit, Scanned;
  }

  // -------------------------------------------------------------------------
  // The threshold follows the darkest edge
  // -------------------------------------------------------------------------

  predicate IsBrightness(px: seq<Rgb>, line: Line, pos: nat, brightness: u8) {
    line.base + line.unit * pos < |px| && Brightness(px[line.base + line.unit * pos]) == brightness
  }

  /** The brightest sample of a line is reached, and none exceeds it. */
  lemma {:induction false} RangeIsReached(px: seq<Rgb>, line: Line, pos: nat)
    requires Scanned(pos)
    ensures forall p: nat :: pos <= p < line.len && Scanned(p) && line.base + line.unit * p < |px| ==>
      SampleRange(px, line, pos).0 <= Brightness(px[line.base + line.unit * p]) <= SampleRange(px, line, pos).1
    ensures SampleRange(px, line, pos).1 > 0 ==>
      exists p: nat :: pos <= p < line.len && Scanned(p) && IsBrightness(px, line, p, SampleRange(px, line, pos).1)
    decreases line.len - pos
  {
    hide Brightness;
    if pos < line.len {
      RangeIsReached(px, line, pos + BORDER_SCAN_STEP);
      assert forall p: nat :: pos < p < pos + BORDER_SCAN_STEP ==> !Scanned(p);
    }
  }

  function Turn(edge: Edge): nat {
    match edge
    case TopEdge => 0
    case BottomEdge => 1
    case LeftEdge => 2
    case RightEdge => 3
  }

  /** No edge is darker than the one the threshold is taken from, and none before it as dark. */
  lemma TheDarkestEdge(f: Frame, edge: Edge)
    requires f.width > 0 && f.height > 0
    ensures EdgeRange(f, DarkestEdge(f)).1 <= EdgeRange(f, edge).1
    ensures Turn(edge) < Turn(DarkestEdge(f)) ==> EdgeRange(f, DarkestEdge(f)).1 < EdgeRange(f, edge).1
  {
    hide SampleRange, LineAt;
  }

  predicate LitSomewhere(f: Frame, edge: Edge)
    requires f.width > 0 && f.height > 0
  {
    var line := LineAt(f, edge, 0);
    exists pos :: 0 <= pos < line.len && Scanned(pos) && Lit(f.pixels, line, pos, BORDER_BLACK_CEILING)
  }

  lemma BrightEdge(f: Frame, edge: Edge)
    requires f.width > 0 && f.height > 0
    ensures EdgeRange(f, edge).1 > BORDER_BLACK_CEILING <==> LitSomewhere(f, edge)
  {
    ScanStarts();
    RangeIsReached(f.pixels, LineAt(f, edge, 0), 0);
    hide SampleRange, LineAt, Brightness, Scanned;
  }

  /** The detector sees picture on every edge exactly if each of them has a sample brighter than any
      bar. */
  lemma PictureEverywhereIs(f: Frame)
    requires f.width > 0 && f.height > 0
    ensures PictureOnEveryEdge(f) <==> forall edge :: LitSomewhere(f, edge)
  {
    forall edge
      ensures EdgeRange(f, edge).1 > BORDER_BLACK_CEILING <==> LitSomewhere(f, edge)
      ensures EdgeRange(f, DarkestEdge(f)).1 <= EdgeRange(f, edge).1
    {
      BrightEdge(f, edge);
      TheDarkestEdge(f, edge);
    }
    hide EdgeRange, DarkestEdge, LitSomewhere;
    assert LitSomewhere(f, DarkestEdge(f)) <==> EdgeRange(f, DarkestEdge(f)).1 > BORDER_BLACK_CEILING;
  }

  /** The threshold asked for is raised only for a flat edge, and then to the margin above its
      brightest sample. */
  lemma OnlyAFlatEdgeRaisesTheThreshold(f: Frame, threshold: u8)
    requires f.width > 0 && f.height > 0 && !PictureOnEveryEdge(f)
    ensures
      var (lo, hi) := EdgeRange(f, DarkestEdge(f));
      ChosenThreshold(f, threshold) > threshold <==>
        hi - lo <= BORDER_BLACK_FLATNESS && threshold < hi + BORDER_BLACK_MARGIN
    ensures
      ChosenThreshold(f, threshold) > threshold ==>
        ChosenThreshold(f, threshold) == EdgeRange(f, DarkestEdge(f)).1 + BORDER_BLACK_MARGIN
  {
    hide EdgeRange;
  }

  // -------------------------------------------------------------------------
  // Bars are cropped
  // -------------------------------------------------------------------------

  /** The most a crop may remove on one side. */
  function CropCap(size: nat): nat {
    Round(BORDER_MAX_INSET * size as real)
  }

  /** Subtitles keep clear of 7.5 in a hundred of the width on each side, cut to whole pixels. */
  lemma SubtitlesLeaveAMargin(width: nat)
    ensures 40 * SubtitleMargin(width) <= 3 * width < 40 * (SubtitleMargin(width) + 1)
  {
    assert (1.0 - BORDER_SUBTITLE_SPAN) / 2.0 * width as real == 3.0 * width as real / 40.0;
  }

  /** A depth is cropped whole, up to the cap. */
  lemma CropIsTheDepthUpToTheCap(depth: nat, size: nat)
    requires depth < size
    ensures Round(size as real * Inset(depth, size)) == Min(depth, CropCap(size))
  {
    var share := depth as real / size as real;
    QuotientIs(depth as real, size as real, share);
    CapInProducts(depth, size, share);
    if share <= BORDER_MAX_INSET {
      RoundOfWhole(depth);
      RoundAtLeast(BORDER_MAX_INSET * size as real, depth);
    } else {
      RoundAtMost(BORDER_MAX_INSET * size as real, depth);
      assert size as real * BORDER_MAX_INSET == BORDER_MAX_INSET * size as real;
    }
  }

  lemma RoundAtLeast(x: real, n: nat)
    requires n as real <= x
    ensures n <= Round(x)
  {
  }

  /** Subtitles hold the bottom scan up: a bar below them, well short of the one at the top. */
  ghost predicate HeldUpBySubtitles(f: Frame, t: u8, d: Depths)
    requires AreDepths(f, t, d)
  {
    && 0 < d.bottom && d.bottom + BORDER_SYMMETRY_STEPS * BORDER_SCAN_STEP < d.top
    && SubtitleShape(BandLines(f, d.bottom, d.top, t))
  }

  /** Top and bottom are cropped by the lesser of their bars, but by the top's where subtitles hold up
      the bottom; left and right by the lesser of theirs. Up to the cap each. */
  lemma CropsAreExactly(f: Frame, t: u8, d: Depths)
    requires Measurable(f) && AreDepths(f, t, d)
    ensures
      var insets := InsetsOf(Letterbox(f, t, d), Pillarbox(d), f);
      var letterbox := if HeldUpBySubtitles(f, t, d) then d.top else Min(d.top, d.bottom);
      && Cropped(f, insets, TopEdge) == Cropped(f, insets, BottomEdge) == Min(letterbox, CropCap(f.height))
      && Cropped(f, insets, LeftEdge) == Cropped(f, insets, RightEdge) == Min(Min(d.left, d.right), CropCap(f.width))
  {
    hide Cropped, InsetsOf, PairedDepth, CropCap, SubtitleShape, BandLines;
    CropsAre(f, t, d);
    PairedIs(d.top, d.bottom, SubtitleShape(BandLines(f, d.bottom, d.top, t)));
    PairedIs(d.left, d.right, false);
    DepthsAreInFrame(f, t, d);
    FirstCropsAre(f, Letterbox(f, t, d), Pillarbox(d));
  }

  lemma DepthsAreInFrame(f: Frame, t: u8, d: Depths)
    requires AreDepths(f, t, d)
    ensures d.top < f.height && d.bottom < f.height && d.left < f.width && d.right < f.width
  {
  }

  lemma CropStarts(depth: nat, size: nat)
    requires depth < size
    ensures Bounds(size, Inset(depth, size), Inset(depth, size)).start == Min(depth, CropCap(size))
  {
    CropIsTheDepthUpToTheCap(depth, size);
    hide Inset, Round;
  }

  lemma FirstCropsAre(f: Frame, letterbox: nat, pillarbox: nat)
    requires letterbox < f.height && pillarbox < f.width
    ensures
      var insets := InsetsOf(letterbox, pillarbox, f);
      && Cropped(f, insets, TopEdge) == Min(letterbox, CropCap(f.height))
      && Cropped(f, insets, LeftEdge) == Min(pillarbox, CropCap(f.width))
  {
    hide Inset, Bounds, CropCap;
    CropStarts(letterbox, f.height);
    CropStarts(pillarbox, f.width);
  }

  lemma PairedIs(near: nat, far: nat, subtitles: bool)
    ensures PairedDepth(near, far, subtitles) ==
      if 0 < far && far + BORDER_SYMMETRY_STEPS * BORDER_SCAN_STEP < near && subtitles then near else Min(near, far)
  {
  }

  /** Nothing scanned within `k` lines of an edge holds picture. */
  ghost predicate BarAtLeast(f: Frame, edge: Edge, t: u8, k: nat) {
    k <= Extent(f, edge) && forall d: nat :: d < k && Scanned(d) ==> !HoldsPicture(f, edge, d, t)
  }

  function Opposite(edge: Edge): Edge {
    match edge
    case TopEdge => BottomEdge
    case BottomEdge => TopEdge
    case LeftEdge => RightEdge
    case RightEdge => LeftEdge
  }

  lemma BarIsAtMostTheDepth(f: Frame, edge: Edge, t: u8, depth: nat, k: nat)
    requires IsDepth(f, edge, t, depth) && BarAtLeast(f, edge, t, k)
    ensures k <= depth
  {
  }

  /** Bars that two opposite edges both have are removed: the crop is at least as deep as the shallower
      of them, or the cap. */
  lemma MatchedBarsAreCropped(f: Frame, t: u8, d: Depths, edge: Edge, k: nat)
    requires Measurable(f) && AreDepths(f, t, d)
    requires BarAtLeast(f, edge, t, k) && BarAtLeast(f, Opposite(edge), t, k)
    ensures Cropped(f, InsetsOf(Letterbox(f, t, d), Pillarbox(d), f), edge) >= Min(k, CropCap(Extent(f, edge)))
  {
    CropsAreExactly(f, t, d);
    hide Cropped, InsetsOf, CropCap, Letterbox, Pillarbox;
    if edge.TopEdge? || edge.BottomEdge? {
      BarIsAtMostTheDepth(f, TopEdge, t, d.top, k);
      BarIsAtMostTheDepth(f, BottomEdge, t, d.bottom, k);
    } else {
      BarIsAtMostTheDepth(f, LeftEdge, t, d.left, k);
      BarIsAtMostTheDepth(f, RightEdge, t, d.right, k);
    }
  }

  /** And of bars of one depth, with picture behind them, all is removed and nothing else. */
  lemma EqualBarsAreCroppedWhole(f: Frame, t: u8, d: Depths, edge: Edge, k: nat)
    requires Measurable(f) && AreDepths(f, t, d)
    requires IsDepth(f, edge, t, k) && IsDepth(f, Opposite(edge), t, k)
    ensures Cropped(f, InsetsOf(Letterbox(f, t, d), Pillarbox(d), f), edge) == Min(k, CropCap(Extent(f, edge)))
  {
    CropsAreExactly(f, t, d);
    hide Cropped, InsetsOf, CropCap, Letterbox, Pillarbox;
    if edge.TopEdge? || edge.BottomEdge? {
      DepthIsUnique(f, TopEdge, t, d.top, k);
      DepthIsUnique(f, BottomEdge, t, d.bottom, k);
    } else {
      DepthIsUnique(f, LeftEdge, t, d.left, k);
      DepthIsUnique(f, RightEdge, t, d.right, k);
    }
  }

  lemma DepthIsUnique(f: Frame, edge: Edge, t: u8, depth: nat, k: nat)
    requires IsDepth(f, edge, t, depth) && IsDepth(f, edge, t, k)
    ensures depth == k
  {
  }
}
