/** Letterbox and pillarbox detection: scanned lines, bar depths, and the crop they allow. */
module BlackBorders {
  import opened Arith
  import opened Frames
  import opened Wrappers

  const BORDER_SCAN_STEP: nat := 8
  const BORDER_MAX_INSET: real := 0.40
  const BORDER_BLACK_CEILING: u8 := 24
  const BORDER_BLACK_FLATNESS: u8 := 4
  const BORDER_BLACK_MARGIN: u8 := 8
  const BORDER_MIN_HITS: nat := 2
  const BORDER_SYMMETRY_STEPS: nat := 2
  const BORDER_SUBTITLE_SPAN: real := 0.85
  const USIZE_MAX: nat := 0xFFFF_FFFF_FFFF_FFFF

  // -------------------------------------------------------------------------
  // Lines
  // -------------------------------------------------------------------------

  datatype Edge = TopEdge | BottomEdge | LeftEdge | RightEdge

  /** A line of cells: pixel `base + unit * pos` for each `pos` below `len`. */
  datatype Line = Line(base: nat, unit: nat, len: nat)

  /** The line `depth` pixels in from an edge. */
  function LineAt(f: Frame, edge: Edge, depth: nat): (line: Line)
    requires depth < Extent(f, edge)
    ensures line.len == if edge.TopEdge? || edge.BottomEdge? then f.width else f.height
  {
    match edge
    case TopEdge =>
      ProductIsNat(depth, f.width);
      Line(depth * f.width, 1, f.width)
    case BottomEdge =>
      ProductIsNat(f.height - 1 - depth, f.width);
      Line((f.height - 1 - depth) * f.width, 1, f.width)
    case LeftEdge => Line(depth, f.width, f.height)
    case RightEdge => Line(f.width - 1 - depth, f.width, f.height)
  }

  function Extent(f: Frame, edge: Edge): nat {
    if edge.TopEdge? || edge.BottomEdge? then f.height else f.width
  }

  function Brightness(p: Rgb): u8 {
    Max(Max(p.r, p.g), p.b)
  }

  predicate Lit(px: seq<Rgb>, line: Line, pos: nat, threshold: u8) {
    line.base + line.unit * pos < |px| && Brightness(px[line.base + line.unit * pos]) > threshold
  }

  /** Samples above the threshold at `pos` and every eighth cell after it. */
  function Hits(px: seq<Rgb>, line: Line, pos: nat, threshold: u8): nat
    decreases line.len - pos
  {
    if pos >= line.len then 0
    else (if Lit(px, line, pos, threshold) then 1 else 0) + Hits(px, line, pos + BORDER_SCAN_STEP, threshold)
  }

  predicate Scanned(depth: nat) {
    depth % BORDER_SCAN_STEP == 0
  }

  /** A line is picture only with two or more samples above the threshold. */
  predicate HoldsPicture(f: Frame, edge: Edge, depth: nat, threshold: u8)
    requires depth < Extent(f, edge)
  {
    Hits(f.pixels, LineAt(f, edge, depth), 0, threshold) >= BORDER_MIN_HITS
  }

  lemma ScanStarts()
    ensures Scanned(0)
  {
  }

  /** From one scanned place to the next. */
  lemma ScanGoesOn(px: seq<Rgb>, line: Line, pos: nat, threshold: u8)
    requires Scanned(pos) && pos < line.len
    ensures Scanned(pos + BORDER_SCAN_STEP)
    ensures forall p: nat :: pos < p < pos + BORDER_SCAN_STEP ==> !Scanned(p)
    ensures Hits(px, line, pos, threshold) ==
            (if Lit(px, line, pos, threshold) then 1 else 0) + Hits(px, line, pos + BORDER_SCAN_STEP, threshold)
  {
    hide Lit;
  }

  lemma ScanEnds(px: seq<Rgb>, line: Line, pos: nat, threshold: u8)
    requires pos >= line.len
    ensures Hits(px, line, pos, threshold) == 0
  {
  }

  method RowHits(px: seq<Rgb>, line: Line, threshold: u8) returns (hits: nat, first: nat, last: nat)
    requires line.len <= USIZE_MAX
    ensures hits == Hits(px, line, 0, threshold)
    ensures hits == 0 ==> first == USIZE_MAX && last == 0
    ensures hits > 0 ==> first < line.len && Scanned(first) && Lit(px, line, first, threshold)
    ensures hits > 0 ==> last < line.len && Scanned(last) && Lit(px, line, last, threshold)
    ensures forall pos: nat :: pos < line.len && Scanned(pos) && Lit(px, line, pos, threshold) ==> first <= pos <= last
  {
    hide Lit, Scanned, Hits;
    hits, first, last := 0, USIZE_MAX, 0;
    var pos := 0;
    ScanStarts();
    while pos < line.len
      invariant Scanned(pos)
      invariant hits + Hits(px, line, pos, threshold) == Hits(px, line, 0, threshold)
      invariant hits == 0 ==> first == USIZE_MAX && last == 0
      invariant hits > 0 ==> first < line.len && Scanned(first) && Lit(px, line, first, threshold)
      invariant hits > 0 ==> last < line.len && last < pos && Scanned(last) && Lit(px, line, last, threshold)
      invariant forall p: nat :: p < pos && p < line.len && Scanned(p) && Lit(px, line, p, threshold) ==>
                  first <= p <= last
      decreases line.len - pos
    {
      ScanGoesOn(px, line, pos, threshold);
      if Lit(px, line, pos, threshold) {
        hits := hits + 1;
        first := Min(first, pos);
        last := pos;
      }
      pos := pos + BORDER_SCAN_STEP;
    }
    ScanEnds(px, line, pos, threshold);
  }

  method ColHasContent(px: seq<Rgb>, line: Line, threshold: u8) returns (content: bool)
    ensures content <==> Hits(px, line, 0, threshold) >= BORDER_MIN_HITS
  {
    var hits := 0;
    var pos := 0;
    while pos < line.len
      invariant hits < BORDER_MIN_HITS
      invariant hits + Hits(px, line, pos, threshold) == Hits(px, line, 0, threshold)
      decreases line.len - pos
    {
      if Lit(px, line, pos, threshold) {
        hits := hits + 1;
        if hits >= BORDER_MIN_HITS {
          return true;
        }
      }
      pos := pos + BORDER_SCAN_STEP;
    }
    return false;
  }

  // -------------------------------------------------------------------------
  // The threshold
  // -------------------------------------------------------------------------

  /** Darkest and brightest sample from `pos` on. */
  function SampleRange(px: seq<Rgb>, line: Line, pos: nat): (u8, u8)
    decreases line.len - pos
  {
    if pos >= line.len then (255, 0)
    else
      var (lo, hi) := SampleRange(px, line, pos + BORDER_SCAN_STEP);
      var i := line.base + line.unit * pos;
      if i < |px| then (Min(lo, Brightness(px[i])), Max(hi, Brightness(px[i]))) else (lo, hi)
  }

  function EdgeRange(f: Frame, edge: Edge): (u8, u8)
    requires f.width > 0 && f.height > 0
  {
    SampleRange(f.pixels, LineAt(f, edge, 0), 0)
  }

  /** The first of the four edges whose brightest sample is the least. */
  function DarkestEdge(f: Frame): Edge
    requires f.width > 0 && f.height > 0
  {
    var a := if EdgeRange(f, BottomEdge).1 < EdgeRange(f, TopEdge).1 then BottomEdge else TopEdge;
    var b := if EdgeRange(f, LeftEdge).1 < EdgeRange(f, a).1 then LeftEdge else a;
    if EdgeRange(f, RightEdge).1 < EdgeRange(f, b).1 then RightEdge else b
  }

  predicate PictureOnEveryEdge(f: Frame)
    requires f.width > 0 && f.height > 0
  {
    EdgeRange(f, DarkestEdge(f)).1 > BORDER_BLACK_CEILING
  }

  /** The threshold follows a flat edge's own black. */
  function ChosenThreshold(f: Frame, threshold: u8): u8
    requires f.width > 0 && f.height > 0 && !PictureOnEveryEdge(f)
  {
    var (lo, hi) := EdgeRange(f, DarkestEdge(f));
    if hi - lo <= BORDER_BLACK_FLATNESS then Max(threshold, hi + BORDER_BLACK_MARGIN) else threshold
  }

  /** It is never below the one asked for, and on a flat edge no sample of that edge exceeds it. */
  lemma ThresholdClearsAFlatEdge(f: Frame, threshold: u8)
    requires f.width > 0 && f.height > 0 && !PictureOnEveryEdge(f)
    ensures ChosenThreshold(f, threshold) >= threshold
    ensures var (lo, hi) := EdgeRange(f, DarkestEdge(f));
      hi - lo <= BORDER_BLACK_FLATNESS ==> !HoldsPicture(f, DarkestEdge(f), 0, ChosenThreshold(f, threshold))
  {
    NoHitsAbove(f.pixels, LineAt(f, DarkestEdge(f), 0), 0, ChosenThreshold(f, threshold));
  }

  lemma {:induction false} NoHitsAbove(px: seq<Rgb>, line: Line, pos: nat, threshold: u8)
    ensures SampleRange(px, line, pos).1 <= threshold ==> Hits(px, line, pos, threshold) == 0
    decreases line.len - pos
  {
    if pos < line.len {
      NoHitsAbove(px, line, pos + BORDER_SCAN_STEP, threshold);
    }
  }

  // -------------------------------------------------------------------------
  // Depths
  // -------------------------------------------------------------------------

  datatype Depths = Depths(top: nat, bottom: nat, left: nat, right: nat)

  /** The first scanned line in from `edge` that holds picture. */
  ghost predicate IsDepth(f: Frame, edge: Edge, threshold: u8, depth: nat) {
    && depth < Extent(f, edge) && Scanned(depth) && HoldsPicture(f, edge, depth, threshold)
    && forall d: nat :: d < depth && Scanned(d) ==> !HoldsPicture(f, edge, d, threshold)
  }

  ghost predicate AreDepths(f: Frame, threshold: u8, depths: Depths) {
    && IsDepth(f, TopEdge, threshold, depths.top) && IsDepth(f, BottomEdge, threshold, depths.bottom)
    && IsDepth(f, LeftEdge, threshold, depths.left) && IsDepth(f, RightEdge, threshold, depths.right)
  }

  ghost predicate NoPicture(f: Frame, edge: Edge, threshold: u8) {
    forall d: nat :: d < Extent(f, edge) && Scanned(d) ==> !HoldsPicture(f, edge, d, threshold)
  }

  method FindDepth(f: Frame, edge: Edge, threshold: u8) returns (depth: Option<nat>)
    requires f.width <= USIZE_MAX
    ensures depth.Some? ==> IsDepth(f, edge, threshold, depth.value)
    ensures depth.None? ==> NoPicture(f, edge, threshold)
  {
    hide Hits, Lit, LineAt;
    var d := 0;
    while d < Extent(f, edge)
      invariant Scanned(d)
      invariant forall k: nat :: k < d && k < Extent(f, edge) && Scanned(k) ==> !HoldsPicture(f, edge, k, threshold)
      decreases Extent(f, edge) - d
    {
      var content;
      if edge.TopEdge? || edge.BottomEdge? {
        var hits, _, _ := RowHits(f.pixels, LineAt(f, edge, d), threshold);
        content := hits >= BORDER_MIN_HITS;
      } else {
        content := ColHasContent(f.pixels, LineAt(f, edge, d), threshold);
      }
      if content {
        return Some(d);
      }
      d := d + BORDER_SCAN_STEP;
    }
    return None;
  }

  method EdgeDepths(f: Frame, threshold: u8) returns (depths: Option<Depths>)
    requires f.width <= USIZE_MAX
    ensures depths.Some? ==> AreDepths(f, threshold, depths.value)
    ensures depths.None? ==> exists edge :: NoPicture(f, edge, threshold)
  {
    var top := FindDepth(f, TopEdge, threshold);
    if top.None? {
      return None;
    }
    var bottom := FindDepth(f, BottomEdge, threshold);
    if bottom.None? {
      return None;
    }
    var left := FindDepth(f, LeftEdge, threshold);
    if left.None? {
      return None;
    }
    var right := FindDepth(f, RightEdge, threshold);
    if right.None? {
      return None;
    }
    return Some(Depths(top.value, bottom.value, left.value, right.value));
  }

  /** `paired_depth`; `subtitles` is only asked when the far side is the shallower one. */
  function PairedDepth(near: nat, far: nat, subtitles: bool): nat {
    if near == 0 || far == 0 then 0
    else if AbsDiff(near, far) <= BORDER_SYMMETRY_STEPS * BORDER_SCAN_STEP then Min(near, far)
    else if far < near && subtitles then near
    else Min(near, far)
  }

  // -------------------------------------------------------------------------
  // Subtitles
  // -------------------------------------------------------------------------

  /** What the bottom scan meets on one line: bar, content inside the middle of the width, or
      content that reaches out of it. */
  datatype BandLine = Bar | Middle | Wide

  function SubtitleMargin(width: nat): nat {
    ((1.0 - BORDER_SUBTITLE_SPAN) / 2.0 * width as real).Floor
  }

  ghost predicate ReachesOut(f: Frame, line: Line, threshold: u8) {
    exists pos: nat :: pos < line.len && Scanned(pos) && Lit(f.pixels, line, pos, threshold)
      && (pos < SubtitleMargin(f.width) || pos + SubtitleMargin(f.width) >= f.width)
  }

  ghost function BandLineAt(f: Frame, depth: nat, threshold: u8): BandLine
    requires depth < f.height
  {
    if !HoldsPicture(f, BottomEdge, depth, threshold) then Bar
    else if ReachesOut(f, LineAt(f, BottomEdge, depth), threshold) then Wide
    else Middle
  }

  /** The scanned lines of the bottom between two depths. */
  ghost function BandLines(f: Frame, from: nat, to: nat, threshold: u8): seq<BandLine>
    requires to <= f.height
    decreases if from < to then to - from else 0
  {
    if from >= to then []
    else [BandLineAt(f, from, threshold)] + BandLines(f, from + BORDER_SCAN_STEP, to, threshold)
  }

  /** One run of content lines, each inside the middle, and bar after it. */
  ghost predicate OneRun(lines: seq<BandLine>, i: nat, j: nat) {
    && i < j < |lines|
    && forall k: nat :: k < |lines| ==> lines[k] == (if i <= k < j then Middle else Bar)
  }

  ghost predicate SubtitleShape(lines: seq<BandLine>) {
    exists i: nat, j: nat :: OneRun(lines, i, j)
  }

  /** Which run the flags `text` and `gap` have seen in the lines so far. */
  ghost predicate FlagsSee(lines: seq<BandLine>, text: bool, gap: bool, i: nat, j: nat) {
    && (gap ==> text)
    && (!text ==> i == j == |lines|)
    && (text && !gap ==> i < j == |lines|)
    && (gap ==> i < j < |lines|)
    && forall k: nat :: k < |lines| ==> lines[k] == (if i <= k < j then Middle else Bar)
  }

  lemma FlagsDecide(lines: seq<BandLine>, text: bool, gap: bool, i: nat, j: nat)
    requires FlagsSee(lines, text, gap, i, j)
    ensures SubtitleShape(lines) <==> text && gap
  {
    if text && gap {
      assert OneRun(lines, i, j);
    }
    if SubtitleShape(lines) {
      var a: nat, b: nat :| OneRun(lines, a, b);
      assert lines[a] == Middle && lines[b] == Bar && a < b;
    }
  }

  lemma RefusedLine(seen: seq<BandLine>, next: BandLine, rest: seq<BandLine>, text: bool, gap: bool, i: nat, j: nat)
    requires FlagsSee(seen, text, gap, i, j) && (next == Wide || (next == Middle && gap))
    ensures !SubtitleShape(seen + [next] + rest)
  {
    var all := seen + [next] + rest;
    assert all[|seen|] == next;
    assert gap ==> all[i] == Middle && all[j] == Bar;
  }

  method BandIsSubtitles(f: Frame, from: nat, to: nat, threshold: u8) returns (subtitles: bool)
    requires to <= f.height && f.width <= USIZE_MAX
    ensures subtitles <==> SubtitleShape(BandLines(f, from, to, threshold))
  {
    var margin := SubtitleMargin(f.width);
    var text, gap := false, false;
    var depth: int := from;
    ghost var seen: seq<BandLine>, i: nat, j: nat := [], 0, 0;
    assert [] + BandLines(f, from, to, threshold) == BandLines(f, from, to, threshold);
    while depth < to
      invariant depth >= 0
      invariant seen + BandLines(f, depth, to, threshold) == BandLines(f, from, to, threshold)
      invariant FlagsSee(seen, text, gap, i, j)
    {
      var line := LineAt(f, BottomEdge, depth);
      var hits, first, last := RowHits(f.pixels, line, threshold);
      ghost var next := BandLineAt(f, depth, threshold);
      ghost var rest := BandLines(f, depth + BORDER_SCAN_STEP, to, threshold);
      assert BandLines(f, from, to, threshold) == seen + [next] + rest;
      if hits < BORDER_MIN_HITS {
        if !text {
          i, j := |seen| + 1, |seen| + 1;
        }
        gap := gap || text;
      } else if gap || first < margin || last + margin >= f.width {
        RefusedLine(seen, next, rest, text, gap, i, j);
        return false;
      } else {
        if !text {
          i := |seen|;
        }
        j := |seen| + 1;
        text := true;
      }
      seen := seen + [next];
      depth := depth + BORDER_SCAN_STEP;
    }
    assert seen == BandLines(f, from, to, threshold);
    FlagsDecide(seen, text, gap, i, j);
    return text && gap;
  }

  // -------------------------------------------------------------------------
  // Detection
  // -------------------------------------------------------------------------

  /** Bar depths in pixels after pairing opposite edges. */
  ghost function Letterbox(f: Frame, threshold: u8, d: Depths): nat
    requires AreDepths(f, threshold, d)
  {
    PairedDepth(d.top, d.bottom, SubtitleShape(BandLines(f, d.bottom, d.top, threshold)))
  }

  function Pillarbox(d: Depths): nat {
    PairedDepth(d.left, d.right, false)
  }

  /** A depth as a fraction of the frame, capped. */
  function Inset(depth: nat, size: nat): real
    requires size > 0
  {
    var share := depth as real / size as real;
    if share <= BORDER_MAX_INSET then share else BORDER_MAX_INSET
  }

  function InsetsOf(letterbox: nat, pillarbox: nat, f: Frame): Insets
    requires f.width > 0 && f.height > 0
  {
    var rows, cols := Inset(letterbox, f.height), Inset(pillarbox, f.width);
    Insets(rows, rows, cols, cols)
  }

  predicate Measurable(f: Frame) {
    f.width > 0 && f.height > 0 && |f.pixels| >= f.width * f.height
  }

  method DetectBlackBorders(f: Frame, threshold: u8) returns (insets: Option<Insets>, ghost depths: Depths)
    requires f.width <= USIZE_MAX
    ensures !Measurable(f) ==> insets == None
    ensures Measurable(f) && PictureOnEveryEdge(f) ==> insets == Some(NO_INSETS)
    ensures Measurable(f) && !PictureOnEveryEdge(f) ==>
      var t := ChosenThreshold(f, threshold);
      && (insets.None? ==> exists edge :: NoPicture(f, edge, t))
      && (insets.Some? ==> AreDepths(f, t, depths)
                           && insets.value == InsetsOf(Letterbox(f, t, depths), Pillarbox(depths), f))
  {
    depths := Depths(0, 0, 0, 0);
    if f.width == 0 || f.height == 0 || |f.pixels| < f.width * f.height {
      return None, depths;
    }
    if PictureOnEveryEdge(f) {
      return Some(NO_INSETS), depths;
    }
    var t := ChosenThreshold(f, threshold);
    var found := EdgeDepths(f, t);
    if found.None? {
      return None, depths;
    }
    depths := found.value;
    var Depths(top, bottom, left, right) := found.value;
    var subtitles := BandIsSubtitles(f, bottom, top, t);
    var letterbox := PairedDepth(top, bottom, subtitles);
    var pillarbox := PairedDepth(left, right, false);
    return Some(InsetsOf(letterbox, pillarbox, f)), depths;
  }

  // -------------------------------------------------------------------------
  // What the crop removes
  // -------------------------------------------------------------------------

  /** Lines the content rectangle leaves out along an edge. */
  function Cropped(f: Frame, insets: Insets, edge: Edge): int {
    var (rows, cols) := ContentBounds(insets, f.width, f.height);
    match edge
    case TopEdge => rows.start
    case BottomEdge => f.height - rows.end
    case LeftEdge => cols.start
    case RightEdge => f.width - cols.end
  }

  lemma RoundOfWhole(n: nat)
    ensures Round(n as real) == n
  {
  }

  /** Rounding and the cap only ever make a crop shallower, and keep it centred and inside the
      frame. */
  lemma CropOfDepth(depth: nat, size: nat)
    requires depth < size && Scanned(depth)
    ensures
      var inset := Inset(depth, size);
      var crop := Round(size as real * inset);
      && crop == Round(inset * size as real)
      && crop <= depth
      && (depth as real <= BORDER_MAX_INSET * size as real ==> crop == depth)
      && Bounds(size, inset, inset).start == crop
      && Bounds(size, inset, inset).end + crop == size
      && 2 * crop < size
  {
    var share := depth as real / size as real;
    QuotientIs(depth as real, size as real, share);
    CapInProducts(depth, size, share);
    if share <= BORDER_MAX_INSET {
      RoundOfWhole(depth);
    }
  }

  lemma CapInProducts(depth: nat, size: nat, share: real)
    requires size > 0 && share * size as real == depth as real
    ensures share <= BORDER_MAX_INSET <==> depth as real <= BORDER_MAX_INSET * size as real
  {
    ScaleOrder(BORDER_MAX_INSET, share, size as real);
  }

  lemma PairedIsScanned(near: nat, far: nat, subtitles: bool)
    requires Scanned(near) && Scanned(far)
    ensures Scanned(PairedDepth(near, far, subtitles))
    ensures PairedDepth(near, far, subtitles) <= near
    ensures PairedDepth(near, far, subtitles) > far ==> subtitles && PairedDepth(near, far, subtitles) == near
  {
  }

  /** The crop on each edge, in lines. */
  lemma CropsAre(f: Frame, t: u8, d: Depths)
    requires Measurable(f) && AreDepths(f, t, d)
    ensures
      var insets := InsetsOf(Letterbox(f, t, d), Pillarbox(d), f);
      && 0 <= Cropped(f, insets, TopEdge) == Cropped(f, insets, BottomEdge) <= Letterbox(f, t, d)
      && 0 <= Cropped(f, insets, LeftEdge) == Cropped(f, insets, RightEdge) <= Pillarbox(d)
      && 2 * Cropped(f, insets, TopEdge) < f.height && 2 * Cropped(f, insets, LeftEdge) < f.width
  {
    PairedIsScanned(d.top, d.bottom, SubtitleShape(BandLines(f, d.bottom, d.top, t)));
    PairedIsScanned(d.left, d.right, false);
    CropOfDepth(Letterbox(f, t, d), f.height);
    CropOfDepth(Pillarbox(d), f.width);
  }

  /** No scanned line holding picture is ever cropped at the top, left or right. At the bottom one may
      be only where what the scan met there is a single run of lines inside the middle of the width,
      with bar between it and the picture. */
  lemma CropKeepsThePicture(f: Frame, t: u8, d: Depths, edge: Edge, line: nat)
    requires Measurable(f) && AreDepths(f, t, d)
    requires Scanned(line) && line < Extent(f, edge)
    requires line < Cropped(f, InsetsOf(Letterbox(f, t, d), Pillarbox(d), f), edge)
    requires HoldsPicture(f, edge, line, t)
    ensures edge.BottomEdge? && d.bottom <= line < d.top
    ensures d.top <= f.height && SubtitleShape(BandLines(f, d.bottom, d.top, t))
  {
    CropsAre(f, t, d);
    PairedIsScanned(d.top, d.bottom, SubtitleShape(BandLines(f, d.bottom, d.top, t)));
    PairedIsScanned(d.left, d.right, false);
  }
}
