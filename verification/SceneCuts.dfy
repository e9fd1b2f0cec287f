/** What the statistics see of a frame, and that a hard cut between two frames is seen as one. */
module SceneCuts {
  import opened Arith
  import opened Frames
  import opened SceneMath
  import opened SceneObserver
  import opened SceneRuns
  import opened Wrappers

  // -------------------------------------------------------------------------
  // Samples
  // -------------------------------------------------------------------------

  predicate Complete(f: Frame) {
    |f.pixels| >= f.width * f.height
  }

  /** How many of every eighth place from `start` lie before `end`. */
  function Eighths(start: nat, end: nat): (count: nat)
    ensures count > 0 <==> start < end
  {
    if start < end then DivCeil(end - start, STATS_STRIDE) else 0
  }

  lemma EighthsStep(start: nat, end: nat)
    requires start < end
    ensures Eighths(start, end) == Eighths(start + STATS_STRIDE, end) + 1
  {
  }

  lemma PixelIsThere(f: Frame, row: nat, col: nat)
    requires Complete(f) && row < f.height && col < f.width
    ensures row * f.width + col < |f.pixels|
  {
    assert (row + 1) * f.width <= f.height * f.width;
  }

  /** A row of a complete frame is sampled at every eighth pixel, in order. */
  lemma {:induction false} RowIsSampled(f: Frame, row: nat, col: nat, end: nat, i: nat)
    requires Complete(f) && row < f.height && end <= f.width
    ensures |RowSamples(f, row, col, end)| == Eighths(col, end)
    ensures i < Eighths(col, end) ==>
      var at := row * f.width + (col + STATS_STRIDE * i);
      at < |f.pixels| && RowSamples(f, row, col, end)[i] == f.pixels[at]
    decreases if col < end then end - col else 0
  {
    RowSamplesStep(f, row, col, end);
    if col < end {
      EighthsStep(col, end);
      PixelIsThere(f, row, col);
      hide Eighths, RowSamples;
      RowIsSampled(f, row, col + STATS_STRIDE, end, if i > 0 then i - 1 else 0);
    }
  }

  lemma {:induction false} WindowSamplesCount(f: Frame, row: nat, end: nat, cols: Range)
    requires Complete(f) && end <= f.height && cols.end <= f.width
    ensures |WindowSamples(f, row, end, cols)| == Eighths(row, end) * Eighths(cols.start, cols.end)
    decreases if row < end then end - row else 0
  {
    if row < end {
      EighthsStep(row, end);
      RowIsSampled(f, row, cols.start, cols.end, 0);
      hide Eighths, RowSamples;
      WindowSamplesCount(f, row + STATS_STRIDE, end, cols);
      OneMoreTime(Eighths(row + STATS_STRIDE, end), Eighths(cols.start, cols.end));
    }
  }

  lemma OneMoreTime(n: nat, w: nat)
    ensures (n + 1) * w == n * w + w
  {
  }

  lemma WindowStarts(f: Frame, row: nat, end: nat, cols: Range)
    requires row < end
    ensures WindowSamples(f, row, end, cols) ==
      RowSamples(f, row, cols.start, cols.end) + WindowSamples(f, row + STATS_STRIDE, end, cols)
  {
    hide RowSamples;
  }

  /** The samples of a complete frame are the pixels at every eighth row and column of its content, row
      by row: the `i`th of the `j`th row sampled is at `(y, x)`. */
  lemma {:induction false} TheGridIsSampled(
      f: Frame, row: nat, end: nat, cols: Range, j: nat, i: nat, k: nat, y: nat, x: nat)
    requires Complete(f) && end <= f.height && cols.end <= f.width
    requires j < Eighths(row, end) && i < Eighths(cols.start, cols.end)
    requires y == row + STATS_STRIDE * j && x == cols.start + STATS_STRIDE * i
    requires k == j * Eighths(cols.start, cols.end) + i
    ensures k < |WindowSamples(f, row, end, cols)| && y * f.width + x < |f.pixels|
    ensures WindowSamples(f, row, end, cols)[k] == f.pixels[y * f.width + x]
    decreases j
  {
    hide Eighths, RowSamples, WindowSamples;
    var n := Eighths(cols.start, cols.end);
    var first, rest := RowSamples(f, row, cols.start, cols.end), WindowSamples(f, row + STATS_STRIDE, end, cols);
    EighthsStep(row, end);
    RowIsSampled(f, row, cols.start, cols.end, i);
    WindowStarts(f, row, end, cols);
    if j > 0 {
      OneMoreTime(j - 1, n);
      TheGridIsSampled(f, row + STATS_STRIDE, end, cols, j - 1, i, k - n, y, x);
      InTheRest(first, rest, k);
    }
  }

  lemma InTheRest(first: seq<Rgb>, rest: seq<Rgb>, k: nat)
    requires |first| <= k < |first| + |rest|
    ensures (first + rest)[k] == rest[k - |first|]
  {
  }

  // -------------------------------------------------------------------------
  // Colour cells
  // -------------------------------------------------------------------------

  /** Two values in the same quarter of their range. */
  predicate SameQuarter(a: u8, b: u8) {
    exists q :: 0 <= q < 4 && InQuarter(a, q) && InQuarter(b, q)
  }

  predicate InQuarter(a: u8, q: nat) {
    64 * q <= a < 64 * (q + 1)
  }

  lemma QuarterOf(a: u8, q: nat)
    ensures InQuarter(a, q) <==> q == a / 64
  {
  }

  lemma SameQuarterIs(a: u8, b: u8)
    ensures SameQuarter(a, b) <==> a / 64 == b / 64
  {
    QuarterOf(a, a / 64);
    QuarterOf(b, b / 64);
    if SameQuarter(a, b) {
      var q :| 0 <= q < 4 && InQuarter(a, q) && InQuarter(b, q);
      QuarterOf(a, q);
      QuarterOf(b, q);
    }
  }

  /** A bin is a cell of the colour cube: two colours share it exactly if each channel of theirs lies
      in the same quarter. */
  lemma BinsAreColourCells(p: Rgb, q: Rgb)
    ensures Bin(p) == Bin(q) <==> SameQuarter(p.r, q.r) && SameQuarter(p.g, q.g) && SameQuarter(p.b, q.b)
  {
    SameQuarterIs(p.r, q.r);
    SameQuarterIs(p.g, q.g);
    SameQuarterIs(p.b, q.b);
    hide SameQuarter;
    Digits(p.r / 64, p.g / 64, p.b / 64, q.r / 64, q.g / 64, q.b / 64);
  }

  lemma Digits(a: nat, b: nat, c: nat, a': nat, b': nat, c': nat)
    requires a < 4 && b < 4 && c < 4 && a' < 4 && b' < 4 && c' < 4
    ensures a * 16 + b * 4 + c == a' * 16 + b' * 4 + c' <==> a == a' && b == b' && c == c'
  {
  }

  function InBin(samples: seq<Rgb>, bin: nat): nat {
    if samples == [] then 0 else InBin(samples[1..], bin) + if Bin(samples[0]) == bin then 1 else 0
  }

  lemma {:induction false} AbsorbCounts(curves: Curves, s: Stats, samples: seq<Rgb>, bin: nat)
    requires bin < HIST_BINS
    ensures Absorb(curves, s, samples).hist[bin] == s.hist[bin] + InBin(samples, bin)
    decreases |samples|
  {
    if samples != [] {
      hide Bin, Weight;
      AbsorbCounts(curves, AddSample(curves, s, samples[0]), samples[1..], bin);
    }
  }

  /** Each bin holds the number of samples in its cell. */
  lemma TheHistogramCounts(curves: Curves, f: Frame, insets: Insets, bin: nat)
    requires bin < HIST_BINS
    ensures StatsOf(curves, f, insets).hist[bin] == InBin(Samples(f, insets), bin)
  {
    AbsorbCounts(curves, NO_STATS, Samples(f, insets), bin);
  }

  lemma {:induction false} OccupiedBinHasASample(samples: seq<Rgb>, bin: nat)
    ensures InBin(samples, bin) > 0 <==> exists k :: 0 <= k < |samples| && Bin(samples[k]) == bin
  {
    if samples != [] {
      OccupiedBinHasASample(samples[1..], bin);
      hide Bin;
      assert forall k :: 0 < k < |samples| ==> samples[k] == samples[1..][k - 1];
      if Bin(samples[0]) != bin && InBin(samples[1..], bin) > 0 {
        var k :| 0 <= k < |samples[1..]| && Bin(samples[1..][k]) == bin;
        assert samples[k + 1] == samples[1..][k];
      }
    }
  }

  // -------------------------------------------------------------------------
  // Weights
  // -------------------------------------------------------------------------

  function Apart(a: u8, b: u8): nat {
    AbsDiff(a, b)
  }

  /** How far the channels of a colour are apart, at most. */
  lemma SaturationIsTheWidestGap(p: Rgb)
    ensures Apart(p.r, p.g) <= Saturation(p) && Apart(p.g, p.b) <= Saturation(p) && Apart(p.r, p.b) <= Saturation(p)
    ensures Saturation(p) in {Apart(p.r, p.g), Apart(p.g, p.b), Apart(p.r, p.b)}
  {
  }

  /** A grey sample weighs 1, one with a full and an empty channel 3, and more colour weighs more. */
  lemma ColourWeighsMore(p: Rgb, q: Rgb)
    ensures 1.0 <= Weight(p) <= 3.0
    ensures Weight(p) == 1.0 <==> p.r == p.g == p.b
    ensures Weight(p) == 3.0 <==> Saturation(p) == 255
    ensures Weight(p) < Weight(q) <==> Saturation(p) < Saturation(q)
  {
  }

  // -------------------------------------------------------------------------
  // Hard cuts
  // -------------------------------------------------------------------------

  /** No sample of one frame lies in the cell of a sample of the other. */
  ghost predicate NoCellInCommon(a: seq<Rgb>, b: seq<Rgb>) {
    forall i, j :: 0 <= i < |a| && 0 <= j < |b| ==> !SameCell(a[i], b[j])
  }

  predicate SameCell(p: Rgb, q: Rgb) {
    SameQuarter(p.r, q.r) && SameQuarter(p.g, q.g) && SameQuarter(p.b, q.b)
  }

  lemma SameCellIsSameBin(p: Rgb, q: Rgb)
    ensures SameCell(p, q) <==> Bin(p) == Bin(q)
  {
    BinsAreColourCells(p, q);
  }

  /** Some bin holds samples of both. */
  ghost predicate BinInCommon(a: seq<Rgb>, b: seq<Rgb>) {
    exists bin: nat :: bin < HIST_BINS && InBin(a, bin) > 0 && InBin(b, bin) > 0
  }

  lemma CommonCellIsCommonBin(a: seq<Rgb>, b: seq<Rgb>)
    ensures BinInCommon(a, b) <==> !NoCellInCommon(a, b)
  {
    hide SameCell, Bin, InBin;
    if BinInCommon(a, b) {
      var bin: nat :| bin < HIST_BINS && InBin(a, bin) > 0 && InBin(b, bin) > 0;
      OccupiedBinHasASample(a, bin);
      OccupiedBinHasASample(b, bin);
      var i :| 0 <= i < |a| && Bin(a[i]) == bin;
      var j :| 0 <= j < |b| && Bin(b[j]) == bin;
      SameCellIsSameBin(a[i], b[j]);
    }
    if !NoCellInCommon(a, b) {
      var i, j :| 0 <= i < |a| && 0 <= j < |b| && SameCell(a[i], b[j]);
      SameCellIsSameBin(a[i], b[j]);
      OccupiedBinHasASample(a, Bin(a[i]));
      OccupiedBinHasASample(b, Bin(a[i]));
    }
  }

  lemma {:induction false} NothingShared(a: Histogram, b: Histogram, k: nat)
    requires k <= HIST_BINS
    ensures Shared(a, b, k) == 0 <==> forall i :: 0 <= i < k ==> a[i] == 0 || b[i] == 0
  {
    if k > 0 {
      NothingShared(a, b, k - 1);
    }
  }

  lemma WholeChangeOfStats(s: Stats, t: Stats)
    requires Counted(s) && Counted(t) && s.count == t.count > 0
    ensures Change(s, Some(t.hist)) == 1.0 <==> forall i :: 0 <= i < HIST_BINS ==> s.hist[i] == 0 || t.hist[i] == 0
  {
    ChangeIsTheMovedShare(s, t.hist);
    NothingShared(s.hist, t.hist, HIST_BINS);
    hide Shared, Change, Total;
    WholeShare(s.count - Shared(s.hist, t.hist, HIST_BINS), s.count);
  }

  /** The change between two frames of as many samples is whole exactly if they have no cell in
      common. */
  lemma WholeChangeExactly(curves: Curves, a: Event, b: Event)
    requires a.Seen? && b.Seen? && StatsOfEvent(curves, a).count == StatsOfEvent(curves, b).count > 0
    ensures ChangeBetween(curves, b, a) == 1.0 <==>
      NoCellInCommon(Samples(a.frame, a.insets), Samples(b.frame, b.insets))
  {
    hide StatsOf, Samples, Change, Counted, NoCellInCommon, InBin;
    var s, t := StatsOfEvent(curves, b), StatsOfEvent(curves, a);
    EverySampleCountsOnce(curves, a.frame, a.insets);
    EverySampleCountsOnce(curves, b.frame, b.insets);
    WholeChangeOfStats(s, t);
    CommonCellIsCommonBin(Samples(a.frame, a.insets), Samples(b.frame, b.insets));
    forall bin: nat | bin < HIST_BINS
      ensures s.hist[bin] == InBin(Samples(b.frame, b.insets), bin)
      ensures t.hist[bin] == InBin(Samples(a.frame, a.insets), bin)
    {
      TheHistogramCounts(curves, a.frame, a.insets, bin);
      TheHistogramCounts(curves, b.frame, b.insets, bin);
    }
  }

  lemma WholeShare(moved: nat, n: nat)
    requires n > 0
    ensures moved as real / n as real == 1.0 <==> moved == n
  {
    QuotientIs(moved as real, n as real, 1.0);
  }

  /** After any run, a cut from one frame to another with no colour cell in common is measured as a
      whole change; and the outputs follow it at the full rate of the preset, exactly unless the frame
      before was as hard a cut already and the release lets go of all but a trace of that. */
  lemma AHardCutIsFollowedAtOnce(curves: Curves, events: seq<Event>, a: Event, b: Event)
    requires a.Seen? && b.Seen? && StatsOfEvent(curves, a).count == StatsOfEvent(curves, b).count > 0
    requires NoCellInCommon(Samples(a.frame, a.insets), Samples(b.frame, b.insets))
    ensures
      var before, m := Run(curves, events + [a]), Run(curves, events + [a, b]);
      && m.lastChange == 1.0
      && (m.alpha == Ceiling(b.ceiling) <==>
            before.changeEnv < 1.0 || curves.retention(CHANGE_RELEASE, b.since) >= CHANGE_HI)
  {
    hide StatsOfEvent, Samples, After, Alpha, Envelope, Change, NoCellInCommon, Ceiling;
    var before, m := Run(curves, events + [a]), Run(curves, events + [a, b]);
    RunOfOneMore(curves, events, a);
    RunOfOneMore(curves, events + [a], b);
    assert events + [a] + [b] == events + [a, b];
    AfterSeen(curves, Run(curves, events), a);
    AfterSeen(curves, before, b);
    WholeChangeExactly(curves, a, b);
    EveryRunIsSound(curves, events + [a]);
    AfterSetsAlpha(curves, before, b);
    AlphaIsBounded(Ceiling(b.ceiling), m.changeEnv);
    EnvelopeOfAWholeChange(before.changeEnv, curves.retention(CHANGE_RELEASE, b.since));
  }

  lemma RunOfOneMore(curves: Curves, events: seq<Event>, e: Event)
    ensures Run(curves, events + [e]) == After(curves, Run(curves, events), e)
  {
    assert (events + [e])[..|events + [e]| - 1] == events;
  }

  lemma AfterSetsAlpha(curves: Curves, m: Memory, e: Event)
    requires e.Seen?
    ensures After(curves, m, e).alpha == Alpha(Ceiling(e.ceiling), After(curves, m, e).changeEnv)
  {
    hide StatsOf, Change, Envelope, Alpha, Target, Divided;
  }

  lemma EnvelopeOfAWholeChange(env: real, kept: real)
    requires 0.0 <= env <= 1.0
    ensures Envelope(env, 1.0, kept) == if env < 1.0 then 1.0 else kept
  {
  }
}
