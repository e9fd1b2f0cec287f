/** What the scene stage remembers of the frames it has seen: the change envelope, the smoothing
    rate every output must use, and the ambience colour. */
module SceneObserver {
  import opened Arith
  import opened Frames
  import opened SceneMath
  import opened Wrappers

  const STATS_STRIDE: nat := 8
  const HIST_BINS: nat := 64
  const ALPHA_FLOOR_RATIO: real := 0.3
  const CHANGE_RELEASE: real := 0.85
  const CHANGE_LO: real := 0.008
  const CHANGE_HI: real := 0.15
  const AMBIENCE_RATE: real := 0.25
  const AMBIENCE_CHROMA_GAIN: real := 2.0

  type Histogram = h: seq<nat> | |h| == HIST_BINS witness seq(HIST_BINS, i => 0)

  // -------------------------------------------------------------------------
  // One pass over the frame
  // -------------------------------------------------------------------------

  function NoBins(): (h: Histogram)
    ensures forall i :: 0 <= i < HIST_BINS ==> h[i] == 0
  {
    seq(HIST_BINS, i => 0)
  }

  datatype Stats = Stats(sum: Vec3, weighted: Vec3, weightTotal: real, hist: Histogram, count: nat)

  const ZERO := Vec3(0.0, 0.0, 0.0)
  const NO_STATS := Stats(ZERO, ZERO, 0.0, NoBins(), 0)

  /** The top two bits of each channel. */
  function Bin(p: Rgb): (bin: nat)
    ensures bin < HIST_BINS
  {
    p.r / 64 * 16 + p.g / 64 * 4 + p.b / 64
  }

  function Saturation(p: Rgb): (s: nat)
    ensures s < 256
  {
    Max(Max(p.r, p.g), p.b) - Min(Min(p.r, p.g), p.b)
  }

  function Weight(p: Rgb): (w: real)
    ensures w >= 1.0
  {
    1.0 + AMBIENCE_CHROMA_GAIN * (Saturation(p) as real) / 255.0
  }

  function AddVec(a: Vec3, b: Vec3): Vec3 {
    Vec3(a.r + b.r, a.g + b.g, a.b + b.b)
  }

  function AddSample(curves: Curves, s: Stats, p: Rgb): Stats {
    Stats(
      AddVec(s.sum, curves.Linear(p)),
      AddVec(s.weighted, Scaled(curves.Linear(p), Weight(p))),
      s.weightTotal + Weight(p),
      s.hist[Bin(p) := s.hist[Bin(p)] + 1],
      s.count + 1)
  }

  function Absorb(curves: Curves, s: Stats, samples: seq<Rgb>): Stats
    decreases |samples|
  {
    if samples == [] then s else Absorb(curves, AddSample(curves, s, samples[0]), samples[1..])
  }

  lemma AbsorbFirst(curves: Curves, s: Stats, p: Rgb, rest: seq<Rgb>)
    ensures Absorb(curves, s, [p] + rest) == Absorb(curves, AddSample(curves, s, p), rest)
  {
  }

  lemma {:induction false} AbsorbInParts(curves: Curves, s: Stats, a: seq<Rgb>, b: seq<Rgb>)
    ensures Absorb(curves, s, a + b) == Absorb(curves, Absorb(curves, s, a), b)
    decreases |a|
  {
    hide AddSample;
    if a == [] {
      assert a + b == b;
    } else {
      assert (a + b)[1..] == a[1..] + b;
      AbsorbInParts(curves, AddSample(curves, s, a[0]), a[1..], b);
    }
  }

  /** Every eighth pixel of a row from `col`, as far as the buffer reaches. */
  function RowSamples(f: Frame, row: nat, col: nat, end: nat): seq<Rgb>
    decreases if col < end then end - col else 0
  {
    if col >= end then []
    else
      (if row * f.width + col < |f.pixels| then [f.pixels[row * f.width + col]] else []) +
      RowSamples(f, row, col + STATS_STRIDE, end)
  }

  lemma RowSamplesStep(f: Frame, row: nat, col: nat, end: nat)
    ensures RowSamples(f, row, col, end) ==
            if col >= end then []
            else if row * f.width + col < |f.pixels| then
              [f.pixels[row * f.width + col]] + RowSamples(f, row, col + STATS_STRIDE, end)
            else RowSamples(f, row, col + STATS_STRIDE, end)
  {
  }

  lemma AbsorbNothing(curves: Curves, s: Stats)
    ensures Absorb(curves, s, []) == s
  {
  }

  function WindowSamples(f: Frame, row: nat, end: nat, cols: Range): seq<Rgb>
    decreases if row < end then end - row else 0
  {
    if row >= end then []
    else RowSamples(f, row, cols.start, cols.end) + WindowSamples(f, row + STATS_STRIDE, end, cols)
  }

  function Samples(f: Frame, insets: Insets): seq<Rgb> {
    if f.width > 0 && f.height > 0 && f.pixels != [] then
      var content := ContentBounds(insets, f.width, f.height);
      WindowSamples(f, content.0.start, content.0.end, content.1)
    else []
  }

  function StatsOf(curves: Curves, f: Frame, insets: Insets): Stats {
    Absorb(curves, NO_STATS, Samples(f, insets))
  }

  // -------------------------------------------------------------------------
  // From the statistics to the memory
  // -------------------------------------------------------------------------

  /** The summed differences of the first `k` bins. */
  function Differences(a: Histogram, b: Histogram, k: nat): nat
    requires k <= HIST_BINS
  {
    if k == 0 then 0 else Differences(a, b, k - 1) + AbsDiff(a[k - 1], b[k - 1])
  }

  function Change(s: Stats, prev: Option<Histogram>): (r: real)
    ensures 0.0 <= r <= 1.0
  {
    if s.count == 0 || prev.None? then 0.0
    else ClampReal(Differences(s.hist, prev.value, HIST_BINS) as real / (2.0 * s.count as real), 0.0, 1.0)
  }

  /** Rises at once, falls by its retention. */
  function Envelope(env: real, change: real, kept: real): real {
    if change > env then change else env * kept
  }

  function Ceiling(requested: real): (r: real)
    ensures 0.05 <= r <= 1.0
  {
    ClampReal(requested, 0.05, 1.0)
  }

  function Alpha(ceiling: real, env: real): real {
    Lerp(ceiling * ALPHA_FLOOR_RATIO, ceiling, SmoothStep(CHANGE_LO, CHANGE_HI, env))
  }

  function Peak(v: Vec3): real {
    MaxReal(MaxReal(v.r, v.g), v.b)
  }

  lemma BrightHasAPeak(v: Vec3)
    requires Luma(v) >= 0.000001
    ensures Peak(v) > 0.0
  {
  }

  /** As bright as the plain mean, as far as no channel leaves the gamut. */
  function TargetScale(plain: Vec3, weighted: Vec3): real
    requires Luma(weighted) >= 0.000001
  {
    BrightHasAPeak(weighted);
    MinReal(Luma(plain) / Luma(weighted), 1.0 / Peak(weighted))
  }

  /** `ambience_target`: the hue of the weighted mean, as bright as the plain one. */
  function Target(plain: Vec3, weighted: Vec3): Vec3 {
    if Luma(weighted) < 0.000001 then plain else Scaled(weighted, TargetScale(plain, weighted))
  }

  function Divided(v: Vec3, d: real): Vec3
    requires d != 0.0
  {
    Vec3(v.r / d, v.g / d, v.b / d)
  }

  datatype Memory = Memory(
    histPrev: Option<Histogram>,
    changeEnv: real,
    lastChange: real,
    frameMean: Vec3,
    ambience: Option<Vec3>,
    alpha: real,
    interval: nat)
  {
    /** The colour far lights show. */
    function Ambience(): Vec3 {
      match ambience
      case Some(a) => a
      case None => frameMean
    }
  }

  const REFERENCE_INTERVAL: nat := 40
  const NEW_MEMORY := Memory(None, 0.0, 0.0, ZERO, None, 0.0, REFERENCE_INTERVAL)

  function NextAmbience(prev: Option<Vec3>, target: Vec3, rate: real): Vec3 {
    match prev
    case None => target
    case Some(a) => LerpVec(a, target, rate)
  }

  /** `observe_frame_after`, given the frame's statistics. */
  function Observe(curves: Curves, m: Memory, s: Stats, ceiling: real, since: nat): Memory
    requires s.count > 0 ==> s.weightTotal != 0.0
  {
    var change := Change(s, m.histPrev);
    var env := Envelope(m.changeEnv, change, curves.retention(CHANGE_RELEASE, since));
    var alpha := Alpha(Ceiling(ceiling), env);
    if s.count == 0 then m.(changeEnv := env, lastChange := change, alpha := alpha, interval := since)
    else
      var mean := Divided(s.sum, s.count as real);
      var target := Target(mean, Divided(s.weighted, s.weightTotal));
      var rate := curves.rate(alpha * AMBIENCE_RATE, since);
      Memory(Some(s.hist), env, change, mean, Some(NextAmbience(m.ambience, target, rate)), alpha, since)
  }

  // -------------------------------------------------------------------------
  // The statistics
  // -------------------------------------------------------------------------

  predicate VecBetween(lo: Vec3, v: Vec3, hi: Vec3) {
    lo.r <= v.r <= hi.r && lo.g <= v.g <= hi.g && lo.b <= v.b <= hi.b
  }

  predicate VecSpans(lo: Vec3, v: Vec3, w: real, hi: Vec3) {
    Spans(v.r, w, lo.r, hi.r) && Spans(v.g, w, lo.g, hi.g) && Spans(v.b, w, lo.b, hi.b)
  }

  predicate StatsSpan(lo: Vec3, s: Stats, hi: Vec3) {
    VecSpans(lo, s.sum, s.count as real, hi) && VecSpans(lo, s.weighted, s.weightTotal, hi)
  }

  lemma SpansShare(lo: real, x: real, w: real, v: real, w': real, hi: real)
    requires Spans(x, w, lo, hi) && lo <= v <= hi && w' >= 0.0
    ensures Spans(x + Times(v, w'), w + w', lo, hi)
  {
  }

  lemma VecSpansAdd(lo: Vec3, v: Vec3, w: real, v': Vec3, w': real, hi: Vec3)
    requires VecSpans(lo, v, w, hi) && VecBetween(lo, v', hi) && w' >= 0.0
    ensures VecSpans(lo, AddVec(v, Scaled(v', w')), w + w', hi)
  {
    hide Spans, Times;
    SpansShare(lo.r, v.r, w, v'.r, w', hi.r);
    SpansShare(lo.g, v.g, w, v'.g, w', hi.g);
    SpansShare(lo.b, v.b, w, v'.b, w', hi.b);
  }

  ghost predicate SamplesBetween(curves: Curves, lo: Vec3, samples: seq<Rgb>, hi: Vec3) {
    forall i :: 0 <= i < |samples| ==> VecBetween(lo, curves.Linear(samples[i]), hi)
  }

  lemma AddSampleSpans(curves: Curves, lo: Vec3, s: Stats, p: Rgb, hi: Vec3)
    requires StatsSpan(lo, s, hi) && VecBetween(lo, curves.Linear(p), hi)
    ensures StatsSpan(lo, AddSample(curves, s, p), hi)
  {
    hide VecSpans, VecBetween, Weight, Bin, Scaled, AddVec, CurveSet.Linear, CurveSet.Lawful;
    ShareSpans(lo, s, curves.Linear(p), Weight(p), hi);
  }

  lemma ShareSpans(lo: Vec3, s: Stats, v: Vec3, w: real, hi: Vec3)
    requires StatsSpan(lo, s, hi) && VecBetween(lo, v, hi) && w >= 0.0
    ensures VecSpans(lo, AddVec(s.sum, v), (s.count + 1) as real, hi)
    ensures VecSpans(lo, AddVec(s.weighted, Scaled(v, w)), s.weightTotal + w, hi)
  {
    assert Scaled(v, 1.0) == v;
    assert (s.count + 1) as real == s.count as real + 1.0;
    hide VecSpans, Scaled, AddVec, VecBetween;
    VecSpansAdd(lo, s.sum, s.count as real, v, 1.0, hi);
    VecSpansAdd(lo, s.weighted, s.weightTotal, v, w, hi);
  }

  predicate Counted(s: Stats) {
    s.weightTotal >= s.count as real && Total(s.hist, HIST_BINS) == s.count
  }

  /** The sum of the first `k` bins. */
  function Total(h: Histogram, k: nat): nat
    requires k <= HIST_BINS
  {
    if k == 0 then 0 else Total(h, k - 1) + h[k - 1]
  }

  lemma {:induction false} TotalOfUpdate(h: Histogram, bin: nat, k: nat)
    requires bin < HIST_BINS && k <= HIST_BINS
    ensures Total(h[bin := h[bin] + 1], k) == Total(h, k) + if bin < k then 1 else 0
  {
    if k > 0 {
      TotalOfUpdate(h, bin, k - 1);
    }
  }

  lemma {:induction false} NoBinsTotal(k: nat)
    requires k <= HIST_BINS
    ensures Total(NoBins(), k) == 0
  {
    if k > 0 {
      NoBinsTotal(k - 1);
    }
  }

  lemma AddSampleCounts(curves: Curves, s: Stats, p: Rgb)
    requires Counted(s)
    ensures Counted(AddSample(curves, s, p))
  {
    TotalOfUpdate(s.hist, Bin(p), HIST_BINS);
    hide Bin, Weight, Total;
  }

  lemma {:induction false} AbsorbKeeps(curves: Curves, lo: Vec3, s: Stats, samples: seq<Rgb>, hi: Vec3)
    requires Counted(s) && StatsSpan(lo, s, hi) && SamplesBetween(curves, lo, samples, hi)
    ensures var r := Absorb(curves, s, samples);
            Counted(r) && StatsSpan(lo, r, hi) && r.count == s.count + |samples|
    decreases |samples|
  {
    if samples != [] {
      hide StatsSpan, Counted, VecBetween;
      AddSampleCounts(curves, s, samples[0]);
      AddSampleSpans(curves, lo, s, samples[0], hi);
      assert AddSample(curves, s, samples[0]).count == s.count + 1;
      hide AddSample;
      AbsorbKeeps(curves, lo, AddSample(curves, s, samples[0]), samples[1..], hi);
    }
  }

  const WHITE := Vec3(1.0, 1.0, 1.0)

  lemma SamplesInGamut(curves: Curves, samples: seq<Rgb>)
    ensures SamplesBetween(curves, ZERO, samples, WHITE)
  {
  }

  /** Every sample is counted once, in one bin. */
  lemma EverySampleCountsOnce(curves: Curves, f: Frame, insets: Insets)
    ensures var s := StatsOf(curves, f, insets);
            Counted(s) && s.count == |Samples(f, insets)|
  {
    SamplesInGamut(curves, Samples(f, insets));
    NoBinsTotal(HIST_BINS);
    AbsorbKeeps(curves, ZERO, NO_STATS, Samples(f, insets), WHITE);
  }

  lemma DividedBetween(lo: Vec3, v: Vec3, w: real, hi: Vec3)
    requires VecSpans(lo, v, w, hi) && w > 0.0
    ensures VecBetween(lo, Divided(v, w), hi)
  {
    SpansMean(v.r, w, lo.r, hi.r);
    SpansMean(v.g, w, lo.g, hi.g);
    SpansMean(v.b, w, lo.b, hi.b);
    hide Spans;
  }

  /** Both means of a frame lie between its least and greatest samples. */
  lemma MeansStayBetweenTheSamples(curves: Curves, f: Frame, insets: Insets, lo: Vec3, hi: Vec3)
    requires SamplesBetween(curves, lo, Samples(f, insets), hi) && Samples(f, insets) != []
    ensures var s := StatsOf(curves, f, insets);
            && s.count > 0 && s.weightTotal > 0.0
            && VecBetween(lo, Divided(s.sum, s.count as real), hi)
            && VecBetween(lo, Divided(s.weighted, s.weightTotal), hi)
  {
    NoBinsTotal(HIST_BINS);
    AbsorbKeeps(curves, lo, NO_STATS, Samples(f, insets), hi);
    var s := StatsOf(curves, f, insets);
    DividedBetween(lo, s.sum, s.count as real, hi);
    DividedBetween(lo, s.weighted, s.weightTotal, hi);
  }

  // -------------------------------------------------------------------------
  // The change between two frames
  // -------------------------------------------------------------------------

  /** What two histograms share, over the first `k` bins. */
  function Shared(a: Histogram, b: Histogram, k: nat): nat
    requires k <= HIST_BINS
  {
    if k == 0 then 0 else Shared(a, b, k - 1) + Min(a[k - 1], b[k - 1])
  }

  lemma {:induction false} DifferencesAreTheUnshared(a: Histogram, b: Histogram, k: nat)
    requires k <= HIST_BINS
    ensures Differences(a, b, k) + 2 * Shared(a, b, k) == Total(a, k) + Total(b, k)
  {
    if k > 0 {
      DifferencesAreTheUnshared(a, b, k - 1);
    }
  }

  lemma {:induction false} SharedAtMostTotal(a: Histogram, b: Histogram, k: nat)
    requires k <= HIST_BINS
    ensures Shared(a, b, k) <= Total(a, k)
  {
    if k > 0 {
      SharedAtMostTotal(a, b, k - 1);
    }
  }

  lemma {:induction false} NoDifferenceIsEqual(a: Histogram, b: Histogram, k: nat)
    requires k <= HIST_BINS
    ensures Differences(a, b, k) == 0 <==> a[..k] == b[..k]
  {
    if k > 0 {
      NoDifferenceIsEqual(a, b, k - 1);
      assert a[..k] == a[..k - 1] + [a[k - 1]] && b[..k] == b[..k - 1] + [b[k - 1]];
    }
  }

  /** Between two frames of as many samples the change is the share of samples that left their bin;
      it needs no clamping. */
  lemma ChangeIsTheMovedShare(s: Stats, prev: Histogram)
    requires s.count > 0 && Counted(s) && Total(prev, HIST_BINS) == s.count
    ensures Change(s, Some(prev)) == (s.count - Shared(s.hist, prev, HIST_BINS)) as real / s.count as real
  {
    DifferencesAreTheUnshared(s.hist, prev, HIST_BINS);
    SharedAtMostTotal(s.hist, prev, HIST_BINS);
    HalvedShare(Differences(s.hist, prev, HIST_BINS), s.count - Shared(s.hist, prev, HIST_BINS), s.count);
    hide Differences, Shared, Total;
  }

  lemma HalvedShare(twice: nat, once: nat, n: nat)
    requires n > 0 && twice == 2 * once && once <= n
    ensures twice as real / (2.0 * n as real) == once as real / n as real
    ensures 0.0 <= once as real / n as real <= 1.0
  {
    var x, z := once as real, n as real;
    ShareInUnit(x, z);
    QuotientIs(x, z, x / z);
    QuotientIs(2.0 * x, 2.0 * z, x / z);
  }

  /** A frame measures no change exactly when its histogram is the previous one, or there is none to
      compare. */
  lemma NoChangeExactlyWhenTheSameHistogram(s: Stats, prev: Option<Histogram>)
    ensures Change(s, prev) == 0.0 <==> s.count == 0 || prev.None? || s.hist == prev.value
  {
    if s.count > 0 && prev.Some? {
      NoDifferenceIsEqual(s.hist, prev.value, HIST_BINS);
      assert s.hist[..HIST_BINS] == s.hist && prev.value[..HIST_BINS] == prev.value;
      hide Differences;
      var x, n := Differences(s.hist, prev.value, HIST_BINS) as real, 2.0 * s.count as real;
      QuotientOrder(0.0, x, n);
      QuotientIs(0.0, n, 0.0);
    }
  }

  lemma {:induction false} DifferencesAreSymmetric(a: Histogram, b: Histogram, k: nat)
    requires k <= HIST_BINS
    ensures Differences(a, b, k) == Differences(b, a, k)
  {
    if k > 0 {
      DifferencesAreSymmetric(a, b, k - 1);
    }
  }

  /** Between two frames of as many samples the change is the same there and back. */
  lemma ChangeIsSymmetric(s: Stats, t: Stats)
    requires s.count == t.count
    ensures Change(s, Some(t.hist)) == Change(t, Some(s.hist))
  {
    DifferencesAreSymmetric(s.hist, t.hist, HIST_BINS);
  }

  /** The envelope covers the change exactly when the change attacks or the release has not yet
      fallen below it: a second cut as strong as the last can leave it lower than the change. */
  lemma EnvelopeCoversTheChange(env: real, change: real, kept: real)
    ensures Envelope(env, change, kept) >= change <==> change > env || change <= env * kept
  {
  }

  // -------------------------------------------------------------------------
  // The smoothing rate
  // -------------------------------------------------------------------------

  /** The smoothing rate stays between three tenths of the clamped ceiling and the ceiling, reaches
      the ceiling exactly on a hard change and the floor exactly in stillness. */
  lemma AlphaIsBounded(ceiling: real, env: real)
    requires 0.05 <= ceiling <= 1.0
    ensures ceiling * ALPHA_FLOOR_RATIO <= Alpha(ceiling, env) <= ceiling
    ensures Alpha(ceiling, env) == ceiling <==> env >= CHANGE_HI
    ensures Alpha(ceiling, env) == ceiling * ALPHA_FLOOR_RATIO <==> env <= CHANGE_LO
  {
    hide SmoothStep, Lerp;
    SmoothStepEnds(CHANGE_LO, CHANGE_HI, env);
    LerpEnds(ceiling * ALPHA_FLOOR_RATIO, ceiling, SmoothStep(CHANGE_LO, CHANGE_HI, env));
  }

  // -------------------------------------------------------------------------
  // The ambience
  // -------------------------------------------------------------------------

  predicate InGamut(v: Vec3) {
    VecBetween(ZERO, v, WHITE)
  }

  lemma ScaledLuma(v: Vec3, t: real)
    ensures Luma(Scaled(v, t)) == Times(Luma(v), t)
  {
  }

  lemma ScaledInGamut(v: Vec3, t: real)
    requires InGamut(v) && Peak(v) > 0.0 && 0.0 <= t <= 1.0 / Peak(v)
    ensures InGamut(Scaled(v, t))
  {
    hide Times;
    ChannelInGamut(v.r, Peak(v), t);
    ChannelInGamut(v.g, Peak(v), t);
    ChannelInGamut(v.b, Peak(v), t);
  }

  lemma ChannelInGamut(c: real, peak: real, t: real)
    requires 0.0 <= c <= peak && peak > 0.0 && 0.0 <= t <= 1.0 / peak
    ensures 0.0 <= Times(c, t) <= 1.0
  {
  }

  lemma LumaInUnit(v: Vec3)
    requires InGamut(v)
    ensures 0.0 <= Luma(v) <= 1.0
  {
  }

  /** Scaled to luminance `y`, no channel of `v` leaves the gamut. */
  predicate FitsAt(y: real, v: Vec3) {
    y * v.r <= Luma(v) && y * v.g <= Luma(v) && y * v.b <= Luma(v)
  }

  predicate PeakFitsAt(y: real, v: Vec3) {
    y * Peak(v) <= Luma(v)
  }

  lemma FitsAtThePeak(y: real, v: Vec3)
    requires y >= 0.0
    ensures FitsAt(y, v) <==> PeakFitsAt(y, v)
  {
    hide Luma;
    PeakGrows(y, v.r, Peak(v));
    PeakGrows(y, v.g, Peak(v));
    PeakGrows(y, v.b, Peak(v));
  }

  lemma PeakGrows(y: real, c: real, peak: real)
    requires y >= 0.0 && c <= peak
    ensures y * c <= y * peak
  {
  }

  predicate OneHue(v: Vec3, w: Vec3) {
    v.r * w.g == v.g * w.r && v.g * w.b == v.b * w.g && v.r * w.b == v.b * w.r
  }

  lemma ScalingKeepsTheHue(v: Vec3, t: real)
    ensures OneHue(Scaled(v, t), v)
  {
  }

  /** The target has the weighted mean's hue, and is dimmer than the plain mean only when one of its
      channels is full. */
  lemma TargetKeepsTheHue(plain: Vec3, weighted: Vec3)
    requires InGamut(plain) && InGamut(weighted) && Luma(weighted) >= 0.000001
    ensures OneHue(Target(plain, weighted), weighted)
    ensures Luma(Target(plain, weighted)) < Luma(plain) ==> Peak(Target(plain, weighted)) == 1.0
  {
    LumaInUnit(plain);
    BrightHasAPeak(weighted);
    var t := TargetScale(plain, weighted);
    ScalingKeepsTheHue(weighted, t);
    ScaledLuma(weighted, t);
    hide Luma, OneHue, InGamut;
    TargetScaleFits(plain, weighted);
    if Times(Luma(weighted), t) < Luma(plain) {
      LesserIsTheCap(Luma(plain), Luma(weighted), Peak(weighted));
      FullPeak(weighted);
    }
  }

  lemma LesserIsTheCap(wanted: real, y: real, peak: real)
    requires wanted >= 0.0 && y > 0.0 && peak > 0.0
    ensures Times(y, MinReal(wanted / y, 1.0 / peak)) < wanted ==> MinReal(wanted / y, 1.0 / peak) == 1.0 / peak
  {
    QuotientIs(wanted, y, wanted / y);
  }

  lemma FullPeak(v: Vec3)
    requires Peak(v) > 0.0
    ensures Peak(Scaled(v, 1.0 / Peak(v))) == 1.0
  {
    QuotientIs(1.0, Peak(v), 1.0 / Peak(v));
    PeakGrows(1.0 / Peak(v), v.r, Peak(v));
    PeakGrows(1.0 / Peak(v), v.g, Peak(v));
    PeakGrows(1.0 / Peak(v), v.b, Peak(v));
  }

  /** The ambience target is a colour, and no brighter than the plain mean. */
  lemma TargetIsNoBrighter(plain: Vec3, weighted: Vec3)
    requires InGamut(plain) && InGamut(weighted)
    ensures InGamut(Target(plain, weighted))
    ensures Luma(Target(plain, weighted)) <= Luma(plain)
    ensures Luma(Target(plain, weighted)) == Luma(plain) <==>
            Luma(weighted) < 0.000001 || FitsAt(Luma(plain), weighted)
  {
    if Luma(weighted) >= 0.000001 {
      LumaInUnit(plain);
      BrightHasAPeak(weighted);
      FitsAtThePeak(Luma(plain), weighted);
      hide FitsAt, PeakFitsAt, Luma, Peak, InGamut, Scaled, TargetScale, Times;
      TargetScaleFits(plain, weighted);
      ScaledInGamut(weighted, TargetScale(plain, weighted));
      ScaledLuma(weighted, TargetScale(plain, weighted));
    }
  }

  lemma TargetScaleFits(plain: Vec3, weighted: Vec3)
    requires Luma(weighted) >= 0.000001 && Luma(plain) >= 0.0 && Peak(weighted) > 0.0
    ensures 0.0 <= TargetScale(plain, weighted) <= 1.0 / Peak(weighted)
    ensures Times(Luma(weighted), TargetScale(plain, weighted)) <= Luma(plain)
    ensures Times(Luma(weighted), TargetScale(plain, weighted)) == Luma(plain) <==>
            PeakFitsAt(Luma(plain), weighted)
  {
    hide Luma, Peak;
    LesserScale(Luma(plain), Luma(weighted), Peak(weighted));
  }

  lemma LesserScale(wanted: real, y: real, peak: real)
    requires wanted >= 0.0 && y > 0.0 && peak > 0.0
    ensures var t := MinReal(wanted / y, 1.0 / peak);
            0.0 <= t <= 1.0 / peak && y * t <= wanted && (y * t == wanted <==> wanted * peak <= y)
  {
  }

  lemma FullExactlyBelowTheCap(wanted: real, y: real, peak: real)
    requires y > 0.0 && peak > 0.0
    ensures wanted / y <= 1.0 / peak <==> wanted * peak <= y
  {
  }

  /** When both means agree the target is that colour. */
  lemma TargetOfOneColour(v: Vec3)
    requires InGamut(v)
    ensures Target(v, v) == v
  {
    if Luma(v) >= 0.000001 {
      BrightHasAPeak(v);
      QuotientIs(Luma(v), Luma(v), 1.0);
      FullExactlyBelowTheCap(Peak(v), Peak(v), Peak(v));
      QuotientIs(Peak(v), Peak(v), 1.0);
    }
  }

  // -------------------------------------------------------------------------
  // Over any run
  // -------------------------------------------------------------------------

  ghost predicate Sound(m: Memory) {
    && 0.0 <= m.changeEnv <= 1.0
    && 0.0 <= m.lastChange <= 1.0
    && InGamut(m.frameMean)
    && (m.ambience.Some? ==> InGamut(m.ambience.value))
  }

  lemma ObserveKeepsSound(curves: Curves, m: Memory, f: Frame, insets: Insets, ceiling: real, since: nat)
    requires Sound(m)
    ensures var s := StatsOf(curves, f, insets);
            && (s.count > 0 ==> s.weightTotal > 0.0)
            && Sound(Observe(curves, m, s, ceiling, since))
  {
    hide Sound, StatsOf, Samples, Change, Divided, VecBetween, Observe, Counted;
    var s := StatsOf(curves, f, insets);
    EverySampleCountsOnce(curves, f, insets);
    if s.count == 0 {
      ObserveNothing(curves, m, s, ceiling, since);
    } else {
      SamplesInGamut(curves, Samples(f, insets));
      MeansStayBetweenTheSamples(curves, f, insets, ZERO, WHITE);
      InGamutIsBetween(Divided(s.sum, s.count as real));
      InGamutIsBetween(Divided(s.weighted, s.weightTotal));
      ObserveSamples(curves, m, s, ceiling, since);
    }
  }

  lemma InGamutIsBetween(v: Vec3)
    ensures VecBetween(ZERO, v, WHITE) <==> InGamut(v)
  {
  }

  lemma ObserveNothing(curves: Curves, m: Memory, s: Stats, ceiling: real, since: nat)
    requires Sound(m) && Counted(s) && s.count == 0
    ensures Sound(Observe(curves, m, s, ceiling, since))
  {
    hide Counted, Change, Envelope, Alpha, InGamut;
    EnvelopeInUnit(m.changeEnv, Change(s, m.histPrev), curves.retention(CHANGE_RELEASE, since));
  }

  lemma ObserveSamples(curves: Curves, m: Memory, s: Stats, ceiling: real, since: nat)
    requires Sound(m) && Counted(s) && s.count > 0 && s.weightTotal > 0.0
    requires InGamut(Divided(s.sum, s.count as real)) && InGamut(Divided(s.weighted, s.weightTotal))
    ensures Sound(Observe(curves, m, s, ceiling, since))
  {
    hide Counted, Change, Envelope, Alpha, InGamut, Divided, Target, NextAmbience, Luma, Peak;
    EnvelopeInUnit(m.changeEnv, Change(s, m.histPrev), curves.retention(CHANGE_RELEASE, since));
    var plain, weighted := Divided(s.sum, s.count as real), Divided(s.weighted, s.weightTotal);
    TargetIsNoBrighter(plain, weighted);
    var alpha := Observe(curves, m, s, ceiling, since).alpha;
    NextAmbienceInGamut(m.ambience, Target(plain, weighted), curves.rate(alpha * AMBIENCE_RATE, since));
  }

  lemma EnvelopeInUnit(env: real, change: real, kept: real)
    requires 0.0 <= env <= 1.0 && 0.0 <= change <= 1.0 && 0.0 <= kept <= 1.0
    ensures 0.0 <= Envelope(env, change, kept) <= 1.0
  {
    Product(env, kept);
    Product(env, 1.0 - kept);
  }

  lemma NextAmbienceInGamut(prev: Option<Vec3>, target: Vec3, rate: real)
    requires (prev.Some? ==> InGamut(prev.value)) && InGamut(target) && 0.0 <= rate <= 1.0
    ensures InGamut(NextAmbience(prev, target, rate))
  {
    if prev.Some? {
      LerpInGamut(prev.value, target, rate);
    }
  }

  lemma LerpInGamut(a: Vec3, b: Vec3, t: real)
    requires InGamut(a) && InGamut(b) && 0.0 <= t <= 1.0
    ensures InGamut(LerpVec(a, b, t))
  {
    LerpBetween(a.r, b.r, t, 0.0, 1.0);
    LerpBetween(a.g, b.g, t, 0.0, 1.0);
    LerpBetween(a.b, b.b, t, 0.0, 1.0);
    hide Lerp;
  }
}
