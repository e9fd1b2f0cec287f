/** The scene stage as it runs: one object per worker, filtering every set of lights in place. */
module SceneStage {
  import opened Arith
  import opened Frames
  import opened SceneFilter
  import opened SceneMath
  import opened SceneObserver
  import opened Wrappers

  /** The memory a set of lights carries from frame to frame. */
  class LightSet {
    var rangeSigma: Option<real>
    var lastMedian: real
    var lastSpread: real
    var lastLean: real

    ghost function View(): LightSetState
      reads this
    {
      LightSetState(rangeSigma, lastMedian, lastSpread, lastLean)
    }

    constructor ()
      ensures View() == FRESH && View().Valid()
    {
      rangeSigma, lastMedian, lastSpread, lastLean := None, 0.0, 0.0, 0.0;
    }
  }

  class SceneAnalyzer {
    const curves: Curves
    const histCur: array<nat>
    var histPrev: Option<Histogram>
    var changeEnv: real
    var lastChange: real
    var frameMean: Vec3
    var ambience: Option<Vec3>
    var alpha: real
    var frameInterval: nat
    // Scratch, rebuilt by every call.
    var lin: seq<Vec3>
    var yuv: seq<Yuv>
    var adjacent: seq<real>
    var wide: seq<Vec3>
    var yNarrow: seq<real>

    ghost predicate Valid()
      reads this
    {
      histCur.Length == HIST_BINS
    }

    ghost function View(): Memory
      reads this
    {
      Memory(histPrev, changeEnv, lastChange, frameMean, ambience, alpha, frameInterval)
    }

    constructor (curves: Curves)
      ensures Valid() && fresh(histCur) && View() == NEW_MEMORY && this.curves == curves
    {
      this.curves := curves;
      histCur := new nat[HIST_BINS](i => 0);
      histPrev, changeEnv, lastChange, frameMean := None, 0.0, 0.0, ZERO;
      ambience, alpha, frameInterval := None, 0.0, REFERENCE_INTERVAL;
      lin, yuv, adjacent, wide, yNarrow := [], [], [], [], [];
    }

    method ForgetPreviousFrame()
      requires Valid()
      modifies `histPrev
      ensures Valid() && View() == old(View()).(histPrev := None)
    {
      histPrev := None;
    }

    // -----------------------------------------------------------------------
    // observe_frame_after
    // -----------------------------------------------------------------------

    /** The statistics of one frame; the histogram is left in `histCur`. */
    method Measure(f: Frame, insets: Insets) returns (s: Stats)
      requires Valid()
      modifies histCur
      ensures s == StatsOf(curves, f, insets) && histCur[..] == s.hist
    {
      var k := 0;
      while k < HIST_BINS
        invariant k <= HIST_BINS && forall j :: 0 <= j < k ==> histCur[j] == 0
      {
        histCur[k] := 0;
        k := k + 1;
      }
      assert histCur[..] == NoBins();
      s := NO_STATS;
      if f.width > 0 && f.height > 0 && f.pixels != [] {
        var content := ContentBounds(insets, f.width, f.height);
        s := AbsorbWindow(f, content.0, content.1, s);
      }
    }

    method AbsorbWindow(f: Frame, rows: Range, cols: Range, before: Stats) returns (s: Stats)
      requires Valid() && histCur[..] == before.hist
      modifies histCur
      ensures s == Absorb(curves, before, WindowSamples(f, rows.start, rows.end, cols)) && histCur[..] == s.hist
    {
      hide AddSample, Absorb, RowSamples;
      s := before;
      var row := rows.start;
      while row < rows.end
        invariant histCur[..] == s.hist
        invariant Absorb(curves, s, WindowSamples(f, row, rows.end, cols)) ==
                  Absorb(curves, before, WindowSamples(f, rows.start, rows.end, cols))
      {
        AbsorbInParts(
          curves, s, RowSamples(f, row, cols.start, cols.end), WindowSamples(f, row + STATS_STRIDE, rows.end, cols));
        s := AbsorbRow(f, row, cols, s);
        row := row + STATS_STRIDE;
      }
      AbsorbNothing(curves, s);
    }

    method AbsorbRow(f: Frame, row: nat, cols: Range, before: Stats) returns (s: Stats)
      requires Valid() && histCur[..] == before.hist
      modifies histCur
      ensures s == Absorb(curves, before, RowSamples(f, row, cols.start, cols.end)) && histCur[..] == s.hist
    {
      hide AddSample, Absorb, RowSamples;
      s := before;
      var col := cols.start;
      while col < cols.end
        invariant histCur[..] == s.hist
        invariant Absorb(curves, s, RowSamples(f, row, col, cols.end)) ==
                  Absorb(curves, before, RowSamples(f, row, cols.start, cols.end))
      {
        RowSamplesStep(f, row, col, cols.end);
        var at := row * f.width + col;
        if at < |f.pixels| {
          AbsorbFirst(curves, s, f.pixels[at], RowSamples(f, row, col + STATS_STRIDE, cols.end));
          s := AbsorbPixel(f.pixels[at], s);
        }
        col := col + STATS_STRIDE;
      }
      RowSamplesStep(f, row, col, cols.end);
      AbsorbNothing(curves, s);
    }

    method AbsorbPixel(p: Rgb, before: Stats) returns (s: Stats)
      requires Valid() && histCur[..] == before.hist
      modifies histCur
      ensures s == AddSample(curves, before, p) && histCur[..] == s.hist
    {
      var lin := curves.Linear(p);
      var weight := Weight(p);
      histCur[Bin(p)] := histCur[Bin(p)] + 1;
      s := Stats(
        AddVec(before.sum, lin), AddVec(before.weighted, Scaled(lin, weight)), before.weightTotal + weight,
        histCur[..], before.count + 1);
    }

    /** The summed differences between the current histogram and a previous one. */
    method Difference(prev: Histogram) returns (l1: nat)
      requires Valid()
      ensures l1 == Differences(histCur[..], prev, HIST_BINS)
    {
      l1 := 0;
      for k := 0 to HIST_BINS
        invariant l1 == Differences(histCur[..], prev, k)
      {
        l1 := l1 + AbsDiff(histCur[k], prev[k]);
      }
    }

    method MeasureChange(s: Stats) returns (change: real)
      requires Valid() && histCur[..] == s.hist
      ensures change == Change(s, histPrev)
    {
      change := 0.0;
      if s.count > 0 && histPrev.Some? {
        var l1 := Difference(histPrev.value);
        change := ClampReal(l1 as real / (2.0 * s.count as real), 0.0, 1.0);
      }
    }

    /** The envelope rises at once and falls slowly; from there this frame's rate. */
    method ResolveAlpha(change: real, alphaCeiling: real)
      modifies `lastChange, `changeEnv, `alpha
      ensures lastChange == change
      ensures changeEnv == Envelope(old(changeEnv), change, curves.retention(CHANGE_RELEASE, frameInterval))
      ensures alpha == Alpha(Ceiling(alphaCeiling), changeEnv)
    {
      hide SmoothStep, ClampReal, Lerp;
      var ceiling := ClampReal(alphaCeiling, 0.05, 1.0);
      var floor := ceiling * ALPHA_FLOOR_RATIO;
      lastChange := change;
      changeEnv := if change > changeEnv then change else changeEnv * curves.retention(CHANGE_RELEASE, frameInterval);
      alpha := Lerp(floor, ceiling, SmoothStep(CHANGE_LO, CHANGE_HI, changeEnv));
    }

    method FollowAmbience(target: Vec3)
      modifies `ambience
      ensures ambience == Some(NextAmbience(old(ambience), target, curves.rate(alpha * AMBIENCE_RATE, frameInterval)))
    {
      var rate := curves.rate(alpha * AMBIENCE_RATE, frameInterval);
      match ambience {
        case None => ambience := Some(target);
        case Some(prev) => ambience := Some(LerpVec(prev, target, rate));
      }
    }

    /** One pass over the frame: the change envelope, the rate for the outputs, and the ambience. */
    method ObserveFrameAfter(f: Frame, insets: Insets, alphaCeiling: real, sincePrevious: nat)
      requires Valid()
      modifies this, histCur
      ensures Valid()
      ensures StatsOf(curves, f, insets).count > 0 ==> StatsOf(curves, f, insets).weightTotal > 0.0
      ensures View() == Observe(curves, old(View()), StatsOf(curves, f, insets), alphaCeiling, sincePrevious)
    {
      EverySampleCountsOnce(curves, f, insets);
      hide StatsOf, Target, Divided, Change, Envelope, Alpha, Ceiling, NextAmbience;
      frameInterval := sincePrevious;
      var s := Measure(f, insets);
      var change := MeasureChange(s);
      if s.count > 0 {
        histPrev := Some(s.hist);
        frameMean := Divided(s.sum, s.count as real);
      }
      ResolveAlpha(change, alphaCeiling);
      if s.count > 0 {
        FollowAmbience(Target(frameMean, Divided(s.weighted, s.weightTotal)));
      }
    }

    // -----------------------------------------------------------------------
    // process
    // -----------------------------------------------------------------------

    /** The scratch buffers hold these lights. */
    ghost predicate Loaded(s: seq<Light>)
      reads `lin, `yuv
    {
      |lin| == |yuv| == |s| && forall i :: 0 <= i < |s| ==> s[i] == Light(lin[i], yuv[i])
    }

    method Load(colors: array<Rgb>)
      modifies `lin, `yuv
      ensures Loaded(LightsOf(curves, colors[..]))
    {
      lin, yuv := [], [];
      hide ToYuv, CurveSet.Linear;
      for i := 0 to colors.Length
        invariant |lin| == |yuv| == i
        invariant forall j :: 0 <= j < i ==> Light(lin[j], yuv[j]) == LightOf(curves, colors[j])
      {
        var c := curves.Linear(colors[i]);
        lin, yuv := lin + [c], yuv + [ToYuv(c)];
      }
    }

    method CollectAdjacent(topology: Topology, ghost s: seq<Light>)
      requires Loaded(s) && s != []
      modifies `adjacent
      ensures adjacent == Adjacent(curves, s, topology)
    {
      hide Gap;
      match topology {
        case Chain(closed) => CollectChain(closed, s);
        case Points(pos) => CollectPairs(|pos|, s);
      }
    }

    method CollectChain(closed: bool, ghost s: seq<Light>)
      requires Loaded(s) && s != []
      modifies `adjacent
      ensures adjacent == Adjacent(curves, s, Chain(closed))
    {
      hide Gap;
      var n := |yuv|;
      adjacent := [];
      for i := 0 to n - 1
        invariant |adjacent| == i
        invariant forall j :: 0 <= j < i ==> adjacent[j] == Gap(curves, s[j].yuv, s[j + 1].yuv)
      {
        adjacent := adjacent + [Gap(curves, yuv[i], yuv[i + 1])];
      }
      assert adjacent == StripGaps(curves, s);
      if closed && n > 2 {
        adjacent := adjacent + [Gap(curves, yuv[n - 1], yuv[0])];
      }
    }

    method CollectPairs(placed: nat, ghost s: seq<Light>)
      requires Loaded(s)
      modifies `adjacent
      ensures adjacent == PairGaps(curves, s, placed, |s|)
    {
      hide Gap;
      var n := |yuv|;
      adjacent := [];
      for i := 0 to n
        invariant adjacent == PairGaps(curves, s, placed, i)
      {
        ghost var before := adjacent;
        for j := i + 1 to n
          invariant adjacent == before + RowGaps(curves, s, placed, i, j)
        {
          if placed > i && placed > j {
            adjacent := adjacent + [Gap(curves, yuv[i], yuv[j])];
          }
        }
      }
    }

    method SumChain(k: Kernel, closed: bool, i: nat, ghost s: seq<Light>) returns (acc: Acc)
      requires Loaded(s) && i < |s|
      ensures acc == ChainAcc(curves, k, s, closed, i, CHAIN_RADIUS)
    {
      hide Term;
      var n := |lin|;
      acc := NOTHING;
      for steps := 1 to CHAIN_RADIUS + 1
        invariant acc == ChainAcc(curves, k, s, closed, i, steps - 1)
      {
        var d := SquaredSteps(steps);
        acc := Visit(acc, k, i, LeftOf(n, closed, i, steps), d, s);
        acc := Visit(acc, k, i, RightOf(n, closed, i, steps), d, s);
      }
    }

    method Visit(acc: Acc, k: Kernel, i: nat, at: Option<nat>, d: real, ghost s: seq<Light>) returns (r: Acc)
      requires Loaded(s) && i < |s| && (at.Some? ==> at.value < |s|)
      ensures r == Plus(acc, Side(curves, k, s, i, at, d))
    {
      hide Term;
      r := acc;
      if at.Some? {
        var j := at.value;
        r := Plus(acc, Term(curves, k, Light(lin[i], yuv[i]), Light(lin[j], yuv[j]), d));
      }
    }

    method SumPoints(k: Kernel, pos: seq<(real, real)>, i: nat, ghost s: seq<Light>) returns (acc: Acc)
      requires Loaded(s) && i < |s| && i < |pos|
      ensures acc == PointAcc(curves, k, s, pos, i, Min(|s|, |pos|))
    {
      hide Term, PlaneDistanceSq;
      acc := NOTHING;
      for j := 0 to Min(|lin|, |pos|)
        invariant acc == PointAcc(curves, k, s, pos, i, j)
      {
        if j != i {
          acc := Visit(acc, k, i, Some(j), PlaneDistanceSq(pos[i], pos[j]), s);
        }
      }
    }

    method SumNeighbours(k: Kernel, topology: Topology, i: nat, ghost s: seq<Light>) returns (acc: Acc)
      requires Loaded(s) && i < |s|
      ensures acc == Neighbours(curves, k, s, topology, i)
    {
      hide ChainAcc, PointAcc;
      acc := NOTHING;
      match topology {
        case Chain(closed) => acc := SumChain(k, closed, i, s);
        case Points(pos) =>
          if i < |pos| {
            acc := SumPoints(k, pos, i, s);
          }
      }
    }

    /** The bilateral pass: wide kernel on colour, narrow kernel on luminance. */
    method Relate(k: Kernel, topology: Topology, ghost s: seq<Light>)
      requires Loaded(s)
      modifies `wide, `yNarrow
      ensures |wide| == |yNarrow| && Averaged(curves, k, s, topology, Paired(wide, yNarrow))
    {
      hide Neighbours, MeansOf;
      wide, yNarrow := [], [];
      for i := 0 to |lin|
        invariant |wide| == |yNarrow| == i && Loaded(s)
        invariant forall j :: 0 <= j < i ==>
          Means(wide[j], yNarrow[j]) == MeansOf(Neighbours(curves, k, s, topology, j), s[j])
      {
        var acc := SumNeighbours(k, topology, i, s);
        var m := MeansOf(acc, Light(lin[i], yuv[i]));
        wide, yNarrow := wide + [m.wide], yNarrow + [m.yNarrow];
      }
    }

    method MeasureSpread(towards: Vec3, ghost s: seq<Light>) returns (spread: real)
      requires Loaded(s) && s != []
      ensures spread == Spread(curves, s, towards)
    {
      hide Gap, ToYuv;
      ghost var all := Distances(curves, s, towards);
      var sum := 0.0;
      for i := 0 to |yuv|
        invariant sum == Sum(all[..i])
      {
        sum := sum + Gap(curves, yuv[i], ToYuv(towards));
        assert all[..i + 1] == all[..i] + [all[i]];
        SumOfConcat(all[..i], [all[i]]);
      }
      assert all[..|yuv|] == all;
      spread := sum / |yuv| as real;
    }

    lemma AveragedLength(s: seq<Light>, k: Kernel, topology: Topology)
      requires |wide| == |yNarrow| && Averaged(curves, k, s, topology, Paired(wide, yNarrow))
      ensures |wide| == |s|
    {
    }

    method Recolour(colors: array<Rgb>, towards: Vec3, affinity: seq<real>, lean: real)
      requires |wide| == |yNarrow| == colors.Length
      modifies colors
      ensures Recoloured(Scene(curves, towards, frameInterval), Paired(wide, yNarrow), affinity, lean, colors[..])
    {
      hide ColourOf, AffinityAt;
      ghost var scene := Scene(curves, towards, frameInterval);
      for i := 0 to colors.Length
        invariant forall j: nat :: j < i ==>
          colors[j] == ColourOf(scene, Means(wide[j], yNarrow[j]), AffinityAt(affinity, j), lean)
      {
        colors[i] := ColourOf(
          Scene(curves, towards, frameInterval), Means(wide[i], yNarrow[i]), AffinityAt(affinity, i), lean);
      }
    }

    /** This frame's separation scale, from the adjacent differences. */
    method Rescale(topology: Topology, state: LightSet, ghost s: seq<Light>)
      requires Loaded(s) && s != [] && state.View().Valid()
      modifies `adjacent, state`rangeSigma, state`lastMedian
      ensures var median := Median(Adjacent(curves, s, topology));
              && state.lastMedian == median
              && state.rangeSigma == Some(Sigma(curves, old(state.rangeSigma), frameInterval, median))
      ensures state.rangeSigma.value > 0.0
    {
      hide Adjacent, Median, Sigma;
      CollectAdjacent(topology, s);
      var median := Median(adjacent);
      SigmaStaysBounded(curves, state.rangeSigma, frameInterval, median);
      state.rangeSigma := Some(Sigma(curves, state.rangeSigma, frameInterval, median));
      state.lastMedian := median;
    }

    /** Everything but the colours themselves: the set's new memory, and the means of every light. */
    method Analyse(topology: Topology, towards: Vec3, state: LightSet, ghost s: seq<Light>)
      requires Loaded(s) && s != [] && state.View().Valid()
      modifies state, `adjacent, `wide, `yNarrow
      ensures state.View() == NextState(Scene(curves, towards, frameInterval), s, topology, old(state.View()))
      ensures state.rangeSigma.Some? && state.rangeSigma.value > 0.0
      ensures |wide| == |yNarrow|
      ensures Averaged(curves, KernelOf(topology, state.rangeSigma.value), s, topology, Paired(wide, yNarrow))
    {
      hide Adjacent, Median, Sigma, Spread, Lean, KernelOf, Averaged;
      Rescale(topology, state, s);
      Relate(KernelOf(topology, state.rangeSigma.value), topology, s);
      var spread := MeasureSpread(towards, s);
      state.lastSpread := spread;
      state.lastLean := Lean(spread);
    }

    /** One call of the filter: the array holds the new colours, the set its new memory. */
    method ProcessLights(colors: array<Rgb>, topology: Topology, affinity: seq<real>, state: LightSet)
      requires Valid() && state.View().Valid()
      modifies colors, state, `lin, `yuv, `adjacent, `wide, `yNarrow
      ensures var scene := Scene(curves, old(View().Ambience()), old(frameInterval));
              (colors[..], state.View()) == Process(scene, old(colors[..]), topology, affinity, old(state.View()))
    {
      hide Process, LightsOf, NextState, Averaged, Recoloured, KernelOf;
      var towards := match ambience case Some(a) => a case None => frameMean;
      ghost var scene := Scene(curves, towards, frameInterval);
      ghost var before, was := colors[..], state.View();
      if colors.Length == 0 {
        ProcessOfNothing(scene, topology, affinity, was);
        return;
      }
      ghost var s := LightsOf(curves, before);
      Load(colors);
      Analyse(topology, towards, state, s);
      AveragedLength(s, KernelOf(topology, state.rangeSigma.value), topology);
      Recolour(colors, towards, affinity, state.lastLean);
      ProcessIs(scene, before, topology, affinity, was, state.View(), Paired(wide, yNarrow), colors[..]);
    }
  }
}
