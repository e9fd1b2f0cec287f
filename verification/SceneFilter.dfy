/** One call of the scene filter: every light drawn to the others of its set and to the ambience. */
module SceneFilter {
  import opened Arith
  import opened Frames
  import opened SceneMath
  import opened Wrappers

  datatype Topology = Chain(closed: bool) | Points(pos: seq<(real, real)>)

  datatype Light = Light(lin: Vec3, yuv: Yuv)

  /** What a set of lights remembers between frames. */
  datatype LightSetState = LightSetState(
    rangeSigma: Option<real>, lastMedian: real, lastSpread: real, lastLean: real)
  {
    predicate Valid() {
      rangeSigma.Some? ==> RANGE_SIGMA_MIN <= rangeSigma.value <= RANGE_SIGMA_MAX
    }
  }

  /** What a call reads from the analyzer. */
  datatype Scene = Scene(curves: Curves, ambience: Vec3, interval: nat)

  const RANGE_GAIN: real := 2.0
  const RANGE_SIGMA_MIN: real := 0.35
  const RANGE_SIGMA_MAX: real := 3.0
  const RANGE_ENVELOPE_RATE: real := 0.2
  const CHAIN_RADIUS: nat := 5
  const AMBIENCE_LEAN_MIN: real := 0.05
  const AMBIENCE_LEAN_MAX: real := 0.35
  const CONTRAST_REF: real := 1.5
  const FRESH := LightSetState(None, 0.0, 0.0, 0.0)

  function LightOf(curves: Curves, c: Rgb): Light {
    Light(curves.Linear(c), ToYuv(curves.Linear(c)))
  }

  function LightsOf(curves: Curves, colors: seq<Rgb>): (r: seq<Light>)
    ensures |r| == |colors|
  {
    seq(|colors|, i requires 0 <= i < |colors| => LightOf(curves, colors[i]))
  }

  // -------------------------------------------------------------------------
  // The separation scale
  // -------------------------------------------------------------------------

  function Gap(curves: Curves, a: Yuv, b: Yuv): real {
    curves.sqrt(DistanceSq(a, b))
  }

  lemma GapIsSymmetric(curves: Curves, a: Yuv, b: Yuv)
    ensures Gap(curves, a, b) == Gap(curves, b, a)
  {
    DistanceIsSymmetric(a, b);
  }

  function StripGaps(curves: Curves, s: seq<Light>): seq<real> {
    if s == [] then []
    else seq(|s| - 1, i requires 0 <= i < |s| - 1 => Gap(curves, s[i].yuv, s[i + 1].yuv))
  }

  lemma StripGapsAt(curves: Curves, s: seq<Light>)
    ensures |StripGaps(curves, s)| == if s == [] then 0 else |s| - 1
    ensures forall i: nat :: i + 1 < |s| ==> StripGaps(curves, s)[i] == Gap(curves, s[i].yuv, s[i + 1].yuv)
  {
    hide Gap;
  }

  /** The gaps from light `i` to the placed lights in `i + 1 .. end`. */
  function RowGaps(curves: Curves, s: seq<Light>, placed: nat, i: nat, end: nat): seq<real>
    requires i < end <= |s|
  {
    if end == i + 1 then []
    else
      RowGaps(curves, s, placed, i, end - 1) +
      (if end - 1 < placed then [Gap(curves, s[i].yuv, s[end - 1].yuv)] else [])
  }

  /** The gaps of the pairs whose first light is before `i`. */
  function PairGaps(curves: Curves, s: seq<Light>, placed: nat, i: nat): seq<real>
    requires i <= |s|
  {
    if i == 0 then [] else PairGaps(curves, s, placed, i - 1) + RowGaps(curves, s, placed, i - 1, |s|)
  }

  function ClosingGap(curves: Curves, s: seq<Light>): seq<real> {
    if |s| > 2 then [Gap(curves, s[|s| - 1].yuv, s[0].yuv)] else []
  }

  function Adjacent(curves: Curves, s: seq<Light>, topology: Topology): seq<real> {
    match topology
    case Chain(closed) =>
      StripGaps(curves, s) + if closed then ClosingGap(curves, s) else []
    case Points(pos) => PairGaps(curves, s, |pos|, |s|)
  }

  function Sigma(curves: Curves, prev: Option<real>, interval: nat, median: real): real {
    var target := ClampReal(RANGE_GAIN * median, RANGE_SIGMA_MIN, RANGE_SIGMA_MAX);
    match prev
    case None => target
    case Some(p) => Lerp(p, target, curves.rate(RANGE_ENVELOPE_RATE, interval))
  }

  /** The separation scale never leaves its bounds, so it never divides by zero. */
  lemma SigmaStaysBounded(curves: Curves, prev: Option<real>, interval: nat, median: real)
    requires prev.Some? ==> RANGE_SIGMA_MIN <= prev.value <= RANGE_SIGMA_MAX
    ensures RANGE_SIGMA_MIN <= Sigma(curves, prev, interval, median) <= RANGE_SIGMA_MAX
  {
    if prev.Some? {
      var target := ClampReal(RANGE_GAIN * median, RANGE_SIGMA_MIN, RANGE_SIGMA_MAX);
      LerpBetween(prev.value, target, curves.rate(RANGE_ENVELOPE_RATE, interval), RANGE_SIGMA_MIN, RANGE_SIGMA_MAX);
    }
  }

  // -------------------------------------------------------------------------
  // The bilateral pass
  // -------------------------------------------------------------------------

  /** Reciprocals `1 / 2 sigma^2` of the three kernels. */
  datatype Kernel = Kernel(range: real, chroma: real, luma: real)

  function Inverse2Sq(sigma: real): real
    requires sigma > 0.0
  {
    1.0 / (2.0 * sigma * sigma)
  }

  function KernelOf(topology: Topology, sigma: real): Kernel
    requires sigma > 0.0
  {
    match topology
    case Chain(_) => Kernel(Inverse2Sq(sigma), Inverse2Sq(2.5), Inverse2Sq(1.5))
    case Points(_) => Kernel(Inverse2Sq(sigma), Inverse2Sq(0.6), Inverse2Sq(0.3))
  }

  /** The running sums of one light: weighted colour and luminance with their weights. */
  datatype Acc = Acc(c: Vec3, wc: real, y: real, wy: real) {
    predicate Weighed() {
      wc >= 0.0 && wy >= 0.0
    }
  }

  const NOTHING := Acc(Vec3(0.0, 0.0, 0.0), 0.0, 0.0, 0.0)

  function Plus(a: Acc, b: Acc): Acc {
    Acc(Vec3(a.c.r + b.c.r, a.c.g + b.c.g, a.c.b + b.c.b), a.wc + b.wc, a.y + b.y, a.wy + b.wy)
  }

  function Weighing(l: Light, wc: real, wy: real): Acc {
    Acc(Vec3(wc * l.lin.r, wc * l.lin.g, wc * l.lin.b), wc, wy * l.yuv.y, wy)
  }

  /** A kernel's weight at a squared distance. */
  function Closeness(curves: Curves, distSq: real, inverse: real): (w: real)
    ensures w >= 0.0
  {
    curves.exp(-distSq * inverse)
  }

  /** The contribution of `other` to `me` at squared distance `d`. */
  function Term(curves: Curves, k: Kernel, me: Light, other: Light, d: real): (r: Acc)
    ensures r.Weighed()
  {
    var range := Closeness(curves, DistanceSq(me.yuv, other.yuv), k.range);
    var near := Closeness(curves, d, k.chroma);
    var nearer := Closeness(curves, d, k.luma);
    Product(near, range);
    Product(nearer, range);
    Weighing(other, near * range, nearer * range)
  }

  /** The light `k` places before `i`; round the ring only if the ring is wider than the kernel. */
  function LeftOf(n: nat, closed: bool, i: nat, k: nat): (r: Option<nat>)
    requires i < n && 1 <= k <= CHAIN_RADIUS
    ensures r.Some? ==> r.value < n
  {
    if i >= k then Some(i - k)
    else if closed && n > CHAIN_RADIUS * 2 then Some(n - (k - i))
    else None
  }

  function RightOf(n: nat, closed: bool, i: nat, k: nat): (r: Option<nat>)
    requires i < n && 1 <= k <= CHAIN_RADIUS
    ensures r.Some? ==> r.value < n
  {
    if i + k < n then Some(i + k)
    else if closed && n > CHAIN_RADIUS * 2 then Some(i + k - n)
    else None
  }

  function Side(curves: Curves, k: Kernel, s: seq<Light>, i: nat, at: Option<nat>, d: real): (r: Acc)
    requires i < |s| && (at.Some? ==> at.value < |s|)
    ensures r.Weighed()
  {
    match at
    case None => NOTHING
    case Some(j) => Term(curves, k, s[i], s[j], d)
  }

  function SquaredSteps(k: nat): real {
    (k * k) as real
  }

  /** The neighbours of light `i` along a chain, out to `radius`. */
  function ChainAcc(curves: Curves, k: Kernel, s: seq<Light>, closed: bool, i: nat, radius: nat): (r: Acc)
    requires i < |s| && radius <= CHAIN_RADIUS
    ensures r.Weighed()
  {
    if radius == 0 then NOTHING
    else
      var d := SquaredSteps(radius);
      var inner := ChainAcc(curves, k, s, closed, i, radius - 1);
      var left := Side(curves, k, s, i, LeftOf(|s|, closed, i, radius), d);
      var right := Side(curves, k, s, i, RightOf(|s|, closed, i, radius), d);
      Plus(Plus(inner, left), right)
  }

  lemma ChainAccStarts(curves: Curves, k: Kernel, s: seq<Light>, closed: bool, i: nat)
    requires i < |s|
    ensures ChainAcc(curves, k, s, closed, i, 0) == NOTHING
  {
  }

  lemma ChainAccUnfolds(curves: Curves, k: Kernel, s: seq<Light>, closed: bool, i: nat, radius: nat)
    requires i < |s| && 1 <= radius <= CHAIN_RADIUS
    ensures var d := SquaredSteps(radius);
            ChainAcc(curves, k, s, closed, i, radius) == Plus(
              Plus(
                ChainAcc(curves, k, s, closed, i, radius - 1),
                Side(curves, k, s, i, LeftOf(|s|, closed, i, radius), d)),
              Side(curves, k, s, i, RightOf(|s|, closed, i, radius), d))
  {
  }

  function PlaneDistanceSq(a: (real, real), b: (real, real)): real {
    (a.0 - b.0) * (a.0 - b.0) + (a.1 - b.1) * (a.1 - b.1)
  }

  /** The placed lights before `end` as seen from light `i`. */
  function PointAcc(curves: Curves, k: Kernel, s: seq<Light>, pos: seq<(real, real)>, i: nat, end: nat): (r: Acc)
    requires i < |s| && i < |pos| && end <= |s| && end <= |pos|
    ensures r.Weighed()
  {
    if end == 0 then NOTHING
    else
      var before := PointAcc(curves, k, s, pos, i, end - 1);
      if end - 1 == i then before
      else Plus(before, Term(curves, k, s[i], s[end - 1], PlaneDistanceSq(pos[i], pos[end - 1])))
  }

  function Neighbours(curves: Curves, k: Kernel, s: seq<Light>, topology: Topology, i: nat): (r: Acc)
    requires i < |s|
    ensures r.Weighed()
  {
    match topology
    case Chain(closed) => ChainAcc(curves, k, s, closed, i, CHAIN_RADIUS)
    case Points(pos) => if i < |pos| then PointAcc(curves, k, s, pos, i, Min(|s|, |pos|)) else NOTHING
  }

  /** A light's averages: colour over the wide kernel, luminance over the narrow one. */
  datatype Means = Means(wide: Vec3, yNarrow: real)

  function MeansOf(neighbours: Acc, me: Light): Means
    requires neighbours.Weighed()
  {
    var all := Plus(neighbours, Weighing(me, 1.0, 1.0));
    Means(Vec3(all.c.r / all.wc, all.c.g / all.wc, all.c.b / all.wc), all.y / all.wy)
  }

  /** Chromaticity of the wide mean at the luminance of the narrow one. */
  function Filtered(m: Means): Vec3 {
    Scaled(m.wide, if Luma(m.wide) > 0.000001 then m.yNarrow / Luma(m.wide) else 1.0)
  }

  // -------------------------------------------------------------------------
  // The lean towards the ambience
  // -------------------------------------------------------------------------

  function Distances(curves: Curves, s: seq<Light>, ambience: Vec3): (r: seq<real>)
    ensures |r| == |s|
  {
    seq(|s|, i requires 0 <= i < |s| => Gap(curves, s[i].yuv, ToYuv(ambience)))
  }

  function Spread(curves: Curves, s: seq<Light>, ambience: Vec3): real
    requires s != []
  {
    Sum(Distances(curves, s, ambience)) / |s| as real
  }

  function Lean(spread: real): (r: real)
    ensures AMBIENCE_LEAN_MIN <= r <= AMBIENCE_LEAN_MAX
  {
    var contrast := ClampReal(spread / CONTRAST_REF, 0.0, 1.0);
    AMBIENCE_LEAN_MIN + (AMBIENCE_LEAN_MAX - AMBIENCE_LEAN_MIN) * (1.0 - contrast)
  }

  /** A missing tail of the affinities counts as on the screen. */
  function AffinityAt(affinity: seq<real>, i: nat): (r: real)
    ensures 0.0 <= r <= 1.0
  {
    ClampReal(if i < |affinity| then affinity[i] else 1.0, 0.0, 1.0)
  }

  /** A light's colour before it is quantised. */
  function Blend(filtered: Vec3, ambience: Vec3, affinity: real, lean: real): Vec3 {
    LerpVec(filtered, ambience, 1.0 - affinity * (1.0 - lean))
  }

  // -------------------------------------------------------------------------
  // The whole call
  // -------------------------------------------------------------------------

  function NextState(scene: Scene, s: seq<Light>, topology: Topology, state: LightSetState): (r: LightSetState)
    requires s != []
  {
    var median := Median(Adjacent(scene.curves, s, topology));
    var spread := Spread(scene.curves, s, scene.ambience);
    LightSetState(
      Some(Sigma(scene.curves, state.rangeSigma, scene.interval, median)), median, spread, Lean(spread))
  }

  /** The colour of light `i` before quantisation, given the state this call leaves behind. */
  function Shown(
      scene: Scene, s: seq<Light>, topology: Topology, affinity: real, next: LightSetState, i: nat): Vec3
    requires i < |s| && next.rangeSigma.Some? && next.rangeSigma.value > 0.0
  {
    var k := KernelOf(topology, next.rangeSigma.value);
    var means := MeansOf(Neighbours(scene.curves, k, s, topology, i), s[i]);
    Blend(Filtered(means), scene.ambience, affinity, next.lastLean)
  }

  lemma NextStateIsValid(scene: Scene, s: seq<Light>, topology: Topology, state: LightSetState)
    requires s != [] && state.Valid()
    ensures NextState(scene, s, topology, state).Valid()
  {
    SigmaStaysBounded(
      scene.curves, state.rangeSigma, scene.interval, Median(Adjacent(scene.curves, s, topology)));
  }

  /** `process` as a function: the new colours and the new state. */
  function Process(
      scene: Scene, colors: seq<Rgb>, topology: Topology, affinity: seq<real>, state: LightSetState)
    : (r: (seq<Rgb>, LightSetState))
    requires state.Valid()
    ensures |r.0| == |colors| && r.1.Valid()
  {
    if colors == [] then (colors, state)
    else
      var s := LightsOf(scene.curves, colors);
      var next := NextState(scene, s, topology, state);
      NextStateIsValid(scene, s, topology, state);
      var out := seq(|s|, i requires 0 <= i < |s| =>
        scene.curves.Encoded(Shown(scene, s, topology, AffinityAt(affinity, i), next, i)));
      (out, next)
  }

  lemma NextHasASigma(scene: Scene, s: seq<Light>, topology: Topology, state: LightSetState)
    requires s != [] && state.Valid()
    ensures var next := NextState(scene, s, topology, state); next.rangeSigma.Some? && next.rangeSigma.value > 0.0
  {
    NextStateIsValid(scene, s, topology, state);
    hide Adjacent, Median, Spread, Sigma, Lean;
  }

  lemma ResultOfEach(
      scene: Scene, colors: seq<Rgb>, topology: Topology, affinity: seq<real>, state: LightSetState)
    requires colors != [] && state.Valid()
    ensures
      var s := LightsOf(scene.curves, colors);
      var next := NextState(scene, s, topology, state);
      var (out, after) := Process(scene, colors, topology, affinity, state);
      && next.rangeSigma.Some? && next.rangeSigma.value > 0.0 && after == next
      && forall i: nat :: i < |s| ==>
           out[i] == scene.curves.Encoded(Shown(scene, s, topology, AffinityAt(affinity, i), next, i))
  {
    hide Shown, LightsOf, CurveSet.Encoded, NextState, AffinityAt, CurveSet.Lawful;
    NextHasASigma(scene, LightsOf(scene.curves, colors), topology, state);
  }

  // -------------------------------------------------------------------------
  // The call put together from its passes
  // -------------------------------------------------------------------------

  function Paired(wide: seq<Vec3>, yNarrow: seq<real>): (r: seq<Means>)
    requires |wide| == |yNarrow|
    ensures |r| == |wide|
  {
    seq(|wide|, i requires 0 <= i < |wide| => Means(wide[i], yNarrow[i]))
  }

  ghost predicate Averaged(curves: Curves, k: Kernel, s: seq<Light>, topology: Topology, means: seq<Means>) {
    && |means| == |s|
    && forall i: nat :: i < |s| ==> means[i] == MeansOf(Neighbours(curves, k, s, topology, i), s[i])
  }

  function ColourOf(scene: Scene, m: Means, affinity: real, lean: real): Rgb {
    scene.curves.Encoded(Blend(Filtered(m), scene.ambience, affinity, lean))
  }

  ghost predicate Recoloured(scene: Scene, means: seq<Means>, affinity: seq<real>, lean: real, out: seq<Rgb>) {
    && |out| == |means|
    && forall i: nat :: i < |out| ==> out[i] == ColourOf(scene, means[i], AffinityAt(affinity, i), lean)
  }

  lemma ProcessOfNothing(scene: Scene, topology: Topology, affinity: seq<real>, state: LightSetState)
    requires state.Valid()
    ensures Process(scene, [], topology, affinity, state) == ([], state)
  {
  }

  lemma ProcessIs(
      scene: Scene, colors: seq<Rgb>, topology: Topology, affinity: seq<real>, state: LightSetState,
      next: LightSetState, means: seq<Means>, out: seq<Rgb>)
    requires colors != [] && state.Valid()
    requires next == NextState(scene, LightsOf(scene.curves, colors), topology, state)
    requires next.rangeSigma.Some? && next.rangeSigma.value > 0.0
    requires Averaged(
      scene.curves, KernelOf(topology, next.rangeSigma.value), LightsOf(scene.curves, colors), topology, means)
    requires Recoloured(scene, means, affinity, next.lastLean, out)
    ensures Process(scene, colors, topology, affinity, state) == (out, next)
  {
    var r := Process(scene, colors, topology, affinity, state);
    assert r.1 == next;
    hide LightsOf, NextState, Neighbours, MeansOf, Filtered, Blend, AffinityAt, KernelOf, CurveSet.Encoded;
    forall i: nat | i < |out|
      ensures r.0[i] == out[i]
    {
    }
    assert r.0 == out;
  }
}
