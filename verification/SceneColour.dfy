/** What the filter does to colour: averages stay between the lights, a far light shows the ambience,
    and a set that already shows the ambience keeps it. */
module SceneColour {
  import opened Arith
  import opened Frames
  import opened SceneFilter
  import opened SceneGroups
  import opened SceneMath
  import opened Wrappers

  // -------------------------------------------------------------------------
  // Averages stay between the lights
  // -------------------------------------------------------------------------

  ghost predicate AllBetween(lo: Light, s: seq<Light>, hi: Light) {
    forall j :: 0 <= j < |s| ==> LightBetween(lo, s[j], hi)
  }

  /** The bilateral pass invents nothing: every channel of a light's wide mean and its narrow
      luminance lie between the least and the greatest of the set. */
  lemma MeansStayBetweenTheLights(
      curves: Curves, k: Kernel, s: seq<Light>, topology: Topology, i: nat, lo: Light, hi: Light)
    requires AllBetween(lo, s, hi) && i < |s|
    ensures var m := MeansOf(Neighbours(curves, k, s, topology, i), s[i]);
            && lo.lin.r <= m.wide.r <= hi.lin.r
            && lo.lin.g <= m.wide.g <= hi.lin.g
            && lo.lin.b <= m.wide.b <= hi.lin.b
            && lo.yuv.y <= m.yNarrow <= hi.yuv.y
  {
    hide Neighbours, LightBetween, MeansOf, Unlike;
    MeansStayWithTheirOwn(curves, k, s, topology, i, lo, hi, 0.0);
  }

  /** Unless the wide mean is black, the filtered light has exactly the narrow mean's luminance. */
  lemma FilteredHasTheNarrowLuminance(m: Means)
    requires Luma(m.wide) > 0.000001
    ensures Luma(Filtered(m)) == m.yNarrow
  {
  }

  // -------------------------------------------------------------------------
  // How strongly a neighbour counts
  // -------------------------------------------------------------------------

  lemma WeightOrder(near: real, nearer: real, range: real)
    requires 0.0 <= nearer <= near <= 1.0 && 0.0 <= range <= 1.0
    ensures nearer * range <= near * range <= 1.0
  {
    Product(near - nearer, range);
    Product(1.0 - near, range);
  }

  lemma KernelsAreOrdered(topology: Topology, sigma: real)
    requires sigma > 0.0
    ensures var k := KernelOf(topology, sigma); 0.0 < k.chroma <= k.luma && k.range >= 0.0
  {
    Product(sigma, sigma);
    Positive(sigma, sigma);
    QuotientIs(1.0, Times(sigma, sigma) * 2.0, 0.0);
    ScaleOrder(0.0, Inverse2Sq(sigma), 2.0 * sigma * sigma);
  }

  lemma ClosenessFalls(curves: Curves, distSq: real, wide: real, narrow: real)
    requires distSq >= 0.0 && 0.0 <= wide <= narrow
    ensures Closeness(curves, distSq, narrow) <= Closeness(curves, distSq, wide) <= 1.0
  {
  }

  /** A neighbour never counts more than the light itself, and never more towards its luminance than
      towards its colour. */
  lemma NeighboursCountLess(
      curves: Curves, topology: Topology, sigma: real, me: Light, other: Light, d: real)
    requires sigma > 0.0 && d >= 0.0
    ensures var t := Term(curves, KernelOf(topology, sigma), me, other, d); t.wy <= t.wc <= 1.0
  {
    hide KernelOf, DistanceSq, Closeness;
    KernelsAreOrdered(topology, sigma);
    var k, apart := KernelOf(topology, sigma), DistanceSq(me.yuv, other.yuv);
    DistanceIsNotNegative(me.yuv, other.yuv);
    ClosenessFalls(curves, apart, k.range, k.range);
    ClosenessFalls(curves, d, k.chroma, k.luma);
    WeightOrder(Closeness(curves, d, k.chroma), Closeness(curves, d, k.luma), Closeness(curves, apart, k.range));
  }

  lemma SideCountsLess(
      curves: Curves, topology: Topology, sigma: real, s: seq<Light>, i: nat, at: Option<nat>, d: real)
    requires sigma > 0.0 && d >= 0.0 && i < |s| && (at.Some? ==> at.value < |s|)
    ensures var a := Side(curves, KernelOf(topology, sigma), s, i, at, d); a.wy <= a.wc <= 1.0
  {
    hide KernelOf, Term;
    if at.Some? {
      NeighboursCountLess(curves, topology, sigma, s[i], s[at.value], d);
    }
  }

  /** On a strip a light's own weight of 1 meets at most 10 from its neighbours, and they pull on its
      luminance no harder than on its colour. */
  lemma {:induction false} OwnColourCounts(
      curves: Curves, closed: bool, sigma: real, s: seq<Light>, i: nat, radius: nat)
    requires sigma > 0.0 && i < |s| && radius <= CHAIN_RADIUS
    ensures var a := ChainAcc(curves, KernelOf(Chain(closed), sigma), s, closed, i, radius);
            a.wy <= a.wc <= (2 * radius) as real
  {
    if radius > 0 {
      var d := SquaredSteps(radius);
      assert d >= 0.0;
      OwnColourCounts(curves, closed, sigma, s, i, radius - 1);
      hide SquaredSteps, KernelOf, Side, LeftOf, RightOf;
      SideCountsLess(curves, Chain(closed), sigma, s, i, LeftOf(|s|, closed, i, radius), d);
      SideCountsLess(curves, Chain(closed), sigma, s, i, RightOf(|s|, closed, i, radius), d);
    }
  }

  // -------------------------------------------------------------------------
  // Uniform sets
  // -------------------------------------------------------------------------

  lemma OneColourFiltersToItself(v: Vec3)
    requires v.r >= 0.0 && v.g >= 0.0 && v.b >= 0.0
    ensures Filtered(Means(v, ToYuv(v).y)) == v
  {
  }

  /** Lights of one colour filter to that colour, whatever their topology. */
  lemma UniformSetFiltersToItself(
      curves: Curves, k: Kernel, colors: seq<Rgb>, topology: Topology, i: nat, c: Rgb)
    requires i < |colors| && forall j :: 0 <= j < |colors| ==> colors[j] == c
    ensures var s := LightsOf(curves, colors);
            Filtered(MeansOf(Neighbours(curves, k, s, topology, i), s[i])) == curves.Linear(c)
  {
    hide ToYuv;
    var s, l := LightsOf(curves, colors), LightOf(curves, c);
    MeansStayBetweenTheLights(curves, k, s, topology, i, l, l);
    var m := MeansOf(Neighbours(curves, k, s, topology, i), s[i]);
    OneColourFiltersToItself(l.lin);
    hide Neighbours, MeansOf, Filtered, ToYuv;
    assert m.wide == l.lin;
  }

  /** The filter leaves the ambience alone: lights that all show it keep it, every one. */
  lemma TheAmbienceIsAFixedPoint(
      scene: Scene, colors: seq<Rgb>, topology: Topology, affinity: real, next: LightSetState, i: nat, c: Rgb)
    requires i < |colors| && forall j :: 0 <= j < |colors| ==> colors[j] == c
    requires scene.ambience == scene.curves.Linear(c)
    requires next.rangeSigma.Some? && next.rangeSigma.value > 0.0
    ensures Shown(scene, LightsOf(scene.curves, colors), topology, affinity, next, i) == scene.ambience
  {
    var k := KernelOf(topology, next.rangeSigma.value);
    UniformSetFiltersToItself(scene.curves, k, colors, topology, i, c);
    hide Neighbours, MeansOf, Filtered, KernelOf, LightsOf;
  }

  // -------------------------------------------------------------------------
  // Far lights
  // -------------------------------------------------------------------------

  /** A light's affinity is the one listed, held to the unit interval; a light past the list is on the
      screen. */
  lemma AffinitiesAreHeldToTheUnit(affinity: seq<real>, i: nat)
    ensures AffinityAt(affinity, i) == 0.0 <==> i < |affinity| && affinity[i] <= 0.0
    ensures AffinityAt(affinity, i) == 1.0 <==> i >= |affinity| || affinity[i] >= 1.0
    ensures i < |affinity| && 0.0 <= affinity[i] <= 1.0 ==> AffinityAt(affinity, i) == affinity[i]
  {
  }

  predicate Between(x: real, a: real, b: real) {
    MinReal(a, b) <= x <= MaxReal(a, b)
  }

  lemma LerpIsBetween(a: real, b: real, t: real)
    requires 0.0 <= t <= 1.0
    ensures Between(Lerp(a, b, t), a, b)
  {
    LerpBetween(a, b, t, MinReal(a, b), MaxReal(a, b));
  }

  /** A light's colour lies between its filtered colour and the ambience; on the screen it has gone
      exactly the lean of the way, off it never less, and far from it all the way. */
  lemma BlendGoesTheLean(filtered: Vec3, ambience: Vec3, affinity: real, lean: real)
    requires 0.0 <= affinity <= 1.0 && 0.0 <= lean <= 1.0
    ensures
      var v := Blend(filtered, ambience, affinity, lean);
      && Between(v.r, filtered.r, ambience.r) && Between(v.g, filtered.g, ambience.g)
      && Between(v.b, filtered.b, ambience.b)
    ensures Blend(filtered, ambience, 1.0, lean) == LerpVec(filtered, ambience, lean)
    ensures Blend(filtered, ambience, 0.0, lean) == ambience
    ensures lean <= 1.0 - affinity * (1.0 - lean) <= 1.0
  {
    Product(affinity, 1.0 - lean);
    Product(1.0 - affinity, 1.0 - lean);
    assert 1.0 - affinity * (1.0 - lean) - lean == (1.0 - affinity) * (1.0 - lean);
    var t := 1.0 - affinity * (1.0 - lean);
    BlendIs(filtered, ambience, affinity, lean);
    hide Blend;
    LerpIsBetween(filtered.r, ambience.r, t);
    LerpIsBetween(filtered.g, ambience.g, t);
    LerpIsBetween(filtered.b, ambience.b, t);
    BlendIs(filtered, ambience, 1.0, lean);
    BlendIs(filtered, ambience, 0.0, lean);
  }

  lemma BlendIs(filtered: Vec3, ambience: Vec3, affinity: real, lean: real)
    ensures Blend(filtered, ambience, affinity, lean) ==
            LerpVec(filtered, ambience, 1.0 - affinity * (1.0 - lean))
  {
  }

  /** A light shows exactly the ambience when it is as far from the screen as can be, and otherwise
      only if its filtered colour already is the ambience. */
  lemma OnlyFarLightsShowTheAmbience(filtered: Vec3, ambience: Vec3, affinity: real, lean: real)
    requires 0.0 <= affinity <= 1.0 && AMBIENCE_LEAN_MIN <= lean <= AMBIENCE_LEAN_MAX
    ensures Blend(filtered, ambience, affinity, lean) == ambience <==> affinity == 0.0 || filtered == ambience
  {
  }

  /** The end to end form: affinity 0 gives the ambience, for every set and every topology. */
  lemma FarLightsShowTheAmbience(
      scene: Scene, colors: seq<Rgb>, topology: Topology, affinity: seq<real>, state: LightSetState, i: nat)
    requires i < |colors| && state.Valid() && AffinityAt(affinity, i) == 0.0
    ensures Process(scene, colors, topology, affinity, state).0[i] == scene.curves.Encoded(scene.ambience)
  {
  }
}
