/** What the filter makes of contrast: lights far apart in colour keep theirs, lights close to each
    other move together, and a scene unlike the ambience leans on it less. */
module SceneContrast {
  import opened Arith
  import opened Frames
  import opened SceneColour
  import opened SceneFilter
  import opened SceneGroups
  import opened SceneMath
  import opened SceneSymmetry
  import opened Wrappers

  // -------------------------------------------------------------------------
  // Lights far apart in colour do not mix
  // -------------------------------------------------------------------------

  lemma LightsAreInUnit(curves: Curves, c: Rgb)
    ensures InUnit(LightOf(curves, c))
  {
    var v := curves.Linear(c);
    assert 0.0 <= v.r <= 1.0 && 0.0 <= v.g <= 1.0 && 0.0 <= v.b <= 1.0;
    hide CurveSet.Linear, CurveSet.Lawful;
    assert 0.0 <= ToYuv(v).y <= 1.0;
  }

  /** The range kernel gives lights `a` and `b` at most weight `e` on each other. */
  predicate Separate(scene: Scene, next: LightSetState, a: Light, b: Light, e: real) {
    && next.rangeSigma.Some? && next.rangeSigma.value > 0.0
    && Closeness(scene.curves, DistanceSq(a.yuv, b.yuv), Inverse2Sq(next.rangeSigma.value)) <= e
  }

  /** Every light is of light `i`'s colour, or separate from it. */
  ghost predicate InGroups(scene: Scene, next: LightSetState, colors: seq<Rgb>, i: nat, e: real)
    requires i < |colors|
  {
    forall j :: 0 <= j < |colors| ==>
      || colors[j] == colors[i]
      || Separate(scene, next, LightOf(scene.curves, colors[i]), LightOf(scene.curves, colors[j]), e)
  }

  /** Lights at least `apart` from each other are as separate as the kernel makes that distance. */
  lemma DistanceSeparates(scene: Scene, next: LightSetState, a: Light, b: Light, apart: real, e: real)
    requires next.rangeSigma.Some? && next.rangeSigma.value > 0.0 && DistanceSq(a.yuv, b.yuv) >= apart
    requires Closeness(scene.curves, apart, Inverse2Sq(next.rangeSigma.value)) <= e
    ensures Separate(scene, next, a, b, e)
  {
    var sigma := next.rangeSigma.value;
    KernelsAreOrdered(Chain(true), sigma);
    hide DistanceSq, Inverse2Sq;
    ClosenessFallsWithDistance(scene.curves, apart, DistanceSq(a.yuv, b.yuv), Inverse2Sq(sigma));
  }

  lemma ClosenessFallsWithDistance(curves: Curves, near: real, far: real, inverse: real)
    requires near <= far && inverse >= 0.0
    ensures Closeness(curves, far, inverse) <= Closeness(curves, near, inverse)
  {
    ScaleGrows(near, far, inverse);
    assert -far * inverse == -(far * inverse) && -near * inverse == -(near * inverse);
  }

  lemma GroupsAreBounded(scene: Scene, next: LightSetState, colors: seq<Rgb>, topology: Topology, i: nat, e: real)
    requires i < |colors| && InGroups(scene, next, colors, i, e)
    requires next.rangeSigma.Some? && next.rangeSigma.value > 0.0
    ensures
      var s, me := LightsOf(scene.curves, colors), LightOf(scene.curves, colors[i]);
      AllBounded(scene.curves, KernelOf(topology, next.rangeSigma.value), s, i, me, me, e)
  {
    var s, me := LightsOf(scene.curves, colors), LightOf(scene.curves, colors[i]);
    var k := KernelOf(topology, next.rangeSigma.value);
    KernelsAreOrdered(topology, next.rangeSigma.value);
    assert k.range == Inverse2Sq(next.rangeSigma.value);
    hide KernelOf, DistanceSq, Closeness, InUnit, LightOf, Inverse2Sq;
    forall j | 0 <= j < |s|
      ensures Bounded(scene.curves, k, me, me, s[j], me, e)
    {
      LightsAreInUnit(scene.curves, colors[i]);
      LightsAreInUnit(scene.curves, colors[j]);
      assert s[j] == LightOf(scene.curves, colors[j]);
    }
  }

  /** However the lights are arranged, if those not of light `i`'s colour weigh at most `e` on it, its
      means are that colour up to what those in reach add up to. */
  lemma GroupsDoNotMix(
      scene: Scene, colors: seq<Rgb>, topology: Topology, affinity: seq<real>, state: LightSetState, i: nat, e: real)
    returns (m: Means)
    requires i < |colors| && state.Valid() && e >= 0.0
    requires InGroups(scene, NextState(scene, LightsOf(scene.curves, colors), topology, state), colors, i, e)
    ensures
      var (out, next) := Process(scene, colors, topology, affinity, state);
      out[i] == ColourOf(scene, m, AffinityAt(affinity, i), next.lastLean)
    ensures
      var me := LightOf(scene.curves, colors[i]);
      MeansWithin(me, m, me, Slack(Reach(topology, |colors|), e))
  {
    hide NextState, LightsOf, LightOf, KernelOf, Neighbours, MeansOf, MeansWithin, Slack, Process, AffinityAt,
         InGroups, AllBounded, Filtered, Blend, CurveSet.Encoded;
    var s, me := LightsOf(scene.curves, colors), LightOf(scene.curves, colors[i]);
    var next := NextState(scene, s, topology, state);
    ResultOfEach(scene, colors, topology, affinity, state);
    GroupsAreBounded(scene, next, colors, topology, i, e);
    LightIs(scene.curves, colors, i);
    var k := KernelOf(topology, next.rangeSigma.value);
    MeansStayWithTheirOwn(scene.curves, k, s, topology, i, me, me, e);
    m := MeansOf(Neighbours(scene.curves, k, s, topology, i), s[i]);
  }

  lemma LightIs(curves: Curves, colors: seq<Rgb>, i: nat)
    requires i < |colors|
    ensures LightsOf(curves, colors)[i] == LightOf(curves, colors[i])
  {
  }

  /** Groups no kernel joins keep exactly their colours: red beside blue stays red, until it leans. */
  lemma SeparateGroupsKeepTheirColours(
      scene: Scene, colors: seq<Rgb>, topology: Topology, affinity: seq<real>, state: LightSetState, i: nat)
    requires i < |colors| && state.Valid()
    requires InGroups(scene, NextState(scene, LightsOf(scene.curves, colors), topology, state), colors, i, 0.0)
    ensures
      var (out, next) := Process(scene, colors, topology, affinity, state);
      out[i] == scene.curves.Encoded(
        Blend(scene.curves.Linear(colors[i]), scene.ambience, AffinityAt(affinity, i), next.lastLean))
  {
    hide NextState, LightsOf, Process, InGroups, Blend, CurveSet.Encoded, CurveSet.Linear, ToYuv, Filtered, AffinityAt;
    var m := GroupsDoNotMix(scene, colors, topology, affinity, state, i, 0.0);
    NoSlack(Reach(topology, |colors|));
    var v := scene.curves.Linear(colors[i]);
    assert m.wide == v && m.yNarrow == ToYuv(v).y;
    ColoursAreNotNegative(scene.curves, colors[i]);
    OneColourFiltersToItself(v);
  }

  lemma NoSlack(n: nat)
    ensures Slack(n, 0.0) == 0.0
  {
  }

  lemma ColoursAreNotNegative(curves: Curves, c: Rgb)
    ensures NotNegative(curves.Linear(c))
  {
  }

  // -------------------------------------------------------------------------
  // Every neighbour that counts pulls
  // -------------------------------------------------------------------------

  datatype Channel = R | G | B

  function Of(v: Vec3, ch: Channel): real {
    match ch
    case R => v.r
    case G => v.g
    case B => v.b
  }

  /** By how much the sums exceed those of lights all at `lo`. */
  function Surplus(a: Acc, ch: Channel, lo: real): real {
    Of(a.c, ch) - lo * a.wc
  }

  lemma SurplusAdds(a: Acc, b: Acc, ch: Channel, lo: real)
    ensures Surplus(Plus(a, b), ch, lo) == Surplus(a, ch, lo) + Surplus(b, ch, lo)
    ensures Surplus(NOTHING, ch, lo) == 0.0
  {
  }

  ghost predicate AllAtLeast(s: seq<Light>, ch: Channel, lo: real) {
    forall j :: 0 <= j < |s| ==> Of(s[j].lin, ch) >= lo
  }

  /** A term of weight `w` brings `w` times what its light has over `lo`. */
  lemma SurplusOfWeighing(l: Light, wc: real, wy: real, ch: Channel, lo: real)
    requires wc >= 0.0 && Of(l.lin, ch) >= lo
    ensures Surplus(Weighing(l, wc, wy), ch, lo) == wc * (Of(l.lin, ch) - lo) >= 0.0
    ensures Surplus(Weighing(l, wc, wy), ch, lo) > 0.0 <==> wc > 0.0 && Of(l.lin, ch) > lo
  {
    var over := Of(l.lin, ch) - lo;
    TrustedIsZero(wc, over);
    assert Surplus(Weighing(l, wc, wy), ch, lo) == wc * over;
  }

  lemma SurplusOfSide(
      curves: Curves, k: Kernel, s: seq<Light>, i: nat, at: Option<nat>, d: real, ch: Channel, lo: real)
    requires i < |s| && (at.Some? ==> at.value < |s|) && AllAtLeast(s, ch, lo)
    ensures Surplus(Side(curves, k, s, i, at, d), ch, lo) >= 0.0
    ensures Surplus(Side(curves, k, s, i, at, d), ch, lo) > 0.0 <==>
      at.Some? && Side(curves, k, s, i, at, d).wc > 0.0 && Of(s[at.value].lin, ch) > lo
  {
    SurplusAdds(NOTHING, NOTHING, ch, lo);
    if at.Some? {
      var t := Term(curves, k, s[i], s[at.value], d);
      SurplusOfWeighing(s[at.value], t.wc, t.wy, ch, lo);
    }
    hide Surplus, Of;
  }

  /** Light `j`, `step` places from light `i`, counts and has more of the channel than `lo`. */
  ghost predicate Pulls(
      curves: Curves, k: Kernel, s: seq<Light>, closed: bool, i: nat, step: nat, j: nat, ch: Channel, lo: real)
  {
    && i < |s| && j < |s| && 1 <= step <= CHAIN_RADIUS && Visits(|s|, closed, i, step, j)
    && Term(curves, k, s[i], s[j], SquaredSteps(step)).wc > 0.0
    && Of(s[j].lin, ch) > lo
  }

  ghost predicate Pulled(
      curves: Curves, k: Kernel, s: seq<Light>, closed: bool, i: nat, radius: nat, ch: Channel, lo: real)
  {
    exists step: nat, j: nat :: step <= radius && Pulls(curves, k, s, closed, i, step, j, ch, lo)
  }

  lemma NothingPullsFromHere(
      curves: Curves, k: Kernel, s: seq<Light>, closed: bool, i: nat, ch: Channel, lo: real)
    ensures !Pulled(curves, k, s, closed, i, 0, ch, lo)
  {
  }

  lemma PulledFurtherOut(
      curves: Curves, k: Kernel, s: seq<Light>, closed: bool, i: nat, radius: nat, ch: Channel, lo: real)
    requires i < |s| && 1 <= radius <= CHAIN_RADIUS && AllAtLeast(s, ch, lo)
    ensures Pulled(curves, k, s, closed, i, radius, ch, lo) <==>
      || Pulled(curves, k, s, closed, i, radius - 1, ch, lo)
      || Surplus(Side(curves, k, s, i, LeftOf(|s|, closed, i, radius), SquaredSteps(radius)), ch, lo) > 0.0
      || Surplus(Side(curves, k, s, i, RightOf(|s|, closed, i, radius), SquaredSteps(radius)), ch, lo) > 0.0
  {
    hide Surplus, AllAtLeast, Of, Term, Acc.Weighed, LeftOf, RightOf, SquaredSteps;
    var d, left, right := SquaredSteps(radius), LeftOf(|s|, closed, i, radius), RightOf(|s|, closed, i, radius);
    SurplusOfSide(curves, k, s, i, left, d, ch, lo);
    SurplusOfSide(curves, k, s, i, right, d, ch, lo);
    if left.Some? {
      assert Visits(|s|, closed, i, radius, left.value);
      assert Pulls(curves, k, s, closed, i, radius, left.value, ch, lo) <==>
        Surplus(Side(curves, k, s, i, left, d), ch, lo) > 0.0;
    }
    if right.Some? {
      assert Visits(|s|, closed, i, radius, right.value);
      assert Pulls(curves, k, s, closed, i, radius, right.value, ch, lo) <==>
        Surplus(Side(curves, k, s, i, right, d), ch, lo) > 0.0;
    }
  }

  lemma {:induction false} SurplusOfChain(
      curves: Curves, k: Kernel, s: seq<Light>, closed: bool, i: nat, radius: nat, ch: Channel, lo: real)
    requires i < |s| && radius <= CHAIN_RADIUS && AllAtLeast(s, ch, lo)
    ensures Surplus(ChainAcc(curves, k, s, closed, i, radius), ch, lo) >= 0.0
    ensures Surplus(ChainAcc(curves, k, s, closed, i, radius), ch, lo) > 0.0 <==>
      Pulled(curves, k, s, closed, i, radius, ch, lo)
  {
    hide Surplus, ChainAcc, Plus, LeftOf, RightOf, SquaredSteps, AllAtLeast, Of, Side, Acc.Weighed, Pulled;
    if radius == 0 {
      ChainAccStarts(curves, k, s, closed, i);
      SurplusAdds(NOTHING, NOTHING, ch, lo);
      NothingPullsFromHere(curves, k, s, closed, i, ch, lo);
    } else {
      SurplusOfChain(curves, k, s, closed, i, radius - 1, ch, lo);
      PulledFurtherOut(curves, k, s, closed, i, radius, ch, lo);
      var d := SquaredSteps(radius);
      var inner := ChainAcc(curves, k, s, closed, i, radius - 1);
      var left := Side(curves, k, s, i, LeftOf(|s|, closed, i, radius), d);
      var right := Side(curves, k, s, i, RightOf(|s|, closed, i, radius), d);
      SurplusOfSide(curves, k, s, i, LeftOf(|s|, closed, i, radius), d, ch, lo);
      SurplusOfSide(curves, k, s, i, RightOf(|s|, closed, i, radius), d, ch, lo);
      ChainAccUnfolds(curves, k, s, closed, i, radius);
      SurplusAdds(inner, left, ch, lo);
      SurplusAdds(Plus(inner, left), right, ch, lo);
    }
  }

  /** On a strip a light's wide mean exceeds the least of the set in a channel exactly if the light
      does, or some neighbour that counts does. */
  lemma NeighboursPull(
      curves: Curves, k: Kernel, s: seq<Light>, closed: bool, i: nat, ch: Channel, lo: real)
    requires i < |s| && AllAtLeast(s, ch, lo)
    ensures Of(MeansOf(Neighbours(curves, k, s, Chain(closed), i), s[i]).wide, ch) > lo <==>
      Of(s[i].lin, ch) > lo || Pulled(curves, k, s, closed, i, CHAIN_RADIUS, ch, lo)
  {
    var around := ChainAcc(curves, k, s, closed, i, CHAIN_RADIUS);
    SurplusOfChain(curves, k, s, closed, i, CHAIN_RADIUS, ch, lo);
    SurplusOfWeighing(s[i], 1.0, 1.0, ch, lo);
    SurplusAdds(around, Weighing(s[i], 1.0, 1.0), ch, lo);
    SurplusOfMean(Plus(around, Weighing(s[i], 1.0, 1.0)), around, s[i], ch, lo);
    hide Surplus, Of, ChainAcc, Plus, Weighing, Pulled;
  }

  lemma SurplusOfMean(all: Acc, around: Acc, me: Light, ch: Channel, lo: real)
    requires around.Weighed() && all == Plus(around, Weighing(me, 1.0, 1.0))
    ensures Of(MeansOf(around, me).wide, ch) > lo <==> Surplus(all, ch, lo) > 0.0
  {
    MeanAbove(all.c.r, all.wc, lo);
    MeanAbove(all.c.g, all.wc, lo);
    MeanAbove(all.c.b, all.wc, lo);
  }

  lemma MeanAbove(x: real, w: real, lo: real)
    requires w > 0.0
    ensures x / w > lo <==> x - lo * w > 0.0
  {
    QuotientIs(x, w, x / w);
    ScaleOrder(lo, x / w, w);
  }

  /** What lets a neighbour count is its nearness in colour and place alone. */
  lemma WhoCounts(curves: Curves, k: Kernel, me: Light, other: Light, d: real)
    ensures Term(curves, k, me, other, d).wc > 0.0 <==>
      Closeness(curves, d, k.chroma) > 0.0 && Closeness(curves, DistanceSq(me.yuv, other.yuv), k.range) > 0.0
  {
    hide DistanceSq;
    var near, range := Closeness(curves, d, k.chroma), Closeness(curves, DistanceSq(me.yuv, other.yuv), k.range);
    hide Closeness;
    TrustedIsZero(near, range);
  }

  // -------------------------------------------------------------------------
  // Gaps, and the separation scale they set
  // -------------------------------------------------------------------------

  /** The gap orders pairs as their distance does, and closes with it. */
  lemma GapsFollowDistances(curves: Curves, a: Yuv, b: Yuv, c: Yuv, d: Yuv)
    ensures Gap(curves, a, b) >= 0.0
    ensures Gap(curves, a, b) == 0.0 <==> DistanceSq(a, b) == 0.0
    ensures Gap(curves, a, b) < Gap(curves, c, d) <==> DistanceSq(a, b) < DistanceSq(c, d)
  {
    DistanceIsNotNegative(a, b);
    DistanceIsNotNegative(c, d);
    hide DistanceSq;
  }

  /** With nothing to follow the scale is twice the median, between its bounds. */
  lemma SigmaFollowsTheMedian(curves: Curves, interval: nat, median: real, other: real)
    ensures Sigma(curves, None, interval, median) == RANGE_SIGMA_MIN <==> median <= 0.175
    ensures Sigma(curves, None, interval, median) == RANGE_SIGMA_MAX <==> median >= 1.5
    ensures 0.175 <= median < other <= 1.5 ==>
      Sigma(curves, None, interval, other) - Sigma(curves, None, interval, median) == 2.0 * (other - median)
  {
  }

  /** With a scale to follow it moves from that towards where it would start afresh, not past it. */
  lemma SigmaMovesTowards(curves: Curves, prev: real, interval: nat, median: real)
    ensures
      var now, target := Sigma(curves, Some(prev), interval, median), Sigma(curves, None, interval, median);
      MinReal(prev, target) <= now <= MaxReal(prev, target)
  {
    var target := Sigma(curves, None, interval, median);
    LerpBetween(
      prev, target, curves.rate(RANGE_ENVELOPE_RATE, interval), MinReal(prev, target), MaxReal(prev, target));
  }

  /** A light on its own has no difference to anything, and starts from the least scale. */
  lemma ALoneLight(scene: Scene, s: seq<Light>, topology: Topology, state: LightSetState)
    requires |s| == 1
    ensures NextState(scene, s, topology, state).lastMedian == 0.0
    ensures state.rangeSigma.None? ==> NextState(scene, s, topology, state).rangeSigma == Some(RANGE_SIGMA_MIN)
  {
    assert Adjacent(scene.curves, s, topology) == [] by { NoPairs(scene.curves, s, topology); }
    hide Adjacent, Spread, Lean;
    SigmaFollowsTheMedian(scene.curves, scene.interval, 0.0, 0.0);
  }

  lemma NoPairs(curves: Curves, s: seq<Light>, topology: Topology)
    requires |s| == 1
    ensures Adjacent(curves, s, topology) == []
  {
    match topology
    case Chain(_) =>
    case Points(pos) =>
      assert RowGaps(curves, s, |pos|, 0, 1) == [];
      assert PairGaps(curves, s, |pos|, 0) == [];
  }

  // -------------------------------------------------------------------------
  // The lean
  // -------------------------------------------------------------------------

  /** The lean falls from its maximum at no contrast to its minimum at full contrast. */
  lemma LeanFallsWithContrast(spread: real, more: real)
    ensures Lean(spread) == AMBIENCE_LEAN_MAX <==> spread <= 0.0
    ensures Lean(spread) == AMBIENCE_LEAN_MIN <==> spread >= CONTRAST_REF
    ensures 0.0 <= spread < more <= CONTRAST_REF ==> Lean(more) < Lean(spread)
  {
  }

  lemma {:induction false} SumIsZero(s: seq<real>)
    requires forall i :: 0 <= i < |s| ==> s[i] >= 0.0
    ensures Sum(s) >= 0.0
    ensures Sum(s) == 0.0 <==> forall i :: 0 <= i < |s| ==> s[i] == 0.0
  {
    if s != [] {
      SumIsZero(s[1..]);
      assert forall i :: 0 < i < |s| ==> s[i] == s[1..][i - 1];
      assert (forall i :: 0 <= i < |s| ==> s[i] == 0.0) <==>
        s[0] == 0.0 && forall i :: 0 <= i < |s[1..]| ==> s[1..][i] == 0.0;
    }
  }

  /** The lights lean on the ambience as far as they ever do exactly if none can be told from it. */
  lemma FullLeanIsNoContrast(scene: Scene, s: seq<Light>, topology: Topology, state: LightSetState)
    requires s != []
    ensures NextState(scene, s, topology, state).lastLean == AMBIENCE_LEAN_MAX <==>
      forall i :: 0 <= i < |s| ==> DistanceSq(s[i].yuv, ToYuv(scene.ambience)) == 0.0
  {
    var gaps := Distances(scene.curves, s, scene.ambience);
    forall i | 0 <= i < |s|
      ensures gaps[i] >= 0.0 && (gaps[i] == 0.0 <==> DistanceSq(s[i].yuv, ToYuv(scene.ambience)) == 0.0)
    {
      var here := ToYuv(scene.ambience);
      GapsFollowDistances(scene.curves, s[i].yuv, here, here, here);
    }
    hide DistanceSq, ToYuv, Distances, Lean, Adjacent, Median, Sigma;
    SumIsZero(gaps);
    ShareIsZero(Sum(gaps), |s|);
    LeanFallsWithContrast(Spread(scene.curves, s, scene.ambience), 0.0);
  }

  lemma ShareIsZero(x: real, n: nat)
    requires n > 0 && x >= 0.0
    ensures x / n as real <= 0.0 <==> x == 0.0
  {
    QuotientIs(x, n as real, x / n as real);
    ScaleOrder(0.0, x / n as real, n as real);
  }
}
