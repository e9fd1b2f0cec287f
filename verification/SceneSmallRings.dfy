/** Why only wide rings turn: for every ring of 3 to 10 lights, a scene whose result does not. */
module SceneSmallRings {
  import opened Arith
  import opened Frames
  import opened SceneFilter
  import opened SceneMath
  import opened SceneSymmetry
  import opened Wrappers

  /** Every ring of `n` lights turns with its lights, in every scene. */
  ghost predicate ResultsTurn(n: nat) {
    forall scene: Scene, colors: seq<Rgb>, r: nat, state: LightSetState, affinity: seq<real>, turned: seq<real> ::
      Turns(n, scene, colors, r, state, affinity, turned)
  }

  predicate AffinitiesTurned(n: nat, r: nat, affinity: seq<real>, turned: seq<real>)
    requires r <= n
  {
    forall i: nat :: i < n ==> AffinityAt(turned, i) == AffinityAt(affinity, Turn(n, r, i))
  }

  ghost predicate Turns(
      n: nat, scene: Scene, colors: seq<Rgb>, r: nat, state: LightSetState, affinity: seq<real>, turned: seq<real>)
  {
    (|colors| == n && r <= n && state.Valid() && AffinitiesTurned(n, r, affinity, turned)) ==>
    (&& Process(scene, Rotate(colors, r), Chain(true), turned, state).1
        == Process(scene, colors, Chain(true), affinity, state).1
     && Process(scene, Rotate(colors, r), Chain(true), turned, state).0
        == Rotate(Process(scene, colors, Chain(true), affinity, state).0, r))
  }

  // -------------------------------------------------------------------------
  // A scene too dark for hue, whose kernels reach one light
  // -------------------------------------------------------------------------

  const GLOW: real := 0.00000001

  function Faint(v: u8): real {
    if v == 0 then 0.0 else GLOW
  }

  function Threshold(x: real): u8 {
    if x > 0.0 then 1 else 0
  }

  function Cutoff(x: real): real {
    if x >= -0.1 then 1.0 else 0.0
  }

  ghost const NEARSIGHTED: Curves := CurveSet(Faint, Threshold, Cutoff, AbsReal, (r, ms) => 0.0, (r, ms) => 0.0)

  const LIT := Rgb(1, 1, 1)
  const UNLIT := Light(Vec3(0.0, 0.0, 0.0), Yuv(0.0, 0.1978, 0.4683))
  const GLOWING := Light(Vec3(GLOW, GLOW, GLOW), Yuv(0.0, 0.1978, 0.4683))

  ghost const SCENE := Scene(NEARSIGHTED, Vec3(0.0, 0.0, 0.0), 40)

  /** One lit light, the first. */
  function OneLit(n: nat): (colors: seq<Rgb>)
    ensures |colors| == n
  {
    seq(n, i => if i == 0 then LIT else BLACK)
  }

  lemma LightsOfTheScene()
    ensures LightOf(NEARSIGHTED, LIT) == GLOWING && LightOf(NEARSIGHTED, BLACK) == UNLIT
  {
  }

  /** All lights of one colour coordinate: nothing sets them apart but where they are. */
  ghost predicate Alike(s: seq<Light>) {
    forall i :: 0 <= i < |s| ==> s[i] == UNLIT || s[i] == GLOWING
  }

  lemma KernelsOfAStrip(sigma: real)
    requires sigma > 0.0
    ensures KernelOf(Chain(true), sigma).chroma == 0.08
    ensures KernelOf(Chain(true), sigma).luma >= 0.2
  {
  }

  lemma TermOf(k: Kernel, me: Light, other: Light, d: real)
    requires me in {UNLIT, GLOWING} && other in {UNLIT, GLOWING} && k.chroma == 0.08 && k.luma >= 0.2 && d >= 1.0
    ensures Term(NEARSIGHTED, k, me, other, d) == Weighing(other, if d * 0.08 <= 0.1 then 1.0 else 0.0, 0.0)
  {
    hide DistanceSq, Closeness, CurveSet.Lawful;
    AlikeAreNear(me, other);
    ClosenessOf(0.0, k.range);
    Product(d - 1.0, k.luma);
    ClosenessOf(d, k.luma);
    ClosenessOf(d, k.chroma);
  }

  lemma ClosenessOf(d: real, inverse: real)
    ensures Closeness(NEARSIGHTED, d, inverse) == if d * inverse <= 0.1 then 1.0 else 0.0
  {
    hide CurveSet.Lawful;
    assert -d * inverse == -(d * inverse);
  }

  lemma AlikeAreNear(a: Light, b: Light)
    requires a.yuv == b.yuv
    ensures DistanceSq(a.yuv, b.yuv) == 0.0
  {
    NoDistanceExactly(a.yuv, b.yuv);
    hide DistanceSq;
  }

  /** Beyond one step nothing is added. */
  lemma {:induction false} OnlyTheNextCount(k: Kernel, s: seq<Light>, i: nat, radius: nat)
    requires Alike(s) && i < |s| && k.chroma == 0.08 && k.luma >= 0.2 && 1 <= radius <= CHAIN_RADIUS
    ensures ChainAcc(NEARSIGHTED, k, s, true, i, radius) == ChainAcc(NEARSIGHTED, k, s, true, i, 1)
  {
    if radius > 1 {
      hide ChainAcc, Side, SquaredSteps, LeftOf, RightOf, Alike, CurveSet.Lawful, Plus;
      OnlyTheNextCount(k, s, i, radius - 1);
      PlusNothing(ChainAcc(NEARSIGHTED, k, s, true, i, radius - 1));
      FarSteps(radius);
      FarSidesAreNothing(k, s, i, LeftOf(|s|, true, i, radius), SquaredSteps(radius));
      FarSidesAreNothing(k, s, i, RightOf(|s|, true, i, radius), SquaredSteps(radius));
      ChainAccUnfolds(NEARSIGHTED, k, s, true, i, radius);
    }
  }

  lemma PlusNothing(a: Acc)
    ensures Plus(a, NOTHING) == a
  {
  }

  lemma FarSteps(radius: nat)
    requires radius >= 2
    ensures SquaredSteps(radius) >= 4.0
  {
    assert radius * radius >= 2 * 2;
  }

  lemma FarSidesAreNothing(k: Kernel, s: seq<Light>, i: nat, at: Option<nat>, d: real)
    requires Alike(s) && i < |s| && (at.Some? ==> at.value < |s|) && k.chroma == 0.08 && k.luma >= 0.2
    ensures d >= 4.0 ==> Side(NEARSIGHTED, k, s, i, at, d) == NOTHING
  {
    if d >= 4.0 && at.Some? {
      hide Term;
      TermOf(k, s[i], s[at.value], d);
    }
  }

  function GlowAcc(g: real, w: real): Acc {
    Acc(Vec3(g, g, g), w, 0.0, 0.0)
  }

  lemma PlusGlows(a: real, v: real, b: real, w: real)
    ensures Plus(Plus(NOTHING, GlowAcc(a, v)), GlowAcc(b, w)) == GlowAcc(a + b, v + w)
  {
  }

  /** What the light at place `j`, one step away if it is there, adds. */
  lemma NextSide(k: Kernel, s: seq<Light>, i: nat, at: Option<nat>, j: int)
    requires Alike(s) && i < |s| && k.chroma == 0.08 && k.luma >= 0.2
    requires if at.Some? then at.value == j < |s| else !(0 <= j < |s|)
    ensures Side(NEARSIGHTED, k, s, i, at, 1.0) == GlowAcc(Glow(s, j), if at.Some? then 1.0 else 0.0)
  {
    if at.Some? {
      hide Term;
      TermOf(k, s[i], s[at.value], 1.0);
    }
  }

  /** An unlit light shows its neighbours' glow, and nothing else. */
  lemma UnlitLightShows(s: seq<Light>, next: LightSetState, i: nat)
    requires Alike(s) && i < |s| && s[i] == UNLIT && 3 <= |s| <= 2 * CHAIN_RADIUS
    requires next.rangeSigma.Some? && next.rangeSigma.value > 0.0
    requires AMBIENCE_LEAN_MIN <= next.lastLean <= AMBIENCE_LEAN_MAX
    ensures
      var lit := (i > 0 && s[i - 1] == GLOWING) || (i + 1 < |s| && s[i + 1] == GLOWING);
      NEARSIGHTED.Encoded(Shown(SCENE, s, Chain(true), 1.0, next, i)) == if lit then LIT else BLACK
  {
    var k := KernelOf(Chain(true), next.rangeSigma.value);
    KernelsOfAStrip(next.rangeSigma.value);
    var around := Neighbours(NEARSIGHTED, k, s, Chain(true), i);
    NeighboursAre(k, s, i);
    ShownOf(around, next.lastLean);
    hide Neighbours, MeansOf, Filtered, Blend, KernelOf, CurveSet.Encoded;
  }

  function Glow(s: seq<Light>, i: int): real {
    if 0 <= i < |s| && s[i] == GLOWING then GLOW else 0.0
  }

  lemma NeighboursAre(k: Kernel, s: seq<Light>, i: nat)
    requires Alike(s) && i < |s| <= 2 * CHAIN_RADIUS && k.chroma == 0.08 && k.luma >= 0.2
    ensures
      var a, g := Neighbours(NEARSIGHTED, k, s, Chain(true), i), Glow(s, i - 1) + Glow(s, i + 1);
      a.c == Vec3(g, g, g) && 0.0 <= a.wc <= 2.0 && a.y == 0.0 && a.wy == 0.0
  {
    hide ChainAcc, Side, SquaredSteps, Alike, CurveSet.Lawful, Plus, Glow;
    OnlyTheNextCount(k, s, i, CHAIN_RADIUS);
    ChainAccUnfolds(NEARSIGHTED, k, s, true, i, 1);
    ChainOfNothing(k, s, i);
    var left, right := LeftOf(|s|, true, i, 1), RightOf(|s|, true, i, 1);
    NextSide(k, s, i, left, i - 1);
    NextSide(k, s, i, right, i + 1);
    PlusGlows(
      Glow(s, i - 1), if left.Some? then 1.0 else 0.0, Glow(s, i + 1), if right.Some? then 1.0 else 0.0);
  }

  lemma ChainOfNothing(k: Kernel, s: seq<Light>, i: nat)
    requires i < |s|
    ensures ChainAcc(NEARSIGHTED, k, s, true, i, 0) == NOTHING && SquaredSteps(1) == 1.0
  {
  }

  lemma ShownOf(around: Acc, lean: real)
    requires around.c.r == around.c.g == around.c.b && 0.0 <= around.c.r <= 2.0 * GLOW
    requires 0.0 <= around.wc <= 2.0 && around.y == 0.0 && around.wy == 0.0 && 0.0 < lean < 1.0
    ensures
      NEARSIGHTED.Encoded(Blend(Filtered(MeansOf(around, UNLIT)), Vec3(0.0, 0.0, 0.0), 1.0, lean)) ==
      if around.c.r > 0.0 then LIT else BLACK
  {
    var g, w := around.c.r, around.wc + 1.0;
    var q := g / w;
    DarkShare(g, w);
    assert MeansOf(around, UNLIT) == Means(Vec3(q, q, q), 0.0);
    DarkFilter(q);
    DarkBlend(q, lean);
    hide MeansOf, Filtered, Blend;
  }

  lemma DarkShare(g: real, w: real)
    requires 0.0 <= g <= 2.0 * GLOW && w >= 1.0
    ensures 0.0 <= g / w <= 2.0 * GLOW && (g / w > 0.0 <==> g > 0.0)
  {
    var q := g / w;
    QuotientIs(g, w, q);
    QuotientOrder(0.0, g, w);
    QuotientIs(0.0, w, 0.0);
    if q > 2.0 * GLOW {
      Product(q, w - 1.0);
    }
  }

  lemma DarkFilter(q: real)
    requires 0.0 <= q <= 2.0 * GLOW
    ensures Filtered(Means(Vec3(q, q, q), 0.0)) == Vec3(q, q, q)
  {
    assert Luma(Vec3(q, q, q)) == q;
    assert Times(q, 1.0) == q;
  }

  lemma DarkBlend(q: real, lean: real)
    requires q >= 0.0 && 0.0 < lean < 1.0
    ensures var v := Blend(Vec3(q, q, q), Vec3(0.0, 0.0, 0.0), 1.0, lean);
            v.r == v.g == v.b && (v.r > 0.0 <==> q > 0.0)
  {
    ScaleOrder(0.0, q, 1.0 - lean);
    assert 1.0 - 1.0 * (1.0 - lean) == lean;
    assert Lerp(q, 0.0, lean) == q * (1.0 - lean);
  }

  // -------------------------------------------------------------------------
  // The exact condition
  // -------------------------------------------------------------------------

  lemma LightsAreAlike(colors: seq<Rgb>)
    requires forall i :: 0 <= i < |colors| ==> colors[i] == LIT || colors[i] == BLACK
    ensures Alike(LightsOf(NEARSIGHTED, colors))
    ensures forall i :: 0 <= i < |colors| ==>
      LightsOf(NEARSIGHTED, colors)[i] == if colors[i] == LIT then GLOWING else UNLIT
  {
    LightsOfTheScene();
    hide LightOf;
  }

  lemma ShownInTheScene(colors: seq<Rgb>, i: nat)
    requires forall j :: 0 <= j < |colors| ==> colors[j] == LIT || colors[j] == BLACK
    requires i < |colors| && colors[i] == BLACK && 3 <= |colors| <= 2 * CHAIN_RADIUS
    ensures
      var lit := (i > 0 && colors[i - 1] == LIT) || (i + 1 < |colors| && colors[i + 1] == LIT);
      Process(SCENE, colors, Chain(true), [], FRESH).0[i] == if lit then LIT else BLACK
  {
    hide Shown, Alike, LightsOf, CurveSet.Encoded, NextState, AffinityAt, CurveSet.Lawful;
    var s := LightsOf(NEARSIGHTED, colors);
    var next := NextState(SCENE, s, Chain(true), FRESH);
    NextIsUsable(s);
    LightsAreAlike(colors);
    OnTheScreen(i);
    UnlitLightShows(s, next, i);
    ProcessAt(SCENE, colors, Chain(true), [], FRESH, i);
  }

  lemma OnTheScreen(i: nat)
    ensures AffinityAt([], i) == 1.0
  {
  }

  lemma NextIsUsable(s: seq<Light>)
    requires s != []
    ensures var next := NextState(SCENE, s, Chain(true), FRESH);
            && next.rangeSigma.Some? && next.rangeSigma.value > 0.0
            && AMBIENCE_LEAN_MIN <= next.lastLean <= AMBIENCE_LEAN_MAX
  {
    NextStateIsValid(SCENE, s, Chain(true), FRESH);
    hide Adjacent, Median, Sigma, Spread;
  }

  lemma ProcessAt(
      scene: Scene, colors: seq<Rgb>, topology: Topology, affinity: seq<real>, state: LightSetState, i: nat)
    requires state.Valid() && i < |colors|
    requires var next := NextState(scene, LightsOf(scene.curves, colors), topology, state);
             next.rangeSigma.Some? && next.rangeSigma.value > 0.0
    ensures
      var s := LightsOf(scene.curves, colors);
      Process(scene, colors, topology, affinity, state).0[i] == scene.curves.Encoded(
        Shown(scene, s, topology, AffinityAt(affinity, i), NextState(scene, s, topology, state), i))
  {
    hide Shown, LightsOf, CurveSet.Encoded, NextState, AffinityAt, CurveSet.Lawful;
  }

  /** In that scene the lit light's glow does not reach across the seam of a small ring. */
  lemma ASmallRingDoesNotTurn(n: nat)
    requires 3 <= n <= 2 * CHAIN_RADIUS
    ensures !Turns(n, SCENE, OneLit(n), 1, FRESH, [], [])
  {
    hide Process, CurveSet.Lawful;
    var colors := OneLit(n);
    var turned := Rotate(colors, 1);
    assert turned[0] == BLACK && turned[1] == BLACK && turned[n - 1] == LIT;
    ShownInTheScene(colors, 1);
    ShownInTheScene(turned, 0);
    RotateAt(Process(SCENE, colors, Chain(true), [], FRESH).0, 1, 0);
    OnTheScreenAll(n);
  }

  lemma OnTheScreenAll(n: nat)
    ensures forall i: nat :: i < n ==> AffinityAt([], i) == 1.0
  {
  }

  /** Turning a ring turns its result, in every scene, if and only if the ring is wider than the
      kernel on both sides, or has at most two lights. */
  lemma RingResultsTurnExactly(n: nat)
    ensures ResultsTurn(n) <==> n > 2 * CHAIN_RADIUS || n <= 2
  {
    if n > 2 * CHAIN_RADIUS || n <= 2 {
      forall scene: Scene, colors: seq<Rgb>, r: nat, state: LightSetState, affinity: seq<real>, turned: seq<real>
        ensures Turns(n, scene, colors, r, state, affinity, turned)
      {
        if |colors| == n && r <= n && state.Valid() && AffinitiesTurned(n, r, affinity, turned) {
          TurningARing(scene, colors, r, affinity, turned, state);
        }
      }
    } else {
      ASmallRingDoesNotTurn(n);
      hide Turns;
    }
  }
}
