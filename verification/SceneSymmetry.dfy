/** The filter sees a strip as a shape: turning a ring turns its result, mirroring a strip mirrors it. */
module SceneSymmetry {
  import opened Frames
  import opened SceneFilter
  import opened SceneMath
  import opened Wrappers

  // -------------------------------------------------------------------------
  // Which lights are neighbours
  // -------------------------------------------------------------------------

  function Circle(n: nat, from: nat, to: nat): nat
    requires from < n && to < n
  {
    if to >= from then to - from else to + n - from
  }

  predicate Visits(n: nat, closed: bool, i: nat, k: nat, j: nat)
    requires i < n && 1 <= k <= CHAIN_RADIUS
  {
    LeftOf(n, closed, i, k) == Some(j) || RightOf(n, closed, i, k) == Some(j)
  }

  /** On a wide ring `j` is the light `k` to the left exactly when it is `k` steps back, and never
      also a light to the right: every neighbour within the radius is visited once, and no other. */
  lemma EachRingNeighbourOnce(n: nat, i: nat, j: nat, k: nat)
    requires n > 2 * CHAIN_RADIUS && i < n && j < n && 1 <= k <= CHAIN_RADIUS
    ensures LeftOf(n, true, i, k) == Some(j) <==> Circle(n, j, i) == k
    ensures RightOf(n, true, i, k) == Some(j) <==> Circle(n, i, j) == k
    ensures Circle(n, j, i) == k ==> Circle(n, i, j) > CHAIN_RADIUS && i != j
  {
  }

  /** A ring no wider than the kernel has an open strip's neighbours. */
  lemma SmallRingIsTreatedAsOpen(n: nat, i: nat, k: nat)
    requires i < n <= 2 * CHAIN_RADIUS && 1 <= k <= CHAIN_RADIUS
    ensures LeftOf(n, true, i, k) == LeftOf(n, false, i, k)
    ensures RightOf(n, true, i, k) == RightOf(n, false, i, k)
  {
  }

  ghost predicate TurnsWithItsLights(n: nat)
  {
    forall i: nat, j: nat, k: nat, r: nat :: i < n && j < n && r <= n && 1 <= k <= CHAIN_RADIUS ==>
      (Visits(n, true, Turn(n, r, i), k, Turn(n, r, j)) <==> Visits(n, true, i, k, j))
  }

  /** Every light of a ring has the same neighbourhood exactly on wide rings and on trivial ones. */
  lemma RingTurnsExactlyWhenWideOrTrivial(n: nat)
    ensures TurnsWithItsLights(n) <==> n > 2 * CHAIN_RADIUS || n <= 2
  {
    if n > 2 * CHAIN_RADIUS {
      WideRingTurns(n);
    } else if n > 2 {
      assert Turn(n, 1, 0) == 1 && Turn(n, 1, n - 1) == 0;
      assert Visits(n, true, 1, 1, 0) && !Visits(n, true, 0, 1, n - 1);
    }
  }

  lemma WideRingTurns(n: nat)
    requires n > 2 * CHAIN_RADIUS
    ensures TurnsWithItsLights(n)
  {
    hide Visits;
    forall i: nat, j: nat, k: nat, r: nat | i < n && j < n && r <= n && 1 <= k <= CHAIN_RADIUS
      ensures Visits(n, true, Turn(n, r, i), k, Turn(n, r, j)) <==> Visits(n, true, i, k, j)
    {
      VisitTurns(n, i, j, k, r);
    }
  }

  lemma VisitTurns(n: nat, i: nat, j: nat, k: nat, r: nat)
    requires n > 2 * CHAIN_RADIUS && i < n && j < n && r <= n && 1 <= k <= CHAIN_RADIUS
    ensures Visits(n, true, Turn(n, r, i), k, Turn(n, r, j)) <==> Visits(n, true, i, k, j)
  {
    EachRingNeighbourOnce(n, i, j, k);
    EachRingNeighbourOnce(n, Turn(n, r, i), Turn(n, r, j), k);
    hide LeftOf, RightOf;
  }

  // -------------------------------------------------------------------------
  // A relabelling of the lights that the sums do not notice
  // -------------------------------------------------------------------------

  /** `b` lists the lights of `a` in another order: its light `i` is light `at[i]` of `a`. */
  ghost predicate Relabels<T>(a: seq<T>, b: seq<T>, at: seq<nat>) {
    && |a| == |b| == |at|
    && (forall i :: 0 <= i < |at| ==> at[i] < |a| && b[i] == a[at[i]])
  }

  ghost predicate SameSurroundings(
      scene: Scene, topology: Topology, a: seq<Light>, b: seq<Light>, at: seq<nat>)
    requires Relabels(a, b, at)
  {
    && multiset(Adjacent(scene.curves, b, topology)) == multiset(Adjacent(scene.curves, a, topology))
    && Sum(Distances(scene.curves, b, scene.ambience)) == Sum(Distances(scene.curves, a, scene.ambience))
    && (forall i, k :: 0 <= i < |at| ==>
        Neighbours(scene.curves, k, b, topology, i) == Neighbours(scene.curves, k, a, topology, at[i]))
  }

  lemma SameState(
      scene: Scene, topology: Topology, state: LightSetState, a: seq<Light>, b: seq<Light>, at: seq<nat>)
    requires a != [] && Relabels(a, b, at) && SameSurroundings(scene, topology, a, b, at)
    ensures NextState(scene, b, topology, state) == NextState(scene, a, topology, state)
  {
    MedianIgnoresOrder(Adjacent(scene.curves, b, topology), Adjacent(scene.curves, a, topology));
    hide Adjacent, Median, Sum, Distances, Sigma, Lean, Neighbours;
  }

  lemma SameShown(
      scene: Scene, topology: Topology, next: LightSetState, a: seq<Light>, b: seq<Light>, at: seq<nat>,
      affinity: real, i: nat)
    requires Relabels(a, b, at) && SameSurroundings(scene, topology, a, b, at)
    requires i < |b| && next.rangeSigma.Some? && next.rangeSigma.value > 0.0
    ensures Shown(scene, b, topology, affinity, next, i) == Shown(scene, a, topology, affinity, next, at[i])
  {
  }

  /** The result of a relabelled set is the relabelled result, and the set remembers the same. */
  lemma ProcessRelabels(
      scene: Scene, topology: Topology, state: LightSetState, a: seq<Rgb>, b: seq<Rgb>, at: seq<nat>,
      affinityA: seq<real>, affinityB: seq<real>)
    requires a != [] && state.Valid() && Relabels(a, b, at)
    requires Relabels(LightsOf(scene.curves, a), LightsOf(scene.curves, b), at)
    requires SameSurroundings(scene, topology, LightsOf(scene.curves, a), LightsOf(scene.curves, b), at)
    requires forall i :: 0 <= i < |at| ==> AffinityAt(affinityB, i) == AffinityAt(affinityA, at[i])
    ensures var (outA, nextA) := Process(scene, a, topology, affinityA, state);
            var (outB, nextB) := Process(scene, b, topology, affinityB, state);
            nextA == nextB && Relabels(outA, outB, at)
  {
    hide Process, LightsOf, SameSurroundings, NextState, Shown, AffinityAt, CurveSet.Encoded, CurveSet.Lawful,
         LightSetState.Valid;
    var la, lb := LightsOf(scene.curves, a), LightsOf(scene.curves, b);
    SameState(scene, topology, state, la, lb, at);
    ResultOfEach(scene, a, topology, affinityA, state);
    ResultOfEach(scene, b, topology, affinityB, state);
    var next := NextState(scene, la, topology, state);
    forall i: nat | i < |at|
      ensures Process(scene, b, topology, affinityB, state).0[i] ==
        Process(scene, a, topology, affinityA, state).0[at[i]]
    {
      SameShown(scene, topology, next, la, lb, at, AffinityAt(affinityB, i), i);
    }
  }

  // -------------------------------------------------------------------------
  // Turning a ring
  // -------------------------------------------------------------------------

  function Turned(n: nat, r: nat): (at: seq<nat>)
    requires r <= n
    ensures |at| == n
  {
    seq(n, i requires 0 <= i < n => Turn(n, r, i))
  }

  lemma RotationRelabels<T>(s: seq<T>, r: nat)
    requires r <= |s|
    ensures Relabels(s, Rotate(s, r), Turned(|s|, r))
  {
  }

  lemma SideRelabels(
      curves: Curves, k: Kernel, a: seq<Light>, b: seq<Light>, at: seq<nat>, i: nat, to: Option<nat>,
      from: Option<nat>, d: real)
    requires Relabels(a, b, at) && i < |at|
    requires to.Some? ==> to.value < |at| && from == Some(at[to.value])
    requires to.None? ==> from.None?
    ensures Side(curves, k, b, i, to, d) == Side(curves, k, a, at[i], from, d)
  {
  }

  lemma {:induction false} TurnedChain(
      curves: Curves, k: Kernel, a: seq<Light>, r: nat, i: nat, radius: nat)
    requires |a| > 2 * CHAIN_RADIUS && r <= |a| && i < |a| && radius <= CHAIN_RADIUS
    ensures ChainAcc(curves, k, Rotate(a, r), true, i, radius) == ChainAcc(curves, k, a, true, Turn(|a|, r, i), radius)
  {
    hide ChainAcc, Side, Rotate, LeftOf, RightOf, Plus, Turn, SquaredSteps, Acc.Weighed;
    if radius == 0 {
      ChainAccStarts(curves, k, a, true, Turn(|a|, r, i));
      ChainAccStarts(curves, k, Rotate(a, r), true, i);
    } else {
      TurnedChain(curves, k, a, r, i, radius - 1);
      TurnedSides(curves, k, a, r, i, radius, SquaredSteps(radius));
      ChainAccUnfolds(curves, k, a, true, Turn(|a|, r, i), radius);
      ChainAccUnfolds(curves, k, Rotate(a, r), true, i, radius);
    }
  }

  lemma TurnedSides(curves: Curves, k: Kernel, a: seq<Light>, r: nat, i: nat, radius: nat, d: real)
    requires |a| > 2 * CHAIN_RADIUS && r <= |a| && i < |a| && 1 <= radius <= CHAIN_RADIUS
    ensures var n, b, turned := |a|, Rotate(a, r), Turn(|a|, r, i);
            && Side(curves, k, b, i, LeftOf(n, true, i, radius), d) ==
               Side(curves, k, a, turned, LeftOf(n, true, turned, radius), d)
            && Side(curves, k, b, i, RightOf(n, true, i, radius), d) ==
               Side(curves, k, a, turned, RightOf(n, true, turned, radius), d)
  {
    var n, b, at := |a|, Rotate(a, r), Turned(|a|, r);
    RotationRelabels(a, r);
    hide Side, Rotate, Relabels;
    SideRelabels(curves, k, a, b, at, i, LeftOf(n, true, i, radius), LeftOf(n, true, at[i], radius), d);
    SideRelabels(curves, k, a, b, at, i, RightOf(n, true, i, radius), RightOf(n, true, at[i], radius), d);
  }

  /** The gaps of a ring are those from every light to the next. */
  lemma RingGaps(curves: Curves, s: seq<Light>)
    requires |s| > 2
    ensures |Adjacent(curves, s, Chain(true))| == |s|
    ensures forall i: nat :: i < |s| ==>
      Adjacent(curves, s, Chain(true))[i] == Gap(curves, s[i].yuv, s[Turn(|s|, 1, i)].yuv)
  {
    hide Gap, StripGaps;
    StripGapsAt(curves, s);
  }

  lemma TurnedGap(curves: Curves, a: seq<Light>, r: nat, i: nat)
    requires |a| > 2 && r <= |a| && i < |a|
    ensures var n, b := |a|, Rotate(a, r);
            Gap(curves, b[i].yuv, b[Turn(n, 1, i)].yuv) ==
              Gap(curves, a[Turn(n, r, i)].yuv, a[Turn(n, 1, Turn(n, r, i))].yuv)
  {
  }

  lemma TurnedGaps(curves: Curves, a: seq<Light>, r: nat)
    requires |a| > 2 && r <= |a|
    ensures Adjacent(curves, Rotate(a, r), Chain(true)) == Rotate(Adjacent(curves, a, Chain(true)), r)
  {
    hide Gap, Adjacent, Rotate, Turn;
    RingGaps(curves, a);
    RingGaps(curves, Rotate(a, r));
    var gaps := Adjacent(curves, a, Chain(true));
    forall i: nat | i < |a|
      ensures Adjacent(curves, Rotate(a, r), Chain(true))[i] == Rotate(gaps, r)[i]
    {
      RotateAt(gaps, r, i);
      TurnedGap(curves, a, r, i);
    }
  }

  lemma TurnedDistances(curves: Curves, a: seq<Light>, r: nat, ambience: Vec3)
    requires r <= |a|
    ensures Distances(curves, Rotate(a, r), ambience) == Rotate(Distances(curves, a, ambience), r)
  {
  }

  lemma TurnedSurroundings(scene: Scene, a: seq<Light>, r: nat)
    requires |a| > 2 * CHAIN_RADIUS && r <= |a|
    requires Relabels(a, Rotate(a, r), Turned(|a|, r))
    ensures SameSurroundings(scene, Chain(true), a, Rotate(a, r), Turned(|a|, r))
  {
    hide Adjacent, Distances, Rotate, Neighbours, Sum, Acc.Weighed, Relabels;
    TurnedGaps(scene.curves, a, r);
    RingGaps(scene.curves, a);
    RotateMultiset(Adjacent(scene.curves, a, Chain(true)), r);
    TurnedDistances(scene.curves, a, r, scene.ambience);
    SumOfRotation(Distances(scene.curves, a, scene.ambience), r);
    forall i: nat, k | i < |a|
      ensures Neighbours(scene.curves, k, Rotate(a, r), Chain(true), i) ==
        Neighbours(scene.curves, k, a, Chain(true), Turned(|a|, r)[i])
    {
      TurnedNeighbours(scene.curves, k, a, r, i);
    }
  }

  lemma TurnedNeighbours(curves: Curves, k: Kernel, a: seq<Light>, r: nat, i: nat)
    requires |a| > 2 * CHAIN_RADIUS && r <= |a| && i < |a|
    ensures Turned(|a|, r)[i] < |a|
    ensures Neighbours(curves, k, Rotate(a, r), Chain(true), i) ==
      Neighbours(curves, k, a, Chain(true), Turned(|a|, r)[i])
  {
    hide ChainAcc, Rotate;
    TurnedChain(curves, k, a, r, i, CHAIN_RADIUS);
  }

  lemma LightsOfRotation(curves: Curves, colors: seq<Rgb>, r: nat)
    requires r <= |colors|
    ensures LightsOf(curves, Rotate(colors, r)) == Rotate(LightsOf(curves, colors), r)
  {
  }

  lemma TurnedLights(scene: Scene, colors: seq<Rgb>, r: nat)
    requires |colors| > 2 * CHAIN_RADIUS && r <= |colors|
    ensures Relabels(LightsOf(scene.curves, colors), LightsOf(scene.curves, Rotate(colors, r)), Turned(|colors|, r))
    ensures SameSurroundings(
      scene, Chain(true),
      LightsOf(scene.curves, colors), LightsOf(scene.curves, Rotate(colors, r)), Turned(|colors|, r))
  {
    var lights := LightsOf(scene.curves, colors);
    LightsOfRotation(scene.curves, colors, r);
    hide LightsOf, SameSurroundings, Rotate, Turned;
    RotationRelabels(lights, r);
    TurnedSurroundings(scene, lights, r);
  }

  lemma TurningAWideRing(
      scene: Scene, colors: seq<Rgb>, r: nat, affinity: seq<real>, turned: seq<real>, state: LightSetState)
    requires |colors| > 2 * CHAIN_RADIUS && r <= |colors| && state.Valid()
    requires forall i: nat :: i < |colors| ==> AffinityAt(turned, i) == AffinityAt(affinity, Turn(|colors|, r, i))
    ensures Process(scene, Rotate(colors, r), Chain(true), turned, state).1 ==
      Process(scene, colors, Chain(true), affinity, state).1
    ensures Process(scene, Rotate(colors, r), Chain(true), turned, state).0 ==
      Rotate(Process(scene, colors, Chain(true), affinity, state).0, r)
  {
    hide LightsOf, SameSurroundings, AffinityAt, Process, Rotate, Turn, Relabels;
    TurnedLights(scene, colors, r);
    RotationRelabels(colors, r);
    ProcessRelabels(scene, Chain(true), state, colors, Rotate(colors, r), Turned(|colors|, r), affinity, turned);
    RelabelledIs(
      Process(scene, colors, Chain(true), affinity, state).0,
      Process(scene, Rotate(colors, r), Chain(true), turned, state).0, r);
  }

  lemma RelabelledIs<T>(a: seq<T>, b: seq<T>, r: nat)
    requires r <= |a| && Relabels(a, b, Turned(|a|, r))
    ensures b == Rotate(a, r)
  {
  }

  // -------------------------------------------------------------------------
  // Mirroring a strip
  // -------------------------------------------------------------------------

  function Mirrored(n: nat): (at: seq<nat>)
    ensures |at| == n
  {
    seq(n, i requires 0 <= i < n => n - 1 - i)
  }

  lemma MirroredAt(n: nat)
    ensures forall i: nat :: i < n ==> Mirrored(n)[i] == n - 1 - i
  {
  }

  lemma ReversalRelabels<T>(s: seq<T>)
    ensures Relabels(s, Reverse(s), Mirrored(|s|))
  {
  }

  lemma {:induction false} MirroredChain(
      curves: Curves, k: Kernel, a: seq<Light>, closed: bool, i: nat, radius: nat)
    requires i < |a| && radius <= CHAIN_RADIUS
    ensures ChainAcc(curves, k, Reverse(a), closed, i, radius) == ChainAcc(curves, k, a, closed, |a| - 1 - i, radius)
  {
    hide ChainAcc, Side, Reverse, LeftOf, RightOf, Plus, SquaredSteps, Acc.Weighed;
    if radius == 0 {
      ChainAccStarts(curves, k, a, closed, |a| - 1 - i);
      ChainAccStarts(curves, k, Reverse(a), closed, i);
    } else {
      var b, d := Reverse(a), SquaredSteps(radius);
      MirroredChain(curves, k, a, closed, i, radius - 1);
      MirroredSides(curves, k, a, closed, i, radius, d);
      ChainAccUnfolds(curves, k, a, closed, |a| - 1 - i, radius);
      ChainAccUnfolds(curves, k, b, closed, i, radius);
      PlusSwaps(
        ChainAcc(curves, k, b, closed, i, radius - 1),
        Side(curves, k, b, i, LeftOf(|a|, closed, i, radius), d),
        Side(curves, k, b, i, RightOf(|a|, closed, i, radius), d));
    }
  }

  lemma PlusSwaps(a: Acc, b: Acc, c: Acc)
    ensures Plus(Plus(a, b), c) == Plus(Plus(a, c), b)
  {
  }

  lemma MirroredSides(curves: Curves, k: Kernel, a: seq<Light>, closed: bool, i: nat, radius: nat, d: real)
    requires i < |a| && 1 <= radius <= CHAIN_RADIUS
    ensures var n, b, across := |a|, Reverse(a), |a| - 1 - i;
            && Side(curves, k, b, i, LeftOf(n, closed, i, radius), d) ==
               Side(curves, k, a, across, RightOf(n, closed, across, radius), d)
            && Side(curves, k, b, i, RightOf(n, closed, i, radius), d) ==
               Side(curves, k, a, across, LeftOf(n, closed, across, radius), d)
  {
    hide Side, Reverse, Relabels, Mirrored;
    var n, b, at := |a|, Reverse(a), Mirrored(|a|);
    ReversalRelabels(a);
    MirroredAt(n);
    SideRelabels(curves, k, a, b, at, i, LeftOf(n, closed, i, radius), RightOf(n, closed, at[i], radius), d);
    SideRelabels(curves, k, a, b, at, i, RightOf(n, closed, i, radius), LeftOf(n, closed, at[i], radius), d);
  }

  lemma MirroredStripGaps(curves: Curves, a: seq<Light>)
    ensures StripGaps(curves, Reverse(a)) == Reverse(StripGaps(curves, a))
  {
    hide Gap, Reverse, StripGaps;
    StripGapsAt(curves, a);
    StripGapsAt(curves, Reverse(a));
    forall i: nat | i + 1 < |a|
      ensures StripGaps(curves, Reverse(a))[i] == Reverse(StripGaps(curves, a))[i]
    {
      ReverseAt(StripGaps(curves, a), i);
      ReverseAt(a, i);
      ReverseAt(a, i + 1);
      GapIsSymmetric(curves, a[|a| - 2 - i].yuv, a[|a| - 1 - i].yuv);
    }
  }

  lemma MirroredGaps(curves: Curves, a: seq<Light>, closed: bool)
    ensures multiset(Adjacent(curves, Reverse(a), Chain(closed))) == multiset(Adjacent(curves, a, Chain(closed)))
  {
    hide StripGaps, Gap, ClosingGap, Reverse;
    MirroredStripGaps(curves, a);
    ReverseMultiset(StripGaps(curves, a));
    MirroredClosingGap(curves, a);
  }

  lemma MirroredClosingGap(curves: Curves, a: seq<Light>)
    ensures ClosingGap(curves, Reverse(a)) == ClosingGap(curves, a)
  {
    if |a| > 2 {
      GapIsSymmetric(curves, a[0].yuv, a[|a| - 1].yuv);
    }
    hide Gap;
  }

  lemma MirroredDistances(curves: Curves, a: seq<Light>, ambience: Vec3)
    ensures Distances(curves, Reverse(a), ambience) == Reverse(Distances(curves, a, ambience))
  {
  }

  lemma MirroredSurroundings(scene: Scene, a: seq<Light>, closed: bool)
    requires Relabels(a, Reverse(a), Mirrored(|a|))
    ensures SameSurroundings(scene, Chain(closed), a, Reverse(a), Mirrored(|a|))
  {
    MirroredGaps(scene.curves, a, closed);
    MirroredDistances(scene.curves, a, scene.ambience);
    SumOfReversal(Distances(scene.curves, a, scene.ambience));
    hide Adjacent, Distances, Reverse, ChainAcc;
    forall i: nat, k | i < |a|
      ensures Neighbours(scene.curves, k, Reverse(a), Chain(closed), i) ==
        Neighbours(scene.curves, k, a, Chain(closed), |a| - 1 - i)
    {
      MirroredChain(scene.curves, k, a, closed, i, CHAIN_RADIUS);
    }
  }

  lemma LightsOfReversal(curves: Curves, colors: seq<Rgb>)
    ensures LightsOf(curves, Reverse(colors)) == Reverse(LightsOf(curves, colors))
  {
  }

  lemma MirroredLights(scene: Scene, colors: seq<Rgb>, closed: bool)
    ensures Relabels(LightsOf(scene.curves, colors), LightsOf(scene.curves, Reverse(colors)), Mirrored(|colors|))
    ensures SameSurroundings(
      scene, Chain(closed), LightsOf(scene.curves, colors), LightsOf(scene.curves, Reverse(colors)), Mirrored(|colors|))
  {
    var lights := LightsOf(scene.curves, colors);
    LightsOfReversal(scene.curves, colors);
    hide LightsOf, SameSurroundings, Reverse, Mirrored;
    ReversalRelabels(lights);
    MirroredSurroundings(scene, lights, closed);
  }

  lemma MirroredIs<T>(a: seq<T>, b: seq<T>)
    requires Relabels(a, b, Mirrored(|a|))
    ensures b == Reverse(a)
  {
  }

  lemma MirroringNothing(
      scene: Scene, closed: bool, affinity: seq<real>, mirrored: seq<real>, state: LightSetState)
    requires state.Valid()
    ensures Reverse<Rgb>([]) == []
    ensures Process(scene, [], Chain(closed), mirrored, state) == Process(scene, [], Chain(closed), affinity, state)
    ensures Process(scene, [], Chain(closed), affinity, state).0 == []
  {
  }

  /** Reversing a strip, open or closed, with its affinities reverses the result and leaves the same
      memory. */
  lemma MirroringAStrip(
      scene: Scene, colors: seq<Rgb>, closed: bool, affinity: seq<real>, mirrored: seq<real>, state: LightSetState)
    requires state.Valid()
    requires forall i: nat :: i < |colors| ==> AffinityAt(mirrored, i) == AffinityAt(affinity, |colors| - 1 - i)
    ensures Process(scene, Reverse(colors), Chain(closed), mirrored, state).1 ==
      Process(scene, colors, Chain(closed), affinity, state).1
    ensures Process(scene, Reverse(colors), Chain(closed), mirrored, state).0 ==
      Reverse(Process(scene, colors, Chain(closed), affinity, state).0)
  {
    hide LightsOf, SameSurroundings, AffinityAt, Process, Reverse, Relabels, Mirrored;
    if colors == [] {
      MirroringNothing(scene, closed, affinity, mirrored, state);
    } else {
      MirroredAt(|colors|);
      MirroredLights(scene, colors, closed);
      ReversalRelabels(colors);
      ProcessRelabels(scene, Chain(closed), state, colors, Reverse(colors), Mirrored(|colors|), affinity, mirrored);
      MirroredIs(
        Process(scene, colors, Chain(closed), affinity, state).0,
        Process(scene, Reverse(colors), Chain(closed), mirrored, state).0);
    }
  }

  /** Turning a ring whose lights all have the same neighbourhood, with its affinities, turns the
      result and leaves the same memory. */
  lemma TurningARing(
      scene: Scene, colors: seq<Rgb>, r: nat, affinity: seq<real>, turned: seq<real>, state: LightSetState)
    requires |colors| > 2 * CHAIN_RADIUS || |colors| <= 2
    requires r <= |colors| && state.Valid()
    requires forall i: nat :: i < |colors| ==> AffinityAt(turned, i) == AffinityAt(affinity, Turn(|colors|, r, i))
    ensures Process(scene, Rotate(colors, r), Chain(true), turned, state).1 ==
      Process(scene, colors, Chain(true), affinity, state).1
    ensures Process(scene, Rotate(colors, r), Chain(true), turned, state).0 ==
      Rotate(Process(scene, colors, Chain(true), affinity, state).0, r)
  {
    hide Process, AffinityAt, Rotate, Reverse;
    if |colors| > 2 * CHAIN_RADIUS {
      TurningAWideRing(scene, colors, r, affinity, turned, state);
    } else if r == 0 || r == |colors| {
      TurningByNothing(scene, colors, r, affinity, turned, state);
    } else {
      TurnOfTwo(colors);
      TurnOfTwo(Process(scene, colors, Chain(true), affinity, state).0);
      MirroringAStrip(scene, colors, true, affinity, turned, state);
    }
  }

  lemma TurnOfTwo<T>(s: seq<T>)
    requires |s| == 2
    ensures Rotate(s, 1) == Reverse(s)
  {
  }

  lemma TurningByNothing(
      scene: Scene, colors: seq<Rgb>, r: nat, affinity: seq<real>, turned: seq<real>, state: LightSetState)
    requires (r == 0 || r == |colors|) && state.Valid()
    requires forall i: nat :: i < |colors| ==> AffinityAt(turned, i) == AffinityAt(affinity, Turn(|colors|, r, i))
    ensures Process(scene, Rotate(colors, r), Chain(true), turned, state).1 ==
      Process(scene, colors, Chain(true), affinity, state).1
    ensures Process(scene, Rotate(colors, r), Chain(true), turned, state).0 ==
      Rotate(Process(scene, colors, Chain(true), affinity, state).0, r)
  {
    assert Rotate(colors, r) == colors;
    hide Shown, AffinityAt, NextState, LightsOf;
    assert Process(scene, colors, Chain(true), turned, state).0 ==
      Process(scene, colors, Chain(true), affinity, state).0;
  }
}
