/** How lights of one set act on each other: an average stays with the lights it can tell apart from
    the rest, and every neighbour that counts pulls it. */
module SceneGroups {
  import opened Arith
  import opened SceneFilter
  import opened SceneMath
  import opened SceneSymmetry
  import opened Wrappers

  // -------------------------------------------------------------------------
  // An average stays near the lights that are like it
  // -------------------------------------------------------------------------

  predicate LightBetween(lo: Light, l: Light, hi: Light) {
    && lo.lin.r <= l.lin.r <= hi.lin.r
    && lo.lin.g <= l.lin.g <= hi.lin.g
    && lo.lin.b <= l.lin.b <= hi.lin.b
    && lo.yuv.y <= l.yuv.y <= hi.yuv.y
  }

  predicate InUnit(l: Light) {
    && 0.0 <= l.lin.r <= 1.0 && 0.0 <= l.lin.g <= 1.0 && 0.0 <= l.lin.b <= 1.0
    && 0.0 <= l.yuv.y <= 1.0
  }

  /** A weighted sum `x` of total weight `w`, all but `e` of it between `lo` and `hi`. */
  predicate SpansWithin(x: real, w: real, lo: real, hi: real, e: real) {
    lo * w - e <= x <= hi * w + e
  }

  predicate AccWithin(lo: Light, a: Acc, hi: Light, e: real) {
    && SpansWithin(a.c.r, a.wc, lo.lin.r, hi.lin.r, e)
    && SpansWithin(a.c.g, a.wc, lo.lin.g, hi.lin.g, e)
    && SpansWithin(a.c.b, a.wc, lo.lin.b, hi.lin.b, e)
    && SpansWithin(a.y, a.wy, lo.yuv.y, hi.yuv.y, e)
  }

  lemma NothingWithin(lo: Light, hi: Light, e: real)
    requires e >= 0.0
    ensures AccWithin(lo, NOTHING, hi, e)
  {
  }

  lemma SpansWithinAdd(x: real, w: real, d: real, x': real, w': real, e: real, lo: real, hi: real)
    requires SpansWithin(x, w, lo, hi, d) && SpansWithin(x', w', lo, hi, e)
    ensures SpansWithin(x + x', w + w', lo, hi, d + e)
  {
  }

  lemma PlusWithin(lo: Light, a: Acc, d: real, b: Acc, e: real, hi: Light)
    requires AccWithin(lo, a, hi, d) && AccWithin(lo, b, hi, e)
    ensures AccWithin(lo, Plus(a, b), hi, d + e)
  {
    hide SpansWithin;
    SpansWithinAdd(a.c.r, a.wc, d, b.c.r, b.wc, e, lo.lin.r, hi.lin.r);
    SpansWithinAdd(a.c.g, a.wc, d, b.c.g, b.wc, e, lo.lin.g, hi.lin.g);
    SpansWithinAdd(a.c.b, a.wc, d, b.c.b, b.wc, e, lo.lin.b, hi.lin.b);
    SpansWithinAdd(a.y, a.wy, d, b.y, b.wy, e, lo.yuv.y, hi.yuv.y);
  }

  lemma ShareWithin(x: real, v: real, w: real, lo: real, hi: real, e: real)
    requires x == w * v && w >= 0.0 && e >= 0.0 && lo <= v <= hi
    ensures SpansWithin(x, w, lo, hi, e)
  {
    ScaleGrows(lo, v, w);
    ScaleGrows(v, hi, w);
    assert lo * w <= x <= hi * w;
  }

  lemma ScaleGrows(a: real, b: real, w: real)
    requires a <= b && w >= 0.0
    ensures a * w <= b * w
  {
  }

  lemma WeighingWithin(lo: Light, l: Light, hi: Light, wc: real, wy: real, e: real)
    requires LightBetween(lo, l, hi) && wc >= 0.0 && wy >= 0.0 && e >= 0.0
    ensures AccWithin(lo, Weighing(l, wc, wy), hi, e)
  {
    hide SpansWithin;
    var a := Weighing(l, wc, wy);
    ShareWithin(a.c.r, l.lin.r, wc, lo.lin.r, hi.lin.r, e);
    ShareWithin(a.c.g, l.lin.g, wc, lo.lin.g, hi.lin.g, e);
    ShareWithin(a.c.b, l.lin.b, wc, lo.lin.b, hi.lin.b, e);
    ShareWithin(a.y, l.yuv.y, wy, lo.yuv.y, hi.yuv.y, e);
  }

  /** A light of little weight does little harm. */
  lemma SmallShareWithin(x: real, v: real, w: real, lo: real, hi: real, e: real)
    requires x == w * v && 0.0 <= w <= e && 0.0 <= v <= 1.0 && 0.0 <= lo <= 1.0 && 0.0 <= hi <= 1.0
    ensures SpansWithin(x, w, lo, hi, e)
  {
    Product(w, 1.0 - lo);
    Product(w, 1.0 - v);
    Product(w, v);
    Product(w, hi);
    assert w * (1.0 - lo) == w - lo * w && w * (1.0 - v) == w - x && w * hi == hi * w;
  }

  lemma SmallWeighingWithin(lo: Light, l: Light, hi: Light, wc: real, wy: real, e: real)
    requires InUnit(lo) && InUnit(l) && InUnit(hi) && 0.0 <= wc <= e && 0.0 <= wy <= e
    ensures AccWithin(lo, Weighing(l, wc, wy), hi, e)
  {
    hide SpansWithin;
    var a := Weighing(l, wc, wy);
    SmallShareWithin(a.c.r, l.lin.r, wc, lo.lin.r, hi.lin.r, e);
    SmallShareWithin(a.c.g, l.lin.g, wc, lo.lin.g, hi.lin.g, e);
    SmallShareWithin(a.c.b, l.lin.b, wc, lo.lin.b, hi.lin.b, e);
    SmallShareWithin(a.y, l.yuv.y, wy, lo.yuv.y, hi.yuv.y, e);
  }

  lemma ClosenessAtMostOne(curves: Curves, d: real, inverse: real)
    requires d >= 0.0 && inverse >= 0.0
    ensures Closeness(curves, d, inverse) <= 1.0
  {
    Product(d, inverse);
    assert -d * inverse <= 0.0;
  }

  lemma AtMostTheSmaller(a: real, b: real, e: real)
    requires 0.0 <= a <= 1.0 && 0.0 <= b <= e
    ensures 0.0 <= a * b <= e
  {
    Product(a, b);
    Product(1.0 - a, b);
  }

  /** `other` is so unlike `me` that it weighs at most `e`, wherever it stands. */
  predicate Unlike(curves: Curves, k: Kernel, me: Light, other: Light, e: real) {
    && k.chroma >= 0.0 && k.luma >= 0.0
    && InUnit(other) && Closeness(curves, DistanceSq(me.yuv, other.yuv), k.range) <= e
  }

  predicate Bounded(curves: Curves, k: Kernel, me: Light, lo: Light, other: Light, hi: Light, e: real) {
    LightBetween(lo, other, hi) || (InUnit(lo) && InUnit(hi) && Unlike(curves, k, me, other, e))
  }

  lemma TermWithin(curves: Curves, k: Kernel, me: Light, lo: Light, other: Light, hi: Light, d: real, e: real)
    requires Bounded(curves, k, me, lo, other, hi, e) && d >= 0.0 && e >= 0.0
    ensures AccWithin(lo, Term(curves, k, me, other, d), hi, e)
  {
    hide AccWithin, DistanceSq, LightBetween, InUnit, Closeness;
    var t := Term(curves, k, me, other, d);
    if LightBetween(lo, other, hi) {
      WeighingWithin(lo, other, hi, t.wc, t.wy, e);
    } else {
      ClosenessAtMostOne(curves, d, k.chroma);
      ClosenessAtMostOne(curves, d, k.luma);
      var range := Closeness(curves, DistanceSq(me.yuv, other.yuv), k.range);
      AtMostTheSmaller(Closeness(curves, d, k.chroma), range, e);
      AtMostTheSmaller(Closeness(curves, d, k.luma), range, e);
      SmallWeighingWithin(lo, other, hi, t.wc, t.wy, e);
    }
  }

  /** Every light lies between `lo` and `hi`, or is unlike light `i`. */
  ghost predicate AllBounded(curves: Curves, k: Kernel, s: seq<Light>, i: nat, lo: Light, hi: Light, e: real)
    requires i < |s|
  {
    forall j :: 0 <= j < |s| ==> Bounded(curves, k, s[i], lo, s[j], hi, e)
  }

  lemma SideWithin(
      curves: Curves, k: Kernel, s: seq<Light>, i: nat, at: Option<nat>, d: real, lo: Light, hi: Light, e: real)
    requires i < |s| && AllBounded(curves, k, s, i, lo, hi, e) && d >= 0.0 && e >= 0.0
    requires at.Some? ==> at.value < |s|
    ensures AccWithin(lo, Side(curves, k, s, i, at, d), hi, e)
  {
    NothingWithin(lo, hi, e);
    hide AccWithin, Term, Bounded;
    if at.Some? {
      TermWithin(curves, k, s[i], lo, s[at.value], hi, d, e);
    }
  }

  /** What `n` lights of weight `e` can add up to. */
  function Slack(n: nat, e: real): real {
    n as real * e
  }

  lemma SlackGrows(n: nat, e: real)
    requires e >= 0.0
    ensures Slack(0, e) == 0.0 && Slack(n, e) >= 0.0 && Slack(n + 1, e) == Slack(n, e) + e
  {
    Product(n as real, e);
    assert (n + 1) as real == n as real + 1.0;
  }

  lemma SlackOrder(m: nat, n: nat, e: real)
    requires m <= n && e >= 0.0
    ensures Slack(m, e) <= Slack(n, e)
  {
    Product((n - m) as real, e);
    assert (n - m) as real * e == Slack(n, e) - Slack(m, e);
  }

  lemma {:induction false} ChainWithin(
      curves: Curves, k: Kernel, s: seq<Light>, closed: bool, i: nat, radius: nat, lo: Light, hi: Light, e: real)
    requires i < |s| && AllBounded(curves, k, s, i, lo, hi, e) && radius <= CHAIN_RADIUS && e >= 0.0
    ensures AccWithin(lo, ChainAcc(curves, k, s, closed, i, radius), hi, Slack(2 * radius, e))
  {
    hide AccWithin, ChainAcc, Side, Plus, LeftOf, RightOf, AllBounded, Acc.Weighed, Slack;
    if radius == 0 {
      SlackGrows(0, e);
      NothingWithin(lo, hi, Slack(0, e));
      ChainAccStarts(curves, k, s, closed, i);
    } else {
      var d := SquaredSteps(radius);
      var inner := ChainAcc(curves, k, s, closed, i, radius - 1);
      var left := Side(curves, k, s, i, LeftOf(|s|, closed, i, radius), d);
      var right := Side(curves, k, s, i, RightOf(|s|, closed, i, radius), d);
      ChainWithin(curves, k, s, closed, i, radius - 1, lo, hi, e);
      SideWithin(curves, k, s, i, LeftOf(|s|, closed, i, radius), d, lo, hi, e);
      SideWithin(curves, k, s, i, RightOf(|s|, closed, i, radius), d, lo, hi, e);
      PlusWithin(lo, inner, Slack(2 * (radius - 1), e), left, e, hi);
      PlusWithin(lo, Plus(inner, left), Slack(2 * (radius - 1), e) + e, right, e, hi);
      ChainAccUnfolds(curves, k, s, closed, i, radius);
      SlackGrows(2 * (radius - 1), e);
      SlackGrows(2 * (radius - 1) + 1, e);
    }
  }

  lemma {:induction false} PointsWithin(
      curves: Curves, k: Kernel, s: seq<Light>, pos: seq<(real, real)>, i: nat, end: nat, lo: Light, hi: Light,
      e: real)
    requires i < |s| && AllBounded(curves, k, s, i, lo, hi, e) && e >= 0.0
    requires i < |pos| && end <= |s| && end <= |pos|
    ensures AccWithin(lo, PointAcc(curves, k, s, pos, i, end), hi, Slack(end, e))
  {
    hide AccWithin, Term, Plus, Bounded, Acc.Weighed, Slack, PlaneDistanceSq;
    if end == 0 {
      SlackGrows(0, e);
      NothingWithin(lo, hi, Slack(0, e));
    } else {
      PointsWithin(curves, k, s, pos, i, end - 1, lo, hi, e);
      SlackGrows(end - 1, e);
      var before := PointAcc(curves, k, s, pos, i, end - 1);
      if end - 1 != i {
        var d := PlaneDistanceSq(pos[i], pos[end - 1]);
        PlaneDistanceIsNotNegative(pos[i], pos[end - 1]);
        TermWithin(curves, k, s[i], lo, s[end - 1], hi, d, e);
        PlusWithin(lo, before, Slack(end - 1, e), Term(curves, k, s[i], s[end - 1], d), e, hi);
      } else {
        MoreSlack(lo, before, hi, Slack(end - 1, e), Slack(end, e));
      }
    }
  }

  lemma MoreSlack(lo: Light, a: Acc, hi: Light, d: real, e: real)
    requires AccWithin(lo, a, hi, d) && d <= e
    ensures AccWithin(lo, a, hi, e)
  {
  }

  lemma PlaneDistanceIsNotNegative(p: (real, real), q: (real, real))
    ensures PlaneDistanceSq(p, q) >= 0.0
  {
    SquareIsZero(p.0 - q.0);
    SquareIsZero(p.1 - q.1);
    assert PlaneDistanceSq(p, q) == Square(p.0 - q.0) + Square(p.1 - q.1);
  }

  /** How many lights can act on one. */
  function Reach(topology: Topology, n: nat): nat {
    if topology.Chain? then 2 * CHAIN_RADIUS else n
  }

  lemma NeighboursWithin(
      curves: Curves, k: Kernel, s: seq<Light>, topology: Topology, i: nat, lo: Light, hi: Light, e: real)
    requires i < |s| && AllBounded(curves, k, s, i, lo, hi, e) && e >= 0.0
    ensures AccWithin(lo, Neighbours(curves, k, s, topology, i), hi, Slack(Reach(topology, |s|), e))
  {
    hide AccWithin, ChainAcc, PointAcc, AllBounded, Acc.Weighed, Slack;
    match topology
    case Chain(closed) => ChainWithin(curves, k, s, closed, i, CHAIN_RADIUS, lo, hi, e);
    case Points(pos) =>
      if i < |pos| {
        var end := Min(|s|, |pos|);
        PointsWithin(curves, k, s, pos, i, end, lo, hi, e);
        SlackOrder(end, |s|, e);
        MoreSlack(lo, PointAcc(curves, k, s, pos, i, end), hi, Slack(end, e), Slack(|s|, e));
      } else {
        SlackGrows(|s|, e);
        NothingWithin(lo, hi, Slack(|s|, e));
      }
  }

  lemma MeanWithin(x: real, w: real, lo: real, hi: real, e: real)
    requires SpansWithin(x, w, lo, hi, e) && w >= 1.0 && e >= 0.0
    ensures lo - e <= x / w <= hi + e
  {
    QuotientIs(x, w, x / w);
    Product(w - 1.0, e);
    assert (lo - e) * w <= (x / w) * w <= (hi + e) * w;
    ScaleOrder(x / w, lo - e, w);
    ScaleOrder(hi + e, x / w, w);
  }

  predicate MeansWithin(lo: Light, m: Means, hi: Light, e: real) {
    && lo.lin.r - e <= m.wide.r <= hi.lin.r + e
    && lo.lin.g - e <= m.wide.g <= hi.lin.g + e
    && lo.lin.b - e <= m.wide.b <= hi.lin.b + e
    && lo.yuv.y - e <= m.yNarrow <= hi.yuv.y + e
  }

  /** Every mean of a light lies between the extremes of the lights like it, up to the weight the rest
      can have: `e` each. */
  lemma MeansStayWithTheirOwn(
      curves: Curves, k: Kernel, s: seq<Light>, topology: Topology, i: nat, lo: Light, hi: Light, e: real)
    requires i < |s| && AllBounded(curves, k, s, i, lo, hi, e) && LightBetween(lo, s[i], hi) && e >= 0.0
    ensures MeansWithin(lo, MeansOf(Neighbours(curves, k, s, topology, i), s[i]), hi, Slack(Reach(topology, |s|), e))
  {
    hide AccWithin, Neighbours, AllBounded, LightBetween, Slack;
    var around, slack := Neighbours(curves, k, s, topology, i), Slack(Reach(topology, |s|), e);
    NeighboursWithin(curves, k, s, topology, i, lo, hi, e);
    SlackGrows(Reach(topology, |s|), e);
    WeighingWithin(lo, s[i], hi, 1.0, 1.0, 0.0);
    PlusWithin(lo, around, slack, Weighing(s[i], 1.0, 1.0), 0.0, hi);
    MeansOfWithin(lo, around, s[i], hi, slack);
  }

  lemma MeansOfWithin(lo: Light, around: Acc, me: Light, hi: Light, e: real)
    requires around.Weighed() && e >= 0.0 && AccWithin(lo, Plus(around, Weighing(me, 1.0, 1.0)), hi, e)
    ensures MeansWithin(lo, MeansOf(around, me), hi, e)
  {
    hide SpansWithin;
    var all := Plus(around, Weighing(me, 1.0, 1.0));
    MeanWithin(all.c.r, all.wc, lo.lin.r, hi.lin.r, e);
    MeanWithin(all.c.g, all.wc, lo.lin.g, hi.lin.g, e);
    MeanWithin(all.c.b, all.wc, lo.lin.b, hi.lin.b, e);
    MeanWithin(all.y, all.wy, lo.yuv.y, hi.yuv.y, e);
  }
}
