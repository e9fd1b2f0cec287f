/** Colours, distances and the separation scale of the scene stage, over the reals. */
module SceneMath {
  import opened Arith
  import opened Frames

  datatype Vec3 = Vec3(r: real, g: real, b: real)

  /** CIE luminance and u'v' chromaticity. */
  datatype Yuv = Yuv(y: real, u: real, v: real)

  /** The transcendental curves and the two interval helpers of the smoothing module. */
  datatype CurveSet = CurveSet(
    lut: u8 -> real,
    encode: real -> u8,
    exp: real -> real,
    sqrt: real -> real,
    rate: (real, nat) -> real,
    retention: (real, nat) -> real)
  {
    ghost predicate Lawful() {
      && (forall v: u8 :: 0.0 <= lut(v) <= 1.0)
      && (forall x: real :: exp(x) >= 0.0)
      && (forall x: real, y: real :: x <= y ==> exp(x) <= exp(y))
      && exp(0.0) == 1.0
      && (forall x: real :: sqrt(x) >= 0.0)
      && sqrt(0.0) == 0.0
      && (forall x: real, y: real :: 0.0 <= x < y ==> sqrt(x) < sqrt(y))
      && (forall r: real, ms: nat :: 0.0 <= rate(r, ms) <= 1.0)
      && (forall r: real, ms: nat :: 0.0 <= retention(r, ms) <= 1.0)
    }

    function Linear(p: Rgb): Vec3 {
      Vec3(lut(p.r), lut(p.g), lut(p.b))
    }

    function Encoded(v: Vec3): Rgb {
      Rgb(encode(v.r), encode(v.g), encode(v.b))
    }
  }

  ghost const FLAT := CurveSet((v: u8) => 0.0, x => 0, x => 1.0, AbsReal, (r, ms) => 0.0, (r, ms) => 0.0)

  /** Any curves at all with these ranges. */
  type Curves = c: CurveSet | c.Lawful() ghost witness FLAT

  const CHROMA_UNIT: real := 0.05
  const LUMA_UNIT: real := 0.25
  const CHROMA_TRUST_Y: real := 0.20

  function ClampReal(x: real, lo: real, hi: real): real {
    if x < lo then lo else if x > hi then hi else x
  }

  function MinReal(a: real, b: real): real {
    if a <= b then a else b
  }

  function MaxReal(a: real, b: real): real {
    if a >= b then a else b
  }

  function Luma(c: Vec3): real {
    0.2126 * c.r + 0.7152 * c.g + 0.0722 * c.b
  }

  /** `linear_to_yuv`; near-black maps to the white point's chroma. */
  function ToYuv(c: Vec3): Yuv {
    if Denominator(c) <= 0.000001 then Yuv(0.0, 0.1978, 0.4683)
    else Yuv(Luma(c), 4.0 * Tristimulus(c).0 / Denominator(c), 9.0 * Luma(c) / Denominator(c))
  }

  /** CIE X and Z; Y is the luminance. */
  function Tristimulus(c: Vec3): (real, real) {
    (0.4124 * c.r + 0.3576 * c.g + 0.1805 * c.b, 0.0193 * c.r + 0.1192 * c.g + 0.9505 * c.b)
  }

  /** The sum the chromaticities are shares of. */
  function Denominator(c: Vec3): real {
    Tristimulus(c).0 + 15.0 * Luma(c) + 3.0 * Tristimulus(c).1
  }

  /** Every grey has white's chroma, which to four places is the one near-black is given. */
  lemma GreysHaveTheWhitePoint(level: real)
    requires level > 0.000001
    ensures
      var grey := ToYuv(Vec3(level, level, level));
      && grey.y == level
      && 0.1978 <= grey.u < 0.1979 && 0.4683 <= grey.v < 0.4684
  {
    var v := Vec3(level, level, level);
    assert Luma(v) == level && Tristimulus(v).0 == 0.9505 * level && Denominator(v) == 19.2175 * level;
    ShareOfLevel(4.0 * 0.9505, level);
    ShareOfLevel(9.0, level);
  }

  lemma ShareOfLevel(share: real, level: real)
    requires level > 0.0
    ensures share * level / (19.2175 * level) == share / 19.2175
  {
    QuotientIs(share * level, 19.2175 * level, share / 19.2175);
  }

  function Times(a: real, b: real): real {
    a * b
  }

  function Square(x: real): real {
    x * x
  }

  lemma Product(a: real, b: real)
    requires a >= 0.0 && b >= 0.0
    ensures a * b >= 0.0
  {
  }

  lemma Positive(a: real, b: real)
    requires a > 0.0 && b > 0.0
    ensures Times(a, b) > 0.0
  {
  }

  lemma SquareIsPositive(x: real)
    requires x > 0.0
    ensures Square(x) > 0.0
  {
    Positive(x, x);
    assert Square(x) == Times(x, x);
  }

  /** The cubic between its ends; `t` is in the unit interval. */
  function Ease(t: real): real {
    Times(Square(t), 3.0 - 2.0 * t)
  }

  /** How far `x` has come from `lo` to `hi`. */
  function Progress(lo: real, hi: real, x: real): (t: real)
    requires lo < hi
    ensures 0.0 <= t <= 1.0
  {
    ClampReal((x - lo) / (hi - lo), 0.0, 1.0)
  }

  function SmoothStep(lo: real, hi: real, x: real): real
    requires lo < hi
  {
    Ease(Progress(lo, hi, x))
  }

  lemma EaseComplement(t: real)
    ensures 1.0 - Ease(t) == Times(Square(1.0 - t), 1.0 + 2.0 * t)
  {
  }

  /** The cubic leaves 0 and reaches 1 only at its ends. */
  lemma EaseStarts(t: real)
    requires 0.0 <= t <= 1.0
    ensures Ease(t) >= 0.0 && (Ease(t) == 0.0 <==> t == 0.0)
  {
    assert t == 0.0 ==> Square(t) == 0.0 && Ease(t) == 0.0;
    if t > 0.0 {
      SquareIsPositive(t);
      hide Square, Times;
      Positive(Square(t), 3.0 - 2.0 * t);
    }
  }

  lemma EaseEnds(t: real)
    requires 0.0 <= t <= 1.0
    ensures Ease(t) <= 1.0 && (Ease(t) == 1.0 <==> t == 1.0)
  {
    EaseComplement(t);
    assert t == 1.0 ==> Square(t) == 1.0 && Ease(t) == 1.0;
    if t < 1.0 {
      SquareIsPositive(1.0 - t);
      hide Square, Times, Ease;
      Positive(Square(1.0 - t), 1.0 + 2.0 * t);
    }
  }

  /** The cubic is flat at both ends, unlike a straight line. */
  lemma EaseIsFlatAtItsEnds(t: real)
    requires 0.0 <= t <= 1.0
    ensures Ease(t) <= 3.0 * Square(t)
    ensures 1.0 - Ease(t) <= 3.0 * Square(1.0 - t)
  {
    EaseComplement(t);
    SquareTimes(t, 3.0 - 2.0 * t);
    SquareTimes(1.0 - t, 1.0 + 2.0 * t);
    hide Square;
  }

  lemma SquareTimes(x: real, f: real)
    requires f <= 3.0
    ensures Times(Square(x), f) <= 3.0 * Square(x)
  {
    assert Square(x) >= 0.0;
    assert 3.0 * Square(x) - Times(Square(x), f) == Square(x) * (3.0 - f);
    hide Square;
    Product(Square(x), 3.0 - f);
  }

  /** And it rises all the way. */
  lemma EaseRises(s: real, t: real)
    requires 0.0 <= s < t <= 1.0
    ensures Ease(s) < Ease(t)
  {
    var f := 3.0 * (s + t) - 2.0 * (s * s + s * t + t * t);
    assert Ease(t) - Ease(s) == (t - s) * f;
    RisePositive(s, t);
    Positive(t - s, f);
  }

  lemma RisePositive(s: real, t: real)
    requires 0.0 <= s < t <= 1.0
    ensures 3.0 * (s + t) - 2.0 * (s * s + s * t + t * t) > 0.0
  {
    Product(s, 1.0 - s);
    Product(t, 1.0 - t);
    Product(s, 1.0 - t);
    Positive(t, 1.0 - s);
  }

  lemma ShareEnds(x: real, z: real)
    requires z > 0.0
    ensures x / z <= 0.0 <==> x <= 0.0
    ensures x / z >= 1.0 <==> x >= z
  {
  }

  lemma SmoothStepEnds(lo: real, hi: real, x: real)
    requires lo < hi
    ensures 0.0 <= SmoothStep(lo, hi, x) <= 1.0
    ensures SmoothStep(lo, hi, x) == 0.0 <==> x <= lo
    ensures SmoothStep(lo, hi, x) == 1.0 <==> x >= hi
  {
    ShareEnds(x - lo, hi - lo);
    var t := Progress(lo, hi, x);
    assert (t == 0.0 <==> x <= lo) && (t == 1.0 <==> x >= hi);
    hide Ease, Progress;
    EaseStarts(t);
    EaseEnds(t);
  }

  /** A step of `t` from `a` to `b`. */
  function Lerp(a: real, b: real, t: real): real {
    a + t * (b - a)
  }

  lemma LerpBetween(a: real, b: real, t: real, lo: real, hi: real)
    requires lo <= a <= hi && lo <= b <= hi && 0.0 <= t <= 1.0
    ensures lo <= Lerp(a, b, t) <= hi
  {
    assert Lerp(a, b, t) - lo == (1.0 - t) * (a - lo) + t * (b - lo);
    assert hi - Lerp(a, b, t) == (1.0 - t) * (hi - a) + t * (hi - b);
    Product(1.0 - t, a - lo);
    Product(t, b - lo);
    Product(1.0 - t, hi - a);
    Product(t, hi - b);
  }

  lemma LerpEnds(a: real, b: real, t: real)
    requires a < b && 0.0 <= t <= 1.0
    ensures a <= Lerp(a, b, t) <= b
    ensures Lerp(a, b, t) == a <==> t == 0.0
    ensures Lerp(a, b, t) == b <==> t == 1.0
  {
    LerpBetween(a, b, t, a, b);
    ScaleOrder(0.0, t, b - a);
    ScaleOrder(t, 1.0, b - a);
  }

  function LerpVec(a: Vec3, b: Vec3, t: real): Vec3 {
    Vec3(Lerp(a.r, b.r, t), Lerp(a.g, b.g, t), Lerp(a.b, b.b, t))
  }

  function Scaled(v: Vec3, t: real): Vec3 {
    Vec3(Times(v.r, t), Times(v.g, t), Times(v.b, t))
  }

  /** A weighted sum `x` of total weight `w` whose values lie between `lo` and `hi`. */
  predicate Spans(x: real, w: real, lo: real, hi: real) {
    lo * w <= x <= hi * w
  }

  lemma SpansMean(x: real, w: real, lo: real, hi: real)
    requires w > 0.0 && Spans(x, w, lo, hi)
    ensures lo <= x / w <= hi
  {
  }

  /** `light_distance_sq`: chroma is trusted only where both lights are bright enough. */
  function DistanceSq(a: Yuv, b: Yuv): real {
    Trust(a, b) * Chroma(a, b) + Square((a.y - b.y) / LUMA_UNIT)
  }

  function Trust(a: Yuv, b: Yuv): real {
    ClampReal(MinReal(a.y, b.y) / CHROMA_TRUST_Y, 0.0, 1.0)
  }

  function Chroma(a: Yuv, b: Yuv): real {
    ChromaGap(a, b) / Square(CHROMA_UNIT)
  }

  function ChromaGap(a: Yuv, b: Yuv): real {
    Square(a.u - b.u) + Square(a.v - b.v)
  }

  lemma DistanceIsNotNegative(a: Yuv, b: Yuv)
    ensures DistanceSq(a, b) >= 0.0
  {
  }

  lemma DistanceIsSymmetric(a: Yuv, b: Yuv)
    ensures DistanceSq(a, b) == DistanceSq(b, a)
  {
  }

  /** Chroma is trusted from not at all to fully as the darker light goes from black to 0.20. */
  lemma TrustFollowsTheDarker(a: Yuv, b: Yuv)
    ensures 0.0 <= Trust(a, b) <= 1.0
    ensures Trust(a, b) == 0.0 <==> a.y <= 0.0 || b.y <= 0.0
    ensures Trust(a, b) == 1.0 <==> a.y >= CHROMA_TRUST_Y && b.y >= CHROMA_TRUST_Y
  {
  }

  lemma TrustGrows(a: Yuv, b: Yuv, c: Yuv, d: Yuv)
    requires MinReal(a.y, b.y) <= MinReal(c.y, d.y)
    ensures Trust(a, b) <= Trust(c, d)
  {
  }

  lemma SquareIsZero(x: real)
    ensures Square(x) >= 0.0 && (Square(x) == 0.0 <==> x == 0.0)
  {
    if x > 0.0 {
      SquareIsPositive(x);
    } else if x < 0.0 {
      SquareIsPositive(-x);
      assert Square(-x) == Square(x);
    }
  }

  function AbsReal(x: real): real {
    if x >= 0.0 then x else -x
  }

  /** Squares are ordered as what they are squares of. */
  lemma SquareOrder(x: real, y: real)
    ensures Square(x) < Square(y) <==> AbsReal(x) < AbsReal(y)
  {
    var p, q := AbsReal(x), AbsReal(y);
    assert Square(x) == Square(p) && Square(y) == Square(q);
    assert Square(q) - Square(p) == (q - p) * (q + p);
    if p < q {
      Positive(q - p, q + p);
    } else if q < p {
      Positive(p - q, p + q);
    }
  }

  lemma ChromaIsZero(a: Yuv, b: Yuv)
    ensures Chroma(a, b) >= 0.0
    ensures Chroma(a, b) == 0.0 <==> a.u == b.u && a.v == b.v
  {
    SquareIsZero(a.u - b.u);
    SquareIsZero(a.v - b.v);
    hide Square;
    Fraction(ChromaGap(a, b));
  }

  lemma Fraction(x: real)
    ensures x / Square(CHROMA_UNIT) == 400.0 * x
  {
  }

  /** Two lights are at no distance exactly if they are equally bright and either of one chroma or the
      darker of them is black. */
  lemma NoDistanceExactly(a: Yuv, b: Yuv)
    ensures DistanceSq(a, b) == 0.0 <==>
      a.y == b.y && ((a.u == b.u && a.v == b.v) || a.y <= 0.0 || b.y <= 0.0)
  {
    TrustFollowsTheDarker(a, b);
    ChromaIsZero(a, b);
    SquareIsZero((a.y - b.y) / LUMA_UNIT);
    hide Trust, Chroma, Square;
    TrustedIsZero(Trust(a, b), Chroma(a, b));
  }

  lemma TrustedIsZero(trust: real, chroma: real)
    requires trust >= 0.0 && chroma >= 0.0
    ensures trust * chroma >= 0.0
    ensures trust * chroma == 0.0 <==> trust == 0.0 || chroma == 0.0
  {
    if trust > 0.0 && chroma > 0.0 {
      Positive(trust, chroma);
      assert Times(trust, chroma) == trust * chroma;
    }
  }

  /** With the chroma part the same, the pair further apart in luminance is the more distant. */
  lemma DistanceGrowsWithLuminance(a: Yuv, b: Yuv, c: Yuv, d: Yuv)
    requires Trust(a, b) == Trust(c, d) && Chroma(a, b) == Chroma(c, d)
    ensures DistanceSq(a, b) < DistanceSq(c, d) <==> AbsReal(a.y - b.y) < AbsReal(c.y - d.y)
  {
    SquareOrder((a.y - b.y) / LUMA_UNIT, (c.y - d.y) / LUMA_UNIT);
    hide Trust, Chroma, Square;
  }

  /** With the luminances the same, and neither of them black, the pair further apart in chroma is. */
  lemma DistanceGrowsWithChroma(a: Yuv, b: Yuv, c: Yuv, d: Yuv)
    requires a.y == c.y > 0.0 && b.y == d.y > 0.0
    ensures DistanceSq(a, b) < DistanceSq(c, d) <==> ChromaGap(a, b) < ChromaGap(c, d)
  {
    TrustFollowsTheDarker(a, b);
    assert Trust(a, b) == Trust(c, d);
    Fraction(ChromaGap(a, b));
    Fraction(ChromaGap(c, d));
    assert Chroma(a, b) < Chroma(c, d) <==> ChromaGap(a, b) < ChromaGap(c, d);
    hide Trust, Square, Chroma, ChromaGap;
    TrustedOrder(Trust(a, b), Chroma(a, b), Trust(c, d), Chroma(c, d));
    assert (a.y - b.y) / LUMA_UNIT == (c.y - d.y) / LUMA_UNIT;
  }

  lemma TrustedOrder(p: real, x: real, q: real, y: real)
    requires p == q > 0.0
    ensures p * x < q * y <==> x < y
  {
    ScaleOrder(x, y, p);
  }

  /** A quarter of the luminance range is one unit of distance; so is 0.05 of chroma, between lights
      bright enough for it to count in full. */
  lemma OneUnitApart(a: Yuv)
    ensures DistanceSq(a, Yuv(a.y + LUMA_UNIT, a.u, a.v)) == 1.0
    ensures a.y >= CHROMA_TRUST_Y ==> DistanceSq(a, Yuv(a.y, a.u + CHROMA_UNIT, a.v)) == 1.0
    ensures a.y >= CHROMA_TRUST_Y ==> DistanceSq(a, Yuv(a.y, a.u, a.v + CHROMA_UNIT)) == 1.0
  {
    ChromaIsZero(a, Yuv(a.y + LUMA_UNIT, a.u, a.v));
    OneSquared(a);
  }

  lemma OneSquared(a: Yuv)
    ensures Square((a.y - (a.y + LUMA_UNIT)) / LUMA_UNIT) == 1.0
    ensures Square(a.u - (a.u + CHROMA_UNIT)) / Square(CHROMA_UNIT) == 1.0
    ensures Square(a.v - (a.v + CHROMA_UNIT)) / Square(CHROMA_UNIT) == 1.0
  {
  }

  predicate NotNegative(c: Vec3) {
    c.r >= 0.0 && c.g >= 0.0 && c.b >= 0.0
  }

  lemma EqualShares(x: real, p: real, y: real, q: real)
    requires p > 0.0 && q > 0.0
    ensures p == q ==> (x / p == y / q <==> x == y)
    ensures x == y > 0.0 && x / p == y / q ==> p == q
  {
    QuotientIs(x, p, x / p);
    QuotientIs(y, q, y / q);
    if x == y > 0.0 && x / p == y / q {
      ScaleOrder(0.0, x / p, p);
      ScaleOrder(p, q, x / p);
    }
  }

  lemma TheMatrixIsInjective(c: Vec3, d: Vec3)
    requires Tristimulus(c) == Tristimulus(d) && Luma(c) == Luma(d)
    ensures c == d
  {
  }

  /** Colours that are not near-black are at no distance exactly if they are the same colour. */
  lemma OnlyOneColourIsAtNoDistance(c: Vec3, d: Vec3)
    requires NotNegative(c) && NotNegative(d) && Denominator(c) > 0.000001 && Denominator(d) > 0.000001
    ensures DistanceSq(ToYuv(c), ToYuv(d)) == 0.0 <==> c == d
  {
    NoDistanceExactly(ToYuv(c), ToYuv(d));
    NoDistanceExactly(ToYuv(c), ToYuv(c));
    LumaOfNotBlack(c);
    hide DistanceSq;
    if DistanceSq(ToYuv(c), ToYuv(d)) == 0.0 {
      EqualShares(9.0 * Luma(c), Denominator(c), 9.0 * Luma(d), Denominator(d));
      EqualShares(4.0 * Tristimulus(c).0, Denominator(c), 4.0 * Tristimulus(d).0, Denominator(d));
      TheMatrixIsInjective(c, d);
    }
  }

  lemma LumaOfNotBlack(c: Vec3)
    requires NotNegative(c) && Denominator(c) > 0.0
    ensures Luma(c) > 0.0
  {
  }

  // -------------------------------------------------------------------------
  // The median, as selected from the adjacent differences
  // -------------------------------------------------------------------------

  function Insert(x: real, s: seq<real>): seq<real> {
    if s == [] || x <= s[0] then [x] + s else [s[0]] + Insert(x, s[1..])
  }

  function Sort(s: seq<real>): seq<real> {
    if s == [] then [] else Insert(s[0], Sort(s[1..]))
  }

  ghost predicate IsSorted(s: seq<real>) {
    forall i, j :: 0 <= i < j < |s| ==> s[i] <= s[j]
  }

  ghost predicate AtMostAll(x: real, s: seq<real>) {
    forall y :: y in s ==> x <= y
  }

  lemma SortedFromHead(s: seq<real>)
    requires s != []
    ensures IsSorted(s) <==> AtMostAll(s[0], s[1..]) && IsSorted(s[1..])
  {
    if IsSorted(s) {
      assert forall i :: 0 <= i < |s| - 1 ==> s[1..][i] == s[i + 1];
    }
    if AtMostAll(s[0], s[1..]) && IsSorted(s[1..]) {
      forall i, j | 0 <= i < j < |s|
        ensures s[i] <= s[j]
      {
        assert s[j] == s[1..][j - 1] && s[j] in s[1..];
        if i > 0 {
          assert s[i] == s[1..][i - 1];
        }
      }
    }
  }

  lemma {:induction false} InsertAdds(x: real, s: seq<real>)
    ensures multiset(Insert(x, s)) == multiset(s) + multiset{x}
    ensures |Insert(x, s)| == |s| + 1
    ensures forall y :: y in Insert(x, s) <==> y == x || y in s
  {
    if s != [] && x > s[0] {
      InsertAdds(x, s[1..]);
      assert s == [s[0]] + s[1..];
    }
  }

  lemma {:induction false} InsertSorts(x: real, s: seq<real>)
    requires IsSorted(s)
    ensures IsSorted(Insert(x, s))
  {
    if s != [] {
      hide IsSorted;
      SortedFromHead(s);
      SortedFromHead(Insert(x, s));
      if x > s[0] {
        InsertSorts(x, s[1..]);
        InsertAdds(x, s[1..]);
        assert Insert(x, s)[1..] == Insert(x, s[1..]);
      } else {
        assert Insert(x, s)[1..] == s;
        assert forall y :: y in s ==> y == s[0] || y in s[1..];
      }
    }
  }

  lemma {:induction false} SortSorts(s: seq<real>)
    ensures IsSorted(Sort(s)) && multiset(Sort(s)) == multiset(s) && |Sort(s)| == |s|
  {
    if s != [] {
      SortSorts(s[1..]);
      hide IsSorted, Insert;
      InsertSorts(s[0], Sort(s[1..]));
      InsertAdds(s[0], Sort(s[1..]));
      assert s == [s[0]] + s[1..];
    }
  }

  /** The least element comes first. */
  lemma SameHead(a: seq<real>, b: seq<real>)
    requires a != [] && b != [] && IsSorted(a) && IsSorted(b) && multiset(a) == multiset(b)
    ensures a[0] == b[0]
  {
    hide IsSorted;
    SortedFromHead(a);
    SortedFromHead(b);
    assert a[0] in multiset(b) && b[0] in multiset(a);
    assert a[0] in b && b[0] in a;
    assert a == [a[0]] + a[1..] && b == [b[0]] + b[1..];
  }

  lemma SameTail(a: seq<real>, b: seq<real>)
    requires a != [] && b != [] && a[0] == b[0] && multiset(a) == multiset(b)
    ensures multiset(a[1..]) == multiset(b[1..])
  {
    assert a == [a[0]] + a[1..] && b == [b[0]] + b[1..];
    assert multiset(a[1..]) == multiset(a) - multiset{a[0]};
    assert multiset(b[1..]) == multiset(b) - multiset{b[0]};
  }

  /** A sorted sequence is fixed by its elements. */
  lemma {:induction false} SortedIsUnique(a: seq<real>, b: seq<real>)
    requires IsSorted(a) && IsSorted(b) && multiset(a) == multiset(b)
    ensures a == b
  {
    assert |multiset(a)| == |a| && |multiset(b)| == |b|;
    if a != [] {
      SameHead(a, b);
      SameTail(a, b);
      hide IsSorted;
      SortedFromHead(a);
      SortedFromHead(b);
      SortedIsUnique(a[1..], b[1..]);
      assert a == [a[0]] + a[1..] && b == [b[0]] + b[1..];
    }
  }

  /** `select_nth_unstable_by(len / 2)`. */
  function Median(s: seq<real>): real {
    if s == [] then 0.0
    else
      SortSorts(s);
      Sort(s)[|s| / 2]
  }

  /** How many elements lie below `x`, and how many above. */
  function Below(s: seq<real>, x: real): nat {
    if s == [] then 0 else Below(s[1..], x) + if s[0] < x then 1 else 0
  }

  function Above(s: seq<real>, x: real): nat {
    if s == [] then 0 else Above(s[1..], x) + if s[0] > x then 1 else 0
  }

  lemma {:induction false} CountsOfInsert(y: real, s: seq<real>, x: real)
    ensures Below(Insert(y, s), x) == Below(s, x) + if y < x then 1 else 0
    ensures Above(Insert(y, s), x) == Above(s, x) + if y > x then 1 else 0
  {
    if s != [] && y > s[0] {
      CountsOfInsert(y, s[1..], x);
      assert Insert(y, s)[1..] == Insert(y, s[1..]);
    } else {
      assert Insert(y, s)[1..] == s;
    }
  }

  lemma {:induction false} CountsOfSort(s: seq<real>, x: real)
    ensures Below(Sort(s), x) == Below(s, x) && Above(Sort(s), x) == Above(s, x)
  {
    if s != [] {
      CountsOfSort(s[1..], x);
      CountsOfInsert(s[0], Sort(s[1..]), x);
      hide Insert;
    }
  }

  /** In a sorted sequence what is below element `k` stands before it, and what is above it after. */
  lemma {:induction false} CountsOfSorted(s: seq<real>, k: nat)
    requires IsSorted(s) && k < |s|
    ensures Below(s, s[k]) <= k && Above(s, s[k]) <= |s| - 1 - k
  {
    SortedFromHead(s);
    if k > 0 {
      CountsOfSorted(s[1..], k - 1);
    } else {
      NoneBelow(s, s[0]);
      FewAbove(s[1..], s[0]);
    }
  }

  lemma {:induction false} NoneBelow(s: seq<real>, x: real)
    requires forall y :: y in s ==> x <= y
    ensures Below(s, x) == 0
  {
    if s != [] {
      assert s[0] in s && forall y :: y in s[1..] ==> y in s;
      NoneBelow(s[1..], x);
    }
  }

  lemma {:induction false} FewAbove(s: seq<real>, x: real)
    ensures Above(s, x) <= |s|
  {
    if s != [] {
      FewAbove(s[1..], x);
    }
  }

  /** The median is one of the differences, with at most half of them below it and less than half
      above. */
  lemma MedianIsInTheMiddle(s: seq<real>)
    requires s != []
    ensures Median(s) in s
    ensures 2 * Below(s, Median(s)) <= |s| && 2 * Above(s, Median(s)) < |s|
  {
    SortSorts(s);
    CountsOfSort(s, Median(s));
    CountsOfSorted(Sort(s), |s| / 2);
    assert Median(s) in multiset(Sort(s));
    hide Sort, Below, Above;
  }

  lemma MedianIgnoresOrder(a: seq<real>, b: seq<real>)
    requires multiset(a) == multiset(b)
    ensures Median(a) == Median(b)
  {
    assert |multiset(a)| == |a| && |multiset(b)| == |b|;
    SortSorts(a);
    SortSorts(b);
    SortedIsUnique(Sort(a), Sort(b));
  }

  // -------------------------------------------------------------------------
  // Rotations and reversals
  // -------------------------------------------------------------------------

  function Rotate<T>(s: seq<T>, r: nat): (t: seq<T>)
    requires r <= |s|
    ensures |t| == |s|
  {
    s[r..] + s[..r]
  }

  /** Where a rotation by `r` takes its element `i` from. */
  function Turn(n: nat, r: nat, i: nat): (j: nat)
    requires r <= n && i < n
    ensures j < n
  {
    if i + r < n then i + r else i + r - n
  }

  lemma RotateAt<T>(s: seq<T>, r: nat, i: nat)
    requires r <= |s| && i < |s|
    ensures Rotate(s, r)[i] == s[Turn(|s|, r, i)]
  {
  }

  function Reverse<T>(s: seq<T>): (t: seq<T>)
    ensures |t| == |s|
  {
    seq(|s|, i requires 0 <= i < |s| => s[|s| - 1 - i])
  }

  lemma ReverseAt<T>(s: seq<T>, i: nat)
    requires i < |s|
    ensures Reverse(s)[i] == s[|s| - 1 - i]
  {
  }

  lemma RotateMultiset<T>(s: seq<T>, r: nat)
    requires r <= |s|
    ensures multiset(Rotate(s, r)) == multiset(s)
  {
    assert s == s[..r] + s[r..];
  }

  lemma ReverseSplits<T>(s: seq<T>)
    requires s != []
    ensures Reverse(s) == Reverse(s[1..]) + [s[0]]
  {
  }

  lemma {:induction false} ReverseMultiset<T>(s: seq<T>)
    ensures multiset(Reverse(s)) == multiset(s)
  {
    if s != [] {
      ReverseMultiset(s[1..]);
      ReverseSplits(s);
      assert s == [s[0]] + s[1..];
    }
  }

  function Sum(s: seq<real>): real {
    if s == [] then 0.0 else s[0] + Sum(s[1..])
  }

  lemma {:induction false} SumOfConcat(a: seq<real>, b: seq<real>)
    ensures Sum(a + b) == Sum(a) + Sum(b)
  {
    if a == [] {
      assert a + b == b;
    } else {
      SumOfConcat(a[1..], b);
      assert (a + b)[1..] == a[1..] + b;
    }
  }

  lemma SumOfRotation(s: seq<real>, r: nat)
    requires r <= |s|
    ensures Sum(Rotate(s, r)) == Sum(s)
  {
    hide Sum;
    SumOfConcat(s[..r], s[r..]);
    SumOfConcat(s[r..], s[..r]);
    assert s == s[..r] + s[r..];
  }

  lemma {:induction false} SumOfReversal(s: seq<real>)
    ensures Sum(Reverse(s)) == Sum(s)
  {
    if s != [] {
      SumOfReversal(s[1..]);
      ReverseSplits(s);
      SumOfConcat(Reverse(s[1..]), [s[0]]);
    }
  }
}
