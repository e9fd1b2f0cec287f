/** Where the LEDs of a strip sit around the screen. */
module StripGeometry {
  import opened Arith
  import opened LedSequence
  import opened Wrappers

  const MAX_TOTAL_LEDS: nat := 4096

  const CORNER_OWNERSHIPS: seq<string> := ["horizontal", "vertical"]
  const VISUAL_PRESETS: seq<string> := ["subtle", "vivid"]
  const DIRECTIONS: seq<string> := ["cw", "ccw"]

  /** `LedCalibrationConfig::validate`, with the two enumerations the strip order does not read. */
  predicate Validate(config: Config, cornerOwnership: string, visualPreset: string) {
    && Total(config.counts) == config.totalLeds
    && Total(config.counts) <= MAX_TOTAL_LEDS
    && cornerOwnership in CORNER_OWNERSHIPS
    && visualPreset in VISUAL_PRESETS
    && ParseAnchor(config.startAnchor).Some?
    && config.direction in DIRECTIONS
  }

  datatype StripShape = StripShape(counts: SegmentCounts, bottomMissing: u16) {

    /** The stand gap needs an LED on each side. */
    function Gap(): u16 {
      if counts.bottom >= 2 then bottomMissing else 0
    }

    /** The bottom's pitches fit the u16 they are counted in. */
    predicate Fits() {
      counts.bottom + Gap() < 0x1_0000
    }

    function Pitches(s: Segment): u16
      requires Fits()
    {
      if s == Bottom then Count(s, counts) + Gap() else Count(s, counts)
    }

    function PitchOf(item: Item): u16
      requires Fits() && IsLed(counts, item.segment, item.localIndex)
    {
      if item.segment == Bottom && Gap() > 0 && item.localIndex >= counts.bottom / 2 then item.localIndex + Gap()
      else item.localIndex
    }
  }

  function ShapeOf(config: Config): StripShape {
    StripShape(config.counts, config.bottomMissing)
  }

  /** `validate` leaves the gap unbounded, so a configuration it accepts may not fit: its pitches
      overflow the u16. */
  lemma ValidateDoesNotBoundTheGap()
    ensures exists config: Config :: Validate(config, "horizontal", "vivid") && !ShapeOf(config).Fits()
  {
    var config := Config(SegmentCounts(0, 0, 2, 0), 0xFFFF, "top-start", "cw", 2, None);
    assert ParseAnchor("top-start") == Some((Top, Start));
    assert "horizontal" == CORNER_OWNERSHIPS[0] && "vivid" == VISUAL_PRESETS[1] && "cw" == DIRECTIONS[0];
    hide ParseAnchor;
    assert Validate(config, "horizontal", "vivid") && !ShapeOf(config).Fits();
  }

  /** How far along its edge an LED sits, 0 at the edge's start and 1 at its end. */
  function Frac(item: Item, shape: StripShape): real
    requires shape.Fits() && IsLed(shape.counts, item.segment, item.localIndex)
  {
    var pitches := shape.Pitches(item.segment);
    var pitch := shape.PitchOf(item);
    if pitches <= 1 then 0.5
    else if pitch == 0 then 0.0
    else pitch as real / (pitches - 1) as real
  }

  /** `led_to_screen_pos`. */
  function ScreenPos(item: Item, shape: StripShape): (real, real)
    requires shape.Fits() && IsLed(shape.counts, item.segment, item.localIndex)
  {
    var frac := Frac(item, shape);
    match item.segment
    case Top => (frac, 0.0)
    case Right => (1.0, frac)
    case Bottom => (1.0 - frac, 1.0)
    case Left => (0.0, 1.0 - frac)
  }

  // -------------------------------------------------------------------------
  // One clockwise walk
  // -------------------------------------------------------------------------

  /** The point a clockwise walk of the unit square's border reaches after distance `t` from the top
      left corner. */
  function PointAt(t: real): (real, real)
    requires 0.0 <= t <= 4.0
  {
    if t <= 1.0 then (t, 0.0)
    else if t <= 2.0 then (1.0, t - 1.0)
    else if t <= 3.0 then (3.0 - t, 1.0)
    else (0.0, 4.0 - t)
  }

  function EdgeStart(s: Segment): real {
    match s
    case Top => 0.0
    case Right => 1.0
    case Bottom => 2.0
    case Left => 3.0
  }

  function Distance(item: Item, shape: StripShape): real
    requires shape.Fits() && IsLed(shape.counts, item.segment, item.localIndex)
  {
    EdgeStart(item.segment) + Frac(item, shape)
  }

  function ItemAt(c: SegmentCounts, k: nat): Item
    requires k < Total(c)
  {
    Item(k, CanonicalAt(c, k).0, CanonicalAt(c, k).1)
  }

  lemma DivideMonotone(a: nat, b: nat, d: nat)
    requires d > 0 && a <= b <= d
    ensures 0.0 <= a as real / d as real <= b as real / d as real <= 1.0
    ensures a < b ==> a as real / d as real < b as real / d as real
  {
    ShareInUnit(a as real, d as real);
    ShareInUnit(b as real, d as real);
    QuotientOrder(a as real, b as real, d as real);
  }

  lemma PitchInRange(item: Item, shape: StripShape)
    requires shape.Fits() && IsLed(shape.counts, item.segment, item.localIndex)
    ensures shape.PitchOf(item) < shape.Pitches(item.segment)
  {
  }

  lemma FracInUnit(item: Item, shape: StripShape)
    requires shape.Fits() && IsLed(shape.counts, item.segment, item.localIndex)
    ensures 0.0 <= Frac(item, shape) <= 1.0
  {
    PitchInRange(item, shape);
    if shape.Pitches(item.segment) > 1 {
      DivideMonotone(shape.PitchOf(item), shape.PitchOf(item), shape.Pitches(item.segment) - 1);
    }
  }

  lemma FracIncreases(a: Item, b: Item, shape: StripShape)
    requires shape.Fits() && a.segment == b.segment && a.localIndex < b.localIndex
    requires IsLed(shape.counts, b.segment, b.localIndex)
    ensures Frac(a, shape) < Frac(b, shape)
  {
    PitchInRange(b, shape);
    assert shape.PitchOf(a) < shape.PitchOf(b);
    DivideMonotone(shape.PitchOf(a), shape.PitchOf(b), shape.Pitches(a.segment) - 1);
  }

  /** The LEDs of an edge span it: the first at its start, the last at its end, a lone one in its
      middle. */
  lemma EndsOfAnEdge(item: Item, shape: StripShape)
    requires shape.Fits() && IsLed(shape.counts, item.segment, item.localIndex)
    ensures
      var last := Count(item.segment, shape.counts) - 1;
      && (last == 0 ==> Frac(item, shape) == 0.5)
      && (last > 0 && item.localIndex == 0 ==> Frac(item, shape) == 0.0)
      && (last > 0 && item.localIndex == last ==> Frac(item, shape) == 1.0)
  {
    var pitches := shape.Pitches(item.segment);
    if pitches > 1 {
      ShareInUnit(shape.PitchOf(item) as real, (pitches - 1) as real);
    }
  }

  /** And they sit evenly: from one to the next is one share of the edge, but across the stand gap, which
      takes one share more for every LED left out. */
  lemma LedsSitEvenly(a: Item, b: Item, shape: StripShape)
    requires shape.Fits() && a.segment == b.segment && b.localIndex == a.localIndex + 1
    requires IsLed(shape.counts, b.segment, b.localIndex)
    ensures
      var half, spaces := shape.counts.bottom / 2, (shape.Pitches(a.segment) - 1) as real;
      var steps := if a.segment == Bottom && b.localIndex == half then 1 + shape.Gap() else 1;
      spaces > 0.0 && Shares(Frac(b, shape) - Frac(a, shape), spaces) == steps as real
  {
    hide Frac, Shares;
    FracInSpaces(a, shape);
    FracInSpaces(b, shape);
    StepInSpaces(Frac(a, shape), Frac(b, shape), (shape.Pitches(a.segment) - 1) as real);
  }

  /** So much of an edge, in shares of which it has `spaces`. */
  function Shares(part: real, spaces: real): real {
    part * spaces
  }

  lemma FracInSpaces(item: Item, shape: StripShape)
    requires shape.Fits() && IsLed(shape.counts, item.segment, item.localIndex)
    ensures shape.Pitches(item.segment) > 1 ==>
      Shares(Frac(item, shape), (shape.Pitches(item.segment) - 1) as real) == shape.PitchOf(item) as real
  {
    var spaces := (shape.Pitches(item.segment) - 1) as real;
    if spaces > 0.0 {
      QuotientIs(shape.PitchOf(item) as real, spaces, shape.PitchOf(item) as real / spaces);
    }
  }

  lemma StepInSpaces(x: real, y: real, spaces: real)
    ensures Shares(y - x, spaces) == Shares(y, spaces) - Shares(x, spaces)
  {
  }

  /** Every LED sits on the border, where the clockwise walk is after the LED's distance. */
  lemma LedsSitOnTheBorder(item: Item, shape: StripShape)
    requires shape.Fits() && IsLed(shape.counts, item.segment, item.localIndex)
    ensures 0.0 <= Distance(item, shape) <= 4.0
    ensures ScreenPos(item, shape) == PointAt(Distance(item, shape))
    ensures 0.0 <= ScreenPos(item, shape).0 <= 1.0 && 0.0 <= ScreenPos(item, shape).1 <= 1.0
  {
    FracInUnit(item, shape);
  }

  /** Canonical order walks that border once, clockwise: distances never fall, and rise strictly
      along an edge. Only two LEDs in the same corner share a point. */
  lemma CanonicalOrderWalksClockwise(shape: StripShape, j: nat, k: nat)
    requires shape.Fits() && j < k < Total(shape.counts)
    ensures
      var a, b := ItemAt(shape.counts, j), ItemAt(shape.counts, k);
      && IsLed(shape.counts, a.segment, a.localIndex) && IsLed(shape.counts, b.segment, b.localIndex)
      && Distance(a, shape) <= Distance(b, shape)
      && (a.segment == b.segment ==> Distance(a, shape) < Distance(b, shape))
      && (Distance(a, shape) == Distance(b, shape) ==> Frac(a, shape) == 1.0 && Frac(b, shape) == 0.0)
  {
    var a, b := ItemAt(shape.counts, j), ItemAt(shape.counts, k);
    FracInUnit(a, shape);
    FracInUnit(b, shape);
    if a.segment == b.segment {
      FracIncreases(a, b, shape);
    }
  }

  lemma SameLedSameDistance(a: Item, b: Item, shape: StripShape)
    requires shape.Fits() && Led(a) == Led(b) && IsLed(shape.counts, a.segment, a.localIndex)
    ensures Distance(a, shape) == Distance(b, shape)
  {
  }

  /** Two items in the order the clockwise walk meets them. */
  function InWalkOrder(items: seq<Item>, clockwise: bool, i: nat): (Item, Item)
    requires i < |items|
  {
    var there := items[Next(|items|, i)];
    if clockwise then (items[i], there) else (there, items[i])
  }

  /** What the built strip walks: clockwise from its anchor, once round; counter-clockwise the same
      walk backwards. Every step goes on along the border, strictly within an edge, but the one step
      past the first corner, from the last LED of the canonical order to its first. */
  lemma StripWalksTheBorder(items: seq<Item>, config: Config, clockwise: bool, i: nat)
    requires IsStrip(items, config, clockwise) && ShapeOf(config).Fits() && i < |items|
    ensures
      var shape, n, walk := ShapeOf(config), |items|, InWalkOrder(items, clockwise, i);
      && IsLed(shape.counts, walk.0.segment, walk.0.localIndex)
      && IsLed(shape.counts, walk.1.segment, walk.1.localIndex)
      && if CanonicalPlace(shape.counts, walk.1) == 0 then CanonicalPlace(shape.counts, walk.0) == n - 1
         else
           && Distance(walk.0, shape) <= Distance(walk.1, shape)
           && (walk.0.segment == walk.1.segment ==> Distance(walk.0, shape) < Distance(walk.1, shape))
  {
    hide AnchorIndex, IsStrip, CanonicalPlace, Distance, IsLed;
    var walk := InWalkOrder(items, clockwise, i);
    PlaceOfItem(items, config, clockwise, i);
    PlaceOfItem(items, config, clockwise, Next(|items|, i));
    ConsecutiveAreNeighbours(items, config, clockwise, i);
    if CanonicalPlace(config.counts, walk.1) != 0 {
      OneStepOn(walk.0, walk.1, ShapeOf(config));
    }
  }

  lemma OneStepOn(a: Item, b: Item, shape: StripShape)
    requires shape.Fits()
    requires IsLed(shape.counts, a.segment, a.localIndex) && IsLed(shape.counts, b.segment, b.localIndex)
    requires CanonicalPlace(shape.counts, b) == CanonicalPlace(shape.counts, a) + 1
    ensures Distance(a, shape) <= Distance(b, shape)
    ensures a.segment == b.segment ==> Distance(a, shape) < Distance(b, shape)
  {
    var c, p := shape.counts, CanonicalPlace(shape.counts, a);
    CanonicalIsABijection(c, p, a.segment, a.localIndex);
    CanonicalIsABijection(c, p + 1, b.segment, b.localIndex);
    hide CanonicalAt, Frac, Offset;
    SameLedSameDistance(a, ItemAt(c, p), shape);
    SameLedSameDistance(b, ItemAt(c, p + 1), shape);
    CanonicalOrderWalksClockwise(shape, p, p + 1);
  }

  // -------------------------------------------------------------------------
  // The stand gap
  // -------------------------------------------------------------------------

  predicate BottomPitchUsed(shape: StripShape, pitch: nat, local: u16)
    requires shape.Fits()
  {
    IsLed(shape.counts, Bottom, local) && shape.PitchOf(Item(0, Bottom, local)) == pitch
  }

  /** The bottom leaves out exactly one run of pitches, `Gap()` long, and the LEDs either side of it
      are the ones the two gap anchors name. */
  lemma GapIsOneBlockBetweenItsAnchors(shape: StripShape, pitch: nat)
    requires shape.Fits() && shape.Gap() > 0 && pitch < shape.Pitches(Bottom)
    ensures
      var half := shape.counts.bottom / 2;
      var right := BottomGapLocal(shape.counts.bottom, shape.bottomMissing, true);
      var left := BottomGapLocal(shape.counts.bottom, shape.bottomMissing, false);
      && ((exists local: u16 :: BottomPitchUsed(shape, pitch, local)) <==> !(half <= pitch < half + shape.Gap()))
      && BottomPitchUsed(shape, half - 1, right)
      && BottomPitchUsed(shape, half + shape.Gap(), left)
  {
    var half := shape.counts.bottom / 2;
    if pitch < half {
      assert BottomPitchUsed(shape, pitch, pitch);
    } else if pitch >= half + shape.Gap() {
      assert BottomPitchUsed(shape, pitch, pitch - shape.Gap());
    }
  }

  /** Without a gap the two anchors are the middle of the bottom: the same LED of an odd count, the
      two in the middle of an even one. */
  lemma CentreAnchors(count: u16)
    requires count >= 1
    ensures
      var right, left := BottomGapLocal(count, 0, true), BottomGapLocal(count, 0, false);
      && right < count && left < count
      && right + left == count - 1
      && (if count % 2 == 1 then left == right else left == right + 1)
  {
  }
}
