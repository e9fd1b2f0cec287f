/** Strip order: the edge LEDs clockwise from the top left, rotated to the start anchor, and read
    backwards from there for a counter-clockwise strip. */
module LedSequence {
  import opened Arith
  import opened Wrappers

  datatype Segment = Top | Right | Bottom | Left

  const ORDER: seq<Segment> := [Top, Right, Bottom, Left]

  type u16 = n: int | 0 <= n < 0x1_0000

  datatype SegmentCounts = SegmentCounts(top: u16, right: u16, bottom: u16, left: u16)

  function Count(s: Segment, c: SegmentCounts): u16 {
    match s
    case Top => c.top
    case Right => c.right
    case Bottom => c.bottom
    case Left => c.left
  }

  datatype Config = Config(counts: SegmentCounts, bottomMissing: u16, startAnchor: string, direction: string,
                           totalLeds: u16, startLocalIndex: Option<u16>)

  datatype Item = Item(index: nat, segment: Segment, localIndex: u16)

  // -------------------------------------------------------------------------
  // The canonical order
  // -------------------------------------------------------------------------

  function Total(c: SegmentCounts): nat {
    c.top + c.right + c.bottom + c.left
  }

  /** Where an edge's LEDs start in the canonical order. */
  function Offset(s: Segment, c: SegmentCounts): nat {
    match s
    case Top => 0
    case Right => c.top
    case Bottom => c.top + c.right
    case Left => c.top + c.right + c.bottom
  }

  /** The LED at canonical position `k`: which edge, and how far along it. */
  function CanonicalAt(c: SegmentCounts, k: nat): (Segment, u16)
    requires k < Total(c)
  {
    if k < c.top then (Top, k)
    else if k < c.top + c.right then (Right, k - c.top)
    else if k < c.top + c.right + c.bottom then (Bottom, k - c.top - c.right)
    else (Left, k - c.top - c.right - c.bottom)
  }

  /** The physical LEDs: every edge and every place along it. */
  predicate IsLed(c: SegmentCounts, s: Segment, local: u16) {
    local < Count(s, c)
  }

  lemma CanonicalIsABijection(c: SegmentCounts, k: nat, s: Segment, local: u16)
    ensures k < Total(c) ==>
      var led := CanonicalAt(c, k);
      IsLed(c, led.0, led.1) && Offset(led.0, c) + led.1 == k
    ensures IsLed(c, s, local) ==>
      Offset(s, c) + local < Total(c) && CanonicalAt(c, Offset(s, c) + local) == (s, local)
  {
  }

  ghost predicate IsCanonical(items: seq<Item>, c: SegmentCounts, n: nat) {
    && n <= Total(c)
    && |items| == n
    && forall k :: 0 <= k < n ==> Holds(items[k], k, CanonicalAt(c, k))
  }

  predicate Holds(item: Item, index: nat, led: (Segment, u16)) {
    item == Item(index, led.0, led.1)
  }

  method BuildCanonicalSequence(config: Config) returns (items: seq<Item>)
    ensures IsCanonical(items, config.counts, Total(config.counts))
  {
    items := [];
    var c := config.counts;
    for e := 0 to |ORDER|
      invariant IsCanonical(items, c, if e == 4 then Total(c) else Offset(ORDER[e], c))
    {
      var segment := ORDER[e];
      var count := Count(segment, c);
      for local := 0 to count
        invariant IsCanonical(items, c, Offset(segment, c) + local)
      {
        CanonicalIsABijection(c, 0, segment, local);
        items := items + [Item(|items|, segment, local)];
      }
    }
  }

  // -------------------------------------------------------------------------
  // The anchor
  // -------------------------------------------------------------------------

  datatype AnchorMode = Start | End | GapRight | GapLeft

  function ParseAnchor(anchor: string): Option<(Segment, AnchorMode)> {
    if anchor == "top-start" then Some((Top, Start))
    else if anchor == "top-end" then Some((Top, End))
    else if anchor == "right-start" then Some((Right, Start))
    else if anchor == "right-end" then Some((Right, End))
    else if anchor == "bottom-start" then Some((Bottom, Start))
    else if anchor == "bottom-end" then Some((Bottom, End))
    else if anchor == "bottom-gap-right" then Some((Bottom, GapRight))
    else if anchor == "bottom-gap-left" then Some((Bottom, GapLeft))
    else if anchor == "left-start" then Some((Left, Start))
    else if anchor == "left-end" then Some((Left, End))
    else None
  }

  /** `resolve_bottom_gap_local`. */
  function BottomGapLocal(count: u16, missing: u16, right: bool): u16 {
    if count <= 1 then 0
    else if missing > 0 then
      if right then SaturatingSub(count / 2, 1) else Min(count, count / 2)
    else if right then (count - 1) / 2
    else DivCeil(count - 1, 2)
  }

  /** The LED a configuration calls number one, as a place along its edge. */
  function AnchorLocal(config: Config, segment: Segment, mode: AnchorMode): u16
    requires Count(segment, config.counts) > 0
  {
    var count := Count(segment, config.counts);
    if config.startLocalIndex.Some? then Min(config.startLocalIndex.value, count - 1)
    else
      match mode
      case Start => 0
      case End => count - 1
      case GapRight => BottomGapLocal(config.counts.bottom, config.bottomMissing, true)
      case GapLeft => BottomGapLocal(config.counts.bottom, config.bottomMissing, false)
  }

  /** Canonical position of that LED; the first LED when the anchor is unknown or its edge empty. */
  function AnchorIndex(config: Config): nat {
    match ParseAnchor(config.startAnchor)
    case None => 0
    case Some((segment, mode)) =>
      if Count(segment, config.counts) == 0 then 0
      else Offset(segment, config.counts) + AnchorLocal(config, segment, mode)
  }

  lemma GapAnchorsAreBottomModes(anchor: string)
    ensures ParseAnchor(anchor).Some? && ParseAnchor(anchor).value.1 in {GapRight, GapLeft} ==>
      ParseAnchor(anchor).value.0 == Bottom
  {
  }

  /** The anchor names an LED that exists, whatever the configuration says. */
  lemma AnchorInRange(config: Config)
    ensures Total(config.counts) > 0 ==> AnchorIndex(config) < Total(config.counts)
    ensures Total(config.counts) == 0 ==> AnchorIndex(config) == 0
  {
    GapAnchorsAreBottomModes(config.startAnchor);
  }

  /** `position` over the canonical sequence. */
  method Position(items: seq<Item>, segment: Segment, local: u16, ghost c: SegmentCounts) returns (index: nat)
    requires IsCanonical(items, c, Total(c))
    ensures index == if IsLed(c, segment, local) then Offset(segment, c) + local else 0
  {
    CanonicalIsABijection(c, 0, segment, local);
    var i := 0;
    while i < |items|
      invariant 0 <= i <= |items|
      invariant forall k :: 0 <= k < i ==> items[k].segment != segment || items[k].localIndex != local
    {
      CanonicalIsABijection(c, i, segment, local);
      if items[i].segment == segment && items[i].localIndex == local {
        return i;
      }
      i := i + 1;
    }
    return 0;
  }

  /** `rposition` of an edge's last LED. */
  method LastOf(items: seq<Item>, segment: Segment, ghost c: SegmentCounts) returns (index: nat)
    requires IsCanonical(items, c, Total(c))
    ensures index == if Count(segment, c) > 0 then Offset(segment, c) + Count(segment, c) - 1 else 0
  {
    if Count(segment, c) > 0 {
      CanonicalIsABijection(c, 0, segment, Count(segment, c) - 1);
    }
    var i := |items|;
    while i > 0
      invariant 0 <= i <= |items|
      invariant forall k :: i <= k < |items| ==> items[k].segment != segment
    {
      CanonicalIsABijection(c, i - 1, segment, 0);
      if items[i - 1].segment == segment {
        if i < |items| {
          CanonicalIsABijection(c, i, segment, 0);
        }
        return i - 1;
      }
      i := i - 1;
    }
    return 0;
  }

  method ResolveAnchorIndex(items: seq<Item>, config: Config) returns (index: nat)
    requires IsCanonical(items, config.counts, Total(config.counts))
    ensures index == AnchorIndex(config)
  {
    GapAnchorsAreBottomModes(config.startAnchor);
    var parsed := ParseAnchor(config.startAnchor);
    if parsed.None? {
      return 0;
    }
    var (segment, mode) := parsed.value;
    if config.startLocalIndex.Some? {
      var count := Count(segment, config.counts);
      if count > 0 {
        index := Position(items, segment, Min(config.startLocalIndex.value, count - 1), config.counts);
        return;
      }
    }
    match mode
    case Start => index := Position(items, segment, 0, config.counts);
    case End => index := LastOf(items, segment, config.counts);
    case GapRight =>
      var local := BottomGapLocal(config.counts.bottom, config.bottomMissing, true);
      index := Position(items, segment, local, config.counts);
    case GapLeft =>
      var local := BottomGapLocal(config.counts.bottom, config.bottomMissing, false);
      index := Position(items, segment, local, config.counts);
  }

  // -------------------------------------------------------------------------
  // Rotation and direction
  // -------------------------------------------------------------------------

  /** Canonical position of strip LED `i` of `n`, started at `anchor`. */
  function StripPosition(n: nat, anchor: nat, clockwise: bool, i: nat): nat
    requires i < n && anchor < n
  {
    if clockwise then if anchor + i < n then anchor + i else anchor + i - n
    else if i <= anchor then anchor - i else anchor + n - i
  }

  ghost predicate IsStrip(items: seq<Item>, config: Config, clockwise: bool) {
    var n := Total(config.counts);
    && |items| == n
    && (n > 0 ==> AnchorIndex(config) < n)
    && forall i :: 0 <= i < n ==>
         Holds(items[i], i, CanonicalAt(config.counts, StripPosition(n, AnchorIndex(config), clockwise, i)))
  }

  /** `for (i, item) in iter_mut().enumerate() { item.index = i }`. */
  method Reindex(items: seq<Item>) returns (renumbered: seq<Item>)
    ensures |renumbered| == |items|
    ensures forall i :: 0 <= i < |items| ==> renumbered[i] == items[i].(index := i)
  {
    renumbered := items;
    var i := 0;
    while i < |renumbered|
      invariant 0 <= i <= |renumbered| == |items|
      invariant forall k :: 0 <= k < i ==> renumbered[k] == items[k].(index := k)
      invariant forall k :: i <= k < |items| ==> renumbered[k] == items[k]
    {
      renumbered := renumbered[i := renumbered[i].(index := i)];
      i := i + 1;
    }
  }

  method RotateSequence(items: seq<Item>, startIndex: nat) returns (rotated: seq<Item>)
    requires startIndex < |items| || (items == [] && startIndex == 0)
    requires forall i :: 0 <= i < |items| ==> items[i].index == i
    ensures |rotated| == |items|
    ensures forall i :: 0 <= i < |items| ==>
      rotated[i] == items[StripPosition(|items|, startIndex, true, i)].(index := i)
  {
    if |items| == 0 || startIndex == 0 {
      return items;
    }
    rotated := Reindex(items[startIndex..] + items[..startIndex]);
  }

  /** `build_led_sequence`: any direction but `cw` reads the strip backwards. */
  method BuildLedSequence(config: Config) returns (items: seq<Item>)
    ensures IsStrip(items, config, config.direction == "cw")
  {
    AnchorInRange(config);
    var canonical := BuildCanonicalSequence(config);
    var anchor := ResolveAnchorIndex(canonical, config);
    var rotated := RotateSequence(canonical, anchor);
    if config.direction == "cw" {
      return rotated;
    }
    if |rotated| <= 1 {
      return rotated;
    }
    items := ReadBackwards(rotated);
  }

  /** The first item stays, the others follow in reverse. */
  method ReadBackwards(rotated: seq<Item>) returns (items: seq<Item>)
    requires rotated != []
    ensures |items| == |rotated| && items[0] == rotated[0].(index := 0)
    ensures forall i :: 1 <= i < |rotated| ==> items[i] == rotated[|rotated| - i].(index := i)
  {
    items := [rotated[0]];
    var n := |rotated|;
    for k := 1 to n
      invariant |items| == k
      invariant items[0] == rotated[0] && forall i :: 1 <= i < k ==> items[i] == rotated[n - i]
    {
      items := items + [rotated[n - k]];
    }
    items := Reindex(items);
  }

  // -------------------------------------------------------------------------
  // What a strip order is
  // -------------------------------------------------------------------------

  /** The strip index of canonical position `p`: rotation and reversal undone. */
  function StripIndex(n: nat, anchor: nat, clockwise: bool, p: nat): nat
    requires p < n && anchor < n
  {
    if clockwise then if p >= anchor then p - anchor else p + n - anchor
    else if p <= anchor then anchor - p else anchor + n - p
  }

  lemma StripPositionIsABijection(n: nat, anchor: nat, clockwise: bool, i: nat)
    requires i < n && anchor < n
    ensures StripPosition(n, anchor, clockwise, i) < n
    ensures StripIndex(n, anchor, clockwise, StripPosition(n, anchor, clockwise, i)) == i
    ensures StripIndex(n, anchor, clockwise, i) < n
    ensures StripPosition(n, anchor, clockwise, StripIndex(n, anchor, clockwise, i)) == i
  {
  }

  function Led(item: Item): (Segment, u16) {
    (item.segment, item.localIndex)
  }

  lemma StripLed(items: seq<Item>, config: Config, clockwise: bool, i: nat)
    requires IsStrip(items, config, clockwise) && i < |items|
    ensures items[i].index == i
    ensures IsLed(config.counts, items[i].segment, items[i].localIndex)
    ensures IndexOf(config, clockwise, Led(items[i])) == i
  {
    hide AnchorIndex, CanonicalAt;
    StripPositionIsABijection(|items|, AnchorIndex(config), clockwise, i);
    CanonicalIsABijection(config.counts, StripPosition(|items|, AnchorIndex(config), clockwise, i), Top, 0);
  }

  lemma LedIsThere(items: seq<Item>, config: Config, clockwise: bool, led: (Segment, u16))
    requires IsStrip(items, config, clockwise) && IsLed(config.counts, led.0, led.1)
    ensures 0 <= IndexOf(config, clockwise, led) < |items|
    ensures Led(items[IndexOf(config, clockwise, led)]) == led
  {
    hide AnchorIndex, CanonicalAt;
    CanonicalIsABijection(config.counts, 0, led.0, led.1);
    StripPositionIsABijection(|items|, AnchorIndex(config), clockwise, Offset(led.0, config.counts) + led.1);
  }

  /** Where on the strip a physical LED is. */
  function IndexOf(config: Config, clockwise: bool, led: (Segment, u16)): int {
    var n, p := Total(config.counts), Offset(led.0, config.counts) + led.1;
    if p < n && AnchorIndex(config) < n then StripIndex(n, AnchorIndex(config), clockwise, p) else -1
  }

  /** Every strip order names every physical LED exactly once, and nothing else. */
  lemma EveryLedOnce(items: seq<Item>, config: Config, clockwise: bool, led: (Segment, u16))
    requires IsStrip(items, config, clockwise)
    ensures forall i :: 0 <= i < |items| ==>
              items[i].index == i && IsLed(config.counts, items[i].segment, items[i].localIndex)
    ensures forall i, j :: 0 <= i < j < |items| ==> Led(items[i]) != Led(items[j])
    ensures IsLed(config.counts, led.0, led.1) <==> exists i :: 0 <= i < |items| && Led(items[i]) == led
  {
    hide IsStrip, IndexOf;
    forall i | 0 <= i < |items|
      ensures items[i].index == i && IsLed(config.counts, items[i].segment, items[i].localIndex)
      ensures IndexOf(config, clockwise, Led(items[i])) == i
    {
      StripLed(items, config, clockwise, i);
    }
    if IsLed(config.counts, led.0, led.1) {
      LedIsThere(items, config, clockwise, led);
    }
  }

  /** The strip starts at the LED its configuration names. */
  lemma StartsAtAnchor(items: seq<Item>, config: Config, clockwise: bool)
    requires IsStrip(items, config, clockwise) && items != []
    ensures
      match ParseAnchor(config.startAnchor)
      case Some((segment, mode)) =>
        Count(segment, config.counts) > 0 ==> Led(items[0]) == (segment, AnchorLocal(config, segment, mode))
      case None => Led(items[0]) == CanonicalAt(config.counts, 0)
  {
    var parsed := ParseAnchor(config.startAnchor);
    GapAnchorsAreBottomModes(config.startAnchor);
    if parsed.Some? && Count(parsed.value.0, config.counts) > 0 {
      CanonicalIsABijection(config.counts, 0, parsed.value.0, AnchorLocal(config, parsed.value.0, parsed.value.1));
    }
  }

  /** The place after `i` in a cycle of `n`. */
  function Next(n: nat, i: nat): (next: nat)
    requires i < n
    ensures next < n
  {
    if i + 1 < n then i + 1 else 0
  }

  lemma StripStepsByOne(n: nat, anchor: nat, i: nat)
    requires i < n && anchor < n
    ensures StripPosition(n, anchor, true, Next(n, i)) == Next(n, StripPosition(n, anchor, true, i))
    ensures StripPosition(n, anchor, false, i) == Next(n, StripPosition(n, anchor, false, Next(n, i)))
  {
  }

  /** Where an item's LED stands in the canonical order. */
  function CanonicalPlace(c: SegmentCounts, item: Item): nat {
    Offset(item.segment, c) + item.localIndex
  }

  lemma PlaceOfItem(items: seq<Item>, config: Config, clockwise: bool, i: nat)
    requires IsStrip(items, config, clockwise) && i < |items|
    ensures AnchorIndex(config) < |items|
    ensures CanonicalPlace(config.counts, items[i]) ==
            StripPosition(|items|, AnchorIndex(config), clockwise, i) < |items|
    ensures IsLed(config.counts, items[i].segment, items[i].localIndex)
  {
    hide AnchorIndex, CanonicalAt;
    StripPositionIsABijection(|items|, AnchorIndex(config), clockwise, i);
    CanonicalIsABijection(config.counts, StripPosition(|items|, AnchorIndex(config), clockwise, i), Top, 0);
  }

  /** Consecutive items of a strip are canonical neighbours, the last and the first included: one
      further on a clockwise strip, one back on the other. */
  lemma ConsecutiveAreNeighbours(items: seq<Item>, config: Config, clockwise: bool, i: nat)
    requires IsStrip(items, config, clockwise) && i < |items|
    ensures
      var n := |items|;
      var here, there := CanonicalPlace(config.counts, items[i]), CanonicalPlace(config.counts, items[Next(n, i)]);
      here < n && there < n && if clockwise then there == Next(n, here) else here == Next(n, there)
  {
    PlaceOfItem(items, config, clockwise, i);
    PlaceOfItem(items, config, clockwise, Next(|items|, i));
    StripStepsByOne(|items|, AnchorIndex(config), i);
    hide IsStrip, CanonicalPlace, StripPosition, AnchorIndex, Next;
  }

  /** Where the strip passes the start of the canonical order: there, and only there, its neighbours
      are the last and the first. */
  lemma WrapsOnce(items: seq<Item>, config: Config, clockwise: bool) returns (w: nat)
    requires IsStrip(items, config, clockwise) && items != []
    ensures w < |items|
    ensures forall i: nat :: i < |items| ==> (CanonicalPlace(config.counts, items[i]) == 0 <==> i == w)
  {
    hide IsStrip, CanonicalPlace, AnchorIndex, StripPosition, StripIndex;
    var n, anchor := |items|, AnchorIndex(config);
    PlaceOfItem(items, config, clockwise, 0);
    StripPositionIsABijection(n, anchor, clockwise, 0);
    w := StripIndex(n, anchor, clockwise, 0);
    forall i: nat | i < n
      ensures CanonicalPlace(config.counts, items[i]) == 0 <==> i == w
    {
      PlaceOfItem(items, config, clockwise, i);
      StripPositionIsABijection(n, anchor, clockwise, i);
    }
  }

  /** The counter-clockwise strip is the clockwise one mirrored about its first LED. */
  lemma DirectionMirrors(cw: seq<Item>, ccw: seq<Item>, config: Config, i: nat)
    requires IsStrip(cw, config, true) && IsStrip(ccw, config, false) && i < |cw|
    ensures |ccw| == |cw|
    ensures Led(ccw[i]) == Led(cw[if i == 0 then 0 else |cw| - i])
  {
  }
}
