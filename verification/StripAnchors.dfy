/** Which LED an anchor's name stands for, and where on the screen that is. */
module StripAnchors {
  import opened LedSequence
  import opened StripGeometry
  import opened Wrappers

  // -------------------------------------------------------------------------
  // Names
  // -------------------------------------------------------------------------

  function EdgeName(s: Segment): string {
    match s
    case Top => "top"
    case Right => "right"
    case Bottom => "bottom"
    case Left => "left"
  }

  function ModeName(m: AnchorMode): string {
    match m
    case Start => "start"
    case End => "end"
    case GapRight => "gap-right"
    case GapLeft => "gap-left"
  }

  /** The modes an edge has: only the bottom has a gap. */
  predicate HasMode(s: Segment, m: AnchorMode) {
    m.Start? || m.End? || s.Bottom?
  }

  function Spelling(s: Segment, m: AnchorMode): string {
    EdgeName(s) + "-" + ModeName(m)
  }

  lemma Spellings()
    ensures Spelling(Top, Start) == "top-start" && Spelling(Top, End) == "top-end"
    ensures Spelling(Right, Start) == "right-start" && Spelling(Right, End) == "right-end"
    ensures Spelling(Bottom, Start) == "bottom-start" && Spelling(Bottom, End) == "bottom-end"
    ensures Spelling(Bottom, GapRight) == "bottom-gap-right" && Spelling(Bottom, GapLeft) == "bottom-gap-left"
    ensures Spelling(Left, Start) == "left-start" && Spelling(Left, End) == "left-end"
  {
  }

  lemma SpellingsAreKnown(s: Segment, m: AnchorMode)
    requires HasMode(s, m)
    ensures ParseAnchor(Spelling(s, m)) == Some((s, m))
  {
    Spellings();
    hide Spelling;
  }

  lemma KnownAnchorsAreSpelled(anchor: string)
    requires ParseAnchor(anchor).Some?
    ensures var (s, m) := ParseAnchor(anchor).value; HasMode(s, m) && anchor == Spelling(s, m)
  {
    Spellings();
    hide Spelling;
  }

  /** An anchor is known exactly if it is an edge's name and one of that edge's modes, joined by a
      hyphen, and then it stands for those. */
  lemma AnchorsAreSpelled(anchor: string, s: Segment, m: AnchorMode)
    ensures ParseAnchor(anchor) == Some((s, m)) <==> HasMode(s, m) && anchor == Spelling(s, m)
  {
    hide ParseAnchor, Spelling;
    if HasMode(s, m) {
      SpellingsAreKnown(s, m);
    }
    if ParseAnchor(anchor).Some? {
      KnownAnchorsAreSpelled(anchor);
    }
  }

  /** A configuration is valid exactly if its strip has as many LEDs as it says, at most 4096, and its
      four choices are among those there are. */
  lemma ValidConfigsAreTheirStrips(
      items: seq<Item>, config: Config, clockwise: bool, cornerOwnership: string, visualPreset: string)
    requires IsStrip(items, config, clockwise)
    ensures Validate(config, cornerOwnership, visualPreset) <==>
      && |items| == config.totalLeds <= 4096
      && (exists s, m :: HasMode(s, m) && config.startAnchor == Spelling(s, m))
      && (config.direction == "cw" || config.direction == "ccw")
      && (cornerOwnership == "horizontal" || cornerOwnership == "vertical")
      && (visualPreset == "subtle" || visualPreset == "vivid")
  {
    hide ParseAnchor, Spelling;
    var anchor := config.startAnchor;
    if ParseAnchor(anchor).Some? {
      var (s, m) := ParseAnchor(anchor).value;
      AnchorsAreSpelled(anchor, s, m);
    }
    if s, m :| HasMode(s, m) && anchor == Spelling(s, m) {
      AnchorsAreSpelled(anchor, s, m);
    }
  }

  // -------------------------------------------------------------------------
  // Places
  // -------------------------------------------------------------------------

  /** The corner an edge starts in, on the clockwise walk, and the one it ends in. */
  function StartCorner(s: Segment): (real, real) {
    match s
    case Top => (0.0, 0.0)
    case Right => (1.0, 0.0)
    case Bottom => (1.0, 1.0)
    case Left => (0.0, 1.0)
  }

  function EndCorner(s: Segment): (real, real) {
    match s
    case Top => StartCorner(Right)
    case Right => StartCorner(Bottom)
    case Bottom => StartCorner(Left)
    case Left => StartCorner(Top)
  }

  function CornerOf(s: Segment, m: AnchorMode): (real, real)
    requires m.Start? || m.End?
  {
    if m.Start? then StartCorner(s) else EndCorner(s)
  }

  /** A strip whose anchor names the start or the end of an edge of two LEDs or more, and which counts
      from there, begins in that corner of the screen. */
  lemma StripBeginsInItsCorner(items: seq<Item>, config: Config, clockwise: bool, s: Segment, m: AnchorMode)
    requires IsStrip(items, config, clockwise) && ShapeOf(config).Fits()
    requires (m.Start? || m.End?) && config.startAnchor == Spelling(s, m) && config.startLocalIndex.None?
    requires Count(s, config.counts) >= 2
    ensures items != [] && IsLed(config.counts, items[0].segment, items[0].localIndex)
    ensures ScreenPos(items[0], ShapeOf(config)) == CornerOf(s, m)
  {
    hide IsStrip, ParseAnchor, Spelling, Frac;
    AnchorsAreSpelled(config.startAnchor, s, m);
    AStripHasAllLeds(items, config, clockwise, s);
    StartsAtAnchor(items, config, clockwise);
    EndsOfAnEdge(items[0], ShapeOf(config));
  }

  lemma AStripHasAllLeds(items: seq<Item>, config: Config, clockwise: bool, s: Segment)
    requires IsStrip(items, config, clockwise) && Count(s, config.counts) > 0
    ensures items != [] && IsLed(config.counts, items[0].segment, items[0].localIndex)
  {
    EveryLedOnce(items, config, clockwise, (s, 0));
  }

  /** A start index past the end of its edge stands for the edge's last LED; any other for itself. */
  lemma StartIndexIsKeptOnItsEdge(items: seq<Item>, config: Config, clockwise: bool, s: Segment, m: AnchorMode)
    requires IsStrip(items, config, clockwise) && Count(s, config.counts) > 0
    requires HasMode(s, m) && config.startAnchor == Spelling(s, m) && config.startLocalIndex.Some?
    ensures items != [] && items[0].segment == s
    ensures
      var asked, last := config.startLocalIndex.value, Count(s, config.counts) - 1;
      items[0].localIndex == if asked > last then last else asked
  {
    hide IsStrip, ParseAnchor, Spelling;
    AnchorsAreSpelled(config.startAnchor, s, m);
    AStripHasAllLeds(items, config, clockwise, s);
    StartsAtAnchor(items, config, clockwise);
  }
}
