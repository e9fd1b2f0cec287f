/** The scene stage over whole runs of frames. */
module SceneRuns {
  import opened Arith
  import Sampling
  import opened Frames
  import opened SceneColour
  import opened SceneFilter
  import opened SceneMath
  import opened SceneObserver
  import opened Wrappers

  /** A frame with its insets, the preset's ceiling and the time since the last one; or the news that
      the crop moved. */
  datatype Event =
    | Seen(frame: Frame, insets: Insets, ceiling: real, since: nat)
    | CropMoved

  function After(curves: Curves, m: Memory, e: Event): Memory {
    match e
    case Seen(f, insets, ceiling, since) =>
      EverySampleCountsOnce(curves, f, insets);
      Observe(curves, m, StatsOf(curves, f, insets), ceiling, since)
    case CropMoved => m.(histPrev := None)
  }

  function Run(curves: Curves, events: seq<Event>): Memory {
    if events == [] then NEW_MEMORY
    else After(curves, Run(curves, events[..|events| - 1]), events[|events| - 1])
  }

  /** Whatever the frames, the ambience stays a colour and the envelope in the unit interval. */
  lemma {:induction false} EveryRunIsSound(curves: Curves, events: seq<Event>)
    ensures Sound(Run(curves, events))
  {
    if events != [] {
      var before, e := Run(curves, events[..|events| - 1]), events[|events| - 1];
      EveryRunIsSound(curves, events[..|events| - 1]);
      if e.Seen? {
        ObserveKeepsSound(curves, before, e.frame, e.insets, e.ceiling, e.since);
      }
    }
  }

  /** After any frame the rate for the outputs lies between three tenths of the clamped ceiling and
      the ceiling. */
  lemma AlphaFollowsTheLastCeiling(curves: Curves, events: seq<Event>)
    requires events != [] && events[|events| - 1].Seen?
    ensures var ceiling := Ceiling(events[|events| - 1].ceiling);
            ceiling * ALPHA_FLOOR_RATIO <= Run(curves, events).alpha <= ceiling
  {
    var m, e := Run(curves, events), events[|events| - 1];
    AlphaIsBounded(Ceiling(e.ceiling), m.changeEnv);
    hide Alpha, StatsOf, Change, Ceiling;
  }

  /** Once the crop has moved, the next frame has nothing to be compared with. */
  lemma AMovedCropIsNoChange(curves: Curves, m: Memory, f: Frame, insets: Insets, ceiling: real, since: nat)
    ensures After(curves, After(curves, m, CropMoved), Seen(f, insets, ceiling, since)).lastChange == 0.0
  {
  }

  // -------------------------------------------------------------------------
  // The change envelope is not a maximum
  // -------------------------------------------------------------------------

  /** `k` frames, in turn `a` and `b`. */
  function Flicker(a: Event, b: Event, k: nat): (events: seq<Event>)
    ensures |events| == k
  {
    if k == 0 then [] else Flicker(a, b, k - 1) + [InTurn(a, b, k)]
  }

  function StatsOfEvent(curves: Curves, e: Event): Stats
    requires e.Seen?
  {
    StatsOf(curves, e.frame, e.insets)
  }

  /** Two frames of as many samples that do not measure alike. */
  ghost predicate Differ(curves: Curves, a: Event, b: Event) {
    && a.Seen? && b.Seen? && a.since == b.since
    && StatsOfEvent(curves, a).count == StatsOfEvent(curves, b).count > 0
    && StatsOfEvent(curves, a).hist != StatsOfEvent(curves, b).hist
  }

  function ChangeBetween(curves: Curves, a: Event, b: Event): real
    requires a.Seen? && b.Seen?
  {
    Change(StatsOfEvent(curves, a), Some(StatsOfEvent(curves, b).hist))
  }

  lemma DifferenceIsMutual(curves: Curves, a: Event, b: Event)
    requires Differ(curves, a, b)
    ensures ChangeBetween(curves, a, b) == ChangeBetween(curves, b, a) > 0.0
  {
    hide StatsOfEvent, Change;
    ChangeIsSymmetric(StatsOfEvent(curves, a), StatsOfEvent(curves, b));
    NoChangeExactlyWhenTheSameHistogram(StatsOfEvent(curves, a), Some(StatsOfEvent(curves, b).hist));
  }

  /** What one more frame does to envelope, change and the histogram kept. */
  lemma AfterSeen(curves: Curves, m: Memory, e: Event)
    requires e.Seen?
    ensures
      var s, next := StatsOfEvent(curves, e), After(curves, m, e);
      && next.lastChange == Change(s, m.histPrev)
      && next.changeEnv == Envelope(m.changeEnv, next.lastChange, curves.retention(CHANGE_RELEASE, e.since))
      && (s.count > 0 ==> next.histPrev == Some(s.hist))
  {
    hide StatsOf, Change, Envelope, Alpha, Target, Divided;
  }

  /** After any run that ends in a frame the envelope covers that frame's change exactly if the change
      rises above the envelope before it, or that envelope's release has not fallen below it. */
  lemma EnvelopeCoversExactly(curves: Curves, events: seq<Event>)
    requires events != [] && events[|events| - 1].Seen?
    ensures
      var before, m, e := Run(curves, events[..|events| - 1]), Run(curves, events), events[|events| - 1];
      m.changeEnv >= m.lastChange <==>
        m.lastChange > before.changeEnv ||
        m.lastChange <= before.changeEnv * curves.retention(CHANGE_RELEASE, e.since)
  {
    hide After, StatsOfEvent, Change, Envelope;
    var before, m, e := Run(curves, events[..|events| - 1]), Run(curves, events), events[|events| - 1];
    AfterSeen(curves, before, e);
    EnvelopeCoversTheChange(before.changeEnv, m.lastChange, curves.retention(CHANGE_RELEASE, e.since));
  }

  /** The envelope after `k` frames of a flicker that changes by `c`. */
  function FlickerEnvelope(k: nat, c: real, kept: real): real {
    if k <= 1 then 0.0 else if k % 2 == 0 then c else c * kept
  }

  lemma FlickerEnvelopeStep(k: nat, c: real, kept: real)
    requires c > 0.0 && 0.0 <= kept <= 1.0 && k >= 2
    ensures Envelope(FlickerEnvelope(k - 1, c, kept), c, kept) == FlickerEnvelope(k, c, kept)
    ensures FlickerEnvelope(k, c, kept) < c <==> k % 2 == 1 && kept < 1.0
  {
    ScaleOrder(kept, 1.0, c);
  }

  function InTurn(a: Event, b: Event, k: nat): Event {
    if k % 2 == 1 then a else b
  }

  ghost predicate Flickers(curves: Curves, a: Event, b: Event, k: nat, m: Memory)
    requires a.Seen? && b.Seen?
  {
    var c, kept := ChangeBetween(curves, a, b), curves.retention(CHANGE_RELEASE, a.since);
    && m.histPrev == Some(StatsOfEvent(curves, InTurn(a, b, k)).hist)
    && m.lastChange == (if k == 1 then 0.0 else c)
    && m.changeEnv == FlickerEnvelope(k, c, kept)
  }

  lemma RunOfFlicker(curves: Curves, a: Event, b: Event, k: nat)
    requires k >= 1
    ensures Run(curves, Flicker(a, b, k)) == After(curves, Run(curves, Flicker(a, b, k - 1)), InTurn(a, b, k))
    ensures Run(curves, Flicker(a, b, 0)) == NEW_MEMORY && InTurn(a, b, 1) == a
  {
    hide After;
    assert Flicker(a, b, k)[..k - 1] == Flicker(a, b, k - 1);
  }

  lemma FlickerStarts(curves: Curves, a: Event, b: Event)
    requires Differ(curves, a, b)
    ensures Flickers(curves, a, b, 1, After(curves, NEW_MEMORY, a))
  {
    hide StatsOfEvent, After;
    AfterSeen(curves, NEW_MEMORY, a);
  }

  lemma FlickerGoesOn(curves: Curves, a: Event, b: Event, k: nat, m: Memory)
    requires Differ(curves, a, b) && k >= 2 && Flickers(curves, a, b, k - 1, m)
    ensures Flickers(curves, a, b, k, After(curves, m, InTurn(a, b, k)))
  {
    hide StatsOfEvent, After, Change, Envelope, FlickerEnvelope;
    DifferenceIsMutual(curves, a, b);
    AfterSeen(curves, m, InTurn(a, b, k));
    FlickerEnvelopeStep(k, ChangeBetween(curves, a, b), curves.retention(CHANGE_RELEASE, a.since));
  }

  lemma {:induction false} FlickerInSteps(curves: Curves, a: Event, b: Event, k: nat)
    requires Differ(curves, a, b) && k >= 1
    ensures Flickers(curves, a, b, k, Run(curves, Flicker(a, b, k)))
  {
    hide Flickers, After, Flicker, Run, InTurn, StatsOfEvent;
    RunOfFlicker(curves, a, b, k);
    if k == 1 {
      FlickerStarts(curves, a, b);
    } else {
      FlickerInSteps(curves, a, b, k - 1);
      FlickerGoesOn(curves, a, b, k, Run(curves, Flicker(a, b, k - 1)));
    }
  }

  /** A steady flicker measures the same change at every frame, and from the third on the envelope is
      below it at every other one, exactly if anything is let go of at all. */
  lemma ARepeatedCutIsNotCovered(curves: Curves, a: Event, b: Event, k: nat)
    requires Differ(curves, a, b) && k >= 2
    ensures
      var m, kept := Run(curves, Flicker(a, b, k)), curves.retention(CHANGE_RELEASE, a.since);
      && m.lastChange == ChangeBetween(curves, a, b) > 0.0
      && (m.changeEnv < m.lastChange <==> k % 2 == 1 && kept < 1.0)
  {
    FlickerInSteps(curves, a, b, k);
    hide StatsOfEvent, Change, Run, Flicker, FlickerEnvelope;
    DifferenceIsMutual(curves, a, b);
    FlickerEnvelopeStep(k, ChangeBetween(curves, a, b), curves.retention(CHANGE_RELEASE, a.since));
  }

  // -------------------------------------------------------------------------
  // Black bars
  // -------------------------------------------------------------------------

  lemma {:induction false} RowAgrees(f: Frame, g: Frame, row: nat, col: nat, end: nat)
    requires f.width == g.width && forall c: nat :: col <= c < end ==> Sampling.SameCell(f, g, row, c)
    ensures RowSamples(f, row, col, end) == RowSamples(g, row, col, end)
    decreases if col < end then end - col else 0
  {
    if col < end {
      assert Sampling.SameCell(f, g, row, col);
      RowAgrees(f, g, row, col + STATS_STRIDE, end);
    }
  }

  lemma {:induction false} WindowAgrees(f: Frame, g: Frame, row: nat, end: nat, cols: Range)
    requires Sampling.AgreeInside(f, g, Range(row, end), cols)
    ensures WindowSamples(f, row, end, cols) == WindowSamples(g, row, end, cols)
    decreases if row < end then end - row else 0
  {
    if row < end {
      RowAgrees(f, g, row, cols.start, cols.end);
      WindowAgrees(f, g, row + STATS_STRIDE, end, cols);
    }
  }

  /** What is shown in the bars has no part in any of the statistics. */
  lemma BarsDoNotCount(curves: Curves, f: Frame, g: Frame, insets: Insets)
    requires f.width == g.width && f.height == g.height && (f.pixels == [] <==> g.pixels == [])
    requires var content := ContentBounds(insets, f.width, f.height);
             Sampling.AgreeInside(f, g, content.0, content.1)
    ensures StatsOf(curves, f, insets) == StatsOf(curves, g, insets)
  {
    var content := ContentBounds(insets, f.width, f.height);
    WindowAgrees(f, g, content.0.start, content.0.end, content.1);
  }

  // -------------------------------------------------------------------------
  // Pictures of one colour
  // -------------------------------------------------------------------------

  ghost predicate ShowsOnly(e: Event, p: Rgb) {
    e.Seen? ==>
      && Samples(e.frame, e.insets) != []
      && forall i :: 0 <= i < |Samples(e.frame, e.insets)| ==> Samples(e.frame, e.insets)[i] == p
  }

  lemma BetweenItself(v: Vec3, x: Vec3)
    requires VecBetween(v, x, v)
    ensures x == v
  {
  }

  lemma MeansOfOneColour(curves: Curves, e: Event, p: Rgb)
    requires e.Seen? && ShowsOnly(e, p)
    ensures var s, v := StatsOf(curves, e.frame, e.insets), curves.Linear(p);
            && s.count > 0 && s.weightTotal > 0.0
            && Target(Divided(s.sum, s.count as real), Divided(s.weighted, s.weightTotal)) == v
  {
    var s, v := StatsOf(curves, e.frame, e.insets), curves.Linear(p);
    assert InGamut(v);
    hide CurveSet.Linear, StatsOf, Divided, Target;
    MeansStayBetweenTheSamples(curves, e.frame, e.insets, v, v);
    BetweenItself(v, Divided(s.sum, s.count as real));
    BetweenItself(v, Divided(s.weighted, s.weightTotal));
    TargetOfOneColour(v);
  }

  lemma SeeingOneColour(curves: Curves, m: Memory, e: Event, p: Rgb)
    requires e.Seen? && ShowsOnly(e, p)
    requires m.ambience.Some? ==> m.ambience.value == curves.Linear(p)
    ensures After(curves, m, e).ambience == Some(curves.Linear(p))
  {
    hide StatsOf, Target, Divided, Change, Alpha, CurveSet.Linear, ShowsOnly;
    MeansOfOneColour(curves, e, p);
  }

  lemma {:induction false} RunOfOneColour(curves: Curves, events: seq<Event>, p: Rgb)
    requires forall i :: 0 <= i < |events| ==> ShowsOnly(events[i], p)
    ensures var m := Run(curves, events);
            && (m.ambience.Some? ==> m.ambience.value == curves.Linear(p))
            && (m.ambience.None? ==> forall i :: 0 <= i < |events| ==> events[i] == CropMoved)
  {
    if events != [] {
      var init, e := events[..|events| - 1], events[|events| - 1];
      RunOfOneColour(curves, init, p);
      hide ShowsOnly;
      if e.Seen? {
        SeeingOneColour(curves, Run(curves, init), e, p);
      } else {
        assert forall i :: 0 <= i < |init| ==> events[i] == init[i];
      }
    }
  }

  /** End to end: while the picture is of one colour, lights showing it keep exactly it, in every
      topology and however far from the screen, until it is quantised. */
  lemma APictureOfOneColourIsLeftAlone(
      curves: Curves, events: seq<Event>, p: Rgb, colors: seq<Rgb>, topology: Topology, affinity: real,
      interval: nat, next: LightSetState, i: nat)
    requires forall j :: 0 <= j < |events| ==> ShowsOnly(events[j], p)
    requires exists j :: 0 <= j < |events| && events[j].Seen?
    requires i < |colors| && forall j :: 0 <= j < |colors| ==> colors[j] == p
    requires next.rangeSigma.Some? && next.rangeSigma.value > 0.0
    ensures var scene := Scene(curves, Run(curves, events).Ambience(), interval);
            Shown(scene, LightsOf(curves, colors), topology, affinity, next, i) == curves.Linear(p)
  {
    hide ShowsOnly, Run, Shown, LightsOf, CurveSet.Linear;
    RunOfOneColour(curves, events, p);
    var scene := Scene(curves, Run(curves, events).Ambience(), interval);
    TheAmbienceIsAFixedPoint(scene, colors, topology, affinity, next, i, p);
  }
}
