/** The tray's mode group: a cached view fed out of order from any thread, and the draws it posts
    to the main thread. */
module Tray {
  import opened Wrappers

  datatype Mode = Off | Ambilight | Solid | Effect

  datatype Item = Item(mode: Mode, checked: bool, enabled: bool)

  type Items = seq<Item>

  const ALL: seq<Mode> := [Off, Ambilight, Solid, Effect]

  /** `tray_mode_items`. */
  function ModeItems(running: Mode, transitioning: bool, locked: seq<Mode>): Items {
    seq(4, i requires 0 <= i < 4 => Item(ALL[i], ALL[i] == running, !transitioning && ALL[i] !in locked))
  }

  datatype Snapshot = Snapshot(revision: nat, running: Mode, idle: bool)

  datatype View = View(revision: nat, running: Mode, transitioning: bool, locked: seq<Mode>, shown: Option<Items>) {
    function Items(): Items {
      ModeItems(running, transitioning, locked)
    }
  }

  /** What `update_modes` is asked to change: nothing (a click), the running mode, or the locks. */
  datatype Change = Reread | Publish(snapshot: Snapshot) | Lock(locked: seq<Mode>)

  /** The change's closure: the view after it, and whether it has anything to redraw. */
  function Changed(v: View, c: Change): (View, bool) {
    match c
    case Reread => (v, true)
    case Publish(s) =>
      if s.revision < v.revision then (v, false)
      else (v.(revision := s.revision, running := s.running, transitioning := !s.idle), true)
    case Lock(locked) => (v.(locked := locked), true)
  }

  /** The draws still queued on the main thread, the menu as it reads now, and the clicks the menu
      has toggled natively whose handler has not run yet. `posted` and `toggles` are history. */
  datatype State = State(view: View, queue: seq<Items>, menu: Items, pendingClicks: nat, posted: seq<Items>)

  /** `build_tray_menu`: nothing runs before the first snapshot, and the menu it builds counts as shown. */
  const INITIAL := ModeItems(Off, false, [])
  const INIT := State(View(0, Off, false, [], Some(INITIAL)), [], INITIAL, 0, [])

  function Updated(s: State, force: bool, c: Change): State {
    var (view, redraw) := Changed(s.view, c);
    if !redraw then s
    else if !force && view.shown == Some(view.Items()) then s.(view := view)
    else s.(view := view.(shown := Some(view.Items())), queue := s.queue + [view.Items()],
            posted := s.posted + [view.Items()])
  }

  datatype Event =
    | Published(snapshot: Snapshot)   // any thread, outside the snapshot lock
    | Labelled(locked: seq<Mode>)     // update_tray_labels
    | Toggled(mode: Mode)             // a click toggles the check natively, first
    | Chosen                          // then its handler runs
    | Drawn                           // the main thread runs a posted draw

  predicate Enabled(s: State, e: Event) {
    match e
    case Chosen => s.pendingClicks > 0
    case Drawn => s.queue != []
    case _ => true
  }

  function Flipped(menu: Items, mode: Mode): Items {
    seq(|menu|, i requires 0 <= i < |menu| =>
      if menu[i].mode == mode then menu[i].(checked := !menu[i].checked) else menu[i])
  }

  function Step(s: State, e: Event): State
    requires Enabled(s, e)
  {
    match e
    case Published(snapshot) => Updated(s, false, Publish(snapshot))
    case Labelled(locked) => Updated(s, false, Lock(locked))
    case Toggled(mode) => s.(menu := Flipped(s.menu, mode), pendingClicks := s.pendingClicks + 1)
    case Chosen => Updated(s, true, Reread).(pendingClicks := s.pendingClicks - 1)
    case Drawn => s.(menu := s.queue[0], queue := s.queue[1..])
  }

  // -------------------------------------------------------------------------
  // The tray itself
  // -------------------------------------------------------------------------

  class TrayState {
    var view: View
    var queue: seq<Items>
    var menu: Items
    var pendingClicks: nat
    ghost var posted: seq<Items>

    ghost function Now(): State
      reads this
    {
      State(view, queue, menu, pendingClicks, posted)
    }

    constructor ()
      ensures Now() == INIT
    {
      view := View(0, Off, false, [], Some(INITIAL));
      queue, menu, pendingClicks, posted := [], INITIAL, 0, [];
    }

    method UpdateModes(force: bool, change: Change)
      modifies this
      ensures Now() == Updated(old(Now()), force, change)
    {
      var (changed, redraw) := Changed(view, change);
      view := changed;
      if !redraw {
        return;
      }
      var items := view.Items();
      if !force && view.shown == Some(items) {
        return;
      }
      view := view.(shown := Some(items));
      queue := queue + [items];
      posted := posted + [items];
    }

    method SyncTrayModes(snapshot: Snapshot)
      modifies this
      ensures Now() == Step(old(Now()), Published(snapshot))
    {
      UpdateModes(false, Publish(snapshot));
    }

    method UpdateTrayLabels(locked: seq<Mode>)
      modifies this
      ensures Now() == Step(old(Now()), Labelled(locked))
    {
      UpdateModes(false, Lock(locked));
    }

    method Toggle(mode: Mode)
      modifies this
      ensures Now() == Step(old(Now()), Toggled(mode))
    {
      menu := Flipped(menu, mode);
      pendingClicks := pendingClicks + 1;
    }

    /** `choose_tray_mode`: whether the choice is sent on to the lighting transaction. */
    method ChooseTrayMode(mode: Mode) returns (runs: bool)
      requires pendingClicks > 0
      modifies this
      ensures Now() == Step(old(Now()), Chosen)
      ensures runs <==> old(view).running != mode
    {
      UpdateModes(true, Reread);
      pendingClicks := pendingClicks - 1;
      runs := view.running != mode;
    }

    method DrawNext()
      requires queue != []
      modifies this
      ensures Now() == Step(old(Now()), Drawn)
    {
      menu, queue := queue[0], queue[1..];
    }
  }

  // -------------------------------------------------------------------------
  // The dedupe cache never leaves the menu stale
  // -------------------------------------------------------------------------

  /** What the menu will read once the queued draws have run. */
  function Settled(s: State): Items {
    if s.queue == [] then s.menu else s.queue[|s.queue| - 1]
  }

  /** The last draw posted; before the first, what the menu was built with. */
  function LastPosted(s: State): Items {
    if s.posted == [] then INITIAL else s.posted[|s.posted| - 1]
  }

  predicate Inv(s: State) {
    && s.view.shown == Some(s.view.Items())
    && s.view.Items() == LastPosted(s)
    && (s.pendingClicks == 0 ==> Settled(s) == s.view.Items())
  }

  lemma UpdateKeepsInv(s: State, force: bool, c: Change)
    requires Inv(s)
    ensures Inv(Updated(s, force, c))
    ensures force ==> Settled(Updated(s, force, c)) == Updated(s, force, c).view.Items() || !Changed(s.view, c).1
  {
  }

  lemma StepKeepsInv(s: State, e: Event)
    requires Inv(s) && Enabled(s, e)
    ensures Inv(Step(s, e))
  {
    match e
    case Published(snapshot) => UpdateKeepsInv(s, false, Publish(snapshot));
    case Labelled(locked) => UpdateKeepsInv(s, false, Lock(locked));
    case Chosen => UpdateKeepsInv(s, true, Reread);
    case Toggled(_) =>
    case Drawn =>
  }

  /** Why a click redraws whatever the cache says: a click alone leaves the menu reading otherwise than
      the view at just the mode clicked, and the redraw puts that right. */
  lemma AClickNeedsItsRedraw(s: State, mode: Mode, i: nat)
    requires Inv(s) && s.queue == [] && s.pendingClicks == 0 && i < 4
    ensures
      var clicked := Step(s, Toggled(mode));
      && |clicked.menu| == 4 && clicked.menu[i].mode == s.view.Items()[i].mode
      && (clicked.menu[i] != s.view.Items()[i] <==> clicked.menu[i].mode == mode)
      && Settled(Step(clicked, Chosen)) == s.view.Items()
  {
  }

  // -------------------------------------------------------------------------
  // Convergence, in any delivery order
  // -------------------------------------------------------------------------

  ghost predicate IsRun(events: seq<Event>)
    decreases |events|, 0
  {
    events == [] || (IsRun(Init(events)) && Enabled(After(Init(events)), Last(events)))
  }

  ghost function After(events: seq<Event>): State
    requires IsRun(events)
    decreases |events|, 1
  {
    if events == [] then INIT else Step(After(Init(events)), Last(events))
  }

  function Init(events: seq<Event>): seq<Event>
    requires events != []
  {
    events[..|events| - 1]
  }

  function Last(events: seq<Event>): Event
    requires events != []
  {
    events[|events| - 1]
  }

  function Snapshots(events: seq<Event>): set<Snapshot> {
    set e | e in events && e.Published? :: e.snapshot
  }

  function LastLocks(events: seq<Event>): seq<Mode> {
    if events == [] then []
    else if Last(events).Labelled? then Last(events).locked
    else LastLocks(Init(events))
  }

  predicate DistinctRevisions(snapshots: set<Snapshot>) {
    forall a, b :: a in snapshots && b in snapshots && a.revision == b.revision ==> a == b
  }

  predicate IsNewest(s: Snapshot, snapshots: set<Snapshot>) {
    s in snapshots && forall other :: other in snapshots ==> other.revision <= s.revision
  }

  lemma SnapshotsGrow(events: seq<Event>)
    requires events != []
    ensures Last(events).Published? ==> Snapshots(events) == Snapshots(Init(events)) + {Last(events).snapshot}
    ensures !Last(events).Published? ==> Snapshots(events) == Snapshots(Init(events))
  {
  }

  /** A view as the snapshots delivered so far leave it. */
  ghost predicate HoldsNewest(v: View, snapshots: set<Snapshot>) {
    if snapshots == {} then v.revision == 0 && v.running == Off && !v.transitioning
    else exists s :: IsNewest(s, snapshots) && IsOf(v, s)
  }

  predicate IsOf(v: View, s: Snapshot) {
    v.revision == s.revision && v.running == s.running && v.transitioning == !s.idle
  }

  lemma PublishKeepsNewest(v: View, snapshots: set<Snapshot>, s: Snapshot)
    requires HoldsNewest(v, snapshots) && DistinctRevisions(snapshots + {s})
    ensures HoldsNewest(Changed(v, Publish(s)).0, snapshots + {s})
  {
    var after := Changed(v, Publish(s)).0;
    if snapshots == {} {
      assert IsNewest(s, snapshots + {s}) && IsOf(after, s);
    } else {
      var newest :| IsNewest(newest, snapshots) && IsOf(v, newest);
      var winner := if s.revision < newest.revision then newest else s;
      assert IsNewest(winner, snapshots + {s}) && IsOf(after, winner);
    }
  }

  /** What one event does to the view. */
  lemma StepView(s: State, e: Event)
    requires Enabled(s, e)
    ensures
      var before, after := s.view, Step(s, e).view;
      match e
      case Published(snapshot) =>
        IsSame(after, Changed(before, Publish(snapshot)).0)
      case Labelled(locked) => IsSame(after, before.(locked := locked))
      case _ => IsSame(after, before)
  {
  }

  /** The same view but for what it has shown. */
  predicate IsSame(v: View, w: View) {
    v.revision == w.revision && v.running == w.running && v.transitioning == w.transitioning && v.locked == w.locked
  }

  lemma SameHoldsNewest(v: View, w: View, snapshots: set<Snapshot>)
    requires IsSame(v, w) && HoldsNewest(w, snapshots)
    ensures HoldsNewest(v, snapshots)
  {
    if snapshots != {} {
      var s :| IsNewest(s, snapshots) && IsOf(w, s);
      assert IsNewest(s, snapshots) && IsOf(v, s);
    }
  }

  /** The view always holds the newest snapshot delivered so far, and the last locks. */
  lemma {:induction false} ViewIsNewest(events: seq<Event>)
    requires IsRun(events) && DistinctRevisions(Snapshots(events))
    ensures After(events).view.locked == LastLocks(events)
    ensures HoldsNewest(After(events).view, Snapshots(events))
  {
    if events != [] {
      var before, last := After(Init(events)), Last(events);
      SnapshotsGrow(events);
      FewerAreDistinct(Snapshots(Init(events)), Snapshots(events));
      ViewIsNewest(Init(events));
      hide HoldsNewest, Step, Snapshots, DistinctRevisions, Changed;
      StepView(before, last);
      if last.Published? {
        PublishKeepsNewest(before.view, Snapshots(Init(events)), last.snapshot);
        ChangedKeepsLocks(before.view, last.snapshot);
        SameHoldsNewest(After(events).view, Changed(before.view, Publish(last.snapshot)).0, Snapshots(events));
      } else if last.Labelled? {
        LocksKeepNewest(before.view, last.locked, Snapshots(events));
        SameHoldsNewest(After(events).view, before.view.(locked := last.locked), Snapshots(events));
      } else {
        SameHoldsNewest(After(events).view, before.view, Snapshots(events));
      }
    }
  }

  lemma FewerAreDistinct(fewer: set<Snapshot>, more: set<Snapshot>)
    requires fewer <= more && DistinctRevisions(more)
    ensures DistinctRevisions(fewer)
  {
  }

  lemma ChangedKeepsLocks(v: View, s: Snapshot)
    ensures Changed(v, Publish(s)).0.locked == v.locked
  {
  }

  lemma LocksKeepNewest(v: View, locked: seq<Mode>, snapshots: set<Snapshot>)
    requires HoldsNewest(v, snapshots)
    ensures HoldsNewest(v.(locked := locked), snapshots)
  {
    if snapshots != {} {
      var s :| IsNewest(s, snapshots) && IsOf(v, s);
      assert IsOf(v.(locked := locked), s);
    }
  }

  lemma {:induction false} RunKeepsInv(events: seq<Event>)
    requires IsRun(events)
    ensures Inv(After(events))
  {
    if events != [] {
      RunKeepsInv(Init(events));
      StepKeepsInv(After(Init(events)), Last(events));
    }
  }

  /** The dedupe cache is the last draw posted, so an equal draw skipped is one already on its way;
      and it is what the view says, so nothing is skipped that the menu still needs. */
  lemma ShownIsLastPosted(events: seq<Event>)
    requires IsRun(events)
    ensures
      var s := After(events);
      s.view.shown == Some(LastPosted(s)) == Some(s.view.Items())
  {
    RunKeepsInv(events);
  }

  lemma NothingHasRun()
    ensures IsRun([]) && After([]) == INIT
  {
  }

  lemma OneMore(events: seq<Event>, e: Event)
    requires IsRun(events) && Enabled(After(events), e)
    ensures IsRun(events + [e]) && After(events + [e]) == Step(After(events), e)
  {
    assert Init(events + [e]) == events && Last(events + [e]) == e;
    hide Enabled, Step;
  }

  lemma RunOfOne(e: Event)
    requires Enabled(INIT, e)
    ensures IsRun([e]) && After([e]) == Step(INIT, e)
  {
    NothingHasRun();
    OneMore([], e);
    assert [] + [e] == [e];
    hide IsRun;
  }

  /** A first snapshot that says nothing runs is no change: nothing is drawn. */
  lemma AnIdleStartPostsNothing(revision: nat)
    ensures IsRun([Published(Snapshot(revision, Off, true))])
    ensures After([Published(Snapshot(revision, Off, true))]).posted == []
  {
    RunOfOne(Published(Snapshot(revision, Off, true)));
    hide IsRun;
  }

  /** Once the main thread has caught up, the menu reads what the newest snapshot and the last locks
      say, whatever the order the snapshots arrived in. */
  lemma TrayConverges(events: seq<Event>, newest: Snapshot)
    requires IsRun(events) && DistinctRevisions(Snapshots(events)) && IsNewest(newest, Snapshots(events))
    requires After(events).queue == [] && After(events).pendingClicks == 0
    ensures After(events).menu == ModeItems(newest.running, !newest.idle, LastLocks(events))
  {
    RunKeepsInv(events);
    ViewIsNewest(events);
  }

  /** The menu has one item for each mode; the running one and no other is checked, and a mode can be
      chosen exactly if nothing is changing and it is not locked. */
  lemma ItemsRead(running: Mode, transitioning: bool, locked: seq<Mode>, m: Mode) returns (i: nat)
    ensures i < 4 && forall j :: 0 <= j < 4 ==> (ModeItems(running, transitioning, locked)[j].mode == m <==> j == i)
    ensures
      var item := ModeItems(running, transitioning, locked)[i];
      && (item.checked <==> m == running)
      && (item.enabled <==> !transitioning && m !in locked)
  {
    i := if m.Off? then 0 else if m.Ambilight? then 1 else if m.Solid? then 2 else 3;
  }

  /** So a caught-up menu has the newest snapshot's mode checked and no other, and lets a mode be chosen
      exactly if that snapshot was idle and the last locks leave it open. */
  lemma TheMenuReads(events: seq<Event>, newest: Snapshot, m: Mode) returns (i: nat)
    requires IsRun(events) && DistinctRevisions(Snapshots(events)) && IsNewest(newest, Snapshots(events))
    requires After(events).queue == [] && After(events).pendingClicks == 0
    ensures |After(events).menu| == 4 && i < 4
    ensures forall j :: 0 <= j < 4 ==> (After(events).menu[j].mode == m <==> j == i)
    ensures After(events).menu[i].checked <==> m == newest.running
    ensures After(events).menu[i].enabled <==> newest.idle && m !in LastLocks(events)
  {
    TrayConverges(events, newest);
    hide ModeItems, IsRun, Snapshots, LastLocks;
    ItemsAreFour(newest.running, !newest.idle, LastLocks(events));
    i := ItemsRead(newest.running, !newest.idle, LastLocks(events), m);
  }

  lemma ItemsAreFour(running: Mode, transitioning: bool, locked: seq<Mode>)
    ensures |ModeItems(running, transitioning, locked)| == 4
  {
  }

  /** Two runs that deliver the same snapshots in different orders, among different clicks and
      draws, end on the same menu. */
  lemma OrderDoesNotMatter(a: seq<Event>, b: seq<Event>)
    requires IsRun(a) && IsRun(b)
    requires Snapshots(a) == Snapshots(b) != {} && DistinctRevisions(Snapshots(a)) && LastLocks(a) == LastLocks(b)
    requires After(a).queue == After(b).queue == [] && After(a).pendingClicks == After(b).pendingClicks == 0
    ensures After(a).menu == After(b).menu
  {
    ViewIsNewest(a);
    var newest :| IsNewest(newest, Snapshots(a)) && IsOf(After(a).view, newest);
    TrayConverges(a, newest);
    TrayConverges(b, newest);
  }

  /** Distinct revisions are needed: of two snapshots with one revision, the later delivery wins. */
  lemma EqualRevisionsDependOnOrder()
    ensures
      var off, solid := Published(Snapshot(1, Off, true)), Published(Snapshot(1, Solid, true));
      && IsRun([off, solid]) && IsRun([solid, off])
      && After([off, solid]).view.running != After([solid, off]).view.running
  {
    var off, solid := Published(Snapshot(1, Off, true)), Published(Snapshot(1, Solid, true));
    RunOfOne(off);
    RunOfOne(solid);
    OneMore([off], solid);
    OneMore([solid], off);
    hide IsRun;
    assert [off] + [solid] == [off, solid] && [solid] + [off] == [solid, off];
  }
}
