/** What one poll of the serial watcher makes of a listing: the watch state as a value. */
module WatchSteps {

  type Port = string

  /** How many misses make a loss. */
  const MISSES_BEFORE_LOST: nat := 2
  const U8_MAX: nat := 255

  /** `present` holds the ports present after the poll before; `misses` what each port is counted to have missed. */
  datatype Watch = Watch(present: set<Port>, misses: map<Port, nat>)

  datatype Poll = Poll(watch: Watch, appeared: set<Port>, lost: set<Port>)

  function Misses(w: Watch, p: Port): nat {
    if p in w.misses then w.misses[p] else 0
  }

  function SaturatingInc(n: nat): nat {
    if n < U8_MAX then n + 1 else U8_MAX
  }

  /** The miss counts after a listing: watched ports listed again are forgotten, watched ports
      missing count one more, and a port nobody watches keeps what it had. */
  function CountMisses(w: Watch, watched: set<Port>, now: set<Port>): map<Port, nat> {
    map p | p in w.misses.Keys + watched && !(p in watched && p in now) ::
      if p in watched then SaturatingInc(Misses(w, p)) else Misses(w, p)
  }

  function LostBy(w: Watch, watched: set<Port>, now: set<Port>): set<Port> {
    set p | p in watched && p !in now && SaturatingInc(Misses(w, p)) == MISSES_BEFORE_LOST
  }

  /** One poll after the baseline, over the supported ports listed `now` and those `connected`. */
  function PollStep(w: Watch, now: set<Port>, connected: set<Port>): Poll {
    var watched := w.present + connected;
    var lost := LostBy(w, watched, now);
    var kept := w.present - lost;
    Poll(Watch(kept + (now - kept), CountMisses(w, watched, now)), now - kept, lost)
  }

  // -------------------------------------------------------------------------
  // Runs of polls
  // -------------------------------------------------------------------------

  datatype Input = Input(now: set<Port>, connected: set<Port>)

  /** The watch after the first `k` inputs; the first one is only the baseline. */
  function WatchAfter(inputs: seq<Input>, k: nat): Watch
    requires 1 <= k <= |inputs|
  {
    if k == 1 then Watch(inputs[0].now, map[])
    else PollStep(WatchAfter(inputs, k - 1), inputs[k - 1].now, inputs[k - 1].connected).watch
  }

  function PollAt(inputs: seq<Input>, k: nat): Poll
    requires 1 <= k < |inputs|
  {
    PollStep(WatchAfter(inputs, k), inputs[k].now, inputs[k].connected)
  }

  lemma PollFacts(w: Watch, now: set<Port>, connected: set<Port>)
    ensures
      var poll := PollStep(w, now, connected);
      && poll.appeared !! poll.lost
      && now <= poll.watch.present
      && poll.appeared == now - w.present
      && poll.watch.present == (w.present - poll.lost) + poll.appeared
  {
  }

  /** A port announced lost, and not listed since: outside `present`, its count past the mark. */
  predicate Gone(w: Watch, p: Port) {
    p !in w.present && Misses(w, p) >= MISSES_BEFORE_LOST
  }

  lemma LostIsGone(w: Watch, i: Input, p: Port)
    requires p in PollStep(w, i.now, i.connected).lost
    ensures Gone(PollStep(w, i.now, i.connected).watch, p)
  {
  }

  lemma GoneStaysGone(w: Watch, i: Input, p: Port)
    requires Gone(w, p)
    ensures p !in PollStep(w, i.now, i.connected).lost
    ensures p in PollStep(w, i.now, i.connected).appeared || Gone(PollStep(w, i.now, i.connected).watch, p)
  {
  }

  lemma {:induction false} GoneUntilItAppears(inputs: seq<Input>, i: nat, j: nat, p: Port)
    requires 1 <= i < j < |inputs|
    requires p in PollAt(inputs, i).lost
    requires forall k :: i < k < j ==> p !in PollAt(inputs, k).appeared
    ensures Gone(WatchAfter(inputs, j), p)
    decreases j
  {
    if j == i + 1 {
      LostIsGone(WatchAfter(inputs, i), inputs[i], p);
    } else {
      GoneUntilItAppears(inputs, i, j - 1, p);
      GoneStaysGone(WatchAfter(inputs, j - 1), inputs[j - 1], p);
      assert p !in PollAt(inputs, j - 1).appeared;
    }
  }

  lemma {:induction false} ThereUntilItIsLost(inputs: seq<Input>, i: nat, j: nat, p: Port)
    requires 1 <= i < j < |inputs|
    requires p in PollAt(inputs, i).appeared
    requires forall k :: i < k < j ==> p !in PollAt(inputs, k).lost
    ensures p in WatchAfter(inputs, j).present
    decreases j
  {
    if j > i + 1 {
      ThereUntilItIsLost(inputs, i, j - 1, p);
      assert p !in PollAt(inputs, j - 1).lost;
    }
  }

  /** Over any run of polls, whatever the registry says is connected: between two losses of a port
      stands an appearance, between two appearances a loss, and never both in one event. */
  lemma AnnouncementsAlternate(inputs: seq<Input>, i: nat, j: nat, p: Port)
    requires 1 <= i < j < |inputs|
    ensures p in PollAt(inputs, i).lost && p in PollAt(inputs, j).lost ==>
      exists k :: i < k < j && p in PollAt(inputs, k).appeared
    ensures p in PollAt(inputs, i).appeared && p in PollAt(inputs, j).appeared ==>
      exists k :: i < k < j && p in PollAt(inputs, k).lost
    ensures PollAt(inputs, i).appeared !! PollAt(inputs, i).lost
  {
    PollFacts(WatchAfter(inputs, i), inputs[i].now, inputs[i].connected);
    if p in PollAt(inputs, i).lost && !exists k :: i < k < j && p in PollAt(inputs, k).appeared {
      GoneUntilItAppears(inputs, i, j, p);
      GoneStaysGone(WatchAfter(inputs, j), inputs[j], p);
    }
    if p in PollAt(inputs, i).appeared && !exists k :: i < k < j && p in PollAt(inputs, k).lost {
      ThereUntilItIsLost(inputs, i, j, p);
      PollFacts(WatchAfter(inputs, j), inputs[j].now, inputs[j].connected);
    }
  }

  /** A port of the baseline is first announced lost. */
  lemma {:induction false} BaselineIsLostFirst(inputs: seq<Input>, j: nat, p: Port)
    requires 1 <= j < |inputs| && p in inputs[0].now
    requires forall k :: 1 <= k < j ==> p !in PollAt(inputs, k).lost
    ensures p in WatchAfter(inputs, j).present
    ensures p !in PollAt(inputs, j).appeared
  {
    if j > 1 {
      BaselineIsLostFirst(inputs, j - 1, p);
      assert p !in PollAt(inputs, j - 1).lost;
    }
  }

  // -------------------------------------------------------------------------
  // "Two misses in a row are a loss" - and when that is not so
  // -------------------------------------------------------------------------

  /** A present port that goes missing is announced lost at its `m`th miss exactly when `m` and the
      count it already carried make two. With no count left over that is the second miss; with two
      or more left over it is never. */
  lemma {:induction false} MissStreak(w: Watch, inputs: seq<Input>, m: nat, p: Port)
    requires p in w.present && Misses(w, p) <= U8_MAX && 1 <= m <= |inputs|
    requires forall k :: 0 <= k < m ==> p !in inputs[k].now
    requires forall k :: 0 <= k < m - 1 ==> p !in StepFrom(w, inputs, k).lost
    ensures p in StepFrom(w, inputs, m - 1).lost <==> Misses(w, p) + m == MISSES_BEFORE_LOST
    decreases m
  {
    hide PollStep, WatchFrom, Misses;
    PresentThroughMisses(w, inputs, m - 1, p);
    MissOnce(WatchFrom(w, inputs, m - 1), inputs[m - 1].now, inputs[m - 1].connected, p);
  }

  /** One miss of a present port: a loss if it makes two, and otherwise one more on its count. */
  lemma MissOnce(w: Watch, now: set<Port>, connected: set<Port>, p: Port)
    requires p in w.present && p !in now
    ensures var poll := PollStep(w, now, connected);
            && (p in poll.lost <==> SaturatingInc(Misses(w, p)) == MISSES_BEFORE_LOST)
            && (p in poll.lost || p in poll.watch.present)
            && Misses(poll.watch, p) == SaturatingInc(Misses(w, p))
  {
  }

  function WatchFrom(w: Watch, inputs: seq<Input>, k: nat): Watch
    requires k <= |inputs|
  {
    if k == 0 then w else PollStep(WatchFrom(w, inputs, k - 1), inputs[k - 1].now, inputs[k - 1].connected).watch
  }

  function StepFrom(w: Watch, inputs: seq<Input>, k: nat): Poll
    requires k < |inputs|
  {
    PollStep(WatchFrom(w, inputs, k), inputs[k].now, inputs[k].connected)
  }

  lemma {:induction false} PresentThroughMisses(w: Watch, inputs: seq<Input>, m: nat, p: Port)
    requires p in w.present && Misses(w, p) <= U8_MAX && m <= |inputs|
    requires forall k :: 0 <= k < m ==> p !in inputs[k].now && p !in StepFrom(w, inputs, k).lost
    ensures p in WatchFrom(w, inputs, m).present
    ensures Misses(WatchFrom(w, inputs, m), p) == if Misses(w, p) + m < U8_MAX then Misses(w, p) + m else U8_MAX
  {
    hide PollStep, Misses;
    if m > 0 {
      PresentThroughMisses(w, inputs, m - 1, p);
      assert p !in StepFrom(w, inputs, m - 1).lost;
      MissOnce(WatchFrom(w, inputs, m - 1), inputs[m - 1].now, inputs[m - 1].connected, p);
    }
  }

  /** A count survives a port coming back while it is not watched. Listed, gone, back for one poll
      and gone again, a port is then missed forever without a second loss. */
  lemma MissedForeverWithoutLoss(inputs: seq<Input>, n: nat, p: Port)
    requires |inputs| == 5 + n && 1 <= n
    requires forall k :: 0 <= k < |inputs| ==> inputs[k] == Input(if k in {0, 3} then {p} else {}, {})
    ensures p in PollAt(inputs, 2).lost && p in PollAt(inputs, 3).appeared
    ensures forall k :: 4 <= k < |inputs| ==> p !in PollAt(inputs, k).lost
  {
    assert WatchAfter(inputs, 1) == Watch({p}, map[]);
    assert WatchAfter(inputs, 2) == Watch({p}, map[p := 1]);
    assert WatchAfter(inputs, 3) == Watch({}, map[p := 2]);
    assert WatchAfter(inputs, 4) == Watch({p}, map[p := 2]);
    forall k | 4 <= k < |inputs|
      ensures p !in PollAt(inputs, k).lost
    {
      StaleStaysPresent(inputs, k, p);
    }
  }

  lemma {:induction false} StaleStaysPresent(inputs: seq<Input>, k: nat, p: Port)
    requires 4 <= k < |inputs| && WatchAfter(inputs, 4) == Watch({p}, map[p := 2])
    requires forall i :: 4 <= i < |inputs| ==> inputs[i] == Input({}, {})
    ensures WatchAfter(inputs, k).present == {p} && Misses(WatchAfter(inputs, k), p) >= MISSES_BEFORE_LOST
    decreases k
  {
    if k > 4 {
      StaleStaysPresent(inputs, k - 1, p);
    }
  }

  /** The other way round: a port missed once while connected, let go of, and then listed, is
      announced lost at its very next miss. */
  lemma LostAfterOneMiss(p: Port)
    ensures
      var inputs := [Input({}, {}), Input({}, {p}), Input({p}, {}), Input({}, {})];
      p in PollAt(inputs, 2).appeared && p in PollAt(inputs, 3).lost
  {
    var inputs := [Input({}, {}), Input({}, {p}), Input({p}, {}), Input({}, {})];
    assert WatchAfter(inputs, 1) == Watch({}, map[]);
    assert WatchAfter(inputs, 2) == Watch({}, map[p := 1]);
    assert WatchAfter(inputs, 3) == Watch({p}, map[p := 1]);
  }
}
