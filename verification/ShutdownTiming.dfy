/** The cleanup schedule inside the shutdown protocol: a cleanup that keeps to it leaves the watchdog
    nothing to do. */
module ShutdownTiming {
  import opened Cleanup
  import opened ShutdownProtocol
  import opened Wrappers

  /** What may be late on the way: the cleanup's start after the winning trigger, its two waits, and
      marking it done. */
  datatype Lateness = Lateness(start: nat, lighting: nat, hue: nat, mark: nat) {
    function Total(): nat {
      start + lighting + hue + mark
    }
  }

  /** When the cleanup is marked done, `late` included, counted from the trigger at `at`. */
  function DoneBy(at: nat, lighting: StepRun, hue: StepRun, late: Lateness): nat {
    SinkTime(at + late.start, PRODUCTION, lighting, hue, late.lighting, late.hue) + late.mark
  }

  /** In every state of the run the cleanup is as far as its schedule says. */
  ghost predicate OnSchedule(states: seq<State>, lighting: StepRun, hue: StepRun, late: Lateness) {
    forall k :: 0 <= k < |states| ==> UpToSchedule(states[k], lighting, hue, late)
  }

  predicate UpToSchedule(s: State, lighting: StepRun, hue: StepRun, late: Lateness) {
    s.winner.Some? && s.now >= DoneBy(s.winner.value.at, lighting, hue, late) ==> s.cells.cleanupDone
  }

  /** Whatever lighting and Hue do, 600 ms are left for being late. */
  lemma DoneBeforeTheWatchdog(at: nat, lighting: StepRun, hue: StepRun, late: Lateness)
    requires late.Total() < 600
    ensures DoneBy(at, lighting, hue, late) < at + Cleanup.WATCHDOG
  {
    ShippedBudgetBeatsTheWatchdog(at + late.start, lighting, hue, late.lighting, late.hue);
  }

  /** By the time the watchdog can wake, or a hold time out, the cleanup is done. */
  lemma WatchdogWakesToADoneCleanup(
      states: seq<State>, actions: seq<Action>, lighting: StepRun, hue: StepRun, late: Lateness, k: nat)
    requires IsRun(states, actions) && k < |states|
    requires late.Total() < 600 && OnSchedule(states, lighting, hue, late)
    ensures Enabled(states[k], WatchdogWakes) ==> states[k].cells.cleanupDone
    ensures Enabled(states[k], HoldWakes) ==> states[k].cells.cleanupDone
  {
    RunKeepsInv(states, actions, k);
    var s := states[k];
    assert UpToSchedule(s, lighting, hue, late);
    assert ThreadInv(s, WatchdogThread) && ThreadInv(s, Main);
    if s.winner.Some? {
      DoneBeforeTheWatchdog(s.winner.value.at, lighting, hue, late);
    }
    hide DoneBy, Inv;
  }

  /** Every exit is recorded by the step that makes it, with what was true of the cleanup then. */
  lemma {:induction false} ExitWasTaken(states: seq<State>, actions: seq<Action>, k: nat) returns (j: nat)
    requires IsRun(states, actions) && k < |states| && states[k].exits != []
    ensures j < k && states[j].exits == [] && states[j].winner.Some?
    ensures states[k].exits[0].at == states[j].now && states[k].exits[0].cleanupDone == states[j].cells.cleanupDone
  {
    hide Inv, Apply, Enabled;
    NothingHasExitedYet(states, actions);
    RunKeepsInv(states, actions, k - 1);
    ExitsOnlyByExiting(states[k - 1], actions[k - 1]);
    if states[k - 1].exits != [] {
      j := ExitWasTaken(states, actions, k - 1);
    } else {
      j := k - 1;
    }
  }

  lemma NothingHasExitedYet(states: seq<State>, actions: seq<Action>)
    requires IsRun(states, actions)
    ensures states[0].exits == []
  {
  }

  lemma ExitsOnlyByExiting(s: State, a: Action)
    requires Inv(s) && Enabled(s, a)
    ensures
      var s' := Apply(s, a);
      || s'.exits == s.exits
      || (s.exits == [] && s.winner.Some? && |s'.exits| == 1
          && s'.exits[0].at == s.now && s'.exits[0].cleanupDone == s.cells.cleanupDone)
  {
    if a.RunExit? {
      assert ThreadInv(s, a.t);
      hide ThreadInv, WinnerInv;
    } else {
      hide Apply, Enabled, Inv;
    }
  }

  /** A cleanup on schedule is never abandoned: whoever ends the process, it does so after the cleanup
      was marked done. */
  lemma NoExitAbandonsAPunctualCleanup(
      states: seq<State>, actions: seq<Action>, lighting: StepRun, hue: StepRun, late: Lateness, k: nat)
    requires IsRun(states, actions) && k < |states|
    requires late.Total() < 600 && OnSchedule(states, lighting, hue, late)
    ensures states[k].exits != [] ==>
      states[k].exits[0].cleanupDone && (!states[k].spawnFailed ==> states[k].exits[0].cleanupRan)
  {
    ShutdownIsOrderly(states, actions, k);
    if states[k].exits != [] {
      var j := ExitWasTaken(states, actions, k);
      var w := states[j].winner.value;
      assert UpToSchedule(states[j], lighting, hue, late);
      FirstTriggerWins(states, actions, j, k);
      DoneBeforeTheWatchdog(w.at, lighting, hue, late);
      hide DoneBy, IsRun;
    }
  }
}
