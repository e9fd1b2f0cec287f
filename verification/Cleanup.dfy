/** `run_cleanup`: three steps in order, the first two abandoned at their bounds. */
module Cleanup {
  import opened Arith

  /** How one detached step goes, measured from its start: it answers, its channel closes without
      an answer (the thread panicked or never started), or it hangs. */
  datatype StepRun = Answers(after: nat) | Closes(after: nat) | Hangs

  datatype Received = Answered | Disconnected | TimedOut

  /** Milliseconds; `late` below is how much later than its timeout a wait may wake. */
  datatype Budget = Budget(lighting: nat, hueDeadline: nat, hueGrace: nat)

  const PRODUCTION := Budget(1500, 3300, 100)

  /** `SHUTDOWN_WATCHDOG`. */
  const WATCHDOG: nat := 4000

  datatype Event =
    | LightingStarted(at: nat)
    | LightingOver(at: nat, how: Received)
    | HueStarted(at: nat, deadline: nat)
    | HueOver(at: nat, how: Received)
    | SinkCleared(at: nat)

  predicate EndsWithin(run: StepRun, timeout: nat) {
    !run.Hangs? && run.after <= timeout
  }

  function WaitTime(run: StepRun, timeout: nat, late: nat): nat {
    if EndsWithin(run, timeout) then run.after else timeout + late
  }

  function Outcome(run: StepRun, timeout: nat): Received {
    if !EndsWithin(run, timeout) then TimedOut else if run.Answers? then Answered else Disconnected
  }

  class CleanupThread {
    var now: nat
    var log: seq<Event>

    constructor (now: nat)
      ensures this.now == now && log == []
    {
      this.now, log := now, [];
    }

    /** `recv_timeout` on a step started just now. */
    method RecvTimeout(run: StepRun, timeout: nat, late: nat) returns (received: Received)
      modifies this`now
      ensures now == old(now) + WaitTime(run, timeout, late)
      ensures received == Outcome(run, timeout)
    {
      if EndsWithin(run, timeout) {
        now := now + run.after;
        received := if run.Answers? then Answered else Disconnected;
      } else {
        now := now + timeout + late;
        received := TimedOut;
      }
    }

    method RunCleanup(budget: Budget, lighting: StepRun, hue: StepRun, lateLighting: nat, lateHue: nat)
      modifies this
      ensures log == old(log) + Schedule(old(now), budget, lighting, hue, lateLighting, lateHue)
      ensures now == SinkTime(old(now), budget, lighting, hue, lateLighting, lateHue)
    {
      var cleanupStarted := now;
      log := log + [LightingStarted(now)];
      var first := RecvTimeout(lighting, budget.lighting, lateLighting);
      log := log + [LightingOver(now, first)];

      var hueDeadline := cleanupStarted + budget.hueDeadline;
      log := log + [HueStarted(now, hueDeadline)];
      var hueWait := SaturatingSub(hueDeadline, now) + budget.hueGrace;
      var second := RecvTimeout(hue, hueWait, lateHue);
      log := log + [HueOver(now, second)];

      log := log + [SinkCleared(now)];
    }
  }

  // -------------------------------------------------------------------------
  // The schedule, and what it promises
  // -------------------------------------------------------------------------

  function HueStart(t0: nat, b: Budget, lighting: StepRun, late: nat): nat {
    t0 + WaitTime(lighting, b.lighting, late)
  }

  /** How long Hue is waited on. */
  function HueWait(t0: nat, b: Budget, lighting: StepRun, late: nat): nat {
    SaturatingSub(t0 + b.hueDeadline, HueStart(t0, b, lighting, late)) + b.hueGrace
  }

  function SinkTime(t0: nat, b: Budget, lighting: StepRun, hue: StepRun, lateLighting: nat, lateHue: nat): nat {
    HueStart(t0, b, lighting, lateLighting) + WaitTime(hue, HueWait(t0, b, lighting, lateLighting), lateHue)
  }

  function Schedule(t0: nat, b: Budget, lighting: StepRun, hue: StepRun, lateLighting: nat, lateHue: nat): seq<Event> {
    var t1 := HueStart(t0, b, lighting, lateLighting);
    var t2 := SinkTime(t0, b, lighting, hue, lateLighting, lateHue);
    [ LightingStarted(t0),
      LightingOver(t1, Outcome(lighting, b.lighting)),
      HueStarted(t1, t0 + b.hueDeadline),
      HueOver(t2, Outcome(hue, HueWait(t0, b, lighting, lateLighting))),
      SinkCleared(t2) ]
  }

  /** A wedged lighting stop cannot eat the Hue step's time. */
  lemma HueKeepsItsTime(t0: nat, b: Budget, lighting: StepRun, late: nat)
    requires b.lighting + late <= b.hueDeadline
    ensures HueWait(t0, b, lighting, late) >= b.hueDeadline - b.lighting - late + b.hueGrace
    ensures HueStart(t0, b, lighting, late) + HueWait(t0, b, lighting, late) == t0 + b.hueDeadline + b.hueGrace
  {
  }

  /** However both steps go, Hue is over by its deadline plus the grace, plus what the scheduler
      itself is late by. */
  lemma HueIsOverInTime(t0: nat, b: Budget, lighting: StepRun, hue: StepRun, lateLighting: nat, lateHue: nat)
    ensures SinkTime(t0, b, lighting, hue, lateLighting, lateHue)
         <= t0 + (if b.hueDeadline >= b.lighting + lateLighting then b.hueDeadline else b.lighting + lateLighting)
            + b.hueGrace + lateHue
  {
  }

  /** A Hue stop that ends inside its wait is never reported abandoned, and one that does not always
      is: the answer is heard exactly when it comes by the deadline plus the grace. */
  lemma HueIsHeardExactlyInTime(t0: nat, b: Budget, lighting: StepRun, hue: StepRun, late: nat)
    requires b.lighting + late <= b.hueDeadline && hue.Answers?
    ensures Outcome(hue, HueWait(t0, b, lighting, late)) == Answered
       <==> HueStart(t0, b, lighting, late) + hue.after <= t0 + b.hueDeadline + b.hueGrace
  {
  }

  /** With the shipped constants the sink is cleared 600 ms before the watchdog, less only what the
      two waits wake late by; so the watchdog never preempts the sink unless they are that late. */
  lemma ShippedBudgetBeatsTheWatchdog(t0: nat, lighting: StepRun, hue: StepRun, lateLighting: nat, lateHue: nat)
    ensures
      var sink := SinkTime(t0, PRODUCTION, lighting, hue, lateLighting, lateHue);
      && (lateLighting <= 1800 ==> sink <= t0 + WATCHDOG - 600 + lateHue)
      && (lateLighting <= 1800 && lateHue < 600 ==> sink < t0 + WATCHDOG)
      && (lighting.Hangs? && hue.Hangs? && lateLighting <= 1800 ==> sink == t0 + WATCHDOG - 600 + lateHue)
  {
  }
}
