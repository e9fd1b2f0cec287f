/** That a shutdown, once begun, gets to its end: no interleaving leaves it standing, and none goes on
    for ever. */
module ShutdownProgress {
  import opened ShutdownCells
  import opened ShutdownProtocol
  import opened Wrappers

  // -------------------------------------------------------------------------
  // What the threads owe
  // -------------------------------------------------------------------------

  /** A trigger is the event loop's, another thread's, or the installer's; anything else but the
      passing of time is a step of a thread already inside the shutdown. */
  predicate IsOwnStep(a: Action) {
    !a.Begin? && !a.BeginInline? && !a.ExitEvent? && !a.Tick?
  }

  predicate OwesAnExit(pc: Pc) {
    pc.SpawnFailed? || pc == Claiming(BySpawnFailure)
  }

  predicate PastSpawn(pc: Pc) {
    !pc.Storing? && !pc.Spawning?
  }

  /** What the winning thread leaves behind it. */
  predicate WinnerLives(s: State) {
    s.winner.Some? ==>
      var w := s.winner.value;
      && match s.At(w.tid)
         case Storing(_, inline) => inline == w.inline
         case Spawning => !w.inline
         case Arming => !w.inline && !s.spawnFailed
         case SpawnFailed => !w.inline
         case InlineCleaning => w.inline
         case InlineMarking => w.inline
         case _ => true
  }

  /** Which threads were started, and who must still act. */
  predicate Started(s: State) {
    && (s.winner.None? ==> !s.spawnFailed && !s.exitEvent && s.At(CleanupThread).Idle?)
    && (s.winner.Some? ==>
          var w := s.winner.value;
          && (w.inline ==> !s.armed && !s.spawnFailed && s.At(CleanupThread).Idle?)
          && (!w.inline && PastSpawn(s.At(w.tid)) ==> s.spawnFailed == s.At(CleanupThread).Idle?)
          && (s.spawnFailed ==> !s.armed && PastSpawn(s.At(w.tid)))
          && (s.spawnFailed && !OwesAnExit(s.At(w.tid)) ==> s.cells.exitClaimed)
          && (!PastSpawn(s.At(w.tid)) ==> s.At(CleanupThread).Idle?))
  }

  /** A held main thread is inside the exit event, and the exit event holds it until it claims. */
  predicate MainLives(s: State) {
    && (s.exitEvent ==> !s.At(Main).Idle?)
    && (s.At(Main).Holding? ==> s.exitEvent)
    && (s.At(Main).Over? ==> s.exitEvent)
    && (PathOf(s.At(Main)).Some? && PathOf(s.At(Main)).value.ByHold? ==> s.exitEvent)
  }

  predicate CleanupLives(s: State) {
    && (s.At(CleanupThread).Over? && s.winner.Some? ==> s.winner.value.restart || s.cells.exitClaimed)
    && (s.At(CleanupThread).Claiming? || s.At(CleanupThread).Loading? || s.At(CleanupThread).Exiting? ==>
          s.winner.Some? && !s.winner.value.restart && !s.winner.value.inline)
  }

  function PathOf(pc: Pc): Option<ExitPath> {
    match pc
    case Claiming(path) => Some(path)
    case Loading(path) => Some(path)
    case Exiting(path, _) => Some(path)
    case _ => None
  }

  /** Whatever claimed the exit was there to do so. */
  predicate ClaimLives(s: State) {
    s.cells.exitClaimed ==>
      && s.winner.Some?
      && (s.armed || s.spawnFailed || s.exitEvent || (!s.winner.value.restart && !s.winner.value.inline))
  }

  predicate Lives(s: State) {
    WinnerLives(s) && Started(s) && MainLives(s) && CleanupLives(s) && ClaimLives(s)
  }

  // -------------------------------------------------------------------------
  // Every step keeps it
  // -------------------------------------------------------------------------

  /** What the protocol's invariant says of one thread, and of the winner. */
  lemma Facts(s: State, t: Tid)
    requires Inv(s)
    ensures ThreadInv(s, t) && WinnerInv(s)
    ensures s.cells.exitClaimed == s.claimant.Some?
    ensures s.winner.Some? ==> ThreadInv(s, s.winner.value.tid)
  {
  }

  lemma FiredIffBegun(s: State)
    requires Inv(s)
    ensures s.cells.fired <==> s.winner.Some?
  {
  }

  lemma FirstTriggerLives(s: State, t: Tid, restart: bool, inline: bool)
    requires Inv(s) && Lives(s) && s.At(t).Idle? && (t.Main? || (t.Other? && !restart)) && (inline ==> t.Other?)
    requires t.Main? ==> !s.exitEvent
    requires !s.cells.fired
    ensures Lives(TryBegin(s, t, restart, inline))
  {
    Facts(s, t);
    Facts(s, CleanupThread);
    hide Inv, ThreadInv;
  }

  lemma LateTriggerLives(s: State, t: Tid, restart: bool, inline: bool)
    requires Inv(s) && Lives(s) && s.At(t).Idle? && (t.Main? || t.Other?)
    requires t.Main? ==> !s.exitEvent
    requires s.cells.fired
    ensures Lives(TryBegin(s, t, restart, inline))
  {
    FiredIffBegun(s);
    hide Inv, ThreadInv, WinnerInv;
  }

  lemma TriggerLives(s: State, t: Tid, restart: bool, inline: bool)
    requires Inv(s) && Lives(s) && s.At(t).Idle? && (t.Main? || (t.Other? && !restart)) && (inline ==> t.Other?)
    requires t.Main? ==> !s.exitEvent
    ensures Lives(TryBegin(s, t, restart, inline))
  {
    hide Inv, Lives, TryBegin;
    if s.cells.fired {
      LateTriggerLives(s, t, restart, inline);
    } else {
      FirstTriggerLives(s, t, restart, inline);
    }
  }

  lemma ExitEventLives(s: State)
    requires Inv(s) && Lives(s) && s.At(Main).Idle? && !s.exitEvent
    ensures Lives(TryBegin(s.(exitEvent := true), Main, false, false))
  {
    Facts(s, Main);
    Facts(s, CleanupThread);
    hide Inv, ThreadInv;
  }

  lemma StoreLives(s: State, a: Action)
    requires Inv(s) && Lives(s) && Enabled(s, a) && a.Store?
    ensures Lives(Apply(s, a))
  {
    Facts(s, a.t);
    Facts(s, CleanupThread);
    hide Inv;
  }

  lemma SpawnCleanupLives(s: State, a: Action)
    requires Inv(s) && Lives(s) && Enabled(s, a) && a.SpawnCleanup?
    ensures Lives(Apply(s, a))
  {
    Facts(s, a.t);
    Facts(s, CleanupThread);
    hide Inv;
  }

  lemma SpawnWatchdogLives(s: State, a: Action)
    requires Inv(s) && Lives(s) && Enabled(s, a) && a.SpawnWatchdog?
    ensures Lives(Apply(s, a))
  {
    Facts(s, a.t);
    Facts(s, CleanupThread);
    hide Inv;
  }

  lemma SpawnFailureLives(s: State, a: Action)
    requires Inv(s) && Lives(s) && Enabled(s, a) && (a.MarkAfterSpawnFailure? || a.InlineMark? || a.InlineCleaned?)
    ensures Lives(Apply(s, a))
  {
    Facts(s, a.t);
    Facts(s, CleanupThread);
    hide Inv;
  }

  lemma CleanupThreadLives(s: State, a: Action)
    requires Inv(s) && Lives(s) && Enabled(s, a) && (a.CleanupEnds? || a.CleanupMarks? || a.CleanupChecks?)
    ensures Lives(Apply(s, a))
  {
    Facts(s, CleanupThread);
    hide Inv;
  }

  lemma WakerLives(s: State, a: Action)
    requires Inv(s) && Lives(s) && Enabled(s, a) && (a.WatchdogWakes? || a.HoldWakes?)
    ensures Lives(Apply(s, a))
  {
    Facts(s, Main);
    hide Inv, ThreadInv;
  }

  lemma TickLives(s: State, a: Action)
    requires Lives(s) && a.Tick?
    ensures Lives(Apply(s, a))
  {
  }

  lemma LateClaimLives(s: State, a: Action)
    requires Inv(s) && Lives(s) && Enabled(s, a) && a.Claim? && s.cells.exitClaimed
    ensures Lives(Apply(s, a))
  {
    Facts(s, a.t);
    hide Inv, WinnerInv;
    assert SwapExitClaimed(s.cells).0 == s.cells;
    if s.At(a.t).path == BySpawnFailure {
      BackFromFailureLives(s, a.t);
    } else {
      OverLives(s, a.t);
    }
  }

  lemma BackFromFailureLives(s: State, t: Tid)
    requires Lives(s) && ThreadInv(s, t) && s.At(t) == Claiming(BySpawnFailure) && s.cells.exitClaimed
    ensures Lives(s.Return(t))
  {
  }

  lemma OverLives(s: State, t: Tid)
    requires Lives(s) && ThreadInv(s, t) && s.At(t).Claiming? && s.cells.exitClaimed
    requires s.At(t).path != BySpawnFailure
    ensures Lives(s.Move(t, Over))
  {
  }

  lemma FirstClaimLives(s: State, a: Action)
    requires Inv(s) && Lives(s) && Enabled(s, a) && a.Claim? && !s.cells.exitClaimed
    ensures Lives(Apply(s, a))
  {
    Facts(s, a.t);
    Facts(s, Main);
    Facts(s, CleanupThread);
    hide Inv;
  }

  lemma LoadLives(s: State, a: Action)
    requires Inv(s) && Lives(s) && Enabled(s, a) && a.Load?
    ensures Lives(Apply(s, a))
  {
    Facts(s, a.t);
    Facts(s, Main);
    hide Inv;
  }

  lemma ExitLives(s: State, a: Action)
    requires Inv(s) && Lives(s) && Enabled(s, a) && a.RunExit?
    ensures Lives(Apply(s, a))
  {
    Facts(s, a.t);
    Facts(s, Main);
    hide Inv;
  }

  lemma StepKeepsLives(s: State, a: Action)
    requires Inv(s) && Lives(s) && Enabled(s, a)
    ensures Lives(Apply(s, a))
  {
    hide Inv, Lives, Claimed, Exited;
    match a
    case Begin(t, restart) => MainIsNotIdle(s); TriggerLives(s, t, restart, false);
    case ExitEvent => ExitEventLives(s);
    case BeginInline(t) => TriggerLives(s, t, false, true);
    case Store(_) => StoreLives(s, a);
    case SpawnCleanup(_, _) => SpawnCleanupLives(s, a);
    case SpawnWatchdog(_, _) => SpawnWatchdogLives(s, a);
    case MarkAfterSpawnFailure(_) | InlineCleaned(_) | InlineMark(_) => SpawnFailureLives(s, a);
    case CleanupEnds | CleanupMarks | CleanupChecks => CleanupThreadLives(s, a);
    case WatchdogWakes | HoldWakes => WakerLives(s, a);
    case Tick(_) => TickLives(s, a);
    case Claim(_) => if s.cells.exitClaimed { LateClaimLives(s, a); } else { FirstClaimLives(s, a); }
    case Load(_) => LoadLives(s, a);
    case RunExit(_) => ExitLives(s, a);
  }

  lemma MainIsNotIdle(s: State)
    requires Lives(s)
    ensures s.At(Main).Idle? ==> !s.exitEvent
  {
  }

  lemma {:induction false} RunKeepsLives(states: seq<State>, actions: seq<Action>, k: nat)
    requires IsRun(states, actions) && k < |states|
    ensures Inv(states[k]) && Lives(states[k])
  {
    hide Inv, Lives, Apply, Enabled;
    RunKeepsInv(states, actions, k);
    if k == 0 {
      FreshLives();
    } else {
      RunKeepsLives(states, actions, k - 1);
      StepKeepsLives(states[k - 1], actions[k - 1]);
    }
  }

  lemma FreshLives()
    ensures Lives(INIT)
  {
  }

  // -------------------------------------------------------------------------
  // No run comes to a standstill before its exit
  // -------------------------------------------------------------------------

  /** However long one waits, no thread inside the shutdown has a step to take. */
  ghost predicate Standstill(s: State) {
    forall ms: nat, a: Action :: IsOwnStep(a) ==> !Enabled(Apply(s, Tick(ms)), a)
  }

  /** The one exit is done, or the thread that owns it has its next step to take. */
  predicate ExitOnItsWay(s: State) {
    || |s.exits| == 1
    || (s.claimant.Some? && (Enabled(s, Load(s.claimant.value)) || Enabled(s, RunExit(s.claimant.value))))
  }

  lemma ClaimedIsOnItsWay(s: State)
    requires Inv(s)
    ensures s.cells.exitClaimed ==> ExitOnItsWay(s)
    ensures s.exits != [] ==> |s.exits| == 1 && s.cells.exitClaimed
  {
  }

  /** At a standstill every thread is out of the shutdown code or at its end. */
  lemma StandstillMeansQuiet(s: State, t: Tid)
    requires Inv(s) && Standstill(s)
    ensures s.At(t).Idle? || s.At(t).Over?
  {
    Facts(s, t);
    hide Inv, ThreadInv, WinnerInv, Standstill, Apply, Enabled;
    if !s.At(t).Idle? && !s.At(t).Over? {
      NextStepIsEnabled(s, t);
      StandsStill(s, WaitOf(s, t), NextStep(s, t));
    }
  }

  lemma NextStepIsEnabled(s: State, t: Tid)
    requires ThreadInv(s, t) && !s.At(t).Idle? && !s.At(t).Over?
    ensures Enabled(Apply(s, Tick(WaitOf(s, t))), NextStep(s, t))
  {
    var waited := Apply(s, Tick(WaitOf(s, t)));
    assert waited.At(t) == s.At(t);
    hide PathInv, Launched, IsWinner;
  }

  lemma StandsStill(s: State, ms: nat, a: Action)
    requires Standstill(s) && IsOwnStep(a)
    ensures !Enabled(Apply(s, Tick(ms)), a)
  {
  }

  /** How long thread `t` still waits for the clock. */
  function WaitOf(s: State, t: Tid): nat {
    match s.At(t)
    case Sleeping(until) => if until > s.now then until - s.now else 0
    case Holding(since) => if since + WATCHDOG > s.now then since + WATCHDOG - s.now else 0
    case _ => 0
  }

  /** The step thread `t` takes next. */
  function NextStep(s: State, t: Tid): (a: Action)
    ensures IsOwnStep(a)
  {
    match s.At(t)
    case Storing(_, _) => Store(t)
    case Spawning => SpawnCleanup(t, true)
    case Arming => SpawnWatchdog(t, true)
    case SpawnFailed => MarkAfterSpawnFailure(t)
    case InlineCleaning => InlineCleaned(t)
    case InlineMarking => InlineMark(t)
    case Holding(_) => HoldWakes
    case Cleaning => CleanupEnds
    case Marking => CleanupMarks
    case Checking => CleanupChecks
    case Sleeping(_) => WatchdogWakes
    case Claiming(_) => Claim(t)
    case Loading(_) => Load(t)
    case Exiting(_, _) => RunExit(t)
    case _ => Store(t)
  }

  /** A shutdown that has come to a standstill has ended the process, except in one case, and then it
      never will: no exit event, no watchdog, no spawn failure, and a winner that leaves the exit to
      others - a restart, or the installer's inline cleanup. */
  lemma AShutdownComesToItsEnd(states: seq<State>, actions: seq<Action>, k: nat)
    requires IsRun(states, actions) && k < |states|
    requires states[k].winner.Some? && Standstill(states[k])
    ensures
      var s := states[k];
      && |s.exits| <= 1
      && (s.exits == [] <==>
            !s.exitEvent && !s.armed && !s.spawnFailed && (s.winner.value.restart || s.winner.value.inline))
  {
    hide Apply, Enabled;
    var s := states[k];
    RunKeepsLives(states, actions, k);
    StandstillMeansQuiet(s, s.winner.value.tid);
    StandstillMeansQuiet(s, Main);
    StandstillMeansQuiet(s, CleanupThread);
    StandstillMeansQuiet(s, WatchdogThread);
    if s.claimant.Some? {
      StandstillMeansQuiet(s, s.claimant.value);
    }
    QuietEnds(s);
  }

  lemma QuietEnds(s: State)
    requires Inv(s) && Lives(s) && s.winner.Some?
    requires forall t :: t in {s.winner.value.tid, Main, CleanupThread, WatchdogThread} ==>
               s.At(t).Idle? || s.At(t).Over?
    requires s.claimant.Some? ==> s.At(s.claimant.value).Idle? || s.At(s.claimant.value).Over?
    ensures |s.exits| <= 1
    ensures s.exits == [] <==>
      !s.exitEvent && !s.armed && !s.spawnFailed && (s.winner.value.restart || s.winner.value.inline)
  {
    Facts(s, Main);
    Facts(s, WatchdogThread);
    ClaimedIsOnItsWay(s);
    hide Inv, ThreadInv;
  }

  // -------------------------------------------------------------------------
  // What each way out guarantees
  // -------------------------------------------------------------------------

  /** A cleanup thread that has ended without a restart to leave to others, a main thread past its
      hold, and a trigger back from a spawn failure have each seen the exit claimed. */
  lemma WhoLeavesHasSeenTheExit(states: seq<State>, actions: seq<Action>, k: nat)
    requires IsRun(states, actions) && k < |states| && states[k].winner.Some?
    ensures
      var s := states[k];
      && (s.At(CleanupThread).Over? && !s.winner.value.restart ==> ExitOnItsWay(s))
      && (s.At(Main).Over? ==> ExitOnItsWay(s))
      && (s.spawnFailed && !OwesAnExit(s.At(s.winner.value.tid)) ==> ExitOnItsWay(s))
  {
    RunKeepsLives(states, actions, k);
    Facts(states[k], Main);
    ClaimedIsOnItsWay(states[k]);
    hide Inv, ExitOnItsWay, IsRun;
  }

  // -------------------------------------------------------------------------
  // No run goes on for ever
  // -------------------------------------------------------------------------

  /** How many steps a thread may still take. */
  function StepsLeft(pc: Pc): nat {
    match pc
    case Storing(_, _) => 13
    case Spawning => 12
    case InlineCleaning => 12
    case Arming => 11
    case SpawnFailed => 11
    case InlineMarking => 11
    case Claiming(path) => if path == BySpawnFailure then 10 else 3
    case Loading(path) => if path == BySpawnFailure then 9 else 2
    case Exiting(path, _) => if path == BySpawnFailure then 8 else 1
    case Idle => 7
    case Cleaning => 6
    case Marking => 5
    case Checking => 4
    case Holding(_) => 4
    case Sleeping(_) => 4
    case Over => 0
  }

  /** And all those of a shutdown that has begun. */
  function Rank(s: State): nat
    requires s.winner.Some?
  {
    StepsLeft(s.At(s.winner.value.tid)) + (if s.winner.value.tid.Main? then 0 else StepsLeft(s.At(Main))) +
    StepsLeft(s.At(CleanupThread)) + StepsLeft(s.At(WatchdogThread))
  }

  /** A step that moves thread `t` only gives `t` alone fewer to take. */
  lemma OneMovesOn(s: State, s': State, t: Tid)
    requires s.winner.Some? && s'.winner == s.winner && (s.winner.value.tid.Main? || s.winner.value.tid.Other?)
    requires forall u: Tid :: u != t ==> s'.At(u) == s.At(u)
    requires StepsLeft(s'.At(t)) <= StepsLeft(s.At(t))
    ensures Rank(s') <= Rank(s)
    ensures StepsLeft(s'.At(t)) < StepsLeft(s.At(t)) && (t == s.winner.value.tid || !t.Other?) ==> Rank(s') < Rank(s)
  {
    hide StepsLeft;
  }

  lemma TriggerRanks(s: State, t: Tid, restart: bool, inline: bool)
    requires Inv(s) && s.winner.Some? && s.At(t).Idle? && (t.Main? || t.Other?)
    ensures Rank(TryBegin(s, t, restart, inline)) <= Rank(s)
  {
    Facts(s, t);
    hide Inv, ThreadInv, Rank;
    OneMovesOn(s, TryBegin(s, t, restart, inline), t);
  }

  lemma ExitEventRanks(s: State)
    requires Inv(s) && s.winner.Some? && Enabled(s, ExitEvent)
    ensures Rank(Apply(s, ExitEvent)) <= Rank(s)
  {
    Facts(s, Main);
    hide Inv, ThreadInv, Rank;
    OneMovesOn(s, Apply(s, ExitEvent), Main);
  }

  lemma TickRanks(s: State, a: Action)
    requires s.winner.Some? && a.Tick?
    ensures Rank(Apply(s, a)) == Rank(s)
  {
  }

  predicate OnlyMoves(s: State, s': State, t: Tid) {
    s'.winner == s.winner && StepsLeft(s'.At(t)) < StepsLeft(s.At(t)) && s'.pcs == s.pcs[t := s'.At(t)]
  }

  lemma ReturnMoves(s: State, t: Tid)
    ensures StepsLeft(s.Return(t).At(t)) <= 7 && s.Return(t).pcs == s.pcs[t := s.Return(t).At(t)]
  {
  }

  lemma HelperMoves(s: State, a: Action)
    requires Enabled(s, a) && (a.CleanupEnds? || a.CleanupMarks? || a.CleanupChecks?)
    ensures OnlyMoves(s, Apply(s, a), CleanupThread)
  {
  }

  lemma SleeperMoves(s: State, a: Action)
    requires Enabled(s, a) && (a.WatchdogWakes? || a.HoldWakes?)
    ensures OnlyMoves(s, Apply(s, a), if a.HoldWakes? then Main else WatchdogThread)
  {
  }

  lemma LaunchMoves(s: State, a: Action)
    requires Enabled(s, a) && (a.Store? || a.MarkAfterSpawnFailure? || a.InlineCleaned?)
    ensures OnlyMoves(s, Apply(s, a), a.t)
  {
    hide State.Return;
  }

  lemma InlineMarkMoves(s: State, a: Action)
    requires Enabled(s, a) && a.InlineMark?
    ensures OnlyMoves(s, Apply(s, a), a.t)
  {
    ReturnMoves(s.(cells := MarkDone(s.cells)), a.t);
    hide State.Return;
  }

  lemma EndMoves(s: State, s1: State, t: Tid)
    requires s.At(t).Claiming? || s.At(t).Exiting?
    requires s1.pcs == s.pcs && s1.winner == s.winner
    ensures OnlyMoves(s, EndFinish(s1, t), t)
  {
    ReturnMoves(s1, t);
    hide State.Return;
  }

  lemma ClaimMoves(s: State, t: Tid)
    requires s.At(t).Claiming?
    ensures OnlyMoves(s, Claimed(s, t), t)
  {
    if s.cells.exitClaimed {
      LateClaimIs(s, t);
      hide Claimed, EndFinish;
      EndMoves(s, s.(cells := SwapExitClaimed(s.cells).0), t);
    }
  }

  lemma LateClaimIs(s: State, t: Tid)
    requires s.At(t).Claiming? && s.cells.exitClaimed
    ensures Claimed(s, t) == EndFinish(s.(cells := SwapExitClaimed(s.cells).0), t)
  {
    hide EndFinish;
  }

  lemma LoadMoves(s: State, a: Action)
    requires Enabled(s, a) && a.Load?
    ensures OnlyMoves(s, Apply(s, a), a.t)
  {
    hide State.Return;
  }

  lemma RunExitMoves(s: State, t: Tid)
    requires s.At(t).Exiting?
    ensures OnlyMoves(s, Exited(s, t), t)
  {
    EndMoves(s, s.(exits := Exited(s, t).exits), t);
    hide EndFinish;
  }

  /** Any other thread than the winner is one of the three that help it. */
  lemma MoverIsCounted(s: State, a: Action)
    requires Inv(s) && s.winner.Some? && Enabled(s, a)
    requires a.Store? || a.SpawnCleanup? || a.SpawnWatchdog? || a.MarkAfterSpawnFailure? || a.InlineCleaned?
          || a.InlineMark? || a.Claim? || a.Load? || a.RunExit?
    ensures a.t == s.winner.value.tid || !a.t.Other?
  {
    Facts(s, a.t);
    hide Inv, WinnerInv;
  }

  lemma WinnerMayTrigger(s: State)
    requires Inv(s) && s.winner.Some?
    ensures s.winner.value.tid.Main? || s.winner.value.tid.Other?
    ensures s.cells.fired
  {
  }

  lemma MoverMoves(s: State, a: Action)
    requires Enabled(s, a)
    requires a.Store? || a.MarkAfterSpawnFailure? || a.InlineCleaned? || a.InlineMark? || a.Claim? || a.Load?
          || a.RunExit?
    ensures OnlyMoves(s, Apply(s, a), a.t)
  {
    hide OnlyMoves, Stored, Claimed, Exited;
    match a
    case InlineMark(_) => InlineMarkMoves(s, a);
    case Claim(t) => ClaimMoves(s, t);
    case Load(_) => LoadMoves(s, a);
    case RunExit(t) => RunExitMoves(s, t);
    case _ => LaunchMoves(s, a);
  }

  lemma OnlyMovesRanks(s: State, s': State, t: Tid)
    requires Inv(s) && s.winner.Some? && OnlyMoves(s, s', t) && (t == s.winner.value.tid || !t.Other?)
    ensures Rank(s') < Rank(s)
  {
    WinnerMayTrigger(s);
    hide Inv, Rank, StepsLeft;
    OneMovesOn(s, s', t);
  }

  /** Spawning moves the thread spawned, then the spawner. */
  lemma SpawnCleanupRanks(s: State, a: Action)
    requires Inv(s) && Lives(s) && s.winner.Some? && Enabled(s, a) && a.SpawnCleanup?
    ensures Rank(Apply(s, a)) < Rank(s)
  {
    Facts(s, a.t);
    hide Inv, WinnerInv, MainLives, CleanupLives, ClaimLives, Rank;
    if a.ok {
      OneMovesOn(s, s.Move(CleanupThread, Cleaning), CleanupThread);
      OneMovesOn(s.Move(CleanupThread, Cleaning), Apply(s, a), a.t);
    } else {
      OneMovesOn(s, Apply(s, a), a.t);
    }
  }

  lemma SpawnWatchdogRanks(s: State, a: Action)
    requires Inv(s) && s.winner.Some? && Enabled(s, a) && a.SpawnWatchdog?
    ensures Rank(Apply(s, a)) < Rank(s)
  {
    WinnerMayTrigger(s);
    MoverIsCounted(s, a);
    WatchdogIsNew(s, a.t);
    if a.ok {
      ArmedRanks(s, a.t);
    } else {
      ReturnMoves(s, a.t);
      hide Inv, Rank, State.Return;
      OneMovesOn(s, Apply(s, a), a.t);
    }
  }

  lemma ArmedRanks(s: State, t: Tid)
    requires s.winner.Some? && (s.winner.value.tid.Main? || s.winner.value.tid.Other?)
    requires s.At(WatchdogThread).Idle? && s.At(t).Arming? && (t == s.winner.value.tid || !t.Other?)
    ensures Rank(WatchdogSpawned(s, t, true)) < Rank(s)
  {
    hide Rank;
    var asleep := s.(armed := true).Move(WatchdogThread, Sleeping(s.now + WATCHDOG));
    OneMovesOn(s, asleep, WatchdogThread);
    ReturnRanks(asleep, t);
  }

  lemma ReturnRanks(s: State, t: Tid)
    requires s.winner.Some? && (s.winner.value.tid.Main? || s.winner.value.tid.Other?)
    requires s.At(t).Arming? && (t == s.winner.value.tid || !t.Other?)
    ensures Rank(s.Return(t)) < Rank(s)
  {
    ReturnMoves(s, t);
    hide Rank, State.Return;
    OneMovesOn(s, s.Return(t), t);
  }

  lemma WatchdogIsNew(s: State, t: Tid)
    requires Inv(s) && s.At(t).Arming?
    ensures s.At(WatchdogThread).Idle? && t != WatchdogThread
  {
    Facts(s, t);
    Facts(s, WatchdogThread);
    hide Inv, WinnerInv;
  }

  /** Every step of a thread inside the shutdown uses one up; nothing else gives any back. */
  lemma StepRanks(s: State, a: Action)
    requires Inv(s) && Lives(s) && s.winner.Some? && Enabled(s, a)
    ensures Apply(s, a).winner == s.winner
    ensures Rank(Apply(s, a)) <= Rank(s) - if IsOwnStep(a) then 1 else 0
  {
    WinnerMayTrigger(s);
    hide Inv, Lives, Rank, TryBegin, Claimed, Exited, Stored, CleanupSpawned, WatchdogSpawned, OnlyMoves;
    match a
    case Begin(t, restart) => TriggerRanks(s, t, restart, false);
    case BeginInline(t) => TriggerRanks(s, t, false, true);
    case ExitEvent => ExitEventRanks(s);
    case Tick(_) => TickRanks(s, a);
    case CleanupEnds | CleanupMarks | CleanupChecks =>
      HelperMoves(s, a);
      OnlyMovesRanks(s, Apply(s, a), CleanupThread);
    case WatchdogWakes | HoldWakes =>
      SleeperMoves(s, a);
      OnlyMovesRanks(s, Apply(s, a), if a.HoldWakes? then Main else WatchdogThread);
    case SpawnCleanup(_, _) => SpawnCleanupRanks(s, a);
    case SpawnWatchdog(_, _) => SpawnWatchdogRanks(s, a);
    case _ =>
      MoverMoves(s, a);
      MoverIsCounted(s, a);
      OnlyMovesRanks(s, Apply(s, a), a.t);
  }

  /** How many of `actions` are steps of threads inside the shutdown. */
  function OwnSteps(actions: seq<Action>): nat {
    if actions == [] then 0
    else OwnSteps(actions[..|actions| - 1]) + if IsOwnStep(actions[|actions| - 1]) then 1 else 0
  }

  lemma {:induction false} StepsAreUsedUp(states: seq<State>, actions: seq<Action>, i: nat, j: nat)
    requires IsRun(states, actions) && i <= j < |states| && states[i].winner.Some?
    ensures states[j].winner == states[i].winner
    ensures Rank(states[j]) + OwnSteps(actions[i..j]) <= Rank(states[i])
  {
    hide Rank, Apply, Enabled, IsOwnStep, Inv, Lives;
    if i < j {
      StepsAreUsedUp(states, actions, i, j - 1);
      RunKeepsLives(states, actions, j - 1);
      StepRanks(states[j - 1], actions[j - 1]);
      assert actions[i..j][..j - 1 - i] == actions[i..j - 1];
    }
  }

  /** A shutdown takes at most 34 steps, triggers that lose and the passing of time aside. */
  lemma AShutdownIsShort(states: seq<State>, actions: seq<Action>, i: nat, j: nat)
    requires IsRun(states, actions) && i <= j < |states| && states[i].winner.Some?
    ensures OwnSteps(actions[i..j]) <= 34
  {
    StepsAreUsedUp(states, actions, i, j);
    RunKeepsInv(states, actions, i);
    RankIsSmall(states[i]);
    hide Inv, OwnSteps, IsRun, Rank;
  }

  lemma RankIsSmall(s: State)
    requires Inv(s) && s.winner.Some?
    ensures Rank(s) <= 34
  {
    Facts(s, CleanupThread);
    Facts(s, WatchdogThread);
    Facts(s, Main);
    hide Inv;
  }

  // -------------------------------------------------------------------------
  // What the record says is what happened
  // -------------------------------------------------------------------------

  /** The shutdown a trigger starts if none has begun. */
  function StartedBy(a: Action, now: nat): Option<Winner> {
    match a
    case Begin(t, restart) => Some(Winner(t, restart, now, false))
    case ExitEvent => Some(Winner(Main, false, now, false))
    case BeginInline(t) => Some(Winner(t, false, now, true))
    case _ => None
  }

  lemma StepIsRecorded(s: State, a: Action)
    requires Inv(s) && Enabled(s, a)
    ensures
      var s' := Apply(s, a);
      && s'.exitEvent == (s.exitEvent || a.ExitEvent?)
      && s'.armed == (s.armed || (a.SpawnWatchdog? && a.ok))
      && s'.spawnFailed == (s.spawnFailed || (a.SpawnCleanup? && !a.ok))
      && s'.winner == if s.winner.Some? then s.winner else StartedBy(a, s.now)
  {
    hide State.Move, State.Return, Claimed, Exited, Stored, CleanupSpawned, WatchdogSpawned, TryBegin;
    FiredIffBegun(s);
    hide Inv, WinnerInv;
    match a
    case Begin(t, restart) => TriggerIsRecorded(s, t, restart, false);
    case BeginInline(t) => TriggerIsRecorded(s, t, false, true);
    case ExitEvent => TriggerIsRecorded(s.(exitEvent := true), Main, false, false);
    case Store(t) => StoreIsRecorded(s, t);
    case SpawnCleanup(t, ok) => SpawnIsRecorded(s, t, ok);
    case SpawnWatchdog(t, ok) => SpawnIsRecorded(s, t, ok);
    case Claim(t) => ClaimIsRecorded(s, t);
    case RunExit(t) => ExitIsRecorded(s, t);
    case _ =>
  }

  /** Nothing that goes on record changes. */
  predicate SameRecord(s: State, s': State) {
    && s'.winner == s.winner && s'.exitEvent == s.exitEvent && s'.armed == s.armed
    && s'.spawnFailed == s.spawnFailed
  }

  lemma TriggerIsRecorded(s: State, t: Tid, restart: bool, inline: bool)
    ensures
      var s' := TryBegin(s, t, restart, inline);
      && s'.exitEvent == s.exitEvent && s'.armed == s.armed && s'.spawnFailed == s.spawnFailed
      && s'.winner == if s.cells.fired then s.winner else Some(Winner(t, restart, s.now, inline))
  {
    hide State.Move, State.Return;
  }

  lemma StoreIsRecorded(s: State, t: Tid)
    requires s.At(t).Storing?
    ensures SameRecord(s, Stored(s, t))
  {
    hide State.Move;
  }

  lemma SpawnIsRecorded(s: State, t: Tid, ok: bool)
    ensures
      var cleaning, watched := CleanupSpawned(s, t, ok), WatchdogSpawned(s, t, ok);
      && cleaning.winner == watched.winner == s.winner && cleaning.exitEvent == watched.exitEvent == s.exitEvent
      && cleaning.armed == s.armed && watched.armed == (s.armed || ok)
      && cleaning.spawnFailed == (s.spawnFailed || !ok) && watched.spawnFailed == s.spawnFailed
  {
    hide State.Move, State.Return;
  }

  lemma ClaimIsRecorded(s: State, t: Tid)
    requires s.At(t).Claiming?
    ensures SameRecord(s, Claimed(s, t))
  {
    hide State.Move, State.Return, EndFinish;
  }

  lemma ExitIsRecorded(s: State, t: Tid)
    requires s.At(t).Exiting?
    ensures SameRecord(s, Exited(s, t))
  {
    hide State.Move, State.Return, EndFinish;
  }

  datatype Fact = ExitEventSeen | WatchdogArmed | CleanupNotSpawned

  predicate OnRecord(s: State, fact: Fact) {
    match fact
    case ExitEventSeen => s.exitEvent
    case WatchdogArmed => s.armed
    case CleanupNotSpawned => s.spawnFailed
  }

  predicate Records(a: Action, fact: Fact) {
    match fact
    case ExitEventSeen => a.ExitEvent?
    case WatchdogArmed => a.SpawnWatchdog? && a.ok
    case CleanupNotSpawned => a.SpawnCleanup? && !a.ok
  }

  /** The facts the end of a shutdown turns on are those of its steps: an exit event, a watchdog and a
      failed spawn are on record exactly if one happened. */
  lemma {:induction false} TheRecordIsTheRun(states: seq<State>, actions: seq<Action>, k: nat, fact: Fact)
    requires IsRun(states, actions) && k < |states|
    ensures OnRecord(states[k], fact) <==> exists i :: 0 <= i < k && Records(actions[i], fact)
  {
    hide Inv, Apply, Enabled;
    if k > 0 {
      TheRecordIsTheRun(states, actions, k - 1, fact);
      RunKeepsInv(states, actions, k - 1);
      StepIsRecorded(states[k - 1], actions[k - 1]);
      assert OnRecord(states[k], fact) == (OnRecord(states[k - 1], fact) || Records(actions[k - 1], fact));
      hide OnRecord, Records;
    }
  }

  /** And the winner is whoever pulled the first trigger, as of then. */
  lemma {:induction false} TheWinnerIsTheFirstTrigger(states: seq<State>, actions: seq<Action>, k: nat)
    requires IsRun(states, actions) && k < |states|
    ensures states[k].winner.None? ==> NoTriggerBefore(states, actions, k)
    ensures states[k].winner.Some? ==>
      exists i :: 0 <= i < k && NoTriggerBefore(states, actions, i)
                  && StartedBy(actions[i], states[i].now) == states[k].winner
  {
    hide Inv, Apply, Enabled, StartedBy;
    if k > 0 {
      TheWinnerIsTheFirstTrigger(states, actions, k - 1);
      RunKeepsInv(states, actions, k - 1);
      StepIsRecorded(states[k - 1], actions[k - 1]);
    }
  }

  ghost predicate NoTriggerBefore(states: seq<State>, actions: seq<Action>, k: nat)
    requires k <= |actions| < |states|
  {
    forall j :: 0 <= j < k ==> StartedBy(actions[j], states[j].now).None?
  }

  /** Whoever sleeps or is held in `s'` was so in `s`, or has just begun. */
  predicate WaitsSince(s: State, s': State) {
    && (s'.At(WatchdogThread).Sleeping? ==>
          s.At(WatchdogThread) == s'.At(WatchdogThread) || s'.At(WatchdogThread).until == s.now + WATCHDOG)
    && (s'.At(Main).Holding? ==> s.At(Main) == s'.At(Main) || s'.At(Main).since == s.now)
  }

  lemma MoveWaits(s: State, s1: State, t: Tid, pc: Pc)
    requires s1.pcs == s.pcs && s1.now == s.now
    requires !pc.Holding? && (pc.Sleeping? ==> pc.until == s.now + WATCHDOG)
    ensures WaitsSince(s, s1.Move(t, pc))
  {
  }

  lemma ReturnWaits(s: State, s1: State, t: Tid)
    requires s1.pcs == s.pcs && s1.now == s.now
    ensures WaitsSince(s, s1.Return(t))
  {
  }

  lemma TriggerWaits(s: State, t: Tid, restart: bool, inline: bool)
    ensures WaitsSince(s, TryBegin(s, t, restart, inline))
  {
    ReturnWaits(s, s.(cells := SwapFired(s.cells).0), t);
    hide WaitsSince, State.Return;
    var won := s.(cells := SwapFired(s.cells).0, winner := Some(Winner(t, restart, s.now, inline)));
    MoveWaits(s, won, t, Storing(restart, inline));
  }

  lemma WaitsInTurn(s: State, mid: State, s': State)
    requires mid.now == s.now && WaitsSince(s, mid) && WaitsSince(mid, s')
    ensures WaitsSince(s, s')
  {
  }

  lemma CleanupSpawnWaits(s: State, t: Tid, ok: bool)
    ensures WaitsSince(s, CleanupSpawned(s, t, ok))
  {
    hide WaitsSince;
    if ok {
      var running := s.(cleanupStarts := s.cleanupStarts + 1).Move(CleanupThread, Cleaning);
      MoveWaits(s, s.(cleanupStarts := s.cleanupStarts + 1), CleanupThread, Cleaning);
      MoveWaits(running, running, t, Arming);
      WaitsInTurn(s, running, running.Move(t, Arming));
    } else {
      MoveWaits(s, s.(spawnFailed := true), t, SpawnFailed);
    }
  }

  lemma WatchdogSpawnWaits(s: State, t: Tid, ok: bool)
    ensures WaitsSince(s, WatchdogSpawned(s, t, ok))
  {
    hide WaitsSince, State.Return;
    if ok {
      var asleep := s.(armed := true).Move(WatchdogThread, Sleeping(s.now + WATCHDOG));
      MoveWaits(s, s.(armed := true), WatchdogThread, Sleeping(s.now + WATCHDOG));
      ReturnWaits(asleep, asleep, t);
      WaitsInTurn(s, asleep, asleep.Return(t));
    } else {
      ReturnWaits(s, s, t);
    }
  }

  lemma StoreWaits(s: State, t: Tid)
    requires s.At(t).Storing?
    ensures WaitsSince(s, Stored(s, t))
  {
    hide WaitsSince;
    var stored := s.(cells := StoreRestart(s.cells, s.At(t).restart));
    MoveWaits(s, stored.(cleanupStarts := s.cleanupStarts + 1), t, InlineCleaning);
    MoveWaits(s, stored, t, Spawning);
  }

  lemma EndWaits(s: State, s1: State, t: Tid)
    requires s1.pcs == s.pcs && s1.now == s.now && (s.At(t).Claiming? || s.At(t).Exiting?)
    ensures WaitsSince(s, EndFinish(s1, t))
  {
    ReturnWaits(s, s1, t);
    MoveWaits(s, s1, t, Over);
    hide WaitsSince, State.Return;
  }

  lemma ClaimWaits(s: State, t: Tid)
    requires s.At(t).Claiming?
    ensures WaitsSince(s, Claimed(s, t))
  {
    hide WaitsSince, EndFinish;
    if s.cells.exitClaimed {
      LateClaimIs(s, t);
      EndWaits(s, s.(cells := SwapExitClaimed(s.cells).0), t);
    } else {
      MoveWaits(s, s.(cells := SwapExitClaimed(s.cells).0, claimant := Some(t)), t, Loading(s.At(t).path));
    }
  }

  lemma ExitWaits(s: State, t: Tid)
    requires s.At(t).Exiting?
    ensures WaitsSince(s, Exited(s, t))
  {
    EndWaits(s, s.(exits := Exited(s, t).exits), t);
    hide WaitsSince, EndFinish;
  }

  lemma StepWaits(s: State, a: Action)
    requires Enabled(s, a)
    ensures WaitsSince(s, Apply(s, a))
  {
    hide TryBegin, Stored, CleanupSpawned, WatchdogSpawned, Claimed, Exited;
    match a
    case Begin(t, restart) => TriggerWaits(s, t, restart, false);
    case BeginInline(t) => TriggerWaits(s, t, false, true);
    case ExitEvent => TriggerWaits(s.(exitEvent := true), Main, false, false);
    case Store(t) => StoreWaits(s, t);
    case SpawnCleanup(t, ok) => CleanupSpawnWaits(s, t, ok);
    case SpawnWatchdog(t, ok) => WatchdogSpawnWaits(s, t, ok);
    case InlineMark(t) => ReturnWaits(s, s.(cells := MarkDone(s.cells)), t);
    case Claim(t) => ClaimWaits(s, t);
    case RunExit(t) => ExitWaits(s, t);
    case _ =>
  }

  /** The step after state `i` put the watchdog to sleep for its whole time. */
  predicate SleepsFrom(states: seq<State>, i: nat, until: nat)
    requires i + 1 < |states|
  {
    && states[i + 1].At(WatchdogThread) == Sleeping(until) != states[i].At(WatchdogThread)
    && until == states[i].now + WATCHDOG
  }

  /** The step after state `i` held the main thread, as of then. */
  predicate HeldFrom(states: seq<State>, i: nat, since: nat)
    requires i + 1 < |states|
  {
    && states[i + 1].At(Main) == Holding(since) != states[i].At(Main)
    && since == states[i].now
  }

  lemma {:induction false} SleepIsCounted(states: seq<State>, actions: seq<Action>, k: nat) returns (i: nat)
    requires IsRun(states, actions) && k < |states| && states[k].At(WatchdogThread).Sleeping?
    ensures i < k && SleepsFrom(states, i, states[k].At(WatchdogThread).until)
  {
    hide Apply, Enabled, SleepsFrom;
    NobodyWaitsYet(states, actions);
    StepWaits(states[k - 1], actions[k - 1]);
    if states[k - 1].At(WatchdogThread) == states[k].At(WatchdogThread) {
      i := SleepIsCounted(states, actions, k - 1);
    } else {
      i := k - 1;
      SleepsFromHere(states, i, states[k].At(WatchdogThread).until);
    }
  }

  lemma SleepsFromHere(states: seq<State>, i: nat, until: nat)
    requires i + 1 < |states| && states[i + 1].At(WatchdogThread) == Sleeping(until) != states[i].At(WatchdogThread)
    requires WaitsSince(states[i], states[i + 1])
    ensures SleepsFrom(states, i, until)
  {
  }

  lemma {:induction false} HoldIsCounted(states: seq<State>, actions: seq<Action>, k: nat) returns (i: nat)
    requires IsRun(states, actions) && k < |states| && states[k].At(Main).Holding?
    ensures i < k && HeldFrom(states, i, states[k].At(Main).since)
  {
    hide Apply, Enabled, HeldFrom;
    NobodyWaitsYet(states, actions);
    StepWaits(states[k - 1], actions[k - 1]);
    if states[k - 1].At(Main) == states[k].At(Main) {
      i := HoldIsCounted(states, actions, k - 1);
    } else {
      i := k - 1;
      HeldFromHere(states, i, states[k].At(Main).since);
    }
  }

  lemma HeldFromHere(states: seq<State>, i: nat, since: nat)
    requires i + 1 < |states| && states[i + 1].At(Main) == Holding(since) != states[i].At(Main)
    requires WaitsSince(states[i], states[i + 1])
    ensures HeldFrom(states, i, since)
  {
  }

  lemma NobodyWaitsYet(states: seq<State>, actions: seq<Action>)
    requires IsRun(states, actions)
    ensures states[0].At(WatchdogThread).Idle? && states[0].At(Main).Idle?
  {
  }

  /** Watchdog and hold wait their time from the very step that began the wait. */
  lemma WaitsAreCounted(states: seq<State>, actions: seq<Action>, k: nat)
    requires IsRun(states, actions) && k < |states|
    ensures states[k].At(WatchdogThread).Sleeping? ==>
      exists i :: 0 <= i < k && SleepsFrom(states, i, states[k].At(WatchdogThread).until)
    ensures states[k].At(Main).Holding? ==> exists i :: 0 <= i < k && HeldFrom(states, i, states[k].At(Main).since)
  {
    hide IsRun, SleepsFrom, HeldFrom;
    if states[k].At(WatchdogThread).Sleeping? {
      var i := SleepIsCounted(states, actions, k);
    }
    if states[k].At(Main).Holding? {
      var i := HoldIsCounted(states, actions, k);
    }
  }
}
