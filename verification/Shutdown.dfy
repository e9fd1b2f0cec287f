/** `ShutdownCoordinator`: the four cells every trigger races over, one atomic operation each. */
module ShutdownCells {
  import opened Wrappers

  datatype Cells = Cells(fired: bool, restart: bool, exitClaimed: bool, cleanupDone: bool)

  const FRESH := Cells(false, false, false, false)

  // One function per atomic operation on the cells; the class below and the interleaving machine
  // both go through these.

  function SwapFired(c: Cells): (Cells, bool) {
    (c.(fired := true), c.fired)
  }

  function StoreRestart(c: Cells, restart: bool): Cells {
    c.(restart := restart)
  }

  function SwapExitClaimed(c: Cells): (Cells, bool) {
    (c.(exitClaimed := true), c.exitClaimed)
  }

  function MarkDone(c: Cells): Cells {
    c.(cleanupDone := true)
  }

  class ShutdownCoordinator {
    var fired: bool
    var restart: bool
    var exitClaimed: bool
    var cleanupDone: bool

    ghost function View(): Cells
      reads this
    {
      Cells(fired, restart, exitClaimed, cleanupDone)
    }

    constructor ()
      ensures View() == FRESH
    {
      fired, restart, exitClaimed, cleanupDone := false, false, false, false;
    }

    method TryBegin(restart: bool) returns (won: bool)
      modifies this
      ensures won == !old(fired)
      ensures View() == if won then StoreRestart(SwapFired(old(View())).0, restart) else old(View())
    {
      var already := fired;
      fired := true;
      if already {
        return false;
      }
      this.restart := restart;
      return true;
    }

    method MarkCleanupDone()
      modifies this
      ensures View() == MarkDone(old(View()))
    {
      cleanupDone := true;
    }

    /** `finish`: `Some(restart)` when this caller gets to run the exit action, with its argument. */
    method Finish() returns (exit: Option<bool>)
      modifies this
      ensures View() == SwapExitClaimed(old(View())).0
      ensures exit == if old(exitClaimed) then None else Some(old(restart))
    {
      var already := exitClaimed;
      exitClaimed := true;
      exit := if already then None else Some(restart);
    }
  }
}

/** Every interleaving of the triggers, the cleanup thread, the watchdog, the holding main thread
    and the inline installer path. */
module ShutdownProtocol {
  import Cleanup
  import opened ShutdownCells
  import opened Wrappers

  const WATCHDOG: nat := Cleanup.WATCHDOG

  /** `Main` runs the event loop; any other thread may deliver a trigger. */
  datatype Tid = Main | Other(id: nat) | CleanupThread | WatchdogThread

  /** Which of the four callers of `finish` ends the process. */
  datatype ExitPath = ByCleanup | ByWatchdog | ByHold(sawDone: bool) | BySpawnFailure

  /** Where a thread stands between two atomic operations. */
  datatype Pc =
    | Idle                                     // not inside the shutdown code
    | Storing(restart: bool, inline: bool)     // won `fired`, restart not stored yet
    | Spawning | Arming | SpawnFailed
    | InlineCleaning | InlineMarking           // cleanup_before_installer
    | Holding(since: nat)
    | Cleaning | Marking | Checking            // the cleanup thread
    | Sleeping(until: nat)                     // the watchdog
    | Claiming(path: ExitPath)
    | Loading(path: ExitPath)
    | Exiting(path: ExitPath, restart: bool)
    | Over                                     // ended or parked

  datatype Winner = Winner(tid: Tid, restart: bool, at: nat, inline: bool)

  datatype Exit = Exit(path: ExitPath, restart: bool, cleanupDone: bool, cleanupRan: bool, at: nat)

  /** `exitEvent`: the main thread is inside `RunEvent::Exit` and holds once its begin returns. The
      fields from `winner` on are history: no step reads them. */
  datatype State = State(
    cells: Cells,
    pcs: map<Tid, Pc>,
    exitEvent: bool,
    now: nat,
    winner: Option<Winner>,
    claimant: Option<Tid>,
    cleanupStarts: nat,
    cleanupRan: bool,
    spawnFailed: bool,
    armed: bool,
    exits: seq<Exit>)
  {
    function At(t: Tid): Pc {
      if t in pcs then pcs[t] else Idle
    }

    function Move(t: Tid, pc: Pc): (s: State)
      ensures s.winner == winner && s.exits == exits
      ensures s.exitEvent == exitEvent && s.armed == armed && s.spawnFailed == spawnFailed
    {
      this.(pcs := pcs[t := pc])
    }

    /** `begin` or `finish` has returned to its caller. */
    function Return(t: Tid): (s: State)
      ensures s.winner == winner && s.exits == exits
      ensures s.exitEvent == exitEvent && s.armed == armed && s.spawnFailed == spawnFailed
    {
      if t == Main && exitEvent then Move(t, Holding(now))
      else if t.Main? || t.Other? then Move(t, Idle)
      else Move(t, Over)
    }
  }

  const INIT := State(FRESH, map[], false, 0, None, None, 0, false, false, false, [])

  datatype Action =
    | Begin(t: Tid, restart: bool)     // a trigger: the swap inside try_begin
    | ExitEvent                        // RunEvent::Exit: the swap of its begin
    | BeginInline(t: Tid)              // cleanup_before_installer: the swap
    | Store(t: Tid)
    | SpawnCleanup(t: Tid, ok: bool)
    | SpawnWatchdog(t: Tid, ok: bool)
    | MarkAfterSpawnFailure(t: Tid)
    | InlineCleaned(t: Tid)
    | InlineMark(t: Tid)
    | CleanupEnds
    | CleanupMarks
    | CleanupChecks
    | WatchdogWakes
    | HoldWakes                        // the condvar, or its timeout
    | Claim(t: Tid)
    | Load(t: Tid)
    | RunExit(t: Tid)
    | Tick(ms: nat)

  predicate Enabled(s: State, a: Action) {
    match a
    // Only the event loop ever begins with restart = true.
    case Begin(t, restart) => (t.Main? || (t.Other? && !restart)) && s.At(t).Idle?
    case ExitEvent => s.At(Main).Idle? && !s.exitEvent
    case BeginInline(t) => t.Other? && s.At(t).Idle?
    case Store(t) => s.At(t).Storing?
    case SpawnCleanup(t, _) => s.At(t).Spawning?
    case SpawnWatchdog(t, _) => s.At(t).Arming?
    case MarkAfterSpawnFailure(t) => s.At(t).SpawnFailed?
    case InlineCleaned(t) => s.At(t).InlineCleaning?
    case InlineMark(t) => s.At(t).InlineMarking?
    case CleanupEnds => s.At(CleanupThread).Cleaning?
    case CleanupMarks => s.At(CleanupThread).Marking?
    case CleanupChecks => s.At(CleanupThread).Checking?
    case WatchdogWakes => s.At(WatchdogThread).Sleeping? && s.At(WatchdogThread).until <= s.now
    case HoldWakes =>
      s.At(Main).Holding? && (s.cells.cleanupDone || s.At(Main).since + WATCHDOG <= s.now)
    case Claim(t) => s.At(t).Claiming?
    case Load(t) => s.At(t).Loading?
    case RunExit(t) => s.At(t).Exiting?
    case Tick(_) => true
  }

  // One function per step, named after what the code does between two points where another
  // thread can run.

  /** The swap inside `try_begin`: the winner goes on to its store, a loser's begin returns. */
  function TryBegin(s: State, t: Tid, restart: bool, inline: bool): (s': State)
    ensures s.cells.fired ==> s'.winner == s.winner
    ensures s'.exits == s.exits
  {
    var (cells, already) := SwapFired(s.cells);
    if already then s.(cells := cells).Return(t)
    else s.(cells := cells, winner := Some(Winner(t, restart, s.now, inline))).Move(t, Storing(restart, inline))
  }

  function Stored(s: State, t: Tid): (s': State)
    requires s.At(t).Storing?
    ensures s'.winner == s.winner && s'.exits == s.exits
  {
    var stored := s.(cells := StoreRestart(s.cells, s.At(t).restart));
    if s.At(t).inline then stored.(cleanupStarts := s.cleanupStarts + 1).Move(t, InlineCleaning)
    else stored.Move(t, Spawning)
  }

  function CleanupSpawned(s: State, t: Tid, ok: bool): (s': State)
    ensures s'.winner == s.winner && s'.exits == s.exits
  {
    if ok then s.(cleanupStarts := s.cleanupStarts + 1).Move(CleanupThread, Cleaning).Move(t, Arming)
    else s.(spawnFailed := true).Move(t, SpawnFailed)
  }

  function WatchdogSpawned(s: State, t: Tid, ok: bool): (s': State)
    ensures s'.winner == s.winner && s'.exits == s.exits
  {
    if ok then s.(armed := true).Move(WatchdogThread, Sleeping(s.now + WATCHDOG)).Return(t)
    else s.Return(t)
  }

  function Claimed(s: State, t: Tid): (s': State)
    requires s.At(t).Claiming?
    ensures s'.winner == s.winner && s'.exits == s.exits
  {
    var (cells, already) := SwapExitClaimed(s.cells);
    if already then EndFinish(s.(cells := cells), t)
    else s.(cells := cells, claimant := Some(t)).Move(t, Loading(s.At(t).path))
  }

  function Exited(s: State, t: Tid): (s': State)
    requires s.At(t).Exiting?
    ensures s'.winner == s.winner
  {
    var exit := Exit(s.At(t).path, s.At(t).restart, s.cells.cleanupDone, s.cleanupRan, s.now);
    EndFinish(s.(exits := s.exits + [exit]), t)
  }

  /** After `finish`: a held main thread parks, a trigger's begin returns, a helper thread ends. */
  function EndFinish(s: State, t: Tid): (s': State)
    requires s.At(t).Claiming? || s.At(t).Exiting?
    ensures s'.winner == s.winner && s'.exits == s.exits
    ensures s'.exitEvent == s.exitEvent && s'.armed == s.armed && s'.spawnFailed == s.spawnFailed
  {
    if s.At(t).path == BySpawnFailure then s.Return(t) else s.Move(t, Over)
  }

  function Apply(s: State, a: Action): (s': State)
    requires Enabled(s, a)
    ensures s.cells.fired ==> s'.winner == s.winner
    ensures !a.RunExit? ==> s'.exits == s.exits
  {
    match a
    case Begin(t, restart) => TryBegin(s, t, restart, false)
    case ExitEvent => TryBegin(s.(exitEvent := true), Main, false, false)
    case BeginInline(t) => TryBegin(s, t, false, true)
    case Store(t) => Stored(s, t)
    case SpawnCleanup(t, ok) => CleanupSpawned(s, t, ok)
    case SpawnWatchdog(t, ok) => WatchdogSpawned(s, t, ok)
    case MarkAfterSpawnFailure(t) => s.(cells := MarkDone(s.cells)).Move(t, Claiming(BySpawnFailure))
    case InlineCleaned(t) => s.(cleanupRan := true).Move(t, InlineMarking)
    case InlineMark(t) => s.(cells := MarkDone(s.cells)).Return(t)
    case CleanupEnds => s.(cleanupRan := true).Move(CleanupThread, Marking)
    case CleanupMarks => s.(cells := MarkDone(s.cells)).Move(CleanupThread, Checking)
    case CleanupChecks => s.Move(CleanupThread, if s.cells.restart then Over else Claiming(ByCleanup))
    case WatchdogWakes => s.Move(WatchdogThread, Claiming(ByWatchdog))
    case HoldWakes => s.Move(Main, Claiming(ByHold(s.cells.cleanupDone)))
    case Claim(t) => Claimed(s, t)
    case Load(t) => s.Move(t, Exiting(s.At(t).path, s.cells.restart))
    case RunExit(t) => Exited(s, t)
    case Tick(ms) => s.(now := s.now + ms)
  }

  // -------------------------------------------------------------------------
  // The invariant
  // -------------------------------------------------------------------------

  /** The winner is past its store and its spawn. */
  predicate Launched(s: State) {
    && s.winner.Some?
    && !s.At(s.winner.value.tid).Storing?
    && !s.At(s.winner.value.tid).Spawning?
  }

  predicate LateEnough(s: State) {
    s.winner.Some? && s.winner.value.at + WATCHDOG <= s.now
  }

  /** What is true of a thread about to end the process down `path`. */
  predicate PathInv(s: State, t: Tid, path: ExitPath) {
    match path
    case ByCleanup => t.CleanupThread? && Launched(s) && !s.winner.value.restart && s.cells.cleanupDone && s.cleanupRan
    case ByWatchdog => t.WatchdogThread? && s.armed && LateEnough(s)
    case ByHold(saw) => t.Main? && s.winner.Some? && (if saw then s.cells.cleanupDone else LateEnough(s))
    case BySpawnFailure => s.winner.Some? && t == s.winner.value.tid && s.spawnFailed && s.cells.cleanupDone
  }

  predicate ThreadInv(s: State, t: Tid) {
    match s.At(t)
    case Idle => t.WatchdogThread? ==> !s.armed
    case Storing(restart, _) => IsWinner(s, t) && restart == s.winner.value.restart
    case Spawning => IsWinner(s, t)
    case Arming => IsWinner(s, t) && !s.armed
    case SpawnFailed => IsWinner(s, t) && s.spawnFailed
    case InlineCleaning => IsWinner(s, t)
    case InlineMarking => IsWinner(s, t) && s.cleanupRan
    case Holding(since) => t.Main? && s.winner.Some? && s.winner.value.at <= since <= s.now
    case Cleaning => t.CleanupThread? && Launched(s)
    case Marking => t.CleanupThread? && Launched(s) && s.cleanupRan
    case Checking => t.CleanupThread? && Launched(s) && s.cleanupRan && s.cells.cleanupDone
    case Sleeping(until) =>
      t.WatchdogThread? && s.armed && s.winner.Some? && s.winner.value.at + WATCHDOG <= until
    case Claiming(path) => PathInv(s, t, path)
    case Loading(path) => PathInv(s, t, path) && s.claimant == Some(t) && s.exits == []
    case Exiting(path, restart) =>
      PathInv(s, t, path) && s.claimant == Some(t) && s.exits == [] && restart == s.winner.value.restart
    case Over =>
      && (t.WatchdogThread? ==> s.armed)
      && (t.CleanupThread? ==> Launched(s))
      && (t.WatchdogThread? || t.Main? ==> s.cells.exitClaimed)
  }

  predicate IsWinner(s: State, t: Tid) {
    s.winner.Some? && s.winner.value.tid == t && (t.Main? || t.Other?)
  }

  predicate WinnerInv(s: State) {
    && s.cells.fired == s.winner.Some?
    && (s.winner.None? ==> !s.cells.restart && s.cleanupStarts == 0 && !s.armed)
    && (s.winner.Some? ==>
          var w := s.winner.value;
          && w.at <= s.now
          && IsWinner(s, w.tid)
          && (w.restart ==> w.tid.Main?)
          && s.cells.restart == (w.restart && !s.At(w.tid).Storing?)
          && (!Launched(s) ==> s.cleanupStarts == 0 && !s.armed))
    && s.cleanupStarts <= 1
    && (s.cells.cleanupDone ==> s.cleanupRan || s.spawnFailed)
  }

  predicate ExitInv(s: State) {
    && s.cells.exitClaimed == s.claimant.Some?
    && (s.claimant.None? ==> s.exits == [])
    && (s.claimant.Some? && s.exits == [] ==> s.At(s.claimant.value).Loading? || s.At(s.claimant.value).Exiting?)
    && |s.exits| <= 1
    && (s.exits != [] ==> GoodExit(s, s.exits[0]))
  }

  /** What the coordinator promises of the one exit. */
  predicate GoodExit(s: State, e: Exit) {
    && s.winner.Some?
    && e.restart == s.winner.value.restart
    && e.at <= s.now
    && (e.path == ByCleanup ==> !e.restart && e.cleanupRan)
    && (!e.cleanupDone ==> (e.path == ByWatchdog || e.path == ByHold(false)) && s.winner.value.at + WATCHDOG <= e.at)
    && (e.cleanupDone && !s.spawnFailed ==> e.cleanupRan)
  }

  ghost predicate Inv(s: State) {
    WinnerInv(s) && ExitInv(s) && forall t: Tid :: ThreadInv(s, t)
  }

  lemma InitInv()
    ensures Inv(INIT)
  {
  }

  // -------------------------------------------------------------------------
  // Every step keeps it
  // -------------------------------------------------------------------------

  /** What a step never takes back. */
  predicate Grows(s: State, s': State) {
    && (s.winner.Some? ==> s'.winner == s.winner)
    && (Launched(s) ==> Launched(s'))
    && (s.cells.exitClaimed ==> s'.cells.exitClaimed)
    && (s.cells.cleanupDone ==> s'.cells.cleanupDone)
    && (s.cleanupRan ==> s'.cleanupRan)
    && (s.spawnFailed ==> s'.spawnFailed)
    && (s.armed ==> s'.armed)
    && s.now <= s'.now
  }

  predicate OwnsExit(pc: Pc) {
    pc.Loading? || pc.Exiting?
  }

  lemma BystanderKept(s: State, s': State, t: Tid)
    requires ThreadInv(s, t) && Grows(s, s') && s'.At(t) == s.At(t)
    requires OwnsExit(s.At(t)) ==> s'.claimant == s.claimant && s'.exits == s.exits
    requires s.armed || !s'.armed || (!t.WatchdogThread? && !s.At(t).Arming?)
    ensures ThreadInv(s', t)
  {
  }

  /** A step that moves the threads `movers` only has those to answer for. */
  lemma OnlyMoversMatter(s: State, s': State, movers: set<Tid>)
    requires Inv(s) && Grows(s, s')
    requires forall t :: t !in movers ==> s'.At(t) == s.At(t)
    requires s'.claimant == s.claimant || s.claimant.None?
    requires s'.exits == s.exits || (s.claimant.Some? && s.claimant.value in movers)
    requires s.armed || !s'.armed || (WatchdogThread in movers && s.winner.Some? && s.winner.value.tid in movers)
    requires WinnerInv(s') && ExitInv(s')
    requires forall t :: t in movers ==> ThreadInv(s', t)
    ensures Inv(s')
  {
    forall t: Tid | t !in movers
      ensures ThreadInv(s', t)
    {
      assert ThreadInv(s, t);
      BystanderKept(s, s', t);
    }
  }

  lemma ThreadOf(s: State, t: Tid)
    requires Inv(s)
    ensures ThreadInv(s, t)
  {
  }

  /** A move that starts no shutdown leaves a path to the exit as it is. */
  lemma MoveKeepsPath(s: State, t: Tid, path: ExitPath, pc: Pc)
    requires PathInv(s, t, path) && !Starting(pc)
    ensures PathInv(s.Move(t, pc), t, path)
  {
  }

  /** A step that only moves one thread's program counter. */
  lemma MoveKeeps(s: State, t: Tid, pc: Pc)
    requires Inv(s) && ThreadInv(s.Move(t, pc), t)
    requires !Starting(s.At(t)) && !Starting(pc)
    requires OwnsExit(s.At(t)) ==> OwnsExit(pc)
    ensures Inv(s.Move(t, pc))
  {
    OnlyMoversMatter(s, s.Move(t, pc), {t});
  }

  /** A begin or finish that changed nothing returns: to the event loop, or to a hold. */
  lemma ReturnKeeps(s: State, t: Tid)
    requires Inv(s) && s.winner.Some? && (t.Main? || t.Other?)
    requires !Starting(s.At(t)) && !OwnsExit(s.At(t))
    ensures Inv(s.Return(t))
  {
    MoveKeeps(s, t, if t == Main && s.exitEvent then Holding(s.now) else Idle);
  }

  predicate Starting(pc: Pc) {
    pc.Storing? || pc.Spawning?
  }

  lemma TryBeginKeeps(s: State, t: Tid, restart: bool, inline: bool)
    requires Inv(s) && s.At(t).Idle? && (t.Main? || (t.Other? && !restart))
    ensures Inv(TryBegin(s, t, restart, inline))
  {
    hide Inv, ThreadInv, WinnerInv, ExitInv;
    if s.cells.fired {
      FiredHasAWinner(s);
      ReturnKeeps(s, t);
      assert SwapFired(s.cells).0 == s.cells;
    } else {
      FirstTriggerKeeps(s, t, restart, inline);
    }
  }

  lemma FiredHasAWinner(s: State)
    requires Inv(s)
    ensures s.cells.fired <==> s.winner.Some?
  {
  }

  lemma FirstTriggerKeeps(s: State, t: Tid, restart: bool, inline: bool)
    requires Inv(s) && s.At(t).Idle? && (t.Main? || (t.Other? && !restart)) && !s.cells.fired
    ensures Inv(TryBegin(s, t, restart, inline))
  {
    ThreadOf(s, t);
    OnlyMoversMatter(s, TryBegin(s, t, restart, inline), {t});
  }

  lemma ExitEventKeeps(s: State)
    requires Inv(s)
    ensures Inv(s.(exitEvent := true))
  {
    OnlyMoversMatter(s, s.(exitEvent := true), {});
  }

  lemma StoreKeeps(s: State, t: Tid)
    requires Inv(s) && s.At(t).Storing? && !s.At(t).inline
    ensures Inv(Stored(s, t))
  {
    assert ThreadInv(s, t);
    OnlyMoversMatter(s, Stored(s, t), {t});
  }

  lemma InlineStoreKeeps(s: State, t: Tid)
    requires Inv(s) && s.At(t).Storing? && s.At(t).inline
    ensures Inv(Stored(s, t))
  {
    assert ThreadInv(s, t);
    OnlyMoversMatter(s, Stored(s, t), {t});
  }

  lemma CleanupSpawnedKeeps(s: State, t: Tid)
    requires Inv(s) && s.At(t).Spawning?
    ensures Inv(CleanupSpawned(s, t, true))
  {
    assert ThreadInv(s, t) && ThreadInv(s, CleanupThread);
    OnlyMoversMatter(s, CleanupSpawned(s, t, true), {t, CleanupThread});
  }

  lemma CleanupNotSpawnedKeeps(s: State, t: Tid)
    requires Inv(s) && s.At(t).Spawning?
    ensures Inv(CleanupSpawned(s, t, false))
  {
    assert ThreadInv(s, t);
    OnlyMoversMatter(s, CleanupSpawned(s, t, false), {t});
  }

  lemma WatchdogSpawnedKeeps(s: State, t: Tid)
    requires Inv(s) && s.At(t).Arming?
    ensures Inv(WatchdogSpawned(s, t, true))
  {
    hide WinnerInv, ExitInv;
    assert ThreadInv(s, t) && ThreadInv(s, WatchdogThread) && Launched(s);
    ReturnKeeps(s, t);
    WatchdogAppears(s.Return(t), t);
    var sleeping := Sleeping(s.now + WATCHDOG);
    assert s.Return(t).pcs[WatchdogThread := sleeping] == s.Move(WatchdogThread, sleeping).Return(t).pcs;
  }

  lemma WatchdogNotSpawnedKeeps(s: State, t: Tid)
    requires Inv(s) && s.At(t).Arming?
    ensures Inv(WatchdogSpawned(s, t, false))
  {
    assert ThreadInv(s, t);
    ReturnKeeps(s, t);
  }

  lemma WatchdogAppears(s: State, t: Tid)
    requires Inv(s) && Launched(s) && !s.armed && s.winner.value.tid == t && !s.At(t).Arming?
    ensures Inv(s.(armed := true).Move(WatchdogThread, Sleeping(s.now + WATCHDOG)))
  {
    assert ThreadInv(s, WatchdogThread) && ThreadInv(s, t);
    OnlyMoversMatter(s, s.(armed := true).Move(WatchdogThread, Sleeping(s.now + WATCHDOG)), {t, WatchdogThread});
  }

  lemma FirstClaimKeeps(s: State, t: Tid)
    requires Inv(s) && s.At(t).Claiming? && !s.cells.exitClaimed
    ensures Inv(Claimed(s, t))
  {
    assert ThreadInv(s, t);
    OnlyMoversMatter(s, Claimed(s, t), {t});
  }

  lemma LateClaimKeeps(s: State, t: Tid)
    requires Inv(s) && s.At(t).Claiming? && s.cells.exitClaimed
    ensures Inv(Claimed(s, t))
  {
    hide Inv, WinnerInv, ExitInv;
    ThreadOf(s, t);
    assert SwapExitClaimed(s.cells).0 == s.cells;
    if s.At(t).path == BySpawnFailure {
      WinnerBegan(s);
      ReturnKeeps(s, t);
    } else {
      OverIsFine(s, t);
      MoveKeeps(s, t, Over);
    }
  }

  lemma WinnerBegan(s: State)
    requires Inv(s) && s.winner.Some?
    ensures s.winner.value.tid.Main? || s.winner.value.tid.Other?
  {
  }

  lemma OverIsFine(s: State, t: Tid)
    requires ThreadInv(s, t) && s.At(t).Claiming? && s.cells.exitClaimed && s.At(t).path != BySpawnFailure
    ensures ThreadInv(s.Move(t, Over), t)
  {
  }

  lemma ExitKeeps(s: State, t: Tid)
    requires Inv(s) && s.At(t).Exiting?
    ensures Inv(Exited(s, t))
  {
    hide Inv, WinnerInv, ExitInv;
    ThreadOf(s, t);
    ExitIsGood(s, t);
    ExitedThread(s, t);
    OnlyMoversMatter(s, Exited(s, t), {t});
  }

  lemma ExitIsGood(s: State, t: Tid)
    requires Inv(s) && s.At(t).Exiting?
    ensures WinnerInv(Exited(s, t)) && ExitInv(Exited(s, t)) && s.claimant == Some(t)
  {
    ThreadOf(s, t);
  }

  lemma ExitedThread(s: State, t: Tid)
    requires Inv(s) && s.At(t).Exiting?
    ensures ThreadInv(Exited(s, t), t) && Grows(s, Exited(s, t))
  {
    hide Inv, WinnerInv, ExitInv;
    ThreadOf(s, t);
    ExitIsClaimed(s, t);
  }

  lemma ExitIsClaimed(s: State, t: Tid)
    requires Inv(s) && s.At(t).Exiting?
    ensures s.cells.exitClaimed && s.winner.Some? && s.winner.value.at <= s.now && !s.winner.value.tid.WatchdogThread?
  {
    ThreadOf(s, t);
    hide GoodExit, PathInv;
  }

  /** The flag an exit is about to carry is the winning trigger's. Between a winner's swap and its
      store the flag reads false, and that is right: a winner asking for a restart is the event loop
      itself, which cannot also be the one ending the process. */
  lemma LoadKeeps(s: State, t: Tid)
    requires Inv(s) && s.At(t).Loading?
    ensures s.winner.Some? && s.cells.restart == s.winner.value.restart
    ensures Inv(Apply(s, Load(t)))
  {
    hide Inv, WinnerInv, ExitInv, PathInv;
    ThreadOf(s, t);
    LoadReadsTheWinners(s, t);
    MoveKeepsPath(s, t, s.At(t).path, Exiting(s.At(t).path, s.cells.restart));
    MoveKeeps(s, t, Exiting(s.At(t).path, s.cells.restart));
  }

  lemma LoadReadsTheWinners(s: State, t: Tid)
    requires Inv(s) && s.At(t).Loading?
    ensures s.winner.Some? && s.cells.restart == s.winner.value.restart
  {
    ThreadOf(s, t);
    ThreadOf(s, s.winner.value.tid);
    hide ExitInv;
  }

  lemma MarkKeeps(s: State, t: Tid, pc: Pc)
    requires Inv(s) && !Starting(s.At(t)) && !OwnsExit(s.At(t)) && !Starting(pc)
    requires s.cleanupRan || s.spawnFailed
    requires ThreadInv(s.(cells := MarkDone(s.cells)).Move(t, pc), t)
    ensures Inv(s.(cells := MarkDone(s.cells)).Move(t, pc))
  {
    OnlyMoversMatter(s, s.(cells := MarkDone(s.cells)).Move(t, pc), {t});
  }

  lemma RanKeeps(s: State, t: Tid, pc: Pc)
    requires Inv(s) && !Starting(s.At(t)) && !OwnsExit(s.At(t)) && !Starting(pc)
    requires ThreadInv(s.(cleanupRan := true).Move(t, pc), t)
    ensures Inv(s.(cleanupRan := true).Move(t, pc))
  {
    OnlyMoversMatter(s, s.(cleanupRan := true).Move(t, pc), {t});
  }

  /** The cleanup thread goes on to claim the exit exactly if the winner asked for no restart: whoever
      runs after `RunEvent::Exit` relaunches. */
  lemma CleanupChecksKeeps(s: State)
    requires Inv(s) && s.At(CleanupThread).Checking?
    ensures s.winner.Some?
    ensures Apply(s, CleanupChecks).At(CleanupThread) == if s.winner.value.restart then Over else Claiming(ByCleanup)
    ensures Inv(Apply(s, CleanupChecks))
  {
    hide ExitInv;
    ThreadOf(s, CleanupThread);
    RestartIsTheWinners(s);
    hide WinnerInv;
    MoveKeeps(s, CleanupThread, if s.cells.restart then Over else Claiming(ByCleanup));
  }

  lemma RestartIsTheWinners(s: State)
    requires Inv(s) && Launched(s)
    ensures s.cells.restart == s.winner.value.restart
  {
  }

  lemma CleanupThreadKeeps(s: State, a: Action)
    requires Inv(s) && Enabled(s, a) && (a.CleanupEnds? || a.CleanupMarks?)
    ensures Inv(Apply(s, a))
  {
    assert ThreadInv(s, CleanupThread);
    match a
    case CleanupEnds => RanKeeps(s, CleanupThread, Marking);
    case CleanupMarks => MarkKeeps(s, CleanupThread, Checking);
  }

  lemma InlineCleanedKeeps(s: State, t: Tid)
    requires Inv(s) && s.At(t).InlineCleaning?
    ensures Inv(Apply(s, InlineCleaned(t)))
  {
    assert ThreadInv(s, t);
    RanKeeps(s, t, InlineMarking);
  }

  lemma InlineMarkKeeps(s: State, t: Tid)
    requires Inv(s) && s.At(t).InlineMarking?
    ensures Inv(Apply(s, InlineMark(t)))
  {
    assert ThreadInv(s, t);
    MarkKeeps(s, t, InlineMarking);
    assert s.pcs[t := InlineMarking] == s.pcs;
    ReturnKeeps(s.(cells := MarkDone(s.cells)), t);
  }

  lemma SpawnFailureKeeps(s: State, t: Tid)
    requires Inv(s) && s.At(t).SpawnFailed?
    ensures Inv(Apply(s, MarkAfterSpawnFailure(t)))
  {
    assert ThreadInv(s, t);
    MarkKeeps(s, t, Claiming(BySpawnFailure));
  }

  lemma WatchdogWakesKeeps(s: State)
    requires Inv(s) && Enabled(s, WatchdogWakes)
    ensures Inv(Apply(s, WatchdogWakes))
  {
    hide Inv, WinnerInv, ExitInv;
    ThreadOf(s, WatchdogThread);
    MoveKeeps(s, WatchdogThread, Claiming(ByWatchdog));
  }

  lemma HoldWakesKeeps(s: State)
    requires Inv(s) && Enabled(s, HoldWakes)
    ensures Inv(Apply(s, HoldWakes))
  {
    hide Inv, WinnerInv, ExitInv;
    ThreadOf(s, Main);
    MoveKeeps(s, Main, Claiming(ByHold(s.cells.cleanupDone)));
  }

  lemma TickKeeps(s: State, ms: nat)
    requires Inv(s)
    ensures Inv(s.(now := s.now + ms))
  {
    OnlyMoversMatter(s, s.(now := s.now + ms), {});
  }

  lemma StepKeepsInv(s: State, a: Action)
    requires Inv(s) && Enabled(s, a)
    ensures Inv(Apply(s, a))
  {
    hide Inv, TryBegin, Stored, CleanupSpawned, WatchdogSpawned, Claimed, Exited;
    match a
    case Begin(t, restart) => TryBeginKeeps(s, t, restart, false);
    case ExitEvent =>
      ExitEventKeeps(s);
      TryBeginKeeps(s.(exitEvent := true), Main, false, false);
    case BeginInline(t) => TryBeginKeeps(s, t, false, true);
    case Store(t) => if s.At(t).inline { InlineStoreKeeps(s, t); } else { StoreKeeps(s, t); }
    case SpawnCleanup(t, ok) => if ok { CleanupSpawnedKeeps(s, t); } else { CleanupNotSpawnedKeeps(s, t); }
    case SpawnWatchdog(t, ok) => if ok { WatchdogSpawnedKeeps(s, t); } else { WatchdogNotSpawnedKeeps(s, t); }
    case Claim(t) => if s.cells.exitClaimed { LateClaimKeeps(s, t); } else { FirstClaimKeeps(s, t); }
    case Load(t) => LoadKeeps(s, t);
    case RunExit(t) => ExitKeeps(s, t);
    case WatchdogWakes => WatchdogWakesKeeps(s);
    case HoldWakes => HoldWakesKeeps(s);
    case Tick(ms) => TickKeeps(s, ms);
    case MarkAfterSpawnFailure(t) => SpawnFailureKeeps(s, t);
    case InlineCleaned(t) => InlineCleanedKeeps(s, t);
    case InlineMark(t) => InlineMarkKeeps(s, t);
    case CleanupChecks => CleanupChecksKeeps(s);
    case CleanupEnds | CleanupMarks => CleanupThreadKeeps(s, a);
  }

  // -------------------------------------------------------------------------
  // Whole runs
  // -------------------------------------------------------------------------

  /** A run starts at rest, and every state follows from the one before. */
  ghost predicate IsRun(states: seq<State>, actions: seq<Action>) {
    Follows(states, actions) && states[0] == INIT
  }

  ghost predicate Follows(states: seq<State>, actions: seq<Action>) {
    && |states| == |actions| + 1
    && forall i :: 0 <= i < |actions| ==>
         Enabled(states[i], actions[i]) && states[i + 1] == Apply(states[i], actions[i])
  }

  lemma {:induction false} RunKeepsInv(states: seq<State>, actions: seq<Action>, k: nat)
    requires IsRun(states, actions) && k < |states|
    ensures Inv(states[k])
  {
    if k == 0 {
      InitInv();
    } else {
      RunKeepsInv(states, actions, k - 1);
      StepKeepsInv(states[k - 1], actions[k - 1]);
    }
  }

  /** In every interleaving: one exit at most, one cleanup at most, the winner's restart flag, no
      relaunch from the cleanup thread, and no exit before cleanup is done except by the watchdog or
      a hold that timed out, `WATCHDOG` after the trigger at the earliest. */
  lemma ShutdownIsOrderly(states: seq<State>, actions: seq<Action>, k: nat)
    requires IsRun(states, actions) && k < |states|
    ensures
      var s := states[k];
      && |s.exits| <= 1
      && s.cleanupStarts <= 1
      && (s.exits != [] ==>
            var e := s.exits[0];
            && s.winner.Some?
            && e.restart == s.winner.value.restart
            && (e.path == ByCleanup ==> !e.restart)
            && (!e.cleanupDone ==> e.path in {ByWatchdog, ByHold(false)} && e.at >= s.winner.value.at + WATCHDOG)
            && (e.cleanupDone && !s.spawnFailed ==> e.cleanupRan))
  {
    RunKeepsInv(states, actions, k);
  }

  /** The winner is fixed from its swap on, so the flag an exit carries cannot be talked out of it
      by a later trigger. */
  lemma {:induction false} FirstTriggerWins(states: seq<State>, actions: seq<Action>, i: nat, j: nat)
    requires IsRun(states, actions) && i <= j < |states|
    requires states[i].winner.Some?
    ensures states[j].winner == states[i].winner
    decreases j
  {
    hide Apply, Enabled, ThreadInv, ExitInv;
    if i < j {
      FirstTriggerWins(states, actions, i, j - 1);
      RunKeepsInv(states, actions, j - 1);
    }
  }

  /** An armed watchdog that has run its course leaves no way to stall: the process has exited, or
      the one thread owning the exit is about to, and nothing can hold that thread back. */
  lemma WatchdogEndsTheProcess(states: seq<State>, actions: seq<Action>, k: nat)
    requires IsRun(states, actions) && k < |states|
    requires states[k].At(WatchdogThread).Over?
    ensures
      var s := states[k];
      || |s.exits| == 1
      || (s.claimant.Some? && (Enabled(s, Load(s.claimant.value)) || Enabled(s, RunExit(s.claimant.value))))
  {
    RunKeepsInv(states, actions, k);
    assert ThreadInv(states[k], WatchdogThread);
  }

  /** Why only the event loop may ask for a restart: were another thread to, the main thread could
      time out of its hold and end the process between that thread's swap and its store, and the
      relaunch would be lost. */
  lemma ForeignRestartWouldBeLost() returns (states: seq<State>, actions: seq<Action>)
    ensures Follows(states, actions) && states[0] == TryBegin(INIT, Other(0), true, false)
    ensures
      var end := states[|actions|];
      && end.winner.Some? && end.winner.value.restart
      && |end.exits| == 1 && !end.exits[0].restart
  {
    states, actions := ForeignTriggerOutwaited();
    hide TryBegin, Follows, Apply, Enabled;
    HoldExits(states[|actions|]);
    states, actions := OneMore(states, actions, Claim(Main));
    states, actions := OneMore(states, actions, Load(Main));
    states, actions := OneMore(states, actions, RunExit(Main));
  }

  lemma HoldExits(s: State)
    requires s.At(Main) == Claiming(ByHold(false)) && s.cells == Cells(true, false, false, false) && s.exits == []
    ensures Enabled(s, Claim(Main))
    ensures Enabled(Apply(s, Claim(Main)), Load(Main))
    ensures Enabled(Apply(Apply(s, Claim(Main)), Load(Main)), RunExit(Main))
    ensures
      var end := Apply(Apply(Apply(s, Claim(Main)), Load(Main)), RunExit(Main));
      end.winner == s.winner && |end.exits| == 1 && !end.exits[0].restart
  {
  }

  /** The main thread holds behind the foreign trigger until its time is up. */
  lemma ForeignTriggerOutwaited() returns (states: seq<State>, actions: seq<Action>)
    ensures Follows(states, actions) && states[0] == TryBegin(INIT, Other(0), true, false)
    ensures
      var s := states[|actions|];
      && s.At(Main) == Claiming(ByHold(false)) && s.winner.Some? && s.winner.value.restart
      && s.cells == Cells(true, false, false, false) && s.exits == []
  {
    states, actions := OneMore([TryBegin(INIT, Other(0), true, false)], [], ExitEvent);
    states, actions := OneMore(states, actions, Tick(WATCHDOG));
    states, actions := OneMore(states, actions, HoldWakes);
  }

  lemma OneMore(states: seq<State>, actions: seq<Action>, a: Action)
    returns (states': seq<State>, actions': seq<Action>)
    requires Follows(states, actions) && Enabled(states[|actions|], a)
    ensures Follows(states', actions') && states'[0] == states[0]
    ensures |actions'| == |actions| + 1 && states'[|actions'|] == Apply(states[|actions|], a)
  {
    hide Apply, Enabled;
    states', actions' := states + [Apply(states[|actions|], a)], actions + [a];
  }

  // -------------------------------------------------------------------------
  // The coordinator's methods are these steps, run without interference
  // -------------------------------------------------------------------------

  /** `begin` on its own performs exactly what `TryBegin` does to the cells. */
  lemma BeginIsSwapThenStore(s: State, t: Tid, restart: bool)
    requires s.At(t).Idle? && (t.Main? || (t.Other? && !restart)) && !s.cells.fired
    ensures
      var swapped := Apply(s, Begin(t, restart));
      && Enabled(swapped, Store(t))
      && Apply(swapped, Store(t)).cells == StoreRestart(SwapFired(s.cells).0, restart)
      && Apply(swapped, Store(t)).At(t) == Spawning
  {
  }
}
