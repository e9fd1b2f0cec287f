# LumaSync desktop backend: a Dafny model

LumaSync drives LED strips and Hue lights from what is on the screen. This project models the pieces
of its Rust backend whose correctness is not visible from one function body, and proves what their
documentation and tests promise. `dafny verify dfyconfig.toml` checks everything.

| file | models |
|---|---|
| `Shutdown.dfy`, `ShutdownProgress.dfy` | the one-exit shutdown: the coordinator's cells as a class, and every interleaving of the threads racing over them as a state machine: what it never does, and that it gets to its end |
| `Cleanup.dfy`, `ShutdownTiming.dfy` | the three bounded cleanup steps against the watchdog, on a virtual clock, and that schedule inside the protocol |
| `Handshake.dfy`, `HandshakeReader.dfy` | the PONG frame, the resynchronising reader, and the round trip over an arbitrary script of reads |
| `PortGate.dfy` | the admission gate, connect and the health check |
| `SerialWatch.dfy`, `SerialWatcher.dfy` | the serial port watcher as a value and as a class, with other threads recording connects between any two calls, stamped when they were made |
| `Tray.dfy` | the tray's cached mode group and the draws it posts |
| `LedSequence.dfy`, `StripGeometry.dfy`, `StripAnchors.dfy` | strip order, where LEDs sit, and where a strip begins |
| `WireBudget.dfy`, `WirePackets.dfy` | the serial budget, and the packets it is for |
| `Sampling.dfy`, `SamplingPlaces.dfy` | the colour of every LED, and that it is the picture's where the LED sits |
| `Frames.dfy`, `Downscale.dfy`, `BlackBorders.dfy`, `BarCrops.dfy` | frames and their content rectangle, the CPU-side reduction, letterbox and pillarbox detection, and how deep it crops |
| `SceneMath.dfy`, `SceneFilter.dfy`, `SceneSymmetry.dfy`, `SceneSmallRings.dfy`, `SceneGroups.dfy`, `SceneColour.dfy`, `SceneContrast.dfy` | the bilateral filter over rings, chains and point sets, and its laws |
| `SceneObserver.dfy`, `SceneRuns.dfy`, `SceneCuts.dfy`, `SceneAnalyzer.dfy` | frame statistics, change envelope, rate and ambience over whole runs, and the analyzer as the class that works in place |
| `Arith.dfy`, `Wrappers.dfy` | small arithmetic with its facts, and `Option` |

Code that changes things step by step is a class or a method with loops, proved against a
specification function; what the code promises is then proved about that function. Arithmetic that
is `f32` in the source is over the reals. `exp`, `sqrt`, the sRGB tables and the two interval helpers
of the smoothing module are arbitrary functions of which only ranges are known, and that `exp` and
`sqrt` rise, from 1 and 0 at 0; so every law of the scene stage holds for any such curves, and
`SceneSmallRings` picks curves of its own to show where one fails.

Where code and documentation disagree the model follows the code:

- the comment on the capture cap says the longest edge ends under 640; it ends in 640 to 1279
  (`Downscale.LongestEdgeAfterDownscale`);
- "instant attack" is not a maximum: a repeated change of the same size leaves the envelope below it
  (`SceneRuns.ARepeatedCutIsNotCovered`; `SceneRuns.EnvelopeCoversExactly` has the exact condition);
- the watcher's promise to spare a newer connect goes by the connect's stamp, which the blocking worker
  makes some time before the record lands. So a late record can leave a port connected that the poll
  does not account for, and can have a port cleared that was not forgotten
  (`SerialWatcher.ALateConnectIsUnaccounted`, `SerialWatcher.ARacingConnectIsClearedUnforgotten`;
  `SerialWatcher.AccountedExactly` and `SerialWatcher.ClearedIsForgottenExactly` say exactly when);
- two missed listings in a row are neither needed for a loss nor enough for one, because a miss count
  survives a port coming back while nobody watches it (`WatchSteps.MissStreak` says exactly when);
- a ring of 3 to 10 lights is filtered as an open strip except for its separation scale
  (`SceneSmallRings.RingResultsTurnExactly`);
- an Adalight header takes one off its pixel count, so a frame of none reads as one of a single pixel
  (`WirePackets.HeadersCount`);
- the gate's "same listing" holds for names listed once; of two ports of one name the first decides
  (`PortGate.AdmissionFollowsTheList`).

## Model

| member | source | states |
|---|---|---|
| ShutdownProtocol.ShutdownIsOrderly | src-tauri/src/shutdown.rs:220-333 | In every interleaving of triggers, cleanup thread, watchdog, holding main thread and installer path: at most one exit and one cleanup, the exit carries the winning trigger's restart flag, the cleanup thread never relaunches, and an exit before cleanup is done is only the watchdog's or a timed-out hold's, no earlier than the watchdog time after the trigger |
| ShutdownProtocol.StepKeepsInv | src-tauri/src/shutdown.rs:220-333 | Every atomic step of every thread keeps the protocol invariant |
| ShutdownProtocol.RunKeepsInv | src-tauri/src/shutdown.rs:220-333 | So every state of every run satisfies it |
| ShutdownProtocol.LoadKeeps | src-tauri/src/shutdown.rs:256-262 | The restart flag read by the one exit is the winner's, although the winner's swap and its store are two steps |
| ShutdownProtocol.ForeignRestartWouldBeLost | src-tauri/src/lib.rs:1017-1034 | Why only the event loop may ask for a restart: a run in which another thread asks and its relaunch is lost |
| ShutdownProtocol.FirstTriggerWins | src-tauri/src/shutdown.rs:220-226 | From its swap on the winner is fixed, whatever triggers follow |
| ShutdownProtocol.WatchdogEndsTheProcess | src-tauri/src/shutdown.rs:304-320 | Once an armed watchdog has run its course the process has exited, or the one thread owning the exit can take its next step to it |
| ShutdownProgress.AShutdownComesToItsEnd | src-tauri/src/shutdown.rs:264-333 | In every run a started shutdown at which no thread has a step left, however long one waits, has ended the process, except exactly when there was no exit event, no watchdog and no failed spawn, and the winner was a restart or the installer |
| ShutdownProgress.WhoLeavesHasSeenTheExit | src-tauri/src/shutdown.rs:286-333 | A cleanup thread that has ended and owed no restart to others, a main thread past its hold, and a trigger back from a failed spawn each leave the exit done or its owner able to take its next step to it |
| ShutdownProgress.AShutdownIsShort | src-tauri/src/shutdown.rs:264-333 | After the first trigger any run contains at most 34 steps of threads inside the shutdown, whatever triggers lose and time passes between |
| ShutdownProgress.StepRanks | src-tauri/src/shutdown.rs:220-333 | Every such step uses up one of the steps left; no trigger and no passing of time gives any back |
| ShutdownProgress.StepKeepsLives | src-tauri/src/shutdown.rs:220-333 | Every step keeps what the threads owe: who was started, who holds, and who must still claim |
| ShutdownProgress.TheRecordIsTheRun | src-tauri/src/shutdown.rs:264-333 | An exit event, a watchdog and a failed spawn are on record exactly if the run took such a step |
| ShutdownProgress.TheWinnerIsTheFirstTrigger | src-tauri/src/shutdown.rs:220-226 | The winner is the first trigger of the run, with its restart flag and its time |
| ShutdownProgress.WaitsAreCounted | src-tauri/src/shutdown.rs:300-333 | The watchdog sleeps, and the main thread holds, from the very step that began the wait |
| ShutdownProtocol.CleanupChecksKeeps | src-tauri/src/shutdown.rs:286-297 | After marking cleanup done the cleanup thread goes on to claim the exit exactly if the winner asked for no restart, and keeps the invariant |
| ShutdownProtocol.BeginIsSwapThenStore | src-tauri/src/shutdown.rs:220-226 | A begin that meets no interference does to the cells exactly what the coordinator's method does |
| ShutdownCells.ShutdownCoordinator.TryBegin | src-tauri/src/shutdown.rs:220-226 | Exactly the first caller wins, and only a winner changes the restart flag |
| ShutdownCells.ShutdownCoordinator.MarkCleanupDone | src-tauri/src/shutdown.rs:232-239 | Marks cleanup done and touches nothing else |
| ShutdownCells.ShutdownCoordinator.Finish | src-tauri/src/shutdown.rs:256-262 | Exactly the first caller exits, with the restart flag as its argument |
| Cleanup.CleanupThread.RunCleanup | src-tauri/src/shutdown.rs:114-193 | Lighting, Hue and sink run in that order, each once, at the times of the schedule, whether the first two answer, die or hang |
| Cleanup.CleanupThread.RecvTimeout | src-tauri/src/shutdown.rs:142-154 | A wait ends with the step's answer or death if that comes by the timeout, and at the timeout otherwise |
| Cleanup.HueKeepsItsTime | src-tauri/src/shutdown.rs:26-34 | A wedged lighting stop leaves Hue at least its deadline less the lighting bound, plus the grace; the wait ends exactly at deadline plus grace |
| Cleanup.HueIsOverInTime | src-tauri/src/shutdown.rs:156-187 | Hue is over by its deadline plus the grace even if both steps hang, plus only what the scheduler is late by |
| Cleanup.HueIsHeardExactlyInTime | src-tauri/src/shutdown.rs:168-187 | A Hue answer is heard if and only if it comes by the deadline plus the grace |
| Cleanup.ShippedBudgetBeatsTheWatchdog | src-tauri/src/shutdown.rs:23-34 | With the shipped constants the sink is cleared 600 ms before the watchdog, exactly so when both steps hang |
| ShutdownTiming.DoneBeforeTheWatchdog | src-tauri/src/shutdown.rs:23-34 | A cleanup on its schedule and less than 600 ms late in all is marked done before the watchdog time after the trigger, whatever lighting and Hue do |
| ShutdownTiming.WatchdogWakesToADoneCleanup | src-tauri/src/shutdown.rs:286-320 | In any run with such a cleanup, the watchdog and a timed-out hold wake only to a cleanup already marked done |
| ShutdownTiming.NoExitAbandonsAPunctualCleanup | src-tauri/src/shutdown.rs:220-333 | So in any such run the one exit, on whichever path, follows the cleanup |
| ShutdownTiming.ExitWasTaken | src-tauri/src/shutdown.rs:256-262 | An exit on record was made by one step of the run, and says what was true of the cleanup then |
| Pong.DecodeInvertsEncode | src-tauri/src/commands/device_handshake.rs:214-255 | Decoding inverts the documented frame encoder on every well-formed response |
| Pong.EncodeInvertsDecode | src-tauri/src/commands/device_handshake.rs:214-255 | Every accepted frame is the encoding of what it decodes to |
| Pong.AcceptedFramesAreExactlyTheEncodings | src-tauri/src/commands/device_handshake.rs:32-44 | Accepted 7-byte frames and well-formed (version, profile, layout) triples are in bijection |
| Pong.OneChangedByteIsRejected | src-tauri/src/commands/device_handshake.rs:214-255 | One changed byte anywhere in an accepted frame is rejected, with the error its position says |
| Pong.VersionWindow | src-tauri/src/commands/device_handshake.rs:125-135 | The supported versions are exactly the 1.x releases |
| Pong.ThePing | src-tauri/src/commands/device_handshake.rs:185-197 | The ping is the five documented bytes, checksum included |
| StreamScan.FrontierIsFirstValid | src-tauri/src/commands/device_handshake.rs:365-391 | A left-to-right scan finds a PONG exactly when the stream holds one, and then the first |
| StreamScan.OpenFrameHidesNothing | src-tauri/src/commands/device_handshake.rs:365-391 | While a frame is still incomplete no later one can be complete, so waiting for it loses none |
| StreamScan.RejectionsAreStable | src-tauri/src/commands/device_handshake.rs:443-466 | What was rejected stays rejected for the same reason as the stream grows |
| StreamScan.OpenTailIsShort | src-tauri/src/commands/device_handshake.rs:365-391 | With no valid PONG at most 6 bytes are still open |
| StreamScan.RejectionKinds | src-tauri/src/commands/device_handshake.rs:443-466 | A complete frame is only ever rejected for its opcode, checksum, profile or layout |
| StreamScan.QuietStreams | src-tauri/src/commands/device_handshake.rs:405-415 | With nothing rejected the deadline reports silence for an empty or half-framed stream, and noise otherwise |
| StreamScan.PrefixAnswersForAll | src-tauri/src/commands/device_handshake.rs:437-482 | The first valid frame stays the first one whatever is read later |
| StreamScan.SameAnswerHoweverCut | src-tauri/src/commands/device_handshake.rs:437-482 | Two ways of cutting the same bytes into reads give the same frame |
| HandshakeReader.ResponseReader.NextCandidate | src-tauri/src/commands/device_handshake.rs:365-391 | Drops exactly the bytes before the first magic, keeps a trailing first magic byte, and classifies what is left |
| HandshakeReader.ResponseReader.Extend | src-tauri/src/commands/device_handshake.rs:356-358 | Appends the bytes read |
| HandshakeReader.ResponseReader.Consume | src-tauri/src/commands/device_handshake.rs:394-396 | Drops at most the whole buffer |
| HandshakeReader.ResponseReader.SkipOne | src-tauri/src/commands/device_handshake.rs:399-402 | Drops one byte and remembers the noise |
| HandshakeReader.ResponseReader.TimeoutError | src-tauri/src/commands/device_handshake.rs:405-415 | The last rejection, or else noise or silence by what was skipped and what is buffered |
| HandshakeReader.CandidateMeans | src-tauri/src/commands/device_handshake.rs:443-466 | What one turn of the inner loop does, said of offsets in the whole stream |
| HandshakeReader.ScanBuffered | src-tauri/src/commands/device_handshake.rs:443-466 | The inner loop ends with the first valid PONG at the front of the buffer, or with none in the stream and only its open tail buffered |
| HandshakeReader.ReadNext | src-tauri/src/commands/device_handshake.rs:472-480 | One timed read: the next scripted reply exactly if it comes before the time left runs out, and the reader then stands on the longer stream |
| HandshakeReader.PerformHandshake | src-tauri/src/commands/device_handshake.rs:437-482 | It answers if and only if reads that come before the deadline, none failing first, complete a valid PONG: with the first one of the stream, on the very read that completes it. Otherwise everything that came in time has been read, and the error is a function of those bytes alone, or of the read that failed |
| HandshakeReader.ReadAllFoundNone | src-tauri/src/commands/device_handshake.rs:437-482 | Having read, without a find, up to a failure or all that comes in time rules out every answer in time |
| HandshakeReader.OutcomeIsDetermined | src-tauri/src/commands/device_handshake.rs:437-482 | A script leaves no choice: the reads used, the PONG and the error are its own |
| HandshakeReader.ProbeFirmware | src-tauri/src/commands/device_handshake.rs:501-512 | A device is heard if and only if it completes a valid PONG in time; otherwise it is garbled or silent by what the bytes that came in time leave, and a failing port counts as silent |
| PortGate.AdmissionFollowsTheList | src-tauri/src/commands/device_connection.rs:317-351 | A name is admitted exactly when the list offers it with no unsupported port of that name before it, and only on the allowlist |
| PortGate.AnOfferedDuplicateCanBeRefused | src-tauri/src/commands/device_connection.rs:221-235 | The condition is needed: of two ports of one name the first decides |
| PortGate.ListedExactly | src-tauri/src/commands/device_connection.rs:221-235 | The list holds exactly the enumerated ports, judged by the allowlist, less the blocking siblings of macOS |
| PortGate.FirstNamedIsFirst | src-tauri/src/commands/device_connection.rs:333-337 | The port judged is the first of its name |
| PortGate.TheGateSaysWhy | src-tauri/src/commands/device_connection.rs:317-351 | What the gate answers, of the enumeration alone: not found, the macOS sibling to use, the ids of an unsupported chip, not USB, or admitted, by the first port of the name |
| PortGate.Connect | src-tauri/src/commands/device_connection.rs:499-570 | Opens the name if the gate admits it and nothing else; connects whatever the device answers; reports firmware if and only if a valid PONG completes within the probe time, and then the first one, with a warning exactly outside the version window |
| PortGate.HealthCheck | src-tauri/src/commands/device_connection.rs:666-799 | Opens exactly what a connect would; its stages run in order and stop at the first that fails; it passes, and carries firmware, if and only if the name is admitted, the port opens, and the device completes a valid PONG in time |
| PortGate.AllPass | src-tauri/src/commands/device_connection.rs:788-788 | The overall verdict is the conjunction of the steps |
| WatchSteps.AnnouncementsAlternate | src-tauri/src/commands/device_connection.rs:1010-1090 | Over any run of polls with any registry, losses and appearances of a port strictly alternate, and one event never holds both |
| WatchSteps.BaselineIsLostFirst | src-tauri/src/commands/device_connection.rs:1024-1027 | A port of the silent baseline is first announced lost |
| WatchSteps.PollFacts | src-tauri/src/commands/device_connection.rs:1028-1054 | After a poll every listed supported port is present, and what appeared and what was lost make up the whole difference |
| WatchSteps.GoneStaysGone | src-tauri/src/commands/device_connection.rs:1032-1047 | A lost port outside the present set keeps a count of two or more, so it is not lost again before it appears |
| WatchSteps.MissStreak | src-tauri/src/commands/device_connection.rs:1032-1047 | A present port that goes missing is announced lost at its m-th miss exactly when m and the count it carried make two |
| WatchSteps.MissedForeverWithoutLoss | src-tauri/src/commands/device_connection.rs:1032-1047 | Two misses in a row need not be a loss: back for one poll and gone again, a port is missed forever unannounced |
| WatchSteps.LostAfterOneMiss | src-tauri/src/commands/device_connection.rs:1032-1047 | Nor are they needed: a count kept from before makes the first miss a loss |
| OutputRegistry.StaleExactlyWhenBackdated | src-tauri/src/commands/local_outputs.rs:213-391 | Whatever other threads record, with whatever stamps, a port not connected on a stamp before the listing comes to be if and only if a connect or restore stamped before the listing takes and nothing later replaces it |
| OutputRegistry.LocalOutputRegistry.ConnectedSerialPorts | src-tauri/src/commands/local_outputs.rs:452-459 | The connected ports of the registry as its log leaves it at the call, other threads having recorded what they like |
| OutputRegistry.LocalOutputRegistry.ConnectedSince | src-tauri/src/commands/local_outputs.rs:435-440 | Whether, as the log stands at the call, the port is connected on a stamp no older than the listing |
| OutputRegistry.LocalOutputRegistry.SerialLost | src-tauri/src/commands/local_outputs.rs:338-356 | Clears the port exactly when the registry found under the lock has it connected on a stamp before the listing, and hands on the registry after the clear |
| SerialWatcher.SerialWatch.Count | src-tauri/src/commands/device_connection.rs:1028-1047 | The counting loop computes the new counts and the losses of the poll specification |
| SerialWatcher.SerialWatch.ForgetLost | src-tauri/src/commands/device_connection.rs:1058-1062 | Each lost port is asked about once, and forgotten exactly if the registry then had no connect of it since the listing |
| SerialWatcher.SerialWatch.ClearEach | src-tauri/src/commands/device_connection.rs:1063-1066 | Each port is looked at once and cleared exactly if its connection then predated the listing; the snapshot kept was taken after every clear |
| SerialWatcher.SerialWatch.LetGo | src-tauri/src/commands/device_connection.rs:1056-1079 | Lost ports are asked about, then looked at; retried ones are looked at only, and forgotten exactly if cleared; with other threads between any two calls |
| SerialWatcher.SerialWatch.Poll | src-tauri/src/commands/device_connection.rs:1010-1090 | One poll counts, announces, forgets and clears what the specification says at the points of the log its trace names, announces exactly when something appeared, was lost or was cleared, and hands on a snapshot showing every clear |
| SerialWatcher.AccountedExactly | src-tauri/src/commands/device_connection.rs:1056-1079 | After a poll every connected port is listed, missed once, or connected since the listing, if and only if no backdated connect of another port landed after the poll last looked at it and stands |
| SerialWatcher.ClearedUnforgottenExactly | src-tauri/src/commands/device_connection.rs:1056-1066 | A lost port kept from being forgotten by a fresh connect is cleared all the same if and only if a backdated connect replaces that one before the poll looks again |
| SerialWatcher.ClearedIsForgottenExactly | src-tauri/src/commands/device_connection.rs:1056-1079 | So everything cleared is forgotten if and only if that happens to no lost port |
| SerialWatcher.WithoutBackdatingAllIsAccounted | src-tauri/src/commands/device_connection.rs:1010-1090 | Both hold of every poll during which no record stamped before the listing lands |
| SerialWatcher.ALateConnectIsUnaccounted | src-tauri/src/commands/device_connection.rs:556-570 | The condition is needed: a connect stamped before the listing and recorded after the poll asked leaves its port connected and unaccounted for |
| SerialWatcher.ARacingConnectIsClearedUnforgotten | src-tauri/src/commands/local_outputs.rs:213-238 | And so is the other: of two connects racing on a lost port, recorded newer first, the older one has the port cleared and not forgotten |
| Tray.TrayState.UpdateModes | src-tauri/src/lib.rs:177-209 | Changes the view, skips a draw equal to the last unless forced, and otherwise posts exactly one |
| Tray.TrayState.SyncTrayModes | src-tauri/src/lib.rs:231-244 | An older snapshot changes nothing; any other replaces the running mode |
| Tray.TrayState.UpdateTrayLabels | src-tauri/src/lib.rs:348-359 | New locks replace the old ones and are drawn if they show |
| Tray.TrayState.ChooseTrayMode | src-tauri/src/lib.rs:216-227 | A click always redraws, and is sent on unless its mode already runs |
| Tray.StepKeepsInv | src-tauri/src/lib.rs:177-244 | Every publish, label push, click and draw keeps the cache equal to the last posted draw and the settled menu equal to the view |
| Tray.ShownIsLastPosted | src-tauri/src/lib.rs:194-198 | The dedupe cache is always the last draw posted, or what the menu was built with, and always what the view says |
| Tray.AnIdleStartPostsNothing | src-tauri/src/lib.rs:468-470 | A first snapshot of an idle Off draws nothing, because the built menu counts as shown |
| Tray.ViewIsNewest | src-tauri/src/lib.rs:231-244 | In any delivery order the view holds the newest snapshot so far and the last locks |
| Tray.TrayConverges | src-tauri/src/lib.rs:177-244 | Once the main thread has caught up the menu reads the newest snapshot and the last locks |
| Tray.TheMenuReads | src-tauri/src/lib.rs:177-209 | A caught-up menu has one item a mode, the newest snapshot's mode checked and no other, and each enabled exactly if that snapshot was idle and the last locks leave the mode open |
| Tray.AClickNeedsItsRedraw | src-tauri/src/lib.rs:216-227 | A click alone leaves the menu reading otherwise than the view at just the mode clicked, and its forced redraw puts that right |
| Tray.OrderDoesNotMatter | src-tauri/src/lib.rs:231-244 | Two runs with the same snapshots in other orders end on the same menu |
| Tray.EqualRevisionsDependOnOrder | src-tauri/src/lib.rs:236-238 | Distinct revisions are needed: of two equal ones the later delivery wins |
| LedSequence.BuildLedSequence | src-tauri/src/commands/led_calibration.rs:172-196 | The strip order: every index its position, rotated to the anchor and, unless clockwise, read backwards |
| LedSequence.BuildCanonicalSequence | src-tauri/src/commands/led_calibration.rs:199-215 | The canonical order lists the four edges clockwise, index equal to position |
| LedSequence.ResolveAnchorIndex | src-tauri/src/commands/led_calibration.rs:217-279 | The anchor's canonical position, 0 for an unknown anchor or an empty edge |
| LedSequence.RotateSequence | src-tauri/src/commands/led_calibration.rs:305-315 | Rotates left and renumbers |
| LedSequence.Reindex | src-tauri/src/commands/led_calibration.rs:309-313 | Renumbers and changes nothing else |
| LedSequence.AnchorInRange | src-tauri/src/commands/led_calibration.rs:217-300 | The anchor names an existing LED for every configuration |
| LedSequence.CanonicalIsABijection | src-tauri/src/commands/led_calibration.rs:199-215 | Canonical positions and (edge, place) pairs are in bijection |
| LedSequence.EveryLedOnce | src-tauri/src/commands/led_calibration.rs:172-315 | Every built order names each physical LED exactly once and nothing else, with index equal to position |
| LedSequence.StartsAtAnchor | src-tauri/src/commands/led_calibration.rs:172-196 | The strip starts at the LED its configuration names |
| LedSequence.ConsecutiveAreNeighbours | src-tauri/src/commands/led_calibration.rs:172-196 | Consecutive items of a built strip, last and first included, are cyclic neighbours of the canonical order, one further clockwise and one back otherwise |
| LedSequence.WrapsOnce | src-tauri/src/commands/led_calibration.rs:172-196 | A strip passes the start of the canonical order at exactly one of its items |
| LedSequence.DirectionMirrors | src-tauri/src/commands/led_calibration.rs:179-194 | The counter-clockwise order is the clockwise one mirrored: item i is item (n - i) mod n |
| StripGeometry.LedsSitOnTheBorder | src-tauri/src/commands/led_calibration.rs:379-402 | Every LED sits on the border of the unit square |
| StripGeometry.EndsOfAnEdge | src-tauri/src/commands/led_calibration.rs:379-402 | The first LED of an edge sits at its start, the last at its end, a lone one in its middle |
| StripGeometry.LedsSitEvenly | src-tauri/src/commands/led_calibration.rs:379-402 | From one LED of an edge to the next is one equal share of it, and across the stand gap one share more for every LED left out |
| StripAnchors.AnchorsAreSpelled | src-tauri/src/commands/led_calibration.rs:220-232 | An anchor name is known exactly if it is an edge and one of that edge's modes joined by a hyphen, and then stands for those |
| StripAnchors.ValidConfigsAreTheirStrips | src-tauri/src/commands/led_calibration.rs:90-127 | A configuration is valid exactly if its strip has as many LEDs as it says, at most 4096, and its anchor, direction and two presentation choices are among those there are |
| StripAnchors.StripBeginsInItsCorner | src-tauri/src/commands/led_calibration.rs:172-279 | A strip anchored at the start or the end of an edge of two LEDs or more begins in that corner of the screen |
| StripAnchors.StartIndexIsKeptOnItsEdge | src-tauri/src/commands/led_calibration.rs:234-243 | A start index stands for the LED of that number on its edge, or for the last if there is none |
| StripGeometry.CanonicalOrderWalksClockwise | src-tauri/src/commands/led_calibration.rs:340-402 | Canonical order walks that border clockwise once, strictly along an edge; only LEDs in one corner share a point |
| StripGeometry.StripWalksTheBorder | src-tauri/src/commands/led_calibration.rs:172-402 | Every step of the built strip, from the last item to the first too, goes on along the border in its direction, strictly within an edge, but for the one step between the last and the first LED of the canonical order |
| StripGeometry.GapIsOneBlockBetweenItsAnchors | src-tauri/src/commands/led_calibration.rs:281-377 | The bottom leaves out exactly one run of pitches, as long as the gap, between the LEDs its two gap anchors name |
| StripGeometry.CentreAnchors | src-tauri/src/commands/led_calibration.rs:281-300 | Without a gap the two anchors are the middle LED, or the two middle ones |
| StripGeometry.ValidateDoesNotBoundTheGap | src-tauri/src/commands/led_calibration.rs:90-127 | Validation leaves the gap unbounded: it accepts a configuration whose pitches overflow u16 |
| WireBudget.WireTimeIsLeast | src-tauri/src/commands/led_calibration.rs:429-435 | The wire time is the least positive whole millisecond the link needs |
| WireBudget.WireTimeSaturates | src-tauri/src/commands/led_calibration.rs:429-435 | Past what a u64 holds the wire time stays where it is |
| WireBudget.IntervalIsBoundedAndMonotone | src-tauri/src/commands/led_calibration.rs:456-463 | The base interval lies in 16 to 100 ms and never shrinks with more LEDs or bytes per pixel |
| WireBudget.TheRateIsTheGreatestCarried | src-tauri/src/commands/led_calibration.rs:456-463 | The frame rate is the greatest whole one from 10 to 60 the link carries, or 10 if it carries none of them |
| WireBudget.IntervalFitsUpTo1163Bytes | src-tauri/src/commands/led_calibration.rs:449-463 | It is within 1 ms of the wire time exactly for frames up to 1163 bytes |
| WireBudget.ShortfallIsUnbounded | src-tauri/src/commands/led_calibration.rs:449-463 | Beyond, it falls short by any amount |
| WirePackets.PacketsAreAsLongAsBudgeted | src-tauri/src/commands/led_output/encode.rs:31-212 | Every LumaSync, RGBW and Adalight packet is exactly as long as the budget counts |
| WirePackets.EncodeLumaSync | src-tauri/src/commands/led_output/encode.rs:31-52 | The encoder, at three bytes a pixel or four, writes header, pixels in order and checksum |
| WirePackets.EncodeAdalight | src-tauri/src/commands/led_output/encode.rs:80-107 | Header with its own check, then the pixels in order |
| WirePackets.PixelsAreRead | src-tauri/src/commands/led_output/encode.rs:31-52 | Pixel k of a packet stands whole at its place after the header |
| WirePackets.WhiteTakesWhatIsCommon | src-tauri/src/commands/led_output/encode.rs:163-167 | White and the rest of each channel add up to the pixel, and one channel at least is left to white alone |
| WirePackets.HeadersCount | src-tauri/src/commands/led_output/encode.rs:31-107 | LumaSync counts right exactly up to 65535 pixels, Adalight exactly from 1 to 65536: an empty frame reads as one of a single pixel |
| WirePackets.OneChangedByteShows | src-tauri/src/commands/led_output/encode.rs:31-52 | One byte changed anywhere in a LumaSync packet shows in its checksum |
| Sampling.SampleFrameWithinInsets | src-tauri/src/commands/led_calibration.rs:498-557 | Each LED gets the average of its window; black for an empty frame. Where that window lies and what it counts is what the rows below state |
| SamplingPlaces.AnLedShowsItsPlace | src-tauri/src/commands/led_calibration.rs:498-557 | End to end: if all of the picture within a window's reach of where an LED sits is of one colour, the LED is that colour |
| SamplingPlaces.PixelIsNearest | src-tauri/src/commands/led_calibration.rs:522-524 | The pixel of a place is within half a pixel of it; places 0 and 1 are the first and the last pixel |
| SamplingPlaces.PixelsFollowPlaces | src-tauri/src/commands/led_calibration.rs:522-524 | Places further along an axis never get an earlier pixel |
| SamplingPlaces.HalfWindowIs | src-tauri/src/commands/led_calibration.rs:513-514 | Half a window is a pixel at least, and otherwise half the share asked for, cut to whole pixels |
| SamplingPlaces.WindowIsCentred | src-tauri/src/commands/led_calibration.rs:526-529 | The window holds its LED's pixel and exactly the pixels of the content up to half a window away |
| SamplingPlaces.OnePixelCounts | src-tauri/src/commands/led_calibration.rs:531-549 | Exchanging one pixel of a frame exchanges it in the window's sums exactly if it lies on the grid of every second row and column from the window's corner |
| SamplingPlaces.WindowHasItsGrid | src-tauri/src/commands/led_calibration.rs:531-549 | On a complete frame a window has as many samples as that grid has places |
| SamplingPlaces.AverageIsTheWholePart | src-tauri/src/commands/led_calibration.rs:551-554 | Each channel of the colour is the whole part of the exact mean |
| Sampling.SumWindow | src-tauri/src/commands/led_calibration.rs:528-546 | The two stepping loops compute the window's sums |
| Sampling.WindowInBounds | src-tauri/src/commands/led_calibration.rs:519-527 | Every window is non-empty and inside its bounds, whatever the window fraction |
| Sampling.WindowOnThePicture | src-tauri/src/commands/led_calibration.rs:498-557 | So every LED's window lies on the picture inside the insets |
| Sampling.BarsDoNotShow | src-tauri/src/commands/led_calibration.rs:498-557 | Two frames equal inside the insets light the strip alike |
| Sampling.ColorBetweenExtremes | src-tauri/src/commands/led_calibration.rs:528-557 | On a complete frame every channel lies between the least and the greatest of its window |
| BlackBorders.RowHits | src-tauri/src/commands/ambilight_capture.rs:1328-1341 | Counts the samples above the threshold and finds the first and the last |
| BlackBorders.ColHasContent | src-tauri/src/commands/ambilight_capture.rs:1347-1361 | A column holds picture exactly with two samples above the threshold |
| BlackBorders.ThresholdClearsAFlatEdge | src-tauri/src/commands/ambilight_capture.rs:1457-1471 | The chosen threshold is never below the one asked for, and leaves no sample of a flat edge above it |
| BlackBorders.FindDepth | src-tauri/src/commands/ambilight_capture.rs:1381-1394 | The depth is the first scanned line with picture, none only if no line has any |
| BlackBorders.EdgeDepths | src-tauri/src/commands/ambilight_capture.rs:1381-1394 | Four such depths, or some edge without any picture |
| BlackBorders.BandIsSubtitles | src-tauri/src/commands/ambilight_capture.rs:1419-1440 | True if and only if the lines hold one run of content, inside the middle of the width, with bar everywhere else and at least once above it |
| BlackBorders.DetectBlackBorders | src-tauri/src/commands/ambilight_capture.rs:1449-1485 | The insets of the paired depths; none to crop when picture is on all edges; no answer when nothing can be measured |
| BarCrops.CropsAreExactly | src-tauri/src/commands/ambilight_capture.rs:1396-1485 | Top and bottom are cropped by the lesser of their bars, or by the top's where a subtitle shape holds up a bottom more than two steps shallower; left and right by the lesser of theirs; each up to the 0.40 cap and no less |
| BarCrops.MatchedBarsAreCropped | src-tauri/src/commands/ambilight_capture.rs:1396-1485 | If no scanned line within k of either of two opposite edges holds picture, the crop there is at least the lesser of k and the cap |
| BarCrops.EqualBarsAreCroppedWhole | src-tauri/src/commands/ambilight_capture.rs:1396-1485 | Bars of one depth on both sides are cropped whole, up to the cap |
| BarCrops.LinesRunAlongTheirEdge | src-tauri/src/commands/ambilight_capture.rs:1328-1394 | A cell of the line so deep from an edge is the pixel that far from that edge and that far along it |
| BarCrops.HitsCountLitSamples | src-tauri/src/commands/ambilight_capture.rs:1328-1361 | Hits are the number of sampled cells some channel of which exceeds the threshold |
| BarCrops.LitByAnyChannel | src-tauri/src/commands/ambilight_capture.rs:1328-1361 | A sample is lit exactly if some channel of it exceeds the threshold |
| BarCrops.TheDarkestEdge | src-tauri/src/commands/ambilight_capture.rs:1457-1460 | The threshold is taken from an edge whose brightest sample no other edge undercuts, and of equals from the first |
| BarCrops.SubtitlesLeaveAMargin | src-tauri/src/commands/ambilight_capture.rs:1419-1440 | Subtitles keep clear of 7.5 in a hundred of the width on each side, cut to whole pixels |
| BarCrops.PictureEverywhereIs | src-tauri/src/commands/ambilight_capture.rs:1457-1466 | Nothing is cropped exactly when every edge has a sample above the black ceiling |
| BarCrops.OnlyAFlatEdgeRaisesTheThreshold | src-tauri/src/commands/ambilight_capture.rs:1457-1471 | The threshold is raised exactly for a flat edge close to it, and then to the margin above that edge |
| BlackBorders.CropOfDepth | src-tauri/src/commands/ambilight_capture.rs:1473-1484 | Rounding and the 0.40 cap only make a crop shallower, and keep it centred and inside the frame |
| BlackBorders.CropsAre | src-tauri/src/commands/ambilight_capture.rs:1473-1484 | Opposite crops are equal and leave at least one line between them |
| BlackBorders.CropKeepsThePicture | src-tauri/src/commands/ambilight_capture.rs:1381-1485 | A scanned line with picture is never cropped at the top, left or right, and at the bottom only where the band is one subtitle-shaped run |
| Frames.BoundsInFrame | src-tauri/src/commands/ambilight_capture.rs:1280-1294 | The content rectangle is never empty, and inside the frame exactly when the first inset leaves a line |
| Frames.HalfInsetsLeaveAOneLineFrame | src-tauri/src/commands/ambilight_capture.rs:1280-1294 | Insets of one half leave a one-line frame |
| Frames.NoInsetsKeepTheFrame | src-tauri/src/commands/ambilight_capture.rs:1280-1294 | No insets keep the whole frame |
| Downscale.LongestEdgeAfterDownscale | src-tauri/src/commands/ambilight_capture.rs:16-27 | A longest edge of 640 or more ends in 640 to 1279, at 640 exactly when 640 divides it |
| Downscale.SmallFramesAreKept | src-tauri/src/commands/ambilight_capture.rs:16-27 | A frame under 1280 keeps its size |
| Downscale.OutputPixel | src-tauri/src/commands/ambilight_capture.rs:54-78 | Output pixel (i, j) is source pixel (i s, j s) |
| Downscale.CapturedPixelsComeBack | src-tauri/src/commands/ambilight_capture.rs:42-78 | A source pixel is the captured one, its channels in their order and the fourth byte dropped |
| Downscale.SubsampleRgb | src-tauri/src/commands/ambilight_capture.rs:54-78 | Either loop writes ceil(w/s) times ceil(h/s) such pixels in row order |
| Downscale.FlatIsRows | src-tauri/src/commands/ambilight_capture.rs:62-65 | The stride-1 loop agrees with the strided one |
| SceneSymmetry.TurningARing | src-tauri/src/commands/ambilight_scene.rs:414-588 | Turning a closed ring of more than 10 (or at most 2) lights with its affinities turns the result and leaves the same memory |
| SceneSymmetry.MirroringAStrip | src-tauri/src/commands/ambilight_scene.rs:414-588 | Reversing any strip, open or closed, with its affinities reverses the result and leaves the same memory |
| SceneSymmetry.ProcessRelabels | src-tauri/src/commands/ambilight_scene.rs:414-588 | Any relabelling the sums do not notice relabels the result |
| SceneSymmetry.EachRingNeighbourOnce | src-tauri/src/commands/ambilight_scene.rs:515-529 | On a ring of more than 10 every light within 5 steps is visited once, and no other |
| SceneSymmetry.SmallRingIsTreatedAsOpen | src-tauri/src/commands/ambilight_scene.rs:515-529 | A ring of up to 10 has an open strip's neighbours |
| SceneSymmetry.RingTurnsExactlyWhenWideOrTrivial | src-tauri/src/commands/ambilight_scene.rs:515-529 | All lights of a ring have the same neighbourhood if and only if it has more than 10 lights or at most 2 |
| SceneSmallRings.RingResultsTurnExactly | src-tauri/src/commands/ambilight_scene.rs:414-588 | Turning a ring of n lights turns its result, for all curves, ambiences, colours and affinities, if and only if n is more than 10 or at most 2 |
| SceneSmallRings.ASmallRingDoesNotTurn | src-tauri/src/commands/ambilight_scene.rs:515-529 | For 3 to 10 lights: curves and one lit light whose turned result is not the turned one |
| SceneMath.DistanceIsSymmetric | src-tauri/src/commands/ambilight_scene.rs:156-163 | The perceptual distance is symmetric |
| SceneMath.NoDistanceExactly | src-tauri/src/commands/ambilight_scene.rs:156-163 | Lights are at no distance exactly if equally bright and either of one chroma or the darker is black |
| SceneMath.OnlyOneColourIsAtNoDistance | src-tauri/src/commands/ambilight_scene.rs:136-163 | Colours not near-black are at no distance exactly if they are the same colour |
| SceneMath.GreysHaveTheWhitePoint | src-tauri/src/commands/ambilight_scene.rs:134-146 | A grey has its level for luminance and white's chroma, to four places the one near-black is given |
| SceneMath.DistanceGrowsWithLuminance | src-tauri/src/commands/ambilight_scene.rs:156-163 | With the chroma part the same the distance orders pairs strictly as their luminance gap |
| SceneMath.DistanceGrowsWithChroma | src-tauri/src/commands/ambilight_scene.rs:156-163 | With the luminances the same and positive it orders pairs strictly as their chroma gap |
| SceneMath.TrustFollowsTheDarker | src-tauri/src/commands/ambilight_scene.rs:156-163 | Chroma counts for nothing exactly if the darker light is black and in full exactly from 0.20 of both |
| SceneMath.TrustGrows | src-tauri/src/commands/ambilight_scene.rs:159-159 | And the brighter the darker light, the more it counts |
| SceneMath.OneUnitApart | src-tauri/src/commands/ambilight_scene.rs:156-163 | A quarter of the luminance range, or 0.05 of trusted chroma, is one unit |
| SceneMath.MedianIsInTheMiddle | src-tauri/src/commands/ambilight_scene.rs:461-469 | The median is one of the differences, with at most half of them below it and less than half above |
| SceneMath.MedianIgnoresOrder | src-tauri/src/commands/ambilight_scene.rs:462-470 | The selected median depends on the differences only, not on their order |
| SceneMath.SmoothStepEnds | src-tauri/src/commands/ambilight_scene.rs:148-151 | The step stays in the unit interval and reaches its ends exactly at its bounds |
| SceneMath.EaseRises | src-tauri/src/commands/ambilight_scene.rs:148-151 | Between its bounds the step rises strictly |
| SceneMath.EaseIsFlatAtItsEnds | src-tauri/src/commands/ambilight_scene.rs:148-151 | And it leaves and reaches its ends flat, unlike a straight line |
| SceneColour.MeansStayBetweenTheLights | src-tauri/src/commands/ambilight_scene.rs:497-554 | Each channel of a light's wide mean and its narrow luminance lie between the least and the greatest of the set, in every topology |
| SceneGroups.MeansStayWithTheirOwn | src-tauri/src/commands/ambilight_scene.rs:497-554 | A light's means lie between the extremes of the lights like it, up to the weight the unlike ones can add up to |
| SceneContrast.GroupsDoNotMix | src-tauri/src/commands/ambilight_scene.rs:414-588 | In the whole call: if every light not of a light's colour weighs at most e on it, its means are that colour up to e for each in reach, in every topology |
| SceneContrast.SeparateGroupsKeepTheirColours | src-tauri/src/commands/ambilight_scene.rs:414-588 | And where the range kernel does not join them at all, each light shows exactly its own colour leaned on the ambience |
| SceneContrast.DistanceSeparates | src-tauri/src/commands/ambilight_scene.rs:501-512 | Lights at least so far apart are as separate as the kernel makes that distance |
| SceneContrast.NeighboursPull | src-tauri/src/commands/ambilight_scene.rs:497-554 | On a strip a light's wide mean exceeds the least of the set in a channel exactly if the light does or some neighbour that counts does |
| SceneContrast.WhoCounts | src-tauri/src/commands/ambilight_scene.rs:501-512 | A neighbour counts exactly if both its place and its colour give it weight |
| SceneContrast.GapsFollowDistances | src-tauri/src/commands/ambilight_scene.rs:437-460 | Gaps close exactly with the distance and order pairs as it does |
| SceneContrast.SigmaFollowsTheMedian | src-tauri/src/commands/ambilight_scene.rs:470-477 | A fresh separation scale is twice the median between its bounds, at each bound exactly from 0.175 down and 1.5 up |
| SceneContrast.SigmaMovesTowards | src-tauri/src/commands/ambilight_scene.rs:470-477 | A carried scale moves towards that, never past it |
| SceneContrast.ALoneLight | src-tauri/src/commands/ambilight_scene.rs:432-477 | A set of one light has a median of 0 and starts from the least scale |
| SceneContrast.LeanFallsWithContrast | src-tauri/src/commands/ambilight_scene.rs:561-562 | The lean falls strictly from its maximum, exactly at no contrast, to its minimum, exactly at full contrast |
| SceneContrast.FullLeanIsNoContrast | src-tauri/src/commands/ambilight_scene.rs:555-562 | The call leans in full exactly if no light can be told from the ambience |
| SceneColour.FilteredHasTheNarrowLuminance | src-tauri/src/commands/ambilight_scene.rs:569-577 | Unless it is black a filtered light has exactly the narrow mean's luminance |
| SceneColour.NeighboursCountLess | src-tauri/src/commands/ambilight_scene.rs:501-512 | A neighbour never outweighs the light itself, and pulls on luminance no harder than on colour |
| SceneColour.OwnColourCounts | src-tauri/src/commands/ambilight_scene.rs:515-529 | All neighbours of a strip light together weigh at most 10 times its own weight |
| SceneColour.UniformSetFiltersToItself | src-tauri/src/commands/ambilight_scene.rs:497-577 | Lights of one colour filter to that colour |
| SceneColour.TheAmbienceIsAFixedPoint | src-tauri/src/commands/ambilight_scene.rs:538-588 | Lights that all show the ambience keep it, before quantisation |
| SceneColour.OnlyFarLightsShowTheAmbience | src-tauri/src/commands/ambilight_scene.rs:578-584 | A light shows exactly the ambience if and only if its affinity is 0 or its filtered colour is the ambience already |
| SceneColour.FarLightsShowTheAmbience | src-tauri/src/commands/ambilight_scene.rs:538-588 | Affinity 0 gives the ambience in every call |
| SceneColour.AffinitiesAreHeldToTheUnit | src-tauri/src/commands/ambilight_scene.rs:575-575 | A light has the affinity listed, held to the unit interval, and 1 past the list |
| SceneColour.BlendGoesTheLean | src-tauri/src/commands/ambilight_scene.rs:576-581 | A light ends between its filtered colour and the ambience, exactly the lean of the way on the screen and all the way far from it |
| SceneFilter.SigmaStaysBounded | src-tauri/src/commands/ambilight_scene.rs:471-480 | The separation scale stays in 0.35 to 3, so nothing divides by zero |
| SceneFilter.ProcessIs | src-tauri/src/commands/ambilight_scene.rs:414-588 | The passes put together are the whole call |
| SceneObserver.TargetIsNoBrighter | src-tauri/src/commands/ambilight_scene.rs:81-95 | The ambience target is a colour no brighter than the plain mean, equally bright if and only if no channel would clip |
| SceneObserver.TargetKeepsTheHue | src-tauri/src/commands/ambilight_scene.rs:81-95 | It has the hue of the weighted mean, and is dimmer than the plain mean only when one of its channels is full |
| SceneObserver.TargetOfOneColour | src-tauri/src/commands/ambilight_scene.rs:81-95 | When both means agree the target is that colour |
| SceneObserver.AlphaIsBounded | src-tauri/src/commands/ambilight_scene.rs:359-361 | The rate lies between three tenths of the ceiling and the ceiling, at the ceiling exactly on a hard change and at the floor exactly in stillness |
| SceneObserver.EverySampleCountsOnce | src-tauri/src/commands/ambilight_scene.rs:300-333 | Every sample is counted once, in one bin, with weight at least one |
| SceneObserver.MeansStayBetweenTheSamples | src-tauri/src/commands/ambilight_scene.rs:300-333 | Both means of a frame lie between its least and greatest samples |
| SceneObserver.ChangeIsTheMovedShare | src-tauri/src/commands/ambilight_scene.rs:335-346 | Between frames of equally many samples the change is the share that left its bin, and needs no clamp |
| SceneObserver.NoChangeExactlyWhenTheSameHistogram | src-tauri/src/commands/ambilight_scene.rs:335-346 | No change if and only if the histogram is the previous one or there is none to compare |
| SceneCuts.BinsAreColourCells | src-tauri/src/commands/ambilight_scene.rs:322-325 | Two colours share a bin exactly if each channel of theirs lies in the same quarter of its range |
| SceneCuts.TheHistogramCounts | src-tauri/src/commands/ambilight_scene.rs:295-333 | Each bin holds the number of samples in its cell |
| SceneCuts.TheGridIsSampled | src-tauri/src/commands/ambilight_scene.rs:298-333 | The samples of a complete frame are the pixels at every eighth row and column of its content, row by row |
| SceneCuts.WindowSamplesCount | src-tauri/src/commands/ambilight_scene.rs:298-333 | And there are as many of them as that grid has places |
| SceneCuts.WholeChangeExactly | src-tauri/src/commands/ambilight_scene.rs:335-346 | Between frames of equally many samples the change is whole exactly if no sample of one shares a cell with a sample of the other |
| SceneCuts.AHardCutIsFollowedAtOnce | src-tauri/src/commands/ambilight_scene.rs:282-361 | After any run such a cut measures a change of 1, and the rate is the clamped ceiling exactly unless the frame before was as hard a cut and the release lets go of all but a trace of it |
| SceneCuts.ColourWeighsMore | src-tauri/src/commands/ambilight_scene.rs:316-317 | A sample weighs 1 exactly if grey, 3 exactly at full saturation, and more the wider its channels are apart |
| SceneCuts.SaturationIsTheWidestGap | src-tauri/src/commands/ambilight_scene.rs:316-316 | The spread is the widest gap between two channels |
| SceneObserver.ObserveKeepsSound | src-tauri/src/commands/ambilight_scene.rs:282-382 | Every observed frame keeps ambience and mean in the unit cube and the envelope in the unit interval |
| SceneRuns.EveryRunIsSound | src-tauri/src/commands/ambilight_scene.rs:282-382 | So every run does |
| SceneRuns.AlphaFollowsTheLastCeiling | src-tauri/src/commands/ambilight_scene.rs:282-382 | After any run ending in a frame the rate is between three tenths of that frame's clamped ceiling and the ceiling |
| SceneRuns.AMovedCropIsNoChange | src-tauri/src/commands/ambilight_scene.rs:263-265 | Once the crop has moved the next frame reads as no change |
| SceneRuns.EnvelopeCoversExactly | src-tauri/src/commands/ambilight_scene.rs:354-358 | After any run ending in a frame the envelope covers that frame's change if and only if the change exceeds the envelope before, or that envelope's release has not fallen below it |
| SceneRuns.ARepeatedCutIsNotCovered | src-tauri/src/commands/ambilight_scene.rs:335-361 | It is not a maximum: in any flicker between two frames every frame changes by the same share, and from the third on every other one leaves the envelope below it, exactly if the retention is below one |
| SceneRuns.BarsDoNotCount | src-tauri/src/commands/ambilight_scene.rs:300-333 | What is shown in the bars has no part in the statistics |
| SceneRuns.RunOfOneColour | src-tauri/src/commands/ambilight_scene.rs:282-382 | Over any run of frames of one colour the ambience is that colour |
| SceneRuns.APictureOfOneColourIsLeftAlone | src-tauri/src/commands/ambilight_scene.rs:282-588 | End to end: while the picture is of one colour, lights showing it keep exactly it until quantised |
| SceneStage.SceneAnalyzer.ObserveFrameAfter | src-tauri/src/commands/ambilight_scene.rs:282-382 | The method does what the specification says of the frame's statistics |
| SceneStage.SceneAnalyzer.Measure | src-tauri/src/commands/ambilight_scene.rs:295-333 | The stepping loops compute the statistics of exactly the sampled pixels, histogram included |
| SceneStage.SceneAnalyzer.Difference | src-tauri/src/commands/ambilight_scene.rs:338-343 | The summed bin differences |
| SceneStage.SceneAnalyzer.ResolveAlpha | src-tauri/src/commands/ambilight_scene.rs:350-361 | Instant attack, slow release, and the rate from there |
| SceneStage.SceneAnalyzer.ForgetPreviousFrame | src-tauri/src/commands/ambilight_scene.rs:263-265 | Forgets the histogram and nothing else |
| SceneStage.SceneAnalyzer.CollectAdjacent | src-tauri/src/commands/ambilight_scene.rs:437-460 | The loops collect every adjacent difference of the topology, in order |
| SceneStage.SceneAnalyzer.Relate | src-tauri/src/commands/ambilight_scene.rs:482-554 | The bilateral pass leaves every light's means in the scratch buffers |
| SceneStage.SceneAnalyzer.MeasureSpread | src-tauri/src/commands/ambilight_scene.rs:560-566 | The mean distance of the lights to the ambience |
| SceneStage.SceneAnalyzer.ProcessLights | src-tauri/src/commands/ambilight_scene.rs:414-588 | Recolours the array in place and updates the set's memory exactly as the specification says |

## Left out

- Floating point: every `f32` is a real, so rounding, overflow and NaN are not modelled. The fixed
  points of the scene stage are therefore stated before quantisation.
- The exact sRGB, `exp`, `sqrt`, `rate_for_interval` and `retention_for_interval` curves: only their
  ranges, and that `exp` and `sqrt` rise, are used.
- WirePackets.EncodeLumaSync: pixels come already corrected, and the brightness as its byte.
- LedSequence, Sampling and Downscale counts: sums and indices are unbounded; the u32 sums of a window
  and `usize` overflow are not modelled. The u16 pitch overflow of the stand gap is, as `Fits`.
- SerialWatcher.SerialWatch.Poll: the names in an event are sets, so the alphabetical order in which the
  source lists them is not stated, and lost ports are let go of in any order.
- SceneFilter.ProcessIs: which element a partial selection moves where inside the scratch buffer is not
  modelled; only the selected median is.
- Tray.TrayState.UpdateModes: a failed post to the main thread, and a redraw that fails for one item,
  are only logged by the source and do not happen here.
- ShutdownProtocol.ShutdownIsOrderly: the installer plugin's own way of ending the process after
  `cleanup_before_installer`, a spawn failure of the inner cleanup threads beyond a closed channel, and
  signals are outside the machine.
- PortGate.Connect: messages, status codes, time stamps and the registry write around the blocking core
  are left out, as is the bootloader settle delay.
- HandshakeReader.PerformHandshake: reads return at most 16 bytes, as the source's buffer holds; the
  serial driver behind `read_with_timeout` is a script.
- `wait_for_cleanup` on its condition variable appears as the step that ends a hold, with the clock.
- Platform capture, stream lifetimes, window exclusion, display selection and the frame mailbox.
- The smoothers after the scene stage, presets, effects, and every Hue or WLED network call.
- Logging, telemetry, serialisation and user-facing texts.
- `wire_duration`, `link_max_fps`, `downscale_log_due`, `hue_default_screen_affinity`: one expression each.
