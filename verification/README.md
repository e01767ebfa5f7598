# Verification model of the ClawMast supervisor, updater and poller

ClawMast runs a supervisor (`clawmastd`) that spawns a worker (`clawmast`), restarts it with back-off, watches
fresh installs, and rolls back by exchanging two symbolic links. The worker updates itself beside it: it stages
a version directory, rotates the same links, leaves a marker for the supervisor and may write the same
blacklist. A third part, the openclaw Manager, polls a gateway from overlapping goroutines and heals it when it
stays down.

The project models these three as they are written and proves what they promise over whole runs.

- `Disk` is the install root: links, version directories, marker and blacklist file. Every system call is one
  step that may fail, so a run can stop between any two of them.
- `Backoff`, `CrashTracker`, `Gate`, `Session`, `Symlinks`, `Blacklist`, `SelfUpdate` and `Notify` each hold one
  component: a class or methods that change state as the source does, tied by their contracts to functions
  over values, and the lemmas about those functions.
- `Machine` puts supervisor, worker and disk together as one transition system. The environment's part of a
  step (exits, messages, clock readings, failing calls, installs, restarts) is a `Choice`; a run is any sequence
  of choices. A worker can be killed at any step of an install or of a blacklist save, and a supervisor without
  a live worker can die and be started again at any step, also in the middle of a swap.
- `Supervisor` is the object of the source with its loop. Its ghost `world` is the run of the choices made so
  far; every method keeps gate, tracker, ledger, worker and root equal to what that run says, and names the
  choices it adds. What the environment has in store for an iteration (answers of reads, clock readings, the
  events and worker moves of a session, and which of the calls that write fail) is a `Round` the methods are
  given, so that a method's result is a function of its inputs; only the jitter of a delay is drawn.
- `SpawnSafety`, `LinkSafety`, `Rollouts`, `Installs`, `LedgerReplay` and `GateAccounting` state the whole-run
  results; `Guarantees` draws from them what holds of every `Supervisor` object (its ledger, tracker and root),
  and what its methods get done when calls do not fail.
- `ConcurrentSaves` takes two saves of the blacklist apart whose calls interleave, down to the file a writer still
  holds open when the other one has removed its name.
- `Openclaw` models the Manager. Its ghost history holds every start stamp, action, intent and commit in order; the
  class invariant says that each stored field equals its plain definition over the commits, whatever snapshot a
  commit was built on, and that each commit saw the latest intent, action and stamp there were to see.

Notify messages carry no sender. A READY in a session's events may therefore come from an earlier worker whose
datagram was still queued (`internal/supervisor/notify.go:60`), and every result about sessions covers that.
A late tick may pass after the deadline, because stability is tested first
(`internal/supervisor/healthgate.go:149-158`); the results on timeouts allow for it.

## Where code and comments disagree

The model follows the code.

- `internal/supervisor/backoff.go:47-52` writes the delay as base * 2^n with n = 1 for the first retry; the code
  shifts by n - 1. The jitter is said to lie in [0.8, 1.2); the draw only yields 0.8, 0.9, 1.0 and 1.1.
- `internal/selfupdate/rotate_unix.go:26-42` says that `current` is updated first and that a failure in between
  leaves `previous` stale. The code writes `previous` first and removes `current` before writing it, so a
  failure in between leaves `current` as it was, or missing.
- `internal/blacklist/blacklist.go:12-19` says that the worker is the only writer. The supervisor writes too
  (`internal/supervisor/supervisor.go:244`); the list is still safe because it does so only while no worker lives.
- `internal/blacklist/blacklist.go:76-80` says that O_EXCL keeps two concurrent writers from racing on the
  temporary name. The remove before the create takes the other writer's file away, and both go on
  (`ConcurrentSaves.LastRenameDecides`, `ConcurrentSaves.TornByOverlap`).
- `internal/openclaw/poller.go:262-271` says that a momentary PID of 0 does not restart the uptime. It does.
- `internal/selfupdate/install_unix.go:24-28` says that a failure before the rename leaves the staging directory
  for inspection; a failed extraction removes it.

## Model

| member | source | states |
|---|---|---|
| `SpawnSafety.NoBlacklistedSpawn` | internal/supervisor/loop.go:37-47 | in every run, with kills, failures and restarts anywhere, no spawn event carries a version that is on the blacklist at that moment (the list and the label being readable) |
| `SpawnSafety.ListedIsNeverSpawned` | internal/supervisor/supervisor.go:160-190 | once a version is listed it never appears in a later spawn event: not in later iterations, not after restarts of the supervisor, not after being installed again |
| `SpawnSafety.FailedInstallNeverReturns` | internal/supervisor/supervisor.go:221-258 | a version whose gate failed and whose blacklist write committed is never spawned again |
| `SpawnSafety.BlacklistedPassesIff` | internal/supervisor/supervisor.go:167-190 | a listed `current` gets past the check iff the list is unreadable, or the label is unreadable and "." is not listed; otherwise a rollback starts |
| `SpawnSafety.BlacklistIsDurable` | internal/blacklist/blacklist.go:60-138 | in every run each reader finds a whole list with unique versions, no listed version is ever lost, and the supervisor writes only while no worker is alive |
| `SpawnSafety.StepKeepsList` | internal/blacklist/blacklist.go:64-138 | one step of anybody keeps the list file and every save in flight sound, and loses no version |
| `SpawnSafety.WorkerAddLists` | internal/blacklist/blacklist.go:112-138 | an add of the worker beside the supervisor: once its save has renamed the file, the list is the one it loaded with its record put in |
| `SpawnSafety.BootIsSound` | internal/supervisor/supervisor.go:64-67 | a fresh supervisor over a whole list satisfies the invariants the run results start from |
| `SpawnSafety.LedgerGrows` | internal/supervisor/supervisor.go:122-131 | a step appends at most two entries, removes none, and appends a spawn event only as the first entry of a spawn of the version that passed the checks |
| `LinkSafety.InstallIsSafeIff` | internal/selfupdate/install_unix.go:57-99 | an install can be killed at any call, with any calls failing, and never leave a link naming a missing or partial directory, iff no link names the version being installed |
| `LinkSafety.UnlinkedInstallKeepsLinks` | internal/selfupdate/install_unix.go:62-99 | at every point of an install of an unlinked version all three links name fully promoted directories |
| `LinkSafety.LinkedInstallBreaksLink` | internal/selfupdate/install_unix.go:87-91 | for any link that names the version, a kill while the old directory is removed leaves that link dangling |
| `LinkSafety.LinksAreAlwaysComplete` | internal/selfupdate/install_unix.go:62-99 | over whole runs of supervisor and worker, kills in mid-install and mid-swap included, every link names a whole version and every spawn starts one, if installs are of unlinked versions |
| `LinkSafety.SwapStepKeepsLinks` | internal/supervisor/symlinks.go:66-83 | no rename or remove of a swap makes a link name anything that no link named before |
| `Installs.InstallTransaction` | internal/selfupdate/install_unix.go:57-123 | from the moment a worker without a gate starts to install v, with session events, adds and failing calls between its calls, through the old exit below the crash cap and the spawn of v within the window counted from the install's earliest clock reading: any crash, spawn failure or timeout before the gate passes ends with `current` back, v as `previous` and listed, no marker, gate off, tracker empty, one rollback event |
| `Installs.CompletedInstallIsInstalled` | internal/selfupdate/install_unix.go:57-123 | an install begun and completed in a session, whatever interleaves, leaves `current` at v, `previous` at what it was, and the marker waiting, stamped between the bounds of the install's clock readings |
| `Installs.InstallBeginsIff` | internal/selfupdate/install_unix.go:29-47 | the worker starts an install iff it has none in flight and the label is valid and not its own; that touches nothing on disk |
| `Installs.InstallRuns` | internal/selfupdate/install_unix.go:57-123 | at every point of such a session the install is in flight with the layout of its point, or landed as a rollback needs it with a marker stamped by one of its clock readings, or wrote no marker |
| `Rollouts.FailureUnderGateRollsBack` | internal/supervisor/supervisor.go:221-258 | the rest of the transaction from the old exit on |
| `Rollouts.InstallReachesItsGate` | internal/supervisor/loop.go:90-158 | the old worker's exit is counted as a crash; below the cap and inside the window the next spawn runs v with its gate armed until install time + window |
| `Rollouts.CrashCapUndoesTheInstall` | internal/supervisor/loop.go:103-109 | if that exit reaches the cap the same swap undoes the install: v becomes `previous`, is not listed, and its marker stays |
| `Rollouts.GateFailureRollsBack` | internal/supervisor/supervisor.go:221-258 | crash, timeout or spawn failure under v's gate, then no faults: blacklist, marker, gate, swap, tracker and ledger all end as the transaction says |
| `Rollouts.GateFailureIsListed` | internal/supervisor/loop.go:65-98 | each of the three gate failures leads to a blacklist save that contains v |
| `Rollouts.FailureIsHandled` | internal/supervisor/supervisor.go:237-257 | with any faults, up to the swap: the gate is off, links, tracker and ledger are untouched, v is listed iff it was before or load and save succeeded, and the marker is gone iff it was absent or its delete succeeded |
| `Rollouts.RecoveryIff` | internal/supervisor/supervisor.go:196-219 | after such a rollback some run has a live worker again iff the version gone back to is not itself listed (the swap never looks) |
| `Rollouts.AppliedIsInstalled` | internal/selfupdate/install_unix.go:92-123 | an Apply that runs alone on its disk, reads `current` and reports success leaves the layout the rollback starts from, with a marker stamped between the bounds of its clock readings |
| `Rollouts.SwapUndoesRotation` | internal/supervisor/symlinks.go:38-85 | a completed swap after a completed rotation restores the old `current` and makes the new version `previous` |
| `Rollouts.SessionRunLeavesInstall` | internal/supervisor/loop.go:247-364 | whatever a session receives and its worker blacklists (other than v), the installed layout stays as it is until the gate passes |
| `Rollouts.PassDropsForeignMarker` | internal/supervisor/loop.go:290-296 | a pass deletes whatever marker is on disk, and the next prepareGate arms nothing: an install made under another version's gate loses its window |
| `Rollouts.GateArmsIff` | internal/supervisor/loop.go:130-158 | the gate arms iff a readable marker names the version about to run and its window is open; a foreign or stale marker is removed, an unreadable one is left alone, and nothing else changes |
| `Rollouts.OneSwapSuffices` | internal/supervisor/loop.go:33-45 | with distinct slots, a readable list and one of the two unlisted, the loop passes its check with no swap if `current` is unlisted, with one rollback event otherwise |
| `Rollouts.ProgressIff` | internal/supervisor/loop.go:33-47 | from the top of the loop some run spawns a worker iff one of the two slots is unlisted |
| `Rollouts.NeverPastTheCheck` | internal/supervisor/supervisor.go:181-212 | with both slots listed no number of iterations, failures or restarts ever gets past the check |
| `Rollouts.CleanSwapRuns` | internal/supervisor/supervisor.go:196-209 | a rollback without faults exchanges the links, clears the tracker and records one rollback event, and changes nothing else |
| `LedgerReplay.SpawnsAreClosedOnce` | internal/supervisor/loop.go:189-399 | over any history file: between two consecutive spawn events that one supervisor life wrote there is exactly one crash or stop event |
| `LedgerReplay.LifeReads` | internal/supervisor/loop.go:189-308 | over any history file: at every point of a life what it has written reads as alternating spawns and ends, open exactly while a session is live |
| `LedgerReplay.HistoryIsKept` | internal/supervisor/loop.go:122-131 | a life leaves the history file it found as it is and appends what it would have written over an empty one: the machine never reads its ledger |
| `LedgerReplay.CountClosers` | internal/supervisor/loop.go:249-308 | in any ledger that reads so, the entries after a spawn hold exactly the closers its reading calls for |
| `LedgerReplay.SpawnVersionIsParity` | internal/supervisor/supervisor.go:196-209 | over any history file, in a life without installs each of its spawns runs the initial `current` if an even number of its rollback events precedes it, the initial `previous` otherwise |
| `LedgerReplay.RunFollows` | internal/supervisor/supervisor.go:196-209 | the links follow the parity of the rollback events at every point, the inside of a swap included |
| `LedgerReplay.NoTargetNoRollback` | internal/supervisor/supervisor.go:210-219 | over any history file, without a distinct `previous` and without installs, no run adds a rollback event or touches the links, restarts included |
| `GateAccounting.DecisionsAreCovered` | internal/supervisor/loop.go:65-101 | if marker deletes succeed, a run makes at most as many gate decisions as markers were published, plus one for a marker found at the start |
| `GateAccounting.SupervisorListsOnlyTheGated` | internal/supervisor/supervisor.go:243-257 | a step of the supervisor adds at most one version to the list: one whose gate it armed at an exhibited step of that same iteration, and which failed while that gate was watching without a break |
| `GateAccounting.FailureWasWatched` | internal/supervisor/loop.go:65-101 | whenever a gate watches, or its failure is dealt with, the run holds the prepareGate step of the same iteration that armed it for that version, and the gate has watched it at every point since |
| `GateAccounting.MarkerKeptIff` | internal/supervisor/supervisor.go:253 | a marker published during a session is still there at the next prepareGate, if deletes succeed, iff the gate of that session made no decision in between |
| `GateAccounting.RunBalances` | internal/supervisor/loop.go:290-308 | the balance of decisions and outstanding markers against published ones holds at every point of a run |
| `GateAccounting.DelayIsBelowCap` | internal/supervisor/loop.go:103-115 | with CrashCap >= 1 every loop head has fewer crashes than the cap, and Delay is only called with 1 <= n < CrashCap |
| `GateAccounting.NewCrashIsInWindow` | internal/supervisor/backoff.go:97-111 | a crash just recorded is in its own window |
| `Session.TimersAndLedger` | internal/supervisor/loop.go:226-365 | at every select: gate timer armed iff the gate is active and never before its decision point, start timer iff Starting, watchdog iff Running; a session that is over wrote exactly one closing entry |
| `Session.EndIsDecided` | internal/supervisor/loop.go:247-314 | an event ends a session iff it is a shutdown, an exit, a start timer before READY, an armed watchdog, or a gate timer that finds the window over and no READY stable; the verdict is the one of the exit table, and one ledger entry records the event with its exit code |
| `Session.VerdictHasCause` | internal/supervisor/exitcode.go:90-108 | over whole sessions: the first event that ends one decides it: no-restart iff the worker exits by itself with 64, rollback iff with 65, a crash for every other exit (a clean one and a signal included) and both other timers, stopped iff a shutdown came |
| `Session.FirstReadyCounts` | internal/supervisor/loop.go:320-347 | at every point of a session the first READY, and no later one, has started the steady period of the tracker and the stability period of the gate, each at its own clock reading, and a gate that has passed is off |
| `Session.PendingIsNeverTaken` | internal/supervisor/loop.go:309-312 | a gate timer that does not fire early never finds Pending |
| `Session.GateDecidedInTime` | internal/supervisor/loop.go:237-347 | with timers at most `lag` late, an event after max(deadline, session start, READY + 10 ms) + lag finds the gate decided or the session over |
| `Session.HungWorkerIsCaught` | internal/supervisor/loop.go:268-281 | with such timers no session outlives its start timeout without READY, nor its watchdog interval after the last sign of life |
| `Session.HealthTimeoutIsLate` | internal/supervisor/loop.go:297-308 | a health timeout comes only from the gate timer, at or after the deadline of a gate that was active |
| `Session.GateOnlyReadies` | internal/supervisor/loop.go:319-347 | during a session the gate keeps its version and deadline, and an inactive gate never becomes active |
| `Supervisor.Supervisor.constructor` | internal/supervisor/supervisor.go:48-59 | a new supervisor stands at the start of a run over the root it is given |
| `Supervisor.Supervisor.Loop` | internal/supervisor/loop.go:32-120 | for every sequence of rounds the object ends in exactly the world the rounds lead to (gate, tracker, ledger, worker, root), a function of what events, reads and failing calls they hold; it stops early only by returning or when a session outlasts its script, and every choice it makes is one a round has in store |
| `Supervisor.Supervisor.Iterate` | internal/supervisor/loop.go:33-119 | the world after one iteration is the one its round leads to: resolve, and unless that returns or rolls back, gate, spawn, session, outcome and sleep |
| `Supervisor.Supervisor.ResolveWorker` | internal/supervisor/loop.go:34-45 | the version to prepare, the loop's exit, or the top of the loop after a completed swap, exactly as the round's reads and swap faults have it |
| `Supervisor.Supervisor.CheckBlacklist` | internal/supervisor/supervisor.go:167-190 | no version comes back iff the list was read and contains it, and then the links are those of a whole swap under the round's faults; otherwise the version comes back and the links are untouched |
| `Supervisor.Supervisor.IsBlacklisted` | internal/supervisor/supervisor.go:167-183 | true iff a readable list contains the version |
| `Supervisor.Supervisor.PrepareGate` | internal/supervisor/loop.go:130-158 | gate and marker file are exactly those of the machine's gating step on the round's read, clock and delete |
| `Supervisor.Supervisor.RunOneSpawn` | internal/supervisor/loop.go:189-365 | the spawn of the round, then its events and worker moves one by one until the session ends; world and verdict are the machine's on that script, the verdict is the one caused by the event that ended the session, no exit and no shutdown goes unnoticed, and a failed spawn writes a spawn event and a crash event with code 71 |
| `Supervisor.Supervisor.EventLoop` | internal/supervisor/loop.go:247-364 | the loop over the script stops at the first event that ends the session, with the verdict it causes, and the rest of the script would have changed nothing |
| `Supervisor.Supervisor.BeginSession` | internal/supervisor/loop.go:189-245 | the spawn event, then either a failed spawn or a session whose timers the session model starts with |
| `Supervisor.Supervisor.StartWorker` | internal/supervisor/loop.go:217-245 | start timer from birth, gate timer from NextWake iff the gate is active, watchdog off |
| `Supervisor.Supervisor.Select` | internal/supervisor/loop.go:247-363 | the received event is taken as the machine takes it; it ends the session iff it is one that does, with the verdict and the one ledger entry of that event, and otherwise writes nothing |
| `Supervisor.Supervisor.OnGateTimer` | internal/supervisor/loop.go:283-313 | the gate timer's event, with the delete of a pass failing or not as given, is taken as the machine takes it: a timeout ends the session, otherwise it goes on |
| `Supervisor.Supervisor.AfterTick` | internal/supervisor/loop.go:290-312 | the same for a tick that does not time out: a pass turns gate and timer off and deletes the marker unless that delete fails, Pending re-aims the timer |
| `Supervisor.Supervisor.OnStartTimer` | internal/supervisor/loop.go:268-274 | ends a session that is still Starting as a crash, and changes nothing else otherwise |
| `Supervisor.Supervisor.OnWatchdog` | internal/supervisor/loop.go:276-281 | an armed watchdog ends the session as a crash |
| `Supervisor.Supervisor.WorkerMoves` | internal/selfupdate/install_unix.go:57-123 | a move of the worker on the shared root is the machine's |
| `Supervisor.Supervisor.OnMessage` | internal/supervisor/loop.go:315-362 | the loop over the keys of a message takes the machine's step on that message |
| `Supervisor.Supervisor.OnNotice` | internal/supervisor/loop.go:319-361 | READY, WATCHDOG and STOPPING change tracker, gate and timers as the session model says |
| `Supervisor.Supervisor.ClassifyOutcome` | internal/supervisor/loop.go:378-399 | exactly one crash entry with the exit's code and class, the verdict of the class, and the session over |
| `Supervisor.Supervisor.HandleOutcome` | internal/supervisor/loop.go:51-118 | every outcome of a spawn leads where the machine goes: back to the top, out of the loop, or to a back-off with the tracker's count |
| `Supervisor.Supervisor.HandleSpawnFailure` | internal/supervisor/loop.go:70-89 | gate active: install-health path; otherwise the spawn-failed rollback |
| `Supervisor.Supervisor.HandleCrash` | internal/supervisor/loop.go:90-114 | an active gate takes precedence over the crash budget |
| `Supervisor.Supervisor.CountCrash` | internal/supervisor/loop.go:103-114 | the crash is counted; at the cap a rollback, below it the number of crashes for the delay |
| `Supervisor.Supervisor.RollbackForInstallHealth` | internal/supervisor/supervisor.go:243-258 | list, marker, gate and swap in this order, each under the round's faults for it, and no failed step keeps the next from running; the world after is exactly that |
| `Supervisor.Supervisor.AddToBlacklist` | internal/supervisor/supervisor.go:244-252 | load, extend and save under the round's faults, from the failed gate to the marker's delete whatever came of them |
| `Supervisor.Supervisor.SaveList` | internal/supervisor/supervisor.go:243-252 | the list file is the one a save under the round's faults leaves |
| `Supervisor.Supervisor.DropMarker` | internal/supervisor/supervisor.go:253-256 | the marker is gone unless its delete fails, and the gate is off |
| `Supervisor.Supervisor.Rollback` | internal/supervisor/supervisor.go:196-219 | goes on iff there are two distinct targets and no call of the swap fails: links exchanged, tracker cleared, rollback event; returns code 65 iff the reads find no second target: one stop event, links and tracker untouched; an error otherwise, with nothing recorded |
| `Supervisor.SwapOutcome` | internal/supervisor/supervisor.go:196-219 | the three ways a rollback ends, each with its exact condition and effect |
| `Supervisor.Supervisor.BackOff` | internal/supervisor/loop.go:110-117 | sleeps for the delay of exactly the tracker's crash count, then the next loop head, or a return iff cancelled |
| `Guarantees.NoListedSpawn` | internal/supervisor/supervisor.go:160-190 | no version that was listed at some point of an object's life is in a later spawn event of its ledger, and it still is on the list in its root |
| `Guarantees.NoListedSpawnInRounds` | internal/supervisor/supervisor.go:160-190 | the same from the inputs of the loop: for an object that has lived on rounds in which list and label can be read |
| `Guarantees.TopOfTheLoop` | internal/supervisor/loop.go:33-47 | case by case: a cancelled context and a missing `current` end the loop, a listed version is rolled back as asked, any other is the one to spawn; an unreadable list blocks nothing |
| `Guarantees.OneSwapPastTheListedIff` | internal/supervisor/supervisor.go:160-219 | from the top of the loop with a listed `current` and a distinct unlisted `previous`: the iteration swaps and is back at the top iff none of the six calls of its swap fails, and then the next one gets to `previous` |
| `Guarantees.PassAListedCurrent` | internal/supervisor/supervisor.go:160-219 | an object whose calls do not fail gets past a listed `current` with one swap: exchanged links, fresh tracker, one rollback event, nothing else |
| `Guarantees.AddListsIff` | internal/supervisor/supervisor.go:243-252 | the failed version is listed iff the list could be read, every call of the save that matters succeeds and a stale temporary file, if any, could be removed |
| `Guarantees.RolledBackIff` | internal/supervisor/supervisor.go:221-258 | a failed gate of a fresh install ends in the rolled back layout iff none of the calls of list, marker and swap that matter fails |
| `Guarantees.OutcomeRollsBackIff` | internal/supervisor/loop.go:65-98 | the same from each of the three outcomes by which a watching gate fails |
| `Guarantees.UndoAFailedInstall` | internal/supervisor/loop.go:65-98 | an object whose calls do not fail undoes an install whose gate failed and is back at the top of its loop: links, list, marker, gate, tracker and ledger |
| `Guarantees.FailureIsOnRecord` | internal/supervisor/supervisor.go:243-250 | the list holds the failed version with the time of listing and the label of how it failed: crash, timeout or spawn failure |
| `Guarantees.RequestIsGranted` | internal/supervisor/supervisor.go:138-219 | a worker's request, a failed spawn outside a gate, and the crash cap lead to a rollback: the loop is back at the top, with exchanged links, a fresh budget and a rollback event naming the reason, iff there are two distinct targets and no call of the swap fails; code 65 and a stop event iff there is no second target |
| `Guarantees.OtherOutcomes` | internal/supervisor/loop.go:51-62 | a shutdown returns nil and changes nothing, exit 64 returns code 64 with one stop event, a crash below the cap outside a gate is counted and backs off; links, list and marker stay |
| `Guarantees.ExitPolicy` | internal/supervisor/exitcode.go:84-108 | the exit table from the worker's exit to what the loop does: 64 stops, 65 rolls back, everything else fails a watching gate or is counted: back-off below the cap, rollback at it |
| `Guarantees.GrantARollback` | internal/supervisor/supervisor.go:138-209 | an object asked for a rollback whose calls do not fail makes it and is back at the top of its loop: links, tracker, gate and ledger |
| `Guarantees.IterationSpawns` | internal/supervisor/loop.go:33-49 | an iteration that may look at an unlisted `current` spawns it: its spawn event is the next entry of the ledger, followed at once by a crash event with code 71 if the spawn fails |
| `Guarantees.LoopUnrolls` | internal/supervisor/loop.go:32-119 | the loop is its first iteration and then, iff that ends at the top, the loop over the rest |
| `Guarantees.ListIsWhole` | internal/blacklist/blacklist.go:60-138 | the list in an object's root is whole and its versions unique |
| `Guarantees.SpawnsClosedOnce` | internal/supervisor/loop.go:189-399 | whatever its history file held, between consecutive spawn events that an object wrote there is exactly one crash or stop |
| `Guarantees.RootLinksComplete` | internal/selfupdate/install_unix.go:62-99 | all links in an object's root name fully promoted directories, if its worker installed unlinked versions |
| `Guarantees.TrackerBelowCap` | internal/supervisor/loop.go:103-115 | at the top of its loop an object's tracker has fewer crashes than the cap |
| `Guarantees.GateWatchesTheWorker` | internal/supervisor/loop.go:130-158 | in a session an object's active gate watches the version that runs |
| `Guarantees.StrandedIff` | internal/supervisor/symlinks.go:63-84 | a supervisor killed in a rollback's swap and started again returns for want of `current` iff the swap had moved it aside and taken neither way back |
| `Supervisor.SwapInside` | internal/supervisor/supervisor.go:196-219 | any run of the swap, finished or not, is a run of the machine, wrapped up as rollback wraps it up |
| `Supervisor.SaveInside` | internal/supervisor/supervisor.go:243-252 | any run of the blacklist save, finished or not, is a run of the machine |
| `Symlinks.SwapCurrentPrevious` | internal/supervisor/symlinks.go:38-85 | for any given failures of its calls, links and result are those of the swap's run under them: swapped, with the links exchanged, iff the targets are distinct and none of the six calls fails; no target, with the links untouched, iff the reads find no second target |
| `Symlinks.ExchangeLinks` | internal/supervisor/symlinks.go:63-84 | from two distinct targets on: clear the temporary link, move `current` aside, finish; same contract |
| `Symlinks.FinishSwap` | internal/supervisor/symlinks.go:73-84 | the second and third rename with the attempt to put `current` back, each failing or not as given |
| `Symlinks.SwapSucceedsIff` | internal/supervisor/symlinks.go:38-85 | a swap reports success iff the two targets are distinct and none of its six calls fails, and then the links are exchanged |
| `Symlinks.RefusedIff` | internal/supervisor/symlinks.go:45-61 | "no rollback target" is the answer iff `current` is read as missing, or both reads go well and `previous` is missing or names the same target; the links are then untouched, however many calls were to follow |
| `Symlinks.SwapEnds` | internal/supervisor/symlinks.go:38-85 | whatever fails, a swap is over after at most six calls |
| `Symlinks.SwapKeepsBothTargets` | internal/supervisor/symlinks.go:26-85 | kill or failure anywhere: both old targets stay named, and `current` is missing only while it stands aside under the temporary name |
| `Symlinks.SwapLayouts` | internal/supervisor/symlinks.go:63-84 | the exact layout at each point of a swap |
| `Symlinks.CompletedSwap` | internal/supervisor/symlinks.go:38-85 | a swap that reports success exchanged two distinct targets and left no temporary link |
| `Symlinks.SwapIsItsOwnInverse` | internal/supervisor/symlinks.go:26-33 | two completed swaps restore the links |
| `Symlinks.SwapLosesCurrentIff` | internal/supervisor/symlinks.go:63-84 | a swap killed after any number of calls of which any failed leaves no `current` iff it had moved it aside and neither brought `previous` in nor put it back, read off the failures |
| `Symlinks.SwappedNeedsTargets` | internal/supervisor/symlinks.go:45-61 | without two distinct targets a swap changes nothing, and "no target" is reported only then |
| `SelfUpdate.RotateSymlinks` | internal/selfupdate/rotate_unix.go:43-80 | for any given failures of its calls, links and the three results are those of the rotation's run under them |
| `SelfUpdate.RotateLayouts` | internal/selfupdate/rotate_unix.go:49-79 | the exact layout at each point of a rotation; `previous` is written before `current` |
| `SelfUpdate.CompletedRotation` | internal/selfupdate/rotate_unix.go:43-80 | a rotation that reports success, whatever it found and could read: `current` names the version, `previous` the old target if that was another one and could be read, nothing else has changed, and before and previous are reported as found |
| `SelfUpdate.RotateKeepsOldTarget` | internal/selfupdate/rotate_unix.go:49-79 | kill or failure anywhere: the old target is still named by `current` or `previous`, and `current`, if present, names the old target or the new |
| `SelfUpdate.UnreadCurrentIsForgotten` | internal/selfupdate/rotate_unix.go:49-78 | if reading `current` fails, then at every point of the rotation, whichever later calls fail, the old target is still named iff `current` has not been removed yet or `previous` named it already |
| `SelfUpdate.RotationLosesCurrentIff` | internal/selfupdate/rotate_unix.go:43-79 | a rotation killed after any number of calls of which any failed leaves no `current` iff it had removed it and not written it again, read off the failures |
| `SelfUpdate.ReinstallOpensAGap` | internal/selfupdate/rotate_unix.go:62-77 | reinstalling the version `current` names, killed after its third call, leaves no `current` at all |
| `SelfUpdate.Apply` | internal/selfupdate/install_unix.go:29-123 | refuses the running version untouched; otherwise, for any given failures of its calls, the whole root changes as the run of Apply's calls under them, with success iff that run succeeds; then the reported targets are those of its rotation, and the marker is of the version, stamped with a clock reading of one of its calls |
| `SelfUpdate.Stage` | internal/selfupdate/install_unix.go:57-82 | directories up to a complete staging tree, or the end of the run in failure, as the given failures decide |
| `SelfUpdate.PromoteStaging` | internal/selfupdate/install_unix.go:84-94 | the stale target cleared, then the rename into place, or the end of the run in failure, as the given failures decide |
| `SelfUpdate.WriteGateMarker` | internal/selfupdate/install_unix.go:107-113 | the marker's calls, each failing or not as given, with the temporary file dropped when the rename fails; on success the marker of the version stands, stamped with the clock reading of the first of these calls |
| `SelfUpdate.RotationInside` | internal/selfupdate/install_unix.go:96-99 | the rotation's run is, call by call, a stretch of the install's run |
| `SelfUpdate.CurrentStaysComplete` | internal/selfupdate/install_unix.go:62-99 | installing a version other than `current`'s never lets `current` name a missing, half built or half removed directory, and never touches the links before the promotion |
| `SelfUpdate.MarkerIsAtomic` | internal/selfupdate/marker.go:42-72 | a reader sees the old marker until the install reports success and the whole new one after it |
| `SelfUpdate.MarkerIsStamped` | internal/selfupdate/install_unix.go:96-113 | a completed install leaves the marker of its version, stamped with the clock reading taken right after the rotation |
| `SelfUpdate.MarkerStampedWithin` | internal/selfupdate/install_unix.go:107-110 | so the stamp lies between the bounds of the clock readings of the calls |
| `SelfUpdate.InstallSucceedsIff` | internal/selfupdate/install_unix.go:57-123 | an install that is over has succeeded iff no call failed except reads of the old links, its own cleaning up, and the look for a leftover directory where there is none; then the version's directory is whole, staging directory and temporary marker are gone, and every other directory is as it was |
| `SelfUpdate.FailedExtraction` | internal/selfupdate/install_unix.go:74-82 | a failed extraction takes its staging directory along iff removing it does not fail, and has touched no link, marker or other directory |
| `SelfUpdate.FailedMarker` | internal/selfupdate/marker.go:62-71 | a marker that cannot be renamed into place is dropped iff that does not fail; the old marker, the rotated links and the new directory stay |
| `Blacklist.ContainsScan` | internal/blacklist/blacklist.go:140-154 | true iff some record has the version; the empty label is never contained |
| `Blacklist.UpsertScan` | internal/blacklist/blacklist.go:123-133 | the loop equals replacing the first record of the version in place, or appending |
| `Blacklist.UpsertVersions` | internal/blacklist/blacklist.go:105-138 | the versions after an add are the old ones and the new one |
| `Blacklist.UpsertKeepsOthers` | internal/blacklist/blacklist.go:105-138 | every other version keeps its record and its position |
| `Blacklist.UpsertKeepsUnique` | internal/blacklist/blacklist.go:105-138 | versions stay unique, and the list grows iff the version is new |
| `Blacklist.Save` | internal/blacklist/blacklist.go:64-103 | for any given failures of its calls, file, temporary file and result are those of the save's run under them |
| `Blacklist.FillAndCommit` | internal/blacklist/blacklist.go:84-102 | write, sync, close, rename, each failing or not as given; any failure removes the temporary file |
| `Blacklist.SaveIsAtomic` | internal/blacklist/blacklist.go:60-103 | kill or failure anywhere: the old file before the rename, the whole new list after it, success iff the new list is in place |
| `Blacklist.SaveSucceedsIff` | internal/blacklist/blacklist.go:64-103 | a save succeeds iff its directory, create, write, sync, close and rename calls do and a stale temporary file, if there is one, could be removed |
| `Blacklist.SaveLeavesNoTmpIff` | internal/blacklist/blacklist.go:78-102 | a save that made its temporary file leaves none behind unless it fails and the removal right after that fails too; one that did not get so far leaves only a stale one it could not remove |
| `Blacklist.Add` | internal/blacklist/blacklist.go:112-138 | succeeds iff the entry has a version, the list could be read and the save goes well; then the file holds the loaded list with the stamped record, otherwise it is as before |
| `Blacklist.CompletedAddLosesNothing` | internal/blacklist/blacklist.go:112-138 | an add that reports success adds one version, loses none, keeps versions unique |
| `Blacklist.OverlappingAddsKeepIff` | internal/blacklist/blacklist.go:119-137 | two adds that both load the same list before either saves, and then save one after the other: the second version is listed, the first survives iff it is the same one or was listed before |
| `ConcurrentSaves.AloneIsSave` | internal/blacklist/blacklist.go:64-103 | a writer that nobody disturbs does, call by call, what the save on its own does |
| `ConcurrentSaves.PublishesOwnIff` | internal/blacklist/blacklist.go:78-102 | two saves interleaved call by call: a rename that succeeds publishes its writer's own file iff the other writer has not taken the temporary name away since its create; otherwise it publishes the other's file |
| `ConcurrentSaves.NameStandsIff` | internal/blacklist/blacklist.go:78-80 | between its create and its rename the temporary name stands for a writer's file iff nobody has removed or renamed it since |
| `ConcurrentSaves.LastRenameDecides` | internal/blacklist/blacklist.go:64-103 | for any interleaving, kills and failures: after the last successful rename a reader gets that writer's list iff it was not disturbed; if it was, the other's list, or a torn file as long as the other has not written |
| `ConcurrentSaves.AddedIsListedIff` | internal/blacklist/blacklist.go:112-138 | of two adds that loaded the same list and saved in any interleaving, the exact condition under which the version of either one is listed in the end, whether or not it reported success |
| `ConcurrentSaves.NoRenameNoChange` | internal/blacklist/blacklist.go:98-102 | without a successful rename a reader gets the file from before |
| `ConcurrentSaves.TornByOverlap` | internal/blacklist/blacklist.go:78-102 | an interleaving without any failing call after which one save has reported success and the file is torn |
| `Gate.OneDecisionPerArming` | internal/supervisor/healthgate.go:103-167 | in any history of calls an arming lies before every decision and between any two |
| `Gate.PassMeansStable` | internal/supervisor/healthgate.go:147-153 | a pass: the first READY after the arming came at least stableFor ago, and no crash or reset since the arming |
| `Gate.TimeoutMeansLate` | internal/supervisor/healthgate.go:154-165 | a timeout: installed-at + window is over, no READY was stable yet, and the gate has failed for the reason timeout |
| `Gate.EarlyReadyNeverTimesOut` | internal/supervisor/healthgate.go:147-167 | once readyAt + stableFor <= deadline no later tick times out without a new arming |
| `Gate.WakeDecides` | internal/supervisor/healthgate.go:169-184 | waiting NextWake and ticking always decides, and no tick before the decision point does |
| `Gate.ActiveHasOrigin` | internal/supervisor/healthgate.go:103-126 | every active gate has the arming, deadline, version and first READY its state says |
| `Gate.OffUntilArmed` | internal/supervisor/healthgate.go:103-166 | a gate that is off stays off until armed |
| `Gate.CrashFailsTheWatchingIff` | internal/supervisor/healthgate.go:128-141 | in any history a crash is answered as such iff the gate is watching; it is failed then, for the reason crash, and decides nothing more until armed again |
| `Gate.HealthGate.constructor` | internal/supervisor/healthgate.go:87-95 | non-positive settings fall back to the defaults, the gate is off |
| `Gate.HealthGate.Arm` | internal/supervisor/healthgate.go:103-115 | the new state is the gate model's, and the answer is whether it is armed |
| `Gate.HealthGate.OnReady` | internal/supervisor/healthgate.go:120-126 | the new state is the gate model's |
| `Gate.HealthGate.OnCrash` | internal/supervisor/healthgate.go:134-141 | new state and answer are the gate model's |
| `Gate.HealthGate.Tick` | internal/supervisor/healthgate.go:147-167 | new state and answer are the gate model's |
| `Gate.HealthGate.NextWake` | internal/supervisor/healthgate.go:172-184 | the two-way choice of wake-up equals the distance to the decision point, never negative |
| `CrashTracker.TrackerIsWindow` | internal/supervisor/backoff.go:91-111 | for every run with non-decreasing times the slice is, in order, the crash log since the last reset or steady period, filtered to the window |
| `CrashTracker.WindowIsTail` | internal/supervisor/backoff.go:97-111 | in instants: the slice is the tail of the crash log that begins with the first crash no more than the window before the last one |
| `CrashTracker.RollbackIffCapInWindow` | internal/supervisor/backoff.go:113-121 | ShouldRollback iff CrashCap crashes of that log lie in the window |
| `CrashTracker.SteadyRuleIdleIff` | internal/supervisor/backoff.go:93-100 | the steady-reset rule never changes the crash list in any run iff SteadyReset > CrashWindow (or the window is negative) |
| `CrashTracker.SteadyRuleBites` | internal/supervisor/backoff.go:98-100 | otherwise a three-operation run on which it does |
| `CrashTracker.TrackerIsFullWindow` | internal/supervisor/backoff.go:91-128 | for such policies, the default included, the slice is the window of the full log since the last explicit reset |
| `CrashTracker.DefaultRollback` | internal/supervisor/backoff.go:36-45 | with the defaults a rollback is due iff three crashes since the last reset lie within a minute |
| `CrashTracker.Tracker.RecordCrash` | internal/supervisor/backoff.go:97-111 | the new state equals the specification's, for any contents of the backing array |
| `CrashTracker.Tracker.DropBefore` | internal/supervisor/backoff.go:103-110 | the in-place compaction keeps exactly the instants not before the cut-off, in order |
| `CrashTracker.Tracker.Append` | internal/supervisor/backoff.go:102 | one instant appended, in place or in a larger array |
| `CrashTracker.Tracker.Reset` | internal/supervisor/backoff.go:125-128 | a fresh state |
| `Backoff.ClampedIsExponential` | internal/supervisor/backoff.go:54-67 | for every n >= 1 the wrapping shift, clamp and overflow test give min(base * 2^(n-1), max), for base = 2^k * odd with odd * max < 2^63 |
| `Backoff.ClampedIsExponentialIff` | internal/supervisor/backoff.go:54-67 | for any base and n: exactly when the clamped shift does not wrap, or wraps outside (0, max) |
| `Backoff.WrapLandsOnlyUnwrapped` | internal/supervisor/backoff.go:58-67 | for such a base a wrapped product never lands in (0, max] |
| `Backoff.WrapCanUndercutTheCap` | internal/supervisor/backoff.go:64-67 | base 2^60 + 1 shifted by four gives 16 ns where the cap of a minute was due |
| `Backoff.JitterBounds` | internal/supervisor/backoff.go:130-136 | the draw picks one of 0.8, 0.9, 1.0 and 1.1, rounded down: within [0.8, 1.2), and different for different draws from 10 ns on |
| `Backoff.DelayBounds` | internal/supervisor/backoff.go:47-69 | the whole delay lies in [0.8, 1.2) of the capped exponential up to rounding down |
| `Backoff.DefaultDelay` | internal/supervisor/backoff.go:36-69 | both facts for the default policy and every n |
| `Backoff.NoCrashIsTheFirst` | internal/supervisor/backoff.go:55-57 | a count below one is treated as one |
| `Notify.Client.Send` | internal/sdnotify/sdnotify_unix.go:51-67 | not supervised iff undialled; refused, naming the first pair with a line break, iff there is one; otherwise the pairs joined by newlines are written iff the write does not fail |
| `Notify.ParseNotifyFrame` | internal/supervisor/notify.go:118-145 | the loop returns the recognised keys of the lines, in order |
| `Notify.FramingRoundTrip` | internal/supervisor/notify.go:118-145 | whatever Send accepts, with any mix of LF and CRLF line ends, is read back as exactly its recognised pairs in order, if it fits the buffer |
| `Notify.SendRoundTrip` | internal/sdnotify/sdnotify_unix.go:48-67 | the same for the plain datagram of Send |
| `Notify.UnknownPairsAreIgnored` | internal/supervisor/notify.go:115-144 | the parser returns the same keys with unknown pairs slipped in anywhere, for any mix of line ends |
| `Notify.TruncatedFrame` | internal/supervisor/notify.go:82-98 | of a datagram longer than the buffer the parser returns the recognised pairs wholly before the cut, and what the cut piece means |
| `Notify.FramingIsLosslessIff` | internal/supervisor/notify.go:82-98 | what Send writes is read back as exactly its recognised pairs iff it fits the buffer, or the cut piece means what all pairs from the cut on mean together |
| `Notify.LongDatagramLosesReady` | internal/supervisor/notify.go:82-98 | so a pair that fills the buffer hides the READY after it |
| `Notify.CutInventsReady` | internal/supervisor/notify.go:82-98 | and a pair that means nothing can be cut down to READY |
| `Notify.CutIsExact` | internal/supervisor/notify.go:125-128 | cutting at the first = is the inverse of gluing, for keys without = |
| `Openclaw.Manager.CommitProbe` | internal/openclaw/poller.go:231-335 | a commit built on any earlier snapshot keeps every stored field equal to its definition over the log of commits: CrashCount = alive-then-dead pairs, history = last 20 samples, uptime = start of the run of the PID, Intent = last set, counters of the autoheal; it records the action in flight when the lock was taken and the latest stamp when it read it |
| `Openclaw.Manager.BeginProbe` | internal/openclaw/status.go:176-216 | alive, PID, instant and duration are what the probe saw, the CLI flag too if it looked, and everything else is the stored snapshot's |
| `Openclaw.Manager.ProbeNow` | internal/openclaw/poller.go:207-335 | a probe from end to end, with intents, actions, stamps and other probes in between: its commit logs exactly what it saw, and the store shows it when it is done |
| `Openclaw.Manager.NextSnapshot` | internal/openclaw/poller.go:231-335 | the closure's body, with the atomics free to change between the two reads, advances the store field by field as the log's definitions do |
| `Openclaw.Manager.SetIntent` | internal/openclaw/poller.go:370-372 | the intent is stored and recorded, and nothing else changes |
| `Openclaw.Manager.SetCurrentAction` | internal/openclaw/poller.go:374-395 | the action in flight is the one set last |
| `Openclaw.Manager.StampStartAttempt` | internal/openclaw/poller.go:407-428 | the start stamp is the one set last |
| `Openclaw.CommitsSawTheAtomics` | internal/openclaw/poller.go:231-335 | every commit of a Manager's life carries the intent set last, and the action and start stamp that were the latest when it read them |
| `Openclaw.Manager.WithAutoheal` | internal/openclaw/poller.go:143-152 | missing threshold and cooldown get their defaults |
| `Openclaw.KeepCumulative` | internal/openclaw/poller.go:238-285 | what a probe cannot see is kept or advanced from the snapshot in the store, not from the one the probe started with |
| `Openclaw.Decide` | internal/openclaw/poller.go:312-334 | phase first, then the gates; on a fire count, stamp, eligibility and streak change together |
| `Openclaw.CommitIsLogged` | internal/openclaw/poller.go:231-335 | a store that advances as the closure does agrees with the extended log |
| `Openclaw.GatesAreThePolicy` | internal/openclaw/autoheal.go:27-44 | the six gates on the snapshot equal the policy stated over the log |
| `Openclaw.StreakIsTrailingRun` | internal/openclaw/poller.go:303-310 | the counter is the longest trailing run of idle down commits without a fire |
| `Openclaw.FireBudget` | internal/openclaw/poller.go:325-334 | fires * threshold + streak never exceeds the number of idle down commits |
| `Openclaw.FiresAreSpaced` | internal/openclaw/poller.go:325-334 | successive fire stamps are at least a cooldown apart, in whatever order overlapping commits read the clock |
| `Openclaw.FiresPerSpan` | internal/openclaw/autoheal.go:27-44 | at most 1 + T / cooldown fires are stamped within any span T |
| `Openclaw.FiresExactlyWhenDue` | internal/openclaw/autoheal.go:27-44 | over a Manager's life a commit fires iff autoheal is on, nobody acts or wants the gateway stopped, there is a CLI, the commit completes a row of threshold idle down ones without a fire, and every earlier fire is at least a cooldown back |
| `Openclaw.RunStartMeaning` | internal/openclaw/poller.go:262-274 | the uptime stamp belongs to the first commit of the current unbroken run of one PID |
| `Openclaw.ZeroPidRestartsUptime` | internal/openclaw/poller.go:262-274 | PID p, then 0, then p again restarts the uptime, against the comment |
| `Openclaw.UptimeKeptIff` | internal/openclaw/poller.go:266-274 | the run goes on iff the previous commit saw the same PID |
| `Openclaw.PhaseFromCommit` | internal/openclaw/phase.go:94-114 | the phase of a probed snapshot is a function of the commit alone |
| `Openclaw.PhaseMeaning` | internal/openclaw/phase.go:94-114 | over a Manager's life, phase by phase iff: missing CLI, then a deliberate stop, then a start, restart or fix in flight, then an answering gateway; one that does not answer is starting for 15 seconds after a start stamp and in error from then on |
| `Openclaw.NoErrorInGrace` | internal/openclaw/phase.go:94-114 | over a Manager's life: once a start stamp is set, and until a newer one is, no commit that reads it with a clock before the stamp + 15 s reports an error |
| `Openclaw.ErrorDoesNotFlap` | internal/openclaw/phase.go:94-114 | over a Manager's life: after a commit that reported an error none with a later clock reports starting, unless a start stamp was set or a start, restart or fix began between the reads of the two |

## Left out

- Backoff.ClampedIsExponential: gives a sufficient condition on the policy alone; the exact condition for one call is `Backoff.ClampedIsExponentialIff`.
- Supervisor.Supervisor.Loop: takes a finite sequence of rounds; the results hold for every sequence, and that the real loop goes on until it returns is not stated.
- Supervisor.Supervisor.RunOneSpawn: takes the events and moves of the session as a finite script in the same way.
- Supervisor.Supervisor.BeginSession: takes spawning as one step; pid file, command line and environment of the worker are not modelled.
- Rollouts.AppliedIsInstalled: is about an Apply on its own; the form with everything that interleaves is `Installs.InstallRuns`.
- Openclaw.ErrorDoesNotFlap: needs the clock readings of the two commits to be in order, because each commit reads the clock before it takes the lock.
- A supervisor that dies while its worker lives on, and two workers at once: the blacklist results need the supervisor to outlive its worker.
- More than one add and more than one install in flight in the same worker; what overlapping adds cost is in `Blacklist.OverlappingAddsKeepIff` and `ConcurrentSaves.AddedIsListedIff`, for two of them and outside the runs of the machine.
- Hand edits of the files under state/ during a run, and an empty blacklist file, which reads as an empty list.
- The ResolveWorker hook and an empty BlacklistPath or install root; the default resolution is modelled.
- Stopping a session (SIGTERM, grace, SIGKILL) is one step that reaps the worker; a watchdog or start timer that expires during it has no effect.
- A timer is set at the clock reading its duration is computed from; the time between the two is part of the lag in `Session.GateDecidedInTime`.
- Instants and differences of instants are unbounded integers; the saturation of time.Sub and the int64 range of durations are modelled in the delay only.
- The history ledger is taken to record every append; the source logs a failed append and goes on.
- The 16-slot notify channel and the datagrams it drops: every sequence of messages is allowed instead.
- Version directories are keyed by label and link targets split at the last slash; links that point outside versions/ are outside the completeness results' directories.
- Download, checksum, signature, archive and JSON encoding: a verified artifact is the input of Apply, and a file holds its content whole or not at all.
- LastAliveAt, enrichment fields and the action log of the Manager: overlapping probes may commit stale values, so nothing is claimed of them.
- Discovery, gateway address resolution, CLI execution and the cascade of the fix action: calls to the outside.
- HTTP server, CLI subcommands, authentication, embedded UI, channel preference, manifest and release tooling, history reader, Windows stubs: no state machine beyond one branch.
