# HitCounterManager auto-splitter core, modelled in Dafny

The auto-splitter core of HitCounterManager decides when the host hit
counter starts, stops, splits, counts hits and resets. It drives nine game
splitters (Sekiro, Dark Souls, Dark Souls II, Dark Souls III, Elden Ring,
Hollow Knight, Celeste, Dishonored and Cuphead) and an ASL script splitter.
Two periodic timers drive the decisions:

- the main module's 500 ms update timer runs two handlers on each tick: the auto-timer check `CheckAutoTimers` and the auto-reset watchdog `CheckAutoResetSplit`;
- the split/hit gate `SplitterControl` polls its pending split every 1000 ms.

Split and hit signals go through that singleton gate.

The model has seven modules.

| file | modules | what it holds |
|---|---|---|
| `games.dfy` | `Wrappers`, `Games`, `Hcm` | the games and their indices, the per-tick `Telemetry` the splitters expose, and the host |
| `splitter_control.dfy` | `SplitterControl` | the split/hit gate |
| `igt_module.dfy` | `IgtModule` | the in-game-time dispatch |
| `auto_timer.dfy` | `AutoTimer` | the auto-timer rules as functions |
| `auto_reset.dfy` | `AutoReset` | the watchdog as a function |
| `auto_splitter_main.dfy` | `AutoSplitterMain` | the main module as a class |
| `asl_splitter.dfy` | `AslSplitter` | the ASL event guards |

The host is the class `Hcm.Host`. Its fields are:

- `running`, `activeSplit`, `splitCount` and `attempts` (the run attempts of the profile);
- `log`, the sequence of every call the core made to the host: `Timer(start)`, `UpdateDuration`, `ProfileReset`, `ProfileSplitGo`, `ProfileHitGo` and `Delay`.

A blocking sleep is a logged `Delay` that changes nothing else. A profile
reset follows the host interface's own description: the timer is stopped,
the first split becomes current, and one run attempt is added.

The decision logic is written twice:

- as pure step functions over values, which state what one tick or one signal does;
- as classes with the source's own fields, whose methods update those fields in place.

Each method is proved to follow its step function:
`ensures Latch() == r.after && control.host.log == old(control.host.log) + r.calls`.
The properties of the source are proved as lemmas about the step functions.
Some of them are about runs of many ticks: the auto-timer check's start/stop calls alternate, and a reset fires once per occurrence. The watchdog's firing stops the timer without testing whether it runs, so the alternation is a property of the auto-timer check alone. For splits, the poll as written forwards one host split on every poll while a split is pending, so one split signal followed by n polls gives n host splits. With the corrected poll, which consumes the pending split, a split signal gives exactly one host split (see "## Findings").

Assumptions:

- **Game indices.** The repository's `GameConstruction` class, which fixes the game indices, is not part of this model. Only index 0 for "none" is fixed by the code: the active-game setter disables all games with `EnableSplitting(0)`. The model numbers the games 1 to 9. No property depends on the exact numbers: only on their being distinct and non-zero.
- **Game probes.** Memory probes are inputs, collected in a `Telemetry` value given to each tick. These probes are the process-attached status, `getTimeInGame`, the in-game, loading and run-started flags, and the Dark Souls II position box. A reading that throws is `IgtRead.Fault`, and the main module turns it into -1.
- **Starting and stopping.** The host's `StartStopTimer(b)` sets `running` to `b` synchronously.
- **First split.** The host's first split has index 0.
- **Game splitters' status.** The game splitter classes are not part of this model. Their `SetStatusSplitting(status)` is taken to set exactly the splitter's enabled flag, which `GetSplitterEnable` reads back as the `enableSplitting` field of the splitter's data. `EnableSplitting`, `SetActiveGameIndex` and `GetSplitterEnable` rest on this.
- **Celeste's run-started flag.** The Celeste splitter's `_runStarted` flag is a field of the main module, and only the auto-timer tick writes it. The Celeste splitter's own code, which could also clear it (for instance when its split flags are reset), is not part of this model.
- **Checking off.** Turning split checking off disables the 1000 ms split poll. A poll tick that arrives while the poll is disabled does nothing.

## Model

| member | source | states |
|---|---|---|
| Games.IndexOf | Sources/ProgramModule/AutoSplitterMainModule.cs:189-201 | no game has the index of "no splitter engaged" |
| Games.GameOf | Sources/ProgramModule/AutoSplitterMainModule.cs:203-238 | decoding an index gives the game with that index, and `None` for 0 and for every index no game has |
| Hcm.TimerCalls | Sources/ProgramModule/AutoSplitterMainModule.cs:287-488 | the start/stop calls of a log are exactly its `Timer` calls |
| Hcm.TimerCallsAppend | Sources/ProgramModule/AutoSplitterMainModule.cs:287-488 | the start/stop calls of two logs in a row are those of the first followed by those of the second |
| Hcm.SplitsIn | Sources/Control/SplitterControl.cs:319-324 | counts the host splits of a log: zero exactly when the log holds no split |
| Hcm.SplitsInAppend | Sources/Control/SplitterControl.cs:319-324 | host splits of two logs in a row add up |
| Hcm.Host.StartStopTimer | Sources/Control/SplitterControl.cs:250 | the host's running flag becomes the argument and one `Timer` call is logged |
| Hcm.Host.ProfileReset | Sources/Control/SplitterControl.cs:129-133 | the timer is stopped, the first split becomes current, one attempt is added, and the call is logged |
| SplitterControl.SplitCheckStep | Sources/Control/SplitterControl.cs:254-269 | with checking off the split status becomes false and the pending flag is kept. With checking on both flags end true. The 2000 ms delay happens exactly when checking is on and a split was already pending. No other field changes |
| SplitterControl.HitCheckStep | Sources/Control/SplitterControl.cs:271-281 | exactly one `ProfileHitGo(1, wayMode)` when checking is on and debug is off, otherwise none; no gate field changes |
| SplitterControl.SplitGoStep | Sources/Control/SplitterControl.cs:319-324 | exactly one `ProfileSplitGo(1)` when a split is pending and debug is off, otherwise none; the pending flag (and every other field) is left as it is |
| SplitterControl.SplitGoDrainStep | Sources/Control/SplitterControl.cs:319-324 | the intended poll: the same calls, and the pending flag is consumed exactly when a split is forwarded |
| SplitterControl.Polls | Sources/Control/SplitterControl.cs:210-211 | n ticks of the split poll timer |
| SplitterControl.PendingSplitRepeats | Sources/Control/SplitterControl.cs:319-324 | as written, with a split pending, n polls give n host splits and leave the gate unchanged |
| SplitterControl.PollsRepeatSplit | Sources/Control/SplitterControl.cs:254-324 | as written, one split signal followed by n polls gives n host splits |
| SplitterControl.OneSignalTwoSplits | Sources/Control/SplitterControl.cs:319-324 | the concrete input: one split signal, two polls, two host splits |
| SplitterControl.IdlePollsAreSilent | Sources/Control/SplitterControl.cs:319-324 | with nothing pending, polls make no host call and change nothing, for the poll as written and for the corrected one |
| SplitterControl.SplitsCoalesce | Sources/Control/SplitterControl.cs:254-269 | k ≥ 1 split signals with checking on leave one split pending and make no host split |
| SplitterControl.DrainedPollsSplitOnce | Sources/Control/SplitterControl.cs:254-324 | with the intended poll, any k ≥ 1 signals followed by any n ≥ 1 polls give exactly one host split |
| SplitterControl.RunAppend | Sources/Control/SplitterControl.cs:254-324 | a run over two signal sequences is the run over the first followed by the run over the second |
| SplitterControl.HitsForwardedOneEach | Sources/Control/SplitterControl.cs:271-281 | n hit signals give exactly n `ProfileHitGo(1, wayMode)` calls and leave the gate unchanged |
| SplitterControl.FindLink | Sources/Control/SplitterControl.cs:293 | the position of the first link whose host profile is the title, or none when no link has it |
| SplitterControl.ProfileChange | Sources/Control/SplitterControl.cs:289-309 | no effect when there are no links or no link matches. Otherwise the first matching link is used: settings whose file is missing are not loaded, and loaded settings reset the flags exactly when the reset-profile option is set |
| SplitterControl.Control.constructor | Sources/Control/SplitterControl.cs:208-232 | checking on, debug off, nothing pending, split status false, poll timer disabled |
| SplitterControl.Control.SetChecking | Sources/Control/SplitterControl.cs:242-246 | checking and the split poll timer's enabled flag both become the argument; nothing else changes |
| SplitterControl.Control.SetDebug | Sources/Control/SplitterControl.cs:248 | only the debug flag changes |
| SplitterControl.Control.SplitCheck | Sources/Control/SplitterControl.cs:254-269 | the new fields and the logged delay are exactly those of `SplitCheckStep` |
| SplitterControl.Control.HitCheck | Sources/Control/SplitterControl.cs:271-281 | the logged calls are exactly those of `HitCheckStep` |
| SplitterControl.Control.SplitGo | Sources/Control/SplitterControl.cs:319-324 | the logged calls are exactly those of `SplitGoStep`; it modifies only the log |
| SplitterControl.Control.StartStopTimer | Sources/Control/SplitterControl.cs:250 | passes the start/stop to the host |
| SplitterControl.Control.UpdateDuration | Sources/Control/SplitterControl.cs:283 | passes the duration flush to the host |
| SplitterControl.Control.ProfileReset | Sources/Control/SplitterControl.cs:284 | passes the profile reset to the host, with its effect on the timer, the split and the attempts |
| IgtModule.Igt.constructor | Sources/ProgramModule/IGTModule.cs:27-33 | nothing selected, no splitter reference set |
| IgtModule.Igt.ReturnCurrentIGT | Sources/ProgramModule/IGTModule.cs:34-58 | for Sekiro, Dark Souls, Dark Souls III, Elden Ring, Celeste and Cuphead, that splitter's reading (a fault when its reference is unset). For every other game, none and any unknown index: -1 |
| IgtModule.Igt.SetSplitterPointers | Sources/ProgramModule/IGTModule.cs:60-68 | the linked references are exactly the six passed ones; nothing else changes |
| IgtModule.ReadingIsLocal | Sources/ProgramModule/IGTModule.cs:34-58 | the result depends only on the selection and the selected game's own reading |
| AutoTimer.Transition | Sources/ProgramModule/AutoSplitterMainModule.cs:449-467 | a start or stop, bracketed by duration flushes for the advance rule, holds exactly one start/stop call |
| AutoTimer.Drive | Sources/ProgramModule/AutoSplitterMainModule.cs:443-488 | a start check then a stop check, each guarded by the running flag at that point: a call happens only when the flag changes, and the flag ends as the rule's conditions say |
| AutoTimer.AdvanceRule | Sources/ProgramModule/AutoSplitterMainModule.cs:443-469 | the timer ends running exactly when the IGT is positive, differs from the last one, the split is not final and the game is on. Each transition is bracketed by `UpdateDuration`. The last time changes exactly when the IGT is positive; nothing else changes |
| AutoTimer.PresentRule | Sources/ProgramModule/AutoSplitterMainModule.cs:471-488 | the timer ends running exactly when the IGT is positive, the split is not final and the game is on; a single start/stop only when the flag changes |
| AutoTimer.CelesteRule | Sources/ProgramModule/AutoSplitterMainModule.cs:328-360 | without the game-time option: the timer ends running exactly when it was running, or when this is the first in-game tick since the latch was clear and the game is on. It is never stopped, and the run-started latch is set by the first in-game tick. With the option: the timer runs exactly while Celeste's own time is positive, has moved, the player is in game and the game is on. The last Celeste time moves to every positive reading, and the latch is kept |
| AutoTimer.CupheadRule | Sources/ProgramModule/AutoSplitterMainModule.cs:361-392 | the timer runs exactly while in game and the game is on, and with the game-time option only until the level completes |
| AutoTimer.RunStartedRule | Sources/ProgramModule/AutoSplitterMainModule.cs:395-435 | the timer runs exactly while the run has started, the game is not loading and the game is on |
| AutoTimer.AutoTimers | Sources/ProgramModule/AutoSplitterMainModule.cs:280-489 | a tick makes a single start/stop call exactly when the running flag changes. There is no call and no change for no game, in practice mode, or with auto-timer off. The auto-timer flag is set exactly for the four IGT-rule games. The last time moves only under the advance rule, to a positive IGT |
| AutoTimer.AdvanceRuleGoverns | Sources/ProgramModule/AutoSplitterMainModule.cs:286-469 | for an IGT-rule game whose option selects the advance rule (inverted for Dark Souls III), the tick is the advance rule: start/stop conditions, `UpdateDuration` bracketing, and the last-time latch |
| AutoTimer.FlagsSelectIgtRule | Sources/ProgramModule/AutoSplitterMainModule.cs:443-488 | both flags set means the advance rule ran, and only the auto-timer flag set means the present rule ran |
| AutoTimer.FinalSplitStopsIgtRules | Sources/ProgramModule/AutoSplitterMainModule.cs:443-488 | on the last split the IGT rules end every tick with the timer stopped |
| AutoTimer.GameOffStopsTimer | Sources/ProgramModule/AutoSplitterMainModule.cs:328-488 | with the game off, every rule ends the tick with the timer stopped. The exception is Celeste without the game-time option, whose rule only ever starts the timer |
| AutoTimer.TimerCallsAlternate | Sources/ProgramModule/AutoSplitterMainModule.cs:287-488 | over any run of auto-timer checks, their start and stop calls alternate: the check never starts a running timer or stops a stopped one. The watchdog's firing, on the same tick, stops the timer without a running test and is not part of this run. The parity of their number decides the final running flag |
| AutoTimer.AlternatingCons | Sources/ProgramModule/AutoSplitterMainModule.cs:287-488 | a tick's single transition in front of an alternating run keeps it alternating |
| AutoTimer.RunningAfterEach | Sources/ProgramModule/AutoSplitterMainModule.cs:280-489 | one running flag per tick of a run |
| AutoTimer.RunningAfterEachPrefix | Sources/ProgramModule/AutoSplitterMainModule.cs:280-489 | entry i of the per-tick flags is the running flag the run's first i + 1 ticks leave |
| AutoTimer.AdvanceTickThenRest | Sources/ProgramModule/AutoSplitterMainModule.cs:286-469 | a Sekiro advance tick fixes the running flag and the latch the rest of the run starts from |
| AutoTimer.AdvanceRuleExample | Sources/ProgramModule/AutoSplitterMainModule.cs:443-469 | IGTs -1, 100, 100, 250, -1 yield running flags false, true, false, true, false |
| AutoReset.ResetCalls | Sources/ProgramModule/AutoSplitterMainModule.cs:522-526 | a firing stops the timer and resets the profile, except in debug mode |
| AutoReset.Latched | Sources/ProgramModule/AutoSplitterMainModule.cs:518-570 | the latch becomes the occurrence flag, and it fires exactly when the occurrence holds and the latch was clear |
| AutoReset.ResetCheck | Sources/ProgramModule/AutoSplitterMainModule.cs:491-579 | nothing without the auto-reset option. The generic rule latches on 0 < IGT ≤ 10000. While its game is on, Dark Souls II uses its start-position box instead, and leaves the latch untouched while loading. Hollow Knight likewise uses its new-game flag. A firing needs a clear latch. Practice mode is not consulted |
| AutoReset.PersistingStartFiresOnce | Sources/ProgramModule/AutoSplitterMainModule.cs:557-577 | while a fresh start persists, the watchdog fires once, on its first tick, and stays latched |
| AutoReset.ResetRunAppend | Sources/ProgramModule/AutoSplitterMainModule.cs:491-579 | watchdog runs compose, and their firings add up |
| AutoReset.TwoStartsFireTwice | Sources/ProgramModule/AutoSplitterMainModule.cs:557-577 | two fresh starts separated by one tick that is not a fresh start fire exactly twice |
| AutoReset.LoadingKeepsLatch | Sources/ProgramModule/AutoSplitterMainModule.cs:507-532 | Dark Souls II loading ticks neither fire nor move the latch |
| AutoSplitterMain.NoneDisabled | Sources/ProgramModule/AutoSplitterMainModule.cs:189-201 | the nine games are all the games |
| AutoSplitterMain.Cleared | Sources/ProgramModule/AutoSplitterMainModule.cs:240-250 | clearing a splitter's flags changes nothing else about it |
| AutoSplitterMain.Caught | Sources/ProgramModule/AutoSplitterMainModule.cs:500-504 | a reading that throws counts as -1, any other reading as itself |
| AutoSplitterMain.MainModule.constructor | Sources/ProgramModule/AutoSplitterMainModule.cs:52-89 | none selected, every flag off, both time latches 0, and the IGT module linked to its six splitters |
| AutoSplitterMain.MainModule.SetPracticeMode | Sources/ProgramModule/AutoSplitterMainModule.cs:158-172 | the module's flag, the saved copy and every splitter's flag become the argument; checking and the split poll become its negation |
| AutoSplitterMain.MainModule.SetShowSettings | Sources/ProgramModule/AutoSplitterMainModule.cs:174-187 | the module's and every splitter's flag become the argument; checking and the split poll become its negation |
| AutoSplitterMain.MainModule.GetSplitterEnable | Sources/ProgramModule/AutoSplitterMainModule.cs:189-201 | the none index exactly when no splitter is enabled. Otherwise the index of the first enabled one in the order Sekiro, Dark Souls, Dark Souls II, Dark Souls III, Elden Ring, Hollow Knight, Celeste, Dishonored, Cuphead |
| AutoSplitterMain.MainModule.SetSplitterStatus | Sources/ProgramModule/AutoSplitterMainModule.cs:225-233 | only the given splitter's status changes |
| AutoSplitterMain.MainModule.EnableSplitting | Sources/ProgramModule/AutoSplitterMainModule.cs:203-238 | the none index disables all nine splitters and turns checking off. A game's index enables that splitter and turns checking on. An unknown index disables all splitters yet leaves checking on. The selection follows; `anyGameTime` is cleared; the time latches and the reset latch are kept |
| AutoSplitterMain.MainModule.SetActiveGameIndex | Sources/ProgramModule/AutoSplitterMainModule.cs:122-128 | afterwards exactly game k's splitter is enabled, selected and reported by `GetSplitterEnable`. For the none index or an unknown one, no splitter is enabled and the none index is reported. Checking is on for every index but the none index. Nothing but the status changes in a splitter |
| AutoSplitterMain.MainModule.SoleEnabledIsSelected | Sources/ProgramModule/AutoSplitterMainModule.cs:189-201 | with exactly one splitter enabled, `GetSplitterEnable` reports it |
| AutoSplitterMain.MainModule.ResetSplitterFlags | Sources/ProgramModule/AutoSplitterMainModule.cs:240-250 | every splitter's flags are cleared except Dishonored's |
| AutoSplitterMain.MainModule.GameOn | Sources/ProgramModule/AutoSplitterMainModule.cs:581-606 | the active game's attached status, and false for the none index and unknown indices |
| AutoSplitterMain.MainModule.ReturnCurrentIGT | Sources/ProgramModule/AutoSplitterMainModule.cs:253-266 | -1 while the game is off. A value other than -1 is a valid reading of the active game's linked IGT provider, and every valid reading is returned |
| AutoSplitterMain.MainModule.GetIsIGTActive | Sources/ProgramModule/AutoSplitterMainModule.cs:268-271 | true exactly when the last auto-timer tick set its game-time flag and the in-game time is positive. That flag is set by the advance rule, and by Celeste and Cuphead with their game-time option |
| AutoSplitterMain.MainModule.GetCurrentInGameTime | Sources/ProgramModule/AutoSplitterMainModule.cs:136-146 | read from one probe snapshot: success with the positive in-game time when it is active, otherwise failure with 0 |
| AutoSplitterMain.MainModule.BracketedStartStop | Sources/ProgramModule/AutoSplitterMainModule.cs:449-467 | a start or stop between two duration flushes |
| AutoSplitterMain.MainModule.IgtAdvanceTick | Sources/ProgramModule/AutoSplitterMainModule.cs:443-469 | the new latch and the logged calls are those of `AdvanceRule` |
| AutoSplitterMain.MainModule.IgtPresentTick | Sources/ProgramModule/AutoSplitterMainModule.cs:471-488 | the new latch and the logged calls are those of `PresentRule` |
| AutoSplitterMain.MainModule.CelesteTick | Sources/ProgramModule/AutoSplitterMainModule.cs:328-360 | the new latch and the logged calls are those of `CelesteRule` |
| AutoSplitterMain.MainModule.CupheadTick | Sources/ProgramModule/AutoSplitterMainModule.cs:361-392 | the new latch and the logged calls are those of `CupheadRule` |
| AutoSplitterMain.MainModule.RunStartedTick | Sources/ProgramModule/AutoSplitterMainModule.cs:395-435 | the new latch and the logged calls are those of `RunStartedRule` |
| AutoSplitterMain.MainModule.SelectIgtRule | Sources/ProgramModule/AutoSplitterMainModule.cs:286-325 | the auto-timer flag follows the game's option outside practice mode; the IGT flag follows the game-time option, inverted for Dark Souls III |
| AutoSplitterMain.MainModule.GameRule | Sources/ProgramModule/AutoSplitterMainModule.cs:328-435 | the game-specific switch cases do what `AutoTimers` says, and never set the auto-timer flag |
| AutoSplitterMain.MainModule.GameSwitch | Sources/ProgramModule/AutoSplitterMainModule.cs:282-441 | the switch sets both flags as `AutoTimers` does and runs the game-specific rule; it makes no call for the IGT-rule games |
| AutoSplitterMain.MainModule.IgtRules | Sources/ProgramModule/AutoSplitterMainModule.cs:443-488 | the tail runs the advance rule, the present rule, or nothing, as the two flags select |
| AutoSplitterMain.MainModule.CheckAutoTimers | Sources/ProgramModule/AutoSplitterMainModule.cs:280-489 | the new latches, flags and logged calls are exactly those of `AutoTimers` |
| AutoSplitterMain.MainModule.FireReset | Sources/ProgramModule/AutoSplitterMainModule.cs:518-526 | a firing sets the latch and clears the splitters' flags. Unless debugging, it also stops the timer and resets the profile, so the host is back at the first split with one more attempt. In debug mode the host is untouched |
| AutoSplitterMain.MainModule.LatchReset | Sources/ProgramModule/AutoSplitterMainModule.cs:517-576 | the latch, firing and calls of `Latched`; the host is reset exactly on a firing outside debug mode |
| AutoSplitterMain.MainModule.CheckAutoResetSplit | Sources/ProgramModule/AutoSplitterMainModule.cs:491-579 | the new latch, the calls and the splitters' flags are exactly those of `ResetCheck`; the host's timer, split and attempts are reset exactly on a firing outside debug mode |
| AslSplitter.Forwards | Sources/AutoSplitters/ASLSplitter.cs:158-188 | an event passes only outside practice mode and while active. Start and reset never pass in debug mode, and start never passes while IGT drives the timer. The split event passes exactly outside practice mode while active. Reset passes exactly outside debug and practice mode while active, whatever the IGT flag. Start passes exactly when, in addition, the IGT flag is off |
| AslSplitter.HandlerCalls | Sources/AutoSplitters/ASLSplitter.cs:164-188 | a split event makes no call; a start makes exactly one StartStopTimer(true) when forwarded and none otherwise; a reset makes exactly one ProfileReset when forwarded and none otherwise |
| AslSplitter.HandlersNeverStop | Sources/AutoSplitters/ASLSplitter.cs:164-188 | no script event calls `StartStopTimer(false)`. A forwarded reset still stops the timer, through the host's profile reset (see `ASCOnReset`) |
| AslSplitter.Splitter.constructor | Sources/AutoSplitters/ASLSplitter.cs:59-75 | everything off, no handler subscribed |
| AslSplitter.Splitter.ASCHandlerSetters | Sources/AutoSplitters/ASLSplitter.cs:108-124 | the handlers are subscribed at most once, and only when the script is loaded. Once subscribed, each tick only stops the polling timer |
| AslSplitter.Splitter.SetStatusSplitting | Sources/AutoSplitters/ASLSplitter.cs:146-151 | the active flag becomes the argument; polling starts only while the handlers are not set |
| AslSplitter.Splitter.SetData | Sources/AutoSplitters/ASLSplitter.cs:136-139 | a missing node leaves the settings as they are |
| AslSplitter.Splitter.ASCOnSplit | Sources/AutoSplitters/ASLSplitter.cs:158-162 | the gate takes one `SplitCheck` step exactly outside practice mode while active, and is untouched otherwise |
| AslSplitter.Splitter.ASCOnStart | Sources/AutoSplitters/ASLSplitter.cs:164-176 | the timer is started exactly when forwarded and never stopped |
| AslSplitter.Splitter.ASCOnReset | Sources/AutoSplitters/ASLSplitter.cs:178-188 | a profile reset exactly when forwarded: the host's timer stops, the first split becomes current and one attempt is added. Otherwise the host is untouched |

## Left out

- Sources/ProfileManager/GoogleAuth.cs: OAuth, HTTP and Google Drive/Sheets calls, with list views. There is no decision logic in it.
- Sources/ProfileManager/SaveModule.cs: XML serialization and backup rotation. Only its profile-link list enters the model, as the `links` argument of `ProfileChange`; the list is empty exactly when `ProfileLinkReady` is false.
- src/main.jsx: a React bootstrap, which is UI only.
- WinForms timers: their ticks are explicit method calls. The `lock` bodies of the gate are atomic method bodies, and concurrency between the two timers and the script events is not modelled.
- Per-game memory probes (`getTimeInGame`, in-game, loading, new-game and status flags): they are inputs of each tick, in `Telemetry`.
- Dark Souls II start-position box: its float coordinate comparison is the boolean input `ds2AtStartPosition`.
- LiveSplit state and ASL component construction, and `GetIngameTime`: they rest on LiveSplit objects and `TimeSpan` doubles.
- `AutoSplitterForm` and `OpenWithBrowser`: windows and a browser launch.
- `RegisterHitCounterManagerInterface`: its wiring to the host's properties is not modelled. Its `setSplitterPointers` call is folded into `MainModule.constructor`. Its active-game setter lambda is `MainModule.SetActiveGameIndex`, and its `GetCurrentInGameTime` is `MainModule.GetCurrentInGameTime`.
- Debug logging and the debug form: they make no decision.
- AutoSplitterMain.MainModule.GetCurrentInGameTime: the source reads the in-game time twice, once inside `GetIsIGTActive` and once more for the result. The model takes both reads from one probe snapshot. The source can therefore report success with a time of 0 or -1 when the game exits or loads between the two reads; the model's success always carries a positive time.
- Saved options: the auto-reset option and each game's auto-timer and game-time options are read from the save module on every tick in the source. In the model they are fixed for a run: `autoResetSplit` is a constant of the main module, and the timer options change only with the splitter data.
- AutoReset.ResetCalls, AutoSplitterMain.Caught, AutoSplitterMain.Cleared and SplitterControl.Polls: these are definitions whose contracts spell out their own short bodies. They are helpers for the proved operations, not properties of their own.
- Hcm.Host.ProfileSplitGo and Hcm.Host.ProfileHitGo: only logged. Their effect on the host's current split and hit counts is described nowhere in the files of this model, so `activeSplit` does not advance on a split.
- SplitterControl.ProfileChange: deleting, copying and reloading the settings files is I/O. The outcome names the link that is loaded and whether the flags are reset. The file-existence test is the function argument `ascExists`.
- SplitterControl.Control.HitCheck: the way mode, which the source reads from the saved hit mode, is a parameter.
- AslSplitter.Splitter.SetData: the ASL component's `SetSettings` is modelled as storing the node.
- AslSplitter.Splitter.SetStatusSplitting: the WinForms timer's `Start` is the `pollRunning` flag.
- The queries `CurrentFinalSplit`, `GetSplitStatus`, `GetTimerRunning` and `GetDebug` each read a host or gate field. They are used through `TimerEnvOf` and `Latch` and carry no contract of their own.

## Findings

| source | as written | input that shows it | evidently intended | confidence | as-written member | corrected member |
|---|---|---|---|---|---|---|
| Sources/Control/SplitterControl.cs:319-324 | the split poll forwards a host split whenever `splitGo` is set, and nothing ever clears `splitGo`, so a pending split is forwarded again on every poll | checking on, debug off, nothing pending: one split signal, then two poll ticks, give two host splits | one split signal (or several coalesced before a poll) gives one host split: the poll consumes `splitGo` | not executed | SplitterControl.OneSignalTwoSplits | SplitterControl.DrainedPollsSplitOnce |
