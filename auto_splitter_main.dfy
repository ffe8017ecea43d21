/**
 * The main module: the registry of the nine game splitters, the active-game
 * selection the host drives, and the two ticks of the 500 ms update timer
 * (auto-timer and auto-reset). Each splitter's memory probes arrive as a
 * `Telemetry` value; the host is reached through the split/hit control.
 */
module AutoSplitterMain {
  import opened Wrappers
  import opened Games
  import opened Hcm
  import opened SplitterControl
  import opened IgtModule
  import opened AutoTimer
  import opened AutoReset

  /**
   * The main module's view of one game splitter: its splitting status, the
   * two flags the main module fans out, how often its split flags were
   * cleared, and its two saved timer options.
   */
  datatype Splitter = Splitter(enabled: bool, practiceMode: bool, showSettings: bool, flagResets: nat, settings: TimerSettings)

  /** The first enabled splitter in precedence order sits at position `i`. */
  ghost predicate FirstEnabledAt(s: map<Game, Splitter>, i: int)
    requires forall g :: g in s
  {
    0 <= i < |Precedence| && s[Precedence[i]].enabled &&
    forall j :: 0 <= j < i ==> !s[Precedence[j]].enabled
  }

  /** Every game is one of the nine. */
  lemma NoneDisabled(s: map<Game, Splitter>)
    requires forall g :: g in s
    requires !s[Sekiro].enabled && !s[Ds1].enabled && !s[Ds2].enabled && !s[Ds3].enabled && !s[Elden].enabled
    requires !s[Hollow].enabled && !s[Celeste].enabled && !s[Dishonored].enabled && !s[Cuphead].enabled
    ensures forall g :: !s[g].enabled
  {
    forall g ensures !s[g].enabled {
      match g
      case Sekiro =>
      case Ds1 =>
      case Ds2 =>
      case Ds3 =>
      case Elden =>
      case Hollow =>
      case Celeste =>
      case Dishonored =>
      case Cuphead =>
    }
  }

  /** A splitter after its split flags were cleared once more. */
  function Cleared(sp: Splitter): (r: Splitter)
    ensures r.flagResets == sp.flagResets + 1 && r.(flagResets := sp.flagResets) == sp
  {
    sp.(flagResets := sp.flagResets + 1)
  }

  /** A thrown reading is caught and counts as unknown. */
  function Caught(read: IgtRead): (r: int)
    ensures read.Fault? ==> r == -1
    ensures read.Ms? ==> r == read.ms
  {
    match read
    case Ms(v) => v
    case Fault => -1
  }

  class MainModule {
    const control: Control
    const igt: Igt
    /** The saved auto-reset option. */
    const autoResetSplit: bool

    var debugMode: bool
    var practiceMode: bool
    var savedPracticeMode: bool   // the save module's copy of the practice flag
    var showSettings: bool
    var splitters: map<Game, Splitter>
    var gameActive: int
    var anyGameTime: bool
    var autoTimer: bool
    var profileResetDone: bool
    var lastTime: int
    var lastCelesteTime: int
    var celesteRunStarted: bool   // the Celeste splitter's run-started flag, which only this module writes

    ghost predicate Valid()
      reads this`splitters, this`gameActive, igt`gameSelect
    {
      (forall g :: g in splitters) && igt.gameSelect == gameActive
    }

    /**
     * A main module over the given control and loaded splitter data; the IGT
     * module gets its six splitter references at registration.
     */
    constructor (control: Control, autoResetSplit: bool, splitters: map<Game, Splitter>)
      requires forall g :: g in splitters
      ensures Valid() && fresh(igt)
      ensures this.control == control && this.autoResetSplit == autoResetSplit && this.splitters == splitters
      ensures gameActive == NoneIndex && igt.linked == {Sekiro, Ds1, Ds3, Elden, Celeste, Cuphead}
      ensures !debugMode && !practiceMode && !showSettings && !anyGameTime && !autoTimer && !profileResetDone
      ensures lastTime == 0 && lastCelesteTime == 0 && !celesteRunStarted
    {
      this.control := control;
      this.autoResetSplit := autoResetSplit;
      this.splitters := splitters;
      var m := new Igt();
      m.SetSplitterPointers(true, true, true, true, true, true);
      igt := m;
      debugMode, practiceMode, savedPracticeMode, showSettings := false, false, false, false;
      gameActive, anyGameTime, autoTimer, profileResetDone := NoneIndex, false, false, false;
      lastTime, lastCelesteTime, celesteRunStarted := 0, 0, false;
    }

    /** Practice mode, for the module, the save module copy and every splitter; checking runs only outside it. */
    method SetPracticeMode(status: bool)
      requires Valid()
      modifies this`practiceMode, this`savedPracticeMode, this`splitters, control
      ensures Valid()
      ensures practiceMode == status && savedPracticeMode == status
      ensures forall g :: splitters[g] == old(splitters)[g].(practiceMode := status)
      ensures control.State() == old(control.State()).(enableChecking := !status, pollEnabled := !status)
    {
      practiceMode := status;
      savedPracticeMode := status;
      splitters := map g | g in splitters :: splitters[g].(practiceMode := status);
      control.SetChecking(!status);
    }

    /** The settings window flag, for the module and every splitter; checking pauses while it is shown. */
    method SetShowSettings(status: bool)
      requires Valid()
      modifies this`showSettings, this`splitters, control
      ensures Valid()
      ensures showSettings == status
      ensures forall g :: splitters[g] == old(splitters)[g].(showSettings := status)
      ensures control.State() == old(control.State()).(enableChecking := !status, pollEnabled := !status)
    {
      showSettings := status;
      splitters := map g | g in splitters :: splitters[g].(showSettings := status);
      control.SetChecking(!status);
    }

    /** The index of the first enabled splitter in precedence order, or the none index. */
    function GetSplitterEnable(): (k: int)
      reads this`splitters
      requires forall g :: g in splitters
      ensures k == NoneIndex <==> forall g :: !splitters[g].enabled
      ensures k != NoneIndex ==> exists i :: FirstEnabledAt(splitters, i) && k == IndexOf(Precedence[i])
    {
      if splitters[Sekiro].enabled then assert FirstEnabledAt(splitters, 0); IndexOf(Sekiro)
      else if splitters[Ds1].enabled then assert FirstEnabledAt(splitters, 1); IndexOf(Ds1)
      else if splitters[Ds2].enabled then assert FirstEnabledAt(splitters, 2); IndexOf(Ds2)
      else if splitters[Ds3].enabled then assert FirstEnabledAt(splitters, 3); IndexOf(Ds3)
      else if splitters[Elden].enabled then assert FirstEnabledAt(splitters, 4); IndexOf(Elden)
      else if splitters[Hollow].enabled then assert FirstEnabledAt(splitters, 5); IndexOf(Hollow)
      else if splitters[Celeste].enabled then assert FirstEnabledAt(splitters, 6); IndexOf(Celeste)
      else if splitters[Dishonored].enabled then assert FirstEnabledAt(splitters, 7); IndexOf(Dishonored)
      else if splitters[Cuphead].enabled then assert FirstEnabledAt(splitters, 8); IndexOf(Cuphead)
      else NoneDisabled(splitters); NoneIndex
    }

    /** One splitter's splitting status. */
    method SetSplitterStatus(g: Game, status: bool)
      modifies this`splitters
      ensures splitters == old(splitters)[g := old(splitters)[g].(enabled := status)]
      requires g in splitters
    {
      splitters := splitters[g := splitters[g].(enabled := status)];
    }

    /**
     * Engages splitter `k`, or disengages every splitter for the none index.
     * An unknown index disengages every splitter too, but leaves checking on.
     * The in-game-time latches are deliberately kept.
     */
    method EnableSplitting(k: int)
      requires Valid()
      modifies this`gameActive, this`anyGameTime, this`splitters, igt`gameSelect, control
      ensures Valid() && !anyGameTime
      ensures GameOf(k).Some? ==>
        gameActive == k && splitters == old(splitters)[GameOf(k).value := old(splitters)[GameOf(k).value].(enabled := true)]
      ensures GameOf(k).None? ==>
        gameActive == NoneIndex && forall g :: splitters[g] == old(splitters)[g].(enabled := false)
      ensures control.State() == old(control.State()).(enableChecking := k != NoneIndex, pollEnabled := k != NoneIndex)
      decreases if k == NoneIndex then 0 else 1
    {
      gameActive := k;
      igt.gameSelect := k;
      anyGameTime := false;
      if k == NoneIndex {
        control.SetChecking(false);
        splitters := map g | g in splitters :: splitters[g].(enabled := false);
      } else {
        match GameOf(k) {
          case Some(g) => SetSplitterStatus(g, true);
          case None => EnableSplitting(NoneIndex);
        }
        control.SetChecking(true);
      }
    }

    /**
     * The host's active-index setter: disengage all, then engage `k`.
     * Afterwards exactly game `k` is engaged and selected, or none is.
     */
    method SetActiveGameIndex(k: int)
      requires Valid()
      modifies this`gameActive, this`anyGameTime, this`splitters, igt`gameSelect, control
      ensures Valid() && !anyGameTime
      ensures control.State() == old(control.State()).(enableChecking := k != NoneIndex, pollEnabled := k != NoneIndex)
      ensures GameOf(k).Some? ==>
        && gameActive == k && GetSplitterEnable() == k
        && forall g :: splitters[g].enabled <==> g == GameOf(k).value
      ensures GameOf(k).None? ==>
        && gameActive == NoneIndex && GetSplitterEnable() == NoneIndex
        && forall g :: !splitters[g].enabled
      ensures forall g :: splitters[g].(enabled := false) == old(splitters)[g].(enabled := false)
    {
      EnableSplitting(NoneIndex);
      EnableSplitting(k);
      if GameOf(k).Some? {
        SoleEnabledIsSelected(GameOf(k).value);
      }
    }

    /** With exactly one splitter enabled, the selection is that splitter. */
    lemma SoleEnabledIsSelected(g: Game)
      requires forall h :: h in splitters
      requires forall h :: splitters[h].enabled <==> h == g
      ensures GetSplitterEnable() == IndexOf(g)
    {
      assert splitters[g].enabled;
      assert GetSplitterEnable() != NoneIndex;
      ghost var i :| FirstEnabledAt(splitters, i) && GetSplitterEnable() == IndexOf(Precedence[i]);
      assert Precedence[i] == g;
    }

    /** Clears the split flags of every splitter but Dishonored's, which keeps them. */
    method ResetSplitterFlags()
      requires Valid()
      modifies this`splitters
      ensures Valid()
      ensures forall g :: splitters[g] == if g == Dishonored then old(splitters)[g] else Cleared(old(splitters)[g])
    {
      splitters := map g | g in splitters ::
        if g == Dishonored then splitters[g] else Cleared(splitters[g]);
    }

    /** Whether the active game's process is attached; false for the none index and unknown indices. */
    function GameOn(t: Telemetry): (r: bool)
      reads this`gameActive
      ensures r ==> GameOf(gameActive).Some?
      ensures GameOf(gameActive).Some? ==> (r <==> t.status(GameOf(gameActive).value))
    {
      match GameOf(gameActive)
      case None => false
      case Some(g) => t.status(g)
    }

    /**
     * The active game's in-game time: -1 while the game is off, for games
     * without an IGT provider, and for a reading that throws.
     */
    function ReturnCurrentIGT(t: Telemetry): (r: int)
      reads this`splitters, this`gameActive, igt
      requires Valid()
      ensures !GameOn(t) ==> r == -1
      ensures r != -1 ==>
        && GameOn(t) && HasIgtProvider(GameOf(gameActive).value) && GameOf(gameActive).value in igt.linked
        && t.igt(GameOf(gameActive).value) == Ms(r)
      ensures (GameOn(t) && HasIgtProvider(GameOf(gameActive).value) && GameOf(gameActive).value in igt.linked
               && t.igt(GameOf(gameActive).value).Ms?) ==> r == t.igt(GameOf(gameActive).value).ms
    {
      if GameOn(t) then Caught(igt.ReturnCurrentIGT(t)) else -1
    }

    /** Whether the host may show the game's own time: an IGT rule is active and the time is valid. */
    function GetIsIGTActive(t: Telemetry): (r: bool)
      reads this`splitters, this`gameActive, this`anyGameTime, igt
      requires Valid()
      ensures r ==> anyGameTime && GameOn(t) && HasIgtProvider(GameOf(gameActive).value)
      ensures r <==> anyGameTime && ReturnCurrentIGT(t) > 0
    {
      anyGameTime && ReturnCurrentIGT(t) > 0
    }

    /** The host's in-game-time query: the time when it is active, else failure with 0. */
    function GetCurrentInGameTime(t: Telemetry): (r: (bool, int))
      reads this`splitters, this`gameActive, this`anyGameTime, igt
      requires Valid()
      ensures r.0 ==> anyGameTime && r.1 > 0 && r.1 == ReturnCurrentIGT(t)
      ensures !r.0 ==> r.1 == 0 && !GetIsIGTActive(t)
    {
      if GetIsIGTActive(t) then (true, ReturnCurrentIGT(t)) else (false, 0)
    }

    /** The active game's saved timer options; none for the none index. */
    function ActiveSettings(): TimerSettings
      reads this`splitters, this`gameActive
      requires forall g :: g in splitters
    {
      match GameOf(gameActive)
      case None => TimerSettings(false, false)
      case Some(g) => splitters[g].settings
    }

    /** What an auto-timer tick reads, gathered from the module, its splitters and the host. */
    function TimerEnvOf(t: Telemetry): TimerEnv
      reads this`splitters, this`gameActive, this`practiceMode, igt, control.host`activeSplit, control.host`splitCount
      requires Valid()
    {
      TimerEnv(GameOf(gameActive), practiceMode, ActiveSettings(), control.CurrentFinalSplit(), GameOn(t),
               ReturnCurrentIGT(t), t)
    }

    function Latch(): TimerLatch
      reads this`lastTime, this`lastCelesteTime, this`celesteRunStarted, control.host`running
    {
      TimerLatch(control.GetTimerRunning(), lastTime, lastCelesteTime, celesteRunStarted)
    }

    /** A start or stop with the host's duration flushed before and after. */
    method BracketedStartStop(start: bool)
      modifies control.host`running, control.host`log
      ensures control.host.running == start
      ensures control.host.log == old(control.host.log) + Transition(start, true)
    {
      control.UpdateDuration();
      control.StartStopTimer(start);
      control.UpdateDuration();
    }

    /** The IGT-advance rule: starts and stops bracketed by duration flushes, and the `lastTime` latch. */
    method IgtAdvanceTick(t: Telemetry)
      requires Valid()
      modifies this`lastTime, control.host`running, control.host`log
      ensures Valid()
      ensures var r := AdvanceRule(old(Latch()), old(TimerEnvOf(t)));
        Latch() == r.after && control.host.log == old(control.host.log) + r.calls
    {
      ghost var r := AdvanceRule(Latch(), TimerEnvOf(t));
      ghost var log0 := control.host.log;
      var inGameTime := -1;
      if GameOn(t) {
        inGameTime := Caught(igt.ReturnCurrentIGT(t));
      }
      var finalSplit, gameOn := control.CurrentFinalSplit(), GameOn(t);
      assert r.after.running == (inGameTime > 0 && inGameTime != lastTime && !finalSplit && gameOn);
      if inGameTime > 0 && lastTime != inGameTime && !control.GetTimerRunning() && !finalSplit && gameOn {
        BracketedStartStop(true);
        assert control.host.log == log0 + r.calls;
      }
      if (inGameTime <= 0 || (inGameTime > 0 && lastTime == inGameTime) || finalSplit || !gameOn) && control.GetTimerRunning() {
        BracketedStartStop(false);
        assert control.host.log == log0 + r.calls;
      }
      assert control.host.running == r.after.running && control.host.log == log0 + r.calls;
      if inGameTime > 0 {
        lastTime := inGameTime;
      }
    }

    /** The IGT-present rule. */
    method IgtPresentTick(t: Telemetry)
      requires Valid()
      modifies control.host`running, control.host`log
      ensures var r := PresentRule(old(Latch()), old(TimerEnvOf(t)));
        Latch() == r.after && control.host.log == old(control.host.log) + r.calls
    {
      var inGameTime := -1;
      if GameOn(t) {
        inGameTime := Caught(igt.ReturnCurrentIGT(t));
      }
      if inGameTime > 0 && !control.GetTimerRunning() && !control.CurrentFinalSplit() && GameOn(t) {
        control.StartStopTimer(true);
      }
      if (inGameTime <= 0 || control.CurrentFinalSplit() || !GameOn(t)) && control.GetTimerRunning() {
        control.StartStopTimer(false);
      }
    }

    /** Celeste's own rule. */
    method CelesteTick(t: Telemetry)
      requires Valid() && GameOf(gameActive) == Some(Celeste)
      modifies this`lastCelesteTime, this`celesteRunStarted, control.host`running, control.host`log
      ensures var r := CelesteRule(old(Latch()), old(TimerEnvOf(t)));
        Latch() == r.after && control.host.log == old(control.host.log) + r.calls
    {
      if !splitters[Celeste].settings.gameTimer {
        if !celesteRunStarted && t.celesteInGame {
          if !control.GetTimerRunning() && GameOn(t) {
            control.StartStopTimer(true);
          }
          celesteRunStarted := true;
        }
      } else {
        var currentCelesteTime := t.celesteTime;
        if currentCelesteTime > 0 && currentCelesteTime != lastCelesteTime && t.celesteInGame && GameOn(t) {
          if !control.GetTimerRunning() {
            control.StartStopTimer(true);
          }
        } else {
          if control.GetTimerRunning() {
            control.StartStopTimer(false);
          }
        }
        if currentCelesteTime > 0 {
          lastCelesteTime := currentCelesteTime;
        }
      }
    }

    /** Cuphead's own rule. */
    method CupheadTick(t: Telemetry)
      requires Valid() && GameOf(gameActive) == Some(Cuphead)
      modifies control.host`running, control.host`log
      ensures var r := CupheadRule(old(Latch()), old(TimerEnvOf(t)));
        Latch() == r.after && control.host.log == old(control.host.log) + r.calls
    {
      if !splitters[Cuphead].settings.gameTimer {
        if !t.cupheadInGame || !GameOn(t) {
          if control.GetTimerRunning() {
            control.StartStopTimer(false);
          }
        } else {
          if !control.GetTimerRunning() {
            control.StartStopTimer(true);
          }
        }
      } else {
        if !t.cupheadInGame || t.cupheadLevelCompleted || !GameOn(t) {
          if control.GetTimerRunning() {
            control.StartStopTimer(false);
          }
        } else {
          if !control.GetTimerRunning() {
            control.StartStopTimer(true);
          }
        }
      }
    }

    /** The run-started rule of Dark Souls II, Hollow Knight and Dishonored. */
    method RunStartedTick(runStarted: bool, loading: bool, t: Telemetry)
      requires Valid()
      modifies control.host`running, control.host`log
      ensures var r := RunStartedRule(old(Latch()), runStarted, loading, GameOn(t));
        Latch() == r.after && control.host.log == old(control.host.log) + r.calls
    {
      if runStarted && !loading && !control.GetTimerRunning() && GameOn(t) {
        control.StartStopTimer(true);
      }
      if (!runStarted || loading || !GameOn(t)) && control.GetTimerRunning() {
        control.StartStopTimer(false);
      }
    }

    /** One auto-timer tick: the game switch, then the IGT rule it selected. */
    method CheckAutoTimers(t: Telemetry)
      requires Valid()
      modifies this`anyGameTime, this`autoTimer, this`lastTime, this`lastCelesteTime, this`celesteRunStarted
      modifies control.host`running, control.host`log
      ensures Valid()
      ensures var r := AutoTimers(old(Latch()), old(TimerEnvOf(t)));
        && Latch() == r.after && control.host.log == old(control.host.log) + r.calls
        && autoTimer == r.autoTimer && anyGameTime == r.anyGameTime
    {
      ghost var l0, e0 := Latch(), TimerEnvOf(t);
      GameSwitch(t);
      ghost var l1 := Latch();
      assert TimerEnvOf(t) == e0;
      IgtRules(t);
      FlagsSelectIgtRule(l0, e0);
      if autoTimer {
        assert l1 == l0;
      }
    }

    /**
     * The per-game switch of the auto-timer tick: it sets the two flags and
     * runs the game-specific rules; the IGT rules are left to the tail.
     */
    method GameSwitch(t: Telemetry)
      requires Valid()
      modifies this`anyGameTime, this`autoTimer, this`lastCelesteTime, this`celesteRunStarted
      modifies control.host`running, control.host`log
      ensures Valid()
      ensures var r := AutoTimers(old(Latch()), old(TimerEnvOf(t)));
        && autoTimer == r.autoTimer && anyGameTime == r.anyGameTime
        && (!autoTimer ==> Latch() == r.after && control.host.log == old(control.host.log) + r.calls)
        && (autoTimer ==> Latch() == old(Latch()) && control.host.log == old(control.host.log))
    {
      anyGameTime := false;
      autoTimer := false;
      match GameOf(gameActive) {
        case Some(g) =>
          if IsIgtRuleGame(g) {
            SelectIgtRule(g);
          } else {
            GameRule(g, t);
          }
        case None =>
          anyGameTime := false;
          autoTimer := false;
      }
    }

    /** The switch cases of Sekiro, Dark Souls, Dark Souls III and Elden Ring: select an IGT rule. */
    method SelectIgtRule(g: Game)
      requires Valid() && GameOf(gameActive) == Some(g) && IsIgtRuleGame(g) && !autoTimer && !anyGameTime
      modifies this`anyGameTime, this`autoTimer
      ensures autoTimer == (splitters[g].settings.autoTimer && !practiceMode)
      ensures anyGameTime == (autoTimer && UsesAdvanceRule(g, splitters[g].settings))
    {
      var s := splitters[g].settings;
      if s.autoTimer && !practiceMode {
        autoTimer := true;
        if g == Ds3 {
          if !s.gameTimer { anyGameTime := true; }
        } else {
          if s.gameTimer { anyGameTime := true; }
        }
      }
    }

    /** The switch cases of the games with their own rule. */
    method GameRule(g: Game, t: Telemetry)
      requires Valid() && GameOf(gameActive) == Some(g) && !IsIgtRuleGame(g) && !autoTimer && !anyGameTime
      modifies this`anyGameTime, this`lastCelesteTime, this`celesteRunStarted
      modifies control.host`running, control.host`log
      ensures var r := AutoTimers(old(Latch()), old(TimerEnvOf(t)));
        && !r.autoTimer && anyGameTime == r.anyGameTime
        && Latch() == r.after && control.host.log == old(control.host.log) + r.calls
    {
      ghost var l0, e0 := Latch(), TimerEnvOf(t);
      ghost var r := AutoTimers(l0, e0);
      var s := splitters[g].settings;
      if s.autoTimer && !practiceMode {
        match g {
          case Celeste =>
            assert r == CelesteRule(l0, e0);
            CelesteTick(t);
            if s.gameTimer { anyGameTime := true; }
          case Cuphead =>
            assert r == CupheadRule(l0, e0);
            CupheadTick(t);
            if s.gameTimer { anyGameTime := true; }
          case Ds2 =>
            assert r == RunStartedRule(l0, t.ds2RunStarted, false, e0.gameOn);
            RunStartedTick(t.ds2RunStarted, false, t);
          case Hollow =>
            assert r == RunStartedRule(l0, t.hollowRunStarted, false, e0.gameOn);
            RunStartedTick(t.hollowRunStarted, false, t);
          case Dishonored =>
            assert r == RunStartedRule(l0, t.dishonoredRunStarted, s.gameTimer && t.dishonoredLoading, e0.gameOn);
            RunStartedTick(t.dishonoredRunStarted, s.gameTimer && t.dishonoredLoading, t);
        }
      }
    }

    /** The tail of the auto-timer tick: the IGT rule the game switch selected, if any. */
    method IgtRules(t: Telemetry)
      requires Valid()
      modifies this`lastTime, control.host`running, control.host`log
      ensures Valid()
      ensures autoTimer && anyGameTime ==> var r := AdvanceRule(old(Latch()), old(TimerEnvOf(t)));
        Latch() == r.after && control.host.log == old(control.host.log) + r.calls
      ensures autoTimer && !anyGameTime ==> var r := PresentRule(old(Latch()), old(TimerEnvOf(t)));
        Latch() == r.after && control.host.log == old(control.host.log) + r.calls
      ensures !autoTimer ==> Latch() == old(Latch()) && control.host.log == old(control.host.log)
    {
      if autoTimer && anyGameTime {
        IgtAdvanceTick(t);
      }
      if autoTimer && !anyGameTime {
        IgtPresentTick(t);
      }
    }

    /** What a watchdog tick reads. */
    function ResetEnvOf(t: Telemetry): ResetEnv
      reads this`splitters, this`gameActive, this`debugMode, igt
      requires Valid()
    {
      ResetEnv(autoResetSplit, GameOf(gameActive), GameOn(t), ReturnCurrentIGT(t),
               t.ds2Loading, t.ds2AtStartPosition, t.hollowNewGame, debugMode)
    }

    /** A firing of the watchdog: latch, clear the splitters' flags, then stop and reset unless debugging. */
    method FireReset()
      requires Valid()
      modifies this`profileResetDone, this`splitters
      modifies control.host`running, control.host`activeSplit, control.host`attempts, control.host`log
      ensures Valid() && profileResetDone
      ensures forall g :: splitters[g] == if g == Dishonored then old(splitters)[g] else Cleared(old(splitters)[g])
      ensures control.host.log == old(control.host.log) + ResetCalls(debugMode)
      ensures control.host.Status() == if debugMode then old(control.host.Status()) else AfterReset(old(control.host.Status()))
    {
      profileResetDone := true;
      ResetSplitterFlags();
      if !debugMode {
        control.StartStopTimer(false);
        control.ProfileReset();
      }
    }

    /** The one-shot latch over one occurrence: fire on its first tick, re-arm when it ends. */
    method LatchReset(occurs: bool)
      requires Valid()
      modifies this`profileResetDone, this`splitters
      modifies control.host`running, control.host`activeSplit, control.host`attempts, control.host`log
      ensures Valid()
      ensures var r := Latched(old(profileResetDone), occurs, debugMode);
        && profileResetDone == r.done && control.host.log == old(control.host.log) + r.calls
        && control.host.Status() == (if r.fired && !debugMode then AfterReset(old(control.host.Status())) else old(control.host.Status()))
        && forall g :: splitters[g] == if !r.fired || g == Dishonored then old(splitters)[g] else Cleared(old(splitters)[g])
    {
      if occurs {
        if !profileResetDone {
          FireReset();
        }
      } else {
        profileResetDone := false;
      }
    }

    /** One auto-reset watchdog tick. */
    method CheckAutoResetSplit(t: Telemetry)
      requires Valid()
      modifies this`profileResetDone, this`splitters
      modifies control.host`running, control.host`activeSplit, control.host`attempts, control.host`log
      ensures Valid()
      ensures var r := ResetCheck(old(profileResetDone), old(ResetEnvOf(t)));
        && profileResetDone == r.done && control.host.log == old(control.host.log) + r.calls
        && control.host.Status() == (if r.fired && !debugMode then AfterReset(old(control.host.Status())) else old(control.host.Status()))
        && forall g :: splitters[g] == if !r.fired || g == Dishonored then old(splitters)[g] else Cleared(old(splitters)[g])
    {
      ghost var e0 := ResetEnvOf(t);
      ghost var r := ResetCheck(profileResetDone, e0);
      if autoResetSplit {
        var inGameTime := -1;
        var specialCaseReset := false;
        if GameOn(t) {
          inGameTime := Caught(igt.ReturnCurrentIGT(t));
          assert e0.gameOn && inGameTime == e0.igt;
          if gameActive == IndexOf(Ds2) {
            specialCaseReset := true;
            if !t.ds2Loading {
              assert r == Latched(profileResetDone, t.ds2AtStartPosition, debugMode);
              LatchReset(t.ds2AtStartPosition);
            }
          } else if gameActive == IndexOf(Hollow) {
            specialCaseReset := true;
            assert r == Latched(profileResetDone, t.hollowNewGame, debugMode);
            LatchReset(t.hollowNewGame);
          }
        }
        if !specialCaseReset {
          assert r == Latched(profileResetDone, inGameTime > 0 && inGameTime <= ResetThresholdMs, debugMode);
          LatchReset(inGameTime > 0 && inGameTime <= ResetThresholdMs);
        }
      }
    }
  }
}
