/**
 * The auto-timer tick as a function of its inputs: which host calls one tick
 * makes and which latches it leaves behind. The main module's imperative tick
 * is proved to follow `AutoTimers`.
 *
 * Three families of rule exist: the IGT-advance rule (the timer runs while the
 * in-game time moves), the IGT-present rule (the timer runs while there is an
 * in-game time at all), and the game-specific rules driven by a run-started
 * latch, a loading flag or a level-completed flag.
 */
module AutoTimer {
  import opened Wrappers
  import opened Games
  import opened Hcm

  /** The two per-game timer options of the saved settings. */
  datatype TimerSettings = TimerSettings(autoTimer: bool, gameTimer: bool)

  /** Everything a tick reads besides the latches. */
  datatype TimerEnv = TimerEnv(
    game: Option<Game>,        // the active game; None for the none index and unknown indices
    practice: bool,
    settings: TimerSettings,   // the active game's options
    finalSplit: bool,          // the host is on its last split
    gameOn: bool,
    igt: int,                  // the main module's in-game time, -1 when unknown
    probes: Telemetry)

  /** The host's running flag and the tick's own memory. */
  datatype TimerLatch = TimerLatch(running: bool, lastTime: int, lastCelesteTime: int, celesteRunStarted: bool)

  datatype TimerTick = TimerTick(calls: seq<Call>, after: TimerLatch, autoTimer: bool, anyGameTime: bool)

  /** A start or stop call, bracketed by duration flushes when `bracket` holds. */
  function Transition(start: bool, bracket: bool): (r: seq<Call>)
    ensures TimerCalls(r) == [Timer(start)]
  {
    var single := [Timer(start)];
    assert TimerCalls(single) == single by {
      assert single[1..] == [];
    }
    if bracket then
      var tail := [Timer(start), UpdateDuration];
      assert TimerCalls(tail) == single by {
        assert tail[1..] == [UpdateDuration];
        assert [UpdateDuration][1..] == [];
      }
      assert [UpdateDuration, Timer(start), UpdateDuration][1..] == tail;
      [UpdateDuration, Timer(start), UpdateDuration]
    else single
  }

  /**
   * A start check followed by a stop check, each guarded by the running flag
   * as it is at that point. The two conditions of every rule exclude each other.
   */
  function Drive(running: bool, startWhen: bool, stopWhen: bool, bracket: bool): (r: (seq<Call>, bool))
    requires !(startWhen && stopWhen)
    ensures r.1 == (if startWhen then true else if stopWhen then false else running)
    ensures r.0 == (if r.1 == running then [] else Transition(r.1, bracket))
  {
    var start := startWhen && !running;
    var running1 := running || start;
    var stop := stopWhen && running1;
    var calls := (if start then Transition(true, bracket) else []) + (if stop then Transition(false, bracket) else []);
    (calls, running1 && !stop)
  }

  /** The games driven by the two IGT rules. */
  predicate IsIgtRuleGame(g: Game) {
    g in {Sekiro, Ds1, Ds3, Elden}
  }

  /** Whether an IGT rule game uses the advance rule; Ds3 reads its option the other way round. */
  predicate UsesAdvanceRule(g: Game, s: TimerSettings) {
    if g == Ds3 then !s.gameTimer else s.gameTimer
  }

  /** The timer runs while the in-game time is valid, has moved, the run is not over and the game is on. */
  function AdvanceRule(l: TimerLatch, e: TimerEnv): (r: TimerTick)
    ensures r.after.running == (e.igt > 0 && e.igt != l.lastTime && !e.finalSplit && e.gameOn)
    ensures r.calls == (if r.after.running == l.running then [] else Transition(r.after.running, true))
    ensures r.after.lastTime == (if e.igt > 0 then e.igt else l.lastTime)
    ensures r.after.(running := l.running, lastTime := l.lastTime) == l
    ensures r.autoTimer && r.anyGameTime
  {
    var startWhen := e.igt > 0 && l.lastTime != e.igt && !e.finalSplit && e.gameOn;
    var stopWhen := e.igt <= 0 || (e.igt > 0 && l.lastTime == e.igt) || e.finalSplit || !e.gameOn;
    var d := Drive(l.running, startWhen, stopWhen, true);
    TimerTick(d.0, l.(running := d.1, lastTime := if e.igt > 0 then e.igt else l.lastTime), true, true)
  }

  /** The timer runs while there is a valid in-game time, the run is not over and the game is on. */
  function PresentRule(l: TimerLatch, e: TimerEnv): (r: TimerTick)
    ensures r.after.running == (e.igt > 0 && !e.finalSplit && e.gameOn)
    ensures r.calls == (if r.after.running == l.running then [] else [Timer(r.after.running)])
    ensures r.after.(running := l.running) == l
    ensures r.autoTimer && !r.anyGameTime
  {
    var d := Drive(l.running, e.igt > 0 && !e.finalSplit && e.gameOn, e.igt <= 0 || e.finalSplit || !e.gameOn, false);
    TimerTick(d.0, l.(running := d.1), true, false)
  }

  /**
   * Celeste without the game-time option starts the timer once, on the first
   * tick in game, and never stops it; with the option it follows its own clock.
   */
  function CelesteRule(l: TimerLatch, e: TimerEnv): (r: TimerTick)
    ensures !r.autoTimer && r.anyGameTime == e.settings.gameTimer
    ensures !e.settings.gameTimer ==> r.after.lastCelesteTime == l.lastCelesteTime && !(l.running && !r.after.running)
    ensures !e.settings.gameTimer ==>
      r.after.celesteRunStarted == (l.celesteRunStarted || e.probes.celesteInGame)
    ensures !e.settings.gameTimer ==>
      r.after.running == (l.running || (!l.celesteRunStarted && e.probes.celesteInGame && e.gameOn))
    ensures e.settings.gameTimer ==>
      && r.after.lastCelesteTime == (if e.probes.celesteTime > 0 then e.probes.celesteTime else l.lastCelesteTime)
      && r.after.celesteRunStarted == l.celesteRunStarted
    ensures e.settings.gameTimer ==> (r.after.running ==
      (e.probes.celesteTime > 0 && e.probes.celesteTime != l.lastCelesteTime && e.probes.celesteInGame && e.gameOn))
    ensures r.calls == (if r.after.running == l.running then [] else [Timer(r.after.running)])
    ensures r.after.lastTime == l.lastTime
  {
    var p := e.probes;
    if !e.settings.gameTimer then
      if !l.celesteRunStarted && p.celesteInGame then
        var d := Drive(l.running, e.gameOn, false, false);
        TimerTick(d.0, l.(running := d.1, celesteRunStarted := true), false, false)
      else TimerTick([], l, false, false)
    else
      var now := p.celesteTime;
      var go := now > 0 && now != l.lastCelesteTime && p.celesteInGame && e.gameOn;
      var d := Drive(l.running, go, !go, false);
      TimerTick(d.0, l.(running := d.1, lastCelesteTime := if now > 0 then now else l.lastCelesteTime), false, true)
  }

  /** Cuphead runs the timer while in game (and, with the game-time option, until the level completes). */
  function CupheadRule(l: TimerLatch, e: TimerEnv): (r: TimerTick)
    ensures r.after.running ==
      (e.probes.cupheadInGame && e.gameOn && !(e.settings.gameTimer && e.probes.cupheadLevelCompleted))
    ensures r.calls == (if r.after.running == l.running then [] else [Timer(r.after.running)])
    ensures r.after.(running := l.running) == l
    ensures !r.autoTimer && r.anyGameTime == e.settings.gameTimer
  {
    var p := e.probes;
    if !e.settings.gameTimer then
      var go := p.cupheadInGame && e.gameOn;
      var d := Drive(l.running, go, !go, false);
      TimerTick(d.0, l.(running := d.1), false, false)
    else
      var go := p.cupheadInGame && !p.cupheadLevelCompleted && e.gameOn;
      var d := Drive(l.running, go, !go, false);
      TimerTick(d.0, l.(running := d.1), false, true)
  }

  /** The run-started rule of Ds2, Hollow and Dishonored; `loading` also stops the timer where it counts. */
  function RunStartedRule(l: TimerLatch, runStarted: bool, loading: bool, gameOn: bool): (r: TimerTick)
    ensures r.after.running == (runStarted && !loading && gameOn)
    ensures r.calls == (if r.after.running == l.running then [] else [Timer(r.after.running)])
    ensures r.after.(running := l.running) == l
    ensures !r.autoTimer && !r.anyGameTime
  {
    var d := Drive(l.running, runStarted && !loading && gameOn, !runStarted || loading || !gameOn, false);
    TimerTick(d.0, l.(running := d.1), false, false)
  }

  /** One auto-timer tick. */
  function AutoTimers(l: TimerLatch, e: TimerEnv): (r: TimerTick)
    ensures TimerCalls(r.calls) == (if r.after.running == l.running then [] else [Timer(r.after.running)])
    ensures e.game.None? || e.practice || !e.settings.autoTimer ==> r == TimerTick([], l, false, false)
    ensures r.autoTimer <==> e.game.Some? && IsIgtRuleGame(e.game.value) && e.settings.autoTimer && !e.practice
    ensures r.anyGameTime ==> e.game.Some? && e.settings.autoTimer && !e.practice
    ensures r.after.lastTime != l.lastTime ==> r.autoTimer && r.anyGameTime && e.igt > 0 && r.after.lastTime == e.igt
  {
    match e.game
    case None => TimerTick([], l, false, false)
    case Some(g) =>
      if !e.settings.autoTimer || e.practice then TimerTick([], l, false, false)
      else match g
        case Sekiro => if e.settings.gameTimer then AdvanceRule(l, e) else PresentRule(l, e)
        case Ds1 => if e.settings.gameTimer then AdvanceRule(l, e) else PresentRule(l, e)
        case Elden => if e.settings.gameTimer then AdvanceRule(l, e) else PresentRule(l, e)
        case Ds3 => if !e.settings.gameTimer then AdvanceRule(l, e) else PresentRule(l, e)
        case Celeste => CelesteRule(l, e)
        case Cuphead => CupheadRule(l, e)
        case Ds2 => RunStartedRule(l, e.probes.ds2RunStarted, false, e.gameOn)
        case Hollow => RunStartedRule(l, e.probes.hollowRunStarted, false, e.gameOn)
        case Dishonored =>
          RunStartedRule(l, e.probes.dishonoredRunStarted, e.settings.gameTimer && e.probes.dishonoredLoading, e.gameOn)
  }

  /** The IGT-advance family, stated as the condition under which the timer ends the tick running. */
  lemma AdvanceRuleGoverns(l: TimerLatch, e: TimerEnv)
    requires e.game.Some? && IsIgtRuleGame(e.game.value) && UsesAdvanceRule(e.game.value, e.settings)
    requires e.settings.autoTimer && !e.practice
    ensures var r := AutoTimers(l, e);
      && r.after.running == (e.igt > 0 && e.igt != l.lastTime && !e.finalSplit && e.gameOn)
      && r.calls == (if r.after.running == l.running then [] else [UpdateDuration, Timer(r.after.running), UpdateDuration])
      && r.after.lastTime == (if e.igt > 0 then e.igt else l.lastTime)
  {
  }

  /** The two flags a tick leaves behind name the IGT rule it ran, if any. */
  lemma FlagsSelectIgtRule(l: TimerLatch, e: TimerEnv)
    ensures var r := AutoTimers(l, e); r.autoTimer && r.anyGameTime ==> r == AdvanceRule(l, e)
    ensures var r := AutoTimers(l, e); r.autoTimer && !r.anyGameTime ==> r == PresentRule(l, e)
  {
  }

  /** On the last split the IGT rules stop the timer whatever the in-game time does. */
  lemma FinalSplitStopsIgtRules(l: TimerLatch, e: TimerEnv)
    requires e.game.Some? && IsIgtRuleGame(e.game.value) && e.settings.autoTimer && !e.practice
    requires e.finalSplit
    ensures !AutoTimers(l, e).after.running
  {
  }

  /**
   * A game that is off ends every rule's tick with the timer stopped, except
   * Celeste without the game-time option, whose rule only ever starts it.
   */
  lemma GameOffStopsTimer(l: TimerLatch, e: TimerEnv)
    requires !e.gameOn && e.igt == -1
    requires !(e.game == Some(Celeste) && !e.settings.gameTimer)
    requires e.game.Some? && e.settings.autoTimer && !e.practice
    ensures !AutoTimers(l, e).after.running
  {
  }

  /** Several ticks in a row, with the host's running flag threaded through. */
  function TimerRun(l: TimerLatch, envs: seq<TimerEnv>): (r: (seq<Call>, TimerLatch))
    decreases |envs|
  {
    if envs == [] then ([], l)
    else
      var first := AutoTimers(l, envs[0]);
      var rest := TimerRun(first.after, envs[1..]);
      (first.calls + rest.0, rest.1)
  }

  /** Start and stop calls alternate, beginning with the opposite of the initial running flag. */
  ghost predicate Alternating(calls: seq<Call>, running: bool)
    decreases |calls|
  {
    calls == [] || (calls[0] == Timer(!running) && Alternating(calls[1..], !running))
  }

  /**
   * Over any sequence of ticks the auto-timer never starts a running timer or
   * stops a stopped one, and its last call decides whether the timer runs.
   */
  lemma {:induction false} TimerCallsAlternate(l: TimerLatch, envs: seq<TimerEnv>)
    ensures Alternating(TimerCalls(TimerRun(l, envs).0), l.running)
    ensures TimerRun(l, envs).1.running == (if |TimerCalls(TimerRun(l, envs).0)| % 2 == 0 then l.running else !l.running)
    decreases |envs|
  {
    if envs != [] {
      var first := AutoTimers(l, envs[0]);
      var rest := TimerRun(first.after, envs[1..]);
      assert TimerRun(l, envs) == (first.calls + rest.0, rest.1);
      TimerCallsAlternate(first.after, envs[1..]);
      TimerCallsAppend(first.calls, rest.0);
      AlternatingCons(TimerCalls(first.calls), TimerCalls(rest.0), l.running, first.after.running);
    }
  }

  /** One tick's calls, at most a single transition, in front of an alternating run. */
  lemma AlternatingCons(tc: seq<Call>, rest: seq<Call>, running: bool, mid: bool)
    requires tc == (if mid == running then [] else [Timer(mid)])
    requires Alternating(rest, mid)
    ensures Alternating(tc + rest, running)
    ensures |tc + rest| % 2 == 0 <==> (|rest| % 2 == 0) == (mid == running)
  {
    if tc == [] {
      assert tc + rest == rest;
    } else {
      assert (tc + rest)[1..] == rest;
    }
  }

  /** The running flag after each tick of a run. */
  function RunningAfterEach(l: TimerLatch, envs: seq<TimerEnv>): (r: seq<bool>)
    ensures |r| == |envs|
    decreases |envs|
  {
    if envs == [] then []
    else
      var first := AutoTimers(l, envs[0]);
      [first.after.running] + RunningAfterEach(first.after, envs[1..])
  }

  /** Entry i of the per-tick flags is where the run's first i + 1 ticks leave the timer. */
  lemma {:induction false} RunningAfterEachPrefix(l: TimerLatch, envs: seq<TimerEnv>, i: int)
    requires 0 <= i < |envs|
    ensures RunningAfterEach(l, envs)[i] == TimerRun(l, envs[..i + 1]).1.running
    decreases |envs|
  {
    var first := AutoTimers(l, envs[0]);
    var prefix := envs[..i + 1];
    assert prefix[0] == envs[0];
    assert TimerRun(l, prefix).1 == TimerRun(first.after, prefix[1..]).1;
    assert RunningAfterEach(l, envs)[i] == ([first.after.running] + RunningAfterEach(first.after, envs[1..]))[i];
    if i == 0 {
      assert prefix[1..] == [];
    } else {
      assert prefix[1..] == envs[1..][..i];
      RunningAfterEachPrefix(first.after, envs[1..], i - 1);
    }
  }

  /** One IGT-advance tick in front of the rest of a run. */
  lemma AdvanceTickThenRest(l: TimerLatch, e: TimerEnv, rest: seq<TimerEnv>)
    requires e.game == Some(Sekiro) && e.settings == TimerSettings(true, true) && !e.practice && !e.finalSplit && e.gameOn
    ensures RunningAfterEach(l, [e] + rest) ==
      [e.igt > 0 && e.igt != l.lastTime] +
      RunningAfterEach(l.(running := e.igt > 0 && e.igt != l.lastTime, lastTime := if e.igt > 0 then e.igt else l.lastTime), rest)
  {
    AdvanceRuleGoverns(l, e);
    assert ([e] + rest)[1..] == rest;
  }

  /**
   * In-game times -1, 100, 100, 250, -1 under the IGT-advance rule, starting
   * stopped: the timer runs on exactly the two ticks where the time moved.
   */
  lemma AdvanceRuleExample(l: TimerLatch, e: TimerEnv)
    requires e.game == Some(Sekiro) && e.settings == TimerSettings(true, true) && !e.practice && !e.finalSplit && e.gameOn
    requires e.igt == -1 && !l.running && l.lastTime == 0
    ensures
      var l1 := AutoTimers(l, e).after;
      var l2 := AutoTimers(l1, e.(igt := 100)).after;
      var l3 := AutoTimers(l2, e.(igt := 100)).after;
      var l4 := AutoTimers(l3, e.(igt := 250)).after;
      var l5 := AutoTimers(l4, e).after;
      [l1.running, l2.running, l3.running, l4.running, l5.running] == [false, true, false, true, false]
  {
    var e100, e250 := e.(igt := 100), e.(igt := 250);
    AdvanceRuleGoverns(l, e);
    var l1 := AutoTimers(l, e).after;
    AdvanceRuleGoverns(l1, e100);
    var l2 := AutoTimers(l1, e100).after;
    AdvanceRuleGoverns(l2, e100);
    var l3 := AutoTimers(l2, e100).after;
    AdvanceRuleGoverns(l3, e250);
    var l4 := AutoTimers(l3, e250).after;
    AdvanceRuleGoverns(l4, e);
  }
}
