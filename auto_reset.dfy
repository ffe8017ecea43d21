/**
 * The auto-reset watchdog as a function of its inputs. One tick either fires
 * a reset (splitter flags cleared, timer stopped, host profile reset) or
 * moves the one-shot latch that keeps the same occurrence from firing twice.
 *
 * Dark Souls II and Hollow Knight replace the generic in-game-time rule by
 * their own occurrence, but only while their game is on; a Dark Souls II
 * loading screen leaves the latch as it is.
 */
module AutoReset {
  import opened Wrappers
  import opened Games
  import opened Hcm

  /** The in-game time up to which a running game counts as freshly started. */
  const ResetThresholdMs: int := 10000

  /** Everything a watchdog tick reads besides the latch. */
  datatype ResetEnv = ResetEnv(
    enabled: bool,        // the saved auto-reset option
    game: Option<Game>,   // the active game
    gameOn: bool,
    igt: int,             // the main module's in-game time, -1 when unknown
    ds2Loading: bool,
    ds2AtStart: bool,     // the player stands in the new-game position box
    hollowNewGame: bool,
    debug: bool)

  /** The latch after the tick, whether the tick fired, and the host calls it made. */
  datatype ResetTick = ResetTick(done: bool, fired: bool, calls: seq<Call>)

  /** The host calls of a firing; none in debug mode. */
  function ResetCalls(debug: bool): (r: seq<Call>)
    ensures debug ==> r == []
    ensures !debug ==> r == [Timer(false), ProfileReset]
  {
    if debug then [] else [Timer(false), ProfileReset]
  }

  /** The one-shot latch over one occurrence flag: fire on its first tick, re-arm when it ends. */
  function Latched(done: bool, occurs: bool, debug: bool): (r: ResetTick)
    ensures r.done == occurs
    ensures r.fired <==> occurs && !done
    ensures r.calls == if r.fired then ResetCalls(debug) else []
  {
    if !occurs then ResetTick(false, false, [])
    else if done then ResetTick(true, false, [])
    else ResetTick(true, true, ResetCalls(debug))
  }

  /** Whether the generic in-game-time rule decides the tick. */
  predicate GenericRule(e: ResetEnv) {
    !(e.gameOn && e.game in {Some(Ds2), Some(Hollow)})
  }

  /** One watchdog tick. */
  function ResetCheck(done: bool, e: ResetEnv): (r: ResetTick)
    ensures r.fired ==> !done && r.done && e.enabled
    ensures r.calls == if r.fired then ResetCalls(e.debug) else []
    ensures !e.enabled ==> r == ResetTick(done, false, [])
    ensures e.enabled && GenericRule(e) ==>
      r.done == (0 < e.igt <= ResetThresholdMs) && (r.fired <==> !done && 0 < e.igt <= ResetThresholdMs)
    ensures e.enabled && e.gameOn && e.game == Some(Ds2) && e.ds2Loading ==> r == ResetTick(done, false, [])
    ensures e.enabled && e.gameOn && e.game == Some(Ds2) && !e.ds2Loading ==>
      r.done == e.ds2AtStart && (r.fired <==> !done && e.ds2AtStart)
    ensures e.enabled && e.gameOn && e.game == Some(Hollow) ==>
      r.done == e.hollowNewGame && (r.fired <==> !done && e.hollowNewGame)
  {
    if !e.enabled then ResetTick(done, false, [])
    else if e.gameOn && e.game == Some(Ds2) then
      if e.ds2Loading then ResetTick(done, false, []) else Latched(done, e.ds2AtStart, e.debug)
    else if e.gameOn && e.game == Some(Hollow) then Latched(done, e.hollowNewGame, e.debug)
    else Latched(done, 0 < e.igt && e.igt <= ResetThresholdMs, e.debug)
  }

  /** The latch and the number of firings after a sequence of ticks. */
  datatype ResetTrace = ResetTrace(done: bool, firings: nat)

  function ResetRun(done: bool, envs: seq<ResetEnv>): ResetTrace
    decreases |envs|
  {
    if envs == [] then ResetTrace(done, 0)
    else
      var first := ResetCheck(done, envs[0]);
      var rest := ResetRun(first.done, envs[1..]);
      ResetTrace(rest.done, rest.firings + (if first.fired then 1 else 0))
  }

  /** A tick on which the generic rule sees a freshly started game. */
  predicate FreshStart(e: ResetEnv) {
    e.enabled && GenericRule(e) && 0 < e.igt <= ResetThresholdMs
  }

  /** While a fresh start persists the watchdog fires once, on its first tick, and stays latched. */
  lemma {:induction false} PersistingStartFiresOnce(done: bool, envs: seq<ResetEnv>)
    requires |envs| >= 1
    requires forall i :: 0 <= i < |envs| ==> FreshStart(envs[i])
    ensures ResetRun(done, envs) == ResetTrace(true, if done then 0 else 1)
    decreases |envs|
  {
    if |envs| > 1 {
      PersistingStartFiresOnce(true, envs[1..]);
    }
  }

  lemma {:induction false} ResetRunAppend(done: bool, a: seq<ResetEnv>, b: seq<ResetEnv>)
    ensures ResetRun(done, a + b).done == ResetRun(ResetRun(done, a).done, b).done
    ensures ResetRun(done, a + b).firings == ResetRun(done, a).firings + ResetRun(ResetRun(done, a).done, b).firings
    decreases |a|
  {
    if a == [] {
      assert a + b == b;
    } else {
      assert (a + b)[1..] == a[1..] + b;
      ResetRunAppend(ResetCheck(done, a[0]).done, a[1..], b);
    }
  }

  /**
   * Once per occurrence: two fresh starts separated by one tick that is not a
   * fresh start (the game off, or its time past the threshold) fire twice.
   */
  lemma TwoStartsFireTwice(a: seq<ResetEnv>, gap: ResetEnv, b: seq<ResetEnv>)
    requires |a| >= 1 && |b| >= 1
    requires forall i :: 0 <= i < |a| ==> FreshStart(a[i])
    requires forall i :: 0 <= i < |b| ==> FreshStart(b[i])
    requires gap.enabled && GenericRule(gap) && !(0 < gap.igt <= ResetThresholdMs)
    ensures ResetRun(false, a + [gap] + b).firings == 2
  {
    PersistingStartFiresOnce(false, a);
    ResetRunAppend(false, a, [gap]);
    assert ResetRun(true, [gap]) == ResetTrace(false, 0) by {
      assert [gap][1..] == [];
    }
    PersistingStartFiresOnce(false, b);
    ResetRunAppend(false, a + [gap], b);
  }

  /** Dark Souls II loading ticks change nothing, so a position reached across a load fires once. */
  lemma {:induction false} LoadingKeepsLatch(done: bool, envs: seq<ResetEnv>)
    requires forall i :: 0 <= i < |envs| ==> envs[i].gameOn && envs[i].game == Some(Ds2) && envs[i].ds2Loading
    ensures ResetRun(done, envs) == ResetTrace(done, 0)
    decreases |envs|
  {
    if envs != [] {
      LoadingKeepsLatch(done, envs[1..]);
    }
  }
}
