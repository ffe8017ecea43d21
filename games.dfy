/** The usual optional value. */
module Wrappers {
  datatype Option<T> = None | Some(value: T)
}

/**
 * The games the main module can drive, their host-facing indices, and the
 * per-tick telemetry that the game splitters expose to the decision logic.
 */
module Games {
  import opened Wrappers

  /** The nine games that have a splitter in the main module. */
  datatype Game = Sekiro | Ds1 | Ds2 | Ds3 | Elden | Hollow | Celeste | Dishonored | Cuphead

  /** The index of "no splitter engaged". */
  const NoneIndex: int := 0

  /** The host-facing index of each game (the combo-box position of the host). */
  function IndexOf(g: Game): (k: int)
    ensures k != NoneIndex
  {
    match g
    case Sekiro => 1
    case Ds1 => 2
    case Ds2 => 3
    case Ds3 => 4
    case Elden => 5
    case Hollow => 6
    case Celeste => 7
    case Cuphead => 8
    case Dishonored => 9
  }

  /** Decodes an index; `None` for the none index and for every unknown index. */
  function GameOf(k: int): (r: Option<Game>)
    ensures r.Some? ==> IndexOf(r.value) == k
    ensures forall g :: IndexOf(g) == k ==> r == Some(g)
  {
    if k == 1 then Some(Sekiro)
    else if k == 2 then Some(Ds1)
    else if k == 3 then Some(Ds2)
    else if k == 4 then Some(Ds3)
    else if k == 5 then Some(Elden)
    else if k == 6 then Some(Hollow)
    else if k == 7 then Some(Celeste)
    else if k == 8 then Some(Cuphead)
    else if k == 9 then Some(Dishonored)
    else None
  }

  /** The order in which the enabled splitter is looked for. */
  const Precedence: seq<Game> := [Sekiro, Ds1, Ds2, Ds3, Elden, Hollow, Celeste, Dishonored, Cuphead]

  /** The games whose splitter offers an in-game-time reading to the IGT module. */
  predicate HasIgtProvider(g: Game) {
    g in {Sekiro, Ds1, Ds3, Elden, Celeste, Cuphead}
  }

  /** One reading of a game's in-game time; `Fault` stands for a reading that threw. */
  datatype IgtRead = Ms(ms: int) | Fault

  /**
   * What the game splitters report on one tick. The splitters poll game memory
   * themselves; the decision logic only reads these values.
   */
  datatype Telemetry = Telemetry(
    status: Game -> bool,           // the splitter's process-attached status flag
    igt: Game -> IgtRead,           // getTimeInGame() of each IGT provider
    celesteTime: int,               // the Celeste splitter's own GetTimeInGame()
    celesteInGame: bool,
    cupheadInGame: bool,
    cupheadLevelCompleted: bool,
    ds2RunStarted: bool,
    hollowRunStarted: bool,
    dishonoredRunStarted: bool,
    dishonoredLoading: bool,
    ds2Loading: bool,
    ds2AtStartPosition: bool,       // the player stands in the new-game position box
    hollowNewGame: bool)
}

/** The host: the hit counter's timer, its split position, and a log of every call made to it. */
module Hcm {
  /** A call the core makes to its environment; `Delay` records a blocking sleep. */
  datatype Call =
    | Timer(start: bool)
    | UpdateDuration
    | ProfileReset
    | ProfileSplitGo(count: int)
    | ProfileHitGo(count: int, wayMode: bool)
    | Delay(ms: nat)

  /** The start/stop calls of a log, in order. */
  function TimerCalls(calls: seq<Call>): (r: seq<Call>)
    ensures |r| <= |calls|
    ensures forall c :: c in r ==> c.Timer? && c in calls
    ensures forall c :: c in calls && c.Timer? ==> c in r
  {
    if calls == [] then []
    else (if calls[0].Timer? then [calls[0]] else []) + TimerCalls(calls[1..])
  }

  lemma {:induction false} TimerCallsAppend(a: seq<Call>, b: seq<Call>)
    ensures TimerCalls(a + b) == TimerCalls(a) + TimerCalls(b)
  {
    if a == [] {
      assert a + b == b;
    } else {
      assert (a + b)[1..] == a[1..] + b;
      TimerCallsAppend(a[1..], b);
    }
  }

  /** The number of host splits in a log. */
  function SplitsIn(calls: seq<Call>): (n: nat)
    ensures n <= |calls|
    ensures n == 0 <==> forall c :: c in calls ==> !c.ProfileSplitGo?
  {
    if calls == [] then 0
    else (if calls[0].ProfileSplitGo? then 1 else 0) + SplitsIn(calls[1..])
  }

  lemma {:induction false} SplitsInAppend(a: seq<Call>, b: seq<Call>)
    ensures SplitsIn(a + b) == SplitsIn(a) + SplitsIn(b)
  {
    if a == [] {
      assert a + b == b;
    } else {
      assert (a + b)[1..] == a[1..] + b;
      SplitsInAppend(a[1..], b);
    }
  }

  /** The part of the host's state that a profile reset changes. */
  datatype HostStatus = HostStatus(running: bool, activeSplit: int, attempts: nat)

  /** A profile reset: the timer stopped, the first split current, one more run attempt. */
  function AfterReset(s: HostStatus): HostStatus {
    HostStatus(false, 0, s.attempts + 1)
  }

  class Host {
    var running: bool
    var activeSplit: int
    var splitCount: int
    /** The run attempts counted by the profile. */
    var attempts: nat
    var log: seq<Call>

    constructor (activeSplit: int, splitCount: int)
      ensures !running && this.activeSplit == activeSplit && this.splitCount == splitCount && attempts == 0 && log == []
    {
      running := false;
      this.activeSplit := activeSplit;
      this.splitCount := splitCount;
      attempts := 0;
      log := [];
    }

    function Status(): HostStatus
      reads this`running, this`activeSplit, this`attempts
    {
      HostStatus(running, activeSplit, attempts)
    }

    /** Starts (true) or stops (false) the run timer. */
    method StartStopTimer(start: bool)
      modifies this`running, this`log
      ensures running == start && log == old(log) + [Call.Timer(start)]
    {
      running := start;
      log := log + [Call.Timer(start)];
    }

    method UpdateDuration()
      modifies this`log
      ensures log == old(log) + [Call.UpdateDuration]
    {
      log := log + [Call.UpdateDuration];
    }

    /** Back to the first split with one more attempt; the timer is stopped and reset. */
    method ProfileReset()
      modifies this`running, this`activeSplit, this`attempts, this`log
      ensures Status() == AfterReset(old(Status())) && log == old(log) + [Call.ProfileReset]
    {
      running := false;
      activeSplit := 0;
      attempts := attempts + 1;
      log := log + [Call.ProfileReset];
    }

    method ProfileSplitGo(count: int)
      modifies this`log
      ensures log == old(log) + [Call.ProfileSplitGo(count)]
    {
      log := log + [Call.ProfileSplitGo(count)];
    }

    method ProfileHitGo(count: int, wayMode: bool)
      modifies this`log
      ensures log == old(log) + [Call.ProfileHitGo(count, wayMode)]
    {
      log := log + [Call.ProfileHitGo(count, wayMode)];
    }

    /** A blocking sleep of the calling thread; it changes nothing but is logged. */
    method Sleep(ms: nat)
      modifies this`log
      ensures log == old(log) + [Call.Delay(ms)]
    {
      log := log + [Call.Delay(ms)];
    }
  }
}
