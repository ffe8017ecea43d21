/**
 * The split/hit dispatch gate: the singleton that receives raw split and hit
 * signals from the splitters, forwards hits at once, and leaves splits to a
 * periodically polled consumer.
 *
 * The gate's fields are modelled twice: as the value `Gate`, whose step
 * functions state what each operation does, and as the class `Control`,
 * whose methods update the fields in place and are proved to follow the step
 * functions. The two `lock` bodies are atomic method bodies here.
 */
module SplitterControl {
  import opened Wrappers
  import opened Hcm

  /** The interval of the split poll timer. */
  const SplitPollMs: nat := 1000
  /** The sleep a split signal takes when a split is already pending. */
  const SplitCooldownMs: nat := 2000

  datatype Gate = Gate(enableChecking: bool, debugMode: bool, splitGo: bool, splitStatus: bool, pollEnabled: bool)
  datatype GateStep = GateStep(gate: Gate, calls: seq<Call>)

  /** The fields of a freshly created control; a new poll timer starts disabled. */
  const InitialGate := Gate(true, false, false, false, false)

  /** A split signal (the body of the split lock). */
  function SplitCheckStep(g: Gate): (r: GateStep)
    ensures r.gate.splitStatus == g.enableChecking
    ensures r.gate.splitGo == (g.splitGo || g.enableChecking)
    ensures r.gate.(splitGo := g.splitGo, splitStatus := g.splitStatus) == g
    ensures r.calls == [] || r.calls == [Delay(SplitCooldownMs)]
    ensures r.calls != [] <==> g.enableChecking && g.splitGo
  {
    if !g.enableChecking then GateStep(g.(splitStatus := false), [])
    else GateStep(g.(splitGo := true, splitStatus := true), if g.splitGo then [Delay(SplitCooldownMs)] else [])
  }

  /** A hit signal (the body of the hit lock): forwarded at once, no gate state changes. */
  function HitCheckStep(g: Gate, wayMode: bool): (r: GateStep)
    ensures r.gate == g
    ensures r.calls == [] || r.calls == [ProfileHitGo(1, wayMode)]
    ensures r.calls != [] <==> g.enableChecking && !g.debugMode
  {
    GateStep(g, if g.enableChecking && !g.debugMode then [ProfileHitGo(1, wayMode)] else [])
  }

  /** One poll of the pending split; the pending flag is left as it is. */
  function SplitGoStep(g: Gate): (r: GateStep)
    ensures r.gate == g
    ensures r.calls == [] || r.calls == [ProfileSplitGo(1)]
    ensures r.calls != [] <==> g.splitGo && !g.debugMode
  {
    GateStep(g, if !g.splitGo || g.debugMode then [] else [ProfileSplitGo(1)])
  }

  /** One poll that also consumes the pending split: the evidently intended poll. */
  function SplitGoDrainStep(g: Gate): (r: GateStep)
    ensures r.calls == [] || r.calls == [ProfileSplitGo(1)]
    ensures r.calls != [] <==> g.splitGo && !g.debugMode
    ensures r.gate == if r.calls == [] then g else g.(splitGo := false)
  {
    if !g.splitGo || g.debugMode then GateStep(g, [])
    else GateStep(g.(splitGo := false), [ProfileSplitGo(1)])
  }

  /** What reaches the gate: signals, ticks of the poll timer, and checking toggles. */
  datatype Signal = SplitSignal | HitSignal(wayMode: bool) | PollTick | SetCheckingTo(on: bool)

  /**
   * One event. A poll tick only happens while the poll timer is enabled;
   * `drain` selects the intended poll instead of the one as written.
   */
  function Apply(g: Gate, s: Signal, drain: bool): GateStep {
    match s
    case SplitSignal => SplitCheckStep(g)
    case HitSignal(w) => HitCheckStep(g, w)
    case PollTick =>
      if !g.pollEnabled then GateStep(g, [])
      else if drain then SplitGoDrainStep(g) else SplitGoStep(g)
    case SetCheckingTo(b) => GateStep(g.(enableChecking := b, pollEnabled := b), [])
  }

  /** A sequence of events, with the calls they make in order. */
  function Run(g: Gate, ss: seq<Signal>, drain: bool): GateStep
    decreases |ss|
  {
    if ss == [] then GateStep(g, [])
    else
      var first := Apply(g, ss[0], drain);
      var rest := Run(first.gate, ss[1..], drain);
      GateStep(rest.gate, first.calls + rest.calls)
  }

  function Polls(n: nat): (r: seq<Signal>)
    ensures |r| == n && forall i :: 0 <= i < n ==> r[i] == PollTick
  {
    seq(n, _ => PollTick)
  }

  /** With a split pending, every poll as written forwards another split and keeps it pending. */
  lemma {:induction false} PendingSplitRepeats(g: Gate, n: nat)
    requires g.pollEnabled && g.splitGo && !g.debugMode
    ensures Run(g, Polls(n), false).gate == g
    ensures SplitsIn(Run(g, Polls(n), false).calls) == n
  {
    if n > 0 {
      assert Polls(n)[1..] == Polls(n - 1);
      PendingSplitRepeats(g, n - 1);
      SplitsInAppend([ProfileSplitGo(1)], Run(g, Polls(n - 1), false).calls);
    }
  }

  /** As written: one split signal followed by n polls gives n host splits. */
  lemma PollsRepeatSplit(g: Gate, n: nat)
    requires g.enableChecking && g.pollEnabled && !g.debugMode
    ensures SplitsIn(Run(g, [SplitSignal] + Polls(n), false).calls) == n
  {
    var first := SplitCheckStep(g);
    assert ([SplitSignal] + Polls(n))[1..] == Polls(n);
    PendingSplitRepeats(first.gate, n);
    SplitsInAppend(first.calls, Run(first.gate, Polls(n), false).calls);
  }

  /** The concrete input: one signal and two polls give two host splits. */
  lemma OneSignalTwoSplits()
    ensures SplitsIn(Run(Gate(true, false, false, false, true), [SplitSignal, PollTick, PollTick], false).calls) == 2
  {
    PollsRepeatSplit(Gate(true, false, false, false, true), 2);
    assert [SplitSignal] + Polls(2) == [SplitSignal, PollTick, PollTick];
  }

  /** With nothing pending, polls of either kind make no calls and change nothing. */
  lemma {:induction false} IdlePollsAreSilent(g: Gate, n: nat, drain: bool)
    requires !g.splitGo
    ensures Run(g, Polls(n), drain) == GateStep(g, [])
  {
    if n > 0 {
      assert Polls(n)[1..] == Polls(n - 1);
      IdlePollsAreSilent(g, n - 1, drain);
    }
  }

  /**
   * Intended: split signals arriving before a poll coalesce, and any number
   * of polls after them forward exactly one host split.
   */
  lemma DrainedPollsSplitOnce(g: Gate, k: nat, n: nat)
    requires g.enableChecking && g.pollEnabled && !g.debugMode && !g.splitGo
    requires k >= 1 && n >= 1
    ensures SplitsIn(Run(g, seq(k, _ => SplitSignal) + Polls(n), true).calls) == 1
  {
    var pending := g.(splitGo := true, splitStatus := true);
    SplitsCoalesce(g, k);
    RunAppend(g, seq(k, _ => SplitSignal), Polls(n), true);
    var signals := Run(g, seq(k, _ => SplitSignal), true);
    assert Polls(n)[1..] == Polls(n - 1);
    IdlePollsAreSilent(pending.(splitGo := false), n - 1, true);
    var polls := Run(pending, Polls(n), true);
    assert polls.calls == [ProfileSplitGo(1)];
    SplitsInAppend(signals.calls, polls.calls);
  }

  /** k >= 1 split signals leave one split pending and make no host split. */
  lemma {:induction false} SplitsCoalesce(g: Gate, k: nat)
    requires g.enableChecking && k >= 1
    ensures Run(g, seq(k, _ => SplitSignal), true).gate == g.(splitGo := true, splitStatus := true)
    ensures SplitsIn(Run(g, seq(k, _ => SplitSignal), true).calls) == 0
    decreases k
  {
    var first := SplitCheckStep(g);
    assert seq(k, _ => SplitSignal)[1..] == seq(k - 1, _ => SplitSignal);
    if k > 1 {
      SplitsCoalesce(first.gate, k - 1);
    }
    SplitsInAppend(first.calls, Run(first.gate, seq(k - 1, _ => SplitSignal), true).calls);
  }

  lemma {:induction false} RunAppend(g: Gate, a: seq<Signal>, b: seq<Signal>, drain: bool)
    ensures Run(g, a + b, drain).gate == Run(Run(g, a, drain).gate, b, drain).gate
    ensures Run(g, a + b, drain).calls == Run(g, a, drain).calls + Run(Run(g, a, drain).gate, b, drain).calls
    decreases |a|
  {
    if a == [] {
      assert a + b == b;
    } else {
      assert (a + b)[1..] == a[1..] + b;
      RunAppend(Apply(g, a[0], drain).gate, a[1..], b, drain);
    }
  }

  /** A hit is forwarded on the signal itself, once per signal, whatever else is pending. */
  lemma {:induction false} HitsForwardedOneEach(g: Gate, n: nat, wayMode: bool)
    requires g.enableChecking && !g.debugMode
    ensures Run(g, seq(n, _ => HitSignal(wayMode)), false) == GateStep(g, seq(n, _ => ProfileHitGo(1, wayMode)))
  {
    if n > 0 {
      assert seq(n, _ => HitSignal(wayMode))[1..] == seq(n - 1, _ => HitSignal(wayMode));
      HitsForwardedOneEach(g, n - 1, wayMode);
      assert [ProfileHitGo(1, wayMode)] + seq(n - 1, _ => ProfileHitGo(1, wayMode)) == seq(n, _ => ProfileHitGo(1, wayMode));
    }
  }

  /** A saved link from a host profile title to an auto-splitter settings file. */
  datatype ProfileLink = ProfileLink(profileHcm: string, profileAsc: string)

  /** What a profile change does to the auto-splitter settings. */
  datatype ProfileChangeOutcome =
    | Unchanged
    | AscProfileMissing(link: ProfileLink)        // the error dialog; nothing is loaded
    | Loaded(link: ProfileLink, resetFlags: bool) // the linked settings replace the main save

  ghost predicate FirstMatch(links: seq<ProfileLink>, title: string, i: int) {
    0 <= i < |links| && links[i].profileHcm == title &&
    forall j :: 0 <= j < i ==> links[j].profileHcm != title
  }

  /** The position of the first link whose host profile is `title`, as List.Find looks for it. */
  function FindLink(links: seq<ProfileLink>, title: string): (r: Option<nat>)
    ensures r.Some? ==> FirstMatch(links, title, r.value)
    ensures r.None? ==> forall j :: 0 <= j < |links| ==> links[j].profileHcm != title
  {
    if links == [] then None
    else if links[0].profileHcm == title then Some(0)
    else match FindLink(links[1..], title)
      case None => None
      case Some(i) => Some(i + 1)
  }

  /** A profile change: link lookup, then the settings file is checked and loaded. */
  function ProfileChange(links: seq<ProfileLink>, title: string, ascExists: string -> bool, resetProfile: bool)
    : (r: ProfileChangeOutcome)
    ensures (forall j :: 0 <= j < |links| ==> links[j].profileHcm != title) ==> r == Unchanged
    ensures r != Unchanged ==> exists i :: FirstMatch(links, title, i) && r.link == links[i]
    ensures (exists i :: FirstMatch(links, title, i)) ==> r != Unchanged
    ensures r.AscProfileMissing? ==> !ascExists(r.link.profileAsc)
    ensures r.Loaded? ==> ascExists(r.link.profileAsc) && r.resetFlags == resetProfile
  {
    if |links| == 0 then Unchanged
    else match FindLink(links, title)
      case None => Unchanged
      case Some(i) =>
        if !ascExists(links[i].profileAsc) then AscProfileMissing(links[i])
        else Loaded(links[i], resetProfile)
  }

  class Control {
    var enableChecking: bool
    var debugMode: bool
    var splitGo: bool
    var splitStatus: bool
    var pollEnabled: bool   // the split poll timer's Enabled flag
    const host: Host

    function State(): Gate
      reads this
    {
      Gate(enableChecking, debugMode, splitGo, splitStatus, pollEnabled)
    }

    constructor (host: Host)
      ensures this.host == host && State() == InitialGate
    {
      this.host := host;
      enableChecking, debugMode, splitGo, splitStatus, pollEnabled := true, false, false, false, false;
    }

    method SetChecking(checking: bool)
      modifies this
      ensures State() == old(State()).(enableChecking := checking, pollEnabled := checking)
    {
      enableChecking := checking;
      pollEnabled := checking;
    }

    method SetDebug(status: bool)
      modifies this
      ensures State() == old(State()).(debugMode := status)
    {
      debugMode := status;
    }

    function GetDebug(): bool
      reads this`debugMode
    {
      debugMode
    }

    method SplitCheck(debugLog: string)
      modifies this, host`log
      ensures State() == SplitCheckStep(old(State())).gate
      ensures host.log == old(host.log) + SplitCheckStep(old(State())).calls
    {
      if !enableChecking {
        splitStatus := false;
        return;
      }
      if splitGo {
        host.Sleep(SplitCooldownMs);
      }
      splitGo := true;
      splitStatus := true;
    }

    method HitCheck(debugLog: string, wayMode: bool)
      modifies host`log
      ensures host.log == old(host.log) + HitCheckStep(State(), wayMode).calls
    {
      if enableChecking && !debugMode {
        host.ProfileHitGo(1, wayMode);
      }
    }

    /** One tick of the split poll timer. */
    method SplitGo()
      modifies host`log
      ensures host.log == old(host.log) + SplitGoStep(State()).calls
    {
      if !splitGo || debugMode {
        return;
      }
      host.ProfileSplitGo(1);
    }

    function CurrentFinalSplit(): bool
      reads host`activeSplit, host`splitCount
    {
      host.activeSplit == host.splitCount
    }

    function GetSplitStatus(): bool
      reads this`splitStatus
    {
      splitStatus
    }

    function GetTimerRunning(): bool
      reads host`running
    {
      host.running
    }

    method StartStopTimer(start: bool)
      modifies host`running, host`log
      ensures host.running == start && host.log == old(host.log) + [Timer(start)]
    {
      host.StartStopTimer(start);
    }

    method UpdateDuration()
      modifies host`log
      ensures host.log == old(host.log) + [Call.UpdateDuration]
    {
      host.UpdateDuration();
    }

    method ProfileReset()
      modifies host`running, host`activeSplit, host`attempts, host`log
      ensures host.Status() == AfterReset(old(host.Status())) && host.log == old(host.log) + [Call.ProfileReset]
    {
      host.ProfileReset();
    }
  }
}
