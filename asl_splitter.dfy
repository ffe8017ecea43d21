/**
 * The ASL splitter: a script-driven splitter whose script raises split,
 * start and reset events. The event handlers are subscribed once, by a
 * 100 ms timer that keeps trying until the script is loaded, and forward an
 * event to the split/hit control only under the practice, active, IGT and
 * debug conditions.
 */
module AslSplitter {
  import opened Wrappers
  import opened Hcm
  import opened SplitterControl

  /** The events the script raises. */
  datatype AslEvent = OnSplit | OnStart | OnReset

  /** The flags an event handler consults. */
  datatype AslFlags = AslFlags(practiceMode: bool, aslActive: bool, igtEnable: bool, debug: bool)

  /**
   * Whether a handler passes its event on: never in practice mode or while
   * the splitter is inactive; start and reset never in debug mode; start
   * never while the game's own time drives the timer.
   */
  function Forwards(f: AslFlags, ev: AslEvent): (r: bool)
    ensures r ==> !f.practiceMode && f.aslActive
    ensures r && ev != OnSplit ==> !f.debug
    ensures r && ev == OnStart ==> !f.igtEnable
    ensures !f.practiceMode && f.aslActive && !f.debug && !f.igtEnable ==> r
    ensures ev == OnSplit ==> (r <==> !f.practiceMode && f.aslActive)
    ensures ev == OnStart ==> (r <==> !f.debug && !f.practiceMode && f.aslActive && !f.igtEnable)
    ensures ev == OnReset ==> (r <==> !f.debug && !f.practiceMode && f.aslActive)
  {
    match ev
    case OnSplit => !f.practiceMode && f.aslActive
    case OnStart => !f.debug && !f.practiceMode && f.aslActive && !f.igtEnable
    case OnReset => !f.debug && !f.practiceMode && f.aslActive
  }

  /** The host calls an event handler makes directly; a forwarded split goes through the gate instead. */
  function HandlerCalls(f: AslFlags, ev: AslEvent): (r: seq<Call>)
    ensures ev == OnSplit ==> r == []
    ensures r != [] <==> ev != OnSplit && Forwards(f, ev)
    ensures ev == OnStart ==> r == (if Forwards(f, ev) then [Timer(true)] else [])
    ensures ev == OnReset ==> r == (if Forwards(f, ev) then [ProfileReset] else [])
  {
    if !Forwards(f, ev) then []
    else match ev
      case OnSplit => []
      case OnStart => [Timer(true)]
      case OnReset => [ProfileReset]
  }

  /** No event of the script calls for a stop of the timer; a forwarded reset stops it through the profile reset. */
  lemma HandlersNeverStop(f: AslFlags, evs: seq<AslEvent>)
    ensures forall i :: 0 <= i < |evs| ==> Timer(false) !in HandlerCalls(f, evs[i])
  {
  }

  class Splitter {
    var practiceMode: bool
    var aslActive: bool
    var igtEnable: bool
    var handlersSet: bool
    /** How many times the three handlers were subscribed to the script. */
    var subscriptions: nat
    /** The handler-setter timer's running flag. */
    var pollRunning: bool
    /** The last settings node handed to the ASL component. */
    var settings: Option<string>
    const control: Control

    /** The handlers are subscribed exactly when the latch is set, and then once. */
    ghost predicate Valid()
      reads this`handlersSet, this`subscriptions
    {
      subscriptions == (if handlersSet then 1 else 0)
    }

    function Flags(): AslFlags
      reads this`practiceMode, this`aslActive, this`igtEnable, control`debugMode
    {
      AslFlags(practiceMode, aslActive, igtEnable, control.GetDebug())
    }

    constructor (control: Control)
      ensures Valid() && this.control == control
      ensures !practiceMode && !aslActive && !igtEnable && !handlersSet && !pollRunning && settings == None
    {
      this.control := control;
      practiceMode, aslActive, igtEnable := false, false, false;
      handlersSet, subscriptions, pollRunning := false, 0, false;
      settings := None;
    }

    /**
     * One tick of the handler-setter timer: once the handlers are set it
     * only stops itself; before that it subscribes them as soon as the
     * script is loaded.
     */
    method ASCHandlerSetters(scriptLoaded: bool)
      requires Valid()
      modifies this`handlersSet, this`subscriptions, this`pollRunning
      ensures Valid() && subscriptions <= 1
      ensures old(handlersSet) ==> handlersSet && subscriptions == old(subscriptions) && !pollRunning
      ensures !old(handlersSet) ==>
        handlersSet == scriptLoaded && pollRunning == old(pollRunning) &&
        subscriptions == old(subscriptions) + (if scriptLoaded then 1 else 0)
    {
      if handlersSet {
        pollRunning := false;
        return;
      }
      if scriptLoaded {
        subscriptions := subscriptions + 1;
        handlersSet := true;
      }
    }

    /** Activates or deactivates the splitter; the handler setter starts while the handlers are missing. */
    method SetStatusSplitting(status: bool)
      modifies this`aslActive, this`pollRunning
      ensures aslActive == status
      ensures pollRunning == (old(pollRunning) || !handlersSet)
    {
      aslActive := status;
      if !handlersSet {
        pollRunning := true;
      }
    }

    /** Loads saved settings; a missing node leaves the current ones. */
    method SetData(node: Option<string>)
      modifies this`settings
      ensures settings == if node.Some? then node else old(settings)
    {
      if node.Some? {
        settings := node;
      }
    }

    /** The script's split event. */
    method ASCOnSplit()
      modifies control, control.host`log
      ensures Forwards(old(Flags()), OnSplit) ==>
        control.State() == SplitCheckStep(old(control.State())).gate &&
        control.host.log == old(control.host.log) + SplitCheckStep(old(control.State())).calls
      ensures !Forwards(old(Flags()), OnSplit) ==>
        control.State() == old(control.State()) && control.host.log == old(control.host.log)
    {
      if !practiceMode && aslActive {
        control.SplitCheck("Trace ASL: SplitFlag Produced on ASL");
      }
    }

    /** The script's start event: it can start the timer, never stop it. */
    method ASCOnStart()
      modifies control.host`running, control.host`log
      ensures control.host.log == old(control.host.log) + HandlerCalls(Flags(), OnStart)
      ensures control.host.running == (old(control.host.running) || Forwards(Flags(), OnStart))
    {
      if control.GetDebug() {
        return;
      }
      if !practiceMode && aslActive && !igtEnable {
        control.StartStopTimer(true);
      }
    }

    /** The script's reset event: a forwarded one resets the host's profile. */
    method ASCOnReset()
      modifies control.host`running, control.host`activeSplit, control.host`attempts, control.host`log
      ensures control.host.log == old(control.host.log) + HandlerCalls(Flags(), OnReset)
      ensures control.host.Status() ==
        if Forwards(Flags(), OnReset) then AfterReset(old(control.host.Status())) else old(control.host.Status())
    {
      if control.GetDebug() {
        return;
      }
      if !practiceMode && aslActive {
        control.ProfileReset();
      }
    }
  }
}
