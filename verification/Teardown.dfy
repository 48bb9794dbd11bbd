/** Giving up a tunnel. A tunnel client owns a watch channel, a command queue and two tasks; it is
    either shut down, which signals, aborts and joins the tasks, or dropped, which only closes the
    channels. Either way both tasks stop, in every interleaving. */
module Teardown {
  import opened Basics

  /** The client: in use; at some point of `shutdown`; or at some point of being dropped. */
  datatype ClientPc =
    | Live
    | Signalled | Released | DeviceAborted | DeviceJoined | EngineAborted | ShutDown
    | CommandsDropped | Detached

  /** The device task checks the flag, then waits for it to change. */
  datatype DevicePc = Checking | Waiting | DeviceStopped

  /** The engine task waits for a command, then works on it: `left` polls remain, a number
      bounded by the command's timeout. */
  datatype EnginePc = Receiving | Working(left: nat) | EngineStopped

  /** The watch channel: its value, how often it has been sent to, and whether its sender is
      still there; `seen` is the version the device task last saw. */
  datatype State = State(
    client: ClientPc,
    stop: bool, version: nat, sender: bool, seen: nat,
    device: DevicePc, deviceAbort: bool,
    engine: EnginePc, engineAbort: bool,
    commandsOpen: bool, queue: seq<nat>)

  const INITIAL := State(Live, false, 0, true, 0, Checking, false, Receiving, false, true, [])

  datatype Step =
    | Submit(work: nat)
    | BeginShutdown | ReleaseCommands | AbortDevice | JoinDevice | AbortEngine | JoinEngine
    | DropCommands | DropSender
    | CheckFlag | SeeChange | CancelDevice
    | ReceiveCommand | DoWork | CancelEngine

  /** One step; a step that is not possible changes nothing. */
  function Apply(s: State, step: Step): State {
    match step
    case Submit(work) => if s.client.Live? && |s.queue| < 8 then s.(queue := s.queue + [work]) else s
    // shutdown
    case BeginShutdown => if s.client.Live? then s.(client := Signalled, stop := true, version := s.version + 1) else s
    case ReleaseCommands => if s.client.Signalled? then s.(client := Released, commandsOpen := false) else s
    case AbortDevice => if s.client.Released? then s.(client := DeviceAborted, deviceAbort := true) else s
    case JoinDevice => if s.client.DeviceAborted? && s.device.DeviceStopped? then s.(client := DeviceJoined) else s
    case AbortEngine => if s.client.DeviceJoined? then s.(client := EngineAborted, engineAbort := true) else s
    case JoinEngine =>
      if s.client.EngineAborted? && s.engine.EngineStopped? then s.(client := ShutDown, sender := false) else s
    // drop
    case DropCommands => if s.client.Live? then s.(client := CommandsDropped, commandsOpen := false) else s
    case DropSender => if s.client.CommandsDropped? then s.(client := Detached, sender := false) else s
    // the device task
    case CheckFlag => if s.device.Checking? then s.(device := if s.stop then DeviceStopped else Waiting) else s
    case SeeChange =>
      if !s.device.Waiting? then s
      else if s.version != s.seen then s.(device := Checking, seen := s.version)
      else if !s.sender then s.(device := DeviceStopped)
      else s
    case CancelDevice => if s.deviceAbort && s.device.Waiting? then s.(device := DeviceStopped) else s
    // the engine task
    case ReceiveCommand =>
      if !s.engine.Receiving? then s
      else if s.queue != [] then s.(engine := Working(s.queue[0]), queue := s.queue[1..])
      else if !s.commandsOpen then s.(engine := EngineStopped)
      else s
    case DoWork =>
      if !s.engine.Working? then s
      else s.(engine := if s.engine.left > 0 then Working(s.engine.left - 1) else Receiving)
    case CancelEngine => if s.engineAbort && !s.engine.EngineStopped? then s.(engine := EngineStopped) else s
  }

  function Follow(s: State, steps: seq<Step>): State {
    if steps == [] then s else Apply(Follow(s, steps[..|steps| - 1]), steps[|steps| - 1])
  }

  function Run(steps: seq<Step>): State { Follow(INITIAL, steps) }

  // ---------------------------------------------------------------------------------------
  // The invariant
  // ---------------------------------------------------------------------------------------

  predicate Closing(s: State) { !s.client.Live? }

  predicate Stopped(s: State) { s.device.DeviceStopped? && s.engine.EngineStopped? }

  ghost predicate Inv(s: State) {
    && s.seen <= s.version
    // No missed signal: a device task that has seen the latest version has seen its value.
    && (s.device.Waiting? && s.seen == s.version ==> !s.stop)
    && (s.client.Live? || s.client.CommandsDropped? || s.client.Detached? ==> !s.stop)
    && (s.stop <==> s.client.Signalled? || s.client.Released? || s.client.DeviceAborted? || s.client.DeviceJoined?
                    || s.client.EngineAborted? || s.client.ShutDown?)
    && (s.sender <==> !s.client.ShutDown? && !s.client.Detached?)
    && (s.commandsOpen <==> s.client.Live? || s.client.Signalled?)
    && (s.client.DeviceJoined? || s.client.EngineAborted? || s.client.ShutDown? ==> s.device.DeviceStopped?)
    && (s.client.DeviceAborted? ==> s.deviceAbort)
    && (s.client.EngineAborted? ==> s.engineAbort)
    && (s.client.ShutDown? ==> s.engine.EngineStopped?)
  }

  lemma {:induction false} RunKeepsInv(steps: seq<Step>)
    ensures Inv(Run(steps))
  {
    if steps != [] {
      RunKeepsInv(steps[..|steps| - 1]);
      StepKeepsInv(Run(steps[..|steps| - 1]), steps[|steps| - 1]);
    }
  }

  predicate IsClientStep(step: Step) {
    || step.Submit? || step.BeginShutdown? || step.ReleaseCommands? || step.AbortDevice? || step.JoinDevice?
    || step.AbortEngine? || step.JoinEngine? || step.DropCommands? || step.DropSender?
  }

  predicate IsEngineStep(step: Step) { step.ReceiveCommand? || step.DoWork? || step.CancelEngine? }

  lemma ClientStepKeepsInv(s: State, step: Step)
    requires Inv(s) && IsClientStep(step)
    ensures Inv(Apply(s, step))
  {}

  lemma TaskStepKeepsInv(s: State, step: Step)
    requires Inv(s) && !IsClientStep(step)
    ensures Inv(Apply(s, step))
  {}

  lemma StepKeepsInv(s: State, step: Step)
    requires Inv(s)
    ensures Inv(Apply(s, step))
  {
    hide Inv, Apply;
    if IsClientStep(step) {
      ClientStepKeepsInv(s, step);
    } else {
      TaskStepKeepsInv(s, step);
    }
  }

  // ---------------------------------------------------------------------------------------
  // The measure
  // ---------------------------------------------------------------------------------------

  function ClientRank(pc: ClientPc): nat {
    match pc
    case Live => 7
    case Signalled => 6
    case Released => 5
    case DeviceAborted => 4
    case DeviceJoined => 3
    case EngineAborted => 2
    case CommandsDropped => 1
    case ShutDown => 0
    case Detached => 0
  }

  function DeviceRank(s: State): nat
    requires s.seen <= s.version
  {
    match s.device
    case DeviceStopped => 0
    case Waiting => 1 + 2 * (s.version - s.seen)
    case Checking => 2 + 2 * (s.version - s.seen)
  }

  function QueueRank(queue: seq<nat>): nat {
    if queue == [] then 0 else queue[0] + 2 + QueueRank(queue[1..])
  }

  function EngineRank(s: State): nat {
    match s.engine
    case EngineStopped => 0
    case Receiving => 1 + QueueRank(s.queue)
    case Working(n) => 2 + n + QueueRank(s.queue)
  }

  function Measure(s: State): nat
    requires s.seen <= s.version
  {
    ClientRank(s.client) + DeviceRank(s) + EngineRank(s)
  }

  lemma ClientStepLowersMeasure(s: State, step: Step)
    requires Inv(s) && Closing(s) && IsClientStep(step) && Apply(s, step) != s
    ensures var s' := Apply(s, step); Closing(s') && s'.seen <= s'.version && Measure(s') < Measure(s)
  {
    assert s.seen <= s.version;
    hide Inv, QueueRank;
  }

  lemma DeviceStepLowersMeasure(s: State, step: Step)
    requires Inv(s) && !IsClientStep(step) && !IsEngineStep(step) && Apply(s, step) != s
    ensures var s' := Apply(s, step); s'.client == s.client && s'.seen <= s'.version && Measure(s') < Measure(s)
  {
    hide QueueRank;
  }

  lemma EngineStepLowersMeasure(s: State, step: Step)
    requires s.seen <= s.version && IsEngineStep(step) && Apply(s, step) != s
    ensures var s' := Apply(s, step); s'.client == s.client && s'.seen <= s'.version && Measure(s') < Measure(s)
  {
    hide ClientRank;
    match step
    case ReceiveCommand =>
    case DoWork =>
    case CancelEngine =>
  }

  /** Once the client is being given up, every step that does something lowers the measure. */
  lemma StepLowersMeasure(s: State, step: Step)
    requires Inv(s) && Closing(s) && Apply(s, step) != s
    ensures Inv(Apply(s, step)) && Closing(Apply(s, step)) && Measure(Apply(s, step)) < Measure(s)
  {
    StepKeepsInv(s, step);
    assert s.seen <= s.version;
    hide Inv, Apply, Measure;
    if IsClientStep(step) {
      ClientStepLowersMeasure(s, step);
    } else if IsEngineStep(step) {
      EngineStepLowersMeasure(s, step);
    } else {
      DeviceStepLowersMeasure(s, step);
    }
  }

  /** A step that is possible as long as something is left to stop. */
  function NextStep(s: State): Step {
    if s.device.Checking? then CheckFlag
    else if s.engine.Working? then DoWork
    else if s.client.Signalled? then ReleaseCommands
    else if s.client.Released? then AbortDevice
    else if s.client.CommandsDropped? then DropSender
    else if s.device.Waiting? then SeeChange
    else if s.client.DeviceAborted? then JoinDevice
    else if s.client.DeviceJoined? then AbortEngine
    else if s.engine.Receiving? then ReceiveCommand
    else JoinEngine
  }

  lemma NextStepIsPossible(s: State)
    requires Inv(s) && Closing(s) && !(Stopped(s) && (s.client.ShutDown? || s.client.Detached?))
    ensures Apply(s, NextStep(s)) != s
  {}

  // ---------------------------------------------------------------------------------------
  // The theorems
  // ---------------------------------------------------------------------------------------

  /** Every step of the continuation does something. */
  ghost predicate Effective(s: State, steps: seq<Step>) {
    forall k | 0 <= k < |steps| :: Follow(s, steps[..k + 1]) != Follow(s, steps[..k])
  }

  lemma {:induction false} EffectiveIsShort(s: State, steps: seq<Step>)
    requires Inv(s) && Closing(s) && Effective(s, steps)
    ensures var s' := Follow(s, steps); Inv(s') && Closing(s') && Measure(s') + |steps| <= Measure(s)
  {
    if steps != [] {
      var n := |steps| - 1;
      var init := steps[..n];
      forall k | 0 <= k < n
        ensures Follow(s, init[..k + 1]) != Follow(s, init[..k])
      {
        assert init[..k] == steps[..k] && init[..k + 1] == steps[..k + 1];
      }
      EffectiveIsShort(s, init);
      assert steps[..n + 1] == steps && steps[..n] == init;
      StepLowersMeasure(Follow(s, init), steps[n]);
    }
  }

  /** However the steps interleave after a client starts to be shut down or dropped, there are
      no more than `Measure` of them, and when none is possible any more both tasks have
      stopped. */
  lemma TasksStop(before: seq<Step>, after: seq<Step>)
    requires Closing(Run(before)) && Effective(Run(before), after)
    ensures Run(before).seen <= Run(before).version && |after| <= Measure(Run(before))
    ensures var s := Follow(Run(before), after);
      (forall step: Step :: Apply(s, step) == s) ==> Stopped(s)
  {
    RunKeepsInv(before);
    EffectiveIsShort(Run(before), after);
    var s := Follow(Run(before), after);
    if forall step: Step :: Apply(s, step) == s {
      assert Apply(s, NextStep(s)) == s;
      if !Stopped(s) {
        NextStepIsPossible(s);
      }
    }
  }

  /** When `shutdown` has returned, both tasks have stopped already. */
  lemma ShutdownReturnsStopped(steps: seq<Step>)
    ensures Run(steps).client.ShutDown? ==> Stopped(Run(steps))
  {
    RunKeepsInv(steps);
  }

  /** A device task waiting while a shutdown signal is unseen is woken by it; one that has seen
      the latest version has not missed a signal. */
  lemma NoMissedSignal(steps: seq<Step>)
    ensures var s := Run(steps);
      s.stop && s.device.Waiting? ==> s.seen != s.version && Apply(s, SeeChange).device.Checking?
  {
    RunKeepsInv(steps);
  }
}
