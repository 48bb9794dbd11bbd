/** The repaint signal of the Android loop: a least-deadline slot that worker threads lower and
    the loop takes, and the proof that no message is left without a wake-up. */
module Repaint {
  import opened Basics

  // ---------------------------------------------------------------------------------------
  // The signal
  // ---------------------------------------------------------------------------------------

  function Lowered(current: Option<nat>, deadline: nat): (r: Option<nat>)
    ensures r.Some? && r.value <= deadline
    ensures current.Some? ==> r.value <= current.value
    ensures r == current || r == Some(deadline)
  {
    if current.None? || deadline < current.value then Some(deadline) else current
  }

  predicate Due(deadline: Option<nat>, now: nat) {
    deadline.Some? && deadline.value <= now
  }

  class RepaintSignal {
    var deadline: Option<nat>
    var awake: bool

    constructor (now: nat)
      ensures deadline == Some(now) && !awake
    {
      deadline, awake := Some(now), false;
    }

    // `now` is read before the lock is taken.
    method Request(now: nat, delay: nat)
      modifies this
      ensures deadline == Lowered(old(deadline), now + delay) && awake
      ensures deadline == if old(deadline).Some? && old(deadline).value <= now + delay then old(deadline) else Some(now + delay)
    {
      var requested := now + delay;
      if deadline.None? || requested < deadline.value {
        deadline := Some(requested);
      }
      awake := true;
    }

    method Timeout(now: nat) returns (timeout: Option<nat>)
      ensures timeout.Some? <==> deadline.Some?
      ensures timeout.Some? ==> now + timeout.value == Max(deadline.value, now)
    {
      timeout := if deadline.Some? then Some(Max(deadline.value - now, 0)) else None;
    }

    method TakeIfDue(now: nat) returns (due: bool)
      modifies this`deadline
      ensures due == Due(old(deadline), now) == (old(deadline).Some? && old(deadline).value <= now)
      ensures deadline == if due then None else old(deadline)
    {
      if deadline.Some? && deadline.value <= now {
        deadline := None;
        due := true;
      } else {
        due := false;
      }
    }
  }

  // ---------------------------------------------------------------------------------------
  // The loop and the threads that request repaints
  // ---------------------------------------------------------------------------------------

  /** A worker sends a message, then requests a repaint: it reads the clock, stores the
      deadline under the lock and wakes the loop. */
  datatype Requester = Resting | HasSent | HasDeadline(deadline: nat) | HasStored

  /** The loop reads the timeout, polls (possibly running callbacks), reads the clock, takes
      the deadline if it is due, and then paints, which begins by draining the messages. */
  datatype LoopPc = Top | Polling(until: Option<nat>) | Callbacks | Attaching | Polled | Taking(now: nat) | Draining

  datatype State = State(now: nat, deadline: Option<nat>, awake: bool, window: bool, messages: nat,
                         requesters: seq<Requester>, pc: LoopPc)

  datatype Step =
    | Tick(elapsed: nat)
    | Send(worker: nat)
    | ReadClock(worker: nat)
    | Store(worker: nat)
    | Wake(worker: nat)
    | LoopRequest(delay: nat)    // the loop's own thread asks for a repaint
    | ReadTimeout
    | PollReturns(native: bool)  // by a native event, or because it was woken or timed out
    | Attach                     // InitWindow: the window is there, the repaint not yet requested
    | AttachRequest
    | Detach
    | CallbacksDone
    | ReadNow
    | Take
    | Receive
    | DrainDone

  function Initial(workers: nat): State {
    State(0, Some(0), false, false, 0, seq(workers, _ => Resting), Top)
  }

  predicate PollWakes(s: State) {
    s.pc.Polling? && (s.awake || (s.pc.until.Some? && s.pc.until.value <= s.now))
  }

  /** One step; a step that is not possible changes nothing. */
  function Apply(s: State, step: Step): State {
    match step
    case Tick(d) => s.(now := s.now + d)
    case Send(i) =>
      if i < |s.requesters| && s.requesters[i].Resting?
      then s.(messages := s.messages + 1, requesters := s.requesters[i := HasSent]) else s
    case ReadClock(i) =>
      if i < |s.requesters| && s.requesters[i].HasSent?
      then s.(requesters := s.requesters[i := HasDeadline(s.now)]) else s
    case Store(i) =>
      if i < |s.requesters| && s.requesters[i].HasDeadline?
      then s.(deadline := Lowered(s.deadline, s.requesters[i].deadline), requesters := s.requesters[i := HasStored])
      else s
    case Wake(i) =>
      if i < |s.requesters| && s.requesters[i].HasStored?
      then s.(awake := true, requesters := s.requesters[i := Resting]) else s
    case LoopRequest(delay) =>
      if s.pc.Polling? then s else s.(deadline := Lowered(s.deadline, s.now + delay), awake := true)
    case ReadTimeout =>
      if s.pc.Top?
      then s.(pc := Polling(if s.deadline.Some? then Some(Max(s.deadline.value, s.now)) else None)) else s
    case PollReturns(native) =>
      if s.pc.Polling? && native then s.(pc := Callbacks)
      else if PollWakes(s) then s.(pc := Callbacks, awake := false)
      else s
    case Attach => if s.pc.Callbacks? then s.(window := true, pc := Attaching) else s
    case AttachRequest =>
      if s.pc.Attaching? then s.(deadline := Lowered(s.deadline, s.now), awake := true, pc := Callbacks) else s
    case Detach => if s.pc.Callbacks? then s.(window := false) else s
    case CallbacksDone => if s.pc.Callbacks? then s.(pc := Polled) else s
    case ReadNow => if s.pc.Polled? then s.(pc := Taking(s.now)) else s
    case Take =>
      if !s.pc.Taking? then s
      else if Due(s.deadline, s.pc.now) then s.(deadline := None, pc := if s.window then Draining else Top)
      else s.(pc := Top)
    case Receive => if s.pc.Draining? && s.messages > 0 then s.(messages := s.messages - 1) else s
    case DrainDone => if s.pc.Draining? && s.messages == 0 then s.(pc := Top) else s
  }

  function Run(workers: nat, steps: seq<Step>): State {
    if steps == [] then Initial(workers) else Apply(Run(workers, steps[..|steps| - 1]), steps[|steps| - 1])
  }

  // ---------------------------------------------------------------------------------------
  // No lost wake-up
  // ---------------------------------------------------------------------------------------

  /** Some worker has sent a message whose repaint deadline is not stored yet. */
  ghost predicate RequestPending(s: State) {
    exists i :: 0 <= i < |s.requesters| && (s.requesters[i].HasSent? || s.requesters[i].HasDeadline?)
  }

  /** Some worker has stored a deadline and not yet woken the loop. */
  ghost predicate WakePending(s: State) {
    exists i :: 0 <= i < |s.requesters| && s.requesters[i].HasStored?
  }

  ghost predicate DeadlinesArePast(s: State) {
    && (forall i :: 0 <= i < |s.requesters| && s.requesters[i].HasDeadline? ==> s.requesters[i].deadline <= s.now)
    && (s.pc.Taking? ==> s.pc.now <= s.now)
  }

  ghost predicate MessagesCovered(s: State) {
    s.messages > 0 && s.window ==>
      Due(s.deadline, s.now) || RequestPending(s) || s.pc.Draining? || s.pc.Attaching?
  }

  ghost predicate SleepCovered(s: State) {
    s.pc.Polling? && s.deadline.Some? ==>
      s.awake || WakePending(s) || (s.pc.until.Some? && s.pc.until.value <= Max(s.deadline.value, s.now))
  }

  ghost predicate Inv(s: State) {
    DeadlinesArePast(s) && MessagesCovered(s) && SleepCovered(s)
  }

  /** Changing one worker keeps the pending requests of the others. */
  lemma OtherPending(s: State, s': State, i: nat, j: nat)
    requires i < |s.requesters| == |s'.requesters| && j < |s.requesters| && j != i
    requires s'.requesters == s.requesters[i := s'.requesters[i]]
    ensures (s.requesters[j].HasSent? || s.requesters[j].HasDeadline?) ==> RequestPending(s')
    ensures s.requesters[j].HasStored? ==> WakePending(s')
  {
    assert s'.requesters[j] == s.requesters[j];
  }

  lemma WorkerStepKeepsInv(s: State, step: Step)
    requires Inv(s) && (step.Send? || step.ReadClock? || step.Store? || step.Wake?)
    ensures Inv(Apply(s, step))
  {
    var s' := Apply(s, step);
    var i := step.worker;
    if s' != s {
      assert s'.requesters == s.requesters[i := s'.requesters[i]];
      if RequestPending(s) {
        var j :| 0 <= j < |s.requesters| && (s.requesters[j].HasSent? || s.requesters[j].HasDeadline?);
        if j != i {
          OtherPending(s, s', i, j);
        }
      }
      if WakePending(s) {
        var j :| 0 <= j < |s.requesters| && s.requesters[j].HasStored?;
        if j != i {
          OtherPending(s, s', i, j);
        }
      }
      assert s'.requesters[i].HasSent? || s'.requesters[i].HasDeadline? ==> RequestPending(s');
      assert s'.requesters[i].HasStored? ==> WakePending(s');
    }
  }

  lemma StepKeepsInv(s: State, step: Step)
    requires Inv(s)
    ensures Inv(Apply(s, step))
  {
    if step.Send? || step.ReadClock? || step.Store? || step.Wake? {
      WorkerStepKeepsInv(s, step);
    } else {
      var s' := Apply(s, step);
      assert s'.requesters == s.requesters;
      assert RequestPending(s) ==> RequestPending(s');
      assert WakePending(s) ==> WakePending(s');
    }
  }

  lemma {:induction false} RunKeepsInv(workers: nat, steps: seq<Step>)
    ensures Inv(Run(workers, steps))
  {
    if steps != [] {
      RunKeepsInv(workers, steps[..|steps| - 1]);
      StepKeepsInv(Run(workers, steps[..|steps| - 1]), steps[|steps| - 1]);
    }
  }

  /** In every reachable state with a window: a queued message has a repaint already due, unless
      its worker is between send and request, or the loop is between take and drain or between
      attaching the window and its request. And the loop then does not sleep on: unless a worker
      is about to wake it, the poll returns at once. */
  lemma NoLostWakeup(workers: nat, steps: seq<Step>)
    ensures var s := Run(workers, steps);
      s.messages > 0 && s.window && !RequestPending(s) && !s.pc.Draining? && !s.pc.Attaching? ==>
        && Due(s.deadline, s.now)
        && (s.pc.Polling? ==> WakePending(s) || PollWakes(s))
  {
    RunKeepsInv(workers, steps);
  }

  lemma RunSnoc(workers: nat, steps: seq<Step>, step: Step)
    ensures Run(workers, steps + [step]) == Apply(Run(workers, steps), step)
  {
    assert (steps + [step])[..|steps|] == steps;
  }

  /** So one round of the loop alone, from the poll, reaches the drain. */
  lemma OneRoundDrains(workers: nat, steps: seq<Step>)
    requires var s := Run(workers, steps);
      s.messages > 0 && s.window && s.pc.Polling? && !RequestPending(s) && !WakePending(s)
    ensures Run(workers, steps + [PollReturns(false)] + [CallbacksDone] + [ReadNow] + [Take]).pc.Draining?
  {
    NoLostWakeup(workers, steps);
    RunSnoc(workers, steps, PollReturns(false));
    RunSnoc(workers, steps + [PollReturns(false)], CallbacksDone);
    RunSnoc(workers, steps + [PollReturns(false)] + [CallbacksDone], ReadNow);
    RunSnoc(workers, steps + [PollReturns(false)] + [CallbacksDone] + [ReadNow], Take);
  }

  /** Some repaint is still to come for the queued messages, if there are any. */
  ghost predicate Covered(s: State) {
    s.messages > 0 ==> Due(s.deadline, s.now) || RequestPending(s) || s.pc.Draining? || s.pc.Attaching?
  }

  /** The step consumes a due deadline for nothing. */
  ghost predicate Swallows(s: State, step: Step) {
    && step.Take? && s.pc.Taking? && Due(s.deadline, s.pc.now) && !s.window
    && s.messages > 0 && !RequestPending(s)
  }

  /** Whether or not there is a window, the cover of the messages is lost exactly by taking a due
      deadline without a window. */
  lemma LostExactlyByDetachedTake(workers: nat, steps: seq<Step>, step: Step)
    requires Covered(Run(workers, steps))
    ensures !Covered(Run(workers, steps + [step])) <==> Swallows(Run(workers, steps), step)
  {
    RunKeepsInv(workers, steps);
    RunSnoc(workers, steps, step);
    var s := Run(workers, steps);
    hide Run;
    if step.Send? || step.ReadClock? || step.Store? || step.Wake? {
      WorkerStepKeepsCovered(s, step);
    } else {
      LoopStepKeepsCovered(s, step);
    }
  }

  lemma WorkerStepKeepsCovered(s: State, step: Step)
    requires Inv(s) && Covered(s) && (step.Send? || step.ReadClock? || step.Store? || step.Wake?)
    ensures Covered(Apply(s, step))
  {
    var s' := Apply(s, step);
    if step.worker < |s.requesters| {
      forall j
        ensures 0 <= j < |s.requesters| && j != step.worker ==> s'.requesters[j] == s.requesters[j]
      {}
      if (step.Send? || step.ReadClock?) && s' != s {
        assert s'.requesters[step.worker].HasSent? || s'.requesters[step.worker].HasDeadline?;
      }
    }
  }

  lemma LoopStepKeepsCovered(s: State, step: Step)
    requires Inv(s) && Covered(s) && !(step.Send? || step.ReadClock? || step.Store? || step.Wake?)
    ensures !Covered(Apply(s, step)) <==> Swallows(s, step)
  {
    assert Apply(s, step).requesters == s.requesters;
  }

  /** The window matters: without one, the loop takes a due deadline and paints nothing, so a
      message can be left with no deadline and nobody about to ask for one. In this run a window
      is attached and a frame is painted before the worker sends anything; then the window goes. */
  lemma DetachedLoopSwallowsRequest() returns (painted: seq<Step>, steps: seq<Step>)
    ensures painted <= steps
    ensures var s := Run(1, painted); s.window && s.pc.Draining? && s.messages == 0
    ensures var s := Run(1, steps);
      s.messages == 1 && s.deadline.None? && !RequestPending(s) && !WakePending(s) && s.pc.Top? && !s.window
  {
    hide Run, RequestPending, WakePending;
    painted := FirstPaint();
    var detached := ThenDetached(painted);
    var sent := RunTwo(1, detached, Send(0), ReadClock(0));
    var woken := RunTwo(1, sent, Store(0), Wake(0));
    assert Run(1, woken) == State(0, Some(0), true, false, 1, [Resting], Top);
    var polled := RunTwo(1, woken, ReadTimeout, PollReturns(false));
    steps := RoundEnds(polled, State(0, Some(0), false, false, 1, [Resting], Callbacks));
    NothingPending(Run(1, steps));
  }

  /** One round of the loop from its callbacks to its end, or to the drain of a frame. */
  lemma RoundEnds(steps: seq<Step>, s: State) returns (longer: seq<Step>)
    requires Run(1, steps) == s && s.pc == Callbacks
    ensures steps <= longer
    ensures Run(1, longer) == if Due(s.deadline, s.now) then s.(deadline := None, pc := if s.window then Draining else Top)
                              else s.(pc := Top)
  {
    hide Run;
    var read := RunTwo(1, steps, CallbacksDone, ReadNow);
    longer := read + [Take];
    RunSnoc(1, read, Take);
  }

  /** The first frame, painted as soon as the first window is attached. */
  lemma FirstPaint() returns (painted: seq<Step>)
    ensures Run(1, painted) == State(0, None, true, true, 0, [Resting], Draining)
  {
    hide Run;
    StartsDetached();
    var polled := RunTwo(1, [], ReadTimeout, PollReturns(false));
    assert Run(1, polled) == State(0, Some(0), false, false, 0, [Resting], Callbacks);
    var attached := RunTwo(1, polled, Attach, AttachRequest);
    painted := RoundEnds(attached, State(0, Some(0), true, true, 0, [Resting], Callbacks));
  }

  /** The next round of the loop loses the window. */
  lemma ThenDetached(painted: seq<Step>) returns (detached: seq<Step>)
    requires Run(1, painted) == State(0, None, true, true, 0, [Resting], Draining)
    ensures painted <= detached && Run(1, detached) == State(0, None, false, false, 0, [Resting], Top)
  {
    hide Run;
    var asleep := RunTwo(1, painted, DrainDone, ReadTimeout);
    assert Run(1, asleep) == State(0, None, true, true, 0, [Resting], Polling(None));
    var gone := RunTwo(1, asleep, PollReturns(false), Detach);
    detached := RoundEnds(gone, State(0, None, false, false, 0, [Resting], Callbacks));
  }

  lemma StartsDetached()
    ensures Run(1, []) == State(0, Some(0), false, false, 0, [Resting], Top)
  {
    assert Initial(1).requesters == [Resting];
  }

  lemma NothingPending(s: State)
    requires s.requesters == [Resting]
    ensures !RequestPending(s) && !WakePending(s)
  {}

  lemma RunTwo(workers: nat, steps: seq<Step>, first: Step, second: Step) returns (longer: seq<Step>)
    ensures steps <= longer && Run(workers, longer) == Apply(Apply(Run(workers, steps), first), second)
  {
    longer := steps + [first] + [second];
    RunSnoc(workers, steps, first);
    RunSnoc(workers, steps + [first], second);
  }
}
