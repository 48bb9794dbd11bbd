/** The request/response protocol between the tunnel client and its engine: a bounded queue of
    commands, each carrying a one-shot reply, and an engine that can be aborted at any point. */
module Commands {
  import opened Basics

  const CAPACITY: nat := 8

  /** What the engine computes for a command, from its request and whatever it observes meanwhile. */
  datatype Reply = Reply(call: nat, request: nat, observed: nat)

  datatype Answer = Answered(reply: Reply) | WorkerStopped

  datatype Slot = Pending | Filled(reply: Reply) | Dropped

  /** A client call: it waits for capacity; it is turned away by a stopped engine; its command
      is accepted, with a one-shot slot; it has its answer; or its future was dropped. */
  datatype Phase = Waiting | Accepted(slot: Slot) | Done(answer: Answer) | Refused | Abandoned

  datatype Call = Call(request: nat, phase: Phase)

  /** A command carries its request and the one-shot sender of its call. */
  datatype Command = Command(request: nat, call: nat)

  /** `accepted` and `replied` list calls in the order it happened. */
  datatype State = State(calls: seq<Call>, queue: seq<Command>, current: Option<Command>, running: bool, closed: bool,
                         accepted: seq<nat>, replied: seq<nat>)

  const INITIAL := State([], [], None, true, false, [], [])

  datatype Step =
    | Submit(request: nat)
    | Enqueue(call: nat)
    | Receive
    | Finish(observed: nat)
    | Close                // the client drops its sender
    | Exit                 // the engine sees the closed, empty queue
    | Abort
    | Take(call: nat)
    | Abandon(call: nat)

  function WithPhase(s: State, i: nat, phase: Phase): State
    requires i < |s.calls|
  {
    s.(calls := s.calls[i := s.calls[i].(phase := phase)])
  }

  /** A reply sent to a call that has gone is lost. */
  function Fill(s: State, i: nat, reply: Reply): State
    requires i < |s.calls|
  {
    if s.calls[i].phase == Accepted(Pending) then WithPhase(s, i, Accepted(Filled(reply))) else s
  }

  /** Dropping the engine drops every one-shot sender it still holds. */
  function DropPending(calls: seq<Call>): seq<Call> {
    seq(|calls|, i requires 0 <= i < |calls| =>
      if calls[i].phase == Accepted(Pending) then calls[i].(phase := Accepted(Dropped)) else calls[i])
  }

  /** One step; a step that is not possible changes nothing. */
  function Apply(s: State, step: Step): State {
    match step
    case Submit(request) => if s.closed then s else s.(calls := s.calls + [Call(request, Waiting)])
    case Enqueue(i) =>
      if i >= |s.calls| || !s.calls[i].phase.Waiting? then s
      else if !s.running then WithPhase(s, i, Refused)
      else if |s.queue| < CAPACITY then
        WithPhase(s, i, Accepted(Pending)).(queue := s.queue + [Command(s.calls[i].request, i)],
                                            accepted := s.accepted + [i])
      else s
    case Receive =>
      if s.running && s.current.None? && s.queue != []
      then s.(current := Some(s.queue[0]), queue := s.queue[1..]) else s
    case Finish(observed) =>
      if s.running && s.current.Some? && s.current.value.call < |s.calls| then
        var c := s.current.value;
        Fill(s, c.call, Reply(c.call, c.request, observed)).(current := None, replied := s.replied + [c.call])
      else s
    case Close => if forall i :: 0 <= i < |s.calls| ==> !IsLive(s.calls[i]) then s.(closed := true) else s
    case Exit =>
      if s.running && s.closed && s.current.None? && s.queue == [] then s.(running := false) else s
    case Abort =>
      if s.running then s.(running := false, current := None, queue := [], calls := DropPending(s.calls)) else s
    case Take(i) =>
      if i < |s.calls| && s.calls[i].phase.Accepted? && s.calls[i].phase.slot.Filled?
      then WithPhase(s, i, Done(Answered(s.calls[i].phase.slot.reply)))
      else if i < |s.calls| && s.calls[i].phase == Accepted(Dropped) then WithPhase(s, i, Done(WorkerStopped))
      else s
    case Abandon(i) => if i < |s.calls| && IsLive(s.calls[i]) then WithPhase(s, i, Abandoned) else s
  }

  /** Still borrowing the client. */
  predicate IsLive(c: Call) { c.phase.Waiting? || c.phase.Accepted? }

  function Run(steps: seq<Step>): State {
    if steps == [] then INITIAL else Apply(Run(steps[..|steps| - 1]), steps[|steps| - 1])
  }

  // ---------------------------------------------------------------------------------------
  // The invariant
  // ---------------------------------------------------------------------------------------

  function CallsOf(queue: seq<Command>): seq<nat> {
    seq(|queue|, i requires 0 <= i < |queue| => queue[i].call)
  }

  /** The accepted commands not yet replied to, in queue order. */
  function Outstanding(s: State): seq<nat> {
    (if s.current.Some? then [s.current.value.call] else []) + CallsOf(s.queue)
  }

  ghost predicate OrderOk(s: State) {
    && |s.queue| <= CAPACITY
    && (if s.running then s.accepted == s.replied + Outstanding(s)
        else s.replied <= s.accepted && s.current.None? && s.queue == [])
    && (forall j, k :: 0 <= j < k < |s.accepted| ==> s.accepted[j] != s.accepted[k])
    && (forall k :: 0 <= k < |s.accepted| ==> s.accepted[k] < |s.calls|)
  }

  ghost predicate CommandsOk(s: State) {
    && (s.current.Some? ==> s.current.value.call < |s.calls|
                            && s.current.value.request == s.calls[s.current.value.call].request)
    && (forall k :: 0 <= k < |s.queue| ==> s.queue[k].call < |s.calls| && s.queue[k].request == s.calls[s.queue[k].call].request)
  }

  /** The state of one call agrees with the history. */
  ghost predicate CallOk(s: State, i: nat)
    requires i < |s.calls|
  {
    var c := s.calls[i];
    match c.phase
    case Waiting => i !in s.accepted
    case Refused => i !in s.accepted && !s.running
    case Accepted(slot) =>
      && i in s.accepted
      && (match slot
          case Pending => s.running && i !in s.replied
          case Filled(reply) => i in s.replied && reply.call == i && reply.request == c.request
          case Dropped => !s.running && i !in s.replied)
    case Done(answer) =>
      && i in s.accepted
      && (match answer
          case Answered(reply) => i in s.replied && reply.call == i && reply.request == c.request
          case WorkerStopped => !s.running && i !in s.replied)
    case Abandoned => true
  }

  ghost predicate Inv(s: State) {
    OrderOk(s) && CommandsOk(s) && forall i | 0 <= i < |s.calls| :: CallOk(s, i)
  }

  // ---------------------------------------------------------------------------------------
  // Every step keeps it
  // ---------------------------------------------------------------------------------------

  /** Calls whose own entry and history are unchanged stay in order. */
  lemma OthersOk(s: State, s': State, except: nat)
    requires forall i | 0 <= i < |s.calls| :: CallOk(s, i)
    requires |s'.calls| >= |s.calls| && forall i :: 0 <= i < |s.calls| && i != except ==> s'.calls[i] == s.calls[i]
    requires s'.running == s.running
    requires forall i: nat :: i < |s.calls| && i != except ==> (i in s'.accepted <==> i in s.accepted)
    requires forall i: nat :: i < |s.calls| && i != except ==> (i in s'.replied <==> i in s.replied)
    ensures forall i | 0 <= i < |s.calls| :: i != except ==> CallOk(s', i)
  {
    forall i | 0 <= i < |s.calls| && i != except
      ensures CallOk(s', i)
    {
      assert CallOk(s, i);
    }
  }

  lemma AcceptedAreCalls(s: State, i: nat)
    requires OrderOk(s)
    ensures i in s.accepted ==> i < |s.calls|
    ensures i in s.replied ==> i in s.accepted
  {
    if i in s.replied {
      var k :| 0 <= k < |s.replied| && s.replied[k] == i;
      assert s.accepted[k] == i;
    }
  }

  lemma SubmitKeepsInv(s: State, request: nat)
    requires Inv(s)
    ensures Inv(Apply(s, Submit(request)))
  {
    OthersOk(s, Apply(s, Submit(request)), |s.calls|);
    AcceptedAreCalls(s, |s.calls|);
  }

  lemma EnqueueKeepsOrder(s: State, i: nat)
    requires OrderOk(s) && CommandsOk(s) && i < |s.calls| && i !in s.accepted
    requires s.calls[i].phase.Waiting? && s.running && |s.queue| < CAPACITY
    ensures OrderOk(Apply(s, Enqueue(i))) && CommandsOk(Apply(s, Enqueue(i)))
  {
    var s' := Apply(s, Enqueue(i));
    assert CallsOf(s'.queue) == CallsOf(s.queue) + [i];
    assert Outstanding(s') == Outstanding(s) + [i];
    assert s'.accepted == s.replied + Outstanding(s');
  }

  lemma EnqueueKeepsInv(s: State, i: nat)
    requires Inv(s)
    ensures Inv(Apply(s, Enqueue(i)))
  {
    var s' := Apply(s, Enqueue(i));
    if s' != s {
      assert CallOk(s, i);
      AcceptedAreCalls(s, i);
      OthersOk(s, s', i);
      if s.running {
        EnqueueKeepsOrder(s, i);
        hide OrderOk, CommandsOk;
        assert s'.accepted[|s.accepted|] == i;
      }
    }
  }

  lemma ReceiveKeepsInv(s: State)
    requires Inv(s)
    ensures Inv(Apply(s, Receive))
  {
    var s' := Apply(s, Receive);
    OthersOk(s, s', |s.calls|);
    if s' != s {
      assert Outstanding(s') == Outstanding(s);
    }
  }

  lemma FinishKeepsInv(s: State, observed: nat)
    requires Inv(s)
    ensures Inv(Apply(s, Finish(observed)))
  {
    var s' := Apply(s, Finish(observed));
    if s' != s {
      var i := s.current.value.call;
      assert CallOk(s, i);
      OthersOk(s, s', i);
      assert Outstanding(s) == [i] + CallsOf(s.queue);
      assert s'.replied + Outstanding(s') == s.accepted;
      assert s.accepted[|s.replied|] == i && s'.replied[|s.replied|] == i;
      NotRepliedTwice(s, i);
    }
  }

  /** The command in hand has not been replied to. */
  lemma NotRepliedTwice(s: State, i: nat)
    requires OrderOk(s) && s.running && s.current.Some? && i == s.current.value.call
    ensures i !in s.replied && i in s.accepted
  {
    assert s.accepted[|s.replied|] == i;
    assert forall k :: 0 <= k < |s.replied| ==> s.accepted[k] == s.replied[k];
  }

  lemma AbortKeepsInv(s: State)
    requires Inv(s)
    ensures Inv(Apply(s, Abort))
  {
    var s' := Apply(s, Abort);
    forall i | 0 <= i < |s'.calls|
      ensures CallOk(s', i)
    {
      assert CallOk(s, i);
    }
  }

  lemma PhaseKeepsOrder(s: State, i: nat, phase: Phase)
    requires OrderOk(s) && CommandsOk(s) && i < |s.calls|
    ensures OrderOk(WithPhase(s, i, phase)) && CommandsOk(WithPhase(s, i, phase))
  {
    assert Outstanding(WithPhase(s, i, phase)) == Outstanding(s);
  }

  lemma ClientStepKeepsInv(s: State, step: Step)
    requires Inv(s) && (step.Take? || step.Abandon?)
    ensures Inv(Apply(s, step))
  {
    var s' := Apply(s, step);
    var i := step.call;
    if s' != s {
      assert CallOk(s, i);
      OthersOk(s, s', i);
      PhaseKeepsOrder(s, i, s'.calls[i].phase);
      hide OrderOk, CommandsOk;
      assert s' == WithPhase(s, i, s'.calls[i].phase);
    }
  }

  lemma StopKeepsInv(s: State, step: Step)
    requires Inv(s) && (step.Close? || step.Exit?)
    ensures Inv(Apply(s, step))
  {
    var s' := Apply(s, step);
    if s' != s {
      forall i | 0 <= i < |s.calls|
        ensures CallOk(s', i)
      {
        assert CallOk(s, i);
        AcceptedAreCalls(s, i);
      }
      assert Outstanding(s') == Outstanding(s);
      assert step.Exit? ==> s.accepted == s.replied;
    }
  }

  lemma {:induction false} RunKeepsInv(steps: seq<Step>)
    ensures Inv(Run(steps))
  {
    if steps != [] {
      var s, step := Run(steps[..|steps| - 1]), steps[|steps| - 1];
      RunKeepsInv(steps[..|steps| - 1]);
      match step
      case Submit(request) => SubmitKeepsInv(s, request);
      case Enqueue(i) => EnqueueKeepsInv(s, i);
      case Receive => ReceiveKeepsInv(s);
      case Finish(observed) => FinishKeepsInv(s, observed);
      case Close => StopKeepsInv(s, step);
      case Exit => StopKeepsInv(s, step);
      case Abort => AbortKeepsInv(s);
      case Take(_) => ClientStepKeepsInv(s, step);
      case Abandon(_) => ClientStepKeepsInv(s, step);
    }
  }

  // ---------------------------------------------------------------------------------------
  // The theorems, over every run
  // ---------------------------------------------------------------------------------------

  /** Replies follow queue order and no command gets two: what has been replied to is a prefix
      of what was accepted, accepted commands are distinct, and while the engine runs the rest
      are exactly the command in hand and the queue, which never exceeds its capacity. */
  lemma RepliesFollowQueueOrder(steps: seq<Step>)
    ensures var s := Run(steps);
      && s.replied <= s.accepted
      && (forall j, k :: 0 <= j < k < |s.accepted| ==> s.accepted[j] != s.accepted[k])
      && (s.running ==> s.accepted == s.replied + Outstanding(s))
      && |s.queue| <= 8
  {
    RunKeepsInv(steps);
  }

  /** Every answer a call returns is the reply computed for its own command, or WorkerStopped;
      and WorkerStopped is returned only by a stopped engine that never replied. */
  lemma AnswersMatchRequests(steps: seq<Step>, i: nat)
    requires i < |Run(steps).calls| && Run(steps).calls[i].phase.Done?
    ensures var s := Run(steps); var c := s.calls[i];
      match c.phase.answer
      case Answered(reply) => reply.call == i && reply.request == c.request && i in s.replied
      case WorkerStopped => !s.running && i !in s.replied
  {
    RunKeepsInv(steps);
    assert CallOk(Run(steps), i);
  }

  lemma RunSnoc(steps: seq<Step>, step: Step)
    ensures Run(steps + [step]) == Apply(Run(steps), step)
  {
    assert (steps + [step])[..|steps|] == steps;
  }

  lemma StoppedCallFinishes(s: State, i: nat)
    requires Inv(s) && !s.running && i < |s.calls| && IsLive(s.calls[i])
    ensures var s' := Apply(Apply(s, Enqueue(i)), Take(i));
      && i < |s'.calls| && !IsLive(s'.calls[i])
      && (i in s.replied ==> s'.calls[i].phase.Done? && s'.calls[i].phase.answer.Answered?)
      && (i in s.accepted && i !in s.replied ==> s'.calls[i].phase == Done(WorkerStopped))
      && (i !in s.accepted ==> s'.calls[i].phase.Refused?)
  {
    assert CallOk(s, i);
    AcceptedAreCalls(s, i);
    hide CommandsOk, OrderOk;
  }

  /** Once the engine has stopped nobody waits for ever: each live call can finish at once, and
      does so with its reply exactly when it got one, else as stopped. */
  lemma StoppedEngineAnswersAll(steps: seq<Step>, i: nat)
    requires !Run(steps).running && i < |Run(steps).calls| && IsLive(Run(steps).calls[i])
    ensures var s, s' := Run(steps), Run(steps + [Enqueue(i)] + [Take(i)]);
      && i < |s'.calls|
      && !IsLive(s'.calls[i])
      && (i in s.replied ==> s'.calls[i].phase.Done? && s'.calls[i].phase.answer.Answered?)
      && (i in s.accepted && i !in s.replied ==> s'.calls[i].phase == Done(WorkerStopped))
      && (i !in s.accepted ==> s'.calls[i].phase.Refused?)
  {
    RunKeepsInv(steps);
    var s := Run(steps);
    StoppedCallFinishes(s, i);
    hide Run, CommandsOk, OrderOk, Inv, Apply;
    RunSnoc(steps, Enqueue(i));
    RunSnoc(steps + [Enqueue(i)], Take(i));
  }

  // ---------------------------------------------------------------------------------------
  // A running engine
  // ---------------------------------------------------------------------------------------

  /** The engine alone, for `n` commands. */
  function Work(n: nat): seq<Step> {
    if n == 0 then [] else Work(n - 1) + [Receive] + [Finish(0)]
  }

  function Follow(s: State, steps: seq<Step>): State {
    if steps == [] then s else Apply(Follow(s, steps[..|steps| - 1]), steps[|steps| - 1])
  }

  lemma {:induction false} RunConcat(first: seq<Step>, second: seq<Step>)
    ensures Run(first + second) == Follow(Run(first), second)
  {
    if second == [] {
      assert first + second == first;
    } else {
      var init, last := second[..|second| - 1], second[|second| - 1];
      RunConcat(first, init);
      assert second == init + [last] && first + second == first + init + [last];
      hide Apply, Run, Follow;
      RunSnoc(first + init, last);
      FollowSnoc(Run(first), init, last);
    }
  }

  lemma FollowSnoc(s: State, steps: seq<Step>, step: Step)
    ensures Follow(s, steps + [step]) == Apply(Follow(s, steps), step)
  {
    assert (steps + [step])[..|steps|] == steps;
  }

  /** The engine alone neither accepts nor gives up a call, and leaves the waiting ones alone. */
  ghost predicate OnlyEngine(s: State, s': State) {
    && s'.running && s'.accepted == s.accepted && |s'.calls| == |s.calls|
    && forall i :: 0 <= i < |s.calls| ==>
         && s'.calls[i].request == s.calls[i].request
         && (s.calls[i].phase.Waiting? ==> s'.calls[i].phase.Waiting?)
         && (s.calls[i].phase.Accepted? ==> s'.calls[i].phase.Accepted?)
  }

  /** One command: the one in hand, or else the first of the queue. */
  lemma OneCommand(s: State)
    requires Inv(s) && s.running && Outstanding(s) != []
    ensures var s' := Apply(Apply(s, Receive), Finish(0));
      Inv(s') && OnlyEngine(s, s') && s'.replied == s.replied + [Outstanding(s)[0]]
  {
    ReceiveKeepsInv(s);
    var received := Apply(s, Receive);
    FinishKeepsInv(received, 0);
    assert s.current.Some? ==> received == s;
    assert s.current.None? ==> received.current.value == s.queue[0];
    assert received.current.Some? && received.current.value.call == Outstanding(s)[0];
    hide OrderOk, CallOk;
    CurrentIsCall(received);
  }

  lemma CurrentIsCall(s: State)
    requires CommandsOk(s) && s.current.Some?
    ensures s.current.value.call < |s.calls|
  {}

  /** The engine alone replies to everything accepted, in order. */
  lemma {:induction false} WorkReplies(s: State, n: nat)
    requires Inv(s) && s.running && n <= |Outstanding(s)|
    ensures var s' := Follow(s, Work(n));
      Inv(s') && OnlyEngine(s, s') && s'.replied == s.replied + Outstanding(s)[..n]
  {
    hide Inv, Apply, Outstanding, OnlyEngine, OrderOk;
    if n > 0 {
      WorkReplies(s, n - 1);
      var before := Follow(s, Work(n - 1));
      EngineRests(s, before, n - 1);
      OneCommand(before);
      FollowSnoc(s, Work(n - 1), Receive);
      FollowSnoc(s, Work(n - 1) + [Receive], Finish(0));
      OnlyEngineFollows(s, before, Follow(s, Work(n)));
      OneMore(s.replied, Outstanding(s), n - 1);
    } else {
      OnlyEngineStarts(s);
      assert s.replied + Outstanding(s)[..0] == s.replied;
    }
  }

  lemma OnlyEngineStarts(s: State)
    requires s.running
    ensures OnlyEngine(s, s)
  {}

  lemma OnlyEngineFollows(s: State, t: State, u: State)
    requires OnlyEngine(s, t) && OnlyEngine(t, u)
    ensures OnlyEngine(s, u)
  {}

  /** What is left after `n` commands. */
  lemma EngineRests(s: State, t: State, n: nat)
    requires Inv(s) && Inv(t) && s.running && OnlyEngine(s, t)
    requires n <= |Outstanding(s)| && t.replied == s.replied + Outstanding(s)[..n]
    ensures t.running && Outstanding(t) == Outstanding(s)[n..]
  {
    hide CommandsOk, CallOk;
    RestIsOutstanding(s, t, n);
  }

  lemma OneMore(replied: seq<nat>, rest: seq<nat>, n: nat)
    requires n < |rest|
    ensures replied + rest[..n] + [rest[n]] == replied + rest[..n + 1]
  {}

  lemma RestIsOutstanding(s: State, s': State, n: nat)
    requires OrderOk(s) && OrderOk(s') && s.running && s'.running && s'.accepted == s.accepted
    requires n <= |Outstanding(s)| && s'.replied == s.replied + Outstanding(s)[..n]
    ensures Outstanding(s') == Outstanding(s)[n..]
  {
    var k := |s'.replied|;
    assert s.accepted[k..] == Outstanding(s') && s.accepted[k..] == Outstanding(s)[n..];
  }

  lemma NothingOutstanding(s: State)
    requires OrderOk(s) && s.running && Outstanding(s) == []
    ensures s.queue == [] && s.current.None? && s.replied == s.accepted
  {
    assert s.queue != [] ==> |CallsOf(s.queue)| > 0;
    assert s.replied + [] == s.replied;
  }

  /** The steps are the engine's, or the call's own. */
  ghost predicate EngineAnd(steps: seq<Step>, i: nat) {
    forall k :: 0 <= k < |steps| ==> steps[k].Receive? || steps[k].Finish? || steps[k] == Enqueue(i) || steps[k] == Take(i)
  }

  lemma {:induction false} WorkIsEngine(n: nat, i: nat)
    ensures EngineAnd(Work(n), i)
  {
    if n > 0 {
      WorkIsEngine(n - 1, i);
    }
  }

  /** An accepted call that was replied to holds its own reply. */
  lemma RepliedIsFilled(s: State, i: nat)
    requires Inv(s) && s.running && i < |s.calls| && s.calls[i].phase.Accepted? && i in s.replied
    ensures s.calls[i].phase.slot.Filled?
    ensures s.calls[i].phase.slot.reply.call == i && s.calls[i].phase.slot.reply.request == s.calls[i].request
  {
    assert CallOk(s, i);
  }

  lemma LiveIsWaitingOrAccepted(s: State, i: nat)
    requires Inv(s) && s.running && i < |s.calls| && IsLive(s.calls[i])
    ensures s.calls[i].phase.Accepted? ==> i in s.accepted
    ensures s.calls[i].phase.Waiting? ==> i !in s.accepted
  {
    assert CallOk(s, i);
  }

  /** With nothing outstanding, a waiting call is accepted next, and replied to next. */
  lemma WaitingIsServed(s: State, i: nat)
    requires Inv(s) && s.running && Outstanding(s) == [] && i < |s.calls| && s.calls[i].phase.Waiting?
    ensures var s' := Apply(Apply(Apply(s, Enqueue(i)), Receive), Finish(0));
      Inv(s') && s'.running && i < |s'.calls| && s'.calls[i].phase.Accepted? && i in s'.replied
      && s'.calls[i].request == s.calls[i].request
  {
    NothingOutstanding(s);
    EnqueueKeepsInv(s, i);
    var queued := Apply(s, Enqueue(i));
    assert CallsOf(queued.queue) == [i];
    assert Outstanding(queued) == [i];
    hide Inv, Apply, Outstanding;
    OneCommand(queued);
  }

  /** The call has been replied to and has not looked yet. */
  ghost predicate Served(s: State, i: nat, request: nat) {
    Inv(s) && s.running && i < |s.calls| && s.calls[i].phase.Accepted? && i in s.replied && s.calls[i].request == request
  }

  /** After everything accepted so far, nothing is outstanding. */
  lemma AllWorked(s: State)
    requires Inv(s) && s.running
    ensures var worked := Follow(s, Work(|Outstanding(s)|));
      Inv(worked) && OnlyEngine(s, worked) && Outstanding(worked) == [] && worked.replied == s.accepted
  {
    var n := |Outstanding(s)|;
    WorkReplies(s, n);
    var worked := Follow(s, Work(n));
    RestIsOutstanding(s, worked, n);
    NothingOutstanding(worked);
    hide Apply, Outstanding;
  }

  lemma EngineAndSnoc(steps: seq<Step>, step: Step, i: nat)
    requires EngineAnd(steps, i) && (step.Receive? || step.Finish? || step == Enqueue(i) || step == Take(i))
    ensures EngineAnd(steps + [step], i)
  {}

  lemma ServedSteps(s: State, i: nat) returns (more: seq<Step>)
    requires Inv(s) && s.running && i < |s.calls| && IsLive(s.calls[i])
    ensures EngineAnd(more, i) && Served(Follow(s, more), i, s.calls[i].request)
  {
    AllWorked(s);
    more := Work(|Outstanding(s)|);
    WorkIsEngine(|Outstanding(s)|, i);
    LiveIsWaitingOrAccepted(s, i);
    hide Inv, Apply, Outstanding, EngineAnd, Follow, Work;
    if s.calls[i].phase.Waiting? {
      var worked := Follow(s, more);
      WaitingIsServed(worked, i);
      FollowSnoc(s, more, Enqueue(i));
      FollowSnoc(s, more + [Enqueue(i)], Receive);
      FollowSnoc(s, more + [Enqueue(i)] + [Receive], Finish(0));
      EngineAndSnoc(more, Enqueue(i), i);
      EngineAndSnoc(more + [Enqueue(i)], Receive, i);
      EngineAndSnoc(more + [Enqueue(i)] + [Receive], Finish(0), i);
      more := more + [Enqueue(i)] + [Receive] + [Finish(0)];
    }
  }

  /** A running engine answers every call: from any reachable state, the engine and the call alone
      bring it, whether it waits for capacity or for its reply, to the reply for its own request. */
  lemma RunningEngineAnswers(steps: seq<Step>, i: nat) returns (more: seq<Step>)
    requires Run(steps).running && i < |Run(steps).calls| && IsLive(Run(steps).calls[i])
    ensures EngineAnd(more, i)
    ensures var s, s' := Run(steps), Run(steps + more);
      && i < |s'.calls| && s'.calls[i].request == s.calls[i].request
      && s'.calls[i].phase.Done? && s'.calls[i].phase.answer.Answered?
      && s'.calls[i].phase.answer.reply.call == i
      && s'.calls[i].phase.answer.reply.request == s.calls[i].request
  {
    RunKeepsInv(steps);
    var s := Run(steps);
    more := ServedSteps(s, i);
    var served := Follow(s, more);
    RepliedIsFilled(served, i);
    hide Inv, Apply, Run, EngineAnd, Follow, Outstanding;
    TakenIsDone(served, i);
    FollowSnoc(s, more, Take(i));
    EngineAndSnoc(more, Take(i), i);
    more := more + [Take(i)];
    RunConcat(steps, more);
  }

  lemma TakenIsDone(s: State, i: nat)
    requires i < |s.calls| && s.calls[i].phase.Accepted? && s.calls[i].phase.slot.Filled?
    ensures var s' := Apply(s, Take(i));
      |s'.calls| == |s.calls| && s'.calls[i] == Call(s.calls[i].request, Done(Answered(s.calls[i].phase.slot.reply)))
  {}
}
