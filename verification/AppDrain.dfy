/** The drain of the user interface, once as the loop over a whole channel and once as the steps of
    the concurrent system: without other steps in between they do the same. */
module AppDrain {
  import opened Basics
  import opened WakeCore
  import opened App
  import opened AppSystem

  /** What the worker that is being listened to has sent and the interface has not taken. */
  function Queue(s: System): seq<WakeState>
    requires s.ui.stateRx.Some? && s.ui.stateRx.value < |s.workers|
    requires s.workers[s.ui.stateRx.value].received <= |Sent(s.workers[s.ui.stateRx.value])|
  {
    var w := s.workers[s.ui.stateRx.value];
    Sent(w)[w.received..]
  }

  predicate InDrain(s: System) {
    && s.phase.Draining? && s.ui.stateRx.Some? && s.ui.stateRx.value < |s.workers|
    && s.workers[s.ui.stateRx.value].received <= |Sent(s.workers[s.ui.stateRx.value])|
  }

  lemma TakeMessage(s: System, now: nat)
    requires InDrain(s) && Queue(s) != []
    ensures var s' := Apply(s, DrainOne(now));
      && InDrain(s') && Queue(s') == Queue(s)[1..] && s'.ui == s.ui.(state := Queue(s)[0])
      && s'.phase == Draining(s.phase.terminal || IsTerminal(Queue(s)[0]))
      && s'.workers[s.ui.stateRx.value].exited == s.workers[s.ui.stateRx.value].exited
  {
    hide Past;
    var w := s.workers[s.ui.stateRx.value];
    SameSent(w, w.(received := w.received + 1));
  }

  lemma SameSent(w: Worker, w': Worker)
    requires w'.job == w.job && w'.pc == w.pc
    ensures Sent(w') == Sent(w)
  {}

  lemma FirstTerminal(queue: seq<WakeState>)
    requires queue != []
    ensures AnyTerminal(queue) <==> IsTerminal(queue[0]) || AnyTerminal(queue[1..])
  {
    if AnyTerminal(queue[1..]) {
      var i :| 0 <= i < |queue[1..]| && IsTerminal(queue[1..][i]);
      assert IsTerminal(queue[i + 1]);
    }
    if i :| 0 < i < |queue| && IsTerminal(queue[i]) {
      assert IsTerminal(queue[1..][i - 1]);
    }
  }

  lemma {:induction false} RepeatFirst(step: Step, n: nat)
    ensures Repeat(step, n + 1) == [step] + Repeat(step, n)
  {
    if n > 0 {
      RepeatFirst(step, n - 1);
    }
  }

  lemma LastStep(s: System, now: nat)
    requires InDrain(s) && Queue(s) == []
    ensures var s' := Apply(s, DrainOne(now));
      s'.phase.Between? && s'.ui == EndDrain(s.ui, s.phase.terminal, s.workers[s.ui.stateRx.value].exited, now)
  {
    hide Sent;
  }

  /** How the interface ends a drain with `queue` still to come. */
  function Drained(s: System, queue: seq<WakeState>, now: nat): Ui
    requires InDrain(s)
  {
    EndDrain(if queue == [] then s.ui else s.ui.(state := queue[|queue| - 1]),
             s.phase.terminal || AnyTerminal(queue), s.workers[s.ui.stateRx.value].exited, now)
  }

  lemma DrainedAfterMessage(s: System, s': System, queue: seq<WakeState>, now: nat)
    requires InDrain(s) && InDrain(s') && queue != [] && s'.ui == s.ui.(state := queue[0])
    requires s'.phase == Draining(s.phase.terminal || IsTerminal(queue[0]))
    requires s'.workers[s.ui.stateRx.value].exited == s.workers[s.ui.stateRx.value].exited
    ensures Drained(s', queue[1..], now) == Drained(s, queue, now)
  {
    FirstTerminal(queue);
    LastAfter(s.ui, queue);
    hide AnyTerminal, Sent, EndDrain, IsTerminal;
    assert s'.phase.terminal == (s.phase.terminal || IsTerminal(queue[0]));
  }

  lemma LastAfter(ui: Ui, queue: seq<WakeState>)
    requires queue != []
    ensures var next, rest := ui.(state := queue[0]), queue[1..];
      (if rest == [] then next else next.(state := rest[|rest| - 1])) == ui.(state := queue[|queue| - 1])
  {}

  /** The steps of a drain in progress: the messages one at a time, and then its end. */
  lemma {:induction false} DrainSteps(s: System, now: nat)
    requires InDrain(s)
    ensures var s' := Follow(s, Repeat(DrainOne(now), |Queue(s)| + 1));
      s'.phase.Between? && s'.ui == Drained(s, Queue(s), now)
    decreases |Queue(s)|
  {
    hide Apply, Sent, Follow, AnyTerminal, Drained, Repeat, EndDrain;
    var queue, next := Queue(s), Apply(s, DrainOne(now));
    var messages := Repeat(DrainOne(now), |queue|);
    RepeatFirst(DrainOne(now), |queue|);
    FollowConcat(s, [DrainOne(now)], messages);
    FollowOne(s, DrainOne(now));
    if queue == [] {
      LastStep(s, now);
      LastDrained(s, next, now);
    } else {
      TakeMessage(s, now);
      DrainSteps(next, now);
      DrainedAfterMessage(s, next, queue, now);
    }
  }

  lemma LastDrained(s: System, next: System, now: nat)
    requires InDrain(s)
    ensures Follow(next, Repeat(DrainOne(now), 0)) == next
    ensures Drained(s, [], now) == EndDrain(s.ui, s.phase.terminal, s.workers[s.ui.stateRx.value].exited, now)
  {
    NothingTerminal();
    hide Apply, Sent, AnyTerminal, EndDrain;
  }

  lemma NothingTerminal()
    ensures !AnyTerminal([])
  {}

  lemma StepsOfDrain(s: System, now: nat)
    requires s.phase.Between? && InDrain(s.(phase := Draining(false)))
    ensures var s' := Follow(s, [BeginDrain] + Repeat(DrainOne(now), |Queue(s)| + 1));
      s'.phase.Between? && s'.ui == Drain(s.ui, Queue(s), !s.workers[s.ui.stateRx.value].exited, now)
  {
    var begun := s.(phase := Draining(false));
    BeginStep(s);
    DrainedIsDrain(s, now);
    hide Sent, Apply, Follow, AnyTerminal, Repeat, EndDrain, Drain, Drained, Queue;
    var messages := Repeat(DrainOne(now), |Queue(s)| + 1);
    FollowConcat(s, [BeginDrain], messages);
    FollowOne(s, BeginDrain);
    DrainSteps(begun, now);
  }

  lemma DrainedIsDrain(s: System, now: nat)
    requires InDrain(s.(phase := Draining(false)))
    ensures var begun := s.(phase := Draining(false));
      && Queue(begun) == Queue(s)
      && Drained(begun, Queue(s), now) == Drain(s.ui, Queue(s), !s.workers[s.ui.stateRx.value].exited, now)
  {
    hide Sent, AnyTerminal;
  }

  lemma BeginStep(s: System)
    requires s.phase.Between? && InDrain(s.(phase := Draining(false)))
    ensures Apply(s, BeginDrain) == s.(phase := Draining(false))
  {
    hide Sent;
  }

  /** A drain that no worker interrupts leaves the interface as the loop does. */
  lemma DrainRefines(steps: seq<Step>, now: nat)
    requires Run(steps).phase.Between? && Run(steps).ui.stateRx.Some?
    ensures var s := Run(steps); var i := s.ui.stateRx.value;
      && i < |s.workers| && s.workers[i].received <= |Sent(s.workers[i])|
      && var s' := Run(steps + ([BeginDrain] + Repeat(DrainOne(now), |Queue(s)| + 1)));
         s'.phase.Between? && s'.ui == Drain(s.ui, Queue(s), !s.workers[i].exited, now)
  {
    RunKeepsInv(steps);
    var s := Run(steps);
    assert WorkerOk(s.workers[s.ui.stateRx.value]);
    hide Sent, Inv, Apply, Follow, Drain;
    FollowConcat(INITIAL, steps, [BeginDrain] + Repeat(DrainOne(now), |Queue(s)| + 1));
    StepsOfDrain(s, now);
  }

  /** And it finishes the attempt exactly if the worker has sent its final state or is gone. */
  lemma DrainFinishesIff(steps: seq<Step>, now: nat)
    requires Run(steps).phase.Between? && Run(steps).ui.stateRx.Some?
    ensures var s := Run(steps); var i := s.ui.stateRx.value;
      && i < |s.workers| && s.workers[i].received <= |Sent(s.workers[i])|
      && var s' := Run(steps + ([BeginDrain] + Repeat(DrainOne(now), |Queue(s)| + 1)));
         !s'.ui.busy <==> AnyTerminal(Sent(s.workers[i])) || s.workers[i].exited
  {
    DrainRefines(steps, now);
    RunKeepsInv(steps);
    var s := Run(steps);
    hide Run, Repeat, Past;
    var w := s.workers[s.ui.stateRx.value];
    TerminalSplits(Sent(w), w.received);
    assert s.ui.busy && !AnyTerminal(Sent(w)[..w.received]);
  }

  lemma TerminalSplits(states: seq<WakeState>, n: nat)
    requires n <= |states|
    ensures AnyTerminal(states) <==> AnyTerminal(states[..n]) || AnyTerminal(states[n..])
  {
    if i :| 0 <= i < |states| && IsTerminal(states[i]) {
      if i < n {
        assert IsTerminal(states[..n][i]);
      } else {
        assert IsTerminal(states[n..][i - n]);
      }
    }
    if i :| 0 <= i < |states[..n]| && IsTerminal(states[..n][i]) {
      assert IsTerminal(states[i]);
    }
    if i :| 0 <= i < |states[n..]| && IsTerminal(states[n..][i]) {
      assert IsTerminal(states[n + i]);
    }
  }
}
