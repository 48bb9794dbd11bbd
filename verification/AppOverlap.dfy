/** Two tunnels at once: concrete runs show that both cases of `AppSystem.OverlapIff` occur. */
module AppOverlap {
  import opened Basics
  import opened WakeCore
  import opened WakeTrace
  import opened App
  import opened AppSystem

  lemma {:induction false} FollowAdvances(s: System, i: nat, n: nat)
    requires i < |s.workers| && !s.workers[i].exited && s.workers[i].pc + n <= End(s.workers[i].job)
    ensures Follow(s, Repeat(Advance(i), n)) == s.(workers := s.workers[i := s.workers[i].(pc := s.workers[i].pc + n)])
  {
    hide Events;
    if n > 0 {
      FollowAdvances(s, i, n - 1);
      FollowConcat(s, Repeat(Advance(i), n - 1), [Advance(i)]);
      FollowOne(Follow(s, Repeat(Advance(i), n - 1)), Advance(i));
    }
  }

  lemma OneMessageReceived(s: System)
    requires Inv(s) && s.phase.Draining?
    requires s.workers[s.ui.stateRx.value].received < |Sent(s.workers[s.ui.stateRx.value])|
    ensures var i, s' := s.ui.stateRx.value, Apply(s, DrainOne(0));
      && Inv(s') && s'.phase.Draining? && s'.ui == s.ui.(state := s'.ui.state)
      && s'.workers == s.workers[i := s.workers[i].(received := s.workers[i].received + 1)]
  {
    hide Events;
    MessageKeepsInv(s, 0);
  }

  /** A drain in progress with at least `n` messages to come. */
  ghost predicate CanReceive(s: System, n: nat) {
    && Inv(s) && s.phase.Draining?
    && s.ui.stateRx.Some? && s.ui.stateRx.value < |s.workers|
    && s.workers[s.ui.stateRx.value].received + n <= |Sent(s.workers[s.ui.stateRx.value])|
  }

  /** `s'` is `s` with `n` more messages received. */
  predicate HasReceived(s: System, s': System, n: nat) {
    && s'.ui == s.ui.(state := s'.ui.state)
    && s.ui.stateRx.Some? && s.ui.stateRx.value < |s.workers|
    && var i := s.ui.stateRx.value;
       s'.workers == s.workers[i := s.workers[i].(received := s.workers[i].received + n)]
  }

  lemma ReceiveOne(s: System, n: nat)
    requires CanReceive(s, n) && n > 0
    ensures CanReceive(Apply(s, DrainOne(0)), n - 1) && HasReceived(s, Apply(s, DrainOne(0)), 1)
  {
    OneMessageReceived(s);
    hide Events;
    SameProgress(s.workers[s.ui.stateRx.value], Apply(s, DrainOne(0)).workers[s.ui.stateRx.value]);
  }

  lemma DrainTimes(n: nat, s: System)
    ensures Repeat(DrainOne(0), n + 1) == Repeat(DrainOne(0), n) + [DrainOne(0)]
    ensures Follow(s, Repeat(DrainOne(0), 0)) == s
  {
    hide Apply;
  }

  /** Receiving `n` messages one at a time. */
  lemma {:induction false} FollowMessages(s: System, n: nat, more: nat)
    requires CanReceive(s, n + more)
    ensures CanReceive(Follow(s, Repeat(DrainOne(0), n)), more) && HasReceived(s, Follow(s, Repeat(DrainOne(0), n)), n)
    decreases n
  {
    hide Apply, CanReceive, HasReceived, Follow, Inv, Repeat;
    if n > 0 {
      var before := Repeat(DrainOne(0), n - 1);
      DrainTimes(n - 1, s);
      FollowMessages(s, n - 1, more + 1);
      FollowConcat(s, before, [DrainOne(0)]);
      FollowOne(Follow(s, before), DrainOne(0));
      ReceiveOne(Follow(s, before), more + 1);
      ReceivedMore(s, Follow(s, before), Apply(Follow(s, before), DrainOne(0)), n - 1);
    } else {
      DrainTimes(0, s);
      NothingReceived(s, more);
    }
  }

  lemma ReceivedMore(s: System, before: System, after: System, n: nat)
    requires HasReceived(s, before, n) && HasReceived(before, after, 1)
    ensures HasReceived(s, after, n + 1)
  {}

  lemma NothingReceived(s: System, n: nat)
    requires CanReceive(s, n)
    ensures HasReceived(s, s, 0)
  {}

  lemma SameProgress(w: Worker, w': Worker)
    requires w'.job == w.job && w'.pc == w.pc
    ensures Past(w') == Past(w) && Sent(w') == Sent(w)
  {}

  /** The first nine of the ten events of an attempt that succeeds at the first probe. */
  function UntilAwake(target: WakeTarget, address: Ipv4): seq<Event> {
    [Report(WakeState.Connecting), Connect(true), Report(ResolvingPc), Resolve(target.mac), Report(Waking),
     SendWake(target.mac), Report(WaitingForPc(1)), Probe(address), Report(Awake)]
  }

  lemma OneProbeTrace(target: WakeTarget, address: Ipv4)
    ensures TraceOf(Reached(address, 1), target) == UntilAwake(target, address) + [Disconnect]
  {
    assert Waits(address, 0) == [];
    assert Waits(address, 1) == [Report(WaitingForPc(1)), Probe(address)];
  }

  /** An attempt that has reported Awake and not yet disconnected holds its tunnel. */
  lemma AwakeStillHolds(target: WakeTarget, address: Ipv4)
    ensures Holding(UntilAwake(target, address))
    ensures |Reports(UntilAwake(target, address))| == 5 && AnyTerminal(Reports(UntilAwake(target, address)))
  {
    var p := UntilAwake(target, address);
    assert p == p[..2] + p[2..] && Holding(p[..2]);
    HoldingLasts(p[..2], p[2..]);
    UntilAwakeReports(target, address);
    assert Reports(p)[4] == Awake;
  }

  lemma UntilAwakeReports(target: WakeTarget, address: Ipv4)
    ensures Reports(UntilAwake(target, address))
         == [WakeState.Connecting, ResolvingPc, Waking] + WaitingStates(1) + [Awake]
  {
    CompleteRun(Reached(address, 1), target);
    OneProbeTrace(target, address);
    hide TraceOf, UntilAwake;
    ReportsConcat(UntilAwake(target, address), [Disconnect]);
    SingleProjections(Disconnect);
    hide Reports;
    assert [WakeState.Connecting] + StageReports(Reached(address, 1)) == [WakeState.Connecting, ResolvingPc, Waking];
  }

  /** The first worker, started and taken through its first `pc` events. */
  lemma ToEvent(job: Job, pc: nat) returns (steps: seq<Step>)
    requires IsWake(job) && pc <= End(job)
    ensures Run(steps) == System(WakeBegun(NEW_UI, 1, 0, Spawned(0), 0), Between, [Worker(job, pc, 0, false, false)],
                                 [Begun(1, Start(job), Some(0))], [])
  {
    hide Events;
    var start := [ClickWake(1, 0, Start(job), 0)];
    FollowOne(INITIAL, start[0]);
    FollowAdvances(Run(start), 0, pc);
    FollowConcat(INITIAL, start, Repeat(Advance(0), pc));
    steps := start + Repeat(Advance(0), pc);
  }

  /** Its messages taken one by one, the first attempt is about to finish. */
  lemma ToLastMessage(job: Job, pc: nat, before: seq<Step>) returns (drained: seq<Step>)
    requires IsWake(job)
    requires Run(before) == System(WakeBegun(NEW_UI, 1, 0, Spawned(0), 0), Between, [Worker(job, pc, 0, false, false)],
                                   [Begun(1, Start(job), Some(0))], [])
    ensures var s := Run(drained);
      && s.workers == [Worker(job, pc, |Sent(Worker(job, pc, 0, false, false))|, false, false)]
      && s.phase.Draining? && s.ui.stateRx == Some(0)
  {
    var w := Worker(job, pc, 0, false, false);
    var drain := before + [BeginDrain];
    hide Events, Past, Sent, Follow;
    FollowOne(Run(before), BeginDrain);
    FollowConcat(INITIAL, before, [BeginDrain]);
    assert Run(drain) == Run(before).(phase := Draining(false));
    RunKeepsInv(drain);
    assert CanReceive(Run(drain), |Sent(w)|);
    hide Apply, Inv, CanReceive, Run;
    FollowMessages(Run(drain), |Sent(w)|, 0);
    drained := drain + Repeat(DrainOne(0), |Sent(w)|);
    RunConcat(drain, Repeat(DrainOne(0), |Sent(w)|));
    AllReceived(Run(drain), Run(drained), w);
  }

  lemma RunConcat(first: seq<Step>, second: seq<Step>)
    ensures Run(first + second) == Follow(Run(first), second)
  {
    hide Apply, Follow;
    FollowConcat(INITIAL, first, second);
  }

  lemma AllReceived(s: System, s': System, w: Worker)
    requires s.workers == [w] && w.received == 0 && s.ui.stateRx == Some(0)
    requires HasReceived(s, s', |Sent(w)|) && CanReceive(s', 0)
    ensures s'.workers == [w.(received := |Sent(w)|)] && s'.phase.Draining? && s'.ui.stateRx == Some(0)
  {
    hide Sent, Inv;
  }

  /** Its messages drained, the attempt is finished and the diagnostics are enabled. */
  lemma ToIdle(job: Job, pc: nat, before: seq<Step>) returns (steps: seq<Step>)
    requires IsWake(job) && AnyTerminal(Sent(Worker(job, pc, 0, false, false)))
    requires Run(before) == System(WakeBegun(NEW_UI, 1, 0, Spawned(0), 0), Between, [Worker(job, pc, 0, false, false)],
                                   [Begun(1, Start(job), Some(0))], [])
    ensures var s := Run(steps);
      && s.workers == [Worker(job, pc, |Sent(Worker(job, pc, 0, false, false))|, false, false)]
      && s.phase.Between? && DiagnosticEnabled(s.ui)
  {
    var drained := ToLastMessage(job, pc, before);
    var s := Run(drained);
    RunKeepsInv(drained);
    SameProgress(s.workers[0], Worker(job, pc, 0, false, false));
    LastMessageFinishes(s);
    hide Run, Apply, Sent;
    FollowOne(s, DrainOne(0));
    FollowConcat(INITIAL, drained, [DrainOne(0)]);
    steps := drained + [DrainOne(0)];
  }

  lemma LastMessageFinishes(s: System)
    requires Inv(s) && s.phase.Draining? && s.ui.stateRx.Some? && s.ui.stateRx.value < |s.workers|
    requires var w := s.workers[s.ui.stateRx.value]; w.received == |Sent(w)| && AnyTerminal(Sent(w))
    ensures var s' := Apply(s, DrainOne(0)); s'.workers == s.workers && s'.phase.Between? && DiagnosticEnabled(s'.ui)
  {
    hide Past, RecordsOk, WorkersOk;
    var w := s.workers[s.ui.stateRx.value];
    assert Sent(w)[..w.received] == Sent(w);
    assert s.phase == Draining(true);
  }

  /** A run with two tunnels: the first attempt has reported Awake and is about to disconnect
      when a status check connects. */
  lemma OverlapHappens(target: WakeTarget, address: Ipv4) returns (steps: seq<Step>)
    ensures var s := Run(steps);
      && |s.workers| == 2 && HoldsTunnel(s.workers[0]) && HoldsTunnel(s.workers[1])
      && !s.workers[0].crashed && !s.workers[1].crashed
  {
    var job := WakeJob(Reached(address, 1), target, false);
    OneProbeTrace(target, address);
    AwakeStillHolds(target, address);
    assert TraceOf(job.outcome, target)[..9] == UntilAwake(target, address);
    var awake := ToEvent(job, 9);
    var idle := ToIdle(job, 9, awake);
    steps := ThenCheck(idle, target.mac);
    assert HoldsTunnel(Worker(job, 9, 5, false, false));
  }

  lemma FailedConnectTrace(target: WakeTarget, detail: string)
    ensures var es := TraceOf(ConnectFailed(detail), target);
      |es| == 4 && es[1] == Connect(false) && AnyTerminal(Reports(es))
  {
    CompleteRun(ConnectFailed(detail), target);
    var es := TraceOf(ConnectFailed(detail), target);
    assert Reports(es)[|Reports(es)| - 1] == FinalState(ConnectFailed(detail), target);
  }

  /** The other way: the first attempt has reported that the probe inside its connect failed, the
      tunnel it dropped has not stopped yet, and a status check connects. */
  lemma LingeringHappens(target: WakeTarget, detail: string) returns (steps: seq<Step>)
    ensures var s := Run(steps);
      && |s.workers| == 2 && Lingers(s.workers[0]) && HoldsTunnel(s.workers[1])
      && !s.workers[0].crashed && !s.workers[1].crashed
  {
    var job := WakeJob(ConnectFailed(detail), target, true);
    var w := Worker(job, 4, 0, false, false);
    FailedConnectTrace(target, detail);
    assert Past(w) == TraceOf(job.outcome, target);
    assert Lingers(Worker(job, 4, |Sent(w)|, false, false));
    hide TraceOf, Lingers;
    var failed := ToEvent(job, 4);
    var idle := ToIdle(job, 4, failed);
    steps := ThenCheck(idle, target.mac);
  }

  /** With the diagnostics enabled, a status check can start and connect. */
  lemma ThenCheck(idle: seq<Step>, mac: MacAddress) returns (steps: seq<Step>)
    requires Run(idle).phase.Between? && DiagnosticEnabled(Run(idle).ui)
    ensures Run(steps).workers == Run(idle).workers + [Worker(SomeCheck(mac), 1, 0, false, false)]
    ensures HoldsTunnel(Worker(SomeCheck(mac), 1, 0, false, false))
  {
    var click := ClickStatus(0, Start(SomeCheck(mac)));
    var i := |Run(idle).workers|;
    CheckConnects(mac);
    assert End(SomeCheck(mac)) > 0;
    hide Events, Past;
    FollowOne(Run(idle), click);
    FollowConcat(INITIAL, idle, [click]);
    FollowAdvances(Run(idle + [click]), i, 1);
    FollowConcat(INITIAL, idle + [click], Repeat(Advance(i), 1));
    steps := idle + [click] + Repeat(Advance(i), 1);
  }

  function SomeCheck(mac: MacAddress): Job { CheckJob(mac, true, false, Success(true)) }

  lemma CheckConnects(mac: MacAddress)
    ensures HoldsTunnel(Worker(SomeCheck(mac), 1, 0, false, false))
  {
    assert Past(Worker(SomeCheck(mac), 1, 0, false, false)) == [Connect(true)];
  }
}
