/** The user interface and its worker threads as one concurrent system. Clicks, frames, sends,
    worker exits and worker crashes interleave in any order; the drain loop takes one message
    at a time, so workers can send while it runs. */
module AppSystem {
  import opened Basics
  import opened WakeCore
  import opened WakeTrace
  import opened App

  // ---------------------------------------------------------------------------------------
  // Workers
  // ---------------------------------------------------------------------------------------

  /** What a worker thread will do. Its course is fixed when it starts, and arbitrary. `drops` says
      how a connect fails, if it does: whether it drops an open tunnel without joining its tasks. */
  datatype Job =
    | WakeJob(outcome: Outcome, target: WakeTarget, drops: bool)
    | WakeNoRuntime(detail: string)
    | CheckJob(mac: MacAddress, connected: bool, drops: bool, answer: CheckResult)
    | CheckNoRuntime(detail: string)

  predicate IsWake(job: Job) { job.WakeJob? || job.WakeNoRuntime? }

  function NoRuntime(detail: string): WakeFailure {
    WakeFailure(Runtime, "could not start networking runtime: " + detail)
  }

  function Events(job: Job): seq<Event> {
    match job
    case WakeJob(o, t, _) => TraceOf(o, t)
    case WakeNoRuntime(d) => [Report(Failed(NoRuntime(d)))]
    case CheckJob(mac, ok, _, _) => [Connect(ok)] + (if ok then [Resolve(mac)] else []) + [Disconnect]
    case CheckNoRuntime(_) => []
  }

  /** The last state a wake worker reports. */
  function FinalOf(job: Job): WakeState
    requires IsWake(job)
  {
    match job
    case WakeJob(o, t, _) => FinalState(o, t)
    case WakeNoRuntime(d) => Failed(NoRuntime(d))
  }

  /** `pc` counts the events done; a check worker then sends its answer as one more step.
      `received` counts the reported states the user interface has taken. */
  datatype Worker = Worker(job: Job, pc: nat, received: nat, exited: bool, crashed: bool)

  function End(job: Job): nat { |Events(job)| + if IsWake(job) then 0 else 1 }

  function Past(w: Worker): seq<Event> {
    if w.pc <= |Events(w.job)| then Events(w.job)[..w.pc] else Events(w.job)
  }

  function Sent(w: Worker): seq<WakeState> { Reports(Past(w)) }

  predicate Answered(w: Worker) { !IsWake(w.job) && w.pc == End(w.job) }

  predicate HoldsTunnel(w: Worker) { Holding(Past(w)) }

  /** The worker has sent its last message, or never will. */
  ghost predicate Retired(w: Worker) {
    w.crashed || (if IsWake(w.job) then AnyTerminal(Sent(w)) else Answered(w))
  }

  // ---------------------------------------------------------------------------------------
  // The system
  // ---------------------------------------------------------------------------------------

  /** An attempt that was started: its id, how it was to run and, if one was created, its worker. */
  datatype Begun = Begun(id: nat, order: Order, worker: Option<nat>)

  /** What `finish_attempt` recorded about an attempt. */
  datatype Record = Record(id: nat, failure: Option<WakeFailure>)

  datatype Phase = Between | Draining(terminal: bool)

  datatype System = System(ui: Ui, phase: Phase, workers: seq<Worker>, begun: seq<Begun>, records: seq<Record>)

  const INITIAL := System(NEW_UI, Between, [], [], [])

  datatype Order = Refuse(message: string) | FailThread(error: string) | Start(job: Job)

  datatype Step =
    | Advance(worker: nat)
    | Exit(worker: nat)
    | Crash(worker: nat)
    | BeginDrain
    | DrainOne(now: nat)
    | DrainStatus(now: nat)
    | DrainPing(now: nat)
    | ExpireTerminalState(now: nat)
    | ExpireResults(now: nat)
    | ClickWake(id: nat, now: nat, order: Order, later: nat)
    | ClickStatus(now: nat, order: Order)
    | ClickPing(now: nat, order: Order)

  function LaunchOf(order: Order, workers: nat): Launch {
    match order
    case Refuse(m) => Rejected(m)
    case FailThread(e) => NoThread(e)
    case Start(_) => Spawned(workers)
  }

  function Spawn(order: Order): seq<Worker> {
    if order.Start? then [Worker(order.job, 0, 0, false, false)] else []
  }

  /** The record made by a step that turns `before` into `after`. */
  function Recorded(before: Ui, after: Ui): seq<Record> {
    if before.active.Some? && after.active.None? && after.last.Some?
    then [Record(before.active.value.id, after.last.value.failure)]
    else []
  }

  function Poll(s: System, rx: Option<nat>): TryRecv<CheckResult> {
    if rx.None? || rx.value >= |s.workers| then Empty
    else
      var w := s.workers[rx.value];
      if Answered(w) && w.job.CheckJob? then Received(w.job.answer)
      else if Answered(w) && w.job.CheckNoRuntime? then Received(Failure(NoRuntime(w.job.detail).detail))
      else if w.exited then Disconnected
      else Empty
  }

  function Update(s: System, ui: Ui): System {
    s.(ui := ui, records := s.records + Recorded(s.ui, ui))
  }

  function OneMessage(s: System, now: nat): System
    requires s.phase.Draining? && s.ui.stateRx.Some? && s.ui.stateRx.value < |s.workers|
  {
    var i := s.ui.stateRx.value;
    var w := s.workers[i];
    if w.received < |Sent(w)| then
      var message := Sent(w)[w.received];
      s.(ui := s.ui.(state := message),
         workers := s.workers[i := w.(received := w.received + 1)],
         phase := Draining(s.phase.terminal || IsTerminal(message)))
    else
      Update(s, EndDrain(s.ui, s.phase.terminal, w.exited, now)).(phase := Between)
  }

  function WakeClicked(s: System, id: nat, now: nat, order: Order, later: nat): System {
    var ui := WakeBegun(s.ui, id, now, LaunchOf(order, |s.workers|), later);
    var begun := Begun(id, order, if order.Start? then Some(|s.workers|) else None);
    var failed := if ui.active.None? then [Record(id, FailureIn(ui.state))] else [];
    System(ui, s.phase, s.workers + Spawn(order), s.begun + [begun], s.records + failed)
  }

  /** One step; a step that is not possible changes nothing. */
  function Apply(s: System, step: Step): System {
    match step
    case Advance(i) =>
      if i < |s.workers| && !s.workers[i].exited && s.workers[i].pc < End(s.workers[i].job)
      then s.(workers := s.workers[i := s.workers[i].(pc := s.workers[i].pc + 1)]) else s
    case Exit(i) =>
      if i < |s.workers| && !s.workers[i].exited && s.workers[i].pc == End(s.workers[i].job)
      then s.(workers := s.workers[i := s.workers[i].(exited := true)]) else s
    case Crash(i) =>
      if i < |s.workers| && !s.workers[i].exited
      then s.(workers := s.workers[i := s.workers[i].(exited := true, crashed := true)]) else s
    case BeginDrain =>
      if s.phase.Between? && s.ui.stateRx.Some? then s.(phase := Draining(false)) else s
    case DrainOne(now) =>
      if s.phase.Draining? && s.ui.stateRx.Some? && s.ui.stateRx.value < |s.workers| then OneMessage(s, now) else s
    case DrainStatus(now) =>
      if s.phase.Draining? then s
      else s.(ui := s.ui.(status := DrainCheck(s.ui.status, Poll(s, s.ui.status.rx), STATUS_SILENCE, now)))
    case DrainPing(now) =>
      if s.phase.Draining? then s
      else s.(ui := s.ui.(ping := DrainCheck(s.ui.ping, Poll(s, s.ui.ping.rx), PING_SILENCE, now)))
    case ExpireTerminalState(now) =>
      if s.phase.Draining? then s else s.(ui := ExpireTerminal(s.ui, now).0)
    case ExpireResults(now) =>
      if s.phase.Draining? then s
      else s.(ui := s.ui.(status := ExpireCheck(s.ui.status, now), ping := ExpireCheck(s.ui.ping, now)))
    case ClickWake(id, now, order, later) =>
      if s.phase.Draining? || !WakeEnabled(s.ui) || (order.Start? && !IsWake(order.job)) then s
      else WakeClicked(s, id, now, order, later)
    case ClickStatus(now, order) =>
      if s.phase.Draining? || !DiagnosticEnabled(s.ui) || (order.Start? && IsWake(order.job)) then s
      else s.(ui := StatusBegun(s.ui, LaunchOf(order, |s.workers|), now), workers := s.workers + Spawn(order))
    case ClickPing(now, order) =>
      if s.phase.Draining? || !DiagnosticEnabled(s.ui) || (order.Start? && IsWake(order.job)) then s
      else s.(ui := PingBegun(s.ui, LaunchOf(order, |s.workers|), now), workers := s.workers + Spawn(order))
  }

  function Follow(s: System, steps: seq<Step>): System {
    if steps == [] then s else Apply(Follow(s, steps[..|steps| - 1]), steps[|steps| - 1])
  }

  function Run(steps: seq<Step>): System { Follow(INITIAL, steps) }

  lemma {:induction false} FollowConcat(s: System, first: seq<Step>, second: seq<Step>)
    ensures Follow(s, first + second) == Follow(Follow(s, first), second)
  {
    if second == [] {
      assert first + second == first;
    } else {
      FollowConcat(s, first, second[..|second| - 1]);
      assert (first + second)[..|first + second| - 1] == first + second[..|second| - 1];
    }
  }

  function Repeat(step: Step, n: nat): seq<Step> {
    if n == 0 then [] else Repeat(step, n - 1) + [step]
  }

  lemma FollowOne(s: System, step: Step)
    ensures Follow(s, [step]) == Apply(s, step)
  {
    assert [step][..0] == [];
  }

  // ---------------------------------------------------------------------------------------
  // The invariant
  // ---------------------------------------------------------------------------------------

  ghost predicate WorkerOk(w: Worker) {
    && w.pc <= End(w.job)
    && w.received <= |Sent(w)|
    && (w.crashed ==> w.exited)
    && (w.exited && !w.crashed ==> w.pc == End(w.job))
  }

  predicate Outstanding(ui: Ui, i: nat) {
    ui.stateRx == Some(i) || ui.status.rx == Some(i) || ui.ping.rx == Some(i)
  }

  /** The receiver of a wake worker agrees with what the worker has sent. */
  ghost predicate Listening(s: System) {
    s.ui.stateRx.Some? ==>
      && s.ui.stateRx.value == |s.workers| - 1
      && var w := s.workers[s.ui.stateRx.value];
      && IsWake(w.job)
      && w.received <= |Sent(w)|
      && s.ui.state == (if w.received == 0 then WakeState.Connecting else Sent(w)[w.received - 1])
      && (if s.phase == Draining(true)
          then w.received > 0 && IsTerminal(s.ui.state) && w.received == |Sent(w)|
          else !AnyTerminal(Sent(w)[..w.received]))
  }

  ghost predicate Checking(s: System, rx: Option<nat>) {
    rx.Some? ==> rx.value == |s.workers| - 1 && !IsWake(s.workers[rx.value].job)
  }

  /** Busy, an open receiver and an active attempt are the same thing; at most one worker is
      outstanding; the display deadline is set exactly while a terminal state is on display. */
  ghost predicate UiOk(s: System) {
    && s.ui.busy == s.ui.stateRx.Some? == s.ui.active.Some?
    && (s.ui.busy ==> s.ui.status.rx.None? && s.ui.ping.rx.None?)
    && (s.ui.status.rx.Some? ==> s.ui.ping.rx.None?)
    && (s.phase.Draining? ==> s.ui.busy)
    && (s.ui.terminalDeadline.Some? <==> IsTerminal(s.ui.state) && !s.ui.busy)
    && (!s.ui.busy ==> s.ui.state.Idle? || IsTerminal(s.ui.state))
  }

  ghost predicate WorkersOk(s: System) {
    forall i | 0 <= i < |s.workers| :: WorkerOk(s.workers[i]) && (Outstanding(s.ui, i) || Retired(s.workers[i]))
  }

  /** The record is the worker's own final result, or a Runtime failure if it vanished
      before reporting one; without a worker it is the reason none was started. */
  ghost predicate RecordOk(s: System, b: Begun, r: Record) {
    && r.id == b.id
    && match b.order
       case Refuse(m) => b.worker.None? && r.failure == Some(WakeFailure(Configuration, m))
       case FailThread(e) => b.worker.None? && r.failure == Some(WakeFailure(Runtime, "could not create worker thread: " + e))
       case Start(job) =>
         && b.worker.Some? && b.worker.value < |s.workers|
         && var w := s.workers[b.worker.value];
         && IsWake(job) && w.job == job
         && if AnyTerminal(Sent(w)) then r.failure == FailureIn(FinalOf(job)) else w.crashed && r.failure == Some(VANISHED)
  }

  /** Each attempt with a worker has its own. */
  ghost predicate BegunOk(begun: seq<Begun>, workers: nat) {
    && (forall k | 0 <= k < |begun| :: begun[k].worker.Some? ==> begun[k].worker.value < workers)
    && (forall j, k | 0 <= j < k < |begun| ::
          begun[j].worker.Some? && begun[k].worker.Some? ==> begun[j].worker.value < begun[k].worker.value)
  }

  /** Every attempt but the active one is recorded, once and in order. */
  ghost predicate LedgerOk(ui: Ui, begun: seq<Begun>, records: seq<Record>) {
    && |begun| == |records| + (if ui.busy then 1 else 0)
    && (ui.busy ==>
          && begun[|begun| - 1].worker == ui.stateRx
          && ui.active.Some? && begun[|begun| - 1].id == ui.active.value.id)
    && (records != [] && !ui.busy ==>
          ui.last.Some? && ui.last.value.failure == records[|records| - 1].failure)
  }

  ghost predicate RecordsOk(s: System) {
    && BegunOk(s.begun, |s.workers|)
    && LedgerOk(s.ui, s.begun, s.records)
    && (s.ui.busy && s.ui.stateRx.Some? && s.ui.stateRx.value < |s.workers| ==>
          s.begun[|s.begun| - 1].order == Start(s.workers[s.ui.stateRx.value].job))
    && (forall k | 0 <= k < |s.records| :: RecordOk(s, s.begun[k], s.records[k]))
  }

  ghost predicate Inv(s: System) {
    UiOk(s) && WorkersOk(s) && Listening(s) && Checking(s, s.ui.status.rx) && Checking(s, s.ui.ping.rx) && RecordsOk(s)
  }

  // ---------------------------------------------------------------------------------------
  // Facts about workers
  // ---------------------------------------------------------------------------------------

  /** Whatever a worker has sent so far is quiet, or quiet up to its final state, which is then
      the last; a failure is only sent with the tunnel released. */
  lemma WorkerGuarantee(w: Worker) returns (quiet: seq<WakeState>)
    requires IsWake(w.job) && w.pc <= End(w.job)
    ensures !AnyTerminal(quiet) && IsTerminal(FinalOf(w.job)) && Idle !in quiet
    ensures (Sent(w) == quiet && !AnyTerminal(Sent(w)))
         || (Sent(w) == quiet + [FinalOf(w.job)] && AnyTerminal(Sent(w)) && (HoldsTunnel(w) ==> FinalOf(w.job) == Awake))
  {
    match w.job
    case WakeJob(o, t, _) =>
      quiet := PrefixGuarantee(o, t, Past(w));
      assert (quiet + [FinalState(o, t)])[|quiet|] == FinalState(o, t);
    case WakeNoRuntime(d) =>
      quiet := [];
      SingleProjections(Events(w.job)[0]);
      assert Events(w.job)[..1] == Events(w.job) && Events(w.job)[..0] == [];
      assert Sent(w) == quiet || Sent(w) == quiet + [FinalOf(w.job)];
      assert (quiet + [FinalOf(w.job)])[0] == FinalOf(w.job);
      assert Events(w.job)[..|Events(w.job)| - 1] == [] && !Holding(Events(w.job));
  }

  /** One more event sends at most one more message. */
  lemma AdvanceSends(w: Worker)
    requires w.pc < End(w.job)
    ensures Sent(w) <= Sent(w.(pc := w.pc + 1))
  {
    if w.pc < |Events(w.job)| {
      assert Events(w.job)[..w.pc + 1] == Past(w) + [Events(w.job)[w.pc]];
      ReportsConcat(Past(w), [Events(w.job)[w.pc]]);
    } else {
      assert Past(w) == Events(w.job);
    }
  }

  // ---------------------------------------------------------------------------------------
  // Every step keeps the invariant
  // ---------------------------------------------------------------------------------------

  /** A worker can be replaced by one that has gone further. */
  ghost predicate GoneFurther(w: Worker, w': Worker) {
    && WorkerOk(w')
    && w'.job == w.job && w'.received == w.received
    && Sent(w) <= Sent(w')
    && (Retired(w) ==> Retired(w'))
    && (AnyTerminal(Sent(w)) ==> AnyTerminal(Sent(w')) && Sent(w') == Sent(w))
    && (w.crashed ==> w' == w)
  }

  lemma ReplaceKeepsWorkers(s: System, i: nat, w': Worker)
    requires WorkersOk(s) && i < |s.workers| && GoneFurther(s.workers[i], w')
    ensures WorkersOk(s.(workers := s.workers[i := w']))
  {
    hide Events;
    var s' := s.(workers := s.workers[i := w']);
    forall j | 0 <= j < |s'.workers|
      ensures WorkerOk(s'.workers[j]) && (Outstanding(s'.ui, j) || Retired(s'.workers[j]))
    {
      assert WorkerOk(s.workers[j]) && (Outstanding(s.ui, j) || Retired(s.workers[j]));
    }
  }

  lemma ReplaceKeepsListening(s: System, i: nat, w': Worker)
    requires Listening(s) && i < |s.workers| && GoneFurther(s.workers[i], w')
    ensures Listening(s.(workers := s.workers[i := w']))
  {
    hide Events;
    var w := s.workers[i];
    if s.ui.stateRx == Some(i) {
      assert Sent(w')[..w.received] == Sent(w)[..w.received];
      if s.phase == Draining(true) {
        assert IsTerminal(Sent(w)[w.received - 1]);
      }
    }
  }

  lemma ReplaceKeepsRecords(s: System, i: nat, w': Worker)
    requires RecordsOk(s) && i < |s.workers| && GoneFurther(s.workers[i], w')
    ensures RecordsOk(s.(workers := s.workers[i := w']))
  {
    hide Events;
    var s' := s.(workers := s.workers[i := w']);
    forall k | 0 <= k < |s.records|
      ensures RecordOk(s', s'.begun[k], s'.records[k])
    {
      RecordSurvives(s, i, w', s.begun[k], s.records[k]);
    }
  }

  lemma RecordSurvives(s: System, i: nat, w': Worker, b: Begun, r: Record)
    requires RecordOk(s, b, r) && i < |s.workers| && GoneFurther(s.workers[i], w')
    ensures RecordOk(s.(workers := s.workers[i := w']), b, r)
  {
    hide Events;
  }

  lemma ReplaceWorker(s: System, i: nat, w': Worker)
    requires Inv(s) && i < |s.workers| && GoneFurther(s.workers[i], w')
    ensures Inv(s.(workers := s.workers[i := w']))
  {
    hide Events;
    ReplaceKeepsWorkers(s, i, w');
    ReplaceKeepsListening(s, i, w');
    ReplaceKeepsRecords(s, i, w');
  }

  lemma AdvanceGoesFurther(w: Worker)
    requires WorkerOk(w) && !w.exited && w.pc < End(w.job)
    ensures GoneFurther(w, w.(pc := w.pc + 1))
  {
    var w' := w.(pc := w.pc + 1);
    AdvanceSends(w);
    if IsWake(w.job) {
      var quiet := WorkerGuarantee(w);
      var quiet' := WorkerGuarantee(w');
      if AnyTerminal(Sent(w)) {
        FinalIsLast(Sent(w), quiet, Sent(w'), quiet', FinalOf(w.job));
      }
    } else {
      CheckSendsNothing(w);
      CheckSendsNothing(w');
    }
  }

  lemma ExitGoesFurther(w: Worker, crashed: bool)
    requires WorkerOk(w) && !w.exited && (crashed || w.pc == End(w.job))
    ensures GoneFurther(w, w.(exited := true, crashed := crashed))
  {
    hide Events, AnyTerminal;
  }

  lemma WorkerStepsKeepInv(s: System, step: Step)
    requires Inv(s) && (step.Advance? || step.Exit? || step.Crash?)
    ensures Inv(Apply(s, step))
  {
    var i := step.worker;
    if i < |s.workers| && !s.workers[i].exited {
      var w := s.workers[i];
      assert WorkerOk(w) && !w.crashed;
      hide Inv, GoneFurther, WorkerOk, Events;
      if step.Advance? && w.pc < End(w.job) {
        AdvanceGoesFurther(w);
        ReplaceWorker(s, i, w.(pc := w.pc + 1));
      } else if step.Exit? && w.pc == End(w.job) {
        ExitGoesFurther(w, false);
        ReplaceWorker(s, i, w.(exited := true));
      } else if step.Crash? {
        ExitGoesFurther(w, true);
        ReplaceWorker(s, i, w.(exited := true, crashed := true));
      }
    }
  }

  lemma FinalIsLast(sent: seq<WakeState>, quiet: seq<WakeState>, sent': seq<WakeState>, quiet': seq<WakeState>,
                    final: WakeState)
    requires IsTerminal(final) && !AnyTerminal(quiet) && !AnyTerminal(quiet')
    requires sent == quiet + [final] && sent <= sent' && (sent' == quiet' || sent' == quiet' + [final])
    ensures sent' == sent
  {
    assert sent[|quiet|] == final;
    TerminalIsLast(sent', quiet', final, |quiet|);
  }

  lemma TerminalIsLast(sent: seq<WakeState>, quiet: seq<WakeState>, final: WakeState, k: nat)
    requires !AnyTerminal(quiet) && (sent == quiet || sent == quiet + [final])
    requires k < |sent| && IsTerminal(sent[k])
    ensures k == |sent| - 1 && sent == quiet + [final]
  {}

  lemma CheckSendsNothing(w: Worker)
    requires !IsWake(w.job) && w.pc <= End(w.job)
    ensures Sent(w) == []
  {
    NoReports(Past(w));
  }

  lemma {:induction false} NoReports(es: seq<Event>)
    requires forall i :: 0 <= i < |es| ==> !es[i].Report?
    ensures Reports(es) == []
  {
    if es != [] {
      NoReports(es[1..]);
    }
  }

  /** Records and workers do not depend on which receivers are open, as long as a worker whose
      receiver is closed is retired. */
  lemma UiChangeKeepsWorkers(s: System, s': System)
    requires WorkersOk(s) && s'.workers == s.workers
    requires forall i | 0 <= i < |s.workers| :: Outstanding(s.ui, i) && !Outstanding(s'.ui, i) ==> Retired(s.workers[i])
    ensures WorkersOk(s')
  {
    hide Events;
    forall i | 0 <= i < |s.workers|
      ensures WorkerOk(s'.workers[i]) && (Outstanding(s'.ui, i) || Retired(s'.workers[i]))
    {
      assert WorkerOk(s.workers[i]) && (Outstanding(s.ui, i) || Retired(s.workers[i]));
    }
  }

  lemma RecordsKept(s: System, s': System)
    requires |s.begun| >= |s.records| && s.begun <= s'.begun && s.workers <= s'.workers
    requires forall k | 0 <= k < |s.records| :: RecordOk(s, s.begun[k], s.records[k])
    ensures forall k | 0 <= k < |s.records| :: RecordOk(s', s'.begun[k], s.records[k])
  {
    hide Events;
    forall k | 0 <= k < |s.records|
      ensures RecordOk(s', s'.begun[k], s.records[k])
    {
      assert RecordOk(s, s.begun[k], s.records[k]);
    }
  }

  lemma MessageKeepsInv(s: System, now: nat)
    requires Inv(s) && s.phase.Draining?
    requires s.workers[s.ui.stateRx.value].received < |Sent(s.workers[s.ui.stateRx.value])|
    ensures Inv(OneMessage(s, now))
  {
    hide Events;
    var i := s.ui.stateRx.value;
    var w := s.workers[i];
    var s' := OneMessage(s, now);
    var w' := w.(received := w.received + 1);
    assert WorkerOk(w);
    var quiet := WorkerGuarantee(w);
    var message := Sent(w)[w.received];
    if IsTerminal(message) {
      TerminalIsLast(Sent(w), quiet, FinalOf(w.job), w.received);
    } else {
      assert Sent(w')[..w'.received] == Sent(w)[..w.received] + [message];
    }
    forall j | 0 <= j < |s'.workers|
      ensures WorkerOk(s'.workers[j]) && (Outstanding(s'.ui, j) || Retired(s'.workers[j]))
    {
      assert WorkerOk(s.workers[j]) && (Outstanding(s.ui, j) || Retired(s.workers[j]));
    }
    forall k | 0 <= k < |s'.records|
      ensures RecordOk(s', s'.begun[k], s'.records[k])
    {
      assert RecordOk(s, s.begun[k], s.records[k]);
    }
  }

  /** The end of a drain that heard or concluded nothing. */
  lemma QuietDrainKeepsInv(s: System, now: nat)
    requires Inv(s) && s.phase == Draining(false)
    requires var w := s.workers[s.ui.stateRx.value]; w.received == |Sent(w)| && !w.exited
    ensures Inv(OneMessage(s, now))
  {
    hide Events;
    var s' := OneMessage(s, now);
    assert s' == s.(phase := Between);
    UiChangeKeepsWorkers(s, s');
    RecordsKept(s, s');
  }

  /** The end of a drain that finishes the attempt. */
  lemma FinalDrainKeepsInv(s: System, now: nat)
    requires Inv(s) && s.phase.Draining?
    requires var w := s.workers[s.ui.stateRx.value]; w.received == |Sent(w)| && (s.phase.terminal || w.exited)
    ensures Inv(OneMessage(s, now))
  {
    hide Events;
    var i := s.ui.stateRx.value;
    var w := s.workers[i];
    var s' := OneMessage(s, now);
    assert WorkerOk(w);
    var quiet := WorkerGuarantee(w);
    assert Sent(w)[..w.received] == Sent(w);
    if s.phase.terminal {
      TerminalIsLast(Sent(w), quiet, FinalOf(w.job), w.received - 1);
    } else {
      ExitedQuietlyCrashed(w);
    }
    UiChangeKeepsWorkers(s, s');
    RecordsKept(s, s');
    assert RecordOk(s', s'.begun[|s.records|], s'.records[|s.records|]);
  }

  /** A wake worker that ends without a terminal report has crashed. */
  lemma ExitedQuietlyCrashed(w: Worker)
    requires WorkerOk(w) && IsWake(w.job) && w.exited && !AnyTerminal(Sent(w))
    ensures w.crashed
  {
    hide Events;
    if w.pc == End(w.job) {
      CompleteWorkerSettles(w);
    }
  }

  lemma CompleteWorkerSettles(w: Worker)
    requires IsWake(w.job) && w.pc == End(w.job)
    ensures AnyTerminal(Sent(w))
  {
    assert Past(w) == Events(w.job);
    match w.job
    case WakeJob(o, t, _) =>
      CompleteRun(o, t);
      assert Sent(w)[|Sent(w)| - 1] == FinalState(o, t);
    case WakeNoRuntime(d) =>
      SingleProjections(Events(w.job)[0]);
      assert Sent(w)[0] == FinalOf(w.job);
  }

  lemma DrainStepsKeepInv(s: System, step: Step)
    requires Inv(s) && (step.BeginDrain? || step.DrainOne?)
    ensures Inv(Apply(s, step))
  {
    hide Events;
    if step.BeginDrain? {
      UiChangeKeepsWorkers(s, Apply(s, step));
      RecordsKept(s, Apply(s, step));
    } else if s.phase.Draining? {
      var w := s.workers[s.ui.stateRx.value];
      if w.received < |Sent(w)| {
        MessageKeepsInv(s, step.now);
      } else if s.phase.terminal || w.exited {
        FinalDrainKeepsInv(s, step.now);
      } else {
        QuietDrainKeepsInv(s, step.now);
      }
    }
  }

  lemma CheckDrainKeepsInv(s: System, step: Step)
    requires Inv(s) && (step.DrainStatus? || step.DrainPing?)
    ensures Inv(Apply(s, step))
  {
    hide Events, Past, Sent, AnyTerminal, RecordOk;
    var s' := Apply(s, step);
    var rx := if step.DrainStatus? then s.ui.status.rx else s.ui.ping.rx;
    if !s.phase.Draining? && rx.Some? {
      assert WorkerOk(s.workers[rx.value]);
      UiChangeKeepsWorkers(s, s');
      RecordsKept(s, s');
    }
  }

  lemma ExpiryKeepsInv(s: System, step: Step)
    requires Inv(s) && (step.ExpireTerminalState? || step.ExpireResults?)
    ensures Inv(Apply(s, step))
  {
    hide Events, Sent, Past, Retired, WorkerOk, AnyTerminal, RecordOk;
    UiChangeKeepsWorkers(s, Apply(s, step));
    RecordsKept(s, Apply(s, step));
  }

  lemma SpawnKeepsWorkers(s: System, s': System, order: Order)
    requires WorkersOk(s) && s'.workers == s.workers + Spawn(order)
    requires forall i | 0 <= i < |s.workers| :: !Outstanding(s.ui, i)
    requires order.Start? ==> Outstanding(s'.ui, |s.workers|)
    ensures WorkersOk(s')
  {
    forall i | 0 <= i < |s'.workers|
      ensures WorkerOk(s'.workers[i]) && (Outstanding(s'.ui, i) || Retired(s'.workers[i]))
    {
      if i < |s.workers| {
        assert WorkerOk(s.workers[i]) && (Outstanding(s.ui, i) || Retired(s.workers[i]));
      }
    }
  }

  lemma ClickWakeKeepsUi(s: System, step: Step)
    requires Inv(s) && step.ClickWake? && s.phase.Between? && WakeEnabled(s.ui)
    requires step.order.Start? ==> IsWake(step.order.job)
    ensures var s' := Apply(s, step);
      UiOk(s') && Listening(s') && Checking(s', s'.ui.status.rx) && Checking(s', s'.ui.ping.rx)
  {
    hide Events, Past, Retired, WorkerOk, RecordOk, RecordsOk, WorkersOk;
    if step.order.Start? {
      var w := Worker(step.order.job, 0, 0, false, false);
      assert Sent(w)[..0] == [];
      hide Sent;
    } else {
      hide Sent, AnyTerminal;
    }
  }

  lemma ClickWakeKeepsRecords(s: System, step: Step)
    requires Inv(s) && step.ClickWake? && s.phase.Between? && WakeEnabled(s.ui)
    requires step.order.Start? ==> IsWake(step.order.job)
    ensures RecordsOk(Apply(s, step))
  {
    var s' := Apply(s, step);
    hide Events, Sent, Past, Retired, WorkerOk, AnyTerminal, Listening, Checking, WorkersOk;
    if !step.order.Start? {
      assert RecordOk(s', s'.begun[|s.begun|], s'.records[|s.records|]);
    }
    hide RecordOk;
    RecordsKept(s, s');
  }

  lemma ClickWakeKeepsInv(s: System, step: Step)
    requires Inv(s) && step.ClickWake? && s.phase.Between? && WakeEnabled(s.ui)
    requires step.order.Start? ==> IsWake(step.order.job)
    ensures Inv(Apply(s, step))
  {
    ClickWakeKeepsUi(s, step);
    ClickWakeKeepsRecords(s, step);
    hide Events, Sent, Past, Retired, WorkerOk, AnyTerminal, RecordsOk, Listening, Checking, WorkersOk;
    SpawnKeepsWorkers(s, Apply(s, step), step.order);
  }

  lemma ClickCheckKeepsInv(s: System, step: Step)
    requires Inv(s) && (step.ClickStatus? || step.ClickPing?) && s.phase.Between? && DiagnosticEnabled(s.ui)
    requires step.order.Start? ==> !IsWake(step.order.job)
    ensures Inv(Apply(s, step))
  {
    hide Events, Sent, Past, Retired, WorkerOk, AnyTerminal, RecordOk;
    var s' := Apply(s, step);
    SpawnKeepsWorkers(s, s', step.order);
    RecordsKept(s, s');
  }

  lemma StepKeepsInv(s: System, step: Step)
    requires Inv(s)
    ensures Inv(Apply(s, step))
  {
    hide Events;
    match step
    case Advance(_) => WorkerStepsKeepInv(s, step);
    case Exit(_) => WorkerStepsKeepInv(s, step);
    case Crash(_) => WorkerStepsKeepInv(s, step);
    case BeginDrain => DrainStepsKeepInv(s, step);
    case DrainOne(_) => DrainStepsKeepInv(s, step);
    case DrainStatus(_) => CheckDrainKeepsInv(s, step);
    case DrainPing(_) => CheckDrainKeepsInv(s, step);
    case ExpireTerminalState(_) => ExpiryKeepsInv(s, step);
    case ExpireResults(_) => ExpiryKeepsInv(s, step);
    case ClickWake(_, _, _, _) => if Apply(s, step) != s { ClickWakeKeepsInv(s, step); }
    case ClickStatus(_, _) => if Apply(s, step) != s { ClickCheckKeepsInv(s, step); }
    case ClickPing(_, _) => if Apply(s, step) != s { ClickCheckKeepsInv(s, step); }
  }

  lemma {:induction false} RunKeepsInv(steps: seq<Step>)
    ensures Inv(Run(steps))
  {
    if steps != [] {
      RunKeepsInv(steps[..|steps| - 1]);
      StepKeepsInv(Run(steps[..|steps| - 1]), steps[|steps| - 1]);
    }
  }

  // ---------------------------------------------------------------------------------------
  // The theorems, over every run
  // ---------------------------------------------------------------------------------------

  /** Being busy, listening to a worker and having an active attempt are the same thing, and
      the display deadline is set exactly while a finished attempt is on display. */
  lemma UiAgrees(steps: seq<Step>)
    ensures var ui := Run(steps).ui;
      && (ui.busy <==> ui.stateRx.Some?)
      && (ui.busy <==> ui.active.Some?)
      && (Run(steps).phase.Between? ==> (ui.terminalDeadline.Some? <==> IsTerminal(ui.state)))
      && (ui.busy || ui.state.Idle? || IsTerminal(ui.state))
  {
    RunKeepsInv(steps);
    var s := Run(steps);
    if s.ui.busy && s.phase.Between? {
      var w := s.workers[s.ui.stateRx.value];
      if w.received > 0 {
        assert !IsTerminal(Sent(w)[..w.received][w.received - 1]);
      }
    }
  }

  /** When the buttons can be clicked: the wake button when nothing is under way and no success is
      on display, the diagnostic buttons when nothing is under way. */
  lemma ButtonsEnabledIff(steps: seq<Step>)
    requires Run(steps).phase.Between?
    ensures var ui := Run(steps).ui;
      && (WakeEnabled(ui) <==> (ui.state.Idle? || ui.state.Failed?) && ui.status.rx.None? && ui.ping.rx.None?)
      && (DiagnosticEnabled(ui) <==>
          (ui.state.Idle? || ui.state.Failed? || ui.state.Awake?) && ui.status.rx.None? && ui.ping.rx.None?)
  {
    RunKeepsInv(steps);
    UiAgrees(steps);
    if Run(steps).ui.busy {
      BusyIsNotIdle(Run(steps));
    }
    hide Run, Events, Past, Sent, Retired, WorkerOk, AnyTerminal, RecordOk, RecordsOk, WorkersOk;
  }

  lemma BusyIsNotIdle(s: System)
    requires Inv(s) && s.ui.busy
    ensures !s.ui.state.Idle?
  {
    hide Events, Past, RecordOk;
    var i := s.ui.stateRx.value;
    var w := s.workers[i];
    assert WorkerOk(w) && (Outstanding(s.ui, i) || Retired(w));
    var quiet := WorkerGuarantee(w);
    assert forall k :: 0 <= k < |quiet| ==> quiet[k] in quiet;
  }

  /** Every started attempt but the active one is recorded exactly once, in order, with its
      worker's own final result, or a Runtime failure if the worker crashed before reporting
      one, or the reason it got no worker. */
  lemma AttemptsRecordedOnce(steps: seq<Step>)
    ensures var s := Run(steps);
      && |s.records| == |s.begun| - (if s.ui.busy then 1 else 0)
      && forall k | 0 <= k < |s.records| ::
           var (b, r) := (s.begun[k], s.records[k]);
           && r.id == b.id
           && match b.order
              case Refuse(m) => r.failure == Some(WakeFailure(Configuration, m))
              case FailThread(e) => r.failure == Some(WakeFailure(Runtime, "could not create worker thread: " + e))
              case Start(job) =>
                && b.worker.Some? && b.worker.value < |s.workers|
                && var w := s.workers[b.worker.value];
                && IsWake(job) && w.job == job
                && if AnyTerminal(Sent(w)) then r.failure == FailureIn(FinalOf(job))
                   else w.crashed && r.failure == Some(VANISHED)
  {
    RunKeepsInv(steps);
    var s := Run(steps);
    forall k | 0 <= k < |s.records|
      ensures RecordOk(s, s.begun[k], s.records[k])
    {}
  }

  /** The final result of a wake worker, by the way its attempt ends. */
  lemma FinalSpelled(job: Job)
    requires IsWake(job)
    ensures FailureIn(FinalOf(job))
         == match job
            case WakeNoRuntime(d) =>
              Some(WakeFailure(WakeFailureStage.Runtime, "could not start networking runtime: " + d))
            case WakeJob(o, t, _) =>
              match o
              case ConnectFailed(d) => Some(WakeFailure(WakeFailureStage.Connecting, d))
              case ResolveFailed(d) => Some(WakeFailure(WakeFailureStage.ResolveTarget, d))
              case WakeFailed(d) => Some(WakeFailure(WakeFailureStage.WakeRequest, d))
              case ProbeFailed(_, _, d) => Some(WakeFailure(WakeFailureStage.Probing, d))
              case TimedOut(_, _) => Some(WakeFailure(WakeFailureStage.Timeout, TimeoutDetail(t)))
              case Reached(_, _) => None
  {
    hide TimeoutDetail;
  }

  /** The attempt shown as the last one is the last one recorded. */
  lemma LastAttemptShown(steps: seq<Step>)
    ensures var s := Run(steps);
      s.records != [] && !s.ui.busy ==>
        s.ui.last.Some? && s.ui.last.value.failure == s.records[|s.records| - 1].failure
  {
    RunKeepsInv(steps);
  }

  /** A recorded success means that the worker's own attempt reached the PC, crash or no crash. */
  lemma RecordedSuccessIsReached(steps: seq<Step>, k: nat)
    requires k < |Run(steps).records| && Run(steps).records[k].failure.None?
    ensures var s := Run(steps);
      && k < |s.begun| && s.begun[k].worker.Some? && s.begun[k].worker.value < |s.workers|
      && s.workers[s.begun[k].worker.value].job.WakeJob?
      && s.workers[s.begun[k].worker.value].job.outcome.Reached?
  {
    RunKeepsInv(steps);
    var s := Run(steps);
    assert RecordOk(s, s.begun[k], s.records[k]);
    hide Run, RecordsOk, WorkersOk, Listening, Sent, AnyTerminal;
  }

  /** At most one of wake, status check and ping is outstanding. */
  lemma OneOutstanding(steps: seq<Step>)
    ensures var ui := Run(steps).ui;
      && !(ui.stateRx.Some? && ui.status.rx.Some?)
      && !(ui.stateRx.Some? && ui.ping.rx.Some?)
      && !(ui.status.rx.Some? && ui.ping.rx.Some?)
  {
    RunKeepsInv(steps);
  }

  /** The worker is inside `connect`, where a tunnel may exist already. */
  predicate Connects(w: Worker) { w.pc < |Events(w.job)| && Events(w.job)[w.pc].Connect? }

  /** Its connect has dropped a tunnel, whose tasks may go on until the worker exits. */
  predicate Lingers(w: Worker) {
    (w.job.WakeJob? || w.job.CheckJob?) && w.job.drops && Connect(false) in Past(w) && !w.exited
  }

  /** A tunnel of this worker may exist. */
  predicate HasTunnel(w: Worker) { HoldsTunnel(w) || Connects(w) || Lingers(w) }

  /** A worker that has not crashed has a tunnel while a younger worker exists, whatever that one
      does, exactly in two cases: it is a wake attempt that has reported Awake and not yet
      disconnected, or its connect has dropped a tunnel and it has not yet exited. */
  lemma OverlapIff(steps: seq<Step>, i: nat)
    requires i + 1 < |Run(steps).workers| && !Run(steps).workers[i].crashed
    ensures var w := Run(steps).workers[i];
      HasTunnel(w) <==> (IsWake(w.job) && Awake in Sent(w) && w.pc < End(w.job)) || Lingers(w)
  {
    RunKeepsInv(steps);
    var s := Run(steps);
    OlderIsRetired(s, i);
    hide Run, Lingers;
    var w := s.workers[i];
    if Connects(w) {
      ConnectComesFirst(w);
      assert false;
    }
    RetiredHolds(w);
  }

  /** A retired worker that has not crashed holds its tunnel exactly between its report of Awake
      and its last event. */
  lemma RetiredHolds(w: Worker)
    requires WorkerOk(w) && Retired(w) && !w.crashed
    ensures HoldsTunnel(w) <==> IsWake(w.job) && Awake in Sent(w) && w.pc < End(w.job)
  {
    match w.job
    case WakeJob(o, t, _) =>
      WakeHolds(w, o, t);
    case WakeNoRuntime(_) =>
      var quiet := WorkerGuarantee(w);
      assert w.pc == 0 ==> Past(w) == [];
    case CheckJob(_, _, _, _) => AnsweredReleased(w);
    case CheckNoRuntime(_) => AnsweredReleased(w);
  }

  lemma WakeHolds(w: Worker, o: Outcome, t: WakeTarget)
    requires w.job.WakeJob? && w.job.outcome == o && w.job.target == t && w.pc <= End(w.job) && AnyTerminal(Sent(w))
    ensures HoldsTunnel(w) <==> Awake in Sent(w) && w.pc < End(w.job)
  {
    var quiet := PrefixGuarantee(o, t, Past(w));
    if w.pc == End(w.job) {
      TunnelReleased(o, t);
    } else if o.Reached? {
      AwakeHolds(o, t, Past(w));
      assert Sent(w) != quiet;
    } else {
      assert Sent(w) == quiet + [FinalState(o, t)];
      assert FinalState(o, t) != Awake;
    }
  }

  lemma OlderIsRetired(s: System, i: nat)
    requires Inv(s) && i + 1 < |s.workers|
    ensures WorkerOk(s.workers[i]) && Retired(s.workers[i])
  {
    hide Events, Past, Sent, AnyTerminal, RecordsOk;
    assert WorkerOk(s.workers[i]) && (Outstanding(s.ui, i) || Retired(s.workers[i]));
  }

  /** Before its connect has completed a worker is not retired. */
  lemma ConnectComesFirst(w: Worker)
    requires Connects(w) && !w.crashed
    ensures !Retired(w)
  {
    match w.job
    case WakeJob(o, t, _) =>
      ConnectIsSecond(o, t);
      assert Past(w) == [Report(WakeState.Connecting)];
      SingleProjections(Report(WakeState.Connecting));
    case WakeNoRuntime(_) =>
    case CheckJob(_, _, _, _) =>
    case CheckNoRuntime(_) =>
  }

  predicate NoConnect(es: seq<Event>) { forall i :: 0 <= i < |es| ==> !es[i].Connect? }

  lemma OnlySecondConnects(first: Event, stages: seq<Event>, waits: seq<Event>, closing: seq<Event>)
    requires !first.Connect? && stages != [] && NoConnect(stages[1..]) && NoConnect(waits) && NoConnect(closing)
    ensures var es := [first] + (stages + waits) + closing;
      es[0] == first && forall k :: 0 <= k < |es| && k != 1 ==> !es[k].Connect?
  {
    var es, later := [first] + (stages + waits) + closing, stages[1..] + waits + closing;
    assert es == [first, stages[0]] + later;
    assert NoConnect(later);
  }

  /** `connect` is called once, right after the first report. */
  lemma ConnectIsSecond(o: Outcome, target: WakeTarget)
    ensures var es := TraceOf(o, target);
      |es| > 2 && es[0] == Report(WakeState.Connecting) && forall k :: 0 <= k < |es| && k != 1 ==> !es[k].Connect?
  {
    var stages := Stages(o, target.mac);
    var waits := if ProbesOf(o) > 0 then Waits(o.address, ProbesOf(o)) else [];
    if ProbesOf(o) > 0 {
      NoConnectInWaits(o.address, ProbesOf(o));
    }
    assert stages != [] && NoConnect(stages[1..]) && NoConnect(Closing(o, target)) && |Closing(o, target)| == 2;
    assert Body(o, target.mac) == stages + waits;
    hide Stages, Waits, Closing, NoConnect, Body;
    OnlySecondConnects(Report(WakeState.Connecting), stages, waits, Closing(o, target));
  }

  lemma {:induction false} NoConnectInWaits(address: Ipv4, n: nat)
    ensures NoConnect(Waits(address, n))
  {
    if n > 0 {
      NoConnectInWaits(address, n - 1);
    }
  }

  /** A check worker answers after its disconnect. */
  lemma AnsweredReleased(w: Worker)
    requires Answered(w)
    ensures !HoldsTunnel(w)
  {
    assert Past(w) == Events(w.job);
  }

  /** The result of a finished attempt stays on display, with its deadline, until one of two things:
      a frame at or after the deadline, which makes the state Idle, or, for a failure only, a click
      that begins a new attempt. */
  lemma TerminalStays(steps: seq<Step>, step: Step)
    requires Run(steps).phase.Between? && (Run(steps).ui.state.Awake? || Run(steps).ui.state.Failed?)
    ensures var ui, s' := Run(steps).ui, Apply(Run(steps), step);
      && ui.terminalDeadline.Some?
      && if step.ExpireTerminalState? && step.now >= ui.terminalDeadline.value then s'.ui.state.Idle?
         else if step.ClickWake? && s'.begun != Run(steps).begun then ui.state.Failed? && s'.begun[..|s'.begun| - 1] == Run(steps).begun
         else s'.ui.state == ui.state && s'.ui.terminalDeadline == ui.terminalDeadline && s'.phase.Between?
  {
    RunKeepsInv(steps);
    UiAgrees(steps);
    hide Run, Events, Past, Sent, Retired, WorkerOk, AnyTerminal, RecordOk, RecordsOk, WorkersOk;
  }

  /** A success is on display, between drains, and no attempt has begun after `begun`. */
  predicate StillAwake(s: System, begun: seq<Begun>) {
    s.phase.Between? && s.ui.state.Awake? && s.begun == begun
  }

  /** While a success is on display only its expiry changes the state, and no attempt begins. */
  lemma AwakeStep(steps: seq<Step>, step: Step)
    requires StillAwake(Run(steps), Run(steps).begun)
    ensures var s, s' := Run(steps), Apply(Run(steps), step);
      s'.phase.Between? && (s'.ui.state.Awake? || s'.ui.state.Idle?) && s'.begun == s.begun
  {
    RunKeepsInv(steps);
    UiAgrees(steps);
  }

  /** The run goes on after `steps` for `n` of the steps `more` with the success on display. */
  predicate AwakeFor(steps: seq<Step>, more: seq<Step>, n: nat) {
    n <= |more| && forall k :: 0 <= k <= n ==> StillAwake(Run(steps + more[..k]), Run(steps).begun)
  }

  /** The step after those makes the state Idle, and nothing has begun. */
  predicate IdleAfter(steps: seq<Step>, more: seq<Step>, n: nat)
    requires n < |more|
  {
    var s := Run(steps + more[..n + 1]);
    s.phase.Between? && s.ui.state.Idle? && s.begun == Run(steps).begun
  }

  lemma RunSnoc(steps: seq<Step>, step: Step)
    ensures Run(steps + [step]) == Apply(Run(steps), step)
  {
    assert (steps + [step])[..|steps|] == steps;
  }

  lemma Prefixes<T>(more: seq<T>, last: T)
    ensures forall k :: 0 <= k <= |more| ==> (more + [last])[..k] == more[..k]
    ensures (more + [last])[..|more| + 1] == more + [last]
  {}

  lemma AwakeLonger(steps: seq<Step>, more: seq<Step>, step: Step)
    requires AwakeFor(steps, more, |more|)
    ensures AwakeFor(steps, more + [step], |more| + 1) || IdleAfter(steps, more + [step], |more|)
    ensures AwakeFor(steps, more + [step], |more|)
  {
    hide Run, Apply;
    var before := steps + more;
    assert more[..|more|] == more;
    assert StillAwake(Run(before), Run(steps).begun);
    RunSnoc(before, step);
    AwakeStep(before, step);
    assert steps + (more + [step]) == before + [step];
    Prefixes(more, step);
  }

  /** Awake is always followed by Idle before any new attempt: however a run goes on from a
      success, either it is on display to the end and nothing has begun, or it is on display
      for `n` steps and the next one makes the state Idle, with nothing begun yet. */
  lemma {:induction false} AwakeThenIdle(steps: seq<Step>, more: seq<Step>) returns (n: nat)
    requires Run(steps).phase.Between? && Run(steps).ui.state.Awake?
    ensures AwakeFor(steps, more, n) && (n < |more| ==> IdleAfter(steps, more, n))
  {
    if more == [] {
      n := 0;
      assert steps + more[..0] == steps;
    } else {
      var m := |more| - 1;
      var init := more[..m];
      n := AwakeThenIdle(steps, init);
      assert more == init + [more[m]];
      Prefixes(init, more[m]);
      hide Run, StillAwake;
      if n == m {
        AwakeLonger(steps, init, more[m]);
        if AwakeFor(steps, more, |more|) {
          n := |more|;
        }
      }
    }
  }
}
