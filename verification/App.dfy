/** The wake machine of the user interface: the fields of `WakerApp` it uses, as a value and
    as the object whose methods update them. */
module App {
  import opened Basics
  import opened WakeCore

  const DISPLAY_DURATION: nat := 5 * SECOND

  datatype ActiveAttempt = ActiveAttempt(id: nat, started: nat)

  datatype AttemptSummary = AttemptSummary(elapsed: nat, failure: Option<WakeFailure>)

  type CheckResult = Result<bool, string>

  /** One diagnostic button: its pending worker, its latest result and how long that shows. */
  datatype Check = Check(rx: Option<nat>, result: Option<CheckResult>, deadline: Option<nat>)

  /** A receiver is named after the worker that holds the sending end. */
  datatype Ui = Ui(
    state: WakeState,
    stateRx: Option<nat>,
    busy: bool,
    active: Option<ActiveAttempt>,
    last: Option<AttemptSummary>,
    terminalDeadline: Option<nat>,
    status: Check,
    ping: Check,
    confettiPending: bool)

  const NEW_UI := Ui(Idle, None, false, None, None, None, Check(None, None, None), Check(None, None, None), false)

  /** How a click ends: the configuration is rejected, the thread cannot be created, or a
      worker starts. */
  datatype Launch = Rejected(message: string) | NoThread(error: string) | Spawned(worker: nat)

  datatype TryRecv<T> = Received(value: T) | Empty | Disconnected

  const VANISHED := WakeFailure(Runtime, "wake worker stopped without reporting a terminal result")

  function FailureIn(state: WakeState): Option<WakeFailure> {
    if state.Failed? then Some(state.failure) else None
  }

  predicate WakeEnabled(ui: Ui) {
    !ui.busy && !ui.state.Awake? && ui.status.rx.None? && ui.ping.rx.None?
  }

  predicate DiagnosticEnabled(ui: Ui) {
    !ui.busy && ui.status.rx.None? && ui.ping.rx.None?
  }

  // ---------------------------------------------------------------------------------------
  // Each operation as a function on values
  // ---------------------------------------------------------------------------------------

  function Finished(ui: Ui, now: nat): Ui {
    if ui.active.None? then ui
    else
      ui.(active := None,
          last := Some(AttemptSummary(Max(now - ui.active.value.started, 0), FailureIn(ui.state))),
          confettiPending := ui.confettiPending || ui.state.Awake?,
          terminalDeadline := if IsTerminal(ui.state) then Some(now + DISPLAY_DURATION) else ui.terminalDeadline)
  }

  function WakeBegun(ui: Ui, id: nat, now: nat, launch: Launch, later: nat): Ui {
    var begun := ui.(terminalDeadline := None, active := Some(ActiveAttempt(id, now)));
    match launch
    case Spawned(w) => begun.(stateRx := Some(w), state := WakeState.Connecting, busy := true)
    case NoThread(e) =>
      var failure := WakeFailure(Runtime, "could not create worker thread: " + e);
      Finished(begun.(state := Failed(failure), stateRx := None, busy := false), later)
    case Rejected(m) =>
      Finished(begun.(state := Failed(WakeFailure(Configuration, m)), busy := false), later)
  }

  function StartCheck(check: Check, launch: Launch, now: nat): Check {
    match launch
    case Spawned(w) => Check(Some(w), None, None)
    case NoThread(e) =>
      Check(None, Some(Failure("Could not create worker thread: " + e)), Some(now + DISPLAY_DURATION))
    case Rejected(m) => check.(result := Some(Failure(m)), deadline := Some(now + DISPLAY_DURATION))
  }

  function StatusBegun(ui: Ui, launch: Launch, now: nat): Ui {
    if DiagnosticEnabled(ui) then ui.(status := StartCheck(ui.status, launch, now)) else ui
  }

  function PingBegun(ui: Ui, launch: Launch, now: nat): Ui {
    if DiagnosticEnabled(ui) then ui.(ping := StartCheck(ui.ping, launch, now)) else ui
  }

  /** What happens when the drain loop finds the channel empty or disconnected; `terminal`
      says whether it has seen a terminal state. */
  function EndDrain(ui: Ui, terminal: bool, disconnected: bool, now: nat): Ui {
    var lost := disconnected && ui.busy && !terminal;
    var heard := if lost then ui.(state := Failed(VANISHED)) else ui;
    if terminal || lost then Finished(heard.(busy := false, stateRx := None), now) else heard
  }

  /** The whole drain of a channel holding `queue`. */
  function Drain(ui: Ui, queue: seq<WakeState>, connected: bool, now: nat): Ui {
    if ui.stateRx.None? then ui
    else
      EndDrain(if queue == [] then ui else ui.(state := queue[|queue| - 1]), AnyTerminal(queue), !connected, now)
  }

  function DrainCheck(check: Check, received: TryRecv<CheckResult>, silence: string, now: nat): Check {
    if check.rx.None? || received.Empty? then check
    else
      var result := if received.Received? then received.value else Failure(silence);
      Check(None, Some(result), Some(now + DISPLAY_DURATION))
  }

  const STATUS_SILENCE := "Host status worker stopped without reporting a result"
  const PING_SILENCE := "Ping worker stopped without reporting a result"

  /** The new fields, and the time left to show a terminal state. */
  function ExpireTerminal(ui: Ui, now: nat): (Ui, Option<nat>) {
    if ui.terminalDeadline.None? then (ui, None)
    else if !IsTerminal(ui.state) then (ui.(terminalDeadline := None), None)
    else if now >= ui.terminalDeadline.value then (ui.(state := Idle, terminalDeadline := None), None)
    else (ui, Some(ui.terminalDeadline.value - now))
  }

  function ExpireCheck(check: Check, now: nat): Check {
    if check.deadline.Some? && now >= check.deadline.value then check.(deadline := None) else check
  }

  function Remaining(check: Check, now: nat): Option<nat> {
    if check.deadline.Some? && now < check.deadline.value then Some(check.deadline.value - now) else None
  }

  function Earlier(x: Option<nat>, y: Option<nat>): Option<nat> {
    match (x, y)
    case (Some(a), Some(b)) => Some(Min(a, b))
    case (Some(_), None) => x
    case (None, _) => y
  }

  // ---------------------------------------------------------------------------------------
  // The object
  // ---------------------------------------------------------------------------------------

  class Receiver<T> {
    const worker: nat
    var queue: seq<T>
    var connected: bool

    constructor (worker: nat, queue: seq<T>, connected: bool)
      ensures this.worker == worker && this.queue == queue && this.connected == connected
    {
      this.worker, this.queue, this.connected := worker, queue, connected;
    }

    method TryRecv() returns (r: TryRecv<T>)
      modifies this`queue
      ensures old(queue) != [] ==> r == Received(old(queue)[0]) && queue == old(queue)[1..]
      ensures old(queue) == [] ==> queue == [] && r == if connected then Empty else Disconnected
    {
      if queue != [] {
        r := Received(queue[0]);
        queue := queue[1..];
      } else {
        r := if connected then Empty else Disconnected;
      }
    }
  }

  class WakerApp {
    var state: WakeState
    var stateRx: Receiver?<WakeState>
    var busy: bool
    var activeAttempt: Option<ActiveAttempt>
    var lastAttempt: Option<AttemptSummary>
    var terminalStateDeadline: Option<nat>
    var statusCheckRx: Receiver?<CheckResult>
    var hostStatus: Option<CheckResult>
    var hostStatusDeadline: Option<nat>
    var pingCheckRx: Receiver?<CheckResult>
    var pingStatus: Option<CheckResult>
    var pingStatusDeadline: Option<nat>
    var confettiPending: bool

    function Status(): Check
      reads this
    {
      Check(if statusCheckRx == null then None else Some(statusCheckRx.worker), hostStatus, hostStatusDeadline)
    }

    function Ping(): Check
      reads this
    {
      Check(if pingCheckRx == null then None else Some(pingCheckRx.worker), pingStatus, pingStatusDeadline)
    }

    function View(): Ui
      reads this
    {
      Ui(state, if stateRx == null then None else Some(stateRx.worker), busy, activeAttempt, lastAttempt,
         terminalStateDeadline, Status(), Ping(), confettiPending)
    }

    constructor ()
      ensures View() == NEW_UI
    {
      state, stateRx, busy := Idle, null, false;
      activeAttempt, lastAttempt, terminalStateDeadline := None, None, None;
      statusCheckRx, hostStatus, hostStatusDeadline := null, None, None;
      pingCheckRx, pingStatus, pingStatusDeadline := null, None, None;
      confettiPending := false;
    }

    method FinishAttempt(now: nat)
      modifies this
      ensures stateRx == old(stateRx) && statusCheckRx == old(statusCheckRx) && pingCheckRx == old(pingCheckRx)
      ensures View() == Finished(old(View()), now)
      ensures activeAttempt.None? && View().(active := old(activeAttempt), last := old(lastAttempt),
                terminalDeadline := old(terminalStateDeadline), confettiPending := old(confettiPending)) == old(View())
      ensures old(activeAttempt.Some? && (state.Awake? || state.Failed?)) ==>
                && terminalStateDeadline == Some(now + 5_000_000_000)
                && (lastAttempt.Some? && (lastAttempt.value.failure.None? <==> state.Awake?))
      ensures old(activeAttempt).Some? ==>
                && lastAttempt == Some(AttemptSummary(Max(now - old(activeAttempt).value.started, 0),
                                                      if state.Failed? then Some(state.failure) else None))
                && confettiPending == (old(confettiPending) || state == Awake)
    {
      if activeAttempt.None? {
        return;
      }
      lastAttempt := Some(AttemptSummary(Max(now - activeAttempt.value.started, 0), FailureIn(state)));
      activeAttempt := None;
      if state.Awake? {
        confettiPending := true;
      }
      if IsTerminal(state) {
        terminalStateDeadline := Some(now + DISPLAY_DURATION);
      }
    }

    // `job` is the outcome of reading the configuration, `spawned` that of creating the thread.
    method BeginWake(id: nat, now: nat, job: Result<(), string>, rx: Receiver<WakeState>, spawned: Result<(), string>,
                     later: nat)
      modifies this
      ensures statusCheckRx == old(statusCheckRx) && pingCheckRx == old(pingCheckRx)
      ensures View() == WakeBegun(old(View()), id, now,
                          if job.Failure? then Rejected(job.error)
                          else if spawned.Failure? then NoThread(spawned.error)
                          else Spawned(rx.worker), later)
      ensures busy == activeAttempt.Some? == (job.Success? && spawned.Success?)
      ensures terminalStateDeadline.Some? == IsTerminal(state) == !busy
      ensures job.Success? && spawned.Success? ==>
                state == WakeState.Connecting && stateRx == rx && activeAttempt == Some(ActiveAttempt(id, now))
      ensures job.Success? && spawned.Failure? ==>
                stateRx == null && state == Failed(WakeFailure(Runtime, "could not create worker thread: " + spawned.error))
      ensures job.Failure? ==> state == Failed(WakeFailure(Configuration, job.error))
      ensures state.Failed? ==>
                && lastAttempt == Some(AttemptSummary(Max(later - now, 0), Some(state.failure)))
                && terminalStateDeadline == Some(later + 5_000_000_000)
    {
      terminalStateDeadline := None;
      activeAttempt := Some(ActiveAttempt(id, now));
      if job.Success? {
        stateRx := rx;
        state := WakeState.Connecting;
        busy := true;
        if spawned.Failure? {
          state := Failed(WakeFailure(Runtime, "could not create worker thread: " + spawned.error));
          stateRx := null;
          busy := false;
          FinishAttempt(later);
        }
      } else {
        state := Failed(WakeFailure(Configuration, job.error));
        busy := false;
        FinishAttempt(later);
      }
    }

    // The result lists the delays after which a repaint is requested.
    method BeginHostStatusCheck(job: Result<(), string>, rx: Receiver<CheckResult>, spawned: Result<(), string>,
                                now: nat)
      returns (repaints: seq<nat>)
      modifies this
      ensures stateRx == old(stateRx) && pingCheckRx == old(pingCheckRx)
      ensures View() == StatusBegun(old(View()),
                          if job.Failure? then Rejected(job.error)
                          else if spawned.Failure? then NoThread(spawned.error)
                          else Spawned(rx.worker), now)
      ensures repaints == if old(DiagnosticEnabled(View())) && (job.Failure? || spawned.Failure?)
                          then [DISPLAY_DURATION] else []
      ensures old(busy || statusCheckRx != null || pingCheckRx != null) ==> View() == old(View())
      ensures old(!busy && statusCheckRx == null && pingCheckRx == null) ==>
                if job.Failure? then
                  statusCheckRx == null && hostStatus == Some(Failure(job.error)) && hostStatusDeadline == Some(now + 5_000_000_000)
                else if spawned.Failure? then
                  && statusCheckRx == null && hostStatus == Some(Failure("Could not create worker thread: " + spawned.error))
                  && hostStatusDeadline == Some(now + 5_000_000_000)
                else statusCheckRx == rx && hostStatus == None && hostStatusDeadline == None
    {
      repaints := [];
      if busy || statusCheckRx != null || pingCheckRx != null {
        return;
      }
      hostStatusDeadline := None;
      if job.Success? {
        statusCheckRx := rx;
        hostStatus := None;
        if spawned.Failure? {
          statusCheckRx := null;
          hostStatus := Some(Failure("Could not create worker thread: " + spawned.error));
          hostStatusDeadline := Some(now + DISPLAY_DURATION);
          repaints := [DISPLAY_DURATION];
        }
      } else {
        hostStatus := Some(Failure(job.error));
        hostStatusDeadline := Some(now + DISPLAY_DURATION);
        repaints := [DISPLAY_DURATION];
      }
    }

    method BeginPingCheck(job: Result<(), string>, rx: Receiver<CheckResult>, spawned: Result<(), string>, now: nat)
      returns (repaints: seq<nat>)
      modifies this
      ensures stateRx == old(stateRx) && statusCheckRx == old(statusCheckRx)
      ensures View() == PingBegun(old(View()),
                          if job.Failure? then Rejected(job.error)
                          else if spawned.Failure? then NoThread(spawned.error)
                          else Spawned(rx.worker), now)
      ensures repaints == if old(DiagnosticEnabled(View())) && (job.Failure? || spawned.Failure?)
                          then [DISPLAY_DURATION] else []
      ensures old(busy || statusCheckRx != null || pingCheckRx != null) ==> View() == old(View())
      ensures old(!busy && statusCheckRx == null && pingCheckRx == null) ==>
                if job.Failure? then
                  pingCheckRx == null && pingStatus == Some(Failure(job.error)) && pingStatusDeadline == Some(now + 5_000_000_000)
                else if spawned.Failure? then
                  && pingCheckRx == null && pingStatus == Some(Failure("Could not create worker thread: " + spawned.error))
                  && pingStatusDeadline == Some(now + 5_000_000_000)
                else pingCheckRx == rx && pingStatus == None && pingStatusDeadline == None
    {
      repaints := [];
      if busy || statusCheckRx != null || pingCheckRx != null {
        return;
      }
      pingStatusDeadline := None;
      if job.Success? {
        pingCheckRx := rx;
        pingStatus := None;
        if spawned.Failure? {
          pingCheckRx := null;
          pingStatus := Some(Failure("Could not create worker thread: " + spawned.error));
          pingStatusDeadline := Some(now + DISPLAY_DURATION);
          repaints := [DISPLAY_DURATION];
        }
      } else {
        pingStatus := Some(Failure(job.error));
        pingStatusDeadline := Some(now + DISPLAY_DURATION);
        repaints := [DISPLAY_DURATION];
      }
    }

    method DrainStateUpdates(now: nat)
      modifies this, if stateRx == null then {} else {stateRx}
      ensures statusCheckRx == old(statusCheckRx) && pingCheckRx == old(pingCheckRx)
      ensures View() == if old(stateRx) == null then old(View())
                        else Drain(old(View()), old(stateRx.queue), old(stateRx.connected), now)
      ensures old(stateRx) != null ==> old(stateRx).queue == []
      ensures old(stateRx) != null && AnyTerminal(old(stateRx.queue)) ==>
                !busy && stateRx == null && activeAttempt == None && state == old(stateRx.queue)[|old(stateRx.queue)| - 1]
      ensures old(stateRx) != null && !AnyTerminal(old(stateRx.queue)) && old(busy) && !old(stateRx.connected) ==>
                && !busy && stateRx == null && activeAttempt == None
                && state == Failed(WakeFailure(Runtime, "wake worker stopped without reporting a terminal result"))
      ensures old(stateRx) != null && !AnyTerminal(old(stateRx.queue)) && (!old(busy) || old(stateRx.connected)) ==>
                && busy == old(busy) && stateRx == old(stateRx) && activeAttempt == old(activeAttempt)
                && state == if old(stateRx.queue) == [] then old(state) else old(stateRx.queue)[|old(stateRx.queue)| - 1]
    {
      var receiver := stateRx;
      if receiver == null {
        return;
      }
      ghost var queue := receiver.queue;
      ghost var taken := 0;
      var terminal := false;
      while true
        invariant stateRx == receiver && receiver.connected == old(stateRx.connected)
        invariant statusCheckRx == old(statusCheckRx) && pingCheckRx == old(pingCheckRx)
        invariant taken <= |queue| && receiver.queue == queue[taken..]
        invariant View() == old(View()).(state := if taken == 0 then old(state) else queue[taken - 1])
        invariant terminal == AnyTerminal(queue[..taken])
        decreases |queue| - taken, !terminal
      {
        var update := receiver.TryRecv();
        match update
        case Received(s) =>
          assert queue[..taken + 1] == queue[..taken] + [s];
          taken := taken + 1;
          terminal := terminal || IsTerminal(s);
          state := s;
        case Empty =>
          break;
        case Disconnected =>
          if busy && !terminal {
            state := Failed(VANISHED);
            terminal := true;
          }
          break;
      }
      assert queue[..|queue|] == queue;
      if terminal {
        busy := false;
        stateRx := null;
        FinishAttempt(now);
      }
    }

    method DrainHostStatusUpdate(now: nat)
      modifies this, if statusCheckRx == null then {} else {statusCheckRx}
      ensures stateRx == old(stateRx) && pingCheckRx == old(pingCheckRx)
      ensures old(statusCheckRx) == null ==> View() == old(View())
      ensures old(statusCheckRx) != null ==>
                View() == old(View()).(status := DrainCheck(old(Status()), FirstOf(old(statusCheckRx.queue),
                                                   old(statusCheckRx.connected)), STATUS_SILENCE, now))
      ensures old(statusCheckRx) != null && old(statusCheckRx.queue) != [] ==>
                statusCheckRx == null && hostStatus == Some(old(statusCheckRx.queue)[0]) && hostStatusDeadline == Some(now + 5_000_000_000)
      ensures old(statusCheckRx) != null && old(statusCheckRx.queue) == [] && !old(statusCheckRx.connected) ==>
                && statusCheckRx == null && hostStatus == Some(Failure("Host status worker stopped without reporting a result"))
                && hostStatusDeadline == Some(now + 5_000_000_000)
      ensures old(statusCheckRx) == null || (old(statusCheckRx.queue) == [] && old(statusCheckRx.connected)) ==>
                statusCheckRx == old(statusCheckRx) && View() == old(View())
    {
      if statusCheckRx == null {
        return;
      }
      var update := statusCheckRx.TryRecv();
      if update.Empty? {
        return;
      }
      hostStatus := Some(if update.Received? then update.value else Failure(STATUS_SILENCE));
      hostStatusDeadline := Some(now + DISPLAY_DURATION);
      statusCheckRx := null;
    }

    method DrainPingUpdate(now: nat)
      modifies this, if pingCheckRx == null then {} else {pingCheckRx}
      ensures stateRx == old(stateRx) && statusCheckRx == old(statusCheckRx)
      ensures old(pingCheckRx) == null ==> View() == old(View())
      ensures old(pingCheckRx) != null ==>
                View() == old(View()).(ping := DrainCheck(old(Ping()), FirstOf(old(pingCheckRx.queue),
                                                 old(pingCheckRx.connected)), PING_SILENCE, now))
      ensures old(pingCheckRx) != null && old(pingCheckRx.queue) != [] ==>
                pingCheckRx == null && pingStatus == Some(old(pingCheckRx.queue)[0]) && pingStatusDeadline == Some(now + 5_000_000_000)
      ensures old(pingCheckRx) != null && old(pingCheckRx.queue) == [] && !old(pingCheckRx.connected) ==>
                && pingCheckRx == null && pingStatus == Some(Failure("Ping worker stopped without reporting a result"))
                && pingStatusDeadline == Some(now + 5_000_000_000)
      ensures old(pingCheckRx) == null || (old(pingCheckRx.queue) == [] && old(pingCheckRx.connected)) ==>
                pingCheckRx == old(pingCheckRx) && View() == old(View())
    {
      if pingCheckRx == null {
        return;
      }
      var update := pingCheckRx.TryRecv();
      if update.Empty? {
        return;
      }
      pingStatus := Some(if update.Received? then update.value else Failure(PING_SILENCE));
      pingStatusDeadline := Some(now + DISPLAY_DURATION);
      pingCheckRx := null;
    }

    method UpdateTerminalStateTimeout(now: nat) returns (remaining: Option<nat>)
      modifies this
      ensures stateRx == old(stateRx) && statusCheckRx == old(statusCheckRx) && pingCheckRx == old(pingCheckRx)
      ensures (View(), remaining) == ExpireTerminal(old(View()), now)
      ensures old(terminalStateDeadline.Some? && (state.Awake? || state.Failed?)) ==>
                if now < old(terminalStateDeadline).value
                then View() == old(View()) && remaining == Some(old(terminalStateDeadline).value - now)
                else state == Idle && terminalStateDeadline == None && remaining == None
      ensures old(terminalStateDeadline.None? || !(state.Awake? || state.Failed?)) ==>
                state == old(state) && terminalStateDeadline == None && remaining == None
    {
      if terminalStateDeadline.None? {
        return None;
      }
      var deadline := terminalStateDeadline.value;
      if !IsTerminal(state) {
        terminalStateDeadline := None;
        return None;
      }
      if now >= deadline {
        state := Idle;
        terminalStateDeadline := None;
        remaining := None;
      } else {
        remaining := Some(deadline - now);
      }
    }

    // The least remaining time of the two results on display; an expired deadline is cleared
    // and its result kept.
    method UpdateDiagnosticResultTimeouts(now: nat) returns (next: Option<nat>)
      modifies this
      ensures stateRx == old(stateRx) && statusCheckRx == old(statusCheckRx) && pingCheckRx == old(pingCheckRx)
      ensures View() == old(View()).(status := ExpireCheck(old(Status()), now), ping := ExpireCheck(old(Ping()), now))
      ensures next == Earlier(Remaining(old(Status()), now), Remaining(old(Ping()), now))
      ensures next.Some? <==> Status().deadline.Some? || Ping().deadline.Some?
      ensures next.Some? ==> forall d: nat :: (Status().deadline == Some(d) || Ping().deadline == Some(d)) ==> now + next.value <= d
      ensures next.Some? ==> Status().deadline == Some(now + next.value) || Ping().deadline == Some(now + next.value)
      ensures hostStatus == old(hostStatus) && pingStatus == old(pingStatus)
      ensures hostStatusDeadline == if old(hostStatusDeadline).Some? && now >= old(hostStatusDeadline).value then None
                                    else old(hostStatusDeadline)
      ensures pingStatusDeadline == if old(pingStatusDeadline).Some? && now >= old(pingStatusDeadline).value then None
                                    else old(pingStatusDeadline)
    {
      next := None;
      if hostStatusDeadline.Some? {
        if now >= hostStatusDeadline.value {
          hostStatusDeadline := None;
        } else {
          next := Some(hostStatusDeadline.value - now);
        }
      }
      if pingStatusDeadline.Some? {
        if now >= pingStatusDeadline.value {
          pingStatusDeadline := None;
        } else {
          var remaining := pingStatusDeadline.value - now;
          next := Some(if next.Some? then Min(next.value, remaining) else remaining);
        }
      }
    }
  }

  function FirstOf<T>(queue: seq<T>, connected: bool): TryRecv<T> {
    if queue != [] then Received(queue[0]) else if connected then Empty else Disconnected
  }
}
