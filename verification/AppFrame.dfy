/** One frame of the user interface, and whether the repaints it requests are enough to take
    expired results off the display. */
module AppFrame {
  import opened Basics
  import opened WakeCore
  import opened App

  /** A click on the wake button: the attempt id, when it was read, how the launch ended and
      when that was known. */
  datatype WakeClick = WakeClick(id: nat, now: nat, launch: Launch, later: nat)

  datatype CheckClick = CheckClick(launch: Launch, now: nat)

  /** What one frame meets: the channels, the clock readings and the clicks. */
  datatype FrameInput = FrameInput(
    queue: seq<WakeState>, connected: bool,
    status: TryRecv<CheckResult>, ping: TryRecv<CheckResult>,
    drained: nat, statusDrained: nat, pingDrained: nat, terminalNow: nat, resultsNow: nat,
    wakeClick: Option<WakeClick>, statusClick: Option<CheckClick>, pingClick: Option<CheckClick>)

  /** The drains and the timers, in the order of `show_ui`, with the repaint instants asked for. */
  function Refreshed(ui: Ui, f: FrameInput): (Ui, seq<nat>) {
    var heard := Drain(ui, f.queue, f.connected, f.drained);
    var checked := heard.(status := DrainCheck(heard.status, f.status, STATUS_SILENCE, f.statusDrained),
                          ping := DrainCheck(heard.ping, f.ping, PING_SILENCE, f.pingDrained));
    var (timed, left) := ExpireTerminal(checked, f.terminalNow);
    var next := Earlier(Remaining(timed.status, f.resultsNow), Remaining(timed.ping, f.resultsNow));
    (timed.(status := ExpireCheck(timed.status, f.resultsNow), ping := ExpireCheck(timed.ping, f.resultsNow)),
     (if left.Some? then [f.terminalNow + left.value] else [])
     + (if next.Some? then [f.resultsNow + next.value] else []))
  }

  predicate WakeClicked(ui: Ui, f: FrameInput) {
    f.wakeClick.Some? && WakeEnabled(ui)
  }

  function AfterWakeClick(ui: Ui, f: FrameInput): Ui {
    if WakeClicked(ui, f)
    then WakeBegun(ui, f.wakeClick.value.id, f.wakeClick.value.now, f.wakeClick.value.launch, f.wakeClick.value.later)
    else ui
  }

  /** A rejected or failed check asks for a repaint when its message expires. */
  function CheckRepaint(ui: Ui, click: Option<CheckClick>): seq<nat> {
    if click.Some? && DiagnosticEnabled(ui) && !click.value.launch.Spawned? then [click.value.now + DISPLAY_DURATION]
    else []
  }

  function AfterStatusClick(ui: Ui, click: Option<CheckClick>): Ui {
    if click.Some? then StatusBegun(ui, click.value.launch, click.value.now) else ui
  }

  function AfterPingClick(ui: Ui, click: Option<CheckClick>): Ui {
    if click.Some? then PingBegun(ui, click.value.launch, click.value.now) else ui
  }

  function Clicks(ui: Ui, f: FrameInput): (Ui, seq<nat>) {
    var woken := AfterWakeClick(ui, f);
    var asked := AfterStatusClick(woken, f.statusClick);
    (AfterPingClick(asked, f.pingClick), CheckRepaint(woken, f.statusClick) + CheckRepaint(asked, f.pingClick))
  }

  function Frame(ui: Ui, f: FrameInput): (Ui, seq<nat>) {
    var (current, repaints) := Refreshed(ui, f);
    var (after, more) := Clicks(current, f);
    (after, repaints + more)
  }

  /** The channels are as the frame meets them. */
  ghost predicate Meets(app: WakerApp, f: FrameInput)
    reads app, if app.stateRx == null then {} else {app.stateRx}
    reads if app.statusCheckRx == null then {} else {app.statusCheckRx}
    reads if app.pingCheckRx == null then {} else {app.pingCheckRx}
  {
    && (app.stateRx != null ==> f.queue == app.stateRx.queue && f.connected == app.stateRx.connected)
    && (app.statusCheckRx != null ==> f.status == FirstOf(app.statusCheckRx.queue, app.statusCheckRx.connected))
    && (app.pingCheckRx != null ==> f.ping == FirstOf(app.pingCheckRx.queue, app.pingCheckRx.connected))
    && (app.statusCheckRx != null ==> app.statusCheckRx != app.pingCheckRx)
    && (app.stateRx != null ==>
          app.stateRx as object != app.statusCheckRx as object? && app.stateRx as object != app.pingCheckRx as object?)
  }

  function JobOf(launch: Launch): Result<(), string> {
    if launch.Rejected? then Failure(launch.message) else Success(())
  }

  function SpawnOf(launch: Launch): Result<(), string> {
    if launch.NoThread? then Failure(launch.error) else Success(())
  }

  function WorkerOf(launch: Launch): nat { if launch.Spawned? then launch.worker else 0 }

  /** The three drains of `show_ui`. */
  method DrainAll(app: WakerApp, f: FrameInput)
    requires Meets(app, f)
    modifies app, if app.stateRx == null then {} else {app.stateRx}
    modifies if app.statusCheckRx == null then {} else {app.statusCheckRx}
    modifies if app.pingCheckRx == null then {} else {app.pingCheckRx}
    ensures var heard := Drain(old(app.View()), f.queue, f.connected, f.drained);
      app.View() == heard.(status := DrainCheck(heard.status, f.status, STATUS_SILENCE, f.statusDrained),
                           ping := DrainCheck(heard.ping, f.ping, PING_SILENCE, f.pingDrained))
    ensures old(app.statusCheckRx) != null && f.status.Received? ==> app.View().status.result == Some(f.status.value)
    ensures old(app.pingCheckRx) != null && f.ping.Received? ==> app.View().ping.result == Some(f.ping.value)
    ensures old(app.stateRx) != null && f.queue != [] && (f.connected || AnyTerminal(f.queue)) ==>
              app.View().state == f.queue[|f.queue| - 1]
  {
    ghost var ui := app.View();
    ghost var heard := Drain(ui, f.queue, f.connected, f.drained);
    assert ui.stateRx.None? ==> heard == ui;
    hide EndDrain, AnyTerminal, Drain;
    app.DrainStateUpdates(f.drained);
    app.DrainHostStatusUpdate(f.statusDrained);
    assert app.View() == heard.(status := DrainCheck(heard.status, f.status, STATUS_SILENCE, f.statusDrained));
    app.DrainPingUpdate(f.pingDrained);
  }

  /** The two timers, and the instants of the repaints asked for. */
  method Timers(app: WakerApp, f: FrameInput) returns (repaints: seq<nat>)
    modifies app
    ensures var (timed, left) := ExpireTerminal(old(app.View()), f.terminalNow);
      var next := Earlier(Remaining(timed.status, f.resultsNow), Remaining(timed.ping, f.resultsNow));
      && app.View() == timed.(status := ExpireCheck(timed.status, f.resultsNow), ping := ExpireCheck(timed.ping, f.resultsNow))
      && repaints == (if left.Some? then [f.terminalNow + left.value] else [])
                     + (if next.Some? then [f.resultsNow + next.value] else [])
  {
    hide ExpireTerminal, ExpireCheck, Remaining, Earlier;
    repaints := [];
    var remaining := app.UpdateTerminalStateTimeout(f.terminalNow);
    if remaining.Some? {
      repaints := [f.terminalNow + remaining.value];
    }
    var next := app.UpdateDiagnosticResultTimeouts(f.resultsNow);
    if next.Some? {
      repaints := repaints + [f.resultsNow + next.value];
    }
  }

  method WakeButton(app: WakerApp, f: FrameInput)
    modifies app
    ensures app.View() == AfterWakeClick(old(app.View()), f)
  {
    hide WakeBegun;
    if f.wakeClick.Some? && !app.busy && !app.state.Awake? && app.statusCheckRx == null && app.pingCheckRx == null {
      var click := f.wakeClick.value;
      var rx := new Receiver<WakeState>(WorkerOf(click.launch), [], true);
      app.BeginWake(click.id, click.now, JobOf(click.launch), rx, SpawnOf(click.launch), click.later);
    }
  }

  method StatusButton(app: WakerApp, click: Option<CheckClick>) returns (repaints: seq<nat>)
    modifies app
    ensures app.View() == AfterStatusClick(old(app.View()), click) && repaints == CheckRepaint(old(app.View()), click)
  {
    hide StatusBegun;
    repaints := [];
    if click.Some? {
      var launch := click.value.launch;
      var rx := new Receiver<CheckResult>(WorkerOf(launch), [], true);
      var delays := app.BeginHostStatusCheck(JobOf(launch), rx, SpawnOf(launch), click.value.now);
      repaints := if delays == [] then [] else [click.value.now + delays[0]];
    }
  }

  method PingButton(app: WakerApp, click: Option<CheckClick>) returns (repaints: seq<nat>)
    modifies app
    ensures app.View() == AfterPingClick(old(app.View()), click) && repaints == CheckRepaint(old(app.View()), click)
  {
    hide PingBegun;
    repaints := [];
    if click.Some? {
      var launch := click.value.launch;
      var rx := new Receiver<CheckResult>(WorkerOf(launch), [], true);
      var delays := app.BeginPingCheck(JobOf(launch), rx, SpawnOf(launch), click.value.now);
      repaints := if delays == [] then [] else [click.value.now + delays[0]];
    }
  }

  /** `show_ui`: the drains, the timers and the buttons, in this order. */
  method ShowUi(app: WakerApp, f: FrameInput) returns (repaints: seq<nat>)
    requires Meets(app, f)
    modifies app, if app.stateRx == null then {} else {app.stateRx}
    modifies if app.statusCheckRx == null then {} else {app.statusCheckRx}
    modifies if app.pingCheckRx == null then {} else {app.pingCheckRx}
    ensures (app.View(), repaints) == Frame(old(app.View()), f)
  {
    hide Drain, DrainCheck, ExpireTerminal, ExpireCheck, Remaining, Earlier, AfterWakeClick, AfterStatusClick,
         AfterPingClick, CheckRepaint;
    DrainAll(app, f);
    repaints := Timers(app, f);
    WakeButton(app, f);
    var first := StatusButton(app, f.statusClick);
    var second := PingButton(app, f.pingClick);
    repaints := repaints + (first + second);
  }

  /** Some repaint comes no later than the deadline. */
  predicate Armed(repaints: seq<nat>, deadline: Option<nat>) {
    deadline.Some? ==> exists i :: 0 <= i < |repaints| && repaints[i] <= deadline.value
  }

  lemma MoreRepaints(repaints: seq<nat>, more: seq<nat>, deadline: Option<nat>)
    ensures Armed(repaints, deadline) || Armed(more, deadline) ==> Armed(repaints + more, deadline)
  {
    if deadline.Some? {
      if i :| 0 <= i < |repaints| && repaints[i] <= deadline.value {
        assert (repaints + more)[i] == repaints[i];
      } else if i :| 0 <= i < |more| && more[i] <= deadline.value {
        assert (repaints + more)[|repaints| + i] == more[i];
      }
    }
  }

  lemma RefreshArms(ui: Ui, f: FrameInput)
    ensures var (current, repaints) := Refreshed(ui, f);
      && Armed(repaints, current.terminalDeadline)
      && Armed(repaints, current.status.deadline) && Armed(repaints, current.ping.deadline)
  {
    var (current, repaints) := Refreshed(ui, f);
    var heard := Drain(ui, f.queue, f.connected, f.drained);
    var left := ExpireTerminal(heard, f.terminalNow).1;
    if left.Some? {
      assert repaints[0] == f.terminalNow + left.value;
    }
    LastArms(repaints, current.status.deadline);
    LastArms(repaints, current.ping.deadline);
  }

  lemma LastArms(repaints: seq<nat>, deadline: Option<nat>)
    requires deadline.Some? ==> repaints != [] && repaints[|repaints| - 1] <= deadline.value
    ensures Armed(repaints, deadline)
  {
    if deadline.Some? {
      assert repaints[|repaints| - 1] <= deadline.value;
    }
  }

  ghost predicate ResultsArmed(repaints: seq<nat>, ui: Ui) {
    Armed(repaints, ui.status.deadline) && Armed(repaints, ui.ping.deadline)
  }

  lemma StatusClickArms(ui: Ui, click: Option<CheckClick>, repaints: seq<nat>)
    requires ResultsArmed(repaints, ui)
    ensures ResultsArmed(repaints + CheckRepaint(ui, click), AfterStatusClick(ui, click))
  {
    var after := AfterStatusClick(ui, click);
    var more := CheckRepaint(ui, click);
    if more != [] {
      LastArms(more, after.status.deadline);
    }
    MoreRepaints(repaints, more, after.status.deadline);
    MoreRepaints(repaints, more, after.ping.deadline);
  }

  lemma PingClickArms(ui: Ui, click: Option<CheckClick>, repaints: seq<nat>)
    requires ResultsArmed(repaints, ui)
    ensures ResultsArmed(repaints + CheckRepaint(ui, click), AfterPingClick(ui, click))
  {
    var after := AfterPingClick(ui, click);
    var more := CheckRepaint(ui, click);
    if more != [] {
      LastArms(more, after.ping.deadline);
    }
    MoreRepaints(repaints, more, after.status.deadline);
    MoreRepaints(repaints, more, after.ping.deadline);
  }

  /** The clicks of a frame, given the repaints requested before them. */
  lemma ClicksArm(current: Ui, f: FrameInput, repaints: seq<nat>)
    requires ResultsArmed(repaints, current)
    ensures ResultsArmed(repaints + Clicks(current, f).1, Clicks(current, f).0)
  {
    var woken := AfterWakeClick(current, f);
    var asked := AfterStatusClick(woken, f.statusClick);
    var first, second := CheckRepaint(woken, f.statusClick), CheckRepaint(asked, f.pingClick);
    assert ResultsArmed(repaints, woken);
    hide AfterWakeClick, AfterStatusClick, AfterPingClick, CheckRepaint, ResultsArmed;
    StatusClickArms(woken, f.statusClick, repaints);
    PingClickArms(asked, f.pingClick, repaints + first);
    assert repaints + (first + second) == repaints + first + second;
  }

  /** A wake click that starts no worker. */
  predicate WakeFailed(current: Ui, f: FrameInput) {
    WakeClicked(current, f) && !f.wakeClick.value.launch.Spawned?
  }

  /** Some timer is running when the buttons are drawn. */
  predicate Showing(current: Ui) {
    current.terminalDeadline.Some? || current.status.deadline.Some? || current.ping.deadline.Some?
  }

  /** A check click that starts no worker, no later than `t`. */
  predicate CheckFailedBy(ui: Ui, click: Option<CheckClick>, t: nat) {
    click.Some? && DiagnosticEnabled(ui) && !click.value.launch.Spawned? && click.value.now <= t
  }

  /** What arms the timer of a failed wake click: another timer that was running already, or a
      check click in the same frame that failed by the same instant. */
  predicate OtherwiseArmed(current: Ui, f: FrameInput)
    requires f.wakeClick.Some?
  {
    var woken := AfterWakeClick(current, f);
    var asked := AfterStatusClick(woken, f.statusClick);
    Showing(current) || CheckFailedBy(woken, f.statusClick, f.wakeClick.value.later)
    || CheckFailedBy(asked, f.pingClick, f.wakeClick.value.later)
  }

  // ---------------------------------------------------------------------------------------
  // Clocks
  // ---------------------------------------------------------------------------------------

  function AfterWakeTime(f: FrameInput): nat { if f.wakeClick.Some? then f.wakeClick.value.later else f.resultsNow }

  function AfterStatusTime(f: FrameInput): nat { if f.statusClick.Some? then f.statusClick.value.now else AfterWakeTime(f) }

  function EndTime(f: FrameInput): nat { if f.pingClick.Some? then f.pingClick.value.now else AfterStatusTime(f) }

  /** The clock does not go back within the frame. */
  predicate Timely(f: FrameInput) {
    && f.drained <= f.statusDrained <= f.pingDrained <= f.terminalNow <= f.resultsNow
    && (f.wakeClick.Some? ==> f.resultsNow <= f.wakeClick.value.now <= f.wakeClick.value.later)
    && AfterWakeTime(f) <= AfterStatusTime(f) <= EndTime(f)
  }

  predicate Within(deadline: Option<nat>, now: nat) {
    deadline.Some? ==> deadline.value <= now + DISPLAY_DURATION
  }

  /** No timer runs longer than the display time. */
  predicate Bounded(ui: Ui, now: nat) {
    Within(ui.terminalDeadline, now) && Within(ui.status.deadline, now) && Within(ui.ping.deadline, now)
  }

  lemma DrainsKeepBounded(ui: Ui, f: FrameInput)
    requires Bounded(ui, f.drained) && Timely(f)
    ensures Within(Drain(ui, f.queue, f.connected, f.drained).terminalDeadline, f.pingDrained)
    ensures Within(DrainCheck(ui.status, f.status, STATUS_SILENCE, f.statusDrained).deadline, f.pingDrained)
    ensures Within(DrainCheck(ui.ping, f.ping, PING_SILENCE, f.pingDrained).deadline, f.pingDrained)
    ensures var heard := Drain(ui, f.queue, f.connected, f.drained); heard.status == ui.status && heard.ping == ui.ping
  {
    hide AnyTerminal;
  }

  lemma RefreshKeepsBounded(ui: Ui, f: FrameInput)
    requires Bounded(ui, f.drained) && Timely(f)
    ensures Bounded(Refreshed(ui, f).0, f.pingDrained)
  {
    DrainsKeepBounded(ui, f);
    hide Drain, DrainCheck, Timely, Bounded, Remaining, Earlier;
    var heard := Drain(ui, f.queue, f.connected, f.drained);
    var checked := heard.(status := DrainCheck(heard.status, f.status, STATUS_SILENCE, f.statusDrained),
                          ping := DrainCheck(heard.ping, f.ping, PING_SILENCE, f.pingDrained));
    ExpiryKeepsBounded(checked, f.pingDrained, f.terminalNow, f.resultsNow);
  }

  lemma ExpiryKeepsBounded(ui: Ui, t: nat, terminalNow: nat, resultsNow: nat)
    requires Within(ui.terminalDeadline, t) && Within(ui.status.deadline, t) && Within(ui.ping.deadline, t)
    ensures var timed := ExpireTerminal(ui, terminalNow).0;
      Bounded(timed.(status := ExpireCheck(timed.status, resultsNow), ping := ExpireCheck(timed.ping, resultsNow)), t)
  {}

  lemma WakeClickKeepsBounded(ui: Ui, f: FrameInput)
    requires Bounded(ui, f.pingDrained) && Timely(f)
    ensures Bounded(AfterWakeClick(ui, f), AfterWakeTime(f))
  {
    assert f.pingDrained <= AfterWakeTime(f);
    hide Timely;
  }

  lemma CheckClickKeepsBounded(check: Check, launch: Launch, before: nat, now: nat)
    requires Within(check.deadline, before) && before <= now
    ensures Within(StartCheck(check, launch, now).deadline, now)
  {}

  lemma CheckClicksKeepBounded(ui: Ui, click: Option<CheckClick>, before: nat, now: nat)
    requires Bounded(ui, before) && before <= now && (click.Some? ==> click.value.now == now)
    ensures Bounded(AfterStatusClick(ui, click), now) && Bounded(AfterPingClick(ui, click), now)
  {
    if click.Some? {
      CheckClickKeepsBounded(ui.status, click.value.launch, before, now);
      CheckClickKeepsBounded(ui.ping, click.value.launch, before, now);
    }
    hide StartCheck;
  }

  lemma FrameKeepsBounded(ui: Ui, f: FrameInput)
    requires Bounded(ui, f.drained) && Timely(f)
    ensures Bounded(Frame(ui, f).0, EndTime(f))
  {
    RefreshKeepsBounded(ui, f);
    var current := Refreshed(ui, f).0;
    hide Refreshed, AfterWakeClick, AfterStatusClick, AfterPingClick, Bounded;
    WakeClickKeepsBounded(current, f);
    var woken := AfterWakeClick(current, f);
    CheckClicksKeepBounded(woken, f.statusClick, AfterWakeTime(f), AfterStatusTime(f));
    CheckClicksKeepBounded(AfterStatusClick(woken, f.statusClick), f.pingClick, AfterStatusTime(f), EndTime(f));
  }

  /** The repaints asked for before the clicks: none exactly if no timer is running, and then
      none later than the display time allows. */
  lemma RefreshRepaints(ui: Ui, f: FrameInput)
    requires Bounded(ui, f.drained) && Timely(f)
    ensures var (current, repaints) := Refreshed(ui, f);
      && (repaints != [] <==> Showing(current))
      && forall i :: 0 <= i < |repaints| ==> repaints[i] <= f.pingDrained + DISPLAY_DURATION
  {
    RefreshKeepsBounded(ui, f);
    hide Drain, DrainCheck;
  }

  lemma ClickRepaints(ui: Ui, click: Option<CheckClick>, t: nat)
    ensures CheckFailedBy(ui, click, t) <==> exists i :: 0 <= i < |CheckRepaint(ui, click)| && CheckRepaint(ui, click)[i] <= t + DISPLAY_DURATION
  {
    if CheckFailedBy(ui, click, t) {
      assert CheckRepaint(ui, click)[0] <= t + DISPLAY_DURATION;
    }
  }

  lemma ArmedParts(a: seq<nat>, b: seq<nat>, c: seq<nat>, deadline: nat)
    ensures Armed(a + (b + c), Some(deadline))
       <==> Armed(a, Some(deadline)) || Armed(b, Some(deadline)) || Armed(c, Some(deadline))
  {
    MoreRepaints(b, c, Some(deadline));
    MoreRepaints(a, b + c, Some(deadline));
    if Armed(a + (b + c), Some(deadline)) {
      var i :| 0 <= i < |a + (b + c)| && (a + (b + c))[i] <= deadline;
      if i < |a| {
        assert a[i] <= deadline;
      } else if i < |a| + |b| {
        assert b[i - |a|] <= deadline;
      } else {
        assert c[i - |a| - |b|] <= deadline;
      }
    }
  }

  lemma FailedWakeShows(current: Ui, f: FrameInput)
    requires WakeFailed(current, f)
    ensures var after := Clicks(current, f).0;
      after.state.Failed? && after.terminalDeadline == Some(f.wakeClick.value.later + DISPLAY_DURATION)
  {}

  /** A failed wake click: its timer is armed exactly if something else arms it. */
  lemma FailedWakeArmedIff(ui: Ui, f: FrameInput)
    requires Bounded(ui, f.drained) && Timely(f) && WakeFailed(Refreshed(ui, f).0, f)
    ensures var (after, repaints) := Frame(ui, f);
      && after.state.Failed? && after.terminalDeadline == Some(f.wakeClick.value.later + DISPLAY_DURATION)
      && (Armed(repaints, after.terminalDeadline) <==> OtherwiseArmed(Refreshed(ui, f).0, f))
  {
    var (current, repaints) := Refreshed(ui, f);
    var deadline := f.wakeClick.value.later + DISPLAY_DURATION;
    RefreshRepaints(ui, f);
    FailedWakeShows(current, f);
    assert f.pingDrained <= f.wakeClick.value.later;
    hide Refreshed, Bounded, AfterWakeClick, AfterStatusClick, AfterPingClick, CheckRepaint, CheckFailedBy, Timely;
    var woken := AfterWakeClick(current, f);
    var asked := AfterStatusClick(woken, f.statusClick);
    ClickRepaints(woken, f.statusClick, f.wakeClick.value.later);
    ClickRepaints(asked, f.pingClick, f.wakeClick.value.later);
    ArmedParts(repaints, CheckRepaint(woken, f.statusClick), CheckRepaint(asked, f.pingClick), deadline);
    assert Armed(repaints, Some(deadline)) <==> Showing(current) by {
      if Showing(current) {
        assert repaints[0] <= deadline;
      }
    }
  }

  lemma OtherFramesArm(ui: Ui, f: FrameInput)
    requires !WakeFailed(Refreshed(ui, f).0, f)
    ensures Armed(Frame(ui, f).1, Frame(ui, f).0.terminalDeadline)
  {
    var (current, repaints) := Refreshed(ui, f);
    RefreshArms(ui, f);
    hide Refreshed;
    MoreRepaints(repaints, Clicks(current, f).1, current.terminalDeadline);
  }

  // ---------------------------------------------------------------------------------------
  // Every run of frames
  // ---------------------------------------------------------------------------------------

  function Frames(fs: seq<FrameInput>): Ui {
    if fs == [] then NEW_UI else Frame(Frames(fs[..|fs| - 1]), fs[|fs| - 1]).0
  }

  /** The clock does not go back from one frame to the next either. */
  predicate Chain(fs: seq<FrameInput>) {
    && (forall i :: 0 <= i < |fs| ==> Timely(fs[i]))
    && (forall i :: 0 < i < |fs| ==> EndTime(fs[i - 1]) <= fs[i].drained)
  }

  lemma {:induction false} FramesKeepBounded(fs: seq<FrameInput>, f: FrameInput)
    requires Chain(fs + [f])
    ensures Timely(f) && Bounded(Frames(fs), f.drained)
  {
    var all := fs + [f];
    assert Timely(all[|fs|]);
    if fs != [] {
      var n := |fs| - 1;
      var init := fs[..n];
      assert all[n] == fs[n] && all[n + 1] == f && EndTime(all[n + 1 - 1]) <= all[n + 1].drained;
      assert Chain(init + [fs[n]]) by {
        assert init + [fs[n]] == all[..n + 1];
      }
      FramesKeepBounded(init, fs[n]);
      FrameKeepsBounded(Frames(init), fs[n]);
      hide Frame, Timely;
    }
  }

  /** After every frame of every run the timers of both results are armed, and the timer of the
      terminal state, if it runs, is armed exactly unless a wake click failed in that frame and
      nothing else arms it. */
  lemma FrameArmsTimers(fs: seq<FrameInput>, f: FrameInput)
    requires Chain(fs + [f])
    ensures var current := Refreshed(Frames(fs), f).0; var (after, repaints) := Frame(Frames(fs), f);
      && Armed(repaints, after.status.deadline)
      && Armed(repaints, after.ping.deadline)
      && (after.terminalDeadline.Some? ==>
            (Armed(repaints, after.terminalDeadline) <==> (WakeFailed(current, f) ==> OtherwiseArmed(current, f))))
  {
    var ui := Frames(fs);
    var (current, repaints) := Refreshed(ui, f);
    FramesKeepBounded(fs, f);
    RefreshArms(ui, f);
    ClicksArm(current, f, repaints);
    hide Refreshed, Clicks, Armed, OtherwiseArmed;
    if WakeFailed(current, f) {
      FailedWakeArmedIff(ui, f);
    } else {
      OtherFramesArm(ui, f);
    }
  }

  /** So with no timer running and no further click, a failed wake click puts an error on display
      for five seconds, and the frame asks for no repaint to take it off again. */
  lemma FailedWakeIsNotArmed(fs: seq<FrameInput>, f: FrameInput)
    requires Chain(fs + [f]) && f.statusClick.None? && f.pingClick.None?
    requires var current := Refreshed(Frames(fs), f).0; WakeFailed(current, f) && !Showing(current)
    ensures var (after, repaints) := Frame(Frames(fs), f);
      after.state.Failed? && after.terminalDeadline.Some? && !Armed(repaints, after.terminalDeadline)
  {
    FramesKeepBounded(fs, f);
    hide Refreshed, Clicks, Armed;
    FailedWakeArmedIff(Frames(fs), f);
  }

  /** It happens both ways: a rejected configuration and a thread that cannot be created. */
  lemma FailedWakeHappens(launch: Launch) returns (f: FrameInput)
    requires !launch.Spawned?
    ensures Chain([f]) && f.wakeClick == Some(WakeClick(1, 0, launch, 0))
    ensures !Armed(Frame(NEW_UI, f).1, Frame(NEW_UI, f).0.terminalDeadline)
  {
    f := FrameInput([], true, Empty, Empty, 0, 0, 0, 0, 0, Some(WakeClick(1, 0, launch, 0)), None, None);
    assert [] + [f] == [f];
    FailedWakeIsNotArmed([], f);
  }
}
