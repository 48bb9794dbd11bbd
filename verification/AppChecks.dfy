/** The two diagnostic buttons over every run: whose answer is on display. */
module AppChecks {
  import opened Basics
  import opened WakeCore
  import opened App
  import opened AppSystem

  /** A click on a diagnostic button that was accepted: how its check was to run, and the worker it
      got, if one was created. */
  datatype Launched = Launched(order: Order, worker: nat)

  /** The system, with the latest launch of each button. */
  datatype Tracked = Tracked(s: System, status: Option<Launched>, ping: Option<Launched>)

  predicate Accepted(s: System, order: Order) {
    s.phase.Between? && DiagnosticEnabled(s.ui) && (order.Start? ==> !IsWake(order.job))
  }

  function Track(t: Tracked, step: Step): Tracked {
    Tracked(Apply(t.s, step),
            if step.ClickStatus? && Accepted(t.s, step.order) then Some(Launched(step.order, |t.s.workers|)) else t.status,
            if step.ClickPing? && Accepted(t.s, step.order) then Some(Launched(step.order, |t.s.workers|)) else t.ping)
  }

  function TrackRun(steps: seq<Step>): Tracked {
    if steps == [] then Tracked(INITIAL, None, None) else Track(TrackRun(steps[..|steps| - 1]), steps[|steps| - 1])
  }

  lemma {:induction false} TrackRunIsRun(steps: seq<Step>)
    ensures TrackRun(steps).s == Run(steps)
  {
    if steps != [] {
      TrackRunIsRun(steps[..|steps| - 1]);
    }
  }

  /** What a check worker found, if it came to its end. */
  function OwnAnswer(job: Job): CheckResult
    requires !IsWake(job)
  {
    match job
    case CheckJob(_, _, _, answer) => answer
    case CheckNoRuntime(d) => Failure("could not start networking runtime: " + d)
  }

  /** What a button shows. Without a launch there is nothing. A launch that failed shows why. A
      worker that is waited for shows nothing yet; otherwise the result is its own answer, or, if
      it crashed before answering, `silence`. */
  ghost predicate ShowsLatest(s: System, check: Check, launch: Option<Launched>, silence: string) {
    if launch.None? then check == Check(None, None, None)
    else
      match launch.value.order
      case Refuse(m) => check.rx.None? && check.result == Some(Failure(m))
      case FailThread(e) => check.rx.None? && check.result == Some(Failure("Could not create worker thread: " + e))
      case Start(job) =>
        var i := launch.value.worker;
        && i < |s.workers| && !IsWake(job) && s.workers[i].job == job
        && if check.rx.Some? then check == Check(Some(i), None, None)
           else if Answered(s.workers[i]) then check.result == Some(OwnAnswer(job))
           else s.workers[i].crashed && check.result == Some(Failure(silence))
  }

  /** Every worker has the job it had, and it is still settled whether it answered. */
  ghost predicate FatesKept(before: seq<Worker>, after: seq<Worker>) {
    && |before| <= |after|
    && forall i | 0 <= i < |before| ::
         && after[i].job == before[i].job
         && (Answered(before[i]) ==> Answered(after[i]))
         && (before[i].crashed && !Answered(before[i]) ==> after[i].crashed && !Answered(after[i]))
  }

  lemma StepKeepsFates(s: System, step: Step)
    requires WorkersOk(s)
    ensures FatesKept(s.workers, Apply(s, step).workers)
  {
    hide Events, Past, Sent, Retired, AnyTerminal;
    forall i | 0 <= i < |s.workers|
      ensures WorkerOk(s.workers[i])
    {
      assert WorkerOk(s.workers[i]) && (Outstanding(s.ui, i) || Retired(s.workers[i]));
    }
  }

  lemma FatesKeepShown(s: System, s': System, check: Check, launch: Option<Launched>, silence: string)
    requires ShowsLatest(s, check, launch, silence) && FatesKept(s.workers, s'.workers)
    ensures ShowsLatest(s', check, launch, silence)
  {
    hide Answered, IsWake;
  }

  /** Taking the answer of the worker that is waited for. */
  lemma DrainKeepsShown(s: System, check: Check, launch: Option<Launched>, silence: string, now: nat)
    requires ShowsLatest(s, check, launch, silence) && WorkersOk(s) && Checking(s, check.rx)
    ensures ShowsLatest(s, DrainCheck(check, Poll(s, check.rx), silence, now), launch, silence)
  {
    hide Events, Past, Sent, Retired, AnyTerminal;
    if check.rx.Some? {
      var i := check.rx.value;
      assert WorkerOk(s.workers[i]) && (Outstanding(s.ui, i) || Retired(s.workers[i]));
    }
  }

  lemma ExpiryKeepsShown(s: System, check: Check, launch: Option<Launched>, silence: string, now: nat)
    requires ShowsLatest(s, check, launch, silence)
    ensures ShowsLatest(s, ExpireCheck(check, now), launch, silence)
  {
    hide Answered, IsWake;
  }

  lemma LaunchIsShown(s: System, s': System, check: Check, order: Order, silence: string, now: nat)
    requires s'.workers == s.workers + Spawn(order) && (order.Start? ==> !IsWake(order.job)) && check.rx.None?
    ensures ShowsLatest(s', StartCheck(check, LaunchOf(order, |s.workers|), now), Some(Launched(order, |s.workers|)), silence)
  {
    hide Answered, IsWake;
  }

  ghost predicate TrackOk(t: Tracked) {
    && ShowsLatest(t.s, t.s.ui.status, t.status, "Host status worker stopped without reporting a result")
    && ShowsLatest(t.s, t.s.ui.ping, t.ping, "Ping worker stopped without reporting a result")
  }

  predicate IsCheckStep(step: Step) {
    step.DrainStatus? || step.DrainPing? || step.ExpireResults? || step.ClickStatus? || step.ClickPing?
  }

  lemma OtherStepKeepsChecks(t: Tracked, step: Step)
    requires Inv(t.s) && !IsCheckStep(step)
    ensures var t' := Track(t, step);
      t'.s.ui.status == t.s.ui.status && t'.s.ui.ping == t.s.ui.ping && t'.status == t.status && t'.ping == t.ping
  {
    hide Events, Past, Sent, Retired, WorkerOk, AnyTerminal, RecordOk, RecordsOk, WorkersOk, Listening;
  }

  /** What the steps of the checks do to the two buttons. */
  lemma CheckStepMeans(s: System, step: Step)
    requires IsCheckStep(step)
    ensures var s' := Apply(s, step);
      && s'.ui.status == (match step
                          case DrainStatus(now) =>
                            if s.phase.Draining? then s.ui.status
                            else DrainCheck(s.ui.status, Poll(s, s.ui.status.rx), STATUS_SILENCE, now)
                          case ExpireResults(now) => if s.phase.Draining? then s.ui.status else ExpireCheck(s.ui.status, now)
                          case ClickStatus(now, order) =>
                            if Accepted(s, order) then StartCheck(s.ui.status, LaunchOf(order, |s.workers|), now) else s.ui.status
                          case _ => s.ui.status)
      && s'.ui.ping == (match step
                        case DrainPing(now) =>
                          if s.phase.Draining? then s.ui.ping else DrainCheck(s.ui.ping, Poll(s, s.ui.ping.rx), PING_SILENCE, now)
                        case ExpireResults(now) => if s.phase.Draining? then s.ui.ping else ExpireCheck(s.ui.ping, now)
                        case ClickPing(now, order) =>
                          if Accepted(s, order) then StartCheck(s.ui.ping, LaunchOf(order, |s.workers|), now) else s.ui.ping
                        case _ => s.ui.ping)
      && s'.workers == (match step
                        case ClickStatus(_, order) => if Accepted(s, order) then s.workers + Spawn(order) else s.workers
                        case ClickPing(_, order) => if Accepted(s, order) then s.workers + Spawn(order) else s.workers
                        case _ => s.workers)
  {
    hide Events, Poll, DrainCheck, StartCheck, ExpireCheck, LaunchOf, Spawn, IsWake;
  }

  /** What is shown depends on the workers only. */
  lemma SameWorkersSameShown(s: System, s': System, check: Check, launch: Option<Launched>, silence: string)
    requires s'.workers == s.workers
    ensures ShowsLatest(s', check, launch, silence) == ShowsLatest(s, check, launch, silence)
  {
    hide Answered, IsWake;
  }

  lemma StatusStepKeepsShown(t: Tracked, step: Step)
    requires TrackOk(t) && Inv(t.s) && IsCheckStep(step)
    ensures ShowsLatest(Track(t, step).s, Track(t, step).s.ui.status, Track(t, step).status, STATUS_SILENCE)
  {
    var s, s' := t.s, Apply(t.s, step);
    StepKeepsFates(s, step);
    CheckStepMeans(s, step);
    FatesKeepShown(s, s', s.ui.status, t.status, STATUS_SILENCE);
    hide ShowsLatest, FatesKept, Events, RecordsOk, Listening, WorkersOk, Checking, Poll, DrainCheck, StartCheck, ExpireCheck, Apply, UiOk;
    if step.DrainStatus? && s.phase.Between? {
      DrainKeepsShown(s, s.ui.status, t.status, STATUS_SILENCE, step.now);
      SameWorkersSameShown(s, s', s'.ui.status, t.status, STATUS_SILENCE);
    } else if step.ExpireResults? && s.phase.Between? {
      ExpiryKeepsShown(s', s.ui.status, t.status, STATUS_SILENCE, step.now);
    } else if step.ClickStatus? && Accepted(s, step.order) {
      LaunchIsShown(s, s', s.ui.status, step.order, STATUS_SILENCE, step.now);
    }
  }

  lemma PingStepKeepsShown(t: Tracked, step: Step)
    requires TrackOk(t) && Inv(t.s) && IsCheckStep(step)
    ensures ShowsLatest(Track(t, step).s, Track(t, step).s.ui.ping, Track(t, step).ping, PING_SILENCE)
  {
    var s, s' := t.s, Apply(t.s, step);
    StepKeepsFates(s, step);
    CheckStepMeans(s, step);
    FatesKeepShown(s, s', s.ui.ping, t.ping, PING_SILENCE);
    hide ShowsLatest, FatesKept, Events, RecordsOk, Listening, WorkersOk, Checking, Poll, DrainCheck, StartCheck, ExpireCheck, Apply, UiOk;
    if step.DrainPing? && s.phase.Between? {
      DrainKeepsShown(s, s.ui.ping, t.ping, PING_SILENCE, step.now);
      SameWorkersSameShown(s, s', s'.ui.ping, t.ping, PING_SILENCE);
    } else if step.ExpireResults? && s.phase.Between? {
      ExpiryKeepsShown(s', s.ui.ping, t.ping, PING_SILENCE, step.now);
    } else if step.ClickPing? && Accepted(s, step.order) {
      LaunchIsShown(s, s', s.ui.ping, step.order, PING_SILENCE, step.now);
    }
  }

  lemma StepKeepsTrackOk(t: Tracked, step: Step)
    requires TrackOk(t) && Inv(t.s)
    ensures TrackOk(Track(t, step))
  {
    if IsCheckStep(step) {
      StatusStepKeepsShown(t, step);
      PingStepKeepsShown(t, step);
      hide ShowsLatest, Apply, Inv;
    } else {
      StepKeepsFates(t.s, step);
      OtherStepKeepsChecks(t, step);
      hide ShowsLatest, FatesKept, Apply, Inv;
      FatesKeepShown(t.s, Apply(t.s, step), t.s.ui.status, t.status, STATUS_SILENCE);
      FatesKeepShown(t.s, Apply(t.s, step), t.s.ui.ping, t.ping, PING_SILENCE);
    }
  }

  lemma {:induction false} TrackedRunIsOk(steps: seq<Step>)
    ensures TrackOk(TrackRun(steps))
  {
    if steps != [] {
      var init := steps[..|steps| - 1];
      TrackedRunIsOk(init);
      TrackRunIsRun(init);
      RunKeepsInv(init);
      hide Track, TrackOk, Inv;
      StepKeepsTrackOk(TrackRun(init), steps[|steps| - 1]);
    }
  }

  /** In every reachable state each button shows the outcome of its latest launch and of no other:
      nothing while its worker is waited for; then what that worker answered - its own finding or
      the failure of its runtime -, or that it fell silent, exactly if it crashed before answering;
      or the reason why there was no worker. */
  lemma ResultIsLatest(steps: seq<Step>)
    ensures var t := TrackRun(steps);
      && t.s == Run(steps)
      && ShowsLatest(t.s, t.s.ui.status, t.status, "Host status worker stopped without reporting a result")
      && ShowsLatest(t.s, t.s.ui.ping, t.ping, "Ping worker stopped without reporting a result")
  {
    TrackedRunIsOk(steps);
    TrackRunIsRun(steps);
  }
}
