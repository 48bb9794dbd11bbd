/** The wake attempt of waker-core: `run_wake` driven by a backend whose answers, and the
    time each one takes, are arbitrary. */
module WakeCore {
  import opened Basics
  import Decimal

  datatype WakeFailureStage =
    | Configuration
    | Connecting
    | ResolveTarget
    | WakeRequest
    | Probing
    | Timeout
    | Runtime

  datatype WakeFailure = WakeFailure(stage: WakeFailureStage, detail: string)

  datatype WakeState =
    | Idle
    | Connecting
    | ResolvingPc
    | Waking
    | WaitingForPc(attempt: nat)
    | Awake
    | Failed(failure: WakeFailure)

  predicate IsTerminal(state: WakeState) {
    state.Awake? || state.Failed?
  }

  predicate AnyTerminal(states: seq<WakeState>) {
    exists i :: 0 <= i < |states| && IsTerminal(states[i])
  }

  datatype WakeTarget = WakeTarget(mac: MacAddress, probeTimeout: nat, probeInterval: nat)

  function NewTarget(mac: MacAddress): WakeTarget {
    WakeTarget(mac, 60 * SECOND, 250 * MILLISECOND)
  }

  /** One observable step of an attempt: a state handed to the report callback, or the
      completion of a backend call. */
  datatype Event =
    | Report(state: WakeState)
    | Connect(connected: bool)
    | Resolve(mac: MacAddress)
    | SendWake(mac: MacAddress)
    | Probe(address: Ipv4)
    | Disconnect

  // ---------------------------------------------------------------------------------------
  // The environment
  // ---------------------------------------------------------------------------------------

  /** What the backend answers and how long things take. The k-th probe answers `probe(k)`
      after `probeTime(k)`; the sleep after it lasts `oversleep(k)` longer than asked. */
  datatype Script = Script(
    connect: Result<(), string>,
    resolve: Result<Ipv4, string>,
    wake: Result<(), string>,
    probe: nat -> Result<bool, string>,
    probeTime: nat -> nat,
    oversleep: nat -> nat)

  class WakeBackend {
    const script: Script
    var trace: seq<Event>
    var clock: nat
    var probes: nat
    var tunnel: bool

    constructor (script: Script, now: nat)
      ensures this.script == script && clock == now
      ensures trace == [] && probes == 0 && !tunnel
    {
      this.script := script;
      trace, clock, probes, tunnel := [], now, 0, false;
    }

    method Report(state: WakeState)
      modifies this`trace
      ensures trace == old(trace) + [Event.Report(state)]
    {
      trace := trace + [Event.Report(state)];
    }

    // A failed connect leaves the tunnel field as it was: it is assigned last.
    method Connect() returns (r: Result<(), string>)
      modifies this`trace, this`tunnel
      ensures r == script.connect && trace == old(trace) + [Event.Connect(r.Success?)]
      ensures tunnel == (r.Success? || old(tunnel))
    {
      r := script.connect;
      trace := trace + [Event.Connect(r.Success?)];
      if r.Success? {
        tunnel := true;
      }
    }

    method ResolveTargetIpv4(mac: MacAddress) returns (r: Result<Ipv4, string>)
      modifies this`trace
      ensures r == script.resolve && trace == old(trace) + [Event.Resolve(mac)]
    {
      r := script.resolve;
      trace := trace + [Event.Resolve(mac)];
    }

    method SendWake(mac: MacAddress) returns (r: Result<(), string>)
      modifies this`trace
      ensures r == script.wake && trace == old(trace) + [Event.SendWake(mac)]
    {
      r := script.wake;
      trace := trace + [Event.SendWake(mac)];
    }

    method Probe(address: Ipv4) returns (r: Result<bool, string>)
      modifies this`trace, this`clock, this`probes
      ensures r == script.probe(old(probes)) && trace == old(trace) + [Event.Probe(address)]
      ensures clock == old(clock) + script.probeTime(old(probes)) && probes == old(probes) + 1
    {
      r := script.probe(probes);
      clock := clock + script.probeTime(probes);
      probes := probes + 1;
      trace := trace + [Event.Probe(address)];
    }

    // The sleep that follows the latest probe.
    method Sleep(interval: nat)
      requires probes > 0
      modifies this`clock
      ensures clock == old(clock) + interval + script.oversleep(probes - 1)
    {
      clock := clock + interval + script.oversleep(probes - 1);
    }

    method Disconnect()
      modifies this`trace, this`tunnel
      ensures trace == old(trace) + [Event.Disconnect] && !tunnel
    {
      trace := trace + [Event.Disconnect];
      tunnel := false;
    }
  }

  /** Time from the accepted wake request to the start of the k-th probe. */
  function ProbeStart(script: Script, interval: nat, k: nat): nat {
    if k == 0 then 0
    else ProbeStart(script, interval, k - 1) + script.probeTime(k - 1) + interval + script.oversleep(k - 1)
  }

  /** Time from the accepted wake request to the timeout check after the k-th probe. */
  function ProbeEnd(script: Script, interval: nat, k: nat): nat {
    ProbeStart(script, interval, k) + script.probeTime(k)
  }

  // ---------------------------------------------------------------------------------------
  // The specification
  // ---------------------------------------------------------------------------------------

  /** The six ways an attempt can end; `probes` counts the probes made. */
  datatype Outcome =
    | ConnectFailed(detail: string)
    | ResolveFailed(detail: string)
    | WakeFailed(detail: string)
    | ProbeFailed(address: Ipv4, probes: nat, detail: string)
    | TimedOut(address: Ipv4, probes: nat)
    | Reached(address: Ipv4, probes: nat)

  function ProbesOf(o: Outcome): nat {
    if o.ProbeFailed? || o.TimedOut? || o.Reached? then o.probes else 0
  }

  function FailureOf(o: Outcome, target: WakeTarget): Option<WakeFailure> {
    match o
    case ConnectFailed(d) => Some(WakeFailure(WakeFailureStage.Connecting, d))
    case ResolveFailed(d) => Some(WakeFailure(ResolveTarget, d))
    case WakeFailed(d) => Some(WakeFailure(WakeRequest, d))
    case ProbeFailed(_, _, d) => Some(WakeFailure(Probing, d))
    case TimedOut(_, _) => Some(WakeFailure(Timeout, TimeoutDetail(target)))
    case Reached(_, _) => None
  }

  function TimeoutDetail(target: WakeTarget): string {
    "PC did not become reachable within " + Decimal.Print(target.probeTimeout / SECOND) + " seconds"
  }

  function Attempt(k: nat): nat { Min(k, U32_MAX) }

  /** The events of the first `n` rounds of the waiting loop. */
  function Waits(address: Ipv4, n: nat): seq<Event> {
    if n == 0 then []
    else Waits(address, n - 1) + [Report(WaitingForPc(Attempt(n))), Probe(address)]
  }

  /** The events between the first report and the waiting loop, cut short when a stage fails. */
  function Stages(o: Outcome, mac: MacAddress): seq<Event> {
    if o.ConnectFailed? then [Connect(false)]
    else if o.ResolveFailed? then [Connect(true), Report(ResolvingPc), Resolve(mac)]
    else [Connect(true), Report(ResolvingPc), Resolve(mac), Report(Waking), SendWake(mac)]
  }

  /** The last two events: success is reported before the disconnect, a failure after it. */
  function Closing(o: Outcome, target: WakeTarget): seq<Event> {
    match FailureOf(o, target)
    case None => [Report(Awake), Disconnect]
    case Some(f) => [Disconnect, Report(Failed(f))]
  }

  /** The events between the first report and the disconnect of a failed attempt. */
  function Body(o: Outcome, mac: MacAddress): seq<Event> {
    Stages(o, mac) + if ProbesOf(o) > 0 then Waits(o.address, ProbesOf(o)) else []
  }

  function TraceOf(o: Outcome, target: WakeTarget): seq<Event> {
    [Report(WakeState.Connecting)] + Body(o, target.mac) + Closing(o, target)
  }

  /** The loop goes on after the k-th probe: it was answered "no", before the timeout. */
  ghost predicate Continues(script: Script, target: WakeTarget, k: nat) {
    script.probe(k) == Success(false) && ProbeEnd(script, target.probeInterval, k) < target.probeTimeout
  }

  ghost predicate Unanswered(script: Script, target: WakeTarget, n: nat) {
    forall k: nat | k < n :: Continues(script, target, k)
  }

  ghost predicate Woken(script: Script, address: Ipv4) {
    script.connect.Success? && script.resolve == Success(address) && script.wake.Success?
  }

  /** Which outcome the environment forces. */
  ghost predicate Decides(script: Script, target: WakeTarget, o: Outcome) {
    match o
    case ConnectFailed(d) => script.connect == Failure(d)
    case ResolveFailed(d) => script.connect.Success? && script.resolve == Failure(d)
    case WakeFailed(d) => script.connect.Success? && script.resolve.Success? && script.wake == Failure(d)
    case ProbeFailed(a, n, d) =>
      Woken(script, a) && n > 0 && Unanswered(script, target, n - 1) && script.probe(n - 1) == Failure(d)
    case TimedOut(a, n) =>
      && Woken(script, a) && n > 0 && Unanswered(script, target, n - 1)
      && script.probe(n - 1) == Success(false)
      && ProbeEnd(script, target.probeInterval, n - 1) >= target.probeTimeout
    case Reached(a, n) =>
      Woken(script, a) && n > 0 && Unanswered(script, target, n - 1) && script.probe(n - 1) == Success(true)
  }

  /** The loop stops no later than after round `horizon`. */
  ghost predicate Halts(script: Script, target: WakeTarget, horizon: nat) {
    !Continues(script, target, horizon)
  }

  // ---------------------------------------------------------------------------------------
  // The algorithm
  // ---------------------------------------------------------------------------------------

  function ResultOf(o: Outcome, target: WakeTarget): Result<(), WakeFailure> {
    match FailureOf(o, target)
    case None => Success(())
    case Some(f) => Failure(f)
  }

  lemma Append<T>(a: seq<T>, b: seq<T>, c: seq<T>, d: seq<T>)
    ensures a + b + c + d == a + (b + (c + d)) == a + b + (c + d) == a + ((b + c) + d)
  {}

  /** The first two statements of each round of the waiting loop. */
  method ReportAndProbe(backend: WakeBackend, address: Ipv4, attempt: nat) returns (r: Result<bool, string>)
    modifies backend`trace, backend`clock, backend`probes
    ensures r == backend.script.probe(old(backend.probes))
    ensures backend.trace == old(backend.trace) + [Event.Report(WaitingForPc(attempt)), Event.Probe(address)]
    ensures backend.clock == old(backend.clock) + backend.script.probeTime(old(backend.probes))
    ensures backend.probes == old(backend.probes) + 1
  {
    backend.Report(WaitingForPc(attempt));
    r := backend.Probe(address);
  }

  lemma NextRound(base: seq<Event>, address: Ipv4, n: nat)
    requires n > 0
    ensures base + Waits(address, n - 1) + [Event.Report(WaitingForPc(Attempt(n))), Event.Probe(address)]
         == base + Waits(address, n)
  {}

  /** The waiting loop of `run_wake`. `horizon` is only the bound that makes it terminate. */
  method WaitForPc(backend: WakeBackend, target: WakeTarget, address: Ipv4, ghost horizon: nat)
    returns (result: Result<(), WakeFailure>, ghost o: Outcome)
    requires Halts(backend.script, target, horizon) && backend.probes == 0 && Woken(backend.script, address)
    modifies backend
    ensures Decides(backend.script, target, o) && ProbesOf(o) > 0 && o.address == address
    ensures result == ResultOf(o, target)
    ensures backend.trace
         == old(backend.trace) + (Waits(address, ProbesOf(o)) + if result.Success? then [Event.Report(Awake)] else [])
    ensures backend.probes == ProbesOf(o)
    ensures backend.clock == old(backend.clock) + ProbeEnd(backend.script, target.probeInterval, ProbesOf(o) - 1)
  {
    hide TimeoutDetail, Woken;
    var started := backend.clock;
    var attempt := 0;
    ghost var base := backend.trace;
    while true
      invariant attempt == Attempt(backend.probes)
      invariant backend.trace == base + Waits(address, backend.probes)
      invariant backend.clock == started + ProbeStart(backend.script, target.probeInterval, backend.probes)
      invariant Unanswered(backend.script, target, backend.probes)
      invariant backend.probes <= horizon
      decreases horizon - backend.probes
    {
      attempt := Min(attempt + 1, U32_MAX);
      ghost var n := backend.probes + 1;
      NextRound(base, address, n);
      var answer := ReportAndProbe(backend, address, attempt);
      if answer.Failure? {
        o := ProbeFailed(address, n, answer.error);
        return Failure(WakeFailure(Probing, answer.error)), o;
      }
      if answer.value {
        backend.Report(Awake);
        o := Reached(address, n);
        return Success(()), o;
      }

      if backend.clock - started >= target.probeTimeout {
        o := TimedOut(address, n);
        return Failure(WakeFailure(Timeout, TimeoutDetail(target))), o;
      }

      backend.Sleep(target.probeInterval);
    }
  }

  /** What the script says of an attempt that came to the waiting loop. */
  lemma LoopResult(script: Script, target: WakeTarget, o: Outcome)
    requires Decides(script, target, o) && ProbesOf(o) > 0
    ensures forall k: nat | k < ProbesOf(o) - 1 ::
              script.probe(k) == Success(false) && ProbeEnd(script, target.probeInterval, k) < target.probeTimeout
    ensures match script.probe(ProbesOf(o) - 1)
            case Failure(d) => ResultOf(o, target) == Failure(WakeFailure(WakeFailureStage.Probing, d))
            case Success(true) => ResultOf(o, target) == Success(())
            case Success(false) =>
              && ProbeEnd(script, target.probeInterval, ProbesOf(o) - 1) >= target.probeTimeout
              && ResultOf(o, target) == Failure(WakeFailure(WakeFailureStage.Timeout, TimeoutDetail(target)))
  {
    hide TimeoutDetail, ProbeEnd;
    forall k: nat | k < ProbesOf(o) - 1
      ensures script.probe(k) == Success(false) && ProbeEnd(script, target.probeInterval, k) < target.probeTimeout
    {
      assert Continues(script, target, k);
    }
  }

  /** The asynchronous block of `run_wake`: everything between the first report and the
      disconnect. */
  method Session(backend: WakeBackend, target: WakeTarget, ghost horizon: nat)
    returns (result: Result<(), WakeFailure>, ghost o: Outcome)
    requires Halts(backend.script, target, horizon) && backend.probes == 0
    modifies backend
    ensures Decides(backend.script, target, o)
    ensures result == ResultOf(o, target)
    ensures backend.trace
         == old(backend.trace) + (Body(o, target.mac) + if result.Success? then [Event.Report(Awake)] else [])
    ensures backend.probes == ProbesOf(o)
    ensures backend.script.connect.Failure? ==>
              result == Failure(WakeFailure(WakeFailureStage.Connecting, backend.script.connect.error))
    ensures backend.script.connect.Success? && backend.script.resolve.Failure? ==>
              result == Failure(WakeFailure(WakeFailureStage.ResolveTarget, backend.script.resolve.error))
    ensures backend.script.connect.Success? && backend.script.resolve.Success? && backend.script.wake.Failure? ==>
              result == Failure(WakeFailure(WakeFailureStage.WakeRequest, backend.script.wake.error))
    ensures backend.script.connect.Success? && backend.script.resolve.Success? && backend.script.wake.Success? ==>
              var last := backend.probes - 1;
              && last >= 0
              && (forall k: nat | k < last :: backend.script.probe(k) == Success(false)
                                              && ProbeEnd(backend.script, target.probeInterval, k) < target.probeTimeout)
              && match backend.script.probe(last)
                 case Failure(d) => result == Failure(WakeFailure(WakeFailureStage.Probing, d))
                 case Success(true) => result == Success(())
                 case Success(false) =>
                   && ProbeEnd(backend.script, target.probeInterval, last) >= target.probeTimeout
                   && result == Failure(WakeFailure(WakeFailureStage.Timeout,
                        "PC did not become reachable within " + Decimal.Print(target.probeTimeout / 1_000_000_000) + " seconds"))
  {
    var connected := backend.Connect();
    if connected.Failure? {
      o := ConnectFailed(connected.error);
      return Failure(WakeFailure(WakeFailureStage.Connecting, connected.error)), o;
    }

    backend.Report(ResolvingPc);
    var resolved := backend.ResolveTargetIpv4(target.mac);
    if resolved.Failure? {
      o := ResolveFailed(resolved.error);
      return Failure(WakeFailure(ResolveTarget, resolved.error)), o;
    }

    backend.Report(Waking);
    var sent := backend.SendWake(target.mac);
    if sent.Failure? {
      o := WakeFailed(sent.error);
      return Failure(WakeFailure(WakeRequest, sent.error)), o;
    }
    ghost var stages := Stages(Reached(resolved.value, 0), target.mac);
    ghost var base := old(backend.trace);
    assert backend.trace == base + stages;

    result, o := WaitForPc(backend, target, resolved.value, horizon);
    Append(base, stages, Waits(resolved.value, ProbesOf(o)), if result.Success? then [Event.Report(Awake)] else []);
    assert Body(o, target.mac) == stages + Waits(resolved.value, ProbesOf(o));
    hide Decides, ResultOf, Waits, Body, ProbeEnd;
    LoopResult(backend.script, target, o);
  }

  /** `run_wake`. The outcome is forced by the environment, and the whole event sequence,
      the result and the released tunnel are forced by the outcome. */
  method RunWake(backend: WakeBackend, target: WakeTarget, ghost horizon: nat)
    returns (result: Result<(), WakeFailure>, ghost o: Outcome)
    requires Halts(backend.script, target, horizon) && backend.probes == 0
    modifies backend
    ensures Decides(backend.script, target, o)
    ensures result == ResultOf(o, target)
    ensures backend.trace == old(backend.trace) + TraceOf(o, target)
    ensures !backend.tunnel && backend.probes == ProbesOf(o)
    ensures backend.script.connect.Failure? ==>
              result == Failure(WakeFailure(WakeFailureStage.Connecting, backend.script.connect.error))
    ensures backend.script.connect.Success? && backend.script.resolve.Failure? ==>
              result == Failure(WakeFailure(WakeFailureStage.ResolveTarget, backend.script.resolve.error))
    ensures backend.script.connect.Success? && backend.script.resolve.Success? && backend.script.wake.Failure? ==>
              result == Failure(WakeFailure(WakeFailureStage.WakeRequest, backend.script.wake.error))
    ensures backend.script.connect.Success? && backend.script.resolve.Success? && backend.script.wake.Success? ==>
              var last := backend.probes - 1;
              && last >= 0
              && (forall k: nat | k < last :: backend.script.probe(k) == Success(false)
                                              && ProbeEnd(backend.script, target.probeInterval, k) < target.probeTimeout)
              && match backend.script.probe(last)
                 case Failure(d) => result == Failure(WakeFailure(WakeFailureStage.Probing, d))
                 case Success(true) => result == Success(())
                 case Success(false) =>
                   && ProbeEnd(backend.script, target.probeInterval, last) >= target.probeTimeout
                   && result == Failure(WakeFailure(WakeFailureStage.Timeout,
                        "PC did not become reachable within " + Decimal.Print(target.probeTimeout / 1_000_000_000) + " seconds"))
    ensures backend.trace[Max(0, |backend.trace| - 2)..] ==
              if result.Success? then [Event.Report(Awake), Event.Disconnect]
              else [Event.Disconnect, Event.Report(Failed(result.error))]
  {
    ghost var base := backend.trace;
    backend.Report(WakeState.Connecting);
    result, o := Session(backend, target, horizon);
    ghost var session := Body(o, target.mac);
    backend.Disconnect();
    if result.Failure? {
      backend.Report(Failed(result.error));
    }
    WholeTrace(base, session, Closing(o, target));
  }

  lemma WholeTrace(base: seq<Event>, session: seq<Event>, closing: seq<Event>)
    requires |closing| == 2
    ensures base + [Report(WakeState.Connecting)] + (session + [closing[0]]) + [closing[1]]
         == base + ([Report(WakeState.Connecting)] + session + closing)
    ensures base + [Report(WakeState.Connecting)] + (session + []) + [closing[0]] + [closing[1]]
         == base + ([Report(WakeState.Connecting)] + session + closing)
  {}

  // ---------------------------------------------------------------------------------------
  // Consequences: outcomes
  // ---------------------------------------------------------------------------------------

  lemma LoopStopsAtLastProbe(script: Script, target: WakeTarget, o: Outcome)
    requires Decides(script, target, o) && ProbesOf(o) > 0
    ensures Unanswered(script, target, ProbesOf(o) - 1) && !Continues(script, target, ProbesOf(o) - 1)
  {}

  /** The environment forces at most one outcome. */
  lemma OutcomeIsUnique(script: Script, target: WakeTarget, o1: Outcome, o2: Outcome)
    requires Decides(script, target, o1) && Decides(script, target, o2)
    ensures o1 == o2
  {
    if ProbesOf(o1) > 0 && ProbesOf(o2) > 0 {
      LoopStopsAtLastProbe(script, target, o1);
      LoopStopsAtLastProbe(script, target, o2);
    }
  }

  function CeilDiv(x: nat, y: nat): nat
    requires y > 0
  {
    (x + y - 1) / y
  }

  lemma {:induction false} ProbesAreSpaced(script: Script, interval: nat, k: nat)
    ensures ProbeStart(script, interval, k) >= k * interval
  {
    if k > 0 {
      ProbesAreSpaced(script, interval, k - 1);
      assert k * interval == (k - 1) * interval + interval;
    }
  }

  lemma CeilDivCovers(x: nat, y: nat)
    requires y > 0
    ensures CeilDiv(x, y) * y >= x
    ensures forall k: nat :: k * y < x ==> k < CeilDiv(x, y)
  {
    var q := CeilDiv(x, y);
    assert x + y - 1 == q * y + (x + y - 1) % y;
    forall k: nat
      ensures k >= q ==> k * y >= q * y
    {
      if k >= q {
        assert (k - q) * y >= 0;
      }
    }
  }

  /** With a positive interval every attempt terminates, whatever the backend answers. */
  lemma AttemptsHalt(script: Script, target: WakeTarget)
    requires target.probeInterval > 0
    ensures Halts(script, target, CeilDiv(target.probeTimeout, target.probeInterval))
  {
    var horizon := CeilDiv(target.probeTimeout, target.probeInterval);
    CeilDivCovers(target.probeTimeout, target.probeInterval);
    ProbesAreSpaced(script, target.probeInterval, horizon);
  }

  /** Time passes during the k-th probe or in the sleep after it. */
  ghost predicate Moves(script: Script, k: nat) {
    script.probeTime(k) + script.oversleep(k) > 0
  }

  /** Time passes again, in round `n` or later. */
  ghost predicate MovesFrom(script: Script, n: nat) {
    exists k: nat :: n <= k && Moves(script, k)
  }

  /** With a zero interval and a clock that keeps moving, however slowly, every attempt
      terminates. */
  lemma ZeroIntervalHaltsIfTimePasses(script: Script, target: WakeTarget) returns (horizon: nat)
    requires target.probeInterval == 0
    requires forall n: nat :: MovesFrom(script, n)
    ensures Halts(script, target, horizon)
  {
    horizon := LateProbe(script, target.probeTimeout);
  }

  /** A moving clock reaches every duration. */
  lemma {:induction false} LateProbe(script: Script, duration: nat) returns (k: nat)
    requires forall n: nat :: MovesFrom(script, n)
    ensures ProbeStart(script, 0, k) >= duration
  {
    if duration == 0 {
      k := 0;
    } else {
      var before := LateProbe(script, duration - 1);
      assert MovesFrom(script, before);
      var next: nat :| before <= next && Moves(script, next);
      ProbesAreOrdered(script, before, next);
      k := next + 1;
    }
  }

  lemma {:induction false} ProbesAreOrdered(script: Script, j: nat, k: nat)
    requires j <= k
    ensures ProbeStart(script, 0, j) <= ProbeStart(script, 0, k)
    decreases k
  {
    if j < k {
      ProbesAreOrdered(script, j, k - 1);
    }
  }

  /** With a zero interval and a clock that stands still from round `n` on, an attempt terminates
      exactly when some probe is not answered "no" or the timeout has passed by round `n`. */
  lemma FrozenClockHaltsIff(script: Script, target: WakeTarget, n: nat)
    requires target.probeInterval == 0 && !MovesFrom(script, n)
    ensures (exists horizon: nat :: Halts(script, target, horizon))
       <==> (exists k: nat :: script.probe(k) != Success(false)) || ProbeStart(script, 0, n) >= target.probeTimeout
  {
    if ProbeStart(script, 0, n) >= target.probeTimeout {
      assert Halts(script, target, n);
    }
    if exists k: nat :: script.probe(k) != Success(false) {
      var k: nat :| script.probe(k) != Success(false);
      assert Halts(script, target, k);
    }
    if exists horizon: nat :: Halts(script, target, horizon) {
      var horizon: nat :| Halts(script, target, horizon);
      if script.probe(horizon) == Success(false) {
        FrozenClock(script, n, horizon);
      }
    }
  }

  lemma {:induction false} FrozenClock(script: Script, n: nat, k: nat)
    requires !MovesFrom(script, n)
    ensures ProbeEnd(script, 0, k) <= ProbeStart(script, 0, n)
    decreases k
  {
    if k < n {
      ProbesAreOrdered(script, k + 1, n);
    } else if k == n {
      assert !Moves(script, k);
    } else {
      assert !Moves(script, k) && !Moves(script, k - 1);
      FrozenClock(script, n, k - 1);
    }
  }

  /** At most ceil(timeout / interval) + 1 probes are made. */
  lemma ProbeBudget(script: Script, target: WakeTarget, o: Outcome)
    requires target.probeInterval > 0 && Decides(script, target, o)
    ensures ProbesOf(o) <= CeilDiv(target.probeTimeout, target.probeInterval) + 1
  {
    var n := ProbesOf(o);
    if n > 1 {
      assert Continues(script, target, n - 2);
      ProbesAreSpaced(script, target.probeInterval, n - 2);
      CeilDivCovers(target.probeTimeout, target.probeInterval);
    }
  }

  /** When no probe lasts longer than `longest` and no sleep overshoots by more than `late`,
      the last timeout check falls before timeout + interval + late + longest. */
  lemma LastCheckBound(script: Script, target: WakeTarget, o: Outcome, longest: nat, late: nat)
    requires target.probeInterval > 0 && Decides(script, target, o) && ProbesOf(o) > 0
    requires forall k: nat :: script.probeTime(k) <= longest && script.oversleep(k) <= late
    ensures ProbeEnd(script, target.probeInterval, ProbesOf(o) - 1)
          < target.probeTimeout + target.probeInterval + late + longest
  {
    var n := ProbesOf(o);
    if n > 1 {
      assert Continues(script, target, n - 2);
    }
  }

  /** The default target: 241 probes, and with probes of at most 755 ms and exact sleeps the
      last check comes before 61.005 s. */
  lemma DefaultTargetBounds(script: Script, mac: MacAddress, o: Outcome)
    requires Decides(script, NewTarget(mac), o)
    requires forall k: nat :: script.probeTime(k) <= 755 * MILLISECOND && script.oversleep(k) == 0
    ensures ProbesOf(o) <= 241
    ensures ProbesOf(o) > 0
        ==> ProbeEnd(script, NewTarget(mac).probeInterval, ProbesOf(o) - 1) < 61_005 * MILLISECOND
  {
    ProbeBudget(script, NewTarget(mac), o);
    if ProbesOf(o) > 0 {
      LastCheckBound(script, NewTarget(mac), o, 755 * MILLISECOND, 0);
    }
  }
}
